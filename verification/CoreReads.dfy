/** Which memory reads core mode does by a cast, told from the types alone, and that ordinary member paths are
    read at their own offset and with their own size in every mode. */
module CoreReads {
  import opened Words
  import opened Machine
  import opened Types
  import opened Chains
  import opened Faithful
  import opened Codegen
  import opened CTypes
  import opened CLang
  import Cuts

  /** The struct or union that a read starts from: what the previous pointer points to. */
  function Behind(s: Offset): Option<string> {
    match s.prev
    case None => None
    case Some(t) =>
      match Underlying(t)
      case Pointer(u) => (match Underlying(u) case Aggregate(tag) => Some(tag) case _ => None)
      case _ => None
  }

  /** A number, an enumeration or a pointer. */
  predicate IsScalar(t: Ty) {
    match Underlying(t)
    case Int(_) | Enum(_, _) | Pointer(_) => true
    case _ => false
  }

  /** The bytes that one load reads of an object of that size. */
  function LoadBytes(size: nat): (w: nat)
    ensures w <= 8
  {
    match size
    case 1 => 1
    case 2 => 2
    case 4 => 4
    case _ => 8
  }

  /** A read of a scalar out of a struct, other than an array element. */
  predicate ByCast(spec: Spec, s: Offset) {
    !s.address && !s.inArray && Behind(s).Some? && IsScalar(s.ty)
  }

  /** A type of the read is not known to the kernel. */
  predicate Unresolved(spec: Spec, s: Offset) {
    !s.address && Behind(s).Some? && (Behind(s).value !in spec.castIds || SizeOf(spec, s.ty) == None)
  }

  /** The code of a single read in core mode: rejected exactly when a type cannot be resolved; by a cast to the
      struct it starts from, with a load at its own offset and of its own size, exactly for scalars that
      are no array elements; by the helper, eight bytes and without its offset, otherwise. */
  lemma {:induction false} CoreChoice(spec: Spec, s: Offset, reg: Reg)
    requires !s.address
    ensures CoreCompiles(spec, [s]) <==> !Unresolved(spec, s)
    ensures !Unresolved(spec, s) ==>
              CoreSteps(spec, [s], 1, reg) ==
              if ByCast(spec, s) then
                [Mov(R2, Imm(spec.castIds[Behind(s).value])), Call(RdonlyCast),
                 Ldx(reg, R0, s.off, LoadBytes(SizeOf(spec, s.ty).value))]
              else
                [Mov(R3, R(R1)), Mov(R2, Imm(8)), Mov(R1, R(FP)), Alu(Add, R1, Imm(-8)), Call(ProbeRead), Ldx(reg, FP, -8, 8)]
  {
    var one := [s];
    assert one[0] == s;
    assert CoreCompiles(spec, one) <==> CoreKindOf(spec, s) != CoreError;
    if !Unresolved(spec, s) {
      assert CoreSteps(spec, one, 0, reg) == [];
      assert CoreSteps(spec, one, 1, reg) == [] + CoreStep(CoreKindOf(spec, s), s.off, reg, true);
    }
  }

  /** Such a read gives the object at its own offset. */
  lemma {:induction false} CastComputes(cfg: Config, s: Offset, last: bool, mem: Memory, p: u64)
    requires cfg.mode == ModeCore && ByCast(cfg.spec, s) && !Unresolved(cfg.spec, s)
    requires -0x8000 <= s.off < 0x8000
    ensures var w := Load(mem, Wrap(p + s.off), LoadBytes(SizeOf(cfg.spec, s.ty).value));
            StepComputes(cfg, s, last, mem, p) == if last || w != 0 then Val(w) else Null
  {
    hide Load;
  }

  // Where a read starts from --------------------------------------------------------------------------

  /** What a step is taken from decides which struct the read is cast to: an arrow and a star start from the
      pointer they follow, an index and a sum from whatever the step before them started from. */
  lemma {:induction false} Origins(cfg: Config, a: Access, name: string, num: int, index: i64)
    requires WellIndexed(a)
    ensures var b := LowerMember(cfg, a, name);
            b.Some? && Underlying(a.ty).Pointer? ==> b.value.steps != [] && b.value.steps[|b.value.steps| - 1].prev == Some(a.ty)
    ensures var b := LowerIndir(a); b.Some? ==> b.value.steps != [] && b.value.steps[|b.value.steps| - 1].prev == Some(a.ty)
    ensures var b := LowerAdd(cfg, a, num);
            b.Some? ==> b.value.steps != [] && b.value.steps[|b.value.steps| - 1].prev == Before(a)
    ensures var b := LowerIndex(cfg, a, index);
            b.Some? ==> b.value.steps != [] && b.value.steps[|b.value.steps| - 1].prev == Before(a)
  {
  }

  /** What the last step so far started from. */
  function Before(a: Access): Option<Ty> {
    if a.steps == [] then None else a.steps[|a.steps| - 1].prev
  }

  /** In core mode an element of an array is read by the helper: eight bytes at the address so far, its own
      offset dropped. */
  lemma {:induction false} ElementFallsBack(cfg: Config, a: Access, index: i64, mem: Memory, p: u64)
    requires cfg.mode == ModeCore && WellIndexed(a) && IsArray(a.ty) && LowerIndex(cfg, a, index).Some?
    requires !Unresolved(cfg.spec, LowerIndex(cfg, a, index).value.steps[|a.steps|])
    ensures StepComputes(cfg, LowerIndex(cfg, a, index).value.steps[|a.steps|], true, mem, p) == Val(Load(mem, p, 8))
  {
    hide Load;
  }

  // Member paths -----------------------------------------------------------------------------------

  /** `p->f1->f2->...` */
  function Path(p: string, fs: seq<string>): Expr {
    if fs == [] then Name(p) else Arrow(Path(p, fs[..|fs| - 1]), fs[|fs| - 1])
  }

  /** The type a path has when it starts at `t`. */
  function PathType(spec: Spec, t: Ty, fs: seq<string>): Option<Ty> {
    if fs == [] then Some(t)
    else
      match PathType(spec, t, fs[..|fs| - 1])
      case None => None
      case Some(u) =>
        match FieldBehind(spec, u, fs[|fs| - 1])
        case None => None
        case Some(f) => Some(f.ty)
  }

  /** The member of the struct that a pointer of type `t` points to. */
  function FieldBehind(spec: Spec, t: Ty, name: string): Option<Field> {
    match Underlying(t)
    case Pointer(u) => CField(spec, Underlying(u), name)
    case _ => None
  }

  /** A member that is a whole number, enumeration or pointer in one of the first 32 KB of a struct that has an
      id in the kernel. */
  predicate Ordinary(spec: Spec, t: Ty, name: string) {
    match (Underlying(t), FieldBehind(spec, t, name))
    case (Pointer(u), Some(f)) =>
      && Underlying(u).Aggregate? && Underlying(u).tag in spec.castIds
      && f.bits == 0 && f.off < 0x8000 && IsScalar(f.ty)
      && var n := SizeOf(spec, f.ty); n == Some(1) || n == Some(2) || n == Some(4) || n == Some(8)
    case _ => false
  }

  /** Every member on the path is ordinary, and all but the last are pointers. */
  predicate OrdinaryPath(spec: Spec, t: Ty, fs: seq<string>) {
    forall i :: 0 <= i < |fs| ==>
      match PathType(spec, t, fs[..i])
      case None => false
      case Some(u) => Ordinary(spec, u, fs[i])
  }

  /** The `i`-th read of a path. */
  ghost predicate StepOf(spec: Spec, t: Ty, fs: seq<string>, i: int, s: Offset)
    requires 0 <= i < |fs|
  {
    match PathType(spec, t, fs[..i])
    case None => false
    case Some(u) =>
      Ordinary(spec, u, fs[i]) &&
      var f := FieldBehind(spec, u, fs[i]).value;
      s == Offset(f.off, false, f.ty, Some(u), false)
  }

  lemma {:induction false} MemberStep(cfg: Config, a: Access, name: string)
    requires WellIndexed(a) && !IsBitfield(a.mem) && Ordinary(cfg.spec, a.ty, name)
    ensures var f := FieldBehind(cfg.spec, a.ty, name).value;
            LowerMember(cfg, a, name) ==
            Some(Access(a.base, f.ty, Some(f), |a.steps|, a.steps + [Offset(f.off, false, f.ty, Some(a.ty), false)]))
  {
  }

  lemma {:induction false} PathFront(spec: Spec, t: Ty, fs: seq<string>)
    requires fs != [] && OrdinaryPath(spec, t, fs)
    ensures OrdinaryPath(spec, t, fs[..|fs| - 1])
    ensures PathType(spec, t, fs[..|fs| - 1]).Some?
    ensures Ordinary(spec, PathType(spec, t, fs[..|fs| - 1]).value, fs[|fs| - 1])
  {
    hide Ordinary, PathType;
    var front := fs[..|fs| - 1];
    forall i | 0 <= i < |front|
      ensures front[..i] == fs[..i]
    {
    }
  }

  /** The chain of an ordinary path: one whole read after the other. */
  lemma {:induction false} PathLowers(cfg: Config, p: string, fs: seq<string>)
    requires |cfg.vars| == |cfg.tys| && p in cfg.vars
    requires OrdinaryPath(cfg.spec, cfg.tys[IndexOf(cfg.vars, p)], fs)
    ensures var t, l := cfg.tys[IndexOf(cfg.vars, p)], Lower(cfg, Path(p, fs));
            && l.Some? && PathType(cfg.spec, t, fs) == Some(l.value.ty)
            && l.value.base == FromArg(IndexOf(cfg.vars, p)) && l.value.last == |fs| - 1 == |l.value.steps| - 1
            && !IsBitfield(l.value.mem) && (fs != [] ==> l.value.mem.Some?)
            && forall i :: 0 <= i < |fs| ==> StepOf(cfg.spec, t, fs, i, l.value.steps[i])
  {
    hide LowerMember, Ordinary, StepOf;
    var t := cfg.tys[IndexOf(cfg.vars, p)];
    if fs != [] {
      var n := |fs| - 1;
      PathFront(cfg.spec, t, fs);
      PathLowers(cfg, p, fs[..n]);
      var a := Lower(cfg, Path(p, fs[..n])).value;
      MemberStep(cfg, a, fs[n]);
      var b := LowerMember(cfg, a, fs[n]).value;
      OrdinaryWhole(cfg.spec, a.ty, fs[n]);
      forall i | 0 <= i < |fs|
        ensures StepOf(cfg.spec, t, fs, i, b.steps[i])
      {
        if i < n {
          StepLonger(cfg.spec, t, fs, i, a.steps[i]);
        } else {
          StepLast(cfg.spec, t, fs, a.ty, b.steps[n]);
        }
      }
    }
  }

  lemma {:induction false} OrdinaryWhole(spec: Spec, t: Ty, name: string)
    requires Ordinary(spec, t, name)
    ensures FieldBehind(spec, t, name).Some? && FieldBehind(spec, t, name).value.bits == 0
  {
  }

  lemma {:induction false} StepLonger(spec: Spec, t: Ty, fs: seq<string>, i: int, s: Offset)
    requires 0 <= i < |fs| - 1 && StepOf(spec, t, fs[..|fs| - 1], i, s)
    ensures StepOf(spec, t, fs, i, s)
  {
    hide Ordinary, PathType;
    assert fs[..|fs| - 1][..i] == fs[..i];
  }

  lemma {:induction false} StepLast(spec: Spec, t: Ty, fs: seq<string>, u: Ty, s: Offset)
    requires fs != [] && PathType(spec, t, fs[..|fs| - 1]) == Some(u) && Ordinary(spec, u, fs[|fs| - 1])
    requires var f := FieldBehind(spec, u, fs[|fs| - 1]).value; s == Offset(f.off, false, f.ty, Some(u), false)
    ensures StepOf(spec, t, fs, |fs| - 1, s)
  {
  }

  /** Such a step is done by a cast of the right struct, or is a plain load, and is what it means. */
  lemma {:induction false} OrdinaryStep(spec: Spec, t: Ty, fs: seq<string>, i: int, s: Offset)
    requires 0 <= i < |fs| && StepOf(spec, t, fs, i, s)
    ensures !s.address && 0 <= s.off < 0x8000 && ByCast(spec, s) && !Unresolved(spec, s)
    ensures Int16(s.off) == Int32(s.off) == s.off && Exact(s.off)
    ensures SizeOf(spec, s.ty).Some? && CoreKindOf(spec, s) == CoreCast(spec.castIds[Behind(s).value], LoadBytes(SizeOf(spec, s.ty).value))
    ensures s.ty == FieldBehind(spec, PathType(spec, t, fs[..i]).value, fs[i]).value.ty
    ensures !Underlying(s.ty).Array?
  {
  }

  /** A pointer is read whole. */
  lemma {:induction false} InnerWhole(spec: Spec, t: Ty, fs: seq<string>, i: int, s: Offset)
    requires 0 <= i < |fs| - 1 && OrdinaryPath(spec, t, fs) && StepOf(spec, t, fs, i, s)
    ensures SizeOf(spec, s.ty) == Some(8)
  {
    var u := PathType(spec, t, fs[..i]).value;
    assert fs[..i + 1][..i] == fs[..i];
    assert PathType(spec, t, fs[..i + 1]) == Some(s.ty);
    assert Ordinary(spec, s.ty, fs[i + 1]);
    SizeOfUnderlying(spec, s.ty);
  }

  /** In every read mode a path of ordinary members is within the fragment, in core mode as reads by casts that
      load every member at its own offset and with its own size. */
  lemma {:induction false} PathSupported(cfg: Config, p: string, fs: seq<string>)
    requires |cfg.vars| == |cfg.tys| && p in cfg.vars && fs != []
    requires OrdinaryPath(cfg.spec, cfg.tys[IndexOf(cfg.vars, p)], fs)
    ensures Supported(cfg, Path(p, fs))
    ensures ShapeOf(cfg, Path(p, fs)).Some?
    ensures var c := CShape(cfg, Path(p, fs));
            c.Some? && c.value.SReg? && PathType(cfg.spec, cfg.tys[IndexOf(cfg.vars, p)], fs) == Some(c.value.ty)
  {
    hide StepOf, OrdinaryPath, Ordinary, Lower, ShapeOf, PlaceType, PathType, CShape;
    var t := cfg.tys[IndexOf(cfg.vars, p)];
    PathLowers(cfg, p, fs);
    PathPlace(cfg, p, fs);
    PathChain(cfg, t, fs, Lower(cfg, Path(p, fs)).value);
    PathShape(cfg, p, fs);
  }

  lemma {:induction false} PathShape(cfg: Config, p: string, fs: seq<string>)
    requires |cfg.vars| == |cfg.tys| && fs != [] && PlaceOk(cfg, Path(p, fs))
    requires Lower(cfg, Path(p, fs)).Some? && ChainFaithful(cfg, Lower(cfg, Path(p, fs)).value.steps)
    ensures ShapeOf(cfg, Path(p, fs)).Some?
    ensures var c := CShape(cfg, Path(p, fs)); c.Some? && c.value.SReg? && c.value.ty == Lower(cfg, Path(p, fs)).value.ty
  {
    hide PlaceOk, ChainFaithful, ChainCompiles, Lower, PlaceType;
    LowerTyped(cfg, Path(p, fs));
    FaithfulCompiles(cfg, Lower(cfg, Path(p, fs)).value.steps);
  }

  lemma {:induction false} PathPlace(cfg: Config, p: string, fs: seq<string>)
    requires |cfg.vars| == |cfg.tys| && p in cfg.vars
    requires OrdinaryPath(cfg.spec, cfg.tys[IndexOf(cfg.vars, p)], fs)
    ensures PlaceOk(cfg, Path(p, fs))
  {
    hide Lower, Ordinary;
    if fs != [] {
      var t, n := cfg.tys[IndexOf(cfg.vars, p)], |fs| - 1;
      PathFront(cfg.spec, t, fs);
      PathPlace(cfg, p, fs[..n]);
      PathLowers(cfg, p, fs[..n]);
      LowerTyped(cfg, Path(p, fs[..n]));
      OrdinaryPointer(cfg.spec, PathType(cfg.spec, t, fs[..n]).value, fs[n]);
    }
  }

  lemma {:induction false} OrdinaryPointer(spec: Spec, t: Ty, name: string)
    requires Ordinary(spec, t, name)
    ensures Underlying(t).Pointer?
  {
  }

  /** The chain suits every read mode, survives the immediates and ends in a whole number. */
  lemma {:induction false} PathChain(cfg: Config, t: Ty, fs: seq<string>, a: Access)
    requires fs != [] && OrdinaryPath(cfg.spec, t, fs) && |a.steps| == |fs| && !IsBitfield(a.mem)
    requires PathType(cfg.spec, t, fs) == Some(a.ty)
    requires forall i :: 0 <= i < |fs| ==> StepOf(cfg.spec, t, fs, i, a.steps[i])
    ensures ChainFaithful(cfg, a.steps) && ExactOffsets(a.steps) && CutOk(cfg, a)
  {
    hide StepOf, OrdinaryPath, Ordinary, CoreKindOf, ByCast, Unresolved, Exact;
    forall i | 0 <= i < |fs|
      ensures Int16(a.steps[i].off) == Int32(a.steps[i].off) && Exact(a.steps[i].off) && !a.steps[i].address
      ensures CoreKindOf(cfg.spec, a.steps[i]).CoreCast?
      ensures i < |fs| - 1 ==> CoreKindOf(cfg.spec, a.steps[i]).size == 8
    {
      OrdinaryStep(cfg.spec, t, fs, i, a.steps[i]);
      if i < |fs| - 1 {
        InnerWhole(cfg.spec, t, fs, i, a.steps[i]);
      }
    }
    PathEnd(cfg.spec, t, fs);
  }

  lemma {:induction false} PathEnd(spec: Spec, t: Ty, fs: seq<string>)
    requires fs != [] && OrdinaryPath(spec, t, fs) && PathType(spec, t, fs).Some?
    ensures var ty := PathType(spec, t, fs).value; var n := SizeOf(spec, ty);
            !IsArray(ty) && (n == Some(1) || n == Some(2) || n == Some(4) || n == Some(8))
  {
    PathFront(spec, t, fs);
  }
}
