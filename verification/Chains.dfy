/** Offset chains: the list of address and load steps a memory access is lowered to, what such a
    list means, and the code the three memory-read backends emit for it. */
module Chains {
  import opened Words
  import opened Machine
  import opened Types
  import opened Spill

  const EXIT: Label := 0

  /** One step: add `off`, then load unless it only computes an address. */
  datatype Offset = Offset(off: int, address: bool, ty: Ty, prev: Option<Ty>, inArray: bool)

  // Meaning -------------------------------------------------------------------------------------

  function Advance(p: u64, off: int): u64 {
    Wrap(p + Int32(off))
  }

  /** A step whose result is used further: a null pointer read from memory ends the evaluation. */
  function StepUse(mem: Memory, s: Offset, p: u64): Res {
    var a := Advance(p, s.off);
    if s.address then Val(a)
    else if Load(mem, a, 8) == 0 then Null
    else Val(Load(mem, a, 8))
  }

  /** The last step, reading `width` bytes: a zero read from memory is a result like any other. */
  function StepLast(mem: Memory, s: Offset, p: u64, width: nat): u64
    requires width <= 8
  {
    var a := Advance(p, s.off);
    if s.address then a else Load(mem, a, width)
  }

  /** The first `n` steps, all used further. */
  function FoldUse(mem: Memory, steps: seq<Offset>, n: nat, v: u64): Res
    requires n <= |steps|
  {
    if n == 0 then Val(v)
    else
      match FoldUse(mem, steps, n - 1, v)
      case Null => Null
      case Val(p) => StepUse(mem, steps[n - 1], p)
  }

  function Fold(mem: Memory, steps: seq<Offset>, v: u64, width: nat): Res
    requires width <= 8
  {
    if steps == [] then Val(v)
    else
      match FoldUse(mem, steps, |steps| - 1, v)
      case Null => Null
      case Val(p) => Val(StepLast(mem, steps[|steps| - 1], p, width))
  }

  // Code ----------------------------------------------------------------------------------------

  predicate AllAddress(steps: seq<Offset>) {
    forall i :: 0 <= i < |steps| ==> steps[i].address
  }

  function AddressCode(steps: seq<Offset>, n: nat, reg: Reg): seq<Instr>
    requires n <= |steps|
  {
    if n == 0 then [] else AddressCode(steps, n - 1, reg) + [Alu(Add, reg, Imm(steps[n - 1].off))]
  }

  function AddUnlessZero(reg: Reg, off: int): seq<Instr> {
    if off != 0 then [Alu(Add, reg, Imm(off))] else []
  }

  function MovUnlessSame(dst: Reg, src: Reg): seq<Instr> {
    if dst != src then [Mov(dst, R(src))] else []
  }

  const ReadDword: seq<Instr> :=
    [Mov(R2, Imm(8)), Mov(R1, R(FP)), Alu(Add, R1, Imm(-8)), Call(ProbeRead)]

  function ProbeStep(s: Offset, reg: Reg, last: bool): seq<Instr> {
    AddUnlessZero(R3, s.off) +
    (if s.address then (if last then MovUnlessSame(reg, R3) else [])
     else ReadDword +
          (if last then [Ldx(reg, FP, -8, 8)]
           else [Ldx(R3, FP, -8, 8), JmpLabel(Eq, R3, Imm(0), EXIT)]))
  }

  function ProbeSteps(steps: seq<Offset>, n: nat, reg: Reg): seq<Instr>
    requires n <= |steps|
  {
    if n == 0 then []
    else ProbeSteps(steps, n - 1, reg) + ProbeStep(steps[n - 1], reg, n == |steps|)
  }

  function ProbeCode(cfg: Config, steps: seq<Offset>, reg: Reg, used: set<Reg>): seq<Instr> {
    PushCode(cfg.reserved, used, 5) +
    (MovUnlessSame(R3, reg) + ProbeSteps(steps, |steps|, reg)) +
    PopCode(cfg.reserved, used, 5)
  }

  function DirectStep(s: Offset, reg: Reg, last: bool): seq<Instr> {
    if s.address then AddUnlessZero(reg, s.off)
    else [Ldx(reg, reg, s.off, 8)] + (if last then [] else [JmpLabel(Eq, reg, Imm(0), EXIT)])
  }

  function DirectSteps(steps: seq<Offset>, n: nat, reg: Reg): seq<Instr>
    requires n <= |steps|
  {
    if n == 0 then []
    else DirectSteps(steps, n - 1, reg) + DirectStep(steps[n - 1], reg, n == |steps|)
  }

  datatype CastCheck = Castable(id: int) | NotCastable | CastError

  /** Only a pointer to a struct or union can be cast; its type must have an id. */
  function CanRdonlyCast(spec: Spec, t: Option<Ty>): CastCheck {
    match t
    case None => NotCastable
    case Some(ty) =>
      var u := Underlying(ty);
      if !u.Pointer? then NotCastable
      else
        var target := Underlying(u.target);
        if !target.Aggregate? then NotCastable
        else if target.tag in spec.castIds then Castable(spec.castIds[target.tag])
        else CastError
  }

  predicate CanReadByRdonlyCast(t: Ty) {
    var u := Underlying(t);
    u.Pointer? || u.Int? || u.Enum?
  }

  /** The width of a load of type `t`: any size that is not 1, 2 or 4 reads a dword. */
  function LoadSize(spec: Spec, t: Ty): (r: Option<nat>)
    ensures r.Some? ==> r.value == 1 || r.value == 2 || r.value == 4 || r.value == 8
  {
    match SizeOf(spec, t)
    case None => None
    case Some(n) => Some(if n == 1 || n == 2 || n == 4 then n else 8)
  }

  function CoreFallback(reg: Reg, last: bool): seq<Instr> {
    [Mov(R3, R(R1))] + ReadDword + [Ldx(if last && reg != R1 then reg else R1, FP, -8, 8)]
  }

  datatype CoreKind = CoreAddress | CoreCast(id: int, size: nat) | CoreProbe | CoreError

  /** How core mode carries out a step. */
  function CoreKindOf(spec: Spec, s: Offset): CoreKind {
    if s.address then CoreAddress
    else
      match CanRdonlyCast(spec, s.prev)
      case CastError => CoreError
      case NotCastable => CoreProbe
      case Castable(id) =>
        (match LoadSize(spec, s.ty)
         case None => CoreError
         case Some(size) =>
           if !CanReadByRdonlyCast(s.ty) || s.inArray then CoreProbe else CoreCast(id, size))
  }

  function CoreStep(kind: CoreKind, off: int, reg: Reg, last: bool): seq<Instr>
    requires kind != CoreError
  {
    match kind
    case CoreAddress => AddUnlessZero(R1, off) + (if last then MovUnlessSame(reg, R1) else [])
    case CoreProbe => CoreFallback(reg, last)
    case CoreCast(id, size) =>
      [Mov(R2, Imm(id)), Call(RdonlyCast)] +
      (if last then [Ldx(reg, R0, off, size)]
       else [Ldx(R1, R0, off, size), JmpLabel(Eq, R1, Imm(0), EXIT)])
  }

  predicate CoreCompiles(spec: Spec, steps: seq<Offset>) {
    forall i :: 0 <= i < |steps| ==> CoreKindOf(spec, steps[i]) != CoreError
  }

  function CoreSteps(spec: Spec, steps: seq<Offset>, n: nat, reg: Reg): seq<Instr>
    requires n <= |steps| && CoreCompiles(spec, steps)
  {
    if n == 0 then []
    else CoreSteps(spec, steps, n - 1, reg) +
         CoreStep(CoreKindOf(spec, steps[n - 1]), steps[n - 1].off, reg, n == |steps|)
  }

  function CoreSaved(cfg: Config): nat {
    if cfg.fastcall then 2 else 5
  }

  function CoreCode(cfg: Config, steps: seq<Offset>, reg: Reg, used: set<Reg>): seq<Instr>
    requires CoreCompiles(cfg.spec, steps)
  {
    PushCode(cfg.reserved, used, CoreSaved(cfg)) +
    (MovUnlessSame(R1, reg) + CoreSteps(cfg.spec, steps, |steps|, reg)) +
    PopCode(cfg.reserved, used, CoreSaved(cfg))
  }

  /** The code for a chain, or None when core mode cannot resolve a type. */
  function ChainCode(cfg: Config, steps: seq<Offset>, reg: Reg, used: set<Reg>): Option<seq<Instr>> {
    if steps == [] then Some([])
    else if AllAddress(steps) then Some(AddressCode(steps, |steps|, reg))
    else
      match cfg.mode
      case ModeProbe => Some(ProbeCode(cfg, steps, reg, used))
      case ModeCore => if CoreCompiles(cfg.spec, steps) then Some(CoreCode(cfg, steps, reg, used)) else None
      case ModeDirect => Some(DirectSteps(steps, |steps|, reg))
  }

  /** Some load before the last step. */
  predicate HasInnerLoad(steps: seq<Offset>) {
    exists i :: 0 <= i < |steps| - 1 && !steps[i].address
  }

  /** Whether emitting the chain makes the compiler define the exit label. */
  predicate MarksExit(cfg: Config, steps: seq<Offset>) {
    !AllAddress(steps) &&
    match cfg.mode
    case ModeProbe => HasInnerLoad(steps)
    case ModeCore => exists i :: 0 <= i < |steps| - 1 && CoreKindOf(cfg.spec, steps[i]).CoreCast?
    case ModeDirect => false
  }

  // What the code computes ------------------------------------------------------------------------

  /** A load address as the instruction forms it. */
  function LoadAt(p: u64, off: int): u64 {
    Wrap(p + Int16(off))
  }

  /** A value that is checked against zero unless it is the last. */
  function Checked(last: bool, w: u64): Res {
    if last || w != 0 then Val(w) else Null
  }

  /** What the code of a core-mode step leaves, in the target register or in R1 for the next step: a fallback
      read drops its offset and its null check, and a cast load keeps 16 bits of its offset. */
  function CoreStepComputes(kind: CoreKind, off: int, last: bool, mem: Memory, p: u64): Res
    requires KindWidth(kind) <= 8
  {
    match kind
    case CoreAddress => Val(Advance(p, off))
    case CoreProbe => Val(Load(mem, p, 8))
    case CoreCast(_, size) => Checked(last, Load(mem, LoadAt(p, off), size))
    case CoreError => Null
  }

  function DirectStepComputes(s: Offset, last: bool, mem: Memory, p: u64): Res {
    if s.address then Val(Advance(p, s.off)) else Checked(last, Load(mem, LoadAt(p, s.off), 8))
  }

  function ProbeStepComputes(s: Offset, last: bool, mem: Memory, p: u64): Res {
    if last then Val(StepLast(mem, s, p, 8)) else StepUse(mem, s, p)
  }

  function KindWidth(kind: CoreKind): nat {
    match kind
    case CoreCast(_, size) => size
    case _ => 8
  }

  lemma {:induction false} KindFits(spec: Spec, s: Offset)
    ensures 0 < KindWidth(CoreKindOf(spec, s)) <= 8
  {
  }

  function StepComputes(cfg: Config, s: Offset, last: bool, mem: Memory, p: u64): Res {
    match cfg.mode
    case ModeProbe => ProbeStepComputes(s, last, mem, p)
    case ModeCore => KindFits(cfg.spec, s); CoreStepComputes(CoreKindOf(cfg.spec, s), s.off, last, mem, p)
    case ModeDirect => DirectStepComputes(s, last, mem, p)
  }

  /** The first `n` steps of a chain. */
  function ChainComputes(cfg: Config, steps: seq<Offset>, n: nat, mem: Memory, v: u64): Res
    requires n <= |steps|
  {
    if n == 0 then Val(v)
    else
      match ChainComputes(cfg, steps, n - 1, mem, v)
      case Null => Null
      case Val(p) => StepComputes(cfg, steps[n - 1], n == |steps|, mem, p)
  }

  // When that is the meaning -----------------------------------------------------------------------

  /** Core mode does what the chain means only if a fallback read has no offset and comes last,
      pointers are read whole, and offsets fit the 16-bit field of a load. */
  predicate CoreFaithful(spec: Spec, steps: seq<Offset>) {
    && CoreCompiles(spec, steps)
    && forall i :: 0 <= i < |steps| ==>
         match CoreKindOf(spec, steps[i])
         case CoreAddress => true
         case CoreProbe => i == |steps| - 1 && Int32(steps[i].off) == 0
         case CoreCast(_, size) => (i < |steps| - 1 ==> size == 8) && Int16(steps[i].off) == Int32(steps[i].off)
         case CoreError => false
  }

  predicate DirectFaithful(steps: seq<Offset>) {
    forall i :: 0 <= i < |steps| && !steps[i].address ==> Int16(steps[i].off) == Int32(steps[i].off)
  }

  predicate ChainFaithful(cfg: Config, steps: seq<Offset>) {
    AllAddress(steps) ||
    match cfg.mode
    case ModeProbe => true
    case ModeCore => CoreFaithful(cfg.spec, steps)
    case ModeDirect => DirectFaithful(steps)
  }

  /** How many of R1 to R5 the spills around a chain look at. */
  function SavedRegs(cfg: Config): (n: nat)
    ensures n <= 5
  {
    if cfg.mode == ModeCore then CoreSaved(cfg) else 5
  }

  /** A helper call in the chain destroys no pending operand: apart from the register being computed,
      which the pop leaves alone, every caller-saved one that is in use comes back. */
  predicate SafeTarget(cfg: Config, steps: seq<Offset>, reg: Reg, used: set<Reg>) {
    AllAddress(steps) || cfg.mode == ModeDirect ||
    (!Restored(used, SavedRegs(cfg), reg)
     && forall r: Reg :: r in used && r != reg && r <= 5 ==> Restored(used, SavedRegs(cfg), r))
  }

  /** The width of the last read in core mode; 8 in the other modes. */
  function LastWidth(cfg: Config, steps: seq<Offset>): (w: nat)
    ensures w <= 8
  {
    if steps == [] || AllAddress(steps) || cfg.mode != ModeCore then 8
    else
      match CoreKindOf(cfg.spec, steps[|steps| - 1])
      case CoreCast(_, size) => size
      case _ => 8
  }

  lemma {:induction false} SameAddress(p: u64, off: int)
    ensures Int16(off) == Int32(off) ==> LoadAt(p, off) == Advance(p, off)
    ensures Int32(off) == 0 ==> Advance(p, off) == p
  {
  }

  /** A step of a faithful chain computes its meaning. */
  lemma {:induction false} StepFaithful(cfg: Config, steps: seq<Offset>, i: nat, mem: Memory, p: u64)
    requires ChainFaithful(cfg, steps) && i < |steps|
    ensures StepComputes(cfg, steps[i], i == |steps| - 1, mem, p) ==
            if i < |steps| - 1 then StepUse(mem, steps[i], p) else Val(StepLast(mem, steps[i], p, LastWidth(cfg, steps)))
  {
    hide Load, Advance, LoadAt;
    SameAddress(p, steps[i].off);
  }

  /** A faithful chain computes its fold. */
  lemma {:induction false} ChainComputesUse(cfg: Config, steps: seq<Offset>, n: nat, mem: Memory, v: u64)
    requires ChainFaithful(cfg, steps) && n < |steps|
    ensures ChainComputes(cfg, steps, n, mem, v) == FoldUse(mem, steps, n, v)
  {
    hide StepComputes, StepUse, ChainFaithful;
    if n > 0 {
      ChainComputesUse(cfg, steps, n - 1, mem, v);
      if ChainComputes(cfg, steps, n - 1, mem, v).Val? {
        StepFaithful(cfg, steps, n - 1, mem, FoldUse(mem, steps, n - 1, v).v);
      }
    }
  }

  lemma {:induction false} ChainComputesFold(cfg: Config, steps: seq<Offset>, mem: Memory, v: u64)
    requires ChainFaithful(cfg, steps)
    ensures ChainComputes(cfg, steps, |steps|, mem, v) == Fold(mem, steps, v, LastWidth(cfg, steps))
  {
    hide StepComputes, StepUse, StepLast, ChainFaithful, LastWidth;
    if steps != [] {
      var n := |steps| - 1;
      ChainComputesUse(cfg, steps, n, mem, v);
      if ChainComputes(cfg, steps, n, mem, v).Val? {
        StepFaithful(cfg, steps, n, mem, FoldUse(mem, steps, n, v).v);
      }
    }
  }
}
