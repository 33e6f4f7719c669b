/** On the supported fragment the compiled code computes the C meaning. */
module Fragment {
  import opened Words
  import opened Machine
  import opened Types
  import opened Chains
  import opened Operators
  import opened Faithful
  import opened Codegen
  import opened Correctness
  import opened Cuts
  import opened CTypes
  import opened CLang
  import opened Filter
  import Discipline

  /** What a supported place expression starts from is supported too. */
  lemma {:induction false} PlaceBase(cfg: Config, e: Expr)
    requires |cfg.vars| == |cfg.tys| && PlaceOk(cfg, e) && Lower(cfg, e).Some?
    ensures var b := Lower(cfg, e).value.base;
            && (b.FromExpr? ==> Supported(cfg, b.e))
            && (b.FromConst? ==> b.n != 0 && Exact(b.n))
    decreases e
  {
    hide LowerMember, LowerAdd, LowerIndex, LowerIndir, LowerAddr, LowerCast, Supported, HasType;
    match e
    case Name(_) =>
    case Dot(arg, field) =>
      PlaceBase(cfg, arg);
      LowerKeepsBase(cfg, Lower(cfg, arg).value, field, 0);
    case Arrow(arg, field) =>
      PlaceBase(cfg, arg);
      LowerKeepsBase(cfg, Lower(cfg, arg).value, field, 0);
    case Bin(OAdd, l, r) =>
      var (arg, num) := if l.Number? then (r, Int64(l.value)) else (l, Int64(r.value));
      PlaceBase(cfg, arg);
      LowerKeepsBase(cfg, Lower(cfg, arg).value, "", num);
    case Bin(OSub, l, r) =>
      PlaceBase(cfg, l);
      LowerKeepsBase(cfg, Lower(cfg, l).value, "", 0 - Int64(r.value));
    case Bin(_, _, _) =>
    case Addr(arg) =>
      PlaceBase(cfg, arg);
      LowerKeepsBase(cfg, Lower(cfg, arg).value, "", 0);
    case Cast(_, arg) =>
      if arg.Number? {
        LowerKeepsBase(cfg, Access(FromConst(arg.value), Void, None, 0, []), "", 0);
      } else {
        PlaceBase(cfg, arg);
        LowerKeepsBase(cfg, Lower(cfg, arg).value, "", 0);
      }
    case Index(arg, index) =>
      PlaceBase(cfg, arg);
      LowerKeepsBase(cfg, Lower(cfg, arg).value, "", 0);
    case Indir(arg) =>
      PlaceBase(cfg, arg);
      LowerKeepsBase(cfg, Lower(cfg, arg).value, "", 0);
    case Paren(arg) => PlaceBase(cfg, arg);
  }

  // Types the compiler gets wrong ----------------------------------------------------------------------

  /** `(c ? x : y) == n` compares with the constant cut to the type of the condition: with arms of another type
      and the value n in the chosen one it comes out false, unless the cut constant is n again. */
  lemma {:induction false} ArmTypeWitness(spec: Spec, condition: Ty, arm: Ty, n: i64)
    requires CNumeric(condition) && CNumeric(arm) && CFit(spec, n, arm, None) == n
    requires Immediate(CFit(spec, n, condition, None)) != Wrap(n)
    ensures var c, x := SReg(condition, None), SReg(arm, None);
            && CondShape(c, x, x) == Some(c) && CCondResult(c, x, x) == Some(x)
            && PreHandle(spec, c, SNum(n)).Some? && CCoerce(spec, x, SNum(n)) == Some((x, SNum(n)))
            && var (a, b) := PreHandle(spec, c, SNum(n)).value;
               Computed(spec, OEq, a, b, Wrap(n), 0) == 0 && CMeaning(spec, OEq, x, SNum(n), Wrap(n), 0) == 1
  {
    CoerceAgrees(spec, SReg(condition, None), SNum(n));
    hide PreHandle;
    CalculateIs(condition);
    CalculateIs(arm);
  }

  /** `(p == q) + 1` on pointers to objects of more than one byte adds the size of one. */
  lemma {:induction false} TestTypeWitness(spec: Spec, pointer: Ty)
    requires Underlying(pointer).Pointer? && 1 < SizeOrZero(spec, Underlying(pointer).target) < 0x8000_0000
    ensures var p := SReg(pointer, None);
            && BinShape(spec, OEq, p, p) == Some(p) && CResult(spec, OEq, p, p) == Some(SReg(Int(4), None))
            && Computed(spec, OAdd, p, SNum(1), 1, 0) == 1 + SizeOrZero(spec, Underlying(pointer).target)
            && CMeaning(spec, OAdd, SReg(Int(4), None), SNum(1), 1, 0) == 2
  {
    TestTyped(spec, pointer);
    ScaledByOne(spec, pointer);
    IntByOne(spec);
    hide BinShape, CResult, Computed, CMeaning;
  }

  lemma {:induction false} TestTyped(spec: Spec, pointer: Ty)
    requires Underlying(pointer).Pointer?
    ensures BinShape(spec, OEq, SReg(pointer, None), SReg(pointer, None)) == Some(SReg(pointer, None))
    ensures CResult(spec, OEq, SReg(pointer, None), SReg(pointer, None)) == Some(SReg(Int(4), None))
  {
  }

  lemma {:induction false} ScaledByOne(spec: Spec, pointer: Ty)
    requires Underlying(pointer).Pointer? && 1 < SizeOrZero(spec, Underlying(pointer).target) < 0x8000_0000
    ensures Computed(spec, OAdd, SReg(pointer, None), SNum(1), 1, 0) == 1 + SizeOrZero(spec, Underlying(pointer).target)
  {
    SizeOfUnderlying(spec, Underlying(pointer).target);
    hide SizeOrZero;
    assert AddScale(spec, pointer) == Some(SizeOrZero(spec, Underlying(pointer).target));
  }

  lemma {:induction false} IntByOne(spec: Spec)
    ensures CMeaning(spec, OAdd, SReg(Int(4), None), SNum(1), 1, 0) == 2
  {
    hide CWord, CConst;
    assert CScale(spec, SNum(1)) == 1 && CScale(spec, SReg(Int(4), None)) == 1;
  }

  /** A number cast to a pointer is the start of its chain, in every environment, exactly when it is not 0
      and the sign extension of its low 32 bits gives it back. */
  lemma {:induction false} BaseConstIff(n: u64)
    ensures (forall env: Env :: |env.args| > 0 ==> BaseValue(FromConst(n), env) == n)
            <==> n != 0 && (n < 0x8000_0000 || n >= TWO64 - 0x8000_0000)
    ensures n < 0x8000_0000 || n >= TWO64 - 0x8000_0000 <==> Exact(n)
  {
    var env := Env([1], map[]);
    assert BaseValue(FromConst(n), env) == if n == 0 then 1 else Immediate(n);
  }

  /** An element that is itself an array is read from memory, where C gives its address. */
  lemma {:induction false} ArrayElementReads(cfg: Config, a: Access, index: i64, mem: Memory, v: u64)
    requires LowerIndex(cfg, a, index).Some? && FoldUse(mem, a.steps, |a.steps|, v).Val?
    ensures var b, p := LowerIndex(cfg, a, index).value, FoldUse(mem, a.steps, |a.steps|, v).v;
            && b.ty == Target(a.ty)
            && Fold(mem, b.steps, v, 8) == Val(Load(mem, Advance(p, index * SizeOrZero(cfg.spec, Target(a.ty))), 8))
  {
    hide Load;
    var b := LowerIndex(cfg, a, index).value;
    FoldUsePrefix(mem, a.steps, b.steps, |a.steps|, v);
  }

  lemma {:induction false} FoldUsePrefix(mem: Memory, s1: seq<Offset>, s2: seq<Offset>, n: nat, v: u64)
    requires n <= |s1| && n <= |s2| && forall i :: 0 <= i < n ==> s1[i] == s2[i]
    ensures FoldUse(mem, s1, n, v) == FoldUse(mem, s2, n, v)
  {
    if n > 0 {
      FoldUsePrefix(mem, s1, s2, n - 1, v);
    }
  }

  lemma {:induction false} SupportedSane(cfg: Config, e: Expr)
    requires |cfg.vars| == |cfg.tys| && Supported(cfg, e)
    ensures Sane(cfg, e)
    decreases e
  {
    match e
    case Bin(_, l, r) => SupportedSane(cfg, l); SupportedSane(cfg, r);
    case Un(_, arg) => SupportedSane(cfg, arg);
    case Cond(c, t, f) => SupportedSane(cfg, c); SupportedSane(cfg, t); SupportedSane(cfg, f);
    case Cast(_, arg) => SupportedSane(cfg, arg);
    case Paren(arg) => SupportedSane(cfg, arg);
    case Plus(arg) => SupportedSane(cfg, arg);
    case Name(_) =>
    case Number(_) =>
    case _ =>
      if Lower(cfg, e).Some? {
        PlaceBase(cfg, e);
        if Lower(cfg, e).value.base.FromExpr? {
          SupportedSane(cfg, Lower(cfg, e).value.base.e);
        }
      }
  }

  // The value of an access ----------------------------------------------------------------------------

  /** The value left by the last step of an exact chain. */
  lemma {:induction false} LastStepMeans(steps: seq<Offset>, mem: Memory, v: u64, width: nat, addr: u64)
    requires steps != [] && ExactOffsets(steps) && width <= 8
    requires FoldExact(mem, steps, |steps| - 1, v).Val?
    requires addr == Wrap(FoldExact(mem, steps, |steps| - 1, v).v + steps[|steps| - 1].off)
    ensures Fold(mem, steps, v, width) == Val(if steps[|steps| - 1].address then addr else Load(mem, addr, width))
  {
    FoldExactIs(mem, steps, |steps| - 1, v);
    ExactAdvance(FoldExact(mem, steps, |steps| - 1, v).v, steps[|steps| - 1].off);
  }

  lemma {:induction false} WidthOf(cfg: Config, steps: seq<Offset>)
    requires steps != []
    ensures var w := LastWidth(cfg, steps);
            w == 8 || Some(w) == LoadSize(cfg.spec, steps[|steps| - 1].ty)
  {
  }

  /** A number of its own size, read with width `w`, and cut. */
  lemma {:induction false} NumberMeans(spec: Spec, mem: Memory, addr: u64, ty: Ty, w: nat)
    requires WholeRead(mem, addr, 1)
    requires SizeOf(spec, ty) == Some(1) || SizeOf(spec, ty) == Some(2) || SizeOf(spec, ty) == Some(4) || SizeOf(spec, ty) == Some(8)
    requires w == 8 || w == SizeOf(spec, ty).value
    ensures Finish(spec, ty, None, Load(mem, addr, w)) == Load(mem, addr, SizeOf(spec, ty).value)
  {
    hide Finish, Load;
    var n := SizeOf(spec, ty).value;
    FinishNumber(spec, ty, None, Load(mem, addr, w));
    WholeGrows(mem, addr, n);
    WholeReadTruncates(mem, addr, n);
  }

  lemma {:induction false} WholeGrows(mem: Memory, addr: u64, n: nat)
    requires WholeRead(mem, addr, 1) && n >= 1
    ensures WholeRead(mem, addr, n)
  {
    if Mapped(mem, addr, n) {
      assert Cell(addr, 0) in mem;
      assert Mapped(mem, addr, 1);
    }
  }

  lemma {:induction false} BitfieldMeans(spec: Spec, mem: Memory, addr: u64, ty: Ty, f: Field, w: nat)
    requires f.bits != 0 && ExactBitfield(f) && w <= 8 && f.delta + f.bits <= 8 * w && WholeRead(mem, addr, 1)
    ensures Finish(spec, ty, Some(f), Load(mem, addr, w)) == Extract(f, Load(mem, addr, 8))
  {
    hide Finish, Load;
    BitfieldIff(spec, ty, f);
    WholeGrows(mem, addr, w);
    ExtractFromPart(f, mem, addr, w);
  }

  /** A chain, folded and cut, is the value of the place it denotes. */
  lemma {:induction false} DenotedValue(cfg: Config, a: Access, start: Res, mem: Memory, r: PlaceRes)
    requires DenotesRes(a, start, mem, r) && a.steps != [] && ExactOffsets(a.steps) && CutOk(cfg, a)
    requires ChainFaithful(cfg, a.steps)
    requires r.Has? && r.place.Temp? ==> a.ty.Pointer?
    requires r.Has? && r.place.At? ==> WholeRead(mem, r.place.addr, 1)
    ensures ActualAccess(cfg, a, start, mem) ==
            match r case NoPlace => Null case Has(p) => Val(CRead(cfg.spec, mem, p))
  {
    hide Finish, Load, ChainComputes, ChainFaithful;
    if start.Val? {
      var v, w := start.v, LastWidth(cfg, a.steps);
      ChainComputesFold(cfg, a.steps, mem, v);
      match r {
        case NoPlace => FoldExactIs(mem, a.steps, |a.steps| - 1, v);
        case Has(p) =>
          var addr := LastAddr(a, v, mem);
          LastStepMeans(a.steps, mem, v, w, addr);
          WidthOf(cfg, a.steps);
          if p.Temp? || IsArray(a.ty) {
            FinishNumber(cfg.spec, a.ty, a.mem, addr);
          } else if IsBitfield(a.mem) {
            BitfieldMeans(cfg.spec, mem, addr, a.ty, a.mem.value, w);
          } else {
            NumberMeans(cfg.spec, mem, addr, a.ty, w);
            FinishIgnores(cfg.spec, a.ty, a.mem, Load(mem, addr, w));
          }
      }
    }
  }

  lemma {:induction false} FinishIgnores(spec: Spec, ty: Ty, mem: Option<Field>, w: u64)
    requires !IsBitfield(mem)
    ensures Finish(spec, ty, mem, w) == Finish(spec, ty, None, w)
  {
  }

  lemma {:induction false} AccessSteps(cfg: Config, e: Expr, env: Env)
    requires ValidConfig(cfg) && ValidEnv(cfg, env) && IsAccess(e) && Lower(cfg, e).Some?
    ensures Lower(cfg, e).value.steps != []
    ensures CPlace(cfg, e, env).Has? && CPlace(cfg, e, env).place.Temp? ==> Lower(cfg, e).value.ty.Pointer?
  {
  }

  // Expressions ---------------------------------------------------------------------------------------

  lemma {:induction false} ConstUnMeans(op: UnOp, n: i64)
    ensures UnPlan(op, SNum(n)).Some? && UnPlan(op, SNum(n)).value.PConst?
    ensures Wrap(UnPlan(op, SNum(n)).value.n) == CUnWord(op, Wrap(n))
  {
    hide Int64;
    match op
    case UMinus => WrapInt64(0 - n); NegWrap(n, 0);
    case UNot => ConstZero(n);
    case UPreDec => WrapInt64(n - 1); StepWrap(n, -1);
    case UPreInc => WrapInt64(n + 1); StepWrap(n, 1);
    case UTwid => WrapInt64(-1 - n); NegWrap(n, -1);
  }

  lemma {:induction false} NegWrap(n: int, k: int)
    requires k == 0 || k == -1
    ensures Wrap(k - n) == Wrap(TWO64 + k - Wrap(n))
  {
    WrapSubLeft(k, n);
    WrapShift(k - Wrap(n), 1);
  }

  lemma {:induction false} StepWrap(n: int, k: int)
    ensures Wrap(n + k) == Wrap(Wrap(n) + k)
  {
    WrapAddLeft(k, n);
  }

  /** Operands of like effect have the same meaning. */
  lemma {:induction false} AlikeMeans(spec: Spec, op: BinOp, a: Shape, b: Shape, c: Shape, d: Shape, x: u64, y: u64)
    requires Alike(op, a, c) && Alike(op, b, d)
    ensures CMeaning(spec, op, a, b, x, y) == CMeaning(spec, op, c, d, x, y)
    ensures CTyped(op, a, b) <==> CTyped(op, c, d)
  {
    hide CWord, CConst, CQuotient, CScale;
    if op == OAdd || op == OSub {
      AlikeScale(spec, op, a, c);
      AlikeScale(spec, op, b, d);
    }
  }

  lemma {:induction false} AlikeScale(spec: Spec, op: BinOp, a: Shape, c: Shape)
    requires Alike(op, a, c) && (op == OAdd || op == OSub)
    ensures CScale(spec, a) == CScale(spec, c) && (IsPtr(a) <==> IsPtr(c))
  {
    if a.SReg? {
      ScalesAgree(spec, a.ty, c.ty);
    }
  }

  /** A supported operator computes its meaning on the operands as C coerces them. */
  lemma {:induction false} BinMeans(cfg: Config, op: BinOp, l: Expr, r: Expr, x: u64, y: u64)
    requires |cfg.vars| == |cfg.tys| && Supported(cfg, Bin(op, l, r)) && ShapeOf(cfg, Bin(op, l, r)).Some?
    ensures CShape(cfg, l).Some? && CShape(cfg, r).Some?
    ensures CCoerce(cfg.spec, CShape(cfg, l).value, CShape(cfg, r).value).Some?
    ensures var (a, b) := PreHandle(cfg.spec, ShapeOf(cfg, l).value, ShapeOf(cfg, r).value).value;
            var (c, d) := CCoerce(cfg.spec, CShape(cfg, l).value, CShape(cfg, r).value).value;
            Computed(cfg.spec, op, a, b, x, y) == CMeaning(cfg.spec, op, c, d, x, y)
  {
    hide Computed, CMeaning, FaithfulBin, PreHandle, CCoerce, BinPlan;
    ShapesAgree(cfg, l);
    ShapesAgree(cfg, r);
    var (a, b) := PreHandle(cfg.spec, ShapeOf(cfg, l).value, ShapeOf(cfg, r).value).value;
    var (c, d) := CCoerce(cfg.spec, CShape(cfg, l).value, CShape(cfg, r).value).value;
    AlikeMeans(cfg.spec, op, a, b, c, d, x, y);
    FaithfulMeans(cfg.spec, op, a, b, x, y);
  }

  /** A constant shape fixes the C value. */
  lemma {:induction false} ConstValue(cfg: Config, e: Expr, env: Env)
    requires ValidConfig(cfg) && ValidEnv(cfg, env) && Supported(cfg, e)
    requires CValueOf(cfg, e, env).Val? && SomeConst(cfg, e)
    ensures CValueOf(cfg, e, env).v == Wrap(ShapeOf(cfg, e).value.n)
    decreases e
  {
    hide Computed, CMeaning, FaithfulBin, FoldConst, PreHandle, CCoerce, Lower, CPlace, PlaceOk, AccessOk, UnPlan, CUnWord;
    match e
    case Name(text) => NamesAgree(cfg, text);
    case Number(v) => WrapInt64(v);
      ModSmall(v, TWO64);
    case Bin(op, l, r) =>
      var (a, b) := PreHandle(cfg.spec, ShapeOf(cfg, l).value, ShapeOf(cfg, r).value).value;
      BinMeans(cfg, op, l, r, CValueOf(cfg, l, env).v, CValueOf(cfg, r, env).v);
      ConstPlanMeans(cfg.spec, op, a, b, CValueOf(cfg, l, env).v, CValueOf(cfg, r, env).v);
    case Un(op, arg) =>
      ShapesAgree(cfg, arg);
      UnKeepsKind(op, ShapeOf(cfg, arg).value);
      ConstValue(cfg, arg, env);
      ConstUnMeans(op, ShapeOf(cfg, arg).value.n);
    case Cond(c, t, f) =>
      ConstValue(cfg, c, env);
      var n := ShapeOf(cfg, c).value.n;
      ConstZero(n);
      ConstValue(cfg, if n == 0 then f else t, env);
    case Paren(arg) => ConstValue(cfg, arg, env);
    case Plus(arg) => ConstValue(cfg, arg, env);
    case Cast(_, arg) =>
    case _ =>
  }

  lemma {:induction false} UnKeepsKind(op: UnOp, a: Shape)
    requires UnShape(op, a).Some?
    ensures UnShape(op, a).value.SNum? <==> a.SNum?
  {
  }

  lemma {:induction false} ConstZero(n: i64)
    ensures Wrap(n) == 0 <==> n == 0
  {
  }

  /** A constant plan is what the code computes, whatever the register operand holds. */
  lemma {:induction false} ConstPlanMeans(spec: Spec, op: BinOp, a: Shape, b: Shape, x: u64, y: u64)
    requires BinPlan(spec, op, a, b).Some? && BinPlan(spec, op, a, b).value.PConst?
    ensures Computed(spec, op, a, b, x, y) == Wrap(BinPlan(spec, op, a, b).value.n)
  {
    hide AluResult, FoldConst;
  }

  /** The C meaning of an access is what its chain computes. */
  lemma {:induction false} AccessMeans(cfg: Config, e: Expr, start: Res, env: Env)
    requires ValidConfig(cfg) && ValidEnv(cfg, env) && IsAccess(e)
    requires Supported(cfg, e) && ReadsWhole(cfg, e, env) && Lower(cfg, e).Some?
    requires start == CStart(cfg, Lower(cfg, e).value.base, env)
    ensures ActualAccess(cfg, Lower(cfg, e).value, start, env.mem) == CValueOf(cfg, e, env)
  {
    hide DenotesRes, ActualAccess, CRead, ShapeOf, CutOk, ExactOffsets;
    var a := Lower(cfg, e).value;
    LowerMeans(cfg, e, env);
    AccessSteps(cfg, e, env);
    DenotedValue(cfg, a, start, env.mem, CPlace(cfg, e, env));
  }

  /** On the supported fragment the compiled value is the C value. */
  lemma {:induction false} SupportedMeans(cfg: Config, e: Expr, env: Env)
    requires ValidConfig(cfg) && ValidEnv(cfg, env) && Supported(cfg, e) && ReadsWhole(cfg, e, env)
    requires ShapeOf(cfg, e).Some?
    ensures Actual(cfg, e, env) == CValueOf(cfg, e, env)
    decreases e
  {
    hide Computed, CMeaning, BinOk, PreHandle, CCoerce, BinPlan, ActualAccess, ComputedUn, CMeaningUn, UnPlan, CUnWord;
    match e
    case Name(text) => NamesAgree(cfg, text);
    case Number(v) =>
      WrapInt64(v);
      ModSmall(v, TWO64);
    case Bin(op, l, r) =>
      SupportedMeans(cfg, l, env);
      SupportedMeans(cfg, r, env);
      if Actual(cfg, l, env).Val? && Actual(cfg, r, env).Val? {
        BinMeans(cfg, op, l, r, Actual(cfg, l, env).v, Actual(cfg, r, env).v);
      }
    case Un(op, arg) =>
      SupportedMeans(cfg, arg, env);
      if Actual(cfg, arg, env).Val? {
        UnMeans(cfg, op, arg, Actual(cfg, arg, env).v, env);
      }
    case Cond(c, t, f) =>
      SupportedMeans(cfg, c, env);
      SupportedMeans(cfg, t, env);
      SupportedMeans(cfg, f, env);
      if Actual(cfg, c, env).Val? && Actual(cfg, t, env).Val? && Actual(cfg, f, env).Val? {
        CondMeans(cfg, c, t, f, env);
      }
    case Cast(_, arg) =>
      SupportedMeans(cfg, arg, env);
      if Actual(cfg, arg, env).Val? && SomeConst(cfg, arg) {
        ConstValue(cfg, arg, env);
      }
    case Paren(arg) => SupportedMeans(cfg, arg, env);
    case Plus(arg) => SupportedMeans(cfg, arg, env);
    case _ =>
      var a := Lower(cfg, e).value;
      PlaceBase(cfg, e);
      if a.base.FromExpr? {
        LowerBase(cfg, e);
        SupportedMeans(cfg, a.base.e, env);
      } else if a.base.FromConst? {
        ModSmall(a.base.n, TWO64);
      }
      AccessMeans(cfg, e, CStart(cfg, a.base, env), env);
  }

  lemma {:induction false} UnMeans(cfg: Config, op: UnOp, arg: Expr, x: u64, env: Env)
    requires ValidConfig(cfg) && ValidEnv(cfg, env) && Supported(cfg, Un(op, arg))
    requires ShapeOf(cfg, Un(op, arg)).Some? && CValueOf(cfg, arg, env) == Val(x)
    ensures CShape(cfg, arg).Some?
    ensures var a, c := ShapeOf(cfg, arg).value, CShape(cfg, arg).value;
            (match UnPlan(op, a) case Some(PConst(n)) => Wrap(n) case _ => ComputedUn(op, x)) ==
            if c.SReg? then CMeaningUn(cfg.spec, op, c, x) else CUnWord(op, x)
  {
    hide ComputedUn, CMeaningUn, CUnWord;
    var a := ShapeOf(cfg, arg).value;
    ShapesAgree(cfg, arg);
    if a.SReg? {
      FaithfulUnIff(cfg.spec, op, a);
      UnLike(cfg.spec, op, a, CShape(cfg, arg).value, x);
    } else {
      ConstValue(cfg, arg, env);
      ConstUnMeans(op, a.n);
    }
  }

  lemma {:induction false} UnLike(spec: Spec, op: UnOp, a: Shape, c: Shape, x: u64)
    requires a.SReg? && c.SReg? && (op == UPreInc || op == UPreDec ==> SameStep(a.ty, c.ty))
    ensures CMeaningUn(spec, op, a, x) == CMeaningUn(spec, op, c, x)
  {
    hide CScale;
    if op == UPreInc || op == UPreDec {
      AlikeScale(spec, OAdd, a, c);
    }
  }

  lemma {:induction false} CondMeans(cfg: Config, c: Expr, t: Expr, f: Expr, env: Env)
    requires ValidConfig(cfg) && ValidEnv(cfg, env) && Supported(cfg, Cond(c, t, f))
    requires ShapeOf(cfg, Cond(c, t, f)).Some?
    requires CValueOf(cfg, c, env).Val? && CValueOf(cfg, t, env).Val? && CValueOf(cfg, f, env).Val?
    requires Actual(cfg, c, env) == CValueOf(cfg, c, env)
    requires Actual(cfg, t, env) == CValueOf(cfg, t, env)
    requires Actual(cfg, f, env) == CValueOf(cfg, f, env)
    ensures Actual(cfg, Cond(c, t, f), env) == CValueOf(cfg, Cond(c, t, f), env)
  {
    if SomeConst(cfg, c) {
      ConstValue(cfg, c, env);
      ConstZero(ShapeOf(cfg, c).value.n);
    } else {
      if SomeConst(cfg, t) {
        ConstValue(cfg, t, env);
      }
      if SomeConst(cfg, f) {
        ConstValue(cfg, f, env);
      }
    }
  }

  /** A supported filter returns its C value; on a null pointer it returns 0, or 1 for `||`. In direct mode
      such a filter has no label to go to, and the environment must lead past no null pointer. */
  lemma {:induction false} FilterMeans(cfg: Config, e: Expr, env: Env, st: State)
    requires ValidConfig(cfg) && ValidEnv(cfg, env) && Called(st, env)
    requires cfg.mode == ModeDirect ==> CValueOf(cfg, e, env).Val?
    requires Supported(cfg, e) && ReadsWhole(cfg, e, env)
    requires FilterProgram(cfg, e).Some? && Compile(cfg, e, FilterUsed).value.safe
    ensures var p := FilterProgram(cfg, e).value;
            var o := Exec(p.insns, p.labels, 0, st);
            && o.Return?
            && o.st.regs[R0] == Num(match CValueOf(cfg, e, env)
                                    case Val(x) => x
                                    case Null => NullResult(cfg, e))
  {
    hide Compile, Actual, CValueOf, Supported, ReadsWhole;
    SupportedSane(cfg, e);
    CompileExtends(cfg, e, FilterUsed);
    SupportedMeans(cfg, e, env);
    FilterRun(cfg, e, env, st);
  }

  /** The whole way from an expression: enough registers, and no helper call or few operands pending at one,
      which can be read off the expression, give a program that returns the C value. */
  lemma {:induction false} FilterCorrect(cfg: Config, e: Expr, env: Env, st: State)
    requires ValidConfig(cfg) && ValidEnv(cfg, env) && Called(st, env)
    requires cfg.mode == ModeDirect ==> CValueOf(cfg, e, env).Val?
    requires Discipline.IsTest(e) && Supported(cfg, e) && ReadsWhole(cfg, e, env)
    requires CShape(cfg, e).Some? && CShape(cfg, e).value.SReg?
    requires Discipline.Need(cfg, e) <= 9
    requires Discipline.Pending(cfg, e) < 0 || (Discipline.StackLike(cfg, e) && Discipline.Pending(cfg, e) <= 3)
    ensures FilterProgram(cfg, e).Some?
    ensures var p := FilterProgram(cfg, e).value;
            var o := Exec(p.insns, p.labels, 0, st);
            && o.Return?
            && o.st.regs[R0] == Num(match CValueOf(cfg, e, env)
                                    case Val(x) => x
                                    case Null => NullResult(cfg, e))
  {
    SupportedSane(cfg, e);
    ShapesAgree(cfg, e);
    Discipline.FilterCompiles(cfg, e);
    FilterMeans(cfg, e, env, st);
  }
}
