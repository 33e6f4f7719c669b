/** Compiler correctness: for every expression that compiles, the emitted code leaves exactly the
    value `Actual` in the result register, or takes the null exit exactly when `Actual` is Null, and
    keeps every register that was allocated before. */
module Correctness {
  import opened Words
  import opened Machine
  import opened Types
  import opened Spill
  import opened Chains
  import opened Operators
  import opened OperatorRuns
  import opened Backends
  import opened Codegen

  // What the code computes -----------------------------------------------------------------------

  predicate ValidEnv(cfg: Config, env: Env) {
    |env.args| >= |cfg.vars| && |env.args| > 0
  }

  /** The final cut of a loaded dword. */
  function Finish(spec: Spec, ty: Ty, mem: Option<Field>, w: u64): u64 {
    if IsBitfield(mem) then
      var f := mem.value;
      AluResult(And, if f.delta != 0 then AluResult(Rsh, w, Immediate(f.delta)) else w, Immediate(Pow2(f.bits) - 1))
    else
      match SizeOf(spec, ty)
      case Some(1) => AluResult(And, w, 0xFF)
      case Some(2) => AluResult(And, w, 0xFFFF)
      case Some(4) => AluResult(Rsh, AluResult(Lsh, w, 32), 32)
      case _ => w
  }

  function ArmValue(s: Shape, x: u64): u64 {
    if s.SNum? then Immediate(s.n) else x
  }

  /** The value of an expression that compiles: operands are always evaluated, and a null pointer
      read on the way makes the whole expression Null. */
  function Actual(cfg: Config, e: Expr, env: Env): Res
    requires ValidConfig(cfg) && ValidEnv(cfg, env)
  {
    match e
    case Name(text) =>
      Val(match NameShape(cfg, text)
          case SNum(n) => Wrap(n)
          case SReg(_, _) => env.args[IndexOf(cfg.vars, text)]
          case SEnum(_) => 0)
    case Number(v) => Val(Wrap(Int64(v)))
    case Bin(op, l, r) =>
      (match (Actual(cfg, l, env), Actual(cfg, r, env), ShapeOf(cfg, l), ShapeOf(cfg, r))
       case (Val(x), Val(y), Some(a), Some(b)) =>
         (match PreHandle(cfg.spec, a, b)
          case Some((a', b')) => Val(Computed(cfg.spec, op, a', b', x, y))
          case None => Null)
       case _ => Null)
    case Un(op, arg) =>
      (match (Actual(cfg, arg, env), ShapeOf(cfg, arg))
       case (Val(x), Some(a)) =>
         (match UnPlan(op, a)
          case Some(PConst(n)) => Val(Wrap(n))
          case _ => Val(ComputedUn(op, x)))
       case _ => Null)
    case Cond(c, t, f) =>
      (match (Actual(cfg, c, env), Actual(cfg, t, env), Actual(cfg, f, env), ShapeOf(cfg, c), ShapeOf(cfg, t), ShapeOf(cfg, f))
       case (Val(x), Val(y), Val(z), Some(a), Some(b), Some(d)) =>
         if a.SNum? then Val(if a.n == 0 then z else y)
         else Val(if x != 0 then ArmValue(b, y) else ArmValue(d, z))
       case _ => Null)
    case Cast(_, arg) =>
      (match (Actual(cfg, arg, env), ShapeOf(cfg, arg))
       case (Val(x), Some(a)) => Val(ArmValue(a, x))
       case _ => Null)
    case Paren(arg) => Actual(cfg, arg, env)
    case Plus(arg) => Actual(cfg, arg, env)
    case _ =>
      (match Lower(cfg, e)
       case None => Null
       case Some(a) =>
         var start := match a.base
                      case FromArg(i) => Val(env.args[i])
                      case FromConst(n) => Val(if n == 0 then env.args[0] else Immediate(n))
                      case FromExpr(e') => Actual(cfg, e', env);
         ActualAccess(cfg, a, start, env.mem))
  }

  function ActualAccess(cfg: Config, a: Access, start: Res, mem: Memory): Res {
    match start
    case Null => Null
    case Val(v) =>
      match ChainComputes(cfg, a.steps, |a.steps|, mem, v)
      case Null => Null
      case Val(w) => Val(Finish(cfg.spec, a.ty, a.mem, w))
  }

  /** What the theorem asks of an expression: no arm or condition of `?:` is a bare enum name, for which the
      compiler reads R0. */
  predicate Sane(cfg: Config, e: Expr)
    requires |cfg.vars| == |cfg.tys|
  {
    match e
    case Bin(_, l, r) => Sane(cfg, l) && Sane(cfg, r)
    case Un(_, arg) => Sane(cfg, arg)
    case Cond(c, t, f) =>
      Sane(cfg, c) && Sane(cfg, t) && Sane(cfg, f) && NotEnum(cfg, c) && NotEnum(cfg, t) && NotEnum(cfg, f)
    case Cast(_, arg) => Sane(cfg, arg)
    case Paren(arg) => Sane(cfg, arg)
    case Plus(arg) => Sane(cfg, arg)
    case Name(_) => true
    case Number(_) => true
    case _ =>
      (match Lower(cfg, e)
       case None => true
       case Some(a) =>
         a.base.FromExpr? ==> Sane(cfg, a.base.e))
  }

  predicate NotEnum(cfg: Config, e: Expr)
    requires |cfg.vars| == |cfg.tys|
  {
    match ShapeOf(cfg, e)
    case Some(SEnum(_)) => false
    case _ => true
  }

  // Allocation ---------------------------------------------------------------------------------------

  /** Compiling an expression only adds registers, and its result is one of the added ones. */
  ghost predicate Extends(used: set<Reg>, o: Out) {
    && used <= o.used
    && (o.val.VReg? ==> o.val.reg in o.used && o.val.reg !in used && o.val.reg <= 8)
  }

  lemma {:induction false} LowerBase(cfg: Config, e: Expr)
    requires |cfg.vars| == |cfg.tys|
    requires Lower(cfg, e).Some? && Lower(cfg, e).value.base.FromExpr?
    ensures var b := Lower(cfg, e).value.base.e;
            b.Bin? && ShapeOf(cfg, b).Some? && ShapeOf(cfg, b).value.SReg?
    decreases e
  {
    match e
    case Dot(arg, _) => LowerBase(cfg, arg);
    case Arrow(arg, _) => LowerBase(cfg, arg);
    case Bin(OAdd, l, r) =>
      if l.Number? { LowerBase(cfg, r); } else { LowerBase(cfg, l); }
    case Bin(OSub, l, r) => LowerBase(cfg, l);
    case Addr(arg) => LowerBase(cfg, arg);
    case Cast(_, arg) => LowerBase(cfg, arg);
    case Index(arg, _) => LowerBase(cfg, arg);
    case Indir(arg) => LowerBase(cfg, arg);
    case Paren(arg) => LowerBase(cfg, arg);
    case _ =>
  }

  lemma {:induction false} EmitBinExtends(spec: Spec, op: BinOp, l: Value, r: Value, used: set<Reg>,
                                          used1: set<Reg>, used2: set<Reg>)
    requires EmitBin(spec, op, l, r, used2).Some?
    requires used <= used1 <= used2
    requires l.VReg? ==> l.reg in used1 && l.reg !in used && l.reg <= 8
    requires r.VReg? ==> r.reg in used2 && r.reg !in used1 && r.reg <= 8
    ensures var o := EmitBin(spec, op, l, r, used2).value;
            && Extends(used, o)
            && BinShape(spec, op, Static(l), Static(r)) == Some(Static(o.val))
            && !o.exits && o.safe
  {
    hide BinCode, AdjustNum, FoldConst, ExtractEnum, AllocFrom;
    EmitBinStatic(spec, op, l, r, used2);
  }

  lemma {:induction false} EmitOthersExtend(cfg: Config, op: UnOp, to: Option<Ty>, c: Value, t: Value, f: Value,
                                            used: set<Reg>, used1: set<Reg>, used2: set<Reg>, used3: set<Reg>)
    requires used <= used1 <= used2 <= used3
    requires c.VReg? ==> c.reg in used1 && c.reg !in used && c.reg <= 8
    requires t.VReg? ==> t.reg in used2 && t.reg !in used1 && t.reg <= 8
    requires f.VReg? ==> f.reg in used3 && f.reg !in used2 && f.reg <= 8
    ensures EmitUn(op, c, used1).Some? ==>
              Extends(used, EmitUn(op, c, used1).value) && UnShape(op, Static(c)) == Some(Static(EmitUn(op, c, used1).value.val))
    ensures EmitCast(to, c, used1).Some? ==>
              Extends(used, EmitCast(to, c, used1).value) && CastShape(to, Static(c)) == Some(Static(EmitCast(to, c, used1).value.val))
    ensures EmitCond(c, t, f, used3).Some? && !c.VEnum? && !t.VEnum? && !f.VEnum? ==>
              && Extends(used, EmitCond(c, t, f, used3).value)
              && CondShape(Static(c), Static(t), Static(f)) == Some(Static(EmitCond(c, t, f, used3).value.val))
  {
  }

  lemma {:induction false} EmitNameExtends(cfg: Config, text: string, used: set<Reg>)
    requires |cfg.vars| == |cfg.tys| && EmitName(cfg, text, used).Some?
    ensures Extends(used, EmitName(cfg, text, used).value)
    ensures NameShape(cfg, text) == Static(EmitName(cfg, text, used).value.val)
  {
  }

  /** The shape of a compiled expression does not depend on the registers. */
  lemma {:induction false} CompileExtends(cfg: Config, e: Expr, used: set<Reg>)
    requires |cfg.vars| == |cfg.tys| && Sane(cfg, e)
    requires Compile(cfg, e, used).Some?
    ensures Extends(used, Compile(cfg, e, used).value)
    ensures ShapeOf(cfg, e) == Some(Static(Compile(cfg, e, used).value.val))
    decreases e
  {
    hide EmitBin, EmitUn, EmitCond, EmitCast, EmitName, ChainCode, FinishCode, BinShape, UnShape, CondShape,
         CastShape, NameShape;
    var none := VNum(0);
    match e
    case Name(text) => EmitNameExtends(cfg, text, used);
    case Number(_) =>
    case Bin(op, l, r) =>
      CompileExtends(cfg, l, used);
      var ol := Compile(cfg, l, used).value;
      CompileExtends(cfg, r, ol.used);
      var or := Compile(cfg, r, ol.used).value;
      EmitBinExtends(cfg.spec, op, ol.val, or.val, used, ol.used, or.used);
    case Un(op, arg) =>
      CompileExtends(cfg, arg, used);
      var oa := Compile(cfg, arg, used).value;
      EmitOthersExtend(cfg, op, None, oa.val, none, none, used, oa.used, oa.used, oa.used);
    case Cond(c, t, f) =>
      CompileExtends(cfg, c, used);
      var oc := Compile(cfg, c, used).value;
      CompileExtends(cfg, t, oc.used);
      var ot := Compile(cfg, t, oc.used).value;
      CompileExtends(cfg, f, ot.used);
      var of := Compile(cfg, f, ot.used).value;
      EmitOthersExtend(cfg, UNot, None, oc.val, ot.val, of.val, used, oc.used, ot.used, of.used);
    case Cast(to, arg) =>
      CompileExtends(cfg, arg, used);
      var oa := Compile(cfg, arg, used).value;
      EmitOthersExtend(cfg, UNot, to, oa.val, none, none, used, oa.used, oa.used, oa.used);
    case Paren(arg) => CompileExtends(cfg, arg, used);
    case Plus(arg) => CompileExtends(cfg, arg, used);
    case _ =>
      var a := Lower(cfg, e).value;
      if a.base.FromExpr? {
        LowerBase(cfg, e);
        CompileExtends(cfg, a.base.e, used);
      }
      ChainCodeCompiles(cfg, a.steps);
  }

  lemma {:induction false} ChainCodeCompiles(cfg: Config, steps: seq<Offset>)
    ensures forall reg: Reg, used: set<Reg> :: ChainCode(cfg, steps, reg, used).Some? <==> ChainCompiles(cfg, steps)
  {
  }

  // Runs ---------------------------------------------------------------------------------------------

  /** The allocated registers, R9 and R10, and everything outside registers and frame are as before. */
  ghost predicate Preserves(st: State, st': State, used: set<Reg>) {
    && st' == st.(regs := st'.regs, stack := st'.stack)
    && (forall r: Reg :: r in used || r >= 9 ==> st'.regs[r] == st.regs[r])
  }

  /** After the null exit the caller-saved registers are of no interest. */
  ghost predicate Escapes(st: State, st': State, used: set<Reg>) {
    Preserves(st, st', set r | r in used && r >= 6)
  }

  /** A run that leaves the value `res` where `v` says, or the null exit exactly on Null. */
  ghost predicate Done(o: Outcome, st: State, used: set<Reg>, v: Value, res: Res) {
    match o
    case Fall(st') =>
      && res.Val? && Preserves(st, st', used)
      && (v.VReg? ==> st'.regs[v.reg] == Num(res.v))
      && (v.VNum? ==> Wrap(v.n) == res.v)
    case Leave(l, st') => l == EXIT && res == Null && Escapes(st, st', used)
    case _ => false
  }

  /** The machine as compiled code expects it: arguments behind R9, the frame behind R10. */
  predicate Ready(st: State, env: Env) {
    && st.regs[R9] == Ptr(Args, 0) && st.regs[FP] == Ptr(Frame, 0)
    && st.args == env.args && st.mem == env.mem
  }

  lemma {:induction false} PreservesTrans(st: State, st1: State, st2: State, used: set<Reg>, used1: set<Reg>)
    requires Preserves(st, st1, used) && used <= used1
    ensures Preserves(st1, st2, used1) ==> Preserves(st, st2, used)
    ensures Escapes(st1, st2, used1) ==> Escapes(st, st2, used)
  {
  }

  /** Where the second fragment starts, when the first one falls through. */
  lemma {:induction false} SequenceRun(c1: seq<Instr>, c2: seq<Instr>, st: State)
    requires Run(c1, st).Leave? || (Run(c1, st).Fall? && (Run(c2, Run(c1, st).st).Fall? || Run(c2, Run(c1, st).st).Leave?))
    ensures Run(c1, st).Leave? ==> Run(c1 + c2, st) == Run(c1, st)
    ensures Run(c1, st).Fall? ==> Run(c1 + c2, st) == Run(c2, Run(c1, st).st)
  {
    RunConcat(c1, c2, st);
  }

  /** The value of an operand: what its register holds, or the constant. */
  ghost predicate Holding(v: Value, x: u64, st: State) {
    && (v.VReg? ==> st.regs[v.reg] == Num(x))
    && (v.VNum? ==> Wrap(v.n) == x)
  }

  lemma {:induction false} EmitBinRun(spec: Spec, op: BinOp, l: Value, r: Value, used: set<Reg>, keep: set<Reg>,
                                      x: u64, y: u64, st: State)
    requires EmitBin(spec, op, l, r, used).Some?
    requires Holding(l, x, st) && Holding(r, y, st)
    requires keep <= used && (l.VReg? ==> l.reg in used && l.reg !in keep && l.reg <= 8)
    requires r.VReg? ==> r.reg in used && r.reg !in keep && r.reg <= 8
    requires l.VReg? && r.VReg? ==> l.reg != r.reg
    ensures PreHandle(spec, Static(l), Static(r)).Some?
    ensures var o := EmitBin(spec, op, l, r, used).value;
            var (a, b) := PreHandle(spec, Static(l), Static(r)).value;
            && Run(o.code, st).Fall?
            && Done(Run(o.code, st), st, keep, o.val, Val(Computed(spec, op, a, b, x, y)))
  {
    hide Step, Run, Computed, BinCode;
    var o := EmitBin(spec, op, l, r, used).value;
    var (a, b) := PreHandle(spec, Static(l), Static(r)).value;
    var plan := BinPlan(spec, op, a, b).value;
    var f := if plan.PFresh? then Alloc(used).value else RegOf(r);
    PreHandleShapes(spec, l, r);
    assert plan.PFresh? ==> a.SNum? && b.SReg? by { FreshPlan(spec, op, a, b); }
    var st' := BinRun(spec, op, a, b, RegOf(l), RegOf(r), f, x, y, st);
    assert forall q: Reg :: q in Touched(plan, a, b, RegOf(l), RegOf(r), f) ==> q !in keep && q <= 8;
  }

  lemma {:induction false} FreshPlan(spec: Spec, op: BinOp, a: Shape, b: Shape)
    requires BinPlan(spec, op, a, b).Some?
    ensures BinPlan(spec, op, a, b).value.PFresh? ==> a.SNum? && b.SReg?
    ensures BinPlan(spec, op, a, b).value.PLeft? ==> a.SReg?
    ensures BinPlan(spec, op, a, b).value.PRight? ==> a.SNum? && b.SReg?
  {
  }

  lemma {:induction false} PreHandleShapes(spec: Spec, l: Value, r: Value)
    requires PreHandle(spec, Static(l), Static(r)).Some?
    ensures var (a, b) := PreHandle(spec, Static(l), Static(r)).value;
            && (a.SReg? <==> l.VReg?) && (b.SReg? <==> r.VReg?)
            && (a.SReg? ==> a == Static(l)) && (b.SReg? ==> b == Static(r))
  {
  }

  lemma {:induction false} EmitUnRun(op: UnOp, v: Value, used: set<Reg>, keep: set<Reg>, x: u64, st: State)
    requires EmitUn(op, v, used).Some? && Holding(v, x, st)
    requires keep <= used && (v.VReg? ==> v.reg !in keep && v.reg <= 8)
    ensures var o := EmitUn(op, v, used).value;
            && Run(o.code, st).Fall?
            && Done(Run(o.code, st), st, keep, o.val,
                    Val(match UnPlan(op, Static(v)) case Some(PConst(n)) => Wrap(n) case _ => ComputedUn(op, x)))
  {
    hide Step, Run, ComputedUn, UnCode;
    EmptyRun(st);
    if v.VReg? {
      var st' := UnRun(op, v.reg, x, st);
    }
  }

  lemma {:induction false} EmitCondRun(c: Value, t: Value, f: Value, used: set<Reg>, keep: set<Reg>, x: u64, y: u64,
                                       z: u64, st: State)
    requires EmitCond(c, t, f, used).Some?
    requires !c.VEnum? && !t.VEnum? && !f.VEnum?
    requires Holding(c, x, st) && Holding(t, y, st) && Holding(f, z, st)
    requires keep <= used && (c.VReg? ==> c.reg !in keep && c.reg <= 8)
    ensures var o := EmitCond(c, t, f, used).value;
            && Run(o.code, st).Fall?
            && Done(Run(o.code, st), st, keep, o.val,
                    Val(if c.VNum? then (if c.n == 0 then z else y)
                        else if x != 0 then ArmValue(Static(t), y) else ArmValue(Static(f), z)))
  {
    hide Step, Run, CondCode;
    EmptyRun(st);
    if c.VReg? {
      CondRun(c.reg, ArmSrc(t), ArmSrc(f), x, st);
    }
  }

  /** An enum name as an arm: the result is whatever R0 holds. */
  lemma {:induction false} EnumArmRun(c: Value, t: Value, f: Value, used: set<Reg>, x: u64, st: State)
    requires EmitCond(c, t, f, used).Some? && c.VReg? && st.regs[c.reg] == Num(x)
    requires if x != 0 then t.VEnum? else f.VEnum?
    ensures var o := EmitCond(c, t, f, used).value;
            Run(o.code, st) == Fall(Set(st, c.reg, st.regs[R0])) && o.val == c
  {
    CondRun(c.reg, ArmSrc(t), ArmSrc(f), x, st);
  }

  lemma {:induction false} EmitCastRun(to: Option<Ty>, v: Value, used: set<Reg>, keep: set<Reg>, x: u64, st: State)
    requires EmitCast(to, v, used).Some? && Holding(v, x, st) && keep <= used
    ensures var o := EmitCast(to, v, used).value;
            && Run(o.code, st).Fall?
            && Done(Run(o.code, st), st, keep, o.val, Val(ArmValue(Static(v), x)))
  {
    hide Step, Run;
    EmptyRun(st);
    if v.VNum? {
      MovRun(Alloc(used).value, Imm(v.n), st);
    }
  }

  lemma {:induction false} LoadArgRun(i: nat, reg: Reg, env: Env, st: State)
    requires Ready(st, env) && i < |env.args| && i <= 4095
    ensures Run(LoadArg(i, reg), st) == Fall(Set(st, reg, Num(env.args[i])))
  {
    assert Int16(i * 8) == i * 8;
    RunStraight(LoadArg(i, reg), [st, Set(st, reg, Num(env.args[i]))]);
  }

  lemma {:induction false} FinishRun(spec: Spec, ty: Ty, mem: Option<Field>, reg: Reg, w: u64, st: State)
    requires st.regs[reg] == Num(w)
    ensures Run(FinishCode(spec, ty, mem, reg), st) == Fall(Set(st, reg, Num(Finish(spec, ty, mem, w))))
  {
    hide Step, Run, AluResult;
    EmptyRun(st);
    if IsBitfield(mem) {
      var f := mem.value;
      var mask := Pow2(f.bits) - 1;
      if f.delta != 0 {
        AluRun(Rsh, reg, Imm(f.delta), w, Immediate(f.delta), st);
        var w1 := AluResult(Rsh, w, Immediate(f.delta));
        var st1 := Set(st, reg, Num(w1));
        AluRun(And, reg, Imm(mask), w1, Immediate(mask), st1);
        SequenceRun([Alu(Rsh, reg, Imm(f.delta))], [Alu(And, reg, Imm(mask))], st);
      } else {
        AluRun(And, reg, Imm(mask), w, Immediate(mask), st);
        assert [] + [Alu(And, reg, Imm(mask))] == [Alu(And, reg, Imm(mask))];
      }
    } else {
      match SizeOf(spec, ty) {
        case Some(1) => AluRun(And, reg, Imm(0xFF), w, 0xFF, st);
        case Some(2) => AluRun(And, reg, Imm(0xFFFF), w, 0xFFFF, st);
        case Some(4) =>
          AluRun(Lsh, reg, Imm(32), w, 32, st);
          var w1 := AluResult(Lsh, w, 32);
          AluRun(Rsh, reg, Imm(32), w1, 32, Set(st, reg, Num(w1)));
          SequenceRun([Alu(Lsh, reg, Imm(32))], [Alu(Rsh, reg, Imm(32))], st);
          assert [Alu(Lsh, reg, Imm(32))] + [Alu(Rsh, reg, Imm(32))] == FinishCode(spec, ty, mem, reg);
        case _ =>
      }
    }
  }

  /** A chain and the final cut on a register that holds the start value. */
  lemma {:induction false} AccessRun(cfg: Config, a: Access, reg: Reg, used: set<Reg>, keep: set<Reg>, v: u64,
                                     env: Env, st: State)
    requires ValidConfig(cfg) && reg <= 8 && ChainCode(cfg, a.steps, reg, used).Some?
    requires SafeTarget(cfg, a.steps, reg, used)
    requires st.regs[reg] == Num(v) && Ready(st, env)
    requires keep <= used && reg !in keep
    ensures var code := ChainCode(cfg, a.steps, reg, used).value + FinishCode(cfg.spec, a.ty, a.mem, reg);
            Done(Run(code, st), st, keep, VReg(reg, a.ty, a.mem), ActualAccess(cfg, a, Val(v), env.mem))
  {
    hide Step, Run, ChainCode, FinishCode, Finish, ChainComputes, SafeTarget, ChainFaithful, Fold, LastWidth;
    var chain := ChainCode(cfg, a.steps, reg, used).value;
    var cut := FinishCode(cfg.spec, a.ty, a.mem, reg);
    ChainRun(cfg, a.steps, reg, used, v, st);
    var o := Run(chain, st);
    if o.Fall? {
      FinishRun(cfg.spec, a.ty, a.mem, reg, ChainComputes(cfg, a.steps, |a.steps|, env.mem, v).v, o.st);
    }
    SequenceRun(chain, cut, st);
  }

  /** Starting an access that is not based on a computed expression. */
  lemma {:induction false} BaseRun(cfg: Config, base: Base, reg: Reg, env: Env, st: State)
    requires ValidConfig(cfg) && ValidEnv(cfg, env) && Ready(st, env)
    requires !base.FromExpr? && (base.FromArg? ==> base.idx < |cfg.vars|)
    ensures Run(BaseCode(base, reg), st) == Fall(Set(st, reg, Num(BaseValue(base, env))))
  {
    match base
    case FromArg(i) => LoadArgRun(i, reg, env, st);
    case FromConst(n) =>
      if n == 0 {
        LoadArgRun(0, reg, env, st);
      } else {
        MovRun(reg, Imm(n), st);
      }
  }

  function BaseValue(base: Base, env: Env): u64
    requires |env.args| > 0 && !base.FromExpr? && (base.FromArg? ==> base.idx < |env.args|)
  {
    match base
    case FromArg(i) => env.args[i]
    case FromConst(n) => if n == 0 then env.args[0] else Immediate(n)
  }

  /** Compiler correctness. */
  lemma {:induction false} CompileRun(cfg: Config, e: Expr, used: set<Reg>, env: Env, st: State)
    requires ValidConfig(cfg) && ValidEnv(cfg, env) && Sane(cfg, e) && Ready(st, env)
    requires Compile(cfg, e, used).Some? && Compile(cfg, e, used).value.safe
    ensures var o := Compile(cfg, e, used).value;
            Done(Run(o.code, st), st, used, o.val, Actual(cfg, e, env))
    decreases e
  {
    hide Step, Run, ChainCode, FinishCode, Computed, BinPlan, PreHandle, EmitBin, EmitUn, EmitCond, EmitCast, BinCode;
    var o := Compile(cfg, e, used).value;
    match e
    case Name(text) =>
      EmptyRun(st);
      if NameShape(cfg, text).SReg? {
        LoadArgRun(IndexOf(cfg.vars, text), Alloc(used).value, env, st);
      }
    case Number(_) => EmptyRun(st);
    case Bin(op, l, r) => CompileBinRun(cfg, op, l, r, used, env, st);
    case Un(op, arg) =>
      var oa := Compile(cfg, arg, used).value;
      CompileExtends(cfg, arg, used);
      CompileRun(cfg, arg, used, env, st);
      var second := EmitUn(op, oa.val, oa.used).value;
      if Run(oa.code, st).Fall? {
        EmitUnRun(op, oa.val, oa.used, used, Actual(cfg, arg, env).v, Run(oa.code, st).st);
      }
      SequenceRun(oa.code, second.code, st);
    case Cond(c, t, f) => CompileCondRun(cfg, c, t, f, used, env, st);
    case Cast(to, arg) =>
      var oa := Compile(cfg, arg, used).value;
      CompileExtends(cfg, arg, used);
      CompileRun(cfg, arg, used, env, st);
      var second := EmitCast(to, oa.val, oa.used).value;
      if Run(oa.code, st).Fall? {
        EmitCastRun(to, oa.val, oa.used, used, Actual(cfg, arg, env).v, Run(oa.code, st).st);
      }
      SequenceRun(oa.code, second.code, st);
    case Paren(arg) => CompileRun(cfg, arg, used, env, st);
    case Plus(arg) => CompileRun(cfg, arg, used, env, st);
    case _ => CompileAccessRun(cfg, e, used, env, st);
  }

  lemma {:induction false} CompileBinRun(cfg: Config, op: BinOp, l: Expr, r: Expr, used: set<Reg>, env: Env, st: State)
    requires ValidConfig(cfg) && ValidEnv(cfg, env) && Sane(cfg, Bin(op, l, r)) && Ready(st, env)
    requires Compile(cfg, Bin(op, l, r), used).Some? && Compile(cfg, Bin(op, l, r), used).value.safe
    ensures var o := Compile(cfg, Bin(op, l, r), used).value;
            Done(Run(o.code, st), st, used, o.val, Actual(cfg, Bin(op, l, r), env))
    decreases Bin(op, l, r), 0
  {
    hide Step, Run, Computed, BinPlan, PreHandle, EmitBin;
    var ol := Compile(cfg, l, used).value;
    var or := Compile(cfg, r, ol.used).value;
    var last := EmitBin(cfg.spec, op, ol.val, or.val, or.used).value;
    CompileExtends(cfg, l, used);
    CompileExtends(cfg, r, ol.used);
    CompileRun(cfg, l, used, env, st);
    var ro := Run(ol.code, st);
    if ro.Fall? {
      var st1 := ro.st;
      CompileRun(cfg, r, ol.used, env, st1);
      var ro1 := Run(or.code, st1);
      PreservesTrans(st, st1, ro1.st, used, ol.used);
      SequenceRun(ol.code, or.code, st);
      if ro1.Fall? {
        EmitBinRun(cfg.spec, op, ol.val, or.val, or.used, used, Actual(cfg, l, env).v, Actual(cfg, r, env).v, ro1.st);
        PreservesTrans(st, ro1.st, Run(last.code, ro1.st).st, used, used);
      }
      SequenceRun(ol.code + or.code, last.code, st);
    } else {
      LeaveFirst(ol.code, or.code, st);
      LeaveFirst(ol.code + or.code, last.code, st);
    }
  }

  /** A fragment that leaves makes what follows it irrelevant. */
  lemma {:induction false} LeaveFirst(c1: seq<Instr>, c2: seq<Instr>, st: State)
    requires Run(c1, st).Leave?
    ensures Run(c1 + c2, st) == Run(c1, st)
  {
    RunConcat(c1, c2, st);
  }

  lemma {:induction false} CompileCondRun(cfg: Config, c: Expr, t: Expr, f: Expr, used: set<Reg>, env: Env, st: State)
    requires ValidConfig(cfg) && ValidEnv(cfg, env) && Sane(cfg, Cond(c, t, f)) && Ready(st, env)
    requires Compile(cfg, Cond(c, t, f), used).Some? && Compile(cfg, Cond(c, t, f), used).value.safe
    ensures var o := Compile(cfg, Cond(c, t, f), used).value;
            Done(Run(o.code, st), st, used, o.val, Actual(cfg, Cond(c, t, f), env))
    decreases Cond(c, t, f), 0
  {
    hide Step, Run, EmitCond, Compile;
    CompileCond(cfg, c, t, f, used);
    var oc := Compile(cfg, c, used).value;
    var ot := Compile(cfg, t, oc.used).value;
    var of := Compile(cfg, f, ot.used).value;
    var last := EmitCond(oc.val, ot.val, of.val, of.used).value;
    CompileExtends(cfg, c, used);
    CompileExtends(cfg, t, oc.used);
    CompileExtends(cfg, f, ot.used);
    CompileRun(cfg, c, used, env, st);
    var r1 := Run(oc.code, st);
    if r1.Leave? {
      LeaveFirst(oc.code, ot.code, st);
      LeaveFirst(oc.code + ot.code, of.code, st);
      LeaveFirst(oc.code + ot.code + of.code, last.code, st);
      return;
    }
    CompileRun(cfg, t, oc.used, env, r1.st);
    var r2 := Run(ot.code, r1.st);
    PreservesTrans(st, r1.st, r2.st, used, oc.used);
    SequenceRun(oc.code, ot.code, st);
    if r2.Leave? {
      LeaveFirst(oc.code + ot.code, of.code, st);
      LeaveFirst(oc.code + ot.code + of.code, last.code, st);
      return;
    }
    CompileRun(cfg, f, ot.used, env, r2.st);
    var r3 := Run(of.code, r2.st);
    PreservesTrans(st, r2.st, r3.st, used, ot.used);
    SequenceRun(oc.code + ot.code, of.code, st);
    if r3.Leave? {
      LeaveFirst(oc.code + ot.code + of.code, last.code, st);
      return;
    }
    EmitCondRun(oc.val, ot.val, of.val, of.used, used, Actual(cfg, c, env).v, Actual(cfg, t, env).v,
                Actual(cfg, f, env).v, r3.st);
    PreservesTrans(st, r3.st, Run(last.code, r3.st).st, used, used);
    SequenceRun(oc.code + ot.code + of.code, last.code, st);
  }

  lemma {:induction false} CompileAccessRun(cfg: Config, e: Expr, used: set<Reg>, env: Env, st: State)
    requires IsAccess(e)
    requires ValidConfig(cfg) && ValidEnv(cfg, env) && Sane(cfg, e) && Ready(st, env)
    requires Compile(cfg, e, used).Some? && Compile(cfg, e, used).value.safe
    ensures var o := Compile(cfg, e, used).value;
            Done(Run(o.code, st), st, used, o.val, Actual(cfg, e, env))
    decreases e, 0
  {
    hide Step, Run, EmitAccess, ActualAccess, Compile, Lower;
    CompileAccess(cfg, e, used);
    var a := Lower(cfg, e).value;
    if a.base.FromExpr? {
      var o := Compile(cfg, a.base.e, used).value;
      LowerBase(cfg, e);
      CompileExtends(cfg, a.base.e, used);
      assert o.safe by { EmitAccessSafe(cfg, a, o.code, o.val.reg, o.used, o.exits, o.safe); }
      CompileRun(cfg, a.base.e, used, env, st);
      EmitAccessRun(cfg, a, o.code, o.val, o.val.reg, o.used, used, o.exits, o.safe, Actual(cfg, a.base.e, env), env, st);
    } else {
      var reg := Alloc(used).value;
      BaseRun(cfg, a.base, reg, env, st);
      EmitAccessRun(cfg, a, BaseCode(a.base, reg), VReg(reg, a.ty, a.mem), reg, used + {reg}, used, false, true, Val(BaseValue(a.base, env)), env, st);
    }
  }

  lemma {:induction false} EmitAccessSafe(cfg: Config, a: Access, start: seq<Instr>, reg: Reg, used: set<Reg>,
                                          exits: bool, safe: bool)
    requires EmitAccess(cfg, a, start, reg, used, exits, safe).Some?
    ensures EmitAccess(cfg, a, start, reg, used, exits, safe).value.safe ==> safe
  {
  }

  /** The chain after code that brings the start value into its register. */
  lemma {:induction false} EmitAccessRun(cfg: Config, a: Access, start: seq<Instr>, v: Value, reg: Reg,
                                         used: set<Reg>, keep: set<Reg>, exits: bool, safe: bool, res: Res,
                                         env: Env, st: State)
    requires ValidConfig(cfg) && Ready(st, env)
    requires EmitAccess(cfg, a, start, reg, used, exits, safe).Some?
    requires EmitAccess(cfg, a, start, reg, used, exits, safe).value.safe
    requires keep <= used && reg !in keep && reg <= 8
    requires v.VReg? && v.reg == reg && Done(Run(start, st), st, keep, v, res)
    ensures var o := EmitAccess(cfg, a, start, reg, used, exits, safe).value;
            Done(Run(o.code, st), st, keep, o.val, ActualAccess(cfg, a, res, env.mem))
  {
    hide Step, Run, ChainCode, FinishCode, ActualAccess, SafeTarget, MarksExit;
    var rest := ChainCode(cfg, a.steps, reg, used).value + FinishCode(cfg.spec, a.ty, a.mem, reg);
    if Run(start, st).Leave? {
      LeaveFirst(start, rest, st);
      NullAccess(cfg, a, env.mem);
    } else {
      var st1 := Run(start, st).st;
      AccessRun(cfg, a, reg, used, keep, res.v, env, st1);
      PreservesTrans(st, st1, Run(rest, st1).st, keep, keep);
      SequenceRun(start, rest, st);
    }
  }

  lemma {:induction false} NullAccess(cfg: Config, a: Access, mem: Memory)
    ensures ActualAccess(cfg, a, Null, mem) == Null
  {
  }
}
