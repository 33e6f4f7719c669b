/** The filter program: the compiled expression between caching the argument pointer and returning,
    with the exit label put on the last instruction of the expression. */
module Filter {
  import opened Words
  import opened Machine
  import opened Types
  import opened Chains
  import opened Operators
  import opened OperatorRuns
  import opened Backends
  import opened Codegen
  import opened Correctness

  predicate IsTopOp(e: Expr) {
    match e
    case Bin(op, _, _) => op == OAndAnd || op == OOrOr || IsComparison(op)
    case Un(op, _) => op == UNot
    case _ => false
  }

  datatype Program = Program(insns: seq<Instr>, labels: map<Label, nat>)

  /** Only R9 is taken at the start. */
  const FilterUsed: set<Reg> := {R9}

  /** The program of a filter expression, or None if it is rejected. */
  function FilterProgram(cfg: Config, e: Expr): Option<Program>
    requires |cfg.vars| == |cfg.tys|
  {
    if !IsTopOp(e) then None
    else
      match Compile(cfg, e, FilterUsed)
      case None => None
      case Some(o) =>
        if o.val.VNum? then None
        else Some(Program([Mov(R9, R(R1))] + o.code + FilterTail(o.val), if o.exits then map[EXIT := |o.code|] else map[]))
  }

  function FilterTail(v: Value): seq<Instr> {
    (if RegOf(v) != R0 then [Mov(R0, R(RegOf(v)))] else []) + [Exit]
  }

  /** Both operands of a top-level `||` end up in registers. */
  predicate IsRegisterOr(cfg: Config, e: Expr)
    requires |cfg.vars| == |cfg.tys|
  {
    e.Bin? && e.bop == OOrOr &&
    match (ShapeOf(cfg, e.left), ShapeOf(cfg, e.right))
    case (Some(SReg(_, _)), Some(SReg(_, _))) => true
    case _ => false
  }

  /** What the filter returns when a null pointer is met on the way. */
  function NullResult(cfg: Config, e: Expr): u64
    requires |cfg.vars| == |cfg.tys|
  {
    if IsRegisterOr(cfg, e) then 1 else 0
  }

  /** The instruction that carries the exit label. */
  function LabelInsn(cfg: Config, e: Expr, r: Reg): Instr
    requires |cfg.vars| == |cfg.tys|
  {
    if IsRegisterOr(cfg, e) then Mov(r, Imm(1)) else Alu(Xor, r, R(r))
  }

  /** Every operator allowed at the top ends by clearing its result register, but for `||` of two
      registers, which ends by setting it. */
  lemma {:induction false} TopLast(cfg: Config, e: Expr, used: set<Reg>)
    requires |cfg.vars| == |cfg.tys| && Sane(cfg, e) && IsTopOp(e)
    requires Compile(cfg, e, used).Some? && !Compile(cfg, e, used).value.val.VNum?
    ensures var o := Compile(cfg, e, used).value;
            o.val.VReg? && o.code != [] && o.code[|o.code| - 1] == LabelInsn(cfg, e, o.val.reg)
  {
    var o := Compile(cfg, e, used).value;
    match e
    case Bin(op, l, r) =>
      var ol := Compile(cfg, l, used).value;
      var or := Compile(cfg, r, ol.used).value;
      CompileExtends(cfg, l, used);
      CompileExtends(cfg, r, ol.used);
      var last := EmitBin(cfg.spec, op, ol.val, or.val, or.used).value;
      assert o.code == ol.code + or.code + last.code;
      TopBinLast(cfg.spec, op, ol.val, or.val, or.used);
    case Un(_, arg) =>
      var oa := Compile(cfg, arg, used).value;
      CompileExtends(cfg, arg, used);
      assert o.code == oa.code + EmitUn(UNot, oa.val, oa.used).value.code;
  }

  /** The last instruction of a comparison, `&&` or `||` whose result is in a register. */
  lemma {:induction false} TestLast(spec: Spec, op: BinOp, a: Shape, b: Shape, l: Reg, r: Reg, f: Reg)
    requires op == OAndAnd || op == OOrOr || IsComparison(op)
    requires BinPlan(spec, op, a, b).Some? && !BinPlan(spec, op, a, b).value.PConst?
    ensures var plan := BinPlan(spec, op, a, b).value;
            var code := BinCode(spec, op, a, b, l, r, f);
            && ((plan.PLeft? && a.SReg?) || (plan.PRight? && b.SReg?)) && code != []
            && code[|code| - 1] == if op == OOrOr && a.SReg? && b.SReg? then Mov(PlanReg(plan, l, r, f), Imm(1))
                                   else Alu(Xor, PlanReg(plan, l, r, f), R(PlanReg(plan, l, r, f)))
  {
    hide FoldConst;
  }

  lemma {:induction false} TopBinLast(spec: Spec, op: BinOp, l: Value, r: Value, used: set<Reg>)
    requires op == OAndAnd || op == OOrOr || IsComparison(op)
    requires EmitBin(spec, op, l, r, used).Some? && !EmitBin(spec, op, l, r, used).value.val.VNum?
    ensures var o := EmitBin(spec, op, l, r, used).value;
            && o.val.VReg? && o.code != []
            && o.code[|o.code| - 1] == if op == OOrOr && l.VReg? && r.VReg? then Mov(o.val.reg, Imm(1))
                                       else Alu(Xor, o.val.reg, R(o.val.reg))
  {
    hide PreHandle, BinPlan, BinCode;
    PreHandleShapes(spec, l, r);
    var (a, b) := PreHandle(spec, Static(l), Static(r)).value;
    TestLast(spec, op, a, b, RegOf(l), RegOf(r), RegOf(r));
  }

  // Where the label is defined -----------------------------------------------------------------------

  lemma {:induction false} ComputesNull(cfg: Config, steps: seq<Offset>, n: nat, mem: Memory, v: u64) returns (i: nat)
    requires n <= |steps| && ChainComputes(cfg, steps, n, mem, v) == Null
    requires cfg.mode == ModeCore ==> CoreCompiles(cfg.spec, steps)
    ensures i < n && i < |steps| - 1 && !steps[i].address
    ensures cfg.mode == ModeCore ==> CoreKindOf(cfg.spec, steps[i]).CoreCast?
  {
    hide Load;
    if ChainComputes(cfg, steps, n - 1, mem, v) == Null {
      i := ComputesNull(cfg, steps, n - 1, mem, v);
    } else {
      i := n - 1;
    }
  }

  /** A chain that can take the null exit makes the compiler define the label, except in direct mode. */
  lemma {:induction false} NullMarksExit(cfg: Config, steps: seq<Offset>, mem: Memory, v: u64)
    requires cfg.mode != ModeDirect && ChainCompiles(cfg, steps)
    requires ChainComputes(cfg, steps, |steps|, mem, v) == Null
    ensures MarksExit(cfg, steps)
  {
    if AllAddress(steps) {
      AddressNotNull(cfg, steps, |steps|, mem, v);
    } else {
      var i := ComputesNull(cfg, steps, |steps|, mem, v);
    }
  }

  /** The label is defined exactly for the chains that come to Null in some memory, the empty one among them. */
  lemma {:induction false} MarksExitIff(cfg: Config, steps: seq<Offset>)
    requires cfg.mode != ModeDirect && ChainCompiles(cfg, steps)
    ensures MarksExit(cfg, steps) <==> exists mem: Memory, v: u64 :: ChainComputes(cfg, steps, |steps|, mem, v) == Null
  {
    if MarksExit(cfg, steps) {
      var i :| 0 <= i < |steps| - 1 && !steps[i].address && (cfg.mode == ModeCore ==> CoreKindOf(cfg.spec, steps[i]).CoreCast?);
      EmptyNull(cfg, steps, i, |steps|);
    }
    forall mem: Memory, v: u64 | ChainComputes(cfg, steps, |steps|, mem, v) == Null
      ensures MarksExit(cfg, steps)
    {
      NullMarksExit(cfg, steps, mem, v);
    }
  }

  /** In empty memory the first checked read comes to Null. */
  lemma {:induction false} EmptyNull(cfg: Config, steps: seq<Offset>, i: nat, n: nat)
    requires i < n <= |steps| && i < |steps| - 1 && !steps[i].address && cfg.mode != ModeDirect
    requires cfg.mode == ModeCore ==> CoreKindOf(cfg.spec, steps[i]).CoreCast?
    ensures ChainComputes(cfg, steps, n, map[], 0) == Null
  {
    hide Load;
    if i < n - 1 {
      EmptyNull(cfg, steps, i, n - 1);
    } else if ChainComputes(cfg, steps, i, map[], 0).Val? {
      var p := ChainComputes(cfg, steps, i, map[], 0).v;
      KindFits(cfg.spec, steps[i]);
      EmptyRead(Advance(p, steps[i].off), 8);
      EmptyRead(LoadAt(p, steps[i].off), KindWidth(CoreKindOf(cfg.spec, steps[i])));
    }
  }

  lemma {:induction false} EmptyRead(a: u64, n: nat)
    requires n <= 8
    ensures Load(map[], a, n) == 0
  {
    LeValZeros(ReadBytes(map[], a, n));
  }

  lemma {:induction false} AddressNotNull(cfg: Config, steps: seq<Offset>, n: nat, mem: Memory, v: u64)
    requires AllAddress(steps) && n <= |steps|
    ensures ChainComputes(cfg, steps, n, mem, v).Val?
  {
    if n > 0 {
      AddressNotNull(cfg, steps, n - 1, mem, v);
    }
  }

  /** Whenever a null pointer is met, the label has been defined. */
  lemma {:induction false} NullExits(cfg: Config, e: Expr, used: set<Reg>, env: Env)
    requires ValidConfig(cfg) && ValidEnv(cfg, env) && Sane(cfg, e) && cfg.mode != ModeDirect
    requires Compile(cfg, e, used).Some? && Actual(cfg, e, env) == Null
    ensures Compile(cfg, e, used).value.exits
    decreases e, 1
  {
    hide ChainCode, FinishCode, BinPlan, PreHandle, EmitBin, EmitUn, EmitCond, EmitCast, Computed, ChainCompiles,
         Lower, MarksExit, SafeTarget, Alloc;
    CompileExtends(cfg, e, used);
    match e
    case Bin(op, l, r) =>
      var ol := Compile(cfg, l, used).value;
      CompileExtends(cfg, l, used);
      CompileExtends(cfg, r, ol.used);
      if Actual(cfg, l, env) == Null {
        NullExits(cfg, l, used, env);
      } else {
        EmitBinPre(cfg.spec, op, ol.val, Compile(cfg, r, ol.used).value.val, Compile(cfg, r, ol.used).value.used);
        NullExits(cfg, r, ol.used, env);
      }
    case Un(_, arg) =>
      CompileExtends(cfg, arg, used);
      NullExits(cfg, arg, used, env);
    case Cond(c, t, f) => NullCond(cfg, c, t, f, used, env);
    case Cast(_, arg) =>
      CompileExtends(cfg, arg, used);
      NullExits(cfg, arg, used, env);
    case Paren(arg) => NullExits(cfg, arg, used, env);
    case Plus(arg) => NullExits(cfg, arg, used, env);
    case Name(_) =>
    case Number(_) =>
    case _ =>
      var a := Lower(cfg, e).value;
      if a.base.FromExpr? && Actual(cfg, a.base.e, env) == Null {
        NullExits(cfg, a.base.e, used, env);
      } else {
        var v := if a.base.FromExpr? then Actual(cfg, a.base.e, env).v else BaseValue(a.base, env);
        ChainCodeCompiles(cfg, a.steps);
        NullMarksExit(cfg, a.steps, env.mem, v);
      }
  }

  lemma {:induction false} NullCond(cfg: Config, c: Expr, t: Expr, f: Expr, used: set<Reg>, env: Env)
    requires ValidConfig(cfg) && ValidEnv(cfg, env) && Sane(cfg, Cond(c, t, f)) && cfg.mode != ModeDirect
    requires Compile(cfg, Cond(c, t, f), used).Some? && Actual(cfg, Cond(c, t, f), env) == Null
    ensures Compile(cfg, Cond(c, t, f), used).value.exits
    decreases Cond(c, t, f), 0
  {
    hide EmitCond, Lower, Alloc;
    var oc := Compile(cfg, c, used).value;
    var ot := Compile(cfg, t, oc.used).value;
    CompileExtends(cfg, c, used);
    CompileExtends(cfg, t, oc.used);
    CompileExtends(cfg, f, ot.used);
    if Actual(cfg, c, env) == Null {
      NullExits(cfg, c, used, env);
    } else if Actual(cfg, t, env) == Null {
      NullExits(cfg, t, oc.used, env);
    } else {
      NullExits(cfg, f, ot.used, env);
    }
  }

  lemma {:induction false} EmitBinPre(spec: Spec, op: BinOp, l: Value, r: Value, used: set<Reg>)
    requires EmitBin(spec, op, l, r, used).Some?
    ensures PreHandle(spec, Static(l), Static(r)).Some?
  {
  }

  /** Direct mode emits the jump but never defines its label. */
  lemma {:induction false} DirectNeverExits(cfg: Config, e: Expr, used: set<Reg>)
    requires |cfg.vars| == |cfg.tys| && cfg.mode == ModeDirect
    requires Compile(cfg, e, used).Some?
    ensures !Compile(cfg, e, used).value.exits
    decreases e
  {
    match e
    case Bin(_, l, r) =>
      DirectNeverExits(cfg, l, used);
      DirectNeverExits(cfg, r, Compile(cfg, l, used).value.used);
    case Un(_, arg) => DirectNeverExits(cfg, arg, used);
    case Cond(c, t, f) =>
      var oc := Compile(cfg, c, used).value;
      var ot := Compile(cfg, t, oc.used).value;
      DirectNeverExits(cfg, c, used);
      DirectNeverExits(cfg, t, oc.used);
      DirectNeverExits(cfg, f, ot.used);
    case Cast(_, arg) => DirectNeverExits(cfg, arg, used);
    case Paren(arg) => DirectNeverExits(cfg, arg, used);
    case Plus(arg) => DirectNeverExits(cfg, arg, used);
    case Name(_) =>
    case Number(_) =>
    case _ =>
      var a := Lower(cfg, e).value;
      if a.base.FromExpr? {
        DirectNeverExits(cfg, a.base.e, used);
      }
  }

  // The whole program --------------------------------------------------------------------------------

  /** The tail from any place after the expression: move the result to R0 and return. */
  lemma {:induction false} TailRun(p: Program, at: nat, v: Value, w: Word, st: State)
    requires at + |FilterTail(v)| == |p.insns| && p.insns[at..] == FilterTail(v)
    requires st.regs[RegOf(v)] == w
    ensures Exec(p.insns, p.labels, at, st) == Return(Set(st, R0, w))
  {
    var tail := FilterTail(v);
    assert p.insns[at] == p.insns[at..][0] == tail[0];
    if RegOf(v) != R0 {
      assert p.insns[at + 1] == p.insns[at..][1] == Exit;
      var st1 := Set(st, R0, w);
      assert Exec(p.insns, p.labels, at + 1, st1) == Return(st1);
    } else {
      assert Set(st, R0, w) == st;
    }
  }

  /** The caller passes the argument array in R1. */
  predicate Called(st: State, env: Env) {
    && st.regs[R1] == Ptr(Args, 0) && st.regs[FP] == Ptr(Frame, 0)
    && st.args == env.args && st.mem == env.mem
  }

  /** The filter returns the value of its expression; when a null pointer is met it returns 0, or 1
      for a top-level `||` of two registers. In direct mode the label of the null exit is missing. */
  lemma {:induction false} FilterRun(cfg: Config, e: Expr, env: Env, st: State)
    requires ValidConfig(cfg) && ValidEnv(cfg, env) && Sane(cfg, e) && Called(st, env)
    requires FilterProgram(cfg, e).Some? && Compile(cfg, e, FilterUsed).value.safe
    ensures var p := FilterProgram(cfg, e).value;
            var o := Exec(p.insns, p.labels, 0, st);
            match Actual(cfg, e, env)
            case Val(x) => o.Return? && o.st.regs[R0] == Num(x)
            case Null =>
              if cfg.mode == ModeDirect then o.Leave? && o.target == EXIT
              else o.Return? && o.st.regs[R0] == Num(NullResult(cfg, e))
  {
    hide Step, Compile, Actual, ShapeOf;
    var p := FilterProgram(cfg, e).value;
    var o := Compile(cfg, e, FilterUsed).value;
    var head := [Mov(R9, R(R1))];
    var st1 := Set(st, R9, Ptr(Args, 0));
    TopLast(cfg, e, FilterUsed);
    var r := o.val.reg;
    MovRun(R9, R(R1), st);
    ExecPlaced(head, map[], p.insns, p.labels, 0, 0, st);
    assert Exec(p.insns, p.labels, 0, st) == Exec(p.insns, p.labels, 1, st1);
    CompileRun(cfg, e, FilterUsed, env, st1);
    var ro := Run(o.code, st1);
    if Actual(cfg, e, env).Val? {
      BodyFalls(p, o, st1);
    } else if cfg.mode == ModeDirect {
      DirectNeverExits(cfg, e, FilterUsed);
      BodyLeaves(p, o, st1);
    } else {
      NullExits(cfg, e, FilterUsed, env);
      LabelRun(p, o, LabelInsn(cfg, e, r), NullResult(cfg, e), st1);
    }
  }

  /** The layout of a filter program. */
  predicate Laid(p: Program, o: Out) {
    && p.insns == [Mov(R9, R(R1))] + o.code + FilterTail(o.val)
    && p.labels == if o.exits then map[EXIT := |o.code|] else map[]
  }

  /** The expression without its last instruction is placed before the label. */
  lemma {:induction false} BodyFalls(p: Program, o: Out, st: State)
    requires Laid(p, o) && o.code != [] && o.val.VReg?
    requires Run(o.code, st).Fall?
    ensures Exec(p.insns, p.labels, 1, st) ==
            Return(Set(Run(o.code, st).st, R0, Run(o.code, st).st.regs[o.val.reg]))
  {
    hide Step;
    ExecBody(p, o, 0, st);
    var st' := Run(o.code, st).st;
    assert p.insns[1 + |o.code|..] == FilterTail(o.val);
    TailRun(p, 1 + |o.code|, o.val, st'.regs[o.val.reg], st');
  }

  lemma {:induction false} BodyLeaves(p: Program, o: Out, st: State)
    requires Laid(p, o) && !o.exits && Run(o.code, st).Leave?
    ensures Exec(p.insns, p.labels, 1, st) == Run(o.code, st)
  {
    hide Step;
    ExecPlaced(o.code, map[], p.insns, map[], 1, 0, st);
  }

  /** The body as the program runs it: jumps to the exit label stay inside the program. */
  lemma {:induction false} ExecBody(p: Program, o: Out, pc: nat, st: State)
    requires Laid(p, o) && pc <= |o.code|
    requires Exec(o.code, map[], pc, st).Fall?
    ensures Exec(p.insns, p.labels, 1 + pc, st) ==
            Exec(p.insns, p.labels, 1 + |o.code|, Exec(o.code, map[], pc, st).st)
    decreases |o.code| - pc
  {
    hide Step;
    if pc < |o.code| {
      assert p.insns[1 + pc] == o.code[pc];
      match Step(o.code[pc], st)
      case Go(st') => ExecBody(p, o, pc + 1, st');
      case Over(n, st') => ExecBody(p, o, pc + 1 + n, st');
      case Goto(_, _) =>
      case Halt(_) =>
      case Wrong =>
    }
  }

  /** A jump to the exit label from anywhere but the last instruction of the expression. */
  lemma {:induction false} ExecBodyLeave(p: Program, o: Out, pc: nat, st: State)
    requires Laid(p, o) && o.exits && o.code != [] && pc < |o.code|
    requires !o.code[|o.code| - 1].JmpLabel?
    requires Exec(o.code, map[], pc, st).Leave? && Exec(o.code, map[], pc, st).target == EXIT
    ensures Exec(p.insns, p.labels, 1 + pc, st) ==
            Exec(p.insns, p.labels, |o.code|, Exec(o.code, map[], pc, st).st)
    decreases |o.code| - pc
  {
    hide Step;
    assert p.insns[1 + pc] == o.code[pc];
    OnlyLabelJumps(o.code[pc], st);
    match Step(o.code[pc], st)
    case Go(st') => ExecBodyLeave(p, o, pc + 1, st');
    case Over(n, st') => ExecBodyLeave(p, o, pc + 1 + n, st');
    case Goto(l, st') => assert pc < |o.code| - 1;
    case Halt(_) =>
    case Wrong =>
  }

  lemma {:induction false} OnlyLabelJumps(i: Instr, st: State)
    ensures Step(i, st).Goto? ==> i.JmpLabel?
  {
  }

  /** From the label the last instruction decides the result. */
  lemma {:induction false} LabelRun(p: Program, o: Out, last: Instr, x: u64, st: State)
    requires Laid(p, o) && o.exits && o.code != [] && o.val.VReg?
    requires o.code[|o.code| - 1] == last
    requires (last == Alu(Xor, o.val.reg, R(o.val.reg)) && x == 0) || (last == Mov(o.val.reg, Imm(1)) && x == 1)
    requires Run(o.code, st).Leave? && Run(o.code, st).target == EXIT
    ensures var out := Exec(p.insns, p.labels, 1, st); out.Return? && out.st.regs[R0] == Num(x)
  {
    var n := |o.code|;
    ExecBodyLeave(p, o, 0, st);
    var st1 := Run(o.code, st).st;
    var st2 := Set(st1, o.val.reg, Num(x));
    assert p.insns[n] == last;
    assert Step(last, st1) == Go(st2);
    hide Step;
    assert Exec(p.insns, p.labels, n, st1) == Exec(p.insns, p.labels, n + 1, st2);
    assert p.insns[n + 1..] == FilterTail(o.val);
    TailRun(p, n + 1, o.val, Num(x), st2);
  }
}
