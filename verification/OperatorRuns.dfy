/** The code emitted for every operator computes the value stated for it, changes no register but
    those of its operands and the fresh one, and falls through. */
module OperatorRuns {
  import opened Words
  import opened Machine
  import opened Types
  import opened Operators

  lemma {:induction false} XorSame(x: u64)
    ensures Bitwise(BXor, x, x) == 0
  {
    BitsXorSelf(x, 64);
  }

  lemma {:induction false} TestRun(cond: Machine.Cond, r: Reg, src: Src, x: u64, w: u64, st: State)
    requires st.regs[r] == Num(x) && Operand(src, st.regs) == Num(w)
    ensures Run(TestCode(cond, r, src), st) == Fall(Set(st, r, Num(BoolWord(!Holds(cond, x, w)))))
  {
    var code := TestCode(cond, r, src);
    assert code == [Jmp(cond, r, src, 2), Mov(r, Imm(1)), Ja(1), Alu(Xor, r, R(r))];
    if Holds(cond, x, w) {
      var st1 := Set(st, r, Num(0));
      assert Exec(code, map[], 4, st1) == Fall(st1);
      assert Exec(code, map[], 3, st) == Fall(st1);
    } else {
      var st1 := Set(st, r, Num(1));
      assert Exec(code, map[], 4, st1) == Fall(st1);
      assert Exec(code, map[], 2, st1) == Fall(st1);
      assert Exec(code, map[], 1, st) == Fall(st1);
    }
  }

  lemma {:induction false} AndAndRun(l: Reg, r: Reg, x: u64, y: u64, st: State)
    requires st.regs[l] == Num(x) && st.regs[r] == Num(y)
    ensures Run([Jmp(Eq, l, Imm(0), 3), Jmp(Eq, r, Imm(0), 2)] + Reg2Bool(l), st) ==
            Fall(Set(st, l, Num(BoolWord(x != 0 && y != 0))))
  {
    var code := [Jmp(Eq, l, Imm(0), 3), Jmp(Eq, r, Imm(0), 2)] + Reg2Bool(l);
    assert code == [Jmp(Eq, l, Imm(0), 3), Jmp(Eq, r, Imm(0), 2), Mov(l, Imm(1)), Ja(1), Alu(Xor, l, R(l))];
    var zero, one := Set(st, l, Num(0)), Set(st, l, Num(1));
    assert Exec(code, map[], 5, zero) == Fall(zero);
    assert Exec(code, map[], 4, st) == Fall(zero);
    assert Exec(code, map[], 5, one) == Fall(one);
    assert Exec(code, map[], 3, one) == Fall(one);
    assert Exec(code, map[], 2, st) == Fall(one);
    assert Exec(code, map[], 1, st) == if y == 0 then Fall(zero) else Fall(one);
  }

  lemma {:induction false} OrOrRun(l: Reg, r: Reg, x: u64, y: u64, st: State)
    requires st.regs[l] == Num(x) && st.regs[r] == Num(y)
    ensures Run([Jmp(Ne, l, Imm(0), 3), Jmp(Ne, r, Imm(0), 2), Alu(Xor, l, R(l)), Ja(1), Mov(l, Imm(1))], st) ==
            Fall(Set(st, l, Num(BoolWord(x != 0 || y != 0))))
  {
    var code := [Jmp(Ne, l, Imm(0), 3), Jmp(Ne, r, Imm(0), 2), Alu(Xor, l, R(l)), Ja(1), Mov(l, Imm(1))];
    var zero, one := Set(st, l, Num(0)), Set(st, l, Num(1));
    assert Exec(code, map[], 5, one) == Fall(one);
    assert Exec(code, map[], 4, st) == Fall(one);
    assert Exec(code, map[], 5, zero) == Fall(zero);
    assert Exec(code, map[], 3, zero) == Fall(zero);
    assert Exec(code, map[], 2, st) == Fall(zero);
    assert Exec(code, map[], 1, st) == if y != 0 then Fall(one) else Fall(zero);
  }

  /** A jump over one instruction when the divisor or shift count is zero. */
  lemma {:induction false} GuardedRun(cond: Machine.Cond, op: AluOp, l: Reg, r: Reg, x: u64, y: u64, st: State)
    requires st.regs[l] == Num(x) && st.regs[r] == Num(y)
    requires (cond == Eq && op == Mod) || (cond == Le && op == Lsh)
    ensures Run([Jmp(cond, r, Imm(0), 1), Alu(op, l, R(r))], st) == Fall(Set(st, l, Num(AluResult(op, x, y))))
  {
    var code := [Jmp(cond, r, Imm(0), 1), Alu(op, l, R(r))];
    var st1 := Set(st, l, Num(AluResult(op, x, y)));
    assert Exec(code, map[], 2, st1) == Fall(st1);
    assert Exec(code, map[], 1, st) == Fall(st1);
    if y == 0 {
      assert AluResult(op, x, y) == x;
      assert st1 == st;
    }
  }

  lemma {:induction false} DivRegRun(l: Reg, r: Reg, x: u64, y: u64, st: State)
    requires st.regs[l] == Num(x) && st.regs[r] == Num(y) && l != r
    ensures Run([Jmp(Eq, r, Imm(0), 2), Mov(l, Imm(0)), Ja(1), Alu(Div, l, R(r))], st) == Fall(Set(st, l, Num(0)))
  {
    var code := [Jmp(Eq, r, Imm(0), 2), Mov(l, Imm(0)), Ja(1), Alu(Div, l, R(r))];
    var st1 := Set(st, l, Num(0));
    assert Exec(code, map[], 4, st1) == Fall(st1);
    if y == 0 {
      assert Exec(code, map[], 3, st) == Fall(st1);
    } else {
      assert Exec(code, map[], 2, st1) == Fall(st1);
      assert Exec(code, map[], 1, st) == Fall(st1);
    }
  }

  lemma {:induction false} DivNumRun(n: int, r: Reg, f: Reg, y: u64, st: State) returns (st': State)
    requires st.regs[r] == Num(y) && f != r
    ensures Run([Jmp(Eq, r, Imm(0), 2), Mov(f, Imm(0)), Ja(2), Mov(f, Imm(n)), Alu(Div, f, R(r))], st) == Fall(st')
    ensures st' == Set(st, f, Num(0))
  {
    var code := [Jmp(Eq, r, Imm(0), 2), Mov(f, Imm(0)), Ja(2), Mov(f, Imm(n)), Alu(Div, f, R(r))];
    st' := Set(st, f, Num(0));
    assert Exec(code, map[], 5, st') == Fall(st');
    if y == 0 {
      var st1 := Set(st, f, Num(Immediate(n)));
      assert Exec(code, map[], 4, st1) == Fall(st') by {
        assert Set(st1, f, Num(0)) == st';
      }
      assert Exec(code, map[], 3, st) == Fall(st');
    } else {
      assert Exec(code, map[], 2, st') == Fall(st');
      assert Exec(code, map[], 1, st) == Fall(st');
    }
  }

  lemma {:induction false} AluRun(op: AluOp, dst: Reg, src: Src, x: u64, w: u64, st: State)
    requires st.regs[dst] == Num(x) && Operand(src, st.regs) == Num(w)
    ensures Run([Alu(op, dst, src)], st) == Fall(Set(st, dst, Num(AluResult(op, x, w))))
  {
    if op == Xor && src == R(dst) {
      XorSame(x);
      assert AluResult(op, x, w) == 0;
    }
    hide AluResult;
    RunStraight([Alu(op, dst, src)], [st, Set(st, dst, Num(AluResult(op, x, w)))]);
  }

  lemma {:induction false} MovAluRun(op: AluOp, f: Reg, n: int, r: Reg, y: u64, st: State) returns (st': State)
    requires st.regs[r] == Num(y) && f != r
    ensures Run([Mov(f, Imm(n)), Alu(op, f, R(r))], st) == Fall(st')
    ensures st' == Set(st, f, Num(AluResult(op, Immediate(n), y)))
  {
    hide AluResult;
    var st1 := Set(st, f, Num(Immediate(n)));
    st' := Set(st1, f, Num(AluResult(op, Immediate(n), y)));
    RunStraight([Mov(f, Imm(n)), Alu(op, f, R(r))], [st, st1, st']);
  }

  lemma {:induction false} MovRun(dst: Reg, src: Src, st: State)
    ensures Run([Mov(dst, src)], st) == Fall(Set(st, dst, Operand(src, st.regs)))
  {
    RunStraight([Mov(dst, src)], [st, Set(st, dst, Operand(src, st.regs))]);
  }

  lemma {:induction false} NegRun(r: Reg, x: u64, st: State)
    requires st.regs[r] == Num(x)
    ensures Run([Neg(r)], st) == Fall(Set(st, r, Num(Wrap(TWO64 - x))))
  {
    RunStraight([Neg(r)], [st, Set(st, r, Num(Wrap(TWO64 - x)))]);
  }

  /** Only the named registers may differ. */
  ghost predicate OnlyRegs(st: State, st': State, regs: set<Reg>) {
    && st' == st.(regs := st'.regs)
    && (forall q: Reg :: q !in regs ==> st'.regs[q] == st.regs[q])
  }

  lemma {:induction false} ScaledRun(op: BinOp, size: nat, l: Reg, r: Reg, x: u64, y: u64, st: State)
    returns (st': State)
    requires op == OAdd || op == OSub
    requires st.regs[l] == Num(x) && st.regs[r] == Num(y) && l != r
    ensures Run((if size != 0 then [Alu(Mul, r, Imm(size))] else []) + [Alu(AluOf(op), l, R(r))], st) == Fall(st')
    ensures st'.regs[l] ==
            Num(AluResult(AluOf(op), x, if size != 0 then AluResult(Mul, y, Immediate(size)) else y))
    ensures OnlyRegs(st, st', {l, r})
  {
    hide Step, AluResult;
    var y' := if size != 0 then AluResult(Mul, y, Immediate(size)) else y;
    var st1 := Set(st, r, Num(y'));
    var scale := if size != 0 then [Alu(Mul, r, Imm(size))] else [];
    if size != 0 {
      AluRun(Mul, r, Imm(size), y, Immediate(size), st);
    } else {
      assert st1 == st;
    }
    assert Run(scale, st) == Fall(st1);
    AluRun(AluOf(op), l, R(r), x, y', st1);
    RunConcat(scale, [Alu(AluOf(op), l, R(r))], st);
    st' := Set(st1, l, Num(AluResult(AluOf(op), x, y')));
  }

  lemma {:induction false} RegRegRun(spec: Spec, op: BinOp, a: Shape, l: Reg, r: Reg, x: u64, y: u64,
                                     st: State) returns (st': State)
    requires a.SReg? && l != r && st.regs[l] == Num(x) && st.regs[r] == Num(y)
    ensures Run(RegRegCode(spec, op, a, l, r), st) == Fall(st')
    ensures st'.regs[l] == Num(ComputedRegReg(spec, op, a, x, y))
    ensures OnlyRegs(st, st', {l, r})
  {
    hide Step, AluResult, Run;
    st' := Set(st, l, Num(ComputedRegReg(spec, op, a, x, y)));
    match op
    case OAdd | OSub => st' := ScaledRun(op, ElemSize(spec, a.ty), l, r, x, y, st);
    case OAnd | OOr | OXor | OMul | ORsh => AluRun(AluOf(op), l, R(r), x, y, st);
    case OLsh => GuardedRun(Le, Lsh, l, r, x, y, st);
    case OMod => GuardedRun(Eq, Mod, l, r, x, y, st);
    case ODiv => DivRegRun(l, r, x, y, st);
    case OAndAnd => AndAndRun(l, r, x, y, st);
    case OOrOr => OrOrRun(l, r, x, y, st);
    case _ => TestRun(Opposite(op), l, R(r), x, y, st);
  }

  /** The result is where the plan says. */
  predicate NumRegLeaves(spec: Spec, op: BinOp, n: i64, b: Shape, r: Reg, f: Reg, y: u64, st': State)
    requires b.SReg? && BinPlan(spec, op, SNum(n), b).Some?
  {
    var plan := BinPlan(spec, op, SNum(n), b).value;
    && (plan.PConst? ==> Wrap(plan.n) == ComputedNumReg(spec, op, n, b, y))
    && (plan.PRight? ==> st'.regs[r] == Num(ComputedNumReg(spec, op, n, b, y)))
    && (plan.PFresh? ==> st'.regs[f] == Num(ComputedNumReg(spec, op, n, b, y)))
    && !plan.PLeft?
  }

  lemma {:induction false} NumRegAdditiveRun(spec: Spec, op: BinOp, n: i64, b: Shape, r: Reg, f: Reg, y: u64,
                                             st: State) returns (st': State)
    requires b.SReg? && st.regs[r] == Num(y)
    requires BinPlan(spec, op, SNum(n), b).Some? && (op == OAdd || op == OSub || op == OMul)
    ensures Run(NumRegCode(spec, op, n, b, r, f), st) == Fall(st')
    ensures NumRegLeaves(spec, op, n, b, r, f, y, st')
    ensures OnlyRegs(st, st', {r})
  {
    hide Step, AluResult, Run;
    st' := st;
    EmptyRun(st);
    match op
    case OAdd =>
      if n != 0 {
        var c := n * AddScale(spec, b.ty).value;
        AluRun(Add, r, Imm(c), y, Immediate(c), st);
        st' := Set(st, r, Num(AluResult(Add, y, Immediate(c))));
      }
    case OSub =>
      if n == 0 {
        NegRun(r, y, st);
        st' := Set(st, r, Num(Wrap(TWO64 - y)));
      } else {
        AluRun(Sub, r, Imm(n), y, Immediate(n), st);
        st' := Set(st, r, Num(AluResult(Sub, y, Immediate(n))));
      }
    case OMul =>
      if n != 0 && n != 1 {
        AluRun(Mul, r, Imm(n), y, Immediate(n), st);
        st' := Set(st, r, Num(AluResult(Mul, y, Immediate(n))));
      }
  }

  lemma {:induction false} NumRegBitwiseRun(spec: Spec, op: BinOp, n: i64, b: Shape, r: Reg, f: Reg, y: u64,
                                            st: State) returns (st': State)
    requires b.SReg? && st.regs[r] == Num(y)
    requires BinPlan(spec, op, SNum(n), b).Some? && (op == OAnd || op == OOr || op == OXor)
    ensures Run(NumRegCode(spec, op, n, b, r, f), st) == Fall(st')
    ensures NumRegLeaves(spec, op, n, b, r, f, y, st')
    ensures OnlyRegs(st, st', {r})
  {
    hide Step, AluResult, Run;
    st' := st;
    EmptyRun(st);
    if op == OAnd || n != 0 {
      AluRun(AluOf(op), r, Imm(n), y, Immediate(n), st);
      st' := Set(st, r, Num(AluResult(AluOf(op), y, Immediate(n))));
    }
  }

  lemma {:induction false} NumRegRun(spec: Spec, op: BinOp, n: i64, b: Shape, r: Reg, f: Reg, y: u64,
                                     st: State) returns (st': State)
    requires b.SReg? && st.regs[r] == Num(y)
    requires BinPlan(spec, op, SNum(n), b).Some?
    requires BinPlan(spec, op, SNum(n), b).value.PFresh? ==> f != r
    ensures Run(NumRegCode(spec, op, n, b, r, f), st) == Fall(st')
    ensures NumRegLeaves(spec, op, n, b, r, f, y, st')
    ensures OnlyRegs(st, st', if BinPlan(spec, op, SNum(n), b).value.PFresh? then {r, f} else {r})
  {
    hide Step, AluResult, Run, FoldConst, AddScale;
    st' := st;
    EmptyRun(st);
    match op
    case OAdd | OSub | OMul => st' := NumRegAdditiveRun(spec, op, n, b, r, f, y, st);
    case OAnd | OOr | OXor => st' := NumRegBitwiseRun(spec, op, n, b, r, f, y, st);
    case OLsh | ORsh | OMod =>
      if n != 0 {
        st' := MovAluRun(AluOf(op), f, n, r, y, st);
      }
    case ODiv => st' := DivNumRun(n, r, f, y, st);
    case _ => st' := NumRegTestRun(spec, op, n, b, r, f, y, st);
  }

  lemma {:induction false} NumRegTestRun(spec: Spec, op: BinOp, n: i64, b: Shape, r: Reg, f: Reg, y: u64,
                                         st: State) returns (st': State)
    requires b.SReg? && st.regs[r] == Num(y)
    requires BinPlan(spec, op, SNum(n), b).Some? && (op == OAndAnd || op == OOrOr || IsComparison(op))
    ensures Run(NumRegCode(spec, op, n, b, r, f), st) == Fall(st')
    ensures NumRegLeaves(spec, op, n, b, r, f, y, st')
    ensures OnlyRegs(st, st', {r})
  {
    hide Step, AluResult, Run, FoldConst, AddScale;
    st' := st;
    EmptyRun(st);
    if IsComparison(op) {
      TestRun(Opposite(op), r, Imm(n), y, Immediate(n), st);
      st' := Set(st, r, Num(BoolWord(Compare(op, y, Immediate(n)))));
    } else if (op == OAndAnd) == (n != 0) {
      TestRun(Eq, r, Imm(0), y, 0, st);
      st' := Set(st, r, Num(BoolWord(y != 0)));
    }
  }

  lemma {:induction false} EmptyRun(st: State)
    ensures Run([], st) == Fall(st)
  {
  }

  predicate RegNumLeaves(spec: Spec, op: BinOp, a: Shape, n: i64, l: Reg, x: u64, st': State)
    requires a.SReg? && BinPlan(spec, op, a, SNum(n)).Some?
  {
    var plan := BinPlan(spec, op, a, SNum(n)).value;
    && (plan.PConst? ==> Wrap(plan.n) == ComputedRegNum(spec, op, a, n, x))
    && (plan.PLeft? ==> st'.regs[l] == Num(ComputedRegNum(spec, op, a, n, x)))
    && !plan.PRight? && !plan.PFresh?
  }

  lemma {:induction false} RegNumAdditiveRun(spec: Spec, op: BinOp, a: Shape, n: i64, l: Reg, x: u64,
                                             st: State) returns (st': State)
    requires a.SReg? && st.regs[l] == Num(x)
    requires BinPlan(spec, op, a, SNum(n)).Some? && (op == OAdd || op == OSub || op == OMul)
    ensures Run(RegNumCode(spec, op, a, n, l), st) == Fall(st')
    ensures RegNumLeaves(spec, op, a, n, l, x, st')
    ensures OnlyRegs(st, st', {l})
  {
    hide Step, AluResult, Run;
    st' := st;
    EmptyRun(st);
    match op
    case OAdd =>
      if n != 0 {
        var c := n * AddScale(spec, a.ty).value;
        AluRun(Add, l, Imm(c), x, Immediate(c), st);
        st' := Set(st, l, Num(AluResult(Add, x, Immediate(c))));
      }
    case OSub =>
      if n != 0 {
        var c := n * SubScale(spec, a.ty).value;
        AluRun(Sub, l, Imm(c), x, Immediate(c), st);
        st' := Set(st, l, Num(AluResult(Sub, x, Immediate(c))));
      }
    case OMul =>
      if n != 0 && n != 1 {
        AluRun(Mul, l, Imm(n), x, Immediate(n), st);
        st' := Set(st, l, Num(AluResult(Mul, x, Immediate(n))));
      }
  }

  lemma {:induction false} RegNumAluRun(spec: Spec, op: BinOp, a: Shape, n: i64, l: Reg, x: u64, st: State)
    returns (st': State)
    requires a.SReg? && st.regs[l] == Num(x)
    requires BinPlan(spec, op, a, SNum(n)).Some?
    requires op == OAnd || op == ODiv || op == OMod || op == OOr || op == OXor || op == OLsh || op == ORsh
    ensures Run(RegNumCode(spec, op, a, n, l), st) == Fall(st')
    ensures RegNumLeaves(spec, op, a, n, l, x, st')
    ensures OnlyRegs(st, st', {l})
  {
    hide Step, AluResult, Run;
    st' := st;
    EmptyRun(st);
    if op == OMod && n == 1 {
      MovRun(l, Imm(0), st);
      st' := Set(st, l, Num(0));
    } else if op == OAnd || op == ODiv || op == OMod || n != 0 {
      AluRun(AluOf(op), l, Imm(n), x, Immediate(n), st);
      st' := Set(st, l, Num(AluResult(AluOf(op), x, Immediate(n))));
    }
  }

  lemma {:induction false} RegNumRun(spec: Spec, op: BinOp, a: Shape, n: i64, l: Reg, x: u64, st: State)
    returns (st': State)
    requires a.SReg? && st.regs[l] == Num(x)
    requires BinPlan(spec, op, a, SNum(n)).Some?
    ensures Run(RegNumCode(spec, op, a, n, l), st) == Fall(st')
    ensures RegNumLeaves(spec, op, a, n, l, x, st')
    ensures OnlyRegs(st, st', {l})
  {
    hide Step, AluResult, Run;
    st' := st;
    EmptyRun(st);
    match op
    case OAdd | OSub | OMul => st' := RegNumAdditiveRun(spec, op, a, n, l, x, st);
    case OAnd | ODiv | OOr | OXor | OLsh | ORsh | OMod => st' := RegNumAluRun(spec, op, a, n, l, x, st);
    case OAndAnd | OOrOr =>
      if (op == OAndAnd) == (n != 0) {
        TestRun(Eq, l, Imm(0), x, 0, st);
        st' := Set(st, l, Num(BoolWord(x != 0)));
      }
    case _ =>
      TestRun(Opposite(op), l, Imm(n), x, Immediate(n), st);
      st' := Set(st, l, Num(BoolWord(Compare(op, x, Immediate(n)))));
  }

  /** The register a plan leaves the result in. */
  function PlanReg(plan: Plan, l: Reg, r: Reg, f: Reg): Reg {
    match plan
    case PConst(_) => R0
    case PLeft => l
    case PRight => r
    case PFresh => f
  }

  /** The registers an operator may change. */
  function Touched(plan: Plan, a: Shape, b: Shape, l: Reg, r: Reg, f: Reg): set<Reg> {
    (if a.SReg? then {l} else {}) + (if b.SReg? then {r} else {}) + (if plan.PFresh? then {f} else {})
  }

  /** Every binary operator, on every pair of operands it accepts. */
  lemma {:induction false} BinRun(spec: Spec, op: BinOp, a: Shape, b: Shape, l: Reg, r: Reg, f: Reg, x: u64, y: u64,
                                  st: State)
    returns (st': State)
    requires BinPlan(spec, op, a, b).Some?
    requires a.SReg? ==> st.regs[l] == Num(x)
    requires b.SReg? ==> st.regs[r] == Num(y)
    requires a.SReg? && b.SReg? ==> l != r
    requires BinPlan(spec, op, a, b).value.PFresh? ==> f != r
    ensures Run(BinCode(spec, op, a, b, l, r, f), st) == Fall(st')
    ensures var plan := BinPlan(spec, op, a, b).value;
            && (plan.PConst? ==> Wrap(plan.n) == Computed(spec, op, a, b, x, y))
            && (!plan.PConst? ==> st'.regs[PlanReg(plan, l, r, f)] == Num(Computed(spec, op, a, b, x, y)))
            && (plan.PLeft? ==> a.SReg?) && (plan.PRight? ==> a.SNum? && b.SReg?) && (plan.PFresh? ==> a.SNum? && b.SReg?)
            && OnlyRegs(st, st', Touched(plan, a, b, l, r, f))
  {
    hide Step, AluResult, Run, ComputedRegReg, ComputedNumReg, ComputedRegNum, RegRegCode, RegNumCode, NumRegCode;
    if a.SReg? && b.SReg? {
      st' := RegRegRun(spec, op, a, l, r, x, y, st);
    } else if a.SNum? && b.SReg? {
      st' := NumRegRun(spec, op, a.n, b, r, f, y, st);
    } else if a.SReg? {
      st' := RegNumRun(spec, op, a, b.n, l, x, st);
    } else {
      EmptyRun(st);
      st' := st;
    }
  }

  lemma {:induction false} UnRun(op: UnOp, r: Reg, x: u64, st: State) returns (st': State)
    requires st.regs[r] == Num(x)
    ensures Run(UnCode(op, r), st) == Fall(st')
    ensures st' == Set(st, r, Num(ComputedUn(op, x)))
  {
    hide Step, AluResult, Run;
    st' := Set(st, r, Num(ComputedUn(op, x)));
    match op
    case UMinus => NegRun(r, x, st);
    case UNot => TestRun(Ne, r, Imm(0), x, 0, st);
    case UPreDec => AluRun(Sub, r, Imm(1), x, 1, st);
    case UPreInc => AluRun(Add, r, Imm(1), x, 1, st);
    case UTwid => AluRun(Xor, r, Imm(-1), x, TWO64 - 1, st);
  }

  /** Both arms are ready; the condition picks one. */
  lemma {:induction false} CondRun(c: Reg, t: Src, e: Src, x: u64, st: State)
    requires st.regs[c] == Num(x)
    ensures Run(CondCode(c, t, e), st) == Fall(Set(st, c, Operand(if x != 0 then t else e, st.regs)))
  {
    var code := CondCode(c, t, e);
    if x != 0 {
      var st1 := Set(st, c, Operand(t, st.regs));
      assert Exec(code, map[], 4, st1) == Fall(st1);
      assert Exec(code, map[], 2, st1) == Fall(st1);
      assert Exec(code, map[], 1, st) == Fall(st1);
    } else {
      var st1 := Set(st, c, Operand(e, st.regs));
      assert Exec(code, map[], 4, st1) == Fall(st1);
      assert Exec(code, map[], 3, st) == Fall(st1);
    }
  }
}
