/** Register discipline: how many registers an expression needs, which one holds its result, and
    when no helper call meets a pending operand. */
module Discipline {
  import opened Words
  import opened Machine
  import opened Types
  import opened Spill
  import opened Chains
  import opened Operators
  import opened Codegen
  import opened Correctness
  import opened Filter

  function Max(a: int, b: int): int {
    if a < b then b else a
  }

  /** 1 if the value of `e` occupies a register, else 0. */
  function Occupies(cfg: Config, e: Expr): nat
    requires |cfg.vars| == |cfg.tys|
  {
    match ShapeOf(cfg, e)
    case Some(SReg(_, _)) => 1
    case _ => 0
  }

  /** Registers are released in the reverse order of their allocation: no constant to the left of a
      shift, division or modulo by a register, and no constant condition of `?:`. */
  predicate StackLike(cfg: Config, e: Expr)
    requires |cfg.vars| == |cfg.tys|
  {
    match e
    case Bin(op, l, r) =>
      StackLike(cfg, l) && StackLike(cfg, r) && !IsFresh(cfg, op, l, r)
    case Un(_, arg) => StackLike(cfg, arg)
    case Cond(c, t, f) => StackLike(cfg, c) && StackLike(cfg, t) && StackLike(cfg, f) && Occupies(cfg, c) == 1
    case Cast(_, arg) => StackLike(cfg, arg)
    case Paren(arg) => StackLike(cfg, arg)
    case Plus(arg) => StackLike(cfg, arg)
    case Name(_) => true
    case Number(_) => true
    case _ =>
      (match Lower(cfg, e)
       case Some(a) => a.base.FromExpr? ==> StackLike(cfg, a.base.e)
       case None => true)
  }

  /** The registers that stay allocated after `e` although its result is in none of them: the one of the arm
      that a constant condition does not choose. */
  function Leaked(cfg: Config, e: Expr): nat
    requires |cfg.vars| == |cfg.tys|
  {
    match e
    case Name(_) => 0
    case Number(_) => 0
    case Bin(_, l, r) => Leaked(cfg, l) + Leaked(cfg, r)
    case Un(_, arg) => Leaked(cfg, arg)
    case Cond(c, t, f) =>
      Leaked(cfg, c) + Leaked(cfg, t) + Leaked(cfg, f) +
      (match ShapeOf(cfg, c)
       case Some(SNum(n)) => Occupies(cfg, if n == 0 then t else f)
       case _ => 0)
    case Cast(_, arg) => Leaked(cfg, arg)
    case Paren(arg) => Leaked(cfg, arg)
    case Plus(arg) => Leaked(cfg, arg)
    case _ =>
      (match Lower(cfg, e)
       case Some(a) => if a.base.FromExpr? then Leaked(cfg, a.base.e) else 0
       case None => 0)
  }

  /** How many registers are allocated while the value of `e` waits to be used. */
  function Held(cfg: Config, e: Expr): nat
    requires |cfg.vars| == |cfg.tys|
  {
    Leaked(cfg, e) + Occupies(cfg, e)
  }

  /** A constant to the left of a shift, division or modulo by a register: the result gets a new one. */
  predicate IsFresh(cfg: Config, op: BinOp, l: Expr, r: Expr)
    requires |cfg.vars| == |cfg.tys|
  {
    match (ShapeOf(cfg, l), ShapeOf(cfg, r))
    case (Some(a), Some(b)) =>
      (match PreHandle(cfg.spec, a, b)
       case Some((a', b')) => BinPlan(cfg.spec, op, a', b') == Some(PFresh)
       case None => false)
    case _ => false
  }

  /** The registers needed to evaluate `e`: the Sethi-Ullman count of left-to-right evaluation. */
  function Need(cfg: Config, e: Expr): nat
    requires |cfg.vars| == |cfg.tys|
  {
    match e
    case Name(_) => Occupies(cfg, e)
    case Number(_) => 0
    case Bin(op, l, r) =>
      Max(Max(Need(cfg, l), Held(cfg, l) + Need(cfg, r)),
          if IsFresh(cfg, op, l, r) then Held(cfg, l) + Held(cfg, r) + 1 else 0)
    case Un(_, arg) => Need(cfg, arg)
    case Cond(c, t, f) =>
      Max(Need(cfg, c), Max(Held(cfg, c) + Need(cfg, t), Held(cfg, c) + Held(cfg, t) + Need(cfg, f)))
    case Cast(_, arg) => Max(Need(cfg, arg), Held(cfg, e))
    case Paren(arg) => Need(cfg, arg)
    case Plus(arg) => Need(cfg, arg)
    case _ =>
      (match Lower(cfg, e)
       case Some(a) => if a.base.FromExpr? then Need(cfg, a.base.e) else 1
       case None => 0)
  }

  function FreeCount(used: set<Reg>): nat {
    |Allocatable - used|
  }

  lemma {:induction false} AllocFree(used: set<Reg>)
    ensures Alloc(used).Some? <==> FreeCount(used) > 0
    ensures Alloc(used).Some? ==> FreeCount(used + {Alloc(used).value}) == FreeCount(used) - 1
  {
    match Alloc(used)
    case Some(r) =>
      assert r in Allocatable - used;
      assert Allocatable - (used + {r}) == (Allocatable - used) - {r};
    case None =>
      assert Allocatable - used == {};
  }

  lemma {:induction false} FreedOne(used: set<Reg>, r: Reg)
    requires r in used && r <= 8
    ensures FreeCount(used - {r}) == FreeCount(used) + 1
  {
    assert Allocatable - (used - {r}) == (Allocatable - used) + {r};
  }

  // How many registers an expression needs ---------------------------------------------------------------

  /** After `o` as many registers are free as the expression does not hold. */
  ghost predicate Leaves(used: set<Reg>, o: Out, held: nat) {
    FreeCount(o.used) == FreeCount(used) - held
  }

  /** Compilation runs out of registers exactly when fewer are free than the expression needs, and leaves the
      result's and the leaked ones allocated. */
  lemma {:induction false} NeedIff(cfg: Config, e: Expr, used: set<Reg>)
    requires |cfg.vars| == |cfg.tys| && Sane(cfg, e) && ShapeOf(cfg, e).Some?
    ensures Compile(cfg, e, used).Some? <==> Need(cfg, e) <= FreeCount(used)
    ensures Compile(cfg, e, used).Some? ==> Leaves(used, Compile(cfg, e, used).value, Held(cfg, e))
    decreases e
  {
    hide EmitBin, EmitUn, EmitCond, EmitCast, BinShape, UnShape, CondShape, CastShape, FreeCount, Alloc, BinPlan,
         PreHandle;
    match e
    case Name(_) => AllocFree(used);
    case Number(_) =>
    case Bin(op, l, r) => NeedBin(cfg, op, l, r, used);
    case Un(op, arg) =>
      NeedIff(cfg, arg, used);
      if Compile(cfg, arg, used).Some? {
        CompileExtends(cfg, arg, used);
        UnFree(op, Compile(cfg, arg, used).value);
      }
    case Cond(c, t, f) => NeedCond(cfg, c, t, f, used);
    case Cast(to, arg) =>
      NeedIff(cfg, arg, used);
      if Compile(cfg, arg, used).Some? {
        CompileExtends(cfg, arg, used);
        CastFree(to, Compile(cfg, arg, used).value);
      }
    case Paren(arg) => NeedIff(cfg, arg, used);
    case Plus(arg) => NeedIff(cfg, arg, used);
    case _ => NeedAccess(cfg, e, used);
  }

  lemma {:induction false} NeedAccess(cfg: Config, e: Expr, used: set<Reg>)
    requires |cfg.vars| == |cfg.tys| && Sane(cfg, e) && ShapeOf(cfg, e).Some?
    requires IsAccess(e)
    ensures Compile(cfg, e, used).Some? <==> Need(cfg, e) <= FreeCount(used)
    ensures Compile(cfg, e, used).Some? ==> Leaves(used, Compile(cfg, e, used).value, Held(cfg, e))
    decreases e, 0
  {
    hide ChainCode, FinishCode, FreeCount, Alloc, ChainCompiles, SafeTarget, MarksExit, BaseCode;
    var a := Lower(cfg, e).value;
    ChainCodeCompiles(cfg, a.steps);
    AllocFree(used);
    if a.base.FromExpr? {
      LowerBase(cfg, e);
      NeedIff(cfg, a.base.e, used);
    }
  }

  lemma {:induction false} UnFree(op: UnOp, o: Out)
    requires UnShape(op, Static(o.val)).Some?
    ensures EmitUn(op, o.val, o.used).Some? && EmitUn(op, o.val, o.used).value.used == o.used
    ensures UnShape(op, Static(o.val)).value.SReg? <==> o.val.VReg?
  {
  }

  lemma {:induction false} CastFree(to: Option<Ty>, o: Out)
    requires CastShape(to, Static(o.val)).Some?
    ensures EmitCast(to, o.val, o.used).Some? <==> (o.val.VNum? ==> FreeCount(o.used) > 0)
    ensures EmitCast(to, o.val, o.used).Some? ==>
              Leaves(o.used, EmitCast(to, o.val, o.used).value, if o.val.VNum? then 1 else 0)
    ensures CastShape(to, Static(o.val)).value.SReg? <==> !o.val.VEnum?
  {
    AllocFree(o.used);
  }

  lemma {:induction false} BinFree(spec: Spec, op: BinOp, l: Out, r: Out, used: set<Reg>)
    requires Extends(used, l) && Extends(l.used, r)
    requires BinShape(spec, op, Static(l.val), Static(r.val)).Some?
    ensures var (a, b) := PreHandle(spec, Static(l.val), Static(r.val)).value;
            var res := EmitBin(spec, op, l.val, r.val, r.used);
            var occupied := (if l.val.VReg? then 1 else 0) + (if r.val.VReg? then 1 else 0);
            && (res.Some? <==> (BinPlan(spec, op, a, b) == Some(PFresh) ==> FreeCount(r.used) > 0))
            && (res.Some? ==>
                  FreeCount(res.value.used) == FreeCount(r.used) + occupied - if res.value.val.VReg? then 1 else 0)
  {
    hide BinCode, FoldConst, Alloc, FreeCount;
    PreHandleShapes(spec, l.val, r.val);
    var (a, b) := PreHandle(spec, Static(l.val), Static(r.val)).value;
    FreshPlan(spec, op, a, b);
    AllocFree(r.used);
    if r.val.VReg? {
      FreedOne(r.used, r.val.reg);
    }
    if l.val.VReg? {
      FreedOne(r.used, l.val.reg);
      if r.val.VReg? {
        FreedOne(r.used - {l.val.reg}, r.val.reg);
      }
      assert r.used - {l.val.reg} - {} == r.used - {l.val.reg};
    }
    if Alloc(r.used).Some? && r.val.VReg? {
      FreedOne(r.used + {Alloc(r.used).value}, r.val.reg);
    }
    assert r.used - {} == r.used;
  }

  lemma {:induction false} NeedBin(cfg: Config, op: BinOp, l: Expr, r: Expr, used: set<Reg>)
    requires |cfg.vars| == |cfg.tys| && Sane(cfg, Bin(op, l, r)) && ShapeOf(cfg, Bin(op, l, r)).Some?
    ensures Compile(cfg, Bin(op, l, r), used).Some? <==> Need(cfg, Bin(op, l, r)) <= FreeCount(used)
    ensures Compile(cfg, Bin(op, l, r), used).Some? ==>
              Leaves(used, Compile(cfg, Bin(op, l, r), used).value, Held(cfg, Bin(op, l, r)))
    decreases Bin(op, l, r), 0
  {
    hide EmitBin, FreeCount, BinPlan, PreHandle, Compile;
    CompileBin(cfg, op, l, r, used);
    NeedIff(cfg, l, used);
    if Compile(cfg, l, used).Some? {
      var ol := Compile(cfg, l, used).value;
      CompileExtends(cfg, l, used);
      NeedIff(cfg, r, ol.used);
      if Compile(cfg, r, ol.used).Some? {
        var or := Compile(cfg, r, ol.used).value;
        CompileExtends(cfg, r, ol.used);
        BinFree(cfg.spec, op, ol, or, used);
        if Compile(cfg, Bin(op, l, r), used).Some? {
          CompileExtends(cfg, Bin(op, l, r), used);
        }
      }
    }
  }

  lemma {:induction false} CondFree(c: Out, t: Out, f: Out, used: set<Reg>)
    requires Extends(used, c) && Extends(c.used, t) && Extends(t.used, f)
    requires CondShape(Static(c.val), Static(t.val), Static(f.val)).Some?
    requires !c.val.VEnum? && !t.val.VEnum? && !f.val.VEnum?
    ensures EmitCond(c.val, t.val, f.val, f.used).Some?
    ensures FreeCount(EmitCond(c.val, t.val, f.val, f.used).value.used) ==
            FreeCount(f.used) +
            if c.val.VNum? then 0 else (if t.val.VReg? then 1 else 0) + (if f.val.VReg? then 1 else 0)
  {
    hide FreeCount;
    if t.val.VReg? {
      FreedOne(f.used, t.val.reg);
    }
    if f.val.VReg? {
      FreedOne(f.used - ArmRegs(t.val), f.val.reg);
    }
    assert f.used - {} == f.used;
    assert f.used - ArmRegs(t.val) - {} == f.used - ArmRegs(t.val);
  }

  lemma {:induction false} NeedCond(cfg: Config, c: Expr, t: Expr, f: Expr, used: set<Reg>)
    requires |cfg.vars| == |cfg.tys| && Sane(cfg, Cond(c, t, f)) && ShapeOf(cfg, Cond(c, t, f)).Some?
    ensures Compile(cfg, Cond(c, t, f), used).Some? <==> Need(cfg, Cond(c, t, f)) <= FreeCount(used)
    ensures Compile(cfg, Cond(c, t, f), used).Some? ==>
              Leaves(used, Compile(cfg, Cond(c, t, f), used).value, Held(cfg, Cond(c, t, f)))
    decreases Cond(c, t, f), 0
  {
    hide EmitCond, FreeCount, Compile;
    CompileCond(cfg, c, t, f, used);
    NeedIff(cfg, c, used);
    if Compile(cfg, c, used).Some? {
      var oc := Compile(cfg, c, used).value;
      CompileExtends(cfg, c, used);
      NeedIff(cfg, t, oc.used);
      if Compile(cfg, t, oc.used).Some? {
        var ot := Compile(cfg, t, oc.used).value;
        CompileExtends(cfg, t, oc.used);
        NeedIff(cfg, f, ot.used);
        if Compile(cfg, f, ot.used).Some? {
          var of := Compile(cfg, f, ot.used).value;
          CompileExtends(cfg, f, ot.used);
          CondFree(oc, ot, of, used);
        }
      }
    }
  }

  // Stack order ------------------------------------------------------------------------------------------

  /** The allocation of an expression: its result is the highest register that was free, and only
      that one stays allocated. */
  ghost predicate Disciplined(used: set<Reg>, o: Out) {
    if o.val.VReg? then Alloc(used) == Some(o.val.reg) && o.used == used + {o.val.reg}
    else o.used == used
  }

  lemma {:induction false} EmitBinDisciplined(spec: Spec, op: BinOp, l: Out, r: Out, used: set<Reg>)
    requires Disciplined(used, l) && Disciplined(l.used, r)
    requires BinShape(spec, op, Static(l.val), Static(r.val)).Some?
    requires var (a, b) := PreHandle(spec, Static(l.val), Static(r.val)).value; BinPlan(spec, op, a, b) != Some(PFresh)
    ensures EmitBin(spec, op, l.val, r.val, r.used).Some?
    ensures Disciplined(used, EmitBin(spec, op, l.val, r.val, r.used).value)
  {
    PreHandleShapes(spec, l.val, r.val);
    var (a, b) := PreHandle(spec, Static(l.val), Static(r.val)).value;
    FreshPlan(spec, op, a, b);
  }

  lemma {:induction false} EmitOthersDisciplined(op: UnOp, to: Option<Ty>, c: Out, t: Out, f: Out, used: set<Reg>)
    requires Disciplined(used, c)
    ensures EmitUn(op, c.val, c.used).Some? ==> Disciplined(used, EmitUn(op, c.val, c.used).value)
    ensures EmitCast(to, c.val, c.used).Some? ==> Disciplined(used, EmitCast(to, c.val, c.used).value)
    ensures Disciplined(c.used, t) && Disciplined(t.used, f) && c.val.VReg? && !t.val.VEnum? && !f.val.VEnum?
            && EmitCond(c.val, t.val, f.val, f.used).Some? ==>
              Disciplined(used, EmitCond(c.val, t.val, f.val, f.used).value)
  {
  }

  /** The result of a stack-like expression goes to the highest free register and nothing else stays
      allocated. */
  lemma {:induction false} StackOrder(cfg: Config, e: Expr, used: set<Reg>)
    requires |cfg.vars| == |cfg.tys| && Sane(cfg, e) && StackLike(cfg, e) && Compile(cfg, e, used).Some?
    ensures Disciplined(used, Compile(cfg, e, used).value)
    decreases e
  {
    hide EmitBin, EmitUn, EmitCond, EmitCast, BinShape, UnShape, CondShape, CastShape, Alloc, BinPlan, PreHandle,
         ChainCode;
    CompileExtends(cfg, e, used);
    match e
    case Name(_) =>
    case Number(_) =>
    case Bin(op, l, r) =>
      var ol := Compile(cfg, l, used).value;
      CompileExtends(cfg, l, used);
      CompileExtends(cfg, r, ol.used);
      StackOrder(cfg, l, used);
      StackOrder(cfg, r, ol.used);
      var or := Compile(cfg, r, ol.used).value;
      EmitBinPre(cfg.spec, op, ol.val, or.val, or.used);
      EmitBinDisciplined(cfg.spec, op, ol, or, used);
    case Un(op, arg) =>
      var oa := Compile(cfg, arg, used).value;
      StackOrder(cfg, arg, used);
      EmitOthersDisciplined(op, None, oa, oa, oa, used);
    case Cond(c, t, f) =>
      var oc := Compile(cfg, c, used).value;
      var ot := Compile(cfg, t, oc.used).value;
      CompileExtends(cfg, c, used);
      CompileExtends(cfg, t, oc.used);
      CompileExtends(cfg, f, ot.used);
      StackOrder(cfg, c, used);
      StackOrder(cfg, t, oc.used);
      StackOrder(cfg, f, ot.used);
      EmitOthersDisciplined(UNot, None, oc, ot, Compile(cfg, f, ot.used).value, used);
    case Cast(to, arg) =>
      var oa := Compile(cfg, arg, used).value;
      StackOrder(cfg, arg, used);
      EmitOthersDisciplined(UNot, to, oa, oa, oa, used);
    case Paren(arg) => StackOrder(cfg, arg, used);
    case Plus(arg) => StackOrder(cfg, arg, used);
    case _ =>
      var a := Lower(cfg, e).value;
      if a.base.FromExpr? {
        LowerBase(cfg, e);
        CompileExtends(cfg, a.base.e, used);
        StackOrder(cfg, a.base.e, used);
      }
  }

  // The parts of compiled expressions ------------------------------------------------------------------

  lemma {:induction false} BinParts(cfg: Config, op: BinOp, l: Expr, r: Expr, used: set<Reg>)
    requires |cfg.vars| == |cfg.tys| && Sane(cfg, Bin(op, l, r)) && StackLike(cfg, Bin(op, l, r))
    requires Compile(cfg, Bin(op, l, r), used).Some?
    ensures Sane(cfg, l) && Sane(cfg, r) && StackLike(cfg, l) && StackLike(cfg, r)
    ensures Compile(cfg, l, used).Some? && Compile(cfg, r, Compile(cfg, l, used).value.used).Some?
    ensures var ol := Compile(cfg, l, used).value;
            var or := Compile(cfg, r, ol.used).value;
            Compile(cfg, Bin(op, l, r), used) == Lift(Then(ol, or), EmitBin(cfg.spec, op, ol.val, or.val, or.used))
    ensures Pending(cfg, Bin(op, l, r)) == Max(Pending(cfg, l), After(cfg, Occupies(cfg, l), Pending(cfg, r)))
  {
  }

  lemma {:induction false} CondParts(cfg: Config, c: Expr, t: Expr, f: Expr, used: set<Reg>)
    requires |cfg.vars| == |cfg.tys| && Sane(cfg, Cond(c, t, f)) && StackLike(cfg, Cond(c, t, f))
    requires Compile(cfg, Cond(c, t, f), used).Some?
    ensures Sane(cfg, c) && Sane(cfg, t) && Sane(cfg, f) && StackLike(cfg, c) && StackLike(cfg, t) && StackLike(cfg, f)
    ensures Compile(cfg, c, used).Some?
    ensures Compile(cfg, t, Compile(cfg, c, used).value.used).Some?
    ensures Compile(cfg, f, Compile(cfg, t, Compile(cfg, c, used).value.used).value.used).Some?
    ensures var oc := Compile(cfg, c, used).value;
            var ot := Compile(cfg, t, oc.used).value;
            var of := Compile(cfg, f, ot.used).value;
            Compile(cfg, Cond(c, t, f), used) == Lift(Then(Then(oc, ot), of), EmitCond(oc.val, ot.val, of.val, of.used))
    ensures Pending(cfg, Cond(c, t, f)) ==
            Max(Pending(cfg, c),
                Max(After(cfg, Occupies(cfg, c), Pending(cfg, t)),
                    After(cfg, Occupies(cfg, c) + Occupies(cfg, t), Pending(cfg, f))))
  {
  }

  lemma {:induction false} AccessParts(cfg: Config, e: Expr, used: set<Reg>)
    requires |cfg.vars| == |cfg.tys| && Sane(cfg, e) && StackLike(cfg, e) && IsAccess(e)
    requires Compile(cfg, e, used).Some?
    ensures Lower(cfg, e).Some?
    ensures var a := Lower(cfg, e).value;
            if a.base.FromExpr? then
              && a.base.e < e
              && Sane(cfg, a.base.e) && StackLike(cfg, a.base.e) && Compile(cfg, a.base.e, used).Some?
              && Pending(cfg, e) == Max(if CallsHelper(cfg, a.steps) then 0 else -1, Pending(cfg, a.base.e))
              && var o := Compile(cfg, a.base.e, used).value;
                 EmitAccess(cfg, a, o.code, RegOf(o.val), o.used, o.exits, o.safe) == Compile(cfg, e, used)
            else
              && Alloc(used).Some? && Pending(cfg, e) == (if CallsHelper(cfg, a.steps) then 0 else -1)
              && var reg := Alloc(used).value;
                 EmitAccess(cfg, a, BaseCode(a.base, reg), reg, used + {reg}, false, true) == Compile(cfg, e, used)
  {
    hide EmitAccess, BaseCode;
  }

  // Pending operands -----------------------------------------------------------------------------------

  /** R9 and the `d` highest allocatable registers. */
  function Top(d: nat): set<Reg> {
    set r | r in Allocatable + {R9} && r > 8 - d
  }

  /** The chain calls a helper. */
  predicate CallsHelper(cfg: Config, steps: seq<Offset>) {
    !AllAddress(steps) && cfg.mode != ModeDirect
  }

  /** The largest number of operands pending in registers when a helper is called; -1 without any. */
  function Pending(cfg: Config, e: Expr): (n: int)
    requires |cfg.vars| == |cfg.tys|
    ensures n >= -1
  {
    match e
    case Name(_) => -1
    case Number(_) => -1
    case Bin(_, l, r) => Max(Pending(cfg, l), After(cfg, Occupies(cfg, l), Pending(cfg, r)))
    case Un(_, arg) => Pending(cfg, arg)
    case Cond(c, t, f) =>
      Max(Pending(cfg, c),
          Max(After(cfg, Occupies(cfg, c), Pending(cfg, t)),
              After(cfg, Occupies(cfg, c) + Occupies(cfg, t), Pending(cfg, f))))
    case Cast(_, arg) => Pending(cfg, arg)
    case Paren(arg) => Pending(cfg, arg)
    case Plus(arg) => Pending(cfg, arg)
    case _ =>
      (match Lower(cfg, e)
       case None => -1
       case Some(a) =>
         Max(if CallsHelper(cfg, a.steps) then 0 else -1,
             if a.base.FromExpr? then Pending(cfg, a.base.e) else -1))
  }

  function After(cfg: Config, occupied: nat, pending: int): (n: int)
    requires pending >= -1
    ensures n >= -1
  {
    if pending < 0 then -1 else occupied + pending
  }

  lemma {:induction false} AllocTop(d: nat)
    requires d <= 8
    ensures Alloc(Top(d)) == Some(8 - d) && Top(d) + {8 - d} == Top(d + 1)
  {
    var r: Reg := 8 - d;
    assert r !in Top(d);
    assert forall q: Reg :: r < q <= 8 ==> q in Top(d);
  }

  /** With `d` registers taken at the start, at most three operands are pending at every read. */
  predicate InReach(d: nat, pending: int) {
    pending < 0 || d + pending <= 3
  }

  /** No helper call destroys a pending operand exactly when at most three are pending at every read. */
  lemma {:induction false} PendingSafeIff(cfg: Config, e: Expr, d: nat)
    requires |cfg.vars| == |cfg.tys| && Sane(cfg, e) && StackLike(cfg, e)
    requires d <= 9 && Compile(cfg, e, Top(d)).Some?
    ensures Compile(cfg, e, Top(d)).value.safe <==> InReach(d, Pending(cfg, e))
    decreases e, 1
  {
    hide EmitUn, EmitCast, Alloc, Top;
    match e
    case Name(_) =>
    case Number(_) =>
    case Bin(op, l, r) => PendingBin(cfg, op, l, r, d);
    case Un(op, arg) =>
      PendingSafeIff(cfg, arg, d);
      var oa := Compile(cfg, arg, Top(d)).value;
      EmittedSafe(cfg.spec, OAdd, op, None, oa.val, oa.val, oa.val, oa.used);
    case Cond(c, t, f) => PendingCond(cfg, c, t, f, d);
    case Cast(to, arg) =>
      PendingSafeIff(cfg, arg, d);
      var oa := Compile(cfg, arg, Top(d)).value;
      EmittedSafe(cfg.spec, OAdd, UNot, to, oa.val, oa.val, oa.val, oa.used);
    case Paren(arg) => PendingSafeIff(cfg, arg, d);
    case Plus(arg) => PendingSafeIff(cfg, arg, d);
    case _ => PendingAccess(cfg, e, d);
  }

  lemma {:induction false} PendingBin(cfg: Config, op: BinOp, l: Expr, r: Expr, d: nat)
    requires |cfg.vars| == |cfg.tys| && Sane(cfg, Bin(op, l, r)) && StackLike(cfg, Bin(op, l, r))
    requires d <= 9 && Compile(cfg, Bin(op, l, r), Top(d)).Some?
    ensures Compile(cfg, Bin(op, l, r), Top(d)).value.safe <==> InReach(d, Pending(cfg, Bin(op, l, r)))
    decreases Bin(op, l, r), 0
  {
    hide EmitBin, Alloc, Top, ShapeOf, Compile, Sane, StackLike, Occupies, Pending;
    BinParts(cfg, op, l, r, Top(d));
    PendingSafeIff(cfg, l, d);
    var ol := Compile(cfg, l, Top(d)).value;
    TopAfter(cfg, l, d);
    PendingSafeIff(cfg, r, d + Occupies(cfg, l));
    var or := Compile(cfg, r, ol.used).value;
    EmittedSafe(cfg.spec, op, UNot, None, ol.val, or.val, or.val, or.used);
  }

  lemma {:induction false} PendingCond(cfg: Config, c: Expr, t: Expr, f: Expr, d: nat)
    requires |cfg.vars| == |cfg.tys| && Sane(cfg, Cond(c, t, f)) && StackLike(cfg, Cond(c, t, f))
    requires d <= 9 && Compile(cfg, Cond(c, t, f), Top(d)).Some?
    ensures Compile(cfg, Cond(c, t, f), Top(d)).value.safe <==> InReach(d, Pending(cfg, Cond(c, t, f)))
    decreases Cond(c, t, f), 0
  {
    hide EmitCond, Alloc, Top, ShapeOf, Occupies, StackLike, Sane, Compile, Pending;
    CondParts(cfg, c, t, f, Top(d));
    var d1 := d + Occupies(cfg, c);
    var d2 := d1 + Occupies(cfg, t);
    var oc := Compile(cfg, c, Top(d)).value;
    PendingSafeIff(cfg, c, d);
    TopAfter(cfg, c, d);
    var ot := Compile(cfg, t, Top(d1)).value;
    PendingSafeIff(cfg, t, d1);
    TopAfter(cfg, t, d1);
    var of := Compile(cfg, f, Top(d2)).value;
    PendingSafeIff(cfg, f, d2);
    EmittedSafe(cfg.spec, OAdd, UNot, None, oc.val, ot.val, of.val, of.used);
  }

  lemma {:induction false} PendingAccess(cfg: Config, e: Expr, d: nat)
    requires IsAccess(e)
    requires |cfg.vars| == |cfg.tys| && Sane(cfg, e) && StackLike(cfg, e)
    requires d <= 9 && Compile(cfg, e, Top(d)).Some?
    ensures Compile(cfg, e, Top(d)).value.safe <==> InReach(d, Pending(cfg, e))
    decreases e, 0
  {
    hide ChainCode, FinishCode, Alloc, ShapeOf, MarksExit, Top, SafeTarget, Compile, Pending, Sane, StackLike, Lower,
         CallsHelper;
    AccessParts(cfg, e, Top(d));
    var a := Lower(cfg, e).value;
    if a.base.FromExpr? {
      LowerBase(cfg, e);
      PendingSafeIff(cfg, a.base.e, d);
      TopAfter(cfg, a.base.e, d);
      OccupiesReg(cfg, a.base.e);
      CompileExtends(cfg, a.base.e, Top(d));
      TopSafeIff(cfg, a.steps, d);
    } else if d <= 8 {
      AllocTop(d);
      TopSafeIff(cfg, a.steps, d);
    } else {
      AllocNone(d);
    }
  }

  lemma {:induction false} OccupiesReg(cfg: Config, e: Expr)
    requires |cfg.vars| == |cfg.tys| && ShapeOf(cfg, e).Some? && ShapeOf(cfg, e).value.SReg?
    ensures Occupies(cfg, e) == 1
  {
  }

  /** The fourth highest register is still out of reach of a helper, and no lower one is. */
  lemma {:induction false} TopSafeIff(cfg: Config, steps: seq<Offset>, d: nat)
    requires d <= 8
    ensures SafeTarget(cfg, steps, 8 - d, Top(d + 1)) <==> (CallsHelper(cfg, steps) ==> d <= 3)
  {
    var used := Top(d + 1);
    assert forall r: Reg :: r in used <==> 8 - d <= r <= 9;
    CountFrom(used, 8 - d);
    if d > 3 {
      assert (5 as Reg) in used;
    }
  }

  /** How many registers the spills save when all from `low` up are in use. */
  lemma {:induction false} CountFrom(used: set<Reg>, low: nat)
    requires forall r: Reg :: r in used <==> low <= r <= 9
    ensures CountUsed(used, 2) == (if low > 2 then 0 else if low == 0 then 2 else 3 - low)
    ensures CountUsed(used, 5) == (if low > 5 then 0 else if low == 0 then 5 else 6 - low)
  {
    assert CountUsed(used, 1) == if low <= 1 then 1 else 0;
    assert CountUsed(used, 3) == CountUsed(used, 2) + if low <= 3 then 1 else 0;
    assert CountUsed(used, 4) == CountUsed(used, 3) + if low <= 4 then 1 else 0;
  }

  lemma {:induction false} AllocNone(d: nat)
    requires d == 9
    ensures Alloc(Top(d)) == None
  {
    assert forall q: Reg :: q <= 8 ==> q in Top(d);
  }

  /** Compiling from the top registers leaves the top registers. */
  lemma {:induction false} TopAfter(cfg: Config, e: Expr, d: nat)
    requires |cfg.vars| == |cfg.tys| && Sane(cfg, e) && StackLike(cfg, e) && d <= 9
    requires Compile(cfg, e, Top(d)).Some?
    ensures var o := Compile(cfg, e, Top(d)).value;
            && d + Occupies(cfg, e) <= 9
            && o.used == Top(d + Occupies(cfg, e))
            && (o.val.VReg? ==> o.val.reg == 8 - d)
  {
    CompileExtends(cfg, e, Top(d));
    StackOrder(cfg, e, Top(d));
    if d <= 8 {
      AllocTop(d);
    } else {
      AllocNone(d);
    }
  }

  lemma {:induction false} EmittedSafe(spec: Spec, op: BinOp, uop: UnOp, to: Option<Ty>, l: Value, r: Value,
                                       f: Value, used: set<Reg>)
    ensures EmitBin(spec, op, l, r, used).Some? ==> EmitBin(spec, op, l, r, used).value.safe
    ensures EmitUn(uop, l, used).Some? ==> EmitUn(uop, l, used).value.safe
    ensures EmitCast(to, l, used).Some? ==> EmitCast(to, l, used).value.safe
    ensures EmitCond(l, r, f, used).Some? ==> EmitCond(l, r, f, used).value.safe
  {
  }

  lemma {:induction false} AllFree()
    ensures FreeCount(Top(0)) == 9 && FilterUsed == Top(0)
  {
    assert forall r: Reg :: r in Top(0) <==> r == R9;
    assert Allocatable - Top(0) == Allocatable;
    CountAll();
  }

  lemma {:induction false} CountAll()
    ensures |Allocatable| == 9
  {
  }

  /** What can stand at the top of a filter: a comparison, `&&`, `||` or `!`, without parentheses around it. */
  predicate IsTest(e: Expr) {
    match e
    case Bin(OAndAnd, _, _) | Bin(OOrOr, _, _) | Bin(OEq, _, _) | Bin(ONe, _, _) => true
    case Bin(OGt, _, _) | Bin(OGe, _, _) | Bin(OLt, _, _) | Bin(OLe, _, _) => true
    case Un(UNot, _) => true
    case _ => false
  }

  /** A filter is accepted exactly when it is a test, its result is in a register and it needs no more than
      the nine there are; if it is stack-like, its code is safe exactly with at most three pending operands. */
  lemma {:induction false} FilterCompiles(cfg: Config, e: Expr)
    requires |cfg.vars| == |cfg.tys| && Sane(cfg, e) && ShapeOf(cfg, e).Some?
    ensures FilterProgram(cfg, e).Some? <==> IsTest(e) && !ShapeOf(cfg, e).value.SNum? && Need(cfg, e) <= 9
    ensures FilterProgram(cfg, e).Some? && StackLike(cfg, e) ==>
              (Compile(cfg, e, FilterUsed).value.safe <==> Pending(cfg, e) <= 3)
    ensures FilterProgram(cfg, e).Some? && Pending(cfg, e) < 0 ==> Compile(cfg, e, FilterUsed).value.safe
  {
    hide Compile, Need, Pending, Sane, StackLike, ShapeOf, FreeCount, Top;
    AllFree();
    NeedIff(cfg, e, Top(0));
    if Compile(cfg, e, Top(0)).Some? {
      CompileExtends(cfg, e, Top(0));
      if StackLike(cfg, e) {
        PendingSafeIff(cfg, e, 0);
      }
      if Pending(cfg, e) < 0 {
        NoCallSafe(cfg, e, Top(0));
      }
    }
  }

  /** Without a helper call nothing can be destroyed, stack-like or not. */
  lemma {:induction false} NoCallSafe(cfg: Config, e: Expr, used: set<Reg>)
    requires |cfg.vars| == |cfg.tys| && Compile(cfg, e, used).Some? && Pending(cfg, e) < 0
    ensures Compile(cfg, e, used).value.safe
    decreases e
  {
    hide EmitBin, EmitUn, EmitCond, EmitCast, Alloc;
    match e
    case Name(_) =>
    case Number(_) =>
    case Bin(op, l, r) =>
      var ol := Compile(cfg, l, used).value;
      var or := Compile(cfg, r, ol.used).value;
      NoCallSafe(cfg, l, used);
      NoCallSafe(cfg, r, ol.used);
      EmittedSafe(cfg.spec, op, UNot, None, ol.val, or.val, or.val, or.used);
    case Un(op, arg) =>
      var oa := Compile(cfg, arg, used).value;
      NoCallSafe(cfg, arg, used);
      EmittedSafe(cfg.spec, OAdd, op, None, oa.val, oa.val, oa.val, oa.used);
    case Cond(c, t, f) =>
      var oc := Compile(cfg, c, used).value;
      var ot := Compile(cfg, t, oc.used).value;
      var of := Compile(cfg, f, ot.used).value;
      NoCallSafe(cfg, c, used);
      NoCallSafe(cfg, t, oc.used);
      NoCallSafe(cfg, f, ot.used);
      EmittedSafe(cfg.spec, OAdd, UNot, None, oc.val, ot.val, of.val, of.used);
    case Cast(to, arg) =>
      var oa := Compile(cfg, arg, used).value;
      NoCallSafe(cfg, arg, used);
      EmittedSafe(cfg.spec, OAdd, UNot, to, oa.val, oa.val, oa.val, oa.used);
    case Paren(arg) => NoCallSafe(cfg, arg, used);
    case Plus(arg) => NoCallSafe(cfg, arg, used);
    case _ =>
      var a := Lower(cfg, e).value;
      if a.base.FromExpr? {
        NoCallSafe(cfg, a.base.e, used);
      }
  }
}
