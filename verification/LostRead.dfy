/** A filter whose last operand is read while seven others are pending: the pop after the read reloads the
    register that holds it, and the filter tests the pointer instead of the field. */
module LostRead {
  import opened Words
  import opened Machine
  import opened Types
  import opened Spill
  import opened Chains
  import opened Operators
  import opened OperatorRuns
  import opened Faithful
  import opened Backends
  import opened Codegen
  import opened Correctness
  import opened CTypes
  import opened CLang
  import opened Filter
  import opened Fragment
  import opened Discipline

  /** `struct s { long x; }`, and a function called with a number `a` and a `struct s *p`. */
  const TheField: Field := Field(Int(8), 0, 0, 0)
  const TheSpec: Spec := Spec(map[("s", "x") := TheField], map["s" := 8], map["s" := 1])
  const TheConfig: Config := Config(TheSpec, ["a", "p"], [Int(8), Pointer(Aggregate("s"))], ModeProbe, false, 8)

  /** `p->x`, and behind `n` conjuncts: `a && (a && ... (a && p->x))`. */
  const TheRead: Expr := Arrow(Name("p"), "x")

  function Nest(n: nat): Expr {
    if n == 0 then TheRead else Bin(OAndAnd, Name("a"), Nest(n - 1))
  }

  const TheStep: Offset := Offset(0, false, Int(8), Some(Pointer(Aggregate("s"))), false)

  // Statics ------------------------------------------------------------------------------------------

  lemma {:induction false} NamesAre()
    ensures IndexOf(TheConfig.vars, "a") == 0 && IndexOf(TheConfig.vars, "p") == 1
    ensures NameShape(TheConfig, "a") == SReg(Int(8), None)
  {
    assert TheConfig.vars[1..] == ["p"];
    assert "a" != "p";
    assert "a"[0] == 'a';
    assert |"a"| == 1;
    assert "a" != "NULL" && "a" != "false" && "a" != "true";
  }

  lemma {:induction false} ReadLowers()
    ensures Lower(TheConfig, TheRead) == Some(Access(FromArg(1), Int(8), Some(TheField), 0, [TheStep]))
    ensures !AllAddress([TheStep])
  {
    NamesAre();
    var p := Access(FromArg(1), Pointer(Aggregate("s")), None, -1, []);
    assert Lower(TheConfig, Name("p")) == Some(p);
    assert FindField(TheConfig, Aggregate("s"), "x") == Some(TheField);
    assert p.steps + [TheStep] == [TheStep];
    assert LowerMember(TheConfig, p, "x") == Some(Access(FromArg(1), Int(8), Some(TheField), 0, [TheStep]));
    assert ![TheStep][0].address;
  }

  lemma {:induction false} AndShape()
    ensures BinShape(TheSpec, OAndAnd, SReg(Int(8), None), SReg(Int(8), None)) == Some(SReg(Int(8), None))
    ensures BinShape(TheSpec, OAndAnd, SReg(Int(8), None), SReg(Int(8), Some(TheField))) == Some(SReg(Int(8), None))
  {
  }

  lemma {:induction false} NestShape(n: nat)
    ensures ShapeOf(TheConfig, Nest(n)) == Some(SReg(Int(8), if n == 0 then Some(TheField) else None))
  {
    hide BinShape;
    NamesAre();
    if n > 0 {
      NestShape(n - 1);
      AndShape();
    } else {
      ReadLowers();
    }
  }

  /** In C a conjunction is an int. */
  function NestTyped(n: nat): Shape {
    if n == 0 then SReg(Int(8), Some(TheField)) else SReg(Int(4), None)
  }

  lemma {:induction false} AndTyped(n: nat)
    ensures CCoerce(TheSpec, SReg(Int(8), None), NestTyped(n)) == Some((SReg(Int(8), None), NestTyped(n)))
    ensures CResult(TheSpec, OAndAnd, SReg(Int(8), None), NestTyped(n)) == Some(SReg(Int(4), None))
  {
  }

  lemma {:induction false} NestCShape(n: nat)
    ensures CShape(TheConfig, Nest(n)) == Some(NestTyped(n))
    ensures CShape(TheConfig, Name("a")) == Some(SReg(Int(8), None))
  {
    hide CCoerce, CResult;
    NamesAre();
    if n > 0 {
      NestCShape(n - 1);
      AndTyped(n - 1);
    } else {
      assert PlaceType(TheConfig, Name("p")) == Some(Typed(Pointer(Aggregate("s")), None, false, false));
      assert CField(TheSpec, Aggregate("s"), "x") == Some(TheField);
    }
  }

  lemma {:induction false} ReadStatics()
    ensures Supported(TheConfig, TheRead) && StackLike(TheConfig, TheRead)
    ensures Need(TheConfig, TheRead) == 1 && Pending(TheConfig, TheRead) == 0
  {
    ReadLowers();
    NamesAre();
    NestCShape(0);
    assert PlaceOk(TheConfig, Name("p")) && HasType(TheConfig, Name("p"), Kind.IsPointer);
    var a := Lower(TheConfig, TheRead).value;
    assert CutOk(TheConfig, a);
    assert ExactOffsets(a.steps);
  }

  /** The filter is within every restriction of the correctness theorem but that on pending operands. */
  lemma {:induction false} NestStatics(n: nat)
    ensures Supported(TheConfig, Nest(n)) && StackLike(TheConfig, Nest(n))
    ensures Need(TheConfig, Nest(n)) == n + 1 && Pending(TheConfig, Nest(n)) == n
  {
    hide Supported, StackLike, Need, Pending;
    if n > 0 {
      NestStatics(n - 1);
      NestFits(n);
      NestCounts(n);
    } else {
      ReadStatics();
    }
  }

  lemma {:induction false} NestFits(n: nat)
    requires n > 0 && Supported(TheConfig, Nest(n - 1)) && StackLike(TheConfig, Nest(n - 1))
    ensures Supported(TheConfig, Nest(n)) && StackLike(TheConfig, Nest(n))
  {
    NestFresh(n);
    NestOk(n);
    hide BinOk, IsFresh;
  }

  lemma {:induction false} NestFresh(n: nat)
    requires n > 0
    ensures !IsFresh(TheConfig, OAndAnd, Name("a"), Nest(n - 1))
  {
    hide BinPlan, PreHandle, ShapeOf;
    NestShape(n - 1);
    NameShapes();
    AndFaithful();
  }

  lemma {:induction false} NestOk(n: nat)
    requires n > 0
    ensures BinOk(TheConfig, OAndAnd, Name("a"), Nest(n - 1))
  {
    hide BinPlan, PreHandle, FaithfulBin, ShapeOf, CShape, CCoerce;
    NestShape(n - 1);
    NestCShape(n - 1);
    NameShapes();
    AndFaithful();
    AndTyped(n - 1);
  }

  lemma {:induction false} NestCounts(n: nat)
    requires n > 0 && Need(TheConfig, Nest(n - 1)) == n && Pending(TheConfig, Nest(n - 1)) == n - 1
    ensures Need(TheConfig, Nest(n)) == n + 1 && Pending(TheConfig, Nest(n)) == n
  {
    hide BinPlan, PreHandle, ShapeOf;
    NestShape(n - 1);
    NameShapes();
    AndFaithful();
  }

  lemma {:induction false} NameShapes()
    ensures ShapeOf(TheConfig, Name("a")) == Some(SReg(Int(8), None))
  {
    NamesAre();
  }

  lemma {:induction false} AndFaithful()
    ensures forall mem: Option<Field> :: mem == None || mem == Some(TheField) ==>
              var (a, b) := (SReg(Int(8), None), SReg(Int(8), mem));
              PreHandle(TheSpec, a, b) == Some((a, b)) && CTyped(OAndAnd, a, b) && FaithfulBin(TheSpec, OAndAnd, a, b)
              && BinPlan(TheSpec, OAndAnd, a, b) == Some(PLeft)
  {
  }

  // The run --------------------------------------------------------------------------------------------

  /** The fragment falls through with `v` in `reg`, and every other register from R2 up as before. */
  ghost predicate Leaves(o: Outcome, st: State, reg: Reg, v: u64) {
    && o.Fall? && o.st == st.(regs := o.st.regs, stack := o.st.stack)
    && o.st.regs[reg] == Num(v) && (forall r: Reg :: r > reg ==> o.st.regs[r] == st.regs[r])
  }

  lemma {:induction false} TopCounts()
    ensures CountUsed(Top(8), 5) == 5 && Alloc(Top(7)) == Some(R1) && Top(7) + {R1} == Top(8)
  {
    AllocTop(7);
    assert forall r: Reg :: 1 <= r <= 5 ==> r in Top(8);
    CountFrom(Top(8), 1);
  }

  /** The chain alone: R1 to R5 come back from their slots, R1 with the pointer. */
  lemma {:induction false} ReadChainRun(v: u64, st: State)
    requires st.regs[R1] == Num(v) && st.regs[FP] == Ptr(Frame, 0)
    ensures ChainCode(TheConfig, [TheStep], R1, Top(8)).Some?
    ensures Leaves(Run(ChainCode(TheConfig, [TheStep], R1, Top(8)).value, st), st, R1, v)
  {
    hide Step, Run;
    var cfg, steps := TheConfig, [TheStep];
    ReadLowers();
    TopCounts();
    var body, res := HelperBody(cfg, steps, R1), ChainComputes(cfg, steps, |steps|, st.mem, v);
    assert ChainComputes(cfg, steps, 0, st.mem, v) == Val(v);
    assert res.Val?;
    forall st1: State | st1 == st.(stack := st1.stack)
      ensures Computes(Run(body, st1), st1, R1, res)
    {
      HelperBodyRun(cfg, steps, R1, v, st1);
    }
    HelperCode(cfg, steps, R1, Top(8));
    var st1, st3 := SpilledFalls(cfg.reserved, Top(8), 5, body, R1, res, st);
  }

  lemma {:induction false} ReadCompiles()
    ensures var chain := ChainCode(TheConfig, [TheStep], R1, Top(8));
            && chain.Some?
            && Compile(TheConfig, TheRead, Top(7)) ==
               Some(Out(LoadArg(1, R1) + (chain.value + []), VReg(R1, Int(8), Some(TheField)), Top(8), false,
                        SafeTarget(TheConfig, [TheStep], R1, Top(8))))
  {
    hide Top, SafeTarget;
    ReadLowers();
    TopCounts();
  }

  /** What `n` conjuncts in front of the read compile to: the result in register `n + 1`. */
  ghost predicate Nested(n: nat, o: Option<Out>) {
    && n <= 7 && o.Some? && o.value.val == VReg(n + 1, Int(8), if n == 0 then Some(TheField) else None)
    && o.value.used == Top(8 - n)
  }

  lemma {:induction false} NameCompiles(n: nat)
    requires 1 <= n <= 7
    ensures Compile(TheConfig, Name("a"), Top(7 - n)) ==
            Some(Out(LoadArg(0, n + 1), VReg(n + 1, Int(8), None), Top(8 - n), false, true))
  {
    NamesAre();
    AllocTop(7 - n);
  }

  lemma {:induction false} AndEmits(n: nat, or: Option<Out>)
    requires 1 <= n <= 7 && Nested(n - 1, or)
    ensures var last := EmitBin(TheSpec, OAndAnd, VReg(n + 1, Int(8), None), or.value.val, or.value.used);
            last.Some? && Nested(n, last)
  {
    hide BinCode, Alloc;
    AndFaithful();
    assert Top(9 - n) - {n} == Top(8 - n);
  }

  lemma {:induction false} NestNode(n: nat)
    requires 1 <= n <= 7 && Nested(n - 1, Compile(TheConfig, Nest(n - 1), Top(8 - n)))
    ensures var or := Compile(TheConfig, Nest(n - 1), Top(8 - n)).value;
            var last := EmitBin(TheSpec, OAndAnd, VReg(n + 1, Int(8), None), or.val, or.used);
            && last.Some? && Nested(n, Compile(TheConfig, Nest(n), Top(7 - n)))
            && Compile(TheConfig, Nest(n), Top(7 - n)).value.code == LoadArg(0, n + 1) + or.code + last.value.code
  {
    hide EmitBin, Top, EmitName;
    NameCompiles(n);
    AndEmits(n, Compile(TheConfig, Nest(n - 1), Top(8 - n)));
    CompileBin(TheConfig, OAndAnd, Name("a"), Nest(n - 1), Top(7 - n));
  }

  /** The last conjunct is the pointer, whatever memory holds. */
  lemma {:induction false} NestRun(n: nat, env: Env, st: State)
    requires n <= 7 && ValidEnv(TheConfig, env) && Ready(st, env) && env.args[0] != 0 && env.args[1] != 0
    ensures Nested(n, Compile(TheConfig, Nest(n), Top(7 - n)))
    ensures var code := Compile(TheConfig, Nest(n), Top(7 - n)).value.code;
            code != [] && Leaves(Run(code, st), st, n + 1, if n == 0 then env.args[1] else 1)
  {
    hide Step, Run, EmitBin, Top, EmitName, Compile, ChainCode;
    if n == 0 {
      ReadCompiles();
      var st1 := Set(st, R1, Num(env.args[1]));
      LoadArgRun(1, R1, env, st);
      ReadChainRun(env.args[1], st1);
      var chain := ChainCode(TheConfig, [TheStep], R1, Top(8)).value;
      assert chain + [] == chain;
      SequenceRun(LoadArg(1, R1), chain, st);
    } else {
      var st1 := Set(st, n + 1, Num(env.args[0]));
      LoadArgRun(0, n + 1, env, st);
      NestRun(n - 1, env, st1);
      NestNode(n);
      var or := Compile(TheConfig, Nest(n - 1), Top(8 - n)).value;
      var st2 := Run(or.code, st1).st;
      SequenceRun(LoadArg(0, n + 1), or.code, st);
      AndRun(n, or, env.args[0], st2.regs[n].n, st2);
      var last := EmitBin(TheSpec, OAndAnd, VReg(n + 1, Int(8), None), or.val, or.used).value;
      SequenceRun(LoadArg(0, n + 1) + or.code, last.code, st);
    }
  }

  lemma {:induction false} AndRun(n: nat, or: Out, x: u64, y: u64, st: State)
    requires 1 <= n <= 7 && Nested(n - 1, Some(or)) && x != 0 && y != 0
    requires st.regs[n + 1] == Num(x) && st.regs[n] == Num(y)
    ensures var last := EmitBin(TheSpec, OAndAnd, VReg(n + 1, Int(8), None), or.val, or.used);
            last.Some? && Leaves(Run(last.value.code, st), st, n + 1, 1)
  {
    hide Step, Run, BinCode;
    AndEmits(n, Some(or));
    AndFaithful();
    EmitBinRun(TheSpec, OAndAnd, VReg(n + 1, Int(8), None), or.val, or.used, Top(7 - n), x, y, st);
  }

  // The filter -----------------------------------------------------------------------------------------

  lemma {:induction false} ReadMeans(env: Env)
    requires ValidConfig(TheConfig) && ValidEnv(TheConfig, env)
    ensures CValueOf(TheConfig, TheRead, env) == Val(Load(env.mem, env.args[1], 8))
  {
    hide Load;
    NamesAre();
    assert CPlace(TheConfig, Name("p"), env) == Has(Temp(env.args[1], Pointer(Aggregate("s"))));
    assert CField(TheSpec, Aggregate("s"), "x") == Some(TheField);
    assert CPlace(TheConfig, TheRead, env) == Has(At(env.args[1], Int(8), Some(TheField)));
  }

  /** In C the conjunction is whether the field is non-zero. */
  lemma {:induction false} NestMeans(n: nat, env: Env)
    requires ValidConfig(TheConfig) && ValidEnv(TheConfig, env) && env.args[0] != 0
    ensures var x := Load(env.mem, env.args[1], 8);
            CValueOf(TheConfig, Nest(n), env) == Val(if n == 0 then x else BoolWord(x != 0))
  {
    hide Load, CShape, CCoerce;
    if n == 0 {
      ReadMeans(env);
    } else {
      NamesAre();
      NestMeans(n - 1, env);
      NestCShape(n - 1);
      AndTyped(n - 1);
      var x := Load(env.mem, env.args[1], 8);
      AndMeans(NestTyped(n - 1), env.args[0], if n == 1 then x else BoolWord(x != 0));
      hide CMeaning;
    }
  }

  lemma {:induction false} AndMeans(b: Shape, x: u64, y: u64)
    requires b.SReg? && x != 0
    ensures CMeaning(TheSpec, OAndAnd, SReg(Int(8), None), b, x, y) == BoolWord(y != 0)
  {
  }

  /** The filter `a && (a && (a && (a && (a && (a && (a && p->x))))))` compiles and lets the call through
      whatever `p->x` is, although it satisfies every other condition of the correctness theorem. */
  lemma {:induction false} LostReadAccepts(e: Expr, env: Env, st: State)
    requires e == Nest(7)
    requires ValidConfig(TheConfig) && ValidEnv(TheConfig, env) && Called(st, env)
    requires env.args[0] != 0 && env.args[1] != 0
    ensures IsTopOp(e) && Supported(TheConfig, e) && StackLike(TheConfig, e)
    ensures Need(TheConfig, e) <= 9 && Pending(TheConfig, e) == 7
    ensures FilterProgram(TheConfig, e).Some?
    ensures var p := FilterProgram(TheConfig, e).value;
            var o := Exec(p.insns, p.labels, 0, st);
            o.Return? && o.st.regs[R0] == Num(1)
    ensures CValueOf(TheConfig, e, env) == Val(BoolWord(Load(env.mem, env.args[1], 8) != 0))
  {
    hide Nest, Compile, Supported, StackLike, Need, Pending, CValueOf, Exec, Run, Load, Top;
    NestStatics(7);
    NestMeans(7, env);
    NestRun(7, env, Set(st, R9, Ptr(Args, 0)));
    NestTop(7);
    assert Top(0) == FilterUsed by { AllFree(); }
    AcceptingRun(Compile(TheConfig, e, FilterUsed).value, FilterProgram(TheConfig, e).value, st);
  }

  lemma {:induction false} NestTop(n: nat)
    requires n > 0
    ensures IsTopOp(Nest(n))
  {
  }

  /** A filter whose expression leaves 1 returns it. */
  lemma {:induction false} AcceptingRun(o: Out, p: Program, st: State)
    requires Laid(p, o) && o.code != [] && o.val.VReg? && st.regs[R1] == Ptr(Args, 0)
    requires var st1 := Set(st, R9, Ptr(Args, 0)); Leaves(Run(o.code, st1), st1, o.val.reg, 1)
    ensures var r := Exec(p.insns, p.labels, 0, st); r.Return? && r.st.regs[R0] == Num(1)
  {
    hide Step;
    var st1 := Set(st, R9, Ptr(Args, 0));
    MovRun(R9, R(R1), st);
    ExecPlaced([Mov(R9, R(R1))], map[], p.insns, p.labels, 0, 0, st);
    BodyFalls(p, o, st1);
  }
}
