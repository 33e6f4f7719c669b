/** When the spills around a chain that calls a helper keep everything they should: exactly when the pop
    does not overwrite the value just read and brings every other used caller-saved register back. */
module SpillExactness {
  import opened Words
  import opened Machine
  import opened Types
  import opened Spill
  import opened Chains
  import opened Backends

  /** The chain's code does its work from `st`. */
  ghost predicate Delivers(cfg: Config, steps: seq<Offset>, reg: Reg, used: set<Reg>, v: u64, st: State)
    requires ChainCode(cfg, steps, reg, used).Some?
  {
    var o := Run(ChainCode(cfg, steps, reg, used).value, st);
    Agrees(o, reg, ChainComputes(cfg, steps, |steps|, st.mem, v)) && KeepsUsed(st, o, used, reg)
  }

  /** The chain's code is right in every state: from every starting value and in every memory. */
  ghost predicate AlwaysDelivers(cfg: Config, steps: seq<Offset>, reg: Reg, used: set<Reg>)
    requires ChainCode(cfg, steps, reg, used).Some?
  {
    forall v: u64, st: State :: st.regs[reg] == Num(v) && st.regs[FP] == Ptr(Frame, 0) ==>
      Delivers(cfg, steps, reg, used, v, st)
  }

  /** The caller-saved argument registers in use among R1 to Rn, where n is 2 for fast calls in core mode and
      5 otherwise. */
  function Counted(cfg: Config, used: set<Reg>): set<Reg> {
    set r | r in used && 1 <= r <= (if cfg.mode == ModeCore && cfg.fastcall then 2 else 5)
  }

  /** The read calls no helper, or the pop, which reloads R1 to Rk for the k registers counted and R0 if used,
      leaves the target alone and brings every other used one among R0 to R5 back. */
  predicate Spared(cfg: Config, steps: seq<Offset>, reg: Reg, used: set<Reg>) {
    var k := |Counted(cfg, used)|;
    || (forall i :: 0 <= i < |steps| ==> steps[i].address)
    || cfg.mode == ModeDirect
    || (reg > k && forall r: Reg :: r in used && 1 <= r <= 5 && r != reg ==> r <= k)
  }

  lemma {:induction false} CountIs(used: set<Reg>, n: nat)
    requires n <= 5
    ensures CountUsed(used, n) == |set r: Reg | r in used && 1 <= r <= n|
  {
    if n > 0 {
      CountIs(used, n - 1);
      var before := set r: Reg | r in used && 1 <= r <= n - 1;
      var now := set r: Reg | r in used && 1 <= r <= n;
      assert now == before + if (n as Reg) in used then {n as Reg} else {};
    } else {
      assert (set r: Reg | r in used && 1 <= r <= n) == {};
    }
  }

  lemma {:induction false} SparedIs(cfg: Config, steps: seq<Offset>, reg: Reg, used: set<Reg>)
    requires reg <= 8 && reg in used
    ensures Spared(cfg, steps, reg, used) <==> SafeTarget(cfg, steps, reg, used)
  {
    var n := SavedRegs(cfg);
    CountIs(used, n);
    assert Counted(cfg, used) == set r: Reg | r in used && 1 <= r <= n;
  }

  /** The code of a chain leaves what its steps compute in its target and keeps every used register, in every
      state, exactly when it calls no helper or the target is not among the registers the pop reloads and every
      other used one among R0 to R5 is. */
  lemma {:induction false} ChainSafeIff(cfg: Config, steps: seq<Offset>, reg: Reg, used: set<Reg>)
    requires ValidReserve(cfg.reserved) && reg <= 8 && reg in used && ChainCode(cfg, steps, reg, used).Some?
    ensures Spared(cfg, steps, reg, used) <==> AlwaysDelivers(cfg, steps, reg, used)
  {
    SparedIs(cfg, steps, reg, used);
    if SafeTarget(cfg, steps, reg, used) {
      forall v: u64, st: State | st.regs[reg] == Num(v) && st.regs[FP] == Ptr(Frame, 0)
        ensures Delivers(cfg, steps, reg, used, v, st)
      {
        ChainRun(cfg, steps, reg, used, v, st);
      }
    } else {
      var v, st := LosingState(cfg, steps, reg, used);
    }
  }

  // A state that shows a loss ---------------------------------------------------------------------

  /** Memory in which every byte is 1: no pointer read from it is null. */
  ghost const Ones: Memory := map a: u64 | 0 <= a < TWO64 :: 1

  /** The value of every read of `n` bytes. */
  function AllOnes(n: nat): u64
    requires n <= 8
  {
    Pow2Monotone(8 * n, 64);
    Pow2Values();
    LeVal(seq(n, i => 1))
  }

  lemma {:induction false} OnesRead(a: u64, n: nat)
    requires n <= 8
    ensures Load(Ones, a, n) == AllOnes(n) && (n > 0 ==> AllOnes(n) != 0)
  {
    var bs: seq<byte> := seq(n, i => 1);
    assert Mapped(Ones, a, n);
    assert ReadBytes(Ones, a, n) == bs;
    if n > 0 {
      assert bs[0] == 1;
    }
  }

  /** In that memory no step meets a null pointer, and what a read leaves does not depend on its address. */
  lemma {:induction false} OnesStep(cfg: Config, s: Offset, last: bool, p: u64, q: u64)
    requires cfg.mode == ModeCore ==> CoreKindOf(cfg.spec, s) != CoreError
    ensures StepComputes(cfg, s, last, Ones, p).Val?
    ensures !s.address ==> StepComputes(cfg, s, last, Ones, p) == StepComputes(cfg, s, last, Ones, q)
  {
    hide Load;
    KindFits(cfg.spec, s);
    var n := if cfg.mode == ModeCore then KindWidth(CoreKindOf(cfg.spec, s)) else 8;
    OnesRead(Advance(p, s.off), n);
    OnesRead(Advance(q, s.off), n);
    OnesRead(LoadAt(p, s.off), n);
    OnesRead(LoadAt(q, s.off), n);
    OnesRead(p, n);
    OnesRead(q, n);
  }

  /** What the chain leaves after a read no longer depends on where it started. */
  lemma {:induction false} OnesChain(cfg: Config, steps: seq<Offset>, n: nat, v: u64, w: u64)
    requires n <= |steps| && (cfg.mode == ModeCore ==> CoreCompiles(cfg.spec, steps))
    ensures ChainComputes(cfg, steps, n, Ones, v).Val? && ChainComputes(cfg, steps, n, Ones, w).Val?
    ensures HasLoad(steps, n) ==> ChainComputes(cfg, steps, n, Ones, v) == ChainComputes(cfg, steps, n, Ones, w)
  {
    hide StepComputes;
    if n > 0 {
      OnesChain(cfg, steps, n - 1, v, w);
      var p, q := ChainComputes(cfg, steps, n - 1, Ones, v).v, ChainComputes(cfg, steps, n - 1, Ones, w).v;
      OnesStep(cfg, steps[n - 1], n == |steps|, p, q);
      OnesStep(cfg, steps[n - 1], n == |steps|, q, p);
    }
  }

  /** Every register holds `v`. */
  function Filled(v: u64, mem: Memory): State {
    State(seq(11, i => if i == FP then Ptr(Frame, 0) else Num(v)), map[], map[], [], mem)
  }

  /** All registers in use hold one number, which is not what the chain reads: a register that should have
      come back holds the chain's result or nothing known, and a target that should not have come
      back holds the number. */
  lemma {:induction false} LosingState(cfg: Config, steps: seq<Offset>, reg: Reg, used: set<Reg>)
    returns (v: u64, st: State)
    requires ValidReserve(cfg.reserved) && reg <= 8 && reg in used && ChainCode(cfg, steps, reg, used).Some?
    requires !SafeTarget(cfg, steps, reg, used)
    ensures st == Filled(v, Ones)
    ensures !Delivers(cfg, steps, reg, used, v, st)
  {
    hide Step, Run, ChainComputes, ChainCode;
    var n := SavedRegs(cfg);
    HelperCode(cfg, steps, reg, used);
    v := if ChainComputes(cfg, steps, |steps|, Ones, 0) == Val(0) then 1 else 0;
    OnesChain(cfg, steps, |steps|, v, 0);
    assert HasLoad(steps, |steps|);
    st := Filled(v, Ones);
    var body, res := HelperBody(cfg, steps, reg), ChainComputes(cfg, steps, |steps|, Ones, v);
    forall st1: State | st1 == st.(stack := st1.stack)
      ensures Computes(Run(body, st1), st1, reg, res) && (Run(body, st1).Fall? ==> Spent(Run(body, st1).st, reg))
    {
      HelperBodyRun(cfg, steps, reg, v, st1);
    }
    hide HelperBody, AllAddress, HasLoad;
    var st1, st3 := SpilledFalls(cfg.reserved, used, n, body, reg, res, st);
    var o := Run(body, st1);
    assert o.Fall? && o.st.regs[reg] == Num(res.v) && res.v != v;
    Unkept(cfg, steps, reg, used, v, o.st, st3);
  }

  /** Either the target or a register that is not brought back shows the loss. */
  lemma {:induction false} Unkept(cfg: Config, steps: seq<Offset>, reg: Reg, used: set<Reg>, v: u64, st2: State,
                                  st3: State)
    requires reg <= 8 && !AllAddress(steps) && cfg.mode != ModeDirect && !SafeTarget(cfg, steps, reg, used)
    requires st2.regs[reg].Num? && st2.regs[reg] != Num(v) && Spent(st2, reg)
    requires forall r: Reg :: st3.regs[r] == if Restored(used, SavedRegs(cfg), r) then Filled(v, Ones).regs[r] else st2.regs[r]
    ensures st3.regs[reg] == Num(v) || exists r: Reg :: r in used && r <= 5 && r != reg && st3.regs[r] != Num(v)
  {
    if !Restored(used, SavedRegs(cfg), reg) {
      var r: Reg :| r in used && r != reg && r <= 5 && !Restored(used, SavedRegs(cfg), r);
      assert 1 <= r && st3.regs[r] == st2.regs[r];
    }
  }
}
