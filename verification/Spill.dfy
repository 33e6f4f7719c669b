/** Saving caller-saved registers around helper calls. */
module Spill {
  import opened Words
  import opened Machine
  import opened Types

  /** How many of R1 to Rn are allocated. */
  function CountUsed(used: set<Reg>, n: nat): (k: nat)
    requires n <= 5
    ensures k <= n
  {
    if n == 0 then 0 else CountUsed(used, n - 1) + (if (n as Reg) in used then 1 else 0)
  }

  function SaveRegs(offset: int, k: nat): seq<Instr>
    requires k <= 5
  {
    if k == 0 then [] else SaveRegs(offset, k - 1) + [Stx(FP, -offset + (k - 1) * 8, k, 8)]
  }

  function RestoreRegs(offset: int, k: nat): seq<Instr>
    requires k <= 5
  {
    if k == 0 then [] else RestoreRegs(offset, k - 1) + [Ldx(k, FP, -offset + (k - 1) * 8, 8)]
  }

  function PushCode(reserved: int, used: set<Reg>, n: nat): seq<Instr>
    requires n <= 5
  {
    var k := CountUsed(used, n);
    var offset := reserved + k * 8;
    (if R0 in used then [Stx(FP, -offset - 8, R0, 8)] else []) + SaveRegs(offset, k)
  }

  function PopCode(reserved: int, used: set<Reg>, n: nat): seq<Instr>
    requires n <= 5
  {
    var k := CountUsed(used, n);
    var offset := reserved + k * 8;
    RestoreRegs(offset, k) + (if R0 in used then [Ldx(R0, FP, -offset - 8, 8)] else [])
  }

  /** The registers that a push and pop around a call bring back. */
  predicate Restored(used: set<Reg>, n: nat, r: Reg)
    requires n <= 5
  {
    1 <= r <= CountUsed(used, n) || (r == R0 && R0 in used)
  }

  /** The slot that holds register `r` between push and pop. */
  function Slot(reserved: int, used: set<Reg>, n: nat, r: Reg): int
    requires n <= 5
  {
    -(reserved + CountUsed(used, n) * 8) + (r - 1) * 8
  }

  /** The spill slots are pairwise disjoint dwords below the reserved area; in particular none
      meets the scratch dword at [-8, 0). */
  lemma {:induction false} SlotsDisjoint(reserved: int, used: set<Reg>, n: nat, r: Reg, s: Reg)
    requires ValidReserve(reserved) && n <= 5
    requires Restored(used, n, r) && Restored(used, n, s)
    ensures -512 <= Slot(reserved, used, n, r) && Slot(reserved, used, n, r) + 8 <= -reserved <= -8
    ensures r != s ==> Slot(reserved, used, n, r) + 8 <= Slot(reserved, used, n, s)
                       || Slot(reserved, used, n, s) + 8 <= Slot(reserved, used, n, r)
    ensures Slot(reserved, used, n, r) % 8 == 0
  {
  }

  /** The frame after the push: every saved register is in its slot, nothing else has moved. */
  ghost predicate Pushed(reserved: int, used: set<Reg>, n: nat, st: State, st1: State)
    requires n <= 5
  {
    && st1 == st.(stack := st1.stack)
    && (forall r: Reg :: Restored(used, n, r) ==>
          Slot(reserved, used, n, r) in st1.stack && st1.stack[Slot(reserved, used, n, r)] == st.regs[r])
  }

  lemma {:induction false} StoreRun(at: int, r: Reg, st: State) returns (st1: State)
    requires st.regs[FP] == Ptr(Frame, 0) && -512 <= at < 0
    ensures Run([Stx(FP, at, r, 8)], st) == Fall(st1)
    ensures st1 == st.(stack := StoreSlot(st.stack, at, st.regs[r]))
  {
    assert Int16(at) == at;
    st1 := st.(stack := StoreSlot(st.stack, at, st.regs[r]));
    RunStraight([Stx(FP, at, r, 8)], [st, st1]);
  }

  lemma {:induction false} SaveRegsRun(reserved: int, used: set<Reg>, n: nat, k: nat, st: State) returns (st1: State)
    requires ValidReserve(reserved) && n <= 5 && k <= CountUsed(used, n)
    requires st.regs[FP] == Ptr(Frame, 0)
    ensures Run(SaveRegs(reserved + CountUsed(used, n) * 8, k), st) == Fall(st1)
    ensures st1 == st.(stack := st1.stack)
    ensures forall r: Reg :: 1 <= r <= k ==>
              Slot(reserved, used, n, r) in st1.stack && st1.stack[Slot(reserved, used, n, r)] == st.regs[r]
    ensures forall o :: o in st.stack && o + 8 <= Slot(reserved, used, n, 1) ==> o in st1.stack && st1.stack[o] == st.stack[o]
  {
    hide Step, Run;
    var offset := reserved + CountUsed(used, n) * 8;
    if k == 0 {
      st1 := st;
      assert Run([], st) == Fall(st) by { NothingRun(st); }
    } else {
      var st0 := SaveRegsRun(reserved, used, n, k - 1, st);
      st1 := StoreRun(-offset + (k - 1) * 8, k, st0);
      RunConcat(SaveRegs(offset, k - 1), [Stx(FP, -offset + (k - 1) * 8, k, 8)], st);
    }
  }

  lemma {:induction false} NothingRun(st: State)
    ensures Run([], st) == Fall(st)
  {
  }

  lemma {:induction false} PushRun(reserved: int, used: set<Reg>, n: nat, st: State) returns (st1: State)
    requires ValidReserve(reserved) && n <= 5
    requires st.regs[FP] == Ptr(Frame, 0)
    ensures Run(PushCode(reserved, used, n), st) == Fall(st1)
    ensures Pushed(reserved, used, n, st, st1)
  {
    hide Step, Run, SaveRegs;
    var offset := reserved + CountUsed(used, n) * 8;
    var first := if R0 in used then [Stx(FP, -offset - 8, R0, 8)] else [];
    var st0 := st;
    if R0 in used {
      st0 := StoreRun(-offset - 8, R0, st);
    } else {
      NothingRun(st);
    }
    st1 := SaveRegsRun(reserved, used, n, CountUsed(used, n), st0);
    RunConcat(first, SaveRegs(offset, CountUsed(used, n)), st);
  }

  lemma {:induction false} RestoreRegsRun(reserved: int, used: set<Reg>, n: nat, k: nat, st: State,
                                          st2: State) returns (st3: State)
    requires ValidReserve(reserved) && n <= 5 && k <= CountUsed(used, n)
    requires st2.regs[FP] == Ptr(Frame, 0)
    requires forall r: Reg :: 1 <= r <= k ==>
              Slot(reserved, used, n, r) in st2.stack && st2.stack[Slot(reserved, used, n, r)] == st.regs[r]
    ensures Run(RestoreRegs(reserved + CountUsed(used, n) * 8, k), st2) == Fall(st3)
    ensures st3 == st2.(regs := st3.regs)
    ensures forall r: Reg :: st3.regs[r] == if 1 <= r <= k then st.regs[r] else st2.regs[r]
  {
    var offset := reserved + CountUsed(used, n) * 8;
    if k == 0 {
      st3 := st2;
    } else {
      var st0 := RestoreRegsRun(reserved, used, n, k - 1, st, st2);
      var at := -offset + (k - 1) * 8;
      var i := Ldx(k, FP, at, 8);
      assert Int16(at) == at == Slot(reserved, used, n, k);
      st3 := Set(st0, k, st.regs[k]);
      assert Step(i, st0) == Go(st3);
      RunGo(i, [], st0, st3);
      assert [i] + [] == [i];
      RunConcat(RestoreRegs(offset, k - 1), [i], st2);
    }
  }

  /** Whatever happens between push and pop, as long as the frame below the reserved area is left
      alone, pop brings back exactly R1 to Rk, and R0 when it is allocated. */
  lemma {:induction false} PopRun(reserved: int, used: set<Reg>, n: nat, st: State, st2: State) returns (st3: State)
    requires ValidReserve(reserved) && n <= 5
    requires st2.regs[FP] == Ptr(Frame, 0)
    requires forall r: Reg :: Restored(used, n, r) ==>
              Slot(reserved, used, n, r) in st2.stack && st2.stack[Slot(reserved, used, n, r)] == st.regs[r]
    ensures Run(PopCode(reserved, used, n), st2) == Fall(st3)
    ensures st3 == st2.(regs := st3.regs)
    ensures forall r: Reg :: st3.regs[r] == if Restored(used, n, r) then st.regs[r] else st2.regs[r]
  {
    var k := CountUsed(used, n);
    var offset := reserved + k * 8;
    var last := if R0 in used then [Ldx(R0, FP, -offset - 8, 8)] else [];
    var st0 := RestoreRegsRun(reserved, used, n, k, st, st2);
    st3 := st0;
    if R0 in used {
      assert Restored(used, n, R0);
      assert Int16(-offset - 8) == -offset - 8 == Slot(reserved, used, n, R0);
      st3 := Set(st0, R0, st.regs[R0]);
      assert Step(last[0], st0) == Go(st3);
      RunGo(last[0], [], st0, st3);
      assert [last[0]] + [] == last;
    }
    assert Run(last, st0) == Fall(st3);
    RunConcat(RestoreRegs(offset, k), last, st2);
  }

  /** A call between push and pop: allocated caller-saved registers keep their values in every
      state exactly when the ones among R1 to R5 are a prefix R1 to Rk. */
  lemma {:induction false} SpillPreservesIff(reserved: int, used: set<Reg>, st: State)
    requires ValidReserve(reserved) && st.regs[FP] == Ptr(Frame, 0)
    requires forall r: Reg :: r in used ==> st.regs[r] != Unknown
    ensures
      var k := CountUsed(used, 5);
      (forall r: Reg :: r in used && 1 <= r <= 5 ==> r <= k) <==>
      (match Run(PushCode(reserved, used, 5), st)
       case Fall(st1) =>
         (match Run(PopCode(reserved, used, 5), Clobber(st1, Unknown))
          case Fall(st3) => forall r: Reg :: r in used ==> st3.regs[r] == st.regs[r]
          case _ => false)
       case _ => false)
  {
    var st1 := PushRun(reserved, used, 5, st);
    var st2 := Clobber(st1, Unknown);
    var st3 := PopRun(reserved, used, 5, st, st2);
    forall r: Reg | r in used
      ensures st3.regs[r] == st.regs[r] <==> !(1 <= r <= 5) || r <= CountUsed(used, 5)
    {
      assert r >= 6 ==> st2.regs[r] == st.regs[r];
    }
  }
}
