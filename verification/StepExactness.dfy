/** What a single step of the core and direct backends computes for any offset and any width, and
    exactly when that is what the step means: core fallback reads drop their offset and their null
    check, loads keep 16 bits of an offset, and a pointer must be read whole. */
module StepExactness {
  import opened Words
  import opened Machine
  import opened Types
  import opened Spill
  import opened Chains
  import opened Backends

  /** What the step means. */
  function Meant(s: Offset, last: bool, width: nat, mem: Memory, p: u64): Res
    requires width <= 8
  {
    if last then Val(StepLast(mem, s, p, width)) else StepUse(mem, s, p)
  }

  // Exactly when it is the meaning -----------------------------------------------------------------

  /** Eight bytes of memory at `a`, all zero but for a 1 at the `k`-th. */
  ghost function OneByte(a: u64, k: nat): Memory
    requires k < 8
  {
    map x: u64 | 0 <= x < TWO64 && Distance(a, x) < 8 :: if Distance(a, x) == k then 1 else 0
  }

  /** How far `x` lies behind `a`. */
  function Distance(a: u64, x: u64): u64 {
    Wrap(x as int - a as int)
  }

  lemma {:induction false} WrapOnce(x: int)
    ensures 0 <= x < TWO64 ==> Wrap(x) == x
    ensures TWO64 <= x < 2 * TWO64 ==> Wrap(x) == x - TWO64
    ensures -TWO64 <= x < 0 ==> Wrap(x) == x + TWO64
  {
  }

  lemma {:induction false} DistanceCell(a: u64, b: u64, i: nat)
    requires i < 8
    ensures Distance(a, Cell(a, i)) == i
    ensures Distance(a, b) < 8 ==> Distance(a, Cell(b, i)) == Distance(a, b) + i
    ensures Cell(b, 0) == b && (Distance(a, b) == 0 <==> a == b)
  {
    hide Wrap;
    WrapOnce(a + i);
    WrapOnce(b + i);
    WrapOnce(b);
    WrapOnce(b as int - a as int);
    WrapOnce(Cell(a, i) as int - a as int);
    WrapOnce(Cell(b, i) as int - a as int);
  }

  lemma {:induction false} OneByteAt(a: u64, k: nat, i: nat)
    requires k < 8 && i < 8
    ensures Cell(a, i) in OneByte(a, k) && OneByte(a, k)[Cell(a, i)] == if i == k then 1 else 0
  {
    DistanceCell(a, a, i);
  }

  /** Reading below the byte gives zero, reading across it does not. */
  lemma {:induction false} OneByteRead(a: u64, k: nat, n: nat)
    requires k < 8 && n <= 8
    ensures Load(OneByte(a, k), a, n) == 0 <==> n <= k
    ensures k == 0 && n > 0 ==> Load(OneByte(a, k), a, n) == 1
  {
    var mem := OneByte(a, k);
    forall i: nat | i < n
      ensures Cell(a, i) in mem && mem[Cell(a, i)] == if i == k then 1 else 0
    {
      OneByteAt(a, k, i);
    }
    var bs := ReadBytes(mem, a, n);
    assert forall i :: 0 <= i < n ==> bs[i] == if i == k then 1 else 0;
    OneByteValue(bs, k);
  }

  lemma {:induction false} OneByteValue(bs: seq<byte>, k: nat)
    requires forall i :: 0 <= i < |bs| ==> bs[i] == if i == k then 1 else 0
    ensures LeVal(bs) == 0 <==> |bs| <= k
    ensures k == 0 && bs != [] ==> LeVal(bs) == 1
  {
    if bs != [] {
      if k == 0 {
        LeValZeros(bs[1..]);
      } else {
        OneByteValue(bs[1..], k - 1);
      }
    }
  }

  /** Any other address reads zero. */
  lemma {:induction false} OneByteElsewhere(a: u64, b: u64, n: nat)
    requires a != b && n <= 8
    ensures Load(OneByte(a, 0), b, n) == 0
  {
    var mem := OneByte(a, 0);
    var bs := ReadBytes(mem, b, n);
    if Mapped(mem, b, n) {
      forall i | 0 <= i < n
        ensures bs[i] == 0
      {
        assert Cell(b, i) in mem;
        ElsewhereZero(a, b, i, n);
      }
    }
    LeValZeros(bs);
  }

  lemma {:induction false} ElsewhereZero(a: u64, b: u64, i: nat, n: nat)
    requires a != b && i < n <= 8 && Mapped(OneByte(a, 0), b, n)
    ensures Cell(b, i) in OneByte(a, 0) && OneByte(a, 0)[Cell(b, i)] == 0
  {
    DistanceCell(a, b, 0);
    DistanceCell(a, b, i);
    assert Cell(b, 0) in OneByte(a, 0) && Cell(b, i) in OneByte(a, 0);
  }

  /** When the step means what its core-mode code computes. */
  predicate CoreStepExact(kind: CoreKind, off: int, last: bool) {
    match kind
    case CoreAddress => true
    case CoreProbe => last && Int32(off) == 0
    case CoreCast(_, size) => (last || size == 8) && Int16(off) == Int32(off)
    case CoreError => false
  }

  ghost predicate CoreStepAgrees(kind: CoreKind, s: Offset, last: bool)
    requires kind != CoreError && KindWidth(kind) <= 8
  {
    forall mem: Memory, p: u64 :: CoreStepComputes(kind, s.off, last, mem, p) == Meant(s, last, KindWidth(kind), mem, p)
  }

  /** A core-mode step computes its meaning in every memory and for every pointer exactly when a
      fallback read comes last and has no offset, and a load has an offset of 16 bits and reads a
      pointer whole. */
  lemma {:induction false} CoreStepIff(kind: CoreKind, s: Offset, last: bool)
    requires kind != CoreError && (kind.CoreCast? ==> 0 < kind.size <= 8) && (s.address <==> kind.CoreAddress?)
    ensures CoreStepAgrees(kind, s, last) <==> CoreStepExact(kind, s.off, last)
  {
    if CoreStepExact(kind, s.off, last) {
      forall mem: Memory, p: u64
        ensures CoreStepComputes(kind, s.off, last, mem, p) == Meant(s, last, KindWidth(kind), mem, p)
      {
        ExactOffset(p, s.off);
      }
    } else {
      var mem, p := CoreStepWitness(kind, s, last);
    }
  }

  lemma {:induction false} ExactOffset(p: u64, off: int)
    ensures Int16(off) == Int32(off) ==> LoadAt(p, off) == Advance(p, off)
    ensures Int32(off) == 0 ==> Advance(p, off) == p
  {
  }

  /** Starting from address 0, different offsets are different addresses. */
  lemma {:induction false} OffsetsDiffer(off: int)
    ensures Int16(off) != Int32(off) ==> LoadAt(0, off) != Advance(0, off)
    ensures Int32(off) != 0 ==> Advance(0, off) != 0
  {
  }

  lemma {:induction false} CoreStepWitness(kind: CoreKind, s: Offset, last: bool) returns (mem: Memory, p: u64)
    requires kind != CoreError && (kind.CoreCast? ==> 0 < kind.size <= 8) && (s.address <==> kind.CoreAddress?)
    requires !CoreStepExact(kind, s.off, last)
    ensures CoreStepComputes(kind, s.off, last, mem, p) != Meant(s, last, KindWidth(kind), mem, p)
  {
    hide Load;
    p := 0;
    var a := Advance(p, s.off);
    OffsetsDiffer(s.off);
    match kind
    case CoreProbe =>
      if last {
        mem := OneByte(a, 0);
        OneByteRead(a, 0, 8);
        OneByteElsewhere(a, p, 8);
      } else {
        mem := map[];
        NothingRead(a, 8);
        NothingRead(p, 8);
      }
    case CoreCast(_, size) =>
      if Int16(s.off) != Int32(s.off) {
        mem := OneByte(a, 0);
        OneByteRead(a, 0, 8);
        OneByteRead(a, 0, size);
        OneByteElsewhere(a, LoadAt(p, s.off), size);
      } else {
        mem := OneByte(a, size);
        ExactOffset(p, s.off);
        OneByteRead(a, size, size);
        OneByteRead(a, size, 8);
      }
  }

  lemma {:induction false} NothingRead(a: u64, n: nat)
    requires n <= 8
    ensures Load(map[], a, n) == 0
  {
    LeValZeros(ReadBytes(map[], a, n));
  }

  ghost predicate DirectStepAgrees(s: Offset, last: bool) {
    forall mem: Memory, p: u64 :: DirectStepComputes(s, last, mem, p) == Meant(s, last, 8, mem, p)
  }

  /** A direct-mode step computes its meaning exactly when a load has an offset of 16 bits. */
  lemma {:induction false} DirectStepIff(s: Offset, last: bool)
    ensures DirectStepAgrees(s, last) <==> s.address || Int16(s.off) == Int32(s.off)
  {
    if s.address || Int16(s.off) == Int32(s.off) {
      forall mem: Memory, p: u64
        ensures DirectStepComputes(s, last, mem, p) == Meant(s, last, 8, mem, p)
      {
        ExactOffset(p, s.off);
      }
    } else {
      var a := Advance(0, s.off);
      OffsetsDiffer(s.off);
      OneByteRead(a, 0, 8);
      OneByteElsewhere(a, LoadAt(0, s.off), 8);
      assert DirectStepComputes(s, last, OneByte(a, 0), 0) != Meant(s, last, 8, OneByte(a, 0), 0);
    }
  }
}
