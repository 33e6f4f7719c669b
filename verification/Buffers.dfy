/** The output buffer shared by the generated writers and their readers: what the generated helper
    calls put into it, and what the Go readers take out of a byte slice. */
module Buffers {
  import opened Words
  import opened Machine
  import opened Chains
  import opened OperatorRuns
  import opened Backends

  const MaxOutputStrLen := 64

  /** Offsets that the 16-bit field of a store holds unchanged. */
  const MaxOffset := 0x7FFF

  // Reading a slice ------------------------------------------------------------------------------

  /** The bytes before the first zero. */
  function NullTerminated(bs: seq<byte>): seq<byte> {
    if bs == [] || bs[0] == 0 then [] else [bs[0]] + NullTerminated(bs[1..])
  }

  method ScanNullTerminated(bs: seq<byte>) returns (s: seq<byte>)
    ensures s <= bs && (forall i :: 0 <= i < |s| ==> s[i] != 0) && (s != bs ==> bs[|s|] == 0)
    ensures s == NullTerminated(bs)
  {
    var idx := 0;
    while idx < |bs| && bs[idx] != 0
      invariant idx <= |bs| && bs[..idx] + NullTerminated(bs[idx..]) == NullTerminated(bs)
    {
      assert bs[idx..][1..] == bs[idx + 1..];
      assert bs[..idx + 1] == bs[..idx] + [bs[idx]];
      idx := idx + 1;
    }
    NullPrefix(bs);
    return bs[..idx];
  }

  lemma {:induction false} NullPrefix(bs: seq<byte>)
    ensures var s := NullTerminated(bs); s <= bs && (forall i :: 0 <= i < |s| ==> s[i] != 0) && (s != bs ==> bs[|s|] == 0)
  {
    if bs != [] && bs[0] != 0 {
      NullPrefix(bs[1..]);
    }
  }

  /** What is taken out of a terminated string is the string, whatever follows it, and of an unterminated one
      all of it. */
  lemma {:induction false} StringTaken(s: seq<byte>, rest: seq<byte>)
    requires forall i :: 0 <= i < |s| ==> s[i] != 0
    ensures NullTerminated(s + [0] + rest) == s && NullTerminated(s) == s
  {
    var bs := s + [0] + rest;
    var t := NullTerminated(bs);
    NullPrefix(bs);
    NullPrefix(s);
    assert forall k :: 0 <= k < |s| ==> bs[k] == s[k] != 0;
    assert forall k :: 0 <= k < |t| ==> bs[k] == t[k] != 0;
    assert bs[|s|] == 0;
    assert |t| == |s|;
    assert t == bs[..|s|] == s;
  }

  lemma {:induction false} TerminatedPrefix(bs: seq<byte>, rest: seq<byte>)
    requires rest == [] || exists i :: 0 <= i < |bs| && bs[i] == 0
    ensures NullTerminated(bs + rest) == NullTerminated(bs)
  {
    if rest == [] {
      assert bs + rest == bs;
    } else if bs[0] != 0 {
      assert (bs + rest)[1..] == bs[1..] + rest;
      var i :| 0 <= i < |bs| && bs[i] == 0;
      assert bs[1..][i - 1] == 0;
      TerminatedPrefix(bs[1..], rest);
    }
  }

  /** A string read by the helper ends with its terminator, unless its size is 0. */
  lemma {:induction false} ReadStrTerminated(mem: Memory, a: u64, n: nat)
    requires n > 0
    ensures exists i :: 0 <= i < |ReadStr(mem, a, n)| && ReadStr(mem, a, n)[i] == 0
  {
    var bs := ReadStr(mem, a, n);
    assert bs[|bs| - 1] == 0;
  }

  /** The characters of `s` stand at `a`, none of them a zero. */
  ghost predicate CharsAt(mem: Memory, a: u64, s: seq<byte>) {
    forall i: nat {:trigger Cell(a, i)} :: i < |s| ==> Cell(a, i) in mem && mem[Cell(a, i)] == s[i] && s[i] != 0
  }

  /** What a text field of `n` bytes shows of the string at `a`: its characters before the terminator, but for
      the last of `n` of them, and nothing when unmapped memory comes first. */
  ghost predicate TextAt(mem: Memory, a: u64, n: nat, s: seq<byte>) {
    if n == 0 then s == []
    else
      || (|s| < n && CharsAt(mem, a, s) && Cell(a, |s|) in mem && (|s| == n - 1 || mem[Cell(a, |s|)] == 0))
      || (s == [] && exists t :: |t| < n && CharsAt(mem, a, t) && Cell(a, |t|) !in mem)
  }

  lemma {:induction false} CharsLonger(mem: Memory, a: u64, s: seq<byte>)
    requires a in mem && mem[a] != 0 && CharsAt(mem, Cell(a, 1), s)
    ensures CharsAt(mem, a, [mem[a]] + s)
    ensures Cell(Cell(a, 1), |s|) == Cell(a, |s| + 1)
  {
    forall i: nat | i < |s| + 1
      ensures Cell(a, i) in mem && mem[Cell(a, i)] == ([mem[a]] + s)[i] && ([mem[a]] + s)[i] != 0
    {
      if i > 0 {
        CellNext(a, i - 1);
      } else {
        assert Cell(a, 0) == a;
      }
    }
    CellNext(a, |s|);
  }

  lemma {:induction false} CellNext(a: u64, i: nat)
    ensures Cell(Cell(a, 1), i) == Cell(a, i + 1) && Cell(a, 0) == a
  {
  }

  /** What the helper copies of a string, and where it stops. */
  lemma {:induction false} CopiedText(mem: Memory, a: u64, n: nat) returns (s: seq<byte>)
    requires n > 0
    ensures |s| < n && CharsAt(mem, a, s)
    ensures match CString(mem, a, n)
            case None => Cell(a, |s|) !in mem
            case Some(bs) => bs == s + [0] && Cell(a, |s|) in mem && (|s| == n - 1 || mem[Cell(a, |s|)] == 0)
    decreases n
  {
    CellNext(a, 0);
    s := [];
    if a in mem && n > 1 && mem[a] != 0 {
      var t := CopiedText(mem, Cell(a, 1), n - 1);
      CharsLonger(mem, a, t);
      s := [mem[a]] + t;
      if CString(mem, Cell(a, 1), n - 1).Some? {
        assert s + [0] == [mem[a]] + (t + [0]);
      }
    }
  }

  /** What the helper writes into a text field, taken out again, is that text. */
  lemma {:induction false} TextShown(mem: Memory, a: u64, n: nat)
    ensures TextAt(mem, a, n, NullTerminated(ReadStr(mem, a, n)))
  {
    if n > 0 {
      var s := CopiedText(mem, a, n);
      match CString(mem, a, n)
      case Some(bs) =>
        NoZeros(mem, a, s);
        StringTaken(s, []);
        assert s + [0] + [] == bs;
      case None =>
        var zeros := ReadStr(mem, a, n);
        assert zeros[0] == 0 && NullTerminated(zeros) == [];
    }
  }

  lemma {:induction false} NoZeros(mem: Memory, a: u64, s: seq<byte>)
    requires CharsAt(mem, a, s)
    ensures forall i :: 0 <= i < |s| ==> s[i] != 0
  {
    forall i | 0 <= i < |s|
      ensures s[i] != 0
    {
      assert Cell(a, i) in mem;
    }
  }

  /** A text field shows one text and no other. */
  lemma {:induction false} TextUnique(mem: Memory, a: u64, n: nat, s: seq<byte>, t: seq<byte>)
    requires TextAt(mem, a, n, s) && TextAt(mem, a, n, t)
    ensures s == t
  {
    if n > 0 {
      var s' := if Stops(mem, a, n, s) then s else Faulting(mem, a, n);
      var t' := if Stops(mem, a, n, t) then t else Faulting(mem, a, n);
      SameStop(mem, a, n, s', t');
    }
  }

  /** The characters up to the terminator, the end of the field or unmapped memory. */
  ghost predicate Stops(mem: Memory, a: u64, n: nat, s: seq<byte>) {
    |s| < n && CharsAt(mem, a, s) && Cell(a, |s|) in mem && (|s| == n - 1 || mem[Cell(a, |s|)] == 0)
  }

  ghost function Faulting(mem: Memory, a: u64, n: nat): (t: seq<byte>)
    requires exists t :: |t| < n && CharsAt(mem, a, t) && Cell(a, |t|) !in mem
    ensures |t| < n && CharsAt(mem, a, t) && Cell(a, |t|) !in mem
  {
    var t :| |t| < n && CharsAt(mem, a, t) && Cell(a, |t|) !in mem;
    t
  }

  lemma {:induction false} SameStop(mem: Memory, a: u64, n: nat, s: seq<byte>, t: seq<byte>)
    requires |s| < n && CharsAt(mem, a, s) && (Cell(a, |s|) !in mem || |s| == n - 1 || mem[Cell(a, |s|)] == 0)
    requires |t| < n && CharsAt(mem, a, t) && (Cell(a, |t|) !in mem || |t| == n - 1 || mem[Cell(a, |t|)] == 0)
    ensures s == t
  {
    assert |s| == |t|;
    forall i | 0 <= i < |s|
      ensures s[i] == t[i]
    {
      assert Cell(a, i) in mem;
    }
  }

  /** The dword at the front of a slice. */
  function FrontDword(data: seq<byte>): nat
    requires |data| >= 8
  {
    LeVal(data[..8])
  }

  lemma {:induction false} DwordRoundTrip(v: u64)
    ensures LeVal(LeBytes(v, 8)) == v
  {
    LeRoundTrip(v, 8);
    Pow2Values();
  }

  // The buffer -----------------------------------------------------------------------------------

  predicate Present(buf: map<int, byte>, off: int, n: nat) {
    forall o :: off <= o < off + n ==> o in buf
  }

  function Bytes(buf: map<int, byte>, off: int, n: nat): (bs: seq<byte>)
    requires Present(buf, off, n)
    ensures |bs| == n
  {
    seq(n, i requires 0 <= i < n => buf[off + i])
  }

  /** Two byte strings stored one after the other. */
  lemma {:induction false} StoreJoin(buf: map<int, byte>, off: int, a: seq<byte>, b: seq<byte>)
    ensures StoreBytes(StoreBytes(buf, off, a), off + |a|, b) == StoreBytes(buf, off, a + b)
  {
    var l, r := StoreBytes(StoreBytes(buf, off, a), off + |a|, b), StoreBytes(buf, off, a + b);
    forall o
      ensures o in l <==> o in r
      ensures o in l ==> l[o] == r[o]
    {
      if off <= o < off + |a| + |b| {
        assert o in r && r[o] == (a + b)[o - off];
      }
    }
  }

  /** `bs` stands in the buffer at `off`. */
  ghost predicate Contains(buf: map<int, byte>, off: int, bs: seq<byte>) {
    forall o {:trigger buf[o]} {:trigger o in buf} :: off <= o < off + |bs| ==> o in buf && buf[o] == bs[o - off]
  }

  lemma {:induction false} ContainsNow(buf: map<int, byte>, off: int, bs: seq<byte>)
    ensures Contains(StoreBytes(buf, off, bs), off, bs)
  {
  }

  lemma {:induction false} ContainsBefore(buf: map<int, byte>, at: int, more: seq<byte>, off: int, bs: seq<byte>)
    requires Contains(buf, off, bs) && off + |bs| <= at
    ensures Contains(StoreBytes(buf, at, more), off, bs)
  {
  }

  lemma {:induction false} SlicePrefix(buf: map<int, byte>, size: nat, off: nat, bs: seq<byte>)
    requires Present(buf, 0, size) && Contains(buf, off, bs) && off + |bs| <= size
    ensures bs <= Bytes(buf, 0, size)[off..]
  {
    var rest := Bytes(buf, 0, size)[off..];
    forall k | 0 <= k < |bs|
      ensures rest[k] == bs[k]
    {
    }
  }

  // Helper calls into the buffer -----------------------------------------------------------------

  /** `helper(buff + offset, size, R3)`, with the buffer pointer in `buff`. */
  function ReadCode(buff: Reg, offset: int, size: int, helper: Helper): seq<Instr> {
    [Mov(R2, Imm(size)), Mov(R1, R(buff))] + AddUnlessZero(R1, offset) + [Call(helper)]
  }

  /** What a helper call writes. */
  function HelperBytes(helper: Helper, mem: Memory, a: u64, n: nat): seq<byte> {
    if helper == ProbeReadStr then ReadStr(mem, a, n) else ReadBytes(mem, a, n)
  }

  /** Nothing but R0 to R5 and the buffer changes. */
  ghost predicate WritesOnly(st: State, st': State, buf: map<int, byte>) {
    && st' == st.(regs := st'.regs, buf := buf)
    && (forall r: Reg :: r >= 6 ==> st'.regs[r] == st.regs[r])
  }

  lemma {:induction false} ReadCallStep(offset: int, size: u64, helper: Helper, a: u64, st: State)
    requires st.regs[R1] == Ptr(Buff, offset) && st.regs[R2] == Num(size) && st.regs[R3] == Num(a)
    requires helper == ProbeRead || helper == ProbeReadStr
    ensures Step(Call(helper), st) ==
            Go(Clobber(st.(buf := StoreBytes(st.buf, offset, HelperBytes(helper, st.mem, a, size))), Unknown))
  {
    hide StoreBytes, ReadBytes, ReadStr;
  }

  lemma {:induction false} ReadCodeRun(buff: Reg, offset: int, size: nat, helper: Helper, a: u64, st: State)
    returns (st': State)
    requires buff >= 6 && st.regs[buff] == Ptr(Buff, 0) && st.regs[R3] == Num(a)
    requires helper == ProbeRead || helper == ProbeReadStr
    requires 0 <= offset && offset + size <= MaxOffset
    ensures Run(ReadCode(buff, offset, size, helper), st) == Fall(st')
    ensures WritesOnly(st, st', StoreBytes(st.buf, offset, HelperBytes(helper, st.mem, a, size)))
  {
    hide StoreBytes, HelperBytes, CallHelper;
    var s1 := Set(st, R2, Num(size));
    var s2 := Set(s1, R1, Ptr(Buff, 0));
    var s3 := Set(s2, R1, Ptr(Buff, offset));
    st' := Clobber(s3.(buf := StoreBytes(st.buf, offset, HelperBytes(helper, st.mem, a, size))), Unknown);
    assert Step(Mov(R2, Imm(size)), st) == Go(s1);
    assert Step(Mov(R1, R(buff)), s1) == Go(s2);
    assert Step(Alu(Add, R1, Imm(offset)), s2) == Go(s3);
    ReadCallStep(offset, size, helper, a, s3);
    hide Step;
    if offset == 0 {
      assert s3 == s2;
      RunStraight(ReadCode(buff, offset, size, helper), [st, s1, s2, st']);
    } else {
      RunStraight(ReadCode(buff, offset, size, helper), [st, s1, s2, s3, st']);
    }
  }

  lemma {:induction false} StoreRun(buff: Reg, offset: int, reg: Reg, v: u64, size: nat, st: State) returns (st': State)
    requires st.regs[buff] == Ptr(Buff, 0) && st.regs[reg] == Num(v)
    requires 0 <= offset <= MaxOffset
    ensures Run([Stx(buff, offset, reg, size)], st) == Fall(st')
    ensures st' == st.(buf := StoreBytes(st.buf, offset, LeBytes(v, size)))
  {
    hide StoreBytes, LeBytes;
    st' := st.(buf := StoreBytes(st.buf, offset, LeBytes(v, size)));
    RunStraight([Stx(buff, offset, reg, size)], [st, st']);
  }
}
