/** The argument buffer of a traced function: the generated code that writes it and the Go code that
    takes the parameter values and the return value out of it again. */
module FuncArgs {
  import opened Words
  import opened Machine
  import opened Chains
  import opened OperatorRuns
  import opened Backends
  import opened Buffers

  datatype Param = Param(isStr: bool, isNumberPtr: bool, partOfPrevParam: bool)

  function ParamSize(p: Param): nat {
    if p.isStr then MaxOutputStrLen else if p.isNumberPtr then 16 else 8
  }

  /** The bytes of the first `n` parameters. */
  function ParamsSize(prms: seq<Param>, n: nat): nat
    requires n <= |prms|
  {
    if n == 0 then 0 else ParamsSize(prms, n - 1) + ParamSize(prms[n - 1])
  }

  function TotalSize(prms: seq<Param>, ret: Param, withRetval: bool): nat {
    ParamsSize(prms, |prms|) + (if withRetval then ParamSize(ret) else 0)
  }

  // The writer -----------------------------------------------------------------------------------

  /** The dword behind R3 goes into `reg` by way of the frame, then into the buffer. */
  function TargetCode(reg: Reg, offset: int): seq<Instr> {
    ReadDword + [Ldx(reg, FP, -8, 8), Stx(R7, offset, reg, 8)]
  }

  function ParamCode(p: Param, i: nat, offset: int): seq<Instr> {
    [Ldx(R3, R6, i * 8, 8)] +
    (if p.isStr then ReadCode(R7, offset, MaxOutputStrLen, ProbeReadStr)
     else [Stx(R7, offset, R3, 8)] + (if p.isNumberPtr then TargetCode(R3, offset + 8) else []))
  }

  function ParamsCode(prms: seq<Param>, n: nat): seq<Instr>
    requires n <= |prms|
  {
    if n == 0 then [] else ParamsCode(prms, n - 1) + ParamCode(prms[n - 1], n - 1, ParamsSize(prms, n - 1))
  }

  function RetCode(ret: Param, offset: int): seq<Instr> {
    if ret.isStr then [Mov(R3, R(R8))] + ReadCode(R7, offset, MaxOutputStrLen, ProbeReadStr)
    else [Stx(R7, offset, R8, 8)] + (if ret.isNumberPtr then [Mov(R3, R(R8))] + TargetCode(R8, offset + 8) else [])
  }

  const Backup: seq<Instr> := [Mov(R6, R(R1)), Mov(R7, R(R2)), Mov(R8, R(R3))]

  function WriterBody(prms: seq<Param>, ret: Param, withRetval: bool): seq<Instr> {
    Backup + ParamsCode(prms, |prms|) + (if withRetval then RetCode(ret, ParamsSize(prms, |prms|)) else [])
  }

  method GenOutputFuncArgs(prms: seq<Param>, ret: Param, withRetval: bool) returns (insns: seq<Instr>, size: nat)
    ensures insns == WriterBody(prms, ret, withRetval) + [Exit]
    ensures size == TotalSize(prms, ret, withRetval)
  {
    hide ReadCode, TargetCode;
    insns := Backup;
    var offset := 0;
    for i := 0 to |prms|
      invariant offset == ParamsSize(prms, i) && insns == Backup + ParamsCode(prms, i)
    {
      var prm := prms[i];
      ghost var before := insns;
      insns := insns + [Ldx(R3, R6, i * 8, 8)];
      if !prm.isStr {
        insns := insns + [Stx(R7, offset, R3, 8)];
        offset := offset + 8;
        if prm.isNumberPtr {
          insns := insns + TargetCode(R3, offset);
          offset := offset + 8;
        }
      } else {
        insns := insns + ReadCode(R7, offset, MaxOutputStrLen, ProbeReadStr);
        offset := offset + MaxOutputStrLen;
      }
      assert insns == before + ParamCode(prm, i, ParamsSize(prms, i));
    }
    if !withRetval {
      insns := insns + [Exit];
      return insns, offset;
    }
    ghost var before := insns;
    if !ret.isStr {
      insns := insns + [Stx(R7, offset, R8, 8)];
      offset := offset + 8;
      if ret.isNumberPtr {
        insns := insns + [Mov(R3, R(R8))] + TargetCode(R8, offset);
        offset := offset + 8;
      }
    } else {
      insns := insns + [Mov(R3, R(R8))] + ReadCode(R7, offset, MaxOutputStrLen, ProbeReadStr);
      offset := offset + MaxOutputStrLen;
    }
    assert insns == before + RetCode(ret, ParamsSize(prms, |prms|));
    insns := insns + [Exit];
    return insns, offset;
  }

  // What it writes -------------------------------------------------------------------------------

  /** The bytes of a parameter with value `v`; a string may leave the rest of its 64 bytes alone. */
  function Written(p: Param, v: u64, mem: Memory): (bs: seq<byte>)
    ensures |bs| <= ParamSize(p) && (!p.isStr ==> |bs| == ParamSize(p))
  {
    if p.isStr then ReadStr(mem, v, MaxOutputStrLen)
    else LeBytes(v, 8) + (if p.isNumberPtr then LeBytes(Load(mem, v, 8), 8) else [])
  }

  function Stored(prms: seq<Param>, args: seq<u64>, mem: Memory, n: nat, buf: map<int, byte>): map<int, byte>
    requires n <= |prms| <= |args|
  {
    if n == 0 then buf
    else StoreBytes(Stored(prms, args, mem, n - 1, buf), ParamsSize(prms, n - 1), Written(prms[n - 1], args[n - 1], mem))
  }

  function StoredAll(prms: seq<Param>, ret: Param, withRetval: bool, args: seq<u64>, retval: u64, mem: Memory,
                     buf: map<int, byte>): map<int, byte>
    requires |prms| <= |args|
  {
    var params := Stored(prms, args, mem, |prms|, buf);
    if withRetval then StoreBytes(params, ParamsSize(prms, |prms|), Written(ret, retval, mem)) else params
  }

  /** R6 to R8 hold the arguments, the buffer and the return value throughout. */
  ghost predicate Writing(st: State, args: seq<u64>, retval: u64, mem: Memory) {
    && st.regs[R6] == Ptr(Args, 0) && st.regs[R7] == Ptr(Buff, 0) && st.regs[R8] == Num(retval)
    && st.regs[FP] == Ptr(Frame, 0) && st.args == args && st.mem == mem
  }

  lemma {:induction false} TargetRun(reg: Reg, offset: int, a: u64, st: State) returns (st': State)
    requires st.regs[R3] == Num(a) && st.regs[R7] == Ptr(Buff, 0) && st.regs[FP] == Ptr(Frame, 0)
    requires 0 <= offset <= MaxOffset && (reg == R3 || reg == R8)
    ensures Run(TargetCode(reg, offset), st) == Fall(st')
    ensures st' == st.(regs := st'.regs, stack := st'.stack, buf := StoreBytes(st.buf, offset, LeBytes(Load(st.mem, a, 8), 8)))
    ensures forall r: Reg :: r >= 6 && r != reg ==> st'.regs[r] == st.regs[r]
  {
    hide Step, Load, StoreBytes;
    var st1 := ReadDwordRun(a, st);
    var w := Load(st.mem, a, 8);
    var st2 := Set(st1, reg, Num(w));
    assert LoadWord(st1.regs[FP], -8, 8, st1) == Ok2(Num(w));
    LdxRun(reg, FP, -8, Num(w), st1);
    st' := StoreRun(R7, offset, reg, w, 8, st2);
    RunConcat([Ldx(reg, FP, -8, 8)], [Stx(R7, offset, reg, 8)], st1);
    assert [Ldx(reg, FP, -8, 8), Stx(R7, offset, reg, 8)] == [Ldx(reg, FP, -8, 8)] + [Stx(R7, offset, reg, 8)];
    RunConcat(ReadDword, [Ldx(reg, FP, -8, 8), Stx(R7, offset, reg, 8)], st);
  }

  lemma {:induction false} LdxRun(dst: Reg, base: Reg, off: int, w: Word, st: State)
    requires LoadWord(st.regs[base], off, 8, st) == Ok2(w)
    ensures Run([Ldx(dst, base, off, 8)], st) == Fall(Set(st, dst, w))
  {
    RunStraight([Ldx(dst, base, off, 8)], [st, Set(st, dst, w)]);
  }

  /** A value stored, and what it points to stored behind it. */
  lemma {:induction false} ValueRun(isNumberPtr: bool, v: u64, offset: nat, st: State) returns (st': State)
    requires st.regs[R3] == Num(v) && st.regs[R7] == Ptr(Buff, 0) && st.regs[FP] == Ptr(Frame, 0)
    requires offset + 16 <= MaxOffset
    ensures Run([Stx(R7, offset, R3, 8)] + (if isNumberPtr then TargetCode(R3, offset + 8) else []), st) == Fall(st')
    ensures st'.buf == StoreBytes(st.buf, offset, Written(Param(false, isNumberPtr, false), v, st.mem))
    ensures st' == st.(regs := st'.regs, stack := st'.stack, buf := st'.buf)
    ensures forall r: Reg :: r >= 6 ==> st'.regs[r] == st.regs[r]
  {
    hide Step, Load, StoreBytes, LeBytes;
    var st1 := StoreRun(R7, offset, R3, v, 8, st);
    st' := st1;
    assert LeBytes(v, 8) + [] == LeBytes(v, 8);
    if isNumberPtr {
      st' := TargetRun(R3, offset + 8, v, st1);
      StoreJoin(st.buf, offset, LeBytes(v, 8), LeBytes(Load(st.mem, v, 8), 8));
      RunConcat([Stx(R7, offset, R3, 8)], TargetCode(R3, offset + 8), st);
    } else {
      assert [Stx(R7, offset, R3, 8)] + [] == [Stx(R7, offset, R3, 8)];
    }
  }

  lemma {:induction false} ParamRun(p: Param, i: nat, offset: nat, args: seq<u64>, retval: u64, mem: Memory,
                                    st: State) returns (st': State)
    requires Writing(st, args, retval, mem) && i < |args| <= 4095 && offset + MaxOutputStrLen <= MaxOffset
    ensures Run(ParamCode(p, i, offset), st) == Fall(st')
    ensures Writing(st', args, retval, mem)
    ensures st'.buf == StoreBytes(st.buf, offset, Written(p, args[i], mem))
  {
    hide Step, StoreBytes, LeBytes, Load, ReadStr;
    var v := args[i];
    var st1 := Set(st, R3, Num(v));
    assert LoadWord(st.regs[R6], i * 8, 8, st) == Ok2(Num(v));
    LdxRun(R3, R6, i * 8, Num(v), st);
    if p.isStr {
      st' := ReadCodeRun(R7, offset, MaxOutputStrLen, ProbeReadStr, v, st1);
      RunConcat([Ldx(R3, R6, i * 8, 8)], ReadCode(R7, offset, MaxOutputStrLen, ProbeReadStr), st);
    } else {
      st' := ValueRun(p.isNumberPtr, v, offset, st1);
      RunConcat([Ldx(R3, R6, i * 8, 8)],
                [Stx(R7, offset, R3, 8)] + (if p.isNumberPtr then TargetCode(R3, offset + 8) else []), st);
    }
  }

  lemma {:induction false} ParamsRun(prms: seq<Param>, n: nat, args: seq<u64>, retval: u64, mem: Memory,
                                     st: State) returns (st': State)
    requires Writing(st, args, retval, mem) && n <= |prms| <= |args| <= 4095
    requires ParamsSize(prms, n) + MaxOutputStrLen <= MaxOffset
    ensures Run(ParamsCode(prms, n), st) == Fall(st')
    ensures Writing(st', args, retval, mem)
    ensures st'.buf == Stored(prms, args, mem, n, st.buf)
  {
    hide Step, StoreBytes, Written, ParamCode;
    if n == 0 {
      st' := st;
    } else {
      var st1 := ParamsRun(prms, n - 1, args, retval, mem, st);
      st' := ParamRun(prms[n - 1], n - 1, ParamsSize(prms, n - 1), args, retval, mem, st1);
      RunConcat(ParamsCode(prms, n - 1), ParamCode(prms[n - 1], n - 1, ParamsSize(prms, n - 1)), st);
    }
  }

  lemma {:induction false} RetRun(ret: Param, offset: nat, args: seq<u64>, retval: u64, mem: Memory,
                                  st: State) returns (st': State)
    requires Writing(st, args, retval, mem) && offset + MaxOutputStrLen <= MaxOffset
    ensures Run(RetCode(ret, offset), st) == Fall(st')
    ensures st'.buf == StoreBytes(st.buf, offset, Written(ret, retval, mem))
  {
    hide Step, StoreBytes, LeBytes, Load, ReadStr;
    var move := Mov(R3, R(R8));
    if ret.isStr {
      MovRun(R3, R(R8), st);
      st' := ReadCodeRun(R7, offset, MaxOutputStrLen, ProbeReadStr, retval, Set(st, R3, Num(retval)));
      RunConcat([move], ReadCode(R7, offset, MaxOutputStrLen, ProbeReadStr), st);
    } else {
      var st1 := StoreRun(R7, offset, R8, retval, 8, st);
      assert LeBytes(retval, 8) + [] == LeBytes(retval, 8);
      if ret.isNumberPtr {
        MovRun(R3, R(R8), st1);
        var st2 := Set(st1, R3, Num(retval));
        st' := TargetRun(R8, offset + 8, retval, st2);
        RunConcat([move], TargetCode(R8, offset + 8), st1);
        RunConcat([Stx(R7, offset, R8, 8)], [move] + TargetCode(R8, offset + 8), st);
        StoreJoin(st.buf, offset, LeBytes(retval, 8), LeBytes(Load(mem, retval, 8), 8));
      } else {
        st' := st1;
        assert [Stx(R7, offset, R8, 8)] + [] == [Stx(R7, offset, R8, 8)];
      }
    }
  }

  /** How the tracing program calls the writer: arguments, buffer and return value in R1 to R3. */
  predicate Called(st: State, args: seq<u64>, retval: u64, mem: Memory) {
    && st.regs[R1] == Ptr(Args, 0) && st.regs[R2] == Ptr(Buff, 0) && st.regs[R3] == Num(retval)
    && st.regs[FP] == Ptr(Frame, 0) && st.args == args && st.mem == mem
  }

  lemma {:induction false} ExitRun(st: State)
    ensures Run([Exit], st) == Return(st)
  {
  }

  lemma {:induction false} BackupRun(args: seq<u64>, retval: u64, mem: Memory, st: State) returns (st': State)
    requires Called(st, args, retval, mem)
    ensures Run(Backup, st) == Fall(st') && Writing(st', args, retval, mem) && st'.buf == st.buf
  {
    var st1 := Set(st, R6, Ptr(Args, 0));
    var st2 := Set(st1, R7, Ptr(Buff, 0));
    st' := Set(st2, R8, Num(retval));
    RunStraight(Backup, [st, st1, st2, st']);
  }

  /** The generated function stores the values one after the other and nothing else. */
  lemma {:induction false} WriterRun(prms: seq<Param>, ret: Param, withRetval: bool, args: seq<u64>, retval: u64,
                                     mem: Memory, st: State)
    requires Called(st, args, retval, mem) && |prms| <= |args| <= 4095
    requires ParamsSize(prms, |prms|) + MaxOutputStrLen <= MaxOffset
    ensures var o := Run(WriterBody(prms, ret, withRetval) + [Exit], st);
            o.Return? && o.st.buf == StoredAll(prms, ret, withRetval, args, retval, mem, st.buf)
  {
    hide Step, StoreBytes, Written, ParamCode, RetCode;
    var n := ParamsSize(prms, |prms|);
    var params, last := ParamsCode(prms, |prms|), if withRetval then RetCode(ret, n) else [];
    var st1 := BackupRun(args, retval, mem, st);
    var st2 := ParamsRun(prms, |prms|, args, retval, mem, st1);
    var st3 := st2;
    if withRetval {
      st3 := RetRun(ret, n, args, retval, mem, st2);
    }
    RunConcat(Backup, params, st);
    RunConcat(Backup + params, last, st);
    ExitRun(st3);
    RunConcat(WriterBody(prms, ret, withRetval), [Exit], st);
  }

  // The reader -----------------------------------------------------------------------------------

  /** What the reader takes out for one value; `target` is 0 unless the value is a number pointer. */
  datatype Shown = Text(s: seq<byte>) | Value(v: nat, target: nat)

  /** One parameter off the front of `data`, and the rest; None where the slice is too short. */
  function ReadParam(p: Param, data: seq<byte>): (r: Option<(Shown, seq<byte>)>)
    ensures r.Some? <==> ParamSize(p) <= |data|
    ensures r.Some? ==> r.value.1 == data[ParamSize(p)..]
  {
    if |data| < ParamSize(p) then None
    else if p.isStr then Some((Text(NullTerminated(data[..MaxOutputStrLen])), data[MaxOutputStrLen..]))
    else if p.isNumberPtr then Some((Value(FrontDword(data), FrontDword(data[8..])), data[16..]))
    else Some((Value(FrontDword(data), 0), data[8..]))
  }

  lemma {:induction false} ReadParamIs(p: Param, data: seq<byte>, s: Shown, rest: seq<byte>)
    requires |data| >= ParamSize(p)
    requires rest == data[ParamSize(p)..]
    requires s == if p.isStr then Text(NullTerminated(data[..MaxOutputStrLen]))
                  else Value(FrontDword(data), if p.isNumberPtr then FrontDword(data[8..]) else 0)
    ensures ReadParam(p, data) == Some((s, rest))
  {
  }

  /** The parameters from the `i`-th on; `params` counts the parameters of the C prototype, and all
      but its last one make the reader peek at the dword that follows. */
  function ReadParams(prms: seq<Param>, params: nat, i: nat, data: seq<byte>): Option<(seq<Shown>, seq<byte>)>
    requires i <= |prms|
    decreases |prms| - i
  {
    if i == |prms| then Some(([], data))
    else if prms[i].partOfPrevParam then ReadParams(prms, params, i + 1, data)
    else
      match ReadParam(prms[i], data)
      case None => None
      case Some((shown, rest)) =>
        if i + 1 < params && |rest| < 8 then None
        else
          match ReadParams(prms, params, i + 1, rest)
          case None => None
          case Some((more, end)) => Some(([shown] + more, end))
  }

  /** The return value: a string, or the first two dwords of what is left, zeros where it ends. */
  function ReadRet(ret: Param, data: seq<byte>): Option<Shown> {
    if ret.isStr then
      if |data| < MaxOutputStrLen then None else Some(Text(NullTerminated(data[..MaxOutputStrLen])))
    else
      var b := Padded(data);
      Some(Value(FrontDword(b), FrontDword(b[8..])))
  }

  function Padded(data: seq<byte>): (b: seq<byte>)
    ensures |b| == 24
  {
    seq(24, i requires 0 <= i < 24 => if i < |data| then data[i] else 0)
  }

  method OutputFnArgs(prms: seq<Param>, params: nat, ret: Param, withRetval: bool, data0: seq<byte>)
    returns (shown: Option<(seq<Shown>, Option<Shown>)>)
    ensures match ReadParams(prms, params, 0, data0)
            case None => shown == None
            case Some((args, rest)) =>
              if !withRetval then shown == Some((args, None))
              else if ReadRet(ret, rest).None? then shown == None
              else shown == Some((args, ReadRet(ret, rest)))
  {
    hide ReadRet, ReadParam;
    var data := data0;
    var args := [];
    var i := 0;
    assert forall more: seq<Shown> :: [] + more == more;
    while i < |prms|
      invariant i <= |prms|
      invariant ReadParams(prms, params, 0, data0) ==
                match ReadParams(prms, params, i, data)
                case None => None
                case Some((more, end)) => Some((args + more, end))
    {
      var param := prms[i];
      if param.partOfPrevParam {
        i := i + 1;
        continue;
      }
      if |data| < ParamSize(param) {
        return None;
      }
      ghost var data1 := data;
      var s: Shown;
      if param.isStr {
        s, data := Text(NullTerminated(data[..MaxOutputStrLen])), data[MaxOutputStrLen..];
      } else {
        var v := FrontDword(data);
        data := data[8..];
        var target := 0;
        if param.isNumberPtr {
          target, data := FrontDword(data), data[8..];
        }
        s := Value(v, target);
      }
      assert ReadParam(param, data1) == Some((s, data)) by {
        ReadParamIs(param, data1, s, data);
      }
      if i + 1 < params && |data| < 8 {
        return None;
      }
      ghost var args1 := args;
      args := args + [s];
      assert forall more: seq<Shown> :: args1 + ([s] + more) == args + more;
      i := i + 1;
    }
    assert args + [] == args;
    if !withRetval {
      return Some((args, None));
    }
    var r := ReadRet(ret, data);
    if r == None {
      return None;
    }
    return Some((args, r));
  }

  // Round trip -----------------------------------------------------------------------------------

  /** What should be shown of a value. */
  function Expected(p: Param, v: u64, mem: Memory): Shown {
    if p.isStr then Text(NullTerminated(ReadStr(mem, v, MaxOutputStrLen)))
    else Value(v, if p.isNumberPtr then Load(mem, v, 8) else 0)
  }

  function ExpectedFrom(prms: seq<Param>, args: seq<u64>, mem: Memory, i: nat): seq<Shown>
    requires i <= |prms| <= |args|
    decreases |prms| - i
  {
    if i == |prms| then [] else [Expected(prms[i], args[i], mem)] + ExpectedFrom(prms, args, mem, i + 1)
  }

  /** What the user sees of a value: a string up to 63 characters, a number, or a number and what it points to. */
  ghost predicate ShownAs(p: Param, v: u64, mem: Memory, s: Shown) {
    if p.isStr then s.Text? && TextAt(mem, v, 64, s.s)
    else s == Value(v, if p.isNumberPtr then Load(mem, v, 8) else 0)
  }

  lemma {:induction false} ExpectedShown(p: Param, v: u64, mem: Memory)
    ensures ShownAs(p, v, mem, Expected(p, v, mem))
  {
    TextShown(mem, v, 64);
  }

  lemma {:induction false} ExpectedFromShown(prms: seq<Param>, args: seq<u64>, mem: Memory, i: nat)
    requires i <= |prms| <= |args|
    ensures |ExpectedFrom(prms, args, mem, i)| == |prms| - i
    ensures forall j :: i <= j < |prms| ==> ShownAs(prms[j], args[j], mem, ExpectedFrom(prms, args, mem, i)[j - i])
    decreases |prms| - i
  {
    hide ShownAs, Expected;
    if i < |prms| {
      ExpectedShown(prms[i], args[i], mem);
      ExpectedFromShown(prms, args, mem, i + 1);
    }
  }

  lemma {:induction false} SizesMonotone(prms: seq<Param>, i: nat, n: nat)
    requires i <= n <= |prms|
    ensures ParamsSize(prms, i) <= ParamsSize(prms, n)
    ensures i < n ==> ParamsSize(prms, i) + ParamSize(prms[i]) <= ParamsSize(prms, n)
  {
    if i < n {
      SizesMonotone(prms, i, n - 1);
    }
  }

  /** Every parameter's bytes are still there when all are written. */
  lemma {:induction false} StoredContains(prms: seq<Param>, args: seq<u64>, mem: Memory, n: nat,
                                          buf: map<int, byte>, i: nat)
    requires i < n <= |prms| <= |args|
    ensures Contains(Stored(prms, args, mem, n, buf), ParamsSize(prms, i), Written(prms[i], args[i], mem))
  {
    hide Written, Contains, StoreBytes;
    SizesMonotone(prms, i, n - 1);
    var before, at := Stored(prms, args, mem, n - 1, buf), ParamsSize(prms, n - 1);
    var last, bs := Written(prms[n - 1], args[n - 1], mem), Written(prms[i], args[i], mem);
    assert Stored(prms, args, mem, n, buf) == StoreBytes(before, at, last);
    if i == n - 1 {
      ContainsNow(before, at, last);
    } else {
      StoredContains(prms, args, mem, n - 1, buf, i);
      ContainsBefore(before, at, last, ParamsSize(prms, i), bs);
    }
  }

  lemma {:induction false} StoredPresent(prms: seq<Param>, args: seq<u64>, mem: Memory, n: nat, buf: map<int, byte>,
                                         size: nat)
    requires n <= |prms| <= |args| && Present(buf, 0, size)
    ensures Present(Stored(prms, args, mem, n, buf), 0, size)
  {
    hide Written;
    if n > 0 {
      StoredPresent(prms, args, mem, n - 1, buf, size);
    }
  }

  /** A value written at the front of a slice is read back. */
  lemma {:induction false} ReadWritten(p: Param, v: u64, mem: Memory, data: seq<byte>)
    requires |data| >= ParamSize(p) && Written(p, v, mem) <= data
    ensures ReadParam(p, data) == Some((Expected(p, v, mem), data[ParamSize(p)..]))
  {
    var bs := Written(p, v, mem);
    if p.isStr {
      ReadStrTerminated(mem, v, MaxOutputStrLen);
      assert data[..MaxOutputStrLen] == bs + data[|bs|..MaxOutputStrLen];
      TerminatedPrefix(bs, data[|bs|..MaxOutputStrLen]);
    } else {
      DwordRoundTrip(v);
      assert data[..8] == bs[..8] == LeBytes(v, 8);
      if p.isNumberPtr {
        DwordRoundTrip(Load(mem, v, 8));
        assert data[8..][..8] == bs[8..] == LeBytes(Load(mem, v, 8), 8);
      }
    }
  }

  /** Without parameters split over two registers, every value is read back, in order. */
  lemma {:induction false} ParamsReadBack(prms: seq<Param>, args: seq<u64>, mem: Memory, i: nat, data: seq<byte>)
    requires i <= |prms| <= |args|
    requires forall j :: 0 <= j < |prms| ==> !prms[j].partOfPrevParam
    requires |data| >= ParamsSize(prms, |prms|)
    requires forall j :: i <= j < |prms| ==>
               ParamsSize(prms, j) + |Written(prms[j], args[j], mem)| <= |data| &&
               Written(prms[j], args[j], mem) <= data[ParamsSize(prms, j)..]
    ensures ParamsSize(prms, i) <= |data|
    ensures ReadParams(prms, |prms|, i, data[ParamsSize(prms, i)..]) ==
            Some((ExpectedFrom(prms, args, mem, i), data[ParamsSize(prms, |prms|)..]))
    decreases |prms| - i
  {
    hide Written, Expected, ReadParam, ParamsSize;
    SizesMonotone(prms, i, |prms|);
    if i < |prms| {
      ParamsReadBack(prms, args, mem, i + 1, data);
      ReadNext(prms, args, mem, i, data);
    }
  }

  /** One parameter is read, and enough follows for the reader to look ahead. */
  lemma {:induction false} ReadNext(prms: seq<Param>, args: seq<u64>, mem: Memory, i: nat, data: seq<byte>)
    requires i < |prms| <= |args| && |data| >= ParamsSize(prms, |prms|)
    requires ParamsSize(prms, i) <= |data| && Written(prms[i], args[i], mem) <= data[ParamsSize(prms, i)..]
    ensures ParamsSize(prms, i) <= ParamsSize(prms, i + 1) <= |data|
    ensures ReadParam(prms[i], data[ParamsSize(prms, i)..]) ==
            Some((Expected(prms[i], args[i], mem), data[ParamsSize(prms, i + 1)..]))
    ensures i + 1 < |prms| ==> |data[ParamsSize(prms, i + 1)..]| >= 8
  {
    hide Written, Expected, ReadParam;
    SizesMonotone(prms, i + 1, |prms|);
    ReadWritten(prms[i], args[i], mem, data[ParamsSize(prms, i)..]);
    DropMore(data, ParamsSize(prms, i), ParamSize(prms[i]));
  }

  lemma {:induction false} DropMore(data: seq<byte>, a: nat, b: nat)
    requires a + b <= |data|
    ensures data[a..][b..] == data[a + b..]
  {
  }

  lemma {:induction false} StoredOutside(prms: seq<Param>, args: seq<u64>, mem: Memory, n: nat, buf: map<int, byte>,
                                         o: int)
    requires n <= |prms| <= |args| && (o < 0 || ParamsSize(prms, n) <= o)
    ensures var after := Stored(prms, args, mem, n, buf); (o in after <==> o in buf) && (o in buf ==> after[o] == buf[o])
  {
    hide Written;
    if n > 0 {
      SizesMonotone(prms, n - 1, n);
      StoredOutside(prms, args, mem, n - 1, buf, o);
    }
  }

  /** `buf` holds the bytes of every parameter and of the return value. */
  ghost predicate Complete(prms: seq<Param>, ret: Param, withRetval: bool, args: seq<u64>, retval: u64, mem: Memory,
                           buf: map<int, byte>)
    requires |prms| <= |args|
  {
    && Present(buf, 0, TotalSize(prms, ret, withRetval))
    && (forall i :: 0 <= i < |prms| ==> Contains(buf, ParamsSize(prms, i), Written(prms[i], args[i], mem)))
    && (withRetval ==> Contains(buf, ParamsSize(prms, |prms|), Written(ret, retval, mem)))
  }

  lemma {:induction false} StoredAllIs(prms: seq<Param>, ret: Param, withRetval: bool, args: seq<u64>, retval: u64,
                                       mem: Memory, buf: map<int, byte>)
    requires |prms| <= |args| && Present(buf, 0, TotalSize(prms, ret, withRetval))
    ensures var after := StoredAll(prms, ret, withRetval, args, retval, mem, buf);
            && Complete(prms, ret, withRetval, args, retval, mem, after)
            && forall o :: o < 0 || TotalSize(prms, ret, withRetval) <= o ==>
                 (o in after <==> o in buf) && (o in buf ==> after[o] == buf[o])
  {
    hide Written, Contains;
    var n, size := ParamsSize(prms, |prms|), TotalSize(prms, ret, withRetval);
    var params := Stored(prms, args, mem, |prms|, buf);
    var after := StoredAll(prms, ret, withRetval, args, retval, mem, buf);
    StoredPresent(prms, args, mem, |prms|, buf, size);
    forall o | o < 0 || size <= o
      ensures (o in after <==> o in buf) && (o in buf ==> after[o] == buf[o])
    {
      StoredOutside(prms, args, mem, |prms|, buf, o);
    }
    forall i | 0 <= i < |prms|
      ensures Contains(after, ParamsSize(prms, i), Written(prms[i], args[i], mem))
    {
      StoredContains(prms, args, mem, |prms|, buf, i);
      SizesMonotone(prms, i, |prms|);
      if withRetval {
        ContainsBefore(params, n, Written(ret, retval, mem), ParamsSize(prms, i), Written(prms[i], args[i], mem));
      }
    }
    if withRetval {
      ContainsNow(params, n, Written(ret, retval, mem));
    }
  }

  lemma {:induction false} AllReadBack(prms: seq<Param>, ret: Param, withRetval: bool, args: seq<u64>, retval: u64,
                                       mem: Memory, buf: map<int, byte>)
    requires |prms| <= |args| && Complete(prms, ret, withRetval, args, retval, mem, buf)
    requires forall j :: 0 <= j < |prms| ==> !prms[j].partOfPrevParam
    ensures match ReadParams(prms, |prms|, 0, Bytes(buf, 0, TotalSize(prms, ret, withRetval)))
            case None => false
            case Some((shown, rest)) =>
              && shown == ExpectedFrom(prms, args, mem, 0)
              && (withRetval ==> ReadRet(ret, rest) == Some(Expected(ret, retval, mem)))
  {
    hide Written, Contains, ReadParams, ReadRet, Expected;
    var n, size := ParamsSize(prms, |prms|), TotalSize(prms, ret, withRetval);
    var data := Bytes(buf, 0, size);
    forall j | 0 <= j < |prms|
      ensures ParamsSize(prms, j) + |Written(prms[j], args[j], mem)| <= |data|
      ensures Written(prms[j], args[j], mem) <= data[ParamsSize(prms, j)..]
    {
      SizesMonotone(prms, j, |prms|);
      SlicePrefix(buf, size, ParamsSize(prms, j), Written(prms[j], args[j], mem));
    }
    ParamsReadBack(prms, args, mem, 0, data);
    assert data[ParamsSize(prms, 0)..] == data;
    if withRetval {
      SlicePrefix(buf, size, n, Written(ret, retval, mem));
      RetReadBack(ret, retval, mem, data[n..]);
    }
  }

  lemma {:induction false} RetReadBack(ret: Param, v: u64, mem: Memory, data: seq<byte>)
    requires |data| == ParamSize(ret) && Written(ret, v, mem) <= data
    ensures ReadRet(ret, data) == Some(Expected(ret, v, mem))
  {
    ReadWritten(ret, v, mem, data);
    if !ret.isStr {
      var b := Padded(data);
      assert b[..8] == data[..8];
      if ret.isNumberPtr {
        assert b[8..][..8] == data[8..][..8];
      } else {
        LeValZeros(b[8..][..8]);
      }
    }
  }

  /** Running the generated writer and reading its buffer gives every parameter and the return value
      back, in order; exactly the returned number of bytes is touched. */
  lemma {:induction false} FuncArgsRoundTrip(prms: seq<Param>, ret: Param, withRetval: bool, args: seq<u64>,
                                             retval: u64, mem: Memory, st: State)
    requires Called(st, args, retval, mem) && |prms| <= |args| <= 4095
    requires ParamsSize(prms, |prms|) + MaxOutputStrLen <= MaxOffset
    requires forall j :: 0 <= j < |prms| ==> !prms[j].partOfPrevParam
    requires Present(st.buf, 0, TotalSize(prms, ret, withRetval))
    ensures var o := Run(WriterBody(prms, ret, withRetval) + [Exit], st);
            var size := TotalSize(prms, ret, withRetval);
            && o.Return? && Present(o.st.buf, 0, size)
            && (forall a :: a < 0 || size <= a ==> (a in o.st.buf <==> a in st.buf) && (a in st.buf ==> o.st.buf[a] == st.buf[a]))
            && match ReadParams(prms, |prms|, 0, Bytes(o.st.buf, 0, size))
               case None => false
               case Some((shown, rest)) =>
                 && |shown| == |prms| && (forall i :: 0 <= i < |prms| ==> ShownAs(prms[i], args[i], mem, shown[i]))
                 && (withRetval ==> ReadRet(ret, rest).Some? && ShownAs(ret, retval, mem, ReadRet(ret, rest).value))
  {
    hide ShownAs, Expected, ExpectedFrom;
    ExpectedFromShown(prms, args, mem, 0);
    ExpectedShown(ret, retval, mem);
    hide Run, Written, ReadParams, ReadRet, WriterBody;
    WriterRun(prms, ret, withRetval, args, retval, mem, st);
    var buf := StoredAll(prms, ret, withRetval, args, retval, mem, st.buf);
    StoredAllIs(prms, ret, withRetval, args, retval, mem, st.buf);
    AllReadBack(prms, ret, withRetval, args, retval, mem, buf);
  }

  /** The bytes the reader consumes: a parameter that is part of the previous one is skipped. */
  function Consumed(prms: seq<Param>, n: nat): nat
    requires n <= |prms|
  {
    if n == 0 then 0 else Consumed(prms, n - 1) + (if prms[n - 1].partOfPrevParam then 0 else ParamSize(prms[n - 1]))
  }

  lemma {:induction false} ConsumedRest(prms: seq<Param>, params: nat, i: nat, data: seq<byte>, at: nat)
    requires i <= |prms| && at <= |data| && Consumed(prms, i) == at
    requires ReadParams(prms, params, i, data[at..]).Some?
    ensures Consumed(prms, |prms|) <= |data|
    ensures ReadParams(prms, params, i, data[at..]).value.1 == data[Consumed(prms, |prms|)..]
    decreases |prms| - i
  {
    if i < |prms| {
      if prms[i].partOfPrevParam {
        ConsumedRest(prms, params, i + 1, data, at);
      } else {
        assert data[at..][ParamSize(prms[i])..] == data[at + ParamSize(prms[i])..];
        ConsumedRest(prms, params, i + 1, data, at + ParamSize(prms[i]));
      }
    }
  }

  lemma {:induction false} ConsumedIff(prms: seq<Param>, n: nat)
    requires n <= |prms|
    ensures Consumed(prms, n) <= ParamsSize(prms, n)
    ensures Consumed(prms, n) == ParamsSize(prms, n) <==> forall j :: 0 <= j < n ==> !prms[j].partOfPrevParam
  {
    if n > 0 {
      ConsumedIff(prms, n - 1);
    }
  }

  /** The reader finds what follows the parameters where the writer put it exactly when no parameter
      is the second half of a struct passed in two registers. */
  lemma {:induction false} ReaderInStepIff(prms: seq<Param>, params: nat, data: seq<byte>)
    requires ReadParams(prms, params, 0, data).Some?
    ensures |data| - |ReadParams(prms, params, 0, data).value.1| == ParamsSize(prms, |prms|) <==>
            forall j :: 0 <= j < |prms| ==> !prms[j].partOfPrevParam
    ensures var rest := ReadParams(prms, params, 0, data).value.1; |rest| <= |data| && rest == data[|data| - |rest|..]
  {
    assert data[0..] == data;
    ConsumedRest(prms, params, 0, data, 0);
    ConsumedIff(prms, |prms|);
  }
}
