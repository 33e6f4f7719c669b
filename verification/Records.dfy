/** Output records: the generated function evaluates a list of expressions and lays their values out
    in a buffer, each record ending in a flag byte that says whether a null pointer was met; the Go
    reader takes them apart again. */
module Records {
  import opened Words
  import opened Machine
  import opened Types
  import opened Chains
  import opened Operators
  import opened OperatorRuns
  import opened Backends
  import opened Codegen
  import opened Correctness
  import opened Filter
  import opened Compiler
  import opened Buffers
  import Discipline

  // Requests -------------------------------------------------------------------------------------

  /** An expression to output. `text` says that its type is `const char *` or a `char` array; a
      Buffer comes from a built-in call such as buf(), str() or pkt(), with its offset and size. */
  datatype Request =
    | Plain(e: Expr, text: bool)
    | Buffer(e: Expr, off: int, size: nat, str: bool)
    | Sampled(e: Expr)

  /** What a record holds in front of its flag. Sample is a value for a histogram or a t-digest. */
  datatype Layout =
    | Deref(size: nat)
    | Block(off: int, size: nat, str: bool)
    | TextOf(size: nat, checked: bool)
    | Scalar
    | ScalarPtr
    | Sample

  function DataSize(l: Layout): nat {
    match l
    case Deref(n) => n
    case Block(_, n, _) => n
    case TextOf(n, _) => n
    case Scalar | Sample => 8
    case ScalarPtr => 16
  }

  function RecordSize(l: Layout): nat {
    DataSize(l) + 1
  }

  predicate IsNumberPointer(t: Ty) {
    var u := Underlying(t);
    u.Pointer? && IsIntOrEnum(u.target)
  }

  function DefaultLayout(spec: Spec, ty: Ty, mem: Option<Field>, text: bool, sampled: bool): Option<Layout> {
    match SizeOf(spec, ty)
    case None => None
    case Some(size) =>
      if text then Some(if Underlying(ty).Array? then TextOf(Underlying(ty).count, false) else TextOf(MaxOutputStrLen, true))
      else if size == 0 || size > 8 || (mem.Some? && mem.value.bits > 64) then None
      else Some(if sampled then Sample else if IsNumberPointer(ty) then ScalarPtr else Scalar)
  }

  /** The layout of a request whose expression evaluates to `v`; None where it is rejected. */
  function LayoutOf(spec: Spec, req: Request, v: Value): Option<Layout> {
    match v
    case VReg(_, ty, mem) =>
      (match req
       case Plain(e, text) =>
         if !e.Indir? then DefaultLayout(spec, ty, mem, text, false)
         else if IsBitfield(mem) || !Underlying(ty).Pointer? || SizeOrZero(spec, Underlying(ty).target) == 0 then None
         else Some(Deref(SizeOrZero(spec, Underlying(ty).target)))
       case Buffer(_, off, size, str) =>
         if IsBitfield(mem) || !IsPointerLike(ty) || SizeOf(spec, ty).None? then None else Some(Block(off, size, str))
       case Sampled(_) =>
         if IsBitfield(mem) || !Underlying(ty).Int? then None else DefaultLayout(spec, ty, mem, false, true))
    case _ => None
  }

  // Code -----------------------------------------------------------------------------------------

  /** The value itself is checked before it is followed. */
  predicate Checks(l: Layout) {
    l.Deref? || l.Block? || (l.TextOf? && l.checked)
  }

  function NullCheck(l: Layout, reg: Reg, target: Label): seq<Instr> {
    if Checks(l) then [JmpLabel(Eq, reg, Imm(0), target)] else []
  }

  /** Writing what a number points to, or zero in its place. */
  function PointedCode(offset: int): seq<Instr> {
    [Jmp(Eq, R3, Imm(0), 5), Mov(R2, Imm(8)), Mov(R1, R(R8)), Alu(Add, R1, Imm(offset)), Call(ProbeRead), Ja(1),
     Stx(R8, offset, R3, 8)]
  }

  /** The code after the evaluation and the check. */
  function WriteCode(l: Layout, reg: Reg, offset: int): seq<Instr> {
    match l
    case Deref(n) => MovUnlessSame(R3, reg) + ReadCode(R8, offset, n, ProbeRead)
    case Block(off, n, str) =>
      AddUnlessZero(reg, off) + MovUnlessSame(R3, reg) + ReadCode(R8, offset, n, if str then ProbeReadStr else ProbeRead)
    case TextOf(n, _) => MovUnlessSame(R3, reg) + ReadCode(R8, offset, n, ProbeReadStr)
    case Scalar | Sample => [Stx(R8, offset, reg, 8)]
    case ScalarPtr => [Stx(R8, offset, reg, 8)] + MovUnlessSame(R3, reg) + PointedCode(offset + 8)
  }

  function FlagCode(labelled: bool, at: int): seq<Instr> {
    if labelled then [Mov(R0, Imm(0)), Ja(1), Mov(R0, Imm(1)), Stx(R8, at, R0, 1)]
    else [Mov(R0, Imm(0)), Stx(R8, at, R0, 1)]
  }

  function Retarget(i: Instr, target: Label): Instr {
    if i.JmpLabel? then i.(target := target) else i
  }

  /** The exit label of the compiler is a different one for every record. */
  function Relabel(code: seq<Instr>, target: Label): seq<Instr> {
    seq(|code|, i requires 0 <= i < |code| => Retarget(code[i], target))
  }

  /** A compiled request: its code, the place of its exit label if it needs one, and its layout. */
  datatype Output = Output(insns: seq<Instr>, exit: Option<nat>, layout: Layout)

  const OutputUsed: set<Reg> := {R8, R9}

  /** Evaluation and check, up to where the data is written. */
  function HeadCode(o: Out, l: Layout, target: Label): seq<Instr> {
    Relabel(o.code, target) + NullCheck(l, RegOf(o.val), target)
  }

  function Labelled(o: Out, l: Layout): bool {
    o.exits || Checks(l)
  }

  function OutputCode(o: Out, l: Layout, offset: int, target: Label): seq<Instr> {
    HeadCode(o, l, target) + WriteCode(l, RegOf(o.val), offset) + FlagCode(Labelled(o, l), offset + DataSize(l))
  }

  /** The expression that is evaluated. */
  function Subject(req: Request): Expr {
    Evaluating(req.e, !req.Plain?)
  }

  function CompileOutput(cfg: Config, req: Request, offset: int, target: Label): Option<Output>
    requires |cfg.vars| == |cfg.tys|
  {
    match Compile(cfg, Subject(req), OutputUsed)
    case None => None
    case Some(o) =>
      match LayoutOf(cfg.spec, req, o.val)
      case None => None
      case Some(l) =>
        var code := OutputCode(o, l, offset, target);
        Some(Output(code, if Labelled(o, l) then Some(|code| - 2) else None, l))
  }

  /** All requests in order; the labels are numbered from `target` on. */
  function CompileOutputs(cfg: Config, reqs: seq<Request>, offset: nat, target: Label): Option<seq<Output>>
    requires |cfg.vars| == |cfg.tys|
  {
    if reqs == [] then Some([])
    else
      match CompileOutput(cfg, reqs[0], offset, target)
      case None => None
      case Some(o) =>
        match CompileOutputs(cfg, reqs[1..], offset + RecordSize(o.layout), target + 1)
        case None => None
        case Some(more) => Some([o] + more)
  }

  // What one record holds ------------------------------------------------------------------------

  /** The bytes written for the value `v`; a string may leave the rest of its field alone. */
  function DataBytes(l: Layout, v: u64, mem: Memory): (bs: seq<byte>)
    ensures |bs| <= DataSize(l)
  {
    match l
    case Deref(n) => ReadBytes(mem, v, n)
    case Block(off, n, str) => HelperBytes(if str then ProbeReadStr else ProbeRead, mem, Advance(v, off), n)
    case TextOf(n, _) => ReadStr(mem, v, n)
    case Scalar | Sample => LeBytes(v, 8)
    case ScalarPtr => LeBytes(v, 8) + (if v == 0 then LeBytes(0, 8) else ReadBytes(mem, v, 8))
  }

  /** The value to write, or Null when a null pointer was met during the evaluation or by the check. */
  function Checked(l: Layout, res: Res): Res {
    match res
    case Null => Null
    case Val(v) => if Checks(l) && v == 0 then Null else Val(v)
  }

  /** The buffer after one record: data and flag 0, or flag 1 alone. */
  function Recorded(l: Layout, res: Res, offset: int, mem: Memory, buf: map<int, byte>): map<int, byte> {
    match Checked(l, res)
    case Null => StoreBytes(buf, offset + DataSize(l), [1])
    case Val(v) => StoreBytes(StoreBytes(buf, offset, DataBytes(l, v, mem)), offset + DataSize(l), [0])
  }

  // Running one record ---------------------------------------------------------------------------

  /** R8 is the buffer; R9, R10, arguments and memory are as the expression compiler expects them. */
  ghost predicate Writing(st: State, env: Env) {
    Ready(st, env) && st.regs[R8] == Ptr(Buff, 0)
  }

  lemma {:induction false} RelabelRun(code: seq<Instr>, target: Label, pc: nat, st: State)
    requires pc <= |code|
    ensures Exec(Relabel(code, target), map[], pc, st) ==
            match Exec(code, map[], pc, st)
            case Leave(_, st') => Leave(target, st')
            case o => o
    decreases |code| - pc
  {
    hide Step;
    if pc < |code| {
      RetargetStep(code[pc], target, st);
      match Step(code[pc], st)
      case Go(st') => RelabelRun(code, target, pc + 1, st');
      case Over(n, st') =>
        if pc + 1 + n <= |code| {
          RelabelRun(code, target, pc + 1 + n, st');
        }
      case Goto(_, _) =>
      case Halt(_) =>
      case Wrong =>
    }
  }

  lemma {:induction false} RetargetStep(i: Instr, target: Label, st: State)
    ensures Step(Retarget(i, target), st) ==
            match Step(i, st)
            case Goto(_, st') => Goto(target, st')
            case n => n
  {
  }

  lemma {:induction false} NullCheckRun(l: Layout, reg: Reg, target: Label, v: u64, st: State)
    requires st.regs[reg] == Num(v)
    ensures Run(NullCheck(l, reg, target), st) == if Checks(l) && v == 0 then Leave(target, st) else Fall(st)
  {
    if Checks(l) {
      var jmp := JmpLabel(Eq, reg, Imm(0), target);
      assert Step(jmp, st) == if v == 0 then Goto(target, st) else Go(st);
      assert Exec([jmp], map[], 1, st) == Fall(st);
    } else {
      EmptyRun(st);
    }
  }

  /** The head ends where the data is written, or at the label exactly when the value is Null. */
  lemma {:induction false} HeadRun(o: Out, l: Layout, target: Label, res: Res, st: State)
    requires o.val.VReg? && Done(Run(o.code, st), st, OutputUsed, o.val, res)
    ensures match Run(HeadCode(o, l, target), st)
            case Fall(st') =>
              Checked(l, res).Val? && Preserves(st, st', OutputUsed) && st'.regs[o.val.reg] == Num(Checked(l, res).v)
            case Leave(t, st') => t == target && Checked(l, res) == Null && Preserves(st, st', OutputUsed)
            case _ => false
  {
    hide Step;
    RelabelRun(o.code, target, 0, st);
    var eval := Relabel(o.code, target);
    if res.Val? {
      NullCheckRun(l, o.val.reg, target, res.v, Run(eval, st).st);
    }
    RunConcat(eval, NullCheck(l, o.val.reg, target), st);
  }

  /** The data is written, and nothing else that matters changes. */
  ghost predicate Wrote(st: State, st': State, buf: map<int, byte>) {
    && st' == st.(regs := st'.regs, buf := buf)
    && st'.regs[R8] == st.regs[R8] && st'.regs[R9] == st.regs[R9] && st'.regs[FP] == st.regs[FP]
  }

  lemma {:induction false} FollowRun(reg: Reg, offset: nat, n: nat, helper: Helper, a: u64, st: State)
    returns (st': State)
    requires st.regs[reg] == Num(a) && st.regs[R8] == Ptr(Buff, 0)
    requires helper == ProbeRead || helper == ProbeReadStr
    requires offset + n <= MaxOffset
    ensures Run(MovUnlessSame(R3, reg) + ReadCode(R8, offset, n, helper), st) == Fall(st')
    ensures Wrote(st, st', StoreBytes(st.buf, offset, HelperBytes(helper, st.mem, a, n)))
  {
    hide Step, StoreBytes, HelperBytes, ReadCode;
    var st1 := MovUnlessSameRun(R3, reg, st);
    st' := ReadCodeRun(R8, offset, n, helper, a, st1);
    RunConcat(MovUnlessSame(R3, reg), ReadCode(R8, offset, n, helper), st);
  }

  /** The jump over five instructions takes a null pointer to the store of the zero in R3. */
  lemma {:induction false} PointedRun(offset: nat, v: u64, st: State) returns (st': State)
    requires st.regs[R3] == Num(v) && st.regs[R8] == Ptr(Buff, 0) && 0 < offset && offset + 8 <= MaxOffset
    ensures Run(PointedCode(offset), st) == Fall(st')
    ensures Wrote(st, st', StoreBytes(st.buf, offset, if v == 0 then LeBytes(0, 8) else ReadBytes(st.mem, v, 8)))
  {
    hide StoreBytes, ReadBytes, LeBytes;
    var code := PointedCode(offset);
    if v == 0 {
      st' := st.(buf := StoreBytes(st.buf, offset, LeBytes(0, 8)));
      assert Step(code[0], st) == Over(5, st);
      assert Step(code[6], st) == Go(st');
      assert Exec(code, map[], 7, st') == Fall(st');
      assert Exec(code, map[], 6, st) == Fall(st');
    } else {
      var inner := ReadCode(R8, offset, 8, ProbeRead);
      st' := ReadCodeRun(R8, offset, 8, ProbeRead, v, st);
      assert Step(code[0], st) == Go(st);
      assert code[1..5] == inner;
      PointedMiddle(code, inner, st, st');
    }
  }

  lemma {:induction false} PointedMiddle(code: seq<Instr>, inner: seq<Instr>, st: State, st': State)
    requires |code| == 7 && code[1..5] == inner && code[5] == Ja(1)
    requires Step(code[0], st) == Go(st) && Run(inner, st) == Fall(st')
    ensures Run(code, st) == Fall(st')
  {
    assert Step(code[5], st') == Over(1, st');
    hide Step;
    assert Exec(code, map[], 7, st') == Fall(st');
    assert Exec(code, map[], 5, st') == Fall(st');
    ExecPlaced(inner, map[], code, map[], 1, 0, st);
  }

  lemma {:induction false} WriteRun(l: Layout, reg: Reg, offset: nat, v: u64, st: State) returns (st': State)
    requires st.regs[reg] == Num(v) && st.regs[R8] == Ptr(Buff, 0) && reg <= 7
    requires offset + DataSize(l) <= MaxOffset
    ensures Run(WriteCode(l, reg, offset), st) == Fall(st')
    ensures Wrote(st, st', StoreBytes(st.buf, offset, DataBytes(l, v, st.mem)))
  {
    hide Step, StoreBytes, ReadBytes, ReadStr, ReadCode, MovUnlessSame, AddUnlessZero;
    match l
    case Deref(n) => st' := FollowRun(reg, offset, n, ProbeRead, v, st);
    case Block(off, n, str) =>
      var helper := if str then ProbeReadStr else ProbeRead;
      var st1 := AddUnlessZeroRun(reg, off, v, st);
      st' := FollowRun(reg, offset, n, helper, Advance(v, off), st1);
      RunConcat(AddUnlessZero(reg, off), MovUnlessSame(R3, reg) + ReadCode(R8, offset, n, helper), st);
      assert AddUnlessZero(reg, off) + (MovUnlessSame(R3, reg) + ReadCode(R8, offset, n, helper)) == WriteCode(l, reg, offset);
    case TextOf(n, _) => st' := FollowRun(reg, offset, n, ProbeReadStr, v, st);
    case Scalar => st' := StoreRun(R8, offset, reg, v, 8, st);
    case Sample => st' := StoreRun(R8, offset, reg, v, 8, st);
    case ScalarPtr => st' := ScalarPtrRun(reg, offset, v, st);
  }

  lemma {:induction false} ScalarPtrRun(reg: Reg, offset: nat, v: u64, st: State) returns (st': State)
    requires st.regs[reg] == Num(v) && st.regs[R8] == Ptr(Buff, 0) && reg <= 7 && offset + 16 <= MaxOffset
    ensures Run(WriteCode(ScalarPtr, reg, offset), st) == Fall(st')
    ensures Wrote(st, st', StoreBytes(st.buf, offset, DataBytes(ScalarPtr, v, st.mem)))
  {
    hide Step, StoreBytes, ReadBytes, LeBytes, MovUnlessSame, PointedCode;
    var st1 := StoreRun(R8, offset, reg, v, 8, st);
    var st2 := MovUnlessSameRun(R3, reg, st1);
    st' := PointedRun(offset + 8, v, st2);
    RunConcat(MovUnlessSame(R3, reg), PointedCode(offset + 8), st1);
    RunConcat([Stx(R8, offset, reg, 8)], MovUnlessSame(R3, reg) + PointedCode(offset + 8), st);
    assert [Stx(R8, offset, reg, 8)] + (MovUnlessSame(R3, reg) + PointedCode(offset + 8)) == WriteCode(ScalarPtr, reg, offset);
    StoreJoin(st.buf, offset, LeBytes(v, 8), if v == 0 then LeBytes(0, 8) else ReadBytes(st.mem, v, 8));
  }

  /** From the end of the data the flag is 0, from the label it is 1. */
  lemma {:induction false} FlagRun(code: seq<Instr>, labels: map<Label, nat>, labelled: bool, at: nat, flag: bool,
                                   st: State) returns (st': State)
    requires |code| >= |FlagCode(labelled, at)| && code[|code| - |FlagCode(labelled, at)|..] == FlagCode(labelled, at)
    requires st.regs[R8] == Ptr(Buff, 0) && at <= MaxOffset && (flag ==> labelled)
    ensures Exec(code, labels, if flag then |code| - 2 else |code| - |FlagCode(labelled, at)|, st) == Fall(st')
    ensures Wrote(st, st', StoreBytes(st.buf, at, [if flag then 1 else 0]))
  {
    hide StoreBytes, AluWord, LoadWord, CallHelper;
    var n := |code|;
    var b: byte := if flag then 1 else 0;
    var st1 := Set(st, R0, Num(b));
    var tail := code[n - |FlagCode(labelled, at)|..];
    assert code[n - 1] == tail[|tail| - 1];
    st' := FlagStored(code, labels, at, b, st1);
    if flag {
      assert code[n - 2] == tail[2];
      FlagSet(code, labels, n - 2, b, st);
    } else if labelled {
      assert code[n - 4] == tail[0] && code[n - 3] == tail[1];
      FlagSet(code, labels, n - 4, b, st);
      assert Step(code[n - 3], st1) == Over(1, st1);
    } else {
      assert code[n - 2] == tail[0];
      FlagSet(code, labels, n - 2, b, st);
    }
  }

  lemma {:induction false} FlagSet(code: seq<Instr>, labels: map<Label, nat>, pc: nat, b: byte, st: State)
    requires pc < |code| && code[pc] == Mov(R0, Imm(b))
    ensures Exec(code, labels, pc, st) == Exec(code, labels, pc + 1, Set(st, R0, Num(b)))
  {
    assert Step(code[pc], st) == Go(Set(st, R0, Num(b)));
  }

  lemma {:induction false} FlagStored(code: seq<Instr>, labels: map<Label, nat>, at: nat, b: byte, st: State)
    returns (st': State)
    requires code != [] && code[|code| - 1] == Stx(R8, at, R0, 1)
    requires st.regs[R0] == Num(b) && st.regs[R8] == Ptr(Buff, 0) && at <= MaxOffset
    ensures Exec(code, labels, |code| - 1, st) == Fall(st')
    ensures st' == st.(buf := StoreBytes(st.buf, at, [b]))
  {
    hide StoreBytes;
    st' := st.(buf := StoreBytes(st.buf, at, [b]));
    assert LeBytes(b, 1) == [b];
    assert Step(code[|code| - 1], st) == Go(st');
    assert Exec(code, labels, |code|, st') == Fall(st');
  }

  function ExitLabels(exit: Option<nat>, target: Label): map<Label, nat> {
    if exit.Some? then map[target := exit.value] else map[]
  }

  /** One record: its own label catches the null exits, and the run ends behind the flag. */
  lemma {:induction false} OutputRun(o: Out, l: Layout, offset: nat, target: Label, res: Res, st: State)
    returns (st': State)
    requires o.val.VReg? && o.val.reg <= 7 && Done(Run(o.code, st), st, OutputUsed, o.val, res)
    requires res == Null ==> o.exits
    requires st.regs[R8] == Ptr(Buff, 0) && offset + DataSize(l) <= MaxOffset
    ensures var code := OutputCode(o, l, offset, target);
            |code| >= 2 && Exec(code, ExitLabels(if Labelled(o, l) then Some(|code| - 2) else None, target), 0, st) == Fall(st')
    ensures st' == st.(regs := st'.regs, stack := st'.stack, buf := Recorded(l, res, offset, st.mem, st.buf))
    ensures st'.regs[R8] == st.regs[R8] && st'.regs[R9] == st.regs[R9] && st'.regs[FP] == st.regs[FP]
  {
    hide Step, Run, Exec, StoreBytes, DataBytes, HeadCode, WriteCode, FlagCode, OutputCode, Labelled;
    var head, write := HeadCode(o, l, target), WriteCode(l, o.val.reg, offset);
    var labelled, at := Labelled(o, l), offset + DataSize(l);
    var code := OutputCode(o, l, offset, target);
    OutputParts(o, l, offset, target);
    var labels := ExitLabels(if labelled then Some(|code| - 2) else None, target);
    HeadRun(o, l, target, res, st);
    HeadPlaced(head, code, labels, st);
    var st1 := Run(head, st).st;
    if Checked(l, res).Val? {
      var st2 := WriteRun(l, o.val.reg, offset, Checked(l, res).v, st1);
      WritePlaced(write, code, labels, |head|, st1);
      st' := FlagRun(code, labels, labelled, at, false, st2);
    } else {
      NullLabelled(o, l, res);
      LabelPlaced(code, labels, target, |code| - 2, st1);
      st' := FlagRun(code, labels, labelled, at, true, st1);
    }
  }

  lemma {:induction false} OutputParts(o: Out, l: Layout, offset: nat, target: Label)
    requires o.val.VReg?
    ensures var code, head, write := OutputCode(o, l, offset, target), HeadCode(o, l, target), WriteCode(l, o.val.reg, offset);
            var flag := FlagCode(Labelled(o, l), offset + DataSize(l));
            && |code| == |head| + |write| + |flag| && 2 <= |flag|
            && code[..|head|] == head && code[|head|..|head| + |write|] == write && code[|code| - |flag|..] == flag
  {
    hide HeadCode, WriteCode;
  }

  lemma {:induction false} NullLabelled(o: Out, l: Layout, res: Res)
    requires Checked(l, res) == Null && (res == Null ==> o.exits)
    ensures Labelled(o, l)
  {
  }

  lemma {:induction false} LabelPlaced(code: seq<Instr>, labels: map<Label, nat>, target: Label, at: nat, st: State)
    requires target in labels && labels[target] == at <= |code|
    ensures forall end: nat :: end <= |code| ==> Resume(Leave(target, st), code, labels, end) == Exec(code, labels, at, st)
  {
  }

  lemma {:induction false} HeadPlaced(head: seq<Instr>, code: seq<Instr>, labels: map<Label, nat>, st: State)
    requires |head| <= |code| && code[..|head|] == head && Run(head, st) != Stuck
    requires forall t :: t in labels ==> |head| <= labels[t]
    ensures Exec(code, labels, 0, st) == Resume(Run(head, st), code, labels, |head|)
  {
    hide Step;
    ExecPlaced(head, map[], code, labels, 0, 0, st);
  }

  lemma {:induction false} WritePlaced(write: seq<Instr>, code: seq<Instr>, labels: map<Label, nat>, at: nat, st: State)
    requires at + |write| <= |code| && code[at..at + |write|] == write && Run(write, st).Fall?
    requires forall t :: t in labels ==> at + |write| <= labels[t]
    ensures Exec(code, labels, at, st) == Exec(code, labels, at + |write|, Run(write, st).st)
  {
    hide Step;
    ExecPlaced(write, map[], code, labels, at, 0, st);
  }

  // The generated function -----------------------------------------------------------------------

  function Body(outs: seq<Output>): seq<Instr> {
    if outs == [] then [] else outs[0].insns + Body(outs[1..])
  }

  /** The exit labels of records placed one after the other from `at` on. */
  function LabelsOf(outs: seq<Output>, at: nat, target: Label): map<Label, nat> {
    if outs == [] then map[]
    else
      LabelsOf(outs[1..], at + |outs[0].insns|, target + 1) +
      (if outs[0].exit.Some? then map[target := at + outs[0].exit.value] else map[])
  }

  const Prologue: seq<Instr> := [Mov(R9, R(R1)), Mov(R8, R(R2))]

  function OutputProgram(outs: seq<Output>, target: Label): Program {
    Program(Prologue + Body(outs) + [Exit], LabelsOf(outs, |Prologue|, target))
  }

  /** The places of the records in the buffer. */
  function PlaceOf(ls: seq<Layout>, n: nat): nat
    requires n <= |ls|
  {
    if n == 0 then 0 else PlaceOf(ls, n - 1) + RecordSize(ls[n - 1])
  }

  function Layouts(outs: seq<Output>): seq<Layout> {
    if outs == [] then [] else [outs[0].layout] + Layouts(outs[1..])
  }

  function Results(cfg: Config, reqs: seq<Request>, env: Env): (rs: seq<Res>)
    requires ValidConfig(cfg) && ValidEnv(cfg, env)
    ensures |rs| == |reqs|
  {
    if reqs == [] then [] else [Actual(cfg, Subject(reqs[0]), env)] + Results(cfg, reqs[1..], env)
  }

  /** The buffer after all records, laid down from `offset` on. */
  function Filled(ls: seq<Layout>, rs: seq<Res>, offset: nat, mem: Memory, buf: map<int, byte>): map<int, byte>
    requires |ls| == |rs|
  {
    if ls == [] then buf
    else Filled(ls[1..], rs[1..], offset + RecordSize(ls[0]), mem, Recorded(ls[0], rs[0], offset, mem, buf))
  }

  function TotalSize(ls: seq<Layout>): nat {
    if ls == [] then 0 else RecordSize(ls[0]) + TotalSize(ls[1..])
  }

  /** What the theorem asks of a request: its expression is sane, and no helper call in its code
      destroys a pending operand. */
  predicate Supported(cfg: Config, req: Request)
    requires |cfg.vars| == |cfg.tys|
  {
    && Sane(cfg, Subject(req))
    && (Compile(cfg, Subject(req), OutputUsed).Some? ==> Compile(cfg, Subject(req), OutputUsed).value.safe)
  }

  /** With R8 taken by the buffer, exactly two pending operands are still safe at every memory read. */
  lemma {:induction false} SupportedIff(cfg: Config, req: Request)
    requires |cfg.vars| == |cfg.tys| && Sane(cfg, Subject(req))
    requires Discipline.StackLike(cfg, Subject(req)) && Compile(cfg, Subject(req), OutputUsed).Some?
    ensures Supported(cfg, req) <==> Discipline.Pending(cfg, Subject(req)) <= 2
  {
    hide Compile, Discipline.Pending, Discipline.StackLike, Sane;
    assert Discipline.Top(1) == OutputUsed;
    Discipline.PendingSafeIff(cfg, Subject(req), 1);
  }

  /** A fragment that falls through does so at any place in a program that knows its labels. */
  lemma {:induction false} ExecPlacedFall(code: seq<Instr>, inner: map<Label, nat>, p: seq<Instr>,
                                          outer: map<Label, nat>, at: nat, pc: nat, st: State)
    requires Placed(code, inner, p, outer, at) && pc <= |code|
    requires Exec(code, inner, pc, st).Fall?
    ensures Exec(p, outer, at + pc, st) == Exec(p, outer, at + |code|, Exec(code, inner, pc, st).st)
    decreases |code| - pc
  {
    hide Step;
    if pc < |code| {
      assert p[at + pc] == p[at..at + |code|][pc] == code[pc];
      match Step(code[pc], st) {
        case Go(st') => ExecPlacedFall(code, inner, p, outer, at, pc + 1, st');
        case Over(n, st') => ExecPlacedFall(code, inner, p, outer, at, pc + 1 + n, st');
        case Goto(l, st') => ExecPlacedFall(code, inner, p, outer, at, inner[l], st');
        case Halt(_) =>
        case Wrong =>
      }
    }
  }

  /** One request: whatever its expression meets, its record is written and the run goes on. */
  lemma {:induction false} RequestRun(cfg: Config, req: Request, offset: nat, target: Label, env: Env,
                                      st: State) returns (st': State)
    requires ValidConfig(cfg) && ValidEnv(cfg, env) && cfg.mode != ModeDirect && Supported(cfg, req)
    requires CompileOutput(cfg, req, offset, target).Some? && Writing(st, env)
    requires offset + DataSize(CompileOutput(cfg, req, offset, target).value.layout) <= MaxOffset
    ensures var out := CompileOutput(cfg, req, offset, target).value;
            && Exec(out.insns, ExitLabels(out.exit, target), 0, st) == Fall(st')
            && Writing(st', env)
            && st'.buf == Recorded(out.layout, Actual(cfg, Subject(req), env), offset, env.mem, st.buf)
  {
    hide Compile, Run, Actual, Sane, OutputCode, Recorded, DefaultLayout;
    var e := Subject(req);
    var o := Compile(cfg, e, OutputUsed).value;
    var l := CompileOutput(cfg, req, offset, target).value.layout;
    CompileRun(cfg, e, OutputUsed, env, st);
    CompileExtends(cfg, e, OutputUsed);
    if Actual(cfg, e, env) == Null {
      NullExits(cfg, e, OutputUsed, env);
    }
    st' := OutputRun(o, l, offset, target, Actual(cfg, e, env), st);
  }

  /** The outputs lie in `p` from `at` on, with their labels. */
  ghost predicate Embedded(outs: seq<Output>, at: nat, target: Label, p: seq<Instr>, labels: map<Label, nat>) {
    && at + |Body(outs)| <= |p| && p[at..at + |Body(outs)|] == Body(outs)
    && (forall t :: t in LabelsOf(outs, at, target) ==> t in labels && labels[t] == LabelsOf(outs, at, target)[t])
  }

  lemma {:induction false} EmbeddedParts(outs: seq<Output>, at: nat, target: Label, p: seq<Instr>,
                                         labels: map<Label, nat>)
    requires outs != [] && Embedded(outs, at, target, p, labels)
    requires outs[0].exit.Some? ==> outs[0].exit.value <= |outs[0].insns|
    ensures Placed(outs[0].insns, ExitLabels(outs[0].exit, target), p, labels, at)
    ensures Embedded(outs[1..], at + |outs[0].insns|, target + 1, p, labels)
    ensures |Body(outs)| == |outs[0].insns| + |Body(outs[1..])|
  {
    LabelsParts(outs, at, target);
    SliceParts(outs[0].insns, Body(outs[1..]), at, p);
    hide LabelsOf;
  }

  lemma {:induction false} LabelsParts(outs: seq<Output>, at: nat, target: Label)
    requires outs != []
    ensures var all, more := LabelsOf(outs, at, target), LabelsOf(outs[1..], at + |outs[0].insns|, target + 1);
            && (forall t :: t in more ==> t in all && all[t] == more[t])
            && (outs[0].exit.Some? ==> target in all && all[target] == at + outs[0].exit.value)
  {
    LabelsBelow(outs[1..], at + |outs[0].insns|, target + 1);
  }

  lemma {:induction false} SliceParts(a: seq<Instr>, b: seq<Instr>, at: nat, p: seq<Instr>)
    requires at + |a + b| <= |p| && p[at..at + |a + b|] == a + b
    ensures p[at..at + |a|] == a && p[at + |a|..at + |a| + |b|] == b
  {
    var body := p[at..at + |a + b|];
    assert p[at..at + |a|] == body[..|a|];
    assert p[at + |a|..at + |a| + |b|] == body[|a|..];
  }

  lemma {:induction false} RequestsRun(cfg: Config, reqs: seq<Request>, outs: seq<Output>, offset: nat,
                                       target: Label, env: Env, st: State, p: seq<Instr>, labels: map<Label, nat>,
                                       at: nat)
    returns (st': State)
    requires ValidConfig(cfg) && ValidEnv(cfg, env) && cfg.mode != ModeDirect
    requires forall i :: 0 <= i < |reqs| ==> Supported(cfg, reqs[i])
    requires CompileOutputs(cfg, reqs, offset, target) == Some(outs) && Writing(st, env)
    requires offset + TotalSize(Layouts(outs)) <= MaxOffset && Embedded(outs, at, target, p, labels)
    ensures at + |Body(outs)| <= |p| && |Layouts(outs)| == |reqs|
    ensures Exec(p, labels, at, st) == Exec(p, labels, at + |Body(outs)|, st')
    ensures Writing(st', env)
    ensures st'.buf == Filled(Layouts(outs), Results(cfg, reqs, env), offset, env.mem, st.buf)
  {
    hide Exec, CompileOutput, Actual, Recorded, Supported, Writing, Body, LabelsOf, ValidEnv;
    if reqs == [] {
      st' := st;
      EmptyBody();
    } else {
      var out := CompileOutput(cfg, reqs[0], offset, target).value;
      var more := CompileOutputs(cfg, reqs[1..], offset + RecordSize(out.layout), target + 1).value;
      assert outs[1..] == more;
      var st1 := RequestRun(cfg, reqs[0], offset, target, env, st);
      ExitInside(cfg, reqs[0], offset, target);
      EmbeddedParts(outs, at, target, p, labels);
      ExecPlacedFall(out.insns, ExitLabels(out.exit, target), p, labels, at, 0, st);
      st' := RequestsRun(cfg, reqs[1..], more, offset + RecordSize(out.layout), target + 1, env, st1, p, labels, at + |out.insns|);
    }
  }

  lemma {:induction false} EmptyBody()
    ensures Body([]) == []
  {
  }

  lemma {:induction false} ExitInside(cfg: Config, req: Request, offset: nat, target: Label)
    requires |cfg.vars| == |cfg.tys| && CompileOutput(cfg, req, offset, target).Some?
    ensures var out := CompileOutput(cfg, req, offset, target).value;
            out.exit.Some? ==> out.exit.value <= |out.insns|
  {
    hide Compile, LayoutOf, OutputCode;
  }

  /** Later records use later labels. */
  lemma {:induction false} LabelsBelow(outs: seq<Output>, at: nat, target: Label)
    ensures forall t :: t in LabelsOf(outs, at, target) ==> t >= target
  {
    if outs != [] {
      LabelsBelow(outs[1..], at + |outs[0].insns|, target + 1);
    }
  }

  /** How the tracing program calls it: arguments in R1, buffer in R2. */
  predicate OutputCalled(st: State, env: Env) {
    && st.regs[R1] == Ptr(Args, 0) && st.regs[R2] == Ptr(Buff, 0) && st.regs[FP] == Ptr(Frame, 0)
    && st.args == env.args && st.mem == env.mem
  }

  lemma {:induction false} PrologueRun(env: Env, st: State) returns (st': State)
    requires OutputCalled(st, env)
    ensures Run(Prologue, st) == Fall(st') && Writing(st', env) && st'.buf == st.buf
  {
    var st1 := Set(st, R9, Ptr(Args, 0));
    st' := Set(st1, R8, Ptr(Buff, 0));
    RunStraight(Prologue, [st, st1, st']);
  }

  /** Running the generated function writes exactly the records of its requests: a null pointer met
      in one of them sets the flag of that one and changes no other. */
  lemma {:induction false} OutputProgramRun(cfg: Config, reqs: seq<Request>, target: Label, env: Env, st: State)
    requires ValidConfig(cfg) && ValidEnv(cfg, env) && cfg.mode != ModeDirect
    requires forall i :: 0 <= i < |reqs| ==> Supported(cfg, reqs[i])
    requires CompileOutputs(cfg, reqs, 0, target).Some? && OutputCalled(st, env)
    requires TotalSize(Layouts(CompileOutputs(cfg, reqs, 0, target).value)) <= MaxOffset
    ensures var outs := CompileOutputs(cfg, reqs, 0, target).value;
            var p := OutputProgram(outs, target);
            var o := Exec(p.insns, p.labels, 0, st);
            && |Layouts(outs)| == |reqs|
            && o.Return?
            && o.st.buf == Filled(Layouts(outs), Results(cfg, reqs, env), 0, env.mem, st.buf)
  {
    hide Step, Run, CompileOutputs, Results, Filled, Writing;
    var outs := CompileOutputs(cfg, reqs, 0, target).value;
    var p := OutputProgram(outs, target);
    var end := |Prologue| + |Body(outs)|;
    var st1 := PrologueRun(env, st);
    LabelsAfter(outs, |Prologue|, target);
    assert p.insns[..|Prologue|] == Prologue && p.insns[|Prologue|..end] == Body(outs);
    ProloguePlaced(p, st);
    var st2 := RequestsRun(cfg, reqs, outs, 0, target, env, st1, p.insns, p.labels, |Prologue|);
    assert p.insns[end] == Exit;
    ExitStep(p.insns, p.labels, end, st2);
  }

  lemma {:induction false} ExitStep(p: seq<Instr>, labels: map<Label, nat>, at: nat, st: State)
    requires at < |p| && p[at] == Exit
    ensures Exec(p, labels, at, st) == Return(st)
  {
  }

  lemma {:induction false} ProloguePlaced(p: Program, st: State)
    requires |Prologue| <= |p.insns| && p.insns[..|Prologue|] == Prologue && Run(Prologue, st).Fall?
    requires forall t :: t in p.labels ==> p.labels[t] >= |Prologue|
    ensures Exec(p.insns, p.labels, 0, st) == Exec(p.insns, p.labels, |Prologue|, Run(Prologue, st).st)
  {
    hide Step;
    ExecPlaced(Prologue, map[], p.insns, p.labels, 0, 0, st);
  }

  lemma {:induction false} LabelsAfter(outs: seq<Output>, at: nat, target: Label)
    ensures forall t :: t in LabelsOf(outs, at, target) ==> LabelsOf(outs, at, target)[t] >= at
  {
    if outs != [] {
      LabelsAfter(outs[1..], at + |outs[0].insns|, target + 1);
    }
  }

  // The reader -----------------------------------------------------------------------------------

  /** What the reader takes out of one record. */
  datatype Shown = Nothing | Raw(bs: seq<byte>) | Text(s: seq<byte>) | Numeric(v: nat, target: nat) | Point(bs: seq<byte>)

  /** One record off the front of `data`, and where the reader goes on: a value for a histogram or a
      t-digest is not consumed. None where a slice is out of range. */
  function ReadRecord(l: Layout, data: seq<byte>): Option<(Shown, seq<byte>)> {
    if |data| < RecordSize(l) then None
    else if data[RecordSize(l) - 1] != 0 then Some((Nothing, data[RecordSize(l)..]))
    else
      match l
      case Deref(n) => Some((Raw(data[..n]), data[RecordSize(l)..]))
      case Block(_, n, str) =>
        Some((if str then Text(NullTerminated(data[..n])) else Raw(data[..n]), data[RecordSize(l)..]))
      case Sample => Some((Point(data[..8]), data))
      case TextOf(n, _) => Some((Text(NullTerminated(data[..n])), data[n..][1..]))
      case Scalar => Some((Numeric(FrontDword(data), 0), data[8..][1..]))
      case ScalarPtr => Some((Numeric(FrontDword(data), FrontDword(data[8..])), data[8..][8..][1..]))
  }

  /** The first `n` records, and what is left of the data. */
  function ReadRecords(ls: seq<Layout>, n: nat, data: seq<byte>): Option<(seq<Shown>, seq<byte>)>
    requires n <= |ls|
  {
    if n == 0 then Some(([], data))
    else
      match ReadRecords(ls, n - 1, data)
      case None => None
      case Some((shown, rest)) =>
        match ReadRecord(ls[n - 1], rest)
        case None => None
        case Some((s, rest')) => Some((shown + [s], rest'))
  }

  lemma {:induction false} ReadFails(ls: seq<Layout>, i: nat, n: nat, data: seq<byte>)
    requires i <= n <= |ls| && ReadRecords(ls, i, data).None?
    ensures ReadRecords(ls, n, data).None?
  {
    if i < n {
      ReadFails(ls, i, n - 1, data);
    }
  }

  method OutputFuncArgAttrs(ls: seq<Layout>, data0: seq<byte>) returns (shown: Option<seq<Shown>>)
    ensures match ReadRecords(ls, |ls|, data0)
            case None => shown == None
            case Some((s, _)) => shown == Some(s)
  {
    var data := data0;
    var out := [];
    for i := 0 to |ls|
      invariant ReadRecords(ls, i, data0) == Some((out, data))
    {
      var l := ls[i];
      if |data| < RecordSize(l) {
        assert ReadRecords(ls, i + 1, data0).None?;
        ReadFails(ls, i + 1, |ls|, data0);
        return None;
      }
      var exception := data[RecordSize(l) - 1];
      if exception != 0 {
        data := data[RecordSize(l)..];
        out := out + [Nothing];
        continue;
      }
      match l
      case Deref(n) => out, data := out + [Raw(data[..n])], data[RecordSize(l)..];
      case Block(_, n, str) =>
        out := out + [if str then Text(NullTerminated(data[..n])) else Raw(data[..n])];
        data := data[RecordSize(l)..];
      case Sample => out := out + [Point(data[..8])];
      case TextOf(n, _) =>
        out, data := out + [Text(NullTerminated(data[..n]))], data[n..];
        data := data[1..];
      case Scalar =>
        out, data := out + [Numeric(FrontDword(data), 0)], data[8..];
        data := data[1..];
      case ScalarPtr =>
        var v := FrontDword(data);
        data := data[8..];
        out, data := out + [Numeric(v, FrontDword(data))], data[8..];
        data := data[1..];
    }
    return Some(out);
  }

  // Round trip -----------------------------------------------------------------------------------

  /** What should be shown of a record. */
  function Expected(l: Layout, res: Res, mem: Memory): Shown {
    match Checked(l, res)
    case Null => Nothing
    case Val(v) =>
      match l
      case Deref(n) => Raw(ReadBytes(mem, v, n))
      case Block(off, n, str) =>
        if str then Text(NullTerminated(ReadStr(mem, Advance(v, off), n))) else Raw(ReadBytes(mem, Advance(v, off), n))
      case TextOf(n, _) => Text(NullTerminated(ReadStr(mem, v, n)))
      case Scalar => Numeric(v, 0)
      case ScalarPtr => Numeric(v, if v == 0 then 0 else Load(mem, v, 8))
      case Sample => Point(LeBytes(v, 8))
  }

  function ExpectedAll(ls: seq<Layout>, rs: seq<Res>, mem: Memory, n: nat): seq<Shown>
    requires n <= |ls| == |rs|
  {
    if n == 0 then [] else ExpectedAll(ls, rs, mem, n - 1) + [Expected(ls[n - 1], rs[n - 1], mem)]
  }

  /** A record at the front of `data`: its flag, and its data unless the flag is set. */
  predicate RecordAt(l: Layout, res: Res, mem: Memory, data: seq<byte>) {
    && |data| >= RecordSize(l)
    && match Checked(l, res)
       case Null => data[DataSize(l)] == 1
       case Val(v) => data[DataSize(l)] == 0 && DataBytes(l, v, mem) <= data
  }

  lemma {:induction false} ReadRecordBack(l: Layout, res: Res, mem: Memory, data: seq<byte>)
    requires RecordAt(l, res, mem, data)
    ensures ReadRecord(l, data) ==
            Some((Expected(l, res, mem), if l.Sample? && Checked(l, res).Val? then data else data[RecordSize(l)..]))
  {
    hide ReadBytes, ReadStr, LeBytes, NullTerminated;
    if Checked(l, res).Val? {
      var v := Checked(l, res).v;
      var bs := DataBytes(l, v, mem);
      assert data[..|bs|] == bs;
      match l
      case Deref(_) =>
      case Block(off, n, str) =>
        if str {
          TextBack(mem, Advance(v, off), n, data);
        }
      case TextOf(n, _) => TextBack(mem, v, n, data);
      case Scalar => DwordRoundTrip(v);
      case Sample =>
      case ScalarPtr => ScalarPtrBack(v, mem, data);
    }
  }

  lemma {:induction false} TextBack(mem: Memory, a: u64, n: nat, data: seq<byte>)
    requires ReadStr(mem, a, n) <= data && n <= |data|
    ensures NullTerminated(data[..n]) == NullTerminated(ReadStr(mem, a, n))
  {
    var bs := ReadStr(mem, a, n);
    assert data[..n] == bs + data[|bs|..n];
    if n > 0 {
      ReadStrTerminated(mem, a, n);
    }
    TerminatedPrefix(bs, data[|bs|..n]);
  }

  lemma {:induction false} ScalarPtrBack(v: u64, mem: Memory, data: seq<byte>)
    requires |data| >= 16 && DataBytes(ScalarPtr, v, mem) <= data
    ensures FrontDword(data) == v && FrontDword(data[8..]) == if v == 0 then 0 else Load(mem, v, 8)
  {
    hide ReadBytes, LeBytes;
    DwordRoundTrip(v);
    DwordRoundTrip(0);
    var bs := DataBytes(ScalarPtr, v, mem);
    assert data[..8] == bs[..8] == LeBytes(v, 8);
    assert data[8..][..8] == bs[8..];
  }

  /** The data as the generated function leaves it. */
  ghost predicate AllRecorded(ls: seq<Layout>, rs: seq<Res>, mem: Memory, data: seq<byte>)
    requires |ls| == |rs|
  {
    && PlaceOf(ls, |ls|) <= |data|
    && forall i :: 0 <= i < |ls| ==>
         PlaceOf(ls, i) <= |data| && RecordAt(ls[i], rs[i], mem, data[PlaceOf(ls, i)..])
  }

  /** No value for a histogram or a t-digest was written by the first `n` records. */
  predicate NoSample(ls: seq<Layout>, rs: seq<Res>, n: nat)
    requires n <= |ls| == |rs|
  {
    forall i :: 0 <= i < n ==> !(ls[i].Sample? && Checked(ls[i], rs[i]).Val?)
  }

  /** The reader stands where the writer put the `n`-th record. */
  ghost predicate StandsAt(ls: seq<Layout>, data: seq<byte>, n: nat)
    requires n <= |ls|
  {
    match ReadRecords(ls, n, data)
    case None => false
    case Some((_, rest)) => PlaceOf(ls, n) <= |data| && rest == data[PlaceOf(ls, n)..]
  }

  /** The reader is in step through the first `n` records: each one is read where it was written. */
  ghost predicate InStep(ls: seq<Layout>, data: seq<byte>, n: nat)
    requires n <= |ls|
  {
    forall m: nat :: m <= n ==> StandsAt(ls, data, m)
  }

  lemma {:induction false} PlaceMonotone(ls: seq<Layout>, i: nat, n: nat)
    requires i <= n <= |ls|
    ensures PlaceOf(ls, i) <= PlaceOf(ls, n)
    ensures i < n ==> PlaceOf(ls, i) + RecordSize(ls[i]) <= PlaceOf(ls, n)
  {
    if i < n {
      PlaceMonotone(ls, i, n - 1);
    }
  }

  /** The reader stays in step exactly as long as it meets no value for a histogram or a t-digest. */
  lemma {:induction false} InStepIff(ls: seq<Layout>, rs: seq<Res>, mem: Memory, data: seq<byte>, n: nat)
    requires n <= |ls| == |rs| && AllRecorded(ls, rs, mem, data)
    ensures InStep(ls, data, n) <==> NoSample(ls, rs, n)
    ensures NoSample(ls, rs, n) ==>
              ReadRecords(ls, n, data) == Some((ExpectedAll(ls, rs, mem, n), data[PlaceOf(ls, n)..]))
  {
    hide ReadRecord, RecordAt, StandsAt, AllRecorded, Checked, InStep, NoSample, ReadRecords;
    PlaceFits(ls, rs, mem, data, n);
    if n == 0 {
      FirstInStep(ls, rs, data);
    } else {
      InStepIff(ls, rs, mem, data, n - 1);
      PlaceFits(ls, rs, mem, data, n - 1);
      StepSplits(ls, rs, data, n - 1);
      if NoSample(ls, rs, n - 1) {
        NextInStep(ls, rs, mem, data, n - 1, ExpectedAll(ls, rs, mem, n - 1));
      }
    }
  }

  lemma {:induction false} PlaceFits(ls: seq<Layout>, rs: seq<Res>, mem: Memory, data: seq<byte>, n: nat)
    requires n <= |ls| == |rs| && AllRecorded(ls, rs, mem, data)
    ensures PlaceOf(ls, n) <= |data|
  {
    PlaceMonotone(ls, n, |ls|);
  }

  lemma {:induction false} StepSplits(ls: seq<Layout>, rs: seq<Res>, data: seq<byte>, n: nat)
    requires n < |ls| == |rs|
    ensures InStep(ls, data, n + 1) <==> InStep(ls, data, n) && StandsAt(ls, data, n + 1)
    ensures NoSample(ls, rs, n + 1) <==> NoSample(ls, rs, n) && !(ls[n].Sample? && Checked(ls[n], rs[n]).Val?)
  {
    hide StandsAt, Checked;
  }

  lemma {:induction false} FirstInStep(ls: seq<Layout>, rs: seq<Res>, data: seq<byte>)
    requires |ls| == |rs|
    ensures NoSample(ls, rs, 0)
    ensures InStep(ls, data, 0) && ReadRecords(ls, 0, data) == Some(([], data[PlaceOf(ls, 0)..]))
  {
    assert data[0..] == data;
    assert StandsAt(ls, data, 0);
  }

  lemma {:induction false} NextInStep(ls: seq<Layout>, rs: seq<Res>, mem: Memory, data: seq<byte>, n: nat,
                                      shown: seq<Shown>)
    requires n < |ls| == |rs| && AllRecorded(ls, rs, mem, data)
    requires PlaceOf(ls, n) <= |data| && ReadRecords(ls, n, data) == Some((shown, data[PlaceOf(ls, n)..]))
    ensures StandsAt(ls, data, n + 1) <==> !(ls[n].Sample? && Checked(ls[n], rs[n]).Val?)
    ensures StandsAt(ls, data, n + 1) ==>
              ReadRecords(ls, n + 1, data) == Some((shown + [Expected(ls[n], rs[n], mem)], data[PlaceOf(ls, n + 1)..]))
  {
    hide ReadRecord, RecordAt, Expected, AllRecorded, Checked;
    var at := PlaceOf(ls, n);
    PlaceFits(ls, rs, mem, data, n + 1);
    RecordIs(ls, rs, mem, data, n);
    ReadRecordBack(ls[n], rs[n], mem, data[at..]);
    DropTwice(data, at, RecordSize(ls[n]));
    hide RecordSize;
  }

  lemma {:induction false} RecordIs(ls: seq<Layout>, rs: seq<Res>, mem: Memory, data: seq<byte>, n: nat)
    requires n < |ls| == |rs| && AllRecorded(ls, rs, mem, data)
    ensures PlaceOf(ls, n) <= |data| && RecordAt(ls[n], rs[n], mem, data[PlaceOf(ls, n)..])
  {
    hide RecordAt;
  }

  lemma {:induction false} DropTwice(data: seq<byte>, a: nat, b: nat)
    requires a + b <= |data| && b > 0
    ensures data[a..][b..] == data[a + b..] != data[a..]
  {
    assert |data[a..]| != |data[a + b..]|;
  }

  /** Every record is read back when histogram and t-digest values come last or meet a null pointer. */
  lemma {:induction false} RecordsReadBack(ls: seq<Layout>, rs: seq<Res>, mem: Memory, data: seq<byte>)
    requires |ls| == |rs| && AllRecorded(ls, rs, mem, data)
    requires ls == [] || NoSample(ls, rs, |ls| - 1)
    ensures ReadRecords(ls, |ls|, data).Some?
    ensures ReadRecords(ls, |ls|, data).value.0 == ExpectedAll(ls, rs, mem, |ls|)
  {
    hide ReadRecord, RecordAt, Expected;
    if ls != [] {
      var n := |ls| - 1;
      InStepIff(ls, rs, mem, data, n);
      ReadRecordBack(ls[n], rs[n], mem, data[PlaceOf(ls, n)..]);
    }
  }

  // From the run to the reader -------------------------------------------------------------------

  /** The buffer holds a record at `off`. */
  ghost predicate Kept(l: Layout, res: Res, mem: Memory, off: int, buf: map<int, byte>) {
    match Checked(l, res)
    case Null => Contains(buf, off + DataSize(l), [1])
    case Val(v) => Contains(buf, off, DataBytes(l, v, mem)) && Contains(buf, off + DataSize(l), [0])
  }

  lemma {:induction false} RecordedKept(l: Layout, res: Res, off: int, mem: Memory, buf: map<int, byte>)
    ensures Kept(l, res, mem, off, Recorded(l, res, off, mem, buf))
    ensures forall o :: o < off || off + RecordSize(l) <= o ==>
              var after := Recorded(l, res, off, mem, buf); (o in after <==> o in buf) && (o in buf ==> after[o] == buf[o])
    ensures forall o :: o in buf ==> o in Recorded(l, res, off, mem, buf)
  {
    match Checked(l, res)
    case Null => ContainsNow(buf, off + DataSize(l), [1]);
    case Val(v) =>
      var bs := DataBytes(l, v, mem);
      ContainsNow(buf, off, bs);
      ContainsBefore(StoreBytes(buf, off, bs), off + DataSize(l), [0], off, bs);
      ContainsNow(StoreBytes(buf, off, bs), off + DataSize(l), [0]);
  }

  /** A record is still there after bytes behind it have changed. */
  lemma {:induction false} KeptBefore(l: Layout, res: Res, mem: Memory, off: int, buf: map<int, byte>,
                                      after: map<int, byte>)
    requires Kept(l, res, mem, off, buf)
    requires forall o :: o < off + RecordSize(l) ==> (o in after <==> o in buf) && (o in buf ==> after[o] == buf[o])
    ensures Kept(l, res, mem, off, after)
  {
    match Checked(l, res)
    case Null => ContainsStays(buf, after, off + DataSize(l), [1]);
    case Val(v) =>
      ContainsStays(buf, after, off, DataBytes(l, v, mem));
      ContainsStays(buf, after, off + DataSize(l), [0]);
  }

  lemma {:induction false} ContainsStays(buf: map<int, byte>, after: map<int, byte>, off: int, bs: seq<byte>)
    requires Contains(buf, off, bs)
    requires forall o :: o < off + |bs| ==> (o in after <==> o in buf) && (o in buf ==> after[o] == buf[o])
    ensures Contains(after, off, bs)
  {
  }

  /** Nothing outside `from` to `to` changes, and no byte disappears. */
  ghost predicate OnlyWithin(buf: map<int, byte>, after: map<int, byte>, from: int, to: int) {
    && (forall o :: o < from || to <= o ==> (o in after <==> o in buf) && (o in buf ==> after[o] == buf[o]))
    && (forall o :: o in buf ==> o in after)
  }

  lemma {:induction false} FilledWithin(ls: seq<Layout>, rs: seq<Res>, offset: nat, mem: Memory, buf: map<int, byte>)
    requires |ls| == |rs|
    ensures OnlyWithin(buf, Filled(ls, rs, offset, mem, buf), offset, offset + TotalSize(ls))
    decreases |ls|
  {
    hide Recorded;
    if ls != [] {
      RecordedKept(ls[0], rs[0], offset, mem, buf);
      FilledWithin(ls[1..], rs[1..], offset + RecordSize(ls[0]), mem, Recorded(ls[0], rs[0], offset, mem, buf));
    }
  }

  /** Every record is still there when all are written. */
  lemma {:induction false} FilledKept(ls: seq<Layout>, rs: seq<Res>, offset: nat, mem: Memory, buf: map<int, byte>,
                                      i: nat)
    requires |ls| == |rs| && i < |ls|
    ensures Kept(ls[i], rs[i], mem, offset + PlaceOf(ls, i), Filled(ls, rs, offset, mem, buf))
    decreases |ls|
  {
    hide Recorded, Kept;
    var buf1 := Recorded(ls[0], rs[0], offset, mem, buf);
    var next := offset + RecordSize(ls[0]);
    if i == 0 {
      RecordedKept(ls[0], rs[0], offset, mem, buf);
      FilledWithin(ls[1..], rs[1..], next, mem, buf1);
      KeptBefore(ls[0], rs[0], mem, offset, buf1, Filled(ls[1..], rs[1..], next, mem, buf1));
    } else {
      FilledKept(ls[1..], rs[1..], next, mem, buf1, i - 1);
      PlaceShift(ls, i);
    }
  }

  lemma {:induction false} PlaceTotal(ls: seq<Layout>)
    ensures PlaceOf(ls, |ls|) == TotalSize(ls)
  {
    if ls != [] {
      PlaceTotal(ls[1..]);
      PlaceShift(ls, |ls|);
    }
  }

  lemma {:induction false} PlaceShift(ls: seq<Layout>, n: nat)
    requires 0 < n <= |ls|
    ensures PlaceOf(ls, n) == RecordSize(ls[0]) + PlaceOf(ls[1..], n - 1)
  {
    if n > 1 {
      PlaceShift(ls, n - 1);
    }
  }

  lemma {:induction false} KeptAt(l: Layout, res: Res, mem: Memory, off: nat, buf: map<int, byte>, size: nat)
    requires Kept(l, res, mem, off, buf) && Present(buf, 0, size) && off + RecordSize(l) <= size
    ensures RecordAt(l, res, mem, Bytes(buf, 0, size)[off..])
  {
    hide DataBytes;
    var at := off + DataSize(l);
    match Checked(l, res)
    case Null =>
      SlicePrefix(buf, size, at, [1]);
      assert Bytes(buf, 0, size)[at..][0] == 1;
    case Val(v) =>
      SlicePrefix(buf, size, at, [0]);
      assert Bytes(buf, 0, size)[at..][0] == 0;
      SlicePrefix(buf, size, off, DataBytes(l, v, mem));
  }

  lemma {:induction false} FilledRecorded(ls: seq<Layout>, rs: seq<Res>, mem: Memory, buf: map<int, byte>)
    requires |ls| == |rs| && Present(buf, 0, TotalSize(ls))
    ensures var after := Filled(ls, rs, 0, mem, buf);
            && Present(after, 0, TotalSize(ls)) && OnlyWithin(buf, after, 0, TotalSize(ls))
            && AllRecorded(ls, rs, mem, Bytes(after, 0, TotalSize(ls)))
  {
    hide Filled, Kept, RecordAt, DataBytes;
    var after, size := Filled(ls, rs, 0, mem, buf), TotalSize(ls);
    FilledWithin(ls, rs, 0, mem, buf);
    PlaceTotal(ls);
    forall i | 0 <= i < |ls|
      ensures PlaceOf(ls, i) <= size && RecordAt(ls[i], rs[i], mem, Bytes(after, 0, size)[PlaceOf(ls, i)..])
    {
      FilledKept(ls, rs, 0, mem, buf, i);
      PlaceMonotone(ls, i, |ls|);
      KeptAt(ls[i], rs[i], mem, PlaceOf(ls, i), after, size);
    }
  }

  /** The generated function and the reader are inverses: for every list of requests the run returns,
      touches no byte outside the records, and when at most the last request is for a histogram or a
      t-digest the reader recovers every value, a null pointer in one request showing in that one only. */
  lemma {:induction false} RecordsRoundTrip(cfg: Config, reqs: seq<Request>, target: Label, env: Env, st: State)
    requires ValidConfig(cfg) && ValidEnv(cfg, env) && cfg.mode != ModeDirect
    requires forall i :: 0 <= i < |reqs| ==> Supported(cfg, reqs[i])
    requires CompileOutputs(cfg, reqs, 0, target).Some? && OutputCalled(st, env)
    requires TotalSize(Layouts(CompileOutputs(cfg, reqs, 0, target).value)) <= MaxOffset
    requires Present(st.buf, 0, TotalSize(Layouts(CompileOutputs(cfg, reqs, 0, target).value)))
    ensures var outs := CompileOutputs(cfg, reqs, 0, target).value;
            var ls, rs, p := Layouts(outs), Results(cfg, reqs, env), OutputProgram(outs, target);
            var o := Exec(p.insns, p.labels, 0, st);
            && |ls| == |reqs| && o.Return?
            && OnlyWithin(st.buf, o.st.buf, 0, TotalSize(ls))
            && Present(o.st.buf, 0, TotalSize(ls))
            && AllRecorded(ls, rs, env.mem, Bytes(o.st.buf, 0, TotalSize(ls)))
            && (ls == [] || NoSample(ls, rs, |ls| - 1) ==>
                  && ReadRecords(ls, |ls|, Bytes(o.st.buf, 0, TotalSize(ls))).Some?
                  && ReadRecords(ls, |ls|, Bytes(o.st.buf, 0, TotalSize(ls))).value.0 == ExpectedAll(ls, rs, env.mem, |ls|))
  {
    hide Exec, CompileOutputs, Results, Filled, AllRecorded, OutputProgram, NoSample, ReadRecords, ExpectedAll,
         OnlyWithin;
    OutputProgramRun(cfg, reqs, target, env, st);
    var ls, rs := Layouts(CompileOutputs(cfg, reqs, 0, target).value), Results(cfg, reqs, env);
    FilledRecorded(ls, rs, env.mem, st.buf);
    var data := Bytes(Filled(ls, rs, 0, env.mem, st.buf), 0, TotalSize(ls));
    if ls == [] || NoSample(ls, rs, |ls| - 1) {
      RecordsReadBack(ls, rs, env.mem, data);
    }
  }
}
