/** A model of the eBPF machine that the generated code runs on (RFC 9669, sections 4 and 5):
    eleven registers, a stack frame, the argument array, an output buffer and byte-addressed
    little-endian kernel memory.

    A register holds a number, a pointer into one of the three private regions, or an unknown
    value: helper calls leave R0 to R5 unknown, which stands for every value a helper may leave.
    Whatever depends on an unknown value gets stuck, so reaching an outcome shows independence. */
module Machine {
  import opened Words

  type Reg = r: int | 0 <= r <= 10

  const R0: Reg := 0
  const R1: Reg := 1
  const R2: Reg := 2
  const R3: Reg := 3
  const R6: Reg := 6
  const R7: Reg := 7
  const R8: Reg := 8
  const R9: Reg := 9
  const FP: Reg := 10

  type Label = nat

  datatype Region = Args | Frame | Buff
  datatype Word = Num(n: u64) | Ptr(region: Region, off: int) | Unknown

  type Registers = s: seq<Word> | |s| == 11 witness seq(11, i => Unknown)

  /** Kernel memory: an address outside the map faults. */
  type Memory = map<u64, byte>

  datatype State = State(
    regs: Registers,
    stack: map<int, Word>,
    buf: map<int, byte>,
    args: seq<u64>,
    mem: Memory)

  datatype AluOp = Add | Sub | Mul | Div | Mod | And | Or | Xor | Lsh | Rsh
  datatype Cond = Eq | Ne | Gt | Ge | Lt | Le
  datatype Src = Imm(c: int) | R(r: Reg)
  datatype Helper = ProbeRead | ProbeReadStr | RdonlyCast

  datatype Instr =
    | Alu(op: AluOp, dst: Reg, src: Src)
    | Neg(dst: Reg)
    | Mov(dst: Reg, src: Src)
    | Ldx(dst: Reg, base: Reg, off: int, size: nat)
    | Stx(base: Reg, off: int, val: Reg, size: nat)
    | Jmp(cond: Cond, dst: Reg, src: Src, skip: nat)
    | JmpLabel(cond: Cond, dst: Reg, src: Src, target: Label)
    | Ja(skip: nat)
    | Call(helper: Helper)
    | Exit

  /** Section 4.1: unsigned arithmetic modulo 2^64, division by zero gives 0, modulo by zero keeps
      the dividend, shift counts use six bits. */
  function AluResult(op: AluOp, x: u64, y: u64): u64 {
    match op
    case Add => Wrap(x + y)
    case Sub => Wrap(x - y)
    case Mul => Wrap(x * y)
    case Div => if y == 0 then 0 else Quotient(x, y)
    case Mod => if y == 0 then x else x % y
    case And => Bitwise(BAnd, x, y)
    case Or => Bitwise(BOr, x, y)
    case Xor => Bitwise(BXor, x, y)
    case Lsh => Wrap(x * Pow2(y % 64))
    case Rsh => Quotient(x, Pow2(y % 64))
  }

  function Quotient(x: u64, y: nat): u64
    requires y > 0
  {
    QuotientBound(x, y);
    x / y
  }

  lemma {:induction false} QuotientBound(x: nat, y: nat)
    requires y > 0
    ensures 0 <= x / y <= x
  {
    MulGrows(y, x / y);
  }

  lemma {:induction false} MulGrows(y: nat, q: nat)
    requires y > 0
    ensures y * q >= q
  {
  }

  function Holds(c: Cond, x: u64, y: u64): bool {
    match c
    case Eq => x == y
    case Ne => x != y
    case Gt => x > y
    case Ge => x >= y
    case Lt => x < y
    case Le => x <= y
  }

  function Operand(src: Src, regs: Registers): Word {
    match src
    case Imm(c) => Num(Wrap(Int32(c)))
    case R(r) => regs[r]
  }

  // Memory ------------------------------------------------------------------------------------

  /** The address `i` bytes on. */
  function Cell(a: u64, i: nat): u64 {
    Wrap(a + i)
  }

  predicate Mapped(mem: Memory, a: u64, n: nat) {
    forall i: nat {:trigger Cell(a, i)} :: i < n ==> Cell(a, i) in mem
  }

  /** The `n` bytes at `a`; a faulting read gives zeros. */
  function ReadBytes(mem: Memory, a: u64, n: nat): (bs: seq<byte>)
    ensures |bs| == n
  {
    if Mapped(mem, a, n) then seq(n, i requires 0 <= i < n => mem[Cell(a, i)])
    else seq(n, i => 0)
  }

  function Load(mem: Memory, a: u64, n: nat): u64
    requires n <= 8
  {
    Pow2Monotone(8 * n, 64);
    Pow2Values();
    LeVal(ReadBytes(mem, a, n))
  }

  /** A dword store into the frame; it destroys every other slot it overlaps. */
  function StoreSlot(stack: map<int, Word>, off: int, w: Word): map<int, Word> {
    (map o | o in stack && (o <= off - 8 || off + 8 <= o) :: stack[o])[off := w]
  }

  function StoreBytes(buf: map<int, byte>, off: int, bs: seq<byte>): (r: map<int, byte>)
    ensures forall o {:trigger r[o]} {:trigger o in r} :: off <= o < off + |bs| ==> o in r && r[o] == bs[o - off]
    ensures forall o {:trigger r[o]} {:trigger o in r} :: !(off <= o < off + |bs|) ==>
              (o in r <==> o in buf) && (o in buf ==> r[o] == buf[o])
    decreases |bs|
  {
    if bs == [] then buf
    else StoreBytes(buf, off, bs[..|bs| - 1])[off + |bs| - 1 := bs[|bs| - 1]]
  }

  // One instruction ---------------------------------------------------------------------------

  datatype Next =
    | Go(st: State)
    | Over(skip: nat, st: State)
    | Goto(target: Label, st: State)
    | Halt(st: State)
    | Wrong

  function Set(st: State, r: Reg, w: Word): State {
    st.(regs := st.regs[r := w])
  }

  /** What a helper leaves in R0 to R5. */
  function Clobber(st: State, r0: Word): State {
    st.(regs := [r0, Unknown, Unknown, Unknown, Unknown, Unknown] + st.regs[6..])
  }

  function AluWord(op: AluOp, dst: Reg, src: Src, regs: Registers): Word {
    var x, y := regs[dst], Operand(src, regs);
    if op == Xor && src == R(dst) then Num(0)
    else if x.Num? && y.Num? then Num(AluResult(op, x.n, y.n))
    else if op == Add && x.Ptr? && src.Imm? then Ptr(x.region, x.off + Int32(src.c))
    else Unknown
  }

  function LoadWord(base: Word, off: int, size: nat, st: State): Next2 {
    match base
    case Num(a) =>
      if size <= 8 then Ok2(Num(Load(st.mem, Wrap(a + Int16(off)), size))) else Bad2
    case Ptr(Args, o) =>
      var at := o + Int16(off);
      if size == 8 && 0 <= at && at % 8 == 0 && at / 8 < |st.args| then Ok2(Num(st.args[at / 8])) else Bad2
    case Ptr(Frame, o) =>
      var at := o + Int16(off);
      if size == 8 && at in st.stack then Ok2(st.stack[at]) else Bad2
    case _ => Bad2
  }

  datatype Next2 = Ok2(w: Word) | Bad2

  function Step(i: Instr, st: State): Next {
    match i
    case Alu(op, dst, src) => Go(Set(st, dst, AluWord(op, dst, src, st.regs)))
    case Neg(dst) =>
      Go(Set(st, dst, match st.regs[dst] case Num(x) => Num(Wrap(TWO64 - x)) case _ => Unknown))
    case Mov(dst, src) => Go(Set(st, dst, Operand(src, st.regs)))
    case Ldx(dst, base, off, size) =>
      (match LoadWord(st.regs[base], off, size, st)
       case Ok2(w) => Go(Set(st, dst, w))
       case Bad2 => Wrong)
    case Stx(base, off, val, size) =>
      (match st.regs[base]
       case Ptr(Frame, o) =>
         if size == 8 then Go(st.(stack := StoreSlot(st.stack, o + Int16(off), st.regs[val]))) else Wrong
       case Ptr(Buff, o) =>
         if st.regs[val].Num?
         then Go(st.(buf := StoreBytes(st.buf, o + Int16(off), LeBytes(st.regs[val].n, size))))
         else Wrong
       case _ => Wrong)
    case Jmp(c, dst, src, skip) =>
      (match (st.regs[dst], Operand(src, st.regs))
       case (Num(x), Num(y)) => if Holds(c, x, y) then Over(skip, st) else Go(st)
       case _ => Wrong)
    case JmpLabel(c, dst, src, target) =>
      (match (st.regs[dst], Operand(src, st.regs))
       case (Num(x), Num(y)) => if Holds(c, x, y) then Goto(target, st) else Go(st)
       case _ => Wrong)
    case Ja(skip) => Over(skip, st)
    case Call(h) => CallHelper(h, st)
    case Exit => Halt(st)
  }

  function CallHelper(h: Helper, st: State): Next {
    match h
    case RdonlyCast =>
      if st.regs[R1].Num? && st.regs[R2].Num? then Go(Clobber(st, st.regs[R1])) else Wrong
    case ProbeRead =>
      (match (st.regs[R1], st.regs[R2], st.regs[R3])
       case (Ptr(Frame, o), Num(n), Num(a)) =>
         if n == 8 then Go(Clobber(st.(stack := StoreSlot(st.stack, o, Num(Load(st.mem, a, 8)))), Unknown))
         else Wrong
       case (Ptr(Buff, o), Num(n), Num(a)) =>
         Go(Clobber(st.(buf := StoreBytes(st.buf, o, ReadBytes(st.mem, a, n))), Unknown))
       case _ => Wrong)
    case ProbeReadStr =>
      (match (st.regs[R1], st.regs[R2], st.regs[R3])
       case (Ptr(Buff, o), Num(n), Num(a)) =>
         Go(Clobber(st.(buf := StoreBytes(st.buf, o, ReadStr(st.mem, a, n))), Unknown))
       case _ => Wrong)
  }

  /** What bpf_probe_read_kernel_str writes for a size of `n`: the string with its terminator, cut
      after n - 1 characters; `n` zeros when it meets an unmapped byte first. */
  function ReadStr(mem: Memory, a: u64, n: nat): (bs: seq<byte>)
    ensures |bs| <= n
  {
    match CString(mem, a, n)
    case Some(s) => s
    case None => seq(n, i => 0)
  }

  datatype Option<+T> = None | Some(value: T)

  function CString(mem: Memory, a: u64, n: nat): (r: Option<seq<byte>>)
    ensures r.Some? ==> |r.value| <= n
    ensures r.Some? && n > 0 ==> r.value != [] && r.value[|r.value| - 1] == 0
    ensures r.Some? ==> forall i :: 0 <= i < |r.value| - 1 ==> r.value[i] != 0
    decreases n
  {
    if n == 0 then Some([])
    else if a !in mem then None
    else if n == 1 || mem[a] == 0 then Some([0])
    else
      match CString(mem, Cell(a, 1), n - 1)
      case None => None
      case Some(rest) => Some([mem[a]] + rest)
  }

  // Programs ----------------------------------------------------------------------------------

  datatype Outcome =
    | Fall(st: State)                   // ran off the end
    | Leave(target: Label, st: State)    // jumped to a label that is not defined here
    | Return(st: State)                 // executed Exit
    | Stuck

  /** Runs `p` from `pc`; every jump of generated code goes forward, so a run is finite. */
  function Exec(p: seq<Instr>, labels: map<Label, nat>, pc: nat, st: State): Outcome
    requires pc <= |p|
    decreases |p| - pc
  {
    if pc == |p| then Fall(st)
    else
      match Step(p[pc], st)
      case Go(st') => Exec(p, labels, pc + 1, st')
      case Over(n, st') => if pc + 1 + n <= |p| then Exec(p, labels, pc + 1 + n, st') else Stuck
      case Goto(l, st') =>
        if l !in labels then Leave(l, st')
        else if pc < labels[l] <= |p| then Exec(p, labels, labels[l], st')
        else Stuck
      case Halt(st') => Return(st')
      case Wrong => Stuck
  }

  /** The outcome of running straight through a fragment that defines no label. */
  function Run(code: seq<Instr>, st: State): Outcome {
    Exec(code, map[], 0, st)
  }

  /** `code` sits in `p` at `at`, and `p` defines the labels of `code` at the matching places. */
  predicate Placed(code: seq<Instr>, inner: map<Label, nat>, p: seq<Instr>, outer: map<Label, nat>, at: nat) {
    && at + |code| <= |p|
    && p[at..at + |code|] == code
    && (forall l :: l in inner ==> inner[l] <= |code| && l in outer && outer[l] == at + inner[l])
  }

  /** What the enclosing program does after a fragment has come to `o`. */
  function Resume(o: Outcome, p: seq<Instr>, outer: map<Label, nat>, end: nat): Outcome
    requires end <= |p|
  {
    match o
    case Fall(st) => Exec(p, outer, end, st)
    case Leave(l, st) =>
      if l !in outer then o
      else if outer[l] <= |p| then Exec(p, outer, outer[l], st)
      else Stuck
    case Return(_) => o
    case Stuck => o
  }

  /** A fragment behaves the same at any place in a program whose own labels lie after it. */
  lemma {:induction false} ExecPlaced(code: seq<Instr>, inner: map<Label, nat>, p: seq<Instr>,
                                      outer: map<Label, nat>, at: nat, pc: nat, st: State)
    requires Placed(code, inner, p, outer, at) && pc <= |code|
    requires forall l :: l in outer && l !in inner ==> at + |code| <= outer[l]
    requires Exec(code, inner, pc, st) != Stuck
    ensures Exec(p, outer, at + pc, st) == Resume(Exec(code, inner, pc, st), p, outer, at + |code|)
    decreases |code| - pc
  {
    hide Step;
    if pc == |code| {
      assert Exec(code, inner, pc, st) == Fall(st);
    } else {
      assert p[at + pc] == p[at..at + |code|][pc] == code[pc];
      match Step(code[pc], st) {
        case Go(st') =>
          ExecPlaced(code, inner, p, outer, at, pc + 1, st');
        case Over(n, st') =>
          ExecPlaced(code, inner, p, outer, at, pc + 1 + n, st');
        case Goto(l, st') =>
          if l in inner {
            assert outer[l] == at + inner[l];
            ExecPlaced(code, inner, p, outer, at, inner[l], st');
          } else {
            assert Exec(code, inner, pc, st) == Leave(l, st');
          }
        case Halt(_) =>
        case Wrong =>
      }
    }
  }

  /** Running two fragments one after the other. */
  lemma {:induction false} RunConcat(c1: seq<Instr>, c2: seq<Instr>, st: State)
    requires Run(c1, st) != Stuck
    requires Run(c1, st).Fall? ==> Run(c2, Run(c1, st).st) != Stuck
    ensures Run(c1 + c2, st) == if Run(c1, st).Fall? then Run(c2, Run(c1, st).st) else Run(c1, st)
  {
    hide Step;
    ExecPlaced(c1, map[], c1 + c2, map[], 0, 0, st);
    if Run(c1, st).Fall? {
      var st' := Run(c1, st).st;
      ExecPlaced(c2, map[], c1 + c2, map[], |c1|, 0, st');
    }
  }

  /** One step of a straight-line run. */
  lemma {:induction false} RunGo(i: Instr, rest: seq<Instr>, st: State, st': State)
    requires Step(i, st) == Go(st')
    requires Run(rest, st') != Stuck
    ensures Run([i] + rest, st) == Run(rest, st')
  {
    assert Run([i], st) == Fall(st') by {
      assert Exec([i], map[], 1, st') == Fall(st');
    }
    RunConcat([i], rest, st);
  }

  /** A straight-line run through the listed states. */
  lemma {:induction false} RunStraight(code: seq<Instr>, states: seq<State>)
    requires |states| == |code| + 1
    requires forall i :: 0 <= i < |code| ==> Step(code[i], states[i]) == Go(states[i + 1])
    ensures Run(code, states[0]) == Fall(states[|code|])
  {
    hide Step;
    if code != [] {
      RunStraight(code[1..], states[1..]);
      assert [code[0]] + code[1..] == code;
      RunGo(code[0], code[1..], states[0], states[1]);
    }
  }
}
