/** The compiler of output records in the form of the program: one object per request that collects
    its instructions, and the list of requests with its counter of exit labels. */
module OutputArgs {
  import opened Words
  import opened Machine
  import opened Types
  import opened Chains
  import opened Operators
  import opened Codegen
  import opened Filter
  import opened Compiler
  import opened Buffers
  import opened Records

  class FuncArgumentOutput {
    const req: Request
    var insn: seq<Instr>
    var exit: Option<nat>
    var layout: Option<Layout>

    constructor (req: Request)
      ensures this.req == req && insn == [] && exit == None && layout == None
    {
      this.req := req;
      insn, exit, layout := [], None, None;
    }

    method Emit(code: seq<Instr>)
      modifies this`insn
      ensures insn == old(insn) + code
    {
      insn := insn + code;
    }

    method EmitRead(offset: nat, size: nat, helper: Helper)
      modifies this`insn
      ensures insn == old(insn) + ReadCode(R8, offset, size, helper)
    {
      if offset != 0 {
        Emit([Mov(R2, Imm(size)), Mov(R1, R(R8)), Alu(Add, R1, Imm(offset)), Call(helper)]);
      } else {
        Emit([Mov(R2, Imm(size)), Mov(R1, R(R8)), Call(helper)]);
      }
    }

    method EmitToR3(reg: Reg)
      modifies this`insn
      ensures insn == old(insn) + MovUnlessSame(R3, reg)
    {
      if reg != R3 {
        Emit([Mov(R3, R(reg))]);
      }
    }

    method EmitAdd(reg: Reg, off: int)
      modifies this`insn
      ensures insn == old(insn) + AddUnlessZero(reg, off)
    {
      if off != 0 {
        Emit([Alu(Add, reg, Imm(off))]);
      }
    }

    static lemma {:induction false} Regrouped(start: seq<Instr>, a: seq<Instr>, b: seq<Instr>, c: seq<Instr>, d: seq<Instr>)
      ensures start + a + b + c + d == start + (a + (b + c + d))
    {
    }

    method GenDerefInsns(reg: Reg, offset: nat, size: nat, labelExit: Label) returns (next: nat)
      modifies this`insn
      ensures insn == old(insn) + (NullCheck(Deref(size), reg, labelExit) + WriteCode(Deref(size), reg, offset))
      ensures next == offset + size
    {
      Emit([JmpLabel(Eq, reg, Imm(0), labelExit)]);
      EmitToR3(reg);
      EmitRead(offset, size, ProbeRead);
      next := offset + size;
    }

    method GenBufInsns(reg: Reg, off: int, size: nat, str: bool, offset: nat, labelExit: Label) returns (next: nat)
      modifies this`insn
      ensures insn == old(insn) + (NullCheck(Block(off, size, str), reg, labelExit) + WriteCode(Block(off, size, str), reg, offset))
      ensures next == offset + size
    {
      hide ReadCode, MovUnlessSame, AddUnlessZero;
      var helper := if str then ProbeReadStr else ProbeRead;
      ghost var start, l := insn, Block(off, size, str);
      Emit([JmpLabel(Eq, reg, Imm(0), labelExit)]);
      EmitAdd(reg, off);
      EmitToR3(reg);
      EmitRead(offset, size, helper);
      next := offset + size;
      Regrouped(start, NullCheck(l, reg, labelExit), AddUnlessZero(reg, off), MovUnlessSame(R3, reg),
                ReadCode(R8, offset, size, helper));
    }

    method GenDefaultInsns(l: Layout, reg: Reg, offset: nat, labelExit: Label) returns (next: nat)
      requires !l.Deref? && !l.Block?
      modifies this`insn
      ensures insn == old(insn) + (NullCheck(l, reg, labelExit) + WriteCode(l, reg, offset))
      ensures next == offset + DataSize(l)
    {
      next := offset;
      if !l.TextOf? {
        Emit([Stx(R8, next, reg, 8)]);
        next := next + 8;
        if l.ScalarPtr? {
          EmitToR3(reg);
          Emit(PointedCode(next));
          next := next + 8;
        }
      } else {
        if l.checked {
          Emit([JmpLabel(Eq, reg, Imm(0), labelExit)]);
        }
        EmitToR3(reg);
        EmitRead(next, l.size, ProbeReadStr);
        next := next + l.size;
      }
    }

    /** The next free offset, or None for a rejected request. */
    method Compile(cfg: Config, offset: nat, labelExit: Label) returns (next: Option<nat>)
      requires ValidConfig(cfg)
      modifies this
      ensures match CompileOutput(cfg, req, offset, labelExit)
              case None => next == None
              case Some(out) =>
                && next == Some(offset + RecordSize(out.layout))
                && insn == out.insns && exit == out.exit && layout == Some(out.layout)
    {
      hide Codegen.Compile, LayoutOf, NullCheck, WriteCode, FlagCode, Relabel;
      var res := CompileEvalExpr(cfg, req.e, !req.Plain?, [R8, R9], false);
      assert Marked([R8, R9]) == OutputUsed;
      if res == None {
        NoLayoutOfNumber(cfg, req);
        return None;
      }
      layout := LayoutOf(cfg.spec, req, res.value.val);
      if layout == None {
        return None;
      }
      var l, reg := layout.value, RegOf(res.value.val);
      ghost var eval := Relabel(res.value.insns, labelExit);
      insn := Relabel(res.value.insns, labelExit);
      var labelUsed, at := res.value.labelUsed || Checks(l), 0;
      match l {
        case Deref(n) => at := GenDerefInsns(reg, offset, n, labelExit);
        case Block(off, n, str) => at := GenBufInsns(reg, off, n, str, offset, labelExit);
        case _ => at := GenDefaultInsns(l, reg, offset, labelExit);
      }
      ghost var body := insn;
      assert body == eval + (NullCheck(l, reg, labelExit) + WriteCode(l, reg, offset)) && at == offset + DataSize(l);
      EmitFlag(labelUsed, at);
      exit := if labelUsed then Some(|insn| - 2) else None;
      assert insn == eval + NullCheck(l, reg, labelExit) + WriteCode(l, reg, offset) + FlagCode(labelUsed, at);
      return Some(at + 1);
    }

    /** A constant expression has no layout, so rejecting it early changes nothing. */
    lemma {:induction false} NoLayoutOfNumber(cfg: Config, req: Request)
      requires ValidConfig(cfg) && EvalProgram(cfg, req.e, !req.Plain?, OutputUsed, false) == None
      ensures CompileOutput(cfg, req, 0, 0) == None
      ensures forall offset: nat, target: Label :: CompileOutput(cfg, req, offset, target) == None
    {
      hide Codegen.Compile;
    }

    method EmitFlag(labelUsed: bool, at: nat)
      modifies this`insn
      ensures insn == old(insn) + FlagCode(labelUsed, at) && |insn| >= 2
    {
      if labelUsed {
        Emit([Mov(R0, Imm(0)), Ja(1), Mov(R0, Imm(1)), Stx(R8, at, R0, 1)]);
      } else {
        Emit([Mov(R0, Imm(0)), Stx(R8, at, R0, 1)]);
      }
    }
  }

  class ArgDataOutput {
    var labelCnt: nat

    constructor ()
      ensures labelCnt == 0
    {
      labelCnt := 0;
    }

    method GenExitLabel() returns (labelExit: Label)
      modifies this
      ensures labelExit == old(labelCnt) && labelCnt == old(labelCnt) + 1
    {
      labelExit := labelCnt;
      labelCnt := labelCnt + 1;
    }

    /** Compiles the requests one after the other, each behind the records of the ones before it. */
    method MatchParams(cfg: Config, reqs: seq<Request>) returns (outs: Option<seq<Output>>, size: nat)
      requires ValidConfig(cfg)
      modifies this
      ensures outs == CompileOutputs(cfg, reqs, 0, old(labelCnt))
      ensures outs.Some? ==> size == TotalSize(Layouts(outs.value)) && labelCnt == old(labelCnt) + |reqs|
    {
      hide CompileOutput;
      var args: seq<Output> := [];
      var offset: nat := 0;
      assert reqs[0..] == reqs;
      assert forall more: seq<Output> :: [] + more == more;
      for i := 0 to |reqs|
        invariant labelCnt == old(labelCnt) + i && offset == TotalSize(Layouts(args))
        invariant CompileOutputs(cfg, reqs, 0, old(labelCnt)) ==
                  match CompileOutputs(cfg, reqs[i..], offset, labelCnt)
                  case None => None
                  case Some(more) => Some(args + more)
      {
        var labelExit := GenExitLabel();
        var arg := new FuncArgumentOutput(reqs[i]);
        var next := arg.Compile(cfg, offset, labelExit);
        assert reqs[i..][1..] == reqs[i + 1..];
        if next == None {
          return None, 0;
        }
        var out := Output(arg.insn, arg.exit, arg.layout.value);
        TotalSizeNext(args, out);
        ghost var before := args;
        args := args + [out];
        assert forall more: seq<Output> :: before + ([out] + more) == args + more;
        offset := next.value;
      }
      assert args + [] == args;
      return Some(args), offset;
    }

    lemma {:induction false} TotalSizeNext(args: seq<Output>, out: Output)
      ensures TotalSize(Layouts(args + [out])) == TotalSize(Layouts(args)) + RecordSize(out.layout)
    {
      if args != [] {
        assert (args + [out])[1..] == args[1..] + [out];
        TotalSizeNext(args[1..], out);
      }
    }

    /** The generated function, with the exit labels of its records. */
    method GenInsns(args: seq<Output>, labels0: Label) returns (p: Program)
      ensures p == OutputProgram(args, labels0)
    {
      var insns := Prologue;
      for i := 0 to |args|
        invariant insns + Body(args[i..]) == Prologue + Body(args)
      {
        assert args[i..][1..] == args[i + 1..];
        assert insns + (args[i].insns + Body(args[i + 1..])) == (insns + args[i].insns) + Body(args[i + 1..]);
        insns := insns + args[i].insns;
      }
      assert insns == Prologue + Body(args);
      return Program(insns + [Exit], LabelsOf(args, |Prologue|, labels0));
    }
  }
}
