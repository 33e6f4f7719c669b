/** The three memory-read backends compute the same fold of a chain and take the null exit on the
    same inputs. */
module Backends {
  import opened Words
  import opened Machine
  import opened Types
  import opened Spill
  import opened Chains

  /** Registers R6 and up except `but`, the frame below the scratch dword, and everything outside
      the machine's registers and frame are as before. */
  ghost predicate Undisturbed(st: State, st': State, but: Reg) {
    && KeepsHigh(st, st', but)
    && (forall o :: o in st.stack && o <= -16 ==> o in st'.stack && st'.stack[o] == st.stack[o])
  }

  ghost predicate KeepsHigh(st: State, st': State, but: Reg) {
    && st' == st.(regs := st'.regs, stack := st'.stack)
    && (forall r: Reg :: r >= 6 && r != but ==> st'.regs[r] == st.regs[r])
  }

  lemma {:induction false} UndisturbedTrans(st: State, st1: State, st2: State, but: Reg)
    requires Undisturbed(st, st1, R3) && Undisturbed(st1, st2, but)
    ensures Undisturbed(st, st2, but)
  {
  }

  lemma {:induction false} WrapAdd(x: u64, c: int)
    ensures Wrap(x + Wrap(c)) == Wrap(x + c)
  {
  }

  lemma {:induction false} WrapLoadOffset(p: u64, off: int)
    requires Int16(off) == Int32(off)
    ensures Wrap(p + Int16(off)) == Advance(p, off)
  {
  }

  lemma {:induction false} AddUnlessZeroRun(reg: Reg, off: int, p: u64, st: State) returns (st': State)
    requires st.regs[reg] == Num(p)
    ensures Run(AddUnlessZero(reg, off), st) == Fall(st')
    ensures st' == Set(st, reg, Num(Advance(p, off)))
  {
    st' := Set(st, reg, Num(Advance(p, off)));
    if off != 0 {
      WrapAdd(p, Int32(off));
      RunStraight([Alu(Add, reg, Imm(off))], [st, st']);
    }
  }

  lemma {:induction false} MovUnlessSameRun(dst: Reg, src: Reg, st: State) returns (st': State)
    ensures Run(MovUnlessSame(dst, src), st) == Fall(st')
    ensures st' == Set(st, dst, st.regs[src])
  {
    st' := Set(st, dst, st.regs[src]);
    if dst != src {
      RunStraight([Mov(dst, R(src))], [st, st']);
    }
  }

  lemma {:induction false} ReadCallStep(a: u64, st: State)
    requires st.regs[R1] == Ptr(Frame, -8) && st.regs[R2] == Num(8) && st.regs[R3] == Num(a)
    ensures Step(Call(ProbeRead), st) == Go(Clobber(st.(stack := StoreSlot(st.stack, -8, Num(Load(st.mem, a, 8)))), Unknown))
  {
    hide StoreSlot, Load;
  }

  /** The four instructions of a probe read leave the dword at R3 in the scratch slot. */
  lemma {:induction false} ReadDwordRun(a: u64, st: State) returns (st': State)
    requires st.regs[R3] == Num(a) && st.regs[FP] == Ptr(Frame, 0)
    ensures Run(ReadDword, st) == Fall(st')
    ensures Undisturbed(st, st', R3)
    ensures -8 in st'.stack && st'.stack[-8] == Num(Load(st.mem, a, 8))
    ensures forall r: Reg :: 1 <= r <= 5 ==> st'.regs[r] == Unknown
  {
    hide Load, CallHelper;
    var s1 := Set(st, R2, Num(8));
    var s2 := Set(s1, R1, Ptr(Frame, 0));
    var s3 := Set(s2, R1, Ptr(Frame, -8));
    st' := Clobber(s3.(stack := StoreSlot(s3.stack, -8, Num(Load(st.mem, a, 8)))), Unknown);
    assert Step(ReadDword[0], st) == Go(s1);
    assert Step(ReadDword[1], s1) == Go(s2);
    assert Step(ReadDword[2], s2) == Go(s3);
    ReadCallStep(a, s3);
    assert Step(ReadDword[3], s3) == Go(st');
    RunStraight(ReadDword, [st, s1, s2, s3, st']);
  }

  // Probe mode ----------------------------------------------------------------------------------

  /** The run of a fragment agrees with `res`: it falls through with the value in `reg`, or leaves
      for the exit label exactly on Null. */
  ghost predicate Agrees(o: Outcome, reg: Reg, res: Res) {
    match o
    case Fall(st') => res.Val? && st'.regs[reg] == Num(res.v)
    case Leave(l, st') => l == EXIT && res == Null
    case _ => false
  }

  /** The run agrees with `res` and disturbs no other register from R6 up and no spill slot. */
  ghost predicate Computes(o: Outcome, st: State, reg: Reg, res: Res) {
    Agrees(o, reg, res) && Undisturbed(st, o.st, reg)
  }

  /** After a helper call R1 to R5 hold nothing known, apart from `mid`. */
  predicate Scrubbed(st: State, mid: Reg) {
    forall r: Reg :: 1 <= r <= 5 && r != mid ==> st.regs[r] == Unknown
  }

  ghost predicate Scrubs(loaded: bool, st: State, st': State, mid: Reg) {
    loaded || Scrubbed(st, mid) ==> Scrubbed(st', mid)
  }

  /** Nothing is left in R1 to R5 but the result. */
  predicate Spent(st: State, reg: Reg) {
    forall r: Reg :: 1 <= r <= 5 ==> st.regs[r] == Unknown || st.regs[r] == st.regs[reg]
  }

  predicate HasLoad(steps: seq<Offset>, n: nat)
    requires n <= |steps|
  {
    exists i :: 0 <= i < n && !steps[i].address
  }

  lemma {:induction false} SomeLoad(steps: seq<Offset>)
    requires !AllAddress(steps)
    ensures steps != [] && (HasLoad(steps, |steps| - 1) || !steps[|steps| - 1].address)
  {
  }

  lemma {:induction false} ProbeStepRun(s: Offset, reg: Reg, p: u64, st: State)
    requires st.regs[R3] == Num(p) && st.regs[FP] == Ptr(Frame, 0)
    ensures Computes(Run(ProbeStep(s, reg, false), st), st, R3, StepUse(st.mem, s, p))
    ensures Scrubs(!s.address, st, Run(ProbeStep(s, reg, false), st).st, R3)
  {
    hide Step;
    var a := Advance(p, s.off);
    var st1 := AddUnlessZeroRun(R3, s.off, p, st);
    if s.address {
      assert ProbeStep(s, reg, false) == AddUnlessZero(R3, s.off);
    } else {
      var st2 := ReadDwordRun(a, st1);
      var tail := [Ldx(R3, FP, -8, 8), JmpLabel(Eq, R3, Imm(0), EXIT)];
      NullCheckRun(R3, R3, FP, -8, 8, Load(st.mem, a, 8), st2);
      assert [Ldx(R3, FP, -8, 8)] + [JmpLabel(Eq, R3, Imm(0), EXIT)] == tail;
      RunConcat(ReadDword, tail, st1);
      RunConcat(AddUnlessZero(R3, s.off), ReadDword + tail, st);
    }
  }

  /** A load followed by the jump to the exit label on zero. */
  lemma {:induction false} NullCheckRun(dst: Reg, check: Reg, base: Reg, off: int, size: nat, w: u64, st: State)
    requires check == dst
    requires LoadWord(st.regs[base], off, size, st) == Ok2(Num(w))
    ensures Run([Ldx(dst, base, off, size)] + [JmpLabel(Eq, check, Imm(0), EXIT)], st) ==
            if w == 0 then Leave(EXIT, Set(st, dst, Num(w))) else Fall(Set(st, dst, Num(w)))
  {
    var ld, jmp := Ldx(dst, base, off, size), JmpLabel(Eq, check, Imm(0), EXIT);
    var st1 := Set(st, dst, Num(w));
    assert Step(ld, st) == Go(st1);
    assert Step(jmp, st1) == if w == 0 then Goto(EXIT, st1) else Go(st1);
    assert Run([jmp], st1) == if w == 0 then Leave(EXIT, st1) else Fall(st1) by {
      assert Exec([jmp], map[], 1, st1) == Fall(st1);
    }
    RunGo(ld, [jmp], st, st1);
  }

  lemma {:induction false} ProbeStepsRun(steps: seq<Offset>, n: nat, reg: Reg, v: u64, st: State)
    requires n < |steps|
    requires st.regs[R3] == Num(v) && st.regs[FP] == Ptr(Frame, 0)
    ensures Computes(Run(ProbeSteps(steps, n, reg), st), st, R3, FoldUse(st.mem, steps, n, v))
    ensures Run(ProbeSteps(steps, n, reg), st).Fall? ==> Scrubs(HasLoad(steps, n), st, Run(ProbeSteps(steps, n, reg), st).st, R3)
  {
    hide Step, Run, Scrubbed, ProbeStep;
    NothingRun(st);
    if n > 0 {
      ProbeStepsRun(steps, n - 1, reg, v, st);
      var o := Run(ProbeSteps(steps, n - 1, reg), st);
      if o.Fall? {
        ProbeStepRun(steps[n - 1], reg, FoldUse(st.mem, steps, n - 1, v).v, o.st);
        UndisturbedTrans(st, o.st, Run(ProbeStep(steps[n - 1], reg, false), o.st).st, R3);
      }
      RunConcat(ProbeSteps(steps, n - 1, reg), ProbeStep(steps[n - 1], reg, false), st);
    }
  }

  /** The last step leaves its value in the target register and nowhere else of importance. */
  lemma {:induction false} ProbeLastRun(s: Offset, reg: Reg, p: u64, st: State) returns (st': State)
    requires st.regs[R3] == Num(p) && st.regs[FP] == Ptr(Frame, 0)
    ensures Run(ProbeStep(s, reg, true), st) == Fall(st')
    ensures st'.regs[reg] == Num(StepLast(st.mem, s, p, 8))
    ensures Undisturbed(st, st', reg) && (!s.address || Scrubbed(st, R3) ==> Spent(st', reg))
  {
    hide Step;
    var a := Advance(p, s.off);
    var st1 := AddUnlessZeroRun(R3, s.off, p, st);
    if s.address {
      st' := MovUnlessSameRun(reg, R3, st1);
      RunConcat(AddUnlessZero(R3, s.off), MovUnlessSame(reg, R3), st);
    } else {
      var st2 := ReadDwordRun(a, st1);
      st' := LoadScratchRun(reg, Load(st.mem, a, 8), st2);
      RunConcat(ReadDword, [Ldx(reg, FP, -8, 8)], st1);
      RunConcat(AddUnlessZero(R3, s.off), ReadDword + [Ldx(reg, FP, -8, 8)], st);
    }
  }

  lemma {:induction false} LoadScratchRun(reg: Reg, w: u64, st: State) returns (st': State)
    requires st.regs[FP] == Ptr(Frame, 0) && -8 in st.stack && st.stack[-8] == Num(w)
    ensures Run([Ldx(reg, FP, -8, 8)], st) == Fall(st')
    ensures st' == Set(st, reg, Num(w))
  {
    st' := Set(st, reg, Num(w));
    assert Int16(-8) == -8;
    RunStraight([Ldx(reg, FP, -8, 8)], [st, st']);
  }

  /** Entering a body, its inner steps in register `mid`, and its last step into `reg`. */
  lemma {:induction false} ComposeBody(c0: seq<Instr>, c1: seq<Instr>, c2: seq<Instr>, mid: Reg, reg: Reg, use: Res,
                                       res: Res, st: State, st1: State, st2: State)
    requires mid < 6
    requires Run(c0, st) == Fall(st1) && Undisturbed(st, st1, R3)
    requires Computes(Run(c1, st1), st1, mid, use)
    requires use == Null ==> res == Null
    requires use.Val? ==> res.Val? && Run(c2, Run(c1, st1).st) == Fall(st2) && st2.regs[reg] == Num(res.v)
                          && Undisturbed(Run(c1, st1).st, st2, reg)
    ensures Computes(Run(c0 + (c1 + c2), st), st, reg, res)
    ensures use.Val? ==> Run(c0 + (c1 + c2), st) == Fall(st2)
  {
    var o := Run(c1, st1);
    RunConcat(c1, c2, st1);
    RunConcat(c0, c1 + c2, st);
    UndisturbedTrans(st, st1, o.st, mid);
    if o.Fall? {
      UndisturbedTrans(st, o.st, st2, reg);
    }
  }

  /** The whole probe-mode chain without its spills. */
  lemma {:induction false} ProbeBodyRun(steps: seq<Offset>, reg: Reg, v: u64, st: State)
    requires steps != [] && st.regs[reg] == Num(v) && st.regs[FP] == Ptr(Frame, 0)
    ensures Computes(Run(MovUnlessSame(R3, reg) + ProbeSteps(steps, |steps|, reg), st), st, reg,
                     Fold(st.mem, steps, v, 8))
    ensures var o := Run(MovUnlessSame(R3, reg) + ProbeSteps(steps, |steps|, reg), st);
            o.Fall? && !AllAddress(steps) ==> Spent(o.st, reg)
  {
    hide Step, Run, Scrubbed, Spent, HasLoad, AllAddress;
    var n := |steps| - 1;
    if !AllAddress(steps) {
      SomeLoad(steps);
    }
    var c1, c2 := ProbeSteps(steps, n, reg), ProbeStep(steps[n], reg, true);
    assert ProbeSteps(steps, |steps|, reg) == c1 + c2;
    var st1 := MovUnlessSameRun(R3, reg, st);
    ProbeStepsRun(steps, n, reg, v, st1);
    var o, use := Run(c1, st1), FoldUse(st.mem, steps, n, v);
    var st2 := st1;
    if use.Val? {
      st2 := ProbeLastRun(steps[n], reg, use.v, o.st);
    }
    ComposeBody(MovUnlessSame(R3, reg), c1, c2, R3, reg, use, Fold(st.mem, steps, v, 8), st, st1, st2);
  }

  /** The spills around a body that falls through: the pop brings the saved registers back, the target
      included if it is one of them, and leaves the others as the body left them. */
  lemma {:induction false} SpilledFalls(reserved: int, used: set<Reg>, n: nat, body: seq<Instr>, reg: Reg, res: Res,
                                        st: State)
    returns (st1: State, st3: State)
    requires ValidReserve(reserved) && n <= 5 && st.regs[FP] == Ptr(Frame, 0) && reg != FP
    requires forall st1: State :: st1 == st.(stack := st1.stack) ==> Computes(Run(body, st1), st1, reg, res)
    ensures st1 == st.(stack := st1.stack)
    ensures var o, all := Run(body, st1), Run(PushCode(reserved, used, n) + body + PopCode(reserved, used, n), st);
            if o.Fall? then
              && all == Fall(st3) && st3 == st.(regs := st3.regs, stack := st3.stack)
              && forall r: Reg :: st3.regs[r] == if Restored(used, n, r) then st.regs[r] else o.st.regs[r]
            else all == o
  {
    hide Step;
    var push, pop := PushCode(reserved, used, n), PopCode(reserved, used, n);
    st1 := PushRun(reserved, used, n, st);
    st3 := st1;
    var o := Run(body, st1);
    if o.Fall? {
      forall r: Reg | Restored(used, n, r)
        ensures Slot(reserved, used, n, r) in o.st.stack && o.st.stack[Slot(reserved, used, n, r)] == st.regs[r]
      {
        SlotsDisjoint(reserved, used, n, r, r);
        assert Slot(reserved, used, n, r) <= -16;
      }
      assert o.st.regs[FP] == Ptr(Frame, 0);
      st3 := PopRun(reserved, used, n, st, o.st);
    }
    RunConcat(body, pop, st1);
    RunConcat(push, body + pop, st);
    assert push + (body + pop) == push + body + pop;
  }

  /** The spills around a body: registers R6 and up are as the body leaves them, and so is the target
      when the pop does not overwrite it. */
  lemma {:induction false} SpilledRun(reserved: int, used: set<Reg>, n: nat, body: seq<Instr>, reg: Reg, res: Res,
                                      st: State)
    requires ValidReserve(reserved) && n <= 5 && st.regs[FP] == Ptr(Frame, 0)
    requires reg != FP && !Restored(used, n, reg)
    requires forall st1: State :: st1 == st.(stack := st1.stack) ==>
               Computes(Run(body, st1), st1, reg, res)
    ensures var o := Run(PushCode(reserved, used, n) + body + PopCode(reserved, used, n), st);
            && Agrees(o, reg, res)
            && (o.Fall? || o.Leave?) && KeepsHigh(st, o.st, reg)
            && (o.Fall? ==> forall r: Reg :: Restored(used, n, r) ==> o.st.regs[r] == st.regs[r])
  {
    hide Step, Run;
    var st1, st3 := SpilledFalls(reserved, used, n, body, reg, res, st);
    assert Computes(Run(body, st1), st1, reg, res);
  }

  // Core mode -----------------------------------------------------------------------------------

  lemma {:induction false} CastRun(id: int, p: u64, st: State) returns (st': State)
    requires st.regs[R1] == Num(p)
    ensures Run([Mov(R2, Imm(id)), Call(RdonlyCast)], st) == Fall(st')
    ensures Undisturbed(st, st', R3) && st'.regs[R0] == Num(p) && forall r: Reg :: 1 <= r <= 5 ==> st'.regs[r] == Unknown
  {
    var st1 := Set(st, R2, Num(Wrap(Int32(id))));
    st' := Clobber(st1, Num(p));
    assert Step(Mov(R2, Imm(id)), st) == Go(st1);
    assert Step(Call(RdonlyCast), st1) == Go(st');
    RunStraight([Mov(R2, Imm(id)), Call(RdonlyCast)], [st, st1, st']);
  }

  /** The code of every core-mode step, whatever its offset and its width. */
  lemma {:induction false} CoreStepRun(kind: CoreKind, off: int, reg: Reg, last: bool, p: u64, st: State)
    requires kind != CoreError && KindWidth(kind) <= 8 && reg != FP
    requires st.regs[R1] == Num(p) && st.regs[FP] == Ptr(Frame, 0)
    ensures var o, dst := Run(CoreStep(kind, off, reg, last), st), if last then reg else R1;
            && Computes(o, st, dst, CoreStepComputes(kind, off, last, st.mem, p))
            && (if last then kind != CoreAddress || Scrubbed(st, R1) ==> Spent(o.st, reg)
                else Scrubs(kind != CoreAddress, st, o.st, R1))
  {
    hide Step, Load, Run;
    var dst := if last then reg else R1;
    match kind
    case CoreAddress =>
      var st1 := AddUnlessZeroRun(R1, off, p, st);
      var st2 := MovUnlessSameRun(reg, R1, st1);
      RunConcat(AddUnlessZero(R1, off), MovUnlessSame(reg, R1), st);
      assert AddUnlessZero(R1, off) + [] == AddUnlessZero(R1, off);
    case CoreProbe =>
      assert CoreFallback(reg, last) == CoreFallback(dst, true);
      var st1 := FallbackRun(dst, p, st);
    case CoreCast(id, size) =>
      CoreCastRun(id, size, off, reg, last, p, st);
  }

  lemma {:induction false} CoreCastRun(id: int, size: nat, off: int, reg: Reg, last: bool, p: u64, st: State)
    requires size <= 8 && reg != FP
    requires st.regs[R1] == Num(p) && st.regs[FP] == Ptr(Frame, 0)
    ensures var o, dst := Run(CoreStep(CoreCast(id, size), off, reg, last), st), if last then reg else R1;
            && Computes(o, st, dst, CoreStepComputes(CoreCast(id, size), off, last, st.mem, p))
            && (if last then Spent(o.st, reg) else Scrubbed(o.st, R1))
  {
    hide Step, Load;
    var dst := if last then reg else R1;
    var st1 := CastRun(id, p, st);
    var tail := [Ldx(dst, R0, off, size)] + (if last then [] else [JmpLabel(Eq, dst, Imm(0), EXIT)]);
    LoadCheckRun(dst, R0, off, size, last, p, st1);
    assert CoreStep(CoreCast(id, size), off, reg, last) == [Mov(R2, Imm(id)), Call(RdonlyCast)] + tail;
    RunConcat([Mov(R2, Imm(id)), Call(RdonlyCast)], tail, st);
  }

  /** A load, followed by the jump to the exit label on zero unless it is the last. */
  lemma {:induction false} LoadCheckRun(dst: Reg, base: Reg, off: int, size: nat, last: bool, p: u64, st: State)
    requires st.regs[base] == Num(p) && size <= 8
    ensures var w := Load(st.mem, LoadAt(p, off), size);
            var o := Run([Ldx(dst, base, off, size)] + (if last then [] else [JmpLabel(Eq, dst, Imm(0), EXIT)]), st);
            Agrees(o, dst, Checked(last, w)) && o.st == Set(st, dst, Num(w))
  {
    var w := Load(st.mem, LoadAt(p, off), size);
    assert LoadWord(st.regs[base], off, size, st) == Ok2(Num(w));
    hide Step, Load;
    if last {
      var st' := LoadFromRun(dst, base, off, size, w, st);
      assert [Ldx(dst, base, off, size)] + [] == [Ldx(dst, base, off, size)];
    } else {
      NullCheckRun(dst, dst, base, off, size, w, st);
    }
  }

  lemma {:induction false} FallbackRun(reg: Reg, p: u64, st: State) returns (st': State)
    requires st.regs[R1] == Num(p) && st.regs[FP] == Ptr(Frame, 0)
    ensures Run(CoreFallback(reg, true), st) == Fall(st')
    ensures st'.regs[reg] == Num(Load(st.mem, p, 8))
    ensures Undisturbed(st, st', reg) && Scrubbed(st', reg)
  {
    hide Step;
    var rest := [Ldx(reg, FP, -8, 8)];
    var st1 := CopyRun(R3, R1, st);
    var st2 := ReadDwordRun(p, st1);
    st' := LoadScratchRun(reg, Load(st.mem, p, 8), st2);
    RunConcat(ReadDword, rest, st1);
    RunConcat([Mov(R3, R(R1))], ReadDword + rest, st);
    assert CoreFallback(reg, true) == [Mov(R3, R(R1))] + (ReadDword + rest);
    UndisturbedTrans(st, st1, st2, R3);
    UndisturbedTrans(st, st2, st', reg);
  }

  lemma {:induction false} CopyRun(dst: Reg, src: Reg, st: State) returns (st': State)
    ensures Run([Mov(dst, R(src))], st) == Fall(st')
    ensures st' == Set(st, dst, st.regs[src])
  {
    st' := Set(st, dst, st.regs[src]);
    RunStraight([Mov(dst, R(src))], [st, st']);
  }

  lemma {:induction false} LoadFromRun(dst: Reg, base: Reg, off: int, size: nat, w: u64, st: State) returns (st': State)
    requires LoadWord(st.regs[base], off, size, st) == Ok2(Num(w))
    ensures Run([Ldx(dst, base, off, size)], st) == Fall(st')
    ensures st' == Set(st, dst, Num(w))
  {
    st' := Set(st, dst, Num(w));
    RunStraight([Ldx(dst, base, off, size)], [st, st']);
  }

  lemma {:induction false} CoreStepsRun(cfg: Config, steps: seq<Offset>, n: nat, reg: Reg, v: u64, st: State)
    requires cfg.mode == ModeCore && CoreCompiles(cfg.spec, steps) && n < |steps| && reg != FP
    requires st.regs[R1] == Num(v) && st.regs[FP] == Ptr(Frame, 0)
    ensures var o := Run(CoreSteps(cfg.spec, steps, n, reg), st);
            && Computes(o, st, R1, ChainComputes(cfg, steps, n, st.mem, v))
            && (o.Fall? ==> Scrubs(HasLoad(steps, n), st, o.st, R1))
  {
    hide Step, Run, Scrubbed, CoreStep;
    NothingRun(st);
    if n > 0 {
      var s, kind := steps[n - 1], CoreKindOf(cfg.spec, steps[n - 1]);
      KindFits(cfg.spec, s);
      CoreStepsRun(cfg, steps, n - 1, reg, v, st);
      var o := Run(CoreSteps(cfg.spec, steps, n - 1, reg), st);
      if o.Fall? {
        CoreStepRun(kind, s.off, reg, false, ChainComputes(cfg, steps, n - 1, st.mem, v).v, o.st);
        UndisturbedTrans(st, o.st, Run(CoreStep(kind, s.off, reg, false), o.st).st, R1);
      }
      RunConcat(CoreSteps(cfg.spec, steps, n - 1, reg), CoreStep(kind, s.off, reg, false), st);
    }
  }

  lemma {:induction false} CoreBodyRun(cfg: Config, steps: seq<Offset>, reg: Reg, v: u64, st: State)
    requires cfg.mode == ModeCore && CoreCompiles(cfg.spec, steps) && !AllAddress(steps)
    requires reg != FP && st.regs[reg] == Num(v) && st.regs[FP] == Ptr(Frame, 0)
    ensures var o := Run(MovUnlessSame(R1, reg) + CoreSteps(cfg.spec, steps, |steps|, reg), st);
            Computes(o, st, reg, ChainComputes(cfg, steps, |steps|, st.mem, v)) && (o.Fall? ==> Spent(o.st, reg))
  {
    hide Step, Run, Scrubbed, Spent, HasLoad, AllAddress, CoreStep, CoreStepComputes;
    SomeLoad(steps);
    var n := |steps| - 1;
    var kind := CoreKindOf(cfg.spec, steps[n]);
    KindFits(cfg.spec, steps[n]);
    var c1, c2 := CoreSteps(cfg.spec, steps, n, reg), CoreStep(kind, steps[n].off, reg, true);
    assert CoreSteps(cfg.spec, steps, |steps|, reg) == c1 + c2;
    var st1 := MovUnlessSameRun(R1, reg, st);
    CoreStepsRun(cfg, steps, n, reg, v, st1);
    var o, use := Run(c1, st1), ChainComputes(cfg, steps, n, st.mem, v);
    var st2 := st1;
    if use.Val? {
      CoreStepRun(kind, steps[n].off, reg, true, use.v, o.st);
      LastHolds(kind, steps[n].off, st.mem, use.v);
      st2 := Run(c2, o.st).st;
    }
    ComposeBody(MovUnlessSame(R1, reg), c1, c2, R1, reg, use, ChainComputes(cfg, steps, |steps|, st.mem, v), st, st1, st2);
  }

  lemma {:induction false} LastHolds(kind: CoreKind, off: int, mem: Memory, p: u64)
    requires kind != CoreError && KindWidth(kind) <= 8
    ensures CoreStepComputes(kind, off, true, mem, p).Val?
  {
  }

  // Direct mode and pure address chains -----------------------------------------------------------

  /** Only `reg` changes. */
  ghost predicate OnlyReg(o: Outcome, st: State, reg: Reg) {
    (o.Fall? || o.Leave?) && o.st == Set(st, reg, o.st.regs[reg])
  }

  lemma {:induction false} DirectStepRun(s: Offset, reg: Reg, last: bool, p: u64, st: State)
    requires st.regs[reg] == Num(p)
    ensures var o := Run(DirectStep(s, reg, last), st);
            Agrees(o, reg, DirectStepComputes(s, last, st.mem, p)) && OnlyReg(o, st, reg)
  {
    hide Step, Load;
    if s.address {
      var st1 := AddUnlessZeroRun(reg, s.off, p, st);
    } else {
      LoadCheckRun(reg, reg, s.off, 8, last, p, st);
    }
  }

  lemma {:induction false} DirectStepsRun(cfg: Config, steps: seq<Offset>, n: nat, reg: Reg, v: u64, st: State)
    requires cfg.mode == ModeDirect && n <= |steps|
    requires st.regs[reg] == Num(v)
    ensures var o := Run(DirectSteps(steps, n, reg), st);
            Agrees(o, reg, ChainComputes(cfg, steps, n, st.mem, v)) && OnlyReg(o, st, reg)
  {
    hide Step, DirectStep, DirectStepComputes;
    if n > 0 {
      var s, last := steps[n - 1], n == |steps|;
      DirectStepsRun(cfg, steps, n - 1, reg, v, st);
      var o := Run(DirectSteps(steps, n - 1, reg), st);
      if o.Fall? {
        DirectStepRun(s, reg, last, ChainComputes(cfg, steps, n - 1, st.mem, v).v, o.st);
      }
      RunConcat(DirectSteps(steps, n - 1, reg), DirectStep(s, reg, last), st);
    }
  }

  /** A chain of address steps, in every mode. */
  lemma {:induction false} AddressRun(cfg: Config, steps: seq<Offset>, n: nat, reg: Reg, v: u64, st: State)
    returns (st': State)
    requires AllAddress(steps) && n <= |steps|
    requires st.regs[reg] == Num(v)
    ensures Run(AddressCode(steps, n, reg), st) == Fall(st')
    ensures ChainComputes(cfg, steps, n, st.mem, v).Val?
    ensures st' == Set(st, reg, Num(ChainComputes(cfg, steps, n, st.mem, v).v))
  {
    hide Step, Load;
    if n == 0 {
      st' := st;
    } else {
      var st0 := AddressRun(cfg, steps, n - 1, reg, v, st);
      var p := ChainComputes(cfg, steps, n - 1, st.mem, v).v;
      st' := AddRun(reg, steps[n - 1].off, p, st0);
      RunConcat(AddressCode(steps, n - 1, reg), [Alu(Add, reg, Imm(steps[n - 1].off))], st);
    }
  }

  lemma {:induction false} AddRun(reg: Reg, off: int, p: u64, st: State) returns (st': State)
    requires st.regs[reg] == Num(p)
    ensures Run([Alu(Add, reg, Imm(off))], st) == Fall(st')
    ensures st' == Set(st, reg, Num(Advance(p, off)))
  {
    st' := Set(st, reg, Num(Advance(p, off)));
    WrapAdd(p, Int32(off));
    RunStraight([Alu(Add, reg, Imm(off))], [st, st']);
  }

  // All backends ----------------------------------------------------------------------------------

  /** The registers a chain must not touch: the allocated ones, R9 and R10, but not its target. The null
      exit leaves the caller-saved ones behind. */
  ghost predicate KeepsUsed(st: State, o: Outcome, used: set<Reg>, reg: Reg) {
    && (o.Fall? || o.Leave?) && o.st == st.(regs := o.st.regs, stack := o.st.stack)
    && (forall r: Reg :: (r in used || r >= 9) && (r >= 6 || o.Fall?) && r != reg ==> o.st.regs[r] == st.regs[r])
  }

  /** Every backend, on every chain that compiles: the code leaves what the steps compute in the target
      register, or takes the null exit exactly when they come to Null. On the chains a backend is faithful
      to, that is the fold of the chain, the same for all three. */
  lemma {:induction false} ChainRun(cfg: Config, steps: seq<Offset>, reg: Reg, used: set<Reg>, v: u64, st: State)
    requires ValidReserve(cfg.reserved) && reg <= 8 && ChainCode(cfg, steps, reg, used).Some?
    requires SafeTarget(cfg, steps, reg, used)
    requires st.regs[reg] == Num(v) && st.regs[FP] == Ptr(Frame, 0)
    ensures var o, res := Run(ChainCode(cfg, steps, reg, used).value, st), ChainComputes(cfg, steps, |steps|, st.mem, v);
            && Agrees(o, reg, res) && KeepsUsed(st, o, used, reg)
            && (ChainFaithful(cfg, steps) ==> res == Fold(st.mem, steps, v, LastWidth(cfg, steps)))
  {
    hide Step;
    if ChainFaithful(cfg, steps) {
      ChainComputesFold(cfg, steps, st.mem, v);
    }
    hide ChainFaithful, Fold;
    if steps == [] {
    } else if AllAddress(steps) {
      var st1 := AddressRun(cfg, steps, |steps|, reg, v, st);
    } else if cfg.mode == ModeDirect {
      DirectStepsRun(cfg, steps, |steps|, reg, v, st);
    } else {
      var body := HelperBody(cfg, steps, reg);
      var res := ChainComputes(cfg, steps, |steps|, st.mem, v);
      forall st1: State | st1 == st.(stack := st1.stack)
        ensures Computes(Run(body, st1), st1, reg, res)
      {
        HelperBodyRun(cfg, steps, reg, v, st1);
      }
      HelperCode(cfg, steps, reg, used);
      SpilledRun(cfg.reserved, used, SavedRegs(cfg), body, reg, res, st);
    }
  }

  /** The code of a chain that calls helpers, between its spills. */
  function HelperBody(cfg: Config, steps: seq<Offset>, reg: Reg): seq<Instr>
    requires cfg.mode == ModeCore ==> CoreCompiles(cfg.spec, steps)
  {
    if cfg.mode == ModeCore then MovUnlessSame(R1, reg) + CoreSteps(cfg.spec, steps, |steps|, reg)
    else MovUnlessSame(R3, reg) + ProbeSteps(steps, |steps|, reg)
  }

  lemma {:induction false} HelperCode(cfg: Config, steps: seq<Offset>, reg: Reg, used: set<Reg>)
    requires steps != [] && !AllAddress(steps) && cfg.mode != ModeDirect && ChainCode(cfg, steps, reg, used).Some?
    ensures cfg.mode == ModeCore ==> CoreCompiles(cfg.spec, steps)
    ensures ChainCode(cfg, steps, reg, used).value ==
            PushCode(cfg.reserved, used, SavedRegs(cfg)) + HelperBody(cfg, steps, reg) +
            PopCode(cfg.reserved, used, SavedRegs(cfg))
  {
  }

  lemma {:induction false} HelperBodyRun(cfg: Config, steps: seq<Offset>, reg: Reg, v: u64, st: State)
    requires !AllAddress(steps) && cfg.mode != ModeDirect && (cfg.mode == ModeCore ==> CoreCompiles(cfg.spec, steps))
    requires reg != FP && st.regs[reg] == Num(v) && st.regs[FP] == Ptr(Frame, 0)
    ensures var o := Run(HelperBody(cfg, steps, reg), st);
            Computes(o, st, reg, ChainComputes(cfg, steps, |steps|, st.mem, v)) && (o.Fall? ==> Spent(o.st, reg))
  {
    hide Step, Run;
    if cfg.mode == ModeCore {
      CoreBodyRun(cfg, steps, reg, v, st);
    } else {
      assert ChainFaithful(cfg, steps);
      ChainComputesFold(cfg, steps, st.mem, v);
      ProbeBodyRun(steps, reg, v, st);
    }
  }
}
