/** The compiler as the program builds it: a register table that is updated in place and an
    instruction buffer that grows. Every method does what its function in Codegen says. */
module Compiler {
  import opened Words
  import opened Machine
  import opened Types
  import opened Spill
  import opened Chains
  import opened Operators
  import opened Codegen
  import opened Filter

  const AllRegs: set<Reg> := {0, 1, 2, 3, 4, 5, 6, 7, 8, 9}

  class RegisterAllocator {
    const registers: array<bool>

    ghost predicate Valid() {
      registers.Length == 10
    }

    /** The registers marked in the table. */
    ghost function Used(): (used: set<Reg>)
      requires Valid()
      reads registers
      ensures forall r: Reg :: r in used <==> r <= 9 && registers[r]
    {
      set r | r in AllRegs && registers[r]
    }

    constructor ()
      ensures Valid() && fresh(registers) && Used() == {}
    {
      registers := new bool[10](i => false);
    }

    method Alloc() returns (res: Option<Reg>)
      requires Valid()
      modifies registers
      ensures res == Codegen.Alloc(old(Used()))
      ensures Used() == if res.Some? then old(Used()) + {res.value} else old(Used())
    {
      var i := 8;
      ghost var used := Used();
      while i >= 0
        invariant -1 <= i <= 8
        invariant Codegen.Alloc(used) == if i < 0 then None else AllocFrom(used, i)
        invariant Used() == used
      {
        if !registers[i] {
          registers[i] := true;
          return Some(i);
        }
        i := i - 1;
      }
      return None;
    }

    method Free(reg: Reg)
      requires Valid()
      modifies registers
      ensures Used() == old(Used()) - {reg}
    {
      if reg <= 9 {
        registers[reg] := false;
      }
    }

    method IsUsed(reg: Reg) returns (used: bool)
      requires Valid() && reg <= 9
      ensures used <==> reg in Used()
    {
      used := registers[reg];
    }

    method MarkUsed(reg: Reg)
      requires Valid() && reg <= 9
      modifies registers
      ensures Used() == old(Used()) + {reg}
    {
      registers[reg] := true;
    }
  }

  /** Operands after PreHandle, with their registers. */
  function PreHandleValues(spec: Spec, l: Value, r: Value): (res: Option<(Value, Value)>)
    ensures res.Some? <==> PreHandle(spec, Static(l), Static(r)).Some?
    ensures res.Some? ==>
              && PreHandle(spec, Static(l), Static(r)).value == (Static(res.value.0), Static(res.value.1))
              && (l.VReg? ==> res.value.0 == l) && (r.VReg? ==> res.value.1 == r)
              && (res.value.0.VReg? ==> l.VReg?) && (res.value.1.VReg? ==> r.VReg?)
  {
    match PreHandle(spec, Static(l), Static(r))
    case None => None
    case Some((a, b)) => Some((WithShape(a, RegOf(l)), WithShape(b, RegOf(r))))
  }

  /** An access on its way through the expression: its type and its offset list are edited in place. */
  class AccessResult {
    const base: Base
    var ty: Ty
    var mem: Option<Field>
    var lastIdx: int
    var offsets: seq<Offset>

    constructor (base: Base, ty: Ty, lastIdx: int)
      ensures State() == Codegen.Access(base, ty, None, lastIdx, [])
    {
      this.base, this.ty, this.lastIdx := base, ty, lastIdx;
      mem, offsets := None, [];
    }

    function State(): Access
      reads this
    {
      Codegen.Access(base, ty, mem, lastIdx, offsets)
    }

    /** The edit succeeds exactly when `spec` does, and leaves it. */
    ghost predicate Becomes(ok: bool, spec: Option<Access>)
      reads this
    {
      ok == spec.Some? && (ok ==> State() == spec.value)
    }

    method AddOffset(o: Offset)
      modifies this`lastIdx, this`offsets
      ensures State() == Codegen.AddOffset(old(State()), o)
    {
      lastIdx := |offsets|;
      offsets := offsets + [o];
    }

    /** Without `ok` the index is out of range. */
    method PrevBtf() returns (ok: bool, prev: Option<Ty>)
      ensures PrevTy(State()) == if ok then Some(prev) else None
    {
      if lastIdx < 0 {
        return true, None;
      }
      if lastIdx >= |offsets| {
        return false, None;
      }
      return true, offsets[lastIdx].prev;
    }

    method Member(cfg: Config, name: string) returns (ok: bool)
      requires WellIndexed(State())
      modifies this
      ensures Becomes(ok, LowerMember(cfg, old(State()), name))
    {
      if IsBitfield(mem) {
        return false;
      }
      var t := Underlying(ty);
      var useArrow := t.Pointer?;
      if useArrow {
        t := Underlying(t.target);
      }
      var field := FindField(cfg, t, name);
      if field == None {
        return false;
      }
      var f := field.value;
      if !useArrow {
        if offsets == [] {
          return false;
        }
        offsets := offsets[lastIdx := offsets[lastIdx].(off := offsets[lastIdx].off + f.off)];
        offsets := offsets[lastIdx := offsets[lastIdx].(ty := f.ty)];
      } else {
        AddOffset(Offset(f.off, false, f.ty, Some(ty), false));
      }
      ty := f.ty;
      if Underlying(f.ty).Array? {
        offsets := offsets[lastIdx := offsets[lastIdx].(address := true)];
        mem := None;
      } else {
        mem := field;
      }
      return true;
    }

    /** Adds an address step of `num` elements. */
    method Add(cfg: Config, num: int) returns (ok: bool)
      modifies this
      ensures Becomes(ok, LowerAdd(cfg, old(State()), num))
    {
      if IsBitfield(mem) {
        return false;
      }
      var t := Underlying(ty);
      var elem, to := Void, ty;
      var scale := 1;
      if t.Pointer? {
        elem := t.target;
      } else if t.Array? {
        elem, to := t.elem, Pointer(t.elem);
      } else {
        return false;
      }
      var inRange, prev := PrevBtf();
      if !inRange {
        return false;
      }
      if t.Array? || !Underlying(elem).Void? {
        var size := SizeOf(cfg.spec, elem);
        if size == None {
          return false;
        }
        scale := size.value;
      }
      VoidSized(cfg.spec, elem);
      AddOffset(Offset(scale * num, true, to, prev, false));
      mem := None;
      return true;
    }

    method Plus(cfg: Config, num: i64) returns (ok: bool)
      requires WellIndexed(State())
      modifies this
      ensures Becomes(ok, LowerPlus(cfg, Some(old(State())), num))
    {
      if IsBitfield(mem) {
        return false;
      }
      if num == 0 {
        return true;
      }
      ok := Add(cfg, num);
    }

    method Addr() returns (ok: bool)
      requires WellIndexed(State())
      modifies this
      ensures Becomes(ok, LowerAddr(old(State())))
    {
      if offsets == [] {
        return false;
      }
      offsets := offsets[lastIdx := offsets[lastIdx].(address := true)];
      ty := Pointer(ty);
      offsets := offsets[lastIdx := offsets[lastIdx].(ty := ty)];
      mem := None;
      return true;
    }

    method Cast(to: Ty)
      requires WellIndexed(State())
      modifies this
      ensures State() == LowerCast(old(State()), to)
    {
      ty := to;
      if offsets != [] {
        offsets := offsets[lastIdx := offsets[lastIdx].(ty := ty)];
      }
      mem := None;
    }

    method Index(cfg: Config, index: i64) returns (ok: bool)
      modifies this
      ensures Becomes(ok, LowerIndex(cfg, old(State()), index))
    {
      if IsBitfield(mem) {
        return false;
      }
      var t := Underlying(ty);
      var inArray := false;
      if t.Pointer? {
        ty := t.target;
      } else if t.Array? {
        ty := t.elem;
        inArray := true;
      } else {
        return false;
      }
      var size := SizeOrZero(cfg.spec, ty);
      if size == 0 {
        return false;
      }
      var inRange, prev := PrevBtf();
      if !inRange {
        return false;
      }
      AddOffset(Offset(index * size, false, ty, prev, inArray));
      mem := None;
      return true;
    }

    method Indir() returns (ok: bool)
      modifies this
      ensures Becomes(ok, LowerIndir(old(State())))
    {
      if IsBitfield(mem) {
        return false;
      }
      var t := Underlying(ty);
      if !t.Pointer? {
        return false;
      }
      AddOffset(Offset(0, false, t.target, Some(ty), false));
      ty := t.target;
      mem := None;
      return true;
    }
  }

  /** What a type that is void underneath occupies. */
  lemma {:induction false} VoidSized(spec: Spec, t: Ty)
    ensures Underlying(t).Void? ==> SizeOf(spec, t) == Some(0)
  {
    SizeOfUnderlying(spec, t);
  }

  /** The value of an access, or None where there is an error. */
  ghost function Contents(res: Option<AccessResult>): Option<Access>
    reads if res.Some? then {res.value} else {}
  {
    if res.Some? then Some(res.value.State()) else None
  }

  class Compiler {
    const cfg: Config
    const regalloc: RegisterAllocator
    var insns: seq<Instr>
    var labelExitUsed: bool

    ghost predicate Valid() {
      ValidConfig(cfg) && regalloc.Valid()
    }

    ghost function Used(): set<Reg>
      requires Valid()
      reads regalloc.registers
    {
      regalloc.Used()
    }

    constructor (cfg: Config)
      requires ValidConfig(cfg)
      ensures Valid() && fresh(regalloc) && fresh(regalloc.registers)
      ensures this.cfg == cfg && insns == [] && !labelExitUsed && Used() == {}
    {
      this.cfg := cfg;
      regalloc := new RegisterAllocator();
      insns := [];
      labelExitUsed := false;
    }

    /** The buffer, the table and the flag have moved from the given state as `spec` says, and the
        result is the value of `spec`; a rejected expression has no result. */
    ghost predicate Emitted(insns0: seq<Instr>, exits0: bool, spec: Option<Out>, res: Option<Value>)
      requires Valid()
      reads this, regalloc.registers
    {
      match spec
      case None => res == None
      case Some(o) =>
        && res == Some(o.val)
        && insns == insns0 + o.code
        && Used() == o.used
        && labelExitUsed == (exits0 || o.exits)
    }

    method Emit(code: seq<Instr>)
      modifies this`insns
      ensures insns == old(insns) + code
    {
      insns := insns + code;
    }

    method EmitLoadArg(index: nat, dst: Reg)
      modifies this`insns
      ensures insns == old(insns) + LoadArg(index, dst)
    {
      Emit([Ldx(dst, R9, index * 8, 8)]);
    }

    // Spills -----------------------------------------------------------------------------------

    method CountUsedRegs(n: nat) returns (k: nat)
      requires Valid() && n <= 5
      ensures k == CountUsed(Used(), n)
    {
      k := 0;
      var i := 0;
      while i < n
        invariant i <= n && k == CountUsed(Used(), i)
      {
        var used := regalloc.IsUsed(1 + i);
        if used {
          k := k + 1;
        }
        i := i + 1;
      }
    }

    method PushUsedCallerSavedRegsN(n: nat)
      requires Valid() && n <= 5
      modifies this`insns
      ensures insns == old(insns) + PushCode(cfg.reserved, Used(), n)
    {
      var usedRegNr := CountUsedRegs(n);
      var offset := cfg.reserved + usedRegNr * 8;
      var r0 := regalloc.IsUsed(R0);
      ghost var start := insns;
      if r0 {
        Emit([Stx(FP, -offset - 8, R0, 8)]);
      }
      ghost var first := insns;
      var i := 0;
      while i < usedRegNr
        invariant i <= usedRegNr <= 5 && insns == first + SaveRegs(offset, i)
      {
        Emit([Stx(FP, -offset + i * 8, 1 + i, 8)]);
        i := i + 1;
      }
    }

    method PopUsedCallerSavedRegsN(n: nat)
      requires Valid() && n <= 5
      modifies this`insns
      ensures insns == old(insns) + PopCode(cfg.reserved, Used(), n)
    {
      var usedRegNr := CountUsedRegs(n);
      var offset := cfg.reserved + usedRegNr * 8;
      ghost var start := insns;
      var i := 0;
      while i < usedRegNr
        invariant i <= usedRegNr <= 5 && insns == start + RestoreRegs(offset, i)
      {
        Emit([Ldx(1 + i, FP, -offset + i * 8, 8)]);
        i := i + 1;
      }
      var r0 := regalloc.IsUsed(R0);
      if r0 {
        Emit([Ldx(R0, FP, -offset - 8, 8)]);
      }
    }

    // Chains -----------------------------------------------------------------------------------

    method IsAllAddress(offsets: seq<Offset>) returns (all: bool)
      ensures all <==> AllAddress(offsets)
    {
      all := true;
      for i := 0 to |offsets|
        invariant all <==> forall j :: 0 <= j < i ==> offsets[j].address
      {
        all := all && offsets[i].address;
      }
    }

    method EmitAddresses(offsets: seq<Offset>, reg: Reg)
      modifies this`insns
      ensures insns == old(insns) + AddressCode(offsets, |offsets|, reg)
    {
      for i := 0 to |offsets|
        invariant insns == old(insns) + AddressCode(offsets, i, reg)
      {
        Emit([Alu(Add, reg, Imm(offsets[i].off))]);
      }
    }

    method EmitProbeStep(offset: Offset, reg: Reg, last: bool)
      modifies this`insns, this`labelExitUsed
      ensures insns == old(insns) + ProbeStep(offset, reg, last)
      ensures labelExitUsed == (old(labelExitUsed) || (!last && !offset.address))
    {
      if offset.off != 0 {
        Emit([Alu(Add, R3, Imm(offset.off))]);
      }
      if offset.address {
        if last && reg != R3 {
          Emit([Mov(reg, R(R3))]);
        }
      } else {
        Emit([Mov(R2, Imm(8)), Mov(R1, R(FP)), Alu(Add, R1, Imm(-8)), Call(ProbeRead)]);
        if !last {
          labelExitUsed := true;
          Emit([Ldx(R3, FP, -8, 8), JmpLabel(Eq, R3, Imm(0), EXIT)]);
        } else {
          Emit([Ldx(reg, FP, -8, 8)]);
        }
      }
    }

    method ProbeReadOffsets(offsets: seq<Offset>, reg: Reg)
      requires Valid() && !AllAddress(offsets)
      modifies this`insns, this`labelExitUsed
      ensures insns == old(insns) + ProbeCode(cfg, offsets, reg, Used())
      ensures labelExitUsed == (old(labelExitUsed) || HasInnerLoad(offsets))
    {
      hide ProbeSteps, PushCode, PopCode, HasInnerLoad;
      PushUsedCallerSavedRegsN(5);
      ghost var pushed := insns;
      if reg != R3 {
        Emit([Mov(R3, R(reg))]);
      }
      assert insns == pushed + MovUnlessSame(R3, reg);
      EmitProbeSteps(offsets, reg);
      assert insns == pushed + (MovUnlessSame(R3, reg) + ProbeSteps(offsets, |offsets|, reg));
      PopUsedCallerSavedRegsN(5);
    }

    method EmitProbeSteps(offsets: seq<Offset>, reg: Reg)
      modifies this`insns, this`labelExitUsed
      ensures insns == old(insns) + ProbeSteps(offsets, |offsets|, reg)
      ensures labelExitUsed == (old(labelExitUsed) || HasInnerLoad(offsets))
    {
      hide ProbeStep;
      var lastIndex := |offsets| - 1;
      for i := 0 to |offsets|
        invariant insns == old(insns) + ProbeSteps(offsets, i, reg)
        invariant labelExitUsed == (old(labelExitUsed) || exists j :: 0 <= j < i && j < lastIndex && !offsets[j].address)
      {
        EmitProbeStep(offsets[i], reg, i == lastIndex);
      }
    }

    method CoreReadByProbeRead(reg: Reg, last: bool)
      modifies this`insns
      ensures insns == old(insns) + CoreFallback(reg, last)
    {
      var resReg := R1;
      if last && reg != R1 {
        resReg := reg;
      }
      Emit([Mov(R3, R(R1)), Mov(R2, Imm(8)), Mov(R1, R(FP)), Alu(Add, R1, Imm(-8)), Call(ProbeRead),
            Ldx(resReg, FP, -8, 8)]);
    }

    method EmitCoreStep(offset: Offset, reg: Reg, last: bool) returns (ok: bool)
      modifies this`insns, this`labelExitUsed
      ensures ok <==> CoreKindOf(cfg.spec, offset) != CoreError
      ensures ok ==> insns == old(insns) + CoreStep(CoreKindOf(cfg.spec, offset), offset.off, reg, last)
      ensures ok ==> labelExitUsed == (old(labelExitUsed) || (!last && CoreKindOf(cfg.spec, offset).CoreCast?))
    {
      if offset.address {
        if offset.off != 0 {
          Emit([Alu(Add, R1, Imm(offset.off))]);
        }
        if last && reg != R1 {
          Emit([Mov(reg, R(R1))]);
        }
        return true;
      }
      var check := CanRdonlyCast(cfg.spec, offset.prev);
      if check == CastError {
        return false;
      }
      if check == NotCastable {
        CoreReadByProbeRead(reg, last);
        return true;
      }
      var size := LoadSize(cfg.spec, offset.ty);
      if size == None {
        return false;
      }
      if !CanReadByRdonlyCast(offset.ty) || offset.inArray {
        CoreReadByProbeRead(reg, last);
      } else if !last {
        Emit([Mov(R2, Imm(check.id)), Call(RdonlyCast), Ldx(R1, R0, offset.off, size.value),
              JmpLabel(Eq, R1, Imm(0), EXIT)]);
        labelExitUsed := true;
      } else {
        Emit([Mov(R2, Imm(check.id)), Call(RdonlyCast), Ldx(reg, R0, offset.off, size.value)]);
      }
      return true;
    }

    method CoreReadOffsets(offsets: seq<Offset>, reg: Reg) returns (ok: bool)
      requires Valid() && cfg.mode == ModeCore && !AllAddress(offsets)
      modifies this`insns, this`labelExitUsed
      ensures ok <==> CoreCompiles(cfg.spec, offsets)
      ensures ok ==> insns == old(insns) + CoreCode(cfg, offsets, reg, Used())
      ensures ok ==> labelExitUsed == (old(labelExitUsed) || MarksExit(cfg, offsets))
    {
      hide CoreSteps, PushCode, PopCode, CoreKindOf, CoreCompiles;
      var regsNr := 5;
      if cfg.fastcall {
        regsNr := 2;
      }
      PushUsedCallerSavedRegsN(regsNr);
      ghost var pushed := insns;
      if reg != R1 {
        Emit([Mov(R1, R(reg))]);
      }
      assert insns == pushed + MovUnlessSame(R1, reg);
      ok := EmitCoreSteps(offsets, reg);
      if !ok {
        return;
      }
      assert insns == pushed + (MovUnlessSame(R1, reg) + CoreSteps(cfg.spec, offsets, |offsets|, reg));
      PopUsedCallerSavedRegsN(regsNr);
    }

    method EmitCoreSteps(offsets: seq<Offset>, reg: Reg) returns (ok: bool)
      modifies this`insns, this`labelExitUsed
      ensures ok <==> CoreCompiles(cfg.spec, offsets)
      ensures ok ==> insns == old(insns) + CoreSteps(cfg.spec, offsets, |offsets|, reg)
      ensures ok ==> labelExitUsed ==
                     (old(labelExitUsed) || exists j :: 0 <= j < |offsets| - 1 && CoreKindOf(cfg.spec, offsets[j]).CoreCast?)
    {
      hide CoreStep, CoreKindOf;
      var lastIdx := |offsets| - 1;
      for i := 0 to |offsets|
        invariant CoreCompiles(cfg.spec, offsets[..i])
        invariant insns == old(insns) + CoreStepsOf(offsets, i, reg)
        invariant labelExitUsed ==
                  (old(labelExitUsed) || exists j :: 0 <= j < i && j < lastIdx && CoreKindOf(cfg.spec, offsets[j]).CoreCast?)
      {
        var stepOk := EmitCoreStep(offsets[i], reg, i == lastIdx);
        if !stepOk {
          return false;
        }
        CoreStepsOfNext(offsets, i, reg);
      }
      assert offsets[..|offsets|] == offsets;
      CoreStepsOfAll(offsets, |offsets|, reg);
      return true;
    }

    /** CoreSteps of the steps seen so far, with the end of the whole chain in view. */
    ghost function CoreStepsOf(offsets: seq<Offset>, n: nat, reg: Reg): seq<Instr>
      requires n <= |offsets| && CoreCompiles(cfg.spec, offsets[..n])
    {
      if n == 0 then []
      else
        assert offsets[..n - 1] == offsets[..n][..n - 1];
        assert offsets[n - 1] == offsets[..n][n - 1];
        CoreStepsOf(offsets, n - 1, reg) +
        CoreStep(CoreKindOf(cfg.spec, offsets[n - 1]), offsets[n - 1].off, reg, n == |offsets|)
    }

    lemma {:induction false} CoreStepsOfNext(offsets: seq<Offset>, n: nat, reg: Reg)
      requires n < |offsets| && CoreCompiles(cfg.spec, offsets[..n])
      requires CoreKindOf(cfg.spec, offsets[n]) != CoreError
      ensures CoreCompiles(cfg.spec, offsets[..n + 1])
      ensures CoreStepsOf(offsets, n + 1, reg) ==
              CoreStepsOf(offsets, n, reg) + CoreStep(CoreKindOf(cfg.spec, offsets[n]), offsets[n].off, reg, n + 1 == |offsets|)
    {
      assert forall i :: 0 <= i < n ==> offsets[..n + 1][i] == offsets[..n][i];
      assert offsets[..n + 1][n] == offsets[n];
    }

    lemma {:induction false} CoreStepsOfAll(offsets: seq<Offset>, n: nat, reg: Reg)
      requires n <= |offsets| && CoreCompiles(cfg.spec, offsets)
      ensures CoreCompiles(cfg.spec, offsets[..n])
      ensures CoreStepsOf(offsets, n, reg) == CoreSteps(cfg.spec, offsets, n, reg)
    {
      if n > 0 {
        CoreStepsOfAll(offsets, n - 1, reg);
      }
    }

    method DirectReadOffsets(offsets: seq<Offset>, reg: Reg)
      modifies this`insns
      ensures insns == old(insns) + DirectSteps(offsets, |offsets|, reg)
    {
      var lastIdx := |offsets| - 1;
      for i := 0 to |offsets|
        invariant insns == old(insns) + DirectSteps(offsets, i, reg)
      {
        var offset := offsets[i];
        ghost var before := insns;
        if offset.address {
          if offset.off != 0 {
            Emit([Alu(Add, reg, Imm(offset.off))]);
          }
        } else {
          Emit([Ldx(reg, reg, offset.off, 8)]);
          if i != lastIdx {
            Emit([JmpLabel(Eq, reg, Imm(0), EXIT)]);
          }
        }
        assert insns == before + DirectStep(offset, reg, i == lastIdx);
      }
    }

    method Offset2insns(offsets: seq<Offset>, reg: Reg) returns (ok: bool)
      requires Valid()
      modifies this`insns, this`labelExitUsed
      ensures ok <==> ChainCode(cfg, offsets, reg, Used()).Some?
      ensures ok ==> insns == old(insns) + ChainCode(cfg, offsets, reg, Used()).value
      ensures ok ==> labelExitUsed == (old(labelExitUsed) || MarksExit(cfg, offsets))
    {
      if offsets == [] {
        return true;
      }
      var allAddress := IsAllAddress(offsets);
      if allAddress {
        EmitAddresses(offsets, reg);
        return true;
      }
      match cfg.mode
      case ModeCore => ok := CoreReadOffsets(offsets, reg);
      case ModeDirect =>
        DirectReadOffsets(offsets, reg);
        ok := true;
      case ModeProbe =>
        ProbeReadOffsets(offsets, reg);
        ok := true;
    }

    // The final cut ----------------------------------------------------------------------------

    method Bitfield2insns(member: Field, reg: Reg)
      requires member.bits != 0
      modifies this`insns
      ensures forall ty: Ty :: insns == old(insns) + FinishCode(cfg.spec, ty, Some(member), reg)
    {
      if member.delta != 0 {
        Emit([Alu(Rsh, reg, Imm(member.delta))]);
      }
      Emit([Alu(And, reg, Imm(Pow2(member.bits) - 1))]);
    }

    method AdjustRegisterBitwise(ty: Ty, mem: Option<Field>, reg: Reg)
      requires !IsBitfield(mem)
      modifies this`insns
      ensures insns == old(insns) + FinishCode(cfg.spec, ty, mem, reg)
    {
      match SizeOf(cfg.spec, ty)
      case Some(1) => Emit([Alu(And, reg, Imm(0xFF))]);
      case Some(2) => Emit([Alu(And, reg, Imm(0xFFFF))]);
      case Some(4) =>
        Emit([Alu(Lsh, reg, Imm(32))]);
        Emit([Alu(Rsh, reg, Imm(32))]);
      case _ =>
    }

    // Operators --------------------------------------------------------------------------------

    method EmitReg2Bool(reg: Reg)
      modifies this`insns
      ensures insns == old(insns) + Reg2Bool(reg)
    {
      Emit([Mov(reg, Imm(1)), Ja(1), Alu(Xor, reg, R(reg))]);
    }

    method FreeValue(v: Value)
      requires Valid() && v.VReg?
      modifies regalloc.registers
      ensures Used() == old(Used()) - RegsOf(v)
    {
      regalloc.Free(v.reg);
    }

    method EmitAdd(left0: Value, right0: Value) returns (res: Option<Value>)
      requires Valid()
      modifies this`insns, regalloc.registers
      ensures Emitted(old(insns), labelExitUsed, EmitBin(cfg.spec, OAdd, left0, right0, old(Used())), res)
    {
      hide PreHandle, PreHandleValues, AddScale, SubScale, ElemSize, SignedBits, Pow2, TruncDiv;
      var pre := PreHandleValues(cfg.spec, left0, right0);
      if pre == None {
        return None;
      }
      var (left, right) := pre.value;
      match (left, right)
      case (VNum(n), VNum(m)) => return Some(VNum(Int64(n + m)));
      case (VReg(l, ty, _), VReg(r, _, _)) =>
        var size := ElemSize(cfg.spec, ty);
        if size != 0 {
          Emit([Alu(Mul, r, Imm(size))]);
        }
        Emit([Alu(Add, l, R(r))]);
        FreeValue(right);
        return Some(left);
      case (VNum(n), VReg(r, ty, _)) =>
        if n == 0 {
          return Some(right);
        }
        var scale := AddScale(cfg.spec, ty);
        if scale == None {
          return None;
        }
        Emit([Alu(Add, r, Imm(n * scale.value))]);
        return Some(right);
      case (VReg(l, ty, _), VNum(n)) =>
        if n == 0 {
          return Some(left);
        }
        var scale := AddScale(cfg.spec, ty);
        if scale == None {
          return None;
        }
        Emit([Alu(Add, l, Imm(n * scale.value))]);
        return Some(left);
      case _ => return None;
    }

    lemma {:induction false} SubParts(a: Shape, b: Shape, l: Reg, r: Reg, f: Reg)
      ensures a.SEnum? || b.SEnum? ==> BinPlan(cfg.spec, OSub, a, b) == None
      ensures a.SNum? && b.SNum? ==>
                && BinPlan(cfg.spec, OSub, a, b) == Some(PConst(Int64(a.n - b.n)))
                && BinCode(cfg.spec, OSub, a, b, l, r, f) == []
      ensures a.SNum? && b.SReg? ==>
                && BinPlan(cfg.spec, OSub, a, b) == (if IsIntOrEnum(b.ty) then Some(PRight) else None)
                && BinCode(cfg.spec, OSub, a, b, l, r, f) == if a.n == 0 then [Neg(r)] else [Alu(Sub, r, Imm(a.n))]
      ensures a.SReg? && b.SNum? ==>
                var scale := SubScale(cfg.spec, a.ty);
                && BinPlan(cfg.spec, OSub, a, b) == (if b.n == 0 || scale.Some? then Some(PLeft) else None)
                && BinCode(cfg.spec, OSub, a, b, l, r, f) ==
                   if b.n == 0 || scale == None then [] else [Alu(Sub, l, Imm(b.n * scale.value))]
      ensures a.SReg? && b.SReg? ==>
                var size := ElemSize(cfg.spec, a.ty);
                && BinPlan(cfg.spec, OSub, a, b) == Some(PLeft)
                && BinCode(cfg.spec, OSub, a, b, l, r, f) ==
                   (if size != 0 then [Alu(Mul, r, Imm(size))] else []) + [Alu(Sub, l, R(r))]
    {
      hide SubScale, ElemSize, IsIntOrEnum;
    }

    method EmitSub(left0: Value, right0: Value) returns (res: Option<Value>)
      requires Valid()
      modifies this`insns, regalloc.registers
      ensures Emitted(old(insns), labelExitUsed, EmitBin(cfg.spec, OSub, left0, right0, old(Used())), res)
    {
      hide BinPlan, BinCode, PreHandle, PreHandleValues, SubScale, ElemSize, IsIntOrEnum;
      var pre := PreHandleValues(cfg.spec, left0, right0);
      if pre == None {
        return None;
      }
      var (left, right) := pre.value;
      SubParts(Static(left), Static(right), RegOf(left0), RegOf(right0), RegOf(right0));
      match (left, right)
      case (VNum(n), VNum(m)) => return Some(VNum(Int64(n - m)));
      case (VNum(n), VReg(r, ty, _)) =>
        if !IsIntOrEnum(ty) {
          return None;
        }
        if n == 0 {
          Emit([Neg(r)]);
        } else {
          Emit([Alu(Sub, r, Imm(n))]);
        }
        return Some(right);
      case (VReg(l, ty, _), VNum(n)) =>
        if n == 0 {
          return Some(left);
        }
        var scale := SubScale(cfg.spec, ty);
        if scale == None {
          return None;
        }
        Emit([Alu(Sub, l, Imm(n * scale.value))]);
        return Some(left);
      case (VReg(l, ty, _), VReg(r, _, _)) =>
        var size := ElemSize(cfg.spec, ty);
        if size != 0 {
          Emit([Alu(Mul, r, Imm(size))]);
        }
        Emit([Alu(Sub, l, R(r))]);
        FreeValue(right);
        return Some(left);
      case _ => return None;
    }

    method EmitAnd(left0: Value, right0: Value) returns (res: Option<Value>)
      requires Valid()
      modifies this`insns, regalloc.registers
      ensures Emitted(old(insns), labelExitUsed, EmitBin(cfg.spec, OAnd, left0, right0, old(Used())), res)
    {
      hide PreHandle, PreHandleValues, AddScale, SubScale, ElemSize, SignedBits, Pow2, TruncDiv;
      var pre := PreHandleValues(cfg.spec, left0, right0);
      if pre == None {
        return None;
      }
      var (left, right) := pre.value;
      match (left, right)
      case (VNum(n), VNum(m)) => return Some(VNum(SignedBits(BAnd, n, m)));
      case (VReg(l, _, _), VReg(r, _, _)) =>
        Emit([Alu(And, l, R(r))]);
        FreeValue(right);
        return Some(left);
      case (VNum(n), VReg(r, _, _)) =>
        Emit([Alu(And, r, Imm(n))]);
        return Some(right);
      case (VReg(l, _, _), VNum(n)) =>
        Emit([Alu(And, l, Imm(n))]);
        return Some(left);
      case _ => return None;
    }

    /** A register that meets the constant 0 is dropped, and the result is 0. */
    method EmitOr(left0: Value, right0: Value) returns (res: Option<Value>)
      requires Valid()
      modifies this`insns, regalloc.registers
      ensures Emitted(old(insns), labelExitUsed, EmitBin(cfg.spec, OOr, left0, right0, old(Used())), res)
    {
      hide PreHandle, PreHandleValues, AddScale, SubScale, ElemSize, SignedBits, Pow2, TruncDiv;
      var pre := PreHandleValues(cfg.spec, left0, right0);
      if pre == None {
        return None;
      }
      var (left, right) := pre.value;
      match (left, right)
      case (VNum(n), VNum(m)) => return Some(VNum(SignedBits(BOr, n, m)));
      case (VReg(l, _, _), VReg(r, _, _)) =>
        Emit([Alu(Or, l, R(r))]);
        FreeValue(right);
        return Some(left);
      case (VNum(n), VReg(r, _, _)) =>
        if n == 0 {
          FreeValue(right);
          return Some(left);
        }
        Emit([Alu(Or, r, Imm(n))]);
        return Some(right);
      case (VReg(l, _, _), VNum(n)) =>
        if n == 0 {
          FreeValue(left);
          return Some(right);
        }
        Emit([Alu(Or, l, Imm(n))]);
        return Some(left);
      case _ => return None;
    }

    method EmitXor(left0: Value, right0: Value) returns (res: Option<Value>)
      requires Valid()
      modifies this`insns, regalloc.registers
      ensures Emitted(old(insns), labelExitUsed, EmitBin(cfg.spec, OXor, left0, right0, old(Used())), res)
    {
      hide PreHandle, PreHandleValues, AddScale, SubScale, ElemSize, SignedBits, Pow2, TruncDiv;
      var pre := PreHandleValues(cfg.spec, left0, right0);
      if pre == None {
        return None;
      }
      var (left, right) := pre.value;
      match (left, right)
      case (VNum(n), VNum(m)) => return Some(VNum(SignedBits(BXor, n, m)));
      case (VReg(l, _, _), VReg(r, _, _)) =>
        Emit([Alu(Xor, l, R(r))]);
        FreeValue(right);
        return Some(left);
      case (VNum(n), VReg(r, _, _)) =>
        if n == 0 {
          FreeValue(right);
          return Some(left);
        }
        Emit([Alu(Xor, r, Imm(n))]);
        return Some(right);
      case (VReg(l, _, _), VNum(n)) =>
        if n == 0 {
          FreeValue(left);
          return Some(right);
        }
        Emit([Alu(Xor, l, Imm(n))]);
        return Some(left);
      case _ => return None;
    }

    method EmitMul(left0: Value, right0: Value) returns (res: Option<Value>)
      requires Valid()
      modifies this`insns, regalloc.registers
      ensures Emitted(old(insns), labelExitUsed, EmitBin(cfg.spec, OMul, left0, right0, old(Used())), res)
    {
      hide PreHandle, PreHandleValues, AddScale, SubScale, ElemSize, SignedBits, Pow2, TruncDiv;
      var pre := PreHandleValues(cfg.spec, left0, right0);
      if pre == None {
        return None;
      }
      var (left, right) := pre.value;
      if left.VNum? && right.VNum? {
        return Some(VNum(Int64(left.n * right.n)));
      }
      if left.VReg? && right.VReg? {
        Emit([Alu(Mul, left.reg, R(right.reg))]);
        FreeValue(right);
        return Some(left);
      }
      if right.VReg? {
        left, right := right, left;
      }
      if left.VReg? && right.VNum? {
        if right.n == 0 {
          FreeValue(left);
          return Some(right);
        }
        if right.n == 1 {
          return Some(left);
        }
        Emit([Alu(Mul, left.reg, Imm(right.n))]);
        return Some(left);
      }
      return None;
    }

    method EmitDiv(left0: Value, right0: Value) returns (res: Option<Value>)
      requires Valid()
      modifies this`insns, regalloc.registers
      ensures Emitted(old(insns), labelExitUsed, EmitBin(cfg.spec, ODiv, left0, right0, old(Used())), res)
    {
      hide PreHandle, PreHandleValues, AddScale, SubScale, ElemSize, SignedBits, Pow2, TruncDiv;
      var pre := PreHandleValues(cfg.spec, left0, right0);
      if pre == None {
        return None;
      }
      var (left, right) := pre.value;
      if right.VNum? && right.n == 0 {
        return None;
      }
      match (left, right)
      case (VNum(n), VNum(m)) => return Some(VNum(Int64(TruncDiv(n, m))));
      case (VNum(n), VReg(r, ty, _)) =>
        var reg := regalloc.Alloc();
        if reg == None {
          return None;
        }
        Emit([Jmp(Eq, r, Imm(0), 2), Mov(reg.value, Imm(0)), Ja(2), Mov(reg.value, Imm(n)), Alu(Div, reg.value, R(r))]);
        FreeValue(right);
        return Some(VReg(reg.value, ty, None));
      case (VReg(l, _, _), VNum(n)) =>
        Emit([Alu(Div, l, Imm(n))]);
        return Some(left);
      case (VReg(l, _, _), VReg(r, _, _)) =>
        Emit([Jmp(Eq, r, Imm(0), 2), Mov(l, Imm(0)), Ja(1), Alu(Div, l, R(r))]);
        FreeValue(right);
        return Some(left);
      case _ => return None;
    }

    method EmitMod(left0: Value, right0: Value) returns (res: Option<Value>)
      requires Valid()
      modifies this`insns, regalloc.registers
      ensures Emitted(old(insns), labelExitUsed, EmitBin(cfg.spec, OMod, left0, right0, old(Used())), res)
    {
      hide PreHandle, PreHandleValues, AddScale, SubScale, ElemSize, SignedBits, Pow2, TruncDiv;
      var pre := PreHandleValues(cfg.spec, left0, right0);
      if pre == None {
        return None;
      }
      var (left, right) := pre.value;
      if right.VNum? && right.n == 0 {
        return None;
      }
      match (left, right)
      case (VNum(n), VNum(m)) => return Some(VNum(Int64(n - m * TruncDiv(n, m))));
      case (VNum(n), VReg(r, ty, _)) =>
        if n == 0 {
          FreeValue(right);
          return Some(left);
        }
        var reg := regalloc.Alloc();
        if reg == None {
          return None;
        }
        Emit([Mov(reg.value, Imm(n)), Alu(Mod, reg.value, R(r))]);
        FreeValue(right);
        return Some(VReg(reg.value, ty, None));
      case (VReg(l, _, _), VNum(n)) =>
        if n == 1 {
          Emit([Mov(l, Imm(0))]);
          return Some(left);
        }
        Emit([Alu(Mod, l, Imm(n))]);
        return Some(left);
      case (VReg(l, _, _), VReg(r, _, _)) =>
        Emit([Jmp(Eq, r, Imm(0), 1), Alu(Mod, l, R(r))]);
        FreeValue(right);
        return Some(left);
      case _ => return None;
    }

    /** Shifting a constant by a negative constant crashes the compiler. */
    method EmitLsh(left0: Value, right0: Value) returns (res: Option<Value>)
      requires Valid()
      modifies this`insns, regalloc.registers
      ensures Emitted(old(insns), labelExitUsed, EmitBin(cfg.spec, OLsh, left0, right0, old(Used())), res)
    {
      hide PreHandle, PreHandleValues, AddScale, SubScale, ElemSize, SignedBits, Pow2, TruncDiv;
      var pre := PreHandleValues(cfg.spec, left0, right0);
      if pre == None {
        return None;
      }
      var (left, right) := pre.value;
      match (left, right)
      case (VNum(n), VNum(m)) =>
        var folded := FoldConst(OLsh, n, m);
        if folded == None {
          return None;
        }
        return Some(VNum(folded.value));
      case (VNum(n), VReg(r, ty, _)) =>
        if n == 0 {
          FreeValue(right);
          return Some(left);
        }
        var reg := regalloc.Alloc();
        if reg == None {
          return None;
        }
        Emit([Mov(reg.value, Imm(n)), Alu(Lsh, reg.value, R(r))]);
        FreeValue(right);
        return Some(VReg(reg.value, ty, None));
      case (VReg(l, _, _), VNum(n)) =>
        if n < 0 {
          return None;
        }
        if n == 0 {
          return Some(left);
        }
        Emit([Alu(Lsh, l, Imm(n))]);
        return Some(left);
      case (VReg(l, _, _), VReg(r, _, _)) =>
        Emit([Jmp(Le, r, Imm(0), 1), Alu(Lsh, l, R(r))]);
        FreeValue(right);
        return Some(left);
      case _ => return None;
    }

    method EmitRsh(left0: Value, right0: Value) returns (res: Option<Value>)
      requires Valid()
      modifies this`insns, regalloc.registers
      ensures Emitted(old(insns), labelExitUsed, EmitBin(cfg.spec, ORsh, left0, right0, old(Used())), res)
    {
      hide PreHandle, PreHandleValues, AddScale, SubScale, ElemSize, SignedBits, Pow2, TruncDiv;
      var pre := PreHandleValues(cfg.spec, left0, right0);
      if pre == None {
        return None;
      }
      var (left, right) := pre.value;
      match (left, right)
      case (VNum(n), VNum(m)) =>
        var folded := FoldConst(ORsh, n, m);
        if folded == None {
          return None;
        }
        return Some(VNum(folded.value));
      case (VNum(n), VReg(r, ty, _)) =>
        if n == 0 {
          FreeValue(right);
          return Some(left);
        }
        var reg := regalloc.Alloc();
        if reg == None {
          return None;
        }
        Emit([Mov(reg.value, Imm(n)), Alu(Rsh, reg.value, R(r))]);
        FreeValue(right);
        return Some(VReg(reg.value, ty, None));
      case (VReg(l, _, _), VNum(n)) =>
        if n < 0 {
          return None;
        }
        if n == 0 {
          return Some(left);
        }
        Emit([Alu(Rsh, l, Imm(n))]);
        return Some(left);
      case (VReg(l, _, _), VReg(r, _, _)) =>
        Emit([Alu(Rsh, l, R(r))]);
        FreeValue(right);
        return Some(left);
      case _ => return None;
    }

    /** `&&` and `||`: a constant either decides the result or leaves it to the register. */
    lemma {:induction false} TruthParts(op: BinOp, a: Shape, b: Shape, l: Reg, r: Reg, f: Reg)
      requires op == OAndAnd || op == OOrOr
      ensures a.SEnum? || b.SEnum? ==> BinPlan(cfg.spec, op, a, b) == None
      ensures a.SNum? && b.SNum? ==>
                && BinPlan(cfg.spec, op, a, b) ==
                   Some(PConst(BoolInt(if op == OAndAnd then a.n != 0 && b.n != 0 else a.n != 0 || b.n != 0)))
                && BinCode(cfg.spec, op, a, b, l, r, f) == []
      ensures a.SReg? && b.SReg? ==>
                && BinPlan(cfg.spec, op, a, b) == Some(PLeft)
                && BinCode(cfg.spec, op, a, b, l, r, f) ==
                   if op == OAndAnd then [Jmp(Eq, l, Imm(0), 3), Jmp(Eq, r, Imm(0), 2)] + Reg2Bool(l)
                   else [Jmp(Ne, l, Imm(0), 3), Jmp(Ne, r, Imm(0), 2), Alu(Xor, l, R(l)), Ja(1), Mov(l, Imm(1))]
      ensures (a.SNum? && b.SReg?) || (a.SReg? && b.SNum?) ==>
                var n, x := if a.SNum? then a.n else b.n, if a.SNum? then r else l;
                var decided := (n == 0) == (op == OAndAnd);
                && BinPlan(cfg.spec, op, a, b) ==
                   Some(if decided then PConst(if op == OAndAnd then 0 else 1) else if a.SNum? then PRight else PLeft)
                && BinCode(cfg.spec, op, a, b, l, r, f) == if decided then [] else [Jmp(Eq, x, Imm(0), 2)] + Reg2Bool(x)
    {
    }

    method EmitAndAnd(left0: Value, right0: Value) returns (res: Option<Value>)
      requires Valid()
      modifies this`insns, regalloc.registers
      ensures Emitted(old(insns), labelExitUsed, EmitBin(cfg.spec, OAndAnd, left0, right0, old(Used())), res)
    {
      hide BinPlan, BinCode, PreHandle, PreHandleValues, Reg2Bool;
      var pre := PreHandleValues(cfg.spec, left0, right0);
      if pre == None {
        return None;
      }
      var (left, right) := pre.value;
      TruthParts(OAndAnd, Static(left), Static(right), RegOf(left0), RegOf(right0), RegOf(right0));
      match (left, right)
      case (VNum(n), VNum(m)) => return Some(VNum(BoolInt(n != 0 && m != 0)));
      case (VReg(l, _, _), VReg(r, _, _)) =>
        Emit([Jmp(Eq, l, Imm(0), 3), Jmp(Eq, r, Imm(0), 2)]);
        EmitReg2Bool(l);
        FreeValue(right);
        return Some(left);
      case (VNum(n), VReg(r, _, _)) =>
        if n == 0 {
          FreeValue(right);
          return Some(left);
        }
        Emit([Jmp(Eq, r, Imm(0), 2)]);
        EmitReg2Bool(r);
        return Some(right);
      case (VReg(l, _, _), VNum(n)) =>
        if n == 0 {
          FreeValue(left);
          return Some(right);
        }
        Emit([Jmp(Eq, l, Imm(0), 2)]);
        EmitReg2Bool(l);
        return Some(left);
      case _ => return None;
    }

    method EmitOrOr(left0: Value, right0: Value) returns (res: Option<Value>)
      requires Valid()
      modifies this`insns, regalloc.registers
      ensures Emitted(old(insns), labelExitUsed, EmitBin(cfg.spec, OOrOr, left0, right0, old(Used())), res)
    {
      hide BinPlan, BinCode, PreHandle, PreHandleValues;
      var pre := PreHandleValues(cfg.spec, left0, right0);
      if pre == None {
        return None;
      }
      var (left, right) := pre.value;
      TruthParts(OOrOr, Static(left), Static(right), RegOf(left0), RegOf(right0), RegOf(right0));
      match (left, right)
      case (VNum(n), VNum(m)) => return Some(VNum(BoolInt(n != 0 || m != 0)));
      case (VReg(l, _, _), VReg(r, _, _)) =>
        Emit([Jmp(Ne, l, Imm(0), 3), Jmp(Ne, r, Imm(0), 2), Alu(Xor, l, R(l)), Ja(1), Mov(l, Imm(1))]);
        FreeValue(right);
        return Some(left);
      case (VNum(n), VReg(r, _, _)) =>
        if n != 0 {
          FreeValue(right);
          return Some(VNum(1));
        }
        Emit([Jmp(Eq, r, Imm(0), 2)]);
        EmitReg2Bool(r);
        return Some(right);
      case (VReg(l, _, _), VNum(n)) =>
        if n != 0 {
          FreeValue(left);
          return Some(VNum(1));
        }
        Emit([Jmp(Eq, l, Imm(0), 2)]);
        EmitReg2Bool(l);
        return Some(left);
      case _ => return None;
    }

    /** A comparison jumps over the setting of 1 on the opposite condition; a constant on either side
        leaves the register on the left of the jump. */
    lemma {:induction false} ComparisonParts(op: BinOp, a: Shape, b: Shape, l: Reg, r: Reg, f: Reg)
      requires IsComparison(op)
      ensures a.SEnum? || b.SEnum? ==> BinPlan(cfg.spec, op, a, b) == None
      ensures a.SNum? && b.SNum? ==> FoldConst(op, a.n, b.n).Some?
      ensures a.SNum? && b.SNum? ==> BinPlan(cfg.spec, op, a, b) == Some(PConst(FoldConst(op, a.n, b.n).value))
      ensures a.SNum? && b.SNum? ==> BinCode(cfg.spec, op, a, b, l, r, f) == []
      ensures !a.SEnum? && !b.SEnum? && (a.SReg? || b.SReg?) ==>
                && BinPlan(cfg.spec, op, a, b) == Some(if a.SReg? then PLeft else PRight)
                && BinCode(cfg.spec, op, a, b, l, r, f) ==
                   TestCode(Opposite(op), if a.SReg? then l else r,
                            if a.SNum? then Imm(a.n) else if b.SNum? then Imm(b.n) else R(r))
    {
    }

    method EmitComparison(op: BinOp, left0: Value, right0: Value) returns (res: Option<Value>)
      requires Valid() && IsComparison(op)
      modifies this`insns, regalloc.registers
      ensures Emitted(old(insns), labelExitUsed, EmitBin(cfg.spec, op, left0, right0, old(Used())), res)
    {
      hide BinPlan, BinCode, FoldConst, PreHandle, PreHandleValues;
      var pre := PreHandleValues(cfg.spec, left0, right0);
      if pre == None {
        return None;
      }
      var (left, right) := pre.value;
      ComparisonParts(op, Static(left), Static(right), RegOf(left0), RegOf(right0), RegOf(right0));
      match (left, right)
      case (VNum(n), VNum(m)) =>
        return Some(VNum(FoldConst(op, n, m).value));
      case (VNum(n), VReg(r, _, _)) =>
        Emit([Jmp(Opposite(op), r, Imm(n), 2)]);
        EmitReg2Bool(r);
        return Some(right);
      case (VReg(l, _, _), VNum(n)) =>
        Emit([Jmp(Opposite(op), l, Imm(n), 2)]);
        EmitReg2Bool(l);
        return Some(left);
      case (VReg(l, _, _), VReg(r, _, _)) =>
        Emit([Jmp(Opposite(op), l, R(r), 2)]);
        EmitReg2Bool(l);
        FreeValue(right);
        return Some(left);
      case _ => return None;
    }

    method EmitBinary(op: BinOp, l: Value, r: Value) returns (res: Option<Value>)
      requires Valid()
      modifies this`insns, regalloc.registers
      ensures Emitted(old(insns), labelExitUsed, EmitBin(cfg.spec, op, l, r, old(Used())), res)
    {
      hide EmitBin;
      match op
      case OAdd => res := EmitAdd(l, r);
      case OAnd => res := EmitAnd(l, r);
      case OAndAnd => res := EmitAndAnd(l, r);
      case ODiv => res := EmitDiv(l, r);
      case OEq | OGt | OGe | OLt | OLe | ONe => res := EmitComparison(op, l, r);
      case OLsh => res := EmitLsh(l, r);
      case ORsh => res := EmitRsh(l, r);
      case OMod => res := EmitMod(l, r);
      case OMul => res := EmitMul(l, r);
      case OOr => res := EmitOr(l, r);
      case OXor => res := EmitXor(l, r);
      case OOrOr => res := EmitOrOr(l, r);
      case OSub => res := EmitSub(l, r);
    }

    method EmitUnary(op: UnOp, v: Value) returns (res: Option<Value>)
      requires Valid()
      modifies this`insns, regalloc.registers
      ensures Emitted(old(insns), labelExitUsed, EmitUn(op, v, old(Used())), res)
    {
      match v
      case VEnum(_) => return None;
      case VNum(n) =>
        match op {
          case UMinus => return Some(VNum(Int64(0 - n)));
          case UNot => return Some(VNum(BoolInt(n == 0)));
          case UPreDec => return Some(VNum(Int64(n - 1)));
          case UPreInc => return Some(VNum(Int64(n + 1)));
          case UTwid => return Some(VNum(Int64(-1 - n)));
        }
      case VReg(reg, ty, _) =>
        if op != UMinus && !CanCalculate(ty) {
          FreeValue(v);
          return None;
        }
        match op {
          case UMinus => Emit([Neg(reg)]);
          case UNot =>
            Emit([Jmp(Ne, reg, Imm(0), 2)]);
            EmitReg2Bool(reg);
          case UPreDec => Emit([Alu(Sub, reg, Imm(1))]);
          case UPreInc => Emit([Alu(Add, reg, Imm(1))]);
          case UTwid => Emit([Alu(Xor, reg, Imm(-1))]);
        }
        return Some(v);
    }

    /** An arm is moved into the register of the condition; whatever is no constant is taken to be in
        a register, an enum name in R0. */
    method EmitArm(reg: Reg, v: Value)
      requires Valid()
      modifies this`insns, regalloc.registers
      ensures insns == old(insns) + [Mov(reg, ArmSrc(v))] && Used() == old(Used()) - ArmRegs(v)
    {
      if v.VNum? {
        Emit([Mov(reg, Imm(v.n))]);
      } else {
        Emit([Mov(reg, R(RegOf(v)))]);
        regalloc.Free(RegOf(v));
      }
    }

    method EmitConditional(cond: Value, left: Value, right: Value) returns (res: Option<Value>)
      requires Valid()
      modifies this`insns, regalloc.registers
      ensures Emitted(old(insns), labelExitUsed, EmitCond(cond, left, right, old(Used())), res)
    {
      if (cond.VReg? && !CanCalculate(cond.ty)) || (left.VReg? && !CanCalculate(left.ty))
         || (right.VReg? && !CanCalculate(right.ty)) {
        return None;
      }
      if cond.VNum? {
        return Some(if cond.n == 0 then right else left);
      }
      Emit([Jmp(Eq, RegOf(cond), Imm(0), 2)]);
      EmitArm(RegOf(cond), left);
      Emit([Ja(1)]);
      EmitArm(RegOf(cond), right);
      return Some(cond);
    }

    method CastValue(to: Option<Ty>, v: Value) returns (res: Option<Value>)
      requires Valid()
      modifies this`insns, regalloc.registers
      ensures Emitted(old(insns), labelExitUsed, EmitCast(to, v, old(Used())), res)
    {
      if to == None {
        return None;
      }
      match v
      case VNum(n) =>
        var reg := regalloc.Alloc();
        if reg == None {
          return None;
        }
        Emit([Mov(reg.value, Imm(n))]);
        return Some(VReg(reg.value, to.value, None));
      case VReg(reg, _, mem) => return Some(VReg(reg, to.value, mem));
      case VEnum(_) => return Some(v);
    }

    // Expressions --------------------------------------------------------------------------------

    /** The outcome of lowering: `spec`, unless its computed start value fails to compile. A computed
        start value is evaluated on the way, into `reg`; otherwise nothing has been emitted yet. */
    ghost predicate LoweredTo(insns0: seq<Instr>, exits0: bool, used0: set<Reg>, spec: Option<Access>,
                              res: Option<Access>, reg: Reg)
      requires Valid()
      reads this, regalloc.registers
    {
      && (res.Some? ==> res == spec)
      && (spec.Some? ==>
            if spec.value.base.FromExpr? then
              match Compile(cfg, spec.value.base.e, used0)
              case None => res == None
              case Some(o) => res.Some? && reg == RegOf(o.val) && Emitted(insns0, exits0, Some(o), Some(o.val))
            else
              res.Some? && insns == insns0 && labelExitUsed == exits0 && Used() == used0)
    }

    lemma {:induction false} LoweredStep(insns0: seq<Instr>, exits0: bool, used0: set<Reg>, spec: Option<Access>,
                                         res: Option<Access>, reg: Reg, next: Option<Access>)
      requires Valid() && LoweredTo(insns0, exits0, used0, spec, res, reg)
      requires next.Some? ==> spec.Some? && next.value.base == spec.value.base
      ensures LoweredTo(insns0, exits0, used0, next, if res.Some? then next else None, reg)
      ensures res.Some? ==> res == spec
    {
      hide Compile, Emitted;
    }

    method AccessMemory(e: Expr) returns (res: Option<AccessResult>, reg: Reg)
      requires Valid()
      modifies this`insns, this`labelExitUsed, regalloc.registers
      ensures res.Some? ==> fresh(res.value)
      ensures LoweredTo(old(insns), old(labelExitUsed), old(Used()), Lower(cfg, e), Contents(res), reg)
      decreases e, 1
    {
      hide LoweredTo, Compile, Emitted, ShapeOf, LowerPlus, LowerMember, LowerAdd, LowerAddr, LowerCast, LowerIndex,
           LowerIndir;
      ghost var insns0, exits0, used0 := insns, labelExitUsed, Used();
      reg := R0;
      var ok := true;
      match e {
        case Name(text) =>
          var i := IndexOf(cfg.vars, text);
          if i == -1 {
            res := None;
            LoweredNone(insns0, exits0, used0, reg);
          } else {
            var named := new AccessResult(FromArg(i), cfg.tys[i], -1);
            res := Some(named);
            LoweredPlain(insns0, exits0, used0, named.State(), reg);
          }
        case Dot(arg, field) =>
          res, reg := AccessMemory(arg);
          LoweredStep(insns0, exits0, used0, Lower(cfg, arg), Contents(res), reg, Lower(cfg, e));
          if res.Some? {
            ok := res.value.Member(cfg, field);
          }
        case Arrow(arg, field) =>
          res, reg := AccessMemory(arg);
          LoweredStep(insns0, exits0, used0, Lower(cfg, arg), Contents(res), reg, Lower(cfg, e));
          if res.Some? {
            ok := res.value.Member(cfg, field);
          }
        case Bin(op, l, r) => res, reg := AccessBinary(e);
        case Addr(arg) =>
          res, reg := AccessMemory(arg);
          LoweredStep(insns0, exits0, used0, Lower(cfg, arg), Contents(res), reg, Lower(cfg, e));
          if res.Some? {
            ok := res.value.Addr();
          }
        case Cast(_, _) => res, reg := AccessCast(e);
        case Index(arg, index) =>
          res, reg := AccessMemory(arg);
          LoweredStep(insns0, exits0, used0, Lower(cfg, arg), Contents(res), reg, Lower(cfg, e));
          ok := index.Number?;
          if res.Some? && ok {
            ok := res.value.Index(cfg, Int64(index.value));
          }
        case Indir(arg) =>
          res, reg := AccessMemory(arg);
          LoweredStep(insns0, exits0, used0, Lower(cfg, arg), Contents(res), reg, Lower(cfg, e));
          if res.Some? {
            ok := res.value.Indir();
          }
        case Paren(arg) => res, reg := AccessMemory(arg);
        case _ =>
          res := None;
          LoweredNone(insns0, exits0, used0, reg);
      }
      if !ok {
        res := None;
      }
    }

    /** Pointer arithmetic with a constant, or a computed start. */
    method AccessBinary(e: Expr) returns (res: Option<AccessResult>, reg: Reg)
      requires Valid() && e.Bin?
      modifies this`insns, this`labelExitUsed, regalloc.registers
      ensures res.Some? ==> fresh(res.value)
      ensures LoweredTo(old(insns), old(labelExitUsed), old(Used()), Lower(cfg, e), Contents(res), reg)
      decreases e, 0, 3
    {
      hide LoweredTo, Compile, Emitted, ShapeOf, LowerPlus, LowerAdd;
      ghost var insns0, exits0, used0 := insns, labelExitUsed, Used();
      var op, l, r := e.bop, e.left, e.right;
      reg := R0;
      var ok := true;
      if op == OAnd || op == OOr {
        res, reg := AccessComputed(e);
      } else if op == OAdd && l.Number? {
        res, reg := AccessMemory(r);
        LoweredStep(insns0, exits0, used0, Lower(cfg, r), Contents(res), reg, Lower(cfg, e));
        if res.Some? {
          ok := res.value.Plus(cfg, Int64(l.value));
        }
      } else if op == OAdd && r.Number? {
        res, reg := AccessMemory(l);
        LoweredStep(insns0, exits0, used0, Lower(cfg, l), Contents(res), reg, Lower(cfg, e));
        if res.Some? {
          ok := res.value.Plus(cfg, Int64(r.value));
        }
      } else if op == OSub && r.Number? {
        res, reg := AccessMemory(l);
        LoweredStep(insns0, exits0, used0, Lower(cfg, l), Contents(res), reg, Lower(cfg, e));
        if res.Some? {
          ok := res.value.Add(cfg, 0 - Int64(r.value));
        }
      } else {
        res := None;
        LoweredNone(insns0, exits0, used0, reg);
      }
      if !ok {
        res := None;
      }
    }

    /** A cast of a number starts a new chain from that number. */
    method AccessCast(e: Expr) returns (res: Option<AccessResult>, reg: Reg)
      requires Valid() && e.Cast?
      modifies this`insns, this`labelExitUsed, regalloc.registers
      ensures res.Some? ==> fresh(res.value)
      ensures LoweredTo(old(insns), old(labelExitUsed), old(Used()), Lower(cfg, e), Contents(res), reg)
      decreases e, 0, 3
    {
      hide LoweredTo, Compile, Emitted, ShapeOf, LowerCast;
      ghost var insns0, exits0, used0 := insns, labelExitUsed, Used();
      reg := R0;
      ghost var inner: Option<Access>;
      if e.arg.Number? {
        var number := new AccessResult(FromConst(e.arg.value), Void, 0);
        res := Some(number);
        inner := Contents(res);
        LoweredPlain(insns0, exits0, used0, number.State(), reg);
      } else {
        res, reg := AccessMemory(e.arg);
        inner := Lower(cfg, e.arg);
      }
      LoweredStep(insns0, exits0, used0, inner, Contents(res), reg, Lower(cfg, e));
      CastLowers(e, inner);
      if res.Some? && e.to.Some? {
        res.value.Cast(e.to.value);
      } else {
        res := None;
      }
    }

    lemma {:induction false} CastLowers(e: Expr, inner: Option<Access>)
      requires Valid() && e.Cast?
      requires inner == if e.arg.Number? then Some(Codegen.Access(FromConst(e.arg.value), Void, None, 0, [])) else Lower(cfg, e.arg)
      ensures Lower(cfg, e) == if inner.Some? && e.to.Some? then Some(LowerCast(inner.value, e.to.value)) else None
    {
    }

    lemma {:induction false} LoweredNone(insns0: seq<Instr>, exits0: bool, used0: set<Reg>, reg: Reg)
      requires Valid()
      ensures LoweredTo(insns0, exits0, used0, None, None, reg)
    {
    }

    lemma {:induction false} LoweredPlain(insns0: seq<Instr>, exits0: bool, used0: set<Reg>, a: Access, reg: Reg)
      requires Valid() && !a.base.FromExpr? && insns == insns0 && labelExitUsed == exits0 && Used() == used0
      ensures LoweredTo(insns0, exits0, used0, Some(a), Some(a), reg)
    {
    }

    /** An `&` or `|` expression is evaluated as a whole; it must end up in a register. */
    method AccessComputed(e: Expr) returns (res: Option<AccessResult>, reg: Reg)
      requires Valid() && e.Bin? && (e.bop == OAnd || e.bop == OOr)
      modifies this`insns, this`labelExitUsed, regalloc.registers
      ensures res.Some? ==> fresh(res.value)
      ensures LoweredTo(old(insns), old(labelExitUsed), old(Used()), Lower(cfg, e), Contents(res), reg)
      decreases e, 0, 2
    {
      hide Compile, BinShape, UnShape, CondShape, CastShape;
      ghost var used := Used();
      var val := Eval(e);
      if val.None? {
        return None, R0;
      }
      CompileShape(cfg, e, used);
      if !val.value.VReg? {
        return None, R0;
      }
      var computed := new AccessResult(FromExpr(e), val.value.ty, -1);
      return Some(computed), val.value.reg;
    }

    method FinishAccess(a: Access, reg: Reg, ghost insns0: seq<Instr>, ghost exits0: bool,
                        ghost start: seq<Instr>, ghost exits: bool, ghost safe: bool) returns (res: Option<Value>)
      requires Valid() && insns == insns0 + start && labelExitUsed == (exits0 || exits)
      modifies this`insns, this`labelExitUsed
      ensures Emitted(insns0, exits0, EmitAccess(cfg, a, start, reg, Used(), exits, safe), res)
    {
      hide ChainCode, FinishCode, MarksExit, SafeTarget;
      var ok := Offset2insns(a.steps, reg);
      if !ok {
        return None;
      }
      if IsBitfield(a.mem) {
        Bitfield2insns(a.mem.value, reg);
      } else {
        AdjustRegisterBitwise(a.ty, a.mem, reg);
      }
      ghost var chain, finish := ChainCode(cfg, a.steps, reg, Used()).value, FinishCode(cfg.spec, a.ty, a.mem, reg);
      assert insns == insns0 + start + chain + finish == insns0 + (start + (chain + finish));
      return Some(VReg(reg, a.ty, a.mem));
    }

    method EvalAccess(e: Expr) returns (res: Option<Value>)
      requires Valid() && IsAccess(e)
      modifies this`insns, this`labelExitUsed, regalloc.registers
      ensures Emitted(old(insns), old(labelExitUsed), Compile(cfg, e, old(Used())), res)
      decreases e, 2
    {
      hide Lower, EmitAccess;
      ghost var insns0, exits0, used0 := insns, labelExitUsed, Used();
      var acc, computed := AccessMemory(e);
      if acc == None {
        return None;
      }
      var a := acc.value.State();
      if a.base.FromExpr? {
        ghost var o := Compile(cfg, a.base.e, used0).value;
        res := FinishAccess(a, computed, insns0, exits0, o.code, o.exits, o.safe);
        return;
      }
      var spare := regalloc.Alloc();
      if spare == None {
        return None;
      }
      var reg := spare.value;
      match a.base {
        case FromArg(i) => EmitLoadArg(i, reg);
        case FromConst(n) =>
          if n == 0 {
            EmitLoadArg(0, reg);
          } else {
            Emit([Mov(reg, Imm(n))]);
          }
      }
      res := FinishAccess(a, reg, insns0, exits0, BaseCode(a.base, reg), false, true);
    }

    method Eval(e: Expr) returns (res: Option<Value>)
      requires Valid()
      modifies this`insns, this`labelExitUsed, regalloc.registers
      ensures Emitted(old(insns), old(labelExitUsed), Compile(cfg, e, old(Used())), res)
      decreases e, if IsAccess(e) then 3 else 0, 1
    {
      hide Lower, ShapeOf, EmitBin, EmitUn, EmitCond, EmitCast;
      match e
      case Name(text) => res := EvalName(text);
      case Number(v) => res := Some(VNum(Int64(v)));
      case Bin(op, left, right) => res := EvalBinary(op, left, right);
      case Un(op, arg) =>
        var v := Eval(arg);
        if v == None {
          return None;
        }
        res := EmitUnary(op, v.value);
      case Cond(c, t, f) => res := EvalConditional(c, t, f);
      case Cast(to, arg) =>
        var v := Eval(arg);
        if v == None {
          return None;
        }
        res := CastValue(to, v.value);
      case Paren(arg) => res := Eval(arg);
      case Plus(arg) => res := Eval(arg);
      case _ => res := EvalAccess(e);
    }

    /** Code that `spec` describes, emitted after the code of `first`. */
    lemma {:induction false} EmittedThen(insns0: seq<Instr>, exits0: bool, first: Out, insns1: seq<Instr>,
                                         exits1: bool, spec: Option<Out>, res: Option<Value>)
      requires Valid() && insns1 == insns0 + first.code && exits1 == (exits0 || first.exits)
      requires Emitted(insns1, exits1, spec, res)
      ensures Emitted(insns0, exits0, Lift(first, spec), res)
    {
      if spec.Some? {
        assert insns0 + first.code + spec.value.code == insns0 + (first.code + spec.value.code);
      }
    }

    /** Both operands are evaluated, whatever the left one is. */
    method EvalBinary(op: BinOp, left: Expr, right: Expr) returns (res: Option<Value>)
      requires Valid()
      modifies this`insns, this`labelExitUsed, regalloc.registers
      ensures Emitted(old(insns), old(labelExitUsed), Compile(cfg, Bin(op, left, right), old(Used())), res)
      decreases Bin(op, left, right), 0, 0
    {
      hide Compile, EmitBin;
      ghost var insns0, exits0, used0 := insns, labelExitUsed, Used();
      CompileBin(cfg, op, left, right, used0);
      var l := Eval(left);
      if l == None {
        return None;
      }
      ghost var ol := Compile(cfg, left, used0).value;
      ghost var insns1, exits1, used1 := insns, labelExitUsed, Used();
      var r := Eval(right);
      if r == None {
        return None;
      }
      ghost var or := Compile(cfg, right, used1).value;
      ghost var insns2, exits2 := insns, labelExitUsed;
      res := EmitBinary(op, l.value, r.value);
      assert insns0 + ol.code + or.code == insns0 + (ol.code + or.code);
      EmittedThen(insns0, exits0, Then(ol, or), insns2, exits2, EmitBin(cfg.spec, op, l.value, r.value, or.used), res);
    }

    method EvalConditional(c: Expr, t: Expr, f: Expr) returns (res: Option<Value>)
      requires Valid()
      modifies this`insns, this`labelExitUsed, regalloc.registers
      ensures Emitted(old(insns), old(labelExitUsed), Compile(cfg, Cond(c, t, f), old(Used())), res)
      decreases Cond(c, t, f), 0, 0
    {
      hide Compile, EmitCond;
      ghost var insns0, exits0, used0 := insns, labelExitUsed, Used();
      CompileCond(cfg, c, t, f, used0);
      var cond := Eval(c);
      if cond == None {
        return None;
      }
      ghost var oc := Compile(cfg, c, used0).value;
      var left := Eval(t);
      if left == None {
        return None;
      }
      ghost var ot := Compile(cfg, t, oc.used).value;
      var right := Eval(f);
      if right == None {
        return None;
      }
      ghost var of := Compile(cfg, f, ot.used).value;
      ghost var insns3, exits3 := insns, labelExitUsed;
      res := EmitConditional(cond.value, left.value, right.value);
      assert insns0 + oc.code + ot.code + of.code == insns0 + ((oc.code + ot.code) + of.code);
      EmittedThen(insns0, exits0, Then(Then(oc, ot), of), insns3, exits3,
                  EmitCond(cond.value, left.value, right.value, of.used), res);
    }

    method EvalName(text: string) returns (res: Option<Value>)
      requires Valid()
      modifies this`insns, regalloc.registers
      ensures Emitted(old(insns), labelExitUsed, EmitName(cfg, text, old(Used())), res)
    {
      if text == "NULL" || text == "false" {
        return Some(VNum(0));
      }
      if text == "true" {
        return Some(VNum(1));
      }
      var idx := IndexOf(cfg.vars, text);
      if idx == -1 {
        return Some(VEnum(text));
      }
      var reg := regalloc.Alloc();
      if reg == None {
        return None;
      }
      EmitLoadArg(idx, reg.value);
      return Some(VReg(reg.value, cfg.tys[idx], None));
    }
  }

  /** The filter compiler: the finished program, or None for an expression it rejects. */
  method CompileFilterExpr(cfg: Config, e: Expr) returns (p: Option<Program>)
    requires ValidConfig(cfg)
    ensures p == FilterProgram(cfg, e)
  {
    hide Compile;
    var c := new Compiler(cfg);
    c.Emit([Mov(R9, R(R1))]);
    c.regalloc.MarkUsed(R9);
    assert c.Used() == FilterUsed;
    if !IsTopOp(e) {
      return None;
    }
    var val := c.Eval(e);
    if val == None || val.value.VNum? {
      return None;
    }
    var labels := map[];
    if c.labelExitUsed {
      labels := map[EXIT := |c.insns| - 1];
    }
    if RegOf(val.value) != R0 {
      c.Emit([Mov(R0, R(RegOf(val.value)))]);
    }
    c.Emit([Exit]);
    assert c.insns == [Mov(R9, R(R1))] + Compile(cfg, e, FilterUsed).value.code + FilterTail(val.value);
    return Some(Program(c.insns, labels));
  }

  /** An evaluated output expression: `*x` at the top evaluates `x` and dereferences it later, unless
      the expression is the argument of a built-in call. */
  datatype EvalResult = EvalResult(insns: seq<Instr>, val: Value, labelUsed: bool)

  function Evaluating(e: Expr, call: bool): Expr {
    if e.Indir? && !call then e.arg else e
  }

  function EvalProgram(cfg: Config, e: Expr, call: bool, used: set<Reg>, force: bool): Option<EvalResult>
    requires |cfg.vars| == |cfg.tys|
  {
    match Compile(cfg, Evaluating(e, call), used)
    case None => None
    case Some(o) => if o.val.VNum? && !force then None else Some(EvalResult(o.code, o.val, o.exits))
  }

  function Marked(used: seq<Reg>): set<Reg> {
    set r | r in used
  }

  method CompileEvalExpr(cfg: Config, e: Expr, call: bool, used: seq<Reg>, force: bool)
    returns (res: Option<EvalResult>)
    requires ValidConfig(cfg) && forall r :: r in used ==> r <= 9
    ensures res == EvalProgram(cfg, e, call, Marked(used), force)
  {
    hide Compile;
    var c := new Compiler(cfg);
    for i := 0 to |used|
      invariant c.insns == [] && !c.labelExitUsed && c.Used() == Marked(used[..i])
    {
      assert used[i] in used;
      c.regalloc.MarkUsed(used[i]);
    }
    assert used[..|used|] == used;
    var evaluating := Evaluating(e, call);
    var val := c.Eval(evaluating);
    if val == None {
      return None;
    }
    if val.value.VNum? && !force {
      return None;
    }
    assert c.insns == Compile(cfg, evaluating, Marked(used)).value.code;
    return Some(EvalResult(c.insns, val.value, c.labelExitUsed));
  }
}
