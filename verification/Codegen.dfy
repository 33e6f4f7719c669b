/** What the compiler produces, as functions: the offset chain of a memory access, the static shape
    of every expression, and the code with the registers it allocates. The class in Compiler.dfy
    builds the same things step by step. */
module Codegen {
  import opened Words
  import opened Machine
  import opened Types
  import opened Spill
  import opened Chains
  import opened Operators

  // Memory accesses ------------------------------------------------------------------------------

  /** Where a chain starts: an argument, a cast number, or a computed `&` or `|` expression. */
  datatype Base = FromArg(idx: nat) | FromConst(n: u64) | FromExpr(e: Expr)

  /** A lowered access. `last` is the index of the last step; for a cast number it starts at 0
      although there is no step yet. */
  datatype Access = Access(base: Base, ty: Ty, mem: Option<Field>, last: int, steps: seq<Offset>)

  predicate WellIndexed(a: Access) {
    a.last == |a.steps| - 1 || (a.steps == [] && a.last == 0)
  }

  function AddOffset(a: Access, o: Offset): Access {
    a.(last := |a.steps|, steps := a.steps + [o])
  }

  /** The `prev` of the last step. The index is out of range, and the compiler crashes, when it is
      0 and there is no step. */
  function PrevTy(a: Access): Option<Option<Ty>> {
    if a.last < 0 then Some(None)
    else if a.last < |a.steps| then Some(a.steps[a.last].prev)
    else None
  }

  function FindField(cfg: Config, t: Ty, name: string): Option<Field> {
    if t.Aggregate? && (t.tag, name) in cfg.spec.fields then Some(cfg.spec.fields[(t.tag, name)]) else None
  }

  /** `->` and `.` alike: a pointer is followed, anything else extends the pending step. */
  function LowerMember(cfg: Config, a: Access, name: string): (r: Option<Access>)
    requires WellIndexed(a)
    ensures r.Some? ==> r.value.base == a.base && WellIndexed(r.value)
  {
    var t := Underlying(a.ty);
    var arrow := t.Pointer?;
    match FindField(cfg, if arrow then Underlying(t.target) else t, name)
    case None => None
    case Some(f) =>
      if IsBitfield(a.mem) || (!arrow && a.steps == []) then None
      else
        var a1 :=
          if arrow then AddOffset(a, Offset(f.off, false, f.ty, Some(a.ty), false))
          else
            var s := a.steps[a.last];
            a.(steps := a.steps[a.last := s.(off := s.off + f.off, ty := f.ty)]);
        var isArray := Underlying(f.ty).Array?;
        Some(a1.(
             steps := if isArray then a1.steps[a1.last := a1.steps[a1.last].(address := true)] else a1.steps,
             ty := f.ty,
             mem := if isArray then None else Some(f)))
  }

  /** Pointer or array plus a constant; `num` is already negated for a subtraction. */
  function LowerAdd(cfg: Config, a: Access, num: int): (r: Option<Access>)
    ensures r.Some? ==> r.value.base == a.base && WellIndexed(r.value)
  {
    var t := Underlying(a.ty);
    if IsBitfield(a.mem) then None
    else if t.Pointer? then
      match (SizeOf(cfg.spec, t.target), PrevTy(a))
      case (Some(size), Some(prev)) =>
        var scale := if Underlying(t.target).Void? then 1 else size;
        Some(AddOffset(a, Offset(scale * num, true, a.ty, prev, false)).(mem := None))
      case _ => None
    else if t.Array? then
      match (SizeOf(cfg.spec, t.elem), PrevTy(a))
      case (Some(size), Some(prev)) =>
        Some(AddOffset(a, Offset(size * num, true, Pointer(t.elem), prev, false)).(mem := None))
      case _ => None
    else None
  }

  function LowerAddr(a: Access): (r: Option<Access>)
    requires WellIndexed(a)
    ensures r.Some? ==> r.value.base == a.base && WellIndexed(r.value)
  {
    if a.steps == [] then None
    else
      var ty := Pointer(a.ty);
      Some(a.(steps := a.steps[a.last := a.steps[a.last].(address := true, ty := ty)], ty := ty, mem := None))
  }

  function LowerCast(a: Access, to: Ty): (r: Access)
    requires WellIndexed(a)
    ensures r.base == a.base && WellIndexed(r)
  {
    a.(steps := if a.steps == [] then [] else a.steps[a.last := a.steps[a.last].(ty := to)], ty := to, mem := None)
  }

  function LowerIndex(cfg: Config, a: Access, index: i64): (r: Option<Access>)
    ensures r.Some? ==> r.value.base == a.base && WellIndexed(r.value)
  {
    var t := Underlying(a.ty);
    if IsBitfield(a.mem) || (!t.Pointer? && !t.Array?) then None
    else
      var elem := if t.Pointer? then t.target else t.elem;
      match PrevTy(a)
      case None => None
      case Some(prev) =>
        var size := SizeOrZero(cfg.spec, elem);
        if size == 0 then None
        else Some(AddOffset(a, Offset(index * size, false, elem, prev, t.Array?)).(ty := elem, mem := None))
  }

  function LowerIndir(a: Access): (r: Option<Access>)
    ensures r.Some? ==> r.value.base == a.base && WellIndexed(r.value)
  {
    var t := Underlying(a.ty);
    if IsBitfield(a.mem) || !t.Pointer? then None
    else Some(AddOffset(a, Offset(0, false, t.target, Some(a.ty), false)).(ty := t.target, mem := None))
  }

  /** The chain of an lvalue or pointer expression. */
  function Lower(cfg: Config, e: Expr): (r: Option<Access>)
    requires |cfg.vars| == |cfg.tys|
    ensures r.Some? ==> WellIndexed(r.value)
    ensures r.Some? && r.value.base.FromArg? ==> r.value.base.idx < |cfg.vars|
    ensures r.Some? && r.value.base.FromExpr? ==>
              r.value.base.e < e || (r.value.base.e == e && e.Bin?)
    decreases e, 1
  {
    match e
    case Name(text) =>
      var i := IndexOf(cfg.vars, text);
      if i == -1 then None else Some(Access(FromArg(i), cfg.tys[i], None, -1, []))
    case Dot(arg, field) =>
      (match Lower(cfg, arg)
       case None => None
       case Some(a) => LowerMember(cfg, a, field))
    case Arrow(arg, field) =>
      (match Lower(cfg, arg)
       case None => None
       case Some(a) => LowerMember(cfg, a, field))
    case Bin(OAdd, l, r) =>
      if l.Number? then LowerPlus(cfg, Lower(cfg, r), Int64(l.value))
      else if r.Number? then LowerPlus(cfg, Lower(cfg, l), Int64(r.value))
      else None
    case Bin(OSub, l, r) =>
      if r.Number? then
        match Lower(cfg, l)
        case None => None
        case Some(a) => LowerAdd(cfg, a, 0 - Int64(r.value))
      else None
    case Bin(op, _, _) =>
      if op != OAnd && op != OOr then None
      else
        (match ShapeOf(cfg, e)
         case Some(SReg(ty, _)) => Some(Access(FromExpr(e), ty, None, -1, []))
         case _ => None)
    case Addr(arg) =>
      (match Lower(cfg, arg)
       case None => None
       case Some(a) => LowerAddr(a))
    case Cast(to, arg) =>
      var inner := if arg.Number? then Some(Access(FromConst(arg.value), Void, None, 0, [])) else Lower(cfg, arg);
      (match (inner, to)
       case (Some(a), Some(ty)) => Some(LowerCast(a, ty))
       case _ => None)
    case Index(arg, index) =>
      (match Lower(cfg, arg)
       case None => None
       case Some(a) => if index.Number? then LowerIndex(cfg, a, Int64(index.value)) else None)
    case Indir(arg) =>
      (match Lower(cfg, arg)
       case None => None
       case Some(a) => LowerIndir(a))
    case Paren(arg) => Lower(cfg, arg)
    case _ => None
  }

  function LowerPlus(cfg: Config, a: Option<Access>, num: i64): (r: Option<Access>)
    requires a.Some? ==> WellIndexed(a.value)
    ensures r.Some? ==> a.Some? && WellIndexed(r.value) && r.value.base == a.value.base
  {
    match a
    case None => None
    case Some(acc) =>
      if IsBitfield(acc.mem) then None
      else if num == 0 then Some(acc)
      else LowerAdd(cfg, acc, num)
  }

  // Shapes -----------------------------------------------------------------------------------------

  predicate ChainCompiles(cfg: Config, steps: seq<Offset>) {
    cfg.mode == ModeCore && !AllAddress(steps) ==> CoreCompiles(cfg.spec, steps)
  }

  predicate CondOperand(s: Shape) {
    s.SReg? ==> CanCalculate(s.ty)
  }

  function NameShape(cfg: Config, text: string): Shape
    requires |cfg.vars| == |cfg.tys|
  {
    if text == "NULL" || text == "false" then SNum(0)
    else if text == "true" then SNum(1)
    else
      var i := IndexOf(cfg.vars, text);
      if i == -1 then SEnum(text) else SReg(cfg.tys[i], None)
  }

  function BinShape(spec: Spec, op: BinOp, l: Shape, r: Shape): Option<Shape> {
    match PreHandle(spec, l, r)
    case None => None
    case Some((a, b)) =>
      match BinPlan(spec, op, a, b)
      case None => None
      case Some(plan) => Some(PlanShape(plan, a, b))
  }

  function UnShape(op: UnOp, a: Shape): Option<Shape> {
    match UnPlan(op, a)
    case None => None
    case Some(plan) => Some(PlanShape(plan, a, a))
  }

  function CondShape(c: Shape, t: Shape, f: Shape): Option<Shape> {
    if !CondOperand(c) || !CondOperand(t) || !CondOperand(f) then None
    else if c.SNum? then Some(if c.n == 0 then f else t)
    else Some(c)
  }

  function CastShape(to: Option<Ty>, a: Shape): Option<Shape> {
    match to
    case None => None
    case Some(ty) =>
      Some(match a
           case SNum(_) => SReg(ty, None)
           case SReg(_, mem) => SReg(ty, mem)
           case SEnum(_) => a)
  }

  /** What is known statically of the value of an expression; None if it does not compile whatever
      registers are free. */
  function ShapeOf(cfg: Config, e: Expr): Option<Shape>
    requires |cfg.vars| == |cfg.tys|
    decreases e, if IsAccess(e) then 2 else 0
  {
    match e
    case Name(text) => Some(NameShape(cfg, text))
    case Number(v) => Some(SNum(Int64(v)))
    case Bin(op, l, r) =>
      (match (ShapeOf(cfg, l), ShapeOf(cfg, r))
       case (Some(a), Some(b)) => BinShape(cfg.spec, op, a, b)
       case _ => None)
    case Un(op, arg) =>
      (match ShapeOf(cfg, arg)
       case Some(a) => UnShape(op, a)
       case None => None)
    case Cond(c, t, f) =>
      (match (ShapeOf(cfg, c), ShapeOf(cfg, t), ShapeOf(cfg, f))
       case (Some(a), Some(b), Some(d)) => CondShape(a, b, d)
       case _ => None)
    case Cast(to, arg) =>
      (match ShapeOf(cfg, arg)
       case Some(a) => CastShape(to, a)
       case None => None)
    case Paren(arg) => ShapeOf(cfg, arg)
    case Plus(arg) => ShapeOf(cfg, arg)
    case _ =>
      (match Lower(cfg, e)
       case None => None
       case Some(a) => if ChainCompiles(cfg, a.steps) then Some(SReg(a.ty, a.mem)) else None)
  }

  // Registers --------------------------------------------------------------------------------------

  const Allocatable: set<Reg> := {0, 1, 2, 3, 4, 5, 6, 7, 8}

  /** The highest free register at or below `i`. */
  function AllocFrom(used: set<Reg>, i: Reg): (r: Option<Reg>)
    ensures r.Some? ==> r.value <= i && r.value !in used && forall q: Reg :: r.value < q <= i ==> q in used
    ensures r.None? ==> forall q: Reg :: q <= i ==> q in used
  {
    if i !in used then Some(i)
    else if i == 0 then None
    else AllocFrom(used, i - 1)
  }

  function Alloc(used: set<Reg>): Option<Reg> {
    AllocFrom(used, R8)
  }

  // Code -------------------------------------------------------------------------------------------

  datatype Value =
    | VNum(n: i64)
    | VReg(reg: Reg, ty: Ty, mem: Option<Field>)
    | VEnum(name: string)

  function Static(v: Value): Shape {
    match v
    case VNum(n) => SNum(n)
    case VReg(_, ty, mem) => SReg(ty, mem)
    case VEnum(name) => SEnum(name)
  }

  /** The register of a value; values that are not in a register carry the number 0. */
  function RegOf(v: Value): Reg {
    if v.VReg? then v.reg else R0
  }

  /** Compiled code, where its value is, the allocated registers after it, whether it made the
      compiler define the exit label, and whether no helper call in it destroys a pending operand. */
  datatype Out = Out(code: seq<Instr>, val: Value, used: set<Reg>, exits: bool, safe: bool)

  function WithShape(s: Shape, reg: Reg): Value {
    match s
    case SNum(n) => VNum(n)
    case SReg(ty, mem) => VReg(reg, ty, mem)
    case SEnum(name) => VEnum(name)
  }

  function RegsOf(v: Value): set<Reg> {
    if v.VReg? then {v.reg} else {}
  }

  /** A binary operator on two evaluated operands. */
  function EmitBin(spec: Spec, op: BinOp, l: Value, r: Value, used: set<Reg>): Option<Out> {
    match PreHandle(spec, Static(l), Static(r))
    case None => None
    case Some((a, b)) =>
      match BinPlan(spec, op, a, b)
      case None => None
      case Some(plan) =>
        var spare := Alloc(used);
        if plan.PFresh? && spare.None? then None
        else
          var f := if plan.PFresh? then spare.value else RegOf(r);
          var code := BinCode(spec, op, a, b, RegOf(l), RegOf(r), f);
          Some(match plan
               case PConst(n) => Out(code, VNum(n), used - RegsOf(l) - RegsOf(r), false, true)
               case PLeft => Out(code, WithShape(a, RegOf(l)), used - RegsOf(r), false, true)
               case PRight => Out(code, WithShape(b, RegOf(r)), used, false, true)
               case PFresh => Out(code, WithShape(PlanShape(plan, a, b), f), used + {f} - RegsOf(r), false, true))
  }

  function EmitUn(op: UnOp, v: Value, used: set<Reg>): Option<Out> {
    match UnPlan(op, Static(v))
    case None => None
    case Some(PConst(n)) => Some(Out([], VNum(n), used, false, true))
    case Some(_) => Some(Out(UnCode(op, RegOf(v)), v, used, false, true))
  }

  function ArmSrc(v: Value): Src {
    if v.VNum? then Imm(v.n) else R(RegOf(v))
  }

  /** Freeing an arm that is no constant frees its register; an enum name frees R0. */
  function ArmRegs(v: Value): set<Reg> {
    if v.VNum? then {} else {RegOf(v)}
  }

  function EmitCond(c: Value, t: Value, f: Value, used: set<Reg>): Option<Out> {
    if CondShape(Static(c), Static(t), Static(f)).None? then None
    else if c.VNum? then Some(Out([], if c.n == 0 then f else t, used, false, true))
    else Some(Out(CondCode(RegOf(c), ArmSrc(t), ArmSrc(f)), c, used - ArmRegs(t) - ArmRegs(f), false, true))
  }

  function EmitCast(to: Option<Ty>, v: Value, used: set<Reg>): Option<Out> {
    match to
    case None => None
    case Some(ty) =>
      match v
      case VNum(n) =>
        (match Alloc(used)
         case None => None
         case Some(reg) => Some(Out([Mov(reg, Imm(n))], VReg(reg, ty, None), used + {reg}, false, true)))
      case VReg(reg, _, mem) => Some(Out([], VReg(reg, ty, mem), used, false, true))
      case VEnum(_) => Some(Out([], v, used, false, true))
  }

  function LoadArg(i: nat, reg: Reg): seq<Instr> {
    [Ldx(reg, R9, i * 8, 8)]
  }

  function EmitName(cfg: Config, text: string, used: set<Reg>): Option<Out>
    requires |cfg.vars| == |cfg.tys|
  {
    match NameShape(cfg, text)
    case SNum(n) => Some(Out([], VNum(n), used, false, true))
    case SEnum(name) => Some(Out([], VEnum(name), used, false, true))
    case SReg(ty, mem) =>
      (match Alloc(used)
       case None => None
       case Some(reg) =>
         Some(Out(LoadArg(IndexOf(cfg.vars, text), reg), VReg(reg, ty, mem), used + {reg}, false, true)))
  }

  /** Cutting the loaded dword to the bitfield or to the size of the type. */
  function FinishCode(spec: Spec, ty: Ty, mem: Option<Field>, reg: Reg): seq<Instr> {
    if IsBitfield(mem) then
      var f := mem.value;
      (if f.delta != 0 then [Alu(Rsh, reg, Imm(f.delta))] else []) + [Alu(And, reg, Imm(Pow2(f.bits) - 1))]
    else
      match SizeOf(spec, ty)
      case Some(1) => [Alu(And, reg, Imm(0xFF))]
      case Some(2) => [Alu(And, reg, Imm(0xFFFF))]
      case Some(4) => [Alu(Lsh, reg, Imm(32)), Alu(Rsh, reg, Imm(32))]
      case _ => []
  }

  /** The start value of an access: a cast of the number 0 loads the first argument. */
  function BaseCode(base: Base, reg: Reg): seq<Instr>
    requires !base.FromExpr?
  {
    match base
    case FromArg(i) => LoadArg(i, reg)
    case FromConst(n) => if n == 0 then LoadArg(0, reg) else [Mov(reg, Imm(n))]
  }

  /** The chain and the final cut, once the start value is in `reg`. */
  function EmitAccess(cfg: Config, a: Access, start: seq<Instr>, reg: Reg, used: set<Reg>, exits: bool,
                      safe: bool): Option<Out> {
    match ChainCode(cfg, a.steps, reg, used)
    case None => None
    case Some(chain) =>
      Some(Out(start + (chain + FinishCode(cfg.spec, a.ty, a.mem, reg)),
               VReg(reg, a.ty, a.mem),
               used,
               exits || MarksExit(cfg, a.steps),
               safe && SafeTarget(cfg, a.steps, reg, used)))
  }

  /** Code of `first`, then of `second` computed from its result. */
  function Then(first: Out, second: Out): Out {
    Out(first.code + second.code, second.val, second.used, first.exits || second.exits, first.safe && second.safe)
  }

  function Lift(first: Out, second: Option<Out>): Option<Out> {
    match second
    case None => None
    case Some(o) => Some(Then(first, o))
  }

  function Compile(cfg: Config, e: Expr, used: set<Reg>): Option<Out>
    requires |cfg.vars| == |cfg.tys|
  {
    match e
    case Name(text) => EmitName(cfg, text, used)
    case Number(v) => Some(Out([], VNum(Int64(v)), used, false, true))
    case Bin(op, l, r) =>
      (match Compile(cfg, l, used)
       case None => None
       case Some(ol) =>
         match Compile(cfg, r, ol.used)
         case None => None
         case Some(or) => Lift(Then(ol, or), EmitBin(cfg.spec, op, ol.val, or.val, or.used)))
    case Un(op, arg) =>
      (match Compile(cfg, arg, used)
       case None => None
       case Some(o) => Lift(o, EmitUn(op, o.val, o.used)))
    case Cond(c, t, f) =>
      (match Compile(cfg, c, used)
       case None => None
       case Some(oc) =>
         match Compile(cfg, t, oc.used)
         case None => None
         case Some(ot) =>
           match Compile(cfg, f, ot.used)
           case None => None
           case Some(of) => Lift(Then(Then(oc, ot), of), EmitCond(oc.val, ot.val, of.val, of.used)))
    case Cast(to, arg) =>
      (match Compile(cfg, arg, used)
       case None => None
       case Some(o) => Lift(o, EmitCast(to, o.val, o.used)))
    case Paren(arg) => Compile(cfg, arg, used)
    case Plus(arg) => Compile(cfg, arg, used)
    case _ =>
      (match Lower(cfg, e)
       case None => None
       case Some(a) =>
         if a.base.FromExpr? then
           match Compile(cfg, a.base.e, used)
           case None => None
           case Some(o) => EmitAccess(cfg, a, o.code, RegOf(o.val), o.used, o.exits, o.safe)
         else
           match Alloc(used)
           case None => None
           case Some(reg) => EmitAccess(cfg, a, BaseCode(a.base, reg), reg, used + {reg}, false, true))
  }

  lemma {:induction false} CompileBin(cfg: Config, op: BinOp, l: Expr, r: Expr, used: set<Reg>)
    requires |cfg.vars| == |cfg.tys|
    ensures Compile(cfg, Bin(op, l, r), used) ==
            match Compile(cfg, l, used)
            case None => None
            case Some(ol) =>
              match Compile(cfg, r, ol.used)
              case None => None
              case Some(or) => Lift(Then(ol, or), EmitBin(cfg.spec, op, ol.val, or.val, or.used))
  {
  }

  lemma {:induction false} CompileAccess(cfg: Config, e: Expr, used: set<Reg>)
    requires |cfg.vars| == |cfg.tys| && IsAccess(e)
    ensures Compile(cfg, e, used) ==
            match Lower(cfg, e)
            case None => None
            case Some(a) =>
              if a.base.FromExpr? then
                match Compile(cfg, a.base.e, used)
                case None => None
                case Some(o) => EmitAccess(cfg, a, o.code, RegOf(o.val), o.used, o.exits, o.safe)
              else
                match Alloc(used)
                case None => None
                case Some(reg) => EmitAccess(cfg, a, BaseCode(a.base, reg), reg, used + {reg}, false, true)
  {
  }

  lemma {:induction false} CompileCond(cfg: Config, c: Expr, t: Expr, f: Expr, used: set<Reg>)
    requires |cfg.vars| == |cfg.tys|
    ensures Compile(cfg, Cond(c, t, f), used) ==
            match Compile(cfg, c, used)
            case None => None
            case Some(oc) =>
              match Compile(cfg, t, oc.used)
              case None => None
              case Some(ot) =>
                match Compile(cfg, f, ot.used)
                case None => None
                case Some(of) => Lift(Then(Then(oc, ot), of), EmitCond(oc.val, ot.val, of.val, of.used))
  {
  }

  // Shapes agree with code -----------------------------------------------------------------------

  lemma {:induction false} EmitBinStatic(spec: Spec, op: BinOp, l: Value, r: Value, used: set<Reg>)
    requires EmitBin(spec, op, l, r, used).Some?
    ensures BinShape(spec, op, Static(l), Static(r)) == Some(Static(EmitBin(spec, op, l, r, used).value.val))
  {
    hide BinCode, AdjustNum, FoldConst, Alloc, ExtractEnum;
  }

  lemma {:induction false} EmitOthersStatic(op: UnOp, to: Option<Ty>, c: Value, t: Value, f: Value, used: set<Reg>)
    ensures EmitUn(op, c, used).Some? ==> UnShape(op, Static(c)) == Some(Static(EmitUn(op, c, used).value.val))
    ensures EmitCast(to, c, used).Some? ==> CastShape(to, Static(c)) == Some(Static(EmitCast(to, c, used).value.val))
    ensures EmitCond(c, t, f, used).Some? ==>
              CondShape(Static(c), Static(t), Static(f)) == Some(Static(EmitCond(c, t, f, used).value.val))
  {
    hide AllocFrom;
  }

  lemma {:induction false} EmitAccessStatic(cfg: Config, a: Access, start: seq<Instr>, reg: Reg, used: set<Reg>,
                                            exits: bool, safe: bool)
    requires EmitAccess(cfg, a, start, reg, used, exits, safe).Some?
    ensures ChainCompiles(cfg, a.steps)
    ensures Static(EmitAccess(cfg, a, start, reg, used, exits, safe).value.val) == SReg(a.ty, a.mem)
  {
  }

  /** Whatever compiles has the shape that was announced for it. */
  lemma {:induction false} CompileShape(cfg: Config, e: Expr, used: set<Reg>)
    requires |cfg.vars| == |cfg.tys| && Compile(cfg, e, used).Some?
    ensures ShapeOf(cfg, e) == Some(Static(Compile(cfg, e, used).value.val))
    decreases e
  {
    hide EmitBin, EmitUn, EmitCond, EmitCast, EmitAccess, BinShape, UnShape, CondShape, CastShape, Lower,
         ChainCompiles, BaseCode, Alloc;
    match e
    case Bin(op, l, r) =>
      var ol := Compile(cfg, l, used).value;
      var or := Compile(cfg, r, ol.used).value;
      CompileShape(cfg, l, used);
      CompileShape(cfg, r, ol.used);
      EmitBinStatic(cfg.spec, op, ol.val, or.val, or.used);
    case Un(op, arg) =>
      var o := Compile(cfg, arg, used).value;
      CompileShape(cfg, arg, used);
      EmitOthersStatic(op, None, o.val, o.val, o.val, o.used);
    case Cond(c, t, f) =>
      var oc := Compile(cfg, c, used).value;
      var ot := Compile(cfg, t, oc.used).value;
      var of := Compile(cfg, f, ot.used).value;
      CompileShape(cfg, c, used);
      CompileShape(cfg, t, oc.used);
      CompileShape(cfg, f, ot.used);
      EmitOthersStatic(UNot, None, oc.val, ot.val, of.val, of.used);
    case Cast(to, arg) =>
      var o := Compile(cfg, arg, used).value;
      CompileShape(cfg, arg, used);
      EmitOthersStatic(UNot, to, o.val, o.val, o.val, o.used);
    case Paren(arg) => CompileShape(cfg, arg, used);
    case Plus(arg) => CompileShape(cfg, arg, used);
    case Name(_) =>
      EmitNameStatic(cfg, e.text, used);
    case Number(_) =>
    case _ =>
      var a := Lower(cfg, e).value;
      if a.base.FromExpr? {
        var o := Compile(cfg, a.base.e, used).value;
        EmitAccessStatic(cfg, a, o.code, RegOf(o.val), o.used, o.exits, o.safe);
      } else {
        var reg := Alloc(used).value;
        EmitAccessStatic(cfg, a, BaseCode(a.base, reg), reg, used + {reg}, false, true);
      }
  }

  lemma {:induction false} EmitNameStatic(cfg: Config, text: string, used: set<Reg>)
    requires |cfg.vars| == |cfg.tys| && EmitName(cfg, text, used).Some?
    ensures NameShape(cfg, text) == Static(EmitName(cfg, text, used).value.val)
  {
  }
}
