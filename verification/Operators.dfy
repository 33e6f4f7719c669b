/** The operators of the expression compiler: which code each one emits for constant and register
    operands, what that code computes, and what the operator means in C. */
module Operators {
  import opened Words
  import opened Machine
  import opened Types

  // Constants ------------------------------------------------------------------------------------

  function BoolInt(b: bool): i64 {
    if b then 1 else 0
  }

  /** `n & (1 << bits) - 1` on 64-bit integers. */
  function MaskBits(n: i64, bits: nat): i64 {
    if bits >= 64 then n else Int64(n % Pow2(bits))
  }

  /** A constant meets a register operand: it is cut to the width of that operand. */
  function AdjustNum(spec: Spec, n: i64, other: Shape): i64 {
    match other
    case SReg(ty, mem) =>
      if IsBitfield(mem) then MaskBits(n, mem.value.bits)
      else
        var size := SizeOrZero(spec, ty);
        if size == 1 then n % 0x100
        else if size == 2 then n % TWO16
        else if size == 4 then n % TWO32
        else n
    case _ => n
  }

  /** The first enumerator of that name. */
  function FindEnum(values: seq<(string, int)>, name: string): Option<i64> {
    if values == [] then None
    else if values[0].0 == name then Some(Int64(values[0].1))
    else FindEnum(values[1..], name)
  }

  function ExtractEnum(ty: Ty, name: string): Option<i64> {
    match Underlying(ty)
    case Enum(_, values) => FindEnum(values, name)
    case _ => None
  }

  function Adjusted(spec: Spec, a: Shape, other: Shape): Shape {
    if a.SNum? then SNum(AdjustNum(spec, a.n, other)) else a
  }

  /** Operands before a binary operator: types are checked, enum names and constants resolved. */
  function PreHandle(spec: Spec, a: Shape, b: Shape): Option<(Shape, Shape)> {
    if (a.SReg? && !CanCalculate(a.ty)) || (b.SReg? && !CanCalculate(b.ty)) then None
    else if a.SEnum? && b.SReg? then
      match ExtractEnum(b.ty, a.name)
      case None => None
      case Some(n) => Some((SNum(AdjustNum(spec, n, b)), b))
    else if a.SReg? && b.SEnum? then
      match ExtractEnum(a.ty, b.name)
      case None => None
      case Some(n) => Some((a, SNum(AdjustNum(spec, n, a))))
    else Some((Adjusted(spec, a, b), Adjusted(spec, b, a)))
  }

  /** Go's truncated division of 64-bit integers. */
  function TruncDiv(n: int, m: int): int
    requires m != 0
  {
    if n >= 0 then n / m else -((-n) / m)
  }

  function SignedBits(op: BitOp, n: i64, m: i64): i64 {
    Int64(Bitwise(op, Wrap(n), Wrap(m)))
  }

  /** Folding two constants; None where the compiler rejects or crashes. */
  function FoldConst(op: BinOp, n: i64, m: i64): Option<i64> {
    match op
    case OAdd => Some(Int64(n + m))
    case OSub => Some(Int64(n - m))
    case OMul => Some(Int64(n * m))
    case ODiv => if m == 0 then None else Some(Int64(TruncDiv(n, m)))
    case OMod => if m == 0 then None else Some(Int64(n - m * TruncDiv(n, m)))
    case OAnd => Some(SignedBits(BAnd, n, m))
    case OOr => Some(SignedBits(BOr, n, m))
    case OXor => Some(SignedBits(BXor, n, m))
    case OLsh => if m < 0 then None else Some(if m >= 64 then 0 else Int64(n * Pow2(m)))
    case ORsh => if m < 0 then None else Some(if m >= 64 then (if n < 0 then -1 else 0) else Int64(n / Pow2(m)))
    case OAndAnd => Some(BoolInt(n != 0 && m != 0))
    case OOrOr => Some(BoolInt(n != 0 || m != 0))
    case OEq => Some(BoolInt(n == m))
    case ONe => Some(BoolInt(n != m))
    case OGt => Some(BoolInt(n > m))
    case OGe => Some(BoolInt(n >= m))
    case OLt => Some(BoolInt(n < m))
    case OLe => Some(BoolInt(n <= m))
  }

  // Where the result goes ------------------------------------------------------------------------

  /** A constant, the register of the left or right operand, or a newly allocated one. */
  datatype Plan = PConst(n: i64) | PLeft | PRight | PFresh

  predicate IsPointerLike(ty: Ty) {
    Underlying(ty).Pointer? || Underlying(ty).Array?
  }

  /** The size of what a pointer or array element occupies; zero if unknown. */
  function ElemSize(spec: Spec, ty: Ty): nat {
    match Underlying(ty)
    case Pointer(t) => SizeOrZero(spec, t)
    case Array(t, _) => SizeOrZero(spec, t)
    case _ => 0
  }

  predicate IsVoidPointer(ty: Ty) {
    Underlying(ty).Pointer? && Underlying(Underlying(ty).target).Void?
  }

  /** The factor of a constant added to a register of that type; None when its size is unknown. */
  function AddScale(spec: Spec, ty: Ty): Option<nat> {
    if !IsPointerLike(ty) || IsVoidPointer(ty) then Some(1)
    else if ElemSize(spec, ty) == 0 then None
    else Some(ElemSize(spec, ty))
  }

  function SubScale(spec: Spec, ty: Ty): Option<nat> {
    if Underlying(ty).Array? && ElemSize(spec, ty) == 0 then None
    else if ElemSize(spec, ty) == 0 then Some(1)
    else Some(ElemSize(spec, ty))
  }

  predicate IsIntOrEnum(ty: Ty) {
    Underlying(ty).Int? || Underlying(ty).Enum?
  }

  /** How an operator combines operands that have gone through PreHandle. */
  function BinPlan(spec: Spec, op: BinOp, a: Shape, b: Shape): Option<Plan> {
    if a.SEnum? || b.SEnum? then None
    else if (op == ODiv || op == OMod) && b.SNum? && b.n == 0 then None
    else if a.SNum? && b.SNum? then
      match FoldConst(op, a.n, b.n)
      case None => None
      case Some(n) => Some(PConst(n))
    else if a.SReg? && b.SReg? then Some(PLeft)
    else if a.SNum? then
      match op
      case OAdd => if a.n == 0 || AddScale(spec, b.ty).Some? then Some(PRight) else None
      case OSub => if IsIntOrEnum(b.ty) then Some(PRight) else None
      case OAndAnd => Some(if a.n == 0 then PConst(0) else PRight)
      case OOrOr => Some(if a.n != 0 then PConst(1) else PRight)
      case OOr | OXor | OMul => Some(if a.n == 0 then PConst(0) else PRight)
      case OLsh | ORsh | OMod => Some(if a.n == 0 then PConst(0) else PFresh)
      case ODiv => Some(PFresh)
      case _ => Some(PRight)
    else
      match op
      case OAdd => if b.n == 0 || AddScale(spec, a.ty).Some? then Some(PLeft) else None
      case OSub => if b.n == 0 || SubScale(spec, a.ty).Some? then Some(PLeft) else None
      case OAndAnd => Some(if b.n == 0 then PConst(0) else PLeft)
      case OOrOr => Some(if b.n != 0 then PConst(1) else PLeft)
      case OOr | OXor | OMul => Some(if b.n == 0 then PConst(0) else PLeft)
      case OLsh | ORsh => if b.n < 0 then None else Some(PLeft)
      case _ => Some(PLeft)
  }

  function PlanShape(plan: Plan, a: Shape, b: Shape): Shape
    requires plan.PFresh? ==> b.SReg?
  {
    match plan
    case PConst(n) => SNum(n)
    case PLeft => a
    case PRight => b
    case PFresh => SReg(b.ty, None)
  }

  // Code -----------------------------------------------------------------------------------------

  /** The tail that turns a conditional jump over two instructions into 1 or 0. */
  function Reg2Bool(r: Reg): seq<Instr> {
    [Mov(r, Imm(1)), Ja(1), Alu(Xor, r, R(r))]
  }

  /** The jump of a comparison tests the opposite condition. */
  function Opposite(op: BinOp): Machine.Cond
    requires IsComparison(op)
  {
    match op
    case OEq => Ne
    case ONe => Eq
    case OGt => Le
    case OGe => Lt
    case OLt => Ge
    case OLe => Gt
  }

  predicate IsComparison(op: BinOp) {
    op == OEq || op == ONe || op == OGt || op == OGe || op == OLt || op == OLe
  }

  function TestCode(cond: Machine.Cond, r: Reg, src: Src): seq<Instr> {
    [Jmp(cond, r, src, 2)] + Reg2Bool(r)
  }

  /** Both operands in registers; the result replaces the left one. */
  function RegRegCode(spec: Spec, op: BinOp, a: Shape, l: Reg, r: Reg): seq<Instr>
    requires a.SReg?
  {
    match op
    case OAdd | OSub =>
      var size := ElemSize(spec, a.ty);
      (if size != 0 then [Alu(Mul, r, Imm(size))] else []) + [Alu(if op == OAdd then Add else Sub, l, R(r))]
    case OAnd => [Alu(And, l, R(r))]
    case OOr => [Alu(Or, l, R(r))]
    case OXor => [Alu(Xor, l, R(r))]
    case OMul => [Alu(Mul, l, R(r))]
    case ORsh => [Alu(Rsh, l, R(r))]
    case OLsh => [Jmp(Le, r, Imm(0), 1), Alu(Lsh, l, R(r))]
    case OMod => [Jmp(Eq, r, Imm(0), 1), Alu(Mod, l, R(r))]
    case ODiv => [Jmp(Eq, r, Imm(0), 2), Mov(l, Imm(0)), Ja(1), Alu(Div, l, R(r))]
    case OAndAnd => [Jmp(Eq, l, Imm(0), 3), Jmp(Eq, r, Imm(0), 2)] + Reg2Bool(l)
    case OOrOr => [Jmp(Ne, l, Imm(0), 3), Jmp(Ne, r, Imm(0), 2), Alu(Xor, l, R(l)), Ja(1), Mov(l, Imm(1))]
    case _ => TestCode(Opposite(op), l, R(r))
  }

  /** Constant on the left, register on the right; `f` is the fresh register. */
  function NumRegCode(spec: Spec, op: BinOp, n: int, b: Shape, r: Reg, f: Reg): seq<Instr>
    requires b.SReg?
  {
    match op
    case OAdd =>
      if n == 0 || AddScale(spec, b.ty) == None then [] else [Alu(Add, r, Imm(n * AddScale(spec, b.ty).value))]
    case OSub => if n == 0 then [Neg(r)] else [Alu(Sub, r, Imm(n))]
    case OAnd => [Alu(And, r, Imm(n))]
    case OOr => if n == 0 then [] else [Alu(Or, r, Imm(n))]
    case OXor => if n == 0 then [] else [Alu(Xor, r, Imm(n))]
    case OMul => if n == 0 || n == 1 then [] else [Alu(Mul, r, Imm(n))]
    case OLsh => if n == 0 then [] else [Mov(f, Imm(n)), Alu(Lsh, f, R(r))]
    case ORsh => if n == 0 then [] else [Mov(f, Imm(n)), Alu(Rsh, f, R(r))]
    case OMod => if n == 0 then [] else [Mov(f, Imm(n)), Alu(Mod, f, R(r))]
    case ODiv => [Jmp(Eq, r, Imm(0), 2), Mov(f, Imm(0)), Ja(2), Mov(f, Imm(n)), Alu(Div, f, R(r))]
    case OAndAnd => if n == 0 then [] else TestCode(Eq, r, Imm(0))
    case OOrOr => if n != 0 then [] else TestCode(Eq, r, Imm(0))
    case _ => TestCode(Opposite(op), r, Imm(n))
  }

  /** Register on the left, constant on the right. */
  function RegNumCode(spec: Spec, op: BinOp, a: Shape, n: int, l: Reg): seq<Instr>
    requires a.SReg?
  {
    match op
    case OAdd =>
      if n == 0 || AddScale(spec, a.ty) == None then [] else [Alu(Add, l, Imm(n * AddScale(spec, a.ty).value))]
    case OSub =>
      if n == 0 || SubScale(spec, a.ty) == None then [] else [Alu(Sub, l, Imm(n * SubScale(spec, a.ty).value))]
    case OAnd => [Alu(And, l, Imm(n))]
    case OOr => if n == 0 then [] else [Alu(Or, l, Imm(n))]
    case OXor => if n == 0 then [] else [Alu(Xor, l, Imm(n))]
    case OMul => if n == 0 || n == 1 then [] else [Alu(Mul, l, Imm(n))]
    case OLsh => if n == 0 then [] else [Alu(Lsh, l, Imm(n))]
    case ORsh => if n == 0 then [] else [Alu(Rsh, l, Imm(n))]
    case OMod => if n == 1 then [Mov(l, Imm(0))] else [Alu(Mod, l, Imm(n))]
    case ODiv => [Alu(Div, l, Imm(n))]
    case OAndAnd => if n == 0 then [] else TestCode(Eq, l, Imm(0))
    case OOrOr => if n != 0 then [] else TestCode(Eq, l, Imm(0))
    case _ => TestCode(Opposite(op), l, Imm(n))
  }

  function BinCode(spec: Spec, op: BinOp, a: Shape, b: Shape, l: Reg, r: Reg, f: Reg): seq<Instr> {
    if a.SReg? && b.SReg? then RegRegCode(spec, op, a, l, r)
    else if a.SNum? && b.SReg? then NumRegCode(spec, op, a.n, b, r, f)
    else if a.SReg? && b.SNum? then RegNumCode(spec, op, a, b.n, l)
    else []
  }

  // What the code computes -----------------------------------------------------------------------

  /** A constant as an immediate operand reaches the machine. */
  function Immediate(n: int): u64 {
    Wrap(Int32(n))
  }

  function BoolWord(b: bool): u64 {
    if b then 1 else 0
  }

  function Compare(op: BinOp, x: u64, y: u64): bool
    requires IsComparison(op)
  {
    match op
    case OEq => x == y
    case ONe => x != y
    case OGt => x > y
    case OGe => x >= y
    case OLt => x < y
    case OLe => x <= y
  }

  /** The arithmetic operators that are one instruction. */
  function AluOf(op: BinOp): AluOp
    requires !IsComparison(op) && op != OAndAnd && op != OOrOr
  {
    match op
    case OAdd => Add
    case OSub => Sub
    case OMul => Mul
    case ODiv => Div
    case OMod => Mod
    case OAnd => And
    case OOr => Or
    case OXor => Xor
    case OLsh => Lsh
    case ORsh => Rsh
  }

  function ComputedRegReg(spec: Spec, op: BinOp, a: Shape, x: u64, y: u64): u64
    requires a.SReg?
  {
    match op
    case OAdd | OSub =>
      var size := ElemSize(spec, a.ty);
      AluResult(AluOf(op), x, if size != 0 then AluResult(Mul, y, Immediate(size)) else y)
    case ODiv => 0
    case OAndAnd => BoolWord(x != 0 && y != 0)
    case OOrOr => BoolWord(x != 0 || y != 0)
    case OAnd | OOr | OXor | OMul | OLsh | ORsh | OMod => AluResult(AluOf(op), x, y)
    case _ => BoolWord(Compare(op, x, y))
  }

  function ComputedNumReg(spec: Spec, op: BinOp, n: int, b: Shape, y: u64): u64
    requires b.SReg?
  {
    match op
    case OAdd =>
      if n == 0 || AddScale(spec, b.ty) == None then y
      else AluResult(Add, y, Immediate(n * AddScale(spec, b.ty).value))
    case OSub => if n == 0 then Wrap(TWO64 - y) else AluResult(Sub, y, Immediate(n))
    case OMul => if n == 0 then 0 else if n == 1 then y else AluResult(Mul, y, Immediate(n))
    case OOr | OXor => if n == 0 then 0 else AluResult(AluOf(op), y, Immediate(n))
    case OAnd => AluResult(And, y, Immediate(n))
    case OLsh | ORsh | OMod => if n == 0 then 0 else AluResult(AluOf(op), Immediate(n), y)
    case ODiv => 0
    case OAndAnd => BoolWord(n != 0 && y != 0)
    case OOrOr => BoolWord(n != 0 || y != 0)
    case _ => BoolWord(Compare(op, y, Immediate(n)))
  }

  function ComputedRegNum(spec: Spec, op: BinOp, a: Shape, n: int, x: u64): u64
    requires a.SReg?
  {
    match op
    case OAdd =>
      if n == 0 || AddScale(spec, a.ty) == None then x
      else AluResult(Add, x, Immediate(n * AddScale(spec, a.ty).value))
    case OSub =>
      if n == 0 || SubScale(spec, a.ty) == None then x
      else AluResult(Sub, x, Immediate(n * SubScale(spec, a.ty).value))
    case OMul => if n == 0 then 0 else if n == 1 then x else AluResult(Mul, x, Immediate(n))
    case OOr | OXor => if n == 0 then 0 else AluResult(AluOf(op), x, Immediate(n))
    case OMod => if n == 1 then 0 else AluResult(Mod, x, Immediate(n))
    case OLsh | ORsh => if n == 0 then x else AluResult(AluOf(op), x, Immediate(n))
    case OAnd | ODiv => AluResult(AluOf(op), x, Immediate(n))
    case OAndAnd => BoolWord(x != 0 && n != 0)
    case OOrOr => BoolWord(x != 0 || n != 0)
    case _ => BoolWord(Compare(op, x, Immediate(n)))
  }

  /** The value the emitted code leaves; `x` and `y` are the values of register operands. */
  function Computed(spec: Spec, op: BinOp, a: Shape, b: Shape, x: u64, y: u64): u64 {
    if a.SReg? && b.SReg? then ComputedRegReg(spec, op, a, x, y)
    else if a.SNum? && b.SReg? then ComputedNumReg(spec, op, a.n, b, y)
    else if a.SReg? && b.SNum? then ComputedRegNum(spec, op, a, b.n, x)
    else if a.SNum? && b.SNum? && FoldConst(op, a.n, b.n).Some? then Wrap(FoldConst(op, a.n, b.n).value)
    else 0
  }

  // Unary operators and the conditional ----------------------------------------------------------

  function UnPlan(op: UnOp, a: Shape): Option<Plan> {
    match a
    case SEnum(_) => None
    case SNum(n) =>
      Some(PConst(match op
                  case UMinus => Int64(0 - n)
                  case UNot => BoolInt(n == 0)
                  case UPreDec => Int64(n - 1)
                  case UPreInc => Int64(n + 1)
                  case UTwid => Int64(-1 - n)))
    case SReg(ty, _) => if op == UMinus || CanCalculate(ty) then Some(PLeft) else None
  }

  function UnCode(op: UnOp, r: Reg): seq<Instr> {
    match op
    case UMinus => [Neg(r)]
    case UNot => TestCode(Ne, r, Imm(0))
    case UPreDec => [Alu(Sub, r, Imm(1))]
    case UPreInc => [Alu(Add, r, Imm(1))]
    case UTwid => [Alu(Xor, r, Imm(-1))]
  }

  function ComputedUn(op: UnOp, x: u64): u64 {
    match op
    case UMinus => Wrap(TWO64 - x)
    case UNot => BoolWord(x == 0)
    case UPreDec => AluResult(Sub, x, 1)
    case UPreInc => AluResult(Add, x, 1)
    case UTwid => AluResult(Xor, x, TWO64 - 1)
  }

  /** The code of `c ? t : e` once all three are evaluated; an arm is a register or a constant. */
  function CondCode(c: Reg, t: Src, e: Src): seq<Instr> {
    [Jmp(Eq, c, Imm(0), 2), Mov(c, t), Ja(1), Mov(c, e)]
  }
}
