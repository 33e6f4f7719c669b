/** What the operators mean in C, and exactly when the emitted code computes it. */
module Faithful {
  import opened Words
  import opened Machine
  import opened Types
  import opened Operators

  // Meaning --------------------------------------------------------------------------------------

  predicate IsPtr(a: Shape) {
    a.SReg? && (Underlying(a.ty).Pointer? || Underlying(a.ty).Array?)
  }

  /** How far one step of pointer arithmetic goes: the size of what is pointed to, one byte for void. */
  function CScale(spec: Spec, a: Shape): nat {
    if !a.SReg? then 1
    else
      match Underlying(a.ty)
      case Pointer(t) => if SizeOrZero(spec, t) == 0 then 1 else SizeOrZero(spec, t)
      case Array(t, _) => if SizeOrZero(spec, t) == 0 then 1 else SizeOrZero(spec, t)
      case _ => 1
  }

  /** The operand as a 64-bit word. */
  function CValue(a: Shape, x: u64): u64 {
    if a.SNum? then Wrap(a.n) else x
  }

  /** Pointer arithmetic that C itself rejects: pointer + pointer and integer - pointer. */
  predicate CTyped(op: BinOp, a: Shape, b: Shape) {
    !(op == OAdd && IsPtr(a) && IsPtr(b)) && !(op == OSub && IsPtr(b) && !IsPtr(a))
  }

  /** The quotient of absolute values, with the sign of the division. */
  function CQuotient(n: int, m: int): int {
    if m == 0 then 0
    else
      var q := (if n < 0 then -n else n) / (if m < 0 then -m else m);
      if (n < 0) == (m < 0) then q else -q
  }

  /** Operators on two constants, which are signed numbers; a result outside 64 bits wraps. */
  function CConst(op: BinOp, n: i64, m: i64): int {
    match op
    case OAdd => n + m
    case OSub => n - m
    case OMul => n * m
    case ODiv => CQuotient(n, m)
    case OMod => n - m * CQuotient(n, m)
    case OAnd => Bitwise(BAnd, Wrap(n), Wrap(m))
    case OOr => Bitwise(BOr, Wrap(n), Wrap(m))
    case OXor => Bitwise(BXor, Wrap(n), Wrap(m))
    case OLsh => if m < 0 then 0 else n * Pow2(m)
    case ORsh => if m < 0 then 0 else n / Pow2(m)
    case OAndAnd => if n == 0 || m == 0 then 0 else 1
    case OOrOr => if n == 0 && m == 0 then 0 else 1
    case OEq => if n == m then 1 else 0
    case ONe => if n == m then 0 else 1
    case OGt => if m < n then 1 else 0
    case OGe => if m <= n then 1 else 0
    case OLt => if n < m then 1 else 0
    case OLe => if n <= m then 1 else 0
  }

  /** A division by zero is 0 and a remainder by zero the dividend. */
  function CDivide(x: u64, y: u64): u64 {
    if y == 0 then 0 else Wrap(x / y)
  }

  function CRemainder(x: u64, y: u64): u64 {
    if y == 0 then x else Wrap(x % y)
  }

  function CProduct(x: u64, y: u64): u64 {
    Wrap(x * y)
  }

  /** Shift counts are taken modulo 64. */
  function CShiftLeft(x: u64, y: u64): u64 {
    Wrap(x * Pow2(y % 64))
  }

  function CShiftRight(x: u64, y: u64): u64 {
    Wrap(x / Pow2(y % 64))
  }

  /** Operators on two unsigned words, but for pointer arithmetic. */
  function CWord(op: BinOp, x: u64, y: u64): u64 {
    match op
    case OAdd => Wrap(x + y)
    case OSub => Wrap(x - y)
    case OMul => CProduct(x, y)
    case ODiv => CDivide(x, y)
    case OMod => CRemainder(x, y)
    case OAnd => Bitwise(BAnd, x, y)
    case OOr => Bitwise(BOr, x, y)
    case OXor => Bitwise(BXor, x, y)
    case OLsh => CShiftLeft(x, y)
    case ORsh => CShiftRight(x, y)
    case OAndAnd => if x == 0 || y == 0 then 0 else 1
    case OOrOr => if x == 0 && y == 0 then 0 else 1
    case OEq => if x == y then 1 else 0
    case ONe => if x == y then 0 else 1
    case OGt => if y < x then 1 else 0
    case OGe => if y <= x then 1 else 0
    case OLt => if x < y then 1 else 0
    case OLe => if x <= y then 1 else 0
  }

  /** The C meaning: constants among themselves are signed, everything else is on unsigned 64-bit words, with
      scaled pointer arithmetic. */
  function CMeaning(spec: Spec, op: BinOp, a: Shape, b: Shape, x: u64, y: u64): u64 {
    var va, vb := CValue(a, x), CValue(b, y);
    if a.SNum? && b.SNum? then Wrap(CConst(op, a.n, b.n))
    else if op == OAdd then Wrap(va * CScale(spec, b) + vb * CScale(spec, a))
    else if op == OSub then
      if IsPtr(a) && IsPtr(b) then Wrap(CQuotient(Int64(va - vb), CScale(spec, a)))
      else Wrap(va - vb * CScale(spec, a))
    else CWord(op, va, vb)
  }

  /** The constant survives the 32-bit immediate field. */
  predicate Exact(n: int) {
    Immediate(n) == Wrap(n)
  }

  predicate FaithfulRegReg(spec: Spec, op: BinOp, a: Shape, b: Shape)
    requires a.SReg? && b.SReg?
  {
    match op
    case OAdd => if IsPtr(b) then Wrap(CScale(spec, b)) == 1 else Exact(ElemSize(spec, a.ty))
    case OSub => if IsPtr(b) then CScale(spec, a) == 1 else Exact(ElemSize(spec, a.ty))
    case ODiv => false
    case _ => true
  }

  predicate FaithfulNumReg(spec: Spec, op: BinOp, n: i64, b: Shape)
    requires b.SReg?
  {
    match op
    case OAdd => Exact(n * CScale(spec, b))
    case OSub => n == 0
    case ODiv => n == 0
    case OOr | OXor => n != 0 && Exact(n)
    case OAnd | OMul | OMod | OLsh | ORsh | OEq | ONe => Exact(n)
    case OAndAnd | OOrOr => true
    case OGt | OGe | OLt | OLe => false
  }

  predicate FaithfulRegNum(spec: Spec, op: BinOp, a: Shape, n: i64)
    requires a.SReg?
  {
    match op
    case OAdd | OSub => Exact(n * CScale(spec, a))
    case OOr | OXor => n != 0 && Exact(n)
    case OAndAnd | OOrOr | OLsh | ORsh => true
    case _ => Exact(n)
  }

  /** The static test that decides whether an operator is compiled to its C meaning. */
  predicate FaithfulBin(spec: Spec, op: BinOp, a: Shape, b: Shape) {
    if a.SReg? && b.SReg? then FaithfulRegReg(spec, op, a, b)
    else if a.SNum? && b.SReg? then FaithfulNumReg(spec, op, a.n, b)
    else if a.SReg? && b.SNum? then FaithfulRegNum(spec, op, a, b.n)
    else true
  }

  // Arithmetic -----------------------------------------------------------------------------------

  lemma {:induction false} WrapMul(n: int, s: int)
    ensures Wrap(Wrap(n) * s) == Wrap(n * s)
  {
    var q := n / TWO64;
    assert n == TWO64 * q + Wrap(n);
    assert n * s == TWO64 * (q * s) + Wrap(n) * s;
    WrapShift(Wrap(n) * s, q * s);
  }

  lemma {:induction false} WrapShift(x: int, k: int)
    ensures Wrap(x + TWO64 * k) == Wrap(x)
  {
  }

  lemma {:induction false} WrapAddLeft(x: int, y: int)
    ensures Wrap(x + Wrap(y)) == Wrap(x + y)
  {
  }

  lemma {:induction false} WrapSubLeft(x: int, y: int)
    ensures Wrap(x - Wrap(y)) == Wrap(x - y)
  {
  }

  lemma {:induction false} WrapCancel(x: u64, k: u64, c: int)
    ensures Wrap(x + k) == Wrap(x + c) <==> k == Wrap(c)
    ensures Wrap(x - k) == Wrap(x - c) <==> k == Wrap(c)
  {
    WrapAddLeft(x, c);
    WrapSubLeft(x, c);
    WrapCancelWord(x, k, Wrap(c));
  }

  lemma {:induction false} WrapCancelWord(x: u64, k: u64, c: u64)
    ensures Wrap(x + k) == Wrap(x + c) <==> k == c
    ensures Wrap(x - k) == Wrap(x - c) <==> k == c
  {
  }

  lemma {:induction false} WrapInt64(x: int)
    ensures Wrap(Int64(x)) == Wrap(x)
  {
  }

  lemma {:induction false} BitsNeutralZero(op: BitOp, k: u64)
    requires op != BAnd
    ensures Bitwise(op, 0, k) == k && Bitwise(op, k, 0) == k
  {
    Pow2Values();
    BitsZero(op, k, 64);
    BitsCommute(op, 0, k, 64);
  }

  lemma {:induction false} BitsNeutralOnes(k: u64)
    ensures Bitwise(BAnd, TWO64 - 1, k) == k
  {
    Pow2Values();
    BitsAndMask(k, 64, 64);
    ModSmall(k, TWO64);
    BitsCommute(BAnd, TWO64 - 1, k, 64);
  }

  lemma {:induction false} ModSmall(k: nat, m: nat)
    requires k < m
    ensures k / m == 0 && k % m == k
  {
    DivModUnique(k, m, 0, k);
  }

  lemma {:induction false} ModSelf(k: nat)
    requires k > 0
    ensures k / k == 1 && k % k == 0
  {
    DivModUnique(k, k, 1, 0);
  }

  lemma {:induction false} ShiftZero(k: u64)
    ensures AluResult(Lsh, k, 0) == k && AluResult(Rsh, k, 0) == k && AluResult(Mod, k, 0) == k
  {
    assert Pow2(0) == 1;
  }

  /** Two divisors give different quotients and remainders somewhere. */
  lemma {:induction false} DivModDiffer(k: u64, c: u64) returns (x: u64)
    requires k != c && c != 0
    ensures AluResult(Div, x, k) != AluResult(Div, x, c)
    ensures AluResult(Mod, x, k) != AluResult(Mod, x, c)
  {
    if k == 0 {
      x := c;
      ModSelf(c);
    } else if c < k {
      x := c;
      ModSelf(c);
      ModSmall(c, k);
    } else {
      x := k;
      ModSelf(k);
      ModSmall(k, c);
    }
  }

  /** An operator on words is what the machine's instruction or test of that name gives. */
  lemma {:induction false} CWordIs(op: BinOp, x: u64, y: u64)
    ensures CWord(op, x, y) ==
            match op
            case OAndAnd => BoolWord(x != 0 && y != 0)
            case OOrOr => BoolWord(x != 0 || y != 0)
            case OAdd | OSub | OAnd | OOr | OXor | OMul | ODiv | OMod | OLsh | ORsh => AluResult(AluOf(op), x, y)
            case _ => BoolWord(Compare(op, x, y))
  {
    MachineWords(x, y);
    hide CDivide, CRemainder, CProduct, CShiftLeft, CShiftRight, AluResult;
  }

  lemma {:induction false} MachineWords(x: u64, y: u64)
    ensures AluResult(Add, x, y) == Wrap(x + y) && AluResult(Sub, x, y) == Wrap(x - y)
    ensures AluResult(Mul, x, y) == CProduct(x, y)
    ensures AluResult(Div, x, y) == CDivide(x, y) && AluResult(Mod, x, y) == CRemainder(x, y)
    ensures AluResult(Lsh, x, y) == CShiftLeft(x, y) && AluResult(Rsh, x, y) == CShiftRight(x, y)
    ensures AluResult(And, x, y) == Bitwise(BAnd, x, y) && AluResult(Or, x, y) == Bitwise(BOr, x, y)
    ensures AluResult(Xor, x, y) == Bitwise(BXor, x, y)
  {
    MachineDivision(x, y);
    MachineShift(x, y);
    hide Bitwise, CDivide, CRemainder, CShiftLeft, CShiftRight, Quotient, Pow2;
    assert AluResult(Mul, x, y) == CProduct(x, y);
  }

  lemma {:induction false} MachineDivision(x: u64, y: u64)
    ensures AluResult(Div, x, y) == CDivide(x, y) && AluResult(Mod, x, y) == CRemainder(x, y)
  {
    hide Bitwise, Pow2;
    if y != 0 {
      QuotientBound(x, y);
      var q, r := x / y, x % y;
      assert 0 <= q < TWO64 && 0 <= r < TWO64;
      WrapWord(q);
      WrapWord(r);
    }
  }

  lemma {:induction false} MachineShift(x: u64, y: u64)
    ensures AluResult(Lsh, x, y) == CShiftLeft(x, y) && AluResult(Rsh, x, y) == CShiftRight(x, y)
  {
    hide Bitwise, Pow2;
    QuotientBound(x, Pow2(y % 64));
    WrapWord(x / Pow2(y % 64));
  }

  lemma {:induction false} WrapWord(x: int)
    requires 0 <= x < TWO64
    ensures Wrap(x) == x
  {
  }

  lemma {:induction false} QuotientIs(n: int, m: int)
    requires m != 0
    ensures CQuotient(n, m) == TruncDiv(n, m)
  {
    var p, k := if n < 0 then -n else n, if m < 0 then -m else m;
    var q, r := p / k, p % k;
    assert p == k * q + r;
    if m < 0 {
      assert p / m == -q by { NegDivisor(p, k); }
    }
  }

  lemma {:induction false} NegDivisor(p: int, k: int)
    requires p >= 0 && k > 0
    ensures p / (-k) == -(p / k)
  {
  }

  /** Folding two constants gives their meaning, and fails for a zero divisor and a negative shift count alone. */
  lemma {:induction false} FoldMeans(op: BinOp, n: i64, m: i64)
    ensures FoldConst(op, n, m) == None <==> ((op == ODiv || op == OMod) && m == 0) || ((op == OLsh || op == ORsh) && m < 0)
    ensures FoldConst(op, n, m).Some? ==> FoldConst(op, n, m).value == Int64(CConst(op, n, m))
  {
    hide Pow2;
    match op
    case ODiv | OMod =>
      if m != 0 {
        QuotientIs(n, m);
      }
    case OLsh => if m >= 64 { ShiftedOut(n, m); }
    case ORsh => if m >= 64 { ShiftedOut(n, m); } else if m >= 0 { ShiftedIn(n, m); }
    case _ =>
  }

  /** Shifting by 64 or more leaves nothing but the sign. */
  lemma {:induction false} ShiftedOut(n: i64, m: nat)
    requires m >= 64
    ensures Int64(n * Pow2(m)) == 0
    ensures n / Pow2(m) == if n < 0 then -1 else 0
  {
    Pow2Add(64, m - 64);
    Pow2Values();
    var k := Pow2(m - 64);
    assert n * Pow2(m) == TWO64 * (n * k);
    WrapShift(0, n * k);
    Pow2Monotone(64, m);
    DivModUnique(n, Pow2(m), if n < 0 then -1 else 0, if n < 0 then n + Pow2(m) else n);
  }

  lemma {:induction false} ShiftedIn(n: i64, m: nat)
    ensures -0x8000_0000_0000_0000 <= n / Pow2(m) < 0x8000_0000_0000_0000
  {
    var p: int := Pow2(m);
    QuotientWithin(n, p, n / p, n % p);
  }

  lemma {:induction false} QuotientWithin(n: int, p: int, q: int, r: int)
    requires p >= 1 && n == p * q + r && 0 <= r < p
    ensures n >= 0 ==> 0 <= q <= n
    ensures n < 0 ==> n <= q < 0
  {
    if q >= 1 {
      assert p * q >= q;
    } else if q <= -1 {
      assert p * (q + 1) <= q + 1;
      assert p * (q + 1) == p * q + p;
    } else {
      assert p * q == 0;
    }
  }

  /** The meaning of an operator that meets a register, in terms of the machine's operations. */
  lemma {:induction false} CMeaningIs(spec: Spec, op: BinOp, a: Shape, b: Shape, x: u64, y: u64)
    requires !(a.SNum? && b.SNum?)
    ensures CMeaning(spec, op, a, b, x, y) ==
            var va, vb := CValue(a, x), CValue(b, y);
            match op
            case OAdd => Wrap(va * CScale(spec, b) + vb * CScale(spec, a))
            case OSub =>
              if IsPtr(a) && IsPtr(b) then Wrap(CQuotient(Int64(va - vb), CScale(spec, a)))
              else Wrap(va - vb * CScale(spec, a))
            case OAndAnd => BoolWord(va != 0 && vb != 0)
            case OOrOr => BoolWord(va != 0 || vb != 0)
            case OAnd | OOr | OXor | OMul | ODiv | OMod | OLsh | ORsh => AluResult(AluOf(op), va, vb)
            case _ => BoolWord(Compare(op, va, vb))
  {
    hide CWord, AluResult, Compare, CQuotient, CScale, AluOf;
    CWordIs(op, CValue(a, x), CValue(b, y));
  }

  lemma {:induction false} CMeaningWord(spec: Spec, op: BinOp, a: Shape, b: Shape, x: u64, y: u64)
    requires !(a.SNum? && b.SNum?) && op != OAdd && op != OSub
    ensures CMeaning(spec, op, a, b, x, y) == CWord(op, CValue(a, x), CValue(b, y))
  {
  }

  /** What a pointer or array register is scaled by. */
  lemma {:induction false} CScaleIs(spec: Spec, a: Shape)
    ensures CScale(spec, a) == if !IsPtr(a) || ElemSize(spec, a.ty) == 0 then 1 else ElemSize(spec, a.ty)
    ensures a.SReg? && !IsPtr(a) ==> ElemSize(spec, a.ty) == 0
  {
  }

  // Two registers --------------------------------------------------------------------------------

  lemma {:induction false} ScaledExact(size: nat, y: u64)
    requires Exact(size)
    ensures AluResult(Mul, y, Immediate(size)) == Wrap(y * size)
  {
    WrapMul(size, y);
    assert Wrap(size) * y == y * Wrap(size) && size * y == y * size;
  }

  lemma {:induction false} AddScaled(size: nat, x: u64, y: u64)
    requires Exact(size)
    ensures AluResult(Add, x, AluResult(Mul, y, Immediate(size))) == Wrap(x + y * size)
    ensures AluResult(Sub, x, AluResult(Mul, y, Immediate(size))) == Wrap(x - y * size)
  {
    ScaledExact(size, y);
    WrapAddLeft(x, y * size);
    WrapSubLeft(x, y * size);
  }

  lemma {:induction false} AddUnit(x: u64, y: u64, s: nat)
    requires Wrap(s) == 1
    ensures Wrap(x * s + y) == Wrap(x + y)
  {
    assert Wrap(x * s) == x by {
      WrapMul(s, x);
      assert s * x == x * s;
    }
    WrapAddLeft(y, x * s);
  }

  lemma {:induction false} AddRegFaithful(spec: Spec, a: Shape, b: Shape, x: u64, y: u64)
    requires a.SReg? && b.SReg? && CTyped(OAdd, a, b) && FaithfulRegReg(spec, OAdd, a, b)
    ensures ComputedRegReg(spec, OAdd, a, x, y) == CMeaning(spec, OAdd, a, b, x, y)
  {
    hide AluResult, CMeaning, CScale, ElemSize;
    CMeaningIs(spec, OAdd, a, b, x, y);
    CScaleIs(spec, a);
    CScaleIs(spec, b);
    var size := ElemSize(spec, a.ty);
    PlainAlu(x, y);
    if IsPtr(b) {
      AddUnit(x, y, CScale(spec, b));
    } else {
      AddScaled(if size != 0 then size else 1, x, y);
    }
  }

  lemma {:induction false} SubRegFaithful(spec: Spec, a: Shape, b: Shape, x: u64, y: u64)
    requires a.SReg? && b.SReg? && CTyped(OSub, a, b) && FaithfulRegReg(spec, OSub, a, b)
    ensures ComputedRegReg(spec, OSub, a, x, y) == CMeaning(spec, OSub, a, b, x, y)
  {
    hide AluResult, CMeaning, CScale, ElemSize;
    CMeaningIs(spec, OSub, a, b, x, y);
    CScaleIs(spec, a);
    CScaleIs(spec, b);
    var size := ElemSize(spec, a.ty);
    PlainAlu(x, y);
    PlainAlu(y, 0);
    if IsPtr(b) {
      PtrDiff(x, y, 1);
      assert size == 0 || (size == 1 && AluResult(Mul, y, Immediate(1)) == y);
    } else {
      AddScaled(if size != 0 then size else 1, x, y);
    }
  }

  lemma {:induction false} PtrDiff(x: u64, y: u64, s: nat)
    requires s > 0
    ensures s == 1 ==> Wrap(CQuotient(Int64(x - y), s)) == Wrap(x - y)
    ensures s > 1 ==> Wrap(CQuotient(Int64(1), s)) == 0
    ensures Wrap(CQuotient(Int64(0), s)) == 0
  {
    WrapInt64(x - y);
    if s == 1 {
      var d: int := Int64(x - y);
      DivModUnique(d, 1, d, 0);
      DivModUnique(0 - d, 1, 0 - d, 0);
    } else {
      ModSmall(1, s);
    }
    ModSmall(0, s);
  }

  lemma {:induction false} RegRegFaithful(spec: Spec, op: BinOp, a: Shape, b: Shape, x: u64, y: u64)
    requires a.SReg? && b.SReg? && CTyped(op, a, b) && FaithfulRegReg(spec, op, a, b)
    ensures ComputedRegReg(spec, op, a, x, y) == CMeaning(spec, op, a, b, x, y)
  {
    hide AluResult, CMeaning, CScale, Compare, AluOf;
    CMeaningIs(spec, op, a, b, x, y);
    match op
    case OAdd => AddRegFaithful(spec, a, b, x, y);
    case OSub => SubRegFaithful(spec, a, b, x, y);
    case _ =>
  }

  lemma {:induction false} PlainAlu(x: u64, y: u64)
    ensures AluResult(Add, x, y) == Wrap(x + y) && AluResult(Sub, x, y) == Wrap(x - y)
    ensures AluResult(Mul, x, 1) == x && AluResult(Mul, 1, x) == x && AluResult(Mul, 0, x) == 0
  {
  }

  lemma {:induction false} AddRegWitness(spec: Spec, a: Shape, b: Shape) returns (x: u64, y: u64)
    requires a.SReg? && b.SReg? && CTyped(OAdd, a, b) && !FaithfulRegReg(spec, OAdd, a, b)
    ensures ComputedRegReg(spec, OAdd, a, x, y) != CMeaning(spec, OAdd, a, b, x, y)
  {
    hide AluResult, CMeaning, CScale, ElemSize;
    CScaleIs(spec, a);
    CScaleIs(spec, b);
    var size := ElemSize(spec, a.ty);
    var k := Immediate(size);
    PlainAlu(k, 0);
    if IsPtr(b) {
      x, y := 1, 0;
      PlainAlu(1, 0);
      assert ComputedRegReg(spec, OAdd, a, x, y) == 1;
      CMeaningIs(spec, OAdd, a, b, x, y);
      assert CMeaning(spec, OAdd, a, b, x, y) == Wrap(CScale(spec, b));
    } else {
      x, y := 0, 1;
      PlainAlu(0, k);
      assert ComputedRegReg(spec, OAdd, a, x, y) == k;
      CMeaningIs(spec, OAdd, a, b, x, y);
      assert CMeaning(spec, OAdd, a, b, x, y) == Wrap(size);
    }
  }

  lemma {:induction false} SubRegWitness(spec: Spec, a: Shape, b: Shape) returns (x: u64, y: u64)
    requires a.SReg? && b.SReg? && CTyped(OSub, a, b) && !FaithfulRegReg(spec, OSub, a, b)
    ensures ComputedRegReg(spec, OSub, a, x, y) != CMeaning(spec, OSub, a, b, x, y)
  {
    hide AluResult, CMeaning, CScale, ElemSize, CQuotient;
    CScaleIs(spec, a);
    CScaleIs(spec, b);
    var size := ElemSize(spec, a.ty);
    var k := Immediate(size);
    PlainAlu(k, 0);
    if IsPtr(b) {
      x, y := 1, if k == 1 then 0 else 1;
      PlainAlu(1, if k == 1 then 0 else k);
      PlainAlu(0, k);
      PtrDiff(x, y, size);
      assert AluResult(Mul, y, k) == if k == 1 then 0 else k;
    } else {
      x, y := 0, 1;
      PlainAlu(0, k);
      WrapCancel(0, k, size);
    }
    CMeaningIs(spec, OSub, a, b, x, y);
  }

  lemma {:induction false} RegRegWitness(spec: Spec, op: BinOp, a: Shape, b: Shape) returns (x: u64, y: u64)
    requires a.SReg? && b.SReg? && CTyped(op, a, b) && !FaithfulRegReg(spec, op, a, b)
    ensures ComputedRegReg(spec, op, a, x, y) != CMeaning(spec, op, a, b, x, y)
  {
    hide AluResult, CMeaning, CScale, Compare;
    match op
    case OAdd => x, y := AddRegWitness(spec, a, b);
    case OSub => x, y := SubRegWitness(spec, a, b);
    case ODiv =>
      x, y := 1, 1;
      DivMod1();
      CMeaningIs(spec, op, a, b, x, y);
  }

  lemma {:induction false} DivMod1()
    ensures AluResult(Div, 1, 1) == 1
  {
    ModSelf(1);
  }

  // Constant on the left ---------------------------------------------------------------------------

  lemma {:induction false} ScaleIs(spec: Spec, a: Shape)
    requires a.SReg?
    ensures AddScale(spec, a.ty).Some? ==> AddScale(spec, a.ty).value == CScale(spec, a)
    ensures SubScale(spec, a.ty).Some? ==> SubScale(spec, a.ty).value == CScale(spec, a)
  {
    if IsVoidPointer(a.ty) {
      SizeOfUnderlying(spec, Underlying(a.ty).target);
    }
  }

  /** Adding or subtracting a scaled constant. */
  lemma {:induction false} AddConst(x: u64, n: i64, s: nat)
    requires Exact(n * s)
    ensures AluResult(Add, x, Immediate(n * s)) == Wrap(x + Wrap(n) * s)
    ensures AluResult(Sub, x, Immediate(n * s)) == Wrap(x - Wrap(n) * s)
  {
    WrapMul(n, s);
    WrapAddLeft(x, Wrap(n) * s);
    WrapSubLeft(x, Wrap(n) * s);
  }

  lemma {:induction false} AddConstDiffers(n: i64, s: nat)
    requires !Exact(n * s)
    ensures AluResult(Add, 0, Immediate(n * s)) != Wrap(Wrap(n) * s)
    ensures AluResult(Sub, 0, Immediate(n * s)) != Wrap(0 - Wrap(n) * s)
  {
    WrapMul(n, s);
    WrapSubLeft(0, Wrap(n) * s);
    WrapCancel(0, Immediate(n * s), n * s);
    WrapSubLeft(0, n * s);
  }

  lemma {:induction false} AluCommute(op: AluOp, x: u64, y: u64)
    requires op == And || op == Or || op == Xor || op == Mul
    ensures AluResult(op, x, y) == AluResult(op, y, x)
  {
    match op
    case And => BitsCommute(BAnd, x, y, 64);
    case Or => BitsCommute(BOr, x, y, 64);
    case Xor => BitsCommute(BXor, x, y, 64);
    case Mul => assert x * y == y * x;
  }

  lemma {:induction false} NumRegFaithful(spec: Spec, op: BinOp, n: i64, b: Shape, y: u64)
    requires b.SReg? && CTyped(op, SNum(n), b) && FaithfulNumReg(spec, op, n, b)
    requires BinPlan(spec, op, SNum(n), b).Some?
    ensures ComputedNumReg(spec, op, n, b, y) == CMeaning(spec, op, SNum(n), b, 0, y)
  {
    if op == OAdd || op == OSub {
      NumRegSum(spec, op, n, b, y);
    } else {
      NumRegWord(spec, op, n, b, y);
      CMeaningWord(spec, op, SNum(n), b, 0, y);
    }
  }

  lemma {:induction false} NumRegSum(spec: Spec, op: BinOp, n: i64, b: Shape, y: u64)
    requires op == OAdd || op == OSub
    requires b.SReg? && CTyped(op, SNum(n), b) && FaithfulNumReg(spec, op, n, b)
    requires BinPlan(spec, op, SNum(n), b).Some?
    ensures ComputedNumReg(spec, op, n, b, y) == CMeaning(spec, op, SNum(n), b, 0, y)
  {
    hide AluResult, CScale, AddScale;
    CScaleIs(spec, SNum(n));
    if op == OAdd {
      ScaleIs(spec, b);
      AddConst(y, n, CScale(spec, b));
    } else {
      WrapShift(0 - y, 1);
    }
  }

  lemma {:induction false} NumRegWord(spec: Spec, op: BinOp, n: i64, b: Shape, y: u64)
    requires op != OAdd && op != OSub && b.SReg? && FaithfulNumReg(spec, op, n, b)
    ensures ComputedNumReg(spec, op, n, b, y) == CWord(op, Wrap(n), y)
  {
    hide AluResult, CWord;
    CWordIs(op, Wrap(n), y);
    var k := Immediate(n);
    match op
    case OOr | OXor | OAnd => AluCommute(AluOf(op), y, k);
    case OMul =>
      AluCommute(Mul, y, k);
      PlainAlu(y, 0);
    case OLsh | ORsh | OMod | ODiv => ZeroOperand(y);
    case _ =>
  }

  lemma {:induction false} ZeroOperand(y: u64)
    ensures AluResult(Lsh, 0, y) == 0 && AluResult(Rsh, 0, y) == 0
    ensures AluResult(Mod, 0, y) == 0 && AluResult(Div, 0, y) == 0
  {
    var p := Pow2(y % 64);
    ModSmall(0, p);
    if y != 0 {
      ModSmall(0, y);
    }
  }

  /** Operands that tell two different constants apart. */
  lemma {:induction false} AluAtUnit(k: u64)
    ensures AluResult(Or, 0, k) == k && AluResult(Xor, 0, k) == k
    ensures AluResult(Or, k, 0) == k && AluResult(Xor, k, 0) == k
    ensures AluResult(And, TWO64 - 1, k) == k && AluResult(And, k, TWO64 - 1) == k
    ensures AluResult(Mul, 1, k) == k && AluResult(Mul, k, 1) == k
    ensures AluResult(Lsh, k, 0) == k && AluResult(Rsh, k, 0) == k && AluResult(Mod, k, 0) == k
  {
    BitsNeutralZero(BOr, k);
    BitsNeutralZero(BXor, k);
    BitsNeutralOnes(k);
    BitsCommute(BAnd, TWO64 - 1, k, 64);
    ShiftZero(k);
  }

  /** y - n and n - y agree nowhere when n is not zero, or else not at both 0 and 1. */
  lemma {:induction false} SubWitness(n: i64) returns (y: u64)
    requires n != 0
    ensures AluResult(Sub, y, Immediate(n)) != Wrap(Wrap(n) - y)
  {
    y := if AluResult(Sub, 0, Immediate(n)) == Wrap(n) then 1 else 0;
  }

  lemma {:induction false} NumRegWitness(spec: Spec, op: BinOp, n: i64, b: Shape) returns (y: u64)
    requires b.SReg? && CTyped(op, SNum(n), b) && !FaithfulNumReg(spec, op, n, b)
    requires BinPlan(spec, op, SNum(n), b).Some?
    ensures ComputedNumReg(spec, op, n, b, y) != CMeaning(spec, op, SNum(n), b, 0, y)
  {
    if op == OAdd {
      y := AddWitness(spec, n, b);
    } else if op == OSub {
      y := SubWitness(n);
    } else {
      y := NumRegWordWitness(spec, op, n, b);
      CMeaningWord(spec, op, SNum(n), b, 0, y);
    }
  }

  lemma {:induction false} AddWitness(spec: Spec, n: i64, b: Shape) returns (y: u64)
    requires b.SReg? && !FaithfulNumReg(spec, OAdd, n, b) && BinPlan(spec, OAdd, SNum(n), b).Some?
    ensures ComputedNumReg(spec, OAdd, n, b, y) != CMeaning(spec, OAdd, SNum(n), b, 0, y)
  {
    hide AluResult, CScale, AddScale;
    CScaleIs(spec, SNum(n));
    y := 0;
    ScaleIs(spec, b);
    AddConstDiffers(n, CScale(spec, b));
  }

  lemma {:induction false} NumRegWordWitness(spec: Spec, op: BinOp, n: i64, b: Shape) returns (y: u64)
    requires op != OAdd && op != OSub && b.SReg? && !FaithfulNumReg(spec, op, n, b)
    ensures ComputedNumReg(spec, op, n, b, y) != CWord(op, Wrap(n), y)
  {
    hide AluResult, CWord;
    var k, c := Immediate(n), Wrap(n);
    AluAtUnit(k);
    AluAtUnit(c);
    match op {
      case OOr | OXor =>
        y := if n == 0 then 1 else 0;
        AluAtUnit(1);
      case OAnd => y := TWO64 - 1;
      case OMul => y := 1;
      case OLsh | ORsh | OMod => y := 0;
      case ODiv =>
        y := 1;
        DivByOne(c);
      case OEq | ONe => y := c;
      case OGt | OGe | OLt | OLe => y := OrderWitness(op, n);
    }
    CWordIs(op, c, y);
  }

  lemma {:induction false} DivByOne(c: u64)
    ensures AluResult(Div, c, 1) == c
  {
    DivModUnique(c, 1, c, 0);
  }

  /** With the constant on the left an ordering is never the mirrored one. */
  lemma {:induction false} OrderWitness(op: BinOp, n: i64) returns (y: u64)
    requires op == OGt || op == OGe || op == OLt || op == OLe
    ensures Compare(op, y, Immediate(n)) != Compare(op, Wrap(n), y)
  {
    var k, c := Immediate(n), Wrap(n);
    if Compare(op, 0, k) != Compare(op, c, 0) {
      y := 0;
    } else if Compare(op, 1, k) != Compare(op, c, 1) {
      y := 1;
    } else {
      y := TWO64 - 1;
    }
  }

  // Constant on the right --------------------------------------------------------------------------

  lemma {:induction false} RegNumFaithful(spec: Spec, op: BinOp, a: Shape, n: i64, x: u64)
    requires a.SReg? && CTyped(op, a, SNum(n)) && FaithfulRegNum(spec, op, a, n)
    requires BinPlan(spec, op, a, SNum(n)).Some?
    ensures ComputedRegNum(spec, op, a, n, x) == CMeaning(spec, op, a, SNum(n), x, 0)
  {
    if op == OAdd || op == OSub {
      RegNumSum(spec, op, a, n, x);
    } else {
      RegNumWord(spec, op, a, n, x);
      CMeaningWord(spec, op, a, SNum(n), x, 0);
    }
  }

  lemma {:induction false} RegNumSum(spec: Spec, op: BinOp, a: Shape, n: i64, x: u64)
    requires op == OAdd || op == OSub
    requires a.SReg? && FaithfulRegNum(spec, op, a, n) && BinPlan(spec, op, a, SNum(n)).Some?
    ensures ComputedRegNum(spec, op, a, n, x) == CMeaning(spec, op, a, SNum(n), x, 0)
  {
    hide AluResult, CScale, AddScale, SubScale;
    CScaleIs(spec, SNum(n));
    ScaleIs(spec, a);
    AddConst(x, n, CScale(spec, a));
  }

  lemma {:induction false} RegNumWord(spec: Spec, op: BinOp, a: Shape, n: i64, x: u64)
    requires op != OAdd && op != OSub && a.SReg? && FaithfulRegNum(spec, op, a, n)
    ensures ComputedRegNum(spec, op, a, n, x) == CWord(op, x, Wrap(n))
  {
    hide AluResult, CWord, Compare;
    CWordIs(op, x, Wrap(n));
    match op
    case OMul =>
      PlainAlu(x, 0);
      AluCommute(Mul, x, 0);
    case OMod => ModByOne(x);
    case OLsh | ORsh =>
      CountExact(n);
      ShiftCount(x, Immediate(n), Wrap(n));
      AluAtUnit(x);
    case _ =>
  }

  lemma {:induction false} ModByOne(x: u64)
    ensures AluResult(Mod, x, 1) == 0
  {
    DivModUnique(x, 1, x, 0);
  }

  lemma {:induction false} ShiftCount(x: u64, k: u64, c: u64)
    requires k % 64 == c % 64
    ensures AluResult(Lsh, x, k) == AluResult(Lsh, x, c) && AluResult(Rsh, x, k) == AluResult(Rsh, x, c)
  {
  }

  /** Truncating a shift count to 32 bits does not change its six low bits. */
  lemma {:induction false} CountExact(n: i64)
    ensures Immediate(n) % 64 == Wrap(n) % 64
  {
  }

  lemma {:induction false} RegNumWitness(spec: Spec, op: BinOp, a: Shape, n: i64) returns (x: u64)
    requires a.SReg? && CTyped(op, a, SNum(n)) && !FaithfulRegNum(spec, op, a, n)
    requires BinPlan(spec, op, a, SNum(n)).Some?
    ensures ComputedRegNum(spec, op, a, n, x) != CMeaning(spec, op, a, SNum(n), x, 0)
  {
    if op == OAdd || op == OSub {
      x := RegNumSumWitness(spec, op, a, n);
    } else {
      x := RegNumWordWitness(spec, op, a, n);
      CMeaningWord(spec, op, a, SNum(n), x, 0);
    }
  }

  lemma {:induction false} RegNumSumWitness(spec: Spec, op: BinOp, a: Shape, n: i64) returns (x: u64)
    requires op == OAdd || op == OSub
    requires a.SReg? && !FaithfulRegNum(spec, op, a, n) && BinPlan(spec, op, a, SNum(n)).Some?
    ensures ComputedRegNum(spec, op, a, n, x) != CMeaning(spec, op, a, SNum(n), x, 0)
  {
    hide AluResult, CScale, AddScale, SubScale;
    CScaleIs(spec, SNum(n));
    x := 0;
    ScaleIs(spec, a);
    AddConstDiffers(n, CScale(spec, a));
  }

  lemma {:induction false} RegNumWordWitness(spec: Spec, op: BinOp, a: Shape, n: i64) returns (x: u64)
    requires op != OAdd && op != OSub && a.SReg? && !FaithfulRegNum(spec, op, a, n)
    ensures ComputedRegNum(spec, op, a, n, x) != CWord(op, x, Wrap(n))
  {
    hide AluResult, CWord;
    var k, c := Immediate(n), Wrap(n);
    AluAtUnit(k);
    AluAtUnit(c);
    match op {
      case OOr | OXor =>
        x := if n == 0 then 1 else 0;
        AluAtUnit(1);
      case OAnd => x := TWO64 - 1;
      case OMul => x := 1;
      case ODiv | OMod => x := DivModDiffer(k, c);
      case OEq | ONe => x := c;
      case OGt | OLe => x := if k < c then c else k;
      case OGe | OLt => x := if k < c then k else c;
    }
    CWordIs(op, x, c);
  }

  // The exact condition ----------------------------------------------------------------------------

  /** The code of a binary operator computes its C meaning for all operand values exactly when the
      static test holds. */
  lemma {:induction false} FaithfulIff(spec: Spec, op: BinOp, a: Shape, b: Shape)
    requires BinPlan(spec, op, a, b).Some? && CTyped(op, a, b)
    ensures FaithfulBin(spec, op, a, b) <==>
            forall x: u64, y: u64 :: Computed(spec, op, a, b, x, y) == CMeaning(spec, op, a, b, x, y)
  {
    hide AluResult, ComputedRegReg, ComputedNumReg, ComputedRegNum, FaithfulRegReg, FaithfulNumReg, FaithfulRegNum;
    if FaithfulBin(spec, op, a, b) {
      forall x: u64, y: u64
        ensures Computed(spec, op, a, b, x, y) == CMeaning(spec, op, a, b, x, y)
      {
        FaithfulMeans(spec, op, a, b, x, y);
      }
    } else {
      var x, y := UnfaithfulWitness(spec, op, a, b);
    }
  }

  /** The value of a constant operand is the constant, whatever is in a register. */
  lemma {:induction false} LeftValue(spec: Spec, op: BinOp, a: Shape, b: Shape, x: u64, y: u64)
    requires a.SNum?
    ensures CMeaning(spec, op, a, b, x, y) == CMeaning(spec, op, a, b, 0, y)
  {
    hide CWord, CConst, CScale;
  }

  lemma {:induction false} RightValue(spec: Spec, op: BinOp, a: Shape, b: Shape, x: u64, y: u64)
    requires b.SNum?
    ensures CMeaning(spec, op, a, b, x, y) == CMeaning(spec, op, a, b, x, 0)
  {
    hide CWord, CConst, CScale;
  }

  lemma {:induction false} ConstMeaning(spec: Spec, op: BinOp, n: i64, m: i64, x: u64, y: u64)
    ensures CMeaning(spec, op, SNum(n), SNum(m), x, y) == Wrap(Int64(CConst(op, n, m)))
  {
    hide CConst;
    WrapInt64(CConst(op, n, m));
  }

  lemma {:induction false} FaithfulMeans(spec: Spec, op: BinOp, a: Shape, b: Shape, x: u64, y: u64)
    requires BinPlan(spec, op, a, b).Some? && CTyped(op, a, b) && FaithfulBin(spec, op, a, b)
    ensures Computed(spec, op, a, b, x, y) == CMeaning(spec, op, a, b, x, y)
  {
    hide AluResult, CMeaning, FoldConst, ComputedRegReg, ComputedNumReg, ComputedRegNum, FaithfulRegReg, FaithfulNumReg, FaithfulRegNum;
    if a.SReg? && b.SReg? {
      RegRegFaithful(spec, op, a, b, x, y);
    } else if a.SNum? && b.SReg? {
      NumRegFaithful(spec, op, a.n, b, y);
      assert a == SNum(a.n);
      LeftValue(spec, op, a, b, x, y);
    } else if a.SReg? && b.SNum? {
      RegNumFaithful(spec, op, a, b.n, x);
      assert b == SNum(b.n);
      RightValue(spec, op, a, b, x, y);
    } else {
      FoldMeans(op, a.n, b.n);
      ConstMeaning(spec, op, a.n, b.n, x, y);
    }
  }

  lemma {:induction false} UnfaithfulWitness(spec: Spec, op: BinOp, a: Shape, b: Shape) returns (x: u64, y: u64)
    requires BinPlan(spec, op, a, b).Some? && CTyped(op, a, b) && !FaithfulBin(spec, op, a, b)
    ensures Computed(spec, op, a, b, x, y) != CMeaning(spec, op, a, b, x, y)
  {
    hide AluResult, CMeaning, ComputedRegReg, ComputedNumReg, ComputedRegNum, FaithfulRegReg, FaithfulNumReg, FaithfulRegNum;
    x, y := 0, 0;
    if a.SReg? && b.SReg? {
      x, y := RegRegWitness(spec, op, a, b);
    } else if a.SNum? && b.SReg? {
      y := NumRegWitness(spec, op, a.n, b);
      assert a == SNum(a.n);
    } else {
      x := RegNumWitness(spec, op, a, b.n);
      assert b == SNum(b.n);
    }
  }

  // Unary operators and the conditional ------------------------------------------------------------

  function CMeaningUn(spec: Spec, op: UnOp, a: Shape, x: u64): u64 {
    match op
    case UMinus => Wrap(TWO64 - x)
    case UNot => BoolWord(x == 0)
    case UPreDec => Wrap(x - CScale(spec, a))
    case UPreInc => Wrap(x + CScale(spec, a))
    case UTwid => TWO64 - 1 - x
  }

  /** Increment and decrement ignore the element size of a pointer. */
  predicate FaithfulUn(spec: Spec, op: UnOp, a: Shape) {
    op == UPreDec || op == UPreInc ==> Wrap(CScale(spec, a)) == 1
  }

  lemma {:induction false} FaithfulUnIff(spec: Spec, op: UnOp, a: Shape)
    requires a.SReg?
    ensures FaithfulUn(spec, op, a) <==> forall x: u64 :: ComputedUn(op, x) == CMeaningUn(spec, op, a, x)
  {
    hide AluResult;
    forall x: u64
      ensures ComputedUn(op, x) == CMeaningUn(spec, op, a, x) <==> FaithfulUn(spec, op, a)
    {
      TwidMeans(x);
      PlainAlu(x, 1);
      WrapCancel(x, 1, CScale(spec, a));
    }
    assert ComputedUn(op, 0) == CMeaningUn(spec, op, a, 0) ==> FaithfulUn(spec, op, a);
  }

  lemma {:induction false} TwidMeans(x: u64)
    ensures AluResult(Xor, x, TWO64 - 1) == TWO64 - 1 - x
  {
    Pow2Values();
    BitsXorOnes(x, 64);
  }
}
