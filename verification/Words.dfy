/** Machine integers: 64-bit words as wrapped integers, the sign-extended immediates of eBPF
    instructions, bitwise operators as bit-by-bit recursions, and little-endian byte strings. */
module Words {

  const TWO16 := 0x1_0000
  const TWO32 := 0x1_0000_0000
  const TWO64 := 0x1_0000_0000_0000_0000

  type u64 = x: int | 0 <= x < TWO64
  type i64 = x: int | -0x8000_0000_0000_0000 <= x < 0x8000_0000_0000_0000
  type byte = x: int | 0 <= x < 256

  /** Reduction modulo 2^64. */
  function Wrap(x: int): u64 {
    x % TWO64
  }

  /** The low 32 bits of `x` read as a signed number: Go's int32 conversion, and also what the
      immediate field of an instruction can hold. */
  function Int32(x: int): int {
    var low := x % TWO32;
    if low < 0x8000_0000 then low else low - TWO32
  }

  /** The low 16 bits of `x` read as a signed number: the offset field of an instruction. */
  function Int16(x: int): int {
    var low := x % TWO16;
    if low < 0x8000 then low else low - TWO16
  }

  /** The low 64 bits of `x` read as a signed number: Go's int64. */
  function Int64(x: int): i64 {
    var low := x % TWO64;
    if low < 0x8000_0000_0000_0000 then low else low - TWO64
  }

  /** The time between two 32-bit timestamps. */
  function Elapsed(from: int, to: int): (d: int)
    ensures 0 <= d < TWO32
  {
    (to - from) % TWO32
  }

  function Pow2(n: nat): (p: nat)
    ensures p > 0
  {
    if n == 0 then 1 else 2 * Pow2(n - 1)
  }

  lemma {:induction false} Pow2Values()
    ensures Pow2(8) == 256 && Pow2(16) == TWO16 && Pow2(32) == TWO32 && Pow2(64) == TWO64
    ensures Pow2(31) == TWO32 / 2 && Pow2(63) == TWO64 / 2
  {
    assert Pow2(8) == 256;
    Pow2Add(8, 8);
    Pow2Add(16, 16);
    Pow2Add(32, 32);
  }

  lemma {:induction false} Pow2Add(a: nat, b: nat)
    ensures Pow2(a + b) == Pow2(a) * Pow2(b)
  {
    if a > 0 {
      Pow2Add(a - 1, b);
      assert Pow2(a + b) == 2 * Pow2(a - 1 + b);
    }
  }

  lemma {:induction false} Pow2Monotone(a: nat, b: nat)
    requires a <= b
    ensures Pow2(a) <= Pow2(b)
  {
    if a < b {
      Pow2Monotone(a, b - 1);
    }
  }

  datatype BitOp = BAnd | BOr | BXor

  function Bit(op: BitOp, a: nat, b: nat): (r: nat)
    requires a < 2 && b < 2
    ensures r < 2
  {
    match op
    case BAnd => if a == 1 && b == 1 then 1 else 0
    case BOr => if a == 1 || b == 1 then 1 else 0
    case BXor => if a != b then 1 else 0
  }

  /** `op` applied to the low `n` bits of `a` and `b`. */
  function Bits(op: BitOp, a: nat, b: nat, n: nat): (r: nat)
    ensures r < Pow2(n)
    decreases n
  {
    if n == 0 then 0
    else Bit(op, a % 2, b % 2) + 2 * Bits(op, a / 2, b / 2, n - 1)
  }

  function Bitwise(op: BitOp, a: u64, b: u64): u64 {
    Pow2Values();
    Bits(op, a, b, 64)
  }

  lemma {:induction false} BitsAndZero(a: nat, n: nat)
    ensures Bits(BAnd, a, 0, n) == 0
    decreases n
  {
    if n > 0 {
      BitsAndZero(a / 2, n - 1);
    }
  }

  /** Masking with 2^k - 1 keeps exactly the residue modulo 2^k. */
  lemma {:induction false} BitsAndMask(a: nat, k: nat, n: nat)
    requires k <= n
    ensures Bits(BAnd, a, Pow2(k) - 1, n) == a % Pow2(k)
    decreases n
  {
    hide Bits;
    if k == 0 {
      BitsAndZero(a, n);
    } else {
      var m := Pow2(k - 1);
      BitsAndMask(a / 2, k - 1, n - 1);
      ModSplit(a, 2, m);
      assert Pow2(k) - 1 == 2 * (m - 1) + 1;
      BitsAndOdd(a, m - 1, n);
    }
  }

  lemma {:induction false} BitsAndOdd(a: nat, b: nat, n: nat)
    requires n > 0
    ensures Bits(BAnd, a, 2 * b + 1, n) == a % 2 + 2 * Bits(BAnd, a / 2, b, n - 1)
  {
    assert (2 * b + 1) / 2 == b && (2 * b + 1) % 2 == 1;
  }

  /** A residue modulo a product, digit by digit. */
  lemma {:induction false} ModSplit(a: nat, c: nat, m: nat)
    requires c > 0 && m > 0
    ensures c * m > 0
    ensures a % (c * m) == a % c + c * ((a / c) % m)
  {
    ProductPositive(c, m);
    SplitParts(a, c, m, a / c, a % c, (a / c) / m, (a / c) % m);
  }

  lemma {:induction false} ProductPositive(c: nat, m: nat)
    requires c > 0 && m > 0
    ensures c * m > 0
  {
  }

  lemma {:induction false} SplitParts(a: nat, c: nat, m: nat, d: nat, low: nat, q: nat, r: nat)
    requires c > 0 && m > 0 && c * m > 0
    requires a == c * d + low && low < c
    requires d == m * q + r && r < m
    ensures a % (c * m) == low + c * r
  {
    DigitBound(c, m, r, low);
    Regroup(c, m, q, r, d);
    DivModUnique(a, c * m, q, low + c * r);
  }

  lemma {:induction false} DigitBound(c: nat, m: nat, r: nat, low: nat)
    requires low < c && r < m
    ensures 0 <= low + c * r < c * m
  {
    assert c * r <= c * (m - 1);
  }

  lemma {:induction false} Regroup(c: nat, m: nat, q: nat, r: nat, d: nat)
    requires d == m * q + r
    ensures c * d == (c * m) * q + c * r
  {
    assert c * (m * q) == (c * m) * q;
  }

  lemma {:induction false} DivModUnique(a: int, m: int, q: int, r: int)
    requires 0 <= r < m && a == m * q + r
    ensures a / m == q && a % m == r
  {
    var d := q - a / m;
    assert m * d == a % m - r by {
      assert a == m * (a / m) + a % m;
      assert m * d == m * q - m * (a / m);
    }
    assert d >= 1 ==> m * d >= m;
    assert d <= -1 ==> m * d <= -m;
  }

  lemma {:induction false} BitsXorSelf(a: nat, n: nat)
    ensures Bits(BXor, a, a, n) == 0
    decreases n
  {
    if n > 0 {
      BitsXorSelf(a / 2, n - 1);
    }
  }

  /** Exclusive-or with all ones is the ones' complement. */
  lemma {:induction false} BitsXorOnes(a: nat, n: nat)
    requires a < Pow2(n)
    ensures Bits(BXor, a, Pow2(n) - 1, n) == Pow2(n) - 1 - a
    decreases n
  {
    if n > 0 {
      BitsXorOnes(a / 2, n - 1);
      var m := Pow2(n - 1);
      assert (2 * m - 1) / 2 == m - 1 && (2 * m - 1) % 2 == 1;
    }
  }

  /** Zero is neutral for `|` and `^`. */
  lemma {:induction false} BitsZero(op: BitOp, a: nat, n: nat)
    requires op != BAnd && a < Pow2(n)
    ensures Bits(op, a, 0, n) == a
    decreases n
  {
    if n > 0 {
      BitsZero(op, a / 2, n - 1);
    }
  }

  lemma {:induction false} BitsCommute(op: BitOp, a: nat, b: nat, n: nat)
    ensures Bits(op, a, b, n) == Bits(op, b, a, n)
    decreases n
  {
    if n > 0 {
      BitsCommute(op, a / 2, b / 2, n - 1);
    }
  }

  /** Bit `k` of a number. */
  predicate HasBit(a: nat, k: nat) {
    a / Pow2(k) % 2 == 1
  }

  /** The bits of a bitwise result: 1 for `&` where both operands have 1, for `|` where one of them has, and
      for `^` where they differ. */
  lemma {:induction false} BitsAt(op: BitOp, a: nat, b: nat, n: nat, k: nat)
    requires k < n
    ensures HasBit(Bits(op, a, b, n), k) <==>
            match op
            case BAnd => HasBit(a, k) && HasBit(b, k)
            case BOr => HasBit(a, k) || HasBit(b, k)
            case BXor => HasBit(a, k) != HasBit(b, k)
    decreases n
  {
    LowBit(op, a, b, n);
    if k > 0 {
      BitsAt(op, a / 2, b / 2, n - 1, k - 1);
      BitShift(a, k);
      BitShift(b, k);
      BitShift(Bits(op, a, b, n), k);
    } else {
      assert Pow2(0) == 1;
    }
    hide Bits;
  }

  lemma {:induction false} LowBit(op: BitOp, a: nat, b: nat, n: nat)
    requires n > 0
    ensures Bits(op, a, b, n) / 2 == Bits(op, a / 2, b / 2, n - 1)
    ensures Bits(op, a, b, n) % 2 == Bit(op, a % 2, b % 2)
  {
  }

  lemma {:induction false} BitShift(a: nat, k: nat)
    requires k > 0
    ensures a / Pow2(k) == a / 2 / Pow2(k - 1)
  {
    var p := Pow2(k - 1);
    var q, r := a / 2 / p, a / 2 % p;
    assert a / 2 == p * q + r;
    assert a == (2 * p) * q + (2 * r + a % 2);
    DivModUnique(a, 2 * p, q, 2 * r + a % 2);
  }

  /** The number a little-endian byte string denotes. */
  function LeVal(bs: seq<byte>): (v: nat)
    ensures v < Pow2(8 * |bs|)
  {
    if bs == [] then 0
    else
      var rest := LeVal(bs[1..]);
      Pow2Add(8, 8 * |bs| - 8);
      assert Pow2(8) == 256;
      bs[0] + 256 * rest
  }

  /** The `k` low bytes of `v`, least significant first. */
  function LeBytes(v: nat, k: nat): (bs: seq<byte>)
    ensures |bs| == k
    decreases k
  {
    if k == 0 then [] else [v % 256] + LeBytes(v / 256, k - 1)
  }

  lemma {:induction false} LeRoundTrip(v: nat, k: nat)
    ensures LeVal(LeBytes(v, k)) == v % Pow2(8 * k)
    decreases k
  {
    if k > 0 {
      LeRoundTrip(v / 256, k - 1);
      assert LeBytes(v, k)[1..] == LeBytes(v / 256, k - 1);
      BytePow(k);
      ModSplit(v, 256, Pow2(8 * k - 8));
    }
  }

  lemma {:induction false} BytePow(k: nat)
    requires k > 0
    ensures Pow2(8 * k) == 256 * Pow2(8 * k - 8)
  {
    Pow2Add(8, 8 * k - 8);
    assert Pow2(8) == 256;
  }

  /** Reading fewer bytes of the same string is the residue of reading all of them. */
  lemma {:induction false} LeValPrefix(bs: seq<byte>, k: nat)
    requires k <= |bs|
    ensures LeVal(bs[..k]) == LeVal(bs) % Pow2(8 * k)
    decreases k
  {
    if k > 0 {
      LeValPrefix(bs[1..], k - 1);
      assert bs[..k][1..] == bs[1..][..k - 1];
      BytePow(k);
      var v := LeVal(bs);
      assert v % 256 == bs[0] && v / 256 == LeVal(bs[1..]);
      ModSplit(v, 256, Pow2(8 * k - 8));
    }
  }

  lemma {:induction false} LeValZeros(bs: seq<byte>)
    requires forall i :: 0 <= i < |bs| ==> bs[i] == 0
    ensures LeVal(bs) == 0
  {
    if bs != [] {
      LeValZeros(bs[1..]);
    }
  }
}
