/** The final cut of a loaded dword: which bits of it remain, and when that is the member or the
    number that C reads. */
module Cuts {
  import opened Words
  import opened Machine
  import opened Types
  import opened Operators
  import opened Faithful
  import opened Correctness

  lemma {:induction false} MaskMeans(w: u64, k: nat)
    requires k <= 64
    ensures Bitwise(BAnd, w, Pow2Word(k)) == w % Pow2(k)
  {
    hide Bits, Pow2;
    Pow2Values();
    BitsAndMask(w, k, 64);
  }

  /** 2^k - 1. */
  function Pow2Word(k: nat): u64
    requires k <= 64
  {
    Pow2Monotone(k, 64);
    Pow2Values();
    Pow2(k) - 1
  }

  /** The cut by size leaves every dword alone, an address among them, exactly for sizes other than 1, 2 and 4:
      the address of an array of such a size is cut. */
  lemma {:induction false} CutKeepsIff(spec: Spec, ty: Ty, mem: Option<Field>)
    requires !IsBitfield(mem)
    ensures (forall w: u64 :: Finish(spec, ty, mem, w) == w) <==>
            SizeOf(spec, ty) != Some(1) && SizeOf(spec, ty) != Some(2) && SizeOf(spec, ty) != Some(4)
  {
    hide Finish;
    Pow2Values();
    FinishNumber(spec, ty, mem, TWO32);
    forall w: u64 | SizeOf(spec, ty) != Some(1) && SizeOf(spec, ty) != Some(2) && SizeOf(spec, ty) != Some(4)
      ensures Finish(spec, ty, mem, w) == w
    {
      FinishNumber(spec, ty, mem, w);
    }
    assert Finish(spec, ty, mem, TWO32) == TWO32 ==>
      SizeOf(spec, ty) != Some(1) && SizeOf(spec, ty) != Some(2) && SizeOf(spec, ty) != Some(4);
  }

  /** Byte, half and word loads keep exactly their low bits. */
  lemma {:induction false} FinishNumber(spec: Spec, ty: Ty, mem: Option<Field>, w: u64)
    requires !IsBitfield(mem)
    ensures Finish(spec, ty, mem, w) ==
            match SizeOf(spec, ty)
            case Some(1) => w % Pow2(8)
            case Some(2) => w % Pow2(16)
            case Some(4) => w % Pow2(32)
            case _ => w
  {
    Pow2Values();
    match SizeOf(spec, ty)
    case Some(1) => MaskMeans(w, 8);
    case Some(2) => MaskMeans(w, 16);
    case Some(4) => ShiftPair(w);
    case _ =>
  }

  lemma {:induction false} ShiftPair(w: u64)
    ensures AluResult(Rsh, AluResult(Lsh, w, 32), 32) == w % TWO32
  {
    Pow2Values();
    assert 32 % 64 == 32;
    assert AluResult(Lsh, w, 32) == Wrap(w * TWO32);
    assert Wrap(w * TWO32) == (w % TWO32) * TWO32;
  }

  /** What C reads from a bitfield of that position and width. */
  function Extract(f: Field, w: u64): u64 {
    Quotient(w, Pow2(f.delta)) % Pow2(f.bits)
  }

  /** The mask survives the 32-bit immediate only up to 31 bits; wider fields are not masked at all,
      which is right only when nothing lies above them. */
  predicate ExactBitfield(f: Field) {
    f.bits <= 31 || f.delta + f.bits >= 64
  }

  lemma {:induction false} MaskImmediate(bits: nat)
    ensures bits <= 31 ==> Immediate(Pow2(bits) - 1) == Pow2(bits) - 1
    ensures bits >= 32 ==> Immediate(Pow2(bits) - 1) == TWO64 - 1
  {
    hide Pow2;
    Pow2Values();
    if bits <= 31 {
      Pow2Monotone(bits, 31);
    } else {
      Pow2Add(32, bits - 32);
      MinusOneMod(Pow2(bits - 32));
    }
  }

  lemma {:induction false} MinusOneMod(k: nat)
    requires k > 0
    ensures (TWO32 * k - 1) % TWO32 == TWO32 - 1
  {
    DivModUnique(TWO32 * k - 1, TWO32, k - 1, TWO32 - 1);
  }

  lemma {:induction false} ShiftDown(f: Field, w: u64)
    ensures AluResult(Rsh, w, Immediate(f.delta)) == Quotient(w, Pow2(f.delta))
    ensures f.delta == 0 ==> Quotient(w, Pow2(f.delta)) == w
  {
    hide Pow2;
    assert Immediate(f.delta) == f.delta && f.delta % 64 == f.delta;
    if f.delta == 0 {
      PowZero();
      DivModUnique(w, 1, w, 0);
    }
  }

  lemma {:induction false} PowZero()
    ensures Pow2(0) == 1
  {
  }

  lemma {:induction false} FinishBitfield(spec: Spec, ty: Ty, f: Field, w: u64)
    requires f.bits != 0
    ensures Finish(spec, ty, Some(f), w) ==
            if f.bits <= 31 then Extract(f, w) else Quotient(w, Pow2(f.delta))
  {
    hide Pow2, AluResult, Quotient;
    var shifted := Quotient(w, Pow2(f.delta));
    MaskImmediate(f.bits);
    ShiftDown(f, w);
    if f.bits <= 31 {
      MaskedBy(shifted, f.bits);
    } else {
      MaskedBy(shifted, 64);
      Pow2Values();
      ModSmall(shifted, TWO64);
    }
  }

  lemma {:induction false} MaskedBy(w: u64, k: nat)
    requires k <= 64
    ensures AluResult(And, w, Pow2Word(k)) == w % Pow2(k)
  {
    MaskMeans(w, k);
  }

  /** A bitfield is read as C reads it, for every dword, exactly when its mask is exact. */
  lemma {:induction false} BitfieldIff(spec: Spec, ty: Ty, f: Field)
    requires f.bits != 0
    ensures ExactBitfield(f) <==> forall w: u64 :: Finish(spec, ty, Some(f), w) == Extract(f, w)
  {
    hide Finish;
    forall w: u64
      ensures ExactBitfield(f) ==> Finish(spec, ty, Some(f), w) == Extract(f, w)
    {
      FinishBitfield(spec, ty, f, w);
      if f.delta + f.bits >= 64 {
        TopFits(f, w);
      }
    }
    if !ExactBitfield(f) {
      var w: u64 := TWO64 - 1;
      FinishBitfield(spec, ty, f, w);
      TopOverflows(f);
    }
  }

  /** Shifting by delta leaves fewer than 64 - delta bits. */
  lemma {:induction false} TopFits(f: Field, w: u64)
    requires f.delta + f.bits >= 64
    ensures Quotient(w, Pow2(f.delta)) % Pow2(f.bits) == Quotient(w, Pow2(f.delta))
  {
    hide Pow2;
    var d, q, b := Pow2(f.delta), Quotient(w, Pow2(f.delta)), Pow2(f.bits);
    Pow2Add(f.delta, f.bits);
    Pow2Monotone(64, f.delta + f.bits);
    Pow2Values();
    QuotientTimes(w, d);
    if q >= b {
      MulMonotone(d, b, q);
    }
    ModSmall(q, b);
  }

  lemma {:induction false} QuotientTimes(w: u64, d: nat)
    requires d > 0
    ensures d * Quotient(w, d) <= w < d * Quotient(w, d) + d
  {
    assert w == d * (w / d) + w % d;
  }

  lemma {:induction false} MulMonotone(d: nat, a: nat, b: nat)
    requires a <= b
    ensures d * a <= d * b
  {
  }

  lemma {:induction false} TopOverflows(f: Field)
    requires f.delta + f.bits < 64
    ensures Quotient(TWO64 - 1, Pow2(f.delta)) >= Pow2(f.bits)
  {
    hide Pow2;
    Pow2Add(f.delta, f.bits);
    Pow2Monotone(f.delta + f.bits, 63);
    Pow2Values();
    QuotientAtLeast(TWO64 - 1, Pow2(f.delta), Pow2(f.bits));
  }

  lemma {:induction false} QuotientAtLeast(w: u64, d: nat, b: nat)
    requires d > 0 && d * b <= w
    ensures Quotient(w, d) >= b
  {
    var q := Quotient(w, d);
    QuotientTimes(w, d);
    if q < b {
      MulMonotone(d, q + 1, b);
    }
  }

  /** A read of `n` bytes cut from a read of eight is the read of `n` bytes exactly when the eight are
      all mapped, or when the `n` bytes read as zero anyway. */
  lemma {:induction false} TruncatedReadIff(mem: Memory, a: u64, n: nat)
    requires n <= 8
    ensures Load(mem, a, 8) % Pow2(8 * n) == Load(mem, a, n) <==> Mapped(mem, a, 8) || Load(mem, a, n) == 0
  {
    if Mapped(mem, a, 8) {
      assert Mapped(mem, a, n);
      assert ReadBytes(mem, a, 8)[..n] == ReadBytes(mem, a, n);
      LeValPrefix(ReadBytes(mem, a, 8), n);
    } else {
      LeValZeros(ReadBytes(mem, a, 8));
      ModSmall(0, Pow2(8 * n));
    }
  }

  /** No read of `n` bytes at `a` is mapped in part only. */
  predicate WholeRead(mem: Memory, a: u64, n: nat) {
    Mapped(mem, a, n) ==> Mapped(mem, a, 8)
  }

  lemma {:induction false} WholeReadTruncates(mem: Memory, a: u64, n: nat)
    requires n <= 8 && WholeRead(mem, a, n)
    ensures Load(mem, a, 8) % Pow2(8 * n) == Load(mem, a, n)
    ensures Load(mem, a, n) % Pow2(8 * n) == Load(mem, a, n)
  {
    if !Mapped(mem, a, n) {
      LeValZeros(ReadBytes(mem, a, n));
    }
    TruncatedReadIff(mem, a, n);
    ModSmall(Load(mem, a, n), Pow2(8 * n));
  }

  /** A bitfield that lies in the first `n` bytes is the same in a read of `n` bytes. */
  lemma {:induction false} ExtractFromPart(f: Field, mem: Memory, a: u64, n: nat)
    requires n <= 8 && f.delta + f.bits <= 8 * n && WholeRead(mem, a, n)
    ensures Extract(f, Load(mem, a, n)) == Extract(f, Load(mem, a, 8))
  {
    WholeReadTruncates(mem, a, n);
    var w := Load(mem, a, 8);
    ExtractMod(f.delta, f.bits, 8 * n, w);
  }

  lemma {:induction false} ExtractMod(d: nat, bits: nat, k: nat, w: nat)
    requires d + bits <= k
    ensures (w % Pow2(k)) / Pow2(d) % Pow2(bits) == w / Pow2(d) % Pow2(bits)
  {
    hide Pow2;
    var D, B, R := Pow2(d), Pow2(bits), Pow2(k - d - bits);
    Pow2Add(d, bits);
    Pow2Add(d + bits, k - d - bits);
    MulAssoc(D, B, R);
    ProductPositive(B, R);
    ModSplit(w, D, B * R);
    DivOfSum(D, w % D, (w / D) % (B * R));
    ModSplit(w / D, B, R);
    DigitMod((w / D) % B, B, ((w / D) / B) % R);
  }

  lemma {:induction false} DivOfSum(d: nat, low: nat, hi: nat)
    requires low < d
    ensures (low + d * hi) / d == hi
  {
    DivModUnique(low + d * hi, d, hi, low);
  }

  lemma {:induction false} MulAssoc(a: int, b: int, c: int)
    ensures (a * b) * c == a * (b * c)
  {
  }

  lemma {:induction false} DigitMod(low: nat, b: nat, hi: nat)
    requires low < b
    ensures (low + b * hi) % b == low
  {
    DivModUnique(low + b * hi, b, hi, low);
  }
}
