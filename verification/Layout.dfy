/** The layout arithmetic of control messages (patches/noq-udp/src/cmsg/windows.rs), for
    machine words of 4 and 8 bytes: a header is the length, as a word, and two 32-bit numbers;
    headers and data are aligned to a word. */
module Layout {
  import opened Wire

  type Word = w: nat | w == 4 || w == 8 witness 8

  function Pow2(k: nat): (p: nat)
    ensures p >= 1
  {
    if k == 0 then 1 else 2 * Pow2(k - 1)
  }

  /** The number of values of a `usize`. */
  function Range(w: Word): nat {
    if w == 4 then 0x1_0000_0000 else 0x1_0000_0000_0000_0000
  }

  // ---- Masks -------------------------------------------------------------------------

  /** Bitwise and. */
  function And(x: nat, y: nat): nat {
    if x == 0 || y == 0 then 0 else 2 * And(x / 2, y / 2) + (x % 2) * (y % 2)
  }

  /** Bitwise complement of a number of `bits` bits. */
  function Not(bits: nat, x: nat): int {
    Pow2(bits) - 1 - x
  }

  lemma {:induction false} AndOnes(x: nat, bits: nat)
    requires x < Pow2(bits)
    ensures And(x, Pow2(bits) - 1) == x
    decreases bits
  {
    if bits > 0 && x > 0 {
      assert (Pow2(bits) - 1) / 2 == Pow2(bits - 1) - 1 && (Pow2(bits) - 1) % 2 == 1;
      AndOnes(x / 2, bits - 1);
    }
  }

  lemma {:induction false} PowGrows(k: nat, bits: nat)
    requires k <= bits
    ensures Pow2(k) <= Pow2(bits)
    decreases bits
  {
    if k < bits { PowGrows(k, bits - 1); }
  }

  lemma ModOfDouble(x: nat, m: nat)
    requires m >= 1
    ensures x % (2 * m) == 2 * (x / 2 % m) + x % 2
  {
    var q, r := x / 2 / m, x / 2 % m;
    assert x / 2 == q * m + r;
    assert x == (2 * m) * q + (2 * r + x % 2);
    ModIs(x, 2 * m, q, 2 * r + x % 2);
  }

  lemma TimesFarther(d: nat, a: nat, b: nat)
    requires a > b
    ensures d * a >= d * b + d
  {
    var k: nat := a - b - 1;
    assert a == b + 1 + k;
    assert d * (b + 1 + k) == d * b + d + d * k;
    TimesIsNat(d, k);
  }

  lemma TimesIsNat(d: nat, k: nat)
    ensures d * k >= 0
  {
  }

  lemma ModIs(x: nat, d: nat, q: nat, r: nat)
    requires d >= 1 && x == d * q + r && r < d
    ensures x % d == r && x / d == q
  {
    var q' := x / d;
    assert x == d * q' + x % d;
    if q > q' {
      TimesFarther(d, q, q');
    } else if q < q' {
      TimesFarther(d, q', q);
    }
  }

  /** Masking off the lowest `k` bits takes away the remainder modulo 2^k. */
  lemma {:induction false} MaskClearsLowBits(x: nat, k: nat, bits: nat)
    requires k <= bits && x < Pow2(bits)
    ensures Not(bits, Pow2(k) - 1) >= 0
    ensures And(x, Not(bits, Pow2(k) - 1)) == x - x % Pow2(k)
    decreases k
  {
    PowGrows(k, bits);
    if k == 0 {
      AndOnes(x, bits);
    } else {
      var mask := Pow2(bits) - Pow2(k);
      PowGrows(k - 1, bits - 1);
      assert mask / 2 == Pow2(bits - 1) - Pow2(k - 1) && mask % 2 == 0;
      MaskClearsLowBits(x / 2, k - 1, bits - 1);
      ModOfDouble(x, Pow2(k - 1));
      if x != 0 && mask != 0 {
        assert And(x, mask) == 2 * And(x / 2, mask / 2);
      } else if mask == 0 {
        assert x / 2 - x / 2 % Pow2(k - 1) == 0;
      }
    }
  }

  // ---- The functions of the source ---------------------------------------------------

  const HEADER_NUMBERS: nat := 8

  function HeaderSize(w: Word): nat {
    w + HEADER_NUMBERS
  }

  /** `cmsghdr_align` and `cmsgdata_align`: both round up to a word, by adding and masking, in
      the arithmetic of `usize`. */
  function Align(w: Word, length: nat): nat {
    And((length + w - 1) % Range(w), if Not(8 * w, w - 1) < 0 then 0 else Not(8 * w, w - 1))
  }

  function CmsgLen(w: Word, length: nat): nat {
    Align(w, HeaderSize(w)) + length
  }

  function CmsgSpace(w: Word, length: nat): nat {
    Align(w, HeaderSize(w) + Align(w, length))
  }

  /** How far `cmsg_nxt_hdr` steps from a header that holds this length. */
  function CmsgStep(w: Word, cmsgLen: nat): nat {
    Align(w, cmsgLen)
  }

  lemma RangeIsPow2(w: Word)
    ensures Range(w) == Pow2(8 * w)
  {
    Pow32();
    if w == 8 {
      Pow2Adds(32, 32);
    }
  }

  lemma {:induction false} Pow2Adds(j: nat, k: nat)
    ensures Pow2(j + k) == Pow2(j) * Pow2(k)
    decreases j
  {
    if j > 0 {
      Pow2Adds(j - 1, k);
      assert Pow2(j) * Pow2(k) == 2 * (Pow2(j - 1) * Pow2(k));
    }
  }

  lemma Pow32()
    ensures Pow2(32) == 0x1_0000_0000
  {
    assert Pow2(4) == 16;
    assert Pow2(8) == 256;
    assert Pow2(12) == 4096;
    assert Pow2(16) == 0x1_0000;
    assert Pow2(20) == 0x10_0000;
    assert Pow2(24) == 0x100_0000;
    assert Pow2(28) == 0x1000_0000;
  }

  lemma WordIsPow2(w: Word) returns (k: nat)
    ensures k <= 8 * w && w == Pow2(k)
  {
    assert Pow2(1) == 2 && Pow2(2) == 4 && Pow2(3) == 8;
    k := if w == 4 then 2 else 3;
  }

  lemma AlignValue(w: Word, length: nat)
    requires length + w - 1 < Range(w)
    ensures Align(w, length) == length + w - 1 - (length + w - 1) % w
  {
    hide And, Pow2;
    var k := WordIsPow2(w);
    RangeIsPow2(w);
    var x := length + w - 1;
    ModIs(x, Range(w), 0, x);
    MaskClearsLowBits(x, k, 8 * w);
  }

  /** Short of overflow, the masks compute the least multiple of the alignment that is not less
      than the length. */
  lemma AlignIsLeastMultiple(w: Word, length: nat)
    requires length + w - 1 < Range(w)
    ensures Align(w, length) % w == 0 && length <= Align(w, length) < length + w
    ensures forall m: nat | m % w == 0 && length <= m :: Align(w, length) <= m
  {
    hide Align, Range;
    AlignValue(w, length);
    LeastMultiple(w, length, Align(w, length));
  }

  lemma LeastMultiple(w: Word, length: nat, r: nat)
    requires r == length + w - 1 - (length + w - 1) % w
    ensures r % w == 0 && length <= r < length + w
    ensures forall m: nat | m % w == 0 && length <= m :: r <= m
  {
    if w == 4 { LeastMultipleOf4(length, r); } else { LeastMultipleOf8(length, r); }
  }

  lemma LeastMultipleOf4(length: nat, r: nat)
    requires r == length + 3 - (length + 3) % 4
    ensures r % 4 == 0 && length <= r < length + 4
    ensures forall m: nat | m % 4 == 0 && length <= m :: r <= m
  {
  }

  lemma LeastMultipleOf8(length: nat, r: nat)
    requires r == length + 7 - (length + 7) % 8
    ensures r % 8 == 0 && length <= r < length + 8
    ensures forall m: nat | m % 8 == 0 && length <= m :: r <= m
  {
  }

  /** A header is a whole number of words, so rounding up commutes with adding it. */
  lemma AlignPastHeader(w: Word, length: nat)
    requires length + 32 < Range(w)
    ensures HeaderSize(w) % w == 0
    ensures Align(w, HeaderSize(w)) == HeaderSize(w)
    ensures Align(w, HeaderSize(w) + length) == HeaderSize(w) + Align(w, length)
  {
    hide Align, Range;
    AlignValue(w, length);
    AlignValue(w, HeaderSize(w));
    AlignValue(w, HeaderSize(w) + length);
    if w == 4 {
      assert (12 + length + 3) % 4 == (length + 3) % 4;
    } else {
      assert (16 + length + 7) % 8 == (length + 7) % 8;
    }
  }

  lemma AlignIsIdempotent(w: Word, length: nat)
    requires length + 32 < Range(w)
    ensures Align(w, Align(w, length)) == Align(w, length)
  {
    hide Align, Range;
    AlignValue(w, length);
    LeastMultiple(w, length, Align(w, length));
    AlignValue(w, Align(w, length));
    if w == 4 { assert (Align(w, length) + 3) % 4 == 3; } else { assert (Align(w, length) + 7) % 8 == 7; }
  }

  /** What the arena needs to know: the space reserved for a payload is the header plus the
      payload rounded up, it is a multiple of the alignment, and stepping from one header to
      the next by its length goes exactly that far. */
  lemma StepIsSpace(w: Word, length: nat)
    requires length + 64 < Range(w)
    ensures CmsgLen(w, length) == HeaderSize(w) + length
    ensures CmsgStep(w, CmsgLen(w, length)) == CmsgSpace(w, length)
    ensures CmsgSpace(w, length) == HeaderSize(w) + Align(w, length)
    ensures CmsgSpace(w, length) % w == 0 && CmsgLen(w, length) <= CmsgSpace(w, length) < CmsgLen(w, length) + w
  {
    hide Align, Range;
    AlignIsLeastMultiple(w, length);
    AlignPastHeader(w, length);
    AlignPastHeader(w, Align(w, length));
    AlignIsIdempotent(w, length);
    if w == 4 {
      assert (12 + Align(w, length)) % 4 == 0;
    } else {
      assert (16 + Align(w, length)) % 8 == 0;
    }
  }
}
