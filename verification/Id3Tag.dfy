// Reading ID3v2 tags: a walk over the frames of a buffer, with the two ways a
// frame's size is written.
module Id3Tag {
  import opened Common

  newtype byte = n: int | 0 <= n < 256

  // ---- Sizes ----

  function Pow2(k: nat): (r: nat)
    ensures r > 0
  {
    if k == 0 then 1 else 2 * Pow2(k - 1)
  }

  /** Bitwise or of two non-negative integers. */
  function BitOr(a: nat, b: nat): nat
    decreases a + b
  {
    if a == 0 && b == 0 then 0
    else 2 * BitOr(a / 2, b / 2) + (if a % 2 == 1 || b % 2 == 1 then 1 else 0)
  }

  function Shifted(b: byte, k: nat): nat {
    b as nat * Pow2(k)
  }

  /** Four bytes, each shifted by bits more than the next, combined by bitwise or. */
  function SizeOf(bytes: seq<byte>, bits: nat): nat
    requires |bytes| == 4
  {
    BitOr(BitOr(BitOr(Shifted(bytes[0], 3 * bits), Shifted(bytes[1], 2 * bits)), Shifted(bytes[2], bits)),
      bytes[3] as nat)
  }

  const SYNCHSAFE: nat := 7
  const BIG_ENDIAN: nat := 8

  /** Version 2.4 writes sizes in seven-bit digits, every other version in bytes. */
  function DigitBits(version: byte): nat {
    if version == 4 then SYNCHSAFE else BIG_ENDIAN
  }

  /** Or of two numbers with no bit in common is their sum. */
  lemma {:induction false} OrDisjoint(a: nat, b: nat, k: nat)
    requires b < Pow2(k)
    ensures BitOr(a * Pow2(k), b) == a * Pow2(k) + b
    decreases k, a
  {
    if k == 0 {
      OrZero(a);
      assert a * Pow2(0) == a;
    } else {
      assert a * Pow2(k) == 2 * (a * Pow2(k - 1));
      assert (a * Pow2(k)) / 2 == a * Pow2(k - 1);
      OrDisjoint(a, b / 2, k - 1);
    }
  }

  lemma {:induction false} OrZero(a: nat)
    ensures BitOr(a, 0) == a
  {
    if a > 0 {
      OrZero(a / 2);
    }
  }

  /** The digits of n, most significant first. */
  function SizeBytes(n: nat, bits: nat): (r: seq<byte>)
    ensures |r| == 4
  {
    var base := if bits == SYNCHSAFE then 128 else 256;
    [Digit(n / base / base / base, base), Digit(n / base / base, base), Digit(n / base, base), Digit(n, base)]
  }

  function Digit(n: nat, base: nat): byte
    requires 0 < base <= 256
  {
    (n % base) as byte
  }

  lemma Powers()
    ensures Pow2(7) == 128 && Pow2(14) == 128 * 128 && Pow2(21) == 128 * 128 * 128 && Pow2(28) == 128 * 128 * 128 * 128
    ensures Pow2(8) == 256 && Pow2(16) == 256 * 256 && Pow2(24) == 256 * 256 * 256 && Pow2(32) == 256 * 256 * 256 * 256
    ensures Pow2(20) == 0x10_0000
  {
    assert Pow2(4) == 16;
    assert Pow2(8) == 256;
    assert Pow2(12) == 0x1000;
    assert Pow2(16) == 0x1_0000;
    assert Pow2(20) == 0x10_0000;
    assert Pow2(24) == 0x100_0000;
    assert Pow2(28) == 0x1000_0000;
    assert Pow2(32) == 0x1_0000_0000;
  }

  /** Seven-bit digits are or-ed into their sum. */
  lemma SynchsafeIsSum(b: seq<byte>)
    requires |b| == 4 && b[1] < 128 && b[2] < 128 && b[3] < 128
    ensures SizeOf(b, SYNCHSAFE) == ((b[0] as nat * 128 + b[1] as nat) * 128 + b[2] as nat) * 128 + b[3] as nat
  {
    hide Pow2, BitOr;
    Powers();
    var d0, d1, d2, d3 := b[0] as nat, b[1] as nat, b[2] as nat, b[3] as nat;
    OrDisjoint(d0, d1 * 128 * 128, 21);
    OrDisjoint(d0 * 128 + d1, d2 * 128, 14);
    OrDisjoint((d0 * 128 + d1) * 128 + d2, d3, 7);
  }

  /** Whole bytes are or-ed into their sum. */
  lemma BigEndianIsSum(b: seq<byte>)
    requires |b| == 4
    ensures SizeOf(b, BIG_ENDIAN) == ((b[0] as nat * 256 + b[1] as nat) * 256 + b[2] as nat) * 256 + b[3] as nat
  {
    hide Pow2, BitOr;
    Powers();
    var d0, d1, d2, d3 := b[0] as nat, b[1] as nat, b[2] as nat, b[3] as nat;
    OrDisjoint(d0, d1 * 256 * 256, 24);
    OrDisjoint(d0 * 256 + d1, d2 * 256, 16);
    OrDisjoint((d0 * 256 + d1) * 256 + d2, d3, 8);
  }

  /** A size written in digits is read back. */
  lemma {:induction false} SizeRoundTrip(n: nat, bits: nat)
    requires (bits == SYNCHSAFE && n < Pow2(28)) || (bits == BIG_ENDIAN && n < Pow2(32))
    ensures SizeOf(SizeBytes(n, bits), bits) == n
  {
    hide Pow2, BitOr, SizeOf;
    Powers();
    var b := SizeBytes(n, bits);
    if bits == SYNCHSAFE { SynchsafeIsSum(b); } else { BigEndianIsSum(b); }
    var base := if bits == SYNCHSAFE then 128 else 256;
    DigitsSum(n, base);
  }

  lemma DigitsSum(n: nat, base: nat)
    requires base == 128 || base == 256
    requires n < base * base * base * base
    ensures (((n / base / base / base) % base * base + (n / base / base) % base) * base + (n / base) % base) * base
            + n % base == n
  {
    assert n / base / base / base < base;
  }
}
