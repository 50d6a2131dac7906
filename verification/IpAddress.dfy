// Addresses and prefixes as bit strings read as numbers.
module IpAddress {
  import opened Common

  // ---- Bits of a number ----

  /** n without its last k bits. */
  function High(n: nat, k: nat): nat
    decreases k
  {
    if k == 0 then n else High(n / 2, k - 1)
  }

  /** The last k bits of n. */
  function Low(n: nat, k: nat): nat
    decreases k
  {
    if k == 0 then 0 else 2 * Low(n / 2, k - 1) + n % 2
  }

  /** n with its last k bits cleared. */
  function Clear(n: nat, k: nat): nat
    decreases k
  {
    if k == 0 then n else 2 * Clear(n / 2, k - 1)
  }

  /** n followed by k zero bits. */
  function Shift(n: nat, k: nat): nat
    decreases k
  {
    if k == 0 then n else 2 * Shift(n, k - 1)
  }

  lemma {:induction false} HighHigh(n: nat, i: nat, j: nat)
    ensures High(High(n, i), j) == High(n, i + j)
    decreases i
  {
    if i > 0 {
      HighHigh(n / 2, i - 1, j);
    }
  }

  lemma {:induction false} HighShift(n: nat, k: nat)
    ensures High(Shift(n, k), k) == n
  {
    if k > 0 {
      HighShift(n, k - 1);
    }
  }

  lemma {:induction false} HighClear(n: nat, k: nat)
    ensures High(Clear(n, k), k) == High(n, k)
    decreases k
  {
    if k > 0 {
      HighClear(n / 2, k - 1);
    }
  }

  /** The middle bits of n, cut from either side. */
  lemma {:induction false} MiddleBits(n: nat, k: nat, m: nat)
    requires k <= m
    ensures High(Low(n, m), k) == Low(High(n, k), m - k)
    decreases k
  {
    if k > 0 {
      MiddleBits(n / 2, k - 1, m - 1);
    }
  }

  /** A number is its high bits and its low bits. */
  lemma {:induction false} BitsDetermine(a: nat, b: nat, k: nat)
    requires High(a, k) == High(b, k) && Low(a, k) == Low(b, k)
    ensures a == b
    decreases k
  {
    if k > 0 {
      BitsDetermine(a / 2, b / 2, k - 1);
    }
  }

  lemma {:induction false} HighOfLow(n: nat, k: nat)
    ensures High(Low(n, k), k) == 0
    decreases k
  {
    if k > 0 {
      HighOfLow(n / 2, k - 1);
    }
  }

  lemma {:induction false} HighOfZero(k: nat)
    ensures High(0, k) == 0
  {
    if k > 0 {
      HighOfZero(k - 1);
    }
  }

  // ---- Addresses ----

  /** An address; NoAddr is no valid one, and only IPv6 addresses have a zone. */
  datatype Addr = NoAddr | V4(n: nat) | V6(n: nat, zone: string)

  const BITS_V4: nat := 32
  const BITS_V6: nat := 128

  function BitLen(a: Addr): nat {
    if a.V4? then BITS_V4 else if a.V6? then BITS_V6 else 0
  }

  predicate Valid(a: Addr) {
    !a.NoAddr? && High(a.n, BitLen(a)) == 0
  }

  predicate Is4In6(a: Addr) {
    a.V6? && High(a.n, BITS_V4) == 0xFFFF
  }

  /** An IPv4-mapped address as plain IPv4. */
  function Unmap(a: Addr): Addr {
    if Is4In6(a) then V4(Low(a.n, BITS_V4)) else a
  }

  predicate IsLoopback(a: Addr) {
    match a
    case NoAddr => false
    case V4(n) => High(n, 24) == 127
    case V6(n, _) => n == 1 || (Is4In6(a) && High(Low(n, BITS_V4), 24) == 127)
  }

  // ---- Prefixes ----

  /** A range: the first bits of an address without a zone. */
  datatype Prefix = Prefix(addr: Addr, bits: nat)

  predicate ValidPrefix(p: Prefix) {
    Valid(p.addr) && p.bits <= BitLen(p.addr) && (p.addr.V6? ==> p.addr.zone == "")
  }

  predicate SameFamily(a: Addr, b: Addr) {
    (a.V4? && b.V4?) || (a.V6? && b.V6?)
  }

  function Masked(p: Prefix): Prefix
    requires ValidPrefix(p)
  {
    var n := Clear(p.addr.n, BitLen(p.addr) - p.bits);
    p.(addr := if p.addr.V4? then V4(n) else V6(n, ""))
  }

  /** An address with a zone is in no range, and neither family's addresses are in the other's. */
  predicate Contains(p: Prefix, a: Addr)
    requires ValidPrefix(p)
  {
    && SameFamily(p.addr, a) && (a.V6? ==> a.zone == "")
    && High(a.n, BitLen(p.addr) - p.bits) == High(p.addr.n, BitLen(p.addr) - p.bits)
  }

  predicate Overlaps(p: Prefix, q: Prefix)
    requires ValidPrefix(p) && ValidPrefix(q)
  {
    && SameFamily(p.addr, q.addr)
    && var k := BitLen(p.addr) - (if p.bits < q.bits then p.bits else q.bits);
       High(p.addr.n, k) == High(q.addr.n, k)
  }

  /** Ranges overlap exactly when some address is in both. */
  lemma {:induction false} OverlapsShared(p: Prefix, q: Prefix)
    requires ValidPrefix(p) && ValidPrefix(q)
    ensures Overlaps(p, q) <==> exists a :: Valid(a) && Contains(p, a) && Contains(q, a)
  {
    if Overlaps(p, q) {
      var a := if p.bits < q.bits then q.addr else p.addr;
      assert Contains(p, a) && Contains(q, a);
    }
    forall a | Contains(p, a) && Contains(q, a)
      ensures Overlaps(p, q)
    {
      SharedOverlap(p, q, a);
    }
  }

  lemma SharedOverlap(p: Prefix, q: Prefix, a: Addr)
    requires ValidPrefix(p) && ValidPrefix(q) && Contains(p, a) && Contains(q, a)
    ensures Overlaps(p, q)
  {
    var len := BitLen(p.addr);
    var k := len - (if p.bits < q.bits then p.bits else q.bits);
    HighHigh(a.n, len - p.bits, k - (len - p.bits));
    HighHigh(p.addr.n, len - p.bits, k - (len - p.bits));
    HighHigh(a.n, len - q.bits, k - (len - q.bits));
    HighHigh(q.addr.n, len - q.bits, k - (len - q.bits));
  }

  /** Clearing host bits keeps the range. */
  lemma MaskedSame(p: Prefix, a: Addr)
    requires ValidPrefix(p)
    ensures ValidPrefix(Masked(p)) && (Contains(Masked(p), a) <==> Contains(p, a))
  {
    var len := BitLen(p.addr);
    HighClear(p.addr.n, len - p.bits);
    HighHigh(Clear(p.addr.n, len - p.bits), len - p.bits, p.bits);
    HighHigh(p.addr.n, len - p.bits, p.bits);
  }
}
