// The address blocks in plain numbers: what a range holds, what the guard
// allows, who is trusted and who is caught.
module AddressMeaning {
  import opened Common
  import opened IpAddress
  import opened IpGuard
  import opened IpMatcher

  // ---- Bits and arithmetic ----

  function Two(k: nat): (w: nat)
    ensures w > 0
  {
    if k == 0 then 1 else 2 * Two(k - 1)
  }

  lemma {:induction false} BitsMean(n: nat, k: nat)
    ensures n == High(n, k) * Two(k) + Low(n, k) && Low(n, k) < Two(k)
    ensures Clear(n, k) == High(n, k) * Two(k)
    decreases k
  {
    if k > 0 {
      BitsMean(n / 2, k - 1);
      assert n == 2 * (n / 2) + n % 2;
      assert High(n, k) * (2 * Two(k - 1)) == 2 * (High(n, k) * Two(k - 1));
    }
  }

  lemma Less(a: nat, b: nat, w: nat)
    requires a < b
    ensures a * w + w <= b * w
  {
    assert b * w == (a + 1) * w + (b - a - 1) * w;
    assert (a + 1) * w == a * w + w;
  }

  lemma RemainderOf(n: nat, h: nat, w: nat, l: nat)
    requires n == h * w + l && l < w
    ensures n % w == l
  {
    var q := n / w;
    assert n == w * q + n % w;
    assert w * q == q * w;
    if q < h { Less(q, h, w); }
    if q > h { Less(h, q, w); }
  }

  /** The remainder is the low bits. */
  lemma RemainderIs(n: nat, k: nat)
    ensures n % Two(k) == Low(n, k) && n - n % Two(k) == High(n, k) * Two(k)
  {
    BitsMean(n, k);
    RemainderOf(n, High(n, k), Two(k), Low(n, k));
  }

  /** Numbers share their high bits when one is in the aligned block of the other. */
  lemma SameBlock(a: nat, b: nat, k: nat)
    ensures High(a, k) == High(b, k) <==> b - b % Two(k) <= a < b - b % Two(k) + Two(k)
  {
    RemainderIs(b, k);
    BitsMean(a, k);
    if High(a, k) < High(b, k) { Less(High(a, k), High(b, k), Two(k)); }
    if High(a, k) > High(b, k) { Less(High(b, k), High(a, k), Two(k)); }
  }

  lemma Powers()
    ensures Two(24) == 0x100_0000 && Two(32) == 0x1_0000_0000
  {
    assert Two(8) == 256;
    assert Two(16) == 0x1_0000;
    assert Two(24) == 0x100_0000;
  }

  // ---- Addresses ----

  lemma FitsBits(n: nat, k: nat)
    ensures High(n, k) == 0 <==> n < Two(k)
  {
    BitsMean(n, k);
    hide High, Low, Two;
    if High(n, k) > 0 { Less(0, High(n, k), Two(k)); }
  }

  /** An address is 32 or 128 bits long. */
  lemma ValidMeans(a: Addr)
    ensures Valid(a) <==> (a.V4? && a.n < 0x1_0000_0000) || (a.V6? && a.n < Two(128))
  {
    Powers();
    if !a.NoAddr? { FitsBits(a.n, BitLen(a)); }
    hide High, Two;
  }

  /** ::ffff:0:0 and the 32-bit numbers after it are IPv4. */
  lemma UnmapMeans(a: Addr)
    ensures Is4In6(a) <==> a.V6? && 0xFFFF_0000_0000 <= a.n <= 0xFFFF_FFFF_FFFF
    ensures Unmap(a) == if a.V6? && 0xFFFF_0000_0000 <= a.n <= 0xFFFF_FFFF_FFFF then V4(a.n - 0xFFFF_0000_0000) else a
  {
    if a.V6? {
      Powers();
      BitsMean(a.n, 32);
      hide High, Low, Two;
    }
  }

  predicate LoopbackNumber(a: Addr) {
    || (a.V4? && 0x7F00_0000 <= a.n <= 0x7FFF_FFFF)
    || (a.V6? && (a.n == 1 || 0xFFFF_7F00_0000 <= a.n <= 0xFFFF_7FFF_FFFF))
  }

  lemma LoopbackBits(n: nat)
    ensures High(n, 24) == 127 <==> 0x7F00_0000 <= n <= 0x7FFF_FFFF
  {
    Powers();
    BitsMean(n, 24);
    hide High, Low, Two;
  }

  /** 127.0.0.0 to 127.255.255.255, plain or mapped, and ::1. */
  lemma LoopbackMeans(a: Addr)
    ensures IsLoopback(a) <==> LoopbackNumber(a)
  {
    hide High, Low;
    UnmapMeans(a);
    if a.V4? { LoopbackBits(a.n); }
    if a.V6? && Is4In6(a) { LoopbackBits(Unmap(a).n); }
  }

  /** How many addresses a range holds. */
  function Size(p: Prefix): nat
    requires p.bits <= if p.addr.V4? then 32 else 128
  {
    Two((if p.addr.V4? then 32 else 128) - p.bits)
  }

  /** The address lies in the aligned block of the range, in the same family and without a zone. */
  predicate InBlock(p: Prefix, a: Addr)
    requires !p.addr.NoAddr? && p.bits <= if p.addr.V4? then 32 else 128
  {
    && (p.addr.V4? ==> a.V4?) && (p.addr.V6? ==> a.V6? && a.zone == "")
    && p.addr.n - p.addr.n % Size(p) <= a.n < p.addr.n - p.addr.n % Size(p) + Size(p)
  }

  lemma {:induction false} ContainsMeans(p: Prefix, a: Addr)
    requires ValidPrefix(p)
    ensures Contains(p, a) <==> InBlock(p, a)
  {
    if !a.NoAddr? {
      SameBlock(a.n, p.addr.n, BitLen(p.addr) - p.bits);
      hide High, Low, Two;
    }
  }

  /** The canonical form starts at the first address of the block. */
  lemma MaskedMeans(p: Prefix)
    requires ValidPrefix(p)
    ensures Masked(p).bits == p.bits && Masked(p).addr.V4? == p.addr.V4? && Masked(p).addr.V6? == p.addr.V6?
    ensures Masked(p).addr.n == p.addr.n - p.addr.n % Size(p)
    ensures Masked(p) == p <==> p.addr.n % Size(p) == 0
  {
    RemainderIs(p.addr.n, BitLen(p.addr) - p.bits);
    BitsMean(p.addr.n, BitLen(p.addr) - p.bits);
    hide High, Low, Two, Clear;
  }

  // ---- The guard ----

  /** A single address is the range of that address without its zone; a mapped one is IPv4; a mapped range must fix
      all 96 bits of the mapping. */
  lemma {:induction false} ParseMeans(input: Input)
    requires Parsed(input)
    ensures input.Unreadable? ==> ParsePrefix(input).None?
    ensures input.Single? && input.addr.V4? ==> ParsePrefix(input) == Some(Prefix(input.addr, 32))
    ensures input.Single? && input.addr.V6? ==>
              var n := input.addr.n;
              ParsePrefix(input) == Some(if 0xFFFF_0000_0000 <= n <= 0xFFFF_FFFF_FFFF
                                         then Prefix(V4(n - 0xFFFF_0000_0000), 32) else Prefix(V6(n, ""), 128))
    ensures input.Range? ==>
              var a, bits := input.prefix.addr, input.prefix.bits;
              ParsePrefix(input) == if !(a.V6? && 0xFFFF_0000_0000 <= a.n <= 0xFFFF_FFFF_FFFF)
                then Some(Prefix(a, bits))
                                    else if bits < 96 then None else Some(Prefix(V4(a.n - 0xFFFF_0000_0000), bits - 96))
  {
    if input.Single? { UnmapMeans(input.addr); }
    if input.Range? { UnmapMeans(input.prefix.addr); }
    hide Is4In6, Unmap, High, Low;
  }

  /** Of the addresses a range without mapping can hold, the loopback ones. */
  predicate PlainLoopback(a: Addr) {
    (a.V4? && 0x7F00_0000 <= a.n <= 0x7FFF_FFFF) || (a.V6? && a.n == 1)
  }

  /** What the guard refuses, in the order it looks: text that is no range, a range that does not start its block, one
      wider than /16 (IPv6: /48), one that holds a loopback address, one that holds a trusted address. */
  lemma {:induction false} CheckMeans(trusted: seq<Prefix>, input: Input)
    requires AllValid(trusted) && Parsed(input)
    ensures var v := Check(trusted, input);
            match ParsePrefix(input)
            case None => v == Refused(NotAnAddress)
            case Some(p) =>
              && ValidPrefix(p)
              && if p.addr.n % Size(p) != 0 then v == Refused(HostBits(Masked(p)))
                 else if p.bits < (if p.addr.V4? then 16 else 48) then
                   v == Refused(TooWide(if p.addr.V4? then 16 else 48))
                 else if exists a :: Valid(a) && InBlock(p, a) && PlainLoopback(a) then
                   v == Refused(Loopback)
                 else if exists a, i :: Valid(a) && InBlock(p, a) && 0 <= i < |trusted| && Contains(trusted[i], a) then
                   v.Refused? && v.why.TrustedRange?
                 else v == Allowed(p)
  {
    if ParsePrefix(input).Some? {
      ParseValid(input);
      var p := ParsePrefix(input).value;
      MaskedMeans(p);
      LoopbackRanges();
      LoopbackMembers(p);
      TrustedMembers(trusted, p);
      forall a
        ensures (Contains(p, a) <==> InBlock(p, a)) && (IsLoopback(a) && !Is4In6(a) <==> PlainLoopback(a))
      {
        ContainsMeans(p, a);
        LoopbackMeans(a);
        UnmapMeans(a);
      }
      hide Masked, Overlaps, Contains, IsLoopback, PlainLoopback, InBlock, Is4In6, ParsePrefix, Size, Valid,
        ValidPrefix;
      hide LOOPBACK_V4, LOOPBACK_V6, FirstOverlap;
    }
  }

  // ---- The match ----

  /** A client is trusted when it and its socket peer are both loopback, or some trusted range holds it. */
  lemma TrustsMeans(trusted: seq<Prefix>, ip: Addr, peer: Addr)
    requires AllValid(trusted)
    ensures Trusts(trusted, ip, peer) <==>
            || (LoopbackNumber(ip) && LoopbackNumber(peer))
            || exists i :: 0 <= i < |trusted| && InBlock(trusted[i], Unmap(ip))
  {
    UnmapMeans(ip);
    UnmapMeans(peer);
    LoopbackMeans(Unmap(ip));
    LoopbackMeans(Unmap(peer));
    forall i | 0 <= i < |trusted|
      ensures Contains(trusted[i], Unmap(ip)) <==> InBlock(trusted[i], Unmap(ip))
    {
      ContainsMeans(trusted[i], Unmap(ip));
    }
    hide IsLoopback, Unmap, Is4In6, Contains, InBlock;
  }

  /** With only allowed ranges in the list, a client is refused exactly when some range holds its address whose block
      has no end or ends later; trusted or not. */
  lemma {:induction false} RefusedExactly(trusted: seq<Prefix>, blocks: seq<Block>, ip: Addr, peer: Addr, now: Time)
    requires AllValid(trusted) && BlocksValid(blocks) && OnlyAllowed(trusted, blocks) && Valid(ip)
    ensures !Trusts(trusted, ip, peer) && Caught(blocks, ip, now) <==>
            exists i :: 0 <= i < |blocks| && (blocks[i].expires.Some? ==> now < blocks[i].expires.value)
                        && InBlock(blocks[i].prefix, Unmap(ip))
  {
    BlockedIsMembership(trusted, blocks, ip, peer, now);
    forall i | 0 <= i < |blocks|
      ensures Contains(blocks[i].prefix, Unmap(ip)) <==> InBlock(blocks[i].prefix, Unmap(ip))
    {
      ContainsMeans(blocks[i].prefix, Unmap(ip));
    }
    hide Unmap, Contains, InBlock, Trusts;
  }
}
