// What an admin may block, and what the block list does to a request.
module IpGuard {
  import opened Common
  import opened IpAddress

  const MIN_BITS_V4: nat := 16
  const MIN_BITS_V6: nat := 48

  // ---- What an admin types ----

  /** The typed text as the address parser reads it. */
  datatype Input = Unreadable | Single(addr: Addr) | Range(prefix: Prefix)

  /** The parser only yields valid addresses and ranges. */
  predicate Parsed(input: Input) {
    match input
    case Unreadable => true
    case Single(a) => Valid(a)
    case Range(p) => ValidPrefix(p)
  }

  lemma UnmapValid(a: Addr)
    requires Valid(a)
    ensures Valid(Unmap(a))
  {
    if Is4In6(a) {
      HighOfLow(a.n, BITS_V4);
    }
  }

  /** The range meant, with IPv4-mapped ranges as plain IPv4. */
  function ParsePrefix(input: Input): (p: Option<Prefix>)
    requires Parsed(input)
  {
    match input
    case Unreadable => None
    case Single(a) =>
      var u := Unmap(a);
      Some(Prefix(if u.V6? then u.(zone := "") else u, BitLen(u)))
    case Range(p) =>
      if !Is4In6(p.addr) then Some(p)
      else if p.bits < 96 then None
      else Some(Prefix(Unmap(p.addr), p.bits - 96))
  }

  lemma ParseValid(input: Input)
    requires Parsed(input) && ParsePrefix(input).Some?
    ensures ValidPrefix(ParsePrefix(input).value)
  {
    match input
    case Single(a) => UnmapValid(a);
    case Range(p) => if Is4In6(p.addr) { UnmapValid(p.addr); }
    case _ =>
  }

  /** Translating an IPv4-mapped range keeps its members: a mapped address is in the range as typed exactly when
      its IPv4 form is in the range that is blocked. */
  lemma {:induction false} MappedMembers(p: Prefix, a: Addr)
    requires ValidPrefix(p) && Is4In6(p.addr) && p.bits >= 96 && Is4In6(a) && a.zone == ""
    ensures ValidPrefix(Prefix(Unmap(p.addr), p.bits - 96))
    ensures Contains(p, a) <==> Contains(Prefix(Unmap(p.addr), p.bits - 96), Unmap(a))
  {
    hide High, Low;
    UnmapValid(p.addr);
    var k := BITS_V6 - p.bits;
    SuffixBits(a.n, p.addr.n, k);
  }

  /** Mapped addresses agree above their last k bits when their IPv4 parts do. */
  lemma SuffixBits(x: nat, y: nat, k: nat)
    requires k <= BITS_V4 && High(x, BITS_V4) == 0xFFFF && High(y, BITS_V4) == 0xFFFF
    ensures High(x, k) == High(y, k) <==> High(Low(x, BITS_V4), k) == High(Low(y, BITS_V4), k)
  {
    MiddleBits(x, k, BITS_V4);
    MiddleBits(y, k, BITS_V4);
    HighHigh(x, k, BITS_V4 - k);
    HighHigh(y, k, BITS_V4 - k);
    if Low(High(x, k), BITS_V4 - k) == Low(High(y, k), BITS_V4 - k) {
      BitsDetermine(High(x, k), High(y, k), BITS_V4 - k);
    }
  }

  // ---- The guard ----

  datatype Refusal = NotAnAddress | HostBits(canonical: Prefix) | TooWide(widest: nat) | Loopback
    | TrustedRange(range: Prefix)

  datatype Verdict = Allowed(prefix: Prefix) | Refused(why: Refusal)

  const LOOPBACK_V4: Prefix := Prefix(V4(Shift(127, 24)), 8)
  const LOOPBACK_V6: Prefix := Prefix(V6(1, ""), 128)

  lemma LoopbackRanges()
    ensures ValidPrefix(LOOPBACK_V4) && ValidPrefix(LOOPBACK_V6)
    ensures forall a :: Contains(LOOPBACK_V4, a) <==> a.V4? && IsLoopback(a)
    ensures forall a :: Contains(LOOPBACK_V6, a) <==> a == V6(1, "")
  {
    HighShift(127, 24);
    HighHigh(Shift(127, 24), 24, 8);
    SmallHigh(127, 8);
    SmallHigh(1, 128);
  }

  lemma SmallHigh(n: nat, k: nat)
    requires n < 128 && k >= 8
    ensures High(n, k) == 0
  {
    HighHigh(n, 7, k - 7);
    HighOfZero(k - 7);
    assert High(n, 7) == High(n / 2 / 2 / 2 / 2 / 2 / 2 / 2, 0);
  }

  predicate AllValid(ps: seq<Prefix>) {
    forall i :: 0 <= i < |ps| ==> ValidPrefix(ps[i])
  }

  /** The first trusted range that overlaps p. */
  function FirstOverlap(trusted: seq<Prefix>, p: Prefix): (r: Option<Prefix>)
    requires AllValid(trusted) && ValidPrefix(p)
    ensures r.None? <==> forall i :: 0 <= i < |trusted| ==> !Overlaps(trusted[i], p)
  {
    if trusted == [] then None
    else if Overlaps(trusted[0], p) then Some(trusted[0])
    else FirstOverlap(trusted[1..], p)
  }

  function MinBits(p: Prefix): nat {
    if p.addr.V4? then MIN_BITS_V4 else MIN_BITS_V6
  }

  function Check(trusted: seq<Prefix>, input: Input): Verdict
    requires AllValid(trusted) && Parsed(input)
  {
    var parsed := ParsePrefix(input);
    if parsed.None? then Refused(NotAnAddress)
    else
      var p := parsed.value;
      ParseValid(input);
      LoopbackRanges();
      if Masked(p) != p then Refused(HostBits(Masked(p)))
      else if p.bits < MinBits(p) then Refused(TooWide(MinBits(p)))
      else if Overlaps(LOOPBACK_V4, p) || Overlaps(LOOPBACK_V6, p) then Refused(Loopback)
      else
        var t := FirstOverlap(trusted, p);
        if t.Some? then Refused(TrustedRange(t.value)) else Allowed(p)
  }

  predicate InTrustedList(trusted: seq<Prefix>, a: Addr)
    requires AllValid(trusted)
  {
    exists i :: 0 <= i < |trusted| && Contains(trusted[i], a)
  }

  /** No loopback and no trusted address is in the range. */
  ghost predicate Harmless(trusted: seq<Prefix>, p: Prefix)
    requires AllValid(trusted) && ValidPrefix(p)
  {
    forall a :: Valid(a) && Contains(p, a) ==> !(IsLoopback(a) && !Is4In6(a)) && !InTrustedList(trusted, a)
  }

  /** A range is allowed exactly when it is readable, canonical, narrow enough and holds no loopback and no trusted
      address. */
  lemma {:induction false} CheckExact(trusted: seq<Prefix>, input: Input)
    requires AllValid(trusted) && Parsed(input)
    ensures ParsePrefix(input).Some? ==> ValidPrefix(ParsePrefix(input).value)
    ensures Check(trusted, input).Allowed? <==>
              ParsePrefix(input).Some? && var p := ParsePrefix(input).value;
                Masked(p) == p && p.bits >= MinBits(p) && Harmless(trusted, p)
    ensures Check(trusted, input).Allowed? ==> Check(trusted, input) == Allowed(ParsePrefix(input).value)
  {
    if ParsePrefix(input).Some? {
      ParseValid(input);
      var p := ParsePrefix(input).value;
      LoopbackRanges();
      OverlapsShared(LOOPBACK_V4, p);
      OverlapsShared(LOOPBACK_V6, p);
      LoopbackMembers(p);
      TrustedMembers(trusted, p);
      hide Masked, Overlaps, Contains, IsLoopback, Is4In6, LOOPBACK_V4, LOOPBACK_V6, ParsePrefix;
    }
  }

  lemma LoopbackMembers(p: Prefix)
    requires ValidPrefix(p)
    ensures ValidPrefix(LOOPBACK_V4) && ValidPrefix(LOOPBACK_V6)
    ensures (Overlaps(LOOPBACK_V4, p) || Overlaps(LOOPBACK_V6, p)) <==>
              exists a :: Valid(a) && Contains(p, a) && IsLoopback(a) && !Is4In6(a)
  {
    LoopbackRanges();
    OverlapsShared(LOOPBACK_V4, p);
    OverlapsShared(LOOPBACK_V6, p);
    assert Valid(V6(1, "")) && !Is4In6(V6(1, "")) by { SmallHigh(1, 32); SmallHigh(1, 128); }
    hide Overlaps, LOOPBACK_V4, LOOPBACK_V6;
    if Overlaps(LOOPBACK_V4, p) {
      var a :| Valid(a) && Contains(LOOPBACK_V4, a) && Contains(p, a);
      assert IsLoopback(a) && !Is4In6(a);
    }
    if Overlaps(LOOPBACK_V6, p) {
      var a :| Valid(a) && Contains(LOOPBACK_V6, a) && Contains(p, a);
      assert IsLoopback(a) && !Is4In6(a);
    }
    forall a | Valid(a) && Contains(p, a) && IsLoopback(a) && !Is4In6(a)
      ensures Contains(LOOPBACK_V4, a) || Contains(LOOPBACK_V6, a)
    {
    }
  }

  lemma TrustedMembers(trusted: seq<Prefix>, p: Prefix)
    requires AllValid(trusted) && ValidPrefix(p)
    ensures FirstOverlap(trusted, p).Some? <==> exists a :: Valid(a) && Contains(p, a) && InTrustedList(trusted, a)
  {
    hide Overlaps, Contains;
    forall i | 0 <= i < |trusted|
      ensures Overlaps(trusted[i], p) <==> exists a :: Valid(a) && Contains(trusted[i], a) && Contains(p, a)
    {
      OverlapsShared(trusted[i], p);
    }
    if FirstOverlap(trusted, p).Some? {
      var i :| 0 <= i < |trusted| && Overlaps(trusted[i], p);
      var a :| Valid(a) && Contains(trusted[i], a) && Contains(p, a);
      assert InTrustedList(trusted, a);
    }
    forall a | Valid(a) && Contains(p, a) && InTrustedList(trusted, a)
      ensures FirstOverlap(trusted, p).Some?
    {
      var i :| 0 <= i < |trusted| && Contains(trusted[i], a);
      assert Overlaps(trusted[i], p);
    }
  }
}
