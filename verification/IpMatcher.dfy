// The block list in force, and why trusting an address never changes what it
// answers while only allowed ranges are in it.
module IpMatcher {
  import opened Common
  import opened IpAddress
  import opened IpGuard

  /** Seconds. */
  type Time = int

  const WARN_EVERY: int := 60

  datatype BlockId = BlockId(n: int)

  /** expires is None for a block that never ends. */
  datatype Block = Block(id: BlockId, prefix: Prefix, expires: Option<Time>)

  /** A row of the block table, its range as the parser reads it. */
  datatype BlockRow = BlockRow(id: BlockId, cidr: Option<Prefix>, expires: Option<Time>)

  predicate BlocksValid(blocks: seq<Block>) {
    forall i :: 0 <= i < |blocks| ==> ValidPrefix(blocks[i].prefix)
  }

  function Loaded(rows: seq<BlockRow>): seq<Block> {
    if rows == [] then []
    else
      var r := rows[|rows| - 1];
      Loaded(rows[..|rows| - 1]) + (if r.cidr.Some? then [Block(r.id, r.cidr.value, r.expires)] else [])
  }

  /** Loopback counts only when the socket peer is loopback too. */
  predicate Trusts(trusted: seq<Prefix>, ip: Addr, peer: Addr)
    requires AllValid(trusted)
  {
    (IsLoopback(Unmap(ip)) && IsLoopback(Unmap(peer))) || InTrustedList(trusted, Unmap(ip))
  }

  predicate InForce(b: Block, now: Time) {
    b.expires.None? || now < b.expires.value
  }

  /** Some block in force contains the address. */
  predicate Caught(blocks: seq<Block>, ip: Addr, now: Time)
    requires BlocksValid(blocks)
  {
    exists i :: 0 <= i < |blocks| && InForce(blocks[i], now) && Contains(blocks[i].prefix, Unmap(ip))
  }

  /** Block i catches the address and none before it does. */
  predicate FirstCatch(blocks: seq<Block>, i: nat, ip: Addr, now: Time)
    requires BlocksValid(blocks) && i < |blocks|
  {
    && InForce(blocks[i], now) && Contains(blocks[i].prefix, Unmap(ip))
    && forall k :: 0 <= k < i ==> !(InForce(blocks[k], now) && Contains(blocks[k].prefix, Unmap(ip)))
  }

  class Matcher {
    const trusted: seq<Prefix>
    var blocks: seq<Block>
    var lastWarn: map<BlockId, Time>

    ghost predicate Valid()
      reads this
    {
      AllValid(trusted) && BlocksValid(blocks)
    }

    constructor (trusted: seq<Prefix>)
      requires AllValid(trusted)
      ensures Valid() && this.trusted == trusted && blocks == [] && lastWarn == map[]
    {
      this.trusted, blocks, lastWarn := trusted, [], map[];
    }

    /** None is a failed query: the previous blocks stay in force. */
    method Reload(rows: Option<seq<BlockRow>>)
      requires Valid()
      requires rows.Some? ==> forall i :: 0 <= i < |rows.value| && rows.value[i].cidr.Some? ==>
               ValidPrefix(rows.value[i].cidr.value)
      modifies this`blocks
      ensures Valid()
      ensures blocks == if rows.Some? then Loaded(rows.value) else old(blocks)
    {
      if rows.None? {
        return;
      }
      var next: seq<Block> := [];
      for i := 0 to |rows.value|
        invariant next == Loaded(rows.value[..i]) && BlocksValid(next)
      {
        assert rows.value[..i + 1][..i] == rows.value[..i];
        var r := rows.value[i];
        if r.cidr.None? {
          continue;
        }
        next := next + [Block(r.id, r.cidr.value, r.expires)];
      }
      assert rows.value[..|rows.value|] == rows.value;
      blocks := next;
    }

    method InTrusted(ip: Addr) returns (found: bool)
      requires Valid()
      ensures found <==> InTrustedList(trusted, ip)
    {
      for i := 0 to |trusted|
        invariant forall k :: 0 <= k < i ==> !Contains(trusted[k], ip)
      {
        if Contains(trusted[i], ip) {
          return true;
        }
      }
      return false;
    }

    method Trusted(ip: Addr, peer: Addr) returns (r: bool)
      requires Valid()
      ensures r <==> Trusts(trusted, ip, peer)
    {
      var ip', peer' := Unmap(ip), Unmap(peer);
      if IsLoopback(ip') && IsLoopback(peer') {
        return true;
      }
      r := InTrusted(ip');
    }

    /** The first block in force that contains the address; none for a trusted one. */
    method Match(ip: Addr, peer: Addr, now: Time) returns (b: Option<Block>)
      requires Valid()
      ensures b.Some? <==> !ip.NoAddr? && !Trusts(trusted, ip, peer) && Caught(blocks, ip, now)
      ensures b.Some? ==>
                (exists i :: 0 <= i < |blocks| && blocks[i] == b.value && FirstCatch(blocks, i, ip, now))
    {
      if ip.NoAddr? {
        return None;
      }
      var trustedClient := Trusted(ip, peer);
      if trustedClient {
        return None;
      }
      var ip' := Unmap(ip);
      for i := 0 to |blocks|
        invariant forall k :: 0 <= k < i ==> !(InForce(blocks[k], now) && Contains(blocks[k].prefix, ip'))
      {
        if blocks[i].expires.Some? && !(now < blocks[i].expires.value) {
          continue;
        }
        if Contains(blocks[i].prefix, ip') {
          assert FirstCatch(blocks, i, ip, now);
          return Some(blocks[i]);
        }
      }
      return None;
    }

    /** One log line per block a minute. */
    method ShouldWarn(id: BlockId, now: Time) returns (warn: bool)
      modifies this`lastWarn
      ensures warn <==> !(id in old(lastWarn) && now - old(lastWarn)[id] < 60)
      ensures lastWarn == if warn then old(lastWarn)[id := now] else old(lastWarn)
    {
      if id in lastWarn && now - lastWarn[id] < WARN_EVERY {
        return false;
      }
      lastWarn := lastWarn[id := now];
      return true;
    }
  }

  /** Every block was allowed by the guard. */
  ghost predicate OnlyAllowed(trusted: seq<Prefix>, blocks: seq<Block>)
    requires AllValid(trusted)
  {
    forall i :: 0 <= i < |blocks| ==>
      exists input :: Parsed(input) && Check(trusted, input) == Allowed(blocks[i].prefix)
  }

  lemma UnmapPlain(a: Addr)
    requires Valid(a)
    ensures !Is4In6(Unmap(a)) && Valid(Unmap(a))
  {
    UnmapValid(a);
  }

  /** With only allowed ranges in the list, a trusted address is in none of them. */
  lemma {:induction false} TrustNeverDecides(trusted: seq<Prefix>, blocks: seq<Block>, ip: Addr, peer: Addr, now: Time)
    requires AllValid(trusted) && BlocksValid(blocks) && OnlyAllowed(trusted, blocks) && Valid(ip)
    requires Trusts(trusted, ip, peer)
    ensures !Caught(blocks, ip, now)
  {
    var a := Unmap(ip);
    UnmapPlain(ip);
    forall i | 0 <= i < |blocks|
      ensures !Contains(blocks[i].prefix, a)
    {
      var input :| Parsed(input) && Check(trusted, input) == Allowed(blocks[i].prefix);
      CheckExact(trusted, input);
      hide Check, Contains, IsLoopback, Is4In6, ParsePrefix;
      assert Harmless(trusted, blocks[i].prefix);
    }
  }

  /** So blocking is plain membership: refused exactly when a block in force contains the client's address. */
  lemma {:induction false} BlockedIsMembership(trusted: seq<Prefix>, blocks: seq<Block>, ip: Addr, peer: Addr,
    now: Time)
    requires AllValid(trusted) && BlocksValid(blocks) && OnlyAllowed(trusted, blocks) && Valid(ip)
    ensures !Trusts(trusted, ip, peer) && Caught(blocks, ip, now) <==> Caught(blocks, ip, now)
  {
    if Trusts(trusted, ip, peer) {
      TrustNeverDecides(trusted, blocks, ip, peer, now);
    }
  }

  // ---- The operator's trusted list ----

  /** Each entry as a masked range; none when an entry cannot be read. */
  method TrustedAddressList(entries: seq<Input>) returns (out: Option<seq<Prefix>>)
    requires forall i :: 0 <= i < |entries| ==> Parsed(entries[i])
    ensures out.Some? <==> forall i :: 0 <= i < |entries| ==> ParsePrefix(entries[i]).Some?
    ensures out.Some? ==> AllValid(out.value) && |out.value| == |entries|
    ensures out.Some? ==> forall i, a :: 0 <= i < |entries| ==>
              ValidPrefix(ParsePrefix(entries[i]).value)
                && (Contains(out.value[i], a) <==> Contains(ParsePrefix(entries[i]).value, a))
  {
    var list: seq<Prefix> := [];
    for i := 0 to |entries|
      invariant |list| == i && AllValid(list)
      invariant forall k :: 0 <= k < i ==> ParsePrefix(entries[k]).Some? && ValidPrefix(ParsePrefix(entries[k]).value)
      invariant forall k, a :: 0 <= k < i ==> (Contains(list[k], a) <==> Contains(ParsePrefix(entries[k]).value, a))
    {
      var p := ParsePrefix(entries[i]);
      if p.None? {
        return None;
      }
      ParseValid(entries[i]);
      forall a
        ensures ValidPrefix(Masked(p.value)) && (Contains(Masked(p.value), a) <==> Contains(p.value, a))
      {
        MaskedSame(p.value, a);
      }
      assert ValidPrefix(Masked(p.value)) by { MaskedSame(p.value, NoAddr); }
      list := list + [Masked(p.value)];
    }
    out := Some(list);
  }
}
