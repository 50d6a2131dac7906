// Calls to retired routes: a ring of the latest ones, and the last day's
// totals per route and key, most recent first.
module LegacyUsage {
  import opened Common
  import opened Ring
  import opened Text

  datatype Record = Record(at: int, path: string, verb: string, status: int, ident: string, keyId: int)

  datatype Key = Key(path: string, verb: string, ident: string, keyId: int)

  datatype UsageEntry = UsageEntry(key: Key, count: nat, lastSeen: int)

  const CAPACITY: nat := 4096
  const MAX_AGE: int := 24 * 60 * 60 * 1_000_000_000

  function KeyOf(r: Record): Key {
    Key(r.path, r.verb, r.ident, r.keyId)
  }

  /** A used slot of this key, not older than the cutoff. */
  predicate Counts(slot: Option<Record>, k: Key, cutoff: int) {
    slot.Some? && slot.value.at >= cutoff && KeyOf(slot.value) == k
  }

  function CountKey(slots: seq<Option<Record>>, k: Key, cutoff: int): nat {
    if slots == [] then 0
    else CountKey(slots[..|slots| - 1], k, cutoff) + (if Counts(slots[|slots| - 1], k, cutoff) then 1 else 0)
  }

  /** t is the latest time of the key's counted slots. */
  ghost predicate Latest(slots: seq<Option<Record>>, k: Key, cutoff: int, t: int) {
    && (forall i :: 0 <= i < |slots| && Counts(slots[i], k, cutoff) ==> slots[i].value.at <= t)
    && (exists i :: 0 <= i < |slots| && Counts(slots[i], k, cutoff) && slots[i].value.at == t)
  }

  /** The totals of these slots: an entry for every key counted, with its count and latest time. */
  ghost predicate Totals(slots: seq<Option<Record>>, cutoff: int, agg: map<Key, UsageEntry>) {
    && (forall k :: k in agg <==> CountKey(slots, k, cutoff) > 0)
    && (forall k :: k in agg ==>
        agg[k].key == k && agg[k].count == CountKey(slots, k, cutoff) && Latest(slots, k, cutoff, agg[k].lastSeen))
  }

  // ---- Order: latest first, then by path ----

  predicate Ahead(a: UsageEntry, b: UsageEntry) {
    a.lastSeen > b.lastSeen || (a.lastSeen == b.lastSeen && AtMost(a.key.path, b.key.path))
  }

  lemma AheadTransitive(a: UsageEntry, b: UsageEntry, c: UsageEntry)
    requires Ahead(a, b) && Ahead(b, c)
    ensures Ahead(a, c)
  {
    if a.lastSeen == c.lastSeen {
      AtMostTransitive(a.key.path, b.key.path, c.key.path);
    }
  }

  ghost predicate Sorted(s: seq<UsageEntry>) {
    forall p, q :: 0 <= p < q < |s| ==>
      s[p].lastSeen > s[q].lastSeen || (s[p].lastSeen == s[q].lastSeen && AtMost(s[p].key.path, s[q].key.path))
  }

  ghost predicate DistinctKeys(s: seq<UsageEntry>) {
    forall p, q :: 0 <= p < q < |s| ==> s[p].key != s[q].key
  }

  /** Same entries, whatever their order. */
  ghost predicate SameEntries(s: seq<UsageEntry>, t: seq<UsageEntry>) {
    |s| == |t| && forall e :: e in s <==> e in t
  }

  lemma SwapSame(s: seq<UsageEntry>, j: nat)
    requires 0 < j < |s|
    ensures SameEntries(s, s[j - 1 := s[j]][j := s[j - 1]])
    ensures DistinctKeys(s) ==> DistinctKeys(s[j - 1 := s[j]][j := s[j - 1]])
  {
    var t := s[j - 1 := s[j]][j := s[j - 1]];
    forall e | e in s
      ensures e in t
    {
      var i :| 0 <= i < |s| && s[i] == e;
      assert t[if i == j then j - 1 else if i == j - 1 then j else i] == e;
    }
    forall e | e in t
      ensures e in s
    {
      var i :| 0 <= i < |t| && t[i] == e;
      assert s[if i == j then j - 1 else if i == j - 1 then j else i] == e;
    }
  }

  /** All in order but the entry at j, which is ahead of those behind it. */
  ghost predicate SortedBut(s: seq<UsageEntry>, i: nat, j: nat) {
    && j <= i < |s|
    && forall p, q :: 0 <= p < q <= i && q != j ==> Ahead(s[p], s[q])
  }

  lemma SwapSorts(s: seq<UsageEntry>, i: nat, j: nat)
    requires SortedBut(s, i, j) && 0 < j && !Ahead(s[j - 1], s[j])
    ensures SortedBut(s[j - 1 := s[j]][j := s[j - 1]], i, j - 1)
  {
    hide AtMost;
    AtMostTotal(s[j - 1].key.path, s[j].key.path);
    hide Ahead;
    var t := s[j - 1 := s[j]][j := s[j - 1]];
    assert Ahead(t[j - 1], t[j]) by { SwappedAhead(s[j - 1], s[j]); }
    forall p, q | 0 <= p < q <= i && q != j - 1
      ensures Ahead(t[p], t[q])
    {
    }
  }

  lemma SwappedAhead(a: UsageEntry, b: UsageEntry)
    requires !Ahead(a, b)
    ensures Ahead(b, a)
  {
    AtMostTotal(a.key.path, b.key.path);
  }

  lemma StopSorted(s: seq<UsageEntry>, i: nat, j: nat)
    requires SortedBut(s, i, j) && (j == 0 || Ahead(s[j - 1], s[j]))
    ensures Sorted(s[..i + 1])
  {
    hide AtMost;
    forall p, q | 0 <= p < q <= i
      ensures Ahead(s[p], s[q])
    {
      if q == j && p < j - 1 {
        AheadTransitive(s[p], s[j - 1], s[j]);
      }
    }
  }

  /** The insertion sort of the totals. */
  method SortEntries(a: array<UsageEntry>)
    requires DistinctKeys(a[..])
    modifies a
    ensures Sorted(a[..]) && DistinctKeys(a[..]) && SameEntries(old(a[..]), a[..])
  {
    hide Sorted, DistinctKeys, SameEntries, SortedBut, Ahead;
    ghost var was := a[..];
    SameSelf(was);
    SortedShort(a[..]);
    var i := 1;
    while i < a.Length
      invariant 1 <= i && (i <= a.Length || a.Length == 0)
      invariant Sorted(if i <= a.Length then a[..i] else a[..]) && DistinctKeys(a[..]) && SameEntries(was, a[..])
    {
      var j := i;
      StartInsert(a[..], i);
      while j > 0
        invariant 0 <= j <= i < a.Length && SortedBut(a[..], i, j) && DistinctKeys(a[..]) && SameEntries(was, a[..])
        invariant a.Length == |a[..]|
      {
        ghost var s := a[..];
        if Ahead(a[j - 1], a[j]) {
          break;
        }
        SwapSame(s, j);
        SwapSorts(s, i, j);
        a[j - 1], a[j] := a[j], a[j - 1];
        assert a[..] == s[j - 1 := s[j]][j := s[j - 1]];
        SameStill(was, s, a[..]);
        j := j - 1;
      }
      StopSorted(a[..], i, j);
      i := i + 1;
    }
    assert a.Length > 0 ==> a[..a.Length] == a[..];
    assert a.Length == 0 ==> a[..] == [];
  }

  lemma SameSelf(s: seq<UsageEntry>)
    ensures SameEntries(s, s)
  {
  }

  lemma SameStill(a: seq<UsageEntry>, b: seq<UsageEntry>, c: seq<UsageEntry>)
    requires SameEntries(a, b) && SameEntries(b, c)
    ensures SameEntries(a, c)
  {
  }

  lemma SortedShort(s: seq<UsageEntry>)
    ensures |s| >= 1 ==> Sorted(s[..1])
    ensures |s| == 0 ==> Sorted(s)
  {
  }

  lemma StartInsert(s: seq<UsageEntry>, i: nat)
    requires i < |s| && Sorted(s[..i])
    ensures SortedBut(s, i, i)
  {
    forall p, q | 0 <= p < q < i
      ensures Ahead(s[p], s[q])
    {
      assert s[..i][p] == s[p] && s[..i][q] == s[q];
    }
  }

  // ---- Adding up the slots ----

  function Seen(agg: map<Key, UsageEntry>, r: Record): UsageEntry {
    var k := KeyOf(r);
    if k !in agg then UsageEntry(k, 1, r.at)
    else UsageEntry(k, agg[k].count + 1, if r.at > agg[k].lastSeen then r.at else agg[k].lastSeen)
  }

  lemma TotalsStep(slots: seq<Option<Record>>, n: nat, cutoff: int, agg: map<Key, UsageEntry>)
    requires n < |slots| && Totals(slots[..n], cutoff, agg)
    ensures var slot := slots[n];
            Totals(slots[..n + 1], cutoff, if slot.Some? && slot.value.at >= cutoff
                   then agg[KeyOf(slot.value) := Seen(agg, slot.value)] else agg)
  {
    var slot := slots[n];
    var counted := slot.Some? && slot.value.at >= cutoff;
    var agg' := if counted then agg[KeyOf(slot.value) := Seen(agg, slot.value)] else agg;
    assert slots[..n + 1][..n] == slots[..n] && slots[..n + 1][n] == slot;
    forall k
      ensures CountKey(slots[..n + 1], k, cutoff) == CountKey(slots[..n], k, cutoff)
              + (if Counts(slot, k, cutoff) then 1 else 0)
    {
    }
    forall k | k in agg'
      ensures Latest(slots[..n + 1], k, cutoff, agg'[k].lastSeen)
    {
      LatestStep(slots, n, k, cutoff, if k in agg then Some(agg[k].lastSeen) else None);
    }
  }

  lemma LatestStep(slots: seq<Option<Record>>, n: nat, k: Key, cutoff: int, t: Option<int>)
    requires n < |slots|
    requires if t.Some? then Latest(slots[..n], k, cutoff, t.value) else CountKey(slots[..n], k, cutoff) == 0
    ensures Counts(slots[n], k, cutoff) ==>
              Latest(slots[..n + 1], k, cutoff, if t.Some? && t.value >= slots[n].value.at then t.value
                     else slots[n].value.at)
    ensures !Counts(slots[n], k, cutoff) && t.Some? ==> Latest(slots[..n + 1], k, cutoff, t.value)
  {
    var before, after := slots[..n], slots[..n + 1];
    assert forall i :: 0 <= i < n ==> after[i] == before[i];
    assert after[n] == slots[n];
    if t.Some? {
      var i :| 0 <= i < |before| && Counts(before[i], k, cutoff) && before[i].value.at == t.value;
      assert after[i] == before[i];
    } else {
      NoneCounted(before, k, cutoff);
    }
  }

  lemma {:induction false} NoneCounted(slots: seq<Option<Record>>, k: Key, cutoff: int)
    ensures CountKey(slots, k, cutoff) == 0 <==> forall i :: 0 <= i < |slots| ==> !Counts(slots[i], k, cutoff)
  {
    hide Counts;
    if slots != [] {
      NoneCounted(slots[..|slots| - 1], k, cutoff);
      assert forall i :: 0 <= i < |slots| - 1 ==> slots[..|slots| - 1][i] == slots[i];
    }
  }

  method Walk(slots: seq<Option<Record>>, cutoff: int) returns (agg: map<Key, UsageEntry>)
    ensures Totals(slots, cutoff, agg)
  {
    hide Totals;
    agg := map[];
    NoTotals(slots, cutoff);
    for i := 0 to |slots|
      invariant Totals(slots[..i], cutoff, agg)
    {
      TotalsStep(slots, i, cutoff, agg);
      var rec := slots[i];
      if rec.None? || rec.value.at < cutoff {
        continue;
      }
      var k := KeyOf(rec.value);
      if k !in agg {
        agg := agg[k := UsageEntry(k, 1, rec.value.at)];
        continue;
      }
      var e := agg[k];
      e := UsageEntry(k, e.count + 1, if rec.value.at > e.lastSeen then rec.value.at else e.lastSeen);
      agg := agg[k := e];
    }
    assert slots[..|slots|] == slots;
  }

  lemma NoTotals(slots: seq<Option<Record>>, cutoff: int)
    ensures Totals(slots[..0], cutoff, map[])
  {
  }

  /** The count of a key is the number of records of exactly that route, method and API key since the cutoff. */
  lemma {:induction false} CountMeans(slots: seq<Option<Record>>, k: Key, cutoff: int)
    ensures CountKey(slots, k, cutoff) == |OfKey(slots, k, cutoff)|
  {
    if slots != [] {
      CountMeans(slots[..|slots| - 1], k, cutoff);
      OneMoreOfKey(slots, k, cutoff);
      hide OfKey;
    }
  }

  lemma OneMoreOfKey(slots: seq<Option<Record>>, k: Key, cutoff: int)
    requires slots != []
    ensures var n := |slots| - 1;
            |OfKey(slots, k, cutoff)|
            == |OfKey(slots[..n], k, cutoff)| + (if Counts(slots[n], k, cutoff) then 1 else 0)
  {
    var n := |slots| - 1;
    var before := OfKey(slots[..n], k, cutoff);
    forall i | 0 <= i < n
      ensures slots[..n][i] == slots[i]
    {
    }
    assert OfKey(slots, k, cutoff) == if Counts(slots[n], k, cutoff) then before + {n} else before;
    assert n !in before;
  }

  ghost function OfKey(slots: seq<Option<Record>>, k: Key, cutoff: int): set<nat> {
    set i | 0 <= i < |slots| && slots[i].Some? && cutoff <= slots[i].value.at && slots[i].value.path == k.path
            && slots[i].value.verb == k.verb && slots[i].value.ident == k.ident && slots[i].value.keyId == k.keyId
  }

  // ---- Slots against history ----

  lemma {:induction false} CountAppend(a: seq<Option<Record>>, b: seq<Option<Record>>, k: Key, cutoff: int)
    ensures CountKey(a + b, k, cutoff) == CountKey(a, k, cutoff) + CountKey(b, k, cutoff)
  {
    if b == [] {
      assert a + b == a;
    } else {
      assert (a + b)[..|a + b| - 1] == a + b[..|b| - 1];
      CountAppend(a, b[..|b| - 1], k, cutoff);
    }
  }

  lemma LatestMoved(s: seq<Option<Record>>, h: seq<Option<Record>>, k: Key, cutoff: int, t: int)
    requires forall e: Option<Record> :: e.Some? ==> (e in s <==> e in h)
    requires Latest(s, k, cutoff, t)
    ensures Latest(h, k, cutoff, t)
  {
    assert forall i :: 0 <= i < |h| ==> h[i] in h;
    assert forall i :: 0 <= i < |s| ==> s[i] in s;
    forall i | 0 <= i < |h| && Counts(h[i], k, cutoff)
      ensures h[i].value.at <= t
    {
      CountedIsSome(h[i], k, cutoff);
      var j :| 0 <= j < |s| && s[j] == h[i];
    }
    var i :| 0 <= i < |s| && Counts(s[i], k, cutoff) && s[i].value.at == t;
    CountedIsSome(s[i], k, cutoff);
    assert s[i] in h;
  }

  lemma CountedIsSome(slot: Option<Record>, k: Key, cutoff: int)
    ensures Counts(slot, k, cutoff) ==> slot.Some?
  {
  }

  /** What the slots add up to is what the last pushes add up to, in whatever slot each is. */
  lemma {:induction false} TotalsOfHistory(slots: seq<Option<Record>>, pos: nat, full: bool, h: seq<Option<Record>>,
    cutoff: int, agg: map<Key, UsageEntry>)
    requires Holds(slots, pos, full, h, None) && Totals(slots, cutoff, agg)
    ensures Totals(LastOf(h, |slots|), cutoff, agg)
  {
    var last := LastOf(h, |slots|);
    SameSlots(slots, pos, full, h);
    forall k
      ensures CountKey(last, k, cutoff) == CountKey(slots, k, cutoff)
    {
      SameCount(slots, pos, full, h, k, cutoff);
    }
    forall k | k in agg
      ensures Latest(last, k, cutoff, agg[k].lastSeen)
    {
      LatestMoved(slots, last, k, cutoff, agg[k].lastSeen);
    }
  }

  lemma SameCount(slots: seq<Option<Record>>, pos: nat, full: bool, h: seq<Option<Record>>, k: Key, cutoff: int)
    requires Holds(slots, pos, full, h, None)
    ensures CountKey(LastOf(h, |slots|), k, cutoff) == CountKey(slots, k, cutoff)
  {
    assert slots == slots[..pos] + slots[pos..];
    CountAppend(slots[..pos], slots[pos..], k, cutoff);
    if full {
      CountAppend(slots[pos..], slots[..pos], k, cutoff);
    } else {
      NoneCounted(slots[pos..], k, cutoff);
    }
  }

  lemma SameSlots(slots: seq<Option<Record>>, pos: nat, full: bool, h: seq<Option<Record>>)
    requires Holds(slots, pos, full, h, None)
    ensures forall e: Option<Record> :: e.Some? ==> (e in slots <==> e in LastOf(h, |slots|))
  {
    assert slots == slots[..pos] + slots[pos..];
    forall e: Option<Record> | e.Some?
      ensures e in slots <==> e in slots[..pos] || e in slots[pos..]
    {
    }
  }

  // ---- The store ----

  /** The report of a history: one entry per key counted, latest first and then by path. */
  ghost predicate Reports(out: seq<UsageEntry>, records: seq<Option<Record>>, cutoff: int) {
    && Sorted(out) && DistinctKeys(out)
    && (forall k :: CountKey(records, k, cutoff) > 0 ==> exists i :: 0 <= i < |out| && out[i].key == k)
    && (forall i :: 0 <= i < |out| ==>
         out[i].count == CountKey(records, out[i].key, cutoff) > 0
           && Latest(records, out[i].key, cutoff, out[i].lastSeen))
  }

  ghost predicate IsStore(ring: RingBuffer<Option<Record>>)
    reads ring, ring.buf
  {
    ring.Valid() && ring.empty == None && ring.buf.Length == 4096
  }

  method NewLegacyUsageStore() returns (ring: RingBuffer<Option<Record>>)
    ensures fresh(ring) && fresh(ring.buf) && IsStore(ring) && ring.history == []
  {
    ring := new RingBuffer(CAPACITY, None);
  }

  method RecordKey(ring: RingBuffer<Option<Record>>, r: Record)
    requires IsStore(ring)
    modifies ring, ring.buf
    ensures IsStore(ring) && ring.history == old(ring.history) + [Some(r)]
  {
    ring.Push(Some(r));
  }

  /** The totals as a list, in some order. */
  method Listed(agg: map<Key, UsageEntry>) returns (out: seq<UsageEntry>)
    requires forall k :: k in agg ==> agg[k].key == k
    ensures DistinctKeys(out) && forall e :: e in out <==> e.key in agg && agg[e.key] == e
  {
    out := [];
    var todo := agg.Keys;
    while todo != {}
      invariant todo <= agg.Keys
      invariant forall i :: 0 <= i < |out| ==> out[i].key in agg && out[i].key !in todo && agg[out[i].key] == out[i]
      invariant DistinctKeys(out)
      invariant forall k :: k in agg && k !in todo ==> agg[k] in out
      decreases todo
    {
      var k :| k in todo;
      out := out + [agg[k]];
      todo := todo - {k};
    }
  }

  /** The totals of the last 4096 records, as far as they are no older than a day. */
  method Aggregate24h(ring: RingBuffer<Option<Record>>, now: int) returns (out: array<UsageEntry>)
    requires IsStore(ring)
    ensures fresh(out)
    ensures Reports(out[..], LastOf(ring.history, 4096), now - 86_400_000_000_000)
  {
    hide Holds, LastOf, Totals, Sorted, DistinctKeys, CountKey;
    var cutoff := now - MAX_AGE;
    var agg := Walk(ring.buf[..], cutoff);
    TotalsOfHistory(ring.buf[..], ring.pos, ring.full, ring.history, cutoff, agg);
    TotalsKeys(LastOf(ring.history, CAPACITY), cutoff, agg);
    var entries := Listed(agg);
    out := new UsageEntry[|entries|](i requires 0 <= i < |entries| => entries[i]);
    assert out[..] == entries;
    SortEntries(out);
    Reported(LastOf(ring.history, CAPACITY), cutoff, agg, entries, out[..]);
  }

  lemma TotalsKeys(records: seq<Option<Record>>, cutoff: int, agg: map<Key, UsageEntry>)
    requires Totals(records, cutoff, agg)
    ensures forall k :: k in agg ==> agg[k].key == k
  {
  }

  lemma Reported(records: seq<Option<Record>>, cutoff: int, agg: map<Key, UsageEntry>, entries: seq<UsageEntry>,
    out: seq<UsageEntry>)
    requires Totals(records, cutoff, agg) && (forall e :: e in entries <==> e.key in agg && agg[e.key] == e)
    requires Sorted(out) && DistinctKeys(out) && SameEntries(entries, out)
    ensures Reports(out, records, cutoff)
  {
    hide Sorted, DistinctKeys, CountKey, Latest;
    forall k | CountKey(records, k, cutoff) > 0
      ensures exists i :: 0 <= i < |out| && out[i].key == k
    {
      assert agg[k].key == k && agg[k] in entries;
      assert agg[k] in out;
    }
    forall i | 0 <= i < |out|
      ensures out[i].count == CountKey(records, out[i].key, cutoff) > 0
              && Latest(records, out[i].key, cutoff, out[i].lastSeen)
    {
      assert out[i] in out;
      assert out[i] in entries;
    }
  }
}
