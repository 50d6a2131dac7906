// How deliveries to each target have been going: the last outcome, the last
// day's counts, and the row written through to durable storage.
module DeliveryTracker {
  import opened Common

  datatype Target = Target(id: int)

  /** One delivery attempt; at is in seconds, 0 for the time it is recorded. */
  datatype Result = Result(at: nat, ok: bool, status: int, error: string, millis: int)

  datatype Stats = Stats(last: Result, lastOKAt: nat, sent24h: nat, failed24h: nat)

  const DAY: nat := 24 * 60 * 60
  const PERSIST_EVERY: nat := 60
  const NO_RESULT: Result := Result(0, false, 0, "", 0)
  const NO_STATS: Stats := Stats(NO_RESULT, 0, 0, 0)

  datatype Recent = Recent(at: nat, ok: bool)

  datatype Entry = Entry(last: Result, lastOKAt: nat, recent: seq<Recent>, lastPersist: nat)

  const NEW_ENTRY: Entry := Entry(NO_RESULT, 0, [], 0)

  function EntryOf(entries: map<Target, Entry>, id: Target): Entry {
    if id in entries then entries[id] else NEW_ENTRY
  }

  /** Without the oldest results that are more than a day old. */
  function Trimmed(recent: seq<Recent>, now: nat): seq<Recent> {
    if recent != [] && recent[0].at + DAY < now then Trimmed(recent[1..], now) else recent
  }

  predicate WritesThrough(e: Entry, r: Result) {
    !r.ok || e.last.ok != r.ok || e.last.status != r.status || r.at - e.lastPersist >= PERSIST_EVERY
  }

  function Recorded(e: Entry, r: Result): Entry {
    Entry(r, if r.ok then r.at else e.lastOKAt, Trimmed(e.recent + [Recent(r.at, r.ok)], r.at),
          if WritesThrough(e, r) then r.at else e.lastPersist)
  }

  function CountFailed(recent: seq<Recent>): nat {
    if recent == [] then 0 else CountFailed(recent[..|recent| - 1]) + (if recent[|recent| - 1].ok then 0 else 1)
  }

  function StatsOf(e: Entry, now: nat): Stats {
    Stats(e.last, e.lastOKAt, |Trimmed(e.recent, now)|, CountFailed(Trimmed(e.recent, now)))
  }

  // ---- The tracker ----

  class Tracker {
    var entries: map<Target, Entry>
    /** What durable storage holds for each target. */
    var rows: map<Target, Result>

    constructor (rows: map<Target, Result>)
      ensures entries == map[] && this.rows == rows
    {
      this.entries, this.rows := map[], rows;
    }

    method Trim(recent: seq<Recent>, now: nat) returns (kept: seq<Recent>)
      ensures kept == Trimmed(recent, now)
    {
      var i := 0;
      assert recent[0..] == recent;
      while i < |recent| && recent[i].at + DAY < now
        invariant i <= |recent| && Trimmed(recent[i..], now) == Trimmed(recent, now)
      {
        assert recent[i..][1..] == recent[i + 1..];
        i := i + 1;
      }
      kept := recent[i..];
    }

    method Seed(id: Target, last: Result, lastOKAt: nat)
      modifies this`entries
      ensures id in entries && entries == old(entries)[id := entries[id]]
      ensures if id in old(entries) && old(entries)[id].last.at != 0 then entries[id] == old(entries)[id]
              else entries[id].last == last && entries[id].lastOKAt == lastOKAt
                   && entries[id].recent == (if id in old(entries) then old(entries)[id].recent else [])
                   && entries[id].lastPersist == (if id in old(entries) then old(entries)[id].lastPersist else 0)
    {
      var e := EntryOf(entries, id);
      if e.last.at == 0 {
        e := e.(last := last, lastOKAt := lastOKAt);
      }
      entries := entries[id := e];
    }

    method Record(id: Target, result: Result, now: nat)
      modifies this
      ensures var e := if id in old(entries) then old(entries)[id] else Entry(Result(0, false, 0, "", 0), 0, [], 0);
              var r := if result.at == 0 then result.(at := now) else result;
              && entries == old(entries)[id := Recorded(e, r)]
              && rows == if WritesThrough(e, r) then old(rows)[id := r] else old(rows)
    {
      var r := if result.at == 0 then result.(at := now) else result;
      var e := EntryOf(entries, id);
      var changed := e.last.ok != r.ok || e.last.status != r.status;
      e := e.(last := r);
      if r.ok {
        e := e.(lastOKAt := r.at);
      }
      var recent := Trim(e.recent + [Recent(r.at, r.ok)], r.at);
      e := e.(recent := recent);
      var persist := !r.ok || changed || r.at - e.lastPersist >= PERSIST_EVERY;
      if persist {
        e := e.(lastPersist := r.at);
      }
      entries := entries[id := e];
      if persist {
        rows := rows[id := r];
      }
    }

    method GetStats(id: Target, now: nat) returns (s: Stats)
      modifies this`entries
      ensures s == if id in old(entries) then StatsOf(old(entries)[id], now)
                   else Stats(Result(0, false, 0, "", 0), 0, 0, 0)
      ensures entries == if id in old(entries)
              then old(entries)[id := old(entries)[id].(recent := Trimmed(old(entries)[id].recent, now))]
                         else old(entries)
    {
      if id !in entries {
        return NO_STATS;
      }
      var e := entries[id];
      var recent := Trim(e.recent, now);
      entries := entries[id := e.(recent := recent)];
      var sent, failed := 0, 0;
      for i := 0 to |recent|
        invariant sent == i && failed == CountFailed(recent[..i])
      {
        assert recent[..i + 1][..i] == recent[..i];
        sent := sent + 1;
        if !recent[i].ok {
          failed := failed + 1;
        }
      }
      assert recent[..|recent|] == recent;
      s := Stats(e.last, e.lastOKAt, sent, failed);
    }

    method Forget(id: Target)
      modifies this`entries
      ensures entries == old(entries) - {id}
    {
      entries := entries - {id};
    }
  }

  // ---- One target's whole history ----

  datatype Event = Delivered(result: Result) | Asked(now: nat)

  /** A target's entry and its row after some events; a delivery carries its time. */
  datatype Known = Known(entry: Entry, row: Option<Result>)

  function Step(k: Known, e: Event): Known {
    match e
    case Delivered(r) => Known(Recorded(k.entry, r), if WritesThrough(k.entry, r) then Some(r) else k.row)
    case Asked(now) => k.(entry := k.entry.(recent := Trimmed(k.entry.recent, now)))
  }

  function Run(k: Known, es: seq<Event>): Known {
    if es == [] then k else Step(Run(k, es[..|es| - 1]), es[|es| - 1])
  }

  function TimeOf(e: Event): nat {
    match e
    case Delivered(r) => r.at
    case Asked(now) => now
  }

  ghost predicate Ordered(es: seq<Event>) {
    forall i, j :: 0 <= i < j < |es| ==> TimeOf(es[i]) <= TimeOf(es[j])
  }

  /** Every delivery of the history, oldest first. */
  function History(es: seq<Event>): seq<Recent> {
    if es == [] then []
    else
      var e := es[|es| - 1];
      History(es[..|es| - 1]) + (if e.Delivered? then [Recent(e.result.at, e.result.ok)] else [])
  }

  /** The deliveries of the last day. */
  function LastDay(h: seq<Recent>, now: nat): seq<Recent> {
    if h == [] then []
    else LastDay(h[..|h| - 1], now) + (if h[|h| - 1].at + 86_400 < now then [] else [h[|h| - 1]])
  }

  ghost predicate Rising(h: seq<Recent>) {
    forall i, j :: 0 <= i < j < |h| ==> h[i].at <= h[j].at
  }

  lemma {:induction false} LastDayFirst(h: seq<Recent>, now: nat)
    requires h != []
    ensures LastDay(h, now) == (if h[0].at + DAY < now then [] else [h[0]]) + LastDay(h[1..], now)
  {
    var n := |h| - 1;
    if n > 0 {
      LastDayFirst(h[..n], now);
      assert h[..n][1..] == h[1..][..n - 1] && h[1..][n - 1] == h[n];
    }
  }

  lemma {:induction false} AllRecent(h: seq<Recent>, now: nat)
    requires forall i :: 0 <= i < |h| ==> !(h[i].at + DAY < now)
    ensures LastDay(h, now) == h
  {
    if h != [] {
      var n := |h| - 1;
      var before := h[..n];
      assert forall i :: 0 <= i < n ==> before[i] == h[i];
      AllRecent(before, now);
      hide LastDay;
      assert before + [h[n]] == h;
    }
  }

  /** Dropping a prefix is dropping everything too old, since times rise. */
  lemma {:induction false} TrimmedIsLastDay(h: seq<Recent>, now: nat)
    requires Rising(h)
    ensures Trimmed(h, now) == LastDay(h, now)
  {
    if h != [] {
      LastDayFirst(h, now);
      if h[0].at + DAY < now {
        TrimmedIsLastDay(h[1..], now);
      } else {
        AllRecent(h, now);
      }
    }
  }

  lemma {:induction false} LastDayTwice(h: seq<Recent>, before: nat, now: nat)
    requires before <= now
    ensures LastDay(LastDay(h, before), now) == LastDay(h, now)
  {
    if h != [] {
      var n := |h| - 1;
      LastDayTwice(h[..n], before, now);
      var rest := LastDay(h[..n], before);
      if !(h[n].at + DAY < before) {
        assert (rest + [h[n]])[..|rest|] == rest;
      } else {
        assert rest + [] == rest && LastDay(h[..n], now) + [] == LastDay(h[..n], now);
      }
    }
  }

  lemma {:induction false} LastDayRises(h: seq<Recent>, now: nat)
    requires Rising(h)
    ensures Rising(LastDay(h, now))
    ensures h != [] ==> forall i :: 0 <= i < |LastDay(h, now)| ==> LastDay(h, now)[i].at <= h[|h| - 1].at
  {
    if h != [] {
      LastDayRises(h[..|h| - 1], now);
    }
  }

  lemma {:induction false} HistoryRises(es: seq<Event>)
    requires Ordered(es)
    ensures Rising(History(es))
    ensures forall i :: 0 <= i < |History(es)| ==> es != [] && History(es)[i].at <= TimeOf(es[|es| - 1])
  {
    if es != [] {
      HistoryRises(es[..|es| - 1]);
    }
  }

  lemma AppendedDay(h: seq<Recent>, r: Recent, now: nat)
    ensures LastDay(h + [r], now) == LastDay(h, now) + (if r.at + DAY < now then [] else [r])
  {
    assert (h + [r])[..|h|] == h;
  }

  /** recent is the last day of the whole history, as of the last event. */
  lemma {:induction false} RecentIsHistory(k: Known, es: seq<Event>)
    requires Ordered(es) && k.entry.recent == []
    ensures Run(k, es).entry.recent == LastDay(History(es), if es == [] then 0 else TimeOf(es[|es| - 1]))
  {
    if es != [] {
      var n := |es| - 1;
      var before, now := if n == 0 then 0 else TimeOf(es[n - 1]), TimeOf(es[n]);
      var h := History(es[..n]);
      RecentIsHistory(k, es[..n]);
      HistoryRises(es[..n]);
      LastDayRises(h, before);
      LastDayTwice(h, before, now);
      var recent := LastDay(h, before);
      match es[n]
      case Delivered(r) =>
        var one := Recent(r.at, r.ok);
        RisingAppend(recent, one, h);
        TrimmedIsLastDay(recent + [one], now);
        AppendedDay(recent, one, now);
        AppendedDay(h, one, now);
      case Asked(t) =>
        TrimmedIsLastDay(recent, now);
        assert History(es) == h;
    }
  }

  lemma RisingAppend(recent: seq<Recent>, one: Recent, h: seq<Recent>)
    requires Rising(recent) && (h == [] ==> recent == [])
    requires h != [] ==> forall i :: 0 <= i < |recent| ==> recent[i].at <= h[|h| - 1].at <= one.at
    ensures Rising(recent + [one])
  {
  }

  /** The stats of a target are the sent and failed counts of its whole history in the last day. */
  lemma {:induction false} StatsCountHistory(k: Known, es: seq<Event>, now: nat)
    requires Ordered(es) && k.entry.recent == [] && (es != [] ==> TimeOf(es[|es| - 1]) <= now)
    ensures var s := StatsOf(Run(k, es).entry, now);
            s.sent24h == |WithinDay(History(es), now)| && s.failed24h == |FailedWithinDay(History(es), now)|
  {
    DayCounted(History(es), now);
    var before := if es == [] then 0 else TimeOf(es[|es| - 1]);
    RecentIsHistory(k, es);
    HistoryRises(es);
    LastDayRises(History(es), before);
    TrimmedIsLastDay(LastDay(History(es), before), now);
    LastDayTwice(History(es), before, now);
  }

  /** The deliveries of the last day, by their place in the history. */
  ghost function WithinDay(h: seq<Recent>, now: nat): set<nat> {
    set i | 0 <= i < |h| && now <= h[i].at + 86_400
  }

  ghost function FailedWithinDay(h: seq<Recent>, now: nat): set<nat> {
    set i | 0 <= i < |h| && now <= h[i].at + 86_400 && !h[i].ok
  }

  lemma {:induction false} DayCounted(h: seq<Recent>, now: nat)
    ensures |LastDay(h, now)| == |WithinDay(h, now)| && CountFailed(LastDay(h, now)) == |FailedWithinDay(h, now)|
  {
    if h != [] {
      var n := |h| - 1;
      var rest := LastDay(h[..n], now);
      DayCounted(h[..n], now);
      assert WithinDay(h, now) == WithinDay(h[..n], now) + (if now <= h[n].at + 86_400 then {n} else {});
      assert FailedWithinDay(h, now)
        == FailedWithinDay(h[..n], now) + (if now <= h[n].at + 86_400 && !h[n].ok then {n} else {});
      assert n !in WithinDay(h[..n], now) && n !in FailedWithinDay(h[..n], now);
      assert (rest + [h[n]])[..|rest|] == rest && rest + [] == rest;
    }
  }

  // ---- The row written through ----

  /** A failure, another status and a success after a failure are written at once; of successes with one status there
      is at most one write a minute. */
  lemma {:induction false} WritesExactly(k: Known, r: Result)
    ensures Step(k, Delivered(r)).row
            == if !r.ok || !k.entry.last.ok || k.entry.last.status != r.status || r.at >= k.entry.lastPersist + 60
               then Some(r) else k.row
    ensures Step(k, Delivered(r)).row == Some(r) && k.row != Some(r) ==> Step(k, Delivered(r)).entry.lastPersist == r.at
  {
  }

  /** The row says what the last result says, and is less than a minute older. */
  ghost predicate RowCurrent(k: Known) {
    && k.row.Some? && k.row.value.ok == k.entry.last.ok && k.row.value.status == k.entry.last.status
    && k.row.value.at <= k.entry.last.at < k.row.value.at + 60
  }

  /** A target nothing is known of, or one seeded from its row. */
  ghost predicate FreshOrSeeded(k: Known) {
    && k.entry.lastPersist == 0 && k.entry.recent == []
    && (k.entry.last == Result(0, false, 0, "", 0) || k.row == Some(k.entry.last))
  }

  /** What carries the claim from one result to the next: the last write was the row's, or there was none since the
      seed. */
  ghost predicate RowTracked(k: Known) {
    RowCurrent(k) && (k.entry.lastPersist == k.row.value.at || k.entry.lastPersist == 0)
  }

  lemma RecordedRow(k: Known, r: Result)
    requires RowTracked(k) || FreshOrSeeded(k)
    requires k.entry.last.at <= r.at
    ensures RowTracked(Step(k, Delivered(r)))
  {
    hide Trimmed;
  }

  /** From a fresh or row-seeded entry, after any deliveries at rising times the row has the last result's outcome
      and status and is less than a minute older. */
  lemma {:induction false} RowFollows(k: Known, es: seq<Event>)
    requires FreshOrSeeded(k) && Ordered(es) && forall i :: 0 <= i < |es| ==> k.entry.last.at <= TimeOf(es[i])
    ensures History(es) != [] ==> RowTracked(Run(k, es)) && Run(k, es).entry.last.at <= TimeOf(es[|es| - 1])
    ensures History(es) == [] ==> FreshOrSeeded(Run(k, es)) && Run(k, es).entry.last == k.entry.last
  {
    if es != [] {
      var n := |es| - 1;
      RowFollows(k, es[..n]);
      match es[n]
      case Delivered(r) =>
        assert n > 0 ==> TimeOf(es[n - 1]) <= r.at;
        RecordedRow(Run(k, es[..n]), r);
      case Asked(t) =>
        assert n > 0 ==> TimeOf(es[n - 1]) <= t;
        assert History(es) == History(es[..n]);
    }
  }

  // ---- The last outcome ----

  /** The last result delivered in the run, or the one known before it. */
  function LastResult(known: Result, es: seq<Event>): Result {
    if es == [] then known
    else if es[|es| - 1].Delivered? then es[|es| - 1].result
    else LastResult(known, es[..|es| - 1])
  }

  /** When a delivery of the history last worked, or the time known before it. */
  function LastWorked(known: nat, h: seq<Recent>): nat {
    if h == [] then known
    else if h[|h| - 1].ok then h[|h| - 1].at
    else LastWorked(known, h[..|h| - 1])
  }

  /** Stats name the last result of the run and the time a delivery last worked, however old. */
  lemma {:induction false} LastOutcome(k: Known, es: seq<Event>, now: nat)
    ensures StatsOf(Run(k, es).entry, now).last == LastResult(k.entry.last, es)
    ensures StatsOf(Run(k, es).entry, now).lastOKAt == LastWorked(k.entry.lastOKAt, History(es))
  {
    hide Trimmed, CountFailed, WritesThrough;
    if es != [] {
      var h := History(es[..|es| - 1]);
      LastOutcome(k, es[..|es| - 1], now);
      if es[|es| - 1].Delivered? {
        var r := es[|es| - 1].result;
        assert (h + [Recent(r.at, r.ok)])[..|h|] == h;
      } else {
        assert h + [] == h;
      }
    }
  }
}
