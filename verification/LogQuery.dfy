// The admin log view over the captured log: the last matching entries, and
// how many there are of each level.
module LogQuery {
  import opened Common
  import opened Text
  import opened Ring

  /** time in seconds; attrs are the attribute values, which the server keeps in no order. */
  datatype LogEntry = LogEntry(time: int, level: string, message: string, attrs: seq<string>)

  predicate ContainsAt(s: string, query: string, i: nat) {
    i + |query| <= |s| && s[i..i + |query|] == query
  }

  predicate ContainsText(s: string, query: string) {
    exists i: nat :: i <= |s| && ContainsAt(s, query, i)
  }

  /** The values of an entry in the order one call happens to visit them, by the entry's place in the buffer. */
  type Visits = nat -> seq<string>

  /** Every entry's values are visited once each. */
  ghost predicate Visit(all: seq<LogEntry>, order: Visits) {
    forall i :: 0 <= i < |all| ==> multiset(order(i)) == multiset(all[i].attrs)
  }

  function Joined(values: seq<string>): string {
    if values == [] then "" else " " + ToLower(values[0]) + Joined(values[1..])
  }

  function TextOf(e: LogEntry, values: seq<string>): string {
    ToLower(e.message) + Joined(values)
  }

  /** The range and search the list and the counts share; 0 or less is no bound. */
  predicate EntryMatches(e: LogEntry, values: seq<string>, from: int, to: int, query: string) {
    && !(from > 0 && e.time < from)
    && !(to > 0 && e.time > to)
    && (query == "" || ContainsText(TextOf(e, values), query))
  }

  predicate Selected(e: LogEntry, values: seq<string>, level: string, from: int, to: int, query: string) {
    (level == "" || e.level == level) && EntryMatches(e, values, from, to, query)
  }

  /** The selected entries, in order. */
  function Selection(all: seq<LogEntry>, order: Visits, level: string, from: int, to: int,
    query: string): seq<LogEntry> {
    if all == [] then []
    else
      var n := |all| - 1;
      Selection(all[..n], order, level, from, to, query)
      + (if Selected(all[n], order(n), level, from, to, query) then [all[n]] else [])
  }

  /** The search of one entry: the message, then each value as it is visited. */
  method Matches(e: LogEntry, values: seq<string>, from: int, to: int, query: string) returns (found: bool)
    ensures found <==> EntryMatches(e, values, from, to, query)
    ensures found <==> (from <= 0 || from <= e.time) && (to <= 0 || e.time <= to)
                       && (query == "" || ContainsText(ToLower(e.message) + Joined(values), query))
  {
    if (from > 0 && e.time < from) || (to > 0 && e.time > to) {
      return false;
    }
    if query == "" {
      return true;
    }
    var attrs := "";
    for i := 0 to |values|
      invariant attrs + Joined(values[i..]) == Joined(values)
    {
      assert values[i..][1..] == values[i + 1..];
      attrs := attrs + " " + ToLower(values[i]);
    }
    assert values[|values|..] == [] && attrs + "" == attrs;
    found := ContainsText(ToLower(e.message) + attrs, query);
  }

  function Reversed<T>(s: seq<T>): (r: seq<T>)
    ensures |r| == |s|
  {
    seq(|s|, i requires 0 <= i < |s| => s[|s| - 1 - i])
  }

  method ReverseInPlace(a: array<LogEntry>)
    modifies a
    ensures a[..] == Reversed(old(a[..]))
  {
    var i: int, j: int := 0, a.Length - 1;
    while i < j
      invariant 0 <= i <= a.Length && i + j == a.Length - 1 && i <= j + 1
      invariant forall k :: 0 <= k < i ==> a[k] == old(a[a.Length - 1 - k]) && a[a.Length - 1 - k] == old(a[k])
      invariant forall k :: i <= k <= j ==> a[k] == old(a[k])
      decreases j - i
    {
      a[i], a[j] := a[j], a[i];
      i, j := i + 1, j - 1;
    }
  }

  /** A page of so many; asking for none still shows one. */
  method QueryEntries(ring: RingBuffer<LogEntry>, order: Visits, level: string, from: int, to: int, query: string,
    limit: nat)
    returns (result: array<LogEntry>)
    requires ring.Valid()
    ensures fresh(result)
    ensures var all := LastOf(ring.history, ring.buf.Length);
            var chosen := Selection(all, order, ToLower(TrimSpace(level)), from, to, ToLower(TrimSpace(query)));
            result[..] == LastOf(chosen, if limit == 0 then 1 else limit)
  {
    hide Selected, TrimSpace, ToLower;
    var all := ring.Snapshot();
    var level', query' := ToLower(TrimSpace(level)), ToLower(TrimSpace(query));
    var found := NewestFirst(all[..], order, level', from, to, query', limit);
    result := new LogEntry[|found|](i requires 0 <= i < |found| => found[i]);
    assert result[..] == found;
    ReverseInPlace(result);
  }

  /** Scan from the newest until the page is full. */
  method NewestFirst(all: seq<LogEntry>, order: Visits, level: string, from: int, to: int, query: string, limit: nat)
    returns (found: seq<LogEntry>)
    ensures Reversed(found) == LastOf(Selection(all, order, level, from, to, query),
                                      if limit == 0 then 1 else limit)
  {
    hide EntryMatches, LastOf, Reversed;
    ghost var size := if limit == 0 then 1 else limit;
    found := [];
    var i := |all|;
    assert all[..|all|] == all;
    assert Reversed(found) == [] by { NothingReversed(); }
    while i > 0
      invariant 0 <= i <= |all| && |found| < size
      invariant Selection(all, order, level, from, to, query)
                == Selection(all[..i], order, level, from, to, query) + Reversed(found)
    {
      i := i - 1;
      var e := all[i];
      assert all[..i + 1][..i] == all[..i];
      ghost var before := Selection(all[..i], order, level, from, to, query);
      var matches := Matches(e, order(i), from, to, query);
      if (level != "" && e.level != level) || !matches {
        assert before + [] == before;
        continue;
      }
      found := found + [e];
      ReversedLast(found[..|found| - 1], e);
      assert found[..|found| - 1] + [e] == found;
      assert before + [e] + Reversed(found[..|found| - 1]) == before + Reversed(found);
      if |found| >= limit {
        PageFull(before, Reversed(found), size);
        return;
      }
    }
    assert all[..0] == [];
    assert [] + Reversed(found) == Reversed(found);
    WholePage(Reversed(found), size);
  }

  /** Without a level, a range or a search everything is shown; and a level shows exactly its own entries of what is
      shown without one. */
  lemma {:induction false} Unfiltered(all: seq<LogEntry>, order: Visits, level: string, from: int, to: int,
    query: string)
    ensures Selection(all, order, "", 0, 0, "") == all
    ensures level != "" ==>
              Selection(all, order, level, from, to, query)
              == OfLevel(Selection(all, order, "", from, to, query), level)
  {
    if all != [] {
      var n := |all| - 1;
      Unfiltered(all[..n], order, level, from, to, query);
      assert all[..n] + [all[n]] == all;
      hide EntryMatches;
      var before := Selection(all[..n], order, "", from, to, query);
      assert (before + [all[n]])[..|before|] == before;
      assert before + [] == before;
    }
  }

  function OfLevel(shown: seq<LogEntry>, level: string): seq<LogEntry> {
    if shown == [] then []
    else OfLevel(shown[..|shown| - 1], level) + (if shown[|shown| - 1].level == level then [shown[|shown| - 1]] else [])
  }

  lemma NothingReversed()
    ensures Reversed<LogEntry>([]) == []
  {
  }

  lemma ReversedLast(found: seq<LogEntry>, e: LogEntry)
    ensures Reversed(found + [e]) == [e] + Reversed(found)
  {
  }

  lemma PageFull(before: seq<LogEntry>, page: seq<LogEntry>, size: nat)
    requires |page| == size
    ensures LastOf(before + page, size) == page
  {
  }

  lemma WholePage(page: seq<LogEntry>, size: nat)
    requires |page| <= size
    ensures LastOf(page, size) == page
  {
  }

  // ---- Counting by level ----

  function CountLevel(all: seq<LogEntry>, order: Visits, level: string, from: int, to: int, query: string): nat {
    if all == [] then 0
    else
      var n := |all| - 1;
      CountLevel(all[..n], order, level, from, to, query)
      + (if all[n].level == level && EntryMatches(all[n], order(n), from, to, query) then 1 else 0)
  }

  method CountEntries(ring: RingBuffer<LogEntry>, order: Visits, from: int, to: int, query: string)
    returns (counts: map<string, nat>)
    requires ring.Valid()
    ensures forall level :: (if level in counts then counts[level] else 0)
              == CountLevel(LastOf(ring.history, ring.buf.Length), order, level, from, to, ToLower(TrimSpace(query)))
    ensures forall level :: level in counts ==> counts[level] > 0
  {
    hide EntryMatches, TrimSpace, ToLower, LastOf;
    var query' := ToLower(TrimSpace(query));
    var snapshot := ring.Snapshot();
    var all := snapshot[..];
    counts := map[];
    for i := 0 to |all|
      invariant forall level ::
                (if level in counts then counts[level] else 0) == CountLevel(all[..i], order, level, from, to, query')
      invariant forall level :: level in counts ==> counts[level] > 0
    {
      assert all[..i + 1][..i] == all[..i];
      var e := all[i];
      var matches := Matches(e, order(i), from, to, query');
      if matches {
        counts := counts[e.level := (if e.level in counts then counts[e.level] else 0) + 1];
      }
    }
    assert all[..|all|] == all;
  }

  // ---- The list beside the counts: two calls, each visiting the values in an order of its own ----

  lemma InLeft(a: string, t: string, query: string, i: nat)
    requires i + |query| <= |a|
    ensures ContainsAt(a + t, query, i) <==> ContainsAt(a, query, i)
  {
    assert (a + t)[i..i + |query|] == a[i..i + |query|];
  }

  lemma InRight(a: string, t: string, query: string, i: nat)
    ensures ContainsAt(a + t, query, |a| + i) <==> ContainsAt(t, query, i)
  {
    if i + |query| <= |t| {
      assert (a + t)[|a| + i..|a| + i + |query|] == t[i..i + |query|];
    }
  }

  lemma Across(s: string, query: string, i: nat, k: nat)
    requires ContainsAt(s, query, i) && i <= k < i + |query|
    ensures query[k - i] == s[k]
  {
    assert s[i..i + |query|][k - i] == s[k];
  }

  /** Text without a space that is found across a space is found on one side of it. */
  lemma ContainsSplit(a: string, b: string, query: string)
    requires ' ' !in query && query != ""
    ensures ContainsText(a + " " + b, query) <==> ContainsText(a, query) || ContainsText(b, query)
  {
    var s, n := a + " " + b, |query|;
    assert s == a + (" " + b) && |a + " "| == |a| + 1 && s[|a|] == ' ';
    if ContainsText(s, query) {
      var i: nat :| i <= |s| && ContainsAt(s, query, i);
      if i + n <= |a| {
        InLeft(a, " " + b, query, i);
      } else if i <= |a| {
        Across(s, query, i, |a|);
      } else {
        InRight(a + " ", b, query, i - |a| - 1);
      }
    }
    hide ContainsAt;
    if ContainsText(a, query) {
      var i: nat :| i <= |a| && ContainsAt(a, query, i);
      Fits(a, query, i);
      InLeft(a, " " + b, query, i);
    }
    if ContainsText(b, query) {
      var i: nat :| i <= |b| && ContainsAt(b, query, i);
      InRight(a + " ", b, query, i);
    }
  }

  lemma Fits(s: string, query: string, i: nat)
    requires ContainsAt(s, query, i)
    ensures i + |query| <= |s|
  {
  }

  ghost predicate SomeHolds(values: seq<string>, query: string) {
    exists v :: v in values && ContainsText(ToLower(v), query)
  }

  /** A query without a space is found in the joined text exactly when the message or one value holds it. */
  lemma {:induction false} JoinedHolds(text: string, values: seq<string>, query: string)
    requires ' ' !in query && query != ""
    ensures ContainsText(text + Joined(values), query) <==> ContainsText(text, query) || SomeHolds(values, query)
    decreases |values|
  {
    hide ContainsText, ToLower;
    if values == [] {
      assert text + Joined(values) == text;
    } else {
      var v, rest := ToLower(values[0]), values[1..];
      assert text + Joined(values) == text + " " + (v + Joined(rest));
      ContainsSplit(text, v + Joined(rest), query);
      JoinedHolds(v, rest, query);
      assert values == [values[0]] + rest;
    }
  }

  /** So whatever order the values come in. */
  lemma {:induction false} OrderFree(e: LogEntry, a: seq<string>, b: seq<string>, from: int, to: int, query: string)
    requires ' ' !in query && multiset(a) == multiset(b)
    ensures EntryMatches(e, a, from, to, query) <==> EntryMatches(e, b, from, to, query)
  {
    hide ContainsText, ToLower;
    if query != "" {
      JoinedHolds(ToLower(e.message), a, query);
      JoinedHolds(ToLower(e.message), b, query);
      assert forall v :: v in a <==> v in multiset(a);
      assert forall v :: v in b <==> v in multiset(b);
    }
  }

  /** For a query without a space, each count is the size of the list of that level, though the two calls visit the
      values in different orders. */
  lemma {:induction false} CountsAgree(all: seq<LogEntry>, counted: Visits, listed: Visits, level: string, from: int,
    to: int, query: string)
    requires level != "" && ' ' !in query && Visit(all, counted) && Visit(all, listed)
    ensures CountLevel(all, counted, level, from, to, query) == |Selection(all, listed, level, from, to, query)|
  {
    hide EntryMatches;
    if all != [] {
      var n := |all| - 1;
      CountsAgree(all[..n], counted, listed, level, from, to, query);
      OrderFree(all[n], counted(n), listed(n), from, to, query);
    }
  }

  // ---- With a space in the query ----

  lemma LowerTwice(s: string)
    ensures ToLower(ToLower(s)) == ToLower(s)
    ensures forall i :: 0 <= i < |s| ==> (ToLower(s)[i] == ' ' <==> s[i] == ' ')
  {
  }

  /** What the server searches for: lower-case, without outer space. */
  lemma QueryEnds(query: string)
    ensures var q := ToLower(TrimSpace(query));
            ToLower(q) == q && (q != "" ==> q[0] != ' ' && q[|q| - 1] != ' ')
  {
    hide ToLower, TrimLeft, TrimRight;
    TrimmedEnds(query);
    TrimmedEnds(TrimLeft(query));
    LowerTwice(TrimSpace(query));
  }

  /** The first space of a query. */
  lemma {:induction false} FirstSpace(q: string) returns (k: nat)
    requires ' ' in q
    ensures k < |q| && q[k] == ' ' && ' ' !in q[..k]
  {
    if q[0] == ' ' {
      k := 0;
    } else {
      var rest := FirstSpace(q[1..]);
      k := rest + 1;
      assert q[..k] == [q[0]] + q[1..][..rest];
    }
  }

  lemma {:induction false} ShiftedSpaces(b: string, n: nat)
    requires n < |b| && b[0] == ' ' && forall j :: 1 <= j < |b| ==> b[j] == b[j - 1]
    ensures b[n] == ' '
  {
    if n > 0 { ShiftedSpaces(b, n - 1); }
  }

  /** Two words side by side, and with one more space between them. */
  ghost function Narrow(a: string, b: string): string {
    a + " " + b
  }

  ghost function Wide(a: string, b: string): string {
    " " + a + "  " + b
  }

  lemma NarrowChars(a: string, b: string)
    ensures var q := Narrow(a, b);
            && |q| == |a| + 1 + |b| && (forall k :: 0 <= k < |a| ==> q[k] == a[k])
            && (forall k :: 0 <= k < |b| ==> q[|a| + 1 + k] == b[k])
  {
  }

  lemma WideChars(a: string, b: string)
    ensures var s := Wide(a, b);
            && |s| == |a| + 3 + |b| && s[0] == ' ' && s[|a| + 1] == ' ' && s[|a| + 2] == ' '
            && (forall k :: 0 <= k < |b| ==> s[|a| + 3 + k] == b[k])
  {
    var u := " " + a + "  ";
    assert |u| == |a| + 3 && u[0] == ' ' && u[|a| + 1] == ' ' && u[|a| + 2] == ' ';
    assert forall k :: 0 <= k < |b| ==> (u + b)[|u| + k] == b[k];
  }

  /** One more space in the middle, and the words are not found. */
  lemma WiderMisses(a: string, b: string)
    requires a != "" && ' ' !in a && b != "" && b[|b| - 1] != ' '
    ensures !ContainsText(Wide(a, b), Narrow(a, b))
  {
    hide ContainsAt, Wide, Narrow;
    NarrowChars(a, b);
    WideChars(a, b);
    assert forall k :: 0 <= k < |a| ==> a[k] in a;
    if ContainsText(Wide(a, b), Narrow(a, b)) {
      var i: nat :| i <= |Wide(a, b)| && ContainsAt(Wide(a, b), Narrow(a, b), i);
      WiderMissesAt(Wide(a, b), Narrow(a, b), |a|, b, i);
    }
  }

  lemma WiderMissesAt(s: string, q: string, n: nat, b: string, i: nat)
    requires n > 0 && b != "" && b[|b| - 1] != ' ' && |q| == n + 1 + |b| && |s| == |q| + 2
    requires s[0] == ' ' && s[n + 1] == ' ' && s[n + 2] == ' ' && forall k :: 0 <= k < n ==> q[k] != ' '
    requires forall k :: 0 <= k < |b| ==> q[n + 1 + k] == b[k]
    requires forall k :: 0 <= k < |b| ==> s[n + 3 + k] == b[k]
    ensures !ContainsAt(s, q, i)
  {
    if ContainsAt(s, q, i) {
      if i == 0 {
        Across(s, q, 0, 0);
      } else if i == 2 {
        Across(s, q, 2, n + 1);
      } else {
        Across(s, q, 1, n + 2);
        assert b[0] == q[n + 1 + 0];
        forall j | 1 <= j < |b|
          ensures b[j] == b[j - 1]
        {
          Across(s, q, 1, n + 2 + j);
          assert q[n + 1 + j] == b[j] && s[n + 3 + (j - 1)] == b[j - 1];
        }
        ShiftedSpaces(b, |b| - 1);
      }
    }
  }

  /** For every query with a space, an entry that the list shows and the count misses. */
  lemma {:induction false} SpaceDisagrees(query: string) returns (e: LogEntry, listed: Visits, counted: Visits)
    requires ' ' in ToLower(TrimSpace(query))
    ensures Visit([e], listed) && Visit([e], counted) && e.level != ""
    ensures CountLevel([e], counted, e.level, 0, 0, ToLower(TrimSpace(query))) == 0
    ensures |Selection([e], listed, e.level, 0, 0, ToLower(TrimSpace(query)))| == 1
  {
    var q := ToLower(TrimSpace(query));
    hide TrimSpace, ToLower, ContainsText;
    QueryEnds(query);
    var k := FirstSpace(q);
    var a, b := q[..k], q[k + 1..];
    assert q == Narrow(a, b);
    hide Narrow, TextOf;
    assert b != "" && b[|b| - 1] == q[|q| - 1];
    e := LogEntry(0, "info", "", [a, b, ""]);
    listed, counted := _ => [a, b, ""], _ => [a, "", b];
    OrderMatters(e, a, b);
    assert [e][..0] == [];
    assert multiset([a, "", b]) == multiset([a, b, ""]);
  }

  /** Two words are found side by side, and not with an empty value between them. */
  lemma OrderMatters(e: LogEntry, a: string, b: string)
    requires e.message == "" && a != "" && ' ' !in a && b != "" && b[|b| - 1] != ' '
    requires ToLower(Narrow(a, b)) == Narrow(a, b)
    ensures ContainsText(TextOf(e, [a, b, ""]), Narrow(a, b)) && !ContainsText(TextOf(e, [a, "", b]), Narrow(a, b))
  {
    hide ContainsText;
    LowerParts(a, b);
    SideBySide(e, a, b);
    KeptApart(e, a, b);
    hide Narrow, Wide, ToLower, TextOf;
    WiderMisses(a, b);
    Found(Narrow(a, b));
  }

  lemma SideBySide(e: LogEntry, a: string, b: string)
    requires e.message == "" && ToLower(a) == a && ToLower(b) == b && ToLower("") == ""
    ensures TextOf(e, [a, b, ""]) == " " + Narrow(a, b) + " "
  {
    hide ToLower;
    JoinedThree(a, b, "");
    hide Joined;
    assert " " + a + " " + b + " " + "" == " " + (a + " " + b) + " ";
  }

  lemma KeptApart(e: LogEntry, a: string, b: string)
    requires e.message == "" && ToLower(a) == a && ToLower(b) == b && ToLower("") == ""
    ensures TextOf(e, [a, "", b]) == Wide(a, b)
  {
    hide ToLower;
    JoinedThree(a, "", b);
    hide Joined;
    assert " " + a + " " + "" + " " + b == " " + a + "  " + b;
  }

  lemma LowerParts(a: string, b: string)
    requires ToLower(Narrow(a, b)) == Narrow(a, b)
    ensures ToLower(a) == a && ToLower(b) == b && ToLower("") == ""
  {
    var q := a + " " + b;
    forall i | 0 <= i < |a|
      ensures ToLower(a)[i] == a[i]
    {
      assert q[i] == a[i] && ToLower(q)[i] == LowerChar(q[i]);
    }
    forall i | 0 <= i < |b|
      ensures ToLower(b)[i] == b[i]
    {
      assert q[|a| + 1 + i] == b[i] && ToLower(q)[|a| + 1 + i] == LowerChar(q[|a| + 1 + i]);
    }
  }

  lemma JoinedThree(a: string, b: string, c: string)
    requires ToLower(a) == a && ToLower(b) == b && ToLower(c) == c
    ensures Joined([a, b, c]) == " " + a + " " + b + " " + c
  {
    assert [a, b, c][1..] == [b, c] && [b, c][1..] == [c] && [c][1..] == [];
    assert Joined([c]) == " " + c && Joined([b, c]) == " " + b + Joined([c]);
  }

  lemma Found(q: string)
    ensures ContainsText(" " + q + " ", q)
  {
    assert ContainsAt(" " + q + " ", q, 1);
  }

  /** The query x y, and an entry with the values x and y: one call shows it, another misses it. */
  lemma {:induction false} TwoWordsExample(e: LogEntry)
    requires e.message == "" && e.attrs == ["x", "y"]
    ensures EntryMatches(e, ["x", "y"], 0, 0, "x y") && !EntryMatches(e, ["y", "x"], 0, 0, "x y")
    ensures multiset(["y", "x"]) == multiset(e.attrs)
  {
    assert ToLower("x") == "x" && ToLower("y") == "y" && ToLower("") == "";
    hide ToLower;
    JoinedTwo("x", "y");
    JoinedTwo("y", "x");
    hide Joined;
    assert " " + "x" + " " + "y" == " x y" && " " + "y" + " " + "x" == " y x";
    assert ToLower("") == "" by { LowerTwice(""); }
    assert TextOf(e, ["x", "y"]) == " x y" && TextOf(e, ["y", "x"]) == " y x";
    assert ContainsAt(" x y", "x y", 1);
    assert " y x"[0] == ' ' && " y x"[1] == 'y' && "x y"[0] == 'x';
    hide ContainsAt;
    if i: nat :| i <= |" y x"| && ContainsAt(" y x", "x y", i) {
      Fits(" y x", "x y", i);
      Across(" y x", "x y", i, i);
    }
  }

  lemma JoinedTwo(a: string, b: string)
    requires ToLower(a) == a && ToLower(b) == b
    ensures Joined([a, b]) == " " + a + " " + b
  {
    assert [a, b][1..] == [b] && [b][1..] == [];
    assert Joined([b]) == " " + b;
  }

  /** Whatever the buffer, the range and the two orders, each count is the size of its list. */
  ghost predicate AlwaysAgree(query: string) {
    forall all, counted, listed, level, from, to :: level != "" && Visit(all, counted) && Visit(all, listed) ==>
      CountLevel(all, counted, level, from, to, query) == |Selection(all, listed, level, from, to, query)|
  }

  /** That holds exactly for the queries without a space inside. */
  lemma {:induction false} AgreeExact(query: string)
    ensures AlwaysAgree(ToLower(TrimSpace(query))) <==> ' ' !in ToLower(TrimSpace(query))
  {
    hide ToLower, TrimSpace, CountLevel, Selection;
    var q := ToLower(TrimSpace(query));
    if ' ' in q {
      var e, listed, counted := SpaceDisagrees(query);
      assert !AlwaysAgree(q);
    } else {
      forall all, counted, listed, level, from, to | level != "" && Visit(all, counted) && Visit(all, listed)
        ensures CountLevel(all, counted, level, from, to, q) == |Selection(all, listed, level, from, to, q)|
      {
        CountsAgree(all, counted, listed, level, from, to, q);
      }
    }
  }
}
