// Laws of the talkgroup import: it is idempotent, its counts add up, filling
// keeps what is there, and overwriting takes what the file has.
module TalkgroupImportTheorems {
  import opened Common
  import opened NaturalKeys
  import opened Text
  import opened TalkgroupImport

  // ---- Label tables and their index ----

  /** Every label is found by its name; of labels that differ only by case, the last in label order. */
  ghost predicate Indexes(index: map<string, Pk>, table: map<Pk, string>) {
    && (forall k :: k in index ==> index[k] in table && ToLower(table[index[k]]) == k)
    && (forall pk :: pk in table ==> ToLower(table[pk]) in index && AtMost(table[pk], table[index[ToLower(table[pk])]]))
  }

  ghost predicate GoodLabels(b: Labels) {
    Injective(b.table) && (forall pk :: pk in b.table ==> pk.n < b.next) && Indexes(b.index, b.table)
  }

  lemma IndexUnique(a: map<string, Pk>, b: map<string, Pk>, table: map<Pk, string>)
    requires Injective(table) && Indexes(a, table) && Indexes(b, table)
    ensures a == b
  {
    hide ToLower, AtMost;
    forall k | k in a
      ensures k in b && a[k] == b[k]
    {
      AtMostBoth(table[a[k]], table[b[k]]);
    }
    forall k | k in b
      ensures k in a
    {
      assert ToLower(table[b[k]]) == k;
    }
  }

  /** Where in the listing each indexed label is: the last place with its name. */
  lemma {:induction false} IndexPlaces(rows: seq<Row<string>>) returns (at: map<string, nat>)
    ensures at.Keys == IndexOf(rows).Keys
    ensures forall k :: k in at ==>
            at[k] < |rows| && rows[at[k]].id == IndexOf(rows)[k] && ToLower(rows[at[k]].value) == k
    ensures forall i :: 0 <= i < |rows| ==> ToLower(rows[i].value) in at && i <= at[ToLower(rows[i].value)]
  {
    hide ToLower;
    if rows == [] {
      at := map[];
    } else {
      var n := |rows| - 1;
      at := IndexPlaces(rows[..n]);
      at := at[ToLower(rows[n].value) := n];
    }
  }

  /** The index built from a label listing finds every label. */
  lemma {:induction false} ListingIndexes(rows: seq<Row<string>>, table: map<Pk, string>)
    requires Listing(rows, table)
    ensures Indexes(IndexOf(rows), table)
  {
    hide ToLower, AtMost, IndexOf;
    var at := IndexPlaces(rows);
    forall pk | pk in table
      ensures ToLower(table[pk]) in IndexOf(rows) && AtMost(table[pk], table[IndexOf(rows)[ToLower(table[pk])]])
    {
      assert Row(pk, table[pk]) in rows;
      var i :| 0 <= i < |rows| && rows[i] == Row(pk, table[pk]);
      var j := at[ToLower(table[pk])];
      if i == j { AtMostSelf(table[pk]); }
    }
  }

  lemma ResolvedGood(b: Labels, name: string)
    requires GoodLabels(b)
    ensures GoodLabels(Resolved(b, name))
    ensures Key(name) in Resolved(b, name).index && Resolved(b, name).index[Key(name)] in Resolved(b, name).table
    ensures ToLower(Resolved(b, name).table[Resolved(b, name).index[Key(name)]]) == Key(name)
  {
    hide ToLower, AtMost, TrimSpace;
    AtMostSelf(TrimSpace(name));
  }

  /** Names found before are found in the same place. */
  ghost predicate Extends(b: Labels, b': Labels) {
    && (forall k :: k in b.index ==> k in b'.index && b'.index[k] == b.index[k])
    && (forall pk :: pk in b.table ==> pk in b'.table && b'.table[pk] == b.table[pk])
  }

  lemma ResolvedExtends(b: Labels, name: Option<string>)
    requires GoodLabels(b)
    ensures Extends(b, ResolvedAny(b, name)) && GoodLabels(ResolvedAny(b, name))
  {
    hide ToLower, AtMost, TrimSpace;
    if name.Some? { ResolvedGood(b, name.value); }
  }

  ghost predicate GoodRefs(books: Books, f: Fields) {
    && (f.group.Some? ==> f.group.value in books.groups.table)
    && (f.tag.Some? ==> f.tag.value in books.tags.table)
  }

  ghost predicate Good(books: Books) {
    && GoodLabels(books.groups) && GoodLabels(books.tags)
    && forall id :: id in books.rows ==> GoodRefs(books, books.rows[id])
  }

  lemma AppliedLabels(books: Books, row: ImportRow, mode: Mode)
    requires Good(books)
    ensures var b := Applied(books, row, mode);
            && GoodLabels(b.groups) && GoodLabels(b.tags) && Extends(books.groups, b.groups)
               && Extends(books.tags, b.tags)
  {
    hide GoodLabels, Resolved, ResolvedAny, Extends, NewFields, NextFields;
    ResolvedExtends(books.groups, row.group);
    ResolvedExtends(books.tags, row.tag);
    if row.id in books.rows {
      ResolvedExtends(books.groups, Taken(books.rows[row.id].group, row.group, mode));
      ResolvedExtends(books.tags, Taken(books.rows[row.id].tag, row.tag, mode));
    }
  }

  lemma IdIn(b: Labels, name: Option<string>)
    requires GoodLabels(b)
    ensures IdAny(b, name).Some? ==> IdAny(b, name).value in ResolvedAny(b, name).table
  {
    hide ToLower, AtMost, TrimSpace;
    if name.Some? { ResolvedGood(b, name.value); }
  }

  lemma AppliedGood(books: Books, row: ImportRow, mode: Mode)
    requires Good(books)
    ensures Good(Applied(books, row, mode))
  {
    hide GoodLabels, Resolved, ResolvedAny, SetText, SetFrequency, SetOrder, TrimmedText;
    AppliedLabels(books, row, mode);
    IdIn(books.groups, row.group);
    IdIn(books.tags, row.tag);
    if row.id in books.rows {
      IdIn(books.groups, Taken(books.rows[row.id].group, row.group, mode));
      IdIn(books.tags, Taken(books.rows[row.id].tag, row.tag, mode));
    }
  }

  // ---- Idempotence ----

  /** Applying the row changes nothing. */
  ghost predicate Stable(books: Books, row: ImportRow, mode: Mode) {
    row.id in books.rows && Applied(books, row, mode) == books
  }

  lemma ResolvedTwice(b: Labels, name: Option<string>)
    ensures ResolvedAny(ResolvedAny(b, name), name) == ResolvedAny(b, name)
    ensures IdAny(ResolvedAny(b, name), name) == IdAny(b, name)
  {
  }

  lemma SetTextTwice(now: Option<string>, v: Option<string>, mode: Mode)
    ensures SetText(SetText(now, v, mode), v, mode) == SetText(now, v, mode)
    ensures SetText(v, v, mode) == v
  {
    hide TrimSpace;
  }

  lemma SetLabelTwice(b: Labels, now: Option<Pk>, name: Option<string>, mode: Mode)
    ensures var b', next := ResolvedAny(b, Taken(now, name, mode)), SetLabel(b, now, name, mode);
            ResolvedAny(b', Taken(next, name, mode)) == b' && SetLabel(b', next, name, mode) == next
  {
    hide Resolved;
    ResolvedTwice(b, Taken(now, name, mode));
    ResolvedTwice(b, name);
  }

  lemma NewLabelTwice(b: Labels, name: Option<string>, mode: Mode)
    ensures var b', next := ResolvedAny(b, name), IdAny(b, name);
            ResolvedAny(b', Taken(next, name, mode)) == b' && SetLabel(b', next, name, mode) == next
  {
    hide Resolved;
    ResolvedTwice(b, name);
  }

  lemma AppliedStable(books: Books, row: ImportRow, mode: Mode)
    ensures Stable(Applied(books, row, mode), row, mode)
  {
    hide ResolvedAny, Taken, SetLabel, SetText, TrimmedText, IdAny;
    var b := Applied(books, row, mode);
    if row.id in books.rows {
      var now := books.rows[row.id];
      SetTextTwice(now.labelText, TrimmedText(row.labelText), mode);
      SetTextTwice(now.name, TrimmedText(row.name), mode);
      SetTextTwice(now.led, row.led, mode);
      SetLabelTwice(books.groups, now.group, row.group, mode);
      SetLabelTwice(books.tags, now.tag, row.tag, mode);
    } else {
      SetTextTwice(None, TrimmedText(row.labelText), mode);
      SetTextTwice(None, TrimmedText(row.name), mode);
      SetTextTwice(None, row.led, mode);
      NewLabelTwice(books.groups, row.group, mode);
      NewLabelTwice(books.tags, row.tag, mode);
    }
    assert NextFields(b, b.rows[row.id], row, mode) == b.rows[row.id];
  }

  /** What is resolved stays resolved when labels are added. */
  lemma ResolvedStays(b: Labels, b': Labels, name: Option<string>)
    requires Extends(b, b') && ResolvedAny(b, name) == b
    ensures ResolvedAny(b', name) == b' && IdAny(b', name) == IdAny(b, name)
  {
    if name.Some? {
      ResolvedKnown(b, name.value);
    }
  }

  lemma ResolvedKnown(b: Labels, name: string)
    ensures Resolved(b, name) == b ==> Key(name) in b.index
  {
  }

  lemma StableKept(books: Books, row: ImportRow, other: ImportRow, mode: Mode)
    requires Good(books) && Stable(books, row, mode) && other.id != row.id
    ensures Stable(Applied(books, other, mode), row, mode)
  {
    hide ResolvedAny, Taken, SetText, TrimmedText, IdAny, GoodLabels, Extends, NewFields;
    var b, now := Applied(books, other, mode), books.rows[row.id];
    AppliedLabels(books, other, mode);
    ResolvedStays(books.groups, b.groups, Taken(now.group, row.group, mode));
    ResolvedStays(books.tags, b.tags, Taken(now.tag, row.tag, mode));
    assert NextFields(books, now, row, mode) == now;
    assert NextFields(b, now, row, mode) == now;
  }

  ghost predicate First(rows: seq<ImportRow>, i: nat)
    requires i < |rows|
  {
    rows[i].id !in Ids(rows[..i])
  }

  lemma {:induction false} AllGood(books: Books, rows: seq<ImportRow>, mode: Mode)
    requires Good(books)
    ensures Good(AllApplied(books, rows, mode))
  {
    hide Good, Applied;
    if rows != [] {
      AllGood(books, rows[..|rows| - 1], mode);
      AppliedGood(AllApplied(books, rows[..|rows| - 1], mode), rows[|rows| - 1], mode);
    }
  }

  lemma {:induction false} AllStable(books: Books, rows: seq<ImportRow>, mode: Mode, i: nat)
    requires Good(books) && i < |rows| && First(rows, i)
    ensures Stable(AllApplied(books, rows, mode), rows[i], mode)
    decreases |rows|
  {
    hide Good, Applied, Stable;
    var n := |rows| - 1;
    var before, b := rows[..n], AllApplied(books, rows[..n], mode);
    if i == n {
      AppliedStable(b, rows[n], mode);
    } else {
      assert before[..i] == rows[..i];
      AllStable(books, before, mode, i);
      AllGood(books, before, mode);
      if rows[n].id !in Ids(before) {
        assert before[i].id in Ids(before);
        StableKept(b, rows[i], rows[n], mode);
      }
    }
  }

  lemma {:induction false} NothingLeft(b: Books, rows: seq<ImportRow>, mode: Mode, n: nat)
    requires n <= |rows| && forall i :: 0 <= i < |rows| && First(rows, i) ==> Stable(b, rows[i], mode)
    ensures AllApplied(b, rows[..n], mode) == b
    ensures CountOf(b, rows[..n], mode, Created) == 0 && CountOf(b, rows[..n], mode, Updated) == 0
  {
    hide Applied;
    if n > 0 {
      NothingLeft(b, rows, mode, n - 1);
      assert rows[..n][..n - 1] == rows[..n - 1];
      if First(rows, n - 1) {
        assert Stable(b, rows[n - 1], mode);
        StableOutcome(b, rows[n - 1], mode);
      }
    }
  }

  lemma StableOutcome(b: Books, row: ImportRow, mode: Mode)
    requires Stable(b, row, mode)
    ensures OutcomeOf(b, row, mode) == Unchanged
  {
    assert Applied(b, row, mode).rows[row.id] == NextFields(b, b.rows[row.id], row, mode);
  }

  /** The same import again, from the tables the first one left, creates and updates nothing. */
  lemma {:induction false} ImportIdempotent(books: Books, rows: seq<ImportRow>, mode: Mode,
    groupListing: seq<Row<string>>, tagListing: seq<Row<string>>)
    requires Good(books)
    requires var b := AllApplied(books, rows, mode);
             Listing(groupListing, b.groups.table) && Listing(tagListing, b.tags.table)
    ensures var b := AllApplied(books, rows, mode);
            var again := b.(groups := b.groups.(index := IndexOf(groupListing)),
              tags := b.tags.(index := IndexOf(tagListing)));
            && again == b && AllApplied(again, rows, mode) == b
            && CountOf(again, rows, mode, Created) == 0 && CountOf(again, rows, mode, Updated) == 0
            && CountOf(again, rows, mode, Unchanged) == |Ids(rows)|
  {
    hide Applied, Stable, Indexes, IndexOf, Listing;
    var b := AllApplied(books, rows, mode);
    AllGood(books, rows, mode);
    ListingIndexes(groupListing, b.groups.table);
    ListingIndexes(tagListing, b.tags.table);
    IndexUnique(b.groups.index, IndexOf(groupListing), b.groups.table);
    IndexUnique(b.tags.index, IndexOf(tagListing), b.tags.table);
    hide Good;
    forall i | 0 <= i < |rows| && First(rows, i)
      ensures Stable(b, rows[i], mode)
    {
      AllStable(books, rows, mode, i);
    }
    NothingLeft(b, rows, mode, |rows|);
    assert rows[..|rows|] == rows;
    CountsAddUp(b, rows, mode);
  }

  // ---- Counting ----

  lemma LastId(rows: seq<ImportRow>)
    requires rows != []
    ensures Ids(rows) == Ids(rows[..|rows| - 1]) + {rows[|rows| - 1].id}
  {
    var n := |rows| - 1;
    assert rows == rows[..n] + [rows[n]];
    forall id | id in Ids(rows[..n]) + {rows[n].id}
      ensures id in Ids(rows)
    {
      if id in Ids(rows[..n]) {
        var i :| 0 <= i < n && rows[..n][i].id == id;
        assert rows[i].id == id;
      }
    }
  }

  /** Created, updated and unchanged add up to the distinct ids. */
  lemma {:induction false} CountsAddUp(books: Books, rows: seq<ImportRow>, mode: Mode)
    ensures CountOf(books, rows, mode, Created) + CountOf(books, rows, mode, Updated)
            + CountOf(books, rows, mode, Unchanged) == |Ids(rows)|
  {
    hide OutcomeOf, AllApplied;
    if rows != [] {
      CountsAddUp(books, rows[..|rows| - 1], mode);
      LastId(rows);
    }
  }

  // ---- Rows of other talkgroups ----

  /** A row the file does not have is left alone. */
  lemma {:induction false} OthersKept(books: Books, rows: seq<ImportRow>, mode: Mode, id: TgId)
    requires id !in Ids(rows)
    ensures id in AllApplied(books, rows, mode).rows <==> id in books.rows
    ensures id in books.rows ==> AllApplied(books, rows, mode).rows[id] == books.rows[id]
  {
    if rows != [] {
      LastId(rows);
      OthersKept(books, rows[..|rows| - 1], mode, id);
    }
  }

  // ---- Filling ----

  ghost predicate TextKept(a: Option<string>, b: Option<string>) {
    TrimSpace(OrElse(a, "")) != "" ==> b == a
  }

  /** Every field that holds something is as it was. */
  ghost predicate FilledOnly(f: Fields, f': Fields) {
    && TextKept(f.labelText, f'.labelText) && TextKept(f.name, f'.name) && TextKept(f.led, f'.led)
    && (f.frequency.Some? ==> f'.frequency == f.frequency) && (f.group.Some? ==> f'.group == f.group)
         && (f.tag.Some? ==> f'.tag == f.tag)
    && f'.order == f.order
  }

  lemma FillKeepsRow(books: Books, f: Fields, row: ImportRow)
    ensures FilledOnly(f, NextFields(books, f, row, Fill))
  {
    hide TrimSpace, Resolved, TrimmedText;
  }

  /** Filling never changes a field that holds something. */
  lemma {:induction false} FillKeeps(books: Books, rows: seq<ImportRow>, id: TgId)
    requires id in books.rows
    ensures id in AllApplied(books, rows, Fill).rows
            && FilledOnly(books.rows[id], AllApplied(books, rows, Fill).rows[id])
  {
    hide TrimSpace, ResolvedAny, IdAny, TrimmedText, NextFields;
    if rows != [] {
      var b, row := AllApplied(books, rows[..|rows| - 1], Fill), rows[|rows| - 1];
      FillKeeps(books, rows[..|rows| - 1], id);
      FillKeepsRow(b, b.rows[id], row);
    }
  }

  // ---- Overwriting ----

  ghost predicate TextTaken(v: Option<string>, f: Option<string>, f': Option<string>) {
    if v.Some? then OrElse(f', "") == v.value else f' == f
  }

  ghost predicate LabelTaken(b: Labels, name: Option<string>, f: Option<Pk>, f': Option<Pk>) {
    if name.Some? then f'.Some? && f'.value in b.table && ToLower(b.table[f'.value]) == Key(name.value) else f' == f
  }

  /** The row's fields where the file gives them, the old ones elsewhere. */
  ghost predicate FileTaken(b: Books, row: ImportRow, f: Fields, f': Fields) {
    && TextTaken(TrimmedText(row.labelText), f.labelText, f'.labelText)
       && TextTaken(TrimmedText(row.name), f.name, f'.name)
    && TextTaken(row.led, f.led, f'.led)
    && (if row.frequency.Some? then OrElse(f'.frequency, 0) == row.frequency.value else f'.frequency == f.frequency)
    && (f'.order == if row.order.Some? then row.order.value else f.order)
    && LabelTaken(b.groups, row.group, f.group, f'.group) && LabelTaken(b.tags, row.tag, f.tag, f'.tag)
  }

  lemma LabelIsTaken(b: Labels, name: Option<string>, now: Option<Pk>)
    requires GoodLabels(b)
    ensures LabelTaken(ResolvedAny(b, name), name, now, SetLabel(b, now, name, Overwrite))
  {
    hide TrimSpace, ToLower, AtMost;
    if name.Some? { ResolvedGood(b, name.value); }
  }

  /** Overwriting a row takes everything the file has for it. */
  lemma {:induction false} OverwriteTakes(books: Books, row: ImportRow)
    requires Good(books) && row.id in books.rows
    ensures FileTaken(Applied(books, row, Overwrite), row, books.rows[row.id],
            Applied(books, row, Overwrite).rows[row.id])
  {
    hide TrimSpace, GoodLabels, TrimmedText, LabelTaken, ResolvedAny, SetLabel;
    LabelIsTaken(books.groups, row.group, books.rows[row.id].group);
    LabelIsTaken(books.tags, row.tag, books.rows[row.id].tag);
  }
}
