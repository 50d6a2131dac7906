// What a whole CSV import leaves in each talkgroup, and what its review says
// in words.
module ImportMeaning {
  import opened Common
  import opened NaturalKeys
  import opened Text
  import opened TalkgroupImport
  import opened TalkgroupImportTheorems
  import opened TalkgroupImportPreview
  import opened UnitImport
  import opened LabelImport

  // ---- What a talkgroup holds afterwards ----

  /** Text the row gives is there, unless filling found some already; else nothing changed. */
  predicate TextHolds(was: Option<string>, given: Option<string>, mode: Mode, after: Option<string>) {
    if given.None? || (mode.Fill? && was.Some? && TrimSpace(was.value) != "") then after == was
    else after == given || (after == was == None && given == Some(""))
  }

  /** Label and name are taken without the space around them, and blank ones not at all. */
  predicate TrimmedHolds(was: Option<string>, given: Option<string>, mode: Mode, after: Option<string>) {
    if given.Some? && TrimSpace(given.value) != "" then TextHolds(was, Some(TrimSpace(given.value)), mode, after)
    else after == was
  }

  /** The reference is to a label equal to the name ignoring case, unless filling found one already. */
  predicate LabelHolds(table: map<Pk, string>, was: Option<Pk>, given: Option<string>, mode: Mode, after: Option<Pk>) {
    if given.None? || (mode.Fill? && was.Some?) then after == was
    else after.Some? && after.value in table && ToLower(table[after.value]) == ToLower(TrimSpace(given.value))
  }

  /** What row leaves in a talkgroup that had these fields. */
  predicate RowHolds(b: Books, was: Fields, row: ImportRow, mode: Mode, after: Fields) {
    && TrimmedHolds(was.labelText, row.labelText, mode, after.labelText)
    && TrimmedHolds(was.name, row.name, mode, after.name)
    && TextHolds(was.led, row.led, mode, after.led)
    && (if row.frequency.None? || (mode.Fill? && was.frequency.Some?)
        || (was.frequency.None? && row.frequency == Some(0))
        then after.frequency == was.frequency else after.frequency == row.frequency)
    && after.order == (if row.order.Some? && mode.Overwrite? then row.order.value else was.order)
    && LabelHolds(b.groups.table, was.group, row.group, mode, after.group)
    && LabelHolds(b.tags.table, was.tag, row.tag, mode, after.tag)
  }

  /** What row leaves in a talkgroup it creates. */
  predicate RowMakes(b: Books, row: ImportRow, after: Fields) {
    && TrimmedHolds(None, row.labelText, Overwrite, after.labelText)
    && TrimmedHolds(None, row.name, Overwrite, after.name)
    && after.led == row.led && after.frequency == row.frequency
    && after.order == (if row.order.Some? then row.order.value else 0)
    && LabelHolds(b.groups.table, None, row.group, Overwrite, after.group)
    && LabelHolds(b.tags.table, None, row.tag, Overwrite, after.tag)
  }

  /** After a whole import each talkgroup holds what the first row with its id says. */
  lemma {:induction false} EachRowHolds(books: Books, rows: seq<ImportRow>, mode: Mode, i: nat)
    requires Good(books) && i < |rows| && rows[i].id !in Ids(rows[..i])
    ensures var b := AllApplied(books, rows, mode);
            && rows[i].id in b.rows
            && if rows[i].id in books.rows then RowHolds(b, books.rows[rows[i].id], rows[i], mode, b.rows[rows[i].id])
               else RowMakes(b, rows[i], b.rows[rows[i].id])
    decreases |rows|
  {
    hide Applied, GoodLabels, RowHolds, RowMakes, Good, Extends;
    var before, row := rows[..|rows| - 1], rows[|rows| - 1];
    var b := AllApplied(books, before, mode);
    AllGood(books, before, mode);
    if i == |rows| - 1 {
      OthersKept(books, before, mode, row.id);
      if row.id in b.rows { NowHolds(b, row, mode); } else { NowMakes(b, row, mode); }
    } else {
      assert before[..i] == rows[..i] && before[i] == rows[i];
      EachRowHolds(books, before, mode, i);
      if row.id !in Ids(before) {
        assert rows[i].id != row.id;
        OthersStay(b, row, mode, rows[i].id);
        assert Extends(b.groups, Applied(b, row, mode).groups) && Extends(b.tags, Applied(b, row, mode).tags)
          by { AppliedLabels(b, row, mode); }
        if rows[i].id in books.rows {
          StillHolds(b, Applied(b, row, mode), books.rows[rows[i].id], rows[i], mode, b.rows[rows[i].id]);
        } else {
          StillMakes(b, Applied(b, row, mode), rows[i], b.rows[rows[i].id]);
        }
      }
    }
  }

  lemma OthersStay(b: Books, row: ImportRow, mode: Mode, id: TgId)
    requires id in b.rows && id != row.id
    ensures id in Applied(b, row, mode).rows && Applied(b, row, mode).rows[id] == b.rows[id]
  {
    hide NewFields, NextFields, ResolvedAny, Taken;
  }

  lemma LabelStill(a: Labels, b: Labels, was: Option<Pk>, given: Option<string>, mode: Mode, after: Option<Pk>)
    requires Extends(a, b) && LabelHolds(a.table, was, given, mode, after)
    ensures LabelHolds(b.table, was, given, mode, after)
  {
    hide ToLower, TrimSpace;
  }

  lemma StillHolds(a: Books, b: Books, was: Fields, row: ImportRow, mode: Mode, after: Fields)
    requires Extends(a.groups, b.groups) && Extends(a.tags, b.tags) && RowHolds(a, was, row, mode, after)
    ensures RowHolds(b, was, row, mode, after)
  {
    hide Extends, LabelHolds, TextHolds, TrimmedHolds;
    LabelStill(a.groups, b.groups, was.group, row.group, mode, after.group);
    LabelStill(a.tags, b.tags, was.tag, row.tag, mode, after.tag);
  }

  lemma StillMakes(a: Books, b: Books, row: ImportRow, after: Fields)
    requires Extends(a.groups, b.groups) && Extends(a.tags, b.tags) && RowMakes(a, row, after)
    ensures RowMakes(b, row, after)
  {
    hide Extends, LabelHolds, TextHolds, TrimmedHolds;
    LabelStill(a.groups, b.groups, None, row.group, Overwrite, after.group);
    LabelStill(a.tags, b.tags, None, row.tag, Overwrite, after.tag);
  }

  lemma LabelNow(b: Labels, was: Option<Pk>, given: Option<string>, mode: Mode)
    requires GoodLabels(b)
    ensures LabelHolds(ResolvedAny(b, Taken(was, given, mode)).table, was, given, mode, SetLabel(b, was, given, mode))
  {
    hide GoodLabels, TrimSpace, ToLower;
    if given.Some? { ResolvedGood(b, given.value); }
  }

  lemma TextNow(was: Option<string>, given: Option<string>, mode: Mode)
    ensures TextHolds(was, given, mode, SetText(was, given, mode))
    ensures TrimmedHolds(was, given, mode, SetText(was, TrimmedText(given), mode))
  {
    hide TrimSpace;
    assert TrimSpace("") == "" by { EmptyTrims(); }
  }

  lemma EmptyTrims()
    ensures TrimSpace("") == ""
  {
  }

  lemma NowHolds(b: Books, row: ImportRow, mode: Mode)
    requires Good(b) && row.id in b.rows
    ensures var b' := Applied(b, row, mode);
            row.id in b'.rows && RowHolds(b', b.rows[row.id], row, mode, b'.rows[row.id])
  {
    hide GoodLabels, GoodRefs, LabelHolds, TextHolds, TrimmedHolds, SetText, SetLabel, TrimmedText, ResolvedAny, Taken;
    var now := b.rows[row.id];
    LabelNow(b.groups, now.group, row.group, mode);
    LabelNow(b.tags, now.tag, row.tag, mode);
    TextNow(now.labelText, row.labelText, mode);
    TextNow(now.name, row.name, mode);
    TextNow(now.led, row.led, mode);
  }

  lemma NowMakes(b: Books, row: ImportRow, mode: Mode)
    requires Good(b) && row.id !in b.rows
    ensures var b' := Applied(b, row, mode); row.id in b'.rows && RowMakes(b', row, b'.rows[row.id])
  {
    hide GoodLabels, GoodRefs, TrimSpace, ToLower, Resolved;
    if row.group.Some? { ResolvedGood(b.groups, row.group.value); }
    if row.tag.Some? { ResolvedGood(b.tags, row.tag.value); }
  }

  // ---- What the review says ----

  predicate Shown(c: ImportChange, field: string, now: string, after: Option<string>) {
    after.Some? && c == ImportChange(field, now, after.value) && ToLower(now) != ToLower(after.value)
  }

  /** The changes shown are exactly the fields the row gives that differ ignoring case, each with the text there is now,
      empty for none, and the text of the file. */
  lemma {:induction false} ChangesListed(f: Fields, row: ImportRow, groups: map<Pk, string>, tags: map<Pk, string>,
    c: ImportChange)
    requires (f.group.Some? ==> f.group.value in groups) && (f.tag.Some? ==> f.tag.value in tags)
    ensures c in ImportChanges(f, row, groups, tags) <==>
            || Shown(c, "label", if f.labelText.Some? then f.labelText.value else "", row.labelText)
            || Shown(c, "name", if f.name.Some? then f.name.value else "", row.name)
            || Shown(c, "group", if f.group.Some? then groups[f.group.value] else "", row.group)
            || Shown(c, "tag", if f.tag.Some? then tags[f.tag.value] else "", row.tag)
            || Shown(c, "led", if f.led.Some? then f.led.value else "", row.led)
            || Shown(c, "frequency", if f.frequency.Some? then FormatInt(f.frequency.value) else "",
                     if row.frequency.Some? then Some(FormatInt(row.frequency.value)) else None)
            || Shown(c, "order", FormatInt(f.order),
                     if row.order.Some? then Some(FormatInt(row.order.value)) else None)
  {
    hide ToLower, FormatInt;
  }

  /** The problems are the rows whose id came before, by line, with their reason. */
  lemma {:induction false} ProblemsListed(rows: seq<ImportRow>, p: ImportProblem)
    ensures p in Repeated(rows) <==>
            exists i, j :: 0 <= i < j < |rows| && rows[i].id == rows[j].id && p.line == rows[j].line
                           && p.reason == "talkgroup " + FormatInt(rows[j].id.n)
                              + " appears more than once; the first row wins"
  {
    hide FormatInt;
    if rows != [] {
      var n := |rows| - 1;
      ProblemsListed(rows[..n], p);
      assert forall i :: 0 <= i < n ==> rows[..n][i] == rows[i];
      assert rows[n].id in Ids(rows[..n]) <==> exists i :: 0 <= i < n && rows[i].id == rows[n].id by {
        if rows[n].id in Ids(rows[..n]) {
          var i :| 0 <= i < |rows[..n]| && rows[..n][i].id == rows[n].id;
          assert rows[i].id == rows[n].id;
        }
      }
    }
  }

  /** The same for units. */
  lemma {:induction false} UnitProblemsListed(rows: seq<UnitRow>, p: ImportProblem)
    ensures p in RepeatedUnits(rows) <==>
            exists i, j :: 0 <= i < j < |rows| && rows[i].id == rows[j].id && p.line == rows[j].line
                           && p.reason == "unit " + FormatInt(rows[j].id.n)
                              + " appears more than once; the first row wins"
  {
    hide FormatInt;
    if rows != [] {
      var n := |rows| - 1;
      UnitProblemsListed(rows[..n], p);
      assert forall i :: 0 <= i < n ==> rows[..n][i] == rows[i];
      assert rows[n].id in Ids(AsRows(rows[..n])) <==> exists i :: 0 <= i < n && rows[i].id == rows[n].id by {
        UnitIds(rows, n);
      }
      hide Ids, AsRows;
    }
  }

  lemma UnitIds(rows: seq<UnitRow>, n: nat)
    requires n < |rows|
    ensures rows[n].id in Ids(AsRows(rows[..n])) <==> exists i :: 0 <= i < n && rows[i].id == rows[n].id
  {
    var ids := AsRows(rows[..n]);
    assert forall i :: 0 <= i < n ==> ids[i].id == rows[i].id;
    if i :| 0 <= i < n && rows[i].id == rows[n].id {
      assert ids[i].id == rows[n].id;
    }
  }

  lemma NameBefore(rows: seq<LabelRow>, n: nat)
    requires n < |rows|
    ensures ToLower(rows[n].name) in Lowered(rows[..n]) <==>
            exists i :: 0 <= i < n && ToLower(rows[i].name) == ToLower(rows[n].name)
  {
    hide ToLower;
    if ToLower(rows[n].name) in Lowered(rows[..n]) {
      var i :| 0 <= i < |rows[..n]| && ToLower(rows[..n][i].name) == ToLower(rows[n].name);
      assert ToLower(rows[i].name) == ToLower(rows[n].name);
    }
    if i :| 0 <= i < n && ToLower(rows[i].name) == ToLower(rows[n].name) {
      assert ToLower(rows[..n][i].name) == ToLower(rows[n].name);
    }
  }

  /** A label is a problem when its name, ignoring case, came before. */
  lemma {:induction false} LabelProblemsListed(rows: seq<LabelRow>, quoted: string -> string, p: ImportProblem)
    ensures p in RepeatedLabels(rows, quoted) <==>
            exists i, j :: 0 <= i < j < |rows| && ToLower(rows[i].name) == ToLower(rows[j].name)
                           && p == ImportProblem(rows[j].line,
                                   quoted(rows[j].name) + " appears more than once; the first row wins")
  {
    hide ToLower;
    if rows != [] {
      var n := |rows| - 1;
      LabelProblemsListed(rows[..n], quoted, p);
      assert forall i :: 0 <= i < n ==> rows[..n][i] == rows[i];
      NameBefore(rows, n);
      hide Lowered;
    }
  }

  /** Otherwise it is listed, as new exactly when no label there is equals it ignoring case. */
  lemma {:induction false} LabelsListed(listing: seq<Row<string>>, rows: seq<LabelRow>, r: ReviewedLabel)
    ensures r in LabelsReviewed(IndexOf(listing).Keys, rows) <==>
            && (exists j :: 0 <= j < |rows| && rows[j] == r.row
                            && forall i :: 0 <= i < j ==> ToLower(rows[i].name) != ToLower(rows[j].name))
            && r.status == if exists k :: 0 <= k < |listing| && ToLower(listing[k].value) == ToLower(r.row.name)
                           then StatusUnchanged else StatusNew
  {
    hide ToLower;
    Listed(listing, ToLower(r.row.name));
    if rows != [] {
      var n := |rows| - 1;
      LabelsListed(listing, rows[..n], r);
      assert forall i :: 0 <= i < n ==> rows[..n][i] == rows[i];
      NameBefore(rows, n);
      hide Lowered, IndexOf;
    }
  }

  lemma {:induction false} Listed(listing: seq<Row<string>>, k: string)
    ensures k in IndexOf(listing) <==> exists i :: 0 <= i < |listing| && ToLower(listing[i].value) == k
  {
    hide ToLower;
    if listing != [] {
      Listed(listing[..|listing| - 1], k);
      assert listing == listing[..|listing| - 1] + [listing[|listing| - 1]];
    }
  }
}
