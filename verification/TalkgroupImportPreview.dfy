// The review step of a talkgroup import, and how far applying the rows does
// what it says.
module TalkgroupImportPreview {
  import opened Common
  import opened NaturalKeys
  import opened Text
  import opened TalkgroupImport
  import opened TalkgroupImportTheorems

  datatype ImportChange = ImportChange(field: string, now: string, after: string)

  datatype Status = StatusNew | StatusUnchanged | StatusChanged

  /** Compared ignoring case; a value the file does not give is no change. */
  function ChangeOf(field: string, now: string, after: Option<string>): seq<ImportChange> {
    if after.None? || ToLower(now) == ToLower(after.value) then [] else [ImportChange(field, now, after.value)]
  }

  function NameOf(id: Option<Pk>, names: map<Pk, string>): string {
    if id.Some? && id.value in names then names[id.value] else ""
  }

  function FormatAny(n: Option<int>): Option<string> {
    if n.Some? then Some(FormatInt(n.value)) else None
  }

  function ImportChanges(f: Fields, row: ImportRow, groups: map<Pk, string>, tags: map<Pk, string>): seq<ImportChange> {
    ChangeOf("label", OrElse(f.labelText, ""), row.labelText)
    + ChangeOf("name", OrElse(f.name, ""), row.name)
    + ChangeOf("group", NameOf(f.group, groups), row.group)
    + ChangeOf("tag", NameOf(f.tag, tags), row.tag)
    + ChangeOf("led", OrElse(f.led, ""), row.led)
    + ChangeOf("frequency", OrElse(FormatAny(f.frequency), ""), FormatAny(row.frequency))
    + ChangeOf("order", FormatInt(f.order), FormatAny(row.order))
  }

  function StatusOf(books: Books, row: ImportRow): Status {
    if row.id !in books.rows then StatusNew
    else if ImportChanges(books.rows[row.id], row, books.groups.table, books.tags.table) == [] then StatusUnchanged
    else StatusChanged
  }

  datatype ReviewedRow = ReviewedRow(row: ImportRow, status: Status, changes: seq<ImportChange>)

  datatype ImportProblem = ImportProblem(line: int, reason: string)

  function ReviewOf(books: Books, row: ImportRow): ReviewedRow {
    ReviewedRow(row, StatusOf(books, row),
                if row.id in books.rows
                then ImportChanges(books.rows[row.id], row, books.groups.table, books.tags.table) else [])
  }

  /** The rows the review lists: the first with each id, with its status and changes. */
  function Reviewed(books: Books, rows: seq<ImportRow>): seq<ReviewedRow> {
    if rows == [] then []
    else
      var before, row := rows[..|rows| - 1], rows[|rows| - 1];
      Reviewed(books, before) + (if row.id in Ids(before) then [] else [ReviewOf(books, row)])
  }

  function Repeat(row: ImportRow): ImportProblem {
    ImportProblem(row.line, "talkgroup " + FormatInt(row.id.n) + " appears more than once; the first row wins")
  }

  /** A problem for every row whose id came before. */
  function Repeated(rows: seq<ImportRow>): seq<ImportProblem> {
    if rows == [] then []
    else
      var before, row := rows[..|rows| - 1], rows[|rows| - 1];
      Repeated(before) + (if row.id in Ids(before) then [Repeat(row)] else [])
  }

  function CountStatus(books: Books, rows: seq<ImportRow>, s: Status): nat {
    if rows == [] then 0
    else
      var before, row := rows[..|rows| - 1], rows[|rows| - 1];
      CountStatus(books, before, s) + (if row.id !in Ids(before) && StatusOf(books, row) == s then 1 else 0)
  }

  /** Judge the rows; problems are those the reader found. */
  method PreviewTalkgroupImport(books: Books, rows: seq<ImportRow>, problems: seq<ImportProblem>)
    returns (reviewed: seq<ReviewedRow>, found: seq<ImportProblem>, added: nat, same: nat, changed: nat)
    ensures reviewed == Reviewed(books, rows) && found == problems + Repeated(rows)
    ensures added == CountStatus(books, rows, StatusNew)
    ensures same == CountStatus(books, rows, StatusUnchanged)
    ensures changed == CountStatus(books, rows, StatusChanged)
  {
    hide ImportChanges, Repeat;
    reviewed, found, added, same, changed := [], problems, 0, 0, 0;
    var seen: set<TgId> := {};
    for i := 0 to |rows|
      invariant seen == Ids(rows[..i]) && reviewed == Reviewed(books, rows[..i])
                && found == problems + Repeated(rows[..i])
      invariant added == CountStatus(books, rows[..i], StatusNew)
      invariant same == CountStatus(books, rows[..i], StatusUnchanged)
      invariant changed == CountStatus(books, rows[..i], StatusChanged)
    {
      var row := rows[i];
      assert rows[..i + 1][..i] == rows[..i] && rows[..i + 1][i] == row;
      LastId(rows[..i + 1]);
      if row.id in seen {
        found := found + [Repeat(row)];
        continue;
      }
      seen := seen + {row.id};
      if row.id !in books.rows {
        added := added + 1;
        reviewed := reviewed + [ReviewedRow(row, StatusNew, [])];
        continue;
      }
      var changes := ImportChanges(books.rows[row.id], row, books.groups.table, books.tags.table);
      if |changes| == 0 {
        same := same + 1;
        reviewed := reviewed + [ReviewedRow(row, StatusUnchanged, changes)];
      } else {
        changed := changed + 1;
        reviewed := reviewed + [ReviewedRow(row, StatusChanged, changes)];
      }
    }
    assert rows[..|rows|] == rows;
  }

  /** Every row is reviewed or a problem, and the three counts add up to the rows reviewed, one for each id. */
  lemma {:induction false} EveryRowAccounted(books: Books, rows: seq<ImportRow>)
    ensures |Reviewed(books, rows)| + |Repeated(rows)| == |rows| && |Reviewed(books, rows)| == |Ids(rows)|
    ensures CountStatus(books, rows, StatusNew) + CountStatus(books, rows, StatusUnchanged)
            + CountStatus(books, rows, StatusChanged)
            == |Reviewed(books, rows)|
  {
    hide StatusOf, ReviewOf, Repeat;
    if rows != [] {
      var before, row := rows[..|rows| - 1], rows[|rows| - 1];
      EveryRowAccounted(books, before);
      LastId(rows);
      assert row.id in Ids(before) ==> Ids(rows) == Ids(before);
    }
  }

  // ---- Created is the review's New ----

  /** Whatever rows came before, a talkgroup is created exactly when it was not there at the start. */
  lemma CreatedWhenNew(books: Books, rows: seq<ImportRow>, mode: Mode, row: ImportRow)
    requires row.id !in Ids(rows)
    ensures OutcomeOf(AllApplied(books, rows, mode), row, mode).Created? <==> StatusOf(books, row).StatusNew?
  {
    OthersKept(books, rows, mode, row.id);
  }

  lemma {:induction false} CreatedIsNew(books: Books, rows: seq<ImportRow>, mode: Mode)
    ensures CountOf(books, rows, mode, Created) == CountStatus(books, rows, StatusNew)
  {
    hide OutcomeOf, StatusOf, AllApplied;
    if rows != [] {
      var before, row := rows[..|rows| - 1], rows[|rows| - 1];
      CreatedIsNew(books, before, mode);
      if row.id !in Ids(before) {
        CreatedWhenNew(books, before, mode, row);
      }
    }
  }

  // ---- Changed in the review against updated when overwriting ----

  predicate Trimmed(s: Option<string>) {
    s.Some? ==> s.value != "" && TrimSpace(s.value) == s.value
  }

  /** A row as the CSV reader leaves it: text trimmed, and never empty. */
  predicate FromParser(row: ImportRow) {
    Trimmed(row.labelText) && Trimmed(row.name) && Trimmed(row.group) && Trimmed(row.tag) && Trimmed(row.led)
  }

  // The differences overwriting acts on, exactly as spelled.

  predicate TextDiffers(now: Option<string>, v: Option<string>) {
    v.Some? && OrElse(now, "") != v.value
  }

  predicate NumberDiffers(now: Option<int>, v: Option<int>) {
    v.Some? && OrElse(now, 0) != v.value
  }

  /** The row names a group or tag, and it is not the label the name is found under. */
  predicate LabelDiffers(b: Labels, now: Option<Pk>, name: Option<string>) {
    name.Some? && !(Key(name.value) in b.index && now == Some(b.index[Key(name.value)]))
  }

  /** Some field the row gives is not what the talkgroup has. */
  predicate RowDiffers(books: Books, f: Fields, row: ImportRow) {
    || TextDiffers(f.labelText, row.labelText) || TextDiffers(f.name, row.name) || TextDiffers(f.led, row.led)
    || NumberDiffers(f.frequency, row.frequency) || NumberDiffers(Some(f.order), row.order)
    || LabelDiffers(books.groups, f.group, row.group) || LabelDiffers(books.tags, f.tag, row.tag)
  }

  lemma TextSet(now: Option<string>, v: Option<string>)
    ensures SetText(now, v, Overwrite) != now <==> TextDiffers(now, v)
  {
  }

  /** A name no label has yet gets a label of its own, so never the one there. */
  lemma LabelSet(b: Labels, now: Option<Pk>, name: Option<string>)
    requires GoodLabels(b) && (now.Some? ==> now.value in b.table)
    ensures SetLabel(b, now, name, Overwrite) != now <==> LabelDiffers(b, now, name)
  {
    hide Key, AtMost, ToLower;
  }

  /** Overwriting updates a talkgroup exactly when some field the row gives differs. */
  lemma {:induction false} UpdatedExactly(books: Books, row: ImportRow)
    requires Good(books) && FromParser(row) && row.id in books.rows
    ensures OutcomeOf(books, row, Overwrite).Updated? <==> RowDiffers(books, books.rows[row.id], row)
  {
    hide TrimSpace, GoodLabels, SetLabel, SetText, TextDiffers, LabelDiffers;
    var f := books.rows[row.id];
    assert TrimmedText(row.labelText) == row.labelText && TrimmedText(row.name) == row.name;
    TextSet(f.labelText, row.labelText);
    TextSet(f.name, row.name);
    TextSet(f.led, row.led);
    LabelSet(books.groups, f.group, row.group);
    LabelSet(books.tags, f.tag, row.tag);
  }

  // The differences the review shows, ignoring case.

  predicate TextShown(now: string, v: Option<string>) {
    v.Some? && ToLower(now) != ToLower(v.value)
  }

  predicate RowShown(books: Books, f: Fields, row: ImportRow) {
    || TextShown(OrElse(f.labelText, ""), row.labelText) || TextShown(OrElse(f.name, ""), row.name)
       || TextShown(OrElse(f.led, ""), row.led)
    || (row.frequency.Some? && f.frequency != row.frequency) || NumberDiffers(Some(f.order), row.order)
    || TextShown(NameOf(f.group, books.groups.table), row.group) || TextShown(NameOf(f.tag, books.tags.table), row.tag)
  }

  lemma DigitsAsTheyAre(n: int)
    ensures ToLower(FormatInt(n)) == FormatInt(n)
  {
    FormatIntChars(n);
    var s := FormatInt(n);
    hide FormatInt;
    assert forall i :: 0 <= i < |s| ==> ToLower(s)[i] == s[i];
  }

  lemma NumbersShown(f: Fields, row: ImportRow)
    ensures ChangeOf("frequency", OrElse(FormatAny(f.frequency), ""), FormatAny(row.frequency)) != []
            <==> row.frequency.Some? && f.frequency != row.frequency
    ensures ChangeOf("order", FormatInt(f.order), FormatAny(row.order)) != []
            <==> NumberDiffers(Some(f.order), row.order)
  {
    hide ToLower, FormatInt;
    if row.frequency.Some? {
      NumberShown(f.frequency, row.frequency.value);
    }
    if row.order.Some? {
      NumberShown(Some(f.order), row.order.value);
    }
  }

  lemma NumberShown(now: Option<int>, n: int)
    ensures ToLower(OrElse(FormatAny(now), "")) != ToLower(FormatInt(n)) <==> now != Some(n)
  {
    hide FormatInt;
    DigitsAsTheyAre(n);
    FormatIntChars(n);
    if now.Some? {
      DigitsAsTheyAre(now.value);
      if FormatInt(now.value) == FormatInt(n) { FormatIntInjective(now.value, n); }
    }
  }

  lemma {:induction false} ShownExactly(books: Books, row: ImportRow)
    requires row.id in books.rows
    ensures StatusOf(books, row).StatusChanged? <==> RowShown(books, books.rows[row.id], row)
  {
    hide ToLower, FormatInt, FormatAny, NameOf;
    NumbersShown(books.rows[row.id], row);
    hide NumberDiffers;
  }

  // Where the two part.

  /** Shown and not written: the file says 0 for a talkgroup that has no frequency, and nothing else differs. */
  predicate OnlyZero(books: Books, row: ImportRow) {
    row.id in books.rows &&
    var f := books.rows[row.id];
    f.frequency.None? && row.frequency == Some(0) && !RowDiffers(books, f, row)
  }

  predicate TextRespelled(now: Option<string>, v: Option<string>) {
    v.Some? && OrElse(now, "") != v.value && ToLower(OrElse(now, "")) == ToLower(v.value)
  }

  /** The talkgroup has another label whose name is the row's but for case. */
  predicate LabelTwin(b: Labels, now: Option<Pk>, name: Option<string>) {
    && name.Some? && now.Some? && now.value in b.table && ToLower(b.table[now.value]) == ToLower(name.value)
    && !(Key(name.value) in b.index && b.index[Key(name.value)] == now.value)
  }

  /** Written and not shown: nothing differs but spelling, and something does by that. */
  predicate OnlySpelling(books: Books, row: ImportRow) {
    row.id in books.rows &&
    var f := books.rows[row.id];
    && !RowShown(books, f, row)
    && (|| TextRespelled(f.labelText, row.labelText) || TextRespelled(f.name, row.name) || TextRespelled(f.led, row.led)
        || LabelTwin(books.groups, f.group, row.group) || LabelTwin(books.tags, f.tag, row.tag))
  }

  lemma TextParts(now: Option<string>, v: Option<string>)
    ensures TextDiffers(now, v) <==> TextShown(OrElse(now, ""), v) || TextRespelled(now, v)
  {
    hide ToLower;
  }

  lemma LabelParts(b: Labels, now: Option<Pk>, name: Option<string>)
    requires GoodLabels(b) && (now.Some? ==> now.value in b.table) && Trimmed(name)
    ensures LabelDiffers(b, now, name) <==> TextShown(NameOf(now, b.table), name) || LabelTwin(b, now, name)
  {
    hide TrimSpace, AtMost;
    if name.Some? {
      assert |ToLower(name.value)| > 0 && |ToLower("")| == 0;
      hide ToLower;
    }
  }

  /** Row by row, for a file from the CSV reader: what the review shows as changed is what overwriting updates, but
      for a lone 0 on no frequency, which is shown and not written, and for spelling alone, which is written and not
      shown. */
  lemma {:induction false} ChangedIsUpdated(books: Books, row: ImportRow)
    requires Good(books) && FromParser(row) && row.id in books.rows
    ensures var shown, updated := StatusOf(books, row).StatusChanged?, OutcomeOf(books, row, Overwrite).Updated?;
            && (shown && !updated <==> OnlyZero(books, row))
            && (updated && !shown <==> OnlySpelling(books, row))
            && ((shown <==> updated) <==> !OnlyZero(books, row) && !OnlySpelling(books, row))
  {
    hide ToLower, TrimSpace, GoodLabels, Key, TextDiffers, LabelDiffers, TextShown, TextRespelled, LabelTwin, NameOf,
      StatusOf, OutcomeOf;
    var f := books.rows[row.id];
    ShownExactly(books, row);
    UpdatedExactly(books, row);
    TextParts(f.labelText, row.labelText);
    TextParts(f.name, row.name);
    TextParts(f.led, row.led);
    LabelParts(books.groups, f.group, row.group);
    LabelParts(books.tags, f.tag, row.tag);
  }

  /** Whether overwriting updates a talkgroup does not depend on the rows of other talkgroups: a label they create is
      not one it had. */
  lemma {:induction false} UpdatedKept(books: Books, rows: seq<ImportRow>, row: ImportRow)
    requires Good(books) && FromParser(row) && row.id !in Ids(rows)
    ensures OutcomeOf(AllApplied(books, rows, Overwrite), row, Overwrite) == OutcomeOf(books, row, Overwrite)
  {
    hide GoodLabels, AllApplied, FromParser, Extends, TextDiffers, NumberDiffers, LabelDiffers, NextFields;
    var b := AllApplied(books, rows, Overwrite);
    OthersKept(books, rows, Overwrite, row.id);
    AllGood(books, rows, Overwrite);
    AllExtends(books, rows, Overwrite);
    if row.id in books.rows {
      var f := books.rows[row.id];
      UpdatedExactly(books, row);
      UpdatedExactly(b, row);
      DiffersKept(books.groups, b.groups, f.group, row.group);
      DiffersKept(books.tags, b.tags, f.tag, row.tag);
    }
  }

  lemma DiffersKept(b: Labels, b': Labels, now: Option<Pk>, name: Option<string>)
    requires GoodLabels(b) && GoodLabels(b') && Extends(b, b') && (now.Some? ==> now.value in b.table)
    ensures LabelDiffers(b', now, name) <==> LabelDiffers(b, now, name)
  {
    hide Key, ToLower, AtMost;
  }

  lemma {:induction false} AllExtends(books: Books, rows: seq<ImportRow>, mode: Mode)
    requires Good(books)
    ensures var b := AllApplied(books, rows, mode); Extends(books.groups, b.groups) && Extends(books.tags, b.tags)
  {
    hide GoodLabels, Applied;
    if rows != [] {
      AllExtends(books, rows[..|rows| - 1], mode);
      AllGood(books, rows[..|rows| - 1], mode);
      AppliedLabels(AllApplied(books, rows[..|rows| - 1], mode), rows[|rows| - 1], mode);
    }
  }

  /** The rows reviewed that meet a condition. */
  function CountFirst(rows: seq<ImportRow>, test: ImportRow -> bool): nat {
    if rows == [] then 0
    else
      var before, row := rows[..|rows| - 1], rows[|rows| - 1];
      CountFirst(before, test) + (if row.id !in Ids(before) && test(row) then 1 else 0)
  }

  /** Over a whole file from the CSV reader, the rows updated by overwriting are those the review shows as changed,
      less the lone zeros and plus the respelled ones. */
  lemma {:induction false} ChangedAreUpdated(books: Books, rows: seq<ImportRow>)
    requires Good(books) && forall i :: 0 <= i < |rows| ==> FromParser(rows[i])
    ensures CountOf(books, rows, Overwrite, Updated) + CountFirst(rows, r => OnlyZero(books, r))
            == CountStatus(books, rows, StatusChanged) + CountFirst(rows, r => OnlySpelling(books, r))
  {
    hide Good, StatusOf, OutcomeOf, FromParser, AllApplied, OnlyZero, OnlySpelling;
    if rows != [] {
      var before, row := rows[..|rows| - 1], rows[|rows| - 1];
      ChangedAreUpdated(books, before);
      if row.id !in Ids(before) {
        UpdatedKept(books, before, row);
        UnknownRow(books, row);
        if row.id in books.rows { ChangedIsUpdated(books, row); }
      }
    }
  }

  lemma UnknownRow(books: Books, row: ImportRow)
    ensures row.id !in books.rows ==>
              && !StatusOf(books, row).StatusChanged? && !OutcomeOf(books, row, Overwrite).Updated?
              && !OnlyZero(books, row) && !OnlySpelling(books, row)
  {
  }

  // ---- Where the review and the import part ----

  /** A frequency of 0 for a talkgroup without one is shown as a change and never written. */
  lemma {:induction false} ZeroFrequency(books: Books, line: int, id: TgId, mode: Mode)
    requires id in books.rows && books.rows[id].frequency.None?
    ensures var row := ImportRow(line, id, None, None, None, None, None, Some(0), None);
            StatusOf(books, row).StatusChanged? && OutcomeOf(books, row, mode).Unchanged?
  {
    hide TrimSpace;
    assert FormatInt(0) == "0";
    assert ToLower("") == "" && |ToLower("0")| == 1;
  }

  /** A label that differs only by case is shown as unchanged and rewritten by overwriting. */
  lemma {:induction false} CaseOnly(books: Books, line: int, id: TgId, spelling: string)
    requires id in books.rows
    requires Trimmed(Some(spelling)) && ToLower(OrElse(books.rows[id].labelText, "")) == ToLower(spelling)
    ensures var row := ImportRow(line, id, Some(spelling), None, None, None, None, None, None);
            && StatusOf(books, row).StatusUnchanged?
            && (OutcomeOf(books, row, Overwrite).Updated? <==> OrElse(books.rows[id].labelText, "") != spelling)
  {
    hide TrimSpace, ToLower;
  }
}
