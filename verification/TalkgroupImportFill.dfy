// The review of a talkgroup import against filling: which of the rows shown
// as changed are updated when only blank fields are set.
module TalkgroupImportFill {
  import opened Common
  import opened Text
  import opened TalkgroupImport
  import opened TalkgroupImportTheorems
  import opened TalkgroupImportPreview

  predicate BlankText(now: Option<string>) {
    TrimSpace(OrElse(now, "")) == ""
  }

  /** The row gives something for a blank field; a frequency of 0 is nothing. */
  predicate FillsBlank(f: Fields, row: ImportRow) {
    || (row.labelText.Some? && BlankText(f.labelText)) || (row.name.Some? && BlankText(f.name))
    || (row.led.Some? && BlankText(f.led))
    || (row.frequency.Some? && f.frequency.None? && row.frequency.value != 0)
    || (row.group.Some? && f.group.None?) || (row.tag.Some? && f.tag.None?)
  }

  lemma TextFilled(now: Option<string>, v: Option<string>)
    requires Trimmed(v)
    ensures SetText(now, v, Fill) != now <==> v.Some? && BlankText(now)
  {
    hide TrimLeft, TrimRight;
  }

  lemma LabelFilled(b: Labels, now: Option<Pk>, name: Option<string>)
    ensures SetLabel(b, now, name, Fill) != now <==> name.Some? && now.None?
  {
    hide Resolved;
  }

  /** Filling updates a talkgroup exactly when the row gives something for a blank field. */
  lemma {:induction false} FilledExactly(books: Books, row: ImportRow)
    requires FromParser(row) && row.id in books.rows
    ensures OutcomeOf(books, row, Fill).Updated? <==> FillsBlank(books.rows[row.id], row)
  {
    hide TrimSpace, SetLabel, SetText, BlankText;
    var f := books.rows[row.id];
    assert TrimmedText(row.labelText) == row.labelText && TrimmedText(row.name) == row.name;
    TextFilled(f.labelText, row.labelText);
    TextFilled(f.name, row.name);
    TextFilled(f.led, row.led);
    LabelFilled(books.groups, f.group, row.group);
    LabelFilled(books.tags, f.tag, row.tag);
  }

  /** Something against a blank is a difference the review shows, whatever the case. */
  lemma BlankShown(now: Option<string>, v: Option<string>)
    requires Trimmed(v)
    ensures v.Some? && BlankText(now) ==> TextShown(OrElse(now, ""), v)
  {
    if v.Some? {
      hide TrimLeft, TrimRight;
      var s := OrElse(now, "");
      AllSpace(s);
      TrimmedEnds(v.value);
      TrimmedEnds(TrimLeft(v.value));
      assert !IsSpace(v.value[0]);
      hide TrimSpace;
      assert s != "" ==> ToLower(s)[0] == LowerChar(s[0]);
      assert ToLower(v.value)[0] == LowerChar(v.value[0]);
    }
  }

  /** A row shown as changed whose differences are all in fields that hold something, or a lone frequency 0. */
  predicate OnlyHeld(books: Books, row: ImportRow) {
    row.id in books.rows && RowShown(books, books.rows[row.id], row) && !FillsBlank(books.rows[row.id], row)
  }

  /** Row by row: what filling updates the review shows as changed, and of the rows it shows filling leaves exactly
      those whose differences are in fields that hold something. */
  lemma {:induction false} FilledIsShown(books: Books, row: ImportRow)
    requires FromParser(row) && row.id in books.rows
    ensures var shown, updated := StatusOf(books, row).StatusChanged?, OutcomeOf(books, row, Fill).Updated?;
            (updated ==> shown) && (shown && !updated <==> OnlyHeld(books, row))
  {
    hide ToLower, TrimSpace, TextShown, BlankText, StatusOf, OutcomeOf, NameOf;
    var f := books.rows[row.id];
    ShownExactly(books, row);
    FilledExactly(books, row);
    BlankShown(f.labelText, row.labelText);
    BlankShown(f.name, row.name);
    BlankShown(f.led, row.led);
    NoLabelShown(f.group, row.group, books.groups.table);
    NoLabelShown(f.tag, row.tag, books.tags.table);
  }

  lemma NoLabelShown(now: Option<Pk>, name: Option<string>, table: map<Pk, string>)
    requires Trimmed(name)
    ensures name.Some? && now.None? ==> TextShown(NameOf(now, table), name)
  {
    hide TrimSpace;
    if name.Some? {
      assert |ToLower(name.value)| > 0 && |ToLower("")| == 0;
    }
  }

  /** Over a whole file, the rows shown as changed are those filling updates and those it leaves for that reason. */
  lemma {:induction false} ShownAreFilled(books: Books, rows: seq<ImportRow>)
    requires forall i :: 0 <= i < |rows| ==> FromParser(rows[i])
    ensures CountStatus(books, rows, StatusChanged)
            == CountOf(books, rows, Fill, Updated) + CountFirst(rows, r => OnlyHeld(books, r))
  {
    hide StatusOf, OutcomeOf, FromParser, AllApplied, OnlyHeld;
    if rows != [] {
      var before, row := rows[..|rows| - 1], rows[|rows| - 1];
      ShownAreFilled(books, before);
      if row.id !in Ids(before) {
        FilledKept(books, before, row);
        NotThere(books, row);
        if row.id in books.rows { FilledIsShown(books, row); }
      }
    }
  }

  /** The rows of other talkgroups do not change what filling does to this one. */
  lemma FilledKept(books: Books, rows: seq<ImportRow>, row: ImportRow)
    requires FromParser(row) && row.id !in Ids(rows)
    ensures OutcomeOf(AllApplied(books, rows, Fill), row, Fill) == OutcomeOf(books, row, Fill)
  {
    hide AllApplied, FromParser, FillsBlank, NextFields;
    OthersKept(books, rows, Fill, row.id);
    if row.id in books.rows {
      FilledExactly(books, row);
      FilledExactly(AllApplied(books, rows, Fill), row);
    }
  }

  lemma NotThere(books: Books, row: ImportRow)
    ensures row.id !in books.rows ==>
              !StatusOf(books, row).StatusChanged? && !OutcomeOf(books, row, Fill).Updated? && !OnlyHeld(books, row)
  {
  }
}
