// Importing units into a system from a CSV: a talkgroup import whose rows
// give nothing but a label and an order, so its laws carry over.
module UnitImport {
  import opened Common
  import opened NaturalKeys
  import opened Text
  import opened TalkgroupImport
  import opened TalkgroupImportTheorems
  import opened TalkgroupImportPreview

  datatype Unit = Unit(labelText: Option<string>, order: int)

  /** One row of the file, with its line. */
  datatype UnitRow = UnitRow(line: int, id: TgId, labelText: Option<string>, order: Option<int>)

  function AsRow(r: UnitRow): ImportRow {
    ImportRow(r.line, r.id, r.labelText, None, None, None, None, None, r.order)
  }

  function AsRows(rows: seq<UnitRow>): (r: seq<ImportRow>)
    ensures |r| == |rows| && forall i :: 0 <= i < |rows| ==> r[i] == AsRow(rows[i])
  {
    seq(|rows|, i requires 0 <= i < |rows| => AsRow(rows[i]))
  }

  function AsFields(u: Unit): Fields {
    Fields(u.labelText, None, None, None, None, None, u.order)
  }

  const NO_LABELS: Labels := Labels(map[], map[], 0)

  /** The units of a system as talkgroups without groups, tags and the rest. */
  function AsBooks(units: map<TgId, Unit>): Books {
    Books(NO_LABELS, NO_LABELS, map id | id in units :: AsFields(units[id]))
  }

  function NewUnit(row: UnitRow): Unit {
    Unit(TrimmedText(row.labelText), OrElse(row.order, 0))
  }

  function NextUnit(u: Unit, row: UnitRow, mode: Mode): Unit {
    Unit(SetText(u.labelText, TrimmedText(row.labelText), mode), SetOrder(u.order, row.order, mode))
  }

  lemma UnitWritten(units: map<TgId, Unit>, row: UnitRow, mode: Mode)
    ensures row.id !in units ==>
              Applied(AsBooks(units), AsRow(row), mode) == AsBooks(units[row.id := NewUnit(row)])
    ensures row.id in units ==>
              && Applied(AsBooks(units), AsRow(row), mode) == AsBooks(units[row.id :=
                 NextUnit(units[row.id], row, mode)])
              && (OutcomeOf(AsBooks(units), AsRow(row), mode).Updated?
                  <==> NextUnit(units[row.id], row, mode) != units[row.id])
  {
    hide TrimSpace;
    var v := if row.id in units then NextUnit(units[row.id], row, mode) else NewUnit(row);
    assert AsBooks(units[row.id := v]).rows == AsBooks(units).rows[row.id := AsFields(v)];
    assert row.id in units ==> NextFields(AsBooks(units), AsFields(units[row.id]), AsRow(row), mode) == AsFields(v);
  }

  class UnitTable {
    var units: map<TgId, Unit>

    /** What is written and counted is what the talkgroup import would. */
    method UnitsImport(mode: Mode, rows: seq<UnitRow>) returns (created: nat, updated: nat, same: nat)
      modifies this
      ensures AsBooks(units) == AllApplied(AsBooks(old(units)), AsRows(rows), mode)
      ensures created == CountOf(AsBooks(old(units)), AsRows(rows), mode, Created)
      ensures updated == CountOf(AsBooks(old(units)), AsRows(rows), mode, Updated)
      ensures same == CountOf(AsBooks(old(units)), AsRows(rows), mode, Unchanged)
    {
      hide Applied, OutcomeOf, AsBooks, SetText, TrimmedText, TrimSpace;
      ghost var start, all := AsBooks(units), AsRows(rows);
      created, updated, same := 0, 0, 0;
      var seen: set<TgId> := {};
      for i := 0 to |rows|
        invariant seen == Ids(all[..i])
        invariant AsBooks(units) == AllApplied(start, all[..i], mode)
        invariant created == CountOf(start, all[..i], mode, Created)
        invariant updated == CountOf(start, all[..i], mode, Updated)
        invariant same == CountOf(start, all[..i], mode, Unchanged)
      {
        var row := rows[i];
        OneMoreRow(start, all, i, mode);
        if row.id in seen {
          continue;
        }
        seen := seen + {row.id};
        UnitWritten(units, row, mode);
        UnitOutcome(units, row, mode);
        if row.id !in units {
          var order := if row.order.Some? then row.order.value else 0;
          units := units[row.id := Unit(TrimmedText(row.labelText), order)];
          created := created + 1;
          continue;
        }
        var u := units[row.id];
        var next := u;
        var given := TrimmedText(row.labelText);
        LabelSetHere(u.labelText, given, mode);
        if given.Some? && (mode.Overwrite? || TrimSpace(OrElse(u.labelText, "")) == "")
          && OrElse(u.labelText, "") != given.value {
          next := next.(labelText := given);
        }
        if row.order.Some? && mode.Overwrite? && u.order != row.order.value {
          next := next.(order := row.order.value);
        }
        if next == u {
          same := same + 1;
          UnitsRewritten(units, row.id);
          continue;
        }
        units := units[row.id := next];
        updated := updated + 1;
      }
      assert all[..|rows|] == all;
    }
  }

  lemma UnitOutcome(units: map<TgId, Unit>, row: UnitRow, mode: Mode)
    ensures OutcomeOf(AsBooks(units), AsRow(row), mode).Created? <==> row.id !in units
  {
  }

  lemma LabelSetHere(now: Option<string>, v: Option<string>, mode: Mode)
    ensures SetText(now, v, mode)
            == if v.Some? && (mode.Overwrite? || TrimSpace(OrElse(now, "")) == "") && OrElse(now, "") != v.value then v
              else now
  {
  }

  lemma UnitsRewritten(units: map<TgId, Unit>, id: TgId)
    requires id in units
    ensures units[id := units[id]] == units
  {
  }

  // ---- The review ----

  function UnitChanges(u: Unit, row: UnitRow): seq<ImportChange> {
    ChangeOf("label", OrElse(u.labelText, ""), row.labelText)
    + if row.order.Some? && u.order != row.order.value
      then [ImportChange("order", FormatInt(u.order), FormatInt(row.order.value))] else []
  }

  lemma ChangesAgree(u: Unit, row: UnitRow)
    ensures ImportChanges(AsFields(u), AsRow(row), map[], map[]) == UnitChanges(u, row)
  {
    hide ToLower, FormatInt;
    NumbersShown(AsFields(u), AsRow(row));
  }

  function RepeatedUnit(row: UnitRow): ImportProblem {
    ImportProblem(row.line, "unit " + FormatInt(row.id.n) + " appears more than once; the first row wins")
  }

  function RepeatedUnits(rows: seq<UnitRow>): seq<ImportProblem> {
    if rows == [] then []
    else
      var before, row := rows[..|rows| - 1], rows[|rows| - 1];
      RepeatedUnits(before) + (if row.id in Ids(AsRows(before)) then [RepeatedUnit(row)] else [])
  }

  /** The review lists and counts the rows as the talkgroup review does. */
  method PreviewUnitImport(units: map<TgId, Unit>, rows: seq<UnitRow>, problems: seq<ImportProblem>)
    returns (reviewed: seq<ReviewedRow>, found: seq<ImportProblem>, added: nat, same: nat, changed: nat)
    ensures reviewed == Reviewed(AsBooks(units), AsRows(rows)) && found == problems + RepeatedUnits(rows)
    ensures added == CountStatus(AsBooks(units), AsRows(rows), StatusNew)
    ensures same == CountStatus(AsBooks(units), AsRows(rows), StatusUnchanged)
    ensures changed == CountStatus(AsBooks(units), AsRows(rows), StatusChanged)
  {
    hide ImportChanges, UnitChanges, RepeatedUnit, ReviewOf, StatusOf, AsBooks, Reviewed, CountStatus, Ids, AsRows;
    ghost var books, all := AsBooks(units), AsRows(rows);
    NothingReviewed(books);
    reviewed, found, added, same, changed := [], problems, 0, 0, 0;
    var seen: set<TgId> := {};
    for i := 0 to |rows|
      invariant seen == Ids(all[..i]) && reviewed == Reviewed(books, all[..i])
      invariant found == problems + RepeatedUnits(rows[..i])
      invariant added == CountStatus(books, all[..i], StatusNew)
      invariant same == CountStatus(books, all[..i], StatusUnchanged)
      invariant changed == CountStatus(books, all[..i], StatusChanged)
    {
      var row := rows[i];
      OneMoreReviewed(books, rows, i);
      UnitReviewed(units, row);
      if row.id in seen {
        found := found + [RepeatedUnit(row)];
        continue;
      }
      seen := seen + {row.id};
      if row.id !in units {
        added := added + 1;
        reviewed := reviewed + [ReviewedRow(AsRow(row), StatusNew, [])];
        continue;
      }
      var changes := UnitChanges(units[row.id], row);
      if |changes| == 0 {
        same := same + 1;
        reviewed := reviewed + [ReviewedRow(AsRow(row), StatusUnchanged, changes)];
      } else {
        changed := changed + 1;
        reviewed := reviewed + [ReviewedRow(AsRow(row), StatusChanged, changes)];
      }
    }
    assert rows[..|rows|] == rows && all[..|rows|] == all;
  }

  lemma NothingReviewed(books: Books)
    ensures Ids([]) == {} && Reviewed(books, []) == [] && forall s :: CountStatus(books, [], s) == 0
  {
  }

  lemma OneMoreReviewed(books: Books, rows: seq<UnitRow>, i: nat)
    requires i < |rows|
    ensures var all, row := AsRows(rows), rows[i];
            var repeated := row.id in Ids(all[..i]);
            && Ids(all[..i + 1]) == Ids(all[..i]) + {row.id}
            && RepeatedUnits(rows[..i + 1]) == RepeatedUnits(rows[..i]) + (if repeated then [RepeatedUnit(row)] else [])
            && Reviewed(books, all[..i + 1]) == Reviewed(books, all[..i])
               + (if repeated then [] else [ReviewOf(books, AsRow(row))])
            && forall s :: CountStatus(books, all[..i + 1], s)
                           == CountStatus(books, all[..i], s)
                             + (if !repeated && StatusOf(books, AsRow(row)) == s then 1 else 0)
  {
    hide StatusOf, ReviewOf, RepeatedUnit;
    var all := AsRows(rows);
    assert rows[..i + 1][..i] == rows[..i] && rows[..i + 1][i] == rows[i] && AsRows(rows[..i]) == all[..i];
    assert all[..i + 1][..i] == all[..i] && all[..i + 1][i] == AsRow(rows[i]);
    LastId(all[..i + 1]);
  }

  lemma UnitReviewed(units: map<TgId, Unit>, row: UnitRow)
    ensures var books := AsBooks(units);
            && StatusOf(books, AsRow(row))
               == (if row.id !in units then StatusNew else if UnitChanges(units[row.id], row) == []
                   then StatusUnchanged else StatusChanged)
            && ReviewOf(books, AsRow(row))
               == ReviewedRow(AsRow(row), StatusOf(books, AsRow(row)), if row.id in units
                              then UnitChanges(units[row.id], row) else [])
  {
    hide ImportChanges, UnitChanges;
    if row.id in units { ChangesAgree(units[row.id], row); }
  }

  // ---- The laws ----

  lemma UnitBooksGood(units: map<TgId, Unit>)
    ensures Good(AsBooks(units)) && Listing([], NO_LABELS.table)
  {
  }

  lemma {:induction false} UnitLabels(units: map<TgId, Unit>, rows: seq<UnitRow>, mode: Mode)
    ensures var b := AllApplied(AsBooks(units), AsRows(rows), mode); b.groups == NO_LABELS && b.tags == NO_LABELS
  {
    if rows != [] {
      assert AsRows(rows)[..|rows| - 1] == AsRows(rows[..|rows| - 1]);
      UnitLabels(units, rows[..|rows| - 1], mode);
    }
  }

  /** The same unit import again creates and updates nothing and counts every unit of the file as unchanged; created,
      updated and unchanged always add up to those; created is the review's New. */
  lemma {:induction false} UnitImportLaws(units: map<TgId, Unit>, rows: seq<UnitRow>, mode: Mode)
    ensures var books, all := AsBooks(units), AsRows(rows);
            var b := AllApplied(books, all, mode);
            && AllApplied(b, all, mode) == b
            && CountOf(b, all, mode, Created) == 0 && CountOf(b, all, mode, Updated) == 0
               && CountOf(b, all, mode, Unchanged) == |Ids(all)|
            && CountOf(books, all, mode, Created) + CountOf(books, all, mode, Updated)
               + CountOf(books, all, mode, Unchanged) == |Ids(all)|
            && CountOf(books, all, mode, Created) == CountStatus(books, all, StatusNew)
  {
    hide AllApplied, CountOf, CountStatus, Good, Listing, AsBooks;
    UnitBooksGood(units);
    UnitLabels(units, rows, mode);
    ImportIdempotent(AsBooks(units), AsRows(rows), mode, [], []);
    CountsAddUp(AsBooks(units), AsRows(rows), mode);
    CreatedIsNew(AsBooks(units), AsRows(rows), mode);
  }

  /** The units overwriting updates are those the review shows as changed and those whose label differs by case
      alone. */
  lemma {:induction false} UnitChangedAreUpdated(units: map<TgId, Unit>, rows: seq<UnitRow>)
    requires forall i :: 0 <= i < |rows| ==> Trimmed(rows[i].labelText)
    ensures var books, all := AsBooks(units), AsRows(rows);
            CountOf(books, all, Overwrite, Updated) == CountStatus(books, all, StatusChanged)
              + CountFirst(all, r => OnlyRespelled(books, r))
  {
    var books, all := AsBooks(units), AsRows(rows);
    UnitBooksGood(units);
    hide Good, CountOf, CountStatus, AsBooks, OnlyZero, OnlySpelling, OnlyRespelled, CountFirst;
    ChangedAreUpdated(books, all);
    NoZeros(books, all);
    SameCounts(units, rows);
  }

  /** The label differs from the row's, by case alone, and the order not at all. */
  predicate OnlyRespelled(books: Books, row: ImportRow) {
    row.id in books.rows && TextRespelled(books.rows[row.id].labelText, row.labelText)
      && !NumberDiffers(Some(books.rows[row.id].order), row.order)
  }

  lemma {:induction false} NoZeros(books: Books, rows: seq<ImportRow>)
    requires forall i :: 0 <= i < |rows| ==> rows[i].frequency.None?
    ensures CountFirst(rows, r => OnlyZero(books, r)) == 0
  {
    hide RowDiffers;
    if rows != [] {
      NoZeros(books, rows[..|rows| - 1]);
    }
  }

  lemma {:induction false} SameCounts(units: map<TgId, Unit>, rows: seq<UnitRow>)
    ensures var books, all := AsBooks(units), AsRows(rows);
            CountFirst(all, r => OnlySpelling(books, r)) == CountFirst(all, r => OnlyRespelled(books, r))
  {
    hide AsBooks, OnlySpelling, OnlyRespelled;
    if rows != [] {
      assert AsRows(rows)[..|rows| - 1] == AsRows(rows[..|rows| - 1]);
      SameCounts(units, rows[..|rows| - 1]);
      SpellingHere(units, rows[|rows| - 1]);
    }
  }

  lemma SpellingHere(units: map<TgId, Unit>, row: UnitRow)
    ensures OnlySpelling(AsBooks(units), AsRow(row)) <==> OnlyRespelled(AsBooks(units), AsRow(row))
  {
    hide ToLower;
  }
}
