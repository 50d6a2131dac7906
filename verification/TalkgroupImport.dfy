// Importing talkgroups into a system from a CSV: fill or overwrite, with
// groups and tags created on demand.
module TalkgroupImport {
  import opened Common
  import opened NaturalKeys
  import opened Text

  /** A talkgroup's radio id within its system. */
  datatype TgId = TgId(n: int)

  datatype Fields = Fields(
    labelText: Option<string>, name: Option<string>, frequency: Option<int>, led: Option<string>,
    group: Option<Pk>, tag: Option<Pk>, order: int)

  /** One row of the file, with its line: group and tag by name. */
  datatype ImportRow = ImportRow(
    line: int, id: TgId, labelText: Option<string>, name: Option<string>, group: Option<string>, tag: Option<string>,
    led: Option<string>, frequency: Option<int>, order: Option<int>)

  datatype Mode = Fill | Overwrite

  datatype Outcome = Created | Updated | Unchanged

  // ---- Labels by name ----

  /** A label table, where each name is found, and the next primary key. */
  datatype Labels = Labels(table: map<Pk, string>, index: map<string, Pk>, next: int)

  function Key(name: string): string {
    ToLower(TrimSpace(name))
  }

  /** The labels after looking a name up: it is created when no label matches it ignoring case. */
  function Resolved(b: Labels, name: string): (r: Labels)
    ensures Key(name) in r.index
  {
    if Key(name) in b.index then b
    else Labels(b.table[Pk(b.next) := TrimSpace(name)], b.index[Key(name) := Pk(b.next)], b.next + 1)
  }

  function ResolvedAny(b: Labels, name: Option<string>): Labels {
    if name.Some? then Resolved(b, name.value) else b
  }

  function IdAny(b: Labels, name: Option<string>): Option<Pk> {
    if name.Some? then Some(Resolved(b, name.value).index[Key(name.value)]) else None
  }

  // ---- One row ----

  datatype Books = Books(groups: Labels, tags: Labels, rows: map<TgId, Fields>)

  function TrimmedText(s: Option<string>): Option<string> {
    if s.Some? && TrimSpace(s.value) != "" then Some(TrimSpace(s.value)) else None
  }

  function SetText(now: Option<string>, v: Option<string>, mode: Mode): Option<string> {
    if v.None? || (mode.Fill? && TrimSpace(OrElse(now, "")) != "") || OrElse(now, "") == v.value then now else v
  }

  function SetFrequency(now: Option<int>, v: Option<int>, mode: Mode): Option<int> {
    if v.Some? && (mode.Overwrite? || now.None?) && OrElse(now, 0) != v.value then v else now
  }

  function SetOrder(now: int, v: Option<int>, mode: Mode): int {
    if v.Some? && mode.Overwrite? then v.value else now
  }

  /** The name of a group or tag the import takes from the row. */
  function Taken(now: Option<Pk>, name: Option<string>, mode: Mode): Option<string> {
    if mode.Overwrite? || now.None? then name else None
  }

  function SetLabel(b: Labels, now: Option<Pk>, name: Option<string>, mode: Mode): Option<Pk> {
    var id := IdAny(b, Taken(now, name, mode));
    if id.Some? then id else now
  }

  function NewFields(books: Books, row: ImportRow): Fields {
    Fields(TrimmedText(row.labelText), TrimmedText(row.name), row.frequency, row.led, IdAny(books.groups, row.group),
      IdAny(books.tags, row.tag),
           OrElse(row.order, 0))
  }

  function NextFields(books: Books, now: Fields, row: ImportRow, mode: Mode): Fields {
    Fields(
      SetText(now.labelText, TrimmedText(row.labelText), mode), SetText(now.name, TrimmedText(row.name), mode),
      SetFrequency(now.frequency, row.frequency, mode), SetText(now.led, row.led, mode),
      SetLabel(books.groups, now.group, row.group, mode), SetLabel(books.tags, now.tag, row.tag, mode),
      SetOrder(now.order, row.order, mode))
  }

  function OutcomeOf(books: Books, row: ImportRow, mode: Mode): Outcome {
    if row.id !in books.rows then Created
    else if NextFields(books, books.rows[row.id], row, mode) == books.rows[row.id] then Unchanged
    else Updated
  }

  function Applied(books: Books, row: ImportRow, mode: Mode): Books {
    if row.id !in books.rows then
      Books(ResolvedAny(books.groups, row.group), ResolvedAny(books.tags, row.tag),
        books.rows[row.id := NewFields(books, row)])
    else
      var now := books.rows[row.id];
      Books(ResolvedAny(books.groups, Taken(now.group, row.group, mode)),
        ResolvedAny(books.tags, Taken(now.tag, row.tag, mode)),
            books.rows[row.id := NextFields(books, now, row, mode)])
  }

  // ---- All rows: the first with an id wins ----

  function Ids(rows: seq<ImportRow>): set<TgId> {
    set i | 0 <= i < |rows| :: rows[i].id
  }

  function AllApplied(books: Books, rows: seq<ImportRow>, mode: Mode): Books {
    if rows == [] then books
    else
      var before, row := rows[..|rows| - 1], rows[|rows| - 1];
      var b := AllApplied(books, before, mode);
      if row.id in Ids(before) then b else Applied(b, row, mode)
  }

  function CountOf(books: Books, rows: seq<ImportRow>, mode: Mode, o: Outcome): nat {
    if rows == [] then 0
    else
      var before, row := rows[..|rows| - 1], rows[|rows| - 1];
      CountOf(books, before, mode, o) + (if row.id !in Ids(before)
                                         && OutcomeOf(AllApplied(books, before, mode), row, mode) == o then 1 else 0)
  }

  // ---- The import ----

  /** What listing a label table in label order returns. */
  ghost predicate Listing(rows: seq<Row<string>>, table: map<Pk, string>) {
    Lists(rows, table) && forall i, j :: 0 <= i < j < |rows| ==> AtMost(rows[i].value, rows[j].value)
  }

  /** The last label of the listing with this name, ignoring case. */
  function IndexOf(rows: seq<Row<string>>): map<string, Pk> {
    if rows == [] then map[] else IndexOf(rows[..|rows| - 1])[ToLower(rows[|rows| - 1].value) := rows[|rows| - 1].id]
  }

  method BuildIndex(rows: seq<Row<string>>) returns (index: map<string, Pk>)
    ensures index == IndexOf(rows)
  {
    index := map[];
    for i := 0 to |rows|
      invariant index == IndexOf(rows[..i])
    {
      assert rows[..i + 1][..i] == rows[..i];
      index := index[ToLower(rows[i].value) := rows[i].id];
    }
    assert rows[..|rows|] == rows;
  }

  /** The talkgroups of one system, with the group and tag tables. */
  class TalkgroupTable {
    var groups: map<Pk, string>
    var tags: map<Pk, string>
    var talkgroups: map<TgId, Fields>
    var nextGroup: int
    var nextTag: int

    ghost function Contents(groupIDs: map<string, Pk>, tagIDs: map<string, Pk>): Books
      reads this
    {
      Books(Labels(groups, groupIDs, nextGroup), Labels(tags, tagIDs, nextTag), talkgroups)
    }

    method GroupFor(groupIDs: map<string, Pk>, name: string) returns (id: Pk, groupIDs': map<string, Pk>)
      modifies this`groups, this`nextGroup
      ensures Labels(groups, groupIDs', nextGroup) == Resolved(old(Labels(groups, groupIDs, nextGroup)), name)
      ensures id == groupIDs'[Key(name)]
    {
      var key := ToLower(TrimSpace(name));
      groupIDs' := groupIDs;
      if key in groupIDs {
        return groupIDs[key], groupIDs;
      }
      id := Pk(nextGroup);
      groups := groups[id := TrimSpace(name)];
      nextGroup := nextGroup + 1;
      groupIDs' := groupIDs[key := id];
    }

    method TagFor(tagIDs: map<string, Pk>, name: string) returns (id: Pk, tagIDs': map<string, Pk>)
      modifies this`tags, this`nextTag
      ensures Labels(tags, tagIDs', nextTag) == Resolved(old(Labels(tags, tagIDs, nextTag)), name)
      ensures id == tagIDs'[Key(name)]
    {
      var key := ToLower(TrimSpace(name));
      tagIDs' := tagIDs;
      if key in tagIDs {
        return tagIDs[key], tagIDs;
      }
      id := Pk(nextTag);
      tags := tags[id := TrimSpace(name)];
      nextTag := nextTag + 1;
      tagIDs' := tagIDs[key := id];
    }

    method CreateRow(row: ImportRow, groupIDs: map<string, Pk>, tagIDs: map<string, Pk>)
      returns (groupIDs': map<string, Pk>, tagIDs': map<string, Pk>)
      requires row.id !in talkgroups
      modifies this
      ensures Contents(groupIDs', tagIDs') == Applied(old(Contents(groupIDs, tagIDs)), row, Fill)
      ensures Contents(groupIDs', tagIDs') == Applied(old(Contents(groupIDs, tagIDs)), row, Overwrite)
    {
      hide Resolved, TrimSpace;
      groupIDs', tagIDs' := groupIDs, tagIDs;
      var gid: Option<Pk>, tid: Option<Pk> := None, None;
      if row.group.Some? {
        var id;
        id, groupIDs' := GroupFor(groupIDs, row.group.value);
        gid := Some(id);
      }
      if row.tag.Some? {
        var id;
        id, tagIDs' := TagFor(tagIDs, row.tag.value);
        tid := Some(id);
      }
      var order := if row.order.Some? then row.order.value else 0;
      talkgroups := talkgroups[row.id := Fields(TrimmedText(row.labelText), TrimmedText(row.name), row.frequency,
        row.led, gid, tid, order)];
    }

    /** The group a row sets: only where overwriting or where there is none yet. */
    method NextGroup(now: Option<Pk>, name: Option<string>, mode: Mode, groupIDs: map<string, Pk>)
      returns (next: Option<Pk>, groupIDs': map<string, Pk>)
      modifies this`groups, this`nextGroup
      ensures Labels(groups, groupIDs', nextGroup) == ResolvedAny(old(Labels(groups, groupIDs, nextGroup)),
              Taken(now, name, mode))
      ensures next == SetLabel(old(Labels(groups, groupIDs, nextGroup)), now, name, mode)
    {
      hide Resolved;
      next, groupIDs' := now, groupIDs;
      if name.Some? && (mode.Overwrite? || now.None?) {
        var gid;
        gid, groupIDs' := GroupFor(groupIDs, name.value);
        if now.None? || now.value != gid {
          next := Some(gid);
        }
      }
    }

    method NextTag(now: Option<Pk>, name: Option<string>, mode: Mode, tagIDs: map<string, Pk>)
      returns (next: Option<Pk>, tagIDs': map<string, Pk>)
      modifies this`tags, this`nextTag
      ensures Labels(tags, tagIDs', nextTag) == ResolvedAny(old(Labels(tags, tagIDs, nextTag)), Taken(now, name, mode))
      ensures next == SetLabel(old(Labels(tags, tagIDs, nextTag)), now, name, mode)
    {
      hide Resolved;
      next, tagIDs' := now, tagIDs;
      if name.Some? && (mode.Overwrite? || now.None?) {
        var tid;
        tid, tagIDs' := TagFor(tagIDs, name.value);
        if now.None? || now.value != tid {
          next := Some(tid);
        }
      }
    }

    method UpdateRow(row: ImportRow, mode: Mode, groupIDs: map<string, Pk>, tagIDs: map<string, Pk>)
      returns (changed: bool, groupIDs': map<string, Pk>, tagIDs': map<string, Pk>)
      requires row.id in talkgroups
      modifies this
      ensures Contents(groupIDs', tagIDs') == Applied(old(Contents(groupIDs, tagIDs)), row, mode)
      ensures changed <==> OutcomeOf(old(Contents(groupIDs, tagIDs)), row, mode).Updated?
    {
      hide TrimSpace, ResolvedAny, Taken, SetLabel, SetText, TrimmedText;
      var tg := talkgroups[row.id];
      var next := tg.(labelText := SetText(tg.labelText, TrimmedText(row.labelText), mode),
                      name := SetText(tg.name, TrimmedText(row.name), mode),
                      led := SetText(tg.led, row.led, mode));
      if row.frequency.Some? && (mode.Overwrite? || next.frequency.None?)
        && OrElse(next.frequency, 0) != row.frequency.value {
        next := next.(frequency := row.frequency);
      }
      if row.order.Some? && mode.Overwrite? && next.order != row.order.value {
        next := next.(order := row.order.value);
      }
      var group, tag;
      group, groupIDs' := NextGroup(next.group, row.group, mode, groupIDs);
      tag, tagIDs' := NextTag(next.tag, row.tag, mode, tagIDs);
      next := next.(group := group, tag := tag);
      changed := next != tg;
      talkgroups := talkgroups[row.id := next];
    }

    /** Apply the rows; the listings are what the group and tag queries return. */
    method TalkgroupsImport(mode: Mode, rows: seq<ImportRow>, groupListing: seq<Row<string>>,
      tagListing: seq<Row<string>>)
      returns (created: nat, updated: nat, same: nat, ghost after: Books)
      modifies this
      ensures after == AllApplied(old(Contents(IndexOf(groupListing), IndexOf(tagListing))), rows, mode)
      ensures Contents(after.groups.index, after.tags.index) == after
      ensures created == CountOf(old(Contents(IndexOf(groupListing), IndexOf(tagListing))), rows, mode, Created)
      ensures updated == CountOf(old(Contents(IndexOf(groupListing), IndexOf(tagListing))), rows, mode, Updated)
      ensures same == CountOf(old(Contents(IndexOf(groupListing), IndexOf(tagListing))), rows, mode, Unchanged)
    {
      hide Applied, OutcomeOf, IndexOf;
      var groupIDs := BuildIndex(groupListing);
      var tagIDs := BuildIndex(tagListing);
      ghost var start := Contents(groupIDs, tagIDs);
      created, updated, same := 0, 0, 0;
      var seen: set<TgId> := {};
      for i := 0 to |rows|
        invariant seen == Ids(rows[..i])
        invariant Contents(groupIDs, tagIDs) == AllApplied(start, rows[..i], mode)
        invariant created == CountOf(start, rows[..i], mode, Created)
        invariant updated == CountOf(start, rows[..i], mode, Updated)
        invariant same == CountOf(start, rows[..i], mode, Unchanged)
      {
        var row := rows[i];
        OneMoreRow(start, rows, i, mode);
        if row.id in seen {
          continue;
        }
        seen := seen + {row.id};
        OutcomeIs(Contents(groupIDs, tagIDs), row, mode);
        if row.id !in talkgroups {
          groupIDs, tagIDs := CreateRow(row, groupIDs, tagIDs);
          created := created + 1;
          continue;
        }
        var changed;
        changed, groupIDs, tagIDs := UpdateRow(row, mode, groupIDs, tagIDs);
        if !changed {
          same := same + 1;
          continue;
        }
        updated := updated + 1;
      }
      assert rows[..|rows|] == rows;
      after := Contents(groupIDs, tagIDs);
    }
  }

  lemma OutcomeIs(books: Books, row: ImportRow, mode: Mode)
    ensures OutcomeOf(books, row, mode).Created? <==> row.id !in books.rows
  {
  }

  lemma OneMoreRow(books: Books, rows: seq<ImportRow>, i: nat, mode: Mode)
    requires i < |rows|
    ensures Ids(rows[..i + 1]) == Ids(rows[..i]) + {rows[i].id}
    ensures var b := AllApplied(books, rows[..i], mode);
            && AllApplied(books, rows[..i + 1], mode) == (if rows[i].id in Ids(rows[..i]) then b
                                                          else Applied(b, rows[i], mode))
            && (forall o :: CountOf(books, rows[..i + 1], mode, o)
                   == CountOf(books, rows[..i], mode, o) + (if rows[i].id !in Ids(rows[..i])
                                                            && OutcomeOf(b, rows[i], mode) == o then 1 else 0))
  {
    hide Applied, OutcomeOf;
    assert rows[..i + 1][..i] == rows[..i] && rows[..i + 1][i] == rows[i];
    var before, after := rows[..i], rows[..i + 1];
    forall id | id in Ids(before) + {rows[i].id}
      ensures id in Ids(after)
    {
      if id in Ids(before) {
        var k :| 0 <= k < |before| && before[k].id == id;
        assert after[k].id == id;
      } else {
        assert after[i].id == id;
      }
    }
  }
}
