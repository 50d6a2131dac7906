// Importing group or tag labels from a CSV: every label that no existing one
// matches ignoring case is created, once.
module LabelImport {
  import opened Common
  import opened NaturalKeys
  import opened Text
  import opened TalkgroupImport
  import opened TalkgroupImportTheorems
  import opened TalkgroupImportPreview

  const MAX_LABEL: nat := 64

  predicate Acceptable(raw: string) {
    TrimSpace(raw) != "" && |TrimSpace(raw)| <= MAX_LABEL
  }

  // ---- The import ----

  function AllResolved(b: Labels, labels: seq<string>): Labels {
    if labels == [] then b else Resolved(AllResolved(b, labels[..|labels| - 1]), labels[|labels| - 1])
  }

  /** The names of a list of labels, ignoring case and outer space. */
  ghost function NamesOf(labels: seq<string>): set<string> {
    set i | 0 <= i < |labels| :: Key(labels[i])
  }

  lemma OneMoreName(labels: seq<string>, i: nat)
    requires i < |labels|
    ensures NamesOf(labels[..i + 1]) == NamesOf(labels[..i]) + {Key(labels[i])}
  {
    hide Key;
    var done := labels[..i + 1];
    assert done[i] == labels[i];
    forall k | k in NamesOf(labels[..i])
      ensures k in NamesOf(done)
    {
      var j :| 0 <= j < i && Key(labels[..i][j]) == k;
      assert Key(done[j]) == k;
    }
    forall k | k in NamesOf(done)
      ensures k in NamesOf(labels[..i]) + {Key(labels[i])}
    {
      var j :| 0 <= j <= i && Key(done[j]) == k;
      assert j < i ==> labels[..i][j] == done[j];
    }
  }

  /** The names a listing has. */
  method SeenNames(listing: seq<Row<string>>) returns (seen: set<string>)
    ensures seen == IndexOf(listing).Keys
  {
    seen := {};
    for i := 0 to |listing|
      invariant seen == IndexOf(listing[..i]).Keys
    {
      assert listing[..i + 1][..i] == listing[..i];
      seen := seen + {ToLower(listing[i].value)};
    }
    assert listing[..|listing|] == listing;
  }

  /** How many labels came before the first one refused. */
  predicate Stops(labels: seq<string>, done: nat) {
    done <= |labels| && (forall i :: 0 <= i < done ==> Acceptable(labels[i]))
      && (done < |labels| ==> !Acceptable(labels[done]))
  }

  class LabelTable {
    var table: map<Pk, string>
    var next: int

    /** A label that is refused ends the import, and those before it stay; otherwise created counts the new rows and
        unchanged the rest. */
    method LabelsImport(labels: seq<string>, listing: seq<Row<string>>)
      returns (res: Option<(nat, nat)>, ghost done: nat, ghost after: Labels)
      modifies this
      ensures Stops(labels, done) && (res.Some? <==> done == |labels|)
      ensures forall i :: 0 <= i < done ==> TrimSpace(labels[i]) != "" && |TrimSpace(labels[i])| <= 64
      ensures done < |labels| ==> TrimSpace(labels[done]) == "" || |TrimSpace(labels[done])| > 64
      ensures after == AllResolved(old(Labels(table, IndexOf(listing), next)), labels[..done])
      ensures table == after.table && next == after.next
      ensures res.Some? ==> res.value.0 == next - old(next) && res.value.0 + res.value.1 == |labels|
    {
      hide TrimSpace, ToLower, IndexOf;
      var seen := SeenNames(listing);
      after, done := Labels(table, IndexOf(listing), next), 0;
      ghost var start := after;
      var created, same := 0, 0;
      for i := 0 to |labels|
        invariant done == i && after == AllResolved(start, labels[..i]) && table == after.table && next == after.next
                  && seen == after.index.Keys
        invariant created == next - start.next && created + same == i
        invariant forall j :: 0 <= j < i ==> Acceptable(labels[j])
      {
        var trimmed := TrimSpace(labels[i]);
        if trimmed == "" || |trimmed| > MAX_LABEL {
          return None, done, after;
        }
        assert labels[..i + 1][..i] == labels[..i] && labels[..i + 1][i] == labels[i];
        after, done := Resolved(after, labels[i]), i + 1;
        var key := ToLower(trimmed);
        if key in seen {
          same := same + 1;
          continue;
        }
        table, next := table[Pk(next) := trimmed], next + 1;
        seen := seen + {key};
        created := created + 1;
      }
      assert labels[..|labels|] == labels;
      res := Some((created, same));
    }
  }

  // ---- Its laws ----

  /** One row for every name that was not there, and every name of the file is there after. */
  lemma {:induction false} CreatedExactly(b: Labels, labels: seq<string>)
    ensures AllResolved(b, labels).index.Keys == b.index.Keys + NamesOf(labels)
    ensures AllResolved(b, labels).next - b.next == |NamesOf(labels) - b.index.Keys|
  {
    hide Key, NamesOf;
    NoNames();
    if labels != [] {
      var n := |labels| - 1;
      CreatedExactly(b, labels[..n]);
      OneMoreName(labels, n);
      assert labels[..n + 1] == labels;
      OneMoreOf(NamesOf(labels[..n]), b.index.Keys, Key(labels[n]));
    }
  }

  lemma OneMoreOf(names: set<string>, have: set<string>, key: string)
    ensures |(names + {key}) - have| == |names - have| + if key in have + names then 0 else 1
  {
    if key in names {
      assert names + {key} == names;
    } else {
      OneMoreIn(names, have, key);
    }
  }

  lemma NoNames()
    ensures NamesOf([]) == {}
  {
  }

  /** Existing labels keep their keys and text, and of the new rows no two and no new and no old one match ignoring
      case. */
  lemma {:induction false} ImportExtends(b: Labels, labels: seq<string>)
    requires GoodLabels(b)
    ensures var b' := AllResolved(b, labels);
            && GoodLabels(b') && Extends(b, b')
            && forall p, q :: p in b'.table && p !in b.table && q in b'.table && p != q ==>
               ToLower(b'.table[p]) != ToLower(b'.table[q])
  {
    hide Key, ToLower, GoodLabels;
    if labels != [] {
      var mid := AllResolved(b, labels[..|labels| - 1]);
      ImportExtends(b, labels[..|labels| - 1]);
      ResolvedGood(mid, labels[|labels| - 1]);
      ResolvedExtends(mid, Some(labels[|labels| - 1]));
      NewApart(mid, labels[|labels| - 1]);
    }
  }

  lemma NewApart(b: Labels, name: string)
    requires GoodLabels(b)
    ensures var b' := Resolved(b, name);
            forall p, q :: p in b'.table && p !in b.table && q in b'.table && p != q ==>
              ToLower(b'.table[p]) != ToLower(b'.table[q])
  {
    hide ToLower, TrimSpace, AtMost;
  }

  lemma {:induction false} AllKnown(b: Labels, labels: seq<string>)
    requires forall i :: 0 <= i < |labels| ==> Key(labels[i]) in b.index
    ensures AllResolved(b, labels) == b
  {
    hide Key;
    if labels != [] {
      AllKnown(b, labels[..|labels| - 1]);
    }
  }

  /** The same labels again, from a listing of the table the first import left, create nothing. */
  lemma {:induction false} LabelsIdempotent(b: Labels, labels: seq<string>, listing: seq<Row<string>>)
    requires GoodLabels(b) && Listing(listing, AllResolved(b, labels).table)
    ensures var b' := AllResolved(b, labels);
            b'.(index := IndexOf(listing)) == b' && AllResolved(b', labels) == b'
  {
    hide Key, Indexes, IndexOf, Listing, NamesOf;
    var b' := AllResolved(b, labels);
    ImportExtends(b, labels);
    ListingIndexes(listing, b'.table);
    IndexUnique(b'.index, IndexOf(listing), b'.table);
    CreatedExactly(b, labels);
    forall i | 0 <= i < |labels|
      ensures Key(labels[i]) in b'.index
    {
      assert Key(labels[i]) in NamesOf(labels) by { NameIn(labels, i); }
    }
    AllKnown(b', labels);
  }

  lemma NameIn(labels: seq<string>, i: nat)
    requires i < |labels|
    ensures Key(labels[i]) in NamesOf(labels)
  {
  }

  // ---- The review ----

  datatype LabelRow = LabelRow(line: int, name: string)

  datatype ReviewedLabel = ReviewedLabel(row: LabelRow, status: Status)

  function Lowered(rows: seq<LabelRow>): set<string> {
    set i | 0 <= i < |rows| :: ToLower(rows[i].name)
  }

  function LabelReview(have: set<string>, row: LabelRow): ReviewedLabel {
    ReviewedLabel(row, if ToLower(row.name) in have then StatusUnchanged else StatusNew)
  }

  /** The first row with each name, ignoring case, with its status. */
  function LabelsReviewed(have: set<string>, rows: seq<LabelRow>): seq<ReviewedLabel> {
    if rows == [] then []
    else
      var before, row := rows[..|rows| - 1], rows[|rows| - 1];
      LabelsReviewed(have, before) + (if ToLower(row.name) in Lowered(before) then [] else [LabelReview(have, row)])
  }

  function RepeatedLabel(row: LabelRow, quoted: string -> string): ImportProblem {
    ImportProblem(row.line, quoted(row.name) + " appears more than once; the first row wins")
  }

  /** A problem for every row whose name came before; quoted is the text form of a label. */
  function RepeatedLabels(rows: seq<LabelRow>, quoted: string -> string): seq<ImportProblem> {
    if rows == [] then []
    else
      var before, row := rows[..|rows| - 1], rows[|rows| - 1];
      RepeatedLabels(before, quoted)
      + (if ToLower(row.name) in Lowered(before) then [RepeatedLabel(row, quoted)] else [])
  }

  lemma LowerOneMore(rows: seq<LabelRow>, i: nat)
    requires i < |rows|
    ensures Lowered(rows[..i + 1]) == Lowered(rows[..i]) + {ToLower(rows[i].name)}
  {
    hide ToLower;
    var done := rows[..i + 1];
    assert done[i] == rows[i];
    forall k | k in Lowered(rows[..i])
      ensures k in Lowered(done)
    {
      var j :| 0 <= j < i && ToLower(rows[..i][j].name) == k;
      assert ToLower(done[j].name) == k;
    }
    forall k | k in Lowered(done)
      ensures k in Lowered(rows[..i]) + {ToLower(rows[i].name)}
    {
      var j :| 0 <= j <= i && ToLower(done[j].name) == k;
      assert j < i ==> rows[..i][j] == done[j];
    }
  }

  ghost predicate Counted(names: set<string>, have: set<string>, added: nat, same: nat) {
    added == |names - have| && same == |names * have|
  }

  lemma OneMoreCounted(names: set<string>, have: set<string>, added: nat, same: nat, key: string)
    requires key !in names && Counted(names, have, added, same)
    ensures key in have ==> Counted(names + {key}, have, added, same + 1)
    ensures key !in have ==> Counted(names + {key}, have, added + 1, same)
  {
    OneMoreIn(names, have, key);
  }

  /** New counts the names the table lacks, and unchanged those it has, each once. */
  method PreviewLabelImport(listing: seq<Row<string>>, rows: seq<LabelRow>, problems: seq<ImportProblem>,
    quoted: string -> string)
    returns (reviewed: seq<ReviewedLabel>, found: seq<ImportProblem>, added: nat, same: nat)
    ensures reviewed == LabelsReviewed(IndexOf(listing).Keys, rows) && found == problems + RepeatedLabels(rows, quoted)
    ensures Counted(Lowered(rows), IndexOf(listing).Keys, added, same)
  {
    hide ToLower, IndexOf, Lowered, LabelsReviewed, RepeatedLabels, RepeatedLabel, Counted;
    var have := SeenNames(listing);
    reviewed, found, added, same := [], problems, 0, 0;
    var seen: set<string> := {};
    NoRows(have, quoted);
    for i := 0 to |rows|
      invariant seen == Lowered(rows[..i]) && reviewed == LabelsReviewed(have, rows[..i])
                && found == problems + RepeatedLabels(rows[..i], quoted)
      invariant Counted(seen, have, added, same)
    {
      var row := rows[i];
      var key := ToLower(row.name);
      OneMoreLabel(have, rows, i, quoted);
      if key in seen {
        found := found + [RepeatedLabel(row, quoted)];
        continue;
      }
      OneMoreCounted(seen, have, added, same, key);
      seen := seen + {key};
      if key in have {
        same := same + 1;
        reviewed := reviewed + [ReviewedLabel(row, StatusUnchanged)];
      } else {
        added := added + 1;
        reviewed := reviewed + [ReviewedLabel(row, StatusNew)];
      }
    }
    assert rows[..|rows|] == rows;
  }

  lemma NoRows(have: set<string>, quoted: string -> string)
    ensures Counted(Lowered([]), have, 0, 0) && Lowered([]) == {} && LabelsReviewed(have, []) == []
            && RepeatedLabels([], quoted) == []
  {
  }

  lemma OneMoreLabel(have: set<string>, rows: seq<LabelRow>, i: nat, quoted: string -> string)
    requires i < |rows|
    ensures var key, repeated := ToLower(rows[i].name), ToLower(rows[i].name) in Lowered(rows[..i]);
            && Lowered(rows[..i + 1]) == Lowered(rows[..i]) + {key}
            && (repeated ==> Lowered(rows[..i + 1]) == Lowered(rows[..i]))
            && LabelsReviewed(have, rows[..i + 1]) == LabelsReviewed(have, rows[..i])
               + (if repeated then [] else [LabelReview(have, rows[i])])
            && RepeatedLabels(rows[..i + 1], quoted)
               == RepeatedLabels(rows[..i], quoted)
                  + (if repeated then [RepeatedLabel(rows[i], quoted)] else [])
  {
    hide ToLower, Lowered;
    assert rows[..i + 1][..i] == rows[..i] && rows[..i + 1][i] == rows[i];
    LowerOneMore(rows, i);
  }

  lemma OneMoreIn(seen: set<string>, have: set<string>, key: string)
    requires key !in seen
    ensures |(seen + {key}) - have| == |seen - have| + if key in have then 0 else 1
    ensures |(seen + {key}) * have| == |seen * have| + if key in have then 1 else 0
  {
    if key in have {
      assert (seen + {key}) - have == seen - have && (seen + {key}) * have == seen * have + {key};
    } else {
      assert (seen + {key}) - have == seen - have + {key} && (seen + {key}) * have == seen * have;
    }
  }

  /** For rows as the CSV reader leaves them, the labels the import creates are as many as the review shows as new. */
  lemma {:induction false} NewIsCreated(b: Labels, listing: seq<Row<string>>, rows: seq<LabelRow>, labels: seq<string>)
    requires b.index == IndexOf(listing)
    requires |labels| == |rows| && forall i :: 0 <= i < |rows| ==>
             labels[i] == rows[i].name && TrimSpace(rows[i].name) == rows[i].name
    ensures AllResolved(b, labels).next - b.next == |Lowered(rows) - IndexOf(listing).Keys|
  {
    hide TrimSpace, ToLower, IndexOf, AllResolved;
    CreatedExactly(b, labels);
    forall i | 0 <= i < |rows|
      ensures Key(labels[i]) == ToLower(rows[i].name)
    {
    }
    forall k | k in NamesOf(labels)
      ensures k in Lowered(rows)
    {
      var i :| 0 <= i < |labels| && Key(labels[i]) == k;
      assert ToLower(rows[i].name) == k;
    }
    forall k | k in Lowered(rows)
      ensures k in NamesOf(labels)
    {
      var i :| 0 <= i < |rows| && ToLower(rows[i].name) == k;
      assert Key(labels[i]) == k;
    }
    assert NamesOf(labels) == Lowered(rows);
  }
}
