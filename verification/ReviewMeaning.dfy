// The review in plain terms: which labels count as the same, and what makes a
// folder monitor count as changed.
module ReviewMeaning {
  import opened Common
  import opened Text
  import opened RadioTables
  import opened RadioDatabase
  import opened BackupFile
  import opened Preview
  import opened PreviewMeaning
  import opened PreviewTheorems
  import TextMeaning

  // ---- Labels ----

  /** A label's key is the label in lower case without the space around it. */
  lemma {:induction false} LabelKeyIs(before: string, name: string, after: string)
    requires TextMeaning.Blank(before) && TextMeaning.Blank(after)
    requires name != "" ==> !IsSpace(name[0]) && !IsSpace(name[|name| - 1])
    ensures LabelKey(before + name + after) == ToLower(name)
  {
    TextMeaning.TrimOf(before, name, after);
  }

  /** Some row of the file has the label, ignoring case and outer space. */
  predicate Mentioned(rows: seq<Row<string>>, name: string) {
    exists i :: 0 <= i < |rows| && ToLower(TrimSpace(rows[i].value)) == ToLower(TrimSpace(name))
  }

  /** Some live label is the same, ignoring case and outer space. */
  predicate IsLive(m: map<Pk, string>, name: string) {
    exists pk :: pk in m && ToLower(TrimSpace(m[pk])) == ToLower(TrimSpace(name))
  }

  lemma {:induction false} FoldedMentions(rows: seq<Row<string>>, name: string)
    ensures LabelKey(name) in Folded(rows) <==> Mentioned(rows, name)
  {
    hide ToLower, TrimSpace;
    if rows != [] {
      var n := |rows| - 1;
      FoldedMentions(rows[..n], name);
      assert rows == rows[..n] + [rows[n]];
    }
  }

  /** A carried table of labels: the live labels the file does not mention are the removed ones, none is ever changed,
      and nothing is added exactly when some live label matches each of the file's. */
  lemma {:induction false} LabelsReviewed(t: Tables, f: File, p: BackupPreview)
    requires ForeignKeys(t) && PreviewSays(p, t, f)
    ensures p.groups.changed == 0 && p.tags.changed == 0
    ensures f.groups.Some? ==>
              p.groups.removed == |set pk | pk in t.groups && !Mentioned(f.groups.value, t.groups[pk])|
    ensures f.tags.Some? ==> p.tags.removed == |set pk | pk in t.tags && !Mentioned(f.tags.value, t.tags[pk])|
    ensures f.groups.Some? ==>
              (p.groups.added == 0 <==>
               forall i :: 0 <= i < |f.groups.value| ==> IsLive(t.groups, f.groups.value[i].value))
    ensures f.tags.Some? ==>
              (p.tags.added == 0 <==> forall i :: 0 <= i < |f.tags.value| ==> IsLive(t.tags, f.tags.value[i].value))
  {
    hide ForeignKeys, Mentioned, IsLive, Folded, LabelKey, Sizes;
    LabelSide(p.groups, t.groups, f.groups);
    LabelSide(p.tags, t.tags, f.tags);
  }

  lemma LabelSide(e: Entity, m: map<Pk, string>, carried: Option<seq<Row<string>>>)
    requires Reports(e, carried.Some?, LabelKeys(m), NoPrint(m), Folded(Rows(carried)), Same)
    ensures e.changed == 0
    ensures carried.Some? ==> e.removed == |set pk | pk in m && !Mentioned(carried.value, m[pk])|
    ensures carried.Some? ==>
              (e.added == 0 <==> forall i :: 0 <= i < |carried.value| ==> IsLive(m, carried.value[i].value))
  {
    hide Mentioned, IsLive, Folded, LabelKey;
    NoneChanged(m, Rows(carried));
    if carried.Some? {
      LabelsGoneFrom(m, carried.value);
      LabelsNew(m, carried.value);
      NoneLeft(Folded(carried.value).Keys, LabelKeys(m).Values);
    }
    hide LabelKeys, NoPrint, Missing, Differing;
  }

  lemma NoneChanged(m: map<Pk, string>, rows: seq<Row<string>>)
    ensures Differing(LabelKeys(m), NoPrint(m), Folded(rows), Same) == {}
  {
    hide Folded, LabelKey;
    NoFingerprint(rows);
  }

  lemma LabelsGoneFrom(m: map<Pk, string>, rows: seq<Row<string>>)
    ensures Missing(LabelKeys(m), Folded(rows).Keys) == set pk | pk in m && !Mentioned(rows, m[pk])
  {
    hide Mentioned, Folded, LabelKey;
    forall pk | pk in m
      ensures LabelKey(m[pk]) in Folded(rows) <==> Mentioned(rows, m[pk])
    {
      FoldedMentions(rows, m[pk]);
    }
  }

  lemma LiveIs(m: map<Pk, string>, name: string)
    ensures IsLive(m, name) <==> LabelKey(name) in LabelKeys(m).Values
  {
    var live := LabelKeys(m);
    if IsLive(m, name) {
      var pk :| pk in m && ToLower(TrimSpace(m[pk])) == ToLower(TrimSpace(name));
      assert live[pk] == LabelKey(name);
    }
  }

  lemma {:induction false} FoldedFrom(rows: seq<Row<string>>, k: string)
    ensures k in Folded(rows) <==> exists i :: 0 <= i < |rows| && LabelKey(rows[i].value) == k
  {
    hide LabelKey;
    if rows != [] {
      FoldedFrom(rows[..|rows| - 1], k);
      assert rows == rows[..|rows| - 1] + [rows[|rows| - 1]];
    }
  }

  lemma LabelsNew(m: map<Pk, string>, rows: seq<Row<string>>)
    ensures Folded(rows).Keys <= LabelKeys(m).Values <==> forall i :: 0 <= i < |rows| ==> IsLive(m, rows[i].value)
  {
    hide Folded, LabelKey, IsLive, LabelKeys;
    forall i | 0 <= i < |rows|
      ensures IsLive(m, rows[i].value) <==> LabelKey(rows[i].value) in LabelKeys(m).Values
      ensures LabelKey(rows[i].value) in Folded(rows).Keys
    {
      LiveIs(m, rows[i].value);
      FoldedFrom(rows, LabelKey(rows[i].value));
    }
    forall k | k in Folded(rows).Keys
      ensures exists i :: 0 <= i < |rows| && LabelKey(rows[i].value) == k
    {
      FoldedFrom(rows, k);
    }
  }

  lemma NoneLeft(a: set<string>, b: set<string>)
    ensures |a - b| == 0 <==> a <= b
  {
    assert |a - b| == 0 <==> a - b == {};
    if a - b == {} {
      forall x | x in a
        ensures x in b
      {
        assert x !in a - b;
      }
    }
  }

  lemma {:induction false} NoFingerprint(rows: seq<Row<string>>)
    ensures forall k :: k in Folded(rows) ==> Folded(rows)[k] == ""
  {
    hide LabelKey;
    if rows != [] { NoFingerprint(rows[..|rows| - 1]); }
  }

  // ---- Folder monitors ----

  /** Equal but for the references, which the review does not look at; NULL text is empty text. */
  predicate MonitorsAlike(a: Monitor, b: Monitor) {
    && a.fields.kind == b.fields.kind && SameText(a.fields.mask, b.fields.mask)
    && SameText(a.fields.extension, b.fields.extension) && a.fields.frequency == b.fields.frequency
    && a.fields.delay == b.fields.delay && a.fields.deleteAfter == b.fields.deleteAfter
    && a.fields.usePolling == b.fields.usePolling && a.fields.disabled == b.fields.disabled && a.order == b.order
  }

  lemma {:induction false} MonitorPrintMeaning(a: Monitor, b: Monitor)
    requires Printable(MonitorParts(a)) && Printable(MonitorParts(b))
    ensures MonitorPrint(a) == MonitorPrint(b) <==> MonitorsAlike(a, b)
  {
    hide FormatInt, IntPrint, Free, JoinPrint;
    var x, y := MonitorParts(a), MonitorParts(b);
    PrintsTellApart(x, y);
    IntPartInjective(a.fields.frequency, b.fields.frequency);
    IntPartInjective(a.fields.delay, b.fields.delay);
    PartsInjective(a.fields.deleteAfter, b.fields.deleteAfter);
    PartsInjective(a.fields.usePolling, b.fields.usePolling);
    PartsInjective(a.fields.disabled, b.fields.disabled);
    PartsInjective(a.order, b.order);
    assert x == y <==> x[0] == y[0] && x[1] == y[1] && x[2] == y[2] && x[3] == y[3] && x[4] == y[4] && x[5] == y[5]
                       && x[6] == y[6] && x[7] == y[7] && x[8] == y[8];
  }

  /** Changed is 0 for folder monitors exactly when every one whose directory the file lists is like the file's last row
      for it, whatever system and talkgroup the two point at. */
  lemma {:induction false} UnchangedMonitors(t: Tables, f: File, p: BackupPreview)
    requires ForeignKeys(t) && f.monitors.Some? && PreviewSays(p, t, f)
    requires forall pk :: pk in t.monitors ==> Printable(MonitorParts(t.monitors[pk]))
    requires forall d :: d in MonitorsIn(Rows(f.monitors)) ==> Printable(MonitorParts(MonitorsIn(Rows(f.monitors))[d]))
    ensures p.monitors.changed == 0 <==>
              forall pk :: pk in t.monitors && t.monitors[pk].directory in MonitorsIn(Rows(f.monitors)) ==>
                MonitorsAlike(t.monitors[pk], MonitorsIn(Rows(f.monitors))[t.monitors[pk].directory])
  {
    hide ForeignKeys, MonitorsIn, MonitorPrint, MonitorParts, Printable, MonitorsAlike, Sizes;
    var listed := MonitorsIn(Rows(f.monitors));
    var d := Differing(DirectoryOf(t.monitors), t.monitors, listed, MonitorPrint);
    assert p.monitors.changed == 0 <==> d == {};
    forall pk | pk in t.monitors && t.monitors[pk].directory in listed
      ensures pk in d <==> !MonitorsAlike(t.monitors[pk], listed[t.monitors[pk].directory])
    {
      MonitorPrintMeaning(t.monitors[pk], listed[t.monitors[pk].directory]);
    }
  }
}
