// Where the review's counts and the rows a restore creates or deletes part,
// and exactly when they do not.
module PreviewDisagreements {
  import opened Common
  import opened NaturalKeys
  import opened Text
  import opened RadioTables
  import opened BackupFile
  import opened Preview
  import opened PreviewMeaning
  import opened RestoreMonitors
  import opened RestoreConfig
  import opened RestoreReplace
  import opened Restore
  import opened RestoreTheorems
  import opened MonitorTheorems
  import opened PreviewTheorems

  // ---- Removed: a table the file carries only in part ----

  /** The rows whose system number the file does not list. */
  ghost function OfLostSystems(keys: map<Pk, RadioKey>, listed: set<int>): set<Pk> {
    set pk | pk in keys && keys[pk].0 !in listed
  }

  ghost predicate AllOfListed(keys: map<Pk, RadioKey>, listed: set<int>) {
    forall pk :: pk in keys ==> keys[pk].0 in listed
  }

  /** A review that reports nothing is right exactly when no row goes with its system. */
  lemma CascadeOf(keys0: map<Pk, RadioKey>, after: set<Pk>, listed: set<int>)
    requires forall pk :: pk in keys0 ==> (pk in after <==> keys0[pk].0 in listed)
    ensures keys0.Keys - after == OfLostSystems(keys0, listed)
    ensures 0 == |keys0.Keys - after| <==> AllOfListed(keys0, listed)
  {
    assert keys0.Keys - after == OfLostSystems(keys0, listed);
    if !AllOfListed(keys0, listed) {
      var pk :| pk in keys0 && keys0[pk].0 !in listed;
      assert pk in OfLostSystems(keys0, listed);
    }
  }

  /** A file with systems and without talkgroups or units: the review reports none removed, and the restore deletes
      those of every system the file lacks. */
  lemma {:induction false} CascadesNotReviewed(t0: Tables, t: Tables, f: File, p: BackupPreview)
    requires ForeignKeys(t0) && ForeignKeys(t) && PreviewSays(p, t0, f)
    requires f.mode.Replace? && Survivors(t0, t, f) && f.systems.Some?
    ensures var listed := SystemsIn(Rows(f.systems)).Keys;
            && (f.talkgroups.None? ==>
                  && p.talkgroups.removed == 0
                  && t0.talkgroups.Keys - t.talkgroups.Keys == OfLostSystems(TalkgroupKeys(t0), listed)
                  && (p.talkgroups.removed == |t0.talkgroups.Keys - t.talkgroups.Keys|
                      <==> AllOfListed(TalkgroupKeys(t0), listed)))
            && (f.units.None? ==>
                  && p.units.removed == 0
                  && t0.units.Keys - t.units.Keys == OfLostSystems(UnitKeys(t0), listed)
                  && (p.units.removed == |t0.units.Keys - t.units.Keys| <==> AllOfListed(UnitKeys(t0), listed)))
  {
    hide ForeignKeys, FileTalkgroups, FileUnits, SystemsIn, LabelsSurvive, SystemsSurvive, TalkgroupKeys, UnitKeys,
      OfLostSystems, AllOfListed, Differing, Missing;
    var listed := SystemsIn(Rows(f.systems)).Keys;
    if f.talkgroups.None? {
      CascadeOf(TalkgroupKeys(t0), t.talkgroups.Keys, listed);
    }
    if f.units.None? {
      CascadeOf(UnitKeys(t0), t.units.Keys, listed);
    }
  }

  /** The review's Removed for a table of radio rows is right exactly when: with only the systems carried, every live
      row's system is in the file; with the systems missing, there is no live row. */
  ghost predicate RemovedRight(systems: bool, carried: bool, keys0: map<Pk, RadioKey>, listed: set<int>) {
    && (systems && !carried ==> AllOfListed(keys0, listed))
    && (!systems && carried ==> keys0.Keys == {})
  }

  lemma {:induction false} RemovedExact(t0: Tables, t: Tables, f: File, p: BackupPreview)
    requires ForeignKeys(t0) && ForeignKeys(t) && PreviewSays(p, t0, f)
    requires f.mode.Replace? && Survivors(t0, t, f)
    ensures var listed := SystemsIn(Rows(f.systems)).Keys;
            && (p.talkgroups.removed == |t0.talkgroups.Keys - t.talkgroups.Keys|
                <==> RemovedRight(f.systems.Some?, f.talkgroups.Some?, TalkgroupKeys(t0), listed))
            && (p.units.removed == |t0.units.Keys - t.units.Keys|
                <==> RemovedRight(f.systems.Some?, f.units.Some?, UnitKeys(t0), listed))
  {
    hide ForeignKeys, FileTalkgroups, FileUnits, SystemsIn, PreviewSays, Survivors, AllOfListed;
    if f.systems.Some? {
      CascadesNotReviewed(t0, t, f, p);
      RemovedAgrees(t0, t, f, p);
    } else {
      RemovedDisagrees(t0, t, f, p);
      NothingLeaves(t0, t, f, p);
    }
  }

  lemma NothingLeaves(t0: Tables, t: Tables, f: File, p: BackupPreview)
    requires ForeignKeys(t0) && ForeignKeys(t) && PreviewSays(p, t0, f) && Survivors(t0, t, f) && f.systems.None?
    ensures f.talkgroups.None? ==> p.talkgroups.removed == |t0.talkgroups.Keys - t.talkgroups.Keys|
    ensures f.units.None? ==> p.units.removed == |t0.units.Keys - t.units.Keys|
  {
    hide ForeignKeys, FileTalkgroups, FileUnits, SystemsIn, LabelsSurvive, SystemsSurvive, TalkgroupKeys, UnitKeys,
      Differing, Missing;
    assert t0.talkgroups.Keys - t.talkgroups.Keys == {};
    assert t0.units.Keys - t.units.Keys == {};
  }

  /** One system with one talkgroup, and a Replace file whose systems table is empty and that has no talkgroups
      table: the review reports nothing removed, and the talkgroup goes. */
  lemma {:induction false} CascadeExample(t: Tables, p: BackupPreview)
    requires var s := System(1, SystemFields("", 0, None, None, 0));
             var tg := Talkgroup(Pk(1), 100, TalkgroupFields(None, None, None, None, 0), None, None);
             var t0 := Tables(map[], map[], map[Pk(1) := s], map[Pk(1) := tg], map[], map[]);
             var f := File(Replace, None, None, Some([]), None, None, None);
             ForeignKeys(t) && ForeignKeys(t0) && Survivors(t0, t, f) && PreviewSays(p, t0, f)
    ensures p.talkgroups.removed == 0 && Pk(1) !in t.talkgroups
  {
    var s := System(1, SystemFields("", 0, None, None, 0));
    var tg := Talkgroup(Pk(1), 100, TalkgroupFields(None, None, None, None, 0), None, None);
    var t0 := Tables(map[], map[], map[Pk(1) := s], map[Pk(1) := tg], map[], map[]);
    var f := File(Replace, None, None, Some([]), None, None, None);
    assert TalkgroupKeys(t0)[Pk(1)] == (1, 100);
    hide ForeignKeys, Survivors, PreviewSays, TalkgroupKeys;
    CascadesNotReviewed(t0, t, f, p);
  }

  // ---- Removed: folder monitors ----

  lemma {:induction false} MonitorsInKeys(rows: seq<Row<Monitor>>)
    ensures MonitorsIn(rows).Keys == Directories(rows)
  {
    if rows != [] {
      var n := |rows| - 1;
      MonitorsInKeys(rows[..n]);
      DirectoriesStep(rows, n);
      assert rows[..n + 1] == rows;
    }
  }

  /** The review's Removed for folder monitors: right exactly when no live monitor of a listed directory is shadowed. */
  lemma {:induction false} MonitorsRemovedAgree(m0: map<Pk, Monitor>, m: map<Pk, Monitor>, f: File, e: Entity)
    requires f.mode.Replace? && f.monitors.Some? && MonitorsSurvive(m0, m, f)
    requires Reports(e, true, DirectoryOf(m0), m0, MonitorsIn(Rows(f.monitors)), MonitorPrint)
    ensures var shadowed := Shadowed(m0, Directories(Rows(f.monitors)));
            && |m0.Keys - m.Keys| == e.removed + |shadowed|
            && (e.removed == |m0.Keys - m.Keys| <==> shadowed == {})
  {
    hide MonitorPrint, Differing, Missing, Shadowed, MonitorsIn, Directories, MonitorsSurvive, DirectoryOf;
    var rows := Rows(f.monitors);
    MonitorsInKeys(rows);
    MonitorsGone(m0, m, f);
    TwoKinds(m0.Keys - m.Keys, Missing(DirectoryOf(m0), Directories(rows)), Shadowed(m0, Directories(rows)));
  }

  lemma MonitorsGone(m0: map<Pk, Monitor>, m: map<Pk, Monitor>, f: File)
    requires f.mode.Replace? && f.monitors.Some? && MonitorsSurvive(m0, m, f)
    ensures var dirs := Directories(Rows(f.monitors));
            var missing, shadowed := Missing(DirectoryOf(m0), dirs), Shadowed(m0, dirs);
            m0.Keys - m.Keys == missing + shadowed && missing !! shadowed
  {
    hide LastFor, Directories;
    var dirs := Directories(Rows(f.monitors));
    var missing, shadowed := Missing(DirectoryOf(m0), dirs), Shadowed(m0, dirs);
    forall pk | pk in m0
      ensures pk !in m <==> pk in missing || pk in shadowed
      ensures !(pk in missing && pk in shadowed)
    {
      assert DirectoryOf(m0)[pk] == m0[pk].directory;
    }
    assert missing <= m0.Keys && shadowed <= m0.Keys;
    hide Missing, Shadowed, MonitorsSurvive, DirectoryOf;
  }

  /** The schema lets two monitors share a directory: a file with one of them removes the other, and the review says
      nothing. */
  lemma {:induction false} ShadowedExample()
    ensures var d := Monitor("a", MonitorFields("", None, None, None, None, 0, 0, 0), None, None, 0);
            Shadowed(map[Pk(1) := d, Pk(2) := d], {"a"}) == {Pk(1)}
  {
    var d := Monitor("a", MonitorFields("", None, None, None, None, 0, 0, 0), None, None, 0);
    var m0 := map[Pk(1) := d, Pk(2) := d];
    assert m0[Pk(1)] == d && m0[Pk(2)] == d && Pk(2) in m0;
    assert !LastFor(m0, Pk(1)) && LastFor(m0, Pk(2));
  }

  // ---- Added: folder monitors ----

  /** The review's Added for folder monitors never exceeds the rows created, and equals them exactly when the file
      lists no directory that has none twice. */
  lemma {:induction false} MonitorsAddedAgree(m0: map<Pk, Monitor>, m: map<Pk, Monitor>, f: File, w: Placement,
    e: Entity)
    requires f.monitors.Some? && MonitorsRestored(m0, m, f, w)
    requires Reports(e, true, DirectoryOf(m0), m0, MonitorsIn(Rows(f.monitors)), MonitorPrint)
    ensures |m.Keys - m0.Keys| == RowsWithout(Rows(f.monitors), Live(m0))
    ensures e.added <= |m.Keys - m0.Keys|
    ensures e.added == |m.Keys - m0.Keys| <==> !ListedTwice(Rows(f.monitors), Live(m0))
  {
    hide MonitorPrint, Differing, Missing, MonitorsIn, Directories, MonitorsRestored, ListedTwice;
    var rows := Rows(f.monitors);
    MonitorsInKeys(rows);
    LiveDirectories(m0);
    MonitorsCreated(m0, m, f, w);
    NewDirectories(rows, Live(m0));
  }

  lemma LiveDirectories(m: map<Pk, Monitor>)
    ensures DirectoryOf(m).Values == Live(m)
  {
    forall d | d in Live(m)
      ensures d in DirectoryOf(m).Values
    {
      var pk :| pk in m && m[pk].directory == d;
      assert DirectoryOf(m)[pk] == d;
    }
  }

  /** A file that lists the new directory "a" twice: one Added says the review, two monitors made by the restore. */
  lemma {:induction false} AddedTwiceExample(m: map<Pk, Monitor>, mode: Mode, w: Placement, e: Entity)
    requires var rows := [Row(Pk(7), Plain("a", 0)), Row(Pk(8), Plain("a", 0))];
             && MonitorsRestored(map[], m, File(mode, None, None, None, None, None, Some(rows)), w)
             && Reports(e, true, DirectoryOf(map[]), map[], MonitorsIn(rows), MonitorPrint)
    ensures e.added == 1 && |m| == 2
  {
    hide MonitorPrint, Differing, Missing, MonitorsRestored;
    var d := Plain("a", 0);
    var rows := [Row(Pk(7), d), Row(Pk(8), d)];
    var none: map<Pk, Monitor> := map[];
    assert rows[..1] == [Row(Pk(7), d)] && rows[..1][..0] == [];
    assert RowsWithout(rows, {}) == 2 && MonitorsIn(rows) == map["a" := d];
    MonitorsCreated(none, m, File(mode, None, None, None, None, None, Some(rows)), w);
    assert Live(none) == {} && DirectoryOf(none).Values == {};
    assert m.Keys - none.Keys == m.Keys;
  }

  // ---- Added: labels reviewed ignoring case and space, created as spelled ----

  /** The keys under which the review compares a set of labels. */
  ghost function FoldedSet(labels: set<string>): set<string> {
    set l | l in labels :: LabelKey(l)
  }

  ghost predicate ApartFolded(labels: set<string>) {
    forall a, b :: a in labels && b in labels && LabelKey(a) == LabelKey(b) ==> a == b
  }

  /** Folding never makes more labels, and keeps their number exactly when no two fold alike. */
  lemma {:induction false} FoldedSize(labels: set<string>)
    ensures |FoldedSet(labels)| <= |labels|
    ensures |FoldedSet(labels)| == |labels| <==> ApartFolded(labels)
    decreases |labels|
  {
    hide LabelKey;
    if labels != {} {
      var l :| l in labels;
      var rest := labels - {l};
      FoldedSize(rest);
      assert labels == rest + {l};
      assert FoldedSet(labels) == FoldedSet(rest) + {LabelKey(l)};
      if LabelKey(l) in FoldedSet(rest) {
        var o :| o in rest && LabelKey(o) == LabelKey(l);
        assert !ApartFolded(labels);
      }
    }
  }

  /** The labels a restore creates: those of the file that are not live as spelled. */
  ghost function NewLabels(m0: map<Pk, string>, carried: Option<seq<Row<string>>>): set<string> {
    Labels(Rows(carried)) - m0.Values
  }

  /** No two new labels, and no new and no live one, differ by case or surrounding space only. */
  ghost predicate SpelledApart(m0: map<Pk, string>, born: set<string>) {
    && ApartFolded(born)
    && forall l, pk :: l in born && pk in m0 ==> LabelKey(l) != LabelKey(m0[pk])
  }

  /** The new labels the review does not take for a live one. */
  ghost function Unseen(m0: map<Pk, string>, born: set<string>): set<string> {
    set l | l in born && LabelKey(l) !in LabelKeys(m0).Values
  }

  lemma UnseenFolded(m0: map<Pk, string>, carried: Option<seq<Row<string>>>)
    ensures FoldedSet(Unseen(m0, NewLabels(m0, carried))) == Folded(Rows(carried)).Keys - LabelKeys(m0).Values
  {
    hide Labels, Folded, LabelKey;
    var rows, unseen := Rows(carried), Unseen(m0, NewLabels(m0, carried));
    FoldedKeys(rows);
    forall s | s in Folded(rows).Keys - LabelKeys(m0).Values
      ensures s in FoldedSet(unseen)
    {
      var l :| l in Labels(rows) && LabelKey(l) == s;
      LiveKey(m0, l);
      assert l in unseen;
    }
  }

  lemma LiveKey(m0: map<Pk, string>, l: string)
    ensures l in m0.Values ==> LabelKey(l) in LabelKeys(m0).Values
  {
    hide LabelKey;
    if l in m0.Values {
      var pk :| pk in m0 && m0[pk] == l;
      assert LabelKeys(m0)[pk] == LabelKey(l);
    }
  }

  lemma UnseenAll(m0: map<Pk, string>, born: set<string>)
    ensures Unseen(m0, born) <= born
    ensures Unseen(m0, born) == born <==> forall l, pk :: l in born && pk in m0 ==> LabelKey(l) != LabelKey(m0[pk])
  {
    hide LabelKey;
    if forall l, pk :: l in born && pk in m0 ==> LabelKey(l) != LabelKey(m0[pk]) {
      forall l | l in born
        ensures LabelKey(l) !in LabelKeys(m0).Values
      {
      }
    } else {
      var l, pk :| l in born && pk in m0 && LabelKey(l) == LabelKey(m0[pk]);
      assert LabelKeys(m0)[pk] == LabelKey(l);
      assert l !in Unseen(m0, born);
    }
  }

  lemma {:induction false} LabelsCreated(m0: map<Pk, string>, m: map<Pk, string>, mode: Mode,
    carried: Option<seq<Row<string>>>)
    requires Injective(m0) && Injective(m) && LabelsSurvive(m0, m, mode, carried) && Labels(Rows(carried)) <= m.Values
    ensures |m.Keys - m0.Keys| == |NewLabels(m0, carried)|
  {
    hide Labels, Injective;
    NewRowsAreAdded(m0, m, Labels(Rows(carried)));
  }

  /** The review's Added for groups and tags never exceeds the labels created, and equals them exactly when no new label
      differs from another new one or from a live one by case or space only. */
  lemma {:induction false} LabelsAddedAgree(m0: map<Pk, string>, m: map<Pk, string>, mode: Mode,
    carried: Option<seq<Row<string>>>, e: Entity)
    requires carried.Some? && Injective(m0) && Injective(m) && LabelsSurvive(m0, m, mode, carried)
             && Labels(Rows(carried)) <= m.Values
    requires Reports(e, true, LabelKeys(m0), NoPrint(m0), Folded(Rows(carried)), Same)
    ensures var born := NewLabels(m0, carried);
            && |m.Keys - m0.Keys| == |born|
            && e.added <= |m.Keys - m0.Keys|
            && (e.added == |m.Keys - m0.Keys| <==> SpelledApart(m0, born))
  {
    hide Labels, Folded, LabelKey, LabelKeys, NoPrint, Differing, Missing, Injective, LabelsSurvive, FoldedSet,
      NewLabels, Unseen;
    var born := NewLabels(m0, carried);
    var unseen := Unseen(m0, born);
    LabelsCreated(m0, m, mode, carried);
    UnseenFolded(m0, carried);
    UnseenAll(m0, born);
    FoldedSize(unseen);
    SubsetSize(unseen, born);
    if unseen != born {
      assert |born - unseen| > 0;
      assert |born| == |unseen| + |born - unseen| by { assert born == unseen + (born - unseen); }
    }
  }

  /** In either mode, for the groups and the tags of a whole restore. */
  lemma {:induction false} LabelsAdded(t0: Tables, t: Tables, f: File, p: BackupPreview)
    requires Sound(t0) && Sound(t) && ForeignKeys(t0) && ForeignKeys(t) && PreviewSays(p, t0, f)
    requires Survivors(t0, t, f) && ViewOf(t) == Restored(ViewOf(t0), f)
    ensures f.groups.Some? ==>
              (p.groups.added == |t.groups.Keys - t0.groups.Keys|
               <==> SpelledApart(t0.groups, NewLabels(t0.groups, f.groups)))
    ensures f.tags.Some? ==>
              (p.tags.added == |t.tags.Keys - t0.tags.Keys| <==> SpelledApart(t0.tags, NewLabels(t0.tags, f.tags)))
  {
    hide ForeignKeys, FileTalkgroups, FileUnits, SystemsIn, LabelsSurvive, SystemsSurvive, TalkgroupsSurvive,
      UnitsSurvive, Restored, Injective, Labels, Within, Reports, SpelledApart, NewLabels;
    SoundKeys(t0);
    SoundKeys(t);
    hide Sound;
    RestoreKeepsFile(ViewOf(t0), f);
    if f.groups.Some? { LabelsAddedAgree(t0.groups, t.groups, f.mode, f.groups, p.groups); }
    if f.tags.Some? { LabelsAddedAgree(t0.tags, t.tags, f.mode, f.tags, p.tags); }
  }

  /** A file that spells the live group FIRE as Fire: nothing added says the review, one group created by the
      restore. */
  lemma {:induction false} AddedExample(m: map<Pk, string>, mode: Mode, e: Entity)
    requires var m0, carried := map[Pk(1) := "FIRE"], Some([Row(Pk(7), "Fire")]);
             && Injective(m) && LabelsSurvive(m0, m, mode, carried) && Labels(Rows(carried)) <= m.Values
             && Reports(e, true, LabelKeys(m0), NoPrint(m0), Folded(Rows(carried)), Same)
    ensures e.added == 0 && |m.Keys - map[Pk(1) := "FIRE"].Keys| == 1
  {
    hide LabelKey, Labels, Folded, Injective, LabelsSurvive;
    var m0, rows := map[Pk(1) := "FIRE"], [Row(Pk(7), "Fire")];
    FireFile();
    assert m0[Pk(1)] == "FIRE" && LabelKeys(m0)[Pk(1)] == LabelKey("FIRE");
    assert Folded(rows).Keys - LabelKeys(m0).Values == {};
    assert m0.Values == {"FIRE"};
    assert NewLabels(m0, Some(rows)) == {"Fire"};
    LabelsCreated(m0, m, mode, Some(rows));
  }

  lemma FireFile()
    ensures Injective(map[Pk(1) := "FIRE"])
    ensures "FIRE" != "Fire" && Labels([Row(Pk(7), "Fire")]) == {"Fire"}
    ensures Folded([Row(Pk(7), "Fire")]) == map[LabelKey("FIRE") := ""]
  {
    var rows := [Row(Pk(7), "Fire")];
    assert rows[..0] == [];
    FireFolds();
    hide LabelKey;
    assert Labels(rows) == {"Fire"};
    assert Folded(rows) == map[LabelKey("Fire") := ""];
  }

  lemma FireFolds()
    ensures LabelKey("FIRE") == LabelKey("Fire") && "FIRE" != "Fire"
  {
    assert "FIRE"[0] == 'F' && "FIRE"[1] == 'I' && "FIRE"[3] == 'E' && "Fire"[0] == 'F' && "Fire"[1] == 'i'
      && "Fire"[3] == 'e';
  }

  // ---- Changed: the rows a restore alters ----

  ghost function Altered<V(!new)>(vals0: map<Pk, V>, vals: map<Pk, V>): set<Pk> {
    set pk | pk in vals0 && pk in vals && vals[pk] != vals0[pk]
  }

  /** Rows the file says otherwise, in ways the fingerprint does not show: NULL against empty, the case of a label. */
  ghost function Silent<K(!new), V(!new)>(keys0: map<Pk, K>, vals0: map<Pk, V>, listed: map<K, V>,
    fp: V -> string): set<Pk>
    requires keys0.Keys == vals0.Keys
  {
    set pk | pk in keys0 && keys0[pk] in listed && vals0[pk] != listed[keys0[pk]]
      && fp(vals0[pk]) == fp(listed[keys0[pk]])
  }

  /** A review that counts so many rows as changed misses exactly the silent ones. */
  ghost predicate CountsAltered<K(!new), V(!new)>(changed: nat, keys0: map<Pk, K>, vals0: map<Pk, V>, vals: map<Pk, V>,
    listed: map<K, V>, fp: V -> string)
    requires keys0.Keys == vals0.Keys
  {
    && |Altered(vals0, vals)| == changed + |Silent(keys0, vals0, listed, fp)|
    && (changed == |Altered(vals0, vals)| <==> Silent(keys0, vals0, listed, fp) == {})
  }

  lemma {:induction false} AlteredRows<K(!new), V(!new)>(keys0: map<Pk, K>, vals0: map<Pk, V>, vals: map<Pk, V>,
    listed: map<K, V>, fp: V -> string)
    requires keys0.Keys == vals0.Keys
    requires forall pk :: pk in keys0 && keys0[pk] in listed ==> pk in vals && vals[pk] == listed[keys0[pk]]
    requires forall pk :: pk in keys0 && keys0[pk] !in listed && pk in vals ==> vals[pk] == vals0[pk]
    ensures CountsAltered(|Differing(keys0, vals0, listed, fp)|, keys0, vals0, vals, listed, fp)
  {
    var altered, differing, silent := Altered(vals0, vals), Differing(keys0, vals0, listed, fp),
      Silent(keys0, vals0, listed, fp);
    forall pk
      ensures pk in altered <==> pk in differing || pk in silent
    {
    }
    TwoKinds(altered, differing, silent);
  }

  /** What the file does not list is as it was. */
  ghost predicate UnlistedSame<K(!new), V(!new)>(view0: map<K, V>, view: map<K, V>, listed: map<K, V>) {
    forall k :: k in view && k !in listed ==> k in view0 && view[k] == view0[k]
  }

  /** A restored table holds what the file lists, and otherwise what it held. */
  lemma RowsTaken<K(!new), V(!new)>(keys0: map<Pk, K>, vals0: map<Pk, V>, keys: map<Pk, K>, vals: map<Pk, V>,
    listed: map<K, V>, fp: V -> string)
    requires keys0.Keys == vals0.Keys && keys.Keys == vals.Keys && Injective(keys0) && Injective(keys)
             && SameOn(keys0, keys)
    requires forall pk :: pk in keys0 && keys0[pk] in listed ==> pk in keys
    requires Within(listed, Keyed(keys, vals))
    requires UnlistedSame(Keyed(keys0, vals0), Keyed(keys, vals), listed)
    ensures CountsAltered(|Differing(keys0, vals0, listed, fp)|, keys0, vals0, vals, listed, fp)
  {
    hide Injective, Keyed, CountsAltered;
    forall pk | pk in keys0
      ensures keys0[pk] in listed ==> pk in vals && vals[pk] == listed[keys0[pk]]
      ensures keys0[pk] !in listed && pk in vals ==> vals[pk] == vals0[pk]
    {
      KeyedAt(keys0, vals0, pk);
      if pk in keys { KeyedAt(keys, vals, pk); }
    }
    AlteredRows(keys0, vals0, vals, listed, fp);
  }

  /** Nothing the file does not list is altered in a table that was carried, with the systems for a Replace. */
  lemma UnlistedKept(v: View, f: File)
    requires f.mode.Replace? ==> f.systems.Some?
    ensures var r := Restored(v, f);
            && UnlistedSame(v.systems, r.systems, SystemsIn(Rows(f.systems)))
            && (f.talkgroups.Some? ==> UnlistedSame(v.talkgroups, r.talkgroups, FileTalkgroups(f)))
            && (f.units.Some? ==> UnlistedSame(v.units, r.units, FileUnits(f)))
  {
    hide FileTalkgroups, FileUnits, SystemsIn, Labels, Relabelled;
  }

  /** What a restore alters in the table, against the review's Changed. */
  ghost predicate ChangedRight(p: BackupPreview, t0: Tables, t: Tables, f: File)
    requires ForeignKeys(t0)
  {
    && (f.systems.Some? ==>
          CountsAltered(p.systems.changed, SystemKeys(t0.systems), SystemVals(t0.systems), SystemVals(t.systems),
            SystemsIn(Rows(f.systems)), SystemPrint))
    && (f.talkgroups.Some? && (f.mode.Replace? ==> f.systems.Some?) ==>
          CountsAltered(p.talkgroups.changed, TalkgroupKeys(t0), TalkgroupVals(t0), TalkgroupVals(t), FileTalkgroups(f),
            TalkgroupPrint))
    && (f.units.Some? && (f.mode.Replace? ==> f.systems.Some?) ==>
          CountsAltered(p.units.changed, UnitKeys(t0), UnitVals(t0), UnitVals(t), FileUnits(f), UnitPrint))
  }

  /** For each radio table the file carries, with the systems for a Replace, the rows whose fields a restore alters
      are the review's Changed and the silently altered ones. */
  lemma {:induction false} ChangedExact(t0: Tables, t: Tables, f: File, p: BackupPreview)
    requires Sound(t0) && Sound(t) && ForeignKeys(t0) && ForeignKeys(t) && PreviewSays(p, t0, f)
    requires Survivors(t0, t, f) && ViewOf(t) == Restored(ViewOf(t0), f)
    ensures ChangedRight(p, t0, t, f)
  {
    hide Sound, ForeignKeys, FileTalkgroups, FileUnits, SystemsIn, Labels, Restored, Injective, Keyed, TalkgroupKeys,
      UnitKeys, SystemKeys, CountsAltered, Differing, Missing, Survivors, TalkgroupVals, UnitVals, SystemVals, Within;
    KeysInjective(t0);
    KeysInjective(t);
    RestoreKeepsFile(ViewOf(t0), f);
    ListedSurvive(t0, t, f);
    if f.mode.Replace? ==> f.systems.Some? {
      UnlistedKept(ViewOf(t0), f);
      if f.systems.Some? { SystemsChanged(t0, t, f); }
      if f.talkgroups.Some? { TalkgroupsChanged(t0, t, f); }
      if f.units.Some? { UnitsChanged(t0, t, f); }
    }
    hide ViewOf;
  }

  lemma SystemsChanged(t0: Tables, t: Tables, f: File)
    requires Injective(SystemKeys(t0.systems)) && Injective(SystemKeys(t.systems))
    requires SameOn(SystemKeys(t0.systems), SystemKeys(t.systems))
    requires forall pk :: pk in t0.systems && SystemKeys(t0.systems)[pk] in SystemsIn(Rows(f.systems)) ==>
             pk in t.systems
    requires Within(SystemsIn(Rows(f.systems)), SystemsView(t.systems))
    requires UnlistedSame(SystemsView(t0.systems), SystemsView(t.systems), SystemsIn(Rows(f.systems)))
    ensures var listed, keys0, vals0 := SystemsIn(Rows(f.systems)), SystemKeys(t0.systems), SystemVals(t0.systems);
            CountsAltered(|Differing(keys0, vals0, listed, SystemPrint)|, keys0, vals0, SystemVals(t.systems), listed,
              SystemPrint)
  {
    hide SystemsIn, Injective, Keyed, SystemKeys, CountsAltered, Differing, SystemVals, Within, SameOn;
    RowsTaken(SystemKeys(t0.systems), SystemVals(t0.systems), SystemKeys(t.systems), SystemVals(t.systems),
      SystemsIn(Rows(f.systems)), SystemPrint);
  }

  lemma TalkgroupsChanged(t0: Tables, t: Tables, f: File)
    requires ForeignKeys(t0) && ForeignKeys(t) && Injective(TalkgroupKeys(t0)) && Injective(TalkgroupKeys(t))
    requires SameOn(TalkgroupKeys(t0), TalkgroupKeys(t)) && Within(FileTalkgroups(f), TalkgroupsView(t))
    requires forall pk :: pk in t0.talkgroups && TalkgroupKeys(t0)[pk] in FileTalkgroups(f) ==> pk in t.talkgroups
    requires UnlistedSame(TalkgroupsView(t0), TalkgroupsView(t), FileTalkgroups(f))
    ensures var listed, keys0, vals0 := FileTalkgroups(f), TalkgroupKeys(t0), TalkgroupVals(t0);
            CountsAltered(|Differing(keys0, vals0, listed, TalkgroupPrint)|, keys0, vals0, TalkgroupVals(t), listed,
              TalkgroupPrint)
  {
    hide ForeignKeys, FileTalkgroups, Injective, Keyed, TalkgroupKeys, CountsAltered, Differing, TalkgroupVals, Within,
      SameOn;
    RowsTaken(TalkgroupKeys(t0), TalkgroupVals(t0), TalkgroupKeys(t), TalkgroupVals(t), FileTalkgroups(f),
      TalkgroupPrint);
  }

  lemma UnitsChanged(t0: Tables, t: Tables, f: File)
    requires ForeignKeys(t0) && ForeignKeys(t) && Injective(UnitKeys(t0)) && Injective(UnitKeys(t))
    requires SameOn(UnitKeys(t0), UnitKeys(t)) && Within(FileUnits(f), UnitsView(t))
    requires forall pk :: pk in t0.units && UnitKeys(t0)[pk] in FileUnits(f) ==> pk in t.units
    requires UnlistedSame(UnitsView(t0), UnitsView(t), FileUnits(f))
    ensures var listed, keys0, vals0 := FileUnits(f), UnitKeys(t0), UnitVals(t0);
            CountsAltered(|Differing(keys0, vals0, listed, UnitPrint)|, keys0, vals0, UnitVals(t), listed, UnitPrint)
  {
    hide ForeignKeys, FileUnits, Injective, Keyed, UnitKeys, CountsAltered, Differing, UnitVals, Within, SameOn;
    RowsTaken(UnitKeys(t0), UnitVals(t0), UnitKeys(t), UnitVals(t), FileUnits(f), UnitPrint);
  }

  /** Whatever the file lists stays, under the same key. */
  lemma ListedSurvive(t0: Tables, t: Tables, f: File)
    requires ForeignKeys(t0) && ForeignKeys(t) && Survivors(t0, t, f)
    ensures SameOn(SystemKeys(t0.systems), SystemKeys(t.systems)) && SameOn(TalkgroupKeys(t0), TalkgroupKeys(t))
    ensures SameOn(UnitKeys(t0), UnitKeys(t))
    ensures forall pk :: pk in t0.systems && SystemKeys(t0.systems)[pk] in SystemsIn(Rows(f.systems)) ==>
            pk in t.systems
    ensures f.talkgroups.Some? ==>
              forall pk :: pk in t0.talkgroups && TalkgroupKeys(t0)[pk] in FileTalkgroups(f) ==> pk in t.talkgroups
    ensures f.units.Some? ==> forall pk :: pk in t0.units && UnitKeys(t0)[pk] in FileUnits(f) ==> pk in t.units
  {
    hide ForeignKeys, FileTalkgroups, FileUnits, SystemsIn, LabelsSurvive, TalkgroupKeys, UnitKeys, Stays;
    forall pk | pk in t0.talkgroups
      ensures f.talkgroups.Some? && TalkgroupKeys(t0)[pk] in FileTalkgroups(f) ==> pk in t.talkgroups
    {
      ListedStays(f, TalkgroupKeys(t0)[pk]);
    }
    forall pk | pk in t0.units
      ensures f.units.Some? && UnitKeys(t0)[pk] in FileUnits(f) ==> pk in t.units
    {
      ListedStays(f, UnitKeys(t0)[pk]);
    }
  }

  // Folder monitors: the review compares every live monitor of a listed directory, the restore writes only the last.

  /** Monitors the review counts as changed and the restore does not write. */
  ghost function Miscounted(m0: map<Pk, Monitor>, rows: seq<Row<Monitor>>): set<Pk> {
    Differing(DirectoryOf(m0), m0, MonitorsIn(rows), MonitorPrint) * Shadowed(m0, Directories(rows))
  }

  /** Monitors whose written fields print alike but are not: NULL against empty, or another system or talkgroup. */
  ghost function MonitorsSilent(m0: map<Pk, Monitor>, m: map<Pk, Monitor>, rows: seq<Row<Monitor>>): set<Pk> {
    Altered(m0, m) - Differing(DirectoryOf(m0), m0, MonitorsIn(rows), MonitorPrint)
  }

  /** The monitors a restore alters and those it never writes though they count, against the review's Changed and the
      silently altered ones. */
  ghost predicate MonitorsChangedRight(e: Entity, m0: map<Pk, Monitor>, m: map<Pk, Monitor>, rows: seq<Row<Monitor>>) {
    |Altered(m0, m)| + |Miscounted(m0, rows)| == e.changed + |MonitorsSilent(m0, m, rows)|
  }

  lemma {:induction false} MonitorsChanged(m0: map<Pk, Monitor>, m: map<Pk, Monitor>, f: File, w: Placement, e: Entity)
    requires f.monitors.Some? && MonitorsRestored(m0, m, f, w)
    requires Reports(e, true, DirectoryOf(m0), m0, MonitorsIn(Rows(f.monitors)), MonitorPrint)
    ensures MonitorsChangedRight(e, m0, m, Rows(f.monitors))
  {
    hide MonitorPrint, Missing, MonitorsIn, Directories, MonitorsRestored, LastFor, Differing;
    var rows := Rows(f.monitors);
    var differing, altered := Differing(DirectoryOf(m0), m0, MonitorsIn(rows), MonitorPrint), Altered(m0, m);
    var silent, miscounted := altered - differing, differing * Shadowed(m0, Directories(rows));
    forall pk
      ensures pk in differing && pk !in altered <==> pk in miscounted
    {
      DifferingWritten(m0, m, f, w, pk);
    }
    hide Altered, Shadowed;
    Overlap(altered, differing, miscounted);
  }

  lemma Overlap<T(!new)>(a: set<T>, b: set<T>, onlyB: set<T>)
    requires forall x :: x in b && x !in a <==> x in onlyB
    ensures |a| + |onlyB| == |b| + |a - b|
  {
    TwoKinds(b, a * b, onlyB);
    TwoKinds(a, a * b, a - b);
  }

  lemma DifferingWritten(m0: map<Pk, Monitor>, m: map<Pk, Monitor>, f: File, w: Placement, pk: Pk)
    requires f.monitors.Some? && MonitorsRestored(m0, m, f, w)
    ensures pk in Differing(DirectoryOf(m0), m0, MonitorsIn(Rows(f.monitors)), MonitorPrint) ==>
              (pk in Shadowed(m0, Directories(Rows(f.monitors))) <==> pk !in Altered(m0, m))
  {
    hide LastFor, FileMonitor, MonitorsIn, Directories;
    var rows := Rows(f.monitors);
    MonitorsInKeys(rows);
    if pk in Differing(DirectoryOf(m0), m0, MonitorsIn(rows), MonitorPrint) {
      MatchedWritten(rows, w.at, m0, pk);
      if pk in w.at {
        var i :| 0 <= i < |w.at| && w.at[i] == pk;
        LiveHolds(rows, w.at, m0, m, w.systems, w.talkgroups, i);
        LiveRow(rows, w.at, m0, i);
        PrintedSame(MonitorsIn(rows)[m0[pk].directory], w.systems, w.talkgroups);
      }
    }
  }

  lemma PrintedSame(d: Monitor, systems: map<Pk, Pk>, talkgroups: map<Pk, Pk>)
    ensures MonitorPrint(FileMonitor(d, systems, talkgroups)) == MonitorPrint(d)
  {
  }
}
