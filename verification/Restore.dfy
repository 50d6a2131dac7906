// The restore as one operation, with its whole contract.
module Restore {
  import opened Common
  import opened NaturalKeys
  import opened RadioTables
  import opened RadioDatabase
  import opened BackupFile
  import opened RestoreMonitors
  import opened RestorePrune
  import opened RestoreViews
  import opened RestoreFinalView
  import opened RestoreConfig
  import opened RestoreReplace

  /** Which of the rows that were there are still there, under the same primary and natural
      key; every other row is one of the file's. */
  ghost predicate Survivors(t0: Tables, t: Tables, f: File)
    requires ForeignKeys(t0) && ForeignKeys(t)
  {
    && LabelsSurvive(t0.groups, t.groups, f.mode, f.groups)
    && LabelsSurvive(t0.tags, t.tags, f.mode, f.tags)
    && SystemsSurvive(t0.systems, t.systems, f)
    && TalkgroupsSurvive(t0, t, f)
    && UnitsSurvive(t0, t, f)
  }

  ghost predicate LabelsSurvive(m0: map<Pk, string>, m: map<Pk, string>, mode: Mode,
    carried: Option<seq<Row<string>>>) {
    && SameOn(m0, m)
    && (forall pk :: pk in m0 ==> (pk in m <==> (mode.Replace? && carried.Some? ==> m0[pk] in Labels(Rows(carried)))))
    && (forall pk :: pk in m ==> pk in m0 || m[pk] in Labels(Rows(carried)))
  }

  ghost predicate SystemsSurvive(m0: map<Pk, System>, m: map<Pk, System>, f: File) {
    && SameOn(SystemKeys(m0), SystemKeys(m))
    && (forall pk ::
         pk in m0 ==>
         (pk in m <==> (f.mode.Replace? && f.systems.Some? ==> m0[pk].number in SystemsIn(Rows(f.systems)))))
    && (forall pk :: pk in m ==> pk in m0 || m[pk].number in SystemsIn(Rows(f.systems)))
  }

  ghost predicate TalkgroupsSurvive(t0: Tables, t: Tables, f: File)
    requires ForeignKeys(t0) && ForeignKeys(t)
  {
    && SameOn(TalkgroupKeys(t0), TalkgroupKeys(t))
    && (forall pk :: pk in t0.talkgroups ==>
         (pk in t.talkgroups
          <==> (f.mode.Replace? ==> Stays(f, f.talkgroups.Some?, FileTalkgroups(f).Keys, TalkgroupKeys(t0)[pk]))))
    && (forall pk :: pk in t.talkgroups ==> pk in t0.talkgroups || TalkgroupKeys(t)[pk] in FileTalkgroups(f))
  }

  ghost predicate UnitsSurvive(t0: Tables, t: Tables, f: File)
    requires ForeignKeys(t0) && ForeignKeys(t)
  {
    && SameOn(UnitKeys(t0), UnitKeys(t))
    && (forall pk :: pk in t0.units ==>
         (pk in t.units <==> (f.mode.Replace? ==> Stays(f, f.units.Some?, FileUnits(f).Keys, UnitKeys(t0)[pk]))))
    && (forall pk :: pk in t.units ==> pk in t0.units || UnitKeys(t)[pk] in FileUnits(f))
  }

  ghost predicate SameOn<K(!new)>(a: map<Pk, K>, b: map<Pk, K>) {
    forall pk :: pk in a && pk in b ==> a[pk] == b[pk]
  }

  /** Which folder monitors are still there: a Replace of a file with monitors leaves, of those that were, the ones
      it wrote. A monitor it did not write is as it was. */
  ghost predicate MonitorsSurvive(m0: map<Pk, Monitor>, m: map<Pk, Monitor>, f: File) {
    var dirs := Directories(Rows(f.monitors));
    && (forall pk :: pk in m0 ==> (pk in m <==> (f.mode.Replace? && f.monitors.Some? ==> Matched(m0, dirs, pk))))
    && (forall pk :: pk in m0 && pk in m && !Matched(m0, dirs, pk) ==> m[pk] == m0[pk])
  }

  lemma MonitorsAfterMerge(t0: Tables, t: Tables, f: File, k: Keeps, c: Counts)
    requires ForeignKeys(t0) && ForeignKeys(t) && AllMerged(t0, t, f, k, c) && f.mode.Merge?
    ensures MonitorsSurvive(t0.monitors, t.monitors, f)
  {
    hide Matched, PointsInto, ViewOf, Touched, ForeignKeys, Directories;
  }

  /** A monitor the pruning leaves to its system would point at a system that is gone. */
  lemma NoneSpared(t1: Tables, t: Tables, f: File, k: Keeps)
    requires ForeignKeys(t)
    requires t.systems == (if f.systems.Some? then t1.systems - (t1.systems.Keys - k.systems) else t1.systems)
    requires t.monitors == (if f.monitors.Some?
             then t1.monitors - AbsentMonitors(t1, k.monitors, f.systems.Some?, k.systems) else t1.monitors)
    ensures f.monitors.Some? ==> forall pk :: pk in t.monitors <==> pk in t1.monitors && pk in k.monitors
    ensures forall pk :: pk in t.monitors ==> t.monitors[pk] == t1.monitors[pk]
  {
    if f.monitors.Some? {
      forall pk | pk in t.monitors
        ensures pk in k.monitors
      {
        assert MonitorRefs(t, t.monitors[pk]);
      }
    }
  }

  lemma MonitorsAfterReplace(t0: Tables, t1: Tables, t: Tables, f: File, k: Keeps, c: Counts)
    requires ForeignKeys(t0) && ForeignKeys(t1) && ForeignKeys(t) && AllMerged(t0, t1, f, k, c) && f.mode.Replace?
    requires t.systems == (if f.systems.Some? then t1.systems - (t1.systems.Keys - k.systems) else t1.systems)
    requires t.monitors == (if f.monitors.Some?
             then t1.monitors - AbsentMonitors(t1, k.monitors, f.systems.Some?, k.systems) else t1.monitors)
    ensures MonitorsSurvive(t0.monitors, t.monitors, f)
  {
    hide Matched, PointsInto, ViewOf, Touched, Directories, ForeignKeys, AbsentMonitors;
    NoneSpared(t1, t, f, k);
  }

  lemma MapsLeft<K(!new)>(remap: map<Pk, Pk>, keys1: map<Pk, K>, keys: map<Pk, K>, names: map<Pk, K>)
    requires Maps(remap, keys1, names) && SameOn(keys1, keys)
    requires forall pk :: pk in remap.Values && pk in keys1 ==> pk in keys
    ensures Maps(remap, keys, names)
  {
  }

  lemma HoldsLeft(rows: seq<Row<Monitor>>, at: seq<Pk>, m0: map<Pk, Monitor>, m1: map<Pk, Monitor>, m: map<Pk, Monitor>,
    systemRemap: map<Pk, Pk>, talkgroupRemap: map<Pk, Pk>)
    requires WrittenAt(rows, at, m0, m1, systemRemap, talkgroupRemap)
    requires forall pk :: pk in m ==> pk in m1 && m[pk] == m1[pk]
    requires forall pk :: pk in at && pk in m1 ==> pk in m
    ensures WrittenAt(rows, at, m0, m, systemRemap, talkgroupRemap)
  {
    hide Placed, FileMonitor;
  }

  lemma TalkgroupKeysLeft(t1: Tables, t: Tables, f: File, k: Keeps)
    requires ForeignKeys(t1) && ForeignKeys(t) && Replaced(t1, t, f, k)
    ensures SameOn(TalkgroupKeys(t1), TalkgroupKeys(t))
  {
    hide ForeignKeys, Replaced, TalkgroupKeys, Stays;
    forall pk | pk in t1.talkgroups && pk in t.talkgroups
      ensures TalkgroupKeys(t1)[pk] == TalkgroupKeys(t)[pk]
    {
      TalkgroupPointwise(t1, t, f, k, pk);
    }
  }

  /** What the pruning leaves is still written where the merge wrote it. */
  lemma WrittenAfterReplace(t0: Tables, t1: Tables, t: Tables, f: File, k: Keeps, w: Placement)
    requires ForeignKeys(t1) && ForeignKeys(t) && Replaced(t1, t, f, k) && Between(t1, t, k)
    requires MonitorsWritten(t0, t1, f, w) && PlacedInKept(w, k)
    requires t.systems == (if f.systems.Some? then t1.systems - (t1.systems.Keys - k.systems) else t1.systems)
    requires t.monitors == (if f.monitors.Some?
             then t1.monitors - AbsentMonitors(t1, k.monitors, f.systems.Some?, k.systems) else t1.monitors)
    ensures MonitorsWritten(t0, t, f, w)
  {
    hide ForeignKeys, Replaced, WrittenAt, Maps, TalkgroupKeys, Numbers, FileTalkgroupNames, AbsentMonitors;
    HoldsLeft(Rows(f.monitors), w.at, t0.monitors, t1.monitors, t.monitors, w.systems, w.talkgroups);
    TalkgroupKeysLeft(t1, t, f, k);
    MapsLeft(w.systems, SystemKeys(t1.systems), SystemKeys(t.systems), Numbers(Rows(f.systems)));
    MapsLeft(w.talkgroups, TalkgroupKeys(t1), TalkgroupKeys(t), FileTalkgroupNames(f));
  }

  lemma MergeSurvivors(t0: Tables, t: Tables, f: File, k: Keeps, c: Counts)
    requires ForeignKeys(t0) && ForeignKeys(t) && AllMerged(t0, t, f, k, c) && f.mode.Merge?
    ensures Survivors(t0, t, f)
  {
    hide SystemsIn, FileTalkgroups, FileUnits, Labels, Merged, MonitorsMerged, Touched, ViewOf, ForeignKeys,
      TalkgroupKeys, UnitKeys, LabelsSurvive, SystemsSurvive, TalkgroupsSurvive, UnitsSurvive;
    LabelTable(t0.groups, t.groups, t.groups, k.groups, f.mode, f.groups, c.groups);
    LabelTable(t0.tags, t.tags, t.tags, k.tags, f.mode, f.tags, c.tags);
    SystemTable(t0.systems, t.systems, t.systems, k.systems, f, c.systems);
    MergeTalkgroups(t0, t, f, k.talkgroups, c.talkgroups);
    MergeUnits(t0, t, f, k.units, c.units);
  }

  lemma MergeTalkgroups(t0: Tables, t: Tables, f: File, keep: set<Pk>, created: nat)
    requires ForeignKeys(t0) && ForeignKeys(t) && f.mode.Merge?
    requires Touched(TalkgroupKeys(t0), TalkgroupKeys(t), FileTalkgroups(f).Keys, keep, created)
    ensures TalkgroupsSurvive(t0, t, f)
  {
    hide FileTalkgroups, TalkgroupKeys, ForeignKeys, Stays, Touched;
    TouchedSame(TalkgroupKeys(t0), TalkgroupKeys(t), FileTalkgroups(f).Keys, keep, created);
  }

  lemma MergeUnits(t0: Tables, t: Tables, f: File, keep: set<Pk>, created: nat)
    requires ForeignKeys(t0) && ForeignKeys(t) && f.mode.Merge?
    requires Touched(UnitKeys(t0), UnitKeys(t), FileUnits(f).Keys, keep, created)
    ensures UnitsSurvive(t0, t, f)
  {
    hide FileUnits, UnitKeys, ForeignKeys, Stays, Touched;
    TouchedSame(UnitKeys(t0), UnitKeys(t), FileUnits(f).Keys, keep, created);
  }

  lemma TouchedSame<K(!new)>(keys0: map<Pk, K>, keys: map<Pk, K>, listed: set<K>, keep: set<Pk>, created: nat)
    requires Touched(keys0, keys, listed, keep, created)
    ensures SameOn(keys0, keys) && keys0.Keys <= keys.Keys <= keys0.Keys + keep
    ensures forall pk :: pk in keys ==> (pk in keep <==> keys[pk] in listed)
    ensures created == |keys| - |keys0|
  {
  }

  lemma ReplaceSurvivors(t0: Tables, t1: Tables, t: Tables, f: File, k: Keeps, c: Counts)
    requires ForeignKeys(t0) && ForeignKeys(t1) && ForeignKeys(t) && AllMerged(t0, t1, f, k, c) && f.mode.Replace?
    requires Replaced(t1, t, f, k)
    ensures Survivors(t0, t, f)
  {
    hide Replaced, AllMerged, LabelsSurvive, SystemsSurvive, TalkgroupsSurvive, UnitsSurvive, ForeignKeys;
    LabelSurvivors(t0, t1, t, f, k, c);
    SystemsKept(t0, t1, t, f, k, c);
    TalkgroupSurvivors(t0, t1, t, f, k, c);
    UnitSurvivors(t0, t1, t, f, k, c);
  }

  lemma LabelSurvivors(t0: Tables, t1: Tables, t: Tables, f: File, k: Keeps, c: Counts)
    requires ForeignKeys(t0) && ForeignKeys(t1) && AllMerged(t0, t1, f, k, c) && f.mode.Replace?
             && Replaced(t1, t, f, k)
    ensures LabelsSurvive(t0.groups, t.groups, f.mode, f.groups) && LabelsSurvive(t0.tags, t.tags, f.mode, f.tags)
  {
    hide SystemsIn, FileTalkgroups, FileUnits, Labels, Merged, MonitorsMerged, Touched, ViewOf, ForeignKeys, Sound,
      KeepsMean, LabelsSurvive, TalkgroupsLeft, UnitsLeft;
    LabelTable(t0.groups, t1.groups, t.groups, k.groups, f.mode, f.groups, c.groups);
    LabelTable(t0.tags, t1.tags, t.tags, k.tags, f.mode, f.tags, c.tags);
  }

  lemma LabelTable(m0: map<Pk, string>, m1: map<Pk, string>, m: map<Pk, string>, keep: set<Pk>, mode: Mode,
    carried: Option<seq<Row<string>>>, created: nat)
    requires Touched(m0, m1, Labels(Rows(carried)), keep, created)
    requires m == if mode.Replace? && carried.Some? then m1 - (m1.Keys - keep) else m1
    ensures LabelsSurvive(m0, m, mode, carried)
  {
    hide Labels;
  }

  lemma SystemsKept(t0: Tables, t1: Tables, t: Tables, f: File, k: Keeps, c: Counts)
    requires ForeignKeys(t0) && ForeignKeys(t1) && AllMerged(t0, t1, f, k, c) && f.mode.Replace?
             && Replaced(t1, t, f, k)
    ensures SystemsSurvive(t0.systems, t.systems, f)
  {
    hide SystemsIn, FileTalkgroups, FileUnits, Labels, Merged, MonitorsMerged, Touched, ViewOf, ForeignKeys, Sound,
      KeepsMean, SystemsSurvive, TalkgroupsLeft, UnitsLeft;
    SystemTable(t0.systems, t1.systems, t.systems, k.systems, f, c.systems);
  }

  lemma SystemTable(m0: map<Pk, System>, m1: map<Pk, System>, m: map<Pk, System>, keep: set<Pk>, f: File, created: nat)
    requires Touched(SystemKeys(m0), SystemKeys(m1), SystemsIn(Rows(f.systems)).Keys, keep, created)
    requires m == if f.mode.Replace? && f.systems.Some? then m1 - (m1.Keys - keep) else m1
    ensures SystemsSurvive(m0, m, f)
  {
    hide SystemsIn, Touched;
    TouchedSame(SystemKeys(m0), SystemKeys(m1), SystemsIn(Rows(f.systems)).Keys, keep, created);
    forall pk | pk in m0
      ensures pk in m <==> (f.mode.Replace? && f.systems.Some? ==> m0[pk].number in SystemsIn(Rows(f.systems)))
    {
      assert SystemKeys(m0)[pk] == SystemKeys(m1)[pk];
    }
    forall pk | pk in m
      ensures pk in m0 || m[pk].number in SystemsIn(Rows(f.systems))
    {
      assert SystemKeys(m)[pk] == SystemKeys(m1)[pk];
    }
  }

  lemma TalkgroupSurvivors(t0: Tables, t1: Tables, t: Tables, f: File, k: Keeps, c: Counts)
    requires ForeignKeys(t0) && ForeignKeys(t1) && ForeignKeys(t) && AllMerged(t0, t1, f, k, c) && f.mode.Replace?
             && Replaced(t1, t, f, k)
    ensures TalkgroupsSurvive(t0, t, f)
  {
    hide AllMerged, Replaced, Stays, ForeignKeys, TalkgroupKeys, FileTalkgroups;
    forall pk | pk in t0.talkgroups
      ensures pk in t.talkgroups <==> Stays(f, f.talkgroups.Some?, FileTalkgroups(f).Keys, TalkgroupKeys(t0)[pk])
      ensures pk in t.talkgroups ==> TalkgroupKeys(t)[pk] == TalkgroupKeys(t0)[pk]
    {
      TalkgroupSurvives(t0, t1, t, f, k, c, pk);
    }
    forall pk | pk in t.talkgroups
      ensures pk in t0.talkgroups || TalkgroupKeys(t)[pk] in FileTalkgroups(f)
    {
      NewTalkgroup(t0, t1, t, f, k, c, pk);
    }
  }

  lemma NewTalkgroup(t0: Tables, t1: Tables, t: Tables, f: File, k: Keeps, c: Counts, pk: Pk)
    requires ForeignKeys(t0) && ForeignKeys(t1) && ForeignKeys(t) && AllMerged(t0, t1, f, k, c) && Replaced(t1, t, f, k)
    requires pk in t.talkgroups
    ensures pk in t0.talkgroups || TalkgroupKeys(t)[pk] in FileTalkgroups(f)
  {
    hide SystemsIn, FileTalkgroups, FileUnits, Labels, Merged, MonitorsMerged, Touched, Stays, ViewOf, ForeignKeys,
      TalkgroupKeys, Meaning, Relabelled, KeepsMean, Sound;
    TouchedSame(TalkgroupKeys(t0), TalkgroupKeys(t1), FileTalkgroups(f).Keys, k.talkgroups, c.talkgroups);
    hide AllMerged;
    var absent, cascade := f.talkgroups.Some? && f.systems.Some?, f.systems.Some?;
    assert TalkgroupLeft(t1, t, k, absent, f.groups.Some?, f.tags.Some?, cascade, pk);
    hide Replaced;
    TalkgroupPointwise(t1, t, f, k, pk);
  }

  lemma TalkgroupSurvives(t0: Tables, t1: Tables, t: Tables, f: File, k: Keeps, c: Counts, pk: Pk)
    requires ForeignKeys(t0) && ForeignKeys(t1) && ForeignKeys(t) && AllMerged(t0, t1, f, k, c) && Replaced(t1, t, f, k)
    requires pk in t0.talkgroups
    ensures pk in t.talkgroups <==> Stays(f, f.talkgroups.Some?, FileTalkgroups(f).Keys, TalkgroupKeys(t0)[pk])
    ensures pk in t.talkgroups ==> TalkgroupKeys(t)[pk] == TalkgroupKeys(t0)[pk]
  {
    hide SystemsIn, FileTalkgroups, FileUnits, Labels, Merged, MonitorsMerged, Touched, Replaced, Stays, ViewOf,
      ForeignKeys, TalkgroupKeys, Meaning, Relabelled;
    TouchedSame(TalkgroupKeys(t0), TalkgroupKeys(t1), FileTalkgroups(f).Keys, k.talkgroups, c.talkgroups);
    hide AllMerged;
    TalkgroupPointwise(t1, t, f, k, pk);
  }

  lemma UnitSurvivors(t0: Tables, t1: Tables, t: Tables, f: File, k: Keeps, c: Counts)
    requires ForeignKeys(t0) && ForeignKeys(t1) && ForeignKeys(t) && AllMerged(t0, t1, f, k, c) && f.mode.Replace?
             && Replaced(t1, t, f, k)
    ensures UnitsSurvive(t0, t, f)
  {
    hide AllMerged, Replaced, Stays, ForeignKeys, UnitKeys, FileUnits;
    forall pk | pk in t0.units
      ensures pk in t.units <==> Stays(f, f.units.Some?, FileUnits(f).Keys, UnitKeys(t0)[pk])
      ensures pk in t.units ==> UnitKeys(t)[pk] == UnitKeys(t0)[pk]
    {
      UnitSurvives(t0, t1, t, f, k, c, pk);
    }
    forall pk | pk in t.units
      ensures pk in t0.units || UnitKeys(t)[pk] in FileUnits(f)
    {
      NewUnit(t0, t1, t, f, k, c, pk);
    }
  }

  lemma NewUnit(t0: Tables, t1: Tables, t: Tables, f: File, k: Keeps, c: Counts, pk: Pk)
    requires ForeignKeys(t0) && ForeignKeys(t1) && ForeignKeys(t) && AllMerged(t0, t1, f, k, c) && Replaced(t1, t, f, k)
    requires pk in t.units
    ensures pk in t0.units || UnitKeys(t)[pk] in FileUnits(f)
  {
    hide SystemsIn, FileTalkgroups, FileUnits, Labels, Merged, MonitorsMerged, Touched, Stays, ViewOf, ForeignKeys,
      UnitKeys, Meaning, Relabelled, KeepsMean, Sound;
    TouchedSame(UnitKeys(t0), UnitKeys(t1), FileUnits(f).Keys, k.units, c.units);
    hide AllMerged;
    var absent, cascade := f.units.Some? && f.systems.Some?, f.systems.Some?;
    assert UnitLeft(t1, t, k, absent, cascade, pk);
    hide Replaced;
    UnitPointwise(t1, t, f, k, pk);
  }

  lemma UnitSurvives(t0: Tables, t1: Tables, t: Tables, f: File, k: Keeps, c: Counts, pk: Pk)
    requires ForeignKeys(t0) && ForeignKeys(t1) && ForeignKeys(t) && AllMerged(t0, t1, f, k, c) && Replaced(t1, t, f, k)
    requires pk in t0.units
    ensures pk in t.units <==> Stays(f, f.units.Some?, FileUnits(f).Keys, UnitKeys(t0)[pk])
    ensures pk in t.units ==> UnitKeys(t)[pk] == UnitKeys(t0)[pk]
  {
    hide SystemsIn, FileTalkgroups, FileUnits, Labels, Merged, MonitorsMerged, Touched, Replaced, Stays, ViewOf,
      ForeignKeys, UnitKeys, Meaning, Relabelled;
    TouchedSame(UnitKeys(t0), UnitKeys(t1), FileUnits(f).Keys, k.units, c.units);
    hide AllMerged;
    UnitPointwise(t1, t, f, k, pk);
  }

  /** Counting rows: what a merge adds survives the pruning, so created and removed are the rows gained and lost. */
  lemma TableCounts<K(!new)>(keys0: map<Pk, K>, keys: map<Pk, K>, listed: set<K>, keep: set<Pk>, created: nat,
    after: set<Pk>)
    requires Touched(keys0, keys, listed, keep, created)
    requires after <= keys.Keys && keep * keys.Keys <= after
    ensures |after - keys0.Keys| == created && |keys0.Keys - after| == |keys.Keys| - |after|
  {
    CountsAreRows(keys0.Keys, keys.Keys, after);
  }

  lemma MonitorCounts(m0: map<Pk, Monitor>, m: map<Pk, Monitor>, dirs: set<string>, s: set<Pk>, g: set<Pk>,
    keep: set<Pk>, created: nat, after: set<Pk>)
    requires MonitorsMerged(m0, m, dirs, s, g, keep, created)
    requires after <= m.Keys && keep * m.Keys <= after
    ensures |after - m0.Keys| == created && |m0.Keys - after| == |m.Keys| - |after|
  {
    hide Matched, PointsInto;
    CountsAreRows(m0.Keys, m.Keys, after);
  }

  /** t's rows are some of t1's, the kept ones among them. */
  ghost predicate Between(t1: Tables, t: Tables, k: Keeps) {
    && t.groups.Keys <= t1.groups.Keys && k.groups * t1.groups.Keys <= t.groups.Keys
    && t.tags.Keys <= t1.tags.Keys && k.tags * t1.tags.Keys <= t.tags.Keys
    && t.systems.Keys <= t1.systems.Keys && k.systems * t1.systems.Keys <= t.systems.Keys
    && t.talkgroups.Keys <= t1.talkgroups.Keys && k.talkgroups * t1.talkgroups.Keys <= t.talkgroups.Keys
    && t.units.Keys <= t1.units.Keys && k.units * t1.units.Keys <= t.units.Keys
    && t.monitors.Keys <= t1.monitors.Keys && k.monitors * t1.monitors.Keys <= t.monitors.Keys
  }

  lemma RestoreCounts(t0: Tables, t1: Tables, t: Tables, f: File, k: Keeps, c: Counts)
    requires ForeignKeys(t0) && ForeignKeys(t1) && AllMerged(t0, t1, f, k, c) && Between(t1, t, k)
    ensures NewRows(t0, t) == c.groups + c.tags + c.systems + c.talkgroups + c.units + c.monitors
    ensures NewRows(t, t0) == Size(t1) - Size(t)
  {
    hide SystemsIn, FileTalkgroups, FileUnits, Labels, Merged, ViewOf, Touched, MonitorsMerged, ForeignKeys,
      Directories;
    TableCounts(t0.groups, t1.groups, Labels(Rows(f.groups)), k.groups, c.groups, t.groups.Keys);
    TableCounts(t0.tags, t1.tags, Labels(Rows(f.tags)), k.tags, c.tags, t.tags.Keys);
    TableCounts(SystemKeys(t0.systems), SystemKeys(t1.systems), SystemsIn(Rows(f.systems)).Keys, k.systems, c.systems,
      t.systems.Keys);
    TableCounts(TalkgroupKeys(t0), TalkgroupKeys(t1), FileTalkgroups(f).Keys, k.talkgroups, c.talkgroups,
      t.talkgroups.Keys);
    TableCounts(UnitKeys(t0), UnitKeys(t1), FileUnits(f).Keys, k.units, c.units, t.units.Keys);
    MonitorCounts(t0.monitors, t1.monitors, Directories(Rows(f.monitors)), k.systems, k.talkgroups, k.monitors,
      c.monitors, t.monitors.Keys);
    hide AllMerged, Between;
  }

  lemma KeptUnit(t: Tables, f: File, k: Keeps, pk: Pk)
    requires ForeignKeys(t) && KeepsMean(t, f, k) && pk in k.units && pk in t.units
    ensures t.units[pk].system in k.systems
  {
    FileKeysListed(f, UnitKeys(t)[pk]);
    assert SystemKeys(t.systems)[t.units[pk].system] == UnitKeys(t)[pk].0;
  }

  /** Kept rows stay, and nothing appears while pruning. */
  lemma KeptRowsStay(t1: Tables, t: Tables, f: File, k: Keeps)
    requires Replaced(t1, t, f, k) && ForeignKeys(t1)
    requires t.monitors == (if f.monitors.Some?
             then t1.monitors - AbsentMonitors(t1, k.monitors, f.systems.Some?, k.systems) else t1.monitors)
    ensures Between(t1, t, k)
  {
    hide SystemsIn, FileTalkgroups, FileUnits, Labels, Sound, KeepsMean;
    var ta, tc := f.talkgroups.Some? && f.systems.Some?, f.systems.Some?;
    var ua := f.units.Some? && f.systems.Some?;
    forall pk | pk in t.talkgroups || (pk in k.talkgroups && pk in t1.talkgroups)
      ensures pk in t1.talkgroups && (pk in k.talkgroups ==> pk in t.talkgroups)
    {
      assert TalkgroupLeft(t1, t, k, ta, f.groups.Some?, f.tags.Some?, tc, pk);
      if pk in k.talkgroups && pk in t1.talkgroups { KeptTalkgroup(t1, f, k, pk); }
    }
    forall pk | pk in t.units || (pk in k.units && pk in t1.units)
      ensures pk in t1.units && (pk in k.units ==> pk in t.units)
    {
      assert UnitLeft(t1, t, k, ua, tc, pk);
      if pk in k.units && pk in t1.units { KeptUnit(t1, f, k, pk); }
    }
  }

  lemma PrunedIsReplaced(t1: Tables, f: File, k: Keeps)
    requires Sound(t1) && ForeignKeys(t1) && KeepsMean(t1, f, k) && Sound(PrunedTables(t1, f, k))
    ensures var t := PrunedTables(t1, f, k);
            && Replaced(t1, t, f, k)
            && t.monitors == (if f.monitors.Some?
               then t1.monitors - AbsentMonitors(t1, k.monitors, f.systems.Some?, k.systems) else t1.monitors)
  {
    hide Sound, TalkgroupsLeft, UnitsLeft, KeepsMean, PruneTalkgroupRows, PruneUnitRows, PruneGroupRows, PruneTagRows,
      PruneMonitorRows, PruneSystemRows, AbsentMonitors;
    var s1 := PruneTalkgroupRows(t1, f, k);
    var s2 := PruneUnitRows(s1, f, k);
    var s3 := PruneGroupRows(s2, f, k);
    var s4 := PruneTagRows(s3, f, k);
    var s5 := PruneMonitorRows(s4, f, k);
    var t := PruneSystemRows(s5, f, k);
    StagesFrame(t1, s1, s2, s3, s4, s5, t, f, k);
    UnlinkedTables(s2, f, k);
    UnlinkedTables(s3, f, k);
    MonitorStage(t1, s4, f, k);
    SystemStageRows(s5, f, k);
    TalkgroupsLeftAfterAll(t1, s1, s2, s3, s4, s5, t, f, k);
    UnitsLeftAfterAll(t1, s1, s2, s3, s4, s5, t, f, k);
  }

  lemma SystemStageRows(t: Tables, f: File, k: Keeps)
    ensures PruneSystemRows(t, f, k).systems == (if f.systems.Some? then t.systems - (t.systems.Keys - k.systems)
                                                 else t.systems)
  {
  }

  /**
   * Restore a backup. It fails, changing nothing, exactly when a folder
   * monitor stops a Replace; otherwise the view afterwards is Restored of the
   * view before, whatever primary keys either side uses, and created and
   * removed count the rows gained and lost, each once.
   */
  method RestoreTables(db: Database, f: File) returns (ok: bool, created: nat, removed: nat, ghost w: Placement)
    requires db.Valid()
    modifies db
    ensures db.Valid()
    ensures ForeignKeys(old(db.Contents())) && ForeignKeys(db.Contents())
    ensures ok <==> !(f.mode.Replace? && Blocked(old(db.Contents()), f))
    ensures !ok ==> db.Contents() == old(db.Contents())
    ensures ok ==> ViewOf(db.Contents()) == Restored(ViewOf(old(db.Contents())), f)
    ensures ok ==> created == NewRows(old(db.Contents()), db.Contents())
    ensures ok ==> removed == NewRows(db.Contents(), old(db.Contents()))
    ensures ok ==> Survivors(old(db.Contents()), db.Contents(), f)
    ensures ok ==> MonitorsSurvive(old(db.Contents()).monitors, db.Contents().monitors, f)
    ensures ok ==> MonitorsWritten(old(db.Contents()), db.Contents(), f, w)
    ensures ok ==> MonitorsSay(db.Contents(), f, w.at)
  {
    hide Sound, ForeignKeys, Blocked, Survivors, MonitorsSurvive, MonitorsWritten, MonitorsSay, PlacedInKept, NewRows,
      Size, Stopped, AllMerged, KeepsMean, PrunedTables, BeforeSystems, Replaced, Restorable, Merged, Pruned;
    ghost var t0 := db.Contents();
    SoundKeys(t0);
    var saved := db.BeginTx();
    var k, n, c, placed := MergeAll(db, f);
    w := placed;
    ghost var t1 := db.Contents();
    ok, created, removed := true, n, 0;
    KeepsMeanAfterMerge(t0, t1, f, k, c);
    MergeSizes(t0, t1, f, k, c);
    if f.mode.Replace? {
      WhenStopped(t0, t1, f, k, c);
      ok, removed := RemoveAbsent(db, f, k);
      if !ok {
        db.Rollback(saved);
        return;
      }
      ghost var t := db.Contents();
      SoundKeys(t);
      PrunedIsReplaced(t1, f, k);
      ReplacedView(t1, t, f, k);
      ReplaceSurvivors(t0, t1, t, f, k, c);
      SystemsOfReplaced(t1, t, f, k);
      MonitorsAfterReplace(t0, t1, t, f, k, c);
      KeptRowsStay(t1, t, f, k);
      WrittenAfterReplace(t0, t1, t, f, k, w);
      WrittenMeans(t0, t, f, w);
      RestoreCounts(t0, t1, t, f, k, c);
      RestoredByReplace(t0, t1, t, f, k, c);
    } else {
      MergeSurvivors(t0, t1, f, k, c);
      MonitorsAfterMerge(t0, t1, f, k, c);
      RestoreCounts(t0, t1, t1, f, k, c);
      RestoredByMerge(t0, t1, f, k, c);
    }
  }

  lemma SystemsOfReplaced(t1: Tables, t: Tables, f: File, k: Keeps)
    requires Replaced(t1, t, f, k)
    ensures t.systems == (if f.systems.Some? then t1.systems - (t1.systems.Keys - k.systems) else t1.systems)
  {
    hide Sound, KeepsMean, TalkgroupsLeft, UnitsLeft;
  }

  lemma WhenStopped(t0: Tables, t1: Tables, f: File, k: Keeps, c: Counts)
    requires Sound(t0) && Sound(t1) && ForeignKeys(t0) && ForeignKeys(t1) && AllMerged(t0, t1, f, k, c)
    ensures Blocked(t0, f) <==> TalkgroupStageBlocked(t1, f, k) || SystemStageBlocked(BeforeSystems(t1, f, k), f, k)
  {
    if Blocked(t0, f) { BlockedStops(t0, t1, f, k, c); }
    if Stopped(t1, f, k) { StopsBlocked(t0, t1, f, k, c); }
  }

  lemma RestoredByMerge(t0: Tables, t1: Tables, f: File, k: Keeps, c: Counts)
    requires ForeignKeys(t0) && ForeignKeys(t1) && AllMerged(t0, t1, f, k, c) && f.mode.Merge?
    ensures ViewOf(t1) == Restored(ViewOf(t0), f)
  {
    hide Merged, Touched, MonitorsMerged;
  }

  lemma RestoredByReplace(t0: Tables, t1: Tables, t: Tables, f: File, k: Keeps, c: Counts)
    requires ForeignKeys(t0) && ForeignKeys(t1) && ForeignKeys(t) && AllMerged(t0, t1, f, k, c) && f.mode.Replace?
    requires ViewOf(t) == Pruned(ViewOf(t1), f)
    ensures ViewOf(t) == Restored(ViewOf(t0), f)
  {
    hide Merged, Pruned, Touched, MonitorsMerged;
  }
}
