// Replace: deleting what the file lacks, and exactly when a folder monitor
// stops it.
module RestoreReplace {
  import opened Common
  import opened NaturalKeys
  import opened RadioTables
  import opened RadioDatabase
  import opened BackupFile
  import opened RestoreMonitors
  import opened RestorePrune
  import opened RestoreViews
  import opened RestoreFinalView
  import opened RestoreConfig

  // ---- The stages as code ----

  ghost function BeforeSystems(t: Tables, f: File, k: Keeps): Tables {
    PruneMonitorRows(PruneTagRows(PruneGroupRows(PruneUnitRows(PruneTalkgroupRows(t, f, k), f, k), f, k), f, k), f, k)
  }

  ghost function PrunedTables(t: Tables, f: File, k: Keeps): Tables {
    PruneSystemRows(BeforeSystems(t, f, k), f, k)
  }

  /** A delete along the way meets a folder monitor that points at the row. */
  ghost predicate TalkgroupStageBlocked(t: Tables, f: File, k: Keeps) {
    f.talkgroups.Some? && f.systems.Some? && TalkgroupsPinned(t, AbsentTalkgroups(t, k.talkgroups, k.systems))
  }

  ghost predicate SystemStageBlocked(t: Tables, f: File, k: Keeps) {
    var doomed := t.systems.Keys - k.systems;
    f.systems.Some? && (SystemsPinned(t, doomed) || TalkgroupsPinned(t, TalkgroupsOf(t, doomed)))
  }

  lemma FewerRows<T(!new)>(m: map<Pk, T>, gone: set<Pk>)
    requires gone <= m.Keys
    ensures |m - gone| == |m| - |gone|
  {
    assert (m - gone).Keys == m.Keys - gone;
  }

  lemma StageSizes(t: Tables, f: File, k: Keeps)
    ensures f.talkgroups.Some? && f.systems.Some? ==>
              Size(PruneTalkgroupRows(t, f, k)) == Size(t) - |AbsentTalkgroups(t, k.talkgroups, k.systems)|
    ensures f.units.Some? && f.systems.Some? ==>
            Size(PruneUnitRows(t, f, k)) == Size(t) - |AbsentUnits(t, k.units, k.systems)|
    ensures f.monitors.Some? ==>
              Size(PruneMonitorRows(t, f, k)) == Size(t) - |AbsentMonitors(t, k.monitors, f.systems.Some?, k.systems)|
  {
    var a, b, c := AbsentTalkgroups(t, k.talkgroups, k.systems), AbsentUnits(t, k.units, k.systems),
                   AbsentMonitors(t, k.monitors, f.systems.Some?, k.systems);
    assert a <= t.talkgroups.Keys && b <= t.units.Keys && c <= t.monitors.Keys;
    hide AbsentTalkgroups, AbsentUnits, AbsentMonitors;
    FewerRows(t.talkgroups, a);
    FewerRows(t.units, b);
    FewerRows(t.monitors, c);
  }

  lemma UnlinkedRow(t: Tables, gone: set<Pk>, pk: Pk)
    requires pk in t.talkgroups
    ensures WithoutGroups(t, gone).talkgroups[pk].system == t.talkgroups[pk].system
    ensures WithoutTags(t, gone).talkgroups[pk].system == t.talkgroups[pk].system
  {
  }

  lemma UnlinkedRows(t: Tables, f: File, k: Keeps)
    ensures PruneGroupRows(t, f, k).talkgroups.Keys == t.talkgroups.Keys
            && PruneTagRows(t, f, k).talkgroups.Keys == t.talkgroups.Keys
    ensures forall pk :: pk in t.talkgroups ==>
              && PruneGroupRows(t, f, k).talkgroups[pk].system == t.talkgroups[pk].system
              && PruneTagRows(t, f, k).talkgroups[pk].system == t.talkgroups[pk].system
  {
    assert PruneGroupRows(t, f, k).talkgroups.Keys == t.talkgroups.Keys;
    assert PruneTagRows(t, f, k).talkgroups.Keys == t.talkgroups.Keys;
    hide WithoutGroups, WithoutTags;
    forall pk | pk in t.talkgroups
      ensures PruneGroupRows(t, f, k).talkgroups[pk].system == t.talkgroups[pk].system
      ensures PruneTagRows(t, f, k).talkgroups[pk].system == t.talkgroups[pk].system
    {
      UnlinkedRow(t, t.groups.Keys - k.groups, pk);
      UnlinkedRow(t, t.tags.Keys - k.tags, pk);
    }
  }

  lemma UnlinkSizes(t: Tables, f: File, k: Keeps)
    ensures f.groups.Some? ==> Size(PruneGroupRows(t, f, k)) == Size(t) - |t.groups.Keys - k.groups|
    ensures f.tags.Some? ==> Size(PruneTagRows(t, f, k)) == Size(t) - |t.tags.Keys - k.tags|
  {
    FewerRows(t.groups, t.groups.Keys - k.groups);
    FewerRows(t.tags, t.tags.Keys - k.tags);
    UnlinkedRows(t, f, k);
    UnlinkedTables(t, f, k);
    hide PruneGroupRows, PruneTagRows;
    SameKeysSameSize(t.talkgroups, PruneGroupRows(t, f, k).talkgroups);
    SameKeysSameSize(t.talkgroups, PruneTagRows(t, f, k).talkgroups);
  }

  lemma SameKeysSameSize<T, U>(m: map<Pk, T>, n: map<Pk, U>)
    requires m.Keys == n.Keys
    ensures |m| == |n|
  {
    assert |m.Keys| == |n.Keys|;
  }

  lemma UnlinkedTables(t: Tables, f: File, k: Keeps)
    ensures PruneGroupRows(t, f, k) == t.(groups := if f.groups.Some? then t.groups - (t.groups.Keys - k.groups)
                                          else t.groups,
                                          talkgroups := PruneGroupRows(t, f, k).talkgroups)
    ensures PruneTagRows(t, f, k) == t.(tags := if f.tags.Some? then t.tags - (t.tags.Keys - k.tags) else t.tags,
                                        talkgroups := PruneTagRows(t, f, k).talkgroups)
  {
  }

  lemma SystemStageSize(t: Tables, f: File, k: Keeps)
    ensures var doomed := t.systems.Keys - k.systems;
            f.systems.Some? ==>
              Size(PruneSystemRows(t, f, k)) == Size(t) - |doomed| - |TalkgroupsOf(t, doomed)| - |UnitsOf(t, doomed)|
  {
    var doomed := t.systems.Keys - k.systems;
    FewerRows(t.systems, doomed);
    FewerRows(t.talkgroups, TalkgroupsOf(t, doomed));
    FewerRows(t.units, UnitsOf(t, doomed));
  }

  method RemoveTalkgroups(db: Database, f: File, k: Keeps) returns (ok: bool, removed: nat)
    requires db.Valid()
    modifies db
    ensures db.Valid()
    ensures ok <==> !TalkgroupStageBlocked(old(db.Contents()), f, k)
    ensures ok ==> db.Contents() == PruneTalkgroupRows(old(db.Contents()), f, k)
    ensures ok ==> removed == Size(old(db.Contents())) - Size(db.Contents())
  {
    hide Sound, Size, AbsentTalkgroups, TalkgroupsPinned, WithoutTalkgroups;
    StageSizes(db.Contents(), f, k);
    ok, removed := true, 0;
    if f.talkgroups.Some? && f.systems.Some? {
      ok, removed := PruneTalkgroups(db, k.talkgroups, k.systems);
    }
  }

  method RemoveUnits(db: Database, f: File, k: Keeps) returns (removed: nat)
    requires db.Valid()
    modifies db
    ensures db.Valid()
    ensures db.Contents() == PruneUnitRows(old(db.Contents()), f, k)
    ensures removed == Size(old(db.Contents())) - Size(db.Contents())
  {
    hide Sound, Size, AbsentUnits;
    StageSizes(db.Contents(), f, k);
    removed := 0;
    if f.units.Some? && f.systems.Some? {
      removed := PruneUnits(db, k.units, k.systems);
    }
  }

  method RemoveGroups(db: Database, f: File, k: Keeps) returns (removed: nat)
    requires db.Valid()
    modifies db
    ensures db.Valid()
    ensures db.Contents() == PruneGroupRows(old(db.Contents()), f, k)
    ensures removed == Size(old(db.Contents())) - Size(db.Contents())
  {
    hide Sound, Size, WithoutGroups;
    UnlinkSizes(db.Contents(), f, k);
    removed := 0;
    if f.groups.Some? {
      removed := PruneGroups(db, k.groups);
    }
  }

  method RemoveTags(db: Database, f: File, k: Keeps) returns (removed: nat)
    requires db.Valid()
    modifies db
    ensures db.Valid()
    ensures db.Contents() == PruneTagRows(old(db.Contents()), f, k)
    ensures removed == Size(old(db.Contents())) - Size(db.Contents())
  {
    hide Sound, Size, WithoutTags;
    UnlinkSizes(db.Contents(), f, k);
    removed := 0;
    if f.tags.Some? {
      removed := PruneTags(db, k.tags);
    }
  }

  method RemoveMonitors(db: Database, f: File, k: Keeps) returns (removed: nat)
    requires db.Valid()
    modifies db
    ensures db.Valid()
    ensures db.Contents() == PruneMonitorRows(old(db.Contents()), f, k)
    ensures removed == Size(old(db.Contents())) - Size(db.Contents())
  {
    hide Sound, Size, AbsentMonitors;
    StageSizes(db.Contents(), f, k);
    removed := 0;
    if f.monitors.Some? {
      removed := PruneMonitors(db, k.monitors, f.systems.Some?, k.systems);
    }
  }

  method RemoveSystems(db: Database, f: File, k: Keeps) returns (ok: bool, removed: nat)
    requires db.Valid()
    modifies db
    ensures db.Valid()
    ensures ok <==> !SystemStageBlocked(old(db.Contents()), f, k)
    ensures ok ==> db.Contents() == PruneSystemRows(old(db.Contents()), f, k)
    ensures ok ==> removed == Size(old(db.Contents())) - Size(db.Contents())
  {
    hide Sound, Size, WithoutSystems, TalkgroupsOf, UnitsOf, TalkgroupsPinned, SystemsPinned;
    SystemStageSize(db.Contents(), f, k);
    ok, removed := true, 0;
    if f.systems.Some? {
      ok, removed := PruneSystems(db, k.systems);
    }
  }

  /** Fails, for the caller to roll back, when a delete is blocked; otherwise counts every row that went once. */
  method RemoveAbsent(db: Database, f: File, k: Keeps) returns (ok: bool, removed: nat)
    requires db.Valid()
    modifies db
    ensures db.Valid()
    ensures ok
            <==> !TalkgroupStageBlocked(old(db.Contents()), f, k)
                 && !SystemStageBlocked(BeforeSystems(old(db.Contents()), f, k), f, k)
    ensures ok ==> db.Contents() == PrunedTables(old(db.Contents()), f, k)
    ensures ok ==> removed == Size(old(db.Contents())) - Size(db.Contents())
  {
    hide Sound, Size, PruneTalkgroupRows, PruneUnitRows, PruneGroupRows, PruneTagRows, PruneMonitorRows,
      PruneSystemRows, TalkgroupStageBlocked, SystemStageBlocked;
    removed := 0;
    var n;
    ok, n := RemoveTalkgroups(db, f, k);
    if !ok {
      return;
    }
    removed := removed + n;
    n := RemoveUnits(db, f, k);
    removed := removed + n;
    n := RemoveGroups(db, f, k);
    removed := removed + n;
    n := RemoveTags(db, f, k);
    removed := removed + n;
    n := RemoveMonitors(db, f, k);
    removed := removed + n;
    ok, n := RemoveSystems(db, f, k);
    removed := removed + n;
  }

  // ---- When a delete is blocked ----

  lemma KeepsMeanAfterMerge(t0: Tables, t: Tables, f: File, k: Keeps, c: Counts)
    requires ForeignKeys(t0) && ForeignKeys(t) && AllMerged(t0, t, f, k, c)
    ensures KeepsMean(t, f, k)
  {
  }

  lemma {:induction false} TalkgroupsInListed(rows: seq<Row<Talkgroup>>, numbers: map<Pk, int>, groups: map<Pk, string>,
    tags: map<Pk, string>, key: RadioKey)
    requires key in TalkgroupsIn(rows, numbers, groups, tags)
    ensures key.0 in numbers.Values
  {
    if rows != [] {
      var tg := rows[|rows| - 1].value;
      if !(tg.system in numbers && key == (numbers[tg.system], tg.number)) {
        TalkgroupsInListed(rows[..|rows| - 1], numbers, groups, tags, key);
      }
    }
  }

  lemma {:induction false} UnitsInListed(rows: seq<Row<Unit>>, numbers: map<Pk, int>, key: RadioKey)
    requires key in UnitsIn(rows, numbers)
    ensures key.0 in numbers.Values
  {
    if rows != [] {
      var u := rows[|rows| - 1].value;
      if !(u.system in numbers && key == (numbers[u.system], u.number)) {
        UnitsInListed(rows[..|rows| - 1], numbers, key);
      }
    }
  }

  /** The file's talkgroups and units belong to the file's systems. */
  lemma FileKeysListed(f: File, key: RadioKey)
    ensures key in FileTalkgroups(f) ==> key.0 in SystemsIn(Rows(f.systems))
    ensures key in FileUnits(f) ==> key.0 in SystemsIn(Rows(f.systems))
  {
    NumbersListed(Rows(f.systems));
    if key in FileTalkgroups(f) {
      TalkgroupsInListed(Rows(f.talkgroups), Numbers(Rows(f.systems)), Names(Rows(f.groups)), Names(Rows(f.tags)), key);
    }
    if key in FileUnits(f) {
      UnitsInListed(Rows(f.units), Numbers(Rows(f.systems)), key);
    }
  }

  /** What an unmatched monitor's references mean before and after the merge. */
  lemma PinsAt(t0: Tables, t: Tables, f: File, k: Keeps, c: Counts, m: Monitor)
    requires Sound(t0) && Sound(t) && ForeignKeys(t0) && ForeignKeys(t) && AllMerged(t0, t, f, k, c)
             && MonitorRefs(t0, m)
    ensures MonitorRefs(t, m)
    ensures m.system.Some? ==>
              (m.system.value in k.systems <==> t0.systems[m.system.value].number in SystemsIn(Rows(f.systems)))
    ensures m.talkgroup.Some? ==>
              var pk := m.talkgroup.value;
              && TalkgroupRefs(t0, t0.talkgroups[pk]) && TalkgroupRefs(t, t.talkgroups[pk])
              && (t.talkgroups[pk].system in k.systems <==> TalkgroupKeys(t0)[pk].0 in SystemsIn(Rows(f.systems)))
              && (pk in k.talkgroups <==> TalkgroupKeys(t0)[pk] in FileTalkgroups(f))
  {
    hide Sound, Merged, MonitorsMerged, FileTalkgroups, FileUnits, SystemsIn, Labels;
    if m.system.Some? {
      assert SystemKeys(t0.systems)[m.system.value] == SystemKeys(t.systems)[m.system.value];
    }
    if m.talkgroup.Some? {
      var pk := m.talkgroup.value;
      assert TalkgroupKeys(t0)[pk] == TalkgroupKeys(t)[pk];
      assert TalkgroupRefs(t0, t0.talkgroups[pk]) && TalkgroupRefs(t, t.talkgroups[pk]);
      assert SystemKeys(t.systems)[t.talkgroups[pk].system] == TalkgroupKeys(t)[pk].0;
    }
  }

  /** A kept talkgroup belongs to a kept system. */
  lemma KeptTalkgroup(t: Tables, f: File, k: Keeps, pk: Pk)
    requires ForeignKeys(t) && KeepsMean(t, f, k) && pk in k.talkgroups && pk in t.talkgroups
    ensures t.talkgroups[pk].system in k.systems
  {
    assert TalkgroupRefs(t, t.talkgroups[pk]);
    FileKeysListed(f, TalkgroupKeys(t)[pk]);
    assert SystemKeys(t.systems)[t.talkgroups[pk].system] == TalkgroupKeys(t)[pk].0;
  }

  /** Replace is stopped exactly when some unmatched monitor pins a row the file lacks. */
  ghost predicate Stopped(t: Tables, f: File, k: Keeps) {
    TalkgroupStageBlocked(t, f, k) || SystemStageBlocked(BeforeSystems(t, f, k), f, k)
  }

  /** The tables the last stage looks at. */
  lemma BeforeSystemsTables(t: Tables, f: File, k: Keeps)
    requires ForeignKeys(t)
    ensures var t5 := BeforeSystems(t, f, k);
            && t5.systems == t.systems
            && t5.monitors == (if f.monitors.Some?
               then t.monitors - AbsentMonitors(t, k.monitors, f.systems.Some?, k.systems) else t.monitors)
            && (forall pk ::
                 pk in t5.talkgroups
                 <==> pk in t.talkgroups
                      && !(f.talkgroups.Some? && f.systems.Some? && pk in AbsentTalkgroups(t, k.talkgroups, k.systems)))
            && (forall pk :: pk in t5.talkgroups ==> t5.talkgroups[pk].system == t.talkgroups[pk].system)
  {
    var t1 := PruneTalkgroupRows(t, f, k);
    var t2 := PruneUnitRows(t1, f, k);
    var t3 := PruneGroupRows(t2, f, k);
    var t4 := PruneTagRows(t3, f, k);
    var t5 := PruneMonitorRows(t4, f, k);
    hide PruneTalkgroupRows, PruneUnitRows, PruneGroupRows, PruneTagRows, PruneMonitorRows, PruneSystemRows,
      AbsentTalkgroups, AbsentMonitors, ForeignKeys;
    assert t5 == BeforeSystems(t, f, k);
    hide BeforeSystems;
    StagesFrame(t, t1, t2, t3, t4, t5, PruneSystemRows(t5, f, k), f, k);
    MonitorStage(t, t4, f, k);
    TalkgroupStage(t, f, k);
    UnlinkedRows(t2, f, k);
    UnlinkedRows(t3, f, k);
  }

  lemma TalkgroupStage(t: Tables, f: File, k: Keeps)
    ensures var t1 := PruneTalkgroupRows(t, f, k);
            && (forall pk :: pk in t1.talkgroups <==>
                 pk in t.talkgroups && !(f.talkgroups.Some? && f.systems.Some?
                                         && pk in AbsentTalkgroups(t, k.talkgroups, k.systems)))
            && (forall pk :: pk in t1.talkgroups ==> t1.talkgroups[pk] == t.talkgroups[pk])
  {
    hide AbsentTalkgroups;
  }

  lemma MonitorStage(t1: Tables, t: Tables, f: File, k: Keeps)
    requires t.monitors == t1.monitors
    ensures PruneMonitorRows(t, f, k).monitors
            == (if f.monitors.Some? then t1.monitors - AbsentMonitors(t1, k.monitors, f.systems.Some?, k.systems)
                else t1.monitors)
  {
    assert AbsentMonitors(t, k.monitors, f.systems.Some?, k.systems)
      == AbsentMonitors(t1, k.monitors, f.systems.Some?, k.systems);
  }

  lemma {:induction false} BlockedStops(t0: Tables, t: Tables, f: File, k: Keeps, c: Counts)
    requires Sound(t0) && Sound(t) && ForeignKeys(t0) && ForeignKeys(t) && AllMerged(t0, t, f, k, c)
    requires Blocked(t0, f)
    ensures Stopped(t, f, k)
  {
    hide Sound, Merged, FileTalkgroups, FileUnits, SystemsIn, Labels, BeforeSystems, Touched, LastFor;
    var pk :| pk in t0.monitors && !Matched(t0.monitors, Directories(Rows(f.monitors)), pk)
      && Pins(t0, f, t0.monitors[pk]);
    var m := t0.monitors[pk];
    assert pk !in k.monitors && pk in t.monitors && t.monitors[pk] == m;
    PinsAt(t0, t, f, k, c, m);
    BeforeSystemsTables(t, f, k);
    hide AllMerged;
    var t5 := BeforeSystems(t, f, k);
    if m.talkgroup.Some? && f.talkgroups.Some? && m.talkgroup.value in AbsentTalkgroups(t, k.talkgroups, k.systems) {
      assert TalkgroupStageBlocked(t, f, k);
    } else if m.system.Some? && m.system.value !in k.systems {
      assert pk in t5.monitors;
      assert SystemsPinned(t5, t5.systems.Keys - k.systems);
    } else {
      assert f.monitors.None? && m.talkgroup.Some?;
      assert m.talkgroup.value in TalkgroupsOf(t5, t5.systems.Keys - k.systems);
    }
  }

  /** The monitor a blocked stage meets is not one the file wrote. */
  lemma StoppedAt(t: Tables, f: File, k: Keeps) returns (pk: Pk)
    requires Sound(t) && ForeignKeys(t) && KeepsMean(t, f, k) && Stopped(t, f, k)
    requires forall m :: m in k.monitors && m in t.monitors ==> PointsInto(t.monitors[m], k.systems, k.talkgroups)
    ensures pk in t.monitors && pk !in k.monitors && f.systems.Some?
    ensures MonitorRefs(t, t.monitors[pk])
    ensures var m := t.monitors[pk];
            || (m.system.Some? && m.system.value !in k.systems)
            || (m.talkgroup.Some? && f.talkgroups.Some? && m.talkgroup.value !in k.talkgroups
                && t.talkgroups[m.talkgroup.value].system in k.systems)
            || (m.talkgroup.Some? && f.monitors.None? && t.talkgroups[m.talkgroup.value].system !in k.systems)
  {
    hide Sound, FileTalkgroups, FileUnits, SystemsIn, Labels, BeforeSystems, KeepsMean;
    BeforeSystemsTables(t, f, k);
    var t5 := BeforeSystems(t, f, k);
    var doomed := t5.systems.Keys - k.systems;
    if TalkgroupStageBlocked(t, f, k) {
      pk :| pk in t.monitors && t.monitors[pk].talkgroup.Some?
        && t.monitors[pk].talkgroup.value in AbsentTalkgroups(t, k.talkgroups, k.systems);
    } else if SystemsPinned(t5, doomed) {
      pk :| pk in t5.monitors && t5.monitors[pk].system.Some? && t5.monitors[pk].system.value in doomed;
    } else {
      pk :| pk in t5.monitors && t5.monitors[pk].talkgroup.Some?
        && t5.monitors[pk].talkgroup.value in TalkgroupsOf(t5, doomed);
      if pk in k.monitors {
        KeptTalkgroup(t, f, k, t5.monitors[pk].talkgroup.value);
      }
    }
    assert MonitorRefs(t, t.monitors[pk]);
  }

  lemma {:induction false} StopsBlocked(t0: Tables, t: Tables, f: File, k: Keeps, c: Counts)
    requires Sound(t0) && Sound(t) && ForeignKeys(t0) && ForeignKeys(t) && AllMerged(t0, t, f, k, c)
    requires Stopped(t, f, k)
    ensures Blocked(t0, f)
  {
    hide Sound, Merged, FileTalkgroups, FileUnits, SystemsIn, Labels, BeforeSystems, Touched, Matched, KeepsMean,
      Stopped;
    KeepsMeanAfterMerge(t0, t, f, k, c);
    var pk := StoppedAt(t, f, k);
    assert pk in t0.monitors && t0.monitors[pk] == t.monitors[pk]
      && !Matched(t0.monitors, Directories(Rows(f.monitors)), pk);
    var m := t0.monitors[pk];
    assert MonitorRefs(t0, m);
    PinsAt(t0, t, f, k, c, m);
    assert Pins(t0, f, m);
  }

  // ---- Rows that survive ----

  /** Every row the merge created survives the pruning, so the two counts are of disjoint rows. */
  lemma CountsAreRows(a: set<Pk>, b: set<Pk>, c: set<Pk>)
    requires a <= b && c <= b && b - a <= c
    ensures |c - a| == |b| - |a| && |a - c| == |b| - |c|
  {
    assert c - a == b - a;
    assert a - c == b - c;
    assert |b - a| == |b| - |a|;
    assert |b - c| == |b| - |c|;
  }
}
