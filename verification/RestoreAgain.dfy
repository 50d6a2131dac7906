// The whole restore with its reported counts, and the same file restored a
// second time.
module RestoreAgain {
  import opened Common
  import opened NaturalKeys
  import opened RadioTables
  import opened RadioDatabase
  import opened BackupFile
  import opened PreviewMeaning
  import opened RestoreMonitors
  import opened RestoreConfig
  import opened RestoreReplace
  import opened Restore
  import opened RestoreTheorems
  import opened PreviewTheorems
  import opened PreviewDisagreements
  import opened MonitorTheorems

  // ---- The second run, row by row ----

  /** The five radio tables hold the same rows. */
  ghost predicate SameRadioRows(t: Tables, t': Tables) {
    && t'.groups == t.groups && t'.tags == t.tags
    && t'.systems.Keys == t.systems.Keys && t'.talkgroups.Keys == t.talkgroups.Keys && t'.units.Keys == t.units.Keys
  }

  /** Nothing goes and nothing comes when every listed natural key is already there. */
  lemma NoRowsChange<K(!new)>(keys0: map<Pk, K>, keys: map<Pk, K>, listed: set<K>)
    requires Injective(keys0) && Injective(keys) && SameOn(keys0, keys)
    requires forall pk :: pk in keys0 ==> pk in keys
    requires forall pk :: pk in keys ==> pk in keys0 || keys[pk] in listed
    requires listed <= keys0.Values
    ensures keys.Keys == keys0.Keys
  {
    forall k | k in listed
      ensures k in keys.Values
    {
      assert keys[PkOf(keys0, k)] == k;
    }
    NewRowsAreAdded(keys0, keys, listed);
    assert listed - keys0.Values == {};
    hide *;
    assert keys.Keys - keys0.Keys == {};
  }

  /** Every row left by a restore is one the same restore keeps. */
  ghost predicate Settled(t: Tables, f: File)
    requires ForeignKeys(t)
  {
    && (forall pk :: pk in t.groups && f.mode.Replace? && f.groups.Some? ==> t.groups[pk] in Labels(Rows(f.groups)))
    && (forall pk :: pk in t.tags && f.mode.Replace? && f.tags.Some? ==> t.tags[pk] in Labels(Rows(f.tags)))
    && (forall pk :: pk in t.systems && f.mode.Replace? && f.systems.Some? ==>
        SystemKeys(t.systems)[pk] in SystemsIn(Rows(f.systems)))
    && (forall pk :: pk in t.talkgroups && f.mode.Replace? ==>
        Stays(f, f.talkgroups.Some?, FileTalkgroups(f).Keys, TalkgroupKeys(t)[pk]))
    && (forall pk :: pk in t.units && f.mode.Replace? ==> Stays(f, f.units.Some?, FileUnits(f).Keys, UnitKeys(t)[pk]))
  }

  lemma RestoredSettles(v: View, t: Tables, f: File)
    requires Sound(t) && ForeignKeys(t) && ViewOf(t) == Restored(v, f)
    ensures Settled(t, f)
  {
    hide Sound, ForeignKeys, FileTalkgroups, FileUnits, SystemsIn, Labels, Keyed, Injective, Stays, Relabelled,
      SystemKeys, TalkgroupKeys, UnitKeys, SystemVals, TalkgroupVals, UnitVals, Merged;
    KeysInjective(t);
    if f.mode.Replace? {
      forall pk | pk in t.systems
        ensures SystemKeys(t.systems)[pk] in ViewOf(t).systems
      {
        KeyedAt(SystemKeys(t.systems), SystemVals(t.systems), pk);
      }
      forall pk | pk in t.talkgroups
        ensures TalkgroupKeys(t)[pk] in ViewOf(t).talkgroups
      {
        KeyedAt(TalkgroupKeys(t), TalkgroupVals(t), pk);
      }
      forall pk | pk in t.units
        ensures UnitKeys(t)[pk] in ViewOf(t).units
      {
        KeyedAt(UnitKeys(t), UnitVals(t), pk);
      }
      forall pk | pk in t.groups
        ensures t.groups[pk] in ViewOf(t).groups
      {
      }
      forall pk | pk in t.tags
        ensures t.tags[pk] in ViewOf(t).tags
      {
      }
    }
  }

  lemma LabelsAgain(m: map<Pk, string>, m': map<Pk, string>, mode: Mode, carried: Option<seq<Row<string>>>)
    requires Injective(m) && Injective(m') && LabelsSurvive(m, m', mode, carried)
    requires forall pk :: pk in m && mode.Replace? && carried.Some? ==> m[pk] in Labels(Rows(carried))
    requires Labels(Rows(carried)) <= m.Values
    ensures m' == m
  {
    hide Labels, Injective;
    NoRowsChange(m, m', Labels(Rows(carried)));
  }

  lemma SystemsAgain(t: Tables, t': Tables, f: File)
    requires ForeignKeys(t) && Injective(SystemKeys(t.systems)) && Injective(SystemKeys(t'.systems))
             && SystemsSurvive(t.systems, t'.systems, f)
    requires Settled(t, f) && SystemsIn(Rows(f.systems)).Keys <= SystemKeys(t.systems).Values
    ensures t'.systems.Keys == t.systems.Keys
  {
    hide Injective, SystemsIn, FileTalkgroups, FileUnits, Labels, ForeignKeys, Stays;
    forall pk | pk in t'.systems
      ensures pk in t.systems || SystemKeys(t'.systems)[pk] in SystemsIn(Rows(f.systems)).Keys
    {
      assert SystemKeys(t'.systems)[pk] == t'.systems[pk].number;
    }
    NoRowsChange(SystemKeys(t.systems), SystemKeys(t'.systems), SystemsIn(Rows(f.systems)).Keys);
  }

  lemma TalkgroupsAgain(t: Tables, t': Tables, f: File)
    requires ForeignKeys(t) && ForeignKeys(t') && Injective(TalkgroupKeys(t)) && Injective(TalkgroupKeys(t'))
             && TalkgroupsSurvive(t, t', f)
    requires Settled(t, f) && FileTalkgroups(f).Keys <= TalkgroupKeys(t).Values
    ensures t'.talkgroups.Keys == t.talkgroups.Keys
  {
    hide Injective, SystemsIn, FileTalkgroups, FileUnits, Labels, ForeignKeys, Stays, TalkgroupKeys, UnitKeys,
      SystemKeys;
    NoRowsChange(TalkgroupKeys(t), TalkgroupKeys(t'), FileTalkgroups(f).Keys);
  }

  lemma UnitsAgain(t: Tables, t': Tables, f: File)
    requires ForeignKeys(t) && ForeignKeys(t') && Injective(UnitKeys(t)) && Injective(UnitKeys(t'))
             && UnitsSurvive(t, t', f)
    requires Settled(t, f) && FileUnits(f).Keys <= UnitKeys(t).Values
    ensures t'.units.Keys == t.units.Keys
  {
    hide Injective, SystemsIn, FileTalkgroups, FileUnits, Labels, ForeignKeys, Stays, TalkgroupKeys, UnitKeys,
      SystemKeys;
    NoRowsChange(UnitKeys(t), UnitKeys(t'), FileUnits(f).Keys);
  }

  /** A restore of a file on tables that same restore left creates and removes no radio row and says nothing new. */
  lemma {:induction false} SecondRun(v: View, t: Tables, t': Tables, f: File)
    requires Sound(t) && Sound(t') && ForeignKeys(t) && ForeignKeys(t')
    requires ViewOf(t) == Restored(v, f) && ViewOf(t') == Restored(ViewOf(t), f) && Survivors(t, t', f)
    ensures SameRadioRows(t, t') && ViewOf(t') == ViewOf(t)
  {
    hide Sound, ForeignKeys, Settled, Restored, LabelsSurvive, SystemsSurvive, TalkgroupsSurvive, UnitsSurvive,
      FileTalkgroups, FileUnits, SystemsIn, Labels, Injective, TalkgroupKeys, UnitKeys, SystemKeys, SystemVals,
      TalkgroupVals, UnitVals;
    RestoreIdempotent(v, f);
    RestoredSettles(v, t, f);
    RestoreKeepsFile(v, f);
    KeysInjective(t);
    KeysInjective(t');
    SoundKeys(t);
    SoundKeys(t');
    SettledLabels(t, f);
    LabelsAgain(t.groups, t'.groups, f.mode, f.groups);
    LabelsAgain(t.tags, t'.tags, f.mode, f.tags);
    WithinKeys(SystemsIn(Rows(f.systems)), SystemsView(t.systems));
    SystemsAgain(t, t', f);
    WithinKeys(FileTalkgroups(f), TalkgroupsView(t));
    TalkgroupsAgain(t, t', f);
    WithinKeys(FileUnits(f), UnitsView(t));
    UnitsAgain(t, t', f);
  }

  lemma SettledLabels(t: Tables, f: File)
    requires ForeignKeys(t) && Settled(t, f)
    ensures forall pk :: pk in t.groups && f.mode.Replace? && f.groups.Some? ==> t.groups[pk] in Labels(Rows(f.groups))
    ensures forall pk :: pk in t.tags && f.mode.Replace? && f.tags.Some? ==> t.tags[pk] in Labels(Rows(f.tags))
  {
    hide Labels, SystemsIn, FileTalkgroups, FileUnits, Stays, ForeignKeys, TalkgroupKeys, UnitKeys, SystemKeys;
  }

  /** Once a Replace of the file went through, no folder monitor can stop the next one. */
  lemma {:induction false} NotBlockedAgain(v: View, t: Tables, f: File)
    requires Sound(t) && ForeignKeys(t) && f.mode.Replace? && ViewOf(t) == Restored(v, f)
    ensures !Blocked(t, f)
  {
    RestoredSettles(v, t, f);
    hide Sound, FileTalkgroups, FileUnits, SystemsIn, Labels, Restored, Matched, Directories;
    forall pk | pk in t.monitors
      ensures MonitorRefs(t, t.monitors[pk]) && !MonitorPins(t, f, t.monitors[pk])
    {
      SettledPins(t, f, t.monitors[pk]);
    }
  }

  ghost predicate MonitorPins(t: Tables, f: File, m: Monitor)
    requires ForeignKeys(t) && MonitorRefs(t, m)
  {
    Pins(t, f, m)
  }

  lemma SettledPins(t: Tables, f: File, m: Monitor)
    requires ForeignKeys(t) && Settled(t, f) && f.mode.Replace? && MonitorRefs(t, m)
    ensures !Pins(t, f, m)
  {
    hide FileTalkgroups, FileUnits, SystemsIn, Labels;
    if m.system.Some? {
      assert SystemKeys(t.systems)[m.system.value] == t.systems[m.system.value].number;
    }
    if m.talkgroup.Some? {
      assert TalkgroupRefs(t, t.talkgroups[m.talkgroup.value]);
      assert TalkgroupKeys(t)[m.talkgroup.value] == TalkgroupKey(t.systems, t.talkgroups[m.talkgroup.value]);
    }
  }

  lemma SameRemap<K(!new)>(keys: map<Pk, K>, keys': map<Pk, K>, remap: map<Pk, Pk>, remap': map<Pk, Pk>,
    names: map<Pk, K>)
    requires Injective(keys) && SameOn(keys, keys') && keys'.Keys == keys.Keys
    requires Maps(remap, keys, names) && Maps(remap', keys', names)
    ensures remap' == remap
  {
  }

  /** Both runs carry the file's references to the same rows. */
  lemma SameReferences(t0: Tables, t: Tables, t': Tables, f: File, w: Placement, w': Placement)
    requires Sound(t) && ForeignKeys(t) && ForeignKeys(t') && SameRadioRows(t, t') && Survivors(t, t', f)
    requires MonitorsWritten(t0, t, f, w) && MonitorsWritten(t, t', f, w')
    ensures w'.systems == w.systems && w'.talkgroups == w.talkgroups
  {
    hide Sound, ForeignKeys, Injective, LabelsSurvive, Stays, FileTalkgroups, SystemsIn, TalkgroupKeys, SystemKeys,
      WrittenAt, Maps, Numbers, FileTalkgroupNames, UnitsSurvive;
    KeysInjective(t);
    SameRemap(SystemKeys(t.systems), SystemKeys(t'.systems), w.systems, w'.systems, Numbers(Rows(f.systems)));
    SameRemap(TalkgroupKeys(t), TalkgroupKeys(t'), w.talkgroups, w'.talkgroups, FileTalkgroupNames(f));
  }

  /** The folder monitors through two restores of one file. */
  lemma {:induction false} SecondRunMonitors(t0: Tables, t: Tables, t': Tables, f: File, w: Placement, w': Placement)
    requires Sound(t) && ForeignKeys(t) && ForeignKeys(t') && SameRadioRows(t, t') && Survivors(t, t', f)
    requires MonitorsSurvive(t0.monitors, t.monitors, f) && MonitorsSurvive(t.monitors, t'.monitors, f)
    requires MonitorsWritten(t0, t, f, w) && MonitorsWritten(t, t', f, w')
    ensures SecondMonitors(t0.monitors, t.monitors, t'.monitors, f, w, w')
  {
    hide Sound, ForeignKeys, SameRadioRows, Survivors, MonitorsSurvive, WrittenAt, Maps, SecondMonitors;
    SameReferences(t0, t, t', f, w, w');
    MonitorsTwice(t0.monitors, t.monitors, t'.monitors, f, w, w');
  }

  /** Restoring a file twice: the second run always goes through, leaves the radio tables as the first did, and does
      to the folder monitors what SecondMonitors says. */
  method RestoreTwice(db: Database, f: File)
    returns (ok: bool, again: bool, ghost between: Tables, ghost w: Placement, ghost w': Placement)
    requires db.Valid()
    modifies db
    ensures db.Valid() && ForeignKeys(old(db.Contents())) && ForeignKeys(db.Contents()) && ForeignKeys(between)
    ensures ok <==> !(f.mode.Replace? && Blocked(old(db.Contents()), f))
    ensures again == ok
    ensures !ok ==> db.Contents() == old(db.Contents())
    ensures ok ==> SameRadioRows(between, db.Contents()) && ViewOf(between) == Restored(ViewOf(old(db.Contents())), f)
    ensures ok ==> ViewOf(db.Contents()) == ViewOf(between)
    ensures ok ==> SecondMonitors(old(db.Contents()).monitors, between.monitors, db.Contents().monitors, f, w, w')
  {
    hide Sound, ForeignKeys, Blocked, Survivors, MonitorsSurvive, MonitorsWritten, SecondMonitors, Restored, ViewOf,
      NewRows, SameRadioRows;
    var created, removed;
    ok, created, removed, w := RestoreTables(db, f);
    between := db.Contents();
    again, created, removed, w' := RestoreTables(db, f);
    if ok {
      if f.mode.Replace? { NotBlockedAgain(ViewOf(old(db.Contents())), between, f); }
      SecondRun(ViewOf(old(db.Contents())), between, db.Contents(), f);
      SecondRunMonitors(old(db.Contents()), between, db.Contents(), f, w, w');
    }
  }

  // ---- The operation an admin calls ----

  /** The review's "differ" count over every table. */
  function Changed(p: BackupPreview): nat {
    p.systems.changed + p.talkgroups.changed + p.units.changed + p.groups.changed + p.tags.changed + p.monitors.changed
  }

  datatype RestoreResult = Done(created: nat, updated: nat, removed: nat) | Failed

  /** The review's Added is the rows that came: for a radio table the file carries always, for groups and tags
      exactly when no new label is another one respelled, for folder monitors exactly when no new directory is listed
      twice. */
  ghost predicate AddedHappened(p: BackupPreview, t0: Tables, t: Tables, f: File) {
    && (f.systems.Some? ==> p.systems.added == |t.systems.Keys - t0.systems.Keys|)
    && (f.talkgroups.Some? ==> p.talkgroups.added == |t.talkgroups.Keys - t0.talkgroups.Keys|)
    && (f.units.Some? ==> p.units.added == |t.units.Keys - t0.units.Keys|)
    && (f.groups.Some? ==>
          (p.groups.added == |t.groups.Keys - t0.groups.Keys|
           <==> SpelledApart(t0.groups, NewLabels(t0.groups, f.groups))))
    && (f.tags.Some? ==>
        (p.tags.added == |t.tags.Keys - t0.tags.Keys| <==> SpelledApart(t0.tags, NewLabels(t0.tags, f.tags))))
    && (f.monitors.Some? ==>
          (p.monitors.added == |t.monitors.Keys - t0.monitors.Keys|
           <==> !ListedTwice(Rows(f.monitors), Live(t0.monitors))))
  }

  /** The review's Removed is the rows that went: for systems always when the file carries them, for talkgroups and
      units exactly when the file carries them with their systems or nothing is lost by that, for groups and tags
      when none is respelled. */
  ghost predicate RemovedHappened(p: BackupPreview, t0: Tables, t: Tables, f: File)
    requires ForeignKeys(t0)
  {
    var listed := SystemsIn(Rows(f.systems)).Keys;
    && (f.systems.Some? ==> p.systems.removed == |t0.systems.Keys - t.systems.Keys|)
    && (p.talkgroups.removed == |t0.talkgroups.Keys - t.talkgroups.Keys|
        <==> RemovedRight(f.systems.Some?, f.talkgroups.Some?, TalkgroupKeys(t0), listed))
    && (p.units.removed == |t0.units.Keys - t.units.Keys|
        <==> RemovedRight(f.systems.Some?, f.units.Some?, UnitKeys(t0), listed))
    && (f.groups.Some? ==>
        (p.groups.removed == |t0.groups.Keys - t.groups.Keys| <==> OtherSpelling(t0.groups, Rows(f.groups)) == {}))
    && (f.tags.Some? ==>
        (p.tags.removed == |t0.tags.Keys - t.tags.Keys| <==> OtherSpelling(t0.tags, Rows(f.tags)) == {}))
    && (f.monitors.Some? ==>
          (p.monitors.removed == |t0.monitors.Keys - t.monitors.Keys|
           <==> Shadowed(t0.monitors, Directories(Rows(f.monitors))) == {}))
  }

  lemma AddedHappens(p: BackupPreview, t0: Tables, t: Tables, f: File, w: Placement)
    requires Sound(t0) && Sound(t) && ForeignKeys(t0) && ForeignKeys(t) && PreviewSays(p, t0, f)
    requires Survivors(t0, t, f) && ViewOf(t) == Restored(ViewOf(t0), f)
    requires MonitorsSurvive(t0.monitors, t.monitors, f) && MonitorsWritten(t0, t, f, w)
    ensures AddedHappened(p, t0, t, f)
  {
    hide Sound, ForeignKeys, Survivors, Restored, ViewOf, PreviewSays, SpelledApart, NewLabels, MonitorsSurvive,
      MonitorsWritten, ListedTwice, Live;
    MonitorsAddedHappen(p, t0, t, f, w);
    AddedAgrees(t0, t, f, p);
    LabelsAdded(t0, t, f, p);
  }

  lemma MonitorsAddedHappen(p: BackupPreview, t0: Tables, t: Tables, f: File, w: Placement)
    requires ForeignKeys(t0) && ForeignKeys(t) && PreviewSays(p, t0, f)
    requires MonitorsSurvive(t0.monitors, t.monitors, f) && MonitorsWritten(t0, t, f, w)
    ensures f.monitors.Some? ==>
              (p.monitors.added == |t.monitors.Keys - t0.monitors.Keys|
               <==> !ListedTwice(Rows(f.monitors), Live(t0.monitors)))
  {
    hide ForeignKeys, Reports, MonitorsSurvive, WrittenAt, Maps, ListedTwice, Live;
    if f.monitors.Some? { MonitorsAddedAgree(t0.monitors, t.monitors, f, w, p.monitors); }
  }

  lemma MonitorsChangedHappen(p: BackupPreview, t0: Tables, t: Tables, f: File, w: Placement)
    requires ForeignKeys(t0) && ForeignKeys(t) && PreviewSays(p, t0, f)
    requires MonitorsSurvive(t0.monitors, t.monitors, f) && MonitorsWritten(t0, t, f, w)
    ensures f.monitors.Some? ==> MonitorsChangedRight(p.monitors, t0.monitors, t.monitors, Rows(f.monitors))
  {
    hide ForeignKeys, Reports, MonitorsSurvive, WrittenAt, Maps, MonitorsChangedRight;
    if f.monitors.Some? { MonitorsChanged(t0.monitors, t.monitors, f, w, p.monitors); }
  }

  lemma RemovedHappens(p: BackupPreview, t0: Tables, t: Tables, f: File)
    requires ForeignKeys(t0) && ForeignKeys(t) && PreviewSays(p, t0, f) && f.mode.Replace? && Survivors(t0, t, f)
    requires MonitorsSurvive(t0.monitors, t.monitors, f)
    ensures RemovedHappened(p, t0, t, f)
  {
    hide ForeignKeys, Survivors, MonitorsSurvive, PreviewSays, RemovedRight, OtherSpelling, Shadowed, SystemsIn,
      FileTalkgroups, FileUnits, TalkgroupKeys, UnitKeys;
    RemovedAgrees(t0, t, f, p);
    RemovedExact(t0, t, f, p);
    RemovedLabels(p, t0, t, f);
    RemovedMonitors(p, t0, t, f);
  }

  lemma RemovedLabels(p: BackupPreview, t0: Tables, t: Tables, f: File)
    requires ForeignKeys(t0) && ForeignKeys(t) && PreviewSays(p, t0, f) && f.mode.Replace? && Survivors(t0, t, f)
    ensures f.groups.Some? ==>
            (p.groups.removed == |t0.groups.Keys - t.groups.Keys| <==> OtherSpelling(t0.groups, Rows(f.groups)) == {})
    ensures f.tags.Some? ==>
            (p.tags.removed == |t0.tags.Keys - t.tags.Keys| <==> OtherSpelling(t0.tags, Rows(f.tags)) == {})
  {
    hide ForeignKeys, LabelsSurvive, SystemsSurvive, TalkgroupsSurvive, UnitsSurvive, Reports, OtherSpelling;
    if f.groups.Some? { LabelsRemovedAgree(t0.groups, t.groups, f.groups, p.groups); }
    if f.tags.Some? { LabelsRemovedAgree(t0.tags, t.tags, f.tags, p.tags); }
  }

  lemma RemovedMonitors(p: BackupPreview, t0: Tables, t: Tables, f: File)
    requires ForeignKeys(t0) && PreviewSays(p, t0, f) && f.mode.Replace? && MonitorsSurvive(t0.monitors, t.monitors, f)
    ensures f.monitors.Some? ==>
              (p.monitors.removed == |t0.monitors.Keys - t.monitors.Keys|
               <==> Shadowed(t0.monitors, Directories(Rows(f.monitors))) == {})
  {
    hide ForeignKeys, MonitorsSurvive, Reports, Shadowed, Directories, MonitorsIn;
    if f.monitors.Some? { MonitorsRemovedAgree(t0.monitors, t.monitors, f, p.monitors); }
  }

  /** Review first, then restore: what is reported is what happens. */
  method ImportConfig(db: Database, f: File) returns (res: RestoreResult, p: BackupPreview)
    requires db.Valid()
    modifies db
    ensures db.Valid() && ForeignKeys(old(db.Contents())) && ForeignKeys(db.Contents())
    ensures PreviewSays(p, old(db.Contents()), f)
    ensures res.Failed? <==> f.mode.Replace? && Blocked(old(db.Contents()), f)
    ensures res.Failed? ==> db.Contents() == old(db.Contents())
    ensures res.Done? ==> ViewOf(db.Contents()) == Restored(ViewOf(old(db.Contents())), f)
    ensures res.Done? ==>
            res.created == NewRows(old(db.Contents()), db.Contents())
            && res.removed == NewRows(db.Contents(), old(db.Contents()))
    ensures res.Done? ==> res.updated == Changed(p)
    ensures res.Done? ==> ChangedRight(p, old(db.Contents()), db.Contents(), f)
    ensures res.Done? && f.monitors.Some? ==>
              MonitorsChangedRight(p.monitors, old(db.Contents()).monitors, db.Contents().monitors, Rows(f.monitors))
    ensures res.Done? ==> AddedHappened(p, old(db.Contents()), db.Contents(), f)
    ensures res.Done? && f.mode.Replace? ==> RemovedHappened(p, old(db.Contents()), db.Contents(), f)
  {
    hide Sound, ForeignKeys, Blocked, Survivors, MonitorsSurvive, MonitorsWritten, Restored, ViewOf, NewRows,
      PreviewSays, AddedHappened, RemovedHappened, ChangedRight, MonitorsChangedRight;
    p := PreviewBackup(db, f);
    var ok, created, removed, w := RestoreTables(db, f);
    if !ok {
      return Failed, p;
    }
    res := Done(created, Changed(p), removed);
    ChangedExact(old(db.Contents()), db.Contents(), f, p);
    MonitorsChangedHappen(p, old(db.Contents()), db.Contents(), f, w);
    AddedHappens(p, old(db.Contents()), db.Contents(), f, w);
    if f.mode.Replace? {
      RemovedHappens(p, old(db.Contents()), db.Contents(), f);
    }
  }
}
