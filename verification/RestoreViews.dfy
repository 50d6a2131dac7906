// Deleting what a file does not carry, stage by stage, and what each stage
// does to the view.
module RestoreViews {
  import opened Common
  import opened NaturalKeys
  import opened RadioTables
  import opened RadioDatabase
  import opened BackupFile
  import opened RestorePrune

  /** The rows of each table the file's rows were written to. */
  datatype Keeps = Keeps(
    groups: set<Pk>, tags: set<Pk>, systems: set<Pk>, talkgroups: set<Pk>, units: set<Pk>, monitors: set<Pk>)

  ghost predicate KeepsExactly<K(!new)>(keys: map<Pk, K>, keep: set<Pk>, listed: set<K>) {
    forall pk :: pk in keys ==> (pk in keep <==> keys[pk] in listed)
  }

  /** A row is kept exactly when the file has its natural key. */
  ghost predicate KeepsMean(t: Tables, f: File, k: Keeps)
    requires ForeignKeys(t)
  {
    && KeepsExactly(t.groups, k.groups, Labels(Rows(f.groups)))
    && KeepsExactly(t.tags, k.tags, Labels(Rows(f.tags)))
    && KeepsExactly(SystemKeys(t.systems), k.systems, SystemsIn(Rows(f.systems)).Keys)
    && KeepsExactly(TalkgroupKeys(t), k.talkgroups, FileTalkgroups(f).Keys)
    && KeepsExactly(UnitKeys(t), k.units, FileUnits(f).Keys)
  }

  // ---- The stages, on tables ----

  ghost function PruneTalkgroupRows(t: Tables, f: File, k: Keeps): Tables {
    if f.talkgroups.Some? && f.systems.Some? then WithoutTalkgroups(t, AbsentTalkgroups(t, k.talkgroups, k.systems))
    else t
  }

  ghost function PruneUnitRows(t: Tables, f: File, k: Keeps): Tables {
    if f.units.Some? && f.systems.Some? then t.(units := t.units - AbsentUnits(t, k.units, k.systems)) else t
  }

  ghost function PruneGroupRows(t: Tables, f: File, k: Keeps): Tables {
    if f.groups.Some? then WithoutGroups(t, t.groups.Keys - k.groups) else t
  }

  ghost function PruneTagRows(t: Tables, f: File, k: Keeps): Tables {
    if f.tags.Some? then WithoutTags(t, t.tags.Keys - k.tags) else t
  }

  ghost function PruneMonitorRows(t: Tables, f: File, k: Keeps): Tables {
    if f.monitors.Some? then t.(monitors := t.monitors - AbsentMonitors(t, k.monitors, f.systems.Some?, k.systems))
    else t
  }

  ghost function PruneSystemRows(t: Tables, f: File, k: Keeps): Tables {
    if f.systems.Some? then WithoutSystems(t, t.systems.Keys - k.systems) else t
  }

  /** What each stage leaves alone. */
  lemma StageFrames(t: Tables, f: File, k: Keeps)
    ensures PruneTalkgroupRows(t, f, k) == t.(talkgroups := PruneTalkgroupRows(t, f, k).talkgroups)
    ensures PruneUnitRows(t, f, k) == t.(units := PruneUnitRows(t, f, k).units)
    ensures PruneGroupRows(t, f, k) == t.(groups := PruneGroupRows(t, f, k).groups,
            talkgroups := PruneGroupRows(t, f, k).talkgroups)
    ensures PruneTagRows(t, f, k) == t.(tags := PruneTagRows(t, f, k).tags,
            talkgroups := PruneTagRows(t, f, k).talkgroups)
    ensures PruneMonitorRows(t, f, k) == t.(monitors := PruneMonitorRows(t, f, k).monitors)
    ensures var t' := PruneSystemRows(t, f, k);
            t' == t.(systems := t'.systems, talkgroups := t'.talkgroups, units := t'.units)
  {
  }

  ghost predicate Stages(t0: Tables, t1: Tables, t2: Tables, t3: Tables, t4: Tables, t5: Tables, t6: Tables, f: File,
    k: Keeps) {
    && t1 == PruneTalkgroupRows(t0, f, k) && t2 == PruneUnitRows(t1, f, k) && t3 == PruneGroupRows(t2, f, k)
    && t4 == PruneTagRows(t3, f, k) && t5 == PruneMonitorRows(t4, f, k) && t6 == PruneSystemRows(t5, f, k)
  }

  /** Which stages touch which tables. */
  lemma StagesFrame(t0: Tables, t1: Tables, t2: Tables, t3: Tables, t4: Tables, t5: Tables, t6: Tables, f: File,
    k: Keeps)
    requires Stages(t0, t1, t2, t3, t4, t5, t6, f, k)
    ensures t2.groups == t0.groups && t6.groups == t3.groups
    ensures t3.tags == t0.tags && t6.tags == t4.tags
    ensures t5.systems == t0.systems
    ensures t1.units == t0.units && t5.units == t2.units && t1.systems == t0.systems
    ensures t2.talkgroups == t1.talkgroups && t5.talkgroups == t4.talkgroups
    ensures t4.monitors == t0.monitors && t6.monitors == t5.monitors && t4.systems == t0.systems
  {
    hide PruneTalkgroupRows, PruneUnitRows, PruneGroupRows, PruneTagRows, PruneMonitorRows, PruneSystemRows;
    StageFrames(t0, f, k);
    StageFrames(t1, f, k);
    StageFrames(t2, f, k);
    StageFrames(t3, f, k);
    StageFrames(t4, f, k);
    StageFrames(t5, f, k);
  }

  // ---- What is left of each row ----

  /** The talkgroup row left after some of the stages: absent rows, groups, tags, cascades. */
  ghost predicate TalkgroupLeft(t0: Tables, t: Tables, k: Keeps, absent: bool, groups: bool, tags: bool, cascade: bool,
    pk: Pk) {
    && (pk in t.talkgroups <==>
          && pk in t0.talkgroups
          && (absent ==> pk in k.talkgroups || t0.talkgroups[pk].system !in k.systems)
          && (cascade ==> t0.talkgroups[pk].system in k.systems))
    && (pk in t.talkgroups ==> t.talkgroups[pk] == Unlinked(t0.talkgroups[pk], k, groups, tags))
  }

  function Unlinked(tg: Talkgroup, k: Keeps, groups: bool, tags: bool): Talkgroup {
    tg.(group := if groups && tg.group.Some? && tg.group.value !in k.groups then None else tg.group,
        tag := if tags && tg.tag.Some? && tg.tag.value !in k.tags then None else tg.tag)
  }

  ghost predicate TalkgroupsLeft(t0: Tables, t: Tables, k: Keeps, absent: bool, groups: bool, tags: bool,
    cascade: bool) {
    forall pk :: TalkgroupLeft(t0, t, k, absent, groups, tags, cascade, pk)
  }

  lemma TalkgroupsLeftAfterAll(t0: Tables, t1: Tables, t2: Tables, t3: Tables, t4: Tables, t5: Tables, t6: Tables,
    f: File, k: Keeps)
    requires ForeignKeys(t0) && Stages(t0, t1, t2, t3, t4, t5, t6, f, k)
    ensures TalkgroupsLeft(t0, t6, k, f.talkgroups.Some?
                           && f.systems.Some?, f.groups.Some?, f.tags.Some?, f.systems.Some?)
  {
    hide PruneTalkgroupRows, PruneUnitRows, PruneGroupRows, PruneTagRows, PruneMonitorRows, PruneSystemRows,
      TalkgroupsLeft, ForeignKeys;
    var absent := f.talkgroups.Some? && f.systems.Some?;
    StagesFrame(t0, t1, t2, t3, t4, t5, t6, f, k);
    AbsentStageLeft(t0, f, k);
    LeftElsewhere(t0, t1, t2, k, absent, false, false, false);
    GroupStageLeft(t0, t2, f, k, absent);
    TagStageLeft(t0, t3, f, k, absent);
    LeftElsewhere(t0, t4, t5, k, absent, f.groups.Some?, f.tags.Some?, false);
    SystemStageLeft(t0, t5, f, k, absent);
  }

  lemma LeftElsewhere(t0: Tables, t: Tables, t': Tables, k: Keeps, absent: bool, groups: bool, tags: bool,
    cascade: bool)
    requires TalkgroupsLeft(t0, t, k, absent, groups, tags, cascade) && t'.talkgroups == t.talkgroups
    ensures TalkgroupsLeft(t0, t', k, absent, groups, tags, cascade)
  {
    forall pk
      ensures TalkgroupLeft(t0, t', k, absent, groups, tags, cascade, pk)
    {
      assert TalkgroupLeft(t0, t, k, absent, groups, tags, cascade, pk);
    }
  }

  lemma AbsentStageLeft(t0: Tables, f: File, k: Keeps)
    ensures TalkgroupsLeft(t0, PruneTalkgroupRows(t0, f, k), k, f.talkgroups.Some?
                           && f.systems.Some?, false, false, false)
  {
  }

  lemma GroupStageLeft(t0: Tables, t: Tables, f: File, k: Keeps, absent: bool)
    requires ForeignKeys(t0) && t.groups == t0.groups
    requires TalkgroupsLeft(t0, t, k, absent, false, false, false)
    ensures TalkgroupsLeft(t0, PruneGroupRows(t, f, k), k, absent, f.groups.Some?, false, false)
  {
    forall pk
      ensures TalkgroupLeft(t0, PruneGroupRows(t, f, k), k, absent, f.groups.Some?, false, false, pk)
    {
      assert TalkgroupLeft(t0, t, k, absent, false, false, false, pk);
      if pk in t0.talkgroups {
        assert TalkgroupRefs(t0, t0.talkgroups[pk]);
      }
    }
  }

  lemma TagStageLeft(t0: Tables, t: Tables, f: File, k: Keeps, absent: bool)
    requires ForeignKeys(t0) && t.tags == t0.tags
    requires TalkgroupsLeft(t0, t, k, absent, f.groups.Some?, false, false)
    ensures TalkgroupsLeft(t0, PruneTagRows(t, f, k), k, absent, f.groups.Some?, f.tags.Some?, false)
  {
    forall pk
      ensures TalkgroupLeft(t0, PruneTagRows(t, f, k), k, absent, f.groups.Some?, f.tags.Some?, false, pk)
    {
      assert TalkgroupLeft(t0, t, k, absent, f.groups.Some?, false, false, pk);
      if pk in t0.talkgroups {
        assert TalkgroupRefs(t0, t0.talkgroups[pk]);
      }
    }
  }

  lemma SystemStageLeft(t0: Tables, t: Tables, f: File, k: Keeps, absent: bool)
    requires ForeignKeys(t0) && t.systems == t0.systems
    requires TalkgroupsLeft(t0, t, k, absent, f.groups.Some?, f.tags.Some?, false)
    ensures TalkgroupsLeft(t0, PruneSystemRows(t, f, k), k, absent, f.groups.Some?, f.tags.Some?, f.systems.Some?)
  {
    forall pk
      ensures TalkgroupLeft(t0, PruneSystemRows(t, f, k), k, absent, f.groups.Some?, f.tags.Some?, f.systems.Some?, pk)
    {
      assert TalkgroupLeft(t0, t, k, absent, f.groups.Some?, f.tags.Some?, false, pk);
      if pk in t0.talkgroups {
        assert TalkgroupRefs(t0, t0.talkgroups[pk]);
      }
    }
  }

  /** The unit row left after the stages. */
  ghost predicate UnitLeft(t0: Tables, t: Tables, k: Keeps, absent: bool, cascade: bool, pk: Pk) {
    && (pk in t.units <==>
          && pk in t0.units
          && (absent ==> pk in k.units || t0.units[pk].system !in k.systems)
          && (cascade ==> t0.units[pk].system in k.systems))
    && (pk in t.units ==> t.units[pk] == t0.units[pk])
  }

  ghost predicate UnitsLeft(t0: Tables, t: Tables, k: Keeps, absent: bool, cascade: bool) {
    forall pk :: UnitLeft(t0, t, k, absent, cascade, pk)
  }

  lemma UnitsLeftAfterAll(t0: Tables, t1: Tables, t2: Tables, t3: Tables, t4: Tables, t5: Tables, t6: Tables, f: File,
    k: Keeps)
    requires ForeignKeys(t0) && Stages(t0, t1, t2, t3, t4, t5, t6, f, k)
    ensures UnitsLeft(t0, t6, k, f.units.Some? && f.systems.Some?, f.systems.Some?)
  {
    StagesFrame(t0, t1, t2, t3, t4, t5, t6, f, k);
    var absent, cascade := f.units.Some? && f.systems.Some?, f.systems.Some?;
    forall pk
      ensures UnitLeft(t0, t6, k, absent, cascade, pk)
    {
      assert pk in t0.units ==> t0.units[pk].system in t0.systems;
      AbsentUnitLeft(t1, f, k, pk);
      CascadeUnitLeft(t5, f, k, pk);
    }
  }

  lemma AbsentUnitLeft(t: Tables, f: File, k: Keeps, pk: Pk)
    ensures UnitLeft(t, PruneUnitRows(t, f, k), k, f.units.Some? && f.systems.Some?, false, pk)
  {
  }

  lemma CascadeUnitLeft(t: Tables, f: File, k: Keeps, pk: Pk)
    requires pk in t.units ==> t.units[pk].system in t.systems
    ensures UnitLeft(t, PruneSystemRows(t, f, k), k, false, f.systems.Some?, pk)
  {
  }
}
