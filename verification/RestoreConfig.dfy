// A whole restore: merge, then for Replace prune, in one transaction.
module RestoreConfig {
  import opened Common
  import opened NaturalKeys
  import opened RadioTables
  import opened RadioDatabase
  import opened BackupFile
  import opened RestoreMerge
  import opened RestoreMonitors
  import opened RestorePrune
  import opened RestoreViews
  import opened RestoreFinalView

  ghost function Size(t: Tables): nat {
    |t.groups| + |t.tags| + |t.systems| + |t.talkgroups| + |t.units| + |t.monitors|
  }

  /** How many rows of t are not rows of t0. */
  ghost function NewRows(t0: Tables, t: Tables): nat {
    |t.groups.Keys - t0.groups.Keys| + |t.tags.Keys - t0.tags.Keys| + |t.systems.Keys - t0.systems.Keys|
    + |t.talkgroups.Keys - t0.talkgroups.Keys| + |t.units.Keys - t0.units.Keys| + |t.monitors.Keys - t0.monitors.Keys|
  }

  // ---- Merge ----

  /** How many rows each table gained. */
  datatype Counts = Counts(groups: nat, tags: nat, systems: nat, talkgroups: nat, units: nat, monitors: nat)

  /** From t0 to t every row of the file was written, and k is where. */
  ghost predicate AllMerged(t0: Tables, t: Tables, f: File, k: Keeps, c: Counts)
    requires ForeignKeys(t0) && ForeignKeys(t)
  {
    && ViewOf(t) == Merged(ViewOf(t0), f)
    && Touched(t0.groups, t.groups, Labels(Rows(f.groups)), k.groups, c.groups)
    && Touched(t0.tags, t.tags, Labels(Rows(f.tags)), k.tags, c.tags)
    && Touched(SystemKeys(t0.systems), SystemKeys(t.systems), SystemsIn(Rows(f.systems)).Keys, k.systems, c.systems)
    && Touched(TalkgroupKeys(t0), TalkgroupKeys(t), FileTalkgroups(f).Keys, k.talkgroups, c.talkgroups)
    && Touched(UnitKeys(t0), UnitKeys(t), FileUnits(f).Keys, k.units, c.units)
    && MonitorsMerged(t0.monitors, t.monitors, Directories(Rows(f.monitors)), k.systems, k.talkgroups, k.monitors,
       c.monitors)
  }

  lemma {:induction false} NumbersListed(rows: seq<Row<System>>)
    ensures Numbers(rows).Values <= SystemsIn(rows).Keys
  {
    if rows != [] {
      NumbersListed(rows[..|rows| - 1]);
    }
  }

  /** Remapped systems are kept systems. */
  lemma RemapKept(m0: map<Pk, System>, m: map<Pk, System>, rows: seq<Row<System>>, remap: map<Pk, Pk>, keep: set<Pk>,
    created: nat)
    requires SystemsMerged(m0, m, rows, remap, keep, created)
    ensures remap.Values <= keep
  {
    NumbersListed(rows);
    forall pk | pk in remap.Values
      ensures pk in keep
    {
      var id :| id in remap && remap[id] == pk;
      assert Numbers(rows)[id] in Numbers(rows).Values;
    }
  }

  lemma MonitorsIntoMore(m0: map<Pk, Monitor>, m: map<Pk, Monitor>, dirs: set<string>, s: set<Pk>, g: set<Pk>,
    s': set<Pk>, g': set<Pk>, keep: set<Pk>, created: nat)
    requires MonitorsMerged(m0, m, dirs, s, g, keep, created) && s <= s' && g <= g'
    ensures MonitorsMerged(m0, m, dirs, s', g', keep, created)
  {
    hide Matched;
  }

  /** The views and keys of the other tables while groups, tags and systems are merged. */
  lemma ParentsMerged(t0: Tables, t: Tables, f: File, groupRemap: map<Pk, Pk>, tagRemap: map<Pk, Pk>,
    systemRemap: map<Pk, Pk>, k: Keeps, cg: nat, ct: nat, cs: nat)
    requires Sound(t0) && t == t0.(groups := t.groups, tags := t.tags, systems := t.systems)
    requires LabelsMerged(t0.groups, t.groups, Rows(f.groups), groupRemap, k.groups, cg)
    requires LabelsMerged(t0.tags, t.tags, Rows(f.tags), tagRemap, k.tags, ct)
    requires SystemsMerged(t0.systems, t.systems, Rows(f.systems), systemRemap, k.systems, cs)
    ensures ForeignKeys(t0) && ForeignKeys(t)
    ensures TalkgroupKeys(t) == TalkgroupKeys(t0) && UnitKeys(t) == UnitKeys(t0)
    ensures ViewOf(t) == ViewOf(t0).(groups := t.groups.Values, tags := t.tags.Values,
            systems := SystemsView(t.systems))
    ensures Remaps(t, Numbers(Rows(f.systems)), Names(Rows(f.groups)), Names(Rows(f.tags)), systemRemap, groupRemap,
            tagRemap)
  {
    hide Sound;
    SoundKeys(t0);
    SystemNumbersKept(t0.systems, t.systems, Rows(f.systems), systemRemap, k.systems, cs);
    SameRadioViews(t0, t);
  }

  lemma SystemNumbersKept(m0: map<Pk, System>, m: map<Pk, System>, rows: seq<Row<System>>, remap: map<Pk, Pk>,
    keep: set<Pk>, created: nat)
    requires SystemsMerged(m0, m, rows, remap, keep, created)
    ensures forall pk :: pk in m0 ==> pk in m && m[pk].number == m0[pk].number
  {
    forall pk | pk in m0
      ensures pk in m && m[pk].number == m0[pk].number
    {
      assert SystemKeys(m0)[pk] == SystemKeys(m)[pk];
    }
  }

  lemma RemapLive(t: Tables, t': Tables, f: File, systemRemap: map<Pk, Pk>, groupRemap: map<Pk, Pk>,
    tagRemap: map<Pk, Pk>)
    requires Remaps(t, Numbers(Rows(f.systems)), Names(Rows(f.groups)), Names(Rows(f.tags)), systemRemap, groupRemap,
             tagRemap)
    requires t'.systems == t.systems
    ensures Maps(systemRemap, SystemKeys(t'.systems), Numbers(Rows(f.systems)))
    ensures systemRemap.Values <= t'.systems.Keys
  {
  }

  lemma TalkgroupRemapLive(t: Tables, t': Tables, listed: map<RadioKey, TalkgroupMeaning>, names: map<Pk, RadioKey>,
    remap: map<Pk, Pk>, keep: set<Pk>, created: nat)
    requires ForeignKeys(t) && ForeignKeys(t') && TalkgroupsMerged(t, t', listed, names, remap, keep, created)
    ensures remap.Values <= keep <= t'.talkgroups.Keys
  {
  }

  /** The steps of a merge, together. */
  lemma MergeChain(t0: Tables, t1: Tables, t2: Tables, t3: Tables, t: Tables, f: File, k: Keeps, c: Counts,
    groupRemap: map<Pk, Pk>, tagRemap: map<Pk, Pk>, systemRemap: map<Pk, Pk>, tgRemap: map<Pk, Pk>)
    requires Sound(t0) && ForeignKeys(t0) && ForeignKeys(t1) && ForeignKeys(t2) && ForeignKeys(t3) && ForeignKeys(t)
    requires t1 == t0.(groups := t1.groups, tags := t1.tags, systems := t1.systems)
    requires LabelsMerged(t0.groups, t1.groups, Rows(f.groups), groupRemap, k.groups, c.groups)
    requires LabelsMerged(t0.tags, t1.tags, Rows(f.tags), tagRemap, k.tags, c.tags)
    requires SystemsMerged(t0.systems, t1.systems, Rows(f.systems), systemRemap, k.systems, c.systems)
    requires t2 == t1.(talkgroups := t2.talkgroups)
             && TalkgroupsMerged(t1, t2, FileTalkgroups(f), FileTalkgroupNames(f), tgRemap, k.talkgroups, c.talkgroups)
    requires t3 == t2.(units := t3.units) && UnitsMerged(t2, t3, FileUnits(f), k.units, c.units)
    requires t == t3.(monitors := t.monitors)
    requires MonitorsMerged(t0.monitors, t.monitors, Directories(Rows(f.monitors)), systemRemap.Values, tgRemap.Values,
             k.monitors, c.monitors)
    ensures AllMerged(t0, t, f, k, c)
  {
    hide Sound, ForeignKeys, MonitorsMerged, Touched, Maps, SystemsIn, FileTalkgroups, FileUnits, Labels, Names,
      Numbers, Directories;
    ParentsMerged(t0, t1, f, groupRemap, tagRemap, systemRemap, k, c.groups, c.tags, c.systems);
    RemapKept(t0.systems, t1.systems, Rows(f.systems), systemRemap, k.systems, c.systems);
    TalkgroupRemapLive(t1, t2, FileTalkgroups(f), FileTalkgroupNames(f), tgRemap, k.talkgroups, c.talkgroups);
    MonitorsIntoMore(t0.monitors, t.monitors, Directories(Rows(f.monitors)), systemRemap.Values, tgRemap.Values,
      k.systems, k.talkgroups, k.monitors, c.monitors);
    UnitsUnaffected(t1, t2);
    TalkgroupsUnaffected(t2, t3);
    TalkgroupsUnaffected(t3, t);
    UnitsUnaffected(t3, t);
    assert TalkgroupKeys(t) == TalkgroupKeys(t2);
    assert UnitKeys(t) == UnitKeys(t3) && UnitKeys(t2) == UnitKeys(t1);
  }

  /** Where the monitors of the file were written, and what became of the file's systems and talkgroups. */
  datatype Placement = Placement(at: seq<Pk>, systems: map<Pk, Pk>, talkgroups: map<Pk, Pk>)

  /** Every monitor of the file is written, and the references it holds name the rows the file's own references name. */
  ghost predicate MonitorsWritten(t0: Tables, t: Tables, f: File, w: Placement)
    requires ForeignKeys(t)
  {
    && WrittenAt(Rows(f.monitors), w.at, t0.monitors, t.monitors, w.systems, w.talkgroups)
    && (forall pk :: pk in t.monitors ==> pk in t0.monitors || pk in w.at)
    && Maps(w.systems, SystemKeys(t.systems), Numbers(Rows(f.systems)))
    && Maps(w.talkgroups, TalkgroupKeys(t), FileTalkgroupNames(f))
  }

  /** What a written monitor says in the file's own terms: the row's directory, fields and order, the system with the
      number and the talkgroup with the key that the row's references have in the file, and none where they have
      none. */
  ghost predicate SaysFileRow(t: Tables, f: File, m: Monitor, d: Monitor)
    requires ForeignKeys(t)
  {
    var numbers, names := Numbers(Rows(f.systems)), FileTalkgroupNames(f);
    && m.directory == d.directory && m.fields == d.fields && m.order == d.order
    && (m.system.Some? <==> d.system.Some? && d.system.value in numbers)
    && (m.system.Some? ==>
          m.system.value in t.systems && t.systems[m.system.value].number == numbers[d.system.value])
    && (m.talkgroup.Some? <==> d.talkgroup.Some? && d.talkgroup.value in names)
    && (m.talkgroup.Some? ==>
          m.talkgroup.value in t.talkgroups && TalkgroupKeys(t)[m.talkgroup.value] == names[d.talkgroup.value])
  }

  /** Every monitor of the file, at the place where it was the last written. */
  ghost predicate MonitorsSay(t: Tables, f: File, at: seq<Pk>)
    requires ForeignKeys(t)
  {
    && |at| == |Rows(f.monitors)|
    && forall i :: 0 <= i < |at| && at[i] !in at[i + 1..] ==>
         at[i] in t.monitors && SaysFileRow(t, f, t.monitors[at[i]], Rows(f.monitors)[i].value)
  }

  lemma {:induction false} WrittenMeans(t0: Tables, t: Tables, f: File, w: Placement)
    requires ForeignKeys(t) && MonitorsWritten(t0, t, f, w)
    ensures MonitorsSay(t, f, w.at)
  {
    hide ForeignKeys, WrittenAt, TalkgroupKeys, Numbers, FileTalkgroupNames, SaysFileRow;
    WrittenRows(Rows(f.monitors), w.at, t0.monitors, t.monitors, w.systems, w.talkgroups);
    forall i | 0 <= i < |w.at| && w.at[i] !in w.at[i + 1..]
      ensures SaysFileRow(t, f, t.monitors[w.at[i]], Rows(f.monitors)[i].value)
    {
      RowSays(t, f, t.monitors[w.at[i]], Rows(f.monitors)[i].value, w);
    }
  }

  lemma RowSays(t: Tables, f: File, m: Monitor, d: Monitor, w: Placement)
    requires ForeignKeys(t) && HoldsRow(m, d, w.systems, w.talkgroups)
    requires Maps(w.systems, SystemKeys(t.systems), Numbers(Rows(f.systems)))
    requires Maps(w.talkgroups, TalkgroupKeys(t), FileTalkgroupNames(f))
    ensures SaysFileRow(t, f, m, d)
  {
    hide ForeignKeys, TalkgroupKeys, Numbers, FileTalkgroupNames;
    if m.system.Some? {
      assert SystemKeys(t.systems)[m.system.value] == t.systems[m.system.value].number;
    }
  }

  /** The places and the rows referred to are among the kept ones. */
  ghost predicate PlacedInKept(w: Placement, k: Keeps) {
    k.monitors == (set pk | pk in w.at) && w.systems.Values <= k.systems && w.talkgroups.Values <= k.talkgroups
  }

  lemma ChainWritten(t0: Tables, t1: Tables, t2: Tables, t3: Tables, t: Tables, f: File, k: Keeps, c: Counts,
    w: Placement)
    requires ForeignKeys(t0) && ForeignKeys(t1) && ForeignKeys(t2) && ForeignKeys(t3) && ForeignKeys(t)
    requires t1.monitors == t0.monitors
             && SystemsMerged(t0.systems, t1.systems, Rows(f.systems), w.systems, k.systems, c.systems)
    requires t2 == t1.(talkgroups := t2.talkgroups)
    requires TalkgroupsMerged(t1, t2, FileTalkgroups(f), FileTalkgroupNames(f), w.talkgroups, k.talkgroups,
             c.talkgroups)
    requires t3 == t2.(units := t3.units) && t == t3.(monitors := t.monitors)
    requires MonitorsMerged(t0.monitors, t.monitors, Directories(Rows(f.monitors)), w.systems.Values,
             w.talkgroups.Values,
             k.monitors, c.monitors)
    requires WrittenAt(Rows(f.monitors), w.at, t0.monitors, t.monitors, w.systems, w.talkgroups)
    requires k.monitors == (set pk | pk in w.at)
    ensures MonitorsWritten(t0, t, f, w) && PlacedInKept(w, k)
  {
    hide ForeignKeys, WrittenAt, MonitorsMerged, Touched, Maps, Keyed, SystemsIn, FileTalkgroups, FileTalkgroupNames,
      Numbers, Directories, TalkgroupKeys;
    RemapKept(t0.systems, t1.systems, Rows(f.systems), w.systems, k.systems, c.systems);
    SameTalkgroupKeys(t2, t);
    MonitorsKept(t0.monitors, t.monitors, Directories(Rows(f.monitors)), w.systems.Values, w.talkgroups.Values,
      k.monitors, c.monitors);
    hide SystemsView, TalkgroupsView;
  }

  lemma SameTalkgroupKeys(t: Tables, t': Tables)
    requires ForeignKeys(t) && ForeignKeys(t') && t'.systems == t.systems && t'.talkgroups == t.talkgroups
    ensures TalkgroupKeys(t') == TalkgroupKeys(t)
  {
  }

  lemma MonitorsKept(m0: map<Pk, Monitor>, m: map<Pk, Monitor>, dirs: set<string>, s: set<Pk>, g: set<Pk>,
    keep: set<Pk>,
    created: nat)
    requires MonitorsMerged(m0, m, dirs, s, g, keep, created)
    ensures forall pk :: pk in m ==> pk in m0 || pk in keep
  {
    hide Matched, PointsInto;
  }

  lemma MergeSizes(t0: Tables, t: Tables, f: File, k: Keeps, c: Counts)
    requires ForeignKeys(t0) && ForeignKeys(t) && AllMerged(t0, t, f, k, c)
    ensures c.groups + c.tags + c.systems + c.talkgroups + c.units + c.monitors == Size(t) - Size(t0)
  {
  }

  method MergeAll(db: Database, f: File) returns (k: Keeps, created: nat, ghost c: Counts, ghost w: Placement)
    requires db.Valid()
    modifies db
    ensures db.Valid()
    ensures ForeignKeys(old(db.Contents())) && ForeignKeys(db.Contents())
    ensures AllMerged(old(db.Contents()), db.Contents(), f, k, c)
    ensures MonitorsWritten(old(db.Contents()), db.Contents(), f, w) && PlacedInKept(w, k)
    ensures MonitorsSay(db.Contents(), f, w.at)
    ensures created == c.groups + c.tags + c.systems + c.talkgroups + c.units + c.monitors
  {
    hide Sound, ForeignKeys, LabelsMerged, SystemsMerged, TalkgroupsMerged, UnitsMerged, MonitorsMerged, WrittenAt,
      Remaps, Maps, AllMerged, MonitorsWritten, PlacedInKept, MonitorsSay;
    ghost var t0 := db.Contents();
    SoundKeys(t0);
    var groupRemap, groupKeep, cg := RestoreGroups(db, Rows(f.groups));
    var tagRemap, tagKeep, ct := RestoreTags(db, Rows(f.tags));
    var systemRemap, systemKeep, cs := RestoreSystems(db, Rows(f.systems));
    ghost var t1 := db.Contents();
    ParentsMerged(t0, t1, f, groupRemap, tagRemap, systemRemap, Keeps(groupKeep, tagKeep, systemKeep, {}, {}, {}), cg,
      ct, cs);
    ghost var numbers := Numbers(Rows(f.systems));
    var tgRemap, tgKeep, ctg := RestoreTalkgroups(db, Rows(f.talkgroups), systemRemap, groupRemap, tagRemap,
      numbers, Names(Rows(f.groups)), Names(Rows(f.tags)));
    ghost var t2 := db.Contents();
    SoundKeys(t2);
    RemapLive(t1, t2, f, systemRemap, groupRemap, tagRemap);
    TalkgroupRemapLive(t1, t2, FileTalkgroups(f), FileTalkgroupNames(f), tgRemap, tgKeep, ctg);
    var unitKeep, cu := RestoreUnits(db, Rows(f.units), systemRemap, numbers);
    ghost var t3 := db.Contents();
    SoundKeys(t3);
    var monitorKeep, cm, at := RestoreMonitors.RestoreMonitors(db, Rows(f.monitors), systemRemap, tgRemap);
    SoundKeys(db.Contents());
    k := Keeps(groupKeep, tagKeep, systemKeep, tgKeep, unitKeep, monitorKeep);
    c := Counts(cg, ct, cs, ctg, cu, cm);
    MergeChain(t0, t1, t2, t3, db.Contents(), f, k, c, groupRemap, tagRemap, systemRemap, tgRemap);
    w := Placement(at, systemRemap, tgRemap);
    ChainWritten(t0, t1, t2, t3, db.Contents(), f, k, c, w);
    WrittenMeans(t0, db.Contents(), f, w);
    created := cg + ct + cs + ctg + cu + cm;
  }
}
