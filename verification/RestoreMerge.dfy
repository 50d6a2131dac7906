// The first half of a restore: write every row of the file, table by table,
// matching by natural key and carrying foreign keys through the remaps.
module RestoreMerge {
  import opened Common
  import opened NaturalKeys
  import opened RadioTables
  import opened RadioDatabase
  import opened BackupFile

  // ---- Groups and tags ----

  /** From m0 to m, the labels of rows were written. */
  ghost predicate LabelsMerged(m0: map<Pk, string>, m: map<Pk, string>, rows: seq<Row<string>>, remap: map<Pk, Pk>,
    keep: set<Pk>, created: nat)
  {
    && m.Values == m0.Values + Labels(rows)
    && Maps(remap, m, Names(rows))
    && Touched(m0, m, Labels(rows), keep, created)
  }

  lemma LabelsNone(m: map<Pk, string>)
    ensures LabelsMerged(m, m, [], map[], {}, 0)
  {
  }

  lemma LabelStep(m0: map<Pk, string>, m: map<Pk, string>, rows: seq<Row<string>>, i: nat, remap: map<Pk, Pk>,
    keep: set<Pk>, created: nat, pk: Pk)
    requires i < |rows| && LabelsMerged(m0, m, rows[..i], remap, keep, created)
    requires UniqueLabels(m)
    requires pk in m ==> m[pk] == rows[i].value
    requires pk !in m ==> rows[i].value !in m.Values
    ensures LabelsMerged(m0, m[pk := rows[i].value], rows[..i + 1], remap[rows[i].id := pk], keep + {pk},
                         if pk in m then created else created + 1)
  {
    hide Touched, Maps;
    var done, l := rows[..i + 1], rows[i].value;
    assert done[..i] == rows[..i] && done[i] == rows[i];
    TouchStep(m0, m, Labels(rows[..i]), keep, created, pk, l);
    MapsStep(remap, m, Names(rows[..i]), rows[i].id, pk, l);
    if pk in m {
      assert m[pk := l] == m && l in m.Values;
    } else {
      LabelWritten(m, pk, l);
    }
  }

  method RestoreGroups(db: Database, rows: seq<Row<string>>) returns (remap: map<Pk, Pk>, keep: set<Pk>, created: nat)
    requires db.Valid()
    modifies db
    ensures db.Valid()
    ensures db.Contents() == old(db.Contents()).(groups := db.groups)
    ensures LabelsMerged(old(db.groups), db.groups, rows, remap, keep, created)
  {
    hide Sound, LabelsMerged, UniqueLabels;
    LabelsNone(db.groups);
    remap, keep, created := map[], {}, 0;
    for i := 0 to |rows|
      invariant db.Valid()
      invariant db.Contents() == old(db.Contents()).(groups := db.groups)
      invariant LabelsMerged(old(db.groups), db.groups, rows[..i], remap, keep, created)
    {
      var g := rows[i];
      ghost var m := db.groups;
      SoundKeys(db.Contents());
      var id := db.CreateGroup(g.value);
      ghost var before := created;
      if id.None? {
        id := db.GetGroupByLabel(g.value);
      } else {
        created := created + 1;
      }
      assert db.groups == m[id.value := g.value];
      LabelStep(old(db.groups), m, rows, i, remap, keep, before, id.value);
      remap, keep := remap[g.id := id.value], keep + {id.value};
    }
    assert rows[..|rows|] == rows;
  }

  method RestoreTags(db: Database, rows: seq<Row<string>>) returns (remap: map<Pk, Pk>, keep: set<Pk>, created: nat)
    requires db.Valid()
    modifies db
    ensures db.Valid()
    ensures db.Contents() == old(db.Contents()).(tags := db.tags)
    ensures LabelsMerged(old(db.tags), db.tags, rows, remap, keep, created)
  {
    hide Sound, LabelsMerged, UniqueLabels;
    LabelsNone(db.tags);
    remap, keep, created := map[], {}, 0;
    for i := 0 to |rows|
      invariant db.Valid()
      invariant db.Contents() == old(db.Contents()).(tags := db.tags)
      invariant LabelsMerged(old(db.tags), db.tags, rows[..i], remap, keep, created)
    {
      var t := rows[i];
      ghost var m := db.tags;
      SoundKeys(db.Contents());
      var id := db.CreateTag(t.value);
      ghost var before := created;
      if id.None? {
        id := db.GetTagByLabel(t.value);
      } else {
        created := created + 1;
      }
      assert db.tags == m[id.value := t.value];
      LabelStep(old(db.tags), m, rows, i, remap, keep, before, id.value);
      remap, keep := remap[t.id := id.value], keep + {id.value};
    }
    assert rows[..|rows|] == rows;
  }

  // ---- Systems ----

  ghost predicate SystemsMerged(m0: map<Pk, System>, m: map<Pk, System>, rows: seq<Row<System>>, remap: map<Pk, Pk>,
    keep: set<Pk>, created: nat)
  {
    && SystemsView(m) == SystemsView(m0) + SystemsIn(rows)
    && Maps(remap, SystemKeys(m), Numbers(rows))
    && Touched(SystemKeys(m0), SystemKeys(m), SystemsIn(rows).Keys, keep, created)
  }

  lemma SystemsNone(m: map<Pk, System>)
    ensures SystemsMerged(m, m, [], map[], {}, 0)
  {
  }

  lemma SystemsInjective(m: map<Pk, System>)
    requires UniqueSystems(m)
    ensures Injective(SystemKeys(m))
  {
  }

  lemma SystemStep(m0: map<Pk, System>, m: map<Pk, System>, rows: seq<Row<System>>, i: nat, remap: map<Pk, Pk>,
    keep: set<Pk>, created: nat, pk: Pk)
    requires i < |rows| && SystemsMerged(m0, m, rows[..i], remap, keep, created)
    requires UniqueSystems(m)
    requires pk in m ==> m[pk].number == rows[i].value.number
    requires pk !in m ==> rows[i].value.number !in SystemKeys(m).Values
    ensures SystemsMerged(m0, m[pk := rows[i].value], rows[..i + 1], remap[rows[i].id := pk], keep + {pk},
                          if pk in m then created else created + 1)
  {
    hide Touched, Maps, Injective, Keyed, SystemKeys, SystemVals, UniqueSystems;
    SystemsInjective(m);
    var done, s := rows[..i + 1], rows[i].value;
    assert done[..i] == rows[..i] && done[i] == rows[i];
    assert SystemsIn(done) == SystemsIn(rows[..i])[s.number := s.fields];
    assert Numbers(done) == Numbers(rows[..i])[rows[i].id := s.number];
    hide SystemsIn, Numbers;
    SystemMapsWritten(m, pk, s);
    KeyedWritten(SystemKeys(m), SystemVals(m), pk, s.number, s.fields);
    TouchStep(SystemKeys(m0), SystemKeys(m), SystemsIn(rows[..i]).Keys, keep, created, pk, s.number);
    MapsStep(remap, SystemKeys(m), Numbers(rows[..i]), rows[i].id, pk, s.number);
    MergeThenWrite(SystemsView(m0), SystemsIn(rows[..i]), s.number, s.fields);
  }

  method RestoreSystems(db: Database, rows: seq<Row<System>>) returns (remap: map<Pk, Pk>, keep: set<Pk>, created: nat)
    requires db.Valid()
    modifies db
    ensures db.Valid()
    ensures db.Contents() == old(db.Contents()).(systems := db.systems)
    ensures SystemsMerged(old(db.systems), db.systems, rows, remap, keep, created)
  {
    hide Sound, SystemsMerged, UniqueSystems, SystemKeys;
    SystemsNone(db.systems);
    remap, keep, created := map[], {}, 0;
    for i := 0 to |rows|
      invariant db.Valid()
      invariant db.Contents() == old(db.Contents()).(systems := db.systems)
      invariant SystemsMerged(old(db.systems), db.systems, rows[..i], remap, keep, created)
    {
      var s := rows[i];
      ghost var m := db.systems;
      SoundKeys(db.Contents());
      var id := db.CreateSystem(s.value);
      ghost var before := created;
      if id.None? {
        id := db.GetSystemBySystemID(s.value.number);
        db.UpdateSystem(id.value, s.value);
      } else {
        created := created + 1;
      }
      SystemStep(old(db.systems), m, rows, i, remap, keep, before, id.value);
      remap, keep := remap[s.id := id.value], keep + {id.value};
    }
    assert rows[..|rows|] == rows;
  }

  // ---- Talkgroups ----

  function Remapped(ref: Option<Pk>, remap: map<Pk, Pk>): Option<Pk> {
    if ref.Some? && ref.value in remap then Some(remap[ref.value]) else None
  }

  /** The remaps take the file's systems, groups and tags to live rows saying the same. */
  ghost predicate Remaps(t: Tables, numbers: map<Pk, int>, groups: map<Pk, string>, tags: map<Pk, string>,
    systemRemap: map<Pk, Pk>, groupRemap: map<Pk, Pk>, tagRemap: map<Pk, Pk>)
  {
    && Maps(systemRemap, SystemKeys(t.systems), numbers)
    && Maps(groupRemap, t.groups, groups)
    && Maps(tagRemap, t.tags, tags)
  }

  ghost predicate TalkgroupsMerged(t0: Tables, t: Tables, listed: map<RadioKey, TalkgroupMeaning>,
    names: map<Pk, RadioKey>, remap: map<Pk, Pk>, keep: set<Pk>, created: nat)
    requires ForeignKeys(t0) && ForeignKeys(t)
  {
    && TalkgroupsView(t) == TalkgroupsView(t0) + listed
    && Maps(remap, TalkgroupKeys(t), names) && remap.Values <= keep
    && Touched(TalkgroupKeys(t0), TalkgroupKeys(t), listed.Keys, keep, created)
  }

  lemma TalkgroupsNone(t: Tables)
    requires ForeignKeys(t)
    ensures TalkgroupsMerged(t, t, map[], map[], map[], {}, 0)
  {
  }

  lemma TalkgroupStep(t0: Tables, t: Tables, listed: map<RadioKey, TalkgroupMeaning>, names: map<Pk, RadioKey>,
    remap: map<Pk, Pk>, keep: set<Pk>, created: nat, id: Pk, pk: Pk, tg: Talkgroup)
    requires ForeignKeys(t0) && Sound(t) && TalkgroupRefs(t, tg)
    requires TalkgroupsMerged(t0, t, listed, names, remap, keep, created)
    requires pk in t.talkgroups ==> t.talkgroups[pk].system == tg.system && t.talkgroups[pk].number == tg.number
    requires pk !in t.talkgroups ==> (tg.system, tg.number) !in TalkgroupPairs(t.talkgroups).Values
    ensures var t', key := t.(talkgroups := t.talkgroups[pk := tg]), TalkgroupKey(t.systems, tg);
            && ForeignKeys(t')
            && TalkgroupsMerged(t0, t', listed[key := Meaning(t, tg)], names[id := key], remap[id := pk], keep + {pk},
                                if pk in t.talkgroups then created else created + 1)
  {
    hide Touched, Maps, Injective, Keyed, Sound, ForeignKeys, TalkgroupVals, TalkgroupPairs, TalkgroupKeys;
    var key := TalkgroupKey(t.systems, tg);
    SoundKeys(t);
    KeysInjective(t);
    TalkgroupKeyTaken(t, tg);
    TalkgroupMapsWritten(t, pk, tg);
    KeyedWritten(TalkgroupKeys(t), TalkgroupVals(t), pk, key, Meaning(t, tg));
    TouchStep(TalkgroupKeys(t0), TalkgroupKeys(t), listed.Keys, keep, created, pk, key);
    MapsStep(remap, TalkgroupKeys(t), names, id, pk, key);
    MergeThenWrite(TalkgroupsView(t0), listed, key, Meaning(t, tg));
  }

  function FileRow(tg: Talkgroup, systemRemap: map<Pk, Pk>, groupRemap: map<Pk, Pk>, tagRemap: map<Pk, Pk>): Talkgroup
    requires tg.system in systemRemap
  {
    Talkgroup(systemRemap[tg.system], tg.number, tg.fields, Remapped(tg.group, groupRemap), Remapped(tg.tag, tagRemap))
  }

  /** Carrying the foreign keys through the remaps keeps what the row means. */
  lemma FileRowMeaning(t: Tables, numbers: map<Pk, int>, groups: map<Pk, string>, tags: map<Pk, string>,
    systemRemap: map<Pk, Pk>, groupRemap: map<Pk, Pk>, tagRemap: map<Pk, Pk>, tg: Talkgroup)
    requires Remaps(t, numbers, groups, tags, systemRemap, groupRemap, tagRemap)
    ensures tg.system in systemRemap <==> tg.system in numbers
    ensures tg.system in systemRemap ==>
              var row := FileRow(tg, systemRemap, groupRemap, tagRemap);
              && TalkgroupRefs(t, row)
              && TalkgroupKey(t.systems, row) == (numbers[tg.system], tg.number)
              && Meaning(t, row) == TalkgroupMeaning(tg.fields, LabelOf(tg.group, groups), LabelOf(tg.tag, tags))
  {
    if tg.system in systemRemap {
      assert SystemKeys(t.systems)[systemRemap[tg.system]] == numbers[tg.system];
    }
  }

  lemma RemapsElsewhere(t: Tables, t': Tables, numbers: map<Pk, int>, groups: map<Pk, string>, tags: map<Pk, string>,
    systemRemap: map<Pk, Pk>, groupRemap: map<Pk, Pk>, tagRemap: map<Pk, Pk>)
    requires Remaps(t, numbers, groups, tags, systemRemap, groupRemap, tagRemap)
    requires t'.systems == t.systems && t'.groups == t.groups && t'.tags == t.tags
    ensures Remaps(t', numbers, groups, tags, systemRemap, groupRemap, tagRemap)
  {
  }

  method RestoreTalkgroups(db: Database, rows: seq<Row<Talkgroup>>, systemRemap: map<Pk, Pk>, groupRemap: map<Pk, Pk>,
    tagRemap: map<Pk, Pk>, ghost numbers: map<Pk, int>, ghost groups: map<Pk, string>, ghost tags: map<Pk, string>)
    returns (remap: map<Pk, Pk>, keep: set<Pk>, created: nat)
    requires db.Valid() && Remaps(db.Contents(), numbers, groups, tags, systemRemap, groupRemap, tagRemap)
    modifies db
    ensures db.Valid()
    ensures db.Contents() == old(db.Contents()).(talkgroups := db.talkgroups)
    ensures TalkgroupsMerged(old(db.Contents()), db.Contents(), TalkgroupsIn(rows, numbers, groups, tags),
            TalkgroupNames(rows, numbers), remap, keep, created)
  {
    hide Sound, ForeignKeys, TalkgroupsMerged, Remaps, TalkgroupPairs, TalkgroupRefs, Meaning, TalkgroupKey;
    SoundKeys(db.Contents());
    TalkgroupsNone(db.Contents());
    remap, keep, created := map[], {}, 0;
    for i := 0 to |rows|
      invariant db.Valid() && ForeignKeys(db.Contents())
      invariant db.Contents() == old(db.Contents()).(talkgroups := db.talkgroups)
      invariant TalkgroupsMerged(old(db.Contents()), db.Contents(), TalkgroupsIn(rows[..i], numbers, groups, tags),
                TalkgroupNames(rows[..i], numbers), remap, keep, created)
    {
      var tg := rows[i].value;
      ghost var t := db.Contents();
      ghost var listed := TalkgroupsIn(rows[..i], numbers, groups, tags);
      assert rows[..i + 1][..i] == rows[..i];
      RemapsElsewhere(old(db.Contents()), t, numbers, groups, tags, systemRemap, groupRemap, tagRemap);
      FileRowMeaning(t, numbers, groups, tags, systemRemap, groupRemap, tagRemap, tg);
      if tg.system in systemRemap {
        var row := FileRow(tg, systemRemap, groupRemap, tagRemap);
        var found := db.GetTalkgroupBySystemAndTGID(row.system, row.number);
        var ok, pk := db.UpsertTalkgroup(row);
        TalkgroupPairAt(db.talkgroups, pk);
        var written := db.GetTalkgroupBySystemAndTGID(row.system, row.number);
        SameTalkgroup(db.Contents(), written.value, pk);
        TalkgroupStep(old(db.Contents()), t, listed, TalkgroupNames(rows[..i], numbers), remap, keep, created,
          rows[i].id, pk, row);
        if found.None? {
          created := created + 1;
        }
        remap, keep := remap[rows[i].id := written.value], keep + {written.value};
      }
    }
    assert rows[..|rows|] == rows;
  }

  // ---- Units ----

  ghost predicate UnitsMerged(t0: Tables, t: Tables, listed: map<RadioKey, UnitFields>, keep: set<Pk>, created: nat)
    requires ForeignKeys(t0) && ForeignKeys(t)
  {
    && UnitsView(t) == UnitsView(t0) + listed
    && Touched(UnitKeys(t0), UnitKeys(t), listed.Keys, keep, created)
  }

  lemma UnitsNone(t: Tables)
    requires ForeignKeys(t)
    ensures UnitsMerged(t, t, map[], {}, 0)
  {
  }

  lemma UnitStep(t0: Tables, t: Tables, listed: map<RadioKey, UnitFields>, keep: set<Pk>, created: nat, pk: Pk, u: Unit)
    requires ForeignKeys(t0) && Sound(t) && u.system in t.systems
    requires UnitsMerged(t0, t, listed, keep, created)
    requires pk in t.units ==> t.units[pk].system == u.system && t.units[pk].number == u.number
    requires pk !in t.units ==> (u.system, u.number) !in UnitPairs(t.units).Values
    ensures var t' := t.(units := t.units[pk := u]);
            && ForeignKeys(t')
            && UnitsMerged(t0, t', listed[UnitKey(t.systems, u) := u.fields], keep + {pk},
                           if pk in t.units then created else created + 1)
  {
    hide Touched, Injective, Keyed, Sound, ForeignKeys, UnitVals, UnitPairs, UnitKeys;
    var key := UnitKey(t.systems, u);
    SoundKeys(t);
    KeysInjective(t);
    UnitKeyTaken(t, u);
    UnitMapsWritten(t, pk, u);
    KeyedWritten(UnitKeys(t), UnitVals(t), pk, key, u.fields);
    TouchStep(UnitKeys(t0), UnitKeys(t), listed.Keys, keep, created, pk, key);
    MergeThenWrite(UnitsView(t0), listed, key, u.fields);
  }

  lemma FileUnitSystem(t: Tables, numbers: map<Pk, int>, systemRemap: map<Pk, Pk>, u: Unit)
    requires Maps(systemRemap, SystemKeys(t.systems), numbers)
    ensures u.system in systemRemap <==> u.system in numbers
    ensures u.system in systemRemap ==>
              systemRemap[u.system] in t.systems && t.systems[systemRemap[u.system]].number == numbers[u.system]
  {
    if u.system in systemRemap {
      assert SystemKeys(t.systems)[systemRemap[u.system]] == numbers[u.system];
    }
  }

  method RestoreUnits(db: Database, rows: seq<Row<Unit>>, systemRemap: map<Pk, Pk>, ghost numbers: map<Pk, int>)
    returns (keep: set<Pk>, created: nat)
    requires db.Valid() && Maps(systemRemap, SystemKeys(db.systems), numbers)
    modifies db
    ensures db.Valid()
    ensures db.Contents() == old(db.Contents()).(units := db.units)
    ensures UnitsMerged(old(db.Contents()), db.Contents(), UnitsIn(rows, numbers), keep, created)
  {
    hide Sound, ForeignKeys, UnitsMerged, Maps, UnitPairs;
    SoundKeys(db.Contents());
    UnitsNone(db.Contents());
    keep, created := {}, 0;
    for i := 0 to |rows|
      invariant db.Valid() && ForeignKeys(db.Contents())
      invariant db.Contents() == old(db.Contents()).(units := db.units)
      invariant UnitsMerged(old(db.Contents()), db.Contents(), UnitsIn(rows[..i], numbers), keep, created)
    {
      var u := rows[i].value;
      ghost var t := db.Contents();
      FileUnitSystem(t, numbers, systemRemap, u);
      assert rows[..i + 1][..i] == rows[..i];
      if u.system in systemRemap {
        var row := Unit(systemRemap[u.system], u.number, u.fields);
        var existing := db.GetUnitBySystemAndUnitID(row.system, row.number);
        if existing.None? {
          var id := db.CreateUnit(row);
          UnitStep(old(db.Contents()), t, UnitsIn(rows[..i], numbers), keep, created, id.value, row);
          keep, created := keep + {id.value}, created + 1;
        } else {
          db.UpdateUnit(existing.value, row.fields);
          UnitStep(old(db.Contents()), t, UnitsIn(rows[..i], numbers), keep, created, existing.value, row);
          keep := keep + {existing.value};
        }
      }
    }
    assert rows[..|rows|] == rows;
  }
}
