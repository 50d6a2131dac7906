// Restores that follow one another: backup and restore into another
// database, and the same file restored twice.
module RestoreRuns {
  import opened Common
  import opened NaturalKeys
  import opened RadioTables
  import opened RadioDatabase
  import opened BackupFile
  import opened Preview
  import opened PreviewMeaning
  import opened RestoreConfig
  import opened RestoreReplace
  import opened Restore
  import opened RestoreTheorems

  // ---- Backup: every table, listed in some order, with the database's own primary keys ----

  method ExportConfig(db: Database, mode: Mode) returns (f: File)
    requires db.Valid()
    ensures ForeignKeys(db.Contents()) && f.mode == mode && CarriesRadio(f)
    ensures Exported(f, db.Contents())
  {
    SoundKeys(db.Contents());
    var groups := ListRows(db.groups);
    var tags := ListRows(db.tags);
    var systems := ListRows(db.systems);
    var talkgroups := ListRows(db.talkgroups);
    var units := ListRows(db.units);
    var monitors := db.ListDirMonitors();
    f := File(mode, Some(groups), Some(tags), Some(systems), Some(talkgroups), Some(units), Some(monitors));
  }

  ghost predicate Exported(f: File, t: Tables) {
    && CarriesRadio(f) && f.monitors.Some?
    && Lists(f.groups.value, t.groups) && Lists(f.tags.value, t.tags) && Lists(f.systems.value, t.systems)
    && Lists(f.talkgroups.value, t.talkgroups) && Lists(f.units.value, t.units) && Lists(f.monitors.value, t.monitors)
  }

  lemma {:induction false} ListedLabels(rows: seq<Row<string>>, n: nat, m: map<Pk, string>)
    requires Lists(rows, m) && n <= |rows|
    ensures Labels(rows[..n]) == Prefix(rows, n).Values
  {
    if n > 0 {
      ListedLabels(rows, n - 1, m);
      PrefixIds(rows, n - 1, m);
      assert rows[..n][..n - 1] == rows[..n - 1];
      ValuesStep(Prefix(rows, n - 1), rows[n - 1].id, rows[n - 1].value);
    }
  }

  lemma ValuesStep(m: map<Pk, string>, pk: Pk, v: string)
    requires pk !in m
    ensures m[pk := v].Values == m.Values + {v}
  {
    var m' := m[pk := v];
    forall l | l in m.Values + {v}
      ensures l in m'.Values
    {
      if l == v {
        assert m'[pk] == l;
      } else {
        var a :| a in m && m[a] == l;
        assert m'[a] == l;
      }
    }
  }

  /** The rows of a listing written one after the other under their natural keys. */
  ghost function Written<T(!new), K(!new), V(!new)>(rows: seq<Row<T>>, n: nat, keys: map<Pk, K>,
    vals: map<Pk, V>): map<K, V>
    requires n <= |rows| && keys.Keys == vals.Keys && forall i :: 0 <= i < |rows| ==> rows[i].id in keys
  {
    if n == 0 then map[] else Written(rows, n - 1, keys, vals)[keys[rows[n - 1].id] := vals[rows[n - 1].id]]
  }

  lemma {:induction false} WrittenUpTo<T(!new), K(!new), V(!new)>(rows: seq<Row<T>>, n: nat, m: map<Pk, T>,
    keys: map<Pk, K>, vals: map<Pk, V>)
    requires n <= |rows| && Lists(rows, m) && keys.Keys == vals.Keys == m.Keys && Injective(keys)
    ensures forall i :: 0 <= i < n ==>
              keys[rows[i].id] in Written(rows, n, keys, vals)
                && Written(rows, n, keys, vals)[keys[rows[i].id]] == vals[rows[i].id]
    ensures forall k :: k in Written(rows, n, keys, vals) ==> k in keys.Values
  {
    if n > 0 {
      WrittenUpTo(rows, n - 1, m, keys, vals);
      assert keys[rows[n - 1].id] in keys.Values;
    }
  }

  lemma WrittenAll<T(!new), K(!new), V(!new)>(rows: seq<Row<T>>, m: map<Pk, T>, keys: map<Pk, K>, vals: map<Pk, V>)
    requires Lists(rows, m) && keys.Keys == vals.Keys == m.Keys && Injective(keys)
    ensures Written(rows, |rows|, keys, vals) == Keyed(keys, vals)
  {
    WrittenUpTo(rows, |rows|, m, keys, vals);
    forall pk | pk in keys
      ensures keys[pk] in Written(rows, |rows|, keys, vals) && Written(rows, |rows|, keys, vals)[keys[pk]] == vals[pk]
    {
      assert Row(pk, m[pk]) in rows;
      var i :| 0 <= i < |rows| && rows[i] == Row(pk, m[pk]);
    }
    KeyedEqual(keys, vals, Written(rows, |rows|, keys, vals));
  }

  lemma {:induction false} ListedSystems(rows: seq<Row<System>>, n: nat, m: map<Pk, System>)
    requires Lists(rows, m) && n <= |rows|
    ensures SystemsIn(rows[..n]) == Written(rows, n, SystemKeys(m), SystemVals(m))
  {
    if n > 0 {
      ListedSystems(rows, n - 1, m);
      assert rows[..n][..n - 1] == rows[..n - 1];
    }
  }

  lemma {:induction false} ListedTalkgroups(rows: seq<Row<Talkgroup>>, n: nat, t: Tables)
    requires ForeignKeys(t) && Lists(rows, t.talkgroups) && n <= |rows|
    ensures TalkgroupsIn(rows[..n], SystemKeys(t.systems), t.groups, t.tags)
            == Written(rows, n, TalkgroupKeys(t), TalkgroupVals(t))
  {
    if n > 0 {
      ListedTalkgroups(rows, n - 1, t);
      assert rows[..n][..n - 1] == rows[..n - 1];
      assert TalkgroupRefs(t, t.talkgroups[rows[n - 1].id]);
      hide ForeignKeys;
    }
  }

  lemma {:induction false} ListedUnits(rows: seq<Row<Unit>>, n: nat, t: Tables)
    requires ForeignKeys(t) && Lists(rows, t.units) && n <= |rows|
    ensures UnitsIn(rows[..n], SystemKeys(t.systems)) == Written(rows, n, UnitKeys(t), UnitVals(t))
  {
    if n > 0 {
      ListedUnits(rows, n - 1, t);
      assert rows[..n][..n - 1] == rows[..n - 1];
    }
  }

  lemma SystemsExported(rows: seq<Row<System>>, m: map<Pk, System>)
    requires Lists(rows, m) && UniqueSystems(m)
    ensures SystemsIn(rows) == SystemsView(m)
  {
    ListedSystems(rows, |rows|, m);
    WrittenAll(rows, m, SystemKeys(m), SystemVals(m));
    assert rows[..|rows|] == rows;
  }

  lemma TalkgroupsExported(rows: seq<Row<Talkgroup>>, t: Tables)
    requires Sound(t) && ForeignKeys(t) && Lists(rows, t.talkgroups)
    ensures TalkgroupsIn(rows, SystemKeys(t.systems), t.groups, t.tags) == TalkgroupsView(t)
  {
    hide Sound;
    KeysInjective(t);
    ListedTalkgroups(rows, |rows|, t);
    WrittenAll(rows, t.talkgroups, TalkgroupKeys(t), TalkgroupVals(t));
    assert rows[..|rows|] == rows;
  }

  lemma UnitsExported(rows: seq<Row<Unit>>, t: Tables)
    requires Sound(t) && ForeignKeys(t) && Lists(rows, t.units)
    ensures UnitsIn(rows, SystemKeys(t.systems)) == UnitsView(t)
  {
    hide Sound;
    KeysInjective(t);
    ListedUnits(rows, |rows|, t);
    WrittenAll(rows, t.units, UnitKeys(t), UnitVals(t));
    assert rows[..|rows|] == rows;
  }

  lemma LabelsExported(rows: seq<Row<string>>, m: map<Pk, string>)
    requires Lists(rows, m)
    ensures Labels(rows) == m.Values
  {
    ListedLabels(rows, |rows|, m);
    PrefixAll(rows, m);
    assert rows[..|rows|] == rows;
  }

  /** A backup means what the database means, in whatever order its tables were listed. */
  lemma {:induction false} ExportMeans(f: File, t: Tables)
    requires Sound(t) && ForeignKeys(t) && Exported(f, t)
    ensures FileView(f) == ViewOf(t)
  {
    hide Sound, ForeignKeys, Lists, SystemsView, TalkgroupsView, UnitsView, TalkgroupsIn, UnitsIn, SystemsIn, Labels,
      Names, Numbers;
    SoundKeys(t);
    LiveMaps(f.systems.value, f.groups.value, f.tags.value, t);
    LabelsExported(f.groups.value, t.groups);
    LabelsExported(f.tags.value, t.tags);
    SystemsExported(f.systems.value, t.systems);
    TalkgroupsExported(f.talkgroups.value, t);
    UnitsExported(f.units.value, t);
  }

  /** Backing up one database and restoring with Replace into any other one carries its view over, unless a monitor
      stops it. */
  method BackupInto(source: Database, target: Database) returns (f: File, ok: bool)
    requires source.Valid() && target.Valid() && source != target
    modifies target
    ensures source.Valid() && target.Valid()
    ensures ForeignKeys(source.Contents()) && ForeignKeys(target.Contents())
    ensures Exported(f, source.Contents()) && f.mode.Replace?
    ensures ok <==> !Blocked(old(target.Contents()), f)
    ensures ok ==> ViewOf(target.Contents()) == ViewOf(source.Contents())
    ensures !ok ==> target.Contents() == old(target.Contents())
  {
    hide Sound, ForeignKeys, ViewOf, FileView, Restored, Exported, Blocked, Survivors, NewRows;
    f := ExportConfig(source, Replace);
    var created, removed;
    ghost var w;
    ok, created, removed, w := RestoreTables(target, f);
    if ok {
      ExportMeans(f, source.Contents());
      ReplaceRebuilds(ViewOf(old(target.Contents())), f);
    }
  }
}
