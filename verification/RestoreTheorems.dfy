// What a restore guarantees, as laws of the view it leaves.
module RestoreTheorems {
  import opened Common
  import opened NaturalKeys
  import opened RadioTables
  import opened RadioDatabase
  import opened BackupFile
  import opened RestoreReplace
  import opened Restore

  /** The file carries groups, tags, systems, talkgroups and units. */
  predicate CarriesRadio(f: File) {
    f.groups.Some? && f.tags.Some? && f.systems.Some? && f.talkgroups.Some? && f.units.Some?
  }

  lemma {:induction false} NamesAreLabels(rows: seq<Row<string>>)
    ensures Names(rows).Values <= Labels(rows)
  {
    if rows != [] {
      NamesAreLabels(rows[..|rows| - 1]);
    }
  }

  /** The file's talkgroups only use labels of the file's groups and tags. */
  lemma {:induction false} FileLabels(rows: seq<Row<Talkgroup>>, numbers: map<Pk, int>, groups: map<Pk, string>,
    tags: map<Pk, string>, k: RadioKey)
    requires k in TalkgroupsIn(rows, numbers, groups, tags)
    ensures var m := TalkgroupsIn(rows, numbers, groups, tags)[k];
            && (m.group.Some? ==> m.group.value in groups.Values)
            && (m.tag.Some? ==> m.tag.value in tags.Values)
  {
    var tg := rows[|rows| - 1].value;
    if !(tg.system in numbers && k == (numbers[tg.system], tg.number)) {
      FileLabels(rows[..|rows| - 1], numbers, groups, tags, k);
    }
  }

  lemma FileTalkgroupRelabelled(f: File, k: RadioKey)
    requires k in FileTalkgroups(f)
    ensures Relabelled(f, FileTalkgroups(f)[k]) == FileTalkgroups(f)[k]
  {
    NamesAreLabels(Rows(f.groups));
    NamesAreLabels(Rows(f.tags));
    FileLabels(Rows(f.talkgroups), Numbers(Rows(f.systems)), Names(Rows(f.groups)), Names(Rows(f.tags)), k);
  }

  /** A Replace of a file that carries every radio table leaves exactly what the file says, whatever was there. */
  lemma {:induction false} ReplaceRebuilds(v: View, f: File)
    requires f.mode.Replace? && CarriesRadio(f)
    ensures Restored(v, f) == FileView(f)
  {
    hide FileTalkgroups, FileUnits, SystemsIn, Labels, Relabelled;
    var w, r := FileView(f), Restored(v, f);
    forall k | k in w.talkgroups
      ensures k.0 in SystemsIn(f.systems.value) && Relabelled(f, w.talkgroups[k]) == w.talkgroups[k]
    {
      FileKeysListed(f, k);
      FileTalkgroupRelabelled(f, k);
    }
    forall k | k in w.units
      ensures k.0 in SystemsIn(f.systems.value)
    {
      FileKeysListed(f, k);
    }
    assert r.groups == w.groups && r.tags == w.tags;
    assert r.systems == w.systems;
    assert r.talkgroups == w.talkgroups;
    assert r.units == w.units;
  }

  /** A row that stays keeps its natural key, and holds what the file says for that key, or what it held. */
  ghost predicate RowsMerged<K(!new), V(!new)>(keys0: map<Pk, K>, vals0: map<Pk, V>, keys: map<Pk, K>,
    vals: map<Pk, V>, listed: map<K, V>)
    requires keys0.Keys == vals0.Keys && keys.Keys == vals.Keys
  {
    forall pk :: pk in keys0 ==>
      pk in keys && keys[pk] == keys0[pk] && vals[pk] == if keys0[pk] in listed then listed[keys0[pk]] else vals0[pk]
  }

  lemma MergedRows<K(!new), V(!new)>(keys0: map<Pk, K>, vals0: map<Pk, V>, keys: map<Pk, K>, vals: map<Pk, V>,
    listed: map<K, V>)
    requires keys0.Keys == vals0.Keys && keys.Keys == vals.Keys && Injective(keys0) && Injective(keys)
             && SameOn(keys0, keys)
    requires keys0.Keys <= keys.Keys && Keyed(keys, vals) == Keyed(keys0, vals0) + listed
    ensures RowsMerged(keys0, vals0, keys, vals, listed)
  {
    hide Injective, Keyed;
    forall pk | pk in keys0
      ensures pk in keys && keys[pk] == keys0[pk] && vals[pk] == if keys0[pk] in listed then listed[keys0[pk]]
              else vals0[pk]
    {
      KeyedAt(keys0, vals0, pk);
      KeyedAt(keys, vals, pk);
    }
  }

  /** Row by row, over the tables a Merge leaves: every primary key stays and keeps its natural key, with the file's
      fields if the file lists it and its own if not. */
  lemma {:induction false} MergeKeeps(t0: Tables, t: Tables, f: File)
    requires Sound(t0) && Sound(t) && ForeignKeys(t0) && ForeignKeys(t)
    requires f.mode.Merge? && Survivors(t0, t, f) && ViewOf(t) == Restored(ViewOf(t0), f)
    ensures (forall pk :: pk in t0.groups ==> pk in t.groups && t.groups[pk] == t0.groups[pk])
    ensures (forall pk :: pk in t0.tags ==> pk in t.tags && t.tags[pk] == t0.tags[pk])
    ensures RowsMerged(SystemKeys(t0.systems), SystemVals(t0.systems), SystemKeys(t.systems), SystemVals(t.systems),
            SystemsIn(Rows(f.systems)))
    ensures RowsMerged(TalkgroupKeys(t0), TalkgroupVals(t0), TalkgroupKeys(t), TalkgroupVals(t), FileTalkgroups(f))
    ensures RowsMerged(UnitKeys(t0), UnitVals(t0), UnitKeys(t), UnitVals(t), FileUnits(f))
  {
    hide Sound, ForeignKeys, FileTalkgroups, FileUnits, SystemsIn, Labels, Injective, Keyed, TalkgroupKeys,
      TalkgroupVals, UnitKeys, UnitVals, SystemKeys, SystemVals, Stays, RowsMerged;
    KeysInjective(t0);
    KeysInjective(t);
    MergedRows(SystemKeys(t0.systems), SystemVals(t0.systems), SystemKeys(t.systems), SystemVals(t.systems),
      SystemsIn(Rows(f.systems)));
    MergedRows(TalkgroupKeys(t0), TalkgroupVals(t0), TalkgroupKeys(t), TalkgroupVals(t), FileTalkgroups(f));
    MergedRows(UnitKeys(t0), UnitVals(t0), UnitKeys(t), UnitVals(t), FileUnits(f));
  }

  /** Restoring the same file twice is restoring it once. */
  lemma {:induction false} RestoreIdempotent(v: View, f: File)
    ensures Restored(Restored(v, f), f) == Restored(v, f)
  {
    hide FileTalkgroups, FileUnits, SystemsIn, Labels;
    var r := Restored(v, f);
    RestoreKeepsFile(v, f);
    MergedAgain(r, f);
    if f.mode.Replace? {
      PrunedAgain(Merged(v, f), f);
    }
  }

  /** After a restore the view already says everything the file does. */
  lemma {:induction false} RestoreKeepsFile(v: View, f: File)
    ensures var r, w := Restored(v, f), FileView(f);
            && w.groups <= r.groups && w.tags <= r.tags
            && Within(w.systems, r.systems)
            && Within(w.talkgroups, r.talkgroups)
            && Within(w.units, r.units)
  {
    hide FileTalkgroups, FileUnits, SystemsIn, Labels, Relabelled;
    var w := FileView(f);
    forall k | k in w.talkgroups
      ensures k.0 in SystemsIn(Rows(f.systems)) && Relabelled(f, w.talkgroups[k]) == w.talkgroups[k]
    {
      FileKeysListed(f, k);
      FileTalkgroupRelabelled(f, k);
    }
    forall k | k in w.units
      ensures k.0 in SystemsIn(Rows(f.systems))
    {
      FileKeysListed(f, k);
    }
  }

  lemma MergedAgain(r: View, f: File)
    requires var w := FileView(f);
             && w.groups <= r.groups && w.tags <= r.tags
             && Within(w.systems, r.systems)
             && Within(w.talkgroups, r.talkgroups)
             && Within(w.units, r.units)
    ensures Merged(r, f) == r
  {
    hide FileTalkgroups, FileUnits, SystemsIn, Labels;
    var w := FileView(f);
    assert r.groups + w.groups == r.groups && r.tags + w.tags == r.tags;
    MergeSubmap(r.systems, w.systems);
    MergeSubmap(r.talkgroups, w.talkgroups);
    MergeSubmap(r.units, w.units);
  }

  lemma RelabelledAgain(f: File, m: TalkgroupMeaning)
    ensures Relabelled(f, Relabelled(f, m)) == Relabelled(f, m)
  {
  }

  lemma PrunedAgain(v: View, f: File)
    ensures Pruned(Pruned(v, f), f) == Pruned(v, f)
  {
    hide FileTalkgroups, FileUnits, SystemsIn, Labels, Relabelled;
    var p, q := Pruned(v, f), Pruned(Pruned(v, f), f);
    forall k | k in p.talkgroups
      ensures Relabelled(f, p.talkgroups[k]) == p.talkgroups[k]
    {
      RelabelledAgain(f, v.talkgroups[k]);
    }
    assert q.groups == p.groups && q.tags == p.tags;
    assert q.systems == p.systems;
    assert q.talkgroups == p.talkgroups;
    assert q.units == p.units;
  }
}
