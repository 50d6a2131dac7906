// What the stages of a Replace leave, read without primary keys.
module RestoreFinalView {
  import opened Common
  import opened NaturalKeys
  import opened RadioTables
  import opened BackupFile
  import opened RestoreViews

  lemma LabelsLeft(m: map<Pk, string>, keep: set<Pk>, listed: set<string>)
    requires KeepsExactly(m, keep, listed)
    ensures (m - (m.Keys - keep)).Values == m.Values * listed
  {
    var m' := m - (m.Keys - keep);
    forall l | l in m.Values * listed
      ensures l in m'.Values
    {
      var pk :| pk in m && m[pk] == l;
      assert m'[pk] == l;
    }
  }

  lemma SystemsLeft(m: map<Pk, System>, keep: set<Pk>, listed: set<int>)
    requires UniqueSystems(m) && KeepsExactly(SystemKeys(m), keep, listed)
    ensures SystemsView(m - (m.Keys - keep)) == map n | n in SystemsView(m) && n in listed :: SystemsView(m)[n]
  {
    var m' := m - (m.Keys - keep);
    var keys, vals := SystemKeys(m), SystemVals(m);
    var want := map n | n in SystemsView(m) && n in listed :: SystemsView(m)[n];
    forall pk | pk in keys
      ensures keys[pk] in SystemsView(m) && SystemsView(m)[keys[pk]] == vals[pk]
    {
      KeyedAt(keys, vals, pk);
    }
    KeyedRestricted(keys, vals, SystemKeys(m'), SystemVals(m'), want);
  }

  ghost predicate Replaced(t: Tables, t': Tables, f: File, k: Keeps) {
    && Sound(t) && Sound(t') && KeepsMean(t, f, k)
    && t'.groups == (if f.groups.Some? then t.groups - (t.groups.Keys - k.groups) else t.groups)
    && t'.tags == (if f.tags.Some? then t.tags - (t.tags.Keys - k.tags) else t.tags)
    && t'.systems == (if f.systems.Some? then t.systems - (t.systems.Keys - k.systems) else t.systems)
    && TalkgroupsLeft(t, t', k, f.talkgroups.Some? && f.systems.Some?, f.groups.Some?, f.tags.Some?, f.systems.Some?)
    && UnitsLeft(t, t', k, f.units.Some? && f.systems.Some?, f.systems.Some?)
  }

  /** What keep means for one talkgroup and the rows it points at. */
  lemma KeepsAt(t: Tables, f: File, k: Keeps, pk: Pk)
    requires Sound(t) && ForeignKeys(t) && KeepsMean(t, f, k) && pk in t.talkgroups
    ensures var tg := t.talkgroups[pk];
            && TalkgroupRefs(t, tg)
            && TalkgroupKeys(t)[pk] == (t.systems[tg.system].number, tg.number)
            && (tg.system in k.systems <==> TalkgroupKeys(t)[pk].0 in SystemsIn(Rows(f.systems)))
            && (pk in k.talkgroups <==> TalkgroupKeys(t)[pk] in FileTalkgroups(f))
            && (tg.group.Some? ==> (tg.group.value in k.groups <==> t.groups[tg.group.value] in Labels(Rows(f.groups))))
            && (tg.tag.Some? ==> (tg.tag.value in k.tags <==> t.tags[tg.tag.value] in Labels(Rows(f.tags))))
  {
    var tg := t.talkgroups[pk];
    assert TalkgroupRefs(t, tg);
    assert SystemKeys(t.systems)[tg.system] == TalkgroupKeys(t)[pk].0;
  }

  /** One talkgroup: it stays exactly when the pruned view has its key, and says what the view says. */
  lemma TalkgroupPointwise(t: Tables, t': Tables, f: File, k: Keeps, pk: Pk)
    requires Replaced(t, t', f, k) && pk in t.talkgroups
    ensures ForeignKeys(t) && ForeignKeys(t')
    ensures pk in t'.talkgroups <==> Stays(f, f.talkgroups.Some?, FileTalkgroups(f).Keys, TalkgroupKeys(t)[pk])
    ensures pk in t'.talkgroups ==>
              && TalkgroupKeys(t')[pk] == TalkgroupKeys(t)[pk]
              && Meaning(t', t'.talkgroups[pk]) == Relabelled(f, Meaning(t, t.talkgroups[pk]))
  {
    hide SystemsIn, FileTalkgroups, FileUnits, Labels, Sound, KeepsMean, UnitsLeft;
    SoundKeys(t);
    SoundKeys(t');
    var tg := t.talkgroups[pk];
    KeepsAt(t, f, k, pk);
    var absent, cascade := f.talkgroups.Some? && f.systems.Some?, f.systems.Some?;
    assert TalkgroupLeft(t, t', k, absent, f.groups.Some?, f.tags.Some?, cascade, pk);
    hide TalkgroupsLeft;
    if pk in t'.talkgroups {
      MeaningLeft(t, t', f, k, tg);
      assert TalkgroupRefs(t', t'.talkgroups[pk]);
    }
  }

  lemma MeaningLeft(t: Tables, t': Tables, f: File, k: Keeps, tg: Talkgroup)
    requires TalkgroupRefs(t, tg)
    requires t'.groups == (if f.groups.Some? then t.groups - (t.groups.Keys - k.groups) else t.groups)
    requires t'.tags == (if f.tags.Some? then t.tags - (t.tags.Keys - k.tags) else t.tags)
    requires tg.group.Some? ==> (tg.group.value in k.groups <==> t.groups[tg.group.value] in Labels(Rows(f.groups)))
    requires tg.tag.Some? ==> (tg.tag.value in k.tags <==> t.tags[tg.tag.value] in Labels(Rows(f.tags)))
    ensures Meaning(t', Unlinked(tg, k, f.groups.Some?, f.tags.Some?)) == Relabelled(f, Meaning(t, tg))
  {
  }

  lemma UnitPointwise(t: Tables, t': Tables, f: File, k: Keeps, pk: Pk)
    requires Replaced(t, t', f, k) && pk in t.units
    ensures ForeignKeys(t) && ForeignKeys(t')
    ensures pk in t'.units <==> Stays(f, f.units.Some?, FileUnits(f).Keys, UnitKeys(t)[pk])
    ensures pk in t'.units ==> UnitKeys(t')[pk] == UnitKeys(t)[pk] && t'.units[pk] == t.units[pk]
  {
    hide SystemsIn, FileTalkgroups, FileUnits, Labels;
    SoundKeys(t);
    SoundKeys(t');
    assert SystemKeys(t.systems)[t.units[pk].system] == UnitKeys(t)[pk].0;
    assert UnitLeft(t, t', k, f.units.Some? && f.systems.Some?, f.systems.Some?, pk);
  }

  lemma TalkgroupsFinal(t: Tables, t': Tables, f: File, k: Keeps)
    requires Replaced(t, t', f, k)
    ensures ForeignKeys(t) && ForeignKeys(t') && TalkgroupsView(t') == Pruned(ViewOf(t), f).talkgroups
  {
    hide SystemsIn, FileTalkgroups, FileUnits, Labels, KeepsMean, UnitsLeft, Sound, Relabelled, Meaning, Stays;
    SoundKeys(t);
    SoundKeys(t');
    KeysInjective(t);
    var keys, vals := TalkgroupKeys(t), TalkgroupVals(t);
    var keys', vals' := TalkgroupKeys(t'), TalkgroupVals(t');
    var v := ViewOf(t);
    forall pk
      ensures pk in keys' ==> pk in keys
    {
      var absent, cascade := f.talkgroups.Some? && f.systems.Some?, f.systems.Some?;
      assert TalkgroupLeft(t, t', k, absent, f.groups.Some?, f.tags.Some?, cascade, pk);
    }
    var m := Pruned(v, f).talkgroups;
    forall pk | pk in keys
      ensures pk in keys' <==> keys[pk] in m
      ensures pk in keys' ==> keys'[pk] == keys[pk] && m[keys[pk]] == vals'[pk]
    {
      TalkgroupPointwise(t, t', f, k, pk);
      KeyedAt(keys, vals, pk);
    }
    hide TalkgroupsLeft;
    KeyedRestricted(keys, vals, keys', vals', m);
  }

  lemma UnitsFinal(t: Tables, t': Tables, f: File, k: Keeps)
    requires Replaced(t, t', f, k)
    ensures ForeignKeys(t) && ForeignKeys(t') && UnitsView(t') == Pruned(ViewOf(t), f).units
  {
    SoundKeys(t);
    SoundKeys(t');
    KeysInjective(t);
    var keys, vals := UnitKeys(t), UnitVals(t);
    var keys', vals' := UnitKeys(t'), UnitVals(t');
    var v, m := UnitsView(t), Pruned(ViewOf(t), f).units;
    forall pk
      ensures pk in keys' ==> pk in keys && keys'[pk] == keys[pk]
      ensures pk in keys ==> (pk in keys' <==> keys[pk] in m)
      ensures pk in keys' ==> keys[pk] in m && m[keys[pk]] == vals'[pk]
    {
      assert UnitLeft(t, t', k, f.units.Some? && f.systems.Some?, f.systems.Some?, pk);
      if pk in keys {
        UnitPointwise(t, t', f, k, pk);
        KeyedAt(keys, vals, pk);
      }
    }
    KeyedRestricted(keys, vals, keys', vals', m);
  }

  /** Deleting by primary key and keep set is pruning the view. */
  lemma ReplacedView(t: Tables, t': Tables, f: File, k: Keeps)
    requires Replaced(t, t', f, k)
    ensures ForeignKeys(t) && ForeignKeys(t') && ViewOf(t') == Pruned(ViewOf(t), f)
  {
    SoundKeys(t);
    SoundKeys(t');
    TalkgroupsFinal(t, t', f, k);
    UnitsFinal(t, t', f, k);
    if f.groups.Some? { LabelsLeft(t.groups, k.groups, Labels(f.groups.value)); }
    if f.tags.Some? { LabelsLeft(t.tags, k.tags, Labels(f.tags.value)); }
    if f.systems.Some? { SystemsLeft(t.systems, k.systems, SystemsIn(f.systems.value).Keys); }
  }
}
