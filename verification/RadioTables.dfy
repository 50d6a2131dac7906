// The radio tables as values: rows, foreign keys, and the view of them that
// is left when primary keys are erased.
module RadioTables {
  import opened Common
  import opened NaturalKeys

  datatype SystemFields = SystemFields(
    labelText: string, autoPopulate: int, blacklists: Option<string>, led: Option<string>, order: int)
  datatype System = System(number: int, fields: SystemFields)

  datatype TalkgroupFields = TalkgroupFields(
    labelText: Option<string>, name: Option<string>, frequency: Option<int>, led: Option<string>, order: int)
  /** system, group and tag are primary keys of the other tables. */
  datatype Talkgroup = Talkgroup(system: Pk, number: int, fields: TalkgroupFields, group: Option<Pk>, tag: Option<Pk>)

  datatype UnitFields = UnitFields(labelText: Option<string>, order: int)
  datatype Unit = Unit(system: Pk, number: int, fields: UnitFields)

  datatype MonitorFields = MonitorFields(
    kind: string, mask: Option<string>, extension: Option<string>, frequency: Option<int>, delay: Option<int>,
    deleteAfter: int, usePolling: int, disabled: int)
  /** A folder monitor; the schema lets several rows share a directory. */
  datatype Monitor = Monitor(directory: string, fields: MonitorFields, system: Option<Pk>, talkgroup: Option<Pk>,
    order: int)

  datatype Tables = Tables(
    groups: map<Pk, string>, tags: map<Pk, string>, systems: map<Pk, System>,
    talkgroups: map<Pk, Talkgroup>, units: map<Pk, Unit>, monitors: map<Pk, Monitor>)

  // ---- Integrity: unique keys and foreign keys ----

  ghost predicate UniqueLabels(m: map<Pk, string>) {
    Injective(m)
  }

  ghost predicate UniqueSystems(m: map<Pk, System>) {
    Injective(SystemKeys(m))
  }

  ghost predicate UniqueTalkgroups(m: map<Pk, Talkgroup>) {
    Injective(TalkgroupPairs(m))
  }

  ghost predicate UniqueUnits(m: map<Pk, Unit>) {
    Injective(UnitPairs(m))
  }

  ghost function SystemKeys(systems: map<Pk, System>): (r: map<Pk, int>)
    ensures r.Keys == systems.Keys
  {
    map pk | pk in systems :: systems[pk].number
  }

  /** The columns of the table's UNIQUE constraint. */
  ghost function TalkgroupPairs(m: map<Pk, Talkgroup>): map<Pk, (Pk, int)> {
    map pk | pk in m :: (m[pk].system, m[pk].number)
  }

  ghost function UnitPairs(m: map<Pk, Unit>): map<Pk, (Pk, int)> {
    map pk | pk in m :: (m[pk].system, m[pk].number)
  }

  predicate TalkgroupRefs(t: Tables, tg: Talkgroup) {
    && tg.system in t.systems
    && (tg.group.Some? ==> tg.group.value in t.groups)
    && (tg.tag.Some? ==> tg.tag.value in t.tags)
  }

  predicate MonitorRefs(t: Tables, m: Monitor) {
    && (m.system.Some? ==> m.system.value in t.systems)
    && (m.talkgroup.Some? ==> m.talkgroup.value in t.talkgroups)
  }

  ghost predicate ForeignKeys(t: Tables) {
    && (forall pk :: pk in t.talkgroups ==> TalkgroupRefs(t, t.talkgroups[pk]))
    && (forall pk :: pk in t.units ==> t.units[pk].system in t.systems)
    && (forall pk :: pk in t.monitors ==> MonitorRefs(t, t.monitors[pk]))
  }

  ghost predicate Sound(t: Tables) {
    && UniqueLabels(t.groups) && UniqueLabels(t.tags) && UniqueSystems(t.systems)
    && UniqueTalkgroups(t.talkgroups) && UniqueUnits(t.units)
    && ForeignKeys(t)
  }

  lemma SoundKeys(t: Tables)
    requires Sound(t)
    ensures UniqueLabels(t.groups) && UniqueLabels(t.tags) && UniqueSystems(t.systems)
    ensures ForeignKeys(t)
  {
  }

  // ---- The view without primary keys ----

  /** A talkgroup in its natural key's terms: group and tag by label. */
  datatype TalkgroupMeaning = TalkgroupMeaning(fields: TalkgroupFields, group: Option<string>, tag: Option<string>)

  /** (system number, talkgroup or unit number) */
  type RadioKey = (int, int)

  datatype View = View(
    groups: set<string>, tags: set<string>, systems: map<int, SystemFields>,
    talkgroups: map<RadioKey, TalkgroupMeaning>, units: map<RadioKey, UnitFields>)

  function LabelOf(ref: Option<Pk>, labels: map<Pk, string>): Option<string> {
    if ref.Some? && ref.value in labels then Some(labels[ref.value]) else None
  }

  function TalkgroupKey(systems: map<Pk, System>, tg: Talkgroup): RadioKey
    requires tg.system in systems
  {
    (systems[tg.system].number, tg.number)
  }

  function UnitKey(systems: map<Pk, System>, u: Unit): RadioKey
    requires u.system in systems
  {
    (systems[u.system].number, u.number)
  }

  function Meaning(t: Tables, tg: Talkgroup): TalkgroupMeaning {
    TalkgroupMeaning(tg.fields, LabelOf(tg.group, t.groups), LabelOf(tg.tag, t.tags))
  }

  // Each table's natural keys and contents, by primary key.

  ghost function SystemVals(systems: map<Pk, System>): (r: map<Pk, SystemFields>)
    ensures r.Keys == systems.Keys
  {
    map pk | pk in systems :: systems[pk].fields
  }

  ghost function TalkgroupKeys(t: Tables): (r: map<Pk, RadioKey>)
    requires ForeignKeys(t)
    ensures r.Keys == t.talkgroups.Keys
  {
    map pk | pk in t.talkgroups :: TalkgroupKey(t.systems, t.talkgroups[pk])
  }

  ghost function TalkgroupVals(t: Tables): (r: map<Pk, TalkgroupMeaning>)
    ensures r.Keys == t.talkgroups.Keys
  {
    map pk | pk in t.talkgroups :: Meaning(t, t.talkgroups[pk])
  }

  ghost function UnitKeys(t: Tables): (r: map<Pk, RadioKey>)
    requires ForeignKeys(t)
    ensures r.Keys == t.units.Keys
  {
    map pk | pk in t.units :: UnitKey(t.systems, t.units[pk])
  }

  ghost function UnitVals(t: Tables): (r: map<Pk, UnitFields>)
    ensures r.Keys == t.units.Keys
  {
    map pk | pk in t.units :: t.units[pk].fields
  }

  ghost function SystemsView(systems: map<Pk, System>): map<int, SystemFields> {
    Keyed(SystemKeys(systems), SystemVals(systems))
  }

  ghost function TalkgroupsView(t: Tables): map<RadioKey, TalkgroupMeaning>
    requires ForeignKeys(t)
  {
    Keyed(TalkgroupKeys(t), TalkgroupVals(t))
  }

  ghost function UnitsView(t: Tables): map<RadioKey, UnitFields>
    requires ForeignKeys(t)
  {
    Keyed(UnitKeys(t), UnitVals(t))
  }

  ghost function ViewOf(t: Tables): View
    requires ForeignKeys(t)
  {
    View(t.groups.Values, t.tags.Values, SystemsView(t.systems), TalkgroupsView(t), UnitsView(t))
  }

  /** Natural keys identify rows. */
  lemma {:induction false} KeysInjective(t: Tables)
    requires Sound(t)
    ensures Injective(SystemKeys(t.systems)) && Injective(TalkgroupKeys(t)) && Injective(UnitKeys(t))
  {
    forall a, b | a in t.talkgroups && b in t.talkgroups && TalkgroupKeys(t)[a] == TalkgroupKeys(t)[b]
      ensures a == b
    {
      SameSystem(t, t.talkgroups[a].system, t.talkgroups[b].system);
      assert TalkgroupPairs(t.talkgroups)[a] == TalkgroupPairs(t.talkgroups)[b];
    }
    forall a, b | a in t.units && b in t.units && UnitKeys(t)[a] == UnitKeys(t)[b]
      ensures a == b
    {
      SameSystem(t, t.units[a].system, t.units[b].system);
      assert UnitPairs(t.units)[a] == UnitPairs(t.units)[b];
    }
  }

  lemma SameSystem(t: Tables, a: Pk, b: Pk)
    requires Sound(t) && a in t.systems && b in t.systems && t.systems[a].number == t.systems[b].number
    ensures a == b
  {
    assert SystemKeys(t.systems)[a] == SystemKeys(t.systems)[b];
  }

  // ---- How a view changes when one row is written ----

  lemma SystemMapsWritten(m: map<Pk, System>, pk: Pk, s: System)
    ensures SystemKeys(m[pk := s]) == SystemKeys(m)[pk := s.number]
    ensures SystemVals(m[pk := s]) == SystemVals(m)[pk := s.fields]
    ensures pk in m ==> SystemKeys(m)[pk] == m[pk].number
  {
  }

  lemma TalkgroupMapsWritten(t: Tables, pk: Pk, tg: Talkgroup)
    requires ForeignKeys(t) && TalkgroupRefs(t, tg)
    ensures var t' := t.(talkgroups := t.talkgroups[pk := tg]);
            && TalkgroupPairs(t'.talkgroups) == TalkgroupPairs(t.talkgroups)[pk := (tg.system, tg.number)]
            && TalkgroupVals(t') == TalkgroupVals(t)[pk := Meaning(t, tg)]
            && ForeignKeys(t')
            && TalkgroupKeys(t') == TalkgroupKeys(t)[pk := TalkgroupKey(t.systems, tg)]
    ensures pk in t.talkgroups ==> TalkgroupKeys(t)[pk] == TalkgroupKey(t.systems, t.talkgroups[pk])
  {
    var t' := t.(talkgroups := t.talkgroups[pk := tg]);
    TalkgroupValsWritten(t, pk, tg);
    TalkgroupRefsWritten(t, pk, tg);
    hide TalkgroupVals, LabelOf, Meaning, ForeignKeys, TalkgroupRefs;
  }

  lemma TalkgroupRefsWritten(t: Tables, pk: Pk, tg: Talkgroup)
    requires ForeignKeys(t) && TalkgroupRefs(t, tg)
    ensures ForeignKeys(t.(talkgroups := t.talkgroups[pk := tg]))
  {
    var t' := t.(talkgroups := t.talkgroups[pk := tg]);
    forall o | o in t'.talkgroups
      ensures TalkgroupRefs(t', t'.talkgroups[o])
    {
      assert o != pk ==> TalkgroupRefs(t, t.talkgroups[o]);
    }
  }

  lemma TalkgroupValsWritten(t: Tables, pk: Pk, tg: Talkgroup)
    ensures TalkgroupVals(t.(talkgroups := t.talkgroups[pk := tg])) == TalkgroupVals(t)[pk := Meaning(t, tg)]
  {
    hide LabelOf;
  }

  lemma UnitMapsWritten(t: Tables, pk: Pk, u: Unit)
    requires ForeignKeys(t) && u.system in t.systems
    ensures var t' := t.(units := t.units[pk := u]);
            && UnitPairs(t'.units) == UnitPairs(t.units)[pk := (u.system, u.number)]
            && UnitVals(t') == UnitVals(t)[pk := u.fields]
            && ForeignKeys(t')
            && UnitKeys(t') == UnitKeys(t)[pk := UnitKey(t.systems, u)]
    ensures pk in t.units ==> UnitKeys(t)[pk] == UnitKey(t.systems, t.units[pk])
  {
  }

  /** Talkgroups and units read the same while the rows they point at keep their natural keys. */
  lemma SameRadioViews(t: Tables, t': Tables)
    requires ForeignKeys(t)
    requires t'.talkgroups == t.talkgroups && t'.units == t.units && t'.monitors == t.monitors
    requires forall pk :: pk in t.systems ==> pk in t'.systems && t'.systems[pk].number == t.systems[pk].number
    requires forall pk :: pk in t.groups ==> pk in t'.groups && t'.groups[pk] == t.groups[pk]
    requires forall pk :: pk in t.tags ==> pk in t'.tags && t'.tags[pk] == t.tags[pk]
    ensures ForeignKeys(t') && TalkgroupsView(t') == TalkgroupsView(t) && UnitsView(t') == UnitsView(t)
    ensures TalkgroupKeys(t') == TalkgroupKeys(t) && UnitKeys(t') == UnitKeys(t)
  {
    SameForeignKeys(t, t');
    SameTalkgroupMaps(t, t');
    hide ForeignKeys;
    assert UnitKeys(t') == UnitKeys(t);
    assert UnitVals(t') == UnitVals(t);
  }

  lemma SameForeignKeys(t: Tables, t': Tables)
    requires ForeignKeys(t)
    requires t'.talkgroups == t.talkgroups && t'.units == t.units && t'.monitors == t.monitors
    requires t.systems.Keys <= t'.systems.Keys && t.groups.Keys <= t'.groups.Keys && t.tags.Keys <= t'.tags.Keys
    ensures ForeignKeys(t')
  {
    forall pk | pk in t'.talkgroups
      ensures TalkgroupRefs(t', t'.talkgroups[pk])
    {
      assert TalkgroupRefs(t, t.talkgroups[pk]);
    }
  }

  lemma SameTalkgroupMaps(t: Tables, t': Tables)
    requires ForeignKeys(t) && ForeignKeys(t') && t'.talkgroups == t.talkgroups
    requires forall pk :: pk in t.systems ==> pk in t'.systems && t'.systems[pk].number == t.systems[pk].number
    requires forall pk :: pk in t.groups ==> pk in t'.groups && t'.groups[pk] == t.groups[pk]
    requires forall pk :: pk in t.tags ==> pk in t'.tags && t'.tags[pk] == t.tags[pk]
    ensures TalkgroupKeys(t') == TalkgroupKeys(t) && TalkgroupVals(t') == TalkgroupVals(t)
  {
    forall pk | pk in t.talkgroups
      ensures TalkgroupKeys(t')[pk] == TalkgroupKeys(t)[pk] && TalkgroupVals(t')[pk] == TalkgroupVals(t)[pk]
    {
      assert TalkgroupRefs(t, t.talkgroups[pk]);
    }
  }

  lemma GroupWritten(t: Tables, pk: Pk, name: string)
    requires Sound(t) && pk !in t.groups && name !in t.groups.Values
    ensures var t' := t.(groups := t.groups[pk := name]);
            Sound(t') && ViewOf(t') == ViewOf(t).(groups := t.groups.Values + {name})
  {
    LabelWritten(t.groups, pk, name);
    SameRadioViews(t, t.(groups := t.groups[pk := name]));
  }

  lemma TagWritten(t: Tables, pk: Pk, name: string)
    requires Sound(t) && pk !in t.tags && name !in t.tags.Values
    ensures var t' := t.(tags := t.tags[pk := name]);
            Sound(t') && ViewOf(t') == ViewOf(t).(tags := t.tags.Values + {name})
  {
    LabelWritten(t.tags, pk, name);
    SameRadioViews(t, t.(tags := t.tags[pk := name]));
  }

  lemma LabelWritten(m: map<Pk, string>, pk: Pk, name: string)
    requires UniqueLabels(m) && pk !in m && name !in m.Values
    ensures UniqueLabels(m[pk := name]) && m[pk := name].Values == m.Values + {name}
  {
    var m' := m[pk := name];
    forall l | l in m.Values + {name}
      ensures l in m'.Values
    {
      if l != name {
        var a :| a in m && m[a] == l;
        assert m'[a] == l;
      } else {
        assert m'[pk] == l;
      }
    }
  }

  /** Writing a system row, new or with its number unchanged, writes one entry of the view. */
  lemma SystemWritten(t: Tables, pk: Pk, s: System)
    requires Sound(t)
    requires pk in t.systems ==> t.systems[pk].number == s.number
    requires pk !in t.systems ==> s.number !in SystemKeys(t.systems).Values
    ensures var t' := t.(systems := t.systems[pk := s]);
            Sound(t') && ViewOf(t') == ViewOf(t).(systems := SystemsView(t.systems)[s.number := s.fields])
  {
    SystemMapsWritten(t.systems, pk, s);
    KeyedWritten(SystemKeys(t.systems), SystemVals(t.systems), pk, s.number, s.fields);
    SameRadioViews(t, t.(systems := t.systems[pk := s]));
  }

  lemma SameTalkgroup(t: Tables, a: Pk, b: Pk)
    requires Sound(t) && a in t.talkgroups && b in t.talkgroups
    requires t.talkgroups[a].system == t.talkgroups[b].system && t.talkgroups[a].number == t.talkgroups[b].number
    ensures a == b
  {
    assert TalkgroupPairs(t.talkgroups)[a] == TalkgroupPairs(t.talkgroups)[b];
  }

  lemma TalkgroupPairAt(m: map<Pk, Talkgroup>, pk: Pk)
    requires pk in m
    ensures (m[pk].system, m[pk].number) in TalkgroupPairs(m).Values
  {
    assert TalkgroupPairs(m)[pk] == (m[pk].system, m[pk].number);
  }

  /** Natural keys collide exactly when the UNIQUE columns do. */
  lemma TalkgroupKeyTaken(t: Tables, tg: Talkgroup)
    requires Sound(t) && tg.system in t.systems
    ensures TalkgroupKey(t.systems, tg) in TalkgroupKeys(t).Values ==>
            (tg.system, tg.number) in TalkgroupPairs(t.talkgroups).Values
  {
    var key := TalkgroupKey(t.systems, tg);
    if key in TalkgroupKeys(t).Values {
      var a := PkOf(TalkgroupKeys(t), key);
      SameSystem(t, t.talkgroups[a].system, tg.system);
      assert TalkgroupPairs(t.talkgroups)[a] == (tg.system, tg.number);
    }
  }

  lemma UnitKeyTaken(t: Tables, u: Unit)
    requires Sound(t) && u.system in t.systems
    ensures UnitKey(t.systems, u) in UnitKeys(t).Values ==> (u.system, u.number) in UnitPairs(t.units).Values
  {
    var key := UnitKey(t.systems, u);
    if key in UnitKeys(t).Values {
      var a := PkOf(UnitKeys(t), key);
      SameSystem(t, t.units[a].system, u.system);
      assert UnitPairs(t.units)[a] == (u.system, u.number);
    }
  }

  /** Writing a talkgroup row, new or with its key unchanged, writes one entry of the view. */
  lemma TalkgroupWritten(t: Tables, pk: Pk, tg: Talkgroup)
    requires Sound(t) && TalkgroupRefs(t, tg)
    requires pk in t.talkgroups ==> t.talkgroups[pk].system == tg.system && t.talkgroups[pk].number == tg.number
    requires pk !in t.talkgroups ==> (tg.system, tg.number) !in TalkgroupPairs(t.talkgroups).Values
    ensures var t' := t.(talkgroups := t.talkgroups[pk := tg]);
            Sound(t') && ViewOf(t') == ViewOf(t).(talkgroups :=
              TalkgroupsView(t)[TalkgroupKey(t.systems, tg) := Meaning(t, tg)])
  {
    var t' := t.(talkgroups := t.talkgroups[pk := tg]);
    KeysInjective(t);
    TalkgroupMapsWritten(t, pk, tg);
    var key := TalkgroupKey(t.systems, tg);
    TalkgroupKeyTaken(t, tg);
    KeyedWritten(TalkgroupPairs(t.talkgroups), TalkgroupVals(t), pk, (tg.system, tg.number), Meaning(t, tg));
    KeyedWritten(TalkgroupKeys(t), TalkgroupVals(t), pk, key, Meaning(t, tg));
    UnitsUnaffected(t, t');
  }

  lemma UnitsUnaffected(t: Tables, t': Tables)
    requires ForeignKeys(t) && ForeignKeys(t') && t'.systems == t.systems && t'.units == t.units
    ensures UnitsView(t') == UnitsView(t)
  {
    assert UnitKeys(t') == UnitKeys(t);
    assert UnitVals(t') == UnitVals(t);
  }

  lemma TalkgroupsUnaffected(t: Tables, t': Tables)
    requires ForeignKeys(t) && ForeignKeys(t') && t'.systems == t.systems && t'.talkgroups == t.talkgroups
    requires t'.groups == t.groups && t'.tags == t.tags
    ensures TalkgroupsView(t') == TalkgroupsView(t)
  {
    assert TalkgroupKeys(t') == TalkgroupKeys(t);
    assert TalkgroupVals(t') == TalkgroupVals(t);
  }

  /** Writing a unit row, new or with its key unchanged, writes one entry of the view. */
  lemma UnitWritten(t: Tables, pk: Pk, u: Unit)
    requires Sound(t) && u.system in t.systems
    requires pk in t.units ==> t.units[pk].system == u.system && t.units[pk].number == u.number
    requires pk !in t.units ==> (u.system, u.number) !in UnitPairs(t.units).Values
    ensures var t' := t.(units := t.units[pk := u]);
            Sound(t') && ViewOf(t') == ViewOf(t).(units := UnitsView(t)[UnitKey(t.systems, u) := u.fields])
  {
    var t' := t.(units := t.units[pk := u]);
    KeysInjective(t);
    UnitMapsWritten(t, pk, u);
    var key := UnitKey(t.systems, u);
    UnitKeyTaken(t, u);
    KeyedWritten(UnitPairs(t.units), UnitVals(t), pk, (u.system, u.number), u.fields);
    KeyedWritten(UnitKeys(t), UnitVals(t), pk, key, u.fields);
    TalkgroupsUnaffected(t, t');
  }
}
