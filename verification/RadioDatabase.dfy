// The database behind a restore: one map from primary key to row per table,
// AUTOINCREMENT counters, UNIQUE constraints, and foreign keys enforced on
// every statement. A folder monitor's references carry no ON DELETE rule, so
// they block deletes; a system's talkgroups and units go with it.
module RadioDatabase {
  import opened Common
  import opened NaturalKeys
  import opened RadioTables

  ghost predicate Below<T>(m: map<Pk, T>, next: int) {
    forall pk :: pk in m ==> pk.n < next
  }

  /** Deleting rows nobody references, with whatever cascades with them. */
  ghost function WithoutTalkgroups(t: Tables, gone: set<Pk>): Tables {
    t.(talkgroups := t.talkgroups - gone)
  }

  ghost function TalkgroupsOf(t: Tables, systems: set<Pk>): set<Pk> {
    set pk | pk in t.talkgroups && t.talkgroups[pk].system in systems
  }

  ghost function UnitsOf(t: Tables, systems: set<Pk>): set<Pk> {
    set pk | pk in t.units && t.units[pk].system in systems
  }

  ghost function WithoutSystems(t: Tables, gone: set<Pk>): Tables {
    t.(systems := t.systems - gone, talkgroups := t.talkgroups - TalkgroupsOf(t, gone),
      units := t.units - UnitsOf(t, gone))
  }

  function UnlinkGroup(tg: Talkgroup, gone: set<Pk>): Talkgroup {
    if tg.group.Some? && tg.group.value in gone then tg.(group := None) else tg
  }

  function UnlinkTag(tg: Talkgroup, gone: set<Pk>): Talkgroup {
    if tg.tag.Some? && tg.tag.value in gone then tg.(tag := None) else tg
  }

  ghost function WithoutGroups(t: Tables, gone: set<Pk>): Tables {
    t.(groups := t.groups - gone, talkgroups := map pk | pk in t.talkgroups :: UnlinkGroup(t.talkgroups[pk], gone))
  }

  ghost function WithoutTags(t: Tables, gone: set<Pk>): Tables {
    t.(tags := t.tags - gone, talkgroups := map pk | pk in t.talkgroups :: UnlinkTag(t.talkgroups[pk], gone))
  }

  /** A folder monitor points at one of these talkgroups. */
  ghost predicate TalkgroupsPinned(t: Tables, gone: set<Pk>) {
    exists m :: m in t.monitors && t.monitors[m].talkgroup.Some? && t.monitors[m].talkgroup.value in gone
  }

  /** A folder monitor points at one of these systems. */
  ghost predicate SystemsPinned(t: Tables, gone: set<Pk>) {
    exists m :: m in t.monitors && t.monitors[m].system.Some? && t.monitors[m].system.value in gone
  }

  lemma InjectiveSubset<K(!new)>(keys: map<Pk, K>, fewer: map<Pk, K>)
    requires Injective(keys) && fewer.Keys <= keys.Keys && forall pk :: pk in fewer ==> fewer[pk] == keys[pk]
    ensures Injective(fewer)
  {
  }

  lemma TalkgroupsDeletedSound(t: Tables, gone: set<Pk>)
    requires Sound(t) && !TalkgroupsPinned(t, gone)
    ensures Sound(WithoutTalkgroups(t, gone))
  {
    hide Injective;
    var t' := WithoutTalkgroups(t, gone);
    InjectiveSubset(TalkgroupPairs(t.talkgroups), TalkgroupPairs(t'.talkgroups));
    assert ForeignKeys(t');
  }

  lemma UnitsDeletedSound(t: Tables, gone: set<Pk>)
    requires Sound(t)
    ensures Sound(t.(units := t.units - gone))
  {
    hide Injective;
    InjectiveSubset(UnitPairs(t.units), UnitPairs(t.units - gone));
  }

  lemma SystemsDeletedSound(t: Tables, gone: set<Pk>)
    requires Sound(t) && !TalkgroupsPinned(t, TalkgroupsOf(t, gone)) && !SystemsPinned(t, gone)
    ensures Sound(WithoutSystems(t, gone))
  {
    hide Injective;
    var t' := WithoutSystems(t, gone);
    InjectiveSubset(SystemKeys(t.systems), SystemKeys(t'.systems));
    InjectiveSubset(TalkgroupPairs(t.talkgroups), TalkgroupPairs(t'.talkgroups));
    InjectiveSubset(UnitPairs(t.units), UnitPairs(t'.units));
    assert ForeignKeys(t');
  }

  lemma GroupsUnlinkedSound(t: Tables, gone: set<Pk>)
    requires Sound(t)
    ensures Sound(t.(talkgroups := map pk | pk in t.talkgroups :: UnlinkGroup(t.talkgroups[pk], gone)))
  {
    hide Injective;
    var t' := t.(talkgroups := map pk | pk in t.talkgroups :: UnlinkGroup(t.talkgroups[pk], gone));
    assert TalkgroupPairs(t'.talkgroups) == TalkgroupPairs(t.talkgroups);
    assert ForeignKeys(t');
  }

  lemma TagsUnlinkedSound(t: Tables, gone: set<Pk>)
    requires Sound(t)
    ensures Sound(t.(talkgroups := map pk | pk in t.talkgroups :: UnlinkTag(t.talkgroups[pk], gone)))
  {
    hide Injective;
    var t' := t.(talkgroups := map pk | pk in t.talkgroups :: UnlinkTag(t.talkgroups[pk], gone));
    assert TalkgroupPairs(t'.talkgroups) == TalkgroupPairs(t.talkgroups);
    assert ForeignKeys(t');
  }

  lemma UnusedGroupDeletedSound(t: Tables, id: Pk)
    requires Sound(t) && forall pk :: pk in t.talkgroups ==> t.talkgroups[pk].group != Some(id)
    ensures Sound(t.(groups := t.groups - {id}))
  {
    hide Injective;
    InjectiveSubset(t.groups, t.groups - {id});
    assert ForeignKeys(t.(groups := t.groups - {id}));
  }

  lemma UnusedTagDeletedSound(t: Tables, id: Pk)
    requires Sound(t) && forall pk :: pk in t.talkgroups ==> t.talkgroups[pk].tag != Some(id)
    ensures Sound(t.(tags := t.tags - {id}))
  {
    hide Injective;
    InjectiveSubset(t.tags, t.tags - {id});
    assert ForeignKeys(t.(tags := t.tags - {id}));
  }

  lemma MonitorWrittenSound(t: Tables, pk: Pk, m: Monitor)
    requires Sound(t) && MonitorRefs(t, m)
    ensures Sound(t.(monitors := t.monitors[pk := m]))
  {
    hide Injective;
    assert ForeignKeys(t.(monitors := t.monitors[pk := m]));
  }

  lemma MonitorDeletedSound(t: Tables, pk: Pk)
    requires Sound(t)
    ensures Sound(t.(monitors := t.monitors - {pk}))
  {
    hide Injective;
    assert ForeignKeys(t.(monitors := t.monitors - {pk}));
  }

  // Writing one row keeps the tables sound.

  lemma GroupSound(t: Tables, pk: Pk, name: string)
    requires Sound(t) && pk !in t.groups && name !in t.groups.Values
    ensures Sound(t.(groups := t.groups[pk := name]))
  {
    GroupWritten(t, pk, name);
  }

  lemma TagSound(t: Tables, pk: Pk, name: string)
    requires Sound(t) && pk !in t.tags && name !in t.tags.Values
    ensures Sound(t.(tags := t.tags[pk := name]))
  {
    TagWritten(t, pk, name);
  }

  lemma SystemSound(t: Tables, pk: Pk, s: System)
    requires Sound(t)
    requires pk in t.systems ==> t.systems[pk].number == s.number
    requires pk !in t.systems ==> s.number !in SystemKeys(t.systems).Values
    ensures Sound(t.(systems := t.systems[pk := s]))
  {
    SystemWritten(t, pk, s);
  }

  lemma TalkgroupSound(t: Tables, pk: Pk, tg: Talkgroup)
    requires Sound(t) && TalkgroupRefs(t, tg)
    requires pk in t.talkgroups ==> t.talkgroups[pk].system == tg.system && t.talkgroups[pk].number == tg.number
    requires pk !in t.talkgroups ==> (tg.system, tg.number) !in TalkgroupPairs(t.talkgroups).Values
    ensures Sound(t.(talkgroups := t.talkgroups[pk := tg]))
  {
    TalkgroupWritten(t, pk, tg);
  }

  lemma UnitSound(t: Tables, pk: Pk, u: Unit)
    requires Sound(t) && u.system in t.systems
    requires pk in t.units ==> t.units[pk].system == u.system && t.units[pk].number == u.number
    requires pk !in t.units ==> (u.system, u.number) !in UnitPairs(t.units).Values
    ensures Sound(t.(units := t.units[pk := u]))
  {
    UnitWritten(t, pk, u);
  }

  /** Monitors in the order the server lists them: by order, then primary key. */
  predicate Before(a: Row<Monitor>, b: Row<Monitor>) {
    a.value.order < b.value.order || (a.value.order == b.value.order && a.id.n < b.id.n)
  }

  ghost predicate Ordered(rows: seq<Row<Monitor>>) {
    forall i, j :: 0 <= i < j < |rows| ==> Before(rows[i], rows[j])
  }

  lemma NotYetListed(all: seq<Row<Monitor>>, m: map<Pk, Monitor>, i: nat, rows: seq<Row<Monitor>>)
    requires Lists(all, m) && i < |all| && forall r :: r in rows <==> r in all[..i]
    ensures forall j :: 0 <= j < |rows| ==> rows[j].id != all[i].id
  {
    forall j | 0 <= j < |rows|
      ensures rows[j].id != all[i].id
    {
      assert rows[j] in all[..i];
      var k :| 0 <= k < i && all[..i][k] == rows[j];
    }
  }

  lemma OneInserted(before: seq<Row<Monitor>>, n: nat, row: Row<Monitor>)
    requires n <= |before|
    ensures forall r :: r in before[..n] + [row] + before[n..] <==> r in before || r == row
  {
    assert before == before[..n] + before[n..];
  }

  lemma NothingOrdered()
    ensures Ordered([])
  {
  }

  /** The rows of a listing put in order are a listing. */
  lemma OrderedListing(all: seq<Row<Monitor>>, rows: seq<Row<Monitor>>, m: map<Pk, Monitor>)
    requires Lists(all, m) && Ordered(rows) && forall r :: r in rows <==> r in all
    ensures Lists(rows, m)
  {
    forall j | 0 <= j < |rows|
      ensures rows[j].id in m && m[rows[j].id] == rows[j].value
    {
      assert rows[j] in all;
    }
    forall i, j | 0 <= i < j < |rows|
      ensures rows[i].id != rows[j].id
    {
      assert Before(rows[i], rows[j]);
    }
  }

  method InsertOrdered(rows: seq<Row<Monitor>>, row: Row<Monitor>) returns (out: seq<Row<Monitor>>)
    requires Ordered(rows)
    requires forall i :: 0 <= i < |rows| ==> rows[i].id != row.id
    ensures Ordered(out)
    ensures exists n :: 0 <= n <= |rows| && out == rows[..n] + [row] + rows[n..]
  {
    var n := 0;
    while n < |rows| && Before(rows[n], row)
      invariant 0 <= n <= |rows|
      invariant forall i :: 0 <= i < n ==> Before(rows[i], row)
    {
      n := n + 1;
    }
    out := rows[..n] + [row] + rows[n..];
  }

  /** What a rollback puts back: the tables and the AUTOINCREMENT counters. */
  datatype Snapshot = Snapshot(
    tables: Tables, nextGroup: int, nextTag: int, nextSystem: int, nextTalkgroup: int, nextUnit: int, nextMonitor: int)

  ghost predicate Restorable(s: Snapshot) {
    && Sound(s.tables)
    && Below(s.tables.groups, s.nextGroup) && Below(s.tables.tags, s.nextTag) && Below(s.tables.systems, s.nextSystem)
    && Below(s.tables.talkgroups, s.nextTalkgroup) && Below(s.tables.units, s.nextUnit)
       && Below(s.tables.monitors, s.nextMonitor)
  }

  class Database {
    var groups: map<Pk, string>
    var tags: map<Pk, string>
    var systems: map<Pk, System>
    var talkgroups: map<Pk, Talkgroup>
    var units: map<Pk, Unit>
    var monitors: map<Pk, Monitor>

    var nextGroup: int
    var nextTag: int
    var nextSystem: int
    var nextTalkgroup: int
    var nextUnit: int
    var nextMonitor: int

    ghost function Contents(): Tables
      reads this
    {
      Tables(groups, tags, systems, talkgroups, units, monitors)
    }

    ghost predicate Valid()
      reads this
    {
      && Sound(Contents())
      && Below(groups, nextGroup) && Below(tags, nextTag) && Below(systems, nextSystem)
      && Below(talkgroups, nextTalkgroup) && Below(units, nextUnit) && Below(monitors, nextMonitor)
    }

    constructor ()
      ensures Valid() && Contents() == Tables(map[], map[], map[], map[], map[], map[])
    {
      groups, tags, systems, talkgroups, units, monitors := map[], map[], map[], map[], map[], map[];
      nextGroup, nextTag, nextSystem, nextTalkgroup, nextUnit, nextMonitor := 1, 1, 1, 1, 1, 1;
    }

    // ---- Groups and tags ----

    /** None is the UNIQUE violation on the label. */
    method CreateGroup(name: string) returns (id: Option<Pk>)
      requires Valid()
      modifies this
      ensures Valid()
      ensures id.None? <==> name in old(groups).Values
      ensures id.None? ==> Contents() == old(Contents())
      ensures id.Some? ==>
              id.value !in old(groups) && Contents() == old(Contents()).(groups := old(groups)[id.value := name])
    {
      hide Sound;
      if name in groups.Values {
        return None;
      }
      var pk := Pk(nextGroup);
      GroupSound(Contents(), pk, name);
      groups := groups[pk := name];
      nextGroup := nextGroup + 1;
      id := Some(pk);
    }

    method GetGroupByLabel(name: string) returns (id: Option<Pk>)
      ensures id.None? <==> name !in groups.Values
      ensures id.Some? ==> id.value in groups && groups[id.value] == name
    {
      if name in groups.Values {
        var pk :| pk in groups && groups[pk] == name;
        return Some(pk);
      }
      id := None;
    }

    method CreateTag(name: string) returns (id: Option<Pk>)
      requires Valid()
      modifies this
      ensures Valid()
      ensures id.None? <==> name in old(tags).Values
      ensures id.None? ==> Contents() == old(Contents())
      ensures id.Some? ==> id.value !in old(tags) && Contents() == old(Contents()).(tags := old(tags)[id.value := name])
    {
      hide Sound;
      if name in tags.Values {
        return None;
      }
      var pk := Pk(nextTag);
      TagSound(Contents(), pk, name);
      tags := tags[pk := name];
      nextTag := nextTag + 1;
      id := Some(pk);
    }

    method GetTagByLabel(name: string) returns (id: Option<Pk>)
      ensures id.None? <==> name !in tags.Values
      ensures id.Some? ==> id.value in tags && tags[id.value] == name
    {
      if name in tags.Values {
        var pk :| pk in tags && tags[pk] == name;
        return Some(pk);
      }
      id := None;
    }

    // ---- Systems ----

    /** None is the UNIQUE violation on the system number. */
    method CreateSystem(s: System) returns (id: Option<Pk>)
      requires Valid()
      modifies this
      ensures Valid()
      ensures id.None? <==> s.number in SystemKeys(old(systems)).Values
      ensures id.None? ==> Contents() == old(Contents())
      ensures id.Some? ==>
              id.value !in old(systems) && Contents() == old(Contents()).(systems := old(systems)[id.value := s])
    {
      hide Sound;
      var existing := GetSystemBySystemID(s.number);
      if existing.Some? {
        return None;
      }
      var pk := Pk(nextSystem);
      SystemSound(Contents(), pk, s);
      systems := systems[pk := s];
      nextSystem := nextSystem + 1;
      id := Some(pk);
    }

    method GetSystemBySystemID(number: int) returns (id: Option<Pk>)
      ensures id.None? <==> number !in SystemKeys(systems).Values
      ensures id.Some? ==> id.value in systems && systems[id.value].number == number
    {
      var pks := set pk | pk in systems && systems[pk].number == number;
      if pks != {} {
        var pk :| pk in pks;
        assert SystemKeys(systems)[pk] == number;
        return Some(pk);
      }
      id := None;
      assert number in SystemKeys(systems).Values ==> PkOf(SystemKeys(systems), number) in pks;
    }

    /** Rewrites a row's columns; this model's callers never change the number. */
    method UpdateSystem(id: Pk, s: System)
      requires Valid() && id in systems && systems[id].number == s.number
      modifies this
      ensures Valid()
      ensures Contents() == old(Contents()).(systems := old(systems)[id := s])
    {
      hide Sound;
      SystemSound(Contents(), id, s);
      systems := systems[id := s];
    }

    // ---- Talkgroups ----

    method GetTalkgroupBySystemAndTGID(system: Pk, number: int) returns (id: Option<Pk>)
      ensures id.None? <==> (system, number) !in TalkgroupPairs(talkgroups).Values
      ensures id.Some? ==>
              id.value in talkgroups && talkgroups[id.value].system == system && talkgroups[id.value].number == number
    {
      var pks := set pk | pk in talkgroups && talkgroups[pk].system == system && talkgroups[pk].number == number;
      if pks != {} {
        var pk :| pk in pks;
        assert TalkgroupPairs(talkgroups)[pk] == (system, number);
        return Some(pk);
      }
      id := None;
      assert (system, number) in TalkgroupPairs(talkgroups).Values ==>
        PkOf(TalkgroupPairs(talkgroups), (system, number)) in pks;
    }

    /** INSERT ... ON CONFLICT (system_id, talkgroup_id) DO UPDATE; fails on a dangling reference. */
    method UpsertTalkgroup(tg: Talkgroup) returns (ok: bool, ghost pk: Pk)
      requires Valid()
      modifies this
      ensures Valid()
      ensures ok <==> TalkgroupRefs(old(Contents()), tg)
      ensures !ok ==> Contents() == old(Contents())
      ensures ok ==> Contents() == old(Contents()).(talkgroups := old(talkgroups)[pk := tg])
      ensures ok ==> (pk in old(talkgroups) <==> (tg.system, tg.number) in TalkgroupPairs(old(talkgroups)).Values)
      ensures ok && pk in old(talkgroups) ==>
              old(talkgroups)[pk].system == tg.system && old(talkgroups)[pk].number == tg.number
    {
      hide Sound;
      pk := Pk(0);
      ok := && tg.system in systems
            && (tg.group.Some? ==> tg.group.value in groups)
            && (tg.tag.Some? ==> tg.tag.value in tags);
      if !ok {
        return;
      }
      var existing := GetTalkgroupBySystemAndTGID(tg.system, tg.number);
      var at := if existing.Some? then existing.value else Pk(nextTalkgroup);
      if existing.None? {
        nextTalkgroup := nextTalkgroup + 1;
      }
      assert existing.Some? ==> TalkgroupPairs(talkgroups)[at] == (tg.system, tg.number);
      TalkgroupSound(Contents(), at, tg);
      talkgroups := talkgroups[at := tg];
      pk := at;
    }

    /** Fails while a folder monitor points at the talkgroup. */
    method DeleteTalkgroup(id: Pk) returns (ok: bool)
      requires Valid()
      modifies this
      ensures Valid()
      ensures ok <==> !TalkgroupsPinned(old(Contents()), {id})
      ensures Contents() == if ok then WithoutTalkgroups(old(Contents()), {id}) else old(Contents())
    {
      hide Sound;
      var pinned := AnyTalkgroupReferenced({id});
      ok := !pinned;
      if ok {
        TalkgroupsDeletedSound(Contents(), {id});
        talkgroups := talkgroups - {id};
      }
    }

    /** UPDATE talkgroups SET group_id = NULL WHERE group_id = id. */
    method UnlinkTalkgroupsFromGroup(id: Pk)
      requires Valid()
      modifies this
      ensures Valid()
      ensures Contents() == old(Contents()).(talkgroups := map pk | pk in old(talkgroups) ::
                                             UnlinkGroup(old(talkgroups)[pk], {id}))
    {
      hide Sound;
      GroupsUnlinkedSound(Contents(), {id});
      talkgroups := map pk | pk in talkgroups :: UnlinkGroup(talkgroups[pk], {id});
    }

    /** Fails while a talkgroup points at the group. */
    method DeleteGroup(id: Pk) returns (ok: bool)
      requires Valid()
      modifies this
      ensures Valid()
      ensures ok <==> forall pk :: pk in old(talkgroups) ==> old(talkgroups)[pk].group != Some(id)
      ensures Contents() == if ok then old(Contents()).(groups := old(groups) - {id}) else old(Contents())
    {
      hide Sound;
      var users := set pk | pk in talkgroups && talkgroups[pk].group == Some(id);
      ok := users == {};
      if ok {
        assert forall pk :: pk in talkgroups && talkgroups[pk].group == Some(id) ==> pk in users;
        UnusedGroupDeletedSound(Contents(), id);
        groups := groups - {id};
      } else {
        var pk :| pk in users;
      }
    }

    method UnlinkTalkgroupsFromTag(id: Pk)
      requires Valid()
      modifies this
      ensures Valid()
      ensures Contents() == old(Contents()).(talkgroups := map pk | pk in old(talkgroups) ::
                                             UnlinkTag(old(talkgroups)[pk], {id}))
    {
      hide Sound;
      TagsUnlinkedSound(Contents(), {id});
      talkgroups := map pk | pk in talkgroups :: UnlinkTag(talkgroups[pk], {id});
    }

    method DeleteTag(id: Pk) returns (ok: bool)
      requires Valid()
      modifies this
      ensures Valid()
      ensures ok <==> forall pk :: pk in old(talkgroups) ==> old(talkgroups)[pk].tag != Some(id)
      ensures Contents() == if ok then old(Contents()).(tags := old(tags) - {id}) else old(Contents())
    {
      hide Sound;
      var users := set pk | pk in talkgroups && talkgroups[pk].tag == Some(id);
      ok := users == {};
      if ok {
        assert forall pk :: pk in talkgroups && talkgroups[pk].tag == Some(id) ==> pk in users;
        UnusedTagDeletedSound(Contents(), id);
        tags := tags - {id};
      } else {
        var pk :| pk in users;
      }
    }

    // ---- Units ----

    method GetUnitBySystemAndUnitID(system: Pk, number: int) returns (id: Option<Pk>)
      ensures id.None? <==> (system, number) !in UnitPairs(units).Values
      ensures id.Some? ==> id.value in units && units[id.value].system == system && units[id.value].number == number
    {
      var pks := set pk | pk in units && units[pk].system == system && units[pk].number == number;
      if pks != {} {
        var pk :| pk in pks;
        assert UnitPairs(units)[pk] == (system, number);
        return Some(pk);
      }
      id := None;
      assert (system, number) in UnitPairs(units).Values ==> PkOf(UnitPairs(units), (system, number)) in pks;
    }

    /** None is a dangling system or a UNIQUE violation. */
    method CreateUnit(u: Unit) returns (id: Option<Pk>)
      requires Valid()
      modifies this
      ensures Valid()
      ensures id.Some? <==> u.system in old(systems) && (u.system, u.number) !in UnitPairs(old(units)).Values
      ensures id.None? ==> Contents() == old(Contents())
      ensures id.Some? ==> id.value !in old(units) && Contents() == old(Contents()).(units := old(units)[id.value := u])
    {
      hide Sound;
      var existing := GetUnitBySystemAndUnitID(u.system, u.number);
      if u.system !in systems || existing.Some? {
        return None;
      }
      var pk := Pk(nextUnit);
      UnitSound(Contents(), pk, u);
      units := units[pk := u];
      nextUnit := nextUnit + 1;
      id := Some(pk);
    }

    method UpdateUnit(id: Pk, fields: UnitFields)
      requires Valid() && id in units
      modifies this
      ensures Valid()
      ensures Contents() == old(Contents()).(units := old(units)[id := old(units)[id].(fields := fields)])
    {
      hide Sound;
      var u := units[id].(fields := fields);
      SoundKeys(Contents());
      UnitSound(Contents(), id, u);
      units := units[id := u];
    }

    method DeleteUnit(id: Pk)
      requires Valid()
      modifies this
      ensures Valid()
      ensures Contents() == old(Contents()).(units := old(units) - {id})
    {
      hide Sound;
      UnitsDeletedSound(Contents(), {id});
      units := units - {id};
    }

    // ---- Folder monitors ----

    method CreateMonitor(m: Monitor) returns (id: Option<Pk>)
      requires Valid()
      modifies this
      ensures Valid()
      ensures id.Some? <==> MonitorRefs(old(Contents()), m)
      ensures id.None? ==> Contents() == old(Contents())
      ensures id.Some? ==>
              id.value !in old(monitors) && Contents() == old(Contents()).(monitors := old(monitors)[id.value := m])
    {
      hide Sound;
      if (m.system.Some? && m.system.value !in systems) || (m.talkgroup.Some? && m.talkgroup.value !in talkgroups) {
        return None;
      }
      var pk := Pk(nextMonitor);
      MonitorWrittenSound(Contents(), pk, m);
      monitors := monitors[pk := m];
      nextMonitor := nextMonitor + 1;
      id := Some(pk);
    }

    method UpdateMonitor(id: Pk, m: Monitor) returns (ok: bool)
      requires Valid() && id in monitors
      modifies this
      ensures Valid()
      ensures ok <==> MonitorRefs(old(Contents()), m)
      ensures Contents() == if ok then old(Contents()).(monitors := old(monitors)[id := m]) else old(Contents())
    {
      hide Sound;
      ok := (m.system.Some? ==> m.system.value in systems) && (m.talkgroup.Some? ==> m.talkgroup.value in talkgroups);
      if ok {
        MonitorWrittenSound(Contents(), id, m);
        monitors := monitors[id := m];
      }
    }

    method DeleteMonitor(id: Pk)
      requires Valid()
      modifies this
      ensures Valid()
      ensures Contents() == old(Contents()).(monitors := old(monitors) - {id})
    {
      hide Sound;
      MonitorDeletedSound(Contents(), id);
      monitors := monitors - {id};
    }

    method ListDirMonitors() returns (rows: seq<Row<Monitor>>)
      ensures Lists(rows, monitors) && Ordered(rows)
    {
      hide Lists, Ordered;
      var all := ListRows(monitors);
      rows := [];
      assert Ordered(rows) by { NothingOrdered(); }
      for i := 0 to |all|
        invariant Ordered(rows)
        invariant forall r :: r in rows <==> r in all[..i]
      {
        ghost var before := rows;
        NotYetListed(all, monitors, i, rows);
        rows := InsertOrdered(rows, all[i]);
        ghost var n :| 0 <= n <= |before| && rows == before[..n] + [all[i]] + before[n..];
        OneInserted(before, n, all[i]);
        assert all[..i + 1] == all[..i] + [all[i]];
      }
      assert all[..|all|] == all;
      OrderedListing(all, rows, monitors);
    }

    // ---- Systems going ----

    method CountTalkgroupsPerSystem() returns (counts: map<Pk, nat>)
      ensures forall s :: s in counts <==> TalkgroupsOf(Contents(), {s}) != {}
      ensures forall s :: s in counts ==> counts[s] == |TalkgroupsOf(Contents(), {s})|
    {
      var used := set pk | pk in talkgroups :: talkgroups[pk].system;
      counts := map s | s in used :: |set pk | pk in talkgroups && talkgroups[pk].system == s|;
      forall s
        ensures s in counts <==> TalkgroupsOf(Contents(), {s}) != {}
        ensures s in counts ==> counts[s] == |TalkgroupsOf(Contents(), {s})|
      {
        assert TalkgroupsOf(Contents(), {s}) == set pk | pk in talkgroups && talkgroups[pk].system == s;
        assert forall pk :: pk in TalkgroupsOf(Contents(), {s}) ==> s in used;
        if s in counts {
          var pk :| pk in talkgroups && talkgroups[pk].system == s;
          assert pk in TalkgroupsOf(Contents(), {s});
        }
      }
    }

    method CountUnitsPerSystem() returns (counts: map<Pk, nat>)
      ensures forall s :: s in counts <==> UnitsOf(Contents(), {s}) != {}
      ensures forall s :: s in counts ==> counts[s] == |UnitsOf(Contents(), {s})|
    {
      var used := set pk | pk in units :: units[pk].system;
      counts := map s | s in used :: |set pk | pk in units && units[pk].system == s|;
      forall s
        ensures s in counts <==> UnitsOf(Contents(), {s}) != {}
        ensures s in counts ==> counts[s] == |UnitsOf(Contents(), {s})|
      {
        assert UnitsOf(Contents(), {s}) == set pk | pk in units && units[pk].system == s;
        assert forall pk :: pk in UnitsOf(Contents(), {s}) ==> s in used;
        if s in counts {
          var pk :| pk in units && units[pk].system == s;
          assert pk in UnitsOf(Contents(), {s});
        }
      }
    }

    method SystemReferenced(id: Pk) returns (pinned: bool)
      ensures pinned <==> SystemsPinned(Contents(), {id})
    {
      var pins := set m | m in monitors && monitors[m].system == Some(id);
      pinned := pins != {};
      if pinned {
        var m :| m in pins;
      } else {
        assert forall m :: m in monitors && monitors[m].system == Some(id) ==> m in pins;
      }
    }

    method AnyTalkgroupReferenced(tgs: set<Pk>) returns (pinned: bool)
      ensures pinned <==> TalkgroupsPinned(Contents(), tgs)
    {
      var pins := set m | m in monitors && monitors[m].talkgroup.Some? && monitors[m].talkgroup.value in tgs;
      pinned := pins != {};
      if pinned {
        var m :| m in pins;
      } else {
        assert forall m :: m in monitors && monitors[m].talkgroup.Some? && monitors[m].talkgroup.value in tgs ==>
          m in pins;
      }
    }

    /** Cascades to talkgroups and units; fails while a folder monitor points at any of them. */
    method DeleteSystem(id: Pk) returns (ok: bool)
      requires Valid()
      modifies this
      ensures Valid()
      ensures ok
              <==> !SystemsPinned(old(Contents()), {id})
                   && !TalkgroupsPinned(old(Contents()), TalkgroupsOf(old(Contents()), {id}))
      ensures Contents() == if ok then WithoutSystems(old(Contents()), {id}) else old(Contents())
    {
      hide Sound;
      var tgs := set pk | pk in talkgroups && talkgroups[pk].system == id;
      assert tgs == TalkgroupsOf(Contents(), {id});
      var pinned := SystemReferenced(id);
      var tgPinned := AnyTalkgroupReferenced(tgs);
      ok := !pinned && !tgPinned;
      if ok {
        Cascade(id, tgs);
      }
    }

    method Cascade(id: Pk, tgs: set<Pk>)
      requires Valid() && tgs == TalkgroupsOf(Contents(), {id})
      requires !SystemsPinned(Contents(), {id}) && !TalkgroupsPinned(Contents(), tgs)
      modifies this
      ensures Valid() && Contents() == WithoutSystems(old(Contents()), {id})
    {
      hide Sound;
      var us := set pk | pk in units && units[pk].system == id;
      assert us == UnitsOf(Contents(), {id});
      SystemsDeletedSound(Contents(), {id});
      systems, talkgroups, units := systems - {id}, talkgroups - tgs, units - us;
    }

    // ---- Transactions ----

    method BeginTx() returns (saved: Snapshot)
      requires Valid()
      ensures saved.tables == Contents() && Restorable(saved)
    {
      saved := Snapshot(Tables(groups, tags, systems, talkgroups, units, monitors),
                        nextGroup, nextTag, nextSystem, nextTalkgroup, nextUnit, nextMonitor);
    }

    method PutTables(t: Tables)
      modifies this`groups, this`tags, this`systems, this`talkgroups, this`units, this`monitors
      ensures Contents() == t
    {
      groups, tags, systems := t.groups, t.tags, t.systems;
      talkgroups, units, monitors := t.talkgroups, t.units, t.monitors;
    }

    method Rollback(saved: Snapshot)
      requires Restorable(saved)
      modifies this
      ensures Valid() && Contents() == saved.tables
    {
      hide Sound, Below;
      PutTables(saved.tables);
      nextGroup, nextTag, nextSystem := saved.nextGroup, saved.nextTag, saved.nextSystem;
      nextTalkgroup, nextUnit, nextMonitor := saved.nextTalkgroup, saved.nextUnit, saved.nextMonitor;
    }
  }
}
