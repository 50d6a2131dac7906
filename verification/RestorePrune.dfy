// The second half of a Replace: delete what the file does not carry, counting
// every row that goes, cascaded ones included.
module RestorePrune {
  import opened Common
  import opened RadioTables
  import opened RadioDatabase

  // ---- Walking a listing and deleting some of its rows ----

  /** gone is the part of doomed among the first n rows. */
  ghost predicate DoomedSoFar<T(!new)>(rows: seq<Row<T>>, n: nat, doomed: set<Pk>, gone: set<Pk>)
    requires n <= |rows|
  {
    && gone <= doomed
    && (forall i :: 0 <= i < n && rows[i].id in doomed ==> rows[i].id in gone)
    && (forall i :: n <= i < |rows| ==> rows[i].id !in gone)
  }

  lemma DoomedStep<T(!new)>(rows: seq<Row<T>>, n: nat, doomed: set<Pk>, gone: set<Pk>, m: map<Pk, T>)
    requires n < |rows| && Lists(rows, m) && DoomedSoFar(rows, n, doomed, gone)
    ensures DoomedSoFar(rows, n + 1, doomed, if rows[n].id in doomed then gone + {rows[n].id} else gone)
    ensures rows[n].id !in gone
  {
  }

  lemma DoomedAll<T(!new)>(rows: seq<Row<T>>, doomed: set<Pk>, gone: set<Pk>, m: map<Pk, T>)
    requires Lists(rows, m) && DoomedSoFar(rows, |rows|, doomed, gone) && doomed <= m.Keys
    ensures gone == doomed
  {
    forall pk | pk in doomed
      ensures pk in gone
    {
      assert Row(pk, m[pk]) in rows;
    }
  }

  // ---- What each table loses ----

  ghost function AbsentTalkgroups(t: Tables, keep: set<Pk>, systemKeep: set<Pk>): set<Pk> {
    set pk | pk in t.talkgroups && pk !in keep && t.talkgroups[pk].system in systemKeep
  }

  ghost function AbsentUnits(t: Tables, keep: set<Pk>, systemKeep: set<Pk>): set<Pk> {
    set pk | pk in t.units && pk !in keep && t.units[pk].system in systemKeep
  }

  /** Monitors of a system that is going are left to it. */
  ghost function AbsentMonitors(t: Tables, keep: set<Pk>, spare: bool, systemKeep: set<Pk>): set<Pk> {
    set pk | pk in t.monitors && pk !in keep
      && !(spare && t.monitors[pk].system.Some? && t.monitors[pk].system.value !in systemKeep)
  }

  lemma PinnedMore(t: Tables, gone: set<Pk>, pk: Pk)
    ensures TalkgroupsPinned(t, gone + {pk}) <==> TalkgroupsPinned(t, gone) || TalkgroupsPinned(t, {pk})
    ensures SystemsPinned(t, gone + {pk}) <==> SystemsPinned(t, gone) || SystemsPinned(t, {pk})
  {
  }

  lemma PinnedSubset(t: Tables, some: set<Pk>, all: set<Pk>)
    requires some <= all
    ensures TalkgroupsPinned(t, some) ==> TalkgroupsPinned(t, all)
    ensures SystemsPinned(t, some) ==> SystemsPinned(t, all)
  {
  }

  /** Fails, leaving some deleted for the caller to roll back, when a folder monitor points at an absent talkgroup. */
  method PruneTalkgroups(db: Database, keep: set<Pk>, systemKeep: set<Pk>) returns (ok: bool, removed: nat)
    requires db.Valid()
    modifies db
    ensures db.Valid()
    ensures ok <==> !TalkgroupsPinned(old(db.Contents()), AbsentTalkgroups(old(db.Contents()), keep, systemKeep))
    ensures ok ==>
            db.Contents() == WithoutTalkgroups(old(db.Contents()),
            AbsentTalkgroups(old(db.Contents()), keep, systemKeep))
    ensures ok ==> removed == |AbsentTalkgroups(old(db.Contents()), keep, systemKeep)|
  {
    hide Sound, DoomedSoFar, Lists, TalkgroupsPinned, WithoutTalkgroups, AbsentTalkgroups;
    ghost var t0 := db.Contents();
    ghost var doomed := AbsentTalkgroups(t0, keep, systemKeep);
    var rows := ListRows(db.talkgroups);
    ghost var gone: set<Pk> := {};
    ok, removed := true, 0;
    NothingDoomed(rows, doomed);
    NonePruned(t0);
    AbsentAmong(t0, keep, systemKeep);
    for i := 0 to |rows|
      invariant db.Valid() && gone <= doomed
      invariant DoomedSoFar(rows, i, doomed, gone)
      invariant !TalkgroupsPinned(t0, gone)
      invariant db.Contents() == WithoutTalkgroups(t0, gone)
      invariant removed == |gone|
    {
      var pk := rows[i].id;
      DoomedStep(rows, i, doomed, gone, t0.talkgroups);
      ListedAt(rows, t0.talkgroups, i);
      if pk !in keep && rows[i].value.system in systemKeep {
        PinnedMore(t0, gone, pk);
        PinnedSubset(t0, {pk}, doomed);
        OneMorePruned(t0, gone, pk);
        var deleted := db.DeleteTalkgroup(pk);
        if !deleted {
          ok := false;
          return;
        }
        removed := removed + 1;
        gone := gone + {pk};
      }
    }
    DoomedAll(rows, doomed, gone, t0.talkgroups);
  }

  lemma NonePruned(t: Tables)
    ensures WithoutTalkgroups(t, {}) == t && !TalkgroupsPinned(t, {})
  {
  }

  lemma OneMorePruned(t: Tables, gone: set<Pk>, pk: Pk)
    ensures WithoutTalkgroups(WithoutTalkgroups(t, gone), {pk}) == WithoutTalkgroups(t, gone + {pk})
    ensures TalkgroupsPinned(WithoutTalkgroups(t, gone), {pk}) <==> TalkgroupsPinned(t, {pk})
  {
    assert t.talkgroups - gone - {pk} == t.talkgroups - (gone + {pk});
  }

  lemma AbsentAmong(t: Tables, keep: set<Pk>, systemKeep: set<Pk>)
    ensures forall pk :: pk in t.talkgroups ==>
              (pk in AbsentTalkgroups(t, keep, systemKeep) <==> pk !in keep && t.talkgroups[pk].system in systemKeep)
    ensures AbsentTalkgroups(t, keep, systemKeep) <= t.talkgroups.Keys
  {
  }

  lemma NothingDoomed<T(!new)>(rows: seq<Row<T>>, doomed: set<Pk>)
    ensures DoomedSoFar(rows, 0, doomed, {})
  {
  }

  lemma ListedAt<T(!new)>(rows: seq<Row<T>>, m: map<Pk, T>, i: nat)
    requires Lists(rows, m) && i < |rows|
    ensures rows[i].id in m && m[rows[i].id] == rows[i].value
  {
  }

  method PruneUnits(db: Database, keep: set<Pk>, systemKeep: set<Pk>) returns (removed: nat)
    requires db.Valid()
    modifies db
    ensures db.Valid()
    ensures db.Contents() == old(db.Contents()).(units := old(db.units) - AbsentUnits(old(db.Contents()), keep,
            systemKeep))
    ensures removed == |AbsentUnits(old(db.Contents()), keep, systemKeep)|
  {
    hide Sound, DoomedSoFar, Lists;
    ghost var t0 := db.Contents();
    ghost var doomed := AbsentUnits(t0, keep, systemKeep);
    var rows := ListRows(db.units);
    ghost var gone: set<Pk> := {};
    removed := 0;
    NothingDoomed(rows, doomed);
    for i := 0 to |rows|
      invariant db.Valid() && gone <= doomed
      invariant DoomedSoFar(rows, i, doomed, gone)
      invariant db.Contents() == t0.(units := t0.units - gone)
      invariant removed == |gone|
    {
      var pk := rows[i].id;
      DoomedStep(rows, i, doomed, gone, t0.units);
      ListedAt(rows, t0.units, i);
      if pk !in keep && rows[i].value.system in systemKeep {
        db.DeleteUnit(pk);
        removed := removed + 1;
        gone := gone + {pk};
      }
    }
    DoomedAll(rows, doomed, gone, t0.units);
  }

  lemma UnlinkedMore(t: Tables, gone: set<Pk>, pk: Pk)
    ensures var t' := WithoutGroups(t, gone);
            t'.(groups := t'.groups - {pk}, talkgroups := map k | k in t'.talkgroups ::
                UnlinkGroup(t'.talkgroups[k], {pk}))
            == WithoutGroups(t, gone + {pk})
    ensures var t' := WithoutTags(t, gone);
            t'.(tags := t'.tags - {pk}, talkgroups := map k | k in t'.talkgroups :: UnlinkTag(t'.talkgroups[k], {pk}))
            == WithoutTags(t, gone + {pk})
  {
  }

  method PruneGroups(db: Database, keep: set<Pk>) returns (removed: nat)
    requires db.Valid()
    modifies db
    ensures db.Valid()
    ensures db.Contents() == WithoutGroups(old(db.Contents()), old(db.groups).Keys - keep)
    ensures removed == |old(db.groups).Keys - keep|
  {
    hide Sound, DoomedSoFar, Lists;
    ghost var t0 := db.Contents();
    ghost var doomed := t0.groups.Keys - keep;
    var rows := ListRows(db.groups);
    ghost var gone: set<Pk> := {};
    removed := 0;
    NothingDoomed(rows, doomed);
    for i := 0 to |rows|
      invariant db.Valid() && gone <= doomed
      invariant DoomedSoFar(rows, i, doomed, gone)
      invariant db.Contents() == WithoutGroups(t0, gone)
      invariant removed == |gone|
    {
      var pk := rows[i].id;
      DoomedStep(rows, i, doomed, gone, t0.groups);
      ListedAt(rows, t0.groups, i);
      if pk !in keep {
        UnlinkedMore(t0, gone, pk);
        db.UnlinkTalkgroupsFromGroup(pk);
        var deleted := db.DeleteGroup(pk);
        assert deleted;
        removed := removed + 1;
        gone := gone + {pk};
      }
    }
    DoomedAll(rows, doomed, gone, t0.groups);
  }

  method PruneTags(db: Database, keep: set<Pk>) returns (removed: nat)
    requires db.Valid()
    modifies db
    ensures db.Valid()
    ensures db.Contents() == WithoutTags(old(db.Contents()), old(db.tags).Keys - keep)
    ensures removed == |old(db.tags).Keys - keep|
  {
    hide Sound, DoomedSoFar, Lists;
    ghost var t0 := db.Contents();
    ghost var doomed := t0.tags.Keys - keep;
    var rows := ListRows(db.tags);
    ghost var gone: set<Pk> := {};
    removed := 0;
    NothingDoomed(rows, doomed);
    for i := 0 to |rows|
      invariant db.Valid() && gone <= doomed
      invariant DoomedSoFar(rows, i, doomed, gone)
      invariant db.Contents() == WithoutTags(t0, gone)
      invariant removed == |gone|
    {
      var pk := rows[i].id;
      DoomedStep(rows, i, doomed, gone, t0.tags);
      ListedAt(rows, t0.tags, i);
      if pk !in keep {
        UnlinkedMore(t0, gone, pk);
        db.UnlinkTalkgroupsFromTag(pk);
        var deleted := db.DeleteTag(pk);
        assert deleted;
        removed := removed + 1;
        gone := gone + {pk};
      }
    }
    DoomedAll(rows, doomed, gone, t0.tags);
  }

  method PruneMonitors(db: Database, keep: set<Pk>, spare: bool, systemKeep: set<Pk>) returns (removed: nat)
    requires db.Valid()
    modifies db
    ensures db.Valid()
    ensures db.Contents() == old(db.Contents()).(monitors :=
            old(db.monitors) - AbsentMonitors(old(db.Contents()), keep, spare, systemKeep))
    ensures removed == |AbsentMonitors(old(db.Contents()), keep, spare, systemKeep)|
  {
    hide Sound, DoomedSoFar, Lists;
    ghost var t0 := db.Contents();
    ghost var doomed := AbsentMonitors(t0, keep, spare, systemKeep);
    var rows := ListRows(db.monitors);
    ghost var gone: set<Pk> := {};
    removed := 0;
    NothingDoomed(rows, doomed);
    for i := 0 to |rows|
      invariant db.Valid() && gone <= doomed
      invariant DoomedSoFar(rows, i, doomed, gone)
      invariant db.Contents() == t0.(monitors := t0.monitors - gone)
      invariant removed == |gone|
    {
      var pk, m := rows[i].id, rows[i].value;
      DoomedStep(rows, i, doomed, gone, t0.monitors);
      ListedAt(rows, t0.monitors, i);
      if pk !in keep && !(spare && m.system.Some? && m.system.value !in systemKeep) {
        db.DeleteMonitor(pk);
        removed := removed + 1;
        gone := gone + {pk};
      }
    }
    DoomedAll(rows, doomed, gone, t0.monitors);
  }

  // ---- Systems, with their cascades ----

  lemma CascadeSets(t: Tables, gone: set<Pk>, pk: Pk)
    requires pk !in gone
    ensures TalkgroupsOf(t, gone + {pk}) == TalkgroupsOf(t, gone) + TalkgroupsOf(t, {pk})
    ensures UnitsOf(t, gone + {pk}) == UnitsOf(t, gone) + UnitsOf(t, {pk})
    ensures TalkgroupsOf(t, gone) !! TalkgroupsOf(t, {pk}) && UnitsOf(t, gone) !! UnitsOf(t, {pk})
  {
  }

  lemma CascadeElsewhere(t: Tables, gone: set<Pk>, pk: Pk)
    requires pk !in gone
    ensures TalkgroupsOf(WithoutSystems(t, gone), {pk}) == TalkgroupsOf(t, {pk})
    ensures UnitsOf(WithoutSystems(t, gone), {pk}) == UnitsOf(t, {pk})
  {
  }

  lemma CascadeMore(t: Tables, gone: set<Pk>, pk: Pk)
    requires pk !in gone
    ensures WithoutSystems(WithoutSystems(t, gone), {pk}) == WithoutSystems(t, gone + {pk})
    ensures TalkgroupsOf(WithoutSystems(t, gone), {pk}) == TalkgroupsOf(t, {pk})
    ensures |TalkgroupsOf(t, gone + {pk})| == |TalkgroupsOf(t, gone)| + |TalkgroupsOf(t, {pk})|
    ensures |UnitsOf(t, gone + {pk})| == |UnitsOf(t, gone)| + |UnitsOf(t, {pk})|
  {
    hide TalkgroupsOf, UnitsOf;
    CascadeSets(t, gone, pk);
    CascadeElsewhere(t, gone, pk);
    var tgs, us := t.talkgroups, t.units;
    assert tgs - TalkgroupsOf(t, gone) - TalkgroupsOf(t, {pk}) == tgs - TalkgroupsOf(t, gone + {pk});
    assert us - UnitsOf(t, gone) - UnitsOf(t, {pk}) == us - UnitsOf(t, gone + {pk});
    assert t.systems - gone - {pk} == t.systems - (gone + {pk});
  }

  /** The counts of both tables, added up per system. */
  method CascadedCounts(db: Database) returns (cascaded: map<Pk, nat>)
    ensures forall s :: CountIn(cascaded, s) == |TalkgroupsOf(db.Contents(), {s})| + |UnitsOf(db.Contents(), {s})|
  {
    hide TalkgroupsOf, UnitsOf;
    var tgCounts := db.CountTalkgroupsPerSystem();
    var unitCounts := db.CountUnitsPerSystem();
    cascaded := AddCounts(map[], tgCounts);
    cascaded := AddCounts(cascaded, unitCounts);
  }

  function CountIn(counts: map<Pk, nat>, s: Pk): nat {
    if s in counts then counts[s] else 0
  }

  method AddCounts(counts: map<Pk, nat>, more: map<Pk, nat>) returns (sum: map<Pk, nat>)
    ensures forall s :: CountIn(sum, s) == CountIn(counts, s) + CountIn(more, s)
  {
    sum := counts;
    var todo := more.Keys;
    while todo != {}
      invariant todo <= more.Keys
      invariant forall s :: CountIn(sum, s) == CountIn(counts, s) + (if s in todo then 0 else CountIn(more, s))
      decreases todo
    {
      var s :| s in todo;
      sum := sum[s := CountIn(sum, s) + more[s]];
      todo := todo - {s};
    }
  }

  /** Fails, for the caller to roll back, when a folder monitor points at a system that goes or at one of its
      talkgroups. */
  method PruneSystems(db: Database, keep: set<Pk>) returns (ok: bool, removed: nat)
    requires db.Valid()
    modifies db
    ensures db.Valid()
    ensures var t0, doomed := old(db.Contents()), old(db.systems).Keys - keep;
            && (ok <==> !SystemsPinned(t0, doomed) && !TalkgroupsPinned(t0, TalkgroupsOf(t0, doomed)))
            && (ok ==> db.Contents() == WithoutSystems(t0, doomed))
            && (ok ==> removed == |doomed| + |TalkgroupsOf(t0, doomed)| + |UnitsOf(t0, doomed)|)
  {
    hide Sound, DoomedSoFar, Lists, WithoutSystems, TalkgroupsOf, UnitsOf;
    ghost var t0 := db.Contents();
    ghost var doomed := t0.systems.Keys - keep;
    var rows := ListRows(db.systems);
    var cascaded := CascadedCounts(db);
    ghost var gone: set<Pk> := {};
    ok, removed := true, 0;
    NothingDoomed(rows, doomed);
    NoneGone(t0);
    for i := 0 to |rows|
      invariant db.Valid() && gone <= doomed
      invariant DoomedSoFar(rows, i, doomed, gone)
      invariant !SystemsPinned(t0, gone) && !TalkgroupsPinned(t0, TalkgroupsOf(t0, gone))
      invariant db.Contents() == WithoutSystems(t0, gone)
      invariant removed == |gone| + |TalkgroupsOf(t0, gone)| + |UnitsOf(t0, gone)|
    {
      var pk := rows[i].id;
      DoomedStep(rows, i, doomed, gone, t0.systems);
      ListedAt(rows, t0.systems, i);
      if pk !in keep {
        CascadeMore(t0, gone, pk);
        CascadePinned(t0, gone, doomed, pk);
        var deleted := db.DeleteSystem(pk);
        if !deleted {
          ok := false;
          return;
        }
        removed := removed + 1 + CountIn(cascaded, pk);
        gone := gone + {pk};
      }
    }
    DoomedAll(rows, doomed, gone, t0.systems);
  }

  lemma NoneGone(t: Tables)
    ensures WithoutSystems(t, {}) == t && TalkgroupsOf(t, {}) == {} && UnitsOf(t, {}) == {}
  {
  }

  lemma CascadePinned(t: Tables, gone: set<Pk>, doomed: set<Pk>, pk: Pk)
    requires gone <= doomed && pk in doomed && pk !in gone
    ensures var t' := WithoutSystems(t, gone);
            && (SystemsPinned(t', {pk}) <==> SystemsPinned(t, {pk}))
            && (TalkgroupsPinned(t', TalkgroupsOf(t', {pk})) <==> TalkgroupsPinned(t, TalkgroupsOf(t, {pk})))
    ensures SystemsPinned(t, gone + {pk}) <==> SystemsPinned(t, gone) || SystemsPinned(t, {pk})
    ensures TalkgroupsPinned(t, TalkgroupsOf(t, gone + {pk})) <==>
              TalkgroupsPinned(t, TalkgroupsOf(t, gone)) || TalkgroupsPinned(t, TalkgroupsOf(t, {pk}))
    ensures SystemsPinned(t, {pk}) ==> SystemsPinned(t, doomed)
    ensures TalkgroupsPinned(t, TalkgroupsOf(t, {pk})) ==> TalkgroupsPinned(t, TalkgroupsOf(t, doomed))
  {
    CascadeMore(t, gone, pk);
    PinnedMore(t, gone, pk);
    PinnedSubset(t, {pk}, doomed);
    PinnedSubset(t, TalkgroupsOf(t, {pk}), TalkgroupsOf(t, doomed));
    assert TalkgroupsOf(t, gone + {pk}) == TalkgroupsOf(t, gone) + TalkgroupsOf(t, {pk});
  }
}
