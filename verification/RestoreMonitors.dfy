// The folder monitors of a restore: matched by directory, their references
// carried through the remaps.
module RestoreMonitors {
  import opened Common
  import opened RadioTables
  import opened RadioDatabase
  import opened BackupFile
  import opened RestoreMerge

  /** From m0 to m, monitors of the directories dirs were written: keep is those rows, and they only point at kept
      rows. */
  ghost predicate MonitorsMerged(m0: map<Pk, Monitor>, m: map<Pk, Monitor>, dirs: set<string>, systems: set<Pk>,
    talkgroups: set<Pk>, keep: set<Pk>, created: nat)
  {
    && (forall pk :: pk in m0 ==> pk in m && (pk in keep <==> Matched(m0, dirs, pk)))
    && (forall pk :: pk in m0 && pk !in keep ==> m[pk] == m0[pk])
    && (forall pk :: pk in m ==> pk in m0 || pk in keep)
    && (forall pk :: pk in keep ==> pk in m && PointsInto(m[pk], systems, talkgroups))
    && created == |m| - |m0|
  }

  predicate PointsInto(m: Monitor, systems: set<Pk>, talkgroups: set<Pk>) {
    && (m.system.Some? ==> m.system.value in systems)
    && (m.talkgroup.Some? ==> m.talkgroup.value in talkgroups)
  }

  function FileMonitor(d: Monitor, systemRemap: map<Pk, Pk>, talkgroupRemap: map<Pk, Pk>): Monitor {
    d.(system := Remapped(d.system, systemRemap), talkgroup := Remapped(d.talkgroup, talkgroupRemap))
  }

  /** Where a reference of the file points after the remap: nowhere when the remap does not know it. */
  ghost predicate Carried(to: Option<Pk>, ref: Option<Pk>, remap: map<Pk, Pk>) {
    && (to.Some? <==> ref.Some? && ref.value in remap)
    && (to.Some? ==> to.value == remap[ref.value])
  }

  /** The monitor says what the file's row does, its references carried through the remaps. */
  ghost predicate HoldsRow(m: Monitor, d: Monitor, systemRemap: map<Pk, Pk>, talkgroupRemap: map<Pk, Pk>) {
    && m.directory == d.directory && m.fields == d.fields && m.order == d.order
    && Carried(m.system, d.system, systemRemap) && Carried(m.talkgroup, d.talkgroup, talkgroupRemap)
  }

  /** live[dir] is the last monitor listed for each directory. */
  ghost predicate ByDirectory(live: map<string, Pk>, monitors: map<Pk, Monitor>) {
    && (forall pk :: pk in monitors ==> monitors[pk].directory in live)
    && (forall dir :: dir in live ==> LastFor(monitors, live[dir]) && monitors[live[dir]].directory == dir)
  }

  /** at says where in the listing live found each directory: nowhere after it among the first n rows. */
  ghost predicate Indexed(rows: seq<Row<Monitor>>, n: nat, live: map<string, Pk>, at: map<string, nat>)
    requires n <= |rows|
  {
    && live.Keys == at.Keys
    && (forall j :: 0 <= j < n ==> rows[j].value.directory in live)
    && (forall dir :: dir in live ==>
        at[dir] < n && rows[at[dir]] == Row(live[dir], rows[at[dir]].value) && rows[at[dir]].value.directory == dir)
    && (forall j :: 0 <= j < n && rows[j].value.directory in at ==> j <= at[rows[j].value.directory])
  }

  method IndexByDirectory(rows: seq<Row<Monitor>>, ghost monitors: map<Pk, Monitor>) returns (live: map<string, Pk>)
    requires Lists(rows, monitors) && Ordered(rows)
    ensures ByDirectory(live, monitors)
  {
    hide Lists, Ordered, ByDirectory;
    live := map[];
    ghost var at: map<string, nat> := map[];
    for i := 0 to |rows|
      invariant Indexed(rows, i, live, at)
    {
      live := live[rows[i].value.directory := rows[i].id];
      at := at[rows[i].value.directory := i];
    }
    IndexedAll(rows, monitors, live, at);
  }

  lemma IndexedAll(rows: seq<Row<Monitor>>, monitors: map<Pk, Monitor>, live: map<string, Pk>, at: map<string, nat>)
    requires Lists(rows, monitors) && Ordered(rows) && Indexed(rows, |rows|, live, at)
    ensures ByDirectory(live, monitors)
  {
    forall pk | pk in monitors
      ensures monitors[pk].directory in live
    {
      assert Row(pk, monitors[pk]) in rows;
    }
    forall dir | dir in live
      ensures LastFor(monitors, live[dir]) && monitors[live[dir]].directory == dir
    {
      LastListed(rows, monitors, at[dir]);
    }
  }

  /** In the server's order, the last row of a directory is the one LastFor means. */
  lemma LastListed(rows: seq<Row<Monitor>>, monitors: map<Pk, Monitor>, n: nat)
    requires Lists(rows, monitors) && Ordered(rows) && n < |rows|
    requires forall j :: 0 <= j < |rows| && rows[j].value.directory == rows[n].value.directory ==> j <= n
    ensures LastFor(monitors, rows[n].id)
  {
    var pk := rows[n].id;
    forall o | o in monitors && o != pk && monitors[o].directory == monitors[pk].directory
      ensures monitors[o].order < monitors[pk].order || (monitors[o].order == monitors[pk].order && o.n < pk.n)
    {
      assert Row(o, monitors[o]) in rows;
      var j :| 0 <= j < |rows| && rows[j] == Row(o, monitors[o]);
      assert Before(rows[j], rows[n]);
    }
  }

  lemma OnlyLast(m: map<Pk, Monitor>, a: Pk, b: Pk)
    requires LastFor(m, a) && LastFor(m, b) && m[a].directory == m[b].directory
    ensures a == b
  {
  }

  lemma DirectoriesStep(rows: seq<Row<Monitor>>, i: nat)
    requires i < |rows|
    ensures Directories(rows[..i + 1]) == Directories(rows[..i]) + {rows[i].value.directory}
  {
    var done := rows[..i + 1];
    assert done[i] == rows[i];
    forall j | 0 <= j < i
      ensures done[j].value.directory in Directories(rows[..i])
    {
      assert rows[..i][j] == done[j];
    }
    forall d | d in Directories(rows[..i])
      ensures d in Directories(done)
    {
      var j :| 0 <= j < i && rows[..i][j].value.directory == d;
      assert done[j].value.directory == d;
    }
  }

  lemma MonitorUpdated(m0: map<Pk, Monitor>, m: map<Pk, Monitor>, dirs: set<string>, systems: set<Pk>,
    talkgroups: set<Pk>, keep: set<Pk>, created: nat, pk: Pk, d: Monitor)
    requires MonitorsMerged(m0, m, dirs, systems, talkgroups, keep, created)
    requires pk in m0 && LastFor(m0, pk) && m0[pk].directory == d.directory && PointsInto(d, systems, talkgroups)
    ensures MonitorsMerged(m0, m[pk := d], dirs + {d.directory}, systems, talkgroups, keep + {pk}, created)
  {
    hide LastFor, PointsInto;
    forall o | o in m0
      ensures o in keep + {pk} <==> Matched(m0, dirs + {d.directory}, o)
    {
      if LastFor(m0, o) && m0[o].directory == d.directory {
        OnlyLast(m0, o, pk);
      }
    }
  }

  lemma MonitorCreated(m0: map<Pk, Monitor>, m: map<Pk, Monitor>, dirs: set<string>, systems: set<Pk>,
    talkgroups: set<Pk>, keep: set<Pk>, created: nat, pk: Pk, d: Monitor)
    requires MonitorsMerged(m0, m, dirs, systems, talkgroups, keep, created)
    requires pk !in m && PointsInto(d, systems, talkgroups)
    requires forall o :: o in m0 ==> m0[o].directory != d.directory
    ensures MonitorsMerged(m0, m[pk := d], dirs + {d.directory}, systems, talkgroups, keep + {pk}, created + 1)
  {
    hide LastFor, PointsInto;
  }

  /** Row i of the file was written at the primary key at[i]: the live monitor its directory updates, or else a row
      of its own; the last row written there is what it holds. */
  ghost predicate WrittenAt(rows: seq<Row<Monitor>>, at: seq<Pk>, m0: map<Pk, Monitor>, m: map<Pk, Monitor>,
    systemRemap: map<Pk, Pk>, talkgroupRemap: map<Pk, Pk>)
  {
    |at| == |rows| && Placed(rows, at, m0) && Holds(rows, at, m, systemRemap, talkgroupRemap)
  }

  ghost predicate Placed(rows: seq<Row<Monitor>>, at: seq<Pk>, m0: map<Pk, Monitor>)
    requires |at| == |rows|
  {
    && (forall i :: 0 <= i < |at| && at[i] in m0 ==>
        LastFor(m0, at[i]) && m0[at[i]].directory == rows[i].value.directory)
    && (forall i, o :: 0 <= i < |at| && at[i] !in m0 && o in m0 ==> m0[o].directory != rows[i].value.directory)
    && (forall i, j :: 0 <= i < j < |at| && at[i] == at[j] ==> at[i] in m0)
  }

  ghost predicate Holds(rows: seq<Row<Monitor>>, at: seq<Pk>, m: map<Pk, Monitor>, systemRemap: map<Pk, Pk>,
    talkgroupRemap: map<Pk, Pk>)
    requires |at| == |rows|
  {
    forall i :: 0 <= i < |at| ==>
      at[i] in m && (at[i] !in at[i + 1..] ==> m[at[i]] == FileMonitor(rows[i].value, systemRemap, talkgroupRemap))
  }

  lemma PlacedStep(rows: seq<Row<Monitor>>, at: seq<Pk>, m0: map<Pk, Monitor>, i: nat, pk: Pk)
    requires |at| == i < |rows| && Placed(rows[..i], at, m0)
    requires if pk in m0 then LastFor(m0, pk) && m0[pk].directory == rows[i].value.directory
             else pk !in at && forall o :: o in m0 ==> m0[o].directory != rows[i].value.directory
    ensures Placed(rows[..i + 1], at + [pk], m0)
  {
    hide LastFor;
    var done, at' := rows[..i + 1], at + [pk];
    assert forall j :: 0 <= j < i ==> done[j] == rows[..i][j] && at'[j] == at[j];
    assert done[i] == rows[i] && at'[i] == pk;
  }

  lemma HoldsStep(rows: seq<Row<Monitor>>, at: seq<Pk>, m: map<Pk, Monitor>, systemRemap: map<Pk, Pk>,
    talkgroupRemap: map<Pk, Pk>, i: nat, pk: Pk)
    requires |at| == i < |rows| && Holds(rows[..i], at, m, systemRemap, talkgroupRemap)
    ensures Holds(rows[..i + 1], at + [pk], m[pk := FileMonitor(rows[i].value, systemRemap, talkgroupRemap)],
            systemRemap, talkgroupRemap)
    ensures forall o :: o in at ==> o in m
  {
    hide FileMonitor;
    var done, at', m' := rows[..i + 1], at + [pk], m[pk := FileMonitor(rows[i].value, systemRemap, talkgroupRemap)];
    forall j | 0 <= j < |at'|
      ensures at'[j] in m'
              && (at'[j] !in at'[j + 1..] ==> m'[at'[j]] == FileMonitor(done[j].value, systemRemap, talkgroupRemap))
    {
      if j < i {
        assert at'[j + 1..] == at[j + 1..] + [pk] && at'[j] == at[j] && done[j] == rows[..i][j];
        assert pk in at'[j + 1..];
      }
    }
  }

  lemma WrittenStep(rows: seq<Row<Monitor>>, at: seq<Pk>, m0: map<Pk, Monitor>, m: map<Pk, Monitor>,
    systemRemap: map<Pk, Pk>, talkgroupRemap: map<Pk, Pk>, i: nat, pk: Pk)
    requires i < |rows| && WrittenAt(rows[..i], at, m0, m, systemRemap, talkgroupRemap)
    requires pk in m0 ==> LastFor(m0, pk) && m0[pk].directory == rows[i].value.directory
    requires pk !in m0 ==> pk !in m && forall o :: o in m0 ==> m0[o].directory != rows[i].value.directory
    ensures WrittenAt(rows[..i + 1], at + [pk], m0, m[pk := FileMonitor(rows[i].value, systemRemap, talkgroupRemap)],
            systemRemap, talkgroupRemap)
  {
    hide LastFor, FileMonitor, Placed, Holds;
    HoldsStep(rows, at, m, systemRemap, talkgroupRemap, i, pk);
    PlacedStep(rows, at, m0, i, pk);
  }

  /** Both together, for the rows so far. */
  ghost predicate SoFar(rows: seq<Row<Monitor>>, at: seq<Pk>, m0: map<Pk, Monitor>, m: map<Pk, Monitor>,
    systemRemap: map<Pk, Pk>, talkgroupRemap: map<Pk, Pk>, keep: set<Pk>, created: nat)
  {
    && MonitorsMerged(m0, m, Directories(rows), systemRemap.Values, talkgroupRemap.Values, keep, created)
    && WrittenAt(rows, at, m0, m, systemRemap, talkgroupRemap) && keep == (set pk | pk in at)
  }

  lemma NoneSoFar(m: map<Pk, Monitor>, systemRemap: map<Pk, Pk>, talkgroupRemap: map<Pk, Pk>)
    ensures SoFar([], [], m, m, systemRemap, talkgroupRemap, {}, 0)
  {
  }

  lemma OneMoreWritten(rows: seq<Row<Monitor>>, i: nat, at: seq<Pk>, m0: map<Pk, Monitor>, m: map<Pk, Monitor>,
    systemRemap: map<Pk, Pk>, talkgroupRemap: map<Pk, Pk>, keep: set<Pk>, created: nat, pk: Pk)
    requires i < |rows| && SoFar(rows[..i], at, m0, m, systemRemap, talkgroupRemap, keep, created)
    requires pk in m0 ==> LastFor(m0, pk) && m0[pk].directory == rows[i].value.directory
    requires pk !in m0 ==> pk !in m && forall o :: o in m0 ==> m0[o].directory != rows[i].value.directory
    ensures var d := FileMonitor(rows[i].value, systemRemap, talkgroupRemap);
            SoFar(rows[..i + 1], at + [pk], m0, m[pk := d], systemRemap, talkgroupRemap, keep + {pk},
                  if pk in m0 then created else created + 1)
  {
    hide MonitorsMerged, WrittenAt, LastFor, PointsInto, Directories;
    var d := FileMonitor(rows[i].value, systemRemap, talkgroupRemap);
    var s, g := systemRemap.Values, talkgroupRemap.Values;
    WrittenStep(rows, at, m0, m, systemRemap, talkgroupRemap, i, pk);
    DirectoriesStep(rows, i);
    FileMonitorInto(rows[i].value, systemRemap, talkgroupRemap);
    if pk in m0 {
      MonitorUpdated(m0, m, Directories(rows[..i]), s, g, keep, created, pk, d);
    } else {
      MonitorCreated(m0, m, Directories(rows[..i]), s, g, keep, created, pk, d);
    }
    assert (set o | o in at + [pk]) == keep + {pk};
  }

  lemma FileMonitorInto(d: Monitor, systemRemap: map<Pk, Pk>, talkgroupRemap: map<Pk, Pk>)
    ensures PointsInto(FileMonitor(d, systemRemap, talkgroupRemap), systemRemap.Values, talkgroupRemap.Values)
    ensures FileMonitor(d, systemRemap, talkgroupRemap).directory == d.directory
  {
  }

  lemma StillThere(rows: seq<Row<Monitor>>, at: seq<Pk>, m0: map<Pk, Monitor>, m: map<Pk, Monitor>,
    systemRemap: map<Pk, Pk>, talkgroupRemap: map<Pk, Pk>, keep: set<Pk>, created: nat)
    requires SoFar(rows, at, m0, m, systemRemap, talkgroupRemap, keep, created)
    ensures m0.Keys <= m.Keys
  {
    hide WrittenAt, Matched, PointsInto;
  }

  method RestoreMonitors(db: Database, rows: seq<Row<Monitor>>, systemRemap: map<Pk, Pk>, talkgroupRemap: map<Pk, Pk>)
    returns (keep: set<Pk>, created: nat, ghost at: seq<Pk>)
    requires db.Valid()
    requires systemRemap.Values <= db.systems.Keys && talkgroupRemap.Values <= db.talkgroups.Keys
    modifies db
    ensures db.Valid()
    ensures db.Contents() == old(db.Contents()).(monitors := db.monitors)
    ensures MonitorsMerged(old(db.monitors), db.monitors, Directories(rows), systemRemap.Values, talkgroupRemap.Values,
            keep, created)
    ensures WrittenAt(rows, at, old(db.monitors), db.monitors, systemRemap, talkgroupRemap)
            && keep == (set pk | pk in at)
    ensures forall i :: 0 <= i < |rows| && at[i] !in at[i + 1..] ==>
              at[i] in db.monitors && HoldsRow(db.monitors[at[i]], rows[i].value, systemRemap, talkgroupRemap)
  {
    hide Sound, SoFar, LastFor, HoldsRow;
    ghost var m0 := db.monitors;
    var listed := db.ListDirMonitors();
    var live := IndexByDirectory(listed, db.monitors);
    keep, created, at := {}, 0, [];
    NoneSoFar(m0, systemRemap, talkgroupRemap);
    for i := 0 to |rows|
      invariant db.Valid()
      invariant db.Contents() == old(db.Contents()).(monitors := db.monitors)
      invariant SoFar(rows[..i], at, m0, db.monitors, systemRemap, talkgroupRemap, keep, created)
    {
      var d := FileMonitor(rows[i].value, systemRemap, talkgroupRemap);
      FileMonitorInto(rows[i].value, systemRemap, talkgroupRemap);
      ghost var m := db.monitors;
      StillThere(rows[..i], at, m0, m, systemRemap, talkgroupRemap, keep, created);
      if d.directory in live {
        var pk := live[d.directory];
        LastIsThere(m0, pk);
        var ok := db.UpdateMonitor(pk, d);
        OneMoreWritten(rows, i, at, m0, m, systemRemap, talkgroupRemap, keep, created, pk);
        keep, at := keep + {pk}, at + [pk];
      } else {
        var id := db.CreateMonitor(d);
        OneMoreWritten(rows, i, at, m0, m, systemRemap, talkgroupRemap, keep, created, id.value);
        keep, created, at := keep + {id.value}, created + 1, at + [id.value];
      }
    }
    assert rows[..|rows|] == rows;
    SoFarMeans(rows, at, m0, db.monitors, systemRemap, talkgroupRemap, keep, created);
    WrittenRows(rows, at, m0, db.monitors, systemRemap, talkgroupRemap);
  }

  lemma WrittenRows(rows: seq<Row<Monitor>>, at: seq<Pk>, m0: map<Pk, Monitor>, m: map<Pk, Monitor>,
    systemRemap: map<Pk, Pk>, talkgroupRemap: map<Pk, Pk>)
    requires WrittenAt(rows, at, m0, m, systemRemap, talkgroupRemap)
    ensures |at| == |rows|
    ensures forall i :: 0 <= i < |rows| && at[i] !in at[i + 1..] ==>
              at[i] in m && HoldsRow(m[at[i]], rows[i].value, systemRemap, talkgroupRemap)
  {
    hide Placed;
  }

  lemma LastIsThere(m: map<Pk, Monitor>, pk: Pk)
    requires LastFor(m, pk)
    ensures pk in m
  {
  }

  lemma SoFarMeans(rows: seq<Row<Monitor>>, at: seq<Pk>, m0: map<Pk, Monitor>, m: map<Pk, Monitor>,
    systemRemap: map<Pk, Pk>, talkgroupRemap: map<Pk, Pk>, keep: set<Pk>, created: nat)
    requires SoFar(rows, at, m0, m, systemRemap, talkgroupRemap, keep, created)
    ensures MonitorsMerged(m0, m, Directories(rows), systemRemap.Values, talkgroupRemap.Values, keep, created)
    ensures WrittenAt(rows, at, m0, m, systemRemap, talkgroupRemap) && keep == (set pk | pk in at)
  {
    hide MonitorsMerged, WrittenAt;
  }
}
