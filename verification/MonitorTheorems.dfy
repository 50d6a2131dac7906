// Folder monitors through a restore: how many a restore creates, and what a
// second restore of the same file does to them.
module MonitorTheorems {
  import opened Common
  import opened NaturalKeys
  import opened RadioTables
  import opened BackupFile
  import opened PreviewMeaning
  import opened RestoreMerge
  import opened RestoreMonitors
  import opened RestoreConfig
  import opened Restore

  /** What a restore makes of the monitors m0, and where it wrote the file's. */
  ghost predicate MonitorsRestored(m0: map<Pk, Monitor>, m: map<Pk, Monitor>, f: File, w: Placement) {
    && MonitorsSurvive(m0, m, f)
    && WrittenAt(Rows(f.monitors), w.at, m0, m, w.systems, w.talkgroups)
    && (forall pk :: pk in m ==> pk in m0 || pk in w.at)
  }

  /** The directories that have a monitor. */
  ghost function Live(m: map<Pk, Monitor>): set<string> {
    set pk | pk in m :: m[pk].directory
  }

  /** The file lists a directory without a live monitor more than once. */
  ghost predicate ListedTwice(rows: seq<Row<Monitor>>, live: set<string>) {
    exists i, j :: 0 <= i < j < |rows| && rows[i].value.directory == rows[j].value.directory
                   && rows[i].value.directory !in live
  }

  // ---- Where rows were written ----

  lemma {:induction false} LastIndex(at: seq<Pk>, i: nat) returns (j: nat)
    requires i < |at|
    ensures i <= j < |at| && at[j] == at[i] && at[j] !in at[j + 1..]
    decreases |at| - i
  {
    if at[i] !in at[i + 1..] {
      j := i;
    } else {
      var k :| 0 <= k < |at| - (i + 1) && at[i + 1..][k] == at[i];
      j := LastIndex(at, i + 1 + k);
    }
  }

  /** A row of a directory with a live monitor is written there, and all rows of the directory are. */
  lemma LiveRow(rows: seq<Row<Monitor>>, at: seq<Pk>, m0: map<Pk, Monitor>, i: nat)
    requires |at| == |rows| && Placed(rows, at, m0) && i < |rows|
    ensures at[i] in m0 <==> rows[i].value.directory in Live(m0)
    ensures at[i] in m0 ==> LastFor(m0, at[i]) && m0[at[i]].directory == rows[i].value.directory
    ensures forall j :: 0 <= j < |rows| && rows[j].value.directory == rows[i].value.directory && at[i] in m0 ==>
            at[j] == at[i]
  {
    hide LastFor;
    if rows[i].value.directory in Live(m0) {
      var o :| o in m0 && m0[o].directory == rows[i].value.directory;
    }
    forall j | 0 <= j < |rows| && rows[j].value.directory == rows[i].value.directory && at[i] in m0
      ensures at[j] == at[i]
    {
      OnlyLast(m0, at[i], at[j]);
    }
  }

  /** Whatever was written at a place has the directory of each row written there. */
  lemma WrittenDirectory(rows: seq<Row<Monitor>>, at: seq<Pk>, m0: map<Pk, Monitor>, m: map<Pk, Monitor>,
    systems: map<Pk, Pk>, talkgroups: map<Pk, Pk>, i: nat)
    requires WrittenAt(rows, at, m0, m, systems, talkgroups) && i < |rows|
    ensures at[i] in m && m[at[i]].directory == rows[i].value.directory
  {
    hide LastFor;
    var j := LastIndex(at, i);
    assert m[at[j]] == FileMonitor(rows[j].value, systems, talkgroups);
  }

  lemma {:induction false} LastRowWins(rows: seq<Row<Monitor>>, j: nat)
    requires j < |rows| && forall k :: j < k < |rows| ==> rows[k].value.directory != rows[j].value.directory
    ensures rows[j].value.directory in MonitorsIn(rows) && MonitorsIn(rows)[rows[j].value.directory] == rows[j].value
  {
    if j < |rows| - 1 {
      LastRowWins(rows[..|rows| - 1], j);
    }
  }

  /** A live monitor that was written holds the last row of its directory. */
  lemma LiveHolds(rows: seq<Row<Monitor>>, at: seq<Pk>, m0: map<Pk, Monitor>, m: map<Pk, Monitor>,
    systems: map<Pk, Pk>, talkgroups: map<Pk, Pk>, i: nat)
    requires WrittenAt(rows, at, m0, m, systems, talkgroups) && i < |rows| && at[i] in m0
    ensures rows[i].value.directory in MonitorsIn(rows)
    ensures m[at[i]] == FileMonitor(MonitorsIn(rows)[rows[i].value.directory], systems, talkgroups)
  {
    hide LastFor, MonitorsIn, FileMonitor;
    var j := LastIndex(at, i);
    LiveRow(rows, at, m0, j);
    forall k | j < k < |rows|
      ensures rows[k].value.directory != rows[j].value.directory
    {
      assert at[j + 1..][k - (j + 1)] == at[k];
    }
    LastRowWins(rows, j);
  }

  /** The live monitors that were written are the matched ones. */
  lemma MatchedWritten(rows: seq<Row<Monitor>>, at: seq<Pk>, m0: map<Pk, Monitor>, pk: Pk)
    requires |at| == |rows| && Placed(rows, at, m0) && pk in m0
    ensures Matched(m0, Directories(rows), pk) <==> pk in at
  {
    hide LastFor;
    if pk in at {
      var i :| 0 <= i < |at| && at[i] == pk;
      assert rows[i].value.directory in Directories(rows);
    }
    if Matched(m0, Directories(rows), pk) {
      var i :| 0 <= i < |rows| && rows[i].value.directory == m0[pk].directory;
      LiveRow(rows, at, m0, i);
      assert m0[pk].directory in Live(m0);
      OnlyLast(m0, pk, at[i]);
    }
  }

  // ---- How many a restore creates ----

  /** The rows whose directory has no live monitor. */
  function RowsWithout(rows: seq<Row<Monitor>>, live: set<string>): nat {
    if rows == [] then 0
    else
      RowsWithout(rows[..|rows| - 1], live) + (if rows[|rows| - 1].value.directory in live then 0 else 1)
  }

  ghost function BornAt(at: seq<Pk>, n: nat, m0: map<Pk, Monitor>): set<Pk>
    requires n <= |at|
  {
    set i | 0 <= i < n && at[i] !in m0 :: at[i]
  }

  lemma {:induction false} BornCount(rows: seq<Row<Monitor>>, at: seq<Pk>, m0: map<Pk, Monitor>, n: nat)
    requires |at| == |rows| && Placed(rows, at, m0) && n <= |rows|
    ensures |BornAt(at, n, m0)| == RowsWithout(rows[..n], Live(m0))
  {
    hide Live, LastFor;
    if n > 0 {
      BornCount(rows, at, m0, n - 1);
      assert rows[..n][..n - 1] == rows[..n - 1] && rows[..n][n - 1] == rows[n - 1];
      LiveRow(rows, at, m0, n - 1);
      if at[n - 1] in m0 {
        assert BornAt(at, n, m0) == BornAt(at, n - 1, m0);
      } else {
        assert BornAt(at, n, m0) == BornAt(at, n - 1, m0) + {at[n - 1]};
        assert at[n - 1] !in BornAt(at, n - 1, m0);
      }
    }
  }

  /** A restore creates one monitor for every row whose directory has none. */
  lemma {:induction false} MonitorsCreated(m0: map<Pk, Monitor>, m: map<Pk, Monitor>, f: File, w: Placement)
    requires MonitorsRestored(m0, m, f, w)
    ensures |m.Keys - m0.Keys| == RowsWithout(Rows(f.monitors), Live(m0))
  {
    hide MonitorsSurvive, Placed, Live, FileMonitor;
    var rows := Rows(f.monitors);
    BornCount(rows, w.at, m0, |rows|);
    assert rows[..|rows|] == rows;
    assert BornAt(w.at, |rows|, m0) == m.Keys - m0.Keys;
  }

  lemma DirectoriesLast(rows: seq<Row<Monitor>>, live: set<string>)
    requires rows != []
    ensures var init, d := rows[..|rows| - 1], rows[|rows| - 1].value.directory;
            && Directories(rows) == Directories(init) + {d}
            && (ListedTwice(rows, live) <==> ListedTwice(init, live) || (d !in live && d in Directories(init)))
  {
    var n := |rows| - 1;
    var init := rows[..n];
    assert rows[..n + 1] == rows;
    DirectoriesStep(rows, n);
    assert forall i :: 0 <= i < n ==> init[i] == rows[i];
    if rows[n].value.directory in Directories(init) {
      var i :| 0 <= i < n && init[i].value.directory == rows[n].value.directory;
      assert rows[i].value.directory == rows[n].value.directory;
    }
    if ListedTwice(init, live) {
      var i, j :| 0 <= i < j < n && init[i].value.directory == init[j].value.directory
        && init[i].value.directory !in live;
      assert rows[i].value.directory == rows[j].value.directory;
    }
    if ListedTwice(rows, live) {
      var i, j :| 0 <= i < j <= n && rows[i].value.directory == rows[j].value.directory
        && rows[i].value.directory !in live;
      if j < n {
        assert init[i].value.directory == init[j].value.directory;
      } else {
        assert init[i].value.directory in Directories(init);
      }
    }
  }

  /** There are at most as many new directories as rows without a live monitor, and as many exactly when no such
      directory is listed twice. */
  lemma {:induction false} NewDirectories(rows: seq<Row<Monitor>>, live: set<string>)
    ensures |Directories(rows) - live| <= RowsWithout(rows, live)
    ensures |Directories(rows) - live| == RowsWithout(rows, live) <==> !ListedTwice(rows, live)
  {
    if rows == [] {
      assert Directories(rows) - live == {};
    } else {
      hide Directories, ListedTwice;
      var init, d := rows[..|rows| - 1], rows[|rows| - 1].value.directory;
      NewDirectories(init, live);
      DirectoriesLast(rows, live);
      if d in live || d in Directories(init) {
        assert Directories(rows) - live == Directories(init) - live;
      } else {
        assert Directories(rows) - live == Directories(init) - live + {d};
      }
    }
  }

  // ---- The same file again ----

  /** A live monitor whose directory the file lists and that another of the directory comes after: the file updates
      that one. */
  ghost function Shadowed(m0: map<Pk, Monitor>, dirs: set<string>): set<Pk> {
    set pk | pk in m0 && m0[pk].directory in dirs && !LastFor(m0, pk)
  }

  /** After a restore every listed directory has a live monitor, so the second one creates none. */
  lemma {:induction false} CreatesNone(m0: map<Pk, Monitor>, m: map<Pk, Monitor>, m': map<Pk, Monitor>, f: File,
    w: Placement, w': Placement)
    requires MonitorsRestored(m0, m, f, w) && MonitorsRestored(m, m', f, w')
    ensures m'.Keys <= m.Keys && forall pk :: pk in w'.at ==> pk in m
  {
    hide MonitorsSurvive, LastFor, FileMonitor;
    var rows := Rows(f.monitors);
    forall pk | pk in w'.at
      ensures pk in m
    {
      var i :| 0 <= i < |w'.at| && w'.at[i] == pk;
      WrittenDirectory(rows, w.at, m0, m, w.systems, w.talkgroups, i);
      LiveRow(rows, w'.at, m, i);
    }
  }

  /** Every monitor a Replace leaves was written by it. */
  lemma ReplaceLeavesWritten(m0: map<Pk, Monitor>, m: map<Pk, Monitor>, f: File, w: Placement)
    requires MonitorsRestored(m0, m, f, w) && f.mode.Replace? && f.monitors.Some?
    ensures forall pk :: pk in m ==> pk in w.at && m[pk].directory in Directories(Rows(f.monitors))
  {
    hide Matched, FileMonitor;
    var rows := Rows(f.monitors);
    forall pk | pk in m
      ensures pk in w.at && m[pk].directory in Directories(rows)
    {
      if pk in m0 { MatchedWritten(rows, w.at, m0, pk); }
      var i :| 0 <= i < |w.at| && w.at[i] == pk;
      WrittenDirectory(rows, w.at, m0, m, w.systems, w.talkgroups, i);
      assert rows[i].value.directory in Directories(rows);
    }
  }

  /** What the second run removes: a Merge nothing, a Replace the monitors the first one left shadowed. */
  lemma {:induction false} RemovesShadowed(m0: map<Pk, Monitor>, m: map<Pk, Monitor>, m': map<Pk, Monitor>, f: File,
    w: Placement, w': Placement)
    requires MonitorsRestored(m0, m, f, w) && MonitorsRestored(m, m', f, w')
    ensures m.Keys - m'.Keys == if f.mode.Replace? && f.monitors.Some? then Shadowed(m, Directories(Rows(f.monitors)))
            else {}
  {
    hide WrittenAt, LastFor, Directories;
    if f.mode.Replace? && f.monitors.Some? {
      ReplaceLeavesWritten(m0, m, f, w);
      assert forall pk :: pk in m ==> (pk in m' <==> LastFor(m, pk));
    }
  }

  /** Two monitors of a directory were written only for a directory listed twice that had none. */
  lemma SameDirectory(rows: seq<Row<Monitor>>, at: seq<Pk>, m0: map<Pk, Monitor>, i: nat, j: nat)
    requires |at| == |rows| && Placed(rows, at, m0) && i < |rows| && j < |rows|
    requires rows[i].value.directory == rows[j].value.directory && at[i] != at[j]
    ensures ListedTwice(rows, Live(m0))
  {
    hide LastFor, Live;
    LiveRow(rows, at, m0, i);
    if i < j {
      assert rows[i].value.directory == rows[j].value.directory && rows[i].value.directory !in Live(m0);
    } else {
      assert rows[j].value.directory == rows[i].value.directory && rows[j].value.directory !in Live(m0);
    }
  }

  /** A directory without a live monitor that is listed twice gets two monitors, and the first of them is shadowed. */
  lemma TwiceShadowed(m0: map<Pk, Monitor>, m: map<Pk, Monitor>, f: File, w: Placement)
    requires MonitorsRestored(m0, m, f, w) && ListedTwice(Rows(f.monitors), Live(m0))
    ensures Shadowed(m, Directories(Rows(f.monitors))) != {}
    ensures exists i, j ::
            0 <= i < j < |w.at| && w.at[i] != w.at[j]
            && Rows(f.monitors)[i].value.directory == Rows(f.monitors)[j].value.directory
  {
    hide MonitorsSurvive, LastFor, Live, FileMonitor;
    var rows := Rows(f.monitors);
    var i, j :| 0 <= i < j < |rows| && rows[i].value.directory == rows[j].value.directory
      && rows[i].value.directory !in Live(m0);
    LiveRow(rows, w.at, m0, i);
    WrittenDirectory(rows, w.at, m0, m, w.systems, w.talkgroups, i);
    WrittenDirectory(rows, w.at, m0, m, w.systems, w.talkgroups, j);
    assert rows[i].value.directory in Directories(rows);
    if LastFor(m, w.at[i]) && LastFor(m, w.at[j]) {
      OnlyLast(m, w.at[i], w.at[j]);
    }
    assert w.at[i] in Shadowed(m, Directories(rows)) || w.at[j] in Shadowed(m, Directories(rows));
  }

  /** A second Replace removes a monitor exactly when a directory that had none is listed twice. */
  lemma {:induction false} ReplaceShadows(m0: map<Pk, Monitor>, m: map<Pk, Monitor>, f: File, w: Placement)
    requires MonitorsRestored(m0, m, f, w) && f.mode.Replace? && f.monitors.Some?
    ensures Shadowed(m, Directories(Rows(f.monitors))) == {} <==> !ListedTwice(Rows(f.monitors), Live(m0))
  {
    hide MonitorsSurvive, Directories, ListedTwice, Live, FileMonitor;
    var rows := Rows(f.monitors);
    if ListedTwice(rows, Live(m0)) {
      TwiceShadowed(m0, m, f, w);
    } else {
      ReplaceLeavesWritten(m0, m, f, w);
      forall pk | pk in m
        ensures LastFor(m, pk)
      {
        forall o | o in m && o != pk
          ensures m[o].directory != m[pk].directory
        {
          var i :| 0 <= i < |w.at| && w.at[i] == pk;
          var j :| 0 <= j < |w.at| && w.at[j] == o;
          WrittenDirectory(rows, w.at, m0, m, w.systems, w.talkgroups, i);
          WrittenDirectory(rows, w.at, m0, m, w.systems, w.talkgroups, j);
          if rows[i].value.directory == rows[j].value.directory { SameDirectory(rows, w.at, m0, i, j); }
        }
      }
      hide LastFor;
      assert Shadowed(m, Directories(rows)) == {};
    }
  }

  /** With the order the file writes, the live monitor of every listed directory still comes last. */
  ghost predicate StillLast(m0: map<Pk, Monitor>, rows: seq<Row<Monitor>>) {
    forall pk :: pk in m0 && Matched(m0, Directories(rows), pk) ==> LastWithFile(m0, rows, pk)
  }

  ghost predicate LastWithFile(m0: map<Pk, Monitor>, rows: seq<Row<Monitor>>, pk: Pk)
    requires pk in m0
  {
    && m0[pk].directory in MonitorsIn(rows)
    && LastFor(m0[pk := m0[pk].(order := MonitorsIn(rows)[m0[pk].directory].order)], pk)
  }

  /** Beside a live monitor that was written, a Merge leaves the others of its directory as they were. */
  lemma OthersOfDirectory(m0: map<Pk, Monitor>, m: map<Pk, Monitor>, f: File, w: Placement, i: nat, o: Pk)
    requires MonitorsRestored(m0, m, f, w) && i < |w.at| && w.at[i] in m0 && o != w.at[i]
    ensures o in m && m[o].directory == Rows(f.monitors)[i].value.directory ==>
              o in m0 && m[o] == m0[o] && !(f.mode.Replace? && f.monitors.Some?)
    ensures o in m0 && m0[o].directory == Rows(f.monitors)[i].value.directory
            && !(f.mode.Replace? && f.monitors.Some?) ==>
              o in m && m[o] == m0[o]
  {
    hide LastFor, FileMonitor;
    var rows := Rows(f.monitors);
    LiveRow(rows, w.at, m0, i);
    if o in w.at {
      var k :| 0 <= k < |w.at| && w.at[k] == o;
      WrittenDirectory(rows, w.at, m0, m, w.systems, w.talkgroups, k);
      LiveRow(rows, w.at, m0, k);
    } else if o in m0 {
      MatchedWritten(rows, w.at, m0, o);
    }
  }

  lemma LastForAgrees(m0: map<Pk, Monitor>, m: map<Pk, Monitor>, pk: Pk, order: int)
    requires pk in m0 && pk in m && m[pk].directory == m0[pk].directory && m[pk].order == order
    requires forall o :: o != pk ==>
               && (o in m && m[o].directory == m0[pk].directory <==> o in m0 && m0[o].directory == m0[pk].directory)
               && (o in m && m[o].directory == m0[pk].directory ==> m[o] == m0[o])
    ensures LastFor(m, pk) <==> LastFor(m0[pk := m0[pk].(order := order)], pk)
  {
  }

  /** The second run finds the monitor the first wrote exactly when its new order leaves it last. */
  lemma LiveStillLast(m0: map<Pk, Monitor>, m: map<Pk, Monitor>, f: File, w: Placement, i: nat)
    requires MonitorsRestored(m0, m, f, w) && i < |w.at| && w.at[i] in m0
    requires !(f.mode.Replace? && f.monitors.Some?)
    ensures LastFor(m, w.at[i]) <==> LastWithFile(m0, Rows(f.monitors), w.at[i])
  {
    hide MonitorsIn, MonitorsSurvive, LastFor, Live;
    var rows, pk := Rows(f.monitors), w.at[i];
    LiveRow(rows, w.at, m0, i);
    LiveHolds(rows, w.at, m0, m, w.systems, w.talkgroups, i);
    WrittenDirectory(rows, w.at, m0, m, w.systems, w.talkgroups, i);
    forall o | o != pk
      ensures o in m && m[o].directory == m0[pk].directory <==> o in m0 && m0[o].directory == m0[pk].directory
      ensures o in m && m[o].directory == m0[pk].directory ==> m[o] == m0[o]
    {
      OthersOfDirectory(m0, m, f, w, i, o);
    }
    hide WrittenAt;
    LastForAgrees(m0, m, pk, MonitorsIn(rows)[m0[pk].directory].order);
  }

  /** A monitor of its own is the only one of its directory, unless the file lists that twice. */
  lemma NewIsLast(m0: map<Pk, Monitor>, m: map<Pk, Monitor>, f: File, w: Placement, i: nat)
    requires MonitorsRestored(m0, m, f, w) && i < |w.at| && w.at[i] !in m0 && !ListedTwice(Rows(f.monitors), Live(m0))
    ensures LastFor(m, w.at[i])
  {
    hide FileMonitor, ListedTwice, Matched;
    var rows, pk := Rows(f.monitors), w.at[i];
    WrittenDirectory(rows, w.at, m0, m, w.systems, w.talkgroups, i);
    LiveRow(rows, w.at, m0, i);
    forall o | o in m && o != pk
      ensures m[o].directory != m[pk].directory
    {
      if o in w.at {
        var k :| 0 <= k < |w.at| && w.at[k] == o;
        WrittenDirectory(rows, w.at, m0, m, w.systems, w.talkgroups, k);
        if rows[k].value.directory == rows[i].value.directory { SameDirectory(rows, w.at, m0, i, k); }
      } else {
        MatchedWritten(rows, w.at, m0, o);
      }
    }
  }

  /** The second run writes row i where the first did exactly when that monitor comes last for its directory. */
  lemma FoundAgain(m0: map<Pk, Monitor>, m: map<Pk, Monitor>, m': map<Pk, Monitor>, f: File, w: Placement,
    w': Placement,
    i: nat)
    requires MonitorsRestored(m0, m, f, w) && MonitorsRestored(m, m', f, w') && i < |w.at|
    ensures |w'.at| == |w.at| && (w'.at[i] == w.at[i] <==> LastFor(m, w.at[i]))
  {
    hide LastFor, FileMonitor, MonitorsSurvive;
    var rows := Rows(f.monitors);
    CreatesNone(m0, m, m', f, w, w');
    WrittenDirectory(rows, w.at, m0, m, w.systems, w.talkgroups, i);
    LiveRow(rows, w'.at, m, i);
    if LastFor(m, w.at[i]) { OnlyLast(m, w.at[i], w'.at[i]); }
  }

  lemma AllLast(m0: map<Pk, Monitor>, m: map<Pk, Monitor>, f: File, w: Placement)
    requires MonitorsRestored(m0, m, f, w) && !ListedTwice(Rows(f.monitors), Live(m0))
    requires f.mode.Merge? ==> StillLast(m0, Rows(f.monitors))
    ensures forall pk :: pk in w.at ==> LastFor(m, pk)
  {
    hide LastFor, FileMonitor, MonitorsSurvive, ListedTwice, Live, MonitorsIn;
    var rows := Rows(f.monitors);
    forall pk | pk in w.at
      ensures LastFor(m, pk)
    {
      var i :| 0 <= i < |w.at| && w.at[i] == pk;
      WrittenDirectory(rows, w.at, m0, m, w.systems, w.talkgroups, i);
      if pk !in m0 {
        NewIsLast(m0, m, f, w, i);
      } else if f.mode.Merge? {
        LiveStillLast(m0, m, f, w, i);
        MatchedWritten(rows, w.at, m0, pk);
      } else {
        ReplaceShadows(m0, m, f, w);
        assert rows[i].value.directory in Directories(rows);
        assert pk !in Shadowed(m, Directories(rows));
      }
    }
  }

  /** The second run writes every row where the first did exactly when no directory without a monitor was listed twice
      and, for a Merge, the live ones still come last with the order the file wrote. */
  lemma {:induction false} SecondPlaces(m0: map<Pk, Monitor>, m: map<Pk, Monitor>, m': map<Pk, Monitor>, f: File,
    w: Placement, w': Placement)
    requires MonitorsRestored(m0, m, f, w) && MonitorsRestored(m, m', f, w')
    ensures w'.at == w.at
            <==> !ListedTwice(Rows(f.monitors), Live(m0)) && (f.mode.Merge? ==> StillLast(m0, Rows(f.monitors)))
  {
    hide LastFor, MonitorsSurvive, ListedTwice, Live, MonitorsIn, Holds;
    var rows := Rows(f.monitors);
    forall i | 0 <= i < |w.at|
      ensures |w'.at| == |w.at| && (w'.at[i] == w.at[i] <==> LastFor(m, w.at[i]))
    {
      FoundAgain(m0, m, m', f, w, w', i);
    }
    if w'.at == w.at {
      if ListedTwice(rows, Live(m0)) { TwiceMoves(m0, m, f, w); }
      if f.mode.Merge? {
        forall pk | pk in m0 && Matched(m0, Directories(rows), pk)
          ensures LastWithFile(m0, rows, pk)
        {
          MatchedWritten(rows, w.at, m0, pk);
          var i :| 0 <= i < |w.at| && w.at[i] == pk;
          LiveStillLast(m0, m, f, w, i);
        }
      }
    }
    if !ListedTwice(rows, Live(m0)) && (f.mode.Merge? ==> StillLast(m0, rows)) {
      AllLast(m0, m, f, w);
      assert forall i :: 0 <= i < |w.at| ==> w.at[i] in w.at;
      assert w'.at == w.at;
    }
  }

  lemma TwiceMoves(m0: map<Pk, Monitor>, m: map<Pk, Monitor>, f: File, w: Placement)
    requires MonitorsRestored(m0, m, f, w) && ListedTwice(Rows(f.monitors), Live(m0))
    ensures exists i :: 0 <= i < |w.at| && !LastFor(m, w.at[i])
  {
    hide LastFor, MonitorsSurvive, ListedTwice, Live, FileMonitor;
    var rows := Rows(f.monitors);
    TwiceShadowed(m0, m, f, w);
    var i, j :| 0 <= i < j < |w.at| && w.at[i] != w.at[j] && rows[i].value.directory == rows[j].value.directory;
    WrittenDirectory(rows, w.at, m0, m, w.systems, w.talkgroups, i);
    WrittenDirectory(rows, w.at, m0, m, w.systems, w.talkgroups, j);
    if LastFor(m, w.at[i]) && LastFor(m, w.at[j]) {
      OnlyLast(m, w.at[i], w.at[j]);
    }
  }

  /** Rows written in the same places, with the same references: nothing changes. */
  lemma {:induction false} SecondSame(m0: map<Pk, Monitor>, m: map<Pk, Monitor>, m': map<Pk, Monitor>, f: File,
    w: Placement, w': Placement)
    requires MonitorsRestored(m0, m, f, w) && MonitorsRestored(m, m', f, w')
    requires w'.systems == w.systems && w'.talkgroups == w.talkgroups && w'.at == w.at
    ensures m' == m
  {
    hide Matched, LastFor, FileMonitor, ListedTwice, Live, StillLast, Shadowed, Directories;
    var rows := Rows(f.monitors);
    CreatesNone(m0, m, m', f, w, w');
    RemovesShadowed(m0, m, m', f, w, w');
    SecondPlaces(m0, m, m', f, w, w');
    if f.mode.Replace? && f.monitors.Some? { ReplaceShadows(m0, m, f, w); }
    assert m'.Keys == m.Keys;
    hide MonitorsSurvive;
    forall pk | pk in m
      ensures m'[pk] == m[pk]
    {
      SameHere(m0, m, m', f, w, w', pk);
    }
  }

  lemma SameHere(m0: map<Pk, Monitor>, m: map<Pk, Monitor>, m': map<Pk, Monitor>, f: File, w: Placement, w': Placement,
    pk: Pk)
    requires MonitorsRestored(m0, m, f, w) && MonitorsRestored(m, m', f, w') && w' == w && pk in m && pk in m'
    ensures m'[pk] == m[pk]
  {
    hide Matched, LastFor, FileMonitor, Directories, Placed;
    var rows := Rows(f.monitors);
    if pk in w.at {
      var i :| 0 <= i < |w.at| && w.at[i] == pk;
      var j := LastIndex(w.at, i);
    } else {
      MatchedWritten(rows, w.at, m, pk);
    }
  }

  /** A second Replace leaves the monitors as the first did exactly when no directory that had none was listed twice. */
  lemma {:induction false} ReplaceAgain(m0: map<Pk, Monitor>, m: map<Pk, Monitor>, m': map<Pk, Monitor>, f: File,
    w: Placement, w': Placement)
    requires MonitorsRestored(m0, m, f, w) && MonitorsRestored(m, m', f, w') && f.mode.Replace? && f.monitors.Some?
    requires w'.systems == w.systems && w'.talkgroups == w.talkgroups
    ensures m' == m <==> !ListedTwice(Rows(f.monitors), Live(m0))
  {
    hide MonitorsRestored, ListedTwice, Live, StillLast, Shadowed, Directories;
    SecondPlaces(m0, m, m', f, w, w');
    RemovesShadowed(m0, m, m', f, w, w');
    ReplaceShadows(m0, m, f, w);
    if w'.at == w.at { SecondSame(m0, m, m', f, w, w'); }
  }

  /** The monitor says what the file's last row for its directory does. */
  ghost predicate SaysRow(m: map<Pk, Monitor>, rows: seq<Row<Monitor>>, pk: Pk, w: Placement)
    requires pk in m
  {
    && m[pk].directory in MonitorsIn(rows)
    && m[pk] == FileMonitor(MonitorsIn(rows)[m[pk].directory], w.systems, w.talkgroups)
  }

  /** A second Merge leaves the monitors as the first did exactly when the last monitor of every listed directory
      already says what the file's last row for it does. */
  lemma {:induction false} MergeAgain(m0: map<Pk, Monitor>, m: map<Pk, Monitor>, m': map<Pk, Monitor>, f: File,
    w: Placement, w': Placement)
    requires MonitorsRestored(m0, m, f, w) && MonitorsRestored(m, m', f, w') && f.mode.Merge?
    ensures m' == m
            <==> forall pk :: pk in m && Matched(m, Directories(Rows(f.monitors)), pk) ==>
              SaysRow(m, Rows(f.monitors), pk, w')
  {
    hide LastFor, FileMonitor, MonitorsIn, Directories, Shadowed;
    var rows := Rows(f.monitors);
    CreatesNone(m0, m, m', f, w, w');
    RemovesShadowed(m0, m, m', f, w, w');
    assert m'.Keys == m.Keys;
    forall pk | pk in m
      ensures Matched(m, Directories(rows), pk) ==> (SaysRow(m, rows, pk, w') <==> m'[pk] == m[pk])
      ensures !Matched(m, Directories(rows), pk) ==> m'[pk] == m[pk]
    {
      SecondHolds(m, m', f, w', pk);
    }
    hide MonitorsRestored, Matched, SaysRow;
    if m' != m {
      var pk :| pk in m && m'[pk] != m[pk];
      assert Matched(m, Directories(rows), pk) && !SaysRow(m, rows, pk, w');
    }
  }

  lemma SecondHolds(m: map<Pk, Monitor>, m': map<Pk, Monitor>, f: File, w': Placement, pk: Pk)
    requires MonitorsRestored(m, m', f, w') && pk in m && f.mode.Merge?
    ensures Matched(m, Directories(Rows(f.monitors)), pk) ==>
              && m[pk].directory in MonitorsIn(Rows(f.monitors)) && pk in m'
              && m'[pk] == FileMonitor(MonitorsIn(Rows(f.monitors))[m[pk].directory], w'.systems, w'.talkgroups)
    ensures !Matched(m, Directories(Rows(f.monitors)), pk) ==> pk in m' && m'[pk] == m[pk]
  {
    hide LastFor, FileMonitor, MonitorsIn, Directories;
    var rows := Rows(f.monitors);
    MatchedWritten(rows, w'.at, m, pk);
    if pk in w'.at {
      var i :| 0 <= i < |w'.at| && w'.at[i] == pk;
      LiveHolds(rows, w'.at, m, m', w'.systems, w'.talkgroups, i);
    }
  }

  /** Monitors through two restores of one file: none is created again, and what else changes. */
  ghost predicate SecondMonitors(m0: map<Pk, Monitor>, m: map<Pk, Monitor>, m': map<Pk, Monitor>, f: File, w: Placement,
    w': Placement)
  {
    var rows, prunes := Rows(f.monitors), f.mode.Replace? && f.monitors.Some?;
    && m'.Keys <= m.Keys
    && m.Keys - m'.Keys == (if prunes then Shadowed(m, Directories(rows)) else {})
    && (prunes ==> (m' == m <==> !ListedTwice(rows, Live(m0))))
    && (w'.at == w.at <==> !ListedTwice(rows, Live(m0)) && (f.mode.Merge? ==> StillLast(m0, rows)))
    && (w'.at == w.at ==> m' == m)
    && (f.mode.Merge? ==>
          (m' == m <==> forall pk :: pk in m && Matched(m, Directories(rows), pk) ==> SaysRow(m, rows, pk, w)))
  }

  lemma {:induction false} MonitorsTwice(m0: map<Pk, Monitor>, m: map<Pk, Monitor>, m': map<Pk, Monitor>, f: File,
    w: Placement, w': Placement)
    requires MonitorsRestored(m0, m, f, w) && MonitorsRestored(m, m', f, w')
    requires w'.systems == w.systems && w'.talkgroups == w.talkgroups
    ensures SecondMonitors(m0, m, m', f, w, w')
  {
    hide MonitorsRestored, ListedTwice, Live, StillLast, Shadowed, Directories, Matched, MonitorsIn, FileMonitor;
    CreatesNone(m0, m, m', f, w, w');
    RemovesShadowed(m0, m, m', f, w, w');
    SecondPlaces(m0, m, m', f, w, w');
    if w'.at == w.at { SecondSame(m0, m, m', f, w, w'); }
    if f.mode.Merge? {
      MergeAgain(m0, m, m', f, w, w');
    } else if f.monitors.Some? {
      ReplaceAgain(m0, m, m', f, w, w');
    }
  }

  // ---- Inputs ----

  function Plain(directory: string, order: int): Monitor {
    Monitor(directory, MonitorFields("", None, None, None, None, 0, 0, 0), None, None, order)
  }

  /** A Replace that lists a new directory twice creates two monitors; the same Replace again removes one of them. */
  lemma {:induction false} TwiceListedExample()
    ensures var d := Plain("a", 0);
            var f := File(Replace, None, None, None, None, None, Some([Row(Pk(7), d), Row(Pk(8), d)]));
            var m, m' := map[Pk(1) := d, Pk(2) := d], map[Pk(2) := d];
            && MonitorsRestored(map[], m, f, Placement([Pk(1), Pk(2)], map[], map[]))
            && MonitorsRestored(m, m', f, Placement([Pk(2), Pk(2)], map[], map[]))
  {
    var d := Plain("a", 0);
    var rows := [Row(Pk(7), d), Row(Pk(8), d)];
    var m, m' := map[Pk(1) := d, Pk(2) := d], map[Pk(2) := d];
    assert rows[0].value == d && "a" in Directories(rows);
    assert Pk(2) in m && m[Pk(1)] == d && m[Pk(2)] == d;
    assert LastFor(m, Pk(2)) && !LastFor(m, Pk(1));
    assert [Pk(1), Pk(2)][1..] == [Pk(2)] && [Pk(2), Pk(2)][1..] == [Pk(2)];
    assert FileMonitor(d, map[], map[]) == d;
  }

  /** Two live monitors of a directory, and a file that writes the lower order: the first Merge rewrites the second
      monitor, and the same Merge again rewrites the first. */
  lemma {:induction false} OrderExample()
    ensures var d := Plain("a", 0);
            var f := File(Merge, None, None, None, None, None, Some([Row(Pk(7), d)]));
            var m0 := map[Pk(1) := Plain("a", 5), Pk(2) := Plain("a", 10)];
            var m, m' := m0[Pk(2) := d], map[Pk(1) := d, Pk(2) := d];
            && MonitorsRestored(m0, m, f, Placement([Pk(2)], map[], map[]))
            && MonitorsRestored(m, m', f, Placement([Pk(1)], map[], map[]))
  {
    var d := Plain("a", 0);
    var rows := [Row(Pk(7), d)];
    var m0 := map[Pk(1) := Plain("a", 5), Pk(2) := Plain("a", 10)];
    var m, m' := m0[Pk(2) := d], map[Pk(1) := d, Pk(2) := d];
    assert rows[0].value == d && "a" in Directories(rows);
    assert m0[Pk(1)].order == 5 && m0[Pk(2)].order == 10 && m[Pk(1)].order == 5 && m[Pk(2)].order == 0;
    assert LastFor(m0, Pk(2)) && !LastFor(m0, Pk(1)) && LastFor(m, Pk(1)) && !LastFor(m, Pk(2));
    assert FileMonitor(d, map[], map[]) == d;
  }
}
