// A configuration backup, what it says once its own primary keys are erased,
// and what a restore makes of a database's view.
module BackupFile {
  import opened Common
  import opened RadioTables

  datatype Mode = Merge | Replace

  /** None is a table the file does not carry at all. */
  datatype File = File(
    mode: Mode,
    groups: Option<seq<Row<string>>>, tags: Option<seq<Row<string>>>, systems: Option<seq<Row<System>>>,
    talkgroups: Option<seq<Row<Talkgroup>>>, units: Option<seq<Row<Unit>>>, monitors: Option<seq<Row<Monitor>>>)

  function Rows<T>(table: Option<seq<T>>): seq<T> {
    OrElse(table, [])
  }

  // ---- The file's own reading of its primary keys: the last row wins ----

  function Names(rows: seq<Row<string>>): map<Pk, string> {
    if rows == [] then map[]
    else var last := rows[|rows| - 1]; Names(rows[..|rows| - 1])[last.id := last.value]
  }

  function Numbers(rows: seq<Row<System>>): map<Pk, int> {
    if rows == [] then map[]
    else var last := rows[|rows| - 1]; Numbers(rows[..|rows| - 1])[last.id := last.value.number]
  }

  /** The talkgroup rows of systems the file lists, by the file's primary key. */
  function TalkgroupNames(rows: seq<Row<Talkgroup>>, numbers: map<Pk, int>): map<Pk, RadioKey> {
    if rows == [] then map[]
    else
      var rest, last := TalkgroupNames(rows[..|rows| - 1], numbers), rows[|rows| - 1];
      if last.value.system !in numbers then rest
      else rest[last.id := (numbers[last.value.system], last.value.number)]
  }

  // ---- The file without primary keys ----

  function Labels(rows: seq<Row<string>>): set<string> {
    if rows == [] then {} else Labels(rows[..|rows| - 1]) + {rows[|rows| - 1].value}
  }

  function SystemsIn(rows: seq<Row<System>>): map<int, SystemFields> {
    if rows == [] then map[]
    else var last := rows[|rows| - 1].value; SystemsIn(rows[..|rows| - 1])[last.number := last.fields]
  }

  /** Talkgroups of systems the file does not list are skipped. */
  function TalkgroupsIn(rows: seq<Row<Talkgroup>>, numbers: map<Pk, int>, groups: map<Pk, string>,
    tags: map<Pk, string>): map<RadioKey, TalkgroupMeaning> {
    if rows == [] then map[]
    else
      var rest := TalkgroupsIn(rows[..|rows| - 1], numbers, groups, tags);
      var tg := rows[|rows| - 1].value;
      if tg.system !in numbers then rest
      else rest[(numbers[tg.system], tg.number) :=
                TalkgroupMeaning(tg.fields, LabelOf(tg.group, groups), LabelOf(tg.tag, tags))]
  }

  function UnitsIn(rows: seq<Row<Unit>>, numbers: map<Pk, int>): map<RadioKey, UnitFields> {
    if rows == [] then map[]
    else
      var rest := UnitsIn(rows[..|rows| - 1], numbers);
      var u := rows[|rows| - 1].value;
      if u.system !in numbers then rest else rest[(numbers[u.system], u.number) := u.fields]
  }

  function FileTalkgroups(f: File): map<RadioKey, TalkgroupMeaning> {
    TalkgroupsIn(Rows(f.talkgroups), Numbers(Rows(f.systems)), Names(Rows(f.groups)), Names(Rows(f.tags)))
  }

  function FileTalkgroupNames(f: File): map<Pk, RadioKey> {
    TalkgroupNames(Rows(f.talkgroups), Numbers(Rows(f.systems)))
  }

  function FileUnits(f: File): map<RadioKey, UnitFields> {
    UnitsIn(Rows(f.units), Numbers(Rows(f.systems)))
  }

  function FileView(f: File): View {
    View(Labels(Rows(f.groups)), Labels(Rows(f.tags)), SystemsIn(Rows(f.systems)), FileTalkgroups(f), FileUnits(f))
  }

  // ---- What a restore makes of a view ----

  /** Merge: add what is missing, update what matches. */
  function Merged(v: View, f: File): View {
    var w := FileView(f);
    View(v.groups + w.groups, v.tags + w.tags, v.systems + w.systems, v.talkgroups + w.talkgroups, v.units + w.units)
  }

  /** Replace keeps a row when its table, or its system's, is not carried, or the file has it. */
  predicate Stays(f: File, carried: bool, listed: set<RadioKey>, k: RadioKey) {
    f.systems.Some? ==> k.0 in SystemsIn(f.systems.value) && (carried ==> k in listed)
  }

  function KeptLabel(carried: Option<seq<Row<string>>>, name: Option<string>): Option<string> {
    if carried.Some? && name.Some? && name.value !in Labels(carried.value) then None else name
  }

  function Relabelled(f: File, tg: TalkgroupMeaning): TalkgroupMeaning {
    tg.(group := KeptLabel(f.groups, tg.group), tag := KeptLabel(f.tags, tg.tag))
  }

  /** Replace, after the merge: drop what the file does not carry. */
  function Pruned(v: View, f: File): View {
    View(
      if f.groups.Some? then v.groups * Labels(f.groups.value) else v.groups,
      if f.tags.Some? then v.tags * Labels(f.tags.value) else v.tags,
      if f.systems.Some? then map n | n in v.systems && n in SystemsIn(f.systems.value) :: v.systems[n] else v.systems,
      map k | k in v.talkgroups && Stays(f, f.talkgroups.Some?, FileTalkgroups(f).Keys, k) ::
      Relabelled(f, v.talkgroups[k]),
      map k | k in v.units && Stays(f, f.units.Some?, FileUnits(f).Keys, k) :: v.units[k])
  }

  function Restored(v: View, f: File): View {
    if f.mode.Replace? then Pruned(Merged(v, f), f) else Merged(v, f)
  }

  // ---- Folder monitors: what can stop a Replace ----

  /** The live monitor a file row with this directory updates: the last one listed. */
  ghost predicate LastFor(monitors: map<Pk, Monitor>, pk: Pk) {
    && pk in monitors
    && forall o :: o in monitors && o != pk && monitors[o].directory == monitors[pk].directory ==>
         monitors[o].order < monitors[pk].order || (monitors[o].order == monitors[pk].order && o.n < pk.n)
  }

  function Directories(rows: seq<Row<Monitor>>): set<string> {
    set i | 0 <= i < |rows| :: rows[i].value.directory
  }

  ghost predicate Matched(monitors: map<Pk, Monitor>, dirs: set<string>, pk: Pk) {
    LastFor(monitors, pk) && monitors[pk].directory in dirs
  }

  /** The monitor still points at a row Replace deletes when it comes to delete it. */
  predicate Pins(t: Tables, f: File, m: Monitor)
    requires MonitorRefs(t, m)
    requires m.talkgroup.Some? ==> t.talkgroups[m.talkgroup.value].system in t.systems
  {
    f.systems.Some? &&
    var listed := SystemsIn(f.systems.value);
    var lost := m.system.Some? && t.systems[m.system.value].number !in listed;
    if m.talkgroup.None? then lost
    else
      var key := TalkgroupKey(t.systems, t.talkgroups[m.talkgroup.value]);
      || lost
      || (f.talkgroups.Some? && key.0 in listed && key !in FileTalkgroups(f))
      || (f.monitors.None? && key.0 !in listed)
  }

  /** Some folder monitor the file does not rewrite points at a row the file lacks. */
  ghost predicate Blocked(t: Tables, f: File)
    requires Sound(t)
  {
    exists pk ::
      pk in t.monitors && !Matched(t.monitors, Directories(Rows(f.monitors)), pk) && Pins(t, f, t.monitors[pk])
  }

  /** A folder monitor of a directory the file does not list points at system 1, and a Replace file carries no
      systems: it is stopped. */
  lemma {:induction false} BlockedExample()
    ensures var m := Monitor("a", MonitorFields("", None, None, None, None, 0, 0, 0), Some(Pk(1)), None, 0);
            var t := Tables(map[], map[], map[Pk(1) := System(1, SystemFields("", 0, None, None, 0))], map[], map[],
              map[Pk(5) := m]);
            var f := File(Replace, None, None, Some([]), None, None, Some([]));
            Sound(t) && Blocked(t, f)
  {
    var m := Monitor("a", MonitorFields("", None, None, None, None, 0, 0, 0), Some(Pk(1)), None, 0);
    var t := Tables(map[], map[], map[Pk(1) := System(1, SystemFields("", 0, None, None, 0))], map[], map[],
      map[Pk(5) := m]);
    var f := File(Replace, None, None, Some([]), None, None, Some([]));
    assert Sound(t);
    assert SystemsIn([]) == map[] && Directories([]) == {};
    assert Pk(5) in t.monitors && !Matched(t.monitors, Directories(Rows(f.monitors)), Pk(5))
      && Pins(t, f, t.monitors[Pk(5)]);
  }
}
