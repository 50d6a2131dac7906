// What the review reports, in natural keys instead of text: the text keys and
// fingerprints tell rows apart exactly as the natural keys and fields do.
module PreviewMeaning {
  import opened Common
  import opened NaturalKeys
  import opened Text
  import opened RadioTables
  import opened RadioDatabase
  import opened BackupFile
  import opened Preview

  // ---- Text keys identify natural keys ----

  lemma {:induction false} KeyTextInjective(a: RadioKey, b: RadioKey)
    requires KeyText(a) == KeyText(b)
    ensures a == b
  {
    FormatIntChars(a.0);
    FormatIntChars(b.0);
    assert KeyText(a) == FormatInt(a.0) + [':'] + FormatInt(a.1);
    assert KeyText(b) == FormatInt(b.0) + [':'] + FormatInt(b.1);
    CutUnique(FormatInt(a.0), FormatInt(a.1), FormatInt(b.0), FormatInt(b.1), ':');
    FormatIntInjective(a.0, b.0);
    FormatIntInjective(a.1, b.1);
  }

  /** index holds, in text, exactly the entries of listed; back undoes text. */
  ghost predicate Reflects<K(!new), V(!new)>(index: map<string, string>, listed: map<K, V>, text: K -> string,
    fp: V -> string, back: map<string, K>)
  {
    && (forall k :: k in listed ==> text(k) in index && index[text(k)] == fp(listed[k]))
    && (forall s :: s in index ==> s in back && back[s] in listed && text(back[s]) == s)
  }

  ghost predicate OneToOne<K(!new)>(text: K -> string) {
    forall a, b :: text(a) == text(b) ==> a == b
  }

  lemma ReflectsStep<K(!new), V(!new)>(index: map<string, string>, listed: map<K, V>, text: K -> string,
    fp: V -> string, back: map<string, K>, k: K, v: V)
    requires Reflects(index, listed, text, fp, back) && OneToOne(text)
    ensures Reflects(index[text(k) := fp(v)], listed[k := v], text, fp, back[text(k) := k])
  {
  }

  ghost function Missing<K(!new)>(keys: map<Pk, K>, listed: set<K>): set<Pk> {
    set pk | pk in keys && keys[pk] !in listed
  }

  ghost function Differing<K(!new), V(!new)>(keys: map<Pk, K>, vals: map<Pk, V>, listed: map<K, V>,
    fp: V -> string): set<Pk>
    requires keys.Keys == vals.Keys
  {
    set pk | pk in keys && keys[pk] in listed && fp(vals[pk]) != fp(listed[keys[pk]])
  }

  ghost predicate Reduces<T(!new), K(!new), V(!new)>(m: map<Pk, T>, reduce: T -> Option<KeyedRow>, keys: map<Pk, K>,
    vals: map<Pk, V>, text: K -> string, fp: V -> string)
  {
    && keys.Keys == m.Keys && vals.Keys == m.Keys
    && forall pk :: pk in m ==> reduce(m[pk]) == Some(KeyedRow(text(keys[pk]), fp(vals[pk])))
  }

  /** What a comparison reports, in natural keys. */
  lemma {:induction false} DiffMeaning<T(!new), K(!new), V(!new)>(file: seq<KeyedRow>, rows: seq<Row<T>>, m: map<Pk, T>,
    reduce: T -> Option<KeyedRow>, keys: map<Pk, K>, vals: map<Pk, V>, listed: map<K, V>, text: K -> string,
    fp: V -> string, back: map<string, K>)
    requires Lists(rows, m) && Reduces(m, reduce, keys, vals, text, fp)
    requires Reflects(Index(file), listed, text, fp, back) && OneToOne(text)
    ensures keys.Keys == vals.Keys
    ensures var e := Diff(file, Built(rows, reduce), true);
            && e.removed == |Missing(keys, listed.Keys)|
            && e.changed == |Differing(keys, vals, listed, fp)|
            && e.added == |listed.Keys - keys.Values|
  {
    DiffListed(file, rows, m, reduce);
    RemovedMeaning(Index(file), m, reduce, keys, vals, listed, text, fp, back);
    ChangedMeaning(Index(file), m, reduce, keys, vals, listed, text, fp, back);
    AddedMeaning(Index(file), m, reduce, keys, vals, listed, text, fp, back);
  }

  lemma RemovedMeaning<T(!new), K(!new), V(!new)>(index: map<string, string>, m: map<Pk, T>,
    reduce: T -> Option<KeyedRow>, keys: map<Pk, K>, vals: map<Pk, V>, listed: map<K, V>, text: K -> string,
    fp: V -> string, back: map<string, K>)
    requires Reduces(m, reduce, keys, vals, text, fp) && Reflects(index, listed, text, fp, back) && OneToOne(text)
    ensures Where(m, reduce, RemovedTest(index)) == Missing(keys, listed.Keys)
  {
    forall pk | pk in m
      ensures Passes(reduce, RemovedTest(index), m[pk]) <==> keys[pk] !in listed
    {
      var s := text(keys[pk]);
      if s in index { assert back[s] == keys[pk]; }
    }
  }

  lemma ChangedMeaning<T(!new), K(!new), V(!new)>(index: map<string, string>, m: map<Pk, T>,
    reduce: T -> Option<KeyedRow>, keys: map<Pk, K>, vals: map<Pk, V>, listed: map<K, V>, text: K -> string,
    fp: V -> string, back: map<string, K>)
    requires Reduces(m, reduce, keys, vals, text, fp) && Reflects(index, listed, text, fp, back) && OneToOne(text)
    ensures Where(m, reduce, ChangedTest(index)) == Differing(keys, vals, listed, fp)
  {
    forall pk | pk in m
      ensures Passes(reduce, ChangedTest(index), m[pk]) <==> keys[pk] in listed && fp(vals[pk]) != fp(listed[keys[pk]])
    {
      var s := text(keys[pk]);
      if s in index { assert back[s] == keys[pk]; }
    }
  }

  /** A live text key is a live natural key. */
  lemma LiveKey<T(!new), K(!new), V(!new)>(m: map<Pk, T>, reduce: T -> Option<KeyedRow>, keys: map<Pk, K>,
    vals: map<Pk, V>, text: K -> string, fp: V -> string, k: K)
    requires Reduces(m, reduce, keys, vals, text, fp) && OneToOne(text)
    ensures text(k) in KeysIn(m, reduce) <==> k in keys.Values
  {
    if text(k) in KeysIn(m, reduce) {
      var pk :| pk in m && reduce(m[pk]).Some? && reduce(m[pk]).value.key == text(k);
      assert keys[pk] == k;
    }
    if k in keys.Values {
      var pk :| pk in keys && keys[pk] == k;
      assert reduce(m[pk]).value.key == text(k);
    }
  }

  lemma AddedMeaning<T(!new), K(!new), V(!new)>(index: map<string, string>, m: map<Pk, T>,
    reduce: T -> Option<KeyedRow>, keys: map<Pk, K>, vals: map<Pk, V>, listed: map<K, V>, text: K -> string,
    fp: V -> string, back: map<string, K>)
    requires Reduces(m, reduce, keys, vals, text, fp) && Reflects(index, listed, text, fp, back) && OneToOne(text)
    ensures |index.Keys - KeysIn(m, reduce)| == |listed.Keys - keys.Values|
  {
    var s, image := listed.Keys - keys.Values, index.Keys - KeysIn(m, reduce);
    forall k | k in s
      ensures text(k) in image
    {
      LiveKey(m, reduce, keys, vals, text, fp, k);
    }
    forall b | b in image
      ensures b in back && back[b] in s && text(back[b]) == b
    {
      LiveKey(m, reduce, keys, vals, text, fp, back[b]);
    }
    SameSize(s, image, map k | k in s :: text(k), back);
  }

  // ---- The file's text index reflects what the file says ----

  lemma {:induction false} SystemIndex(rows: seq<Row<System>>) returns (back: map<string, int>)
    ensures Reflects(Index(Built(rows, SystemRow)), SystemsIn(rows), FormatInt, SystemPrint, back)
  {
    if rows == [] {
      back := map[];
    } else {
      var n := |rows| - 1;
      back := SystemIndex(rows[..n]);
      assert rows[..n + 1] == rows;
      BuiltStep(rows, n, SystemRow, RemovedTest(map[]));
      FormatIntOneToOne();
      var s := rows[n].value;
      ReflectsStep(Index(Built(rows[..n], SystemRow)), SystemsIn(rows[..n]), FormatInt, SystemPrint, back, s.number,
        s.fields);
      back := back[FormatInt(s.number) := s.number];
    }
  }

  function SystemPrint(s: SystemFields): string {
    JoinPrint(SystemParts(s))
  }

  function TalkgroupPrint(m: TalkgroupMeaning): string {
    JoinPrint(TalkgroupParts(m))
  }

  function UnitPrint(u: UnitFields): string {
    JoinPrint(UnitParts(u))
  }

  lemma FormatIntOneToOne()
    ensures OneToOne(FormatInt)
  {
    forall a, b | FormatInt(a) == FormatInt(b)
      ensures a == b
    {
      FormatIntInjective(a, b);
    }
  }

  lemma KeyTextOneToOne()
    ensures OneToOne(KeyText)
  {
    forall a, b | KeyText(a) == KeyText(b)
      ensures a == b
    {
      KeyTextInjective(a, b);
    }
  }

  function TalkgroupReduce(numbers: map<Pk, int>, groups: map<Pk, string>,
    tags: map<Pk, string>): Talkgroup -> Option<KeyedRow> {
    tg => TalkgroupRow(numbers, groups, tags, tg)
  }

  function UnitReduce(numbers: map<Pk, int>): Unit -> Option<KeyedRow> {
    u => UnitRow(numbers, u)
  }

  lemma {:induction false} TalkgroupIndex(rows: seq<Row<Talkgroup>>, numbers: map<Pk, int>, groups: map<Pk, string>,
    tags: map<Pk, string>)
    returns (back: map<string, RadioKey>)
    ensures Reflects(Index(Built(rows, TalkgroupReduce(numbers, groups, tags))),
            TalkgroupsIn(rows, numbers, groups, tags), KeyText, TalkgroupPrint, back)
  {
    var reduce := TalkgroupReduce(numbers, groups, tags);
    if rows == [] {
      back := map[];
    } else {
      var n := |rows| - 1;
      back := TalkgroupIndex(rows[..n], numbers, groups, tags);
      assert rows[..n + 1] == rows;
      BuiltStep(rows, n, reduce, RemovedTest(map[]));
      var tg := rows[n].value;
      if tg.system in numbers {
        KeyTextOneToOne();
        var k := (numbers[tg.system], tg.number);
        var v := TalkgroupMeaning(tg.fields, LabelOf(tg.group, groups), LabelOf(tg.tag, tags));
        ReflectsStep(Index(Built(rows[..n], reduce)), TalkgroupsIn(rows[..n], numbers, groups, tags), KeyText,
          TalkgroupPrint, back, k, v);
        back := back[KeyText(k) := k];
      }
    }
  }

  lemma {:induction false} UnitIndex(rows: seq<Row<Unit>>, numbers: map<Pk, int>) returns (back: map<string, RadioKey>)
    ensures Reflects(Index(Built(rows, UnitReduce(numbers))), UnitsIn(rows, numbers), KeyText, UnitPrint, back)
  {
    var reduce := UnitReduce(numbers);
    if rows == [] {
      back := map[];
    } else {
      var n := |rows| - 1;
      back := UnitIndex(rows[..n], numbers);
      assert rows[..n + 1] == rows;
      BuiltStep(rows, n, reduce, RemovedTest(map[]));
      var u := rows[n].value;
      if u.system in numbers {
        KeyTextOneToOne();
        var k := (numbers[u.system], u.number);
        ReflectsStep(Index(Built(rows[..n], reduce)), UnitsIn(rows[..n], numbers), KeyText, UnitPrint, back, k,
          u.fields);
        back := back[KeyText(k) := k];
      }
    }
  }

  // Labels are compared trimmed and ignoring case, and have no fingerprint.

  function Folded(rows: seq<Row<string>>): map<string, string> {
    if rows == [] then map[] else Folded(rows[..|rows| - 1])[LabelKey(rows[|rows| - 1].value) := ""]
  }

  function Same(s: string): string {
    s
  }

  lemma {:induction false} LabelIndex(rows: seq<Row<string>>) returns (back: map<string, string>)
    ensures Reflects(Index(Built(rows, LabelRow)), Folded(rows), Same, Same, back)
  {
    if rows == [] {
      back := map[];
    } else {
      var n := |rows| - 1;
      back := LabelIndex(rows[..n]);
      assert rows[..n + 1] == rows;
      BuiltStep(rows, n, LabelRow, RemovedTest(map[]));
      var k := LabelKey(rows[n].value);
      ReflectsStep(Index(Built(rows[..n], LabelRow)), Folded(rows[..n]), Same, Same, back, k, "");
      back := back[k := k];
    }
  }

  /** The file's monitor for each directory: the last row wins. */
  function MonitorsIn(rows: seq<Row<Monitor>>): map<string, Monitor> {
    if rows == [] then map[]
    else MonitorsIn(rows[..|rows| - 1])[rows[|rows| - 1].value.directory := rows[|rows| - 1].value]
  }

  function MonitorPrint(m: Monitor): string {
    JoinPrint(MonitorParts(m))
  }

  lemma {:induction false} MonitorIndex(rows: seq<Row<Monitor>>) returns (back: map<string, string>)
    ensures Reflects(Index(Built(rows, MonitorRow)), MonitorsIn(rows), Same, MonitorPrint, back)
  {
    if rows == [] {
      back := map[];
    } else {
      var n := |rows| - 1;
      back := MonitorIndex(rows[..n]);
      assert rows[..n + 1] == rows;
      BuiltStep(rows, n, MonitorRow, RemovedTest(map[]));
      var m := rows[n].value;
      ReflectsStep(Index(Built(rows[..n], MonitorRow)), MonitorsIn(rows[..n]), Same, MonitorPrint, back, m.directory,
        m);
      back := back[m.directory := m.directory];
    }
  }

  // ---- The live side ----

  lemma {:induction false} ListedNumbers(rows: seq<Row<System>>, n: nat, m: map<Pk, System>)
    requires Lists(rows, m) && n <= |rows|
    ensures Numbers(rows[..n]) == SystemKeys(Prefix(rows, n))
  {
    if n > 0 {
      ListedNumbers(rows, n - 1, m);
      assert rows[..n][..n - 1] == rows[..n - 1];
      SystemMapsWritten(Prefix(rows, n - 1), rows[n - 1].id, rows[n - 1].value);
    }
  }

  lemma {:induction false} ListedNames(rows: seq<Row<string>>, n: nat, m: map<Pk, string>)
    requires Lists(rows, m) && n <= |rows|
    ensures Names(rows[..n]) == Prefix(rows, n)
  {
    if n > 0 {
      ListedNames(rows, n - 1, m);
      assert rows[..n][..n - 1] == rows[..n - 1];
    }
  }

  /** The maps the review builds from the live listings are the tables' own keys. */
  lemma LiveMaps(systems: seq<Row<System>>, groups: seq<Row<string>>, tags: seq<Row<string>>, t: Tables)
    requires Lists(systems, t.systems) && Lists(groups, t.groups) && Lists(tags, t.tags)
    ensures Numbers(systems) == SystemKeys(t.systems) && Names(groups) == t.groups && Names(tags) == t.tags
  {
    ListedNumbers(systems, |systems|, t.systems);
    ListedNames(groups, |groups|, t.groups);
    ListedNames(tags, |tags|, t.tags);
    PrefixAll(systems, t.systems);
    PrefixAll(groups, t.groups);
    PrefixAll(tags, t.tags);
    assert systems[..|systems|] == systems && groups[..|groups|] == groups && tags[..|tags|] == tags;
  }

  lemma LiveReduces(t: Tables)
    requires ForeignKeys(t)
    ensures Reduces(t.systems, SystemRow, SystemKeys(t.systems), SystemVals(t.systems), FormatInt, SystemPrint)
    ensures Reduces(t.talkgroups, TalkgroupReduce(SystemKeys(t.systems), t.groups, t.tags), TalkgroupKeys(t),
            TalkgroupVals(t), KeyText, TalkgroupPrint)
    ensures Reduces(t.units, UnitReduce(SystemKeys(t.systems)), UnitKeys(t), UnitVals(t), KeyText, UnitPrint)
  {
    assert forall pk :: pk in t.talkgroups ==> TalkgroupRefs(t, t.talkgroups[pk]);
  }

  /** A live label's comparison key, by primary key. */
  ghost function LabelKeys(m: map<Pk, string>): map<Pk, string> {
    map pk | pk in m :: LabelKey(m[pk])
  }

  ghost function NoPrint<T>(m: map<Pk, T>): map<Pk, string> {
    map pk | pk in m :: ""
  }

  ghost function DirectoryOf(m: map<Pk, Monitor>): map<Pk, string> {
    map pk | pk in m :: m[pk].directory
  }

  // ---- The review ----

  datatype BackupPreview = BackupPreview(
    systems: Entity, talkgroups: Entity, units: Entity, groups: Entity, tags: Entity, monitors: Entity)

  /** What the review says of one table the file carries. */
  ghost predicate Reports<K(!new), V(!new)>(e: Entity, carried: bool, keys: map<Pk, K>, vals: map<Pk, V>,
    listed: map<K, V>, fp: V -> string)
    requires keys.Keys == vals.Keys
  {
    && (carried ==>
          && e.removed == |Missing(keys, listed.Keys)|
          && e.changed == |Differing(keys, vals, listed, fp)|
          && e.added == |listed.Keys - keys.Values|)
    && (!carried ==> e.removed == 0 && e.changed == 0 && e.added == 0)
  }

  /** How many rows the review saw: those of the file, if it carries the table, and the live ones. */
  predicate Sized(e: Entity, carried: bool, inFile: nat, now: nat) {
    e.included == carried && e.inFile == (if carried then inFile else 0) && e.now == now
  }

  /** The rows whose system the file lists. */
  function TalkgroupsKnown(rows: seq<Row<Talkgroup>>, numbers: map<Pk, int>): nat {
    if rows == [] then 0
    else
      TalkgroupsKnown(rows[..|rows| - 1], numbers) + (if rows[|rows| - 1].value.system in numbers then 1 else 0)
  }

  function UnitsKnown(rows: seq<Row<Unit>>, numbers: map<Pk, int>): nat {
    if rows == [] then 0
    else
      UnitsKnown(rows[..|rows| - 1], numbers) + (if rows[|rows| - 1].value.system in numbers then 1 else 0)
  }

  lemma {:induction false} TalkgroupsBuilt(rows: seq<Row<Talkgroup>>, numbers: map<Pk, int>, groups: map<Pk, string>,
    tags: map<Pk, string>)
    ensures |Built(rows, TalkgroupReduce(numbers, groups, tags))| == TalkgroupsKnown(rows, numbers)
  {
    if rows != [] { TalkgroupsBuilt(rows[..|rows| - 1], numbers, groups, tags); }
  }

  lemma {:induction false} UnitsBuilt(rows: seq<Row<Unit>>, numbers: map<Pk, int>)
    ensures |Built(rows, UnitReduce(numbers))| == UnitsKnown(rows, numbers)
  {
    if rows != [] { UnitsBuilt(rows[..|rows| - 1], numbers); }
  }

  lemma {:induction false} AllBuilt<T>(rows: seq<Row<T>>, reduce: T -> Option<KeyedRow>)
    requires forall i :: 0 <= i < |rows| ==> reduce(rows[i].value).Some?
    ensures |Built(rows, reduce)| == |rows|
  {
    if rows != [] { AllBuilt(rows[..|rows| - 1], reduce); }
  }

  lemma {:induction false} PrefixSize<T(!new)>(rows: seq<Row<T>>, n: nat, m: map<Pk, T>)
    requires Lists(rows, m) && n <= |rows|
    ensures |Prefix(rows, n)| == n
  {
    if n > 0 {
      PrefixSize(rows, n - 1, m);
      PrefixIds(rows, n - 1, m);
    }
  }

  /** A listing of a table reduces to as many rows as the table has. */
  lemma LiveBuilt<T(!new), K(!new), V(!new)>(rows: seq<Row<T>>, m: map<Pk, T>, reduce: T -> Option<KeyedRow>,
    keys: map<Pk, K>, vals: map<Pk, V>, text: K -> string, fp: V -> string)
    requires Lists(rows, m) && Reduces(m, reduce, keys, vals, text, fp)
    ensures |Built(rows, reduce)| == |m|
  {
    AllBuilt(rows, reduce);
    PrefixSize(rows, |rows|, m);
    PrefixAll(rows, m);
  }

  ghost predicate PreviewSays(p: BackupPreview, t: Tables, f: File)
    requires ForeignKeys(t)
  {
    && Reports(p.systems, f.systems.Some?, SystemKeys(t.systems), SystemVals(t.systems), SystemsIn(Rows(f.systems)),
       SystemPrint)
    && Reports(p.talkgroups, f.talkgroups.Some?, TalkgroupKeys(t), TalkgroupVals(t), FileTalkgroups(f), TalkgroupPrint)
    && Reports(p.units, f.units.Some?, UnitKeys(t), UnitVals(t), FileUnits(f), UnitPrint)
    && Reports(p.groups, f.groups.Some?, LabelKeys(t.groups), NoPrint(t.groups), Folded(Rows(f.groups)), Same)
    && Reports(p.tags, f.tags.Some?, LabelKeys(t.tags), NoPrint(t.tags), Folded(Rows(f.tags)), Same)
    && Reports(p.monitors, f.monitors.Some?, DirectoryOf(t.monitors), t.monitors, MonitorsIn(Rows(f.monitors)),
       MonitorPrint)
    && Sizes(p, t, f)
  }

  /** A row of a system the file does not list is skipped. */
  predicate Sizes(p: BackupPreview, t: Tables, f: File) {
    var numbers := Numbers(Rows(f.systems));
    && Sized(p.systems, f.systems.Some?, |Rows(f.systems)|, |t.systems|)
    && Sized(p.talkgroups, f.talkgroups.Some?, TalkgroupsKnown(Rows(f.talkgroups), numbers), |t.talkgroups|)
    && Sized(p.units, f.units.Some?, UnitsKnown(Rows(f.units), numbers), |t.units|)
    && Sized(p.groups, f.groups.Some?, |Rows(f.groups)|, |t.groups|)
    && Sized(p.tags, f.tags.Some?, |Rows(f.tags)|, |t.tags|)
    && Sized(p.monitors, f.monitors.Some?, |Rows(f.monitors)|, |t.monitors|)
  }

  method PreviewTable<T(!new)>(file: seq<Row<T>>, live: seq<Row<T>>, fileReduce: T -> Option<KeyedRow>,
    liveReduce: T -> Option<KeyedRow>, included: bool)
    returns (e: Entity)
    ensures e == Diff(Built(file, fileReduce), Built(live, liveReduce), included)
  {
    var fileRows := BuildRows(file, fileReduce);
    var liveRows := BuildRows(live, liveReduce);
    e := DiffRows(fileRows, liveRows, included);
  }

  lemma SystemsReported(e: Entity, rows: seq<Row<System>>, t: Tables, f: File)
    requires ForeignKeys(t) && Lists(rows, t.systems)
    requires e == Diff(Built(Rows(f.systems), SystemRow), Built(rows, SystemRow), f.systems.Some?)
    ensures Reports(e, f.systems.Some?, SystemKeys(t.systems), SystemVals(t.systems), SystemsIn(Rows(f.systems)),
            SystemPrint)
    ensures Sized(e, f.systems.Some?, |Rows(f.systems)|, |t.systems|)
  {
    AllBuilt(Rows(f.systems), SystemRow);
    hide Reflects, OneToOne, Reduces, Index, Built, SystemPrint, ForeignKeys;
    var back := SystemIndex(Rows(f.systems));
    FormatIntOneToOne();
    LiveReduces(t);
    DiffMeaning(Built(Rows(f.systems), SystemRow), rows, t.systems, SystemRow, SystemKeys(t.systems),
      SystemVals(t.systems), SystemsIn(Rows(f.systems)), FormatInt, SystemPrint, back);
    LiveBuilt(rows, t.systems, SystemRow, SystemKeys(t.systems), SystemVals(t.systems), FormatInt, SystemPrint);
  }

  lemma TalkgroupsReported(e: Entity, rows: seq<Row<Talkgroup>>, t: Tables, f: File)
    requires ForeignKeys(t) && Lists(rows, t.talkgroups)
    requires e == Diff(Built(Rows(f.talkgroups), TalkgroupReduce(Numbers(Rows(f.systems)), Names(Rows(f.groups)),
             Names(Rows(f.tags)))),
                       Built(rows, TalkgroupReduce(SystemKeys(t.systems), t.groups, t.tags)), f.talkgroups.Some?)
    ensures Reports(e, f.talkgroups.Some?, TalkgroupKeys(t), TalkgroupVals(t), FileTalkgroups(f), TalkgroupPrint)
    ensures Sized(e, f.talkgroups.Some?, TalkgroupsKnown(Rows(f.talkgroups), Numbers(Rows(f.systems))), |t.talkgroups|)
  {
    hide Reflects, OneToOne, Reduces, Index, Built, TalkgroupPrint, TalkgroupReduce, ForeignKeys;
    var fileReduce := TalkgroupReduce(Numbers(Rows(f.systems)), Names(Rows(f.groups)), Names(Rows(f.tags)));
    var back := TalkgroupIndex(Rows(f.talkgroups), Numbers(Rows(f.systems)), Names(Rows(f.groups)),
      Names(Rows(f.tags)));
    KeyTextOneToOne();
    LiveReduces(t);
    DiffMeaning(Built(Rows(f.talkgroups), fileReduce), rows, t.talkgroups,
      TalkgroupReduce(SystemKeys(t.systems), t.groups, t.tags),
      TalkgroupKeys(t), TalkgroupVals(t), FileTalkgroups(f), KeyText, TalkgroupPrint, back);
    TalkgroupsBuilt(Rows(f.talkgroups), Numbers(Rows(f.systems)), Names(Rows(f.groups)), Names(Rows(f.tags)));
    LiveBuilt(rows, t.talkgroups, TalkgroupReduce(SystemKeys(t.systems), t.groups, t.tags), TalkgroupKeys(t),
      TalkgroupVals(t), KeyText, TalkgroupPrint);
  }

  lemma UnitsReported(e: Entity, rows: seq<Row<Unit>>, t: Tables, f: File)
    requires ForeignKeys(t) && Lists(rows, t.units)
    requires e == Diff(Built(Rows(f.units), UnitReduce(Numbers(Rows(f.systems)))),
             Built(rows, UnitReduce(SystemKeys(t.systems))), f.units.Some?)
    ensures Reports(e, f.units.Some?, UnitKeys(t), UnitVals(t), FileUnits(f), UnitPrint)
    ensures Sized(e, f.units.Some?, UnitsKnown(Rows(f.units), Numbers(Rows(f.systems))), |t.units|)
  {
    hide Reflects, OneToOne, Reduces, Index, Built, UnitPrint, UnitReduce, ForeignKeys;
    var back := UnitIndex(Rows(f.units), Numbers(Rows(f.systems)));
    KeyTextOneToOne();
    LiveReduces(t);
    DiffMeaning(Built(Rows(f.units), UnitReduce(Numbers(Rows(f.systems)))), rows, t.units,
      UnitReduce(SystemKeys(t.systems)),
      UnitKeys(t), UnitVals(t), FileUnits(f), KeyText, UnitPrint, back);
    UnitsBuilt(Rows(f.units), Numbers(Rows(f.systems)));
    LiveBuilt(rows, t.units, UnitReduce(SystemKeys(t.systems)), UnitKeys(t), UnitVals(t), KeyText, UnitPrint);
  }

  lemma LabelsReported(e: Entity, rows: seq<Row<string>>, m: map<Pk, string>, carried: Option<seq<Row<string>>>)
    requires Lists(rows, m)
    requires e == Diff(Built(Rows(carried), LabelRow), Built(rows, LabelRow), carried.Some?)
    ensures Reports(e, carried.Some?, LabelKeys(m), NoPrint(m), Folded(Rows(carried)), Same)
    ensures Sized(e, carried.Some?, |Rows(carried)|, |m|)
  {
    var back := LabelIndex(Rows(carried));
    AllBuilt(Rows(carried), LabelRow);
    LiveBuilt(rows, m, LabelRow, LabelKeys(m), NoPrint(m), Same, Same);
    DiffMeaning(Built(Rows(carried), LabelRow), rows, m, LabelRow, LabelKeys(m), NoPrint(m), Folded(Rows(carried)),
      Same, Same, back);
  }

  lemma MonitorsReported(e: Entity, rows: seq<Row<Monitor>>, m: map<Pk, Monitor>, carried: Option<seq<Row<Monitor>>>)
    requires Lists(rows, m)
    requires e == Diff(Built(Rows(carried), MonitorRow), Built(rows, MonitorRow), carried.Some?)
    ensures Reports(e, carried.Some?, DirectoryOf(m), m, MonitorsIn(Rows(carried)), MonitorPrint)
    ensures Sized(e, carried.Some?, |Rows(carried)|, |m|)
  {
    var back := MonitorIndex(Rows(carried));
    AllBuilt(Rows(carried), MonitorRow);
    LiveBuilt(rows, m, MonitorRow, DirectoryOf(m), m, Same, MonitorPrint);
    DiffMeaning(Built(Rows(carried), MonitorRow), rows, m, MonitorRow, DirectoryOf(m), m, MonitorsIn(Rows(carried)),
      Same, MonitorPrint, back);
  }

  method SystemNumbers(rows: seq<Row<System>>) returns (out: map<Pk, int>)
    ensures out == Numbers(rows)
  {
    out := map[];
    for i := 0 to |rows|
      invariant out == Numbers(rows[..i])
    {
      assert rows[..i + 1][..i] == rows[..i];
      out := out[rows[i].id := rows[i].value.number];
    }
    assert rows[..|rows|] == rows;
  }

  method LabelNames(rows: seq<Row<string>>) returns (out: map<Pk, string>)
    ensures out == Names(rows)
  {
    out := map[];
    for i := 0 to |rows|
      invariant out == Names(rows[..i])
    {
      assert rows[..i + 1][..i] == rows[..i];
      out := out[rows[i].id := rows[i].value];
    }
    assert rows[..|rows|] == rows;
  }

  // One comparison each.

  method PreviewSystems(db: Database, f: File, systems: seq<Row<System>>) returns (e: Entity)
    requires db.Valid() && ForeignKeys(db.Contents()) && Lists(systems, db.systems)
    ensures var t := db.Contents();
            Reports(e, f.systems.Some?, SystemKeys(t.systems), SystemVals(t.systems), SystemsIn(Rows(f.systems)),
              SystemPrint)
    ensures Sized(e, f.systems.Some?, |Rows(f.systems)|, |db.systems|)
  {
    hide Sound, ForeignKeys, Lists, Reports, Sized, Diff, Built, SystemsIn;
    e := PreviewTable(Rows(f.systems), systems, SystemRow, SystemRow, f.systems.Some?);
    SystemsReported(e, systems, db.Contents(), f);
  }

  method PreviewTalkgroups(db: Database, f: File, fileSys: map<Pk, int>, fileGroups: map<Pk, string>,
    fileTags: map<Pk, string>,
    liveSys: map<Pk, int>, liveGroups: map<Pk, string>, liveTags: map<Pk, string>) returns (e: Entity)
    requires db.Valid() && ForeignKeys(db.Contents())
    requires fileSys == Numbers(Rows(f.systems)) && fileGroups == Names(Rows(f.groups))
             && fileTags == Names(Rows(f.tags))
    requires liveSys == SystemKeys(db.systems) && liveGroups == db.groups && liveTags == db.tags
    ensures var t := db.Contents();
            Reports(e, f.talkgroups.Some?, TalkgroupKeys(t), TalkgroupVals(t), FileTalkgroups(f), TalkgroupPrint)
    ensures Sized(e, f.talkgroups.Some?, TalkgroupsKnown(Rows(f.talkgroups), fileSys), |db.talkgroups|)
  {
    hide Sound, ForeignKeys, Lists, Reports, Sized, Diff, Built, FileTalkgroups;
    var talkgroups := ListRows(db.talkgroups);
    e := PreviewTable(Rows(f.talkgroups), talkgroups, TalkgroupReduce(fileSys, fileGroups, fileTags),
      TalkgroupReduce(liveSys, liveGroups, liveTags), f.talkgroups.Some?);
    TalkgroupsReported(e, talkgroups, db.Contents(), f);
  }

  method PreviewUnits(db: Database, f: File, fileSys: map<Pk, int>, liveSys: map<Pk, int>) returns (e: Entity)
    requires db.Valid() && ForeignKeys(db.Contents())
    requires fileSys == Numbers(Rows(f.systems)) && liveSys == SystemKeys(db.systems)
    ensures var t := db.Contents(); Reports(e, f.units.Some?, UnitKeys(t), UnitVals(t), FileUnits(f), UnitPrint)
    ensures Sized(e, f.units.Some?, UnitsKnown(Rows(f.units), fileSys), |db.units|)
  {
    hide Sound, ForeignKeys, Lists, Reports, Sized, Diff, Built, FileUnits;
    var units := ListRows(db.units);
    e := PreviewTable(Rows(f.units), units, UnitReduce(fileSys), UnitReduce(liveSys), f.units.Some?);
    UnitsReported(e, units, db.Contents(), f);
  }

  method PreviewLabels(live: seq<Row<string>>, carried: Option<seq<Row<string>>>, ghost m: map<Pk, string>)
    returns (e: Entity)
    requires Lists(live, m)
    ensures Reports(e, carried.Some?, LabelKeys(m), NoPrint(m), Folded(Rows(carried)), Same)
    ensures Sized(e, carried.Some?, |Rows(carried)|, |m|)
  {
    hide Lists, Reports, Sized, Diff, Built;
    e := PreviewTable(Rows(carried), live, LabelRow, LabelRow, carried.Some?);
    LabelsReported(e, live, m, carried);
  }

  method PreviewMonitors(db: Database, carried: Option<seq<Row<Monitor>>>) returns (e: Entity)
    ensures Reports(e, carried.Some?, DirectoryOf(db.monitors), db.monitors, MonitorsIn(Rows(carried)), MonitorPrint)
    ensures Sized(e, carried.Some?, |Rows(carried)|, |db.monitors|)
  {
    hide Lists, Reports, Sized, Diff, Built;
    var monitors := ListRows(db.monitors);
    e := PreviewTable(Rows(carried), monitors, MonitorRow, MonitorRow, carried.Some?);
    MonitorsReported(e, monitors, db.monitors, carried);
  }

  /** The review reads the listings in whatever order they come and says the same. */
  method PreviewBackup(db: Database, f: File) returns (p: BackupPreview)
    requires db.Valid()
    ensures ForeignKeys(db.Contents()) && PreviewSays(p, db.Contents(), f)
  {
    hide Sound, ForeignKeys, Lists, Reports, Sized, SystemsIn, Folded, FileTalkgroups, FileUnits;
    SoundKeys(db.Contents());
    var systems := ListRows(db.systems);
    var groups := ListRows(db.groups);
    var tags := ListRows(db.tags);
    LiveMaps(systems, groups, tags, db.Contents());
    var fileSys := SystemNumbers(Rows(f.systems));
    var liveSys := SystemNumbers(systems);
    var fileGroups := LabelNames(Rows(f.groups));
    var liveGroups := LabelNames(groups);
    var fileTags := LabelNames(Rows(f.tags));
    var liveTags := LabelNames(tags);
    var s := PreviewSystems(db, f, systems);
    var tg := PreviewTalkgroups(db, f, fileSys, fileGroups, fileTags, liveSys, liveGroups, liveTags);
    var u := PreviewUnits(db, f, fileSys, liveSys);
    var g := PreviewLabels(groups, f.groups, db.groups);
    var h := PreviewLabels(tags, f.tags, db.tags);
    var m := PreviewMonitors(db, f.monitors);
    p := BackupPreview(s, tg, u, g, h, m);
  }
}
