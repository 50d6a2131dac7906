// The review step of a restore: an independent comparison of the file with
// the live rows, on text keys and fingerprints.
module Preview {
  import opened Common
  import opened NaturalKeys
  import opened Text
  import opened RadioTables
  import opened RadioDatabase
  import opened BackupFile

  /** A row reduced to its natural key and a fingerprint of the fields a restore would write. */
  datatype KeyedRow = KeyedRow(key: string, fingerprint: string)

  datatype Entity = Entity(included: bool, inFile: nat, now: nat, added: nat, changed: nat, removed: nat)

  // ---- Comparing two lists of keyed rows ----

  /** The file's fingerprint of each key: the last row wins. */
  function Index(rows: seq<KeyedRow>): map<string, string> {
    if rows == [] then map[]
    else Index(rows[..|rows| - 1])[rows[|rows| - 1].key := rows[|rows| - 1].fingerprint]
  }

  function KeysOf(rows: seq<KeyedRow>): set<string> {
    if rows == [] then {} else KeysOf(rows[..|rows| - 1]) + {rows[|rows| - 1].key}
  }

  predicate IsRemoved(index: map<string, string>, r: KeyedRow) {
    r.key !in index
  }

  predicate IsChanged(index: map<string, string>, r: KeyedRow) {
    r.key in index && index[r.key] != r.fingerprint
  }

  function RemovedTest(index: map<string, string>): KeyedRow -> bool {
    r => IsRemoved(index, r)
  }

  function ChangedTest(index: map<string, string>): KeyedRow -> bool {
    r => IsChanged(index, r)
  }

  function CountIf(test: KeyedRow -> bool, rows: seq<KeyedRow>): nat {
    if rows == [] then 0 else CountIf(test, rows[..|rows| - 1]) + (if test(rows[|rows| - 1]) then 1 else 0)
  }

  function Diff(file: seq<KeyedRow>, live: seq<KeyedRow>, included: bool): Entity {
    if !included then Entity(false, 0, |live|, 0, 0, 0)
    else
      Entity(true, |file|, |live|, |Index(file).Keys - KeysOf(live)|, CountIf(ChangedTest(Index(file)), live),
        CountIf(RemovedTest(Index(file)), live))
  }

  method IndexRows(file: seq<KeyedRow>) returns (inFile: map<string, string>)
    ensures inFile == Index(file)
  {
    inFile := map[];
    for i := 0 to |file|
      invariant inFile == Index(file[..i])
    {
      assert file[..i + 1][..i] == file[..i];
      inFile := inFile[file[i].key := file[i].fingerprint];
    }
    assert file[..|file|] == file;
  }

  method CompareLive(inFile: map<string, string>, live: seq<KeyedRow>)
    returns (seen: set<string>, changed: nat, removed: nat)
    ensures seen == KeysOf(live) * inFile.Keys
    ensures changed == CountIf(ChangedTest(inFile), live) && removed == CountIf(RemovedTest(inFile), live)
  {
    seen, changed, removed := {}, 0, 0;
    for i := 0 to |live|
      invariant seen == KeysOf(live[..i]) * inFile.Keys
      invariant changed == CountIf(ChangedTest(inFile), live[..i]) && removed == CountIf(RemovedTest(inFile), live[..i])
    {
      var r := live[i];
      assert live[..i + 1][..i] == live[..i];
      if r.key !in inFile {
        removed := removed + 1;
      } else {
        seen := seen + {r.key};
        if inFile[r.key] != r.fingerprint {
          changed := changed + 1;
        }
      }
    }
    assert live[..|live|] == live;
  }

  method CountUnseen(inFile: map<string, string>, seen: set<string>) returns (added: nat)
    ensures added == |inFile.Keys - seen|
  {
    added := 0;
    var todo := inFile.Keys;
    while todo != {}
      invariant todo <= inFile.Keys
      invariant added + |todo - seen| == |inFile.Keys - seen|
      decreases todo
    {
      var k :| k in todo;
      assert todo - seen == (todo - {k} - seen) + ({k} - seen);
      if k !in seen {
        added := added + 1;
      }
      todo := todo - {k};
    }
  }

  method DiffRows(file: seq<KeyedRow>, live: seq<KeyedRow>, included: bool) returns (e: Entity)
    ensures e == Diff(file, live, included)
  {
    if !included {
      return Entity(false, 0, |live|, 0, 0, 0);
    }
    var inFile := IndexRows(file);
    var seen, changed, removed := CompareLive(inFile, live);
    var added := CountUnseen(inFile, seen);
    assert inFile.Keys - seen == Index(file).Keys - KeysOf(live);
    e := Entity(true, |file|, |live|, added, changed, removed);
  }

  // ---- Keys and fingerprints ----

  const SEPARATOR: char := '\U{1F}'

  function JoinPrint(parts: seq<string>): string {
    Join(parts, SEPARATOR)
  }

  function StrPrint(s: Option<string>): string {
    OrElse(s, "")
  }

  function IntPrint(n: Option<int>): string {
    if n.Some? then FormatInt(n.value) else ""
  }

  function KeyText(k: RadioKey): string {
    FormatInt(k.0) + ":" + FormatInt(k.1)
  }

  function SystemParts(s: SystemFields): seq<string> {
    [s.labelText, FormatInt(s.autoPopulate), StrPrint(s.blacklists), StrPrint(s.led), FormatInt(s.order)]
  }

  function TalkgroupParts(m: TalkgroupMeaning): seq<string> {
    [StrPrint(m.fields.labelText), StrPrint(m.fields.name), IntPrint(m.fields.frequency), StrPrint(m.fields.led),
     FormatInt(m.fields.order), ToLower(StrPrint(m.group)), ToLower(StrPrint(m.tag))]
  }

  function UnitParts(u: UnitFields): seq<string> {
    [StrPrint(u.labelText), FormatInt(u.order)]
  }

  function MonitorParts(m: Monitor): seq<string> {
    [m.fields.kind, StrPrint(m.fields.mask), StrPrint(m.fields.extension), IntPrint(m.fields.frequency),
     IntPrint(m.fields.delay), FormatInt(m.fields.deleteAfter), FormatInt(m.fields.usePolling),
     FormatInt(m.fields.disabled), FormatInt(m.order)]
  }

  function LabelKey(name: string): string {
    ToLower(TrimSpace(name))
  }

  function LabelRow(name: string): Option<KeyedRow> {
    Some(KeyedRow(LabelKey(name), ""))
  }

  function SystemRow(s: System): Option<KeyedRow> {
    Some(KeyedRow(FormatInt(s.number), JoinPrint(SystemParts(s.fields))))
  }

  /** None is a talkgroup whose system is not listed: it is skipped. */
  function TalkgroupRow(numbers: map<Pk, int>, groups: map<Pk, string>, tags: map<Pk, string>,
    tg: Talkgroup): Option<KeyedRow> {
    if tg.system !in numbers then None
    else
      Some(KeyedRow(KeyText((numbers[tg.system], tg.number)),
                    JoinPrint(TalkgroupParts(TalkgroupMeaning(tg.fields, LabelOf(tg.group, groups),
                    LabelOf(tg.tag, tags))))))
  }

  function UnitRow(numbers: map<Pk, int>, u: Unit): Option<KeyedRow> {
    if u.system !in numbers then None
    else Some(KeyedRow(KeyText((numbers[u.system], u.number)), JoinPrint(UnitParts(u.fields))))
  }

  function MonitorRow(m: Monitor): Option<KeyedRow> {
    Some(KeyedRow(m.directory, JoinPrint(MonitorParts(m))))
  }

  function Built<T>(rows: seq<Row<T>>, reduce: T -> Option<KeyedRow>): seq<KeyedRow> {
    if rows == [] then []
    else
      var r := reduce(rows[|rows| - 1].value);
      Built(rows[..|rows| - 1], reduce) + (if r.Some? then [r.value] else [])
  }

  method BuildRows<T>(rows: seq<Row<T>>, reduce: T -> Option<KeyedRow>) returns (out: seq<KeyedRow>)
    ensures out == Built(rows, reduce)
  {
    out := [];
    for i := 0 to |rows|
      invariant out == Built(rows[..i], reduce)
    {
      assert rows[..i + 1][..i] == rows[..i];
      var r := reduce(rows[i].value);
      if r.Some? {
        out := out + [r.value];
      }
    }
    assert rows[..|rows|] == rows;
  }

  // ---- Counting live rows through a listing ----

  predicate Passes<T>(reduce: T -> Option<KeyedRow>, test: KeyedRow -> bool, v: T) {
    reduce(v).Some? && test(reduce(v).value)
  }

  /** The live rows that pass a test, by primary key. */
  ghost function Where<T>(m: map<Pk, T>, reduce: T -> Option<KeyedRow>, test: KeyedRow -> bool): set<Pk> {
    set pk | pk in m && Passes(reduce, test, m[pk])
  }

  ghost function Prefix<T(!new)>(rows: seq<Row<T>>, n: nat): map<Pk, T>
    requires n <= |rows|
  {
    if n == 0 then map[] else Prefix(rows, n - 1)[rows[n - 1].id := rows[n - 1].value]
  }

  lemma {:induction false} PrefixIds<T(!new)>(rows: seq<Row<T>>, n: nat, m: map<Pk, T>)
    requires Lists(rows, m) && n <= |rows|
    ensures forall pk :: pk in Prefix(rows, n) ==> pk in m && Prefix(rows, n)[pk] == m[pk]
    ensures forall i :: n <= i < |rows| ==> rows[i].id !in Prefix(rows, n)
    ensures forall i :: 0 <= i < n ==> rows[i].id in Prefix(rows, n)
  {
    if n > 0 {
      PrefixIds(rows, n - 1, m);
    }
  }

  lemma PrefixAll<T(!new)>(rows: seq<Row<T>>, m: map<Pk, T>)
    requires Lists(rows, m)
    ensures Prefix(rows, |rows|) == m
  {
    PrefixIds(rows, |rows|, m);
    forall pk | pk in m
      ensures pk in Prefix(rows, |rows|)
    {
      assert Row(pk, m[pk]) in rows;
    }
  }

  lemma Appended(test: KeyedRow -> bool, before: seq<KeyedRow>, r: KeyedRow)
    ensures CountIf(test, before + [r]) == CountIf(test, before) + (if test(r) then 1 else 0)
    ensures KeysOf(before + [r]) == KeysOf(before) + {r.key}
    ensures Index(before + [r]) == Index(before)[r.key := r.fingerprint]
  {
    assert (before + [r])[..|before|] == before;
  }

  lemma BuiltStep<T(!new)>(rows: seq<Row<T>>, n: nat, reduce: T -> Option<KeyedRow>, test: KeyedRow -> bool)
    requires n < |rows|
    ensures var before, after, r := Built(rows[..n], reduce), Built(rows[..n + 1], reduce), reduce(rows[n].value);
            && CountIf(test, after) == CountIf(test, before) + (if Passes(reduce, test, rows[n].value) then 1 else 0)
            && KeysOf(after) == KeysOf(before) + (if r.Some? then {r.value.key} else {})
            && Index(after) == (if r.Some? then Index(before)[r.value.key := r.value.fingerprint] else Index(before))
  {
    var before, r := Built(rows[..n], reduce), reduce(rows[n].value);
    assert rows[..n + 1][..n] == rows[..n];
    assert Built(rows[..n + 1], reduce) == before + (if r.Some? then [r.value] else []);
    if r.Some? {
      Appended(test, before, r.value);
    } else {
      assert before + [] == before;
    }
  }

  lemma WhereStep<T(!new)>(m: map<Pk, T>, id: Pk, v: T, reduce: T -> Option<KeyedRow>, test: KeyedRow -> bool)
    requires id !in m
    ensures |Where(m[id := v], reduce, test)| == |Where(m, reduce, test)| + (if Passes(reduce, test, v) then 1 else 0)
  {
    hide Passes;
    assert Where(m[id := v], reduce, test) == Where(m, reduce, test) + (if Passes(reduce, test, v) then {id} else {});
    assert id !in Where(m, reduce, test);
  }

  lemma KeysStep<T(!new)>(m: map<Pk, T>, id: Pk, v: T, reduce: T -> Option<KeyedRow>)
    requires id !in m
    ensures KeysIn(m[id := v], reduce) == KeysIn(m, reduce) + (if reduce(v).Some? then {reduce(v).value.key} else {})
  {
    var m' := m[id := v];
    forall k | k in KeysIn(m, reduce)
      ensures k in KeysIn(m', reduce)
    {
      var pk :| pk in m && reduce(m[pk]).Some? && reduce(m[pk]).value.key == k;
      assert m'[pk] == m[pk];
    }
    assert m'[id] == v;
  }

  /** Each live row is counted once, whatever order the listing has. */
  lemma {:induction false} CountListed<T(!new)>(rows: seq<Row<T>>, n: nat, m: map<Pk, T>,
    reduce: T -> Option<KeyedRow>, test: KeyedRow -> bool)
    requires Lists(rows, m) && n <= |rows|
    ensures CountIf(test, Built(rows[..n], reduce)) == |Where(Prefix(rows, n), reduce, test)|
  {
    hide Lists;
    if n > 0 {
      hide CountIf, Built, KeysOf, Index, Where, Passes;
      CountListed(rows, n - 1, m, reduce, test);
      assert rows[n - 1].id !in Prefix(rows, n - 1) by { PrefixIds(rows, n - 1, m); }
      BuiltStep(rows, n - 1, reduce, test);
      WhereStep(Prefix(rows, n - 1), rows[n - 1].id, rows[n - 1].value, reduce, test);
    }
  }

  /** The keys of the live rows. */
  ghost function KeysIn<T(!new)>(m: map<Pk, T>, reduce: T -> Option<KeyedRow>): set<string> {
    set pk | pk in m && reduce(m[pk]).Some? :: reduce(m[pk]).value.key
  }

  lemma {:induction false} KeysListed<T(!new)>(rows: seq<Row<T>>, n: nat, m: map<Pk, T>, reduce: T -> Option<KeyedRow>)
    requires Lists(rows, m) && n <= |rows|
    ensures KeysOf(Built(rows[..n], reduce)) == KeysIn(Prefix(rows, n), reduce)
  {
    hide Lists;
    if n > 0 {
      hide KeysOf, Built;
      KeysListed(rows, n - 1, m, reduce);
      PrefixIds(rows, n - 1, m);
      BuiltStep(rows, n - 1, reduce, RemovedTest(map[]));
      KeysStep(Prefix(rows, n - 1), rows[n - 1].id, rows[n - 1].value, reduce);
    }
  }

  /** What a comparison reports about a live table, whatever order it was listed in. */
  lemma {:induction false} DiffListed<T(!new)>(file: seq<KeyedRow>, rows: seq<Row<T>>, m: map<Pk, T>,
    reduce: T -> Option<KeyedRow>)
    requires Lists(rows, m)
    ensures var e := Diff(file, Built(rows, reduce), true);
            && e.removed == |Where(m, reduce, RemovedTest(Index(file)))|
            && e.changed == |Where(m, reduce, ChangedTest(Index(file)))|
            && e.added == |Index(file).Keys - KeysIn(m, reduce)|
  {
    assert rows[..|rows|] == rows;
    PrefixAll(rows, m);
    CountListed(rows, |rows|, m, reduce, RemovedTest(Index(file)));
    CountListed(rows, |rows|, m, reduce, ChangedTest(Index(file)));
    KeysListed(rows, |rows|, m, reduce);
  }
}
