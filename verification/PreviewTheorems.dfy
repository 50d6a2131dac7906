// The review against the restore: what the review promises is what the
// restore does, and exactly where the two part.
module PreviewTheorems {
  import opened Common
  import opened NaturalKeys
  import opened Text
  import opened RadioTables
  import opened BackupFile
  import opened Preview
  import opened PreviewMeaning
  import opened RestoreReplace
  import opened Restore
  import opened RestoreTheorems

  // ---- Reviewing a file that was just restored ----

  ghost predicate Nothing(e: Entity) {
    e.added == 0 && e.changed == 0 && e.removed == 0
  }

  lemma NothingToReport<K(!new), V(!new)>(e: Entity, carried: bool, keys: map<Pk, K>, vals: map<Pk, V>,
    listed: map<K, V>, fp: V -> string)
    requires keys.Keys == vals.Keys && Injective(keys) && Keyed(keys, vals) == listed
    requires Reports(e, carried, keys, vals, listed, fp)
    ensures Nothing(e)
  {
    forall pk | pk in keys
      ensures keys[pk] in listed && listed[keys[pk]] == vals[pk]
    {
      KeyedAt(keys, vals, pk);
    }
    assert Missing(keys, listed.Keys) == {};
    assert Differing(keys, vals, listed, fp) == {};
    assert listed.Keys - keys.Values == {};
  }

  lemma {:induction false} FoldedKeys(rows: seq<Row<string>>)
    ensures forall l :: l in Labels(rows) ==> LabelKey(l) in Folded(rows)
    ensures forall s :: s in Folded(rows) ==> Folded(rows)[s] == "" && exists l :: l in Labels(rows) && LabelKey(l) == s
  {
    if rows != [] {
      FoldedKeys(rows[..|rows| - 1]);
      forall s | s in Folded(rows)
        ensures Folded(rows)[s] == "" && exists l :: l in Labels(rows) && LabelKey(l) == s
      {
        var last := rows[|rows| - 1].value;
        if s == LabelKey(last) {
          assert last in Labels(rows);
        } else {
          var l :| l in Labels(rows[..|rows| - 1]) && LabelKey(l) == s;
          assert l in Labels(rows);
        }
      }
    }
  }

  lemma NoLabelsToReport(e: Entity, m: map<Pk, string>, carried: Option<seq<Row<string>>>)
    requires m.Values == Labels(Rows(carried))
    requires Reports(e, carried.Some?, LabelKeys(m), NoPrint(m), Folded(Rows(carried)), Same)
    ensures Nothing(e)
  {
    var keys, listed := LabelKeys(m), Folded(Rows(carried));
    FoldedKeys(Rows(carried));
    forall pk | pk in m
      ensures keys[pk] in listed
    {
      assert m[pk] in m.Values;
    }
    assert Missing(keys, listed.Keys) == {};
    assert Differing(keys, NoPrint(m), listed, Same) == {};
    forall s | s in listed
      ensures s in keys.Values
    {
      var l :| l in Labels(Rows(carried)) && LabelKey(l) == s;
      assert l in m.Values;
      var pk :| pk in m && m[pk] == l;
      assert keys[pk] == s;
    }
    assert listed.Keys - keys.Values == {};
  }

  /** Where the view is the file's, the review finds nothing left to do. */
  lemma {:induction false} ReviewAfterReplace(t: Tables, f: File, p: BackupPreview)
    requires Sound(t) && ForeignKeys(t) && CarriesRadio(f)
    requires ViewOf(t) == FileView(f) && PreviewSays(p, t, f)
    ensures Nothing(p.systems) && Nothing(p.talkgroups) && Nothing(p.units) && Nothing(p.groups) && Nothing(p.tags)
  {
    hide Sound, ForeignKeys, Reports, Injective, Keyed, FileTalkgroups, FileUnits, SystemsIn, Labels, Folded, Nothing;
    KeysInjective(t);
    NothingToReport(p.systems, f.systems.Some?, SystemKeys(t.systems), SystemVals(t.systems),
      SystemsIn(Rows(f.systems)), SystemPrint);
    NothingToReport(p.talkgroups, f.talkgroups.Some?, TalkgroupKeys(t), TalkgroupVals(t), FileTalkgroups(f),
      TalkgroupPrint);
    NothingToReport(p.units, f.units.Some?, UnitKeys(t), UnitVals(t), FileUnits(f), UnitPrint);
    NoLabelsToReport(p.groups, t.groups, f.groups);
    NoLabelsToReport(p.tags, t.tags, f.tags);
  }

  // ---- Removed ----

  lemma RowsGone<K(!new)>(keys0: map<Pk, K>, after: set<Pk>, listed: set<K>)
    requires forall pk :: pk in keys0 ==> (pk in after <==> keys0[pk] in listed)
    ensures Missing(keys0, listed) == keys0.Keys - after
  {
  }

  lemma SystemsGone(m0: map<Pk, System>, m: map<Pk, System>, f: File)
    requires SystemsSurvive(m0, m, f) && f.mode.Replace? && f.systems.Some?
    ensures Missing(SystemKeys(m0), SystemsIn(Rows(f.systems)).Keys) == m0.Keys - m.Keys
  {
    hide SystemsIn;
    RowsGone(SystemKeys(m0), m.Keys, SystemsIn(Rows(f.systems)).Keys);
  }

  lemma StaysListed(f: File, k: RadioKey)
    requires f.systems.Some?
    ensures Stays(f, true, FileTalkgroups(f).Keys, k) <==> k in FileTalkgroups(f)
    ensures Stays(f, true, FileUnits(f).Keys, k) <==> k in FileUnits(f)
  {
    hide FileTalkgroups, FileUnits, SystemsIn;
    FileKeysListed(f, k);
  }

  lemma TalkgroupsGone(t0: Tables, t: Tables, f: File)
    requires ForeignKeys(t0) && ForeignKeys(t) && TalkgroupsSurvive(t0, t, f)
    requires f.mode.Replace? && f.systems.Some? && f.talkgroups.Some?
    ensures Missing(TalkgroupKeys(t0), FileTalkgroups(f).Keys) == t0.talkgroups.Keys - t.talkgroups.Keys
  {
    hide ForeignKeys, FileTalkgroups, Stays, TalkgroupKeys, Missing;
    forall pk | pk in t0.talkgroups
      ensures pk in t.talkgroups <==> TalkgroupKeys(t0)[pk] in FileTalkgroups(f).Keys
    {
      StaysListed(f, TalkgroupKeys(t0)[pk]);
    }
    RowsGone(TalkgroupKeys(t0), t.talkgroups.Keys, FileTalkgroups(f).Keys);
  }

  lemma UnitsGone(t0: Tables, t: Tables, f: File)
    requires ForeignKeys(t0) && ForeignKeys(t) && UnitsSurvive(t0, t, f)
    requires f.mode.Replace? && f.systems.Some? && f.units.Some?
    ensures Missing(UnitKeys(t0), FileUnits(f).Keys) == t0.units.Keys - t.units.Keys
  {
    hide ForeignKeys, FileUnits, Stays, UnitKeys, Missing;
    forall pk | pk in t0.units
      ensures pk in t.units <==> UnitKeys(t0)[pk] in FileUnits(f).Keys
    {
      StaysListed(f, UnitKeys(t0)[pk]);
    }
    RowsGone(UnitKeys(t0), t.units.Keys, FileUnits(f).Keys);
  }

  /** The rows a Replace deletes, cascades included, are the review's Removed, table by table. */
  lemma {:induction false} RemovedAgrees(t0: Tables, t: Tables, f: File, p: BackupPreview)
    requires ForeignKeys(t0) && ForeignKeys(t) && PreviewSays(p, t0, f)
    requires f.mode.Replace? && Survivors(t0, t, f)
    ensures f.systems.Some? ==> p.systems.removed == |t0.systems.Keys - t.systems.Keys|
    ensures f.systems.Some? && f.talkgroups.Some? ==> p.talkgroups.removed == |t0.talkgroups.Keys - t.talkgroups.Keys|
    ensures f.systems.Some? && f.units.Some? ==> p.units.removed == |t0.units.Keys - t.units.Keys|
  {
    hide ForeignKeys, FileTalkgroups, FileUnits, SystemsIn, LabelsSurvive, SystemsSurvive, TalkgroupsSurvive,
      UnitsSurvive, Missing, Differing, TalkgroupKeys, UnitKeys, SystemKeys;
    if f.systems.Some? {
      SystemsGone(t0.systems, t.systems, f);
      if f.talkgroups.Some? { TalkgroupsGone(t0, t, f); }
      if f.units.Some? { UnitsGone(t0, t, f); }
    }
  }

  lemma NoSystemsNoRows(f: File, k: RadioKey)
    requires f.systems.None?
    ensures k !in FileTalkgroups(f) && k !in FileUnits(f)
  {
    hide FileTalkgroups, FileUnits;
    FileKeysListed(f, k);
  }

  lemma NoneListed<K(!new)>(keys0: map<Pk, K>, after: set<Pk>, listed: set<K>)
    requires keys0.Keys <= after && forall pk :: pk in keys0 ==> keys0[pk] !in listed
    ensures |Missing(keys0, listed)| == |keys0.Keys| && keys0.Keys - after == {}
    ensures |Missing(keys0, listed)| == |keys0.Keys - after| <==> keys0.Keys == {}
  {
    assert Missing(keys0, listed) == keys0.Keys;
    assert keys0.Keys - after == {};
  }

  lemma NoRowListed(t0: Tables, f: File)
    requires ForeignKeys(t0) && f.systems.None?
    ensures forall pk :: pk in t0.talkgroups ==> TalkgroupKeys(t0)[pk] !in FileTalkgroups(f).Keys
    ensures forall pk :: pk in t0.units ==> UnitKeys(t0)[pk] !in FileUnits(f).Keys
  {
    hide ForeignKeys, FileTalkgroups, FileUnits, TalkgroupKeys, UnitKeys;
    forall pk | pk in t0.talkgroups
      ensures TalkgroupKeys(t0)[pk] !in FileTalkgroups(f).Keys
    {
      NoSystemsNoRows(f, TalkgroupKeys(t0)[pk]);
    }
    forall pk | pk in t0.units
      ensures UnitKeys(t0)[pk] !in FileUnits(f).Keys
    {
      NoSystemsNoRows(f, UnitKeys(t0)[pk]);
    }
  }

  /** Without the systems table the review counts every talkgroup and unit as removed, and the restore removes none. */
  lemma {:induction false} RemovedDisagrees(t0: Tables, t: Tables, f: File, p: BackupPreview)
    requires ForeignKeys(t0) && ForeignKeys(t) && PreviewSays(p, t0, f)
    requires f.mode.Replace? && Survivors(t0, t, f) && f.systems.None?
    ensures t0.talkgroups.Keys - t.talkgroups.Keys == {} && t0.units.Keys - t.units.Keys == {}
    ensures f.talkgroups.Some? ==>
              && p.talkgroups.removed == |t0.talkgroups.Keys|
              && (p.talkgroups.removed == |t0.talkgroups.Keys - t.talkgroups.Keys| <==> t0.talkgroups.Keys == {})
    ensures f.units.Some? ==>
              && p.units.removed == |t0.units.Keys|
              && (p.units.removed == |t0.units.Keys - t.units.Keys| <==> t0.units.Keys == {})
  {
    hide ForeignKeys, FileTalkgroups, FileUnits, SystemsIn, LabelsSurvive, SystemsSurvive, Differing, TalkgroupKeys,
      UnitKeys, Missing;
    assert t0.talkgroups.Keys <= t.talkgroups.Keys && t0.units.Keys <= t.units.Keys;
    NoRowListed(t0, f);
    NoneListed(TalkgroupKeys(t0), t.talkgroups.Keys, FileTalkgroups(f).Keys);
    NoneListed(UnitKeys(t0), t.units.Keys, FileUnits(f).Keys);
  }

  /** A live label the file spells differently is removed by the restore but matched by the review. */
  ghost function OtherSpelling(m: map<Pk, string>, rows: seq<Row<string>>): set<Pk> {
    set pk | pk in m && m[pk] !in Labels(rows) && LabelKey(m[pk]) in Folded(rows)
  }

  /** The review's Removed for groups and tags: right exactly when no live label differs from the file's by case or
      space only. */
  lemma {:induction false} LabelsRemovedAgree(m0: map<Pk, string>, m: map<Pk, string>,
    carried: Option<seq<Row<string>>>, e: Entity)
    requires carried.Some? && LabelsSurvive(m0, m, Replace, carried)
    requires Reports(e, true, LabelKeys(m0), NoPrint(m0), Folded(Rows(carried)), Same)
    ensures |m0.Keys - m.Keys| == e.removed + |OtherSpelling(m0, Rows(carried))|
    ensures e.removed == |m0.Keys - m.Keys| <==> OtherSpelling(m0, Rows(carried)) == {}
  {
    hide Labels, Folded, LabelKey, LabelKeys, NoPrint, Differing, Missing, OtherSpelling;
    var rows := Rows(carried);
    var missing, other := Missing(LabelKeys(m0), Folded(rows).Keys), OtherSpelling(m0, rows);
    LabelsGone(m0, m, carried);
    TwoKinds(m0.Keys - m.Keys, missing, other);
  }

  lemma TwoKinds<T(!new)>(gone: set<T>, missing: set<T>, other: set<T>)
    requires gone == missing + other && missing !! other
    ensures |gone| == |missing| + |other|
    ensures |missing| == |gone| <==> other == {}
  {
  }

  lemma LabelsGone(m0: map<Pk, string>, m: map<Pk, string>, carried: Option<seq<Row<string>>>)
    requires carried.Some? && LabelsSurvive(m0, m, Replace, carried)
    ensures var missing, other := Missing(LabelKeys(m0), Folded(Rows(carried)).Keys), OtherSpelling(m0, Rows(carried));
            m0.Keys - m.Keys == missing + other && missing !! other
  {
    hide Labels, Folded, LabelKey, LabelKeys;
    var rows := Rows(carried);
    var missing, other := Missing(LabelKeys(m0), Folded(rows).Keys), OtherSpelling(m0, rows);
    InTable(m0, rows);
    forall pk | pk in m0
      ensures pk !in m <==> pk in missing || pk in other
      ensures !(pk in missing && pk in other)
    {
      LabelGone(m0, rows, pk);
    }
    hide Missing, OtherSpelling;
  }

  lemma InTable(m0: map<Pk, string>, rows: seq<Row<string>>)
    ensures Missing(LabelKeys(m0), Folded(rows).Keys) <= m0.Keys && OtherSpelling(m0, rows) <= m0.Keys
  {
    hide Labels, Folded, LabelKey;
  }

  /** A live label the file lacks is either unknown to the review too or spelled differently. */
  lemma LabelGone(m0: map<Pk, string>, rows: seq<Row<string>>, pk: Pk)
    requires pk in m0
    ensures var missing, other := Missing(LabelKeys(m0), Folded(rows).Keys), OtherSpelling(m0, rows);
            && (m0[pk] !in Labels(rows) <==> pk in missing || pk in other)
            && !(pk in missing && pk in other)
  {
    hide Labels, Folded, LabelKey;
    FoldedKeys(rows);
  }

  /** A file that spells the live group FIRE as Fire: the restore removes FIRE, and the review did not say so. */
  lemma {:induction false} SpellingExample()
    ensures OtherSpelling(map[Pk(1) := "FIRE"], [Row(Pk(7), "Fire")]) == {Pk(1)}
  {
    var m, rows := map[Pk(1) := "FIRE"], [Row(Pk(7), "Fire")];
    assert rows[..0] == [];
    assert Labels(rows) == {"Fire"};
    assert Folded(rows) == map[LabelKey("Fire") := ""];
    assert "FIRE"[0] == 'F' && "FIRE"[3] == 'E' && "Fire"[0] == 'F' && "Fire"[3] == 'e';
    assert LabelKey("FIRE") == LabelKey("Fire");
    assert "FIRE"[1] == 'I' && "Fire"[1] == 'i';
    assert m[Pk(1)] !in Labels(rows);
  }

  // ---- Added ----

  lemma NewRowsAreAdded<K(!new)>(keys0: map<Pk, K>, keys: map<Pk, K>, listed: set<K>)
    requires Injective(keys0) && Injective(keys) && SameOn(keys0, keys)
    requires forall pk :: pk in keys0 && keys0[pk] in listed ==> pk in keys
    requires forall pk :: pk in keys ==> pk in keys0 || keys[pk] in listed
    requires listed <= keys.Values
    ensures |keys.Keys - keys0.Keys| == |listed - keys0.Values|
  {
    var born, added := keys.Keys - keys0.Keys, listed - keys0.Values;
    var back := map k | k in added :: PkOf(keys, k);
    forall pk | pk in born
      ensures keys[pk] in added
    {
      NotTaken(keys0, keys, listed, pk);
    }
    forall k | k in added
      ensures back[k] in born && keys[back[k]] == k
    {
      OldKey(keys0, keys, back[k]);
    }
    SameSize(born, added, keys, back);
  }

  lemma OldKey<K(!new)>(keys0: map<Pk, K>, keys: map<Pk, K>, pk: Pk)
    requires SameOn(keys0, keys) && pk in keys
    ensures pk in keys0 ==> keys[pk] in keys0.Values
  {
  }

  lemma NotTaken<K(!new)>(keys0: map<Pk, K>, keys: map<Pk, K>, listed: set<K>, pk: Pk)
    requires Injective(keys) && SameOn(keys0, keys)
    requires forall pk :: pk in keys0 && keys0[pk] in listed ==> pk in keys
    requires pk in keys && pk !in keys0 && keys[pk] in listed
    ensures keys[pk] !in keys0.Values
  {
    forall a | a in keys0
      ensures keys0[a] != keys[pk]
    {
      assert a in keys ==> keys[a] == keys0[a];
    }
  }

  lemma TalkgroupsAdded(t0: Tables, t: Tables, f: File)
    requires ForeignKeys(t0) && ForeignKeys(t) && Injective(TalkgroupKeys(t0)) && Injective(TalkgroupKeys(t))
             && TalkgroupsSurvive(t0, t, f)
    requires Within(FileTalkgroups(f), TalkgroupsView(t)) && f.talkgroups.Some?
    ensures |FileTalkgroups(f).Keys - TalkgroupKeys(t0).Values| == |t.talkgroups.Keys - t0.talkgroups.Keys|
  {
    hide ForeignKeys, FileTalkgroups, Injective, TalkgroupKeys, TalkgroupVals, Stays;
    WithinKeys(FileTalkgroups(f), TalkgroupsView(t));
    forall pk | pk in t0.talkgroups && TalkgroupKeys(t0)[pk] in FileTalkgroups(f).Keys
      ensures pk in t.talkgroups
    {
      ListedStays(f, TalkgroupKeys(t0)[pk]);
    }
    NewRowsAreAdded(TalkgroupKeys(t0), TalkgroupKeys(t), FileTalkgroups(f).Keys);
  }

  lemma UnitsAdded(t0: Tables, t: Tables, f: File)
    requires ForeignKeys(t0) && ForeignKeys(t) && Injective(UnitKeys(t0)) && Injective(UnitKeys(t))
             && UnitsSurvive(t0, t, f)
    requires Within(FileUnits(f), UnitsView(t)) && f.units.Some?
    ensures |FileUnits(f).Keys - UnitKeys(t0).Values| == |t.units.Keys - t0.units.Keys|
  {
    hide ForeignKeys, FileUnits, Injective, UnitKeys, UnitVals, Stays;
    WithinKeys(FileUnits(f), UnitsView(t));
    forall pk | pk in t0.units && UnitKeys(t0)[pk] in FileUnits(f).Keys
      ensures pk in t.units
    {
      ListedStays(f, UnitKeys(t0)[pk]);
    }
    NewRowsAreAdded(UnitKeys(t0), UnitKeys(t), FileUnits(f).Keys);
  }

  /** Whatever the file lists stays. */
  lemma ListedStays(f: File, k: RadioKey)
    ensures k in FileTalkgroups(f) ==> Stays(f, true, FileTalkgroups(f).Keys, k)
    ensures k in FileUnits(f) ==> Stays(f, true, FileUnits(f).Keys, k)
  {
    hide FileTalkgroups, FileUnits, SystemsIn;
    FileKeysListed(f, k);
  }

  /** In either mode, the rows a restore creates in a radio table are the review's Added. */
  lemma {:induction false} AddedAgrees(t0: Tables, t: Tables, f: File, p: BackupPreview)
    requires Sound(t0) && Sound(t) && ForeignKeys(t0) && ForeignKeys(t) && PreviewSays(p, t0, f)
    requires Survivors(t0, t, f) && ViewOf(t) == Restored(ViewOf(t0), f)
    ensures f.systems.Some? ==> p.systems.added == |t.systems.Keys - t0.systems.Keys|
    ensures f.talkgroups.Some? ==> p.talkgroups.added == |t.talkgroups.Keys - t0.talkgroups.Keys|
    ensures f.units.Some? ==> p.units.added == |t.units.Keys - t0.units.Keys|
  {
    hide Sound, ForeignKeys, FileTalkgroups, FileUnits, SystemsIn, LabelsSurvive, SystemsSurvive, TalkgroupsSurvive,
      UnitsSurvive, Restored, Injective, Labels, Within, Missing, Differing, SystemsView, TalkgroupsView, UnitsView,
      SystemKeys, TalkgroupKeys, UnitKeys;
    KeysInjective(t0);
    KeysInjective(t);
    RestoreKeepsFile(ViewOf(t0), f);
    SystemsAdded(t0, t, f);
    if f.talkgroups.Some? { TalkgroupsAdded(t0, t, f); }
    if f.units.Some? { UnitsAdded(t0, t, f); }
  }

  lemma WithinKeys<K(!new), V(!new)>(b: map<K, V>, a: map<K, V>)
    requires Within(b, a)
    ensures b.Keys <= a.Keys
  {
  }

  lemma SystemsAdded(t0: Tables, t: Tables, f: File)
    requires Injective(SystemKeys(t0.systems)) && Injective(SystemKeys(t.systems))
             && SystemsSurvive(t0.systems, t.systems, f)
    requires Within(SystemsIn(Rows(f.systems)), SystemsView(t.systems))
    ensures |SystemsIn(Rows(f.systems)).Keys - SystemKeys(t0.systems).Values| == |t.systems.Keys - t0.systems.Keys|
  {
    hide SystemsIn, Injective;
    WithinKeys(SystemsIn(Rows(f.systems)), SystemsView(t.systems));
    forall pk | pk in t.systems
      ensures pk in t0.systems || SystemKeys(t.systems)[pk] in SystemsIn(Rows(f.systems)).Keys
    {
      assert SystemKeys(t.systems)[pk] == t.systems[pk].number;
    }
    NewRowsAreAdded(SystemKeys(t0.systems), SystemKeys(t.systems), SystemsIn(Rows(f.systems)).Keys);
  }

  // ---- Changed ----

  /** NULL and empty text are the same to the review. */
  predicate SameText(a: Option<string>, b: Option<string>) {
    a == b || (a in {None, Some("")} && b in {None, Some("")})
  }

  predicate SameFolded(a: Option<string>, b: Option<string>) {
    ToLower(if a.Some? then a.value else "") == ToLower(if b.Some? then b.value else "")
  }

  predicate SystemsAlike(a: SystemFields, b: SystemFields) {
    && a.labelText == b.labelText && a.autoPopulate == b.autoPopulate && SameText(a.blacklists, b.blacklists)
       && SameText(a.led, b.led)
    && a.order == b.order
  }

  predicate TalkgroupsAlike(a: TalkgroupMeaning, b: TalkgroupMeaning) {
    && SameText(a.fields.labelText, b.fields.labelText) && SameText(a.fields.name, b.fields.name)
    && a.fields.frequency == b.fields.frequency && SameText(a.fields.led, b.fields.led)
       && a.fields.order == b.fields.order
    && SameFolded(a.group, b.group) && SameFolded(a.tag, b.tag)
  }

  predicate UnitsAlike(a: UnitFields, b: UnitFields) {
    SameText(a.labelText, b.labelText) && a.order == b.order
  }

  lemma IntPartInjective(a: Option<int>, b: Option<int>)
    ensures IntPrint(a) == IntPrint(b) <==> a == b
  {
    if a.Some? { FormatIntChars(a.value); }
    if b.Some? { FormatIntChars(b.value); }
    if a.Some? && b.Some? && IntPrint(a) == IntPrint(b) { FormatIntInjective(a.value, b.value); }
  }

  lemma PartsInjective(a: int, b: int)
    ensures FormatInt(a) == FormatInt(b) <==> a == b
  {
    if FormatInt(a) == FormatInt(b) { FormatIntInjective(a, b); }
  }

  /** Fields that do not hold the separator. */
  ghost predicate Printable(parts: seq<string>) {
    Free(parts, '\U{1F}')
  }

  lemma PrintsTellApart(a: seq<string>, b: seq<string>)
    requires |a| == |b| && Printable(a) && Printable(b)
    ensures JoinPrint(a) == JoinPrint(b) <==> a == b
  {
    if JoinPrint(a) == JoinPrint(b) { JoinInjective(a, b, SEPARATOR); }
  }

  lemma SystemPrintMeaning(a: SystemFields, b: SystemFields)
    requires Printable(SystemParts(a)) && Printable(SystemParts(b))
    ensures SystemPrint(a) == SystemPrint(b) <==> SystemsAlike(a, b)
  {
    hide FormatInt, Free, JoinPrint;
    var x, y := SystemParts(a), SystemParts(b);
    PrintsTellApart(x, y);
    PartsInjective(a.autoPopulate, b.autoPopulate);
    PartsInjective(a.order, b.order);
    assert x == y <==> x[0] == y[0] && x[1] == y[1] && x[2] == y[2] && x[3] == y[3] && x[4] == y[4];
  }

  lemma {:induction false} TalkgroupPrintMeaning(a: TalkgroupMeaning, b: TalkgroupMeaning)
    requires Printable(TalkgroupParts(a)) && Printable(TalkgroupParts(b))
    ensures TalkgroupPrint(a) == TalkgroupPrint(b) <==> TalkgroupsAlike(a, b)
  {
    hide FormatInt, Free, JoinPrint, IntPrint, ToLower;
    var x, y := TalkgroupParts(a), TalkgroupParts(b);
    PrintsTellApart(x, y);
    IntPartInjective(a.fields.frequency, b.fields.frequency);
    PartsInjective(a.fields.order, b.fields.order);
    assert x == y
      <==> x[0] == y[0] && x[1] == y[1] && x[2] == y[2] && x[3] == y[3] && x[4] == y[4] && x[5] == y[5] && x[6] == y[6];
  }

  lemma UnitPrintMeaning(a: UnitFields, b: UnitFields)
    requires Printable(UnitParts(a)) && Printable(UnitParts(b))
    ensures UnitPrint(a) == UnitPrint(b) <==> UnitsAlike(a, b)
  {
    hide FormatInt, Free, JoinPrint;
    var x, y := UnitParts(a), UnitParts(b);
    PrintsTellApart(x, y);
    PartsInjective(a.order, b.order);
    assert x == y <==> x[0] == y[0] && x[1] == y[1];
  }

  /** Changed is 0 exactly when every talkgroup in both says the same, up to NULL against empty and the case of group
      and tag. */
  lemma {:induction false} UnchangedTalkgroups(t: Tables, f: File, p: BackupPreview)
    requires ForeignKeys(t) && f.talkgroups.Some? && PreviewSays(p, t, f)
    requires forall pk :: pk in t.talkgroups ==> Printable(TalkgroupParts(TalkgroupVals(t)[pk]))
    requires forall k :: k in FileTalkgroups(f) ==> Printable(TalkgroupParts(FileTalkgroups(f)[k]))
    ensures p.talkgroups.changed == 0 <==>
              forall pk :: pk in t.talkgroups && TalkgroupKeys(t)[pk] in FileTalkgroups(f) ==>
                TalkgroupsAlike(TalkgroupVals(t)[pk], FileTalkgroups(f)[TalkgroupKeys(t)[pk]])
  {
    hide ForeignKeys, FileTalkgroups, TalkgroupKeys, TalkgroupVals, TalkgroupPrint, TalkgroupParts, Printable,
      TalkgroupsAlike;
    var d := Differing(TalkgroupKeys(t), TalkgroupVals(t), FileTalkgroups(f), TalkgroupPrint);
    assert p.talkgroups.changed == |d|;
    assert p.talkgroups.changed == 0 <==> d == {};
    forall pk | pk in t.talkgroups && TalkgroupKeys(t)[pk] in FileTalkgroups(f)
      ensures pk in d <==> !TalkgroupsAlike(TalkgroupVals(t)[pk], FileTalkgroups(f)[TalkgroupKeys(t)[pk]])
    {
      TalkgroupPrintMeaning(TalkgroupVals(t)[pk], FileTalkgroups(f)[TalkgroupKeys(t)[pk]]);
    }
  }

  lemma {:induction false} UnchangedSystems(t: Tables, f: File, p: BackupPreview)
    requires ForeignKeys(t) && f.systems.Some? && PreviewSays(p, t, f)
    requires forall pk :: pk in t.systems ==> Printable(SystemParts(t.systems[pk].fields))
    requires forall n :: n in SystemsIn(Rows(f.systems)) ==> Printable(SystemParts(SystemsIn(Rows(f.systems))[n]))
    ensures p.systems.changed == 0 <==>
              forall pk :: pk in t.systems && t.systems[pk].number in SystemsIn(Rows(f.systems)) ==>
                SystemsAlike(t.systems[pk].fields, SystemsIn(Rows(f.systems))[t.systems[pk].number])
  {
    hide ForeignKeys, SystemsIn, SystemPrint, SystemParts, Printable, SystemsAlike;
    var listed := SystemsIn(Rows(f.systems));
    var d := Differing(SystemKeys(t.systems), SystemVals(t.systems), listed, SystemPrint);
    assert p.systems.changed == 0 <==> d == {};
    forall pk | pk in t.systems && t.systems[pk].number in listed
      ensures pk in d <==> !SystemsAlike(t.systems[pk].fields, listed[t.systems[pk].number])
    {
      SystemPrintMeaning(t.systems[pk].fields, listed[t.systems[pk].number]);
    }
  }

  lemma {:induction false} UnchangedUnits(t: Tables, f: File, p: BackupPreview)
    requires ForeignKeys(t) && f.units.Some? && PreviewSays(p, t, f)
    requires forall pk :: pk in t.units ==> Printable(UnitParts(t.units[pk].fields))
    requires forall k :: k in FileUnits(f) ==> Printable(UnitParts(FileUnits(f)[k]))
    ensures p.units.changed == 0 <==>
              forall pk :: pk in t.units && UnitKeys(t)[pk] in FileUnits(f) ==>
                UnitsAlike(t.units[pk].fields, FileUnits(f)[UnitKeys(t)[pk]])
  {
    hide ForeignKeys, FileUnits, UnitKeys, UnitPrint, UnitParts, Printable, UnitsAlike;
    var d := Differing(UnitKeys(t), UnitVals(t), FileUnits(f), UnitPrint);
    assert p.units.changed == 0 <==> d == {};
    forall pk | pk in t.units && UnitKeys(t)[pk] in FileUnits(f)
      ensures pk in d <==> !UnitsAlike(t.units[pk].fields, FileUnits(f)[UnitKeys(t)[pk]])
    {
      UnitPrintMeaning(t.units[pk].fields, FileUnits(f)[UnitKeys(t)[pk]]);
    }
  }
}
