// System grants: the stored list in its two shapes, what it lets through, and
// how a restore rewrites it.
module Grants {
  import opened Common

  // ---- The stored column ----

  /** One element of the stored array: null, a whole number, an object read as a grant, or something else. */
  datatype Item = Null | Number(n: int) | Object(grant: SystemGrant) | Other

  /** The column: NULL or blank, text that is no JSON array, JSON null, or an array. */
  datatype Stored = Blank | Unreadable | JsonNull | Array(items: seq<Item>)

  /** id is a system's primary key, talkgroups talkgroups' primary keys; no talkgroups means all of them. */
  datatype SystemGrant = SystemGrant(id: Pk, talkgroups: seq<Pk>)

  /** The array as whole numbers; a null element reads as 0. */
  function AsIds(items: seq<Item>): Option<seq<Pk>> {
    if items == [] then Some([])
    else
      var rest := AsIds(items[1..]);
      if rest.None? then None
      else match items[0]
        case Null => Some([Pk(0)] + rest.value)
        case Number(n) => Some([Pk(n)] + rest.value)
        case _ => None
  }

  /** The array as objects; a null element reads as an empty one. */
  function AsGrants(items: seq<Item>): Option<seq<SystemGrant>> {
    if items == [] then Some([])
    else
      var rest := AsGrants(items[1..]);
      if rest.None? then None
      else match items[0]
        case Null => Some([SystemGrant(Pk(0), [])] + rest.value)
        case Object(g) => Some([g] + rest.value)
        case _ => None
  }

  function Bare(ids: seq<Pk>): seq<SystemGrant> {
    if ids == [] then [] else [SystemGrant(ids[0], [])] + Bare(ids[1..])
  }

  // ---- Reading grants ----

  /** None is everything; an empty list is nothing. */
  type GrantList = Option<seq<SystemGrant>>

  function ParseSystemGrants(s: Stored): GrantList {
    match s
    case Blank => None
    case Unreadable => Some([])
    case JsonNull => None
    case Array(items) =>
      if items == [] then None
      else if AsIds(items).Some? then Some(Bare(AsIds(items).value))
      else if AsGrants(items).Some? then Some(AsGrants(items).value)
      else Some([])
  }

  predicate GrantsIncludeSystem(grants: GrantList, system: Pk) {
    grants.None? || exists i :: 0 <= i < |grants.value| && grants.value[i].id == system
  }

  predicate Allows(g: SystemGrant, system: Pk, talkgroup: Pk) {
    g.id == system && (g.talkgroups == [] || talkgroup in g.talkgroups)
  }

  predicate HasSystemAccess(grants: GrantList, system: Pk, talkgroup: Pk) {
    grants.None? || exists i :: 0 <= i < |grants.value| && Allows(grants.value[i], system, talkgroup)
  }

  // ---- What a stored column lets through ----

  /** Numbers name whole systems, objects a system and maybe its talkgroups; null stands for system 0. */
  predicate ItemAllows(item: Item, system: Pk, talkgroup: Pk) {
    match item
    case Null => system == Pk(0)
    case Number(n) => system == Pk(n)
    case Object(g) => g.id == system && (g.talkgroups == [] || talkgroup in g.talkgroups)
    case Other => false
  }

  lemma {:induction false} IdsAllow(items: seq<Item>, system: Pk, talkgroup: Pk)
    ensures AsIds(items).Some? <==> forall i :: 0 <= i < |items| ==> items[i].Null? || items[i].Number?
    ensures AsIds(items).Some? ==>
              var grants := Bare(AsIds(items).value);
              (exists i :: 0 <= i < |grants| && Allows(grants[i], system, talkgroup)) <==>
              (exists i :: 0 <= i < |items| && ItemAllows(items[i], system, talkgroup))
  {
    if items != [] {
      IdsAllow(items[1..], system, talkgroup);
      assert items == [items[0]] + items[1..];
      if AsIds(items).Some? {
        var ids := AsIds(items).value;
        assert ids[1..] == AsIds(items[1..]).value;
        assert Bare(ids)[1..] == Bare(ids[1..]);
        AnyAllows(Bare(ids), system, talkgroup);
        AnyItem(items, system, talkgroup);
      }
    }
  }

  lemma AnyAllows(grants: seq<SystemGrant>, system: Pk, talkgroup: Pk)
    requires grants != []
    ensures (exists i :: 0 <= i < |grants| && Allows(grants[i], system, talkgroup)) <==>
            || Allows(grants[0], system, talkgroup)
            || exists i :: 0 <= i < |grants[1..]| && Allows(grants[1..][i], system, talkgroup)
  {
    hide Allows;
    if i :| 0 <= i < |grants[1..]| && Allows(grants[1..][i], system, talkgroup) {
      assert grants[i + 1] == grants[1..][i];
    }
    if i :| 1 <= i < |grants| && Allows(grants[i], system, talkgroup) {
      assert grants[1..][i - 1] == grants[i];
    }
  }

  lemma AnyItem(items: seq<Item>, system: Pk, talkgroup: Pk)
    requires items != []
    ensures (exists i :: 0 <= i < |items| && ItemAllows(items[i], system, talkgroup)) <==>
            || ItemAllows(items[0], system, talkgroup)
            || exists i :: 0 <= i < |items[1..]| && ItemAllows(items[1..][i], system, talkgroup)
  {
    hide ItemAllows;
    if i :| 0 <= i < |items[1..]| && ItemAllows(items[1..][i], system, talkgroup) {
      assert items[i + 1] == items[1..][i];
    }
    if i :| 1 <= i < |items| && ItemAllows(items[i], system, talkgroup) {
      assert items[1..][i - 1] == items[i];
    }
  }

  lemma {:induction false} GrantsAllow(items: seq<Item>, system: Pk, talkgroup: Pk)
    ensures AsGrants(items).Some? <==> forall i :: 0 <= i < |items| ==> items[i].Null? || items[i].Object?
    ensures AsGrants(items).Some? ==>
              var grants := AsGrants(items).value;
              (exists i :: 0 <= i < |grants| && Allows(grants[i], system, talkgroup)) <==>
              (exists i :: 0 <= i < |items| && ItemAllows(items[i], system, talkgroup))
  {
    if items != [] {
      GrantsAllow(items[1..], system, talkgroup);
      assert items == [items[0]] + items[1..];
      if AsGrants(items).Some? {
        var grants := AsGrants(items).value;
        assert grants[1..] == AsGrants(items[1..]).value;
        AnyAllows(grants, system, talkgroup);
        AnyItem(items, system, talkgroup);
      }
    }
  }

  /** A column lets a call through when it is blank, JSON null or an empty array, or when all its elements are numbers,
      or all are objects, nulls aside, and one of them allows the call. Anything else lets nothing through. */
  lemma {:induction false} StoredAllows(s: Stored, system: Pk, talkgroup: Pk)
    ensures HasSystemAccess(ParseSystemGrants(s), system, talkgroup) <==>
            || s.Blank? || s.JsonNull? || (s.Array? && s.items == [])
            || (s.Array?
                && ((forall i :: 0 <= i < |s.items| ==> s.items[i].Null? || s.items[i].Number?)
                    || (forall i :: 0 <= i < |s.items| ==> s.items[i].Null? || s.items[i].Object?))
                && exists i :: 0 <= i < |s.items| && ItemAllows(s.items[i], system, talkgroup))
  {
    hide AsIds, AsGrants, Bare, Allows, ItemAllows;
    if s.Array? && s.items != [] {
      IdsAllow(s.items, system, talkgroup);
      GrantsAllow(s.items, system, talkgroup);
      if AsIds(s.items).Some? {
        assert ParseSystemGrants(s) == Some(Bare(AsIds(s.items).value));
      } else if AsGrants(s.items).Some? {
        assert ParseSystemGrants(s) == Some(AsGrants(s.items).value);
      }
    }
  }

  // ---- Rewriting for a restore ----

  function MappedIds(ids: seq<Pk>, remap: map<Pk, Pk>): seq<Pk> {
    if ids == [] then []
    else (if ids[0] in remap then [remap[ids[0]]] else []) + MappedIds(ids[1..], remap)
  }

  function MappedGrants(grants: seq<SystemGrant>, remap: map<Pk, Pk>): seq<SystemGrant> {
    if grants == [] then []
    else
      (if grants[0].id in remap then [SystemGrant(remap[grants[0].id], grants[0].talkgroups)] else [])
        + MappedGrants(grants[1..], remap)
  }

  function WrittenIds(ids: seq<Pk>): Stored {
    Array(seq(|ids|, i requires 0 <= i < |ids| => Number(ids[i].n)))
  }

  function WrittenGrants(grants: seq<SystemGrant>): Stored {
    Array(seq(|grants|, i requires 0 <= i < |grants| => Object(grants[i])))
  }

  function Remapped(s: Stored, remap: map<Pk, Pk>): Stored {
    match s
    case Blank => s
    case Unreadable => s
    case JsonNull => WrittenGrants([])
    case Array(items) =>
      if AsGrants(items).Some? then WrittenGrants(MappedGrants(AsGrants(items).value, remap))
      else if AsIds(items).Some? then WrittenIds(MappedIds(AsIds(items).value, remap))
      else s
  }

  method RemapIds(ids: seq<Pk>, remap: map<Pk, Pk>) returns (mapped: seq<Pk>)
    ensures mapped == MappedIds(ids, remap)
  {
    mapped := [];
    for i := 0 to |ids|
      invariant mapped + MappedIds(ids[i..], remap) == MappedIds(ids, remap)
    {
      assert ids[i..][1..] == ids[i + 1..];
      if ids[i] in remap {
        mapped := mapped + [remap[ids[i]]];
      }
    }
  }

  method RemapGrants(grants: seq<SystemGrant>, remap: map<Pk, Pk>) returns (mapped: seq<SystemGrant>)
    ensures mapped == MappedGrants(grants, remap)
  {
    mapped := [];
    for i := 0 to |grants|
      invariant mapped + MappedGrants(grants[i..], remap) == MappedGrants(grants, remap)
    {
      assert grants[i..][1..] == grants[i + 1..];
      var g := grants[i];
      if g.id !in remap {
        continue;
      }
      mapped := mapped + [SystemGrant(remap[g.id], g.talkgroups)];
    }
  }

  method RemapSystemsJSON(s: Stored, remap: map<Pk, Pk>) returns (out: Stored)
    ensures out == Remapped(s, remap)
  {
    if s.Blank? || s.Unreadable? {
      return s;
    }
    var grants := if s.JsonNull? then Some([]) else AsGrants(s.items);
    if grants.None? {
      var ids := AsIds(s.items);
      if ids.None? {
        return s;
      }
      var mapped := RemapIds(ids.value, remap);
      return WrittenIds(mapped);
    }
    var mapped := RemapGrants(grants.value, remap);
    out := WrittenGrants(mapped);
  }

  // ---- What a written list reads as ----

  lemma {:induction false} ReadIds(ids: seq<Pk>)
    ensures AsIds(WrittenIds(ids).items) == Some(ids)
  {
    if ids != [] {
      ReadIds(ids[1..]);
      assert WrittenIds(ids).items[1..] == WrittenIds(ids[1..]).items;
      assert ids == [ids[0]] + ids[1..];
    }
  }

  lemma {:induction false} ReadGrants(grants: seq<SystemGrant>)
    ensures AsGrants(WrittenGrants(grants).items) == Some(grants)
    ensures grants != [] ==> AsIds(WrittenGrants(grants).items).None?
  {
    if grants != [] {
      ReadGrants(grants[1..]);
      assert WrittenGrants(grants).items[1..] == WrittenGrants(grants[1..]).items;
      assert grants == [grants[0]] + grants[1..];
    }
  }

  /** When both readings work every element is null, and they mean the same. */
  lemma {:induction false} BothReadings(items: seq<Item>)
    requires AsIds(items).Some? && AsGrants(items).Some?
    ensures Bare(AsIds(items).value) == AsGrants(items).value
  {
    if items != [] {
      BothReadings(items[1..]);
      assert ([Pk(0)] + AsIds(items[1..]).value)[1..] == AsIds(items[1..]).value;
    }
  }

  lemma {:induction false} BareMapped(ids: seq<Pk>, remap: map<Pk, Pk>)
    ensures Bare(MappedIds(ids, remap)) == MappedGrants(Bare(ids), remap)
  {
    if ids != [] {
      BareMapped(ids[1..], remap);
      var rest := MappedIds(ids[1..], remap);
      assert Bare(ids)[1..] == Bare(ids[1..]);
      if ids[0] in remap {
        assert ([remap[ids[0]]] + rest)[1..] == rest;
      } else {
        assert [] + rest == rest;
        assert MappedGrants(Bare(ids), remap) == [] + MappedGrants(Bare(ids[1..]), remap);
      }
    }
  }

  /** The list a rewritten column stands for: the mapped grants, or everything when none is left. */
  lemma {:induction false} RemappedReads(s: Stored, remap: map<Pk, Pk>)
    ensures var before, after := ParseSystemGrants(s), ParseSystemGrants(Remapped(s, remap));
            && (before.None? ==> after.None?)
            && (s.Unreadable? ==> after == Some([]))
            && (before.Some? && before.value != [] ==>
                  after == if MappedGrants(before.value, remap) == [] then None
                    else Some(MappedGrants(before.value, remap)))
            && (before.Some? && before.value == [] ==> after == before)
  {
    if s.Array? && s.items != [] {
      if AsGrants(s.items).Some? {
        var g := AsGrants(s.items).value;
        if AsIds(s.items).Some? { BothReadings(s.items); }
        ReadGrants(MappedGrants(g, remap));
        hide MappedGrants;
        assert MappedGrants(g, remap) == [] <==> WrittenGrants(MappedGrants(g, remap)).items == [];
      } else if AsIds(s.items).Some? {
        var ids := AsIds(s.items).value;
        ReadIds(MappedIds(ids, remap));
        BareMapped(ids, remap);
        hide MappedGrants, MappedIds;
      }
    }
  }

  // ---- Which systems survive ----

  ghost predicate OneToOne(remap: map<Pk, Pk>) {
    forall a, b :: a in remap && b in remap && remap[a] == remap[b] ==> a == b
  }

  lemma {:induction false} MappedAllows(grants: seq<SystemGrant>, remap: map<Pk, Pk>, system: Pk, talkgroup: Pk)
    requires OneToOne(remap) && system in remap
    ensures HasSystemAccess(Some(MappedGrants(grants, remap)), remap[system], talkgroup)
            <==> HasSystemAccess(Some(grants), system, talkgroup)
    ensures GrantsIncludeSystem(Some(MappedGrants(grants, remap)), remap[system])
            <==> GrantsIncludeSystem(Some(grants), system)
  {
    if grants != [] {
      MappedAllows(grants[1..], remap, system, talkgroup);
      var first := if grants[0].id in remap then [SystemGrant(remap[grants[0].id], grants[0].talkgroups)] else [];
      AccessSplit([grants[0]], grants[1..], system, talkgroup);
      AccessSplit(first, MappedGrants(grants[1..], remap), remap[system], talkgroup);
      assert [grants[0]] + grants[1..] == grants;
    }
  }

  lemma AccessSplit(a: seq<SystemGrant>, b: seq<SystemGrant>, system: Pk, talkgroup: Pk)
    requires |a| <= 1
    ensures HasSystemAccess(Some(a + b), system, talkgroup)
            <==> (a != [] && Allows(a[0], system, talkgroup)) || HasSystemAccess(Some(b), system, talkgroup)
    ensures GrantsIncludeSystem(Some(a + b), system)
            <==> (a != [] && a[0].id == system) || GrantsIncludeSystem(Some(b), system)
  {
    forall i | 0 <= i < |b|
      ensures (a + b)[|a| + i] == b[i]
    {
    }
    forall i | 0 <= i < |a + b|
      ensures (a + b)[i] == if i < |a| then a[i] else b[i - |a|]
    {
    }
  }

  lemma {:induction false} NoneMapped(grants: seq<SystemGrant>, remap: map<Pk, Pk>)
    ensures MappedGrants(grants, remap) == [] <==> forall i :: 0 <= i < |grants| ==> grants[i].id !in remap
  {
    if grants != [] {
      NoneMapped(grants[1..], remap);
      assert grants == [grants[0]] + grants[1..];
    }
  }

  /** A restricted list whose every system drops out. */
  ghost predicate AllDropped(grants: GrantList, remap: map<Pk, Pk>) {
    grants.Some? && grants.value != [] && forall i :: 0 <= i < |grants.value| ==> grants.value[i].id !in remap
  }

  /** A rewritten list covers each system exactly as before, in both stored shapes, unless every system it named
      dropped out. */
  lemma RemapKeepsSystems(s: Stored, remap: map<Pk, Pk>, system: Pk)
    requires OneToOne(remap) && system in remap && !AllDropped(ParseSystemGrants(s), remap)
    ensures GrantsIncludeSystem(ParseSystemGrants(Remapped(s, remap)), remap[system])
            <==> GrantsIncludeSystem(ParseSystemGrants(s), system)
  {
    RemappedReads(s, remap);
    var g := ParseSystemGrants(s);
    if g.Some? && g.value != [] {
      NoneMapped(g.value, remap);
      MappedAllows(g.value, remap, system, system);
      hide MappedGrants, ParseSystemGrants, Remapped;
    }
  }

  /** Exactly when the rewriting keeps what the list covers. */
  lemma {:induction false} RemapExact(s: Stored, remap: map<Pk, Pk>)
    requires OneToOne(remap)
    ensures (forall system :: system in remap ==>
               (GrantsIncludeSystem(ParseSystemGrants(Remapped(s, remap)), remap[system])
                <==> GrantsIncludeSystem(ParseSystemGrants(s), system)))
            <==> !AllDropped(ParseSystemGrants(s), remap) || remap == map[]
  {
    if !AllDropped(ParseSystemGrants(s), remap) {
      forall system | system in remap
        ensures GrantsIncludeSystem(ParseSystemGrants(Remapped(s, remap)), remap[system])
                <==> GrantsIncludeSystem(ParseSystemGrants(s), system)
      {
        RemapKeepsSystems(s, remap, system);
      }
    } else if remap != map[] {
      var system :| system in remap;
      Widened(s, remap, system);
    }
  }

  /** A restriction to systems that all drop out turns into access to everything. */
  lemma {:induction false} Widened(s: Stored, remap: map<Pk, Pk>, system: Pk)
    requires AllDropped(ParseSystemGrants(s), remap) && system in remap
    ensures !GrantsIncludeSystem(ParseSystemGrants(s), system)
    ensures ParseSystemGrants(Remapped(s, remap)).None?
            && GrantsIncludeSystem(ParseSystemGrants(Remapped(s, remap)), remap[system])
  {
    RemappedReads(s, remap);
    NoneMapped(ParseSystemGrants(s).value, remap);
  }

  // ---- Talkgroups are not rewritten ----

  /** Access to a call is kept for the same talkgroup primary key, whatever the talkgroup's new one is. */
  lemma {:induction false} TalkgroupsNotRemapped(s: Stored, remap: map<Pk, Pk>, system: Pk, talkgroup: Pk)
    requires OneToOne(remap) && system in remap && !AllDropped(ParseSystemGrants(s), remap)
    ensures HasSystemAccess(ParseSystemGrants(Remapped(s, remap)), remap[system], talkgroup)
            <==> HasSystemAccess(ParseSystemGrants(s), system, talkgroup)
  {
    RemappedReads(s, remap);
    var g := ParseSystemGrants(s);
    if g.Some? && g.value != [] {
      NoneMapped(g.value, remap);
      MappedAllows(g.value, remap, system, talkgroup);
      hide MappedGrants, ParseSystemGrants, Remapped;
    }
  }

  /** Some grant covers the whole system. */
  ghost predicate Unrestricted(grants: GrantList, system: Pk) {
    grants.None? || exists i ::
      0 <= i < |grants.value| && grants.value[i].id == system && grants.value[i].talkgroups == []
  }

  /** The talkgroups the list names under a system. */
  ghost function Named(grants: GrantList, system: Pk): set<Pk> {
    if grants.None? then {}
    else set i, j | 0 <= i < |grants.value| && grants.value[i].id == system && 0 <= j < |grants.value[i].talkgroups| ::
           grants.value[i].talkgroups[j]
  }

  lemma AccessMeans(grants: GrantList, system: Pk, talkgroup: Pk)
    ensures HasSystemAccess(grants, system, talkgroup)
            <==> Unrestricted(grants, system) || talkgroup in Named(grants, system)
  {
    if HasSystemAccess(grants, system, talkgroup) && grants.Some? {
      var i :| 0 <= i < |grants.value| && Allows(grants.value[i], system, talkgroup);
      if grants.value[i].talkgroups != [] {
        var j :| 0 <= j < |grants.value[i].talkgroups| && grants.value[i].talkgroups[j] == talkgroup;
        assert talkgroup in Named(grants, system);
      }
    }
    if Unrestricted(grants, system) && grants.Some? {
      var i :| 0 <= i < |grants.value| && grants.value[i].id == system && grants.value[i].talkgroups == [];
      assert Allows(grants.value[i], system, talkgroup);
    }
    if talkgroup in Named(grants, system) {
      var i, j :| 0 <= i < |grants.value| && grants.value[i].id == system && 0 <= j < |grants.value[i].talkgroups|
        && grants.value[i].talkgroups[j] == talkgroup;
      assert Allows(grants.value[i], system, talkgroup);
    }
  }

  /** The stored list lets a talkgroup through as before when the talkgroup's key is now moved: the whole system is
      covered, or the old and the new key are both named or both not. */
  ghost predicate TreatedAlike(grants: GrantList, system: Pk, talkgroup: Pk, moved: Pk) {
    Unrestricted(grants, system) || (talkgroup in Named(grants, system) <==> moved in Named(grants, system))
  }

  /** Access to one talkgroup is kept exactly when the list did not drop out whole and treats its two keys alike. */
  lemma {:induction false} TalkgroupKept(s: Stored, remap: map<Pk, Pk>, system: Pk, talkgroup: Pk, moved: Pk)
    requires OneToOne(remap) && system in remap
    ensures var before, after := ParseSystemGrants(s), ParseSystemGrants(Remapped(s, remap));
            (HasSystemAccess(after, remap[system], moved) <==> HasSystemAccess(before, system, talkgroup))
            <==> !AllDropped(before, remap) && TreatedAlike(before, system, talkgroup, moved)
  {
    hide ParseSystemGrants, Remapped, HasSystemAccess, Unrestricted, Named, OneToOne;
    var before := ParseSystemGrants(s);
    AccessMeans(before, system, talkgroup);
    AccessMeans(before, system, moved);
    if AllDropped(before, remap) {
      Widened(s, remap, system);
      NotCovered(before, system, talkgroup);
      NoneIsEverything(ParseSystemGrants(Remapped(s, remap)), remap[system], moved);
    } else {
      TalkgroupsNotRemapped(s, remap, system, moved);
    }
  }

  lemma NotCovered(grants: GrantList, system: Pk, talkgroup: Pk)
    requires !GrantsIncludeSystem(grants, system)
    ensures !HasSystemAccess(grants, system, talkgroup)
  {
  }

  lemma NoneIsEverything(grants: GrantList, system: Pk, talkgroup: Pk)
    ensures grants.None? ==> HasSystemAccess(grants, system, talkgroup)
  {
  }

  /** Every talkgroup a restore wrote is let through as before: owner is its system's old key, moved its own new one. */
  ghost predicate AccessKept(s: Stored, remap: map<Pk, Pk>, owner: map<Pk, Pk>, moved: map<Pk, Pk>)
    requires moved.Keys <= owner.Keys && owner.Values <= remap.Keys
  {
    forall tg :: tg in moved ==>
      (HasSystemAccess(ParseSystemGrants(Remapped(s, remap)), remap[owner[tg]], moved[tg])
       <==> HasSystemAccess(ParseSystemGrants(s), owner[tg], tg))
  }

  /** Over a whole restore, access by talkgroup is kept exactly when the list did not drop out whole and treats each
      talkgroup's old and new key alike. */
  lemma {:induction false} TalkgroupsKeptExact(s: Stored, remap: map<Pk, Pk>, owner: map<Pk, Pk>, moved: map<Pk, Pk>)
    requires OneToOne(remap) && moved.Keys <= owner.Keys && owner.Values <= remap.Keys
    ensures AccessKept(s, remap, owner, moved)
            <==> moved == map[]
                 || (!AllDropped(ParseSystemGrants(s), remap)
                     && forall tg :: tg in moved ==> TreatedAlike(ParseSystemGrants(s), owner[tg], tg, moved[tg]))
  {
    hide ParseSystemGrants, Remapped, HasSystemAccess, TreatedAlike, OneToOne, AllDropped;
    forall tg | tg in moved
      ensures (HasSystemAccess(ParseSystemGrants(Remapped(s, remap)), remap[owner[tg]], moved[tg])
               <==> HasSystemAccess(ParseSystemGrants(s), owner[tg], tg))
              <==> !AllDropped(ParseSystemGrants(s), remap)
                   && TreatedAlike(ParseSystemGrants(s), owner[tg], tg, moved[tg])
    {
      TalkgroupKept(s, remap, owner[tg], tg, moved[tg]);
    }
    if moved != map[] {
      var tg :| tg in moved;
    }
  }

  /** When no new key is one the list names under that system, as when the restore numbers its rows afresh: access is
      kept exactly when, wherever the whole system is not covered, the list names no talkgroup of the system whose
      key moved. */
  lemma {:induction false} NamedTalkgroupsLost(s: Stored, remap: map<Pk, Pk>, owner: map<Pk, Pk>, moved: map<Pk, Pk>)
    requires OneToOne(remap) && moved.Keys <= owner.Keys && owner.Values <= remap.Keys && moved != map[]
    requires forall tg :: tg in moved && moved[tg] != tg ==> moved[tg] !in Named(ParseSystemGrants(s), owner[tg])
    ensures AccessKept(s, remap, owner, moved)
            <==> !AllDropped(ParseSystemGrants(s), remap)
                 && forall tg :: tg in moved && moved[tg] != tg && tg in Named(ParseSystemGrants(s), owner[tg]) ==>
                      Unrestricted(ParseSystemGrants(s), owner[tg])
  {
    hide ParseSystemGrants, AccessKept, Unrestricted, Named, OneToOne, AllDropped;
    TalkgroupsKeptExact(s, remap, owner, moved);
  }

  /** A grant on talkgroup 5 of system 1: when the restore gives them the keys 9 and 2, the grant misses its
      talkgroup. */
  lemma {:induction false} TalkgroupExample()
    ensures var s, remap := Array([Object(SystemGrant(Pk(1), [Pk(5)]))]), map[Pk(1) := Pk(2)];
            && HasSystemAccess(ParseSystemGrants(s), Pk(1), Pk(5))
            && !HasSystemAccess(ParseSystemGrants(Remapped(s, remap)), Pk(2), Pk(9))
  {
    var s, remap := Array([Object(SystemGrant(Pk(1), [Pk(5)]))]), map[Pk(1) := Pk(2)];
    var g := SystemGrant(Pk(1), [Pk(5)]);
    assert s.items[1..] == [];
    assert AsGrants(s.items[1..]) == Some([]) && [g] + [] == [g];
    assert AsGrants(s.items) == Some([g]) && AsIds(s.items).None?;
    assert ParseSystemGrants(s) == Some([g]);
    assert Allows([g][0], Pk(1), Pk(5));
    assert [g][1..] == [];
    assert MappedGrants([g], remap) == [SystemGrant(Pk(2), [Pk(5)])];
    RemappedReads(s, remap);
  }
}
