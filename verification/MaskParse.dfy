// Parsing a file name by a mask, and printing a mask: what each does, and
// when the first undoes the second.
module MaskParse {
  import opened Common
  import opened Text
  import opened Mask

  // ---- From mask to pattern ----

  datatype Loc = Loc(start: nat, end: nat)

  /** Where the tokens are, left to right, each as long as it can be. */
  function Locs(mask: string, at: nat): seq<Loc>
    requires at <= |mask|
    decreases |mask| - at
  {
    if at == |mask| then []
    else if TokenAt(mask[at..]) then
      var end := at + TokenLength(mask[at..]);
      [Loc(at, end)] + Locs(mask, end)
    else Locs(mask, at + 1)
  }

  lemma {:induction false} NamesAppend(a: seq<Piece>, b: seq<Piece>)
    ensures Names(a + b) == Names(a) + Names(b)
  {
    if a == [] {
      assert a + b == b;
    } else {
      assert (a + b)[1..] == a[1..] + b;
      NamesAppend(a[1..], b);
    }
  }

  lemma {:induction false} LiteralNames(s: string)
    ensures Names(Literal(s)) == []
  {
    if s != "" {
      assert Literal(s)[1..] == Literal(s[1..]);
      LiteralNames(s[1..]);
    }
  }

  /** How far it is to the first token. */
  function Lead(s: string): (n: nat)
    ensures n <= |s| && (n < |s| ==> TokenAt(s[n..]))
  {
    if s == "" || TokenAt(s) then 0
    else
      var n := Lead(s[1..]);
      assert s[1..][n..] == s[1 + n..];
      1 + n
  }

  lemma {:induction false} LeadPieces(s: string)
    ensures Pieces(s) == Literal(s[..Lead(s)]) + Pieces(s[Lead(s)..])
    ensures HasToken(s) <==> Lead(s) < |s|
  {
    hide PiecesOf, TokenAt, TokenLength;
    if s == "" || TokenAt(s) {
      assert s[..0] == "" && s[0..] == s;
    } else {
      var n := Lead(s[1..]);
      LeadPieces(s[1..]);
      assert s[1..][n..] == s[1 + n..];
      assert Literal(s[..1 + n]) == [Lit(s[0])] + Literal(s[1..][..n]);
      assert [Lit(s[0])] + (Literal(s[1..][..n]) + Pieces(s[1 + n..])) == Literal(s[..1 + n]) + Pieces(s[1 + n..]);
    }
  }

  lemma {:induction false} LeadLocs(mask: string, at: nat)
    requires at <= |mask|
    ensures Locs(mask, at) == Locs(mask, at + Lead(mask[at..]))
    decreases |mask| - at
  {
    hide TokenAt, TokenLength;
    if at < |mask| && !TokenAt(mask[at..]) {
      assert mask[at..][1..] == mask[at + 1..];
      LeadLocs(mask, at + 1);
    }
  }

  /** The pattern from here on: the text up to the next token, the token, and the rest. */
  lemma NextToken(mask: string, at: nat)
    requires at <= |mask|
    ensures var locs := Locs(mask, at);
            && (locs == [] ==> Pieces(mask[at..]) == Literal(mask[at..]))
            && (locs == [] <==> !HasToken(mask[at..]))
            && (locs != [] ==>
                  var l := locs[0];
                  && at <= l.start < l.end <= |mask|
                  && locs[1..] == Locs(mask, l.end)
                  && Pieces(mask[at..]) == Literal(mask[at..l.start]) + PiecesOf(mask[l.start..l.end])
                     + Pieces(mask[l.end..]))
  {
    hide PiecesOf, TokenAt, TokenLength, Literal, HasToken;
    var rest := mask[at..];
    var start := at + Lead(rest);
    LeadPieces(rest);
    LeadLocs(mask, at);
    assert rest[Lead(rest)..] == mask[start..] && rest[..Lead(rest)] == mask[at..start];
    hide Pieces;
    if start < |mask| {
      TokenNext(mask, start);
    } else {
      assert Pieces("") == [] by { NoPieces(); }
      assert mask[at..start] == rest && mask[start..] == "";
      assert Literal(rest) + [] == Literal(rest);
    }
  }

  lemma NoPieces()
    ensures Pieces("") == []
  {
  }

  lemma TokenNext(mask: string, start: nat)
    requires start < |mask| && TokenAt(mask[start..])
    ensures var locs := Locs(mask, start);
            && locs != [] && locs[0].start == start < locs[0].end <= |mask|
            && locs[1..] == Locs(mask, locs[0].end)
            && Pieces(mask[start..]) == PiecesOf(mask[start..locs[0].end]) + Pieces(mask[locs[0].end..])
  {
    hide PiecesOf, TokenAt, TokenLength;
    var end := start + TokenLength(mask[start..]);
    assert mask[start..][..end - start] == mask[start..end] && mask[start..][end - start..] == mask[end..];
  }

  lemma TokenNames(token: string)
    ensures Names(PiecesOf(token)) == if KindOf(token).Some? then [token] else []
  {
    hide KindOf;
    LiteralNames(token);
  }

  /** Some text and a token written after a pattern. */
  lemma Grown(pattern: seq<Piece>, text: string, token: string, rest: seq<Piece>)
    ensures pattern + (Literal(text) + PiecesOf(token) + rest) == (pattern + Literal(text) + PiecesOf(token)) + rest
    ensures Names(pattern + Literal(text) + PiecesOf(token))
            == Names(pattern) + (if KindOf(token).Some? then [token] else [])
    ensures text == "" ==> pattern + Literal(text) == pattern
  {
    hide KindOf, Names, PiecesOf;
    LiteralNames(text);
    TokenNames(token);
    NamesAppend(pattern, Literal(text));
    NamesAppend(pattern + Literal(text), PiecesOf(token));
  }

  method BuildPattern(mask: string, locs: seq<Loc>) returns (pattern: seq<Piece>, names: seq<string>)
    requires locs == Locs(mask, 0)
    ensures pattern == Pieces(mask) && names == Names(pattern)
  {
    hide KindOf, Pieces, Locs, Names, Literal;
    pattern, names := [], [];
    assert names == Names(pattern) by { NoNames(); }
    var lastEnd: nat := 0;
    assert mask[0..] == mask;
    for j := 0 to |locs|
      invariant lastEnd <= |mask| && locs[j..] == Locs(mask, lastEnd)
      invariant pattern + Pieces(mask[lastEnd..]) == Pieces(mask)
      invariant names == Names(pattern)
    {
      NextToken(mask, lastEnd);
      var loc := locs[j];
      assert loc == locs[j..][0] && locs[j..][1..] == locs[j + 1..];
      var token := mask[loc.start..loc.end];
      Grown(pattern, mask[lastEnd..loc.start], token, Pieces(mask[loc.end..]));
      if loc.start > lastEnd {
        pattern := pattern + Literal(mask[lastEnd..loc.start]);
      }
      match KindOf(token) {
        case Some(kind) =>
          pattern := pattern + [Cap(token, kind)];
          names := names + [token];
        case None =>
          pattern := pattern + Literal(token);
      }
      lastEnd := loc.end;
    }
    NextToken(mask, lastEnd);
    LiteralNames(mask[lastEnd..]);
    NamesAppend(pattern, Literal(mask[lastEnd..]));
    if lastEnd < |mask| {
      pattern := pattern + Literal(mask[lastEnd..]);
    } else {
      assert Literal(mask[lastEnd..]) == [] by { NoLiteral(); }
    }
  }

  lemma NoNames()
    ensures Names([]) == []
  {
  }

  lemma NoLiteral()
    ensures Literal("") == []
  {
  }

  // ---- Parsing ----

  /** The last capture of a token wins. */
  function Captured(names: seq<string>, caps: seq<string>): map<string, string>
    requires |names| == |caps|
  {
    if names == [] then map[]
    else Captured(names[..|names| - 1], caps[..|caps| - 1])[names[|names| - 1] := caps[|caps| - 1]]
  }

  lemma {:induction false} FitsNames(ps: seq<Piece>, caps: seq<string>)
    requires Fits(ps, caps)
    ensures |Names(ps)| == |caps|
  {
    if ps != [] {
      FitsNames(ps[1..], if ps[0].Lit? then caps else caps[1..]);
    }
  }

  /** caps is the choice a leftmost-first match makes among all ways to read s. */
  ghost predicate Chosen(ps: seq<Piece>, caps: seq<string>, s: string) {
    Reads(ps, caps, s) && forall other :: Reads(ps, other, s) ==> Prefers(ps, caps, other)
  }

  lemma ChosenUnique(ps: seq<Piece>, a: seq<string>, b: seq<string>, s: string)
    requires Chosen(ps, a, s) && Chosen(ps, b, s)
    ensures a == b
  {
    PreferredUnique(ps, a, b, s);
  }

  method ParseMask(mask: string, filename: string) returns (r: Option<map<string, string>>)
    ensures r.Some? <==> HasToken(mask) && exists caps :: Reads(Pieces(mask), caps, filename)
    ensures forall caps :: r.Some? && Chosen(Pieces(mask), caps, filename) ==>
              |Names(Pieces(mask))| == |caps| && r.value == Captured(Names(Pieces(mask)), caps)
    ensures r.Some? ==> exists caps :: Chosen(Pieces(mask), caps, filename)
  {
    hide Pieces, Names, Fits, Fill, Prefers, Locs, Match;
    var locs := Locs(mask, 0);
    assert mask[0..] == mask;
    NextToken(mask, 0);
    if locs == [] {
      return None;
    }
    var pattern, names := BuildPattern(mask, locs);
    var subs := Match(pattern, filename);
    MatchBest(pattern, filename);
    if subs.None? {
      return None;
    }
    FitsNames(pattern, subs.value);
    var result := map[];
    for i := 0 to |names|
      invariant result == Captured(names[..i], subs.value[..i])
    {
      assert names[..i + 1][..i] == names[..i] && subs.value[..i + 1][..i] == subs.value[..i];
      result := result[names[i] := subs.value[i]];
    }
    assert names[..|names|] == names && subs.value[..|names|] == subs.value;
    assert Chosen(pattern, subs.value, filename);
    forall caps | Chosen(pattern, caps, filename)
      ensures caps == subs.value
    {
      ChosenUnique(pattern, caps, subs.value, filename);
    }
    r := Some(result);
  }

  // ---- Printing ----

  /** The values a mask can print. */
  datatype MaskTokens = MaskTokens(
    date: string, time: string, ztime: string, group: string, sysLabel: string, tag: string, tgAFS: string,
    unit: string, tgLabel: string, tgHz: string, tgKHz: string, tgMHz: string, tgID: string, sys: string,
    hz: string, kHz: string, mHz: string)

  /** Every token with its value, in the order the printer tries them. */
  function Replacements(t: MaskTokens): seq<(string, string)> {
    [("#DATE", t.date), ("#ZTIME", t.ztime), ("#TIME", t.time), ("#GROUP", t.group), ("#SYSLBL", t.sysLabel),
     ("#TAG", t.tag), ("#TGAFS", t.tgAFS), ("#UNIT", t.unit), ("#TGLBL", t.tgLabel), ("#TGMHZ", t.tgMHz),
     ("#TGKHZ", t.tgKHz), ("#TGHZ", t.tgHz),
     ("#TGID", t.tgID), ("#SYS", t.sys), ("#MHZ", t.mHz), ("#KHZ", t.kHz), ("#HZ", t.hz), ("#TG", t.tgID)]
  }

  /** The first replacement, in order, that s starts with. */
  function FirstAt(pairs: seq<(string, string)>, s: string): (r: Option<(string, string)>)
    ensures r.Some? ==> r.value.0 <= s && r.value in pairs
    ensures r.None? ==> forall p :: p in pairs ==> !(p.0 <= s)
  {
    if pairs == [] then None
    else if pairs[0].0 <= s then Some(pairs[0])
    else FirstAt(pairs[1..], s)
  }

  function Replace(pairs: seq<(string, string)>, s: string): string {
    if s == "" then ""
    else
      var p := FirstAt(pairs, s);
      if p.Some? && p.value.0 != "" then p.value.1 + Replace(pairs, s[|p.value.0|..])
      else [s[0]] + Replace(pairs, s[1..])
  }

  function ExpandMask(mask: string, t: MaskTokens): string {
    Replace(Replacements(t), mask)
  }
}
