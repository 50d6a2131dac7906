// A mask of tokens separated by single characters: parsing what it prints.
module MaskRoundTrip {
  import opened Common
  import opened Text
  import opened Mask
  import opened MaskParse

  /** parts with one separator between each two. */
  function Interleave(parts: seq<string>, seps: seq<char>): string
    requires |parts| == |seps| + 1
  {
    if seps == [] then parts[0] else parts[0] + [seps[0]] + Interleave(parts[1..], seps[1..])
  }

  ghost predicate Known(tokens: seq<string>) {
    forall i :: 0 <= i < |tokens| ==> KindOf(tokens[i]).Some?
  }

  function CapOf(token: string): Piece
    requires KindOf(token).Some?
  {
    Cap(token, KindOf(token).value)
  }

  /** The pattern such a mask means. */
  ghost function Alternating(tokens: seq<string>, seps: seq<char>): seq<Piece>
    requires |tokens| == |seps| + 1 && Known(tokens)
  {
    if seps == [] then [CapOf(tokens[0])] else [CapOf(tokens[0]), Lit(seps[0])] + Alternating(tokens[1..], seps[1..])
  }

  // ---- What tokens look like ----

  /** # and upper-case letters, at least one. */
  predicate TokenShaped(s: string) {
    |s| > 1 && s[0] == '#' && forall i :: 1 <= i < |s| ==> Upper(s[i])
  }

  lemma KnownShaped(token: string)
    requires KindOf(token).Some?
    ensures TokenShaped(token)
  {
  }

  /** The first letters of the known tokens, by length. */
  lemma KnownLetters(token: string)
    requires KindOf(token).Some?
    ensures 3 <= |token| <= 7
    ensures |token| == 3 ==> (token[1] == 'H' && token[2] == 'Z') || (token[1] == 'T' && token[2] == 'G')
    ensures |token| == 4 ==>
            token[1] in "TSMK" && (token[1] == 'T' ==> token[2] == 'A') && (token[1] != 'T' ==> token[2] in "YH")
    ensures |token| == 5 ==>
            (token[1] == 'D' && token[2] == 'A') || (token[1] == 'U' && token[2] == 'N')
            || (token[1] == 'T' && token[2] == 'I')
                             || (token[1] == 'T' && token[2] == 'G' && token[3] in "IH")
    ensures |token| == 6 ==> token[1] in "ZG" || (token[1] == 'T' && token[2] == 'G' && token[3] in "ALMK")
    ensures |token| == 7 ==> token[1] == 'S'
  {
  }

  /** No known token is another one and one more letter. */
  lemma NoneExtends(token: string, c: char)
    requires KindOf(token).Some?
    ensures KindOf(token + [c]).None?
  {
    hide KindOf;
    KnownLetters(token);
    if KindOf(token + [c]).Some? {
      KnownLetters(token + [c]);
    }
  }

  lemma {:induction false} UpperRunOf(s: string, tail: string)
    requires forall i :: 0 <= i < |s| ==> Upper(s[i])
    requires tail == "" || !Upper(tail[0])
    ensures UpperRun(s + tail) == |s|
  {
    if s == "" {
      assert s + tail == tail;
    } else {
      assert (s + tail)[1..] == s[1..] + tail;
      UpperRunOf(s[1..], tail);
    }
  }

  lemma TokenFirst(token: string, tail: string)
    requires TokenShaped(token) && (tail == "" || !Upper(tail[0]))
    ensures TokenAt(token + tail) && TokenLength(token + tail) == |token|
    ensures Pieces(token + tail) == PiecesOf(token) + Pieces(tail)
  {
    hide PiecesOf, UpperRun, Pieces;
    var s := token + tail;
    assert s[0] == token[0] && s[1] == token[1];
    assert s[1..] == token[1..] + tail;
    UpperRunOf(token[1..], tail);
    assert TokenAt(s) && TokenLength(s) == |token|;
    assert s[..|token|] == token && s[|token|..] == tail;
    TokenPieces(s, |token|);
  }

  lemma TokenPieces(s: string, n: nat)
    requires TokenAt(s) && TokenLength(s) == n && n <= |s|
    ensures Pieces(s) == PiecesOf(s[..n]) + Pieces(s[n..])
  {
    hide PiecesOf, TokenLength, TokenAt;
  }

  // ---- The pattern of an alternating mask ----

  predicate NoUpper(seps: seq<char>) {
    forall i :: 0 <= i < |seps| ==> !Upper(seps[i])
  }

  lemma {:induction false} AlternatingPieces(tokens: seq<string>, seps: seq<char>)
    requires |tokens| == |seps| + 1 && Known(tokens) && NoUpper(seps)
    ensures HasToken(Interleave(tokens, seps)) && Pieces(Interleave(tokens, seps)) == Alternating(tokens, seps)
  {
    hide KindOf, TokenAt, TokenLength;
    KnownShaped(tokens[0]);
    if seps == [] {
      TokenFirst(tokens[0], "");
      assert tokens[0] + "" == tokens[0];
    } else {
      var rest := Interleave(tokens[1..], seps[1..]);
      var tail := [seps[0]] + rest;
      AlternatingPieces(tokens[1..], seps[1..]);
      TokenFirst(tokens[0], tail);
      assert Interleave(tokens, seps) == tokens[0] + tail;
      assert tail[1..] == rest;
      KnownShaped(tokens[1]);
      SeparatorPiece(seps[0], rest);
    }
  }

  lemma SeparatorPiece(c: char, rest: string)
    requires !Upper(c) && rest != "" && rest[0] == '#'
    ensures Pieces([c] + rest) == [Lit(c)] + Pieces(rest)
  {
    assert ([c] + rest)[1..] == rest;
  }

  // ---- What an alternating pattern reads ----

  ghost predicate Values(tokens: seq<string>, vs: seq<string>)
    requires Known(tokens)
  {
    |vs| == |tokens| && forall i :: 0 <= i < |tokens| ==> OfKind(KindOf(tokens[i]).value, vs[i])
  }

  lemma {:induction false} AlternatingReads(tokens: seq<string>, seps: seq<char>, vs: seq<string>)
    requires |tokens| == |seps| + 1 && Known(tokens)
    ensures Fits(Alternating(tokens, seps), vs) <==> Values(tokens, vs)
    ensures Values(tokens, vs) ==> Fill(Alternating(tokens, seps), vs) == Interleave(vs, seps)
    ensures Names(Alternating(tokens, seps)) == tokens
  {
    hide KindOf, OfKind;
    var ps := Alternating(tokens, seps);
    if seps == [] {
      assert ps[1..] == [];
      assert vs != [] ==> vs[1..] == [] || |vs| > 1;
      assert tokens == [tokens[0]];
    } else {
      var rest := Alternating(tokens[1..], seps[1..]);
      assert ps[1..] == [Lit(seps[0])] + rest && ps[1..][1..] == rest;
      if vs != [] {
        AlternatingReads(tokens[1..], seps[1..], vs[1..]);
        assert Values(tokens, vs) <==> OfKind(KindOf(tokens[0]).value, vs[0]) && Values(tokens[1..], vs[1..]);
      } else {
        AlternatingReads(tokens[1..], seps[1..], vs);
      }
    }
  }

  // ---- One way to cut a printed name ----

  function Among(seps: set<char>, s: string): nat {
    if s == "" then 0 else (if s[0] in seps then 1 else 0) + Among(seps, s[1..])
  }

  lemma {:induction false} AmongAppend(seps: set<char>, a: string, b: string)
    ensures Among(seps, a + b) == Among(seps, a) + Among(seps, b)
  {
    if a == "" {
      assert a + b == b;
    } else {
      assert (a + b)[1..] == a[1..] + b;
      AmongAppend(seps, a[1..], b);
    }
  }

  lemma {:induction false} NoneAmong(seps: set<char>, s: string)
    ensures Among(seps, s) == 0 <==> forall c :: c in seps ==> c !in s
  {
    if s != "" {
      NoneAmong(seps, s[1..]);
      assert s == [s[0]] + s[1..];
    }
  }

  ghost predicate Clean(seps: set<char>, parts: seq<string>) {
    forall i :: 0 <= i < |parts| ==> Among(seps, parts[i]) == 0
  }

  /** An interleaving holds its separators, and no more exactly when its parts hold none. */
  lemma {:induction false} AmongInterleaved(all: set<char>, parts: seq<string>, seps: seq<char>)
    requires |parts| == |seps| + 1 && forall c :: c in seps ==> c in all
    ensures Among(all, Interleave(parts, seps)) >= |seps|
    ensures Among(all, Interleave(parts, seps)) == |seps| <==> Clean(all, parts)
  {
    if seps != [] {
      var rest := Interleave(parts[1..], seps[1..]);
      AmongAppend(all, parts[0] + [seps[0]], rest);
      AmongAppend(all, parts[0], [seps[0]]);
      assert [seps[0]][1..] == "";
      AmongInterleaved(all, parts[1..], seps[1..]);
      assert Clean(all, parts) <==> Among(all, parts[0]) == 0 && Clean(all, parts[1..]);
    }
  }

  lemma {:induction false} CleanCut(all: set<char>, a: seq<string>, b: seq<string>, seps: seq<char>)
    requires |a| == |b| == |seps| + 1 && (forall c :: c in seps ==> c in all) && Clean(all, a) && Clean(all, b)
    requires Interleave(a, seps) == Interleave(b, seps)
    ensures a == b
  {
    if seps != [] {
      NoneAmong(all, a[0]);
      NoneAmong(all, b[0]);
      CutUnique(a[0], Interleave(a[1..], seps[1..]), b[0], Interleave(b[1..], seps[1..]), seps[0]);
      CleanCut(all, a[1..], b[1..], seps[1..]);
      assert a == [a[0]] + a[1..] && b == [b[0]] + b[1..];
    } else {
      assert a == [a[0]] && b == [b[0]];
    }
  }

  /** Parts that hold none of the separators are the only parts of their interleaving. */
  lemma OneCut(a: seq<string>, b: seq<string>, seps: seq<char>)
    requires |a| == |b| == |seps| + 1 && Interleave(a, seps) == Interleave(b, seps)
    requires forall i :: 0 <= i < |a| ==> forall c :: c in seps ==> c !in a[i]
    ensures a == b
  {
    var all := set c | c in seps;
    forall i | 0 <= i < |a|
      ensures Among(all, a[i]) == 0
    {
      NoneAmong(all, a[i]);
    }
    AmongInterleaved(all, a, seps);
    AmongInterleaved(all, b, seps);
    CleanCut(all, a, b, seps);
  }

  // ---- Printing an alternating mask ----

  const TOKENS: seq<string> := [
    "#DATE", "#ZTIME", "#TIME", "#GROUP", "#SYSLBL", "#TAG", "#TGAFS", "#UNIT", "#TGLBL", "#TGMHZ", "#TGKHZ", "#TGHZ",
    "#TGID", "#SYS", "#MHZ", "#KHZ", "#HZ", "#TG"]

  /** No token is tried before a longer one it starts. */
  lemma {:induction false} LongerFirst(i: nat, j: nat)
    requires i < j < |TOKENS|
    ensures !(TOKENS[i] <= TOKENS[j])
  {
    var a, b := TOKENS[i], TOKENS[j];
    assert |a| <= |b| && a[1] == b[1] && a[2] == b[2] ==> |a| > 3 && a[3] != b[3];
  }

  lemma KnownTokens(token: string)
    ensures KindOf(token).Some? <==> token in TOKENS
  {
  }

  lemma TokensTried(t: MaskTokens, i: nat)
    requires i < |TOKENS|
    ensures |Replacements(t)| == |TOKENS| && Replacements(t)[i].0 == TOKENS[i]
  {
  }

  lemma {:induction false} FirstIs(pairs: seq<(string, string)>, s: string, j: nat)
    requires j < |pairs| && pairs[j].0 <= s && forall i :: 0 <= i < j ==> !(pairs[i].0 <= s)
    ensures FirstAt(pairs, s) == Some(pairs[j])
  {
    if j > 0 {
      FirstIs(pairs[1..], s, j - 1);
    }
  }

  /** The value a token prints. */
  function ValueOf(t: MaskTokens, token: string): string {
    var p := FirstAt(Replacements(t), token);
    if p.Some? then p.value.1 else token
  }

  lemma NotTriedFirst(shorter: string, token: string, tail: string)
    requires TokenShaped(shorter) && TokenShaped(token) && (tail == "" || !Upper(tail[0])) && !(shorter <= token)
    ensures !(shorter <= token + tail)
  {
    var s := token + tail;
    assert |shorter| <= |token| ==> s[..|shorter|] == token[..|shorter|];
    assert |token| < |shorter| && tail != "" ==> s[|token|] == tail[0] && Upper(shorter[|token|]);
  }

  /** At a token the printer tries exactly that token's replacement first. */
  lemma {:induction false} TokenPrinted(t: MaskTokens, token: string, tail: string)
    requires KindOf(token).Some? && (tail == "" || !Upper(tail[0]))
    ensures Replace(Replacements(t), token + tail) == ValueOf(t, token) + Replace(Replacements(t), tail)
  {
    hide KindOf, Replacements;
    KnownTokens(token);
    var j :| 0 <= j < |TOKENS| && TOKENS[j] == token;
    TokensTried(t, j);
    forall i | 0 <= i < j
      ensures !(Replacements(t)[i].0 <= token + tail) && !(Replacements(t)[i].0 <= token)
    {
      TokensTried(t, i);
      LongerFirst(i, j);
      KnownTokens(TOKENS[i]);
      KnownShaped(TOKENS[i]);
      KnownShaped(token);
      NotTriedFirst(TOKENS[i], token, tail);
    }
    hide TOKENS;
    assert (token + tail)[|token|..] == tail;
    FirstIs(Replacements(t), token + tail, j);
    FirstIs(Replacements(t), token, j);
    KnownShaped(token);
  }

  /** A token prints what stands beside it in the list of replacements. */
  lemma ValueIs(t: MaskTokens, j: nat)
    requires j < |TOKENS|
    ensures |Replacements(t)| == |TOKENS| && ValueOf(t, TOKENS[j]) == Replacements(t)[j].1
  {
    hide Replacements;
    TokensTried(t, j);
    forall i | 0 <= i < j
      ensures !(Replacements(t)[i].0 <= TOKENS[j])
    {
      TokensTried(t, i);
      LongerFirst(i, j);
    }
    hide TOKENS;
    FirstIs(Replacements(t), TOKENS[j], j);
  }

  /** Each token prints its own value, #TG the talkgroup's id. */
  lemma PrintedValues(t: MaskTokens)
    ensures ValueOf(t, "#DATE") == t.date && ValueOf(t, "#TIME") == t.time && ValueOf(t, "#ZTIME") == t.ztime
    ensures ValueOf(t, "#GROUP") == t.group && ValueOf(t, "#SYSLBL") == t.sysLabel && ValueOf(t, "#TAG") == t.tag
    ensures ValueOf(t, "#TGAFS") == t.tgAFS && ValueOf(t, "#UNIT") == t.unit && ValueOf(t, "#TGLBL") == t.tgLabel
    ensures ValueOf(t, "#TGHZ") == t.tgHz && ValueOf(t, "#TGKHZ") == t.tgKHz && ValueOf(t, "#TGMHZ") == t.tgMHz
    ensures ValueOf(t, "#TGID") == t.tgID && ValueOf(t, "#TG") == t.tgID && ValueOf(t, "#SYS") == t.sys
    ensures ValueOf(t, "#HZ") == t.hz && ValueOf(t, "#KHZ") == t.kHz && ValueOf(t, "#MHZ") == t.mHz
  {
    hide ValueOf;
    forall j | 0 <= j < |TOKENS|
      ensures |Replacements(t)| == |TOKENS| && ValueOf(t, TOKENS[j]) == Replacements(t)[j].1
    {
      ValueIs(t, j);
    }
    assert ValueOf(t, TOKENS[0]) == t.date && ValueOf(t, TOKENS[1]) == t.ztime && ValueOf(t, TOKENS[2]) == t.time;
    assert ValueOf(t, TOKENS[3]) == t.group && ValueOf(t, TOKENS[4]) == t.sysLabel && ValueOf(t, TOKENS[5]) == t.tag;
    assert ValueOf(t, TOKENS[6]) == t.tgAFS && ValueOf(t, TOKENS[7]) == t.unit && ValueOf(t, TOKENS[8]) == t.tgLabel;
    assert ValueOf(t, TOKENS[9]) == t.tgMHz && ValueOf(t, TOKENS[10]) == t.tgKHz && ValueOf(t, TOKENS[11]) == t.tgHz;
    assert ValueOf(t, TOKENS[12]) == t.tgID && ValueOf(t, TOKENS[13]) == t.sys && ValueOf(t, TOKENS[14]) == t.mHz;
    assert ValueOf(t, TOKENS[15]) == t.kHz && ValueOf(t, TOKENS[16]) == t.hz && ValueOf(t, TOKENS[17]) == t.tgID;
  }

  lemma SeparatorPrinted(t: MaskTokens, c: char, rest: string)
    requires !Upper(c) && rest != "" && rest[0] == '#'
    ensures Replace(Replacements(t), [c] + rest) == [c] + Replace(Replacements(t), rest)
  {
    hide Replacements;
    var s := [c] + rest;
    forall p | p in Replacements(t)
      ensures !(p.0 <= s)
    {
      var i :| 0 <= i < |Replacements(t)| && Replacements(t)[i] == p;
      NotPrinted(t, i, c, rest);
    }
    assert s[1..] == rest;
  }

  lemma NotPrinted(t: MaskTokens, i: nat, c: char, rest: string)
    requires i < |Replacements(t)| && !Upper(c) && rest != "" && rest[0] == '#'
    ensures !(Replacements(t)[i].0 <= [c] + rest)
  {
    hide KindOf, Replacements;
    assert |Replacements(t)| == |TOKENS| by { TokensTried(t, 0); }
    TokensTried(t, i);
    KnownTokens(TOKENS[i]);
    KnownShaped(TOKENS[i]);
    hide TOKENS;
    assert ([c] + rest)[1] == rest[0] && Upper(TOKENS[i][1]);
  }

  function ValuesOf(t: MaskTokens, tokens: seq<string>): (vs: seq<string>)
    ensures |vs| == |tokens|
  {
    seq(|tokens|, i requires 0 <= i < |tokens| => ValueOf(t, tokens[i]))
  }

  /** Printing an alternating mask puts the values where the tokens were. */
  lemma {:induction false} AlternatingPrints(t: MaskTokens, tokens: seq<string>, seps: seq<char>)
    requires |tokens| == |seps| + 1 && Known(tokens) && NoUpper(seps)
    ensures ExpandMask(Interleave(tokens, seps), t) == Interleave(ValuesOf(t, tokens), seps)
  {
    hide KindOf, Replacements, ValueOf;
    if seps == [] {
      TokenPrinted(t, tokens[0], "");
      assert tokens[0] + "" == tokens[0];
      assert ValueOf(t, tokens[0]) + "" == ValueOf(t, tokens[0]);
    } else {
      hide Interleave, Replace;
      var rest := Interleave(tokens[1..], seps[1..]);
      AlternatingPrints(t, tokens[1..], seps[1..]);
      InterleaveMore(tokens, seps);
      InterleaveMore(ValuesOf(t, tokens), seps);
      FirstToken(tokens[1..], seps[1..]);
      TokenPrinted(t, tokens[0], [seps[0]] + rest);
      SeparatorPrinted(t, seps[0], rest);
      assert ValuesOf(t, tokens)[1..] == ValuesOf(t, tokens[1..]);
    }
  }

  lemma InterleaveMore(parts: seq<string>, seps: seq<char>)
    requires |parts| == |seps| + 1 && seps != []
    ensures Interleave(parts, seps) == parts[0] + ([seps[0]] + Interleave(parts[1..], seps[1..]))
  {
  }

  lemma FirstToken(tokens: seq<string>, seps: seq<char>)
    requires |tokens| == |seps| + 1 && Known(tokens)
    ensures Interleave(tokens, seps) != "" && Interleave(tokens, seps)[0] == '#'
  {
    hide KindOf;
    KnownShaped(tokens[0]);
  }

  // ---- The round trip ----

  /** The token values are of their kinds and hold no separator. */
  ghost predicate Printable(t: MaskTokens, tokens: seq<string>, seps: seq<char>)
    requires Known(tokens)
  {
    && Values(tokens, ValuesOf(t, tokens))
    && forall i, c :: 0 <= i < |tokens| && c in seps ==> c !in ValueOf(t, tokens[i])
  }

  ghost function ValueMap(t: MaskTokens, tokens: seq<string>): map<string, string> {
    map token | token in tokens :: ValueOf(t, token)
  }

  lemma {:induction false} CapturedValues(t: MaskTokens, tokens: seq<string>)
    ensures Captured(tokens, ValuesOf(t, tokens)) == ValueMap(t, tokens)
  {
    hide ValueOf;
    if tokens != [] {
      var n := |tokens| - 1;
      CapturedValues(t, tokens[..n]);
      assert ValuesOf(t, tokens)[..n] == ValuesOf(t, tokens[..n]);
      assert tokens == tokens[..n] + [tokens[n]];
    }
  }

  /** Without upper-case separators the printed name has exactly one reading: the values. */
  lemma {:induction false} OneReading(t: MaskTokens, tokens: seq<string>, seps: seq<char>)
    requires |tokens| == |seps| + 1 && Known(tokens) && NoUpper(seps) && Printable(t, tokens, seps)
    ensures var mask := Interleave(tokens, seps);
            && HasToken(mask) && Names(Pieces(mask)) == tokens
            && (forall vs :: Reads(Pieces(mask), vs, ExpandMask(mask, t)) <==> vs == ValuesOf(t, tokens))
  {
    hide KindOf, Replacements, ValueOf, Alternating, Fits, Fill, Interleave;
    AlternatingPieces(tokens, seps);
    AlternatingPrints(t, tokens, seps);
    var values := ValuesOf(t, tokens);
    AlternatingReads(tokens, seps, values);
    forall vs | Reads(Alternating(tokens, seps), vs, Interleave(values, seps))
      ensures vs == values
    {
      AlternatingReads(tokens, seps, vs);
      OneCut(values, vs, seps);
    }
  }

  /** A token followed by an upper-case separator is read as a longer, unknown token. */
  lemma {:induction false} SwallowedNames(tokens: seq<string>, seps: seq<char>, token: string)
    requires |tokens| == |seps| + 1 && Known(tokens)
    requires token in Names(Pieces(Interleave(tokens, seps)))
    ensures exists i :: 0 <= i < |tokens| && tokens[i] == token && (i < |seps| ==> !Upper(seps[i]))
  {
    hide KindOf, TokenAt, TokenLength;
    var first := tokens[0];
    KnownShaped(first);
    if seps == [] {
      TokenFirst(first, "");
      assert first + "" == first;
      assert Pieces("") == [];
      assert Names([CapOf(first)] + []) == [first];
      assert tokens[0] == token;
    } else {
      var rest := Interleave(tokens[1..], seps[1..]);
      KnownShaped(tokens[1]);
      FirstNames(first, seps[0], rest);
      if token in Names(Pieces(rest)) {
        SwallowedNames(tokens[1..], seps[1..], token);
        var i :| 0 <= i < |tokens[1..]| && tokens[1..][i] == token && (i < |seps[1..]| ==> !Upper(seps[1..][i]));
        assert tokens[i + 1] == token;
      } else {
        assert tokens[0] == token;
      }
    }
  }

  lemma FirstNames(first: string, c: char, rest: string)
    requires KindOf(first).Some? && rest != "" && rest[0] == '#'
    ensures Names(Pieces(first + [c] + rest)) == (if Upper(c) then [] else [first]) + Names(Pieces(rest))
  {
    hide KindOf, TokenAt, TokenLength, Pieces, UpperRun;
    KnownShaped(first);
    if Upper(c) {
      TokenFirst(first + [c], rest);
      NoneExtends(first, c);
      LiteralNames(first + [c]);
      NamesAppend(Literal(first + [c]), Pieces(rest));
    } else {
      assert first + [c] + rest == first + ([c] + rest);
      TokenFirst(first, [c] + rest);
      SeparatorPiece(c, rest);
      NamesAppend([CapOf(first)], [Lit(c)] + Pieces(rest));
      NamesAppend([Lit(c)], Pieces(rest));
      assert Names([CapOf(first)]) == [first] && Names([Lit(c)]) == [] by { OneName(CapOf(first)); OneName(Lit(c)); }
      hide Names;
    }
  }

  lemma OneName(p: Piece)
    ensures Names([p]) == if p.Cap? then [p.token] else []
  {
    assert [p][1..] == [];
  }

  /** With X between them, #TG is read as the unknown token #TGX and its value is lost. */
  lemma {:induction false} UpperExample()
    ensures Names(Pieces("#TG" + ['X'] + "#DATE")) == ["#DATE"]
  {
    FirstNames("#TG", 'X', "#DATE");
    TokenFirst("#DATE", "");
    assert "#DATE" + "" == "#DATE";
    assert Names([CapOf("#DATE")] + []) == ["#DATE"];
  }

  lemma {:induction false} CapturedKeys(names: seq<string>, caps: seq<string>)
    requires |names| == |caps|
    ensures forall token :: token in Captured(names, caps) ==> token in names
  {
    if names != [] {
      CapturedKeys(names[..|names| - 1], caps[..|caps| - 1]);
    }
  }

  ghost predicate Distinct(tokens: seq<string>) {
    forall i, j :: 0 <= i < j < |tokens| ==> tokens[i] != tokens[j]
  }

  lemma MissingName(tokens: seq<string>, seps: seq<char>, caps: seq<string>, i: nat)
    requires |tokens| == |seps| + 1 && Known(tokens) && Distinct(tokens) && i < |seps| && Upper(seps[i])
    requires |Names(Pieces(Interleave(tokens, seps)))| == |caps|
    ensures tokens[i] !in Captured(Names(Pieces(Interleave(tokens, seps))), caps)
  {
    hide KindOf, Pieces, Names, Interleave;
    var names := Names(Pieces(Interleave(tokens, seps)));
    CapturedKeys(names, caps);
    if tokens[i] in names {
      SwallowedNames(tokens, seps, tokens[i]);
    }
  }

  /**
   * Print a mask of known tokens separated by single characters that occur in
   * no value, and parse the name back: the values come back when no separator
   * is an upper-case letter, and for distinct tokens only then.
   */
  method PrintAndParse(tokens: seq<string>, seps: seq<char>, t: MaskTokens)
    returns (filename: string, r: Option<map<string, string>>)
    requires |tokens| == |seps| + 1 && Known(tokens) && Printable(t, tokens, seps)
    ensures filename == ExpandMask(Interleave(tokens, seps), t)
    ensures NoUpper(seps) ==> filename == Interleave(ValuesOf(t, tokens), seps) && r == Some(ValueMap(t, tokens))
    ensures Distinct(tokens) ==> (r == Some(ValueMap(t, tokens)) <==> NoUpper(seps))
  {
    hide KindOf, Replacements, ValueOf, Alternating, Fits, Fill, Prefers, Pieces, Names, Interleave, Replace;
    var mask := Interleave(tokens, seps);
    filename := ExpandMask(mask, t);
    r := ParseMask(mask, filename);
    if NoUpper(seps) {
      OneReading(t, tokens, seps);
      AlternatingPrints(t, tokens, seps);
      CapturedValues(t, tokens);
      assert Reads(Pieces(mask), ValuesOf(t, tokens), filename);
    } else if r.Some? {
      ghost var caps :| Chosen(Pieces(mask), caps, filename);
      ghost var i :| 0 <= i < |seps| && Upper(seps[i]);
      if Distinct(tokens) {
        MissingName(tokens, seps, caps, i);
        assert tokens[i] in ValueMap(t, tokens);
      }
    }
  }
}
