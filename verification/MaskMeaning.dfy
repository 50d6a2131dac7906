// Parsing by a mask in terms of characters: what each token takes, which of
// several ways to cut a name is chosen, and a whole mask read at once.
module MaskMeaning {
  import opened Common
  import opened Text
  import opened Mask
  import opened MaskParse
  import opened MaskRoundTrip

  /** Whether a token can stand for this text: dates and times anything without white space, names anything on one line,
      ids and whole frequencies digits, and frequencies in MHz digits and points; never nothing. */
  predicate Takes(token: string, s: string) {
    && s != ""
    && (token in ["#DATE", "#ZTIME", "#TIME"] ==>
          forall i :: 0 <= i < |s| ==>
            s[i] != ' ' && s[i] != '\t' && s[i] != '\n' && s[i] != '\r' && s[i] != '\U{0C}')
    && (token in ["#GROUP", "#SYSLBL", "#TAG", "#TGAFS", "#TGLBL"] ==> forall i :: 0 <= i < |s| ==> s[i] != '\n')
    && (token in ["#UNIT", "#TGKHZ", "#TGHZ", "#TGID", "#SYS", "#KHZ", "#HZ", "#TG"] ==>
          forall i :: 0 <= i < |s| ==> '0' <= s[i] <= '9')
    && (token in ["#TGMHZ", "#MHZ"] ==> forall i :: 0 <= i < |s| ==> '0' <= s[i] <= '9' || s[i] == '.')
  }

  lemma {:induction false} TakesIs(token: string, s: string)
    requires token in TOKENS
    ensures KindOf(token).Some? && (OfKind(KindOf(token).value, s) <==> Takes(token, s))
  {
    KnownTokens(token);
    hide TOKENS;
    var k := KindOf(token).value;
    if k.Word? {
      assert token in ["#DATE", "#ZTIME", "#TIME"];
    } else if k.Text? {
      assert token in ["#GROUP", "#SYSLBL", "#TAG", "#TGAFS", "#TGLBL"];
    } else if k.Number? {
      assert token in ["#UNIT", "#TGKHZ", "#TGHZ", "#TGID", "#SYS", "#KHZ", "#HZ", "#TG"];
    } else {
      assert token in ["#TGMHZ", "#MHZ"];
    }
  }

  /** Dates, times and names take as little as they can, numbers as much. */
  lemma {:induction false} GreedyIs(token: string)
    requires token in TOKENS
    ensures KindOf(token).Some?
    ensures token in ["#UNIT", "#TGKHZ", "#TGHZ", "#TGID", "#SYS", "#KHZ", "#HZ", "#TG", "#TGMHZ", "#MHZ"] <==>
            Greedy(KindOf(token).value)
    ensures token in ["#DATE", "#ZTIME", "#TIME", "#GROUP", "#SYSLBL", "#TAG", "#TGAFS", "#TGLBL"] <==>
            !Greedy(KindOf(token).value)
  {
    KnownTokens(token);
  }

  // ---- One token ----

  /** A reading of a pattern that starts with a capture is its text and a reading of the rest. */
  lemma CaptureReads(ps: seq<Piece>, caps: seq<string>, s: string)
    requires ps != [] && ps[0].Cap?
    ensures Reads(ps, caps, s) <==>
            && caps != [] && OfKind(ps[0].kind, caps[0]) && caps[0] <= s
            && Reads(ps[1..], caps[1..], s[|caps[0]|..])
  {
    hide OfKind;
    if caps != [] && Fits(ps[1..], caps[1..]) {
      var rest := Fill(ps[1..], caps[1..]);
      assert (caps[0] + rest)[|caps[0]|..] == rest;
      assert caps[0] <= s ==> s == caps[0] + s[|caps[0]|..];
    }
  }

  lemma NothingReads(caps: seq<string>, s: string)
    ensures Reads([], caps, s) <==> caps == [] && s == ""
  {
  }

  lemma OneReads(p: Piece, caps: seq<string>, s: string)
    requires p.Cap?
    ensures Reads([p], caps, s) <==> caps == [s] && OfKind(p.kind, s)
  {
    hide OfKind, Fits, Fill, Reads;
    CaptureReads([p], caps, s);
    assert [p][1..] == [];
    if caps != [] && caps[0] <= s {
      NothingReads(caps[1..], s[|caps[0]|..]);
      assert caps[1..] == [] ==> caps == [caps[0]];
      assert s[|caps[0]|..] == "" ==> s == caps[0];
    }
  }

  lemma SingleReads(token: string, s: string, caps: seq<string>)
    requires KindOf(token).Some?
    ensures HasToken(token) && Pieces(token) == [CapOf(token)] && Names([CapOf(token)]) == [token]
    ensures Reads([CapOf(token)], caps, s) <==> caps == [s] && OfKind(KindOf(token).value, s)
  {
    hide KindOf, OfKind, TokenLength, Reads;
    KnownShaped(token);
    TokenFirst(token, "");
    assert token + "" == token;
    NoPieces();
    OneName(CapOf(token));
    OneReads(CapOf(token), caps, s);
  }

  /** A mask that is one token matches a name exactly when the token takes all of it. */
  method ParseOne(token: string, name: string) returns (r: Option<map<string, string>>)
    requires token in TOKENS
    ensures r == if Takes(token, name) then Some(map[token := name]) else None
  {
    r := ParseMask(token, name);
    hide KindOf, OfKind, Takes, TOKENS, Pieces, Names, Fits, Fill, Prefers;
    TakesIs(token, name);
    forall caps
      ensures Reads(Pieces(token), caps, name) <==> caps == [name] && Takes(token, name)
    {
      SingleReads(token, name, caps);
    }
    SingleReads(token, name, [name]);
    if Takes(token, name) {
      ghost var caps :| Chosen(Pieces(token), caps, name);
      assert caps == [name];
      assert Captured([token], [name]) == map[token := name] by { CapturedOne(token, name); }
    }
  }

  lemma CapturedOne(token: string, value: string)
    ensures Captured([token], [value]) == map[token := value]
  {
    assert [token][..0] == [] && [value][..0] == [];
  }

  // ---- Several tokens, none of whose texts holds a separator ----

  lemma {:induction false} OneInterleaving(tokens: seq<string>, seps: seq<char>, vs: seq<string>)
    requires |tokens| == |seps| + 1 == |vs| && (forall i :: 0 <= i < |tokens| ==> tokens[i] in TOKENS)
    requires NoUpper(seps) && forall i :: 0 <= i < |vs| ==> Takes(tokens[i], vs[i])
    requires forall i, c :: 0 <= i < |vs| && c in seps ==> c !in vs[i]
    ensures var ps := Pieces(Interleave(tokens, seps));
            && HasToken(Interleave(tokens, seps)) && Names(ps) == tokens
            && Reads(ps, vs, Interleave(vs, seps)) && Chosen(ps, vs, Interleave(vs, seps))
  {
    hide KindOf, OfKind, Takes, TOKENS, Pieces, Names, Fits, Fill, Prefers, Interleave, Alternating;
    forall i | 0 <= i < |tokens|
      ensures KindOf(tokens[i]).Some? && OfKind(KindOf(tokens[i]).value, vs[i])
    {
      TakesIs(tokens[i], vs[i]);
    }
    var ps := Alternating(tokens, seps);
    AlternatingPieces(tokens, seps);
    AlternatingReads(tokens, seps, vs);
    forall caps | Reads(ps, caps, Interleave(vs, seps))
      ensures Prefers(ps, vs, caps)
    {
      AlternatingReads(tokens, seps, caps);
      OneCut(vs, caps, seps);
      PrefersItself(ps, vs);
    }
  }

  lemma {:induction false} PrefersItself(ps: seq<Piece>, caps: seq<string>)
    requires Fits(ps, caps)
    ensures Prefers(ps, caps, caps)
  {
    if ps != [] {
      PrefersItself(ps[1..], if ps[0].Lit? then caps else caps[1..]);
    }
  }

  /** Tokens with single characters between them read a name of texts they take, with the same characters between them
      and in none of the texts, as exactly these texts. */
  method ParseInterleaved(tokens: seq<string>, seps: seq<char>, vs: seq<string>)
    returns (r: Option<map<string, string>>)
    requires |tokens| == |seps| + 1 == |vs| && (forall i :: 0 <= i < |tokens| ==> tokens[i] in TOKENS)
    requires NoUpper(seps) && forall i :: 0 <= i < |vs| ==> Takes(tokens[i], vs[i])
    requires forall i, c :: 0 <= i < |vs| && c in seps ==> c !in vs[i]
    ensures r == Some(Captured(tokens, vs))
  {
    r := ParseMask(Interleave(tokens, seps), Interleave(vs, seps));
    hide Takes, TOKENS, Pieces, Names, Fits, Fill, Prefers, Interleave;
    OneInterleaving(tokens, seps, vs);
  }

  lemma CapturedMore(tokens: seq<string>, vs: seq<string>, n: nat)
    requires n < |tokens| == |vs|
    ensures Captured(tokens[..n + 1], vs[..n + 1]) == Captured(tokens[..n], vs[..n])[tokens[n] := vs[n]]
  {
    assert tokens[..n + 1][..n] == tokens[..n] && vs[..n + 1][..n] == vs[..n];
  }

  lemma CapturedFive(tokens: seq<string>, vs: seq<string>)
    requires |tokens| == 5 == |vs|
    ensures Captured(tokens, vs) == map[tokens[0] := vs[0]][tokens[1] := vs[1]][tokens[2] := vs[2]]
                                      [tokens[3] := vs[3]][tokens[4] := vs[4]]
  {
    hide Captured;
    for n := 0 to 5
      invariant forall i :: 0 <= i < n ==>
                  Captured(tokens[..i + 1], vs[..i + 1]) == Captured(tokens[..i], vs[..i])[tokens[i] := vs[i]]
    {
      CapturedMore(tokens, vs, n);
    }
    CapturedNone();
    assert tokens[..0] == [] && vs[..0] == [] && tokens[..5] == tokens && vs[..5] == vs;
    var m0: map<string, string> := map[];
    assert m0[tokens[0] := vs[0]] == map[tokens[0] := vs[0]];
    assert tokens[..0 + 1] == tokens[..1] && tokens[..1 + 1] == tokens[..2];
  }

  lemma CapturedNone()
    ensures Captured([], []) == map[]
  {
  }

  /** Five parts with underscores between them. */
  lemma InterleavedFive(parts: seq<string>)
    requires |parts| == 5
    ensures Interleave(parts, ['_', '_', '_', '_'])
            == parts[0] + "_" + parts[1] + "_" + parts[2] + "_" + parts[3] + "_" + parts[4]
  {
    hide Interleave;
    InterleavedTwo(parts[3..], '_');
    InterleavedMore(parts[2..], ['_']);
    InterleavedMore(parts[1..], ['_', '_']);
    InterleavedMore(parts, ['_', '_', '_']);
    assert parts[1..][1..] == parts[2..] && parts[2..][1..] == parts[3..];
    assert ['_'] + ['_'] == ['_', '_'] && ['_'] + ['_', '_'] == ['_', '_', '_'];
    assert ['_'] + ['_', '_', '_'] == ['_', '_', '_', '_'];
    assert parts[3..][0] == parts[3] && parts[3..][1] == parts[4] && parts[2..][0] == parts[2];
    Associate(parts[0] + "_", parts[1] + "_", parts[2] + "_", parts[3] + "_" + parts[4]);
  }

  lemma Associate(a: string, b: string, c: string, d: string)
    ensures a + (b + (c + d)) == a + b + c + d
  {
  }

  lemma InterleavedMore(parts: seq<string>, seps: seq<char>)
    requires |parts| == |seps| + 2
    ensures Interleave(parts, ['_'] + seps) == parts[0] + "_" + Interleave(parts[1..], seps)
  {
    assert (['_'] + seps)[1..] == seps;
  }

  lemma WordTaken(token: string, s: string)
    requires token in ["#DATE", "#TIME"] && s != ""
    requires ' ' !in s && '\t' !in s && '\n' !in s && '\r' !in s && '\U{0C}' !in s
    ensures Takes(token, s) && token in TOKENS
  {
  }

  lemma TextTaken(token: string, s: string)
    requires token in ["#GROUP", "#TGLBL"] && s != "" && '\n' !in s
    ensures Takes(token, s) && token in TOKENS
  {
  }

  lemma NumberTaken(token: string, s: string)
    requires token == "#TG" && s != "" && forall i :: 0 <= i < |s| ==> '0' <= s[i] <= '9'
    ensures Takes(token, s) && token in TOKENS && '_' !in s
  {
  }

  const FIVE := ["#DATE", "#TIME", "#GROUP", "#TGLBL", "#TG"]

  lemma FiveMask()
    ensures Interleave(FIVE, ['_', '_', '_', '_']) == "#DATE_#TIME_#GROUP_#TGLBL_#TG"
  {
    hide Interleave;
    InterleavedFive(FIVE);
  }

  lemma FiveChosen(vs: seq<string>, name: string)
    requires |vs| == 5 && name == vs[0] + "_" + vs[1] + "_" + vs[2] + "_" + vs[3] + "_" + vs[4]
    requires forall i :: 0 <= i < 5 ==> FIVE[i] in TOKENS && Takes(FIVE[i], vs[i]) && '_' !in vs[i]
    ensures var ps := Pieces("#DATE_#TIME_#GROUP_#TGLBL_#TG");
            && HasToken("#DATE_#TIME_#GROUP_#TGLBL_#TG") && Names(ps) == FIVE
            && Reads(ps, vs, name) && Chosen(ps, vs, name)
  {
    hide Takes, TOKENS, Pieces, Names, Fits, Fill, Prefers, Interleave, Reads, Chosen, HasToken;
    FiveMask();
    InterleavedFive(vs);
    hide FIVE;
    assert NoUpper(['_', '_', '_', '_']);
    OneInterleaving(FIVE, ['_', '_', '_', '_'], vs);
  }

  /** The mask "#DATE_#TIME_#GROUP_#TGLBL_#TG" reads a date, a time, a group and a talkgroup label without underscores,
      and a number, joined by underscores, as these five. */
  method ParseFive(date: string, time: string, group: string, tgLabel: string, number: string)
    returns (r: Option<map<string, string>>)
    requires date != "" && ' ' !in date && '\t' !in date && '\n' !in date && '\r' !in date && '\U{0C}' !in date
    requires time != "" && ' ' !in time && '\t' !in time && '\n' !in time && '\r' !in time && '\U{0C}' !in time
    requires group != "" && '\n' !in group && tgLabel != "" && '\n' !in tgLabel
    requires number != "" && forall i :: 0 <= i < |number| ==> '0' <= number[i] <= '9'
    requires '_' !in date && '_' !in time && '_' !in group && '_' !in tgLabel
    ensures r == Some(map["#DATE" := date, "#TIME" := time, "#GROUP" := group, "#TGLBL" := tgLabel, "#TG" := number])
  {
    hide Takes, TOKENS, Pieces, Names, Fits, Fill, Prefers, Interleave, Captured, Reads, Chosen, HasToken;
    var name := date + "_" + time + "_" + group + "_" + tgLabel + "_" + number;
    r := ParseMask("#DATE_#TIME_#GROUP_#TGLBL_#TG", name);
    WordTaken(FIVE[0], date);
    WordTaken(FIVE[1], time);
    TextTaken(FIVE[2], group);
    TextTaken(FIVE[3], tgLabel);
    NumberTaken(FIVE[4], number);
    ghost var vs := [date, time, group, tgLabel, number];
    FiveChosen(vs, name);
    CapturedFive(FIVE, vs);
  }

  // ---- Two tokens, where a name can be cut in several places ----

  /** Two captures with at most a character between them: the preferred reading is told by the first length that
      differs. */
  lemma TwoPrefer(ps: seq<Piece>, a: seq<string>, b: seq<string>)
    requires (|ps| == 2 || (|ps| == 3 && ps[1].Lit?)) && ps[0].Cap? && ps[|ps| - 1].Cap?
    requires Fits(ps, a) && Fits(ps, b) && |a| == 2 == |b|
    ensures Prefers(ps, a, b) <==>
            if |a[0]| != |b[0]| then |a[0]| > |b[0]| <==> Greedy(ps[0].kind)
            else |a[1]| != |b[1]| ==> (|a[1]| > |b[1]| <==> Greedy(ps[|ps| - 1].kind))
  {
    hide OfKind, Greedy;
    var q := ps[|ps| - 1];
    assert a[1..] == [a[1]] && b[1..] == [b[1]];
    if |ps| == 2 {
      assert ps[1..] == [q];
    } else {
      assert ps[1..] == [ps[1], q] && [ps[1], q][1..] == [q];
    }
    OnePrefers(q, a[1], b[1]);
  }

  lemma OnePrefers(q: Piece, x: string, y: string)
    requires q.Cap? && Fits([q], [x]) && Fits([q], [y])
    ensures Prefers([q], [x], [y]) <==> (|x| != |y| ==> (|x| > |y| <==> Greedy(q.kind)))
  {
    hide OfKind, Greedy;
    assert [q][1..] == [] && [x][1..] == [] && [y][1..] == [];
  }

  lemma CapturedTwo(first: string, second: string, x: string, y: string)
    ensures Captured([first, second], [x, y]) == map[first := x][second := y]
  {
    CapturedOne(first, x);
    assert [first, second][..1] == [first] && [x, y][..1] == [x];
  }

  /** A date, time or name ends at the first separator: "#DATE_#TIME" reads "a_b_c" as "a" and "b_c". */
  method ParseLazy(first: string, second: string, sep: char, x: string, y: string)
    returns (r: Option<map<string, string>>)
    requires first in ["#DATE", "#ZTIME", "#TIME", "#GROUP", "#SYSLBL", "#TAG", "#TGAFS", "#TGLBL"]
    requires second in TOKENS && !('A' <= sep <= 'Z') && sep !in x && Takes(first, x) && Takes(second, y)
    ensures r == Some(map[first := x][second := y])
  {
    r := ParseMask(first + [sep] + second, x + [sep] + y);
    assert first in TOKENS;
    LazyChosen(first, second, sep, x, y);
    hide Takes, TOKENS, Pieces, Names, Fits, Fill, Prefers, Captured;
    CapturedTwo(first, second, x, y);
  }

  lemma InterleavedTwo(parts: seq<string>, sep: char)
    requires |parts| == 2
    ensures Interleave(parts, [sep]) == parts[0] + [sep] + parts[1]
  {
    assert [sep][1..] == [] && parts[1..] == [parts[1]];
  }

  lemma TwoPieces(first: string, second: string, sep: char)
    requires KindOf(first).Some? && KindOf(second).Some?
    ensures Alternating([first, second], [sep]) == [CapOf(first), Lit(sep), CapOf(second)]
  {
    hide KindOf;
    assert [sep][1..] == [] && [first, second][1..] == [second];
  }

  lemma {:induction false} LazyChosen(first: string, second: string, sep: char, x: string, y: string)
    requires first in TOKENS && second in TOKENS && KindOf(first).Some? && !Greedy(KindOf(first).value)
    requires !Upper(sep) && sep !in x && Takes(first, x) && Takes(second, y)
    ensures HasToken(first + [sep] + second) && Names(Pieces(first + [sep] + second)) == [first, second]
    ensures Reads(Pieces(first + [sep] + second), [x, y], x + [sep] + y)
    ensures Chosen(Pieces(first + [sep] + second), [x, y], x + [sep] + y)
  {
    var tokens, name := [first, second], x + [sep] + y;
    var ps := Alternating(tokens, [sep]);
    TakesIs(first, x);
    TakesIs(second, y);
    TwoPieces(first, second, sep);
    hide KindOf, OfKind, Takes, TOKENS, Pieces, Names, Fits, Fill, Prefers, Interleave, Alternating;
    InterleavedTwo(tokens, sep);
    InterleavedTwo([x, y], sep);
    AlternatingPieces(tokens, [sep]);
    AlternatingReads(tokens, [sep], [x, y]);
    forall caps | Reads(ps, caps, name)
      ensures Prefers(ps, [x, y], caps)
    {
      AlternatingReads(tokens, [sep], caps);
      InterleavedTwo(caps, sep);
      TwoPrefer(ps, [x, y], caps);
      assert name[|caps[0]|] == sep;
      assert |caps[0]| + 1 + |caps[1]| == |name|;
    }
  }

  /** Of two tokens side by side, the first takes all digits but one if it is numeric, else one. */
  method ParseAdjacent(first: string, second: string, s: string) returns (r: Option<map<string, string>>)
    requires first in TOKENS && second in TOKENS && |s| >= 2 && forall i :: 0 <= i < |s| ==> '0' <= s[i] <= '9'
    ensures first in ["#UNIT", "#TGKHZ", "#TGHZ", "#TGID", "#SYS", "#KHZ", "#HZ", "#TG", "#TGMHZ", "#MHZ"] ==>
              r == Some(map[first := s[..|s| - 1]][second := s[|s| - 1..]])
    ensures first in ["#DATE", "#ZTIME", "#TIME", "#GROUP", "#SYSLBL", "#TAG", "#TGAFS", "#TGLBL"] ==>
              r == Some(map[first := s[..1]][second := s[1..]])
  {
    hide *;
    r := ParseMask(first + second, s);
    GreedyIs(first);
    KnownTokens(second);
    ghost var k := if Greedy(KindOf(first).value) then |s| - 1 else 1;
    AdjacentChosen(first, second, s, k);
    CapturedTwo(first, second, s[..k], s[k..]);
  }

  lemma AdjacentPieces(first: string, second: string)
    requires KindOf(first).Some? && KindOf(second).Some?
    ensures HasToken(first + second) && Pieces(first + second) == [CapOf(first), CapOf(second)]
    ensures Names([CapOf(first), CapOf(second)]) == [first, second]
  {
    hide KindOf, TokenLength, Pieces;
    KnownShaped(first);
    KnownShaped(second);
    TokenFirst(first, second);
    TokenFirst(second, "");
    assert second + "" == second;
    NoPieces();
    NamesAppend([CapOf(first)], [CapOf(second)]);
    OneName(CapOf(first));
    OneName(CapOf(second));
  }

  lemma AdjacentReads(p: Piece, q: Piece, caps: seq<string>, s: string)
    requires p.Cap? && q.Cap?
    ensures Reads([p, q], caps, s) <==>
            |caps| == 2 && OfKind(p.kind, caps[0]) && OfKind(q.kind, caps[1]) && caps[0] + caps[1] == s
  {
    hide OfKind, Fits, Fill, Reads;
    CaptureReads([p, q], caps, s);
    assert [p, q][1..] == [q];
    if caps != [] && caps[0] <= s {
      var rest := s[|caps[0]|..];
      OneReads(q, caps[1..], rest);
      assert caps[0] + rest == s;
      assert |caps| == 2 ==> caps[1..] == [caps[1]];
      assert |caps| == 2 && caps[0] + caps[1] == s ==> caps[1] == rest;
    }
  }

  lemma DigitsTaken(token: string, s: string)
    requires KindOf(token).Some? && s != "" && forall i :: 0 <= i < |s| ==> '0' <= s[i] <= '9'
    ensures OfKind(KindOf(token).value, s)
  {
    hide KindOf;
  }

  lemma {:induction false} AdjacentChosen(first: string, second: string, s: string, k: nat)
    requires KindOf(first).Some? && KindOf(second).Some?
    requires |s| >= 2 && forall i :: 0 <= i < |s| ==> '0' <= s[i] <= '9'
    requires k == if Greedy(KindOf(first).value) then |s| - 1 else 1
    ensures HasToken(first + second) && Names(Pieces(first + second)) == [first, second]
    ensures Reads(Pieces(first + second), [s[..k], s[k..]], s)
    ensures Chosen(Pieces(first + second), [s[..k], s[k..]], s)
  {
    var ps := [CapOf(first), CapOf(second)];
    AdjacentPieces(first, second);
    DigitsTaken(first, s[..k]);
    DigitsTaken(second, s[k..]);
    hide KindOf, Pieces, Names, Fits, Fill, Prefers, Greedy;
    AdjacentReads(ps[0], ps[1], [s[..k], s[k..]], s);
    forall caps | Reads(ps, caps, s)
      ensures Prefers(ps, [s[..k], s[k..]], caps)
    {
      AdjacentPrefers(ps[0], ps[1], s, k, caps);
    }
    hide Reads;
  }

  lemma AdjacentPrefers(p: Piece, q: Piece, s: string, k: nat, caps: seq<string>)
    requires p.Cap? && q.Cap? && |s| >= 2 && k == if Greedy(p.kind) then |s| - 1 else 1
    requires Reads([p, q], caps, s) && Fits([p, q], [s[..k], s[k..]])
    ensures Prefers([p, q], [s[..k], s[k..]], caps)
  {
    hide Fits, Fill, Prefers, Greedy;
    AdjacentReads(p, q, caps, s);
    TwoPrefer([p, q], [s[..k], s[k..]], caps);
    assert |caps[0]| + |caps[1]| == |s| && |caps[0]| > 0 && |caps[1]| > 0;
  }
}
