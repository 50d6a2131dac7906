// Filename masks: a mask becomes a pattern, the pattern is matched against a
// name by a backtracking match, and the same mask prints names.
module Mask {
  import opened Common

  // ---- Tokens ----

  /** What a token captures: lazy \S+?, lazy .+?, greedy \d+, greedy [\d.]+ */
  datatype Kind = Word | Text | Number | Decimal

  predicate IsDigit(c: char) {
    '0' <= c <= '9'
  }

  predicate Allows(kind: Kind, c: char) {
    match kind
    case Word => c != '\t' && c != '\n' && c != '\U{0C}' && c != '\r' && c != ' '
    case Text => c != '\n'
    case Number => IsDigit(c)
    case Decimal => IsDigit(c) || c == '.'
  }

  predicate Greedy(kind: Kind) {
    kind.Number? || kind.Decimal?
  }

  /** A value the kind's capture can take: at least one character, all of the kind. */
  predicate OfKind(kind: Kind, v: string) {
    |v| > 0 && forall i :: 0 <= i < |v| ==> Allows(kind, v[i])
  }

  function KindOf(token: string): Option<Kind> {
    if token in ["#DATE", "#ZTIME", "#TIME"] then Some(Word)
    else if token in ["#GROUP", "#SYSLBL", "#TAG", "#TGAFS", "#TGLBL"] then Some(Kind.Text)
    else if token in ["#UNIT", "#TGKHZ", "#TGHZ", "#TGID", "#SYS", "#KHZ", "#HZ", "#TG"] then Some(Number)
    else if token in ["#TGMHZ", "#MHZ"] then Some(Decimal)
    else None
  }

  predicate Upper(c: char) {
    'A' <= c <= 'Z'
  }

  // ---- The pattern of a mask ----

  datatype Piece = Lit(c: char) | Cap(token: string, kind: Kind)

  /** A token starts here: # and at least one upper-case letter. */
  predicate TokenAt(s: string) {
    |s| > 1 && s[0] == '#' && Upper(s[1])
  }

  /** How many upper-case letters s starts with. */
  function UpperRun(s: string): (n: nat)
    ensures n <= |s| && (forall i :: 0 <= i < n ==> Upper(s[i])) && (n < |s| ==> !Upper(s[n]))
  {
    if s != "" && Upper(s[0]) then 1 + UpperRun(s[1..]) else 0
  }

  function TokenLength(s: string): (n: nat)
    requires TokenAt(s)
    ensures 1 < n <= |s|
  {
    1 + UpperRun(s[1..])
  }

  function Literal(s: string): (r: seq<Piece>)
    ensures |r| == |s|
  {
    seq(|s|, i requires 0 <= i < |s| => Lit(s[i]))
  }

  /** An unknown token stands for itself. */
  function PiecesOf(token: string): seq<Piece> {
    match KindOf(token)
    case Some(kind) => [Cap(token, kind)]
    case None => Literal(token)
  }

  function Pieces(mask: string): seq<Piece> {
    if mask == "" then []
    else if TokenAt(mask) then
      var n := TokenLength(mask);
      PiecesOf(mask[..n]) + Pieces(mask[n..])
    else [Lit(mask[0])] + Pieces(mask[1..])
  }

  predicate HasToken(mask: string) {
    mask != "" && (TokenAt(mask) || HasToken(mask[1..]))
  }

  // ---- What a pattern matches ----

  function Names(ps: seq<Piece>): seq<string> {
    if ps == [] then []
    else (if ps[0].Cap? then [ps[0].token] else []) + Names(ps[1..])
  }

  /** One value of the right kind for each capture. */
  ghost predicate Fits(ps: seq<Piece>, caps: seq<string>) {
    if ps == [] then caps == []
    else if ps[0].Lit? then Fits(ps[1..], caps)
    else caps != [] && OfKind(ps[0].kind, caps[0]) && Fits(ps[1..], caps[1..])
  }

  /** The literals with the captures put back between them. */
  ghost function Fill(ps: seq<Piece>, caps: seq<string>): string
    requires Fits(ps, caps)
  {
    if ps == [] then ""
    else if ps[0].Lit? then [ps[0].c] + Fill(ps[1..], caps)
    else caps[0] + Fill(ps[1..], caps[1..])
  }

  /** caps is a way to read s. */
  ghost predicate Reads(ps: seq<Piece>, caps: seq<string>, s: string) {
    Fits(ps, caps) && Fill(ps, caps) == s
  }

  /** At the first capture where a and b differ in length, a takes the shorter for a lazy token and the longer for a
      greedy one. */
  ghost predicate Prefers(ps: seq<Piece>, a: seq<string>, b: seq<string>)
    requires Fits(ps, a) && Fits(ps, b)
  {
    if ps == [] then true
    else if ps[0].Lit? then Prefers(ps[1..], a, b)
    else if |a[0]| == |b[0]| then Prefers(ps[1..], a[1..], b[1..])
    else |a[0]| > |b[0]| <==> Greedy(ps[0].kind)
  }

  // ---- The match ----

  function Run(kind: Kind, s: string): (n: nat)
    ensures n <= |s| && (forall i :: 0 <= i < n ==> Allows(kind, s[i])) && (n < |s| ==> !Allows(kind, s[n]))
  {
    if s != "" && Allows(kind, s[0]) then 1 + Run(kind, s[1..]) else 0
  }

  function Match(ps: seq<Piece>, s: string): Option<seq<string>>
    decreases |ps|, |s| + 2
  {
    if ps == [] then if s == "" then Some([]) else None
    else if ps[0].Lit? then
      if s != "" && s[0] == ps[0].c then Match(ps[1..], s[1..]) else None
    else if Greedy(ps[0].kind) then TryLongest(ps, s, Run(ps[0].kind, s))
    else TryShortest(ps, s, 1)
  }

  function TryLongest(ps: seq<Piece>, s: string, n: nat): Option<seq<string>>
    requires ps != [] && n <= |s|
    decreases |ps|, n
  {
    if n == 0 then None
    else
      var rest := Match(ps[1..], s[n..]);
      if rest.Some? then Some([s[..n]] + rest.value) else TryLongest(ps, s, n - 1)
  }

  function TryShortest(ps: seq<Piece>, s: string, n: nat): Option<seq<string>>
    requires ps != [] && ps[0].Cap? && n > 0
    decreases |ps|, |s| + 1 - n
  {
    if n > Run(ps[0].kind, s) then None
    else
      var rest := Match(ps[1..], s[n..]);
      if rest.Some? then Some([s[..n]] + rest.value) else TryShortest(ps, s, n + 1)
  }

  /** What a match of ps on s must be: none when there is no way to read s, else the preferred way. */
  ghost predicate Best(ps: seq<Piece>, s: string, r: Option<seq<string>>) {
    && (r.None? ==> forall caps :: !Reads(ps, caps, s))
    && (r.Some? ==> Reads(ps, r.value, s) && forall caps :: Reads(ps, caps, s) ==> Prefers(ps, r.value, caps))
  }

  lemma RunCovers(kind: Kind, s: string, n: nat)
    requires n <= |s| && forall i :: 0 <= i < n ==> Allows(kind, s[i])
    ensures n <= Run(kind, s)
  {
  }

  /** A reading whose first capture has n characters reads the rest of s with the rest. */
  lemma FirstCapture(ps: seq<Piece>, s: string, caps: seq<string>)
    requires ps != [] && ps[0].Cap? && Reads(ps, caps, s)
    ensures var n := |caps[0]|;
            && 0 < n <= Run(ps[0].kind, s) && caps[0] == s[..n] && Reads(ps[1..], caps[1..], s[n..])
  {
    var n := |caps[0]|;
    assert s == caps[0] + Fill(ps[1..], caps[1..]);
    assert s[..n] == caps[0] && s[n..] == Fill(ps[1..], caps[1..]);
    assert forall i :: 0 <= i < n ==> caps[0][i] == s[i];
    RunCovers(ps[0].kind, s, n);
  }

  /** A capture of n characters followed by a best reading of the rest. */
  lemma Extended(ps: seq<Piece>, s: string, n: nat, rest: seq<string>)
    requires ps != [] && ps[0].Cap? && 0 < n <= Run(ps[0].kind, s) && Best(ps[1..], s[n..], Some(rest))
    ensures Reads(ps, [s[..n]] + rest, s)
    ensures forall caps :: Reads(ps, caps, s) && |caps[0]| == n ==> Prefers(ps, [s[..n]] + rest, caps)
  {
    var mine := [s[..n]] + rest;
    assert mine[1..] == rest;
    assert s[..n] + s[n..] == s;
    forall caps | Reads(ps, caps, s) && |caps[0]| == n
      ensures Prefers(ps, mine, caps)
    {
      FirstCapture(ps, s, caps);
    }
  }

  lemma {:induction false} LongestBest(ps: seq<Piece>, s: string, n: nat)
    requires ps != [] && ps[0].Cap? && Greedy(ps[0].kind) && n <= Run(ps[0].kind, s)
    requires forall caps :: Reads(ps, caps, s) ==> |caps[0]| <= n
    ensures Best(ps, s, TryLongest(ps, s, n))
    decreases |ps|, n
  {
    if n == 0 {
      forall caps
        ensures !Reads(ps, caps, s)
      {
        if Reads(ps, caps, s) { FirstCapture(ps, s, caps); }
      }
    } else {
      MatchBest(ps[1..], s[n..]);
      var rest := Match(ps[1..], s[n..]);
      if rest.Some? {
        Extended(ps, s, n, rest.value);
      } else {
        forall caps | Reads(ps, caps, s)
          ensures |caps[0]| <= n - 1
        {
          FirstCapture(ps, s, caps);
        }
        LongestBest(ps, s, n - 1);
      }
    }
  }

  lemma {:induction false} ShortestBest(ps: seq<Piece>, s: string, n: nat)
    requires ps != [] && ps[0].Cap? && !Greedy(ps[0].kind) && n > 0
    requires forall caps :: Reads(ps, caps, s) ==> |caps[0]| >= n
    ensures Best(ps, s, TryShortest(ps, s, n))
    decreases |ps|, |s| + 1 - n
  {
    if n > Run(ps[0].kind, s) {
      forall caps
        ensures !Reads(ps, caps, s)
      {
        if Reads(ps, caps, s) { FirstCapture(ps, s, caps); }
      }
    } else {
      MatchBest(ps[1..], s[n..]);
      var rest := Match(ps[1..], s[n..]);
      if rest.Some? {
        Extended(ps, s, n, rest.value);
      } else {
        forall caps | Reads(ps, caps, s)
          ensures |caps[0]| >= n + 1
        {
          FirstCapture(ps, s, caps);
        }
        ShortestBest(ps, s, n + 1);
      }
    }
  }

  /**
   * The match succeeds exactly when s is the literals interleaved with one
   * value of each token's kind, and then returns the leftmost-first choice.
   */
  lemma {:induction false} MatchBest(ps: seq<Piece>, s: string)
    ensures Best(ps, s, Match(ps, s))
    decreases |ps|, |s| + 2
  {
    if ps == [] {
    } else if ps[0].Lit? {
      if s != "" && s[0] == ps[0].c {
        MatchBest(ps[1..], s[1..]);
        LiteralFirst(ps, s);
      } else {
        forall caps
          ensures Reads(ps, caps, s) ==> s != "" && s[0] == ps[0].c
        {
        }
      }
    } else if Greedy(ps[0].kind) {
      forall caps | Reads(ps, caps, s)
        ensures |caps[0]| <= Run(ps[0].kind, s)
      {
        FirstCapture(ps, s, caps);
      }
      LongestBest(ps, s, Run(ps[0].kind, s));
    } else {
      forall caps | Reads(ps, caps, s)
        ensures |caps[0]| >= 1
      {
        FirstCapture(ps, s, caps);
      }
      ShortestBest(ps, s, 1);
    }
  }

  lemma LiteralFirst(ps: seq<Piece>, s: string)
    requires ps != [] && ps[0].Lit? && s != "" && s[0] == ps[0].c
    ensures forall caps :: Reads(ps, caps, s) <==> Reads(ps[1..], caps, s[1..])
  {
    forall caps | Fits(ps, caps)
      ensures Fill(ps, caps) == s <==> Fill(ps[1..], caps) == s[1..]
    {
      assert s == [s[0]] + s[1..];
      assert ([ps[0].c] + Fill(ps[1..], caps))[1..] == Fill(ps[1..], caps);
    }
  }

  /** The preferred reading is unique. */
  lemma {:induction false} PreferredUnique(ps: seq<Piece>, a: seq<string>, b: seq<string>, s: string)
    requires Reads(ps, a, s) && Reads(ps, b, s) && Prefers(ps, a, b) && Prefers(ps, b, a)
    ensures a == b
  {
    if ps == [] {
    } else if ps[0].Lit? {
      LiteralFirst(ps, s);
      PreferredUnique(ps[1..], a, b, s[1..]);
    } else {
      FirstCapture(ps, s, a);
      FirstCapture(ps, s, b);
      PreferredUnique(ps[1..], a[1..], b[1..], s[|a[0]|..]);
      assert a == [a[0]] + a[1..] && b == [b[0]] + b[1..];
    }
  }
}
