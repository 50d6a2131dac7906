// The few string operations the server's comparisons rest on.
module Text {

  // ---- Decimal integers ----

  function Digits(n: nat): (s: string)
    ensures |s| > 0 && forall i :: 0 <= i < |s| ==> '0' <= s[i] <= '9'
  {
    if n < 10 then [(48 + n) as char] else Digits(n / 10) + [(48 + n % 10) as char]
  }

  function FormatInt(n: int): string {
    if n < 0 then "-" + Digits(-n) else Digits(n)
  }

  function ParseDigits(s: string): nat
    requires forall i :: 0 <= i < |s| ==> '0' <= s[i] <= '9'
  {
    if s == [] then 0 else ParseDigits(s[..|s| - 1]) * 10 + (s[|s| - 1] as int - 48)
  }

  lemma {:induction false} DigitsParse(n: nat)
    ensures ParseDigits(Digits(n)) == n
  {
    if n < 10 {
      assert Digits(n)[..0] == "";
    } else {
      DigitsParse(n / 10);
      assert Digits(n)[..|Digits(n)| - 1] == Digits(n / 10);
    }
  }

  lemma DigitsInjective(a: nat, b: nat)
    requires Digits(a) == Digits(b)
    ensures a == b
  {
    DigitsParse(a);
    DigitsParse(b);
  }

  lemma FormatIntInjective(a: int, b: int)
    requires FormatInt(a) == FormatInt(b)
    ensures a == b
  {
    SignChar(a);
    SignChar(b);
    if a < 0 && b < 0 {
      assert FormatInt(a)[1..] == Digits(-a) && FormatInt(b)[1..] == Digits(-b);
      DigitsInjective(-a, -b);
    } else if a >= 0 && b >= 0 {
      DigitsInjective(a, b);
    }
  }

  lemma SignChar(n: int)
    ensures |FormatInt(n)| > 0 && (FormatInt(n)[0] == '-' <==> n < 0)
  {
  }

  /** What FormatInt writes: a minus sign or a digit, then digits; never a colon or a separator. */
  lemma FormatIntChars(n: int)
    ensures |FormatInt(n)| > 0
    ensures forall i :: 0 <= i < |FormatInt(n)| ==> FormatInt(n)[i] == '-' || '0' <= FormatInt(n)[i] <= '9'
  {
  }

  // ---- Splitting at a character ----

  lemma CutNotEarlier(a: string, x: string, b: string, y: string, c: char)
    requires c !in b && a + [c] + x == b + [c] + y
    ensures |b| <= |a|
  {
    assert (a + [c] + x)[|a|] == c;
    assert forall i :: 0 <= i < |b| ==> (b + [c] + y)[i] == b[i];
  }

  /** Two strings cut at the first occurrence of c are cut at the same place. */
  lemma CutUnique(a: string, x: string, b: string, y: string, c: char)
    requires c !in a && c !in b
    requires a + [c] + x == b + [c] + y
    ensures a == b && x == y
  {
    CutNotEarlier(a, x, b, y, c);
    CutNotEarlier(b, y, a, x, c);
    var s, r := a + [c] + x, b + [c] + y;
    assert s[..|a|] == a && r[..|b|] == b;
    assert s[|a| + 1..] == x && r[|b| + 1..] == y;
  }

  // ---- Joining ----

  function Join(parts: seq<string>, c: char): string {
    if parts == [] then ""
    else if |parts| == 1 then parts[0]
    else parts[0] + [c] + Join(parts[1..], c)
  }

  ghost predicate Free(parts: seq<string>, c: char) {
    forall i :: 0 <= i < |parts| ==> c !in parts[i]
  }

  /** Joined parts can be told apart when none holds the separator. */
  lemma {:induction false} JoinInjective(a: seq<string>, b: seq<string>, c: char)
    requires |a| == |b| && Free(a, c) && Free(b, c)
    requires Join(a, c) == Join(b, c)
    ensures a == b
  {
    if |a| > 1 {
      CutUnique(a[0], Join(a[1..], c), b[0], Join(b[1..], c), c);
      JoinInjective(a[1..], b[1..], c);
    }
  }

  // ---- Case and space, for ASCII ----

  function LowerChar(c: char): char {
    if 'A' <= c <= 'Z' then (c as int + 32) as char else c
  }

  function ToLower(s: string): (r: string)
    ensures |r| == |s|
  {
    seq(|s|, i requires 0 <= i < |s| => LowerChar(s[i]))
  }

  predicate IsSpace(c: char) {
    c == ' ' || c == '\t' || c == '\n' || c == '\r' || c == '\U{0B}' || c == '\U{0C}'
  }

  function TrimLeft(s: string): string {
    if s != [] && IsSpace(s[0]) then TrimLeft(s[1..]) else s
  }

  function TrimRight(s: string): string {
    if s != [] && IsSpace(s[|s| - 1]) then TrimRight(s[..|s| - 1]) else s
  }

  function TrimSpace(s: string): string {
    TrimRight(TrimLeft(s))
  }

  lemma {:induction false} TrimmedEnds(s: string)
    ensures TrimLeft(s) != "" ==> !IsSpace(TrimLeft(s)[0])
    ensures TrimRight(s) != "" ==> s != ""
    ensures TrimRight(s) != "" ==> !IsSpace(TrimRight(s)[|TrimRight(s)| - 1]) && TrimRight(s)[0] == s[0]
  {
    if s != "" {
      TrimmedEnds(s[1..]);
      TrimmedEnds(s[..|s| - 1]);
    }
  }

  /** What trims to nothing is space throughout. */
  lemma {:induction false} AllSpace(s: string)
    ensures TrimRight(s) == "" ==> forall i :: 0 <= i < |s| ==> IsSpace(s[i])
    ensures TrimSpace(s) == "" && s != "" ==> IsSpace(s[0])
  {
    if s != "" {
      AllSpace(s[..|s| - 1]);
    }
  }

  // ---- Byte order ----

  predicate AtMost(a: string, b: string) {
    a == "" || (b != "" && (a[0] < b[0] || (a[0] == b[0] && AtMost(a[1..], b[1..]))))
  }

  lemma {:induction false} AtMostSelf(a: string)
    ensures AtMost(a, a)
  {
    if a != "" {
      AtMostSelf(a[1..]);
    }
  }

  lemma {:induction false} AtMostBoth(a: string, b: string)
    requires AtMost(a, b) && AtMost(b, a)
    ensures a == b
  {
    if a != "" {
      AtMostBoth(a[1..], b[1..]);
      assert a == [a[0]] + a[1..] && b == [b[0]] + b[1..];
    }
  }

  lemma {:induction false} AtMostTotal(a: string, b: string)
    ensures AtMost(a, b) || AtMost(b, a)
  {
    if a != "" && b != "" {
      AtMostTotal(a[1..], b[1..]);
    }
  }

  lemma {:induction false} AtMostTransitive(a: string, b: string, c: string)
    requires AtMost(a, b) && AtMost(b, c)
    ensures AtMost(a, c)
  {
    if a != "" && b != "" && c != "" && AtMost(a[1..], b[1..]) && AtMost(b[1..], c[1..]) {
      AtMostTransitive(a[1..], b[1..], c[1..]);
    }
  }
}
