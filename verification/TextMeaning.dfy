// What trimming, lower case and byte order do, character by character.
module TextMeaning {
  import opened Text

  /** Tab, line feed, vertical tab, form feed, carriage return and space. */
  lemma SpaceMeans(c: char)
    ensures IsSpace(c) <==> 9 <= c as int <= 13 || c as int == 32
  {
  }

  ghost predicate Blank(s: string) {
    forall i :: 0 <= i < |s| ==> IsSpace(s[i])
  }

  lemma {:induction false} TrimLeftOf(before: string, rest: string)
    requires Blank(before) && (rest == "" || !IsSpace(rest[0]))
    ensures TrimLeft(before + rest) == rest
  {
    hide IsSpace;
    if before == "" {
      assert before + rest == rest;
    } else {
      assert (before + rest)[1..] == before[1..] + rest;
      TrimLeftOf(before[1..], rest);
    }
  }

  lemma {:induction false} TrimRightOf(rest: string, after: string)
    requires Blank(after) && (rest == "" || !IsSpace(rest[|rest| - 1]))
    ensures TrimRight(rest + after) == rest
  {
    hide IsSpace;
    if after == "" {
      assert rest + after == rest;
    } else {
      var n := |after| - 1;
      assert (rest + after)[..|rest| + n] == rest + after[..n];
      TrimRightOf(rest, after[..n]);
    }
  }

  /** Trimming takes the space on both sides and nothing else. */
  lemma {:induction false} TrimOf(before: string, core: string, after: string)
    requires Blank(before) && Blank(after)
    requires core != "" ==> !IsSpace(core[0]) && !IsSpace(core[|core| - 1])
    ensures TrimSpace(before + core + after) == core
  {
    if core == "" {
      assert before + core + after == (before + after) + "";
      TrimLeftOf(before + after, "");
      TrimRightOf("", "");
    } else {
      assert before + core + after == before + (core + after);
      TrimLeftOf(before, core + after);
      TrimRightOf(core, after);
    }
  }

  /** Lower case takes each of the letters A to Z to its small one and leaves every other character. */
  lemma {:induction false} LowerMeans(s: string, i: nat, k: nat)
    requires i < |s| && k < 26
    ensures s[i] == "ABCDEFGHIJKLMNOPQRSTUVWXYZ"[k] ==> ToLower(s)[i] == "abcdefghijklmnopqrstuvwxyz"[k]
    ensures s[i] !in "ABCDEFGHIJKLMNOPQRSTUVWXYZ" ==> ToLower(s)[i] == s[i]
  {
    var upper, lower := "ABCDEFGHIJKLMNOPQRSTUVWXYZ", "abcdefghijklmnopqrstuvwxyz";
    assert upper[k] as int == 65 + k && lower[k] as int == 97 + k;
    var c := s[i];
    if 'A' <= c <= 'Z' {
      assert upper[c as int - 65] == c;
    }
  }

  /** a is a prefix of b, or has the smaller character where they first differ. */
  predicate Before(a: string, b: string) {
    a <= b || exists i :: 0 <= i < |a| && i < |b| && a[..i] == b[..i] && a[i] < b[i]
  }

  lemma BeforeMore(c: char, x: string, y: string)
    ensures Before([c] + x, [c] + y) <==> Before(x, y)
  {
    var a, b := [c] + x, [c] + y;
    assert a[1..] == x && b[1..] == y;
    if i :| 0 <= i < |x| && i < |y| && x[..i] == y[..i] && x[i] < y[i] {
      assert a[..i + 1] == [c] + x[..i] && b[..i + 1] == [c] + y[..i] && a[i + 1] < b[i + 1];
    }
    if i :| 0 <= i < |a| && i < |b| && a[..i] == b[..i] && a[i] < b[i] {
      assert x[..i - 1] == a[..i][1..] && y[..i - 1] == b[..i][1..] && x[i - 1] < y[i - 1];
    }
  }

  /** Byte order: a prefix comes first, otherwise the smaller character at the first difference. */
  lemma {:induction false} OrderMeans(a: string, b: string)
    ensures AtMost(a, b) <==> Before(a, b)
  {
    if a != "" && b != "" {
      OrderMeans(a[1..], b[1..]);
      if a[0] == b[0] {
        BeforeMore(a[0], a[1..], b[1..]);
        assert a == [a[0]] + a[1..] && b == [b[0]] + b[1..];
      } else {
        assert a[..0] == b[..0];
        assert forall i :: 0 < i <= |a| && i <= |b| ==> a[..i][0] == a[0] && b[..i][0] == b[0];
      }
    }
  }
}
