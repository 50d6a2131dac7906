// Cutting recorder file names: underscore fields with bracketed labels, and
// the texts between brackets.
module FilenameParts {
  import opened Common
  import opened Id3Tag

  const UNDERSCORE: byte := 95
  const OPEN: byte := 91
  const CLOSE: byte := 93

  // ---- Underscore fields ----

  /** A byte appended as a character: one above 127 becomes two bytes. */
  function AsCharacter(b: byte): seq<byte> {
    if b < 128 then [b] else [0xC0 + b / 64, 0x80 + b % 64]
  }

  function Recoded(s: seq<byte>): seq<byte> {
    if s == [] then [] else AsCharacter(s[0]) + Recoded(s[1..])
  }

  /** The two bytes decode to the character of that number. */
  lemma {:induction false} CharacterMeans(b: byte)
    ensures b < 128 ==> AsCharacter(b) == [b]
    ensures b >= 128 ==>
              && |AsCharacter(b)| == 2 && 0xC2 <= AsCharacter(b)[0] <= 0xC3 && 0x80 <= AsCharacter(b)[1] < 0xC0
              && (AsCharacter(b)[0] as int - 0xC0) * 64 + (AsCharacter(b)[1] as int - 0x80) == b as int
  {
    assert b as int == 64 * (b as int / 64) + b as int % 64;
  }

  /** Inside brackets after this byte. */
  function Inside(inBracket: bool, ch: byte): bool {
    if ch == OPEN then true else if ch == CLOSE then false else inBracket
  }

  /** The fields of the rest, the first of which has begun with current. */
  function SplitFrom(s: seq<byte>, inBracket: bool, current: seq<byte>): seq<seq<byte>> {
    if s == [] then [current]
    else
      var inside := Inside(inBracket, s[0]);
      if !inside && s[0] == UNDERSCORE then [current] + SplitFrom(s[1..], inside, [])
      else SplitFrom(s[1..], inside, current + AsCharacter(s[0]))
  }

  function Joined(fields: seq<seq<byte>>): seq<byte> {
    if fields == [] then []
    else if |fields| == 1 then fields[0]
    else fields[0] + [95] + Joined(fields[1..])
  }

  method SplitDSDPlusMeta(base: seq<byte>) returns (meta: seq<seq<byte>>)
    ensures meta == SplitFrom(base, false, [])
    ensures Joined(meta) == Recoded(base)
  {
    hide AsCharacter, Recoded, Joined;
    meta := [[]];
    var inBracket := false;
    var ptr := 0;
    assert base[0..] == base;
    for i := 0 to |base|
      invariant |meta| == ptr + 1
      invariant meta[..ptr] + SplitFrom(base[i..], inBracket, meta[ptr]) == SplitFrom(base, false, [])
    {
      var ch := base[i];
      assert base[i..][1..] == base[i + 1..];
      if ch == OPEN {
        inBracket := true;
      } else if ch == CLOSE {
        inBracket := false;
      }
      if !inBracket && ch == UNDERSCORE {
        assert (meta + [[]])[..ptr + 1] == meta[..ptr] + [meta[ptr]];
        assert meta[..ptr] + ([meta[ptr]] + SplitFrom(base[i + 1..], inBracket, []))
          == (meta[..ptr] + [meta[ptr]]) + SplitFrom(base[i + 1..], inBracket, []);
        ptr := ptr + 1;
        meta := meta + [[]];
      } else {
        meta := meta[ptr := meta[ptr] + AsCharacter(ch)];
      }
    }
    assert meta[..ptr] + [meta[ptr]] == meta;
    JoinedBack(base, false, []);
    assert [] + Recoded(base) == Recoded(base);
  }

  /** Joining the fields gives the name back, each byte as a character. */
  lemma {:induction false} JoinedBack(s: seq<byte>, inBracket: bool, current: seq<byte>)
    ensures |SplitFrom(s, inBracket, current)| > 0
    ensures Joined(SplitFrom(s, inBracket, current)) == current + Recoded(s)
    decreases |s|
  {
    if s != [] {
      var inside := Inside(inBracket, s[0]);
      if !inside && s[0] == UNDERSCORE {
        JoinedBack(s[1..], inside, []);
        var rest := SplitFrom(s[1..], inside, []);
        assert ([current] + rest)[1..] == rest;
        assert Joined([current] + rest) == current + [UNDERSCORE] + Joined(rest);
        assert [] + Recoded(s[1..]) == Recoded(s[1..]);
      } else {
        JoinedBack(s[1..], inside, current + AsCharacter(s[0]));
      }
    }
  }

  predicate Ascii(s: seq<byte>) {
    forall i :: 0 <= i < |s| ==> s[i] < 128
  }

  lemma {:induction false} RecodedLength(s: seq<byte>)
    ensures |Recoded(s)| >= |s|
    ensures |Recoded(s)| == |s| <==> Ascii(s)
    ensures Ascii(s) ==> Recoded(s) == s
  {
    if s != [] {
      RecodedLength(s[1..]);
      assert Ascii(s) <==> s[0] < 128 && Ascii(s[1..]);
    }
  }

  /** The fields join back to the name exactly when every byte of it is ASCII. */
  lemma {:induction false} JoinBackExact(base: seq<byte>)
    ensures Joined(SplitFrom(base, false, [])) == base <==> Ascii(base)
  {
    JoinedBack(base, false, []);
    RecodedLength(base);
    assert [] + Recoded(base) == Recoded(base);
  }

  /** A field whose underscores are all in brackets and whose brackets are closed. */
  predicate Closed(s: seq<byte>, inBracket: bool) {
    if s == [] then !inBracket
    else
      var inside := Inside(inBracket, s[0]);
      !(!inside && s[0] == UNDERSCORE) && Closed(s[1..], inside)
  }

  /** Text without brackets and underscores is closed. */
  lemma {:induction false} PlainClosed(s: seq<byte>)
    requires 91 !in s && 93 !in s && 95 !in s
    ensures Closed(s, false)
  {
    if s != [] {
      assert s[0] in s;
      PlainClosed(s[1..]);
    }
  }

  /** So is a closed text, a bracketed one with any underscores in it, and a closed text again; an open bracket is
      not. */
  lemma {:induction false} BracketsClosed(before: seq<byte>, inner: seq<byte>, after: seq<byte>)
    requires Closed(before, false) && Closed(after, false) && 93 !in inner
    ensures Closed(before + [91] + inner + [93] + after, false)
    ensures !Closed([91] + inner, false)
  {
    ClosedThen(before, false, [91] + inner + [93] + after);
    InnerClosed(inner, after);
    assert ([91] + inner + [93] + after)[1..] == inner + [93] + after;
    assert ([91] + inner)[1..] == inner;
    assert before + ([91] + inner + [93] + after) == before + [91] + inner + [93] + after;
  }

  lemma {:induction false} ClosedThen(a: seq<byte>, inBracket: bool, b: seq<byte>)
    requires Closed(a, inBracket)
    ensures Closed(a + b, inBracket) <==> Closed(b, false)
    decreases |a|
  {
    if a == [] {
      assert a + b == b;
    } else {
      assert (a + b)[1..] == a[1..] + b;
      ClosedThen(a[1..], Inside(inBracket, a[0]), b);
    }
  }

  lemma {:induction false} InnerClosed(inner: seq<byte>, after: seq<byte>)
    requires 93 !in inner && Closed(after, false)
    ensures Closed(inner + [93] + after, true) && !Closed(inner, true)
  {
    var s := inner + [93] + after;
    if inner == [] {
      assert s[1..] == after;
    } else {
      assert s[1..] == inner[1..] + [93] + after && inner[0] in inner;
      InnerClosed(inner[1..], after);
    }
  }

  /** A closed field is read whole, whatever follows it. */
  lemma {:induction false} FieldRead(field: seq<byte>, tail: seq<byte>, inBracket: bool, current: seq<byte>)
    requires Closed(field, inBracket) && Ascii(field) && (tail == [] || tail[0] == UNDERSCORE)
    ensures SplitFrom(field + tail, inBracket, current)
            == if tail == [] then [current + field] else [current + field] + SplitFrom(tail[1..], false, [])
    decreases |field|
  {
    if field == [] {
      assert field + tail == tail && current + field == current;
    } else {
      assert (field + tail)[1..] == field[1..] + tail && (field + tail)[0] == field[0];
      FieldRead(field[1..], tail, Inside(inBracket, field[0]), current + [field[0]]);
      assert current + [field[0]] + field[1..] == current + field;
    }
  }

  /** Closed ASCII fields joined with underscores are split into the same fields. */
  lemma {:induction false} FieldsRoundTrip(fields: seq<seq<byte>>)
    requires fields != [] && forall i :: 0 <= i < |fields| ==> Closed(fields[i], false) && Ascii(fields[i])
    ensures SplitFrom(Joined(fields), false, []) == fields
  {
    hide SplitFrom, Closed, Ascii, Joined;
    var first := fields[0];
    assert [] + first == first;
    if |fields| == 1 {
      FieldRead(first, [], false, []);
      OneField(fields);
    } else {
      var rest := fields[1..];
      var tail := [UNDERSCORE] + Joined(rest);
      FieldRead(first, tail, false, []);
      FieldsRoundTrip(rest);
      MoreFields(fields);
      assert tail[1..] == Joined(rest);
      assert fields == [first] + rest;
    }
  }

  lemma OneField(fields: seq<seq<byte>>)
    requires |fields| == 1
    ensures Joined(fields) == fields[0] + [] && fields == [fields[0]]
  {
  }

  lemma MoreFields(fields: seq<seq<byte>>)
    requires |fields| > 1
    ensures Joined(fields) == fields[0] + ([UNDERSCORE] + Joined(fields[1..]))
  {
  }

  // ---- Between brackets ----

  /** Where a byte first is. */
  function IndexByte(s: seq<byte>, b: byte): (i: Option<nat>)
    ensures i.Some? ==> i.value < |s| && s[i.value] == b && b !in s[..i.value]
    ensures i.None? ==> b !in s
  {
    if s == [] then None
    else if s[0] == b then Some(0)
    else
      var rest := IndexByte(s[1..], b);
      if rest.None? then None
      else
        assert s[..1 + rest.value] == [s[0]] + s[1..][..rest.value];
        Some(1 + rest.value)
  }

  /** The non-empty texts of the bracket pairs, left to right. */
  function Contents(s: seq<byte>): seq<seq<byte>>
    decreases |s|
  {
    var open := IndexByte(s, OPEN);
    if open.None? then []
    else
      var rest := s[open.value + 1..];
      var close := IndexByte(rest, CLOSE);
      if close.None? then []
      else (if close.value > 0 then [rest[..close.value]] else []) + Contents(rest[close.value + 1..])
  }

  method ExtractBracketContents(text: seq<byte>) returns (parts: seq<seq<byte>>)
    ensures parts == Contents(text)
  {
    hide IndexByte, Contents;
    parts := [];
    var s := text;
    assert parts + Contents(s) == Contents(text);
    while true
      invariant parts + Contents(s) == Contents(text)
      decreases |s|
    {
      NextBracket(s);
      var open := IndexByte(s, OPEN);
      if open.None? {
        break;
      }
      var rest := s[open.value + 1..];
      var close := IndexByte(rest, CLOSE);
      if close.None? {
        break;
      }
      var inner := rest[..close.value];
      if |inner| > 0 {
        assert parts + ([inner] + Contents(rest[close.value + 1..]))
          == (parts + [inner]) + Contents(rest[close.value + 1..]);
        parts := parts + [inner];
      }
      s := rest[close.value + 1..];
    }
    assert Contents(s) == [];
    assert parts + [] == parts;
  }

  /** What the contents are, one bracket pair on. */
  lemma NextBracket(s: seq<byte>)
    ensures var open := IndexByte(s, OPEN);
            if open.None? then Contents(s) == []
            else
              var rest := s[open.value + 1..];
              var close := IndexByte(rest, CLOSE);
              if close.None? then Contents(s) == []
              else if close.value == 0 then Contents(s) == Contents(rest[close.value + 1..])
              else Contents(s) == [rest[..close.value]] + Contents(rest[close.value + 1..])
  {
    hide IndexByte;
    var open := IndexByte(s, OPEN);
    if open.Some? {
      var rest := s[open.value + 1..];
      var close := IndexByte(rest, CLOSE);
      if close.Some? {
        var more := Contents(rest[close.value + 1..]);
        assert Contents(s) == (if close.value > 0 then [rest[..close.value]] else []) + more;
        hide Contents;
        assert [] + more == more;
      }
    }
  }

  /** Parts in brackets, each after some text without an opening bracket, and a last such text. */
  function Bracketed(gaps: seq<seq<byte>>, parts: seq<seq<byte>>): seq<byte>
    requires |gaps| == |parts| + 1
  {
    if parts == [] then gaps[0]
    else gaps[0] + [91] + parts[0] + [93] + Bracketed(gaps[1..], parts[1..])
  }

  function NonEmpty(parts: seq<seq<byte>>): seq<seq<byte>> {
    if parts == [] then [] else (if parts[0] != [] then [parts[0]] else []) + NonEmpty(parts[1..])
  }

  lemma IndexAfter(before: seq<byte>, b: byte, after: seq<byte>)
    requires b !in before
    ensures IndexByte(before + [b] + after, b) == Some(|before|)
  {
    var s := before + [b] + after;
    assert s[|before|] == b;
    var i := IndexByte(s, b);
    assert forall k :: 0 <= k < |before| ==> s[k] == before[k];
    assert i.Some? ==> forall k :: 0 <= k < i.value ==> s[..i.value][k] == s[k];
  }

  /** Bracketed texts are read back, empty ones left out, whatever stands between them. */
  lemma {:induction false} BracketsRoundTrip(gaps: seq<seq<byte>>, parts: seq<seq<byte>>)
    requires |gaps| == |parts| + 1
    requires (forall i :: 0 <= i < |gaps| ==> 91 !in gaps[i]) && forall i :: 0 <= i < |parts| ==> 93 !in parts[i]
    ensures Contents(Bracketed(gaps, parts)) == NonEmpty(parts)
    decreases |parts|
  {
    var s := Bracketed(gaps, parts);
    if parts != [] {
      var tail := Bracketed(gaps[1..], parts[1..]);
      var rest := parts[0] + [CLOSE] + tail;
      assert s == gaps[0] + [OPEN] + rest;
      IndexAfter(gaps[0], OPEN, rest);
      assert s[|gaps[0]| + 1..] == rest;
      IndexAfter(parts[0], CLOSE, tail);
      assert rest[|parts[0]| + 1..] == tail && rest[..|parts[0]|] == parts[0];
      BracketsRoundTrip(gaps[1..], parts[1..]);
    } else {
      NoBracket(s);
    }
  }

  lemma NoBracket(s: seq<byte>)
    requires OPEN !in s
    ensures Contents(s) == []
  {
  }
}
