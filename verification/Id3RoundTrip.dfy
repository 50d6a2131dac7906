// Tags as they are written, and that the reader reads back exactly what was
// written, in either size encoding and whatever follows the tag.
module Id3RoundTrip {
  import opened Common
  import opened Id3Tag
  import opened Id3Reader

  // ---- Writing ----

  ghost predicate Writable(f: Frame, version: byte) {
    && |f.id| == 4 && f.id[0] != 0 && |f.flags| == 2
    && 0 < |f.data| < Pow2(if version == 4 then 28 else 32)
  }

  ghost predicate AllWritable(frames: seq<Frame>, version: byte) {
    forall i :: 0 <= i < |frames| ==> Writable(frames[i], version)
  }

  function FrameBytes(f: Frame, version: byte): seq<byte> {
    f.id + SizeBytes(|f.data|, DigitBits(version)) + f.flags + f.data
  }

  function Body(frames: seq<Frame>, version: byte): seq<byte> {
    if frames == [] then [] else FrameBytes(frames[0], version) + Body(frames[1..], version)
  }

  function Zeros(n: nat): (z: seq<byte>)
    ensures |z| == n
  {
    seq(n, _ => 0)
  }

  function TagBytes(version: byte, revision: byte, flags: byte, frames: seq<Frame>, pad: nat): seq<byte> {
    var body := Body(frames, version) + Zeros(pad);
    [0x49, 0x44, 0x33, version, revision, flags] + SizeBytes(|body|, SYNCHSAFE) + body
  }

  // ---- Reading back ----

  lemma Slice(buf: seq<byte>, pos: nat, i: nat, j: nat)
    requires pos <= |buf| && i <= j <= |buf| - pos
    ensures buf[pos + i..pos + j] == buf[pos..][i..j]
  {
  }

  /** At a written frame the walk finds that frame. */
  lemma FrameFound(buf: seq<byte>, pos: nat, f: Frame, rest: seq<byte>, version: byte)
    requires Writable(f, version) && pos <= |buf| && buf[pos..] == FrameBytes(f, version) + rest
    ensures FrameAt(buf, pos, version) == Some(f)
    ensures pos + HEADER + |f.data| <= |buf| && buf[pos + HEADER + |f.data|..] == rest
  {
    hide SizeOf, SizeBytes, Pow2;
    var size := SizeBytes(|f.data|, DigitBits(version));
    var tail := buf[pos..];
    assert |tail| == |buf| - pos;
    assert tail[..4] == f.id && tail[4..8] == size && tail[8..10] == f.flags;
    assert tail[10..10 + |f.data|] == f.data && tail[10 + |f.data|..] == rest;
    Slice(buf, pos, 0, 4);
    Slice(buf, pos, 4, 8);
    Slice(buf, pos, 8, 10);
    Slice(buf, pos, 10, 10 + |f.data|);
    assert buf[pos + 10 + |f.data|..] == tail[10 + |f.data|..];
    SizeRoundTrip(|f.data|, DigitBits(version));
    assert buf[pos] == buf[pos..pos + 4][0];
  }

  /** The walk visits exactly the written frames, in order, and stops at the padding. */
  lemma {:induction false} WalkReads(buf: seq<byte>, pos: nat, frames: seq<Frame>, pad: nat, version: byte)
    requires AllWritable(frames, version) && pos <= |buf| && buf[pos..] == Body(frames, version) + Zeros(pad)
    ensures Frames(buf, pos, version) == frames
    decreases frames
  {
    hide Writable, FrameBytes, FrameAt;
    if frames == [] {
      assert buf[pos..] == Zeros(pad);
      PaddingEnds(buf, pos, version);
    } else {
      var f, rest := frames[0], Body(frames[1..], version) + Zeros(pad);
      assert buf[pos..] == FrameBytes(f, version) + rest;
      FrameFound(buf, pos, f, rest, version);
      WalkReads(buf, pos + HEADER + |f.data|, frames[1..], pad, version);
      FramesStep(buf, pos, version);
      assert frames == [frames[0]] + frames[1..];
    }
  }

  lemma PaddingEnds(buf: seq<byte>, pos: nat, version: byte)
    requires pos <= |buf| && buf[pos..] == Zeros(|buf| - pos)
    ensures FrameAt(buf, pos, version).None?
  {
    if pos + HEADER <= |buf| {
      assert buf[pos] == buf[pos..][0];
    }
  }

  /** Header and frames of a file that starts with a written tag. */
  lemma TagParts(file: seq<byte>, version: byte, revision: byte, flags: byte, frames: seq<Frame>, pad: nat,
    audio: seq<byte>)
    requires 0 < |Body(frames, version)| + pad <= MAX_TAG
    requires file == TagBytes(version, revision, flags, frames, pad) + audio
    ensures var header, n := HeaderOf(file), |Body(frames, version)| + pad;
            && header[..3] == [0x49, 0x44, 0x33] && header[3] == version
            && SizeOf(header[6..10], SYNCHSAFE) == n
            && HEADER + n <= |file| && file[..HEADER + n][HEADER..] == Body(frames, version) + Zeros(pad)
  {
    hide SizeOf, SizeBytes, Pow2, Body;
    var body := Body(frames, version) + Zeros(pad);
    var size := SizeBytes(|body|, SYNCHSAFE);
    Powers();
    SizeRoundTrip(|body|, SYNCHSAFE);
    var start: seq<byte> := [0x49, 0x44, 0x33, version, revision, flags];
    assert file == start + size + body + audio;
    assert file[..HEADER] == start + size;
    assert file[6..10] == size && file[..HEADER][6..10] == size;
    assert file[..3] == start[..3] && file[..HEADER][..3] == file[..3];
    assert file[..HEADER + |body|] == start + size + body;
    assert file[..HEADER + |body|][HEADER..] == body;
  }

  /**
   * Reading a file that starts with a written tag gives the last artist, title
   * and comment of its frames, whatever follows the tag.
   */
  lemma {:induction false} TagRoundTrip(file: seq<byte>, version: byte, revision: byte, flags: byte,
    frames: seq<Frame>, pad: nat, audio: seq<byte>)
    requires AllWritable(frames, version) && 0 < |Body(frames, version)| + pad <= MAX_TAG
    requires file == TagBytes(version, revision, flags, frames, pad) + audio
    ensures Outcome(file) == TagsOf(frames)
  {
    hide SizeOf, FrameAt, Frames, TagsOf, Body, TagBytes, Writable;
    TagParts(file, version, revision, flags, frames, pad, audio);
    var n := |Body(frames, version)| + pad;
    WalkReads(file[..HEADER + n], HEADER, frames, pad, version);
  }

  // ---- What a frame's text says ----

  function UnitBytes(units: seq<nat>, bigEndian: bool): seq<byte>
    requires forall i :: 0 <= i < |units| ==> units[i] < 0x1_0000
  {
    if units == [] then []
    else
      var hi, lo := (units[0] / 256) as byte, (units[0] % 256) as byte;
      (if bigEndian then [hi, lo] else [lo, hi]) + UnitBytes(units[1..], bigEndian)
  }

  function AllUtf8(units: seq<nat>): seq<byte>
    requires forall i :: 0 <= i < |units| ==> units[i] < 0x1_0000
  {
    if units == [] then [] else Utf8(units[0]) + AllUtf8(units[1..])
  }

  /** Units up to the first zero one. */
  function UntilZero(units: seq<nat>): (r: seq<nat>)
    ensures r <= units
  {
    if units == [] || units[0] == 0 then [] else [units[0]] + UntilZero(units[1..])
  }

  lemma {:induction false} UnitsRead(b: seq<byte>, i: nat, units: seq<nat>, odd: seq<byte>, bigEndian: bool)
    requires forall k :: 0 <= k < |units| ==> units[k] < 0x1_0000
    requires |odd| <= 1 && i <= |b| && b[i..] == UnitBytes(units, bigEndian) + odd
    ensures TextFrom(b, i, bigEndian) == AllUtf8(UntilZero(units))
    decreases units
  {
    if units != [] {
      var tail := b[i..];
      assert |tail| >= 2 && tail[0] == b[i] && tail[1] == b[i + 1];
      assert tail[2..] == UnitBytes(units[1..], bigEndian) + odd;
      assert b[i + 2..] == tail[2..];
      UnitsRead(b, i + 2, units[1..], odd, bigEndian);
      assert UnitAt(b, i, bigEndian) == units[0];
      if units[0] != 0 {
        assert UntilZero(units)[1..] == UntilZero(units[1..]);
      }
    }
  }

  /** A UTF-16 text frame in either byte order reads as its text in UTF-8, surrogates aside. */
  lemma {:induction false} Utf16RoundTrip(units: seq<nat>, bigEndian: bool)
    requires forall k :: 0 <= k < |units| ==> units[k] < 0x1_0000
    ensures var mark: seq<byte> := if bigEndian then [0xFE, 0xFF] else [0xFF, 0xFE];
            FrameText([1] + mark + UnitBytes(units, bigEndian)) == AllUtf8(UntilZero(units))
  {
    hide Utf8, AllUtf8, UntilZero, UnitBytes, TextFrom;
    var mark: seq<byte> := if bigEndian then [0xFE, 0xFF] else [0xFF, 0xFE];
    var b := mark + UnitBytes(units, bigEndian);
    var data := [1] + mark + UnitBytes(units, bigEndian);
    assert data[0] == 1 && data[1..] == b;
    MarkRead(UnitBytes(units, bigEndian), bigEndian);
    assert b[2..] == UnitBytes(units, bigEndian) + [];
    UnitsRead(b, 2, units, [], bigEndian);
  }

  lemma MarkRead(rest: seq<byte>, bigEndian: bool)
    ensures var mark: seq<byte> := if bigEndian then [0xFE, 0xFF] else [0xFF, 0xFE];
            Utf16Text(mark + rest) == TextFrom(mark + rest, 2, bigEndian)
  {
    hide TextFrom;
  }

  /** A comment frame reads as its text; with no text, as its description. */
  lemma {:induction false} CommentRoundTrip(encoding: byte, language: seq<byte>, description: seq<byte>,
    text: seq<byte>)
    requires |language| == 3 && 0 !in description
    ensures FrameComment([encoding] + language + description + [0] + text)
            == if text == [] then description else TrimNul(text)
  {
    hide TrimNul;
    var data := [encoding] + language + description + [0] + text;
    var payload := data[4..];
    assert payload == description + [0] + text;
    var idx := IndexNul(payload);
    assert payload[|description|] == 0;
    FirstNul(payload, description, text, idx.value);
    assert payload[idx.value + 1..] == text;
    if text == [] {
      assert payload == description + [0];
      NothingToTrim(description);
    }
  }

  lemma FirstNul(payload: seq<byte>, description: seq<byte>, text: seq<byte>, i: nat)
    requires payload == description + [0] + text && 0 !in description
    requires i < |payload| && payload[i] == 0 && 0 !in payload[..i]
    ensures i == |description|
  {
    assert forall k :: 0 <= k < |description| ==> payload[k] == description[k];
    assert payload[|description|] == 0;
    assert forall k :: 0 <= k < i ==> payload[..i][k] == payload[k];
  }

  lemma NothingToTrim(description: seq<byte>)
    requires 0 !in description
    ensures TrimNul(description + [0]) == description
  {
    assert (description + [0])[..|description|] == description;
  }
}
