// The reader of ID3v2 tags, and the tags it reads back.
module Id3Reader {
  import opened Common
  import opened Id3Tag

  datatype Frame = Frame(id: seq<byte>, flags: seq<byte>, data: seq<byte>)

  const HEADER: nat := 10
  const MAX_TAG: nat := 0x10_0000

  const TPE1: seq<byte> := [84, 80, 69, 49]
  const TIT2: seq<byte> := [84, 73, 84, 50]
  const COMM: seq<byte> := [67, 79, 77, 77]

  // ---- The frames of a buffer ----

  /** The frame the walk finds here; none ends it. */
  function FrameAt(buf: seq<byte>, pos: nat, version: byte): (f: Option<Frame>)
    ensures f.Some? ==> pos + HEADER + |f.value.data| <= |buf|
  {
    if pos + HEADER > |buf| || buf[pos] == 0 then None
    else
      var size := SizeOf(buf[pos + 4..pos + 8], DigitBits(version));
      if size == 0 || pos + HEADER + size > |buf| then None
      else Some(Frame(buf[pos..pos + 4], buf[pos + 8..pos + HEADER], buf[pos + HEADER..pos + HEADER + size]))
  }

  function Frames(buf: seq<byte>, pos: nat, version: byte): seq<Frame>
    decreases |buf| - pos
  {
    var f := FrameAt(buf, pos, version);
    if f.None? then [] else [f.value] + Frames(buf, pos + HEADER + |f.value.data|, version)
  }

  // ---- Text ----

  function TrimNul(s: seq<byte>): seq<byte> {
    if s != [] && s[|s| - 1] == 0 then TrimNul(s[..|s| - 1]) else s
  }

  /** One 16-bit code unit as UTF-8; half of a surrogate pair becomes U+FFFD. */
  function Utf8(unit: nat): seq<byte>
    requires unit < 0x1_0000
  {
    if 0xD800 <= unit < 0xE000 then [0xEF, 0xBF, 0xBD]
    else if unit < 0x80 then [unit as byte]
    else if unit < 0x800 then [(0xC0 + unit / 64) as byte, (0x80 + unit % 64) as byte]
    else [(0xE0 + unit / 4096) as byte, (0x80 + unit / 64 % 64) as byte, (0x80 + unit % 64) as byte]
  }

  function UnitAt(b: seq<byte>, i: nat, bigEndian: bool): (u: nat)
    requires i + 1 < |b|
    ensures u < 0x1_0000
  {
    if bigEndian then b[i] as nat * 256 + b[i + 1] as nat else b[i + 1] as nat * 256 + b[i] as nat
  }

  /** The text from i on: whole units up to the first zero one. */
  function TextFrom(b: seq<byte>, i: nat, bigEndian: bool): seq<byte>
    decreases |b| - i
  {
    if i + 1 >= |b| || UnitAt(b, i, bigEndian) == 0 then []
    else Utf8(UnitAt(b, i, bigEndian)) + TextFrom(b, i + 2, bigEndian)
  }

  predicate LittleMark(b: seq<byte>) {
    |b| >= 2 && b[0] == 0xFF && b[1] == 0xFE
  }

  predicate BigMark(b: seq<byte>) {
    |b| >= 2 && b[0] == 0xFE && b[1] == 0xFF
  }

  function Utf16Text(b: seq<byte>): seq<byte> {
    if LittleMark(b) then TextFrom(b, 2, false)
    else if BigMark(b) then TextFrom(b, 2, true)
    else TextFrom(b, 0, true)
  }

  method DecodeUTF16(b: seq<byte>) returns (text: seq<byte>)
    ensures text == Utf16Text(b)
  {
    if |b| < 2 {
      return [];
    }
    var bigEndian := true;
    var start := 0;
    if b[0] == 0xFF && b[1] == 0xFE {
      bigEndian := false;
      start := 2;
    } else if b[0] == 0xFE && b[1] == 0xFF {
      bigEndian := true;
      start := 2;
    }
    text := [];
    var i: nat := start;
    while i + 1 < |b|
      invariant text + TextFrom(b, i, bigEndian) == TextFrom(b, start, bigEndian)
    {
      hide Utf8, UnitAt;
      var unit := UnitAt(b, i, bigEndian);
      if unit == 0 {
        assert TextFrom(b, i, bigEndian) == [];
        break;
      }
      Regroup(text, Utf8(unit), TextFrom(b, i + 2, bigEndian));
      text := text + Utf8(unit);
      i := i + 2;
    }
    hide *;
    assert text + [] == text;
  }

  lemma Regroup<T>(a: seq<T>, b: seq<T>, c: seq<T>)
    ensures a + (b + c) == (a + b) + c
  {
  }

  function FrameText(data: seq<byte>): seq<byte> {
    if |data| < 2 then []
    else if data[0] == 1 then Utf16Text(data[1..])
    else TrimNul(data[1..])
  }

  /** Where the first zero byte is. */
  function IndexNul(s: seq<byte>): (i: Option<nat>)
    ensures i.Some? ==> i.value < |s| && s[i.value] == 0 && 0 !in s[..i.value]
    ensures i.None? ==> 0 !in s
  {
    if s == [] then None
    else if s[0] == 0 then Some(0)
    else
      var rest := IndexNul(s[1..]);
      if rest.None? then None
      else
        assert s[..1 + rest.value] == [s[0]] + s[1..][..rest.value];
        Some(1 + rest.value)
  }

  function FrameComment(data: seq<byte>): seq<byte> {
    if |data| < 5 then []
    else
      var payload := data[4..];
      var idx := IndexNul(payload);
      if idx.Some? && idx.value + 1 < |payload| then TrimNul(payload[idx.value + 1..]) else TrimNul(payload)
  }

  // ---- The tag ----

  datatype Meta = Meta(artist: seq<byte>, title: seq<byte>, comment: seq<byte>)
  datatype Tags = ReadError | NoTags | Tags(meta: Meta)

  /** The last frame with this id. */
  function Last(frames: seq<Frame>, id: seq<byte>): Option<Frame> {
    if frames == [] then None
    else if frames[|frames| - 1].id == id then Some(frames[|frames| - 1])
    else Last(frames[..|frames| - 1], id)
  }

  function TextOf(f: Option<Frame>): seq<byte> {
    if f.Some? then FrameText(f.value.data) else []
  }

  function CommentOf(f: Option<Frame>): seq<byte> {
    if f.Some? then FrameComment(f.value.data) else []
  }

  /** The last artist, title and comment. */
  function MetaOf(frames: seq<Frame>): Meta {
    Meta(TextOf(Last(frames, TPE1)), TextOf(Last(frames, TIT2)), CommentOf(Last(frames, COMM)))
  }

  function TagsOf(frames: seq<Frame>): Tags {
    var m := MetaOf(frames);
    if m == Meta([], [], []) then NoTags else Tags.Tags(m)
  }

  /** The ten header bytes a short read leaves: what there is, then zeros. */
  function HeaderOf(file: seq<byte>): (h: seq<byte>)
    ensures |h| == HEADER
  {
    if |file| >= HEADER then file[..HEADER] else file + seq(HEADER - |file|, _ => 0)
  }

  /** What reading a file gives, in terms of the frames after its header. */
  ghost function Outcome(file: seq<byte>): Tags {
    var header := HeaderOf(file);
    var size := SizeOf(header[6..10], SYNCHSAFE);
    if file == [] then ReadError
    else if header[..3] != [0x49, 0x44, 0x33] || size == 0 || size > MAX_TAG then NoTags
    else if |file| < HEADER + size then ReadError
    else TagsOf(Frames(file[..HEADER + size], HEADER, header[3]))
  }

  lemma Appended(frames: seq<Frame>, f: Frame, id: seq<byte>)
    ensures Last(frames + [f], id) == if f.id == id then Some(f) else Last(frames, id)
  {
    assert (frames + [f])[..|frames|] == frames;
  }

  method WalkFrames(buf: seq<byte>, version: byte) returns (m: Meta)
    requires |buf| >= HEADER
    ensures m == MetaOf(Frames(buf, HEADER, version))
  {
    hide SizeOf, FrameText, FrameComment, Frames, MetaOf;
    m := Meta([], [], []);
    NothingSeen();
    var pos: nat := HEADER;
    ghost var seen: seq<Frame> := [];
    assert seen + Frames(buf, pos, version) == Frames(buf, HEADER, version);
    while pos + HEADER <= |buf|
      invariant HEADER <= pos <= |buf|
      invariant seen + Frames(buf, pos, version) == Frames(buf, HEADER, version)
      invariant m == MetaOf(seen)
    {
      var frameID := buf[pos..pos + 4];
      if frameID[0] == 0 {
        break;
      }
      var frameSize := SizeOf(buf[pos + 4..pos + 8], DigitBits(version));
      if frameSize <= 0 || pos + HEADER + frameSize > |buf| {
        break;
      }
      var data := buf[pos + HEADER..pos + HEADER + frameSize];
      ghost var f := Frame(frameID, buf[pos + 8..pos + HEADER], data);
      assert FrameAt(buf, pos, version) == Some(f);
      FramesStep(buf, pos, version);
      Noted(seen, f);
      Regroup(seen, [f], Frames(buf, pos + HEADER + frameSize, version));
      seen := seen + [f];
      var text := FrameText(data);
      if frameID == TPE1 {
        m := m.(artist := text);
      } else if frameID == TIT2 {
        m := m.(title := text);
      } else if frameID == COMM {
        m := m.(comment := FrameComment(data));
      }
      pos := pos + HEADER + frameSize;
    }
    assert FrameAt(buf, pos, version).None?;
    FramesStep(buf, pos, version);
    assert seen + [] == seen;
  }

  lemma NothingSeen()
    ensures MetaOf([]) == Meta([], [], [])
  {
  }

  lemma FramesStep(buf: seq<byte>, pos: nat, version: byte)
    ensures var f := FrameAt(buf, pos, version);
            Frames(buf, pos, version) == if f.None? then []
              else [f.value] + Frames(buf, pos + HEADER + |f.value.data|, version)
  {
  }

  /** A frame of one of the three ids replaces what was noted under it. */
  lemma Noted(seen: seq<Frame>, f: Frame)
    ensures f.id == TPE1 ==> MetaOf(seen + [f]) == MetaOf(seen).(artist := FrameText(f.data))
    ensures f.id == TIT2 ==> MetaOf(seen + [f]) == MetaOf(seen).(title := FrameText(f.data))
    ensures f.id == COMM ==> MetaOf(seen + [f]) == MetaOf(seen).(comment := FrameComment(f.data))
    ensures f.id != TPE1 && f.id != TIT2 && f.id != COMM ==> MetaOf(seen + [f]) == MetaOf(seen)
  {
    hide FrameText, FrameComment;
    Appended(seen, f, TPE1);
    Appended(seen, f, TIT2);
    Appended(seen, f, COMM);
    assert TPE1[0] == 84 && TIT2[0] == 84 && COMM[0] == 67 && TPE1[1] == 80 && TIT2[1] == 73;
  }

  method ReadID3Tags(file: seq<byte>) returns (r: Tags)
    ensures r == Outcome(file)
  {
    hide SizeOf, MetaOf, Frames;
    if |file| == 0 {
      return ReadError;
    }
    var header := HeaderOf(file);
    if header[..3] != [0x49, 0x44, 0x33] {
      return NoTags;
    }
    var size := SizeOf(header[6..10], SYNCHSAFE);
    if size <= 0 || size > MAX_TAG {
      return NoTags;
    }
    if |file| < HEADER + size {
      return ReadError;
    }
    var m := WalkFrames(file[..HEADER + size], header[3]);
    if m == Meta([], [], []) {
      return NoTags;
    }
    r := Tags.Tags(m);
  }
}
