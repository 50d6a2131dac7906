// What the reader makes of literal bytes: texts in each encoding, comments,
// and whole files with their artist, title and comment.
module Id3Texts {
  import opened Common
  import opened Id3Tag
  import opened Id3Reader
  import opened Id3RoundTrip

  // ---- Sizes ----

  /** The tag's own size, and a frame's in version 4, are four seven-bit digits; a frame's in any other version four
      bytes. */
  lemma {:induction false} SizeMeans(version: byte, a: byte, b: byte, c: byte, d: byte)
    ensures a < 128 && b < 128 && c < 128 && d < 128 && version == 4 ==>
              && SizeOf([a, b, c, d], DigitBits(version)) == SizeOf([a, b, c, d], SYNCHSAFE)
              && SizeOf([a, b, c, d], SYNCHSAFE) == ((a as nat * 128 + b as nat) * 128 + c as nat) * 128 + d as nat
    ensures version != 4 ==>
              SizeOf([a, b, c, d], DigitBits(version)) == ((a as nat * 256 + b as nat) * 256 + c as nat) * 256
                + d as nat
  {
    if a < 128 && b < 128 && c < 128 && d < 128 { SynchsafeIsSum([a, b, c, d]); }
    BigEndianIsSum([a, b, c, d]);
  }

  // ---- Texts of one byte a character ----

  lemma {:induction false} TrimmedText(text: seq<byte>, k: nat)
    requires text == [] || text[|text| - 1] != 0
    ensures TrimNul(text + Zeros(k)) == text
  {
    if k == 0 {
      assert text + Zeros(0) == text;
    } else {
      var s := text + Zeros(k);
      assert s[|s| - 1] == 0 && s[..|s| - 1] == text + Zeros(k - 1);
      TrimmedText(text, k - 1);
    }
  }

  /** In every encoding but UTF-16 a frame's text is its bytes after the first, closing zeros aside. */
  lemma {:induction false} PlainTextRead(encoding: byte, text: seq<byte>, k: nat)
    requires encoding != 1 && text != [] && text[|text| - 1] != 0
    ensures FrameText([encoding] + text + Zeros(k)) == text
  {
    var data := [encoding] + text + Zeros(k);
    assert data[0] == encoding && data[1..] == text + Zeros(k);
    TrimmedText(text, k);
  }

  /** A frame with no text but its encoding, or nothing at all, says nothing. */
  lemma {:induction false} NoTextRead(data: seq<byte>)
    requires |data| < 2 || (data[0] != 1 && forall i :: 1 <= i < |data| ==> data[i] == 0)
    ensures FrameText(data) == []
  {
    if |data| >= 2 {
      assert data[1..] == [] + Zeros(|data| - 1);
      TrimmedText([], |data| - 1);
    }
  }

  // ---- UTF-16, byte by byte ----

  /** The bytes of a code unit outside the surrogates decode to it. */
  lemma {:induction false} Utf8Decodes(unit: nat)
    requires unit < 0x1_0000
    ensures unit < 0x80 ==> Utf8(unit) == [unit as byte]
    ensures 0x80 <= unit < 0x800 ==>
              && |Utf8(unit)| == 2 && 0xC2 <= Utf8(unit)[0] < 0xE0 && 0x80 <= Utf8(unit)[1] < 0xC0
              && (Utf8(unit)[0] as nat - 0xC0) * 64 + (Utf8(unit)[1] as nat - 0x80) == unit
    ensures 0x800 <= unit && !(0xD800 <= unit < 0xE000) ==>
              && |Utf8(unit)| == 3 && 0xE0 <= Utf8(unit)[0] < 0xF0
              && 0x80 <= Utf8(unit)[1] < 0xC0 && 0x80 <= Utf8(unit)[2] < 0xC0
              && ((Utf8(unit)[0] as nat - 0xE0) * 64 + (Utf8(unit)[1] as nat - 0x80)) * 64
                 + (Utf8(unit)[2] as nat - 0x80) == unit
    ensures 0xD800 <= unit < 0xE000 ==> Utf8(unit) == [0xEF, 0xBF, 0xBD]
  {
  }

  /** Pairs of bytes from i on that hold ASCII text, then nothing or a zero pair. */
  ghost predicate AsciiPairs(b: seq<byte>, i: nat, text: seq<byte>, bigEndian: bool) {
    && i + 2 * |text| <= |b| <= i + 2 * |text| + 1
    && forall k :: 0 <= k < |text| ==>
         && 0 < text[k] < 0x80
         && b[i + 2 * k] == (if bigEndian then 0 else text[k]) && b[i + 2 * k + 1] == (if bigEndian then text[k] else 0)
  }

  lemma {:induction false} AsciiFrom(b: seq<byte>, i: nat, text: seq<byte>, bigEndian: bool)
    requires AsciiPairs(b, i, text, bigEndian)
    ensures TextFrom(b, i, bigEndian) == text
    decreases text
  {
    if text != [] {
      assert b[i + 2 * 0] == (if bigEndian then 0 else text[0]);
      assert b[i + 2 * 0 + 1] == (if bigEndian then text[0] else 0);
      forall k | 0 <= k < |text| - 1
        ensures 0 < text[1..][k] < 0x80
        ensures b[i + 2 + 2 * k] == (if bigEndian then 0 else text[1..][k])
        ensures b[i + 2 + 2 * k + 1] == (if bigEndian then text[1..][k] else 0)
      {
        assert b[i + 2 * (k + 1)] == (if bigEndian then 0 else text[k + 1]);
        assert b[i + 2 * (k + 1) + 1] == (if bigEndian then text[k + 1] else 0);
      }
      AsciiFrom(b, i + 2, text[1..], bigEndian);
      assert text == [text[0]] + text[1..];
    }
  }

  /** ASCII in UTF-16 reads as itself: little-endian after FF FE, big-endian after FE FF and without a mark. */
  lemma {:induction false} AsciiUtf16Read(data: seq<byte>, text: seq<byte>)
    requires |data| >= 2 && data[0] == 1
    ensures |data| >= 3 && data[1] == 0xFF && data[2] == 0xFE && AsciiPairs(data, 3, text, false) ==>
            FrameText(data) == text
    ensures |data| >= 3 && data[1] == 0xFE && data[2] == 0xFF && AsciiPairs(data, 3, text, true) ==>
            FrameText(data) == text
    ensures AsciiPairs(data, 1, text, true) ==> FrameText(data) == text
  {
    hide TextFrom;
    var b := data[1..];
    if |data| >= 3 && data[1] == 0xFF && data[2] == 0xFE && AsciiPairs(data, 3, text, false) {
      ShiftedPairs(data, 3, text, false);
      AsciiFrom(b, 2, text, false);
    }
    if |data| >= 3 && data[1] == 0xFE && data[2] == 0xFF && AsciiPairs(data, 3, text, true) {
      ShiftedPairs(data, 3, text, true);
      AsciiFrom(b, 2, text, true);
    }
    if AsciiPairs(data, 1, text, true) {
      ShiftedPairs(data, 1, text, true);
      AsciiFrom(b, 0, text, true);
      FirstIsZero(data, text);
    }
  }

  lemma FirstIsZero(data: seq<byte>, text: seq<byte>)
    requires |data| >= 2 && AsciiPairs(data, 1, text, true)
    ensures text != [] ==> data[1] == 0
    ensures text == [] ==> |data| == 2
  {
    if text != [] {
      var k := 0;
      assert 0 < text[k] < 0x80 && data[1 + 2 * k] == 0;
    }
  }

  lemma ShiftedPairs(data: seq<byte>, i: nat, text: seq<byte>, bigEndian: bool)
    requires i > 0 && AsciiPairs(data, i, text, bigEndian)
    ensures AsciiPairs(data[1..], i - 1, text, bigEndian)
  {
    forall k | 0 <= k < |text|
      ensures data[1..][i - 1 + 2 * k] == data[i + 2 * k] && data[1..][i - 1 + 2 * k + 1] == data[i + 2 * k + 1]
    {
    }
  }

  // ---- Comments ----

  /** Less than five bytes is no comment; text without a zero byte is all of it. */
  lemma {:induction false} CommentPlain(data: seq<byte>)
    ensures |data| < 5 ==> FrameComment(data) == []
    ensures |data| >= 5 && 0 !in data[4..] ==> FrameComment(data) == data[4..]
  {
    if |data| >= 5 && 0 !in data[4..] {
      var payload := data[4..];
      assert payload[|payload| - 1] in payload;
    }
  }

  /** The comment after a description, closing zeros aside. */
  lemma CommentRead(encoding: byte, language: seq<byte>, description: seq<byte>, text: seq<byte>, k: nat)
    requires |language| == 3 && 0 !in description && text != [] && text[|text| - 1] != 0
    ensures FrameComment([encoding] + language + description + [0] + (text + Zeros(k))) == text
  {
    CommentRoundTrip(encoding, language, description, text + Zeros(k));
    TrimmedText(text, k);
  }

  // ---- Whole files ----

  /** A file that starts with a tag of an artist, a title and a comment, each of one byte a character, gives these
      three, whatever follows. */
  lemma {:induction false} ArtistTitleComment(file: seq<byte>, version: byte, revision: byte, flags: byte,
    artist: Frame,
    title: Frame, comment: Frame, pad: nat, audio: seq<byte>, a: seq<byte>, t: seq<byte>, c: seq<byte>, encoding: byte,
    language: seq<byte>, description: seq<byte>, k: nat)
    requires artist.id == [84, 80, 69, 49] && title.id == [84, 73, 84, 50] && comment.id == [67, 79, 77, 77]
    requires encoding != 1 && a != [] && a[|a| - 1] != 0 && t != [] && t[|t| - 1] != 0 && c != [] && c[|c| - 1] != 0
    requires |language| == 3 && 0 !in description
    requires artist.data == [encoding] + a + Zeros(k) && title.data == [encoding] + t + Zeros(k)
    requires comment.data == [encoding] + language + description + [0] + (c + Zeros(k))
    requires AllWritable([artist, title, comment], version)
    requires |Body([artist, title, comment], version)| + pad <= 0x10_0000
    requires file == TagBytes(version, revision, flags, [artist, title, comment], pad) + audio
    ensures Outcome(file) == Tags.Tags(Meta(a, t, c))
  {
    hide FrameText, FrameComment, AllWritable, Outcome, TagBytes;
    var frames := [artist, title, comment];
    PlainTextRead(encoding, a, k);
    PlainTextRead(encoding, t, k);
    CommentRead(encoding, language, description, c, k);
    assert |Body(frames, version)| > 0 by { SomeBody(frames, version); }
    TagRoundTrip(file, version, revision, flags, frames, pad, audio);
    LastOfThree(artist, title, comment);
  }

  lemma SomeBody(frames: seq<Frame>, version: byte)
    requires frames != [] && |frames[0].id| == 4
    ensures |Body(frames, version)| > 0
  {
  }

  lemma LastOfThree(artist: Frame, title: Frame, comment: Frame)
    requires artist.id == [84, 80, 69, 49] && title.id == [84, 73, 84, 50] && comment.id == [67, 79, 77, 77]
    ensures MetaOf([artist, title, comment])
            == Meta(FrameText(artist.data), FrameText(title.data), FrameComment(comment.data))
  {
    hide FrameText, FrameComment;
    NothingSeen();
    Noted([], artist);
    Noted([artist], title);
    Noted([artist, title], comment);
    assert [] + [artist] == [artist] && [artist] + [title] == [artist, title];
    assert [artist, title] + [comment] == [artist, title, comment];
    assert TPE1 == [84, 80, 69, 49] && TIT2 == [84, 73, 84, 50] && COMM == [67, 79, 77, 77];
    hide MetaOf, Last;
  }

  /** What is no tag: an empty file is an error; no "ID3" at the start, a size of 0, and one over a mebibyte are files
      without tags; and a file shorter than its tag is an error. */
  lemma {:induction false} OtherFiles(file: seq<byte>)
    ensures file == [] ==> Outcome(file) == ReadError
    ensures |file| >= 10 && !(file[0] == 0x49 && file[1] == 0x44 && file[2] == 0x33) ==> Outcome(file) == NoTags
    ensures |file| >= 10 && file[0] == 0x49 && file[1] == 0x44 && file[2] == 0x33 ==>
              var size := SizeOf(file[6..10], SYNCHSAFE);
              && (size == 0 || size > 0x10_0000 ==> Outcome(file) == NoTags)
              && (0 < size <= 0x10_0000 && |file| < 10 + size ==> Outcome(file) == ReadError)
  {
    hide SizeOf, Frames, TagsOf;
    if |file| >= 10 {
      var header := HeaderOf(file);
      assert header[6..10] == file[6..10] && header[..3] == file[..3];
      assert header[0] == file[0] && header[1] == file[1] && header[2] == file[2];
      assert header[..3] == [header[0], header[1], header[2]];
    }
  }

  lemma {:induction false} NoLast(frames: seq<Frame>, id: seq<byte>)
    requires forall i :: 0 <= i < |frames| ==> frames[i].id != id
    ensures Last(frames, id) == None
  {
    if frames != [] { NoLast(frames[..|frames| - 1], id); }
  }

  /** A tag with none of the three frames gives no tags. */
  lemma {:induction false} NoneOfThree(file: seq<byte>, version: byte, revision: byte, flags: byte,
    frames: seq<Frame>, pad: nat, audio: seq<byte>)
    requires AllWritable(frames, version) && 0 < |Body(frames, version)| + pad <= 0x10_0000
    requires file == TagBytes(version, revision, flags, frames, pad) + audio
    requires forall i :: 0 <= i < |frames| ==>
               frames[i].id != [84, 80, 69, 49] && frames[i].id != [84, 73, 84, 50] && frames[i].id != [67, 79, 77, 77]
    ensures Outcome(file) == NoTags
  {
    hide AllWritable, Outcome, TagBytes, FrameText, FrameComment, Body;
    TagRoundTrip(file, version, revision, flags, frames, pad, audio);
    NoLast(frames, TPE1);
    NoLast(frames, TIT2);
    NoLast(frames, COMM);
  }
}
