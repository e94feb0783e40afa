/**
 FLV framing: the 13 header bytes and one tag per frame, against a reader written from sections E.2, E.3 and E.4.1 of
 the Adobe Flash Video File Format Specification 10.1.
 */
module Flv {
  import opened Basics

  type Byte = x: int | 0 <= x < 256
  type U24 = x: int | 0 <= x < 0x100_0000
  type U32 = x: int | 0 <= x < 0x1_0000_0000

  const MAX_FLV_PAYLOAD: nat := 0xff_ffff

  datatype FrameType = Audio | Video | Script | Metadata

  datatype Frame = Frame(frameType: FrameType, timestamp: U32, payload: seq<Byte>)

  // ----- The writer

  const HEADER: seq<Byte> := [0x46, 0x4c, 0x56, 1, 5, 0, 0, 0, 9, 0, 0, 0, 0]

  function TagType(t: FrameType): Byte {
    match t
    case Audio => 8
    case Video => 9
    case Script | Metadata => 18
  }

  function TagHead(tagType: Byte, size: U24, timestamp: U32): seq<Byte> {
    [ tagType,
      (size / 0x1_0000) % 256, (size / 0x100) % 256, size % 256,
      (timestamp / 0x1_0000) % 256, (timestamp / 0x100) % 256, timestamp % 256,
      timestamp / 0x100_0000,
      0, 0, 0 ]
  }

  function TagTail(length: U32): seq<Byte> {
    [length / 0x100_0000, (length / 0x1_0000) % 256, (length / 0x100) % 256, length % 256]
  }

  function FlvTag(f: Frame): Option<seq<Byte>> {
    if |f.payload| > MAX_FLV_PAYLOAD then None
    else
      Some(TagHead(TagType(f.frameType), |f.payload|, f.timestamp) + f.payload + TagTail(11 + |f.payload|))
  }

  // ----- The reader

  datatype Kind = AudioData | VideoData | ScriptData

  function KindOf(tagType: Byte): Option<Kind> {
    if tagType == 8 then Some(AudioData)
    else if tagType == 9 then Some(VideoData)
    else if tagType == 18 then Some(ScriptData)
    else None
  }

  /** One tag as the specification lays it out. */
  datatype Tag = Tag(tagType: Byte, timestamp: U32, data: seq<Byte>)

  function Ui24(b: seq<Byte>, i: nat): U24
    requires i + 3 <= |b|
  {
    (b[i] as int) * 0x1_0000 + (b[i + 1] as int) * 0x100 + b[i + 2]
  }

  function Ui32(b: seq<Byte>, i: nat): U32
    requires i + 4 <= |b|
  {
    (b[i] as int) * 0x100_0000 + Ui24(b, i + 1)
  }

  /** Tag type, data size, low 24 timestamp bits, extension byte, stream id 0, data, and the size of this tag. */
  function ReadTag(b: seq<Byte>): Option<Tag> {
    if |b| < 15 then None
    else
      var size := Ui24(b, 1);
      if |b| < 15 + size || KindOf(b[0]).None? || Ui24(b, 8) != 0 || Ui32(b, 11 + size) != 11 + size then None
      else Some(Tag(b[0], (b[7] as int) * 0x100_0000 + Ui24(b, 4), b[11..11 + size]))
  }

  function ReadTags(b: seq<Byte>): Option<seq<Tag>> {
    if b == [] then Some([])
    else
      var tag := ReadTag(b);
      if tag.None? then None
      else
        var rest := ReadTags(b[15 + |tag.value.data|..]);
        if rest.None? then None else Some([tag.value] + rest.value)
  }

  /** Signature, version 1, audio and video present, header length 9, then a previous tag size of 0. */
  predicate HasHeader(b: seq<Byte>) {
    |b| >= 13 && b[..3] == [0x46, 0x4c, 0x56] && b[3] == 1 && b[4] == 5 && Ui32(b, 5) == 9 && Ui32(b, 9) == 0
  }

  function ReadFile(b: seq<Byte>): Option<seq<Tag>> {
    if HasHeader(b) then ReadTags(b[13..]) else None
  }

  // ----- Round trip

  function TagOf(f: Frame): Tag {
    Tag(TagType(f.frameType), f.timestamp, f.payload)
  }

  /** The bytes of a tag, whatever made it. */
  function TagBytes(t: Tag): seq<Byte>
    requires |t.data| <= MAX_FLV_PAYLOAD
  {
    TagHead(t.tagType, |t.data|, t.timestamp) + t.data + TagTail(11 + |t.data|)
  }

  lemma Digit(q: int, r: int)
    requires 0 <= r < 256
    ensures (q * 256 + r) / 256 == q && (q * 256 + r) % 256 == r
  {
  }

  /** Shifting by 16 or 24 bits is shifting by 8 bits two or three times. */
  lemma Shifts(v: int)
    ensures v / 0x1_0000 == v / 256 / 256 && v / 0x100_0000 == v / 256 / 256 / 256
  {
  }

  lemma SplitJoin(v: U32)
    ensures v == (v / 0x100_0000) * 0x100_0000
                 + ((v / 0x1_0000) % 256) * 0x1_0000 + ((v / 0x100) % 256) * 0x100 + v % 256
    ensures v < 0x100_0000 ==> v / 0x100_0000 == 0
  {
    Shifts(v);
  }

  lemma JoinSplit(a: int, b: Byte, c: Byte, d: Byte)
    ensures var v := a * 0x100_0000 + b * 0x1_0000 + c * 0x100 + d;
            v / 0x100_0000 == a && (v / 0x1_0000) % 256 == b && (v / 0x100) % 256 == c && v % 256 == d
  {
    Shifts(a * 0x100_0000 + b * 0x1_0000 + c * 0x100 + d);
    Digit(a * 0x1_0000 + b * 0x100 + c, d);
    Digit(a * 0x100 + b, c);
    Digit(a, b);
  }

  lemma HeadReads(tagType: Byte, size: U24, timestamp: U32)
    ensures var h := TagHead(tagType, size, timestamp);
            && h[0] == tagType && Ui24(h, 1) == size && Ui24(h, 8) == 0
            && (h[7] as int) * 0x100_0000 + Ui24(h, 4) == timestamp
  {
    SplitJoin(size);
    SplitJoin(timestamp);
  }

  lemma TailReads(length: U32)
    ensures Ui32(TagTail(length), 0) == length
  {
    SplitJoin(length);
  }

  /** Reading a number inside a longer sequence. */
  lemma Ui24Within(b: seq<Byte>, at: nat, part: seq<Byte>, i: nat)
    requires at + |part| <= |b| && b[at..at + |part|] == part && i + 3 <= |part|
    ensures Ui24(b, at + i) == Ui24(part, i)
  {
    var p := b[at..at + |part|];
    assert b[at + i] == p[i] && b[at + i + 1] == p[i + 1] && b[at + i + 2] == p[i + 2];
  }

  lemma TagSlices(head: seq<Byte>, data: seq<Byte>, tail: seq<Byte>, rest: seq<Byte>)
    ensures var b, n := head + data + tail + rest, |head| + |data|;
            b[0..0 + |head|] == head && b[|head|..n] == data && b[n..n + |tail|] == tail
  {
  }

  lemma ReadTagOf(t: Tag, rest: seq<Byte>)
    requires |t.data| <= MAX_FLV_PAYLOAD && KindOf(t.tagType).Some?
    ensures ReadTag(TagBytes(t) + rest) == Some(t)
  {
    var size := |t.data|;
    var head, tail := TagHead(t.tagType, size, t.timestamp), TagTail(11 + size);
    var b := TagBytes(t) + rest;
    TagSlices(head, t.data, tail, rest);
    Ui24Within(b, 0, head, 1);
    Ui24Within(b, 0, head, 4);
    Ui24Within(b, 0, head, 8);
    Ui24Within(b, 11 + size, tail, 1);
    HeadReads(t.tagType, size, t.timestamp);
    TailReads(11 + size);
  }

  lemma Halves(b: seq<Byte>, n: nat)
    requires n <= |b|
    ensures b == b[..n] + b[n..]
  {
  }

  lemma HeadIs(b: seq<Byte>, tagType: Byte, size: U24, timestamp: U32)
    requires |b| >= 11 && b[0] == tagType && Ui24(b, 1) == size && Ui24(b, 8) == 0
    requires timestamp == (b[7] as int) * 0x100_0000 + Ui24(b, 4)
    ensures b[..11] == TagHead(tagType, size, timestamp)
  {
    JoinSplit(0, b[1], b[2], b[3]);
    JoinSplit(b[7], b[4], b[5], b[6]);
  }

  lemma TailIs(b: seq<Byte>, at: nat, length: U32)
    requires at + 4 <= |b| && Ui32(b, at) == length
    ensures b[at..at + 4] == TagTail(length)
  {
    JoinSplit(b[at], b[at + 1], b[at + 2], b[at + 3]);
  }

  lemma ThreeParts(b: seq<Byte>, i: nat, j: nat, k: nat)
    requires i <= j <= k <= |b|
    ensures b[..k] == b[..i] + b[i..j] + b[j..k]
  {
  }

  /** Whatever the reader takes for a tag is that tag's bytes. */
  lemma ReadTagIs(b: seq<Byte>)
    requires ReadTag(b).Some?
    ensures var t := ReadTag(b).value;
            KindOf(t.tagType).Some? && |t.data| <= MAX_FLV_PAYLOAD && 15 + |t.data| <= |b|
            && b[..15 + |t.data|] == TagBytes(t)
  {
    var t := ReadTag(b).value;
    var size := |t.data|;
    HeadIs(b, t.tagType, size, t.timestamp);
    TailIs(b, 11 + size, 11 + size);
    ThreeParts(b, 11, 11 + size, 15 + size);
  }

  predicate Writable(tags: seq<Tag>) {
    forall i | 0 <= i < |tags| :: |tags[i].data| <= MAX_FLV_PAYLOAD && KindOf(tags[i].tagType).Some?
  }

  function AllBytes(tags: seq<Tag>): seq<Byte>
    requires Writable(tags)
  {
    if tags == [] then [] else TagBytes(tags[0]) + AllBytes(tags[1..])
  }

  /** Reading goes on behind the first tag. */
  lemma ReadTagsCons(b: seq<Byte>, t: Tag, rest: seq<Byte>)
    requires ReadTag(b) == Some(t) && 15 + |t.data| <= |b| && b[15 + |t.data|..] == rest
    ensures ReadTags(b) == if ReadTags(rest).Some? then Some([t] + ReadTags(rest).value) else None
  {
  }

  lemma TagThenRest(t: Tag, rest: seq<Byte>)
    requires |t.data| <= MAX_FLV_PAYLOAD
    ensures var b := TagBytes(t) + rest; 15 + |t.data| <= |b| && b[15 + |t.data|..] == rest
  {
  }

  lemma TagThenReads(t: Tag, rest: seq<Byte>)
    requires |t.data| <= MAX_FLV_PAYLOAD && KindOf(t.tagType).Some? && ReadTags(rest).Some?
    ensures ReadTags(TagBytes(t) + rest) == Some([t] + ReadTags(rest).value)
  {
    ReadTagOf(t, rest);
    TagThenRest(t, rest);
    ReadTagsCons(TagBytes(t) + rest, t, rest);
  }

  lemma {:induction false} ReadTagsOf(tags: seq<Tag>)
    requires Writable(tags)
    ensures ReadTags(AllBytes(tags)) == Some(tags)
  {
    if tags != [] {
      ReadTagsOf(tags[1..]);
      TagThenReads(tags[0], AllBytes(tags[1..]));
      HeadTail(tags);
    }
  }

  lemma AllBytesCons(t: Tag, tags: seq<Tag>)
    requires |t.data| <= MAX_FLV_PAYLOAD && KindOf(t.tagType).Some? && Writable(tags)
    ensures Writable([t] + tags) && AllBytes([t] + tags) == TagBytes(t) + AllBytes(tags)
  {
    assert ([t] + tags)[1..] == tags;
  }

  lemma {:induction false} ReadTagsIs(b: seq<Byte>)
    requires ReadTags(b).Some?
    ensures var tags := ReadTags(b).value; Writable(tags) && AllBytes(tags) == b
    decreases |b|
  {
    if b != [] {
      ReadTagIs(b);
      var t := ReadTag(b).value;
      var n := 15 + |t.data|;
      ReadTagsCons(b, t, b[n..]);
      ReadTagsIs(b[n..]);
      AllBytesCons(t, ReadTags(b[n..]).value);
      Halves(b, n);
    }
  }

  function FileOf(tags: seq<Tag>): seq<Byte>
    requires Writable(tags)
  {
    HEADER + AllBytes(tags)
  }

  lemma HeaderIsExact(b: seq<Byte>)
    ensures HasHeader(b) <==> |b| >= 13 && b[..13] == HEADER
  {
    if |b| >= 13 && b[..13] == HEADER {
      assert forall i | 0 <= i < 13 :: b[i] == HEADER[i];
      assert b[..3] == [0x46, 0x4c, 0x56];
    }
    if HasHeader(b) {
      assert b[0] == b[..3][0] && b[1] == b[..3][1] && b[2] == b[..3][2];
    }
  }

  lemma Front(a: seq<Byte>, b: seq<Byte>)
    ensures (a + b)[..|a|] == a && (a + b)[|a|..] == b
  {
  }

  lemma WrittenIsRead(tags: seq<Tag>)
    requires Writable(tags)
    ensures ReadFile(FileOf(tags)) == Some(tags)
  {
    Front(HEADER, AllBytes(tags));
    HeaderIsExact(FileOf(tags));
    ReadTagsOf(tags);
  }

  lemma ReadIsWritten(b: seq<Byte>)
    requires ReadFile(b).Some?
    ensures Writable(ReadFile(b).value) && b == FileOf(ReadFile(b).value)
  {
    HeaderIsExact(b);
    ReadTagsIs(b[13..]);
    Halves(b, 13);
  }

  /** A file reads as `tags` exactly when it is the header and the bytes of `tags`: every file written is read back,
      no other file is read as the same tags, and every tag's trailing size is that tag's length. */
  lemma ReadsExactlyWhatIsWritten(b: seq<Byte>, tags: seq<Tag>)
    ensures ReadFile(b) == Some(tags) <==> Writable(tags) && b == FileOf(tags)
  {
    if Writable(tags) { WrittenIsRead(tags); }
    if ReadFile(b).Some? { ReadIsWritten(b); }
  }
}
