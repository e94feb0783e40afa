/** What a recording sink's file reads as: the FLV framing carried through the sink's queue. */
module Recording {
  import opened Basics
  import opened Flv
  import Sink = SinkQueue

  /** The queued bytes are one whole FLV tag. */
  predicate IsFrame(tag: Sink.Tag) {
    ReadTag(tag.bytes).Some? && |tag.bytes| == 15 + |ReadTag(tag.bytes).value.data|
  }

  predicate Framed(tags: seq<Sink.Tag>) {
    forall i | 0 <= i < |tags| :: IsFrame(tags[i])
  }

  function KindOfFrame(t: FrameType): Kind {
    match t
    case Audio => AudioData
    case Video => VideoData
    case Script | Metadata => ScriptData
  }

  /** A frame is encoded exactly when its payload fits, as one whole tag that reads back as the frame. */
  lemma EncodedIsFrame(f: Frame)
    ensures FlvTag(f).Some? <==> |f.payload| <= MAX_FLV_PAYLOAD
    ensures FlvTag(f).Some? ==>
              && IsFrame(Sink.Tag(FlvTag(f).value))
              && var tag := ReadTag(FlvTag(f).value).value;
              && KindOf(tag.tagType) == Some(KindOfFrame(f.frameType))
              && tag.timestamp == f.timestamp && tag.data == f.payload
  {
    if |f.payload| > MAX_FLV_PAYLOAD { return; }
    ReadTagOf(TagOf(f), []);
    assert TagBytes(TagOf(f)) + [] == FlvTag(f).value;
  }

  function Decoded(tags: seq<Sink.Tag>): seq<Tag>
    requires Framed(tags)
  {
    seq(|tags|, i requires 0 <= i < |tags| => ReadTag(tags[i].bytes).value)
  }

  /** The file: the header, then each written tag. */
  function Written(tags: seq<Sink.Tag>): seq<Byte> {
    if tags == [] then [] else tags[0].bytes + Written(tags[1..])
  }

  lemma {:induction false} WrittenIsAllBytes(tags: seq<Sink.Tag>)
    requires Framed(tags)
    ensures Writable(Decoded(tags)) && Written(tags) == AllBytes(Decoded(tags))
  {
    if tags != [] {
      ReadTagIs(tags[0].bytes);
      var n := |tags[0].bytes|;
      assert tags[0].bytes[..n] == tags[0].bytes;
      WrittenIsAllBytes(tags[1..]);
      assert Decoded(tags) == [ReadTag(tags[0].bytes).value] + Decoded(tags[1..]);
    }
  }

  ghost predicate OffersFrames(steps: seq<Sink.Step>) {
    forall i | 0 <= i < |steps| && steps[i].Offer? :: IsFrame(steps[i].tag)
  }

  ghost predicate HoldsFrames(s: Sink.State) {
    Framed(s.accepted) && (s.sender.Idle? || s.sender.Disabling? || IsFrame(s.sender.tag))
  }

  lemma {:induction false} RunHoldsFrames(s: Sink.State, steps: seq<Sink.Step>)
    requires Sink.RunFrom(s, steps) && OffersFrames(steps) && HoldsFrames(s)
    ensures HoldsFrames(Sink.End(s, steps))
    decreases steps
  {
    if steps != [] {
      assert OffersFrames(steps[1..]);
      RunHoldsFrames(Sink.Next(s, steps[0]), steps[1..]);
    }
  }

  /** Whatever the two threads do, the file of whole tags reads as a run of the accepted frames, in order and from the
      first; once the worker has drained a closed queue it reads as all of them. */
  lemma RecordingReadsAsAccepted(max: nat, steps: seq<Sink.Step>)
    requires Sink.RunFrom(Sink.Init(max), steps) && OffersFrames(steps)
    ensures var s := Sink.End(Sink.Init(max), steps);
            && Framed(s.accepted) && Framed(s.output)
            && ReadFile(HEADER + Written(s.output)) == Some(Decoded(s.output))
            && Decoded(s.output) <= Decoded(s.accepted)
            && (s.worker == Sink.Exited(true) ==> ReadFile(HEADER + Written(s.output)) == Some(Decoded(s.accepted)))
  {
    var s := Sink.End(Sink.Init(max), steps);
    Sink.OutputIsAcceptedPrefix(max, steps);
    RunHoldsFrames(Sink.Init(max), steps);
    WrittenIsAllBytes(s.output);
    ReadsExactlyWhatIsWritten(HEADER + Written(s.output), Decoded(s.output));
  }
}
