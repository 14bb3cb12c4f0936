/** The video branch of the AvPacket to RTMP remuxer. */
module AvPacketRemux {
  import opened Bytes
  import opened RtmpMsg
  import opened Nalu
  import GopCache

  datatype Codec = H264 | H265

  // ------------------------------------------------------ kinds of NAL units

  datatype Kind = Delimiter | Vps | Sps | Pps | Picture(key: bool)

  /** The kind of a unit, from the type bits of its first byte. */
  function KindOf(codec: Codec, first: byte): Kind {
    match codec
    case H264 =>
      var t := first % 32;
      if t == 9 then Delimiter else if t == 7 then Sps else if t == 8 then Pps else Picture(t == 5)
    case H265 =>
      var t := first / 2 % 64;
      if t == 35 then Delimiter
      else if t == 32 then Vps else if t == 33 then Sps else if t == 34 then Pps
      else Picture(16 <= t <= 23)
  }

  function FrameByte(codec: Codec, key: bool): byte {
    match codec
    case H264 => if key then AVC_KEY_FRAME else AVC_INTER_FRAME
    case H265 => if key then HEVC_KEY_FRAME else HEVC_INTER_FRAME
  }

  // -------------------------------------------------------- specification

  /** The builders the remuxer calls: sequence headers from parameter sets, and
      the metadata message. Any of them may fail. */
  datatype Builders = Builders(avc: (seq<byte>, seq<byte>) -> Option<seq<byte>>,
                               hevc: (seq<byte>, seq<byte>, seq<byte>) -> Option<seq<byte>>,
                               metadata: Option<seq<byte>>)

  /** Parameter sets waiting for the others, and everything emitted. */
  datatype State = State(hasEmittedMetadata: bool, vps: seq<byte>, sps: seq<byte>, pps: seq<byte>, out: seq<Msg>)

  function Timestamp32(ts: int): Timestamp {
    ts % TWO32
  }

  /** One message, behind the metadata if that has not been sent yet; without
      metadata nothing is sent. */
  function Emit(s: State, b: Builders, payload: seq<byte>, ts: int): State {
    if s.hasEmittedMetadata then s.(out := s.out + [Msg(VIDEO, Timestamp32(ts), payload)])
    else match b.metadata
         case None => s
         case Some(m) =>
           s.(hasEmittedMetadata := true,
              out := s.out + [Msg(METADATA, 0, m)] + [Msg(VIDEO, Timestamp32(ts), payload)])
  }

  /** Keeps a parameter set. */
  function Store(s: State, kind: Kind, nal: Nal): State {
    match kind
    case Vps => s.(vps := nal)
    case Sps => s.(sps := nal)
    case Pps => s.(pps := nal)
    case _ => s
  }

  predicate Complete(s: State, codec: Codec) {
    s.sps != [] && s.pps != [] && (codec == H265 ==> s.vps != [])
  }

  function SeqHeader(s: State, b: Builders, codec: Codec): Option<seq<byte>> {
    match codec
    case H264 => b.avc(s.sps, s.pps)
    case H265 => b.hevc(s.vps, s.sps, s.pps)
  }

  /** A complete set of parameter sets is sent as a sequence header and forgotten. */
  function Flush(s: State, b: Builders, codec: Codec, ts: int): State {
    if !Complete(s, codec) then s
    else match SeqHeader(s, b, codec)
         case None => s
         case Some(h) => Emit(s, b, h, ts).(vps := [], sps := [], pps := [])
  }

  predicate IsPicture(codec: Codec, nal: Nal) {
    nal != [] && KindOf(codec, nal[0]).Picture?
  }

  function Feed1(s: State, b: Builders, codec: Codec, nal: Nal, ts: int): State
    requires nal != []
  {
    var kind := KindOf(codec, nal[0]);
    if kind == Delimiter || kind.Picture? then s else Flush(Store(s, kind, nal), b, codec, ts)
  }

  /** The parameter sets of a packet, one after the other. */
  function FeedSets(s: State, b: Builders, codec: Codec, nals: seq<Nal>, ts: int): State
    requires forall i :: 0 <= i < |nals| ==> nals[i] != []
  {
    if nals == [] then s
    else Feed1(FeedSets(s, b, codec, nals[..|nals| - 1], ts), b, codec, nals[|nals| - 1], ts)
  }

  lemma FeedSetsPush(s: State, b: Builders, codec: Codec, nals: seq<Nal>, i: nat, ts: int)
    requires i < |nals| && forall k :: 0 <= k < |nals| ==> nals[k] != []
    ensures FeedSets(s, b, codec, nals[..i + 1], ts) == Feed1(FeedSets(s, b, codec, nals[..i], ts), b, codec, nals[i], ts)
  {
    hide Feed1;
    assert nals[..i + 1][..i] == nals[..i];
  }

  /** The units that are neither delimiters nor parameter sets. */
  function Pictures(codec: Codec, nals: seq<Nal>): (r: seq<Nal>)
    ensures forall i :: 0 <= i < |r| ==> r[i] != [] && IsPicture(codec, r[i])
  {
    if nals == [] then []
    else Pictures(codec, nals[..|nals| - 1]) + if IsPicture(codec, nals[|nals| - 1]) then [nals[|nals| - 1]] else []
  }

  /** The message body: the frame type is that of the last picture unit, and
      from byte 5 on come the units in AVCC format. */
  function VideoBody(codec: Codec, pictures: seq<Nal>): seq<byte>
    requires pictures != [] && pictures[|pictures| - 1] != []
  {
    var last := pictures[|pictures| - 1];
    var kind := KindOf(codec, last[0]);
    [FrameByte(codec, kind == Picture(true)), PACKET_NALU, 0, 0, 0] + JoinAvcc(pictures)
  }

  function SplitOf(isAvcc: bool, input: Option<seq<byte>>): Split {
    match input
    case None => Split([], Some(ShortBuffer))
    case Some(s) => if isAvcc then SplitAvcc(s) else SplitAnnexb(s)
  }

  /** A whole packet: nothing if the split fails; else the sequence headers as
      their parameter sets complete, then one message with all pictures. */
  function FeedPacket(s: State, b: Builders, isAvcc: bool, codec: Codec, input: Option<seq<byte>>, ts: int): State {
    var split := SplitOf(isAvcc, input);
    if split.error != None then s
    else
      SplitFits(isAvcc, input);
      var s' := FeedSets(s, b, codec, split.nals, ts);
      var pictures := Pictures(codec, split.nals);
      if pictures == [] then s' else Emit(s', b, VideoBody(codec, pictures), ts)
  }

  // --------------------------------------------------------------- lemmas

  /** Whatever the format, a successful split gives nonempty units, each with
      at least three bytes of the input to itself. */
  lemma SplitFits(isAvcc: bool, input: Option<seq<byte>>)
    requires SplitOf(isAvcc, input).error == None
    ensures var nals := SplitOf(isAvcc, input).nals;
            && (forall i :: 0 <= i < |nals| ==> nals[i] != [])
            && Total(nals, 3) <= |input.value|
  {
    hide SplitAvcc, SplitAnnexb;
    if isAvcc {
      AvccSplitFits(input.value);
      TotalGrows(SplitAvcc(input.value).nals);
    } else {
      AnnexbSplitFits(input.value);
    }
  }

  lemma {:induction false} TotalGrows(nals: seq<Nal>)
    ensures Total(nals, 4) == Total(nals, 3) + |nals|
  {
    if nals != [] {
      TotalGrows(nals[1..]);
    }
  }

  lemma PicturesPush(codec: Codec, nals: seq<Nal>, i: nat)
    requires i < |nals|
    ensures Pictures(codec, nals[..i + 1])
         == if IsPicture(codec, nals[i]) then Pictures(codec, nals[..i]) + [nals[i]] else Pictures(codec, nals[..i])
  {
    hide IsPicture;
    assert nals[..i + 1][..i] == nals[..i];
  }

  /** The pictures of a split always fit the buffer sized for it. */
  lemma {:induction false} PicturesFit(codec: Codec, nals: seq<Nal>)
    ensures |JoinAvcc(Pictures(codec, nals))| <= Total(nals, 3) + |nals|
  {
    if nals == [] {
      JoinNothing();
    } else {
      hide JoinAvcc, Pictures;
      var n := |nals| - 1;
      PicturesFit(codec, nals[..n]);
      PicturesPush(codec, nals, n);
      assert nals == nals[..n] + [nals[n]] && nals == nals[..n + 1];
      TotalConcat(nals[..n], [nals[n]], 3);
      assert Total([nals[n]], 3) == |nals[n]| + 3;
      JoinPush(Pictures(codec, nals[..n]), nals[n]);
    }
  }

  lemma {:induction false} PrefixFits(nals: seq<Nal>, i: nat)
    requires i <= |nals|
    ensures Total(nals[..i], 3) + i <= Total(nals, 3) + |nals|
  {
    assert nals == nals[..i] + nals[i..];
    TotalConcat(nals[..i], nals[i..], 3);
  }

  // ------------------------------------------------- the message of a packet

  predicate IsKey(codec: Codec, nal: Nal)
    requires nal != []
  {
    KindOf(codec, nal[0]) == Picture(true)
  }

  predicate HasKey(codec: Codec, pictures: seq<Nal>)
    requires forall i :: 0 <= i < |pictures| ==> pictures[i] != []
  {
    exists i :: 0 <= i < |pictures| && IsKey(codec, pictures[i])
  }

  /** The packet splits, holds pictures, and is not held back for want of
      metadata: the cases in which its pictures go out. */
  predicate GoesOut(s: State, b: Builders, isAvcc: bool, codec: Codec, input: Option<seq<byte>>) {
    && SplitOf(isAvcc, input).error == None
    && Pictures(codec, SplitOf(isAvcc, input).nals) != []
    && (s.hasEmittedMetadata || b.metadata.Some?)
  }

  lemma {:induction false} MetadataStays(s: State, b: Builders, codec: Codec, nals: seq<Nal>, ts: int)
    requires s.hasEmittedMetadata && forall i :: 0 <= i < |nals| ==> nals[i] != []
    ensures FeedSets(s, b, codec, nals, ts).hasEmittedMetadata
  {
    hide KindOf;
    if nals != [] {
      MetadataStays(s, b, codec, nals[..|nals| - 1], ts);
    }
  }

  /** The last message that goes out for a packet holds its pictures. */
  lemma PacketMessage(s: State, b: Builders, isAvcc: bool, codec: Codec, input: Option<seq<byte>>, ts: int)
    requires GoesOut(s, b, isAvcc, codec, input)
    ensures var out := FeedPacket(s, b, isAvcc, codec, input, ts).out;
            var pictures := Pictures(codec, SplitOf(isAvcc, input).nals);
            out != [] && out[|out| - 1] == Msg(VIDEO, Timestamp32(ts), VideoBody(codec, pictures))
  {
    hide SplitOf, Pictures, FeedSets, VideoBody, Timestamp32;
    var nals := SplitOf(isAvcc, input).nals;
    SplitFits(isAvcc, input);
    if s.hasEmittedMetadata {
      MetadataStays(s, b, codec, nals, ts);
    }
  }

  /** Reading that message back gives exactly the pictures of the packet. */
  lemma MessageIsReadable(s: State, b: Builders, isAvcc: bool, codec: Codec, input: Option<seq<byte>>, ts: int)
    requires GoesOut(s, b, isAvcc, codec, input) && Lengths(Pictures(codec, SplitOf(isAvcc, input).nals))
    ensures var out := FeedPacket(s, b, isAvcc, codec, input, ts).out;
            && out != [] && |out[|out| - 1].payload| >= 5
            && SplitAvcc(out[|out| - 1].payload[5..]) == Split(Pictures(codec, SplitOf(isAvcc, input).nals), None)
  {
    hide SplitOf, Pictures, FeedPacket, JoinAvcc, SplitAvcc, Lengths;
    var pictures := Pictures(codec, SplitOf(isAvcc, input).nals);
    PacketMessage(s, b, isAvcc, codec, input, ts);
    SplitInvertsJoinAvcc(pictures);
    assert VideoBody(codec, pictures)[5..] == JoinAvcc(pictures);
  }

  /** The caches take that message for a key frame if and only if its last
      picture is one. They should if any picture is: they do if and only if there
      is no key picture or the last one is. */
  lemma KeyFlagIsThatOfLastPicture(s: State, b: Builders, isAvcc: bool, codec: Codec, input: Option<seq<byte>>, ts: int)
    requires GoesOut(s, b, isAvcc, codec, input)
    ensures var out := FeedPacket(s, b, isAvcc, codec, input, ts).out;
            var pictures := Pictures(codec, SplitOf(isAvcc, input).nals);
            && out != [] && out[|out| - 1].Readable()
            && var flagged := out[|out| - 1].IsVideoKeyNalu();
            && (flagged <==> IsKey(codec, pictures[|pictures| - 1]))
            && ((flagged <==> HasKey(codec, pictures))
                <==> !HasKey(codec, pictures) || IsKey(codec, pictures[|pictures| - 1]))
  {
    hide SplitOf, Pictures, FeedPacket, JoinAvcc, KindOf;
    PacketMessage(s, b, isAvcc, codec, input, ts);
    var pictures := Pictures(codec, SplitOf(isAvcc, input).nals);
    assert VideoBody(codec, pictures)[..2] == [FrameByte(codec, IsKey(codec, pictures[|pictures| - 1])), PACKET_NALU];
    var body := VideoBody(codec, pictures);
    assert body[0] == body[..2][0] && body[1] == body[..2][1];
  }

  /** An IDR picture followed by an SEI unit, as a byte stream. */
  const IDR: Nal := [0x65, 0x88]
  const SEI: Nal := [0x06, 0x05]
  const IDR_THEN_SEI: seq<byte> := [0, 0, 0, 1, 0x65, 0x88, 0, 0, 0, 1, 0x06, 0x05]

  lemma IdrThenSeiSplits()
    ensures SplitAnnexb(IDR_THEN_SEI) == Split([IDR, SEI], None)
  {
    var nals := [IDR, SEI];
    assert forall k: nat :: !CodeAt(IDR, k) && !CodeAt(SEI, k);
    assert Streamable(nals);
    SplitInvertsJoin(nals, [3, 3]);
    hide SplitAnnexb, Streamable;
    assert nals[1..] == [SEI] && [3, 3][1..] == [3] && [SEI][1..] == [] && [3][1..] == [];
    assert JoinAnnexb([], []) == [];
    assert JoinAnnexb([SEI], [3]) == Zeros(3) + [1] + (SEI + []);
    assert JoinAnnexb(nals, [3, 3]) == Zeros(3) + [1] + (IDR + JoinAnnexb([SEI], [3]));
    assert Zeros(3) == [0, 0, 0];
    assert JoinAnnexb(nals, [3, 3]) == IDR_THEN_SEI;
  }

  /** The message that goes out for it is not a key frame to the caches, and fed
      to an empty one it opens no GOP. */
  lemma IdrThenSeiOpensNoGop(s: State, b: Builders, ts: int, gopNum: nat, maxFrames: int)
    requires s.hasEmittedMetadata || b.metadata.Some?
    ensures var out := FeedPacket(s, b, false, H264, Some(IDR_THEN_SEI), ts).out;
            && out != [] && out[|out| - 1].Readable() && HasKey(H264, [IDR, SEI])
            && var m := out[|out| - 1];
            !m.IsVideoKeyNalu() && GopCache.FeedAll(gopNum, maxFrames, [GopCache.Item(m.payload, m.IsVideoKeyNalu())]) == []
  {
    hide FeedPacket, Pictures, SplitOf, HasKey;
    IdrThenSeiPictures();
    KeyFlagIsThatOfLastPicture(s, b, false, H264, Some(IDR_THEN_SEI), ts);
    var out := FeedPacket(s, b, false, H264, Some(IDR_THEN_SEI), ts).out;
    NoGopWithoutKey(gopNum, maxFrames, out[|out| - 1].payload);
  }

  lemma IdrThenSeiPictures()
    ensures SplitOf(false, Some(IDR_THEN_SEI)).error == None
    ensures Pictures(H264, SplitOf(false, Some(IDR_THEN_SEI)).nals) == [IDR, SEI]
    ensures !IsKey(H264, SEI) && HasKey(H264, [IDR, SEI])
  {
    IdrThenSeiSplits();
    var nals := [IDR, SEI];
    hide SplitAnnexb;
    assert nals[..1] == [IDR] && [IDR][..0] == [];
    assert Pictures(H264, []) == [] && Pictures(H264, [IDR]) == [] + [IDR];
    assert IsKey(H264, nals[0]);
  }

  lemma NoGopWithoutKey(gopNum: nat, maxFrames: int, chunk: seq<byte>)
    ensures GopCache.FeedAll(gopNum, maxFrames, [GopCache.Item(chunk, false)]) == []
  {
    assert GopCache.FeedAll(gopNum, maxFrames, []) == [] && [GopCache.Item(chunk, false)][..0] == [];
  }

  // ------------------------------------------------------------ the program

  class AvPacket2RtmpRemuxer {
    const isAvcc: bool
    const builders: Builders
    var hasEmittedMetadata: bool
    var vps: seq<byte>
    var sps: seq<byte>
    var pps: seq<byte>
    ghost var out: seq<Msg>

    ghost function View(): State
      reads this
    {
      State(hasEmittedMetadata, vps, sps, pps, out)
    }

    constructor (isAvcc: bool, builders: Builders)
      ensures View() == State(false, [], [], [], [])
      ensures this.isAvcc == isAvcc && this.builders == builders
    {
      this.isAvcc, this.builders := isAvcc, builders;
      hasEmittedMetadata, vps, sps, pps, out := false, [], [], [], [];
    }

    /** The video branch of FeedAvPacket. */
    method FeedVideoPacket(codec: Codec, input: Option<seq<byte>>, ts: int)
      modifies this
      ensures View() == FeedPacket(old(View()), builders, isAvcc, codec, input, ts)
    {
      hide SplitAvcc, SplitAnnexb, JoinAvcc, Emit, Feed1, Total, Pictures, BodySoFar, VideoBody, FeedSets;
      var split: Split;
      if isAvcc {
        split := SplitNaluAvcc(input);
      } else {
        split := SplitNaluAnnexb(input);
      }
      assert split == SplitOf(isAvcc, input);
      if split.error != None {
        return;
      }
      var nals := split.nals;
      SplitFits(isAvcc, input);
      var pos := 5;
      var maxLength := |input.value| + pos + |nals|;
      var payload := new byte[maxLength](_ => 0);
      NoPictures(codec);
      NoSets(old(View()), builders, codec, ts);
      for i := 0 to |nals|
        invariant View() == FeedSets(old(View()), builders, codec, nals[..i], ts)
        invariant 5 <= pos == |BodySoFar(codec, Pictures(codec, nals[..i]))| <= maxLength
        invariant payload[..pos] == BodySoFar(codec, Pictures(codec, nals[..i]))
      {
        var nal := nals[i];
        FeedSetsPush(old(View()), builders, codec, nals, i, ts);
        PicturesPush(codec, nals, i);
        var kind := KindOf(codec, nal[0]);
        if kind.Picture? {
          RoomForOne(codec, nals, i, |input.value|);
          BodyPush(codec, Pictures(codec, nals[..i]), nal);
          pos := PutUnit(payload, pos, FrameByte(codec, kind.key), nal);
        }
        FeedOne(codec, nal, ts);
      }
      assert nals[..|nals|] == nals;
      BodyOf(codec, Pictures(codec, nals));
      if pos > 5 {
        EmitRtmpAvMsg(payload[..pos], ts);
      }
    }

    /** What the loop does with a unit that is not a picture; pictures and
        delimiters leave the state alone. */
    method FeedOne(codec: Codec, nal: Nal, ts: int)
      requires nal != []
      modifies this
      ensures View() == Feed1(old(View()), builders, codec, nal, ts)
    {
      var kind := KindOf(codec, nal[0]);
      if kind == Delimiter || kind.Picture? {
        return;
      }
      if kind == Vps {
        vps := nal;
      } else if kind == Sps {
        sps := nal;
      } else {
        pps := nal;
      }
      if codec == H264 {
        if |sps| > 0 && |pps| > 0 {
          var h := builders.avc(sps, pps);
          if h == None {
            return;
          }
          EmitRtmpAvMsg(h.value, ts);
          ClearVideoSeqHeader();
        }
      } else {
        if |vps| > 0 && |sps| > 0 && |pps| > 0 {
          var h := builders.hevc(vps, sps, pps);
          if h == None {
            return;
          }
          EmitRtmpAvMsg(h.value, ts);
          ClearVideoSeqHeader();
        }
      }
    }

    method ClearVideoSeqHeader()
      modifies `vps, `sps, `pps
      ensures vps == [] && sps == [] && pps == []
    {
      vps, sps, pps := [], [], [];
    }

    method EmitRtmpAvMsg(payload: seq<byte>, ts: int)
      modifies `hasEmittedMetadata, `out
      ensures View() == Emit(old(View()), builders, payload, ts)
    {
      if !hasEmittedMetadata {
        if builders.metadata == None {
          return;
        }
        out := out + [Msg(METADATA, 0, builders.metadata.value)];
        hasEmittedMetadata := true;
      }
      out := out + [Msg(VIDEO, Timestamp32(ts), payload)];
    }
  }

  /** The filled part of the buffer after some pictures. */
  function BodySoFar(codec: Codec, pictures: seq<Nal>): (r: seq<byte>)
    requires forall i :: 0 <= i < |pictures| ==> pictures[i] != []
    ensures |r| == 5 + |JoinAvcc(pictures)|
  {
    if pictures == [] then [0, 0, 0, 0, 0] else VideoBody(codec, pictures)
  }

  lemma BodyPush(codec: Codec, pictures: seq<Nal>, nal: Nal)
    requires forall i :: 0 <= i < |pictures| ==> pictures[i] != []
    requires IsPicture(codec, nal)
    ensures BodySoFar(codec, pictures + [nal])
         == [FrameByte(codec, KindOf(codec, nal[0]).key), PACKET_NALU] + BodySoFar(codec, pictures)[2..]
            + (BeBytes(|nal| % TWO32, 4) + nal)
  {
    hide JoinAvcc, BeBytes, FrameByte, KindOf, BodySoFar;
    JoinPush(pictures, nal);
    BodyTail(codec, pictures);
    BodyOf(codec, pictures + [nal]);
    HeadOfBody(FrameByte(codec, KindOf(codec, nal[0]).key), JoinAvcc(pictures), BeBytes(|nal| % TWO32, 4) + nal);
  }

  lemma BodyTail(codec: Codec, pictures: seq<Nal>)
    requires forall i :: 0 <= i < |pictures| ==> pictures[i] != []
    ensures BodySoFar(codec, pictures)[2..] == [0, 0, 0] + JoinAvcc(pictures)
  {
    hide JoinAvcc, KindOf, FrameByte;
    JoinNothing();
    if pictures == [] {
      TailOfHead(0, 0, []);
    } else {
      var last := pictures[|pictures| - 1];
      TailOfHead(FrameByte(codec, KindOf(codec, last[0]) == Picture(true)), PACKET_NALU, JoinAvcc(pictures));
    }
  }

  lemma TailOfHead(a: byte, b: byte, j: seq<byte>)
    ensures ([a, b, 0, 0, 0] + j)[2..] == [0, 0, 0] + j
    ensures j == [] ==> [a, b, 0, 0, 0] + j == [a, b, 0, 0, 0]
  {
  }

  lemma HeadOfBody(first: byte, j: seq<byte>, u: seq<byte>)
    ensures [first, PACKET_NALU, 0, 0, 0] + (j + u) == [first, PACKET_NALU] + ([0, 0, 0] + j) + u
  {
  }

  lemma BodyOf(codec: Codec, pictures: seq<Nal>)
    requires forall i :: 0 <= i < |pictures| ==> pictures[i] != []
    ensures pictures != [] ==> BodySoFar(codec, pictures) == VideoBody(codec, pictures)
    ensures pictures == [] <==> |BodySoFar(codec, pictures)| == 5
  {
  }

  lemma RoomForOne(codec: Codec, nals: seq<Nal>, i: nat, size: nat)
    requires i < |nals| && Total(nals, 3) <= size && IsPicture(codec, nals[i])
    ensures 5 + |JoinAvcc(Pictures(codec, nals[..i]))| + 4 + |nals[i]| <= size + 5 + |nals|
  {
    hide JoinAvcc, Total, Pictures;
    PicturesPush(codec, nals, i);
    PicturesFit(codec, nals[..i + 1]);
    PrefixFits(nals, i + 1);
    JoinPush(Pictures(codec, nals[..i]), nals[i]);
  }

  lemma NoSets(s: State, b: Builders, codec: Codec, ts: int)
    ensures FeedSets(s, b, codec, [], ts) == s
  {
  }

  lemma NoPictures(codec: Codec)
    ensures Pictures(codec, []) == [] && BodySoFar(codec, []) == [0, 0, 0, 0, 0]
  {
  }

  /** Writes one unit at a position, and the two head bytes. */
  method PutUnit(payload: array<byte>, at: nat, frameByte: byte, nal: Nal) returns (pos: nat)
    requires 5 <= at && at + 4 + |nal| <= payload.Length
    modifies payload
    ensures pos == at + 4 + |nal|
    ensures payload[..pos]
         == [frameByte, PACKET_NALU] + old(payload[..at])[2..] + (BeBytes(|nal| % TWO32, 4) + nal)
  {
    hide BeBytes;
    pos := at;
    payload[0] := frameByte;
    payload[1] := PACKET_NALU;
    PutBytes(payload, pos, BeBytes(|nal| % TWO32, 4));
    pos := pos + 4;
    PutBytes(payload, pos, nal);
    pos := pos + |nal|;
  }
}
