/** What the video branch of the remuxer stores and sends for a packet, told by the
    type numbers of its units (Table 7-1 of ITU-T H.264 and of ITU-T H.265). */
module SequenceHeaders {
  import opened Bytes
  import opened RtmpMsg
  import opened Nalu
  import opened AvPacketRemux

  /** nal_unit_type: five bits, or the six behind the top one. */
  function NumberOf(codec: Codec, nal: Nal): nat
    requires nal != []
  {
    if codec == H264 then nal[0] % 32 else nal[0] / 2 % 64
  }

  // The numbers of the parameter sets. No H.264 unit has the number 32.
  const VPS := 32

  function SpsNumber(codec: Codec): nat {
    if codec == H264 then 7 else 33
  }

  function PpsNumber(codec: Codec): nat {
    if codec == H264 then 8 else 34
  }

  predicate IsSet(codec: Codec, nal: Nal)
    requires nal != []
  {
    var t := NumberOf(codec, nal);
    if codec == H264 then t == 7 || t == 8 else 32 <= t <= 34
  }

  /** Neither a parameter set nor a delimiter. */
  predicate IsOther(codec: Codec, nal: Nal)
    requires nal != []
  {
    var t := NumberOf(codec, nal);
    if codec == H264 then t != 7 && t != 8 && t != 9 else t < 32 || t > 35
  }

  predicate IsKeyNumber(codec: Codec, t: nat) {
    if codec == H264 then t == 5 else 16 <= t <= 23
  }

  predicate Nonempty(nals: seq<Nal>) {
    forall i :: 0 <= i < |nals| ==> nals[i] != []
  }

  lemma KindsByNumber(codec: Codec, nal: Nal)
    requires nal != []
    ensures IsPicture(codec, nal) <==> IsOther(codec, nal)
    ensures IsKey(codec, nal) <==> IsKeyNumber(codec, NumberOf(codec, nal))
    ensures var t, kind := NumberOf(codec, nal), KindOf(codec, nal[0]);
            && (kind == Sps <==> t == SpsNumber(codec)) && (kind == Pps <==> t == PpsNumber(codec))
            && (kind == Vps <==> t == VPS) && (IsSet(codec, nal) <==> kind.Vps? || kind.Sps? || kind.Pps?)
  {
  }

  // ------------------------------------------------------------ pictures

  /** The units that are neither sets nor delimiters, from the front. */
  function Others(codec: Codec, nals: seq<Nal>): (r: seq<Nal>)
    requires Nonempty(nals)
    ensures Nonempty(r)
  {
    if nals == [] then [] else (if IsOther(codec, nals[0]) then [nals[0]] else []) + Others(codec, nals[1..])
  }

  lemma {:induction false} PicturesFromFront(codec: Codec, nals: seq<Nal>)
    requires nals != []
    ensures Pictures(codec, nals) == (if IsPicture(codec, nals[0]) then [nals[0]] else []) + Pictures(codec, nals[1..])
  {
    hide IsPicture;
    var n := |nals| - 1;
    if n > 0 {
      PicturesFromFront(codec, nals[..n]);
      assert nals[..n][1..] == nals[1..][..n - 1];
    } else {
      assert nals[..n] == [] && nals[1..] == [];
    }
  }

  /** The pictures of a packet are exactly its units whose number is none of 7, 8 and
      9 for H.264, and none of 32 to 35 for H.265, in order. */
  lemma {:induction false} PicturesByNumber(codec: Codec, nals: seq<Nal>)
    requires Nonempty(nals)
    ensures Pictures(codec, nals) == Others(codec, nals)
  {
    hide IsPicture, IsOther, Pictures;
    if nals == [] {
      NoPictures(codec);
    } else {
      PicturesFromFront(codec, nals);
      KindsByNumber(codec, nals[0]);
      PicturesByNumber(codec, nals[1..]);
    }
  }

  // ------------------------------------------------------- parameter sets

  /** The last unit of a number, or what there was before. */
  function LastOf(codec: Codec, nals: seq<Nal>, number: nat, before: Nal): Nal
    requires Nonempty(nals)
  {
    if nals == [] then before
    else if NumberOf(codec, nals[|nals| - 1]) == number then nals[|nals| - 1]
    else LastOf(codec, nals[..|nals| - 1], number, before)
  }

  datatype Sets = Sets(vps: Nal, sps: Nal, pps: Nal)

  const NONE := Sets([], [], [])

  /** The last set of each number in some units. */
  function Latest(codec: Codec, nals: seq<Nal>, before: Sets): Sets
    requires Nonempty(nals)
  {
    Sets(LastOf(codec, nals, VPS, before.vps), LastOf(codec, nals, SpsNumber(codec), before.sps),
         LastOf(codec, nals, PpsNumber(codec), before.pps))
  }

  /** The sequence header that a full collection of sets gives, if it can be built. */
  function HeaderOf(b: Builders, codec: Codec, sets: Sets): Option<seq<byte>> {
    if sets.sps == [] || sets.pps == [] then None
    else if codec == H264 then b.avc(sets.sps, sets.pps)
    else if sets.vps == [] then None
    else b.hevc(sets.vps, sets.sps, sets.pps)
  }

  /** The sets behind the last header sent: those of the units since position k,
      and what waited before the packet if none has been sent in it. */
  function Since(codec: Codec, nals: seq<Nal>, k: nat, before: Sets): Sets
    requires Nonempty(nals)
  {
    if 0 < k <= |nals| then Latest(codec, nals[k..], NONE) else Latest(codec, nals, before)
  }

  /** The unit at the end is a set and completes a header with the sets since k. */
  predicate Completes(b: Builders, codec: Codec, nals: seq<Nal>, k: nat, before: Sets)
    requires Nonempty(nals)
  {
    nals != [] && IsSet(codec, nals[|nals| - 1]) && HeaderOf(b, codec, Since(codec, nals, k, before)).Some?
  }

  /** The header that the last unit completes. */
  function CompletedHeader(b: Builders, codec: Codec, nals: seq<Nal>, k: nat, before: Sets): seq<byte>
    requires Nonempty(nals) && Completes(b, codec, nals, k, before)
  {
    HeaderOf(b, codec, Since(codec, nals, k, before)).value
  }

  /** The position behind the last unit that completed a header, 0 without one. */
  function LastHeader(b: Builders, codec: Codec, nals: seq<Nal>, before: Sets): (k: nat)
    requires Nonempty(nals)
    ensures k <= |nals|
  {
    if nals == [] then 0
    else
      var k := LastHeader(b, codec, nals[..|nals| - 1], before);
      if Completes(b, codec, nals, k, before) then |nals| else k
  }

  /** The sequence headers of a packet, in order. */
  function Headers(b: Builders, codec: Codec, nals: seq<Nal>, before: Sets): seq<seq<byte>>
    requires Nonempty(nals)
  {
    if nals == [] then []
    else
      var k := LastHeader(b, codec, nals[..|nals| - 1], before);
      Headers(b, codec, nals[..|nals| - 1], before)
      + if Completes(b, codec, nals, k, before) then [CompletedHeader(b, codec, nals, k, before)] else []
  }

  // ------------------------------------------------------------- sending

  /** Video messages of one time. */
  function Messages(payloads: seq<seq<byte>>, ts: int): (r: seq<Msg>)
    ensures |r| == |payloads|
  {
    seq(|payloads|, i requires 0 <= i < |payloads| => Msg(9, ts % 0x1_0000_0000, payloads[i]))
  }

  /** They go out behind the metadata, once; without it none goes out. */
  function Send(s: State, b: Builders, payloads: seq<seq<byte>>, ts: int): State {
    if payloads == [] || (!s.hasEmittedMetadata && b.metadata == None) then s
    else s.(hasEmittedMetadata := true,
            out := s.out + (if s.hasEmittedMetadata then [] else [Msg(18, 0, b.metadata.value)]) + Messages(payloads, ts))
  }

  lemma SendMore(s: State, b: Builders, payloads: seq<seq<byte>>, payload: seq<byte>, ts: int)
    ensures Send(s, b, payloads + [payload], ts) == Emit(Send(s, b, payloads, ts), b, payload, ts)
  {
    assert Messages(payloads + [payload], ts) == Messages(payloads, ts) + [Msg(VIDEO, Timestamp32(ts), payload)];
    assert payloads == [] ==> Messages(payloads, ts) == [];
  }

  function SetsOf(s: State): Sets {
    Sets(s.vps, s.sps, s.pps)
  }

  function WithSets(s: State, sets: Sets): State {
    s.(vps := sets.vps, sps := sets.sps, pps := sets.pps)
  }

  /** One more unit behind those since k. */
  lemma SincePush(codec: Codec, nals: seq<Nal>, k: nat, before: Sets)
    requires Nonempty(nals) && nals != [] && k < |nals|
    ensures var n, t := |nals| - 1, NumberOf(codec, nals[|nals| - 1]);
            var was, now := Since(codec, nals[..n], k, before), Since(codec, nals, k, before);
            now == was.(vps := if t == VPS then nals[n] else was.vps,
                        sps := if t == SpsNumber(codec) then nals[n] else was.sps,
                        pps := if t == PpsNumber(codec) then nals[n] else was.pps)
  {
    var n := |nals| - 1;
    assert k > 0 ==> nals[k..][..n - k] == nals[..n][k..];
    assert k > 0 ==> nals[k..][n - k] == nals[n];
  }

  /** What a unit makes of a state, by its number. */
  lemma UnitByNumber(s: State, b: Builders, codec: Codec, nal: Nal, ts: int)
    requires nal != []
    ensures var t, was := NumberOf(codec, nal), SetsOf(s);
            var sets := was.(vps := if t == VPS then nal else was.vps,
                             sps := if t == SpsNumber(codec) then nal else was.sps,
                             pps := if t == PpsNumber(codec) then nal else was.pps);
            Feed1(s, b, codec, nal, ts)
            == if !IsSet(codec, nal) then s
               else match HeaderOf(b, codec, sets)
                    case None => WithSets(s, sets)
                    case Some(h) => WithSets(Emit(s, b, h, ts), NONE)
  {
    KindsByNumber(codec, nal);
    hide KindOf, NumberOf;
  }

  /** One more unit, in the headers and their positions. */
  lemma HeadersPush(b: Builders, codec: Codec, nals: seq<Nal>, before: Sets)
    requires Nonempty(nals) && nals != []
    ensures var front := nals[..|nals| - 1];
            var k, h := LastHeader(b, codec, front, before), Headers(b, codec, front, before);
            if Completes(b, codec, nals, k, before) then
              && LastHeader(b, codec, nals, before) == |nals|
              && Headers(b, codec, nals, before) == h + [CompletedHeader(b, codec, nals, k, before)]
            else LastHeader(b, codec, nals, before) == k && Headers(b, codec, nals, before) == h
  {
    hide Since, HeaderOf, IsSet;
    assert Headers(b, codec, nals[..|nals| - 1], before) + [] == Headers(b, codec, nals[..|nals| - 1], before);
  }

  lemma LastFed(s: State, b: Builders, codec: Codec, nals: seq<Nal>, ts: int)
    requires Nonempty(nals) && nals != []
    ensures FeedSets(s, b, codec, nals, ts)
         == Feed1(FeedSets(s, b, codec, nals[..|nals| - 1], ts), b, codec, nals[|nals| - 1], ts)
  {
    hide Feed1;
  }

  /** A unit, on what has been sent and the sets that wait. */
  lemma UnitOnSets(sent: State, b: Builders, codec: Codec, nals: seq<Nal>, k: nat, before: Sets, ts: int)
    requires Nonempty(nals) && nals != [] && k < |nals|
    ensures var n := |nals| - 1;
            var t := WithSets(sent, Since(codec, nals[..n], k, before));
            Feed1(t, b, codec, nals[n], ts)
            == if Completes(b, codec, nals, k, before)
               then WithSets(Emit(sent, b, CompletedHeader(b, codec, nals, k, before), ts), NONE)
               else WithSets(sent, Since(codec, nals, k, before))
  {
    hide Feed1, Since, HeaderOf, IsSet, NumberOf, Emit;
    var n := |nals| - 1;
    var was := Since(codec, nals[..n], k, before);
    SincePush(codec, nals, k, before);
    UnitByNumber(WithSets(sent, was), b, codec, nals[n], ts);
    if Completes(b, codec, nals, k, before) {
      EmitSets(sent, Since(codec, nals, k, before), b, CompletedHeader(b, codec, nals, k, before), ts);
      EmitSets(sent, was, b, CompletedHeader(b, codec, nals, k, before), ts);
    } else if !IsSet(codec, nals[n]) {
      NoSetNumber(codec, nals[n]);
    }
  }

  /** Whatever the units, the sets stored are those since the last header, and the
      headers sent are those completed. */
  lemma {:induction false} SetsByNumber(s: State, b: Builders, codec: Codec, nals: seq<Nal>, ts: int)
    requires Nonempty(nals)
    ensures FeedSets(s, b, codec, nals, ts)
         == WithSets(Send(s, b, Headers(b, codec, nals, SetsOf(s)), ts),
                     Since(codec, nals, LastHeader(b, codec, nals, SetsOf(s)), SetsOf(s)))
  {
    if nals == [] {
    } else {
      hide Feed1, FeedSets, Headers, LastHeader, Since, Completes, HeaderOf, Send, Emit;
      var n, before := |nals| - 1, SetsOf(s);
      var k, headers := LastHeader(b, codec, nals[..n], before), Headers(b, codec, nals[..n], before);
      SetsByNumber(s, b, codec, nals[..n], ts);
      LastFed(s, b, codec, nals, ts);
      HeadersPush(b, codec, nals, before);
      UnitOnSets(Send(s, b, headers, ts), b, codec, nals, k, before, ts);
      if Completes(b, codec, nals, k, before) {
        SendMore(s, b, headers, CompletedHeader(b, codec, nals, k, before), ts);
        SinceAll(codec, nals, before);
      }
    }
  }

  lemma SinceAll(codec: Codec, nals: seq<Nal>, before: Sets)
    requires Nonempty(nals) && nals != []
    ensures Since(codec, nals, |nals|, before) == NONE
  {
    assert nals[|nals|..] == [];
  }

  lemma EmitSets(s: State, sets: Sets, b: Builders, payload: seq<byte>, ts: int)
    ensures Emit(WithSets(s, sets), b, payload, ts) == WithSets(Emit(s, b, payload, ts), sets)
  {
  }

  lemma NoSetNumber(codec: Codec, nal: Nal)
    requires nal != [] && !IsSet(codec, nal)
    ensures var t := NumberOf(codec, nal); t != VPS && t != SpsNumber(codec) && t != PpsNumber(codec)
  {
  }

  // -------------------------------------------------------- whole packets

  /** The body of a packet's pictures in figures: frame type and codec of the last
      one, NALU, no composition time, then each with its length. */
  function BodyOf(codec: Codec, pictures: seq<Nal>): seq<byte>
    requires Nonempty(pictures) && pictures != []
  {
    var key := IsKeyNumber(codec, NumberOf(codec, pictures[|pictures| - 1]));
    [if codec == H264 then (if key then 0x17 else 0x27) else if key then 0x1C else 0x2C, 1, 0, 0, 0] + JoinAvcc(pictures)
  }

  /** What a packet that splits into these units sends. */
  function Payloads(b: Builders, codec: Codec, nals: seq<Nal>, before: Sets): seq<seq<byte>>
    requires Nonempty(nals)
  {
    Headers(b, codec, nals, before) + if Others(codec, nals) == [] then [] else [BodyOf(codec, Others(codec, nals))]
  }

  /** For every packet that splits, each stored set is afterwards the last unit of
      its number, 7 and 8, or 32, 33 and 34 for H.265, since the last header sent;
      what goes out is each header as its sets complete, and then one body of the
      other units, behind the metadata if that has not been sent. A packet that does
      not split changes nothing. */
  lemma PacketByNumbers(s: State, b: Builders, isAvcc: bool, codec: Codec, input: Option<seq<byte>>, ts: int)
    ensures var split := SplitOf(isAvcc, input);
            && (split.error != None ==> FeedPacket(s, b, isAvcc, codec, input, ts) == s)
            && (split.error == None ==>
                  && Nonempty(split.nals)
                  && FeedPacket(s, b, isAvcc, codec, input, ts)
                     == WithSets(Send(s, b, Payloads(b, codec, split.nals, SetsOf(s)), ts),
                                 Since(codec, split.nals, LastHeader(b, codec, split.nals, SetsOf(s)), SetsOf(s))))
  {
    hide SplitOf, FeedSets, Headers, Since, LastHeader, Pictures, Others, JoinAvcc, Send, Emit;
    var split := SplitOf(isAvcc, input);
    if split.error == None {
      SplitFits(isAvcc, input);
      var nals := split.nals;
      SetsByNumber(s, b, codec, nals, ts);
      PicturesByNumber(codec, nals);
      var headers, others := Headers(b, codec, nals, SetsOf(s)), Others(codec, nals);
      if others == [] {
        assert headers + [] == headers;
      } else {
        BodyByNumber(codec, others);
        SendMore(s, b, headers, BodyOf(codec, others), ts);
        EmitSets(Send(s, b, headers, ts), Since(codec, nals, LastHeader(b, codec, nals, SetsOf(s)), SetsOf(s)),
                 b, BodyOf(codec, others), ts);
      }
    }
  }

  lemma BodyByNumber(codec: Codec, pictures: seq<Nal>)
    requires Nonempty(pictures) && pictures != []
    ensures VideoBody(codec, pictures) == BodyOf(codec, pictures)
  {
    hide JoinAvcc, NumberOf;
    KindsByNumber(codec, pictures[|pictures| - 1]);
  }

  // ------------------------------------- sets and a picture in one packet

  lemma {:induction false} UnitsFromFront(s: State, b: Builders, codec: Codec, nals: seq<Nal>, ts: int)
    requires Nonempty(nals) && nals != []
    ensures FeedSets(s, b, codec, nals, ts) == FeedSets(Feed1(s, b, codec, nals[0], ts), b, codec, nals[1..], ts)
  {
    hide Feed1;
    var n := |nals| - 1;
    if n == 0 {
      assert nals[..0] == [] && nals[1..] == [];
    } else {
      UnitsFromFront(s, b, codec, nals[..n], ts);
      assert nals[..n][1..] == nals[1..][..n - 1];
    }
  }

  /** A set that does not complete a header waits. */
  lemma SetWaits(s: State, b: Builders, codec: Codec, nals: seq<Nal>, ts: int, sets: Sets)
    requires Nonempty(nals) && nals != [] && IsSet(codec, nals[0]) && HeaderOf(b, codec, sets) == None
    requires var t, was := NumberOf(codec, nals[0]), SetsOf(s);
             sets == was.(vps := if t == VPS then nals[0] else was.vps,
                          sps := if t == SpsNumber(codec) then nals[0] else was.sps,
                          pps := if t == PpsNumber(codec) then nals[0] else was.pps)
    ensures FeedSets(s, b, codec, nals, ts) == FeedSets(WithSets(s, sets), b, codec, nals[1..], ts)
  {
    hide FeedSets, Feed1, HeaderOf, IsSet, NumberOf;
    UnitsFromFront(s, b, codec, nals, ts);
    UnitByNumber(s, b, codec, nals[0], ts);
  }

  /** A set that completes one sends it, and a picture behind it changes nothing. */
  lemma SetCompletes(s: State, b: Builders, codec: Codec, last: Nal, picture: Nal, ts: int, sets: Sets)
    requires last != [] && picture != [] && IsSet(codec, last) && !IsSet(codec, picture)
    requires HeaderOf(b, codec, sets).Some?
    requires var t, was := NumberOf(codec, last), SetsOf(s);
             sets == was.(vps := if t == VPS then last else was.vps,
                          sps := if t == SpsNumber(codec) then last else was.sps,
                          pps := if t == PpsNumber(codec) then last else was.pps)
    ensures FeedSets(s, b, codec, [last, picture], ts)
         == WithSets(Emit(s, b, HeaderOf(b, codec, sets).value, ts), NONE)
  {
    hide FeedSets, Feed1, HeaderOf, IsSet, NumberOf, Emit;
    UnitsFromFront(s, b, codec, [last, picture], ts);
    UnitByNumber(s, b, codec, last, ts);
    var t := Feed1(s, b, codec, last, ts);
    assert [last, picture][1..] == [picture] && [picture][1..] == [];
    UnitsFromFront(t, b, codec, [picture], ts);
    UnitByNumber(t, b, codec, picture, ts);
    NoSets(t, b, codec, ts);
  }

  lemma OnePicture(codec: Codec, nals: seq<Nal>)
    requires Nonempty(nals) && nals != [] && IsOther(codec, nals[|nals| - 1])
    requires forall i :: 0 <= i < |nals| - 1 ==> IsSet(codec, nals[i])
    ensures Pictures(codec, nals) == [nals[|nals| - 1]]
  {
    hide IsPicture, IsOther, Others;
    PicturesByNumber(codec, nals);
    OtherAtEnd(codec, nals);
  }

  lemma {:induction false} OtherAtEnd(codec: Codec, nals: seq<Nal>)
    requires Nonempty(nals) && nals != [] && IsOther(codec, nals[|nals| - 1])
    requires forall i :: 0 <= i < |nals| - 1 ==> IsSet(codec, nals[i])
    ensures Others(codec, nals) == [nals[|nals| - 1]]
  {
    if |nals| == 1 {
      assert nals[1..] == [] && Others(codec, []) == [];
    } else {
      assert IsSet(codec, nals[0]);
      OtherAtEnd(codec, nals[1..]);
    }
  }

  /** A packet that ends in a picture behind sets that complete one header. */
  lemma HeaderThenPicture(s: State, b: Builders, isAvcc: bool, codec: Codec, input: Option<seq<byte>>, ts: int,
                          nals: seq<Nal>, h: seq<byte>)
    requires Nonempty(nals) && nals != [] && SplitOf(isAvcc, input) == Split(nals, None)
    requires Pictures(codec, nals) == [nals[|nals| - 1]]
    requires FeedSets(s, b, codec, nals, ts) == WithSets(Emit(s, b, h, ts), NONE)
    ensures FeedPacket(s, b, isAvcc, codec, input, ts)
         == WithSets(Send(s, b, [h, BodyOf(codec, [nals[|nals| - 1]])], ts), NONE)
  {
    hide SplitOf, FeedSets, Pictures, Send, Emit, JoinAvcc;
    var picture := nals[|nals| - 1];
    SendNothing(s, b, ts);
    SendMore(s, b, [], h, ts);
    SendMore(s, b, [h], BodyOf(codec, [picture]), ts);
    assert [] + [h] == [h] && [h] + [BodyOf(codec, [picture])] == [h, BodyOf(codec, [picture])];
    BodyByNumber(codec, [picture]);
    EmitSets(Emit(s, b, h, ts), NONE, b, BodyOf(codec, [picture]), ts);
  }

  lemma SendNothing(s: State, b: Builders, ts: int)
    ensures Send(s, b, [], ts) == s
  {
  }

  /** H.264: with neither set waiting, a packet of an SPS, a PPS and a picture sends
      the header built from exactly these, SPS first, and then the picture. */
  lemma SetsThenPicture(s: State, b: Builders, isAvcc: bool, input: Option<seq<byte>>, ts: int,
                        sps: Nal, pps: Nal, picture: Nal)
    requires sps != [] && pps != [] && picture != [] && SplitOf(isAvcc, input) == Split([sps, pps, picture], None)
    requires sps[0] % 32 == 7 && pps[0] % 32 == 8 && picture[0] % 32 !in {7, 8, 9}
    requires s.sps == [] && s.pps == [] && b.avc(sps, pps).Some?
    ensures var frame := if picture[0] % 32 == 5 then 0x17 else 0x27;
            FeedPacket(s, b, isAvcc, H264, input, ts)
            == WithSets(Send(s, b, [b.avc(sps, pps).value, [frame, 1, 0, 0, 0] + JoinAvcc([picture])], ts), NONE)
  {
    hide SplitOf, FeedPacket, FeedSets, JoinAvcc, Pictures, Send, Emit;
    var nals := [sps, pps, picture];
    OnePicture(H264, nals);
    SetWaits(s, b, H264, nals, ts, Sets(s.vps, sps, []));
    assert nals[1..] == [pps, picture];
    var waiting := WithSets(s, Sets(s.vps, sps, []));
    SetCompletes(waiting, b, H264, pps, picture, ts, Sets(s.vps, sps, pps));
    EmitSets(s, Sets(s.vps, sps, []), b, b.avc(sps, pps).value, ts);
    HeaderThenPicture(s, b, isAvcc, H264, input, ts, nals, b.avc(sps, pps).value);
  }

  /** H.265: the same of a VPS, an SPS, a PPS and a picture. */
  lemma HevcSetsThenPicture(s: State, b: Builders, isAvcc: bool, input: Option<seq<byte>>, ts: int,
                            vps: Nal, sps: Nal, pps: Nal, picture: Nal)
    requires vps != [] && sps != [] && pps != [] && picture != []
    requires SplitOf(isAvcc, input) == Split([vps, sps, pps, picture], None)
    requires vps[0] / 2 % 64 == 32 && sps[0] / 2 % 64 == 33 && pps[0] / 2 % 64 == 34 && picture[0] / 2 % 64 !in {32, 33, 34, 35}
    requires s.vps == [] && s.sps == [] && s.pps == [] && b.hevc(vps, sps, pps).Some?
    ensures var frame := if 16 <= picture[0] / 2 % 64 <= 23 then 0x1C else 0x2C;
            FeedPacket(s, b, isAvcc, H265, input, ts)
            == WithSets(Send(s, b, [b.hevc(vps, sps, pps).value, [frame, 1, 0, 0, 0] + JoinAvcc([picture])], ts), NONE)
  {
    hide SplitOf, FeedPacket, FeedSets, JoinAvcc, Pictures, Send, Emit;
    var nals := [vps, sps, pps, picture];
    OnePicture(H265, nals);
    SetWaits(s, b, H265, nals, ts, Sets(vps, [], []));
    assert nals[1..] == [sps, pps, picture];
    var one := WithSets(s, Sets(vps, [], []));
    SetWaits(one, b, H265, nals[1..], ts, Sets(vps, sps, []));
    assert nals[1..][1..] == [pps, picture];
    var two := WithSets(s, Sets(vps, sps, []));
    SetCompletes(two, b, H265, pps, picture, ts, Sets(vps, sps, pps));
    EmitSets(s, Sets(vps, sps, []), b, b.hevc(vps, sps, pps).value, ts);
    HeaderThenPicture(s, b, isAvcc, H265, input, ts, nals, b.hevc(vps, sps, pps).value);
  }
}
