/** RTMP messages and the questions the caches and filters ask of them. */
module RtmpMsg {
  import opened Bytes

  const AUDIO: byte := 8
  const VIDEO: byte := 9
  const METADATA: byte := 18

  const AVC_KEY_FRAME: byte := 0x17
  const AVC_INTER_FRAME: byte := 0x27
  const HEVC_KEY_FRAME: byte := 0x1C
  const HEVC_INTER_FRAME: byte := 0x2C
  const PACKET_SEQ_HEADER: byte := 0
  const PACKET_NALU: byte := 1

  type Timestamp = t: int | 0 <= t < TWO32

  datatype Msg = Msg(typeId: byte, timestamp: Timestamp, payload: seq<byte>)
  {
    /** Long enough for the bytes the questions about audio look at, one after
        the other: the program panics exactly on shorter payloads. */
    predicate AudioReadable() {
      typeId == AUDIO ==> |payload| >= 1 && (payload[0] / 16 == 10 ==> |payload| >= 2)
    }

    /** The same for video; of a fourCC the next byte is only looked at when the
        one before is that of "hvc1". */
    predicate VideoReadable() {
      typeId == VIDEO ==>
        && |payload| >= 1
        && (payload[0] == AVC_KEY_FRAME || payload[0] == HEVC_KEY_FRAME ==> |payload| >= 2)
        && (IsExtended() ==>
              && |payload| >= 2
              && (payload[1] == 104 ==> |payload| >= 3)
              && (payload[1] == 104 && payload[2] == 118 ==> |payload| >= 4)
              && (payload[1] == 104 && payload[2] == 118 && payload[3] == 99 ==> |payload| >= 5))
    }

    predicate Readable() {
      AudioReadable() && VideoReadable()
    }

    /** The enhanced-RTMP header bit. */
    predicate IsExtended()
      requires |payload| > 0
    {
      payload[0] >= 128
    }

    /** The fourCC "hvc1". */
    predicate IsHvc1()
      requires VideoReadable() && typeId == VIDEO && IsExtended()
    {
      payload[1] == 104 && payload[2] == 118 && payload[3] == 99 && payload[4] == 49
    }

    predicate IsAvcKeySeqHeader()
      requires VideoReadable()
    {
      typeId == VIDEO && payload[0] == AVC_KEY_FRAME && payload[1] == PACKET_SEQ_HEADER
    }

    predicate IsHevcKeySeqHeader()
      requires VideoReadable()
    {
      typeId == VIDEO &&
      if IsExtended() then IsHvc1() && payload[0] % 16 == 0
      else payload[0] == HEVC_KEY_FRAME && payload[1] == PACKET_SEQ_HEADER
    }

    predicate IsVideoKeySeqHeader()
      requires VideoReadable()
    {
      IsAvcKeySeqHeader() || IsHevcKeySeqHeader()
    }

    predicate IsAvcKeyNalu()
      requires VideoReadable()
    {
      typeId == VIDEO && payload[0] == AVC_KEY_FRAME && payload[1] == PACKET_NALU
    }

    predicate IsHevcKeyNalu()
      requires VideoReadable()
    {
      typeId == VIDEO &&
      if IsExtended() then payload[0] / 16 % 8 == 1 && payload[0] % 16 != 0
      else payload[0] == HEVC_KEY_FRAME && payload[1] == PACKET_NALU
    }

    predicate IsVideoKeyNalu()
      requires VideoReadable()
    {
      IsAvcKeyNalu() || IsHevcKeyNalu()
    }

    predicate IsAacSeqHeader()
      requires AudioReadable()
    {
      typeId == AUDIO && payload[0] / 16 == 10 && payload[1] == PACKET_SEQ_HEADER
    }
  }

  /** The questions answered from the first bytes. A video message is a key
      sequence header if it starts with 17 00 or 1C 00, or with 80, 90 up to F0 and
      "hvc1"; it is a key frame if it starts with 17 01 or 1C 01, or with 91 up to
      9F; so never both. An audio message is an AAC sequence header if it starts with
      A0 up to AF and 00. */
  lemma AnswersInBytes(m: Msg)
    requires m.Readable()
    ensures m.IsAacSeqHeader() <==> m.typeId == 8 && 0xA0 <= m.payload[0] <= 0xAF && m.payload[1] == 0
    ensures m.IsVideoKeySeqHeader()
       <==> m.typeId == 9
            && if m.payload[0] < 0x80 then m.payload[0] in {0x17, 0x1C} && m.payload[1] == 0
               else m.payload[0] % 0x10 == 0 && |m.payload| >= 5 && m.payload[1..5] == [0x68, 0x76, 0x63, 0x31]
    ensures m.IsVideoKeyNalu()
       <==> m.typeId == 9
            && if m.payload[0] < 0x80 then m.payload[0] in {0x17, 0x1C} && m.payload[1] == 1
               else 0x91 <= m.payload[0] <= 0x9F
    ensures !(m.IsVideoKeySeqHeader() && m.IsVideoKeyNalu())
  {
    if m.typeId == 9 && |m.payload| >= 5 {
      var four := m.payload[1..5];
      assert four == [m.payload[1], m.payload[2], m.payload[3], m.payload[4]];
    }
  }

  /** How many bytes of two sequences agree from the front on. */
  function Agreeing(a: seq<byte>, b: seq<byte>): (n: nat)
    ensures n <= |a| && n <= |b|
  {
    if a == [] || b == [] || a[0] != b[0] then 0 else 1 + Agreeing(a[1..], b[1..])
  }

  /** How long a payload must be: for audio one byte, and a second one for AAC; for
      video one byte, a second one for 17 and 1C, and of the fourCC behind an extended
      header one byte more than agree with "hvc". */
  lemma ReadableLength(m: Msg)
    ensures m.AudioReadable() <==> m.typeId != 8 || |m.payload| >= (if m.payload != [] && m.payload[0] / 16 == 10 then 2 else 1)
    ensures m.VideoReadable()
       <==> m.typeId != 9
            || |m.payload| >= if m.payload == [] then 1
                              else if m.payload[0] >= 0x80 then 2 + Agreeing(m.payload[1..], [0x68, 0x76, 0x63])
                              else if m.payload[0] == 0x17 || m.payload[0] == 0x1C then 2 else 1
  {
    if m.typeId == 9 && m.payload != [] && m.payload[0] >= 0x80 {
      var rest := m.payload[1..];
      var hvc: seq<byte> := [0x68, 0x76, 0x63];
      assert hvc[1..] == [0x76, 0x63] && hvc[1..][1..] == [0x63] && hvc[1..][1..][1..] == [];
      assert |rest| >= 1 ==> Agreeing(rest, hvc) == if rest[0] == 0x68 then 1 + Agreeing(rest[1..], hvc[1..]) else 0;
      assert |rest| >= 2 ==> Agreeing(rest[1..], hvc[1..]) == if rest[1] == 0x76 then 1 + Agreeing(rest[2..], hvc[2..]) else 0;
      assert |rest| >= 3 ==> Agreeing(rest[2..], hvc[2..]) == if rest[2] == 0x63 then 1 + Agreeing(rest[3..], []) else 0;
    }
  }
}
