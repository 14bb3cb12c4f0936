/** Every byte of every packet of a frame, in figures, and the length a receiver
    reads in the PES header against the bytes it gets. */
module TsFields {
  import opened Bytes
  import opened TsPacket

  // --------------------------------------------------------- which packet

  /** Room for data in the first packet. */
  function FirstBody(f: Frame): nat {
    if f.key then (if f.dts == f.pts then 162 else 157) else if f.dts == f.pts then 170 else 165
  }

  /** Where the data of packet number i starts in the frame. */
  function Start(f: Frame, i: nat): nat {
    if i == 0 then 0 else FirstBody(f) + 184 * (i - 1)
  }

  lemma RoomInFigures(f: Frame)
    ensures Room(f, true) == FirstBody(f) && Room(f, false) == 184
  {
    hide PesHeader;
  }

  lemma {:induction false} LaterPacketIs(f: Frame, cc: byte, lpos: nat, i: nat)
    requires lpos <= |f.raw| && i < |Packets(f, false, cc, lpos)|
    ensures lpos + 184 * i < |f.raw|
    ensures Packets(f, false, cc, lpos)[i] == Packet(f, false, (cc + 1 + i) % 256, lpos + 184 * i)
    decreases i
  {
    hide Packet;
    FirstAndRest(f, false, cc, lpos);
    if i > 0 {
      var next := if 184 <= |f.raw| - lpos then lpos + 184 else |f.raw|;
      LaterPacketIs(f, Next(cc), next, i - 1);
      ByteStep(cc, i);
    }
  }

  lemma ByteStep(cc: byte, i: nat)
    requires i > 0
    ensures (Next(cc) + i) % 256 == (cc + 1 + i) % 256
  {
    if cc == 255 {
      assert 256 + i == 256 * 1 + i;
    }
  }

  lemma PacketIs(f: Frame, cc: byte, i: nat)
    requires i < |Packets(f, true, cc, 0)|
    ensures Start(f, i) < |f.raw|
    ensures Packets(f, true, cc, 0)[i] == Packet(f, i == 0, (cc + 1 + i) % 256, Start(f, i))
  {
    hide Packet, Room;
    RoomInFigures(f);
    FirstAndRest(f, true, cc, 0);
    if i > 0 {
      var room := FirstBody(f);
      LaterPacketIs(f, Next(cc), if room <= |f.raw| then room else |f.raw|, i - 1);
      ByteStep(cc, i);
    }
  }

  // ------------------------------------------------------------ its bytes

  /** Sync byte, unit-start flag, PID, adaptation control and counter. */
  predicate HeaderBytes(p: seq<byte>, f: Frame, first: bool, cc: byte, adaptation: bool)
    requires |p| == 188
  {
    && p[0] == 0x47
    && p[1] as int == (if first then 0x40 else 0) + f.pid / 256 % 32
    && p[2] as int == f.pid % 256
    && p[3] == cc % 16 + (if adaptation then 0x30 else 0x10)
  }

  /** A field that only fills up: its length, no flag, and 0xFF from there on. */
  predicate FillerBytes(p: seq<byte>, n: nat)
    requires |p| == 188 && 0 < n <= 184
  {
    && p[4] as int == n - 1
    && (n > 1 ==> p[5] == 0)
    && forall k :: 6 <= k < 4 + n ==> p[k] == 0xFF
  }

  /** The field of a key frame: random access and PCR flags, the clock in 33 bits,
      six bits set, the extension, and then n bytes of 0xFF that start on it. */
  predicate KeyBytes(p: seq<byte>, f: Frame, n: nat)
    requires |p| == 188 && n < 170
  {
    var clock := if f.dts > 63000 then f.dts - 63000 else 0;
    && p[4] as int == 7 + n && p[5] == 0x50
    && (((p[6] as int * 256 + p[7]) * 256 + p[8]) * 256 + p[9]) * 2 + p[10] / 128 == clock % 0x2_0000_0000
    && p[10] % 128 == 126
    && (n == 0 ==> p[11] == 0)
    && forall k :: 11 <= k < 11 + n ==> p[k] == 0xFF
  }

  /** The first 12 bytes of a packet with a key frame's field. */
  lemma KeyField(f: Frame, n: nat, p: seq<byte>)
    requires |p| == 188 && n < 170
    requires p[4..11] == Adaptation(f, n)[..7]
    requires if n == 0 then p[11] == Adaptation(f, 0)[7] else p[11..11 + n] == Stuff(n)
    ensures KeyBytes(p, f, n)
  {
    ReadPcrInverts(Pcr(f));
    var pcr := PcrBytes(Pcr(f));
    assert pcr[4] % 128 == 126 && pcr[5] == 0 by {
      hide ReadPcr;
    }
    hide PcrBytes;
    var a := Adaptation(f, n);
    assert forall k :: 4 <= k < 11 ==> p[k] == p[4..11][k - 4] == a[k - 4];
    assert forall k :: 6 <= k < 11 ==> p[k] == pcr[k - 6];
    assert n > 0 ==> forall k :: 11 <= k < 11 + n ==> p[k] == p[11..11 + n][k - 11];
  }

  lemma ByteOfHeader(p: seq<byte>, f: Frame, first: bool, cc: byte, adaptation: bool)
    requires |p| == 188 && p[..4] == TsHeader(f, first, cc, adaptation)
    ensures HeaderBytes(p, f, first, cc, adaptation)
  {
    assert forall k :: 0 <= k < 4 ==> p[k] == p[..4][k];
  }

  /** A first packet of a key frame, full or not. */
  lemma KeyPacketBytes(f: Frame, cc: byte)
    requires f.key && f.raw != []
    ensures var p, n := Packet(f, true, cc, 0), if FirstBody(f) > |f.raw| then FirstBody(f) - |f.raw| else 0;
            && HeaderBytes(p, f, true, cc, true) && KeyBytes(p, f, n)
            && (n == 0 ==> p[188 - FirstBody(f)..] == f.raw[..FirstBody(f)])
            && (n > 0 ==> p[11 + n..11 + n + |f.raw|] == f.raw)
  {
    hide PesHeader, TsHeader, Adaptation, Stuff, HeaderBytes, KeyBytes, Room;
    RoomInFigures(f);
    var p, body := Packet(f, true, cc, 0), FirstBody(f);
    assert f.raw[0..] == f.raw;
    assert p[..4] == TsHeader(f, true, cc, true);
    ByteOfHeader(p, f, true, cc, true);
    if body <= |f.raw| {
      assert p == TsHeader(f, true, cc, true) + Adaptation(f, 0) + PesHeader(f) + f.raw[..body];
      assert p[4..11] == Adaptation(f, 0)[..7];
      KeyField(f, 0, p);
    } else {
      var n := body - |f.raw|;
      var tail := ([0] + PesHeader(f) + Zeros(|f.raw|))[|f.raw|..];
      assert p == TsHeader(f, true, cc, true) + Adaptation(f, n)[..7] + Stuff(n) + f.raw + tail;
      assert p[4..11] == Adaptation(f, n)[..7];
      assert p[11..11 + n] == Stuff(n);
      KeyField(f, n, p);
    }
  }

  /** Any other packet that the data fills. */
  lemma FullPacketBytes(f: Frame, first: bool, cc: byte, lpos: nat)
    requires !(first && f.key) && lpos < |f.raw|
    ensures var body := if first then FirstBody(f) else 184;
            body <= |f.raw| - lpos ==>
              var p := Packet(f, first, cc, lpos);
              HeaderBytes(p, f, first, cc, false) && p[188 - body..] == f.raw[lpos..lpos + body]
  {
    hide PesHeader, TsHeader, HeaderBytes, Room, StuffingField, Adaptation;
    RoomInFigures(f);
    var body := if first then FirstBody(f) else 184;
    if body <= |f.raw| - lpos {
      var p := Packet(f, first, cc, lpos);
      var pes := if first then PesHeader(f) else [];
      assert p == TsHeader(f, first, cc, false) + [] + pes + f.raw[lpos..][..body];
      assert p[..4] == TsHeader(f, first, cc, false);
      ByteOfHeader(p, f, first, cc, false);
      assert f.raw[lpos..][..body] == f.raw[lpos..lpos + body];
    }
  }

  /** And one that it does not fill. */
  lemma LastPacketBytes(f: Frame, first: bool, cc: byte, lpos: nat)
    requires !(first && f.key) && lpos < |f.raw|
    ensures var body, left := if first then FirstBody(f) else 184, |f.raw| - lpos;
            left < body ==>
              var p := Packet(f, first, cc, lpos);
              HeaderBytes(p, f, first, cc, true) && FillerBytes(p, body - left) && p[188 - left..] == f.raw[lpos..]
  {
    hide PesHeader, TsHeader, HeaderBytes, FillerBytes, Room, StuffingField, Adaptation;
    RoomInFigures(f);
    var body, left := if first then FirstBody(f) else 184, |f.raw| - lpos;
    if left < body {
      var p := Packet(f, first, cc, lpos);
      var pes := if first then PesHeader(f) else [];
      assert p == TsHeader(f, first, cc, true) + StuffingField(body - left) + pes + f.raw[lpos..];
      assert p[..4] == TsHeader(f, first, cc, true);
      ByteOfHeader(p, f, first, cc, true);
      assert p[4..4 + (body - left)] == StuffingField(body - left);
      Filler(p, body - left);
    }
  }

  lemma Filler(p: seq<byte>, n: nat)
    requires |p| == 188 && 0 < n <= 184 && p[4..4 + n] == StuffingField(n)
    ensures FillerBytes(p, n)
  {
    var s := StuffingField(n);
    assert forall k :: 4 <= k < 4 + n ==> p[k] == p[4..4 + n][k - 4];
    if n > 1 {
      assert s == [n - 1, 0] + Stuff(n - 2);
    }
  }

  /** Each packet of a frame, byte by byte: header, field, stuffing and data. Only
      a key frame shorter than its first body is put elsewhere than at the end. */
  lemma PacketInFigures(f: Frame, cc: byte, i: nat)
    requires i < |Packets(f, true, cc, 0)|
    ensures Start(f, i) < |f.raw|
    ensures var p := Packets(f, true, cc, 0)[i];
            var body, left := if i == 0 then FirstBody(f) else 184, |f.raw| - Start(f, i);
            var k := if body <= left then body else left;
            var keyed := i == 0 && f.key;
            && HeaderBytes(p, f, i == 0, (cc + 1 + i) % 256, keyed || k < body)
            && (keyed ==> KeyBytes(p, f, body - k))
            && (!keyed && k < body ==> FillerBytes(p, body - k))
            && (!keyed || k == body ==> p[188 - k..] == f.raw[Start(f, i)..Start(f, i) + k])
            && (keyed && k < body ==> p[11 + body - k..11 + body] == f.raw)
  {
    hide Packet, Packets, HeaderBytes, KeyBytes, FillerBytes;
    PacketIs(f, cc, i);
    if i == 0 && f.key {
      KeyPacketBytes(f, (cc + 1) % 256);
    } else {
      FullPacketBytes(f, i == 0, (cc + 1 + i) % 256, Start(f, i));
      LastPacketBytes(f, i == 0, (cc + 1 + i) % 256, Start(f, i));
    }
  }

  /** Their number, in figures. */
  lemma CountInFigures(f: Frame, cc: byte)
    ensures |Packets(f, true, cc, 0)| ==
            if |f.raw| == 0 then 0 else if |f.raw| <= FirstBody(f) then 1 else 1 + (|f.raw| - FirstBody(f) + 183) / 184
  {
    hide Packets, Room;
    PacketsAreCounted(f, cc);
    RoomInFigures(f);
  }

  // ---------------------------------------------------- the PES header

  /** A 33-bit time stamp in five bytes behind a nibble. The top three bits stand
      one place too low and share the first marker bit. */
  predicate StampBytes(s: seq<byte>, nibble: nat, t: Ticks)
    requires |s| == 5 && nibble < 16
  {
    var top := t / 0x4000_0000 % 8;
    && s[0] as int == nibble * 16 + (if top % 2 == 1 then top else top + 1)
    && s[1] as int * 256 + s[2] == t / 0x8000 % 0x8000 * 2 + 1
    && s[3] as int * 256 + s[4] == t % 0x8000 * 2 + 1
  }

  lemma StampOfPts(nibble: byte, t: Ticks)
    requires nibble < 16
    ensures StampBytes(PtsBytes(nibble, t), nibble, t)
  {
  }

  /** The header of a frame: prefix, stream id, fixed bits, flags, header length,
      and the time stamps 0.7 s on. */
  lemma PesInFigures(f: Frame)
    ensures var h := PesHeader(f);
            var two := f.dts != f.pts;
            && |h| == (if two then 19 else 14)
            && h[..4] == [0, 0, 1, f.sid]
            && h[6] == 0x80 && h[7] == (if two then 0xC0 else 0x80) && h[8] == (if two then 10 else 5)
            && StampBytes(h[9..14], if two then 3 else 2, (f.pts + 63000) % 0x1_0000_0000_0000_0000)
            && (two ==> StampBytes(h[14..19], 1, (f.dts + 63000) % 0x1_0000_0000_0000_0000))
  {
    hide PtsBytes, StampBytes, PesPacketLength;
    var pts, dts := (f.pts + DELAY) % TWO64, (f.dts + DELAY) % TWO64;
    StampOfPts(PtsDtsFlags(f), pts);
    StampOfPts(1, dts);
    var h := PesHeader(f);
    assert h[9..14] == PtsBytes(PtsDtsFlags(f), pts);
    if f.dts != f.pts {
      assert h[14..19] == PtsBytes(1, dts);
    }
  }

  // ------------------------------------------------------- its length field

  /** The bytes of all payloads. */
  function PayloadBytes(ps: seq<seq<byte>>): nat
    requires forall i :: 0 <= i < |ps| ==> |ps[i]| == SIZE
  {
    if ps == [] then 0
    else (match Payload(ps[0]) case Some(b) => |b| case None => 0) + PayloadBytes(ps[1..])
  }

  lemma PayloadOfPacket(f: Frame, first: bool, cc: byte, lpos: nat)
    requires lpos < |f.raw| && (first ==> lpos == 0)
    ensures var room, left := Room(f, first), |f.raw| - lpos;
            var p := Payload(Packet(f, first, cc, lpos));
            p.Some? && |p.value| == (if first then |PesHeader(f)| else 0) + if room <= left then room else left
  {
    hide Packet, Payload, PesHeader, PesData, Room, Damaged;
    if first && f.key && |f.raw| < Room(f, true) {
      ShortKeyPayload(f, cc);
      DamagedAt(f, 0);
    } else {
      PacketCarries(f, first, cc, lpos);
      PacketHeader(f, first, cc, lpos);
    }
  }

  lemma {:induction false} LaterPayloads(f: Frame, cc: byte, lpos: nat)
    requires lpos <= |f.raw|
    ensures PayloadBytes(Packets(f, false, cc, lpos)) == |f.raw| - lpos
    decreases |f.raw| - lpos
  {
    hide Packet, Payload;
    if lpos < |f.raw| {
      FirstAndRest(f, false, cc, lpos);
      PayloadOfPacket(f, false, Next(cc), lpos);
      LaterPayloads(f, Next(cc), if 184 <= |f.raw| - lpos then lpos + 184 else |f.raw|);
    }
  }

  /** The payloads of a frame hold its PES header and its data, no byte more, even
      where they come out damaged. */
  lemma PayloadsAddUp(f: Frame, cc: byte)
    requires f.raw != []
    ensures PayloadBytes(Packets(f, true, cc, 0)) == (if f.dts != f.pts then 19 else 14) + |f.raw|
  {
    hide Packet, Packets, Payload, PesHeader, Room;
    FirstAndRest(f, true, cc, 0);
    PayloadOfPacket(f, true, Next(cc), 0);
    var room := Room(f, true);
    LaterPayloads(f, Next(cc), if room <= |f.raw| then room else |f.raw|);
  }

  /** The length a receiver reads is that of all payload bytes behind the field, or
      0 when it does not fit 16 bits; whenever the header is whole. */
  lemma PesLengthIsRight(f: Frame, cc: byte)
    requires f.raw != [] && HeaderIntact(f)
    ensures Payload(Packets(f, true, cc, 0)[0]).Some?
    ensures var b := Payload(Packets(f, true, cc, 0)[0]).value;
            var rest := PayloadBytes(Packets(f, true, cc, 0)) - 6;
            && |b| >= 9
            && rest == 9 + b[8] as int + |f.raw| - 6
            && b[4] as int * 256 + b[5] == if rest <= 0xFFFF then rest else 0
  {
    hide Packet, Packets, Payload, PesHeader, HeaderIntact, PayloadBytes;
    FirstAndRest(f, true, cc, 0);
    HeaderIntactIff(f, cc);
    PayloadsAddUp(f, cc);
    var b := Payload(Packets(f, true, cc, 0)[0]).value;
    LengthField(f);
    assert forall k :: 0 <= k < 9 ==> b[k] == PesHeader(f)[k];
  }

  lemma LengthField(f: Frame)
    ensures var h, n := PesHeader(f), |f.raw| + (if f.dts != f.pts then 13 else 8);
            && h[4] as int * 256 + h[5] == (if n <= 0xFFFF then n else 0)
            && h[8] == (if f.dts != f.pts then 10 else 5)
  {
    hide PtsBytes;
  }
}
