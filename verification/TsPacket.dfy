/** Transport stream packets of one frame, byte by byte, and how a receiver
    takes them apart (sections 2.4.3.2 to 2.4.3.7 of ISO/IEC 13818-1). */
module TsPacket {
  import opened Bytes

  type Ticks = t: int | 0 <= t < TWO64
  type Pid = p: int | 0 <= p < 0x1_0000

  const SIZE := 188
  const DELAY := 63000
  const TWO33 := 0x2_0000_0000
  const TWO30 := 0x4000_0000
  const TWO15 := 0x8000

  datatype Frame = Frame(pts: Ticks, dts: Ticks, pid: Pid, sid: byte, key: bool, raw: seq<byte>)

  // ---------------------------------------------------------- time stamps

  /** packPcr: 33 bits of base, six reserved bits, no extension. */
  function PcrBytes(pcr: Ticks): (s: seq<byte>)
    ensures |s| == 6
  {
    [pcr / 0x200_0000 % 256, pcr / 0x2_0000 % 256, pcr / 0x200 % 256, pcr / 2 % 256, pcr % 2 * 128 + 126, 0]
  }

  /** A receiver's reading of a PCR field: base and extension. */
  function ReadPcr(b: seq<byte>): (nat, nat)
    requires |b| == 6
  {
    ((((b[0] as int * 256 + b[1]) * 256 + b[2]) * 256 + b[3]) * 2 + b[4] / 128, b[4] as int % 2 * 256 + b[5])
  }

  /** It gives the clock modulo 2^33 back, and no extension. */
  lemma ReadPcrInverts(pcr: Ticks)
    ensures ReadPcr(PcrBytes(pcr)) == (pcr % TWO33, 0)
  {
    var a := pcr / 2;
    var b := a / 256;
    var c := b / 256;
    var d := c / 256;
    PcrQuotients(pcr, a, b, c, d);
    assert PcrBytes(pcr) == [d % 256, c % 256, b % 256, a % 256, pcr % 2 * 128 + 126, 0];
    hide ReadPcr, PcrBytes;
    PcrDigits(PcrBytes(pcr), d % 256, c % 256, b % 256, a % 256, pcr % 2);
    PcrParts(pcr, a, b, c, d);
    ModOf(d / 256, ReadPcr(PcrBytes(pcr)).0);
  }

  lemma ModOf(q: nat, r: nat)
    requires r < TWO33
    ensures (q * TWO33 + r) % TWO33 == r
  {
  }

  lemma PcrQuotients(pcr: nat, a: nat, b: nat, c: nat, d: nat)
    requires a == pcr / 2 && b == a / 256 && c == b / 256 && d == c / 256
    ensures pcr / 0x200 == b && pcr / 0x2_0000 == c && pcr / 0x200_0000 == d
  {
  }

  lemma PcrParts(pcr: nat, a: nat, b: nat, c: nat, d: nat)
    requires a == pcr / 2 && b == a / 256 && c == b / 256 && d == c / 256
    ensures var r := (((d % 256 * 256 + c % 256) * 256 + b % 256) * 256 + a % 256) * 2 + pcr % 2;
            r < TWO33 && pcr == d / 256 * TWO33 + r
  {
  }

  lemma PcrDigits(s: seq<byte>, d: byte, c: byte, b: byte, a: byte, low: nat)
    requires low < 2 && s == [d, c, b, a, low * 128 + 126, 0]
    ensures ReadPcr(s) == ((((d as int * 256 + c) * 256 + b) * 256 + a) * 2 + low, 0)
  {
  }

  /** Or-ing with one. */
  function WithMarker(x: nat): nat {
    x + (1 - x % 2)
  }

  /** packPts: the top three bits are put where the marker bit belongs too. */
  function PtsBytes(fb: byte, pts: Ticks): (s: seq<byte>)
    requires fb < 16
    ensures |s| == 5
  {
    var mid := pts / TWO15 % TWO15 * 2 + 1;
    var low := pts % TWO15 * 2 + 1;
    [fb * 16 + WithMarker(pts / TWO30 % 8), mid / 256, mid % 256, low / 256, low % 256]
  }

  /** readPts. */
  function ReadPts(b: seq<byte>): nat
    requires |b| >= 5
  {
    b[0] / 2 % 8 * TWO30 + (b[1] as int * 256 + b[2]) / 2 * TWO15 + (b[3] as int * 256 + b[4]) / 2
  }

  /** Reading inverts packing exactly for time stamps below 2^30; the flag
      nibble always comes back. */
  lemma ReadPtsInvertsIff(fb: byte, pts: Ticks)
    requires fb < 16
    ensures ReadPts(PtsBytes(fb, pts)) == pts <==> pts < TWO30
    ensures PtsBytes(fb, pts)[0] / 16 == fb
  {
    var rest := pts % TWO30;
    SplitTicks(pts);
    PtsDigits(PtsBytes(fb, pts), fb, pts / TWO30 % 8, rest / TWO15, rest % TWO15);
    hide PtsBytes, ReadPts;
    TopBits(pts);
  }

  /** The three parts of a time stamp as they are read back. */
  lemma PtsDigits(s: seq<byte>, fb: byte, top: nat, mid: nat, low: nat)
    requires fb < 16 && top < 8 && mid < TWO15 && low < TWO15
    requires s == [fb * 16 + WithMarker(top), (mid * 2 + 1) / 256, (mid * 2 + 1) % 256, (low * 2 + 1) / 256, (low * 2 + 1) % 256]
    ensures ReadPts(s) == top / 2 * TWO30 + mid * TWO15 + low && s[0] / 16 == fb
  {
    Fifteen(mid);
    Fifteen(low);
  }

  /** A number whose top bits lose their last bit is less than 2^30 or changed. */
  lemma TopBits(pts: Ticks)
    ensures pts / TWO30 % 8 / 2 * TWO30 + pts % TWO30 == pts <==> pts < TWO30
  {
    var top := pts / TWO30;
    assert pts == top * TWO30 + pts % TWO30;
  }

  lemma SplitTicks(pts: Ticks)
    ensures var rest := pts % TWO30;
            && pts / TWO15 % TWO15 == rest / TWO15 && pts % TWO15 == rest % TWO15
            && rest == rest / TWO15 * TWO15 + rest % TWO15
  {
    var top, rest := pts / TWO30, pts % TWO30;
    assert pts == top * TWO15 * TWO15 + rest;
    assert pts / TWO15 == top * TWO15 + rest / TWO15;
  }

  lemma Fifteen(x: nat)
    requires x < TWO15
    ensures var v := x * 2 + 1;
            v / 256 < 256 && (v / 256 * 256 + v % 256) / 2 == x
  {
  }

  // ------------------------------------------------------------- one packet

  /** Header of a packet; adaptation says whether an adaptation field follows. */
  function TsHeader(f: Frame, first: bool, cc: byte, adaptation: bool): (s: seq<byte>)
    ensures |s| == 4
  {
    [0x47, (if first then 0x40 else 0) + f.pid / 256 % 32, f.pid % 256,
     0x10 + cc % 16 + (if adaptation then 0x20 else 0)]
  }

  /** The clock reference that a key frame announces. */
  function Pcr(f: Frame): Ticks {
    if f.dts > DELAY then f.dts - DELAY else 0
  }

  /** The adaptation field of a key frame: random access and PCR. */
  function Adaptation(f: Frame, stuffing: nat): (s: seq<byte>)
    requires stuffing < 200
    ensures |s| == 8
  {
    [7 + stuffing, 0x50] + PcrBytes(Pcr(f))
  }

  function PtsDtsFlags(f: Frame): byte {
    if f.dts != f.pts then 3 else 2
  }

  function PesHeaderSize(f: Frame): byte {
    if f.dts != f.pts then 10 else 5
  }

  function PesPacketLength(f: Frame): nat {
    var n := |f.raw| + PesHeaderSize(f) + 3;
    if n > 0xFFFF then 0 else n
  }

  /** The PES header up to its time stamps. */
  function PesFixed(f: Frame): (s: seq<byte>)
    ensures |s| == 9
  {
    [0, 0, 1, f.sid, PesPacketLength(f) / 256, PesPacketLength(f) % 256,
     0x80, PtsDtsFlags(f) * 64, PesHeaderSize(f)]
  }

  /** Its time stamps: the decoding time only when it is not the other. */
  function PesTimes(f: Frame): (s: seq<byte>)
    ensures |s| == PesHeaderSize(f)
  {
    PtsBytes(PtsDtsFlags(f), (f.pts + DELAY) % TWO64)
    + if f.dts != f.pts then PtsBytes(1, (f.dts + DELAY) % TWO64) else []
  }

  function PesHeader(f: Frame): (s: seq<byte>)
    ensures |s| == 9 + PesHeaderSize(f) as int
  {
    PesFixed(f) + PesTimes(f)
  }

  /** Room for data in a packet. */
  function Room(f: Frame, first: bool): (n: nat)
    ensures n == if !first then 184 else if f.key then 176 - |PesHeader(f)| else 184 - |PesHeader(f)|
    ensures 157 <= n <= 184
  {
    184 - (if first then |PesHeader(f)| + (if f.key then 8 else 0) else 0)
  }

  function Stuff(n: nat): (s: seq<byte>)
    ensures |s| == n
  {
    seq(n, _ => 0xFF)
  }

  /** A fresh adaptation field of n bytes, all stuffing. */
  function StuffingField(n: nat): (s: seq<byte>)
    requires 0 < n < 200
    ensures |s| == n
  {
    if n == 1 then [0] else [n - 1, 0] + Stuff(n - 2)
  }

  /** The packet that carries the data from lpos on. */
  function Packet(f: Frame, first: bool, cc: byte, lpos: nat): (p: seq<byte>)
    requires lpos < |f.raw|
    ensures |p| == SIZE
  {
    var left := f.raw[lpos..];
    var room := Room(f, first);
    var pes := if first then PesHeader(f) else [];
    if room <= |left| then
      TsHeader(f, first, cc, first && f.key) + (if first && f.key then Adaptation(f, 0) else []) + pes + left[..room]
    else
      var n := room - |left|;
      if first && f.key then
        // the stuffing starts on the last byte of the PCR, and the data is
        // written over the PES header that has just been moved
        TsHeader(f, first, cc, true) + Adaptation(f, n)[..7] + Stuff(n) + left + ([0] + pes + Zeros(|left|))[|left|..]
      else
        TsHeader(f, first, cc, true) + StuffingField(n) + pes + left
  }

  function Next(cc: byte): byte {
    (cc + 1) % 256
  }

  /** The packets of a frame from lpos on; cc is the counter before the first. */
  function Packets(f: Frame, first: bool, cc: byte, lpos: nat): (ps: seq<seq<byte>>)
    requires lpos <= |f.raw|
    ensures forall i :: 0 <= i < |ps| ==> |ps[i]| == SIZE
    decreases |f.raw| - lpos
  {
    if lpos == |f.raw| then []
    else
      var room := Room(f, first);
      var next := if room <= |f.raw| - lpos then lpos + room else |f.raw|;
      [Packet(f, first, Next(cc), lpos)] + Packets(f, false, Next(cc), next)
  }

  // ------------------------------------------------------------ the receiver

  /** The payload of a packet: what follows the header and, if there is one,
      the adaptation field. */
  function Payload(p: seq<byte>): Option<seq<byte>>
    requires |p| == SIZE
  {
    var control := p[3] / 16 % 4;
    if p[0] != 0x47 then None
    else if control == 1 then Some(p[4..])
    else if control == 3 && 5 + p[4] as int <= SIZE then Some(p[5 + p[4] as int..])
    else None
  }

  /** The PCR of a packet, if its adaptation field says that it has one. */
  function PcrOf(p: seq<byte>): Option<(nat, nat)>
    requires |p| == SIZE
  {
    if p[3] / 16 % 4 >= 2 && p[4] >= 7 && p[5] / 16 % 2 == 1 then Some(ReadPcr(p[6..12])) else None
  }

  predicate StartsUnit(p: seq<byte>)
    requires |p| == SIZE
  {
    p[1] / 64 % 2 == 1
  }

  /** The data behind a PES header. */
  function PesData(b: seq<byte>): Option<seq<byte>> {
    if |b| >= 9 && b[..3] == [0, 0, 1] && 9 + b[8] as int <= |b| then Some(b[9 + b[8] as int..]) else None
  }

  function PacketData(p: seq<byte>): Option<seq<byte>>
    requires |p| == SIZE
  {
    match Payload(p)
    case None => None
    case Some(b) => if StartsUnit(p) then PesData(b) else Some(b)
  }

  /** The data of all packets, in order. */
  function Depacketise(ps: seq<seq<byte>>): Option<seq<byte>>
    requires forall i :: 0 <= i < |ps| ==> |ps[i]| == SIZE
  {
    if ps == [] then Some([])
    else match PacketData(ps[0])
         case None => None
         case Some(b) =>
           match Depacketise(ps[1..])
           case None => None
           case Some(rest) => Some(b + rest)
  }

  // --------------------------------------------------- fields of a packet

  lemma HeaderFields(f: Frame, first: bool, cc: byte, adaptation: bool, rest: seq<byte>)
    requires |rest| == 184
    ensures var p := TsHeader(f, first, cc, adaptation) + rest;
            && p[0] == 0x47 && p[3] % 16 == cc % 16
            && p[3] / 16 % 4 == (if adaptation then 3 else 1)
            && (StartsUnit(p) <==> first)
            && (p[1] % 32) as int * 256 + p[2] == f.pid % 0x2000
            && p[4] == rest[0]
            && p[4..] == rest
  {
    var h := TsHeader(f, first, cc, adaptation);
    Cut(h, rest);
    assert h[1] / 64 % 2 == (if first then 1 else 0);
    assert f.pid % 0x2000 == f.pid / 256 % 32 * 256 + f.pid % 256;
  }

  /** Every packet starts with the sync byte and carries the counter's low nibble. */
  lemma PacketHeader(f: Frame, first: bool, cc: byte, lpos: nat)
    requires lpos < |f.raw|
    ensures var p := Packet(f, first, cc, lpos);
            p[0] == 0x47 && p[3] % 16 == cc % 16 && (StartsUnit(p) <==> first)
  {
    var p := Packet(f, first, cc, lpos);
    var h := TsHeader(f, first, cc, (first && f.key) || Room(f, first) > |f.raw| - lpos);
    assert p[..4] == h;
    assert p == h + p[4..];
    HeaderFields(f, first, cc, (first && f.key) || Room(f, first) > |f.raw| - lpos, p[4..]);
  }

  // -------------------------------------------------------- one data block

  lemma PesDataOf(f: Frame, data: seq<byte>)
    ensures PesData(PesHeader(f) + data) == Some(data)
  {
    hide PtsBytes;
    var pes := PesHeader(f);
    Cut(pes, data);
    assert (pes + data)[..3] == [0, 0, 1];
    assert (pes + data)[8] == pes[8] == PesHeaderSize(f);
  }

  /** What a receiver gets from a packet, given by its parts. */
  lemma DataOf(f: Frame, first: bool, cc: byte, field: seq<byte>, body: seq<byte>)
    requires |field| + |body| == 184
    requires field != [] ==> field[0] as int == |field| - 1
    ensures var p := TsHeader(f, first, cc, field != []) + (field + body);
            Payload(p) == Some(body) && (StartsUnit(p) <==> first)
  {
    hide TsHeader;
    var p := TsHeader(f, first, cc, field != []) + (field + body);
    HeaderFields(f, first, cc, field != [], field + body);
    Cut(field, body);
    DropTwice(p, 4, |field|);
    assert field == [] ==> field + body == body;
  }

  lemma FieldLengths(f: Frame, n: int)
    ensures Adaptation(f, 0)[0] == 7
    ensures 0 < n < 200 ==> StuffingField(n)[0] == n - 1
  {
    hide PcrBytes;
  }

  /** A packet that is not a short key frame carries the next bytes of the frame. */
  lemma PacketCarries(f: Frame, first: bool, cc: byte, lpos: nat)
    requires lpos < |f.raw| && (first ==> lpos == 0)
    requires !(first && f.key) || Room(f, first) <= |f.raw| - lpos
    ensures var room, left := Room(f, first), f.raw[lpos..];
            var data := if room <= |left| then left[..room] else left;
            && PacketData(Packet(f, first, cc, lpos)) == Some(data)
            && (first ==> Payload(Packet(f, first, cc, lpos)) == Some(PesHeader(f) + data))
  {
    hide TsHeader, PesHeader, Payload, StartsUnit, PesData, Adaptation, StuffingField;
    var room, left := Room(f, first), f.raw[lpos..];
    var data := if room <= |left| then left[..room] else left;
    var pes := if first then PesHeader(f) else [];
    var field := if room <= |left| then (if first && f.key then Adaptation(f, 0) else [])
                 else StuffingField(room - |left|);
    FieldLengths(f, room - |left|);
    Regroup4(TsHeader(f, first, cc, field != []), field, pes, data);
    DataOf(f, first, cc, field, pes + data);
    PesDataOf(f, data);
    assert pes == [] ==> pes + data == data;
    assert Packet(f, first, cc, lpos) == TsHeader(f, first, cc, field != []) + (field + (pes + data));
  }

  // --------------------------------------------------- short key frames

  /** What a receiver finds behind the adaptation field of a short key frame:
      the frame without its first byte, then what that left of the PES header,
      then zeros. */
  function Damaged(f: Frame): seq<byte>
    requires f.raw != []
  {
    f.raw[1..] + (PesHeader(f) + Zeros(|f.raw|))[|f.raw| - 1..]
  }

  lemma ShortKeyPayload(f: Frame, cc: byte)
    requires f.key && 0 < |f.raw| < Room(f, true)
    ensures var p := Packet(f, true, cc, 0); StartsUnit(p) && Payload(p) == Some(Damaged(f))
  {
    hide TsHeader, PesHeader, Payload, StartsUnit, PesData, PcrBytes;
    var n := Room(f, true) - |f.raw|;
    var field := Adaptation(f, n)[..7] + Stuff(n) + f.raw[..1];
    assert f.raw[0..] == f.raw == f.raw[..1] + f.raw[1..];
    assert ([0] + PesHeader(f) + Zeros(|f.raw|))[|f.raw|..] == (PesHeader(f) + Zeros(|f.raw|))[|f.raw| - 1..];
    DataOf(f, true, cc, field, Damaged(f));
    assert Packet(f, true, cc, 0) == TsHeader(f, true, cc, field != []) + (field + Damaged(f));
  }

  lemma ShortKeyPacket(f: Frame, cc: byte)
    requires f.key && 0 < |f.raw| < Room(f, true)
    ensures PacketData(Packet(f, true, cc, 0)) == PesData(Damaged(f))
  {
    hide Packet, Payload, StartsUnit, PesData, Damaged;
    ShortKeyPayload(f, cc);
  }

  /** The bytes in which a PCR can be, of a packet given by its parts. */
  lemma PcrAt(h: seq<byte>, field: seq<byte>, rest: seq<byte>)
    requires |h| == 4 && |h| + |field| + |rest| == SIZE && |field| >= 8
    ensures var p := h + (field + rest);
            p[3] == h[3] && p[4] == field[0] && p[5] == field[1] && p[6..12] == field[2..8]
  {
  }

  lemma LongKeyPcr(f: Frame, cc: byte)
    requires f.key && Room(f, true) <= |f.raw|
    ensures PcrOf(Packet(f, true, cc, 0)) == Some((Pcr(f) % TWO33, 0))
  {
    hide PesHeader, PcrBytes, ReadPcr;
    var rest := PesHeader(f) + f.raw[0..][..Room(f, true)];
    ReadPcrInverts(Pcr(f));
    PcrAt(TsHeader(f, true, cc, true), Adaptation(f, 0), rest);
    assert Adaptation(f, 0)[2..8] == PcrBytes(Pcr(f));
    assert Packet(f, true, cc, 0) == TsHeader(f, true, cc, true) + (Adaptation(f, 0) + rest);
  }

  lemma ShortKeyPcr(f: Frame, cc: byte)
    requires IsShortKey(f)
    ensures PcrOf(Packet(f, true, cc, 0)) == Some((Pcr(f) % TWO33, 255))
  {
    hide PesHeader, ReadPcr, Zeros;
    var n := Room(f, true) - |f.raw|;
    var pcr := PcrBytes(Pcr(f));
    assert pcr[5] == 0;
    hide PcrBytes;
    var field := Adaptation(f, n)[..7] + Stuff(n);
    var rest := f.raw[0..] + ([0] + PesHeader(f) + Zeros(|f.raw|))[|f.raw|..];
    ReadPcrInverts(Pcr(f));
    assert field[..7] == [7 + n, 0x50] + pcr[..5] && field[7] == 0xFF;
    assert field[2..8] == pcr[..5] + [0xFF];
    PcrAt(TsHeader(f, true, cc, true), field, rest);
    assert Packet(f, true, cc, 0) == TsHeader(f, true, cc, true) + (field + rest);
    SameButLast(pcr, field[2..8]);
  }

  lemma NoPcr(f: Frame, first: bool, cc: byte, lpos: nat)
    requires lpos < |f.raw| && !(first && f.key)
    ensures PcrOf(Packet(f, first, cc, lpos)) == None
  {
    hide PesHeader;
    var p := Packet(f, first, cc, lpos);
    var n := Room(f, first) - (|f.raw| - lpos);
    if n <= 0 {
      hide PcrOf;
      assert p[..4] == TsHeader(f, first, cc, false);
      NoField(p, f, first, cc);
    } else {
      var rest := (if first then PesHeader(f) else []) + f.raw[lpos..];
      hide PcrOf, ReadPcr, TsHeader;
      assert p == TsHeader(f, first, cc, true) + (StuffingField(n) + rest);
      StuffingHasNoPcr(TsHeader(f, first, cc, true), n, rest);
    }
  }

  lemma NoField(p: seq<byte>, f: Frame, first: bool, cc: byte)
    requires |p| == SIZE && p[..4] == TsHeader(f, first, cc, false)
    ensures PcrOf(p) == None
  {
    hide ReadPcr;
    assert p[3] == p[..4][3];
  }

  lemma StuffingHasNoPcr(h: seq<byte>, n: nat, rest: seq<byte>)
    requires |h| == 4 && 0 < n < 200 && 4 + n + |rest| == SIZE
    ensures PcrOf(h + (StuffingField(n) + rest)) == None
  {
    hide ReadPcr, Stuff;
    var p := h + (StuffingField(n) + rest);
    assert p[4] == StuffingField(n)[0] == n - 1;
    assert n > 1 ==> p[5] == StuffingField(n)[1] == 0;
  }

  /** The first packet of a key frame, and no other, has a PCR: the decoding time
      less the delay, but not below 0, modulo 2^33. The stuffing of a short key
      frame runs over its last byte and makes the extension 255 instead of 0. */
  lemma PacketPcr(f: Frame, first: bool, cc: byte, lpos: nat)
    requires lpos < |f.raw| && (first ==> lpos == 0)
    ensures var clock := if f.dts > 63000 then f.dts - 63000 else 0;
            PcrOf(Packet(f, first, cc, lpos))
            == if first && f.key then Some((clock % 0x2_0000_0000, if IsShortKey(f) then 255 else 0)) else None
  {
    hide Packet, PcrOf;
    if !(first && f.key) {
      NoPcr(f, first, cc, lpos);
    } else if IsShortKey(f) {
      ShortKeyPcr(f, cc);
    } else {
      LongKeyPcr(f, cc);
    }
  }

  lemma SameButLast(s: seq<byte>, t: seq<byte>)
    requires |s| == |t| == 6 && t[..5] == s[..5]
    ensures ReadPcr(t) == (ReadPcr(s).0, ReadPcr(s).1 - s[5] + t[5])
  {
    assert forall i :: 0 <= i < 5 ==> t[i] == t[..5][i] == s[..5][i];
  }

  lemma DamagedAt(f: Frame, i: nat)
    requires f.raw != [] && i < |PesHeader(f)| + |f.raw|
    ensures |Damaged(f)| == |PesHeader(f)| + |f.raw|
    ensures Damaged(f)[i]
         == if i + 1 < |f.raw| then f.raw[i + 1] else if i < |PesHeader(f)| then PesHeader(f)[i] else 0
  {
    hide PesHeader;
  }

  lemma PesHeaderAt(f: Frame)
    ensures PesHeader(f)[0] == 0 && PesHeader(f)[1] == 0 && PesHeader(f)[2] == 1
    ensures PesHeader(f)[8] == PesHeaderSize(f)
  {
    hide PtsBytes;
  }

  /** One, two or three zero bytes. */
  predicate FewZeros(raw: seq<byte>) {
    raw == [0] || raw == [0, 0] || raw == [0, 0, 0]
  }

  /** The only short key frames a receiver still reads are a few zeros. */
  lemma DamagedReadsIff(f: Frame)
    requires f.raw != []
    ensures PesData(Damaged(f)) == Some(f.raw) <==> FewZeros(f.raw)
  {
    hide PesHeader, Damaged;
    var d, k, n := Damaged(f), |f.raw|, |PesHeader(f)|;
    PesHeaderAt(f);
    forall i: nat | i < n + k
      ensures |d| == n + k
      ensures d[i] == if i + 1 < k then f.raw[i + 1] else if i < n then PesHeader(f)[i] else 0
    {
      DamagedAt(f, i);
    }
    if PesData(d) == Some(f.raw) {
      assert d[n..] == f.raw;
      RepeatsAreZero(f.raw, d, n, 0);
      assert d[..3][2] == 1;
      assert k <= 3;
    }
    if FewZeros(f.raw) {
      assert d[..3] == [0, 0, 1];
      assert d[n..] == f.raw;
    }
  }

  /** Data that repeats one place on and ends in zeros is all zeros. */
  lemma {:induction false} RepeatsAreZero(raw: seq<byte>, d: seq<byte>, period: nat, i: nat)
    requires period > 0 && |d| == period + |raw| && d[period..] == raw
    requires forall j :: 0 <= j < |raw| - 1 ==> d[j] == raw[j + 1]
    requires forall j :: |raw| - 1 <= j < |d| && period <= j ==> d[j] == 0
    requires i <= |raw|
    ensures forall j :: i <= j < |raw| ==> raw[j] == 0
    decreases |raw| - i
  {
    if i < |raw| {
      RepeatsAreZero(raw, d, period, i + 1);
      assert raw[i] == d[period..][i] == d[period + i];
    }
  }

  // -------------------------------------------------------- all packets

  lemma {:induction false} LaterPacketsCarry(f: Frame, cc: byte, lpos: nat)
    requires lpos <= |f.raw|
    ensures Depacketise(Packets(f, false, cc, lpos)) == Some(f.raw[lpos..])
    decreases |f.raw| - lpos
  {
    hide Packet, PacketData;
    if lpos < |f.raw| {
      PacketCarries(f, false, Next(cc), lpos);
      FirstAndRest(f, false, cc, lpos);
      var next := if 184 <= |f.raw| - lpos then lpos + 184 else |f.raw|;
      LaterPacketsCarry(f, Next(cc), next);
      assert f.raw[lpos..] == f.raw[lpos..next] + f.raw[next..];
      DropTwice(f.raw, lpos, next - lpos);
      assert next == |f.raw| ==> f.raw[lpos..next] == f.raw[lpos..];
      assert PacketData(Packet(f, false, Next(cc), lpos)) == Some(f.raw[lpos..next]);
    } else {
      assert f.raw[lpos..] == [];
    }
  }

  lemma FirstAndRest(f: Frame, first: bool, cc: byte, lpos: nat)
    requires lpos < |f.raw|
    ensures var room := Room(f, first);
            var next := if room <= |f.raw| - lpos then lpos + room else |f.raw|;
            var ps := Packets(f, first, cc, lpos);
            ps != [] && ps[0] == Packet(f, first, Next(cc), lpos) && ps[1..] == Packets(f, false, Next(cc), next)
  {
    hide Packet;
  }

  /** The key frame does not fill its first packet. */
  predicate IsShortKey(f: Frame) {
    f.key && 0 < |f.raw| < Room(f, true)
  }

  /** The first packet and the rest, taken apart. */
  function Then(data: Option<seq<byte>>, rest: Option<seq<byte>>): Option<seq<byte>> {
    if data.Some? && rest.Some? then Some(data.value + rest.value) else None
  }

  lemma DepacketiseFirst(ps: seq<seq<byte>>)
    requires ps != [] && forall i :: 0 <= i < |ps| ==> |ps[i]| == SIZE
    ensures Depacketise(ps) == Then(PacketData(ps[0]), Depacketise(ps[1..]))
  {
    hide PacketData;
  }

  lemma ShortKeyInvertsIff(f: Frame, cc: byte)
    requires IsShortKey(f)
    ensures Depacketise(Packets(f, true, cc, 0)) == Some(f.raw) <==> FewZeros(f.raw)
  {
    hide Packet, Packets, PacketData, Damaged, PesData, Depacketise, FewZeros, Room;
    FirstAndRest(f, true, cc, 0);
    ShortKeyPacket(f, Next(cc));
    DamagedReadsIff(f);
    LaterPacketsCarry(f, Next(cc), |f.raw|);
    DepacketiseFirst(Packets(f, true, cc, 0));
    assert f.raw[|f.raw|..] == [];
    assert PesData(Damaged(f)).Some? ==> PesData(Damaged(f)).value + [] == PesData(Damaged(f)).value;
  }

  lemma LongInverts(f: Frame, cc: byte)
    requires f.raw != [] && !IsShortKey(f)
    ensures Depacketise(Packets(f, true, cc, 0)) == Some(f.raw)
  {
    hide Packet, Packets, PacketData, Depacketise, Payload, PesHeader;
    FirstAndRest(f, true, cc, 0);
    PacketCarries(f, true, Next(cc), 0);
    var room := Room(f, true);
    var next := if room <= |f.raw| then room else |f.raw|;
    LaterPacketsCarry(f, Next(cc), next);
    DepacketiseFirst(Packets(f, true, cc, 0));
    assert f.raw[0..] == f.raw == f.raw[..next] + f.raw[next..];
    assert f.raw[..|f.raw|] == f.raw;
  }

  /** Taking the packets apart gives the frame back if and only if it is not a
      short key frame, or is no more than three zero bytes. */
  lemma DepacketiseInvertsIff(f: Frame, cc: byte)
    ensures Depacketise(Packets(f, true, cc, 0)) == Some(f.raw)
       <==> !IsShortKey(f) || FewZeros(f.raw)
  {
    if f.raw == [] {
      assert Packets(f, true, cc, 0) == [];
    } else {
      hide Packets, Depacketise, IsShortKey, FewZeros;
      if IsShortKey(f) {
        ShortKeyInvertsIff(f, cc);
      } else {
        LongInverts(f, cc);
      }
    }
  }

  // ------------------------------------------------- counts and counters

  /** The number of packets the sizes force. */
  function PacketCount(f: Frame): nat {
    var room := Room(f, true);
    if f.raw == [] then 0 else if |f.raw| <= room then 1 else 1 + (|f.raw| - room + 183) / 184
  }

  lemma {:induction false} LaterCount(f: Frame, cc: byte, lpos: nat)
    requires lpos <= |f.raw|
    ensures |Packets(f, false, cc, lpos)| == (|f.raw| - lpos + 183) / 184
    decreases |f.raw| - lpos
  {
    hide Packet;
    if lpos < |f.raw| {
      var next := if 184 <= |f.raw| - lpos then lpos + 184 else |f.raw|;
      LaterCount(f, Next(cc), next);
    }
  }

  lemma {:induction false} Counters(f: Frame, first: bool, cc: byte, lpos: nat)
    requires lpos <= |f.raw|
    ensures var ps := Packets(f, first, cc, lpos);
            forall i :: 0 <= i < |ps| ==>
              && ps[i][0] == 0x47
              && ps[i][3] % 16 == (cc + 1 + i) % 16
              && (StartsUnit(ps[i]) <==> first && i == 0)
    decreases |f.raw| - lpos
  {
    hide Packet, StartsUnit;
    if lpos < |f.raw| {
      FirstAndRest(f, first, cc, lpos);
      PacketHeader(f, first, Next(cc), lpos);
      var room := Room(f, first);
      var next := if room <= |f.raw| - lpos then lpos + room else |f.raw|;
      Counters(f, false, Next(cc), next);
      var ps := Packets(f, first, cc, lpos);
      NibbleStep(cc, 0);
      forall i | 1 <= i < |ps|
        ensures && ps[i][0] == 0x47 && ps[i][3] % 16 == (cc + 1 + i) % 16 && !StartsUnit(ps[i])
      {
        assert ps[i] == ps[1..][i - 1];
        NibbleStep(cc, i);
      }
    }
  }

  lemma NibbleStep(cc: byte, i: nat)
    ensures (Next(cc) + i) % 16 == (cc + 1 + i) % 16
  {
    if cc == 255 {
      assert 256 + i == 16 * 16 + i;
    }
  }

  /** Exactly the forced number of packets; all start with the sync byte, only
      the first starts a unit, and the counters step by one modulo 16. */
  lemma PacketsAreCounted(f: Frame, cc: byte)
    ensures var ps := Packets(f, true, cc, 0);
            && |ps| == PacketCount(f)
            && forall i :: 0 <= i < |ps| ==>
                 && ps[i][0] == 0x47
                 && ps[i][3] % 16 == (cc + 1 + i) % 16
                 && (StartsUnit(ps[i]) <==> i == 0)
  {
    hide Packet, StartsUnit;
    Counters(f, true, cc, 0);
    if f.raw != [] {
      FirstAndRest(f, true, cc, 0);
      var room := Room(f, true);
      LaterCount(f, Next(cc), if room <= |f.raw| then room else |f.raw|);
    }
  }

  /** The preallocated buffer always has room for one more packet while there is
      data left: the branch that would grow it is dead. */
  lemma BufferSuffices(size: nat, k: nat, lpos: nat)
    requires lpos < size && (k > 0 ==> lpos >= 157 + 184 * (k - 1))
    ensures 188 * k + 188 <= if 2 * size < 1024 then 1024 else 2 * size
  {
  }

  // ------------------------------------------------------------ PES fields

  datatype Pes = Pes(pscp: nat, sid: byte, ppl: nat, pad1: byte, ptsDtsFlag: byte, pad2: byte, phdl: byte,
                     pts: nat, dts: nat)

  /** ParsePes, on a buffer that holds the header it announces. */
  function ParsePes(b: seq<byte>): (Pes, nat)
    requires |b| >= 9 && (b[7] / 64 / 2 == 1 ==> |b| >= 14) && (b[7] / 64 % 2 == 1 ==> |b| >= 19)
  {
    var flag := b[7] / 64;
    var pts := if flag / 2 == 1 then ReadPts(b[9..]) else 0;
    var dts := if flag % 2 == 1 then ReadPts(b[14..]) else pts;
    (Pes((b[0] as int * 256 + b[1]) * 256 + b[2], b[3], b[4] as int * 256 + b[5], b[6], flag, b[7] % 64, b[8], pts, dts),
     9 + b[8] as int)
  }

  /** A short key frame writes all but its first byte over the PES header; the
      header is whole if the two agree. */
  predicate HeaderIntact(f: Frame) {
    IsShortKey(f) ==>
      forall i :: 0 <= i < |f.raw| - 1 && i < |PesHeader(f)| ==> f.raw[i + 1] == PesHeader(f)[i]
  }

  /** The first packet's payload starts with the PES header exactly then. */
  lemma HeaderIntactIff(f: Frame, cc: byte)
    requires f.raw != []
    ensures var p := Packets(f, true, cc, 0)[0];
            Payload(p).Some? && (PesHeader(f) <= Payload(p).value <==> HeaderIntact(f))
  {
    hide Packet, Payload, PesHeader, Damaged;
    FirstAndRest(f, true, cc, 0);
    if IsShortKey(f) {
      ShortKeyPayload(f, Next(cc));
      forall i: nat | i < |PesHeader(f)| + |f.raw|
        ensures |Damaged(f)| == |PesHeader(f)| + |f.raw|
        ensures Damaged(f)[i]
             == if i + 1 < |f.raw| then f.raw[i + 1] else if i < |PesHeader(f)| then PesHeader(f)[i] else 0
      {
        DamagedAt(f, i);
      }
      assert |Damaged(f)| >= |PesHeader(f)| by {
        DamagedAt(f, 0);
      }
      if PesHeader(f) <= Damaged(f) {
        assert forall i :: 0 <= i < |PesHeader(f)| ==> PesHeader(f)[i] == Damaged(f)[i];
      }
    } else {
      PacketCarries(f, true, Next(cc), 0);
    }
  }

  /** Every frame a receiver reads has its header whole. */
  lemma ReadableIsIntact(f: Frame)
    requires !IsShortKey(f) || FewZeros(f.raw)
    ensures HeaderIntact(f)
  {
    hide PesHeader;
    PesHeaderAt(f);
  }

  /** Parsing the payload of the first packet gives the header fields whenever
      the header is whole, and the delayed time stamps exactly when they are
      below 2^30. */
  lemma ParseInvertsPack(f: Frame, cc: byte)
    requires f.raw != [] && HeaderIntact(f)
    ensures Payload(Packets(f, true, cc, 0)[0]).Some?
    ensures var b := Payload(Packets(f, true, cc, 0)[0]).value;
            var pts, dts := (f.pts + 63000) % TWO64, (f.dts + 63000) % TWO64;
            && |b| >= 9 && (b[7] / 64 / 2 == 1 ==> |b| >= 14) && (b[7] / 64 % 2 == 1 ==> |b| >= 19)
            && var (pes, length) := ParsePes(b);
            && var two := f.dts != f.pts;
            && length == (if two then 19 else 14)
            && pes.pscp == 1 && pes.sid == f.sid
            && pes.ppl == (if length + |f.raw| - 6 > 0xFFFF then 0 else length + |f.raw| - 6)
            && pes.pad1 == 0x80 && pes.ptsDtsFlag == (if two then 3 else 2) && pes.pad2 == 0
            && pes.phdl == (if two then 10 else 5)
            && (pes.pts == pts <==> pts < TWO30)
            && (pes.dts == dts <==> dts < TWO30)
  {
    hide Packet, Payload, PtsBytes, ReadPts, HeaderIntact;
    HeaderIntactIff(f, cc);
    var b := Payload(Packets(f, true, cc, 0)[0]).value;
    ParseWhole(f, b);
  }

  lemma ParseWhole(f: Frame, b: seq<byte>)
    requires PesHeader(f) <= b
    ensures var pts, dts := (f.pts + DELAY) % TWO64, (f.dts + DELAY) % TWO64;
            && |b| >= 9 && (b[7] / 64 / 2 == 1 ==> |b| >= 14) && (b[7] / 64 % 2 == 1 ==> |b| >= 19)
            && var (pes, length) := ParsePes(b);
            && var two := f.dts != f.pts;
            && length == (if two then 19 else 14)
            && pes.pscp == 1 && pes.sid == f.sid
            && pes.ppl == (if length + |f.raw| - 6 > 0xFFFF then 0 else length + |f.raw| - 6)
            && pes.pad1 == 0x80 && pes.ptsDtsFlag == (if two then 3 else 2) && pes.pad2 == 0
            && pes.phdl == (if two then 10 else 5)
            && (pes.pts == pts <==> pts < TWO30)
            && (pes.dts == dts <==> dts < TWO30)
  {
    hide PtsBytes, ReadPts;
    var data := b[|PesHeader(f)|..];
    var pts, dts := (f.pts + DELAY) % TWO64, (f.dts + DELAY) % TWO64;
    assert b == PesHeader(f) + data;
    ReadPtsInvertsIff(PtsDtsFlags(f), pts);
    ReadPtsInvertsIff(1, dts);
    PesHeaderParts(f, data);
    ReadPtsPrefix(PtsBytes(PtsDtsFlags(f), pts), b[9..]);
    if f.pts != f.dts {
      ReadPtsPrefix(PtsBytes(1, dts), b[14..]);
    }
  }

  /** Where the time stamps are. */
  lemma PesHeaderParts(f: Frame, data: seq<byte>)
    ensures var b := PesHeader(f) + data;
            && b[9..][..5] == PtsBytes(PtsDtsFlags(f), (f.pts + DELAY) % TWO64)
            && (f.dts != f.pts ==> b[14..][..5] == PtsBytes(1, (f.dts + DELAY) % TWO64))
  {
    hide PtsBytes, PesPacketLength;
    var fixed := PesHeader(f)[..9];
    var p := PtsBytes(PtsDtsFlags(f), (f.pts + DELAY) % TWO64);
    var d := if f.dts != f.pts then PtsBytes(1, (f.dts + DELAY) % TWO64) else [];
    var b := PesHeader(f) + data;
    assert b == fixed + (p + (d + data));
    Cut(fixed, p + (d + data));
    Cut(p, d + data);
    Cut(d, data);
    DropTwice(b, 9, 5);
  }

  lemma ReadPtsPrefix(s: seq<byte>, t: seq<byte>)
    requires |s| == 5 && |t| >= 5 && t[..5] == s
    ensures ReadPts(t) == ReadPts(s)
  {
    assert forall i :: 0 <= i < 5 ==> t[i] == t[..5][i];
  }
}
