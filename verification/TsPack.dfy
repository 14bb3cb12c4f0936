/** Packing a frame into transport stream packets, in place in one buffer. */
module TsPack {
  import opened Bytes
  import opened TsPacket

  // ------------------------------------------------- writing into a packet

  /** A stretch of a packet replaced. */
  function Overlay<T>(p: seq<T>, off: nat, s: seq<T>): (r: seq<T>)
    requires off + |s| <= |p|
    ensures |r| == |p|
  {
    p[..off] + s + p[off + |s|..]
  }

  /** Replacing the middle of three parts. */
  lemma OverlayParts<T>(a: seq<T>, b: seq<T>, c: seq<T>, s: seq<T>)
    requires |s| == |b|
    ensures Overlay(a + b + c, |a|, s) == a + s + c
  {
  }

  lemma OverlayTwice<T>(p: seq<T>, off: nat, s: seq<T>, t: seq<T>)
    requires off + |s| + |t| <= |p|
    ensures Overlay(Overlay(p, off, s), off + |s|, t) == Overlay(p, off, s + t)
  {
  }

  /** The packets before and after the one at `at` stay as they were. */
  twostate predicate OthersKept(buf: array<byte>, at: nat)
    requires at + SIZE <= buf.Length
    reads buf
  {
    buf[..at] == old(buf[..at]) && buf[at + SIZE..] == old(buf[at + SIZE..])
  }

  /** packet[off:] receives s; `packet` is the slice of buf that starts at `at`. */
  method Put(buf: array<byte>, at: nat, off: nat, s: seq<byte>)
    requires at + SIZE <= buf.Length && off + |s| <= SIZE
    modifies buf
    ensures buf[at..at + SIZE] == Overlay(old(buf[at..at + SIZE]), off, s)
    ensures OthersKept(buf, at)
  {
    hide Overlay;
    ghost var all := buf[..];
    assert buf[at..at + SIZE] == all[at..at + SIZE];
    PutBytes(buf, at + off, s);
    SliceOfPut(all, at, off, s);
    assert buf[at..at + SIZE] == buf[..][at..at + SIZE];
    assert buf[..at] == buf[..][..at] && buf[at + SIZE..] == buf[..][at + SIZE..];
  }

  lemma SliceOfPut<T>(all: seq<T>, at: nat, off: nat, s: seq<T>)
    requires at + SIZE <= |all| && off + |s| <= SIZE
    ensures var r := all[..at + off] + s + all[at + off + |s|..];
            && r[at..at + SIZE] == Overlay(all[at..at + SIZE], off, s)
            && r[..at] == all[..at] && r[at + SIZE..] == all[at + SIZE..]
  {
    var r := all[..at + off] + s + all[at + off + |s|..];
    var p := all[at..at + SIZE];
    var a, c := p[..off], p[off + |s|..];
    assert r == all[..at] + (a + s + c) + all[at + SIZE..] by {
      assert all[..at + off] == all[..at] + a;
      assert all[at + off + |s|..] == c + all[at + SIZE..];
    }
  }

  // ------------------------------------------------------------ the packet

  /** A packet with its headers written and nothing else. */
  function Headed(f: TsPacket.Frame, first: bool, cc: byte): (p: seq<byte>)
    ensures |p| == SIZE
  {
    TsHeader(f, first, cc, first && f.key) + (if first && f.key then Adaptation(f, 0) else [])
    + (if first then PesHeader(f) else []) + Zeros(Room(f, first))
  }

  function HeadSize(f: TsPacket.Frame, first: bool): (n: nat)
    ensures n + Room(f, first) == SIZE
  {
    4 + (if first && f.key then 8 else 0) + if first then |PesHeader(f)| else 0
  }

  /** Writes on after what is done; the rest of the packet is blank. */
  method Append(buf: array<byte>, at: nat, wpos: nat, s: seq<byte>, ghost done: seq<byte>)
    requires at + SIZE <= buf.Length && wpos == |done| && wpos + |s| <= SIZE
    requires buf[at..at + SIZE] == done + Zeros(SIZE - wpos)
    modifies buf
    ensures buf[at..at + SIZE] == done + s + Zeros(SIZE - wpos - |s|)
    ensures OthersKept(buf, at)
  {
    hide Overlay;
    Put(buf, at, wpos, s);
    ZerosSplit(|s|, SIZE - wpos - |s|);
    assert done + Zeros(SIZE - wpos) == done + Zeros(|s|) + Zeros(SIZE - wpos - |s|);
    OverlayParts(done, Zeros(|s|), Zeros(SIZE - wpos - |s|), s);
  }

  lemma ZerosSplit(a: nat, b: nat)
    ensures Zeros(a + b) == Zeros(a) + Zeros(b)
  {
  }

  /** Six bytes from which a receiver reads the clock modulo 2^33. */
  method PackPcr(buf: array<byte>, at: nat, wpos: nat, pcr: Ticks, ghost done: seq<byte>)
    requires at + SIZE <= buf.Length && wpos == |done| && wpos + 6 <= SIZE
    requires buf[at..at + SIZE] == done + Zeros(SIZE - wpos)
    modifies buf
    ensures buf[at..at + SIZE] == done + PcrBytes(pcr) + Zeros(SIZE - wpos - 6)
    ensures ReadPcr(buf[at + wpos..at + wpos + 6]) == (pcr % TWO33, 0)
    ensures OthersKept(buf, at)
  {
    hide ReadPcr, Zeros;
    Append(buf, at, wpos, [pcr / 0x200_0000 % 256, pcr / 0x2_0000 % 256, pcr / 0x200 % 256, pcr / 2 % 256,
                           pcr % 2 * 128 + 126, 0], done);
    ReadPcrInverts(pcr);
    Field(buf[at..at + SIZE], done, PcrBytes(pcr), Zeros(SIZE - wpos - 6));
    Within(buf, at, wpos, 6);
  }

  /** Five bytes from which a receiver reads the time stamp if it is below 2^30. */
  method PackPts(buf: array<byte>, at: nat, wpos: nat, fb: byte, pts: Ticks, ghost done: seq<byte>)
    requires at + SIZE <= buf.Length && wpos == |done| && wpos + 5 <= SIZE && fb < 16
    requires buf[at..at + SIZE] == done + Zeros(SIZE - wpos)
    modifies buf
    ensures buf[at..at + SIZE] == done + PtsBytes(fb, pts) + Zeros(SIZE - wpos - 5)
    ensures ReadPts(buf[at + wpos..at + wpos + 5]) == pts <==> pts < TWO30
    ensures OthersKept(buf, at)
  {
    hide ReadPts, Zeros;
    var mid := pts / TWO15 % TWO15 * 2 + 1;
    var low := pts % TWO15 * 2 + 1;
    Append(buf, at, wpos, [fb * 16 + WithMarker(pts / TWO30 % 8), mid / 256, mid % 256, low / 256, low % 256], done);
    ReadPtsInvertsIff(fb, pts);
    Field(buf[at..at + SIZE], done, PtsBytes(fb, pts), Zeros(SIZE - wpos - 5));
    Within(buf, at, wpos, 5);
  }

  lemma Within(buf: array<byte>, at: nat, off: nat, n: nat)
    requires at + SIZE <= buf.Length && off + n <= SIZE
    ensures buf[at..at + SIZE][off..off + n] == buf[at + off..at + off + n]
  {
    var p, q := buf[at..at + SIZE][off..off + n], buf[at + off..at + off + n];
    assert forall k :: 0 <= k < n ==> p[k] == q[k];
  }

  lemma Field(p: seq<byte>, a: seq<byte>, b: seq<byte>, c: seq<byte>)
    requires p == a + b + c
    ensures p[|a|..|a| + |b|] == b
  {
  }

  /** Marks the header of a packet as having an adaptation field. */
  method MarkAdaptation(buf: array<byte>, at: nat, f: TsPacket.Frame, first: bool, cc: byte, ghost rest: seq<byte>)
    requires at + SIZE <= buf.Length && buf[at..at + SIZE] == TsHeader(f, first, cc, false) + rest
    modifies buf
    ensures buf[at..at + SIZE] == TsHeader(f, first, cc, true) + rest
    ensures OthersKept(buf, at)
  {
    hide Overlay;
    var h := TsHeader(f, first, cc, false);
    assert buf[at..at + SIZE][3] == h[3];
    Put(buf, at, 3, [buf[at + 3] + 0x20]);
    assert h + rest == h[..3] + [h[3]] + rest;
    OverlayParts(h[..3], [h[3]], rest, [h[3] + 0x20]);
    assert TsHeader(f, first, cc, true) == h[..3] + [h[3] + 0x20];
  }

  /** Everything before the data. */
  method WriteHeaders(buf: array<byte>, at: nat, f: TsPacket.Frame, first: bool, cc: byte) returns (wpos: nat)
    requires at + SIZE <= buf.Length && buf[at..at + SIZE] == Zeros(SIZE)
    modifies buf
    ensures buf[at..at + SIZE] == Headed(f, first, cc) && wpos == HeadSize(f, first)
    ensures OthersKept(buf, at)
  {
    hide TsHeader, PcrBytes, PesHeader, Adaptation;
    ghost var h := TsHeader(f, first, cc, first && f.key);
    assert [] + Zeros(SIZE) == Zeros(SIZE);
    Append(buf, at, 0, TsHeader(f, first, cc, false), []);
    assert [] + TsHeader(f, first, cc, false) == TsHeader(f, first, cc, false);
    wpos := 4;
    if first {
      ghost var done := h;
      if f.key {
        MarkAdaptation(buf, at, f, first, cc, Zeros(SIZE - 4));
        wpos := WriteAdaptation(buf, at, f, h);
        done := h + Adaptation(f, 0);
      }
      wpos := WritePesHeader(buf, at, wpos, f, done);
    }
    assert h + [] + [] == h && h + [] == h;
  }

  method WriteAdaptation(buf: array<byte>, at: nat, f: TsPacket.Frame, ghost done: seq<byte>) returns (wpos: nat)
    requires at + SIZE <= buf.Length && |done| == 4 && buf[at..at + SIZE] == done + Zeros(SIZE - 4)
    modifies buf
    ensures wpos == 12 && buf[at..at + SIZE] == done + Adaptation(f, 0) + Zeros(SIZE - 12)
    ensures OthersKept(buf, at)
  {
    hide PcrBytes, Zeros;
    Append(buf, at, 4, [7, 0x50], done);
    var pcr := 0;
    if f.dts > DELAY {
      pcr := f.dts - DELAY;
    }
    PackPcr(buf, at, 6, pcr, done + [7, 0x50]);
    assert done + [7, 0x50] + PcrBytes(pcr) == done + ([7, 0x50] + PcrBytes(pcr));
    wpos := 12;
  }

  method WritePesHeader(buf: array<byte>, at: nat, start: nat, f: TsPacket.Frame, ghost done: seq<byte>)
    returns (wpos: nat)
    requires at + SIZE <= buf.Length && |done| == start <= 12 && buf[at..at + SIZE] == done + Zeros(SIZE - start)
    modifies buf
    ensures wpos == start + |PesHeader(f)| && buf[at..at + SIZE] == done + PesHeader(f) + Zeros(SIZE - wpos)
    ensures OthersKept(buf, at)
  {
    hide PesTimes, PesFixed, Zeros;
    var flags: byte := 0x80;
    if f.dts != f.pts {
      flags := flags + 0x40;
    }
    WritePesFixed(buf, at, start, f, flags, done);
    wpos := WritePesTimes(buf, at, start + 9, f, flags / 64, done + PesFixed(f));
    assert done + PesFixed(f) + PesTimes(f) == done + PesHeader(f);
  }

  method WritePesTimes(buf: array<byte>, at: nat, start: nat, f: TsPacket.Frame, fb: byte, ghost done: seq<byte>)
    returns (wpos: nat)
    requires at + SIZE <= buf.Length && |done| == start <= 21 && buf[at..at + SIZE] == done + Zeros(SIZE - start)
    requires fb == PtsDtsFlags(f)
    modifies buf
    ensures wpos == start + |PesTimes(f)| && buf[at..at + SIZE] == done + PesTimes(f) + Zeros(SIZE - wpos)
    ensures OthersKept(buf, at)
  {
    hide PtsBytes, Zeros;
    var pts := (f.pts + DELAY) % TWO64;
    PackPts(buf, at, start, fb, pts, done);
    wpos := start + 5;
    if f.pts != f.dts {
      var dts := (f.dts + DELAY) % TWO64;
      PackPts(buf, at, wpos, 1, dts, done + PtsBytes(fb, pts));
      wpos := wpos + 5;
      assert done + PtsBytes(fb, pts) + PtsBytes(1, dts) == done + PesTimes(f);
    } else {
      assert PtsBytes(fb, pts) + [] == PesTimes(f);
    }
  }

  method WritePesFixed(buf: array<byte>, at: nat, wpos: nat, f: TsPacket.Frame, flags: byte, ghost done: seq<byte>)
    requires at + SIZE <= buf.Length && |done| == wpos <= 12 && buf[at..at + SIZE] == done + Zeros(SIZE - wpos)
    requires flags == PtsDtsFlags(f) * 64
    modifies buf
    ensures buf[at..at + SIZE] == done + PesFixed(f) + Zeros(SIZE - wpos - 9)
    ensures OthersKept(buf, at)
  {
    hide Zeros;
    ghost var d := done + [0x00, 0x00, 0x01, f.sid];
    Append(buf, at, wpos, [0x00, 0x00, 0x01, f.sid], done);
    var headerSize: byte := 5;
    if f.dts != f.pts {
      headerSize := headerSize + 5;
    }
    var pesSize := |f.raw| + headerSize + 3;
    if pesSize > 0xFFFF {
      pesSize := 0;
    }
    var fields: seq<byte> := [pesSize / 256, pesSize % 256, 0x80, flags, headerSize];
    Append(buf, at, wpos + 4, fields, d);
    assert d + fields == done + PesFixed(f);
  }

  // ---------------------------------------------------------------- the data

  /** A stuffing field where there was no adaptation field. */
  method WriteStuffingField(buf: array<byte>, at: nat, stuffSize: nat)
    requires at + SIZE <= buf.Length && 0 < stuffSize <= 184
    modifies buf
    ensures buf[at..at + SIZE] == Overlay(old(buf[at..at + SIZE]), 4, StuffingField(stuffSize))
    ensures OthersKept(buf, at)
  {
    hide Overlay, Stuff;
    ghost var p := buf[at..at + SIZE];
    Put(buf, at, 4, [stuffSize - 1]);
    if stuffSize >= 2 {
      Put(buf, at, 5, [0]);
      OverlayTwice(p, 4, [(stuffSize - 1) as byte], [0]);
      Put(buf, at, 6, Stuff(stuffSize - 2));
      OverlayTwice(p, 4, [(stuffSize - 1) as byte] + [0], Stuff(stuffSize - 2));
      assert [stuffSize - 1] + [0] + Stuff(stuffSize - 2) == StuffingField(stuffSize);
    }
  }

  /** Go's copy within the packet: packet[dst:] receives packet[src:end]. */
  method Move(buf: array<byte>, at: nat, dst: nat, src: nat, end: nat)
    requires at + SIZE <= buf.Length && src <= end && dst + (end - src) <= SIZE && end <= SIZE
    modifies buf
    ensures var p := old(buf[at..at + SIZE]); buf[at..at + SIZE] == Overlay(p, dst, p[src..end])
    ensures OthersKept(buf, at)
  {
    var s := buf[at + src..at + end];
    ghost var p := buf[at..at + SIZE];
    forall i | 0 <= i < end - src
      ensures s[i] == p[src..end][i]
    {
    }
    assert s == p[src..end];
    Put(buf, at, dst, s);
  }

  /** Header, moved PES header and data around a new field. */
  lemma AroundField<T>(h: seq<T>, pes: seq<T>, blank: seq<T>, field: seq<T>, data: seq<T>)
    requires |field| + |data| == |blank|
    ensures var p := h + pes + blank;
            var n := |h| + |field|;
            Overlay(Overlay(Overlay(p, n, p[|h|..|h| + |pes|]), |h|, field), n + |pes|, data) == h + field + pes + data
  {
    var p := h + pes + blank;
    var n := |h| + |field|;
    assert p[|h|..|h| + |pes|] == pes;
    var p1 := Overlay(p, n, pes);
    assert p1 == h + p1[|h|..n] + (pes + p1[n + |pes|..]);
    OverlayParts(h, p1[|h|..n], pes + p1[n + |pes|..], field);
    var p2 := Overlay(p1, |h|, field);
    assert p2 == (h + field + pes) + p1[n + |pes|..] + [];
    OverlayParts(h + field + pes, p1[n + |pes|..], [], data);
    assert h + field + pes + data + [] == h + field + pes + data;
  }

  /** The same where the field is already there: the data starts where the moved
      PES header does, and overwrites it. */
  lemma OverHeader<T>(h: seq<T>, pes: seq<T>, blank: seq<T>, stuff: seq<T>, data: seq<T>, zero: T)
    requires |stuff| + |data| == |blank| && forall i :: 0 <= i < |blank| ==> blank[i] == zero
    ensures var p, n := h + pes + blank, |h| + |stuff|;
            Overlay(Overlay(Overlay(p, n, p[|h|..|h| + |pes|]), |h|, stuff), n, data)
            == h + stuff + data + (pes + seq(|data|, _ => zero))[|data|..]
  {
    hide Overlay;
    var n := |h| + |stuff|;
    var tail := pes + seq(|data|, _ => zero);
    var gap := (pes + blank)[..|stuff|];
    MovedTail(h, pes, blank, |stuff|, zero);
    var p1 := h + gap + tail;
    OverlayParts(h, gap, tail, stuff);
    Cut(tail[..|data|], tail[|data|..]);
    assert tail == tail[..|data|] + tail[|data|..];
    Regroup4(h, stuff, tail[..|data|], tail[|data|..]);
    assert h + stuff + tail == (h + stuff) + tail[..|data|] + tail[|data|..];
    OverlayParts(h + stuff, tail[..|data|], tail[|data|..], data);
  }

  lemma MovedTail<T>(h: seq<T>, pes: seq<T>, blank: seq<T>, n: nat, zero: T)
    requires n <= |blank| && forall i :: 0 <= i < |blank| ==> blank[i] == zero
    ensures var p := h + pes + blank;
            && p[|h|..|h| + |pes|] == pes
            && Overlay(p, |h| + n, pes) == h + (pes + blank)[..n] + (pes + seq(|blank| - n, _ => zero))
  {
    var p := h + pes + blank;
    assert p == h + (pes + blank);
    assert p[..|h| + n] == h + (pes + blank)[..n];
    assert p[|h| + n + |pes|..] == seq(|blank| - n, _ => zero);
  }

  lemma HeadedParts(f: TsPacket.Frame, cc: byte)
    requires f.key
    ensures Headed(f, true, cc)
         == (TsHeader(f, true, cc, true) + Adaptation(f, 0)[..7]) + ([0] + PesHeader(f)) + Zeros(Room(f, true))
    ensures Headed(f, true, cc)[4] == 7
  {
    hide TsHeader, PesHeader;
    var a := Adaptation(f, 0);
    assert a[7] == 0;
    assert a == a[..7] + [0];
  }

  /** The last data of a short key frame. */
  method FinishKey(buf: array<byte>, at: nat, f: TsPacket.Frame, cc: byte, start: nat)
    requires at + SIZE <= buf.Length && f.key && 0 < |f.raw| < Room(f, true)
    requires buf[at..at + SIZE] == Headed(f, true, cc) && start == HeadSize(f, true)
    modifies buf
    ensures buf[at..at + SIZE] == Packet(f, true, cc, 0)
    ensures OthersKept(buf, at)
  {
    hide Overlay, TsHeader, PesHeader, PcrBytes, Headed, Adaptation, Stuff;
    var stuffSize := Room(f, true) - |f.raw|;
    ghost var h := TsHeader(f, true, cc, true) + Adaptation(f, 0)[..7];
    ghost var p := buf[at..at + SIZE];
    HeadedParts(f, cc);
    assert buf[at + 4] == p[4];
    // header and adaptation length without the length byte: one less than the field's end
    var base := 4 + buf[at + 4] as int;
    Shift(buf, at, base, stuffSize, start, f.raw, h, [0] + PesHeader(f), Zeros(Room(f, true)));
    ghost var rest := Stuff(stuffSize) + f.raw + ([0] + PesHeader(f) + Zeros(|f.raw|))[|f.raw|..];
    Regroup4(h, Stuff(stuffSize), f.raw, ([0] + PesHeader(f) + Zeros(|f.raw|))[|f.raw|..]);
    assert buf[at..at + SIZE] == h + rest;
    GrowField(f, cc, stuffSize, rest);
    assert buf[at + 4] == buf[at..at + SIZE][4];
    Put(buf, at, 4, [buf[at + 4] + stuffSize]);
    assert f.raw[0..] == f.raw;
  }

  /** Moves what is between base and start, fills with stuffing from base on,
      and puts the data where the moved part begins. */
  method Shift(buf: array<byte>, at: nat, base: nat, stuffSize: nat, start: nat, data: seq<byte>,
               ghost h: seq<byte>, ghost pes: seq<byte>, ghost blank: seq<byte>)
    requires at + SIZE <= buf.Length && buf[at..at + SIZE] == h + pes + blank
    requires |h| == base && |h| + |pes| == start && stuffSize + |data| == |blank|
    requires forall i :: 0 <= i < |blank| ==> blank[i] == 0
    modifies buf
    ensures buf[at..at + SIZE] == h + Stuff(stuffSize) + data + (pes + Zeros(|data|))[|data|..]
    ensures OthersKept(buf, at)
  {
    hide Overlay;
    Move(buf, at, base + stuffSize, base, start);
    var wpos := base + stuffSize;
    Put(buf, at, base, Stuff(stuffSize));
    Put(buf, at, wpos, data);
    OverHeader(h, pes, blank, Stuff(stuffSize), data, 0 as byte);
  }

  lemma GrowField(f: TsPacket.Frame, cc: byte, n: nat, rest: seq<byte>)
    requires n < 200 && |rest| == SIZE - 11
    ensures var p := TsHeader(f, true, cc, true) + Adaptation(f, 0)[..7] + rest;
            && p[4] == 7
            && Overlay(p, 4, [(7 + n) as byte]) == TsHeader(f, true, cc, true) + Adaptation(f, n)[..7] + rest
  {
    hide TsHeader, PcrBytes;
  }

  /** The last data of any other frame. */
  method FinishOther(buf: array<byte>, at: nat, f: TsPacket.Frame, first: bool, cc: byte, lpos: nat, start: nat)
    requires at + SIZE <= buf.Length && !(first && f.key) && lpos < |f.raw| && |f.raw| - lpos < Room(f, first)
    requires buf[at..at + SIZE] == Headed(f, first, cc) && start == HeadSize(f, first)
    modifies buf
    ensures buf[at..at + SIZE] == Packet(f, first, cc, lpos)
    ensures OthersKept(buf, at)
  {
    hide TsHeader, PesHeader, StuffingField, Packet, Headed, Zeros;
    var left := f.raw[lpos..];
    var stuffSize := Room(f, first) - |left|;
    ghost var pes := if first then PesHeader(f) else [];
    ghost var blank := Zeros(Room(f, first));
    OtherParts(f, first, cc, lpos);
    MarkAdaptation(buf, at, f, first, cc, pes + blank);
    MakeField(buf, at, stuffSize, start, left, TsHeader(f, first, cc, true), pes, blank);
  }

  lemma OtherParts(f: TsPacket.Frame, first: bool, cc: byte, lpos: nat)
    requires !(first && f.key) && lpos < |f.raw| && |f.raw| - lpos < Room(f, first)
    ensures var pes := if first then PesHeader(f) else [];
            var n := Room(f, first) - (|f.raw| - lpos);
            && Headed(f, first, cc) == TsHeader(f, first, cc, false) + (pes + Zeros(Room(f, first)))
            && TsHeader(f, first, cc, true) + (pes + Zeros(Room(f, first)))
               == TsHeader(f, first, cc, true) + pes + Zeros(Room(f, first))
            && Packet(f, first, cc, lpos) == TsHeader(f, first, cc, true) + StuffingField(n) + pes + f.raw[lpos..]
  {
    hide TsHeader, PesHeader, StuffingField, Zeros;
    var pes := if first then PesHeader(f) else [];
    var h := TsHeader(f, first, cc, false);
    assert h + [] == h;
    Regroup4(h, [], pes, Zeros(Room(f, first)));
    assert [] + (pes + Zeros(Room(f, first))) == pes + Zeros(Room(f, first));
  }

  /** Moves what is behind the header, and fills in a stuffing field and the data. */
  method MakeField(buf: array<byte>, at: nat, stuffSize: nat, start: nat, left: seq<byte>,
                   ghost h: seq<byte>, ghost pes: seq<byte>, ghost blank: seq<byte>)
    requires at + SIZE <= buf.Length && buf[at..at + SIZE] == h + pes + blank
    requires |h| == 4 && 4 + |pes| == start && 0 < stuffSize <= 184 && stuffSize + |left| == |blank|
    modifies buf
    ensures buf[at..at + SIZE] == h + StuffingField(stuffSize) + pes + left
    ensures OthersKept(buf, at)
  {
    hide Overlay, StuffingField;
    var base := 4;
    var wpos := start;
    ghost var p := buf[at..at + SIZE];
    assert p[4..4 + |pes|] == p[|h|..|h| + |pes|];
    if wpos > base {
      Move(buf, at, base + stuffSize, base, wpos);
    } else {
      OverlayNothing(p, base + stuffSize);
    }
    wpos := wpos + stuffSize;
    WriteStuffingField(buf, at, stuffSize);
    Put(buf, at, wpos, left);
    AroundField(h, pes, blank, StuffingField(stuffSize), left);
  }

  lemma OverlayNothing<T>(p: seq<T>, off: nat)
    requires off <= |p|
    ensures Overlay(p, off, []) == p
  {
  }

  /** One round of the loop: a blank packet becomes the packet for lpos. */
  method WritePacket(buf: array<byte>, at: nat, f: TsPacket.Frame, first: bool, cc: byte, lpos: nat)
    returns (next: nat)
    requires at + SIZE <= buf.Length && buf[at..at + SIZE] == Zeros(SIZE)
    requires lpos < |f.raw| && (first ==> lpos == 0)
    modifies buf
    ensures buf[at..at + SIZE] == Packet(f, first, cc, lpos) && OthersKept(buf, at)
    ensures next == if Room(f, first) <= |f.raw| - lpos then lpos + Room(f, first) else |f.raw|
  {
    hide TsHeader, PesHeader, Adaptation, Overlay, PcrBytes;
    var wpos := WriteHeaders(buf, at, f, first, cc);
    var bodySize := SIZE - wpos;
    var inSize := |f.raw| - lpos;
    if bodySize <= inSize {
      ghost var done := Headed(f, first, cc)[..wpos];
      assert Headed(f, first, cc) == done + Zeros(bodySize);
      Append(buf, at, wpos, f.raw[lpos..lpos + bodySize], done);
      assert f.raw[lpos..][..bodySize] == f.raw[lpos..lpos + bodySize];
      assert done + f.raw[lpos..lpos + bodySize] + Zeros(0) == done + f.raw[lpos..lpos + bodySize];
      next := lpos + bodySize;
    } else {
      if first && f.key {
        FinishKey(buf, at, f, cc, wpos);
      } else {
        FinishOther(buf, at, f, first, cc, lpos, wpos);
      }
      next := |f.raw|;
    }
  }

  // ---------------------------------------------------------- the whole frame

  /** Packets one after the other. */
  function Stream(ps: seq<seq<byte>>): seq<byte> {
    if ps == [] then [] else ps[0] + Stream(ps[1..])
  }

  /** A byte stream cut into packets. */
  function CutPackets(bytes: seq<byte>): (ps: seq<seq<byte>>)
    ensures forall i :: 0 <= i < |ps| ==> |ps[i]| == SIZE
  {
    if |bytes| < SIZE then [] else [bytes[..SIZE]] + CutPackets(bytes[SIZE..])
  }

  lemma {:induction false} CutInvertsStream(ps: seq<seq<byte>>)
    requires forall i :: 0 <= i < |ps| ==> |ps[i]| == SIZE
    ensures CutPackets(Stream(ps)) == ps
  {
    if ps != [] {
      CutInvertsStream(ps[1..]);
      Cut(ps[0], Stream(ps[1..]));
      assert ps == [ps[0]] + ps[1..];
    }
  }

  /** The round trip of the bytes: cut into packets and taken apart, they give the
      frame back if and only if it is not a short key frame, or is no more than
      three zero bytes. */
  lemma BytesInvertIff(f: TsPacket.Frame, cc: byte)
    ensures Depacketise(CutPackets(Stream(Packets(f, true, cc, 0)))) == Some(f.raw)
       <==> !IsShortKey(f) || FewZeros(f.raw)
  {
    hide Stream, CutPackets, Depacketise, IsShortKey;
    CutInvertsStream(Packets(f, true, cc, 0));
    DepacketiseInvertsIff(f, cc);
  }

  lemma {:induction false} StreamPush(ps: seq<seq<byte>>, p: seq<byte>)
    ensures Stream(ps + [p]) == Stream(ps) + p
  {
    if ps == [] {
      assert ps + [p] == [p] && [p][1..] == [];
    } else {
      StreamPush(ps[1..], p);
      assert (ps + [p])[1..] == ps[1..] + [p];
    }
  }

  lemma {:induction false} StreamLength(ps: seq<seq<byte>>)
    requires forall i :: 0 <= i < |ps| ==> |ps[i]| == SIZE
    ensures |Stream(ps)| == SIZE * |ps|
  {
    if ps != [] {
      StreamLength(ps[1..]);
    }
  }

  class Frame {
    const pts: Ticks
    const dts: Ticks
    const pid: Pid
    const sid: byte
    const key: bool
    const raw: seq<byte>
    var cc: byte

    function Value(): TsPacket.Frame {
      TsPacket.Frame(pts, dts, pid, sid, key, raw)
    }

    constructor (pts: Ticks, dts: Ticks, cc: byte, pid: Pid, sid: byte, key: bool, raw: seq<byte>)
      ensures Value() == TsPacket.Frame(pts, dts, pid, sid, key, raw) && this.cc == cc
    {
      this.pts, this.dts, this.pid, this.sid, this.key, this.raw := pts, dts, pid, sid, key, raw;
      this.cc := cc;
    }

    /** Packs the frame and advances its continuity counter once per packet. */
    method Pack() returns (out: seq<byte>)
      modifies this
      ensures out == Stream(Packets(Value(), true, old(cc), 0))
      ensures |out| == SIZE * PacketCount(Value())
      ensures cc == (old(cc) + PacketCount(Value())) % 256
      ensures Depacketise(CutPackets(out)) == Some(raw) <==> !IsShortKey(Value()) || FewZeros(raw)
    {
      hide Packet, Packets, Stream, Room, Zeros, Next, PacketCount, Depacketise, CutPackets, IsShortKey, FewZeros;
      ghost var f := Value();
      var bufLen := |raw| * 2;
      if bufLen < 1024 {
        bufLen := 1024;
      }
      var buf := new byte[bufLen](_ => 0);
      var lpos := 0;
      var rpos := |raw|;
      var first := true;
      var packetPosAtBuf := 0;
      ghost var done: seq<seq<byte>> := [];
      StreamOfNothing();
      PacketsAreCounted(f, cc);
      StreamLength(Packets(f, true, cc, 0));
      assert done + Packets(f, true, cc, 0) == Packets(f, true, cc, 0);
      while lpos != rpos
        invariant lpos <= rpos && (first <==> |done| == 0) && (first ==> lpos == 0)
        invariant |done| > 0 ==> lpos == rpos || lpos >= 157 + 184 * (|done| - 1)
        invariant packetPosAtBuf == SIZE * |done| == |Stream(done)| <= bufLen
        invariant buf[..packetPosAtBuf] == Stream(done)
        invariant forall k :: packetPosAtBuf <= k < bufLen ==> buf[k] == 0
        invariant done + Packets(f, first, cc, lpos) == Packets(f, true, old(cc), 0)
        invariant cc == (old(cc) + |done|) % 256
      {
        BufferSuffices(rpos, |done|, lpos);
        if packetPosAtBuf + SIZE > buf.Length {
          // growing the buffer is never needed
          assert false;
        }
        var at := packetPosAtBuf;
        packetPosAtBuf := packetPosAtBuf + SIZE;
        PackStep(f, first, cc, lpos, done);
        CounterStep(old(cc), |done|);
        done := done + [Packet(f, first, Next(cc), lpos)];
        cc := Next(cc);
        lpos := PackOne(buf, at, Value(), first, cc, lpos);
        first := false;
      }
      NothingLeft(f, first, cc, lpos);
      assert done + [] == done;
      BytesInvertIff(f, old(cc));
      return buf[..packetPosAtBuf];
    }
  }

  /** A packet written behind those that are done, before blank space. */
  method PackOne(buf: array<byte>, at: nat, f: TsPacket.Frame, first: bool, cc: byte, lpos: nat)
    returns (next: nat)
    requires at + SIZE <= buf.Length && forall k :: at <= k < buf.Length ==> buf[k] == 0
    requires lpos < |f.raw| && (first ==> lpos == 0)
    modifies buf
    ensures buf[..at + SIZE] == old(buf[..at]) + Packet(f, first, cc, lpos)
    ensures forall k :: at + SIZE <= k < buf.Length ==> buf[k] == 0
    ensures next == NextPos(f, first, lpos)
  {
    hide Packet, Room;
    AllZeros(buf[at..at + SIZE]);
    ghost var was := buf[..];
    next := WritePacket(buf, at, f, first, cc, lpos);
    assert buf[..at + SIZE] == buf[..at] + buf[at..at + SIZE];
    forall k | at + SIZE <= k < buf.Length
      ensures buf[k] == 0
    {
      assert buf[k] == buf[at + SIZE..][k - at - SIZE];
    }
  }

  function NextPos(f: TsPacket.Frame, first: bool, lpos: nat): nat {
    if Room(f, first) <= |f.raw| - lpos then lpos + Room(f, first) else |f.raw|
  }

  /** One round of the loop, on the packets that are done. */
  lemma PackStep(f: TsPacket.Frame, first: bool, before: byte, lpos: nat, done: seq<seq<byte>>)
    requires lpos < |f.raw|
    ensures var p := Packet(f, first, Next(before), lpos);
            var next := NextPos(f, first, lpos);
            && Stream(done + [p]) == Stream(done) + p
            && next <= |f.raw| && (next == |f.raw| || next >= lpos + (if first then 157 else 184))
            && done + Packets(f, first, before, lpos) == done + [p] + Packets(f, false, Next(before), next)
  {
    hide Packet, Packets, Stream, Next;
    var p := Packet(f, first, Next(before), lpos);
    var ps := Packets(f, first, before, lpos);
    FirstAndRest(f, first, before, lpos);
    StreamPush(done, p);
    assert ps == [p] + ps[1..];
    assert done + ([p] + ps[1..]) == done + [p] + ps[1..];
  }

  lemma StreamOfNothing()
    ensures Stream([]) == []
  {
  }

  lemma AllZeros(s: seq<byte>)
    requires |s| == SIZE && forall k :: 0 <= k < SIZE ==> s[k] == 0
    ensures s == Zeros(SIZE)
  {
  }

  lemma NothingLeft(f: TsPacket.Frame, first: bool, cc: byte, lpos: nat)
    requires lpos == |f.raw|
    ensures Packets(f, first, cc, lpos) == []
  {
  }

  lemma CounterStep(cc: byte, n: nat)
    ensures Next((cc + n) % 256) == (cc + n + 1) % 256
  {
  }
}
