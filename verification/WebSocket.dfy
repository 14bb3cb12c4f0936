/** WebSocket framing: masking, frame headers and reading a frame back
    (sections 5.2 and 5.3 of RFC 6455). */
module WebSocket {
  import opened Bytes

  // ------------------------------------------------------------- masking

  /** Section 5.3: octet i of the data is combined with octet (offset + i) mod 4 of the key. */
  function Masked(payload: seq<byte>, mask: seq<byte>, offset: nat): (r: seq<byte>)
    requires |mask| == 4
    ensures |r| == |payload|
  {
    seq(|payload|, i requires 0 <= i < |payload| => XorByte(payload[i], mask[(offset + i) % 4]))
  }

  /** Masking is its own inverse. */
  lemma MaskedInvolutive(payload: seq<byte>, mask: seq<byte>, offset: nat)
    requires |mask| == 4
    ensures Masked(Masked(payload, mask, offset), mask, offset) == payload
  {
    hide Xor;
    forall i | 0 <= i < |payload|
      ensures Masked(Masked(payload, mask, offset), mask, offset)[i] == payload[i]
    {
      XorInvolutive(payload[i], mask[(offset + i) % 4]);
    }
  }

  function Zip(a: seq<byte>, b: seq<byte>): (r: seq<byte>)
    requires |a| == |b|
    ensures |r| == |a|
  {
    seq(|a|, i requires 0 <= i < |a| => XorByte(a[i], b[i]))
  }

  /** One exclusive or of two little-endian words is the bytewise one. */
  lemma {:induction false} XorWord(a: seq<byte>, b: seq<byte>)
    requires |a| == |b|
    ensures Xor(LeValue(a), LeValue(b)) == LeValue(Zip(a, b))
  {
    hide Xor;
    if a == [] {
      XorZero();
    } else {
      assert Pow2(8) == 256;
      XorSplit(a[0], LeValue(a[1..]), b[0], LeValue(b[1..]), 8);
      XorWord(a[1..], b[1..]);
      assert Zip(a, b)[1..] == Zip(a[1..], b[1..]);
    }
  }

  lemma {:induction false} LeValueOfConcat(a: seq<byte>, b: seq<byte>)
    ensures LeValue(a + b) == LeValue(a) + Pow256(|a|) * LeValue(b)
  {
    if a == [] {
      assert a + b == b;
    } else {
      LeValueOfConcat(a[1..], b);
      assert (a + b)[1..] == a[1..] + b;
      var p := Pow256(|a| - 1);
      ShiftByte(p, LeValue(b));
    }
  }

  lemma ShiftByte(p: nat, x: nat)
    ensures 256 * (p * x) == (256 * p) * x
  {
  }

  /** The mask word of the main loop: the 32-bit mask in both halves. */
  function MaskWord(mask: seq<byte>): nat
    requires |mask| == 4
  {
    var m := LeValue(mask);
    m * TWO32 + m
  }

  lemma MaskWordIsDoubled(mask: seq<byte>)
    requires |mask| == 4
    ensures MaskWord(mask) == LeValue(mask + mask)
  {
    hide LeValue;
    LeValueOfConcat(mask, mask);
    assert Pow256(4) == TWO32;
  }

  /** What the main loop does to one 8-byte chunk. */
  lemma XorChunk(chunk: seq<byte>, mask: seq<byte>)
    requires |chunk| == 8 && |mask| == 4
    ensures LeBytes(Xor(LeValue(chunk), MaskWord(mask)), 8) == Masked(chunk, mask, 0)
  {
    hide Xor, LeValue, LeBytes, MaskWord;
    MaskWordIsDoubled(mask);
    XorWord(chunk, mask + mask);
    LeRoundTrip(Zip(chunk, mask + mask));
    assert Zip(chunk, mask + mask) == Masked(chunk, mask, 0);
  }

  /** A chunk that starts on a mask boundary is masked as if it came first. */
  lemma ChunkIsMasked(payload: seq<byte>, mask: seq<byte>, offset: nat, j: nat)
    requires |mask| == 4 && j + 8 <= |payload| && (offset + j) % 4 == 0
    ensures Masked(payload[j..j + 8], mask, 0) == Masked(payload, mask, offset)[j..j + 8]
  {
    hide XorByte, Xor;
    var near, far := Masked(payload[j..j + 8], mask, 0), Masked(payload, mask, offset)[j..j + 8];
    forall k: nat | k < 8
      ensures near[k] == far[k]
    {
      assert offset + (j + k) == (offset + j) + k;
      SamePhase(offset + j, k);
    }
  }

  lemma SamePhase(x: nat, k: nat)
    requires x % 4 == 0
    ensures (x + k) % 4 == k % 4
  {
  }

  /** Masking one octet, counted from the offset or from its mask position. */
  lemma MaskedAt(was: seq<byte>, mask: seq<byte>, offset: nat, i: nat)
    requires |mask| == 4 && i < |was|
    ensures Masked(was, mask, offset)[i] == XorByte(was[i], mask[(offset + i) % 4])
    ensures (offset + i) % 4 == (offset % 4 + i) % 4
  {
    hide XorByte, Xor;
  }

  const REMAIN: seq<nat> := [0, 3, 2, 1]

  /** Masks the slice in place: byte by byte up to a mask boundary and at the
      end, 64 bits at a time in the middle. */
  method Cipher(payload: array<byte>, mask: seq<byte>, offset: nat)
    requires |mask| == 4
    modifies payload
    ensures payload[..] == Masked(old(payload[..]), mask, offset)
  {
    hide Masked, XorByte, Xor;
    var n := payload.Length;
    ghost var was := payload[..];
    ghost var want := Masked(was, mask, offset);
    if n < 8 {
      for i := 0 to n
        invariant forall k :: 0 <= k < i ==> payload[k] == want[k]
        invariant forall k :: i <= k < n ==> payload[k] == was[k]
      {
        MaskedAt(was, mask, offset, i);
        payload[i] := XorByte(payload[i], mask[(offset + i) % 4]);
      }
      return;
    }
    var mpos := offset % 4;
    var ln := REMAIN[mpos];
    var rn := (n - ln) % 8;
    for i := 0 to ln
      invariant forall k :: 0 <= k < i ==> payload[k] == want[k]
      invariant forall k :: i <= k < n ==> payload[k] == was[k]
    {
      MaskedAt(was, mask, offset, i);
      payload[i] := XorByte(payload[i], mask[(mpos + i) % 4]);
    }
    for i := n - rn to n
      invariant forall k :: 0 <= k < ln || n - rn <= k < i ==> payload[k] == want[k]
      invariant forall k :: ln <= k < n - rn || i <= k < n ==> payload[k] == was[k]
    {
      MaskedAt(was, mask, offset, i);
      payload[i] := XorByte(payload[i], mask[(mpos + i) % 4]);
    }
    var words := (n - ln - rn) / 8;
    WholeWords(n - ln);
    Aligned(offset);
    for i := 0 to words
      invariant (offset + (ln + 8 * i)) % 4 == 0
      invariant forall k :: 0 <= k < ln + 8 * i || n - rn <= k < n ==> payload[k] == want[k]
      invariant forall k :: ln + 8 * i <= k < n - rn ==> payload[k] == was[k]
    {
      StillAligned(offset + (ln + 8 * i));
      MaskChunk(payload, mask, ln + 8 * i, offset, was);
    }
  }

  /** The middle part starts on a mask boundary. */
  lemma Aligned(offset: nat)
    ensures (offset + REMAIN[offset % 4]) % 4 == 0
  {
    var q, r := offset / 4, offset % 4;
    var m := if r == 0 then q else q + 1;
    assert REMAIN[0] == 0 && REMAIN[1] == 3 && REMAIN[2] == 2 && REMAIN[3] == 1;
    assert offset + REMAIN[r] == 4 * m;
    FourTimes(m);
  }

  lemma FourTimes(m: nat)
    ensures 4 * m % 4 == 0
  {
  }

  lemma StillAligned(x: nat)
    requires x % 4 == 0
    ensures (x + 8) % 4 == 0
  {
  }

  /** It is a whole number of words. */
  lemma WholeWords(n: nat)
    ensures 8 * ((n - n % 8) / 8) == n - n % 8
  {
  }

  /** One round of the main loop, on the eight bytes from j. */
  method MaskChunk(payload: array<byte>, mask: seq<byte>, j: nat, ghost offset: nat, ghost was: seq<byte>)
    requires |mask| == 4 && j + 8 <= payload.Length && (offset + j) % 4 == 0
    requires |was| == payload.Length && payload[j..j + 8] == was[j..j + 8]
    modifies payload
    ensures forall k :: j <= k < j + 8 ==> payload[k] == Masked(was, mask, offset)[k]
    ensures forall k :: 0 <= k < j || j + 8 <= k < payload.Length ==> payload[k] == old(payload[k])
  {
    hide Masked, Xor, LeValue, LeBytes, MaskWord;
    var chunk := payload[j..j + 8];
    XorChunk(chunk, mask);
    ChunkIsMasked(was, mask, offset, j);
    var p := LeBytes(Xor(LeValue(chunk), MaskWord(mask)), 8);
    PutBytes(payload, j, p);
    assert p == Masked(was, mask, offset)[j..j + 8];
  }

  // ------------------------------------------------------------- headers

  datatype WsHeader = WsHeader(fin: bool, rsv1: bool, rsv2: bool, rsv3: bool, opcode: byte,
                               payloadLength: nat, masked: bool, maskKey: nat)
  {
    /** The ranges of the Go field types. */
    predicate Ranged() {
      payloadLength < TWO64 && maskKey < TWO32
    }
  }

  function Bit(b: bool): (r: nat)
    ensures r < 2 && (r == 1 <==> b)
  {
    if b then 1 else 0
  }

  /** The four bits above the opcode. */
  function FlagBits(h: WsHeader): byte {
    128 * Bit(h.fin) + 64 * Bit(h.rsv1) + 32 * Bit(h.rsv2) + 16 * Bit(h.rsv3)
  }

  /** The 7-bit length field. */
  function LengthCode(n: nat): byte {
    if n < 126 then n else if n <= 0xFFFF then 126 else 127
  }

  /** The extended length field that goes with it. */
  function ExtendedLength(n: nat): seq<byte> {
    if n < 126 then [] else if n <= 0xFFFF then BeBytes(n, 2) else BeBytes(n, 8)
  }

  /** Section 5.2; an opcode of more than four bits spills into the flags. */
  function HeaderBytes(h: WsHeader): (s: seq<byte>)
    ensures |s| >= 2
  {
    [OrByte(FlagBits(h), h.opcode), 128 * Bit(h.masked) + LengthCode(h.payloadLength)]
    + ExtendedLength(h.payloadLength)
    + (if h.masked then LeBytes(h.maskKey, 4) else [])
  }

  /** Fills a zeroed buffer, or-ing bits into its first two bytes. */
  method MakeWsFrameHeader(h: WsHeader) returns (buf: array<byte>)
    requires h.Ranged()
    ensures fresh(buf) && buf[..] == HeaderBytes(h)
  {
    hide OrByte, FlagBits, BeBytes, LeBytes;
    var headerSize := 2;
    var payload: byte := 0;
    if h.payloadLength < 126 {
      payload := h.payloadLength;
    } else if h.payloadLength <= 0xFFFF {
      payload := 126;
      headerSize := headerSize + 2;
    } else {
      payload := 127;
      headerSize := headerSize + 8;
    }
    if h.masked {
      headerSize := headerSize + 4;
    }
    buf := new byte[headerSize](_ => 0);
    PutFirstTwo(buf, h, payload);
    ghost var first := buf[..2];
    if payload == 126 {
      PutBytes(buf, 2, BeBytes(h.payloadLength, 2));
    } else if payload == 127 {
      PutBytes(buf, 2, BeBytes(h.payloadLength, 8));
    }
    assert buf[..2 + |ExtendedLength(h.payloadLength)|] == first + ExtendedLength(h.payloadLength);
    if h.masked {
      PutBytes(buf, headerSize - 4, LeBytes(h.maskKey, 4));
    }
  }

  method PutFirstTwo(buf: array<byte>, h: WsHeader, payload: byte)
    requires buf.Length >= 2 && buf[0] == 0 && buf[1] == 0 && payload < 128
    modifies buf
    ensures buf[0] == OrByte(FlagBits(h), h.opcode) && buf[1] == 128 * Bit(h.masked) + payload
    ensures buf[2..] == old(buf[2..])
  {
    hide OrByte, Or, FlagBits;
    FlagSteps(h);
    if h.fin {
      buf[0] := OrByte(buf[0], 128);
    }
    if h.rsv1 {
      buf[0] := OrByte(buf[0], 64);
    }
    if h.rsv2 {
      buf[0] := OrByte(buf[0], 32);
    }
    if h.rsv3 {
      buf[0] := OrByte(buf[0], 16);
    }
    buf[0] := OrByte(buf[0], h.opcode);
    LengthSteps(h.masked, payload);
    if h.masked {
      buf[1] := OrByte(buf[1], 128);
    }
    buf[1] := OrByte(buf[1], payload % 128);
  }

  /** Or-ing the four flags one after the other adds their weights. */
  lemma FlagSteps(h: WsHeader)
    ensures var a := if h.fin then OrByte(0, 128) else 0;
            var b := if h.rsv1 then OrByte(a, 64) else a;
            var c := if h.rsv2 then OrByte(b, 32) else b;
            (if h.rsv3 then OrByte(c, 16) else c) == FlagBits(h)
  {
    hide Or;
    assert Pow2(8) == 256 && Pow2(7) == 128 && Pow2(6) == 64 && Pow2(5) == 32;
    OrAdds(0, 128, 8);
    var a := 128 * Bit(h.fin);
    OrAdds(a / 128, 64, 7);
    var b := a + 64 * Bit(h.rsv1);
    OrAdds(b / 64, 32, 6);
    var c := b + 32 * Bit(h.rsv2);
    OrAdds(c / 32, 16, 5);
  }

  lemma LengthSteps(masked: bool, code: byte)
    requires code < 128
    ensures OrByte(if masked then OrByte(0, 128) else 0, code % 128) == 128 * Bit(masked) + code
  {
    hide Or;
    assert Pow2(8) == 256 && Pow2(7) == 128;
    OrAdds(0, 128, 8);
    OrAdds(if masked then 1 else 0, code, 7);
  }

  /** The header byte by byte: flags and opcode, of which each bit is set if it is
      set in either; mask bit and length; the shortest encoding of the length, highest
      byte first; and the mask key, lowest byte first. */
  lemma HeaderLayout(h: WsHeader)
    requires h.Ranged()
    ensures var s, n := HeaderBytes(h), h.payloadLength;
            var e := if n <= 125 then 0 else if n <= 65535 then 2 else 8;
            && |s| == 2 + e + (if h.masked then 4 else 0)
            && s[0] % 2 == h.opcode % 2 && s[0] / 2 % 2 == h.opcode / 2 % 2
            && s[0] / 4 % 2 == h.opcode / 4 % 2 && s[0] / 8 % 2 == h.opcode / 8 % 2
            && (s[0] / 128 == 1 <==> h.fin || h.opcode / 128 == 1)
            && (s[0] / 64 % 2 == 1 <==> h.rsv1 || h.opcode / 64 % 2 == 1)
            && (s[0] / 32 % 2 == 1 <==> h.rsv2 || h.opcode / 32 % 2 == 1)
            && (s[0] / 16 % 2 == 1 <==> h.rsv3 || h.opcode / 16 % 2 == 1)
            && s[1] as int == (if h.masked then 128 else 0) + (if n <= 125 then n else if n <= 65535 then 126 else 127)
            && (e > 0 ==> HighFirst(s[2..2 + e], n))
            && (h.masked ==> LowFirst(s[2 + e..], h.maskKey))
  {
    hide OrByte, Or, BeBytes, LeBytes, FlagBits, HighFirst, LowFirst, Pow2;
    var s, n := HeaderBytes(h), h.payloadLength;
    var e := if n <= 125 then 0 else if n <= 65535 then 2 else 8;
    EndianDigits(n, e);
    EndianDigits(h.maskKey, 4);
    FlagByte(h);
    LayoutParts(h);
  }

  lemma LayoutParts(h: WsHeader)
    requires h.Ranged()
    ensures var s, ext := HeaderBytes(h), ExtendedLength(h.payloadLength);
            && s[2..2 + |ext|] == ext && |s| == 2 + |ext| + (if h.masked then 4 else 0)
            && (h.masked ==> s[2 + |ext|..] == LeBytes(h.maskKey, 4))
  {
    hide OrByte, BeBytes, LeBytes, FlagBits, LengthCode, ExtendedLength;
  }

  /** The eight bits of an or. */
  lemma OrBits(a: byte, b: byte)
    ensures var r := OrByte(a, b);
            && r % 2 == OrBit(a, b) && r / 2 % 2 == OrBit(a / 2, b / 2)
            && r / 4 % 2 == OrBit(a / 4, b / 4) && r / 8 % 2 == OrBit(a / 8, b / 8)
            && r / 16 % 2 == OrBit(a / 16, b / 16) && r / 32 % 2 == OrBit(a / 32, b / 32)
            && r / 64 % 2 == OrBit(a / 64, b / 64) && r / 128 % 2 == OrBit(a / 128, b / 128)
  {
    hide Or;
    assert Pow2(0) == 1 && Pow2(1) == 2 && Pow2(2) == 4 && Pow2(3) == 8;
    assert Pow2(4) == 16 && Pow2(5) == 32 && Pow2(6) == 64 && Pow2(7) == 128;
    OrAtBit(a, b, 0);
    OrAtBit(a, b, 1);
    OrAtBit(a, b, 2);
    OrAtBit(a, b, 3);
    OrAtBit(a, b, 4);
    OrAtBit(a, b, 5);
    OrAtBit(a, b, 6);
    OrAtBit(a, b, 7);
  }

  /** The bits of the flags: none of the low four. */
  lemma FlagBitsAre(h: WsHeader)
    ensures var f := FlagBits(h);
            && f % 2 == 0 && f / 2 % 2 == 0 && f / 4 % 2 == 0 && f / 8 % 2 == 0
            && f / 16 % 2 == Bit(h.rsv3) && f / 32 % 2 == Bit(h.rsv2) && f / 64 % 2 == Bit(h.rsv1) && f / 128 == Bit(h.fin)
  {
    hide Bit;
    var f, x := FlagBits(h), 8 * Bit(h.fin) + 4 * Bit(h.rsv1) + 2 * Bit(h.rsv2) + Bit(h.rsv3);
    BitsOf(Bit(h.fin), Bit(h.rsv1), Bit(h.rsv2), Bit(h.rsv3), 0, f);
    assert f == 16 * x;
  }

  /** The bits of the first byte. */
  lemma FlagByte(h: WsHeader)
    ensures var b := OrByte(FlagBits(h), h.opcode);
            && b % 2 == h.opcode % 2 && b / 2 % 2 == h.opcode / 2 % 2
            && b / 4 % 2 == h.opcode / 4 % 2 && b / 8 % 2 == h.opcode / 8 % 2
            && (b / 128 == 1 <==> h.fin || h.opcode / 128 == 1)
            && (b / 64 % 2 == 1 <==> h.rsv1 || h.opcode / 64 % 2 == 1)
            && (b / 32 % 2 == 1 <==> h.rsv2 || h.opcode / 32 % 2 == 1)
            && (b / 16 % 2 == 1 <==> h.rsv3 || h.opcode / 16 % 2 == 1)
  {
    hide OrByte, FlagBits, Or;
    OrBits(FlagBits(h), h.opcode);
    FlagBitsAre(h);
  }

  // ------------------------------------------------------------- reading

  datatype Result<+T> = Ok(value: T) | ShortRead

  datatype Frame = Frame(header: WsHeader, payload: seq<byte>, rest: seq<byte>)

  /** The number of bytes of the extended length field. */
  function ExtendedSize(code: byte): nat {
    if code == 126 then 2 else if code == 127 then 8 else 0
  }

  function DecodedLength(code: byte, ext: seq<byte>): nat
    requires |ext| == ExtendedSize(code)
  {
    if code >= 126 then BeValue(ext) else code
  }

  /** One frame at the front of a byte stream. The mask key is read big-endian. */
  function ReadFrame(data: seq<byte>): Result<Frame> {
    if |data| < 2 then ShortRead else
      var code: byte := data[1] % 128;
      var masked := data[1] / 128 == 1;
      var e := ExtendedSize(code);
      var d := data[2..];
      if |d| < e then ShortRead else
        var length := DecodedLength(code, d[..e]);
        var k := if masked then 4 else 0;
        var d' := d[e..];
        if |d'| < k then ShortRead else
          var key := d'[..k];
          var body := d'[k..];
          if |body| < length then ShortRead else
            Ok(Frame(ReadHeader(data[0], length, masked, BeValue(key)),
                     if masked then Masked(body[..length], key, 0) else body[..length],
                     body[length..]))
  }

  function ReadHeader(b0: byte, length: nat, masked: bool, maskKey: nat): WsHeader {
    WsHeader(b0 / 128 == 1, b0 / 64 % 2 == 1, b0 / 32 % 2 == 1, b0 / 16 % 2 == 1, b0 % 16,
             length, masked, maskKey)
  }

  /** The bytes a reader still has to deliver. */
  class Reader {
    var rest: seq<byte>

    constructor (data: seq<byte>)
      ensures rest == data
    {
      rest := data;
    }

    /** io.ReadFull: n bytes, or an error with everything consumed. */
    method ReadFull(n: nat) returns (r: Result<array<byte>>)
      modifies this
      ensures |old(rest)| < n ==> r == ShortRead && rest == []
      ensures n <= |old(rest)| ==>
                r.Ok? && fresh(r.value) && r.value[..] == old(rest)[..n] && rest == old(rest)[n..]
    {
      if |rest| < n {
        rest := [];
        return ShortRead;
      }
      var buf := new byte[n](_ => 0);
      PutBytes(buf, 0, rest[..n]);
      rest := rest[n..];
      return Ok(buf);
    }
  }

  method ReadWsPayload(r: Reader) returns (payload: Result<seq<byte>>)
    modifies r
    ensures match ReadFrame(old(r.rest))
            case ShortRead => payload == ShortRead
            case Ok(f) => payload == Ok(f.payload) && r.rest == f.rest
  {
    hide Masked, BeValue, BeBytes;
    var head := r.ReadFull(2);
    if head.ShortRead? {
      return ShortRead;
    }
    var b1 := head.value[1];
    var masked := b1 / 128 == 1;
    var length: nat := b1 % 128;
    if length == 126 {
      var ext := r.ReadFull(2);
      if ext.ShortRead? {
        return ShortRead;
      }
      length := BeValue(ext.value[..]);
    } else if length == 127 {
      var ext := r.ReadFull(8);
      if ext.ShortRead? {
        return ShortRead;
      }
      length := BeValue(ext.value[..]);
    }
    var maskKey := 0;
    if masked {
      var key := r.ReadFull(4);
      if key.ShortRead? {
        return ShortRead;
      }
      maskKey := BeValue(key.value[..]);
      BeOfValue(key.value[..]);
    }
    var body := r.ReadFull(length);
    if body.ShortRead? {
      return ShortRead;
    }
    if masked {
      Cipher(body.value, BeBytes(maskKey, 4), 0);
    }
    return Ok(body.value[..]);
  }

  /** A frame as it is sent: header, then the body, masked when the header says so. */
  function Sent(h: WsHeader, payload: seq<byte>): (s: seq<byte>)
    ensures |s| >= 2
  {
    HeaderBytes(h) + if h.masked then Masked(payload, LeBytes(h.maskKey, 4), 0) else payload
  }

  /** What is sent, part by part, and the first two bytes of it. */
  lemma SentParts(h: WsHeader, payload: seq<byte>, rest: seq<byte>)
    requires h.payloadLength == |payload|
    ensures var key := if h.masked then LeBytes(h.maskKey, 4) else [];
            var body := if h.masked then Masked(payload, key, 0) else payload;
            Sent(h, payload) + rest == HeaderBytes(h)[..2] + (ExtendedLength(h.payloadLength) + (key + (body + rest)))
    ensures HeaderBytes(h)[1] as int == 128 * Bit(h.masked) + LengthCode(h.payloadLength) as int
    ensures HeaderBytes(h)[..2] == [HeaderBytes(h)[0], HeaderBytes(h)[1]]
  {
    hide Masked, OrByte, BeBytes, LeBytes, FlagBits, ExtendedLength;
    var first: seq<byte> := [OrByte(FlagBits(h), h.opcode), 128 * Bit(h.masked) + LengthCode(h.payloadLength)];
    var ext := ExtendedLength(h.payloadLength);
    var key := if h.masked then LeBytes(h.maskKey, 4) else [];
    assert HeaderBytes(h)[..2] == first;
    Regroup4(first, ext, key, (if h.masked then Masked(payload, key, 0) else payload) + rest);
  }

  /** Reading what was sent gives the payload back and leaves the rest of the
      stream, for all three length encodings, masked or not and whatever the
      opcode. Every header field but the mask key comes back too if and only if
      the opcode has 4 bits; the key, written little-endian, is read big-endian. */
  lemma ReadInvertsMake(h: WsHeader, payload: seq<byte>, rest: seq<byte>)
    requires h.Ranged() && h.payloadLength == |payload|
    ensures var r := ReadFrame(Sent(h, payload) + rest);
            && r.Ok?
            && r.value.payload == payload
            && r.value.rest == rest
            && (h.opcode < 16 <==>
                  r.value.header == h.(maskKey := if h.masked then BeValue(LeBytes(h.maskKey, 4)) else 0))
  {
    hide Masked, OrByte, BeBytes, LeBytes, BeValue, FlagBits, LengthCode, ExtendedLength, ReadHeader,
      DecodedLength, ReadFrame, Sent;
    SentParts(h, payload, rest);
    hide HeaderBytes;
    var n := h.payloadLength;
    var ext := ExtendedLength(n);
    var key := if h.masked then LeBytes(h.maskKey, 4) else [];
    var body := if h.masked then Masked(payload, key, 0) else payload;
    var head := HeaderBytes(h);
    SecondByte(h.masked, n);
    var d2 := body + rest;
    var d1 := key + d2;
    var d0 := ext + d1;
    var data := head[..2] + d0;
    Cut(head[..2], d0);
    Cut(ext, d1);
    Cut(key, d2);
    Cut(body, rest);
    ReadFrameParts(data, d0, d1, d2, ext, key, body, rest);
    if h.masked {
      MaskedInvolutive(payload, key, 0);
    } else {
      EmptyValue();
    }
    if h.opcode < 16 {
      FirstByte(h, n, BeValue(key));
    } else {
      OpcodeHasFourBits(data[0], n, h.masked, BeValue(key));
    }
  }

  lemma OpcodeHasFourBits(b0: byte, length: nat, masked: bool, maskKey: nat)
    ensures ReadHeader(b0, length, masked, maskKey).opcode < 16
  {
  }

  /** Reading a frame given by its parts. */
  lemma ReadFrameParts(data: seq<byte>, d0: seq<byte>, d1: seq<byte>, d2: seq<byte>,
                       ext: seq<byte>, key: seq<byte>, body: seq<byte>, rest: seq<byte>)
    requires |data| >= 2 && data[2..] == d0
    requires |ext| == ExtendedSize(data[1] % 128) <= |d0| && d0[..|ext|] == ext && d0[|ext|..] == d1
    requires |key| == (if data[1] / 128 == 1 then 4 else 0) <= |d1| && d1[..|key|] == key && d1[|key|..] == d2
    requires |body| == DecodedLength(data[1] % 128, ext) <= |d2| && d2[..|body|] == body && d2[|body|..] == rest
    ensures ReadFrame(data)
         == Ok(Frame(ReadHeader(data[0], |body|, |key| == 4, BeValue(key)),
                     if |key| == 4 then Masked(body, key, 0) else body, rest))
  {
    hide Masked, BeValue, ReadHeader, DecodedLength;
  }

  lemma EmptyValue()
    ensures BeValue([]) == 0
  {
  }

  /** The second byte and the extended length give the mask bit and the length back. */
  lemma SecondByte(masked: bool, n: nat)
    requires n < TWO64
    ensures var b: byte := 128 * Bit(masked) + LengthCode(n);
            b % 128 == LengthCode(n) && (b / 128 == 1 <==> masked)
    ensures |ExtendedLength(n)| == ExtendedSize(LengthCode(n))
    ensures DecodedLength(LengthCode(n), ExtendedLength(n)) == n
  {
    hide BeValue, BeBytes;
    assert Pow256(2) == 0x10000 && Pow256(8) == TWO64;
    if n > 0xFFFF {
      BeRoundTrip(n, 8);
    } else if n >= 126 {
      BeRoundTrip(n, 2);
    }
  }

  /** An opcode below 16 leaves the flag bits alone. */
  lemma FirstByte(h: WsHeader, length: nat, key: nat)
    requires h.opcode < 16
    ensures ReadHeader(HeaderBytes(h)[0], length, h.masked, key)
         == h.(payloadLength := length, maskKey := key)
  {
    hide Or, OrByte, BeBytes, LeBytes, FlagBits, LengthCode, ExtendedLength;
    FlagsAboveOpcode(h);
    assert Pow2(4) == 16;
    OrAdds(FlagBits(h) / 16, h.opcode, 4);
  }

  lemma FlagsAboveOpcode(h: WsHeader)
    requires h.opcode < 16
    ensures FlagBits(h) == 16 * (FlagBits(h) / 16) && FlagBits(h) + h.opcode < 256
    ensures ReadHeader(FlagBits(h) + h.opcode, h.payloadLength, h.masked, h.maskKey) == h
  {
    hide Bit;
    var f := FlagBits(h);
    BitsOf(Bit(h.fin), Bit(h.rsv1), Bit(h.rsv2), Bit(h.rsv3), h.opcode, f + h.opcode);
    BitsOf(Bit(h.fin), Bit(h.rsv1), Bit(h.rsv2), Bit(h.rsv3), 0, f);
  }

  lemma BitsOf(f: nat, r1: nat, r2: nat, r3: nat, low: nat, b: nat)
    requires f < 2 && r1 < 2 && r2 < 2 && r3 < 2 && low < 16
    requires b == 128 * f + 64 * r1 + 32 * r2 + 16 * r3 + low
    ensures && b / 16 == 8 * f + 4 * r1 + 2 * r2 + r3 && b % 16 == low && b / 32 == 4 * f + 2 * r1 + r2
            && b / 64 == 2 * f + r1 && b / 128 == f
            && b / 16 % 2 == r3 && b / 32 % 2 == r2 && b / 64 % 2 == r1
  {
  }

  /** A frame that is cut short anywhere is a short read. */
  lemma CutFrameIsShort(h: WsHeader, payload: seq<byte>, n: nat)
    requires h.Ranged() && h.payloadLength == |payload| && n < |Sent(h, payload)|
    ensures ReadFrame(Sent(h, payload)[..n]) == ShortRead
  {
    hide Masked, OrByte, BeBytes, LeBytes, BeValue, FlagBits, LengthCode, ExtendedLength, ReadHeader,
      DecodedLength, ReadFrame, Sent;
    SentParts(h, payload, []);
    hide HeaderBytes;
    SecondByte(h.masked, h.payloadLength);
    var ext := ExtendedLength(h.payloadLength);
    var key := if h.masked then LeBytes(h.maskKey, 4) else [];
    var body := if h.masked then Masked(payload, key, 0) else payload;
    var head := HeaderBytes(h)[..2];
    assert Sent(h, payload) + [] == Sent(h, payload) && body + [] == body;
    PrefixIsShort(head, ext, key, body, n);
  }

  /** The same of a frame given by its parts. */
  lemma PrefixIsShort(head: seq<byte>, ext: seq<byte>, key: seq<byte>, body: seq<byte>, n: nat)
    requires |head| == 2 && |ext| == ExtendedSize(head[1] % 128) && |key| == (if head[1] / 128 == 1 then 4 else 0)
    requires |body| == DecodedLength(head[1] % 128, ext) && n < |head + (ext + (key + body))|
    ensures ReadFrame((head + (ext + (key + body)))[..n]) == ShortRead
  {
    hide Masked, BeValue, ReadHeader, DecodedLength;
    var data := (head + (ext + (key + body)))[..n];
    if n >= 2 {
      assert data[1] == head[1];
      var d := data[2..];
      assert d == (ext + (key + body))[..n - 2];
      if |d| >= |ext| {
        assert d[..|ext|] == ext;
      }
    }
  }
}
