/** Bytes, machine integers and the bit operations the other modules share.
    A byte is an integer below 256; fixed-width integers are naturals that
    are truncated explicitly where the program truncates them. */
module Bytes {
  type byte = b: int | 0 <= b < 256

  datatype Option<+T> = None | Some(value: T)

  const TWO32 := 0x1_0000_0000
  const TWO64 := 0x1_0000_0000_0000_0000

  // ------------------------------------------------------------ division

  lemma DivMod(v: nat, d: nat)
    requires d > 0
    ensures v == d * (v / d) + v % d && v % d < d
  {
  }

  lemma DivTwice(v: nat, d: nat, p: nat)
    requires d > 0 && p > 0 && d * p > 0
    ensures v / d / p == v / (d * p)
  {
    DivMod(v, d);
    DivMod(v / d, p);
    TwoDigits(v, d, p, v / d, v % d, v / d / p, v / d % p);
    DivUnique(v, d * p, v / d / p, d * (v / d % p) + v % d);
  }

  lemma TwoDigits(v: nat, d: nat, p: nat, w: nat, rem: nat, q: nat, r: nat)
    requires v == d * w + rem && rem < d && w == p * q + r && r < p
    ensures v == (d * p) * q + (d * r + rem) && d * r + rem < d * p
  {
    Scale(d, p, q, r);
    Below(d, p, r, rem);
  }

  lemma Scale(d: nat, p: nat, q: nat, r: nat)
    ensures d * (p * q + r) == (d * p) * q + d * r
  {
  }

  lemma Below(d: nat, p: nat, r: nat, low: nat)
    requires r < p && low < d
    ensures d * r + low < d * p
  {
    Distribute(d, p, r + 1);
    Distribute(d, r + 1, r);
    if p > r + 1 {
      Grows(d, p - (r + 1));
    }
  }

  lemma DivUnique(v: nat, d: nat, q: nat, low: nat)
    requires d > 0 && v == d * q + low && low < d
    ensures v / d == q
  {
    DivMod(v, d);
    Apart(d, v / d, q, v % d, low);
  }

  lemma Apart(d: nat, e: nat, q: nat, rem: nat, low: nat)
    requires rem < d && low < d && d * e + rem == d * q + low
    ensures e == q
  {
    Distribute(d, e, q);
    if e > q {
      Grows(d, e - q);
    } else if e < q {
      Grows(d, q - e);
    }
  }

  lemma Distribute(d: int, a: int, b: int)
    ensures d * (a - b) == d * a - d * b
  {
  }

  lemma Grows(d: nat, e: int)
    requires e >= 1
    ensures d * e >= d && d * -e + d <= 0
  {
  }

  // ---------------------------------------------------------------- bits

  function Pow2(k: nat): (p: nat)
    ensures p > 0
  {
    if k == 0 then 1 else 2 * Pow2(k - 1)
  }

  /** Bitwise exclusive or. */
  function Xor(a: nat, b: nat): nat
    decreases a + b
  {
    if a == 0 && b == 0 then 0 else (a + b) % 2 + 2 * Xor(a / 2, b / 2)
  }

  /** Bitwise or. */
  function Or(a: nat, b: nat): nat
    decreases a + b
  {
    if a == 0 && b == 0 then 0 else OrBit(a, b) + 2 * Or(a / 2, b / 2)
  }

  function OrBit(a: nat, b: nat): nat {
    if a % 2 == 1 || b % 2 == 1 then 1 else 0
  }

  lemma {:induction false} XorBounded(a: nat, b: nat, k: nat)
    requires a < Pow2(k) && b < Pow2(k)
    ensures Xor(a, b) < Pow2(k)
  {
    if k > 0 {
      XorBounded(a / 2, b / 2, k - 1);
    }
  }

  lemma {:induction false} OrBounded(a: nat, b: nat, k: nat)
    requires a < Pow2(k) && b < Pow2(k)
    ensures Or(a, b) < Pow2(k)
  {
    if k > 0 {
      OrBounded(a / 2, b / 2, k - 1);
    }
  }

  lemma {:induction false} XorStep(a: nat, b: nat)
    ensures Xor(a, b) == (a + b) % 2 + 2 * Xor(a / 2, b / 2)
  {
  }

  /** Exclusive or with the same value twice gives the first value back. */
  lemma {:induction false} XorInvolutive(a: nat, b: nat)
    ensures Xor(Xor(a, b), b) == a
    decreases a + b
  {
    hide Xor;
    if a + b > 0 {
      var bit := (a + b) % 2;
      XorStep(a, b);
      LowBit(bit, Xor(a / 2, b / 2));
      XorStep(Xor(a, b), b);
      XorInvolutive(a / 2, b / 2);
      BitBack(a, b, bit);
      assert (Xor(a, b) + b) % 2 == (bit + b) % 2 by {
        SameParity(Xor(a, b), bit, b);
      }
    } else {
      XorZero();
    }
  }

  lemma {:induction false} BitBack(a: nat, b: nat, bit: nat)
    requires bit == (a + b) % 2
    ensures (bit + b) % 2 == a % 2
  {
  }

  lemma {:induction false} SameParity(x: nat, bit: nat, b: nat)
    requires x % 2 == bit
    ensures (x + b) % 2 == (bit + b) % 2
  {
  }

  lemma {:induction false} XorZero()
    ensures Xor(0, 0) == 0
  {
  }

  lemma {:induction false} LowBit(bit: nat, x: nat)
    requires bit < 2
    ensures (bit + 2 * x) / 2 == x && (bit + 2 * x) % 2 == bit
  {
  }

  lemma {:induction false} Halves(a: nat, c: nat)
    ensures (a + 2 * c) / 2 == a / 2 + c && (a + 2 * c) % 2 == a % 2
  {
  }

  lemma {:induction false} DoubleShift(p: nat, x: nat)
    ensures 2 * (p * x) == (2 * p) * x
  {
  }

  /** Exclusive or works on the low k bits and on the rest independently. */
  lemma {:induction false} XorSplit(a: nat, x: nat, b: nat, y: nat, k: nat)
    requires a < Pow2(k) && b < Pow2(k)
    ensures Xor(a + Pow2(k) * x, b + Pow2(k) * y) == Xor(a, b) + Pow2(k) * Xor(x, y)
  {
    hide Xor;
    if k == 0 {
      XorZero();
    } else {
      XorSplit(a / 2, x, b / 2, y, k - 1);
      var p := Pow2(k - 1);
      DoubleShift(p, x);
      DoubleShift(p, y);
      DoubleShift(p, Xor(x, y));
      XorStep(a, b);
      XorOfHalves(a, p * x, b, p * y);
    }
  }

  lemma {:induction false} XorOfHalves(a: nat, c: nat, b: nat, d: nat)
    ensures Xor(a + 2 * c, b + 2 * d) == (a + b) % 2 + 2 * Xor(a / 2 + c, b / 2 + d)
  {
    hide Xor;
    XorStep(a + 2 * c, b + 2 * d);
    Halves(a, c);
    Halves(b, d);
    Halves(a + b, c + d);
  }

  /** Setting bits below the lowest set bit of a value adds them. */
  lemma {:induction false} OrAdds(x: nat, y: nat, k: nat)
    requires y < Pow2(k)
    ensures Or(Pow2(k) * x, y) == Pow2(k) * x + y
  {
    hide Or;
    if k == 0 {
      OrZero(x);
    } else {
      OrAdds(x, y / 2, k - 1);
      var p := Pow2(k - 1);
      DoubleShift(p, x);
      OrStep(2 * (p * x), y);
      Halves(0, p * x);
    }
  }

  lemma {:induction false} OrStep(a: nat, b: nat)
    ensures Or(a, b) == OrBit(a, b) + 2 * Or(a / 2, b / 2)
  {
  }

  lemma {:induction false} OrZero(x: nat)
    ensures Or(x, 0) == x
  {
    if x > 0 {
      OrZero(x / 2);
    }
  }

  lemma {:induction false} PowStep(k: nat)
    ensures Pow2(k) == if k == 0 then 1 else 2 * Pow2(k - 1)
  {
  }

  /** Bit k of an exclusive or: the bits of the two differ. */
  lemma {:induction false} XorAtBit(a: nat, b: nat, k: nat)
    ensures Xor(a, b) / Pow2(k) % 2 == (a / Pow2(k) + b / Pow2(k)) % 2
    decreases k
  {
    hide Xor, Pow2;
    XorStep(a, b);
    LowBit((a + b) % 2, Xor(a / 2, b / 2));
    PowStep(k);
    if k > 0 {
      XorAtBit(a / 2, b / 2, k - 1);
      DivTwice(a, 2, Pow2(k - 1));
      DivTwice(b, 2, Pow2(k - 1));
      DivTwice(Xor(a, b), 2, Pow2(k - 1));
    }
  }

  /** Bit k of an or: it is set in either. */
  lemma {:induction false} OrAtBit(a: nat, b: nat, k: nat)
    ensures Or(a, b) / Pow2(k) % 2 == if a / Pow2(k) % 2 == 1 || b / Pow2(k) % 2 == 1 then 1 else 0
    decreases k
  {
    hide Or, Pow2;
    OrStep(a, b);
    LowBit(OrBit(a, b), Or(a / 2, b / 2));
    PowStep(k);
    if k > 0 {
      OrAtBit(a / 2, b / 2, k - 1);
      DivTwice(a, 2, Pow2(k - 1));
      DivTwice(b, 2, Pow2(k - 1));
      DivTwice(Or(a, b), 2, Pow2(k - 1));
    }
  }

  function XorByte(a: byte, b: byte): (r: byte)
    ensures r == Xor(a, b)
  {
    XorBounded(a, b, 8);
    Xor(a, b)
  }

  function OrByte(a: byte, b: byte): (r: byte)
    ensures r == Or(a, b)
  {
    OrBounded(a, b, 8);
    Or(a, b)
  }

  // -------------------------------------------------- little and big endian

  function Pow256(k: nat): (p: nat)
    ensures p > 0
  {
    if k == 0 then 1 else 256 * Pow256(k - 1)
  }

  function LeValue(s: seq<byte>): nat {
    if s == [] then 0 else s[0] + 256 * LeValue(s[1..])
  }

  function LeBytes(v: nat, width: nat): (s: seq<byte>)
    ensures |s| == width
  {
    if width == 0 then [] else [v % 256] + LeBytes(v / 256, width - 1)
  }

  function BeValue(s: seq<byte>): nat {
    if s == [] then 0 else 256 * BeValue(s[..|s| - 1]) + s[|s| - 1]
  }

  function BeBytes(v: nat, width: nat): (s: seq<byte>)
    ensures |s| == width
  {
    if width == 0 then [] else BeBytes(v / 256, width - 1) + [v % 256]
  }

  lemma {:induction false} Digit(d: byte, v: nat)
    ensures (d + 256 * v) / 256 == v && (d + 256 * v) % 256 == d
  {
  }

  lemma {:induction false} LeRoundTrip(s: seq<byte>)
    ensures LeBytes(LeValue(s), |s|) == s
  {
    if s != [] {
      LeRoundTrip(s[1..]);
      Digit(s[0], LeValue(s[1..]));
      assert LeBytes(LeValue(s), |s|) == [s[0]] + LeBytes(LeValue(s[1..]), |s[1..]|);
    }
  }

  lemma {:induction false} BeRoundTrip(v: nat, width: nat)
    requires v < Pow256(width)
    ensures BeValue(BeBytes(v, width)) == v
  {
    if width > 0 {
      BeRoundTrip(v / 256, width - 1);
      assert BeBytes(v, width)[..width - 1] == BeBytes(v / 256, width - 1);
    }
  }

  lemma {:induction false} BeOfValue(s: seq<byte>)
    ensures BeBytes(BeValue(s), |s|) == s && BeValue(s) < Pow256(|s|)
  {
    if s != [] {
      var n := |s| - 1;
      BeOfValue(s[..n]);
      Digit(s[n], BeValue(s[..n]));
      assert BeBytes(BeValue(s), |s|) == BeBytes(BeValue(s[..n]), n) + [s[n]];
    }
  }

  /** The byte at each place of a big-endian number, the highest first. */
  lemma {:induction false} BeByteAt(v: nat, width: nat, i: nat)
    requires i < width
    ensures BeBytes(v, width)[i] as int == v / Pow256(width - 1 - i) % 256
  {
    if i == width - 1 {
      assert Pow256(0) == 1;
    } else {
      BeByteAt(v / 256, width - 1, i);
      DivTwice(v, 256, Pow256(width - 2 - i));
    }
  }

  /** And of a little-endian one, the lowest first. */
  lemma {:induction false} LeByteAt(v: nat, width: nat, i: nat)
    requires i < width
    ensures LeBytes(v, width)[i] as int == v / Pow256(i) % 256
  {
    if i == 0 {
      assert Pow256(0) == 1;
    } else {
      LeByteAt(v / 256, width - 1, i - 1);
      DivTwice(v, 256, Pow256(i - 1));
    }
  }

  /** The base-256 digits of a number, the highest first. */
  ghost predicate HighFirst(s: seq<byte>, v: nat) {
    forall i :: 0 <= i < |s| ==> s[i] as int == v / Pow256(|s| - 1 - i) % 256
  }

  /** The same, the lowest first. */
  ghost predicate LowFirst(s: seq<byte>, v: nat) {
    forall i :: 0 <= i < |s| ==> s[i] as int == v / Pow256(i) % 256
  }

  lemma EndianDigits(v: nat, width: nat)
    ensures HighFirst(BeBytes(v, width), v) && LowFirst(LeBytes(v, width), v)
  {
    hide BeBytes, LeBytes;
    forall i: nat | i < width
      ensures BeBytes(v, width)[i] as int == v / Pow256(width - 1 - i) % 256
      ensures LeBytes(v, width)[i] as int == v / Pow256(i) % 256
    {
      BeByteAt(v, width, i);
      LeByteAt(v, width, i);
    }
  }

  // ----------------------------------------------------------- sequences

  function Zeros(n: nat): (z: seq<byte>)
    ensures |z| == n && forall i :: 0 <= i < n ==> z[i] == 0
  {
    seq(n, _ => 0)
  }

  lemma Cut<T>(a: seq<T>, b: seq<T>)
    ensures (a + b)[..|a|] == a && (a + b)[|a|..] == b
  {
  }

  lemma Regroup4<T>(a: seq<T>, b: seq<T>, c: seq<T>, d: seq<T>)
    ensures a + b + c + d == a + (b + (c + d))
    ensures b == [] ==> a + b + c + d == a + c + d
  {
  }

  lemma DropTwice<T>(s: seq<T>, i: nat, j: nat)
    requires i + j <= |s|
    ensures s[i..][j..] == s[i + j..] && s[i..][..j] == s[i..i + j]
  {
  }

  /** Go's copy of a whole source into a slice at a position. */
  method PutBytes<T>(buf: array<T>, at: nat, s: seq<T>)
    requires at + |s| <= buf.Length
    modifies buf
    ensures buf[..] == old(buf[..at]) + s + old(buf[at + |s|..])
  {
    for i := 0 to |s|
      invariant forall k :: 0 <= k < i ==> buf[at + k] == s[k]
      invariant forall k :: 0 <= k < at || at + i <= k < buf.Length ==> buf[k] == old(buf[k])
    {
      buf[at + i] := s[i];
    }
  }
}
