/** Splitting and joining NAL units in the Annex B byte stream format
    (section B.1 of ITU-T H.264) and in the length-prefixed AVCC format. */
module Nalu {
  import opened Bytes

  type Nal = seq<byte>

  datatype Error = ShortBuffer | Avc

  /** The units handed to the callback, and the error returned, if any. */
  datatype Split = Split(nals: seq<Nal>, error: Option<Error>)

  // ---------------------------------------------------------- start codes

  /** 00 00 01 at position k. */
  predicate CodeAt(s: seq<byte>, k: nat) {
    k + 2 < |s| && s[k] == 0 && s[k + 1] == 0 && s[k + 2] == 1
  }

  ghost predicate NoCode(s: seq<byte>) {
    forall k: nat :: !CodeAt(s, k)
  }

  datatype StartCode = NotFound | Found(pos: nat, length: nat)

  /** The leftmost start code together with its whole run of zeros. */
  ghost predicate IsFirst(s: seq<byte>, c: StartCode) {
    match c
    case NotFound => NoCode(s)
    case Found(pos, length) =>
      && length >= 3 && pos + length <= |s|
      && CodeAt(s, pos + length - 3)
      && (forall k: nat :: k < pos + length - 3 ==> !CodeAt(s, k))
      && (forall i :: pos <= i < pos + length - 1 ==> s[i] == 0)
      && (pos > 0 ==> s[pos - 1] != 0)
  }

  /** The scan, with `count` zeros seen just before position i. */
  function Scan(s: seq<byte>, i: nat, count: nat): StartCode
    requires count <= i <= |s|
    decreases |s| - i
  {
    if i == |s| then NotFound
    else if s[i] == 0 then Scan(s, i + 1, count + 1)
    else if s[i] == 1 && count >= 2 then Found(i - count, count + 1)
    else Scan(s, i + 1, 0)
  }

  function Find(s: seq<byte>): StartCode {
    Scan(s, 0, 0)
  }

  lemma {:induction false} ScanIsFirst(s: seq<byte>, i: nat, count: nat)
    requires count <= i <= |s|
    requires forall j :: i - count <= j < i ==> s[j] == 0
    requires i > count ==> s[i - count - 1] != 0
    requires forall k: nat :: k + 2 < i ==> !CodeAt(s, k)
    ensures IsFirst(s, Scan(s, i, count))
    decreases |s| - i
  {
    if i < |s| {
      if s[i] == 0 {
        ScanIsFirst(s, i + 1, count + 1);
      } else if s[i] == 1 && count >= 2 {
        assert CodeAt(s, i - 2);
      } else {
        ScanIsFirst(s, i + 1, 0);
      }
    }
  }

  lemma FindIsFirst(s: seq<byte>)
    ensures IsFirst(s, Find(s))
  {
    ScanIsFirst(s, 0, 0);
  }

  /** There is only one leftmost start code. */
  lemma FirstIsUnique(s: seq<byte>, c: StartCode)
    requires IsFirst(s, c)
    ensures Find(s) == c
  {
    FindIsFirst(s);
    var d := Find(s);
    if c.Found? && d.Found? {
      assert c.pos + c.length == d.pos + d.length;
    }
  }

  /** Position and length of the first start code from `start` on, or -1 and -1. */
  method IterateNaluStartCode(nalu: seq<byte>, start: nat) returns (pos: int, length: int)
    ensures start > |nalu| ==> pos == -1 && length == -1
    ensures start <= |nalu| ==>
              match Find(nalu[start..])
              case NotFound => pos == -1 && length == -1
              case Found(p, l) => pos == start + p && length == l
  {
    if start >= |nalu| {
      return -1, -1;
    }
    var count := 0;
    ghost var rest := nalu[start..];
    for i := 0 to |nalu| - start
      invariant count <= i && Scan(rest, i, count) == Find(rest)
    {
      match nalu[start + i] {
        case 0 =>
          count := count + 1;
        case 1 =>
          if count >= 2 {
            return start + i - count, count + 1;
          }
          count := 0;
        case _ =>
          count := 0;
      }
    }
    return -1, -1;
  }

  // --------------------------------------------------------------- Annex B

  /** The units of a stream from just after a start code on. */
  function SplitBody(t: seq<byte>): Split
    decreases |t|
  {
    match Find(t)
    case NotFound => if t == [] then Split([], Some(Avc)) else Split([t], None)
    case Found(pos, length) =>
      FindIsFirst(t);
      var rest := SplitBody(t[pos + length..]);
      Split((if pos > 0 then [t[..pos]] else []) + rest.nals, rest.error)
  }

  /** Everything before the first start code is skipped; without any start
      code the whole input is handed on, and that is an error. */
  function SplitAnnexb(s: seq<byte>): Split {
    match Find(s)
    case NotFound => Split([s], Some(Avc))
    case Found(pos, length) => FindIsFirst(s); SplitBody(s[pos + length..])
  }

  lemma SplitBodyStep(t: seq<byte>)
    requires Find(t).Found?
    ensures var c := Find(t);
            && c.length >= 3 && c.pos + c.length <= |t|
            && var r := SplitBody(t[c.pos + c.length..]);
            SplitBody(t) == Split((if c.pos > 0 then [t[..c.pos]] else []) + r.nals, r.error)
  {
    FindIsFirst(t);
  }

  lemma SplitBodyEnd(t: seq<byte>)
    requires Find(t) == NotFound
    ensures SplitBody(t) == if t == [] then Split([], Some(Avc)) else Split([t], None)
  {
  }

  /** IterateNaluAnnexb with a callback that collects. */
  method SplitNaluAnnexb(input: Option<seq<byte>>) returns (r: Split)
    ensures r == if input == None then Split([], Some(ShortBuffer)) else SplitAnnexb(input.value)
  {
    hide Find, SplitBody, IsFirst, NoCode, CodeAt, Scan;
    if input == None {
      return Split([], Some(ShortBuffer));
    }
    var s := input.value;
    assert s[0..] == s;
    var prePos, preLength := IterateNaluStartCode(s, 0);
    if prePos == -1 {
      Rescan(s);
      return Split([s], Some(Avc));
    }
    var nals: seq<Nal> := [];
    FoundInside(s);
    assert nals + SplitBody(s[prePos + preLength..]).nals == SplitBody(s[prePos + preLength..]).nals;
    while true
      invariant 0 <= prePos && 3 <= preLength && prePos + preLength <= |s|
      invariant SplitAnnexb(s).nals == nals + SplitBody(s[prePos + preLength..]).nals
      invariant SplitAnnexb(s).error == SplitBody(s[prePos + preLength..]).error
      decreases |s| - prePos - preLength
    {
      var start := prePos + preLength;
      ghost var t := s[start..];
      var pos, length := IterateNaluStartCode(s, start);
      if pos == -1 {
        SplitBodyEnd(t);
        if start < |s| {
          nals := nals + [s[start..]];
          return Split(nals, None);
        } else {
          return Split(nals, Some(Avc));
        }
      }
      SplitBodyStep(t);
      DropTwice(s, start, pos - start + length);
      DropTwice(s, start, pos - start);
      UnitsInOrder(nals, s[start..pos], SplitBody(s[pos + length..]).nals);
      if start < pos {
        nals := nals + [s[start..pos]];
      }
      prePos := pos;
      preLength := length;
    }
  }

  lemma UnitsInOrder<T>(a: seq<T>, b: T, c: seq<T>)
    ensures a + [b] + c == a + ([b] + c) && a + ([] + c) == a + c
  {
  }

  /** The search for a first start code at a later position: what is not in the
      whole input is not in any rest of it, so the search never succeeds. */
  method Rescan(s: seq<byte>)
    requires Find(s) == NotFound
  {
    hide Find, SplitBody;
    var i := 1;
    while i < |s| {
      NothingInRest(s, i);
      var p, l := IterateNaluStartCode(s, i);
      if p != -1 {
        assert false;
      }
      i := i + 1;
    }
  }

  lemma NothingInRest(s: seq<byte>, i: nat)
    requires Find(s) == NotFound && i <= |s|
    ensures Find(s[i..]) == NotFound
  {
    hide Find;
    FindIsFirst(s);
    assert forall k: nat :: CodeAt(s[i..], k) ==> CodeAt(s, i + k);
    FirstIsUnique(s[i..], NotFound);
  }

  lemma FoundInside(s: seq<byte>)
    ensures Find(s).Found? ==> Find(s).length >= 3 && Find(s).pos + Find(s).length <= |s|
  {
    FindIsFirst(s);
  }

  // ------------------------------------------------- properties of the split

  /** What every split of a byte stream looks like: units without start codes,
      none empty, and none but the last ending in a zero. */
  ghost predicate WellSplit(nals: seq<Nal>, closed: bool) {
    forall i :: 0 <= i < |nals| ==>
                  && nals[i] != [] && NoCode(nals[i])
                  && (i < |nals| - 1 || closed ==> nals[i][|nals[i]| - 1] != 0)
  }

  lemma {:induction false} SplitBodyIsWell(t: seq<byte>)
    ensures WellSplit(SplitBody(t).nals, SplitBody(t).error != None)
    ensures SplitBody(t).nals == [] ==> SplitBody(t).error != None
    decreases |t|
  {
    hide Find, SplitBody;
    FindIsFirst(t);
    match Find(t)
    case NotFound =>
      SplitBodyEnd(t);
    case Found(pos, length) =>
      SplitBodyStep(t);
      SplitBodyIsWell(t[pos + length..]);
      var nal := t[..pos];
      assert forall k: nat :: CodeAt(nal, k) ==> CodeAt(t, k);
  }

  /** The bytes of the units, with `extra` more for each. */
  function Total(nals: seq<Nal>, extra: nat): nat {
    if nals == [] then 0 else |nals[0]| + extra + Total(nals[1..], extra)
  }

  lemma {:induction false} TotalConcat(a: seq<Nal>, b: seq<Nal>, extra: nat)
    ensures Total(a + b, extra) == Total(a, extra) + Total(b, extra)
  {
    if a == [] {
      assert a + b == b;
    } else {
      assert (a + b)[1..] == a[1..] + b;
      TotalConcat(a[1..], b, extra);
    }
  }

  /** Each unit has a start code of at least three bytes of its own. */
  lemma {:induction false} SplitBodySize(t: seq<byte>)
    ensures Total(SplitBody(t).nals, 3) <= |t| + 3
    decreases |t|
  {
    hide Find, SplitBody;
    FoundInside(t);
    match Find(t)
    case NotFound =>
      SplitBodyEnd(t);
      assert Total([t], 3) == |t| + 3;
    case Found(pos, length) =>
      SplitBodyStep(t);
      SplitBodySize(t[pos + length..]);
      var first := if pos > 0 then [t[..pos]] else [];
      TotalConcat(first, SplitBody(t[pos + length..]).nals, 3);
      assert Total([t[..pos]], 3) == pos + 3;
  }

  /** Whenever a split succeeds there is a unit, none is empty, and each has a
      prefix of at least three bytes of its own in the input. */
  lemma AnnexbSplitFits(s: seq<byte>)
    requires SplitAnnexb(s).error == None
    ensures var nals := SplitAnnexb(s).nals;
            nals != [] && (forall i :: 0 <= i < |nals| ==> nals[i] != []) && Total(nals, 3) <= |s|
  {
    FindIsFirst(s);
    var c := Find(s);
    SplitBodyIsWell(s[c.pos + c.length..]);
    SplitBodySize(s[c.pos + c.length..]);
  }

  // ------------------------------------------------------ joining in Annex B

  /** Units behind start codes; zeros[i] is the number of zeros of the i-th code. */
  function JoinAnnexb(nals: seq<Nal>, zeros: seq<nat>): seq<byte>
    requires |nals| == |zeros|
  {
    if nals == [] then []
    else Zeros(zeros[0]) + [1] + (nals[0] + JoinAnnexb(nals[1..], zeros[1..]))
  }

  lemma Placed(a: seq<byte>, b: seq<byte>, i: nat)
    requires i < |b|
    ensures (a + b)[|a| + i] == b[i]
  {
  }

  /** A unit without start code and trailing zero ends where the next code begins. */
  lemma FindAfterNal(nal: Nal, zeros: nat, rest: seq<byte>)
    requires NoCode(nal) && (nal != [] ==> nal[|nal| - 1] != 0) && zeros >= 2
    ensures Find(nal + (Zeros(zeros) + [1] + rest)) == Found(|nal|, zeros + 1)
  {
    var t := nal + (Zeros(zeros) + [1] + rest);
    var n := |nal|;
    var tail := Zeros(zeros) + [1] + rest;
    forall i | n <= i < n + zeros
      ensures t[i] == 0
    {
      Placed(nal, tail, i - n);
    }
    Placed(nal, tail, zeros);
    assert CodeAt(t, n + zeros - 2);
    assert n > 0 ==> t[n - 1] == nal[n - 1];
    forall k: nat | k < n + zeros - 2
      ensures CodeAt(t, k) ==> CodeAt(nal, k)
    {
    }
    FirstIsUnique(t, Found(n, zeros + 1));
  }

  /** Units that survive a byte stream: without start codes and, unless last,
      without a trailing zero. */
  ghost predicate Streamable(nals: seq<Nal>) {
    forall i :: 0 <= i < |nals| ==>
                  && nals[i] != [] && NoCode(nals[i])
                  && (i < |nals| - 1 ==> nals[i][|nals[i]| - 1] != 0)
  }

  lemma {:induction false} SplitBodyOfJoin(nals: seq<Nal>, zeros: seq<nat>)
    requires |nals| == |zeros| && nals != [] && Streamable(nals)
    requires forall i :: 0 <= i < |zeros| ==> zeros[i] >= 2
    ensures SplitBody(nals[0] + JoinAnnexb(nals[1..], zeros[1..])) == Split(nals, None)
    decreases |nals|
  {
    hide Find, SplitBody;
    var nal, more, codes := nals[0], nals[1..], zeros[1..];
    if more == [] {
      assert nal + JoinAnnexb(more, codes) == nal;
      LastUnit(nal);
      assert nals == [nal];
    } else {
      SplitBodyOfJoin(more, codes);
      var rest := more[0] + JoinAnnexb(more[1..], codes[1..]);
      NextUnit(nal, codes[0], rest);
      assert [nal] + more == nals;
    }
  }

  lemma LastUnit(nal: Nal)
    requires nal != [] && NoCode(nal)
    ensures SplitBody(nal) == Split([nal], None)
  {
    hide Find;
    FirstIsUnique(nal, NotFound);
  }

  lemma NextUnit(nal: Nal, zeros: nat, rest: seq<byte>)
    requires nal != [] && NoCode(nal) && nal[|nal| - 1] != 0 && zeros >= 2
    ensures var r := SplitBody(rest);
            SplitBody(nal + (Zeros(zeros) + [1] + rest)) == Split([nal] + r.nals, r.error)
  {
    hide Find, SplitBody, Zeros;
    var code := Zeros(zeros) + [1];
    var t := nal + (code + rest);
    FindAfterNal(nal, zeros, rest);
    SplitBodyStep(t);
    Cut(nal, code + rest);
    Cut(code, rest);
    DropTwice(t, |nal|, |code|);
  }

  /** Splitting inverts joining, whatever the lengths of the start codes. */
  lemma SplitInvertsJoin(nals: seq<Nal>, zeros: seq<nat>)
    requires |nals| == |zeros| && nals != [] && Streamable(nals)
    requires forall i :: 0 <= i < |zeros| ==> zeros[i] >= 2
    ensures SplitAnnexb(JoinAnnexb(nals, zeros)) == Split(nals, None)
  {
    var rest := nals[0] + JoinAnnexb(nals[1..], zeros[1..]);
    FindAfterNal([], zeros[0], rest);
    var s := JoinAnnexb(nals, zeros);
    assert s == [] + (Zeros(zeros[0]) + [1] + rest);
    assert s[zeros[0] + 1..] == rest;
    SplitBodyOfJoin(nals, zeros);
  }

  // ------------------------------------------------------------------ AVCC

  /** Units behind 4-byte big-endian lengths; the length is cut to 32 bits. */
  function JoinAvcc(nals: seq<Nal>): seq<byte> {
    if nals == [] then [] else BeBytes(|nals[0]| % TWO32, 4) + (nals[0] + JoinAvcc(nals[1..]))
  }

  /** Records of length zero are dropped; anything that does not end exactly at
      the end of a nonempty record is an error. */
  function SplitAvcc(t: seq<byte>): Split
    decreases |t|
  {
    if |t| < 4 then Split([], Some(ShortBuffer))
    else
      var length := BeValue(t[..4]);
      var u := t[4..];
      if u == [] then Split([], Some(ShortBuffer))
      else if length == 0 then SplitAvcc(u)
      else if length < |u| then
        var r := SplitAvcc(u[length..]);
        Split([u[..length]] + r.nals, r.error)
      else if length == |u| then Split([u], None)
      else Split([u], Some(ShortBuffer))
  }

  /** One round of the split, on what is left from a position. */
  lemma SplitAvccAt(s: seq<byte>, pos: nat)
    requires pos + 4 < |s|
    ensures var length := BeValue(s[pos..][..4]);
            var start := pos + 4;
            && (length == 0 ==> SplitAvcc(s[pos..]) == SplitAvcc(s[start..]))
            && (0 < length < |s| - start ==>
                  var r := SplitAvcc(s[start + length..]);
                  SplitAvcc(s[pos..]) == Split([s[start..start + length]] + r.nals, r.error))
            && (length == |s| - start ==> SplitAvcc(s[pos..]) == Split([s[start..]], None))
            && (length > |s| - start ==> SplitAvcc(s[pos..]) == Split([s[start..]], Some(ShortBuffer)))
  {
    hide BeValue;
    var length := BeValue(s[pos..][..4]);
    DropTwice(s, pos, 4);
    if length <= |s| - pos - 4 {
      DropTwice(s, pos + 4, length);
    }
  }

  /** IterateNaluAvcc with a callback that collects. */
  method SplitNaluAvcc(input: Option<seq<byte>>) returns (r: Split)
    ensures r == if input == None then Split([], Some(ShortBuffer)) else SplitAvcc(input.value)
  {
    hide BeValue, SplitAvcc;
    if input == None {
      return Split([], Some(ShortBuffer));
    }
    var s := input.value;
    var nals: seq<Nal> := [];
    var pos := 0;
    assert s[0..] == s && nals + SplitAvcc(s).nals == SplitAvcc(s).nals;
    while true
      invariant pos <= |s|
      invariant nals + SplitAvcc(s[pos..]).nals == SplitAvcc(s).nals
      invariant SplitAvcc(s[pos..]).error == SplitAvcc(s).error
      decreases |s| - pos
    {
      if |s[pos..]| < 4 {
        AvccTooShort(s[pos..]);
        return Split(nals, Some(ShortBuffer));
      }
      var length := BeValue(s[pos..][..4]);
      if pos + 4 == |s| {
        AvccTooShort(s[pos..]);
      } else {
        SplitAvccAt(s, pos);
      }
      pos := pos + 4;
      if pos == |s| {
        return Split(nals, Some(ShortBuffer));
      }
      var epos := pos + length;
      if epos < |s| {
        if length == 0 {
          continue;
        }
        nals := nals + [s[pos..epos]];
        pos := pos + length;
      } else if epos == |s| {
        if length == 0 {
          // a record of length zero cannot end the input: pos would be its end
          assert false;
          return Split(nals, None);
        }
        assert s[pos..epos] == s[pos..];
        nals := nals + [s[pos..epos]];
        return Split(nals, None);
      } else {
        nals := nals + [s[pos..]];
        return Split(nals, Some(ShortBuffer));
      }
    }
  }

  lemma AvccTooShort(t: seq<byte>)
    requires |t| <= 4
    ensures SplitAvcc(t) == Split([], Some(ShortBuffer))
  {
  }

  /** h2645's join: a buffer of the exact size, filled at a moving position. */
  method JoinNaluAvcc(naluList: seq<Nal>) returns (ret: array<byte>)
    ensures fresh(ret) && ret[..] == JoinAvcc(naluList)
  {
    hide JoinAvcc, Total;
    var n := |naluList| * 4;
    assert naluList[..0] == [];
    NoTotal();
    for i := 0 to |naluList|
      invariant n == |naluList| * 4 + Total(naluList[..i], 0)
    {
      TotalPush(naluList, i);
      n := n + |naluList[i]|;
    }
    assert naluList[..|naluList|] == naluList;
    JoinSize(naluList);
    ret := new byte[n](_ => 0);
    var pos := 0;
    JoinNothing();
    for i := 0 to |naluList|
      invariant pos == |JoinAvcc(naluList[..i])| <= n
      invariant ret[..pos] == JoinAvcc(naluList[..i])
    {
      NextFits(naluList, i);
      pos := PutNalu(ret, pos, naluList[i]);
    }
  }

  lemma NoTotal()
    ensures Total([], 0) == 0
  {
  }

  lemma TotalPush(nals: seq<Nal>, i: nat)
    requires i < |nals|
    ensures Total(nals[..i + 1], 0) == Total(nals[..i], 0) + |nals[i]|
  {
    assert nals[..i + 1] == nals[..i] + [nals[i]];
    TotalConcat(nals[..i], [nals[i]], 0);
  }

  /** The next unit is what the join of one more unit adds, and it fits. */
  lemma NextFits(nals: seq<Nal>, i: nat)
    requires i < |nals|
    ensures JoinAvcc(nals[..i + 1]) == JoinAvcc(nals[..i]) + (BeBytes(|nals[i]| % TWO32, 4) + nals[i])
    ensures |JoinAvcc(nals[..i + 1])| <= |JoinAvcc(nals)|
  {
    hide JoinAvcc, BeBytes;
    assert nals[..i + 1] == nals[..i] + [nals[i]];
    assert nals == nals[..i + 1] + nals[i + 1..];
    JoinPush(nals[..i], nals[i]);
    JoinMore(nals[..i + 1], nals[i + 1..]);
  }

  /** One unit behind its length. */
  method PutNalu(buf: array<byte>, pos: nat, nal: Nal) returns (next: nat)
    requires pos + 4 + |nal| <= buf.Length
    modifies buf
    ensures next == pos + 4 + |nal|
    ensures buf[..next] == old(buf[..pos]) + (BeBytes(|nal| % TWO32, 4) + nal)
  {
    hide BeBytes;
    PutBytes(buf, pos, BeBytes(|nal| % TWO32, 4));
    PutBytes(buf, pos + 4, nal);
    next := pos + 4 + |nal|;
  }

  lemma JoinNothing()
    ensures JoinAvcc([]) == []
  {
  }

  lemma {:induction false} JoinSize(nals: seq<Nal>)
    ensures |JoinAvcc(nals)| == Total(nals, 4) == 4 * |nals| + Total(nals, 0)
  {
    if nals != [] {
      JoinSize(nals[1..]);
    }
  }

  lemma {:induction false} JoinMore(a: seq<Nal>, b: seq<Nal>)
    ensures JoinAvcc(a + b) == JoinAvcc(a) + JoinAvcc(b)
  {
    hide BeBytes;
    if a == [] {
      assert a + b == b;
    } else {
      JoinMore(a[1..], b);
      assert (a + b)[1..] == a[1..] + b && (a + b)[0] == a[0];
      JoinIsNested(BeBytes(|a[0]| % TWO32, 4), a[0], JoinAvcc(a[1..]), JoinAvcc(b));
    }
  }

  lemma JoinIsNested<T>(a: seq<T>, b: seq<T>, c: seq<T>, d: seq<T>)
    ensures (a + (b + c)) + d == a + (b + (c + d))
  {
  }

  lemma JoinPush(nals: seq<Nal>, nal: Nal)
    ensures JoinAvcc(nals + [nal]) == JoinAvcc(nals) + (BeBytes(|nal| % TWO32, 4) + nal)
  {
    hide BeBytes;
    JoinMore(nals, [nal]);
    assert [nal][1..] == [];
  }

  /** Nonempty units whose lengths fit in 32 bits. */
  ghost predicate Lengths(nals: seq<Nal>) {
    forall i :: 0 <= i < |nals| ==> 0 < |nals[i]| < TWO32
  }

  /** The AVCC split inverts the join. */
  lemma {:induction false} SplitInvertsJoinAvcc(nals: seq<Nal>)
    requires nals != [] && Lengths(nals)
    ensures SplitAvcc(JoinAvcc(nals)) == Split(nals, None)
    decreases |nals|
  {
    hide BeBytes, BeValue, SplitAvcc;
    var nal, more := nals[0], nals[1..];
    var head := BeBytes(|nal|, 4);
    assert Pow256(4) == TWO32;
    BeRoundTrip(|nal|, 4);
    AvccRecord(head, nal, JoinAvcc(more));
    assert nals == [nal] + more;
    if more != [] {
      SplitInvertsJoinAvcc(more);
      JoinSize(more);
    }
  }

  /** One record and what follows it. */
  lemma AvccRecord(head: seq<byte>, nal: Nal, rest: seq<byte>)
    requires |head| == 4 && BeValue(head) == |nal| > 0
    ensures SplitAvcc(head + (nal + rest))
         == if rest == [] then Split([nal], None)
            else Split([nal] + SplitAvcc(rest).nals, SplitAvcc(rest).error)
  {
    hide BeValue;
    var u := nal + rest;
    var t := head + u;
    Cut(head, u);
    Cut(nal, rest);
    assert rest == [] ==> u == nal;
  }

  /** Whenever the split succeeds there is a unit, none is empty, and each has
      four bytes of its own in the input. */
  lemma {:induction false} AvccSplitFits(t: seq<byte>)
    ensures var r := SplitAvcc(t);
            && (r.error == None ==> r.nals != [])
            && (forall i :: 0 <= i < |r.nals| ==> r.nals[i] != [])
            && Total(r.nals, 4) <= |t|
    decreases |t|
  {
    hide BeValue;
    if |t| > 4 {
      var length := BeValue(t[..4]);
      var u := t[4..];
      if length == 0 {
        AvccSplitFits(u);
      } else if length < |u| {
        AvccSplitFits(u[length..]);
        TotalConcat([u[..length]], SplitAvcc(u[length..]).nals, 4);
        assert Total([u[..length]], 4) == length + 4;
      } else {
        assert Total([u], 4) == |u| + 4;
      }
    }
  }

  // ----------------------------------------------------------- conversions

  /** Units behind 4-byte start codes. */
  function FourByteCodes(nals: seq<Nal>): seq<byte> {
    if nals == [] then [] else Zeros(3) + [1] + (nals[0] + FourByteCodes(nals[1..]))
  }

  datatype Converted = Converted(bytes: seq<byte>, error: Option<Error>)

  function AnnexbOf(x: seq<byte>): Converted {
    Converted(FourByteCodes(SplitAvcc(x).nals), SplitAvcc(x).error)
  }

  function AvccOf(x: seq<byte>): Converted {
    Converted(JoinAvcc(SplitAnnexb(x).nals), SplitAnnexb(x).error)
  }

  const START_CODE_4: seq<byte> := [0, 0, 0, 1]

  method Avcc2Annexb(input: Option<seq<byte>>) returns (r: Converted)
    ensures r == if input == None then Converted([], Some(ShortBuffer)) else AnnexbOf(input.value)
  {
    hide SplitAvcc, FourByteCodes;
    var split := SplitNaluAvcc(input);
    var ret: seq<byte> := [];
    CodesOfNothing();
    for i := 0 to |split.nals|
      invariant ret == FourByteCodes(split.nals[..i])
    {
      CodesPush(split.nals[..i], split.nals[i]);
      assert split.nals[..i + 1] == split.nals[..i] + [split.nals[i]];
      ret := ret + START_CODE_4;
      ret := ret + split.nals[i];
    }
    assert split.nals[..|split.nals|] == split.nals;
    return Converted(ret, split.error);
  }

  method Annexb2Avcc(input: Option<seq<byte>>) returns (r: Converted)
    ensures r == if input == None then Converted([], Some(ShortBuffer)) else AvccOf(input.value)
  {
    hide SplitAnnexb, JoinAvcc, BeBytes;
    var split := SplitNaluAnnexb(input);
    var buf: seq<byte> := [];
    JoinNothing();
    for i := 0 to |split.nals|
      invariant buf == JoinAvcc(split.nals[..i])
    {
      JoinPush(split.nals[..i], split.nals[i]);
      assert split.nals[..i + 1] == split.nals[..i] + [split.nals[i]];
      buf := buf + BeBytes(|split.nals[i]| % TWO32, 4);
      buf := buf + split.nals[i];
    }
    assert split.nals[..|split.nals|] == split.nals;
    return Converted(buf, split.error);
  }

  lemma CodesOfNothing()
    ensures FourByteCodes([]) == []
  {
  }

  lemma {:induction false} CodesPush(nals: seq<Nal>, nal: Nal)
    ensures FourByteCodes(nals + [nal]) == FourByteCodes(nals) + START_CODE_4 + nal
  {
    assert Zeros(3) + [1] == START_CODE_4;
    if nals == [] {
      assert nals + [nal] == [nal] && [nal][1..] == [];
    } else {
      CodesPush(nals[1..], nal);
      assert (nals + [nal])[1..] == nals[1..] + [nal];
    }
  }

  lemma {:induction false} CodesAreJoin(nals: seq<Nal>)
    ensures FourByteCodes(nals) == JoinAnnexb(nals, seq(|nals|, _ => 3))
  {
    if nals != [] {
      CodesAreJoin(nals[1..]);
      assert seq(|nals|, _ => 3)[1..] == seq(|nals| - 1, _ => 3);
    }
  }

  /** Pieces of a unit followed by a start code are no longer than the unit. */
  lemma {:induction false} PiecesOfUnit(nal: Nal, rest: seq<byte>)
    ensures forall p :: p in SplitBody(nal + (Zeros(3) + [1] + rest)).nals ==>
                          |p| <= |nal| || p in SplitBody(rest).nals
    decreases |nal|
  {
    hide Find, SplitBody;
    var code := Zeros(3) + [1];
    var t := nal + (code + rest);
    var n := |nal|;
    FindIsFirst(t);
    assert t[n] == 0 && t[n + 1] == 0 && t[n + 2] == 0 && t[n + 3] == 1;
    assert CodeAt(t, n + 1);
    SplitBodyStep(t);
    var c := Find(t);
    var e := c.pos + c.length;
    assert e <= n + 4 && t[e - 1] == 1;
    if e <= n {
      assert t[e..] == nal[e..] + (code + rest);
      PiecesOfUnit(nal[e..], rest);
    } else {
      assert e == n + 4;
      assert t[e..] == rest;
    }
  }

  lemma {:induction false} PiecesOfUnits(nals: seq<Nal>, bound: nat)
    requires nals != [] && forall i :: 0 <= i < |nals| ==> |nals[i]| <= bound
    ensures forall p :: p in SplitBody(nals[0] + FourByteCodes(nals[1..])).nals ==> |p| <= bound
    decreases |nals|
  {
    hide Find, SplitBody;
    if |nals| == 1 {
      assert nals[0] + FourByteCodes([]) == nals[0];
      PiecesOfLast(nals[0]);
    } else {
      PiecesOfUnits(nals[1..], bound);
      PiecesOfUnit(nals[0], nals[1] + FourByteCodes(nals[1..][1..]));
    }
  }

  lemma {:induction false} PiecesOfLast(t: seq<byte>)
    ensures forall p :: p in SplitBody(t).nals ==> |p| <= |t|
    decreases |t|
  {
    hide Find, SplitBody;
    if Find(t).Found? {
      SplitBodyStep(t);
      PiecesOfLast(t[Find(t).pos + Find(t).length..]);
    } else {
      SplitBodyEnd(t);
    }
  }

  lemma BackIsJoin(nals: seq<Nal>)
    requires nals != [] && Lengths(nals)
    ensures AvccOf(FourByteCodes(nals)) == Converted(JoinAvcc(nals), None) <==> Streamable(nals)
  {
    hide SplitAvcc, SplitBody, JoinAnnexb, JoinAvcc, FourByteCodes, Find, Streamable;
    var y := FourByteCodes(nals);
    CodesAreJoin(nals);
    if Streamable(nals) {
      SplitInvertsJoin(nals, seq(|nals|, _ => 3));
    }
    if AvccOf(y) == Converted(JoinAvcc(nals), None) {
      var back := SplitAnnexb(y).nals;
      SplitOfCodes(nals);
      SplitInvertsJoinAvcc(nals);
      SplitInvertsJoinAvcc(back);
      assert back == nals;
    }
  }

  /** The AVCC split only gives units whose length fits its prefix. */
  lemma {:induction false} AvccSplitLengths(t: seq<byte>)
    ensures Lengths(SplitAvcc(t).nals)
    decreases |t|
  {
    if |t| > 4 {
      var length := BeValue(t[..4]);
      var u := t[4..];
      FourBytes(t[..4]);
      if length == 0 {
        AvccSplitLengths(u);
      } else if length < |u| {
        AvccSplitLengths(u[length..]);
      }
    }
  }

  lemma FourBytes(s: seq<byte>)
    requires |s| == 4
    ensures BeValue(s) < TWO32
  {
    BeOfValue(s);
  }

  /** For every input: converting AVCC data to a byte stream and back succeeds
      and gives the input again if and only if it splits, its units are
      streamable, and they and their lengths are all there is to it. */
  lemma RoundTripIff(x: seq<byte>)
    ensures AnnexbOf(x).error == None && AvccOf(AnnexbOf(x).bytes) == Converted(x, None)
       <==> SplitAvcc(x).error == None && Streamable(SplitAvcc(x).nals) && Total(SplitAvcc(x).nals, 4) == |x|
  {
    hide SplitAvcc, SplitBody, JoinAvcc, FourByteCodes, Find, Streamable, Total, Lengths;
    var nals := SplitAvcc(x).nals;
    if SplitAvcc(x).error == None {
      AvccSplitFits(x);
      AvccSplitLengths(x);
      BackIsJoin(nals);
      JoinOfSplit(x);
      if AvccOf(FourByteCodes(nals)) == Converted(x, None) {
        SplitOfCodes(nals);
        SplitInvertsJoinAvcc(SplitAnnexb(FourByteCodes(nals)).nals);
      }
    }
  }

  lemma SplitOfCodes(nals: seq<Nal>)
    requires nals != [] && Lengths(nals)
    requires SplitAnnexb(FourByteCodes(nals)).error == None
    ensures var back := SplitAnnexb(FourByteCodes(nals)).nals;
            back != [] && Lengths(back) && Streamable(back)
  {
    hide SplitBody, Find;
    var t := nals[0] + FourByteCodes(nals[1..]);
    FindAfterNal([], 3, t);
    var y := FourByteCodes(nals);
    assert y == [] + (Zeros(3) + [1] + t);
    assert y[4..] == t;
    assert SplitAnnexb(y) == SplitBody(t);
    SplitBodyIsWell(t);
    PiecesOfUnits(nals, TWO32 - 1);
  }

  /** AVCC input is the join of its units exactly when no record was dropped. */
  lemma {:induction false} JoinOfSplit(t: seq<byte>)
    requires SplitAvcc(t).error == None
    ensures JoinAvcc(SplitAvcc(t).nals) == t <==> Total(SplitAvcc(t).nals, 4) == |t|
    decreases |t|
  {
    hide BeValue, BeBytes, SplitAvcc, JoinAvcc, Total;
    SplitStep(t);
    var head, u := t[..4], t[4..];
    var length := BeValue(head);
    BeOfValue(head);
    assert Pow256(4) == TWO32;
    JoinNothing();
    if length == 0 {
      AvccSplitFits(u);
      JoinSize(SplitAvcc(u).nals);
    } else if length < |u| {
      var nal, rest := u[..length], u[length..];
      JoinOfSplit(rest);
      JoinFront(nal, SplitAvcc(rest).nals, head);
      SameTail(head + nal, JoinAvcc(SplitAvcc(rest).nals), rest);
      assert t == (head + nal) + rest;
    } else {
      JoinFront(u, [], head);
      assert [u] + [] == [u] && t == (head + u) + [];
      NoRecords();
    }
  }

  lemma NoRecords()
    ensures Total([], 4) == 0
  {
  }

  /** One round of a split that succeeds. */
  lemma SplitStep(t: seq<byte>)
    requires SplitAvcc(t).error == None
    ensures |t| > 4
    ensures var length, u := BeValue(t[..4]), t[4..];
            && length <= |u|
            && (length == 0 ==> SplitAvcc(t) == SplitAvcc(u))
            && (0 < length < |u| ==>
                  SplitAvcc(t).nals == [u[..length]] + SplitAvcc(u[length..]).nals && SplitAvcc(u[length..]).error == None)
            && (length == |u| ==> SplitAvcc(t).nals == [u])
  {
    hide BeValue;
  }

  lemma JoinFront(nal: Nal, more: seq<Nal>, head: seq<byte>)
    requires head == BeBytes(|nal| % TWO32, 4)
    ensures JoinAvcc([nal] + more) == (head + nal) + JoinAvcc(more)
    ensures Total([nal] + more, 4) == 4 + |nal| + Total(more, 4)
  {
    hide BeBytes;
    assert ([nal] + more)[1..] == more;
  }

  lemma SameTail<T>(a: seq<T>, b: seq<T>, c: seq<T>)
    ensures a + b == a + c <==> b == c
  {
    Cut(a, b);
    Cut(a, c);
  }
}
