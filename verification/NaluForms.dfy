/** What the two splits make of any input at all: every input has one of a few
    forms, and for each form the units and the error are given. */
module NaluForms {
  import opened Bytes
  import opened Nalu

  /** The units that are not empty, in order. */
  function Kept(units: seq<Nal>): seq<Nal> {
    if units == [] then [] else (if units[0] == [] then [] else [units[0]]) + Kept(units[1..])
  }

  // --------------------------------------------------------------- Annex B

  /** What can stand between start codes: no start code, and no zero at the end
      unless it is the last; it may be empty. */
  ghost predicate Between(units: seq<Nal>) {
    forall i :: 0 <= i < |units| ==>
                  && NoCode(units[i])
                  && (i < |units| - 1 ==> units[i] == [] || units[i][|units[i]| - 1] != 0)
  }

  ghost predicate Codes(zeros: seq<nat>) {
    forall i :: 0 <= i < |zeros| ==> zeros[i] >= 2
  }

  lemma EmptyUnit(zeros: nat, rest: seq<byte>)
    requires zeros >= 2
    ensures SplitBody([] + (Zeros(zeros) + [1] + rest)) == SplitBody(rest)
  {
    hide Find, SplitBody, Zeros;
    var code := Zeros(zeros) + [1];
    var t := [] + (code + rest);
    FindAfterNal([], zeros, rest);
    SplitBodyStep(t);
    assert t[|code|..] == rest;
    assert [] + SplitBody(rest).nals == SplitBody(rest).nals;
  }

  lemma {:induction false} SplitBodyOfUnits(units: seq<Nal>, zeros: seq<nat>)
    requires |units| == |zeros| && units != [] && Between(units) && Codes(zeros)
    ensures SplitBody(units[0] + JoinAnnexb(units[1..], zeros[1..]))
         == Split(Kept(units), if units[|units| - 1] == [] then Some(Avc) else None)
    decreases |units|
  {
    hide Find, SplitBody;
    var unit, more, codes := units[0], units[1..], zeros[1..];
    if more == [] {
      assert unit + JoinAnnexb(more, codes) == unit && Kept(more) == [];
      if unit == [] {
        NothingBehind();
      } else {
        LastUnit(unit);
      }
    } else {
      SplitBodyOfUnits(more, codes);
      var rest := more[0] + JoinAnnexb(more[1..], codes[1..]);
      if unit == [] {
        EmptyUnit(codes[0], rest);
        assert [] + Kept(more) == Kept(more);
      } else {
        NextUnit(unit, codes[0], rest);
      }
    }
  }

  lemma NothingBehind()
    ensures SplitBody([]) == Split([], Some(Avc))
  {
  }

  /** Bytes without a start code in front are skipped, empty units are dropped, and
      the split succeeds if and only if there is something behind the last code. */
  lemma SplitOfStream(junk: seq<byte>, units: seq<Nal>, zeros: seq<nat>)
    requires |units| == |zeros| && units != [] && Between(units) && Codes(zeros)
    requires NoCode(junk) && (junk != [] ==> junk[|junk| - 1] != 0)
    ensures SplitAnnexb(junk + JoinAnnexb(units, zeros))
         == Split(Kept(units), if units[|units| - 1] == [] then Some(Avc) else None)
  {
    assert zeros[0] >= 2;
    hide SplitBody, Find, Kept, Between, Codes, NoCode, Zeros;
    var rest := units[0] + JoinAnnexb(units[1..], zeros[1..]);
    var code := Zeros(zeros[0]) + [1];
    FindAfterNal(junk, zeros[0], rest);
    SplitBodyOfUnits(units, zeros);
    SkipsTo(junk, code, rest);
  }

  lemma SkipsTo(junk: seq<byte>, code: seq<byte>, rest: seq<byte>)
    requires Find(junk + (code + rest)) == Found(|junk|, |code|)
    ensures SplitAnnexb(junk + (code + rest)) == SplitBody(rest)
  {
    hide Find, SplitBody;
    Cut(junk, code + rest);
    Cut(code, rest);
    DropTwice(junk + (code + rest), |junk|, |code|);
  }

  /** Without any start code all of the input is handed on, with an error. */
  lemma SplitOfOther(s: seq<byte>)
    requires NoCode(s)
    ensures SplitAnnexb(s) == Split([s], Some(Avc))
  {
    FirstIsUnique(s, NotFound);
  }

  lemma {:induction false} UnitsOf(t: seq<byte>) returns (units: seq<Nal>, zeros: seq<nat>)
    ensures |units| == |zeros| && units != [] && Between(units) && Codes(zeros)
    ensures zeros[0] == 2 && t == units[0] + JoinAnnexb(units[1..], zeros[1..])
    decreases |t|
  {
    FindIsFirst(t);
    hide Find, JoinAnnexb, NoCode, Between, Codes;
    match Find(t)
    case NotFound =>
      units, zeros := [t], [2];
      NoJoin(t);
    case Found(pos, length) =>
      var more, codes := UnitsOf(t[pos + length..]);
      units, zeros := [t[..pos]] + more, [2] + ([length - 1] + codes[1..]);
      UnitInFront(t, pos, length, more, codes);
      assert units[1..] == more && zeros[1..] == [length - 1] + codes[1..];
      FirstUnit(t, pos, length, more, [length - 1] + codes[1..]);
  }

  /** What stands before a code can be put in front of what stands behind it. */
  lemma UnitInFront(t: seq<byte>, pos: nat, length: nat, more: seq<Nal>, codes: seq<nat>)
    requires IsFirst(t, Found(pos, length)) && Between(more) && Codes(codes) && |more| == |codes| > 0
    ensures Between([t[..pos]] + more) && Codes([2] + ([length - 1] + codes[1..]))
  {
    BeforeCode(t, pos, length);
    hide NoCode, CodeAt;
  }

  lemma NoJoin(t: seq<byte>)
    ensures t == t + JoinAnnexb([], []) && [t][1..] == [] && [2][1..] == []
    ensures Find(t) == NotFound ==> Between([t]) && Codes([2])
  {
    FindIsFirst(t);
  }

  lemma BeforeCode(t: seq<byte>, pos: nat, length: nat)
    requires IsFirst(t, Found(pos, length))
    ensures NoCode(t[..pos])
  {
    assert forall k: nat :: CodeAt(t[..pos], k) ==> CodeAt(t, k);
  }

  lemma FirstUnit(t: seq<byte>, pos: nat, length: nat, more: seq<Nal>, codes: seq<nat>)
    requires IsFirst(t, Found(pos, length)) && more != [] && |codes| == |more| && codes[0] == length - 1
    requires t[pos + length..] == more[0] + JoinAnnexb(more[1..], codes[1..])
    ensures t == t[..pos] + JoinAnnexb(more, codes)
  {
    hide Zeros, IsFirst, JoinAnnexb;
    var e := pos + length;
    CodeBytes(t, pos, length);
    JoinStep(more, codes);
    ThreeParts(t, pos, e);
  }

  lemma JoinStep(units: seq<Nal>, zeros: seq<nat>)
    requires |units| == |zeros| > 0
    ensures JoinAnnexb(units, zeros) == Zeros(zeros[0]) + [1] + (units[0] + JoinAnnexb(units[1..], zeros[1..]))
  {
  }

  lemma ThreeParts<T>(t: seq<T>, i: nat, j: nat)
    requires i <= j <= |t|
    ensures t == t[..i] + (t[i..j] + t[j..])
  {
  }

  lemma CodeBytes(t: seq<byte>, pos: nat, length: nat)
    requires IsFirst(t, Found(pos, length))
    ensures length >= 3 && pos + length <= |t| && t[pos..pos + length] == Zeros(length - 1) + [1]
  {
    var s := t[pos..pos + length];
    assert CodeAt(t, pos + length - 3);
    forall i | 0 <= i < length
      ensures s[i] == if i < length - 1 then 0 else 1
    {
      assert s[i] == t[pos + i];
    }
  }

  /** Every input that has a start code has that form. */
  lemma EveryStream(s: seq<byte>) returns (junk: seq<byte>, units: seq<Nal>, zeros: seq<nat>)
    requires !NoCode(s)
    ensures |units| == |zeros| && units != [] && Between(units) && Codes(zeros)
    ensures NoCode(junk) && (junk != [] ==> junk[|junk| - 1] != 0)
    ensures s == junk + JoinAnnexb(units, zeros)
  {
    FindIsFirst(s);
    hide Find, JoinAnnexb, NoCode, Between;
    var c := Find(s);
    BeforeCode(s, c.pos, c.length);
    junk := s[..c.pos];
    var more, codes := UnitsOf(s[c.pos + c.length..]);
    units, zeros := more, [c.length - 1] + codes[1..];
    assert zeros[1..] == codes[1..];
    FirstUnit(s, c.pos, c.length, units, zeros);
  }

  // ------------------------------------------------------------------ AVCC

  ghost predicate Records(units: seq<Nal>) {
    forall i :: 0 <= i < |units| ==> |units[i]| < TWO32
  }

  /** What is no whole record: no length, or one that announces more than there is. */
  predicate Incomplete(tail: seq<byte>) {
    |tail| < 4 || BeValue(tail[..4]) > |tail| - 4
  }

  /** Whole records and then what is no record: the empty records are dropped, what
      there is of the incomplete one is handed on with an error, and the split
      succeeds if and only if the input ends with a record that is not empty. */
  lemma {:induction false} SplitOfRecords(units: seq<Nal>, tail: seq<byte>)
    requires Records(units) && Incomplete(tail)
    ensures SplitAvcc(JoinAvcc(units) + tail)
         == Split(Kept(units) + (if |tail| > 4 then [tail[4..]] else []),
                  if tail == [] && units != [] && units[|units| - 1] != [] then None else Some(ShortBuffer))
    decreases |units|
  {
    hide BeBytes, BeValue, SplitAvcc;
    if units == [] {
      var last: seq<Nal> := if |tail| > 4 then [tail[4..]] else [];
      assert JoinAvcc(units) + tail == tail && [] + last == last;
      TailSplits(tail);
    } else {
      var unit, more := units[0], units[1..];
      var head := BeBytes(|unit|, 4);
      assert Pow256(4) == TWO32;
      BeRoundTrip(|unit|, 4);
      var rest := JoinAvcc(more) + tail;
      assert JoinAvcc(units) + tail == head + (unit + rest);
      SplitOfRecords(more, tail);
      RecordSplits(head, unit, rest);
      if rest == [] {
        JoinSize(more);
        assert more == [] && tail == [];
      }
    }
  }

  lemma TailSplits(tail: seq<byte>)
    requires Incomplete(tail)
    ensures SplitAvcc(tail) == Split(if |tail| > 4 then [tail[4..]] else [], Some(ShortBuffer))
  {
    hide BeValue;
  }

  lemma RecordSplits(head: seq<byte>, unit: Nal, rest: seq<byte>)
    requires |head| == 4 && BeValue(head) == |unit|
    ensures var r := SplitAvcc(rest);
            SplitAvcc(head + (unit + rest))
            == if rest == [] then Split(if unit == [] then [] else [unit], if unit == [] then Some(ShortBuffer) else None)
               else Split((if unit == [] then [] else [unit]) + r.nals, r.error)
  {
    hide BeValue;
    var u := unit + rest;
    Cut(head, u);
    Cut(unit, rest);
    assert unit == [] ==> u == rest;
    assert rest == [] ==> u == unit;
    assert [] + SplitAvcc(rest).nals == SplitAvcc(rest).nals;
  }

  /** Every input has that form. */
  lemma {:induction false} EveryRecord(t: seq<byte>) returns (units: seq<Nal>, tail: seq<byte>)
    ensures Records(units) && Incomplete(tail) && t == JoinAvcc(units) + tail
    decreases |t|
  {
    hide BeValue, BeBytes;
    if Incomplete(t) {
      units, tail := [], t;
      assert JoinAvcc([]) + t == t;
    } else {
      var length := BeValue(t[..4]);
      var unit, rest := t[4..4 + length], t[4 + length..];
      BeOfValue(t[..4]);
      assert Pow256(4) == TWO32;
      var more, end := EveryRecord(rest);
      units, tail := [unit] + more, end;
      assert units[1..] == more;
      assert t == t[..4] + (unit + rest);
      assert JoinAvcc(units) == t[..4] + (unit + JoinAvcc(more));
    }
  }

  // ----------------------------------------------------------- conversions

  function Threes(n: nat): (z: seq<nat>)
    ensures |z| == n && Codes(z)
  {
    seq(n, _ => 3)
  }

  /** From AVCC: the units that are not empty, and what there is of an incomplete one,
      each behind a four-byte start code; also when there is an error. */
  lemma RecordsConverted(units: seq<Nal>, tail: seq<byte>)
    requires Records(units) && Incomplete(tail)
    ensures var all := Kept(units) + (if |tail| > 4 then [tail[4..]] else []);
            AnnexbOf(JoinAvcc(units) + tail)
            == Converted(JoinAnnexb(all, Threes(|all|)),
                         if tail == [] && units != [] && units[|units| - 1] != [] then None else Some(ShortBuffer))
  {
    hide SplitAvcc, FourByteCodes, JoinAnnexb, JoinAvcc;
    SplitOfRecords(units, tail);
    CodesAreJoin(Kept(units) + (if |tail| > 4 then [tail[4..]] else []));
  }

  /** From a byte stream: the units that are not empty, each behind its length; also
      when the stream ends with a start code, which is an error. */
  lemma StreamConverted(junk: seq<byte>, units: seq<Nal>, zeros: seq<nat>)
    requires |units| == |zeros| && units != [] && Between(units) && Codes(zeros)
    requires NoCode(junk) && (junk != [] ==> junk[|junk| - 1] != 0)
    ensures AvccOf(junk + JoinAnnexb(units, zeros))
         == Converted(JoinAvcc(Kept(units)), if units[|units| - 1] == [] then Some(Avc) else None)
  {
    hide SplitAnnexb, JoinAnnexb, JoinAvcc, Between, NoCode;
    SplitOfStream(junk, units, zeros);
  }
}
