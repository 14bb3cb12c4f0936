/** The filter that adds silent audio to a stream without any. */
module DummyAudio {
  import opened Bytes
  import opened RtmpMsg

  const MAX_UINT32: Timestamp := TWO32 - 1

  datatype Stage = Analysis | Normal | Dummy

  /** The sequence header the filter makes: AAC LC, 48 kHz, stereo. */
  function SilentHeader(ts: Timestamp): Msg {
    Msg(AUDIO, ts, [0xAF, 0x00, 0x11, 0x90])
  }

  /** The 1024 silent samples the filter makes. */
  function SilentFrame(ts: Timestamp): Msg {
    Msg(AUDIO, ts, [0xAF, 0x01, 0x21, 0x10, 0x04, 0x60, 0x8C, 0x1C])
  }

  predicate IsSilentFrame(m: Msg) {
    m == SilentFrame(m.timestamp)
  }

  // -------------------------------------------------- the synthetic clock

  /** The program's two clock fields: the time of the last silent frame, with
      the largest timestamp standing for none, and the number of frames made. */
  datatype Clock = Clock(prev: Timestamp, count: nat)

  const UNSET := Clock(MAX_UINT32, 0)

  /** Milliseconds to the next silent frame, with `count` frames already made. */
  function DurationMs(count: nat): nat {
    if count % 3 == 1 || count % 3 == 2 then 21 else 22
  }

  /** One more silent frame, in uint32 arithmetic. */
  function Tick(c: Clock): Clock {
    Clock((c.prev + DurationMs(c.count)) % TWO32, c.count + 1)
  }

  function Ticks(c: Clock, n: nat): Clock {
    if n == 0 then c else Tick(Ticks(c, n - 1))
  }

  /** 1024 samples at 48 kHz are 64/3 ms: the ideal time of k frames. */
  function Ideal(k: int): int {
    64 * k / 3
  }

  /** The durations of 21, 21 and 22 ms are the steps of the ideal clock. */
  lemma StepOfClock(k: nat)
    ensures Ideal(k) == Ideal(k - 1) + DurationMs(k)
  {
  }

  /** Where the clock would have been before its first frame. */
  function Origin(c: Clock): int {
    c.prev - Ideal(c.count - 1)
  }

  lemma AddWraps(a: int, d: nat)
    ensures (a % TWO32 + d) % TWO32 == (a + d) % TWO32
  {
  }

  /** However often it wraps, the clock is the ideal one modulo 2^32. */
  lemma {:induction false} TicksAreIdeal(c: Clock, n: nat)
    ensures Ticks(c, n).count == c.count + n
    ensures Ticks(c, n).prev == (Origin(c) + Ideal(c.count - 1 + n)) % TWO32
  {
    hide DurationMs;
    if n > 0 {
      hide Ideal;
      TicksAreIdeal(c, n - 1);
      StepOfClock(c.count + n - 1);
      AddWraps(Origin(c) + Ideal(c.count - 2 + n), DurationMs(c.count + n - 1));
    }
  }

  // ------------------------------------------------ when the loop returns

  /** A time the clock can show: a residue class modulo 64, which divides 2^32. */
  predicate OnGrid(origin: int, v: int) {
    (v - origin) % 64 == 0 || (v - origin) % 64 == 21 || (v - origin) % 64 == 42
  }

  /** There is a time above t, but below 2^32, that the clock can show. */
  predicate RoomAbove(origin: int, t: Timestamp) {
    exists v :: t < v < TWO32 && OnGrid(origin, v)
  }

  lemma IdealIsOnGrid(origin: int, k: int)
    ensures OnGrid(origin, origin + Ideal(k))
  {
    var q, r := k / 3, k % 3;
    assert k == 3 * q + r && Ideal(k) == 64 * q + Ideal(r);
    assert Ideal(0) == 0 && Ideal(1) == 21 && Ideal(2) == 42;
  }

  lemma WrapStaysOnGrid(origin: int, x: int)
    requires OnGrid(origin, x)
    ensures OnGrid(origin, x % TWO32)
  {
    assert x % TWO32 == x - 64 * (0x400_0000 * (x / TWO32));
    SameClass(x - origin, x / TWO32 * 0x400_0000);
  }

  lemma SameClass(x: int, m: int)
    ensures (x - 64 * m) % 64 == x % 64
  {
  }

  /** Every time on the grid is an ideal time. */
  lemma GridIsIdeal(origin: int, v: int) returns (k: int)
    requires OnGrid(origin, v)
    ensures v == origin + Ideal(k)
  {
    var d := v - origin;
    var r := if d % 64 == 0 then 0 else if d % 64 == 21 then 1 else 2;
    k := 3 * (d / 64) + r;
    assert Ideal(0) == 0 && Ideal(1) == 21 && Ideal(2) == 42;
    assert Ideal(k) == 64 * (d / 64) + Ideal(r);
  }

  lemma IdealShift(k: int, m: int)
    ensures Ideal(k + 3 * m) == Ideal(k) + 64 * m
  {
    assert 64 * (k + 3 * m) == 64 * k + 3 * (64 * m);
  }

  /** The loop ends on t at the n-th frame it would make. */
  ghost predicate Ends(c: Clock, t: Timestamp) {
    exists n: nat :: n > 0 && Ticks(c, n).prev > t
  }

  /** The catch-up loop returns if and only if the clock can show a time above
      t; otherwise it makes frames for ever. */
  lemma LoopEndsIff(c: Clock, t: Timestamp)
    ensures Ends(c, t) <==> RoomAbove(Origin(c), t)
    ensures !RoomAbove(Origin(c), t) ==> forall n: nat :: n > 0 ==> Ticks(c, n).prev <= t
  {
    forall n: nat | n > 0 && Ticks(c, n).prev > t
      ensures RoomAbove(Origin(c), t)
    {
      TicksAreIdeal(c, n);
      IdealIsOnGrid(Origin(c), c.count - 1 + n);
      WrapStaysOnGrid(Origin(c), Origin(c) + Ideal(c.count - 1 + n));
    }
    if RoomAbove(Origin(c), t) {
      var v :| t < v < TWO32 && OnGrid(Origin(c), v);
      var n := GridIsReached(c, v);
    }
  }

  /** The clock comes past every time of its grid again and again. */
  lemma GridIsReached(c: Clock, v: Timestamp) returns (n: nat)
    requires OnGrid(Origin(c), v)
    ensures n > 0 && Ticks(c, n).prev == v
  {
    var k := GridIsIdeal(Origin(c), v);
    var rounds := c.count + if k < 0 then -k else k;
    n := k + 3 * (0x400_0000 * rounds) - (c.count - 1);
    IdealShift(k, 0x400_0000 * rounds);
    TicksAreIdeal(c, n);
    assert Origin(c) + Ideal(c.count - 1 + n) == v + TWO32 * rounds;
    WholeRounds(v, rounds);
  }

  lemma WholeRounds(v: Timestamp, rounds: nat)
    ensures (v + TWO32 * rounds) % TWO32 == v
  {
  }

  /** Up to 22 ms below 2^32 there is always room. */
  lemma RoomBelowTheTop(origin: int, t: Timestamp)
    requires t + 22 < TWO32
    ensures RoomAbove(origin, t)
  {
    var r := (t - origin) % 64;
    var v := if r < 21 then t + 21 - r else if r < 42 then t + 42 - r else t + 64 - r;
    assert v - origin == (t - origin) / 64 * 64 + (if r < 21 then 21 else if r < 42 then 42 else 64);
    assert OnGrid(origin, v);
  }

  /** Which frame the loop stops before. */
  ghost predicate StopsAfter(c: Clock, t: Timestamp, n: nat) {
    Ticks(c, n + 1).prev > t && forall j :: 1 <= j <= n ==> Ticks(c, j).prev <= t
  }

  lemma {:induction false} FirstStop(c: Clock, t: Timestamp, n: nat) returns (first: nat)
    requires n > 0 && Ticks(c, n).prev > t
    ensures StopsAfter(c, t, first)
  {
    if j :| 1 <= j < n && Ticks(c, j).prev > t {
      first := FirstStop(c, t, j);
    } else {
      first := n - 1;
    }
  }

  /** How many frames the loop makes. */
  ghost function Loops(c: Clock, t: Timestamp): (n: nat)
    requires RoomAbove(Origin(c), t)
    ensures StopsAfter(c, t, n)
  {
    LoopStops(c, t);
    var n: nat :| StopsAfter(c, t, n);
    n
  }

  lemma LoopStops(c: Clock, t: Timestamp)
    requires RoomAbove(Origin(c), t)
    ensures exists n: nat :: StopsAfter(c, t, n)
  {
    LoopEndsIff(c, t);
    var n: nat :| n > 0 && Ticks(c, n).prev > t;
    var first := FirstStop(c, t, n);
  }

  /** The first n silent frames after the clock. */
  ghost function Silence(c: Clock, n: nat): (r: seq<Msg>)
    ensures |r| == n
  {
    seq(n, i requires 0 <= i < n => SilentFrame(Ticks(c, i + 1).prev))
  }

  // ---------------------------------------------------- the specification

  datatype State = State(stage: Stage, queue: seq<Msg>, firstVideo: Timestamp, clock: Clock, out: seq<Msg>)

  const INITIAL := State(Analysis, [], MAX_UINT32, UNSET, [])

  /** What the dummy stage takes for a video frame. */
  predicate IsFrame(m: Msg) {
    m.VideoReadable() && m.typeId != AUDIO && m.typeId != METADATA && !m.IsVideoKeySeqHeader()
  }

  /** The dummy stage returns from this message. */
  predicate Answers(c: Clock, m: Msg) {
    m.VideoReadable() && (IsFrame(m) && c.prev != MAX_UINT32 ==> RoomAbove(Origin(c), m.timestamp))
  }

  /** What the dummy stage hands on for one message. */
  ghost function DummyOut(c: Clock, m: Msg): seq<Msg>
    requires Answers(c, m)
  {
    if m.typeId == AUDIO then []
    else if m.typeId == METADATA then [m]
    else if m.IsVideoKeySeqHeader() then [SilentHeader(m.timestamp), m]
    else if c.prev == MAX_UINT32 then [SilentFrame(m.timestamp), m]
    else Silence(c, Loops(c, m.timestamp)) + [m]
  }

  ghost function DummyClock(c: Clock, m: Msg): Clock
    requires Answers(c, m)
  {
    if !IsFrame(m) then c
    else if c.prev == MAX_UINT32 then Clock(m.timestamp, c.count + 1)
    else Ticks(c, Loops(c, m.timestamp))
  }

  ghost predicate AllAnswer(c: Clock, ms: seq<Msg>)
    decreases |ms|, 0
  {
    ms == [] || (AllAnswer(c, ms[..|ms| - 1]) && Answers(DummyAll(c, ms[..|ms| - 1]).1, ms[|ms| - 1]))
  }

  ghost function DummyAll(c: Clock, ms: seq<Msg>): (seq<Msg>, Clock)
    requires AllAnswer(c, ms)
    decreases |ms|, 1
  {
    if ms == [] then ([], c)
    else
      var (out, c') := DummyAll(c, ms[..|ms| - 1]);
      var m := ms[|ms| - 1];
      (out + DummyOut(c', m), DummyClock(c', m))
  }

  /** The waiting time is over; the subtraction is that of uint32. */
  predicate WaitedEnough(first: Timestamp, m: Msg, waitAudioMs: int) {
    (m.timestamp - first) % TWO32 >= waitAudioMs % TWO32
  }

  /** The message that ends the analysis without audio. */
  predicate StartsDummy(s: State, m: Msg, waitAudioMs: int)
    requires m.VideoReadable()
  {
    && s.stage == Analysis && m.typeId == VIDEO && !m.IsVideoKeySeqHeader()
    && s.firstVideo != MAX_UINT32 && WaitedEnough(s.firstVideo, m, waitAudioMs)
  }

  /** The program returns from being fed this message. */
  ghost predicate FeedReturns(s: State, m: Msg, waitAudioMs: int) {
    && (s.stage == Dummy ==> Answers(s.clock, m))
    && (s.stage == Analysis ==>
          m.VideoReadable() && (StartsDummy(s, m, waitAudioMs) ==> AllAnswer(s.clock, s.queue + [m])))
  }

  ghost function Step(s: State, m: Msg, waitAudioMs: int): State
    requires FeedReturns(s, m, waitAudioMs)
  {
    match s.stage
    case Normal => s.(out := s.out + [m])
    case Dummy => s.(out := s.out + DummyOut(s.clock, m), clock := DummyClock(s.clock, m))
    case Analysis =>
      if m.typeId == AUDIO then
        s.(stage := Normal, out := s.out + s.queue + [m])
      else if StartsDummy(s, m, waitAudioMs) then
        var (out, c) := DummyAll(s.clock, s.queue + [m]);
        s.(stage := Dummy, queue := [], out := s.out + out, clock := c)
      else if m.typeId == VIDEO && !m.IsVideoKeySeqHeader() && s.firstVideo == MAX_UINT32 then
        s.(queue := s.queue + [m], firstVideo := m.timestamp)
      else if m.typeId == VIDEO || m.typeId == METADATA then
        s.(queue := s.queue + [m])
      else s
  }

  /** The program returns from every message of the stream. */
  ghost predicate Returns(ms: seq<Msg>, waitAudioMs: int)
    decreases |ms|, 0
  {
    ms == [] || (Returns(ms[..|ms| - 1], waitAudioMs)
                 && FeedReturns(Run(ms[..|ms| - 1], waitAudioMs), ms[|ms| - 1], waitAudioMs))
  }

  ghost function Run(ms: seq<Msg>, waitAudioMs: int): State
    requires Returns(ms, waitAudioMs)
    decreases |ms|, 1
  {
    if ms == [] then INITIAL
    else Step(Run(ms[..|ms| - 1], waitAudioMs), ms[|ms| - 1], waitAudioMs)
  }

  // -------------------------------------------------------- conservation

  function WithoutAudio(ms: seq<Msg>): seq<Msg> {
    if ms == [] then []
    else
      var m := ms[|ms| - 1];
      WithoutAudio(ms[..|ms| - 1]) + if m.typeId == AUDIO then [] else [m]
  }

  /** The silent frames among the messages. */
  function SilentFrames(ms: seq<Msg>): seq<Msg> {
    if ms == [] then []
    else
      var m := ms[|ms| - 1];
      SilentFrames(ms[..|ms| - 1]) + if IsSilentFrame(m) then [m] else []
  }

  lemma {:induction false} FiltersConcat(a: seq<Msg>, b: seq<Msg>)
    ensures WithoutAudio(a + b) == WithoutAudio(a) + WithoutAudio(b)
    ensures SilentFrames(a + b) == SilentFrames(a) + SilentFrames(b)
  {
    hide IsSilentFrame;
    if b == [] {
      assert a + b == a;
    } else {
      assert (a + b)[..|a + b| - 1] == a + b[..|b| - 1];
      FiltersConcat(a, b[..|b| - 1]);
    }
  }

  lemma {:induction false} SilenceIsSilent(ms: seq<Msg>)
    requires forall m :: m in ms ==> IsSilentFrame(m)
    ensures WithoutAudio(ms) == [] && SilentFrames(ms) == ms
  {
    if ms != [] {
      var n := |ms| - 1;
      SilenceIsSilent(ms[..n]);
      assert ms[n] in ms && ms == ms[..n] + [ms[n]];
    }
  }

  lemma OneMessage(m: Msg)
    ensures WithoutAudio([m]) == (if m.typeId == AUDIO then [] else [m])
    ensures SilentFrames([m]) == (if IsSilentFrame(m) then [m] else [])
  {
    hide IsSilentFrame;
    assert [m][..0] == [] && [m][0] == m;
    assert WithoutAudio([]) == [] && SilentFrames([]) == [];
  }

  /** Metadata, audio and video: the messages a stream consists of. */
  ghost predicate IsStream(ms: seq<Msg>) {
    forall m :: m in ms ==> m.typeId in {METADATA, AUDIO, VIDEO}
  }

  /** The frames made before a message is handed on. */
  ghost function NewFrames(c: Clock, m: Msg): seq<Msg>
    requires Answers(c, m)
  {
    if !IsFrame(m) then []
    else if c.prev == MAX_UINT32 then [SilentFrame(m.timestamp)]
    else Silence(c, Loops(c, m.timestamp))
  }

  /** In the dummy stage nothing but audio is lost and nothing but new frames
      and audio sequence headers is added. */
  lemma DummyOutIs(c: Clock, m: Msg)
    requires Answers(c, m)
    ensures WithoutAudio(DummyOut(c, m)) == if m.typeId == AUDIO then [] else [m]
    ensures SilentFrames(DummyOut(c, m)) == NewFrames(c, m)
  {
    hide WithoutAudio, SilentFrames, Origin, RoomAbove, Ticks;
    OneMessage(m);
    assert WithoutAudio([]) == [] && SilentFrames([]) == [] by {
      SilenceIsSilent([]);
    }
    if m.typeId != AUDIO && m.typeId != METADATA {
      var first := if m.IsVideoKeySeqHeader() then [SilentHeader(m.timestamp)] else NewFrames(c, m);
      assert DummyOut(c, m) == first + [m];
      FiltersConcat(first, [m]);
      if m.IsVideoKeySeqHeader() {
        OneMessage(SilentHeader(m.timestamp));
      } else {
        SilenceIsSilent(first);
      }
    }
  }

  /** The dummy stage over a list is its last message behind those before. */
  lemma LastOfAll(c: Clock, ms: seq<Msg>)
    requires ms != [] && AllAnswer(c, ms)
    ensures var before := ms[..|ms| - 1];
            && AllAnswer(c, before)
            && var (out, c') := DummyAll(c, before);
            && Answers(c', ms[|ms| - 1])
            && DummyAll(c, ms) == (out + DummyOut(c', ms[|ms| - 1]), DummyClock(c', ms[|ms| - 1]))
  {
    hide Answers, DummyOut, DummyClock;
  }

  lemma NothingAnswered(c: Clock)
    ensures AllAnswer(c, []) && DummyAll(c, []) == ([], c)
  {
  }

  lemma {:induction false} DummyAllConserves(c: Clock, ms: seq<Msg>)
    requires AllAnswer(c, ms)
    ensures WithoutAudio(DummyAll(c, ms).0) == WithoutAudio(ms)
  {
    hide Answers, DummyOut, DummyClock, AllAnswer, DummyAll;
    if ms == [] {
      NothingAnswered(c);
    } else {
      var n := |ms| - 1;
      LastOfAll(c, ms);
      DummyAllConserves(c, ms[..n]);
      var (out, c') := DummyAll(c, ms[..n]);
      DummyOutIs(c', ms[n]);
      FiltersConcat(out, DummyOut(c', ms[n]));
    }
  }

  /** What of the input can be seen in each stage. */
  ghost predicate Conserved(s: State, ms: seq<Msg>) {
    match s.stage
    case Analysis => s.queue == ms && s.out == [] && s.clock == UNSET
    case Normal => s.out == ms
    case Dummy => WithoutAudio(s.out) == WithoutAudio(ms)
  }

  lemma ConservedStep(s: State, ms: seq<Msg>, m: Msg, waitAudioMs: int)
    requires Conserved(s, ms) && FeedReturns(s, m, waitAudioMs) && m.typeId in {METADATA, AUDIO, VIDEO}
    ensures Conserved(Step(s, m, waitAudioMs), ms + [m])
  {
    hide WithoutAudio, AllAnswer, DummyAll, Answers, DummyOut, DummyClock, WaitedEnough;
    if s.stage == Dummy {
      FiltersConcat(ms, [m]);
      FiltersConcat(s.out, DummyOut(s.clock, m));
      DummyOutIs(s.clock, m);
      OneMessage(m);
    } else if s.stage == Analysis && StartsDummy(s, m, waitAudioMs) {
      DummyAllConserves(s.clock, s.queue + [m]);
      assert [] + DummyAll(s.clock, s.queue + [m]).0 == DummyAll(s.clock, s.queue + [m]).0;
    }
  }

  /** Over every stream from which the program returns, whatever its times, the
      filter conserves its input: while it analyses, the queue is the input; in
      the normal stage the messages handed on are the input; in the dummy stage
      those that are not audio are the input without audio. */
  lemma {:induction false} InputIsConserved(ms: seq<Msg>, waitAudioMs: int)
    requires IsStream(ms) && Returns(ms, waitAudioMs)
    ensures Conserved(Run(ms, waitAudioMs), ms)
  {
    hide FeedReturns, Step, Conserved, Run, Returns, IsStream;
    if ms == [] {
      InitiallyConserved(waitAudioMs);
    } else {
      var n := |ms| - 1;
      LastOfRun(ms, waitAudioMs);
      LastOfStream(ms);
      InputIsConserved(ms[..n], waitAudioMs);
      ConservedStep(Run(ms[..n], waitAudioMs), ms[..n], ms[n], waitAudioMs);
      assert ms == ms[..n] + [ms[n]];
    }
  }

  /** A run is its last step behind the run before. */
  lemma LastOfRun(ms: seq<Msg>, waitAudioMs: int)
    requires ms != [] && Returns(ms, waitAudioMs)
    ensures var before := ms[..|ms| - 1];
            && Returns(before, waitAudioMs) && FeedReturns(Run(before, waitAudioMs), ms[|ms| - 1], waitAudioMs)
            && Run(ms, waitAudioMs) == Step(Run(before, waitAudioMs), ms[|ms| - 1], waitAudioMs)
  {
    hide FeedReturns, Step;
  }

  lemma LastOfStream(ms: seq<Msg>)
    requires ms != [] && IsStream(ms)
    ensures IsStream(ms[..|ms| - 1]) && ms[|ms| - 1].typeId in {METADATA, AUDIO, VIDEO}
  {
    assert ms[|ms| - 1] in ms;
  }

  lemma InitiallyConserved(waitAudioMs: int)
    ensures Returns([], waitAudioMs) && Conserved(Run([], waitAudioMs), [])
  {
  }

  /** The stage leaves analysis at most once: what it changes to, it keeps. */
  lemma {:induction false} StageIsFinal(ms: seq<Msg>, n: nat, waitAudioMs: int)
    requires n <= |ms| && Returns(ms, waitAudioMs) && Returns(ms[..n], waitAudioMs)
    requires Run(ms[..n], waitAudioMs).stage != Analysis
    ensures Run(ms, waitAudioMs).stage == Run(ms[..n], waitAudioMs).stage
  {
    hide FeedReturns, DummyOut, DummyClock, DummyAll, Run, Returns;
    if n < |ms| {
      var k := |ms| - 1;
      LastOfRun(ms, waitAudioMs);
      assert ms[..k][..n] == ms[..n];
      StageIsFinal(ms[..k], n, waitAudioMs);
    } else {
      assert ms[..n] == ms;
    }
  }

  // ---------------------------------------------------------------- time

  /** The largest timestamp of the video frames, 0 without any. */
  function LatestFrame(ms: seq<Msg>): (t: Timestamp) {
    if ms == [] then 0
    else
      var m := ms[|ms| - 1];
      var t := LatestFrame(ms[..|ms| - 1]);
      if IsFrame(m) && m.timestamp > t then m.timestamp else t
  }

  /** The timestamp of the first video frame. */
  function FirstFrame(ms: seq<Msg>): Option<Timestamp> {
    if ms == [] then None
    else
      var m := ms[|ms| - 1];
      var t := FirstFrame(ms[..|ms| - 1]);
      if t == None && IsFrame(m) then Some(m.timestamp) else t
  }

  /** The clock that starts with a frame at t0. */
  function StartAt(t0: Timestamp): Clock {
    Clock(t0, 1)
  }

  /** The first n silent frames of the clock that starts at t0. */
  ghost function FramesFrom(t0: Timestamp, n: nat): (r: seq<Msg>)
    ensures |r| == n
  {
    seq(n, i requires 0 <= i < n => SilentFrame(Ticks(StartAt(t0), i).prev))
  }

  /** The clock and the silent frames made so far, for a first video frame at a
      time that is not the one the program takes for none. */
  ghost predicate InTime(c: Clock, out: seq<Msg>, t0: Timestamp, latest: Timestamp) {
    && c.count > 0 && c == Ticks(StartAt(t0), c.count - 1)
    && SilentFrames(out) == FramesFrom(t0, c.count)
    && c.prev <= latest && c.prev < MAX_UINT32
    && (t0 + 21 < TWO32 ==> t0 + Ideal(c.count) < TWO32)
  }

  /** The same for all first frames. */
  ghost predicate Timed(c: Clock, out: seq<Msg>, ms: seq<Msg>) {
    match FirstFrame(ms)
    case None => c == UNSET && SilentFrames(out) == []
    case Some(t0) =>
      if t0 < MAX_UINT32 then InTime(c, out, t0, LatestFrame(ms))
      else SilentFrames(out) != [] && SilentFrames(out)[0] == SilentFrame(t0)
  }

  lemma {:induction false} TicksCompose(c: Clock, m: nat, n: nat)
    ensures Ticks(Ticks(c, m), n) == Ticks(c, m + n)
  {
    if n > 0 {
      TicksCompose(c, m, n - 1);
    }
  }

  lemma FramesGoOn(t0: Timestamp, c: Clock, n: nat)
    requires c.count > 0 && c == Ticks(StartAt(t0), c.count - 1)
    ensures FramesFrom(t0, c.count + n) == FramesFrom(t0, c.count) + Silence(c, n)
    ensures Ticks(c, n) == Ticks(StartAt(t0), c.count - 1 + n) && Ticks(c, n).count == c.count + n
  {
    hide Ticks;
    TicksAreIdeal(c, n);
    TicksCompose(StartAt(t0), c.count - 1, n);
    forall i | 0 <= i < n
      ensures Silence(c, n)[i] == FramesFrom(t0, c.count + n)[c.count + i]
    {
      TicksCompose(StartAt(t0), c.count - 1, i + 1);
    }
  }

  lemma IdealGrows(j: int, k: int)
    requires j <= k
    ensures Ideal(j) <= Ideal(k) && (j < k ==> Ideal(j) + 21 <= Ideal(k))
  {
  }

  /** A clock that has not wrapped, and has somewhere to stop above t, stops
      without wrapping. */
  lemma StopsUnwrapped(t0: Timestamp, c: Clock, t: Timestamp)
    requires c.count > 0 && c == Ticks(StartAt(t0), c.count - 1) && t0 + Ideal(c.count) < TWO32
    requires RoomAbove(Origin(c), t)
    ensures t0 + Ideal(c.count + Loops(c, t)) < TWO32
  {
    hide Ticks, Ideal;
    TicksAreIdeal(StartAt(t0), c.count - 1);
    assert Ideal(0) == 0 by {
      NothingYet();
    }
    IdealGrows(c.count - 1, c.count);
    IdealGrows(0, c.count - 1);
    assert Origin(c) == t0;
    var n := Loops(c, t);
    assert StopsAfter(c, t, n);
    Unwrapped(t0, c, t, n);
  }

  lemma NothingYet()
    ensures Ideal(0) == 0
  {
  }

  lemma {:induction false} Unwrapped(t0: Timestamp, c: Clock, t: Timestamp, n: nat)
    requires c.count > 0 && Origin(c) == t0 && t0 + Ideal(c.count) < TWO32 && RoomAbove(t0, t)
    requires forall j :: 1 <= j <= n ==> Ticks(c, j).prev <= t
    ensures t0 + Ideal(c.count + n) < TWO32
  {
    hide Ticks, Ideal;
    if n > 0 {
      Unwrapped(t0, c, t, n - 1);
      TicksAreIdeal(c, n);
      assert Ideal(0) == 0 by {
        NothingYet();
      }
      IdealGrows(0, c.count + n - 1);
      assert Ticks(c, n).prev == t0 + Ideal(c.count + n - 1) <= t;
      var v :| t < v < TWO32 && OnGrid(t0, v);
      var k := GridIsIdeal(t0, v);
      if k < c.count + n {
        IdealGrows(k, c.count + n - 1);
      } else {
        IdealGrows(c.count + n, k);
      }
    }
  }

  /** The loop keeps the clock in time, and stops with the next frame after t. */
  lemma LoopInTime(c: Clock, out: seq<Msg>, more: seq<Msg>, t0: Timestamp, latest: Timestamp, t: Timestamp)
    requires InTime(c, out, t0, latest) && RoomAbove(Origin(c), t)
    requires SilentFrames(more) == SilentFrames(out) + Silence(c, Loops(c, t))
    ensures InTime(Ticks(c, Loops(c, t)), more, t0, if t > latest then t else latest)
    ensures Tick(Ticks(c, Loops(c, t))).prev > t
  {
    var n := Loops(c, t);
    LastTicks(c, t, n);
    RoomIsBelowMax(Origin(c), t);
    hide SilentFrames, FramesFrom, Silence, StopsAfter, RoomAbove, Ticks, Tick, Ideal;
    if t0 + 21 < TWO32 {
      StopsUnwrapped(t0, c, t);
    }
    GoesOnInTime(c, out, more, t0, latest, t, n);
  }

  lemma GoesOnInTime(c: Clock, out: seq<Msg>, more: seq<Msg>, t0: Timestamp, latest: Timestamp, t: Timestamp, n: nat)
    requires InTime(c, out, t0, latest) && t < MAX_UINT32
    requires SilentFrames(more) == SilentFrames(out) + Silence(c, n)
    requires Ticks(c, n) == c || Ticks(c, n).prev <= t
    requires t0 + 21 < TWO32 ==> t0 + Ideal(c.count + n) < TWO32
    ensures InTime(Ticks(c, n), more, t0, if t > latest then t else latest)
  {
    hide Ideal, SilentFrames, FramesFrom, Silence, Ticks;
    FramesGoOn(t0, c, n);
  }

  lemma LastTicks(c: Clock, t: Timestamp, n: nat)
    requires StopsAfter(c, t, n)
    ensures Ticks(c, n) == c || Ticks(c, n).prev <= t
    ensures Tick(Ticks(c, n)).prev > t
  {
    assert Ticks(c, n + 1) == Tick(Ticks(c, n));
  }

  lemma FrameInTime(c: Clock, out: seq<Msg>, t0: Timestamp, latest: Timestamp, m: Msg)
    requires InTime(c, out, t0, latest) && Answers(c, m) && IsFrame(m)
    ensures InTime(DummyClock(c, m), out + DummyOut(c, m), t0, if m.timestamp > latest then m.timestamp else latest)
    ensures Tick(DummyClock(c, m)).prev > m.timestamp
  {
    FiltersConcat(out, DummyOut(c, m));
    DummyOutIs(c, m);
    assert c.prev != MAX_UINT32;
    hide InTime, SilentFrames, Silence, Ticks, Tick, RoomAbove;
    LoopInTime(c, out, out + DummyOut(c, m), t0, latest, m.timestamp);
  }

  lemma RoomIsBelowMax(origin: int, t: Timestamp)
    requires RoomAbove(origin, t)
    ensures t < MAX_UINT32
  {
  }

  /** The first video frame starts the clock. */
  lemma FirstInTime(t: Timestamp, out: seq<Msg>)
    requires SilentFrames(out) == [SilentFrame(t)] && t < MAX_UINT32
    ensures InTime(StartAt(t), out, t, t)
    ensures t + 21 < TWO32 ==> Tick(StartAt(t)).prev > t
  {
    assert FramesFrom(t, 1) == [SilentFrame(t)];
  }

  lemma InTimeLater(c: Clock, out: seq<Msg>, more: seq<Msg>, t0: Timestamp, latest: Timestamp)
    requires InTime(c, out, t0, latest) && SilentFrames(more) == SilentFrames(out)
    ensures InTime(c, more, t0, latest)
  {
  }

  lemma TimedStep(c: Clock, out: seq<Msg>, ms: seq<Msg>, m: Msg)
    requires Timed(c, out, ms) && Answers(c, m)
    ensures Timed(DummyClock(c, m), out + DummyOut(c, m), ms + [m])
  {
    hide Timed, SilentFrames, DummyOut, DummyClock, Answers, IsFrame;
    FiltersConcat(out, DummyOut(c, m));
    DummyOutIs(c, m);
    LatestPush(ms, m);
    FirstPush(ms, m);
    hide LatestFrame, FirstFrame;
    if !IsFrame(m) {
      OtherTimed(c, out, ms, m);
    } else if FirstFrame(ms).None? {
      FirstTimed(c, out, ms, m);
    } else {
      LaterTimed(c, out, ms, m);
    }
  }

  lemma OtherTimed(c: Clock, out: seq<Msg>, ms: seq<Msg>, m: Msg)
    requires Timed(c, out, ms) && Answers(c, m) && !IsFrame(m)
    requires FirstFrame(ms + [m]) == FirstFrame(ms) && LatestFrame(ms + [m]) == LatestFrame(ms)
    requires SilentFrames(out + DummyOut(c, m)) == SilentFrames(out) + NewFrames(c, m)
    ensures Timed(DummyClock(c, m), out + DummyOut(c, m), ms + [m])
  {
    hide InTime, SilentFrames, DummyOut, FirstFrame, LatestFrame, RoomAbove, Loops, Silence, Ticks;
    if FirstFrame(ms).Some? && FirstFrame(ms).value < MAX_UINT32 {
      InTimeLater(c, out, out + DummyOut(c, m), FirstFrame(ms).value, LatestFrame(ms));
    }
  }

  lemma FirstTimed(c: Clock, out: seq<Msg>, ms: seq<Msg>, m: Msg)
    requires Timed(c, out, ms) && Answers(c, m) && IsFrame(m) && FirstFrame(ms) == None
    requires FirstFrame(ms + [m]) == Some(m.timestamp)
    requires LatestFrame(ms + [m]) == if m.timestamp > LatestFrame(ms) then m.timestamp else LatestFrame(ms)
    requires SilentFrames(out + DummyOut(c, m)) == SilentFrames(out) + NewFrames(c, m)
    ensures Timed(DummyClock(c, m), out + DummyOut(c, m), ms + [m])
  {
    NoFrameYet(ms);
    hide InTime, SilentFrames, DummyOut, FirstFrame, LatestFrame, RoomAbove, Loops, Silence, Ticks, IsFrame;
    if m.timestamp < MAX_UINT32 {
      FirstInTime(m.timestamp, out + DummyOut(c, m));
    }
  }

  lemma LaterTimed(c: Clock, out: seq<Msg>, ms: seq<Msg>, m: Msg)
    requires Timed(c, out, ms) && Answers(c, m) && IsFrame(m) && FirstFrame(ms).Some?
    requires FirstFrame(ms + [m]) == FirstFrame(ms)
    requires LatestFrame(ms + [m]) == if m.timestamp > LatestFrame(ms) then m.timestamp else LatestFrame(ms)
    requires SilentFrames(out + DummyOut(c, m)) == SilentFrames(out) + NewFrames(c, m)
    ensures Timed(DummyClock(c, m), out + DummyOut(c, m), ms + [m])
  {
    hide InTime, SilentFrames, DummyOut, DummyClock, NewFrames, FirstFrame, LatestFrame, Answers, IsFrame;
    if FirstFrame(ms).value < MAX_UINT32 {
      FrameInTime(c, out, FirstFrame(ms).value, LatestFrame(ms), m);
    }
  }

  lemma FirstPush(ms: seq<Msg>, m: Msg)
    ensures FirstFrame(ms + [m]) == if FirstFrame(ms) == None && IsFrame(m) then Some(m.timestamp) else FirstFrame(ms)
  {
    hide IsFrame;
    assert (ms + [m])[..|ms|] == ms;
  }

  lemma LatestPush(ms: seq<Msg>, m: Msg)
    ensures LatestFrame(ms + [m]) == if IsFrame(m) && m.timestamp > LatestFrame(ms) then m.timestamp else LatestFrame(ms)
  {
    assert (ms + [m])[..|ms|] == ms;
  }

  lemma {:induction false} NoFrameYet(ms: seq<Msg>)
    requires FirstFrame(ms) == None
    ensures LatestFrame(ms) == 0
  {
    if ms != [] {
      NoFrameYet(ms[..|ms| - 1]);
    }
  }

  lemma {:induction false} DummyAllTimed(ms: seq<Msg>)
    requires IsStream(ms) && AllAnswer(UNSET, ms)
    ensures var (out, c) := DummyAll(UNSET, ms); Timed(c, out, ms)
  {
    hide Timed, DummyOut, DummyClock, Answers, AllAnswer, DummyAll, IsStream;
    if ms == [] {
      NothingAnswered(UNSET);
      NothingTimed();
    } else {
      var n := |ms| - 1;
      LastOfAll(UNSET, ms);
      LastOfStream(ms);
      DummyAllTimed(ms[..n]);
      var (out, c) := DummyAll(UNSET, ms[..n]);
      TimedStep(c, out, ms[..n], ms[n]);
      assert ms == ms[..n] + [ms[n]];
    }
  }

  lemma NothingTimed()
    ensures Timed(UNSET, [], [])
  {
  }

  lemma {:induction false} RunTimed(ms: seq<Msg>, waitAudioMs: int)
    requires IsStream(ms) && Returns(ms, waitAudioMs) && Run(ms, waitAudioMs).stage == Dummy
    ensures var s := Run(ms, waitAudioMs); Timed(s.clock, s.out, ms)
    ensures FirstFrame(ms).Some?
  {
    hide Timed, DummyOut, DummyClock, Answers, DummyAll, AllAnswer, Conserved, Run, Returns;
    NotDummyYet(waitAudioMs);
    var n := |ms| - 1;
    LastOfRun(ms, waitAudioMs);
    LastOfStream(ms);
    var s := Run(ms[..n], waitAudioMs);
    assert ms == ms[..n] + [ms[n]];
    InputIsConserved(ms[..n], waitAudioMs);
    if s.stage == Dummy {
      RunTimed(ms[..n], waitAudioMs);
      TimedStep(s.clock, s.out, ms[..n], ms[n]);
    } else {
      assert s.queue == ms[..n] && s.out == [] && s.clock == UNSET by {
        AnalysisKeeps(s, ms[..n]);
      }
      DummyAllTimed(ms);
      assert [] + DummyAll(UNSET, ms).0 == DummyAll(UNSET, ms).0;
    }
  }

  lemma NotDummyYet(waitAudioMs: int)
    ensures Returns([], waitAudioMs) && Run([], waitAudioMs) == INITIAL
  {
  }

  lemma AnalysisKeeps(s: State, ms: seq<Msg>)
    requires Conserved(s, ms) && s.stage == Analysis
    ensures s.queue == ms && s.out == [] && s.clock == UNSET
  {
  }

  /** The synthetic audio is on time: frame k at t0 + floor(64 k / 3). */
  ghost predicate OnTime(frames: seq<Msg>, t0: Timestamp) {
    forall k :: 0 <= k < |frames| ==> IsSilentFrame(frames[k]) && frames[k].timestamp == t0 + Ideal(k)
  }

  /** Over every stream from which the program returns, synthetic audio never
      drifts if and only if the second frame fits below 2^32 or there is none:
      from a first video frame in the last 21 ms the clock wraps.  When it does
      not wrap, the last frame is not after the latest video frame, and after a
      video frame the next one is later than it. */
  lemma AudioNeverDriftsIff(ms: seq<Msg>, waitAudioMs: int)
    requires IsStream(ms) && Returns(ms, waitAudioMs) && Run(ms, waitAudioMs).stage == Dummy
    ensures FirstFrame(ms).Some?
    ensures var frames, t0 := SilentFrames(Run(ms, waitAudioMs).out), FirstFrame(ms).value;
            && |frames| > 0
            && (OnTime(frames, t0) <==> |frames| == 1 || t0 + 21 < TWO32)
            && (t0 + 21 < TWO32 ==>
                  && t0 + Ideal(|frames| - 1) <= LatestFrame(ms)
                  && (IsFrame(ms[|ms| - 1]) ==> t0 + Ideal(|frames|) > ms[|ms| - 1].timestamp))
  {
    assert ms != [];
    hide Run, Returns, FirstFrame, SilentFrames;
    RunTimed(ms, waitAudioMs);
    var s := Run(ms, waitAudioMs);
    var t0 := FirstFrame(ms).value;
    if t0 < MAX_UINT32 {
      FramesOnTime(s.clock, s.out, t0, LatestFrame(ms));
      if t0 + 21 < TWO32 && IsFrame(ms[|ms| - 1]) {
        NextIsLater(ms, waitAudioMs);
        TickIsIdeal(s.clock, s.out, t0, LatestFrame(ms));
      }
    } else {
      LateStart(SilentFrames(s.out), t0);
    }
  }

  lemma LateStart(frames: seq<Msg>, t0: Timestamp)
    requires frames != [] && frames[0] == SilentFrame(t0) && t0 + 21 >= TWO32
    ensures OnTime(frames, t0) <==> |frames| == 1
  {
    assert Ideal(0) == 0 && Ideal(1) == 21;
    if |frames| > 1 {
      assert frames[1].timestamp < t0 + Ideal(1);
    }
  }

  lemma FramesOnTime(c: Clock, out: seq<Msg>, t0: Timestamp, latest: Timestamp)
    requires InTime(c, out, t0, latest)
    ensures var frames := SilentFrames(out);
            && |frames| == c.count
            && (OnTime(frames, t0) <==> |frames| == 1 || t0 + 21 < TWO32)
            && (t0 + 21 < TWO32 ==> t0 + Ideal(|frames| - 1) <= latest)
  {
    hide Ticks, Ideal, SilentFrames;
    assert Ideal(0) == 0 by {
      NothingYet();
    }
    assert SilentFrames(out)[0] == SilentFrame(t0) by {
      TicksAreIdeal(StartAt(t0), 0);
    }
    if t0 + 21 < TWO32 {
      forall k | 0 <= k < c.count
        ensures IsSilentFrame(SilentFrames(out)[k]) && SilentFrames(out)[k].timestamp == t0 + Ideal(k)
      {
        TicksAreIdeal(StartAt(t0), k);
        IdealGrows(0, k);
        IdealGrows(k, c.count);
      }
      TicksAreIdeal(StartAt(t0), c.count - 1);
    } else {
      LateStart(SilentFrames(out), t0);
    }
  }

  lemma TickIsIdeal(c: Clock, out: seq<Msg>, t0: Timestamp, latest: Timestamp)
    requires InTime(c, out, t0, latest) && t0 + 21 < TWO32
    ensures Tick(c).prev == t0 + Ideal(c.count)
  {
    TicksGoOn(StartAt(t0), c.count - 1);
    hide Ideal, SilentFrames, FramesFrom, Ticks, Tick;
    UnwrappedTicks(t0, c.count);
  }

  lemma TicksGoOn(c: Clock, n: nat)
    ensures Ticks(c, n + 1) == Tick(Ticks(c, n))
  {
  }

  lemma UnwrappedTicks(t0: Timestamp, n: nat)
    requires t0 + Ideal(n) < TWO32
    ensures Ticks(StartAt(t0), n).prev == t0 + Ideal(n)
  {
    hide Ideal, Ticks;
    NothingYet();
    IdealGrows(0, n);
    TicksAreIdeal(StartAt(t0), n);
    NoWrap(t0 + Ideal(n));
  }

  lemma NoWrap(x: int)
    requires 0 <= x < TWO32
    ensures x % TWO32 == x
  {
  }

  /** After a video frame, unless it is the first and the clock wraps at once. */
  lemma NextIsLater(ms: seq<Msg>, waitAudioMs: int)
    requires IsStream(ms) && Returns(ms, waitAudioMs) && Run(ms, waitAudioMs).stage == Dummy
    requires ms != [] && IsFrame(ms[|ms| - 1])
    requires FirstFrame(ms).Some? && FirstFrame(ms).value + 21 < TWO32
    ensures Tick(Run(ms, waitAudioMs).clock).prev > ms[|ms| - 1].timestamp
  {
    hide DummyOut, DummyClock, Answers, DummyAll, AllAnswer, Timed, Conserved, Tick, Run, Returns;
    var n := |ms| - 1;
    LastOfRun(ms, waitAudioMs);
    LastOfStream(ms);
    var s := Run(ms[..n], waitAudioMs);
    assert ms == ms[..n] + [ms[n]];
    if s.stage == Dummy {
      RunTimed(ms[..n], waitAudioMs);
      TimedTick(s.clock, s.out, ms[..n], ms[n]);
    } else {
      InputIsConserved(ms[..n], waitAudioMs);
      AnalysisKeeps(s, ms[..n]);
      AllTimedTick(ms);
    }
  }

  lemma AllTimedTick(ms: seq<Msg>)
    requires IsStream(ms) && AllAnswer(UNSET, ms) && ms != [] && IsFrame(ms[|ms| - 1])
    requires FirstFrame(ms).Some? && FirstFrame(ms).value + 21 < TWO32
    ensures Tick(DummyAll(UNSET, ms).1).prev > ms[|ms| - 1].timestamp
  {
    hide DummyOut, DummyClock, Answers, Timed, Tick, AllAnswer, DummyAll;
    var n := |ms| - 1;
    LastOfAll(UNSET, ms);
    LastOfStream(ms);
    DummyAllTimed(ms[..n]);
    var (out, c) := DummyAll(UNSET, ms[..n]);
    assert ms == ms[..n] + [ms[n]];
    TimedTick(c, out, ms[..n], ms[n]);
  }

  lemma TimedTick(c: Clock, out: seq<Msg>, ms: seq<Msg>, m: Msg)
    requires IsStream(ms) && IsStream(ms + [m]) && Timed(c, out, ms) && Answers(c, m) && IsFrame(m)
    requires FirstFrame(ms + [m]).Some? && FirstFrame(ms + [m]).value + 21 < TWO32
    ensures Tick(DummyClock(c, m)).prev > m.timestamp
  {
    hide InTime, SilentFrames, Loops, LatestFrame, RoomAbove, Ticks;
    assert (ms + [m])[..|ms|] == ms;
    if FirstFrame(ms).Some? {
      FrameInTime(c, out, FirstFrame(ms).value, LatestFrame(ms), m);
    }
  }

  // ------------------------------------------------------ streams that hang

  /** In the dummy stage, fed a video frame at time t, the program returns if
      and only if some v with t < v < 2^32 is 0, 21 or 42 modulo 64 after the
      first video frame; otherwise its loop makes silent frames for ever. */
  lemma FrameReturnsIff(ms: seq<Msg>, waitAudioMs: int, m: Msg)
    requires IsStream(ms) && Returns(ms, waitAudioMs) && Run(ms, waitAudioMs).stage == Dummy
    requires IsFrame(m) && FirstFrame(ms).Some? && FirstFrame(ms).value < MAX_UINT32
    ensures var s := Run(ms, waitAudioMs);
            && (FeedReturns(s, m, waitAudioMs) <==> RoomAbove(FirstFrame(ms).value, m.timestamp))
            && (!FeedReturns(s, m, waitAudioMs) ==> forall n: nat :: n > 0 ==> Ticks(s.clock, n).prev <= m.timestamp)
  {
    hide Run, Returns, RoomAbove, Origin, Ticks;
    RunTimed(ms, waitAudioMs);
    var s := Run(ms, waitAudioMs);
    ClockRoom(s.clock, s.out, FirstFrame(ms).value, LatestFrame(ms), m.timestamp);
    LoopEndsIff(s.clock, m.timestamp);
    hide FirstFrame, InTime, LatestFrame;
  }

  /** A clock in time leaves room where its first frame does. */
  lemma ClockRoom(c: Clock, out: seq<Msg>, t0: Timestamp, latest: Timestamp, t: Timestamp)
    requires InTime(c, out, t0, latest)
    ensures RoomAbove(Origin(c), t) <==> RoomAbove(t0, t)
    ensures c.prev != MAX_UINT32
  {
    hide RoomAbove, Ideal, Ticks, SilentFrames;
    TicksAreIdeal(StartAt(t0), c.count - 1);
    assert Ideal(0) == 0 by {
      NothingYet();
    }
    SameRoom(t0, Ideal(c.count - 1), t);
  }

  /** A wrap of the clock does not move its grid. */
  lemma SameRoom(t0: Timestamp, d: int, t: Timestamp)
    ensures RoomAbove((t0 + d) % TWO32 - d, t) <==> RoomAbove(t0, t)
  {
    var x, origin := (t0 + d) / TWO32, (t0 + d) % TWO32 - d;
    assert origin == t0 - 64 * (0x400_0000 * x);
    forall v: int
      ensures OnGrid(origin, v) <==> OnGrid(t0, v)
    {
      SameClass(v - t0, -(0x400_0000 * x));
    }
  }

  /** From any dummy stage a last frame can hang the program: one at the largest
      timestamp always does. */
  lemma LargestTimestampHangs(ms: seq<Msg>, waitAudioMs: int, m: Msg)
    requires IsStream(ms) && Returns(ms, waitAudioMs) && Run(ms, waitAudioMs).stage == Dummy
    requires IsFrame(m) && FirstFrame(ms).Some? && FirstFrame(ms).value < MAX_UINT32
    requires m.timestamp == MAX_UINT32
    ensures !FeedReturns(Run(ms, waitAudioMs), m, waitAudioMs)
  {
    hide Run, Returns, FirstFrame;
    FrameReturnsIff(ms, waitAudioMs, m);
  }

  function InterFrame(ts: Timestamp): Msg {
    Msg(VIDEO, ts, [AVC_INTER_FRAME, PACKET_NALU])
  }

  /** Two video frames, the waiting time apart, and a third 2 ms below 2^32:
      the program returns from the two, is in the dummy stage, and never
      returns from the third, although times above it are left. */
  lemma HangIsReachable(waitAudioMs: int)
    requires 0 <= waitAudioMs < TWO32 - 22
    ensures var ms := [InterFrame(0), InterFrame(waitAudioMs)];
            && IsStream(ms) && Returns(ms, waitAudioMs) && Run(ms, waitAudioMs).stage == Dummy
            && !Returns(ms + [InterFrame(MAX_UINT32 - 1)], waitAudioMs)
  {
    var first, second, third := InterFrame(0), InterFrame(waitAudioMs), InterFrame(MAX_UINT32 - 1);
    var ms := [first, second];
    TwoFramesReturn(waitAudioMs);
    hide Run, Returns;
    assert FirstFrame(ms) == Some(0) by {
      assert ms[..1] == [first] && [first][..0] == [] && FirstFrame([]) == None;
      assert FirstFrame([first]) == Some(0);
      assert ms[1] == second;
    }
    hide FirstFrame;
    FrameReturnsIff(ms, waitAudioMs, third);
    NoRoomAtTheTop();
    NotReturns(ms, third, waitAudioMs);
  }

  lemma NoRoomAtTheTop()
    ensures !RoomAbove(0, MAX_UINT32 - 1)
  {
    assert !OnGrid(0, MAX_UINT32);
  }

  lemma NotReturns(ms: seq<Msg>, m: Msg, waitAudioMs: int)
    requires Returns(ms, waitAudioMs) && !FeedReturns(Run(ms, waitAudioMs), m, waitAudioMs)
    ensures !Returns(ms + [m], waitAudioMs)
  {
    assert (ms + [m])[..|ms|] == ms;
  }

  lemma TwoFramesReturn(waitAudioMs: int)
    requires 0 <= waitAudioMs < TWO32 - 22
    ensures var ms := [InterFrame(0), InterFrame(waitAudioMs)];
            Returns(ms, waitAudioMs) && Run(ms, waitAudioMs).stage == Dummy
  {
    hide RoomAbove, Origin, Run, Returns;
    RoomBelowTheTop(Origin(StartAt(0)), waitAudioMs);
    TwoFrames(0, waitAudioMs, waitAudioMs);
  }

  /** Two video frames, the second after the waiting time. */
  lemma TwoFrames(t1: Timestamp, t2: Timestamp, waitAudioMs: int)
    requires t1 < MAX_UINT32 && WaitedEnough(t1, InterFrame(t2), waitAudioMs) && RoomAbove(Origin(StartAt(t1)), t2)
    ensures var first, second, c := InterFrame(t1), InterFrame(t2), StartAt(t1);
            var n := Loops(c, t2);
            && Returns([first, second], waitAudioMs)
            && Run([first, second], waitAudioMs)
               == State(Dummy, [], t1, Ticks(c, n), [SilentFrame(t1), first] + (Silence(c, n) + [second]))
  {
    hide Ticks, RoomAbove, Origin, Silence, Loops, DummyAll, AllAnswer, Returns, Run, WaitedEnough;
    var first, second, c := InterFrame(t1), InterFrame(t2), StartAt(t1);
    NotDummyYet(waitAudioMs);
    RunPush([], first, waitAudioMs);
    assert [] + [first] == [first] && [first] + [second] == [first, second];
    assert Run([first], waitAudioMs) == State(Analysis, [first], t1, UNSET, []);
    NothingAnswered(UNSET);
    AllAnswerOne(UNSET, [], first);
    assert DummyOut(UNSET, first) == [SilentFrame(t1), first];
    assert [] + [SilentFrame(t1), first] == [SilentFrame(t1), first];
    AllAnswerOne(UNSET, [first], second);
    RunPush([first], second, waitAudioMs);
    assert [] + DummyAll(UNSET, [first, second]).0 == DummyAll(UNSET, [first, second]).0;
  }

  lemma AllAnswerOne(c: Clock, ms: seq<Msg>, m: Msg)
    requires AllAnswer(c, ms) && Answers(DummyAll(c, ms).1, m)
    ensures AllAnswer(c, ms + [m])
    ensures DummyAll(c, ms + [m]) == (DummyAll(c, ms).0 + DummyOut(DummyAll(c, ms).1, m), DummyClock(DummyAll(c, ms).1, m))
  {
    hide DummyOut, DummyClock, Answers;
    assert (ms + [m])[..|ms|] == ms;
  }

  // ------------------------------------------------- a stream that wraps

  lemma StopIsUnique(c: Clock, t: Timestamp, m: nat, n: nat)
    requires StopsAfter(c, t, m) && StopsAfter(c, t, n)
    ensures m == n
  {
    var j, k := m + 1, n + 1;
    assert Ticks(c, j).prev > t && Ticks(c, k).prev > t;
  }

  /** A first video frame 10 ms below 2^32, and two more at 5 and 11 after the
      wrap: the program returns from all, and its two silent frames are not on
      time, because the clock wrapped with them. */
  lemma WrapIsReachable(waitAudioMs: int)
    requires 0 <= waitAudioMs <= 15
    ensures var ms := [InterFrame(TWO32 - 10), InterFrame(5), InterFrame(11)];
            && IsStream(ms) && Returns(ms, waitAudioMs) && Run(ms, waitAudioMs).stage == Dummy
            && SilentFrames(Run(ms, waitAudioMs).out) == [SilentFrame(TWO32 - 10), SilentFrame(11)]
            && !OnTime(SilentFrames(Run(ms, waitAudioMs).out), TWO32 - 10)
  {
    var first, second, third := InterFrame(TWO32 - 10), InterFrame(5), InterFrame(11);
    var c := StartAt(TWO32 - 10);
    FirstTwo(waitAudioMs);
    LoopAcrossWrap();
    hide Run, Returns, Origin, RoomAbove, Silence, Loops, Ticks;
    RunPush([first, second], third, waitAudioMs);
    assert [first, second] + [third] == [first, second, third];
    assert DummyOut(c, third) == [SilentFrame(11)] + [third];
    FiveMessages(SilentFrame(TWO32 - 10), first, second, SilentFrame(11), third);
    assert [SilentFrame(TWO32 - 10), first, second] + ([SilentFrame(11)] + [third])
        == [SilentFrame(TWO32 - 10), first, second, SilentFrame(11), third];
    NotOnTime();
  }

  lemma NotOnTime()
    ensures !OnTime([SilentFrame(TWO32 - 10), SilentFrame(11)], TWO32 - 10)
  {
    assert [SilentFrame(TWO32 - 10), SilentFrame(11)][1].timestamp == 11 && Ideal(1) == 21;
  }

  /** The loop makes nothing for 5, and one frame, at 11, for 11. */
  lemma LoopAcrossWrap()
    ensures var c := StartAt(TWO32 - 10);
            && RoomAbove(Origin(c), 5) && Loops(c, 5) == 0
            && RoomAbove(Origin(c), 11) && Loops(c, 11) == 1 && Silence(c, 1) == [SilentFrame(11)]
  {
    var c := StartAt(TWO32 - 10);
    assert Tick(c) == Clock(11, 2) && Tick(Clock(11, 2)) == Clock(32, 3);
    assert Ticks(c, 0) == c && Ticks(c, 1) == Clock(11, 2);
    assert Ticks(c, 2) == Clock(32, 3);
    assert OnGrid(Origin(c), TWO32 - 10);
    hide Ticks, Tick, RoomAbove, Origin;
    assert RoomAbove(Origin(c), 5) && RoomAbove(Origin(c), 11) by {
      RoomBelowTheTop(Origin(c), 5);
      RoomBelowTheTop(Origin(c), 11);
    }
    assert Ticks(c, 0 + 1).prev > 5 && Ticks(c, 1 + 1).prev > 11;
    StopIsUnique(c, 5, 0, Loops(c, 5));
    StopIsUnique(c, 11, 1, Loops(c, 11));
  }

  lemma FirstTwo(waitAudioMs: int)
    requires 0 <= waitAudioMs <= 15
    ensures var first, second := InterFrame(TWO32 - 10), InterFrame(5);
            var ms := [first, second];
            && Returns(ms, waitAudioMs)
            && Run(ms, waitAudioMs)
               == State(Dummy, [], TWO32 - 10, StartAt(TWO32 - 10), [SilentFrame(TWO32 - 10), first, second])
  {
    var first, second, c := InterFrame(TWO32 - 10), InterFrame(5), StartAt(TWO32 - 10);
    LoopAcrossWrap();
    NoSilence(c);
    assert Ticks(c, 0) == c;
    hide Ticks, RoomAbove, Origin, Silence, Loops, Returns, Run;
    TwoFrames(TWO32 - 10, 5, waitAudioMs);
    assert [] + [second] == [second];
    assert [SilentFrame(TWO32 - 10), first] + [second] == [SilentFrame(TWO32 - 10), first, second];
  }

  lemma FiveMessages(x: Msg, a: Msg, b: Msg, y: Msg, d: Msg)
    requires IsSilentFrame(x) && IsSilentFrame(y) && !IsSilentFrame(a) && !IsSilentFrame(b) && !IsSilentFrame(d)
    ensures SilentFrames([x, a, b, y, d]) == [x, y]
  {
    hide IsSilentFrame, SilentFrames;
    TwoMessages(x, a);
    TwoMessages(y, d);
    OneMessage(b);
    FiltersConcat([x, a], [b]);
    FiltersConcat([x, a] + [b], [y, d]);
    assert [x, a] + [b] + [y, d] == [x, a, b, y, d];
  }

  lemma TwoMessages(x: Msg, a: Msg)
    requires IsSilentFrame(x) && !IsSilentFrame(a)
    ensures SilentFrames([x, a]) == [x]
  {
    hide IsSilentFrame, SilentFrames;
    OneMessage(x);
    OneMessage(a);
    FiltersConcat([x], [a]);
    assert [x] + [a] == [x, a];
  }

  // -------------------------------------------------------- the program

  class DummyAudioFilter {
    const waitAudioMs: int
    var stage: Stage
    var earlyStageQueue: seq<Msg>
    var firstVideoTs: Timestamp
    var prevAudioTs: Timestamp
    var audioCount: nat
    ghost var out: seq<Msg>     // everything handed to onPop, in order
    ghost var input: seq<Msg>

    ghost function View(): State
      reads this
    {
      State(stage, earlyStageQueue, firstVideoTs, ClockView(), out)
    }

    ghost function ClockView(): Clock
      reads this
    {
      Clock(prevAudioTs, audioCount)
    }

    ghost predicate Valid()
      reads this
    {
      Returns(input, waitAudioMs) && View() == Run(input, waitAudioMs)
    }

    constructor (waitAudioMs: int)
      ensures Valid() && input == [] && this.waitAudioMs == waitAudioMs
    {
      this.waitAudioMs := waitAudioMs;
      stage, earlyStageQueue := Analysis, [];
      firstVideoTs, prevAudioTs, audioCount := MAX_UINT32, MAX_UINT32, 0;
      out, input := [], [];
    }

    /** Feeds one message, from which the program returns: FrameReturnsIff says
        which those are. */
    method Feed(msg: Msg)
      requires Valid() && FeedReturns(View(), msg, waitAudioMs)
      modifies this
      ensures Valid() && input == old(input) + [msg]
      ensures View() == Step(old(View()), msg, waitAudioMs)
    {
      hide Run, Returns, AllAnswer, DummyAll, DummyOut, DummyClock, Answers;
      RunPush(input, msg, waitAudioMs);
      match stage {
        case Analysis => HandleAnalysisStage(msg);
        case Normal => OnPop(msg);
        case Dummy => HandleDummyStage(msg);
      }
      input := input + [msg];
    }

    method HandleAnalysisStage(msg: Msg)
      requires stage == Analysis && FeedReturns(View(), msg, waitAudioMs)
      modifies this
      ensures View() == Step(old(View()), msg, waitAudioMs) && input == old(input)
      ensures msg.typeId !in {8, 9, 18} ==> View() == old(View())
    {
      hide DummyOut, DummyClock, DummyAll, Answers, AllAnswer;
      if msg.typeId == METADATA {
        earlyStageQueue := earlyStageQueue + [msg];
      } else if msg.typeId == AUDIO {
        PopQueue();
        OnPop(msg);
        stage := Normal;
      } else if msg.typeId == VIDEO {
        if msg.IsVideoKeySeqHeader() {
          earlyStageQueue := earlyStageQueue + [msg];
          return;
        }
        if firstVideoTs == MAX_UINT32 {
          earlyStageQueue := earlyStageQueue + [msg];
          firstVideoTs := msg.timestamp;
          return;
        }
        if (msg.timestamp - firstVideoTs) % TWO32 < waitAudioMs % TWO32 {
          earlyStageQueue := earlyStageQueue + [msg];
          return;
        }
        AllAnswerPush(ClockView(), earlyStageQueue, msg);
        stage := Dummy;
        ReplayQueue();
        earlyStageQueue := [];
        HandleDummyStage(msg);
      }
    }

    /** Hands the queued messages on as they are. */
    method PopQueue()
      modifies `out
      ensures out == old(out) + earlyStageQueue
    {
      for i := 0 to |earlyStageQueue|
        invariant out == old(out) + earlyStageQueue[..i]
      {
        OnPop(earlyStageQueue[i]);
      }
    }

    /** Puts the queued messages through the dummy stage. */
    method ReplayQueue()
      requires AllAnswer(ClockView(), earlyStageQueue)
      modifies `out, `prevAudioTs, `audioCount
      ensures out == old(out) + DummyAll(old(ClockView()), earlyStageQueue).0
      ensures ClockView() == DummyAll(old(ClockView()), earlyStageQueue).1
    {
      hide DummyOut, DummyClock, Answers;
      var queue := earlyStageQueue;
      ghost var c := ClockView();
      PrefixesAnswer(c, queue);
      for i := 0 to |queue|
        invariant AllAnswer(c, queue[..i])
        invariant out == old(out) + DummyAll(c, queue[..i]).0
        invariant ClockView() == DummyAll(c, queue[..i]).1
      {
        assert queue[..i + 1][..i] == queue[..i];
        assert AllAnswer(c, queue[..i + 1]);
        HandleDummyStage(queue[i]);
      }
      assert queue[..|queue|] == queue;
    }

    method HandleDummyStage(msg: Msg)
      requires Answers(ClockView(), msg)
      modifies `out, `prevAudioTs, `audioCount
      ensures out == old(out) + DummyOut(old(ClockView()), msg)
      ensures ClockView() == DummyClock(old(ClockView()), msg)
    {
      hide RoomAbove, Origin;
      if msg.typeId == AUDIO {
        return;
      }
      if msg.typeId == METADATA {
        OnPop(msg);
        return;
      }
      if msg.IsVideoKeySeqHeader() {
        var ats := msg.timestamp;
        OnPop(SilentHeader(ats));
        OnPop(msg);
        return;
      }
      if prevAudioTs == MAX_UINT32 {
        var ats := msg.timestamp;
        var amsg := MakeOneAudio(ats);
        OnPop(amsg);
        OnPop(msg);
        prevAudioTs := ats;
      } else {
        CatchUp(msg.timestamp);
        OnPop(msg);
      }
    }

    /** The loop of the dummy stage: audio up to time t. */
    method CatchUp(t: Timestamp)
      requires RoomAbove(Origin(ClockView()), t)
      modifies `out, `prevAudioTs, `audioCount
      ensures out == old(out) + Silence(old(ClockView()), Loops(old(ClockView()), t))
      ensures ClockView() == Ticks(old(ClockView()), Loops(old(ClockView()), t))
    {
      hide RoomAbove, Origin, Silence;
      ghost var c := ClockView();
      ghost var loops := Loops(c, t);
      ghost var n := 0;
      NoSilence(c);
      while true
        invariant n <= loops && ClockView() == Ticks(c, n) && out == old(out) + Silence(c, n)
        decreases loops - n
      {
        var duration := if audioCount % 3 == 1 || audioCount % 3 == 2 then 21 else 22;
        var ats := (prevAudioTs + duration) % TWO32;
        assert Tick(ClockView()).prev == ats && Ticks(c, n + 1) == Tick(ClockView());
        if ats > t {
          ghost var next := n + 1;
          assert next > loops by {
            assert Ticks(c, next).prev > t;
          }
          break;
        }
        StillLooping(c, t, n);
        SilencePush(c, n);
        var amsg := MakeOneAudio(ats);
        OnPop(amsg);
        prevAudioTs := ats;
        n := n + 1;
      }
    }

    method MakeOneAudio(ts: Timestamp) returns (msg: Msg)
      modifies `audioCount
      ensures audioCount == old(audioCount) + 1 && msg == SilentFrame(ts)
    {
      audioCount := audioCount + 1;
      msg := Msg(AUDIO, ts, [0xAF, 0x01, 0x21, 0x10, 0x04, 0x60, 0x8C, 0x1C]);
    }

    method OnPop(msg: Msg)
      modifies `out
      ensures out == old(out) + [msg]
    {
      out := out + [msg];
    }
  }

  lemma NoSilence(c: Clock)
    ensures Silence(c, 0) == []
  {
  }

  lemma SilencePush(c: Clock, n: nat)
    ensures Silence(c, n + 1) == Silence(c, n) + [SilentFrame(Ticks(c, n + 1).prev)]
  {
    hide Ticks;
  }

  lemma StillLooping(c: Clock, t: Timestamp, n: nat)
    requires RoomAbove(Origin(c), t) && n <= Loops(c, t) && Ticks(c, n + 1).prev <= t
    ensures n < Loops(c, t)
  {
    assert StopsAfter(c, t, Loops(c, t));
  }

  lemma AllAnswerPush(c: Clock, ms: seq<Msg>, m: Msg)
    requires AllAnswer(c, ms + [m])
    ensures AllAnswer(c, ms) && Answers(DummyAll(c, ms).1, m)
    ensures DummyAll(c, ms + [m]) == (DummyAll(c, ms).0 + DummyOut(DummyAll(c, ms).1, m), DummyClock(DummyAll(c, ms).1, m))
  {
    hide DummyOut, DummyClock, Answers;
    assert (ms + [m])[..|ms|] == ms;
  }

  lemma {:induction false} PrefixesAnswer(c: Clock, ms: seq<Msg>)
    requires AllAnswer(c, ms)
    ensures forall i :: 0 <= i <= |ms| ==> AllAnswer(c, ms[..i])
  {
    hide DummyAll, Answers;
    assert ms[..|ms|] == ms;
    if ms != [] {
      var n := |ms| - 1;
      PrefixesAnswer(c, ms[..n]);
      forall i | 0 <= i <= n
        ensures AllAnswer(c, ms[..i])
      {
        assert ms[..n][..i] == ms[..i];
      }
    }
  }

  lemma RunPush(ms: seq<Msg>, m: Msg, waitAudioMs: int)
    requires Returns(ms, waitAudioMs) && FeedReturns(Run(ms, waitAudioMs), m, waitAudioMs)
    ensures Returns(ms + [m], waitAudioMs)
    ensures Run(ms + [m], waitAudioMs) == Step(Run(ms, waitAudioMs), m, waitAudioMs)
  {
    hide FeedReturns, Step;
    assert (ms + [m])[..|ms|] == ms;
  }
}
