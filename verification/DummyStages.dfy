/** Which stage the dummy-audio filter is in and what it hands on, told from the
    messages fed to it. */
module DummyStages {
  import opened Bytes
  import opened RtmpMsg
  import opened DummyAudio

  // -------------------------------------------------- what decides the stage

  /** A video message that is no sequence header. */
  predicate IsVideoFrame(m: Msg) {
    m.typeId == 9 && m.VideoReadable() && !m.IsVideoKeySeqHeader()
  }

  /** The frame the waiting time is counted from: the first one not at the largest
      timestamp, which the filter takes for none. */
  predicate IsFirstFrame(ms: seq<Msg>, f: nat) {
    && f < |ms| && IsVideoFrame(ms[f]) && ms[f].timestamp != 0xFFFF_FFFF
    && forall j :: 0 <= j < f && IsVideoFrame(ms[j]) ==> ms[j].timestamp == 0xFFFF_FFFF
  }

  /** Message i is a later frame, and the waiting time is over, in uint32. */
  ghost predicate TimesOut(ms: seq<Msg>, i: nat, waitAudioMs: int) {
    && i < |ms| && IsVideoFrame(ms[i])
    && exists f :: 0 <= f < i && IsFirstFrame(ms, f)
                   && (ms[i].timestamp - ms[f].timestamp) % 0x1_0000_0000 >= waitAudioMs % 0x1_0000_0000
  }

  /** Some audio message comes before any frame that is too late. */
  ghost predicate AudioInTime(ms: seq<Msg>, waitAudioMs: int) {
    exists a :: 0 <= a < |ms| && ms[a].typeId == 8 && forall i: nat :: i < a ==> !TimesOut(ms, i, waitAudioMs)
  }

  /** Such a frame comes before any audio. */
  ghost predicate AudioTooLate(ms: seq<Msg>, waitAudioMs: int) {
    exists i: nat :: i < |ms| && TimesOut(ms, i, waitAudioMs) && forall a :: 0 <= a < i ==> ms[a].typeId != 8
  }

  // -------------------------------------------------------- one message more

  lemma FirstFramePush(ms: seq<Msg>, m: Msg, f: nat)
    requires f < |ms|
    ensures IsFirstFrame(ms + [m], f) <==> IsFirstFrame(ms, f)
  {
    hide IsVideoFrame;
    assert forall j :: 0 <= j <= f ==> (ms + [m])[j] == ms[j];
  }

  lemma TimesOutPush(ms: seq<Msg>, m: Msg, i: nat, waitAudioMs: int)
    requires i < |ms|
    ensures TimesOut(ms + [m], i, waitAudioMs) <==> TimesOut(ms, i, waitAudioMs)
  {
    hide IsVideoFrame, IsFirstFrame;
    forall f | 0 <= f < i
      ensures IsFirstFrame(ms + [m], f) <==> IsFirstFrame(ms, f)
    {
      FirstFramePush(ms, m, f);
    }
  }

  lemma AudioInTimePush(ms: seq<Msg>, m: Msg, waitAudioMs: int)
    requires AudioInTime(ms, waitAudioMs)
    ensures AudioInTime(ms + [m], waitAudioMs)
  {
    hide TimesOut;
    var a :| 0 <= a < |ms| && ms[a].typeId == 8 && forall i: nat :: i < a ==> !TimesOut(ms, i, waitAudioMs);
    assert (ms + [m])[a] == ms[a];
    forall i: nat | i < a
      ensures !TimesOut(ms + [m], i, waitAudioMs)
    {
      TimesOutPush(ms, m, i, waitAudioMs);
    }
  }

  lemma AudioTooLatePush(ms: seq<Msg>, m: Msg, waitAudioMs: int)
    requires AudioTooLate(ms, waitAudioMs)
    ensures AudioTooLate(ms + [m], waitAudioMs)
  {
    hide TimesOut;
    var i: nat :| i < |ms| && TimesOut(ms, i, waitAudioMs) && forall a :: 0 <= a < i ==> ms[a].typeId != 8;
    TimesOutPush(ms, m, i, waitAudioMs);
    assert forall a :: 0 <= a < i ==> (ms + [m])[a] == ms[a];
  }

  /** Neither has come: no audio, and no frame that is too late. */
  ghost predicate Undecided(ms: seq<Msg>, waitAudioMs: int) {
    && (forall a :: 0 <= a < |ms| ==> ms[a].typeId != 8)
    && (forall i: nat :: i < |ms| ==> !TimesOut(ms, i, waitAudioMs))
  }

  /** Exactly one of the three holds. */
  lemma OneOfThree(ms: seq<Msg>, waitAudioMs: int)
    ensures !(AudioInTime(ms, waitAudioMs) && AudioTooLate(ms, waitAudioMs))
    ensures Undecided(ms, waitAudioMs) ==> !AudioInTime(ms, waitAudioMs) && !AudioTooLate(ms, waitAudioMs)
  {
    hide IsFirstFrame;
    if AudioInTime(ms, waitAudioMs) {
      var a :| 0 <= a < |ms| && ms[a].typeId == 8 && forall i: nat :: i < a ==> !TimesOut(ms, i, waitAudioMs);
      forall i: nat | i < |ms| && TimesOut(ms, i, waitAudioMs)
        ensures a < i
      {
      }
    }
  }

  /** The time that is kept as that of the first frame. */
  ghost predicate FirstKept(ms: seq<Msg>, first: Timestamp) {
    if first == 0xFFFF_FFFF then forall f: nat :: !IsFirstFrame(ms, f)
    else exists f :: 0 <= f < |ms| && IsFirstFrame(ms, f) && ms[f].timestamp == first
  }

  lemma {:induction false} NoFirstFrame(ms: seq<Msg>, k: nat)
    requires k <= |ms| && forall f: nat :: !IsFirstFrame(ms, f)
    ensures forall j :: 0 <= j < k && IsVideoFrame(ms[j]) ==> ms[j].timestamp == 0xFFFF_FFFF
  {
    hide IsVideoFrame;
    if k > 0 {
      NoFirstFrame(ms, k - 1);
      assert !IsFirstFrame(ms, k - 1);
    }
  }

  lemma FirstIsUnique(ms: seq<Msg>, f: nat, g: nat)
    requires IsFirstFrame(ms, f) && IsFirstFrame(ms, g)
    ensures f == g
  {
    hide IsVideoFrame;
  }

  /** What a frame makes of the time kept. */
  lemma KeptPush(ms: seq<Msg>, m: Msg, first: Timestamp)
    requires FirstKept(ms, first)
    ensures FirstKept(ms + [m], if IsVideoFrame(m) && first == 0xFFFF_FFFF then m.timestamp else first)
  {
    hide IsVideoFrame;
    var longer := ms + [m];
    forall f: nat | f < |ms|
      ensures IsFirstFrame(longer, f) <==> IsFirstFrame(ms, f)
      ensures longer[f] == ms[f]
    {
      FirstFramePush(ms, m, f);
    }
    if first == 0xFFFF_FFFF {
      NoFirstFrame(ms, |ms|);
      assert longer[|ms|] == m;
      if IsVideoFrame(m) && m.timestamp != 0xFFFF_FFFF {
        assert IsFirstFrame(longer, |ms|);
      } else {
        assert !IsFirstFrame(longer, |ms|);
      }
    } else {
      var f :| 0 <= f < |ms| && IsFirstFrame(ms, f) && ms[f].timestamp == first;
      assert IsFirstFrame(longer, f);
    }
  }

  /** Whether the message just fed is too late, by the time kept. */
  lemma LastTimesOut(ms: seq<Msg>, m: Msg, first: Timestamp, waitAudioMs: int)
    requires FirstKept(ms, first)
    ensures TimesOut(ms + [m], |ms|, waitAudioMs)
       <==> IsVideoFrame(m) && first != 0xFFFF_FFFF && (m.timestamp - first) % 0x1_0000_0000 >= waitAudioMs % 0x1_0000_0000
  {
    hide IsVideoFrame, IsFirstFrame;
    var longer := ms + [m];
    assert longer[|ms|] == m;
    forall f: nat | f < |ms|
      ensures IsFirstFrame(longer, f) <==> IsFirstFrame(ms, f)
      ensures longer[f] == ms[f]
    {
      FirstFramePush(ms, m, f);
    }
    if first != 0xFFFF_FFFF {
      var g :| 0 <= g < |ms| && IsFirstFrame(ms, g) && ms[g].timestamp == first;
      forall f: nat | f < |ms| && IsFirstFrame(ms, f)
        ensures f == g
      {
        FirstIsUnique(ms, f, g);
      }
      assert IsFirstFrame(longer, g);
    }
  }

  // ------------------------------------------------------------ the stages

  /** The stage as the input decides it. */
  ghost predicate StageAsTold(s: State, ms: seq<Msg>, waitAudioMs: int) {
    match s.stage
    case Analysis => Undecided(ms, waitAudioMs) && FirstKept(ms, s.firstVideo)
    case Normal => AudioInTime(ms, waitAudioMs)
    case Dummy => AudioTooLate(ms, waitAudioMs)
  }

  lemma StillUndecided(ms: seq<Msg>, m: Msg, waitAudioMs: int)
    requires Undecided(ms, waitAudioMs) && m.typeId != 8 && !TimesOut(ms + [m], |ms|, waitAudioMs)
    ensures Undecided(ms + [m], waitAudioMs)
  {
    hide TimesOut;
    forall i: nat | i < |ms + [m]|
      ensures !TimesOut(ms + [m], i, waitAudioMs)
    {
      if i < |ms| {
        TimesOutPush(ms, m, i, waitAudioMs);
      }
    }
  }

  lemma NowDecided(ms: seq<Msg>, m: Msg, waitAudioMs: int)
    requires Undecided(ms, waitAudioMs)
    ensures m.typeId == 8 ==> AudioInTime(ms + [m], waitAudioMs)
    ensures TimesOut(ms + [m], |ms|, waitAudioMs) ==> AudioTooLate(ms + [m], waitAudioMs)
  {
    hide TimesOut;
    var longer := ms + [m];
    assert longer[|ms|] == m && forall a :: 0 <= a < |ms| ==> longer[a] == ms[a];
    forall i: nat | i < |ms|
      ensures !TimesOut(longer, i, waitAudioMs)
    {
      TimesOutPush(ms, m, i, waitAudioMs);
    }
  }

  lemma StageStep(s: State, ms: seq<Msg>, m: Msg, waitAudioMs: int)
    requires StageAsTold(s, ms, waitAudioMs) && FeedReturns(s, m, waitAudioMs)
    ensures StageAsTold(Step(s, m, waitAudioMs), ms + [m], waitAudioMs)
  {
    hide Undecided, AudioInTime, AudioTooLate, FirstKept, TimesOut, Answers, AllAnswer, DummyAll, DummyOut, DummyClock;
    match s.stage
    case Normal => AudioInTimePush(ms, m, waitAudioMs);
    case Dummy => AudioTooLatePush(ms, m, waitAudioMs);
    case Analysis =>
      LastTimesOut(ms, m, s.firstVideo, waitAudioMs);
      NowDecided(ms, m, waitAudioMs);
      if m.typeId != 8 && !TimesOut(ms + [m], |ms|, waitAudioMs) {
        StillUndecided(ms, m, waitAudioMs);
        KeptPush(ms, m, s.firstVideo);
      }
  }

  lemma {:induction false} RunIsAsTold(ms: seq<Msg>, waitAudioMs: int)
    requires Returns(ms, waitAudioMs)
    ensures StageAsTold(Run(ms, waitAudioMs), ms, waitAudioMs)
  {
    hide FeedReturns, Step, StageAsTold, Run, Returns;
    if ms == [] {
      NothingDecided(waitAudioMs);
    } else {
      var n := |ms| - 1;
      LastOfRun(ms, waitAudioMs);
      RunIsAsTold(ms[..n], waitAudioMs);
      StageStep(Run(ms[..n], waitAudioMs), ms[..n], ms[n], waitAudioMs);
      assert ms == ms[..n] + [ms[n]];
    }
  }

  lemma NothingDecided(waitAudioMs: int)
    ensures Returns([], waitAudioMs) && StageAsTold(Run([], waitAudioMs), [], waitAudioMs)
  {
  }

  /** For every stream from which the program returns: the filter is in the normal
      stage if and only if audio came in time, in the dummy stage if and only if a
      frame came too late before any audio, and still analyses otherwise. */
  lemma StageFromInput(ms: seq<Msg>, waitAudioMs: int)
    requires Returns(ms, waitAudioMs)
    ensures var stage := Run(ms, waitAudioMs).stage;
            && (stage == Normal <==> AudioInTime(ms, waitAudioMs))
            && (stage == Dummy <==> AudioTooLate(ms, waitAudioMs))
  {
    hide Run, Returns, Undecided, AudioInTime, AudioTooLate, FirstKept;
    RunIsAsTold(ms, waitAudioMs);
    OneOfThree(ms, waitAudioMs);
  }

  /** A stream whose audio comes in time is handed on exactly as it is, so without a
      silent frame of the filter's; until something is decided nothing is. */
  lemma AudioInTimePasses(ms: seq<Msg>, waitAudioMs: int)
    requires IsStream(ms) && Returns(ms, waitAudioMs)
    ensures AudioInTime(ms, waitAudioMs) ==> Run(ms, waitAudioMs).out == ms
    ensures !AudioInTime(ms, waitAudioMs) && !AudioTooLate(ms, waitAudioMs) ==> Run(ms, waitAudioMs).out == []
  {
    hide Run, Returns, IsStream, AudioInTime, AudioTooLate, WithoutAudio;
    StageFromInput(ms, waitAudioMs);
    InputIsConserved(ms, waitAudioMs);
  }

  // ---------------------------------------------- what the dummy stage adds

  /** What is handed on for one message: audio is dropped; anything else passes,
      behind an AAC sequence header of the same time if it is a video sequence
      header, and behind nothing but silent AAC frames if it is a video frame. */
  ghost predicate Adds(added: seq<Msg>, m: Msg) {
    if m.typeId == 8 then added == []
    else
      && added != [] && added[|added| - 1] == m
      && var before := added[..|added| - 1];
         if m.typeId == 18 then before == []
         else if m.VideoReadable() && m.IsVideoKeySeqHeader() then before == [Msg(8, m.timestamp, [0xAF, 0x00, 0x11, 0x90])]
         else forall x :: x in before ==> x == Msg(8, x.timestamp, [0xAF, 0x01, 0x21, 0x10, 0x04, 0x60, 0x8C, 0x1C])
  }

  /** The input with what is added to each message, in order. */
  ghost predicate Woven(out: seq<Msg>, ms: seq<Msg>)
    decreases |ms|
  {
    if ms == [] then out == []
    else exists k :: 0 <= k <= |out| && Woven(out[..k], ms[..|ms| - 1]) && Adds(out[k..], ms[|ms| - 1])
  }

  lemma WovenPush(out: seq<Msg>, ms: seq<Msg>, added: seq<Msg>, m: Msg)
    requires Woven(out, ms) && Adds(added, m)
    ensures Woven(out + added, ms + [m])
  {
    hide Adds;
    Cut(out, added);
    assert (ms + [m])[..|ms|] == ms;
    var k := |out|;
    assert Woven((out + added)[..k], ms) && Adds((out + added)[k..], m);
  }

  lemma DummyAdds(c: Clock, m: Msg)
    requires Answers(c, m)
    ensures Adds(DummyOut(c, m), m)
  {
    hide RoomAbove, Origin, Ticks, Silence;
    if m.typeId != AUDIO && m.typeId != METADATA && !m.IsVideoKeySeqHeader() {
      var before := if c.prev == MAX_UINT32 then [SilentFrame(m.timestamp)] else Silence(c, Loops(c, m.timestamp));
      assert DummyOut(c, m) == before + [m];
      Cut(before, [m]);
      AllSilent(c, if c.prev == MAX_UINT32 then 0 else Loops(c, m.timestamp));
    }
  }

  lemma AllSilent(c: Clock, n: nat)
    ensures forall x :: x in Silence(c, n) ==> x == SilentFrame(x.timestamp)
  {
    hide Ticks;
  }

  lemma {:induction false} DummyWeaves(c: Clock, ms: seq<Msg>)
    requires AllAnswer(c, ms)
    ensures Woven(DummyAll(c, ms).0, ms)
  {
    hide Answers, DummyOut, DummyClock, AllAnswer, DummyAll, Adds;
    if ms == [] {
      NothingAnswered(c);
    } else {
      hide Woven;
      var n := |ms| - 1;
      LastOfAll(c, ms);
      DummyWeaves(c, ms[..n]);
      var (out, c') := DummyAll(c, ms[..n]);
      DummyAdds(c', ms[n]);
      WovenPush(out, ms[..n], DummyOut(c', ms[n]), ms[n]);
      assert ms == ms[..n] + [ms[n]];
    }
  }

  lemma WovenStep(s: State, ms: seq<Msg>, m: Msg, waitAudioMs: int)
    requires Conserved(s, ms) && FeedReturns(s, m, waitAudioMs)
    requires s.stage == Dummy ==> Woven(s.out, ms)
    ensures var t := Step(s, m, waitAudioMs); t.stage == Dummy ==> Woven(t.out, ms + [m])
  {
    hide Woven, WithoutAudio, AllAnswer, DummyAll, Answers, DummyOut, DummyClock, WaitedEnough;
    if s.stage == Dummy {
      DummyAdds(s.clock, m);
      WovenPush(s.out, ms, DummyOut(s.clock, m), m);
    } else if s.stage == Analysis && StartsDummy(s, m, waitAudioMs) {
      DummyWeaves(s.clock, s.queue + [m]);
      assert [] + DummyAll(s.clock, s.queue + [m]).0 == DummyAll(s.clock, s.queue + [m]).0;
    }
  }

  /** For every stream from which the program returns, also for the messages that
      waited: once a frame is too late, what is handed on is the input without audio,
      with an AAC sequence header before each video one, and silent frames directly
      before the video frames, and with nothing else. */
  lemma {:induction false} DummyStageWeaves(ms: seq<Msg>, waitAudioMs: int)
    requires IsStream(ms) && Returns(ms, waitAudioMs)
    ensures Run(ms, waitAudioMs).stage == Dummy ==> Woven(Run(ms, waitAudioMs).out, ms)
  {
    hide FeedReturns, Step, Conserved, Run, Returns, IsStream, Woven;
    if ms == [] {
      StartsInAnalysis(waitAudioMs);
    } else {
      var n := |ms| - 1;
      LastOfRun(ms, waitAudioMs);
      LastOfStream(ms);
      DummyStageWeaves(ms[..n], waitAudioMs);
      InputIsConserved(ms[..n], waitAudioMs);
      WovenStep(Run(ms[..n], waitAudioMs), ms[..n], ms[n], waitAudioMs);
      assert ms == ms[..n] + [ms[n]];
    }
  }

  lemma StartsInAnalysis(waitAudioMs: int)
    ensures Returns([], waitAudioMs) && Run([], waitAudioMs).stage == Analysis
  {
  }
}
