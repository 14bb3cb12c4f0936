/** Where the HLS muxer cuts, told from the events and in milliseconds, without
    the muxer's own decisions: an independent account that every run agrees with. */
module HlsCuts {
  import opened Bytes
  import opened HlsStream

  // ------------------------------------------------------------- figures

  /** 90 ticks are a millisecond. */
  function TargetTicks(cfg: Config): nat {
    if cfg.fragmentDurationMs > 0 then 90 * cfg.fragmentDurationMs else 0
  }

  /** Twice the configured duration, 6 s without one, unless a maximum is set. */
  function MaxTicks(cfg: Config): nat {
    if cfg.maxFragmentDurationMs > 0 then 90 * cfg.maxFragmentDurationMs
    else if cfg.fragmentDurationMs > 0 then 180 * cfg.fragmentDurationMs else 540000
  }

  /** Ten times the configured duration, 30 s without one. */
  function JumpTicks(cfg: Config): nat {
    if cfg.fragmentDurationMs > 0 then 900 * cfg.fragmentDurationMs else 2700000
  }

  lemma LimitsInMilliseconds(cfg: Config)
    ensures cfg.Target() == TargetTicks(cfg) && cfg.Max() == MaxTicks(cfg) > 0 && cfg.PositiveJump() == JumpTicks(cfg)
  {
  }

  function ClockOf(fr: Frame): nat {
    if fr.sid == 192 then fr.pts else fr.dts
  }

  // --------------------------------------------- what the events say

  predicate FeedsAt(es: seq<Event>, at: nat) {
    at < |es| && es[at].Feed?
  }

  ghost predicate VideoFed(es: seq<Event>) {
    exists j :: 0 <= j < |es| && es[j].Feed? && es[j].frame.sid == 224
  }

  /** Some frame from `at` on is d ticks or more later than the one at `at`. */
  ghost predicate Reached(es: seq<Event>, at: nat, d: nat) {
    FeedsAt(es, at)
    && exists j :: at <= j < |es| && es[j].Feed? && ClockOf(es[j].frame) >= ClockOf(es[at].frame) + d
  }

  /** The last event is a frame that drives the timeline, because it is video or
      there has been none, and is far after or before the one at `at`. */
  ghost predicate JumpFrame(cfg: Config, es: seq<Event>, at: nat) {
    && FeedsAt(es, at) && es[|es| - 1].Feed?
    && (es[|es| - 1].frame.sid == 224 || !VideoFed(es))
    && var clock, opening := ClockOf(es[|es| - 1].frame), ClockOf(es[at].frame);
       clock > opening + JumpTicks(cfg) || opening > clock + 90000
  }

  /** A frame behind `at` found the fragment at its maximum, with or without
      video so far. */
  ghost predicate OverMax(cfg: Config, es: seq<Event>, at: nat, video: bool) {
    exists j :: at < j < |es| && es[j].Feed? && Reached(es[..j + 1], at, MaxTicks(cfg)) && VideoFed(es[..j + 1]) == video
  }

  /** The cuts that wait for a boundary: for a key frame's, or for audio's. */
  datatype Waiting = Waiting(key: bool, audio: bool)

  ghost function WaitingNow(cfg: Config, es: seq<Event>, at: nat, w: Waiting): Waiting {
    Waiting(w.key || OverMax(cfg, es, at, true), w.audio || OverMax(cfg, es, at, false))
  }

  /** A boundary frame cuts when a cut waits, or the fragment is long enough. */
  ghost predicate BoundaryCut(cfg: Config, es: seq<Event>, at: nat, w: Waiting) {
    && FeedsAt(es, at) && es[|es| - 1].Feed? && es[|es| - 1].boundary && !JumpFrame(cfg, es, at)
    && (WaitingNow(cfg, es, at, w) != Waiting(false, false) || Reached(es, at, TargetTicks(cfg)))
  }

  /** The events up to and including the one that closed a fragment. */
  function UpTo(events: seq<Event>, c: Closed): seq<Event> {
    if c.until < |events| then events[..c.until + 1] else events
  }

  /** What waits when the fragment after these is opened: a jump clears all, a
      boundary cut the key frame's cut first, and a disposal nothing. */
  ghost function WaitingAfter(cfg: Config, events: seq<Event>, closed: seq<Closed>): Waiting {
    if closed == [] then Waiting(false, false)
    else
      var c := closed[|closed| - 1];
      var w := WaitingNow(cfg, UpTo(events, c), c.f.at, WaitingAfter(cfg, events, closed[..|closed| - 1]));
      match c.cause
      case ByJump => Waiting(false, false)
      case ByBoundary => Waiting(false, w.key && w.audio)
      case ByDispose => w
  }

  /** Event j neither cuts nor disposes. */
  ghost predicate Passes(cfg: Config, events: seq<Event>, j: nat, at: nat, w: Waiting)
    requires j < |events|
  {
    events[j] != Dispose && !JumpFrame(cfg, events[..j + 1], at) && !BoundaryCut(cfg, events[..j + 1], at, w)
  }

  /** No event behind the opening one does, up to `until`. */
  ghost predicate RunsOn(cfg: Config, events: seq<Event>, at: nat, until: nat, w: Waiting) {
    forall j :: at < j < until && j < |events| ==> Passes(cfg, events, j, at, w)
  }

  /** Fragment i was closed by what closes it, and by nothing before. */
  ghost predicate ClosedRight(cfg: Config, events: seq<Event>, closed: seq<Closed>, i: nat)
    requires i < |closed|
  {
    var c, w := closed[i], WaitingAfter(cfg, events, closed[..i]);
    && (c.cause == ByJump <==> JumpFrame(cfg, UpTo(events, c), c.f.at))
    && (c.cause == ByBoundary <==> BoundaryCut(cfg, UpTo(events, c), c.f.at, w))
    && RunsOn(cfg, events, c.f.at, c.until, w)
  }

  /** The fragment behind these is marked as a discontinuity: always, unless a
      boundary cut for which nothing waited came before it. */
  ghost predicate Discontinuity(cfg: Config, events: seq<Event>, closed: seq<Closed>) {
    closed != [] ==>
      var c := closed[|closed| - 1];
      && c.cause == ByBoundary ==>
         WaitingNow(cfg, UpTo(events, c), c.f.at, WaitingAfter(cfg, events, closed[..|closed| - 1])) != Waiting(false, false)
  }

  /** Everything about the fragments that depends on where the muxer cuts. */
  ghost predicate CutsAsTold(cfg: Config, events: seq<Event>, s: Stream) {
    && (forall i :: 0 <= i < |s.closed| ==>
                      && ClosedRight(cfg, events, s.closed, i)
                      && s.closed[i].f.discont == Discontinuity(cfg, events, s.closed[..i]))
    && (s.open.Some? ==>
          && RunsOn(cfg, events, s.open.value.at, |events|, WaitingAfter(cfg, events, s.closed))
          && s.open.value.discont == Discontinuity(cfg, events, s.closed))
  }

  /** The muxer's flags say what the events say. */
  ghost predicate FlagsAsTold(cfg: Config, events: seq<Event>, s: Stream) {
    var w := WaitingAfter(cfg, events, s.closed);
    && s.videoSeen == VideoFed(events)
    && Waiting(s.forceKey, s.forceAudio) == if s.open.Some? then WaitingNow(cfg, events, s.open.value.at, w) else w
  }

  // ------------------------------------------------- one event longer

  lemma VideoPush(es: seq<Event>, e: Event)
    ensures VideoFed(es + [e]) <==> VideoFed(es) || (e.Feed? && e.frame.sid == 224)
  {
    var longer := es + [e];
    assert forall j :: 0 <= j < |es| ==> longer[j] == es[j];
    assert longer[|es|] == e;
  }

  lemma OverMaxPush(cfg: Config, es: seq<Event>, e: Event, at: nat, video: bool)
    requires at < |es|
    ensures OverMax(cfg, es + [e], at, video)
       <==> || OverMax(cfg, es, at, video)
            || (e.Feed? && Reached(es + [e], at, MaxTicks(cfg)) && VideoFed(es + [e]) == video)
  {
    hide Reached, VideoFed;
    var longer := es + [e];
    assert forall j :: 0 <= j < |es| ==> longer[j] == es[j] && longer[..j + 1] == es[..j + 1];
    assert longer[|es|] == e && longer[..|es| + 1] == longer;
    if OverMax(cfg, es, at, video) {
      var j :| at < j < |es| && es[j].Feed? && Reached(es[..j + 1], at, MaxTicks(cfg)) && VideoFed(es[..j + 1]) == video;
      assert longer[j].Feed?;
    }
  }

  lemma {:induction false} LargestReaches(es: seq<Event>, x: nat)
    requires x > 0
    ensures LargestClock(es) >= x <==> exists j :: 0 <= j < |es| && es[j].Feed? && ClockOf(es[j].frame) >= x
  {
    if es != [] {
      var n := |es| - 1;
      LargestReaches(es[..n], x);
      assert forall j :: 0 <= j < n ==> es[..n][j] == es[j];
    }
  }

  /** The duration of a fragment against what has been fed. */
  lemma SpanIs(es: seq<Event>, f: Fragment, d: nat)
    requires FeedsAt(es, f.at) && f.openTs == es[f.at].frame.Clock() && f.lastTs == LargestClock(es[f.at..])
    requires f.openTs <= f.lastTs
    ensures f.Duration() >= d <==> Reached(es, f.at, d)
  {
    var rest := es[f.at..];
    assert forall j :: 0 <= j < |rest| ==> rest[j] == es[f.at + j];
    if d > 0 {
      LargestReaches(rest, f.openTs + d);
      if Reached(es, f.at, d) {
        var j :| f.at <= j < |es| && es[j].Feed? && ClockOf(es[j].frame) >= ClockOf(es[f.at].frame) + d;
        assert rest[j - f.at].Feed?;
      }
    } else {
      assert es[f.at].Feed?;
    }
  }

  // ----------------------------------------------------- one decision

  /** The open fragment, with the next frame counted. */
  lemma Counted(events: seq<Event>, s: Stream, e: Event, d: nat)
    requires Laid(events, s) && s.open.Some? && e.Feed?
    ensures var es, f := events + [e], Later(s.open.value, e.frame.Clock());
            && FeedsAt(events, f.at) && FeedsAt(es, f.at) && es[f.at] == events[f.at] && es[|es| - 1] == e
            && f.openTs == ClockOf(es[f.at].frame)
            && (f.Duration() >= d <==> Reached(es, f.at, d))
  {
    hide LargestClock, Chunks, CurrentPatPmt, ClosedOk, Reached;
    var f := Later(s.open.value, e.frame.Clock());
    OpenLonger(events, e, s.open.value);
    SpanIs(events + [e], f, d);
  }

  lemma FlagsCount(cfg: Config, events: seq<Event>, s: Stream, e: Event)
    requires Laid(events, s) && FlagsAsTold(cfg, events, s) && s.open.Some? && e.Feed?
    ensures var seen, f := s.(videoSeen := s.videoSeen || e.frame.sid == VIDEO_STREAM), Later(s.open.value, e.frame.Clock());
            && seen.videoSeen == VideoFed(events + [e])
            && Waiting(KeyWanted(cfg, seen, f), AudioWanted(cfg, seen, f))
               == WaitingNow(cfg, events + [e], f.at, WaitingAfter(cfg, events, s.closed))
  {
    hide Laid, Reached, VideoFed, OverMax, WaitingAfter;
    var f := Later(s.open.value, e.frame.Clock());
    LimitsInMilliseconds(cfg);
    Counted(events, s, e, cfg.Max());
    VideoPush(events, e);
    OverMaxPush(cfg, events, e, f.at, true);
    OverMaxPush(cfg, events, e, f.at, false);
  }

  /** A frame that finds an open fragment: the verdict. */
  lemma VerdictIs(cfg: Config, events: seq<Event>, s: Stream, e: Event)
    requires Laid(events, s) && FlagsAsTold(cfg, events, s) && s.open.Some? && e.Feed?
    ensures var es, at, w := events + [e], s.open.value.at, WaitingAfter(cfg, events, s.closed);
            && VerdictOn(cfg, s, e)
               == (if JumpFrame(cfg, es, at) then Cut(ByJump, true)
                   else if BoundaryCut(cfg, es, at, w) then Cut(ByBoundary, WaitingNow(cfg, es, at, w) != Waiting(false, false))
                   else Keep)
            && !(JumpFrame(cfg, es, at) && BoundaryCut(cfg, es, at, w))
  {
    FlagsCount(cfg, events, s, e);
    LimitsInMilliseconds(cfg);
    Counted(events, s, e, cfg.Target());
    hide Laid, FlagsAsTold, Reached, VideoFed, WaitingNow, WaitingAfter, KeyWanted, AudioWanted, Config.Target, Config.Max,
      Config.PositiveJump, TargetTicks, MaxTicks, JumpTicks;
  }

  /** The flags it leaves. */
  lemma FlagsLeft(cfg: Config, s: Stream, e: Event)
    requires s.open.Some? && e.Feed?
    ensures var seen, f := s.(videoSeen := s.videoSeen || e.frame.sid == VIDEO_STREAM), Later(s.open.value, e.frame.Clock());
            var v, t := VerdictOn(cfg, s, e), Step(cfg, s, e);
            var now := Waiting(KeyWanted(cfg, seen, f), AudioWanted(cfg, seen, f));
            && t.videoSeen == seen.videoSeen
            && Waiting(t.forceKey, t.forceAudio)
               == (match v case Keep => now case Cut(ByBoundary, _) => Waiting(false, now.key && now.audio)
                           case _ => Waiting(false, false))
  {
    hide KeyWanted, AudioWanted, Drives, Jumps;
  }

  lemma VerdictAsTold(cfg: Config, events: seq<Event>, s: Stream, e: Event)
    requires Laid(events, s) && FlagsAsTold(cfg, events, s) && s.open.Some? && e.Feed?
    ensures var es, at, w := events + [e], s.open.value.at, WaitingAfter(cfg, events, s.closed);
            var now := WaitingNow(cfg, es, at, w);
            var v, t := VerdictOn(cfg, s, e), Step(cfg, s, e);
            && v == (if JumpFrame(cfg, es, at) then Cut(ByJump, true)
                     else if BoundaryCut(cfg, es, at, w) then Cut(ByBoundary, now != Waiting(false, false)) else Keep)
            && !(JumpFrame(cfg, es, at) && BoundaryCut(cfg, es, at, w))
            && t.videoSeen == VideoFed(es)
            && Waiting(t.forceKey, t.forceAudio)
               == (match v case Keep => now case Cut(ByBoundary, _) => Waiting(false, now.key && now.audio)
                           case _ => Waiting(false, false))
  {
    hide Laid, FlagsAsTold, JumpFrame, BoundaryCut, VideoFed, WaitingNow, WaitingAfter, KeyWanted, AudioWanted, VerdictOn,
      Step;
    FlagsCount(cfg, events, s, e);
    VerdictIs(cfg, events, s, e);
    FlagsLeft(cfg, s, e);
  }

  // --------------------------------------------------------- all events

  lemma UpToLonger(events: seq<Event>, e: Event, c: Closed)
    requires c.until < |events|
    ensures UpTo(events + [e], c) == UpTo(events, c)
  {
    assert (events + [e])[..c.until + 1] == events[..c.until + 1];
  }

  lemma {:induction false} WaitingLonger(cfg: Config, events: seq<Event>, e: Event, closed: seq<Closed>)
    requires forall i :: 0 <= i < |closed| ==> closed[i].until < |events|
    ensures WaitingAfter(cfg, events + [e], closed) == WaitingAfter(cfg, events, closed)
  {
    hide WaitingNow, UpTo;
    if closed != [] {
      WaitingLonger(cfg, events, e, closed[..|closed| - 1]);
      UpToLonger(events, e, closed[|closed| - 1]);
    }
  }

  lemma RunsOnLonger(cfg: Config, events: seq<Event>, e: Event, at: nat, until: nat, w: Waiting)
    requires RunsOn(cfg, events, at, until, w) && until <= |events|
    ensures RunsOn(cfg, events + [e], at, until, w)
  {
    hide Passes;
    forall j: nat | at < j < until
      ensures Passes(cfg, events + [e], j, at, w)
    {
      PassesLonger(cfg, events, e, j, at, w);
    }
  }

  lemma PassesLonger(cfg: Config, events: seq<Event>, e: Event, j: nat, at: nat, w: Waiting)
    requires j < |events| && Passes(cfg, events, j, at, w)
    ensures Passes(cfg, events + [e], j, at, w)
  {
    hide JumpFrame, BoundaryCut;
    assert (events + [e])[..j + 1] == events[..j + 1];
  }

  /** The event just fed does not end the fragment. */
  lemma RunsOnPush(cfg: Config, events: seq<Event>, e: Event, at: nat, w: Waiting)
    requires RunsOn(cfg, events, at, |events|, w)
    requires e != Dispose && !JumpFrame(cfg, events + [e], at) && !BoundaryCut(cfg, events + [e], at, w)
    ensures RunsOn(cfg, events + [e], at, |events| + 1, w)
  {
    hide JumpFrame, BoundaryCut;
    RunsOnLonger(cfg, events, e, at, |events|, w);
    var longer := events + [e];
    assert longer[..|events| + 1] == longer && Passes(cfg, longer, |events|, at, w);
  }

  lemma ClosedStaysRight(cfg: Config, events: seq<Event>, e: Event, closed: seq<Closed>, i: nat)
    requires i < |closed| && ClosedRight(cfg, events, closed, i)
    requires forall k :: 0 <= k < |closed| ==> closed[k].until < |events|
    ensures ClosedRight(cfg, events + [e], closed, i)
    ensures Discontinuity(cfg, events + [e], closed[..i]) == Discontinuity(cfg, events, closed[..i])
  {
    hide JumpFrame, BoundaryCut, RunsOn, WaitingAfter, WaitingNow, UpTo;
    WaitingLonger(cfg, events, e, closed[..i]);
    UpToLonger(events, e, closed[i]);
    RunsOnLonger(cfg, events, e, closed[i].f.at, closed[i].until, WaitingAfter(cfg, events, closed[..i]));
    SameDiscontinuity(cfg, events, e, closed[..i]);
  }

  lemma SameDiscontinuity(cfg: Config, events: seq<Event>, e: Event, closed: seq<Closed>)
    requires forall k :: 0 <= k < |closed| ==> closed[k].until < |events|
    ensures Discontinuity(cfg, events + [e], closed) == Discontinuity(cfg, events, closed)
  {
    hide WaitingAfter, WaitingNow, UpTo;
    if closed != [] {
      WaitingLonger(cfg, events, e, closed[..|closed| - 1]);
      UpToLonger(events, e, closed[|closed| - 1]);
    }
  }

  /** The closed fragments, one event later. */
  lemma AllStayRight(cfg: Config, events: seq<Event>, e: Event, closed: seq<Closed>)
    requires forall i :: 0 <= i < |closed| ==>
                           && closed[i].until < |events| && ClosedRight(cfg, events, closed, i)
                           && closed[i].f.discont == Discontinuity(cfg, events, closed[..i])
    ensures forall i :: 0 <= i < |closed| ==>
                          && ClosedRight(cfg, events + [e], closed, i)
                          && closed[i].f.discont == Discontinuity(cfg, events + [e], closed[..i])
  {
    hide ClosedRight, Discontinuity;
    forall i | 0 <= i < |closed|
      ensures ClosedRight(cfg, events + [e], closed, i)
      ensures closed[i].f.discont == Discontinuity(cfg, events + [e], closed[..i])
    {
      ClosedStaysRight(cfg, events, e, closed, i);
    }
  }

  /** One more closed fragment. */
  lemma ClosedPush(cfg: Config, events: seq<Event>, closed: seq<Closed>, c: Closed)
    requires forall i :: 0 <= i < |closed| ==>
                           && ClosedRight(cfg, events, closed, i)
                           && closed[i].f.discont == Discontinuity(cfg, events, closed[..i])
    requires ClosedRight(cfg, events, closed + [c], |closed|)
    requires c.f.discont == Discontinuity(cfg, events, closed)
    ensures var more := closed + [c];
            forall i :: 0 <= i < |more| ==>
                          && ClosedRight(cfg, events, more, i)
                          && more[i].f.discont == Discontinuity(cfg, events, more[..i])
  {
    var more := closed + [c];
    forall i | 0 <= i < |more|
      ensures ClosedRight(cfg, events, more, i)
      ensures more[i].f.discont == Discontinuity(cfg, events, more[..i])
    {
      hide JumpFrame, BoundaryCut, RunsOn, WaitingAfter, UpTo, Discontinuity;
      if i < |closed| {
        assert more[i] == closed[i] && more[..i] == closed[..i];
      } else {
        assert more[..i] == closed;
      }
    }
  }

  /** Nothing can wait in a fragment that the last event opened. */
  lemma NothingNewWaits(cfg: Config, es: seq<Event>, w: Waiting)
    requires es != []
    ensures WaitingNow(cfg, es, |es| - 1, w) == w && WaitingNow(cfg, es, |es|, w) == w
    ensures RunsOn(cfg, es, |es| - 1, |es|, w)
  {
  }

  /** The flags stay as they are while no fragment is open. */
  lemma FlagsWithoutFragment(cfg: Config, s: Stream, e: Event)
    requires e.Feed? && s.open == None
    ensures var t := Step(cfg, s, e);
            && t.forceKey == s.forceKey && t.forceAudio == s.forceAudio
            && (t.videoSeen <==> s.videoSeen || e.frame.sid == 224)
            && (VerdictOn(cfg, s, e) == Start || VerdictOn(cfg, s, e) == Ignore)
  {
    hide Flags, KeyWanted, AudioWanted;
  }

  /** A frame before the first fragment, or behind a disposal. */
  lemma ToldWithoutFragment(cfg: Config, events: seq<Event>, s: Stream, e: Event)
    requires Laid(events, s) && CutsAsTold(cfg, events, s) && FlagsAsTold(cfg, events, s)
    requires e.Feed? && s.open == None
    ensures CutsAsTold(cfg, events + [e], Step(cfg, s, e)) && FlagsAsTold(cfg, events + [e], Step(cfg, s, e))
  {
    hide Step, VerdictOn, ClosedRight, RunsOn, WaitingNow, WaitingAfter, VideoFed, Covers, ClosedOk, Follows, UpTo;
    var es := events + [e];
    StepShape(cfg, s, e);
    FlagsWithoutFragment(cfg, s, e);
    assert forall i :: 0 <= i < |s.closed| ==> s.closed[i].until < |events| by {
      UntilInside(events, s.closed);
    }
    AllStayRight(cfg, events, e, s.closed);
    WaitingLonger(cfg, events, e, s.closed);
    VideoPush(events, e);
    NothingNewWaits(cfg, es, WaitingAfter(cfg, es, s.closed));
  }

  /** A frame or new tables that the open fragment stays open for. */
  lemma ToldWhenKept(cfg: Config, events: seq<Event>, s: Stream, e: Event, t: Stream)
    requires Laid(events, s) && CutsAsTold(cfg, events, s) && s.open.Some? && e != Dispose
    requires t.closed == s.closed && t.open.Some?
    requires t.open.value.at == s.open.value.at && t.open.value.discont == s.open.value.discont
    requires !JumpFrame(cfg, events + [e], s.open.value.at)
    requires !BoundaryCut(cfg, events + [e], s.open.value.at, WaitingAfter(cfg, events, s.closed))
    ensures CutsAsTold(cfg, events + [e], t)
    ensures WaitingAfter(cfg, events + [e], t.closed) == WaitingAfter(cfg, events, s.closed)
  {
    hide JumpFrame, BoundaryCut, ClosedRight, RunsOn, Discontinuity, WaitingAfter;
    UntilInside(events, s.closed) by {
      hide CutsAsTold;
    }
    AllStayRight(cfg, events, e, s.closed);
    WaitingLonger(cfg, events, e, s.closed);
    RunsOnPush(cfg, events, e, s.open.value.at, WaitingAfter(cfg, events, s.closed));
    SameDiscontinuity(cfg, events, e, s.closed);
  }

  /** The event closes the open fragment, and it is right that it does. */
  lemma ToldWhenClosed(cfg: Config, events: seq<Event>, s: Stream, e: Event, c: Closed)
    requires Laid(events, s) && CutsAsTold(cfg, events, s) && s.open.Some?
    requires c.until == |events| && c.f.at == s.open.value.at && c.f.discont == s.open.value.discont
    requires var es, w := events + [e], WaitingAfter(cfg, events, s.closed);
             && (c.cause == ByJump <==> JumpFrame(cfg, es, c.f.at))
             && (c.cause == ByBoundary <==> BoundaryCut(cfg, es, c.f.at, w))
    ensures var es, more := events + [e], s.closed + [c];
            && (forall i :: 0 <= i < |more| ==>
                              && ClosedRight(cfg, es, more, i)
                              && more[i].f.discont == Discontinuity(cfg, es, more[..i]))
            && UpTo(es, c) == es && more[..|more| - 1] == s.closed
            && WaitingAfter(cfg, es, s.closed) == WaitingAfter(cfg, events, s.closed)
  {
    hide JumpFrame, BoundaryCut, RunsOn, Discontinuity, WaitingAfter;
    var es, more := events + [e], s.closed + [c];
    UntilInside(events, s.closed) by {
      hide CutsAsTold;
    }
    AllStayRight(cfg, events, e, s.closed);
    WaitingLonger(cfg, events, e, s.closed);
    SameDiscontinuity(cfg, events, e, s.closed);
    RunsOnLonger(cfg, events, e, c.f.at, |events|, WaitingAfter(cfg, events, s.closed));
    assert es[..|events| + 1] == es;
    assert more[|s.closed|] == c && more[..|s.closed|] == s.closed;
    ClosedPush(cfg, es, s.closed, c);
  }

  /** A frame that cuts. */
  lemma ToldWhenCut(cfg: Config, events: seq<Event>, s: Stream, e: Event)
    requires Laid(events, s) && CutsAsTold(cfg, events, s) && FlagsAsTold(cfg, events, s) && s.open.Some? && e.Feed?
    requires VerdictOn(cfg, s, e).Cut?
    ensures CutsAsTold(cfg, events + [e], Step(cfg, s, e)) && FlagsAsTold(cfg, events + [e], Step(cfg, s, e))
  {
    hide Laid, Step, VerdictOn, JumpFrame, BoundaryCut, ClosedRight, RunsOn, WaitingNow, UpTo;
    StepShape(cfg, s, e);
    VerdictAsTold(cfg, events, s, e);
    var es, v, t := events + [e], VerdictOn(cfg, s, e), Step(cfg, s, e);
    assert s.n == |events| by {
      LaidCounts(events, s);
    }
    var c := Closed(Later(s.open.value, e.frame.Clock()), v.cause, s.n);
    ToldWhenClosed(cfg, events, s, e, c);
    NothingNewWaits(cfg, es, WaitingAfter(cfg, es, t.closed));
  }

  lemma LaidCounts(events: seq<Event>, s: Stream)
    requires Laid(events, s)
    ensures s.n == |events|
  {
  }

  lemma ToldThroughFrame(cfg: Config, events: seq<Event>, s: Stream, e: Event)
    requires Laid(events, s) && CutsAsTold(cfg, events, s) && FlagsAsTold(cfg, events, s) && e.Feed?
    ensures CutsAsTold(cfg, events + [e], Step(cfg, s, e)) && FlagsAsTold(cfg, events + [e], Step(cfg, s, e))
  {
    hide Laid, CutsAsTold, Step, VerdictOn, JumpFrame, BoundaryCut, WaitingNow, WaitingAfter;
    if s.open == None {
      ToldWithoutFragment(cfg, events, s, e);
    } else if VerdictOn(cfg, s, e).Cut? {
      ToldWhenCut(cfg, events, s, e);
    } else {
      StepShape(cfg, s, e);
      VerdictAsTold(cfg, events, s, e);
      ToldWhenKept(cfg, events, s, e, Step(cfg, s, e));
    }
  }

  lemma ToldThroughTables(cfg: Config, events: seq<Event>, s: Stream, e: Event)
    requires Laid(events, s) && CutsAsTold(cfg, events, s) && FlagsAsTold(cfg, events, s) && e.PatPmt?
    ensures CutsAsTold(cfg, events + [e], Step(cfg, s, e)) && FlagsAsTold(cfg, events + [e], Step(cfg, s, e))
  {
    hide ClosedRight, RunsOn, WaitingAfter, VideoFed, OverMax, Chunks, CurrentPatPmt, LargestClock, Discontinuity;
    VideoPush(events, e);
    if s.open.Some? {
      OverMaxPush(cfg, events, e, s.open.value.at, true);
      OverMaxPush(cfg, events, e, s.open.value.at, false);
      ToldWhenKept(cfg, events, s, e, Step(cfg, s, e));
    } else {
      UntilInside(events, s.closed);
      AllStayRight(cfg, events, e, s.closed);
      WaitingLonger(cfg, events, e, s.closed);
    }
  }

  lemma DisposeShape(cfg: Config, s: Stream)
    ensures var t := Step(cfg, s, Dispose);
            && t.open == None && t.videoSeen == s.videoSeen && t.forceKey == s.forceKey && t.forceAudio == s.forceAudio
            && t.closed == if s.open.Some? then s.closed + [Closed(s.open.value, ByDispose, s.n)] else s.closed
  {
  }

  lemma FlagsThroughDispose(cfg: Config, events: seq<Event>, s: Stream)
    requires Laid(events, s) && FlagsAsTold(cfg, events, s) && s.open.Some?
    ensures var w := WaitingAfter(cfg, events, s.closed);
            && s.videoSeen == VideoFed(events + [Dispose])
            && Waiting(s.forceKey, s.forceAudio) == WaitingNow(cfg, events + [Dispose], s.open.value.at, w)
  {
    hide VideoFed, OverMax, WaitingAfter, ClosedOk, Follows, LargestClock, Chunks, CurrentPatPmt;
    VideoPush(events, Dispose);
    OverMaxPush(cfg, events, Dispose, s.open.value.at, true);
    OverMaxPush(cfg, events, Dispose, s.open.value.at, false);
  }

  lemma NeverCuts(cfg: Config, events: seq<Event>, at: nat, w: Waiting)
    ensures !JumpFrame(cfg, events + [Dispose], at) && !BoundaryCut(cfg, events + [Dispose], at, w)
  {
    hide VideoFed, OverMax, Reached;
  }

  lemma ToldWhenDisposed(cfg: Config, events: seq<Event>, s: Stream)
    requires Laid(events, s) && CutsAsTold(cfg, events, s) && FlagsAsTold(cfg, events, s) && s.open.Some?
    ensures CutsAsTold(cfg, events + [Dispose], Step(cfg, s, Dispose))
    ensures FlagsAsTold(cfg, events + [Dispose], Step(cfg, s, Dispose))
  {
    hide Step, Laid, ClosedRight, RunsOn, VideoFed, WaitingNow, JumpFrame, BoundaryCut, Discontinuity, UpTo;
    var c := Closed(s.open.value, ByDispose, s.n);
    DisposeShape(cfg, s);
    LaidCounts(events, s);
    FlagsThroughDispose(cfg, events, s);
    NeverCuts(cfg, events, c.f.at, WaitingAfter(cfg, events, s.closed));
    ToldWhenClosed(cfg, events, s, Dispose, c);
    var t := Step(cfg, s, Dispose);
    assert t.closed[|t.closed| - 1] == c;
  }

  lemma ToldWhenNothingIsOpen(cfg: Config, events: seq<Event>, s: Stream)
    requires Laid(events, s) && CutsAsTold(cfg, events, s) && FlagsAsTold(cfg, events, s) && s.open == None
    ensures CutsAsTold(cfg, events + [Dispose], Step(cfg, s, Dispose))
    ensures FlagsAsTold(cfg, events + [Dispose], Step(cfg, s, Dispose))
  {
    hide Step, Laid, ClosedRight, RunsOn, VideoFed, WaitingNow, WaitingAfter, Discontinuity;
    DisposeShape(cfg, s);
    VideoPush(events, Dispose);
    LaidInside(events, s);
    AllStayRight(cfg, events, Dispose, s.closed);
    WaitingLonger(cfg, events, Dispose, s.closed);
  }

  lemma ToldThroughDispose(cfg: Config, events: seq<Event>, s: Stream)
    requires Laid(events, s) && CutsAsTold(cfg, events, s) && FlagsAsTold(cfg, events, s)
    ensures CutsAsTold(cfg, events + [Dispose], Step(cfg, s, Dispose))
    ensures FlagsAsTold(cfg, events + [Dispose], Step(cfg, s, Dispose))
  {
    hide Step, Laid, CutsAsTold, FlagsAsTold;
    if s.open.Some? {
      ToldWhenDisposed(cfg, events, s);
    } else {
      ToldWhenNothingIsOpen(cfg, events, s);
    }
  }

  lemma LaidInside(events: seq<Event>, s: Stream)
    requires Laid(events, s)
    ensures forall i :: 0 <= i < |s.closed| ==> s.closed[i].until < |events|
  {
    UntilInside(events, s.closed);
  }

  /** In every run the muxer cuts exactly where the events say. A fragment is
      closed by a jump at its last event if and only if that is a frame that
      drives the timeline, more than ten target durations after the opening one or
      a second before it; at a boundary, if and only if it is a boundary frame that
      is no such jump and finds the fragment at its target, or finds it or a frame
      before found it at its maximum, or finds a cut still waiting from before; no
      event in between does either. The next fragment is a discontinuity unless it
      is cut for its target alone. */
  lemma {:induction false} CutsAreAsTold(cfg: Config, events: seq<Event>)
    ensures CutsAsTold(cfg, events, Run(cfg, events)) && FlagsAsTold(cfg, events, Run(cfg, events))
  {
    hide Laid, CutsAsTold, FlagsAsTold, Step;
    if events == [] {
      NothingTold(cfg);
    } else {
      var n := |events| - 1;
      CutsAreAsTold(cfg, events[..n]);
      FragmentsAreStretches(cfg, events[..n]);
      var s, e := Run(cfg, events[..n]), events[n];
      assert events == events[..n] + [e];
      match e
      case Feed(_, _, _) => ToldThroughFrame(cfg, events[..n], s, e);
      case PatPmt(_) => ToldThroughTables(cfg, events[..n], s, e);
      case Dispose => ToldThroughDispose(cfg, events[..n], s);
    }
  }

  lemma NothingTold(cfg: Config)
    ensures CutsAsTold(cfg, [], INITIAL) && FlagsAsTold(cfg, [], INITIAL)
  {
  }
}
