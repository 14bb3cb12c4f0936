/** What the HLS muxer makes of a stream: which fragments it cuts and what is
    in them. Times are in ticks of the 90 kHz clock. */
module HlsStream {
  import opened Bytes

  type Chunk = seq<byte>

  const AUDIO_STREAM: byte := 192
  const VIDEO_STREAM: byte := 224
  const NEGATIVE_JUMP := 90000

  datatype CleanupMode = Never | InTheEnd | Asap

  datatype Config = Config(fragmentDurationMs: int, fragmentNum: nat, deleteThreshold: nat,
                           cleanupMode: CleanupMode, maxFragmentDurationMs: int)
  {
    function Target(): nat {
      if fragmentDurationMs <= 0 then 0 else fragmentDurationMs * 90
    }

    /** The configured duration, or three seconds without one. */
    function SafetyMs(): nat {
      if fragmentDurationMs <= 0 then 3000 else fragmentDurationMs
    }

    function Max(): nat {
      if maxFragmentDurationMs <= 0 then SafetyMs() * 2 * 90 else maxFragmentDurationMs * 90
    }

    function PositiveJump(): nat {
      SafetyMs() * 90 * 10
    }

    function Capacity(): (c: nat)
      ensures c > 0
    {
      fragmentNum + deleteThreshold + 1
    }
  }

  datatype Frame = Frame(sid: byte, pts: nat, dts: nat)
  {
    /** Audio counts by its presentation time, anything else by its decoding time. */
    function Clock(): nat {
      if sid == AUDIO_STREAM then pts else dts
    }
  }

  datatype Event =
    | PatPmt(patpmt: Chunk)
    | Feed(packets: Chunk, frame: Frame, boundary: bool)
    | Dispose

  // ------------------------------------------------------------- fragments

  datatype Opening = AtBoundary | AfterJump
  datatype Cause = ByBoundary | ByJump | ByDispose

  /** `at` is the number of events before the frame that opened the fragment. */
  datatype Fragment = Fragment(at: nat, openTs: nat, lastTs: nat, discont: bool, opening: Opening,
                               patpmt: Chunk, packets: seq<Chunk>)
  {
    function Duration(): int {
      lastTs - openTs
    }

    /** The file, write by write. */
    function Content(): seq<Chunk> {
      [patpmt] + packets
    }
  }

  datatype Closed = Closed(f: Fragment, cause: Cause, until: nat)

  /** The fragments so far, and the flags the next cut depends on. */
  datatype Stream = Stream(n: nat, closed: seq<Closed>, open: Option<Fragment>, patpmt: Chunk,
                           videoSeen: bool, forceKey: bool, forceAudio: bool)

  const INITIAL := Stream(0, [], None, [], false, false, false)

  // ------------------------------------------------------------- the steps

  function Later(f: Fragment, ts: nat): Fragment {
    if ts > f.lastTs then f.(lastTs := ts) else f
  }

  /** Only video moves the timeline once there is video. */
  predicate Drives(s: Stream, fr: Frame) {
    fr.sid == VIDEO_STREAM || !s.videoSeen
  }

  predicate Jumps(cfg: Config, f: Fragment, ts: nat) {
    ts - f.openTs > cfg.PositiveJump() || f.openTs - ts > NEGATIVE_JUMP
  }

  function Close(s: Stream, cause: Cause): Stream {
    match s.open
    case None => s
    case Some(f) => s.(closed := s.closed + [Closed(f, cause, s.n)], open := None)
  }

  function Open(s: Stream, ts: nat, discont: bool, opening: Opening): Stream {
    s.(open := Some(Fragment(s.n, ts, ts, discont, opening, s.patpmt, [])))
  }

  /** The flags once the open fragment, at its new length, has been looked at. */
  function KeyWanted(cfg: Config, s: Stream, f: Fragment): bool {
    s.forceKey || (f.Duration() >= cfg.Max() && s.videoSeen)
  }

  function AudioWanted(cfg: Config, s: Stream, f: Fragment): bool {
    s.forceAudio || (f.Duration() >= cfg.Max() && !s.videoSeen)
  }

  /** What a frame does: dropped before the first fragment, added to the open
      one, start of the first one, or start of the next one. */
  datatype Verdict = Ignore | Keep | Start | Cut(cause: Cause, discont: bool)

  function Judge(cfg: Config, s: Stream, fr: Frame, boundary: bool): Verdict {
    match s.open
    case None => if boundary then Start else Ignore
    case Some(before) =>
      var f := Later(before, fr.Clock());
      if Drives(s, fr) && Jumps(cfg, f, fr.Clock()) then Cut(ByJump, true)
      else
        var forced := KeyWanted(cfg, s, f) || AudioWanted(cfg, s, f);
        if boundary && (forced || f.Duration() >= cfg.Target()) then Cut(ByBoundary, forced) else Keep
  }

  /** The force flags after the verdict: a jump clears both, a boundary cut
      spends one, the key flag before the audio flag. */
  function Flags(cfg: Config, s: Stream, f: Fragment, v: Verdict): (bool, bool) {
    var key, audio := KeyWanted(cfg, s, f), AudioWanted(cfg, s, f);
    match v
    case Keep => (key, audio)
    case Cut(ByBoundary, _) => (false, key && audio)
    case Cut(_, _) => (false, false)
    case _ => (s.forceKey, s.forceAudio)
  }

  /** The open fragment ends and the next one opens. */
  function Renew(s: Stream, f: Fragment, ts: nat, cause: Cause, discont: bool): Stream {
    Open(s.(closed := s.closed + [Closed(f, cause, s.n)]), ts, discont,
         if cause == ByJump then AfterJump else AtBoundary)
  }

  /** updateFragment: what becomes of the fragments when a frame arrives. */
  function Decide(cfg: Config, s: Stream, fr: Frame, boundary: bool): Stream {
    var v := Judge(cfg, s, fr, boundary);
    match s.open
    case None => if v == Start then Open(s, fr.Clock(), true, AtBoundary) else s
    case Some(before) =>
      var f := Later(before, fr.Clock());
      var (key, audio) := Flags(cfg, s, f, v);
      var t := if v.Cut? then Renew(s, f, fr.Clock(), v.cause, v.discont) else s.(open := Some(f));
      t.(forceKey := key, forceAudio := audio)
  }

  /** The same, case by case. */
  lemma DecideCases(cfg: Config, s: Stream, fr: Frame, boundary: bool)
    ensures s.open == None ==>
              Decide(cfg, s, fr, boundary) == if boundary then Open(s, fr.Clock(), true, AtBoundary) else s
    ensures s.open.Some? ==>
              var ts := fr.Clock();
              var f := Later(s.open.value, ts);
              var key, audio := KeyWanted(cfg, s, f), AudioWanted(cfg, s, f);
              Decide(cfg, s, fr, boundary)
              == (if Drives(s, fr) && Jumps(cfg, f, ts) then
                    Open(Close(s.(open := Some(f), forceKey := false, forceAudio := false), ByJump), ts, true, AfterJump)
                  else if boundary && (key || audio || f.Duration() >= cfg.Target()) then
                    Open(Close(s.(open := Some(f), forceKey := false, forceAudio := key && audio), ByBoundary),
                         ts, key || audio, AtBoundary)
                  else s.(open := Some(f), forceKey := key, forceAudio := audio))
  {
    hide KeyWanted, AudioWanted, Drives, Jumps;
  }

  function Write(s: Stream, packets: Chunk): Stream {
    match s.open
    case None => s
    case Some(f) => s.(open := Some(f.(packets := f.packets + [packets])))
  }

  function Step(cfg: Config, s: Stream, e: Event): Stream {
    var t := match e
      case PatPmt(b) => s.(patpmt := b)
      case Feed(packets, fr, boundary) =>
        Write(Decide(cfg, s.(videoSeen := s.videoSeen || fr.sid == VIDEO_STREAM), fr, boundary), packets)
      case Dispose => Close(s, ByDispose);
    t.(n := s.n + 1)
  }

  function Run(cfg: Config, events: seq<Event>): Stream {
    if events == [] then INITIAL else Step(cfg, Run(cfg, events[..|events| - 1]), events[|events| - 1])
  }

  lemma RunPush(cfg: Config, events: seq<Event>, e: Event)
    ensures Run(cfg, events + [e]) == Step(cfg, Run(cfg, events), e)
  {
    hide Step;
    assert (events + [e])[..|events|] == events;
  }

  /** The verdict on an event that feeds a frame. */
  function VerdictOn(cfg: Config, s: Stream, e: Event): Verdict
    requires e.Feed?
  {
    Judge(cfg, s.(videoSeen := s.videoSeen || e.frame.sid == VIDEO_STREAM), e.frame, e.boundary)
  }

  /** What each verdict makes of the fragments. */
  lemma StepShape(cfg: Config, s: Stream, e: Event)
    requires e.Feed?
    ensures var t, v, ts := Step(cfg, s, e), VerdictOn(cfg, s, e), e.frame.Clock();
            && t.n == s.n + 1 && t.patpmt == s.patpmt
            && (v == Ignore ==> s.open == t.open == None && t.closed == s.closed && !e.boundary)
            && (v == Start ==>
                  && s.open == None && t.closed == s.closed && e.boundary
                  && t.open == Some(Fragment(s.n, ts, ts, true, AtBoundary, s.patpmt, [e.packets])))
            && (v == Keep ==>
                  && s.open.Some? && t.closed == s.closed
                  && t.open == Some(Later(s.open.value, ts).(packets := s.open.value.packets + [e.packets])))
            && (v.Cut? ==>
                  && s.open.Some? && v.cause != ByDispose
                  && (v.cause == ByBoundary ==> e.boundary) && (v.cause == ByJump ==> v.discont)
                  && t.closed == s.closed + [Closed(Later(s.open.value, ts), v.cause, s.n)]
                  && t.open == Some(Fragment(s.n, ts, ts, v.discont, if v.cause == ByJump then AfterJump else AtBoundary,
                                             s.patpmt, [e.packets])))
  {
    hide Flags, KeyWanted, AudioWanted, Drives, Jumps;
    assert [] + [e.packets] == [e.packets];
  }

  // ---------------------------------------------------- nothing is lost

  /** The input from the first boundary on, told without any fragments: what is
      fed while a recording is on. */
  datatype Recording = Recording(on: bool, chunks: seq<Chunk>)

  function Recorded(events: seq<Event>): Recording {
    if events == [] then Recording(false, [])
    else
      var r := Recorded(events[..|events| - 1]);
      match events[|events| - 1]
      case PatPmt(_) => r
      case Dispose => Recording(false, r.chunks)
      case Feed(packets, _, boundary) =>
        if r.on || boundary then Recording(true, r.chunks + [packets]) else r
  }

  /** The bodies of the closed fragments, one after the other. */
  function Bodies(closed: seq<Closed>): seq<Chunk> {
    if closed == [] then [] else Bodies(closed[..|closed| - 1]) + closed[|closed| - 1].f.packets
  }

  function AllBodies(s: Stream): seq<Chunk> {
    Bodies(s.closed) + if s.open.Some? then s.open.value.packets else []
  }

  lemma BodiesPush(closed: seq<Closed>, c: Closed)
    ensures Bodies(closed + [c]) == Bodies(closed) + c.f.packets
  {
    assert (closed + [c])[..|closed|] == closed;
  }

  lemma DecideKeepsBodies(cfg: Config, s: Stream, fr: Frame, boundary: bool)
    ensures var t := Decide(cfg, s, fr, boundary);
            && AllBodies(t) == AllBodies(s)
            && (t.open.Some? <==> s.open.Some? || boundary)
            && t.patpmt == s.patpmt && t.n == s.n
  {
    hide Bodies;
    var v := Judge(cfg, s, fr, boundary);
    if v.Cut? {
      BodiesPush(s.closed, Closed(Later(s.open.value, fr.Clock()), v.cause, s.n));
    }
  }

  /** In every run the bodies of all fragments, in order, are exactly the input
      from the first boundary frame on: nothing is lost, doubled or moved. */
  lemma {:induction false} BodiesAreTheInput(cfg: Config, events: seq<Event>)
    ensures AllBodies(Run(cfg, events)) == Recorded(events).chunks
    ensures Run(cfg, events).open.Some? <==> Recorded(events).on
  {
    hide Bodies, Decide;
    if events == [] {
      assert Bodies([]) == [] by {
        NoBodies();
      }
    } else {
      var before := events[..|events| - 1];
      BodiesAreTheInput(cfg, before);
      var s := Run(cfg, before);
      match events[|events| - 1]
      case PatPmt(_) =>
      case Dispose =>
        if s.open.Some? {
          BodiesPush(s.closed, Closed(s.open.value, ByDispose, s.n));
        }
      case Feed(packets, fr, boundary) =>
        var v := s.(videoSeen := s.videoSeen || fr.sid == VIDEO_STREAM);
        DecideKeepsBodies(cfg, v, fr, boundary);
        var t := Decide(cfg, v, fr, boundary);
        if t.open.Some? {
          assert AllBodies(Write(t, packets)) == AllBodies(t) + [packets];
        }
    }
  }

  lemma NoBodies()
    ensures Bodies([]) == []
  {
  }

  // ----------------------------------------------- what a fragment holds

  /** The packets fed by a stretch of events. */
  function Chunks(events: seq<Event>): seq<Chunk> {
    if events == [] then []
    else
      var e := events[|events| - 1];
      Chunks(events[..|events| - 1]) + if e.Feed? then [e.packets] else []
  }

  /** The largest clock fed by a stretch of events. */
  function LargestClock(events: seq<Event>): nat {
    if events == [] then 0
    else
      var e := events[|events| - 1];
      var m := LargestClock(events[..|events| - 1]);
      if e.Feed? && e.frame.Clock() > m then e.frame.Clock() else m
  }

  /** The PAT/PMT in force after some events. */
  function CurrentPatPmt(events: seq<Event>): Chunk {
    if events == [] then []
    else
      var e := events[|events| - 1];
      if e.PatPmt? then e.patpmt else CurrentPatPmt(events[..|events| - 1])
  }

  /** A fragment covers the events from the frame that opened it up to `until`;
      unless a jump opened it, that frame is a boundary. */
  ghost predicate Covers(events: seq<Event>, f: Fragment, until: nat) {
    && f.at < until <= |events|
    && events[f.at].Feed?
    && f.openTs == events[f.at].frame.Clock()
    && (f.opening == AtBoundary ==> events[f.at].boundary)
    && f.patpmt == CurrentPatPmt(events[..f.at])
    && f.packets == Chunks(events[f.at..until])
    && f.openTs <= f.lastTs
  }

  /** A closed fragment: cut by the frame at `until`, or disposed of there. Its
      duration runs to the largest clock up to and including the cutting frame. */
  ghost predicate ClosedOk(events: seq<Event>, c: Closed) {
    && Covers(events, c.f, c.until) && c.until < |events|
    && (c.cause == ByDispose <==> events[c.until] == Dispose)
    && (c.cause == ByBoundary ==> events[c.until].Feed? && events[c.until].boundary)
    && (c.cause == ByJump ==> events[c.until].Feed?)
    && c.f.lastTs == LargestClock(events[c.f.at..c.until + 1])
  }

  /** Two fragments in a row: a cut opens the next one with the same frame. */
  ghost predicate Follows(c: Closed, f: Fragment) {
    && c.until <= f.at
    && (c.cause != ByDispose ==> c.until == f.at)
    && (c.cause == ByJump <==> f.opening == AfterJump)
    && (c.cause == ByDispose || c.cause == ByJump ==> f.discont)
  }

  ghost predicate Laid(events: seq<Event>, s: Stream) {
    && s.n == |events| && s.patpmt == CurrentPatPmt(events)
    && (forall i :: 0 <= i < |s.closed| ==> ClosedOk(events, s.closed[i]))
    && (forall i :: 0 <= i < |s.closed| - 1 ==> Follows(s.closed[i], s.closed[i + 1].f))
    && (s.open.Some? ==> && Covers(events, s.open.value, |events|)
                         && s.open.value.lastTs == LargestClock(events[s.open.value.at..])
                         && (s.closed != [] ==> Follows(s.closed[|s.closed| - 1], s.open.value)))
    && (s.open == None && s.closed != [] ==> s.closed[|s.closed| - 1].cause == ByDispose)
  }

  lemma StretchPush(events: seq<Event>, e: Event, at: nat)
    requires at <= |events|
    ensures (events + [e])[at..] == events[at..] + [e]
    ensures Chunks(events[at..] + [e]) == Chunks(events[at..]) + if e.Feed? then [e.packets] else []
    ensures LargestClock(events[at..] + [e])
         == if e.Feed? && e.frame.Clock() > LargestClock(events[at..]) then e.frame.Clock() else LargestClock(events[at..])
  {
    assert (events[at..] + [e])[..|events| - at] == events[at..];
  }

  lemma CoversLonger(events: seq<Event>, e: Event, f: Fragment, until: nat)
    requires Covers(events, f, until)
    ensures Covers(events + [e], f, until)
  {
    hide Chunks, CurrentPatPmt;
    assert (events + [e])[..f.at] == events[..f.at];
    assert (events + [e])[f.at..until] == events[f.at..until];
  }

  lemma ClosedLonger(events: seq<Event>, e: Event, c: Closed)
    requires ClosedOk(events, c)
    ensures ClosedOk(events + [e], c)
  {
    hide Covers, LargestClock;
    CoversLonger(events, e, c.f, c.until);
    assert c.f.at < c.until by {
      CoversAt(events, c.f, c.until);
    }
    assert (events + [e])[c.f.at..c.until + 1] == events[c.f.at..c.until + 1];
  }

  lemma CoversAt(events: seq<Event>, f: Fragment, until: nat)
    requires Covers(events, f, until)
    ensures f.at < until <= |events| && f.openTs <= f.lastTs
  {
  }

  /** The open fragment when it is closed by event e. */
  lemma ClosedNow(events: seq<Event>, e: Event, f: Fragment, cause: Cause)
    requires Covers(events, f, |events|) && f.lastTs == LargestClock(events[f.at..])
    requires cause == ByDispose <==> e == Dispose
    requires cause == ByBoundary ==> e.Feed? && e.boundary
    requires cause == ByJump ==> e.Feed?
    ensures ClosedOk(events + [e], Closed(if e.Feed? then Later(f, e.frame.Clock()) else f, cause, |events|))
  {
    hide Covers, Chunks, LargestClock;
    var f' := if e.Feed? then Later(f, e.frame.Clock()) else f;
    CoversAt(events, f, |events|);
    assert Covers(events, f', |events|) by {
      LaterCovers(events, f, f'.lastTs);
    }
    CoversLonger(events, e, f', |events|);
    StretchPush(events, e, f.at);
    assert (events + [e])[f.at..|events| + 1] == (events + [e])[f.at..];
  }

  lemma LaterCovers(events: seq<Event>, f: Fragment, lastTs: nat)
    requires Covers(events, f, |events|) && lastTs >= f.lastTs
    ensures Covers(events, f.(lastTs := lastTs), |events|)
  {
  }

  /** The open fragment when event e is written to it. */
  lemma OpenLonger(events: seq<Event>, e: Event, f: Fragment)
    requires Covers(events, f, |events|) && f.lastTs == LargestClock(events[f.at..])
    ensures var f' := if e.Feed? then Later(f, e.frame.Clock()).(packets := f.packets + [e.packets]) else f;
            Covers(events + [e], f', |events| + 1) && f'.lastTs == LargestClock((events + [e])[f.at..])
  {
    hide Chunks, LargestClock, CurrentPatPmt;
    StretchPush(events, e, f.at);
    assert (events + [e])[..f.at] == events[..f.at];
    assert (events + [e])[f.at..|events| + 1] == (events + [e])[f.at..];
    assert events[f.at..|events|] == events[f.at..];
  }

  /** A fragment opened by event e, with e written to it. */
  lemma OpenedNow(events: seq<Event>, e: Event, discont: bool, opening: Opening)
    requires e.Feed? && (opening == AtBoundary ==> e.boundary)
    ensures var f := Fragment(|events|, e.frame.Clock(), e.frame.Clock(), discont, opening,
                              CurrentPatPmt(events), [e.packets]);
            Covers(events + [e], f, |events| + 1) && f.lastTs == LargestClock((events + [e])[f.at..])
  {
    hide Chunks, LargestClock, CurrentPatPmt;
    var longer, n := events + [e], |events|;
    assert longer[..n] == events && longer[n] == e;
    assert longer[n..] == [e];
    assert longer[n..n + 1] == [e];
    Alone(e);
  }

  lemma Alone(e: Event)
    requires e.Feed?
    ensures Chunks([e]) == [e.packets] && LargestClock([e]) == e.frame.Clock()
  {
    assert [e][..0] == [];
  }

  lemma LaidThroughFrame(cfg: Config, events: seq<Event>, s: Stream, e: Event)
    requires Laid(events, s) && e.Feed?
    ensures Laid(events + [e], Step(cfg, s, e))
  {
    hide Covers, ClosedOk, Chunks, LargestClock, CurrentPatPmt, Step, VerdictOn;
    StepShape(cfg, s, e);
    var v := VerdictOn(cfg, s, e);
    var t := Step(cfg, s, e);
    SamePatPmt(events, e);
    LongerClosed(events, e, s.closed);
    if v.Cut? {
      ClosedNow(events, e, s.open.value, v.cause);
      OpenedNow(events, e, v.discont, if v.cause == ByJump then AfterJump else AtBoundary);
      assert t.closed == s.closed + [Closed(Later(s.open.value, e.frame.Clock()), v.cause, s.n)];
      assert Follows(t.closed[|s.closed|], t.open.value);
      FollowsPush(s.closed, t.closed[|s.closed|]);
    } else if v == Start {
      OpenedNow(events, e, true, AtBoundary);
      assert s.closed != [] ==> ClosedOk(events, s.closed[|s.closed| - 1]);
      UntilInside(events, s.closed);
    } else if v == Keep {
      OpenLonger(events, e, s.open.value);
    }
  }

  lemma FollowsPush(closed: seq<Closed>, c: Closed)
    requires forall i :: 0 <= i < |closed| - 1 ==> Follows(closed[i], closed[i + 1].f)
    requires closed != [] ==> Follows(closed[|closed| - 1], c.f)
    ensures forall i :: 0 <= i < |closed + [c]| - 1 ==> Follows((closed + [c])[i], (closed + [c])[i + 1].f)
  {
    hide Follows;
  }

  lemma UntilInside(events: seq<Event>, closed: seq<Closed>)
    requires forall i :: 0 <= i < |closed| ==> ClosedOk(events, closed[i])
    ensures forall i :: 0 <= i < |closed| ==> closed[i].until < |events|
  {
    hide Covers, LargestClock;
  }

  lemma SamePatPmt(events: seq<Event>, e: Event)
    requires !e.PatPmt?
    ensures CurrentPatPmt(events + [e]) == CurrentPatPmt(events)
  {
    assert (events + [e])[..|events|] == events;
  }

  lemma LongerClosed(events: seq<Event>, e: Event, closed: seq<Closed>)
    requires forall i :: 0 <= i < |closed| ==> ClosedOk(events, closed[i])
    ensures forall i :: 0 <= i < |closed| ==> ClosedOk(events + [e], closed[i])
  {
    hide ClosedOk;
    forall i | 0 <= i < |closed|
      ensures ClosedOk(events + [e], closed[i])
    {
      ClosedLonger(events, e, closed[i]);
    }
  }

  lemma LaidThroughOther(cfg: Config, events: seq<Event>, s: Stream, e: Event)
    requires Laid(events, s) && !e.Feed?
    ensures Laid(events + [e], Step(cfg, s, e))
  {
    hide Covers, ClosedOk, Chunks, LargestClock, CurrentPatPmt;
    var t := Step(cfg, s, e);
    LongerClosed(events, e, s.closed);
    if e.PatPmt? {
      NewPatPmt(events, e);
      if s.open.Some? {
        OpenLonger(events, e, s.open.value);
      }
    } else {
      SamePatPmt(events, e);
      if s.open.Some? {
        ClosedNow(events, e, s.open.value, ByDispose);
        assert t.closed == s.closed + [Closed(s.open.value, ByDispose, s.n)];
        FollowsPush(s.closed, t.closed[|s.closed|]);
      }
    }
  }

  lemma NewPatPmt(events: seq<Event>, e: Event)
    requires e.PatPmt?
    ensures CurrentPatPmt(events + [e]) == e.patpmt
  {
  }

  /** In every run each fragment is a stretch of the input: it starts with the
      frame that opened it, a boundary unless a jump did; it holds the PAT/PMT
      of that moment and then everything fed until it was closed; the next
      fragment starts where it ends unless the muxer was disposed of there; and
      its duration is the largest clock fed minus its opening clock. */
  lemma {:induction false} FragmentsAreStretches(cfg: Config, events: seq<Event>)
    ensures Laid(events, Run(cfg, events))
  {
    hide Covers, ClosedOk, Step;
    if events != [] {
      var n := |events| - 1;
      FragmentsAreStretches(cfg, events[..n]);
      assert events == events[..n] + [events[n]];
      if events[n].Feed? {
        LaidThroughFrame(cfg, events[..n], Run(cfg, events[..n]), events[n]);
      } else {
        LaidThroughOther(cfg, events[..n], Run(cfg, events[..n]), events[n]);
      }
    }
  }

  // ------------------------------------------------------- short fragments

  ghost predicate NoDispose(events: seq<Event>) {
    forall e :: e in events ==> e != Dispose
  }

  lemma PrefixNoDispose(events: seq<Event>, n: nat)
    requires NoDispose(events) && n < |events|
    ensures NoDispose(events[..n]) && events[n] != Dispose
  {
    assert forall e :: e in events[..n] ==> e in events;
    assert events[n] in events;
  }

  /** Shorter than both limits although cut at a boundary. */
  predicate IsShort(cfg: Config, c: Closed) {
    c.cause == ByBoundary && c.f.Duration() < cfg.Target() && c.f.Duration() < cfg.Max()
  }

  function ShortCuts(cfg: Config, closed: seq<Closed>): nat {
    if closed == [] then 0
    else ShortCuts(cfg, closed[..|closed| - 1]) + if IsShort(cfg, closed[|closed| - 1]) then 1 else 0
  }

  lemma ShortCutsPush(cfg: Config, closed: seq<Closed>, c: Closed)
    ensures ShortCuts(cfg, closed + [c]) == ShortCuts(cfg, closed) + if IsShort(cfg, c) then 1 else 0
  {
    assert (closed + [c])[..|closed|] == closed;
  }

  /** How often the muxer was disposed of; it can be fed again afterwards. */
  function Disposals(events: seq<Event>): nat {
    if events == [] then 0
    else Disposals(events[..|events| - 1]) + if events[|events| - 1] == Dispose then 1 else 0
  }

  lemma DisposalsPush(events: seq<Event>, e: Event)
    ensures Disposals(events + [e]) == Disposals(events) + if e == Dispose then 1 else 0
  {
    assert (events + [e])[..|events|] == events;
  }

  /** An audio flag set before video appears can outlive its fragment, unless a
      fragment cannot reach its maximum without a jump. */
  function Leftovers(cfg: Config): nat {
    if cfg.Max() <= cfg.PositiveJump() then 1 else 0
  }

  /** The most short cuts a run with d disposals can have. */
  function ShortCutBound(cfg: Config, d: nat): nat {
    if cfg.Target() == 0 then 0 else d + Leftovers(cfg)
  }

  /** A flag that is up although the open fragment is not over its maximum. */
  predicate Stale(cfg: Config, s: Stream, flag: bool) {
    flag && !(s.open.Some? && s.open.value.Duration() >= cfg.Max())
  }

  function One(b: bool): nat {
    if b then 1 else 0
  }

  /** A short cut spends a stale flag. Each disposal can leave one, and the
      first video frame can make the audio flag one. */
  ghost predicate FewShort(cfg: Config, s: Stream, d: nat) {
    && (s.open.Some? ==> s.open.value.openTs <= s.open.value.lastTs)
    && (s.forceKey ==> s.videoSeen)
    && (!s.videoSeen ==> ShortCuts(cfg, s.closed) + One(Stale(cfg, s, s.forceAudio)) <= d)
    && (s.videoSeen ==>
          ShortCuts(cfg, s.closed) + One(s.forceAudio) + One(Stale(cfg, s, s.forceKey)) <= d + Leftovers(cfg))
    && (cfg.Max() > cfg.PositiveJump() ==>
          !s.forceAudio && (s.open.Some? && !s.videoSeen ==> s.open.value.Duration() <= cfg.PositiveJump()))
    && (cfg.Target() == 0 ==> ShortCuts(cfg, s.closed) == 0)
  }

  lemma VideoKeepsFewShort(cfg: Config, s: Stream, seen: Stream, d: nat)
    requires FewShort(cfg, s, d) && seen == s.(videoSeen := true)
    ensures FewShort(cfg, seen, d)
  {
  }

  lemma DecideKeepsFewShort(cfg: Config, s: Stream, fr: Frame, boundary: bool, d: nat)
    requires FewShort(cfg, s, d) && (fr.sid == VIDEO_STREAM ==> s.videoSeen)
    ensures FewShort(cfg, Decide(cfg, s, fr, boundary), d)
  {
    hide ShortCuts;
    var v := Judge(cfg, s, fr, boundary);
    if v.Cut? {
      ShortCutsPush(cfg, s.closed, Closed(Later(s.open.value, fr.Clock()), v.cause, s.n));
    }
  }

  /** Writing packets, new tables and counting events change nothing here. */
  lemma SameFewShort(cfg: Config, s: Stream, t: Stream, d: nat)
    requires FewShort(cfg, s, d)
    requires t.closed == s.closed && t.videoSeen == s.videoSeen && t.forceKey == s.forceKey && t.forceAudio == s.forceAudio
    requires s.open.Some? == t.open.Some?
    requires s.open.Some? ==> t.open.value.openTs == s.open.value.openTs && t.open.value.lastTs == s.open.value.lastTs
    ensures FewShort(cfg, t, d)
  {
  }

  lemma DisposeKeepsFewShort(cfg: Config, s: Stream, d: nat)
    requires FewShort(cfg, s, d)
    ensures FewShort(cfg, Close(s, ByDispose), d + 1)
  {
    hide ShortCuts;
    if s.open.Some? {
      ShortCutsPush(cfg, s.closed, Closed(s.open.value, ByDispose, s.n));
    }
  }

  lemma FeedKeepsFewShort(cfg: Config, s: Stream, e: Event, d: nat)
    requires FewShort(cfg, s, d) && e.Feed?
    ensures FewShort(cfg, Step(cfg, s, e), d)
  {
    hide FewShort, Decide;
    var seen := s.(videoSeen := s.videoSeen || e.frame.sid == VIDEO_STREAM);
    if e.frame.sid == VIDEO_STREAM {
      VideoKeepsFewShort(cfg, s, seen, d);
    }
    DecideKeepsFewShort(cfg, seen, e.frame, e.boundary, d);
    SameFewShort(cfg, Decide(cfg, seen, e.frame, e.boundary), Step(cfg, s, e), d);
  }

  lemma FewShortStep(cfg: Config, s: Stream, e: Event, d: nat)
    requires FewShort(cfg, s, d)
    ensures FewShort(cfg, Step(cfg, s, e), if e == Dispose then d + 1 else d)
  {
    hide FewShort, Decide;
    match e {
      case Feed(_, _, _) => FeedKeepsFewShort(cfg, s, e, d);
      case PatPmt(_) => SameFewShort(cfg, s, Step(cfg, s, e), d);
      case Dispose =>
        DisposeKeepsFewShort(cfg, s, d);
        SameFewShort(cfg, Close(s, ByDispose), Step(cfg, s, e), d + 1);
    }
  }

  lemma {:induction false} RunHasFewShort(cfg: Config, events: seq<Event>)
    ensures FewShort(cfg, Run(cfg, events), Disposals(events))
  {
    hide Step;
    if events != [] {
      var n := |events| - 1;
      RunHasFewShort(cfg, events[..n]);
      FewShortStep(cfg, Run(cfg, events[..n]), events[n], Disposals(events[..n]));
    }
  }

  /** In every run, also one that goes on after the muxer was disposed of, the
      fragments cut at a boundary that are shorter than both the target and the
      maximum are at most one for each disposal and one more; none without a
      target. */
  lemma ShortCutsAreBounded(cfg: Config, events: seq<Event>)
    ensures ShortCuts(cfg, Run(cfg, events).closed) <= ShortCutBound(cfg, Disposals(events))
    ensures Disposals(events) == 0 ==> ShortCuts(cfg, Run(cfg, events).closed) <= 1
  {
    hide Run, ShortCuts;
    RunHasFewShort(cfg, events);
  }

  // ------------------------------------------- the bound is always reached

  /** A fragment has just been opened, after video, and no flag is up. */
  predicate JustOpened(s: Stream) {
    && s.open.Some? && s.open.value.openTs == s.open.value.lastTs
    && s.videoSeen && !s.forceKey && !s.forceAudio
  }

  /** Audio alone up to the maximum, then a video key frame, then an audio
      boundary at once: the second cut is short. */
  function AudioFirst(cfg: Config): seq<Event> {
    var m := cfg.Max();
    [Feed([], Frame(AUDIO_STREAM, 0, 0), true), Feed([], Frame(AUDIO_STREAM, m, 0), false),
     Feed([], Frame(VIDEO_STREAM, 0, m), true), Feed([], Frame(AUDIO_STREAM, m, 0), true)]
  }

  /** A fragment is open from 0 to `last`, before video, and the audio flag is as
      given. */
  predicate AudioOnly(s: Stream, last: nat, flag: bool) {
    && s.closed == [] && s.open.Some? && s.open.value.openTs == 0 && s.open.value.lastTs == last
    && !s.videoSeen && !s.forceKey && s.forceAudio == flag
  }

  lemma AudioStarts(cfg: Config)
    ensures AudioOnly(Step(cfg, INITIAL, Feed([], Frame(AUDIO_STREAM, 0, 0), true)), 0, false)
  {
  }

  lemma AudioReachesMax(cfg: Config, s: Stream)
    requires AudioOnly(s, 0, false) && cfg.Max() <= cfg.PositiveJump()
    ensures AudioOnly(Step(cfg, s, Feed([], Frame(AUDIO_STREAM, cfg.Max(), 0), false)), cfg.Max(), true)
  {
  }

  /** The first video boundary spends the key flag it puts up, and the audio flag
      is left. */
  lemma VideoLeavesAudioFlag(cfg: Config, s: Stream)
    requires AudioOnly(s, cfg.Max(), true) && cfg.Max() <= cfg.PositiveJump()
    ensures var m := cfg.Max();
            var t := Step(cfg, s, Feed([], Frame(VIDEO_STREAM, 0, m), true));
            && t.closed == [Closed(s.open.value, ByBoundary, s.n)]
            && t.videoSeen && t.forceAudio && !t.forceKey
            && t.open.Some? && t.open.value.openTs == t.open.value.lastTs == m
  {
  }

  /** The next audio boundary spends it. */
  lemma AudioFlagCuts(cfg: Config, s: Stream)
    requires s.videoSeen && s.forceAudio && !s.forceKey
    requires s.open.Some? && s.open.value.openTs == s.open.value.lastTs == cfg.Max()
    ensures var t := Step(cfg, s, Feed([], Frame(AUDIO_STREAM, cfg.Max(), 0), true));
            t.closed == s.closed + [Closed(s.open.value, ByBoundary, s.n)] && JustOpened(t)
  {
  }

  lemma AudioFirstIsShort(cfg: Config)
    requires cfg.Target() > 0 && cfg.Max() <= cfg.PositiveJump()
    ensures var s := Run(cfg, AudioFirst(cfg)); JustOpened(s) && ShortCuts(cfg, s.closed) == 1
  {
    var es := AudioFirst(cfg);
    FourOf([], es);
    assert [] + es == es && Run(cfg, []) == INITIAL;
    hide Run, Step, JustOpened, ShortCuts;
    RunFour(cfg, [], es[0], es[1], es[2], es[3]);
    var s1 := Step(cfg, INITIAL, es[0]);
    AudioStarts(cfg);
    var s2 := Step(cfg, s1, es[1]);
    AudioReachesMax(cfg, s1);
    var s3 := Step(cfg, s2, es[2]);
    VideoLeavesAudioFlag(cfg, s2);
    AudioFlagCuts(cfg, s3);
    ShortCutsPush(cfg, [], Closed(s2.open.value, ByBoundary, s2.n));
    ShortCutsPush(cfg, s3.closed, Closed(s3.open.value, ByBoundary, s3.n));
    assert [] + s3.closed == s3.closed;
    NoShortCuts(cfg);
  }

  lemma NoShortCuts(cfg: Config)
    ensures ShortCuts(cfg, []) == 0
  {
  }

  lemma NoDisposals()
    ensures Disposals([]) == 0
  {
  }

  /** An audio frame far ahead puts the key flag up, the disposal leaves it, and
      the second of two video boundaries at once is cut short. */
  function KeyRound(cfg: Config, openTs: nat): seq<Event> {
    [Feed([], Frame(AUDIO_STREAM, openTs + cfg.Max(), 0), false), Dispose,
     Feed([], Frame(VIDEO_STREAM, 0, 0), true), Feed([], Frame(VIDEO_STREAM, 0, 0), true)]
  }

  /** An audio frame far ahead does not drive the timeline, but makes the
      fragment long. */
  lemma AudioPutsKeyFlagUp(cfg: Config, s: Stream)
    requires JustOpened(s)
    ensures var t := Step(cfg, s, Feed([], Frame(AUDIO_STREAM, s.open.value.openTs + cfg.Max(), 0), false));
            t.closed == s.closed && t.videoSeen && t.forceKey && !t.forceAudio && t.open.Some?
  {
  }

  lemma DisposeLeavesKeyFlag(cfg: Config, s: Stream)
    requires s.open.Some?
    ensures var t := Step(cfg, s, Dispose);
            && t.closed == s.closed + [Closed(s.open.value, ByDispose, s.n)] && t.open == None
            && t.videoSeen == s.videoSeen && t.forceKey == s.forceKey && t.forceAudio == s.forceAudio
  {
  }

  lemma VideoOpensWithKeyFlag(cfg: Config, s: Stream)
    requires s.open == None && s.videoSeen && s.forceKey && !s.forceAudio
    ensures var t := Step(cfg, s, Feed([], Frame(VIDEO_STREAM, 0, 0), true));
            && t.closed == s.closed && t.videoSeen && t.forceKey && !t.forceAudio
            && t.open.Some? && t.open.value.openTs == t.open.value.lastTs == 0
  {
  }

  lemma KeyFlagCuts(cfg: Config, s: Stream)
    requires s.videoSeen && s.forceKey && !s.forceAudio
    requires s.open.Some? && s.open.value.openTs == s.open.value.lastTs == 0
    ensures var t := Step(cfg, s, Feed([], Frame(VIDEO_STREAM, 0, 0), true));
            t.closed == s.closed + [Closed(s.open.value, ByBoundary, s.n)] && JustOpened(t)
  {
  }

  lemma KeyRoundSteps(cfg: Config, s: Stream)
    requires cfg.Target() > 0 && JustOpened(s)
    ensures var es := KeyRound(cfg, s.open.value.openTs);
            var t := Step(cfg, Step(cfg, Step(cfg, Step(cfg, s, es[0]), es[1]), es[2]), es[3]);
            JustOpened(t) && ShortCuts(cfg, t.closed) == ShortCuts(cfg, s.closed) + 1
  {
    AudioPutsKeyFlagUp(cfg, s);
    hide ShortCuts, Step, JustOpened;
    var es := KeyRound(cfg, s.open.value.openTs);
    var s1 := Step(cfg, s, es[0]);
    DisposeLeavesKeyFlag(cfg, s1);
    var s2 := Step(cfg, s1, es[1]);
    VideoOpensWithKeyFlag(cfg, s2);
    var s3 := Step(cfg, s2, es[2]);
    KeyFlagCuts(cfg, s3);
    ShortCutsPush(cfg, s.closed, Closed(s1.open.value, ByDispose, s1.n));
    ShortCutsPush(cfg, s3.closed, Closed(s3.open.value, ByBoundary, s3.n));
  }

  lemma KeyRoundRuns(cfg: Config, events: seq<Event>)
    requires cfg.Target() > 0 && JustOpened(Run(cfg, events))
    ensures var more := events + KeyRound(cfg, Run(cfg, events).open.value.openTs);
            && JustOpened(Run(cfg, more))
            && ShortCuts(cfg, Run(cfg, more).closed) == ShortCuts(cfg, Run(cfg, events).closed) + 1
            && Disposals(more) == Disposals(events) + 1
  {
    var es := KeyRound(cfg, Run(cfg, events).open.value.openTs);
    KeyRoundSteps(cfg, Run(cfg, events));
    assert es[0] != Dispose && es[1] == Dispose && es[2] != Dispose && es[3] != Dispose;
    hide Run, Step, Disposals, KeyRound, ShortCuts, JustOpened;
    FourOf(events, es);
    RunFour(cfg, events, es[0], es[1], es[2], es[3]);
    DisposalsFour(events, es[0], es[1], es[2], es[3]);
  }

  lemma RunFour(cfg: Config, events: seq<Event>, a: Event, b: Event, c: Event, d: Event)
    ensures Run(cfg, events + [a] + [b] + [c] + [d])
         == Step(cfg, Step(cfg, Step(cfg, Step(cfg, Run(cfg, events), a), b), c), d)
  {
    hide Run, Step;
    RunPush(cfg, events, a);
    RunPush(cfg, events + [a], b);
    RunPush(cfg, events + [a] + [b], c);
    RunPush(cfg, events + [a] + [b] + [c], d);
  }

  lemma DisposalsFour(events: seq<Event>, a: Event, b: Event, c: Event, d: Event)
    ensures Disposals(events + [a] + [b] + [c] + [d])
         == Disposals(events) + One(a == Dispose) + One(b == Dispose) + One(c == Dispose) + One(d == Dispose)
  {
    hide Disposals;
    DisposalsPush(events, a);
    DisposalsPush(events + [a], b);
    DisposalsPush(events + [a] + [b], c);
    DisposalsPush(events + [a] + [b] + [c], d);
  }

  lemma FourOf(events: seq<Event>, es: seq<Event>)
    requires |es| == 4
    ensures events + es == events + [es[0]] + [es[1]] + [es[2]] + [es[3]]
  {
  }

  /** A run with d disposals and as many short cuts as the bound allows. */
  lemma {:induction false} BoundIsReached(cfg: Config, d: nat) returns (events: seq<Event>)
    requires cfg.Target() > 0
    ensures Disposals(events) == d && JustOpened(Run(cfg, events))
    ensures ShortCuts(cfg, Run(cfg, events).closed) == ShortCutBound(cfg, d)
  {
    if d > 0 {
      events := BoundIsReached(cfg, d - 1);
      KeyRoundRuns(cfg, events);
      events := events + KeyRound(cfg, Run(cfg, events).open.value.openTs);
    } else if cfg.Max() <= cfg.PositiveJump() {
      events := AudioFirst(cfg);
      AudioFirstIsShort(cfg);
      FourOf([], events);
      NoDisposals();
      DisposalsFour([], events[0], events[1], events[2], events[3]);
      assert [] + events == events;
    } else {
      var e := Feed([], Frame(VIDEO_STREAM, 0, 0), true);
      events := [] + [e];
      RunPush(cfg, [], e);
      DisposalsPush([], e);
    }
  }

  lemma DisposeIsNoShortCut(cfg: Config, events: seq<Event>)
    ensures ShortCuts(cfg, Run(cfg, events + [Dispose]).closed) == ShortCuts(cfg, Run(cfg, events).closed)
    ensures Disposals(events + [Dispose]) == Disposals(events) + 1
  {
    hide Run, ShortCuts, Disposals;
    RunPush(cfg, events, Dispose);
    DisposalsPush(events, Dispose);
    var s := Run(cfg, events);
    if s.open.Some? {
      ShortCutsPush(cfg, s.closed, Closed(s.open.value, ByDispose, s.n));
    }
  }

  /** A run with d disposals and any number of short cuts within the bound. */
  lemma {:induction false} ShortCutsAreReached(cfg: Config, d: nat, k: nat) returns (events: seq<Event>)
    requires k <= ShortCutBound(cfg, d)
    ensures Disposals(events) == d && ShortCuts(cfg, Run(cfg, events).closed) == k
  {
    hide Run, ShortCuts, Disposals;
    if cfg.Target() > 0 && k == ShortCutBound(cfg, d) {
      events := BoundIsReached(cfg, d);
    } else if d > 0 {
      var before := ShortCutsAreReached(cfg, d - 1, k);
      DisposeIsNoShortCut(cfg, before);
      events := before + [Dispose];
    } else {
      events := [];
      NothingRun(cfg);
    }
  }

  lemma NothingRun(cfg: Config)
    ensures Disposals([]) == 0 && ShortCuts(cfg, Run(cfg, []).closed) == 0
  {
  }

  /** A configuration can produce k short fragments in a run with d disposals if
      and only if k is within the bound: none without a target, and with one as
      many as there are disposals, and one more when the maximum is within the
      limit at which timestamps count as a jump. */
  lemma ShortCutsPossibleIff(cfg: Config, d: nat, k: nat)
    ensures (exists events :: Disposals(events) == d && ShortCuts(cfg, Run(cfg, events).closed) == k)
       <==> k <= ShortCutBound(cfg, d)
  {
    hide Run, Disposals, ShortCuts;
    if k <= ShortCutBound(cfg, d) {
      var events := ShortCutsAreReached(cfg, d, k);
    } else {
      forall events | Disposals(events) == d
        ensures ShortCuts(cfg, Run(cfg, events).closed) != k
      {
        ShortCutsAreBounded(cfg, events);
      }
    }
  }

  /** After a boundary frame the open fragment is just opened, or shorter than
      the target. */
  lemma BoundaryLeavesShortOpen(cfg: Config, s: Stream, e: Event)
    requires e.Feed? && e.boundary
    ensures var t := Step(cfg, s, e);
            t.open.Some? && (t.open.value.Duration() < cfg.Target() || t.open.value.packets == [e.packets])
  {
  }

  // ------------------------------------------------------------- durations

  /** Each frame's clock is at least that of every frame before it. */
  ghost predicate Nondecreasing(events: seq<Event>) {
    forall i, j :: 0 <= i < j < |events| && events[i].Feed? && events[j].Feed? ==>
                     events[i].frame.Clock() <= events[j].frame.Clock()
  }

  function SumOfDurations(closed: seq<Closed>): int {
    if closed == [] then 0 else SumOfDurations(closed[..|closed| - 1]) + closed[|closed| - 1].f.Duration()
  }

  lemma SumPush(closed: seq<Closed>, c: Closed)
    ensures SumOfDurations(closed + [c]) == SumOfDurations(closed) + c.f.Duration()
  {
    assert (closed + [c])[..|closed|] == closed;
  }

  function FirstOpening(s: Stream): nat
    requires s.open.Some?
  {
    if s.closed != [] then s.closed[0].f.openTs else s.open.value.openTs
  }

  lemma TelescopeStep(cfg: Config, s: Stream, e: Event, last: nat)
    requires e != Dispose
    requires s.open == None ==> s.closed == []
    requires s.open.Some? ==> s.open.value.lastTs == last
                              && SumOfDurations(s.closed) == s.open.value.openTs - FirstOpening(s)
    requires e.Feed? ==> e.frame.Clock() >= last
    ensures var t := Step(cfg, s, e);
            && (t.open == None ==> t.closed == [])
            && (t.open.Some? ==> && t.open.value.lastTs == (if e.Feed? then e.frame.Clock() else last)
                                 && SumOfDurations(t.closed) == t.open.value.openTs - FirstOpening(t))
  {
    hide SumOfDurations, VerdictOn;
    if e.Feed? {
      hide Step;
      StepShape(cfg, s, e);
      var v := VerdictOn(cfg, s, e);
      if v.Cut? {
        SumPush(s.closed, Closed(Later(s.open.value, e.frame.Clock()), v.cause, s.n));
      } else if v == Start {
        NoDurations();
      }
    }
  }

  lemma NoDurations()
    ensures SumOfDurations([]) == 0
  {
  }

  /** For a clock that never goes back the durations telescope: those of the
      closed fragments add up to the opening clock of the open one, and with it
      to the last clock fed, minus the first opening clock. */
  lemma {:induction false} DurationsTelescope(cfg: Config, events: seq<Event>)
    requires NoDispose(events) && Nondecreasing(events)
    ensures var s := Run(cfg, events);
            && (s.open == None ==> s.closed == [])
            && (s.open.Some? ==> && s.open.value.lastTs == LargestClock(events)
                                 && SumOfDurations(s.closed) == s.open.value.openTs - FirstOpening(s))
  {
    hide Step, SumOfDurations;
    if events == [] {
    } else {
      var n := |events| - 1;
      var e := events[n];
      PrefixNoDispose(events, n);
      DurationsTelescope(cfg, events[..n]);
      ClockIsLatest(events);
      TelescopeStep(cfg, Run(cfg, events[..n]), e, LargestClock(events[..n]));
    }
  }

  lemma {:induction false} ClockIsLatest(events: seq<Event>)
    requires events != [] && Nondecreasing(events)
    ensures var e := events[|events| - 1];
            e.Feed? ==> e.frame.Clock() >= LargestClock(events[..|events| - 1])
  {
    var n := |events| - 1;
    if events[n].Feed? {
      LargestIsBounded(events[..n], events[n].frame.Clock());
    }
  }

  lemma {:induction false} LargestIsBounded(events: seq<Event>, bound: nat)
    requires forall i :: 0 <= i < |events| && events[i].Feed? ==> events[i].frame.Clock() <= bound
    ensures LargestClock(events) <= bound
  {
    if events != [] {
      LargestIsBounded(events[..|events| - 1], bound);
    }
  }

  /** Disposing of the muxer then closes the last fragment: all durations add up
      to the last clock minus the first opening clock. */
  lemma AllDurations(cfg: Config, events: seq<Event>)
    requires NoDispose(events) && Nondecreasing(events) && Run(cfg, events).open.Some?
    ensures var s := Run(cfg, events);
            SumOfDurations(Run(cfg, events + [Dispose]).closed) == LargestClock(events) - FirstOpening(s)
  {
    hide SumOfDurations, Decide;
    var s := Run(cfg, events);
    RunPush(cfg, events, Dispose);
    DurationsTelescope(cfg, events);
    SumPush(s.closed, Closed(s.open.value, ByDispose, s.n));
  }
}
