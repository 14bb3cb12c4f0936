/** One group's inputs: the five input sessions, the pieces that live with an
    input, the relay-pull bookkeeping and the relay-push table.  The functions
    below make up the regions under the group lock; RelayProtocol interleaves
    them and LogicGroup carries them out in place. */
module RelayGroup {
  import opened Bytes

  const MIN_PULL_BACKOFF_MS := 1000
  const MAX_PULL_BACKOFF_MS := 30000
  const PULL_BACKOFF_JITTER_MS := 250

  datatype Config = Config(mpegts: bool, rtsp: bool, dummyAudio: bool, hook: bool, pushEnable: bool)

  datatype Customize = Customize(id: nat, streamName: string)

  /** A subscriber; disposing a group forgets all but the HLS ones. */
  datatype Sub = Sub(id: nat, hls: bool)

  datatype Push = Push(isPushing: bool, session: Option<nat>)

  datatype Proxy = Proxy(
    staticEnable: bool, apiEnable: bool, url: string, retryNum: int, autoStopMs: int,
    startCount: nat, lastHasOutTs: int, isPulling: bool, pullingId: Option<nat>, nextTs: int, backoffMs: int)

  datatype State = State(
    config: Config,
    rtmpPub: Option<nat>, rtspPub: Option<nat>, customizePub: Option<Customize>,
    rtmpPull: Option<nat>, rtspPull: Option<nat>,
    rtsp2Rtmp: bool, rtmp2Rtsp: bool, rtmp2Mpegts: bool, dummyAudio: bool, hook: bool,
    proxy: Proxy, pushes: map<string, Push>, subs: set<Sub>)

  /** What a region leaves behind: the state, whether it started a pull
      attempt, the push targets it started, and whether it succeeded. */
  datatype Outcome = Outcome(state: State, pulled: bool, pushed: set<string>, ok: bool)

  datatype StartPullReq = StartPullReq(url: string, retryNum: int, autoStopMs: int)

  /** The calls that reach a group from outside its own goroutines. */
  datatype Op =
    | StartPull(req: StartPullReq)
    | StopPull
    | KickPull(id: nat)
    | Tick
    | AddSub(sub: Sub)
    | DescribeSub(sub: Sub)
    | DelSub(sub: Sub)
    | AddRtmpPub(id: nat)
    | AddRtspPub(id: nat)
    | AddCustomizePub(id: nat, streamName: string)
    | DelRtmpPub(id: nat)
    | DelRtspPub(id: nat)
    | DelCustomizePub(id: nat)
    | Dispose

  // ----------------------------------------------------------- questions

  predicate HasPull(g: State) {
    g.rtmpPull.Some? || g.rtspPull.Some?
  }

  predicate HasIn(g: State) {
    g.rtmpPub.Some? || g.rtspPub.Some? || g.customizePub.Some? || HasPull(g)
  }

  function PullKey(g: State): Option<nat> {
    if g.rtmpPull.Some? then g.rtmpPull else g.rtspPull
  }

  predicate HasSub(g: State) {
    g.subs != {} || g.hook
  }

  predicate HasOut(g: State) {
    HasSub(g) || exists u :: u in g.pushes && g.pushes[u].isPushing && g.pushes[u].session.Some?
  }

  predicate ShouldAutoStop(g: State, now: nat) {
    && g.proxy.autoStopMs >= 0
    && !HasOut(g)
    && (g.proxy.autoStopMs == 0
        || (g.proxy.lastHasOutTs != -1 && now - g.proxy.lastHasOutTs >= g.proxy.autoStopMs))
  }

  predicate RetryLimited(g: State) {
    0 <= g.proxy.retryNum < g.proxy.startCount
  }

  /** Every condition a new pull attempt has to meet. */
  predicate ShouldStartPull(g: State, now: nat) {
    && (g.proxy.nextTs == 0 || g.proxy.nextTs <= now)
    && !HasIn(g)
    && !g.proxy.isPulling
    && (g.proxy.staticEnable || g.proxy.apiEnable)
    && !ShouldAutoStop(g, now)
    && !RetryLimited(g)
  }

  predicate IsRtmpUrl(url: string) {
    "rtmp" <= url
  }

  /** The attempt that holds the pull flag. */
  predicate Owns(g: State, id: nat) {
    g.proxy.isPulling && g.proxy.pullingId == Some(id)
  }

  // -------------------------------------------------------- pull regions

  function ClearFlag(g: State): State {
    g.(proxy := g.proxy.(isPulling := false, pullingId := None))
  }

  function ResetBackoff(g: State): State {
    g.(proxy := g.proxy.(backoffMs := 0, nextTs := 0))
  }

  function NextBackoff(backoffMs: int): int {
    if backoffMs <= 0 then MIN_PULL_BACKOFF_MS
    else if backoffMs * 2 > MAX_PULL_BACKOFF_MS then MAX_PULL_BACKOFF_MS
    else backoffMs * 2
  }

  function ScheduleBackoff(g: State, now: nat): State {
    var b := NextBackoff(g.proxy.backoffMs);
    g.(proxy := g.proxy.(backoffMs := b, nextTs := now + b + now % PULL_BACKOFF_JITTER_MS))
  }

  function PullIfNeeded(g: State, now: nat, uk: nat): Outcome {
    if ShouldStartPull(g, now)
    then Outcome(g.(proxy := g.proxy.(isPulling := true, pullingId := Some(uk))), true, {}, true)
    else Outcome(g, false, {}, false)
  }

  function StartPullAt(g: State, req: StartPullReq, now: nat, uk: nat): Outcome {
    PullIfNeeded(ResetBackoff(g.(proxy := g.proxy.(
                                   apiEnable := true, url := req.url, retryNum := req.retryNum, autoStopMs := req.autoStopMs))),
                 now, uk)
  }

  function StopPulling(g: State): State {
    ResetBackoff(ClearFlag(g.(proxy := g.proxy.(startCount := 0))))
  }

  function DisableApi(g: State): State {
    g.(proxy := g.proxy.(apiEnable := false))
  }

  function Kick(g: State, id: nat): Outcome {
    if g.rtmpPull == Some(id) || g.rtspPull == Some(id)
    then Outcome(StopPulling(DisableApi(g)), false, {}, true)
    else Outcome(g, false, {}, false)
  }

  /** The clock of the last moment with a subscriber, as Tick refreshes it. */
  function Seen(g: State, now: nat): State {
    if HasSub(g) then g.(proxy := g.proxy.(lastHasOutTs := now)) else g
  }

  function TickPull(g: State, now: nat, uk: nat): Outcome {
    if ShouldAutoStop(Seen(g, now), now) then Outcome(StopPulling(Seen(g, now)), false, {}, true)
    else PullIfNeeded(Seen(g, now), now, uk)
  }

  function OnPullStartFailed(g: State, id: nat, now: nat): State {
    if Owns(g, id) then ScheduleBackoff(ClearFlag(g), now) else g
  }

  function OnPullSessionExited(g: State, id: nat, failed: bool, now: nat): State {
    if PullKey(g) != Some(id) then g
    else if failed then ScheduleBackoff(g, now) else ResetBackoff(g)
  }

  /** The second check of an attempt that got its slot, and the start it counts. */
  function Confirm(g: State, id: nat): Outcome {
    if Owns(g, id) then Outcome(g.(proxy := g.proxy.(startCount := g.proxy.startCount + 1)), false, {}, true)
    else Outcome(g, false, {}, false)
  }

  // -------------------------------------------------------- push regions

  predicate ShouldPush(g: State) {
    g.config.pushEnable && (g.rtmpPub.Some? || g.rtspPub.Some?)
  }

  function ToPush(g: State): set<string> {
    if ShouldPush(g) then set u | u in g.pushes && !g.pushes[u].isPushing else {}
  }

  function StartPushes(g: State): State {
    g.(pushes := map u | u in g.pushes :: if u in ToPush(g) then g.pushes[u].(isPushing := true) else g.pushes[u])
  }

  function StopPushes(g: State): State {
    if !g.config.pushEnable then g else
      g.(pushes := map u | u in g.pushes :: g.pushes[u].(session := None))
  }

  function AddPush(g: State, url: string, id: nat): State {
    if url !in g.pushes then g else g.(pushes := g.pushes[url := g.pushes[url].(session := Some(id))])
  }

  function DelPush(g: State, url: string): State {
    if url !in g.pushes then g else g.(pushes := g.pushes[url := Push(false, None)])
  }

  function ClearPushing(g: State, url: string): State {
    if url !in g.pushes then g else g.(pushes := g.pushes[url := g.pushes[url].(isPushing := false)])
  }

  // ----------------------------------------------------- input sessions

  function AddIn(g: State): State {
    StartPushes(g.(rtmp2Mpegts := g.rtmp2Mpegts || g.config.mpegts,
                   dummyAudio := g.dummyAudio || g.config.dummyAudio,
                   hook := g.hook || g.config.hook))
  }

  function DelIn(g: State): State {
    StopPushes(g.(rtmp2Mpegts := false, hook := false)).(
    rtmpPub := None, rtspPub := None, customizePub := None, rtsp2Rtmp := false, rtmp2Rtsp := false, dummyAudio := false)
  }

  /** An input that speaks RTMP: it may need the RTSP remuxer. */
  function JoinRtmp(g: State): Outcome {
    Outcome(AddIn(g).(rtmp2Rtsp := g.rtmp2Rtsp || g.config.rtsp), false, ToPush(g), true)
  }

  /** An input that speaks RTSP: it always gets the RTMP remuxer. */
  function JoinRtsp(g: State): Outcome {
    Outcome(AddIn(g).(rtsp2Rtmp := true), false, ToPush(g), true)
  }

  function Refuse(g: State): Outcome {
    Outcome(g, false, {}, false)
  }

  function AddRtmp(g: State, id: nat): Outcome {
    if HasIn(g) then Refuse(g) else JoinRtmp(g.(rtmpPub := Some(id)))
  }

  function AddRtsp(g: State, id: nat): Outcome {
    if HasIn(g) then Refuse(g) else JoinRtsp(g.(rtspPub := Some(id)))
  }

  predicate OnlyCustomize(g: State) {
    g.customizePub.Some? && g.rtmpPub.None? && g.rtspPub.None? && !HasPull(g)
  }

  /** A second customize publisher of another stream name takes the first one's
      place; one of the same name, and any other clash, is refused. */
  function AddCustomize(g: State, id: nat, streamName: string): Outcome {
    if !HasIn(g) then JoinRtmp(g.(customizePub := Some(Customize(id, streamName))))
    else if g.customizePub.Some? && g.customizePub.value.streamName == streamName then Refuse(g)
    else if OnlyCustomize(g) then JoinRtmp(DelIn(g).(customizePub := Some(Customize(id, streamName))))
    else Refuse(g)
  }

  function ClearAttempt(g: State, id: nat): State {
    if Owns(g, id) then ClearFlag(g) else g
  }

  /** A pull attempt's success callback. */
  function AddPull(g: State, id: nat, rtmp: bool): Outcome {
    if HasIn(g) then Refuse(ClearAttempt(g, id))
    else
      var cleared := if Owns(g, id) then ResetBackoff(ClearFlag(g)) else g;
      if rtmp then JoinRtmp(cleared.(rtmpPull := Some(id))) else JoinRtsp(cleared.(rtspPull := Some(id)))
  }

  function DelRtmp(g: State, id: nat): State {
    if g.rtmpPub == Some(id) then DelIn(g) else g
  }

  function DelRtsp(g: State, id: nat): State {
    if g.rtspPub == Some(id) then DelIn(g) else g
  }

  function DelCustomize(g: State, id: nat): State {
    if g.customizePub.Some? && g.customizePub.value.id == id then DelIn(g) else g
  }

  function DelPull(g: State, id: nat): State {
    if g.rtmpPull == Some(id) || g.rtspPull == Some(id)
    then DelIn(ClearFlag(g).(rtmpPull := None, rtspPull := None))
    else ClearAttempt(g, id)
  }

  function DisposeAll(g: State): State {
    DelIn(g.(subs := set s | s in g.subs && s.hls))
  }

  function TickAll(g: State, now: nat, uk: nat): Outcome {
    var o := TickPull(g, now, uk);
    Outcome(StartPushes(o.state), o.pulled, ToPush(o.state), o.ok)
  }

  function Apply(g: State, op: Op, now: nat, uk: nat): Outcome {
    match op
    case StartPull(req) => StartPullAt(g, req, now, uk)
    case StopPull => Outcome(StopPulling(DisableApi(g)), false, {}, true)
    case KickPull(id) => Kick(g, id)
    case Tick => TickAll(g, now, uk)
    case AddSub(sub) => PullIfNeeded(g.(subs := g.subs + {sub}), now, uk)
    case DescribeSub(sub) => Outcome(g.(subs := g.subs + {sub}), false, {}, true)
    case DelSub(sub) => Outcome(g.(subs := g.subs - {sub}), false, {}, true)
    case AddRtmpPub(id) => AddRtmp(g, id)
    case AddRtspPub(id) => AddRtsp(g, id)
    case AddCustomizePub(id, name) => AddCustomize(g, id, name)
    case DelRtmpPub(id) => Outcome(DelRtmp(g, id), false, {}, true)
    case DelRtspPub(id) => Outcome(DelRtsp(g, id), false, {}, true)
    case DelCustomizePub(id) => Outcome(DelCustomize(g, id), false, {}, true)
    case Dispose => Outcome(DisposeAll(g), false, {}, true)
  }

  /** A new group: no sessions, the push targets its configuration lists, and
      static relay pull if it is configured (retry for ever, stop at once). */
  function NewGroup(config: Config, urls: set<string>, staticUrl: Option<string>, now: nat): State {
    State(config, None, None, None, None, None, false, false, false, false, false,
          Proxy(staticUrl.Some?, false, if staticUrl.Some? then staticUrl.value else "", -1, 0, 0, now, false, None, 0, 0),
          map u | u in urls :: Push(false, None), {})
  }

  // ------------------------------------------------- what each region keeps

  function B2N(b: bool): nat {
    if b then 1 else 0
  }

  function Inputs(g: State): nat {
    B2N(g.rtmpPub.Some?) + B2N(g.rtspPub.Some?) + B2N(g.customizePub.Some?)
    + B2N(g.rtmpPull.Some?) + B2N(g.rtspPull.Some?)
  }

  predicate Quiet(g: State) {
    !g.rtsp2Rtmp && !g.rtmp2Rtsp && !g.rtmp2Mpegts && !g.dummyAudio && !g.hook
  }

  /** At most one input; nothing that serves an input outlives it; the flag is
      up exactly while it names an attempt. */
  predicate Healthy(g: State) {
    && Inputs(g) <= 1
    && (Inputs(g) == 0 ==> Quiet(g))
    && (g.proxy.isPulling <==> g.proxy.pullingId.Some?)
  }

  lemma JoinKeepsHealthy(g: State)
    requires Inputs(g) == 1 && (g.proxy.isPulling <==> g.proxy.pullingId.Some?)
    ensures Healthy(JoinRtmp(g).state) && Healthy(JoinRtsp(g).state)
  {
    hide ToPush;
  }

  /** Nothing that serves an input, and no publisher, survives a leave. */
  lemma LeavingClears(g: State)
    ensures var v := DelIn(g);
            && Quiet(v) && v.rtmpPub.None? && v.rtspPub.None? && v.customizePub.None?
            && v.rtmpPull == g.rtmpPull && v.rtspPull == g.rtspPull && v.proxy == g.proxy
  {
  }

  lemma LeavingKeepsHealthy(g: State)
    requires Healthy(g)
    ensures Healthy(DelIn(g))
  {
    LeavingClears(g);
    hide DelIn, Quiet;
  }

  lemma SameHealth(g: State, h: State)
    requires Healthy(g)
    requires h == g.(proxy := h.proxy, subs := h.subs, pushes := h.pushes)
    requires || (h.proxy.isPulling == g.proxy.isPulling && h.proxy.pullingId == g.proxy.pullingId)
             || (h.proxy.isPulling <==> h.proxy.pullingId.Some?)
    ensures Healthy(h)
  {
  }

  lemma AddPullKeepsHealthy(g: State, id: nat, rtmp: bool)
    requires Healthy(g)
    ensures Healthy(AddPull(g, id, rtmp).state)
  {
    hide JoinRtmp, JoinRtsp, Quiet;
    if HasIn(g) {
      SameHealth(g, ClearAttempt(g, id));
    } else {
      var h := if Owns(g, id) then ResetBackoff(ClearFlag(g)) else g;
      JoinKeepsHealthy(if rtmp then h.(rtmpPull := Some(id)) else h.(rtspPull := Some(id)));
    }
  }

  lemma DelPullKeepsHealthy(g: State, id: nat)
    requires Healthy(g)
    ensures Healthy(DelPull(g, id))
  {
    LeavingClears(ClearFlag(g).(rtmpPull := None, rtspPull := None));
    hide DelIn, Quiet;
    if g.rtmpPull != Some(id) && g.rtspPull != Some(id) {
      SameHealth(g, ClearAttempt(g, id));
    }
  }

  /** Adding an input succeeds exactly when there is none, except that a
      customize publisher also takes over from one of another name.  The input
      present afterwards is the one added, or what was there before. */
  lemma AddsOnlyWhenFree(g: State, op: Op, now: nat, uk: nat)
    requires Healthy(g) && (op.AddRtmpPub? || op.AddRtspPub? || op.AddCustomizePub?)
    ensures var o := Apply(g, op, now, uk);
            && (o.ok <==> Inputs(g) == 0
                          || (op.AddCustomizePub? && g.customizePub.Some? && g.customizePub.value.streamName != op.streamName))
            && (!o.ok ==> o.state == g)
            && (o.ok ==> && Inputs(o.state) == 1
                         && match op
                            case AddRtmpPub(id) => o.state.rtmpPub == Some(id)
                            case AddRtspPub(id) => o.state.rtspPub == Some(id)
                            case _ => o.state.customizePub == Some(Customize(op.id, op.streamName)))
  {
    hide ToPush;
  }

  /** Deleting the current session leaves no input at all and nothing that
      served it; deleting any other leaves every input and every server of
      inputs as they were. */
  lemma DeletesOnlyTheCurrent(g: State, op: Op, now: nat, uk: nat)
    requires Healthy(g) && (op.DelRtmpPub? || op.DelRtspPub? || op.DelCustomizePub?)
    ensures var current := match op
              case DelRtmpPub(id) => g.rtmpPub == Some(id)
              case DelRtspPub(id) => g.rtspPub == Some(id)
              case _ => g.customizePub.Some? && g.customizePub.value.id == op.id;
            var after := Apply(g, op, now, uk).state;
            && (current ==> Inputs(after) == 0 && Quiet(after))
            && (!current ==> after == g)
  {
  }

  lemma DeletesOnlyTheCurrentPull(g: State, id: nat)
    requires Healthy(g)
    ensures var after := DelPull(g, id);
            && (PullKey(g) == Some(id) ==> Inputs(after) == 0 && Quiet(after) && !after.proxy.isPulling)
            && (PullKey(g) != Some(id) ==> after == g.(proxy := ClearAttempt(g, id).proxy))
  {
    LeavingClears(ClearFlag(g).(rtmpPull := None, rtspPull := None));
    hide DelIn;
  }

  // ------------------------------------------------------------- backoff

  /** The delay after k failures in a row, in closed form. */
  function BackoffAfter(k: nat): nat {
    if k == 0 then 0 else if k <= 5 then MIN_PULL_BACKOFF_MS * Pow2(k - 1) else MAX_PULL_BACKOFF_MS
  }

  function FailedStarts(g: State, nows: seq<nat>): State {
    if nows == [] then g else ScheduleBackoff(FailedStarts(g, nows[..|nows| - 1]), nows[|nows| - 1])
  }

  lemma NoBackoffYet()
    ensures BackoffAfter(0) == 0
  {
  }

  lemma WindowBlocks(g: State, now: nat, uk: nat)
    ensures PullIfNeeded(g, now, uk).pulled ==> g.proxy.nextTs == 0 || g.proxy.nextTs <= now
  {
    hide ShouldAutoStop, HasIn;
  }

  lemma BackoffStep(k: nat)
    ensures NextBackoff(BackoffAfter(k)) == BackoffAfter(k + 1)
  {
    assert Pow2(0) == 1 && Pow2(1) == 2 && Pow2(2) == 4 && Pow2(3) == 8 && Pow2(4) == 16;
  }

  /** From a reset, k failures in a row double the delay up to the cap, and no
      attempt can begin until the last failure is that delay in the past. */
  lemma {:induction false} BackoffDoublesToItsCap(g: State, nows: seq<nat>, now: nat, uk: nat)
    requires g.proxy.backoffMs == 0 && nows != []
    ensures var failed := FailedStarts(g, nows);
            var last := nows[|nows| - 1];
            && failed.proxy.backoffMs == BackoffAfter(|nows|)
            && last + BackoffAfter(|nows|) <= failed.proxy.nextTs < last + BackoffAfter(|nows|) + PULL_BACKOFF_JITTER_MS
            && (PullIfNeeded(failed, now, uk).pulled ==> now >= last + BackoffAfter(|nows|))
    decreases |nows|
  {
    hide ShouldStartPull, BackoffAfter, NextBackoff;
    var before := nows[..|nows| - 1];
    BackoffStep(|before|);
    NoBackoffYet();
    WindowBlocks(FailedStarts(g, nows), now, uk);
    if before == [] {
      assert FailedStarts(g, before) == g;
    } else {
      BackoffDoublesToItsCap(g, before, now, uk);
    }
  }
}
