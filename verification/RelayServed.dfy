/** What serves an input, when a pull attempt and the pushes begin, and which way
    the end of a session turns the backoff: told in the fields of a group, for
    every call and every run. */
module RelayServed {
  import opened Bytes
  import opened RelayGroup
  import opened RelayProtocol
  import opened RelayTheorems

  // -------------------------------------------------- what serves an input

  /** An RTSP input has the remuxer to RTMP, any other the one to RTSP if the
      configuration asks for it; an input has the MPEG-TS remuxer, the dummy-audio
      filter and the hook that the configuration asks for; nothing else has any. */
  predicate Served(g: State) {
    var rtspIn := g.rtspPub.Some? || g.rtspPull.Some?;
    var otherIn := g.rtmpPub.Some? || g.customizePub.Some? || g.rtmpPull.Some?;
    && (g.rtsp2Rtmp <==> rtspIn)
    && (g.rtmp2Rtsp <==> otherIn && g.config.rtsp)
    && (g.rtmp2Mpegts <==> (rtspIn || otherIn) && g.config.mpegts)
    && (g.dummyAudio <==> (rtspIn || otherIn) && g.config.dummyAudio)
    && (g.hook <==> (rtspIn || otherIn) && g.config.hook)
  }

  /** A pull session that disposing of its group would leave unserved. */
  predicate PullIsServed(g: State) {
    || g.rtspPull.Some?
    || (g.rtmpPull.Some? && (g.config.rtsp || g.config.mpegts || g.config.dummyAudio || g.config.hook))
  }

  /** The same inputs and servers. */
  predicate SameInputs(g: State, h: State) {
    h == g.(proxy := h.proxy, subs := h.subs, pushes := h.pushes)
  }

  lemma SameIsServed(g: State, h: State)
    requires SameInputs(g, h)
    ensures Served(h) <==> Served(g)
  {
  }

  lemma QuietIsServed(g: State)
    requires Healthy(g) && Inputs(g) == 0
    ensures Served(g)
  {
  }

  lemma JoinIsServed(g: State)
    requires Inputs(g) == 1 && Quiet(g)
    ensures g.rtspPub.None? && g.rtspPull.None? ==> Served(JoinRtmp(g).state)
    ensures g.rtspPub.Some? || g.rtspPull.Some? ==> Served(JoinRtsp(g).state)
  {
    hide ToPush;
  }

  lemma AddsAreServed(g: State, id: nat, name: string)
    requires Healthy(g) && Served(g)
    ensures Served(AddRtmp(g, id).state) && Served(AddRtsp(g, id).state) && Served(AddCustomize(g, id, name).state)
  {
    hide JoinRtmp, JoinRtsp, DelIn, Served;
    var customize := Some(Customize(id, name));
    if !HasIn(g) {
      JoinIsServed(g.(rtmpPub := Some(id)));
      JoinIsServed(g.(rtspPub := Some(id)));
      JoinIsServed(g.(customizePub := customize));
    } else if OnlyCustomize(g) {
      LeavingClears(g);
      JoinIsServed(DelIn(g).(customizePub := customize));
    }
  }

  lemma DelsAreServed(g: State, id: nat)
    requires Healthy(g) && Served(g)
    ensures Served(DelRtmp(g, id)) && Served(DelRtsp(g, id)) && Served(DelCustomize(g, id))
  {
    hide DelIn, Quiet;
    LeavingClears(g);
    LeavingKeepsHealthy(g);
    hide Served;
    if g.rtmpPub == Some(id) || g.rtspPub == Some(id) || g.customizePub.Some? {
      QuietIsServed(DelIn(g));
    }
  }

  lemma DisposeStrips(g: State)
    requires Healthy(g)
    ensures Served(DisposeAll(g)) <==> !PullIsServed(g)
  {
    hide DelIn;
    var h := g.(subs := set s | s in g.subs && s.hls);
    LeavingClears(h);
    LeavingConfig(h);
  }

  lemma LeavingConfig(g: State)
    ensures DelIn(g).config == g.config
  {
  }

  lemma PullKeepsInputs(g: State, now: nat, uk: nat)
    ensures SameInputs(g, PullIfNeeded(g, now, uk).state) && SameInputs(g, StopPulling(g)) && SameInputs(g, Seen(g, now))
    ensures SameInputs(g, StartPushes(g))
  {
    hide ShouldStartPull, HasSub, ToPush;
  }

  /** A group that has been told what to pull, before it tries to. */
  function Asked(g: State, req: StartPullReq): State {
    ResetBackoff(g.(proxy := g.proxy.(
                      apiEnable := true, url := req.url, retryNum := req.retryNum, autoStopMs := req.autoStopMs)))
  }

  lemma PullCallsKeepInputs(g: State, op: Op, now: nat, uk: nat)
    requires op.StartPull? || op.StopPull? || op.KickPull? || op.Tick? || op.AddSub? || op.DescribeSub? || op.DelSub?
    ensures SameInputs(g, Apply(g, op, now, uk).state)
  {
    hide PullIfNeeded, StopPulling, Seen, ShouldAutoStop, StartPushes, ToPush;
    match op
    case StartPull(req) =>
      PullKeepsInputs(Asked(g, req), now, uk);
    case Tick =>
      PullKeepsInputs(g, now, uk);
      PullKeepsInputs(Seen(g, now), now, uk);
      PullKeepsInputs(TickPull(g, now, uk).state, now, uk);
    case AddSub(sub) => PullKeepsInputs(g.(subs := g.subs + {sub}), now, uk);
    case _ => PullKeepsInputs(DisableApi(g), now, uk);
  }

  /** One call from outside: it leaves every input served, unless it disposes of a
      group while a pull session is served. */
  lemma CallServesIff(g: State, op: Op, now: nat, uk: nat)
    requires Healthy(g) && Served(g)
    ensures Served(Apply(g, op, now, uk).state) <==> !(op == Dispose && PullIsServed(g))
  {
    hide Healthy, Served, PullIsServed, SameInputs, AddRtmp, AddRtsp, AddCustomize, DelRtmp, DelRtsp, DelCustomize, DisposeAll;
    match op
    case AddRtmpPub(id) => AddsAreServed(g, id, "");
    case AddRtspPub(id) => AddsAreServed(g, id, "");
    case AddCustomizePub(id, name) => AddsAreServed(g, id, name);
    case DelRtmpPub(id) => DelsAreServed(g, id);
    case DelRtspPub(id) => DelsAreServed(g, id);
    case DelCustomizePub(id) => DelsAreServed(g, id);
    case Dispose => DisposeStrips(g);
    case _ =>
      PullCallsKeepInputs(g, op, now, uk);
      SameIsServed(g, Apply(g, op, now, uk).state);
  }

  lemma AddPullIsServed(g: State, id: nat, rtmp: bool)
    requires Healthy(g) && Served(g)
    ensures Served(AddPull(g, id, rtmp).state)
  {
    if HasIn(g) {
      SameIsServed(g, ClearAttempt(g, id));
    } else {
      hide JoinRtmp, JoinRtsp, Served;
      var h := if Owns(g, id) then ResetBackoff(ClearFlag(g)) else g;
      JoinIsServed(if rtmp then h.(rtmpPull := Some(id)) else h.(rtspPull := Some(id)));
    }
  }

  lemma DelPullIsServed(g: State, id: nat)
    requires Healthy(g) && Served(g)
    ensures Served(DelPull(g, id))
  {
    DelPullKeepsHealthy(g, id);
    hide DelIn, Quiet;
    if g.rtmpPull == Some(id) || g.rtspPull == Some(id) {
      LeavingClears(ClearFlag(g).(rtmpPull := None, rtspPull := None));
      hide Served;
      QuietIsServed(DelPull(g, id));
    } else {
      SameIsServed(g, ClearAttempt(g, id));
    }
  }

  lemma EndsKeepInputs(g: State, id: nat, err: bool, now: nat, url: string)
    ensures SameInputs(g, OnPullStartFailed(g, id, now)) && SameInputs(g, OnPullSessionExited(g, id, err, now))
    ensures SameInputs(g, Confirm(g, id).state)
    ensures SameInputs(g, AddPush(g, url, id)) && SameInputs(g, DelPush(g, url)) && SameInputs(g, ClearPushing(g, url))
  {
    hide NextBackoff, PullKey;
  }

  /** One step of a goroutine. */
  lemma RegionIsServed(g: State, p: ProcId, proc: Proc, l: Label)
    requires Healthy(g) && Served(g)
    ensures Served(RegionOf(g, p, proc, l))
  {
    hide Healthy, Served, SameInputs, AddPull, DelPull, OnPullStartFailed, OnPullSessionExited, Confirm, AddPush, DelPush,
      ClearPushing;
    match l {
      case Callback(_) => AddPullIsServed(g, p.n, proc.rtmp);
      case Delete(_) => DelPullIsServed(g, p.n);
      case _ =>
    }
    var now := if l.GiveUp? || l.SessionEnds? then l.now else 0;
    EndsKeepInputs(g, p.n, l.SessionEnds? && l.err, now, if p.PushId? then p.url else "");
    if RegionOf(g, p, proc, l) != g && !(p.PullId? && l.Delete?) && !l.Callback? {
      SameIsServed(g, RegionOf(g, p, proc, l));
    }
  }

  /** No step disposes of the group while a pull session of it is served. */
  predicate NeverStripped(s: Sys, ls: seq<Label>, g: nat)
    requires Runs(s, ls)
    decreases |ls|
  {
    ls == [] ||
    (&& !(g in s.groups && ls[0].Call? && ls[0].g == g && ls[0].op == Dispose && PullIsServed(s.groups[g]))
     && NeverStripped(Step(s, ls[0]), ls[1..], g))
  }

  lemma StepIsServed(s: Sys, l: Label, g: nat)
    requires Inv(s) && Enabled(s, l) && g in s.groups && Served(s.groups[g])
    requires !(l.Call? && l.g == g && l.op == Dispose && PullIsServed(s.groups[g]))
    ensures g in Step(s, l).groups && Served(Step(s, l).groups[g])
  {
    hide Inv, Healthy, Served, PullIsServed, Apply, RegionOf, Step;
    GroupIsHealthy(s, g) by {
      InvHasOwners(s);
    }
    StepRegion(s, l, g);
    if l.Call? {
      if l.g == g {
        CallServesIff(s.groups[g], l.op, l.now, s.next);
      }
    } else {
      RegionIsServed(s.groups[g], l.p, s.procs[l.p], l);
    }
  }

  lemma InvHasOwners(s: Sys)
    requires Inv(s)
    ensures OwnerOk(s)
  {
  }

  lemma {:induction false} RunIsServed(s: Sys, ls: seq<Label>, g: nat)
    requires Inv(s) && Runs(s, ls) && NeverStripped(s, ls, g) && g in s.groups && Served(s.groups[g])
    ensures g in After(s, ls).groups && Served(After(s, ls).groups[g])
    decreases |ls|
  {
    hide Inv, Served, PullIsServed, Step, Enabled;
    if ls != [] {
      StepKeepsInv(s, ls[0]);
      StepIsServed(s, ls[0], g);
      RunIsServed(Step(s, ls[0]), ls[1..], g);
    }
  }

  /** In every run, until a Dispose of the group finds a pull session served, every
      input has exactly what should serve it. */
  lemma InputsAreServed(s: Sys, ls: seq<Label>, g: nat)
    requires Initial(s) && Runs(s, ls) && NeverStripped(s, ls, g) && g in s.groups
    ensures g in After(s, ls).groups && Served(After(s, ls).groups[g])
  {
    InitialInv(s);
    hide Inv, Runs, After, NeverStripped;
    RunIsServed(s, ls, g);
  }

  // ------------------------------------------------ when an attempt begins

  predicate NoInput(g: State) {
    g.rtmpPub.None? && g.rtspPub.None? && g.customizePub.None? && g.rtmpPull.None? && g.rtspPull.None?
  }

  /** Somebody takes the stream: a subscriber, the hook, or a push that has begun. */
  ghost predicate Watched(g: State) {
    g.subs != {} || g.hook || exists u :: u in g.pushes && g.pushes[u].isPushing && g.pushes[u].session.Some?
  }

  /** Nobody has for the time allowed: none at all, or since the last known time. */
  ghost predicate Abandoned(g: State, autoStopMs: int, now: nat) {
    autoStopMs >= 0 && !Watched(g)
    && (autoStopMs == 0 || (g.proxy.lastHasOutTs != -1 && now - g.proxy.lastHasOutTs >= autoStopMs))
  }

  lemma AutoStopIff(g: State, now: nat)
    ensures ShouldAutoStop(g, now) <==> Abandoned(g, g.proxy.autoStopMs, now)
  {
  }

  /** The conditions of a new attempt, in the fields of a group. */
  lemma StartsIff(g: State, now: nat)
    ensures ShouldStartPull(g, now)
       <==> && NoInput(g) && !g.proxy.isPulling && !Abandoned(g, g.proxy.autoStopMs, now)
            && (g.proxy.staticEnable || g.proxy.apiEnable) && (g.proxy.nextTs == 0 || g.proxy.nextTs <= now)
            && !(0 <= g.proxy.retryNum < g.proxy.startCount)
  {
    hide ShouldAutoStop, Abandoned;
    AutoStopIff(g, now);
  }

  /** Whether nobody watches depends on what watches alone. */
  lemma AbandonedSame(g: State, h: State, autoStopMs: int, now: nat)
    requires h.subs == g.subs && h.hook == g.hook && h.pushes == g.pushes && h.proxy.lastHasOutTs == g.proxy.lastHasOutTs
    ensures Abandoned(h, autoStopMs, now) == Abandoned(g, autoStopMs, now)
  {
  }

  lemma StartPullAttempts(g: State, req: StartPullReq, now: nat, uk: nat)
    ensures Apply(g, StartPull(req), now, uk).pulled
       <==> && NoInput(g) && !g.proxy.isPulling && !Abandoned(g, req.autoStopMs, now)
            && !(0 <= req.retryNum < g.proxy.startCount)
  {
    hide ShouldStartPull, Abandoned;
    var h := Asked(g, req);
    StartsIff(h, now);
    AbandonedSame(g, h, req.autoStopMs, now);
  }

  lemma SeenIsAbandoned(g: State, now: nat)
    ensures Abandoned(Seen(g, now), g.proxy.autoStopMs, now) <==> Abandoned(g, g.proxy.autoStopMs, now)
    ensures var h := Seen(g, now); h == g.(proxy := g.proxy.(lastHasOutTs := h.proxy.lastHasOutTs))
  {
  }

  lemma TickAttempts(g: State, now: nat, uk: nat)
    ensures Apply(g, Tick, now, uk).pulled
       <==> && NoInput(g) && !g.proxy.isPulling && !Abandoned(g, g.proxy.autoStopMs, now)
            && (g.proxy.staticEnable || g.proxy.apiEnable) && (g.proxy.nextTs == 0 || g.proxy.nextTs <= now)
            && !(0 <= g.proxy.retryNum < g.proxy.startCount)
  {
    hide ShouldAutoStop, ShouldStartPull, Abandoned, Seen, StartPushes, ToPush, StopPulling;
    SeenIsAbandoned(g, now);
    AutoStopIff(Seen(g, now), now);
    StartsIff(Seen(g, now), now);
  }

  lemma SubAttempts(g: State, sub: Sub, now: nat, uk: nat)
    ensures Apply(g, AddSub(sub), now, uk).pulled
       <==> && NoInput(g) && !g.proxy.isPulling
            && (g.proxy.staticEnable || g.proxy.apiEnable) && (g.proxy.nextTs == 0 || g.proxy.nextTs <= now)
            && !(0 <= g.proxy.retryNum < g.proxy.startCount)
  {
    hide ShouldStartPull;
    var h := g.(subs := g.subs + {sub});
    assert sub in h.subs;
    StartsIff(h, now);
  }

  lemma OthersAttemptNothing(g: State, op: Op, now: nat, uk: nat)
    requires !op.StartPull? && !op.Tick? && !op.AddSub?
    ensures !Apply(g, op, now, uk).pulled
  {
    hide HasIn, OnlyCustomize, ToPush, AddIn;
  }

  /** Which calls spawn a pull attempt: StartPull, the timer and a new subscriber,
      in a group without an input or an attempt and within the retry number; the
      first whatever the backoff says, the others when pulling is enabled and the
      backoff is over; and not when nobody has watched for the time allowed. */
  lemma AttemptsIff(g: State, op: Op, now: nat, uk: nat)
    ensures Apply(g, op, now, uk).pulled
       <==> && NoInput(g) && !g.proxy.isPulling
            && match op
               case StartPull(req) => !Abandoned(g, req.autoStopMs, now) && !(0 <= req.retryNum < g.proxy.startCount)
               case Tick =>
                 && !Abandoned(g, g.proxy.autoStopMs, now) && !(0 <= g.proxy.retryNum < g.proxy.startCount)
                 && (g.proxy.staticEnable || g.proxy.apiEnable) && (g.proxy.nextTs == 0 || g.proxy.nextTs <= now)
               case AddSub(_) =>
                 && !(0 <= g.proxy.retryNum < g.proxy.startCount)
                 && (g.proxy.staticEnable || g.proxy.apiEnable) && (g.proxy.nextTs == 0 || g.proxy.nextTs <= now)
               case _ => false
  {
    hide Apply, Abandoned;
    match op
    case StartPull(req) => StartPullAttempts(g, req, now, uk);
    case Tick => TickAttempts(g, now, uk);
    case AddSub(sub) => SubAttempts(g, sub, now, uk);
    case _ => OthersAttemptNothing(g, op, now, uk);
  }

  /** A call spawns a goroutine for the attempt it starts, of the kind its URL names,
      and one for each push it starts; all of them wait for a slot. */
  lemma SpawnsQueued(s: Sys, g: nat, op: Op, now: nat)
    requires g in s.groups
    ensures Enabled(s, Call(g, op, now))
    ensures var o, t := Apply(s.groups[g], op, now, s.next), Step(s, Call(g, op, now));
            && (o.pulled ==>
                  var url := o.state.proxy.url;
                  && PullId(s.next) in t.procs
                  && t.procs[PullId(s.next)]
                     == Proc(g, |url| >= 4 && url[..4] == "rtmp", Queued, false, false, false, false))
            && (forall u :: u in o.pushed ==>
                              && PushId(s.next, u) in t.procs
                              && t.procs[PushId(s.next, u)] == Proc(g, true, Queued, false, false, false, false))
  {
    hide Apply;
    var o := Apply(s.groups[g], op, now, s.next);
    var url := o.state.proxy.url;
    assert IsRtmpUrl(url) <==> |url| >= 4 && url[..4] == "rtmp";
    assert Pushers(s, g, o.pushed).Keys !! Pullers(s, g, o).Keys;
  }

  /** What a pull is asked to do stays as it is until the next StartPull, which
      sets it; only that enables the API pull. */
  predicate AsksTheSame(v: Proxy, w: Proxy) {
    && w.staticEnable == v.staticEnable && w.url == v.url && w.retryNum == v.retryNum && w.autoStopMs == v.autoStopMs
    && (w.apiEnable ==> v.apiEnable)
  }

  lemma PullAsksTheSame(g: State, now: nat, uk: nat)
    ensures AsksTheSame(g.proxy, PullIfNeeded(g, now, uk).state.proxy) && AsksTheSame(g.proxy, StopPulling(g).proxy)
    ensures StopPulling(g).proxy.apiEnable == PullIfNeeded(g, now, uk).state.proxy.apiEnable == g.proxy.apiEnable
  {
    hide ShouldStartPull;
  }

  lemma TickAsksTheSame(g: State, now: nat, uk: nat)
    ensures AsksTheSame(g.proxy, TickAll(g, now, uk).state.proxy)
    ensures TickAll(g, now, uk).state.proxy.apiEnable == g.proxy.apiEnable
  {
    hide TickPull, StartPushes, ToPush, AsksTheSame;
    TickPullAsksTheSame(g, now, uk);
    JoinsKeepProxy(TickPull(g, now, uk).state);
  }

  lemma TickPullAsksTheSame(g: State, now: nat, uk: nat)
    ensures AsksTheSame(g.proxy, TickPull(g, now, uk).state.proxy)
    ensures TickPull(g, now, uk).state.proxy.apiEnable == g.proxy.apiEnable
  {
    hide PullIfNeeded, StopPulling, ShouldAutoStop, Seen;
    PullAsksTheSame(g, now, uk);
    PullAsksTheSame(Seen(g, now), now, uk);
    SeenAsksTheSame(g, now);
  }

  lemma SeenAsksTheSame(g: State, now: nat)
    ensures Seen(g, now).proxy == g.proxy.(lastHasOutTs := Seen(g, now).proxy.lastHasOutTs)
  {
  }

  lemma StartPullAsks(g: State, req: StartPullReq, now: nat, uk: nat)
    ensures var v, w := g.proxy, Apply(g, StartPull(req), now, uk).state.proxy;
            && w.staticEnable == v.staticEnable && w.apiEnable
            && w.url == req.url && w.retryNum == req.retryNum && w.autoStopMs == req.autoStopMs
  {
    hide PullIfNeeded;
    PullAsksTheSame(Asked(g, req), now, uk);
  }

  lemma StopsAskTheSame(g: State, op: Op, now: nat, uk: nat)
    requires op == StopPull || op.KickPull?
    ensures var v, w := g.proxy, Apply(g, op, now, uk).state.proxy;
            && AsksTheSame(v, w)
            && (op == StopPull || g.rtmpPull == Some(op.id) || g.rtspPull == Some(op.id) ==> !w.apiEnable)
  {
    hide StopPulling;
    PullAsksTheSame(DisableApi(g), now, uk);
  }

  lemma DelsKeepProxy(g: State, id: nat)
    ensures DelRtmp(g, id).proxy == DelRtsp(g, id).proxy == DelCustomize(g, id).proxy == DisposeAll(g).proxy == g.proxy
  {
    hide DelIn;
    JoinsKeepProxy(g);
    JoinsKeepProxy(g.(subs := set s | s in g.subs && s.hls));
  }

  lemma OthersAskTheSame(g: State, op: Op, now: nat, uk: nat)
    requires !op.StartPull? && !op.StopPull? && !op.KickPull? && !op.Tick? && !op.AddSub?
    ensures Apply(g, op, now, uk).state.proxy == g.proxy
  {
    hide AddRtmp, AddRtsp, AddCustomize, DelRtmp, DelRtsp, DelCustomize, DisposeAll;
    match op
    case AddRtmpPub(id) => AddsKeepProxy(g, id, "");
    case AddRtspPub(id) => AddsKeepProxy(g, id, "");
    case AddCustomizePub(id, name) => AddsKeepProxy(g, id, name);
    case DelRtmpPub(id) => DelsKeepProxy(g, id);
    case DelRtspPub(id) => DelsKeepProxy(g, id);
    case DelCustomizePub(id) => DelsKeepProxy(g, id);
    case Dispose => DelsKeepProxy(g, 0);
    case _ =>
  }

  lemma CallAsksTheSame(g: State, op: Op, now: nat, uk: nat)
    ensures var v, w := g.proxy, Apply(g, op, now, uk).state.proxy;
            match op
            case StartPull(req) =>
              && w.staticEnable == v.staticEnable && w.apiEnable
              && w.url == req.url && w.retryNum == req.retryNum && w.autoStopMs == req.autoStopMs
            case StopPull => AsksTheSame(v, w) && !w.apiEnable
            case KickPull(id) => AsksTheSame(v, w) && (g.rtmpPull == Some(id) || g.rtspPull == Some(id) ==> !w.apiEnable)
            case _ => AsksTheSame(v, w) && w.apiEnable == v.apiEnable
  {
    hide Apply;
    match op
    case StartPull(req) => StartPullAsks(g, req, now, uk);
    case StopPull => StopsAskTheSame(g, op, now, uk);
    case KickPull(_) => StopsAskTheSame(g, op, now, uk);
    case Tick => TickAsks(g, now, uk);
    case AddSub(sub) => SubAsks(g, sub, now, uk);
    case _ => OthersAskTheSame(g, op, now, uk);
  }

  lemma TickAsks(g: State, now: nat, uk: nat)
    ensures var w := Apply(g, Tick, now, uk).state.proxy; AsksTheSame(g.proxy, w) && w.apiEnable == g.proxy.apiEnable
  {
    hide TickAll;
    TickAsksTheSame(g, now, uk);
  }

  lemma SubAsks(g: State, sub: Sub, now: nat, uk: nat)
    ensures var w := Apply(g, AddSub(sub), now, uk).state.proxy; AsksTheSame(g.proxy, w) && w.apiEnable == g.proxy.apiEnable
  {
    hide PullIfNeeded;
    PullAsksTheSame(g.(subs := g.subs + {sub}), now, uk);
  }

  lemma BackoffAsksTheSame(g: State, now: nat)
    ensures AsksTheSame(g.proxy, ScheduleBackoff(g, now).proxy) && AsksTheSame(g.proxy, ResetBackoff(g).proxy)
    ensures AsksTheSame(g.proxy, ClearFlag(g).proxy)
  {
    hide NextBackoff;
  }

  lemma EndsAskTheSame(g: State, id: nat, err: bool, now: nat)
    ensures AsksTheSame(g.proxy, OnPullStartFailed(g, id, now).proxy)
    ensures AsksTheSame(g.proxy, OnPullSessionExited(g, id, err, now).proxy)
    ensures AsksTheSame(g.proxy, Confirm(g, id).state.proxy)
  {
    hide ScheduleBackoff, ResetBackoff, ClearFlag, PullKey, Owns;
    BackoffAsksTheSame(g, now);
    BackoffAsksTheSame(ClearFlag(g), now);
  }

  lemma AttemptAsksTheSame(g: State, id: nat)
    ensures AsksTheSame(g.proxy, ClearAttempt(g, id).proxy)
    ensures AsksTheSame(g.proxy, (if Owns(g, id) then ResetBackoff(ClearFlag(g)) else g).proxy)
  {
  }

  lemma PullSessionsAskTheSame(g: State, id: nat, rtmp: bool)
    ensures AsksTheSame(g.proxy, AddPull(g, id, rtmp).state.proxy) && AsksTheSame(g.proxy, DelPull(g, id).proxy)
  {
    hide DelIn, HasIn, JoinRtmp, JoinRtsp, AsksTheSame, ClearAttempt, Owns, ResetBackoff;
    AttemptAsksTheSame(g, id);
    var left := ClearFlag(g).(rtmpPull := None, rtspPull := None);
    JoinsKeepProxy(left);
    assert AsksTheSame(g.proxy, left.proxy) by {
      BackoffAsksTheSame(g, 0);
    }
    var h := if Owns(g, id) then ResetBackoff(ClearFlag(g)) else g;
    JoinsKeepProxy(h.(rtmpPull := Some(id)));
    JoinsKeepProxy(h.(rtspPull := Some(id)));
  }

  lemma RegionAsksTheSame(g: State, p: ProcId, proc: Proc, l: Label)
    ensures AsksTheSame(g.proxy, RegionOf(g, p, proc, l).proxy)
  {
    hide OnPullStartFailed, OnPullSessionExited, Confirm, DelPull, AddPull, AddPush, DelPush, ClearPushing;
    EndsAskTheSame(g, p.n, l.SessionEnds? && l.err, if l.GiveUp? || l.SessionEnds? then l.now else 0);
    PullSessionsAskTheSame(g, p.n, proc.rtmp);
    PushKeepsProxy(g, if p.PushId? then p.url else "", p.n);
  }

  predicate CallsStartPull(l: Label, g: nat) {
    l.Call? && l.g == g && l.op.StartPull?
  }

  /** How many pull attempts of a group a run spawns. */
  function SpawnsOf(s: Sys, ls: seq<Label>, g: nat): nat
    requires Runs(s, ls)
    decreases |ls|
  {
    if ls == [] then 0
    else B2N(g in s.groups && Spawns(s, ls[0], g)) + SpawnsOf(Step(s, ls[0]), ls[1..], g)
  }

  lemma DisabledStep(s: Sys, l: Label, g: nat)
    requires Enabled(s, l) && g in s.groups && !CallsStartPull(l, g)
    requires !s.groups[g].proxy.staticEnable && !s.groups[g].proxy.apiEnable
    ensures !Spawns(s, l, g)
    ensures g in Step(s, l).groups
    ensures !Step(s, l).groups[g].proxy.staticEnable && !Step(s, l).groups[g].proxy.apiEnable
  {
    hide Step, Apply, RegionOf, Abandoned;
    StepRegion(s, l, g);
    var v := s.groups[g];
    if l.Call? {
      if l.g == g {
        AttemptsIff(v, l.op, l.now, s.next);
        CallAsksTheSame(v, l.op, l.now, s.next);
      }
    } else {
      RegionAsksTheSame(v, l.p, s.procs[l.p], l);
    }
  }

  /** With neither pull enabled a group starts no attempt, in any run, until it is
      sent a StartPull. */
  lemma {:induction false} DisabledStartsNothing(s: Sys, ls: seq<Label>, g: nat)
    requires Runs(s, ls) && g in s.groups && forall i :: 0 <= i < |ls| ==> !CallsStartPull(ls[i], g)
    requires !s.groups[g].proxy.staticEnable && !s.groups[g].proxy.apiEnable
    ensures SpawnsOf(s, ls, g) == 0
    decreases |ls|
  {
    hide Step, Enabled, Spawns, CallsStartPull;
    if ls != [] {
      DisabledStep(s, ls[0], g);
      DisabledStartsNothing(Step(s, ls[0]), ls[1..], g);
    }
  }

  // ------------------------------------------------------------- backoff

  /** From 1 s up to 30 s. */
  function Doubled(backoffMs: int): int {
    if backoffMs <= 0 then 1000 else if backoffMs >= 15000 then 30000 else 2 * backoffMs
  }

  /** The next attempt waits longer, counted from now and spread over 250 ms. */
  predicate BacksOff(v: Proxy, w: Proxy, now: nat) {
    w.backoffMs == Doubled(v.backoffMs) && w.nextTs == now + w.backoffMs + now % 250
  }

  /** The end of a pull session: a clean one lets the next attempt begin at once, an
      error makes it wait longer; that of a session which is not in the group, and
      every other field, leave the group as it is. */
  lemma ExitTurnsBackoff(s: Sys, p: ProcId, err: bool, now: nat)
    requires Inv(s) && Enabled(s, SessionEnds(p, err, now)) && p.PullId?
    ensures s.procs[p].group in s.groups && s.procs[p].group in Step(s, SessionEnds(p, err, now)).groups
    ensures var v, w := s.groups[s.procs[p].group], Step(s, SessionEnds(p, err, now)).groups[s.procs[p].group];
            && w == v.(proxy := v.proxy.(backoffMs := w.proxy.backoffMs, nextTs := w.proxy.nextTs))
            && (!InGroup(v, p.n) ==> w == v)
            && (InGroup(v, p.n) && err ==> BacksOff(v.proxy, w.proxy, now))
            && (InGroup(v, p.n) && !err ==> w.proxy.backoffMs == w.proxy.nextTs == 0)
  {
    hide Inv, Step, Healthy;
    var g := s.procs[p].group;
    InvHasOwners(s);
    GroupIsHealthy(s, g);
    StepRegion(s, SessionEnds(p, err, now), g);
    ExitInFields(s.groups[g], p.n, err, now);
  }

  lemma ExitInFields(v: State, id: nat, err: bool, now: nat)
    requires Healthy(v)
    ensures var w := OnPullSessionExited(v, id, err, now);
            && w == v.(proxy := v.proxy.(backoffMs := w.proxy.backoffMs, nextTs := w.proxy.nextTs))
            && (!InGroup(v, id) ==> w == v)
            && (InGroup(v, id) && err ==> BacksOff(v.proxy, w.proxy, now))
            && (InGroup(v, id) && !err ==> w.proxy.backoffMs == w.proxy.nextTs == 0)
  {
    hide Quiet;
  }

  /** An attempt that gives up clears the flag it holds and backs off; one that does
      not hold it changes nothing. */
  lemma GivingUpBacksOff(s: Sys, p: ProcId, now: nat)
    requires Enabled(s, GiveUp(p, now)) && p.PullId?
    ensures s.procs[p].group in s.groups && s.procs[p].group in Step(s, GiveUp(p, now)).groups
    ensures var v, w := s.groups[s.procs[p].group], Step(s, GiveUp(p, now)).groups[s.procs[p].group];
            && w == v.(proxy := w.proxy)
            && (v.proxy.isPulling && v.proxy.pullingId == Some(p.n) ==>
                  && BacksOff(v.proxy, w.proxy, now)
                  && w.proxy == v.proxy.(isPulling := false, pullingId := None,
                                         backoffMs := w.proxy.backoffMs, nextTs := w.proxy.nextTs))
            && (!(v.proxy.isPulling && v.proxy.pullingId == Some(p.n)) ==> w == v)
  {
    StepRegion(s, GiveUp(p, now), s.procs[p].group);
    hide Step;
  }

  /** A stop, asked for or because nobody watches, forgets all about the attempts. */
  lemma StopForgets(g: State, op: Op, now: nat, uk: nat)
    requires op == StopPull || (op.KickPull? && (g.rtmpPull == Some(op.id) || g.rtspPull == Some(op.id)))
             || (op == Tick && Abandoned(g, g.proxy.autoStopMs, now))
    ensures var w := Apply(g, op, now, uk).state.proxy;
            w == g.proxy.(startCount := 0, isPulling := false, pullingId := None, backoffMs := 0, nextTs := 0,
                          apiEnable := op == Tick && g.proxy.apiEnable)
  {
    hide ShouldAutoStop, ToPush, StartPushes, PullIfNeeded;
    if op == Tick {
      AutoStopIff(Seen(g, now), now);
      JoinsKeepProxy(StopPulling(Seen(g, now)));
    }
  }

  // -------------------------------------------------------------- pushes

  /** The targets without a push, if there is an RTMP or RTSP publisher to push. */
  function IdleTargets(g: State): set<string> {
    if g.config.pushEnable && (g.rtmpPub.Some? || g.rtspPub.Some?)
    then set u | u in g.pushes && !g.pushes[u].isPushing else {}
  }

  lemma IdleTargetsAre(g: State, h: State)
    requires SameInputs(g, h) && h.pushes == g.pushes
    ensures ToPush(h) == IdleTargets(g)
  {
  }

  lemma TickPushes(g: State, now: nat, uk: nat)
    ensures TickAll(g, now, uk).pushed == IdleTargets(g)
  {
    hide PullIfNeeded, StopPulling, ShouldAutoStop, StartPushes, ToPush, IdleTargets, Seen;
    PullKeepsInputs(g, now, uk);
    PullKeepsInputs(Seen(g, now), now, uk);
    PullKeepsPushes(Seen(g, now), now, uk);
    SeenKeepsPushes(g, now);
    IdleTargetsAre(g, TickPull(g, now, uk).state);
  }

  lemma SeenKeepsPushes(g: State, now: nat)
    ensures Seen(g, now).pushes == g.pushes
  {
  }

  lemma AddsPush(g: State, id: nat, name: string)
    requires Healthy(g)
    ensures AddRtmp(g, id).pushed == if NoInput(g) then IdleTargets(g.(rtmpPub := Some(id))) else {}
    ensures AddRtsp(g, id).pushed == if NoInput(g) then IdleTargets(g.(rtspPub := Some(id))) else {}
    ensures AddCustomize(g, id, name).pushed == {}
  {
    hide StartPushes, Quiet, Healthy;
    assert !g.rtmpPub.Some? && !g.rtspPub.Some? && !HasPull(g) ==> ToPush(g.(customizePub := Some(Customize(id, name)))) == {};
    LeavingClears(g);
    hide DelIn;
  }

  /** A publisher that is accepted, and each tick, start a push to every idle
      target; no other call starts any. */
  lemma PushesStartIff(g: State, op: Op, now: nat, uk: nat)
    requires Healthy(g)
    ensures Apply(g, op, now, uk).pushed
         == match op
            case AddRtmpPub(id) => if NoInput(g) then IdleTargets(g.(rtmpPub := Some(id))) else {}
            case AddRtspPub(id) => if NoInput(g) then IdleTargets(g.(rtspPub := Some(id))) else {}
            case Tick => IdleTargets(g)
            case _ => {}
  {
    hide PullIfNeeded, TickAll, AddRtmp, AddRtsp, AddCustomize, IdleTargets, NoInput, Healthy;
    match op
    case Tick => TickPushes(g, now, uk);
    case AddRtmpPub(id) => AddsPush(g, id, "");
    case AddRtspPub(id) => AddsPush(g, id, "");
    case AddCustomizePub(id, name) => AddsPush(g, id, name);
    case StartPull(req) =>
      PullKeepsPushes(Asked(g, req), now, uk);
    case AddSub(sub) => PullKeepsPushes(g.(subs := g.subs + {sub}), now, uk);
    case _ =>
  }

  /** What a pusher's step makes of its entry. */
  function EntryAfter(l: Label, was: Push, phase: Phase, n: nat): Push {
    match l
    case PushAdded(_) => Push(was.isPushing, Some(n))
    case Delete(_) => Push(false, None)
    case _ => Push(false, if phase == TimedOut then was.session else None)
  }

  /** A pusher's own steps in the table: its session joins when Start has succeeded,
      and session and flag are cleared when it ends or gives up; no other entry and
      nothing else in the group changes. */
  lemma PusherInTable(s: Sys, l: Label)
    requires ProcsOk(s) && Enabled(s, l) && !l.Call? && l.p.PushId? && (l.PushAdded? || l.Delete? || l.GiveUp?)
    ensures var proc := s.procs[l.p];
            && proc.group in s.groups && proc.group in Step(s, l).groups
            && l.p.url in s.groups[proc.group].pushes
            && var was := s.groups[proc.group];
            Step(s, l).groups[proc.group]
            == was.(pushes := was.pushes[l.p.url := EntryAfter(l, was.pushes[l.p.url], proc.phase, l.p.n)])
  {
    var proc := s.procs[l.p];
    assert ProcOk(l.p, proc) && l.p.url in s.groups[proc.group].pushes;
    StepRegion(s, l, proc.group);
    hide Step, ProcsOk, ProcOk;
  }
}
