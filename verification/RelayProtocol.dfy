/** The relay goroutines of all groups as a transition system.  A pull attempt
    and a push target each run a goroutine of their own; they share the groups,
    each region under a group lock being one step, and a semaphore of handshake
    slots.  A Start may fail, also after its success callback has run, and the
    callback of a failed Start may still come late. */
module RelayProtocol {
  import opened Bytes
  import opened RelayGroup

  const DEFAULT_MAX_CONCURRENT_PULL_START := 512

  /** The size of the semaphore for a configured value. */
  function SlotCount(configured: int): (n: nat)
    ensures n > 0 && (configured > 0 ==> n == configured) && (configured <= 0 ==> n == 512)
  {
    if configured <= 0 then DEFAULT_MAX_CONCURRENT_PULL_START else configured
  }

  // ---------------------------------------------------------------- state

  /** Attempts are numbered by the step that spawned them; one step spawns at
      most one pull attempt and one push goroutine for a target. */
  datatype ProcId = PullId(n: nat) | PushId(n: nat, url: string)

  datatype Phase =
    | Queued      // waiting for a handshake slot
    | TimedOut    // gave up waiting; the flag is not yet cleared
    | Granted     // holds a slot; the second check is still to come
    | Cancelled   // the second check failed; the slot is not yet given back
    | Starting    // inside Start
    | Returned    // Start returned; the slot is not yet given back
    | Failed      // after a failed Start, before the group is told
    | Ready       // after a push's good Start, before the group is told
    | Waiting     // blocked until the session ends
    | Exited      // the session ended, before it is deleted
    | Done

  /** One goroutine.  `called`: its success callback has run; `added`: the
      callback put its session into the group; `failed`: its Start failed. */
  datatype Proc = Proc(group: nat, rtmp: bool, phase: Phase, acquired: bool, called: bool, added: bool, failed: bool)

  datatype Sys = Sys(groups: map<nat, State>, procs: map<ProcId, Proc>, tokens: nat, slots: nat, next: nat)

  datatype Label =
    | Call(g: nat, op: Op, now: nat)
    | Acquire(p: ProcId)
    | WaitTimeout(p: ProcId)
    | GiveUp(p: ProcId, now: nat)
    | SecondCheck(p: ProcId)
    | StartReturns(p: ProcId, ok: bool)
    | Callback(p: ProcId)
    | Release(p: ProcId)
    | PushAdded(p: ProcId)
    | SessionEnds(p: ProcId, err: bool, now: nat)
    | Delete(p: ProcId)

  // ---------------------------------------------------------------- steps

  predicate Known(s: Sys, p: ProcId) {
    p in s.procs && s.procs[p].group in s.groups
  }

  predicate Enabled(s: Sys, l: Label) {
    match l
    case Call(g, _, _) => g in s.groups
    case Acquire(p) => Known(s, p) && s.procs[p].phase == Queued && s.tokens < s.slots
    case WaitTimeout(p) => Known(s, p) && s.procs[p].phase == Queued
    case GiveUp(p, _) => Known(s, p) && (s.procs[p].phase == TimedOut || s.procs[p].phase == Failed)
    case SecondCheck(p) => Known(s, p) && p.PullId? && s.procs[p].phase == Granted
    case StartReturns(p, ok) =>
      Known(s, p) && s.procs[p].phase == Starting && (p.PullId? && ok ==> s.procs[p].called)
    case Callback(p) =>
      Known(s, p) && p.PullId? && !s.procs[p].called && (s.procs[p].phase == Starting || s.procs[p].failed)
    case Release(p) => Known(s, p) && (s.procs[p].phase == Cancelled || s.procs[p].phase == Returned)
    case PushAdded(p) => Known(s, p) && p.PushId? && s.procs[p].phase == Ready
    case SessionEnds(p, _, _) => Known(s, p) && s.procs[p].phase == Waiting
    case Delete(p) => Known(s, p) && s.procs[p].phase == Exited
  }

  /** Sending to and receiving from the semaphore; the receive has a default
      branch for the case that there is nothing to receive. */
  function ReleaseSlot(tokens: nat): nat {
    if tokens > 0 then tokens - 1 else tokens
  }

  function NewProc(g: nat, rtmp: bool): Proc {
    Proc(g, rtmp, Queued, false, false, false, false)
  }

  function Pushers(s: Sys, g: nat, urls: set<string>): map<ProcId, Proc> {
    map u | u in urls :: PushId(s.next, u) := NewProc(g, true)
  }

  function Pullers(s: Sys, g: nat, o: Outcome): map<ProcId, Proc> {
    if o.pulled then map[PullId(s.next) := NewProc(g, IsRtmpUrl(o.state.proxy.url))] else map[]
  }

  /** A region of group `g` that left `o` behind. */
  function Commit(s: Sys, g: nat, o: Outcome): Sys {
    s.(groups := s.groups[g := o.state],
       procs := s.procs + Pullers(s, g, o) + Pushers(s, g, o.pushed),
       next := s.next + 1)
  }

  function SetGroup(s: Sys, g: nat, state: State): Sys {
    s.(groups := s.groups[g := state])
  }

  function SetProc(s: Sys, p: ProcId, proc: Proc): Sys {
    s.(procs := s.procs[p := proc])
  }

  function Goto(s: Sys, p: ProcId, phase: Phase): Sys
    requires p in s.procs
  {
    SetProc(s, p, s.procs[p].(phase := phase))
  }

  function AfterRelease(p: ProcId, proc: Proc): Phase {
    if proc.phase == Cancelled then Done
    else if proc.failed then Failed
    else if p.PullId? then Waiting else Ready
  }

  /** What the group is told when an attempt gives up: a pull clears the flag
      and backs off; a push clears its flag, and its session if it has one. */
  function GiveUpState(g: State, p: ProcId, phase: Phase, now: nat): State {
    match p
    case PullId(n) => OnPullStartFailed(g, n, now)
    case PushId(_, url) => if phase == TimedOut then ClearPushing(g, url) else DelPush(g, url)
  }

  function Step(s: Sys, l: Label): Sys
    requires Enabled(s, l)
  {
    match l
    case Call(g, op, now) => Commit(s, g, Apply(s.groups[g], op, now, s.next))
    case Acquire(p) =>
      SetProc(s, p, s.procs[p].(phase := if p.PullId? then Granted else Starting, acquired := true)).(tokens := s.tokens + 1)
    case WaitTimeout(p) => Goto(s, p, TimedOut)
    case GiveUp(p, now) =>
      var proc := s.procs[p];
      Goto(SetGroup(s, proc.group, GiveUpState(s.groups[proc.group], p, proc.phase, now)), p, Done)
    case SecondCheck(p) =>
      var proc := s.procs[p];
      var o := Confirm(s.groups[proc.group], p.n);
      Goto(SetGroup(s, proc.group, o.state), p, if o.ok then Starting else Cancelled)
    case StartReturns(p, ok) => SetProc(s, p, s.procs[p].(phase := Returned, failed := !ok))
    case Callback(p) =>
      var proc := s.procs[p];
      var o := AddPull(s.groups[proc.group], p.n, proc.rtmp);
      SetProc(Commit(s, proc.group, o), p, proc.(called := true, added := o.ok))
    case Release(p) =>
      var proc := s.procs[p];
      SetProc(s, p, proc.(phase := AfterRelease(p, proc), acquired := false)).(tokens := ReleaseSlot(s.tokens))
    case PushAdded(p) =>
      var proc := s.procs[p];
      Goto(SetGroup(s, proc.group, AddPush(s.groups[proc.group], p.url, p.n)), p, Waiting)
    case SessionEnds(p, err, now) =>
      var proc := s.procs[p];
      var g := s.groups[proc.group];
      Goto(if p.PullId? then SetGroup(s, proc.group, OnPullSessionExited(g, p.n, err, now)) else s, p, Exited)
    case Delete(p) =>
      var proc := s.procs[p];
      var g := s.groups[proc.group];
      Goto(SetGroup(s, proc.group, if p.PullId? then DelPull(g, p.n) else DelPush(g, p.url)), p, Done)
  }

  /** A run: steps that are enabled one after the other. */
  predicate Runs(s: Sys, ls: seq<Label>)
    decreases |ls|
  {
    ls == [] || (Enabled(s, ls[0]) && Runs(Step(s, ls[0]), ls[1..]))
  }

  function After(s: Sys, ls: seq<Label>): Sys
    requires Runs(s, ls)
    decreases |ls|
  {
    if ls == [] then s else After(Step(s, ls[0]), ls[1..])
  }

  /** Before the first step: new groups, no goroutine, an empty semaphore. */
  ghost predicate Initial(s: Sys) {
    && s.procs == map[] && s.tokens == 0 && s.slots > 0 && s.next == 0
    && forall g :: g in s.groups ==>
         var v := s.groups[g];
         exists staticUrl: Option<string>, now: nat :: v == NewGroup(v.config, v.pushes.Keys, staticUrl, now)
  }

  // ---------------------------------------------------- the invariants

  function Holders(s: Sys): set<ProcId> {
    set p | p in s.procs && s.procs[p].acquired
  }

  /** The semaphore holds one token for each goroutine that has a slot. */
  predicate SlotsOk(s: Sys) {
    s.tokens == |Holders(s)| && s.tokens <= s.slots
  }

  predicate HasSlot(phase: Phase) {
    phase == Granted || phase == Cancelled || phase == Starting || phase == Returned
  }

  /** What a goroutine's own fields can be. */
  predicate ProcOk(p: ProcId, proc: Proc) {
    && (proc.acquired <==> HasSlot(proc.phase))
    && (proc.phase == Failed ==> proc.failed)
    && (proc.failed ==> proc.phase == Returned || proc.phase == Failed || proc.phase == Done)
    && (proc.added ==> proc.called)
    && (proc.called ==> proc.failed || proc.phase == Starting || proc.phase == Returned || proc.phase == Waiting
                        || proc.phase == Exited || proc.phase == Done)
    && match p
       case PullId(_) =>
         && proc.phase != Ready
         && (proc.phase == Waiting || proc.phase == Exited || (proc.phase == Returned && !proc.failed) ==> proc.called)
       case PushId(_, _) => !proc.called && proc.phase != Granted && proc.phase != Cancelled
  }

  predicate ProcsOk(s: Sys) {
    forall p :: p in s.procs ==>
                  && ProcOk(p, s.procs[p])
                  && p.n < s.next
                  && s.procs[p].group in s.groups
                  && (p.PushId? ==> p.url in s.groups[s.procs[p].group].pushes)
  }

  /** An attempt that has not ended: it has not added or been refused its
      session, and its goroutine has not given up. */
  predicate Attempting(proc: Proc) {
    && !proc.called
    && (proc.phase == Queued || proc.phase == TimedOut || HasSlot(proc.phase) || proc.phase == Failed)
    && proc.phase != Cancelled
  }

  /** The pull flag names an attempt of the group that has not ended. */
  predicate OwnerOk(s: Sys) {
    forall g :: g in s.groups ==>
                  && Healthy(s.groups[g])
                  && (s.groups[g].proxy.isPulling ==>
                        var p := PullId(s.groups[g].proxy.pullingId.value);
                        p in s.procs && s.procs[p].group == g && Attempting(s.procs[p]))
  }

  /** The goroutine's session is in its group. */
  predicate Held(proc: Proc) {
    proc.added && (proc.failed || proc.phase != Done)
  }

  predicate SessionOk(s: Sys, n: nat)
    requires PullId(n) in s.procs && s.procs[PullId(n)].group in s.groups
  {
    var proc := s.procs[PullId(n)];
    var v := s.groups[proc.group];
    (v.rtmpPull == Some(n) <==> proc.rtmp && Held(proc)) && (v.rtspPull == Some(n) <==> !proc.rtmp && Held(proc))
  }

  predicate NamesOwn(s: Sys, g: nat, session: Option<nat>) {
    session.Some? ==> PullId(session.value) in s.procs && s.procs[PullId(session.value)].group == g
  }

  /** A pull session is in its group exactly while its goroutine holds it. */
  predicate SessionsOk(s: Sys) {
    && (forall g :: g in s.groups ==> NamesOwn(s, g, s.groups[g].rtmpPull) && NamesOwn(s, g, s.groups[g].rtspPull))
    && (forall p :: p in s.procs && p.PullId? ==> s.procs[p].group in s.groups && SessionOk(s, p.n))
  }

  predicate LivePusher(s: Sys, p: ProcId, g: nat, url: string) {
    p in s.procs && p.PushId? && p.url == url && s.procs[p].group == g && s.procs[p].phase != Done
  }

  /** A target's flag is up exactly while one goroutine pushes to it. */
  ghost predicate PushOk(s: Sys, g: nat, url: string)
    requires g in s.groups && url in s.groups[g].pushes
  {
    var push := s.groups[g].pushes[url];
    && (push.isPushing ==> exists p :: LivePusher(s, p, g, url))
    && (forall p :: LivePusher(s, p, g, url) ==> push.isPushing)
    && (forall p, q :: LivePusher(s, p, g, url) && LivePusher(s, q, g, url) ==> p == q)
    && (push.session.Some? ==>
          var p := PushId(push.session.value, url);
          LivePusher(s, p, g, url) && (s.procs[p].phase == Waiting || s.procs[p].phase == Exited))
  }

  ghost predicate PushesOk(s: Sys) {
    forall g, url :: g in s.groups && url in s.groups[g].pushes ==> PushOk(s, g, url)
  }

  ghost predicate Inv(s: Sys) {
    SlotsOk(s) && ProcsOk(s) && OwnerOk(s) && SessionsOk(s) && PushesOk(s)
  }

  lemma InitialInv(s: Sys)
    requires Initial(s)
    ensures Inv(s)
  {
    assert Holders(s) == {};
  }

  // -------------------------------------------- what one region can change

  /** The push table: the targets started get their flag, sessions are kept or
      dropped, and nothing else changes. */
  predicate PushesAdvance(g: State, o: Outcome) {
    && o.state.pushes.Keys == g.pushes.Keys
    && o.pushed <= g.pushes.Keys
    && (forall u :: u in g.pushes ==>
                      && (o.state.pushes[u].isPushing <==> g.pushes[u].isPushing || u in o.pushed)
                      && (u in o.pushed ==> !g.pushes[u].isPushing)
                      && (o.state.pushes[u].session == g.pushes[u].session || o.state.pushes[u].session == None))
  }

  /** The pull flag: lowered, kept, or raised for a new attempt when it was down. */
  predicate FlagMoves(g: State, o: Outcome, uk: nat) {
    if o.pulled then !g.proxy.isPulling && Owns(o.state, uk)
    else o.state.proxy.isPulling ==> g.proxy.isPulling && o.state.proxy.pullingId == g.proxy.pullingId
  }

  predicate SamePulls(g: State, h: State) {
    h.rtmpPull == g.rtmpPull && h.rtspPull == g.rtspPull
  }

  lemma StartPushesAdvance(g: State)
    ensures PushesAdvance(g, Outcome(StartPushes(g), false, ToPush(g), true))
  {
  }

  lemma DelInAdvances(g: State)
    ensures PushesAdvance(g, Outcome(DelIn(g), false, {}, true))
    ensures DelIn(g).proxy == g.proxy && SamePulls(g, DelIn(g))
  {
  }

  /** What a call from outside can do to a group. */
  predicate CallEffect(g: State, o: Outcome, uk: nat) {
    Healthy(o.state) && PushesAdvance(g, o) && FlagMoves(g, o, uk) && SamePulls(g, o.state)
  }

  lemma JoinsAdvance(g: State, h: State)
    requires PushesAdvance(g, Outcome(h, false, {}, true))
    ensures PushesAdvance(g, JoinRtmp(h)) && PushesAdvance(g, JoinRtsp(h))
    ensures JoinRtmp(h).state.proxy == h.proxy && SamePulls(h, JoinRtmp(h).state)
    ensures JoinRtsp(h).state.proxy == h.proxy && SamePulls(h, JoinRtsp(h).state)
    ensures JoinRtmp(h).ok && JoinRtsp(h).ok && !JoinRtmp(h).pulled && !JoinRtsp(h).pulled
  {
  }

  /** An input that joins once the state is as good as `g`'s. */
  lemma JoinEffect(g: State, h: State, uk: nat)
    requires Healthy(g) && Inputs(h) == 1 && h.proxy == g.proxy && SamePulls(g, h)
    requires PushesAdvance(g, Outcome(h, false, {}, true))
    ensures CallEffect(g, JoinRtmp(h), uk) && CallEffect(g, JoinRtsp(h), uk)
  {
    hide PushesAdvance, JoinRtmp, JoinRtsp;
    JoinsAdvance(g, h);
    JoinKeepsHealthy(h);
  }

  lemma RefuseEffect(g: State, uk: nat)
    requires Healthy(g)
    ensures CallEffect(g, Refuse(g), uk)
  {
  }

  lemma AddsEffect(g: State, id: nat, uk: nat)
    requires Healthy(g)
    ensures CallEffect(g, AddRtmp(g, id), uk) && CallEffect(g, AddRtsp(g, id), uk)
  {
    hide PushesAdvance, JoinRtmp, JoinRtsp, CallEffect, Refuse;
    RefuseEffect(g, uk);
    UnchangedPushes(g, g.(rtmpPub := Some(id)));
    UnchangedPushes(g, g.(rtspPub := Some(id)));
    if !HasIn(g) {
      JoinEffect(g, g.(rtmpPub := Some(id)), uk);
      JoinEffect(g, g.(rtspPub := Some(id)), uk);
    }
  }

  lemma AddCustomizeEffect(g: State, id: nat, name: string, uk: nat)
    requires Healthy(g)
    ensures CallEffect(g, AddCustomize(g, id, name), uk)
  {
    hide PushesAdvance, JoinRtmp, JoinRtsp, CallEffect, Refuse;
    RefuseEffect(g, uk);
    var customize := Some(Customize(id, name));
    UnchangedPushes(g, g.(customizePub := customize));
    if !HasIn(g) {
      JoinEffect(g, g.(customizePub := customize), uk);
    } else if OnlyCustomize(g) {
      DelInAdvances(g);
      SamePushes(g, DelIn(g), DelIn(g).(customizePub := customize));
      JoinEffect(g, DelIn(g).(customizePub := customize), uk);
    }
  }

  lemma SamePushes(g: State, h: State, i: State)
    requires PushesAdvance(g, Outcome(h, false, {}, true)) && i.pushes == h.pushes
    ensures PushesAdvance(g, Outcome(i, false, {}, true))
  {
  }

  lemma LeaveEffect(g: State, uk: nat)
    requires Healthy(g)
    ensures CallEffect(g, Outcome(DelIn(g), false, {}, true), uk)
  {
    hide DelIn, PushesAdvance;
    DelInAdvances(g);
    LeavingKeepsHealthy(g);
  }

  lemma DelsEffect(g: State, id: nat, uk: nat)
    requires Healthy(g)
    ensures CallEffect(g, Outcome(DelRtmp(g, id), false, {}, true), uk)
    ensures CallEffect(g, Outcome(DelRtsp(g, id), false, {}, true), uk)
    ensures CallEffect(g, Outcome(DelCustomize(g, id), false, {}, true), uk)
    ensures CallEffect(g, Outcome(DisposeAll(g), false, {}, true), uk)
  {
    hide DelIn, CallEffect, Healthy;
    var h := g.(subs := set s | s in g.subs && s.hls);
    KeepEffect(g, uk);
    LeaveEffect(g, uk);
    SameHealth(g, h);
    LeaveEffect(h, uk);
    CallEffectFrom(g, h, Outcome(DelIn(h), false, {}, true), uk);
  }

  lemma KeepEffect(g: State, uk: nat)
    requires Healthy(g)
    ensures CallEffect(g, Outcome(g, false, {}, true), uk)
  {
  }

  lemma PullEffect(g: State, now: nat, uk: nat)
    requires Healthy(g)
    ensures CallEffect(g, PullIfNeeded(g, now, uk), uk)
    ensures CallEffect(g, Outcome(StopPulling(g), false, {}, true), uk)
  {
    hide ShouldAutoStop, HasIn;
  }

  lemma CallEffectFrom(g: State, h: State, o: Outcome, uk: nat)
    requires CallEffect(h, o, uk)
    requires h.proxy.isPulling == g.proxy.isPulling && h.proxy.pullingId == g.proxy.pullingId
    requires h.pushes == g.pushes && SamePulls(g, h)
    ensures CallEffect(g, o, uk)
  {
  }

  lemma TickEffect(g: State, now: nat, uk: nat)
    requires Healthy(g)
    ensures CallEffect(g, TickAll(g, now, uk), uk)
  {
    hide Healthy, CallEffect, StartPushes, ToPush, PullIfNeeded, StopPulling, ShouldAutoStop, HasSub;
    var h := Seen(g, now);
    var o := TickPull(g, now, uk);
    SameHealth(g, h);
    PullEffect(h, now, uk);
    PullKeepsPushes(h, now, uk);
    StartPushesAdvance(o.state);
    ThenPush(h, o, uk);
    CallEffectFrom(g, h, TickAll(g, now, uk), uk);
  }

  lemma PullKeepsPushes(g: State, now: nat, uk: nat)
    ensures PullIfNeeded(g, now, uk).state.pushes == g.pushes && PullIfNeeded(g, now, uk).pushed == {}
    ensures StopPulling(g).pushes == g.pushes
  {
  }

  /** A pull region followed by starting the pushes. */
  lemma ThenPush(g: State, o: Outcome, uk: nat)
    requires CallEffect(g, o, uk) && o.state.pushes == g.pushes
    requires PushesAdvance(o.state, Outcome(StartPushes(o.state), false, ToPush(o.state), true))
    ensures CallEffect(g, Outcome(StartPushes(o.state), o.pulled, ToPush(o.state), o.ok), uk)
  {
    hide ToPush;
  }

  lemma ApplyEffect(g: State, op: Op, now: nat, uk: nat)
    requires Healthy(g)
    ensures CallEffect(g, Apply(g, op, now, uk), uk)
  {
    hide Healthy, CallEffect, PullIfNeeded, AddRtmp, AddRtsp, AddCustomize, DelRtmp, DelRtsp, DelCustomize, DisposeAll, TickAll;
    match op
    case StartPull(req) =>
      var h := ResetBackoff(g.(proxy := g.proxy.(
                                 apiEnable := true, url := req.url, retryNum := req.retryNum, autoStopMs := req.autoStopMs)));
      SameHealth(g, h);
      PullEffect(h, now, uk);
      CallEffectFrom(g, h, Apply(g, op, now, uk), uk);
    case StopPull => StopEffect(g, uk);
    case KickPull(id) => StopEffect(g, uk);
    case Tick => TickEffect(g, now, uk);
    case AddSub(sub) => SubsEffect(g, g.subs + {sub}, now, uk);
    case DescribeSub(sub) => SubsEffect(g, g.subs + {sub}, now, uk);
    case DelSub(sub) => SubsEffect(g, g.subs - {sub}, now, uk);
    case AddRtmpPub(id) => AddsEffect(g, id, uk);
    case AddRtspPub(id) => AddsEffect(g, id, uk);
    case AddCustomizePub(id, name) => AddCustomizeEffect(g, id, name, uk);
    case DelRtmpPub(id) => DelsEffect(g, id, uk);
    case DelRtspPub(id) => DelsEffect(g, id, uk);
    case DelCustomizePub(id) => DelsEffect(g, id, uk);
    case Dispose => DelsEffect(g, 0, uk);
  }

  lemma StopEffect(g: State, uk: nat)
    requires Healthy(g)
    ensures CallEffect(g, Outcome(StopPulling(DisableApi(g)), false, {}, true), uk)
    ensures CallEffect(g, Outcome(g, false, {}, false), uk)
  {
    hide Healthy, StopPulling, PushesAdvance;
    UnchangedPushes(g, g);
    SameHealth(g, DisableApi(g));
    PullEffect(DisableApi(g), 0, uk);
    CallEffectFrom(g, DisableApi(g), Outcome(StopPulling(DisableApi(g)), false, {}, true), uk);
  }

  lemma SubsEffect(g: State, subs: set<Sub>, now: nat, uk: nat)
    requires Healthy(g)
    ensures var h := g.(subs := subs);
            CallEffect(g, PullIfNeeded(h, now, uk), uk) && CallEffect(g, Outcome(h, false, {}, true), uk)
  {
    var h := g.(subs := subs);
    SameHealth(g, h);
    PullEffect(h, now, uk);
    CallEffectFrom(g, h, PullIfNeeded(h, now, uk), uk);
  }

  /** What an attempt's success callback can do to its group. */
  predicate CallbackEffect(g: State, o: Outcome, id: nat, rtmp: bool) {
    && Healthy(o.state) && PushesAdvance(g, o) && FlagMoves(g, o, id) && !o.pulled && o.pushed == {} && !Owns(o.state, id)
    && (o.ok <==> Inputs(g) == 0)
    && (!o.ok ==> SamePulls(g, o.state))
    && (o.ok ==> && o.state.rtmpPull == (if rtmp then Some(id) else None)
                 && o.state.rtspPull == (if rtmp then None else Some(id)))
  }

  lemma AddPullEffect(g: State, id: nat, rtmp: bool)
    requires Healthy(g)
    ensures CallbackEffect(g, AddPull(g, id, rtmp), id, rtmp)
  {
    AddPullKeepsHealthy(g, id, rtmp);
    hide PushesAdvance, JoinRtmp, JoinRtsp, Quiet;
    if HasIn(g) {
      UnchangedPushes(g, ClearAttempt(g, id));
    } else {
      hide Healthy;
      var h := if Owns(g, id) then ResetBackoff(ClearFlag(g)) else g;
      PulledJoins(g, if rtmp then h.(rtmpPull := Some(id)) else h.(rtspPull := Some(id)));
    }
  }

  lemma PulledJoins(g: State, h: State)
    requires h.pushes == g.pushes && !ShouldPush(h)
    ensures PushesAdvance(g, JoinRtmp(h)) && PushesAdvance(g, JoinRtsp(h))
    ensures JoinRtmp(h).state.proxy == h.proxy && SamePulls(h, JoinRtmp(h).state)
    ensures JoinRtsp(h).state.proxy == h.proxy && SamePulls(h, JoinRtsp(h).state)
    ensures JoinRtmp(h).ok && JoinRtsp(h).ok && !JoinRtmp(h).pulled && !JoinRtsp(h).pulled
    ensures JoinRtmp(h).pushed == JoinRtsp(h).pushed == {}
  {
    hide PushesAdvance, StartPushes;
    UnchangedPushes(g, h);
    JoinsAdvance(g, h);
  }

  lemma UnchangedPushes(g: State, h: State)
    requires h.pushes == g.pushes
    ensures PushesAdvance(g, Outcome(h, false, {}, false)) && PushesAdvance(g, Outcome(h, false, {}, true))
  {
  }

  // ------------------------------------------------ regions that may spawn

  predicate NewIn(s: Sys, o: Outcome, p: ProcId) {
    p.n == s.next && (if p.PullId? then o.pulled else p.url in o.pushed)
  }

  /** The system after a region of `g` that left `o`, with what it spawned. */
  ghost predicate Spawned(s: Sys, t: Sys, g: nat, o: Outcome) {
    && g in s.groups && t.groups == s.groups[g := o.state]
    && t.tokens == s.tokens && t.slots == s.slots && t.next == s.next + 1
    && (forall p :: p in t.procs <==> p in s.procs || NewIn(s, o, p))
    && (forall p :: p in s.procs ==> t.procs[p] == s.procs[p])
    && (forall p :: p in t.procs && p !in s.procs ==> t.procs[p] == NewProc(g, t.procs[p].rtmp))
  }

  lemma CommitSpawns(s: Sys, g: nat, o: Outcome)
    requires ProcsOk(s) && g in s.groups
    ensures Spawned(s, Commit(s, g, o), g, o)
  {
  }

  lemma SpawnKeepsSlots(s: Sys, t: Sys, g: nat, o: Outcome)
    requires Spawned(s, t, g, o) && SlotsOk(s)
    ensures SlotsOk(t)
  {
    assert Holders(t) == Holders(s);
  }

  lemma SpawnKeepsProcs(s: Sys, t: Sys, g: nat, o: Outcome)
    requires Spawned(s, t, g, o) && ProcsOk(s) && PushesAdvance(s.groups[g], o)
    ensures ProcsOk(t)
  {
  }

  lemma SpawnKeepsOwner(s: Sys, t: Sys, g: nat, o: Outcome, uk: nat)
    requires Spawned(s, t, g, o) && OwnerOk(s) && ProcsOk(s)
    requires Healthy(o.state) && FlagMoves(s.groups[g], o, uk) && (o.pulled ==> uk == s.next)
    ensures OwnerOk(t)
  {
    hide Healthy;
    assert NewIn(s, o, PullId(s.next)) <==> o.pulled;
  }

  lemma SpawnKeepsSessions(s: Sys, t: Sys, g: nat, o: Outcome)
    requires Spawned(s, t, g, o) && SessionsOk(s) && ProcsOk(s) && SamePulls(s.groups[g], o.state)
    ensures SessionsOk(t)
  {
    forall p | p in t.procs && p.PullId?
      ensures t.procs[p].group in t.groups && SessionOk(t, p.n)
    {
      assert p == PullId(p.n);
      if p in s.procs {
        assert SessionOk(s, p.n);
      } else {
        assert NamesOwn(s, g, s.groups[g].rtmpPull) && NamesOwn(s, g, s.groups[g].rtspPull);
      }
    }
  }

  lemma SpawnKeepsPush(s: Sys, t: Sys, g: nat, o: Outcome, h: nat, url: string)
    requires Spawned(s, t, g, o) && ProcsOk(s) && PushesAdvance(s.groups[g], o)
    requires h in s.groups && url in s.groups[h].pushes && PushOk(s, h, url)
    ensures h in t.groups && url in t.groups[h].pushes && PushOk(t, h, url)
  {
    forall p ensures LivePusher(t, p, h, url) <==> LivePusher(s, p, h, url) || (NewIn(s, o, p) && p.PushId? && p.url == url && g == h) {
      if p in s.procs {
        assert t.procs[p] == s.procs[p];
      }
    }
    if g == h && url in o.pushed {
      assert LivePusher(t, PushId(s.next, url), h, url);
    }
  }

  lemma SpawnKeepsPushes(s: Sys, t: Sys, g: nat, o: Outcome)
    requires Spawned(s, t, g, o) && ProcsOk(s) && PushesOk(s) && PushesAdvance(s.groups[g], o)
    ensures PushesOk(t)
  {
    forall h, url | h in t.groups && url in t.groups[h].pushes
      ensures PushOk(t, h, url)
    {
      assert h in s.groups && url in s.groups[h].pushes;
      SpawnKeepsPush(s, t, g, o, h, url);
    }
  }

  // -------------------------------------------- regions of one goroutine

  /** The system after goroutine `p` became `proc` and left its group as `v`. */
  ghost predicate Moved(s: Sys, t: Sys, p: ProcId, proc: Proc, v: State) {
    && p in s.procs && proc.group == s.procs[p].group && proc.rtmp == s.procs[p].rtmp && proc.group in s.groups
    && t.groups == s.groups[proc.group := v]
    && t.procs == s.procs[p := proc]
    && t.slots == s.slots && t.next >= s.next
  }

  lemma MoveKeepsSlots(s: Sys, t: Sys, p: ProcId, proc: Proc, v: State)
    requires Moved(s, t, p, proc, v) && SlotsOk(s)
    requires t.tokens + B2N(s.procs[p].acquired) == s.tokens + B2N(proc.acquired) && t.tokens <= t.slots
    ensures SlotsOk(t)
  {
    var was := Holders(s) - {p};
    assert Holders(s) == if s.procs[p].acquired then was + {p} else was;
    assert Holders(t) == if proc.acquired then was + {p} else was;
  }

  lemma MoveKeepsProcs(s: Sys, t: Sys, p: ProcId, proc: Proc, v: State)
    requires Moved(s, t, p, proc, v) && ProcsOk(s) && ProcOk(p, proc)
    requires v.pushes.Keys == s.groups[proc.group].pushes.Keys
    ensures ProcsOk(t)
  {
  }

  lemma MoveKeepsOwner(s: Sys, t: Sys, p: ProcId, proc: Proc, v: State)
    requires Moved(s, t, p, proc, v) && OwnerOk(s) && Healthy(v)
    requires v.proxy.isPulling ==> s.groups[proc.group].proxy.isPulling && v.proxy.pullingId == s.groups[proc.group].proxy.pullingId
    requires p.PullId? && Owns(v, p.n) ==> Attempting(proc)
    ensures OwnerOk(t)
  {
    hide Attempting, Inputs, Quiet;
  }

  /** The pull session of the group stays, and the goroutine holds it as before. */
  lemma MoveKeepsSessions(s: Sys, t: Sys, p: ProcId, proc: Proc, v: State)
    requires Moved(s, t, p, proc, v) && SessionsOk(s)
    requires SamePulls(s.groups[proc.group], v) && (p.PullId? ==> Held(proc) == Held(s.procs[p]))
    ensures SessionsOk(t)
  {
    forall q | q in t.procs && q.PullId?
      ensures t.procs[q].group in t.groups && SessionOk(t, q.n)
    {
      assert q == PullId(q.n) && SessionOk(s, q.n);
    }
  }

  /** A pull goroutine that is the only one to hold a session of its group puts
      it there. */
  lemma AddKeepsSessions(s: Sys, t: Sys, p: ProcId, proc: Proc, v: State)
    requires Moved(s, t, p, proc, v) && SessionsOk(s) && p.PullId? && Held(proc)
    requires !HasPull(s.groups[proc.group])
    requires v.rtmpPull == (if proc.rtmp then Some(p.n) else None) && v.rtspPull == (if proc.rtmp then None else Some(p.n))
    ensures SessionsOk(t)
  {
    forall q | q in t.procs && q.PullId?
      ensures t.procs[q].group in t.groups && SessionOk(t, q.n)
    {
      assert q == PullId(q.n) && SessionOk(s, q.n);
    }
  }

  lemma DelPullClears(g: State, n: nat)
    requires Healthy(g)
    ensures var v := DelPull(g, n);
            if g.rtmpPull == Some(n) || g.rtspPull == Some(n)
            then (g.rtmpPull.None? || g.rtspPull.None?) && v.rtmpPull.None? && v.rtspPull.None?
            else SamePulls(g, v)
  {
    LeavingClears(ClearFlag(g).(rtmpPull := None, rtspPull := None));
    hide DelIn, Quiet;
  }

  /** A pull goroutine that ends takes its session out of the group. */
  lemma DeleteKeepsSessions(s: Sys, t: Sys, p: ProcId, proc: Proc)
    requires p in s.procs && s.procs[p].group in s.groups && Healthy(s.groups[s.procs[p].group])
    requires SessionsOk(s) && p.PullId? && !Held(proc) && proc.group == s.procs[p].group
    requires Moved(s, t, p, proc, DelPull(s.groups[proc.group], p.n))
    ensures SessionsOk(t)
  {
    DelPullClears(s.groups[proc.group], p.n);
    hide DelPull, Healthy;
    assert PullId(p.n) == p && SessionOk(s, p.n);
    forall q | q in t.procs && q.PullId?
      ensures t.procs[q].group in t.groups && SessionOk(t, q.n)
    {
      assert q == PullId(q.n) && SessionOk(s, q.n);
    }
  }

  /** The push tables stay as they were, or only lose sessions. */
  lemma MoveKeepsPushes(s: Sys, t: Sys, p: ProcId, proc: Proc, v: State)
    requires Moved(s, t, p, proc, v) && PushesOk(s) && p.PullId?
    requires PushesAdvance(s.groups[proc.group], Outcome(v, false, {}, true))
    ensures PushesOk(t)
  {
    forall h, url | h in t.groups && url in t.groups[h].pushes
      ensures PushOk(t, h, url)
    {
      assert PushOk(s, h, url);
      forall q ensures LivePusher(t, q, h, url) <==> LivePusher(s, q, h, url) {
      }
    }
  }

  /** A push goroutine changes its own entry, and only its own. */
  ghost predicate OwnEntry(g: State, v: State, url: string) {
    v.pushes.Keys == g.pushes.Keys && forall u :: u in g.pushes && u != url ==> v.pushes[u] == g.pushes[u]
  }

  lemma PusherKeepsPushes(s: Sys, t: Sys, p: ProcId, proc: Proc, v: State)
    requires Moved(s, t, p, proc, v) && ProcsOk(s) && PushesOk(s) && p.PushId? && s.procs[p].phase != Done
    requires OwnEntry(s.groups[proc.group], v, p.url)
    requires v.pushes[p.url].isPushing <==> proc.phase != Done
    requires v.pushes[p.url].session.Some? ==>
               && v.pushes[p.url].session.value == p.n
               && (proc.phase == Waiting || proc.phase == Exited)
    ensures PushesOk(t)
  {
    assert LivePusher(s, p, proc.group, p.url) && PushOk(s, proc.group, p.url);
    forall h, url | h in t.groups && url in t.groups[h].pushes
      ensures PushOk(t, h, url)
    {
      assert PushOk(s, h, url);
      if h == proc.group && url == p.url {
        assert p == PushId(p.n, url);
        assert forall q :: LivePusher(t, q, h, url) ==> q == p && proc.phase != Done by {
          forall q | LivePusher(t, q, h, url) ensures q == p && proc.phase != Done {
            assert LivePusher(s, q, h, url);
          }
        }
        assert proc.phase != Done ==> LivePusher(t, p, h, url);
      } else {
        forall q ensures LivePusher(t, q, h, url) <==> LivePusher(s, q, h, url) {
        }
      }
    }
  }

  // ------------------------------------------------ every step, every run

  lemma CallKeepsInv(s: Sys, g: nat, op: Op, now: nat)
    requires Inv(s) && g in s.groups
    ensures Inv(Step(s, Call(g, op, now)))
  {
    hide SlotsOk, ProcsOk, SessionsOk, PushesOk, Apply, Commit, Healthy, PushesAdvance, FlagMoves, SamePulls, Spawned;
    var o := Apply(s.groups[g], op, now, s.next);
    var t := Commit(s, g, o);
    ApplyEffect(s.groups[g], op, now, s.next);
    CommitSpawns(s, g, o);
    hide OwnerOk;
    SpawnKeepsSlots(s, t, g, o);
    SpawnKeepsProcs(s, t, g, o);
    SpawnKeepsOwner(s, t, g, o, s.next);
    SpawnKeepsSessions(s, t, g, o);
    SpawnKeepsPushes(s, t, g, o);
  }

  /** A step of one goroutine that leaves its group's inputs and push table
      alone, and at most lowers the pull flag. */
  lemma MoveKeepsInv(s: Sys, t: Sys, p: ProcId, proc: Proc, v: State)
    requires Inv(s) && Moved(s, t, p, proc, v) && ProcOk(p, proc) && Healthy(v)
    requires t.tokens + B2N(s.procs[p].acquired) == s.tokens + B2N(proc.acquired) && t.tokens <= t.slots
    requires v.proxy.isPulling ==> s.groups[proc.group].proxy.isPulling && v.proxy.pullingId == s.groups[proc.group].proxy.pullingId
    requires p.PullId? && Owns(v, p.n) ==> Attempting(proc)
    requires SamePulls(s.groups[proc.group], v) && (p.PullId? ==> Held(proc) == Held(s.procs[p]))
    requires v.pushes == s.groups[proc.group].pushes
    requires p.PushId? ==> KeepsPushing(s.procs[p].phase, proc.phase)
    ensures Inv(t)
  {
    hide SlotsOk, OwnerOk, SessionsOk, PushesOk, ProcsOk, ProcOk, Healthy, Attempting, Held, KeepsPushing;
    MoveKeepsSlots(s, t, p, proc, v);
    MoveKeepsProcs(s, t, p, proc, v);
    MoveKeepsOwner(s, t, p, proc, v);
    MoveKeepsSessions(s, t, p, proc, v);
    MoveKeepsPushTable(s, t, p, proc, v);
  }

  /** A push goroutine's session is only there from Waiting on, and no step
      that leaves the table alone ends the goroutine. */
  predicate KeepsPushing(phase: Phase, next: Phase) {
    phase != Done && next != Done && (phase == Waiting || phase == Exited ==> next == Exited)
  }

  lemma MoveKeepsPushTable(s: Sys, t: Sys, p: ProcId, proc: Proc, v: State)
    requires Moved(s, t, p, proc, v) && PushesOk(s) && ProcsOk(s) && v.pushes == s.groups[proc.group].pushes
    requires p.PushId? ==> KeepsPushing(s.procs[p].phase, proc.phase)
    ensures PushesOk(t)
  {
    if p.PullId? {
      hide PushesOk, ProcsOk;
      UnchangedPushes(s.groups[proc.group], v);
      MoveKeepsPushes(s, t, p, proc, v);
    } else {
      assert LivePusher(s, p, proc.group, p.url) && PushOk(s, proc.group, p.url);
      hide PushesOk;
      PusherKeepsPushes(s, t, p, proc, v);
    }
  }

  /** The default branch of the semaphore's receive is never taken: a goroutine
      that gives a slot back has one. */
  lemma ReleaseFindsAToken(s: Sys, p: ProcId)
    requires Inv(s) && Enabled(s, Release(p))
    ensures s.tokens > 0 && ReleaseSlot(s.tokens) == s.tokens - 1
  {
    assert p in Holders(s);
  }

  /** How a goroutine's own fields move in a step that is no group region. */
  function OwnMove(p: ProcId, proc: Proc, l: Label): Proc {
    match l
    case Acquire(_) => proc.(phase := if p.PullId? then Granted else Starting, acquired := true)
    case WaitTimeout(_) => proc.(phase := TimedOut)
    case StartReturns(_, ok) => proc.(phase := Returned, failed := !ok)
    case Release(_) => proc.(phase := AfterRelease(p, proc), acquired := false)
    case _ => proc
  }

  predicate IsOwnMove(l: Label) {
    l.Acquire? || l.WaitTimeout? || l.StartReturns? || l.Release?
  }

  lemma OwnMoveIsOk(s: Sys, l: Label)
    requires Enabled(s, l) && IsOwnMove(l) && ProcOk(l.p, s.procs[l.p])
    ensures var was := s.procs[l.p];
            var proc := OwnMove(l.p, was, l);
            && ProcOk(l.p, proc)
            && proc.group == was.group && proc.rtmp == was.rtmp
            && (l.p.PullId? ==> Held(proc) == Held(was) && (Attempting(was) ==> Attempting(proc)))
            && (l.p.PushId? ==> KeepsPushing(was.phase, proc.phase))
            && B2N(proc.acquired) - B2N(was.acquired) == (if l.Acquire? then 1 else if l.Release? then -1 else 0)
  {
  }

  lemma OwnMoveStep(s: Sys, l: Label)
    requires Inv(s) && Enabled(s, l) && IsOwnMove(l)
    ensures var proc := OwnMove(l.p, s.procs[l.p], l);
            var t := Step(s, l);
            && Moved(s, t, l.p, proc, s.groups[s.procs[l.p].group])
            && t.tokens == s.tokens + (if l.Acquire? then 1 else if l.Release? then -1 else 0) && t.tokens <= t.slots
  {
    hide SessionsOk, PushesOk, ProcsOk, OwnerOk;
    assert s.groups == s.groups[s.procs[l.p].group := s.groups[s.procs[l.p].group]];
    if l.Release? {
      assert s.procs[l.p].acquired by {
        RunsAcquired(s, l.p);
      }
      ReleaseFindsAToken(s, l.p);
    }
  }

  lemma RunsAcquired(s: Sys, p: ProcId)
    requires ProcsOk(s) && p in s.procs
    ensures ProcOk(p, s.procs[p])
  {
  }

  lemma OwnerIsAttempting(s: Sys, p: ProcId)
    requires OwnerOk(s) && p in s.procs && p.PullId? && s.procs[p].group in s.groups
    ensures Healthy(s.groups[s.procs[p].group])
    ensures Owns(s.groups[s.procs[p].group], p.n) ==> Attempting(s.procs[p])
  {
    hide Healthy, Attempting;
    assert p == PullId(p.n);
  }

  lemma OwnMoveKeepsInv(s: Sys, l: Label)
    requires Inv(s) && Enabled(s, l) && IsOwnMove(l)
    ensures Inv(Step(s, l))
  {
    hide SlotsOk, SessionsOk, PushesOk, ProcOk, Attempting, Held, KeepsPushing, Healthy, OwnMove, Step;
    assert ProcOk(l.p, s.procs[l.p]) && Healthy(s.groups[s.procs[l.p].group]);
    if l.p.PullId? {
      OwnerIsAttempting(s, l.p);
    }
    hide ProcsOk, OwnerOk;
    OwnMoveIsOk(s, l);
    OwnMoveStep(s, l);
    MoveKeepsInv(s, Step(s, l), l.p, OwnMove(l.p, s.procs[l.p], l), s.groups[s.procs[l.p].group]);
  }

  // The regions in which a pull goroutine only touches the pull bookkeeping.

  function PullRegion(g: State, p: ProcId, l: Label): State {
    match l
    case GiveUp(_, now) => OnPullStartFailed(g, p.n, now)
    case SessionEnds(_, err, now) => OnPullSessionExited(g, p.n, err, now)
    case _ => Confirm(g, p.n).state
  }

  function PullMove(g: State, p: ProcId, proc: Proc, l: Label): Proc {
    match l
    case GiveUp(_, _) => proc.(phase := Done)
    case SessionEnds(_, _, _) => proc.(phase := Exited)
    case _ => proc.(phase := if Owns(g, p.n) then Starting else Cancelled)
  }

  predicate IsPullRegion(l: Label) {
    (l.GiveUp? || l.SessionEnds? || l.SecondCheck?) && l.p.PullId?
  }

  /** Only the bookkeeping changes, and the flag stays or comes down. */
  predicate FlagKeptOrLowered(g: State, v: State) {
    && v == g.(proxy := v.proxy)
    && ((v.proxy.isPulling == g.proxy.isPulling && v.proxy.pullingId == g.proxy.pullingId)
        || (!v.proxy.isPulling && v.proxy.pullingId == None))
  }

  lemma FailureLowers(g: State, n: nat, now: nat)
    ensures FlagKeptOrLowered(g, OnPullStartFailed(g, n, now)) && !Owns(OnPullStartFailed(g, n, now), n)
  {
  }

  lemma ExitKeeps(g: State, n: nat, err: bool, now: nat)
    ensures FlagKeptOrLowered(g, OnPullSessionExited(g, n, err, now))
  {
    hide PullKey;
  }

  lemma ConfirmKeeps(g: State, n: nat)
    ensures FlagKeptOrLowered(g, Confirm(g, n).state)
  {
  }

  lemma PullRegionIsOk(g: State, p: ProcId, l: Label)
    requires Healthy(g) && IsPullRegion(l) && p.PullId?
    ensures var v := PullRegion(g, p, l);
            && Healthy(v) && SamePulls(g, v) && v.pushes == g.pushes
            && (v.proxy.isPulling ==> g.proxy.isPulling && v.proxy.pullingId == g.proxy.pullingId)
            && (Owns(v, p.n) ==> Owns(g, p.n) && !l.GiveUp?)
  {
    hide OnPullStartFailed, OnPullSessionExited, Confirm, Inputs, Quiet;
    match l {
      case GiveUp(_, now) => FailureLowers(g, p.n, now);
      case SessionEnds(_, err, now) => ExitKeeps(g, p.n, err, now);
      case _ => ConfirmKeeps(g, p.n);
    }
    var v := PullRegion(g, p, l);
    SameHealth(g, v);
  }

  lemma PullMoveIsOk(s: Sys, l: Label)
    requires Enabled(s, l) && IsPullRegion(l) && ProcOk(l.p, s.procs[l.p])
    ensures var was := s.procs[l.p];
            var g := s.groups[was.group];
            var proc := PullMove(g, l.p, was, l);
            && ProcOk(l.p, proc)
            && proc.group == was.group && proc.rtmp == was.rtmp && proc.acquired == was.acquired
            && Held(proc) == Held(was)
            && (Attempting(was) && Owns(g, l.p.n) && !l.GiveUp? ==> Attempting(proc))
  {
  }

  lemma PullRegionKeepsInv(s: Sys, l: Label)
    requires Inv(s) && Enabled(s, l) && IsPullRegion(l)
    ensures Inv(Step(s, l))
  {
    hide SlotsOk, SessionsOk, PushesOk, ProcOk, Attempting, Held, KeepsPushing, Healthy, OnPullStartFailed, OnPullSessionExited;
    assert ProcOk(l.p, s.procs[l.p]) && Healthy(s.groups[s.procs[l.p].group]);
    OwnerIsAttempting(s, l.p);
    hide ProcsOk, OwnerOk;
    var was := s.procs[l.p];
    var g := s.groups[was.group];
    PullRegionIsOk(g, l.p, l);
    PullMoveIsOk(s, l);
    SlotsBound(s);
    assert Moved(s, Step(s, l), l.p, PullMove(g, l.p, was, l), PullRegion(g, l.p, l));
    MoveKeepsInv(s, Step(s, l), l.p, PullMove(g, l.p, was, l), PullRegion(g, l.p, l));
  }

  lemma SlotsBound(s: Sys)
    requires SlotsOk(s)
    ensures s.tokens <= s.slots
  {
  }

  // The regions in which a push goroutine touches its own target.

  lemma PusherKeepsInv(s: Sys, t: Sys, p: ProcId, proc: Proc, v: State)
    requires Inv(s) && Moved(s, t, p, proc, v) && ProcOk(p, proc) && p.PushId?
    requires t.tokens == s.tokens && proc.acquired == s.procs[p].acquired && s.procs[p].phase != Done
    requires v == s.groups[proc.group].(pushes := v.pushes) && OwnEntry(s.groups[proc.group], v, p.url)
    requires p.url in v.pushes && (v.pushes[p.url].isPushing <==> proc.phase != Done)
    requires v.pushes[p.url].session.Some? ==>
               && v.pushes[p.url].session.value == p.n
               && (proc.phase == Waiting || proc.phase == Exited)
    ensures Inv(t)
  {
    hide SlotsOk, OwnerOk, SessionsOk, PushesOk, ProcsOk, ProcOk, Attempting, Held;
    SlotsBound(s);
    GroupIsHealthy(s, proc.group);
    SameHealth(s.groups[proc.group], v);
    hide Healthy;
    MoveKeepsSlots(s, t, p, proc, v);
    MoveKeepsProcs(s, t, p, proc, v);
    MoveKeepsOwner(s, t, p, proc, v);
    MoveKeepsSessions(s, t, p, proc, v);
    PusherKeepsPushes(s, t, p, proc, v);
  }

  lemma GroupIsHealthy(s: Sys, g: nat)
    requires OwnerOk(s) && g in s.groups
    ensures Healthy(s.groups[g])
  {
  }

  /** The target of a live push goroutine, and its flag and session. */
  lemma TargetOf(s: Sys, p: ProcId)
    requires Inv(s) && p in s.procs && p.PushId? && s.procs[p].phase != Done
    ensures s.procs[p].group in s.groups && p.url in s.groups[s.procs[p].group].pushes
    ensures var push := s.groups[s.procs[p].group].pushes[p.url];
            && push.isPushing
            && (push.session.Some? ==> push.session.value == p.n && (s.procs[p].phase == Waiting || s.procs[p].phase == Exited))
    ensures ProcOk(p, s.procs[p])
  {
    hide SlotsOk, OwnerOk, SessionsOk;
    var g := s.procs[p].group;
    assert LivePusher(s, p, g, p.url) && PushOk(s, g, p.url);
  }

  function PushRegion(g: State, p: ProcId, phase: Phase, l: Label): State
    requires p.PushId?
  {
    match l
    case GiveUp(_, _) => if phase == TimedOut then ClearPushing(g, p.url) else DelPush(g, p.url)
    case PushAdded(_) => AddPush(g, p.url, p.n)
    case Delete(_) => DelPush(g, p.url)
    case _ => g
  }

  function PushMove(proc: Proc, l: Label): Proc {
    proc.(phase := if l.PushAdded? then Waiting else if l.SessionEnds? then Exited else Done)
  }

  predicate IsPushRegion(l: Label) {
    (l.GiveUp? || l.PushAdded? || l.Delete? || l.SessionEnds?) && l.p.PushId?
  }

  lemma PushRegionsOwnEntry(g: State, url: string, n: nat)
    requires url in g.pushes
    ensures var v := AddPush(g, url, n);
            v == g.(pushes := v.pushes) && OwnEntry(g, v, url) && v.pushes[url] == g.pushes[url].(session := Some(n))
    ensures var v := DelPush(g, url);
            v == g.(pushes := v.pushes) && OwnEntry(g, v, url) && v.pushes[url] == Push(false, None)
    ensures var v := ClearPushing(g, url);
            v == g.(pushes := v.pushes) && OwnEntry(g, v, url) && v.pushes[url] == g.pushes[url].(isPushing := false)
    ensures g == g.(pushes := g.pushes) && OwnEntry(g, g, url)
  {
  }

  lemma PushRegionIsOk(g: State, p: ProcId, was: Proc, l: Label)
    requires IsPushRegion(l) && p.PushId? && p.url in g.pushes && g.pushes[p.url].isPushing
    requires g.pushes[p.url].session.Some? ==>
               g.pushes[p.url].session.value == p.n && (was.phase == Waiting || was.phase == Exited)
    requires l.GiveUp? ==> was.phase == TimedOut || was.phase == Failed
    ensures var v := PushRegion(g, p, was.phase, l);
            var proc := PushMove(was, l);
            && v == g.(pushes := v.pushes) && OwnEntry(g, v, p.url) && p.url in v.pushes
            && (v.pushes[p.url].isPushing <==> proc.phase != Done)
            && (v.pushes[p.url].session.Some? ==> v.pushes[p.url].session.value == p.n && (proc.phase == Waiting || proc.phase == Exited))
  {
    hide AddPush, DelPush, ClearPushing, OwnEntry;
    PushRegionsOwnEntry(g, p.url, p.n);
  }

  lemma PushMoveIsOk(s: Sys, l: Label)
    requires Enabled(s, l) && IsPushRegion(l) && ProcOk(l.p, s.procs[l.p])
    ensures ProcOk(l.p, PushMove(s.procs[l.p], l)) && s.procs[l.p].phase != Done
    ensures l.GiveUp? ==> s.procs[l.p].phase == TimedOut || s.procs[l.p].phase == Failed
  {
  }

  lemma PushRegionKeepsInv(s: Sys, l: Label)
    requires Inv(s) && Enabled(s, l) && IsPushRegion(l)
    ensures Inv(Step(s, l))
  {
    hide SlotsOk, OwnerOk, SessionsOk, PushesOk, ProcOk, ClearPushing, DelPush, AddPush, OwnEntry;
    assert ProcOk(l.p, s.procs[l.p]);
    hide ProcsOk;
    PushMoveIsOk(s, l);
    TargetOf(s, l.p);
    var was := s.procs[l.p];
    var g := s.groups[was.group];
    PushRegionIsOk(g, l.p, was, l);
    assert s.groups == s.groups[was.group := g];
    assert Moved(s, Step(s, l), l.p, PushMove(was, l), PushRegion(g, l.p, was.phase, l));
    PusherKeepsInv(s, Step(s, l), l.p, PushMove(was, l), PushRegion(g, l.p, was.phase, l));
  }

  // The two regions that move a pull session in or out of its group.

  lemma CommitNothing(s: Sys, g: nat, o: Outcome)
    requires !o.pulled && o.pushed == {}
    ensures Commit(s, g, o) == s.(groups := s.groups[g := o.state], next := s.next + 1)
  {
    assert Pushers(s, g, o.pushed) == map[];
  }

  lemma CallbackMoves(s: Sys, p: ProcId, o: Outcome)
    requires Enabled(s, Callback(p)) && o == AddPull(s.groups[s.procs[p].group], p.n, s.procs[p].rtmp)
    requires !o.pulled && o.pushed == {}
    ensures var t := Step(s, Callback(p));
            Moved(s, t, p, s.procs[p].(called := true, added := o.ok), o.state) && t.tokens == s.tokens
  {
    hide AddPull, Commit;
    CommitNothing(s, s.procs[p].group, o);
  }

  lemma CallbackKeepsSessions(s: Sys, t: Sys, p: ProcId, o: Outcome)
    requires p in s.procs && p.PullId? && s.procs[p].group in s.groups && SessionsOk(s)
    requires CallbackEffect(s.groups[s.procs[p].group], o, p.n, s.procs[p].rtmp)
    requires Moved(s, t, p, s.procs[p].(called := true, added := o.ok), o.state)
    requires !s.procs[p].added && (s.procs[p].failed || s.procs[p].phase != Done)
    ensures SessionsOk(t)
  {
    hide SessionsOk, Healthy, PushesAdvance, FlagMoves;
    var proc := s.procs[p].(called := true, added := o.ok);
    if o.ok {
      AddKeepsSessions(s, t, p, proc, o.state);
    } else {
      MoveKeepsSessions(s, t, p, proc, o.state);
    }
  }

  lemma CallbackProc(s: Sys, p: ProcId, ok: bool)
    requires Enabled(s, Callback(p)) && ProcOk(p, s.procs[p])
    ensures ProcOk(p, s.procs[p].(called := true, added := ok)) && !s.procs[p].added
    ensures s.procs[p].failed || s.procs[p].phase != Done
  {
  }

  lemma CallbackKeepsInv(s: Sys, p: ProcId)
    requires Inv(s) && Enabled(s, Callback(p))
    ensures Inv(Step(s, Callback(p)))
  {
    hide SlotsOk, ProcsOk, OwnerOk, SessionsOk, PushesOk, Step, AddPull, ProcOk, Moved, Healthy, CallbackEffect, Attempting;
    var was := s.procs[p];
    var o := AddPull(s.groups[was.group], p.n, was.rtmp);
    var t := Step(s, Callback(p));
    GroupIsHealthy(s, was.group);
    AddPullEffect(s.groups[was.group], p.n, was.rtmp);
    CallbackParts(s.groups[was.group], o, p.n, was.rtmp);
    CallbackMoves(s, p, o);
    RunsAcquired(s, p);
    CallbackProc(s, p, o.ok);
    CallbackKeepsSessions(s, t, p, o);
    SlotsBound(s);
    SessionMoveKeepsRest(s, t, p, was.(called := true, added := o.ok), o);
  }

  lemma CallbackParts(g: State, o: Outcome, n: nat, rtmp: bool)
    requires CallbackEffect(g, o, n, rtmp)
    ensures !o.pulled && o.pushed == {} && Healthy(o.state) && PushesAdvance(g, o) && !Owns(o.state, n)
    ensures o.state.proxy.isPulling ==> g.proxy.isPulling && o.state.proxy.pullingId == g.proxy.pullingId
  {
  }

  lemma SessionMoveKeepsRest(s: Sys, t: Sys, p: ProcId, proc: Proc, o: Outcome)
    requires Inv(s) && Moved(s, t, p, proc, o.state) && p.PullId? && ProcOk(p, proc) && Healthy(o.state)
    requires t.tokens == s.tokens <= s.slots && proc.acquired == s.procs[p].acquired
    requires PushesAdvance(s.groups[proc.group], o) && o.pushed == {} && !Owns(o.state, p.n)
    requires o.state.proxy.isPulling ==>
               && s.groups[proc.group].proxy.isPulling
               && o.state.proxy.pullingId == s.groups[proc.group].proxy.pullingId
    ensures SlotsOk(t) && ProcsOk(t) && OwnerOk(t) && PushesOk(t)
  {
    hide SlotsOk, ProcsOk, OwnerOk, SessionsOk, PushesOk, ProcOk, Healthy, Attempting, PushesAdvance;
    MoveKeepsSlots(s, t, p, proc, o.state);
    PullMoveKeepsRest(s, t, p, proc, o);
    MoveKeepsOwner(s, t, p, proc, o.state);
  }

  lemma PullMoveKeepsRest(s: Sys, t: Sys, p: ProcId, proc: Proc, o: Outcome)
    requires Moved(s, t, p, proc, o.state) && ProcsOk(s) && PushesOk(s) && p.PullId? && ProcOk(p, proc)
    requires PushesAdvance(s.groups[proc.group], o) && o.pushed == {}
    ensures ProcsOk(t) && PushesOk(t)
  {
    MoveKeepsProcs(s, t, p, proc, o.state);
    hide PushesOk, ProcsOk;
    MoveKeepsPushes(s, t, p, proc, o.state);
  }

  lemma DelPullAdvances(g: State, n: nat)
    requires Healthy(g)
    ensures var v := DelPull(g, n);
            && PushesAdvance(g, Outcome(v, false, {}, true)) && !Owns(v, n)
            && (v.proxy.isPulling ==> g.proxy.isPulling && v.proxy.pullingId == g.proxy.pullingId)
  {
    hide DelIn, Healthy, PushesAdvance;
    UnchangedPushes(g, ClearAttempt(g, n));
    var h := ClearFlag(g).(rtmpPull := None, rtspPull := None);
    DelInAdvances(h);
    AdvanceFrom(g, h, DelIn(h));
  }

  lemma AdvanceFrom(g: State, h: State, v: State)
    requires h.pushes == g.pushes && PushesAdvance(h, Outcome(v, false, {}, true))
    ensures PushesAdvance(g, Outcome(v, false, {}, true))
  {
  }

  lemma DeleteProc(s: Sys, p: ProcId)
    requires Enabled(s, Delete(p)) && p.PullId? && ProcOk(p, s.procs[p])
    ensures var proc := s.procs[p].(phase := Done); ProcOk(p, proc) && !Held(proc)
    ensures var t := Step(s, Delete(p));
            Moved(s, t, p, s.procs[p].(phase := Done), DelPull(s.groups[s.procs[p].group], p.n)) && t.tokens == s.tokens
  {
    hide DelPull;
  }

  lemma DeleteKeepsInv(s: Sys, p: ProcId)
    requires Inv(s) && Enabled(s, Delete(p)) && p.PullId?
    ensures Inv(Step(s, Delete(p)))
  {
    hide SlotsOk, ProcsOk, OwnerOk, SessionsOk, PushesOk, Step, DelPull, ProcOk, Moved, Healthy, Held;
    var was := s.procs[p];
    var v := DelPull(s.groups[was.group], p.n);
    var t := Step(s, Delete(p));
    GroupIsHealthy(s, was.group);
    RunsAcquired(s, p);
    SlotsBound(s);
    DeleteProc(s, p);
    DelPullAdvances(s.groups[was.group], p.n);
    DelPullKeepsHealthy(s.groups[was.group], p.n);
    DeleteKeepsSessions(s, t, p, was.(phase := Done));
    SessionMoveKeepsRest(s, t, p, was.(phase := Done), Outcome(v, false, {}, true));
  }

  lemma StepKeepsInv(s: Sys, l: Label)
    requires Inv(s) && Enabled(s, l)
    ensures Inv(Step(s, l))
  {
    if l.Call? {
      CallKeepsInv(s, l.g, l.op, l.now);
    } else if l.Callback? {
      CallbackKeepsInv(s, l.p);
    } else if IsOwnMove(l) {
      OwnMoveKeepsInv(s, l);
    } else if l.p.PushId? {
      PushRegionKeepsInv(s, l);
    } else if l.Delete? {
      DeleteKeepsInv(s, l.p);
    } else {
      PullRegionKeepsInv(s, l);
    }
  }

  lemma {:induction false} RunKeepsInv(s: Sys, ls: seq<Label>)
    requires Inv(s) && Runs(s, ls)
    ensures Inv(After(s, ls))
    decreases |ls|
  {
    hide Inv, Step, Enabled;
    if ls != [] {
      StepKeepsInv(s, ls[0]);
      RunKeepsInv(Step(s, ls[0]), ls[1..]);
    }
  }
}