/** What the relay goroutines keep in every run, from the invariants of
    RelayProtocol: inputs, handshake slots, the pull flag, the retry limit,
    pull sessions and push targets. */
module RelayTheorems {
  import opened Bytes
  import opened RelayGroup
  import opened RelayProtocol

  // ------------------------------------------------------------- inputs

  lemma Reachable(s: Sys, ls: seq<Label>)
    requires Initial(s) && Runs(s, ls)
    ensures Inv(After(s, ls))
  {
    hide Initial, Inv, Step, Enabled;
    InitialInv(s);
    RunKeepsInv(s, ls);
  }

  /** In every run a group has at most one of its five input sessions, and
      without one it has no remuxer, no dummy-audio filter and no hook. */
  lemma AtMostOneInput(s: Sys, ls: seq<Label>, g: nat)
    requires Initial(s) && Runs(s, ls) && g in After(s, ls).groups
    ensures var v := After(s, ls).groups[g];
            && Inputs(v) <= 1 && (!HasIn(v) ==> Quiet(v))
  {
    hide Initial, Runs, Step, Enabled, After, SlotsOk, ProcsOk, SessionsOk, PushesOk;
    Reachable(s, ls);
  }

  // -------------------------------------------------------------- slots

  function Inside(s: Sys): set<ProcId> {
    set p | p in s.procs && s.procs[p].phase == Starting
  }

  lemma SubsetIsSmaller<T>(a: set<T>, b: set<T>)
    requires a <= b
    ensures |a| <= |b|
  {
    assert b == a + (b - a);
  }

  /** In every run the semaphore holds exactly one token for each goroutine,
      pull or push, that has taken a slot and not given it back; so at most
      `slots` of them are inside Start, a goroutine that has ended keeps none,
      and when none is between taking and giving back the semaphore is empty. */
  lemma SlotsAreConserved(s: Sys, ls: seq<Label>)
    requires Initial(s) && Runs(s, ls)
    ensures var t := After(s, ls);
            && t.tokens == |Holders(t)| <= t.slots
            && Inside(t) <= Holders(t) && |Inside(t)| <= t.slots
            && (forall p :: p in t.procs && (t.procs[p].phase == Done || t.procs[p].phase == Waiting) ==> p !in Holders(t))
            && ((forall p :: p in t.procs ==> !HasSlot(t.procs[p].phase)) ==> t.tokens == 0)
  {
    hide Initial, Runs, Step, Enabled, After, OwnerOk, SessionsOk, PushesOk;
    Reachable(s, ls);
    var t := After(s, ls);
    SubsetIsSmaller(Inside(t), Holders(t));
    if forall p :: p in t.procs ==> !HasSlot(t.procs[p].phase) {
      assert Holders(t) == {};
    }
  }

  /** Every exit path gives its slot back, and finds one to give: the receive's
      default branch is never taken in any run. */
  lemma EveryReleaseTakesAToken(s: Sys, ls: seq<Label>, p: ProcId)
    requires Initial(s) && Runs(s, ls) && Enabled(After(s, ls), Release(p))
    ensures var t := After(s, ls);
            t.tokens > 0 && Step(t, Release(p)).tokens == t.tokens - 1 && p !in Holders(Step(t, Release(p)))
  {
    hide Initial, Runs, After, Inv;
    Reachable(s, ls);
    ReleaseFindsAToken(After(s, ls), p);
  }

  // ----------------------------------------------------------- the flag

  /** How far a goroutine is from its end; an attempt that may hold the flag is
      at 3 or more. */
  function Rank(phase: Phase): nat {
    match phase
    case Queued => 7
    case Granted => 6
    case Starting => 5
    case Returned => 4
    case TimedOut => 3
    case Failed => 3
    case Ready => 3
    case Waiting => 2
    case Exited => 1
    case Cancelled => 1
    case Done => 0
  }

  predicate IsMoveOf(l: Label, p: ProcId) {
    !l.Call? && !l.Callback? && l.p == p
  }

  /** How many steps of a run are steps of `p`'s own goroutine. */
  function MovesOf(ls: seq<Label>, p: ProcId): nat {
    if ls == [] then 0 else B2N(IsMoveOf(ls[0], p)) + MovesOf(ls[1..], p)
  }

  /** A goroutine after a step of its own, or after its callback. */
  function MoveOf(v: State, p: ProcId, proc: Proc, l: Label): Proc {
    match l
    case Acquire(_) => OwnMove(p, proc, l)
    case WaitTimeout(_) => OwnMove(p, proc, l)
    case StartReturns(_, _) => OwnMove(p, proc, l)
    case Release(_) => OwnMove(p, proc, l)
    case SecondCheck(_) => proc.(phase := if Owns(v, p.n) then Starting else Cancelled)
    case Callback(_) => proc.(called := true, added := AddPull(v, p.n, proc.rtmp).ok)
    case PushAdded(_) => proc.(phase := Waiting)
    case SessionEnds(_, _, _) => proc.(phase := Exited)
    case _ => proc.(phase := Done)
  }

  /** Which goroutines a step changes, and how. */
  lemma StepProc(s: Sys, l: Label, p: ProcId)
    requires ProcsOk(s) && Enabled(s, l) && p in s.procs
    ensures p in Step(s, l).procs && s.procs[p].group in s.groups
    ensures Step(s, l).procs[p] == if !l.Call? && l.p == p then MoveOf(s.groups[s.procs[p].group], p, s.procs[p], l) else s.procs[p]
  {
    hide Apply, AddPull, DelPull, OnPullStartFailed, OnPullSessionExited, GiveUpState, Pushers, Pullers;
    if l.Call? {
      CommitKeeps(s, l.g, Apply(s.groups[l.g], l.op, l.now, s.next), p);
    } else if l.Callback? {
      CommitKeeps(s, s.procs[l.p].group, AddPull(s.groups[s.procs[l.p].group], l.p.n, s.procs[l.p].rtmp), p);
    }
    hide Commit, ProcOk;
  }

  lemma CommitKeeps(s: Sys, g: nat, o: Outcome, p: ProcId)
    requires ProcsOk(s) && p in s.procs
    ensures p in Commit(s, g, o).procs && Commit(s, g, o).procs[p] == s.procs[p]
  {
    hide ProcOk;
  }

  lemma MoveRanks(s: Sys, l: Label)
    requires Enabled(s, l) && !l.Call? && ProcOk(l.p, s.procs[l.p])
    ensures var was := s.procs[l.p];
            var proc := MoveOf(s.groups[was.group], l.p, was, l);
            Rank(proc.phase) + B2N(!l.Callback?) <= Rank(was.phase) && proc.group == was.group
  {
    hide AddPull, Owns, Held, Attempting;
  }

  lemma StepRanks(s: Sys, l: Label, p: ProcId)
    requires ProcsOk(s) && Enabled(s, l) && p in s.procs
    ensures p in Step(s, l).procs
    ensures Rank(Step(s, l).procs[p].phase) + B2N(IsMoveOf(l, p)) <= Rank(s.procs[p].phase)
    ensures Step(s, l).procs[p].group == s.procs[p].group
  {
    StepProc(s, l, p);
    RunsAcquired(s, p);
    hide Step, ProcsOk, ProcOk, MoveOf, Rank;
    if !l.Call? && l.p == p {
      MoveRanks(s, l);
    }
  }

  /** Every step of a goroutine brings it nearer to its end and no step of any
      other takes it back: it makes at most seven steps in any run. */
  lemma {:induction false} GoroutinesEnd(s: Sys, ls: seq<Label>, p: ProcId)
    requires Inv(s) && Runs(s, ls) && p in s.procs
    ensures p in After(s, ls).procs && After(s, ls).procs[p].group == s.procs[p].group
    ensures Rank(After(s, ls).procs[p].phase) + MovesOf(ls, p) <= Rank(s.procs[p].phase)
    decreases |ls|
  {
    hide SlotsOk, ProcsOk, OwnerOk, SessionsOk, PushesOk, Step, Enabled, Rank;
    if ls != [] {
      StepKeepsInv(s, ls[0]);
      StepRanks(s, ls[0], p);
      GoroutinesEnd(Step(s, ls[0]), ls[1..], p);
    }
  }

  /** In every run, a raised pull flag names an attempt of the group that has
      not ended. */
  lemma FlagNamesALiveAttempt(s: Sys, ls: seq<Label>, g: nat)
    requires Initial(s) && Runs(s, ls)
    requires g in After(s, ls).groups && After(s, ls).groups[g].proxy.isPulling
    ensures var t := After(s, ls);
            var id := t.groups[g].proxy.pullingId;
            && id.Some?
            && PullId(id.value) in t.procs
            && t.procs[PullId(id.value)].group == g
            && Attempting(t.procs[PullId(id.value)])
            && t.procs[PullId(id.value)].phase != Done
  {
    hide Initial, Runs, Step, Enabled, After, SlotsOk, ProcsOk, SessionsOk, PushesOk;
    Reachable(s, ls);
  }

  function NextMove(p: ProcId, phase: Phase): Label {
    match phase
    case Queued => WaitTimeout(p)
    case Granted => SecondCheck(p)
    case Starting => StartReturns(p, false)
    case Returned => Release(p)
    case _ => GiveUp(p, 0)
  }

  /** The group cannot wedge: whoever holds the flag can always take a step of
      its own, and within five steps of its own the flag is no longer its. */
  lemma TheFlagComesDown(s: Sys, ls: seq<Label>, g: nat, id: nat)
    requires Inv(s) && Runs(s, ls) && g in s.groups && Owns(s.groups[g], id)
    ensures PullId(id) in s.procs && Enabled(s, NextMove(PullId(id), s.procs[PullId(id)].phase))
    ensures g in After(s, ls).groups
    ensures MovesOf(ls, PullId(id)) >= 5 ==> !Owns(After(s, ls).groups[g], id)
  {
    hide Inv, Runs, After, Step, Enabled, Rank, Attempting, NextMove;
    var p := PullId(id);
    OwnerIsLive(s, g, id);
    GoroutinesEnd(s, ls, p);
    RunKeepsInv(s, ls);
    GroupsStay(After(s, ls), p);
    RankIsAtMost7(s.procs[p].phase);
    if Owns(After(s, ls).groups[g], id) {
      OwnerIsLive(After(s, ls), g, id);
    }
  }

  lemma GroupsStay(s: Sys, p: ProcId)
    requires Inv(s) && p in s.procs
    ensures s.procs[p].group in s.groups
  {
    hide SlotsOk, OwnerOk, SessionsOk, PushesOk, ProcOk;
  }

  lemma RankIsAtMost7(phase: Phase)
    ensures Rank(phase) <= 7
  {
  }

  lemma OwnerIsLive(s: Sys, g: nat, id: nat)
    requires Inv(s) && g in s.groups && Owns(s.groups[g], id)
    ensures var p := PullId(id);
            && p in s.procs && s.procs[p].group == g && Attempting(s.procs[p])
            && 3 <= Rank(s.procs[p].phase) && Enabled(s, NextMove(p, s.procs[p].phase))
  {
    hide SlotsOk, SessionsOk, PushesOk, Healthy;
    assert ProcOk(PullId(id), s.procs[PullId(id)]);
  }

  // ------------------------------------------------------------ retries

  /** A call that ends in a stopPull of group `g`. */
  predicate Stops(s: Sys, l: Label, g: nat)
    requires Enabled(s, l)
  {
    l.Call? && l.g == g && StopsGroup(s.groups[g], l.op, l.now)
  }

  predicate StopsGroup(v: State, op: Op, now: nat) {
    match op
    case StopPull => true
    case KickPull(id) => v.rtmpPull == Some(id) || v.rtspPull == Some(id)
    case Tick => ShouldAutoStop(Seen(v, now), now)
    case _ => false
  }

  /** A stretch of a run without a stopPull of `g`, its retry number staying R. */
  predicate Steady(s: Sys, ls: seq<Label>, g: nat, R: nat)
    requires Runs(s, ls)
    decreases |ls|
  {
    && g in s.groups && s.groups[g].proxy.retryNum == R
    && (ls != [] ==> !Stops(s, ls[0], g) && Steady(Step(s, ls[0]), ls[1..], g, R))
  }

  /** The step by which a goroutine of `g` enters Start. */
  predicate Starts(s: Sys, l: Label, g: nat)
    requires Enabled(s, l)
  {
    l.SecondCheck? && s.procs[l.p].group == g && Step(s, l).procs[l.p].phase == Starting
  }

  function StartsOf(s: Sys, ls: seq<Label>, g: nat): nat
    requires Runs(s, ls)
    decreases |ls|
  {
    if ls == [] then 0 else B2N(Starts(s, ls[0], g)) + StartsOf(Step(s, ls[0]), ls[1..], g)
  }

  predicate Uncounted(s: Sys, p: ProcId) {
    p in s.procs && (s.procs[p].phase == Queued || s.procs[p].phase == Granted)
  }

  /** No more than R + 1 starts are counted, and an attempt that is not yet
      counted found room for one more. */
  predicate Budget(s: Sys, g: nat, R: nat)
    requires g in s.groups
  {
    var v := s.groups[g].proxy;
    && v.startCount <= R + 1
    && (v.isPulling && v.pullingId.Some? && Uncounted(s, PullId(v.pullingId.value)) ==> v.startCount <= R)
  }

  lemma JoinsKeepProxy(v: State)
    ensures JoinRtmp(v).state.proxy == JoinRtsp(v).state.proxy == v.proxy
    ensures StartPushes(v).proxy == DelIn(v).proxy == v.proxy
    ensures !JoinRtmp(v).pulled && !JoinRtsp(v).pulled
  {
    hide ToPush;
  }

  lemma AddsKeepProxy(v: State, id: nat, name: string)
    ensures AddRtmp(v, id).state.proxy == v.proxy && !AddRtmp(v, id).pulled
    ensures AddRtsp(v, id).state.proxy == v.proxy && !AddRtsp(v, id).pulled
    ensures AddCustomize(v, id, name).state.proxy == v.proxy && !AddCustomize(v, id, name).pulled
  {
    hide JoinRtmp, JoinRtsp, DelIn, StartPushes, HasIn, OnlyCustomize;
    JoinsKeepProxy(v);
    JoinsKeepProxy(v.(rtmpPub := Some(id)));
    JoinsKeepProxy(v.(rtspPub := Some(id)));
    JoinsKeepProxy(v.(customizePub := Some(Customize(id, name))));
    JoinsKeepProxy(DelIn(v).(customizePub := Some(Customize(id, name))));
  }

  lemma AttemptIsInBudget(v: State, now: nat, uk: nat)
    ensures var o := PullIfNeeded(v, now, uk);
            && o.state.proxy.startCount == v.proxy.startCount && o.state.proxy.retryNum == v.proxy.retryNum
            && (o.pulled && v.proxy.retryNum >= 0 ==> v.proxy.startCount <= v.proxy.retryNum)
  {
    hide HasIn, ShouldAutoStop;
  }

  /** The start count is kept, and an attempt spawned found it within the limit. */
  predicate Counts(v: State, o: Outcome) {
    && o.state.proxy.startCount == v.proxy.startCount
    && (o.pulled && o.state.proxy.retryNum >= 0 ==> v.proxy.startCount <= o.state.proxy.retryNum)
  }

  lemma StartPullCounts(v: State, req: StartPullReq, now: nat, uk: nat)
    ensures Counts(v, StartPullAt(v, req, now, uk))
  {
    hide PullIfNeeded;
    AttemptIsInBudget(ResetBackoff(v.(proxy := v.proxy.(
                                        apiEnable := true, url := req.url, retryNum := req.retryNum, autoStopMs := req.autoStopMs))), now, uk);
  }

  lemma TickCounts(v: State, now: nat, uk: nat)
    requires !ShouldAutoStop(Seen(v, now), now)
    ensures Counts(v, TickAll(v, now, uk))
  {
    hide PullIfNeeded, ShouldAutoStop, HasSub, StartPushes, ToPush;
    AttemptIsInBudget(Seen(v, now), now, uk);
    JoinsKeepProxy(TickPull(v, now, uk).state);
  }

  lemma SubsCount(v: State, sub: Sub, now: nat, uk: nat)
    ensures Counts(v, PullIfNeeded(v.(subs := v.subs + {sub}), now, uk))
    ensures Counts(v, Outcome(v.(subs := v.subs + {sub}), false, {}, true))
    ensures Counts(v, Outcome(v.(subs := v.subs - {sub}), false, {}, true))
  {
    hide PullIfNeeded;
    AttemptIsInBudget(v.(subs := v.subs + {sub}), now, uk);
  }

  lemma AddsCount(v: State, id: nat, name: string)
    ensures Counts(v, AddRtmp(v, id)) && Counts(v, AddRtsp(v, id)) && Counts(v, AddCustomize(v, id, name))
  {
    hide AddRtmp, AddRtsp, AddCustomize;
    AddsKeepProxy(v, id, name);
  }

  lemma DelsCount(v: State, id: nat)
    ensures Counts(v, Outcome(DelRtmp(v, id), false, {}, true)) && Counts(v, Outcome(DelRtsp(v, id), false, {}, true))
    ensures Counts(v, Outcome(DelCustomize(v, id), false, {}, true)) && Counts(v, Outcome(DisposeAll(v), false, {}, true))
  {
    hide DelIn;
    JoinsKeepProxy(v);
    JoinsKeepProxy(v.(subs := set s | s in v.subs && s.hls));
  }

  lemma CallCounts(v: State, op: Op, now: nat, uk: nat)
    requires !StopsGroup(v, op, now)
    ensures Counts(v, Apply(v, op, now, uk))
  {
    if op.KickPull? {
      assert Kick(v, op.id) == Outcome(v, false, {}, false);
    }
    hide Counts, PullIfNeeded, AddRtmp, AddRtsp, AddCustomize, DelRtmp, DelRtsp, DelCustomize, DisposeAll, TickAll, StartPullAt,
      ShouldAutoStop, Seen, StopPulling;
    match op
    case StartPull(req) => StartPullCounts(v, req, now, uk);
    case Tick => TickCounts(v, now, uk);
    case AddSub(sub) => SubsCount(v, sub, now, uk);
    case DescribeSub(sub) => SubsCount(v, sub, now, uk);
    case DelSub(sub) => SubsCount(v, sub, now, uk);
    case AddRtmpPub(id) => AddsCount(v, id, "");
    case AddRtspPub(id) => AddsCount(v, id, "");
    case AddCustomizePub(id, name) => AddsCount(v, id, name);
    case DelRtmpPub(id) => DelsCount(v, id);
    case DelRtspPub(id) => DelsCount(v, id);
    case DelCustomizePub(id) => DelsCount(v, id);
    case Dispose => DelsCount(v, 0);
    case KickPull(_) => RefusalCounts(v);
  }

  lemma RefusalCounts(v: State)
    ensures Counts(v, Outcome(v, false, {}, false))
  {
  }

  lemma AddPullKeepsCount(v: State, id: nat, rtmp: bool)
    ensures AddPull(v, id, rtmp).state.proxy.startCount == v.proxy.startCount
  {
    hide HasIn, JoinRtmp, JoinRtsp;
    var h := if Owns(v, id) then ResetBackoff(ClearFlag(v)) else v;
    JoinsKeepProxy(h.(rtmpPull := Some(id)));
    JoinsKeepProxy(h.(rtspPull := Some(id)));
  }

  lemma DelPullKeepsCount(v: State, id: nat)
    ensures DelPull(v, id).proxy.startCount == v.proxy.startCount
  {
    hide DelIn;
    JoinsKeepProxy(ClearFlag(v).(rtmpPull := None, rtspPull := None));
  }

  lemma EndsKeepCount(v: State, id: nat, err: bool, now: nat)
    ensures OnPullStartFailed(v, id, now).proxy.startCount == v.proxy.startCount
    ensures OnPullSessionExited(v, id, err, now).proxy.startCount == v.proxy.startCount
  {
    hide PullKey, NextBackoff;
  }

  lemma PushKeepsProxy(v: State, url: string, id: nat)
    ensures AddPush(v, url, id).proxy == DelPush(v, url).proxy == ClearPushing(v, url).proxy == v.proxy
  {
  }

  /** The group that a goroutine's step leaves behind. */
  function RegionOf(v: State, p: ProcId, proc: Proc, l: Label): State {
    match l
    case GiveUp(_, now) => GiveUpState(v, p, proc.phase, now)
    case SecondCheck(_) => if p.PullId? then Confirm(v, p.n).state else v
    case Callback(_) => AddPull(v, p.n, proc.rtmp).state
    case PushAdded(_) => if p.PushId? then AddPush(v, p.url, p.n) else v
    case SessionEnds(_, err, now) => if p.PullId? then OnPullSessionExited(v, p.n, err, now) else v
    case Delete(_) => if p.PullId? then DelPull(v, p.n) else DelPush(v, p.url)
    case _ => v
  }

  lemma StepRegion(s: Sys, l: Label, g: nat)
    requires Enabled(s, l) && g in s.groups
    ensures g in Step(s, l).groups
    ensures var v := s.groups[g];
            Step(s, l).groups[g] ==
            (if l.Call? then (if l.g == g then Apply(v, l.op, l.now, s.next).state else v)
             else if s.procs[l.p].group == g then RegionOf(v, l.p, s.procs[l.p], l) else v)
  {
    hide Apply, AddPull, DelPull, OnPullStartFailed, OnPullSessionExited, Confirm, AddPush, DelPush, GiveUpState, Pushers, Pullers;
  }

  lemma StepCounts(s: Sys, l: Label, g: nat)
    requires Enabled(s, l) && g in s.groups && !Stops(s, l, g)
    ensures g in Step(s, l).groups
    ensures Step(s, l).groups[g].proxy.startCount == s.groups[g].proxy.startCount + B2N(Starts(s, l, g))
  {
    hide Apply, AddPull, DelPull, OnPullStartFailed, OnPullSessionExited, AddPush, DelPush, ClearPushing, StopsGroup, Commit;
    var v := s.groups[g];
    StepRegion(s, l, g);
    if l.Call? {
      if l.g == g {
        CallCounts(v, l.op, l.now, s.next);
      }
    } else {
      var n := l.p.n;
      AddPullKeepsCount(v, n, s.procs[l.p].rtmp);
      DelPullKeepsCount(v, n);
      EndsKeepCount(v, n, l.SessionEnds? && l.err, if l.GiveUp? || l.SessionEnds? then l.now else 0);
      if l.p.PushId? {
        PushKeepsProxy(v, l.p.url, n);
      }
    }
  }

  /** The step by which an attempt of `g` is spawned. */
  predicate Spawns(s: Sys, l: Label, g: nat)
    requires Enabled(s, l)
  {
    l.Call? && l.g == g && Apply(s.groups[g], l.op, l.now, s.next).pulled
  }

  lemma OwnedBefore(s: Sys, l: Label, g: nat, id: nat)
    requires Inv(s) && Enabled(s, l) && g in s.groups && g in Step(s, l).groups && !Spawns(s, l, g)
    requires Owns(Step(s, l).groups[g], id)
    ensures Owns(s.groups[g], id)
  {
    hide SlotsOk, ProcsOk, SessionsOk, PushesOk, Apply, AddPull, DelPull, OnPullStartFailed, OnPullSessionExited, Confirm;
    hide Healthy, PushesAdvance, SamePulls, AddPush, DelPush, ClearPushing;
    GroupIsHealthy(s, g);
    StepRegion(s, l, g);
    var v := s.groups[g];
    hide OwnerOk, Step, Inputs;
    match l {
      case Call(_, op, now) => ApplyEffect(v, op, now, s.next);
      case Callback(p) => AddPullEffect(v, p.n, s.procs[p].rtmp);
      case Delete(p) => DelPullAdvances(v, p.n);
        if p.PushId? {
          PushKeepsProxy(v, p.url, p.n);
        }
      case GiveUp(p, now) => FailureLowers(v, p.n, now);
        if p.PushId? {
          PushKeepsProxy(v, p.url, p.n);
        }
      case SessionEnds(p, err, now) => ExitKeeps(v, p.n, err, now);
      case SecondCheck(p) => ConfirmKeeps(v, p.n);
      case PushAdded(p) => PushKeepsProxy(v, p.url, p.n);
      case _ =>
    }
  }

  lemma UncountedBefore(s: Sys, l: Label, p: ProcId)
    requires ProcsOk(s) && Enabled(s, l) && p in s.procs && p.PullId? && Uncounted(Step(s, l), p)
    ensures Uncounted(s, p) && (l.SecondCheck? ==> l.p != p)
  {
    StepProc(s, l, p);
    RunsAcquired(s, p);
    hide Step, ProcsOk, AddPull, Owns;
  }

  /** An attempt still uncounted after a step that spawned none in its group
      was uncounted before, and that step was not a start of the group. */
  lemma StillUncounted(s: Sys, l: Label, g: nat, id: nat)
    requires Inv(s) && Enabled(s, l) && g in s.groups && g in Step(s, l).groups && !Spawns(s, l, g)
    requires Owns(Step(s, l).groups[g], id) && Uncounted(Step(s, l), PullId(id))
    ensures Owns(s.groups[g], id) && Uncounted(s, PullId(id)) && !Starts(s, l, g)
  {
    hide SlotsOk, ProcsOk, OwnerOk, SessionsOk, PushesOk, Step, Enabled, Uncounted, Attempting;
    OwnedBefore(s, l, g, id);
    OwnerIsLive(s, g, id);
    UncountedBefore(s, l, PullId(id));
    if Starts(s, l, g) {
      OnlyTheOwnerStarts(s, l, g, id);
    }
  }

  lemma SpawnBudget(s: Sys, l: Label, g: nat, R: nat)
    requires Enabled(s, l) && g in s.groups && !Stops(s, l, g) && Spawns(s, l, g)
    requires g in Step(s, l).groups && Step(s, l).groups[g].proxy.retryNum == R
    ensures Step(s, l).groups[g].proxy.startCount <= R
  {
    hide Step, Apply, StopsGroup;
    SpawnsThere(s, l, g);
    CallCounts(s.groups[g], l.op, l.now, s.next);
  }

  lemma BudgetStays(s: Sys, l: Label, g: nat, R: nat)
    requires Inv(s) && Enabled(s, l) && g in s.groups && !Stops(s, l, g)
    requires g in Step(s, l).groups && Step(s, l).groups[g].proxy.retryNum == R && Budget(s, g, R)
    ensures Budget(Step(s, l), g, R)
  {
    hide Inv, Step, Enabled, Uncounted, Apply, Stops, Spawns, Starts;
    var t := Step(s, l);
    var w := t.groups[g].proxy;
    if Spawns(s, l, g) {
      SpawnBudget(s, l, g, R);
    } else {
      StepCounts(s, l, g);
      StartsUnderBudget(s, l, g, R);
      if w.isPulling && w.pullingId.Some? && Uncounted(t, PullId(w.pullingId.value)) {
        StillUncounted(s, l, g, w.pullingId.value);
      }
    }
  }

  lemma SpawnsThere(s: Sys, l: Label, g: nat)
    requires Enabled(s, l) && Spawns(s, l, g)
    ensures g in Step(s, l).groups && Step(s, l).groups[g] == Apply(s.groups[g], l.op, l.now, s.next).state
  {
  }

  lemma OnlyTheOwnerStarts(s: Sys, l: Label, g: nat, id: nat)
    requires Inv(s) && Enabled(s, l) && g in s.groups && Starts(s, l, g) && Owns(s.groups[g], id)
    ensures l.p == PullId(id)
  {
  }

  lemma StartsUnderBudget(s: Sys, l: Label, g: nat, R: nat)
    requires Inv(s) && Enabled(s, l) && g in s.groups && Budget(s, g, R)
    ensures s.groups[g].proxy.startCount + B2N(Starts(s, l, g)) <= R + 1
  {
  }

  lemma {:induction false} SteadyStarts(s: Sys, ls: seq<Label>, g: nat, R: nat)
    requires Inv(s) && Runs(s, ls) && Steady(s, ls, g, R) && Budget(s, g, R)
    ensures s.groups[g].proxy.startCount + StartsOf(s, ls, g) <= R + 1
    decreases |ls|
  {
    hide Inv, Step, Enabled, Budget, Starts, Stops;
    if ls == [] {
      BudgetBound(s, g, R);
    } else {
      StepKeepsInv(s, ls[0]);
      StepCounts(s, ls[0], g);
      BudgetStays(s, ls[0], g, R);
      SteadyStarts(Step(s, ls[0]), ls[1..], g, R);
    }
  }

  lemma BudgetBound(s: Sys, g: nat, R: nat)
    requires g in s.groups && Budget(s, g, R)
    ensures s.groups[g].proxy.startCount <= R + 1
  {
  }

  /** With a fixed retry number R, at most R + 1 goroutines of a group enter
      Start between one stopPull and the next, whatever else happens. */
  lemma StartsAreBounded(s: Sys, stop: Label, ls: seq<Label>, g: nat, R: nat)
    requires Inv(s) && Enabled(s, stop) && g in s.groups && Stops(s, stop, g)
    requires Runs(Step(s, stop), ls) && Steady(Step(s, stop), ls, g, R)
    ensures StartsOf(Step(s, stop), ls, g) <= R + 1
  {
    var t := Step(s, stop);
    StepKeepsInv(s, stop);
    StopClears(s.groups[g], stop.op, stop.now, s.next);
    StepRegion(s, stop, g);
    hide Inv, Step, Enabled, Apply, StopsGroup;
    SteadyStarts(t, ls, g, R);
  }

  lemma StopClears(v: State, op: Op, now: nat, uk: nat)
    requires StopsGroup(v, op, now)
    ensures var w := Apply(v, op, now, uk).state.proxy; w.startCount == 0 && !w.isPulling
  {
    hide HasSub, ToPush, ShouldAutoStop;
  }

  /** The same from any state in which no start is counted, such as the one
      that a group's first StartPull leaves. */
  lemma StartsFromZero(s: Sys, ls: seq<Label>, g: nat, R: nat)
    requires Inv(s) && g in s.groups && Runs(s, ls) && Steady(s, ls, g, R) && s.groups[g].proxy.startCount == 0
    ensures StartsOf(s, ls, g) <= R + 1
  {
    hide Inv, Step, Enabled;
    SteadyStarts(s, ls, g, R);
  }

  // ------------------------------------------------------ pull sessions

  predicate InGroup(v: State, id: nat) {
    v.rtmpPull == Some(id) || v.rtspPull == Some(id)
  }

  /** In every run, an attempt's session is in its group exactly while the
      attempt has added it and, unless its Start failed, not yet ended. */
  lemma SessionIffHeld(s: Sys, ls: seq<Label>, id: nat)
    requires Initial(s) && Runs(s, ls) && PullId(id) in After(s, ls).procs
    ensures var t := After(s, ls);
            var proc := t.procs[PullId(id)];
            proc.group in t.groups
            && (InGroup(t.groups[proc.group], id) <==> proc.added && (proc.phase != Done || proc.failed))
  {
    hide Initial, Runs, Step, Enabled, After, SlotsOk, ProcsOk, OwnerOk, PushesOk;
    Reachable(s, ls);
    assert PullId(id).PullId? && SessionOk(After(s, ls), id);
  }

  /** A goroutine that has ended and whose callback has run never changes. */
  lemma {:induction false} EndedStays(s: Sys, ls: seq<Label>, p: ProcId)
    requires Inv(s) && Runs(s, ls) && p in s.procs && s.procs[p].phase == Done && s.procs[p].called
    ensures p in After(s, ls).procs && After(s, ls).procs[p] == s.procs[p]
    decreases |ls|
  {
    if ls != [] {
      StepKeepsInv(s, ls[0]);
      EndedStep(s, ls[0], p);
      hide Inv, Step, Enabled;
      EndedStays(Step(s, ls[0]), ls[1..], p);
    }
  }

  lemma EndedStep(s: Sys, l: Label, p: ProcId)
    requires ProcsOk(s) && Enabled(s, l) && p in s.procs && s.procs[p].phase == Done && s.procs[p].called
    ensures p in Step(s, l).procs && Step(s, l).procs[p] == s.procs[p]
  {
    StepProc(s, l, p);
    hide Step, ProcsOk, MoveOf;
  }

  /** A leak: once an attempt has added its session and its Start fails after
      that, no step of any run takes the session out again, so the group
      refuses every publisher and starts no pull for ever. */
  lemma FailedAfterAddBlocksForEver(s: Sys, ls: seq<Label>, id: nat)
    requires Inv(s) && Runs(s, ls) && PullId(id) in s.procs
    requires s.procs[PullId(id)].phase == Done && s.procs[PullId(id)].added && s.procs[PullId(id)].failed
    ensures var t := After(s, ls);
            var g := s.procs[PullId(id)].group;
            && g in t.groups && InGroup(t.groups[g], id)
            && forall op: Op, now: nat, uk: nat ::
                 var o := Apply(t.groups[g], op, now, uk);
                 !o.pulled && (op.AddRtmpPub? || op.AddRtspPub? || op.AddCustomizePub? ==> !o.ok)
  {
    var p := PullId(id);
    assert ProcOk(p, s.procs[p]);
    EndedStays(s, ls, p);
    RunKeepsInv(s, ls);
    var t := After(s, ls);
    hide Runs, After, Step, Enabled;
    assert SessionOk(t, id);
    var v := t.groups[s.procs[p].group];
    forall op: Op, now: nat, uk: nat
      ensures var o := Apply(v, op, now, uk);
              !o.pulled && (op.AddRtmpPub? || op.AddRtspPub? || op.AddCustomizePub? ==> !o.ok)
    {
      GroupIsHealthy(t, s.procs[p].group);
      hide Inv;
      PulledRefuses(v, op, now, uk);
    }
  }

  /** The callback of an attempt that has already failed and ended may still come, and
      if the group has no input then, it leaves that state behind. */
  lemma LateCallbackLeaks(s: Sys, id: nat)
    requires Inv(s) && PullId(id) in s.procs
    requires s.procs[PullId(id)].phase == Done && s.procs[PullId(id)].failed && !s.procs[PullId(id)].called
    ensures var p := PullId(id);
            && Enabled(s, Callback(p))
            && (!HasIn(s.groups[s.procs[p].group]) ==>
                  var t := Step(s, Callback(p));
                  && p in t.procs && t.procs[p] == s.procs[p].(called := true, added := true)
                  && t.procs[p].group in t.groups && InGroup(t.groups[t.procs[p].group], id))
  {
    var p := PullId(id);
    var g := s.procs[p].group;
    LateIsEnabled(s, p);
    hide Inv, Enabled, Step, ProcsOk, OwnerOk, HasIn, InGroup, AddPull;
    GroupIsHealthy(s, g);
    CallbackStep(s, p);
    if !HasIn(s.groups[g]) {
      FreeJoins(s.groups[g], id, s.procs[p].rtmp);
    }
  }

  lemma LateIsEnabled(s: Sys, p: ProcId)
    requires Inv(s) && p in s.procs && p.PullId? && s.procs[p].failed && !s.procs[p].called
    ensures ProcsOk(s) && OwnerOk(s) && Enabled(s, Callback(p)) && s.procs[p].group in s.groups
  {
    hide SlotsOk, SessionsOk, PushesOk, ProcOk, Healthy, Attempting;
  }

  lemma CallbackStep(s: Sys, p: ProcId)
    requires ProcsOk(s) && Enabled(s, Callback(p))
    ensures var proc := s.procs[p];
            var o := AddPull(s.groups[proc.group], p.n, proc.rtmp);
            && p in Step(s, Callback(p)).procs && Step(s, Callback(p)).procs[p] == proc.(called := true, added := o.ok)
            && proc.group in Step(s, Callback(p)).groups && Step(s, Callback(p)).groups[proc.group] == o.state
  {
    StepProc(s, Callback(p), p);
    StepRegion(s, Callback(p), s.procs[p].group);
    hide Step, ProcsOk, AddPull;
  }

  /** A pull session that finds no input joins. */
  lemma FreeJoins(v: State, id: nat, rtmp: bool)
    requires Healthy(v) && !HasIn(v)
    ensures var o := AddPull(v, id, rtmp); o.ok && InGroup(o.state, id)
  {
    AddPullEffect(v, id, rtmp);
    hide AddPull, PushesAdvance, FlagMoves, Quiet;
  }

  lemma PulledRefuses(v: State, op: Op, now: nat, uk: nat)
    requires Healthy(v) && HasPull(v)
    ensures var o := Apply(v, op, now, uk);
            !o.pulled && (op.AddRtmpPub? || op.AddRtspPub? || op.AddCustomizePub? ==> !o.ok)
  {
    hide HasSub, ShouldAutoStop, ToPush, DelIn, JoinRtmp, JoinRtsp, Quiet;
  }

  function LeakOf(p: ProcId, now: nat): seq<Label> {
    [Acquire(p), SecondCheck(p), Callback(p), StartReturns(p, false), Release(p), GiveUp(p, now)]
  }

  lemma {:induction false} ThenRuns(s: Sys, l: Label, ls: seq<Label>)
    requires Enabled(s, l) && Runs(Step(s, l), ls)
    ensures Runs(s, [l] + ls) && After(s, [l] + ls) == After(Step(s, l), ls)
  {
    hide Step, Enabled;
    assert ([l] + ls)[0] == l && ([l] + ls)[1..] == ls;
  }

  /** The slot, the second check and the callback of the one attempt there is. */
  lemma AttemptAdds(s: Sys, g: nat, id: nat, proc: Proc)
    requires g in s.groups && PullId(id) in s.procs && s.procs[PullId(id)] == NewProc(g, proc.rtmp)
    requires s.tokens < s.slots && Owns(s.groups[g], id) && !HasIn(s.groups[g])
    requires proc == Proc(g, proc.rtmp, Starting, true, true, true, false)
    ensures var p := PullId(id);
            var ls := [Acquire(p), SecondCheck(p), Callback(p)];
            Runs(s, ls) && p in After(s, ls).procs && After(s, ls).procs[p] == proc && After(s, ls).groups.Keys == s.groups.Keys
  {
    var p := PullId(id);
    hide AddPull, HasIn, Pushers, Pullers, Runs, After;
    var s1 := Step(s, Acquire(p));
    assert s1.procs[p].phase == Granted && s1.groups == s.groups;
    var s2 := Step(s1, SecondCheck(p));
    assert s2.procs[p] == proc.(called := false, added := false);
    assert s2.groups[g].(proxy := s.groups[g].proxy) == s.groups[g];
    FreeAdds(s.groups[g], s2.groups[g], id, proc.rtmp);
    var s3 := Step(s2, Callback(p));
    assert s3.procs[p] == proc && s3.groups.Keys == s.groups.Keys;
    hide Step, Enabled;
    RunsNowhere(s3);
    ThenRuns(s2, Callback(p), []);
    assert [Callback(p)] == [Callback(p)] + [];
    ThenRuns(s1, SecondCheck(p), [Callback(p)]);
    assert [SecondCheck(p), Callback(p)] == [SecondCheck(p)] + [Callback(p)];
    ThenRuns(s, Acquire(p), [SecondCheck(p), Callback(p)]);
    assert [Acquire(p), SecondCheck(p), Callback(p)] == [Acquire(p)] + [SecondCheck(p), Callback(p)];
  }

  lemma RunsNowhere(s: Sys)
    ensures Runs(s, []) && After(s, []) == s
  {
  }

  lemma FreeAdds(g: State, h: State, id: nat, rtmp: bool)
    requires !HasIn(g) && h.(proxy := g.proxy) == g
    ensures AddPull(h, id, rtmp).ok
  {
    hide ToPush, AddIn;
  }

  /** The leak happens: from any state in which a group without input has just
      spawned an attempt and a slot is free, a run of that attempt's own steps,
      its Start failing after its callback, ends in it. */
  lemma FailedAfterAddIsReachable(s: Sys, g: nat, id: nat, now: nat)
    requires Inv(s) && g in s.groups && Owns(s.groups[g], id) && !HasIn(s.groups[g])
    requires s.procs[PullId(id)].phase == Queued && s.tokens < s.slots
    ensures var p := PullId(id);
            var ls := LeakOf(p, now);
            && Runs(s, ls) && p in After(s, ls).procs
            && After(s, ls).procs[p].phase == Done && After(s, ls).procs[p].added && After(s, ls).procs[p].failed
  {
    var p := PullId(id);
    OwnerIsLive(s, g, id);
    RunsAcquired(s, p);
    QueuedIsNew(p, s.procs[p], g);
    hide Inv, HasIn, Owns, ProcOk, Step, Enabled, Runs, After, Attempting;
    var proc := Proc(g, s.procs[p].rtmp, Starting, true, true, true, false);
    AttemptAdds(s, g, id, proc);
    AddedThenFails(s, g, p, proc, now);
  }

  /** What a StartPull that never stops for want of viewers makes of a new group. */
  lemma FirstStartPull(v: State, req: StartPullReq, now: nat, created: nat, staticUrl: Option<string>, uk: nat)
    requires v == NewGroup(v.config, v.pushes.Keys, staticUrl, created) && req.autoStopMs < 0
    ensures var o := Apply(v, StartPull(req), now, uk);
            o.pulled && o.pushed == {} && Owns(o.state, uk) && !HasIn(o.state)
  {
    hide HasOut;
  }

  /** And from the start: in every initial system, a StartPull and the steps of
      the attempt it spawns end in the leak. */
  lemma LeakFromTheStart(s: Sys, g: nat, req: StartPullReq, now: nat, later: nat)
    requires Initial(s) && g in s.groups && req.autoStopMs < 0
    ensures var p := PullId(0);
            var ls := [Call(g, StartPull(req), now)] + LeakOf(p, later);
            && Runs(s, ls) && p in After(s, ls).procs
            && After(s, ls).procs[p].group == g && After(s, ls).procs[p].phase == Done
            && After(s, ls).procs[p].added && After(s, ls).procs[p].failed
  {
    var p := PullId(0);
    var l := Call(g, StartPull(req), now);
    var t := Step(s, l);
    InitialInv(s);
    FirstCall(s, g, req, now);
    hide Initial, Step, Apply;
    StepKeepsInv(s, l);
    hide Inv, Enabled;
    FailedAfterAddIsReachable(t, g, 0, later);
    assert Enabled(s, l) by {
      CallIsEnabled(s, g, StartPull(req), now);
    }
    ThenRuns(s, l, LeakOf(p, later));
    SameGroup(t, LeakOf(p, later), p);
  }

  lemma CallIsEnabled(s: Sys, g: nat, op: Op, now: nat)
    requires g in s.groups
    ensures Enabled(s, Call(g, op, now))
  {
  }

  lemma SameGroup(s: Sys, ls: seq<Label>, p: ProcId)
    requires Inv(s) && Runs(s, ls) && p in s.procs
    ensures p in After(s, ls).procs && After(s, ls).procs[p].group == s.procs[p].group
  {
    GoroutinesEnd(s, ls, p);
  }

  lemma FirstCall(s: Sys, g: nat, req: StartPullReq, now: nat)
    requires Initial(s) && g in s.groups && req.autoStopMs < 0
    ensures var t := Step(s, Call(g, StartPull(req), now));
            && g in t.groups && Owns(t.groups[g], 0) && !HasIn(t.groups[g]) && t.tokens < t.slots
            && PullId(0) in t.procs && t.procs[PullId(0)].phase == Queued && t.procs[PullId(0)].group == g
  {
    var v := s.groups[g];
    var staticUrl: Option<string>, created: nat :| v == NewGroup(v.config, v.pushes.Keys, staticUrl, created);
    FirstStartPull(v, req, now, created, staticUrl, 0);
    hide Apply, Owns, HasIn;
    var o := Apply(v, StartPull(req), now, 0);
    assert Pushers(s, g, o.pushed) == map[];
  }

  lemma AddedThenFails(s: Sys, g: nat, p: ProcId, proc: Proc, now: nat)
    requires g in s.groups && p.PullId? && proc.phase == Starting && proc.group == g && proc.added && !proc.failed
    requires var ls := [Acquire(p), SecondCheck(p), Callback(p)];
             Runs(s, ls) && p in After(s, ls).procs && After(s, ls).procs[p] == proc && After(s, ls).groups.Keys == s.groups.Keys
    ensures var ls := LeakOf(p, now);
            && Runs(s, ls) && p in After(s, ls).procs
            && After(s, ls).procs[p].phase == Done && After(s, ls).procs[p].added && After(s, ls).procs[p].failed
  {
    hide Step, Enabled, Runs, After;
    var ls := [Acquire(p), SecondCheck(p), Callback(p)];
    var more := [StartReturns(p, false), Release(p), GiveUp(p, now)];
    AttemptFails(After(s, ls), p, now);
    RunsOn(s, ls, more);
    assert LeakOf(p, now) == ls + more;
  }

  lemma QueuedIsNew(p: ProcId, proc: Proc, g: nat)
    requires ProcOk(p, proc) && proc.phase == Queued && proc.group == g && p.PullId?
    ensures proc == NewProc(g, proc.rtmp)
  {
  }

  lemma AttemptFails(s: Sys, p: ProcId, now: nat)
    requires Known(s, p) && p.PullId? && s.procs[p].phase == Starting && !s.procs[p].failed
    ensures var ls := [StartReturns(p, false), Release(p), GiveUp(p, now)];
            Runs(s, ls) && p in After(s, ls).procs && After(s, ls).procs[p] == s.procs[p].(phase := Done, failed := true, acquired := false)
  {
    hide Runs, After, OnPullStartFailed;
    var s1 := Step(s, StartReturns(p, false));
    var s2 := Step(s1, Release(p));
    assert s2.procs[p].phase == Failed;
    var s3 := Step(s2, GiveUp(p, now));
    assert s3.procs[p] == s.procs[p].(phase := Done, failed := true, acquired := false);
    hide Step, Enabled;
    RunsNowhere(s3);
    ThenRuns(s2, GiveUp(p, now), []);
    assert [GiveUp(p, now)] == [GiveUp(p, now)] + [];
    ThenRuns(s1, Release(p), [GiveUp(p, now)]);
    assert [Release(p), GiveUp(p, now)] == [Release(p)] + [GiveUp(p, now)];
    ThenRuns(s, StartReturns(p, false), [Release(p), GiveUp(p, now)]);
    assert [StartReturns(p, false), Release(p), GiveUp(p, now)] == [StartReturns(p, false)] + [Release(p), GiveUp(p, now)];
  }

  /** Runs compose. */
  lemma {:induction false} RunsOn(s: Sys, ls: seq<Label>, more: seq<Label>)
    requires Runs(s, ls) && Runs(After(s, ls), more)
    ensures Runs(s, ls + more) && After(s, ls + more) == After(After(s, ls), more)
    decreases |ls|
  {
    hide Step, Enabled;
    if ls == [] {
      assert ls + more == more;
    } else {
      RunsOn(Step(s, ls[0]), ls[1..], more);
      assert (ls + more)[1..] == ls[1..] + more;
    }
  }

  // ------------------------------------------------------- push targets

  function PushersOf(s: Sys, g: nat, url: string): set<ProcId> {
    set p | p in s.procs && LivePusher(s, p, g, url)
  }

  /** In every run a push target's flag is up exactly while one goroutine, and
      then only one, pushes to it; a target with a session has such a goroutine,
      and every live one finds its target in the table. */
  lemma PushFlagIffOnePusher(s: Sys, ls: seq<Label>, g: nat, url: string)
    requires Initial(s) && Runs(s, ls) && g in After(s, ls).groups
    ensures var t := After(s, ls);
            && (url in t.groups[g].pushes ==>
                  && |PushersOf(t, g, url)| == B2N(t.groups[g].pushes[url].isPushing)
                  && (t.groups[g].pushes[url].session.Some? ==> t.groups[g].pushes[url].isPushing))
            && (url !in t.groups[g].pushes ==> PushersOf(t, g, url) == {})
  {
    hide Initial, Runs, Step, Enabled, After, SlotsOk, OwnerOk, SessionsOk;
    Reachable(s, ls);
    var t := After(s, ls);
    if url in t.groups[g].pushes {
      assert PushOk(t, g, url);
      if t.groups[g].pushes[url].isPushing {
        var p :| LivePusher(t, p, g, url);
        assert PushersOf(t, g, url) == {p};
      } else {
        assert PushersOf(t, g, url) == {};
      }
    } else {
      assert PushersOf(t, g, url) == {};
    }
  }
}
