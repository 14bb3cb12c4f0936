/** The group as the server keeps it: an object whose methods, each run under
    the group lock, update its session, remuxer, pull and push fields in place.
    Every method is tied to the region of RelayGroup that it implements. */
module LogicGroup {
  import opened Bytes
  import opened RelayGroup

  // The push table while the loop of StartPushIfNeeded is at work.

  ghost function Marked(m: map<string, Push>, done: set<string>): map<string, Push> {
    map u | u in m :: if u in done then m[u].(isPushing := true) else m[u]
  }

  ghost function Idle(m: map<string, Push>, done: set<string>): set<string> {
    set u | u in m && u in done && !m[u].isPushing
  }

  lemma NoneMarked(m: map<string, Push>)
    ensures Marked(m, {}) == m && Idle(m, {}) == {}
  {
  }

  lemma OneMarked(m: map<string, Push>, done: set<string>, u: string)
    requires u in m && u !in done
    ensures u in Marked(m, done) && Marked(m, done)[u] == m[u]
    ensures m[u].isPushing ==> Marked(m, done + {u}) == Marked(m, done) && Idle(m, done + {u}) == Idle(m, done)
    ensures !m[u].isPushing ==> && Marked(m, done + {u}) == Marked(m, done)[u := m[u].(isPushing := true)]
                                && Idle(m, done + {u}) == Idle(m, done) + {u}
  {
    assert m[u].isPushing ==> m[u].(isPushing := true) == m[u];
  }

  lemma JoinIsAccepted(g: State)
    ensures JoinRtmp(g).ok
  {
  }

  lemma AllMarked(g: State)
    ensures if ShouldPush(g)
            then StartPushes(g) == g.(pushes := Marked(g.pushes, g.pushes.Keys)) && ToPush(g) == Idle(g.pushes, g.pushes.Keys)
            else StartPushes(g) == g && ToPush(g) == {}
  {
    if ShouldPush(g) {
      assert StartPushes(g).pushes == Marked(g.pushes, g.pushes.Keys);
    } else {
      assert StartPushes(g).pushes == g.pushes;
    }
  }

  class PullProxy {
    var staticRelayPullEnable: bool
    var apiEnable: bool
    var pullUrl: string
    var pullRetryNum: int
    var autoStopPullAfterNoOutMs: int
    var startCount: nat
    var lastHasOutTs: int
    var isSessionPulling: bool
    var pullingSessionId: Option<nat>
    var nextPullTsMs: int
    var backoffMs: int
    var rtmpSession: Option<nat>
    var rtspSession: Option<nat>

    constructor (staticUrl: Option<string>, now: nat)
      ensures View() == NewGroup(Config(false, false, false, false, false), {}, staticUrl, now).proxy
      ensures rtmpSession == None && rtspSession == None
    {
      staticRelayPullEnable, apiEnable := staticUrl.Some?, false;
      pullUrl := if staticUrl.Some? then staticUrl.value else "";
      pullRetryNum, autoStopPullAfterNoOutMs := -1, 0;
      startCount, lastHasOutTs := 0, now;
      isSessionPulling, pullingSessionId := false, None;
      nextPullTsMs, backoffMs := 0, 0;
      rtmpSession, rtspSession := None, None;
    }

    ghost function View(): Proxy
      reads this
    {
      Proxy(staticRelayPullEnable, apiEnable, pullUrl, pullRetryNum, autoStopPullAfterNoOutMs, startCount,
            lastHasOutTs, isSessionPulling, pullingSessionId, nextPullTsMs, backoffMs)
    }
  }

  class Group {
    const config: Config
    const pullProxy: PullProxy
    var rtmpPubSession: Option<nat>
    var rtspPubSession: Option<nat>
    var customizePubSession: Option<Customize>
    var rtsp2RtmpRemuxer: bool
    var rtmp2RtspRemuxer: bool
    var rtmp2MpegtsRemuxer: bool
    var dummyAudioFilter: bool
    var customizeHookSession: bool
    var url2PushProxy: map<string, Push>
    var subSessions: set<Sub>

    constructor (conf: Config, urls: set<string>, staticUrl: Option<string>, now: nat)
      ensures View() == NewGroup(conf, urls, staticUrl, now)
      ensures fresh(pullProxy)
      ensures pullProxy.staticRelayPullEnable == staticUrl.Some? && !pullProxy.apiEnable && !pullProxy.isSessionPulling
      ensures pullProxy.pullRetryNum == -1 && pullProxy.autoStopPullAfterNoOutMs == 0 && pullProxy.startCount == 0
      ensures pullProxy.lastHasOutTs == now && pullProxy.nextPullTsMs == 0 && pullProxy.backoffMs == 0
      ensures url2PushProxy.Keys == urls && forall u :: u in urls ==> url2PushProxy[u] == Push(false, None)
    {
      config := conf;
      pullProxy := new PullProxy(staticUrl, now);
      rtmpPubSession, rtspPubSession, customizePubSession := None, None, None;
      rtsp2RtmpRemuxer, rtmp2RtspRemuxer, rtmp2MpegtsRemuxer := false, false, false;
      dummyAudioFilter, customizeHookSession := false, false;
      url2PushProxy := map u | u in urls :: Push(false, None);
      subSessions := {};
    }

    /** Everything the group knows, as one value. */
    ghost function View(): State
      reads this, pullProxy
    {
      State(config, rtmpPubSession, rtspPubSession, customizePubSession, pullProxy.rtmpSession, pullProxy.rtspSession,
            rtsp2RtmpRemuxer, rtmp2RtspRemuxer, rtmp2MpegtsRemuxer, dummyAudioFilter, customizeHookSession,
            pullProxy.View(), url2PushProxy, subSessions)
    }

    // --------------------------------------------------------- questions

    method HasInSession() returns (r: bool)
      ensures r == HasIn(View())
      ensures r <==> rtmpPubSession.Some? || rtspPubSession.Some? || customizePubSession.Some?
                     || pullProxy.rtmpSession.Some? || pullProxy.rtspSession.Some?
    {
      r := || rtmpPubSession.Some? || rtspPubSession.Some? || customizePubSession.Some?
           || pullProxy.rtmpSession.Some? || pullProxy.rtspSession.Some?;
    }

    method HasPushSession() returns (r: bool)
      ensures r == exists u :: u in url2PushProxy && url2PushProxy[u].isPushing && url2PushProxy[u].session.Some?
    {
      var todo := url2PushProxy.Keys;
      while todo != {}
        invariant todo <= url2PushProxy.Keys
        invariant forall u :: u in url2PushProxy && u !in todo ==>
                                !(url2PushProxy[u].isPushing && url2PushProxy[u].session.Some?)
        decreases |todo|
      {
        var u :| u in todo;
        if url2PushProxy[u].isPushing && url2PushProxy[u].session.Some? {
          return true;
        }
        todo := todo - {u};
      }
      return false;
    }

    method HasOutSession() returns (r: bool)
      ensures r == HasOut(View())
      ensures r <==> subSessions != {} || customizeHookSession
                     || exists u :: u in url2PushProxy && url2PushProxy[u].isPushing && url2PushProxy[u].session.Some?
    {
      if subSessions != {} || customizeHookSession {
        return true;
      }
      r := HasPushSession();
    }

    method ShouldAutoStopPull(now: nat) returns (r: bool)
      ensures r == ShouldAutoStop(View(), now)
    {
      if pullProxy.autoStopPullAfterNoOutMs < 0 {
        return false;
      }
      var out := HasOutSession();
      if out {
        return false;
      }
      if pullProxy.autoStopPullAfterNoOutMs == 0 {
        return true;
      }
      return pullProxy.lastHasOutTs != -1 && now - pullProxy.lastHasOutTs >= pullProxy.autoStopPullAfterNoOutMs;
    }

    method CheckStartPull(now: nat) returns (r: bool)
      ensures r == ShouldStartPull(View(), now)
    {
      hide ShouldAutoStop, HasIn;
      if pullProxy.nextPullTsMs != 0 && now < pullProxy.nextPullTsMs {
        return false;
      }
      var hasIn := HasInSession();
      if hasIn {
        return false;
      }
      if pullProxy.isSessionPulling {
        return false;
      }
      if !pullProxy.staticRelayPullEnable && !pullProxy.apiEnable {
        return false;
      }
      var stop := ShouldAutoStopPull(now);
      if stop {
        return false;
      }
      if pullProxy.pullRetryNum >= 0 {
        if pullProxy.startCount > pullProxy.pullRetryNum {
          return false;
        }
      }
      return true;
    }

    // -------------------------------------------------------------- pull

    method ResetPullBackoff()
      modifies pullProxy
      ensures View() == ResetBackoff(old(View()))
    {
      pullProxy.backoffMs := 0;
      pullProxy.nextPullTsMs := 0;
    }

    method SchedulePullBackoff(now: nat)
      modifies pullProxy
      ensures View() == ScheduleBackoff(old(View()), now)
      ensures var b := old(pullProxy.backoffMs);
              pullProxy.backoffMs == if b <= 0 then 1000 else if b >= 15000 then 30000 else 2 * b
      ensures pullProxy.nextPullTsMs == now + pullProxy.backoffMs + now % 250
    {
      if pullProxy.backoffMs <= 0 {
        pullProxy.backoffMs := MIN_PULL_BACKOFF_MS;
      } else {
        pullProxy.backoffMs := pullProxy.backoffMs * 2;
        if pullProxy.backoffMs > MAX_PULL_BACKOFF_MS {
          pullProxy.backoffMs := MAX_PULL_BACKOFF_MS;
        }
      }
      var jitter := now % PULL_BACKOFF_JITTER_MS;
      pullProxy.nextPullTsMs := now + pullProxy.backoffMs + jitter;
    }

    method ClearPulling()
      modifies pullProxy
      ensures View() == ClearFlag(old(View()))
    {
      pullProxy.isSessionPulling := false;
      pullProxy.pullingSessionId := None;
    }

    method OnPullStartFailedLocked(id: nat, now: nat)
      modifies pullProxy
      ensures View() == OnPullStartFailed(old(View()), id, now)
    {
      hide ScheduleBackoff, ClearFlag;
      if !pullProxy.isSessionPulling || pullProxy.pullingSessionId != Some(id) {
        return;
      }
      ClearPulling();
      SchedulePullBackoff(now);
    }

    method OnPullSessionExitedLocked(id: nat, failed: bool, now: nat)
      modifies pullProxy
      ensures View() == OnPullSessionExited(old(View()), id, failed, now)
    {
      hide ScheduleBackoff, ResetBackoff;
      var key := if pullProxy.rtmpSession.Some? then pullProxy.rtmpSession else pullProxy.rtspSession;
      if Some(id) != key {
        return;
      }
      if !failed {
        ResetPullBackoff();
      } else {
        SchedulePullBackoff(now);
      }
    }

    /** Starts an attempt named `uk` when every condition is met; the goroutine
        it spawns is a process of RelayProtocol. */
    method StartAttemptIfNeeded(now: nat, uk: nat) returns (started: bool)
      modifies pullProxy
      ensures var o := PullIfNeeded(old(View()), now, uk); View() == o.state && started == o.pulled
      ensures pullProxy.lastHasOutTs == old(pullProxy.lastHasOutTs)
    {
      hide ShouldStartPull;
      var go := CheckStartPull(now);
      if !go {
        return false;
      }
      pullProxy.isSessionPulling := true;
      pullProxy.pullingSessionId := Some(uk);
      return true;
    }

    method StartPull(req: StartPullReq, now: nat, uk: nat) returns (started: bool)
      modifies pullProxy
      ensures var o := Apply(old(View()), Op.StartPull(req), now, uk); View() == o.state && started == o.pulled
    {
      hide PullIfNeeded;
      ResetPullBackoff();
      pullProxy.apiEnable := true;
      pullProxy.pullUrl := req.url;
      pullProxy.pullRetryNum := req.retryNum;
      pullProxy.autoStopPullAfterNoOutMs := req.autoStopMs;
      started := StartAttemptIfNeeded(now, uk);
    }

    /** Returns the session that the caller disposes of, if there is one. */
    method StopPullLocked() returns (disposed: Option<nat>)
      modifies pullProxy
      ensures View() == StopPulling(old(View())) && disposed == PullKey(old(View()))
      ensures pullProxy.lastHasOutTs == old(pullProxy.lastHasOutTs)
    {
      pullProxy.startCount := 0;
      ClearPulling();
      ResetPullBackoff();
      return if pullProxy.rtmpSession.Some? then pullProxy.rtmpSession else pullProxy.rtspSession;
    }

    method StopPull() returns (disposed: Option<nat>)
      modifies pullProxy
      ensures View() == Apply(old(View()), Op.StopPull, 0, 0).state && disposed == PullKey(old(View()))
    {
      pullProxy.apiEnable := false;
      disposed := StopPullLocked();
    }

    method KickPull(id: nat) returns (found: bool)
      modifies pullProxy
      ensures var o := Apply(old(View()), Op.KickPull(id), 0, 0); View() == o.state && found == o.ok
    {
      if pullProxy.rtmpSession == Some(id) || pullProxy.rtspSession == Some(id) {
        pullProxy.apiEnable := false;
        var _ := StopPullLocked();
        return true;
      }
      return false;
    }

    method TickPullModule(now: nat, uk: nat) returns (started: bool)
      modifies pullProxy
      ensures var o := TickPull(old(View()), now, uk); View() == o.state && started == o.pulled
      ensures pullProxy.lastHasOutTs == if subSessions != {} || customizeHookSession then now else old(pullProxy.lastHasOutTs)
    {
      hide ShouldAutoStop, PullIfNeeded, StopPulling;
      if subSessions != {} || customizeHookSession {
        pullProxy.lastHasOutTs := now;
      }
      assert View() == Seen(old(View()), now);
      var stop := ShouldAutoStopPull(now);
      if stop {
        var _ := StopPullLocked();
        started := false;
      } else {
        started := StartAttemptIfNeeded(now, uk);
      }
    }

    /** The second check of an attempt that got its slot. */
    method ConfirmAttempt(id: nat) returns (confirmed: bool)
      modifies pullProxy
      ensures var o := Confirm(old(View()), id); View() == o.state && confirmed == o.ok
      ensures confirmed == (old(pullProxy.isSessionPulling) && old(pullProxy.pullingSessionId) == Some(id))
      ensures pullProxy.startCount == old(pullProxy.startCount) + if confirmed then 1 else 0
    {
      if !pullProxy.isSessionPulling || pullProxy.pullingSessionId != Some(id) {
        return false;
      }
      pullProxy.startCount := pullProxy.startCount + 1;
      return true;
    }

    // -------------------------------------------------------------- push

    /** Marks every idle push target as pushing; each one marked gets a push
        goroutine. */
    method StartPushIfNeeded() returns (started: set<string>)
      modifies this`url2PushProxy
      ensures View() == StartPushes(old(View())) && started == ToPush(old(View()))
    {
      hide StartPushes, ToPush;
      AllMarked(View());
      if !config.pushEnable {
        return {};
      }
      if rtmpPubSession == None && rtspPubSession == None {
        return {};
      }
      ghost var was := url2PushProxy;
      started := {};
      var todo := url2PushProxy.Keys;
      assert was.Keys - todo == {};
      NoneMarked(was);
      while todo != {}
        invariant todo <= was.Keys
        invariant url2PushProxy == Marked(was, was.Keys - todo)
        invariant started == Idle(was, was.Keys - todo)
        decreases |todo|
      {
        hide Marked, Idle;
        var u :| u in todo;
        OneMarked(was, was.Keys - todo, u);
        assert was.Keys - (todo - {u}) == was.Keys - todo + {u};
        todo := todo - {u};
        if url2PushProxy[u].isPushing {
          continue;
        }
        url2PushProxy := url2PushProxy[u := url2PushProxy[u].(isPushing := true)];
        started := started + {u};
      }
      assert was.Keys - {} == was.Keys;
    }

    method StopPushIfNeeded()
      modifies this`url2PushProxy
      ensures View() == StopPushes(old(View()))
      ensures url2PushProxy.Keys == old(url2PushProxy.Keys)
      ensures forall u :: u in url2PushProxy ==>
                url2PushProxy[u] == Push(old(url2PushProxy)[u].isPushing,
                                         if config.pushEnable then None else old(url2PushProxy)[u].session)
    {
      if !config.pushEnable {
        return;
      }
      var todo := url2PushProxy.Keys;
      while todo != {}
        invariant url2PushProxy.Keys == old(url2PushProxy.Keys) && todo <= url2PushProxy.Keys
        invariant forall u :: u in url2PushProxy && u in todo ==> url2PushProxy[u] == old(url2PushProxy[u])
        invariant forall u :: u in url2PushProxy && u !in todo ==>
                                url2PushProxy[u] == old(url2PushProxy[u]).(session := None)
        decreases |todo|
      {
        var u :| u in todo;
        todo := todo - {u};
        url2PushProxy := url2PushProxy[u := url2PushProxy[u].(session := None)];
      }
      assert url2PushProxy == StopPushes(old(View())).pushes;
    }

    method AddRtmpPushSession(url: string, id: nat)
      requires url in url2PushProxy
      modifies this`url2PushProxy
      ensures View() == AddPush(old(View()), url, id)
      ensures url2PushProxy == old(url2PushProxy)[url := Push(old(url2PushProxy)[url].isPushing, Some(id))]
    {
      url2PushProxy := url2PushProxy[url := url2PushProxy[url].(session := Some(id))];
    }

    method DelRtmpPushSession(url: string)
      requires url in url2PushProxy
      modifies this`url2PushProxy
      ensures View() == DelPush(old(View()), url)
      ensures url2PushProxy == old(url2PushProxy)[url := Push(false, None)]
    {
      url2PushProxy := url2PushProxy[url := url2PushProxy[url].(session := None)];
      url2PushProxy := url2PushProxy[url := url2PushProxy[url].(isPushing := false)];
    }

    method ClearPushingFlag(url: string)
      modifies this`url2PushProxy
      ensures View() == ClearPushing(old(View()), url)
      ensures url2PushProxy == if url in old(url2PushProxy)
                               then old(url2PushProxy)[url := Push(false, old(url2PushProxy)[url].session)]
                               else old(url2PushProxy)
    {
      if url in url2PushProxy {
        url2PushProxy := url2PushProxy[url := url2PushProxy[url].(isPushing := false)];
      }
    }

    // ------------------------------------------------------------ inputs

    method AddInput() returns (pushed: set<string>)
      modifies this
      ensures View() == AddIn(old(View())) && pushed == ToPush(old(View()))
      ensures unchanged(`rtsp2RtmpRemuxer, `rtmp2RtspRemuxer, `rtmpPubSession, `rtspPubSession, `customizePubSession)
    {
      hide StartPushes;
      if config.mpegts {
        rtmp2MpegtsRemuxer := true;
      }
      if config.dummyAudio {
        dummyAudioFilter := true;
      }
      if config.hook {
        customizeHookSession := true;
      }
      pushed := StartPushIfNeeded();
    }

    method DelInput()
      modifies this
      ensures View() == DelIn(old(View()))
      ensures unchanged(`subSessions) && url2PushProxy.Keys == old(url2PushProxy.Keys)
      ensures forall u :: u in url2PushProxy ==>
                url2PushProxy[u] == Push(old(url2PushProxy)[u].isPushing,
                                         if config.pushEnable then None else old(url2PushProxy)[u].session)
    {
      hide StopPushes;
      if rtmp2MpegtsRemuxer {
        rtmp2MpegtsRemuxer := false;
      }
      if customizeHookSession {
        customizeHookSession := false;
      }
      StopPushIfNeeded();
      rtmpPubSession, rtspPubSession, customizePubSession := None, None, None;
      rtsp2RtmpRemuxer, rtmp2RtspRemuxer, dummyAudioFilter := false, false, false;
    }

    /** A customize publisher joins a group whose inputs have been cleared. */
    method JoinCustomize(id: nat, streamName: string) returns (pushed: set<string>)
      modifies this
      ensures var o := JoinRtmp(old(View()).(customizePub := Some(Customize(id, streamName))));
              View() == o.state && pushed == o.pushed
    {
      hide AddIn, ToPush;
      customizePubSession := Some(Customize(id, streamName));
      pushed := AddInput();
      if config.rtsp {
        rtmp2RtspRemuxer := true;
      }
    }

    method AddCustomizePubSession(id: nat, streamName: string) returns (ok: bool, pushed: set<string>)
      modifies this
      ensures var o := Apply(old(View()), AddCustomizePub(id, streamName), 0, 0);
              View() == o.state && ok == o.ok && pushed == o.pushed
    {
      JoinIsAccepted(View().(customizePub := Some(Customize(id, streamName))));
      JoinIsAccepted(DelIn(View()).(customizePub := Some(Customize(id, streamName))));
      hide JoinRtmp, DelIn;
      var hasIn := HasInSession();
      if hasIn {
        if customizePubSession.Some? && customizePubSession.value.streamName == streamName {
          return false, {};
        }
        var onlyCustomizePub := customizePubSession.Some? && rtmpPubSession.None? && rtspPubSession.None?
                                && pullProxy.rtmpSession.None? && pullProxy.rtspSession.None?;
        if onlyCustomizePub {
          DelCustomizePubSession(customizePubSession.value.id);
        } else {
          return false, {};
        }
      }
      pushed := JoinCustomize(id, streamName);
      ok := true;
    }

    method AddRtmpPubSession(id: nat) returns (ok: bool, pushed: set<string>)
      modifies this
      ensures var o := Apply(old(View()), AddRtmpPub(id), 0, 0);
              View() == o.state && ok == o.ok && pushed == o.pushed
    {
      hide AddIn, ToPush;
      var hasIn := HasInSession();
      if hasIn {
        return false, {};
      }
      rtmpPubSession := Some(id);
      pushed := AddInput();
      if config.rtsp {
        rtmp2RtspRemuxer := true;
      }
      ok := true;
    }

    method AddRtspPubSession(id: nat) returns (ok: bool, pushed: set<string>)
      modifies this
      ensures var o := Apply(old(View()), AddRtspPub(id), 0, 0);
              View() == o.state && ok == o.ok && pushed == o.pushed
    {
      hide AddIn, ToPush;
      var hasIn := HasInSession();
      if hasIn {
        return false, {};
      }
      rtspPubSession := Some(id);
      pushed := AddInput();
      rtsp2RtmpRemuxer := true;
      ok := true;
    }

    method AddRtmpPullSession(id: nat) returns (ok: bool, pushed: set<string>)
      modifies this, pullProxy
      ensures var o := AddPull(old(View()), id, true); View() == o.state && ok == o.ok && pushed == o.pushed
      ensures pullProxy.rtmpSession == if ok then Some(id) else old(pullProxy.rtmpSession)
      ensures var owned := old(pullProxy.isSessionPulling) && old(pullProxy.pullingSessionId) == Some(id);
              && pullProxy.isSessionPulling == (old(pullProxy.isSessionPulling) && !owned)
              && pullProxy.backoffMs == (if ok && owned then 0 else old(pullProxy.backoffMs))
              && pullProxy.nextPullTsMs == (if ok && owned then 0 else old(pullProxy.nextPullTsMs))
    {
      hide AddIn, ToPush;
      var hasIn := HasInSession();
      if hasIn {
        if pullProxy.isSessionPulling && pullProxy.pullingSessionId == Some(id) {
          ClearPulling();
        }
        return false, {};
      }
      if pullProxy.isSessionPulling && pullProxy.pullingSessionId == Some(id) {
        ClearPulling();
        ResetPullBackoff();
      }
      pullProxy.rtmpSession := Some(id);
      pushed := AddInput();
      if config.rtsp {
        rtmp2RtspRemuxer := true;
      }
      ok := true;
    }

    method AddRtspPullSession(id: nat) returns (ok: bool, pushed: set<string>)
      modifies this, pullProxy
      ensures var o := AddPull(old(View()), id, false); View() == o.state && ok == o.ok && pushed == o.pushed
      ensures pullProxy.rtspSession == if ok then Some(id) else old(pullProxy.rtspSession)
      ensures var owned := old(pullProxy.isSessionPulling) && old(pullProxy.pullingSessionId) == Some(id);
              && pullProxy.isSessionPulling == (old(pullProxy.isSessionPulling) && !owned)
              && pullProxy.backoffMs == (if ok && owned then 0 else old(pullProxy.backoffMs))
              && pullProxy.nextPullTsMs == (if ok && owned then 0 else old(pullProxy.nextPullTsMs))
    {
      hide AddIn, ToPush;
      var hasIn := HasInSession();
      if hasIn {
        if pullProxy.isSessionPulling && pullProxy.pullingSessionId == Some(id) {
          ClearPulling();
        }
        return false, {};
      }
      if pullProxy.isSessionPulling && pullProxy.pullingSessionId == Some(id) {
        ClearPulling();
        ResetPullBackoff();
      }
      pullProxy.rtspSession := Some(id);
      pushed := AddInput();
      rtsp2RtmpRemuxer := true;
      ok := true;
    }

    method DelCustomizePubSession(id: nat)
      modifies this
      ensures View() == Apply(old(View()), DelCustomizePub(id), 0, 0).state
    {
      hide DelIn;
      if customizePubSession.None? || customizePubSession.value.id != id {
        return;
      }
      DelInput();
    }

    method DelRtmpPubSession(id: nat)
      modifies this
      ensures View() == Apply(old(View()), DelRtmpPub(id), 0, 0).state
    {
      hide DelIn;
      if Some(id) != rtmpPubSession {
        return;
      }
      DelInput();
    }

    method DelRtspPubSession(id: nat)
      modifies this
      ensures View() == Apply(old(View()), DelRtspPub(id), 0, 0).state
    {
      hide DelIn;
      if Some(id) != rtspPubSession {
        return;
      }
      DelInput();
    }

    method ResetRelayPullSession()
      modifies pullProxy
      ensures View() == ClearFlag(old(View())).(rtmpPull := None, rtspPull := None)
    {
      ClearPulling();
      pullProxy.rtmpSession := None;
      pullProxy.rtspSession := None;
    }

    method DelPullSession(id: nat) returns (removed: bool)
      modifies this, pullProxy
      ensures View() == DelPull(old(View()), id)
      ensures removed == (old(pullProxy.rtmpSession) == Some(id) || old(pullProxy.rtspSession) == Some(id))
      ensures removed ==> pullProxy.rtmpSession == pullProxy.rtspSession == None && !pullProxy.isSessionPulling
      ensures var owned := old(pullProxy.isSessionPulling) && old(pullProxy.pullingSessionId) == Some(id);
              !removed ==> && pullProxy.rtmpSession == old(pullProxy.rtmpSession)
                           && pullProxy.rtspSession == old(pullProxy.rtspSession)
                           && pullProxy.isSessionPulling == (old(pullProxy.isSessionPulling) && !owned)
    {
      hide DelIn;
      if pullProxy.rtmpSession == Some(id) {
        ResetRelayPullSession();
        DelInput();
        return true;
      }
      if pullProxy.rtspSession == Some(id) {
        ResetRelayPullSession();
        DelInput();
        return true;
      }
      if pullProxy.isSessionPulling && pullProxy.pullingSessionId == Some(id) {
        ClearPulling();
      }
      return false;
    }

    // ------------------------------------------------ subscribers, timer

    method AddSubSession(sub: Sub, now: nat, uk: nat) returns (started: bool)
      modifies this`subSessions, pullProxy
      ensures var o := Apply(old(View()), AddSub(sub), now, uk); View() == o.state && started == o.pulled
      ensures subSessions == old(subSessions) + {sub}
    {
      hide PullIfNeeded;
      subSessions := subSessions + {sub};
      started := StartAttemptIfNeeded(now, uk);
    }

    method TickGroup(now: nat, uk: nat) returns (started: bool, pushed: set<string>)
      modifies this`url2PushProxy, pullProxy
      ensures var o := Apply(old(View()), Tick, now, uk);
              View() == o.state && started == o.pulled && pushed == o.pushed
    {
      hide TickPull, StartPushes, ToPush;
      started := TickPullModule(now, uk);
      pushed := StartPushIfNeeded();
    }

    method DisposeGroup()
      modifies this
      ensures View() == Apply(old(View()), Dispose, 0, 0).state
      ensures subSessions == set s | s in old(subSessions) && s.hls
    {
      hide DelIn;
      subSessions := set s | s in subSessions && s.hls;
      DelInput();
    }
  }
}
