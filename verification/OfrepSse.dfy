/**
 The OFREP web provider together with its SSE manager: when a provider that has dealt with a result is left with
 neither a polling timer nor a connection.
 */
module OfrepSse {
  import P = OfrepProtocol
  import S = SseProtocol
  import opened OfrepClose

  /** The provider, and the manager it holds while `sseManager` is set. */
  datatype Joint = Joint(provider: P.State, manager: S.Option<S.State>)

  datatype Config = Config(provider: P.Config, sse: S.Config)

  ghost predicate JointInv(j: Joint, c: Config) {
    && P.DetectionInv(j.provider, c.provider)
    && (j.provider.sseManager <==> j.manager.Some?)
    && (j.manager.Some? ==> S.Inv(j.manager.value) && !j.manager.value.disposed)
  }

  function NewManager(c: Config): S.State {
    S.INITIAL.(inactivityDelaySec := S.InactivityDelay([], c.sse))
  }

  /** There are event streams, and a manager or the means to make one. */
  predicate TakesStreams(j: Joint, streams: seq<S.EventStream>, c: Config) {
    streams != [] && c.provider.changeDetection == P.Sse && (j.manager.Some? || c.provider.hasEventSource)
  }

  /** The manager after `_connectSseIfAvailable`: connected to the streams, left alone, or disposed of. */
  function ManagerAfter(j: Joint, streams: seq<S.EventStream>, now: int, c: Config): S.Option<S.State> {
    if TakesStreams(j, streams, c) then
      S.Some(S.Connect(if j.manager.Some? then j.manager.value else NewManager(c), streams, now, c.sse))
    else S.None
  }

  function ConnectSseIfAvailable(j: Joint, streams: seq<S.EventStream>, now: int, c: Config): Joint {
    Joint(P.ConnectSseIfAvailable(j.provider, streams != [], c.provider), ManagerAfter(j, streams, now, c))
  }

  /** What a context change does with its result. */
  function ChangeResult(j: Joint, changed: bool, streams: seq<S.EventStream>, now: int, c: Config): Joint {
    Joint(P.Resume(j.provider, P.ContextChange, changed, streams != [], c.provider), ManagerAfter(j, streams, now, c))
  }

  /** Neither polling nor connected. */
  predicate Dark(j: Joint) {
    j.provider.intervals == {} && (j.manager.None? || j.manager.value.connections == [])
  }

  lemma NewManagerIsFine(c: Config)
    ensures S.Inv(NewManager(c)) && !NewManager(c).disposed && S.Tidy(NewManager(c))
  {
    assert S.ToSet([]) == {};
  }

  lemma {:induction false} ConnectingKeepsAlive(s: S.State, urls: seq<string>)
    requires !s.disposed
    ensures !S.ConnectToUrls(s, urls).disposed && |S.ConnectToUrls(s, urls).connections| == |s.connections| + |urls|
    decreases |urls|
  {
    if urls == [] {
    } else {
      ConnectingKeepsAlive(S.ConnectToUrl(s, urls[0]), urls[1..]);
    }
  }

  lemma {:induction false} OnlySseUrls(streams: seq<S.EventStream>)
    requires S.Urls(streams) != []
    ensures S.HasSse(streams)
    decreases |streams|
  {
    var front, last := streams[..|streams| - 1], streams[|streams| - 1];
    if last.isSse {
      assert streams[|streams| - 1].isSse;
    } else {
      OnlySseUrls(front);
      var k :| 0 <= k < |front| && front[k].isSse;
      assert streams[k].isSse;
    }
  }

  /** `connect` leaves the manager without a connection exactly when no stream is of type `sse` and resolves. */
  lemma ConnectsNothingExactly(s: S.State, streams: seq<S.EventStream>, now: int, c: S.Config)
    requires !s.disposed
    ensures var t := S.Connect(s, streams, now, c); !t.disposed && (t.connections == [] <==> S.Urls(streams) == [])
  {
    if S.Urls(streams) != [] {
      OnlySseUrls(streams);
      var t := s.(inactivityDelaySec := S.InactivityDelay(streams, c));
      ConnectingKeepsAlive(S.Disconnect(t, now).(urls := S.Urls(streams)), S.Urls(streams));
    }
  }

  lemma ManagerConnectsExactly(j: Joint, streams: seq<S.EventStream>, now: int, c: Config)
    requires JointInv(j, c)
    ensures var m := ManagerAfter(j, streams, now, c);
            && (m.Some? <==> TakesStreams(j, streams, c))
            && (m.Some? ==> S.Inv(m.value) && !m.value.disposed)
            && (m.Some? ==> (m.value.connections == [] <==> S.Urls(streams) == []))
  {
    NewManagerIsFine(c);
    var s := if j.manager.Some? then j.manager.value else NewManager(c);
    S.ConnectKeepsInv(s, streams, now, c.sse);
    ConnectsNothingExactly(s, streams, now, c.sse);
  }

  lemma ProviderConnectsExactly(j: Joint, streams: seq<S.EventStream>, now: int, c: Config)
    requires JointInv(j, c)
    ensures var t := P.ConnectSseIfAvailable(j.provider, streams != [], c.provider);
            && P.DetectionInv(t, c.provider) && (t.sseManager <==> TakesStreams(j, streams, c))
            && t.intervals == (if TakesStreams(j, streams, c) then {} else j.provider.intervals)
            && (TakesStreams(j, streams, c) || t.pollingIntervalId == j.provider.pollingIntervalId)
  {
    P.ConnectKeepsDetection(j.provider, streams != [], c.provider);
  }

  /**
   Provider and manager agree on whether there is one, and the provider ends up with neither a polling timer nor
   a connection exactly if it took streams of which none is usable, or took none and was not polling.
   */
  lemma ConnectLeavesDarkExactly(j: Joint, streams: seq<S.EventStream>, now: int, c: Config)
    requires JointInv(j, c)
    ensures var t := ConnectSseIfAvailable(j, streams, now, c);
            && JointInv(t, c)
            && (Dark(t) <==>
                  if TakesStreams(j, streams, c) then S.Urls(streams) == [] else j.provider.intervals == {})
  {
    ManagerConnectsExactly(j, streams, now, c);
    ProviderConnectsExactly(j, streams, now, c);
  }

  lemma ResumeAfterConnect(s: P.State, changed: bool, streams: bool, c: P.Config)
    ensures var t := P.ConnectSseIfAvailable(s, streams, c);
            P.Resume(s, P.ContextChange, changed, streams, c)
            == if !t.sseManager && CanPoll(c) && t.pollingIntervalId.None? then P.StartPolling(t) else t
  {
  }

  /**
   After a context change: with usable streams it is connected and without any it polls if it can. But a result
   whose streams are all unusable switches polling off, even where polling is possible, and connects to nothing.
   */
  lemma ChangeLeavesDarkExactly(j: Joint, changed: bool, streams: seq<S.EventStream>, now: int, c: Config)
    requires JointInv(j, c)
    ensures var t := ChangeResult(j, changed, streams, now, c);
            && JointInv(t, c)
            && (Dark(t) <==>
                  if TakesStreams(j, streams, c) then S.Urls(streams) == []
                  else j.provider.intervals == {} && !CanPoll(c.provider))
  {
    ManagerConnectsExactly(j, streams, now, c);
    ProviderConnectsExactly(j, streams, now, c);
    ResumeAfterConnect(j.provider, changed, streams != [], c.provider);
    P.ResumeKeepsDetection(j.provider, P.ContextChange, changed, streams != [], c.provider);
  }

  /** And its manager brings nothing back: it has no event source, and no timer but an idle one at most. */
  lemma DarkManagerIsSilent(s: S.State, streams: seq<S.EventStream>, i: S.Input, now: int, later: int, c: S.Config)
    requires S.Inv(s) && S.Tidy(s) && S.Urls(streams) == [] && S.Enabled(S.Connect(s, streams, now, c), i, later)
    ensures i.Connecting? || i.Disconnecting? || i.Disposing? || i.InactivityDue?
    ensures i.InactivityDue? ==> S.Step(S.Connect(s, streams, now, c), i, later, c).open == {}
  {
    var t := s.(inactivityDelaySec := S.InactivityDelay(streams, c));
    DisconnectedIsSilent(s, now);
    S.SetFieldsKeepInv(s, S.InactivityDelay(streams, c), false);
    DisconnectedIsSilent(t, now);
  }

  lemma DisconnectedIsSilent(s: S.State, now: int)
    requires S.Inv(s) && S.Tidy(s)
    ensures var t := S.Disconnect(s, now);
            t.open == {} && t.graceTimers == map[] && t.debounceTimers == map[] && !t.visibilityHandler
  {
    S.NoneLeft(s, now);
    S.ClearEmpties(s.graceTimers, s.gracePeriodTimerId);
    S.ClearEmpties(s.debounceTimers, s.debounceTimerId);
  }
}
