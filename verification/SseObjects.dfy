/** `SseManager` as an object whose callbacks do what the step functions of `SseProtocol` say. */
module SseObjects {
  import opened SseEffects
  import opened SseProtocol

  class SseManager {
    const config: Config
    var connections: seq<Connection>
    var urls: seq<string>
    var inactivityDelaySec: int
    var inactivityTimerId: Option<nat>
    var debounceTimerId: Option<nat>
    var pendingMetadata: Option<Metadata>
    var disposed: bool
    var visibilityHandler: bool
    var gracePeriodTimerId: Option<nat>
    var stale: bool
    /** The timers and open event sources of the runtime, and what the callbacks were told. */
    var graceTimers: map<nat, int>
    var debounceTimers: map<nat, int>
    var inactivityTimers: map<nat, int>
    var open: set<Connection>
    var nextId: nat
    var log: seq<Entry>
    /** The run that has led to the present state, to which all theorems about runs apply. */
    ghost var states: seq<State>
    ghost var moments: seq<Moment>

    function State(): State
      reads this
    {
      SseProtocol.State(
        connections, urls, inactivityDelaySec, disposed, stale, visibilityHandler, pendingMetadata,
        gracePeriodTimerId, graceTimers, debounceTimerId, debounceTimers, inactivityTimerId, inactivityTimers,
        open, nextId, log)
    }

    ghost predicate Valid()
      reads this
    {
      IsRun(states, moments, config) && states[|moments|] == State()
    }

    /** One grace timer exactly while stale, and no connection or one per URL. */
    ghost predicate Sound()
      reads this
    {
      |graceTimers| == (if stale then 1 else 0) && (connections == [] || UrlsOf(connections) == urls)
    }

    constructor (config: Config)
      ensures Valid() && State() == INITIAL.(inactivityDelaySec := InactivityDelay([], config)) && this.config == config
    {
      this.config := config;
      inactivityDelaySec := InactivityDelay([], config);
      connections, urls, disposed, stale, visibilityHandler, pendingMetadata := [], [], false, false, false, None;
      gracePeriodTimerId, graceTimers, debounceTimerId, debounceTimers := None, map[], None, map[];
      inactivityTimerId, inactivityTimers, open, nextId, log := None, map[], {}, 0, [];
      states, moments := [INITIAL.(inactivityDelaySec := InactivityDelay([], config))], [];
    }

    /** Adds the step just taken to the run. */
    ghost method Record(i: Input, now: int)
      requires IsRun(states, moments, config)
      requires Enabled(states[|moments|], i, now) && State() == Step(states[|moments|], i, now, config)
      modifies `states, `moments
      ensures Valid() && Sound() && moments == old(moments) + [Moment(i, now)]
    {
      LongerRun(states, moments, Moment(i, now), State(), config);
      states, moments := states + [State()], moments + [Moment(i, now)];
      GraceTimerIffStale(states, moments, |moments|, config);
    }

    method ClearDebounce()
      modifies this
      ensures states == old(states) && moments == old(moments)
      ensures State() == SseProtocol.ClearDebounce(old(State()))
    {
      if debounceTimerId.Some? {
        debounceTimers := debounceTimers - {debounceTimerId.value};
        debounceTimerId := None;
      }
    }

    method ClearInactivityTimer()
      modifies this
      ensures states == old(states) && moments == old(moments)
      ensures State() == SseProtocol.ClearInactivityTimer(old(State()))
    {
      if inactivityTimerId.Some? {
        inactivityTimers := inactivityTimers - {inactivityTimerId.value};
        inactivityTimerId := None;
      }
    }

    method ClearGracePeriod()
      modifies this
      ensures states == old(states) && moments == old(moments)
      ensures State() == SseProtocol.ClearGracePeriod(old(State()))
    {
      if gracePeriodTimerId.Some? {
        graceTimers := graceTimers - {gracePeriodTimerId.value};
        gracePeriodTimerId := None;
      }
    }

    /** Closes every connection of the manager. */
    method CloseAll()
      modifies this
      ensures states == old(states) && moments == old(moments)
      ensures State() == old(State()).(open := old(open) - ToSet(old(connections)), connections := [])
    {
      for k := 0 to |connections|
        invariant states == old(states) && moments == old(moments)
        invariant State() == old(State()).(open := old(open) - ToSet(old(connections)[..k]))
      {
        assert old(connections)[..k + 1] == old(connections)[..k] + [connections[k]];
        ToSetAppend(old(connections)[..k], connections[k]);
        open := open - {connections[k]};
      }
      assert old(connections)[..|connections|] == old(connections);
      connections := [];
    }

    /** The body of `disconnect`. */
    method TearDown(now: int)
      modifies this
      ensures states == old(states) && moments == old(moments)
      ensures State() == SseProtocol.Disconnect(old(State()), now)
    {
      ClearDebounce();
      ClearInactivityTimer();
      ClearGracePeriod();
      stale := false;
      visibilityHandler := false;
      CloseAll();
      urls := [];
      log := log + [Disconnected(now)];
    }

    method Dispose(now: int)
      requires Valid()
      modifies this
      ensures Valid() && Sound() && State() == Step(old(State()), Disposing, now, config)
    {
      disposed := true;
      TearDown(now);
      Record(Disposing, now);
    }

    method ConnectToUrl(url: string)
      modifies this
      ensures states == old(states) && moments == old(moments)
      ensures State() == SseProtocol.ConnectToUrl(old(State()), url)
    {
      if disposed {
        return;
      }
      var es := Connection(nextId, url);
      nextId := nextId + 1;
      open := open + {es};
      connections := connections + [es];
    }

    method ConnectToUrls(all: seq<string>)
      modifies this
      ensures states == old(states) && moments == old(moments)
      ensures State() == SseProtocol.ConnectToUrls(old(State()), all)
    {
      for k := 0 to |all|
        invariant states == old(states) && moments == old(moments)
        invariant SseProtocol.ConnectToUrls(State(), all[k..]) == SseProtocol.ConnectToUrls(old(State()), all)
      {
        ConnectToUrl(all[k]);
      }
    }

    method Disconnect(now: int)
      requires Valid()
      modifies this
      ensures Valid() && Sound() && State() == Step(old(State()), Disconnecting, now, config)
      ensures connections == [] && graceTimers == map[]
    {
      TearDown(now);
      Record(Disconnecting, now);
    }

    method Connect(eventStreams: seq<EventStream>, now: int)
      requires Valid()
      modifies this
      ensures Valid() && Sound() && State() == Step(old(State()), Connecting(eventStreams), now, config)
      ensures !disposed ==> forall url :: url in UrlsOf(connections) <==>
                exists k :: 0 <= k < |eventStreams| && eventStreams[k].isSse && eventStreams[k].url == Some(url)
    {
      RunKeepsInv(states, moments, |moments|, config);
      ghost var before := State();
      ConnectAdjusts(before, eventStreams, now, config);
      if !disposed {
        ConnectFollowsStreams(before, eventStreams, now, config);
      }
      Adjust(eventStreams, now);
      Record(Connecting(eventStreams), now);
    }

    /** The body of `connect`. */
    method Adjust(eventStreams: seq<EventStream>, now: int)
      modifies this
      ensures states == old(states) && moments == old(moments)
      ensures State() == SseProtocol.Connect(old(State()), eventStreams, now, config)
    {
      if !HasSse(eventStreams) {
        TearDown(now);
        return;
      }
      inactivityDelaySec := InactivityDelay(eventStreams, config);
      var resolved := ResolveUrls(eventStreams);
      if resolved == [] {
        TearDown(now);
        return;
      }
      if connections != [] && SameUrls(resolved, urls) {
        return;
      }
      Reconnect(resolved, now);
    }

    method Reconnect(resolved: seq<string>, now: int)
      modifies this
      ensures states == old(states) && moments == old(moments)
      ensures State() == SseProtocol.Reconnect(old(State()), resolved, now, config)
    {
      TearDown(now);
      urls := resolved;
      ConnectToUrls(resolved);
      visibilityHandler := config.hasDocument;
    }

    method OnOpen(es: Connection, now: int)
      requires Valid() && Enabled(State(), Opened(es), now)
      modifies this
      ensures Valid() && Sound() && State() == Step(old(State()), Opened(es), now, config)
    {
      Recover(now);
      Record(Opened(es), now);
    }

    method Recover(now: int)
      modifies this
      ensures states == old(states) && moments == old(moments)
      ensures State() == SseProtocol.Recover(old(State()), now)
    {
      if stale {
        ClearGracePeriod();
        stale := false;
        log := log + [Recovered(now)];
      }
    }

    method HandleError(es: Connection, closed: bool, now: int)
      requires Valid() && Enabled(State(), Failed(es, closed), now)
      modifies this
      ensures Valid() && Sound() && State() == Step(old(State()), Failed(es, closed), now, config)
    {
      if closed {
        GiveUp(es, now);
      } else if !stale {
        EnterGracePeriod(now);
      }
      Record(Failed(es, closed), now);
    }

    /** The browser has closed `es` for good. */
    method GiveUp(es: Connection, now: int)
      modifies this
      ensures states == old(states) && moments == old(moments)
      ensures State() == SseProtocol.HandleError(old(State()), es, true, now)
    {
      open := open - {es};
      ClearGracePeriod();
      Forget(now);
    }

    method Forget(now: int)
      modifies this
      ensures states == old(states) && moments == old(moments)
      ensures State() == SseProtocol.Forget(old(State()), now)
    {
      stale := false;
      connections := [];
      urls := [];
      log := log + [Entry.OnError(now)];
    }

    /** The browser is reconnecting; nothing is wrong yet. */
    method EnterGracePeriod(now: int)
      requires !stale
      modifies this
      ensures states == old(states) && moments == old(moments)
      ensures forall es :: State() == SseProtocol.HandleError(old(State()), es, false, now)
    {
      stale := true;
      log := log + [Entry.OnStale(now)];
      graceTimers := graceTimers[nextId := now + GRACE_PERIOD_MS];
      gracePeriodTimerId := Some(nextId);
      nextId := nextId + 1;
    }

    method OnGraceTimer(id: nat, now: int)
      requires Valid() && Enabled(State(), GraceDue(id), now)
      modifies this
      ensures Valid() && Sound() && State() == Step(old(State()), GraceDue(id), now, config)
    {
      graceTimers := graceTimers - {id};
      CloseAll();
      Forget(now);
      Record(GraceDue(id), now);
    }

    method HandleMessage(es: Connection, message: Message, now: int)
      requires Valid() && Enabled(State(), Received(es, message), now)
      modifies this
      ensures Valid() && Sound() && State() == Step(old(State()), Received(es, message), now, config)
    {
      Recover(now);
      if message.Refetch? {
        ScheduleRefetch(message.metadata, now);
      }
      Record(Received(es, message), now);
    }

    /** Replaces the pending refetch, if any. */
    method ScheduleRefetch(metadata: Metadata, now: int)
      modifies this
      ensures states == old(states) && moments == old(moments)
      ensures State() == SseProtocol.ScheduleRefetch(old(State()), metadata, now)
    {
      log := log + [MessageReceived(metadata, now)];
      pendingMetadata := Some(metadata);
      ClearDebounce();
      StartDebounce(now);
    }

    method StartDebounce(now: int)
      modifies this
      ensures states == old(states) && moments == old(moments)
      ensures State() == SseProtocol.StartDebounce(old(State()), now)
    {
      debounceTimers := debounceTimers[nextId := now + DEBOUNCE_MS];
      debounceTimerId := Some(nextId);
      nextId := nextId + 1;
    }

    method OnDebounceTimer(id: nat, now: int)
      requires Valid() && Enabled(State(), DebounceDue(id), now)
      modifies this
      ensures Valid() && Sound() && State() == Step(old(State()), DebounceDue(id), now, config)
    {
      debounceTimers := debounceTimers - {id};
      var meta := pendingMetadata;
      pendingMetadata := None;
      log := log + [match meta case Some(m) => OnRefetch(m, now) case None => OnFullRefetch(now)];
      Record(DebounceDue(id), now);
    }

    method StartInactivityTimer(now: int)
      requires Valid() && Enabled(State(), Hidden, now)
      modifies this
      ensures Valid() && Sound() && State() == Step(old(State()), Hidden, now, config)
    {
      ClearInactivityTimer();
      inactivityTimers := inactivityTimers[nextId := now + inactivityDelaySec * 1000];
      inactivityTimerId := Some(nextId);
      nextId := nextId + 1;
      Record(Hidden, now);
    }

    method OnInactivityTimer(id: nat, now: int)
      requires Valid() && Enabled(State(), InactivityDue(id), now)
      modifies this
      ensures Valid() && Sound() && State() == Step(old(State()), InactivityDue(id), now, config)
    {
      inactivityTimers := inactivityTimers - {id};
      CloseAll();
      Record(InactivityDue(id), now);
    }

    method CancelInactivityTimer(now: int)
      requires Valid() && Enabled(State(), Shown, now)
      modifies this
      ensures Valid() && Sound() && State() == Step(old(State()), Shown, now, config)
    {
      if inactivityTimerId.Some? {
        ClearInactivityTimer();
        if connections == [] && urls != [] {
          ConnectToUrls(urls);
          log := log + [OnFullRefetch(now)];
        }
      }
      Record(Shown, now);
    }
  }

  /** The distinct URLs that the SSE streams resolve to. */
  method ResolveUrls(streams: seq<EventStream>) returns (urls: seq<string>)
    ensures urls == Urls(streams)
    ensures forall url :: url in urls <==>
              exists k :: 0 <= k < |streams| && streams[k].isSse && streams[k].url == Some(url)
  {
    urls := [];
    for k := 0 to |streams|
      invariant urls == Urls(streams[..k])
      invariant forall url :: url in urls <==> exists j :: 0 <= j < k && streams[j].isSse && streams[j].url == Some(url)
    {
      assert streams[..k + 1][..k] == streams[..k];
      var stream := streams[k];
      if stream.isSse && stream.url.Some? && stream.url.value !in urls {
        urls := urls + [stream.url.value];
      }
    }
    assert streams[..|streams|] == streams;
  }
}
