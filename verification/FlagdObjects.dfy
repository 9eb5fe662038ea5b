/**
 `FlagdProvider` and `GrpcFetch` as objects: each callback does to their fields what
 the step functions of `FlagdConnection` say.
 */
module FlagdObjects {
  import opened FlagdConnection
  import opened FlagdEffects

  class FlagdProvider {
    const config: Config
    var isErrorState: bool
    var errorTimer: Option<nat>
    /** The pending timers of the runtime, and the events handed to the SDK. */
    var grace: map<nat, int>
    var nextTimer: nat
    var events: seq<Emitted>
    var changes: nat

    function State(): Provider
      reads this
    {
      Provider(isErrorState, errorTimer, grace, nextTimer, events, changes)
    }

    constructor (config: Config)
      ensures State() == INITIAL.p && this.config == config
    {
      this.config := config;
      isErrorState, errorTimer, grace, nextTimer, events, changes := false, None, map[], 0, [], 0;
    }

    method ClearErrorTimer()
      modifies this
      ensures State() == FlagdConnection.ClearErrorTimer(old(State()))
    {
      if errorTimer.Some? {
        grace := grace - {errorTimer.value};
        errorTimer := None;
      }
    }

    method HandleReconnect(now: int)
      modifies this
      ensures State() == FlagdConnection.HandleReconnect(old(State()), now)
    {
      ClearErrorTimer();
      isErrorState := false;
      events := events + [Emitted(Ready, now)];
    }

    method HandleError(now: int)
      modifies this
      ensures State() == HandleDisconnect(old(State()), now, config)
    {
      if isErrorState {
        return;
      }
      isErrorState := true;
      events := events + [Emitted(Stale, now)];
      grace := grace[nextTimer := now + config.gracePeriodMs];
      errorTimer := Some(nextTimer);
      nextTimer := nextTimer + 1;
    }

    method OnGraceTimer(id: nat, now: int)
      modifies this
      ensures State() == GraceExpired(old(State()), id, now)
      ensures events == old(events) + (if isErrorState then [Emitted(Error, now)] else []) && id !in grace
    {
      grace := grace - {id};
      if isErrorState {
        events := events + [Emitted(Error, now)];
      }
      errorTimer := None;
    }

    method HandleChanged()
      modifies this
      ensures State() == old(State()).(changes := old(changes) + 1)
    {
      changes := changes + 1;
    }

    /** The rest of `initialize` after the service has connected. */
    method OnConnected()
      modifies this
      ensures State() == Settled(old(State()))
    {
      ClearErrorTimer();
      isErrorState := false;
    }
  }

  class GrpcFetch {
    const provider: FlagdProvider
    var isConnected: bool
    var initialized: bool
    var errorThrottled: bool
    var syncStream: Option<nat>
    var promise: Promise
    /** What the runtime and the gRPC client have outstanding. */
    var closed: bool
    var fatal: bool
    var waits: seq<bool>
    var streams: seq<Stream>
    var timers: seq<int>
    var nextId: nat
    /** The run that has led to the present state, to which all theorems about runs apply. */
    ghost var states: seq<State>
    ghost var moments: seq<Moment>

    function State(): State
      reads this, provider
    {
      FlagdConnection.State(
        Fetch(isConnected, initialized, errorThrottled, syncStream, promise, closed, fatal,
              waits, streams, timers, nextId),
        provider.State())
    }

    ghost predicate Valid()
      reads this, provider
    {
      IsRun(states, moments, provider.config) && states[0] == INITIAL && states[|moments|] == State()
    }

    /** One thing outstanding while running, and a well-formed trace of status events. */
    ghost predicate Sound()
      reads this, provider
    {
      (Running(State().f) ==> Outstanding(State().f) == 1) && WellFormed(provider.events, provider.config)
    }

    constructor (provider: FlagdProvider)
      requires provider.State() == INITIAL.p
      ensures Valid() && State() == INITIAL && this.provider == provider
    {
      this.provider := provider;
      isConnected, initialized, errorThrottled, syncStream, promise := false, false, false, None, NotCalled;
      closed, fatal, waits, streams, timers, nextId := false, false, [], [], [], 0;
      states, moments := [INITIAL], [];
    }

    /** Adds the step just taken to the run. */
    ghost method Record(i: Input, now: int)
      requires IsRun(states, moments, provider.config) && states[0] == INITIAL
      requires Enabled(states[|moments|], i, now) && State() == Step(states[|moments|], i, now, provider.config)
      modifies `states, `moments
      ensures Valid() && Sound() && moments == old(moments) + [Moment(i, now)]
    {
      LongerRun(states, moments, Moment(i, now), State(), provider.config);
      states, moments := states + [State()], moments + [Moment(i, now)];
      ExactlyOneOutstanding(states, moments, |moments|, provider.config);
      StatusEventsAlternate(states, moments, |moments|, provider.config);
    }

    method CloseStreamIfDefined()
      modifies this
      ensures states == old(states) && moments == old(moments)
      ensures State() == old(State()).(f := old(State()).f.(streams := Detach(old(streams), old(syncStream))))
    {
      streams := Detach(streams, syncStream);
    }

    method Connect(thrown: Option<Failure>, now: int)
      requires Valid() && Enabled(State(), Input.Connect(thrown), now)
      modifies this, provider
      ensures Valid() && Sound() && State() == Step(old(State()), Input.Connect(thrown), now, provider.config)
    {
      promise := Pending;
      Listen(true, thrown, now);
      Record(Input.Connect(thrown), now);
    }

    method Listen(first: bool, thrown: Option<Failure>, now: int)
      modifies this, provider
      ensures states == old(states) && moments == old(moments)
      ensures State() == FlagdConnection.Listen(old(State()), first, thrown, now, provider.config)
    {
      CloseStreamIfDefined();
      if thrown.Some? {
        HandleError(thrown.value, first, now);
      } else {
        waits := waits + [first];
      }
    }

    method OnReady(w: nat, err: Option<Failure>, now: int)
      requires Valid() && Enabled(State(), Waited(w, err), now)
      modifies this, provider
      ensures Valid() && Sound() && State() == Step(old(State()), Waited(w, err), now, provider.config)
    {
      var first := waits[w];
      waits := Drop(waits, w);
      if err.Some? {
        HandleError(err.value, first, now);
      } else {
        streams := streams + [Stream(nextId, first)];
        syncStream := Some(nextId);
        nextId := nextId + 1;
      }
      Record(Waited(w, err), now);
    }

    method OnData(k: nat, changed: bool, now: int)
      requires Valid() && Enabled(State(), Data(k, changed), now)
      modifies this, provider
      ensures Valid() && Sound() && State() == Step(old(State()), Data(k, changed), now, provider.config)
    {
      HandleData(streams[k].first, changed, now);
      Record(Data(k, changed), now);
    }

    /** The handler of a payload. */
    method HandleData(first: bool, changed: bool, now: int)
      modifies this, provider
      ensures states == old(states) && moments == old(moments)
      ensures State() == FlagdConnection.HandleData(old(State()), first, changed, now)
    {
      if initialized && changed {
        provider.HandleChanged();
      }
      if first {
        if promise == Pending {
          promise := Resolved;
          initialized := true;
          provider.OnConnected();
        }
      } else if !isConnected {
        provider.HandleReconnect(now);
      }
      isConnected := true;
    }

    method OnStreamError(k: nat, err: Failure, now: int)
      requires Valid() && Enabled(State(), StreamError(k, err), now)
      modifies this, provider
      ensures Valid() && Sound() && State() == Step(old(State()), StreamError(k, err), now, provider.config)
    {
      var first := streams[k].first;
      streams := Drop(streams, k);
      errorThrottled := true;
      HandleError(err, first, now);
      Record(StreamError(k, err), now);
    }

    method HandleError(err: Failure, first: bool, now: int)
      modifies this, provider
      ensures states == old(states) && moments == old(moments)
      ensures State() == FlagdConnection.HandleError(old(State()), err, first, now, provider.config)
    {
      isConnected := false;
      provider.HandleError(now);
      if first && promise == Pending {
        promise := Rejected;
      }
      if !initialized && err.code.Some? && err.code.value in provider.config.fatalStatusCodes {
        fatal := true;
        return;
      }
      timers := timers + [now + if errorThrottled then provider.config.maxBackoffMs else 0];
      errorThrottled := false;
    }

    method OnReconnectTimer(t: nat, thrown: Option<Failure>, now: int)
      requires Valid() && Enabled(State(), ReconnectDue(t, thrown), now)
      modifies this, provider
      ensures Valid() && Sound() && State() == Step(old(State()), ReconnectDue(t, thrown), now, provider.config)
    {
      timers := Drop(timers, t);
      Listen(false, thrown, now);
      Record(ReconnectDue(t, thrown), now);
    }

    /** The grace timer of the provider. */
    method OnGraceTimer(id: nat, now: int)
      requires Valid() && Enabled(State(), GraceDue(id), now)
      modifies this, provider
      ensures Valid() && Sound() && State() == Step(old(State()), GraceDue(id), now, provider.config)
      ensures provider.events == old(provider.events) + [Emitted(Error, now)] && provider.grace == map[]
    {
      RunKeepsInv(states, moments, |moments|, provider.config);
      EventsExactly(State(), GraceDue(id), now, provider.config);
      provider.OnGraceTimer(id, now);
      Record(GraceDue(id), now);
    }

    /** `onClose` of the provider. */
    method Close(now: int)
      requires Valid()
      modifies this, provider
      ensures Valid() && Sound() && State() == Disconnect(old(State()))
      ensures EndsTheLoop(State(), provider.config) <==> old(waits) == [] && old(timers) == []
    {
      CloseEndsTheLoopExactly(states, moments, |moments|, provider.config);
      provider.ClearErrorTimer();
      CloseStreamIfDefined();
      closed := true;
      Record(Input.Close, now);
    }
  }
}
