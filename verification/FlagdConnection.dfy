/**
 The flag sync connection of the in-process flagd service (`GrpcFetch`) together with the
 status events of `FlagdProvider`. Callbacks run to completion together with the promise
 reactions they trigger; readiness callbacks, streams and timers are what is outstanding
 between two callbacks, and each of them may come next.
 */
module FlagdConnection {

  datatype Option<+T> = None | Some(value: T)

  /** `maxBackoffMs`, and the grace period in milliseconds. */
  datatype Config = Config(fatalStatusCodes: set<int>, maxBackoffMs: int, gracePeriodMs: int)

  /** An error, with its gRPC status code if it has one. */
  datatype Failure = Failure(code: Option<int>)

  datatype Status = Stale | Ready | Error

  /** A status event of the provider, and when it was emitted. */
  datatype Emitted = Emitted(status: Status, at: int)

  /** The promise of the first `connect`. */
  datatype Promise = NotCalled | Pending | Resolved | Rejected

  /** An open stream; `first` tells that it belongs to the `listen` call that can settle the promise. */
  datatype Stream = Stream(id: nat, first: bool)

  datatype Fetch = Fetch(
    isConnected: bool, initialized: bool, errorThrottled: bool, syncStream: Option<nat>,
    promise: Promise, closed: bool, fatal: bool,
    waits: seq<bool>,       // outstanding waitForReady callbacks, true for the first listen
    streams: seq<Stream>,   // streams whose handlers are attached
    timers: seq<int>,       // pending reconnect timers, by due time
    nextId: nat)

  datatype Provider = Provider(
    isErrorState: bool, errorTimer: Option<nat>,
    grace: map<nat, int>,   // pending grace timers, by id, with their due times
    nextTimer: nat, events: seq<Emitted>, changes: nat)

  datatype State = State(f: Fetch, p: Provider)

  const INITIAL := State(
    Fetch(false, false, false, None, NotCalled, false, false, [], [], [], 0),
    Provider(false, None, map[], 0, [], 0))

  // ----- FlagdProvider -----

  function ClearErrorTimer(p: Provider): Provider {
    if p.errorTimer.None? then p
    else p.(grace := p.grace - {p.errorTimer.value}, errorTimer := None)
  }

  function HandleReconnect(p: Provider, now: int): Provider {
    var c := ClearErrorTimer(p);
    c.(isErrorState := false, events := c.events + [Emitted(Ready, now)])
  }

  function HandleDisconnect(p: Provider, now: int, c: Config): Provider {
    if p.isErrorState then p
    else p.(
      isErrorState := true,
      events := p.events + [Emitted(Stale, now)],
      errorTimer := Some(p.nextTimer),
      grace := p.grace[p.nextTimer := now + c.gracePeriodMs],
      nextTimer := p.nextTimer + 1)
  }

  function GraceExpired(p: Provider, id: nat, now: int): Provider {
    p.(events := if p.isErrorState then p.events + [Emitted(Error, now)] else p.events,
       errorTimer := None,
       grace := p.grace - {id})
  }

  /** What `initialize` does once the service has connected. */
  function Settled(p: Provider): Provider {
    ClearErrorTimer(p).(isErrorState := false)
  }

  // ----- GrpcFetch -----

  function Detach(streams: seq<Stream>, stored: Option<nat>): seq<Stream> {
    if streams == [] then []
    else (if stored == Some(streams[0].id) then [] else [streams[0]]) + Detach(streams[1..], stored)
  }

  predicate IsFatal(err: Failure, initialized: bool, c: Config) {
    !initialized && err.code.Some? && err.code.value in c.fatalStatusCodes
  }

  function Reject(f: Fetch, first: bool): Fetch {
    if first && f.promise == Pending then f.(promise := Rejected) else f
  }

  /** The reconnect timer is delayed after an explicit error of a stream. */
  function Reconnect(f: Fetch, now: int, c: Config): Fetch {
    f.(timers := f.timers + [now + if f.errorThrottled then c.maxBackoffMs else 0], errorThrottled := false)
  }

  function Failed(f: Fetch, err: Failure, first: bool, now: int, c: Config): Fetch {
    var rejected := Reject(f.(isConnected := false), first);
    if IsFatal(err, f.initialized, c) then rejected.(fatal := true) else Reconnect(rejected, now, c)
  }

  function HandleError(s: State, err: Failure, first: bool, now: int, c: Config): State {
    State(Failed(s.f, err, first, now, c), HandleDisconnect(s.p, now, c))
  }

  /** `thrown` is the error that `waitForReady` throws, if it does. */
  function Listen(s: State, first: bool, thrown: Option<Failure>, now: int, c: Config): State {
    var f := s.f.(streams := Detach(s.f.streams, s.f.syncStream));
    if thrown.Some? then HandleError(s.(f := f), thrown.value, first, now, c)
    else s.(f := f.(waits := f.waits + [first]))
  }

  function OpenStream(f: Fetch, first: bool): Fetch {
    f.(streams := f.streams + [Stream(f.nextId, first)], syncStream := Some(f.nextId), nextId := f.nextId + 1)
  }

  /** A payload arrives; `changed` tells whether it changed any flag. */
  function HandleData(s: State, first: bool, changed: bool, now: int): State {
    var p := if s.f.initialized && changed then s.p.(changes := s.p.changes + 1) else s.p;
    var pending := s.f.promise == Pending;
    State(
      if first && pending then s.f.(promise := Resolved, initialized := true, isConnected := true)
      else s.f.(isConnected := true),
      ProviderData(p, first, s.f.isConnected, pending, now))
  }

  /** The first stream settles the promise; a later one reports the reconnect. */
  function ProviderData(p: Provider, first: bool, connected: bool, pending: bool, now: int): Provider {
    if first then (if pending then Settled(p) else p)
    else if connected then p
    else HandleReconnect(p, now)
  }

  function Disconnect(s: State): State {
    State(s.f.(closed := true, streams := Detach(s.f.streams, s.f.syncStream)), ClearErrorTimer(s.p))
  }

  // ----- what may happen next -----

  datatype Input =
    | Connect(thrown: Option<Failure>)
    | Waited(wait: nat, err: Option<Failure>)
    | Data(stream: nat, changed: bool)
    | StreamError(stream: nat, failure: Failure)
    | ReconnectDue(timer: nat, thrown: Option<Failure>)
    | GraceDue(id: nat)
    | Close

  function Drop<T>(s: seq<T>, i: nat): seq<T>
    requires i < |s|
  {
    s[..i] + s[i + 1..]
  }

  /** A closed client is never ready; a stream reports its error once and then nothing. */
  predicate Enabled(s: State, i: Input, now: int) {
    match i
    case Connect(_) => s.f.promise == NotCalled && !s.f.closed
    case Waited(w, err) => w < |s.f.waits| && (s.f.closed ==> err.Some? && err.value.code.None?)
    case Data(k, _) => k < |s.f.streams|
    case StreamError(k, _) => k < |s.f.streams|
    case ReconnectDue(t, thrown) =>
      t < |s.f.timers| && s.f.timers[t] <= now && (s.f.closed && thrown.Some? ==> thrown.value.code.None?)
    case GraceDue(id) => id in s.p.grace && s.p.grace[id] <= now
    case Close => true
  }

  function Step(s: State, i: Input, now: int, c: Config): State
    requires Enabled(s, i, now)
  {
    match i
    case Connect(thrown) => Listen(s.(f := s.f.(promise := Pending)), true, thrown, now, c)
    case Waited(w, err) =>
      var f := s.f.(waits := Drop(s.f.waits, w));
      if err.Some? then HandleError(s.(f := f), err.value, s.f.waits[w], now, c)
      else s.(f := OpenStream(f, s.f.waits[w]))
    case Data(k, changed) => HandleData(s, s.f.streams[k].first, changed, now)
    case StreamError(k, err) =>
      var f := s.f.(streams := Drop(s.f.streams, k), errorThrottled := true);
      HandleError(s.(f := f), err, s.f.streams[k].first, now, c)
    case ReconnectDue(t, thrown) =>
      Listen(s.(f := s.f.(timers := Drop(s.f.timers, t))), false, thrown, now, c)
    case GraceDue(id) => s.(p := GraceExpired(s.p, id, now))
    case Close => Disconnect(s)
  }

  // ----- what every step keeps -----

  /** Which event may stand directly after which; `None` is the start. */
  predicate Follows(before: Option<Emitted>, e: Emitted, c: Config) {
    match e.status
    case Stale => before.None? || before.value.status == Ready
    case Ready => before.Some? && before.value.status != Ready
    case Error => before.Some? && before.value.status == Stale && before.value.at + c.gracePeriodMs <= e.at
  }

  function Last(events: seq<Emitted>): Option<Emitted> {
    if events == [] then None else Some(events[|events| - 1])
  }

  /**
   STALE and READY alternate, starting with STALE; between a STALE and the next READY there is at
   most one ERROR, directly after the STALE and not before the grace period has run out.
   */
  ghost predicate WellFormed(events: seq<Emitted>, c: Config) {
    forall i :: 0 <= i < |events| ==> Follows(Last(events[..i]), events[i], c)
  }

  /** The provider's fields agree with what it has emitted. */
  ghost predicate ProviderInv(p: Provider, c: Config) {
    && WellFormed(p.events, c)
    && (p.isErrorState <==> p.events != [] && Last(p.events).value.status != Ready)
    && (forall id <- p.grace :: p.errorTimer == Some(id) && id < p.nextTimer)
    && (p.errorTimer.Some? ==> p.errorTimer.value in p.grace)
    && (p.errorTimer.Some? ==>
          && p.isErrorState && Last(p.events).value.status == Stale
          && p.grace[p.errorTimer.value] == Last(p.events).value.at + c.gracePeriodMs)
  }

  function Outstanding(f: Fetch): nat {
    |f.waits| + |f.streams| + |f.timers|
  }

  predicate Running(f: Fetch) {
    f.promise != NotCalled && !f.closed && !f.fatal
  }

  /** While waiting for readiness: only the first wait can be error-free. */
  predicate WaitInv(f: Fetch, isErrorState: bool) {
    f.waits != [] ==>
      !f.isConnected && (f.waits[0] <==> f.promise == Pending) && (f.waits[0] <==> !isErrorState)
  }

  /** A reconnect timer runs only after an error has been reported. */
  predicate TimerInv(f: Fetch, isErrorState: bool) {
    f.timers != [] ==> !f.isConnected && isErrorState && f.promise != Pending
  }

  /** The stream is the stored one; the first one is error-free, a later one has recovered once connected. */
  predicate StreamInv(f: Fetch, isErrorState: bool) {
    f.streams != [] ==>
      && f.syncStream == Some(f.streams[0].id)
      && (f.streams[0].first ==>
            !isErrorState && f.promise in {Pending, Resolved} && (f.isConnected <==> f.promise == Resolved))
      && (!f.streams[0].first ==> (f.isConnected <==> !isErrorState) && f.promise != Pending)
  }

  /** How the connection relates to the promise and to the provider's error state. */
  predicate FetchInv(f: Fetch, isErrorState: bool) {
    && (Running(f) ==> Outstanding(f) == 1)
    && Outstanding(f) <= 1
    && (f.promise == NotCalled ==> Outstanding(f) == 0 && !isErrorState && !f.fatal && !f.isConnected)
    && (f.initialized <==> f.promise == Resolved)
    && (!f.fatal ==> !f.errorThrottled)
    && WaitInv(f, isErrorState) && TimerInv(f, isErrorState) && StreamInv(f, isErrorState)
  }

  ghost predicate Inv(s: State, c: Config) {
    ProviderInv(s.p, c) && FetchInv(s.f, s.p.isErrorState)
  }

  lemma Append(events: seq<Emitted>, e: Emitted, c: Config)
    requires WellFormed(events, c) && Follows(Last(events), e, c)
    ensures WellFormed(events + [e], c) && Last(events + [e]) == Some(e)
  {
    var all := events + [e];
    forall i | 0 <= i < |all| ensures Follows(Last(all[..i]), all[i], c) {
      assert all[..i] == if i < |events| then events[..i] else events;
    }
  }

  lemma ProviderKeepsInv(p: Provider, now: int, c: Config)
    requires ProviderInv(p, c)
    ensures ProviderInv(ClearErrorTimer(p), c)
    ensures ProviderInv(HandleDisconnect(p, now, c), c) && HandleDisconnect(p, now, c).isErrorState
    ensures p.isErrorState ==> ProviderInv(HandleReconnect(p, now), c)
    ensures !p.isErrorState ==> Settled(p) == p
  {
    if p.isErrorState {
      Append(p.events, Emitted(Ready, now), c);
    } else {
      Append(p.events, Emitted(Stale, now), c);
    }
  }

  lemma GraceKeepsInv(p: Provider, id: nat, now: int, c: Config)
    requires ProviderInv(p, c) && id in p.grace && p.grace[id] <= now
    ensures ProviderInv(GraceExpired(p, id, now), c) && GraceExpired(p, id, now).isErrorState == p.isErrorState
  {
    Append(p.events, Emitted(Error, now), c);
  }

  /** Nothing is outstanding: the next `listen`, or the next error, has the connection to itself. */
  ghost predicate Between(f: Fetch, first: bool, isErrorState: bool) {
    && Outstanding(f) == 0 && f.promise != NotCalled
    && (f.initialized <==> f.promise == Resolved)
    && (f.promise == Pending ==> first)
  }

  lemma NothingOutstanding(f: Fetch)
    requires Outstanding(f) == 0
    ensures f.waits == [] && f.streams == [] && f.timers == []
  {
  }

  lemma FailedKeepsInv(f: Fetch, err: Failure, first: bool, now: int, c: Config)
    requires Outstanding(f) == 0 && f.promise != NotCalled && !f.fatal
    requires (f.initialized <==> f.promise == Resolved) && (f.promise == Pending ==> first)
    ensures FetchInv(Failed(f, err, first, now, c), true) && FatalInv(Failed(f, err, first, now, c))
  {
    NothingOutstanding(f);
    var g := Failed(f, err, first, now, c);
    assert g.waits == [] && g.streams == [] && g.promise != Pending;
    assert IsFatal(err, f.initialized, c) || |g.timers| == 1;
  }

  lemma ErrorKeepsInv(s: State, err: Failure, first: bool, now: int, c: Config)
    requires ProviderInv(s.p, c) && Between(s.f, first, s.p.isErrorState) && !s.f.fatal
    ensures Inv(HandleError(s, err, first, now, c), c) && FatalInv(HandleError(s, err, first, now, c).f)
  {
    ProviderKeepsInv(s.p, now, c);
    FailedKeepsInv(s.f, err, first, now, c);
  }

  lemma ListenKeepsInv(s: State, first: bool, thrown: Option<Failure>, now: int, c: Config)
    requires ProviderInv(s.p, c) && Between(s.f, first, s.p.isErrorState) && !s.f.fatal && !s.f.isConnected
    requires !s.f.errorThrottled
    requires first ==> s.f.promise == Pending
    requires s.p.isErrorState <==> !first
    ensures Inv(Listen(s, first, thrown, now, c), c) && FatalInv(Listen(s, first, thrown, now, c).f)
  {
    if thrown.Some? {
      ErrorKeepsInv(s, thrown.value, first, now, c);
    }
  }

  lemma DetachStored(f: Fetch, isErrorState: bool)
    requires FetchInv(f, isErrorState)
    ensures Detach(f.streams, f.syncStream) == []
  {
    if f.streams != [] {
      assert f.streams == [f.streams[0]];
    }
  }

  lemma ChangesKeepInv(p: Provider, n: nat, c: Config)
    requires ProviderInv(p, c)
    ensures ProviderInv(p.(changes := n), c)
  {
  }

  lemma ProviderDataKeepsInv(p: Provider, first: bool, connected: bool, pending: bool, now: int, c: Config)
    requires ProviderInv(p, c) && (first ==> !p.isErrorState) && (!first && !connected ==> p.isErrorState)
    ensures ProviderInv(ProviderData(p, first, connected, pending, now), c)
  {
    ProviderKeepsInv(p, now, c);
  }

  lemma DataKeepsInv(s: State, k: nat, changed: bool, now: int, c: Config)
    requires Inv(s, c) && k < |s.f.streams|
    ensures Inv(HandleData(s, s.f.streams[k].first, changed, now), c)
  {
    var first := s.f.streams[k].first;
    var p := if s.f.initialized && changed then s.p.(changes := s.p.changes + 1) else s.p;
    ChangesKeepInv(s.p, s.p.changes + 1, c);
    DataKeepsFetchInv(s.f, s.p.isErrorState, k);
    ProviderDataKeepsInv(p, first, s.f.isConnected, s.f.promise == Pending, now, c);
  }

  lemma DataKeepsFetchInv(f: Fetch, isErrorState: bool, k: nat)
    requires FetchInv(f, isErrorState) && k < |f.streams|
    ensures f.streams[k].first && f.promise == Pending ==>
              FetchInv(f.(promise := Resolved, initialized := true, isConnected := true), false)
    ensures f.streams[k].first && f.promise != Pending ==> FetchInv(f.(isConnected := true), isErrorState)
    ensures !f.streams[k].first ==> FetchInv(f.(isConnected := true), false) && (f.isConnected <==> !isErrorState)
  {
  }

  /** A fatal status is final: nothing is outstanding any more. */
  ghost predicate FatalInv(f: Fetch) {
    f.fatal ==> Outstanding(f) == 0
  }

  lemma WaitedKeepsInv(s: State, w: nat, err: Option<Failure>, now: int, c: Config)
    requires Inv(s, c) && FatalInv(s.f) && Enabled(s, Waited(w, err), now)
    ensures Inv(Step(s, Waited(w, err), now, c), c) && FatalInv(Step(s, Waited(w, err), now, c).f)
  {
    var first := s.f.waits[w];
    var f := s.f.(waits := Drop(s.f.waits, w));
    if err.Some? {
      ErrorKeepsInv(s.(f := f), err.value, first, now, c);
    }
  }

  /** A stream is all that is outstanding. */
  lemma StreamIsAlone(f: Fetch, isErrorState: bool, k: nat)
    requires FetchInv(f, isErrorState) && FatalInv(f) && k < |f.streams|
    ensures k == 0 && Drop(f.streams, k) == [] && f.waits == [] && f.timers == [] && !f.fatal
    ensures f.promise != NotCalled && (f.promise == Pending ==> f.streams[k].first)
  {
  }

  lemma StreamErrorKeepsInv(s: State, k: nat, err: Failure, now: int, c: Config)
    requires Inv(s, c) && FatalInv(s.f) && k < |s.f.streams|
    ensures Inv(Step(s, StreamError(k, err), now, c), c) && FatalInv(Step(s, StreamError(k, err), now, c).f)
  {
    StreamIsAlone(s.f, s.p.isErrorState, k);
    var f, first := s.f.(streams := Drop(s.f.streams, k), errorThrottled := true), s.f.streams[k].first;
    assert Between(f, first, s.p.isErrorState);
    ErrorKeepsInv(s.(f := f), err, first, now, c);
    assert Step(s, StreamError(k, err), now, c) == HandleError(s.(f := f), err, first, now, c);
  }

  lemma ReconnectKeepsInv(s: State, t: nat, thrown: Option<Failure>, now: int, c: Config)
    requires Inv(s, c) && FatalInv(s.f) && t < |s.f.timers| && s.f.timers[t] <= now
    requires Enabled(s, ReconnectDue(t, thrown), now)
    ensures Inv(Step(s, ReconnectDue(t, thrown), now, c), c) && FatalInv(Step(s, ReconnectDue(t, thrown), now, c).f)
  {
    ListenKeepsInv(s.(f := s.f.(timers := Drop(s.f.timers, t))), false, thrown, now, c);
  }

  lemma StepKeepsInv(s: State, i: Input, now: int, c: Config)
    requires Inv(s, c) && FatalInv(s.f) && Enabled(s, i, now)
    ensures Inv(Step(s, i, now, c), c) && FatalInv(Step(s, i, now, c).f)
  {
    match i
    case Connect(thrown) => ListenKeepsInv(s.(f := s.f.(promise := Pending)), true, thrown, now, c);
    case Waited(w, err) => WaitedKeepsInv(s, w, err, now, c);
    case Data(k, changed) => DataKeepsInv(s, k, changed, now, c);
    case StreamError(k, err) => StreamErrorKeepsInv(s, k, err, now, c);
    case ReconnectDue(t, thrown) => ReconnectKeepsInv(s, t, thrown, now, c);
    case GraceDue(id) => GraceKeepsInv(s.p, id, now, c);
    case Close =>
      DetachStored(s.f, s.p.isErrorState);
      ProviderKeepsInv(s.p, now, c);
  }

  // ----- runs -----

  datatype Moment = Moment(input: Input, now: int)

  ghost predicate IsRun(states: seq<State>, moments: seq<Moment>, c: Config) {
    && |states| == |moments| + 1
    && (forall i :: 0 <= i < |moments| ==> Follow(states[i], moments[i], states[i + 1], c))
  }

  ghost predicate Follow(s: State, m: Moment, t: State, c: Config) {
    Enabled(s, m.input, m.now) && t == Step(s, m.input, m.now, c)
  }

  lemma LongerRun(states: seq<State>, moments: seq<Moment>, m: Moment, t: State, c: Config)
    requires IsRun(states, moments, c) && Follow(states[|moments|], m, t, c)
    ensures IsRun(states + [t], moments + [m], c)
  {
    var longer, more := states + [t], moments + [m];
    forall n | 0 <= n < |more| ensures Follow(longer[n], more[n], longer[n + 1], c) {
      if n < |moments| {
        assert longer[n] == states[n] && more[n] == moments[n] && longer[n + 1] == states[n + 1];
      }
    }
  }

  lemma {:induction false} RunKeepsInv(states: seq<State>, moments: seq<Moment>, n: nat, c: Config)
    requires IsRun(states, moments, c) && n < |states| && states[0] == INITIAL
    ensures Inv(states[n], c) && FatalInv(states[n].f)
  {
    if n == 0 {
    } else {
      RunKeepsInv(states, moments, n - 1, c);
      assert Follow(states[n - 1], moments[n - 1], states[n], c);
      StepKeepsInv(states[n - 1], moments[n - 1].input, moments[n - 1].now, c);
    }
  }

  /**
   From `connect` until close or a fatal status, exactly one readiness callback, stream or reconnect
   timer is outstanding; after a fatal status, none.
   */
  lemma ExactlyOneOutstanding(states: seq<State>, moments: seq<Moment>, n: nat, c: Config)
    requires IsRun(states, moments, c) && n < |states| && states[0] == INITIAL
    ensures Running(states[n].f) ==> Outstanding(states[n].f) == 1
    ensures states[n].f.fatal ==> Outstanding(states[n].f) == 0
  {
    RunKeepsInv(states, moments, n, c);
  }

  /** In every run the provider's status events are well formed, even after close. */
  lemma StatusEventsAlternate(states: seq<State>, moments: seq<Moment>, n: nat, c: Config)
    requires IsRun(states, moments, c) && n < |states| && states[0] == INITIAL
    ensures WellFormed(states[n].p.events, c)
    ensures Running(states[n].f) && states[n].f.isConnected ==>
              states[n].p.events == [] || Last(states[n].p.events).value.status == Ready
  {
    RunKeepsInv(states, moments, n, c);
  }

  lemma ErrorDelay(s: State, err: Failure, first: bool, now: int, c: Config)
    requires s.f.timers == []
    ensures var timers := HandleError(s, err, first, now, c).f.timers;
            timers == [] || timers == [now + if s.f.errorThrottled then c.maxBackoffMs else 0]
  {
  }

  lemma ListenDelay(s: State, first: bool, thrown: Option<Failure>, now: int, c: Config)
    requires s.f.timers == [] && !s.f.errorThrottled
    ensures var timers := Listen(s, first, thrown, now, c).f.timers; timers == [] || timers == [now]
  {
    if thrown.Some? {
      ErrorDelay(s.(f := s.f.(streams := Detach(s.f.streams, s.f.syncStream))), thrown.value, first, now, c);
    }
  }

  lemma OtherTimers(f: Fetch, isErrorState: bool)
    requires FetchInv(f, isErrorState) && FatalInv(f)
    ensures f.promise == NotCalled || f.waits != [] || f.streams != [] ==> f.timers == []
    ensures f.promise == NotCalled || f.waits != [] || f.timers != [] ==> !f.errorThrottled
    ensures forall t: nat | t < |f.timers| :: Drop(f.timers, t) == []
  {
  }

  lemma WaitedDelay(s: State, w: nat, err: Option<Failure>, now: int, c: Config)
    requires w < |s.f.waits| && s.f.timers == [] && !s.f.errorThrottled && Enabled(s, Waited(w, err), now)
    ensures var timers := Step(s, Waited(w, err), now, c).f.timers; timers == [] || timers == [now]
  {
    if err.Some? {
      ErrorDelay(s.(f := s.f.(waits := Drop(s.f.waits, w))), err.value, s.f.waits[w], now, c);
    }
  }

  lemma StreamErrorDelay(s: State, k: nat, err: Failure, now: int, c: Config)
    requires k < |s.f.streams| && s.f.timers == []
    ensures var timers := Step(s, StreamError(k, err), now, c).f.timers;
            timers == [] || timers == [now + c.maxBackoffMs]
  {
    var f := s.f.(streams := Drop(s.f.streams, k), errorThrottled := true);
    ErrorDelay(s.(f := f), err, s.f.streams[k].first, now, c);
  }

  lemma ReconnectDueDelay(s: State, t: nat, thrown: Option<Failure>, now: int, c: Config)
    requires Enabled(s, ReconnectDue(t, thrown), now) && Drop(s.f.timers, t) == [] && !s.f.errorThrottled
    ensures var timers := Step(s, ReconnectDue(t, thrown), now, c).f.timers; timers == [] || timers == [now]
  {
    ListenDelay(s.(f := s.f.(timers := Drop(s.f.timers, t))), false, thrown, now, c);
  }

  /** Only an error that a stream reports delays the reconnect, by the maximal backoff. */
  lemma ReconnectDelay(s: State, i: Input, now: int, c: Config)
    requires Inv(s, c) && FatalInv(s.f) && Enabled(s, i, now)
    requires i.Connect? || i.Waited? || i.StreamError? || i.ReconnectDue?
    ensures var timers := Step(s, i, now, c).f.timers;
            timers == [] || timers == [now + if i.StreamError? then c.maxBackoffMs else 0]
  {
    OtherTimers(s.f, s.p.isErrorState);
    match i {
      case Connect(thrown) => ListenDelay(s.(f := s.f.(promise := Pending)), true, thrown, now, c);
      case Waited(w, err) => WaitedDelay(s, w, err, now, c);
      case StreamError(k, err) => StreamErrorDelay(s, k, err, now, c);
      case ReconnectDue(t, thrown) => ReconnectDueDelay(s, t, thrown, now, c);
      case _ =>
    }
  }

  // ----- a rejected first connection -----

  predicate RejectedFrom(s: State, t: State) {
    t.f.promise == Rejected && !t.f.initialized && t.p.changes == s.p.changes
  }

  lemma RejectedData(s: State, first: bool, changed: bool, now: int)
    requires s.f.promise == Rejected && !s.f.initialized
    ensures RejectedFrom(s, HandleData(s, first, changed, now))
  {
  }

  lemma RejectedError(s: State, err: Failure, first: bool, now: int, c: Config)
    requires s.f.promise == Rejected && !s.f.initialized
    ensures RejectedFrom(s, HandleError(s, err, first, now, c))
  {
  }

  lemma RejectedStep(states: seq<State>, moments: seq<Moment>, n: nat, c: Config)
    requires IsRun(states, moments, c) && n < |moments|
    requires states[n].f.promise == Rejected && !states[n].f.initialized
    ensures RejectedFrom(states[n], states[n + 1])
  {
    var s, m := states[n], moments[n];
    assert Follow(s, m, states[n + 1], c);
    match m.input
    case Data(k, changed) => RejectedData(s, s.f.streams[k].first, changed, m.now);
    case StreamError(k, err) =>
      var f := s.f.(streams := Drop(s.f.streams, k), errorThrottled := true);
      RejectedError(s.(f := f), err, s.f.streams[k].first, m.now, c);
    case _ =>
  }

  lemma {:induction false} RejectedStays(states: seq<State>, moments: seq<Moment>, m: nat, n: nat, c: Config)
    requires IsRun(states, moments, c) && m <= n < |states|
    requires states[m].f.promise == Rejected && !states[m].f.initialized
    ensures states[n].f.promise == Rejected && !states[n].f.initialized
    ensures states[n].p.changes == states[m].p.changes
    decreases n
  {
    if m == n {
    } else {
      RejectedStays(states, moments, m, n - 1, c);
      RejectedStep(states, moments, n - 1, c);
    }
  }

  /**
   Once the first connection has been rejected, `initialized` stays false for good: no configuration
   change is ever reported, whatever payloads a later connection brings.
   */
  lemma RejectedIsNeverInitialized(states: seq<State>, moments: seq<Moment>, m: nat, n: nat, c: Config)
    requires IsRun(states, moments, c) && m <= n < |states| && states[0] == INITIAL
    requires states[m].f.promise == Rejected
    ensures !states[n].f.initialized && states[n].p.changes == states[m].p.changes
  {
    RunKeepsInv(states, moments, m, c);
    RejectedStays(states, moments, m, n, c);
  }

  // ----- after close -----

  /** No stream, no grace timer, and no error left to report. */
  predicate Quiet(s: State) {
    s.f.closed && s.f.streams == [] && s.p.grace == map[] && s.p.errorTimer == None
    && (s.p.isErrorState || (s.f.waits == [] && s.f.timers == []))
  }

  lemma QuietStep(s: State, i: Input, now: int, c: Config)
    requires Quiet(s) && s.f.promise != NotCalled && Enabled(s, i, now)
    ensures Quiet(Step(s, i, now, c)) && Step(s, i, now, c).p.events == s.p.events
    ensures Step(s, i, now, c).f.promise != NotCalled
  {
  }

  lemma {:induction false} QuietForever(states: seq<State>, moments: seq<Moment>, n: nat, c: Config)
    requires IsRun(states, moments, c) && n < |states|
    requires Quiet(states[0]) && states[0].f.promise != NotCalled
    ensures Quiet(states[n]) && states[n].p.events == states[0].p.events && states[n].f.promise != NotCalled
  {
    if n == 0 {
    } else {
      QuietForever(states, moments, n - 1, c);
      assert Follow(states[n - 1], moments[n - 1], states[n], c);
      QuietStep(states[n - 1], moments[n - 1].input, moments[n - 1].now, c);
    }
  }

  ghost predicate SilentAfter(s: State, c: Config) {
    forall states: seq<State>, moments: seq<Moment> ::
      IsRun(states, moments, c) && states[0] == s ==> states[|moments|].p.events == s.p.events
  }

  lemma FirstWaitSpeaks(s: State, now: int, c: Config)
    requires FetchInv(s.f, s.p.isErrorState) && true in s.f.waits
    ensures !SilentAfter(Disconnect(s), c)
  {
    assert s.f.waits == [true];
    var closed := Disconnect(s);
    var m := Moment(Waited(0, Some(Failure(None))), now);
    var t := Step(closed, m.input, now, c);
    assert t.p.events == s.p.events + [Emitted(Stale, now)];
    var states, moments := [closed, t], [m];
    assert Follow(states[0], moments[0], states[1], c);
    assert IsRun(states, moments, c);
    assert states[|moments|].p.events != closed.p.events;
  }

  lemma ClosedIsQuiet(s: State, c: Config)
    requires Inv(s, c) && s.f.promise != NotCalled && true !in s.f.waits
    ensures Quiet(Disconnect(s))
  {
    DetachStored(s.f, s.p.isErrorState);
    assert s.f.waits != [] ==> s.f.waits == [s.f.waits[0]];
    assert ClearErrorTimer(s.p).grace == map[];
  }

  /** Close silences the provider for good, exactly unless it comes during the wait for the first readiness. */
  lemma CloseIsSilentExactly(s: State, now: int, c: Config)
    requires Inv(s, c) && s.f.promise != NotCalled
    ensures SilentAfter(Disconnect(s), c) <==> true !in s.f.waits
  {
    if true in s.f.waits {
      FirstWaitSpeaks(s, now, c);
    } else {
      var closed := Disconnect(s);
      ClosedIsQuiet(s, c);
      forall states: seq<State>, moments: seq<Moment> | IsRun(states, moments, c) && states[0] == closed
        ensures states[|moments|].p.events == closed.p.events
      {
        QuietForever(states, moments, |moments|, c);
      }
    }
  }

  /** Closed, with a readiness callback or a reconnect timer still to come. */
  predicate Looping(s: State) {
    s.f.closed && s.f.streams == [] && |s.f.waits| + |s.f.timers| == 1
  }

  /** Closed, with nothing still to come. */
  predicate Ended(s: State) {
    s.f.closed && Outstanding(s.f) == 0
  }

  lemma ListenLoops(s: State, thrown: Option<Failure>, now: int, c: Config)
    requires s.f.closed && s.f.streams == [] && s.f.waits == [] && s.f.timers == []
    requires thrown.Some? ==> thrown.value.code.None?
    ensures Looping(Listen(s, false, thrown, now, c))
  {
  }

  /** What is pending at close survives it, and so does all that follows. */
  lemma LoopSurvivesClose(s: State, i: Input, now: int, c: Config)
    requires Looping(s) && Enabled(s, i, now)
    ensures Looping(Step(s, i, now, c))
  {
    match i
    case ReconnectDue(t, thrown) => ListenLoops(s.(f := s.f.(timers := Drop(s.f.timers, t))), thrown, now, c);
    case _ =>
  }

  lemma EndedStaysEnded(s: State, i: Input, now: int, c: Config)
    requires Ended(s) && Enabled(s, i, now)
    ensures Ended(Step(s, i, now, c))
  {
    NothingOutstanding(s.f);
  }

  lemma {:induction false} LoopsForever(states: seq<State>, moments: seq<Moment>, n: nat, c: Config)
    requires IsRun(states, moments, c) && n < |states| && Looping(states[0])
    ensures Looping(states[n])
  {
    if n == 0 {
    } else {
      LoopsForever(states, moments, n - 1, c);
      assert Follow(states[n - 1], moments[n - 1], states[n], c);
      LoopSurvivesClose(states[n - 1], moments[n - 1].input, moments[n - 1].now, c);
    }
  }

  lemma {:induction false} EndedForever(states: seq<State>, moments: seq<Moment>, n: nat, c: Config)
    requires IsRun(states, moments, c) && n < |states| && Ended(states[0])
    ensures Ended(states[n])
  {
    if n == 0 {
    } else {
      EndedForever(states, moments, n - 1, c);
      assert Follow(states[n - 1], moments[n - 1], states[n], c);
      EndedStaysEnded(states[n - 1], moments[n - 1].input, moments[n - 1].now, c);
    }
  }

  /** Close leaves nothing but a pending readiness callback or reconnect timer. */
  lemma CloseLeaves(s: State, c: Config)
    requires Inv(s, c)
    ensures if s.f.waits == [] && s.f.timers == [] then Ended(Disconnect(s)) else Looping(Disconnect(s))
  {
    DetachStored(s.f, s.p.isErrorState);
  }

  /** After close, whatever happens, there is nothing outstanding any more. */
  ghost predicate EndsTheLoop(s: State, c: Config) {
    forall states: seq<State>, moments: seq<Moment> ::
      IsRun(states, moments, c) && states[0] == s ==> Outstanding(states[|moments|].f) == 0
  }

  /** Either nothing is outstanding ever again, or something always is. */
  lemma CloseEndsOrLoops(s: State, c: Config)
    requires Inv(s, c)
    ensures EndsTheLoop(Disconnect(s), c) <==> s.f.waits == [] && s.f.timers == []
    ensures s.f.waits != [] || s.f.timers != [] ==>
              forall states: seq<State>, moments: seq<Moment> ::
                IsRun(states, moments, c) && states[0] == Disconnect(s) ==> Looping(states[|moments|])
  {
    var closed := Disconnect(s);
    CloseLeaves(s, c);
    if s.f.waits == [] && s.f.timers == [] {
      forall states: seq<State>, moments: seq<Moment> | IsRun(states, moments, c) && states[0] == closed
        ensures Outstanding(states[|moments|].f) == 0
      {
        EndedForever(states, moments, |moments|, c);
      }
    } else {
      forall states: seq<State>, moments: seq<Moment> | IsRun(states, moments, c) && states[0] == closed
        ensures Looping(states[|moments|])
      {
        LoopsForever(states, moments, |moments|, c);
      }
      var states, moments := [closed], [];
      assert IsRun(states, moments, c) && states[|moments|] == closed;
    }
  }

  /**
   At any point of any run, close ends the reconnect loop if and only if no readiness callback and no
   reconnect timer is pending then. Otherwise the loop never ends: in every state of every continuation one
   of the two is outstanding.
   */
  lemma CloseEndsTheLoopExactly(states: seq<State>, moments: seq<Moment>, n: nat, c: Config)
    requires IsRun(states, moments, c) && n < |states| && states[0] == INITIAL
    ensures var s := states[n]; EndsTheLoop(Disconnect(s), c) <==> s.f.waits == [] && s.f.timers == []
    ensures states[n].f.waits != [] || states[n].f.timers != [] ==>
              forall later: seq<State>, after: seq<Moment> ::
                IsRun(later, after, c) && later[0] == Disconnect(states[n]) ==> Looping(later[|after|])
  {
    RunKeepsInv(states, moments, n, c);
    CloseEndsOrLoops(states[n], c);
  }
}
