/**
 What each callback does to the flagd connection and what the provider emits for it; over runs, which interruptions
 end in an ERROR.
 */
module FlagdEffects {
  import opened FlagdConnection

  // ----- events -----

  /** The last status event says that the connection is interrupted. */
  predicate Interrupted(events: seq<Emitted>) {
    events != [] && events[|events| - 1].status != Ready
  }

  /** The error that an input brings, if it brings one. */
  function ErrorOf(s: State, i: Input): Option<Failure> {
    match i
    case Connect(thrown) => thrown
    case Waited(_, err) => err
    case StreamError(_, failure) => Some(failure)
    case ReconnectDue(_, thrown) => thrown
    case _ => None
  }

  lemma DisconnectEmits(p: Provider, now: int, c: Config)
    requires ProviderInv(p, c)
    ensures var t := HandleDisconnect(p, now, c);
            && t.changes == p.changes
            && if Interrupted(p.events) then t.events == p.events && t.grace == p.grace
               else
                 && t.events == p.events + [Emitted(Stale, now)]
                 && t.grace == map[p.nextTimer := now + c.gracePeriodMs]
  {
    if !Interrupted(p.events) {
      assert p.grace == map[];
    }
  }

  lemma ErrorReachesProvider(s: State, i: Input, now: int, c: Config)
    requires Enabled(s, i, now) && (i.Connect? || i.Waited? || i.StreamError? || i.ReconnectDue?)
    ensures Step(s, i, now, c).p == if ErrorOf(s, i).Some? then HandleDisconnect(s.p, now, c) else s.p
  {
  }

  lemma GraceEmits(p: Provider, id: nat, now: int, c: Config)
    requires ProviderInv(p, c) && id in p.grace
    ensures var t := GraceExpired(p, id, now);
            t.events == p.events + [Emitted(Error, now)] && t.grace == map[] && t.changes == p.changes
  {
  }

  lemma ClearedIsEmpty(p: Provider, c: Config)
    requires ProviderInv(p, c)
    ensures var t := ClearErrorTimer(p); t.grace == map[] && t.events == p.events && t.changes == p.changes
  {
  }

  lemma PayloadEmits(p: Provider, first: bool, connected: bool, pending: bool, now: int, c: Config)
    requires ProviderInv(p, c)
    requires if first then !p.isErrorState else (connected <==> !p.isErrorState)
    ensures var t := ProviderData(p, first, connected, pending, now);
            && t.changes == p.changes
            && if Interrupted(p.events) then t.events == p.events + [Emitted(Ready, now)] && t.grace == map[]
               else t.events == p.events && t.grace == p.grace
  {
    ClearedIsEmpty(p, c);
    ProviderKeepsInv(p, now, c);
  }

  /** What a payload makes the provider emit. */
  lemma DataEmits(s: State, k: nat, changed: bool, now: int, c: Config)
    requires Inv(s, c) && k < |s.f.streams|
    ensures var t := Step(s, Data(k, changed), now, c).p;
            && t.changes == s.p.changes + (if s.f.promise == Resolved && changed then 1 else 0)
            && if Interrupted(s.p.events) then t.events == s.p.events + [Emitted(Ready, now)] && t.grace == map[]
               else t.events == s.p.events && t.grace == s.p.grace
  {
    var first := s.f.streams[k].first;
    var p := if s.f.initialized && changed then s.p.(changes := s.p.changes + 1) else s.p;
    OnlyStream(s.f, s.p.isErrorState, k);
    ChangesKeepInv(s.p, s.p.changes + 1, c);
    PayloadEmits(p, first, s.f.isConnected, s.f.promise == Pending, now, c);
  }

  lemma OnlyStream(f: Fetch, isErrorState: bool, k: nat)
    requires FetchInv(f, isErrorState) && k < |f.streams|
    ensures k == 0 && (f.initialized <==> f.promise == Resolved)
    ensures f.streams[k].first ==> !isErrorState && (f.isConnected <==> f.promise == Resolved)
    ensures !f.streams[k].first ==> (f.isConnected <==> !isErrorState)
  {
  }

  /**
   STALE comes with the first error of an interruption, READY with the first payload after it, and ERROR with its
   grace timer, which STALE arms and READY, ERROR and close end. A changed payload is reported once, after the first
   connection has succeeded.
   */
  lemma EventsExactly(s: State, i: Input, now: int, c: Config)
    requires Inv(s, c) && Enabled(s, i, now)
    ensures var t := Step(s, i, now, c).p;
            if i.GraceDue? then t.events == s.p.events + [Emitted(Error, now)] && t.grace == map[]
            else if i.Close? then t.events == s.p.events && t.grace == map[]
            else if i.Data? && Interrupted(s.p.events) then
              t.events == s.p.events + [Emitted(Ready, now)] && t.grace == map[]
            else if ErrorOf(s, i).Some? && !Interrupted(s.p.events) then
              && t.events == s.p.events + [Emitted(Stale, now)]
              && t.grace == map[s.p.nextTimer := now + c.gracePeriodMs]
            else t.events == s.p.events && t.grace == s.p.grace
    ensures Step(s, i, now, c).p.changes
            == s.p.changes + if i.Data? && i.changed && s.f.promise == Resolved then 1 else 0
  {
    match i
    case GraceDue(id) => GraceEmits(s.p, id, now, c);
    case Close => ClearedIsEmpty(s.p, c);
    case Data(k, changed) => DataEmits(s, k, changed, now, c);
    case _ =>
      ErrorReachesProvider(s, i, now, c);
      DisconnectEmits(s.p, now, c);
  }

  // ----- the connection -----

  /** A status that ends the loop: one of the configured ones, before the first connection has succeeded. */
  predicate EndsLoop(s: State, err: Failure, c: Config) {
    s.f.promise != Resolved && err.code.Some? && err.code.value in c.fatalStatusCodes
  }

  /** Nothing but these is outstanding. */
  predicate Leaves(f: Fetch, waits: seq<bool>, streams: seq<Stream>, timers: seq<int>) {
    f.waits == waits && f.streams == streams && f.timers == timers
  }

  lemma FailedLeaves(f: Fetch, err: Failure, first: bool, now: int, c: Config)
    requires Outstanding(f) == 0 && (f.initialized <==> f.promise == Resolved)
    requires f.promise == Pending ==> first
    ensures var t := Failed(f, err, first, now, c);
            var ends := f.promise != Resolved && err.code.Some? && err.code.value in c.fatalStatusCodes;
            && Leaves(t, [], [], if ends then [] else [now + if f.errorThrottled then c.maxBackoffMs else 0])
            && t.fatal == (f.fatal || ends) && !t.isConnected && t.closed == f.closed
            && t.promise == (if f.promise == Pending then Rejected else f.promise)
  {
    NothingOutstanding(f);
  }

  /** Nothing is left after a fatal error and one reconnect timer after any other; a waiting `connect` is rejected. */
  ghost predicate AfterError(s: State, i: Input, err: Failure, now: int, c: Config, f: Fetch) {
    && (if EndsLoop(s, err, c) then Leaves(f, [], [], [])
        else Leaves(f, [], [], [now + if i.StreamError? then c.maxBackoffMs else 0]))
    && f.fatal == EndsLoop(s, err, c) && !f.isConnected && f.closed == s.f.closed
    && f.promise == if i.Connect? || s.f.promise == Pending then Rejected else s.f.promise
  }

  lemma ConnectFails(s: State, err: Failure, now: int, c: Config)
    requires Inv(s, c) && FatalInv(s.f) && Enabled(s, Connect(Some(err)), now)
    ensures AfterError(s, Connect(Some(err)), err, now, c, Step(s, Connect(Some(err)), now, c).f)
  {
    NothingOutstanding(s.f);
    FailedLeaves(s.f.(promise := Pending), err, true, now, c);
  }

  lemma WaitFails(s: State, w: nat, err: Failure, now: int, c: Config)
    requires Inv(s, c) && FatalInv(s.f) && Enabled(s, Waited(w, Some(err)), now)
    ensures AfterError(s, Waited(w, Some(err)), err, now, c, Step(s, Waited(w, Some(err)), now, c).f)
  {
    OneWait(s.f, s.p.isErrorState, w);
    FailedLeaves(s.f.(waits := Drop(s.f.waits, w)), err, s.f.waits[w], now, c);
  }

  lemma OneWait(f: Fetch, isErrorState: bool, w: nat)
    requires FetchInv(f, isErrorState) && FatalInv(f) && w < |f.waits|
    ensures w == 0 && Drop(f.waits, w) == [] && f.streams == [] && f.timers == [] && !f.fatal && !f.errorThrottled
    ensures (f.waits[w] <==> f.promise == Pending) && f.promise != NotCalled && !f.isConnected
  {
  }

  lemma StreamFails(s: State, k: nat, err: Failure, now: int, c: Config)
    requires Inv(s, c) && FatalInv(s.f) && Enabled(s, StreamError(k, err), now)
    ensures AfterError(s, StreamError(k, err), err, now, c, Step(s, StreamError(k, err), now, c).f)
  {
    StreamIsAlone(s.f, s.p.isErrorState, k);
    var f := s.f.(streams := Drop(s.f.streams, k), errorThrottled := true);
    FailedLeaves(f, err, s.f.streams[k].first, now, c);
  }

  lemma OneTimer(f: Fetch, isErrorState: bool, t: nat)
    requires FetchInv(f, isErrorState) && FatalInv(f) && t < |f.timers|
    ensures t == 0 && Drop(f.timers, t) == [] && f.streams == [] && f.waits == [] && !f.fatal && !f.errorThrottled
    ensures f.promise != Pending && f.promise != NotCalled && !f.isConnected
  {
  }

  lemma ReconnectFails(s: State, t: nat, err: Failure, now: int, c: Config)
    requires Inv(s, c) && FatalInv(s.f) && Enabled(s, ReconnectDue(t, Some(err)), now)
    ensures AfterError(s, ReconnectDue(t, Some(err)), err, now, c, Step(s, ReconnectDue(t, Some(err)), now, c).f)
  {
    OneTimer(s.f, s.p.isErrorState, t);
    FailedLeaves(s.f.(timers := Drop(s.f.timers, t)), err, false, now, c);
  }

  /** What a callback without an error leaves. */
  ghost predicate AfterSuccess(s: State, i: Input, f: Fetch) {
    match i
    case Connect(_) => Leaves(f, [true], [], []) && f.promise == Pending && f.isConnected == s.f.isConnected
    case Waited(w, _) =>
      && Leaves(f, [], [Stream(s.f.nextId, s.f.waits == [true])], []) && f.syncStream == Some(s.f.nextId)
      && f.promise == s.f.promise && f.isConnected == s.f.isConnected
    case ReconnectDue(_, _) =>
      Leaves(f, [false], [], []) && f.promise == s.f.promise && f.isConnected == s.f.isConnected
    case Data(_, _) =>
      && Leaves(f, s.f.waits, s.f.streams, s.f.timers) && f.isConnected
      && f.promise == if s.f.promise == Pending then Resolved else s.f.promise
    case GraceDue(_) => f == s.f
    case Close => f == s.f.(closed := true, streams := [])
    case _ => true
  }

  lemma DataConnects(s: State, k: nat, changed: bool, now: int, c: Config)
    requires Inv(s, c) && FatalInv(s.f) && k < |s.f.streams|
    ensures AfterSuccess(s, Data(k, changed), Step(s, Data(k, changed), now, c).f)
  {
    StreamIsAlone(s.f, s.p.isErrorState, k);
  }

  lemma SuccessLeaves(s: State, i: Input, now: int, c: Config)
    requires Inv(s, c) && FatalInv(s.f) && Enabled(s, i, now) && ErrorOf(s, i).None?
    ensures AfterSuccess(s, i, Step(s, i, now, c).f)
  {
    match i
    case Connect(_) => NothingOutstanding(s.f);
    case Waited(w, _) => OneWait(s.f, s.p.isErrorState, w);
    case ReconnectDue(t, _) => OneTimer(s.f, s.p.isErrorState, t);
    case Data(k, changed) => DataConnects(s, k, changed, now, c);
    case Close => DetachStored(s.f, s.p.isErrorState);
    case GraceDue(_) =>
  }

  lemma ErrorLeaves(s: State, i: Input, now: int, c: Config)
    requires Inv(s, c) && FatalInv(s.f) && Enabled(s, i, now) && ErrorOf(s, i).Some?
    ensures AfterError(s, i, ErrorOf(s, i).value, now, c, Step(s, i, now, c).f)
  {
    match i
    case Connect(thrown) => ConnectFails(s, thrown.value, now, c);
    case Waited(w, err) => WaitFails(s, w, err.value, now, c);
    case StreamError(k, err) => StreamFails(s, k, err, now, c);
    case ReconnectDue(t, thrown) => ReconnectFails(s, t, thrown.value, now, c);
  }

  /**
   Exactly what is outstanding after a callback, what becomes of the promise, and when the loop ends: on a fatal
   status before the first connection has succeeded, and on no other.
   */
  lemma ConnectionChangesExactly(s: State, i: Input, now: int, c: Config)
    requires Inv(s, c) && FatalInv(s.f) && Enabled(s, i, now)
    ensures var f := Step(s, i, now, c).f;
            if ErrorOf(s, i).Some? then AfterError(s, i, ErrorOf(s, i).value, now, c, f)
            else AfterSuccess(s, i, f) && f.fatal == s.f.fatal && (i.Close? || f.closed == s.f.closed)
  {
    if ErrorOf(s, i).Some? {
      ErrorLeaves(s, i, now, c);
    } else {
      SuccessLeaves(s, i, now, c);
      SuccessIsNotFatal(s, i, now, c);
    }
  }

  lemma SuccessIsNotFatal(s: State, i: Input, now: int, c: Config)
    requires Enabled(s, i, now) && ErrorOf(s, i).None?
    ensures var f := Step(s, i, now, c).f; f.fatal == s.f.fatal && (i.Close? || f.closed == s.f.closed)
  {
  }

  // ----- which interruptions end in an ERROR -----

  /** The inputs that end an interruption before its grace period is over. */
  predicate EndsInterruption(i: Input) {
    i.Data? || i.Close?
  }

  lemma FollowExtends(s: State, m: Moment, t: State, c: Config)
    requires Inv(s, c) && Follow(s, m, t, c)
    ensures s.p.events <= t.p.events
  {
    EventsExactly(s, m.input, m.now, c);
  }

  lemma StepExtends(states: seq<State>, moments: seq<Moment>, n: nat, c: Config)
    requires IsRun(states, moments, c) && states[0] == INITIAL && n < |moments|
    ensures states[n].p.events <= states[n + 1].p.events
  {
    RunKeepsInv(states, moments, n, c);
    assert Follow(states[n], moments[n], states[n + 1], c);
    FollowExtends(states[n], moments[n], states[n + 1], c);
  }

  lemma {:induction false} EachExtends(events: seq<seq<Emitted>>, m: nat, n: nat)
    requires m <= n < |events| && forall k :: m <= k < n ==> events[k] <= events[k + 1]
    ensures events[m] <= events[n]
    decreases n
  {
    if m < n {
      EachExtends(events, m, n - 1);
    }
  }

  lemma EventsExtend(states: seq<State>, moments: seq<Moment>, m: nat, n: nat, c: Config)
    requires IsRun(states, moments, c) && states[0] == INITIAL && m <= n < |states|
    ensures states[m].p.events <= states[n].p.events
  {
    var events := seq(|states|, k requires 0 <= k < |states| => states[k].p.events);
    forall k | m <= k < n ensures events[k] <= events[k + 1] {
      StepExtends(states, moments, k, c);
    }
    EachExtends(events, m, n);
  }

  /** Still interrupted, with the grace timer pending. */
  ghost predicate Waits(s: State, events: seq<Emitted>) {
    s.p.events == events && Interrupted(events) && s.p.grace != map[]
  }

  /** Interrupted at close: nothing is ever emitted again. */
  ghost predicate Cut(s: State, events: seq<Emitted>) {
    s.p.events == events && Quiet(s) && s.f.promise != NotCalled
  }

  lemma FollowWaits(s: State, m: Moment, t: State, events: seq<Emitted>, c: Config)
    requires Inv(s, c) && FatalInv(s.f) && Waits(s, events) && Follow(s, m, t, c)
    ensures if m.input.GraceDue? then t.p.events == events + [Emitted(Error, m.now)]
            else if m.input.Data? then t.p.events == events + [Emitted(Ready, m.now)]
            else if m.input.Close? then Cut(t, events)
            else Waits(t, events)
  {
    EventsExactly(s, m.input, m.now, c);
    if m.input.Close? {
      NoFirstWait(s, c);
      ClosedIsQuiet(s, c);
    }
  }

  lemma NoFirstWait(s: State, c: Config)
    requires Inv(s, c) && Interrupted(s.p.events)
    ensures true !in s.f.waits && s.f.promise != NotCalled
  {
    assert s.p.isErrorState;
    if s.f.waits != [] {
      assert s.f.waits == [s.f.waits[0]];
    }
  }

  lemma FollowCut(s: State, m: Moment, t: State, events: seq<Emitted>, c: Config)
    requires Cut(s, events) && Follow(s, m, t, c)
    ensures Cut(t, events)
  {
    QuietStep(s, m.input, m.now, c);
  }

  /** Step `m` emits STALE. */
  ghost predicate InterruptsAt(states: seq<State>, moments: seq<Moment>, m: nat) {
    m < |moments| < |states| && states[m + 1].p.events == states[m].p.events + [Emitted(Stale, moments[m].now)]
  }

  /** The first of the grace timer, a payload and close to come after step `m`, if one has come before step `n`. */
  ghost predicate FirstIs(moments: seq<Moment>, m: nat, n: nat, k: nat) {
    && m < k < n <= |moments| && (moments[k].input.GraceDue? || EndsInterruption(moments[k].input))
    && forall j: nat :: m < j < k ==> !moments[j].input.GraceDue? && !EndsInterruption(moments[j].input)
  }

  lemma FollowInterrupts(s: State, m: Moment, t: State, c: Config)
    requires Inv(s, c) && Follow(s, m, t, c) && t.p.events == s.p.events + [Emitted(Stale, m.now)]
    ensures Waits(t, t.p.events)
  {
    EventsExactly(s, m.input, m.now, c);
    assert t.p.events != s.p.events;
    var n := |s.p.events|;
    assert (s.p.events + [Emitted(Stale, m.now)])[n].status == Stale;
    assert (s.p.events + [Emitted(Error, m.now)])[n].status != Stale;
    assert (s.p.events + [Emitted(Ready, m.now)])[n].status != Stale;
  }

  lemma StartsWaiting(states: seq<State>, moments: seq<Moment>, m: nat, c: Config)
    requires IsRun(states, moments, c) && states[0] == INITIAL && InterruptsAt(states, moments, m)
    ensures Waits(states[m + 1], states[m + 1].p.events)
  {
    RunKeepsInv(states, moments, m, c);
    assert Follow(states[m], moments[m], states[m + 1], c);
    FollowInterrupts(states[m], moments[m], states[m + 1], c);
  }

  lemma GoesOnWaiting(states: seq<State>, moments: seq<Moment>, n: nat, events: seq<Emitted>, c: Config)
    requires IsRun(states, moments, c) && states[0] == INITIAL && n < |moments| && Waits(states[n], events)
    requires !moments[n].input.GraceDue? && !EndsInterruption(moments[n].input)
    ensures Waits(states[n + 1], events)
  {
    RunKeepsInv(states, moments, n, c);
    assert Follow(states[n], moments[n], states[n + 1], c);
    FollowWaits(states[n], moments[n], states[n + 1], events, c);
  }

  lemma {:induction false} WaitsUntilFirst(states: seq<State>, moments: seq<Moment>, m: nat, n: nat, c: Config)
    requires IsRun(states, moments, c) && states[0] == INITIAL && m < n < |states| && InterruptsAt(states, moments, m)
    requires forall j: nat :: m < j < n ==> !moments[j].input.GraceDue? && !EndsInterruption(moments[j].input)
    ensures Waits(states[n], states[m + 1].p.events)
    decreases n
  {
    if n == m + 1 {
      StartsWaiting(states, moments, m, c);
    } else {
      WaitsUntilFirst(states, moments, m, n - 1, c);
      GoesOnWaiting(states, moments, n - 1, states[m + 1].p.events, c);
    }
  }

  lemma StepCut(states: seq<State>, moments: seq<Moment>, k: nat, events: seq<Emitted>, c: Config)
    requires IsRun(states, moments, c) && k < |moments| && Cut(states[k], events)
    ensures Cut(states[k + 1], events)
  {
    assert Follow(states[k], moments[k], states[k + 1], c);
    FollowCut(states[k], moments[k], states[k + 1], events, c);
  }

  lemma {:induction false} StaysCut(
      states: seq<State>, moments: seq<Moment>, k: nat, n: nat, events: seq<Emitted>, c: Config)
    requires IsRun(states, moments, c) && k <= n < |states| && Cut(states[k], events)
    ensures Cut(states[n], events)
    decreases n
  {
    if k < n {
      StaysCut(states, moments, k, n - 1, events, c);
      StepCut(states, moments, n - 1, events, c);
    }
  }

  /** The event after the first `n` ones is an ERROR. */
  predicate ErrorFollows(events: seq<Emitted>, n: nat) {
    n < |events| && events[n].status == Error
  }

  lemma NextEventStays(before: seq<Emitted>, e: Emitted, later: seq<Emitted>)
    requires before + [e] <= later
    ensures ErrorFollows(later, |before|) <==> e.status == Error
  {
    assert later[|before|] == (before + [e])[|before|];
  }

  lemma FirstDecides(states: seq<State>, moments: seq<Moment>, m: nat, n: nat, k: nat, c: Config)
    requires IsRun(states, moments, c) && states[0] == INITIAL && n < |states| && InterruptsAt(states, moments, m)
    requires FirstIs(moments, m, n, k)
    ensures ErrorFollows(states[n].p.events, |states[m + 1].p.events|) <==> moments[k].input.GraceDue?
  {
    var events := states[m + 1].p.events;
    WaitsUntilFirst(states, moments, m, k, c);
    RunKeepsInv(states, moments, k, c);
    assert Follow(states[k], moments[k], states[k + 1], c);
    FollowWaits(states[k], moments[k], states[k + 1], events, c);
    EventsExtend(states, moments, k + 1, n, c);
    if moments[k].input.GraceDue? {
      NextEventStays(events, Emitted(Error, moments[k].now), states[n].p.events);
    } else if moments[k].input.Data? {
      NextEventStays(events, Emitted(Ready, moments[k].now), states[n].p.events);
    } else {
      StaysCut(states, moments, k + 1, n, events, c);
    }
  }

  lemma {:induction false} FirstOf(moments: seq<Moment>, m: nat, n: nat) returns (k: nat)
    requires m < n <= |moments|
    requires exists j: nat :: m < j < n && (moments[j].input.GraceDue? || EndsInterruption(moments[j].input))
    ensures FirstIs(moments, m, n, k)
    decreases n
  {
    if exists j: nat :: m < j < n - 1 && (moments[j].input.GraceDue? || EndsInterruption(moments[j].input)) {
      k := FirstOf(moments, m, n - 1);
    } else {
      k := n - 1;
    }
  }

  /**
   In every run, the STALE of an interruption is followed by an ERROR if and only if its grace timer fires, and no
   payload and no close has come before it.
   */
  lemma ErrorFollowsExactly(states: seq<State>, moments: seq<Moment>, m: nat, n: nat, c: Config)
    requires IsRun(states, moments, c) && states[0] == INITIAL && m < n < |states| && InterruptsAt(states, moments, m)
    ensures ErrorFollows(states[n].p.events, |states[m + 1].p.events|) <==>
              exists k: nat :: m < k < n && moments[k].input.GraceDue?
                && forall j: nat :: m < j < k ==> !EndsInterruption(moments[j].input)
  {
    if exists j: nat :: m < j < n && (moments[j].input.GraceDue? || EndsInterruption(moments[j].input)) {
      var k := FirstOf(moments, m, n);
      FirstDecides(states, moments, m, n, k, c);
      FirstIsGrace(moments, m, n, k);
    } else {
      WaitsUntilFirst(states, moments, m, n, c);
    }
  }

  lemma FirstIsGrace(moments: seq<Moment>, m: nat, n: nat, k: nat)
    requires FirstIs(moments, m, n, k)
    ensures moments[k].input.GraceDue? <==>
              exists l: nat :: m < l < n && moments[l].input.GraceDue?
                && forall j: nat :: m < j < l ==> !EndsInterruption(moments[j].input)
  {
    if moments[k].input.GraceDue? {
      assert forall j: nat :: m < j < k ==> !EndsInterruption(moments[j].input);
    }
  }
}
