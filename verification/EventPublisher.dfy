/**
 The event publisher of the GO Feature Flag provider: events are buffered, sent in batches by a periodic
 runner or as soon as enough are pending, and put back when sending fails. Every `await` is a point where
 other calls may come in between.
 */
module EventPublisher {

  const DEFAULT_MAX_PENDING_EVENTS: int := 10000

  datatype Option<+T> = None | Some(value: T)

  /** A batch being sent, and whether it is the periodic runner that waits for it. */
  datatype Flight<Event> = Flight(batch: seq<Event>, runner: bool)

  /**
   The fields of the publisher, the pending timers, the batches being sent, the runners about to resume,
   and what was added, sent and accepted so far.
   */
  datatype State<Event> = Snapshot(
    events: seq<Event>, isRunning: bool, intervalId: Option<nat>,
    timers: set<nat>, nextId: nat, flights: seq<Flight<Event>>, resuming: nat,
    added: seq<Event>, sent: seq<seq<Event>>, delivered: seq<Event>)

  function Initial<Event>(): State<Event> {
    Snapshot([], false, None, {}, 0, [], 0, [], [], [])
  }

  /** An unset or zero option means the default. */
  function Limit(maxPendingEvents: Option<int>): int {
    if maxPendingEvents.Some? && maxPendingEvents.value != 0 then maxPendingEvents.value else DEFAULT_MAX_PENDING_EVENTS
  }

  // ----- steps -----

  /** `publishEvents` up to its await. */
  function Publish<Event>(s: State<Event>, runner: bool): State<Event> {
    if s.events == [] then
      if runner then s.(resuming := s.resuming + 1) else s
    else
      s.(events := [], flights := s.flights + [Flight(s.events, runner)], sent := s.sent + [s.events])
  }

  function AddEvent<Event>(s: State<Event>, event: Event, limit: int): State<Event> {
    var t := s.(events := s.events + [event], added := s.added + [event]);
    if |t.events| >= limit then Publish(t, false) else t
  }

  function Start<Event>(s: State<Event>): State<Event> {
    if s.isRunning then s else Publish(s.(isRunning := true), true)
  }

  function Stop<Event>(s: State<Event>): State<Event> {
    if !s.isRunning then s
    else
      var timers := if s.intervalId.Some? then s.timers - {s.intervalId.value} else s.timers;
      Publish(s.(isRunning := false, intervalId := None, timers := timers), false)
  }

  function Remove<T>(s: seq<T>, k: nat): seq<T>
    requires k < |s|
  {
    s[..k] + s[k + 1..]
  }

  /** A batch is accepted or rejected; a rejected one is put back at the end of the buffer. */
  function Settle<Event>(s: State<Event>, k: nat, accepted: bool): State<Event>
    requires k < |s.flights|
  {
    var flight := s.flights[k];
    var t := s.(flights := Remove(s.flights, k), resuming := s.resuming + if flight.runner then 1 else 0);
    if accepted then t.(delivered := s.delivered + flight.batch) else t.(events := s.events + flight.batch)
  }

  /** The runner goes on after its `publishEvents`. */
  function Resume<Event>(s: State<Event>): State<Event>
    requires s.resuming > 0
  {
    var t := s.(resuming := s.resuming - 1);
    if t.isRunning then t.(intervalId := Some(t.nextId), timers := t.timers + {t.nextId}, nextId := t.nextId + 1) else t
  }

  datatype Input<Event> =
    | Adding(event: Event)
    | Starting
    | Stopping
    | TimerDue(id: nat)
    | Settled(k: nat, accepted: bool)
    | Resumed

  predicate Enabled<Event>(s: State<Event>, i: Input<Event>) {
    match i
    case TimerDue(id) => id in s.timers
    case Settled(k, _) => k < |s.flights|
    case Resumed => s.resuming > 0
    case _ => true
  }

  function Step<Event>(s: State<Event>, i: Input<Event>, limit: int): State<Event>
    requires Enabled(s, i)
  {
    match i
    case Adding(event) => AddEvent(s, event, limit)
    case Starting => Start(s)
    case Stopping => Stop(s)
    case TimerDue(id) => Publish(s.(timers := s.timers - {id}), true)
    case Settled(k, accepted) => Settle(s, k, accepted)
    case Resumed => Resume(s)
  }

  ghost predicate Follow<Event>(s: State<Event>, i: Input<Event>, t: State<Event>, limit: int) {
    Enabled(s, i) && t == Step(s, i, limit)
  }

  ghost predicate IsRun<Event>(states: seq<State<Event>>, inputs: seq<Input<Event>>, limit: int) {
    && |states| == |inputs| + 1 && states[0] == Initial()
    && (forall n :: 0 <= n < |inputs| ==> Follow(states[n], inputs[n], states[n + 1], limit))
  }

  lemma LongerRun<Event>(
      states: seq<State<Event>>, inputs: seq<Input<Event>>, i: Input<Event>, t: State<Event>, limit: int)
    requires IsRun(states, inputs, limit) && Follow(states[|inputs|], i, t, limit)
    ensures IsRun(states + [t], inputs + [i], limit)
  {
    var longer, more := states + [t], inputs + [i];
    forall n | 0 <= n < |more| ensures Follow(longer[n], more[n], longer[n + 1], limit) {
      if n < |inputs| {
        assert longer[n] == states[n] && more[n] == inputs[n] && longer[n + 1] == states[n + 1];
      }
    }
  }

  // ----- what is sent, and when -----

  /** The batch that a step sends, if it sends one. */
  function Batch<Event>(s: State<Event>, i: Input<Event>, limit: int): seq<Event> {
    match i
    case Adding(event) => if |s.events| + 1 >= limit then s.events + [event] else []
    case Starting => if s.isRunning then [] else s.events
    case Stopping => if s.isRunning then s.events else []
    case TimerDue(_) => s.events
    case _ => []
  }

  /**
   Exactly these steps send: an add that reaches the limit, a start, a stop, and the runner's timer, each everything
   in the buffer. Only acceptance delivers, and only rejection puts back.
   */
  lemma SendsExactly<Event>(s: State<Event>, i: Input<Event>, t: State<Event>, limit: int)
    requires Follow(s, i, t, limit)
    ensures t.sent == if Batch(s, i, limit) == [] then s.sent else s.sent + [Batch(s, i, limit)]
    ensures t.added == if i.Adding? then s.added + [i.event] else s.added
    ensures t.delivered == if i.Settled? && i.accepted then s.delivered + s.flights[i.k].batch else s.delivered
    ensures t.events == if Batch(s, i, limit) != [] then []
                        else if i.Adding? then s.events + [i.event]
                        else if i.Settled? && !i.accepted then s.events + s.flights[i.k].batch
                        else s.events
    ensures t.isRunning <==> !i.Stopping? && (s.isRunning || i.Starting?)
  {
  }

  /** The steps that a runner waits for: its start and its timer. */
  predicate OfRunner<Event>(s: State<Event>, i: Input<Event>) {
    i.TimerDue? || (i.Starting? && !s.isRunning)
  }

  /**
   A runner that starts or wakes waits for the batch it sends, or is about to go on if there is none; it is about to go
   on once its batch is answered; and going on it sleeps on a new timer exactly while the publisher is running. A stop
   clears the timer stored last.
   */
  lemma RunnerMovesExactly<Event>(s: State<Event>, i: Input<Event>, t: State<Event>, limit: int)
    requires Follow(s, i, t, limit)
    ensures t.flights == if Batch(s, i, limit) != [] then s.flights + [Flight(Batch(s, i, limit), OfRunner(s, i))]
                         else if i.Settled? then s.flights[..i.k] + s.flights[i.k + 1..]
                         else s.flights
    ensures t.resuming == if OfRunner(s, i) && s.events == [] then s.resuming + 1
                          else if i.Settled? && s.flights[i.k].runner then s.resuming + 1
                          else if i.Resumed? then s.resuming - 1
                          else s.resuming
    ensures t.timers == if i.TimerDue? then s.timers - {i.id}
                        else if i.Stopping? && s.isRunning && s.intervalId.Some? then s.timers - {s.intervalId.value}
                        else if i.Resumed? && s.isRunning then s.timers + {s.nextId}
                        else s.timers
    ensures t.intervalId == if i.Stopping? && s.isRunning then None
                            else if i.Resumed? && s.isRunning then Some(s.nextId)
                            else s.intervalId
  {
  }

  /** Ten thousand events may be pending unless another number but zero is set. */
  lemma LimitMeans(maxPendingEvents: Option<int>)
    ensures Limit(maxPendingEvents) == if maxPendingEvents in {None, Some(0)} then 10000 else maxPendingEvents.value
  {
  }

  // ----- nothing is lost and nothing is sent twice -----

  function InFlight<Event>(flights: seq<Flight<Event>>): multiset<Event> {
    if flights == [] then multiset{} else InFlight(flights[..|flights| - 1]) + multiset(flights[|flights| - 1].batch)
  }

  lemma InFlightAppend<Event>(flights: seq<Flight<Event>>, flight: Flight<Event>)
    ensures InFlight(flights + [flight]) == InFlight(flights) + multiset(flight.batch)
  {
    assert (flights + [flight])[..|flights|] == flights;
  }

  lemma {:induction false} InFlightRemove<Event>(flights: seq<Flight<Event>>, k: nat)
    requires k < |flights|
    ensures InFlight(Remove(flights, k)) + multiset(flights[k].batch) == InFlight(flights)
  {
    var front, last := flights[..|flights| - 1], flights[|flights| - 1];
    if k == |front| {
      assert Remove(flights, k) == front;
    } else {
      assert Remove(flights, k) == Remove(front, k) + [last];
      InFlightAppend(Remove(front, k), last);
      InFlightRemove(front, k);
    }
  }

  /** Every added event is in the buffer, being sent, or delivered, in all as often as it was added. */
  ghost predicate Conserved<Event>(s: State<Event>) {
    multiset(s.added) == multiset(s.events) + InFlight(s.flights) + multiset(s.delivered)
  }

  lemma PublishConserves<Event>(s: State<Event>, runner: bool)
    requires Conserved(s)
    ensures Conserved(Publish(s, runner))
  {
    InFlightAppend(s.flights, Flight(s.events, runner));
  }

  lemma AddConserves<Event>(s: State<Event>, event: Event, limit: int)
    requires Conserved(s)
    ensures Conserved(AddEvent(s, event, limit))
  {
    var t := s.(events := s.events + [event], added := s.added + [event]);
    assert Conserved(t);
    PublishConserves(t, false);
  }

  lemma SettleConserves<Event>(s: State<Event>, k: nat, accepted: bool)
    requires Conserved(s) && k < |s.flights|
    ensures Conserved(Settle(s, k, accepted))
  {
    InFlightRemove(s.flights, k);
    var batch := s.flights[k].batch;
    assert multiset(s.delivered + batch) == multiset(s.delivered) + multiset(batch);
    assert multiset(s.events + batch) == multiset(s.events) + multiset(batch);
  }

  lemma StepConserves<Event>(s: State<Event>, i: Input<Event>, t: State<Event>, limit: int)
    requires Conserved(s) && Follow(s, i, t, limit)
    ensures Conserved(t)
  {
    match i
    case Adding(event) => AddConserves(s, event, limit);
    case Starting => PublishConserves(s.(isRunning := true), true);
    case Stopping =>
      var timers := if s.intervalId.Some? then s.timers - {s.intervalId.value} else s.timers;
      PublishConserves(s.(isRunning := false, intervalId := None, timers := timers), false);
    case TimerDue(id) => PublishConserves(s.(timers := s.timers - {id}), true);
    case Settled(k, accepted) => SettleConserves(s, k, accepted);
    case Resumed =>
  }

  /** Over every run, whatever the order of adds, flushes, acceptances and rejections. */
  lemma {:induction false} RunConserves<Event>(states: seq<State<Event>>, inputs: seq<Input<Event>>, n: nat, limit: int)
    requires IsRun(states, inputs, limit) && n < |states|
    ensures multiset(states[n].added)
         == multiset(states[n].events) + InFlight(states[n].flights) + multiset(states[n].delivered)
  {
    if n == 0 {
    } else {
      RunConserves(states, inputs, n - 1, limit);
      StepConserves(states[n - 1], inputs[n - 1], states[n], limit);
    }
  }

  /** Stopping hands over everything that was ever added; if all of it is then accepted, all of it is delivered. */
  lemma StopHandsOverEverything<Event>(
      states: seq<State<Event>>, inputs: seq<Input<Event>>, n: nat, limit: int)
    requires IsRun(states, inputs, limit) && n < |states| && states[n].isRunning
    ensures var t := Stop(states[n]);
            t.events == [] && multiset(t.added) == InFlight(t.flights) + multiset(t.delivered)
  {
    RunConserves(states, inputs, n, limit);
    StepConserves(states[n], Stopping, Stop(states[n]), limit);
  }

  // ----- after a stop -----

  ghost predicate NoEmptyBatch<Event>(s: State<Event>) {
    forall k :: 0 <= k < |s.flights| ==> s.flights[k].batch != []
  }

  lemma FollowSendsSomething<Event>(s: State<Event>, i: Input<Event>, t: State<Event>, limit: int)
    requires NoEmptyBatch(s) && Follow(s, i, t, limit)
    ensures NoEmptyBatch(t)
  {
  }

  lemma {:induction false} NoBatchIsEmpty<Event>(
      states: seq<State<Event>>, inputs: seq<Input<Event>>, n: nat, limit: int)
    requires IsRun(states, inputs, limit) && n < |states|
    ensures NoEmptyBatch(states[n])
  {
    if n == 0 {
    } else {
      NoBatchIsEmpty(states, inputs, n - 1, limit);
      FollowSendsSomething(states[n - 1], inputs[n - 1], states[n], limit);
    }
  }

  /** No runner goes on, and nobody calls. */
  predicate Quiet<Event>(s: State<Event>) {
    !s.isRunning && s.timers == {}
  }

  predicate NoCall<Event>(i: Input<Event>) {
    !i.Adding? && !i.Starting?
  }

  lemma QuietStep<Event>(s: State<Event>, i: Input<Event>, t: State<Event>, limit: int)
    requires Quiet(s) && NoEmptyBatch(s) && Follow(s, i, t, limit) && NoCall(i)
    ensures Quiet(t) && t.sent == s.sent && t.added == s.added
    ensures s.events <= t.events && (t.events == s.events <==> (i.Settled? ==> i.accepted))
  {
  }

  lemma StopIsQuiet<Event>(s: State<Event>, t: State<Event>, limit: int)
    requires s.isRunning && Follow(s, Stopping, t, limit) && t.timers == {}
    ensures Quiet(t) && t.events == [] && t.added == s.added
  {
  }

  lemma {:induction false} QuietAfterStop<Event>(
      states: seq<State<Event>>, inputs: seq<Input<Event>>, m: nat, n: nat, limit: int)
    requires IsRun(states, inputs, limit) && m < n < |states|
    requires inputs[m].Stopping? && states[m].isRunning && states[m + 1].timers == {}
    requires forall k :: m < k < n ==> NoCall(inputs[k])
    ensures Quiet(states[n]) && states[n].sent == states[m + 1].sent && states[n].added == states[m].added
    ensures states[n].events == [] <==> forall k :: m < k < n && inputs[k].Settled? ==> inputs[k].accepted
    decreases n
  {
    if n == m + 1 {
      StopIsQuiet(states[m], states[n], limit);
    } else {
      QuietAfterStop(states, inputs, m, n - 1, limit);
      NoBatchIsEmpty(states, inputs, n - 1, limit);
      assert NoCall(inputs[n - 1]);
      QuietStep(states[n - 1], inputs[n - 1], states[n], limit);
    }
  }

  /**
   After a stop that leaves no timer, and until something is added or the publisher is started, nothing more is
   sent: a batch rejected from then on stays in the buffer, which is empty in the end if and only if every
   batch has been accepted.
   */
  lemma RejectedAfterStopStays<Event>(
      states: seq<State<Event>>, inputs: seq<Input<Event>>, m: nat, n: nat, limit: int)
    requires IsRun(states, inputs, limit) && m < n < |states|
    requires inputs[m].Stopping? && states[m].isRunning && states[m + 1].timers == {}
    requires forall k :: m < k < n ==> NoCall(inputs[k])
    ensures states[n].sent == states[m + 1].sent
    ensures states[n].events == [] <==> forall k :: m < k < n && inputs[k].Settled? ==> inputs[k].accepted
    ensures states[n].flights == [] ==>
              multiset(states[m].added) == multiset(states[n].events) + multiset(states[n].delivered)
  {
    QuietAfterStop(states, inputs, m, n, limit);
    RunConserves(states, inputs, n, limit);
  }

  // ----- order -----

  function Concat<Event>(batches: seq<seq<Event>>): seq<Event> {
    if batches == [] then [] else Concat(batches[..|batches| - 1]) + batches[|batches| - 1]
  }

  ghost predicate InOrder<Event>(s: State<Event>) {
    Concat(s.sent) + s.events == s.added
  }

  lemma PublishKeepsOrder<Event>(s: State<Event>, runner: bool)
    requires InOrder(s)
    ensures InOrder(Publish(s, runner))
  {
    assert (s.sent + [s.events])[..|s.sent|] == s.sent;
  }

  lemma StepKeepsOrder<Event>(s: State<Event>, i: Input<Event>, t: State<Event>, limit: int)
    requires InOrder(s) && Follow(s, i, t, limit)
    requires i.Settled? ==> i.accepted
    ensures InOrder(t)
  {
    match i
    case Adding(event) =>
      var u := s.(events := s.events + [event], added := s.added + [event]);
      assert Concat(u.sent) + u.events == Concat(s.sent) + s.events + [event];
      PublishKeepsOrder(u, false);
    case Starting => PublishKeepsOrder(s.(isRunning := true), true);
    case Stopping =>
      var timers := if s.intervalId.Some? then s.timers - {s.intervalId.value} else s.timers;
      PublishKeepsOrder(s.(isRunning := false, intervalId := None, timers := timers), false);
    case TimerDue(id) => PublishKeepsOrder(s.(timers := s.timers - {id}), true);
    case Settled(_, _) =>
    case Resumed =>
  }

  /** While nothing is rejected, the batches in the order of sending followed by the buffer spell what was added. */
  lemma {:induction false} BatchesSpellWhatWasAdded<Event>(
      states: seq<State<Event>>, inputs: seq<Input<Event>>, n: nat, limit: int)
    requires IsRun(states, inputs, limit) && n < |states|
    requires forall m :: 0 <= m < n && inputs[m].Settled? ==> inputs[m].accepted
    ensures Concat(states[n].sent) + states[n].events == states[n].added
  {
    if n == 0 {
    } else {
      BatchesSpellWhatWasAdded(states, inputs, n - 1, limit);
      StepKeepsOrder(states[n - 1], inputs[n - 1], states[n], limit);
    }
  }

  // ----- what a rejection does to the order -----

  predicate Distinct<Event(==)>(s: seq<Event>) {
    forall i, j :: 0 <= i < j < |s| ==> s[i] != s[j]
  }

  function IndexOf<Event(==)>(s: seq<Event>, e: Event): (i: nat)
    requires e in s
    ensures i < |s| && s[i] == e
  {
    var front := s[..|s| - 1];
    if e in front then IndexOf(front, e) else |s| - 1
  }

  /** `events` stand in the order in which they were added. */
  ghost predicate Ordered<Event>(events: seq<Event>, added: seq<Event>) {
    && (forall e <- events :: e in added)
    && (forall i, j :: 0 <= i < j < |events| ==> IndexOf(added, events[i]) < IndexOf(added, events[j]))
  }

  function FlightEvents<Event>(flights: seq<Flight<Event>>): seq<Event> {
    if flights == [] then [] else FlightEvents(flights[..|flights| - 1]) + flights[|flights| - 1].batch
  }

  /** What has not been delivered, in the order in which it will be if nothing is rejected. */
  function Undelivered<Event>(s: State<Event>): seq<Event> {
    FlightEvents(s.flights) + s.events
  }

  ghost predicate OrderKept<Event>(s: State<Event>) {
    Ordered(Undelivered(s), s.added) && NoEmptyBatch(s)
  }

  lemma FlightEventsAppend<Event>(flights: seq<Flight<Event>>, flight: Flight<Event>)
    ensures FlightEvents(flights + [flight]) == FlightEvents(flights) + flight.batch
  {
    assert (flights + [flight])[..|flights|] == flights;
  }

  lemma Associate<Event>(a: seq<Event>, b: seq<Event>, c: seq<Event>, d: seq<Event>)
    ensures a + b + c + d == a + b + (c + d)
  {
  }

  lemma AroundFront<T>(s: seq<T>, k: nat)
    requires k < |s| - 1
    ensures s[..|s| - 1][..k] == s[..k] && s[k + 1..] == s[..|s| - 1][k + 1..] + [s[|s| - 1]]
    ensures Remove(s, k) == Remove(s[..|s| - 1], k) + [s[|s| - 1]]
  {
  }

  /** The events in flight before, in and behind one batch. */
  lemma {:induction false} FlightEventsAround<Event>(flights: seq<Flight<Event>>, k: nat)
    requires k < |flights|
    ensures FlightEvents(flights) == FlightEvents(flights[..k]) + flights[k].batch + FlightEvents(flights[k + 1..])
  {
    var front, last := flights[..|flights| - 1], flights[|flights| - 1];
    if k == |front| {
      assert flights[k + 1..] == [];
    } else {
      FlightEventsAround(front, k);
      AroundFront(flights, k);
      var behind := front[k + 1..];
      FlightEventsAppend(behind, last);
      Associate(FlightEvents(flights[..k]), flights[k].batch, FlightEvents(behind), last.batch);
    }
  }

  lemma {:induction false} FlightEventsWithout<Event>(flights: seq<Flight<Event>>, k: nat)
    requires k < |flights|
    ensures FlightEvents(Remove(flights, k)) == FlightEvents(flights[..k]) + FlightEvents(flights[k + 1..])
  {
    var front, last := flights[..|flights| - 1], flights[|flights| - 1];
    if k == |front| {
      assert Remove(flights, k) == front && flights[k + 1..] == [];
    } else {
      FlightEventsWithout(front, k);
      AroundFront(flights, k);
      FlightEventsAppend(front[k + 1..], last);
      FlightEventsAppend(Remove(front, k), last);
    }
  }

  lemma OrderedWithout<Event>(a: seq<Event>, b: seq<Event>, c: seq<Event>, added: seq<Event>)
    requires Ordered(a + b + c, added)
    ensures Ordered(a + c, added)
  {
    var all, rest := a + b + c, a + c;
    assert forall i :: 0 <= i < |rest| ==> rest[i] == all[if i < |a| then i else i + |b|];
    forall e | e in rest ensures e in added {
      assert e in all;
    }
  }

  /** Moving something behind something else breaks the order. */
  lemma MovedBehindExactly<Event>(a: seq<Event>, b: seq<Event>, c: seq<Event>, added: seq<Event>)
    requires Ordered(a + b + c, added) && b != []
    ensures Ordered(a + c + b, added) <==> c == []
  {
    if c == [] {
      assert a + c + b == a + b + c;
    } else {
      var was, now := a + b + c, a + c + b;
      assert was[|a|] == b[0] && was[|a| + |b|] == c[0];
      assert now[|a|] == c[0] && now[|a| + |c|] == b[0];
    }
  }

  lemma OrderedAppend<Event>(events: seq<Event>, added: seq<Event>, e: Event)
    requires Ordered(events, added) && Distinct(added + [e])
    ensures Ordered(events + [e], added + [e])
  {
    var all, more := events + [e], added + [e];
    assert more[..|added|] == added;
    assert e !in added by {
      assert forall i :: 0 <= i < |added| ==> more[i] == added[i] && more[|added|] == e;
    }
    forall i, j | 0 <= i < j < |all| ensures IndexOf(more, all[i]) < IndexOf(more, all[j]) {
      assert all[i] == events[i] && events[i] in events;
      if j < |events| {
        assert all[j] == events[j] && events[j] in events;
      }
    }
  }

  lemma PublishSameUndelivered<Event>(s: State<Event>, runner: bool)
    ensures Undelivered(Publish(s, runner)) == Undelivered(s) && Publish(s, runner).added == s.added
  {
    var all := FlightEvents(s.flights) + s.events;
    FlightEventsAppend(s.flights, Flight(s.events, runner));
    assert all + [] == all;
    assert s.events != [] ==> Undelivered(Publish(s, runner)) == all + [];
  }

  lemma PublishSendsSomething<Event>(s: State<Event>, runner: bool)
    requires NoEmptyBatch(s)
    ensures NoEmptyBatch(Publish(s, runner))
  {
  }

  lemma PublishKeepsUndelivered<Event>(s: State<Event>, runner: bool)
    requires OrderKept(s)
    ensures OrderKept(Publish(s, runner))
  {
    PublishSameUndelivered(s, runner);
    PublishSendsSomething(s, runner);
  }

  lemma AddKeepsUndelivered<Event>(s: State<Event>, event: Event, limit: int)
    requires OrderKept(s) && Distinct(s.added + [event])
    ensures OrderKept(AddEvent(s, event, limit))
  {
    var t := s.(events := s.events + [event], added := s.added + [event]);
    assert Undelivered(t) == Undelivered(s) + [event];
    OrderedAppend(Undelivered(s), s.added, event);
    PublishKeepsUndelivered(t, false);
  }

  /** Behind a batch in flight come the later batches, then the buffer. */
  function Behind<Event>(s: State<Event>, k: nat): seq<Event>
    requires k < |s.flights|
  {
    FlightEvents(s.flights[k + 1..]) + s.events
  }

  lemma UndeliveredAround<Event>(s: State<Event>, k: nat)
    requires k < |s.flights|
    ensures var before, batch := FlightEvents(s.flights[..k]), s.flights[k].batch;
            && Undelivered(s) == before + batch + Behind(s, k)
            && Undelivered(Settle(s, k, true)) == before + Behind(s, k)
            && Undelivered(Settle(s, k, false)) == before + Behind(s, k) + batch
  {
    FlightEventsAround(s.flights, k);
    FlightEventsWithout(s.flights, k);
    var before, batch, later := FlightEvents(s.flights[..k]), s.flights[k].batch, FlightEvents(s.flights[k + 1..]);
    Associate(before, batch, later, s.events);
    assert before + later + s.events == before + (later + s.events);
    assert before + later + (s.events + batch) == before + (later + s.events) + batch;
  }

  lemma AcceptKeepsUndelivered<Event>(s: State<Event>, k: nat)
    requires OrderKept(s) && k < |s.flights|
    ensures OrderKept(Settle(s, k, true))
  {
    UndeliveredAround(s, k);
    OrderedWithout(FlightEvents(s.flights[..k]), s.flights[k].batch, Behind(s, k), s.added);
  }

  lemma StepKeepsUndelivered<Event>(s: State<Event>, i: Input<Event>, t: State<Event>, limit: int)
    requires OrderKept(s) && Follow(s, i, t, limit) && Distinct(t.added)
    requires i.Settled? ==> i.accepted
    ensures OrderKept(t)
  {
    match i
    case Adding(event) => AddKeepsUndelivered(s, event, limit);
    case Starting => PublishKeepsUndelivered(s.(isRunning := true), true);
    case Stopping =>
      var timers := if s.intervalId.Some? then s.timers - {s.intervalId.value} else s.timers;
      PublishKeepsUndelivered(s.(isRunning := false, intervalId := None, timers := timers), false);
    case TimerDue(id) => PublishKeepsUndelivered(s.(timers := s.timers - {id}), true);
    case Settled(k, _) => AcceptKeepsUndelivered(s, k);
    case Resumed =>
  }

  lemma AddedGrows<Event>(s: State<Event>, i: Input<Event>, t: State<Event>, limit: int)
    requires Follow(s, i, t, limit) && Distinct(t.added)
    ensures Distinct(s.added)
  {
    assert t.added == if i.Adding? then s.added + [i.event] else s.added;
    assert forall k :: 0 <= k < |s.added| ==> s.added[k] == t.added[k];
  }

  /** Until something is rejected, what has not been delivered stands in the order in which it was added. */
  lemma {:induction false} UndeliveredIsOrdered<Event>(
      states: seq<State<Event>>, inputs: seq<Input<Event>>, n: nat, limit: int)
    requires IsRun(states, inputs, limit) && n < |states| && Distinct(states[n].added)
    requires forall m :: 0 <= m < n && inputs[m].Settled? ==> inputs[m].accepted
    ensures OrderKept(states[n])
  {
    if n == 0 {
    } else {
      AddedGrows(states[n - 1], inputs[n - 1], states[n], limit);
      UndeliveredIsOrdered(states, inputs, n - 1, limit);
      StepKeepsUndelivered(states[n - 1], inputs[n - 1], states[n], limit);
    }
  }

  lemma BehindIsEmptyExactly<Event>(s: State<Event>, k: nat)
    requires OrderKept(s) && k < |s.flights|
    ensures FlightEvents(s.flights[k + 1..]) == [] <==> k == |s.flights| - 1
  {
    var behind := s.flights[k + 1..];
    if behind != [] {
      assert behind[|behind| - 1] == s.flights[|s.flights| - 1];
    }
  }

  /**
   The first rejection of a run keeps the order of distinct events if and only if nothing has been added or
   sent behind the rejected batch: the buffer is empty and no later batch is in flight.
   */
  lemma RejectionKeepsOrderExactly<Event>(
      states: seq<State<Event>>, inputs: seq<Input<Event>>, n: nat, k: nat, limit: int)
    requires IsRun(states, inputs, limit) && n < |states| && Distinct(states[n].added)
    requires forall m :: 0 <= m < n && inputs[m].Settled? ==> inputs[m].accepted
    requires k < |states[n].flights|
    ensures Ordered(Undelivered(Settle(states[n], k, false)), states[n].added) <==>
              states[n].events == [] && k == |states[n].flights| - 1
  {
    var s := states[n];
    UndeliveredIsOrdered(states, inputs, n, limit);
    UndeliveredAround(s, k);
    MovedBehindExactly(FlightEvents(s.flights[..k]), s.flights[k].batch, Behind(s, k), s.added);
    BehindIsEmptyExactly(s, k);
  }

  lemma SentThenAdded<Event>(first: Event, second: Event, limit: int)
    requires limit >= 2
    ensures var s1 := AddEvent(Initial(), first, limit);
            var s2 := Start(s1);
            var s3 := AddEvent(s2, second, limit);
            && s1.events == [first] && s2.flights == [Flight([first], true)] && s3.flights == s2.flights
            && s3.events == [second] && s3.added == [first, second]
  {
    var s1 := AddEvent(Initial(), first, limit);
    assert [] + [first] == [first];
    assert Start(s1).flights == [Flight([first], true)];
    assert [] + [second] == [second] && [first] + [second] == [first, second];
  }

  lemma PutBehind<Event>(s: State<Event>, first: Event, second: Event)
    requires s.flights == [Flight([first], true)] && s.events == [second]
    ensures Settle(s, 0, false).events == [second, first] && Settle(s, 0, false).added == s.added
  {
    assert [second] + [first] == [second, first];
  }

  /** So order is not kept across failures: a rejected event comes back behind one that was added meanwhile. */
  lemma RejectionReorders<Event>(first: Event, second: Event, limit: int)
    requires limit >= 2
    ensures exists states: seq<State<Event>>, inputs: seq<Input<Event>> ::
              && IsRun(states, inputs, limit)
              && states[|inputs|].added == [first, second] && states[|inputs|].events == [second, first]
  {
    var inputs := [Adding(first), Starting, Adding(second), Settled(0, false)];
    var s1 := AddEvent(Initial(), first, limit);
    var s2 := Start(s1);
    var s3 := AddEvent(s2, second, limit);
    SentThenAdded(first, second, limit);
    var s4 := Settle(s3, 0, false);
    PutBehind(s3, first, second);
    var states := [Initial(), s1, s2, s3, s4];
    assert Follow(states[0], inputs[0], states[1], limit) && Follow(states[1], inputs[1], states[2], limit);
    assert Follow(states[2], inputs[2], states[3], limit) && Follow(states[3], inputs[3], states[4], limit);
    assert IsRun(states, inputs, limit) && states[|inputs|] == s4;
  }

  // ----- the limit -----

  /** The buffer is below the limit whenever `addEvent` returns, exactly when the limit is positive. */
  lemma BelowLimitExactly<Event>(s: State<Event>, event: Event, limit: int)
    ensures |AddEvent(s, event, limit).events| < limit <==> limit > 0
  {
    var t := s.(events := s.events + [event], added := s.added + [event]);
    assert |t.events| >= limit ==> AddEvent(s, event, limit).events == [];
  }

  // ----- the periodic runner -----

  function Waiting<Event>(flights: seq<Flight<Event>>): nat {
    if flights == [] then 0
    else Waiting(flights[..|flights| - 1]) + if flights[|flights| - 1].runner then 1 else 0
  }

  /** How many runners there are: waiting for a batch, about to resume, or asleep. */
  function Runners<Event>(s: State<Event>): nat {
    Waiting(s.flights) + s.resuming + |s.timers|
  }

  /** While running there is one runner; after a stop nothing is asleep. */
  ghost predicate OneRunner<Event>(s: State<Event>) {
    && (s.isRunning ==> Runners(s) == 1)
    && (!s.isRunning ==> s.timers == {})
    && (forall t <- s.timers :: s.intervalId == Some(t))
  }

  lemma WaitingAppend<Event>(flights: seq<Flight<Event>>, flight: Flight<Event>)
    ensures Waiting(flights + [flight]) == Waiting(flights) + if flight.runner then 1 else 0
  {
    assert (flights + [flight])[..|flights|] == flights;
  }

  lemma {:induction false} WaitingRemove<Event>(flights: seq<Flight<Event>>, k: nat)
    requires k < |flights|
    ensures Waiting(Remove(flights, k)) + (if flights[k].runner then 1 else 0) == Waiting(flights)
  {
    var front, last := flights[..|flights| - 1], flights[|flights| - 1];
    if k == |front| {
      assert Remove(flights, k) == front;
    } else {
      assert Remove(flights, k) == Remove(front, k) + [last];
      WaitingAppend(Remove(front, k), last);
      WaitingRemove(front, k);
    }
  }

  lemma PublishCounts<Event>(s: State<Event>, runner: bool)
    ensures var t := Publish(s, runner);
            && Runners(t) == Runners(s) + (if runner then 1 else 0)
            && t.timers == s.timers && t.isRunning == s.isRunning && t.intervalId == s.intervalId
  {
    WaitingAppend(s.flights, Flight(s.events, runner));
  }

  lemma StopKeepsOneRunner<Event>(s: State<Event>)
    requires OneRunner(s)
    ensures OneRunner(Stop(s))
  {
    var timers := if s.intervalId.Some? then s.timers - {s.intervalId.value} else s.timers;
    PublishCounts(s.(isRunning := false, intervalId := None, timers := timers), false);
    assert timers == {};
  }

  lemma TimerKeepsOneRunner<Event>(s: State<Event>, id: nat)
    requires OneRunner(s) && id in s.timers
    ensures OneRunner(Publish(s.(timers := s.timers - {id}), true))
  {
    PublishCounts(s.(timers := s.timers - {id}), true);
  }

  lemma ResumeKeepsOneRunner<Event>(s: State<Event>)
    requires OneRunner(s) && s.resuming > 0
    ensures OneRunner(Resume(s))
  {
    assert s.timers == {};
  }

  lemma SettleKeepsOneRunner<Event>(s: State<Event>, k: nat, accepted: bool)
    requires OneRunner(s) && k < |s.flights|
    ensures OneRunner(Settle(s, k, accepted))
  {
    WaitingRemove(s.flights, k);
  }

  lemma StepKeepsOneRunner<Event>(s: State<Event>, i: Input<Event>, t: State<Event>, limit: int)
    requires OneRunner(s) && Follow(s, i, t, limit)
    requires i.Starting? && !s.isRunning ==> Runners(s) == 0
    ensures OneRunner(t)
  {
    match i
    case Adding(event) => PublishCounts(s.(events := s.events + [event], added := s.added + [event]), false);
    case Starting => PublishCounts(s.(isRunning := true), true);
    case Stopping => StopKeepsOneRunner(s);
    case TimerDue(id) => TimerKeepsOneRunner(s, id);
    case Settled(k, accepted) => SettleKeepsOneRunner(s, k, accepted);
    case Resumed => ResumeKeepsOneRunner(s);
  }

  /** As long as no restart overtakes the previous runner, exactly one runner is at work while running. */
  lemma {:induction false} ExactlyOneRunner<Event>(
      states: seq<State<Event>>, inputs: seq<Input<Event>>, n: nat, limit: int)
    requires IsRun(states, inputs, limit) && n < |states|
    requires forall m :: 0 <= m < n && inputs[m].Starting? && !states[m].isRunning ==> Runners(states[m]) == 0
    ensures OneRunner(states[n])
  {
    if n == 0 {
    } else {
      ExactlyOneRunner(states, inputs, n - 1, limit);
      StepKeepsOneRunner(states[n - 1], inputs[n - 1], states[n], limit);
    }
  }

  /** A restart adds a runner, so there is one again exactly when the previous one has finished. */
  lemma RestartIsCleanExactly<Event>(s: State<Event>)
    requires OneRunner(s) && !s.isRunning
    ensures Runners(Start(s)) == Runners(s) + 1 && (OneRunner(Start(s)) <==> Runners(s) == 0)
  {
    PublishCounts(s.(isRunning := true), true);
  }

  /**
   A stop that is followed at once by a start leaves one runner if the runner was asleep, and two if it was
   waiting for a batch or about to resume.
   */
  lemma RestartDoublesTheRunner<Event>(s: State<Event>)
    requires OneRunner(s) && s.isRunning
    ensures Runners(Start(Stop(s))) == if s.timers != {} then 1 else 2
    ensures OneRunner(Start(Stop(s))) <==> s.timers != {}
  {
    var timers := if s.intervalId.Some? then s.timers - {s.intervalId.value} else s.timers;
    StopKeepsOneRunner(s);
    PublishCounts(s.(isRunning := false, intervalId := None, timers := timers), false);
    assert timers == {};
    if s.timers != {} {
      var id :| id in s.timers;
      assert s.timers == {id};
    }
    RestartIsCleanExactly(Stop(s));
  }

  /** In a run there is always one runner while running if and only if every restart finds the previous one finished. */
  lemma OneRunnerExactly<Event>(states: seq<State<Event>>, inputs: seq<Input<Event>>, limit: int)
    requires IsRun(states, inputs, limit)
    ensures (forall n: nat :: n < |states| ==> OneRunner(states[n])) <==>
              (forall m: nat :: m < |inputs| && inputs[m].Starting? && !states[m].isRunning ==> Runners(states[m]) == 0)
  {
    if forall m: nat :: m < |inputs| && inputs[m].Starting? && !states[m].isRunning ==> Runners(states[m]) == 0 {
      forall n: nat | n < |states| ensures OneRunner(states[n]) {
        ExactlyOneRunner(states, inputs, n, limit);
      }
    } else {
      var m: nat :| m < |inputs| && inputs[m].Starting? && !states[m].isRunning && Runners(states[m]) != 0;
      assert Follow(states[m], inputs[m], states[m + 1], limit);
      if OneRunner(states[m]) {
        RestartIsCleanExactly(states[m]);
      }
    }
  }

  /** A stop clears one timer only, so of two sleeping runners one goes on. */
  lemma StopClearsOneTimer<Event>(s: State<Event>)
    ensures |Stop(s).timers| >= |s.timers| - 1
  {
    if s.isRunning && s.intervalId.Some? {
      var id := s.intervalId.value;
      if id in s.timers {
        assert |s.timers - {id}| == |s.timers| - 1;
      } else {
        assert s.timers - {id} == s.timers;
      }
    }
  }

  // ----- the publisher -----

  class EventPublisher<Event(==)> {
    const maxPendingEvents: Option<int>
    var events: seq<Event>
    var isRunning: bool
    var intervalId: Option<nat>
    /** The timers of the runtime, the calls that have not been answered, and the history. */
    var timers: set<nat>
    var nextId: nat
    var flights: seq<Flight<Event>>
    var resuming: nat
    var added: seq<Event>
    var sent: seq<seq<Event>>
    var delivered: seq<Event>
    /** The run that has led to the present state, to which all theorems about runs apply. */
    ghost var states: seq<State<Event>>
    ghost var inputs: seq<Input<Event>>

    function State(): State<Event>
      reads this
    {
      Snapshot(events, isRunning, intervalId, timers, nextId, flights, resuming, added, sent, delivered)
    }

    ghost predicate Valid()
      reads this
    {
      IsRun(states, inputs, Limit(maxPendingEvents)) && states[|inputs|] == State()
    }

    constructor (maxPendingEvents: Option<int>)
      ensures Valid() && State() == Initial() && this.maxPendingEvents == maxPendingEvents
    {
      this.maxPendingEvents := maxPendingEvents;
      events, isRunning, intervalId := [], false, None;
      timers, nextId, flights, resuming := {}, 0, [], 0;
      added, sent, delivered := [], [], [];
      states, inputs := [Initial()], [];
    }

    /** Adds the step just taken to the run. */
    ghost method Record(i: Input<Event>)
      requires IsRun(states, inputs, Limit(maxPendingEvents))
      requires Follow(states[|inputs|], i, State(), Limit(maxPendingEvents))
      modifies `states, `inputs
      ensures Valid() && inputs == old(inputs) + [i] && Conserved(State())
    {
      LongerRun(states, inputs, i, State(), Limit(maxPendingEvents));
      states, inputs := states + [State()], inputs + [i];
      RunConserves(states, inputs, |inputs|, Limit(maxPendingEvents));
    }

    /** The part of `publishEvents` before its await. */
    method PublishEvents(runner: bool)
      modifies this
      ensures events == [] && states == old(states) && inputs == old(inputs)
      ensures State() == Publish(old(State()), runner)
    {
      if |events| == 0 {
        resuming := resuming + if runner then 1 else 0;
        return;
      }
      var eventsToPublish := events;
      events := [];
      flights := flights + [Flight(eventsToPublish, runner)];
      sent := sent + [eventsToPublish];
    }

    /** The part of `publishEvents` after its await. */
    method OnSettled(k: nat, accepted: bool)
      requires Valid() && k < |flights|
      modifies this
      ensures Valid() && Conserved(State()) && inputs == old(inputs) + [Settled(k, accepted)]
      ensures State() == Step(old(State()), Settled(k, accepted), Limit(maxPendingEvents))
    {
      var flight := flights[k];
      flights := flights[..k] + flights[k + 1..];
      if accepted {
        delivered := delivered + flight.batch;
      } else {
        events := events + flight.batch;
      }
      if flight.runner {
        resuming := resuming + 1;
      }
      Record(Settled(k, accepted));
    }

    method AddEvent(event: Event)
      requires Valid()
      modifies this
      ensures Valid() && Conserved(State()) && inputs == old(inputs) + [Adding(event)]
      ensures State() == Step(old(State()), Adding(event), Limit(maxPendingEvents))
      ensures |events| < Limit(maxPendingEvents) <==> Limit(maxPendingEvents) > 0
    {
      events := events + [event];
      added := added + [event];
      if |events| >= Limit(maxPendingEvents) {
        PublishEvents(false);
      }
      Record(Adding(event));
    }

    method Start()
      requires Valid()
      modifies this
      ensures Valid() && Conserved(State()) && inputs == old(inputs) + [Starting]
      ensures State() == Step(old(State()), Starting, Limit(maxPendingEvents))
    {
      if !isRunning {
        isRunning := true;
        PublishEvents(true);
      }
      Record(Starting);
    }

    method OnTimer(id: nat)
      requires Valid() && id in timers
      modifies this
      ensures Valid() && Conserved(State()) && inputs == old(inputs) + [TimerDue(id)]
      ensures State() == Step(old(State()), TimerDue(id), Limit(maxPendingEvents))
    {
      timers := timers - {id};
      PublishEvents(true);
      Record(TimerDue(id));
    }

    /** The part of `runPublisher` after its await. */
    method ContinueRunner()
      requires Valid() && resuming > 0
      modifies this
      ensures Valid() && Conserved(State()) && inputs == old(inputs) + [Resumed]
      ensures State() == Step(old(State()), Resumed, Limit(maxPendingEvents))
    {
      resuming := resuming - 1;
      if isRunning {
        intervalId := Some(nextId);
        timers := timers + {nextId};
        nextId := nextId + 1;
      }
      Record(Resumed);
    }

    method Stop()
      requires Valid()
      modifies this
      ensures Valid() && Conserved(State()) && inputs == old(inputs) + [Stopping]
      ensures State() == Step(old(State()), Stopping, Limit(maxPendingEvents))
      ensures !isRunning && (old(isRunning) ==> events == [])
    {
      if isRunning {
        isRunning := false;
        if intervalId.Some? {
          timers := timers - {intervalId.value};
          intervalId := None;
        }
        PublishEvents(false);
      }
      Record(Stopping);
    }
  }
}
