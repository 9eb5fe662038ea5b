/**
 The status tracker of the multi-provider: the most critical status of all providers, and the events that
 announce it.
 */
module StatusTracker {
  import opened Strategies

  /** The events of a provider, and of the multi-provider. */
  datatype Event = Ready | Stale | Error | ConfigurationChanged

  datatype Received = Received(provider: string, event: Event)

  type Statuses = map<string, Status>

  function Severity(s: Status): nat {
    match s
    case READY => 0
    case STALE => 1
    case ERROR => 2
    case NOT_READY => 3
    case FATAL => 4
  }

  /** `s` is the most critical status; without any, all is well. */
  ghost predicate MostCritical(statuses: Statuses, s: Status) {
    && (s == READY || s in statuses.Values)
    && (forall name <- statuses :: Severity(statuses[name]) <= Severity(s))
  }

  function StatusFromProviderStatuses(statuses: Statuses): (s: Status)
    ensures MostCritical(statuses, s)
  {
    if FATAL in statuses.Values then FATAL
    else if NOT_READY in statuses.Values then NOT_READY
    else if ERROR in statuses.Values then ERROR
    else if STALE in statuses.Values then STALE
    else READY
  }

  /** What is emitted when the overall status becomes `s`; becoming not ready is not announced. */
  function Announcement(s: Status): seq<Event> {
    match s
    case FATAL => [Error]
    case ERROR => [Error]
    case STALE => [Stale]
    case READY => [Ready]
    case NOT_READY => []
  }

  datatype State = Tracker(providerStatuses: Statuses, emitted: seq<Event>)

  function Changed(s: State, name: string, status: Status): State {
    var statuses := s.providerStatuses[name := status];
    var before, now := StatusFromProviderStatuses(s.providerStatuses), StatusFromProviderStatuses(statuses);
    Tracker(statuses, if before == now then s.emitted else s.emitted + Announcement(now))
  }

  /** What a handler does; an error event means ERROR, fatal or not. */
  function Step(s: State, r: Received): State {
    match r.event
    case Error => Changed(s, r.provider, ERROR)
    case Stale => Changed(s, r.provider, STALE)
    case Ready => Changed(s, r.provider, READY)
    case ConfigurationChanged => s.(emitted := s.emitted + [ConfigurationChanged])
  }

  function Run(events: seq<Received>): State {
    if events == [] then Tracker(map[], []) else Step(Run(events[..|events| - 1]), events[|events| - 1])
  }

  // ----- the events replay to the status -----

  /** The status implied by the last status event. */
  function Implied(emitted: seq<Event>): Status {
    if emitted == [] then READY
    else match emitted[|emitted| - 1]
      case Ready => READY
      case Stale => STALE
      case Error => ERROR
      case ConfigurationChanged => Implied(emitted[..|emitted| - 1])
  }

  /** No status event announces the status that was already implied. */
  ghost predicate NoRepetition(emitted: seq<Event>) {
    forall k :: 0 <= k < |emitted| && emitted[k] != ConfigurationChanged ==>
      Implied(emitted[..k]) != Implied([emitted[k]])
  }

  /** The statuses that the handlers record. */
  ghost predicate Recordable(statuses: Statuses) {
    forall name <- statuses :: statuses[name] in {READY, STALE, ERROR}
  }

  ghost predicate Inv(s: State) {
    && Recordable(s.providerStatuses)
    && Implied(s.emitted) == StatusFromProviderStatuses(s.providerStatuses)
    && NoRepetition(s.emitted)
  }

  lemma ImpliedAppend(emitted: seq<Event>, e: Event)
    ensures Implied(emitted + [e]) == if e == ConfigurationChanged then Implied(emitted) else Implied([e])
  {
    assert (emitted + [e])[..|emitted|] == emitted;
  }

  lemma NoRepetitionAppend(emitted: seq<Event>, e: Event)
    requires NoRepetition(emitted) && (e == ConfigurationChanged || Implied([e]) != Implied(emitted))
    ensures NoRepetition(emitted + [e])
  {
    var all := emitted + [e];
    forall k | 0 <= k < |all| && all[k] != ConfigurationChanged ensures Implied(all[..k]) != Implied([all[k]]) {
      assert all[..k] == if k < |emitted| then emitted[..k] else emitted;
    }
  }

  lemma RecordableOverall(statuses: Statuses)
    requires Recordable(statuses)
    ensures StatusFromProviderStatuses(statuses) in {READY, STALE, ERROR}
  {
    var s := StatusFromProviderStatuses(statuses);
    assert MostCritical(statuses, s);
    if s != READY {
      var name :| name in statuses && statuses[name] == s;
    }
  }

  lemma Announced(status: Status)
    requires status in {READY, STALE, ERROR}
    ensures |Announcement(status)| == 1 && Announcement(status)[0] != ConfigurationChanged
    ensures Implied(Announcement(status)) == status
  {
  }

  lemma ChangeKeepsInv(s: State, name: string, status: Status)
    requires Inv(s) && status in {READY, STALE, ERROR}
    ensures Inv(Changed(s, name, status))
  {
    var statuses := s.providerStatuses[name := status];
    assert Recordable(statuses);
    RecordableOverall(statuses);
    var now := StatusFromProviderStatuses(statuses);
    if StatusFromProviderStatuses(s.providerStatuses) != now {
      Announced(now);
      assert Announcement(now) == [Announcement(now)[0]];
      ImpliedAppend(s.emitted, Announcement(now)[0]);
      NoRepetitionAppend(s.emitted, Announcement(now)[0]);
    }
  }

  lemma StepKeepsInv(s: State, r: Received)
    requires Inv(s)
    ensures Inv(Step(s, r))
  {
    match r.event
    case Error => ChangeKeepsInv(s, r.provider, ERROR);
    case Stale => ChangeKeepsInv(s, r.provider, STALE);
    case Ready => ChangeKeepsInv(s, r.provider, READY);
    case ConfigurationChanged =>
      ImpliedAppend(s.emitted, ConfigurationChanged);
      NoRepetitionAppend(s.emitted, ConfigurationChanged);
  }

  lemma {:induction false} RunKeepsInv(events: seq<Received>)
    ensures Inv(Run(events))
  {
    if events != [] {
      RunKeepsInv(events[..|events| - 1]);
      StepKeepsInv(Run(events[..|events| - 1]), events[|events| - 1]);
    } else {
      assert Implied([]) == READY;
    }
  }

  // ----- what holds over every run -----

  /** What a provider last reported. */
  function LastReported(events: seq<Received>, name: string): Option<Status> {
    if events == [] then None
    else
      var last := events[|events| - 1];
      if last.provider == name && last.event != ConfigurationChanged then Some(Implied([last.event]))
      else LastReported(events[..|events| - 1], name)
  }

  lemma {:induction false} StatusesAreLastReports(events: seq<Received>, name: string)
    ensures LastReported(events, name) == ProviderStatus(Run(events), name)
  {
    if events == [] {
    } else {
      StatusesAreLastReports(events[..|events| - 1], name);
    }
  }

  /**
   The status implied by the events emitted so far is the most critical of what the providers last
   reported, and no event announces a status that was already implied.
   */
  lemma EventsReplayToStatus(events: seq<Received>, name: string)
    ensures var emitted := Run(events).emitted;
            && NoRepetition(emitted)
            && (LastReported(events, name).Some? ==>
                  Severity(LastReported(events, name).value) <= Severity(Implied(emitted)))
    ensures Implied(Run(events).emitted) == READY
         || exists critical :: LastReported(events, critical) == Some(Implied(Run(events).emitted))
  {
    RunKeepsInv(events);
    var statuses, implied := Run(events).providerStatuses, Implied(Run(events).emitted);
    StatusesAreLastReports(events, name);
    if implied != READY {
      var critical :| critical in statuses && statuses[critical] == implied;
      StatusesAreLastReports(events, critical);
    }
  }

  function ProviderStatus(s: State, name: string): Option<Status> {
    if name in s.providerStatuses then Some(s.providerStatuses[name]) else None
  }

  /** Not-ready and fatal are never recorded, so no provider is ever passed over because of its status. */
  lemma EveryProviderStaysEligible(events: seq<Received>, name: string)
    ensures ShouldEvaluateThisProvider(ProviderStatus(Run(events), name))
  {
    RunKeepsInv(events);
  }

  /** How many of the events say that a configuration changed. */
  function Changes(events: seq<Event>): nat {
    if events == [] then 0
    else Changes(events[..|events| - 1]) + if events[|events| - 1] == ConfigurationChanged then 1 else 0
  }

  function EventsOf(events: seq<Received>): seq<Event> {
    seq(|events|, k requires 0 <= k < |events| => events[k].event)
  }

  lemma ChangesAppend(events: seq<Event>, e: Event)
    ensures Changes(events + [e]) == Changes(events) + if e == ConfigurationChanged then 1 else 0
  {
    assert (events + [e])[..|events|] == events;
  }

  lemma StatusChangesNothing(s: State, name: string, status: Status)
    ensures Changes(Changed(s, name, status).emitted) == Changes(s.emitted)
  {
    var now := StatusFromProviderStatuses(s.providerStatuses[name := status]);
    if Announcement(now) == [] {
      assert s.emitted + [] == s.emitted;
    } else {
      assert Announcement(now) == [Announcement(now)[0]];
      ChangesAppend(s.emitted, Announcement(now)[0]);
    }
  }

  /** Every change of a provider's configuration is passed on, once, and no other is announced. */
  lemma {:induction false} ChangesArePassedOn(events: seq<Received>)
    ensures Changes(Run(events).emitted) == Changes(EventsOf(events))
  {
    if events == [] {
    } else {
      var front, last := events[..|events| - 1], events[|events| - 1];
      ChangesArePassedOn(front);
      assert EventsOf(events) == EventsOf(front) + [last.event];
      ChangesAppend(EventsOf(front), last.event);
      match last.event
      case Error => StatusChangesNothing(Run(front), last.provider, ERROR);
      case Stale => StatusChangesNothing(Run(front), last.provider, STALE);
      case Ready => StatusChangesNothing(Run(front), last.provider, READY);
      case ConfigurationChanged => ChangesAppend(Run(front).emitted, ConfigurationChanged);
    }
  }

  // ----- the tracker -----

  class StatusTracker {
    var providerStatuses: Statuses
    /** The events emitted by the multi-provider. */
    var emitted: seq<Event>

    function State(): State
      reads this
    {
      Tracker(providerStatuses, emitted)
    }

    constructor ()
      ensures State() == Run([])
    {
      providerStatuses, emitted := map[], [];
    }

    method ChangeProviderStatus(name: string, status: Status)
      modifies this
      ensures State() == Changed(old(State()), name, status)
    {
      var currentStatus := StatusFromProviderStatuses(providerStatuses);
      providerStatuses := providerStatuses[name := status];
      var newStatus := StatusFromProviderStatuses(providerStatuses);
      if currentStatus != newStatus {
        if newStatus == FATAL || newStatus == ERROR {
          emitted := emitted + [Error];
        } else if newStatus == STALE {
          emitted := emitted + [Stale];
        } else if newStatus == READY {
          emitted := emitted + [Ready];
        } else {
          assert emitted + [] == emitted;
        }
      }
    }

    method Handle(r: Received)
      modifies this
      ensures State() == Step(old(State()), r)
      ensures forall events :: old(State()) == Run(events) ==> State() == Run(events + [r])
    {
      match r.event {
        case Error => ChangeProviderStatus(r.provider, ERROR);
        case Stale => ChangeProviderStatus(r.provider, STALE);
        case Ready => ChangeProviderStatus(r.provider, READY);
        case ConfigurationChanged => emitted := emitted + [ConfigurationChanged];
      }
      assert forall events: seq<Received> :: (events + [r])[..|events|] == events;
    }
  }
}
