/**
 When closing the OFREP web provider is final. Requests that still wait for their headers are aborted and new
 ones are refused, but what has got further may switch change detection on again.
 */
module OfrepClose {
  import opened OfrepDetection
  import opened OfrepProtocol

  /** Closed, with change detection off. */
  predicate Off(s: State) {
    s.closed && !s.sseManager && s.pollingIntervalId.None? && s.intervals == {}
  }

  /** What may still come after close by itself: the manager, the polling timer and the visibility listener are gone. */
  predicate LeftOver(i: Input) {
    i.RetryDue? || i.Responded? || i.Persisted? || i.CacheRead?
  }

  ghost predicate Continuation(states: seq<State>, moments: seq<Moment>, c: Config) {
    && |states| == |moments| + 1
    && (forall k :: 0 <= k < |moments| ==>
          LeftOver(moments[k].input) && Follow(states[k], moments[k], states[k + 1], c))
  }

  /** Nothing switches change detection on again. */
  ghost predicate Final(s: State, c: Config) {
    forall states: seq<State>, moments: seq<Moment> ::
      Continuation(states, moments, c) && states[0] == s ==> Off(states[|moments|])
  }

  // ----- what can switch it on -----

  predicate CanPoll(c: Config) {
    c.pollInterval > 0 && c.changeDetection != NoDetection
  }

  predicate CanConnect(c: Config) {
    c.changeDetection == Sse && c.hasEventSource
  }

  /** A response can still bring, or repeat, event streams. */
  predicate HasStreams(s: State) {
    s.eventStreams || exists t <- s.tasks :: t.Fetching? && t.received && t.generation == s.contextRevision
  }

  /** The suspended calls that can switch change detection on. */
  predicate Wakes(t: Task, revision: nat, streams: bool, c: Config) {
    match t
    case Reading(_) => CanConnect(c)
    case Fetching(caller, _, generation, received) =>
      && received
      && (|| (CanPoll(c) && caller == ContextChange)
          || (CanConnect(c) && ((Adjusts(caller) && streams) || (caller == Background && generation == revision))))
    case Storing(caller, stored) =>
      || (CanPoll(c) && caller == ContextChange)
      || (CanConnect(c) && (Adjusts(caller) || caller == Background) && stored)
  }

  predicate CanRestart(s: State, c: Config) {
    exists t <- s.tasks :: Wakes(t, s.contextRevision, HasStreams(s), c)
  }

  // ----- otherwise it stays off -----

  lemma ConnectStaysOff(s: State, streams: bool, c: Config)
    requires Off(s) && (CanConnect(c) ==> !streams)
    ensures var t := ConnectSseIfAvailable(s, streams, c);
            Off(t) && t.tasks == s.tasks && t.eventStreams == s.eventStreams
    ensures ConnectSseIfAvailable(s, streams, c).contextRevision == s.contextRevision
  {
  }

  /** The rest is as it was. */
  predicate SameRest(s: State, t: State) {
    t.tasks == s.tasks && t.eventStreams == s.eventStreams && t.contextRevision == s.contextRevision
  }

  lemma ResumeStaysOff(s: State, caller: Caller, changed: bool, streams: bool, c: Config)
    requires Off(s) && (caller == ContextChange ==> !CanPoll(c))
    requires CanConnect(c) && (Adjusts(caller) || (caller == Background && changed)) ==> !streams
    ensures Off(Resume(s, caller, changed, streams, c)) && SameRest(s, Resume(s, caller, changed, streams, c))
  {
    if Adjusts(caller) || (caller == Background && changed) {
      ConnectStaysOff(s, streams, c);
    }
  }

  /** Tasks that were there before, and at most one that does not wake, with no more streams than before. */
  lemma StaysAsleep(s: State, t: State, c: Config)
    requires !CanRestart(s, c) && t.contextRevision == s.contextRevision
    requires CanConnect(c) ==> HasStreams(t) ==> HasStreams(s)
    requires forall u <- t.tasks :: u in s.tasks || !Wakes(u, t.contextRevision, HasStreams(t), c)
    ensures !CanRestart(t, c)
  {
    forall u | u in t.tasks ensures !Wakes(u, t.contextRevision, HasStreams(t), c) {
      if u in s.tasks {
        assert !Wakes(u, s.contextRevision, HasStreams(s), c);
      }
    }
  }

  lemma WithoutIsWithin(tasks: seq<Task>, k: nat)
    requires k < |tasks|
    ensures forall t <- Without(tasks, k) :: t in tasks
  {
  }

  lemma RespondedStaysOff(s: State, k: nat, r: Response, now: int, c: Config)
    requires Off(s) && !CanRestart(s, c) && Enabled(s, Responded(k, r))
    ensures var t := Step(s, Responded(k, r), now, c); Off(t) && !CanRestart(t, c)
  {
    var task, u := s.tasks[k], s.(tasks := Without(s.tasks, k));
    assert task in s.tasks && !Wakes(task, s.contextRevision, HasStreams(s), c);
    WithoutIsWithin(s.tasks, k);
    var t := Step(s, Responded(k, r), now, c);
    match r {
      case NotModified => ResumeStaysOff(u, task.caller, false, s.eventStreams, c);
      case Failure(_) =>
      case Success(streams) =>
        if task.generation == s.contextRevision {
          assert task.received && HasStreams(s);
        } else {
          ResumeStaysOff(u, task.caller, false, false, c);
        }
    }
    StaysAsleep(s, t, c);
  }

  lemma PersistedStaysOff(s: State, k: nat, now: int, c: Config)
    requires Off(s) && !CanRestart(s, c) && Enabled(s, Persisted(k))
    ensures var t := Step(s, Persisted(k), now, c); Off(t) && !CanRestart(t, c)
  {
    var task := s.tasks[k];
    assert task in s.tasks && !Wakes(task, s.contextRevision, HasStreams(s), c);
    WithoutIsWithin(s.tasks, k);
    ResumeStaysOff(s.(tasks := Without(s.tasks, k)), task.caller, true, task.streams, c);
    StaysAsleep(s, Step(s, Persisted(k), now, c), c);
  }

  /** A request after close is refused, so it wakes nothing. */
  lemma FetchStaysOff(s: State, caller: Caller, context: Context, c: Config)
    requires Off(s) && !CanRestart(s, c)
    ensures Off(Fetch(s, caller, context)) && !CanRestart(Fetch(s, caller, context), c)
  {
    StaysAsleep(s, Fetch(s, caller, context), c);
  }

  lemma LoadStaysOff(s: State, entry: Stored, now: int, c: Config)
    requires Off(s) && !CanRestart(s, c) && !CanConnect(c)
    ensures Off(Load(s, entry, now, c)) && !CanRestart(Load(s, entry, now, c), c)
  {
    var t := s.(flagCache := entry.context, applied := None, eventStreams := entry.streams);
    var u := if entry.streams then ConnectSseIfAvailable(t, true, c) else t;
    ConnectStaysOff(t, true, c);
    StaysAsleep(s, u, c);
    FetchStaysOff(u, Background, u.context, c);
  }

  lemma ReadStaysOff(s: State, k: nat, stored: Option<Stored>, now: int, c: Config)
    requires Off(s) && !CanRestart(s, c) && Enabled(s, CacheRead(k, stored))
    ensures var t := Step(s, CacheRead(k, stored), now, c); Off(t) && !CanRestart(t, c)
  {
    assert s.tasks[k] in s.tasks && !Wakes(s.tasks[k], s.contextRevision, HasStreams(s), c);
    WithoutIsWithin(s.tasks, k);
    var u := s.(tasks := Without(s.tasks, k));
    StaysAsleep(s, u, c);
    match stored
    case None => FetchStaysOff(u, ContextChange, s.tasks[k].context, c);
    case Some(entry) => LoadStaysOff(u, entry, now, c);
  }

  lemma RetryStaysOff(s: State, id: nat, now: int, c: Config)
    requires Off(s) && !CanRestart(s, c) && Enabled(s, RetryDue(id))
    ensures var t := Step(s, RetryDue(id), now, c); Off(t) && !CanRestart(t, c)
  {
    var u := s.(retryTimers := s.retryTimers - {id}, sseRetryTimerId := None);
    StaysAsleep(s, u, c);
    FetchStaysOff(u, SseRetry, u.context, c);
  }

  lemma StepStaysOff(s: State, m: Moment, t: State, c: Config)
    requires Off(s) && !CanRestart(s, c) && LeftOver(m.input) && Follow(s, m, t, c)
    ensures Off(t) && !CanRestart(t, c)
  {
    match m.input
    case Responded(k, r) => RespondedStaysOff(s, k, r, m.now, c);
    case Persisted(k) => PersistedStaysOff(s, k, m.now, c);
    case CacheRead(k, stored) => ReadStaysOff(s, k, stored, m.now, c);
    case RetryDue(id) => RetryStaysOff(s, id, m.now, c);
    case _ =>
  }

  lemma {:induction false} ContinuationStaysOff(states: seq<State>, moments: seq<Moment>, n: nat, c: Config)
    requires Continuation(states, moments, c) && n < |states| && Off(states[0]) && !CanRestart(states[0], c)
    ensures Off(states[n]) && !CanRestart(states[n], c)
  {
    if n == 0 {
    } else {
      ContinuationStaysOff(states, moments, n - 1, c);
      StepStaysOff(states[n - 1], moments[n - 1], states[n], c);
    }
  }

  // ----- and what can switch it on does -----

  lemma OnIsNotFinal(s: State, c: Config)
    requires !Off(s)
    ensures !Final(s, c)
  {
    var states: seq<State>, moments: seq<Moment> := [s], [];
    assert Continuation(states, moments, c) && states[|moments|] == s;
  }

  lemma StepIsNotFinal(s: State, m: Moment, t: State, c: Config)
    requires LeftOver(m.input) && Follow(s, m, t, c) && !Final(t, c)
    ensures !Final(s, c)
  {
    var states: seq<State>, moments: seq<Moment> :|
      Continuation(states, moments, c) && states[0] == t && !Off(states[|moments|]);
    var longer, more := [s] + states, [m] + moments;
    forall k | 0 <= k < |more| ensures LeftOver(more[k].input) && Follow(longer[k], more[k], longer[k + 1], c) {
      if k > 0 {
        assert more[k] == moments[k - 1] && longer[k] == states[k - 1] && longer[k + 1] == states[k];
      }
    }
    assert Continuation(longer, more, c) && longer[|more|] == states[|moments|];
  }

  lemma ResumeSwitchesOn(s: State, caller: Caller, changed: bool, streams: bool, c: Config)
    requires || (caller == ContextChange && CanPoll(c))
             || (CanConnect(c) && streams && (Adjusts(caller) || (caller == Background && changed)))
    ensures !Off(Resume(s, caller, changed, streams, c))
  {
  }

  lemma StoringWakes(s: State, k: nat, c: Config)
    requires k < |s.tasks| && s.tasks[k].Storing? && Wakes(s.tasks[k], s.contextRevision, HasStreams(s), c)
    ensures !Final(s, c)
  {
    var t := Step(s, Persisted(k), 0, c);
    ResumeSwitchesOn(s.(tasks := Without(s.tasks, k)), s.tasks[k].caller, true, s.tasks[k].streams, c);
    OnIsNotFinal(t, c);
    StepIsNotFinal(s, Moment(Persisted(k), 0), t, c);
  }

  /** A 304 repeats the streams there are. */
  lemma NotModifiedWakes(s: State, k: nat, c: Config)
    requires k < |s.tasks| && s.tasks[k].Fetching? && s.tasks[k].received
    requires || (s.tasks[k].caller == ContextChange && CanPoll(c))
             || (CanConnect(c) && s.eventStreams && Adjusts(s.tasks[k].caller))
    ensures !Final(s, c)
  {
    var t := Step(s, Responded(k, NotModified), 0, c);
    ResumeSwitchesOn(s.(tasks := Without(s.tasks, k)), s.tasks[k].caller, false, s.eventStreams, c);
    OnIsNotFinal(t, c);
    StepIsNotFinal(s, Moment(Responded(k, NotModified), 0), t, c);
  }

  /** The response to a current request brings streams. */
  lemma CurrentResponse(s: State, k: nat, c: Config) returns (t: State)
    requires k < |s.tasks| && s.tasks[k].Fetching? && s.tasks[k].received
    requires s.tasks[k].generation == s.contextRevision
    ensures Follow(s, Moment(Responded(k, Success(true)), 0), t, c) && t.eventStreams
    ensures t.tasks == Without(s.tasks, k) + [Storing(s.tasks[k].caller, true)]
  {
    t := Step(s, Responded(k, Success(true)), 0, c);
  }

  lemma CurrentWakes(s: State, k: nat, c: Config)
    requires k < |s.tasks| && s.tasks[k].Fetching? && s.tasks[k].received
    requires s.tasks[k].generation == s.contextRevision
    requires CanConnect(c) && (Adjusts(s.tasks[k].caller) || s.tasks[k].caller == Background)
    ensures !Final(s, c)
  {
    var t := CurrentResponse(s, k, c);
    StoringWakes(t, |s.tasks| - 1, c);
    StepIsNotFinal(s, Moment(Responded(k, Success(true)), 0), t, c);
  }

  /** An overtaken request, after another one has brought streams. */
  lemma OvertakenWakes(s: State, k: nat, j: nat, c: Config)
    requires k < |s.tasks| && s.tasks[k].Fetching? && s.tasks[k].received
    requires j < |s.tasks| && s.tasks[j].Fetching? && s.tasks[j].received
    requires s.tasks[j].generation == s.contextRevision != s.tasks[k].generation
    requires CanConnect(c) && Adjusts(s.tasks[k].caller)
    ensures !Final(s, c)
  {
    var t := CurrentResponse(s, j, c);
    var moved := if j < k then k - 1 else k;
    assert t.tasks[moved] == s.tasks[k];
    NotModifiedWakes(t, moved, c);
    StepIsNotFinal(s, Moment(Responded(j, Success(true)), 0), t, c);
  }

  lemma FetchingWakes(s: State, k: nat, c: Config)
    requires k < |s.tasks| && s.tasks[k].Fetching? && Wakes(s.tasks[k], s.contextRevision, HasStreams(s), c)
    ensures !Final(s, c)
  {
    var task := s.tasks[k];
    if (task.caller == ContextChange && CanPoll(c)) || (Adjusts(task.caller) && s.eventStreams) {
      NotModifiedWakes(s, k, c);
    } else if task.generation == s.contextRevision {
      CurrentWakes(s, k, c);
    } else {
      var other :| other in s.tasks && other.Fetching? && other.received && other.generation == s.contextRevision;
      var j :| 0 <= j < |s.tasks| && s.tasks[j] == other;
      OvertakenWakes(s, k, j, c);
    }
  }

  /** A stored entry with streams connects without any request. */
  lemma ReadingWakes(s: State, k: nat, c: Config)
    requires k < |s.tasks| && s.tasks[k].Reading? && CanConnect(c)
    ensures !Final(s, c)
  {
    var entry := Stored(s.tasks[k].context, true);
    var t := Step(s, CacheRead(k, Some(entry)), 0, c);
    OnIsNotFinal(t, c);
    StepIsNotFinal(s, Moment(CacheRead(k, Some(entry)), 0), t, c);
  }

  lemma RestartIsNotFinal(s: State, c: Config)
    requires CanRestart(s, c)
    ensures !Final(s, c)
  {
    var task :| task in s.tasks && Wakes(task, s.contextRevision, HasStreams(s), c);
    var k :| 0 <= k < |s.tasks| && s.tasks[k] == task;
    match task
    case Reading(_) => ReadingWakes(s, k, c);
    case Fetching(_, _, _, _) => FetchingWakes(s, k, c);
    case Storing(_, _) => StoringWakes(s, k, c);
  }

  /**
   Close is final if and only if nothing of the following is suspended: where polling is possible, a context
   change past its headers; where SSE is possible, a cache read, a store with event streams, or a request past
   its headers that can still bring or repeat event streams to a context change, retry or background refresh.
   Retry timers, even those that close has missed, and requests without headers switch nothing on.
   */
  lemma CloseIsFinalExactly(states: seq<State>, moments: seq<Moment>, n: nat, c: Config)
    requires IsRun(states, moments, c) && n < |states|
    ensures Final(Close(states[n]), c) <==> !CanRestart(Close(states[n]), c)
  {
    RunKeepsDetection(states, moments, n, c);
    var closed := Close(states[n]);
    assert Off(closed);
    if CanRestart(closed, c) {
      RestartIsNotFinal(closed, c);
    } else {
      forall later: seq<State>, after: seq<Moment> | Continuation(later, after, c) && later[0] == closed
        ensures Off(later[|after|])
      {
        ContinuationStaysOff(later, after, |after|, c);
      }
    }
  }
}
