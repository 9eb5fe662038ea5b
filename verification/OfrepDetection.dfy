/**
 What becomes of the change detection of the OFREP web provider over its runs: when an SSE manager is
 dropped, how many retry timers there are, and that refreshes do not overlap.
 */
module OfrepDetection {
  import opened OfrepProtocol

  // ----- when the SSE manager is dropped -----

  /** Callers that adjust SSE to whatever response they get. */
  predicate Adjusts(caller: Caller) {
    caller == ContextChange || caller == SseRetry
  }

  /** The inputs that take the manager away. */
  predicate Drops(s: State, i: Input, c: Config)
    requires Enabled(s, i)
  {
    match i
    case SseFailure => c.pollInterval > 0
    case Closed => true
    case Responded(k, r) =>
      (match r
       case NotModified => Adjusts(s.tasks[k].caller) && !s.eventStreams
       case Success(_) => Adjusts(s.tasks[k].caller) && s.tasks[k].generation != s.contextRevision
       case Failure(_) => s.tasks[k].caller == SseRetry && c.pollInterval > 0)
    case Persisted(k) => (Adjusts(s.tasks[k].caller) || s.tasks[k].caller == Background) && !s.tasks[k].streams
    case _ => false
  }

  lemma ConnectDropsExactly(s: State, streams: bool, c: Config)
    requires DetectionInv(s, c) && s.sseManager
    ensures ConnectSseIfAvailable(s, streams, c).sseManager <==> streams
  {
  }

  lemma ResponseDropsExactly(s: State, task: Task, r: Response, c: Config)
    requires DetectionInv(s, c) && s.sseManager && task.Fetching?
    ensures Receive(s, task, r, c).sseManager <==>
              match r
              case NotModified => !Adjusts(task.caller) || s.eventStreams
              case Success(_) => !Adjusts(task.caller) || task.generation == s.contextRevision
              case Failure(_) => task.caller != SseRetry || c.pollInterval <= 0
  {
    match r {
      case NotModified => ConnectDropsExactly(s, s.eventStreams, c);
      case Success(streams) => ConnectDropsExactly(s, false, c);
      case Failure(_) =>
    }
  }

  lemma ResumeDropsExactly(s: State, caller: Caller, streams: bool, c: Config)
    requires DetectionInv(s, c) && s.sseManager
    ensures Resume(s, caller, true, streams, c).sseManager <==> !(Adjusts(caller) || caller == Background) || streams
  {
    ConnectDropsExactly(s, streams, c);
  }

  lemma ReadDropsNothing(s: State, context: Context, stored: Option<Stored>, now: int, c: Config)
    requires DetectionInv(s, c) && s.sseManager
    ensures ReadDone(s, context, stored, now, c).sseManager
  {
  }

  /** Any step: the manager goes exactly with those inputs. */
  lemma ManagerIsDroppedExactly(s: State, i: Input, now: int, c: Config)
    requires DetectionInv(s, c) && s.sseManager && Enabled(s, i)
    ensures !Step(s, i, now, c).sseManager <==> Drops(s, i, c)
  {
    match i
    case Responded(k, r) => ResponseDropsExactly(s.(tasks := Without(s.tasks, k)), s.tasks[k], r, c);
    case Persisted(k) => ResumeDropsExactly(s.(tasks := Without(s.tasks, k)), s.tasks[k].caller, s.tasks[k].streams, c);
    case CacheRead(k, stored) => ReadDropsNothing(s.(tasks := Without(s.tasks, k)), s.tasks[k].context, stored, now, c);
    case _ =>
  }

  /** The case of an overtaken request: its response drops the manager exactly for these two callers. */
  lemma OvertakenResponseDropsExactly(s: State, k: nat, streams: bool, now: int, c: Config)
    requires DetectionInv(s, c) && s.sseManager && Enabled(s, Responded(k, Success(streams)))
    requires s.tasks[k].generation != s.contextRevision
    ensures !Step(s, Responded(k, Success(streams)), now, c).sseManager <==>
              s.tasks[k].caller in {ContextChange, SseRetry}
  {
    ManagerIsDroppedExactly(s, Responded(k, Success(streams)), now, c);
  }

  lemma FollowDropsExactly(s: State, m: Moment, t: State, c: Config)
    requires DetectionInv(s, c) && s.sseManager && Follow(s, m, t, c)
    ensures !t.sseManager <==> Drops(s, m.input, c)
  {
    ManagerIsDroppedExactly(s, m.input, m.now, c);
  }

  ghost predicate DropsAt(states: seq<State>, moments: seq<Moment>, k: nat, c: Config) {
    k < |moments| && k < |states| && Enabled(states[k], moments[k].input) && Drops(states[k], moments[k].input, c)
  }

  lemma StepDropsExactly(states: seq<State>, moments: seq<Moment>, k: nat, c: Config)
    requires IsRun(states, moments, c) && k < |moments| && states[k].sseManager
    ensures !states[k + 1].sseManager <==> DropsAt(states, moments, k, c)
  {
    RunKeepsDetection(states, moments, k, c);
    FollowDropsExactly(states[k], moments[k], states[k + 1], c);
  }

  lemma {:induction false} StaysTrue(kept: seq<bool>, m: nat, n: nat)
    requires m <= n < |kept| && kept[m] && forall k :: m <= k < n && kept[k] ==> kept[k + 1]
    ensures kept[n]
    decreases n
  {
    if m < n {
      StaysTrue(kept, m, n - 1);
    }
  }

  lemma ManagerSoFar(states: seq<State>, moments: seq<Moment>, m: nat, n: nat, c: Config)
    requires IsRun(states, moments, c) && m <= n < |states| && states[m].sseManager
    requires forall k: nat :: m <= k < n ==> !DropsAt(states, moments, k, c)
    ensures states[n].sseManager
  {
    var kept := seq(|states|, k requires 0 <= k < |states| => states[k].sseManager);
    forall k | m <= k < n && kept[k] ensures kept[k + 1] {
      assert !DropsAt(states, moments, k, c);
      StepDropsExactly(states, moments, k, c);
    }
    StaysTrue(kept, m, n);
  }

  /** In every run a manager is kept from `m` to `n` if and only if none of those inputs comes in between. */
  lemma ManagerSurvivesExactly(states: seq<State>, moments: seq<Moment>, m: nat, n: nat, c: Config)
    requires IsRun(states, moments, c) && m <= n < |states| && states[m].sseManager
    ensures (forall k: nat :: m <= k <= n ==> states[k].sseManager) <==>
              (forall k: nat :: m <= k < n ==> !DropsAt(states, moments, k, c))
  {
    if forall k: nat :: m <= k < n ==> !DropsAt(states, moments, k, c) {
      forall k: nat | m <= k <= n ensures states[k].sseManager {
        ManagerSoFar(states, moments, m, k, c);
      }
    } else {
      var k: nat :| m <= k < n && DropsAt(states, moments, k, c);
      if states[k].sseManager {
        StepDropsExactly(states, moments, k, c);
      }
    }
  }

  // ----- a run that ends without any change detection -----

  lemma TwoChanges(s: State, first: Context, second: Context, c: Config) returns (s1: State, s2: State)
    requires Initialized(s, c) && c.cacheMode != LocalCacheFirst && s.retryPollingAfter.None?
    ensures Follow(s, Moment(Change(first), 0), s1, c) && Follow(s1, Moment(Change(second), 0), s2, c)
    ensures s2.tasks == [Fetching(ContextChange, first, 1, false), Fetching(ContextChange, second, 2, false)]
    ensures s2.contextRevision == 2 && s2.retryTimers == map[] && DetectionInv(s2, c) && !s2.closed
  {
    s1 := ChangeContext(s, first, 0, c);
    assert s1.tasks == [Fetching(ContextChange, first, 1, false)];
    s2 := ChangeContext(s1, second, 0, c);
    DetectionFollows(s, Moment(Change(first), 0), s1, c);
    DetectionFollows(s1, Moment(Change(second), 0), s2, c);
  }

  /** The newer response arrives, is stored, and connects SSE. */
  lemma NewerResponse(s: State, older: Task, newer: Task, c: Config) returns (s3: State, s4: State)
    requires DetectionInv(s, c) && s.tasks == [older, newer] && s.retryTimers == map[] && !s.closed
    requires newer.Fetching? && newer.caller == ContextChange && newer.generation == s.contextRevision
    requires c.changeDetection == Sse && c.hasEventSource
    ensures Follow(s, Moment(Responded(1, Success(true)), 0), s3, c) && Follow(s3, Moment(Persisted(1), 0), s4, c)
    ensures s4.tasks == [older] && s4.sseManager && s4.contextRevision == s.contextRevision && !s4.closed
    ensures s4.retryTimers == map[] && DetectionInv(s4, c) && s4.applied == Some(s.contextRevision)
  {
    s3 := Step(s, Responded(1, Success(true)), 0, c);
    assert Without(s.tasks, 1) == [older];
    assert s3.tasks == [older] + [Storing(ContextChange, true)];
    s4 := Step(s3, Persisted(1), 0, c);
    assert Without(s3.tasks, 1) == [older];
    DetectionFollows(s, Moment(Responded(1, Success(true)), 0), s3, c);
    DetectionFollows(s3, Moment(Persisted(1), 0), s4, c);
  }

  /** The older response arrives last. */
  lemma OlderResponse(s: State, older: Task, c: Config) returns (s5: State)
    requires DetectionInv(s, c) && s.tasks == [older] && s.sseManager && s.retryTimers == map[]
    requires c.pollInterval <= 0 && !s.closed
    requires older.Fetching? && older.caller == ContextChange && older.generation != s.contextRevision
    ensures Follow(s, Moment(Responded(0, Success(true)), 0), s5, c)
    ensures !s5.sseManager && s5.intervals == {} && s5.retryTimers == map[] && s5.tasks == []
  {
    s5 := Step(s, Responded(0, Success(true)), 0, c);
    OvertakenChangeDropsManager(s, 0, true, 0, c);
    assert Without(s.tasks, 0) == [];
    DetectionFollows(s, Moment(Responded(0, Success(true)), 0), s5, c);
  }

  /** Up to the point where SSE is connected for the second change and the response to the first is still to come. */
  lemma ConnectedForSecond(s: State, first: Context, second: Context, c: Config)
    returns (states: seq<State>, moments: seq<Moment>)
    requires Initialized(s, c) && c.cacheMode != LocalCacheFirst && s.retryPollingAfter.None?
    requires c.changeDetection == Sse && c.hasEventSource
    ensures IsRun(states, moments, c) && states[0] == s && |moments| == 4
    ensures var t := states[4];
            && t.tasks == [Fetching(ContextChange, first, 1, false)] && t.contextRevision == 2 && t.applied == Some(2)
            && t.sseManager && t.retryTimers == map[] && DetectionInv(t, c) && !t.closed
  {
    var older, newer := Fetching(ContextChange, first, 1, false), Fetching(ContextChange, second, 2, false);
    var s1, s2 := TwoChanges(s, first, second, c);
    var s3, s4 := NewerResponse(s2, older, newer, c);
    var m1, m2 := Moment(Change(first), 0), Moment(Change(second), 0);
    var m3, m4 := Moment(Responded(1, Success(true)), 0), Moment(Persisted(1), 0);
    LongerRun([s], [], m1, s1, c);
    states, moments := [s] + [s1], [] + [m1];
    LongerRun(states, moments, m2, s2, c);
    states, moments := states + [s2], moments + [m2];
    LongerRun(states, moments, m3, s3, c);
    states, moments := states + [s3], moments + [m3];
    LongerRun(states, moments, m4, s4, c);
    states, moments := states + [s4], moments + [m4];
  }

  /**
   Two changes whose responses come back in the wrong order: SSE has been connected for the second, the
   response to the first drops it, and with polling disabled nothing detects changes any more.
   */
  lemma DetectionCanEnd(s: State, first: Context, second: Context, c: Config)
    requires Initialized(s, c) && c.cacheMode != LocalCacheFirst && s.retryPollingAfter.None?
    requires c.changeDetection == Sse && c.hasEventSource && c.pollInterval <= 0
    ensures exists states: seq<State>, moments: seq<Moment> ::
              && IsRun(states, moments, c) && states[0] == s && |moments| == 5
              && states[4].sseManager && states[4].applied == Some(states[4].contextRevision)
              && !states[5].sseManager && states[5].intervals == {} && states[5].retryTimers == map[]
              && states[5].tasks == []
  {
    var states, moments := ConnectedForSecond(s, first, second, c);
    var t := OlderResponse(states[4], Fetching(ContextChange, first, 1, false), c);
    var last := Moment(Responded(0, Success(true)), 0);
    LongerRun(states, moments, last, t, c);
    assert (states + [t])[4] == states[4] && (states + [t])[5] == t && (states + [t])[0] == s;
  }

  // ----- retry timers -----

  /** The inputs that schedule a retry. */
  predicate Schedules(s: State, i: Input, c: Config)
    requires Enabled(s, i)
  {
    && s.sseManager && c.pollInterval <= 0 && c.changeDetection != NoDetection
    && (i.SseFailure? || (i.Responded? && i.response.Failure? && s.tasks[i.task].caller == SseRetry))
  }

  predicate CanKeepSse(s: State, streams: bool, c: Config) {
    streams && c.changeDetection == Sse && (s.sseManager || c.hasEventSource)
  }

  /** The inputs that connect SSE. */
  predicate Connects(s: State, i: Input, c: Config)
    requires Enabled(s, i)
  {
    match i
    case Responded(k, r) => r.NotModified? && Adjusts(s.tasks[k].caller) && CanKeepSse(s, s.eventStreams, c)
    case Persisted(k) =>
      (Adjusts(s.tasks[k].caller) || s.tasks[k].caller == Background) && CanKeepSse(s, s.tasks[k].streams, c)
    case CacheRead(_, stored) => stored.Some? && CanKeepSse(s, stored.value.streams, c)
    case _ => false
  }

  /** The inputs that end the pending retry: it fires, or SSE is connected, or the provider is closed. */
  predicate Clears(s: State, i: Input, c: Config)
    requires Enabled(s, i)
  {
    i.RetryDue? || i.Closed? || Connects(s, i, c)
  }

  predicate SameRetry(s: State, t: State) {
    t.retryTimers == s.retryTimers && t.sseRetryTimerId == s.sseRetryTimerId
  }

  predicate StoredIsGone(s: State, t: State) {
    t.retryTimers == ClearSseRetry(s).retryTimers && t.sseRetryTimerId == None
  }

  lemma ConnectClearsExactly(s: State, streams: bool, c: Config)
    ensures var t := ConnectSseIfAvailable(s, streams, c);
            if CanKeepSse(s, streams, c) then StoredIsGone(s, t) else SameRetry(s, t)
  {
  }

  lemma ResumeClearsExactly(s: State, caller: Caller, changed: bool, streams: bool, c: Config)
    ensures var t := Resume(s, caller, changed, streams, c);
            if (Adjusts(caller) || (caller == Background && changed)) && CanKeepSse(s, streams, c)
            then StoredIsGone(s, t) else SameRetry(s, t)
  {
    ConnectClearsExactly(s, streams, c);
  }

  predicate Scheduled(s: State, t: State) {
    && s.nextId !in s.retryTimers && t.retryTimers == s.retryTimers[s.nextId := Delay(s.sseRetryCount)]
    && t.sseRetryTimerId == Some(s.nextId)
  }

  lemma ErrorSchedulesExactly(s: State, c: Config)
    requires DetectionInv(s, c)
    ensures var t := HandleSseError(s, c);
            if s.sseManager && c.pollInterval <= 0 && c.changeDetection != NoDetection then Scheduled(s, t)
            else SameRetry(s, t)
  {
  }

  lemma FailureSchedulesExactly(s: State, caller: Caller, retryAfter: Option<int>, c: Config)
    requires DetectionInv(s, c)
    ensures var t := Fail(if retryAfter.Some? then s.(retryPollingAfter := retryAfter) else s, caller, c);
            if && s.sseManager && c.pollInterval <= 0 && c.changeDetection != NoDetection
               && caller == SseRetry then Scheduled(s, t) else SameRetry(s, t)
  {
    var t := if retryAfter.Some? then s.(retryPollingAfter := retryAfter) else s;
    SameDetectionKeepsInv(s, t, c);
    ErrorSchedulesExactly(t, c);
  }

  lemma RespondedChangesExactly(s: State, k: nat, r: Response, now: int, c: Config)
    requires DetectionInv(s, c) && Enabled(s, Responded(k, r))
    ensures var t := Step(s, Responded(k, r), now, c);
            if Schedules(s, Responded(k, r), c) then Scheduled(s, t)
            else if Clears(s, Responded(k, r), c) then StoredIsGone(s, t)
            else SameRetry(s, t)
  {
    var task, u := s.tasks[k], s.(tasks := Without(s.tasks, k));
    match r
    case NotModified => ResumeClearsExactly(u, task.caller, false, s.eventStreams, c);
    case Success(_) => ResumeClearsExactly(u, task.caller, false, false, c);
    case Failure(retryAfter) =>
      SameDetectionKeepsInv(s, u, c);
      FailureSchedulesExactly(u, task.caller, retryAfter, c);
  }

  lemma LoadClearsExactly(s: State, entry: Stored, now: int, c: Config)
    ensures if CanKeepSse(s, entry.streams, c) then StoredIsGone(s, Load(s, entry, now, c))
            else SameRetry(s, Load(s, entry, now, c))
  {
    var t := s.(flagCache := entry.context, applied := None, eventStreams := entry.streams);
    ConnectClearsExactly(t, true, c);
  }

  lemma ReadClearsExactly(s: State, k: nat, stored: Option<Stored>, now: int, c: Config)
    requires Enabled(s, CacheRead(k, stored))
    ensures var t := Step(s, CacheRead(k, stored), now, c);
            if Clears(s, CacheRead(k, stored), c) then StoredIsGone(s, t) else SameRetry(s, t)
  {
    if stored.Some? {
      LoadClearsExactly(s.(tasks := Without(s.tasks, k)), stored.value, now, c);
    }
  }

  lemma PersistedClearsExactly(s: State, k: nat, now: int, c: Config)
    requires Enabled(s, Persisted(k))
    ensures var t := Step(s, Persisted(k), now, c);
            if Clears(s, Persisted(k), c) then StoredIsGone(s, t) else SameRetry(s, t)
  {
    ResumeClearsExactly(s.(tasks := Without(s.tasks, k)), s.tasks[k].caller, true, s.tasks[k].streams, c);
  }

  lemma OthersLeaveRetries(s: State, i: Input, now: int, c: Config)
    requires i.Change? || i.Tick? || i.Visible? || i.SseMessage? || i.HeadersArrived?
    requires Enabled(s, i)
    ensures SameRetry(s, Step(s, i, now, c))
  {
  }

  /**
   A step adds one retry timer, under a new id, exactly for the inputs that schedule one; the inputs that clear
   take away the timer that fires or the one whose id is stored; and every other step leaves the timers alone.
   */
  lemma RetryTimersChangeExactly(s: State, i: Input, now: int, c: Config)
    requires DetectionInv(s, c) && Enabled(s, i)
    ensures var t := Step(s, i, now, c);
            if Schedules(s, i, c) then Scheduled(s, t)
            else if i.RetryDue? then t.retryTimers == s.retryTimers - {i.timer} && t.sseRetryTimerId == None
            else if Clears(s, i, c) then StoredIsGone(s, t)
            else SameRetry(s, t)
  {
    match i
    case SseFailure => ErrorSchedulesExactly(s, c);
    case RetryDue(_) =>
    case Responded(k, r) => RespondedChangesExactly(s, k, r, now, c);
    case Persisted(k) => PersistedClearsExactly(s, k, now, c);
    case CacheRead(k, stored) => ReadClearsExactly(s, k, stored, now, c);
    case Closed =>
    case _ => OthersLeaveRetries(s, i, now, c);
  }

  /** At most one timer is pending, and it is the stored one. */
  predicate Tracked(s: State) {
    forall id <- s.retryTimers :: s.sseRetryTimerId == Some(id)
  }

  lemma TrackedIsOne(s: State)
    requires Tracked(s)
    ensures |s.retryTimers| <= 1
  {
    if s.retryTimers != map[] {
      var id :| id in s.retryTimers;
      assert s.retryTimers.Keys == {id};
      assert |s.retryTimers| == |s.retryTimers.Keys|;
    }
  }

  ghost predicate SchedulesAt(states: seq<State>, moments: seq<Moment>, k: nat, c: Config) {
    k < |moments| && k < |states| && Enabled(states[k], moments[k].input) && Schedules(states[k], moments[k].input, c)
  }

  ghost predicate ClearsAt(states: seq<State>, moments: seq<Moment>, k: nat, c: Config) {
    k < |moments| && k < |states| && Enabled(states[k], moments[k].input) && Clears(states[k], moments[k].input, c)
  }

  ghost predicate ClearedBetween(states: seq<State>, moments: seq<Moment>, j: nat, k: nat, c: Config) {
    exists l: nat :: j < l < k && ClearsAt(states, moments, l, c)
  }

  /** A retry has been scheduled and not been cleared since. */
  ghost predicate Waiting(states: seq<State>, moments: seq<Moment>, n: nat, c: Config) {
    exists j: nat :: j < n && SchedulesAt(states, moments, j, c) && !ClearedBetween(states, moments, j, n, c)
  }

  lemma FollowTracks(s: State, m: Moment, t: State, c: Config)
    requires DetectionInv(s, c) && Tracked(s) && Follow(s, m, t, c)
    ensures Schedules(s, m.input, c) && s.retryTimers == map[] ==> Tracked(t)
    ensures !Schedules(s, m.input, c) ==> Tracked(t)
    ensures !Schedules(s, m.input, c) && Clears(s, m.input, c) ==> t.retryTimers == map[]
    ensures !Schedules(s, m.input, c) && !Clears(s, m.input, c) ==> t.retryTimers == s.retryTimers
  {
    RetryTimersChangeExactly(s, m.input, m.now, c);
  }

  lemma StillWaiting(states: seq<State>, moments: seq<Moment>, n: nat, c: Config)
    requires Waiting(states, moments, n, c) && !ClearsAt(states, moments, n, c)
    ensures Waiting(states, moments, n + 1, c)
  {
    var j: nat :| j < n && SchedulesAt(states, moments, j, c) && !ClearedBetween(states, moments, j, n, c);
    assert !ClearedBetween(states, moments, j, n + 1, c);
  }

  /** A pending timer is one that waits. */
  ghost predicate PendingWaits(states: seq<State>, moments: seq<Moment>, n: nat, c: Config) {
    n < |states| && Tracked(states[n]) && (states[n].retryTimers != map[] ==> Waiting(states, moments, n, c))
  }

  lemma StepTracks(states: seq<State>, moments: seq<Moment>, n: nat, c: Config)
    requires IsRun(states, moments, c) && n < |moments| && PendingWaits(states, moments, n, c)
    requires SchedulesAt(states, moments, n, c) ==> !Waiting(states, moments, n, c)
    ensures PendingWaits(states, moments, n + 1, c)
  {
    RunKeepsDetection(states, moments, n, c);
    FollowTracks(states[n], moments[n], states[n + 1], c);
    if SchedulesAt(states, moments, n, c) {
      assert !ClearedBetween(states, moments, n, n + 1, c);
    } else if states[n + 1].retryTimers != map[] {
      StillWaiting(states, moments, n, c);
    }
  }

  /** While each retry is cleared before the next one, there is only the timer that waits. */
  lemma {:induction false} TrackedSoFar(states: seq<State>, moments: seq<Moment>, n: nat, c: Config)
    requires IsRun(states, moments, c) && n < |states|
    requires forall k: nat :: SchedulesAt(states, moments, k, c) ==> !Waiting(states, moments, k, c)
    ensures PendingWaits(states, moments, n, c)
  {
    if n == 0 {
    } else {
      TrackedSoFar(states, moments, n - 1, c);
      StepTracks(states, moments, n - 1, c);
    }
  }

  lemma FollowKeepsPending(s: State, m: Moment, t: State, c: Config)
    requires DetectionInv(s, c) && Follow(s, m, t, c)
    ensures Schedules(s, m.input, c) ==> |t.retryTimers| == |s.retryTimers| + 1
    ensures !Clears(s, m.input, c) && |s.retryTimers| > 0 ==> |t.retryTimers| > 0
  {
    RetryTimersChangeExactly(s, m.input, m.now, c);
  }

  lemma StepKeepsPending(states: seq<State>, moments: seq<Moment>, n: nat, c: Config)
    requires IsRun(states, moments, c) && n < |moments|
    ensures SchedulesAt(states, moments, n, c) ==> |states[n + 1].retryTimers| == |states[n].retryTimers| + 1
    ensures !ClearsAt(states, moments, n, c) && |states[n].retryTimers| > 0 ==> |states[n + 1].retryTimers| > 0
  {
    RunKeepsDetection(states, moments, n, c);
    FollowKeepsPending(states[n], moments[n], states[n + 1], c);
  }

  lemma {:induction false} StaysPositive(sizes: seq<nat>, j: nat, n: nat)
    requires j < n < |sizes| && sizes[j + 1] > 0
    requires forall k :: j < k < n && sizes[k] > 0 ==> sizes[k + 1] > 0
    ensures sizes[n] > 0
    decreases n
  {
    if n > j + 1 {
      StaysPositive(sizes, j, n - 1);
    }
  }

  /** Uncleared, a scheduled retry keeps its timer. */
  lemma WaitingIsPending(states: seq<State>, moments: seq<Moment>, j: nat, n: nat, c: Config)
    requires IsRun(states, moments, c) && j < n < |states|
    requires SchedulesAt(states, moments, j, c) && !ClearedBetween(states, moments, j, n, c)
    ensures |states[n].retryTimers| > 0
  {
    var sizes := seq(|states|, k requires 0 <= k < |states| => |states[k].retryTimers|);
    StepKeepsPending(states, moments, j, c);
    forall k | j < k < n && sizes[k] > 0 ensures sizes[k + 1] > 0 {
      assert !ClearsAt(states, moments, k, c);
      StepKeepsPending(states, moments, k, c);
    }
    StaysPositive(sizes, j, n);
  }

  /**
   In a run there is never more than one retry timer if and only if between any two inputs that schedule a
   retry there is one that clears it: the retry fires, SSE is connected, or the provider is closed.
   */
  lemma OneRetryTimerExactly(states: seq<State>, moments: seq<Moment>, c: Config)
    requires IsRun(states, moments, c)
    ensures (forall n: nat :: n < |states| ==> |states[n].retryTimers| <= 1) <==>
              (forall j: nat, k: nat ::
                 j < k && SchedulesAt(states, moments, j, c) && SchedulesAt(states, moments, k, c)
                 ==> ClearedBetween(states, moments, j, k, c))
  {
    if forall k: nat :: SchedulesAt(states, moments, k, c) ==> !Waiting(states, moments, k, c) {
      forall n: nat | n < |states| ensures |states[n].retryTimers| <= 1 {
        TrackedSoFar(states, moments, n, c);
        TrackedIsOne(states[n]);
      }
    } else {
      var k: nat :| SchedulesAt(states, moments, k, c) && Waiting(states, moments, k, c);
      var j: nat :| j < k && SchedulesAt(states, moments, j, c) && !ClearedBetween(states, moments, j, k, c);
      WaitingIsPending(states, moments, j, k, c);
      StepKeepsPending(states, moments, k, c);
      assert |states[k + 1].retryTimers| > 1;
    }
  }

  // ----- one refresh at a time -----

  predicate IsRefresh(t: Task) {
    (t.Fetching? || t.Storing?) && t.caller == Refresh
  }

  /** The suspended refreshes. */
  function Refreshing(tasks: seq<Task>): nat {
    if tasks == [] then 0
    else Refreshing(tasks[..|tasks| - 1]) + if IsRefresh(tasks[|tasks| - 1]) then 1 else 0
  }

  lemma RefreshingAppend(tasks: seq<Task>, t: Task)
    ensures Refreshing(tasks + [t]) == Refreshing(tasks) + if IsRefresh(t) then 1 else 0
  {
    assert (tasks + [t])[..|tasks|] == tasks;
  }

  lemma {:induction false} RefreshingWithout(tasks: seq<Task>, k: nat)
    requires k < |tasks|
    ensures Refreshing(Without(tasks, k)) + (if IsRefresh(tasks[k]) then 1 else 0) == Refreshing(tasks)
  {
    var front, last := tasks[..|tasks| - 1], tasks[|tasks| - 1];
    if k == |front| {
      assert Without(tasks, k) == front;
    } else {
      assert Without(tasks, k) == Without(front, k) + [last];
      RefreshingAppend(Without(front, k), last);
      RefreshingWithout(front, k);
    }
  }

  lemma {:induction false} RefreshingSame(tasks: seq<Task>, k: nat, t: Task)
    requires k < |tasks| && IsRefresh(t) == IsRefresh(tasks[k])
    ensures Refreshing(tasks[k := t]) == Refreshing(tasks)
  {
    var front, last := tasks[..|tasks| - 1], tasks[|tasks| - 1];
    if k == |front| {
      assert tasks[k := t][..|front|] == front;
    } else {
      assert tasks[k := t][..|front|] == front[k := t];
      RefreshingSame(front, k, t);
    }
  }

  ghost predicate OneRefresh(s: State) {
    Refreshing(s.tasks) == if s.isFetching then 1 else 0
  }

  lemma ConnectKeepsTasks(s: State, streams: bool, c: Config)
    ensures var t := ConnectSseIfAvailable(s, streams, c); t.tasks == s.tasks && t.isFetching == s.isFetching
  {
    if CanKeepSse(s, streams, c) {
      TimersKeepTasks(s);
    }
  }

  lemma TimersKeepTasks(s: State)
    ensures var t := ClearSseRetry(StopPolling(s)); t.tasks == s.tasks && t.isFetching == s.isFetching
  {
  }

  lemma ErrorKeepsTasks(s: State, c: Config)
    ensures var t := HandleSseError(s, c); t.tasks == s.tasks && t.isFetching == s.isFetching
  {
  }

  lemma ResumeLeavesRefreshes(s: State, caller: Caller, changed: bool, streams: bool, c: Config)
    ensures var t := Resume(s, caller, changed, streams, c);
            t.tasks == s.tasks && t.isFetching == (s.isFetching && caller != Refresh)
  {
    ConnectKeepsTasks(s, streams, c);
  }

  lemma FailLeavesRefreshes(s: State, caller: Caller, c: Config)
    ensures var t := Fail(s, caller, c); t.tasks == s.tasks && t.isFetching == (s.isFetching && caller != Refresh)
  {
    ErrorKeepsTasks(s, c);
  }

  lemma ReceiveKeepsRefreshes(s: State, task: Task, r: Response, c: Config)
    requires task.Fetching?
    requires Refreshing(s.tasks) + (if IsRefresh(task) then 1 else 0) == if s.isFetching then 1 else 0
    ensures OneRefresh(Receive(s, task, r, c))
  {
    match r
    case NotModified => ResumeLeavesRefreshes(s, task.caller, false, s.eventStreams, c);
    case Success(streams) => SuccessKeepsRefreshes(s, task, streams, c);
    case Failure(retryAfter) =>
      FailLeavesRefreshes(if retryAfter.Some? then s.(retryPollingAfter := retryAfter) else s, task.caller, c);
  }

  lemma SuccessKeepsRefreshes(s: State, task: Task, streams: bool, c: Config)
    requires task.Fetching?
    requires Refreshing(s.tasks) + (if IsRefresh(task) then 1 else 0) == if s.isFetching then 1 else 0
    ensures OneRefresh(Receive(s, task, Success(streams), c))
  {
    ResumeLeavesRefreshes(s, task.caller, false, false, c);
    RefreshingAppend(s.tasks, Storing(task.caller, streams));
  }

  lemma FetchKeepsRefreshes(s: State, caller: Caller, context: Context)
    ensures Refreshing(Fetch(s, caller, context).tasks) == Refreshing(s.tasks) + if caller == Refresh then 1 else 0
  {
    RefreshingAppend(s.tasks, Fetching(caller, context, s.contextRevision, false));
  }

  lemma OtherFetch(s: State, caller: Caller, context: Context)
    requires OneRefresh(s) && caller != Refresh
    ensures OneRefresh(Fetch(s, caller, context))
  {
    FetchKeepsRefreshes(s, caller, context);
  }

  lemma BackgroundKeepsRefreshes(s: State, now: int)
    requires OneRefresh(s)
    ensures OneRefresh(OfrepProtocol.RefreshFlagsInBackground(s, now))
  {
    if !RateLimited(s, now) {
      OtherFetch(s, Background, s.context);
    }
  }

  lemma LoadKeepsRefreshes(s: State, entry: Stored, now: int, c: Config)
    requires OneRefresh(s)
    ensures OneRefresh(Load(s, entry, now, c))
  {
    var t := s.(flagCache := entry.context, applied := None, eventStreams := entry.streams);
    ConnectKeepsTasks(t, true, c);
    BackgroundKeepsRefreshes(if entry.streams then ConnectSseIfAvailable(t, true, c) else t, now);
  }

  lemma ReadKeepsRefreshes(s: State, context: Context, stored: Option<Stored>, now: int, c: Config)
    requires OneRefresh(s)
    ensures OneRefresh(ReadDone(s, context, stored, now, c))
  {
    match stored
    case None => OtherFetch(s, ContextChange, context);
    case Some(entry) => LoadKeepsRefreshes(s, entry, now, c);
  }

  lemma ChangeKeepsRefreshes(s: State, context: Context, now: int, c: Config)
    requires OneRefresh(s)
    ensures OneRefresh(ChangeContext(s, context, now, c))
  {
    var t := s.(contextRevision := s.contextRevision + 1, context := context, installed := s.installed + [context]);
    if !RateLimited(t, now) {
      if c.cacheMode == LocalCacheFirst {
        RefreshingAppend(t.tasks, Reading(context));
      } else {
        OtherFetch(t, ContextChange, context);
      }
    }
  }

  lemma StepKeepsOneRefresh(s: State, i: Input, now: int, c: Config)
    requires OneRefresh(s) && Enabled(s, i)
    ensures OneRefresh(Step(s, i, now, c))
  {
    match i
    case Change(context) => ChangeKeepsRefreshes(s, context, now, c);
    case Tick => RefreshKeepsRefreshes(s, now);
    case Visible => RefreshKeepsRefreshes(s, now);
    case SseMessage => OtherFetch(s, SseRefetch, s.context);
    case SseFailure => ErrorKeepsTasks(s, c);
    case RetryDue(t) =>
      OtherFetch(s.(retryTimers := s.retryTimers - {t}, sseRetryTimerId := None), SseRetry, s.context);
    case HeadersArrived(k) => RefreshingSame(s.tasks, k, s.tasks[k].(received := true));
    case Closed =>
    case _ => AnswerKeepsRefreshes(s, i, now, c);
  }

  lemma AnswerKeepsRefreshes(s: State, i: Input, now: int, c: Config)
    requires OneRefresh(s) && Enabled(s, i) && (i.Responded? || i.Persisted? || i.CacheRead?)
    ensures OneRefresh(Step(s, i, now, c))
  {
    RefreshingWithout(s.tasks, i.task);
    var u, task := s.(tasks := Without(s.tasks, i.task)), s.tasks[i.task];
    match i
    case Responded(_, r) => ReceiveKeepsRefreshes(u, task, r, c);
    case Persisted(_) => ResumeLeavesRefreshes(u, task.caller, true, task.streams, c);
    case CacheRead(_, stored) => ReadKeepsRefreshes(u, task.context, stored, now, c);
  }

  lemma RefreshKeepsRefreshes(s: State, now: int)
    requires OneRefresh(s)
    ensures OneRefresh(RefreshFlags(s, now))
  {
    FetchKeepsRefreshes(s.(isFetching := true), Refresh, s.context);
  }

  lemma FollowKeepsOneRefresh(s: State, m: Moment, t: State, c: Config)
    requires OneRefresh(s) && Follow(s, m, t, c)
    ensures OneRefresh(t)
  {
    StepKeepsOneRefresh(s, m.input, m.now, c);
  }

  /** Over every run exactly one refresh is suspended while the provider says it is fetching, and none otherwise. */
  lemma {:induction false} RefreshesNeverOverlap(states: seq<State>, moments: seq<Moment>, n: nat, c: Config)
    requires IsRun(states, moments, c) && n < |states|
    ensures Refreshing(states[n].tasks) == if states[n].isFetching then 1 else 0
  {
    if n == 0 {
    } else {
      RefreshesNeverOverlap(states, moments, n - 1, c);
      FollowKeepsOneRefresh(states[n - 1], moments[n - 1], states[n], c);
    }
  }
}
