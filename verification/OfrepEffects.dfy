/**
 What each input does to the OFREP web provider, in terms of its fields: which requests are made, which flags are
 held, and which kind of change detection is on. Over runs: when requests are held back, and how long retries wait.
 */
module OfrepEffects {
  import opened OfrepClose
  import opened OfrepDetection
  import opened OfrepProtocol

  // ----- requests -----

  /** The server has asked to wait until later than `now`. */
  predicate Held(retryPollingAfter: Option<int>, now: int) {
    retryPollingAfter.Some? && retryPollingAfter.value > now
  }

  /** A poll, or a page becoming visible, asks for the flags of the present context. */
  lemma RefreshRequestsExactly(s: State, i: Input, now: int, c: Config)
    requires i.Tick? || i.Visible?
    requires Enabled(s, i)
    ensures Step(s, i, now, c)
            == if s.isFetching || Held(s.retryPollingAfter, now) then s
               else s.(isFetching := true, tasks := s.tasks + [Fetching(Refresh, s.context, s.contextRevision, false)])
  {
  }

  /** What a step adds to the suspended calls. */
  function Added(s: State, i: Input, now: int, c: Config): seq<Task>
    requires Enabled(s, i)
  {
    match i
    case Change(context) =>
      if Held(s.retryPollingAfter, now) then []
      else if c.cacheMode == LocalCacheFirst then [Reading(context)]
      else [Fetching(ContextChange, context, s.contextRevision + 1, false)]
    case Tick =>
      if s.isFetching || Held(s.retryPollingAfter, now) then []
      else [Fetching(Refresh, s.context, s.contextRevision, false)]
    case Visible =>
      if s.isFetching || Held(s.retryPollingAfter, now) then []
      else [Fetching(Refresh, s.context, s.contextRevision, false)]
    case SseMessage => [Fetching(SseRefetch, s.context, s.contextRevision, false)]
    case RetryDue(_) => [Fetching(SseRetry, s.context, s.contextRevision, false)]
    case CacheRead(k, None) => [Fetching(ContextChange, s.tasks[k].context, s.contextRevision, false)]
    case CacheRead(_, Some(_)) =>
      if Held(s.retryPollingAfter, now) then [] else [Fetching(Background, s.context, s.contextRevision, false)]
    case Responded(k, Success(streams)) =>
      if s.tasks[k].generation == s.contextRevision then [Storing(s.tasks[k].caller, streams)] else []
    case _ => []
  }

  /** The suspended calls that a step leaves. */
  function Remaining(s: State, i: Input): seq<Task>
    requires Enabled(s, i)
  {
    match i
    case HeadersArrived(k) => s.tasks[k := s.tasks[k].(received := true)]
    case Responded(k, _) => s.tasks[..k] + s.tasks[k + 1..]
    case Persisted(k) => s.tasks[..k] + s.tasks[k + 1..]
    case CacheRead(k, _) => s.tasks[..k] + s.tasks[k + 1..]
    case _ => s.tasks
  }

  lemma AnswerTasks(s: State, k: nat, r: Response, now: int, c: Config)
    requires Enabled(s, Responded(k, r))
    ensures Step(s, Responded(k, r), now, c).tasks == Remaining(s, Responded(k, r)) + Added(s, Responded(k, r), now, c)
  {
    var task, u := s.tasks[k], s.(tasks := Without(s.tasks, k));
    assert u.tasks + [] == u.tasks;
    match r
    case NotModified => ResumeLeavesRefreshes(u, task.caller, false, s.eventStreams, c);
    case Success(_) => ResumeLeavesRefreshes(u, task.caller, false, false, c);
    case Failure(retryAfter) =>
      FailLeavesRefreshes(if retryAfter.Some? then u.(retryPollingAfter := retryAfter) else u, task.caller, c);
  }

  lemma ReadTasks(s: State, k: nat, stored: Option<Stored>, now: int, c: Config)
    requires Enabled(s, CacheRead(k, stored))
    ensures Step(s, CacheRead(k, stored), now, c).tasks
            == Remaining(s, CacheRead(k, stored)) + Added(s, CacheRead(k, stored), now, c)
  {
    var u := s.(tasks := Without(s.tasks, k));
    assert u.tasks + [] == u.tasks;
    if stored.Some? {
      var entry := stored.value;
      ConnectKeepsFlags(u.(flagCache := entry.context, applied := None, eventStreams := entry.streams), true, c);
      LoadKeepsLimit(u, entry, now, c);
    }
  }

  lemma LoadKeepsLimit(s: State, entry: Stored, now: int, c: Config)
    ensures Load(s, entry, now, c).tasks
            == if Held(s.retryPollingAfter, now) then s.tasks
               else s.tasks + [Fetching(Background, s.context, s.contextRevision, false)]
  {
    var t := s.(flagCache := entry.context, applied := None, eventStreams := entry.streams);
    ConnectKeepsFlags(t, true, c);
  }

  lemma PersistedTasks(s: State, k: nat, now: int, c: Config)
    requires Enabled(s, Persisted(k))
    ensures Step(s, Persisted(k), now, c).tasks == s.tasks[..k] + s.tasks[k + 1..]
  {
    ResumeLeavesRefreshes(s.(tasks := Without(s.tasks, k)), s.tasks[k].caller, true, s.tasks[k].streams, c);
  }

  /** Exactly these requests, reads and stores are started and ended by a step. */
  lemma RequestsExactly(s: State, i: Input, now: int, c: Config)
    requires Enabled(s, i)
    ensures Step(s, i, now, c).tasks == Remaining(s, i) + Added(s, i, now, c)
  {
    assert s.tasks + [] == s.tasks;
    match i
    case Responded(k, r) => AnswerTasks(s, k, r, now, c);
    case CacheRead(k, stored) => ReadTasks(s, k, stored, now, c);
    case Persisted(k) =>
      PersistedTasks(s, k, now, c);
      assert Remaining(s, i) + [] == Remaining(s, i);
    case SseFailure => ErrorKeepsTasks(s, c);
    case HeadersArrived(k) => assert Remaining(s, i) + [] == Remaining(s, i);
    case _ => OtherTasks(s, i, now, c);
  }

  lemma OtherTasks(s: State, i: Input, now: int, c: Config)
    requires Enabled(s, i)
    requires i.Change? || i.Tick? || i.Visible? || i.SseMessage? || i.RetryDue? || i.Closed?
    ensures Step(s, i, now, c).tasks == s.tasks + Added(s, i, now, c)
  {
    assert s.tasks + [] == s.tasks;
  }

  // ----- flags -----

  /** A 200 for the present revision. */
  predicate Applies(s: State, i: Input)
    requires i.Responded? ==> i.task < |s.tasks| && s.tasks[i.task].Fetching?
  {
    i.Responded? && i.response.Success? && s.tasks[i.task].generation == s.contextRevision
  }

  /** The call that a step resumes has ended; a call whose response is applied goes on to the store. */
  predicate Ends(s: State, i: Input)
    requires i.Responded? ==> i.task < |s.tasks| && s.tasks[i.task].Fetching?
  {
    i.Persisted? || (i.Responded? && !Applies(s, i))
  }

  /** The fields that say which flags there are and when the next request may be made. */
  datatype Flags = Flags(
    context: Context, contextRevision: nat, installed: seq<Context>, flagCache: Context, applied: Option<nat>,
    eventStreams: bool, retryPollingAfter: Option<int>, isFetching: bool, closed: bool)

  function FlagsOf(s: State): Flags {
    Flags(s.context, s.contextRevision, s.installed, s.flagCache, s.applied,
          s.eventStreams, s.retryPollingAfter, s.isFetching, s.closed)
  }

  lemma RefreshFlagsExactly(s: State, now: int)
    ensures FlagsOf(RefreshFlags(s, now)) == FlagsOf(s).(isFetching := s.isFetching || !Held(s.retryPollingAfter, now))
  {
  }

  lemma AnswerFlags(s: State, k: nat, r: Response, now: int, c: Config)
    requires Enabled(s, Responded(k, r))
    ensures var task, f := s.tasks[k], FlagsOf(Step(s, Responded(k, r), now, c));
            var fetching := s.isFetching && (task.caller != Refresh || Applies(s, Responded(k, r)));
            f == match r
            case NotModified => FlagsOf(s).(isFetching := fetching)
            case Success(streams) =>
              if task.generation == s.contextRevision then
                FlagsOf(s).(flagCache := task.context, applied := Some(task.generation), eventStreams := streams)
              else FlagsOf(s).(isFetching := fetching)
            case Failure(after) =>
              FlagsOf(s).(isFetching := fetching,
                          retryPollingAfter := if after.Some? then after else s.retryPollingAfter)
  {
    var task, u := s.tasks[k], s.(tasks := Without(s.tasks, k));
    match r
    case NotModified => ResumeFlags(u, task.caller, false, s.eventStreams, c);
    case Success(_) => ResumeFlags(u, task.caller, false, false, c);
    case Failure(retryAfter) =>
      FailFlags(if retryAfter.Some? then u.(retryPollingAfter := retryAfter) else u, task.caller, c);
  }

  lemma StopFlags(s: State)
    ensures FlagsOf(StopPolling(s)) == FlagsOf(s) && FlagsOf(ClearSseRetry(s)) == FlagsOf(s)
  {
  }

  lemma ConnectFlags(s: State, streams: bool, c: Config)
    ensures FlagsOf(ConnectSseIfAvailable(s, streams, c)) == FlagsOf(s)
  {
    StopFlags(s);
    StopFlags(StopPolling(s));
  }

  lemma ResumeFlags(s: State, caller: Caller, changed: bool, streams: bool, c: Config)
    ensures FlagsOf(Resume(s, caller, changed, streams, c))
            == FlagsOf(s).(isFetching := s.isFetching && caller != Refresh)
  {
    ConnectFlags(s, streams, c);
  }

  lemma ErrorFlags(s: State, c: Config)
    ensures FlagsOf(HandleSseError(s, c)) == FlagsOf(s)
  {
  }

  lemma FailFlags(s: State, caller: Caller, c: Config)
    ensures FlagsOf(Fail(s, caller, c)) == FlagsOf(s).(isFetching := s.isFetching && caller != Refresh)
  {
    ErrorFlags(s, c);
  }

  lemma ReadFlags(s: State, k: nat, stored: Option<Stored>, now: int, c: Config)
    requires Enabled(s, CacheRead(k, stored))
    ensures FlagsOf(Step(s, CacheRead(k, stored), now, c)) == match stored
            case None => FlagsOf(s)
            case Some(entry) =>
              FlagsOf(s).(flagCache := entry.context, applied := None, eventStreams := entry.streams)
  {
    var u := s.(tasks := Without(s.tasks, k));
    if stored.Some? {
      var entry := stored.value;
      ConnectFlags(u.(flagCache := entry.context, applied := None, eventStreams := entry.streams), true, c);
    }
  }

  /**
   A change installs its context under the next revision; only a 200 for the present revision and a stored entry
   replace the flags; only a failure with a time sets when to ask again; a refresh is under way from its request to
   its end; close shuts the API down.
   */
  lemma FlagsChangeExactly(s: State, i: Input, now: int, c: Config)
    requires Enabled(s, i)
    ensures var f := FlagsOf(Step(s, i, now, c));
            && (if i.Change? then
                  && f.context == i.context && f.contextRevision == s.contextRevision + 1
                  && f.installed == s.installed + [i.context]
                else f.context == s.context && f.contextRevision == s.contextRevision && f.installed == s.installed)
            && (if Applies(s, i) then
                  && f.flagCache == s.tasks[i.task].context && f.applied == Some(s.contextRevision)
                  && f.eventStreams == i.response.streams
                else if i.CacheRead? && i.stored.Some? then
                  && f.flagCache == i.stored.value.context && f.applied == None
                  && f.eventStreams == i.stored.value.streams
                else f.flagCache == s.flagCache && f.applied == s.applied && f.eventStreams == s.eventStreams)
    ensures Step(s, i, now, c).retryPollingAfter
            == if i.Responded? && i.response.Failure? && i.response.retryAfter.Some? then i.response.retryAfter
               else s.retryPollingAfter
    ensures Step(s, i, now, c).isFetching
            == if i.Tick? || i.Visible? then s.isFetching || !Held(s.retryPollingAfter, now)
               else s.isFetching && !(Ends(s, i) && s.tasks[i.task].caller == Refresh)
    ensures Step(s, i, now, c).closed == (s.closed || i.Closed?)
  {
    match i
    case Tick => RefreshFlagsExactly(s, now);
    case Visible => RefreshFlagsExactly(s, now);
    case Responded(k, r) => AnswerFlags(s, k, r, now, c);
    case Persisted(k) =>
      ResumeFlags(s.(tasks := Without(s.tasks, k)), s.tasks[k].caller, true, s.tasks[k].streams, c);
    case CacheRead(k, stored) => ReadFlags(s, k, stored, now, c);
    case SseFailure => ErrorFlags(s, c);
    case Change(context) => ChangeFlags(s, context, now, c);
    case Closed => CloseFlags(s);
    case _ => OtherFlags(s, i, now, c);
  }

  lemma ChangeFlags(s: State, context: Context, now: int, c: Config)
    ensures FlagsOf(ChangeContext(s, context, now, c))
            == FlagsOf(s).(context := context, contextRevision := s.contextRevision + 1,
                           installed := s.installed + [context])
  {
  }

  lemma CloseFlags(s: State)
    ensures FlagsOf(Close(s)) == FlagsOf(s).(closed := true)
  {
    StopFlags(s);
    StopFlags(StopPolling(s));
  }

  lemma OtherFlags(s: State, i: Input, now: int, c: Config)
    requires Enabled(s, i) && (i.SseMessage? || i.RetryDue? || i.HeadersArrived?)
    ensures FlagsOf(Step(s, i, now, c)) == FlagsOf(s)
  {
  }

  // ----- change detection -----

  /** The manager and the polling timer. */
  datatype Detection = Detection(sseManager: bool, intervals: set<nat>)

  function DetectionOf(s: State): Detection {
    Detection(s.sseManager, s.intervals)
  }

  /** What connecting to streams, or to none, makes of it. */
  function Connected(s: State, streams: bool, c: Config): Detection {
    if streams && c.changeDetection == Sse then
      if s.sseManager || c.hasEventSource then Detection(true, {}) else Detection(false, s.intervals)
    else Detection(false, s.intervals)
  }

  /** A context change goes on to polling if it can and is left without a manager. */
  function Polled(d: Detection, nextId: nat, c: Config): Detection {
    if !d.sseManager && c.pollInterval > 0 && c.changeDetection != NoDetection && d.intervals == {} then
      Detection(false, {nextId})
    else d
  }

  /** What becomes of it when the streams of a result are given to the caller. */
  function Given(s: State, caller: Caller, changed: bool, streams: bool, c: Config): Detection {
    match caller
    case ContextChange => Polled(Connected(s, streams, c), s.nextId, c)
    case SseRetry => Connected(s, streams, c)
    case Background => if changed then Connected(s, streams, c) else DetectionOf(s)
    case _ => DetectionOf(s)
  }

  /** Polling takes over from a manager that failed, if it is enabled. */
  function FellBack(s: State, c: Config): Detection {
    if s.sseManager && c.pollInterval > 0 then Detection(false, {s.nextId}) else DetectionOf(s)
  }

  lemma ConnectDetects(s: State, streams: bool, c: Config)
    requires DetectionInv(s, c)
    ensures DetectionOf(ConnectSseIfAvailable(s, streams, c)) == Connected(s, streams, c)
    ensures ConnectSseIfAvailable(s, streams, c).nextId == s.nextId
  {
  }

  lemma ResumeDetects(s: State, caller: Caller, changed: bool, streams: bool, c: Config)
    requires DetectionInv(s, c)
    ensures DetectionOf(Resume(s, caller, changed, streams, c)) == Given(s, caller, changed, streams, c)
  {
    ConnectDetects(s, streams, c);
    ConnectKeepsDetection(s, streams, c);
  }

  lemma ErrorDetects(s: State, c: Config)
    requires DetectionInv(s, c)
    ensures DetectionOf(HandleSseError(s, c)) == FellBack(s, c)
  {
  }

  lemma AnswerDetects(s: State, k: nat, r: Response, now: int, c: Config)
    requires DetectionInv(s, c) && Enabled(s, Responded(k, r))
    ensures var d, caller := DetectionOf(Step(s, Responded(k, r), now, c)), s.tasks[k].caller;
            d == match r
            case NotModified => Given(s, caller, false, s.eventStreams, c)
            case Success(_) =>
              if s.tasks[k].generation == s.contextRevision then DetectionOf(s) else Given(s, caller, false, false, c)
            case Failure(_) => if caller == SseRetry then FellBack(s, c) else DetectionOf(s)
  {
    var caller, u := s.tasks[k].caller, s.(tasks := Without(s.tasks, k));
    SameDetectionKeepsInv(s, u, c);
    match r
    case NotModified => ResumeDetects(u, caller, false, s.eventStreams, c);
    case Success(_) => ResumeDetects(u, caller, false, false, c);
    case Failure(retryAfter) =>
      var v := if retryAfter.Some? then u.(retryPollingAfter := retryAfter) else u;
      SameDetectionKeepsInv(u, v, c);
      ErrorDetects(v, c);
  }

  lemma ReadDetects(s: State, k: nat, stored: Option<Stored>, now: int, c: Config)
    requires DetectionInv(s, c) && Enabled(s, CacheRead(k, stored))
    ensures DetectionOf(Step(s, CacheRead(k, stored), now, c))
            == if stored.Some? && stored.value.streams then Connected(s, true, c) else DetectionOf(s)
  {
    if stored.Some? {
      var u := s.(tasks := Without(s.tasks, k), flagCache := stored.value.context, applied := None,
                  eventStreams := stored.value.streams);
      SameDetectionKeepsInv(s, u, c);
      ConnectDetects(u, true, c);
    }
  }

  lemma PersistedDetects(s: State, k: nat, now: int, c: Config)
    requires DetectionInv(s, c) && Enabled(s, Persisted(k))
    ensures DetectionOf(Step(s, Persisted(k), now, c)) == Given(s, s.tasks[k].caller, true, s.tasks[k].streams, c)
  {
    var u := s.(tasks := Without(s.tasks, k));
    SameDetectionKeepsInv(s, u, c);
    ResumeDetects(u, s.tasks[k].caller, true, s.tasks[k].streams, c);
  }

  /**
   Which change detection a step leaves on: streams that are given to a caller connect or disconnect SSE, a context
   change left without it starts polling, a failure falls back to polling, and close ends both.
   */
  lemma DetectionChangesExactly(s: State, i: Input, now: int, c: Config)
    requires DetectionInv(s, c) && Enabled(s, i)
    ensures var d := DetectionOf(Step(s, i, now, c));
            d == match i
            case Responded(k, NotModified) => Given(s, s.tasks[k].caller, false, s.eventStreams, c)
            case Responded(k, Success(_)) =>
              if s.tasks[k].generation == s.contextRevision then DetectionOf(s)
              else Given(s, s.tasks[k].caller, false, false, c)
            case Responded(k, Failure(_)) => if s.tasks[k].caller == SseRetry then FellBack(s, c) else DetectionOf(s)
            case Persisted(k) => Given(s, s.tasks[k].caller, true, s.tasks[k].streams, c)
            case CacheRead(_, stored) =>
              if stored.Some? && stored.value.streams then Connected(s, true, c) else DetectionOf(s)
            case SseFailure => FellBack(s, c)
            case Closed => Detection(false, {})
            case _ => DetectionOf(s)
  {
    match i
    case Responded(k, r) => AnswerDetects(s, k, r, now, c);
    case Persisted(k) => PersistedDetects(s, k, now, c);
    case CacheRead(k, stored) => ReadDetects(s, k, stored, now, c);
    case SseFailure => ErrorDetects(s, c);
    case _ => OthersDetect(s, i, now, c);
  }

  lemma OthersDetect(s: State, i: Input, now: int, c: Config)
    requires DetectionInv(s, c) && Enabled(s, i)
    requires !i.Responded? && !i.Persisted? && !i.CacheRead? && !i.SseFailure?
    ensures DetectionOf(Step(s, i, now, c)) == if i.Closed? then Detection(false, {}) else DetectionOf(s)
  {
  }

  // ----- how long a retry waits -----

  ghost predicate ConnectsAt(states: seq<State>, moments: seq<Moment>, k: nat, c: Config) {
    k < |moments| && k < |states| && Enabled(states[k], moments[k].input) && Connects(states[k], moments[k].input, c)
  }

  ghost predicate ConnectedBetween(states: seq<State>, moments: seq<Moment>, j: nat, k: nat, c: Config) {
    exists l: nat :: j < l < k && ConnectsAt(states, moments, l, c)
  }

  lemma ConnectCounts(s: State, streams: bool, c: Config)
    ensures ConnectSseIfAvailable(s, streams, c).sseRetryCount
            == if CanKeepSse(s, streams, c) then 0 else s.sseRetryCount
  {
  }

  lemma ResumeCounts(s: State, caller: Caller, changed: bool, streams: bool, c: Config)
    ensures Resume(s, caller, changed, streams, c).sseRetryCount
            == if (Adjusts(caller) || (caller == Background && changed)) && CanKeepSse(s, streams, c) then 0
               else s.sseRetryCount
  {
    ConnectCounts(s, streams, c);
  }

  lemma ErrorCounts(s: State, c: Config)
    requires DetectionInv(s, c)
    ensures HandleSseError(s, c).sseRetryCount
            == if s.sseManager && c.pollInterval <= 0 && c.changeDetection != NoDetection then s.sseRetryCount + 1
               else s.sseRetryCount
  {
  }

  lemma AnswerCounts(s: State, k: nat, r: Response, now: int, c: Config)
    requires DetectionInv(s, c) && Enabled(s, Responded(k, r))
    ensures Step(s, Responded(k, r), now, c).sseRetryCount
            == if Connects(s, Responded(k, r), c) then 0
               else s.sseRetryCount + if Schedules(s, Responded(k, r), c) then 1 else 0
  {
    var caller, u := s.tasks[k].caller, s.(tasks := Without(s.tasks, k));
    SameDetectionKeepsInv(s, u, c);
    match r
    case NotModified => ResumeCounts(u, caller, false, s.eventStreams, c);
    case Success(_) => ResumeCounts(u, caller, false, false, c);
    case Failure(retryAfter) =>
      var v := if retryAfter.Some? then u.(retryPollingAfter := retryAfter) else u;
      SameDetectionKeepsInv(u, v, c);
      ErrorCounts(v, c);
  }

  lemma ReadCounts(s: State, k: nat, stored: Option<Stored>, now: int, c: Config)
    requires Enabled(s, CacheRead(k, stored))
    ensures Step(s, CacheRead(k, stored), now, c).sseRetryCount
            == if Connects(s, CacheRead(k, stored), c) then 0 else s.sseRetryCount
  {
    if stored.Some? {
      var u := s.(tasks := Without(s.tasks, k), flagCache := stored.value.context, applied := None,
                  eventStreams := stored.value.streams);
      ConnectCounts(u, true, c);
    }
  }

  lemma PersistedCounts(s: State, k: nat, now: int, c: Config)
    requires Enabled(s, Persisted(k))
    ensures Step(s, Persisted(k), now, c).sseRetryCount == if Connects(s, Persisted(k), c) then 0 else s.sseRetryCount
  {
    ResumeCounts(s.(tasks := Without(s.tasks, k)), s.tasks[k].caller, true, s.tasks[k].streams, c);
  }

  lemma OthersCountNothing(s: State, i: Input, now: int, c: Config)
    requires Enabled(s, i) && !i.Responded? && !i.Persisted? && !i.CacheRead? && !i.SseFailure?
    ensures Step(s, i, now, c).sseRetryCount == s.sseRetryCount
  {
  }

  lemma CountChangesExactly(s: State, i: Input, now: int, c: Config)
    requires DetectionInv(s, c) && Enabled(s, i)
    ensures Step(s, i, now, c).sseRetryCount
            == if Connects(s, i, c) then 0 else s.sseRetryCount + if Schedules(s, i, c) then 1 else 0
  {
    match i
    case Responded(k, r) => AnswerCounts(s, k, r, now, c);
    case Persisted(k) => PersistedCounts(s, k, now, c);
    case CacheRead(k, stored) => ReadCounts(s, k, stored, now, c);
    case SseFailure => ErrorCounts(s, c);
    case _ => OthersCountNothing(s, i, now, c);
  }

  lemma FollowCounts(s: State, m: Moment, t: State, c: Config)
    requires DetectionInv(s, c) && Follow(s, m, t, c)
    ensures t.sseRetryCount
            == if Connects(s, m.input, c) then 0 else s.sseRetryCount + if Schedules(s, m.input, c) then 1 else 0
  {
    CountChangesExactly(s, m.input, m.now, c);
  }

  lemma StepCounts(states: seq<State>, moments: seq<Moment>, n: nat, c: Config)
    requires IsRun(states, moments, c) && n < |moments|
    ensures states[n + 1].sseRetryCount
            == if ConnectsAt(states, moments, n, c) then 0
               else states[n].sseRetryCount + if SchedulesAt(states, moments, n, c) then 1 else 0
  {
    RunKeepsDetection(states, moments, n, c);
    FollowCounts(states[n], moments[n], states[n + 1], c);
  }

  /** The retry scheduled at step `n`: a new timer, and what it waits. */
  ghost predicate RetriesAfter(states: seq<State>, moments: seq<Moment>, n: nat, delay: int) {
    && n + 1 < |states| && states[n].nextId !in states[n].retryTimers
    && states[n + 1].retryTimers == states[n].retryTimers[states[n].nextId := delay]
  }

  lemma FollowRetries(s: State, m: Moment, t: State, c: Config)
    requires DetectionInv(s, c) && Follow(s, m, t, c) && Schedules(s, m.input, c)
    ensures s.nextId !in s.retryTimers && t.retryTimers == s.retryTimers[s.nextId := Delay(s.sseRetryCount)]
  {
    RetryTimersChangeExactly(s, m.input, m.now, c);
  }

  lemma RetryWaits(states: seq<State>, moments: seq<Moment>, n: nat, c: Config)
    requires IsRun(states, moments, c) && SchedulesAt(states, moments, n, c)
    ensures RetriesAfter(states, moments, n, Delay(states[n].sseRetryCount))
  {
    RunKeepsDetection(states, moments, n, c);
    FollowRetries(states[n], moments[n], states[n + 1], c);
  }

  /** A count that goes back to zero where SSE is connected and up by one where a retry is scheduled. */
  ghost predicate Counts(counts: seq<nat>, schedules: seq<bool>, connects: seq<bool>) {
    && |counts| == |schedules| + 1 == |connects| + 1
    && forall k :: 0 <= k < |schedules| ==>
         counts[k + 1] == if connects[k] then 0 else counts[k] + if schedules[k] then 1 else 0
  }

  lemma RunCounts(states: seq<State>, moments: seq<Moment>, c: Config)
    returns (counts: seq<nat>, schedules: seq<bool>, connects: seq<bool>)
    requires IsRun(states, moments, c)
    ensures Counts(counts, schedules, connects) && |counts| == |states| && counts[0] == 0
    ensures forall n :: 0 <= n < |states| ==> counts[n] == states[n].sseRetryCount
    ensures forall n: nat :: n < |moments| ==> schedules[n] == SchedulesAt(states, moments, n, c)
    ensures forall n: nat :: n < |moments| ==> connects[n] == ConnectsAt(states, moments, n, c)
  {
    counts := seq(|states|, n requires 0 <= n < |states| => states[n].sseRetryCount);
    schedules := seq(|moments|, n requires 0 <= n < |moments| => SchedulesAt(states, moments, n, c));
    connects := seq(|moments|, n requires 0 <= n < |moments| => ConnectsAt(states, moments, n, c));
    forall k | 0 <= k < |moments|
      ensures counts[k + 1] == if connects[k] then 0 else counts[k] + if schedules[k] then 1 else 0
    {
      StepCounts(states, moments, k, c);
    }
  }

  lemma {:induction false} CountsNothing(counts: seq<nat>, schedules: seq<bool>, connects: seq<bool>, n: nat)
    requires Counts(counts, schedules, connects) && n < |counts| && counts[0] == 0
    requires forall j :: 0 <= j < n && schedules[j] ==> exists l :: j < l < n && connects[l]
    ensures counts[n] == 0
  {
    if n == 0 {
    } else if connects[n - 1] {
    } else {
      assert !schedules[n - 1];
      CountsNothing(counts, schedules, connects, n - 1);
    }
  }

  lemma {:induction false} CountsOne(counts: seq<nat>, schedules: seq<bool>, connects: seq<bool>, j: nat, n: nat)
    requires Counts(counts, schedules, connects) && j < n < |counts| && schedules[j] && !connects[j]
    requires forall l :: j < l < n ==> !schedules[l] && !connects[l]
    ensures counts[n] == counts[j] + 1
    decreases n
  {
    if n > j + 1 {
      CountsOne(counts, schedules, connects, j, n - 1);
    }
  }

  lemma NoRetryYet(states: seq<State>, moments: seq<Moment>, n: nat, c: Config)
    requires IsRun(states, moments, c) && n < |states|
    requires forall j: nat :: j < n && SchedulesAt(states, moments, j, c) ==> ConnectedBetween(states, moments, j, n, c)
    ensures states[n].sseRetryCount == 0
  {
    var counts, schedules, connects := RunCounts(states, moments, c);
    forall j | 0 <= j < n && schedules[j] ensures exists l :: j < l < n && connects[l] {
      assert ConnectedBetween(states, moments, j, n, c);
      var l: nat :| j < l < n && ConnectsAt(states, moments, l, c);
      assert connects[l];
    }
    CountsNothing(counts, schedules, connects, n);
  }

  /** The first retry of a run, and the first after SSE was connected, waits one second. */
  lemma FirstRetryDelay(states: seq<State>, moments: seq<Moment>, n: nat, c: Config)
    requires IsRun(states, moments, c) && SchedulesAt(states, moments, n, c)
    requires forall j: nat :: j < n && SchedulesAt(states, moments, j, c) ==> ConnectedBetween(states, moments, j, n, c)
    ensures RetriesAfter(states, moments, n, 1000)
  {
    NoRetryYet(states, moments, n, c);
    RetryWaits(states, moments, n, c);
  }

  lemma CountStays(states: seq<State>, moments: seq<Moment>, j: nat, n: nat, c: Config)
    requires IsRun(states, moments, c) && j < n < |states|
    requires SchedulesAt(states, moments, j, c)
    requires forall l: nat :: j < l < n ==> !SchedulesAt(states, moments, l, c) && !ConnectsAt(states, moments, l, c)
    ensures states[n].sseRetryCount == states[j].sseRetryCount + 1
  {
    var counts, schedules, connects := RunCounts(states, moments, c);
    SchedulingDoesNotConnect(states, moments, j, c);
    CountsOne(counts, schedules, connects, j, n);
  }

  lemma SchedulingDoesNotConnect(states: seq<State>, moments: seq<Moment>, k: nat, c: Config)
    requires SchedulesAt(states, moments, k, c)
    ensures !ConnectsAt(states, moments, k, c)
  {
  }

  lemma DelayDoubles(n: nat)
    ensures Delay(n + 1) == if 2 * Delay(n) < 60000 then 2 * Delay(n) else 60000
  {
    assert Power(n + 1) == 2 * Power(n);
  }

  /** Every further one waits twice as long as the one before, up to a minute. */
  lemma NextRetryDelay(states: seq<State>, moments: seq<Moment>, j: nat, n: nat, delay: int, c: Config)
    requires IsRun(states, moments, c) && j < n
    requires SchedulesAt(states, moments, j, c) && SchedulesAt(states, moments, n, c)
    requires forall l: nat :: j < l < n ==> !SchedulesAt(states, moments, l, c) && !ConnectsAt(states, moments, l, c)
    requires RetriesAfter(states, moments, j, delay)
    ensures RetriesAfter(states, moments, n, if 2 * delay < 60000 then 2 * delay else 60000)
  {
    RetryWaits(states, moments, j, c);
    SameDelay(states, moments, j, delay, Delay(states[j].sseRetryCount));
    RetryWaits(states, moments, n, c);
    CountStays(states, moments, j, n, c);
    DelayDoubles(states[j].sseRetryCount);
  }

  lemma SameDelay(states: seq<State>, moments: seq<Moment>, n: nat, a: int, b: int)
    requires RetriesAfter(states, moments, n, a) && RetriesAfter(states, moments, n, b)
    ensures a == b
  {
    assert states[n + 1].retryTimers[states[n].nextId] == a;
    assert states[n + 1].retryTimers[states[n].nextId] == b;
  }

  // ----- when requests are held back -----

  /** The time that the last failure naming one has named. */
  function LastRetryAfter(first: Option<int>, moments: seq<Moment>, n: nat): Option<int>
    requires n <= |moments|
  {
    if n == 0 then first
    else
      var i := moments[n - 1].input;
      if i.Responded? && i.response.Failure? && i.response.retryAfter.Some? then i.response.retryAfter
      else LastRetryAfter(first, moments, n - 1)
  }

  lemma FollowLimits(s: State, m: Moment, t: State, c: Config)
    requires Follow(s, m, t, c)
    ensures t.retryPollingAfter
            == if m.input.Responded? && m.input.response.Failure? && m.input.response.retryAfter.Some?
               then m.input.response.retryAfter else s.retryPollingAfter
  {
    FlagsChangeExactly(s, m.input, m.now, c);
  }

  lemma {:induction false} LimitIsTheLast(states: seq<State>, moments: seq<Moment>, n: nat, c: Config)
    requires IsRun(states, moments, c) && n < |states|
    ensures states[n].retryPollingAfter == LastRetryAfter(states[0].retryPollingAfter, moments, n)
  {
    if n == 0 {
    } else {
      LimitIsTheLast(states, moments, n - 1, c);
      FollowLimits(states[n - 1], moments[n - 1], states[n], c);
    }
  }

  lemma FollowHolds(s: State, m: Moment, t: State, c: Config)
    requires Follow(s, m, t, c) && (m.input.Change? || m.input.Tick? || m.input.Visible?)
    ensures t.tasks == s.tasks <==>
              Held(s.retryPollingAfter, m.now) || (!m.input.Change? && s.isFetching)
  {
    RequestsExactly(s, m.input, m.now, c);
  }

  /**
   In every run a change, a poll or a page becoming visible starts nothing if and only if the last failure that
   named a time named a later one, or, for the latter two, a refresh is suspended.
   */
  lemma RequestsAreHeldExactly(states: seq<State>, moments: seq<Moment>, n: nat, c: Config)
    requires IsRun(states, moments, c) && n < |moments|
    requires var i := moments[n].input; i.Change? || i.Tick? || i.Visible?
    ensures var last := LastRetryAfter(states[0].retryPollingAfter, moments, n);
            states[n + 1].tasks == states[n].tasks <==>
              (last.Some? && last.value > moments[n].now)
              || (!moments[n].input.Change? && exists t <- states[n].tasks :: IsRefresh(t))
  {
    LimitIsTheLast(states, moments, n, c);
    FollowHolds(states[n], moments[n], states[n + 1], c);
    RefreshesNeverOverlap(states, moments, n, c);
    SomeRefreshing(states[n].tasks);
  }

  lemma {:induction false} SomeRefreshing(tasks: seq<Task>)
    ensures Refreshing(tasks) > 0 <==> exists t <- tasks :: IsRefresh(t)
  {
    if tasks == [] {
    } else {
      var front, last := tasks[..|tasks| - 1], tasks[|tasks| - 1];
      SomeRefreshing(front);
      assert tasks == front + [last];
      assert last in tasks;
    }
  }
}
