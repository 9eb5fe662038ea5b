/**
 The OFREP web provider between two yield points: context changes, polls, SSE refetches
 and retries start bulk evaluations, whose responses may come back in any order.
 */
module OfrepProtocol {

  type Context = int

  datatype Option<+T> = None | Some(value: T)

  datatype CacheMode = LocalCacheFirst | NetworkFirst | Disabled

  datatype ChangeDetection = Sse | Polling | NoDetection

  datatype Config = Config(
    cacheMode: CacheMode, changeDetection: ChangeDetection, pollInterval: int, hasEventSource: bool)

  /** Who awaits a bulk evaluation. */
  datatype Caller = ContextChange | Refresh | SseRefetch | SseRetry | Background

  /**
   A suspended call: reading the persisted cache, awaiting the response to a request made for
   `context` and `generation`, or awaiting the store after the response was applied. A request is
   `received` once its headers are there and only its body is still to be read.
   */
  datatype Task =
    | Reading(context: Context)
    | Fetching(caller: Caller, context: Context, generation: nat, received: bool)
    | Storing(caller: Caller, streams: bool)

  /**
   The fields of the provider. `flagCache` and `eventStreams` are reduced to the context the flags
   were evaluated for and to whether there are streams. `installed` lists the contexts of all
   revisions, `applied` is the revision of the response in the flag cache; `intervals` and
   `retryTimers` are the timers of the runtime; `closed` tells that the API has been shut down, which
   aborts every request whose headers have not arrived and refuses every later one.
   */
  datatype State = State(
    context: Context, contextRevision: nat, installed: seq<Context>,
    flagCache: Context, applied: Option<nat>, eventStreams: bool,
    retryPollingAfter: Option<int>, isFetching: bool,
    sseManager: bool, sseRetryCount: nat, sseRetryTimerId: Option<nat>, retryTimers: map<nat, int>,
    pollingIntervalId: Option<nat>, intervals: set<nat>, nextId: nat,
    closed: bool, tasks: seq<Task>)

  // ----- polling and SSE -----

  function StartPolling(s: State): State {
    s.(pollingIntervalId := Some(s.nextId), intervals := s.intervals + {s.nextId}, nextId := s.nextId + 1)
  }

  function StopPolling(s: State): State {
    if s.pollingIntervalId.None? then s
    else s.(intervals := s.intervals - {s.pollingIntervalId.value}, pollingIntervalId := None)
  }

  function ClearSseRetry(s: State): State {
    if s.sseRetryTimerId.None? then s
    else s.(retryTimers := s.retryTimers - {s.sseRetryTimerId.value}, sseRetryTimerId := None)
  }

  function ConnectSseIfAvailable(s: State, streams: bool, c: Config): State {
    if streams && c.changeDetection == Sse then
      if !s.sseManager && !c.hasEventSource then s
      else ClearSseRetry(StopPolling(s)).(sseManager := true, sseRetryCount := 0)
    else s.(sseManager := false)
  }

  function Power(n: nat): nat {
    if n == 0 then 1 else 2 * Power(n - 1)
  }

  /** `Math.min(1000 * 2^n, 60000)`. */
  function Delay(n: nat): int {
    if 1000 * Power(n) < 60000 then 1000 * Power(n) else 60000
  }

  function HandleSseError(s: State, c: Config): State {
    if !s.sseManager then s
    else if c.pollInterval > 0 && s.pollingIntervalId.None? then StartPolling(s.(sseManager := false))
    else if c.pollInterval <= 0 && c.changeDetection != NoDetection then
      s.(sseRetryCount := s.sseRetryCount + 1, sseRetryTimerId := Some(s.nextId),
         retryTimers := s.retryTimers[s.nextId := Delay(s.sseRetryCount)], nextId := s.nextId + 1)
    else s
  }

  // ----- bulk evaluations -----

  predicate RateLimited(s: State, now: int) {
    s.retryPollingAfter.Some? && s.retryPollingAfter.value > now
  }

  /** The generation is the revision at the time of the call. */
  function Fetch(s: State, caller: Caller, context: Context): State {
    s.(tasks := s.tasks + [Fetching(caller, context, s.contextRevision, false)])
  }

  /** What the awaiting caller does with a result that has, or has not, event streams. */
  function Resume(s: State, caller: Caller, changed: bool, streams: bool, c: Config): State {
    match caller
    case ContextChange =>
      var t := ConnectSseIfAvailable(s, streams, c);
      if !t.sseManager && c.pollInterval > 0 && t.pollingIntervalId.None? && c.changeDetection != NoDetection
      then StartPolling(t) else t
    case Refresh => s.(isFetching := false)
    case SseRefetch => s
    case SseRetry => ConnectSseIfAvailable(s, streams, c)
    case Background => if changed then ConnectSseIfAvailable(s, streams, c) else s
  }

  function Fail(s: State, caller: Caller, c: Config): State {
    match caller
    case Refresh => s.(isFetching := false)
    case SseRetry => HandleSseError(s, c)
    case _ => s
  }

  datatype Response =
    | NotModified
    | Success(streams: bool)
    | Failure(retryAfter: Option<int>)

  function Receive(s: State, task: Task, r: Response, c: Config): State
    requires task.Fetching?
  {
    match r
    case NotModified => Resume(s, task.caller, false, s.eventStreams, c)
    case Failure(retryAfter) =>
      Fail(if retryAfter.Some? then s.(retryPollingAfter := retryAfter) else s, task.caller, c)
    case Success(streams) =>
      if task.generation != s.contextRevision then Resume(s, task.caller, false, false, c)
      else Apply(s, task, streams)
  }

  /** The flags of a response are taken over, and the caller waits for the store. */
  function Apply(s: State, task: Task, streams: bool): State
    requires task.Fetching?
  {
    s.(flagCache := task.context, applied := Some(task.generation), eventStreams := streams,
       tasks := s.tasks + [Storing(task.caller, streams)])
  }

  /** A persisted entry: the context it was evaluated for, and whether it has event streams. */
  datatype Stored = Stored(context: Context, streams: bool)

  function ReadDone(s: State, context: Context, stored: Option<Stored>, now: int, c: Config): State {
    match stored
    case None => Fetch(s, ContextChange, context)
    case Some(entry) => Load(s, entry, now, c)
  }

  function Load(s: State, entry: Stored, now: int, c: Config): State {
    var t := s.(flagCache := entry.context, applied := None, eventStreams := entry.streams);
    RefreshFlagsInBackground(if entry.streams then ConnectSseIfAvailable(t, true, c) else t, now)
  }

  function RefreshFlagsInBackground(s: State, now: int): State {
    if RateLimited(s, now) then s else Fetch(s, Background, s.context)
  }

  function ChangeContext(s: State, context: Context, now: int, c: Config): State {
    var t := s.(contextRevision := s.contextRevision + 1, context := context, installed := s.installed + [context]);
    if RateLimited(t, now) then t
    else if c.cacheMode == LocalCacheFirst then t.(tasks := t.tasks + [Reading(context)])
    else Fetch(t, ContextChange, context)
  }

  function RefreshFlags(s: State, now: int): State {
    if s.isFetching || RateLimited(s, now) then s
    else Fetch(s.(isFetching := true), Refresh, s.context)
  }

  function Close(s: State): State {
    ClearSseRetry(StopPolling(s)).(sseManager := false, closed := true)
  }

  /** The headers of a response have arrived. */
  function Receiving(s: State, k: nat): State
    requires k < |s.tasks| && s.tasks[k].Fetching?
  {
    s.(tasks := s.tasks[k := s.tasks[k].(received := true)])
  }

  // ----- what may happen at a yield point -----

  datatype Input =
    | Change(context: Context)
    | Tick
    | Visible
    | SseMessage
    | SseFailure
    | RetryDue(timer: nat)
    | HeadersArrived(task: nat)
    | Responded(task: nat, response: Response)
    | Persisted(task: nat)
    | CacheRead(task: nat, stored: Option<Stored>)
    | Closed

  /**
   Until the API is shut down, headers and body of a response may also come at once; afterwards only a
   response whose headers had arrived can still be completed, and any other request fails.
   */
  predicate Enabled(s: State, i: Input) {
    match i
    case Tick => s.intervals != {}
    case RetryDue(t) => t in s.retryTimers
    case HeadersArrived(k) => k < |s.tasks| && s.tasks[k].Fetching? && !s.tasks[k].received && !s.closed
    case Responded(k, r) =>
      k < |s.tasks| && s.tasks[k].Fetching? && (s.closed && !s.tasks[k].received ==> r == Failure(None))
    case Persisted(k) => k < |s.tasks| && s.tasks[k].Storing?
    case CacheRead(k, _) => k < |s.tasks| && s.tasks[k].Reading?
    case _ => true
  }

  function Without(tasks: seq<Task>, k: nat): seq<Task>
    requires k < |tasks|
  {
    tasks[..k] + tasks[k + 1..]
  }

  function Step(s: State, i: Input, now: int, c: Config): State
    requires Enabled(s, i)
  {
    match i
    case Change(context) => ChangeContext(s, context, now, c)
    case Tick => RefreshFlags(s, now)
    case Visible => RefreshFlags(s, now)
    case SseMessage => Fetch(s, SseRefetch, s.context)
    case SseFailure => HandleSseError(s, c)
    case RetryDue(t) =>
      Fetch(s.(retryTimers := s.retryTimers - {t}, sseRetryTimerId := None), SseRetry, s.context)
    case HeadersArrived(k) => Receiving(s, k)
    case Responded(k, r) => Receive(s.(tasks := Without(s.tasks, k)), s.tasks[k], r, c)
    case Persisted(k) =>
      Resume(s.(tasks := Without(s.tasks, k)), s.tasks[k].caller, true, s.tasks[k].streams, c)
    case CacheRead(k, stored) => ReadDone(s.(tasks := Without(s.tasks, k)), s.tasks[k].context, stored, now, c)
    case Closed => Close(s)
  }

  // ----- generations -----

  /** A request is made for the context that its generation installed. */
  predicate RightContext(t: Task, installed: seq<Context>) {
    match t
    case Fetching(_, context, generation, _) => generation < |installed| && installed[generation] == context
    case Reading(_) => false
    case Storing(_, _) => true
  }

  ghost predicate GenerationInv(s: State) {
    && |s.installed| == s.contextRevision + 1 && s.installed[s.contextRevision] == s.context
    && (forall k :: 0 <= k < |s.tasks| ==> RightContext(s.tasks[k], s.installed))
    && (s.applied.Some? ==> s.applied.value <= s.contextRevision && s.installed[s.applied.value] == s.flagCache)
  }

  /** Polling and SSE leave revisions, flags and tasks alone. */
  predicate SameFlags(s: State, t: State) {
    && t.context == s.context && t.contextRevision == s.contextRevision && t.installed == s.installed
    && t.flagCache == s.flagCache && t.applied == s.applied && t.tasks == s.tasks
  }

  lemma ConnectKeepsFlags(s: State, streams: bool, c: Config)
    ensures SameFlags(s, ConnectSseIfAvailable(s, streams, c))
  {
  }

  lemma ErrorKeepsFlags(s: State, c: Config)
    ensures SameFlags(s, HandleSseError(s, c))
  {
  }

  lemma DetectionKeepsFlags(s: State, caller: Caller, changed: bool, streams: bool, c: Config)
    ensures SameFlags(s, Resume(s, caller, changed, streams, c)) && SameFlags(s, Fail(s, caller, c))
  {
    ConnectKeepsFlags(s, streams, c);
    ErrorKeepsFlags(s, c);
  }

  lemma NothingIsReading(s: State, k: nat)
    requires GenerationInv(s) && k < |s.tasks|
    ensures !s.tasks[k].Reading?
  {
    assert RightContext(s.tasks[k], s.installed);
  }

  lemma SameFlagsKeepInv(s: State, t: State)
    requires GenerationInv(s) && SameFlags(s, t)
    ensures GenerationInv(t)
  {
  }

  lemma FetchKeepsInv(s: State, caller: Caller)
    requires GenerationInv(s)
    ensures GenerationInv(Fetch(s, caller, s.context)) && Fetch(s, caller, s.context).applied == s.applied
  {
  }

  lemma ChangeKeepsInv(s: State, context: Context, now: int, c: Config)
    requires GenerationInv(s) && c.cacheMode != LocalCacheFirst
    ensures GenerationInv(ChangeContext(s, context, now, c)) && ChangeContext(s, context, now, c).applied == s.applied
  {
  }

  predicate NotOlder(before: Option<nat>, after: Option<nat>) {
    before.Some? ==> after.Some? && before.value <= after.value
  }

  lemma SameFlagsStayGood(s: State, t: State)
    requires GenerationInv(s) && SameFlags(s, t)
    ensures GenerationInv(t) && NotOlder(s.applied, t.applied)
  {
    SameFlagsKeepInv(s, t);
  }

  lemma FailureKeepsGenerations(s: State, caller: Caller, retryAfter: Option<int>, c: Config)
    requires GenerationInv(s)
    ensures var t := Fail(if retryAfter.Some? then s.(retryPollingAfter := retryAfter) else s, caller, c);
            GenerationInv(t) && NotOlder(s.applied, t.applied)
  {
    var t := if retryAfter.Some? then s.(retryPollingAfter := retryAfter) else s;
    SameFlagsStayGood(s, t);
    DetectionKeepsFlags(t, caller, false, false, c);
    SameFlagsStayGood(t, Fail(t, caller, c));
  }

  lemma ApplyKeepsGenerations(s: State, task: Task, streams: bool)
    requires GenerationInv(s) && task.Fetching? && RightContext(task, s.installed)
    requires task.generation == s.contextRevision
    ensures var t := Apply(s, task, streams); GenerationInv(t) && NotOlder(s.applied, t.applied)
  {
  }

  lemma ReceiveKeepsInv(s: State, task: Task, r: Response, c: Config)
    requires GenerationInv(s) && task.Fetching? && RightContext(task, s.installed)
    ensures GenerationInv(Receive(s, task, r, c)) && NotOlder(s.applied, Receive(s, task, r, c).applied)
  {
    match r
    case NotModified =>
      DetectionKeepsFlags(s, task.caller, false, s.eventStreams, c);
      SameFlagsStayGood(s, Receive(s, task, r, c));
    case Failure(retryAfter) => FailureKeepsGenerations(s, task.caller, retryAfter, c);
    case Success(streams) =>
      if task.generation == s.contextRevision {
        ApplyKeepsGenerations(s, task, streams);
      } else {
        DetectionKeepsFlags(s, task.caller, false, false, c);
        SameFlagsStayGood(s, Receive(s, task, r, c));
      }
  }

  lemma WithoutKeepsInv(s: State, k: nat)
    requires GenerationInv(s) && k < |s.tasks|
    ensures GenerationInv(s.(tasks := Without(s.tasks, k))) && RightContext(s.tasks[k], s.installed)
  {
  }

  lemma ReceivingKeepsInv(s: State, k: nat)
    requires GenerationInv(s) && k < |s.tasks| && s.tasks[k].Fetching?
    ensures GenerationInv(Receiving(s, k)) && Receiving(s, k).applied == s.applied
  {
    assert RightContext(s.tasks[k], s.installed);
  }

  lemma RefreshKeepsInv(s: State, now: int)
    requires GenerationInv(s)
    ensures GenerationInv(RefreshFlags(s, now)) && RefreshFlags(s, now).applied == s.applied
  {
    FetchKeepsInv(s.(isFetching := true), Refresh);
  }

  lemma CloseKeepsFlags(s: State)
    ensures SameFlags(s, Close(s))
  {
  }

  lemma StepKeepsGenerations(s: State, i: Input, now: int, c: Config)
    requires GenerationInv(s) && c.cacheMode != LocalCacheFirst && Enabled(s, i)
    ensures GenerationInv(Step(s, i, now, c)) && NotOlder(s.applied, Step(s, i, now, c).applied)
  {
    match i
    case Change(context) => ChangeKeepsInv(s, context, now, c);
    case Tick => RefreshKeepsInv(s, now);
    case Visible => RefreshKeepsInv(s, now);
    case SseMessage => FetchKeepsInv(s, SseRefetch);
    case SseFailure =>
      ErrorKeepsFlags(s, c);
      SameFlagsKeepInv(s, HandleSseError(s, c));
    case RetryDue(t) => FetchKeepsInv(s.(retryTimers := s.retryTimers - {t}, sseRetryTimerId := None), SseRetry);
    case HeadersArrived(k) => ReceivingKeepsInv(s, k);
    case Responded(k, r) =>
      WithoutKeepsInv(s, k);
      ReceiveKeepsInv(s.(tasks := Without(s.tasks, k)), s.tasks[k], r, c);
    case Persisted(k) =>
      WithoutKeepsInv(s, k);
      var t := s.(tasks := Without(s.tasks, k));
      DetectionKeepsFlags(t, s.tasks[k].caller, true, s.tasks[k].streams, c);
      SameFlagsKeepInv(t, Step(s, i, now, c));
    case CacheRead(k, stored) => NothingIsReading(s, k);
    case Closed =>
      CloseKeepsFlags(s);
      SameFlagsKeepInv(s, Close(s));
  }

  // ----- polling against SSE -----

  ghost predicate DetectionInv(s: State, c: Config) {
    && !(s.sseManager && s.pollingIntervalId.Some?)
    && s.intervals == (if s.pollingIntervalId.Some? then {s.pollingIntervalId.value} else {})
    && (forall id <- s.intervals :: id < s.nextId)
    && (s.pollingIntervalId.Some? ==> c.pollInterval > 0)
    && (s.sseManager ==> c.changeDetection == Sse)
    && (forall id <- s.retryTimers :: id < s.nextId && c.pollInterval <= 0 && exists n :: s.retryTimers[id] == Delay(n))
  }

  lemma ErrorKeepsDetection(s: State, c: Config)
    requires DetectionInv(s, c)
    ensures DetectionInv(HandleSseError(s, c), c)
  {
  }

  lemma ConnectKeepsDetection(s: State, streams: bool, c: Config)
    requires DetectionInv(s, c)
    ensures DetectionInv(ConnectSseIfAvailable(s, streams, c), c)
  {
  }

  lemma ResumeKeepsDetection(s: State, caller: Caller, changed: bool, streams: bool, c: Config)
    requires DetectionInv(s, c)
    ensures DetectionInv(Resume(s, caller, changed, streams, c), c)
  {
    ConnectKeepsDetection(s, streams, c);
  }

  /** Requests and revisions leave polling and SSE alone. */
  predicate SameDetection(s: State, t: State) {
    && t.sseManager == s.sseManager && t.pollingIntervalId == s.pollingIntervalId && t.intervals == s.intervals
    && t.retryTimers == s.retryTimers && t.nextId == s.nextId
  }

  lemma SameDetectionKeepsInv(s: State, t: State, c: Config)
    requires DetectionInv(s, c) && SameDetection(s, t)
    ensures DetectionInv(t, c)
  {
  }

  lemma ReceiveKeepsDetection(s: State, task: Task, r: Response, c: Config)
    requires DetectionInv(s, c) && task.Fetching?
    ensures DetectionInv(Receive(s, task, r, c), c)
  {
    match r {
      case NotModified => ResumeKeepsDetection(s, task.caller, false, s.eventStreams, c);
      case Success(streams) =>
        if task.generation != s.contextRevision {
          ResumeKeepsDetection(s, task.caller, false, false, c);
        } else {
          SameDetectionKeepsInv(s, Receive(s, task, r, c), c);
        }
      case Failure(retryAfter) =>
        var t := if retryAfter.Some? then s.(retryPollingAfter := retryAfter) else s;
        SameDetectionKeepsInv(s, t, c);
        ErrorKeepsDetection(t, c);
    }
  }

  lemma ReadKeepsDetection(s: State, context: Context, stored: Option<Stored>, now: int, c: Config)
    requires DetectionInv(s, c)
    ensures DetectionInv(ReadDone(s, context, stored, now, c), c)
  {
    if stored.Some? {
      var t := s.(flagCache := stored.value.context, applied := None, eventStreams := stored.value.streams);
      SameDetectionKeepsInv(s, t, c);
      ConnectKeepsDetection(t, true, c);
    }
  }

  lemma StepKeepsDetection(s: State, i: Input, now: int, c: Config)
    requires DetectionInv(s, c) && Enabled(s, i)
    ensures DetectionInv(Step(s, i, now, c), c)
  {
    match i
    case SseFailure => ErrorKeepsDetection(s, c);
    case RetryDue(id) => RetryKeepsDetection(s, id, c);
    case Responded(k, r) => AnswerKeepsDetection(s, i, now, c);
    case Persisted(k) => AnswerKeepsDetection(s, i, now, c);
    case CacheRead(k, stored) => AnswerKeepsDetection(s, i, now, c);
    case Closed => CloseKeepsDetection(s, c);
    case _ => OthersKeepDetection(s, i, now, c);
  }

  lemma OthersKeepDetection(s: State, i: Input, now: int, c: Config)
    requires i.Change? || i.Tick? || i.Visible? || i.SseMessage? || i.HeadersArrived?
    requires DetectionInv(s, c) && Enabled(s, i)
    ensures DetectionInv(Step(s, i, now, c), c)
  {
    SameDetectionKeepsInv(s, Step(s, i, now, c), c);
  }

  lemma RetryKeepsDetection(s: State, id: nat, c: Config)
    requires DetectionInv(s, c)
    ensures var t := s.(retryTimers := s.retryTimers - {id}, sseRetryTimerId := None);
            DetectionInv(Fetch(t, SseRetry, s.context), c)
  {
    assert forall other <- s.retryTimers - {id} :: other in s.retryTimers;
  }

  lemma AnswerKeepsDetection(s: State, i: Input, now: int, c: Config)
    requires DetectionInv(s, c) && Enabled(s, i) && (i.Responded? || i.Persisted? || i.CacheRead?)
    ensures DetectionInv(Step(s, i, now, c), c)
  {
    var u, task := s.(tasks := Without(s.tasks, i.task)), s.tasks[i.task];
    SameDetectionKeepsInv(s, u, c);
    match i
    case Responded(_, r) => ReceiveKeepsDetection(u, task, r, c);
    case Persisted(_) => ResumeKeepsDetection(u, task.caller, true, task.streams, c);
    case CacheRead(_, stored) => ReadKeepsDetection(u, task.context, stored, now, c);
  }

  lemma CloseKeepsDetection(s: State, c: Config)
    requires DetectionInv(s, c)
    ensures DetectionInv(Close(s), c)
  {
  }

  // ----- runs -----

  datatype Moment = Moment(input: Input, now: int)

  /**
   After `initialize`: at most one kind of change detection is on, and nothing is suspended but, after a hit
   in local-cache-first mode, the background refresh.
   */
  ghost predicate Initialized(s: State, c: Config) {
    && s.contextRevision == 0 && s.installed == [s.context] && s.applied.None? && !s.closed
    && (|| s.tasks == []
        || (c.cacheMode == LocalCacheFirst && exists r :: s.tasks == [Fetching(Background, s.context, 0, r)]))
    && s.retryTimers == map[] && s.sseRetryCount == 0 && !s.isFetching && DetectionInv(s, c)
  }

  ghost predicate Follow(s: State, m: Moment, t: State, c: Config) {
    Enabled(s, m.input) && t == Step(s, m.input, m.now, c)
  }

  ghost predicate IsRun(states: seq<State>, moments: seq<Moment>, c: Config) {
    && |states| == |moments| + 1 && Initialized(states[0], c)
    && (forall i :: 0 <= i < |moments| ==> Follow(states[i], moments[i], states[i + 1], c))
  }

  lemma LongerRun(states: seq<State>, moments: seq<Moment>, m: Moment, t: State, c: Config)
    requires IsRun(states, moments, c) && Follow(states[|moments|], m, t, c)
    ensures IsRun(states + [t], moments + [m], c)
  {
    var longer, more := states + [t], moments + [m];
    forall n | 0 <= n < |more| ensures Follow(longer[n], more[n], longer[n + 1], c) {
      if n < |moments| {
        assert longer[n] == states[n] && more[n] == moments[n] && longer[n + 1] == states[n + 1];
      }
    }
  }

  lemma {:induction false} RunKeepsGenerations(states: seq<State>, moments: seq<Moment>, n: nat, c: Config)
    requires IsRun(states, moments, c) && c.cacheMode != LocalCacheFirst && n < |states|
    ensures GenerationInv(states[n])
  {
    if n == 0 {
    } else {
      RunKeepsGenerations(states, moments, n - 1, c);
      GenerationsFollow(states[n - 1], moments[n - 1], states[n], c);
    }
  }

  lemma StepIsNotOlder(states: seq<State>, moments: seq<Moment>, n: nat, c: Config)
    requires IsRun(states, moments, c) && c.cacheMode != LocalCacheFirst && n < |moments|
    ensures NotOlder(states[n].applied, states[n + 1].applied)
  {
    RunKeepsGenerations(states, moments, n, c);
    GenerationsFollow(states[n], moments[n], states[n + 1], c);
  }

  /** The revisions in the flag cache along a run. */
  function Revisions(states: seq<State>): (r: seq<Option<nat>>)
    ensures |r| == |states|
  {
    seq(|states|, k requires 0 <= k < |states| => states[k].applied)
  }

  lemma {:induction false} NeverDecreases(revisions: seq<Option<nat>>, m: nat, n: nat)
    requires m <= n < |revisions|
    requires forall k :: 0 < k < |revisions| ==> NotOlder(revisions[k - 1], revisions[k])
    ensures NotOlder(revisions[m], revisions[n])
  {
    if m == n {
    } else {
      NeverDecreases(revisions, m, n - 1);
    }
  }

  lemma AppliedNeverDecreases(states: seq<State>, moments: seq<Moment>, m: nat, n: nat, c: Config)
    requires IsRun(states, moments, c) && c.cacheMode != LocalCacheFirst && m <= n < |states|
    ensures NotOlder(states[m].applied, states[n].applied)
  {
    var r := Revisions(states);
    forall k | 0 < k < |r| ensures NotOlder(r[k - 1], r[k]) {
      StepIsNotOlder(states, moments, k - 1, c);
    }
    NeverDecreases(r, m, n);
  }

  lemma GenerationsFollow(s: State, m: Moment, t: State, c: Config)
    requires Follow(s, m, t, c) && GenerationInv(s) && c.cacheMode != LocalCacheFirst
    ensures GenerationInv(t) && NotOlder(s.applied, t.applied)
  {
    StepKeepsGenerations(s, m.input, m.now, c);
  }

  /**
   In every interleaving, with a cache mode other than local-cache-first: each outstanding request was
   made for the context that its generation installed; the revision in the flag cache never decreases;
   and from the moment a 200 for the current revision is applied until the next change, the flags belong
   to the current context.
   */
  lemma FlagsBelongToTheirRevision(states: seq<State>, moments: seq<Moment>, m: nat, n: nat, c: Config)
    requires IsRun(states, moments, c) && c.cacheMode != LocalCacheFirst && m <= n < |states|
    ensures var s := states[n];
            && (forall k :: 0 <= k < |s.tasks| && s.tasks[k].Fetching? ==>
                  s.tasks[k].generation < |s.installed| && s.tasks[k].context == s.installed[s.tasks[k].generation])
            && (states[m].applied.Some? ==> s.applied.Some? && states[m].applied.value <= s.applied.value)
            && (s.applied == Some(s.contextRevision) ==> s.flagCache == s.context)
            && (states[m].applied == Some(states[m].contextRevision) ==>
                  s.contextRevision == states[m].contextRevision ==> s.flagCache == s.context)
  {
    RunKeepsGenerations(states, moments, n, c);
    AppliedNeverDecreases(states, moments, m, n, c);
    var s := states[n];
    forall k | 0 <= k < |s.tasks| && s.tasks[k].Fetching?
      ensures s.tasks[k].generation < |s.installed| && s.tasks[k].context == s.installed[s.tasks[k].generation]
    {
      assert RightContext(s.tasks[k], s.installed);
    }
  }

  lemma DetectionFollows(s: State, m: Moment, t: State, c: Config)
    requires Follow(s, m, t, c) && DetectionInv(s, c)
    ensures DetectionInv(t, c)
  {
    StepKeepsDetection(s, m.input, m.now, c);
  }

  lemma {:induction false} RunKeepsDetection(states: seq<State>, moments: seq<Moment>, n: nat, c: Config)
    requires IsRun(states, moments, c) && n < |states|
    ensures DetectionInv(states[n], c)
  {
    if n == 0 {
    } else {
      RunKeepsDetection(states, moments, n - 1, c);
      DetectionFollows(states[n - 1], moments[n - 1], states[n], c);
    }
  }

  /**
   At no yield point do an SSE manager and a polling timer coexist, no polling timer is ever lost track
   of, and retries are pending only when polling is disabled, each after min(1000 * 2^n, 60000) ms for some n.
   */
  lemma NeverBothSseAndPolling(states: seq<State>, moments: seq<Moment>, n: nat, c: Config)
    requires IsRun(states, moments, c) && n < |states|
    ensures !(states[n].sseManager && states[n].intervals != {})
    ensures |states[n].intervals| <= 1
    ensures forall id <- states[n].retryTimers ::
              c.pollInterval <= 0 && exists k :: states[n].retryTimers[id] == Delay(k)
  {
    RunKeepsDetection(states, moments, n, c);
  }

  /**
   When a current manager fails, polling takes over if it is enabled; otherwise, and only otherwise, a
   retry is scheduled, after min(1000 * 2^n, 60000) ms.
   */
  lemma FailureFallsBack(states: seq<State>, moments: seq<Moment>, n: nat, c: Config)
    requires IsRun(states, moments, c) && n < |states| && states[n].sseManager
    ensures var s, t := states[n], HandleSseError(states[n], c);
            if c.pollInterval > 0 then !t.sseManager && |t.intervals| == 1 && t.retryTimers == s.retryTimers
            else t.sseManager && t.intervals == {} && t.retryTimers == s.retryTimers[s.nextId := Delay(s.sseRetryCount)]
  {
    RunKeepsDetection(states, moments, n, c);
  }

  // ----- where the promises end -----

  /** Two changes, each suspended at its cache read. */
  lemma BothReading(s: State, first: Context, second: Context, c: Config)
    returns (states: seq<State>, moments: seq<Moment>)
    requires Initialized(s, c) && c.cacheMode == LocalCacheFirst && s.retryPollingAfter.None?
    ensures IsRun(states, moments, c) && states[0] == s && |moments| == 2
    ensures states[2].tasks == s.tasks + [Reading(first), Reading(second)]
    ensures states[2].context == second && !states[2].closed
  {
    var m1, m2 := Moment(Change(first), 0), Moment(Change(second), 0);
    var s1 := ChangeContext(s, first, 0, c);
    var s2 := ChangeContext(s1, second, 0, c);
    LongerRun([s], [], m1, s1, c);
    LongerRun([s] + [s1], [] + [m1], m2, s2, c);
    states, moments := [s] + [s1] + [s2], [] + [m1] + [m2];
    TwoAppended(s.tasks, Reading(first), Reading(second));
  }

  lemma TwoAppended(tasks: seq<Task>, a: Task, b: Task)
    ensures tasks + [a] + [b] == tasks + [a, b]
  {
  }

  /** The read for an older context finishes under a newer revision. */
  lemma FirstAfterSecond(s: State, before: seq<Task>, older: Context, c: Config) returns (t: State, u: State)
    requires s.tasks == before + [Reading(older), Reading(s.context)] && !s.closed
    ensures var k := |before|;
            && Follow(s, Moment(CacheRead(k, None), 0), t, c)
            && Follow(t, Moment(Responded(k + 1, Success(false)), 0), u, c)
    ensures u.applied == Some(u.contextRevision) && u.flagCache == older && u.context == s.context
  {
    t := Step(s, CacheRead(|before|, None), 0, c);
    assert t.tasks == before + [Reading(s.context), Fetching(ContextChange, older, s.contextRevision, false)];
    u := Step(t, Responded(|before| + 1, Success(false)), 0, c);
  }

  /**
   In local-cache-first mode a second change can come while the first one is reading the persisted
   cache. The first then fetches its own context under the second one's generation, and its response
   is taken for current.
   */
  lemma LocalCacheFirstMixesGenerations(s: State, c: Config)
    requires Initialized(s, c) && c.cacheMode == LocalCacheFirst && s.retryPollingAfter.None?
    ensures exists states: seq<State>, moments: seq<Moment> ::
              && IsRun(states, moments, c) && states[0] == s
              && states[|moments|].applied == Some(states[|moments|].contextRevision)
              && states[|moments|].flagCache != states[|moments|].context
  {
    var states, moments := BothReading(s, s.context + 1, s.context + 2, c);
    var k := |s.tasks|;
    var t, u := FirstAfterSecond(states[2], s.tasks, s.context + 1, c);
    LongerRun(states, moments, Moment(CacheRead(k, None), 0), t, c);
    states, moments := states + [t], moments + [Moment(CacheRead(k, None), 0)];
    LongerRun(states, moments, Moment(Responded(k + 1, Success(false)), 0), u, c);
    states, moments := states + [u], moments + [Moment(Responded(k + 1, Success(false)), 0)];
    assert states[|moments|] == u;
  }

  /**
   The response to an overtaken context change carries no event streams any more, so it disposes of
   the manager that a newer change has connected; with polling disabled nothing is left to detect changes.
   */
  lemma OvertakenChangeDropsManager(s: State, k: nat, streams: bool, now: int, c: Config)
    requires DetectionInv(s, c) && s.sseManager && s.retryTimers == map[]
    requires Enabled(s, Responded(k, Success(streams))) && s.tasks[k].caller == ContextChange
    requires s.tasks[k].generation != s.contextRevision
    ensures var t := Step(s, Responded(k, Success(streams)), now, c);
            && !t.sseManager && t.retryTimers == map[]
            && (c.pollInterval <= 0 ==> t.intervals == {})
            && (c.pollInterval > 0 ==> |t.intervals| == 1)
  {
  }
}
