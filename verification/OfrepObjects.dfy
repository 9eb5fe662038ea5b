/**
 `OFREPWebProvider` as an object: each stretch of code between two awaits does to the
 fields what the step functions of `OfrepProtocol` say.
 */
module OfrepObjects {
  import opened OfrepClose
  import opened OfrepDetection
  import opened OfrepEffects
  import opened OfrepProtocol

  class OFREPWebProvider {
    const config: Config
    var context: Context
    var contextRevision: nat
    var flagCache: Context
    var eventStreams: bool
    var retryPollingAfter: Option<int>
    var isFetching: bool
    var sseManager: bool
    var sseRetryCount: nat
    var sseRetryTimerId: Option<nat>
    var pollingIntervalId: Option<nat>
    /** The timers of the runtime and the suspended calls. */
    var retryTimers: map<nat, int>
    var intervals: set<nat>
    var nextId: nat
    var closed: bool
    var tasks: seq<Task>
    ghost var installed: seq<Context>
    ghost var applied: Option<nat>
    /** The run that has led to the present state, to which all theorems about runs apply. */
    ghost var states: seq<State>
    ghost var moments: seq<Moment>

    ghost function State(): State
      reads this
    {
      OfrepProtocol.State(
        context, contextRevision, installed, flagCache, applied, eventStreams, retryPollingAfter, isFetching,
        sseManager, sseRetryCount, sseRetryTimerId, retryTimers, pollingIntervalId, intervals, nextId,
        closed, tasks)
    }

    ghost predicate Valid()
      reads this
    {
      IsRun(states, moments, config) && states[|moments|] == State()
    }

    /** Never both SSE and polling, at most one polling timer, and one refresh at a time. */
    ghost predicate Sound()
      reads this
    {
      && !(sseManager && intervals != {}) && |intervals| <= 1
      && Refreshing(tasks) == if isFetching then 1 else 0
    }

    constructor (config: Config, context: Context, flagCache: Context, eventStreams: bool)
      ensures Valid() && Initialized(State(), config) && this.config == config && this.context == context
    {
      this.config := config;
      this.context, this.flagCache, this.eventStreams := context, flagCache, eventStreams;
      contextRevision, installed, applied := 0, [context], None;
      retryPollingAfter, isFetching := None, false;
      sseManager, sseRetryCount, sseRetryTimerId, retryTimers := false, 0, None, map[];
      pollingIntervalId, intervals, nextId, closed, tasks := None, {}, 0, false, [];
      new;
      states, moments := [State()], [];
    }

    /** Adds the step just taken to the run. */
    ghost method Record(i: Input, now: int)
      requires IsRun(states, moments, config)
      requires Enabled(states[|moments|], i) && State() == Step(states[|moments|], i, now, config)
      modifies `states, `moments
      ensures Valid() && Sound() && moments == old(moments) + [Moment(i, now)]
    {
      LongerRun(states, moments, Moment(i, now), State(), config);
      states, moments := states + [State()], moments + [Moment(i, now)];
      NeverBothSseAndPolling(states, moments, |moments|, config);
      RefreshesNeverOverlap(states, moments, |moments|, config);
    }

    method StartPolling()
      modifies this
      ensures states == old(states) && moments == old(moments)
      ensures State() == OfrepProtocol.StartPolling(old(State()))
    {
      intervals := intervals + {nextId};
      pollingIntervalId := Some(nextId);
      nextId := nextId + 1;
    }

    method StopPolling()
      modifies this
      ensures states == old(states) && moments == old(moments)
      ensures State() == OfrepProtocol.StopPolling(old(State()))
    {
      if pollingIntervalId.Some? {
        intervals := intervals - {pollingIntervalId.value};
        pollingIntervalId := None;
      }
    }

    method ClearSseRetry()
      modifies this
      ensures states == old(states) && moments == old(moments)
      ensures State() == OfrepProtocol.ClearSseRetry(old(State()))
    {
      if sseRetryTimerId.Some? {
        retryTimers := retryTimers - {sseRetryTimerId.value};
        sseRetryTimerId := None;
      }
    }

    method ConnectSseIfAvailable(streams: bool)
      modifies this
      ensures states == old(states) && moments == old(moments)
      ensures State() == OfrepProtocol.ConnectSseIfAvailable(old(State()), streams, config)
    {
      if streams && config.changeDetection == Sse {
        if !sseManager && !config.hasEventSource {
          return;
        }
        StopPolling();
        ClearSseRetry();
        sseManager := true;
        sseRetryCount := 0;
      } else if sseManager {
        sseManager := false;
      }
    }

    method HandleSseError()
      modifies this
      ensures states == old(states) && moments == old(moments)
      ensures State() == OfrepProtocol.HandleSseError(old(State()), config)
    {
      if !sseManager {
        return;
      }
      if config.pollInterval > 0 && pollingIntervalId.None? {
        sseManager := false;
        StartPolling();
        return;
      }
      if config.pollInterval <= 0 && config.changeDetection != NoDetection {
        retryTimers := retryTimers[nextId := Delay(sseRetryCount)];
        sseRetryTimerId := Some(nextId);
        sseRetryCount := sseRetryCount + 1;
        nextId := nextId + 1;
      }
    }

    /** `_fetchFlags` up to the response; the default generation is the current revision. */
    method StartFetch(caller: Caller, context: Context)
      modifies this
      ensures states == old(states) && moments == old(moments)
      ensures State() == Fetch(old(State()), caller, context)
    {
      tasks := tasks + [Fetching(caller, context, contextRevision, false)];
    }

    method OnContextChange(newContext: Context, now: int)
      requires Valid()
      modifies this
      ensures Valid() && Sound() && State() == Step(old(State()), Change(newContext), now, config)
    {
      ChangeTo(newContext, now);
      Record(Change(newContext), now);
    }

    method ChangeTo(newContext: Context, now: int)
      modifies this
      ensures states == old(states) && moments == old(moments)
      ensures State() == ChangeContext(old(State()), newContext, now, config)
    {
      Install(newContext);
      if !(retryPollingAfter.Some? && retryPollingAfter.value > now) {
        StartChange(newContext);
      }
    }

    method StartChange(newContext: Context)
      modifies this
      ensures states == old(states) && moments == old(moments)
      ensures State() == if config.cacheMode == LocalCacheFirst
                         then old(State()).(tasks := old(tasks) + [Reading(newContext)])
                         else Fetch(old(State()), ContextChange, newContext)
    {
      if config.cacheMode == LocalCacheFirst {
        tasks := tasks + [Reading(newContext)];
      } else {
        StartFetch(ContextChange, newContext);
      }
    }

    method Install(newContext: Context)
      modifies this
      ensures states == old(states) && moments == old(moments)
      ensures State() == old(State()).(contextRevision := old(contextRevision) + 1, context := newContext,
                                       installed := old(installed) + [newContext])
    {
      contextRevision := contextRevision + 1;
      context, installed := newContext, installed + [newContext];
    }

    /** The awaiting caller goes on with a result. */
    method OnResult(caller: Caller, changed: bool, streams: bool)
      modifies this
      ensures states == old(states) && moments == old(moments)
      ensures State() == Resume(old(State()), caller, changed, streams, config)
    {
      match caller {
        case ContextChange =>
          ConnectSseIfAvailable(streams);
          var polls := config.pollInterval > 0 && config.changeDetection != NoDetection;
          if !sseManager && pollingIntervalId.None? && polls {
            StartPolling();
          }
        case Refresh => isFetching := false;
        case SseRefetch =>
        case SseRetry => ConnectSseIfAvailable(streams);
        case Background =>
          if changed {
            ConnectSseIfAvailable(streams);
          }
      }
    }

    method OnResponse(k: nat, response: Response, now: int)
      requires Valid() && Enabled(State(), Responded(k, response))
      modifies this
      ensures Valid() && Sound() && State() == Step(old(State()), Responded(k, response), now, config)
    {
      var task := tasks[k];
      tasks := Without(tasks, k);
      ReceiveResponse(task, response);
      Record(Responded(k, response), now);
    }

    method OnHeaders(k: nat, now: int)
      requires Valid() && Enabled(State(), HeadersArrived(k))
      modifies this
      ensures Valid() && Sound() && State() == Step(old(State()), HeadersArrived(k), now, config)
    {
      tasks := tasks[k := tasks[k].(received := true)];
      Record(HeadersArrived(k), now);
    }

    method ReceiveResponse(task: Task, response: Response)
      requires task.Fetching?
      modifies this
      ensures states == old(states) && moments == old(moments)
      ensures State() == Receive(old(State()), task, response, config)
    {
      match response {
        case NotModified => OnResult(task.caller, false, eventStreams);
        case Success(streams) =>
          if task.generation != contextRevision {
            OnResult(task.caller, false, false);
          } else {
            flagCache, applied := task.context, Some(task.generation);
            eventStreams := streams;
            tasks := tasks + [Storing(task.caller, streams)];
          }
        case Failure(retryAfter) => OnFailure(task.caller, retryAfter);
      }
    }

    /** The awaiting caller goes on with an error. */
    method OnFailure(caller: Caller, retryAfter: Option<int>)
      modifies this
      ensures states == old(states) && moments == old(moments)
      ensures State() == Fail(
                if retryAfter.Some? then old(State()).(retryPollingAfter := retryAfter) else old(State()),
                caller, config)
    {
      if retryAfter.Some? {
        retryPollingAfter := retryAfter;
      }
      if caller == Refresh {
        isFetching := false;
      } else if caller == SseRetry {
        HandleSseError();
      }
    }

    method OnPersisted(k: nat, now: int)
      requires Valid() && Enabled(State(), Persisted(k))
      modifies this
      ensures Valid() && Sound() && State() == Step(old(State()), Persisted(k), now, config)
    {
      var task := tasks[k];
      tasks := Without(tasks, k);
      OnResult(task.caller, true, task.streams);
      Record(Persisted(k), now);
    }

    method OnCacheRead(k: nat, stored: Option<Stored>, now: int)
      requires Valid() && Enabled(State(), CacheRead(k, stored))
      modifies this
      ensures Valid() && Sound() && State() == Step(old(State()), CacheRead(k, stored), now, config)
    {
      var read := tasks[k].context;
      tasks := Without(tasks, k);
      match stored {
        case None => StartFetch(ContextChange, read);
        case Some(entry) => UseStored(entry, now);
      }
      Record(CacheRead(k, stored), now);
    }

    method UseStored(entry: Stored, now: int)
      modifies this
      ensures states == old(states) && moments == old(moments)
      ensures State() == Load(old(State()), entry, now, config)
    {
      flagCache, applied := entry.context, None;
      eventStreams := entry.streams;
      if eventStreams {
        ConnectSseIfAvailable(true);
      }
      RefreshFlagsInBackground(now);
    }

    method RefreshFlagsInBackground(now: int)
      modifies this
      ensures states == old(states) && moments == old(moments)
      ensures State() == OfrepProtocol.RefreshFlagsInBackground(old(State()), now)
    {
      if retryPollingAfter.Some? && retryPollingAfter.value > now {
        return;
      }
      StartFetch(Background, context);
    }

    method RefreshFlags(now: int)
      modifies this
      ensures states == old(states) && moments == old(moments)
      ensures State() == OfrepProtocol.RefreshFlags(old(State()), now)
      ensures tasks == old(tasks) + if old(isFetching) || Held(old(retryPollingAfter), now) then []
                                    else [Fetching(Refresh, context, contextRevision, false)]
    {
      if isFetching {
        return;
      }
      if retryPollingAfter.Some? && retryPollingAfter.value > now {
        return;
      }
      isFetching := true;
      StartFetch(Refresh, context);
    }

    method OnRetryTimer(timer: nat, now: int)
      requires Valid() && Enabled(State(), RetryDue(timer))
      modifies this
      ensures Valid() && Sound() && State() == Step(old(State()), RetryDue(timer), now, config)
    {
      retryTimers := retryTimers - {timer};
      sseRetryTimerId := None;
      StartFetch(SseRetry, context);
      Record(RetryDue(timer), now);
    }

    method OnPollingTimer(now: int)
      requires Valid() && Enabled(State(), Tick)
      modifies this
      ensures Valid() && Sound() && State() == Step(old(State()), Tick, now, config)
      ensures tasks == old(tasks) + if old(isFetching) || Held(old(retryPollingAfter), now) then []
                                    else [Fetching(Refresh, context, contextRevision, false)]
    {
      RefreshFlags(now);
      Record(Tick, now);
    }

    method OnVisibilityChange(now: int)
      requires Valid()
      modifies this
      ensures Valid() && Sound() && State() == Step(old(State()), Visible, now, config)
      ensures tasks == old(tasks) + if old(isFetching) || Held(old(retryPollingAfter), now) then []
                                    else [Fetching(Refresh, context, contextRevision, false)]
    {
      RefreshFlags(now);
      Record(Visible, now);
    }

    method OnSseRefetch(now: int)
      requires Valid()
      modifies this
      ensures Valid() && Sound() && State() == Step(old(State()), SseMessage, now, config)
    {
      StartFetch(SseRefetch, context);
      Record(SseMessage, now);
    }

    method OnSseError(now: int)
      requires Valid()
      modifies this
      ensures Valid() && Sound() && State() == Step(old(State()), SseFailure, now, config)
      ensures old(sseManager) && config.pollInterval > 0 ==> !sseManager && |intervals| == 1
    {
      RunKeepsDetection(states, moments, |moments|, config);
      HandleSseError();
      Record(SseFailure, now);
    }

    method OnClose(now: int)
      requires Valid()
      modifies this
      ensures Valid() && Sound() && State() == Step(old(State()), Closed, now, config)
      ensures !sseManager && intervals == {} && closed
      ensures Final(State(), config) <==> !CanRestart(State(), config)
    {
      RunKeepsDetection(states, moments, |moments|, config);
      CloseIsFinalExactly(states, moments, |moments|, config);
      StopPolling();
      ClearSseRetry();
      sseManager := false;
      closed := true;
      Record(Closed, now);
    }
  }
}
