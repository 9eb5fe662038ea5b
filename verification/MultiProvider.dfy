/**
 The multi-provider: evaluating one flag with one provider and its hooks, and with all of them under a
 strategy. What a hook or a provider does when it is called is a function of what it is called with.
 */
module MultiProvider {
  import opened Strategies
  import opened Comparison
  import StatusTracker

  type Context = map<string, string>

  datatype Outcome<+T> = Return(value: T) | Throw(error: Thrown)

  /** The four stages of a hook; a stage that only has effects either throws or does not. */
  datatype Hook<!V> = Hook(
    before: Context -> Outcome<Context>,
    after: (Context, Details<V>) -> Option<Thrown>,
    error: (Context, Thrown) -> Option<Thrown>,
    finally: (Context, Details<V>) -> Option<Thrown>)

  datatype Provider<!V> = Provider(id: nat, hooks: seq<Hook<V>>, resolve: Context -> Outcome<Details<V>>)

  /** A registered provider, with its status when its turn comes. */
  datatype Entry<!V> = Entry(name: string, provider: Provider<V>, status: Option<Status>)

  /** The calls made to a provider and its hooks. */
  datatype Call<V> =
    | Before(hook: nat, context: Context)
    | Resolve(context: Context)
    | After(hook: nat, context: Context, details: Details<V>)
    | OnError(hook: nat, context: Context, thrown: Thrown)
    | Finally(hook: nat, context: Context, details: Details<V>)

  // ----- hooks -----

  /** The context that the first `n` before hooks make of `context`, or what the first to throw throws. */
  datatype Progress = Progress(context: Context, thrown: Option<Thrown>)

  function BeforeHooks<V>(hooks: seq<Hook<V>>, context: Context, n: nat): Progress
    requires n <= |hooks|
  {
    if n == 0 then Progress(context, None)
    else
      var p := BeforeHooks(hooks, context, n - 1);
      if p.thrown.Some? then p
      else match hooks[n - 1].before(p.context)
        case Return(more) => Progress(p.context + more, None)
        case Throw(e) => Progress(p.context, Some(e))
  }

  function AfterHooks<V>(hooks: seq<Hook<V>>, context: Context, details: Details<V>, n: nat): Option<Thrown>
    requires n <= |hooks|
  {
    if n == 0 then None
    else
      var thrown := AfterHooks(hooks, context, details, n - 1);
      if thrown.Some? then thrown else hooks[n - 1].after(context, details)
  }

  /** The before hooks called one after the other, each with the context so far, and none after one that threw. */
  ghost predicate CalledBefore<V>(log: seq<Call<V>>, hooks: seq<Hook<V>>, context: Context) {
    && |log| <= |hooks|
    && forall k :: 0 <= k < |log| ==>
         log[k] == Before(k, BeforeHooks(hooks, context, k).context) && BeforeHooks(hooks, context, k).thrown.None?
  }

  lemma CallNext<V>(log: seq<Call<V>>, hooks: seq<Hook<V>>, context: Context)
    requires CalledBefore(log, hooks, context) && |log| < |hooks|
    requires BeforeHooks(hooks, context, |log|).thrown.None?
    ensures CalledBefore(log + [Before(|log|, BeforeHooks(hooks, context, |log|).context)], hooks, context)
  {
  }

  lemma NextProgress<V>(hooks: seq<Hook<V>>, context: Context, i: nat)
    requires i < |hooks| && BeforeHooks(hooks, context, i).thrown.None?
    ensures var p := BeforeHooks(hooks, context, i);
            BeforeHooks(hooks, context, i + 1) == match hooks[i].before(p.context)
            case Return(more) => Progress(p.context + more, None)
            case Throw(e) => Progress(p.context, Some(e))
  {
  }

  method RunBeforeHooks<V>(hooks: seq<Hook<V>>, context: Context) returns (p: Progress, log: seq<Call<V>>)
    ensures p == BeforeHooks(hooks, context, |hooks|) && CalledBefore(log, hooks, context)
    ensures if p.thrown.Some? then p == BeforeHooks(hooks, context, |log|) else |log| == |hooks|
  {
    p, log := Progress(context, None), [];
    for i := 0 to |hooks|
      invariant p == BeforeHooks(hooks, context, i) && p.thrown.None?
      invariant |log| == i && CalledBefore(log, hooks, context)
    {
      CallNext(log, hooks, context);
      NextProgress(hooks, context, i);
      log := log + [Before(i, p.context)];
      match hooks[i].before(p.context) {
        case Return(more) => p := Progress(p.context + more, None);
        case Throw(e) =>
          p := Progress(p.context, Some(e));
          BeforeHooksStop(hooks, context, i + 1, |hooks|);
          return;
      }
    }
  }

  lemma {:induction false} BeforeHooksStop<V>(hooks: seq<Hook<V>>, context: Context, i: nat, n: nat)
    requires i <= n <= |hooks| && BeforeHooks(hooks, context, i).thrown.Some?
    ensures BeforeHooks(hooks, context, n) == BeforeHooks(hooks, context, i)
    decreases n
  {
    if i == n {
    } else {
      BeforeHooksStop(hooks, context, i, n - 1);
    }
  }

  /** The after hooks called one after the other, and none after one that threw. */
  ghost predicate CalledAfter<V>(log: seq<Call<V>>, hooks: seq<Hook<V>>, context: Context, details: Details<V>) {
    && |log| <= |hooks|
    && forall k :: 0 <= k < |log| ==>
         log[k] == After(k, context, details) && AfterHooks(hooks, context, details, k).None?
  }

  ghost predicate AfterTried<V>(log: seq<Call<V>>, hooks: seq<Hook<V>>, context: Context, details: Details<V>) {
    var thrown := AfterHooks(hooks, context, details, |hooks|);
    && CalledAfter(log, hooks, context, details)
    && if thrown.Some? then |log| > 0 && hooks[|log| - 1].after(context, details) == thrown else |log| == |hooks|
  }

  method RunAfterHooks<V>(hooks: seq<Hook<V>>, context: Context, details: Details<V>)
    returns (thrown: Option<Thrown>, log: seq<Call<V>>)
    ensures thrown == AfterHooks(hooks, context, details, |hooks|) && AfterTried(log, hooks, context, details)
  {
    thrown, log := None, [];
    for i := 0 to |hooks|
      invariant thrown == AfterHooks(hooks, context, details, i) && thrown.None?
      invariant |log| == i && CalledAfter(log, hooks, context, details)
    {
      log := log + [After(i, context, details)];
      thrown := hooks[i].after(context, details);
      if thrown.Some? {
        AfterHooksStop(hooks, context, details, i + 1, |hooks|);
        return;
      }
    }
  }

  lemma {:induction false} AfterHooksStop<V>(hooks: seq<Hook<V>>, context: Context, details: Details<V>, i: nat, n: nat)
    requires i <= n <= |hooks| && AfterHooks(hooks, context, details, i).Some?
    ensures AfterHooks(hooks, context, details, n) == AfterHooks(hooks, context, details, i)
    decreases n
  {
    if i == n {
    } else {
      AfterHooksStop(hooks, context, details, i, n - 1);
    }
  }

  /** Every error hook runs, whatever the others throw. */
  method RunErrorHooks<V>(hooks: seq<Hook<V>>, context: Context, thrown: Thrown) returns (log: seq<Call<V>>)
    ensures |log| == |hooks| && forall k :: 0 <= k < |log| ==> log[k] == OnError(k, context, thrown)
  {
    log := [];
    for i := 0 to |hooks|
      invariant |log| == i && forall k :: 0 <= k < |log| ==> log[k] == OnError(k, context, thrown)
    {
      var swallowed := hooks[i].error(context, thrown);
      log := log + [OnError(i, context, thrown)];
    }
  }

  /** Every finally hook runs, whatever the others throw. */
  method RunFinallyHooks<V>(hooks: seq<Hook<V>>, context: Context, details: Details<V>) returns (log: seq<Call<V>>)
    ensures |log| == |hooks| && forall k :: 0 <= k < |log| ==> log[k] == Finally(k, context, details)
  {
    log := [];
    for i := 0 to |hooks|
      invariant |log| == i && forall k :: 0 <= k < |log| ==> log[k] == Finally(k, context, details)
    {
      var swallowed := hooks[i].finally(context, details);
      log := log + [Finally(i, context, details)];
    }
  }

  // ----- one provider -----

  /** What the hooks see as the result of the provider. */
  function Decorated<V>(details: Details<V>, flagKey: string): Details<V> {
    details.(
      flagMetadata := if details.flagMetadata.Some? then details.flagMetadata else Some(map[]),
      flagKey := Some(flagKey))
  }

  function ErrorDetails<V>(flagKey: string, defaultValue: V, e: Thrown): Details<V> {
    Details(Some(defaultValue), None, Some("ERROR"), if Truthy(e.code) then e.code else Some(GENERAL), e.message,
            Some(map[]), Some(flagKey))
  }

  /** How an attempt ends that runs the before hooks, the provider and the after hooks until one of them throws. */
  function Attempt<V>(provider: Provider<V>, context: Context, flagKey: string): Outcome<Details<V>> {
    var p := BeforeHooks(provider.hooks, context, |provider.hooks|);
    if p.thrown.Some? then Throw(p.thrown.value)
    else match provider.resolve(p.context)
      case Throw(e) => Throw(e)
      case Return(resolution) =>
        var thrown := AfterHooks(provider.hooks, p.context, Decorated(resolution, flagKey), |provider.hooks|);
        if thrown.Some? then Throw(thrown.value) else Return(Decorated(resolution, flagKey))
  }

  /** The details that come of it: a throw becomes an error code and the default value. */
  function Settled<V>(provider: Provider<V>, context: Context, flagKey: string, defaultValue: V): Details<V> {
    match Attempt(provider, context, flagKey)
    case Return(details) => details
    case Throw(e) => ErrorDetails(flagKey, defaultValue, e)
  }

  /** The context after the before hooks that ran. */
  function Reaching<V>(provider: Provider<V>, context: Context): Context {
    BeforeHooks(provider.hooks, context, |provider.hooks|).context
  }

  // ----- the calls of an attempt -----

  /** What a call throws into the attempt; error and finally hooks are caught. */
  function ThrownBy<V>(provider: Provider<V>, call: Call<V>): Option<Thrown> {
    match call
    case Before(h, context) =>
      if h < |provider.hooks| then
        match provider.hooks[h].before(context)
        case Throw(e) => Some(e)
        case Return(_) => None
      else None
    case Resolve(context) =>
      (match provider.resolve(context)
       case Throw(e) => Some(e)
       case Return(_) => None)
    case After(h, context, details) =>
      if h < |provider.hooks| then provider.hooks[h].after(context, details) else None
    case _ => None
  }

  /** Which call follows which, while none throws. */
  function Next<V>(provider: Provider<V>, flagKey: string, call: Call<V>): Option<Call<V>> {
    var n := |provider.hooks|;
    if ThrownBy(provider, call).Some? then None
    else
      match call
      case Before(h, context) =>
        if h >= n then None
        else
          var more := context + provider.hooks[h].before(context).value;
          Some(if h + 1 < n then Before(h + 1, more) else Resolve(more))
      case Resolve(context) =>
        if n == 0 then None else Some(After(0, context, Decorated(provider.resolve(context).value, flagKey)))
      case After(h, context, details) => if h + 1 < n then Some(After(h + 1, context, details)) else None
      case _ => None
  }

  /** The calls of an attempt, one after the other up to the last. */
  ghost predicate CallByCall<V>(log: seq<Call<V>>, provider: Provider<V>, hookContext: Context, flagKey: string) {
    && log != [] && log[0] == (if provider.hooks == [] then Resolve(hookContext) else Before(0, hookContext))
    && (forall k :: 0 <= k < |log| - 1 ==> Next(provider, flagKey, log[k]) == Some(log[k + 1]))
    && Next(provider, flagKey, log[|log| - 1]) == None
  }

  /** The result of the provider, with its key and with metadata. */
  predicate IsDecorated<V(==)>(details: Details<V>, resolution: Details<V>, flagKey: string) {
    && details.value == resolution.value && details.variant == resolution.variant
    && details.reason == resolution.reason
    && details.errorCode == resolution.errorCode && details.errorMessage == resolution.errorMessage
    && details.flagMetadata.Some? && details.flagKey == Some(flagKey)
    && (if resolution.flagMetadata.Some? then details.flagMetadata == resolution.flagMetadata
        else details.flagMetadata.value == map[])
  }

  /** The default value with what was thrown, `GENERAL` if that has no code. */
  predicate IsError<V(==)>(details: Details<V>, flagKey: string, defaultValue: V, thrown: Thrown) {
    && details.value == Some(defaultValue) && details.variant == None && details.reason == Some("ERROR")
    && details.errorCode == (if thrown.code.Some? && thrown.code.value != "" then thrown.code else Some("GENERAL"))
    && details.errorMessage == thrown.message
    && details.flagMetadata == Some(map[]) && details.flagKey == Some(flagKey)
  }

  lemma BeforeChain<V>(log: seq<Call<V>>, provider: Provider<V>, context: Context, flagKey: string, k: nat)
    requires CalledBefore(log, provider.hooks, context) && k + 1 < |log|
    ensures Next(provider, flagKey, log[k]) == Some(log[k + 1])
  {
    NextProgress(provider.hooks, context, k);
  }

  /** The before hooks have all run, so the provider is called with what they made of the context. */
  lemma BeforeResolve<V>(provider: Provider<V>, context: Context, flagKey: string, k: nat)
    requires k + 1 == |provider.hooks| && BeforeHooks(provider.hooks, context, k + 1).thrown.None?
    ensures Next(provider, flagKey, Before(k, BeforeHooks(provider.hooks, context, k).context))
         == Some(Resolve(BeforeHooks(provider.hooks, context, k + 1).context))
  {
    NextProgress(provider.hooks, context, k);
  }

  lemma BeforeThrows<V>(log: seq<Call<V>>, provider: Provider<V>, context: Context, flagKey: string)
    requires CalledBefore(log, provider.hooks, context) && log != []
    requires BeforeHooks(provider.hooks, context, |log|).thrown.Some?
    ensures var p := BeforeHooks(provider.hooks, context, |log|);
            && log[|log| - 1].Before? && log[|log| - 1].context == p.context
            && ThrownBy(provider, log[|log| - 1]) == p.thrown
    ensures CallByCall(log, provider, context, flagKey)
  {
    NextProgress(provider.hooks, context, |log| - 1);
    forall k | 0 <= k < |log| - 1 ensures Next(provider, flagKey, log[k]) == Some(log[k + 1]) {
      BeforeChain(log, provider, context, flagKey, k);
    }
  }

  lemma AfterChain<V>(
      log: seq<Call<V>>, provider: Provider<V>, context: Context, details: Details<V>, flagKey: string, k: nat)
    requires CalledAfter(log, provider.hooks, context, details) && k + 1 < |log|
    ensures Next(provider, flagKey, log[k]) == Some(log[k + 1])
  {
    assert AfterHooks(provider.hooks, context, details, k + 1).None?;
  }

  lemma AfterEnds<V>(log: seq<Call<V>>, provider: Provider<V>, context: Context, details: Details<V>, flagKey: string)
    requires AfterTried(log, provider.hooks, context, details) && log != []
    ensures var last := log[|log| - 1];
            && last.After? && last.context == context && Next(provider, flagKey, last) == None
            && ThrownBy(provider, last) == AfterHooks(provider.hooks, context, details, |provider.hooks|)
  {
    if AfterHooks(provider.hooks, context, details, |provider.hooks|).None? {
      AfterHooksLast(provider.hooks, context, details);
    }
  }

  lemma AfterHooksLast<V>(hooks: seq<Hook<V>>, context: Context, details: Details<V>)
    requires hooks != [] && AfterHooks(hooks, context, details, |hooks|).None?
    ensures hooks[|hooks| - 1].after(context, details).None?
  {
  }

  /** Before hooks and the provider. */
  ghost predicate GotTo<V>(log: seq<Call<V>>, provider: Provider<V>, hookContext: Context, flagKey: string) {
    && log != [] && log[0] == (if provider.hooks == [] then Resolve(hookContext) else Before(0, hookContext))
    && (forall k :: 0 <= k < |log| - 1 ==> Next(provider, flagKey, log[k]) == Some(log[k + 1]))
    && log[|log| - 1] == Resolve(Reaching(provider, hookContext))
  }

  lemma ReachesProvider<V>(called: seq<Call<V>>, provider: Provider<V>, hookContext: Context, flagKey: string)
    requires CalledBefore(called, provider.hooks, hookContext) && |called| == |provider.hooks|
    requires BeforeHooks(provider.hooks, hookContext, |called|).thrown.None?
    ensures GotTo(called + [Resolve(Reaching(provider, hookContext))], provider, hookContext, flagKey)
  {
    var log := called + [Resolve(Reaching(provider, hookContext))];
    forall k | 0 <= k < |log| - 1 ensures Next(provider, flagKey, log[k]) == Some(log[k + 1]) {
      if k + 1 < |called| {
        BeforeChain(called, provider, hookContext, flagKey, k);
      } else {
        BeforeResolve(provider, hookContext, flagKey, k);
      }
    }
  }

  lemma ReachedAlone<V>(log: seq<Call<V>>, provider: Provider<V>, hookContext: Context, flagKey: string)
    requires GotTo(log, provider, hookContext, flagKey)
    requires provider.resolve(Reaching(provider, hookContext)).Throw? || provider.hooks == []
    ensures CallByCall(log, provider, hookContext, flagKey)
  {
  }

  lemma JoinedChain<V>(provider: Provider<V>, flagKey: string, a: seq<Call<V>>, b: seq<Call<V>>, k: nat)
    requires a != [] && b != [] && k < |a| + |b| - 1 && Next(provider, flagKey, a[|a| - 1]) == Some(b[0])
    requires forall i :: 0 <= i < |a| - 1 ==> Next(provider, flagKey, a[i]) == Some(a[i + 1])
    requires forall i :: 0 <= i < |b| - 1 ==> Next(provider, flagKey, b[i]) == Some(b[i + 1])
    ensures Next(provider, flagKey, (a + b)[k]) == Some((a + b)[k + 1])
  {
    if k >= |a| {
      assert (a + b)[k] == b[k - |a|] && (a + b)[k + 1] == b[k - |a| + 1];
    }
  }

  lemma ReachedAndAfter<V>(
      log: seq<Call<V>>, more: seq<Call<V>>, provider: Provider<V>, hookContext: Context, flagKey: string,
      details: Details<V>)
    requires GotTo(log, provider, hookContext, flagKey)
    requires provider.resolve(Reaching(provider, hookContext)).Return?
    requires details == Decorated(provider.resolve(Reaching(provider, hookContext)).value, flagKey)
    requires AfterTried(more, provider.hooks, Reaching(provider, hookContext), details) && more != []
    ensures CallByCall(log + more, provider, hookContext, flagKey)
  {
    var all, context := log + more, Reaching(provider, hookContext);
    AfterEnds(more, provider, context, details, flagKey);
    assert all[|all| - 1] == more[|more| - 1];
    forall k | 0 <= k < |more| - 1 ensures Next(provider, flagKey, more[k]) == Some(more[k + 1]) {
      AfterChain(more, provider, context, details, flagKey, k);
    }
    forall k | 0 <= k < |all| - 1 ensures Next(provider, flagKey, all[k]) == Some(all[k + 1]) {
      JoinedChain(provider, flagKey, log, more, k);
    }
  }

  /** How the last call of an attempt ends it. */
  ghost predicate EndsWith<V>(
      log: seq<Call<V>>, provider: Provider<V>, context: Context, flagKey: string, outcome: Outcome<Details<V>>)
    requires log != []
  {
    var last := log[|log| - 1];
    && (last.Before? || last.Resolve? || last.After?) && last.context == context
    && match outcome
       case Throw(e) => ThrownBy(provider, last) == Some(e)
       case Return(details) =>
         && ThrownBy(provider, last).None? && provider.resolve(context).Return?
         && details == Decorated(provider.resolve(context).value, flagKey)
  }

  method TryProvider<V>(provider: Provider<V>, hookContext: Context, flagKey: string)
    returns (context: Context, outcome: Outcome<Details<V>>, log: seq<Call<V>>)
    ensures outcome == Attempt(provider, hookContext, flagKey) && context == Reaching(provider, hookContext)
    ensures CallByCall(log, provider, hookContext, flagKey) && EndsWith(log, provider, context, flagKey, outcome)
  {
    var p, called := RunBeforeHooks(provider.hooks, hookContext);
    context, log := p.context, called;
    if p.thrown.Some? {
      assert |called| > 0;
      BeforeThrows(called, provider, hookContext, flagKey);
      outcome := Throw(p.thrown.value);
      return;
    }
    log := log + [Resolve(context)];
    ReachesProvider(called, provider, hookContext, flagKey);
    outcome := provider.resolve(context);
    if outcome.Throw? {
      ReachedAlone(log, provider, hookContext, flagKey);
      return;
    }
    var details := Decorated(outcome.value, flagKey);
    outcome, log := RunAndAppendAfterHooks(provider, hookContext, flagKey, details, log);
  }

  /** The after hooks, and how the attempt ends. */
  method RunAndAppendAfterHooks<V>(
      provider: Provider<V>, hookContext: Context, flagKey: string, details: Details<V>, called: seq<Call<V>>)
    returns (outcome: Outcome<Details<V>>, log: seq<Call<V>>)
    requires GotTo(called, provider, hookContext, flagKey)
    requires BeforeHooks(provider.hooks, hookContext, |provider.hooks|).thrown.None?
    requires provider.resolve(Reaching(provider, hookContext)).Return?
    requires details == Decorated(provider.resolve(Reaching(provider, hookContext)).value, flagKey)
    ensures outcome == Attempt(provider, hookContext, flagKey)
    ensures CallByCall(log, provider, hookContext, flagKey)
    ensures EndsWith(log, provider, Reaching(provider, hookContext), flagKey, outcome)
  {
    var context := Reaching(provider, hookContext);
    var thrown, more := RunAfterHooks(provider.hooks, context, details);
    outcome := if thrown.Some? then Throw(thrown.value) else Return(details);
    log := called + more;
    if more == [] {
      assert log == called;
      ReachedAlone(log, provider, hookContext, flagKey);
    } else {
      ReachedAndAfter(called, more, provider, hookContext, flagKey, details);
      AfterEnds(more, provider, context, details, flagKey);
      assert log[|log| - 1] == more[|more| - 1];
    }
  }

  /**
   The first `m` calls are the attempt. If its last call throws, all error hooks follow with that error and the
   details are the default value with it; otherwise they are the decorated result of the provider. All finally
   hooks come last. Error and finally hooks see the context of the attempt's last call.
   */
  ghost predicate Accounted<V>(
      log: seq<Call<V>>, m: nat, provider: Provider<V>, hookContext: Context, flagKey: string, defaultValue: V,
      details: Details<V>)
  {
    && 0 < m <= |log| && CallByCall(log[..m], provider, hookContext, flagKey)
    && (log[m - 1].Before? || log[m - 1].Resolve? || log[m - 1].After?)
    && var n, context := |provider.hooks|, log[m - 1].context;
       match ThrownBy(provider, log[m - 1])
       case Some(e) =>
         && IsError(details, flagKey, defaultValue, e) && |log| == m + 2 * n
         && forall k :: 0 <= k < n ==>
              log[m + k] == OnError(k, context, e) && log[m + n + k] == Finally(k, context, details)
       case None =>
         && provider.resolve(context).Return? && IsDecorated(details, provider.resolve(context).value, flagKey)
         && |log| == m + n && forall k :: 0 <= k < n ==> log[m + k] == Finally(k, context, details)
  }

  lemma DecoratedMeans<V>(resolution: Details<V>, flagKey: string)
    ensures IsDecorated(Decorated(resolution, flagKey), resolution, flagKey)
  {
  }

  lemma ErrorDetailsMean<V>(flagKey: string, defaultValue: V, e: Thrown)
    ensures IsError(ErrorDetails(flagKey, defaultValue, e), flagKey, defaultValue, e)
  {
  }

  lemma ThreeParts<T>(a: seq<T>, b: seq<T>, c: seq<T>)
    ensures var all := a + b + c;
            && all[..|a|] == a && (forall k :: 0 <= k < |b| ==> all[|a| + k] == b[k])
            && (forall k :: 0 <= k < |c| ==> all[|a| + |b| + k] == c[k])
  {
  }

  lemma FailureAccounted<V>(
      attempted: seq<Call<V>>, failed: seq<Call<V>>, last: seq<Call<V>>, provider: Provider<V>, hookContext: Context,
      flagKey: string, defaultValue: V, context: Context, e: Thrown)
    requires CallByCall(attempted, provider, hookContext, flagKey)
    requires EndsWith(attempted, provider, context, flagKey, Throw(e))
    requires |failed| == |last| == |provider.hooks|
    requires forall k :: 0 <= k < |failed| ==> failed[k] == OnError(k, context, e)
    requires forall k :: 0 <= k < |last| ==> last[k] == Finally(k, context, ErrorDetails(flagKey, defaultValue, e))
    ensures Accounted(attempted + failed + last, |attempted|, provider, hookContext, flagKey, defaultValue,
                      ErrorDetails(flagKey, defaultValue, e))
  {
    ThreeParts(attempted, failed, last);
    ErrorDetailsMean(flagKey, defaultValue, e);
    assert (attempted + failed + last)[|attempted| - 1] == attempted[|attempted| - 1];
  }

  lemma SuccessAccounted<V>(
      attempted: seq<Call<V>>, last: seq<Call<V>>, provider: Provider<V>, hookContext: Context,
      flagKey: string, defaultValue: V, context: Context, details: Details<V>)
    requires CallByCall(attempted, provider, hookContext, flagKey)
    requires EndsWith(attempted, provider, context, flagKey, Return(details))
    requires |last| == |provider.hooks| && forall k :: 0 <= k < |last| ==> last[k] == Finally(k, context, details)
    ensures Accounted(attempted + last, |attempted|, provider, hookContext, flagKey, defaultValue, details)
  {
    ThreeParts(attempted, [], last);
    assert attempted + [] + last == attempted + last;
    DecoratedMeans(provider.resolve(context).value, flagKey);
    assert (attempted + last)[|attempted| - 1] == attempted[|attempted| - 1];
  }

  method EvaluateProviderAndHooks<V>(provider: Provider<V>, hookContext: Context, flagKey: string, defaultValue: V)
    returns (details: Details<V>, log: seq<Call<V>>)
    ensures details == Settled(provider, hookContext, flagKey, defaultValue)
    ensures exists m: nat :: Accounted(log, m, provider, hookContext, flagKey, defaultValue, details)
  {
    var context, outcome, attempted := TryProvider(provider, hookContext, flagKey);
    match outcome {
      case Return(value) =>
        details := value;
        var last := RunFinallyHooks(provider.hooks, context, details);
        SuccessAccounted(attempted, last, provider, hookContext, flagKey, defaultValue, context, details);
        log := attempted + last;
      case Throw(e) =>
        var failed := RunErrorHooks(provider.hooks, context, e);
        details := ErrorDetails(flagKey, defaultValue, e);
        var last := RunFinallyHooks(provider.hooks, context, details);
        FailureAccounted(attempted, failed, last, provider, hookContext, flagKey, defaultValue, context, e);
        log := attempted + failed + last;
    }
  }

  /** The `k`-th call of an attempt. */
  ghost predicate CallIs<V>(
      call: Call<V>, k: nat, provider: Provider<V>, hookContext: Context, flagKey: string)
  {
    var hooks, n := provider.hooks, |provider.hooks|;
    if k < n then
      call == Before(k, BeforeHooks(hooks, hookContext, k).context) && BeforeHooks(hooks, hookContext, k).thrown.None?
    else
      var p := BeforeHooks(hooks, hookContext, n);
      && p.thrown.None?
      && if k == n then call == Resolve(p.context)
         else
           && k <= 2 * n && provider.resolve(p.context).Return?
           && var details := Decorated(provider.resolve(p.context).value, flagKey);
              && call == After(k - n - 1, p.context, details)
              && AfterHooks(hooks, p.context, details, k - n - 1).None?
  }

  lemma NextCallIs<V>(
      call: Call<V>, next: Call<V>, k: nat, provider: Provider<V>, hookContext: Context, flagKey: string)
    requires CallIs(call, k, provider, hookContext, flagKey) && Next(provider, flagKey, call) == Some(next)
    ensures CallIs(next, k + 1, provider, hookContext, flagKey)
  {
    if k < |provider.hooks| {
      NextProgress(provider.hooks, hookContext, k);
    }
  }

  lemma {:induction false} CallAt<V>(
      log: seq<Call<V>>, provider: Provider<V>, hookContext: Context, flagKey: string, k: nat)
    requires CallByCall(log, provider, hookContext, flagKey) && k < |log|
    ensures CallIs(log[k], k, provider, hookContext, flagKey)
  {
    if k > 0 {
      CallAt(log, provider, hookContext, flagKey, k - 1);
      assert Next(provider, flagKey, log[k - 1]) == Some(log[k]);
      NextCallIs(log[k - 1], log[k], k - 1, provider, hookContext, flagKey);
    }
  }

  /** The last call decides how the attempt ends. */
  lemma LastCallDecides<V>(last: Call<V>, k: nat, provider: Provider<V>, hookContext: Context, flagKey: string)
    requires CallIs(last, k, provider, hookContext, flagKey) && Next(provider, flagKey, last) == None
    ensures match ThrownBy(provider, last)
            case Some(e) => Attempt(provider, hookContext, flagKey) == Throw(e)
            case None =>
              && (last.Resolve? || last.After?) && provider.resolve(last.context).Return?
              && Attempt(provider, hookContext, flagKey)
                 == Return(Decorated(provider.resolve(last.context).value, flagKey))
  {
    var hooks, n := provider.hooks, |provider.hooks|;
    if k < n {
      NextProgress(hooks, hookContext, k);
      BeforeHooksStop(hooks, hookContext, k + 1, n);
    } else if k > n && ThrownBy(provider, last).Some? {
      var p := BeforeHooks(hooks, hookContext, n);
      AfterHooksStop(hooks, p.context, last.details, k - n, n);
    }
  }

  /**
   The details of every provider: the default value with an error code if the last call of the attempt throws, and
   the decorated result otherwise.
   */
  lemma ThrowsBecomeErrorCodes<V>(
      log: seq<Call<V>>, provider: Provider<V>, hookContext: Context, flagKey: string, defaultValue: V)
    requires CallByCall(log, provider, hookContext, flagKey)
    ensures var details, last := Settled(provider, hookContext, flagKey, defaultValue), log[|log| - 1];
            match ThrownBy(provider, last)
            case Some(e) => IsError(details, flagKey, defaultValue, e) && Truthy(details.errorCode)
            case None =>
              && (last.Resolve? || last.After?) && provider.resolve(last.context).Return?
              && IsDecorated(details, provider.resolve(last.context).value, flagKey)
  {
    var last := log[|log| - 1];
    CallAt(log, provider, hookContext, flagKey, |log| - 1);
    LastCallDecides(last, |log| - 1, provider, hookContext, flagKey);
    match ThrownBy(provider, last)
    case Some(e) =>
      ErrorDetailsMean(flagKey, defaultValue, e);
      assert |GENERAL| > 0;
    case None => DecoratedMeans(provider.resolve(last.context).value, flagKey);
  }

  /** What the `i`-th before hook returned. */
  function Added<V>(hooks: seq<Hook<V>>, context: Context, i: nat): Context
    requires i < |hooks|
  {
    match hooks[i].before(BeforeHooks(hooks, context, i).context)
    case Return(more) => more
    case Throw(_) => map[]
  }

  predicate Adds<V>(hooks: seq<Hook<V>>, context: Context, i: nat, key: string)
    requires i < |hooks|
  {
    key in Added(hooks, context, i)
  }

  lemma BeforeHooksStep<V>(hooks: seq<Hook<V>>, context: Context, n: nat)
    requires 0 < n <= |hooks| && BeforeHooks(hooks, context, n).thrown.None?
    ensures BeforeHooks(hooks, context, n - 1).thrown.None?
    ensures BeforeHooks(hooks, context, n).context
         == BeforeHooks(hooks, context, n - 1).context + Added(hooks, context, n - 1)
  {
  }

  /** What the provider is called with: of its own before hooks, the last one to give a key wins. */
  lemma {:induction false} LastHookWins<V>(hooks: seq<Hook<V>>, context: Context, n: nat, key: string, i: nat)
    requires i < n <= |hooks| && BeforeHooks(hooks, context, n).thrown.None?
    requires Adds(hooks, context, i, key) && forall j :: i < j < n ==> !Adds(hooks, context, j, key)
    ensures var final := BeforeHooks(hooks, context, n).context;
            key in final && final[key] == Added(hooks, context, i)[key]
  {
    BeforeHooksStep(hooks, context, n);
    if i < n - 1 {
      LastHookWins(hooks, context, n - 1, key, i);
      assert !Adds(hooks, context, n - 1, key);
    }
  }

  /** Keys that no hook of the provider gives are those of the shared context. */
  lemma {:induction false} OtherKeysAreShared<V>(hooks: seq<Hook<V>>, context: Context, n: nat, key: string)
    requires n <= |hooks| && BeforeHooks(hooks, context, n).thrown.None?
    requires forall j :: 0 <= j < n ==> !Adds(hooks, context, j, key)
    ensures var final := BeforeHooks(hooks, context, n).context;
            (key in final <==> key in context) && (key in context ==> final[key] == context[key])
  {
    if n == 0 {
    } else {
      BeforeHooksStep(hooks, context, n);
      OtherKeysAreShared(hooks, context, n - 1, key);
      assert !Adds(hooks, context, n - 1, key);
    }
  }

  // ----- all providers -----

  datatype Strategy = InTurn(order: Sequential) | Parallel(fallback: nat)

  /** What a provider contributes: nothing if its status rules it out. */
  function OutcomeOf<V>(entry: Entry<V>, context: Context, flagKey: string, defaultValue: V): Option<Resolution<V>> {
    if ShouldEvaluateThisProvider(entry.status)
    then Some(Resolved(entry.name, entry.provider.id, Settled(entry.provider, context, flagKey, defaultValue)))
    else None
  }

  function Outcomes<V>(entries: seq<Entry<V>>, context: Context, flagKey: string, defaultValue: V)
    : (outcomes: seq<Option<Resolution<V>>>)
    ensures |outcomes| == |entries|
    ensures forall i :: 0 <= i < |entries| ==> outcomes[i] == OutcomeOf(entries[i], context, flagKey, defaultValue)
  {
    if entries == [] then []
    else
      var front := Outcomes(entries[..|entries| - 1], context, flagKey, defaultValue);
      front + [OutcomeOf(entries[|entries| - 1], context, flagKey, defaultValue)]
  }

  predicate GoesOn<V>(strategy: Strategy, outcome: Option<Resolution<V>>) {
    strategy.InTurn? ==> !Decisive(strategy.order, outcome)
  }

  /** The calls made to an entry. */
  ghost predicate Called<V>(
      log: seq<Call<V>>, entry: Entry<V>, context: Context, flagKey: string, defaultValue: V, details: Details<V>)
  {
    exists m: nat :: Accounted(log, m, entry.provider, context, flagKey, defaultValue, details)
  }

  ghost predicate CalledOrPassed<V>(
      log: seq<Call<V>>, entry: Entry<V>, context: Context, flagKey: string, defaultValue: V,
      outcome: Option<Resolution<V>>)
  {
    if outcome.None? then log == []
    else outcome.value.Resolved? && Called(log, entry, context, flagKey, defaultValue, outcome.value.details)
  }

  method EvaluateProviderEntry<V>(
      entry: Entry<V>, strategy: Strategy, context: Context, flagKey: string, defaultValue: V)
    returns (shouldEvaluateNext: bool, resolution: Option<Resolution<V>>, log: seq<Call<V>>)
    ensures resolution == OutcomeOf(entry, context, flagKey, defaultValue)
    ensures shouldEvaluateNext == GoesOn(strategy, resolution)
    ensures if entry.status in {Some(NOT_READY), Some(FATAL)} then resolution.None? && log == [] && shouldEvaluateNext
            else
              && resolution.Some? && resolution.value.Resolved? && resolution.value.providerName == entry.name
              && Called(log, entry, context, flagKey, defaultValue, resolution.value.details)
  {
    if !ShouldEvaluateThisProvider(entry.status) {
      return true, None, [];
    }
    var details, calls := EvaluateProviderAndHooks(entry.provider, context, flagKey, defaultValue);
    var r := Resolved(entry.name, entry.provider.id, details);
    shouldEvaluateNext := if strategy.InTurn? then ShouldEvaluateNext(strategy.order, r) else true;
    resolution, log := Some(r), calls;
  }

  method FilterGiven<V>(results: seq<Option<Resolution<V>>>) returns (resolutions: seq<Resolution<V>>)
    ensures resolutions == Given(results)
  {
    resolutions := [];
    for i := 0 to |results|
      invariant resolutions == Given(results[..i])
    {
      assert results[..i + 1][..i] == results[..i];
      if results[i].Some? {
        resolutions := resolutions + [results[i].value];
      }
    }
    assert results[..|results|] == results;
  }

  method Determine<V(==)>(strategy: Strategy, resolutions: seq<Resolution<V>>) returns (final: FinalResult<V>)
    ensures final == match strategy
                     case InTurn(_) => LastDecides(resolutions)
                     case Parallel(fallback) => Compared(resolutions, fallback)
  {
    match strategy
    case Parallel(fallback) =>
      var mismatch;
      final, mismatch := DetermineFinalResult(resolutions, fallback);
    case InTurn(_) =>
      if |resolutions| == 0 {
        final := Thrower(TypeError);
      } else if HasError(resolutions[|resolutions| - 1]) {
        final := CollectProviderErrors(resolutions);
      } else {
        final := Final(Some(resolutions[|resolutions| - 1].details), []);
      }
  }

  /** How many entries are evaluated. */
  function Asked<V>(strategy: Strategy, outcomes: seq<Option<Resolution<V>>>): (n: nat)
    ensures n <= |outcomes|
  {
    if strategy.InTurn? then Reached(strategy.order, outcomes) else |outcomes|
  }

  /** The declarative form of an evaluation. */
  ghost function Evaluated<V>(strategy: Strategy, outcomes: seq<Option<Resolution<V>>>): Evaluation<V> {
    match strategy
    case InTurn(order) => InSequence(order, outcomes)
    case Parallel(fallback) => Conclude(Compared(Given(outcomes), fallback))
  }

  ghost predicate AllCalledOrPassed<V>(
      entries: seq<Entry<V>>, context: Context, flagKey: string, defaultValue: V,
      tasks: seq<Option<Resolution<V>>>, logs: seq<seq<Call<V>>>)
  {
    && |logs| == |tasks| <= |entries|
    && forall i :: 0 <= i < |logs| ==> CalledOrPassed(logs[i], entries[i], context, flagKey, defaultValue, tasks[i])
  }

  lemma OneMoreCalled<V>(
      entries: seq<Entry<V>>, context: Context, flagKey: string, defaultValue: V,
      tasks: seq<Option<Resolution<V>>>, logs: seq<seq<Call<V>>>, task: Option<Resolution<V>>, log: seq<Call<V>>)
    requires AllCalledOrPassed(entries, context, flagKey, defaultValue, tasks, logs) && |logs| < |entries|
    requires CalledOrPassed(log, entries[|logs|], context, flagKey, defaultValue, task)
    ensures AllCalledOrPassed(entries, context, flagKey, defaultValue, tasks + [task], logs + [log])
  {
  }

  /** Evaluates the entries until one decides; `logs[i]` are the calls made to entry `i`. */
  method EvaluateEntries<V>(
      entries: seq<Entry<V>>, strategy: Strategy, context: Context, flagKey: string, defaultValue: V)
    returns (tasks: seq<Option<Resolution<V>>>, logs: seq<seq<Call<V>>>)
    ensures var outcomes := Outcomes(entries, context, flagKey, defaultValue);
            && tasks == outcomes[..Asked(strategy, outcomes)] && |logs| == |tasks|
            && AllCalledOrPassed(entries, context, flagKey, defaultValue, tasks, logs)
  {
    tasks, logs := [], [];
    for i := 0 to |entries|
      invariant |logs| == |tasks| == i
      invariant forall j :: 0 <= j < i ==> tasks[j] == OutcomeOf(entries[j], context, flagKey, defaultValue)
      invariant forall j :: 0 <= j < i ==> GoesOn(strategy, tasks[j])
      invariant AllCalledOrPassed(entries, context, flagKey, defaultValue, tasks, logs)
    {
      var next, resolution, log := EvaluateProviderEntry(entries[i], strategy, context, flagKey, defaultValue);
      OneMoreCalled(entries, context, flagKey, defaultValue, tasks, logs, resolution, log);
      tasks, logs := tasks + [resolution], logs + [log];
      if strategy.InTurn? && !next {
        break;
      }
    }
    AskedIsReached(strategy, Outcomes(entries, context, flagKey, defaultValue), tasks);
  }

  lemma AskedIsReached<V>(strategy: Strategy, outcomes: seq<Option<Resolution<V>>>, tasks: seq<Option<Resolution<V>>>)
    requires |tasks| <= |outcomes| && forall j :: 0 <= j < |tasks| ==> tasks[j] == outcomes[j]
    requires forall j :: 0 <= j < |tasks| - 1 ==> GoesOn(strategy, tasks[j])
    requires |tasks| == |outcomes| || (tasks != [] && !GoesOn(strategy, tasks[|tasks| - 1]))
    ensures tasks == outcomes[..Asked(strategy, outcomes)]
  {
    assert tasks == outcomes[..|tasks|];
    if tasks != [] && !GoesOn(strategy, tasks[|tasks| - 1]) {
      assert forall j :: 0 <= j < |tasks| - 1 ==> GoesOn(strategy, outcomes[j]);
      ReachedDecisive(strategy.order, outcomes, |tasks| - 1);
    }
  }

  /** Without the context of the hooks, nothing is evaluated. */
  method FlagResolutionProxy<V(==)>(
      entries: seq<Entry<V>>, strategy: Strategy, hookContext: Option<Context>, flagKey: string, defaultValue: V)
    returns (r: Evaluation<V>, logs: seq<seq<Call<V>>>)
    ensures hookContext.None? ==> r == Raised(GeneralError("Hook context not available for evaluation")) && logs == []
    ensures hookContext.Some? ==>
              var outcomes := Outcomes(entries, hookContext.value, flagKey, defaultValue);
              && r == Evaluated(strategy, outcomes)
              && |logs| == Asked(strategy, outcomes)
              && forall i :: 0 <= i < |logs| ==>
                   CalledOrPassed(logs[i], entries[i], hookContext.value, flagKey, defaultValue, outcomes[i])
  {
    if hookContext.None? {
      return Raised(GeneralError("Hook context not available for evaluation")), [];
    }
    ghost var outcomes := Outcomes(entries, hookContext.value, flagKey, defaultValue);
    var tasks;
    tasks, logs := EvaluateEntries(entries, strategy, hookContext.value, flagKey, defaultValue);
    assert outcomes[..|outcomes|] == outcomes;
    var resolutions := FilterGiven(tasks);
    var final := Determine(strategy, resolutions);
    r := Conclude(final);
  }

  // ----- what it comes to -----

  predicate Eligible<V>(entry: Entry<V>) {
    entry.status != Some(NOT_READY) && entry.status != Some(FATAL)
  }

  predicate IsCode(code: Option<string>) {
    code.Some? && code.value != ""
  }

  function SettledBy<V>(entry: Entry<V>, context: Context, flagKey: string, defaultValue: V): Details<V> {
    Settled(entry.provider, context, flagKey, defaultValue)
  }

  /**
   First match: the first eligible provider whose outcome is not "flag not found" decides. Its details are
   the result, unless they are an error; then all errors so far are raised. Nobody after it is asked.
   */
  lemma FirstMatchDecides<V>(entries: seq<Entry<V>>, context: Context, flagKey: string, defaultValue: V, i: nat)
    requires i < |entries| && Eligible(entries[i])
    requires SettledBy(entries[i], context, flagKey, defaultValue).errorCode != Some("FLAG_NOT_FOUND")
    requires forall j :: 0 <= j < i && Eligible(entries[j]) ==>
               SettledBy(entries[j], context, flagKey, defaultValue).errorCode == Some("FLAG_NOT_FOUND")
    ensures var outcomes := Outcomes(entries, context, flagKey, defaultValue);
            var details := SettledBy(entries[i], context, flagKey, defaultValue);
            && Asked(InTurn(FirstMatch), outcomes) == i + 1
            && var r := Evaluated(InTurn(FirstMatch), outcomes);
               if IsCode(details.errorCode) then ReportsAll(r, Given(outcomes[..i + 1])) else r == Ok(details)
  {
    var outcomes := Outcomes(entries, context, flagKey, defaultValue);
    forall j | 0 <= j < i ensures !Decisive(FirstMatch, outcomes[j]) {
      assert Eligible(entries[j]) || outcomes[j].None?;
    }
    DecisiveAnswerWins(FirstMatch, outcomes, i);
  }

  /** First successful: the first eligible provider without an error decides, and nobody after it is asked. */
  lemma FirstSuccessDecides<V>(entries: seq<Entry<V>>, context: Context, flagKey: string, defaultValue: V, i: nat)
    requires i < |entries| && Eligible(entries[i])
    requires !IsCode(SettledBy(entries[i], context, flagKey, defaultValue).errorCode)
    requires forall j :: 0 <= j < i && Eligible(entries[j]) ==>
               IsCode(SettledBy(entries[j], context, flagKey, defaultValue).errorCode)
    ensures var outcomes := Outcomes(entries, context, flagKey, defaultValue);
            && Asked(InTurn(FirstSuccessful), outcomes) == i + 1
            && Evaluated(InTurn(FirstSuccessful), outcomes) == Ok(SettledBy(entries[i], context, flagKey, defaultValue))
  {
    var outcomes := Outcomes(entries, context, flagKey, defaultValue);
    forall j | 0 <= j < i ensures !Decisive(FirstSuccessful, outcomes[j]) {
      assert Eligible(entries[j]) || outcomes[j].None?;
    }
    DecisiveAnswerWins(FirstSuccessful, outcomes, i);
  }

  /** Otherwise every eligible provider is asked, and the errors of all of them are raised, one for each. */
  lemma NobodyDecidesInTurn<V>(
      order: Sequential, entries: seq<Entry<V>>, context: Context, flagKey: string, defaultValue: V)
    requires forall j :: 0 <= j < |entries| && Eligible(entries[j]) ==>
               var code := SettledBy(entries[j], context, flagKey, defaultValue).errorCode;
               if order.FirstMatch? then code == Some("FLAG_NOT_FOUND") else IsCode(code)
    ensures var outcomes := Outcomes(entries, context, flagKey, defaultValue);
            && Asked(InTurn(order), outcomes) == |entries|
            && if exists j :: 0 <= j < |entries| && Eligible(entries[j])
               then ReportsAll(Evaluated(InTurn(order), outcomes), Given(outcomes))
               else Evaluated(InTurn(order), outcomes) == Raised(TypeError)
  {
    var outcomes := Outcomes(entries, context, flagKey, defaultValue);
    forall j | 0 <= j < |outcomes| ensures !Decisive(order, outcomes[j]) {
      assert Eligible(entries[j]) || outcomes[j].None?;
    }
    NoDecisiveAnswer(order, outcomes);
    GivenHolds(outcomes);
    if j :| 0 <= j < |entries| && Eligible(entries[j]) {
      assert outcomes[j].Some?;
    } else {
      NothingGiven(outcomes);
    }
  }

  lemma NothingGiven<V>(outcomes: seq<Option<Resolution<V>>>)
    requires forall j :: 0 <= j < |outcomes| ==> outcomes[j].None?
    ensures Given(outcomes) == []
  {
    GivenHolds(outcomes);
  }

  /** In turn, whatever is raised is the errors of eligible providers, unless none is eligible. */
  lemma RaisedInTurn<V>(order: Sequential, entries: seq<Entry<V>>, context: Context, flagKey: string, defaultValue: V)
    requires Evaluated(InTurn(order), Outcomes(entries, context, flagKey, defaultValue)).Raised?
    ensures match Evaluated(InTurn(order), Outcomes(entries, context, flagKey, defaultValue)).failure
            case TypeError => forall j :: 0 <= j < |entries| ==> !Eligible(entries[j])
            case AggregateError(errors) => errors != []
            case GeneralError(_) => false
  {
    var outcomes := Outcomes(entries, context, flagKey, defaultValue);
    if i: nat :| Decides(order, outcomes, i) {
      DecisiveAnswerWins(order, outcomes, i);
      LastGiven(outcomes, i);
    } else {
      NobodyDecides(order, outcomes, |outcomes|);
      NoDecisiveAnswer(order, outcomes);
      GivenHolds(outcomes);
    }
  }

  /**
   With the statuses that the tracker has recorded when their turn comes, all providers are eligible; so an
   evaluation in turn fails with a TypeError only if no provider is registered.
   */
  lemma TypeErrorMeansNoProviders<V>(
      order: Sequential, entries: seq<Entry<V>>, histories: seq<seq<StatusTracker.Received>>,
      context: Context, flagKey: string, defaultValue: V)
    requires |histories| == |entries|
    requires forall j :: 0 <= j < |entries| ==>
               entries[j].status == StatusTracker.ProviderStatus(StatusTracker.Run(histories[j]), entries[j].name)
    ensures Evaluated(InTurn(order), Outcomes(entries, context, flagKey, defaultValue)) == Raised(TypeError) <==>
              entries == []
  {
    forall j | 0 <= j < |entries| ensures Eligible(entries[j]) {
      StatusTracker.EveryProviderStaysEligible(histories[j], entries[j].name);
    }
    if entries != [] {
      assert Eligible(entries[0]);
      if Evaluated(InTurn(order), Outcomes(entries, context, flagKey, defaultValue)).Raised? {
        RaisedInTurn(order, entries, context, flagKey, defaultValue);
      }
    }
  }
}
