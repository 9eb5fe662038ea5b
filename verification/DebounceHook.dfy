/**
 The debounce hook around an inner hook with synchronous stages that do not call the
 hook again. A call happens at `start`; if the inner stage runs, its result is cached
 at `finish`.
 */
module DebounceHook {
  import opened ExpiringCache

  datatype Stage = Before | After | Error | Finally

  type EvaluationContext = map<string, string>

  /** What the inner stage does when it runs. */
  datatype Outcome = Returns(context: Option<EvaluationContext>) | Throws(error: string)

  /** What the caller sees: `ThrewCached` is the cached error, which wraps the original one. */
  datatype Response =
    | Returned(context: Option<EvaluationContext>)
    | Threw(error: string)
    | ThrewCached(innerError: string)

  /** One stage's slot of a cache entry: a context, the mere fact that the stage ran, or an error. */
  datatype StageResult = Context(context: EvaluationContext) | Ran | CachedError(innerError: string)

  type Entry = map<Stage, StageResult>

  /** The key supplier gives a key, gives nothing, or throws; an empty key counts as nothing. */
  datatype Supplied = Key(key: string) | Nothing | SupplierThrew

  datatype Call = Call(stage: Stage, supplied: Supplied, inner: Outcome, start: int, finish: int)

  datatype Options = Options(maxCacheItems: int, debounceTime: int, cacheErrors: bool)

  function KeyOf(c: Call): string {
    match c.supplied
    case Key(key) => key
    case _ => ""
  }

  function Record(inner: Outcome): StageResult {
    match inner
    case Returns(Some(context)) => Context(context)
    case Returns(None) => Ran
    case Throws(error) => CachedError(error)
  }

  function Replay(r: StageResult): Response {
    match r
    case Context(context) => Returned(Some(context))
    case Ran => Returned(None)
    case CachedError(e) => ThrewCached(e)
  }

  function Direct(inner: Outcome): Response {
    match inner
    case Returns(context) => Returned(context)
    case Throws(error) => Threw(error)
  }

  /** A result is cached unless it is an error and errors are not. */
  predicate Cached(inner: Outcome, o: Options) {
    inner.Returns? || o.cacheErrors
  }

  // ----- runs of the hook as histories of its cache -----

  function Found(ops: seq<Op<Entry>>, c: Call, o: Options): Option<Entry> {
    Lookup(Run(ops, o.maxCacheItems, o.debounceTime), KeyOf(c), c.start)
  }

  predicate Hit(ops: seq<Op<Entry>>, c: Call, o: Options) {
    var got := Found(ops, c, o);
    got.Some? && c.stage in got.value
  }

  function Merged(got: Option<Entry>, stage: Stage, r: StageResult): Entry {
    (if got.Some? then got.value else map[])[stage := r]
  }

  /** The cache operations of one call. */
  function CallOps(ops: seq<Op<Entry>>, c: Call, o: Options): seq<Op<Entry>> {
    var key := KeyOf(c);
    if key == "" then []
    else if Hit(ops, c, o) || !Cached(c.inner, o) then [Get(key, c.start)]
    else [Get(key, c.start), Set(key, Merged(Found(ops, c, o), c.stage, Record(c.inner)), c.finish)]
  }

  function Ops(calls: seq<Call>, o: Options): seq<Op<Entry>> {
    if calls == [] then []
    else
      var front := Ops(calls[..|calls| - 1], o);
      front + CallOps(front, calls[|calls| - 1], o)
  }

  /** Call `i` is answered from the cache. */
  predicate Skipped(calls: seq<Call>, i: nat, o: Options)
    requires i < |calls|
  {
    Hit(Ops(calls[..i], o), calls[i], o)
  }

  /** Calls do not overlap and the clock does not run backwards. */
  ghost predicate InOrder(calls: seq<Call>, clock: int) {
    && (forall i :: 0 <= i < |calls| ==> calls[i].start <= calls[i].finish <= clock)
    && (forall i, j :: 0 <= i < j < |calls| ==> calls[i].finish <= calls[j].start)
  }

  ghost predicate ValidOptions(o: Options) {
    o.maxCacheItems >= 1 && o.debounceTime >= 1
  }

  // ----- the class -----

  class DebounceHook {
    const cache: FixedSizeExpiringCache<Entry>
    const options: Options
    ghost var calls: seq<Call>

    ghost predicate Valid()
      reads this, cache
    {
      && cache.Valid() && cache.history == Ops(calls, options)
      && cache.maxItems == options.maxCacheItems && cache.ttl == options.debounceTime
    }

    constructor (options: Options)
      requires ValidOptions(options)
      ensures Valid() && calls == [] && this.options == options && fresh(cache)
    {
      this.options := options;
      calls := [];
      cache := new FixedSizeExpiringCache<Entry>(options.maxCacheItems, options.debounceTime);
    }

    /** `inner` is what the inner stage does if it is run, and `ran` tells whether it was. */
    method MaybeSkipAndCache(stage: Stage, supplied: Supplied, inner: Outcome, start: int, finish: int)
      returns (r: Response, ran: bool)
      requires Valid()
      modifies this, cache
      ensures Valid()
      ensures calls == old(calls) + [Call(stage, supplied, inner, start, finish)]
      ensures ran == !Skipped(calls, |old(calls)|, options)
      ensures ran ==> r == match inner
                           case Returns(context) => Returned(context)
                           case Throws(error) => Threw(error)
      ensures !ran ==> supplied.Key? && supplied.key != ""
      ensures InOrder(old(calls), start) && !ran ==> RepeatsRun(old(calls), supplied.key, stage, r, options)
    {
      ghost var call := Call(stage, supplied, inner, start, finish);
      ghost var before := calls;
      calls := calls + [call];
      OpsAppend(before, call, options);
      var cacheKey := "";
      match supplied {
        case Key(key) => cacheKey := key;
        case Nothing =>
        case SupplierThrew =>
      }
      if cacheKey == "" {
        ran := true;
        r := Direct(inner);
        return;
      }
      var got := cache.Get(cacheKey, start);
      CallOpsOf(Ops(before, options), call, options);
      if got.Some? && stage in got.value {
        if InOrder(before, start) {
          SkippedRepeatsLastRun(before, call, options);
          assert KeyOf(call) == supplied.key;
        }
        return Replay(got.value[stage]), false;
      }
      ran := true;
      r := RunAndCache(cacheKey, stage, got, inner, finish);
    }

    /** Runs the inner stage, and caches its result. */
    method RunAndCache(key: string, stage: Stage, got: Option<Entry>, inner: Outcome, finish: int) returns (r: Response)
      requires cache.Valid()
      modifies cache
      ensures cache.Valid() && r == Direct(inner)
      ensures cache.history == if Cached(inner, options)
                               then old(cache.history) + [Op.Set(key, Merged(got, stage, Record(inner)), finish)]
                               else old(cache.history)
    {
      r := Direct(inner);
      if inner.Returns? {
        CacheSuccess(key, stage, got, inner.context, finish);
      } else {
        CacheError(key, stage, got, inner.error, finish);
      }
    }

    method CacheSuccess(
        key: string, stage: Stage, cached: Option<Entry>, maybeContext: Option<EvaluationContext>, now: int)
      requires cache.Valid()
      modifies cache
      ensures cache.Valid()
      ensures cache.history
           == old(cache.history) + [Op.Set(key, Merged(cached, stage, Record(Returns(maybeContext))), now)]
    {
      var result := if maybeContext.Some? then Context(maybeContext.value) else Ran;
      cache.Set(key, (if cached.Some? then cached.value else map[])[stage := result], now);
    }

    method CacheError(key: string, stage: Stage, cached: Option<Entry>, error: string, now: int)
      requires cache.Valid()
      modifies cache
      ensures cache.Valid()
      ensures cache.history
           == old(cache.history)
            + if options.cacheErrors then [Op.Set(key, Merged(cached, stage, Record(Throws(error))), now)] else []
    {
      if options.cacheErrors {
        cache.Set(key, (if cached.Some? then cached.value else map[])[stage := CachedError(error)], now);
      }
    }
  }

  // ----- what a call adds to the history -----

  lemma CallOpsOf(ops: seq<Op<Entry>>, c: Call, o: Options)
    requires KeyOf(c) != ""
    ensures var got := Found(ops, c, o);
            ops + CallOps(ops, c, o) ==
              if (got.Some? && c.stage in got.value) || !Cached(c.inner, o) then ops + [Get(KeyOf(c), c.start)]
              else ops + [Get(KeyOf(c), c.start)] + [Set(KeyOf(c), Merged(got, c.stage, Record(c.inner)), c.finish)]
  {
  }

  lemma OpsAppend(calls: seq<Call>, c: Call, o: Options)
    ensures Ops(calls + [c], o) == Ops(calls, o) + CallOps(Ops(calls, o), c, o)
    ensures Skipped(calls + [c], |calls|, o) == Hit(Ops(calls, o), c, o)
  {
    assert (calls + [c])[..|calls|] == calls;
  }

  lemma {:induction false} OpsMonotone(calls: seq<Call>, clock: int, o: Options)
    requires InOrder(calls, clock)
    ensures Monotone(Ops(calls, o), clock)
    decreases |calls|
  {
    if calls == [] {
    } else {
      var front, last := calls[..|calls| - 1], calls[|calls| - 1];
      assert calls == front + [last];
      OpsMonotone(front, last.start, o);
      CallOpsMonotone(Ops(front, o), last, clock, o);
    }
  }

  lemma CallOpsMonotone(ops: seq<Op<Entry>>, c: Call, clock: int, o: Options)
    requires Monotone(ops, c.start) && c.start <= c.finish <= clock
    ensures Monotone(ops + CallOps(ops, c, o), clock)
  {
    var key := KeyOf(c);
    if key == "" {
      assert ops + [] == ops;
    } else {
      var get := Op<Entry>.Get(key, c.start);
      if Writes(ops, c, o) {
        var set_ := Set(key, Merged(Found(ops, c, o), c.stage, Record(c.inner)), c.finish);
        MonotoneAppend(ops, get, c.start, c.start);
        MonotoneAppend(ops + [get], set_, c.start, clock);
        assert ops + CallOps(ops, c, o) == ops + [get] + [set_];
      } else {
        MonotoneAppend(ops, get, c.start, clock);
      }
    }
  }

  lemma SetsAfterGet(h: seq<Op<Entry>>, key: string, now: int, k: string)
    ensures var g := h + [Get(key, now)]; LastSet(g, k) == LastSet(h, k) && Since(g, k) == Since(h, k)
  {
    assert (h + [Get(key, now)])[..|h|] == h;
  }

  /** The value a call writes, if it writes. */
  predicate Writes(ops: seq<Op<Entry>>, c: Call, o: Options) {
    KeyOf(c) != "" && !Hit(ops, c, o) && Cached(c.inner, o)
  }

  lemma SetsAfterCall(ops: seq<Op<Entry>>, c: Call, o: Options, k: string)
    ensures var g := ops + CallOps(ops, c, o);
            if !Writes(ops, c, o) then LastSet(g, k) == LastSet(ops, k) && Since(g, k) == Since(ops, k)
            else if k == KeyOf(c) then
              LastSet(g, k) == Some((Merged(Found(ops, c, o), c.stage, Record(c.inner)), c.finish)) && Since(g, k) == {}
            else LastSet(g, k) == LastSet(ops, k) && Since(g, k) == Since(ops, k) + {KeyOf(c)}
  {
    var key := KeyOf(c);
    if key == "" {
      assert ops + [] == ops;
    } else {
      SetsAfterGet(ops, key, c.start, k);
      if Writes(ops, c, o) {
        var h, v := ops + [Get(key, c.start)], Merged(Found(ops, c, o), c.stage, Record(c.inner));
        assert ops + CallOps(ops, c, o) == h + [Set(key, v, c.finish)];
        SetHistory(h, key, v, c.finish, k);
      }
    }
  }

  lemma FoundIffDue(calls: seq<Call>, c: Call, o: Options)
    requires InOrder(calls, c.start) && ValidOptions(o)
    ensures var ops := Ops(calls, o);
            Found(ops, c, o) == if Due(ops, KeyOf(c), c.start, o.maxCacheItems, o.debounceTime)
                                then Some(LastSet(ops, KeyOf(c)).value.0) else None
  {
    OpsMonotone(calls, c.start, o);
    GetFindsWhatIsDue(Ops(calls, o), KeyOf(c), c.start, o.maxCacheItems, o.debounceTime);
  }

  // ----- a skipped call repeats the last real run -----

  /** The inner outcome of the last call that really ran `stage` for `key`. */
  function LastRun(calls: seq<Call>, key: string, stage: Stage, o: Options): Option<Outcome> {
    if calls == [] then None
    else
      var last := calls[|calls| - 1];
      if KeyOf(last) == key && last.stage == stage && !Hit(Ops(calls[..|calls| - 1], o), last, o) then Some(last.inner)
      else LastRun(calls[..|calls| - 1], key, stage, o)
  }

  /** A slot that is still due records the last real run. */
  ghost predicate SlotsUpToDate(calls: seq<Call>, key: string, stage: Stage, clock: int, o: Options) {
    var ops := Ops(calls, o);
    Due(ops, key, clock, o.maxCacheItems, o.debounceTime) && stage in LastSet(ops, key).value.0 ==>
      var run := LastRun(calls, key, stage, o);
      && run.Some? && (run.value.Returns? || o.cacheErrors)
      && LastSet(ops, key).value.0[stage] == Record(run.value)
  }

  lemma {:induction false} SlotsStayUpToDate(calls: seq<Call>, key: string, stage: Stage, clock: int, o: Options)
    requires InOrder(calls, clock) && ValidOptions(o)
    ensures SlotsUpToDate(calls, key, stage, clock, o)
    decreases |calls|
  {
    if calls == [] {
    } else {
      var front, c := calls[..|calls| - 1], calls[|calls| - 1];
      assert calls == front + [c];
      SlotsStayUpToDate(front, key, stage, c.start, o);
      FoundIffDue(front, c, o);
      SetsAfterCall(Ops(front, o), c, o, key);
      SlotStep(front, c, key, stage, clock, o);
    }
  }

  lemma LastRunStep(front: seq<Call>, c: Call, key: string, stage: Stage, o: Options)
    ensures LastRun(front + [c], key, stage, o)
            == if KeyOf(c) == key && c.stage == stage && !Hit(Ops(front, o), c, o) then Some(c.inner)
               else LastRun(front, key, stage, o)
  {
    assert (front + [c])[..|front|] == front;
  }

  lemma SlotStep(front: seq<Call>, c: Call, key: string, stage: Stage, clock: int, o: Options)
    requires InOrder(front, c.start) && c.start <= c.finish <= clock && ValidOptions(o)
    requires SlotsUpToDate(front, key, stage, c.start, o)
    ensures SlotsUpToDate(front + [c], key, stage, clock, o)
  {
    OpsAppend(front, c, o);
    FoundIffDue(front, c, o);
    LastRunStep(front, c, key, stage, o);
    if Writes(Ops(front, o), c, o) && KeyOf(c) == key {
      SetsAfterCall(Ops(front, o), c, o, key);
    } else if Due(Ops(front + [c], o), key, clock, o.maxCacheItems, o.debounceTime) {
      StillDue(Ops(front, o), c, key, clock, o);
    }
  }

  /** A call that does not write the key leaves its entry alone, and no call makes it due again. */
  lemma StillDue(ops: seq<Op<Entry>>, c: Call, key: string, clock: int, o: Options)
    requires !(Writes(ops, c, o) && KeyOf(c) == key) && c.start <= clock
    requires Due(ops + CallOps(ops, c, o), key, clock, o.maxCacheItems, o.debounceTime)
    ensures Due(ops, key, c.start, o.maxCacheItems, o.debounceTime)
    ensures LastSet(ops + CallOps(ops, c, o), key) == LastSet(ops, key)
  {
    SetsAfterCall(ops, c, o, key);
    Subset(Since(ops, key), Since(ops + CallOps(ops, c, o), key));
  }

  /** Call `j` really ran the stage for the key. */
  predicate RanFor(calls: seq<Call>, j: nat, key: string, stage: Stage, o: Options) {
    j < |calls| && calls[j].supplied == Key(key) && calls[j].stage == stage && !Skipped(calls, j, o)
  }

  /** Call `j` is the last real run of the stage for the key. */
  ghost predicate IsLastRun(calls: seq<Call>, j: nat, key: string, stage: Stage, o: Options) {
    RanFor(calls, j, key, stage, o) && forall l: nat :: l > j ==> !RanFor(calls, l, key, stage, o)
  }

  /**
   The response is that of the last real run of the stage for the key: the context it returned, or the cached error
   that it threw if errors are cached.
   */
  ghost predicate RepeatsRun(calls: seq<Call>, key: string, stage: Stage, r: Response, o: Options) {
    exists j: nat :: IsLastRun(calls, j, key, stage, o) && Repeats(r, calls[j].inner, o)
  }

  predicate Repeats(r: Response, inner: Outcome, o: Options) {
    match inner
    case Returns(context) => r == Returned(context)
    case Throws(error) => o.cacheErrors && r == ThrewCached(error)
  }

  lemma RanInFront(front: seq<Call>, c: Call, l: nat, key: string, stage: Stage, o: Options)
    requires l < |front|
    ensures RanFor(front + [c], l, key, stage, o) == RanFor(front, l, key, stage, o)
  {
    assert (front + [c])[..l] == front[..l];
  }

  lemma {:induction false} LastRunIs(calls: seq<Call>, key: string, stage: Stage, o: Options) returns (j: nat)
    requires key != "" && LastRun(calls, key, stage, o).Some?
    ensures IsLastRun(calls, j, key, stage, o) && LastRun(calls, key, stage, o) == Some(calls[j].inner)
    decreases |calls|
  {
    var front, last := calls[..|calls| - 1], calls[|calls| - 1];
    assert calls == front + [last];
    LastRunStep(front, last, key, stage, o);
    if RanFor(calls, |front|, key, stage, o) {
      j := |front|;
    } else {
      j := LastRunIs(front, key, stage, o);
      RanInFront(front, last, j, key, stage, o);
      forall l: nat | l > j ensures !RanFor(calls, l, key, stage, o) {
        if l < |front| {
          RanInFront(front, last, l, key, stage, o);
        }
      }
    }
  }

  lemma ReplayRepeats(run: Outcome, o: Options)
    requires run.Returns? || o.cacheErrors
    ensures Repeats(Replay(Record(run)), run, o)
  {
  }

  lemma DueSlotIsRecorded(calls: seq<Call>, c: Call, o: Options) returns (run: Outcome)
    requires InOrder(calls, c.start) && ValidOptions(o) && Hit(Ops(calls, o), c, o)
    ensures LastRun(calls, KeyOf(c), c.stage, o) == Some(run) && (run.Returns? || o.cacheErrors)
    ensures Found(Ops(calls, o), c, o).value[c.stage] == Record(run) && KeyOf(c) != ""
  {
    FoundIffDue(calls, c, o);
    SlotsStayUpToDate(calls, KeyOf(c), c.stage, c.start, o);
    run := LastRun(calls, KeyOf(c), c.stage, o).value;
  }

  lemma SkippedRepeatsLastRun(calls: seq<Call>, c: Call, o: Options)
    requires InOrder(calls, c.start) && ValidOptions(o) && Hit(Ops(calls, o), c, o)
    ensures RepeatsRun(calls, KeyOf(c), c.stage, Replay(Found(Ops(calls, o), c, o).value[c.stage]), o)
  {
    var run := DueSlotIsRecorded(calls, c, o);
    var j := LastRunIs(calls, KeyOf(c), c.stage, o);
    ReplayRepeats(run, o);
  }

  // ----- the debounce guarantee -----

  /** The other keys that calls after the first `n` have written to the cache. */
  function WrittenAfter(calls: seq<Call>, n: nat, key: string, o: Options): set<string> {
    if |calls| <= n then {}
    else
      var front, last := calls[..|calls| - 1], calls[|calls| - 1];
      WrittenAfter(front, n, key, o)
      + if KeyOf(last) != key && Writes(Ops(front, o), last, o) then {KeyOf(last)} else {}
  }

  /** Enough time has passed since `t`, or enough other keys have been written since call `n`. */
  ghost predicate Released(calls: seq<Call>, n: nat, key: string, t: int, clock: int, o: Options) {
    clock - t >= o.debounceTime || |WrittenAfter(calls, n, key, o)| >= o.maxCacheItems
  }

  /** The entry of `key` still holds a slot for `stage`, renewed at `t` or later. */
  ghost predicate Holds(calls: seq<Call>, n: nat, key: string, stage: Stage, t: int, o: Options) {
    var ops := Ops(calls, o);
    var last := LastSet(ops, key);
    last.Some? && stage in last.value.0 && last.value.1 >= t && Since(ops, key) <= WrittenAfter(calls, n, key, o)
  }

  lemma WrittenGrows(front: seq<Call>, c: Call, n: nat, key: string, o: Options)
    requires n <= |front|
    ensures var calls := front + [c];
            && WrittenAfter(front, n, key, o) <= WrittenAfter(calls, n, key, o)
            && |WrittenAfter(front, n, key, o)| <= |WrittenAfter(calls, n, key, o)|
  {
    var calls := front + [c];
    assert calls[..|calls| - 1] == front;
    Subset(WrittenAfter(front, n, key, o), WrittenAfter(calls, n, key, o));
  }

  lemma HoldsStep(front: seq<Call>, c: Call, n: nat, key: string, stage: Stage, t: int, clock: int, o: Options)
    requires n <= |front| && InOrder(front, c.start) && c.start <= c.finish <= clock && ValidOptions(o)
    requires Holds(front, n, key, stage, t, o) && t <= c.start
    ensures Holds(front + [c], n, key, stage, t, o) || Released(front + [c], n, key, t, clock, o)
  {
    var calls := front + [c];
    assert calls[..|calls| - 1] == front;
    var ops := Ops(front, o);
    FoundIffDue(front, c, o);
    SetsAfterCall(ops, c, o, key);
    WrittenGrows(front, c, n, key, o);
    if Writes(ops, c, o) && KeyOf(c) == key && !Due(ops, key, c.start, o.maxCacheItems, o.debounceTime) {
      Subset(Since(ops, key), WrittenAfter(front, n, key, o));
    }
  }

  lemma InOrderFront(calls: seq<Call>, clock: int)
    requires InOrder(calls, clock) && calls != []
    ensures var c := calls[|calls| - 1]; InOrder(calls[..|calls| - 1], c.start) && c.start <= c.finish <= clock
  {
  }

  lemma StaysReleased(front: seq<Call>, c: Call, n: nat, key: string, t: int, clock: int, o: Options)
    requires n <= |front| && c.start <= clock && Released(front, n, key, t, c.start, o)
    ensures Released(front + [c], n, key, t, clock, o)
  {
    WrittenGrows(front, c, n, key, o);
  }

  lemma {:induction false} HoldsUntilReleased(
      calls: seq<Call>, n: nat, key: string, stage: Stage, t: int, clock: int, o: Options)
    requires n <= |calls| && InOrder(calls, clock) && ValidOptions(o)
    requires Holds(calls[..n], n, key, stage, t, o)
    requires forall i :: n <= i < |calls| ==> t <= calls[i].start
    ensures Holds(calls, n, key, stage, t, o) || Released(calls, n, key, t, clock, o)
    decreases |calls|
  {
    if |calls| == n {
      assert calls[..n] == calls;
    } else {
      var front, c := calls[..|calls| - 1], calls[|calls| - 1];
      assert calls == front + [c] && front[..n] == calls[..n];
      InOrderFront(calls, clock);
      HoldsUntilReleased(front, n, key, stage, t, c.start, o);
      if Holds(front, n, key, stage, t, o) {
        HoldsStep(front, c, n, key, stage, t, clock, o);
      } else {
        StaysReleased(front, c, n, key, t, clock, o);
      }
    }
  }

  /**
   If a stage ran for a key and was cached at `calls[i].finish`, then the inner stage runs again for
   that key only when the debounce time has passed or enough other keys were written in between.
   */
  lemma DebounceGuarantee(calls: seq<Call>, i: nat, j: nat, o: Options)
    requires i < j < |calls| && InOrder(calls, calls[|calls| - 1].finish) && ValidOptions(o)
    requires calls[i].supplied == calls[j].supplied && calls[i].supplied.Key? && calls[i].supplied.key != ""
    requires calls[i].stage == calls[j].stage && !Skipped(calls, i, o) && !Skipped(calls, j, o)
    requires calls[i].inner.Returns? || o.cacheErrors
    ensures || calls[j].start - calls[i].finish >= o.debounceTime
            || |WrittenAfter(calls[..j], i + 1, calls[i].supplied.key, o)| >= o.maxCacheItems
  {
    var key, stage, t := KeyOf(calls[i]), calls[i].stage, calls[i].finish;
    var upTo, front := calls[..i + 1], calls[..j];
    assert upTo[..i] == calls[..i] && front[..i + 1] == upTo;
    SetsAfterCall(Ops(calls[..i], o), calls[i], o, key);
    assert Holds(upTo, i + 1, key, stage, t, o);
    HoldsUntilReleased(front, i + 1, key, stage, t, calls[j].start, o);
    if Holds(front, i + 1, key, stage, t, o) {
      FoundIffDue(front, calls[j], o);
      Subset(Since(Ops(front, o), key), WrittenAfter(front, i + 1, key, o));
    }
  }

  // ----- the debounce time is not applied to each stage independently -----

  /** A cached run renews the entry of its key. */
  lemma RunRenews(calls: seq<Call>, c: Call, o: Options)
    requires KeyOf(c) != "" && Cached(c.inner, o) && !Hit(Ops(calls, o), c, o)
    ensures LastSet(Ops(calls + [c], o), KeyOf(c))
         == Some((Merged(Found(Ops(calls, o), c, o), c.stage, Record(c.inner)), c.finish))
    ensures Since(Ops(calls + [c], o), KeyOf(c)) == {}
  {
    OpsAppend(calls, c, o);
    SetsAfterCall(Ops(calls, o), c, o, KeyOf(c));
  }

  /** What the history says of a key: its entry, the time of its last set, and that no other key was set since. */
  ghost predicate Holding(calls: seq<Call>, key: string, entry: Entry, at: int, o: Options) {
    LastSet(Ops(calls, o), key) == Some((entry, at)) && Since(Ops(calls, o), key) == {}
  }

  lemma HeldIsFound(calls: seq<Call>, c: Call, entry: Entry, at: int, o: Options)
    requires InOrder(calls, c.start) && ValidOptions(o)
    requires Holding(calls, KeyOf(c), entry, at, o) && c.start - at < o.debounceTime
    ensures Found(Ops(calls, o), c, o) == Some(entry)
  {
    FoundIffDue(calls, c, o);
  }

  /** A stage without a slot runs and is added to the entry, which is renewed. */
  lemma StageJoins(calls: seq<Call>, c: Call, entry: Entry, at: int, o: Options)
    requires InOrder(calls, c.start) && ValidOptions(o) && KeyOf(c) != "" && c.inner == Returns(None)
    requires Holding(calls, KeyOf(c), entry, at, o) && c.start - at < o.debounceTime && c.stage !in entry
    ensures Holding(calls + [c], KeyOf(c), entry[c.stage := Ran], c.finish, o)
  {
    HeldIsFound(calls, c, entry, at, o);
    RunRenews(calls, c, o);
  }

  lemma FirstStage(c: Call, o: Options)
    requires ValidOptions(o) && KeyOf(c) != "" && c.inner == Returns(None)
    ensures Holding([] + [c], KeyOf(c), map[c.stage := Ran], c.finish, o)
  {
    FoundIffDue([], c, o);
    RunRenews([], c, o);
  }

  /**
   Every stage of a key renews the whole entry: a call of another stage in between keeps a stage from
   running again although its own debounce time has passed.
   */
  lemma StagesShareTheClock(a: Call, b: Call, c: Call, o: Options)
    requires ValidOptions(o) && KeyOf(a) == KeyOf(b) == KeyOf(c) != "" && InOrder([a, b], c.start)
    requires a.stage == c.stage != b.stage && a.inner == b.inner == Returns(None)
    requires b.start - a.finish < o.debounceTime && c.start - b.finish < o.debounceTime <= c.start - a.finish
    ensures !Skipped([a, b, c], 0, o) && Skipped([a, b, c], 2, o)
  {
    FirstStage(a, o);
    FoundIffDue([], a, o);
    assert [] + [a] == [a] && [a] + [b] == [a, b] && [a, b, c][..2] == [a, b] && [a, b, c][..0] == [];
    assert InOrder([a], b.start) by {
      assert [a, b][0] == a && [a, b][1] == b;
    }
    StageJoins([a], b, map[a.stage := Ran], a.finish, o);
    HeldIsFound([a, b], c, map[a.stage := Ran][b.stage := Ran], b.finish, o);
  }

  /** A stage is skipped exactly when its slot is there and the entry, whichever stage renewed it last, is due. */
  lemma SkippedExactlyWhen(calls: seq<Call>, i: nat, o: Options)
    requires i < |calls| && InOrder(calls[..i], calls[i].start) && ValidOptions(o)
    ensures var ops := Ops(calls[..i], o);
            Skipped(calls, i, o) <==>
              && calls[i].supplied.Key?
              && Due(ops, calls[i].supplied.key, calls[i].start, o.maxCacheItems, o.debounceTime)
              && calls[i].stage in LastSet(ops, calls[i].supplied.key).value.0
  {
    FoundIffDue(calls[..i], calls[i], o);
  }
}
