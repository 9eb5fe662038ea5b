/**
 The SSE manager of the OFREP web provider: connections, the grace period of an
 interrupted connection, coalescing of refetch messages, and the inactivity timeout.
 EventSource behaves as section 9.2 of the WHATWG HTML Standard says; its callbacks, the
 timers and visibility changes come one at a time.
 */
module SseProtocol {

  const GRACE_PERIOD_MS: int := 30 * 1000
  const DEBOUNCE_MS: int := 50
  const DEFAULT_INACTIVITY_DELAY_SEC: int := 120

  datatype Option<+T> = None | Some(value: T)

  /** The metadata of a `refetchEvaluation` message. */
  datatype Metadata = Metadata(etag: Option<string>, lastModified: Option<string>)

  /** An advertised stream, with the URL it resolves to, if any. */
  datatype EventStream = EventStream(isSse: bool, url: Option<string>, inactivityDelaySec: Option<int>)

  datatype Connection = Connection(id: nat, url: string)

  /** What the callbacks were told, and the events that explain it. */
  datatype Entry =
    | OnStale(at: int)
    | OnError(at: int)
    | OnRefetch(metadata: Metadata, at: int)
    | OnFullRefetch(at: int)
    | Recovered(at: int)
    | Disconnected(at: int)
    | MessageReceived(metadata: Metadata, at: int)

  /** The fields of the manager, the timers and open event sources of the runtime, and the log. */
  datatype State = State(
    connections: seq<Connection>, urls: seq<string>, inactivityDelaySec: int, disposed: bool, stale: bool,
    visibilityHandler: bool, pendingMetadata: Option<Metadata>,
    gracePeriodTimerId: Option<nat>, graceTimers: map<nat, int>,
    debounceTimerId: Option<nat>, debounceTimers: map<nat, int>,
    inactivityTimerId: Option<nat>, inactivityTimers: map<nat, int>,
    open: set<Connection>, nextId: nat, log: seq<Entry>)

  const INITIAL := State([], [], DEFAULT_INACTIVITY_DELAY_SEC, false, false, false, None,
                         None, map[], None, map[], None, map[], {}, 0, [])

  datatype Config = Config(clientInactivityOverride: Option<int>, hasDocument: bool)

  // ----- timers -----

  function Clear(timers: map<nat, int>, id: Option<nat>): map<nat, int> {
    if id.Some? then timers - {id.value} else timers
  }

  function ClearDebounce(s: State): State {
    s.(debounceTimers := Clear(s.debounceTimers, s.debounceTimerId), debounceTimerId := None)
  }

  function ClearInactivityTimer(s: State): State {
    s.(inactivityTimers := Clear(s.inactivityTimers, s.inactivityTimerId), inactivityTimerId := None)
  }

  function ClearGracePeriod(s: State): State {
    s.(graceTimers := Clear(s.graceTimers, s.gracePeriodTimerId), gracePeriodTimerId := None)
  }

  // ----- connecting and disconnecting -----

  function ToSet(connections: seq<Connection>): set<Connection> {
    set k | 0 <= k < |connections| :: connections[k]
  }

  function Disconnect(s: State, now: int): State {
    var t := ClearGracePeriod(ClearInactivityTimer(ClearDebounce(s)));
    t.(stale := false, visibilityHandler := false, open := t.open - ToSet(t.connections),
       connections := [], urls := [], log := t.log + [Disconnected(now)])
  }

  function ConnectToUrl(s: State, url: string): State {
    if s.disposed then s
    else
      var es := Connection(s.nextId, url);
      s.(connections := s.connections + [es], open := s.open + {es}, nextId := s.nextId + 1)
  }

  function ConnectToUrls(s: State, urls: seq<string>): State
    decreases |urls|
  {
    if urls == [] then s else ConnectToUrls(ConnectToUrl(s, urls[0]), urls[1..])
  }

  /** The distinct URLs of the SSE streams, in order. */
  function Urls(streams: seq<EventStream>): seq<string> {
    if streams == [] then []
    else
      var front, last := Urls(streams[..|streams| - 1]), streams[|streams| - 1];
      if last.isSse && last.url.Some? && last.url.value !in front then front + [last.url.value] else front
  }

  predicate HasSse(streams: seq<EventStream>) {
    exists k :: 0 <= k < |streams| && streams[k].isSse
  }

  function ServerInactivity(streams: seq<EventStream>): Option<int> {
    if streams == [] then None
    else if streams[0].isSse && streams[0].inactivityDelaySec.Some? then streams[0].inactivityDelaySec
    else ServerInactivity(streams[1..])
  }

  function InactivityDelay(streams: seq<EventStream>, c: Config): int {
    if c.clientInactivityOverride.Some? then c.clientInactivityOverride.value
    else
      var server := ServerInactivity(streams);
      if server.Some? then server.value else DEFAULT_INACTIVITY_DELAY_SEC
  }

  predicate SameUrls(urls: seq<string>, others: seq<string>) {
    |urls| == |others| && forall k :: 0 <= k < |urls| ==> urls[k] in others
  }

  function Connect(s: State, streams: seq<EventStream>, now: int, c: Config): State {
    if !HasSse(streams) then Disconnect(s, now)
    else
      var t := s.(inactivityDelaySec := InactivityDelay(streams, c));
      var urls := Urls(streams);
      if urls == [] then Disconnect(t, now)
      else if t.connections != [] && SameUrls(urls, t.urls) then t
      else Reconnect(t, urls, now, c)
  }

  function Reconnect(s: State, urls: seq<string>, now: int, c: Config): State {
    ConnectToUrls(Disconnect(s, now).(urls := urls), urls).(visibilityHandler := c.hasDocument)
  }

  // ----- callbacks -----

  function Recover(s: State, now: int): State {
    if s.stale then ClearGracePeriod(s).(stale := false, log := s.log + [Recovered(now)]) else s
  }

  /** `closed` tells whether the browser has given up on the event source. */
  function HandleError(s: State, es: Connection, closed: bool, now: int): State {
    if closed then
      Forget(ClearGracePeriod(s.(open := s.open - {es})), now)
    else if s.stale then s
    else s.(stale := true, log := s.log + [OnStale(now)], gracePeriodTimerId := Some(s.nextId),
            graceTimers := s.graceTimers[s.nextId := now + GRACE_PERIOD_MS], nextId := s.nextId + 1)
  }

  function GraceExpired(s: State, id: nat, now: int): State {
    Forget(s.(graceTimers := s.graceTimers - {id}, open := s.open - ToSet(s.connections)), now)
  }

  datatype Message = Refetch(metadata: Metadata) | OtherType | Unparsable

  function HandleMessage(s: State, m: Message, now: int): State {
    var t := Recover(s, now);
    match m
    case Refetch(metadata) => ScheduleRefetch(t, metadata, now)
    case _ => t
  }

  function ScheduleRefetch(s: State, metadata: Metadata, now: int): State {
    StartDebounce(
      ClearDebounce(s.(pendingMetadata := Some(metadata), log := s.log + [MessageReceived(metadata, now)])), now)
  }

  function StartDebounce(s: State, now: int): State {
    s.(debounceTimerId := Some(s.nextId), debounceTimers := s.debounceTimers[s.nextId := now + DEBOUNCE_MS],
       nextId := s.nextId + 1)
  }

  /** No connection and no URL is remembered, and the error is reported. */
  function Forget(s: State, now: int): State {
    s.(stale := false, connections := [], urls := [], log := s.log + [OnError(now)])
  }

  function Debounced(s: State, id: nat, now: int): State {
    s.(debounceTimers := s.debounceTimers - {id}, pendingMetadata := None,
       log := s.log + [match s.pendingMetadata case Some(m) => OnRefetch(m, now) case None => OnFullRefetch(now)])
  }

  function Hide(s: State, now: int): State {
    var t := ClearInactivityTimer(s);
    t.(inactivityTimerId := Some(t.nextId),
       inactivityTimers := t.inactivityTimers[t.nextId := now + t.inactivityDelaySec * 1000], nextId := t.nextId + 1)
  }

  function InactivityExpired(s: State, id: nat): State {
    s.(inactivityTimers := s.inactivityTimers - {id}, open := s.open - ToSet(s.connections), connections := [])
  }

  function Show(s: State, now: int): State {
    if s.inactivityTimerId.None? then s
    else
      var t := ClearInactivityTimer(s);
      if t.connections == [] && t.urls != [] then
        var u := ConnectToUrls(t, t.urls);
        u.(log := u.log + [OnFullRefetch(now)])
      else t
  }

  // ----- what may happen -----

  datatype Input =
    | Connecting(streams: seq<EventStream>)
    | Disconnecting
    | Disposing
    | Opened(es: Connection)
    | Received(es: Connection, message: Message)
    | Failed(es: Connection, closed: bool)
    | GraceDue(id: nat)
    | DebounceDue(id: nat)
    | InactivityDue(id: nat)
    | Hidden
    | Shown

  /** Timers fire when they are due, and only event sources that have not been closed report anything. */
  predicate Enabled(s: State, i: Input, now: int) {
    match i
    case Opened(es) => es in s.open
    case Received(es, _) => es in s.open
    case Failed(es, _) => es in s.open
    case GraceDue(id) => id in s.graceTimers && s.graceTimers[id] <= now
    case DebounceDue(id) => id in s.debounceTimers && s.debounceTimers[id] <= now
    case InactivityDue(id) => id in s.inactivityTimers && s.inactivityTimers[id] <= now
    case Hidden => s.visibilityHandler
    case Shown => s.visibilityHandler
    case _ => true
  }

  function Step(s: State, i: Input, now: int, c: Config): State
    requires Enabled(s, i, now)
  {
    match i
    case Connecting(streams) => Connect(s, streams, now, c)
    case Disconnecting => Disconnect(s, now)
    case Disposing => Disconnect(s.(disposed := true), now)
    case Opened(_) => Recover(s, now)
    case Received(_, m) => HandleMessage(s, m, now)
    case Failed(es, closed) => HandleError(s, es, closed, now)
    case GraceDue(id) => GraceExpired(s, id, now)
    case DebounceDue(id) => Debounced(s, id, now)
    case InactivityDue(id) => InactivityExpired(s, id)
    case Hidden => Hide(s, now)
    case Shown => Show(s, now)
  }

  // ----- what the log says -----

  /** When the interruption that is still open was reported, if there is one. */
  function StaleSince(log: seq<Entry>): Option<int> {
    if log == [] then None
    else match log[|log| - 1]
      case OnStale(at) => Some(at)
      case OnError(_) => None
      case Recovered(_) => None
      case Disconnected(_) => None
      case _ => StaleSince(log[..|log| - 1])
  }

  /** The last message not yet answered by a refetch nor cut off by a disconnect. */
  function Unanswered(log: seq<Entry>): Option<(Metadata, int)> {
    if log == [] then None
    else match log[|log| - 1]
      case MessageReceived(metadata, at) => Some((metadata, at))
      case OnRefetch(_, _) => None
      case Disconnected(_) => None
      case _ => Unanswered(log[..|log| - 1])
  }

  /**
   STALE is reported only when no interruption is open. A metadata refetch answers the last message of
   a burst, with its metadata, 50 ms after it or later.
   */
  predicate MayFollow(log: seq<Entry>, e: Entry) {
    match e
    case OnStale(_) => StaleSince(log).None?
    case Recovered(_) => StaleSince(log).Some?
    case OnRefetch(metadata, at) =>
      var m := Unanswered(log);
      m.Some? && m.value.0 == metadata && m.value.1 + DEBOUNCE_MS <= at
    case _ => true
  }

  ghost predicate WellFormed(log: seq<Entry>) {
    forall k :: 0 <= k < |log| ==> MayFollow(log[..k], log[k])
  }

  lemma Append(log: seq<Entry>, e: Entry)
    requires WellFormed(log) && MayFollow(log, e)
    ensures WellFormed(log + [e])
  {
    var all := log + [e];
    forall k | 0 <= k < |all| ensures MayFollow(all[..k], all[k]) {
      assert all[..k] == if k < |log| then log[..k] else log;
    }
  }

  lemma AppendFolds(log: seq<Entry>, e: Entry)
    ensures StaleSince(log + [e]) == match e
            case OnStale(at) => Some(at)
            case OnError(_) => None
            case Recovered(_) => None
            case Disconnected(_) => None
            case _ => StaleSince(log)
    ensures Unanswered(log + [e]) == match e
            case MessageReceived(metadata, at) => Some((metadata, at))
            case OnRefetch(_, _) => None
            case Disconnected(_) => None
            case _ => Unanswered(log)
  {
    assert (log + [e])[..|log|] == log;
  }

  // ----- the invariants -----

  /** Pending timers are those whose id is in the field; fields may outlive their timers. */
  ghost predicate TimersInv(timers: map<nat, int>, id: Option<nat>, nextId: nat) {
    (id.Some? ==> id.value < nextId) && forall t <- timers :: id == Some(t)
  }

  /** A grace timer is pending exactly while stale, and is due 30 s after the report. */
  ghost predicate GraceInv(s: State) {
    && TimersInv(s.graceTimers, s.gracePeriodTimerId, s.nextId)
    && (s.stale <==> StaleSince(s.log).Some?)
    && (s.stale ==> s.gracePeriodTimerId.Some? && s.gracePeriodTimerId.value in s.graceTimers)
    && (s.graceTimers != map[] ==> s.stale)
    && (forall t <- s.graceTimers :: s.stale && s.graceTimers[t] == StaleSince(s.log).value + GRACE_PERIOD_MS)
  }

  /** A debounce timer is pending exactly while a message is unanswered, and is due 50 ms after it. */
  ghost predicate DebounceInv(s: State) {
    && TimersInv(s.debounceTimers, s.debounceTimerId, s.nextId)
    && (Unanswered(s.log).Some? ==>
          && s.debounceTimerId.Some? && s.debounceTimerId.value in s.debounceTimers
          && s.pendingMetadata == Some(Unanswered(s.log).value.0))
    && (forall t <- s.debounceTimers ::
          Unanswered(s.log).Some? && s.debounceTimers[t] == Unanswered(s.log).value.1 + DEBOUNCE_MS)
  }

  /** There are no connections, or one per URL. */
  ghost predicate ConnectionsInv(s: State) {
    && (s.connections == [] || UrlsOf(s.connections) == s.urls)
    && (forall k :: 0 <= k < |s.connections| ==> s.connections[k] in s.open)
    && (forall i, j :: 0 <= i < j < |s.urls| ==> s.urls[i] != s.urls[j])
  }

  function UrlsOf(connections: seq<Connection>): seq<string> {
    seq(|connections|, k requires 0 <= k < |connections| => connections[k].url)
  }

  ghost predicate Inv(s: State) {
    WellFormed(s.log) && GraceInv(s) && DebounceInv(s) && ConnectionsInv(s)
  }

  /** Connections, visibility and inactivity play no part in the grace period or the debouncing. */
  predicate SameTimers(s: State, t: State) {
    && t.log == s.log && t.stale == s.stale && t.nextId >= s.nextId && t.pendingMetadata == s.pendingMetadata
    && t.gracePeriodTimerId == s.gracePeriodTimerId && t.graceTimers == s.graceTimers
    && t.debounceTimerId == s.debounceTimerId && t.debounceTimers == s.debounceTimers
  }

  lemma SameTimersKeepInv(s: State, t: State)
    requires WellFormed(s.log) && GraceInv(s) && DebounceInv(s) && SameTimers(s, t)
    ensures WellFormed(t.log) && GraceInv(t) && DebounceInv(t)
  {
  }

  lemma {:induction false} UrlsDistinct(streams: seq<EventStream>)
    ensures forall i, j :: 0 <= i < j < |Urls(streams)| ==> Urls(streams)[i] != Urls(streams)[j]
  {
    if streams == [] {
    } else {
      UrlsDistinct(streams[..|streams| - 1]);
    }
  }

  lemma {:induction false} ConnectToUrlsAdds(s: State, urls: seq<string>)
    ensures var t := ConnectToUrls(s, urls);
            && SameTimers(s, t) && t.urls == s.urls && t.disposed == s.disposed && s.open <= t.open
            && (s.disposed ==> t.connections == s.connections)
            && (!s.disposed ==> UrlsOf(t.connections) == UrlsOf(s.connections) + urls)
    ensures (forall k :: 0 <= k < |s.connections| ==> s.connections[k] in s.open) ==>
              var t := ConnectToUrls(s, urls); forall k :: 0 <= k < |t.connections| ==> t.connections[k] in t.open
    decreases |urls|
  {
    if urls == [] {
    } else {
      var u := ConnectToUrl(s, urls[0]);
      ConnectToUrlsAdds(u, urls[1..]);
      if !s.disposed {
        assert UrlsOf(u.connections) == UrlsOf(s.connections) + [urls[0]];
        assert UrlsOf(s.connections) + [urls[0]] + urls[1..] == UrlsOf(s.connections) + urls;
      }
    }
  }

  lemma ClearEmpties(timers: map<nat, int>, id: Option<nat>)
    requires forall t <- timers :: id == Some(t)
    ensures Clear(timers, id) == map[]
  {
  }

  lemma DisconnectKeepsInv(s: State, now: int)
    requires Inv(s)
    ensures Inv(Disconnect(s, now)) && !Disconnect(s, now).stale && Disconnect(s, now).connections == []
  {
    Append(s.log, Disconnected(now));
    AppendFolds(s.log, Disconnected(now));
    ClearEmpties(s.graceTimers, s.gracePeriodTimerId);
    ClearEmpties(s.debounceTimers, s.debounceTimerId);
    var t := Disconnect(s, now);
    assert t.graceTimers == map[] && t.debounceTimers == map[];
  }

  /** Opening one connection per URL, from none. */
  lemma OpenAllKeepsInv(s: State, urls: seq<string>)
    requires Inv(s) && s.connections == [] && urls == s.urls
    ensures Inv(ConnectToUrls(s, urls))
  {
    ConnectToUrlsAdds(s, urls);
    assert UrlsOf([]) == [] && [] + urls == urls;
    SameTimersKeepInv(s, ConnectToUrls(s, urls));
  }

  lemma SetUrlsKeepsInv(s: State, streams: seq<EventStream>)
    requires Inv(s) && s.connections == []
    ensures Inv(s.(urls := Urls(streams)))
  {
    UrlsDistinct(streams);
    SameTimersKeepInv(s, s.(urls := Urls(streams)));
  }

  lemma SetFieldsKeepInv(s: State, delay: int, handler: bool)
    requires Inv(s)
    ensures Inv(s.(inactivityDelaySec := delay)) && Inv(s.(visibilityHandler := handler))
  {
    SameTimersKeepInv(s, s.(inactivityDelaySec := delay));
    SameTimersKeepInv(s, s.(visibilityHandler := handler));
  }

  lemma ConnectKeepsInv(s: State, streams: seq<EventStream>, now: int, c: Config)
    requires Inv(s)
    ensures Inv(Connect(s, streams, now, c))
  {
    DisconnectKeepsInv(s, now);
    if HasSse(streams) {
      var t := s.(inactivityDelaySec := InactivityDelay(streams, c));
      SetFieldsKeepInv(s, InactivityDelay(streams, c), false);
      DisconnectKeepsInv(t, now);
      var d, urls := Disconnect(t, now), Urls(streams);
      SetUrlsKeepsInv(d, streams);
      OpenAllKeepsInv(d.(urls := urls), urls);
      SetFieldsKeepInv(ConnectToUrls(d.(urls := urls), urls), 0, c.hasDocument);
    }
  }

  lemma RecoverKeepsInv(s: State, now: int)
    requires Inv(s)
    ensures Inv(Recover(s, now)) && !Recover(s, now).stale
  {
    if s.stale {
      Append(s.log, Recovered(now));
      AppendFolds(s.log, Recovered(now));
    }
  }

  lemma FailureKeepsInv(s: State, es: Connection, closed: bool, now: int)
    requires Inv(s)
    ensures Inv(HandleError(s, es, closed, now))
  {
    var e := if closed then OnError(now) else OnStale(now);
    AppendFolds(s.log, e);
    if closed || !s.stale {
      Append(s.log, e);
    }
  }

  lemma GraceKeepsInv(s: State, id: nat, now: int)
    requires Inv(s) && id in s.graceTimers
    ensures Inv(GraceExpired(s, id, now))
  {
    Append(s.log, OnError(now));
    AppendFolds(s.log, OnError(now));
    OnlyTimer(s.graceTimers, s.gracePeriodTimerId, id);
    var t := GraceExpired(s, id, now);
    assert t.graceTimers == map[] && DebounceInv(t) && ConnectionsInv(t);
  }

  lemma OnlyTimer(timers: map<nat, int>, stored: Option<nat>, id: nat)
    requires id in timers && forall t <- timers :: stored == Some(t)
    ensures timers - {id} == map[]
  {
  }

  lemma MessageKeepsInv(s: State, m: Message, now: int)
    requires Inv(s)
    ensures Inv(HandleMessage(s, m, now))
  {
    RecoverKeepsInv(s, now);
    if m.Refetch? {
      var t := Recover(s, now);
      Append(t.log, MessageReceived(m.metadata, now));
      AppendFolds(t.log, MessageReceived(m.metadata, now));
    }
  }

  lemma DebounceKeepsInv(s: State, id: nat, now: int)
    requires Inv(s) && id in s.debounceTimers && s.debounceTimers[id] <= now
    ensures Inv(Debounced(s, id, now)) && Unanswered(s.log).Some?
    ensures Debounced(s, id, now).log == s.log + [OnRefetch(Unanswered(s.log).value.0, now)]
  {
    Append(s.log, OnRefetch(s.pendingMetadata.value, now));
    AppendFolds(s.log, OnRefetch(s.pendingMetadata.value, now));
  }

  lemma ShowKeepsInv(s: State, now: int)
    requires Inv(s)
    ensures Inv(Show(s, now))
  {
    if s.inactivityTimerId.Some? {
      var t := ClearInactivityTimer(s);
      SameTimersKeepInv(s, t);
      if t.connections == [] && t.urls != [] {
        OpenAllKeepsInv(t, t.urls);
        FullRefetchKeepsInv(ConnectToUrls(t, t.urls), now);
      }
    }
  }

  lemma FullRefetchKeepsInv(s: State, now: int)
    requires Inv(s)
    ensures Inv(s.(log := s.log + [OnFullRefetch(now)]))
  {
    Append(s.log, OnFullRefetch(now));
    AppendFolds(s.log, OnFullRefetch(now));
  }

  lemma StepKeepsInv(s: State, i: Input, now: int, c: Config)
    requires Inv(s) && Enabled(s, i, now)
    ensures Inv(Step(s, i, now, c))
  {
    match i
    case Connecting(streams) => ConnectKeepsInv(s, streams, now, c);
    case Disconnecting => DisconnectKeepsInv(s, now);
    case Disposing => DisconnectKeepsInv(s.(disposed := true), now);
    case Opened(_) => RecoverKeepsInv(s, now);
    case Received(_, m) => MessageKeepsInv(s, m, now);
    case Failed(es, closed) => FailureKeepsInv(s, es, closed, now);
    case GraceDue(id) => GraceKeepsInv(s, id, now);
    case DebounceDue(id) => DebounceKeepsInv(s, id, now);
    case InactivityDue(id) => SameTimersKeepInv(s, InactivityExpired(s, id));
    case Hidden => SameTimersKeepInv(s, Hide(s, now));
    case Shown => ShowKeepsInv(s, now);
  }

  // ----- runs -----

  datatype Moment = Moment(input: Input, now: int)

  ghost predicate Follow(s: State, m: Moment, t: State, c: Config) {
    Enabled(s, m.input, m.now) && t == Step(s, m.input, m.now, c)
  }

  ghost predicate IsRun(states: seq<State>, moments: seq<Moment>, c: Config) {
    && |states| == |moments| + 1 && states[0] == INITIAL.(inactivityDelaySec := InactivityDelay([], c))
    && (forall i :: 0 <= i < |moments| ==> Follow(states[i], moments[i], states[i + 1], c))
  }

  lemma LongerRun(states: seq<State>, moments: seq<Moment>, m: Moment, t: State, c: Config)
    requires IsRun(states, moments, c) && Follow(states[|moments|], m, t, c)
    ensures IsRun(states + [t], moments + [m], c)
  {
    var longer, more := states + [t], moments + [m];
    forall n | 0 <= n < |more| ensures Follow(longer[n], more[n], longer[n + 1], c) {
      if n < |moments| {
        assert longer[n] == states[n] && more[n] == moments[n] && longer[n + 1] == states[n + 1];
      }
    }
  }

  lemma FollowKeepsInv(s: State, m: Moment, t: State, c: Config)
    requires Inv(s) && Follow(s, m, t, c)
    ensures Inv(t)
  {
    StepKeepsInv(s, m.input, m.now, c);
  }

  lemma {:induction false} RunKeepsInv(states: seq<State>, moments: seq<Moment>, n: nat, c: Config)
    requires IsRun(states, moments, c) && n < |states|
    ensures Inv(states[n])
  {
    if n == 0 {
    } else {
      RunKeepsInv(states, moments, n - 1, c);
      FollowKeepsInv(states[n - 1], moments[n - 1], states[n], c);
    }
  }

  /**
   In every reachable state exactly one grace timer is pending while the manager is stale, and none
   otherwise; and there are no connections or exactly one per URL.
   */
  lemma GraceTimerIffStale(states: seq<State>, moments: seq<Moment>, n: nat, c: Config)
    requires IsRun(states, moments, c) && n < |states|
    ensures var s := states[n];
            && |s.graceTimers| == (if s.stale then 1 else 0)
            && (s.connections == [] || UrlsOf(s.connections) == s.urls)
  {
    RunKeepsInv(states, moments, n, c);
    var s := states[n];
    if s.stale {
      assert s.graceTimers.Keys == {s.gracePeriodTimerId.value};
      assert |s.graceTimers| == |s.graceTimers.Keys|;
    }
  }

  /** Between two STALE reports there is a recovery, an error report or a disconnect. */
  lemma StaleReportsAreSeparated(states: seq<State>, moments: seq<Moment>, n: nat, c: Config, i: nat, j: nat)
    requires IsRun(states, moments, c) && n < |states|
    requires i < j < |states[n].log| && states[n].log[i].OnStale? && states[n].log[j].OnStale?
    ensures exists k :: i < k < j && (var e := states[n].log[k]; e.Recovered? || e.OnError? || e.Disconnected?)
  {
    RunKeepsInv(states, moments, n, c);
    var log := states[n].log;
    assert MayFollow(log[..j], log[j]);
    var k := ClosingEntry(log, i, j);
  }

  lemma {:induction false} ClosingEntry(log: seq<Entry>, i: nat, j: nat) returns (k: nat)
    requires i < j <= |log| && log[i].OnStale? && StaleSince(log[..j]).None?
    ensures i < k < j && (log[k].Recovered? || log[k].OnError? || log[k].Disconnected?)
    decreases j
  {
    var e := log[j - 1];
    assert log[..j][..j - 1] == log[..j - 1] && log[..j][j - 1] == e;
    if e.Recovered? || e.OnError? || e.Disconnected? {
      k := j - 1;
    } else {
      k := ClosingEntry(log, i, j - 1);
    }
  }

  /** The error report of the grace period comes 30 s after the STALE report, if nothing intervened. */
  lemma GraceErrorIsDue(states: seq<State>, moments: seq<Moment>, n: nat, id: nat, now: int, c: Config)
    requires IsRun(states, moments, c) && n < |states| && Enabled(states[n], GraceDue(id), now)
    ensures StaleSince(states[n].log).Some? && StaleSince(states[n].log).value + 30000 <= now
  {
    RunKeepsInv(states, moments, n, c);
  }

  /**
   Every refetch message is answered by the one debounce timer that is pending, due 50 ms after the
   last message of its burst and holding that message's metadata, until a disconnect cuts it off; and
   nothing else is ever answered.
   */
  lemma MessagesAreCoalesced(states: seq<State>, moments: seq<Moment>, n: nat, c: Config)
    requires IsRun(states, moments, c) && n < |states|
    ensures var s := states[n];
            match Unanswered(s.log)
            case None => s.debounceTimers == map[]
            case Some((metadata, at)) =>
              && s.debounceTimerId.Some? && s.debounceTimers == map[s.debounceTimerId.value := at + 50]
              && s.pendingMetadata == Some(metadata)
    ensures WellFormed(states[n].log)
  {
    RunKeepsInv(states, moments, n, c);
  }

  /** When that timer fires, the answer is one refetch with that metadata, and nothing stays unanswered. */
  lemma BurstIsAnsweredOnce(states: seq<State>, moments: seq<Moment>, n: nat, id: nat, now: int, c: Config)
    requires IsRun(states, moments, c) && n < |states| && Enabled(states[n], DebounceDue(id), now)
    ensures var s, t := states[n], Step(states[n], DebounceDue(id), now, c);
            && Unanswered(s.log).Some? && t.log == s.log + [OnRefetch(Unanswered(s.log).value.0, now)]
            && Unanswered(t.log).None? && t.debounceTimers == map[]
  {
    RunKeepsInv(states, moments, n, c);
    DebounceKeepsInv(states[n], id, now);
    AppendFolds(states[n].log, OnRefetch(Unanswered(states[n].log).value.0, now));
  }

  lemma {:induction false} DisposedOpensNothing(s: State, urls: seq<string>)
    requires s.disposed
    ensures ConnectToUrls(s, urls) == s
    decreases |urls|
  {
    if urls == [] {
    } else {
      DisposedOpensNothing(s, urls[1..]);
    }
  }

  lemma DisposedConnect(s: State, streams: seq<EventStream>, now: int, c: Config)
    requires s.disposed && s.connections == []
    ensures var t := Connect(s, streams, now, c); t.disposed && t.connections == [] && t.open <= s.open
  {
    var t := s.(inactivityDelaySec := InactivityDelay(streams, c));
    DisposedOpensNothing(Disconnect(t, now).(urls := Urls(streams)), Urls(streams));
  }

  lemma DisposedConnectsNothing(s: State, i: Input, now: int, c: Config)
    requires s.disposed && s.connections == [] && Enabled(s, i, now)
    ensures var t := Step(s, i, now, c); t.disposed && t.connections == [] && t.open <= s.open
  {
    match i
    case Connecting(streams) => DisposedConnect(s, streams, now, c);
    case Shown => DisposedOpensNothing(ClearInactivityTimer(s), s.urls);
    case _ =>
  }

  lemma FollowConnectsNothing(s: State, m: Moment, t: State, c: Config)
    requires s.disposed && s.connections == [] && Follow(s, m, t, c)
    ensures t.disposed && t.connections == [] && t.open <= s.open
  {
    DisposedConnectsNothing(s, m.input, m.now, c);
  }

  lemma FollowDisposes(s: State, now: int, t: State, c: Config)
    requires Follow(s, Moment(Disposing, now), t, c)
    ensures t.disposed && t.connections == [] && t.open == s.open - ToSet(s.connections)
  {
  }

  /**
   In every run, from `dispose` on there is no connection, and no event source is open but those that had none
   before; there are no such ones if no fatal error met another event source.
   */
  lemma {:induction false} DisposedStaysClosed(states: seq<State>, moments: seq<Moment>, m: nat, n: nat, c: Config)
    requires IsRun(states, moments, c) && m < n < |states| && moments[m].input.Disposing?
    ensures states[n].disposed && states[n].connections == []
    ensures states[n].open <= states[m].open - ToSet(states[m].connections)
    ensures Tidy(states[m]) ==> states[n].open == {}
    decreases n
  {
    if n == m + 1 {
      FollowDisposes(states[m], moments[m].now, states[n], c);
    } else {
      DisposedStaysClosed(states, moments, m, n - 1, c);
      FollowConnectsNothing(states[n - 1], moments[n - 1], states[n], c);
    }
  }

  // ----- event sources and connections -----

  /** The open event sources are those of the connections. */
  predicate Tidy(s: State) {
    s.open == ToSet(s.connections)
  }

  lemma ToSetAppend(connections: seq<Connection>, es: Connection)
    ensures ToSet(connections + [es]) == ToSet(connections) + {es}
  {
    var all := connections + [es];
    assert all[|connections|] == es;
    forall x | x in ToSet(connections) ensures x in ToSet(all) {
      var k :| 0 <= k < |connections| && connections[k] == x;
      assert all[k] == x;
    }
  }

  lemma {:induction false} ConnectingKeepsTidy(s: State, urls: seq<string>)
    requires Tidy(s)
    ensures Tidy(ConnectToUrls(s, urls))
    decreases |urls|
  {
    if urls == [] {
    } else {
      ToSetAppend(s.connections, Connection(s.nextId, urls[0]));
      ConnectingKeepsTidy(ConnectToUrl(s, urls[0]), urls[1..]);
    }
  }

  lemma NoneLeft(s: State, now: int)
    requires Tidy(s)
    ensures Disconnect(s, now).open == {} && Tidy(Disconnect(s, now))
  {
    assert ToSet([]) == {};
  }

  lemma ConnectKeepsTidy(s: State, streams: seq<EventStream>, now: int, c: Config)
    requires Tidy(s)
    ensures Tidy(Connect(s, streams, now, c))
  {
    NoneLeft(s, now);
    var t := s.(inactivityDelaySec := InactivityDelay(streams, c));
    NoneLeft(t, now);
    ConnectingKeepsTidy(Disconnect(t, now).(urls := Urls(streams)), Urls(streams));
  }

  lemma ShowKeepsTidy(s: State, now: int)
    requires Tidy(s)
    ensures Tidy(Show(s, now))
  {
    ConnectingKeepsTidy(ClearInactivityTimer(s), s.urls);
  }

  /** A fatal error while some other event source is open. */
  predicate MeetsAnother(s: State, i: Input) {
    i.Failed? && i.closed && s.open != {i.es}
  }

  lemma FailureKeepsTidyExactly(s: State, es: Connection, closed: bool, now: int)
    requires Tidy(s) && es in s.open
    ensures Tidy(HandleError(s, es, closed, now)) <==> !MeetsAnother(s, Failed(es, closed))
  {
    assert ToSet([]) == {};
  }

  /** Of all steps, only a fatal error that meets another open event source leaves one without a connection. */
  lemma StepKeepsTidyExactly(s: State, i: Input, now: int, c: Config)
    requires Tidy(s) && Enabled(s, i, now)
    ensures Tidy(Step(s, i, now, c)) <==> !MeetsAnother(s, i)
  {
    assert ToSet([]) == {};
    match i
    case Connecting(streams) => ConnectKeepsTidy(s, streams, now, c);
    case Disconnecting => NoneLeft(s, now);
    case Disposing => NoneLeft(s.(disposed := true), now);
    case Failed(es, closed) => FailureKeepsTidyExactly(s, es, closed, now);
    case Shown => ShowKeepsTidy(s, now);
    case _ =>
  }

  lemma {:induction false} TidySoFar(states: seq<State>, moments: seq<Moment>, n: nat, c: Config)
    requires IsRun(states, moments, c) && n < |states|
    requires forall k :: 0 <= k < n ==> !MeetsAnother(states[k], moments[k].input)
    ensures Tidy(states[n])
  {
    if n == 0 {
      assert ToSet([]) == {};
    } else {
      TidySoFar(states, moments, n - 1, c);
      FollowKeepsTidyExactly(states[n - 1], moments[n - 1], states[n], c);
    }
  }

  lemma FollowKeepsTidyExactly(s: State, m: Moment, t: State, c: Config)
    requires Tidy(s) && Follow(s, m, t, c)
    ensures Tidy(t) <==> !MeetsAnother(s, m.input)
  {
    StepKeepsTidyExactly(s, m.input, m.now, c);
  }

  /**
   In a run every open event source belongs to a connection throughout if and only if no fatal error meets
   another open event source.
   */
  lemma RunIsTidyExactly(states: seq<State>, moments: seq<Moment>, c: Config)
    requires IsRun(states, moments, c)
    ensures (forall n :: 0 <= n < |states| ==> Tidy(states[n])) <==>
              (forall k :: 0 <= k < |moments| ==> !MeetsAnother(states[k], moments[k].input))
  {
    if forall k :: 0 <= k < |moments| ==> !MeetsAnother(states[k], moments[k].input) {
      forall n | 0 <= n < |states| ensures Tidy(states[n]) {
        TidySoFar(states, moments, n, c);
      }
    } else {
      var k :| 0 <= k < |moments| && MeetsAnother(states[k], moments[k].input);
      if Tidy(states[k]) {
        FollowKeepsTidyExactly(states[k], moments[k], states[k + 1], c);
      }
    }
  }

  /**
   A fatal error of one connection forgets all of them but closes none: the other event sources stay
   open, and their messages still lead to refetches although the manager has no connection.
   */
  lemma FatalErrorLeavesOthersOpen(s: State, es: Connection, other: Connection, metadata: Metadata, now: int, c: Config)
    requires Inv(s) && es in s.open && other in s.open && other != es
    ensures var t := Step(s, Failed(es, true), now, c);
            && t.connections == [] && other in t.open
            && Unanswered(Step(t, Received(other, Refetch(metadata)), now, c).log) == Some((metadata, now))
  {
    var t := Step(s, Failed(es, true), now, c);
    AppendFolds(t.log, MessageReceived(metadata, now));
  }

  lemma UrlsOfTwo(a: string, b: string)
    requires a != b
    ensures Urls([EventStream(true, Some(a), None), EventStream(true, Some(b), None)]) == [a, b]
  {
    var one := [EventStream(true, Some(a), None)];
    assert one[..0] == [];
    assert Urls([]) == [];
    assert Urls(one) == [] + [a] == [a];
    var two := [EventStream(true, Some(a), None), EventStream(true, Some(b), None)];
    assert two[..1] == one;
    assert Urls(two) == [a] + [b];
  }

  lemma ConnectTwo(s: State, a: string, b: string)
    requires !s.disposed && s.connections == [] && s.open == {} && s.nextId == 0
    ensures var t := ConnectToUrls(s, [a, b]);
            t.connections == [Connection(0, a), Connection(1, b)] && t.open == {Connection(0, a), Connection(1, b)}
    ensures ConnectToUrls(s, [a, b]).stale == s.stale
  {
    var u := ConnectToUrl(s, a);
    var v := ConnectToUrl(u, b);
    assert [a, b][1..] == [b] && [b][1..] == [];
    assert ConnectToUrls(v, []) == v;
    assert ConnectToUrls(u, [b]) == v;
    assert v.connections == [Connection(0, a)] + [Connection(1, b)];
  }

  lemma TwoConnections(a: string, b: string, now: int, c: Config)
    requires a != b
    ensures var streams := [EventStream(true, Some(a), None), EventStream(true, Some(b), None)];
            var s := Connect(INITIAL.(inactivityDelaySec := InactivityDelay([], c)), streams, now, c);
            s.connections == [Connection(0, a), Connection(1, b)] && s.open == {Connection(0, a), Connection(1, b)}
  {
    var streams := [EventStream(true, Some(a), None), EventStream(true, Some(b), None)];
    assert streams[0].isSse;
    UrlsOfTwo(a, b);
    var t := INITIAL.(inactivityDelaySec := InactivityDelay(streams, c));
    ConnectTwo(Disconnect(t, now).(urls := [a, b]), a, b);
  }

  /**
   A manager of two streams gets there: no connection, and a message of the forgotten event source still to
   be answered.
   */
  lemma ForgottenSourceIsReachable(a: string, b: string, metadata: Metadata, c: Config)
    requires a != b
    ensures exists states: seq<State>, moments: seq<Moment> ::
              && IsRun(states, moments, c) && states[|moments|].connections == []
              && states[|moments|].open == {Connection(1, b)}
              && Unanswered(states[|moments|].log) == Some((metadata, 0))
  {
    var s1, m1 := ConnectedTwo(a, b, c);
    var es, other := Connection(0, a), Connection(1, b);
    var m2, m3 := Moment(Failed(es, true), 0), Moment(Received(other, Refetch(metadata)), 0);
    var s2 := HandleError(s1, es, true, 0);
    ForgottenButOpen(s1, es, other);
    var s3 := HandleMessage(s2, Refetch(metadata), 0);
    AnswerPending(s2, other, metadata);
    var s0 := INITIAL.(inactivityDelaySec := InactivityDelay([], c));
    LongerRun([s0], [], m1, s1, c);
    LongerRun([s0] + [s1], [] + [m1], m2, s2, c);
    LongerRun([s0] + [s1] + [s2], [] + [m1] + [m2], m3, s3, c);
  }

  lemma ConnectedTwo(a: string, b: string, c: Config) returns (s: State, m: Moment)
    requires a != b
    ensures Follow(INITIAL.(inactivityDelaySec := InactivityDelay([], c)), m, s, c)
    ensures s.open == {Connection(0, a), Connection(1, b)}
  {
    var streams := [EventStream(true, Some(a), None), EventStream(true, Some(b), None)];
    m := Moment(Connecting(streams), 0);
    s := Connect(INITIAL.(inactivityDelaySec := InactivityDelay([], c)), streams, 0, c);
    TwoConnections(a, b, 0, c);
  }

  lemma ForgottenButOpen(s: State, es: Connection, other: Connection)
    requires s.open == {es, other} && es != other
    ensures var t := HandleError(s, es, true, 0); t.connections == [] && t.open == {other} && !t.stale
  {
  }

  lemma AnswerPending(s: State, es: Connection, metadata: Metadata)
    requires !s.stale
    ensures var t := HandleMessage(s, Refetch(metadata), 0);
            t.connections == s.connections && t.open == s.open && Unanswered(t.log) == Some((metadata, 0))
  {
    AppendFolds(s.log, MessageReceived(metadata, 0));
  }
}
