/**
 What each input does to the SSE manager: which connections there are afterwards, what is reported, and, over runs,
 when the inactivity timeout closes the connections and what showing the page again brings back.
 */
module SseEffects {
  import opened SseProtocol

  // ----- which connections `connect` leads to -----

  /** Some stream is an SSE stream that resolves to `url`. */
  predicate Advertised(streams: seq<EventStream>, url: string) {
    exists k :: 0 <= k < |streams| && streams[k].isSse && streams[k].url == Some(url)
  }

  lemma {:induction false} UrlsAreAdvertised(streams: seq<EventStream>, url: string)
    ensures url in Urls(streams) <==> Advertised(streams, url)
  {
    if streams == [] {
    } else {
      var front, last := streams[..|streams| - 1], streams[|streams| - 1];
      UrlsAreAdvertised(front, url);
      assert streams == front + [last];
      if Advertised(streams, url) && !(last.isSse && last.url == Some(url)) {
        var k :| 0 <= k < |streams| && streams[k].isSse && streams[k].url == Some(url);
        assert front[k] == streams[k];
      }
      if Advertised(front, url) {
        var k :| 0 <= k < |front| && front[k].isSse && front[k].url == Some(url);
        assert streams[k] == front[k];
      }
    }
  }

  predicate Distinct(urls: seq<string>) {
    forall i, j :: 0 <= i < j < |urls| ==> urls[i] != urls[j]
  }

  function SetOf(urls: seq<string>): set<string> {
    set url | url in urls
  }

  lemma {:induction false} DistinctSize(urls: seq<string>)
    requires Distinct(urls)
    ensures |SetOf(urls)| == |urls|
  {
    if urls == [] {
    } else {
      var front, last := urls[..|urls| - 1], urls[|urls| - 1];
      DistinctSize(front);
      assert urls == front + [last];
      assert SetOf(urls) == SetOf(front) + {last};
      assert forall k :: 0 <= k < |front| ==> front[k] == urls[k];
      assert last !in front;
    }
  }

  lemma {:induction false} SubsetOfSameSize(a: set<string>, b: set<string>)
    requires a <= b && |a| == |b|
    ensures a == b
  {
    if a == {} {
    } else {
      var x :| x in a;
      SubsetOfSameSize(a - {x}, b - {x});
    }
  }

  /** Comparing the numbers and looking each one up is comparing the sets. */
  lemma SameUrlsExactly(urls: seq<string>, others: seq<string>)
    requires Distinct(urls) && Distinct(others)
    ensures SameUrls(urls, others) <==> forall url :: url in urls <==> url in others
  {
    DistinctSize(urls);
    DistinctSize(others);
    if SameUrls(urls, others) {
      assert SetOf(urls) <= SetOf(others);
      SubsetOfSameSize(SetOf(urls), SetOf(others));
      forall url ensures url in urls <==> url in others {
        assert url in SetOf(urls) <==> url in SetOf(others);
      }
    } else if forall url :: url in urls <==> url in others {
      SameSetSameUrls(urls, others);
    }
  }

  lemma SameSetSameUrls(urls: seq<string>, others: seq<string>)
    requires Distinct(urls) && Distinct(others) && forall url :: url in urls <==> url in others
    ensures SameUrls(urls, others)
  {
    DistinctSize(urls);
    DistinctSize(others);
    assert SetOf(urls) == SetOf(others);
    assert forall k :: 0 <= k < |urls| ==> urls[k] in urls;
  }

  /** The manager is connected to exactly the advertised URLs. */
  ghost predicate ConnectedTo(s: State, streams: seq<EventStream>) {
    forall url :: url in UrlsOf(s.connections) <==> Advertised(streams, url)
  }

  /** There are connections, and to exactly the advertised URLs already. */
  ghost predicate Unchanged(s: State, streams: seq<EventStream>) {
    s.connections != [] && ConnectedTo(s, streams)
  }

  lemma UnchangedExactly(s: State, streams: seq<EventStream>)
    requires Inv(s)
    ensures Unchanged(s, streams) <==>
              s.connections != [] && HasSse(streams) && Urls(streams) != [] && SameUrls(Urls(streams), s.urls)
  {
    if s.connections != [] {
      UrlsDistinct(streams);
      SameUrlsExactly(Urls(streams), s.urls);
      forall url ensures url in Urls(streams) <==> Advertised(streams, url) {
        UrlsAreAdvertised(streams, url);
      }
      assert UrlsOf(s.connections) == s.urls && |s.urls| == |s.connections| > 0;
      assert s.urls[0] in s.urls;
      if Urls(streams) != [] {
        assert Urls(streams)[0] in Urls(streams);
        assert Advertised(streams, Urls(streams)[0]);
      }
      if Unchanged(s, streams) {
        assert Advertised(streams, s.urls[0]);
      }
    }
  }

  lemma {:induction false} OpensEach(s: State, urls: seq<string>)
    requires !s.disposed
    ensures var t := ConnectToUrls(s, urls);
            && |t.connections| == |s.connections| + |urls| && t.connections[..|s.connections|] == s.connections
            && (forall k :: |s.connections| <= k < |t.connections| ==> t.connections[k].id >= s.nextId)
            && t.open == s.open + ToSet(t.connections[|s.connections|..])
            && t.log == s.log && t.inactivityDelaySec == s.inactivityDelaySec
    decreases |urls|
  {
    if urls == [] {
      assert s.connections[|s.connections|..] == [];
    } else {
      var u := ConnectToUrl(s, urls[0]);
      var es := Connection(s.nextId, urls[0]);
      OpensEach(u, urls[1..]);
      var t := ConnectToUrls(u, urls[1..]);
      var n := |s.connections|;
      assert u.connections == s.connections + [es];
      assert t.connections[..n] == t.connections[..n + 1][..n];
      assert t.connections[n..] == [es] + t.connections[n + 1..];
      ToSetFront(es, t.connections[n + 1..]);
      assert t.connections[n] == u.connections[n];
    }
  }

  lemma ToSetFront(es: Connection, rest: seq<Connection>)
    ensures ToSet([es] + rest) == {es} + ToSet(rest)
  {
    var all := [es] + rest;
    assert forall k :: 0 <= k < |rest| ==> all[k + 1] == rest[k];
    assert all[0] == es;
    forall x | x in ToSet(rest) ensures x in ToSet(all) {
      var k :| 0 <= k < |rest| && rest[k] == x;
      assert all[k + 1] == x;
    }
  }

  /** What was connected is closed, and what is connected now is new. */
  ghost predicate Replaced(s: State, t: State, now: int) {
    && (forall es <- t.connections :: es.id >= s.nextId)
    && t.open == s.open - ToSet(s.connections) + ToSet(t.connections)
    && t.log == s.log + [Disconnected(now)]
  }

  lemma ReconnectReplaces(s: State, urls: seq<string>, now: int, c: Config)
    requires !s.disposed
    ensures var t := Reconnect(s, urls, now, c);
            Replaced(s, t, now) && UrlsOf(t.connections) == urls && t.inactivityDelaySec == s.inactivityDelaySec
  {
    var d := Disconnect(s, now).(urls := urls);
    ConnectToUrlsAdds(d, urls);
    OpensEach(d, urls);
    assert UrlsOf(d.connections) == [] && [] + urls == urls;
    var t := ConnectToUrls(d, urls);
    assert t.connections[0..] == t.connections;
  }

  lemma DisconnectReplaces(s: State, now: int)
    ensures Replaced(s, Disconnect(s, now), now) && UrlsOf(Disconnect(s, now).connections) == []
  {
    assert ToSet([]) == {};
  }

  /** The delay from a result counts only if it has an SSE stream. */
  function DelayAfter(s: State, streams: seq<EventStream>, c: Config): int {
    if HasSse(streams) then InactivityDelay(streams, c) else s.inactivityDelaySec
  }

  /**
   After `connect` there is one connection for each URL that an SSE stream resolves to, and no other; the old
   connections are kept if and only if there were some and to exactly these URLs, and are closed otherwise.
   */
  lemma ConnectFollowsStreams(s: State, streams: seq<EventStream>, now: int, c: Config)
    requires Inv(s) && !s.disposed
    ensures var t := Step(s, Connecting(streams), now, c);
            && ConnectedTo(t, streams) && Distinct(UrlsOf(t.connections))
            && if Unchanged(s, streams) then t == s.(inactivityDelaySec := DelayAfter(s, streams, c))
               else Replaced(s, t, now)
  {
    var t := Step(s, Connecting(streams), now, c);
    ConnectKeepsInv(s, streams, now, c);
    UnchangedExactly(s, streams);
    if !Unchanged(s, streams) {
      ConnectReplaces(s, streams, now, c);
    }
    assert Distinct(UrlsOf(t.connections)) by {
      assert t.connections == [] || UrlsOf(t.connections) == t.urls;
    }
  }

  lemma ConnectReplaces(s: State, streams: seq<EventStream>, now: int, c: Config)
    requires Inv(s) && !s.disposed && !Unchanged(s, streams)
    ensures var t := Connect(s, streams, now, c); Replaced(s, t, now) && ConnectedTo(t, streams)
  {
    UnchangedExactly(s, streams);
    var t := s.(inactivityDelaySec := InactivityDelay(streams, c));
    forall url ensures url in Urls(streams) <==> Advertised(streams, url) {
      UrlsAreAdvertised(streams, url);
    }
    NoSseNoUrls(streams);
    if !HasSse(streams) {
      DisconnectReplaces(s, now);
    } else if Urls(streams) == [] {
      DisconnectReplaces(t, now);
    } else {
      ReconnectReplaces(t, Urls(streams), now, c);
    }
  }

  lemma NoSseNoUrls(streams: seq<EventStream>)
    ensures !HasSse(streams) ==> Urls(streams) == []
  {
    if !HasSse(streams) && Urls(streams) != [] {
      UrlsAreAdvertised(streams, Urls(streams)[0]);
    }
  }

  // ----- what is reported -----

  /** Showing the page finds the connections closed although there are URLs. */
  predicate Resumes(s: State) {
    s.inactivityTimerId.Some? && s.connections == [] && s.urls != []
  }

  function Recovery(s: State, now: int): seq<Entry> {
    if s.stale then [Recovered(now)] else []
  }

  lemma RecoveryIsLogged(s: State, now: int)
    ensures Recover(s, now).log == s.log + Recovery(s, now)
  {
    assert s.log + [] == s.log;
  }

  lemma MessageIsLogged(s: State, m: Message, now: int)
    ensures HandleMessage(s, m, now).log
            == s.log + (Recovery(s, now) + if m.Refetch? then [MessageReceived(m.metadata, now)] else [])
  {
    RecoveryIsLogged(s, now);
    var r := Recovery(s, now);
    assert r + [] == r;
    if m.Refetch? {
      assert s.log + r + [MessageReceived(m.metadata, now)] == s.log + (r + [MessageReceived(m.metadata, now)]);
    }
  }

  lemma ShowIsLogged(s: State, now: int)
    ensures Show(s, now).log == s.log + if Resumes(s) then [OnFullRefetch(now)] else []
  {
    assert s.log + [] == s.log;
    ConnectToUrlsAdds(ClearInactivityTimer(s), s.urls);
  }

  lemma ReconnectIsLogged(s: State, urls: seq<string>, now: int, c: Config)
    ensures Reconnect(s, urls, now, c).log == s.log + [Disconnected(now)]
  {
    ConnectToUrlsAdds(Disconnect(s, now).(urls := urls), urls);
  }

  lemma ConnectIsLogged(s: State, streams: seq<EventStream>, now: int, c: Config)
    requires Inv(s)
    ensures Connect(s, streams, now, c).log == s.log + if Unchanged(s, streams) then [] else [Disconnected(now)]
  {
    assert s.log + [] == s.log;
    UnchangedExactly(s, streams);
    NoSseNoUrls(streams);
    ReconnectIsLogged(s.(inactivityDelaySec := InactivityDelay(streams, c)), Urls(streams), now, c);
  }

  /**
   What a step reports to the provider, and logs besides: STALE for a transient error unless it is stale already,
   ERROR for a fatal one and at the end of the grace period, a refetch at the end of a burst and on resuming.
   */
  lemma ReportsExactly(s: State, i: Input, now: int, c: Config)
    requires Inv(s) && Enabled(s, i, now)
    ensures Step(s, i, now, c).log == s.log + match i
            case Connecting(streams) => if Unchanged(s, streams) then [] else [Disconnected(now)]
            case Disconnecting => [Disconnected(now)]
            case Disposing => [Disconnected(now)]
            case Opened(_) => if s.stale then [Recovered(now)] else []
            case Received(_, m) => Recovery(s, now) + if m.Refetch? then [MessageReceived(m.metadata, now)] else []
            case Failed(_, closed) => if closed then [OnError(now)] else if s.stale then [] else [OnStale(now)]
            case GraceDue(_) => [OnError(now)]
            case DebounceDue(_) =>
              [match s.pendingMetadata case Some(m) => OnRefetch(m, now) case None => OnFullRefetch(now)]
            case InactivityDue(_) => []
            case Hidden => []
            case Shown => if Resumes(s) then [OnFullRefetch(now)] else []
  {
    assert s.log + [] == s.log;
    match i
    case Connecting(streams) => ConnectIsLogged(s, streams, now, c);
    case Opened(_) => RecoveryIsLogged(s, now);
    case Received(_, m) => MessageIsLogged(s, m, now);
    case Shown => ShowIsLogged(s, now);
    case _ =>
  }

  // ----- which connections other inputs leave -----

  /** All connections are closed and forgotten. */
  ghost predicate AllClosed(s: State, t: State) {
    t.connections == [] && t.open == s.open - ToSet(s.connections)
  }

  lemma ShowReconnects(s: State, now: int)
    ensures var t := Show(s, now);
            && t.urls == s.urls
            && if Resumes(s) && !s.disposed then
                 UrlsOf(t.connections) == s.urls && t.open == s.open + ToSet(t.connections)
               else t.connections == s.connections && t.open == s.open
  {
    var u := ClearInactivityTimer(s);
    ConnectToUrlsAdds(u, s.urls);
    if s.disposed {
      DisposedOpensNothing(u, s.urls);
    } else {
      OpensEach(u, s.urls);
      assert ConnectToUrls(u, s.urls).connections[0..] == ConnectToUrls(u, s.urls).connections;
    }
    assert UrlsOf([]) == [] && [] + s.urls == s.urls;
  }

  /**
   Connections are closed by disconnecting and at the end of the grace period, with their URLs, and by the inactivity
   timeout, which keeps the URLs; a fatal error closes its own event source and forgets all; showing the page opens
   one for each URL kept; and nothing else touches them.
   */
  lemma SourcesChangeExactly(s: State, i: Input, now: int, c: Config)
    requires Enabled(s, i, now) && !i.Connecting?
    ensures var t := Step(s, i, now, c);
            match i
            case Disconnecting => AllClosed(s, t) && t.urls == []
            case Disposing => AllClosed(s, t) && t.urls == []
            case GraceDue(_) => AllClosed(s, t) && t.urls == []
            case InactivityDue(_) => AllClosed(s, t) && t.urls == s.urls
            case Failed(es, true) => t.connections == [] && t.open == s.open - {es} && t.urls == []
            case Shown =>
              && t.urls == s.urls
              && if Resumes(s) && !s.disposed then
                   UrlsOf(t.connections) == s.urls && t.open == s.open + ToSet(t.connections)
                 else t.connections == s.connections && t.open == s.open
            case _ => t.connections == s.connections && t.open == s.open && t.urls == s.urls
  {
    match i
    case Shown => ShowReconnects(s, now);
    case _ =>
  }

  /** Of the other fields: who is disposed of, who watches visibility, and the delay. */
  lemma SettingsStayExactly(s: State, i: Input, now: int, c: Config)
    requires Enabled(s, i, now) && !i.Connecting?
    ensures var t := Step(s, i, now, c);
            && (t.disposed <==> s.disposed || i.Disposing?)
            && (t.visibilityHandler <==> s.visibilityHandler && !i.Disconnecting? && !i.Disposing?)
            && t.inactivityDelaySec == s.inactivityDelaySec
  {
    match i
    case Shown => ShowKeepsRest(s, now);
    case _ =>
  }

  lemma {:induction false} OpeningKeepsRest(s: State, urls: seq<string>)
    ensures var t := ConnectToUrls(s, urls);
            && t.disposed == s.disposed && t.visibilityHandler == s.visibilityHandler
            && t.inactivityDelaySec == s.inactivityDelaySec && t.urls == s.urls
            && t.inactivityTimers == s.inactivityTimers && t.inactivityTimerId == s.inactivityTimerId
    decreases |urls|
  {
    if urls == [] {
    } else {
      OpeningKeepsRest(ConnectToUrl(s, urls[0]), urls[1..]);
    }
  }

  lemma ShowKeepsRest(s: State, now: int)
    ensures var t := Show(s, now);
            && t.disposed == s.disposed && t.visibilityHandler == s.visibilityHandler
            && t.inactivityDelaySec == s.inactivityDelaySec
            && t.inactivityTimers == ClearInactivityTimer(s).inactivityTimers && t.inactivityTimerId.None?
  {
    OpeningKeepsRest(ClearInactivityTimer(s), s.urls);
  }

  lemma ReconnectKeepsRest(s: State, urls: seq<string>, now: int, c: Config)
    ensures var t := Reconnect(s, urls, now, c);
            && t.visibilityHandler == c.hasDocument && t.inactivityDelaySec == s.inactivityDelaySec && t.urls == urls
            && t.disposed == s.disposed
            && t.inactivityTimers == ClearInactivityTimer(s).inactivityTimers && t.inactivityTimerId.None?
  {
    OpeningKeepsRest(Disconnect(s, now).(urls := urls), urls);
  }

  /** Of `connect`: the delay, the handler that watches visibility, and what becomes of the inactivity timer. */
  lemma ConnectAdjusts(s: State, streams: seq<EventStream>, now: int, c: Config)
    requires Inv(s)
    ensures var t := Step(s, Connecting(streams), now, c);
            && t.inactivityDelaySec == DelayAfter(s, streams, c) && t.disposed == s.disposed
            && if Unchanged(s, streams) then
                 && t.visibilityHandler == s.visibilityHandler && t.urls == s.urls
                 && t.inactivityTimers == s.inactivityTimers && t.inactivityTimerId == s.inactivityTimerId
               else
                 && t.visibilityHandler == (c.hasDocument && Urls(streams) != []) && t.urls == Urls(streams)
                 && t.inactivityTimers == ClearInactivityTimer(s).inactivityTimers && t.inactivityTimerId.None?
  {
    UnchangedExactly(s, streams);
    NoSseNoUrls(streams);
    ReconnectKeepsRest(s.(inactivityDelaySec := InactivityDelay(streams, c)), Urls(streams), now, c);
  }

  // ----- inactivity -----

  lemma {:induction false} ServerInactivityMeans(streams: seq<EventStream>)
    ensures match ServerInactivity(streams)
            case None => forall k :: 0 <= k < |streams| && streams[k].isSse ==> streams[k].inactivityDelaySec.None?
            case Some(delay) =>
              exists k :: 0 <= k < |streams| && streams[k].isSse && streams[k].inactivityDelaySec == Some(delay)
                && forall j :: 0 <= j < k && streams[j].isSse ==> streams[j].inactivityDelaySec.None?
  {
    if streams == [] {
    } else if streams[0].isSse && streams[0].inactivityDelaySec.Some? {
    } else {
      ServerInactivityMeans(streams[1..]);
      assert forall k :: 0 < k < |streams| ==> streams[k] == streams[1..][k - 1];
      match ServerInactivity(streams[1..])
      case None =>
      case Some(delay) =>
        var k :| 0 <= k < |streams[1..]| && streams[1..][k].isSse && streams[1..][k].inactivityDelaySec == Some(delay)
          && forall j :: 0 <= j < k && streams[1..][j].isSse ==> streams[1..][j].inactivityDelaySec.None?;
        assert streams[k + 1] == streams[1..][k];
        forall j | 0 <= j < k + 1 && streams[j].isSse ensures streams[j].inactivityDelaySec.None? {
          if j > 0 {
            assert streams[1..][j - 1].inactivityDelaySec.None?;
          }
        }
    }
  }

  /** The client's delay counts; without it that of the first SSE stream that has one; without any, two minutes. */
  lemma InactivityDelayMeans(streams: seq<EventStream>, c: Config)
    ensures var delay := InactivityDelay(streams, c);
            if c.clientInactivityOverride.Some? then delay == c.clientInactivityOverride.value
            else
              || (delay == 120
                  && forall k :: 0 <= k < |streams| && streams[k].isSse ==> streams[k].inactivityDelaySec.None?)
              || exists k :: 0 <= k < |streams| && streams[k].isSse && streams[k].inactivityDelaySec == Some(delay)
                   && forall j :: 0 <= j < k && streams[j].isSse ==> streams[j].inactivityDelaySec.None?
  {
    ServerInactivityMeans(streams);
  }

  /** When the inactivity timer is due that is pending after `n` steps, if one is. */
  ghost function InactivityDueAt(states: seq<State>, moments: seq<Moment>, n: nat): Option<int>
    requires n <= |moments| < |states|
  {
    if n == 0 then None
    else
      match moments[n - 1].input
      case Hidden => Some(moments[n - 1].now + states[n - 1].inactivityDelaySec * 1000)
      case Shown => None
      case InactivityDue(_) => None
      case Disconnecting => None
      case Disposing => None
      case Connecting(streams) =>
        if Unchanged(states[n - 1], streams) then InactivityDueAt(states, moments, n - 1) else None
      case _ => InactivityDueAt(states, moments, n - 1)
  }

  /** The one inactivity timer there is, or none. */
  ghost predicate InactivityTimer(s: State, due: Option<int>) {
    && (s.inactivityTimerId.Some? ==> s.inactivityTimerId.value < s.nextId)
    && match due
       case None => s.inactivityTimers == map[]
       case Some(at) => s.inactivityTimerId.Some? && s.inactivityTimers == map[s.inactivityTimerId.value := at]
  }

  lemma {:induction false} OpeningGrowsIds(s: State, urls: seq<string>)
    ensures ConnectToUrls(s, urls).nextId >= s.nextId
    decreases |urls|
  {
    if urls == [] {
    } else {
      OpeningGrowsIds(ConnectToUrl(s, urls[0]), urls[1..]);
    }
  }

  lemma ClearedIsEmpty(s: State, due: Option<int>)
    requires InactivityTimer(s, due)
    ensures ClearInactivityTimer(s).inactivityTimers == map[]
  {
  }

  lemma HiddenStartsTimer(s: State, due: Option<int>, now: int)
    requires InactivityTimer(s, due)
    ensures InactivityTimer(Hide(s, now), Some(now + s.inactivityDelaySec * 1000))
  {
    ClearedIsEmpty(s, due);
  }

  lemma FiredIsEmpty(s: State, due: Option<int>, id: nat)
    requires InactivityTimer(s, due) && id in s.inactivityTimers
    ensures InactivityTimer(InactivityExpired(s, id), None) && due == Some(s.inactivityTimers[id])
  {
  }

  lemma ConnectTimer(s: State, streams: seq<EventStream>, due: Option<int>, now: int, c: Config)
    requires Inv(s) && InactivityTimer(s, due)
    ensures InactivityTimer(Connect(s, streams, now, c), if Unchanged(s, streams) then due else None)
  {
    UnchangedExactly(s, streams);
    ClearedIsEmpty(s, due);
    ConnectAdjusts(s, streams, now, c);
  }

  lemma StepTimer(s: State, i: Input, due: Option<int>, now: int, c: Config)
    requires Inv(s) && InactivityTimer(s, due) && Enabled(s, i, now)
    ensures var after := match i
                         case Hidden => Some(now + s.inactivityDelaySec * 1000)
                         case Shown => None
                         case InactivityDue(_) => None
                         case Disconnecting => None
                         case Disposing => None
                         case Connecting(streams) => if Unchanged(s, streams) then due else None
                         case _ => due;
            InactivityTimer(Step(s, i, now, c), after)
  {
    match i
    case Hidden => HiddenStartsTimer(s, due, now);
    case Shown =>
      ClearedIsEmpty(s, due);
      ShowKeepsRest(s, now);
    case InactivityDue(id) => FiredIsEmpty(s, due, id);
    case Disconnecting => ClearedIsEmpty(s, due);
    case Disposing => ClearedIsEmpty(s, due);
    case Connecting(streams) => ConnectTimer(s, streams, due, now, c);
    case _ => OthersKeepTimer(s, i, due, now, c);
  }

  lemma OthersKeepTimer(s: State, i: Input, due: Option<int>, now: int, c: Config)
    requires InactivityTimer(s, due) && Enabled(s, i, now)
    requires i.Opened? || i.Received? || i.Failed? || i.GraceDue? || i.DebounceDue?
    ensures InactivityTimer(Step(s, i, now, c), due)
  {
  }

  lemma FollowTimer(s: State, m: Moment, t: State, due: Option<int>, c: Config)
    requires Inv(s) && InactivityTimer(s, due) && Follow(s, m, t, c)
    ensures InactivityTimer(t, match m.input
                               case Hidden => Some(m.now + s.inactivityDelaySec * 1000)
                               case Shown => None
                               case InactivityDue(_) => None
                               case Disconnecting => None
                               case Disposing => None
                               case Connecting(streams) => if Unchanged(s, streams) then due else None
                               case _ => due)
  {
    StepTimer(s, m.input, due, m.now, c);
  }

  /**
   In every run an inactivity timer is pending exactly since the page was hidden and until it is shown, the timer fires
   or the connections are replaced, and it is due after the delay that counted then.
   */
  lemma {:induction false} InactivityTimerExactly(states: seq<State>, moments: seq<Moment>, n: nat, c: Config)
    requires IsRun(states, moments, c) && n < |states|
    ensures InactivityTimer(states[n], InactivityDueAt(states, moments, n))
  {
    if n == 0 {
    } else {
      InactivityTimerExactly(states, moments, n - 1, c);
      RunKeepsInv(states, moments, n - 1, c);
      FollowTimer(states[n - 1], moments[n - 1], states[n], InactivityDueAt(states, moments, n - 1), c);
    }
  }

  /** It fires no earlier, and closes all connections but keeps their URLs. */
  lemma InactivityCloses(states: seq<State>, moments: seq<Moment>, n: nat, id: nat, now: int, c: Config)
    requires IsRun(states, moments, c) && n < |states| && Enabled(states[n], InactivityDue(id), now)
    ensures var s, t := states[n], Step(states[n], InactivityDue(id), now, c);
            && InactivityDueAt(states, moments, n).Some? && InactivityDueAt(states, moments, n).value <= now
            && AllClosed(s, t) && t.urls == s.urls && t.log == s.log && t.inactivityTimers == map[]
  {
    InactivityTimerExactly(states, moments, n, c);
    FiredIsEmpty(states[n], InactivityDueAt(states, moments, n), id);
  }

  /** Without connections, but with URLs to connect to. */
  predicate Idle(s: State) {
    s.connections == [] && s.urls != []
  }

  /** The inputs that end idleness. */
  predicate Wakes(i: Input) {
    i.Shown? || i.Connecting? || i.Disconnecting? || i.Disposing? || i.GraceDue? || (i.Failed? && i.closed)
  }

  lemma ConnectIsNotIdle(s: State, streams: seq<EventStream>, now: int, c: Config)
    requires Inv(s) && !s.disposed
    ensures !Idle(Step(s, Connecting(streams), now, c))
  {
    ConnectFollowsStreams(s, streams, now, c);
    ConnectAdjusts(s, streams, now, c);
    var t := Step(s, Connecting(streams), now, c);
    if Urls(streams) != [] {
      UrlsAreAdvertised(streams, Urls(streams)[0]);
      assert Urls(streams)[0] in UrlsOf(t.connections);
    }
  }

  lemma IdleChangesExactly(s: State, i: Input, now: int, c: Config)
    requires Inv(s) && !s.disposed && Enabled(s, i, now) && (Idle(s) ==> s.inactivityTimerId.Some?)
    ensures var t := Step(s, i, now, c);
            && (Idle(t) <==> (i.InactivityDue? && s.urls != []) || (Idle(s) && !Wakes(i)))
            && (Idle(t) && !i.InactivityDue? ==> t.inactivityTimerId.Some?)
            && (i.InactivityDue? ==> t.inactivityTimerId == s.inactivityTimerId)
  {
    match i
    case Connecting(streams) => ConnectIsNotIdle(s, streams, now, c);
    case Shown =>
      ShowReconnects(s, now);
      if Resumes(s) {
        assert |UrlsOf(Show(s, now).connections)| > 0;
      }
    case _ => SourcesChangeExactly(s, i, now, c);
  }

  /** What a run keeps about idleness, as long as the manager is not disposed of. */
  ghost predicate IdleInv(s: State) {
    !s.disposed && Idle(s) ==> s.inactivityTimerId.Some?
  }

  lemma FollowIdle(s: State, m: Moment, t: State, due: Option<int>, c: Config)
    requires Inv(s) && InactivityTimer(s, due) && IdleInv(s) && Follow(s, m, t, c) && !t.disposed
    ensures !s.disposed && IdleInv(t)
    ensures Idle(t) <==> (m.input.InactivityDue? && s.urls != []) || (Idle(s) && !Wakes(m.input))
  {
    DisposedForGood(s, m, t, c);
    IdleChangesExactly(s, m.input, m.now, c);
  }

  lemma DisposedForGood(s: State, m: Moment, t: State, c: Config)
    requires Inv(s) && Follow(s, m, t, c)
    ensures s.disposed ==> t.disposed
  {
    match m.input
    case Connecting(streams) => ConnectAdjusts(s, streams, m.now, c);
    case _ => SettingsStayExactly(s, m.input, m.now, c);
  }

  /** The inactivity timeout has closed the connections, and nothing has ended that since. */
  ghost predicate ClosedWhileHidden(states: seq<State>, moments: seq<Moment>, n: nat) {
    exists k: nat :: k < n <= |moments| < |states| && moments[k].input.InactivityDue? && states[k].urls != []
      && forall j: nat :: k < j < n ==> !Wakes(moments[j].input)
  }

  lemma {:induction false} IdleExactly(states: seq<State>, moments: seq<Moment>, n: nat, c: Config)
    requires IsRun(states, moments, c) && n < |states| && !states[n].disposed
    ensures IdleInv(states[n]) && (Idle(states[n]) <==> ClosedWhileHidden(states, moments, n))
  {
    if n == 0 {
    } else {
      var s, m := states[n - 1], moments[n - 1];
      RunKeepsInv(states, moments, n - 1, c);
      InactivityTimerExactly(states, moments, n - 1, c);
      assert Follow(s, m, states[n], c);
      DisposedForGood(s, m, states[n], c);
      IdleExactly(states, moments, n - 1, c);
      FollowIdle(s, m, states[n], InactivityDueAt(states, moments, n - 1), c);
      ClosedOneStepLater(states, moments, n);
    }
  }

  lemma ClosedOneStepLater(states: seq<State>, moments: seq<Moment>, n: nat)
    requires 0 < n <= |moments| < |states|
    ensures ClosedWhileHidden(states, moments, n) <==>
              || (moments[n - 1].input.InactivityDue? && states[n - 1].urls != [])
              || (ClosedWhileHidden(states, moments, n - 1) && !Wakes(moments[n - 1].input))
  {
    if ClosedWhileHidden(states, moments, n - 1) && !Wakes(moments[n - 1].input) {
      var k: nat :| k < n - 1 && moments[k].input.InactivityDue? && states[k].urls != []
        && forall j: nat :: k < j < n - 1 ==> !Wakes(moments[j].input);
      assert forall j: nat :: k < j < n ==> !Wakes(moments[j].input);
    }
  }

  /**
   In every run, showing the page reports a full refetch, and connects to all URLs again, if and only if the
   inactivity timeout closed the connections and nothing has ended that since.
   */
  lemma ResumeReportsExactly(states: seq<State>, moments: seq<Moment>, n: nat, now: int, c: Config)
    requires IsRun(states, moments, c) && n < |states| && !states[n].disposed && Enabled(states[n], Shown, now)
    ensures var s, t := states[n], Step(states[n], Shown, now, c);
            if ClosedWhileHidden(states, moments, n) then
              t.log == s.log + [OnFullRefetch(now)] && UrlsOf(t.connections) == s.urls
            else t.log == s.log && t.connections == s.connections
  {
    IdleExactly(states, moments, n, c);
    RunKeepsInv(states, moments, n, c);
    ReportsExactly(states[n], Shown, now, c);
    SourcesChangeExactly(states[n], Shown, now, c);
    assert states[n].log + [] == states[n].log;
  }
}
