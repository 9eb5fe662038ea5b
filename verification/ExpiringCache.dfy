/**
 The fixed-size expiring cache of the debounce hook: a JavaScript `Map`, which keeps
 insertion order, with a time to live and eviction of the oldest key.
 */
module ExpiringCache {

  datatype Option<+T> = None | Some(value: T)

  /** One entry of the map; `expiry` is a clock reading in milliseconds. */
  datatype Item<T> = Item(key: string, value: T, expiry: int)

  // ----- the map as a sequence of items with distinct keys -----

  ghost predicate Distinct<T>(s: seq<Item<T>>) {
    forall i, j :: 0 <= i < j < |s| ==> s[i].key != s[j].key
  }

  /** The index of `key`, or `|s|` when the map does not have it. */
  function Position<T>(s: seq<Item<T>>, key: string): (p: nat)
    ensures p <= |s| && (p < |s| ==> s[p].key == key)
    ensures forall i :: 0 <= i < p ==> s[i].key != key
  {
    if s == [] then 0 else if s[0].key == key then 0 else 1 + Position(s[1..], key)
  }

  predicate Has<T>(s: seq<Item<T>>, key: string) {
    Position(s, key) < |s|
  }

  function Delete<T>(s: seq<Item<T>>, key: string): seq<Item<T>> {
    var p := Position(s, key);
    if p < |s| then s[..p] + s[p + 1..] else s
  }

  // ----- what get and set do -----

  function Lookup<T>(s: seq<Item<T>>, key: string, now: int): Option<T> {
    var p := Position(s, key);
    if key != "" && p < |s| && s[p].expiry > now then Some(s[p].value) else None
  }

  function AfterGet<T>(s: seq<Item<T>>, key: string, now: int): seq<Item<T>> {
    var p := Position(s, key);
    if key != "" && p < |s| && s[p].expiry <= now then Delete(s, key) else s
  }

  function AfterSet<T>(s: seq<Item<T>>, key: string, value: T, now: int, maxItems: int, ttl: int): seq<Item<T>> {
    if key == "" then s
    else
      var room := if !Has(s, key) && |s| >= maxItems && s != [] then s[1..] else s;
      Delete(room, key) + [Item(key, value, now + ttl)]
  }

  // ----- histories -----

  datatype Op<T> = Get(key: string, now: int) | Set(key: string, value: T, now: int)

  function Run<T>(h: seq<Op<T>>, maxItems: int, ttl: int): seq<Item<T>> {
    if h == [] then []
    else
      var s := Run(h[..|h| - 1], maxItems, ttl);
      match h[|h| - 1]
      case Get(key, now) => AfterGet(s, key, now)
      case Set(key, value, now) => AfterSet(s, key, value, now, maxItems, ttl)
  }

  /** The clock never runs backwards, and has not passed `clock`. */
  ghost predicate Monotone<T>(h: seq<Op<T>>, clock: int) {
    && (forall i, j :: 0 <= i < j < |h| ==> h[i].now <= h[j].now)
    && (forall i :: 0 <= i < |h| ==> h[i].now <= clock)
  }

  lemma MonotoneAppend<T>(h: seq<Op<T>>, op: Op<T>, clock: int, later: int)
    requires Monotone(h, clock) && clock <= op.now <= later
    ensures Monotone(h + [op], later)
  {
  }

  /** The value last set for `key`, and when. */
  function LastSet<T>(h: seq<Op<T>>, key: string): Option<(T, int)> {
    if h == [] then None
    else
      var last := h[|h| - 1];
      if last.Set? && last.key == key && key != "" then Some((last.value, last.now))
      else LastSet(h[..|h| - 1], key)
  }

  /** The other keys set since then. */
  function Since<T>(h: seq<Op<T>>, key: string): set<string> {
    if h == [] then {}
    else
      var last := h[|h| - 1];
      if last.Get? || last.key == "" then Since(h[..|h| - 1], key)
      else if last.key == key then {}
      else Since(h[..|h| - 1], key) + {last.key}
  }

  // ----- the invariant that links a state to its history -----

  function KeysOf<T>(s: seq<Item<T>>): set<string> {
    set i | 0 <= i < |s| :: s[i].key
  }

  lemma KeysOfConcat<T>(a: seq<Item<T>>, b: seq<Item<T>>)
    ensures KeysOf(a + b) == KeysOf(a) + KeysOf(b)
  {
    forall k | k in KeysOf(a + b) ensures k in KeysOf(a) + KeysOf(b) {
      var i :| 0 <= i < |a + b| && (a + b)[i].key == k;
      assert if i < |a| then a[i].key == k else b[i - |a|].key == k;
    }
    forall k | k in KeysOf(a) + KeysOf(b) ensures k in KeysOf(a + b) {
      if k in KeysOf(a) {
        var i :| 0 <= i < |a| && a[i].key == k;
        assert (a + b)[i].key == k;
      } else {
        var i :| 0 <= i < |b| && b[i].key == k;
        assert (a + b)[|a| + i].key == k;
      }
    }
  }

  lemma KeyOfOne<T>(item: Item<T>)
    ensures KeysOf([item]) == {item.key}
  {
    assert [item][0].key == item.key;
  }

  lemma {:induction false} KeyCount<T>(s: seq<Item<T>>)
    ensures |KeysOf(s)| <= |s|
    ensures Distinct(s) ==> |KeysOf(s)| == |s|
  {
    if s == [] {
      assert KeysOf(s) == {};
    } else {
      KeyCount(s[1..]);
      assert s == [s[0]] + s[1..];
      KeysOfConcat([s[0]], s[1..]);
      KeyOfOne(s[0]);
    }
  }

  /** Each item is what was last set for its key. */
  ghost predicate Tracks<T>(s: seq<Item<T>>, h: seq<Op<T>>, ttl: int) {
    forall i :: 0 <= i < |s| ==> s[i].key != "" && LastSet(h, s[i].key) == Some((s[i].value, s[i].expiry - ttl))
  }

  ghost predicate Ordered<T>(s: seq<Item<T>>, latest: int) {
    && (forall i, j :: 0 <= i < j < |s| ==> s[i].expiry <= s[j].expiry)
    && (forall i :: 0 <= i < |s| ==> s[i].expiry <= latest)
  }

  /** What follows a live item is exactly what was set since. */
  ghost predicate FollowedBySince<T>(s: seq<Item<T>>, h: seq<Op<T>>, clock: int) {
    forall i :: 0 <= i < |s| && s[i].expiry > clock ==> KeysOf(s[i + 1..]) == Since(h, s[i].key)
  }

  ghost predicate Due<T>(h: seq<Op<T>>, key: string, clock: int, maxItems: int, ttl: int) {
    var last := LastSet(h, key);
    last.Some? && clock < last.value.1 + ttl && |Since(h, key)| < maxItems
  }

  /** Nothing that should still be there is missing. */
  ghost predicate Complete<T>(s: seq<Item<T>>, h: seq<Op<T>>, clock: int, maxItems: int, ttl: int) {
    forall k :: Due(h, k, clock, maxItems, ttl) ==> Has(s, k)
  }

  ghost predicate Inv<T>(s: seq<Item<T>>, h: seq<Op<T>>, clock: int, maxItems: int, ttl: int) {
    && Distinct(s) && |s| <= maxItems
    && Tracks(s, h, ttl)
    && Ordered(s, clock + ttl)
    && FollowedBySince(s, h, clock)
    && Complete(s, h, clock, maxItems, ttl)
  }

  lemma Later<T>(s: seq<Item<T>>, h: seq<Op<T>>, clock: int, later: int, maxItems: int, ttl: int)
    requires Inv(s, h, clock, maxItems, ttl) && clock <= later
    ensures Inv(s, h, later, maxItems, ttl)
  {
    forall k | Due(h, k, later, maxItems, ttl) ensures Has(s, k) {
      assert Due(h, k, clock, maxItems, ttl);
    }
  }

  /** Dropping item `p`, if there is one, and keeping the order of the others. */
  function Without<T>(s: seq<Item<T>>, p: nat): seq<Item<T>> {
    if p < |s| then s[..p] + s[p + 1..] else s
  }

  lemma WithoutTail<T>(s: seq<Item<T>>, p: nat, i: nat)
    requires p < |s| && i < |s| - 1
    ensures i < p ==> Without(s, p)[i + 1..] == s[i + 1..p] + s[p + 1..]
    ensures p <= i ==> Without(s, p)[i + 1..] == s[i + 2..]
  {
  }

  lemma WithoutKeepsTracks<T>(s: seq<Item<T>>, h: seq<Op<T>>, ttl: int, p: nat)
    requires Tracks(s, h, ttl)
    ensures Tracks(Without(s, p), h, ttl)
  {
  }

  lemma WithoutHas<T>(s: seq<Item<T>>, p: nat, q: nat)
    requires q < |s| && q != p
    ensures Has(Without(s, p), s[q].key)
  {
    var t := Without(s, p);
    assert t[if q < p then q else q - 1] == s[q];
  }

  lemma HasAppend<T>(s: seq<Item<T>>, item: Item<T>, key: string)
    requires Has(s, key) || item.key == key
    ensures Has(s + [item], key)
  {
    var t := s + [item];
    assert if Has(s, key) then t[Position(s, key)].key == key else t[|s|].key == key;
  }

  lemma DropKeepsFollowers<T>(s: seq<Item<T>>, h: seq<Op<T>>, clock: int, latest: int, p: nat)
    requires Ordered(s, latest) && FollowedBySince(s, h, clock) && p < |s| && s[p].expiry <= clock
    ensures FollowedBySince(Without(s, p), h, clock)
  {
    var t := Without(s, p);
    forall i | 0 <= i < |t| && t[i].expiry > clock ensures KeysOf(t[i + 1..]) == Since(h, t[i].key) {
      WithoutTail(s, p, i);
      assert p <= i && t[i] == s[i + 1];
    }
  }

  lemma DropKeepsDue<T>(s: seq<Item<T>>, h: seq<Op<T>>, clock: int, maxItems: int, ttl: int, p: nat, k: string)
    requires Inv(s, h, clock, maxItems, ttl) && p < |s| && s[p].expiry <= clock && Due(h, k, clock, maxItems, ttl)
    ensures Has(Without(s, p), k)
  {
    WithoutHas(s, p, Position(s, k));
  }

  /** Dropping an expired item, as `get` does. */
  lemma DropExpired<T>(s: seq<Item<T>>, h: seq<Op<T>>, clock: int, maxItems: int, ttl: int, p: nat)
    requires Inv(s, h, clock, maxItems, ttl) && p < |s| && s[p].expiry <= clock
    ensures Inv(Without(s, p), h, clock, maxItems, ttl)
  {
    WithoutKeepsItems(s, p, clock + ttl);
    WithoutKeepsTracks(s, h, ttl, p);
    DropKeepsFollowers(s, h, clock, clock + ttl, p);
    forall k | Due(h, k, clock, maxItems, ttl) ensures Has(Without(s, p), k) {
      DropKeepsDue(s, h, clock, maxItems, ttl, p, k);
    }
  }

  ghost predicate SameSets<T>(h: seq<Op<T>>, g: seq<Op<T>>) {
    forall k :: LastSet(g, k) == LastSet(h, k) && Since(g, k) == Since(h, k)
  }

  /** The invariant looks at a history only through its effective sets. */
  lemma Transfer<T>(s: seq<Item<T>>, h: seq<Op<T>>, g: seq<Op<T>>, clock: int, maxItems: int, ttl: int)
    requires Inv(s, h, clock, maxItems, ttl) && SameSets(h, g)
    ensures Inv(s, g, clock, maxItems, ttl)
  {
    forall k | Due(g, k, clock, maxItems, ttl) ensures Has(s, k) {
      assert Due(h, k, clock, maxItems, ttl);
    }
  }

  lemma GetKeepsInv<T>(s: seq<Item<T>>, h: seq<Op<T>>, key: string, now: int, maxItems: int, ttl: int)
    requires Inv(s, h, now, maxItems, ttl)
    ensures Inv(AfterGet(s, key, now), h + [Get(key, now)], now, maxItems, ttl)
  {
    var g := h + [Get(key, now)];
    assert g[..|g| - 1] == h;
    if AfterGet(s, key, now) != s {
      DropExpired(s, h, now, maxItems, ttl, Position(s, key));
    }
    assert SameSets(h, g);
    Transfer(AfterGet(s, key, now), h, g, now, maxItems, ttl);
  }

  lemma SetHistory<T>(h: seq<Op<T>>, key: string, value: T, now: int, k: string)
    requires key != ""
    ensures var h' := h + [Set(key, value, now)];
            && (k == key ==> LastSet(h', k) == Some((value, now)) && Since(h', k) == {})
            && (k != key ==> LastSet(h', k) == LastSet(h, k) && Since(h', k) == Since(h, k) + {key})
  {
    var h' := h + [Set(key, value, now)];
    assert h'[..|h'| - 1] == h;
  }

  /** The item that makes way for `key`: its old entry, the oldest one when the map is full, or none. */
  function MakesWay<T>(s: seq<Item<T>>, key: string, maxItems: int): nat {
    if Has(s, key) then Position(s, key) else if |s| >= maxItems then 0 else |s|
  }

  lemma SetReplaces<T>(s: seq<Item<T>>, key: string, value: T, now: int, maxItems: int, ttl: int)
    requires Distinct(s) && key != "" && maxItems >= 1
    ensures var r := Without(s, MakesWay(s, key, maxItems));
            AfterSet(s, key, value, now, maxItems, ttl) == r + [Item(key, value, now + ttl)] && !Has(r, key)
  {
    var p := MakesWay(s, key, maxItems);
    var r := Without(s, p);
    assert !Has(r, key) by {
      forall i | 0 <= i < |r| ensures r[i].key != key {
        assert r[i] == s[if i < p then i else i + 1];
      }
    }
    if !Has(s, key) && |s| >= maxItems {
      assert r == s[1..];
    }
  }

  /** Dropping item `p` takes nothing but its key from what follows an earlier item. */
  lemma WithoutKeys<T>(s: seq<Item<T>>, p: nat, i: nat)
    requires i < p < |s|
    ensures KeysOf(Without(s, p)[i + 1..]) + {s[p].key} == KeysOf(s[i + 1..])
  {
    WithoutTail(s, p, i);
    assert s[i + 1..] == s[i + 1..p] + ([s[p]] + s[p + 1..]);
    KeysOfConcat(s[i + 1..p], [s[p]] + s[p + 1..]);
    KeysOfConcat([s[p]], s[p + 1..]);
    KeysOfConcat(s[i + 1..p], s[p + 1..]);
    KeyOfOne(s[p]);
  }

  lemma DroppedTail<T>(s: seq<Item<T>>, p: nat, i: nat) returns (j: nat)
    requires p < |s| && i < |s| - 1
    ensures j < |s| && j != p && Without(s, p)[i] == s[j]
    ensures KeysOf(Without(s, p)[i + 1..]) + {s[p].key} == KeysOf(s[j + 1..]) + {s[p].key}
    ensures p == 0 ==> Without(s, p)[i + 1..] == s[j + 1..]
  {
    if i < p {
      j := i;
      WithoutKeys(s, p, i);
    } else {
      j := i + 1;
      WithoutTail(s, p, i);
    }
  }

  lemma RestTail<T>(s: seq<Item<T>>, key: string, maxItems: int, i: nat) returns (j: nat)
    requires maxItems >= 1 && i < |Without(s, MakesWay(s, key, maxItems))|
    ensures var r := Without(s, MakesWay(s, key, maxItems));
            j < |s| && r[i] == s[j] && KeysOf(r[i + 1..]) + {key} == KeysOf(s[j + 1..]) + {key}
  {
    var p := MakesWay(s, key, maxItems);
    if p < |s| {
      j := DroppedTail(s, p, i);
    } else {
      j := i;
    }
  }

  lemma AppendTail<T>(r: seq<Item<T>>, item: Item<T>, i: nat)
    requires i < |r|
    ensures KeysOf((r + [item])[i + 1..]) == KeysOf(r[i + 1..]) + {item.key}
  {
    assert (r + [item])[i + 1..] == r[i + 1..] + [item];
    KeysOfConcat(r[i + 1..], [item]);
    KeyOfOne(item);
  }

  lemma WithoutKeepsItems<T>(s: seq<Item<T>>, p: nat, latest: int)
    requires Distinct(s) && Ordered(s, latest)
    ensures Distinct(Without(s, p)) && Ordered(Without(s, p), latest)
  {
  }

  lemma AppendOrdered<T>(r: seq<Item<T>>, item: Item<T>)
    requires Ordered(r, item.expiry) && Distinct(r) && !Has(r, item.key)
    ensures Ordered(r + [item], item.expiry) && Distinct(r + [item])
  {
    assert Position(r, item.key) == |r|;
  }

  lemma SetKeepsTracks<T>(s: seq<Item<T>>, h: seq<Op<T>>, key: string, value: T, now: int, maxItems: int, ttl: int)
    requires Tracks(s, h, ttl) && key != "" && maxItems >= 1
    requires !Has(Without(s, MakesWay(s, key, maxItems)), key)
    ensures Tracks(Without(s, MakesWay(s, key, maxItems)) + [Item(key, value, now + ttl)],
                   h + [Set(key, value, now)], ttl)
  {
    var r := Without(s, MakesWay(s, key, maxItems));
    var t, g := r + [Item(key, value, now + ttl)], h + [Set(key, value, now)];
    forall i | 0 <= i < |t|
      ensures t[i].key != "" && LastSet(g, t[i].key) == Some((t[i].value, t[i].expiry - ttl))
    {
      SetHistory(h, key, value, now, t[i].key);
      if i < |r| {
        var j := RestTail(s, key, maxItems, i);
        assert Position(r, key) == |r|;
      }
    }
  }

  lemma SetKeepsFollowers<T>(s: seq<Item<T>>, h: seq<Op<T>>, key: string, value: T, now: int, maxItems: int, ttl: int)
    requires FollowedBySince(s, h, now) && key != "" && maxItems >= 1
    requires !Has(Without(s, MakesWay(s, key, maxItems)), key)
    ensures FollowedBySince(Without(s, MakesWay(s, key, maxItems)) + [Item(key, value, now + ttl)],
                            h + [Set(key, value, now)], now)
  {
    var r := Without(s, MakesWay(s, key, maxItems));
    var t, g := r + [Item(key, value, now + ttl)], h + [Set(key, value, now)];
    forall i | 0 <= i < |t| && t[i].expiry > now ensures KeysOf(t[i + 1..]) == Since(g, t[i].key) {
      SetHistory(h, key, value, now, t[i].key);
      if i < |r| {
        var j := RestTail(s, key, maxItems, i);
        AppendTail(r, Item(key, value, now + ttl), i);
        assert Position(r, key) == |r|;
      } else {
        assert t[i + 1..] == [];
      }
    }
  }

  /** Evicting the oldest key is no loss: with the new key, enough others have been set since. */
  lemma EvictedIsNotDue<T>(s: seq<Item<T>>, h: seq<Op<T>>, key: string, value: T, now: int, maxItems: int, ttl: int)
    requires Inv(s, h, now, maxItems, ttl) && key != "" && s != [] && !Has(s, key) && |s| >= maxItems
    ensures !Due(h + [Set(key, value, now)], s[0].key, now, maxItems, ttl)
  {
    var k := s[0].key;
    SetHistory(h, key, value, now, k);
    if s[0].expiry > now {
      KeyCount(s[1..]);
      assert Distinct(s[1..]);
      assert Since(h, k) == KeysOf(s[1..]);
      assert key !in KeysOf(s[1..]) by {
        assert forall i :: 0 <= i < |s| ==> s[i].key != key;
      }
    }
  }

  lemma SetKeepsComplete<T>(s: seq<Item<T>>, h: seq<Op<T>>, key: string, value: T, now: int,
                            maxItems: int, ttl: int, k: string)
    requires Inv(s, h, now, maxItems, ttl) && key != "" && maxItems >= 1
    requires Due(h + [Set(key, value, now)], k, now, maxItems, ttl)
    ensures Has(Without(s, MakesWay(s, key, maxItems)) + [Item(key, value, now + ttl)], k)
  {
    var p := MakesWay(s, key, maxItems);
    SetHistory(h, key, value, now, k);
    if k != key {
      Subset(Since(h, k), Since(h, k) + {key});
      assert Due(h, k, now, maxItems, ttl);
      if p == Position(s, k) {
        EvictedIsNotDue(s, h, key, value, now, maxItems, ttl);
      }
      WithoutHas(s, p, Position(s, k));
    }
    HasAppend(Without(s, p), Item(key, value, now + ttl), k);
  }

  lemma Subset(a: set<string>, b: set<string>)
    requires a <= b
    ensures |a| <= |b|
  {
    assert b == a + (b - a);
  }

  lemma SetKeepsInv<T>(s: seq<Item<T>>, h: seq<Op<T>>, key: string, value: T, now: int, maxItems: int, ttl: int)
    requires Inv(s, h, now, maxItems, ttl) && maxItems >= 1
    ensures Inv(AfterSet(s, key, value, now, maxItems, ttl), h + [Set(key, value, now)], now, maxItems, ttl)
  {
    var h' := h + [Set(key, value, now)];
    assert h'[..|h'| - 1] == h;
    if key == "" {
      assert SameSets(h, h');
      Transfer(s, h, h', now, maxItems, ttl);
    } else {
      SetReplaces(s, key, value, now, maxItems, ttl);
      var r := Without(s, MakesWay(s, key, maxItems));
      WithoutKeepsItems(s, MakesWay(s, key, maxItems), now + ttl);
      AppendOrdered(r, Item(key, value, now + ttl));
      SetKeepsTracks(s, h, key, value, now, maxItems, ttl);
      SetKeepsFollowers(s, h, key, value, now, maxItems, ttl);
      forall k | Due(h', k, now, maxItems, ttl) ensures Has(r + [Item(key, value, now + ttl)], k) {
        SetKeepsComplete(s, h, key, value, now, maxItems, ttl, k);
      }
    }
  }

  lemma {:induction false} RunKeepsInv<T>(h: seq<Op<T>>, clock: int, maxItems: int, ttl: int)
    requires Monotone(h, clock) && maxItems >= 1
    ensures Inv(Run(h, maxItems, ttl), h, clock, maxItems, ttl)
    decreases |h|
  {
    if h == [] {
    } else {
      var front, last := h[..|h| - 1], h[|h| - 1];
      assert h == front + [last];
      RunKeepsInv(front, last.now, maxItems, ttl);
      match last
      case Get(key, now) => GetKeepsInv(Run(front, maxItems, ttl), front, key, now, maxItems, ttl);
      case Set(key, value, now) => SetKeepsInv(Run(front, maxItems, ttl), front, key, value, now, maxItems, ttl);
      Later(Run(h, maxItems, ttl), h, last.now, clock, maxItems, ttl);
    }
  }

  // ----- main results -----

  /**
   After any history, `get` finds a key if and only if less than the time to live has passed
   since it was last set and fewer than `maxItems` other keys have been set since; and what it
   finds is the value set then. Intermediate calls of `get` make no difference.
   */
  lemma GetFindsWhatIsDue<T>(h: seq<Op<T>>, key: string, now: int, maxItems: int, ttl: int)
    requires Monotone(h, now) && maxItems >= 1
    ensures Lookup(Run(h, maxItems, ttl), key, now)
            == if Due(h, key, now, maxItems, ttl) then Some(LastSet(h, key).value.0) else None
  {
    var s := Run(h, maxItems, ttl);
    RunKeepsInv(h, now, maxItems, ttl);
    NeverSetEmpty(h, key);
    if Has(s, key) && s[Position(s, key)].expiry > now {
      FoundIsDue(s, h, key, now, maxItems, ttl);
    }
  }

  lemma FoundIsDue<T>(s: seq<Item<T>>, h: seq<Op<T>>, key: string, now: int, maxItems: int, ttl: int)
    requires Inv(s, h, now, maxItems, ttl) && Has(s, key) && s[Position(s, key)].expiry > now
    ensures Due(h, key, now, maxItems, ttl)
  {
    var p := Position(s, key);
    KeyCount(s[p + 1..]);
    assert Since(h, key) == KeysOf(s[p + 1..]);
  }

  lemma {:induction false} NeverSetEmpty<T>(h: seq<Op<T>>, key: string)
    ensures key == "" ==> LastSet(h, key) == None
  {
    if h == [] {
    } else {
      NeverSetEmpty(h[..|h| - 1], key);
    }
  }

  lemma SizeIsBounded<T>(h: seq<Op<T>>, clock: int, maxItems: int, ttl: int)
    requires Monotone(h, clock) && maxItems >= 1
    ensures |Run(h, maxItems, ttl)| <= maxItems
  {
    RunKeepsInv(h, clock, maxItems, ttl);
  }

  // ----- the class -----

  class FixedSizeExpiringCache<T> {
    var cacheMap: seq<Item<T>>
    const maxItems: int
    const ttl: int
    ghost var history: seq<Op<T>>

    ghost predicate Valid()
      reads this
    {
      maxItems >= 1 && ttl >= 1 && cacheMap == Run(history, maxItems, ttl)
    }

    constructor (maxItems: int, ttlMs: int)
      requires maxItems >= 1 && ttlMs >= 1
      ensures Valid() && cacheMap == [] && history == [] && this.maxItems == maxItems && this.ttl == ttlMs
    {
      cacheMap, history := [], [];
      this.maxItems := maxItems;
      this.ttl := ttlMs;
    }

    /** Answers with what is due in the history so far, whenever the clock did not run backwards. */
    method Get(key: string, now: int) returns (r: Option<T>)
      requires Valid()
      modifies this
      ensures Valid() && history == old(history) + [Op.Get(key, now)]
      ensures r == Lookup(old(cacheMap), key, now)
      ensures Monotone(old(history), now) ==>
                r == if Due(old(history), key, now, maxItems, ttl)
                     then Some(LastSet(old(history), key).value.0) else None
    {
      history := history + [Op.Get(key, now)];
      assert history[..|history| - 1] == old(history);
      if Monotone(old(history), now) {
        GetFindsWhatIsDue(old(history), key, now, maxItems, ttl);
      }
      if key != "" {
        var p := Position(cacheMap, key);
        if p < |cacheMap| {
          var entry := cacheMap[p];
          if entry.expiry > now {
            return Some(entry.value);
          } else {
            cacheMap := Delete(cacheMap, key);
          }
        }
      }
      return None;
    }

    method Set(key: string, value: T, now: int)
      requires Valid()
      modifies this
      ensures Valid() && history == old(history) + [Op.Set(key, value, now)]
    {
      history := history + [Op.Set(key, value, now)];
      assert history[..|history| - 1] == old(history);
      if key != "" {
        if !Has(cacheMap, key) && |cacheMap| >= maxItems {
          EvictOldest();
        }
        cacheMap := Delete(cacheMap, key);
        cacheMap := cacheMap + [Item(key, value, now + ttl)];
      }
    }

    method EvictOldest()
      modifies this`cacheMap
      ensures cacheMap == if old(cacheMap) == [] then [] else old(cacheMap)[1..]
    {
      if cacheMap != [] {
        cacheMap := cacheMap[1..];
      }
    }
  }

  /** Construction throws (here: gives null) unless both options are at least 1. */
  method NewCache<T>(maxItems: int, ttlMs: int) returns (cache: FixedSizeExpiringCache?<T>)
    ensures cache == null <==> maxItems < 1 || ttlMs < 1
    ensures cache != null ==>
              fresh(cache) && cache.Valid() && cache.history == [] && cache.maxItems == maxItems && cache.ttl == ttlMs
  {
    if maxItems < 1 || ttlMs < 1 {
      return null;
    }
    cache := new FixedSizeExpiringCache<T>(maxItems, ttlMs);
  }
}
