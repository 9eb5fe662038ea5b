/**
 The table through which the WASM bridge hands JavaScript values to Go: reference-counted
 ids with a pool of released ones, and references boxed into the payload of a NaN
 (sections 3.4 and 6.2.1 of IEEE 754-2019).
 */
module RefTable {

  const TWO_32: nat := 0x1_0000_0000
  const TWO_52: nat := 0x10_0000_0000_0000
  const TWO_63: nat := 0x8000_0000_0000_0000
  const TWO_64: nat := 0x1_0000_0000_0000_0000
  const NAN_HEAD: nat := 0x7ff80000

  /** A 64-bit word: the bits of a double, or what Go holds as a reference. */
  type Word = n: int | 0 <= n < TWO_64

  // ----- doubles by their bits -----

  predicate IsNaN(w: Word) {
    w / TWO_52 % 2048 == 2047 && w % TWO_52 != 0
  }

  predicate IsZero(w: Word) {
    w == 0 || w == TWO_63
  }

  const CANONICAL_NAN: Word := NAN_HEAD * TWO_32

  /** JavaScript tells only one NaN. */
  type Double = w: Word | IsNaN(w) ==> w == CANONICAL_NAN witness 0

  datatype JsValue =
    | Undefined
    | Null
    | Boolean(b: bool)
    | Number(bits: Double)
    | Text(s: string)
    | Symbol(id: nat)
    | Function(id: nat)
    | Object(id: nat)

  const NEGATIVE_ZERO := Number(TWO_63)

  /** Values that need an entry in the table. */
  predicate Tabled(v: JsValue) {
    v.Text? || v.Symbol? || v.Function? || v.Object?
  }

  /** `_values`, `_goRefCounts`, `_ids` and `_idPool`. */
  datatype Table = Table(values: seq<JsValue>, goRefCounts: map<nat, int>, ids: map<JsValue, nat>, idPool: seq<nat>)

  /** NaN, 0, null, true, false, the global object and the Go instance. */
  const RESERVED: seq<JsValue> :=
    [Number(CANONICAL_NAN), Number(0), Null, Boolean(true), Boolean(false), Object(0), Object(1)]

  const FRESH := Table(RESERVED, map[], map[], [])

  /** A JavaScript array has at most 2^32 - 1 elements. */
  const MAX_LENGTH: nat := TWO_32 - 1

  // ----- boxValue, unboxValue, finalizeRef -----

  function TypeFlag(v: JsValue): nat {
    match v
    case Text(_) => 2
    case Symbol(_) => 3
    case Function(_) => 4
    case _ => 1
  }

  /** `id | ((nanHead | typeFlag) << 32)`: the bits do not overlap, so the sum is the same word. */
  function RefWord(id: nat, typeFlag: nat): Word
    requires id < TWO_32 && typeFlag <= 4
  {
    (NAN_HEAD + typeFlag) * TWO_32 + id
  }

  /** The bits of a reference: its low half is the id, and its high half the head of a NaN with the type flag. */
  lemma ReferenceBits(v: JsValue, id: nat)
    requires Tabled(v) && id < TWO_32
    ensures var w := RefWord(id, TypeFlag(v));
            && w % 0x1_0000_0000 == id && IsNaN(w)
            && w / 0x1_0000_0000 == 0x7ff80000 + match v
               case Text(_) => 2
               case Symbol(_) => 3
               case Function(_) => 4
               case _ => 1
  {
  }

  /**
   What a word stands for: either zero for undefined, another double for itself, and a NaN for the entry that its low
   half names, if the table has it.
   */
  lemma UnboxMeans(t: Table, ref: Word)
    ensures var low := ref % 0x1_0000_0000;
            Unbox(t, ref) == if ref in {0, 0x8000_0000_0000_0000} then Undefined
                             else if !IsNaN(ref) then Number(ref)
                             else if low < |t.values| then t.values[low] else Undefined
  {
  }

  predicate HasRoom(t: Table, v: JsValue) {
    v in t.ids || t.idPool != [] || |t.values| < MAX_LENGTH
  }

  /** The table once `v` has an id. */
  function Allocate(t: Table, v: JsValue): Table {
    if v in t.ids then t
    else
      var id := if t.idPool == [] then |t.values| else t.idPool[|t.idPool| - 1];
      Table(
        if id < |t.values| then t.values[id := v] else t.values + [v],
        t.goRefCounts[id := 0],
        t.ids[v := id],
        if t.idPool == [] then [] else t.idPool[..|t.idPool| - 1])
  }

  function AfterBox(t: Table, v: JsValue): Table
    requires Tabled(v) ==> Allocate(t, v).ids[v] in Allocate(t, v).goRefCounts
  {
    if !Tabled(v) then t
    else
      var a := Allocate(t, v);
      a.(goRefCounts := a.goRefCounts[a.ids[v] := a.goRefCounts[a.ids[v]] + 1])
  }

  /** The reference to `v`, given the table in which it has an id. */
  function Reference(t: Table, v: JsValue): Word
    requires Tabled(v) ==> v in t.ids && t.ids[v] < TWO_32
  {
    match v
    case Number(bits) => if IsNaN(bits) then NAN_HEAD * TWO_32 else if IsZero(bits) then NAN_HEAD * TWO_32 + 1 else bits
    case Undefined => 0
    case Null => NAN_HEAD * TWO_32 + 2
    case Boolean(b) => NAN_HEAD * TWO_32 + if b then 3 else 4
    case _ => RefWord(t.ids[v], TypeFlag(v))
  }

  function Unbox(t: Table, ref: Word): JsValue {
    if IsZero(ref) then Undefined
    else if !IsNaN(ref) then Number(ref)
    else if ref % TWO_32 < |t.values| then t.values[ref % TWO_32]
    else Undefined
  }

  function AfterFinalize(t: Table, ref: Word): Table {
    var id := ref % TWO_32;
    if id !in t.goRefCounts then t
    else
      var counted := t.(goRefCounts := t.goRefCounts[id := t.goRefCounts[id] - 1]);
      if counted.goRefCounts[id] != 0 || id >= |t.values| then counted
      else counted.(values := t.values[id := Null], ids := t.ids - {t.values[id]}, idPool := t.idPool + [id])
  }

  // ----- the invariant -----

  /** `id` stands for a value that Go holds. */
  predicate Live(t: Table, id: nat) {
    id < |t.values| && t.values[id] in t.ids && t.ids[t.values[id]] == id
  }

  ghost predicate Inverse(t: Table) {
    forall v <- t.ids :: Tabled(v) && 7 <= t.ids[v] < |t.values| && t.values[t.ids[v]] == v
  }

  ghost predicate Counted(t: Table) {
    && (forall id :: id in t.goRefCounts <==> 7 <= id < |t.values|)
    && (forall v <- t.ids :: t.ids[v] in t.goRefCounts ==> t.goRefCounts[t.ids[v]] > 0)
  }

  ghost predicate Pooled(t: Table) {
    && (forall i, j :: 0 <= i < j < |t.idPool| ==> t.idPool[i] != t.idPool[j])
    && (forall i :: 0 <= i < |t.idPool| ==> 7 <= t.idPool[i] < |t.values| && t.values[t.idPool[i]] == Null)
    && (forall i :: 0 <= i < |t.idPool| && t.idPool[i] in t.goRefCounts ==> t.goRefCounts[t.idPool[i]] <= 0)
  }

  /** Every id from 7 up is live or in the pool. */
  ghost predicate Accounted(t: Table) {
    forall id :: 7 <= id < |t.values| ==> Live(t, id) || id in t.idPool
  }

  ghost predicate Valid(t: Table) {
    && 7 <= |t.values| <= MAX_LENGTH && t.values[..7] == RESERVED
    && Inverse(t) && Counted(t) && Pooled(t) && Accounted(t)
  }

  /** An id is never both live and in the pool, and never in the pool twice. */
  lemma LiveXorPooled(t: Table, id: nat)
    requires Valid(t) && 7 <= id < |t.values|
    ensures Live(t, id) <==> id !in t.idPool
    ensures forall i, j :: 0 <= i < |t.idPool| && 0 <= j < |t.idPool| && t.idPool[i] == t.idPool[j] ==> i == j
  {
  }

  /** How many references Go holds to each value. */
  function Held(t: Table, v: JsValue): int {
    if v in t.ids && t.ids[v] in t.goRefCounts then t.goRefCounts[t.ids[v]] else 0
  }

  lemma PooledId(t: Table)
    requires Valid(t) && t.idPool != []
    ensures var id := t.idPool[|t.idPool| - 1];
            7 <= id < |t.values| && id in t.goRefCounts && forall v <- t.ids :: t.ids[v] != id
  {
  }

  lemma AllocateKeepsValues(t: Table, v: JsValue)
    requires Valid(t) && Tabled(v) && v !in t.ids && HasRoom(t, v)
    ensures var a := Allocate(t, v);
            && |t.values| <= |a.values| <= MAX_LENGTH && a.values[..7] == RESERVED
            && 7 <= a.ids[v] < |a.values| && a.values[a.ids[v]] == v
            && (forall id :: 0 <= id < |t.values| && id != a.ids[v] ==> a.values[id] == t.values[id])
            && (forall u <- t.ids :: t.ids[u] != a.ids[v])
            && (|a.values| > |t.values| ==> a.ids[v] == |t.values| == |a.values| - 1)
            && a.goRefCounts == t.goRefCounts[a.ids[v] := 0] && a.ids == t.ids[v := a.ids[v]]
  {
    if t.idPool != [] {
      PooledId(t);
    }
  }

  /** All of the invariant but that the count of the new id is still 0. */
  ghost predicate ValidBut(t: Table, v: JsValue) {
    && 7 <= |t.values| <= MAX_LENGTH && t.values[..7] == RESERVED
    && Inverse(t) && Pooled(t) && Accounted(t)
    && (forall id :: id in t.goRefCounts <==> 7 <= id < |t.values|)
    && v in t.ids && t.goRefCounts[t.ids[v]] >= 0
    && (forall u <- t.ids :: u != v ==> t.goRefCounts[t.ids[u]] > 0)
  }

  lemma AllocateIsValid(t: Table, v: JsValue)
    requires Valid(t) && Tabled(v) && HasRoom(t, v)
    ensures ValidBut(Allocate(t, v), v)
  {
    if v !in t.ids {
      AllocateKeepsValues(t, v);
      var a := Allocate(t, v);
      AllocateKeepsPool(t, v);
      AllocateAccounts(t, v);
    }
  }

  lemma AllocateKeepsPool(t: Table, v: JsValue)
    requires Valid(t) && Tabled(v) && v !in t.ids && HasRoom(t, v)
    ensures Pooled(Allocate(t, v))
  {
    AllocateKeepsValues(t, v);
    var a := Allocate(t, v);
    forall i | 0 <= i < |a.idPool| ensures a.idPool[i] == t.idPool[i] && a.idPool[i] != a.ids[v] {
    }
  }

  lemma AllocateAccounts(t: Table, v: JsValue)
    requires Valid(t) && Tabled(v) && v !in t.ids && HasRoom(t, v)
    ensures Accounted(Allocate(t, v))
  {
    AllocateKeepsValues(t, v);
    var a := Allocate(t, v);
    forall id | 7 <= id < |a.values| ensures Live(a, id) || id in a.idPool {
      if id != a.ids[v] && !Live(t, id) {
        var i :| 0 <= i < |t.idPool| && t.idPool[i] == id;
        assert a.idPool[i] == id;
      }
    }
  }

  lemma BoxKeepsValid(t: Table, v: JsValue)
    requires Valid(t) && HasRoom(t, v) && Tabled(v)
    ensures var a := Allocate(t, v); v in a.ids && a.ids[v] in a.goRefCounts && a.ids[v] < TWO_32
    ensures Valid(AfterBox(t, v))
  {
    AllocateIsValid(t, v);
    var a, b := Allocate(t, v), AfterBox(t, v);
    forall i | 0 <= i < |b.idPool| && b.idPool[i] in b.goRefCounts ensures b.goRefCounts[b.idPool[i]] <= 0 {
      assert a.values[a.ids[v]] != Null;
    }
    forall u | u in b.ids ensures b.goRefCounts[b.ids[u]] > 0 {
    }
  }

  /** Boxing adds one reference to `v`, and moves no other value. */
  lemma BoxAddsOne(t: Table, v: JsValue, u: JsValue)
    requires Valid(t) && HasRoom(t, v) && Tabled(v)
    ensures var a := Allocate(t, v); v in a.ids && a.ids[v] in a.goRefCounts
    ensures var b := AfterBox(t, v);
            && Held(b, u) == Held(t, u) + (if u == v then 1 else 0)
            && (u in t.ids ==> u in b.ids && b.ids[u] == t.ids[u])
  {
    BoxKeepsValid(t, v);
    if v !in t.ids {
      AllocateKeepsValues(t, v);
    }
  }

  /** The value whose reference `ref` is, if Go holds it. */
  predicate Names(t: Table, ref: Word, v: JsValue) {
    v in t.ids && t.ids[v] == ref % TWO_32
  }

  lemma FinalizeKeepsPool(t: Table, ref: Word)
    requires Valid(t)
    ensures Pooled(AfterFinalize(t, ref))
  {
    var id, f := ref % TWO_32, AfterFinalize(t, ref);
    if id in t.goRefCounts && t.goRefCounts[id] == 1 {
      LiveXorPooled(t, id);
    }
  }

  lemma FinalizeAccounts(t: Table, ref: Word)
    requires Valid(t)
    ensures Accounted(AfterFinalize(t, ref))
  {
    var id, f := ref % TWO_32, AfterFinalize(t, ref);
    forall x | 7 <= x < |f.values| ensures Live(f, x) || x in f.idPool {
      if f.idPool == t.idPool {
        assert Live(t, x) ==> Live(f, x);
      } else if x == id {
        assert f.idPool[|t.idPool|] == id;
      } else if x in t.idPool {
        var i :| 0 <= i < |t.idPool| && t.idPool[i] == x;
        assert f.idPool[i] == x;
      } else {
        LiveXorPooled(t, id);
        assert Live(t, x) && Live(t, id);
        assert f.values[x] == t.values[x] && t.values[x] != t.values[id];
      }
    }
  }

  lemma FinalizeKeepsValid(t: Table, ref: Word)
    requires Valid(t)
    ensures Valid(AfterFinalize(t, ref))
  {
    FinalizeKeepsPool(t, ref);
    FinalizeAccounts(t, ref);
    var id, f := ref % TWO_32, AfterFinalize(t, ref);
    if id in t.goRefCounts {
      LiveXorPooled(t, id);
      assert forall v <- f.ids :: v in t.ids && (t.ids[v] == id ==> v == t.values[id]);
    }
  }

  /** Finalizing takes one reference from the value it names, and none from any other. */
  lemma FinalizeTakesOne(t: Table, ref: Word, u: JsValue)
    requires Valid(t)
    ensures var f := AfterFinalize(t, ref);
            && Held(f, u) == Held(t, u) - (if Names(t, ref, u) then 1 else 0)
            && (u in f.ids <==> Held(f, u) > 0)
            && (u in f.ids ==> u in t.ids && f.ids[u] == t.ids[u])
  {
    FinalizeKeepsValid(t, ref);
    var id, f := ref % TWO_32, AfterFinalize(t, ref);
    if Names(t, ref, u) {
      assert t.values[id] == u && id in t.goRefCounts && t.goRefCounts[id] > 0;
      assert t.goRefCounts[id] == 1 ==> u !in f.ids;
    } else if u in t.ids {
      assert t.ids[u] != id && f.goRefCounts[t.ids[u]] == t.goRefCounts[t.ids[u]];
      if id in t.goRefCounts && t.goRefCounts[id] == 1 {
        LiveXorPooled(t, id);
        assert Live(t, id) && t.values[id] != u;
      }
      assert u in f.ids;
    }
  }

  // ----- round trip -----

  lemma RefWordBits(id: nat, typeFlag: nat)
    requires id < TWO_32 && typeFlag <= 4
    ensures IsNaN(RefWord(id, typeFlag)) && !IsZero(RefWord(id, typeFlag)) && RefWord(id, typeFlag) % TWO_32 == id
  {
  }

  /** Boxing and unboxing gives every value back, except that -0 comes back as 0. */
  lemma RoundTrip(t: Table, v: JsValue)
    requires Valid(t) && (Tabled(v) ==> v in t.ids)
    ensures Unbox(t, Reference(t, v)) == if v == NEGATIVE_ZERO then Number(0) else v
  {
    assert t.values[..7][0] == t.values[0] && t.values[..7][1] == t.values[1] && t.values[..7][2] == t.values[2];
    assert t.values[..7][3] == t.values[3] && t.values[..7][4] == t.values[4];
    if Tabled(v) {
      RefWordBits(t.ids[v], TypeFlag(v));
    }
  }

  // ----- runs -----

  datatype Event = Box(v: JsValue) | Finalize(ref: Word)

  function Step(t: Table, e: Event): Table
    requires e.Box? && Tabled(e.v) ==> Allocate(t, e.v).ids[e.v] in Allocate(t, e.v).goRefCounts
  {
    match e
    case Box(v) => AfterBox(t, v)
    case Finalize(ref) => AfterFinalize(t, ref)
  }

  /** The tables of a run; it never needs more entries than an array has. */
  ghost predicate IsRun(tables: seq<Table>, events: seq<Event>) {
    && |tables| == |events| + 1 && tables[0] == FRESH
    && (forall i :: 0 <= i < |events| ==> StepsTo(tables[i], events[i], tables[i + 1]))
  }

  ghost predicate StepsTo(t: Table, e: Event, u: Table) {
    && (e.Box? && Tabled(e.v) ==> HasRoom(t, e.v) && Allocate(t, e.v).ids[e.v] in Allocate(t, e.v).goRefCounts)
    && u == Step(t, e)
  }

  lemma {:induction false} RunIsValid(tables: seq<Table>, events: seq<Event>, n: nat)
    requires IsRun(tables, events) && n < |tables|
    ensures Valid(tables[n])
  {
    if n == 0 {
    } else {
      RunIsValid(tables, events, n - 1);
      assert StepsTo(tables[n - 1], events[n - 1], tables[n]);
      match events[n - 1]
      case Box(v) =>
        if Tabled(v) {
          BoxKeepsValid(tables[n - 1], v);
        }
      case Finalize(ref) => FinalizeKeepsValid(tables[n - 1], ref);
    }
  }

  /** Boxes of `v` minus finalizations that named it, among the first `n` events. */
  ghost function Balance(tables: seq<Table>, events: seq<Event>, v: JsValue, n: nat): int
    requires IsRun(tables, events) && n < |tables|
  {
    if n == 0 then 0
    else
      Balance(tables, events, v, n - 1)
      + match events[n - 1]
        case Box(u) => (if u == v && Tabled(v) then 1 else 0)
        case Finalize(ref) => (if Names(tables[n - 1], ref, v) then -1 else 0)
  }

  /** Conservation: in every run the count of a value is its boxes minus its finalizations. */
  lemma {:induction false} HeldIsBalance(tables: seq<Table>, events: seq<Event>, v: JsValue, n: nat)
    requires IsRun(tables, events) && n < |tables|
    ensures Held(tables[n], v) == Balance(tables, events, v, n)
    ensures v in tables[n].ids <==> Balance(tables, events, v, n) > 0
  {
    RunIsValid(tables, events, n);
    if n == 0 {
    } else {
      HeldIsBalance(tables, events, v, n - 1);
      RunIsValid(tables, events, n - 1);
      assert StepsTo(tables[n - 1], events[n - 1], tables[n]);
      match events[n - 1]
      case Box(u) =>
        if Tabled(u) {
          BoxAddsOne(tables[n - 1], u, v);
        }
      case Finalize(ref) => FinalizeTakesOne(tables[n - 1], ref, v);
    }
  }

  /** As long as Go holds a value, its reference stays the same and unboxes to it. */
  lemma {:induction false} HeldReferenceStays(tables: seq<Table>, events: seq<Event>, v: JsValue, m: nat, n: nat)
    requires IsRun(tables, events) && m <= n < |tables| && Tabled(v)
    requires forall k :: m <= k <= n ==> Balance(tables, events, v, k) > 0
    ensures v in tables[m].ids && tables[m].ids[v] < TWO_32
    ensures v in tables[n].ids && tables[n].ids[v] == tables[m].ids[v]
    ensures Unbox(tables[n], Reference(tables[m], v)) == v
    decreases n - m
  {
    HeldIsBalance(tables, events, v, n);
    RunIsValid(tables, events, n);
    if m == n {
    } else {
      HeldReferenceStays(tables, events, v, m, n - 1);
      RunIsValid(tables, events, n - 1);
      assert StepsTo(tables[n - 1], events[n - 1], tables[n]);
      match events[n - 1]
      case Box(u) =>
        if Tabled(u) {
          BoxAddsOne(tables[n - 1], u, v);
        }
      case Finalize(ref) => FinalizeTakesOne(tables[n - 1], ref, v);
    }
    RoundTrip(tables[n], v);
  }

  // ----- the object -----

  class Go {
    var values: seq<JsValue>
    var goRefCounts: map<nat, int>
    var ids: map<JsValue, nat>
    var idPool: seq<nat>

    function State(): Table
      reads this
    {
      Table(values, goRefCounts, ids, idPool)
    }

    constructor ()
      ensures State() == FRESH && Valid(State())
    {
      values, goRefCounts, ids, idPool := RESERVED, map[], map[], [];
    }

    method BoxValue(v: JsValue) returns (ref: Word)
      requires Valid(State()) && (Tabled(v) ==> HasRoom(State(), v))
      modifies this
      ensures StepsTo(old(State()), Event.Box(v), State()) && Valid(State())
      ensures (Tabled(v) ==> v in ids && ids[v] < TWO_32) && ref == Reference(State(), v)
      ensures Unbox(State(), ref) == if v == NEGATIVE_ZERO then Number(0) else v
    {
      match v {
        case Number(bits) =>
          if IsNaN(bits) {
            ref := NAN_HEAD * TWO_32;
          } else if IsZero(bits) {
            ref := NAN_HEAD * TWO_32 + 1;
          } else {
            ref := bits;
          }
        case Undefined => ref := 0;
        case Null => ref := NAN_HEAD * TWO_32 + 2;
        case Boolean(b) => ref := NAN_HEAD * TWO_32 + if b then 3 else 4;
        case _ => ref := BoxTabled(v);
      }
      RoundTrip(State(), v);
    }

    /** The part of `boxValue` for values that need an id. */
    method BoxTabled(v: JsValue) returns (ref: Word)
      requires Valid(State()) && Tabled(v) && HasRoom(State(), v)
      modifies this
      ensures StepsTo(old(State()), Event.Box(v), State()) && Valid(State())
      ensures v in ids && ids[v] < TWO_32 && ref == RefWord(ids[v], TypeFlag(v))
    {
      BoxKeepsValid(State(), v);
      var id := GiveId(v);
      goRefCounts := goRefCounts[id := goRefCounts[id] + 1];
      ref := RefWord(id, TypeFlag(v));
    }

    /** The id of `v`: its own, one of the pool, or a new one. */
    method GiveId(v: JsValue) returns (id: nat)
      modifies this
      ensures State() == Allocate(old(State()), v) && v in ids && id == ids[v]
    {
      if v in ids {
        id := ids[v];
        return;
      }
      if idPool != [] {
        id := idPool[|idPool| - 1];
        idPool := idPool[..|idPool| - 1];
      } else {
        id := |values|;
      }
      values := if id < |values| then values[id := v] else values + [v];
      goRefCounts := goRefCounts[id := 0];
      ids := ids[v := id];
    }

    method FinalizeRef(ref: Word)
      requires Valid(State())
      modifies this
      ensures State() == AfterFinalize(old(State()), ref) && Valid(State())
    {
      FinalizeKeepsValid(State(), ref);
      var id := ref % TWO_32;
      if id in goRefCounts {
        goRefCounts := goRefCounts[id := goRefCounts[id] - 1];
        if goRefCounts[id] == 0 {
          var v := values[id];
          values := values[id := Null];
          ids := ids - {v};
          idPool := idPool + [id];
        }
      }
    }
  }
}
