/**
 The `fractional` targeting rule of flagd: a 32-bit hash is scaled to the total
 weight and the first bucket whose running sum exceeds it is chosen.
 */
module Fractional {

  const MAX_WEIGHT: nat := 2147483647
  const HASHES: nat := 0x1_0000_0000

  type Hash = h: int | 0 <= h < HASHES

  /** What the JSONLogic engine hands over; `NotFinite` stands for NaN and the infinities. */
  datatype Data =
    | Undefined
    | Null
    | Boolean(b: bool)
    | Number(n: real)
    | NotFinite
    | Text(s: string)
    | List(items: seq<Data>)
    | Struct

  datatype Option<+T> = None | Some(value: T)

  /** The flagd properties (the flag key is all that is read of them) and the targeting key. */
  datatype Context = Context(flagKey: Option<string>, targetingKey: Option<string>)

  datatype Bucket = Bucket(variant: Data, fraction: nat)

  datatype BucketingList = Invalid | Valid(fractions: seq<Bucket>, totalWeight: nat)

  // ----- reading the buckets -----

  predicate IsInteger(d: Data) {
    d.Number? && d.n.Floor as real == d.n
  }

  predicate IsVariant(d: Data) {
    d.Text? || d.Number? || d.NotFinite? || d.Boolean? || d.Null? || d.Undefined?
  }

  predicate WellFormed(entry: Data) {
    entry.List? && 1 <= |entry.items| <= 2 && IsVariant(entry.items[0])
    && (|entry.items| == 2 ==> IsInteger(entry.items[1]))
  }

  function VariantOf(entry: Data): Data
    requires WellFormed(entry)
  {
    if entry.items[0].Undefined? then Null else entry.items[0]
  }

  /** A missing weight is 1 and a negative one is 0. */
  function WeightOf(entry: Data): nat
    requires WellFormed(entry)
  {
    if |entry.items| == 1 then 1
    else if entry.items[1].n.Floor < 0 then 0
    else entry.items[1].n.Floor
  }

  ghost predicate AllWellFormed(entries: seq<Data>) {
    forall i :: 0 <= i < |entries| ==> WellFormed(entries[i])
  }

  function Weights(entries: seq<Data>): (w: seq<nat>)
    requires AllWellFormed(entries)
    ensures |w| == |entries|
  {
    seq(|entries|, i requires 0 <= i < |entries| => WeightOf(entries[i]))
  }

  /** The sum of the first `i` weights. */
  function Prefix(w: seq<nat>, i: nat): nat
    requires i <= |w|
  {
    if i == 0 then 0 else Prefix(w, i - 1) + w[i - 1]
  }

  function Total(w: seq<nat>): nat {
    Prefix(w, |w|)
  }

  method ToBucketingList(from: seq<Data>) returns (r: BucketingList)
    ensures r.Valid? <==>
              forall i :: 0 <= i < |from| ==>
                && from[i].List? && |from[i].items| in {1, 2}
                && !from[i].items[0].List? && !from[i].items[0].Struct?
                && (|from[i].items| == 2 ==>
                      from[i].items[1].Number? && from[i].items[1].n.Floor as real == from[i].items[1].n)
    ensures r.Valid? ==> AllWellFormed(from)
    ensures r.Valid? ==> |r.fractions| == |from| && r.totalWeight == Total(Weights(from))
    ensures r.Valid? ==>
              forall i :: 0 <= i < |from| ==>
                && r.fractions[i].variant == (if from[i].items[0].Undefined? then Null else from[i].items[0])
                && r.fractions[i].fraction == Weights(from)[i]
                && Weights(from)[i] == if |from[i].items| == 1 then 1
                                       else if from[i].items[1].n < 0.0 then 0 else from[i].items[1].n.Floor
  {
    var bucketingArray: seq<Bucket> := [];
    var totalWeight := 0;
    for i := 0 to |from|
      invariant AllWellFormed(from[..i]) && |bucketingArray| == i
      invariant forall j :: 0 <= j < i ==>
                  WellFormed(from[j]) && bucketingArray[j] == Bucket(VariantOf(from[j]), WeightOf(from[j]))
      invariant totalWeight == Total(Weights(from[..i]))
    {
      var entry := from[i];
      if !entry.List? {
        return Invalid;
      }
      if |entry.items| == 0 || |entry.items| > 2 {
        return Invalid;
      }
      var variant;
      if entry.items[0].Text? || entry.items[0].Number? || entry.items[0].NotFinite? || entry.items[0].Boolean? {
        variant := entry.items[0];
      } else if entry.items[0].Null? || entry.items[0].Undefined? {
        variant := Null;
      } else {
        return Invalid;
      }
      var weight := 1;
      if |entry.items| >= 2 {
        var raw := entry.items[1];
        if !IsInteger(raw) {
          return Invalid;
        }
        weight := if raw.n.Floor < 0 then 0 else raw.n.Floor;
      }
      assert WellFormed(entry) && weight == WeightOf(entry) && variant == VariantOf(entry);
      assert Weights(from[..i + 1])[..i] == Weights(from[..i]);
      PrefixOfFront(Weights(from[..i + 1]), Weights(from[..i]), i);
      bucketingArray := bucketingArray + [Bucket(variant, weight)];
      totalWeight := totalWeight + weight;
    }
    assert from[..|from|] == from;
    return Valid(bucketingArray, totalWeight);
  }

  lemma {:induction false} PrefixOfFront(w: seq<nat>, front: seq<nat>, i: nat)
    requires i <= |front| <= |w| && w[..|front|] == front
    ensures Prefix(w, i) == Prefix(front, i)
  {
    if i == 0 {
    } else {
      PrefixOfFront(w, front, i - 1);
      assert w[i - 1] == w[..|front|][i - 1];
    }
  }

  // ----- choosing a bucket -----

  /** `(hash * totalWeight) >> 32`. */
  function Scaled(w: seq<nat>, h: Hash): nat {
    h * Total(w) / HASHES
  }

  /** The scan stops at bucket `i`: its running sum is the first to exceed the scaled hash. */
  predicate Picked(w: seq<nat>, h: Hash, i: nat) {
    i < |w| && Prefix(w, i) <= Scaled(w, h) < Prefix(w, i + 1)
  }

  /** The first hash that does not fall below the running sum of `i` buckets: ceil(2^32 * C[i] / T). */
  function Bound(w: seq<nat>, i: nat): nat
    requires i <= |w| && Total(w) > 0
  {
    (HASHES * Prefix(w, i) + Total(w) - 1) / Total(w)
  }

  /** The variant whose share holds the hash; null for entries that are malformed or have no total within bounds. */
  ghost predicate Chosen(entries: seq<Data>, hash: Hash, r: Data) {
    if AllWellFormed(entries) && 0 < Total(Weights(entries)) <= 2147483647 then
      exists i: nat ::
        && i < |entries| && Bound(Weights(entries), i) <= hash < Bound(Weights(entries), i + 1)
        && r == if entries[i].items[0].Undefined? then Null else entries[i].items[0]
    else r == Null
  }

  method Evaluate(data: Data, context: Context, murmur: string -> Hash) returns (r: Data)
    ensures !data.List? || data.items == [] || context.flagKey.None? ==> r == Null
    ensures data.List? && data.items != [] && context.flagKey.Some? ==>
              if data.items[0].Text? then Chosen(data.items[1..], murmur(data.items[0].s), r)
              else if context.targetingKey.None? || context.targetingKey.value == "" then r == Null
              else Chosen(data.items, murmur(context.flagKey.value + context.targetingKey.value), r)
  {
    if !data.List? {
      return Null;
    }
    var args := data.items;
    if |args| < 1 {
      return Null;
    }
    if context.flagKey.None? {
      return Null;
    }
    var bucketBy, buckets;
    if args[0].Text? {
      bucketBy, buckets := args[0].s, args[1..];
    } else {
      if context.targetingKey.None? || context.targetingKey.value == "" {
        return Null;
      }
      bucketBy, buckets := context.flagKey.value + context.targetingKey.value, args;
    }
    var bucketingList := ToBucketingList(buckets);
    if bucketingList.Invalid? {
      return Null;
    }
    if bucketingList.totalWeight > MAX_WEIGHT {
      return Null;
    }
    var hashUint32 := murmur(bucketBy);
    r := Scan(bucketingList.fractions, bucketingList.totalWeight, hashUint32, Weights(buckets));
    assert Chosen(buckets, hashUint32, r);
  }

  /** The scaling of the hash and the loop over the fractions, whose weights are `w`. */
  method Scan(fractions: seq<Bucket>, totalWeight: nat, hashUint32: Hash, ghost w: seq<nat>) returns (r: Data)
    requires |w| == |fractions| && totalWeight == Total(w)
    requires forall i :: 0 <= i < |w| ==> fractions[i].fraction == w[i]
    ensures totalWeight == 0 ==> r == Null
    ensures totalWeight > 0 ==>
              exists i: nat ::
                i < |w| && Bound(w, i) <= hashUint32 < Bound(w, i + 1) && r == fractions[i].variant
  {
    var bucket := hashUint32 * totalWeight / HASHES;
    var sum := 0;
    for i := 0 to |fractions|
      invariant sum == Prefix(w, i) && sum <= bucket
    {
      sum := sum + fractions[i].fraction;
      if sum > bucket {
        assert Picked(w, hashUint32, i);
        PrefixMonotone(w, i + 1, |w|);
        PickedIffInShare(w, hashUint32, i);
        return fractions[i].variant;
      }
    }
    if totalWeight > 0 {
      ScaledBelowTotal(w, hashUint32);
    }
    return Null;
  }

  // ----- arithmetic -----

  lemma MulMonotone(a: int, b: int, c: nat)
    requires a <= b
    ensures a * c <= b * c
  {
    assert (b - a) * c >= 0;
  }

  lemma CeilDiv(a: nat, t: nat, h: int)
    requires t > 0
    ensures h < (a + t - 1) / t <==> h * t < a
  {
    var c := (a + t - 1) / t;
    assert c * t <= a + t - 1 < c * t + t;
    if h < c {
      MulMonotone(h + 1, c, t);
      assert (h + 1) * t == h * t + t;
    } else {
      MulMonotone(c, h, t);
    }
  }

  lemma {:induction false} PrefixMonotone(w: seq<nat>, i: nat, j: nat)
    requires i <= j <= |w|
    ensures Prefix(w, i) <= Prefix(w, j)
    decreases j - i
  {
    if i == j {
    } else {
      PrefixMonotone(w, i, j - 1);
    }
  }

  lemma ScaledBelowTotal(w: seq<nat>, h: Hash)
    requires Total(w) > 0
    ensures Scaled(w, h) < Total(w)
  {
    MulMonotone(h + 1, HASHES, Total(w));
    assert (h + 1) * Total(w) == h * Total(w) + Total(w);
  }

  /** A running sum exceeds the scaled hash exactly when the hash is below its bound. */
  lemma AboveIffBelowBound(w: seq<nat>, h: Hash, i: nat)
    requires i <= |w| && Total(w) > 0
    ensures Prefix(w, i) > Scaled(w, h) <==> h < Bound(w, i)
  {
    CeilDiv(HASHES * Prefix(w, i), Total(w), h);
  }

  lemma PickedIffInShare(w: seq<nat>, h: Hash, i: nat)
    requires i < |w| && Total(w) > 0
    ensures Picked(w, h, i) <==> Bound(w, i) <= h < Bound(w, i + 1)
  {
    AboveIffBelowBound(w, h, i);
    AboveIffBelowBound(w, h, i + 1);
  }

  // ----- the share of each bucket -----

  lemma BoundEnds(w: seq<nat>)
    requires Total(w) > 0
    ensures Bound(w, 0) == 0 && Bound(w, |w|) == HASHES
  {
    CeilDiv(0, Total(w), 0);
    CeilDiv(HASHES * Total(w), Total(w), HASHES - 1);
    CeilDiv(HASHES * Total(w), Total(w), HASHES);
    MulMonotone(HASHES - 1, HASHES, Total(w));
    assert (HASHES - 1) * Total(w) == HASHES * Total(w) - Total(w);
  }

  lemma BoundMonotone(w: seq<nat>, i: nat, j: nat)
    requires i <= j <= |w| && Total(w) > 0
    ensures Bound(w, i) <= Bound(w, j)
  {
    PrefixMonotone(w, i, j);
    var t := Total(w);
    CeilDiv(HASHES * Prefix(w, i), t, Bound(w, j));
    CeilDiv(HASHES * Prefix(w, j), t, Bound(w, j));
  }

  /** The scan never falls through, and it has one answer. */
  lemma ExactlyOneBucket(w: seq<nat>, h: Hash)
    requires Total(w) > 0
    ensures exists i: nat :: Picked(w, h, i)
    ensures forall i: nat, j: nat :: Picked(w, h, i) && Picked(w, h, j) ==> i == j
  {
    ScaledBelowTotal(w, h);
    var i := FirstAbove(w, Scaled(w, h), |w|);
    assert Picked(w, h, i);
    forall i: nat, j: nat | Picked(w, h, i) && Picked(w, h, j) ensures i == j {
      if i < j {
        PrefixMonotone(w, i + 1, j);
      } else if j < i {
        PrefixMonotone(w, j + 1, i);
      }
    }
  }

  lemma {:induction false} FirstAbove(w: seq<nat>, bucket: nat, n: nat) returns (i: nat)
    requires n <= |w| && bucket < Prefix(w, n)
    ensures i < n && Prefix(w, i) <= bucket < Prefix(w, i + 1)
  {
    if Prefix(w, n - 1) <= bucket {
      i := n - 1;
    } else {
      i := FirstAbove(w, bucket, n - 1);
    }
  }

  /** All hashes that pick bucket `i`. */
  ghost function Share(w: seq<nat>, i: nat): set<Hash> {
    set h: Hash | Picked(w, h, i)
  }

  ghost predicate Within(h: Hash, lo: nat, hi: nat) {
    lo <= h < hi
  }

  ghost function Interval(lo: nat, hi: nat): set<Hash> {
    set h: Hash | Within(h, lo, hi)
  }

  lemma {:induction false} IntervalSize(lo: nat, hi: nat)
    requires lo <= hi <= HASHES
    ensures |Interval(lo, hi)| == hi - lo
    decreases hi - lo
  {
    if lo == hi {
      assert Interval(lo, hi) == {};
    } else {
      IntervalSize(lo, hi - 1);
      var last: Hash := hi - 1;
      assert Interval(lo, hi) == Interval(lo, hi - 1) + {last};
    }
  }

  /** Exactly ceil(2^32*C[i+1]/T) - ceil(2^32*C[i]/T) of the 2^32 hashes pick bucket `i`. */
  lemma ShareSize(w: seq<nat>, i: nat)
    requires i < |w| && Total(w) > 0
    ensures |Share(w, i)| == Bound(w, i + 1) - Bound(w, i)
  {
    BoundMonotone(w, i, i + 1);
    BoundMonotone(w, i + 1, |w|);
    BoundEnds(w);
    IntervalSize(Bound(w, i), Bound(w, i + 1));
    forall h: Hash ensures h in Share(w, i) <==> h in Interval(Bound(w, i), Bound(w, i + 1)) {
      PickedIffInShare(w, h, i);
    }
    assert Share(w, i) == Interval(Bound(w, i), Bound(w, i + 1));
  }

  lemma CeilRange(a: nat, t: nat)
    requires t > 0
    ensures a <= (a + t - 1) / t * t < a + t
  {
    var c := (a + t - 1) / t;
    assert c * t <= a + t - 1 < c * t + t;
  }

  /** Each share is within one hash of its exact proportion `2^32 * w[i] / T`. */
  lemma ShareIsFair(w: seq<nat>, i: nat)
    requires i < |w| && Total(w) > 0
    ensures HASHES * w[i] - Total(w) < |Share(w, i)| * Total(w) < HASHES * w[i] + Total(w)
  {
    ShareSize(w, i);
    var t := Total(w);
    CeilRange(HASHES * Prefix(w, i), t);
    CeilRange(HASHES * Prefix(w, i + 1), t);
    var lo, hi := Bound(w, i), Bound(w, i + 1);
    assert (hi - lo) * t == hi * t - lo * t;
    assert HASHES * Prefix(w, i + 1) == HASHES * Prefix(w, i) + HASHES * w[i];
  }

  /** `MAX_WEIGHT` leaves every bucket of positive weight at least two hashes; one of weight zero gets none. */
  lemma PositiveWeightsAreReachable(w: seq<nat>, i: nat)
    requires i < |w| && 0 < Total(w) <= MAX_WEIGHT
    ensures w[i] > 0 ==> |Share(w, i)| >= 2
    ensures w[i] == 0 ==> Share(w, i) == {}
  {
    if w[i] > 0 {
      ShareIsFair(w, i);
      var n, t := |Share(w, i)|, Total(w);
      if n <= 1 {
        MulMonotone(n, 1, t);
      }
    }
  }

  /** Every bucket of positive weight gets at least `n` hashes, whatever the weights of total `total`. */
  ghost predicate AlwaysReached(total: nat, n: nat) {
    forall w: seq<nat>, i: nat :: Total(w) == total && i < |w| && w[i] > 0 ==> |Share(w, i)| >= n
  }

  /** A last bucket of weight one gets floor(2^32 / T) hashes: the smallest share there is. */
  lemma LastUnitShare(total: nat)
    requires total > 0
    ensures var w: seq<nat> := [total - 1, 1]; Total(w) == total && |Share(w, 1)| == HASHES / total
  {
    var w: seq<nat> := [total - 1, 1];
    assert Prefix(w, 0) == 0 && Prefix(w, 1) == total - 1 && Prefix(w, 2) == total;
    ShareSize(w, 1);
    BoundEnds(w);
    assert HASHES * (total - 1) == HASHES * total - HASHES;
    CeilOfDifference(HASHES, total);
  }

  lemma CeilOfDifference(a: nat, t: nat)
    requires t > 0
    ensures (a * t - a + t - 1) / t == a - a / t
  {
    var q, r := a / t, a % t;
    assert a == q * t + r;
    assert (a - q) * t == a * t - q * t;
    assert a * t - a + t - 1 == (a - q) * t + (t - 1 - r);
    QuotientIs(a * t - a + t - 1, t, a - q, t - 1 - r);
  }

  lemma QuotientIs(x: int, t: nat, q: int, r: nat)
    requires r < t && x == q * t + r
    ensures x / t == q
  {
    var p := x / t;
    assert x == p * t + x % t;
    assert (p + 1) * t == p * t + t && (q + 1) * t == q * t + t;
    if p < q {
      MulMonotone(p + 1, q, t);
    } else if q < p {
      MulMonotone(q + 1, p, t);
    }
  }

  lemma AtLeastOne(w: seq<nat>, i: nat)
    requires i < |w| && w[i] > 0 && 0 < Total(w) <= HASHES
    ensures |Share(w, i)| >= 1
    ensures 2 * Total(w) <= HASHES ==> |Share(w, i)| >= 2
  {
    ShareIsFair(w, i);
    var n, t := |Share(w, i)|, Total(w);
    if n <= 1 {
      MulMonotone(n, 1, t);
    }
  }

  /**
   The limits below which no positive weight goes without: all get a hash if and only if the total is at
   most 2^32, and two hashes if and only if it is at most 2^31.
   */
  lemma ReachedUpToTheLimitExactly(total: nat)
    requires total > 0
    ensures AlwaysReached(total, 1) <==> total <= HASHES
    ensures AlwaysReached(total, 2) <==> 2 * total <= HASHES
  {
    var w: seq<nat> := [total - 1, 1];
    LastUnitShare(total);
    assert w[1] > 0;
    if total <= HASHES {
      forall w: seq<nat>, i: nat | Total(w) == total && i < |w| && w[i] > 0
        ensures |Share(w, i)| >= 1 && (2 * total <= HASHES ==> |Share(w, i)| >= 2)
      {
        AtLeastOne(w, i);
      }
    }
    SmallQuotient(HASHES, total);
  }

  lemma SmallQuotient(a: nat, t: nat)
    requires t > 0
    ensures t > a ==> a / t == 0
    ensures 2 * t > a ==> a / t <= 1
  {
    assert a == a / t * t + a % t;
    if a / t >= 2 {
      MulMonotone(2, a / t, t);
    }
  }

  // ----- changing the weights -----

  /** With the same total, larger running sums never move a hash to a later bucket. */
  lemma LargerSumsNeverMoveLater(w: seq<nat>, v: seq<nat>, h: Hash, i: nat, j: nat)
    requires |w| == |v| && Total(w) == Total(v)
    requires forall k: nat :: k <= |w| ==> Prefix(w, k) <= Prefix(v, k)
    requires Picked(w, h, i) && Picked(v, h, j)
    ensures j <= i
  {
    assert Prefix(w, i + 1) <= Prefix(v, i + 1);
    if i < j {
      PrefixMonotone(v, i + 1, j);
    }
  }

  /** Growing the first arm of a rollout, at the cost of any others, keeps everyone who was in it. */
  lemma GrowingTheFirstArmKeepsItsMembers(w: seq<nat>, v: seq<nat>, h: Hash)
    requires |w| == |v| > 0 && Total(w) == Total(v) && w[0] <= v[0]
    requires Picked(w, h, 0)
    ensures Picked(v, h, 0)
  {
    assert Prefix(w, 1) == w[0] && Prefix(v, 1) == v[0];
  }

  function Scale(w: seq<nat>, c: nat): (v: seq<nat>)
    ensures |v| == |w|
  {
    seq(|w|, i requires 0 <= i < |w| => c * w[i])
  }

  lemma {:induction false} ScalePrefix(w: seq<nat>, c: nat, i: nat)
    requires i <= |w|
    ensures Prefix(Scale(w, c), i) == c * Prefix(w, i)
  {
    if i == 0 {
    } else {
      ScalePrefix(w, c, i - 1);
      assert c * (Prefix(w, i - 1) + w[i - 1]) == c * Prefix(w, i - 1) + c * w[i - 1];
    }
  }

  lemma ScaleAbove(p: nat, t: nat, c: nat, h: Hash)
    requires c > 0
    ensures c * p > h * (c * t) / HASHES <==> p > h * t / HASHES
  {
    var a, b := HASHES * p, h * t;
    assert h * (c * t) == c * b;
    assert HASHES * (c * p) == c * a;
    if b < a {
      assert c * a - c * b == c * (a - b) > 0;
    } else {
      assert c * b - c * a == c * (b - a) >= 0;
    }
  }

  /** A common factor on all weights moves no hash at all. */
  lemma CommonFactorMovesNothing(w: seq<nat>, c: nat, h: Hash, i: nat)
    requires c > 0
    ensures Picked(Scale(w, c), h, i) <==> Picked(w, h, i)
  {
    if i < |w| {
      ScalePrefix(w, c, i);
      ScalePrefix(w, c, i + 1);
      ScalePrefix(w, c, |w|);
      ScaleAbove(Prefix(w, i), Total(w), c, h);
      ScaleAbove(Prefix(w, i + 1), Total(w), c, h);
    }
  }
}
