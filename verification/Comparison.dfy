/** The comparison strategy: everybody is asked, and a fallback provider settles disagreements. */
module Comparison {
  import opened Strategies

  ghost predicate AnyError<V>(resolutions: seq<Resolution<V>>) {
    exists k :: 0 <= k < |resolutions| && HasError(resolutions[k])
  }

  /** The answer of the fallback provider, the last one if it was registered more than once. */
  function Fallback<V>(resolutions: seq<Resolution<V>>, fallback: nat): (f: Option<Resolution<V>>)
    ensures f.Some? ==> f.value in resolutions && f.value.provider == fallback
  {
    if resolutions == [] then None
    else
      var last := resolutions[|resolutions| - 1];
      if last.provider == fallback then Some(last) else Fallback(resolutions[..|resolutions| - 1], fallback)
  }

  function ValueOf<V>(r: Resolution<V>): Option<V> {
    if r.Resolved? then r.details.value else None
  }

  /** The value that the loop compares with: the first that is defined. */
  function Agreed<V>(resolutions: seq<Resolution<V>>): Option<V> {
    if resolutions == [] then None
    else
      var front := Agreed(resolutions[..|resolutions| - 1]);
      if front.Some? then front else ValueOf(resolutions[|resolutions| - 1])
  }

  /** Some value differs from the first defined one before it. */
  predicate Mismatch<V(==)>(resolutions: seq<Resolution<V>>) {
    resolutions != [] &&
    var front := resolutions[..|resolutions| - 1];
    Mismatch(front) || (Agreed(front).Some? && ValueOf(resolutions[|resolutions| - 1]) != Agreed(front))
  }

  ghost predicate AllResolved<V>(resolutions: seq<Resolution<V>>) {
    forall k :: 0 <= k < |resolutions| ==> resolutions[k].Resolved? && !HasError(resolutions[k])
  }

  /** The strategy's conclusion, in terms of what the answers have in common. */
  ghost function Compared<V>(resolutions: seq<Resolution<V>>, fallback: nat): FinalResult<V> {
    if AnyError(resolutions) then Final(None, ProviderErrors(resolutions))
    else if Fallback(resolutions, fallback).None? then
      Thrower(GeneralError("Fallback provider not found in resolution results"))
    else if Mismatch(resolutions) then Final(Some(Fallback(resolutions, fallback).value.details), [])
    else Final(Some(resolutions[0].details), [])
  }

  lemma {:induction false} FallbackIsThere<V>(resolutions: seq<Resolution<V>>, fallback: nat)
    ensures Fallback(resolutions, fallback).Some? <==>
              exists k :: 0 <= k < |resolutions| && resolutions[k].provider == fallback
  {
    if resolutions == [] {
    } else {
      var front := resolutions[..|resolutions| - 1];
      FallbackIsThere(front, fallback);
      assert resolutions == front + [resolutions[|resolutions| - 1]];
    }
  }

  method DetermineFinalResult<V(==)>(resolutions: seq<Resolution<V>>, fallbackProvider: nat)
    returns (result: FinalResult<V>, onMismatch: bool)
    ensures result == Compared(resolutions, fallbackProvider)
    ensures onMismatch <==>
              AllResolved(resolutions) && Fallback(resolutions, fallbackProvider).Some? && Mismatch(resolutions)
  {
    var value: Option<V> := None;
    var fallbackResolution: Option<Resolution<V>> := None;
    var finalResolution: Option<Resolution<V>> := None;
    var mismatch := false;
    onMismatch := false;
    for i := 0 to |resolutions|
      invariant AllResolved(resolutions[..i])
      invariant fallbackResolution == Fallback(resolutions[..i], fallbackProvider)
      invariant finalResolution == if i == 0 then None else Some(resolutions[0])
      invariant value == Agreed(resolutions[..i]) && (mismatch <==> Mismatch(resolutions[..i]))
    {
      var resolution := resolutions[i];
      if HasError(resolution) {
        assert AnyError(resolutions);
        result := CollectProviderErrors(resolutions);
        return;
      }
      if resolution.provider == fallbackProvider {
        fallbackResolution := Some(resolution);
      }
      if i == 0 {
        finalResolution := Some(resolution);
      }
      OneMore(resolutions[..i], resolution);
      assert resolutions[..i + 1] == resolutions[..i] + [resolution];
      if value.Some? && value != resolution.details.value {
        mismatch := true;
      } else {
        value := resolution.details.value;
      }
    }
    assert resolutions[..|resolutions|] == resolutions;
    if fallbackResolution.None? {
      result := Thrower(GeneralError("Fallback provider not found in resolution results"));
      return;
    }
    FallbackIsThere(resolutions, fallbackProvider);
    if mismatch {
      onMismatch := true;
      result := Final(Some(fallbackResolution.value.details), []);
    } else {
      result := Final(Some(finalResolution.value.details), []);
    }
  }

  lemma OneMore<V>(seen: seq<Resolution<V>>, next: Resolution<V>)
    ensures var all := seen + [next];
            && (forall fallback ::
                  Fallback(all, fallback) == if next.provider == fallback then Some(next) else Fallback(seen, fallback))
            && Agreed(all) == (if Agreed(seen).Some? then Agreed(seen) else ValueOf(next))
            && (Mismatch(all) <==> Mismatch(seen) || (Agreed(seen).Some? && ValueOf(next) != Agreed(seen)))
  {
    assert (seen + [next])[..|seen|] == seen;
  }

  // ----- what the comparison means -----

  ghost predicate AllDefined<V>(resolutions: seq<Resolution<V>>) {
    AllResolved(resolutions) && forall k :: 0 <= k < |resolutions| ==> resolutions[k].details.value.Some?
  }

  ghost predicate AllEqual<V>(resolutions: seq<Resolution<V>>)
    requires AllResolved(resolutions)
  {
    forall i, j :: 0 <= i < |resolutions| && 0 <= j < |resolutions| ==>
      resolutions[i].details.value == resolutions[j].details.value
  }

  ghost predicate FirstDefined<V>(resolutions: seq<Resolution<V>>, i: nat) {
    i < |resolutions| && ValueOf(resolutions[i]).Some? && forall k :: 0 <= k < i ==> ValueOf(resolutions[k]).None?
  }

  lemma {:induction false} AgreedIsFirstDefined<V>(resolutions: seq<Resolution<V>>, i: nat)
    requires FirstDefined(resolutions, i)
    ensures Agreed(resolutions) == ValueOf(resolutions[i])
    decreases |resolutions|
  {
    var front := resolutions[..|resolutions| - 1];
    if i < |front| {
      AgreedIsFirstDefined(front, i);
    } else {
      NoneAgreed(front);
    }
  }

  lemma {:induction false} NoneAgreed<V>(resolutions: seq<Resolution<V>>)
    requires forall k :: 0 <= k < |resolutions| ==> ValueOf(resolutions[k]).None?
    ensures Agreed(resolutions).None? && !Mismatch(resolutions)
  {
    if resolutions == [] {
    } else {
      NoneAgreed(resolutions[..|resolutions| - 1]);
    }
  }

  /** There is a mismatch exactly when a value after the first defined one differs from it. */
  lemma {:induction false} MismatchExactly<V>(resolutions: seq<Resolution<V>>, i: nat)
    requires FirstDefined(resolutions, i)
    ensures Mismatch(resolutions) <==>
              exists j :: i < j < |resolutions| && ValueOf(resolutions[j]) != ValueOf(resolutions[i])
    decreases |resolutions|
  {
    var front, last := resolutions[..|resolutions| - 1], resolutions[|resolutions| - 1];
    assert resolutions == front + [last];
    if i < |front| {
      MismatchExactly(front, i);
      AgreedIsFirstDefined(front, i);
    } else {
      NoneAgreed(front);
    }
  }

  /** For defined values, a mismatch is any disagreement. */
  lemma MismatchMeansDisagreement<V>(resolutions: seq<Resolution<V>>)
    requires AllDefined(resolutions)
    ensures Mismatch(resolutions) <==> !AllEqual(resolutions)
  {
    if resolutions != [] {
      MismatchExactly(resolutions, 0);
    }
  }

  /** With errors, they are all reported; otherwise the fallback must have answered, and settles any disagreement. */
  lemma ComparisonMeans<V>(resolutions: seq<Resolution<V>>, fallback: nat)
    ensures Conclude(Compared(resolutions, fallback)).Ok? <==>
              AllResolved(resolutions) && exists k :: 0 <= k < |resolutions| && resolutions[k].provider == fallback
    ensures AnyError(resolutions) ==>
              Conclude(Compared(resolutions, fallback)) == Raised(AggregateError(ProviderErrors(resolutions)))
    ensures AllResolved(resolutions) && (forall k | 0 <= k < |resolutions| :: resolutions[k].provider != fallback) ==>
              Conclude(Compared(resolutions, fallback)) ==
                Raised(GeneralError("Fallback provider not found in resolution results"))
    ensures AllDefined(resolutions) && Fallback(resolutions, fallback).Some? ==>
              Conclude(Compared(resolutions, fallback)) ==
                Ok(if AllEqual(resolutions) then resolutions[0].details
                   else Fallback(resolutions, fallback).value.details)
  {
    FallbackIsThere(resolutions, fallback);
    ErrorsAreReportedExactly(resolutions);
    if AllDefined(resolutions) {
      MismatchMeansDisagreement(resolutions);
    }
  }

  // ----- the order of the providers -----

  ghost predicate OneFallback<V>(resolutions: seq<Resolution<V>>, fallback: nat) {
    forall i, j | 0 <= i < j < |resolutions| && resolutions[i].provider == resolutions[j].provider == fallback ::
      resolutions[i] == resolutions[j]
  }

  lemma SameMembers<V>(s: seq<Resolution<V>>, t: seq<Resolution<V>>)
    requires multiset(s) == multiset(t)
    ensures forall r :: r in s <==> r in t
    ensures |s| == |t|
  {
    forall r ensures r in s <==> r in t {
      assert r in s <==> r in multiset(s);
      assert r in t <==> r in multiset(t);
    }
    assert |multiset(s)| == |s| && |multiset(t)| == |t|;
  }

  lemma SameAnswersSameMeaning<V>(s: seq<Resolution<V>>, t: seq<Resolution<V>>)
    requires (forall r :: r in s <==> r in t) && AllDefined(s)
    ensures AllDefined(t) && (AllEqual(s) <==> AllEqual(t))
  {
    forall k | 0 <= k < |t| ensures t[k] in s {
    }
    forall k | 0 <= k < |s| ensures s[k] in t {
    }
  }

  lemma SameFallback<V>(s: seq<Resolution<V>>, t: seq<Resolution<V>>, fallback: nat)
    requires (forall r :: r in s <==> r in t) && OneFallback(s, fallback)
    ensures Fallback(s, fallback) == Fallback(t, fallback)
  {
    FallbackIsThere(s, fallback);
    FallbackIsThere(t, fallback);
    if Fallback(s, fallback).Some? {
      assert Fallback(s, fallback).value in t;
      assert Fallback(t, fallback).value in s;
    }
  }

  function Answer<V>(e: Evaluation<V>): Option<Option<V>> {
    if e.Ok? then Some(e.details.value) else None
  }

  /** Reordering the providers does not change the value, if all answers are defined and the fallback answered once. */
  lemma OrderDoesNotChangeTheValue<V>(s: seq<Resolution<V>>, t: seq<Resolution<V>>, fallback: nat)
    requires multiset(s) == multiset(t) && AllDefined(s) && OneFallback(s, fallback)
    ensures Answer(Conclude(Compared(s, fallback))) == Answer(Conclude(Compared(t, fallback)))
  {
    SameMembers(s, t);
    SameAnswersSameMeaning(s, t);
    SameFallback(s, t, fallback);
    ComparisonMeans(s, fallback);
    ComparisonMeans(t, fallback);
    if Fallback(s, fallback).Some? && AllEqual(s) {
      FallbackIsThere(s, fallback);
      FallbackIsThere(t, fallback);
      assert t[0] in s;
    }
  }

  // ----- exactly when the order does not matter -----

  ghost predicate NoneDefined<V>(resolutions: seq<Resolution<V>>) {
    forall k :: 0 <= k < |resolutions| ==> ValueOf(resolutions[k]).None?
  }

  /** Two defined values differ. */
  ghost predicate Conflict<V>(resolutions: seq<Resolution<V>>) {
    exists i, j ::
      && 0 <= i < |resolutions| && 0 <= j < |resolutions|
      && ValueOf(resolutions[i]).Some? && ValueOf(resolutions[j]).Some?
      && ValueOf(resolutions[i]) != ValueOf(resolutions[j])
  }

  /** Whatever comes first: the first answer's value on agreement, the fallback's otherwise. */
  lemma ValueIs<V>(s: seq<Resolution<V>>, fallback: nat)
    requires AllResolved(s) && Fallback(s, fallback).Some?
    ensures s != []
    ensures Answer(Conclude(Compared(s, fallback)))
         == Some(if Mismatch(s) then ValueOf(Fallback(s, fallback).value) else ValueOf(s[0]))
  {
    FallbackIsThere(s, fallback);
  }

  lemma {:induction false} SomeFirstDefined<V>(s: seq<Resolution<V>>, n: nat) returns (i: nat)
    requires n < |s| && ValueOf(s[n]).Some?
    ensures FirstDefined(s, i) && i <= n
  {
    if exists k :: 0 <= k < n && ValueOf(s[k]).Some? {
      var k :| 0 <= k < n && ValueOf(s[k]).Some?;
      i := SomeFirstDefined(s, k);
    } else {
      i := n;
    }
  }

  lemma ConflictIsMismatch<V>(s: seq<Resolution<V>>)
    requires Conflict(s)
    ensures Mismatch(s)
  {
    var i, j :| && 0 <= i < |s| && 0 <= j < |s| && ValueOf(s[i]).Some? && ValueOf(s[j]).Some?
                && ValueOf(s[i]) != ValueOf(s[j]);
    var first := SomeFirstDefined(s, i);
    assert first <= j;
    MismatchExactly(s, first);
    assert ValueOf(s[i]) != ValueOf(s[first]) || ValueOf(s[j]) != ValueOf(s[first]);
  }

  lemma ConflictIgnoresOrder<V>(s: seq<Resolution<V>>, t: seq<Resolution<V>>)
    requires (forall r :: r in s <==> r in t) && Conflict(s)
    ensures Conflict(t)
  {
    var i, j :| && 0 <= i < |s| && 0 <= j < |s| && ValueOf(s[i]).Some? && ValueOf(s[j]).Some?
                && ValueOf(s[i]) != ValueOf(s[j]);
    assert s[i] in t && s[j] in t;
    var k :| 0 <= k < |t| && t[k] == s[i];
    var l :| 0 <= l < |t| && t[l] == s[j];
  }

  /** With an undefined fallback the value is undefined, whether there is a mismatch or not. */
  lemma UndefinedFallbackWins<V>(s: seq<Resolution<V>>, fallback: nat)
    requires AllResolved(s) && Fallback(s, fallback).Some? && ValueOf(Fallback(s, fallback).value).None?
    ensures Answer(Conclude(Compared(s, fallback))) == Some(None)
  {
    ValueIs(s, fallback);
    if ValueOf(s[0]).Some? {
      assert FirstDefined(s, 0);
      MismatchExactly(s, 0);
      var k :| 0 <= k < |s| && s[k] == Fallback(s, fallback).value;
      assert ValueOf(s[k]) != ValueOf(s[0]);
    }
  }

  /** Enough for the value to be the same under every reordering. */
  ghost predicate Orderless<V>(s: seq<Resolution<V>>, fallback: nat)
    requires Fallback(s, fallback).Some?
  {
    AllDefined(s) || NoneDefined(s) || Conflict(s) || ValueOf(Fallback(s, fallback).value).None?
  }

  lemma OrderlessIsSame<V>(s: seq<Resolution<V>>, t: seq<Resolution<V>>, fallback: nat)
    requires AllResolved(s) && OneFallback(s, fallback) && Fallback(s, fallback).Some? && Orderless(s, fallback)
    requires multiset(t) == multiset(s)
    ensures Answer(Conclude(Compared(t, fallback))) == Answer(Conclude(Compared(s, fallback)))
  {
    SameMembers(s, t);
    SameFallback(s, t, fallback);
    forall k | 0 <= k < |t| ensures t[k] in s {
    }
    if AllDefined(s) {
      OrderDoesNotChangeTheValue(s, t, fallback);
    } else if ValueOf(Fallback(s, fallback).value).None? {
      UndefinedFallbackWins(s, fallback);
      UndefinedFallbackWins(t, fallback);
    } else if Conflict(s) {
      ConflictIgnoresOrder(s, t);
      ConflictIsMismatch(s);
      ConflictIsMismatch(t);
      ValueIs(s, fallback);
      ValueIs(t, fallback);
    } else {
      NoneAgreed(s);
      NoneAgreed(t);
      ValueIs(s, fallback);
      ValueIs(t, fallback);
    }
  }

  /** The answers whose values are defined, or those whose values are not. */
  function Filtered<V>(s: seq<Resolution<V>>, defined: bool): seq<Resolution<V>> {
    if s == [] then []
    else
      var front, last := Filtered(s[..|s| - 1], defined), s[|s| - 1];
      if ValueOf(last).Some? == defined then front + [last] else front
  }

  lemma {:induction false} FilteredParts<V>(s: seq<Resolution<V>>)
    ensures multiset(Filtered(s, true) + Filtered(s, false)) == multiset(s)
    ensures forall defined :: forall r <- Filtered(s, defined) :: ValueOf(r).Some? == defined
  {
    if s == [] {
    } else {
      var front, last := s[..|s| - 1], s[|s| - 1];
      FilteredParts(front);
      assert s == front + [last];
    }
  }

  /** Undefined values first: no mismatch, and the value is undefined. */
  lemma UndefinedFirst<V>(u: seq<Resolution<V>>, d: seq<Resolution<V>>, fallback: nat)
    requires u != [] && d != [] && AllResolved(u + d) && !Conflict(u + d) && Fallback(u + d, fallback).Some?
    requires (forall r <- u :: ValueOf(r).None?) && (forall r <- d :: ValueOf(r).Some?)
    ensures Answer(Conclude(Compared(u + d, fallback))) == Some(None)
  {
    var t := u + d;
    assert t[0] == u[0] && t[|u|] == d[0] && forall k :: 0 <= k < |u| ==> t[k] == u[k];
    assert FirstDefined(t, |u|);
    MismatchExactly(t, |u|);
    forall j | |u| < j < |t| ensures ValueOf(t[j]) == ValueOf(t[|u|]) {
      assert t[j] == d[j - |u|];
    }
    ValueIs(t, fallback);
  }

  /** Defined values first: a mismatch, and the value is the fallback's. */
  lemma DefinedFirst<V>(u: seq<Resolution<V>>, d: seq<Resolution<V>>, fallback: nat)
    requires u != [] && d != [] && AllResolved(d + u) && Fallback(d + u, fallback).Some?
    requires (forall r <- u :: ValueOf(r).None?) && (forall r <- d :: ValueOf(r).Some?)
    ensures Answer(Conclude(Compared(d + u, fallback))) == Some(ValueOf(Fallback(d + u, fallback).value))
  {
    var t := d + u;
    assert t[0] == d[0] && t[|d|] == u[0];
    assert FirstDefined(t, 0);
    MismatchExactly(t, 0);
    ValueIs(t, fallback);
  }

  ghost predicate SameInAnyOrder<V(!new)>(s: seq<Resolution<V>>, fallback: nat) {
    forall t: seq<Resolution<V>> :: multiset(t) == multiset(s) ==>
      Answer(Conclude(Compared(t, fallback))) == Answer(Conclude(Compared(s, fallback)))
  }

  /**
   An undefined value agrees with whatever follows it, but not with what precedes it. So if some values are
   undefined and the others agree with a defined fallback, putting the undefined ones first or last gives
   different values.
   */
  lemma UndefinedValuesDependOnOrder<V(!new)>(s: seq<Resolution<V>>, fallback: nat)
    requires AllResolved(s) && OneFallback(s, fallback) && Fallback(s, fallback).Some? && !Orderless(s, fallback)
    ensures !SameInAnyOrder(s, fallback)
  {
    var u, d := Filtered(s, false), Filtered(s, true);
    FilteredParts(s);
    assert multiset(u + d) == multiset(s) && multiset(d + u) == multiset(s);
    TwoValues(s, u, d, fallback);
  }

  lemma TwoValues<V>(s: seq<Resolution<V>>, u: seq<Resolution<V>>, d: seq<Resolution<V>>, fallback: nat)
    requires AllResolved(s) && OneFallback(s, fallback) && Fallback(s, fallback).Some? && !Orderless(s, fallback)
    requires multiset(u + d) == multiset(s) && multiset(d + u) == multiset(s)
    requires (forall r <- u :: ValueOf(r).None?) && (forall r <- d :: ValueOf(r).Some?)
    ensures Answer(Conclude(Compared(u + d, fallback))) != Answer(Conclude(Compared(d + u, fallback)))
  {
    SameMembers(s, u + d);
    SameMembers(s, d + u);
    SameFallback(s, u + d, fallback);
    SameFallback(s, d + u, fallback);
    MixedParts(s, u, d);
    if Conflict(u + d) {
      ConflictIgnoresOrder(u + d, s);
    }
    UndefinedFirst(u, d, fallback);
    DefinedFirst(u, d, fallback);
  }

  lemma MixedParts<V>(s: seq<Resolution<V>>, u: seq<Resolution<V>>, d: seq<Resolution<V>>)
    requires AllResolved(s) && !AllDefined(s) && !NoneDefined(s)
    requires (forall r :: r in s <==> r in u + d) && (forall r :: r in s <==> r in d + u)
    requires (forall r <- u :: ValueOf(r).None?) && (forall r <- d :: ValueOf(r).Some?)
    ensures u != [] && d != [] && AllResolved(u + d) && AllResolved(d + u)
  {
    var i :| 0 <= i < |s| && ValueOf(s[i]).None?;
    var j :| 0 <= j < |s| && ValueOf(s[j]).Some?;
    assert s[i] in u + d && s[j] in u + d;
    forall k | 0 <= k < |u + d| ensures (u + d)[k] in s {
    }
    forall k | 0 <= k < |d + u| ensures (d + u)[k] in s {
    }
  }

  /**
   Without errors and with one fallback that answered, the value is the same under every reordering of the
   providers if and only if all values are defined, or none is, or two defined values differ, or the
   fallback's value is undefined.
   */
  lemma SameInAnyOrderExactly<V(!new)>(s: seq<Resolution<V>>, fallback: nat)
    requires AllResolved(s) && OneFallback(s, fallback) && Fallback(s, fallback).Some?
    ensures SameInAnyOrder(s, fallback) <==> Orderless(s, fallback)
  {
    if Orderless(s, fallback) {
      forall t: seq<Resolution<V>> | multiset(t) == multiset(s)
        ensures Answer(Conclude(Compared(t, fallback))) == Answer(Conclude(Compared(s, fallback)))
      {
        OrderlessIsSame(s, t, fallback);
      }
    } else {
      UndefinedValuesDependOnOrder(s, fallback);
    }
  }
}
