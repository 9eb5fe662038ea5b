/**
 The evaluation strategies of the multi-provider: which providers are asked, when to stop asking, and what
 the answers amount to. Values are compared with equality; an undefined value is None.
 */
module Strategies {

  datatype Option<+T> = None | Some(value: T)

  const GENERAL := "GENERAL"
  const FLAG_NOT_FOUND := "FLAG_NOT_FOUND"

  datatype Status = READY | NOT_READY | ERROR | STALE | FATAL

  /** What was thrown, as far as anyone looks at it. */
  datatype Thrown = Thrown(code: Option<string>, message: Option<string>)

  datatype Details<V> = Details(
    value: Option<V>, variant: Option<string>, reason: Option<string>, errorCode: Option<string>,
    errorMessage: Option<string>, flagMetadata: Option<map<string, string>>, flagKey: Option<string>)

  datatype Resolution<V> =
    | Resolved(providerName: string, provider: nat, details: Details<V>)
    | Errored(providerName: string, provider: nat, thrownError: Thrown)

  datatype ProviderError = ProviderError(providerName: string, error: Thrown)

  datatype Failure = TypeError | GeneralError(message: string) | AggregateError(errors: seq<ProviderError>)

  /** What a strategy concludes, unless it throws. */
  datatype FinalResult<V> =
    | Final(details: Option<Details<V>>, errors: seq<ProviderError>)
    | Thrower(failure: Failure)

  /** What the caller of the multi-provider gets. */
  datatype Evaluation<V> = Ok(details: Details<V>) | Raised(failure: Failure)

  // ----- what all strategies share -----

  predicate Truthy(code: Option<string>) {
    code.Some? && code.value != ""
  }

  predicate ShouldEvaluateThisProvider(status: Option<Status>) {
    status != Some(NOT_READY) && status != Some(FATAL)
  }

  predicate HasError<V>(r: Resolution<V>) {
    r.Errored? || Truthy(r.details.errorCode)
  }

  predicate HasErrorWithCode<V>(r: Resolution<V>, code: string) {
    match r
    case Errored(_, _, thrown) => thrown.code == Some(code)
    case Resolved(_, _, details) => details.errorCode == Some(code)
  }

  function ErrorOf<V>(r: Resolution<V>): ProviderError
    requires HasError(r)
  {
    match r
    case Errored(name, _, thrown) => ProviderError(name, thrown)
    case Resolved(name, _, details) =>
      ProviderError(name, Thrown(details.errorCode,
                                 if details.errorMessage.Some? then details.errorMessage else Some("unknown error")))
  }

  function ProviderErrors<V>(resolutions: seq<Resolution<V>>): seq<ProviderError> {
    if resolutions == [] then []
    else
      var front, last := ProviderErrors(resolutions[..|resolutions| - 1]), resolutions[|resolutions| - 1];
      if HasError(last) then front + [ErrorOf(last)] else front
  }

  method CollectProviderErrors<V>(resolutions: seq<Resolution<V>>) returns (result: FinalResult<V>)
    ensures result == Final(None, ProviderErrors(resolutions))
  {
    var errors := [];
    for i := 0 to |resolutions|
      invariant errors == ProviderErrors(resolutions[..i])
    {
      var resolution := resolutions[i];
      assert resolutions[..i + 1][..i] == resolutions[..i];
      if resolution.Errored? {
        errors := errors + [ProviderError(resolution.providerName, resolution.thrownError)];
      } else if Truthy(resolution.details.errorCode) {
        var details := resolution.details;
        var message := if details.errorMessage.Some? then details.errorMessage else Some("unknown error");
        errors := errors + [ProviderError(resolution.providerName, Thrown(details.errorCode, message))];
      }
    }
    assert resolutions[..|resolutions|] == resolutions;
    result := Final(None, errors);
  }

  /** What counts as a failure: a throw, or an error code that is not empty. */
  predicate Failed<V>(r: Resolution<V>) {
    r.Errored? || (r.details.errorCode.Some? && r.details.errorCode.value != "")
  }

  /** The report of a failure names the provider, and what was thrown or the error code with its message. */
  predicate Reports<V>(report: ProviderError, r: Resolution<V>) {
    && report.providerName == r.providerName
    && match r
       case Errored(_, _, thrown) => report.error == thrown
       case Resolved(_, _, details) =>
         && report.error.code == details.errorCode
         && report.error.message
            == if details.errorMessage.Some? then details.errorMessage else Some("unknown error")
  }

  /** A flag-not-found, thrown or returned. */
  predicate SaysNotFound<V>(r: Resolution<V>) {
    match r
    case Errored(_, _, thrown) => thrown.code == Some("FLAG_NOT_FOUND")
    case Resolved(_, _, details) => details.errorCode == Some("FLAG_NOT_FOUND")
  }

  /** When every resolution has an error, there is one report for each, in order. */
  lemma {:induction false} EveryErrorIsReported<V>(resolutions: seq<Resolution<V>>)
    requires forall k :: 0 <= k < |resolutions| ==> Failed(resolutions[k])
    ensures |ProviderErrors(resolutions)| == |resolutions|
    ensures forall k :: 0 <= k < |resolutions| ==> Reports(ProviderErrors(resolutions)[k], resolutions[k])
  {
    if resolutions == [] {
    } else {
      EveryErrorIsReported(resolutions[..|resolutions| - 1]);
    }
  }

  /** Somebody failed exactly when something is reported. */
  lemma {:induction false} ErrorsAreReportedExactly<V>(resolutions: seq<Resolution<V>>)
    ensures ProviderErrors(resolutions) != [] <==> exists k :: 0 <= k < |resolutions| && Failed(resolutions[k])
  {
    if resolutions == [] {
    } else {
      var front := resolutions[..|resolutions| - 1];
      ErrorsAreReportedExactly(front);
      assert resolutions == front + [resolutions[|resolutions| - 1]];
    }
  }

  /** The end of an evaluation: reported errors are raised together. */
  function Conclude<V>(final: FinalResult<V>): Evaluation<V> {
    match final
    case Thrower(failure) => Raised(failure)
    case Final(details, errors) =>
      if errors != [] then Raised(AggregateError(errors))
      else if details.None? then Raised(GeneralError("No result was returned from any provider"))
      else Ok(details.value)
  }

  // ----- asking one provider after the other -----

  datatype Sequential = FirstMatch | FirstSuccessful

  predicate ShouldEvaluateNext<V>(s: Sequential, r: Resolution<V>) {
    match s
    case FirstMatch => HasErrorWithCode(r, FLAG_NOT_FOUND)
    case FirstSuccessful => HasError(r)
  }

  /** The last answer decides; there is no last answer when nobody was asked. */
  function LastDecides<V>(resolutions: seq<Resolution<V>>): FinalResult<V> {
    if resolutions == [] then Thrower(TypeError)
    else
      var last := resolutions[|resolutions| - 1];
      if HasError(last) then Final(None, ProviderErrors(resolutions)) else Final(Some(last.details), [])
  }

  /** The answers of the providers asked. */
  function Given<V>(outcomes: seq<Option<Resolution<V>>>): seq<Resolution<V>> {
    if outcomes == [] then []
    else
      var front, last := Given(outcomes[..|outcomes| - 1]), outcomes[|outcomes| - 1];
      if last.Some? then front + [last.value] else front
  }

  predicate Decisive<V>(s: Sequential, outcome: Option<Resolution<V>>) {
    outcome.Some? && !ShouldEvaluateNext(s, outcome.value)
  }

  /** How many providers the loop reaches: it stops after the first decisive answer. */
  function Reached<V>(s: Sequential, outcomes: seq<Option<Resolution<V>>>): (n: nat)
    ensures n <= |outcomes|
    ensures forall i :: 0 <= i < n - 1 ==> !Decisive(s, outcomes[i])
    ensures n < |outcomes| ==> n > 0 && Decisive(s, outcomes[n - 1])
  {
    if outcomes == [] then 0
    else
      var front := outcomes[..|outcomes| - 1];
      var n := Reached(s, front);
      if n < |front| || (n > 0 && Decisive(s, front[n - 1])) then n else n + 1
  }

  /** What the loop over providers that would give `outcomes` comes to. */
  function InSequence<V>(s: Sequential, outcomes: seq<Option<Resolution<V>>>): Evaluation<V> {
    Conclude(LastDecides(Given(outcomes[..Reached(s, outcomes)])))
  }

  lemma GivenAppend<V>(outcomes: seq<Option<Resolution<V>>>, outcome: Option<Resolution<V>>)
    ensures Given(outcomes + [outcome]) == Given(outcomes) + if outcome.Some? then [outcome.value] else []
  {
    assert (outcomes + [outcome])[..|outcomes|] == outcomes;
  }

  /** The answers given are the answers there are. */
  lemma {:induction false} GivenHolds<V>(outcomes: seq<Option<Resolution<V>>>)
    ensures forall k :: 0 <= k < |Given(outcomes)| ==> Some(Given(outcomes)[k]) in outcomes
    ensures forall k :: 0 <= k < |outcomes| && outcomes[k].Some? ==> outcomes[k].value in Given(outcomes)
  {
    if outcomes == [] {
    } else {
      var front, last := outcomes[..|outcomes| - 1], outcomes[|outcomes| - 1];
      GivenHolds(front);
      assert outcomes == front + [last];
      if last.Some? {
        assert Given(outcomes) == Given(front) + [last.value];
      }
    }
  }

  /** `i` is the first decisive answer. */
  ghost predicate Decides<V>(s: Sequential, outcomes: seq<Option<Resolution<V>>>, i: nat) {
    i < |outcomes| && Decisive(s, outcomes[i]) && forall j :: 0 <= j < i ==> !Decisive(s, outcomes[j])
  }

  lemma ReachedDecisive<V>(s: Sequential, outcomes: seq<Option<Resolution<V>>>, i: nat)
    requires Decides(s, outcomes, i)
    ensures Reached(s, outcomes) == i + 1
  {
  }

  lemma LastGiven<V>(outcomes: seq<Option<Resolution<V>>>, i: nat)
    requires i < |outcomes| && outcomes[i].Some?
    ensures Given(outcomes[..i + 1]) == Given(outcomes[..i]) + [outcomes[i].value]
  {
    assert outcomes[..i + 1] == outcomes[..i] + [outcomes[i]];
    GivenAppend(outcomes[..i], outcomes[i]);
  }

  /** Indecisive answers are all errors. */
  lemma IndecisiveFailed<V>(s: Sequential, outcomes: seq<Option<Resolution<V>>>)
    requires forall j :: 0 <= j < |outcomes| ==> !Decisive(s, outcomes[j])
    ensures forall k :: 0 <= k < |Given(outcomes)| ==> HasError(Given(outcomes)[k])
  {
    GivenHolds(outcomes);
    forall k | 0 <= k < |Given(outcomes)| ensures HasError(Given(outcomes)[k]) {
      var j :| 0 <= j < |outcomes| && outcomes[j] == Some(Given(outcomes)[k]);
      assert !Decisive(s, outcomes[j]);
      assert |FLAG_NOT_FOUND| > 0;
    }
  }

  /** The errors of these answers, one for each. */
  ghost predicate ReportsAll<V>(e: Evaluation<V>, resolutions: seq<Resolution<V>>) {
    && e.Raised? && e.failure.AggregateError? && |e.failure.errors| == |resolutions|
    && (forall k :: 0 <= k < |resolutions| ==>
          Failed(resolutions[k]) && Reports(e.failure.errors[k], resolutions[k]))
  }

  lemma FailedReportsAll<V>(resolutions: seq<Resolution<V>>)
    requires resolutions != [] && forall k :: 0 <= k < |resolutions| ==> HasError(resolutions[k])
    ensures ReportsAll(Conclude(LastDecides(resolutions)), resolutions)
  {
    EveryErrorIsReported(resolutions);
  }

  /**
   With a decisive answer, nobody after it is asked, and the result is its details, or all errors so far if
   it is one.
   */
  lemma DecisiveAnswerWins<V>(s: Sequential, outcomes: seq<Option<Resolution<V>>>, i: nat)
    requires Decides(s, outcomes, i)
    ensures Reached(s, outcomes) == i + 1
    ensures var e, answer := InSequence(s, outcomes), outcomes[i].value;
            if HasError(answer) then ReportsAll(e, Given(outcomes[..i + 1])) else e == Ok(answer.details)
  {
    ReachedDecisive(s, outcomes, i);
    LastGiven(outcomes, i);
    var before := Given(outcomes[..i]);
    if HasError(outcomes[i].value) {
      IndecisiveFailed(s, outcomes[..i]);
      FailedReportsAll(before + [outcomes[i].value]);
    }
  }

  /** Without one, everybody is asked, and all errors are reported; asking nobody is a TypeError. */
  lemma NoDecisiveAnswer<V>(s: Sequential, outcomes: seq<Option<Resolution<V>>>)
    requires forall i :: 0 <= i < |outcomes| ==> !Decisive(s, outcomes[i])
    ensures Reached(s, outcomes) == |outcomes|
    ensures var e, answers := InSequence(s, outcomes), Given(outcomes);
            if answers == [] then e == Raised(TypeError) else ReportsAll(e, answers)
  {
    assert outcomes[..|outcomes|] == outcomes;
    IndecisiveFailed(s, outcomes);
    if Given(outcomes) != [] {
      FailedReportsAll(Given(outcomes));
    }
  }

  /** First match: the first answer that is not "flag not found", whatever it is. */
  lemma FirstMatchMeans<V>(outcomes: seq<Option<Resolution<V>>>, i: nat)
    requires i < |outcomes| && outcomes[i].Some? && !SaysNotFound(outcomes[i].value)
    requires forall j :: 0 <= j < i && outcomes[j].Some? ==> SaysNotFound(outcomes[j].value)
    ensures var e, answer := InSequence(FirstMatch, outcomes), outcomes[i].value;
            if Failed(answer) then ReportsAll(e, Given(outcomes[..i + 1])) else e == Ok(answer.details)
  {
    DecisiveAnswerWins(FirstMatch, outcomes, i);
  }

  /** First successful: the first answer without an error. */
  lemma FirstSuccessfulMeans<V>(outcomes: seq<Option<Resolution<V>>>, i: nat)
    requires i < |outcomes| && outcomes[i].Some? && !Failed(outcomes[i].value)
    requires forall j :: 0 <= j < i && outcomes[j].Some? ==> Failed(outcomes[j].value)
    ensures InSequence(FirstSuccessful, outcomes) == Ok(outcomes[i].value.details)
  {
    DecisiveAnswerWins(FirstSuccessful, outcomes, i);
  }

  /** A first match is a first success as well, unless it is an error. */
  lemma StrategiesAgree<V>(outcomes: seq<Option<Resolution<V>>>)
    requires InSequence(FirstMatch, outcomes).Ok?
    ensures InSequence(FirstSuccessful, outcomes) == InSequence(FirstMatch, outcomes)
  {
    if i: nat :| Decides(FirstMatch, outcomes, i) {
      DecisiveAnswerWins(FirstMatch, outcomes, i);
      forall j | 0 <= j < i && outcomes[j].Some? ensures Failed(outcomes[j].value) {
        assert !Decisive(FirstMatch, outcomes[j]);
        assert |FLAG_NOT_FOUND| > 0;
      }
      FirstSuccessfulMeans(outcomes, i);
    } else {
      NobodyDecides(FirstMatch, outcomes, |outcomes|);
      NoDecisiveAnswer(FirstMatch, outcomes);
    }
  }

  lemma {:induction false} NobodyDecides<V>(s: Sequential, outcomes: seq<Option<Resolution<V>>>, n: nat)
    requires n <= |outcomes| && forall i: nat :: !Decides(s, outcomes, i)
    ensures forall i :: 0 <= i < n ==> !Decisive(s, outcomes[i])
  {
    if n == 0 {
    } else {
      NobodyDecides(s, outcomes, n - 1);
      assert !Decides(s, outcomes, n - 1);
    }
  }
}
