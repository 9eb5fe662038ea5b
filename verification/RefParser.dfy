/**
 `transform` of the flagd parser: which values of `$evaluators` start its loop, and what becomes of a document.
 */
module RefParser {
  import opened Json
  import opened RefExpansion
  import opened RefTransform

  // ----- JavaScript property access on parsed JSON -----

  datatype Property = Undefined | Present(value: Value)

  function PropertyOf(members: seq<Member>, name: string): Property {
    if members == [] then Undefined
    else if members[0].key == name then Present(members[0].value)
    else PropertyOf(members[1..], name)
  }

  /** `doc["$evaluators"]`: only objects have such a property, and null has none at all. */
  function EvaluatorsOf(doc: Value): Property {
    if doc.Obj? then PropertyOf(doc.members, "$evaluators") else Undefined
  }

  predicate Truthy(p: Property) {
    match p
    case Undefined => false
    case Present(v) => v != Null && v != Bool(false) && v != Num("0") && v != Str("")
  }

  function Decimal(n: nat): string {
    (if n < 10 then "" else Decimal(n / 10)) + ["0123456789"[n % 10]]
  }

  /** The keys a `for (key in v)` loop visits, each with `v[key]`. */
  function ForIn(v: Value): seq<Member> {
    match v
    case Obj(members) => members
    case Arr(items) => seq(|items|, i requires 0 <= i < |items| => Member(Decimal(i), items[i]))
    case Str(s) => seq(|s|, i requires 0 <= i < |s| => Member(Decimal(i), Str([s[i]])))
    case _ => []
  }

  // ----- what there is to do -----

  /** The document has `v`, and nothing else, under `$evaluators`. */
  ghost predicate HasEvaluators(doc: Value, v: Value) {
    && doc.Obj? && Member("$evaluators", v) in doc.members
    && forall m <- doc.members :: m.key == "$evaluators" ==> m.value == v
  }

  ghost predicate HasNoEvaluators(doc: Value) {
    doc.Obj? ==> forall m <- doc.members :: m.key != "$evaluators"
  }

  /** Each text is the one before it after a round of `replaceAll`. */
  ghost predicate RoundByRound(texts: seq<string>, rounds: seq<Member>) {
    && |texts| == |rounds| + 1
    && forall j :: 0 <= j < |rounds| ==>
         texts[j + 1] == ReplaceAll(texts[j], Pattern(rounds[j].key), Serialize(rounds[j].value))
  }

  ghost predicate ComesTo(before: string, rounds: seq<Member>, after: string) {
    exists texts :: RoundByRound(texts, rounds) && texts[0] == before && texts[|rounds|] == after
  }

  /** What the decimal digits of `s` are worth. */
  function Worth(s: string): nat {
    if s == "" then 0
    else 10 * Worth(s[..|s| - 1]) + if '0' <= s[|s| - 1] <= '9' then s[|s| - 1] as int - '0' as int else 0
  }

  /** `s` is `n` as JavaScript writes it: decimal digits without a leading zero. */
  predicate NameOfIndex(s: string, n: nat) {
    && s != "" && (forall k :: 0 <= k < |s| ==> '0' <= s[k] <= '9')
    && Worth(s) == n && (s[0] == '0' ==> s == "0")
  }

  ghost predicate Numbered(values: seq<Value>, rounds: seq<Member>) {
    && |rounds| == |values|
    && forall k :: 0 <= k < |values| ==> NameOfIndex(rounds[k].key, k) && rounds[k].value == values[k]
  }

  function Characters(s: string): seq<Value> {
    seq(|s|, k requires 0 <= k < |s| => Str([s[k]]))
  }

  /** Falsy evaluators leave the input alone; the others have a round for each key that `for ... in` visits. */
  ghost predicate Performed(r: Outcome<string>, flagCfg: string, doc: Value, evaluators: Value) {
    if evaluators in {Null, Bool(false), Num("0"), Str("")} then r == Returned(flagCfg)
    else r.Returned? && match evaluators
      case Obj(members) => ComesTo(Serialize(doc), members, r.value)
      case Arr(items) => exists rounds :: Numbered(items, rounds) && ComesTo(Serialize(doc), rounds, r.value)
      case Str(s) => exists rounds :: Numbered(Characters(s), rounds) && ComesTo(Serialize(doc), rounds, r.value)
      case Bool(_) => r.value == Serialize(doc)
      case Num(_) => r.value == Serialize(doc)
      case Null => false
  }

  /** The value at a position of a tree. */
  function At(v: Value, path: seq<nat>): Property
    decreases path
  {
    if path == [] then Present(v)
    else match v
      case Arr(items) => if path[0] < |items| then At(items[path[0]], path[1..]) else Undefined
      case Obj(members) => if path[0] < |members| then At(members[path[0]].value, path[1..]) else Undefined
      case _ => Undefined
  }

  ghost predicate ApartFromAll(v: Value, evaluators: seq<Member>) {
    forall n <- evaluators :: Apart(v, n.key)
  }

  /**
   Wherever the document refers to an evaluator whose body is apart from all keys, the result has the body; what
   is itself apart from all keys stays; and nothing that is referred to is left if no body refers backward.
   */
  ghost predicate Expanded(doc: Value, evaluators: seq<Member>, t: Value) {
    && (forall path, n <- evaluators :: At(doc, path) == Present(RefTo(n.key)) && ApartFromAll(n.value, evaluators)
          ==> At(t, path) == Present(n.value))
    && (forall path :: At(doc, path).Present? && ApartFromAll(At(doc, path).value, evaluators)
          ==> At(t, path) == At(doc, path))
    && (Backward(evaluators) ==> forall n <- evaluators :: !Mentions(t, n.key))
  }

  // ----- the properties of `$evaluators` -----

  lemma {:induction false} NoProperty(members: seq<Member>, name: string)
    requires forall m <- members :: m.key != name
    ensures PropertyOf(members, name) == Undefined
  {
    if members == [] {
    } else {
      assert members[0] in members;
      NoProperty(members[1..], name);
    }
  }

  lemma {:induction false} OneProperty(members: seq<Member>, name: string, v: Value)
    requires Member(name, v) in members && forall m <- members :: m.key == name ==> m.value == v
    ensures PropertyOf(members, name) == Present(v)
  {
    assert members[0] in members;
    if members[0].key != name {
      assert members == [members[0]] + members[1..];
      assert Member(name, v) in members[1..];
      OneProperty(members[1..], name, v);
    }
  }

  lemma DigitOf(k: nat)
    requires k < 10
    ensures '0' <= "0123456789"[k] <= '9' && "0123456789"[k] as int - '0' as int == k
  {
  }

  lemma WorthAppend(s: string, c: char)
    requires '0' <= c <= '9'
    ensures Worth(s + [c]) == 10 * Worth(s) + (c as int - '0' as int)
  {
    assert (s + [c])[..|s|] == s && (s + [c])[|s|] == c;
  }

  lemma OneDigit(n: nat)
    requires n < 10
    ensures NameOfIndex(Decimal(n), n) && (Decimal(n)[0] == '0' ==> n == 0)
  {
    DigitOf(n);
    var c := "0123456789"[n];
    WorthAppend("", c);
    assert "" + [c] == [c] && Decimal(n) == [c];
    assert c == '0' ==> [c] == "0";
  }

  /** A further digit. */
  lemma LongerName(s: string, q: nat, k: nat)
    requires q > 0 && k < 10 && NameOfIndex(s, q) && s[0] != '0'
    ensures var longer := s + ["0123456789"[k]]; NameOfIndex(longer, 10 * q + k) && longer[0] != '0'
  {
    DigitOf(k);
    WorthAppend(s, "0123456789"[k]);
  }

  lemma DecimalEnds(n: nat)
    requires n >= 10
    ensures Decimal(n) == Decimal(n / 10) + ["0123456789"[n % 10]] && n == 10 * (n / 10) + n % 10 && n / 10 > 0
  {
  }

  lemma {:induction false} DecimalNames(n: nat)
    ensures NameOfIndex(Decimal(n), n) && (Decimal(n)[0] == '0' ==> n == 0)
  {
    if n < 10 {
      OneDigit(n);
    } else {
      DecimalEnds(n);
      DecimalNames(n / 10);
      LongerName(Decimal(n / 10), n / 10, n % 10);
    }
  }

  lemma ForInNumbers(values: seq<Value>, rounds: seq<Member>)
    requires |rounds| == |values|
    requires forall k :: 0 <= k < |values| ==> rounds[k] == Member(Decimal(k), values[k])
    ensures Numbered(values, rounds)
  {
    forall k | 0 <= k < |values| ensures NameOfIndex(rounds[k].key, k) {
      DecimalNames(k);
    }
  }

  lemma RoundsComeTo(text: string, rounds: seq<Member>)
    ensures ComesTo(text, rounds, ReplaceRounds(text, rounds))
  {
    var texts := seq(|rounds| + 1, j requires 0 <= j <= |rounds| => ReplaceRounds(text, rounds[..j]));
    forall j | 0 <= j < |rounds|
      ensures texts[j + 1] == ReplaceAll(texts[j], Pattern(rounds[j].key), Serialize(rounds[j].value))
    {
      assert rounds[..j + 1][..j] == rounds[..j];
    }
    assert rounds[..|rounds|] == rounds;
    assert RoundByRound(texts, rounds);
  }

  lemma ForInPerforms(flagCfg: string, doc: Value, evaluators: Value)
    requires Truthy(Present(evaluators))
    ensures Performed(Returned(ReplaceRounds(Serialize(doc), ForIn(evaluators))), flagCfg, doc, evaluators)
  {
    RoundsComeTo(Serialize(doc), ForIn(evaluators));
    match evaluators
    case Arr(items) => ForInNumbers(items, ForIn(evaluators));
    case Str(s) => ForInNumbers(Characters(s), ForIn(evaluators));
    case _ =>
  }

  // ----- positions -----

  /** A substitution works position by position, save that it takes away the string inside a reference. */
  lemma {:induction false} SubstituteAt(v: Value, key: string, body: Value, path: seq<nat>)
    requires At(v, path).Present? && At(v, path).value != Str(key)
    ensures At(Substitute(v, key, body), path) == Present(Substitute(At(v, path).value, key, body))
    decreases path
  {
    if path != [] {
      match v
      case Arr(items) =>
        ItemAt(items, key, body, path[0]);
        SubstituteAt(items[path[0]], key, body, path[1..]);
      case Obj(members) =>
        InsideReference(v, key, path);
        MemberAt(members, key, body, path[0]);
        SubstituteAt(members[path[0]].value, key, body, path[1..]);
    }
  }

  lemma InsideReference(v: Value, key: string, path: seq<nat>)
    requires path != [] && At(v, path).Present? && At(v, path).value != Str(key)
    ensures v != RefTo(key)
  {
  }

  lemma {:induction false} RoundsAt(doc: Value, rounds: seq<Member>, path: seq<nat>, w: Value)
    requires At(doc, path) == Present(w) && ApartFromAll(w, rounds)
    ensures At(SubstituteRounds(doc, rounds), path) == Present(w)
    decreases |rounds|
  {
    if rounds == [] {
    } else {
      var front, last := rounds[..|rounds| - 1], rounds[|rounds| - 1];
      RoundsAt(doc, front, path, w);
      SubstituteAt(SubstituteRounds(doc, front), last.key, last.value, path);
      assert Apart(w, last.key);
      NoMentionNoChange(w, last.key, last.value);
    }
  }

  lemma OtherReferenceIsApart(key: string, other: string)
    requires key != other
    ensures Apart(RefTo(key), other)
  {
  }

  lemma {:induction false} RoundsInParts(doc: Value, front: seq<Member>, rest: seq<Member>)
    ensures SubstituteRounds(doc, front + rest) == SubstituteRounds(SubstituteRounds(doc, front), rest)
    decreases |rest|
  {
    if rest == [] {
      assert front + rest == front;
    } else {
      var shorter, last := rest[..|rest| - 1], rest[|rest| - 1];
      RoundsInParts(doc, front, shorter);
      assert front + rest == (front + shorter) + [last];
      OneMoreRound(doc, front + shorter, last);
    }
  }

  lemma ReferenceUpTo(doc: Value, rounds: seq<Member>, j: nat, path: seq<nat>)
    requires DistinctKeys(rounds) && j < |rounds| && At(doc, path) == Present(RefTo(rounds[j].key))
    ensures At(SubstituteRounds(doc, rounds[..j] + [rounds[j]]), path) == Present(rounds[j].value)
  {
    var front, m := rounds[..j], rounds[j];
    forall n | n in front ensures Apart(RefTo(m.key), n.key) {
      var i :| 0 <= i < j && rounds[i] == n;
      OtherReferenceIsApart(m.key, n.key);
    }
    RoundsAt(doc, front, path, RefTo(m.key));
    SubstituteAt(SubstituteRounds(doc, front), m.key, m.value, path);
    OneMoreRound(doc, front, m);
  }

  lemma PartsOfRounds(rounds: seq<Member>, j: nat, v: Value)
    requires j < |rounds| && ApartFromAll(v, rounds)
    ensures rounds[..j] + [rounds[j]] + rounds[j + 1..] == rounds && ApartFromAll(v, rounds[j + 1..])
  {
    forall n | n in rounds[j + 1..] ensures Apart(v, n.key) {
      assert n in rounds;
    }
  }

  lemma ReferenceBecomesBody(doc: Value, rounds: seq<Member>, j: nat, path: seq<nat>)
    requires DistinctKeys(rounds) && j < |rounds| && At(doc, path) == Present(RefTo(rounds[j].key))
    requires ApartFromAll(rounds[j].value, rounds)
    ensures At(SubstituteRounds(doc, rounds), path) == Present(rounds[j].value)
  {
    var upTo := rounds[..j] + [rounds[j]];
    ReferenceUpTo(doc, rounds, j, path);
    PartsOfRounds(rounds, j, rounds[j].value);
    RoundsAt(SubstituteRounds(doc, upTo), rounds[j + 1..], path, rounds[j].value);
    RoundsInParts(doc, upTo, rounds[j + 1..]);
  }

  /** The rounds expand every document, whatever else they do to it. */
  lemma RoundsExpand(doc: Value, rounds: seq<Member>)
    requires DistinctKeys(rounds)
    ensures Expanded(doc, rounds, SubstituteRounds(doc, rounds))
  {
    var t := SubstituteRounds(doc, rounds);
    forall path, n | n in rounds && At(doc, path) == Present(RefTo(n.key)) && ApartFromAll(n.value, rounds)
      ensures At(t, path) == Present(n.value)
    {
      var j :| 0 <= j < |rounds| && rounds[j] == n;
      ReferenceBecomesBody(doc, rounds, j, path);
    }
    forall path | At(doc, path).Present? && ApartFromAll(At(doc, path).value, rounds)
      ensures At(t, path) == At(doc, path)
    {
      RoundsAt(doc, rounds, path, At(doc, path).value);
    }
    if Backward(rounds) {
      NoReferenceLeftExactly(rounds);
      assert NothingLeft(doc, rounds);
    }
  }

  // ----- the parser -----

  /** `doc` is what `JSON.parse(flagCfg)` yields. */
  method Transform(flagCfg: string, doc: Value) returns (r: Outcome<string>)
    ensures r.Threw? <==> doc.Null?
    ensures !doc.Null? && HasNoEvaluators(doc) ==> r == Returned(flagCfg)
    ensures forall v :: HasEvaluators(doc, v) ==> Performed(r, flagCfg, doc, v)
    ensures forall ms :: HasEvaluators(doc, Obj(ms)) && Clean(ms) && DistinctKeys(ms) ==>
              exists t :: r == Returned(Serialize(t)) && Expanded(doc, ms, t)
    ensures forall ms :: HasEvaluators(doc, Obj(ms)) && Clean(ms) && DistinctKeys(ms) && Forward(ms) ==>
              r == Returned(Serialize(SubstituteAll(doc, Environment(ms))))
  {
    if doc.Null? {
      return Threw;
    }
    var evaluators := EvaluatorsOf(doc);
    EvaluatorsMean(doc);
    if !Truthy(evaluators) {
      return Returned(flagCfg);
    }
    var transformed := Serialize(doc);
    var keys := ForIn(evaluators.value);
    for i := 0 to |keys|
      invariant transformed == ReplaceRounds(Serialize(doc), keys[..i])
    {
      var replacer := Serialize(keys[i].value);
      var refPattern := Pattern(keys[i].key);
      assert keys[..i + 1][..i] == keys[..i];
      transformed := ReplaceAll(transformed, refPattern, replacer);
    }
    assert keys[..|keys|] == keys;
    ForInPerforms(flagCfg, doc, evaluators.value);
    if evaluators.value.Obj? {
      CleanRoundsExpand(doc, evaluators.value.members);
    }
    return Returned(transformed);
  }

  lemma EvaluatorsMean(doc: Value)
    ensures HasNoEvaluators(doc) ==> EvaluatorsOf(doc) == Undefined
    ensures forall v :: HasEvaluators(doc, v) ==> EvaluatorsOf(doc) == Present(v)
  {
    if doc.Obj? && HasNoEvaluators(doc) {
      NoProperty(doc.members, "$evaluators");
    }
    forall v | HasEvaluators(doc, v) ensures EvaluatorsOf(doc) == Present(v) {
      OneProperty(doc.members, "$evaluators", v);
    }
  }

  lemma {:induction false} CleanRounds(doc: Value, rounds: seq<Member>)
    requires Clean(rounds)
    ensures ReplaceRounds(Serialize(doc), rounds) == Serialize(SubstituteRounds(doc, rounds))
  {
    if rounds == [] {
    } else {
      var front, last := rounds[..|rounds| - 1], rounds[|rounds| - 1];
      CleanRounds(doc, front);
      ReplaceIsSubstitute(SubstituteRounds(doc, front), last.key, last.value);
    }
  }

  lemma CleanRoundsExpand(doc: Value, ms: seq<Member>)
    ensures Clean(ms) && DistinctKeys(ms) ==>
              exists t :: ReplaceRounds(Serialize(doc), ms) == Serialize(t) && Expanded(doc, ms, t)
    ensures Clean(ms) && DistinctKeys(ms) && Forward(ms) ==>
              ReplaceRounds(Serialize(doc), ms) == Serialize(SubstituteAll(doc, Environment(ms)))
  {
    if Clean(ms) && DistinctKeys(ms) {
      CleanRounds(doc, ms);
      RoundsExpand(doc, ms);
      if Forward(ms) {
        RoundsAreSimultaneous(doc, ms);
      }
    }
  }
}
