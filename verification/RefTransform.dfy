/**
 The rounds of `transform` taken together: what they compute, when their order does not matter, and what
 they leave behind.
 */
module RefTransform {
  import opened Json
  import opened RefExpansion

  // ----- the rounds -----

  function ReplaceRounds(text: string, rounds: seq<Member>): string {
    if rounds == [] then text
    else
      var last := rounds[|rounds| - 1];
      ReplaceAll(ReplaceRounds(text, rounds[..|rounds| - 1]), Pattern(last.key), Serialize(last.value))
  }

  function SubstituteRounds(doc: Value, rounds: seq<Member>): Value {
    if rounds == [] then doc
    else
      var last := rounds[|rounds| - 1];
      Substitute(SubstituteRounds(doc, rounds[..|rounds| - 1]), last.key, last.value)
  }

  /** The rounds for which replacing text is substituting trees. */
  predicate Clean(rounds: seq<Member>) {
    forall i :: 0 <= i < |rounds| ==> PlainKey(rounds[i].key) && Verbatim(Serialize(rounds[i].value))
  }

  // ----- all rounds at once -----

  /** Some object inside `v`, or `v` itself, is the reference to `key`. */
  ghost predicate Mentions(v: Value, key: string)
    decreases v
  {
    v == RefTo(key)
    || (v.Arr? && exists w <- v.items :: Mentions(w, key))
    || (v.Obj? && exists m <- v.members :: Mentions(m.value, key))
  }

  predicate Defined(v: Value, env: map<string, Value>) {
    v.Obj? && |v.members| == 1 && v.members[0].key == "$ref" && v.members[0].value.Str?
    && v.members[0].value.s in env
  }

  /** One pass in which every reference to a defined evaluator gives way to its body. */
  function SubstituteAll(v: Value, env: map<string, Value>): Value
    decreases v
  {
    if Defined(v, env) then env[v.members[0].value.s]
    else match v
      case Arr(items) => Arr(AllItems(items, env))
      case Obj(members) => Obj(AllMembers(members, env))
      case _ => v
  }

  function AllItems(items: seq<Value>, env: map<string, Value>): (r: seq<Value>)
    ensures |r| == |items|
    decreases items
  {
    if items == [] then [] else [SubstituteAll(items[0], env)] + AllItems(items[1..], env)
  }

  function AllMembers(members: seq<Member>, env: map<string, Value>): (r: seq<Member>)
    ensures |r| == |members|
    decreases members
  {
    if members == [] then []
    else [Member(members[0].key, SubstituteAll(members[0].value, env))] + AllMembers(members[1..], env)
  }

  /** `v` mentions no reference to `key`, and is not the string that would complete one around it. */
  ghost predicate Apart(v: Value, key: string) {
    !Mentions(v, key) && v != Str(key)
  }

  ghost predicate AllApart(env: map<string, Value>, key: string) {
    forall k <- env :: Apart(env[k], key)
  }

  lemma {:induction false} NoMentionNoChange(v: Value, key: string, body: Value)
    requires !Mentions(v, key)
    ensures Substitute(v, key, body) == v
    decreases v
  {
    match v
    case Arr(items) => NoMentionItems(items, key, body);
    case Obj(members) => NoMentionMembers(members, key, body);
    case _ =>
  }

  lemma {:induction false} NoMentionItems(items: seq<Value>, key: string, body: Value)
    requires forall w <- items :: !Mentions(w, key)
    ensures SubstituteItems(items, key, body) == items
    decreases items
  {
    if items == [] {
    } else {
      NoMentionNoChange(items[0], key, body);
      NoMentionItems(items[1..], key, body);
    }
  }

  lemma {:induction false} NoMentionMembers(members: seq<Member>, key: string, body: Value)
    requires forall m <- members :: !Mentions(m.value, key)
    ensures SubstituteMembers(members, key, body) == members
    decreases members
  {
    if members == [] {
    } else {
      NoMentionNoChange(members[0].value, key, body);
      NoMentionMembers(members[1..], key, body);
    }
  }

  lemma {:induction false} EmptyEnvironment(v: Value)
    ensures SubstituteAll(v, map[]) == v
    decreases v
  {
    match v
    case Arr(items) => EmptyItems(items);
    case Obj(members) => EmptyMembers(members);
    case _ =>
  }

  lemma {:induction false} EmptyItems(items: seq<Value>)
    ensures AllItems(items, map[]) == items
    decreases items
  {
    if items == [] {
    } else {
      EmptyEnvironment(items[0]);
      EmptyItems(items[1..]);
    }
  }

  lemma {:induction false} EmptyMembers(members: seq<Member>)
    ensures AllMembers(members, map[]) == members
    decreases members
  {
    if members == [] {
    } else {
      EmptyEnvironment(members[0].value);
      EmptyMembers(members[1..]);
    }
  }

  /** A further round adds its key to the environment. */
  lemma {:induction false} AddRound(v: Value, env: map<string, Value>, key: string, body: Value)
    requires key !in env && AllApart(env, key)
    ensures Substitute(SubstituteAll(v, env), key, body) == SubstituteAll(v, env[key := body])
    decreases v
  {
    if Defined(v, env) {
      NoMentionNoChange(SubstituteAll(v, env), key, body);
    } else {
      match v
      case Arr(items) => AddRoundItems(items, env, key, body);
      case Obj(members) =>
        AddRoundMembers(members, env, key, body);
        if v == RefTo(key) {
          assert AllMembers(members, env) == [Member("$ref", Str(key))] by {
            assert members[1..] == [];
          }
        } else {
          SubstitutedIsNoReference(members, env, key);
        }
      case _ =>
    }
  }

  /** Without the string `key` among the bodies, substituting never makes a new reference to it. */
  lemma SubstitutedIsNoReference(members: seq<Member>, env: map<string, Value>, key: string)
    requires AllApart(env, key) && Obj(members) != RefTo(key)
    ensures Obj(AllMembers(members, env)) != RefTo(key)
  {
    if |members| == 1 {
      assert AllMembers(members, env)[0] == Member(members[0].key, SubstituteAll(members[0].value, env));
      assert members == [Member(members[0].key, members[0].value)];
    }
  }

  lemma {:induction false} AddRoundItems(items: seq<Value>, env: map<string, Value>, key: string, body: Value)
    requires key !in env && AllApart(env, key)
    ensures SubstituteItems(AllItems(items, env), key, body) == AllItems(items, env[key := body])
    decreases items
  {
    if items == [] {
    } else {
      AddRound(items[0], env, key, body);
      AddRoundItems(items[1..], env, key, body);
      assert AllItems(items, env)[1..] == AllItems(items[1..], env);
    }
  }

  lemma {:induction false} AddRoundMembers(members: seq<Member>, env: map<string, Value>, key: string, body: Value)
    requires key !in env && AllApart(env, key)
    ensures SubstituteMembers(AllMembers(members, env), key, body) == AllMembers(members, env[key := body])
    decreases members
  {
    if members == [] {
    } else {
      AddRound(members[0].value, env, key, body);
      AddRoundMembers(members[1..], env, key, body);
      assert AllMembers(members, env)[1..] == AllMembers(members[1..], env);
    }
  }

  function Environment(rounds: seq<Member>): map<string, Value> {
    if rounds == [] then map[]
    else Environment(rounds[..|rounds| - 1])[rounds[|rounds| - 1].key := rounds[|rounds| - 1].value]
  }

  predicate DistinctKeys(rounds: seq<Member>) {
    forall i, j :: 0 <= i < j < |rounds| ==> rounds[i].key != rounds[j].key
  }

  /** A body is the reference to its own key: the round changes nothing. */
  predicate OwnReference(m: Member) {
    m.value == RefTo(m.key)
  }

  /** Every body is apart from the keys of the rounds after it, which therefore leave it alone. */
  ghost predicate Forward(rounds: seq<Member>) {
    forall i, j :: 0 <= i < j < |rounds| && !OwnReference(rounds[j]) ==> Apart(rounds[i].value, rounds[j].key)
  }

  /** Every body is apart from the keys of all other rounds. */
  ghost predicate Independent(rounds: seq<Member>) {
    forall m <- rounds, n <- rounds :: m.key != n.key && !OwnReference(n) ==> Apart(m.value, n.key)
  }

  lemma {:induction false} EnvironmentOf(rounds: seq<Member>)
    requires DistinctKeys(rounds)
    ensures forall m <- rounds :: m.key in Environment(rounds) && Environment(rounds)[m.key] == m.value
    ensures forall k <- Environment(rounds) :: exists m <- rounds :: m == Member(k, Environment(rounds)[k])
  {
    if rounds == [] {
    } else {
      var front, last := rounds[..|rounds| - 1], rounds[|rounds| - 1];
      EnvironmentOf(front);
      assert rounds == front + [last];
      forall m | m in rounds ensures m.key in Environment(rounds) && Environment(rounds)[m.key] == m.value {
        var i :| 0 <= i < |rounds| && rounds[i] == m;
        if i < |rounds| - 1 {
          assert m == front[i] && m in front;
        }
      }
      forall k | k in Environment(rounds) ensures exists m <- rounds :: m == Member(k, Environment(rounds)[k]) {
        if k == last.key {
          assert last in rounds;
        } else {
          var m :| m in front && m == Member(k, Environment(front)[k]);
          assert m in rounds;
        }
      }
    }
  }

  lemma LastRoundIsNew(front: seq<Member>, last: Member)
    requires DistinctKeys(front + [last])
    ensures DistinctKeys(front) && last.key !in Environment(front)
  {
    var rounds := front + [last];
    assert forall i :: 0 <= i < |front| ==> rounds[i] == front[i];
    forall m | m in front ensures m.key != last.key {
      var i :| 0 <= i < |front| && front[i] == m;
      assert rounds[i].key != rounds[|front|].key;
    }
    EnvironmentOf(front);
  }

  lemma FrontIsApart(front: seq<Member>, last: Member)
    requires DistinctKeys(front) && Forward(front + [last])
    ensures Forward(front) && (OwnReference(last) || AllApart(Environment(front), last.key))
  {
    var rounds := front + [last];
    assert forall i :: 0 <= i < |front| ==> rounds[i] == front[i];
    EnvironmentOf(front);
    if !OwnReference(last) {
      forall k | k in Environment(front) ensures Apart(Environment(front)[k], last.key) {
        var m :| m in front && m == Member(k, Environment(front)[k]);
        var i :| 0 <= i < |front| && front[i] == m;
        assert rounds[i] == m && rounds[|front|] == last;
      }
    }
  }

  /** When no round touches the bodies before it, the rounds amount to one simultaneous substitution. */
  lemma {:induction false} RoundsAreSimultaneous(doc: Value, rounds: seq<Member>)
    requires DistinctKeys(rounds) && Forward(rounds)
    ensures SubstituteRounds(doc, rounds) == SubstituteAll(doc, Environment(rounds))
    decreases |rounds|
  {
    if rounds == [] {
      EmptyEnvironment(doc);
    } else {
      var front, last := rounds[..|rounds| - 1], rounds[|rounds| - 1];
      assert rounds == front + [last];
      LastRoundIsNew(front, last);
      FrontIsApart(front, last);
      RoundsAreSimultaneous(doc, front);
      if OwnReference(last) {
        OwnReferenceChangesNothing(SubstituteAll(doc, Environment(front)), last.key);
        OwnReferenceAddsNothing(doc, Environment(front), last.key);
      } else {
        AddRound(doc, Environment(front), last.key, last.value);
      }
    }
  }

  // ----- rounds whose body is the reference to their own key -----

  lemma {:induction false} OwnReferenceChangesNothing(v: Value, key: string)
    ensures Substitute(v, key, RefTo(key)) == v
    decreases v
  {
    match v
    case Arr(items) => OwnItems(items, key);
    case Obj(members) => OwnMembers(members, key);
    case _ =>
  }

  lemma {:induction false} OwnItems(items: seq<Value>, key: string)
    ensures SubstituteItems(items, key, RefTo(key)) == items
    decreases items
  {
    if items == [] {
    } else {
      OwnReferenceChangesNothing(items[0], key);
      OwnItems(items[1..], key);
    }
  }

  lemma {:induction false} OwnMembers(members: seq<Member>, key: string)
    ensures SubstituteMembers(members, key, RefTo(key)) == members
    decreases members
  {
    if members == [] {
    } else {
      OwnReferenceChangesNothing(members[0].value, key);
      OwnMembers(members[1..], key);
    }
  }

  lemma {:induction false} OwnReferenceAddsNothing(v: Value, env: map<string, Value>, key: string)
    requires key !in env
    ensures SubstituteAll(v, env[key := RefTo(key)]) == SubstituteAll(v, env)
    decreases v
  {
    if v == RefTo(key) {
      assert v.members[1..] == [];
      assert AllMembers(v.members, env) == v.members;
    } else if Defined(v, env[key := RefTo(key)]) {
      assert v.members == [Member("$ref", v.members[0].value)];
    } else {
      match v
      case Arr(items) => OwnAddsItems(items, env, key);
      case Obj(members) => OwnAddsMembers(members, env, key);
      case _ =>
    }
  }

  lemma {:induction false} OwnAddsItems(items: seq<Value>, env: map<string, Value>, key: string)
    requires key !in env
    ensures AllItems(items, env[key := RefTo(key)]) == AllItems(items, env)
    decreases items
  {
    if items == [] {
    } else {
      OwnReferenceAddsNothing(items[0], env, key);
      OwnAddsItems(items[1..], env, key);
    }
  }

  lemma {:induction false} OwnAddsMembers(members: seq<Member>, env: map<string, Value>, key: string)
    requires key !in env
    ensures AllMembers(members, env[key := RefTo(key)]) == AllMembers(members, env)
    decreases members
  {
    if members == [] {
    } else {
      OwnReferenceAddsNothing(members[0].value, env, key);
      OwnAddsMembers(members[1..], env, key);
    }
  }

  // ----- when the order of the rounds makes no difference -----

  lemma EnvironmentWithin(rounds: seq<Member>, other: seq<Member>, k: string)
    requires DistinctKeys(rounds) && DistinctKeys(other) && k in Environment(rounds)
    requires forall m <- rounds :: m in other
    ensures k in Environment(other) && Environment(other)[k] == Environment(rounds)[k]
  {
    EnvironmentOf(rounds);
    EnvironmentOf(other);
    var m :| m in rounds && m == Member(k, Environment(rounds)[k]);
    assert m in other;
  }

  lemma ReorderedMembers(rounds: seq<Member>, other: seq<Member>)
    requires multiset(other) == multiset(rounds)
    ensures forall m :: m in rounds <==> m in other
  {
    forall m ensures m in rounds <==> m in other {
      assert m in rounds <==> m in multiset(rounds);
      assert m in other <==> m in multiset(other);
    }
  }

  lemma ReorderedKeys(rounds: seq<Member>, other: seq<Member>)
    requires multiset(other) == multiset(rounds) && DistinctKeys(rounds)
    ensures DistinctKeys(other)
  {
    ReorderedMembers(rounds, other);
    forall i, j | 0 <= i < j < |other| ensures other[i].key != other[j].key {
      if other[i].key == other[j].key {
        assert other[i] in rounds && other[j] in rounds;
        OneMemberPerKey(rounds, other[i], other[j]);
        Twice(other, i, j);
        Once(rounds, other[i]);
      }
    }
  }

  lemma OneMemberPerKey(rounds: seq<Member>, m: Member, n: Member)
    requires DistinctKeys(rounds) && m in rounds && n in rounds && m.key == n.key
    ensures m == n
  {
  }

  lemma Twice(s: seq<Member>, i: nat, j: nat)
    requires i < j < |s| && s[i] == s[j]
    ensures multiset(s)[s[i]] >= 2
  {
    assert s == s[..j] + [s[j]] + s[j + 1..];
    assert s[..j] == s[..i] + [s[i]] + s[i + 1..j];
  }

  lemma {:induction false} Once(rounds: seq<Member>, m: Member)
    requires DistinctKeys(rounds)
    ensures multiset(rounds)[m] <= 1
  {
    if rounds == [] {
    } else {
      var front, last := rounds[..|rounds| - 1], rounds[|rounds| - 1];
      assert rounds == front + [last];
      Once(front, m);
      if m == last {
        assert m !in front;
      }
    }
  }

  lemma IndependentIsForward(rounds: seq<Member>)
    requires DistinctKeys(rounds) && Independent(rounds)
    ensures Forward(rounds)
  {
    forall i, j | 0 <= i < j < |rounds| && !OwnReference(rounds[j]) ensures Apart(rounds[i].value, rounds[j].key) {
      assert rounds[i] in rounds && rounds[j] in rounds && rounds[i].key != rounds[j].key;
    }
  }

  lemma OrderIsIrrelevant(doc: Value, rounds: seq<Member>, other: seq<Member>)
    requires DistinctKeys(rounds) && Independent(rounds) && multiset(other) == multiset(rounds)
    ensures SubstituteRounds(doc, other) == SubstituteRounds(doc, rounds)
  {
    ReorderedMembers(rounds, other);
    ReorderedKeys(rounds, other);
    IndependentIsForward(rounds);
    IndependentIsForward(other);
    RoundsAreSimultaneous(doc, rounds);
    RoundsAreSimultaneous(doc, other);
    forall k | k in Environment(rounds)
      ensures k in Environment(other) && Environment(other)[k] == Environment(rounds)[k]
    {
      EnvironmentWithin(rounds, other, k);
    }
    forall k | k in Environment(other) ensures k in Environment(rounds) {
      EnvironmentWithin(other, rounds, k);
    }
    assert Environment(other) == Environment(rounds);
  }

  // ----- when it does -----

  lemma OneMoreRound(doc: Value, front: seq<Member>, last: Member)
    ensures SubstituteRounds(doc, front + [last]) == Substitute(SubstituteRounds(doc, front), last.key, last.value)
  {
    assert (front + [last])[..|front|] == front;
  }

  lemma TwoMoreRounds(doc: Value, front: seq<Member>, m: Member, n: Member)
    ensures SubstituteRounds(doc, front + [m, n])
         == Substitute(Substitute(SubstituteRounds(doc, front), m.key, m.value), n.key, n.value)
  {
    assert front + [m, n] == (front + [m]) + [n];
    OneMoreRound(doc, front + [m], n);
    OneMoreRound(doc, front, m);
  }

  /** `{"$ref":{"$ref":key}}`, which a string in place of the inner reference turns into a reference. */
  function Nested(key: string): Value {
    Obj([Member("$ref", RefTo(key))])
  }

  lemma SubstituteNested(key: string, other: string, body: Value)
    ensures other != key ==> Substitute(RefTo(key), other, body) == RefTo(key)
    ensures Substitute(Nested(key), other, body) == if other == key then Obj([Member("$ref", body)]) else Nested(key)
  {
    var ref := [Member("$ref", Str(key))];
    assert ref[1..] == [] && SubstituteMembers(ref, other, body) == ref;
    var nested := [Member("$ref", RefTo(key))];
    assert nested[1..] == [] && Nested(key).members[0] == nested[0];
    assert SubstituteMembers(nested, other, body) == [Member("$ref", Substitute(RefTo(key), other, body))];
  }

  lemma {:induction false} OtherRoundsPassBy(key: string, rounds: seq<Member>)
    requires forall m <- rounds :: m.key != key
    ensures SubstituteRounds(RefTo(key), rounds) == RefTo(key) && SubstituteRounds(Nested(key), rounds) == Nested(key)
  {
    if rounds == [] {
    } else {
      var front, last := rounds[..|rounds| - 1], rounds[|rounds| - 1];
      OtherRoundsPassBy(key, front);
      SubstituteNested(key, last.key, last.value);
    }
  }

  /** A substitution for a mentioned key shows, unless it puts back the reference itself. */
  lemma {:induction false} MentionChanges(v: Value, key: string, body: Value)
    requires Mentions(v, key) && body != RefTo(key)
    ensures Substitute(v, key, body) != v
    decreases v
  {
    if v != RefTo(key) {
      match v
      case Arr(items) =>
        var k :| 0 <= k < |items| && Mentions(items[k], key);
        MentionChanges(items[k], key, body);
        ItemAt(items, key, body, k);
      case Obj(members) =>
        var k :| 0 <= k < |members| && Mentions(members[k].value, key);
        MentionChanges(members[k].value, key, body);
        MemberAt(members, key, body, k);
      case _ =>
    }
  }

  lemma {:induction false} ItemAt(items: seq<Value>, key: string, body: Value, k: nat)
    requires k < |items|
    ensures SubstituteItems(items, key, body)[k] == Substitute(items[k], key, body)
  {
    if k == 0 {
    } else {
      ItemAt(items[1..], key, body, k - 1);
    }
  }

  lemma {:induction false} MemberAt(members: seq<Member>, key: string, body: Value, k: nat)
    requires k < |members|
    ensures SubstituteMembers(members, key, body)[k] == Member(members[k].key, Substitute(members[k].value, key, body))
  {
    if k == 0 {
    } else {
      MemberAt(members[1..], key, body, k - 1);
    }
  }

  /** All rounds but two. */
  function Others(rounds: seq<Member>, i: nat, j: nat): seq<Member>
    requires i < j < |rounds|
  {
    rounds[..i] + rounds[i + 1..j] + rounds[j + 1..]
  }

  lemma OthersAndTwo(rounds: seq<Member>, i: nat, j: nat)
    requires i < j < |rounds|
    ensures multiset(Others(rounds, i, j) + [rounds[i], rounds[j]]) == multiset(rounds)
    ensures multiset(Others(rounds, i, j) + [rounds[j], rounds[i]]) == multiset(rounds)
  {
    assert rounds == rounds[..i] + [rounds[i]] + rounds[i + 1..j] + [rounds[j]] + rounds[j + 1..];
  }

  lemma OthersHaveOtherKeys(rounds: seq<Member>, i: nat, j: nat)
    requires DistinctKeys(rounds) && i < j < |rounds|
    ensures forall m <- Others(rounds, i, j) :: m.key != rounds[i].key && m.key != rounds[j].key
  {
    forall m | m in Others(rounds, i, j) ensures m.key != rounds[i].key && m.key != rounds[j].key {
      var k :| 0 <= k < |rounds| && k != i && k != j && rounds[k] == m;
    }
  }

  ghost predicate AnyOrder(rounds: seq<Member>) {
    forall doc, other ::
      multiset(other) == multiset(rounds) ==> SubstituteRounds(doc, other) == SubstituteRounds(doc, rounds)
  }

  /** Two rounds at the end, in either order, over a document that the rest passes by. */
  lemma TwoOrders(rounds: seq<Member>, rest: seq<Member>, m: Member, n: Member, doc: Value)
    requires multiset(rest + [m, n]) == multiset(rounds) && multiset(rest + [n, m]) == multiset(rounds)
    requires SubstituteRounds(doc, rest) == doc
    requires Substitute(Substitute(doc, m.key, m.value), n.key, n.value)
          != Substitute(Substitute(doc, n.key, n.value), m.key, m.value)
    ensures !AnyOrder(rounds)
  {
    TwoMoreRounds(doc, rest, m, n);
    TwoMoreRounds(doc, rest, n, m);
  }

  /** A body that mentions the key of another round: on the reference to the body, the order of the two shows. */
  lemma MentionsDependOnOrder(rounds: seq<Member>, rest: seq<Member>, m: Member, n: Member)
    requires multiset(rest + [m, n]) == multiset(rounds) && multiset(rest + [n, m]) == multiset(rounds)
    requires m.key != n.key && !OwnReference(n) && Mentions(m.value, n.key)
    requires forall r <- rest :: r.key != m.key
    ensures !AnyOrder(rounds)
  {
    OtherRoundsPassBy(m.key, rest);
    SubstituteNested(m.key, n.key, n.value);
    MentionChanges(m.value, n.key, n.value);
    TwoOrders(rounds, rest, m, n, RefTo(m.key));
  }

  /** A body that is the string of another round's key: it can complete a reference around it, and the order shows. */
  lemma StringBodiesDependOnOrder(rounds: seq<Member>, rest: seq<Member>, m: Member, n: Member)
    requires multiset(rest + [m, n]) == multiset(rounds) && multiset(rest + [n, m]) == multiset(rounds)
    requires m.key != n.key && !OwnReference(n) && m.value == Str(n.key)
    requires forall r <- rest :: r.key != m.key
    ensures !AnyOrder(rounds)
  {
    OtherRoundsPassBy(m.key, rest);
    SubstituteNested(m.key, n.key, n.value);
    SubstituteNested(m.key, m.key, m.value);
    TwoOrders(rounds, rest, m, n, Nested(m.key));
  }

  lemma DependentShows(rounds: seq<Member>, i: nat, j: nat)
    requires DistinctKeys(rounds) && i < |rounds| && j < |rounds| && i != j
    requires !OwnReference(rounds[j]) && !Apart(rounds[i].value, rounds[j].key)
    ensures !AnyOrder(rounds)
  {
    var lo, hi := if i < j then i else j, if i < j then j else i;
    OthersAndTwo(rounds, lo, hi);
    OthersHaveOtherKeys(rounds, lo, hi);
    assert rounds[lo].key != rounds[hi].key;
    if Mentions(rounds[i].value, rounds[j].key) {
      MentionsDependOnOrder(rounds, Others(rounds, lo, hi), rounds[i], rounds[j]);
    } else {
      StringBodiesDependOnOrder(rounds, Others(rounds, lo, hi), rounds[i], rounds[j]);
    }
  }

  /**
   The order in which the evaluators are enumerated makes no difference, on any document, if and only if no
   body mentions the key of another round or is the string of that key; rounds that put their own reference
   back do not count.
   */
  lemma OrderIsIrrelevantExactly(rounds: seq<Member>)
    requires DistinctKeys(rounds)
    ensures AnyOrder(rounds) <==> Independent(rounds)
  {
    if Independent(rounds) {
      forall doc, other | multiset(other) == multiset(rounds)
        ensures SubstituteRounds(doc, other) == SubstituteRounds(doc, rounds)
      {
        OrderIsIrrelevant(doc, rounds, other);
      }
    } else {
      var m, n :| m in rounds && n in rounds && m.key != n.key && !OwnReference(n) && !Apart(m.value, n.key);
      var i :| 0 <= i < |rounds| && rounds[i] == m;
      var j :| 0 <= j < |rounds| && rounds[j] == n;
      DependentShows(rounds, i, j);
    }
  }

  // ----- what is left in the end -----

  /** Every body is apart from its own key and from the keys of the rounds before it. */
  ghost predicate Backward(rounds: seq<Member>) {
    forall i, j :: 0 <= j <= i < |rounds| ==> Apart(rounds[i].value, rounds[j].key)
  }

  ghost predicate NothingLeft(doc: Value, rounds: seq<Member>) {
    forall n <- rounds :: !Mentions(SubstituteRounds(doc, rounds), n.key)
  }

  /** A substitution makes no new mention of `other`, and leaves none if it is the key itself. */
  lemma {:induction false} SubstituteMentions(v: Value, key: string, body: Value, other: string)
    requires Apart(body, other) && (other == key || !Mentions(v, other))
    ensures !Mentions(Substitute(v, key, body), other)
    decreases v
  {
    if v != RefTo(key) {
      match v
      case Arr(items) => ItemsMention(items, key, body, other);
      case Obj(members) =>
        MembersMention(members, key, body, other);
        if |members| == 1 {
          var m := members[0];
          assert SubstituteMembers(members, key, body)[0] == Member(m.key, Substitute(m.value, key, body));
          assert members == [Member(members[0].key, members[0].value)];
        }
      case _ =>
    }
  }

  lemma {:induction false} ItemsMention(items: seq<Value>, key: string, body: Value, other: string)
    requires Apart(body, other) && (other == key || forall w <- items :: !Mentions(w, other))
    ensures forall w <- SubstituteItems(items, key, body) :: !Mentions(w, other)
    decreases items
  {
    if items == [] {
    } else {
      SubstituteMentions(items[0], key, body, other);
      ItemsMention(items[1..], key, body, other);
    }
  }

  lemma {:induction false} MembersMention(members: seq<Member>, key: string, body: Value, other: string)
    requires Apart(body, other) && (other == key || forall m <- members :: !Mentions(m.value, other))
    ensures forall m <- SubstituteMembers(members, key, body) :: !Mentions(m.value, other)
    decreases members
  {
    if members == [] {
    } else {
      SubstituteMentions(members[0].value, key, body, other);
      MembersMention(members[1..], key, body, other);
    }
  }

  lemma {:induction false} NoReferenceLeft(doc: Value, rounds: seq<Member>, n: nat)
    requires Backward(rounds) && n < |rounds|
    ensures !Mentions(SubstituteRounds(doc, rounds), rounds[n].key)
    decreases |rounds|
  {
    var front, last := rounds[..|rounds| - 1], rounds[|rounds| - 1];
    assert Apart(last.value, rounds[n].key);
    if n < |front| {
      assert rounds[n] == front[n];
      NoReferenceLeft(doc, front, n);
    }
    SubstituteMentions(SubstituteRounds(doc, front), last.key, last.value, rounds[n].key);
  }

  /** Rounds for other keys leave a mention in place. */
  lemma {:induction false} MentionStays(v: Value, key: string, body: Value, other: string)
    requires Mentions(v, other) && other != key
    ensures Mentions(Substitute(v, key, body), other)
    decreases v
  {
    if v == RefTo(other) {
      SubstituteNested(other, key, body);
    } else {
      match v
      case Arr(items) =>
        var k :| 0 <= k < |items| && Mentions(items[k], other);
        MentionStays(items[k], key, body, other);
        ItemAt(items, key, body, k);
        assert Substitute(items[k], key, body) in SubstituteItems(items, key, body);
      case Obj(members) =>
        var k :| 0 <= k < |members| && Mentions(members[k].value, other);
        assert v != RefTo(key);
        MentionStays(members[k].value, key, body, other);
        MemberAt(members, key, body, k);
        assert Member(members[k].key, Substitute(members[k].value, key, body)) in SubstituteMembers(members, key, body);
      case _ =>
    }
  }

  lemma {:induction false} MentionStaysOver(doc: Value, front: seq<Member>, rounds: seq<Member>, key: string)
    requires Mentions(SubstituteRounds(doc, front), key) && forall m <- rounds :: m.key != key
    ensures Mentions(SubstituteRounds(doc, front + rounds), key)
    decreases |rounds|
  {
    if rounds == [] {
      assert front + rounds == front;
    } else {
      var last := rounds[|rounds| - 1];
      MentionStaysOver(doc, front, rounds[..|rounds| - 1], key);
      assert front + rounds == (front + rounds[..|rounds| - 1]) + [last];
      OneMoreRound(doc, front + rounds[..|rounds| - 1], last);
      MentionStays(SubstituteRounds(doc, front + rounds[..|rounds| - 1]), last.key, last.value, key);
    }
  }

  /** A body that is not apart from its own key or an earlier one leaves a reference behind. */
  lemma ReferenceLeft(rounds: seq<Member>, i: nat, j: nat)
    requires DistinctKeys(rounds) && j <= i < |rounds| && !Apart(rounds[i].value, rounds[j].key)
    ensures exists doc :: !NothingLeft(doc, rounds)
  {
    var m, key := rounds[i], rounds[j].key;
    var doc := if Mentions(m.value, key) then RefTo(m.key) else Nested(m.key);
    OtherRoundsPassBy(m.key, rounds[..i]);
    assert rounds[..i + 1] == rounds[..i] + [m];
    OneMoreRound(doc, rounds[..i], m);
    SubstituteNested(m.key, m.key, m.value);
    assert Mentions(SubstituteRounds(doc, rounds[..i + 1]), key);
    MentionStaysOver(doc, rounds[..i + 1], rounds[i + 1..], key);
    assert rounds[..i + 1] + rounds[i + 1..] == rounds;
    assert rounds[j] in rounds;
    assert !NothingLeft(doc, rounds);
  }

  /**
   After the loop no reference to a defined evaluator is left, in any document, if and only if every body
   is apart from its own key and from the keys of the rounds before it.
   */
  lemma NoReferenceLeftExactly(rounds: seq<Member>)
    requires DistinctKeys(rounds)
    ensures (forall doc :: NothingLeft(doc, rounds)) <==> Backward(rounds)
  {
    if Backward(rounds) {
      forall doc, n | n in rounds ensures !Mentions(SubstituteRounds(doc, rounds), n.key) {
        var i :| 0 <= i < |rounds| && rounds[i] == n;
        NoReferenceLeft(doc, rounds, i);
      }
    } else {
      var i, j :| 0 <= j <= i < |rounds| && !Apart(rounds[i].value, rounds[j].key);
      ReferenceLeft(rounds, i, j);
    }
  }
}
