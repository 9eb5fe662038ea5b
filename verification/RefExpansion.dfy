/**
 `transform` of the flagd parser: `$ref` objects are expanded by replacing text in
 the serialized document. The theorems say when that is a substitution on the tree.
 */
module RefExpansion {
  import opened Json

  datatype Outcome<+T> = Returned(value: T) | Threw

  // ----- String.prototype.replaceAll with a string pattern and a string replacement -----

  /** True of the characters that form a replacement sequence after a `$` (no captures exist here). */
  predicate Directive(c: char) {
    c in {'$', '&', '`', '\''}
  }

  /** GetSubstitution (section 22.1.3.19.1 of ECMA-262) for a match without captures. */
  function ExpandTemplate(template: string, matched: string, before: string, after: string): string {
    if template == "" then ""
    else if template[0] == '$' && |template| > 1 && Directive(template[1]) then
      (match template[1]
       case '$' => "$"
       case '&' => matched
       case '`' => before
       case _ => after)
      + ExpandTemplate(template[2..], matched, before, after)
    else [template[0]] + ExpandTemplate(template[1..], matched, before, after)
  }

  function ReplaceFrom(text: string, i: nat, pattern: string, template: string): string
    requires i <= |text| && pattern != ""
    decreases |text| - i
  {
    if i == |text| then ""
    else if pattern <= text[i..] then
      ExpandTemplate(template, pattern, text[..i], text[i + |pattern|..])
      + ReplaceFrom(text, i + |pattern|, pattern, template)
    else [text[i]] + ReplaceFrom(text, i + 1, pattern, template)
  }

  function ReplaceAll(text: string, pattern: string, template: string): string
    requires pattern != ""
  {
    ReplaceFrom(text, 0, pattern, template)
  }

  // ----- references and their intended meaning -----

  function Pattern(key: string): (p: string)
    ensures p != ""
  {
    "{\"$ref\":\"" + key + "\"}"
  }

  function RefTo(key: string): Value {
    Obj([Member("$ref", Str(key))])
  }

  /** The tree in which every reference to `key` is replaced by `body`. */
  function Substitute(v: Value, key: string, body: Value): Value
    decreases v
  {
    if v == RefTo(key) then body
    else match v
      case Arr(items) => Arr(SubstituteItems(items, key, body))
      case Obj(members) => Obj(SubstituteMembers(members, key, body))
      case _ => v
  }

  function SubstituteItems(items: seq<Value>, key: string, body: Value): (r: seq<Value>)
    ensures |r| == |items|
    decreases items
  {
    if items == [] then [] else [Substitute(items[0], key, body)] + SubstituteItems(items[1..], key, body)
  }

  function SubstituteMembers(members: seq<Member>, key: string, body: Value): (r: seq<Member>)
    ensures |r| == |members|
    decreases members
  {
    if members == [] then []
    else [Member(members[0].key, Substitute(members[0].value, key, body))] + SubstituteMembers(members[1..], key, body)
  }

  predicate PlainKey(key: string) {
    forall i :: 0 <= i < |key| ==> Plain(key[i])
  }

  /** No `$` of the template starts a replacement sequence. */
  predicate Verbatim(template: string) {
    forall i :: 0 <= i < |template| - 1 && template[i] == '$' ==> !Directive(template[i + 1])
  }

  // ----- replacing a verbatim template -----

  /** Replacement of non-overlapping occurrences, leftmost first, by a fixed text. */
  function Replace(text: string, pattern: string, repl: string): string
    requires pattern != ""
  {
    if text == "" then ""
    else if pattern <= text then repl + Replace(text[|pattern|..], pattern, repl)
    else [text[0]] + Replace(text[1..], pattern, repl)
  }

  lemma {:induction false} VerbatimExpansion(template: string, matched: string, before: string, after: string)
    requires Verbatim(template)
    ensures ExpandTemplate(template, matched, before, after) == template
  {
    if template == "" {
    } else {
      VerbatimExpansion(template[1..], matched, before, after);
      assert template == [template[0]] + template[1..];
    }
  }

  lemma ReplaceOver(text: string, i: nat, pattern: string, template: string)
    requires pattern != "" && i < |text| && !(pattern <= text[i..])
    ensures ReplaceFrom(text, i, pattern, template) == [text[i]] + ReplaceFrom(text, i + 1, pattern, template)
  {
  }

  lemma ReplaceAt(text: string, i: nat, p: string, template: string)
    requires p != "" && i <= |text| && p <= text[i..]
    ensures ReplaceFrom(text, i, p, template)
            == ExpandTemplate(template, p, text[..i], text[i + |p|..]) + ReplaceFrom(text, i + |p|, p, template)
  {
  }

  /** `Replace` at position `i` of a text. */
  lemma ReplaceSuffix(text: string, i: nat, pattern: string, repl: string)
    requires pattern != "" && i < |text|
    ensures pattern <= text[i..] ==>
              Replace(text[i..], pattern, repl) == repl + Replace(text[i + |pattern|..], pattern, repl)
    ensures !(pattern <= text[i..]) ==>
              Replace(text[i..], pattern, repl) == [text[i]] + Replace(text[i + 1..], pattern, repl)
  {
    if pattern <= text[i..] {
      assert text[i..][|pattern|..] == text[i + |pattern|..];
    } else {
      assert text[i..] == [text[i]] + text[i + 1..];
      StepOver(text[i], text[i + 1..], pattern, repl);
    }
  }

  lemma VerbatimMatch(text: string, i: nat, pattern: string, template: string)
    requires pattern != "" && i < |text| && pattern <= text[i..] && Verbatim(template)
    requires ReplaceFrom(text, i + |pattern|, pattern, template) == Replace(text[i + |pattern|..], pattern, template)
    ensures ReplaceFrom(text, i, pattern, template) == Replace(text[i..], pattern, template)
  {
    ReplaceSuffix(text, i, pattern, template);
    ReplaceAt(text, i, pattern, template);
    VerbatimExpansion(template, pattern, text[..i], text[i + |pattern|..]);
  }

  lemma VerbatimStep(text: string, i: nat, pattern: string, template: string)
    requires pattern != "" && i < |text| && !(pattern <= text[i..])
    requires ReplaceFrom(text, i + 1, pattern, template) == Replace(text[i + 1..], pattern, template)
    ensures ReplaceFrom(text, i, pattern, template) == Replace(text[i..], pattern, template)
  {
    ReplaceSuffix(text, i, pattern, template);
    ReplaceOver(text, i, pattern, template);
  }

  lemma {:induction false} VerbatimReplaceFrom(text: string, i: nat, pattern: string, template: string)
    requires i <= |text| && pattern != "" && Verbatim(template)
    ensures ReplaceFrom(text, i, pattern, template) == Replace(text[i..], pattern, template)
    decreases |text| - i
  {
    if i == |text| {
      assert text[i..] == "";
    } else if pattern <= text[i..] {
      VerbatimReplaceFrom(text, i + |pattern|, pattern, template);
      VerbatimMatch(text, i, pattern, template);
    } else {
      VerbatimReplaceFrom(text, i + 1, pattern, template);
      VerbatimStep(text, i, pattern, template);
    }
  }

  lemma StepOver(c: char, rest: string, p: string, repl: string)
    requires p != "" && !(p <= [c] + rest)
    ensures Replace([c] + rest, p, repl) == [c] + Replace(rest, p, repl)
  {
    var text := [c] + rest;
    assert text[0] == c && text[1..] == rest;
  }

  // ----- scanning a document -----

  lemma SkipChar(c: char, rest: string, key: string, repl: string)
    requires c != '{'
    ensures Replace([c] + rest, Pattern(key), repl) == [c] + Replace(rest, Pattern(key), repl)
  {
    assert ([c] + rest)[0] == c && Pattern(key)[0] == '{';
    StepOver(c, rest, Pattern(key), repl);
  }

  lemma {:induction false} SkipNoBrace(text: string, rest: string, key: string, repl: string)
    requires forall i :: 0 <= i < |text| ==> text[i] != '{'
    ensures Replace(text + rest, Pattern(key), repl) == text + Replace(rest, Pattern(key), repl)
    decreases |text|
  {
    if text == "" {
      assert text + rest == rest && text + Replace(rest, Pattern(key), repl) == Replace(rest, Pattern(key), repl);
    } else {
      assert text + rest == [text[0]] + (text[1..] + rest);
      SkipChar(text[0], text[1..] + rest, key, repl);
      SkipNoBrace(text[1..], rest, key, repl);
      assert [text[0]] + (text[1..] + Replace(rest, Pattern(key), repl)) == text + Replace(rest, Pattern(key), repl);
    }
  }

  /** Inside a literal `{` is never followed by a quote that is followed by `$`. */
  lemma NoMatchInLiteral(s: string, rest: string, key: string)
    requires s != "" && s[0] == '{' && (rest == "" || rest[0] != '$')
    ensures !(Pattern(key) <= Closing(s, rest))
    ensures Closing(s, rest) == ['{'] + Closing(s[1..], rest)
  {
    var text := Closing(s, rest);
    assert Pattern(key)[1] == '"' && Pattern(key)[2] == '$';
    assert text == ['{'] + Closing(s[1..], rest);
    if s[1..] == "" {
      assert text == "{\"" + rest;
    } else {
      assert text[1] == EscapeChar(s[1])[0];
    }
  }

  lemma EscapeHasNoBrace(c: char)
    requires c != '{'
    ensures forall i :: 0 <= i < |EscapeChar(c)| ==> EscapeChar(c)[i] != '{'
  {
  }

  lemma SkipLiteralChar(s: string, rest: string, key: string, repl: string)
    requires s != "" && (rest == "" || rest[0] != '$')
    ensures Replace(Closing(s, rest), Pattern(key), repl)
            == EscapeChar(s[0]) + Replace(Closing(s[1..], rest), Pattern(key), repl)
  {
    if s[0] == '{' {
      NoMatchInLiteral(s, rest, key);
      StepOver('{', Closing(s[1..], rest), Pattern(key), repl);
    } else {
      EscapeHasNoBrace(s[0]);
      SkipNoBrace(EscapeChar(s[0]), Closing(s[1..], rest), key, repl);
    }
  }

  /** A pattern never matches inside, or across the end of, a string literal. */
  lemma {:induction false} SkipLiteral(s: string, rest: string, key: string, repl: string)
    requires rest == "" || rest[0] != '$'
    ensures Replace(Closing(s, rest), Pattern(key), repl) == Closing(s, Replace(rest, Pattern(key), repl))
    decreases |s|
  {
    if s == "" {
      SkipChar('"', rest, key, repl);
    } else {
      SkipLiteral(s[1..], rest, key, repl);
      SkipLiteralChar(s, rest, key, repl);
    }
  }

  lemma {:induction false} PlainClosing(s: string, rest: string)
    requires PlainKey(s)
    ensures Closing(s, rest) == s + "\"" + rest
    decreases |s|
  {
    if s == "" {
      assert "\"" + rest == s + "\"" + rest;
    } else {
      PlainClosing(s[1..], rest);
      assert [s[0]] + (s[1..] + "\"" + rest) == s + "\"" + rest;
    }
  }

  lemma RefText(key: string, rest: string)
    ensures Text(RefTo(key), rest) == "{\"" + Closing("$ref", ":\"" + Closing(key, "}" + rest))
  {
    var m := Member("$ref", Str(key));
    assert [m][1..] == [];
    assert Text(RefTo(key), rest) == "{" + MemberText(m, MembersTail([], rest));
    var tail := Closing(key, "}" + rest);
    assert ":" + ("\"" + tail) == ":\"" + tail;
    var c := Closing("$ref", ":\"" + tail);
    assert "{" + ("\"" + c) == "{\"" + c;
  }

  lemma PatternPieces(key: string, rest: string)
    ensures "{\"" + ("$ref" + "\"" + (":\"" + (key + "\"" + ("}" + rest)))) == Pattern(key) + rest
  {
    assert ("$ref" + "\"") + ":\"" == "$ref\":\"";
  }

  /** The pattern of `key` spells the reference to `target`: `key` is `target` with its escapes written out. */
  predicate Spells(key: string, target: string) {
    Closing(target, "") == key + "\""
  }

  lemma PlainKeySpellsItself(key: string)
    requires PlainKey(key)
    ensures Spells(key, key)
  {
    PlainClosing(key, "");
    assert key + "\"" + "" == key + "\"";
  }

  lemma SpelledRefText(key: string, target: string, rest: string)
    requires Spells(key, target)
    ensures Text(RefTo(target), rest) == Pattern(key) + rest
  {
    RefText(target, rest);
    ClosingAppend(target, "", "}" + rest);
    assert "" + ("}" + rest) == "}" + rest;
    PlainClosing("$ref", ":\"" + Closing(target, "}" + rest));
    PatternPieces(key, rest);
  }

  lemma PrefixSplits(p: string, text: string)
    requires p <= text
    ensures exists z :: text == p + z
  {
    assert text == p + text[|p|..];
  }

  lemma EmptyObjectNoMatch(key: string, rest: string)
    ensures !(Pattern(key) <= "{" + ("}" + rest))
  {
    assert ("{" + ("}" + rest))[1] == '}' && Pattern(key)[1] == '"';
  }

  lemma ObjectText(members: seq<Member>, rest: string)
    requires members != []
    ensures Text(Obj(members), rest) == ['{'] + MemberText(members[0], MembersTail(members[1..], rest))
  {
  }

  /** An object's text starts with the pattern only if the object is the reference that the pattern spells. */
  lemma MatchIsReference(v: Value, rest: string, key: string, target: string)
    requires v.Obj? && Spells(key, target) && Pattern(key) <= Text(v, rest)
    ensures v == RefTo(target)
  {
    if v.members == [] {
      EmptyObjectNoMatch(key, rest);
    } else {
      PrefixSplits(Pattern(key), Text(v, rest));
      var z :| Text(v, rest) == Pattern(key) + z;
      SpelledRefText(key, target, z);
      SameTextAsReference(v.members, rest, target, z);
    }
  }

  lemma SameTextAsReference(members: seq<Member>, rest: string, key: string, z: string)
    requires members != [] && Text(Obj(members), rest) == Text(RefTo(key), z)
    ensures Obj(members) == RefTo(key)
  {
    var mine, theirs := members[0], Member("$ref", Str(key));
    var tail := MembersTail(members[1..], rest);
    ObjectText(members, rest);
    ObjectText([theirs], z);
    assert [theirs][1..] == [];
    HeadTail('{', MemberText(mine, tail), '{', MemberText(theirs, MembersTail([], z)));
    MemberUnique(mine, theirs, tail, MembersTail([], z));
    MembersUnique(members[1..], [], rest, z);
    assert members == [mine] + members[1..];
  }

  lemma SkipNumber(text: NumText, rest: string, key: string, repl: string)
    ensures Replace(text + rest, Pattern(key), repl) == text + Replace(rest, Pattern(key), repl)
  {
    forall i | 0 <= i < |text| ensures text[i] != '{' {
      assert NumChar(text[i]);
    }
    SkipNoBrace(text, rest, key, repl);
  }

  /** Replacing in the text of a value is writing the text of the substituted value. */
  lemma {:induction false} ScanValue(v: Value, rest: string, key: string, target: string, body: Value)
    requires Spells(key, target) && AfterValue(rest)
    ensures var p, repl := Pattern(key), Serialize(body);
            Replace(Text(v, rest), p, repl) == Text(Substitute(v, target, body), Replace(rest, p, repl))
    decreases v
  {
    var p, repl := Pattern(key), Serialize(body);
    match v
    case Null => SkipNoBrace("null", rest, key, repl);
    case Bool(b) => SkipNoBrace(if b then "true" else "false", rest, key, repl);
    case Num(text) => SkipNumber(text, rest, key, repl);
    case Str(s) =>
      SkipChar('"', Closing(s, rest), key, repl);
      SkipLiteral(s, rest, key, repl);
    case Arr(items) =>
      if items == [] {
        SkipChar('[', "]" + rest, key, repl);
        SkipChar(']', rest, key, repl);
      } else {
        SkipChar('[', Text(items[0], ItemsTail(items[1..], rest)), key, repl);
        ScanValue(items[0], ItemsTail(items[1..], rest), key, target, body);
        ScanItems(items[1..], rest, key, target, body);
        assert SubstituteItems(items, target, body)[1..] == SubstituteItems(items[1..], target, body);
      }
    case Obj(members) =>
      if v == RefTo(target) {
        SpelledRefText(key, target, rest);
        assert (p + rest)[|p|..] == rest;
        TextAppend(body, "", Replace(rest, p, repl));
        assert "" + Replace(rest, p, repl) == Replace(rest, p, repl);
      } else {
        if p <= Text(v, rest) {
          MatchIsReference(v, rest, key, target);
        }
        ScanObject(v, rest, key, target, body);
      }
  }

  lemma {:induction false} ScanObject(v: Value, rest: string, key: string, target: string, body: Value)
    requires Spells(key, target) && AfterValue(rest) && v.Obj? && v != RefTo(target) && !(Pattern(key) <= Text(v, rest))
    ensures var p, repl := Pattern(key), Serialize(body);
            Replace(Text(v, rest), p, repl) == Text(Substitute(v, target, body), Replace(rest, p, repl))
    decreases v, 0
  {
    var p, repl := Pattern(key), Serialize(body);
    var members := v.members;
    var text := Text(v, rest);
    assert text[0] == '{';
    assert Replace(text, p, repl) == "{" + Replace(text[1..], p, repl);
    if members == [] {
      assert text[1..] == "}" + rest;
      SkipChar('}', rest, key, repl);
    } else {
      assert text[1..] == MemberText(members[0], MembersTail(members[1..], rest));
      ScanMember(members[0], MembersTail(members[1..], rest), key, target, body);
      ScanMembers(members[1..], rest, key, target, body);
      assert SubstituteMembers(members, target, body)[1..] == SubstituteMembers(members[1..], target, body);
    }
  }

  lemma {:induction false} ScanMember(m: Member, rest: string, key: string, target: string, body: Value)
    requires Spells(key, target) && AfterValue(rest)
    ensures var p, repl := Pattern(key), Serialize(body);
            Replace(MemberText(m, rest), p, repl)
            == MemberText(Member(m.key, Substitute(m.value, target, body)), Replace(rest, p, repl))
    decreases m
  {
    var repl := Serialize(body);
    var value := Text(m.value, rest);
    SkipChar('"', Closing(m.key, ":" + value), key, repl);
    SkipLiteral(m.key, ":" + value, key, repl);
    SkipChar(':', value, key, repl);
    ScanValue(m.value, rest, key, target, body);
  }

  lemma {:induction false} ScanItems(items: seq<Value>, rest: string, key: string, target: string, body: Value)
    requires Spells(key, target) && AfterValue(rest)
    ensures var p, repl := Pattern(key), Serialize(body);
            Replace(ItemsTail(items, rest), p, repl)
            == ItemsTail(SubstituteItems(items, target, body), Replace(rest, p, repl))
    decreases items
  {
    var repl := Serialize(body);
    if items == [] {
      SkipChar(']', rest, key, repl);
    } else {
      SkipChar(',', Text(items[0], ItemsTail(items[1..], rest)), key, repl);
      ScanValue(items[0], ItemsTail(items[1..], rest), key, target, body);
      ScanItems(items[1..], rest, key, target, body);
      assert SubstituteItems(items, target, body)[1..] == SubstituteItems(items[1..], target, body);
    }
  }

  lemma {:induction false} ScanMembers(members: seq<Member>, rest: string, key: string, target: string, body: Value)
    requires Spells(key, target) && AfterValue(rest)
    ensures var p, repl := Pattern(key), Serialize(body);
            Replace(MembersTail(members, rest), p, repl)
            == MembersTail(SubstituteMembers(members, target, body), Replace(rest, p, repl))
    decreases members
  {
    var repl := Serialize(body);
    if members == [] {
      SkipChar('}', rest, key, repl);
    } else {
      SkipChar(',', MemberText(members[0], MembersTail(members[1..], rest)), key, repl);
      ScanMember(members[0], MembersTail(members[1..], rest), key, target, body);
      ScanMembers(members[1..], rest, key, target, body);
      assert SubstituteMembers(members, target, body)[1..] == SubstituteMembers(members[1..], target, body);
    }
  }

  /** One round of the loop is one substitution on the tree, of the references that the pattern spells. */
  lemma RoundSubstitutesWhatItSpells(v: Value, key: string, target: string, body: Value)
    requires Spells(key, target) && Verbatim(Serialize(body))
    ensures ReplaceAll(Serialize(v), Pattern(key), Serialize(body)) == Serialize(Substitute(v, target, body))
  {
    VerbatimReplaceFrom(Serialize(v), 0, Pattern(key), Serialize(body));
    assert Serialize(v)[0..] == Serialize(v);
    ScanValue(v, "", key, target, body);
  }

  /** For a key that needs no escaping these are its own references. */
  lemma ReplaceIsSubstitute(v: Value, key: string, body: Value)
    requires PlainKey(key) && Verbatim(Serialize(body))
    ensures ReplaceAll(Serialize(v), Pattern(key), Serialize(body)) == Serialize(Substitute(v, key, body))
  {
    PlainKeySpellsItself(key);
    RoundSubstitutesWhatItSpells(v, key, key, body);
  }
}
