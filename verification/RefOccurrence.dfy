/**
 What a round does for keys that need escaping and whose body is the reference to their own key. With
 `RefExactness` this settles for which keys and bodies a round is the substitution.
 */
module RefOccurrence {
  import opened Json
  import opened RefExactness
  import opened RefExpansion
  import RefTransform

  // ----- whether a pattern occurs at all -----

  predicate Contains(text: string, p: string) {
    exists i :: 0 <= i <= |text| && p <= text[i..]
  }

  /** The pattern of `key` occurs in the text of some document. */
  ghost predicate Occurs(key: string) {
    exists v :: Contains(Serialize(v), Pattern(key))
  }

  lemma SpelledKeyOccurs(key: string, target: string)
    requires Spells(key, target)
    ensures Occurs(key)
  {
    var text := Serialize(RefTo(target));
    SpelledRefText(key, target, "");
    assert Pattern(key) <= text[0..];
    assert Contains(text, Pattern(key));
  }

  predicate NoControl(text: string) {
    forall i :: 0 <= i < |text| ==> ' ' <= text[i]
  }

  lemma NoControlAppend(x: string, y: string)
    requires NoControl(x) && NoControl(y)
    ensures NoControl(x + y)
  {
  }

  lemma EscapedHasNoControl(c: char)
    ensures NoControl(EscapeChar(c))
  {
  }

  lemma {:induction false} ClosingHasNoControl(s: string, rest: string)
    requires NoControl(rest)
    ensures NoControl(Closing(s, rest))
    decreases |s|
  {
    if s == "" {
      NoControlAppend("\"", rest);
    } else {
      ClosingHasNoControl(s[1..], rest);
      EscapedHasNoControl(s[0]);
      NoControlAppend(EscapeChar(s[0]), Closing(s[1..], rest));
    }
  }

  lemma NumberHasNoControl(text: NumText)
    ensures NoControl(text)
  {
    forall i | 0 <= i < |text| ensures ' ' <= text[i] {
      assert NumChar(text[i]);
    }
  }

  lemma {:induction false} TextHasNoControl(v: Value, rest: string)
    requires NoControl(rest)
    ensures NoControl(Text(v, rest))
    decreases v
  {
    match v
    case Null => NoControlAppend("null", rest);
    case Bool(b) => NoControlAppend(if b then "true" else "false", rest);
    case Num(text) =>
      NumberHasNoControl(text);
      NoControlAppend(text, rest);
    case Str(s) =>
      ClosingHasNoControl(s, rest);
      NoControlAppend("\"", Closing(s, rest));
    case Arr(items) =>
      ItemsHaveNoControl(items, rest);
      if items != [] {
        ItemsHaveNoControl(items[1..], rest);
        TextHasNoControl(items[0], ItemsTail(items[1..], rest));
      }
    case Obj(members) =>
      MembersHaveNoControl(members, rest);
      if members != [] {
        MembersHaveNoControl(members[1..], rest);
        MemberHasNoControl(members[0], MembersTail(members[1..], rest));
      }
  }

  lemma {:induction false} ItemsHaveNoControl(items: seq<Value>, rest: string)
    requires NoControl(rest)
    ensures NoControl(ItemsTail(items, rest))
    decreases items
  {
    if items == [] {
      NoControlAppend("]", rest);
    } else {
      ItemsHaveNoControl(items[1..], rest);
      TextHasNoControl(items[0], ItemsTail(items[1..], rest));
      NoControlAppend(",", Text(items[0], ItemsTail(items[1..], rest)));
    }
  }

  lemma {:induction false} MemberHasNoControl(m: Member, rest: string)
    requires NoControl(rest)
    ensures NoControl(MemberText(m, rest))
    decreases m
  {
    TextHasNoControl(m.value, rest);
    NoControlAppend(":", Text(m.value, rest));
    ClosingHasNoControl(m.key, ":" + Text(m.value, rest));
    NoControlAppend("\"", Closing(m.key, ":" + Text(m.value, rest)));
  }

  lemma {:induction false} MembersHaveNoControl(members: seq<Member>, rest: string)
    requires NoControl(rest)
    ensures NoControl(MembersTail(members, rest))
    decreases members
  {
    if members == [] {
      NoControlAppend("}", rest);
    } else {
      MembersHaveNoControl(members[1..], rest);
      MemberHasNoControl(members[0], MembersTail(members[1..], rest));
      NoControlAppend(",", MemberText(members[0], MembersTail(members[1..], rest)));
    }
  }

  lemma ContainedHasNoControl(text: string, p: string)
    requires NoControl(text) && Contains(text, p)
    ensures NoControl(p)
  {
    var i :| 0 <= i <= |text| && p <= text[i..];
    forall k | 0 <= k < |p| ensures ' ' <= p[k] {
      assert p[k] == text[i..][k] == text[i + k];
    }
  }

  lemma PatternHoldsKey(key: string)
    requires NoControl(Pattern(key))
    ensures NoControl(key)
  {
    forall k | 0 <= k < |key| ensures ' ' <= key[k] {
      assert Pattern(key)[9 + k] == key[k];
    }
  }

  /** A key with a control character occurs nowhere: its round leaves every document alone. */
  lemma ControlKeyNeverOccurs(key: string)
    requires !NoControl(key)
    ensures !Occurs(key)
  {
    forall v ensures !Contains(Serialize(v), Pattern(key)) {
      TextHasNoControl(v, "");
      if Contains(Serialize(v), Pattern(key)) {
        ContainedHasNoControl(Serialize(v), Pattern(key));
        PatternHoldsKey(key);
      }
    }
  }

  // ----- a key that needs escaping, with its own reference for a body -----

  lemma OneMore(text: string, i: nat, j: nat, rest: string)
    requires i < j <= |text|
    ensures [text[i]] + (text[i + 1..j] + rest) == text[i..j] + rest
  {
  }

  lemma {:induction false} ReplaceUpTo(text: string, i: nat, j: nat, pattern: string, template: string)
    requires i <= j <= |text| && pattern != ""
    requires forall k :: i <= k < j ==> !(pattern <= text[k..])
    ensures ReplaceFrom(text, i, pattern, template) == text[i..j] + ReplaceFrom(text, j, pattern, template)
    decreases j - i
  {
    if i == j {
    } else {
      ReplaceUpTo(text, i + 1, j, pattern, template);
      ReplaceOver(text, i, pattern, template);
      OneMore(text, i, j, ReplaceFrom(text, j, pattern, template));
    }
  }

  lemma NothingToReplace(v: Value, key: string, template: string)
    requires !Contains(Serialize(v), Pattern(key))
    ensures ReplaceAll(Serialize(v), Pattern(key), template) == Serialize(v)
  {
    var text := Serialize(v);
    ReplaceUpTo(text, 0, |text|, Pattern(key), template);
    assert text[0..|text|] == text;
  }

  /** Where `$` can stand without meaning anything, a template starts as it is. */
  lemma {:induction false} ExpandFront(front: string, t: string, matched: string, before: string, after: string)
    requires forall i :: 0 <= i < |front| && front[i] == '$' ==> i + 1 < |front| && !Directive(front[i + 1])
    ensures ExpandTemplate(front + t, matched, before, after) == front + ExpandTemplate(t, matched, before, after)
    decreases |front|
  {
    if front == "" {
      assert front + t == t;
    } else {
      assert (front + t)[1..] == front[1..] + t;
      ExpandFront(front[1..], t, matched, before, after);
    }
  }

  // ----- what the replacement sequences insert -----

  /** The pattern occurs once, between `before` and `after`. */
  ghost predicate OccursOnce(before: string, p: string, after: string) {
    var text := before + p + after;
    forall k :: 0 <= k <= |text| && k != |before| ==> !(p <= text[k..])
  }

  lemma ReplaceOnce(before: string, p: string, after: string, template: string)
    requires p != "" && OccursOnce(before, p, after)
    ensures ReplaceAll(before + p + after, p, template)
            == before + ExpandTemplate(template, p, before, after) + after
  {
    var text, i, j := before + p + after, |before|, |before| + |p|;
    assert text[..i] == before && text[j..] == after && text[i..] == p + after;
    ReplaceUpTo(text, 0, i, p, template);
    ReplaceAt(text, i, p, template);
    ReplaceUpTo(text, j, |text|, p, template);
    assert text[j..|text|] == after && ReplaceFrom(text, |text|, p, template) == "";
    JoinParts(before, ExpandTemplate(template, p, before, after), after);
  }

  lemma JoinParts(a: string, b: string, c: string)
    ensures a + (b + (c + "")) == a + b + c
  {
  }

  /** The text a replacement sequence `$c` stands for; `$` followed by anything else stands for itself. */
  function Inserted(c: char, matched: string, before: string, after: string): string {
    if c == '$' then "$"
    else if c == '&' then matched
    else if c == '`' then before
    else if c == '\'' then after
    else ['$', c]
  }

  lemma NoDollarExpansion(t: string, matched: string, before: string, after: string)
    requires '$' !in t
    ensures ExpandTemplate(t, matched, before, after) == t
  {
    assert Verbatim(t) by {
      forall i | 0 <= i < |t| - 1 ensures t[i] != '$' {
        assert t[i] in t;
      }
    }
    VerbatimExpansion(t, matched, before, after);
  }

  lemma SequenceExpansion(c: char, y: string, m: string, f: string, a: string)
    requires '$' !in y
    ensures ExpandTemplate(['$', c] + y, m, f, a) == Inserted(c, m, f, a) + y
  {
    var t := ['$', c] + y;
    assert t[0] == '$' && t[1] == c && t[1..] == [c] + y && t[2..] == y;
    NoDollarExpansion(y, m, f, a);
    if !Directive(c) {
      NoDollarExpansion([c] + y, m, f, a);
      assert ['$'] + ([c] + y) == ['$', c] + y;
    }
  }

  /**
   In a text with one match, a template with one `$` puts in its place: for `$$` a dollar, for `$&` the match itself,
   for ``$` `` all that stands before it, for `$'` all that follows it, and otherwise the template as it is.
   */
  lemma SequenceInserts(before: string, p: string, after: string, x: string, c: char, y: string)
    requires p != "" && OccursOnce(before, p, after) && '$' !in x && '$' !in y
    ensures ReplaceAll(before + p + after, p, x + (['$', c] + y))
            == before + (x + (Inserted(c, p, before, after) + y)) + after
  {
    assert forall i :: 0 <= i < |x| ==> x[i] in x;
    ReplaceOnce(before, p, after, x + (['$', c] + y));
    ExpandFront(x, ['$', c] + y, p, before, after);
    SequenceExpansion(c, y, p, before, after);
  }

  /**
   What text after a match would have to repeat, for the expansion of `s` written out and escaped to come out as
   `k` dollars and `s`: nothing but "" if it cannot at all, because the two differ before any `$'` is reached.
   */
  function Cycle(k: nat, s: string): string
    decreases |s|
  {
    if s == "" then ""
    else if s[0] == '$' && |s| > 1 && Directive(s[1]) then
      match s[1]
      case '$' => Cycle(k + 1, s[2..])
      case '\'' => seq(k, _ => '$') + s + "\"}"
      case _ => ""
    else if s[0] == '$' || (k == 0 && Plain(s[0])) then Cycle(k, s[1..])
    else ""
  }

  /** The escaped text of `s`, and the brace after it, expanded as part of a template. */
  function Expanded(s: string, matched: string, before: string, after: string): string {
    ExpandTemplate(Closing(s, "}"), matched, before, after)
  }

  /** `k` dollars, `s`, and the end of a match. */
  function Padded(k: nat, s: string, after: string): string {
    seq(k, _ => '$') + (s + ("\"}" + after))
  }

  predicate StartsDirective(s: string) {
    |s| > 1 && s[0] == '$' && Directive(s[1])
  }

  lemma ExpandedEnd(matched: string, before: string, after: string)
    ensures Expanded("", matched, before, after) == "\"}"
  {
    assert Closing("", "}") == "\"}";
    assert "}"[1..] == "" && ExpandTemplate("}", matched, before, after) == ['}'] + "";
    assert "\"}"[1..] == "}";
  }

  lemma ExpandedPlain(s: string, matched: string, before: string, after: string)
    requires s != "" && Plain(s[0]) && !StartsDirective(s)
    ensures Expanded(s, matched, before, after) == [s[0]] + Expanded(s[1..], matched, before, after)
  {
    var c := Closing(s, "}");
    assert c == [s[0]] + Closing(s[1..], "}");
    assert c[0] == s[0] && c[1..] == Closing(s[1..], "}");
    if s[1..] == "" {
      assert c[1] == '"';
    } else {
      assert s[1..][0] == s[1] && c[1] == EscapeChar(s[1])[0];
    }
  }

  lemma ExpandedDirective(s: string, matched: string, before: string, after: string)
    requires StartsDirective(s)
    ensures Expanded(s, matched, before, after)
            == (match s[1]
                case '$' => "$"
                case '&' => matched
                case '`' => before
                case _ => after)
               + Expanded(s[2..], matched, before, after)
  {
    var c := Closing(s, "}");
    assert s[1..][0] == s[1] && s[1..][1..] == s[2..];
    assert Closing(s[1..], "}") == [s[1]] + Closing(s[2..], "}");
    assert c == [s[0]] + Closing(s[1..], "}");
    assert c[0] == '$' && c[1] == s[1] && c[2..] == Closing(s[2..], "}");
  }

  lemma ExpandedEscape(s: string, matched: string, before: string, after: string)
    requires s != "" && !Plain(s[0])
    ensures var e := Expanded(s, matched, before, after); e != "" && e[0] == '\\'
  {
    var c := Closing(s, "}");
    assert c[0] == EscapeChar(s[0])[0] == '\\';
  }

  lemma ExpandedBackslash(s: string, matched: string, before: string, after: string)
    requires s != "" && s[0] == '\\'
    ensures Expanded(s, matched, before, after) == "\\\\" + Expanded(s[1..], matched, before, after)
  {
    var c, rest := Closing(s, "}"), Closing(s[1..], "}");
    assert c == "\\\\" + rest;
    var e := ExpandTemplate(rest, matched, before, after);
    assert c[0] == '\\' && c[1..] == "\\" + rest && c[1..][0] == '\\' && c[1..][1..] == rest;
    assert ExpandTemplate(c[1..], matched, before, after) == "\\" + e;
    assert ExpandTemplate(c, matched, before, after) == "\\" + ("\\" + e);
  }

  lemma {:induction false} BackslashesNeverCatchUp(b: nat, s: string, m: string, f: string, a: string, x: string)
    requires b > 0
    ensures seq(b, _ => '\\') + (Expanded(s, m, f, a) + x) != s + ("\"}" + a)
    decreases |s|
  {
    var left, right := seq(b, _ => '\\') + (Expanded(s, m, f, a) + x), s + ("\"}" + a);
    assert left[0] == '\\';
    if s == "" {
      assert right[0] == '"';
    } else if s[0] == '\\' {
      BackslashesNeverCatchUp(b + 1, s[1..], m, f, a, x);
      ExpandedBackslash(s, m, f, a);
      ShiftBackslash(b, Expanded(s[1..], m, f, a) + x);
      assert "\\\\" + Expanded(s[1..], m, f, a) + x == "\\\\" + (Expanded(s[1..], m, f, a) + x);
      assert left[1..] == seq(b + 1, _ => '\\') + (Expanded(s[1..], m, f, a) + x);
      assert right[1..] == s[1..] + ("\"}" + a);
    } else {
      assert right[0] == s[0];
    }
  }

  lemma PaddedDollar(k: nat, s: string, after: string)
    requires k > 0 || (s != "" && s[0] == '$')
    ensures Padded(k, s, after)[0] == '$'
    ensures s != "" && s[0] == '$' ==> Padded(k, s, after) == "$" + Padded(k, s[1..], after)
    ensures |s| > 1 && s[0] == '$' == s[1] ==> Padded(k, s, after) == "$" + Padded(k + 1, s[2..], after)
  {
    if s != "" && s[0] == '$' {
      assert s == "$" + s[1..];
      assert seq(k, _ => '$') + "$" == "$" + seq(k, _ => '$');
      assert s + ("\"}" + after) == "$" + (s[1..] + ("\"}" + after));
      if |s| > 1 && s[1] == '$' {
        assert s[1..] == "$" + s[2..];
        assert s[1..] + ("\"}" + after) == "$" + (s[2..] + ("\"}" + after));
        assert seq(k, _ => '$') + "$" == seq(k + 1, _ => '$');
      }
    }
  }

  lemma PaddedPlain(s: string, after: string)
    requires s != ""
    ensures Padded(0, s, after) == [s[0]] + Padded(0, s[1..], after)
  {
    assert seq(0, _ => '$') == [];
    assert s + ("\"}" + after) == [s[0]] + (s[1..] + ("\"}" + after));
  }

  lemma DropHead(c: char, x: string, y: string, z: string)
    requires ([c] + x) + y == [c] + z
    ensures x + y == z
  {
    assert ([c] + x) + y == [c] + (x + y);
    CancelFront([c], x + y, z);
  }

  /** The expansion of an escaped key comes out as the key only where the text after the match repeats a cycle. */
  lemma {:induction false} ExpansionRepeats(k: nat, s: string, m: string, f: string, a: string, x: string)
    requires (k > 0 || !PlainKey(s)) && Visible(m) && Visible(f)
    requires Expanded(s, m, f, a) + x == Padded(k, s, a)
    ensures Cycle(k, s) != "" && a <= Cycle(k, s) + a
    decreases |s|
  {
    if s == "" {
      ExpandedEnd(m, f, a);
      PaddedDollar(k, s, a);
    } else if StartsDirective(s) {
      ExpandedDirective(s, m, f, a);
      PaddedDollar(k, s, a);
      DirectiveRepeats(k, s, m, f, a, x);
      if s[1] == '$' {
        DropHead('$', Expanded(s[2..], m, f, a), x, Padded(k + 1, s[2..], a));
        ExpansionRepeats(k + 1, s[2..], m, f, a, x);
      }
    } else if s[0] == '$' {
      ExpandedPlain(s, m, f, a);
      PaddedDollar(k, s, a);
      DropHead('$', Expanded(s[1..], m, f, a), x, Padded(k, s[1..], a));
      ExpansionRepeats(k, s[1..], m, f, a, x);
    } else if Plain(s[0]) {
      ExpandedPlain(s, m, f, a);
      if k > 0 {
        PaddedDollar(k, s, a);
      } else {
        PaddedPlain(s, a);
        DropHead(s[0], Expanded(s[1..], m, f, a), x, Padded(0, s[1..], a));
        ExpansionRepeats(0, s[1..], m, f, a, x);
      }
    } else {
      EscapeDiffers(k, s, m, f, a, x);
    }
  }

  lemma DirectiveRepeats(k: nat, s: string, m: string, f: string, a: string, x: string)
    requires StartsDirective(s) && Visible(m) && Visible(f)
    requires Expanded(s, m, f, a) + x == Padded(k, s, a)
    ensures s[1] == '$' || (Cycle(k, s) != "" && a <= Cycle(k, s) + a)
  {
    ExpandedDirective(s, m, f, a);
    PaddedDollar(k, s, a);
    if s[1] == '\'' {
      var rest := Expanded(s[2..], m, f, a) + x;
      assert a + Expanded(s[2..], m, f, a) + x == a + rest;
      assert Padded(k, s, a) == Cycle(k, s) + a;
      assert a <= a + rest;
    }
  }

  lemma OneBackslash(rest: string, x: string)
    ensures "\\" + rest + x == seq(1, _ => '\\') + (rest + x)
  {
  }

  lemma TwoBackslashes(rest: string)
    ensures "\\\\" + rest == ['\\'] + ("\\" + rest)
  {
  }

  lemma PaddedZero(s: string, a: string)
    ensures Padded(0, s, a) == s + ("\"}" + a)
  {
    assert seq(0, _ => '$') == [];
  }

  lemma BackslashDiffers(s: string, m: string, f: string, a: string, x: string)
    requires s != "" && s[0] == '\\'
    ensures Expanded(s, m, f, a) + x != Padded(0, s, a)
  {
    var rest := Expanded(s[1..], m, f, a);
    ExpandedBackslash(s, m, f, a);
    TwoBackslashes(rest);
    PaddedPlain(s, a);
    if Expanded(s, m, f, a) + x == Padded(0, s, a) {
      DropHead('\\', "\\" + rest, x, Padded(0, s[1..], a));
      OneBackslash(rest, x);
      PaddedZero(s[1..], a);
      BackslashesNeverCatchUp(1, s[1..], m, f, a, x);
    }
  }

  lemma EscapeDiffers(k: nat, s: string, m: string, f: string, a: string, x: string)
    requires s != "" && !Plain(s[0])
    ensures Expanded(s, m, f, a) + x != Padded(k, s, a)
  {
    ExpandedEscape(s, m, f, a);
    assert (Expanded(s, m, f, a) + x)[0] == '\\';
    if k > 0 {
      PaddedDollar(k, s, a);
    } else if s[0] == '\\' {
      BackslashDiffers(s, m, f, a, x);
    } else {
      PaddedPlain(s, a);
    }
  }

  lemma SplitAt(text: string, i: nat, p: string)
    requires i <= |text| && p <= text[i..]
    ensures text == text[0..i] + text[i..] && text[i..] == p + text[i + |p|..]
  {
  }

  /** A text that its round leaves as it was: at the first match the expansion comes out as what was there. */
  lemma SameAtMatch(text: string, i: nat, p: string, template: string)
    requires p != "" && i <= |text| && p <= text[i..] && forall k :: 0 <= k < i ==> !(p <= text[k..])
    requires ReplaceAll(text, p, template) == text
    ensures ExpandTemplate(template, p, text[..i], text[i + |p|..]) + ReplaceFrom(text, i + |p|, p, template)
            == p + text[i + |p|..]
  {
    ReplaceUpTo(text, 0, i, p, template);
    SplitAt(text, i, p);
    CancelFront(text[0..i], ReplaceFrom(text, i, p, template), text[i..]);
    ReplaceAt(text, i, p, template);
  }

  lemma FrontCancels(e: string, x: string, z: string)
    requires (FRONT + e) + x == FRONT + z
    ensures e + x == z
  {
    assert (FRONT + e) + x == FRONT + (e + x);
    CancelFront(FRONT, e + x, z);
  }

  lemma ReferenceExpanded(key: string, m: string, f: string, a: string)
    ensures ExpandTemplate(Serialize(RefTo(key)), m, f, a) == FRONT + Expanded(key, m, f, a)
  {
    RefTextFront(key);
    ExpandFront(FRONT, Closing(key, "}"), m, f, a);
  }

  lemma PatternPadded(key: string, a: string)
    ensures Pattern(key) + a == FRONT + Padded(0, key, a)
  {
    PatternFront(key, a);
    PaddedZero(key, a);
    assert key + "\"" + ("}" + a) == key + ("\"}" + a);
  }

  /** A match in a document that its round leaves as it was. */
  lemma MatchRepeats(text: string, i: nat, key: string)
    requires !PlainKey(key) && 0 < i <= |text| && text[0] == '['
    requires Pattern(key) <= text[i..] && forall k :: 0 <= k < i ==> !(Pattern(key) <= text[k..])
    requires ReplaceAll(text, Pattern(key), Serialize(RefTo(key))) == text
    ensures var after := text[i + |Pattern(key)|..];
            Cycle(0, key) != "" && after <= Cycle(0, key) + after
  {
    var p, template := Pattern(key), Serialize(RefTo(key));
    SameAtMatch(text, i, p, template);
    ExpandedMatchRepeats(key, text[..i], text[i + |p|..], ReplaceFrom(text, i + |p|, p, template));
  }

  lemma ExpandedMatchRepeats(key: string, f: string, a: string, x: string)
    requires !PlainKey(key) && Visible(f)
    requires ExpandTemplate(Serialize(RefTo(key)), Pattern(key), f, a) + x == Pattern(key) + a
    ensures Cycle(0, key) != "" && a <= Cycle(0, key) + a
  {
    ReferenceExpanded(key, Pattern(key), f, a);
    PatternPadded(key, a);
    FrontCancels(Expanded(key, Pattern(key), f, a), x, Padded(0, key, a));
    ExpansionRepeats(0, key, Pattern(key), f, a, x);
  }

  /** What a cycle puts after `z`. */
  lemma NextInCycle(q: string, z: string, end: string)
    requires q != "" && end != "" && z + end <= q + (z + end)
    ensures end[0] == if |z| < |q| then q[|z|] else z[|z| - |q|]
  {
    assert (z + end)[|z|] == (q + (z + end))[|z|];
  }

  lemma NotBothRepeat(q: string, z: string)
    requires q != "" && z + "]" <= q + (z + "]")
    ensures !(z + ",null]" <= q + (z + ",null]"))
  {
    NextInCycle(q, z, "]");
    if z + ",null]" <= q + (z + ",null]") {
      NextInCycle(q, z, ",null]");
    }
  }

  lemma {:induction false} FirstMatch(text: string, p: string, n: nat) returns (i: nat)
    requires n <= |text| && p <= text[n..]
    ensures i <= |text| && p <= text[i..] && forall k :: 0 <= k < i ==> !(p <= text[k..])
    decreases n
  {
    if k :| 0 <= k < n && p <= text[k..] {
      i := FirstMatch(text, p, k);
    } else {
      i := n;
    }
  }

  lemma Enclosed(t: string, i: nat, p: string, end: string)
    requires p != "" && p[0] == '{' && i <= |t| && p <= t[i..] && forall k :: 0 <= k < i ==> !(p <= t[k..])
    ensures var text := "[" + t + end;
            && i + 1 + |p| <= |text| && p <= text[i + 1..] && text[i + 1 + |p|..] == t[i + |p|..] + end
            && forall k :: 0 <= k < i + 1 ==> !(p <= text[k..])
  {
    var text := "[" + t + end;
    assert text[i + 1..] == t[i..] + end && text[i + 1 + |p|..] == t[i + |p|..] + end;
    PrefixWithin(p, t[i..], end);
    forall k | 0 <= k < i + 1 ensures !(p <= text[k..]) {
      if k == 0 {
        assert text[0..][0] == '[';
      } else {
        assert text[k..] == t[k - 1..] + end;
        PrefixWithin(p, t[k - 1..], end);
      }
    }
  }

  lemma PrefixWithin(p: string, x: string, end: string)
    requires |p| <= |x|
    ensures p <= x + end <==> p <= x
  {
    assert (x + end)[..|p|] == x[..|p|];
  }

  lemma PairText(v: Value)
    ensures Serialize(Arr([v, Null])) == "[" + Serialize(v) + ",null]"
  {
    assert [v, Null][0] == v && [v, Null][1..] == [Null] && [Null][1..] == [];
    assert ItemsTail([], "") == "]" + "" == "]";
    assert ItemsTail([Null], "") == "," + ("null" + "]") == ",null]" == "" + ",null]";
    assert Serialize(Arr([v, Null])) == "[" + Text(v, "" + ",null]");
    TextAppend(v, "", ",null]");
  }

  lemma OwnRoundChangesNothing(key: string, doc: Value)
    requires RoundIsSubstitution(key, RefTo(key))
    ensures ReplaceAll(Serialize(doc), Pattern(key), Serialize(RefTo(key))) == Serialize(doc)
  {
    RefTransform.OwnReferenceChangesNothing(doc, key);
  }

  lemma RoundRepeats(key: string, doc: Value, t: string, i: nat, end: string)
    requires !PlainKey(key) && Serialize(doc) == "[" + t + end
    requires ReplaceAll(Serialize(doc), Pattern(key), Serialize(RefTo(key))) == Serialize(doc)
    requires i <= |t| && Pattern(key) <= t[i..] && forall k :: 0 <= k < i ==> !(Pattern(key) <= t[k..])
    ensures var after := t[i + |Pattern(key)|..] + end; Cycle(0, key) != "" && after <= Cycle(0, key) + after
  {
    var text := "[" + t + end;
    Enclosed(t, i, Pattern(key), end);
    MatchRepeats(text, i + 1, key);
  }

  /** With its own reference for a body, an escaped key's round changes some document as soon as it finds anything. */
  lemma OwnReferenceExactly(key: string)
    requires !PlainKey(key)
    ensures RoundIsSubstitution(key, RefTo(key)) <==> !Occurs(key)
  {
    if Occurs(key) {
      var v :| Contains(Serialize(v), Pattern(key));
      var t := Serialize(v);
      var n :| 0 <= n <= |t| && Pattern(key) <= t[n..];
      var i := FirstMatch(t, Pattern(key), n);
      if RoundIsSubstitution(key, RefTo(key)) {
        SingletonText(v);
        PairText(v);
        OwnRoundChangesNothing(key, Arr([v]));
        OwnRoundChangesNothing(key, Arr([v, Null]));
        RoundRepeats(key, Arr([v]), t, i, "]");
        RoundRepeats(key, Arr([v, Null]), t, i, ",null]");
        NotBothRepeat(Cycle(0, key), t[i + |Pattern(key)|..]);
      }
    } else {
      forall v ensures ReplaceAll(Serialize(v), Pattern(key), Serialize(RefTo(key)))
                       == Serialize(Substitute(v, key, RefTo(key))) {
        NothingToReplace(v, key, Serialize(RefTo(key)));
        RefTransform.OwnReferenceChangesNothing(v, key);
      }
    }
  }

  lemma OtherBodyShows(key: string, body: Value)
    requires !PlainKey(key) && body != RefTo(key)
    ensures !RoundIsSubstitution(key, body)
  {
    EscapedKeyMissesItself(key, Serialize(body));
    if Serialize(RefTo(key)) == Serialize(body) {
      SerializeInjective(RefTo(key), body);
    }
    assert Substitute(RefTo(key), key, body) == body;
  }

  /**
   Exactly the keys and bodies on which one round is a substitution for every document: the key needs no
   escaping, and the body's text holds no replacement sequence; or the key needs escaping, but nothing is to be
   replaced, since the body is its own reference and its pattern occurs in no document.
   */
  lemma RoundIsSubstitutionExactly(key: string, body: Value)
    ensures RoundIsSubstitution(key, body) <==>
              if PlainKey(key) then Verbatim(Serialize(body)) else body == RefTo(key) && !Occurs(key)
  {
    if PlainKey(key) {
      if Verbatim(Serialize(body)) {
        forall v ensures ReplaceAll(Serialize(v), Pattern(key), Serialize(body))
                         == Serialize(Substitute(v, key, body)) {
          ReplaceIsSubstitute(v, key, body);
        }
      } else {
        PlainKeySpellsItself(key);
        DirectiveBreaksRound(key, key, body);
      }
    } else if body == RefTo(key) {
      OwnReferenceExactly(key);
    } else {
      OtherBodyShows(key, body);
    }
  }
}
