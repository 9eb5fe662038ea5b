/**
 The converse of `ReplaceIsSubstitute`: for which keys and bodies the textual
 replacement is the substitution, on every document.
 */
module RefExactness {
  import opened Json
  import opened RefExpansion

  /** The round of `key` substitutes the references to `target`, whatever the document. */
  ghost predicate RoundSubstitutes(key: string, target: string, body: Value) {
    forall v :: ReplaceAll(Serialize(v), Pattern(key), Serialize(body)) == Serialize(Substitute(v, target, body))
  }

  /** One round of the loop does what it is for. */
  ghost predicate RoundIsSubstitution(key: string, body: Value) {
    RoundSubstitutes(key, key, body)
  }

  // ----- replacement sequences change the body -----

  predicate Visible(s: string) {
    s != "" && s[0] != '$'
  }

  lemma {:induction false} NeverPadded(t: string, k: nat, matched: string, before: string, after: string)
    requires k > 0 && Visible(matched) && Visible(before) && Visible(after)
    ensures ExpandTemplate(t, matched, before, after) != seq(k, _ => '$') + t
    decreases |t|
  {
    var e, padded := ExpandTemplate(t, matched, before, after), seq(k, _ => '$') + t;
    assert padded[0] == '$';
    if t == "" {
    } else {
      if t[0] == '$' && |t| > 1 {
        if t[1] == '$' {
          NeverPadded(t[2..], k + 1, matched, before, after);
          assert padded == "$" + (seq(k + 1, _ => '$') + t[2..]);
          assert padded[1..] == seq(k + 1, _ => '$') + t[2..];
          assert e == "$" + ExpandTemplate(t[2..], matched, before, after);
          assert e[1..] == ExpandTemplate(t[2..], matched, before, after);
        } else if !Directive(t[1]) {
          assert e == "$" + ExpandTemplate(t[1..], matched, before, after);
          assert ExpandTemplate(t[1..], matched, before, after)[0] == t[1];
          assert e[1] == t[1] && padded[1] == '$';
        }
      } else {
        assert t[0] == '$' ==> e == t && |padded| > |t|;
      }
    }
  }

  lemma {:induction false} DirectiveChangesTemplate(t: string, matched: string, before: string, after: string)
    requires !Verbatim(t) && Visible(matched) && Visible(before) && Visible(after)
    ensures ExpandTemplate(t, matched, before, after) != t
    decreases |t|
  {
    var e := ExpandTemplate(t, matched, before, after);
    if t[0] == '$' && Directive(t[1]) {
      if t[1] == '$' {
        NeverPadded(t[2..], 1, matched, before, after);
        assert e[1..] == ExpandTemplate(t[2..], matched, before, after);
        assert t[1..] == seq(1, _ => '$') + t[2..];
      }
    } else {
      assert !Verbatim(t[1..]) by {
        var i :| 0 <= i < |t| - 1 && t[i] == '$' && Directive(t[i + 1]);
        assert t[1..][i - 1] == '$' && Directive(t[1..][i]);
      }
      DirectiveChangesTemplate(t[1..], matched, before, after);
      assert e[1..] == ExpandTemplate(t[1..], matched, before, after);
    }
  }

  lemma BracketedReplace(p: string, template: string)
    requires |p| > 1 && p[0] == '{'
    ensures ReplaceAll("[" + p + "]", p, template) == "[" + ExpandTemplate(template, p, "[", "]") + "]"
  {
    var text := "[" + p + "]";
    var e := ExpandTemplate(template, p, "[", "]");
    assert text[1..] == p + "]" && text[1 + |p|..] == "]" && text[..1] == "[";
    assert text[0..][0] == '[' && |"]"| < |p|;
    assert ReplaceFrom(text, 1 + |p|, p, template) == [text[1 + |p|]] + ReplaceFrom(text, |text|, p, template);
    assert ReplaceFrom(text, 1, p, template) == e + "]";
    assert "[" + (e + "]") == "[" + e + "]";
  }

  lemma SingletonText(v: Value)
    ensures Serialize(Arr([v])) == "[" + Serialize(v) + "]"
  {
    assert [v][0] == v && [v][1..] == [];
    assert ItemsTail([], "") == "]" + "" == "" + "]";
    assert Serialize(Arr([v])) == "[" + Text(v, "" + "]");
    TextAppend(v, "", "]");
  }

  /** `[{"$ref":target}]` is the document on which a replacement sequence shows. */
  lemma DirectiveBreaksRound(key: string, target: string, body: Value)
    requires Spells(key, target) && !Verbatim(Serialize(body))
    ensures !RoundSubstitutes(key, target, body)
  {
    var v, p, template := Arr([RefTo(target)]), Pattern(key), Serialize(body);
    assert SubstituteItems([RefTo(target)], target, body) == [body];
    SingletonText(RefTo(target));
    SingletonText(body);
    SpelledRefText(key, target, "");
    assert p + "" == p;
    assert p[0] == '{';
    BracketedReplace(p, template);
    var e := ExpandTemplate(template, p, "[", "]");
    DirectiveChangesTemplate(template, p, "[", "]");
    if "[" + e + "]" == "[" + template + "]" {
      Unbracket(e, template);
    }
    assert ReplaceAll(Serialize(v), p, template) != Serialize(Substitute(v, target, body));
  }

  lemma Unbracket(a: string, b: string)
    requires "[" + a + "]" == "[" + b + "]"
    ensures a == b
  {
    assert ("[" + a + "]")[1..|a| + 1] == a && ("[" + b + "]")[1..|b| + 1] == b;
    assert |"[" + a + "]"| == |"[" + b + "]"|;
  }

  // ----- a key that needs escaping misses its own reference -----

  lemma ShiftBackslash(b: nat, rest: string)
    requires b > 0
    ensures (seq(b, _ => '\\') + ("\\\\" + rest))[1..] == seq(b + 1, _ => '\\') + rest
  {
  }

  lemma {:induction false} EscapedNeverCatchesUp(b: nat, s: string, y: string, z: string)
    requires b > 0
    ensures seq(b, _ => '\\') + Closing(s, y) != s + "\"" + z
    decreases |s|
  {
    var left, right := seq(b, _ => '\\') + Closing(s, y), s + "\"" + z;
    assert left[0] == '\\';
    if s != "" && s[0] == '\\' {
      EscapedNeverCatchesUp(b + 1, s[1..], y, z);
      ShiftBackslash(b, Closing(s[1..], y));
      assert Closing(s, y) == "\\\\" + Closing(s[1..], y);
      assert left[1..] == seq(b + 1, _ => '\\') + Closing(s[1..], y);
      assert right[1..] == s[1..] + "\"" + z;
    }
  }

  lemma {:induction false} EscapedKeyDiffers(s: string, y: string, z: string)
    requires !PlainKey(s)
    ensures Closing(s, y) != s + "\"" + z
    decreases |s|
  {
    var left, right := Closing(s, y), s + "\"" + z;
    assert left[0] == EscapeChar(s[0])[0] && right[0] == s[0];
    if Plain(s[0]) {
      EscapedKeyDiffers(s[1..], y, z);
      assert left[1..] == Closing(s[1..], y) && right[1..] == s[1..] + "\"" + z;
    } else if s[0] == '\\' {
      EscapedNeverCatchesUp(1, s[1..], y, z);
      assert left[1..] == seq(1, _ => '\\') + Closing(s[1..], y);
      assert right[1..] == s[1..] + "\"" + z;
    }
  }

  lemma CancelFront(front: string, x: string, y: string)
    requires front + x == front + y
    ensures x == y
  {
    assert x == (front + x)[|front|..] && y == (front + y)[|front|..];
  }

  const FRONT := "{\"$ref\":\""

  lemma FrontPieces(c: string)
    ensures "{\"" + ("$ref" + "\"" + (":\"" + c)) == FRONT + c
  {
    assert "$ref" + "\"" + (":\"" + c) == "$ref\":\"" + c;
  }

  lemma RefTextFront(key: string)
    ensures Text(RefTo(key), "") == FRONT + Closing(key, "}")
  {
    RefText(key, "");
    assert "}" + "" == "}";
    PlainClosing("$ref", ":\"" + Closing(key, "}"));
    FrontPieces(Closing(key, "}"));
  }

  lemma PatternFront(key: string, z: string)
    ensures Pattern(key) + z == FRONT + (key + "\"" + ("}" + z))
  {
    assert "\"}" + z == "\"" + ("}" + z);
  }

  lemma EscapedKeyTextDiffers(key: string, z: string)
    requires !PlainKey(key)
    ensures Text(RefTo(key), "") != Pattern(key) + z
  {
    RefTextFront(key);
    PatternFront(key, z);
    EscapedKeyDiffers(key, "}", "}" + z);
    if FRONT + Closing(key, "}") == FRONT + (key + "\"" + ("}" + z)) {
      CancelFront(FRONT, Closing(key, "}"), key + "\"" + ("}" + z));
    }
  }

  lemma EscapedKeyNoMatch(key: string)
    requires !PlainKey(key)
    ensures !(Pattern(key) <= Text(RefTo(key), ""))
  {
    if Pattern(key) <= Text(RefTo(key), "") {
      PrefixSplits(Pattern(key), Text(RefTo(key), ""));
      var z :| Text(RefTo(key), "") == Pattern(key) + z;
      EscapedKeyTextDiffers(key, z);
    }
  }

  lemma {:induction false} DroppingShortens(text: string, pattern: string)
    requires pattern != ""
    ensures |Replace(text, pattern, "")| <= |text|
    decreases |text|
  {
    if text == "" {
    } else {
      if pattern <= text {
        DroppingShortens(text[|pattern|..], pattern);
      } else {
        DroppingShortens(text[1..], pattern);
      }
    }
  }

  lemma {:induction false} NoMatchNoChange(text: string, i: nat, pattern: string, template: string)
    requires i <= |text| && pattern != "" && Replace(text[i..], pattern, "") == text[i..]
    ensures ReplaceFrom(text, i, pattern, template) == text[i..]
    decreases |text| - i
  {
    if i == |text| {
    } else {
      assert text[i..][1..] == text[i + 1..];
      if pattern <= text[i..] {
        DroppingShortens(text[i..][|pattern|..], pattern);
      } else {
        assert Replace(text[i..], pattern, "")[1..] == Replace(text[i + 1..], pattern, "");
        NoMatchNoChange(text, i + 1, pattern, template);
        assert text[i..] == [text[i]] + text[i + 1..];
      }
    }
  }

  lemma UnmatchedLiterals(key: string, name: string, value: string)
    ensures var inner := Closing(value, "}");
            var outer := Closing(name, ":\"" + inner);
            Replace("\"" + outer, Pattern(key), "") == "\"" + outer
  {
    var p, inner := Pattern(key), Closing(value, "}");
    var outer := Closing(name, ":\"" + inner);
    LoneBrace(key);
    SkipLiteral(value, "}", key, "");
    SkipNoBrace(":\"", inner, key, "");
    SkipLiteral(name, ":\"" + inner, key, "");
    SkipNoBrace("\"", outer, key, "");
  }

  lemma LoneBrace(key: string)
    ensures Replace("}", Pattern(key), "") == "}"
  {
    SkipChar('}', "", key, "");
    assert ['}'] + "" == "}";
  }

  lemma UnmatchedReference(key: string)
    requires !PlainKey(key)
    ensures var text := Text(RefTo(key), ""); Replace(text, Pattern(key), "") == text
  {
    EscapedKeyNoMatch(key);
    RefText(key, "");
    assert "}" + "" == "}";
    var rest := "\"" + Closing("$ref", ":\"" + Closing(key, "}"));
    BraceThen(Text(RefTo(key), ""), Closing("$ref", ":\"" + Closing(key, "}")));
    UnmatchedLiterals(key, "$ref", key);
    StepOver('{', rest, Pattern(key), "");
  }

  lemma BraceThen(text: string, rest: string)
    requires text == "{\"" + rest
    ensures text == ['{'] + ("\"" + rest)
  {
  }

  /** The reference to a key that needs escaping is left in place by the key's own round. */
  lemma EscapedKeyMissesItself(key: string, template: string)
    requires !PlainKey(key)
    ensures ReplaceAll(Serialize(RefTo(key)), Pattern(key), template) == Serialize(RefTo(key))
  {
    var text := Serialize(RefTo(key));
    UnmatchedReference(key);
    assert text[0..] == text;
    NoMatchNoChange(text, 0, Pattern(key), template);
  }

  /**
   What such a round does instead: a key that reads like the escaped spelling of another key has the references
   to that one replaced, in every document, exactly for the bodies without replacement sequences.
   */
  lemma EscapedKeyHitsAnother(key: string, target: string, body: Value)
    requires !PlainKey(key) && Spells(key, target)
    ensures target != key && (RoundSubstitutes(key, target, body) <==> Verbatim(Serialize(body)))
  {
    EscapedKeyDiffers(key, "", "");
    assert key + "\"" + "" == key + "\"";
    if Verbatim(Serialize(body)) {
      forall v ensures ReplaceAll(Serialize(v), Pattern(key), Serialize(body))
                       == Serialize(Substitute(v, target, body)) {
        RoundSubstitutesWhatItSpells(v, key, target, body);
      }
    } else {
      DirectiveBreaksRound(key, target, body);
    }
  }
}
