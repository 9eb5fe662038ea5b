/**
 JSON values as `JSON.parse` delivers them, and the text `JSON.stringify` writes
 for them when it is given no indentation (section 25.5.2 of ECMA-262, with the
 string escapes of section 7 of RFC 8259).

 Every text function takes the text that follows, so that no proof has to
 re-associate concatenations; `Serialize` is the case where nothing follows.
 */
module Json {

  predicate NumChar(c: char) {
    '0' <= c <= '9' || c == '-' || c == '+' || c == '.' || c == 'e' || c == 'E'
  }

  predicate NumChars(s: string) {
    forall i :: 0 <= i < |s| ==> NumChar(s[i])
  }

  /** The text of a JSON number; only its alphabet matters here. */
  type NumText = s: string | s != "" && NumChars(s) witness "0"

  datatype Value =
    | Null
    | Bool(b: bool)
    | Num(text: NumText)
    | Str(s: string)
    | Arr(items: seq<Value>)
    | Obj(members: seq<Member>)

  /** One own property; members stand in the order in which the object enumerates them. */
  datatype Member = Member(key: string, value: Value)

  function HexDigit(n: nat): char
    requires n < 16
  {
    "0123456789abcdef"[n]
  }

  const BACKSPACE: char := 8 as char
  const FORM_FEED: char := 12 as char

  /** True of the characters that stand for themselves inside a string literal. */
  predicate Plain(c: char) {
    c != '"' && c != '\\' && ' ' <= c
  }

  function EscapeChar(c: char): string {
    if Plain(c) then [c]
    else if c == '"' || c == '\\' then ['\\', c]
    else if c == BACKSPACE then "\\b"
    else if c == FORM_FEED then "\\f"
    else if c == '\n' then "\\n"
    else if c == '\r' then "\\r"
    else if c == '\t' then "\\t"
    else "\\u00" + [HexDigit(c as int / 16), HexDigit(c as int % 16)]
  }

  /** The inside of the literal of `s`, its closing quote, and `rest`. */
  function Closing(s: string, rest: string): string {
    if s == "" then "\"" + rest else EscapeChar(s[0]) + Closing(s[1..], rest)
  }

  /** The text of `v` followed by `rest`. */
  function Text(v: Value, rest: string): (r: string)
    ensures r != ""
    decreases v
  {
    match v
    case Null => "null" + rest
    case Bool(b) => (if b then "true" else "false") + rest
    case Num(text) => text + rest
    case Str(s) => "\"" + Closing(s, rest)
    case Arr(items) =>
      "[" + if items == [] then "]" + rest else Text(items[0], ItemsTail(items[1..], rest))
    case Obj(members) =>
      "{" + if members == [] then "}" + rest else MemberText(members[0], MembersTail(members[1..], rest))
  }

  function MemberText(m: Member, rest: string): (r: string)
    ensures r != ""
    decreases m
  {
    "\"" + Closing(m.key, ":" + Text(m.value, rest))
  }

  /** What follows an array item: the other items, each after a comma, the bracket, and `rest`. */
  function ItemsTail(items: seq<Value>, rest: string): (r: string)
    ensures AfterValue(r) && r != ""
    decreases items
  {
    if items == [] then "]" + rest else "," + Text(items[0], ItemsTail(items[1..], rest))
  }

  /** What follows an object member: the other members, each after a comma, the brace, and `rest`. */
  function MembersTail(members: seq<Member>, rest: string): (r: string)
    ensures AfterValue(r) && r != ""
    decreases members
  {
    if members == [] then "}" + rest else "," + MemberText(members[0], MembersTail(members[1..], rest))
  }

  /** `JSON.stringify(v)`. */
  function Serialize(v: Value): string {
    Text(v, "")
  }

  /** True of the texts that may follow a value inside a document. */
  predicate AfterValue(rest: string) {
    rest == "" || rest[0] in {',', ']', '}'}
  }

  // ----- what follows a value stays what it was -----

  lemma {:induction false} ClosingAppend(s: string, x: string, y: string)
    ensures Closing(s, x + y) == Closing(s, x) + y
  {
    if s == "" {
      assert "\"" + (x + y) == ("\"" + x) + y;
    } else {
      ClosingAppend(s[1..], x, y);
      assert EscapeChar(s[0]) + (Closing(s[1..], x) + y) == EscapeChar(s[0]) + Closing(s[1..], x) + y;
    }
  }

  lemma {:induction false} TextAppend(v: Value, x: string, y: string)
    ensures Text(v, x + y) == Text(v, x) + y
    decreases v
  {
    match v
    case Null => assert "null" + (x + y) == ("null" + x) + y;
    case Bool(b) =>
      var t := if b then "true" else "false";
      assert t + (x + y) == (t + x) + y;
    case Num(text) => assert text + (x + y) == (text + x) + y;
    case Str(s) =>
      ClosingAppend(s, x, y);
      assert "\"" + (Closing(s, x) + y) == ("\"" + Closing(s, x)) + y;
    case Arr(items) =>
      if items == [] {
        assert "[" + ("]" + (x + y)) == "[" + ("]" + x) + y;
      } else {
        ItemsAppend(items[1..], x, y);
        TextAppend(items[0], ItemsTail(items[1..], x), y);
        var t := Text(items[0], ItemsTail(items[1..], x));
        assert "[" + (t + y) == ("[" + t) + y;
      }
    case Obj(members) =>
      if members == [] {
        assert "{" + ("}" + (x + y)) == "{" + ("}" + x) + y;
      } else {
        MembersAppend(members[1..], x, y);
        MemberAppend(members[0], MembersTail(members[1..], x), y);
        var t := MemberText(members[0], MembersTail(members[1..], x));
        assert "{" + (t + y) == ("{" + t) + y;
      }
  }

  lemma {:induction false} ItemsAppend(items: seq<Value>, x: string, y: string)
    ensures ItemsTail(items, x + y) == ItemsTail(items, x) + y
    decreases items
  {
    if items == [] {
      assert "]" + (x + y) == ("]" + x) + y;
    } else {
      ItemsAppend(items[1..], x, y);
      TextAppend(items[0], ItemsTail(items[1..], x), y);
      var t := Text(items[0], ItemsTail(items[1..], x));
      assert "," + (t + y) == ("," + t) + y;
    }
  }

  lemma {:induction false} MemberAppend(m: Member, x: string, y: string)
    ensures MemberText(m, x + y) == MemberText(m, x) + y
    decreases m
  {
    TextAppend(m.value, x, y);
    var t := Text(m.value, x);
    assert ":" + (t + y) == (":" + t) + y;
    ClosingAppend(m.key, ":" + t, y);
    assert "\"" + (Closing(m.key, ":" + t) + y) == ("\"" + Closing(m.key, ":" + t)) + y;
  }

  lemma {:induction false} MembersAppend(members: seq<Member>, x: string, y: string)
    ensures MembersTail(members, x + y) == MembersTail(members, x) + y
    decreases members
  {
    if members == [] {
      assert "}" + (x + y) == ("}" + x) + y;
    } else {
      MembersAppend(members[1..], x, y);
      MemberAppend(members[0], MembersTail(members[1..], x), y);
      var t := MemberText(members[0], MembersTail(members[1..], x));
      assert "," + (t + y) == ("," + t) + y;
    }
  }

  // ----- the text determines the value -----

  lemma HeadTail(c: char, x: string, d: char, y: string)
    requires [c] + x == [d] + y
    ensures c == d && x == y
  {
    assert ([c] + x)[0] == ([d] + y)[0];
    assert x == ([c] + x)[1..] && y == ([d] + y)[1..];
  }

  lemma EscapeCharUnique(a: char, b: char, x: string, y: string)
    requires EscapeChar(a) + x == EscapeChar(b) + y
    ensures a == b && x == y
  {
    var u, w := EscapeChar(a) + x, EscapeChar(b) + y;
    assert u[0] == w[0];
    if Plain(a) {
      assert x == u[1..] && y == w[1..];
    } else {
      assert u[1] == w[1];
      if a < ' ' && u[1] == 'u' {
        assert u[4] == w[4] && u[5] == w[5];
        assert x == u[6..] && y == w[6..];
        HexUnique(a as int / 16, b as int / 16);
        HexUnique(a as int % 16, b as int % 16);
      } else {
        assert x == u[2..] && y == w[2..];
      }
    }
  }

  lemma HexUnique(m: nat, n: nat)
    requires m < 16 && n < 16 && HexDigit(m) == HexDigit(n)
    ensures m == n
  {
  }

  lemma {:induction false} LiteralUnique(a: string, b: string, x: string, y: string)
    requires Closing(a, x) == Closing(b, y)
    ensures a == b && x == y
    decreases |a|
  {
    if a == "" && b == "" {
      HeadTail('"', x, '"', y);
    } else if a == "" {
      QuoteEndsLiteral(b, y, x);
    } else if b == "" {
      QuoteEndsLiteral(a, x, y);
    } else {
      EscapeCharUnique(a[0], b[0], Closing(a[1..], x), Closing(b[1..], y));
      LiteralUnique(a[1..], b[1..], x, y);
      assert a == [a[0]] + a[1..] && b == [b[0]] + b[1..];
    }
  }

  /** No escaped character starts with a quote, so the first quote closes the literal. */
  lemma QuoteEndsLiteral(s: string, x: string, y: string)
    requires s != ""
    ensures Closing(s, x) != "\"" + y
  {
    assert Closing(s, x)[0] == EscapeChar(s[0])[0];
  }

  lemma NumberUnique(a: NumText, b: NumText, x: string, y: string)
    requires AfterValue(x) && AfterValue(y) && a + x == b + y
    ensures a == b && x == y
  {
    if |a| < |b| {
      LongerNumberDiffers(a, b, x, y);
    } else if |b| < |a| {
      LongerNumberDiffers(b, a, y, x);
    }
    assert a == (a + x)[..|a|] && b == (b + y)[..|a|];
    assert x == (a + x)[|a|..] && y == (b + y)[|a|..];
  }

  lemma LongerNumberDiffers(a: NumText, b: NumText, x: string, y: string)
    requires AfterValue(x) && |a| < |b|
    ensures a + x != b + y
  {
    assert NumChar(b[|a|]) && (b + y)[|a|] == b[|a|];
    assert x == "" || (a + x)[|a|] == x[0];
  }

  // ----- literals read back -----

  datatype Option<+T> = None | Some(value: T)

  /** A character of a string literal, and the text after it. */
  datatype Read = Read(c: char, rest: string)

  function HexWorth(c: char): Option<nat> {
    if '0' <= c <= '9' then Some(c as int - '0' as int)
    else if 'a' <= c <= 'f' then Some(c as int - 'a' as int + 10)
    else if 'A' <= c <= 'F' then Some(c as int - 'A' as int + 10)
    else None
  }

  /** What a reader of section 7 of RFC 8259 takes for the next character, escapes above U+00FF aside. */
  function ReadChar(t: string): Option<Read> {
    if t == "" || t[0] == '"' || t[0] < ' ' then None
    else if t[0] != '\\' then Some(Read(t[0], t[1..]))
    else if |t| == 1 then None
    else if t[1] in {'"', '\\', '/'} then Some(Read(t[1], t[2..]))
    else if t[1] == 'b' then Some(Read(8 as char, t[2..]))
    else if t[1] == 'f' then Some(Read(12 as char, t[2..]))
    else if t[1] == 'n' then Some(Read(10 as char, t[2..]))
    else if t[1] == 'r' then Some(Read(13 as char, t[2..]))
    else if t[1] == 't' then Some(Read(9 as char, t[2..]))
    else if t[1] == 'u' && |t| >= 6 && t[2..4] == "00" && HexWorth(t[4]).Some? && HexWorth(t[5]).Some? then
      Some(Read((16 * HexWorth(t[4]).value + HexWorth(t[5]).value) as char, t[6..]))
    else None
  }

  /** What a reader takes for the string up to the closing quote. */
  function ReadLiteral(t: string): Option<(string, string)>
    decreases |t|
  {
    if t != "" && t[0] == '"' then Some(("", t[1..]))
    else match ReadChar(t)
      case None => None
      case Some(read) =>
        if |read.rest| >= |t| then None
        else match ReadLiteral(read.rest)
          case None => None
          case Some((s, rest)) => Some(([read.c] + s, rest))
  }

  lemma HexDigitWorth(n: nat)
    requires n < 16
    ensures HexWorth(HexDigit(n)) == Some(n)
  {
  }

  lemma HexEscapeIsRead(c: char, rest: string)
    requires |EscapeChar(c)| == 6
    ensures ReadChar(EscapeChar(c) + rest) == Some(Read(c, rest))
  {
    var t := EscapeChar(c) + rest;
    HexDigitWorth(c as int / 16);
    HexDigitWorth(c as int % 16);
    assert t[2..4] == "00" && t[6..] == rest;
  }

  /** Every character that is written, escaped or not, is read as itself. */
  lemma EscapeIsRead(c: char, rest: string)
    ensures ReadChar(EscapeChar(c) + rest) == Some(Read(c, rest))
  {
    if |EscapeChar(c)| == 6 {
      HexEscapeIsRead(c, rest);
    } else {
      assert (EscapeChar(c) + rest)[|EscapeChar(c)|..] == rest;
    }
  }

  /** So every literal is read back as the string it was written for. */
  lemma {:induction false} LiteralIsReadBack(s: string, rest: string)
    ensures ReadLiteral(Closing(s, rest)) == Some((s, rest))
    decreases |s|
  {
    var t := Closing(s, rest);
    if s == "" {
      assert t[1..] == rest;
    } else {
      LiteralIsReadBack(s[1..], rest);
      EscapeIsRead(s[0], Closing(s[1..], rest));
      assert t != "" && t[0] == EscapeChar(s[0])[0] != '"';
      assert |Closing(s[1..], rest)| < |t|;
      assert [s[0]] + s[1..] == s;
    }
  }

  /** The first character of a value's text tells its kind. */
  lemma FirstChar(v: Value, rest: string)
    ensures match v
            case Null => Text(v, rest)[0] == 'n'
            case Bool(b) => Text(v, rest)[0] == if b then 't' else 'f'
            case Num(_) => NumChar(Text(v, rest)[0])
            case Str(_) => Text(v, rest)[0] == '"'
            case Arr(_) => Text(v, rest)[0] == '['
            case Obj(_) => Text(v, rest)[0] == '{'
  {
  }

  lemma EmptyObjectUnique(x: string, m: Member, y: string)
    ensures "{" + ("}" + x) != "{" + MemberText(m, y)
  {
    assert ("{" + ("}" + x))[1] == '}' && ("{" + MemberText(m, y))[1] == '"';
  }

  /** Serialized values form a prefix code: a text is that of one value only, whatever may follow. */
  lemma {:induction false} TextUnique(v: Value, w: Value, x: string, y: string)
    requires AfterValue(x) && AfterValue(y) && Text(v, x) == Text(w, y)
    ensures v == w && x == y
    decreases v
  {
    FirstChar(v, x);
    FirstChar(w, y);
    match v
    case Null => assert x == Text(v, x)[4..] && y == Text(w, y)[4..];
    case Bool(b) =>
      var n := if b then 4 else 5;
      assert x == Text(v, x)[n..] && y == Text(w, y)[n..];
    case Num(text) => NumberUnique(text, w.text, x, y);
    case Str(s) =>
      HeadTail('"', Closing(s, x), '"', Closing(w.s, y));
      LiteralUnique(s, w.s, x, y);
    case Arr(items) =>
      var u, t := Text(v, x)[1..], Text(w, y)[1..];
      if items == [] && w.items == [] {
        HeadTail(']', x, ']', y);
      } else if items == [] {
        FirstChar(w.items[0], ItemsTail(w.items[1..], y));
      } else if w.items == [] {
        FirstChar(items[0], ItemsTail(items[1..], x));
      } else {
        TextUnique(items[0], w.items[0], ItemsTail(items[1..], x), ItemsTail(w.items[1..], y));
        ItemsUnique(items[1..], w.items[1..], x, y);
        assert items == [items[0]] + items[1..] && w.items == [w.items[0]] + w.items[1..];
      }
    case Obj(members) =>
      var u, t := Text(v, x)[1..], Text(w, y)[1..];
      if members == [] && w.members == [] {
        HeadTail('}', x, '}', y);
      } else if members == [] {
        EmptyObjectUnique(x, w.members[0], MembersTail(w.members[1..], y));
      } else if w.members == [] {
        EmptyObjectUnique(y, members[0], MembersTail(members[1..], x));
      } else {
        MemberUnique(members[0], w.members[0], MembersTail(members[1..], x), MembersTail(w.members[1..], y));
        MembersUnique(members[1..], w.members[1..], x, y);
        assert members == [members[0]] + members[1..] && w.members == [w.members[0]] + w.members[1..];
      }
  }

  lemma {:induction false} ItemsUnique(vs: seq<Value>, ws: seq<Value>, x: string, y: string)
    requires ItemsTail(vs, x) == ItemsTail(ws, y)
    ensures vs == ws && x == y
    decreases vs
  {
    if vs == [] {
      HeadTail(']', x, ItemsTail(ws, y)[0], ItemsTail(ws, y)[1..]);
      assert ws == [];
      HeadTail(']', x, ']', y);
    } else {
      assert ItemsTail(vs, x)[0] == ',';
      assert ws != [];
      var u, t := Text(vs[0], ItemsTail(vs[1..], x)), Text(ws[0], ItemsTail(ws[1..], y));
      HeadTail(',', u, ',', t);
      TextUnique(vs[0], ws[0], ItemsTail(vs[1..], x), ItemsTail(ws[1..], y));
      ItemsUnique(vs[1..], ws[1..], x, y);
      assert vs == [vs[0]] + vs[1..] && ws == [ws[0]] + ws[1..];
    }
  }

  lemma {:induction false} MemberUnique(m: Member, n: Member, x: string, y: string)
    requires AfterValue(x) && AfterValue(y) && MemberText(m, x) == MemberText(n, y)
    ensures m == n && x == y
    decreases m
  {
    var mx, ny := ":" + Text(m.value, x), ":" + Text(n.value, y);
    HeadTail('"', Closing(m.key, mx), '"', Closing(n.key, ny));
    LiteralUnique(m.key, n.key, mx, ny);
    HeadTail(':', Text(m.value, x), ':', Text(n.value, y));
    TextUnique(m.value, n.value, x, y);
  }

  lemma {:induction false} MembersUnique(ms: seq<Member>, ns: seq<Member>, x: string, y: string)
    requires MembersTail(ms, x) == MembersTail(ns, y)
    ensures ms == ns && x == y
    decreases ms
  {
    if ms == [] {
      HeadTail('}', x, MembersTail(ns, y)[0], MembersTail(ns, y)[1..]);
      assert ns == [];
      HeadTail('}', x, '}', y);
    } else {
      assert MembersTail(ms, x)[0] == ',';
      assert ns != [];
      var u, t := MemberText(ms[0], MembersTail(ms[1..], x)), MemberText(ns[0], MembersTail(ns[1..], y));
      HeadTail(',', u, ',', t);
      MemberUnique(ms[0], ns[0], MembersTail(ms[1..], x), MembersTail(ns[1..], y));
      MembersUnique(ms[1..], ns[1..], x, y);
      assert ms == [ms[0]] + ms[1..] && ns == [ns[0]] + ns[1..];
    }
  }

  /** `JSON.stringify` is injective: a document's text stands for one tree. */
  lemma SerializeInjective(v: Value, w: Value)
    requires Serialize(v) == Serialize(w)
    ensures v == w
  {
    TextUnique(v, w, "", "");
  }
}
