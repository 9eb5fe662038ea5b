/**
 The fallback hash of the OFREP web store: FNV-1a over 32 bits, run twice from two offsets, as 16 hex digits.
 A string is the sequence of its UTF-16 code units; words are the integers below 2^32.
 */
module FnvHash {

  const WORDS: nat := 0x1_0000_0000
  const PRIME: nat := 0x01000193
  /** PRIME * INVERSE_OF_PRIME is 1 modulo 2^32. */
  const INVERSE_OF_PRIME: nat := 0x359c449b
  const LO_OFFSET: Word := 0x811c9dc5
  const HI_OFFSET: Word := 0x27d4eb2f

  type Word = h: nat | h < 0x1_0000_0000
  type Unit = c: nat | c < 0x1_0000

  // ----- exclusive or -----

  function Pow2(bits: nat): (p: nat)
    ensures p > 0
  {
    if bits == 0 then 1 else 2 * Pow2(bits - 1)
  }

  lemma Pow2PlusFour(bits: nat)
    ensures Pow2(bits + 4) == 16 * Pow2(bits)
  {
    assert Pow2(bits + 2) == 2 * Pow2(bits + 1);
    assert Pow2(bits + 4) == 2 * Pow2(bits + 3);
  }

  lemma Pow2Of32()
    ensures Pow2(32) == WORDS
  {
    Pow2PlusFour(0);
    Pow2PlusFour(4);
    Pow2PlusFour(8);
    Pow2PlusFour(12);
    Pow2PlusFour(16);
    Pow2PlusFour(20);
    Pow2PlusFour(24);
    Pow2PlusFour(28);
  }

  /** Bit by bit: a bit of the result is set when exactly one of the two is. */
  function Xor(a: nat, b: nat, bits: nat): (x: nat)
    ensures x < Pow2(bits)
  {
    if bits == 0 then 0 else 2 * Xor(a / 2, b / 2, bits - 1) + (a + b) % 2
  }

  /** Bit `k` of a number. */
  function Bit(n: nat, k: nat): nat {
    if k == 0 then n % 2 else Bit(n / 2, k - 1)
  }

  lemma LastBit(a: nat, b: nat, x: nat)
    ensures (2 * x + (a + b) % 2) % 2 == if a % 2 == b % 2 then 0 else 1
  {
  }

  /** It is the exclusive or of the bits. */
  lemma {:induction false} XorIsBitwise(a: nat, b: nat, bits: nat, k: nat)
    requires k < bits
    ensures Bit(Xor(a, b, bits), k) == if Bit(a, k) == Bit(b, k) then 0 else 1
    decreases k
  {
    var x := Xor(a / 2, b / 2, bits - 1);
    Halve(x, (a + b) % 2);
    if k == 0 {
      LastBit(a, b, x);
    } else {
      XorIsBitwise(a / 2, b / 2, bits - 1, k - 1);
    }
  }

  lemma {:induction false} XorUndoesXor(a: nat, b: nat, bits: nat)
    requires a < Pow2(bits)
    ensures Xor(Xor(a, b, bits), b, bits) == a
  {
    if bits == 0 {
    } else {
      var x := Xor(a / 2, b / 2, bits - 1);
      Halve(x, (a + b) % 2);
      XorUndoesXor(a / 2, b / 2, bits - 1);
      TwiceOdd(a, b, x);
      assert Xor(2 * x + (a + b) % 2, b, bits) == 2 * Xor(x, b / 2, bits - 1) + a % 2;
    }
  }

  lemma Halve(x: nat, bit: nat)
    requires bit < 2
    ensures (2 * x + bit) / 2 == x
  {
  }

  lemma TwiceOdd(a: nat, b: nat, x: nat)
    ensures (2 * x + (a + b) % 2 + b) % 2 == a % 2
  {
  }

  lemma {:induction false} XorCommutes(a: nat, b: nat, bits: nat)
    ensures Xor(a, b, bits) == Xor(b, a, bits)
  {
    if bits == 0 {
    } else {
      XorCommutes(a / 2, b / 2, bits - 1);
    }
  }

  function WordXor(h: Word, unit: Unit): Word {
    Pow2Of32();
    Xor(h, unit, 32)
  }

  lemma XorTellsApart(h: Word, g: Word, unit: Unit, other: Unit)
    ensures h != g ==> WordXor(h, unit) != WordXor(g, unit)
    ensures unit != other ==> WordXor(h, unit) != WordXor(h, other)
  {
    Pow2Of32();
    XorUndoesXor(h, unit, 32);
    XorUndoesXor(g, unit, 32);
    XorUndoesXor(unit, h, 32);
    XorUndoesXor(other, h, 32);
    XorCommutes(h, unit, 32);
    XorCommutes(h, other, 32);
  }

  // ----- one pass -----

  /** `Math.imul` by the prime, read as an unsigned word. */
  function Imul(h: Word): Word {
    h * PRIME % WORDS
  }

  /** Multiplying by an odd constant can be undone. */
  lemma ImulIsUndone(h: Word)
    ensures Imul(h) * INVERSE_OF_PRIME % WORDS == h
  {
    var q := h * PRIME / WORDS;
    assert h * PRIME == q * WORDS + Imul(h);
    var k := PRIME * INVERSE_OF_PRIME / WORDS;
    assert PRIME * INVERSE_OF_PRIME == k * WORDS + 1;
    var m := h * k - q * INVERSE_OF_PRIME;
    assert Imul(h) * INVERSE_OF_PRIME == h + m * WORDS;
    RemainderOfSum(h, m);
  }

  lemma RemainderOfSum(h: Word, m: int)
    ensures (h + m * WORDS) % WORDS == h
  {
  }

  function Mix(h: Word, unit: Unit): Word {
    Imul(WordXor(h, unit))
  }

  /** A step permutes the words for each unit, and takes each word to different words for different units. */
  lemma MixTellsApart(h: Word, g: Word, unit: Unit, other: Unit)
    ensures h != g ==> Mix(h, unit) != Mix(g, unit)
    ensures unit != other ==> Mix(h, unit) != Mix(h, other)
  {
    XorTellsApart(h, g, unit, other);
    ImulIsUndone(WordXor(h, unit));
    ImulIsUndone(WordXor(g, unit));
    ImulIsUndone(WordXor(h, other));
  }

  function Pass(h: Word, input: seq<Unit>): Word {
    if input == [] then h else Mix(Pass(h, input[..|input| - 1]), input[|input| - 1])
  }

  /** FNV-1a: from the offset, unit by unit, exclusive or and then a multiplication by the prime. */
  ghost predicate Chain(offset: Word, input: seq<Unit>, words: seq<Word>) {
    && |words| == |input| + 1 && words[0] == offset
    && forall k :: 0 <= k < |input| ==> words[k + 1] == Xor(words[k], input[k], 32) * 16777619 % 0x1_0000_0000
  }

  /** `h` is the 32-bit FNV-1a hash of the input from the offset. */
  ghost predicate IsFnv1a(offset: Word, input: seq<Unit>, h: Word) {
    exists words: seq<Word> :: Chain(offset, input, words) && words[|input|] == h
  }

  lemma {:induction false} PassIsFnv1a(offset: Word, input: seq<Unit>)
    ensures IsFnv1a(offset, input, Pass(offset, input))
  {
    if input == [] {
      assert Chain(offset, input, [offset]);
    } else {
      var front, last := input[..|input| - 1], input[|input| - 1];
      PassIsFnv1a(offset, front);
      var words: seq<Word> :| Chain(offset, front, words) && words[|front|] == Pass(offset, front);
      Pow2Of32();
      assert Chain(offset, input, words + [Pass(offset, input)]);
    }
  }

  method Fnv1a32(input: seq<Unit>, offset: Word) returns (h: Word)
    ensures h == Pass(offset, input) && IsFnv1a(offset, input, h)
  {
    PassIsFnv1a(offset, input);
    h := offset;
    for i := 0 to |input|
      invariant h == Pass(offset, input[..i])
    {
      assert input[..i + 1][..i] == input[..i];
      h := WordXor(h, input[i]);
      h := Imul(h);
    }
    assert input[..|input|] == input;
  }

  lemma {:induction false} PassIsInjective(h: Word, g: Word, input: seq<Unit>)
    requires h != g
    ensures Pass(h, input) != Pass(g, input)
  {
    if input == [] {
    } else {
      var front, last := input[..|input| - 1], input[|input| - 1];
      PassIsInjective(h, g, front);
      MixTellsApart(Pass(h, front), Pass(g, front), last, last);
    }
  }

  lemma {:induction false} PassAppend(h: Word, front: seq<Unit>, rest: seq<Unit>)
    ensures Pass(h, front + rest) == Pass(Pass(h, front), rest)
  {
    if rest == [] {
      assert front + rest == front;
    } else {
      assert (front + rest)[..|front + rest| - 1] == front + rest[..|rest| - 1];
      PassAppend(h, front, rest[..|rest| - 1]);
    }
  }

  /** Inputs of one length that differ in exactly one unit are told apart by either pass. */
  lemma PassTellsUnitsApart(h: Word, input: seq<Unit>, other: seq<Unit>, i: nat)
    requires DifferAt(input, other, i)
    ensures Pass(h, input) != Pass(h, other)
  {
    var front, rest := input[..i], input[i + 1..];
    assert input == front + [input[i]] + rest && other == front + [other[i]] + rest;
    PassAppend(h, front + [input[i]], rest);
    PassAppend(h, front + [other[i]], rest);
    PassOfOneMore(h, front, input[i]);
    PassOfOneMore(h, front, other[i]);
    MixTellsApart(Pass(h, front), Pass(h, front), input[i], other[i]);
    PassIsInjective(Mix(Pass(h, front), input[i]), Mix(Pass(h, front), other[i]), rest);
  }

  lemma PassOfOneMore(h: Word, front: seq<Unit>, unit: Unit)
    ensures Pass(h, front + [unit]) == Mix(Pass(h, front), unit)
  {
    assert (front + [unit])[..|front|] == front;
  }

  predicate DifferAt(input: seq<Unit>, other: seq<Unit>, i: nat) {
    && |input| == |other| && i < |input| && input[i] != other[i]
    && input[..i] == other[..i] && input[i + 1..] == other[i + 1..]
  }

  // ----- hexadecimal digits -----

  const DIGITS: string := "0123456789abcdef"

  predicate IsLowerHex(s: string) {
    forall k :: 0 <= k < |s| ==> s[k] in DIGITS
  }

  /** `toString(16)`: the digits without leading zeros. */
  function ToHex(n: nat): (s: string)
    ensures |s| > 0 && IsLowerHex(s)
  {
    if n < 16 then [DIGITS[n]] else ToHex(n / 16) + [DIGITS[n % 16]]
  }

  function PadStart(s: string, length: nat): (p: string)
    ensures |s| <= length ==> |p| == length
    ensures IsLowerHex(s) ==> IsLowerHex(p)
    decreases length - |s|
  {
    if |s| >= length then s else PadStart("0" + s, length)
  }

  function DigitValue(c: char): nat {
    if '0' <= c <= '9' then c as int - '0' as int
    else if 'a' <= c <= 'f' then c as int - 'a' as int + 10
    else 0
  }

  /** What a string of hex digits is worth. */
  function Value(s: string): nat {
    if s == "" then 0 else 16 * Value(s[..|s| - 1]) + DigitValue(s[|s| - 1])
  }

  lemma DigitWorth(k: nat)
    requires k < 16
    ensures DigitValue(DIGITS[k]) == k
  {
  }

  lemma ValueAppend(s: string, c: char)
    ensures Value(s + [c]) == 16 * Value(s) + DigitValue(c)
  {
    assert (s + [c])[..|s|] == s;
  }

  lemma ValueOfDigit(k: nat)
    requires k < 16
    ensures Value([DIGITS[k]]) == k
  {
    DigitWorth(k);
    ValueAppend("", DIGITS[k]);
    assert "" + [DIGITS[k]] == [DIGITS[k]];
  }

  lemma ValueOfLonger(s: string, q: nat, k: nat)
    requires k < 16 && Value(s) == q
    ensures Value(s + [DIGITS[k]]) == 16 * q + k
  {
    DigitWorth(k);
    ValueAppend(s, DIGITS[k]);
  }

  lemma ToHexEnds(n: nat)
    ensures ToHex(n) == (if n < 16 then [DIGITS[n]] else ToHex(n / 16) + [DIGITS[n % 16]])
    ensures n == 16 * (n / 16) + n % 16
  {
  }

  lemma {:induction false} ValueOfHex(n: nat)
    ensures Value(ToHex(n)) == n
  {
    ToHexEnds(n);
    if n < 16 {
      ValueOfDigit(n);
    } else {
      ValueOfHex(n / 16);
      ValueOfLonger(ToHex(n / 16), n / 16, n % 16);
    }
  }

  lemma {:induction false} HexLength(n: nat, bits: nat)
    requires bits > 0 && n < Pow2(4 * bits)
    ensures |ToHex(n)| <= bits
  {
    if n >= 16 {
      Pow2PlusFour(4 * bits - 4);
      HexLength(n / 16, bits - 1);
    }
  }

  lemma {:induction false} ValueOfZero(s: string)
    ensures Value("0" + s) == Value(s)
  {
    if s == "" {
    } else {
      assert ("0" + s)[..|s|] == "0" + s[..|s| - 1];
      ValueOfZero(s[..|s| - 1]);
    }
  }

  lemma {:induction false} ValueOfPadded(s: string, length: nat)
    ensures Value(PadStart(s, length)) == Value(s)
    decreases length - |s|
  {
    if |s| < length {
      ValueOfZero(s);
      ValueOfPadded("0" + s, length);
    }
  }

  function Hex8(h: Word): string {
    PadStart(ToHex(h), 8)
  }

  /** Eight lowercase hex digits that are worth `h`. */
  lemma Hex8OfWord(h: Word)
    ensures |Hex8(h)| == 8 && IsLowerHex(Hex8(h)) && Value(Hex8(h)) == h
  {
    Pow2Of32();
    HexLength(h, 8);
    ValueOfHex(h);
    ValueOfPadded(ToHex(h), 8);
  }

  // ----- the hash -----

  function Hash(input: seq<Unit>): string {
    Hex8(Pass(LO_OFFSET, input)) + Hex8(Pass(HI_OFFSET, input))
  }

  method FnvHash(input: seq<Unit>) returns (hash: string)
    ensures hash == Hash(input) && |hash| == 16
    ensures exists lo, hi ::
              && IsFnv1a(0x811c9dc5, input, lo) && Value(hash[..8]) == lo
              && IsFnv1a(0x27d4eb2f, input, hi) && Value(hash[8..]) == hi
  {
    Halves(input);
    var lo := Fnv1a32(input, LO_OFFSET);
    var hi := Fnv1a32(input, HI_OFFSET);
    hash := PadStart(ToHex(lo), 8) + PadStart(ToHex(hi), 8);
  }

  lemma Halves(input: seq<Unit>)
    ensures |Hash(input)| == 16 && IsLowerHex(Hash(input))
    ensures Value(Hash(input)[..8]) == Pass(LO_OFFSET, input)
    ensures Value(Hash(input)[8..]) == Pass(HI_OFFSET, input)
  {
    Hex8OfWord(Pass(LO_OFFSET, input));
    Hex8OfWord(Pass(HI_OFFSET, input));
    assert Hash(input)[..8] == Hex8(Pass(LO_OFFSET, input)) && Hash(input)[8..] == Hex8(Pass(HI_OFFSET, input));
  }

  /** Sixteen lowercase hex digits, and the two halves are never the same. */
  lemma HalvesAlwaysDiffer(input: seq<Unit>)
    ensures |Hash(input)| == 16 && IsLowerHex(Hash(input))
    ensures Hash(input)[..8] != Hash(input)[8..]
  {
    Halves(input);
    PassIsInjective(LO_OFFSET, HI_OFFSET, input);
  }

  /** Inputs of one length that differ in exactly one unit differ in both halves of their hashes. */
  lemma OneUnitChangesBothHalves(input: seq<Unit>, other: seq<Unit>, i: nat)
    requires DifferAt(input, other, i)
    ensures |Hash(input)| == |Hash(other)| == 16
    ensures Hash(input)[..8] != Hash(other)[..8] && Hash(input)[8..] != Hash(other)[8..]
  {
    Halves(input);
    Halves(other);
    PassTellsUnitsApart(LO_OFFSET, input, other, i);
    PassTellsUnitsApart(HI_OFFSET, input, other, i);
  }
}
