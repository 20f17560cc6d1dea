/** Numeric literals: decimal, `0x` and `0b`, with underscores anywhere between the digits. */
module Literals {
  import opened Words

  predicate IsDigit(c: char, radix: nat) {
    DigitValue(c).Some? && DigitValue(c).value < radix
  }

  function DigitValue(c: char): Option<nat> {
    if '0' <= c <= '9' then Some(c as int - '0' as int)
    else if 'a' <= c <= 'f' then Some(c as int - 'a' as int + 10)
    else if 'A' <= c <= 'F' then Some(c as int - 'A' as int + 10)
    else None
  }

  predicate IsDigits(s: string, radix: nat) {
    forall k :: 0 <= k < |s| ==> IsDigit(s[k], radix)
  }

  /** The number a digit string denotes. */
  function Value(s: string, radix: nat): nat
    requires IsDigits(s, radix)
  {
    if s == [] then 0 else Value(s[..|s| - 1], radix) * radix + DigitValue(s[|s| - 1]).value
  }

  /** What the conversion of a digit string to 32 bits gives: nothing when it is empty or too big. */
  function Convert(s: string, radix: nat): Option<Word>
    requires IsDigits(s, radix)
  {
    if s == [] || Value(s, radix) >= WORD_LIMIT then None else Some(Value(s, radix))
  }

  /** How far the digits and underscores at the start reach. */
  function Span(cs: string, radix: nat): (n: nat)
    ensures n <= |cs| && (n < |cs| ==> cs[n] != '_' && !IsDigit(cs[n], radix))
    ensures forall k :: 0 <= k < n ==> cs[k] == '_' || IsDigit(cs[k], radix)
  {
    if cs != [] && (cs[0] == '_' || IsDigit(cs[0], radix)) then 1 + Span(cs[1..], radix) else 0
  }

  function Strip(cs: string): string {
    if cs == [] then [] else (if cs[0] == '_' then [] else [cs[0]]) + Strip(cs[1..])
  }

  lemma {:induction false} StripDigits(cs: string, radix: nat)
    requires forall k :: 0 <= k < |cs| ==> cs[k] == '_' || IsDigit(cs[k], radix)
    ensures IsDigits(Strip(cs), radix)
  {
    if cs != [] {
      StripDigits(cs[1..], radix);
    }
  }

  datatype Read = Read(w: Option<Word>, rest: string)

  /** The digits and underscores at the start as a number; done are digits already taken. */
  function ReadDigits(done: string, cs: string, radix: nat): Read
    requires IsDigits(done, radix)
  {
    var n := Span(cs, radix);
    StripDigits(cs[..n], radix);
    Read(Convert(done + Strip(cs[..n]), radix), cs[n..])
  }

  /** A literal whose first digit c has been taken. */
  function ReadNumber(c: char, cs: string): Read
    requires IsDigit(c, 10)
  {
    if c == '0' && cs != [] && cs[0] == 'x' then ReadDigits([], cs[1..], 16)
    else if c == '0' && cs != [] && cs[0] == 'b' then ReadDigits([], cs[1..], 2)
    else ReadDigits([c], cs, 10)
  }

  class Lexer {
    var chars: string

    constructor FromText(text: string)
      ensures chars == text
    {
      chars := text;
    }

    method NextChar()
      requires chars != []
      modifies this
      ensures chars == old(chars)[1..]
    {
      chars := chars[1..];
    }

    /** Takes digits and underscores as long as there are any. */
    method ParseDigits(start: string, radix: nat) returns (w: Option<Word>)
      requires IsDigits(start, radix)
      modifies this
      ensures Read(w, chars) == ReadDigits(start, old(chars), radix)
    {
      var digits := start;
      ghost var cs := chars;
      ghost var n := 0;
      while chars != [] && (chars[0] == '_' || IsDigit(chars[0], radix))
        invariant n <= |cs| && chars == cs[n..] && IsDigits(digits, radix)
        invariant Span(cs, radix) == n + Span(chars, radix)
        invariant digits == start + Strip(cs[..n])
        decreases |chars|
      {
        StripNext(cs, n);
        if chars[0] != '_' {
          digits := digits + [chars[0]];
        }
        NextChar();
        n := n + 1;
      }
      w := Convert(digits, radix);
    }

    method Number(c: char) returns (w: Option<Word>)
      requires IsDigit(c, 10)
      modifies this
      ensures Read(w, chars) == ReadNumber(c, old(chars))
    {
      if c == '0' && chars != [] && chars[0] == 'x' {
        NextChar();
        w := ParseDigits([], 16);
      } else if c == '0' && chars != [] && chars[0] == 'b' {
        NextChar();
        w := ParseDigits([], 2);
      } else {
        w := ParseDigits([c], 10);
      }
    }
  }

  lemma {:induction false} StripNext(cs: string, n: nat)
    requires n < |cs|
    ensures Strip(cs[..n + 1]) == Strip(cs[..n]) + (if cs[n] == '_' then [] else [cs[n]])
    decreases n
  {
    if n > 0 {
      StripNext(cs[1..], n - 1);
      assert cs[..n + 1][1..] == cs[1..][..n];
      assert cs[..n][1..] == cs[1..][..n - 1];
    }
  }

  // ---------------------------------------------------------------- writing literals

  function DigitChar(d: nat): char
    requires d < 16
  {
    if d < 10 then ('0' as int + d) as char else ('A' as int + d - 10) as char
  }

  lemma DigitOf(d: nat, radix: nat)
    requires d < radix <= 16
    ensures IsDigit(DigitChar(d), radix) && DigitValue(DigitChar(d)) == Some(d)
  {
  }

  lemma DivMod(w: nat, radix: nat)
    requires 2 <= radix
    ensures w == w / radix * radix + w % radix && w % radix < radix
    ensures w >= radix ==> w / radix < w
  {
    var q := w / radix;
    if w >= radix {
      assert q >= 1;
      assert q * radix >= q * 2;
    }
  }

  /** The digits of w, without leading zeros. */
  function Digits(w: nat, radix: nat): (s: string)
    requires 2 <= radix <= 16
    ensures |s| > 0 && IsDigits(s, radix)
    decreases w
  {
    DivMod(w, radix);
    DigitOf(w % radix, radix);
    if w < radix then
      DigitOf(w, radix);
      [DigitChar(w)]
    else Digits(w / radix, radix) + [DigitChar(w % radix)]
  }

  lemma {:induction false} DigitsValue(w: nat, radix: nat)
    requires 2 <= radix <= 16
    ensures Value(Digits(w, radix), radix) == w
    decreases w
  {
    hide DigitChar, DigitValue;
    DivMod(w, radix);
    if w >= radix {
      DigitsValue(w / radix, radix);
      DigitOf(w % radix, radix);
      LastDigit(Digits(w / radix, radix), w % radix, radix);
    } else {
      DigitOf(w, radix);
      LastDigit([], w, radix);
      assert [] + [DigitChar(w)] == [DigitChar(w)];
    }
  }

  lemma LastDigit(s: string, d: nat, radix: nat)
    requires d < radix <= 16 && IsDigits(s, radix)
    ensures IsDigits(s + [DigitChar(d)], radix) && Value(s + [DigitChar(d)], radix) == Value(s, radix) * radix + d
  {
    hide DigitChar, DigitValue;
    DigitOf(d, radix);
    var t := s + [DigitChar(d)];
    assert t[..|t| - 1] == s && t[|t| - 1] == DigitChar(d);
  }

  /** The text is a spelling of w: once the underscores are dropped, digits of that value are
      left, in either case and with any number of leading zeros. */
  predicate Spells(text: string, w: Word, radix: nat) {
    && Span(text, radix) == |text|
    && IsDigits(Strip(text), radix) && Strip(text) != [] && Value(Strip(text), radix) == w
  }

  lemma {:induction false} PlainDigits(s: string, radix: nat)
    requires IsDigits(s, radix)
    ensures Strip(s) == s && Span(s, radix) == |s|
  {
    hide DigitValue;
    if s != [] {
      assert IsDigit(s[0], radix) && s[0] != '_' by {
        NoUnderscore(s[0], radix);
      }
      PlainDigits(s[1..], radix);
    }
  }

  lemma NoUnderscore(c: char, radix: nat)
    requires IsDigit(c, radix)
    ensures c != '_'
  {
  }

  /** Every word has a spelling. */
  lemma DigitsSpell(w: Word, radix: nat)
    requires 2 <= radix <= 16
    ensures Spells(Digits(w, radix), w, radix)
  {
    DigitsValue(w, radix);
    PlainDigits(Digits(w, radix), radix);
  }

  lemma {:induction false} SpanStops(text: string, rest: string, radix: nat)
    requires Span(text, radix) == |text|
    requires rest == [] || (rest[0] != '_' && !IsDigit(rest[0], radix))
    ensures Span(text + rest, radix) == |text|
    decreases |text|
  {
    if text == [] {
      assert text + rest == rest;
    } else {
      SpanStops(text[1..], rest, radix);
      assert (text + rest)[1..] == text[1..] + rest;
    }
  }

  lemma ReadsSpelled(done: string, text: string, rest: string, w: Word, radix: nat)
    requires IsDigits(done, radix) && IsDigits(done + Strip(text), radix)
    requires Span(text, radix) == |text| && done + Strip(text) != [] && Value(done + Strip(text), radix) == w
    requires rest == [] || (rest[0] != '_' && !IsDigit(rest[0], radix))
    ensures ReadDigits(done, text + rest, radix) == Read(Some(w), rest)
  {
    SpanStops(text, rest, radix);
    assert (text + rest)[..|text|] == text && (text + rest)[|text|..] == rest;
  }

  lemma PrefixedReadsBack(w: Word, mark: char, radix: nat, text: string, rest: string)
    requires (mark == 'x' && radix == 16) || (mark == 'b' && radix == 2)
    requires Spells(text, w, radix) && Ends(rest, radix)
    ensures ReadNumber('0', [mark] + text + rest) == Read(Some(w), rest)
  {
    hide ReadDigits;
    assert ([mark] + text + rest)[1..] == text + rest;
    assert [] + Strip(text) == Strip(text);
    ReadsSpelled([], text, rest, w, radix);
  }

  /** What follows does not go on with the number. */
  predicate Ends(rest: string, radix: nat) {
    rest == [] || (rest[0] != '_' && !IsDigit(rest[0], radix))
  }

  lemma DecimalReadsBack(w: Word, text: string, rest: string)
    requires text != [] && Spells(text, w, 10) && text[0] != '_' && Ends(rest, 10)
    requires rest == [] || text != ['0'] || (rest[0] != 'x' && rest[0] != 'b')
    ensures ReadNumber(text[0], text[1..] + rest) == Read(Some(w), rest)
  {
    hide ReadDigits, Value, DigitValue, Span;
    var cs := text[1..] + rest;
    assert text == [text[0]] + text[1..];
    if text[1..] != [] {
      assert cs[0] == text[1] && (text[1] == '_' || IsDigit(text[1], 10));
      NoMark(text[1]);
    } else {
      assert cs == rest;
    }
    assert [text[0]] + Strip(text[1..]) == Strip(text);
    TailSpan(text, 10);
    ReadsSpelled([text[0]], text[1..], rest, w, 10);
  }

  lemma NoMark(c: char)
    ensures c == '_' || IsDigit(c, 10) ==> c != 'x' && c != 'b'
  {
  }

  lemma TailSpan(text: string, radix: nat)
    requires text != [] && Span(text, radix) == |text|
    ensures Span(text[1..], radix) == |text| - 1
    ensures text[0] != '_' ==> IsDigits([text[0]], radix)
  {
  }

  /** Every word is read back from each of its hexadecimal, binary and decimal spellings, whatever
      follows that does not go on with it; a decimal zero alone must not be followed by the mark
      of another radix. */
  lemma NumberReadsBack(w: Word, text: string, rest: string)
    ensures Spells(text, w, 16) && Ends(rest, 16) ==> ReadNumber('0', ['x'] + text + rest) == Read(Some(w), rest)
    ensures Spells(text, w, 2) && Ends(rest, 2) ==> ReadNumber('0', ['b'] + text + rest) == Read(Some(w), rest)
    ensures text != [] && Spells(text, w, 10) && text[0] != '_' && Ends(rest, 10)
            && (rest == [] || text != ['0'] || (rest[0] != 'x' && rest[0] != 'b')) ==>
              ReadNumber(text[0], text[1..] + rest) == Read(Some(w), rest)
  {
    hide ReadNumber, Spells, Ends;
    if Spells(text, w, 16) && Ends(rest, 16) {
      PrefixedReadsBack(w, 'x', 16, text, rest);
    }
    if Spells(text, w, 2) && Ends(rest, 2) {
      PrefixedReadsBack(w, 'b', 2, text, rest);
    }
    if text != [] && Spells(text, w, 10) && text[0] != '_' && Ends(rest, 10) {
      if rest == [] || text != ['0'] || (rest[0] != 'x' && rest[0] != 'b') {
        DecimalReadsBack(w, text, rest);
      }
    }
  }

  // ---------------------------------------------------------------- what digits are worth

  /** The digits, by value, in both cases. */
  const LOWER_DIGITS: string := "0123456789abcdef"
  const UPPER_DIGITS: string := "0123456789ABCDEF"

  /** A character has digit value d exactly when it is digit d in one of the two cases. */
  lemma DigitTable(c: char, d: nat)
    ensures DigitValue(c) == Some(d) <==> d < 16 && (c == LOWER_DIGITS[d] || c == UPPER_DIGITS[d])
  {
    if d < 10 {
      DecimalDigit(d);
    } else if d < 16 {
      LetterDigit(d);
    }
  }

  lemma DecimalDigit(d: nat)
    requires d < 10
    ensures LOWER_DIGITS[d] == UPPER_DIGITS[d] == '0' + d as char
  {
  }

  lemma LetterDigit(d: nat)
    requires 10 <= d < 16
    ensures LOWER_DIGITS[d] == 'a' + (d - 10) as char && UPPER_DIGITS[d] == 'A' + (d - 10) as char
  {
  }

  /** The digit in lower case. */
  function Lower(c: char): char {
    if 'A' <= c <= 'F' then 'a' + (c - 'A') else c
  }

  function LowerCase(s: string): (t: string)
    ensures |t| == |s|
  {
    if s == [] then [] else LowerCase(s[..|s| - 1]) + [Lower(s[|s| - 1])]
  }

  lemma LowerDigit(c: char, radix: nat)
    ensures DigitValue(Lower(c)) == DigitValue(c)
    ensures IsDigit(c, radix) ==> DigitValue(c).value < 16 && Lower(c) == LOWER_DIGITS[DigitValue(c).value]
  {
    if DigitValue(c).Some? {
      DigitTable(c, DigitValue(c).value);
      DigitTable(Lower(c), DigitValue(c).value);
    }
  }

  /** The case of the digits does not matter. */
  lemma {:induction false} CaseDoesNotMatter(s: string, radix: nat)
    requires IsDigits(s, radix)
    ensures IsDigits(LowerCase(s), radix) && Value(LowerCase(s), radix) == Value(s, radix)
  {
    hide DigitValue, Lower;
    if s != [] {
      var n := |s| - 1;
      CaseDoesNotMatter(s[..n], radix);
      LowerDigit(s[n], radix);
      assert LowerCase(s)[..n] == LowerCase(s[..n]) && LowerCase(s)[n] == Lower(s[n]);
      assert IsDigit(s[n], radix);
    }
  }

  function Power(radix: nat, n: nat): nat {
    if n == 0 then 1 else radix * Power(radix, n - 1)
  }

  /** Digits further to the left are worth more: each one radix times the one behind it. */
  lemma {:induction false} HighDigitsFirst(s: string, t: string, radix: nat)
    requires IsDigits(s, radix) && IsDigits(t, radix)
    ensures IsDigits(s + t, radix) && Value(s + t, radix) == Value(s, radix) * Power(radix, |t|) + Value(t, radix)
    decreases |t|
  {
    hide DigitValue;
    var n := |t| - 1;
    if t == [] {
      assert s + t == s;
    } else {
      var front := t[..n];
      HighDigitsFirst(s, front, radix);
      assert (s + t)[..|s + t| - 1] == s + front;
      Shifted(Value(s, radix), Power(radix, n), Value(front, radix), radix);
    }
  }

  lemma Shifted(x: nat, p: nat, y: nat, radix: nat)
    ensures (x * p + y) * radix == x * (radix * p) + y * radix
  {
  }

  lemma OneDigit(c: char, radix: nat)
    requires IsDigit(c, radix)
    ensures Value([c], radix) == DigitValue(c).value
  {
    hide DigitValue;
    assert [c][..0] == [] && [c][0] == c;
  }

  /** A lower-case hexadecimal spelling of w reads as w. */
  lemma LowerCaseReadsBack(w: Word, rest: string)
    requires Ends(rest, 16)
    ensures ReadNumber('0', ['x'] + LowerCase(Digits(w, 16)) + rest) == Read(Some(w), rest)
    ensures ReadNumber('0', ['x'] + Digits(w, 16) + rest) == Read(Some(w), rest)
  {
    hide ReadNumber, DigitValue, Ends;
    var text := LowerCase(Digits(w, 16));
    CaseDoesNotMatter(Digits(w, 16), 16);
    DigitsValue(w, 16);
    PlainDigits(text, 16);
    NumberReadsBack(w, text, rest);
    DigitsSpell(w, 16);
    NumberReadsBack(w, Digits(w, 16), rest);
  }

  /** Digits are taken to their end, and are no number when there are none but underscores or when
      they denote 2^32 or more. */
  lemma NotANumber(done: string, text: string, rest: string, radix: nat)
    requires IsDigits(done, radix) && Span(text, radix) == |text| && IsDigits(done + Strip(text), radix)
    requires done + Strip(text) == [] || Value(done + Strip(text), radix) >= 0x1_0000_0000
    requires Ends(rest, radix)
    ensures ReadDigits(done, text + rest, radix) == Read(None, rest)
  {
    hide Value, DigitValue, Strip, Span;
    SpanStops(text, rest, radix);
    assert (text + rest)[..|text|] == text && (text + rest)[|text|..] == rest;
  }
}
