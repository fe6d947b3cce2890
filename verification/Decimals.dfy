/** Fixed-width decimal text. */
module Decimals {
  import opened Options

  predicate IsDigit(c: char) { '0' <= c <= '9' }

  ghost predicate AllDigits(s: string) { forall i :: 0 <= i < |s| ==> IsDigit(s[i]) }

  function DigitOf(c: char): nat
    requires IsDigit(c)
  {
    c as int - '0' as int
  }

  function DigitChar(d: nat): char
    requires d < 10
  {
    ('0' as int + d) as char
  }

  function Pow10(n: nat): nat { if n == 0 then 1 else 10 * Pow10(n - 1) }

  /** The number a string of digits denotes. */
  function Value(s: string): nat
    requires AllDigits(s)
  {
    if s == [] then 0 else 10 * Value(s[..|s| - 1]) + DigitOf(s[|s| - 1])
  }

  /** `n` in `width` digits, zero-padded on the left. */
  function Pad(n: nat, width: nat): string {
    if width == 0 then "" else Pad(n / 10, width - 1) + [DigitChar(n % 10)]
  }

  /** `n` in as many digits as it needs. */
  function Show(n: nat): string {
    if n < 10 then [DigitChar(n)] else Show(n / 10) + [DigitChar(n % 10)]
  }

  /** Digits, with single underscores allowed between them. */
  function ReadDigits(s: string): Option<nat> {
    var n := |s| - 1;
    if n < 0 || !IsDigit(s[n]) then None
    else if n == 0 then Some(DigitOf(s[0]))
    else
      var front := ReadDigits(if s[n - 1] == '_' then s[..n - 1] else s[..n]);
      if front.None? then None else Some(10 * front.value + DigitOf(s[n]))
  }

  predicate IsBlank(c: char) { c == ' ' || 9 <= c as int <= 13 }

  function SkipBlanks(s: string): string { if s != [] && IsBlank(s[0]) then SkipBlanks(s[1..]) else s }

  function DropBlanks(s: string): string {
    if s != [] && IsBlank(s[|s| - 1]) then DropBlanks(s[..|s| - 1]) else s
  }

  /** Python's `int` of ASCII text: blanks around it, a sign, digits; an exception is `None`. */
  function PyInt(s: string): Option<int> {
    var t := DropBlanks(SkipBlanks(s));
    if t != [] && t[0] in {'+', '-'} then
      var n := ReadDigits(t[1..]);
      if n.None? then None else if t[0] == '-' then Some(0 - n.value) else Some(n.value)
    else
      var n := ReadDigits(t);
      if n.None? then None else Some(n.value)
  }

  lemma {:induction false} ReadsDigits(s: string)
    requires AllDigits(s) && s != []
    ensures ReadDigits(s) == Some(Value(s))
  {
    var n := |s| - 1;
    if n > 0 {
      ReadsDigits(s[..n]);
      assert IsDigit(s[n - 1]) && s[n - 1] != '_';
    } else {
      assert s[..0] == [];
      assert Value(s[..0]) == 0;
    }
  }

  lemma PyIntDigits(s: string)
    requires AllDigits(s) && s != []
    ensures PyInt(s) == Some(Value(s))
  {
    assert IsDigit(s[0]) && IsDigit(s[|s| - 1]);
    assert DropBlanks(SkipBlanks(s)) == s;
    hide ReadDigits, Value;
    ReadsDigits(s);
  }

  /** Printing with enough digits and reading back gives the number. */
  lemma {:induction false} PadValue(n: nat, width: nat)
    requires n < Pow10(width)
    ensures |Pad(n, width)| == width && AllDigits(Pad(n, width)) && Value(Pad(n, width)) == n
  {
    if width > 0 {
      PadValue(n / 10, width - 1);
      var front := Pad(n / 10, width - 1);
      assert Pad(n, width)[..|Pad(n, width)| - 1] == front;
    }
  }

  /** Reading digits and printing them in the same width gives the text back. */
  lemma {:induction false} ValuePad(s: string)
    requires AllDigits(s)
    ensures Value(s) < Pow10(|s|) && Pad(Value(s), |s|) == s
  {
    if s != [] {
      ValuePad(s[..|s| - 1]);
      assert s == s[..|s| - 1] + [s[|s| - 1]];
    }
  }

  lemma {:induction false} ValueAppend(s: string, t: string)
    requires AllDigits(s) && AllDigits(t)
    ensures AllDigits(s + t) && Value(s + t) == Value(s) * Pow10(|t|) + Value(t)
  {
    if t == [] {
      assert s + t == s;
    } else {
      var n := |t| - 1;
      ValueAppend(s, t[..n]);
      assert (s + t)[..|s + t| - 1] == s + t[..n];
      var v, w, d := Value(s), Value(t[..n]), DigitOf(t[n]);
      assert Value(s + t) == 10 * Value(s + t[..n]) + d;
      assert Value(t) == 10 * w + d && Pow10(n + 1) == 10 * Pow10(n);
      hide *;
      Shift(v, Pow10(n), w, d);
    }
  }

  lemma Shift(v: nat, p: nat, w: nat, d: nat)
    ensures 10 * (v * p + w) + d == v * (10 * p) + (10 * w + d)
  {
  }
}
