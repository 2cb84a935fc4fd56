/** Numbers written in decimal and read back at a fixed width. */
module Decimal {
  import opened Wrappers

  predicate IsDigit(c: char) {
    '0' <= c <= '9'
  }

  predicate AllDigits(s: string) {
    forall i :: 0 <= i < |s| ==> IsDigit(s[i])
  }

  function DigitsValue(s: string): nat
    requires AllDigits(s)
  {
    if s == "" then 0 else DigitsValue(s[..|s| - 1]) * 10 + (s[|s| - 1] as int - '0' as int)
  }

  /** A number as a fixed-width parse reads it: digits, at least one, after at most one
      plus sign, and nothing past the width. */
  function ParseUnsigned(s: string, max: nat): Option<nat> {
    var digits := if s != "" && s[0] == '+' then s[1..] else s;
    if digits == "" || !AllDigits(digits) || DigitsValue(digits) > max then None else Some(DigitsValue(digits))
  }

  function Digit(n: nat): (c: char)
    requires n < 10
    ensures IsDigit(c) && c as int == '0' as int + n
  {
    ('0' as int + n) as char
  }

  function Digits(n: nat): (s: string)
    ensures s != "" && AllDigits(s)
  {
    if n < 10 then [Digit(n)] else Digits(n / 10) + [Digit(n % 10)]
  }

  lemma {:induction false} DigitsValueOfDigits(n: nat)
    ensures DigitsValue(Digits(n)) == n
  {
    if n >= 10 {
      DigitsValueOfDigits(n / 10);
      var s := Digits(n);
      assert s[..|s| - 1] == Digits(n / 10);
    }
  }

  /** A number written and read back is itself, as long as it fits. */
  lemma ParseOfDigits(n: nat, max: nat)
    ensures ParseUnsigned(Digits(n), max) == if n <= max then Some(n) else None
  {
    DigitsValueOfDigits(n);
  }

  // ------------------------------------------------------------- what a parse accepts

  /** Digits without leading zeros, one digit at least. */
  function Unpadded(s: string): string {
    if |s| > 1 && s[0] == '0' then Unpadded(s[1..]) else s
  }

  /** A text that states a number: its decimal digits, zeros before them and one plus
      sign before those allowed. */
  predicate Writes(s: string, n: nat) {
    Unpadded(if s != "" && s[0] == '+' then s[1..] else s) == Digits(n)
  }

  lemma {:induction false} UnpaddedValue(s: string)
    requires s != ""
    ensures Unpadded(s) != "" && (AllDigits(Unpadded(s)) <==> AllDigits(s))
    ensures AllDigits(s) ==> DigitsValue(Unpadded(s)) == DigitsValue(s)
    decreases |s|
  {
    if |s| > 1 && s[0] == '0' {
      UnpaddedValue(s[1..]);
      assert AllDigits(s[1..]) ==> AllDigits(s);
      if AllDigits(s) {
        ZeroInFront(s);
      }
    }
  }

  lemma {:induction false} ZeroInFront(s: string)
    requires s != "" && s[0] == '0' && AllDigits(s)
    ensures DigitsValue(s[1..]) == DigitsValue(s)
    decreases |s|
  {
    if |s| > 1 {
      var front := s[..|s| - 1];
      ZeroInFront(front);
      assert s[1..][..|s| - 2] == front[1..];
    } else {
      assert s[..0] == "";
    }
  }

  /** Digits that do not start with a needless zero are those of their value. */
  lemma {:induction false} DigitsOfValue(s: string)
    requires s != "" && AllDigits(s) && (|s| > 1 ==> s[0] != '0')
    ensures Digits(DigitsValue(s)) == s
    ensures |s| > 1 ==> DigitsValue(s) >= 10
    decreases |s|
  {
    var front, d := s[..|s| - 1], s[|s| - 1] as int - '0' as int;
    if |s| == 1 {
      assert front == "" && DigitsValue(s) == d;
    } else {
      DigitsOfValue(front);
      assert DigitsValue(front) >= 1;
      assert DigitsValue(s) / 10 == DigitsValue(front) && DigitsValue(s) % 10 == d;
      assert Digits(DigitsValue(s)) == front + [s[|s| - 1]];
    }
  }

  lemma {:induction false} UnpaddedStart(s: string)
    ensures |Unpadded(s)| > 1 ==> Unpadded(s)[0] != '0'
    decreases |s|
  {
    if |s| > 1 && s[0] == '0' {
      UnpaddedStart(s[1..]);
    }
  }

  /** A fixed-width parse reads exactly the texts that state a number within the width,
      and reads the number they state. */
  lemma ParseIsReading(s: string, n: nat, max: nat)
    ensures ParseUnsigned(s, max) == Some(n) <==> Writes(s, n) && n <= max
  {
    var digits := if s != "" && s[0] == '+' then s[1..] else s;
    DigitsValueOfDigits(n);
    if digits != "" {
      UnpaddedValue(digits);
      UnpaddedStart(digits);
      if AllDigits(digits) {
        DigitsOfValue(Unpadded(digits));
      }
    }
  }
}
