/**
 The decimal text of an `i64`: what `to_string` prints and `parse::<i64>` reads. The staking program
 keeps every timestamp and counter in this form.
 */
module Decimal {
  import opened Rust

  function DigitChar(d: nat): char
    requires d < 10
  {
    '0' + d as char
  }

  predicate IsDigit(c: char) { '0' <= c <= '9' }

  function DigitValue(c: char): nat
    requires IsDigit(c)
  {
    (c - '0') as nat
  }

  /** The digits of `n`, most significant first, with no leading zero unless `n` is zero. */
  function Digits(n: nat): (s: string)
    ensures |s| > 0 && forall c <- s :: IsDigit(c)
  {
    if n < 10 then [DigitChar(n)] else Digits(n / 10) + [DigitChar(n % 10)]
  }

  function ToText(n: int): string {
    if n < 0 then "-" + Digits(-n) else Digits(n)
  }

  /** The value of a run of digits; anything else is refused. Leading zeros are read. */
  function ParseDigits(s: string): Option<nat> {
    if s == [] then Some(0)
    else
      var last := s[|s| - 1];
      match ParseDigits(s[..|s| - 1])
      case None => None
      case Some(high) => if IsDigit(last) then Some(10 * high + DigitValue(last)) else None
  }

  /** `parse::<i64>`: an optional sign, at least one digit, and a value in range. */
  function ParseI64(s: string): Option<i64> {
    if s == "" then None
    else
      var signed := s[0] == '-' || s[0] == '+';
      var digits := if signed then s[1..] else s;
      if digits == "" then None
      else
        match ParseDigits(digits)
        case None => None
        case Some(v) =>
          var n := if s[0] == '-' then 0 - v as int else v as int;
          if FitsI64(n) then Some(n) else None
  }

  lemma {:induction false} DigitsRoundTrip(n: nat)
    ensures ParseDigits(Digits(n)) == Some(n)
  {
    if n < 10 {
      assert Digits(n)[..0] == [];
    } else {
      DigitsRoundTrip(n / 10);
      assert Digits(n)[..|Digits(n)| - 1] == Digits(n / 10);
    }
  }

  /** Printed text parses back exactly when the number is an `i64`. */
  lemma RoundTripExactly(n: int)
    ensures ParseI64(ToText(n)) == (if FitsI64(n) then Some(n) else None)
  {
    if n < 0 {
      DigitsRoundTrip(-n);
      assert ToText(n)[1..] == Digits(-n);
    } else {
      DigitsRoundTrip(n);
      assert IsDigit(Digits(n)[0]);
    }
  }

  /** Printing and then parsing gives back every `i64`, the minimum and the negatives included. */
  lemma RoundTrip(n: i64)
    ensures ParseI64(ToText(n)) == Some(n)
  {
    RoundTripExactly(n);
  }

  // ---------------------------------------------------------------- which texts are written and read

  predicate OnlyDigits(s: string) {
    forall i | 0 <= i < |s| :: '0' <= s[i] <= '9'
  }

  predicate AllDigits(s: string) {
    s != "" && OnlyDigits(s)
  }

  /** The value of a run of digits by their positions. */
  function Positional(s: string): nat
    requires OnlyDigits(s)
  {
    if s == "" then 0 else (s[0] - '0') as nat * Pow10(|s| - 1) + Positional(s[1..])
  }

  lemma {:induction false} PositionalPush(s: string, c: char)
    requires OnlyDigits(s) && '0' <= c <= '9'
    ensures OnlyDigits(s + [c]) && Positional(s + [c]) == 10 * Positional(s) + (c - '0') as nat
    decreases |s|
  {
    var all := s + [c];
    if s == "" {
      assert all[1..] == "" && all[0] == c;
      PowersOfTen(0, 0);
    } else {
      assert all[1..] == s[1..] + [c] && all[0] == s[0];
      PositionalPush(s[1..], c);
      PowersOfTen(1, |s| - 1);
      Regroup((s[0] - '0') as nat, Pow10(|s| - 1));
    }
  }

  lemma Regroup(d: nat, p: nat)
    ensures d * (10 * p) == 10 * (d * p)
  {
  }

  lemma {:induction false} ParsePositional(s: string)
    ensures ParseDigits(s) == if OnlyDigits(s) then Some(Positional(s)) else None
    decreases |s|
  {
    if s != "" {
      var front, last := s[..|s| - 1], s[|s| - 1];
      assert s == front + [last];
      ParsePositional(front);
      if OnlyDigits(s) {
        PositionalPush(front, last);
      } else if OnlyDigits(front) {
        assert forall i | 0 <= i < |front| :: s[i] == front[i];
      }
    }
  }

  function InRange(n: int): Option<i64> {
    if I64_MIN <= n <= I64_MAX then Some(n) else None
  }

  /**
   Exactly which texts are read as numbers, and as which: one or more digits, leading zeros allowed, behind at
   most one '+' or '-', with a value in the range of an i64.
   */
  lemma ParseExactly(s: string)
    ensures AllDigits(s) ==> ParseI64(s) == InRange(Positional(s))
    ensures s != "" && s[0] == '+' && AllDigits(s[1..]) ==> ParseI64(s) == InRange(Positional(s[1..]))
    ensures s != "" && s[0] == '-' && AllDigits(s[1..]) ==> ParseI64(s) == InRange(0 - Positional(s[1..]) as int)
    ensures !AllDigits(s) && (s == "" || s[0] !in {'+', '-'} || !AllDigits(s[1..])) ==> ParseI64(s) == None
  {
    if s != "" {
      ParsePositional(s);
      ParsePositional(s[1..]);
      hide ParseDigits, Positional;
    }
  }

  /** Decimal text without superfluous characters: no plus sign, no leading zero, no minus zero. */
  predicate Canonical(s: string) {
    && s != ""
    && var digits := if s[0] == '-' then s[1..] else s;
       AllDigits(digits) && (digits[0] == '0' ==> s == "0")
  }

  lemma {:induction false} DigitsCanonical(n: nat)
    ensures AllDigits(Digits(n)) && (Digits(n)[0] == '0' <==> n == 0) && (n == 0 ==> Digits(n) == "0")
  {
    if n >= 10 {
      DigitsCanonical(n / 10);
      assert Digits(n) == Digits(n / 10) + [DigitChar(n % 10)];
    }
  }

  lemma DigitsPush(high: nat, c: char)
    requires high >= 1 && IsDigit(c)
    ensures Digits(10 * high + DigitValue(c)) == Digits(high) + [c]
  {
    var n := 10 * high + DigitValue(c);
    assert n / 10 == high && n % 10 == DigitValue(c);
    assert DigitChar(DigitValue(c)) == c;
  }

  lemma OneDigit(c: char)
    requires IsDigit(c)
    ensures ParseDigits([c]) == Some(DigitValue(c)) && Digits(DigitValue(c)) == [c]
  {
    assert [c][..0] == "" && ParseDigits("") == Some(0);
  }

  lemma ParsePush(s: string, c: char)
    requires ParseDigits(s).Some? && IsDigit(c)
    ensures ParseDigits(s + [c]) == Some(10 * ParseDigits(s).value + DigitValue(c))
  {
    assert (s + [c])[..|s|] == s;
  }

  lemma {:induction false} DigitsUnique(s: string)
    requires AllDigits(s) && (s[0] == '0' ==> s == "0")
    ensures ParseDigits(s).Some? && Digits(ParseDigits(s).value) == s
    ensures s[0] != '0' ==> ParseDigits(s).value >= 1
    decreases |s|
  {
    hide Digits, ParseDigits;
    var front, last := s[..|s| - 1], s[|s| - 1];
    assert s == front + [last] && IsDigit(last);
    if front == "" {
      OneDigit(last);
    } else {
      assert front[0] == s[0];
      DigitsUnique(front);
      ParsePush(front, last);
      DigitsPush(ParseDigits(front).value, last);
    }
  }

  /** What is printed is the one canonical text that is read back as the number. */
  lemma TextIsCanonical(n: i64, s: string)
    ensures Canonical(ToText(n)) && (ToText(n)[0] == '-' <==> n < 0)
    ensures Canonical(s) && ParseI64(s) == Some(n) ==> s == ToText(n)
  {
    hide Digits, ParseDigits;
    PrintedCanonical(n);
    if Canonical(s) && ParseI64(s) == Some(n) {
      if s[0] == '-' {
        DigitsUnique(s[1..]);
        assert s == "-" + s[1..];
      } else {
        DigitsUnique(s);
      }
    }
  }

  lemma PrintedCanonical(n: int)
    ensures Canonical(ToText(n)) && (ToText(n)[0] == '-' <==> n < 0)
  {
    if n < 0 {
      DigitsCanonical(-n);
      assert ToText(n)[1..] == Digits(-n);
    } else {
      DigitsCanonical(n);
    }
    hide Digits;
  }
}
