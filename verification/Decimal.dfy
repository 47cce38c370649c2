/** Decimal numbers as strconv.Itoa writes and strconv.Atoi reads them (64-bit). */
module Decimal {
  import opened Wrappers

  const INT_MAX: int := 0x7FFF_FFFF_FFFF_FFFF

  function Digit(d: nat): char
    requires d < 10
  {
    (d + 48) as char
  }

  predicate IsDigit(c: char) { '0' <= c <= '9' }

  function Itoa(n: nat): (s: string)
    ensures s != "" && forall i :: 0 <= i < |s| ==> IsDigit(s[i])
  {
    if n < 10 then [Digit(n)] else Itoa(n / 10) + [Digit(n % 10)]
  }

  /** The value of a non-empty run of digits. */
  function Value(s: string): Option<nat> {
    if s == "" then None
    else
      var c := s[|s| - 1];
      if !IsDigit(c) then None
      else if |s| == 1 then Some(c as int - 48)
      else
        match Value(s[..|s| - 1])
        case None => None
        case Some(v) => Some(10 * v + (c as int - 48))
  }

  /** An optional sign and digits; out of range is an error. */
  function Atoi(s: string): Option<int> {
    var negative := s != "" && s[0] == '-';
    var digits := if s != "" && (s[0] == '-' || s[0] == '+') then s[1..] else s;
    match Value(digits)
    case None => None
    case Some(v) =>
      if negative then (if v <= INT_MAX + 1 then Some(0 - v) else None)
      else if v <= INT_MAX then Some(v) else None
  }

  lemma {:induction false} ValueOfItoa(n: nat)
    ensures Value(Itoa(n)) == Some(n)
  {
    if n >= 10 {
      ValueOfItoa(n / 10);
      var s := Itoa(n);
      assert s[..|s| - 1] == Itoa(n / 10) && s[|s| - 1] == Digit(n % 10);
    }
  }

  /** Reading back what was written. */
  lemma AtoiOfItoa(n: nat)
    ensures Atoi(Itoa(n)) == if n <= INT_MAX then Some(n) else None
  {
    ValueOfItoa(n);
    assert IsDigit(Itoa(n)[0]);
  }

  lemma SignIsRead(sign: char, digits: string)
    requires (sign == '-' || sign == '+') && Value(digits).Some?
    ensures var v := Value(digits).value;
      Atoi([sign] + digits) ==
        if sign == '-' then (if v <= INT_MAX + 1 then Some(0 - v) else None) else if v <= INT_MAX then Some(v) else None
  {
    assert ([sign] + digits)[1..] == digits;
  }

  /** A sign in front is read, and the range is that of 64 bits on both sides. */
  lemma AtoiOfSigned(n: nat)
    ensures Atoi("-" + Itoa(n)) == if n <= 0x8000_0000_0000_0000 then Some(0 - n) else None
    ensures Atoi("+" + Itoa(n)) == if n <= 0x7FFF_FFFF_FFFF_FFFF then Some(n) else None
  {
    ValueOfItoa(n);
    SignIsRead('-', Itoa(n));
    SignIsRead('+', Itoa(n));
  }

  /** Digits without a leading zero are what is written for their value. */
  lemma {:induction false} ItoaOfValue(s: string)
    requires Value(s).Some? && (|s| == 1 || s[0] != '0')
    ensures Itoa(Value(s).value) == s && (s[0] != '0' ==> Value(s).value > 0)
    decreases |s|
  {
    var front := s[..|s| - 1];
    if |s| > 1 {
      ItoaOfValue(front);
      assert s == front + [s[|s| - 1]];
    }
  }
}
