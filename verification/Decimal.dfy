/** Printing and reading decimal numbers as printf("%lu") and strtoull(., ., 10) do. */
module Decimal {
  import opened Text

  const TWO_64 := 0x1_0000_0000_0000_0000
  const TWO_63 := 0x8000_0000_0000_0000
  const TWO_32 := 0x1_0000_0000
  const TWO_31 := 0x8000_0000

  predicate IsDigit(c: char) {
    '0' <= c <= '9'
  }

  function Digit(d: nat): (c: char)
    requires d < 10
    ensures IsDigit(c)
  {
    ('0' as int + d) as char
  }

  function Print(n: nat): (s: string)
    ensures s != ""
  {
    if n < 10 then [Digit(n)] else Print(n / 10) + [Digit(n % 10)]
  }

  /** The length of the run of digits at the start of `s`. */
  function DigitRun(s: string): (k: nat)
    ensures k <= |s|
  {
    if s != "" && IsDigit(s[0]) then 1 + DigitRun(s[1..]) else 0
  }

  function Value(s: string): nat
    requires forall c :: c in s ==> IsDigit(c)
  {
    if s == "" then 0
    else
      var last := s[|s| - 1];
      assert last in s && IsDigit(last);
      10 * Value(s[..|s| - 1]) + (last as int - '0' as int)
  }

  lemma RunIsDigits(s: string)
    ensures forall c :: c in s[..DigitRun(s)] ==> IsDigit(c)
  {
    if s != "" && IsDigit(s[0]) {
      RunIsDigits(s[1..]);
      assert s[..DigitRun(s)] == [s[0]] + s[1..][..DigitRun(s[1..])];
    }
  }

  /** Leading spaces, an optional sign, digits; what does not fit is ULLONG_MAX, and a minus sign
      negates modulo 2^64. Text without digits is 0. */
  function Strtoull(s: string): (n: nat)
    ensures n < TWO_64
  {
    FromSign(SkipSpaces(s))
  }

  function FromSign(t: string): (n: nat)
    ensures n < TWO_64
  {
    var minus := t != "" && t[0] == '-';
    var u := if minus || (t != "" && t[0] == '+') then t[1..] else t;
    RunIsDigits(u);
    var v := Value(u[..DigitRun(u)]);
    if v >= TWO_64 then TWO_64 - 1
    else if minus then (TWO_64 - v) % TWO_64
    else v
  }

  lemma {:induction false} PrintIsDigits(n: nat)
    ensures forall c :: c in Print(n) ==> IsDigit(c)
    ensures Value(Print(n)) == n
  {
    if n >= 10 {
      PrintIsDigits(n / 10);
      var s := Print(n);
      assert s[..|s| - 1] == Print(n / 10);
    } else {
      assert Print(n)[..0] == "";
    }
  }

  /** A 64-bit number printed and read back. */
  lemma PrintThenRead(n: nat)
    requires n < TWO_64
    ensures Strtoull(Print(n)) == n
  {
    DigitsFirst(n, "");
    PrintIsDigits(n);
    var s := Print(n);
    assert s + "" == s;
    hide Print, DigitRun, Value;
  }

  /** The conversion of an unsigned long to a signed 64-bit type, and to int. */
  function ToInt64(u: int): int {
    if u % TWO_64 >= TWO_63 then u % TWO_64 - TWO_64 else u % TWO_64
  }

  function ToInt32(u: int): int {
    if u % TWO_32 >= TWO_31 then u % TWO_32 - TWO_32 else u % TWO_32
  }

  lemma {:induction false} RunThenOther(digits: string, rest: string)
    requires (forall c :: c in digits ==> IsDigit(c)) && (rest == "" || !IsDigit(rest[0]))
    ensures DigitRun(digits + rest) == |digits|
  {
    if digits == "" {
      assert digits + rest == rest;
    } else {
      assert (digits + rest)[1..] == digits[1..] + rest && digits[0] in digits;
      RunThenOther(digits[1..], rest);
    }
  }

  lemma BehindBlanks(blanks: string, t: string)
    requires AllSpace(blanks) && t != "" && !IsSpace(t[0])
    ensures Strtoull(blanks + t) == FromSign(t)
  {
    SkipsSpaces(blanks, t);
    hide SkipSpaces, IsSpace, FromSign;
  }

  lemma DigitsFirst(n: nat, rest: string)
    requires rest == "" || !IsDigit(rest[0])
    ensures var u := Print(n) + rest; u != "" && IsDigit(u[0]) && u[..DigitRun(u)] == Print(n)
  {
    var s, u := Print(n), Print(n) + rest;
    PrintIsDigits(n);
    RunThenOther(s, rest);
    hide Print, IsDigit;
    assert u[0] == s[0] && s[0] in s && u[..|s|] == s;
  }

  /** What strtoull reads, by the sign in front. */
  lemma Signed(n: nat, rest: string, sign: string)
    requires (rest == "" || !IsDigit(rest[0])) && (sign == "" || sign == "+" || sign == "-")
    ensures var t := sign + (Print(n) + rest);
            && t != "" && !IsSpace(t[0])
            && FromSign(t) == if n >= TWO_64 then TWO_64 - 1 else if sign == "-" then (TWO_64 - n) % TWO_64 else n
  {
    var u := Print(n) + rest;
    DigitsFirst(n, rest);
    PrintIsDigits(n);
    hide Print, DigitRun, Value;
    if sign == "" {
      assert sign + u == u;
    } else {
      assert (sign + u)[0] == sign[0] && (sign + u)[1..] == u;
    }
  }

  /** A number is found behind spaces and in front of anything that is no digit. It reads as itself, as
      its negative modulo 2^64 behind a minus sign, and as the largest number when it does not fit. */
  lemma ReadsNumber(blanks: string, n: nat, rest: string, sign: string)
    requires AllSpace(blanks) && (rest == "" || !IsDigit(rest[0])) && (sign == "" || sign == "+" || sign == "-")
    ensures Strtoull(blanks + (sign + (Print(n) + rest))) ==
            if n >= 0x1_0000_0000_0000_0000 then 0xFFFF_FFFF_FFFF_FFFF
            else if sign == "-" && n > 0 then 0x1_0000_0000_0000_0000 - n
            else n
  {
    hide Strtoull, Print, IsDigit, IsSpace, AllSpace, FromSign;
    Signed(n, rest, sign);
    BehindBlanks(blanks, sign + (Print(n) + rest));
  }

  /** An int that is set from a text holds the number the text begins with, if it fits. */
  lemma ReadsInt(blanks: string, n: nat, rest: string, sign: string)
    requires AllSpace(blanks) && (rest == "" || !IsDigit(rest[0])) && (sign == "" || sign == "+" || sign == "-")
    requires n < 0x8000_0000 || (sign == "-" && n == 0x8000_0000)
    ensures ToInt32(Strtoull(blanks + (sign + (Print(n) + rest)))) == if sign == "-" then 0 - n else n
  {
    hide Strtoull, Print, IsDigit, AllSpace;
    ReadsNumber(blanks, n, rest, sign);
  }
}
