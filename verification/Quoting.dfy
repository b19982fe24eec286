/** Quoted strings can be read back, as Lua reads a string literal. */
module Quoting {
  import opened Namers
  import opened Translate

  /** How many digits a text begins with, counting three at most. */
  function LeadingDigits(t: string): (n: nat)
    ensures n <= 3 && n <= |t| && forall i | 0 <= i < n :: IsDigit(t[i])
  {
    if t == "" || !IsDigit(t[0]) then 0
    else if |t| == 1 || !IsDigit(t[1]) then 1
    else if |t| == 2 || !IsDigit(t[2]) then 2
    else 3
  }

  function NumberOf(digits: string): nat
    requires forall i | 0 <= i < |digits| :: IsDigit(digits[i])
  {
    if digits == "" then 0
    else
      var last := digits[|digits| - 1];
      assert IsDigit(last);
      10 * NumberOf(digits[..|digits| - 1]) + (last as int - '0' as int)
  }

  lemma ThreeDigits(digits: string)
    requires |digits| <= 3 && forall i | 0 <= i < |digits| :: IsDigit(digits[i])
    ensures NumberOf(digits) < 1000
    ensures |digits| == 1 ==> NumberOf(digits) == digits[0] as int - 48
    ensures |digits| == 2 ==> NumberOf(digits) == 10 * (digits[0] as int - 48) + digits[1] as int - 48
    ensures |digits| == 3 ==>
              NumberOf(digits) == 100 * (digits[0] as int - 48) + 10 * (digits[1] as int - 48) + digits[2] as int - 48
  {
    if |digits| > 0 {
      ThreeDigits(digits[..|digits| - 1]);
    }
  }

  lemma DigitReads(k: nat)
    requires k < 10
    ensures IsDigit(("0123456789")[k]) && ("0123456789")[k] as int == '0' as int + k
  {
  }

  /** `tostring` of a natural number reads as that number. */
  lemma {:induction false} DecimalReads(n: nat)
    ensures Decimal(n) != "" && forall i | 0 <= i < |Decimal(n)| :: IsDigit(Decimal(n)[i])
    ensures NumberOf(Decimal(n)) == n
  {
    var text, digit := Decimal(n), ("0123456789")[n % 10];
    DigitReads(n % 10);
    if n >= 10 {
      DecimalReads(n / 10);
      DigitAfter(Decimal(n / 10), digit);
    } else {
      DigitAfter("", digit);
      assert "" + [digit] == text;
    }
  }

  lemma DigitAfter(digits: string, digit: char)
    requires IsDigit(digit) && forall i | 0 <= i < |digits| :: IsDigit(digits[i])
    ensures forall i | 0 <= i < |digits + [digit]| :: IsDigit((digits + [digit])[i])
    ensures NumberOf(digits + [digit]) == 10 * NumberOf(digits) + digit as int - '0' as int
  {
    assert (digits + [digit])[..|digits|] == digits;
  }

  /** The characters between the quotes of a string literal, read as Lua reads them. */
  function Read(t: string): string {
    if t == "" then ""
    else if t[0] != '\\' then [t[0]] + Read(t[1..])
    else if |t| == 1 then ""
    else if t[1] == 'n' then "\n" + Read(t[2..])
    else
      var n := LeadingDigits(t[1..]);
      if n == 0 then [t[1]] + Read(t[2..])
      else
        ThreeDigits(t[1..][..n]);
        [NumberOf(t[1..][..n]) as char] + Read(t[1..][n..])
  }

  /** The number of a control character is read back, since fewer than three digits never stand before another. */
  lemma NumeralEnds(c: char, rest: string)
    requires IsControl(c)
    ensures var d := Numeral(c, rest);
            && 1 <= |d| <= 3 && (forall i | 0 <= i < |d| :: IsDigit(d[i])) && NumberOf(d) == c as int
            && (|d| < 3 && rest != "" ==> !IsDigit(rest[0]))
  {
    var n := c as int;
    DigitCode(n / 100);
    DigitCode(n / 10 % 10);
    DigitCode(n % 10);
    if n >= 100 || (rest != "" && IsDigit(rest[0])) {
      NumberParts(n / 100, n / 10 % 10, n % 10);
    } else if n >= 10 {
      NumberParts(0, n / 10, n % 10);
    } else {
      NumberParts(0, 0, n);
    }
  }

  lemma DigitCode(k: nat)
    requires k < 10
    ensures IsDigit(Digit(k)) && Digit(k) as int == 48 + k
  {
  }

  /** Digits, with or without leading zeros, make up the number. */
  lemma NumberParts(a: nat, b: nat, c: nat)
    requires a < 10 && b < 10 && c < 10
    ensures forall i | 0 <= i < 3 :: IsDigit([Digit(a), Digit(b), Digit(c)][i])
    ensures forall i | 0 <= i < 2 :: IsDigit([Digit(b), Digit(c)][i])
    ensures forall i | 0 <= i < 1 :: IsDigit([Digit(c)][i])
    ensures NumberOf([Digit(a), Digit(b), Digit(c)]) == 100 * a + 10 * b + c
    ensures NumberOf([Digit(b), Digit(c)]) == 10 * b + c
    ensures NumberOf([Digit(c)]) == c
  {
    DigitCode(a);
    DigitCode(b);
    DigitCode(c);
    ThreeDigits([Digit(a), Digit(b), Digit(c)]);
    ThreeDigits([Digit(b), Digit(c)]);
    ThreeDigits([Digit(c)]);
  }

  lemma EscapeStart(c: char, rest: string)
    ensures Escape(c, rest) != "" && (Escape(c, rest)[0] == c || Escape(c, rest)[0] == '\\')
  {
  }

  lemma LeadingAre(d: string, x: string)
    requires 1 <= |d| <= 3 && forall i | 0 <= i < |d| :: IsDigit(d[i])
    requires |d| < 3 && x != "" ==> !IsDigit(x[0])
    ensures LeadingDigits(d + x) == |d| && (d + x)[..|d|] == d && (d + x)[|d|..] == x
  {
    assert x != "" ==> (d + x)[|d|] == x[0];
  }

  lemma ReadNumeral(d: string, x: string)
    requires 1 <= |d| <= 3 && forall i | 0 <= i < |d| :: IsDigit(d[i])
    requires |d| < 3 && x != "" ==> !IsDigit(x[0])
    ensures NumberOf(d) < 1000 && Read(['\\'] + (d + x)) == [NumberOf(d) as char] + Read(x)
  {
    var t := ['\\'] + (d + x);
    ThreeDigits(d);
    LeadingAre(d, x);
    assert t[1..] == d + x && t[0] == '\\' && t[1] == d[0];
  }

  lemma ReadPair(second: char, x: string)
    requires !IsDigit(second)
    ensures Read(['\\', second] + x) == [if second == 'n' then '\n' else second] + Read(x)
  {
    var t := ['\\', second] + x;
    assert t[0] == '\\' && t[1] == second && t[1..] == [second] + x && t[2..] == x;
  }

  lemma ReadPlain(c: char, x: string)
    requires c != '\\'
    ensures Read([c] + x) == [c] + Read(x)
  {
    assert ([c] + x)[1..] == x;
  }

  /** The digits of a number that ends where it does because of what comes next. */
  ghost predicate Ended(d: string, n: nat, x: string) {
    && 1 <= |d| <= 3 && (forall i | 0 <= i < |d| :: IsDigit(d[i])) && NumberOf(d) == n
    && (|d| < 3 && x != "" ==> !IsDigit(x[0]))
  }

  /** The four forms an escape can have. */
  ghost predicate Form(e: string, c: char, x: string) {
    || ((c == '"' || c == '\\') && e == ['\\', c])
    || (c == '\n' && e == ['\\', 'n'])
    || (exists d: string :: e == ['\\'] + d && Ended(d, c as int, x))
    || (c != '\\' && e == [c])
  }

  lemma EscapeForm(c: char, rest: string, x: string)
    requires x != "" ==> rest != "" && (x[0] == rest[0] || x[0] == '\\')
    ensures Form(Escape(c, rest), c, x)
  {
    if IsControl(c) {
      NumeralEnds(c, rest);
      assert Ended(Numeral(c, rest), c as int, x);
    }
  }

  lemma ReadForm(e: string, c: char, x: string)
    requires Form(e, c, x)
    ensures Read(e + x) == [c] + Read(x)
  {
    if (c == '"' || c == '\\') && e == ['\\', c] {
      ReadPair(c, x);
    } else if c == '\n' && e == ['\\', 'n'] {
      ReadPair('n', x);
    } else if c != '\\' && e == [c] {
      ReadPlain(c, x);
    } else {
      var d: string :| e == ['\\'] + d && Ended(d, c as int, x);
      ReadNumeral(d, x);
      assert e + x == ['\\'] + (d + x);
    }
  }

  /** Whatever characters a string has, its quoted form reads back as the string. */
  lemma {:induction false} ReadsBack(s: string)
    ensures Read(EscapeAll(s)) == s
  {
    if s != "" {
      var rest := s[1..];
      if rest != "" {
        EscapeStart(rest[0], rest[1..]);
      }
      EscapeForm(s[0], rest, EscapeAll(rest));
      ReadForm(Escape(s[0], rest), s[0], EscapeAll(rest));
      ReadsBack(rest);
    }
  }
}
