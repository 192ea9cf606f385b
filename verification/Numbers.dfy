/** What decimal printing and `std::stoi` mean, by place values. */
module Numbers {
  import opened Bits
  import opened Http

  function Pow10(n: nat): (p: nat)
    ensures p > 0
  {
    if n == 0 then 1 else 10 * Pow10(n - 1)
  }

  lemma DivDiv(n: nat, p: nat)
    requires p > 0
    ensures n / 10 / p == n / (10 * p)
  {
    var a, b := n / 10, n % 10;
    var q, r := a / p, a % p;
    TenTimes(q, p, r, b, n);
    DivModUnique(n, 10 * p, q, 10 * r + b);
  }

  lemma TenTimes(q: nat, p: nat, r: nat, b: nat, n: nat)
    requires n == 10 * (q * p + r) + b
    ensures n == q * (10 * p) + (10 * r + b)
  {
  }

  predicate IsDecimalDigit(c: char, d: nat) {
    d < 10 && c as int == 48 + d
  }

  /** The `i`th character from the right is the digit of weight `10^i`, and there is no zero too
      many on the left. */
  lemma {:induction false} DecimalDigits(n: nat, i: nat)
    requires i < |Decimal(n)|
    ensures IsDecimalDigit(Decimal(n)[|Decimal(n)| - 1 - i], n / Pow10(i) % 10)
    ensures n < Pow10(|Decimal(n)|) && (|Decimal(n)| > 1 ==> Decimal(n)[0] != '0')
    decreases n
  {
    var d := Decimal(n);
    if n >= 10 {
      DecimalDigits(n / 10, if i == 0 then 0 else i - 1);
      LastDigit(n);
      if i > 0 { DivDiv(n, Pow10(i - 1)); }
      FirstDigit(n);
    }
  }

  lemma LastDigit(n: nat)
    requires n >= 10
    ensures Decimal(n) == Decimal(n / 10) + [(n % 10 + 48) as char]
    ensures n / Pow10(0) % 10 == n % 10
  {
  }

  lemma FirstDigit(n: nat)
    requires n >= 10 && (|Decimal(n / 10)| > 1 ==> Decimal(n / 10)[0] != '0')
    ensures Decimal(n)[0] == Decimal(n / 10)[0] && Decimal(n)[0] != '0'
  {
  }

  // ---------------------------------------------------------------------
  // std::stoi
  // ---------------------------------------------------------------------

  /** The parts of a text that `stoi` takes: white space, a sign, digits, and anything else. */
  datatype Numeral = Numeral(blanks: string, sign: string, digits: string, rest: string)

  predicate DigitCode(c: char) {
    48 <= c as int <= 57
  }

  predicate NumeralOk(x: Numeral) {
    && (forall i | 0 <= i < |x.blanks| :: x.blanks[i] as int == 32 || 9 <= x.blanks[i] as int <= 13)
    && (x.sign == "" || x.sign == "+" || x.sign == "-")
    && x.digits != "" && (forall i | 0 <= i < |x.digits| :: DigitCode(x.digits[i]))
    && (x.rest != "" ==> !DigitCode(x.rest[0]))
  }

  function NumeralText(x: Numeral): string {
    x.blanks + (x.sign + (x.digits + x.rest))
  }

  /** The sum of the digits by their weights. */
  function PlaceValue(d: string): int
    requires forall i | 0 <= i < |d| :: DigitCode(d[i])
  {
    if d == "" then 0 else (d[0] as int - 48) * Pow10(|d| - 1) + PlaceValue(d[1..])
  }

  function NumeralValue(x: Numeral): int
    requires NumeralOk(x)
  {
    if x.sign == "-" then -PlaceValue(x.digits) else PlaceValue(x.digits)
  }

  lemma {:induction false} PlaceSnoc(d: string, c: char)
    requires (forall i | 0 <= i < |d| :: DigitCode(d[i])) && DigitCode(c)
    ensures PlaceValue(d + [c]) == 10 * PlaceValue(d) + (c as int - 48)
    decreases |d|
  {
    if d == "" {
      assert (d + [c])[1..] == "" && Pow10(0) == 1;
    } else {
      assert (d + [c])[1..] == d[1..] + [c];
      PlaceSnoc(d[1..], c);
      Weight(d[0] as int - 48, Pow10(|d| - 1), PlaceValue(d[1..]), c as int - 48);
    }
  }

  lemma Weight(a: int, p: int, v: int, c: int)
    ensures a * (10 * p) + (10 * v + c) == 10 * (a * p + v) + c
  {
  }

  lemma {:induction false} ValueByPlaces(d: string)
    requires forall i | 0 <= i < |d| :: IsDigit(d[i])
    ensures forall i | 0 <= i < |d| :: DigitCode(d[i])
    ensures DecimalValue(d) == PlaceValue(d)
    decreases |d|
  {
    if d != "" {
      var front, last := d[..|d| - 1], d[|d| - 1];
      ValueByPlaces(front);
      assert IsDigit(last) && d == front + [last];
      PlaceSnoc(front, last);
    }
  }

  lemma {:induction false} SpacesSkipped(blanks: string, u: string)
    requires forall i | 0 <= i < |blanks| :: blanks[i] as int == 32 || 9 <= blanks[i] as int <= 13
    requires u != "" ==> !IsSpace(u[0])
    ensures SkipSpaces(blanks + u) == u
    decreases |blanks|
  {
    if blanks == "" {
      assert blanks + u == u;
    } else {
      assert (blanks + u)[1..] == blanks[1..] + u;
      SpacesSkipped(blanks[1..], u);
    }
  }

  lemma {:induction false} DigitsTaken(d: string, rest: string)
    requires (forall i | 0 <= i < |d| :: DigitCode(d[i])) && (rest != "" ==> !DigitCode(rest[0]))
    ensures Digits(d + rest) == d
    decreases |d|
  {
    if d == "" {
      assert d + rest == rest;
    } else {
      assert (d + rest)[1..] == d[1..] + rest;
      DigitsTaken(d[1..], rest);
    }
  }

  /** `stoi` takes every such text at its value, if that fits 32 bits. */
  lemma StoiTakes(x: Numeral)
    requires NumeralOk(x)
    ensures Stoi(NumeralText(x))
         == if -2147483648 <= NumeralValue(x) <= 2147483647 then Some(NumeralValue(x)) else None
  {
    var t := x.sign + (x.digits + x.rest);
    var u := x.digits + x.rest;
    assert u[0] == x.digits[0] && DigitCode(u[0]);
    assert t[0] == if x.sign == "" then u[0] else x.sign[0];
    SpacesSkipped(x.blanks, t);
    DigitsTaken(x.digits, x.rest);
    assert x.sign != "" ==> t[1..] == u;
    assert x.sign == "" ==> t == u;
    ValueByPlaces(x.digits);
  }

  lemma {:induction false} SpacesSplit(s: string) returns (blanks: string)
    ensures s == blanks + SkipSpaces(s)
    ensures forall i | 0 <= i < |blanks| :: blanks[i] as int == 32 || 9 <= blanks[i] as int <= 13
    ensures SkipSpaces(s) != "" ==> !IsSpace(SkipSpaces(s)[0])
    decreases |s|
  {
    if s != "" && IsSpace(s[0]) {
      var more := SpacesSplit(s[1..]);
      blanks := [s[0]] + more;
      assert s == [s[0]] + s[1..];
    } else {
      blanks := "";
    }
  }

  lemma {:induction false} DigitsSplit(s: string)
    ensures |Digits(s)| <= |s| && s == Digits(s) + s[|Digits(s)|..]
    ensures |Digits(s)| < |s| ==> !DigitCode(s[|Digits(s)|])
    decreases |s|
  {
    if s != "" && IsDigit(s[0]) {
      DigitsSplit(s[1..]);
      assert s[1..][|Digits(s[1..])|..] == s[|Digits(s)|..];
      assert s == [s[0]] + s[1..];
    }
  }

  /** And it takes nothing else. */
  lemma StoiOnlyTakes(s: string) returns (x: Numeral)
    requires Stoi(s).Some?
    ensures NumeralOk(x) && NumeralText(x) == s
  {
    var blanks := SpacesSplit(s);
    var t := SkipSpaces(s);
    var sign := if t != "" && (t[0] == '-' || t[0] == '+') then t[..1] else "";
    var u := if sign != "" then t[1..] else t;
    DigitsSplit(u);
    assert t == sign + u;
    x := Numeral(blanks, sign, Digits(u), u[|Digits(u)|..]);
    DigitsAreDigits(Digits(u));
  }

  lemma DigitsAreDigits(d: string)
    requires forall i | 0 <= i < |d| :: IsDigit(d[i])
    ensures forall i | 0 <= i < |d| :: DigitCode(d[i])
  {
    forall i | 0 <= i < |d| ensures DigitCode(d[i]) { assert IsDigit(d[i]); }
  }

  /** `stoi` returns exactly on the texts made of white space, a sign or none, digits whose value
      fits 32 bits, and anything that does not begin with a digit; it returns that value. */
  lemma StoiExact(s: string)
    ensures Stoi(s).Some? <==>
              exists x :: NumeralOk(x) && NumeralText(x) == s && -2147483648 <= NumeralValue(x) <= 2147483647
    ensures forall x | NumeralOk(x) && NumeralText(x) == s && Stoi(s).Some? :: Stoi(s) == Some(NumeralValue(x))
  {
    if Stoi(s).Some? {
      var x := StoiOnlyTakes(s);
      StoiTakes(x);
    }
    forall x | NumeralOk(x) && NumeralText(x) == s
      ensures Stoi(s) == if -2147483648 <= NumeralValue(x) <= 2147483647 then Some(NumeralValue(x)) else None
    {
      StoiTakes(x);
    }
  }
}
