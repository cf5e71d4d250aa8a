/** Rendering of integers as Ruby prints them: `Integer#to_s` for exit statuses in error
    messages and `sprintf('%o', mode)` for permission bits. */
module Numerals {
  import opened Wrappers

  function DigitChar(d: nat): char
    requires d < 10
  {
    (48 + d) as char
  }

  /** `c` is a digit of `base`. */
  predicate IsDigit(c: char, base: nat) {
    48 <= c as int < 48 + base
  }

  function DigitValue(c: char): nat
    requires 48 <= c as int
  {
    c as int - 48
  }

  /** The digits of `n` in `base`, most significant first, without leading zeros. */
  function Render(n: nat, base: nat): (r: string)
    requires 2 <= base <= 10
    ensures |r| > 0
    ensures forall i | 0 <= i < |r| :: IsDigit(r[i], base)
    ensures r[0] == '0' <==> n == 0
  {
    if n < base then [DigitChar(n)]
    else
      DivFacts(n, base);
      Render(n / base, base) + [DigitChar(n % base)]
  }

  /** The number a string of digits denotes. */
  function Value(s: string, base: nat): nat
    requires forall i | 0 <= i < |s| :: IsDigit(s[i], base)
  {
    if |s| == 0 then 0
    else
      assert forall i | 0 <= i < |s| - 1 :: s[..|s| - 1][i] == s[i];
      assert IsDigit(s[|s| - 1], base);
      Value(s[..|s| - 1], base) * base + DigitValue(s[|s| - 1])
  }

  /** Reads a non-empty string of digits; anything else is not a number. */
  function ParseNat(s: string, base: nat): Option<nat>
  {
    if |s| > 0 && forall i | 0 <= i < |s| :: IsDigit(s[i], base) then Some(Value(s, base)) else None
  }

  lemma ValueSnoc(front: string, c: char, base: nat)
    requires forall i | 0 <= i < |front| :: IsDigit(front[i], base)
    requires IsDigit(c, base)
    ensures Value(front + [c], base) == Value(front, base) * base + DigitValue(c)
  {
    assert (front + [c])[..|front|] == front;
  }

  lemma {:induction false} ValueOfRender(n: nat, base: nat)
    requires 2 <= base <= 10
    ensures Value(Render(n, base), base) == n
  {
    if n < base {
      ValueOfDigit(n, base);
    } else {
      ValueOfRender(n / base, base);
      RenderStep(n, base);
    }
  }

  lemma ValueOfDigit(n: nat, base: nat)
    requires 2 <= base <= 10 && n < base
    ensures Value(Render(n, base), base) == n
  {
    assert Render(n, base) == [] + [DigitChar(n)];
    ValueSnoc([], DigitChar(n), base);
  }

  lemma RenderStep(n: nat, base: nat)
    requires 2 <= base <= n && base <= 10
    requires Value(Render(n / base, base), base) == n / base
    ensures Value(Render(n, base), base) == n
  {
    var q, d := n / base, n % base;
    ValueSnoc(Render(q, base), DigitChar(d), base);
    DivMod(n, base);
  }

  lemma DivFacts(n: nat, b: nat)
    requires 2 <= b <= n
    ensures 1 <= n / b < n && n % b < b
  {
  }

  lemma DivMod(n: nat, b: nat)
    requires b > 0
    ensures (n / b) * b + n % b == n
  {
  }

  /** Reading a rendered number back in the same base recovers it. */
  lemma ParseRender(n: nat, base: nat)
    requires 2 <= base <= 10
    ensures ParseNat(Render(n, base), base) == Some(n)
  {
    ValueOfRender(n, base);
  }

  /** Ruby `Integer#to_s`. */
  function ShowInt(i: int): string {
    if i < 0 then "-" + Render(-i, 10) else Render(i, 10)
  }

  /** Reads what `ShowInt` writes: an optional minus sign and decimal digits. */
  function ParseInt(s: string): Option<int> {
    if |s| > 0 && s[0] == '-' then
      match ParseNat(s[1..], 10)
      case Some(n) => Some(-(n as int))
      case None => None
    else
      match ParseNat(s, 10)
      case Some(n) => Some(n)
      case None => None
  }

  /** Every integer survives being printed and read back. */
  lemma ParseShowInt(i: int)
    ensures ParseInt(ShowInt(i)) == Some(i)
  {
    if i < 0 {
      ParseShowNegative(i);
    } else {
      ParseShowNatural(i);
    }
  }

  lemma ParseShowNegative(i: int)
    requires i < 0
    ensures ParseInt(ShowInt(i)) == Some(i)
  {
    var d := Render(-i, 10);
    assert ShowInt(i) == "-" + d;
    assert ("-" + d)[1..] == d;
    ParseRender(-i, 10);
  }

  lemma ParseShowNatural(i: int)
    requires i >= 0
    ensures ParseInt(ShowInt(i)) == Some(i)
  {
    var d := Render(i, 10);
    assert IsDigit(d[0], 10);
    ParseRender(i, 10);
  }

  /** `sprintf('%o', n)`: octal digits, no leading zero except for zero itself. */
  function Octal(n: nat): string {
    Render(n, 8)
  }
}
