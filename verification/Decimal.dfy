/** Decimal printing (`%d`, `%ld`, `%zu`) and reading (`strtol`, `atoi`). */
module Decimal {
  import opened CStrings

  const LONG_MAX: int := 0x7FFF_FFFF_FFFF_FFFF
  const LONG_MIN: int := -0x8000_0000_0000_0000

  predicate IsDigit(c: char) {
    '0' <= c <= '9'
  }

  function Digit(d: nat): (c: char)
    requires d < 10
    ensures IsDigit(c) && c as int - '0' as int == d
  {
    (d + '0' as int) as char
  }

  /** `%zu`: the decimal numeral of a natural number. */
  function Dec(n: nat): (s: string)
    ensures |s| > 0
    ensures forall c :: c in s ==> IsDigit(c)
  {
    if n < 10 then [Digit(n)] else Dec(n / 10) + [Digit(n % 10)]
  }

  /** `%ld`. */
  function DecInt(n: int): (s: string)
    ensures |s| > 0
    ensures forall c :: c in s ==> IsDigit(c) || c == '-'
  {
    if n < 0 then "-" + Dec(-n) else Dec(n)
  }

  /** The value of a string of digits. */
  function Value(s: string): (v: int)
    requires forall c :: c in s ==> IsDigit(c)
    ensures 0 <= v
  {
    if s == [] then 0 else
      assert IsDigit(s[|s| - 1]);
      10 * Value(s[..|s| - 1]) + (s[|s| - 1] as int - '0' as int)
  }

  /** How many digits the string starts with. */
  function DigitSpan(s: string): (n: nat)
    ensures n <= |s| && forall c :: c in s[..n] ==> IsDigit(c)
    ensures n < |s| ==> !IsDigit(s[n])
  {
    if s == [] || !IsDigit(s[0]) then 0 else
      assert s[..1 + DigitSpan(s[1..])] == [s[0]] + s[1..][..DigitSpan(s[1..])];
      1 + DigitSpan(s[1..])
  }

  /** How many white-space bytes the string starts with. */
  function SpaceSpan(s: string): (n: nat)
    ensures n <= |s| && forall i :: 0 <= i < n ==> IsSpace(s[i])
    ensures n < |s| ==> !IsSpace(s[n])
  {
    if s == [] || !IsSpace(s[0]) then 0 else 1 + SpaceSpan(s[1..])
  }

  function Clamp(v: int): int {
    if v < LONG_MIN then LONG_MIN else if LONG_MAX < v then LONG_MAX else v
  }

  /** `strtol(s, NULL, 10)`: white space, a sign, digits; saturating, and 0 when there is no digit. */
  function Strtol(s: string): (v: int)
    ensures LONG_MIN <= v <= LONG_MAX
  {
    var t := s[SpaceSpan(s)..];
    var signed := t != [] && (t[0] == '-' || t[0] == '+');
    var u := if signed then t[1..] else t;
    var v := Value(u[..DigitSpan(u)]);
    Clamp(if signed && t[0] == '-' then -v else v)
  }

  /** The conversion of a wide integer to a 32-bit `int`. */
  function IntCast(n: int): (v: int)
    ensures -0x8000_0000 <= v < 0x8000_0000
    ensures v == n <==> -0x8000_0000 <= n < 0x8000_0000
    ensures (v - n) % 0x1_0000_0000 == 0
  {
    var w := n % 0x1_0000_0000;
    if w < 0x8000_0000 then w else w - 0x1_0000_0000
  }

  /** `atoi`, as the C library computes it. */
  function Atoi(s: string): int {
    IntCast(Strtol(s))
  }

  /** The `int` that agrees with `strtol` in its low 32 bits. */
  lemma AtoiMeaning(s: string)
    ensures -0x8000_0000 <= Atoi(s) < 0x8000_0000 && (Atoi(s) - Strtol(s)) % 0x1_0000_0000 == 0
  {
    hide Strtol;
  }

  lemma {:induction false} ValueDec(n: nat)
    ensures Value(Dec(n)) == n
  {
    if 10 <= n {
      ValueDec(n / 10);
      assert Dec(n)[..|Dec(n)| - 1] == Dec(n / 10);
    } else {
      assert Value([]) == 0;
    }
  }

  lemma {:induction false} DigitSpanAppend(d: string, rest: string)
    requires forall c :: c in d ==> IsDigit(c)
    requires rest != [] ==> !IsDigit(rest[0])
    ensures DigitSpan(d + rest) == |d|
  {
    if d != [] {
      assert (d + rest)[1..] == d[1..] + rest;
      DigitSpanAppend(d[1..], rest);
    } else {
      assert d + rest == rest;
    }
  }

  /** The digits that a text starts with, as a number. */
  function Number(u: string): int {
    Value(u[..DigitSpan(u)])
  }

  lemma NumberIs(digits: string, rest: string)
    requires (forall c :: c in digits ==> IsDigit(c)) && (rest != "" ==> !IsDigit(rest[0]))
    ensures Number(digits + rest) == Value(digits)
  {
    hide Value, DigitSpan;
    DigitSpanAppend(digits, rest);
    assert (digits + rest)[..|digits|] == digits;
  }

  /** Past the white space, a sign or none decides how the number counts. */
  lemma StrtolFrom(s: string, t: string)
    requires s[SpaceSpan(s)..] == t
    ensures Strtol(s) == if t != "" && t[0] == '-' then Clamp(-Number(t[1..]))
                         else if t != "" && t[0] == '+' then Clamp(Number(t[1..])) else Clamp(Number(t))
  {
    hide Value, DigitSpan, SpaceSpan, Clamp;
  }

  lemma SpacesSkipped(spaces: string, t: string)
    requires (forall c :: c in spaces ==> IsSpace(c)) && (t != "" ==> !IsSpace(t[0]))
    ensures (spaces + t)[SpaceSpan(spaces + t)..] == t
  {
    hide IsSpace;
    var s := spaces + t;
    assert forall i :: 0 <= i < |spaces| ==> s[i] == spaces[i] && spaces[i] in spaces;
    assert t != "" ==> s[|spaces|] == t[0];
    assert s[|spaces|..] == t;
  }

  /**
   `strtol` on any text: white space, an optional sign, digits and what follows them; the number is
   cut to the range of `long`.
   */
  lemma StrtolText(spaces: string, sign: string, digits: string, rest: string)
    requires (forall c :: c in spaces ==> IsSpace(c)) && (sign == "" || sign == "+" || sign == "-")
    requires (forall c :: c in digits ==> IsDigit(c)) && (rest != "" ==> !IsDigit(rest[0]))
    requires digits != "" || sign != "" || (rest != "" ==> !IsSpace(rest[0]) && rest[0] != '+' && rest[0] != '-')
    ensures var v := if sign == "-" then -Value(digits) else Value(digits);
            Strtol(spaces + (sign + (digits + rest))) ==
            if v < -0x8000_0000_0000_0000 then -0x8000_0000_0000_0000
            else if 0x7FFF_FFFF_FFFF_FFFF < v then 0x7FFF_FFFF_FFFF_FFFF else v
  {
    hide Value, Strtol, Number, SpaceSpan;
    var t, u := sign + (digits + rest), digits + rest;
    assert sign == "" && digits != "" ==> digits[0] in digits;
    SpacesSkipped(spaces, t);
    StrtolFrom(spaces + t, t);
    NumberIs(digits, rest);
    assert if sign == "" then t == u else t[1..] == u;
  }

  /** Printing a number and reading it back, whatever non-digit follows it. */
  lemma StrtolDec(n: int, rest: string)
    requires LONG_MIN <= n <= LONG_MAX
    requires rest != [] ==> !IsDigit(rest[0])
    ensures Strtol(DecInt(n) + rest) == n
  {
    hide Strtol, Value, Dec;
    var sign, digits := if n < 0 then "-" else "", Dec(if n < 0 then -n else n);
    ValueDec(if n < 0 then -n else n);
    StrtolText("", sign, digits, rest);
    assert DecInt(n) == sign + digits;
    assert "" + (sign + (digits + rest)) == (sign + digits) + rest;
  }

  /** A numeral below ten to the `k` has at most `k` digits. */
  lemma {:induction false} DecLength(n: nat, k: nat, bound: nat)
    requires 0 < k && bound == Pow10(k) && n < bound
    ensures |Dec(n)| <= k
  {
    if 10 <= n {
      DecLength(n / 10, k - 1, Pow10(k - 1));
    }
  }

  function Pow10(k: nat): (p: nat)
    ensures 0 < p
  {
    if k == 0 then 1 else 10 * Pow10(k - 1)
  }

  /** Every `size_t` prints in at most 20 bytes. */
  lemma DecSizeT(n: nat)
    requires n < 0x1_0000_0000_0000_0000
    ensures |Dec(n)| <= 20
  {
    assert Pow10(10) == 10_000_000_000;
    assert Pow10(20) == 100_000_000_000_000_000_000;
    DecLength(n, 20, Pow10(20));
  }
}
