/**
 * The part of bignumber.js that the classifier uses: building a value from
 * a lamport count or from a token's decimal amount string, dividing by the
 * lamport constant, comparing with `lt` and subtracting with `minus`. A
 * value is an exact decimal or NaN; NaN spreads through arithmetic and
 * compares false.
 */
module BigNumbers {
  import opened JsBuiltins

  datatype Decimal = Finite(value: real) | NaN {
    /** `a.lt(b)`: false as soon as either side is NaN. */
    predicate Lt(other: Decimal) {
      Finite? && other.Finite? && value < other.value
    }

    /** `a.minus(b)`. */
    function Minus(other: Decimal): Decimal {
      if Finite? && other.Finite? then Finite(value - other.value) else NaN
    }

    /** `a.div(n)` for a positive whole divisor. */
    function DivBy(n: nat): Decimal
      requires n > 0
    {
      if Finite? then Finite(value / n as real) else NaN
    }

    function Negated(): Decimal {
      if Finite? then Finite(-value) else NaN
    }
  }

  /** `new BigNumber(x)` for `x` a JSON number from the balance arrays, or `undefined`. */
  function FromNumber(x: Option<int>): Decimal {
    if x.Some? then Finite(x.value as real) else NaN
  }

  predicate IsDigit(c: char) {
    '0' <= c <= '9'
  }

  predicate AllDigits(s: string) {
    forall i | 0 <= i < |s| :: IsDigit(s[i])
  }

  function Pow10(n: nat): (r: nat)
    ensures r >= 1
  {
    if n == 0 then 1 else 10 * Pow10(n - 1)
  }

  /** The number a string of decimal digits denotes, most significant first. */
  function DigitsValue(s: string): (r: nat)
    requires AllDigits(s)
    ensures r < Pow10(|s|)
  {
    if s == [] then 0
    else DigitsValue(s[..|s| - 1]) * 10 + (s[|s| - 1] as int - '0' as int)
  }

  /**
   * An unsigned decimal in the notation `d+`, `d+.d*` or `.d+`; anything
   * else reads as NaN.
   */
  function ParseUnsigned(s: string): (r: Decimal)
    ensures r.Finite? ==> s != [] && r.value >= 0.0
  {
    var k := FindIndex(s, '.');
    if k == -1 then
      if s != [] && AllDigits(s) then Finite(DigitsValue(s) as real) else NaN
    else
      ParsePointed(s[..k], s[k + 1..])
  }

  /** The digits either side of the first dot; one side may be empty, not both. */
  function ParsePointed(whole: string, fraction: string): (r: Decimal)
    ensures r.Finite? ==> r.value >= 0.0
  {
    if AllDigits(whole) && AllDigits(fraction) && (whole != [] || fraction != []) then
      Finite(DigitsValue(whole) as real + ScaleDown(DigitsValue(fraction) as real, |fraction|))
    else NaN
  }

  /** x moved k decimal places to the right of the point, one place at a time. */
  function ScaleDown(x: real, k: nat): (r: real)
    ensures x >= 0.0 ==> r >= 0.0
    ensures x == 0.0 ==> r == 0.0
  {
    if k == 0 then x else ScaleDown(x, k - 1) / 10.0
  }

  /** Moving k places is dividing by 10^k. */
  lemma {:induction false} ScaleDownDivides(x: real, k: nat)
    ensures ScaleDown(x, k) * Pow10(k) as real == x
  {
    if k > 0 {
      ScaleDownDivides(x, k - 1);
      assert Pow10(k) as real == 10.0 * Pow10(k - 1) as real;
    }
  }

  /**
   * `new BigNumber(s)` for a `uiAmountString`: an optional leading minus
   * sign in front of an unsigned decimal.
   */
  function ParseDecimal(s: string): (r: Decimal)
    ensures r.Finite? && r.value < 0.0 ==> s != [] && s[0] == '-'
  {
    if s != [] && s[0] == '-' then ParseUnsigned(s[1..]).Negated() else ParseUnsigned(s)
  }

  /**
   * Without a dot, a string is a number exactly when it is a non-empty run
   * of digits, and then it denotes the whole number those digits spell.
   */
  lemma IntegerNotation(s: string)
    requires '.' !in s
    ensures ParseUnsigned(s).Finite? <==> s != [] && AllDigits(s)
    ensures s != [] && AllDigits(s) ==> ParseDecimal(s) == Finite(DigitsValue(s) as real)
  {
    assert FindIndex(s, '.') == -1;
    if s != [] && AllDigits(s) {
      assert IsDigit(s[0]);
    }
  }

  /** A fraction of zeros only denotes 0, whatever its length. */
  lemma {:induction false} ZerosDenoteZero(z: string)
    requires forall i | 0 <= i < |z| :: z[i] == '0'
    ensures AllDigits(z) && DigitsValue(z) == 0
  {
    if z != [] {
      ZerosDenoteZero(z[..|z| - 1]);
    }
  }

  /** A decimal amount followed by `.0`, `.00`, … denotes the same value as the amount itself. */
  lemma TrailingZeroFraction(s: string, z: string)
    requires s != [] && AllDigits(s)
    requires forall i | 0 <= i < |z| :: z[i] == '0'
    ensures ParseDecimal(s + "." + z) == ParseDecimal(s)
  {
    ZerosDenoteZero(z);
    ParsesTo(s, z, DigitsValue(s), 0);
    IntegerNotation(s);
  }

  /** The ui amount strings "10.0" and "15.25" are exactly 10 and 15.25, so their delta is 5.25. */
  lemma UiAmountDelta()
    ensures ParseDecimal("15.25").Minus(ParseDecimal("10.0")) == Finite(5.25)
  {
    ParsesFifteenAndAQuarter();
    ParsesTen();
  }

  lemma ParsesFifteenAndAQuarter()
    ensures ParseDecimal("15.25") == Finite(15.25)
  {
    assert DigitsValue("15") == 15 by {
      assert "15"[..1] == "1" && "1"[..0] == "";
    }
    assert DigitsValue("25") == 25 by {
      assert "25"[..1] == "2" && "2"[..0] == "";
    }
    ParsesTo("15", "25", 15, 25);
    assert ScaleDown(25.0, 1) == 2.5;
    assert "15" + "." + "25" == "15.25";
  }

  lemma ParsesTen()
    ensures ParseDecimal("10.0") == Finite(10.0)
  {
    assert DigitsValue("10") == 10 by {
      assert "10"[..1] == "1" && "1"[..0] == "";
    }
    assert DigitsValue("0") == 0 by {
      assert "0"[..0] == "";
    }
    ParsesTo("10", "0", 10, 0);
    assert "10" + "." + "0" == "10.0";
  }

  /** `whole.fraction` with digit strings denoting w and f. */
  lemma ParsesTo(whole: string, fraction: string, w: nat, f: nat)
    requires |whole| > 0 && AllDigits(whole) && AllDigits(fraction)
    requires DigitsValue(whole) == w && DigitsValue(fraction) == f
    ensures ParseDecimal(whole + "." + fraction) == Finite(w as real + ScaleDown(f as real, |fraction|))
  {
    var s := whole + "." + fraction;
    DotAfterDigits(whole, fraction);
    assert s[0] != '-' by {
      assert s[0] == whole[0] && IsDigit(whole[0]);
    }
    assert ParseDecimal(s) == ParseUnsigned(s);
  }

  /** In `whole.fraction` with an all-digit whole, the first dot is the one after the whole part. */
  lemma DotAfterDigits(whole: string, fraction: string)
    requires AllDigits(whole)
    ensures var s := whole + "." + fraction;
            && FindIndex(s, '.') == |whole|
            && s[..|whole|] == whole
            && s[|whole| + 1..] == fraction
  {
    var s := whole + "." + fraction;
    assert s[|whole|] == '.';
    assert forall i | 0 <= i < |whole| :: s[i] == whole[i] && IsDigit(whole[i]);
    assert FindIndex(s, '.') == |whole|;
    assert s[..|whole|] == whole;
    assert s[|whole| + 1..] == fraction;
  }
}
