/** `american_to_decimal`, the price conversion shared word for word by the
    daily odds saver, the odds compiler and the table clean-up script: the
    text " ML" is deleted, the rest is read with `int()`, and the American
    price `a` becomes the decimal price `1 + a/100` (a > 0) or `1 + 100/|a|`
    (otherwise). Prices are exact reals here; the final `round(..., 3)` is
    not modelled. */
module AmericanOdds {
  import opened Wrappers
  import opened Text

  datatype OddsError =
    | NotAnInteger(text: string)   // `int()` raises ValueError
    | ZeroPrice                    // `100/abs(0)` raises ZeroDivisionError
    | NotText                      // `.replace` on a number raises AttributeError

  /** The decimal price of an American price, before rounding. */
  function ToDecimal(a: int): (r: Result<real, OddsError>)
    ensures r.Err? <==> a == 0
    ensures r.Ok? ==> r.value > 1.0
  {
    if a > 0 then Ok(a as real / 100.0 + 1.0)
    else if a == 0 then Err(ZeroPrice)
    else Ok(100.0 / (-a) as real + 1.0)
  }

  /** The text `int()` is given: the price with every " ML" deleted. */
  function PriceDigits(text: string): string {
    RemoveAll(text, " ML")
  }

  /** `american_to_decimal(text)`. */
  function AmericanToDecimal(text: string): (r: Result<real, OddsError>)
    ensures r.Ok? ==> r.value > 1.0
    ensures r == Err(ZeroPrice) <==> ParseInt(PriceDigits(text)) == Some(0)
    ensures r.Err? && r != Err(ZeroPrice) <==> ParseInt(PriceDigits(text)).None?
  {
    match ParseInt(PriceDigits(text))
    case None => Err(NotAnInteger(text))
    case Some(a) => ToDecimal(a)
  }

  /** The usual range of American prices: at least 100 either way. */
  predicate Standard(a: int) {
    a <= -100 || 100 <= a
  }

  /** The American price a decimal price > 1 stands for, as a real. */
  function ToAmerican(d: real): (a: real)
    requires d > 1.0
    ensures d >= 2.0 ==> a >= 100.0
    ensures d < 2.0 ==> a < -100.0
  {
    if d >= 2.0 then (d - 1.0) * 100.0 else -100.0 / (d - 1.0)
  }

  // ---------------------------------------------------------------------
  // Properties of the conversion

  /** A positive price gives `1 + a/100`, which grows with the price. */
  lemma PositiveIncreasing(a: int, b: int)
    requires 0 < a < b
    ensures ToDecimal(a).value < ToDecimal(b).value
  {
  }

  /** A negative price gives `1 + 100/|a|`, which also grows with the price. */
  lemma NegativeIncreasing(a: int, b: int)
    requires a < b < 0
    ensures ToDecimal(a).value < ToDecimal(b).value
  {
    var x, y := (-a) as real, (-b) as real;
    assert y < x;
    assert 100.0 / x < 100.0 / y by {
      assert 100.0 / x * x == 100.0 && 100.0 / y * y == 100.0;
    }
  }

  /** Even money is the same decimal price written either way. */
  lemma EvenMoney()
    ensures ToDecimal(-100) == ToDecimal(100) == Ok(2.0)
  {
  }

  /** Over standard prices the conversion keeps order: favourites
      (negative) price at most 2, underdogs (positive) at least 2. */
  lemma StandardIncreasing(a: int, b: int)
    requires Standard(a) && Standard(b) && a <= b
    ensures ToDecimal(a).value <= ToDecimal(b).value
  {
    if a < 0 && b > 0 {
      assert ToDecimal(a).value <= 2.0 by {
        assert 100.0 / (-a) as real <= 1.0;
      }
    } else if a < b < 0 {
      NegativeIncreasing(a, b);
    }
  }

  /** On standard prices the decimal price determines the American one, up
      to the two spellings of even money. */
  lemma StandardRoundTrip(a: int)
    requires Standard(a)
    ensures ToAmerican(ToDecimal(a).value) == if a == -100 then 100.0 else a as real
  {
    var d := ToDecimal(a).value;
    if a < -100 {
      var x := (-a) as real;
      assert d == 100.0 / x + 1.0;
      assert 100.0 / x < 1.0;
      assert -100.0 / (100.0 / x) == -x;
    }
  }

  /** Off the standard range the formula is not one-to-one: +50 and -200
      both give 1.5. */
  lemma NonStandardCollision()
    ensures ToDecimal(50) == ToDecimal(-200) == Ok(1.5)
  {
  }

  lemma NoSpaceInNumber(n: int)
    ensures ' ' !in IntToString(n)
  {
    var d := NatToString(if n < 0 then -n else n);
    NatToStringValue(if n < 0 then -n else n);
    assert ' ' !in d by {
      forall i | 0 <= i < |d| ensures d[i] != ' ' {
        assert IsDigit(d[i]) || d[i] == '_';
      }
    }
    if n < 0 {
      assert IntToString(n) == "-" + d;
    }
  }

  /** A price as the site writes it, "<integer> ML", converts to the
      decimal price of that integer; so does the bare integer. */
  lemma PriceText(a: int)
    ensures AmericanToDecimal(IntToString(a) + " ML") == ToDecimal(a)
    ensures AmericanToDecimal(IntToString(a)) == ToDecimal(a)
  {
    NoSpaceInNumber(a);
    RemoveTrailing(IntToString(a), " ML");
    IntRoundTrip(a);
  }
}
