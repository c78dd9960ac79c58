/** `clamp` and the number formatters. The digit rendering itself
    (`toFixed`, `Intl.NumberFormat`, `toString`) is a parameter: the model
    fixes which renderer is called on which scaled value, and which prefix and
    suffix surround it. */
module Utils {
  import opened Js

  // ---------------------------------------------------------------------------
  // clamp

  function Min(a: real, b: real): real {
    if a <= b then a else b
  }

  function Max(a: real, b: real): real {
    if a >= b then a else b
  }

  /** `Math.min(Math.max(value, min), max)`. */
  function Clamp(value: real, min: real, max: real): (r: real)
    ensures min <= max ==> min <= r <= max
    ensures min <= value <= max ==> r == value
    ensures value < min <= max ==> r == min
    ensures min <= max < value ==> r == max
    ensures min > max ==> r == max
  {
    Min(Max(value, min), max)
  }

  /** Clamping twice is clamping once. */
  lemma ClampIdempotent(value: real, min: real, max: real)
    ensures Clamp(Clamp(value, min, max), min, max) == Clamp(value, min, max)
  {
  }

  // ---------------------------------------------------------------------------
  // Renderers

  /** The characters a rendered finite number can contain: digits, sign,
      decimal point, grouping comma and an exponent marker. */
  predicate NumeralChar(c: char) {
    IsDigit(c) || c == '-' || c == '+' || c == '.' || c == ',' || c == 'e'
  }

  /** A rendered finite number: it starts with a digit or '-', ends with a
      digit, and uses only numeral characters. */
  predicate Numeral(s: string) {
    && |s| > 0
    && (IsDigit(s[0]) || s[0] == '-')
    && IsDigit(s[|s| - 1])
    && forall i :: 0 <= i < |s| ==> NumeralChar(s[i])
  }

  /** `x.toFixed(d)` and `new Intl.NumberFormat(...).format(x)` with `d` fraction digits. */
  type Render = (real, int) -> string

  /** `x.toString()`. */
  type Show = real -> string

  ghost predicate RendersNumerals(f: Render) {
    forall x, d :: Numeral(f(x, d))
  }

  ghost predicate ShowsNumerals(f: Show) {
    forall x :: Numeral(f(x))
  }

  // ---------------------------------------------------------------------------
  // The thresholds

  datatype Scale = Millions | Thousands | Units

  /** The scale all three formatters select with `>= 1000000` and `>= 1000`. */
  function ScaleOf(value: real): (s: Scale)
    ensures s == Millions <==> value >= 1000000.0
    ensures s == Thousands <==> 1000.0 <= value < 1000000.0
    ensures s == Units <==> value < 1000.0
  {
    if value >= 1000000.0 then Millions
    else if value >= 1000.0 then Thousands
    else Units
  }

  // ---------------------------------------------------------------------------
  // formatCurrency

  /** `formatCurrency(value, decimals)`: "$<value/1e6>M", "$<value/1e3>K", or
      below 1000 the plain number formatter, which adds no currency sign. */
  function FormatCurrency(value: real, decimals: int, toFixed: Render, intl: Render): (r: string)
    ensures value >= 1000000.0 ==> r == "$" + toFixed(value / 1000000.0, decimals) + "M"
    ensures 1000.0 <= value < 1000000.0 ==> r == "$" + toFixed(value / 1000.0, decimals) + "K"
    ensures value < 1000.0 ==> r == intl(value, decimals)
  {
    match ScaleOf(value)
    case Millions => "$" + toFixed(value / 1000000.0, decimals) + "M"
    case Thousands => "$" + toFixed(value / 1000.0, decimals) + "K"
    case Units => intl(value, decimals)
  }

  /** Whenever the renderers produce numerals, the prefix and suffix tell the
      scale: "$" exactly from 1000 up, "M" exactly from a million up, "K"
      exactly in between. */
  lemma FormatCurrencyShape(value: real, decimals: int, toFixed: Render, intl: Render)
    requires RendersNumerals(toFixed) && RendersNumerals(intl)
    ensures var r := FormatCurrency(value, decimals, toFixed, intl);
            && (StartsWith(r, "$") <==> value >= 1000.0)
            && (EndsWith(r, "M") <==> value >= 1000000.0)
            && (EndsWith(r, "K") <==> 1000.0 <= value < 1000000.0)
  {
    var r := FormatCurrency(value, decimals, toFixed, intl);
    if value < 1000.0 {
      assert Numeral(intl(value, decimals));
      assert r[0] != '$' && r[|r| - 1] != 'M' && r[|r| - 1] != 'K';
    } else if value < 1000000.0 {
      assert r[|r| - 1] == 'K';
    } else {
      assert r[|r| - 1] == 'M';
    }
  }

  // ---------------------------------------------------------------------------
  // formatPercentage

  /** `formatPercentage(value, decimals)`: a "+" for non-negative values, the
      rendered number, and "%". */
  function FormatPercentage(value: real, decimals: int, toFixed: Render): (r: string)
    ensures value >= 0.0 ==> r == "+" + toFixed(value, decimals) + "%"
    ensures value < 0.0 ==> r == toFixed(value, decimals) + "%"
  {
    var sign := if value >= 0.0 then "+" else "";
    sign + toFixed(value, decimals) + "%"
  }

  /** With a numeral renderer, the result ends in "%" and starts with "+"
      exactly when the value is not negative. */
  lemma FormatPercentageShape(value: real, decimals: int, toFixed: Render)
    requires RendersNumerals(toFixed)
    ensures var r := FormatPercentage(value, decimals, toFixed);
            && EndsWith(r, "%")
            && (StartsWith(r, "+") <==> value >= 0.0)
  {
    var r := FormatPercentage(value, decimals, toFixed);
    assert r[|r| - 1] == '%';
    if value < 0.0 {
      assert Numeral(toFixed(value, decimals));
      assert r[0] == toFixed(value, decimals)[0];
    }
  }

  // ---------------------------------------------------------------------------
  // formatNumber

  /** `formatNumber(value)`: one decimal with "M" or "K", else `toString`. */
  function FormatNumber(value: real, toFixed: Render, show: Show): (r: string)
    ensures value >= 1000000.0 ==> r == toFixed(value / 1000000.0, 1) + "M"
    ensures 1000.0 <= value < 1000000.0 ==> r == toFixed(value / 1000.0, 1) + "K"
    ensures value < 1000.0 ==> r == show(value)
  {
    match ScaleOf(value)
    case Millions => toFixed(value / 1000000.0, 1) + "M"
    case Thousands => toFixed(value / 1000.0, 1) + "K"
    case Units => show(value)
  }

  /** With numeral renderers the suffix tells the scale. */
  lemma FormatNumberShape(value: real, toFixed: Render, show: Show)
    requires RendersNumerals(toFixed) && ShowsNumerals(show)
    ensures var r := FormatNumber(value, toFixed, show);
            && (EndsWith(r, "M") <==> value >= 1000000.0)
            && (EndsWith(r, "K") <==> 1000.0 <= value < 1000000.0)
            && (value < 1000.0 <==> Numeral(r))
  {
    var r := FormatNumber(value, toFixed, show);
    if value < 1000.0 {
      assert Numeral(show(value));
    } else if value < 1000000.0 {
      assert r[|r| - 1] == 'K';
    } else {
      assert r[|r| - 1] == 'M';
    }
  }
}
