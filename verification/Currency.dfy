/** Charm-price rounding and minor-unit conversion (core/saasmint_core/services/currency.py and the
    conversion helper of apps/billing/tasks.py), in exact arithmetic: `real` stands for the float and
    Decimal values of the source. */
module Currency {

  const ZERO_DECIMAL_CURRENCIES: set<string> := {"jpy", "krw", "idr", "twd"}

  const SUPPORTED_CURRENCIES: set<string> := {
    "usd", "eur", "gbp", "jpy", "brl", "krw", "sek", "nok", "dkk", "pln",
    "try", "idr", "rub", "cny", "twd", "sar", "aed", "chf", "cad", "aud"}

  function Lower(s: string): string {
    seq(|s|, i requires 0 <= i < |s| => if 'A' <= s[i] <= 'Z' then s[i] - 'A' + 'a' else s[i])
  }

  predicate ZeroDecimal(currency: string) {
    Lower(currency) in ZERO_DECIMAL_CURRENCIES
  }

  function FormatAmount(amount: int, currency: string): real {
    if ZeroDecimal(currency) then amount as real else amount as real / 100.0
  }

  function Distance(x: real, y: real): real {
    if x <= y then y - x else x - y
  }

  /** Python's `min(options, key=...)`: the first option at the least distance. */
  function Closest(options: seq<real>, amount: real): (r: real)
    requires options != []
    ensures r in options
    ensures forall o :: o in options ==> Distance(r, amount) <= Distance(o, amount)
  {
    if |options| == 1 then options[0]
    else
      var rest := Closest(options[1..], amount);
      if Distance(options[0], amount) <= Distance(rest, amount) then options[0] else rest
  }

  /** Python's `round`: to the nearest integer, halves to the even one. */
  function RoundHalfEven(x: real): (n: int) {
    var f := x.Floor;
    var rest := x - f as real;
    if rest < 0.5 then f
    else if rest > 0.5 then f + 1
    else if f % 2 == 0 then f else f + 1
  }

  /** Decimal's ROUND_HALF_UP: halves away from zero. */
  function RoundHalfUp(x: real): int {
    if x >= 0.0 then (x + 0.5).Floor else -((0.5 - x).Floor)
  }

  function Step(amount: real): int {
    if amount >= 1000.0 then 100 else 10
  }

  function RoundZeroDecimal(amount: real): real {
    (RoundHalfEven(amount / Step(amount) as real) * Step(amount)) as real
  }

  function RoundStandard(amount: real): real {
    var whole := amount.Floor as real;
    Closest([whole - 0.01, whole + 0.49, whole + 0.99, whole + 1.49], amount)
  }

  function RoundFriendly(amount: real, currency: string): real {
    if amount <= 0.0 then 0.0
    else if ZeroDecimal(currency) then RoundZeroDecimal(amount)
    else RoundStandard(amount)
  }

  function ToMinorUnits(display: real, currency: string): int {
    if ZeroDecimal(currency) then RoundHalfUp(display) else RoundHalfUp(display * 100.0)
  }

  /** Minor units are the nearest whole number of them, a half going away from zero. */
  lemma MinorUnitsNearest(display: real, currency: string)
    ensures var exact, n := if ZeroDecimal(currency) then display else display * 100.0, ToMinorUnits(display, currency);
            && n as real - 0.5 <= exact <= n as real + 0.5
            && (exact == n as real - 0.5 ==> n > 0) && (exact == n as real + 0.5 ==> n < 0)
  {
    hide ZeroDecimal;
  }

  function Converted(cents: int, rate: real): real {
    FormatAmount(cents, "usd") * rate
  }

  /** The conversion, the rounding and the minor units, one after the other. */
  lemma LocalizeSteps(cents: int, rate: real, currency: string)
    ensures Localize(cents, rate, currency)
            == ToMinorUnits(RoundFriendly(FormatAmount(cents, "usd") * rate, currency), currency)
  {
    hide ToMinorUnits, RoundFriendly, FormatAmount;
  }

  /** What the price sync stores for a USD amount in cents under one exchange rate. */
  function Localize(cents: int, rate: real, currency: string): int {
    ToMinorUnits(RoundFriendly(Converted(cents, rate), currency), currency)
  }

  // ---------------------------------------------------------------- two-decimal currencies

  /** All prices ending in .49 or .99: ..., -0.51, -0.01, 0.49, 0.99, 1.49, ... */
  function Anchor(k: int): real {
    (50 * k + 49) as real / 100.0
  }

  /** r is the anchor nearest to the amount, the lower one on a tie. */
  ghost predicate NearestAnchor(r: real, amount: real) {
    && (exists k :: r == Anchor(k))
    && forall k {:trigger Anchor(k)} ::
         Distance(r, amount) < Distance(Anchor(k), amount)
         || (Distance(r, amount) == Distance(Anchor(k), amount) && r <= Anchor(k))
  }

  /** Which of the four options wins, read off the fractional part: never the last one. */
  lemma StandardOption(amount: real)
    ensures var w, f := amount.Floor, amount - amount.Floor as real;
            RoundStandard(amount) == Anchor(if f <= 0.24 then 2 * w - 1 else if f <= 0.74 then 2 * w else 2 * w + 1)
  {
    var w := amount.Floor as real;
    var options := [w - 0.01, w + 0.49, w + 0.99, w + 1.49];
    assert options[1..] == [w + 0.49, w + 0.99, w + 1.49];
    assert options[1..][1..] == [w + 0.99, w + 1.49];
    assert options[1..][1..][1..] == [w + 1.49];
    assert Closest(options[1..][1..][1..], amount) == w + 1.49;
    assert Closest(options[1..][1..], amount) == w + 0.99;
    assert Closest(options[1..], amount) == if Distance(w + 0.49, amount) <= Distance(w + 0.99, amount) then w + 0.49
           else w + 0.99;
  }

  lemma StandardChoice(amount: real) returns (k: int)
    ensures RoundStandard(amount) == Anchor(k)
    ensures Anchor(k) - 0.25 < amount <= Anchor(k) + 0.25
  {
    var w, f := amount.Floor, amount - amount.Floor as real;
    StandardOption(amount);
    k := if f <= 0.24 then 2 * w - 1 else if f <= 0.74 then 2 * w else 2 * w + 1;
  }

  lemma AnchorOrder(j: int, k: int)
    requires j < k
    ensures Anchor(j) + 0.5 <= Anchor(k)
  {
  }

  /** Only one anchor has the amount in its half-open band of width one half. */
  lemma AnchorUnique(j: int, k: int, amount: real)
    requires Anchor(j) - 0.25 < amount <= Anchor(j) + 0.25
    requires Anchor(k) - 0.25 < amount <= Anchor(k) + 0.25
    ensures j == k
  {
    if j < k { AnchorOrder(j, k); }
    if k < j { AnchorOrder(k, j); }
  }

  lemma StandardRounding(amount: real, currency: string)
    requires amount > 0.0 && !ZeroDecimal(currency)
    ensures NearestAnchor(RoundFriendly(amount, currency), amount)
    ensures Distance(RoundFriendly(amount, currency), amount) <= 0.25
    ensures RoundFriendly(amount, currency) - 0.25 < amount <= RoundFriendly(amount, currency) + 0.25
    ensures RoundFriendly(amount, currency) != amount.Floor as real + 1.49
  {
    var k := StandardChoice(amount);
    forall j
      ensures Distance(Anchor(k), amount) < Distance(Anchor(j), amount)
              || (Distance(Anchor(k), amount) == Distance(Anchor(j), amount) && Anchor(k) <= Anchor(j))
    {
      if j < k { AnchorOrder(j, k); }
      if j > k { AnchorOrder(k, j); }
    }
  }

  /** The snapped price is positive exactly when the amount is above 0.24. */
  lemma StandardPositive(amount: real)
    ensures RoundStandard(amount) > 0.0 <==> amount > 0.24
  {
    var k := StandardChoice(amount);
    if k >= 0 { assert Anchor(k) >= 0.49; } else { assert Anchor(k) <= -0.01; }
  }

  lemma StandardMonotone(a: real, b: real)
    requires a <= b
    ensures RoundStandard(a) <= RoundStandard(b)
  {
    var j := StandardChoice(a);
    var k := StandardChoice(b);
    if k < j { AnchorOrder(k, j); }
  }

  lemma StandardIdempotent(amount: real)
    ensures RoundStandard(RoundStandard(amount)) == RoundStandard(amount)
  {
    var k := StandardChoice(amount);
    var j := StandardChoice(Anchor(k));
    AnchorUnique(j, k, Anchor(k));
  }

  // ---------------------------------------------------------------- zero-decimal currencies

  lemma HalfEvenBounds(x: real)
    ensures RoundHalfEven(x) as real - 0.5 <= x <= RoundHalfEven(x) as real + 0.5
    ensures x == RoundHalfEven(x) as real + 0.5 || x == RoundHalfEven(x) as real - 0.5 ==> RoundHalfEven(x) % 2 == 0
  {
  }

  lemma HalfEvenMonotone(x: real, y: real)
    requires x <= y
    ensures RoundHalfEven(x) <= RoundHalfEven(y)
  {
    HalfEvenBounds(x);
    HalfEvenBounds(y);
  }

  /** Nearest multiple of the step (10, or 100 from 1000 on), an exact half going to the even multiple. */
  lemma ZeroDecimalRounding(amount: real) returns (n: int)
    requires amount > 0.0
    ensures n >= 0 && RoundZeroDecimal(amount) == (n * Step(amount)) as real
    ensures Distance(RoundZeroDecimal(amount), amount) <= Step(amount) as real / 2.0
    ensures Distance(RoundZeroDecimal(amount), amount) == Step(amount) as real / 2.0 ==> n % 2 == 0
    ensures amount >= 1000.0 <==> Step(amount) == 100
    ensures if amount < 1000.0 then n <= 100 else n >= 10
  {
    n := RoundHalfEven(amount / Step(amount) as real);
    HalfEvenBounds(amount / Step(amount) as real);
    if amount < 1000.0 {
      assert amount == 10.0 * (amount / 10.0);
    } else {
      assert amount == 100.0 * (amount / 100.0);
    }
  }

  lemma ZeroDecimalFixed(m: int, step: int)
    requires m >= 0 && step == Step((m * step) as real)
    ensures RoundZeroDecimal((m * step) as real) == (m * step) as real
  {
    assert (m * step) as real / step as real == m as real by {
      assert step == 10 || step == 100;
    }
  }

  lemma ZeroDecimalIdempotent(amount: real)
    requires amount > 0.0
    ensures RoundZeroDecimal(RoundZeroDecimal(amount)) == RoundZeroDecimal(amount)
  {
    var n := ZeroDecimalRounding(amount);
    if Step(RoundZeroDecimal(amount)) == Step(amount) {
      ZeroDecimalFixed(n, Step(amount));
    } else {
      assert n == 100;
      ZeroDecimalFixed(10, 100);
    }
  }

  lemma ZeroDecimalMonotone(a: real, b: real)
    requires 0.0 < a <= b
    ensures RoundZeroDecimal(a) <= RoundZeroDecimal(b)
  {
    if Step(a) == Step(b) {
      assert a / Step(a) as real <= b / Step(b) as real;
      HalfEvenMonotone(a / Step(a) as real, b / Step(b) as real);
    } else {
      var n := ZeroDecimalRounding(a);
      var m := ZeroDecimalRounding(b);
    }
  }

  // ---------------------------------------------------------------- all currencies

  /** Rounding twice is rounding once, except on the amounts that snap below zero. */
  lemma Idempotent(amount: real, currency: string)
    ensures RoundFriendly(RoundFriendly(amount, currency), currency) == RoundFriendly(amount, currency)
            <==> ZeroDecimal(currency) || amount <= 0.0 || amount > 0.24
  {
    if amount > 0.0 {
      if ZeroDecimal(currency) {
        var n := ZeroDecimalRounding(amount);
        ZeroDecimalIdempotent(amount);
      } else {
        var k := StandardChoice(amount);
        StandardPositive(amount);
        StandardIdempotent(amount);
      }
    }
  }

  /** Rounding keeps order, except from zero or below into the amounts that snap below zero. */
  lemma Monotone(a: real, b: real, currency: string)
    requires a <= b
    ensures RoundFriendly(a, currency) <= RoundFriendly(b, currency)
            <==> ZeroDecimal(currency) || !(a <= 0.0 < b <= 0.24)
  {
    if b > 0.0 {
      if ZeroDecimal(currency) {
        var m := ZeroDecimalRounding(b);
        if a > 0.0 { ZeroDecimalMonotone(a, b); }
      } else if a > 0.0 {
        StandardMonotone(a, b);
      } else {
        StandardPositive(b);
        var k := StandardChoice(b);
        assert Anchor(k) != 0.0;
      }
    }
  }

  lemma HalfUpInteger(x: real, n: int)
    requires x == n as real
    ensures RoundHalfUp(x) == n
  {
  }

  lemma MinorUnitsOfAnchor(k: int)
    ensures RoundHalfUp(Anchor(k) * 100.0) == 50 * k + 49
  {
    HalfUpInteger(Anchor(k) * 100.0, 50 * k + 49);
  }

  /** Stored two-decimal prices all end in 49 or 99 minor units. */
  lemma StandardMinorUnits(amount: real, currency: string)
    requires amount > 0.0 && !ZeroDecimal(currency)
    ensures ToMinorUnits(RoundFriendly(amount, currency), currency) % 50 == 49
  {
    hide RoundHalfUp, Anchor, RoundStandard, ZeroDecimal;
    var k := StandardChoice(amount);
    MinorUnitsOfAnchor(k);
  }

  lemma StandardMinorUnitsExact(amount: real)
    ensures RoundHalfUp(RoundStandard(amount) * 100.0) as real / 100.0 == RoundStandard(amount)
  {
    var k := StandardChoice(amount);
    MinorUnitsOfAnchor(k);
  }

  lemma ZeroDecimalMinorUnitsExact(amount: real)
    requires amount > 0.0
    ensures RoundHalfUp(RoundZeroDecimal(amount)) as real == RoundZeroDecimal(amount)
  {
    var n := ZeroDecimalRounding(amount);
    HalfUpInteger(RoundZeroDecimal(amount), n * Step(amount));
  }

  /** Converting a rounded price to minor units loses nothing: formatting it again gives the price. */
  lemma MinorUnitsExact(amount: real, currency: string)
    ensures FormatAmount(ToMinorUnits(RoundFriendly(amount, currency), currency), currency)
            == RoundFriendly(amount, currency)
  {
    if amount <= 0.0 {
      HalfUpInteger(0.0, 0);
    } else if ZeroDecimal(currency) {
      ZeroDecimalMinorUnitsExact(amount);
    } else {
      StandardMinorUnitsExact(amount);
    }
  }

  lemma FormatRoundTrip(n: int, currency: string)
    ensures ToMinorUnits(FormatAmount(n, currency), currency) == n
  {
    assert n as real / 100.0 * 100.0 == n as real;
  }

  lemma FormatMonotone(m: int, n: int, currency: string)
    ensures m <= n <==> FormatAmount(m, currency) <= FormatAmount(n, currency)
  {
  }

  lemma ConvertedKeepsOrder(x: real, y: real, currency: string)
    requires x <= y
    ensures ToMinorUnits(RoundFriendly(x, currency), currency) <= ToMinorUnits(RoundFriendly(y, currency), currency)
            <==> ZeroDecimal(currency) || !(x <= 0.0 < y <= 0.24)
  {
    Monotone(x, y, currency);
    MinorUnitsExact(x, currency);
    MinorUnitsExact(y, currency);
    FormatMonotone(ToMinorUnits(RoundFriendly(x, currency), currency),
                   ToMinorUnits(RoundFriendly(y, currency), currency), currency);
  }

  lemma ConversionKeepsOrder(a: int, b: int, rate: real)
    requires a <= b && rate >= 0.0
    ensures Converted(a, rate) <= Converted(b, rate)
  {
    FormatMonotone(a, b, "usd");
    var x, y := FormatAmount(a, "usd"), FormatAmount(b, "usd");
    assert (y - x) * rate >= 0.0;
  }

  /** Under one rate a dearer USD price is never cheaper locally, with the same single exception:
      a price of zero or less against one that snaps below zero. */
  lemma LocalizeKeepsOrder(a: int, b: int, rate: real, currency: string)
    requires a <= b && rate >= 0.0
    ensures Localize(a, rate, currency) <= Localize(b, rate, currency)
            <==> ZeroDecimal(currency) || !(Converted(a, rate) <= 0.0 < Converted(b, rate) <= 0.24)
  {
    hide Converted, RoundFriendly, ToMinorUnits;
    ConversionKeepsOrder(a, b, rate);
    ConvertedKeepsOrder(Converted(a, rate), Converted(b, rate), currency);
  }

  lemma NoAmount(x: real, currency: string)
    requires x <= 0.0
    ensures ToMinorUnits(RoundFriendly(x, currency), currency) == 0
  {
    HalfUpInteger(0.0, 0);
  }

  lemma StandardAmount(x: real, currency: string)
    requires x > 0.0 && !ZeroDecimal(currency)
    ensures var n := ToMinorUnits(RoundFriendly(x, currency), currency);
            n % 50 == 49 && x - 0.25 <= n as real / 100.0 <= x + 0.25
  {
    StandardRounding(x, currency);
    StandardMinorUnits(x, currency);
    MinorUnitsExact(x, currency);
    hide RoundFriendly, ToMinorUnits, NearestAnchor;
  }

  lemma ZeroDecimalAmount(x: real, currency: string)
    requires x > 0.0 && ZeroDecimal(currency)
    ensures var n, step := ToMinorUnits(RoundFriendly(x, currency), currency), if x >= 1000.0 then 100 else 10;
            n % step == 0 && x - step as real / 2.0 <= n as real <= x + step as real / 2.0
  {
    var m := ZeroDecimalRounding(x);
    HalfUpInteger(RoundZeroDecimal(x), m * Step(x));
    hide RoundZeroDecimal, RoundHalfUp;
  }

  /** What is stored for a USD amount in cents, in the numbers themselves. In a two-decimal currency it ends in 49 or 99
      and is within a quarter of a unit of the converted amount; in a zero-decimal one it is a multiple of 10 within 5
      of it, or from a thousand on a multiple of 100 within 50. */
  lemma LocalizedAmount(cents: int, rate: real, currency: string)
    ensures var x, n := cents as real / 100.0 * rate, Localize(cents, rate, currency);
            && (x <= 0.0 ==> n == 0)
            && (x > 0.0 && !ZeroDecimal(currency) ==> n % 50 == 49 && x - 0.25 <= n as real / 100.0 <= x + 0.25)
            && (0.0 < x < 1000.0 && ZeroDecimal(currency) ==> n % 10 == 0 && x - 5.0 <= n as real <= x + 5.0)
            && (x >= 1000.0 && ZeroDecimal(currency) ==> n % 100 == 0 && x - 50.0 <= n as real <= x + 50.0)
  {
    ConvertedMeans(cents, rate);
    var x := Converted(cents, rate);
    hide Converted, ToMinorUnits, RoundFriendly, ZeroDecimal;
    if x <= 0.0 {
      NoAmount(x, currency);
    } else if ZeroDecimal(currency) {
      ZeroDecimalAmount(x, currency);
    } else {
      StandardAmount(x, currency);
    }
  }

  lemma ConvertedMeans(cents: int, rate: real)
    ensures Converted(cents, rate) == cents as real / 100.0 * rate
  {
    DollarsAreCents(cents);
  }

  lemma DollarsAreCents(cents: int)
    ensures FormatAmount(cents, "usd") == cents as real / 100.0
  {
    assert Lower("usd") == "usd";
  }

  /** Which currencies have no minor unit, in any case of letters. */
  lemma ZeroDecimalOnes()
    ensures ZeroDecimal("jpy") && ZeroDecimal("krw") && ZeroDecimal("idr") && ZeroDecimal("twd") && ZeroDecimal("JPY")
    ensures !ZeroDecimal("usd") && !ZeroDecimal("eur") && !ZeroDecimal("brl")
  {
    assert Lower("jpy") == "jpy" && Lower("krw") == "krw" && Lower("idr") == "idr" && Lower("twd") == "twd";
    assert Lower("JPY") == "jpy" && Lower("usd") == "usd" && Lower("eur") == "eur" && Lower("brl") == "brl";
    assert "usd"[0] == 'u' && "eur"[0] == 'e' && "brl"[0] == 'b';
  }
}
