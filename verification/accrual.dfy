/**
 * The percentage helpers and the mid-year activity window of the projection
 * engine, and the year-to-year carry-forward of incomes and expenses.
 */
module Accrual {
  import opened Wrappers
  import opened Records
  import opened Text

  /** `rate` percent of `value`. */
  function Percent(value: real, rate: real): real {
    value * rate / 100.0
  }

  /** Percentages of one value add up: `rate` percent plus `other` percent is their sum percent. */
  lemma PercentAdditive(value: real, rate: real, other: real, sum: real)
    requires sum == rate + other
    ensures Percent(value, rate) + Percent(value, other) == Percent(value, sum)
  {
  }

  /** `percentageOf(value, percentage = 0)`: `percentage` percent of `value`. */
  function PercentageOf(value: real, percentage: Option<real>): (r: real)
    ensures r == Percent(value, OrZero(percentage))
    ensures !IsSet(percentage) ==> r == 0.0
    ensures value == 0.0 ==> r == 0.0
    ensures percentage == Some(100.0) ==> r == value
  {
    (value * OrZero(percentage)) / 100.0
  }

  /** The factor a balance is multiplied by when it grows by `percentage` percent. */
  function Growth(percentage: Option<real>): real {
    1.0 + OrZero(percentage) / 100.0
  }

  /** `incrementByPercentage(value, percentage = 0)`. */
  function IncrementByPercentage(value: real, percentage: Option<real>): (r: real)
    ensures r == value + PercentageOf(value, percentage)
    ensures r == value * Growth(percentage)
    ensures !IsSet(percentage) ==> r == value
  {
    value + (value * OrZero(percentage)) / 100.0
  }

  /** The date a year is compared at: `${year}-07-01`. */
  function MidYear(year: int): string {
    IntToString(year) + "-07-01"
  }

  /**
   * `within(year, start, stop)`: a dated flow is active in `year` unless it
   * starts after the first of July or stops before it (string comparison).
   */
  function Within(year: int, start: Option<string>, stop: Option<string>): (r: bool)
    ensures r <==> ((!HasText(start) || LexLe(start.value, MidYear(year)))
                    && (!HasText(stop) || LexLe(MidYear(year), stop.value)))
    ensures !HasText(start) && !HasText(stop) ==> r
  {
    var midYear := MidYear(year);
    NotLessIsLe(if start.Some? then start.value else "", midYear);
    NotLessIsLe(midYear, if stop.Some? then stop.value else "");
    if HasText(start) && LexLess(midYear, start.value) then false
    else if HasText(stop) && LexLess(stop.value, midYear) then false
    else true
  }

  /**
   * One year of an income or expense: zero outside its window; inside it, a
   * running value grows by inflation and a zero value restarts at the nominal one.
   */
  function CarryForward(prior: real, nominal: Option<real>, active: bool, inflation: Option<real>): (r: real)
    ensures !active ==> r == 0.0
    ensures active && prior != 0.0 ==> r == prior * Growth(inflation)
    ensures active && prior == 0.0 ==> r == OrZero(nominal)
  {
    if active then
      if prior != 0.0 then IncrementByPercentage(prior, inflation) else OrZero(nominal)
    else 0.0
  }

  /** The value after `n` consecutive active years, starting from `prior`. */
  function ActiveRun(prior: real, nominal: Option<real>, inflation: Option<real>, n: nat): real
    decreases n
  {
    if n == 0 then prior else CarryForward(ActiveRun(prior, nominal, inflation, n - 1), nominal, true, inflation)
  }

  /** `v` grown by `inflation` percent, `n` times over. */
  function Inflate(v: real, inflation: Option<real>, n: nat): real
    decreases n
  {
    if n == 0 then v else IncrementByPercentage(Inflate(v, inflation, n - 1), inflation)
  }

  /** With a non-zero growth factor, compounding never reaches zero from a non-zero value. */
  lemma {:induction false} InflateZero(v: real, inflation: Option<real>, n: nat)
    requires Growth(inflation) != 0.0
    ensures Inflate(v, inflation, n) == 0.0 <==> v == 0.0
    decreases n
  {
    if n > 0 {
      InflateZero(v, inflation, n - 1);
      GrowZero(Inflate(v, inflation, n - 1), inflation);
    }
  }

  /** One growth step maps zero to zero and, with a non-zero factor, nothing else to zero. */
  lemma GrowZero(x: real, inflation: Option<real>)
    requires Growth(inflation) != 0.0
    ensures IncrementByPercentage(x, inflation) == 0.0 <==> x == 0.0
  {
    var g := Growth(inflation);
    assert IncrementByPercentage(x, inflation) == x * g;
    if x != 0.0 {
      MulNonZero(x, g);
    }
  }

  lemma MulNonZero(x: real, y: real)
    requires x != 0.0 && y != 0.0
    ensures x * y != 0.0
  {
  }

  /**
   * Inflation compounds only across contiguous active years: a flow that
   * becomes active is worth its nominal value, and `n` further active years
   * later it is worth the nominal value grown by inflation `n` times.
   */
  lemma {:induction false} CompoundsWhileActive(nominal: Option<real>, inflation: Option<real>, n: nat)
    requires Growth(inflation) != 0.0
    ensures ActiveRun(0.0, nominal, inflation, n + 1) == Inflate(OrZero(nominal), inflation, n)
    decreases n
  {
    var o := OrZero(nominal);
    if n > 0 {
      CompoundsWhileActive(nominal, inflation, n - 1);
      InflateZero(o, inflation, n - 1);
    }
  }
}
