/**
 * The flat bracket lookup of the projection engine: every tax table charges
 * the whole income at the rate of the first bracket that holds it, and the
 * tables' charges are added up.
 */
module TaxLookup {
  import opened Wrappers
  import opened Records
  import opened Accrual

  /** The bracket test: `(min || 0) < income && (!max || max > income)`; both bounds are strict. */
  predicate Selects(rate: Rate, income: real) {
    OrZero(rate.min) < income && (!IsSet(rate.max) || rate.max.value > income)
  }

  /** `rates.find(...)`: the first bracket that holds the income, if any. */
  function FindRate(rates: seq<Rate>, income: real): (r: Option<Rate>)
    ensures r.None? <==> forall k :: 0 <= k < |rates| ==> !Selects(rates[k], income)
    ensures r.Some? ==> exists k :: 0 <= k < |rates| && rates[k] == r.value && Selects(r.value, income)
                                 && forall j :: 0 <= j < k ==> !Selects(rates[j], income)
    decreases |rates|
  {
    if |rates| == 0 then None
    else if Selects(rates[0], income) then Some(rates[0])
    else
      var r := FindRate(rates[1..], income);
      assert forall k :: 1 <= k < |rates| ==> rates[k] == rates[1..][k - 1];
      r
  }

  /** The percentage one table applies to the income: the selected bracket's `rate || 0`, or 0. */
  function SelectedRate(tax: Tax, income: real): real {
    match FindRate(tax.rates, income)
    case None => 0.0
    case Some(rate) => OrZero(rate.rate)
  }

  /** One table's charge: `percentageOf(income, rate?.rate || 0)`. */
  function TableTax(tax: Tax, income: real): (t: real)
    ensures t == Percent(income, SelectedRate(tax, income))
    ensures (forall k :: 0 <= k < |tax.rates| ==> !Selects(tax.rates[k], income)) ==> t == 0.0
  {
    var rate := FindRate(tax.rates, income);
    PercentageOf(income, if rate.Some? then Some(OrZero(rate.value.rate)) else None)
  }

  /** The total of the selected percentages over all tables. */
  function TotalRate(taxes: seq<Tax>, income: real): real
    decreases |taxes|
  {
    if |taxes| == 0 then 0.0 else SelectedRate(taxes[0], income) + TotalRate(taxes[1..], income)
  }

  /** Only the brackets enter the charge: tables with the same rates give the same total rate. */
  lemma {:induction false} TotalRateReadsRatesOnly(a: seq<Tax>, b: seq<Tax>, income: real)
    requires |a| == |b|
    requires forall k :: 0 <= k < |a| ==> a[k].rates == b[k].rates
    ensures TotalRate(a, income) == TotalRate(b, income)
    decreases |a|
  {
    if |a| > 0 {
      TotalRateReadsRatesOnly(a[1..], b[1..], income);
    }
  }

  /**
   * `calculateTax(income)`: the sum of every table's charge. No tables, or
   * tables with no bracket holding the income, charge nothing; otherwise the
   * whole income is taxed at the summed rate of the selected brackets (a flat,
   * not a marginal, tax).
   */
  function CalculateTax(taxes: seq<Tax>, income: real): (t: real)
    ensures |taxes| == 0 ==> t == 0.0
    ensures t == Percent(income, TotalRate(taxes, income))
    decreases |taxes|
  {
    if |taxes| == 0 then
      0.0
    else
      var rest := CalculateTax(taxes[1..], income);
      var first := TableTax(taxes[0], income);
      PercentAdditive(income, SelectedRate(taxes[0], income), TotalRate(taxes[1..], income), TotalRate(taxes, income));
      first + rest
  }

  /**
   * An income equal to the shared bound of two adjacent brackets is held by
   * neither, so a table made of them charges nothing on it.
   */
  lemma SharedBoundIsUntaxed(tax: Tax, lower: Rate, upper: Rate, bound: real)
    requires tax.rates == [lower, upper]
    requires bound != 0.0 && lower.max == Some(bound) && upper.min == Some(bound)
    ensures FindRate(tax.rates, bound).None?
    ensures TableTax(tax, bound) == 0.0
  {
    assert !Selects(tax.rates[0], bound) && !Selects(tax.rates[1], bound);
  }

  /**
   * The flat lookup is not monotone: moving from a 20% bracket into a 10%
   * bracket above it lowers the tax.
   */
  lemma TaxCanFallAsIncomeRises()
    ensures var tax := Tax(1, "income", IncomeTax, [Rate(1, Some(20.0), None, Some(100.0)), Rate(2, Some(10.0), Some(100.0), None)]);
      CalculateTax([tax], 99.0) > CalculateTax([tax], 101.0)
  {
    var tax := Tax(1, "income", IncomeTax, [Rate(1, Some(20.0), None, Some(100.0)), Rate(2, Some(10.0), Some(100.0), None)]);
    assert FindRate(tax.rates, 99.0) == Some(tax.rates[0]);
    assert FindRate(tax.rates, 101.0) == Some(tax.rates[1]);
    assert [tax][1..] == [];
  }
}
