/**
 * The records the application stores: accounts with their investments,
 * incomes, expenses, tax tables with their rates, RMD rows and the general
 * parameters. Shapes follow the fields the code reads.
 */
module Records {
  import opened Wrappers

  /** A number read with parseFloat: `None` stands for NaN (an empty or unreadable field). */
  type Parsed = Option<real>

  /** JavaScript truthiness of an optional number: present and non-zero. */
  predicate IsSet(x: Option<real>) {
    x.Some? && x.value != 0.0
  }

  /** `x || 0` on an optional number. */
  function OrZero(x: Option<real>): (r: real)
    ensures IsSet(x) ==> r == x.value
    ensures !IsSet(x) ==> r == 0.0
  {
    if x.Some? then x.value else 0.0
  }

  /** JavaScript truthiness of an optional string: present and non-empty. */
  predicate HasText(s: Option<string>) {
    s.Some? && |s.value| > 0
  }

  /** The form parsers' `if (!result.x) delete result.x`. */
  function DropFalsy(x: Parsed): (r: Option<real>)
    ensures IsSet(x) ==> r == x
    ensures !IsSet(x) ==> r == None
  {
    if IsSet(x) then x else None
  }

  /** A field in normal form: deleted, or holding a non-zero number. */
  predicate Normal(x: Option<real>) {
    x.None? || x.value != 0.0
  }

  datatype Investment = Investment(
    id: int,
    name: string,
    shares: Option<real>,
    basis: Option<real>,
    price: Option<real>,
    dividendPct: Option<real>,
    returnPct: Option<real>,
    priority: Option<real>,
    deposit: bool,
    assetClass: Option<string>)

  /**
   * An account either carries a bare `value` (with its own return and
   * dividend) or a list of investments. `qualified` (tax-deferred) is what
   * the projection engine reads; `kind` is what the account form writes.
   */
  datatype Account = Account(
    id: int,
    name: string,
    kind: string,
    qualified: bool,
    value: Option<real>,
    returnPct: Option<real>,
    dividendPct: Option<real>,
    priority: Option<real>,
    deposit: bool,
    investments: seq<Investment>)

  datatype Income = Income(
    id: int,
    name: string,
    value: Option<real>,
    start: Option<string>,
    stop: Option<string>)

  datatype Expense = Expense(
    id: int,
    name: string,
    value: Option<real>,
    frequency: Option<real>,
    start: Option<string>,
    stop: Option<string>)

  /** One bracket of a tax table: `rate` percent for incomes in (min, max). */
  datatype Rate = Rate(id: int, rate: Option<real>, min: Option<real>, max: Option<real>)

  datatype TaxKind = IncomeTax | GainsTax

  datatype Tax = Tax(id: int, name: string, kind: TaxKind, rates: seq<Rate>)

  /** One row of the required-minimum-distribution table. */
  datatype Rmd = Rmd(id: int, age: Option<real>, distribution: Option<real>)

  /** The engine's parameters: current age, the age to project to, inflation percent. */
  datatype General = General(age: int, until: int, inflation: Option<real>)

  /** A live quote for a ticker, as supplied by the price fetcher. */
  datatype Quote = Quote(price: Option<real>)

  type Prices = map<string, Quote>

  datatype Data = Data(
    general: General,
    accounts: seq<Account>,
    incomes: seq<Income>,
    expenses: seq<Expense>,
    taxes: seq<Tax>,
    rmds: seq<Rmd>)

  /** The id of each record kind, as the list updaters read it. */
  function InvestmentId(i: Investment): int { i.id }
  function AccountId(a: Account): int { a.id }
  function IncomeId(i: Income): int { i.id }
  function ExpenseId(e: Expense): int { e.id }
  function RateId(r: Rate): int { r.id }
  function TaxId(t: Tax): int { t.id }
  function RmdId(r: Rmd): int { r.id }
}
