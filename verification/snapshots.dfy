/**
 * One projected year: every account (with its investments), income and
 * expense as the engine values it that year, and the year's totals.
 */
module Snapshots {
  import opened Records
  import opened Sums

  datatype InvestmentYear = InvestmentYear(investment: Investment, value: real, dividends: real)

  /** `change` marks the first year the account's bare value was drawn on. */
  datatype AccountYear = AccountYear(
    account: Account,
    value: real,
    dividends: real,
    investments: seq<InvestmentYear>,
    change: bool)

  datatype IncomeYear = IncomeYear(income: Income, value: real)

  datatype ExpenseYear = ExpenseYear(expense: Expense, value: real)

  /** `dividends` is the non-qualified dividend income of the year. */
  datatype Snapshot = Snapshot(
    year: int,
    age: int,
    accounts: seq<AccountYear>,
    incomes: seq<IncomeYear>,
    expenses: seq<ExpenseYear>,
    assets: real,
    dividends: real,
    income: real,
    tax: real,
    expense: real,
    delta: real)

  function InvestmentValue(i: InvestmentYear): real { i.value }
  function InvestmentDividends(i: InvestmentYear): real { i.dividends }
  function AccountValue(a: AccountYear): real { a.value }
  function AccountDividends(a: AccountYear): real { a.dividends }
  function IncomeValue(i: IncomeYear): real { i.value }
  function ExpenseValue(e: ExpenseYear): real { e.value }

  /**
   * What a shortfall can be drawn from: the investments when the account
   * has any, its bare value otherwise.
   */
  function Holding(a: AccountYear): real {
    if |a.investments| > 0 then SumOf(a.investments, InvestmentValue) else a.value
  }
}
