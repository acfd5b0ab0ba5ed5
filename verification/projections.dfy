/**
 * The yearly projection: the current year valued from the records, then one
 * snapshot per year of age up to `general.until`, each grown from the one
 * before, with any shortfall drawn from the accounts.
 */
module Projections {
  import opened Wrappers
  import opened Records
  import opened Sums
  import opened Accrual
  import opened TaxLookup
  import opened Snapshots
  import opened Liquidation

  /** The current value of an investment: `(shares && price && shares * price) || 0`, and its dividend. */
  function InitialInvestment(inv: Investment): (r: InvestmentYear)
    ensures r.investment == inv
    ensures r.value == OrZero(inv.shares) * OrZero(inv.price)
    ensures !IsSet(inv.shares) || !IsSet(inv.price) ==> r.value == 0.0 && r.dividends == 0.0
    ensures r.dividends == Percent(r.value, OrZero(inv.dividendPct))
  {
    var value := if IsSet(inv.shares) && IsSet(inv.price) then inv.shares.value * inv.price.value else 0.0;
    InvestmentYear(inv, value, PercentageOf(value, inv.dividendPct))
  }

  function InitialInvestments(invs: seq<Investment>): (r: seq<InvestmentYear>)
    ensures |r| == |invs|
    ensures forall k :: 0 <= k < |invs| ==> r[k] == InitialInvestment(invs[k])
  {
    seq(|invs|, k requires 0 <= k < |invs| => InitialInvestment(invs[k]))
  }

  /** A product of two non-zero numbers is non-zero, so `value && dividend && percentageOf(...)` is truthy. */
  lemma PercentNonZero(value: real, rate: real)
    ensures value != 0.0 && rate != 0.0 ==> Percent(value, rate) != 0.0
  {
  }

  /**
   * The current value of an account: its own value when set, otherwise the
   * total of its investments. A qualified account reports no dividends; any
   * other reports its own dividend when value and percentage are set, and
   * otherwise its investments' dividends.
   */
  function InitialAccount(a: Account): (r: AccountYear)
    ensures r.account == a && !r.change && r.investments == InitialInvestments(a.investments)
    ensures r.value == (if IsSet(a.value) then a.value.value else SumOf(r.investments, InvestmentValue))
    ensures a.qualified ==> r.dividends == 0.0
    ensures !a.qualified && IsSet(a.value) && IsSet(a.dividendPct) ==>
      r.dividends == Percent(a.value.value, a.dividendPct.value)
    ensures !a.qualified && !(IsSet(a.value) && IsSet(a.dividendPct)) ==>
      r.dividends == SumOf(r.investments, InvestmentDividends)
  {
    var investments := InitialInvestments(a.investments);
    var value := if IsSet(a.value) then a.value.value else SumOf(investments, InvestmentValue);
    var own := if IsSet(a.value) && IsSet(a.dividendPct) then PercentageOf(a.value.value, a.dividendPct) else 0.0;
    PercentNonZero(OrZero(a.value), OrZero(a.dividendPct));
    var dividends := if a.qualified then 0.0 else if own != 0.0 then own else SumOf(investments, InvestmentDividends);
    AccountYear(a, value, dividends, investments, false)
  }

  /** A flow starts the first year at its nominal value when its window holds the year, else at zero. */
  function InitialIncomes(incomes: seq<Income>, year: int): (r: seq<IncomeYear>)
    ensures |r| == |incomes|
    ensures forall k :: 0 <= k < |incomes| ==>
      (r[k].income == incomes[k]
       && r[k].value == CarryForward(0.0, incomes[k].value, Within(year, incomes[k].start, incomes[k].stop), None))
  {
    seq(|incomes|, k requires 0 <= k < |incomes| =>
      IncomeYear(incomes[k], if Within(year, incomes[k].start, incomes[k].stop) then OrZero(incomes[k].value) else 0.0))
  }

  function InitialExpenses(expenses: seq<Expense>, year: int): (r: seq<ExpenseYear>)
    ensures |r| == |expenses|
    ensures forall k :: 0 <= k < |expenses| ==>
      (r[k].expense == expenses[k]
       && r[k].value == CarryForward(0.0, expenses[k].value, Within(year, expenses[k].start, expenses[k].stop), None))
  {
    seq(|expenses|, k requires 0 <= k < |expenses| =>
      ExpenseYear(expenses[k], if Within(year, expenses[k].start, expenses[k].stop) then OrZero(expenses[k].value) else 0.0))
  }

  /**
   * The state the projection starts from, for the calendar year `startYear`
   * (the clock reading is a parameter). Its income leaves out dividends and
   * its delta stays 0; it is not part of the output.
   */
  function Initial(data: Data, startYear: int): (r: Snapshot)
    ensures r.year == startYear && r.age == data.general.age
    ensures |r.accounts| == |data.accounts|
    ensures forall k :: 0 <= k < |data.accounts| ==> r.accounts[k] == InitialAccount(data.accounts[k])
    ensures r.incomes == InitialIncomes(data.incomes, startYear)
    ensures r.expenses == InitialExpenses(data.expenses, startYear)
    ensures r.assets == SumOf(r.accounts, AccountValue)
    ensures r.dividends == SumOf(r.accounts, AccountDividends)
    ensures r.income == SumOf(r.incomes, IncomeValue)
    ensures r.expense == SumOf(r.expenses, ExpenseValue)
    ensures r.tax == Percent(r.income, TotalRate(data.taxes, r.income))
    ensures r.delta == 0.0
  {
    var accounts := seq(|data.accounts|, k requires 0 <= k < |data.accounts| => InitialAccount(data.accounts[k]));
    var incomes := InitialIncomes(data.incomes, startYear);
    var expenses := InitialExpenses(data.expenses, startYear);
    var income := SumOf(incomes, IncomeValue);
    Snapshot(startYear, data.general.age, accounts, incomes, expenses,
      SumOf(accounts, AccountValue), SumOf(accounts, AccountDividends),
      income, CalculateTax(data.taxes, income), SumOf(expenses, ExpenseValue), 0.0)
  }

  /**
   * One year of an investment: a dividend of `dividend` percent of last
   * year's value and growth by `return` percent. A qualified account
   * reinvests the dividend and reports none; any other pays it out.
   */
  function GrowInvestment(i: InvestmentYear, qualified: bool): (r: InvestmentYear)
    ensures r.investment == i.investment
    ensures r.value + r.dividends == i.value * Growth(i.investment.returnPct) + Percent(i.value, OrZero(i.investment.dividendPct))
    ensures qualified ==> r.dividends == 0.0
    ensures !qualified ==> r.value == i.value * Growth(i.investment.returnPct)
  {
    var dividends := PercentageOf(i.value, i.investment.dividendPct);
    var value := IncrementByPercentage(i.value, i.investment.returnPct) + (if qualified then dividends else 0.0);
    InvestmentYear(i.investment, value, if qualified then 0.0 else dividends)
  }

  function GrowInvestments(invs: seq<InvestmentYear>, qualified: bool): (r: seq<InvestmentYear>)
    ensures |r| == |invs|
    ensures forall k :: 0 <= k < |invs| ==> r[k] == GrowInvestment(invs[k], qualified)
  {
    seq(|invs|, k requires 0 <= k < |invs| => GrowInvestment(invs[k], qualified))
  }

  /** Investments of a qualified account report no dividends in total. */
  lemma QualifiedPaysNothing(invs: seq<InvestmentYear>)
    ensures SumOf(GrowInvestments(invs, true), InvestmentDividends) == 0.0
  {
    SumOfZeros(GrowInvestments(invs, true), InvestmentDividends);
  }

  /**
   * One year of an account. Its dividends are its investments' dividends
   * (the account's own dividend percentage is not read); an account whose
   * record has a value grows last year's value by its return, any other is
   * worth its investments. The change flag starts cleared.
   */
  function GrowAccount(a: AccountYear): (r: AccountYear)
    ensures r.account == a.account && !r.change
    ensures r.investments == GrowInvestments(a.investments, a.account.qualified)
    ensures r.dividends == SumOf(r.investments, InvestmentDividends)
    ensures a.account.qualified ==> r.dividends == 0.0
    ensures IsSet(a.account.value) ==> r.value == a.value * Growth(a.account.returnPct)
    ensures !IsSet(a.account.value) ==> r.value == SumOf(r.investments, InvestmentValue)
  {
    var investments := GrowInvestments(a.investments, a.account.qualified);
    QualifiedPaysNothing(a.investments);
    var value := if IsSet(a.account.value) then IncrementByPercentage(a.value, a.account.returnPct)
                 else SumOf(investments, InvestmentValue);
    AccountYear(a.account, value, SumOf(investments, InvestmentDividends), investments, false)
  }

  function GrowAccounts(accts: seq<AccountYear>): (r: seq<AccountYear>)
    ensures |r| == |accts|
    ensures forall k :: 0 <= k < |accts| ==> r[k] == GrowAccount(accts[k])
  {
    seq(|accts|, k requires 0 <= k < |accts| => GrowAccount(accts[k]))
  }

  /** Every income carried forward into `year`. */
  function NextIncomes(incomes: seq<IncomeYear>, year: int, inflation: Option<real>): (r: seq<IncomeYear>)
    ensures |r| == |incomes|
    ensures forall k :: 0 <= k < |incomes| ==>
      (r[k].income == incomes[k].income
       && r[k].value == CarryForward(incomes[k].value, incomes[k].income.value,
                                     Within(year, incomes[k].income.start, incomes[k].income.stop), inflation))
  {
    seq(|incomes|, k requires 0 <= k < |incomes| =>
      var i := incomes[k];
      IncomeYear(i.income, CarryForward(i.value, i.income.value, Within(year, i.income.start, i.income.stop), inflation)))
  }

  /** Every expense carried forward into `year`. */
  function NextExpenses(expenses: seq<ExpenseYear>, year: int, inflation: Option<real>): (r: seq<ExpenseYear>)
    ensures |r| == |expenses|
    ensures forall k :: 0 <= k < |expenses| ==>
      (r[k].expense == expenses[k].expense
       && r[k].value == CarryForward(expenses[k].value, expenses[k].expense.value,
                                     Within(year, expenses[k].expense.start, expenses[k].expense.stop), inflation))
  {
    seq(|expenses|, k requires 0 <= k < |expenses| =>
      var e := expenses[k];
      ExpenseYear(e.expense, CarryForward(e.value, e.expense.value, Within(year, e.expense.start, e.expense.stop), inflation)))
  }

  /**
   * The totals of a projected year agree with its parts: income is the
   * incomes plus the accounts' dividends, tax is the flat lookup on that
   * income, and delta is what income leaves after tax and expenses.
   */
  predicate Balanced(s: Snapshot, taxes: seq<Tax>) {
    && s.dividends == SumOf(s.accounts, AccountDividends)
    && s.income == SumOf(s.incomes, IncomeValue) + s.dividends
    && s.expense == SumOf(s.expenses, ExpenseValue)
    && s.tax == Percent(s.income, TotalRate(taxes, s.income))
    && s.delta == s.income - (s.tax + s.expense)
  }

  /**
   * A projected year before any shortfall is drawn: accounts grown, incomes
   * and expenses carried forward, and the totals taken. Assets are the grown
   * accounts' values.
   */
  function Grow(data: Data, prior: Snapshot): (s: Snapshot)
    ensures s.year == prior.year + 1 && s.age == prior.age + 1
    ensures s.accounts == GrowAccounts(prior.accounts)
    ensures s.incomes == NextIncomes(prior.incomes, s.year, data.general.inflation)
    ensures s.expenses == NextExpenses(prior.expenses, s.year, data.general.inflation)
    ensures s.assets == SumOf(s.accounts, AccountValue)
    ensures Balanced(s, data.taxes)
  {
    var year := prior.year + 1;
    var grown := GrowAccounts(prior.accounts);
    var dividends := SumOf(grown, AccountDividends);
    var incomes := NextIncomes(prior.incomes, year, data.general.inflation);
    var income := SumOf(incomes, IncomeValue) + dividends;
    var expenses := NextExpenses(prior.expenses, year, data.general.inflation);
    var expense := SumOf(expenses, ExpenseValue);
    var tax := CalculateTax(data.taxes, income);
    Snapshot(year, prior.age + 1, grown, incomes, expenses, SumOf(grown, AccountValue), dividends,
             income, tax, expense, income - (tax + expense))
  }

  /** Two snapshots of the same year that may differ only in their accounts. */
  predicate SameTotals(a: Snapshot, b: Snapshot) {
    && a.year == b.year && a.age == b.age && a.incomes == b.incomes && a.expenses == b.expenses
    && a.assets == b.assets && a.dividends == b.dividends && a.income == b.income
    && a.tax == b.tax && a.expense == b.expense && a.delta == b.delta
  }

  /** A year's snapshot and the ids of bare accounts drawn on so far. */
  datatype Stepped = Stepped(snapshot: Snapshot, changed: set<int>)

  /**
   * `if (delta < 0)`: a negative delta is covered from the grown accounts;
   * otherwise nothing is drawn. The totals keep their pre-draw values.
   */
  function Settle(g: Snapshot, changed: set<int>): (r: Stepped)
    ensures SameTotals(r.snapshot, g)
    ensures |r.snapshot.accounts| == |g.accounts|
    ensures forall k :: 0 <= k < |g.accounts| ==>
      r.snapshot.accounts[k].account == g.accounts[k].account
      && r.snapshot.accounts[k].dividends == g.accounts[k].dividends
    ensures changed <= r.changed
    ensures RecordsDrawn(g.accounts, r.snapshot.accounts, r.changed)
    ensures Unflagged(g.accounts) ==> FlagsExactly(r.snapshot.accounts, changed, r.changed)
  {
    if g.delta < 0.0 then
      var d := Liquidate(g.accounts, -g.delta, changed);
      LiquidateRecordsAll(g.accounts, -g.delta, changed);
      LiquidateFlagsExactly(g.accounts, -g.delta, changed);
      Stepped(g.(accounts := d.accounts), d.changed)
    else
      UntouchedFlagsExactly(g.accounts, changed);
      Stepped(g, changed)
  }

  /** Settling a year in which nobody is flagged yet flags only fresh ids, each once, and records them. */
  lemma SettleFlags(g: Snapshot, changed: set<int>)
    requires Unflagged(g.accounts)
    ensures var st := Settle(g, changed); FreshFlags(st.snapshot.accounts, changed, st.changed)
  {
    var st := Settle(g, changed);
    if g.delta < 0.0 {
      var shortfall := -g.delta;
      var d := Liquidate(g.accounts, shortfall, changed);
      LiquidateFlagsFresh(g.accounts, shortfall, changed);
      assert st == Stepped(g.(accounts := d.accounts), d.changed);
    } else {
      UnflaggedFresh(g.accounts, changed);
      assert st == Stepped(g, changed);
    }
  }

  /** One year of the loop: grow, then draw any shortfall. */
  function Step(data: Data, prior: Snapshot, changed: set<int>): (r: Stepped)
    ensures r.snapshot.year == prior.year + 1 && r.snapshot.age == prior.age + 1
    ensures changed <= r.changed
  {
    Settle(Grow(data, prior), changed)
  }

  /** The years from `prior` up to age `until`, each stepped from the one before. */
  function Run(data: Data, prior: Snapshot, changed: set<int>): (r: seq<Snapshot>)
    ensures |r| == if prior.age < data.general.until then data.general.until - prior.age else 0
    ensures forall k :: 0 <= k < |r| ==> r[k].year == prior.year + k + 1 && r[k].age == prior.age + k + 1
    decreases data.general.until - prior.age
  {
    if prior.age < data.general.until then
      var s := Step(data, prior, changed);
      [s.snapshot] + Run(data, s.snapshot, s.changed)
    else []
  }

  /**
   * The projection table: one snapshot per year after `startYear`, with ages
   * `age + 1` through `until`; the starting state itself is not included.
   */
  function Project(data: Data, startYear: int): (r: seq<Snapshot>)
    ensures |r| == if data.general.age < data.general.until then data.general.until - data.general.age else 0
    ensures forall k :: 0 <= k < |r| ==> r[k].year == startYear + k + 1 && r[k].age == data.general.age + k + 1
    ensures |r| > 0 ==> r[|r| - 1].age == data.general.until
  {
    Run(data, Initial(data, startYear), {})
  }

  /** Every projected year is balanced; the draw does not touch dividends. */
  lemma StepBalanced(data: Data, prior: Snapshot, changed: set<int>)
    ensures Balanced(Step(data, prior, changed).snapshot, data.taxes)
  {
    var g := Grow(data, prior);
    var s := Settle(g, changed).snapshot;
    SumOfPointwise(g.accounts, AccountDividends, s.accounts, AccountDividends);
  }

  /**
   * The draw of one year, from a year `g` as grown. Without a shortfall
   * nothing is drawn and nobody is flagged; with one, the holdings fall by
   * the shortfall unless they are all used up.
   */
  lemma SettleDraw(g: Snapshot, changed: set<int>)
    ensures var st := Settle(g, changed);
      && (0.0 <= g.delta ==> st.snapshot.accounts == g.accounts && st.changed == changed)
      && (g.delta < 0.0 ==>
            (SumOf(g.accounts, Holding) - SumOf(st.snapshot.accounts, Holding) == -g.delta
             || forall k :: 0 <= k < |g.accounts| ==> Holding(st.snapshot.accounts[k]) == 0.0))
  {
  }

  /**
   * The draw of one projected year: assets are the grown accounts' values
   * before it, and without a shortfall the grown accounts are kept as they are.
   */
  lemma StepDraw(data: Data, prior: Snapshot, changed: set<int>)
    ensures var grown := GrowAccounts(prior.accounts);
      var st := Step(data, prior, changed);
      var s := st.snapshot;
      && s.assets == SumOf(grown, AccountValue)
      && (0.0 <= s.delta ==> s.accounts == grown && st.changed == changed)
      && (s.delta < 0.0 ==>
            (SumOf(grown, Holding) - SumOf(s.accounts, Holding) == -s.delta
             || forall k :: 0 <= k < |s.accounts| ==> Holding(s.accounts[k]) == 0.0))
  {
    SettleDraw(Grow(data, prior), changed);
  }

  /** A year keeps the account records in place. */
  lemma StepKeepsAccounts(data: Data, prior: Snapshot, changed: set<int>)
    ensures var s := Step(data, prior, changed).snapshot;
      |s.accounts| == |prior.accounts|
      && forall k :: 0 <= k < |s.accounts| ==> s.accounts[k].account == prior.accounts[k].account
  {
  }

  /** A year flags only accounts whose id was not drawn on before, each id at most once, and records them. */
  lemma StepFlags(data: Data, prior: Snapshot, changed: set<int>)
    ensures var st := Step(data, prior, changed);
      changed <= st.changed && FreshFlags(st.snapshot.accounts, changed, st.changed)
  {
    var g := Grow(data, prior);
    assert Unflagged(g.accounts);
    SettleFlags(g, changed);
  }

  /** Some account of the year is flagged under `id`. */
  predicate FlaggedIn(s: Snapshot, id: int) {
    FlaggedAt(s.accounts, id)
  }

  /** A run that has years left starts with one step and continues from it. */
  lemma RunUnfold(data: Data, prior: Snapshot, changed: set<int>)
    requires prior.age < data.general.until
    ensures var st := Step(data, prior, changed);
      var r := Run(data, prior, changed);
      |r| > 0 && r[0] == st.snapshot && r[1..] == Run(data, st.snapshot, st.changed)
  {
  }

  /** Every year of a run is balanced. */
  lemma {:induction false} RunBalanced(data: Data, prior: Snapshot, changed: set<int>)
    ensures var r := Run(data, prior, changed);
      forall i :: 0 <= i < |r| ==> Balanced(r[i], data.taxes)
    decreases data.general.until - prior.age
  {
    var r := Run(data, prior, changed);
    if prior.age < data.general.until {
      var st := Step(data, prior, changed);
      StepBalanced(data, prior, changed);
      RunBalanced(data, st.snapshot, st.changed);
      RunUnfold(data, prior, changed);
      assert forall i :: 1 <= i < |r| ==> r[i] == r[1..][i - 1];
    }
  }

  /** Every year of a run carries the same account records in the same order. */
  lemma {:induction false} RunKeepsAccounts(data: Data, prior: Snapshot, changed: set<int>)
    ensures var r := Run(data, prior, changed);
      forall i :: 0 <= i < |r| ==>
        (|r[i].accounts| == |prior.accounts|
         && forall k :: 0 <= k < |prior.accounts| ==> r[i].accounts[k].account == prior.accounts[k].account)
    decreases data.general.until - prior.age
  {
    var r := Run(data, prior, changed);
    if prior.age < data.general.until {
      var st := Step(data, prior, changed);
      StepKeepsAccounts(data, prior, changed);
      RunKeepsAccounts(data, st.snapshot, st.changed);
      RunUnfold(data, prior, changed);
      assert forall i :: 1 <= i < |r| ==> r[i] == r[1..][i - 1];
    }
  }

  /** No year of a run flags an id already drawn on when the run starts. */
  lemma {:induction false} RunFlagsFresh(data: Data, prior: Snapshot, changed: set<int>)
    ensures var r := Run(data, prior, changed);
      forall i, id :: 0 <= i < |r| && FlaggedIn(r[i], id) ==> id !in changed
    decreases data.general.until - prior.age
  {
    var r := Run(data, prior, changed);
    if prior.age < data.general.until {
      var st := Step(data, prior, changed);
      StepFlags(data, prior, changed);
      RunFlagsFresh(data, st.snapshot, st.changed);
      RunUnfold(data, prior, changed);
      forall i, id | 0 <= i < |r| && FlaggedIn(r[i], id) ensures id !in changed {
        if i > 0 {
          assert r[i] == r[1..][i - 1];
        }
      }
    }
  }

  /**
   * The change flag of a bare account is raised at most once over a run:
   * never under one id in two different years, nor on two accounts in one year.
   */
  lemma {:induction false} RunFlagsOnce(data: Data, prior: Snapshot, changed: set<int>)
    ensures var r := Run(data, prior, changed);
      && (forall i, j, id :: 0 <= i < j < |r| && FlaggedIn(r[i], id) ==> !FlaggedIn(r[j], id))
      && (forall i :: 0 <= i < |r| ==> FlagsDistinct(r[i].accounts))
    decreases data.general.until - prior.age
  {
    var r := Run(data, prior, changed);
    if prior.age < data.general.until {
      var st := Step(data, prior, changed);
      var rest := Run(data, st.snapshot, st.changed);
      RunUnfold(data, prior, changed);
      StepFlags(data, prior, changed);
      RunFlagsOnce(data, st.snapshot, st.changed);
      RunFlagsFresh(data, st.snapshot, st.changed);
      FlagsOnceCons(r, rest, st.changed);
      assert forall i :: 1 <= i < |r| ==> r[i] == rest[i - 1];
    }
  }

  /**
   * A first year whose flagged ids are all in `after`, followed by years that
   * flag each id at most once and never one in `after`, flags each id at most once.
   */
  lemma FlagsOnceCons(r: seq<Snapshot>, rest: seq<Snapshot>, after: set<int>)
    requires |r| == |rest| + 1 && r[1..] == rest
    requires forall a :: 0 <= a < |r[0].accounts| && r[0].accounts[a].change ==> r[0].accounts[a].account.id in after
    requires forall i, id :: 0 <= i < |rest| && FlaggedIn(rest[i], id) ==> id !in after
    requires forall i, j, id :: 0 <= i < j < |rest| && FlaggedIn(rest[i], id) ==> !FlaggedIn(rest[j], id)
    ensures forall i, j, id :: 0 <= i < j < |r| && FlaggedIn(r[i], id) ==> !FlaggedIn(r[j], id)
  {
    forall i, j, id | 0 <= i < j < |r| && FlaggedIn(r[i], id) ensures !FlaggedIn(r[j], id) {
      assert r[j] == rest[j - 1];
      if i == 0 {
        assert id in after;
      } else {
        assert r[i] == rest[i - 1];
      }
    }
  }

  /** Over the whole projection, each account id is flagged as changed in at most one year, on one account. */
  lemma ProjectFlagsOnce(data: Data, startYear: int)
    ensures var r := Project(data, startYear);
      && (forall i, j, id :: 0 <= i < j < |r| && FlaggedIn(r[i], id) ==> !FlaggedIn(r[j], id))
      && (forall i :: 0 <= i < |r| ==> FlagsDistinct(r[i].accounts))
  {
    var init := Initial(data, startYear);
    RunFlagsOnce(data, init, {});
    assert Project(data, startYear) == Run(data, init, {});
  }

  /**
   * Account `k` had no investments and the year's draw left it below the
   * value growth gave it, so the liquidation took from it.
   */
  predicate DrawnBare(prior: Snapshot, s: Snapshot, k: int) {
    && 0 <= k < |prior.accounts| && k < |s.accounts|
    && |prior.accounts[k].investments| == 0
    && s.accounts[k].value != GrowAccount(prior.accounts[k]).value
  }

  /**
   * Years `r` stepped from `prior`, with the records `d` after each, flag
   * exactly the ids first drawn on that year; and a bare account a year draws
   * down, not drawn on in any earlier year, is flagged that year.
   */
  ghost predicate FirstDrawsFlagged(prior: Snapshot, changed: set<int>, r: seq<Snapshot>, d: seq<set<int>>)
    requires |r| == |d|
  {
    && (forall i, id :: 0 <= i < |r| ==>
          (FlaggedIn(r[i], id) <==> id in d[i] && id !in BeforeOf(changed, d, i)))
    && (forall i, k ::
          (0 <= i < |r| && DrawnBare(PriorOf(prior, r, i), r[i], k)
           && PriorOf(prior, r, i).accounts[k].account.id !in BeforeOf(changed, d, i)) ==>
          FlaggedIn(r[i], PriorOf(prior, r, i).accounts[k].account.id))
  }

  /** The snapshot year `i` of a run starts from. */
  function PriorOf(prior: Snapshot, r: seq<Snapshot>, i: nat): Snapshot
    requires i <= |r|
  {
    if i == 0 then prior else r[i - 1]
  }

  /** The ids drawn on before year `i` of a run. */
  function BeforeOf(changed: set<int>, d: seq<set<int>>, i: nat): set<int>
    requires i <= |d|
  {
    if i == 0 then changed else d[i - 1]
  }

  /**
   * A year flags exactly the ids it newly records; a bare account it draws
   * down is recorded, and flagged when it was not drawn on before.
   */
  lemma StepFlagsExactly(data: Data, prior: Snapshot, changed: set<int>)
    ensures var st := Step(data, prior, changed);
      && (forall id :: FlaggedIn(st.snapshot, id) <==> id in st.changed && id !in changed)
      && (forall k :: DrawnBare(prior, st.snapshot, k) ==> prior.accounts[k].account.id in st.changed)
      && FirstDrawsFlagged(prior, changed, [st.snapshot], [st.changed])
  {
    var g := Grow(data, prior);
    var st := Step(data, prior, changed);
    assert Unflagged(g.accounts);
    forall k | DrawnBare(prior, st.snapshot, k) ensures prior.accounts[k].account.id in st.changed {
      assert g.accounts[k] == GrowAccount(prior.accounts[k]);
    }
  }

  /** The ids drawn on after each year of a run: the engine's `changed` record. */
  function Drawn(data: Data, prior: Snapshot, changed: set<int>): (d: seq<set<int>>)
    ensures |d| == |Run(data, prior, changed)|
    decreases data.general.until - prior.age
  {
    if prior.age < data.general.until then
      var s := Step(data, prior, changed);
      [s.changed] + Drawn(data, s.snapshot, s.changed)
    else []
  }

  /** The record only grows: each year's record holds the starting one and every earlier year's. */
  lemma {:induction false} DrawnGrows(data: Data, prior: Snapshot, changed: set<int>)
    ensures var d := Drawn(data, prior, changed);
      && (forall i :: 0 <= i < |d| ==> changed <= d[i])
      && (forall i, j :: 0 <= i <= j < |d| ==> d[i] <= d[j])
    decreases data.general.until - prior.age
  {
    if prior.age < data.general.until {
      var st := Step(data, prior, changed);
      var d := Drawn(data, prior, changed);
      var rest := Drawn(data, st.snapshot, st.changed);
      DrawnUnfold(data, prior, changed);
      DrawnGrows(data, st.snapshot, st.changed);
      GrowsCons(changed, d, rest);
    }
  }

  /** A first record holding `changed`, followed by records that only grow from it, only grow from `changed`. */
  lemma GrowsCons(changed: set<int>, d: seq<set<int>>, rest: seq<set<int>>)
    requires |d| == |rest| + 1 && d[1..] == rest && changed <= d[0]
    requires forall i :: 0 <= i < |rest| ==> d[0] <= rest[i]
    requires forall i, j :: 0 <= i <= j < |rest| ==> rest[i] <= rest[j]
    ensures forall i :: 0 <= i < |d| ==> changed <= d[i]
    ensures forall i, j :: 0 <= i <= j < |d| ==> d[i] <= d[j]
  {
    forall i, j | 0 <= i <= j < |d| ensures d[i] <= d[j] {
      if 0 < i {
        assert d[i] == rest[i - 1] && d[j] == rest[j - 1];
      } else if 0 < j {
        assert d[j] == rest[j - 1];
      }
    }
  }

  /** A run that has years left starts with one step's record and continues from it. */
  lemma DrawnUnfold(data: Data, prior: Snapshot, changed: set<int>)
    requires prior.age < data.general.until
    ensures var st := Step(data, prior, changed);
      var d := Drawn(data, prior, changed);
      |d| > 0 && d[0] == st.changed && d[1..] == Drawn(data, st.snapshot, st.changed)
  {
  }

  /** A first year that flags exactly its first draws, followed by years that do, flag exactly their first draws. */
  lemma FirstDrawsCons(prior: Snapshot, changed: set<int>, r: seq<Snapshot>, d: seq<set<int>>,
                       rest: seq<Snapshot>, drest: seq<set<int>>)
    requires |r| == |d| == |rest| + 1 && |rest| == |drest|
    requires r[1..] == rest && d[1..] == drest
    requires FirstDrawsFlagged(prior, changed, [r[0]], [d[0]])
    requires FirstDrawsFlagged(r[0], d[0], rest, drest)
    ensures FirstDrawsFlagged(prior, changed, r, d)
  {
    forall i, id | 0 <= i < |r|
      ensures FlaggedIn(r[i], id) <==> id in d[i] && id !in BeforeOf(changed, d, i)
    {
      if i > 0 {
        assert r[i] == rest[i - 1] && d[i] == drest[i - 1];
        assert BeforeOf(changed, d, i) == BeforeOf(d[0], drest, i - 1);
      } else {
        assert [r[0]][0] == r[0] && [d[0]][0] == d[0];
        assert BeforeOf(changed, d, 0) == BeforeOf(changed, [d[0]], 0);
      }
    }
    forall i, k |
      0 <= i < |r| && DrawnBare(PriorOf(prior, r, i), r[i], k)
      && PriorOf(prior, r, i).accounts[k].account.id !in BeforeOf(changed, d, i)
      ensures FlaggedIn(r[i], PriorOf(prior, r, i).accounts[k].account.id)
    {
      if i > 0 {
        assert r[i] == rest[i - 1] && d[i] == drest[i - 1];
        assert PriorOf(prior, r, i) == PriorOf(r[0], rest, i - 1);
        assert BeforeOf(changed, d, i) == BeforeOf(d[0], drest, i - 1);
      } else {
        assert [r[0]][0] == r[0] && [d[0]][0] == d[0];
        assert PriorOf(prior, r, 0) == PriorOf(prior, [r[0]], 0);
        assert BeforeOf(changed, d, 0) == BeforeOf(changed, [d[0]], 0);
      }
    }
  }

  /** Over a run, every year flags exactly its first draws. */
  lemma {:induction false} RunFlagsExactly(data: Data, prior: Snapshot, changed: set<int>)
    ensures FirstDrawsFlagged(prior, changed, Run(data, prior, changed), Drawn(data, prior, changed))
    decreases data.general.until - prior.age
  {
    if prior.age < data.general.until {
      var st := Step(data, prior, changed);
      RunUnfold(data, prior, changed);
      DrawnUnfold(data, prior, changed);
      StepFlagsExactly(data, prior, changed);
      RunFlagsExactly(data, st.snapshot, st.changed);
      FirstDrawsCons(prior, changed, Run(data, prior, changed), Drawn(data, prior, changed),
                     Run(data, st.snapshot, st.changed), Drawn(data, st.snapshot, st.changed));
    }
  }

  /**
   * Over the whole projection, a year flags exactly the ids first drawn on
   * that year, and a bare account drawn down for the first time is flagged.
   */
  lemma ProjectFlagsExactly(data: Data, startYear: int)
    ensures var init := Initial(data, startYear);
      FirstDrawsFlagged(init, {}, Project(data, startYear), Drawn(data, init, {}))
  {
    var init := Initial(data, startYear);
    RunFlagsExactly(data, init, {});
    assert Project(data, startYear) == Run(data, init, {});
  }
}
