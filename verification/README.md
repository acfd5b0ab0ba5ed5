# coolbeans projection core in Dafny

This project models the calculation core of coolbeans, a personal-finance
planner. It covers the following parts:

- **The yearly projection engine.** Starting from the user's accounts,
  investments, incomes, expenses and tax tables, it produces one snapshot per
  year of age until `general.until`. Each year it grows holdings and computes
  dividends. It carries incomes and expenses forward with inflation inside
  their date windows, and charges a flat bracket tax. When the year's delta is
  negative, it drains holdings in priority order.
- **The small pure pieces around the engine:**
  - investment price and value lookup;
  - the asset-class breakdown;
  - the account totals;
  - the form normalisers;
  - the record-list sort comparators;
  - `humanFrequency` and `humanDate`;
  - the add / update / delete updaters that every record screen passes to
    `updateData`.

Amounts are Dafny `real`s. A numeric form field is an `Option<real>`: `None`
stands for a field that parsed to NaN or is absent. A parsed 0 is kept as
`Some(0.0)`, except in the investment, account and bracket-bound parsers,
which also delete a 0 (`DropFalsy`). JavaScript's
`x || 0` is `OrZero` and truthiness is `IsSet` / `HasText`. JavaScript's
`sort` is stable, so every sort is modelled as a stable insertion sort of
indices by a `SortKey`, and each sort is proved to be a permutation with
ascending keys. The engine mutates shared objects while liquidating. Here
liquidation is a drain over an index order that writes each holding back to
its original position.

Modules follow the source files:

- `Accrual`, `TaxLookup`, `Liquidation` and `Projections` model
  `src/Projections.tsx`.
- `Investments`, `Accounts`, `Expenses`, `Incomes`, `Rmds`, `Taxes`, `Rates`,
  `AssetClasses` and `Dates` model the files of the same names.
- The support modules are:
  - `Records`: record shapes;
  - `Snapshots`: the engine's yearly state;
  - `IdLists`: id allocation, `findIndex` + `splice`, and `filter`;
  - `Ordering`: stable sorting;
  - `Text`: string order, number text, and `split` / `join`;
  - `Sums`: `reduce` sums;
  - `Wrappers`: `Option` and `Result`.

## Model

| member | source | states |
|---|---|---|
| Accrual.PercentageOf | src/Projections.tsx:36-37 | A percentage is the value times rate/100; an absent rate or a zero value gives 0, and 100% gives the value back |
| Accrual.PercentAdditive | src/Projections.tsx:36-37 | Percentages of one value add: p% + q% of v is (p+q)% of v |
| Accrual.IncrementByPercentage | src/Projections.tsx:39-40 | Incrementing equals the value plus its percentage, equals value times the growth factor, and is the identity when the rate is absent |
| Accrual.Within | src/Projections.tsx:42-47 | A year is inside a window iff a non-empty start is not after "year-07-01" and a non-empty stop is not before it, in string order; with no bounds every year is inside |
| Accrual.CarryForward | src/Projections.tsx:193-207 | Outside the window an amount becomes 0; inside, a nonzero prior value grows by inflation and a zero prior value restarts at the nominal amount |
| Accrual.InflateZero | src/Projections.tsx:193-207 | With a nonzero growth factor, repeated inflation gives 0 only from 0 |
| Accrual.GrowZero | src/Projections.tsx:39-40 | With a nonzero growth factor, an increment is 0 exactly when the value is 0 |
| Accrual.CompoundsWhileActive | src/Projections.tsx:193-207 | An amount that stays in its window for n+1 years, starting from 0, equals the nominal amount inflated n times |
| TaxLookup.FindRate | src/Projections.tsx:59-61 | The selected rate is the first one whose bracket strictly contains the income; none is selected iff no bracket contains it |
| TaxLookup.TableTax | src/Projections.tsx:58-63 | One table taxes the whole income at its selected rate, and charges 0 when no bracket contains the income |
| TaxLookup.CalculateTax | src/Projections.tsx:56-66 | The tax is the income taxed at the sum of every table's selected rate; no tables give 0 |
| TaxLookup.TotalRateReadsRatesOnly | src/Projections.tsx:56-66 | The tax depends only on the tables' rate lists, not on their names, kinds or ids |
| TaxLookup.SharedBoundIsUntaxed | src/Projections.tsx:60 | Both bounds are strict: an income equal to the bound two adjacent brackets share selects neither and is taxed 0 |
| TaxLookup.TaxCanFallAsIncomeRises | src/Projections.tsx:56-66 | Whole-income bracket taxation is not monotone: with 20% below 100 and 10% above, 99 is taxed more than 101 |
| Projections.InitialInvestment | src/Projections.tsx:78-89 | An investment starts at shares times stored price (0 if either is missing), and its dividends are its dividend percentage of that value |
| Projections.InitialAccount | src/Projections.tsx:91-109 | An account starts at its own value if set, else the sum of its investments; qualified accounts report no dividends; otherwise the dividends are the account's own percentage when value and percentage are set, else the investments' sum |
| Projections.InitialIncomes | src/Projections.tsx:111-115 | Each income starts at its nominal amount when the start year is in its window, else 0 |
| Projections.InitialExpenses | src/Projections.tsx:116-121 | Each expense starts at its nominal amount when the start year is in its window, else 0 |
| Projections.Initial | src/Projections.tsx:74-142 | The initial state totals the account values, the account dividends, the income amounts (dividends not included) and the expenses, taxes that income, and has delta 0 |
| Projections.GrowInvestment | src/Projections.tsx:151-166 | Value plus dividends after a year is the grown value plus the dividend; a qualified investment reinvests its dividend and reports 0; a non-qualified one grows by return only |
| Projections.QualifiedPaysNothing | src/Projections.tsx:151-166 | The investments of a qualified account pay no dividends in total |
| Projections.GrowAccount | src/Projections.tsx:149-184 | An account with its own value grows it by its return; an account without a value is worth the sum of its grown investments; its dividends are its investments' dividends, 0 when qualified; the change flag is cleared |
| Projections.NextIncomes | src/Projections.tsx:193-207 | Each income is carried forward inside its window and zeroed outside it |
| Projections.NextExpenses | src/Projections.tsx:213-227 | Each expense is carried forward inside its window and zeroed outside it |
| Projections.Grow | src/Projections.tsx:145-236 | A year later and a year older, accounts grown, incomes and expenses carried forward, assets summed from the grown accounts, and the year balanced: income is incomes plus dividends, and delta is income minus tax and expense |
| Projections.Settle | src/Projections.tsx:237-279 | Settling never changes the year's totals, keeps each account's identity and dividends, and never forgets an account already drawn; it records every bare-value account whose value it lowers, and, when no account was flagged beforehand, flags exactly the ids it newly records |
| Projections.SettleFlags | src/Projections.tsx:266-276 | Settling a year whose accounts are all unflagged raises a change flag only on accounts not drawn in earlier years, and records them |
| Projections.Run | src/Projections.tsx:145-146 | The loop emits max(0, until − age) snapshots with consecutive years and ages after the prior state |
| Projections.Project | src/Projections.tsx:74-146 | The output has max(0, until − age) snapshots, with years from the current year + 1 and ages up to `until`; the initial state is not included |
| Projections.StepBalanced | src/Projections.tsx:209-236 | Every emitted year satisfies income = incomes + dividends, tax = the tax of that income, delta = income − (tax + expense) |
| Projections.SettleDraw | src/Projections.tsx:237-279 | With a non-negative delta nothing is drawn; with a negative delta exactly the shortfall is drawn, unless every holding ends at 0 |
| Projections.StepDraw | src/Projections.tsx:186-279 | A year's assets are summed before liquidation, from the grown accounts; after liquidation the holdings fall by the shortfall or are all exhausted |
| Projections.StepKeepsAccounts | src/Projections.tsx:149-279 | A year keeps the account list: same length, same account at every position |
| Projections.StepFlags | src/Projections.tsx:266-276 | A year's change flags fall only on accounts never drawn before, and those accounts are recorded |
| Projections.RunUnfold | src/Projections.tsx:145-298 | Before `until`, the first snapshot is one step from the prior state, and the rest continue from it |
| Projections.RunBalanced | src/Projections.tsx:209-236 | Every snapshot of the run is balanced |
| Projections.RunKeepsAccounts | src/Projections.tsx:149-279 | Every snapshot of the run has the prior state's accounts, in order |
| Projections.RunFlagsFresh | src/Projections.tsx:266-276 | No snapshot flags an account already recorded as drawn before the run |
| Projections.RunFlagsOnce | src/Projections.tsx:266-276 | A bare-value account is flagged in at most one snapshot, and no snapshot flags two accounts with the same id |
| Projections.FlagsOnceCons | src/Projections.tsx:269-275 | A year that records every id it flags, followed by years that flag each id at most once and none already recorded, flags each id at most once overall |
| Projections.ProjectFlagsOnce | src/Projections.tsx:266-276 | Across a whole projection, each account id is flagged in at most one year, and on at most one account of that year |
| Projections.StepFlagsExactly | src/Projections.tsx:237-279 | A year flags exactly the ids it newly adds to the drawn record; every bare-value account whose value it lowers below its grown value is recorded, and is flagged when it was not drawn in an earlier year |
| Projections.Drawn | src/Projections.tsx:145-279 | The drawn record after each year has one entry per snapshot of the run |
| Projections.DrawnUnfold | src/Projections.tsx:145-279 | Before `until`, the first record is the one the first step leaves, and the rest continue from it |
| Projections.DrawnGrows | src/Projections.tsx:266-276 | The drawn record only grows: each year's record holds the starting record and every earlier year's |
| Projections.GrowsCons | src/Projections.tsx:266-276 | A first record holding the start, followed by records that only grow from it, only grow from the start |
| Projections.FirstDrawsCons | src/Projections.tsx:266-276 | A first year that flags exactly its first draws, followed by years that do, flags exactly the first draws overall |
| Projections.RunFlagsExactly | src/Projections.tsx:145-279 | In every year of a run, an id is flagged iff that year records it and no earlier year did; a bare-value account that year draws down, not drawn in any earlier year, is flagged that year |
| Projections.ProjectFlagsExactly | src/Projections.tsx:71-90 | Starting from an empty drawn record, every year of the projection flags exactly the ids first drawn that year, and flags a bare-value account the first year it is drawn down |
| Liquidation.Take | src/Projections.tsx:256-262 | Taking from a holding removes min(holding, shortfall) from both; one of them ends at 0; neither goes negative |
| Liquidation.DrainInvestments | src/Projections.tsx:253-264 | Draining changes only investment values and keeps every other field |
| Liquidation.DrainInvestmentsOutside | src/Projections.tsx:253-264 | Investments outside the drain order are untouched |
| Liquidation.DrainInvestmentsConserves | src/Projections.tsx:253-264 | The value removed from the investments equals the shortfall covered |
| Liquidation.DrainInvestmentsExhausts | src/Projections.tsx:253-264 | If a shortfall remains, every investment in the order was emptied |
| Liquidation.DrainInvestmentsNonNegative | src/Projections.tsx:253-264 | Non-negative values stay non-negative and never grow; the remaining shortfall stays within [0, shortfall] |
| Liquidation.DrainInvestmentsGreedy | src/Projections.tsx:253-264 | An investment is touched only after every earlier one in the order is at 0 |
| Liquidation.DrainInvestmentsEmpties | src/Projections.tsx:253-264 | If a shortfall remains after visiting every investment, they are all worth 0 |
| Liquidation.DrainInvestmentsDrawsAtMost | src/Projections.tsx:253-264 | The amount drawn is min(shortfall, total investment value) |
| Liquidation.InvestmentOrder | src/Projections.tsx:249-252 | The investments are visited once each, ascending by `priority \|\| 0`, with ties in list order |
| Liquidation.DrainAccount | src/Projections.tsx:248-276 | An account with investments drains them and keeps everything else, including its flag; an account without investments draws from its value and is flagged iff it was not drawn before; the drop equals the shortfall covered, and a remaining shortfall means the account is empty |
| Liquidation.DrainAccounts | src/Projections.tsx:245-279 | Draining keeps every account's identity and dividends and only adds to the drawn set |
| Liquidation.DrainAccountsOutside | src/Projections.tsx:245-279 | Accounts outside the order are untouched |
| Liquidation.DrainAccountsConserves | src/Projections.tsx:245-279 | The holdings removed equal the shortfall covered |
| Liquidation.DrainAccountsExhausts | src/Projections.tsx:245-279 | If a shortfall remains, every account in the order holds 0 |
| Liquidation.DrainAccountsFlagsFresh | src/Projections.tsx:266-276 | Draining flags only accounts not drawn before, records each flagged account, and keeps flagged ids distinct |
| Liquidation.DrainAccountsGreedy | src/Projections.tsx:245-279 | An account is touched only after every earlier account in the order is at 0 |
| Liquidation.DrainAccountNonNegative | src/Projections.tsx:248-276 | A solvent account stays solvent and the remaining shortfall stays within [0, shortfall] |
| Liquidation.DrainAccountsNonNegative | src/Projections.tsx:245-279 | Solvent accounts stay solvent and the remaining shortfall stays within [0, shortfall] |
| Liquidation.AccountOrder | src/Projections.tsx:241-243 | The accounts are visited once each, ascending by `priority \|\| 0`, with ties in list order |
| Liquidation.Liquidate | src/Projections.tsx:237-279 | Liquidation keeps the accounts' identities and dividends, draws exactly what it covers, leaves every holding at 0 if a shortfall remains, and only adds to the drawn set |
| Liquidation.UnflaggedFresh | src/Projections.tsx:266-276 | With no flags raised, the flag invariant holds for an unchanged drawn set |
| Liquidation.LiquidateFlagsFresh | src/Projections.tsx:266-276 | Liquidating unflagged accounts flags only accounts not drawn before, and records each one |
| Liquidation.DrainAccountsFlagsRecorded | src/Projections.tsx:245-276 | Every id the draining loop newly records belongs to an account it flagged |
| Liquidation.DrainAccountsRecordsDrawn | src/Projections.tsx:245-276 | Every bare-value account whose value the draining loop lowers has its id recorded |
| Liquidation.LiquidateFlagsRecorded | src/Projections.tsx:237-279 | Every id liquidation newly records is flagged on some account, and every bare-value account it lowers is recorded |
| Liquidation.LiquidateFlagsExactly | src/Projections.tsx:266-276 | Liquidating accounts none of which is flagged yet flags exactly the ids it newly records |
| Liquidation.LiquidateRecordsAll | src/Projections.tsx:264-276 | Liquidation records the id of every bare-value account whose value it lowers |
| Liquidation.LiquidateDrawsAtMost | src/Projections.tsx:237-279 | With solvent accounts, the amount drawn is min(shortfall, total holdings) and every account stays solvent |
| Liquidation.LiquidateGreedy | src/Projections.tsx:237-279 | In priority order, an account is touched only after every earlier account is at 0 |
| Liquidation.SolventHolding | src/Projections.tsx:248-276 | A solvent account holds a non-negative amount |
| Investments.Price | src/Investments.tsx:9-10 | The price is the nonzero live quote when there is one, else the stored price, else 0; it is 0 exactly when neither is available |
| Investments.Value | src/Investments.tsx:12-13 | The value is shares times price, and 0 without shares |
| Investments.ValueUnquoted | src/Investments.tsx:12-13 | Without a live quote, the value uses the stored price only |
| Investments.ParseInvestment | src/Investments.tsx:15-38 | The form's text fields are copied; each numeric field is kept iff it parses to a nonzero number; `deposit` is true iff the field is present and non-empty |
| Investments.ParseFormOf | src/Investments.tsx:15-38 | Parsing the form that shows a normalised investment gives it back, apart from the id |
| Investments.GetAccount | src/Investments.tsx:182-188 | An unknown account id is an error; otherwise the result is the first account with that id |
| Investments.SortInvestments | src/Investments.tsx:267-273 | The sorted list is a permutation of the investments, ascending by `priority \|\| 0` |
| Investments.EditInvestments | src/Investments.tsx:280-320 | An edit inside an account fails iff the account is unknown; otherwise it changes only that account's investment list |
| Investments.AppendInvestment | src/Investments.tsx:283-294 | The new investment is appended with an id of at least 1, above every existing id; the others are unchanged |
| Investments.AddInvestment | src/Investments.tsx:280-296 | Adding fails iff the account is unknown; otherwise only that account's list changes, by an append |
| Investments.UpdateInvestment | src/Investments.tsx:298-310 | The edited investment replaces the one with its id in place; with the id missing it replaces the last one, and it becomes the only one in an empty list |
| Investments.DeleteInvestment | src/Investments.tsx:312-320 | Deleting removes every investment with the id and keeps all others; other accounts are unchanged |
| Investments.EditAfterEdit | src/Investments.tsx:280-320 | Editing an account's list after replacing it composes the two edits |
| Investments.EditRoundTrip | src/Investments.tsx:280-320 | Two edits whose list changes undo each other give the accounts back |
| Investments.AddThenDeleteInvestment | src/Investments.tsx:280-320 | Deleting the id an add just allocated gives the accounts back |
| Investments.UpdateInvestmentInPlace | src/Investments.tsx:298-310 | Updating a present investment keeps it at the same position |
| Accounts.AccountAssets | src/Accounts.tsx:230-243 | An account counts its own value if set, else the sum of shares × stored price of its investments |
| Accounts.Assets | src/Accounts.tsx:230-243 | The assets total is the sum of the accounts' assets, 0 for no accounts |
| Accounts.InitialAssetsAgree | src/Accounts.tsx:230-243 | The assets total on the accounts screen equals the projection's initial assets |
| Accounts.DisplayValue | src/Accounts.tsx:161-166 | An account without investments is displayed at `value \|\| 0` |
| Accounts.DisplayVersusAssets | src/Accounts.tsx:161-166 | Without live quotes, the display value equals the assets figure, except that an account with both a value and investments displays their sum |
| Accounts.ParseAccount | src/Accounts.tsx:10-30 | A parsed account has no investments; each numeric field is kept iff it parses to a nonzero number; `deposit` is true iff the field is present and non-empty |
| Accounts.SortAccounts | src/Accounts.tsx:224-228 | The sorted list is a permutation of the accounts, ascending by `priority \|\| 0` |
| Accounts.AddAccount | src/Accounts.tsx:245-255 | The new account is appended with an id above every existing id; the others are unchanged |
| Accounts.UpdateAccount | src/Accounts.tsx:257-267 | An unknown id is an error; otherwise the account at the id's position is replaced by the form's account with the same id and the old investments, and nothing else changes |
| Accounts.UpdateAccountInPlace | src/Accounts.tsx:257-267 | An update keeps the account at its position and keeps ids unique |
| Accounts.DeleteAccount | src/Accounts.tsx:269-276 | Deleting removes every account with the id and keeps the others |
| Accounts.AddThenDeleteAccount | src/Accounts.tsx:245-276 | An add keeps ids unique, and deleting the id it allocated gives the list back |
| Accounts.DeleteAccountRemovesOne | src/Accounts.tsx:269-276 | With unique ids, deleting a present id removes exactly one account |
| Expenses.ParseExpense | src/Expenses.tsx:9-25 | Frequency defaults to 1 when absent; an empty start or stop becomes absent, and any other is kept |
| Expenses.ParseFormOf | src/Expenses.tsx:9-25 | Parsing the form that shows a normalised expense gives it back, apart from the id |
| Expenses.HumanFrequency | src/Expenses.tsx:84-87 | A frequency of 1 reads "yearly", one above 1 reads "every n years", and one below 1 has no text |
| Expenses.HumanFrequencyWhole | src/Expenses.tsx:84-87 | A whole frequency n > 1 reads "every n years" with n's decimal digits |
| Expenses.SortExpenses | src/Expenses.tsx:146-152 | The sorted list is a permutation; undated expenses come first, ascending by amount, then dated ones ascending by start |
| Expenses.AddExpense | src/Expenses.tsx:109-122 | The new expense is appended with an id above every existing id |
| Expenses.UpdateExpense | src/Expenses.tsx:124-135 | The edited expense replaces the one with its id in place; with the id missing it replaces the last one |
| Expenses.DeleteExpense | src/Expenses.tsx:137-144 | Deleting removes every expense with the id and keeps the others |
| Expenses.AddThenDeleteExpense | src/Expenses.tsx:109-144 | An add keeps ids unique, and deleting the id it allocated gives the list back |
| Expenses.UpdateExpenseInPlace | src/Expenses.tsx:124-135 | Updating a present id keeps it at the same position and keeps ids unique |
| Incomes.ParseIncome | src/Incomes.tsx:9-21 | An income keeps its start and stop text as given, empty strings included |
| Incomes.BlankDatesAreNoBound | src/Incomes.tsx:9-21 | An empty start or stop kept by the income form bounds the window no more than an absent one |
| Incomes.SortIncomes | src/Incomes.tsx:129-135 | The sorted list is a permutation; undated incomes come first, ascending by amount, then dated ones ascending by start |
| Incomes.AddIncome | src/Incomes.tsx:92-105 | The new income is appended with an id above every existing id |
| Incomes.UpdateIncome | src/Incomes.tsx:107-118 | The edited income replaces the one with its id in place; with the id missing it replaces the last one |
| Incomes.DeleteIncome | src/Incomes.tsx:120-127 | Deleting removes every income with the id and keeps the others |
| Incomes.AddThenDeleteIncome | src/Incomes.tsx:92-127 | An add keeps ids unique, and deleting the id it allocated gives the list back |
| Incomes.UpdateIncomeInPlace | src/Incomes.tsx:107-118 | Updating a present id keeps it at the same position and keeps ids unique |
| Rmds.ParseRmd | src/RMDs.tsx:8-18 | A parsed RMD row has id 0 and the age and distribution read from the form |
| Rmds.ParseFormOf | src/RMDs.tsx:8-18 | Parsing the form that shows an RMD row gives it back, apart from the id |
| Rmds.AddRmd | src/RMDs.tsx:70-79 | The new row is appended with an id above every existing id |
| Rmds.UpdateRmd | src/RMDs.tsx:81-90 | The edited row replaces the one with its id in place; with the id missing it replaces the last one |
| Rmds.DeleteRmd | src/RMDs.tsx:92-96 | Deleting removes every row with the id and keeps the others |
| Rmds.AddThenDeleteRmd | src/RMDs.tsx:70-96 | An add keeps ids unique, and deleting the id it allocated gives the list back |
| Rmds.UpdateRmdInPlace | src/RMDs.tsx:81-90 | Updating a present id keeps it at the same position and keeps ids unique |
| Taxes.ParseTax | src/Taxes.tsx:7-16 | A new tax has the form's name and kind and no rates |
| Taxes.ParsedTaxChargesNothing | src/Taxes.tsx:7-16 | A freshly parsed tax charges nothing on any income |
| Taxes.AddTax | src/Taxes.tsx:119-128 | The new tax is appended with an id above every existing id |
| Taxes.UpdateTax | src/Taxes.tsx:130-140 | An unknown id is an error; otherwise the tax at that position gets the form's name and kind and keeps its rates, and nothing else changes |
| Taxes.UpdateTaxKeepsCharges | src/Taxes.tsx:130-140 | Renaming a tax or changing its kind leaves the tax charged on every income unchanged |
| Taxes.DeleteTax | src/Taxes.tsx:142-147 | Deleting removes every tax with the id and keeps the others |
| Taxes.AddThenDeleteTax | src/Taxes.tsx:119-147 | An add keeps ids unique, and deleting the id it allocated gives the list back |
| Rates.ParseRate | src/Rates.tsx:9-20 | A bound is kept iff it parses to a nonzero number, else it is absent |
| Rates.ParsedBoundsSelectAlike | src/Rates.tsx:17-18 | Dropping zero bounds does not change which incomes a bracket selects |
| Rates.GetTax | src/Rates.tsx:68-72 | An unknown tax id is an error; otherwise the result is the first tax with that id |
| Rates.EditRates | src/Rates.tsx:100-131 | An edit inside a tax fails iff the tax is unknown; otherwise it changes only that tax's rate list |
| Rates.AppendRate | src/Rates.tsx:103-107 | The new rate is appended with an id of at least 1, above every existing id in that tax |
| Rates.AddRate | src/Rates.tsx:100-110 | Adding fails iff the tax is unknown; otherwise only that tax's list changes, by an append |
| Rates.UpdateRate | src/Rates.tsx:112-123 | The edited rate replaces the one with its id in place; with the id missing it replaces the last one |
| Rates.DeleteRate | src/Rates.tsx:125-131 | Deleting removes every rate with the id from that tax and keeps the others |
| Rates.EditAfterEdit | src/Rates.tsx:100-131 | Editing a tax's rates after replacing them composes the two edits |
| Rates.EditRoundTrip | src/Rates.tsx:100-131 | Two edits whose list changes undo each other give the taxes back |
| Rates.AddThenDeleteRate | src/Rates.tsx:100-131 | Deleting the id an add just allocated gives the taxes back |
| AssetClasses.AddToFacts | src/AssetClasses.tsx:13-17 | Adding to a class keeps classes distinct, raises only that class's figure by the amount, creates the class if needed, and raises the total by the amount |
| AssetClasses.FoldFacts | src/AssetClasses.tsx:10-19 | Folding investments in adds each class's contributions to its figure, and creates exactly the classes they feed |
| AssetClasses.Holdings | src/AssetClasses.tsx:10-11 | The visited investments are exactly those of all accounts |
| AssetClasses.BreakdownByClass | src/AssetClasses.tsx:8-22 | A class appears iff a contributing investment names it, and its figure is the sum of those contributions across all accounts |
| AssetClasses.TotalOfBreakdown | src/AssetClasses.tsx:24-27 | The total is the sum of every contribution |
| AssetClasses.NonContributorIgnored | src/AssetClasses.tsx:12 | An investment without a class or without shares changes nothing |
| Dates.HumanDate | src/utils.ts:1-11 | An absent or empty date has no text; any non-empty date gives text; a date whose third part is not "01" is returned unchanged |
| Dates.NewYearShowsYear | src/utils.ts:4-6 | "YYYY-01-01" shows as "YYYY" |
| Dates.FirstOfMonthShowsMonth | src/utils.ts:7-8 | "YYYY-MM-01" with MM not "01" shows as "MM YYYY" |
| Dates.OtherDayUnchanged | src/utils.ts:10 | A date on any other day is shown unchanged |
| IdLists.NextId | src/Expenses.tsx:114-119 | A fresh id is at least 1 and above every id in the list, and is one more than an existing id unless the list has no positive id |
| IdLists.FindIndex | src/Expenses.tsx:129-131 | The index is the first position holding the id, and -1 iff none does |
| IdLists.Splice1 | src/Expenses.tsx:132 | Splicing one element replaces it at an in-range index, replaces the last at -1, and makes an empty list a singleton |
| IdLists.Replace | src/Expenses.tsx:127-132 | Replacing keeps the length of a non-empty list and writes the record at the id's position, or at the last position when the id is missing |
| IdLists.Remove | src/Expenses.tsx:139-141 | Filtering keeps exactly the records without the id, and changes nothing when the id is absent |
| IdLists.RemoveAppend | src/Expenses.tsx:139-141 | Filtering keeps the survivors in order: it distributes over concatenation |
| IdLists.RemoveFresh | src/Expenses.tsx:114-141 | Filtering out a freshly appended id gives the list back |
| IdLists.ReplaceKeepsUnique | src/Expenses.tsx:127-132 | Replacing a record by one with the same id keeps ids unique |
| IdLists.RemoveUniqueLength | src/Expenses.tsx:139-141 | With unique ids, filtering out a present id removes exactly one record |
| Ordering.ComparePriority | src/Accounts.tsx:226 | The priority comparator is negative or positive exactly when one `priority \|\| 0` is below the other |
| Ordering.LocaleCompare | src/Expenses.tsx:151 | Comparing start strings is negative iff the first comes earlier, and 0 iff they are equal |
| Ordering.CompareByStart | src/Expenses.tsx:147-152 | The date-list comparator is negative or positive exactly when one key is below the other |
| Ordering.StartKeyOrdered | src/Expenses.tsx:147-152 | The sort key's order is: undated before dated, undated by amount, dated by start |
| Ordering.SortIndices | src/Accounts.tsx:224-228 | The sort visits every position once, ascending by key, with equal keys kept in their original order |
| Ordering.PermutePrefix | src/Accounts.tsx:224-228 | Picking elements in the order of the first n sorted positions yields the first n elements, as a multiset |
| Ordering.SortBy | src/Accounts.tsx:224-228 | A sort is a permutation with ascending keys |
| Text.LexTrichotomy | src/Projections.tsx:42-47 | String order is total and asymmetric |
| Text.LexTransitive | src/Projections.tsx:42-47 | String order is transitive |
| Text.ParseNatToString | src/Expenses.tsx:86 | Reading back a whole number's decimal text gives the number |
| Text.WholeNumberText | src/Expenses.tsx:86 | A whole number's text is its decimal digits |
| Text.JoinSplit | src/utils.ts:3 | Joining the parts of a split gives the string back |
| Text.SplitJoin | src/utils.ts:3 | Splitting parts joined with a separator they lack gives the parts back |

## Left out

- React rendering, hooks, dialogs and table markup in every component, and
  the JSON deep copy inside `updateData`. They are user interface and
  copy-on-write plumbing.
- localStorage load and save, JSON export and import, and live quote
  fetching. These are I/O. Quotes are a `prices` parameter mapping a name to
  an optional price.
- The current calendar year is a `startYear` parameter, because it comes from
  the clock.
- `parseFloat` and FormData reading. A parsed field is an `Option<real>`, and
  NaN or an absent field is `None`. Only the investment, account and
  bracket-bound parsers also turn a 0 into `None`.
- IEEE floating point. Money is an exact `real`, so rounding and NaN
  arithmetic are not modelled.
- `humanDollars`, `humanMoney`, `toLocaleString` and rounded percentage
  displays. These are locale formatting.
- Text.UnsignedText: a non-whole frequency prints a bounded number of
  fractional digits. JavaScript's shortest round-trip number text is not
  reproduced, and only the whole-number case is proved exact.
- Ordering.LocaleCompare: `localeCompare` is modelled as code-point string
  order. This is the same as JavaScript's code-unit order for text without
  characters above U+FFFF, which includes every ISO date. Collation rules of
  a locale are not modelled.
- Text.LexLess: strings compare by code point, while JavaScript's `<`
  compares UTF-16 code units. The two differ once a character above U+FFFF
  appears, and this difference is not modelled. It affects the window test
  in Accrual.Within and the start-date sorts.
- Expenses.SortExpenses: the comparator subtracts raw amounts, so a missing
  amount gives NaN in the source. The model compares amounts as
  `value || 0`.
- Incomes.SortIncomes: the same NaN difference is not modelled.
- Accounts.SortAccounts, Investments.SortInvestments, Expenses.SortExpenses
  and Incomes.SortIncomes: the source sorts the stored list in place when a
  screen renders, so later updaters and the export see display order. The
  model's sorts are pure, and its updaters take the list in stored order.
  The engine re-sorts stably by priority (`Liquidation.AccountOrder`,
  `Liquidation.InvestmentOrder`), so the projection is the same either way.
- Ages are integers, and the loop runs while `age < until`.
- Expense `frequency` is parsed and shown, but the engine does not use it.
  The same holds for RMD rows, capital gains, surplus deposits and tax
  `kind`.
- AssetClasses.BreakdownByClass: JavaScript object keys keep insertion order.
  The breakdown is a list of class entries in first-seen order, but the
  order is not stated in any contract.
- `src/Types.tsx` is stale and was not used for record shapes. The shapes
  follow the fields the code reads: `tax.rates`, `general.until`,
  `account.qualified`.
- Draining an account with investments lowers only the investments. The
  account's `value` field stays as grown, because the source writes only
  `investment.value`.
- `account.qualified` is read by the engine, but the account form never sets
  it, so a parsed account is not qualified.
- `src/General.tsx`, `src/Global.tsx`, `src/AppContext.tsx` and
  `src/Palette.tsx` are not part of this model. They hold trivial form
  parsing, seed data and a static palette demo.

## Behaviour worth knowing

- **Tax brackets.** A bracket selects an income only strictly between its
  bounds. An income exactly on a shared bound is taxed 0 by that table
  (`TaxLookup.SharedBoundIsUntaxed`).
- **Monotonicity.** The whole income is taxed at one bracket's rate, so the
  tax can fall as income rises (`TaxLookup.TaxCanFallAsIncomeRises`).
- **Initial income.** The initial state's income is the sum of the income
  amounts without dividends. Later years add dividends
  (`Projections.Initial`).
