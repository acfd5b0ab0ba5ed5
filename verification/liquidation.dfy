/**
 * Covering a year's shortfall from the accounts: accounts in ascending
 * priority, and inside an account with investments the investments in
 * ascending priority, each emptied in turn until the shortfall is met.
 * The sorted lists share their objects with the year's accounts, so the
 * model drains along a sort order and writes back into the original
 * positions.
 */
module Liquidation {
  import opened Records
  import opened Sums
  import opened Ordering
  import opened Snapshots

  /** What is left in a holding and of the shortfall after drawing on it. */
  datatype Taken = Taken(left: real, shortfall: real)

  /**
   * Draw `shortfall` from a holding of `held`: the holding and the shortfall
   * fall by the same amount, the smaller of the two, so one of them ends at zero.
   */
  function Take(held: real, shortfall: real): (r: Taken)
    ensures held - r.left == shortfall - r.shortfall == Min(held, shortfall)
    ensures r.left == 0.0 || r.shortfall == 0.0
    ensures 0.0 <= held && 0.0 <= shortfall ==> 0.0 <= r.left <= held && 0.0 <= r.shortfall <= shortfall
  {
    if shortfall < held then Taken(held - shortfall, 0.0) else Taken(0.0, shortfall - held)
  }

  datatype Drained<T> = Drained(items: seq<T>, shortfall: real)

  /** The inner loop: investments drawn on along `order` while a shortfall remains. */
  function DrainInvestments(invs: seq<InvestmentYear>, order: seq<nat>, shortfall: real): (r: Drained<InvestmentYear>)
    requires InRange(order, |invs|)
    ensures |r.items| == |invs|
    ensures forall k :: 0 <= k < |invs| ==> r.items[k] == invs[k].(value := r.items[k].value)
    decreases |order|
  {
    if shortfall == 0.0 || |order| == 0 then Drained(invs, shortfall)
    else
      var i := order[0];
      var t := Take(invs[i].value, shortfall);
      DrainInvestments(invs[i := invs[i].(value := t.left)], order[1..], t.shortfall)
  }

  /** Nothing outside the order is touched. */
  lemma {:induction false} DrainInvestmentsOutside(invs: seq<InvestmentYear>, order: seq<nat>, shortfall: real, k: nat)
    requires InRange(order, |invs|)
    requires k < |invs| && k !in order
    ensures DrainInvestments(invs, order, shortfall).items[k] == invs[k]
    decreases |order|
  {
    if shortfall != 0.0 && |order| > 0 {
      var i := order[0];
      var t := Take(invs[i].value, shortfall);
      assert k !in order[1..];
      DrainInvestmentsOutside(invs[i := invs[i].(value := t.left)], order[1..], t.shortfall, k);
    }
  }

  /** What leaves the investments is exactly what the shortfall fell by. */
  lemma {:induction false} DrainInvestmentsConserves(invs: seq<InvestmentYear>, order: seq<nat>, shortfall: real)
    requires InRange(order, |invs|)
    ensures var r := DrainInvestments(invs, order, shortfall);
      SumOf(invs, InvestmentValue) - SumOf(r.items, InvestmentValue) == shortfall - r.shortfall
    decreases |order|
  {
    if shortfall != 0.0 && |order| > 0 {
      var i := order[0];
      var t := Take(invs[i].value, shortfall);
      var next := invs[i := invs[i].(value := t.left)];
      SumOfUpdate(invs, i, invs[i].(value := t.left), InvestmentValue);
      DrainInvestmentsConserves(next, order[1..], t.shortfall);
    }
  }

  /** A shortfall left over means every investment along the order was emptied. */
  lemma {:induction false} DrainInvestmentsExhausts(invs: seq<InvestmentYear>, order: seq<nat>, shortfall: real)
    requires InRange(order, |invs|)
    ensures var r := DrainInvestments(invs, order, shortfall);
      r.shortfall != 0.0 ==> forall k :: 0 <= k < |order| ==> r.items[order[k]].value == 0.0
    decreases |order|
  {
    var r := DrainInvestments(invs, order, shortfall);
    if shortfall != 0.0 && |order| > 0 && r.shortfall != 0.0 {
      var i := order[0];
      var t := Take(invs[i].value, shortfall);
      var next := invs[i := invs[i].(value := t.left)];
      DrainInvestmentsExhausts(next, order[1..], t.shortfall);
      assert t.shortfall != 0.0;
      forall k | 0 <= k < |order| ensures r.items[order[k]].value == 0.0 {
        if k > 0 {
          assert order[k] == order[1..][k - 1];
        } else if i in order[1..] {
          var j :| 0 <= j < |order[1..]| && order[1..][j] == i;
        } else {
          DrainInvestmentsOutside(next, order[1..], t.shortfall, i);
        }
      }
    }
  }

  /** Non-negative holdings and shortfall stay non-negative, and the shortfall only shrinks. */
  lemma {:induction false} DrainInvestmentsNonNegative(invs: seq<InvestmentYear>, order: seq<nat>, shortfall: real)
    requires InRange(order, |invs|)
    requires 0.0 <= shortfall
    requires forall k :: 0 <= k < |invs| ==> 0.0 <= invs[k].value
    ensures var r := DrainInvestments(invs, order, shortfall);
      (forall k :: 0 <= k < |invs| ==> 0.0 <= r.items[k].value <= invs[k].value) && 0.0 <= r.shortfall <= shortfall
    decreases |order|
  {
    if shortfall != 0.0 && |order| > 0 {
      var i := order[0];
      var t := Take(invs[i].value, shortfall);
      var next := invs[i := invs[i].(value := t.left)];
      DrainInvestmentsNonNegative(next, order[1..], t.shortfall);
    }
  }

  /**
   * Greedy draining: an investment is changed only once every investment
   * before it in the order has been emptied.
   */
  lemma {:induction false} DrainInvestmentsGreedy(invs: seq<InvestmentYear>, order: seq<nat>, shortfall: real)
    requires InRange(order, |invs|) && Distinct(order)
    ensures var r := DrainInvestments(invs, order, shortfall);
      forall j, k :: 0 <= j < k < |order| && r.items[order[k]].value != invs[order[k]].value ==>
        r.items[order[j]].value == 0.0
    decreases |order|
  {
    var r := DrainInvestments(invs, order, shortfall);
    if shortfall != 0.0 && |order| > 0 {
      var i := order[0];
      var t := Take(invs[i].value, shortfall);
      var next := invs[i := invs[i].(value := t.left)];
      DrainInvestmentsGreedy(next, order[1..], t.shortfall);
      DistinctTail(order);
      assert r == DrainInvestments(next, order[1..], t.shortfall);
      assert t.shortfall == 0.0 ==> DrainInvestments(next, order[1..], t.shortfall).items == next;
      forall j, k | 0 <= j < k < |order| && r.items[order[k]].value != invs[order[k]].value
        ensures r.items[order[j]].value == 0.0
      {
        assert order[k] == order[1..][k - 1] && order[k] != i;
        if j > 0 {
          assert order[j] == order[1..][j - 1];
        } else if t.shortfall != 0.0 {
          DrainInvestmentsOutside(next, order[1..], t.shortfall, i);
        }
      }
    }
  }

  /** When the order covers every investment, a shortfall left over means they total zero. */
  lemma DrainInvestmentsEmpties(invs: seq<InvestmentYear>, order: seq<nat>, shortfall: real)
    requires InRange(order, |invs|)
    requires forall k :: 0 <= k < |invs| ==> k in order
    ensures var r := DrainInvestments(invs, order, shortfall);
      r.shortfall != 0.0 ==> SumOf(r.items, InvestmentValue) == 0.0
  {
    var r := DrainInvestments(invs, order, shortfall);
    DrainInvestmentsExhausts(invs, order, shortfall);
    if r.shortfall != 0.0 {
      forall k | 0 <= k < |r.items| ensures InvestmentValue(r.items[k]) == 0.0 {
        assert k in order;
        var j :| 0 <= j < |order| && order[j] == k;
      }
      SumOfZeros(r.items, InvestmentValue);
    }
  }

  /**
   * The inner loop when the order covers every investment and holdings are
   * non-negative: it draws the smaller of the shortfall and the investments'
   * total.
   */
  lemma DrainInvestmentsDrawsAtMost(invs: seq<InvestmentYear>, order: seq<nat>, shortfall: real)
    requires InRange(order, |invs|)
    requires forall k :: 0 <= k < |invs| ==> k in order
    requires 0.0 <= shortfall
    requires forall k :: 0 <= k < |invs| ==> 0.0 <= invs[k].value
    ensures var r := DrainInvestments(invs, order, shortfall);
      shortfall - r.shortfall == Min(shortfall, SumOf(invs, InvestmentValue))
  {
    var r := DrainInvestments(invs, order, shortfall);
    DrainInvestmentsConserves(invs, order, shortfall);
    DrainInvestmentsNonNegative(invs, order, shortfall);
    DrainInvestmentsEmpties(invs, order, shortfall);
    SumOfNonNegative(r.items, InvestmentValue);
  }

  /** The priority order the inner loop visits an account's investments in. */
  function InvestmentOrder(invs: seq<InvestmentYear>): (order: seq<nat>)
    ensures |order| == |invs| && InRange(order, |invs|) && Distinct(order)
    ensures forall k :: 0 <= k < |invs| ==> k in order
    ensures forall a, b :: 0 <= a < b < |order| ==>
      OrZero(invs[order[a]].investment.priority) <= OrZero(invs[order[b]].investment.priority)
    ensures forall a, b ::
      (0 <= a < b < |order| && OrZero(invs[order[a]].investment.priority) == OrZero(invs[order[b]].investment.priority))
      ==> order[a] < order[b]
  {
    var keys := MapOf(invs, (i: InvestmentYear) => PriorityKey(i.investment.priority));
    SortIndices(keys)
  }

  /** The state the outer loop threads: accounts, the shortfall left, and the ids already drawn on. */
  datatype AccountsDrained = AccountsDrained(accounts: seq<AccountYear>, shortfall: real, changed: set<int>)

  /**
   * One account of the outer loop. An account with investments has them
   * drained and keeps its reported value; a bare account is drawn on
   * directly and is flagged as changed the first time its id is drawn on.
   */
  function DrainAccount(a: AccountYear, shortfall: real, changed: set<int>): (r: AccountsDrained)
    ensures |r.accounts| == 1
    ensures r.accounts[0].account == a.account && r.accounts[0].dividends == a.dividends
    ensures Holding(a) - Holding(r.accounts[0]) == shortfall - r.shortfall
    ensures r.shortfall != 0.0 ==> Holding(r.accounts[0]) == 0.0
    ensures |a.investments| > 0 ==> r.accounts[0] == a.(investments := r.accounts[0].investments) && r.changed == changed
    ensures |a.investments| == 0 ==> r.accounts[0].investments == [] && r.changed == changed + {a.account.id}
                                     && r.accounts[0].change == (a.account.id !in changed)
  {
    if |a.investments| > 0 then
      var order := InvestmentOrder(a.investments);
      var d := DrainInvestments(a.investments, order, shortfall);
      DrainInvestmentsConserves(a.investments, order, shortfall);
      DrainInvestmentsEmpties(a.investments, order, shortfall);
      AccountsDrained([a.(investments := d.items)], d.shortfall, changed)
    else
      var t := Take(a.value, shortfall);
      AccountsDrained([a.(value := t.left, change := a.account.id !in changed)], t.shortfall, changed + {a.account.id})
  }

  /** The outer loop: accounts drawn on along `order` while a shortfall remains. */
  function DrainAccounts(accts: seq<AccountYear>, order: seq<nat>, shortfall: real, changed: set<int>): (r: AccountsDrained)
    requires InRange(order, |accts|)
    ensures |r.accounts| == |accts|
    ensures forall k :: 0 <= k < |accts| ==>
      r.accounts[k].account == accts[k].account && r.accounts[k].dividends == accts[k].dividends
    ensures changed <= r.changed
    decreases |order|
  {
    if shortfall == 0.0 || |order| == 0 then AccountsDrained(accts, shortfall, changed)
    else
      var i := order[0];
      var d := DrainAccount(accts[i], shortfall, changed);
      DrainAccounts(accts[i := d.accounts[0]], order[1..], d.shortfall, d.changed)
  }

  /** Accounts outside the order are untouched. */
  lemma {:induction false} DrainAccountsOutside(accts: seq<AccountYear>, order: seq<nat>, shortfall: real, changed: set<int>, k: nat)
    requires InRange(order, |accts|)
    requires k < |accts| && k !in order
    ensures DrainAccounts(accts, order, shortfall, changed).accounts[k] == accts[k]
    decreases |order|
  {
    if shortfall != 0.0 && |order| > 0 {
      var i := order[0];
      var d := DrainAccount(accts[i], shortfall, changed);
      assert k !in order[1..];
      DrainAccountsOutside(accts[i := d.accounts[0]], order[1..], d.shortfall, d.changed, k);
    }
  }

  /** What leaves the accounts' holdings is exactly what the shortfall fell by. */
  lemma {:induction false} DrainAccountsConserves(accts: seq<AccountYear>, order: seq<nat>, shortfall: real, changed: set<int>)
    requires InRange(order, |accts|)
    ensures var r := DrainAccounts(accts, order, shortfall, changed);
      SumOf(accts, Holding) - SumOf(r.accounts, Holding) == shortfall - r.shortfall
    decreases |order|
  {
    if shortfall != 0.0 && |order| > 0 {
      var i := order[0];
      var d := DrainAccount(accts[i], shortfall, changed);
      SumOfUpdate(accts, i, d.accounts[0], Holding);
      DrainAccountsConserves(accts[i := d.accounts[0]], order[1..], d.shortfall, d.changed);
    }
  }

  /** A shortfall left over means every account along the order holds nothing. */
  lemma {:induction false} DrainAccountsExhausts(accts: seq<AccountYear>, order: seq<nat>, shortfall: real, changed: set<int>)
    requires InRange(order, |accts|)
    ensures var r := DrainAccounts(accts, order, shortfall, changed);
      r.shortfall != 0.0 ==> forall k :: 0 <= k < |order| ==> Holding(r.accounts[order[k]]) == 0.0
    decreases |order|
  {
    var r := DrainAccounts(accts, order, shortfall, changed);
    if shortfall != 0.0 && |order| > 0 && r.shortfall != 0.0 {
      var i := order[0];
      var d := DrainAccount(accts[i], shortfall, changed);
      var next := accts[i := d.accounts[0]];
      DrainAccountsExhausts(next, order[1..], d.shortfall, d.changed);
      assert d.shortfall != 0.0;
      forall k | 0 <= k < |order| ensures Holding(r.accounts[order[k]]) == 0.0 {
        if k > 0 {
          assert order[k] == order[1..][k - 1];
        } else if i in order[1..] {
          var j :| 0 <= j < |order[1..]| && order[1..][j] == i;
        } else {
          DrainAccountsOutside(next, order[1..], d.shortfall, d.changed, i);
        }
      }
    }
  }

  /** No two flagged accounts share an id. */
  predicate FlagsDistinct(accts: seq<AccountYear>) {
    forall a, b :: 0 <= a < b < |accts| && accts[a].change && accts[b].change ==>
      accts[a].account.id != accts[b].account.id
  }

  /** No account of the year is flagged yet. */
  predicate Unflagged(accts: seq<AccountYear>) {
    forall k :: 0 <= k < |accts| ==> !accts[k].change
  }

  /** With no account flagged, the flags are fresh whatever was drawn on before. */
  lemma UnflaggedFresh(accts: seq<AccountYear>, changed: set<int>)
    ensures Unflagged(accts) ==> FreshFlags(accts, changed, changed)
  {
  }

  /**
   * Every flagged account is under an id outside `before` and inside
   * `after`, and no two flagged accounts share an id.
   */
  predicate FreshFlags(accts: seq<AccountYear>, before: set<int>, after: set<int>) {
    (forall k :: 0 <= k < |accts| && accts[k].change ==> accts[k].account.id in after && accts[k].account.id !in before)
    && FlagsDistinct(accts)
  }

  /**
   * Along an order that visits each account once, an account is flagged only
   * if its id had not been drawn on before; its id is then recorded, so no
   * two accounts end up flagged under one id.
   */
  lemma {:induction false} DrainAccountsFlagsFresh(accts: seq<AccountYear>, order: seq<nat>, shortfall: real, changed: set<int>)
    requires InRange(order, |accts|) && Distinct(order)
    requires forall k :: 0 <= k < |order| ==> !accts[order[k]].change
    requires forall k :: 0 <= k < |accts| && accts[k].change ==> accts[k].account.id in changed
    requires FlagsDistinct(accts)
    ensures var r := DrainAccounts(accts, order, shortfall, changed);
      (forall k :: 0 <= k < |accts| && r.accounts[k].change ==> r.accounts[k].account.id in r.changed)
      && (forall k :: 0 <= k < |accts| && r.accounts[k].change && !accts[k].change ==> accts[k].account.id !in changed)
      && FlagsDistinct(r.accounts)
    decreases |order|
  {
    if shortfall != 0.0 && |order| > 0 {
      var i := order[0];
      var d := DrainAccount(accts[i], shortfall, changed);
      var next := accts[i := d.accounts[0]];
      assert forall k :: 0 <= k < |order[1..]| ==> order[1..][k] != i by {
        forall k | 0 <= k < |order[1..]| ensures order[1..][k] != i {
          assert order[1..][k] == order[k + 1];
        }
      }
      assert forall k :: 0 <= k < |order[1..]| ==> !next[order[1..][k]].change by {
        forall k | 0 <= k < |order[1..]| ensures !next[order[1..][k]].change {
          assert order[1..][k] == order[k + 1];
        }
      }
      assert FlagsDistinct(next);
      DrainAccountsFlagsFresh(next, order[1..], d.shortfall, d.changed);
    }
  }

  /**
   * Greedy draining: an account's holding changes only once every account
   * before it in the order holds nothing.
   */
  lemma {:induction false} DrainAccountsGreedy(accts: seq<AccountYear>, order: seq<nat>, shortfall: real, changed: set<int>)
    requires InRange(order, |accts|) && Distinct(order)
    ensures var r := DrainAccounts(accts, order, shortfall, changed);
      forall j, k :: 0 <= j < k < |order| && Holding(r.accounts[order[k]]) != Holding(accts[order[k]]) ==>
        Holding(r.accounts[order[j]]) == 0.0
    decreases |order|
  {
    var r := DrainAccounts(accts, order, shortfall, changed);
    if shortfall != 0.0 && |order| > 0 {
      var i := order[0];
      var d := DrainAccount(accts[i], shortfall, changed);
      var next := accts[i := d.accounts[0]];
      DrainAccountsGreedy(next, order[1..], d.shortfall, d.changed);
      DistinctTail(order);
      assert r == DrainAccounts(next, order[1..], d.shortfall, d.changed);
      assert d.shortfall == 0.0 ==> DrainAccounts(next, order[1..], d.shortfall, d.changed).accounts == next;
      forall j, k | 0 <= j < k < |order| && Holding(r.accounts[order[k]]) != Holding(accts[order[k]])
        ensures Holding(r.accounts[order[j]]) == 0.0
      {
        assert order[k] == order[1..][k - 1] && order[k] != i;
        if j > 0 {
          assert order[j] == order[1..][j - 1];
        } else if d.shortfall != 0.0 {
          DrainAccountsOutside(next, order[1..], d.shortfall, d.changed, i);
        }
      }
    }
  }

  /** Every holding of the account is non-negative. */
  predicate Solvent(a: AccountYear) {
    if |a.investments| > 0 then forall k :: 0 <= k < |a.investments| ==> 0.0 <= a.investments[k].value
    else 0.0 <= a.value
  }

  lemma DrainAccountNonNegative(a: AccountYear, shortfall: real, changed: set<int>)
    requires Solvent(a) && 0.0 <= shortfall
    ensures var r := DrainAccount(a, shortfall, changed);
      Solvent(r.accounts[0]) && 0.0 <= Holding(r.accounts[0]) && 0.0 <= r.shortfall <= shortfall
  {
    var r := DrainAccount(a, shortfall, changed);
    if |a.investments| > 0 {
      DrainInvestmentsNonNegative(a.investments, InvestmentOrder(a.investments), shortfall);
      SumOfNonNegative(r.accounts[0].investments, InvestmentValue);
    }
  }

  /** Accounts whose holdings start non-negative stay non-negative, and the shortfall only shrinks. */
  lemma {:induction false} DrainAccountsNonNegative(accts: seq<AccountYear>, order: seq<nat>, shortfall: real, changed: set<int>)
    requires InRange(order, |accts|)
    requires 0.0 <= shortfall
    requires forall k :: 0 <= k < |accts| ==> Solvent(accts[k])
    ensures var r := DrainAccounts(accts, order, shortfall, changed);
      (forall k :: 0 <= k < |accts| ==> Solvent(r.accounts[k])) && 0.0 <= r.shortfall <= shortfall
    decreases |order|
  {
    if shortfall != 0.0 && |order| > 0 {
      var i := order[0];
      var d := DrainAccount(accts[i], shortfall, changed);
      DrainAccountNonNegative(accts[i], shortfall, changed);
      DrainAccountsNonNegative(accts[i := d.accounts[0]], order[1..], d.shortfall, d.changed);
    }
  }

  /** The priority order the outer loop visits the accounts in. */
  function AccountOrder(accts: seq<AccountYear>): (order: seq<nat>)
    ensures |order| == |accts| && InRange(order, |accts|) && Distinct(order)
    ensures forall k :: 0 <= k < |accts| ==> k in order
    ensures forall a, b :: 0 <= a < b < |order| ==>
      OrZero(accts[order[a]].account.priority) <= OrZero(accts[order[b]].account.priority)
    ensures forall a, b ::
      (0 <= a < b < |order| && OrZero(accts[order[a]].account.priority) == OrZero(accts[order[b]].account.priority))
      ==> order[a] < order[b]
  {
    var keys := MapOf(accts, (a: AccountYear) => PriorityKey(a.account.priority));
    SortIndices(keys)
  }

  /** Covering a shortfall from a year's accounts, lowest priority first. */
  function Liquidate(accts: seq<AccountYear>, shortfall: real, changed: set<int>): (r: AccountsDrained)
    ensures |r.accounts| == |accts|
    ensures forall k :: 0 <= k < |accts| ==>
      r.accounts[k].account == accts[k].account && r.accounts[k].dividends == accts[k].dividends
    ensures SumOf(accts, Holding) - SumOf(r.accounts, Holding) == shortfall - r.shortfall
    ensures r.shortfall != 0.0 ==> forall k :: 0 <= k < |accts| ==> Holding(r.accounts[k]) == 0.0
    ensures changed <= r.changed
  {
    var order := AccountOrder(accts);
    var r := DrainAccounts(accts, order, shortfall, changed);
    DrainAccountsConserves(accts, order, shortfall, changed);
    DrainAccountsExhausts(accts, order, shortfall, changed);
    assert r.shortfall != 0.0 ==> forall k :: 0 <= k < |accts| ==> Holding(r.accounts[k]) == 0.0 by {
      if r.shortfall != 0.0 {
        forall k | 0 <= k < |accts| ensures Holding(r.accounts[k]) == 0.0 {
          assert k in order;
          var j :| 0 <= j < |order| && order[j] == k;
        }
      }
    }
    r
  }

  /**
   * Liquidating accounts none of which is flagged yet flags each account at
   * most once per id, and only under ids not drawn on before, which it records.
   */
  lemma LiquidateFlagsFresh(accts: seq<AccountYear>, shortfall: real, changed: set<int>)
    ensures Unflagged(accts) ==> FreshFlags(Liquidate(accts, shortfall, changed).accounts, changed,
                                            Liquidate(accts, shortfall, changed).changed)
  {
    if Unflagged(accts) {
      var order := AccountOrder(accts);
      DrainAccountsFlagsFresh(accts, order, shortfall, changed);
    }
  }

  /**
   * With non-negative holdings, liquidation draws the smaller of the
   * shortfall and the accounts' total holdings, and leaves every holding
   * non-negative.
   */
  lemma LiquidateDrawsAtMost(accts: seq<AccountYear>, shortfall: real, changed: set<int>)
    requires 0.0 <= shortfall
    requires forall k :: 0 <= k < |accts| ==> Solvent(accts[k])
    ensures var r := Liquidate(accts, shortfall, changed);
      shortfall - r.shortfall == Min(shortfall, SumOf(accts, Holding))
      && forall k :: 0 <= k < |accts| ==> Solvent(r.accounts[k])
  {
    var r := Liquidate(accts, shortfall, changed);
    DrainAccountsNonNegative(accts, AccountOrder(accts), shortfall, changed);
    var after := SumOf(r.accounts, Holding);
    assert 0.0 <= after by {
      forall k | 0 <= k < |r.accounts| ensures 0.0 <= Holding(r.accounts[k]) {
        SolventHolding(r.accounts[k]);
      }
      SumOfNonNegative(r.accounts, Holding);
    }
    assert r.shortfall != 0.0 ==> after == 0.0 by {
      if r.shortfall != 0.0 {
        SumOfZeros(r.accounts, Holding);
      }
    }
  }

  lemma SolventHolding(a: AccountYear)
    requires Solvent(a)
    ensures 0.0 <= Holding(a)
  {
    if |a.investments| > 0 {
      SumOfNonNegative(a.investments, InvestmentValue);
    }
  }

  /**
   * Liquidation is greedy in priority order: an account's holding changes
   * only once every account of lower priority holds nothing.
   */
  lemma LiquidateGreedy(accts: seq<AccountYear>, shortfall: real, changed: set<int>)
    ensures var r := Liquidate(accts, shortfall, changed);
      var order := AccountOrder(accts);
      forall j, k :: 0 <= j < k < |order| && Holding(r.accounts[order[k]]) != Holding(accts[order[k]]) ==>
        Holding(r.accounts[order[j]]) == 0.0
  {
    DrainAccountsGreedy(accts, AccountOrder(accts), shortfall, changed);
  }

  /**
   * The converse of the flag freshness: every id the outer loop newly
   * records belongs to an account it flagged.
   */
  lemma {:induction false} DrainAccountsFlagsRecorded(accts: seq<AccountYear>, order: seq<nat>, shortfall: real, changed: set<int>)
    requires InRange(order, |accts|) && Distinct(order)
    ensures var r := DrainAccounts(accts, order, shortfall, changed);
      forall id :: id in r.changed && id !in changed ==>
        exists k :: 0 <= k < |accts| && r.accounts[k].change && r.accounts[k].account.id == id
    decreases |order|
  {
    var r := DrainAccounts(accts, order, shortfall, changed);
    if shortfall != 0.0 && |order| > 0 {
      var i := order[0];
      var d := DrainAccount(accts[i], shortfall, changed);
      var next := accts[i := d.accounts[0]];
      DistinctTail(order);
      DrainAccountsFlagsRecorded(next, order[1..], d.shortfall, d.changed);
      assert r == DrainAccounts(next, order[1..], d.shortfall, d.changed);
      forall id | id in r.changed && id !in changed
        ensures exists k :: 0 <= k < |accts| && r.accounts[k].change && r.accounts[k].account.id == id
      {
        if id in d.changed {
          DrainAccountsOutside(next, order[1..], d.shortfall, d.changed, i);
          assert r.accounts[i].change && r.accounts[i].account.id == id;
        }
      }
    }
  }

  /** A bare account whose value the outer loop lowered has its id recorded. */
  lemma {:induction false} DrainAccountsRecordsDrawn(accts: seq<AccountYear>, order: seq<nat>, shortfall: real, changed: set<int>)
    requires InRange(order, |accts|)
    ensures var r := DrainAccounts(accts, order, shortfall, changed);
      forall k :: 0 <= k < |accts| && |accts[k].investments| == 0 && r.accounts[k].value != accts[k].value ==>
        accts[k].account.id in r.changed
    decreases |order|
  {
    var r := DrainAccounts(accts, order, shortfall, changed);
    if shortfall != 0.0 && |order| > 0 {
      var i := order[0];
      var d := DrainAccount(accts[i], shortfall, changed);
      var next := accts[i := d.accounts[0]];
      DrainAccountsRecordsDrawn(next, order[1..], d.shortfall, d.changed);
      assert r == DrainAccounts(next, order[1..], d.shortfall, d.changed);
      forall k | 0 <= k < |accts| && |accts[k].investments| == 0 && r.accounts[k].value != accts[k].value
        ensures accts[k].account.id in r.changed
      {
        if k == i {
          assert accts[k].account.id in d.changed;
        } else {
          assert next[k] == accts[k];
        }
      }
    }
  }

  /**
   * Liquidation records exactly the ids it flags: a newly recorded id is
   * flagged on some account, and a bare account it drew down is recorded.
   */
  lemma LiquidateFlagsRecorded(accts: seq<AccountYear>, shortfall: real, changed: set<int>)
    ensures var r := Liquidate(accts, shortfall, changed);
      && (forall id :: id in r.changed && id !in changed ==>
            exists k :: 0 <= k < |accts| && r.accounts[k].change && r.accounts[k].account.id == id)
      && (forall k :: 0 <= k < |accts| && |accts[k].investments| == 0 && r.accounts[k].value != accts[k].value ==>
            accts[k].account.id in r.changed)
  {
    var order := AccountOrder(accts);
    DrainAccountsFlagsRecorded(accts, order, shortfall, changed);
    DrainAccountsRecordsDrawn(accts, order, shortfall, changed);
  }

  /** Some account of `accts` is flagged under `id`. */
  predicate FlaggedAt(accts: seq<AccountYear>, id: int) {
    exists a :: 0 <= a < |accts| && accts[a].change && accts[a].account.id == id
  }

  /** The accounts flag exactly the ids in `after` that are not in `before`. */
  ghost predicate FlagsExactly(accts: seq<AccountYear>, before: set<int>, after: set<int>) {
    forall id :: FlaggedAt(accts, id) <==> id in after && id !in before
  }

  /** Every bare account whose value went from `before` to a different one in `after` has its id in `rec`. */
  predicate RecordsDrawn(before: seq<AccountYear>, after: seq<AccountYear>, rec: set<int>) {
    forall k :: 0 <= k < |before| && k < |after| && |before[k].investments| == 0 && after[k].value != before[k].value ==>
      before[k].account.id in rec
  }

  /** Accounts left as they were record nothing new, and, unflagged, flag nothing. */
  lemma UntouchedFlagsExactly(accts: seq<AccountYear>, changed: set<int>)
    ensures RecordsDrawn(accts, accts, changed)
    ensures Unflagged(accts) ==> FlagsExactly(accts, changed, changed)
  {
  }

  /** Liquidating accounts none of which is flagged yet flags exactly the ids it newly records. */
  lemma LiquidateFlagsExactly(accts: seq<AccountYear>, shortfall: real, changed: set<int>)
    ensures var r := Liquidate(accts, shortfall, changed);
      Unflagged(accts) ==> FlagsExactly(r.accounts, changed, r.changed)
  {
    LiquidateFlagsFresh(accts, shortfall, changed);
    LiquidateFlagsRecorded(accts, shortfall, changed);
  }

  /** Liquidation records the id of every bare account it draws down. */
  lemma LiquidateRecordsAll(accts: seq<AccountYear>, shortfall: real, changed: set<int>)
    ensures var r := Liquidate(accts, shortfall, changed); RecordsDrawn(accts, r.accounts, r.changed)
  {
    LiquidateFlagsRecorded(accts, shortfall, changed);
  }
}
