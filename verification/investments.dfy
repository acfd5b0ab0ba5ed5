/**
 * The investments of an account: price and value lookup, what the
 * investment form yields, the account lookup by id, the priority order and
 * the add / update / delete updaters, each of which edits the investment
 * list of one account in place.
 */
module Investments {
  import opened Wrappers
  import opened Records
  import opened Sums
  import opened IdLists
  import opened Ordering

  /** The live quote for a ticker when there is a non-zero one. */
  predicate Quoted(name: string, prices: Prices) {
    name in prices && IsSet(prices[name].price)
  }

  /** `investmentPrice`: the live quote when non-zero, else the stored price when set, else 0. */
  function Price(inv: Investment, prices: Prices): (p: real)
    ensures Quoted(inv.name, prices) ==> p == prices[inv.name].price.value
    ensures !Quoted(inv.name, prices) ==> p == OrZero(inv.price)
    ensures p == 0.0 <==> !Quoted(inv.name, prices) && !IsSet(inv.price)
  {
    if Quoted(inv.name, prices) then prices[inv.name].price.value else OrZero(inv.price)
  }

  /** `investmentValue`: shares times price, 0 when no shares are held. */
  function Value(inv: Investment, prices: Prices): (v: real)
    ensures v == OrZero(inv.shares) * Price(inv, prices)
    ensures !IsSet(inv.shares) ==> v == 0.0
  {
    (if IsSet(inv.shares) then inv.shares.value else 0.0) * Price(inv, prices)
  }

  /** Without a live quote an investment is valued at its stored price, as the projection values it. */
  lemma ValueUnquoted(inv: Investment, prices: Prices)
    requires !Quoted(inv.name, prices)
    ensures Value(inv, prices) == OrZero(inv.shares) * OrZero(inv.price)
  {
  }

  /**
   * What the investment form submits; the deposit checkbox submits its text
   * when ticked and nothing otherwise, and the asset class is the chosen
   * option, if the field is there.
   */
  datatype InvestmentForm = InvestmentForm(
    name: string,
    shares: Parsed,
    basis: Parsed,
    price: Parsed,
    dividend: Parsed,
    returnPct: Parsed,
    priority: Parsed,
    deposit: Option<string>,
    assetClass: Option<string>)

  /** A numeric field as the parsers leave it: the number when truthy, deleted otherwise. */
  predicate Kept(raw: Parsed, field: Option<real>) {
    (IsSet(raw) ==> field == raw) && (!IsSet(raw) ==> field.None?)
  }

  /** An investment as the form leaves it: every numeric field deleted or non-zero. */
  predicate NormalInvestment(i: Investment) {
    Normal(i.shares) && Normal(i.basis) && Normal(i.price)
    && Normal(i.dividendPct) && Normal(i.returnPct) && Normal(i.priority)
  }

  /**
   * `formEventToInvestment`: id 0; every numeric field that reads as 0 or
   * NaN deleted; `deposit` set exactly when the checkbox submitted a
   * non-empty value.
   */
  function ParseInvestment(f: InvestmentForm): (i: Investment)
    ensures i.id == 0 && i.name == f.name && i.assetClass == f.assetClass
    ensures Kept(f.shares, i.shares) && Kept(f.basis, i.basis) && Kept(f.price, i.price)
    ensures Kept(f.dividend, i.dividendPct) && Kept(f.returnPct, i.returnPct) && Kept(f.priority, i.priority)
    ensures i.deposit <==> HasText(f.deposit)
    ensures NormalInvestment(i)
  {
    Investment(0, f.name, DropFalsy(f.shares), DropFalsy(f.basis), DropFalsy(f.price),
      DropFalsy(f.dividend), DropFalsy(f.returnPct), DropFalsy(f.priority), HasText(f.deposit), f.assetClass)
  }

  /** The edit form prefilled from an investment; a ticked box submits "on". */
  function FormOf(i: Investment): InvestmentForm {
    InvestmentForm(i.name, i.shares, i.basis, i.price, i.dividendPct, i.returnPct, i.priority,
      if i.deposit then Some("on") else None, i.assetClass)
  }

  /** Saving the edit form untouched gives back an investment in normal form, id aside. */
  lemma ParseFormOf(i: Investment)
    requires NormalInvestment(i)
    ensures ParseInvestment(FormOf(i)) == i.(id := 0)
  {
  }

  /** `getAccount`: the first account with the id; a missing one raises "missing account". */
  function GetAccount(accounts: seq<Account>, accountId: int): (r: Result<Account>)
    ensures r.Failure? <==> !HasId(accounts, accountId, AccountId)
    ensures r.Success? ==> r.value.id == accountId && r.value == accounts[FindIndex(accounts, accountId, AccountId)]
  {
    match Find(accounts, accountId, AccountId)
    case None => Failure("TypeError: missing account")
    case Some(account) => Success(account)
  }

  function InvestmentPriority(i: Investment): SortKey { PriorityKey(i.priority) }

  /** `sortedInvestments`: the investments ascending by `priority || 0`; a permutation of the list. */
  function SortInvestments(invs: seq<Investment>): (r: seq<Investment>)
    ensures |r| == |invs| && multiset(r) == multiset(invs)
    ensures forall a, b :: 0 <= a < b < |r| ==> OrZero(r[a].priority) <= OrZero(r[b].priority)
  {
    SortBy(invs, InvestmentPriority)
  }

  /** Only the investment list of the account at `i` differs between the two lists. */
  predicate OnlyInvestmentsOf(before: seq<Account>, after: seq<Account>, i: int) {
    |after| == |before| && 0 <= i < |before|
    && (forall k :: 0 <= k < |before| && k != i ==> after[k] == before[k])
    && after[i] == before[i].(investments := after[i].investments)
  }

  /** Apply an edit to the investments of the account `getAccount` finds. */
  function EditInvestments(accounts: seq<Account>, accountId: int, edit: seq<Investment> -> seq<Investment>)
    : (r: Result<seq<Account>>)
    ensures r.Failure? <==> !HasId(accounts, accountId, AccountId)
    ensures r.Success? ==>
      var i := FindIndex(accounts, accountId, AccountId);
      OnlyInvestmentsOf(accounts, r.value, i) && r.value[i].investments == edit(accounts[i].investments)
  {
    var i := FindIndex(accounts, accountId, AccountId);
    if i < 0 then Failure("TypeError: missing account")
    else Success(accounts[i := accounts[i].(investments := edit(accounts[i].investments))])
  }

  /** The parsed investment, under an id above every id in the account, appended. */
  function AppendInvestment(invs: seq<Investment>, f: InvestmentForm): (r: seq<Investment>)
    ensures |r| == |invs| + 1 && r[..|invs|] == invs
    ensures r[|invs|] == ParseInvestment(f).(id := r[|invs|].id)
    ensures r[|invs|].id >= 1
    ensures forall k :: 0 <= k < |invs| ==> invs[k].id < r[|invs|].id
  {
    invs + [ParseInvestment(f).(id := NextId(invs, InvestmentId))]
  }

  /** `add`: the account with `accountId` gets the parsed investment appended; no other account changes. */
  function AddInvestment(accounts: seq<Account>, accountId: int, f: InvestmentForm): (r: Result<seq<Account>>)
    ensures r.Failure? <==> !HasId(accounts, accountId, AccountId)
    ensures r.Success? ==>
      var i := FindIndex(accounts, accountId, AccountId);
      OnlyInvestmentsOf(accounts, r.value, i) && r.value[i].investments == AppendInvestment(accounts[i].investments, f)
  {
    EditInvestments(accounts, accountId, (invs: seq<Investment>) => AppendInvestment(invs, f))
  }

  /**
   * `update`: inside the account with `accountId`, the parsed investment
   * under `editId` replaces the first investment with that id, or the last
   * one when none has it; no other account changes.
   */
  function UpdateInvestment(accounts: seq<Account>, accountId: int, editId: int, f: InvestmentForm)
    : (r: Result<seq<Account>>)
    ensures r.Failure? <==> !HasId(accounts, accountId, AccountId)
    ensures r.Success? ==>
      var i := FindIndex(accounts, accountId, AccountId);
      var prior := accounts[i].investments;
      var x := ParseInvestment(f).(id := editId);
      OnlyInvestmentsOf(accounts, r.value, i)
      && (HasId(prior, editId, InvestmentId) ==>
            r.value[i].investments == prior[FindIndex(prior, editId, InvestmentId) := x])
      && (!HasId(prior, editId, InvestmentId) && |prior| > 0 ==>
            r.value[i].investments == prior[..|prior| - 1] + [x])
      && (|prior| == 0 ==> r.value[i].investments == [x])
  {
    EditInvestments(accounts, accountId,
      (invs: seq<Investment>) => Replace(invs, editId, ParseInvestment(f).(id := editId), InvestmentId))
  }

  /** `delete`: inside the account with `accountId`, every investment with `editId` goes; no other account changes. */
  function DeleteInvestment(accounts: seq<Account>, accountId: int, editId: int): (r: Result<seq<Account>>)
    ensures r.Failure? <==> !HasId(accounts, accountId, AccountId)
    ensures r.Success? ==>
      var i := FindIndex(accounts, accountId, AccountId);
      OnlyInvestmentsOf(accounts, r.value, i)
      && !HasId(r.value[i].investments, editId, InvestmentId)
      && (forall k :: 0 <= k < |r.value[i].investments| ==> r.value[i].investments[k] in accounts[i].investments)
      && (forall k :: 0 <= k < |accounts[i].investments| && accounts[i].investments[k].id != editId ==>
            accounts[i].investments[k] in r.value[i].investments)
  {
    EditInvestments(accounts, accountId, (invs: seq<Investment>) => Remove(invs, editId, InvestmentId))
  }

  /** An edit after an edit of the same account's investments edits the same account. */
  lemma EditAfterEdit(accounts: seq<Account>, accountId: int, invs: seq<Investment>,
                      edit: seq<Investment> -> seq<Investment>)
    requires HasId(accounts, accountId, AccountId)
    ensures var i := FindIndex(accounts, accountId, AccountId);
      EditInvestments(accounts[i := accounts[i].(investments := invs)], accountId, edit)
        == Success(accounts[i := accounts[i].(investments := edit(invs))])
  {
    var i := FindIndex(accounts, accountId, AccountId);
    var once := accounts[i := accounts[i].(investments := invs)];
    SetKeepsPosition(accounts, accountId, once[i], AccountId);
    assert once[i := once[i].(investments := edit(invs))] == accounts[i := accounts[i].(investments := edit(invs))];
  }

  /** An edit that a second edit undoes leaves the accounts as they were. */
  lemma EditRoundTrip(accounts: seq<Account>, accountId: int,
                      there: seq<Investment> -> seq<Investment>, back: seq<Investment> -> seq<Investment>)
    requires HasId(accounts, accountId, AccountId)
    requires var i := FindIndex(accounts, accountId, AccountId);
      back(there(accounts[i].investments)) == accounts[i].investments
    ensures EditInvestments(EditInvestments(accounts, accountId, there).value, accountId, back) == Success(accounts)
  {
    var i := FindIndex(accounts, accountId, AccountId);
    var invs := accounts[i].investments;
    EditAfterEdit(accounts, accountId, there(invs), back);
    assert accounts[i].(investments := invs) == accounts[i];
    SetSame(accounts, i);
  }

  /** Deleting the investment an add just created gives the accounts back. */
  lemma AddThenDeleteInvestment(accounts: seq<Account>, accountId: int, f: InvestmentForm)
    requires HasId(accounts, accountId, AccountId)
    ensures var i := FindIndex(accounts, accountId, AccountId);
      DeleteInvestment(AddInvestment(accounts, accountId, f).value, accountId,
        NextId(accounts[i].investments, InvestmentId)) == Success(accounts)
  {
    var i := FindIndex(accounts, accountId, AccountId);
    var invs := accounts[i].investments;
    var nid := NextId(invs, InvestmentId);
    RemoveFresh(invs, ParseInvestment(f).(id := nid), InvestmentId);
    EditRoundTrip(accounts, accountId,
      (invs: seq<Investment>) => AppendInvestment(invs, f),
      (invs: seq<Investment>) => Remove(invs, nid, InvestmentId));
  }

  /** Updating an existing investment keeps it at its place in its account. */
  lemma UpdateInvestmentInPlace(accounts: seq<Account>, accountId: int, editId: int, f: InvestmentForm)
    requires HasId(accounts, accountId, AccountId)
    requires HasId(accounts[FindIndex(accounts, accountId, AccountId)].investments, editId, InvestmentId)
    ensures var i := FindIndex(accounts, accountId, AccountId);
      var r := UpdateInvestment(accounts, accountId, editId, f).value;
      FindIndex(r[i].investments, editId, InvestmentId) == FindIndex(accounts[i].investments, editId, InvestmentId)
  {
    var i := FindIndex(accounts, accountId, AccountId);
    ReplaceKeepsPosition(accounts[i].investments, ParseInvestment(f).(id := editId), InvestmentId);
  }
}
