/**
 * The account list: the assets total, an account's display value, what the
 * account form yields, the priority order and the add / update / delete
 * updaters.
 */
module Accounts {
  import opened Wrappers
  import opened Records
  import opened Sums
  import opened IdLists
  import opened Ordering
  import opened Investments
  import Snapshots
  import Projections

  /** An investment at its stored price: `(shares || 0) * (price || 0) || 0`. */
  function StoredValue(i: Investment): real {
    OrZero(i.shares) * OrZero(i.price)
  }

  /** One account's share of `assets`: its own value when set, else its investments at stored prices. */
  function AccountAssets(a: Account): (v: real)
    ensures IsSet(a.value) ==> v == a.value.value
    ensures !IsSet(a.value) ==> v == SumOf(a.investments, StoredValue)
  {
    if IsSet(a.value) then a.value.value else SumOf(a.investments, StoredValue)
  }

  /** `assets`: the total over all accounts; live quotes are not consulted. */
  function Assets(accounts: seq<Account>): (t: real)
    ensures |accounts| == 0 ==> t == 0.0
    ensures t == SumOf(accounts, AccountAssets)
  {
    SumOf(accounts, AccountAssets)
  }

  /** The accounts page and the projection start from the same assets total. */
  lemma InitialAssetsAgree(data: Data, startYear: int)
    ensures Projections.Initial(data, startYear).assets == Assets(data.accounts)
  {
    var init := Projections.Initial(data, startYear);
    forall k | 0 <= k < |data.accounts|
      ensures Snapshots.AccountValue(init.accounts[k]) == AccountAssets(data.accounts[k])
    {
      var a := data.accounts[k];
      var y := Projections.InitialAccount(a);
      assert init.accounts[k] == y;
      SumOfPointwise(y.investments, Snapshots.InvestmentValue, a.investments, StoredValue);
    }
    SumOfPointwise(init.accounts, Snapshots.AccountValue, data.accounts, AccountAssets);
  }

  /** An account's display value: `(value || 0)` plus its investments at live prices. */
  function DisplayValue(a: Account, prices: Prices): (v: real)
    ensures |a.investments| == 0 ==> v == OrZero(a.value)
  {
    OrZero(a.value) + SumOf(a.investments, (i: Investment) => Value(i, prices))
  }

  /**
   * Without live quotes the display value and the assets share agree when
   * the account has only one of value and investments; with both, the
   * display adds the investments while `assets` counts the value alone.
   */
  lemma DisplayVersusAssets(a: Account, prices: Prices)
    requires forall k :: 0 <= k < |a.investments| ==> !Quoted(a.investments[k].name, prices)
    ensures !IsSet(a.value) || |a.investments| == 0 ==> DisplayValue(a, prices) == AccountAssets(a)
    ensures IsSet(a.value) ==> DisplayValue(a, prices) == AccountAssets(a) + SumOf(a.investments, StoredValue)
  {
    forall k | 0 <= k < |a.investments|
      ensures Value(a.investments[k], prices) == StoredValue(a.investments[k])
    {
      ValueUnquoted(a.investments[k], prices);
    }
    SumOfPointwise(a.investments, (i: Investment) => Value(i, prices), a.investments, StoredValue);
  }

  /** What the account form submits; the deposit checkbox submits its text when ticked. */
  datatype AccountForm = AccountForm(
    name: string,
    kind: string,
    value: Parsed,
    returnPct: Parsed,
    dividend: Parsed,
    priority: Parsed,
    deposit: Option<string>)

  /**
   * `formEventToAccount`: id 0, no investments, every numeric field that
   * reads as 0 or NaN deleted, `deposit` set exactly when the box submitted
   * a non-empty value. The form has no `qualified` field, so the account it
   * yields is not qualified.
   */
  function ParseAccount(f: AccountForm): (a: Account)
    ensures a.id == 0 && a.name == f.name && a.kind == f.kind && a.investments == []
    ensures Kept(f.value, a.value) && Kept(f.returnPct, a.returnPct)
    ensures Kept(f.dividend, a.dividendPct) && Kept(f.priority, a.priority)
    ensures a.deposit <==> HasText(f.deposit)
    ensures !a.qualified
  {
    Account(0, f.name, f.kind, false, DropFalsy(f.value), DropFalsy(f.returnPct),
      DropFalsy(f.dividend), DropFalsy(f.priority), HasText(f.deposit), [])
  }

  function AccountPriority(a: Account): SortKey { PriorityKey(a.priority) }

  /** `sortedAccounts`: the accounts ascending by `priority || 0`; a permutation of the list. */
  function SortAccounts(accounts: seq<Account>): (r: seq<Account>)
    ensures |r| == |accounts| && multiset(r) == multiset(accounts)
    ensures forall a, b :: 0 <= a < b < |r| ==> OrZero(r[a].priority) <= OrZero(r[b].priority)
  {
    SortBy(accounts, AccountPriority)
  }

  /** `add`: the parsed account, under an id above every existing one, appended. */
  function AddAccount(accounts: seq<Account>, f: AccountForm): (r: seq<Account>)
    ensures |r| == |accounts| + 1 && r[..|accounts|] == accounts
    ensures r[|accounts|] == ParseAccount(f).(id := r[|accounts|].id)
    ensures r[|accounts|].id >= 1
    ensures forall k :: 0 <= k < |accounts| ==> accounts[k].id < r[|accounts|].id
  {
    accounts + [ParseAccount(f).(id := NextId(accounts, AccountId))]
  }

  /**
   * `update`: the account with `editId` is replaced, in place, by the parsed
   * one under the same id and with the old investments. Reading the
   * investments of a missing account raises a TypeError, so a missing id fails.
   */
  function UpdateAccount(accounts: seq<Account>, editId: int, f: AccountForm): (r: Result<seq<Account>>)
    ensures r.Failure? <==> !HasId(accounts, editId, AccountId)
    ensures r.Success? ==>
      var i := FindIndex(accounts, editId, AccountId);
      |r.value| == |accounts|
      && (forall k :: 0 <= k < |accounts| && k != i ==> r.value[k] == accounts[k])
      && r.value[i] == ParseAccount(f).(id := editId, investments := accounts[i].investments)
  {
    var i := FindIndex(accounts, editId, AccountId);
    if i < 0 then Failure("TypeError: Cannot read properties of undefined (reading 'investments')")
    else
      var next := ParseAccount(f).(id := editId, investments := accounts[i].investments);
      Success(Replace(accounts, editId, next, AccountId))
  }

  /** An update keeps the account where it was and keeps ids unique. */
  lemma UpdateAccountInPlace(accounts: seq<Account>, editId: int, f: AccountForm)
    requires HasId(accounts, editId, AccountId)
    ensures var r := UpdateAccount(accounts, editId, f).value;
      FindIndex(r, editId, AccountId) == FindIndex(accounts, editId, AccountId)
      && (UniqueIds(accounts, AccountId) ==> UniqueIds(r, AccountId))
  {
    var i := FindIndex(accounts, editId, AccountId);
    var next := ParseAccount(f).(id := editId, investments := accounts[i].investments);
    ReplaceKeepsPosition(accounts, next, AccountId);
    if UniqueIds(accounts, AccountId) {
      ReplaceKeepsUnique(accounts, next, AccountId);
    }
  }

  /** `delete`: every account with `editId` goes, the rest stay in order. */
  function DeleteAccount(accounts: seq<Account>, editId: int): (r: seq<Account>)
    ensures !HasId(r, editId, AccountId)
    ensures forall k :: 0 <= k < |r| ==> r[k] in accounts
    ensures forall k :: 0 <= k < |accounts| && accounts[k].id != editId ==> accounts[k] in r
    ensures !HasId(accounts, editId, AccountId) ==> r == accounts
  {
    Remove(accounts, editId, AccountId)
  }

  /** Adding keeps ids unique, and deleting the new id undoes the add. */
  lemma AddThenDeleteAccount(accounts: seq<Account>, f: AccountForm)
    ensures UniqueIds(accounts, AccountId) ==> UniqueIds(AddAccount(accounts, f), AccountId)
    ensures DeleteAccount(AddAccount(accounts, f), NextId(accounts, AccountId)) == accounts
  {
    var x := ParseAccount(f).(id := NextId(accounts, AccountId));
    assert AddAccount(accounts, f) == accounts + [x];
    if UniqueIds(accounts, AccountId) {
      AppendFreshKeepsUnique(accounts, x, AccountId);
    }
    RemoveFresh(accounts, x, AccountId);
  }

  /** With unique ids, deleting a present account removes exactly that one. */
  lemma DeleteAccountRemovesOne(accounts: seq<Account>, editId: int)
    requires UniqueIds(accounts, AccountId) && HasId(accounts, editId, AccountId)
    ensures |DeleteAccount(accounts, editId)| == |accounts| - 1
  {
    RemoveUniqueLength(accounts, editId, AccountId);
  }
}
