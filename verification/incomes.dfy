/**
 * The income list: what the income form yields, the order the list is shown
 * in, and the add / update / delete updaters.
 */
module Incomes {
  import opened Wrappers
  import opened Records
  import opened IdLists
  import opened Ordering
  import opened Accrual
  import opened Text

  /** What the income form submits; a date input left blank submits "". */
  datatype IncomeForm = IncomeForm(name: string, value: Parsed, start: string, stop: string)

  /**
   * `formEventToIncome`: id 0 and every field as entered. Unlike expenses,
   * blank dates are kept as empty strings.
   */
  function ParseIncome(f: IncomeForm): (i: Income)
    ensures i.id == 0 && i.name == f.name && i.value == f.value
    ensures i.start == Some(f.start) && i.stop == Some(f.stop)
  {
    Income(0, f.name, f.value, Some(f.start), Some(f.stop))
  }

  /**
   * A kept blank date is inert: the engine reads an empty start or stop as
   * no bound at all, so a parsed income is active exactly when the same
   * income with its blank dates deleted would be.
   */
  lemma BlankDatesAreNoBound(f: IncomeForm, year: int)
    ensures f.start == "" ==>
      Within(year, ParseIncome(f).start, ParseIncome(f).stop) == Within(year, None, ParseIncome(f).stop)
    ensures f.stop == "" ==>
      Within(year, ParseIncome(f).start, ParseIncome(f).stop) == Within(year, ParseIncome(f).start, None)
  {
  }

  function IncomeStart(i: Income): Option<string> { i.start }
  function IncomeValue(i: Income): Option<real> { i.value }

  /**
   * The income list order: undated incomes first, ascending by amount, then
   * dated ones ascending by start; a permutation of the list.
   */
  function SortIncomes(incomes: seq<Income>): (r: seq<Income>)
    ensures |r| == |incomes| && multiset(r) == multiset(incomes)
    ensures forall a, b :: 0 <= a < b < |r| ==> (HasText(r[a].start) ==> HasText(r[b].start))
    ensures forall a, b :: 0 <= a < b < |r| && !HasText(r[a].start) && !HasText(r[b].start) ==>
      OrZero(r[a].value) <= OrZero(r[b].value)
    ensures forall a, b :: 0 <= a < b < |r| && HasText(r[a].start) && HasText(r[b].start) ==>
      LexLe(r[a].start.value, r[b].start.value)
  {
    SortByStart(incomes, IncomeStart, IncomeValue)
  }

  /** `add`: the parsed income, under an id above every existing one, appended. */
  function AddIncome(incomes: seq<Income>, f: IncomeForm): (r: seq<Income>)
    ensures |r| == |incomes| + 1 && r[..|incomes|] == incomes
    ensures r[|incomes|] == ParseIncome(f).(id := r[|incomes|].id)
    ensures r[|incomes|].id >= 1
    ensures forall k :: 0 <= k < |incomes| ==> incomes[k].id < r[|incomes|].id
  {
    incomes + [ParseIncome(f).(id := NextId(incomes, IncomeId))]
  }

  /**
   * `update`: the parsed income under `editId` replaces the first income
   * with that id, in place; with no such income it replaces the last one,
   * and an empty list gets it as its only element.
   */
  function UpdateIncome(incomes: seq<Income>, editId: int, f: IncomeForm): (r: seq<Income>)
    ensures |incomes| > 0 ==> |r| == |incomes|
    ensures HasId(incomes, editId, IncomeId) ==>
      r == incomes[FindIndex(incomes, editId, IncomeId) := ParseIncome(f).(id := editId)]
    ensures !HasId(incomes, editId, IncomeId) && |incomes| > 0 ==>
      r == incomes[..|incomes| - 1] + [ParseIncome(f).(id := editId)]
    ensures |incomes| == 0 ==> r == [ParseIncome(f).(id := editId)]
  {
    Replace(incomes, editId, ParseIncome(f).(id := editId), IncomeId)
  }

  /** `delete`: every income with `editId` goes, the rest stay in order. */
  function DeleteIncome(incomes: seq<Income>, editId: int): (r: seq<Income>)
    ensures !HasId(r, editId, IncomeId)
    ensures forall k :: 0 <= k < |r| ==> r[k] in incomes
    ensures forall k :: 0 <= k < |incomes| && incomes[k].id != editId ==> incomes[k] in r
    ensures !HasId(incomes, editId, IncomeId) ==> r == incomes
  {
    Remove(incomes, editId, IncomeId)
  }

  /** Adding keeps ids unique, and deleting the new id undoes the add. */
  lemma AddThenDeleteIncome(incomes: seq<Income>, f: IncomeForm)
    ensures UniqueIds(incomes, IncomeId) ==> UniqueIds(AddIncome(incomes, f), IncomeId)
    ensures DeleteIncome(AddIncome(incomes, f), NextId(incomes, IncomeId)) == incomes
  {
    var x := ParseIncome(f).(id := NextId(incomes, IncomeId));
    assert AddIncome(incomes, f) == incomes + [x];
    if UniqueIds(incomes, IncomeId) {
      AppendFreshKeepsUnique(incomes, x, IncomeId);
    }
    RemoveFresh(incomes, x, IncomeId);
  }

  /** Updating an existing income keeps it at its place and keeps ids unique. */
  lemma UpdateIncomeInPlace(incomes: seq<Income>, editId: int, f: IncomeForm)
    requires HasId(incomes, editId, IncomeId)
    ensures FindIndex(UpdateIncome(incomes, editId, f), editId, IncomeId) == FindIndex(incomes, editId, IncomeId)
    ensures UniqueIds(incomes, IncomeId) ==> UniqueIds(UpdateIncome(incomes, editId, f), IncomeId)
  {
    var x := ParseIncome(f).(id := editId);
    ReplaceKeepsPosition(incomes, x, IncomeId);
    if UniqueIds(incomes, IncomeId) {
      ReplaceKeepsUnique(incomes, x, IncomeId);
    }
  }
}
