/**
 * The expense list: what the expense form yields, the frequency label, the
 * order the list is shown in, and the add / update / delete updaters.
 */
module Expenses {
  import opened Wrappers
  import opened Records
  import opened IdLists
  import opened Ordering
  import opened Text

  /** What the expense form submits; a date input left blank submits "". */
  datatype ExpenseForm = ExpenseForm(name: string, value: Parsed, frequency: Parsed, start: string, stop: string)

  /** A date as an expense keeps it: deleted when blank. */
  function DateField(text: string): Option<string> {
    if text == "" then None else Some(text)
  }

  /** An expense as the form leaves it: a truthy frequency and no blank dates. */
  predicate NormalExpense(e: Expense) {
    IsSet(e.frequency) && e.start != Some("") && e.stop != Some("")
  }

  /**
   * `formEventToExpense`: id 0, name and amount as entered, a frequency of
   * 1 when the field reads as 0 or NaN, blank dates deleted.
   */
  function ParseExpense(f: ExpenseForm): (e: Expense)
    ensures e.id == 0 && e.name == f.name && e.value == f.value
    ensures IsSet(f.frequency) ==> e.frequency == f.frequency
    ensures !IsSet(f.frequency) ==> e.frequency == Some(1.0)
    ensures e.start.None? <==> f.start == ""
    ensures e.stop.None? <==> f.stop == ""
    ensures e.start.Some? ==> e.start.value == f.start
    ensures e.stop.Some? ==> e.stop.value == f.stop
    ensures NormalExpense(e)
  {
    Expense(0, f.name, f.value, if IsSet(f.frequency) then f.frequency else Some(1.0),
      DateField(f.start), DateField(f.stop))
  }

  /** The edit form prefilled from an expense: a missing field shows blank. */
  function FormOf(e: Expense): ExpenseForm {
    ExpenseForm(e.name, e.value, e.frequency,
      if e.start.Some? then e.start.value else "",
      if e.stop.Some? then e.stop.value else "")
  }

  /** Saving the edit form untouched gives back an expense in normal form, id aside. */
  lemma ParseFormOf(e: Expense)
    requires NormalExpense(e)
    ensures ParseExpense(FormOf(e)) == e.(id := 0)
  {
  }

  /** `humanFrequency`: "yearly" for 1, "every n years" above 1, nothing below. */
  function HumanFrequency(frequency: real): (r: Option<string>)
    ensures r == Some("yearly") <==> frequency == 1.0
    ensures r.None? <==> frequency < 1.0
    ensures frequency > 1.0 ==> r == Some("every " + NumberText(frequency) + " years")
  {
    if frequency == 1.0 then Some("yearly")
    else if frequency > 1.0 then Some("every " + NumberText(frequency) + " years")
    else None
  }

  /** A whole frequency above one is written as a plain integer. */
  lemma HumanFrequencyWhole(n: nat)
    requires n > 1
    ensures HumanFrequency(n as real) == Some("every " + NatToString(n) + " years")
  {
    WholeNumberText(n);
  }

  function ExpenseStart(e: Expense): Option<string> { e.start }
  function ExpenseValue(e: Expense): Option<real> { e.value }

  /**
   * The expense list order: undated expenses first, ascending by amount,
   * then dated ones ascending by start; a permutation of the list.
   */
  function SortExpenses(expenses: seq<Expense>): (r: seq<Expense>)
    ensures |r| == |expenses| && multiset(r) == multiset(expenses)
    ensures forall a, b :: 0 <= a < b < |r| ==> (HasText(r[a].start) ==> HasText(r[b].start))
    ensures forall a, b :: 0 <= a < b < |r| && !HasText(r[a].start) && !HasText(r[b].start) ==>
      OrZero(r[a].value) <= OrZero(r[b].value)
    ensures forall a, b :: 0 <= a < b < |r| && HasText(r[a].start) && HasText(r[b].start) ==>
      LexLe(r[a].start.value, r[b].start.value)
  {
    SortByStart(expenses, ExpenseStart, ExpenseValue)
  }

  /** `add`: the parsed expense, under an id above every existing one, appended. */
  function AddExpense(expenses: seq<Expense>, f: ExpenseForm): (r: seq<Expense>)
    ensures |r| == |expenses| + 1 && r[..|expenses|] == expenses
    ensures r[|expenses|] == ParseExpense(f).(id := r[|expenses|].id)
    ensures r[|expenses|].id >= 1
    ensures forall k :: 0 <= k < |expenses| ==> expenses[k].id < r[|expenses|].id
  {
    expenses + [ParseExpense(f).(id := NextId(expenses, ExpenseId))]
  }

  /**
   * `update`: the parsed expense under `editId` replaces the first expense
   * with that id, in place; with no such expense it replaces the last one,
   * and an empty list gets it as its only element.
   */
  function UpdateExpense(expenses: seq<Expense>, editId: int, f: ExpenseForm): (r: seq<Expense>)
    ensures |expenses| > 0 ==> |r| == |expenses|
    ensures HasId(expenses, editId, ExpenseId) ==>
      r == expenses[FindIndex(expenses, editId, ExpenseId) := ParseExpense(f).(id := editId)]
    ensures !HasId(expenses, editId, ExpenseId) && |expenses| > 0 ==>
      r == expenses[..|expenses| - 1] + [ParseExpense(f).(id := editId)]
    ensures |expenses| == 0 ==> r == [ParseExpense(f).(id := editId)]
  {
    Replace(expenses, editId, ParseExpense(f).(id := editId), ExpenseId)
  }

  /** `delete`: every expense with `editId` goes, the rest stay in order. */
  function DeleteExpense(expenses: seq<Expense>, editId: int): (r: seq<Expense>)
    ensures !HasId(r, editId, ExpenseId)
    ensures forall k :: 0 <= k < |r| ==> r[k] in expenses
    ensures forall k :: 0 <= k < |expenses| && expenses[k].id != editId ==> expenses[k] in r
    ensures !HasId(expenses, editId, ExpenseId) ==> r == expenses
  {
    Remove(expenses, editId, ExpenseId)
  }

  /** Adding keeps ids unique, and deleting the new id undoes the add. */
  lemma AddThenDeleteExpense(expenses: seq<Expense>, f: ExpenseForm)
    ensures UniqueIds(expenses, ExpenseId) ==> UniqueIds(AddExpense(expenses, f), ExpenseId)
    ensures DeleteExpense(AddExpense(expenses, f), NextId(expenses, ExpenseId)) == expenses
  {
    var x := ParseExpense(f).(id := NextId(expenses, ExpenseId));
    assert AddExpense(expenses, f) == expenses + [x];
    if UniqueIds(expenses, ExpenseId) {
      AppendFreshKeepsUnique(expenses, x, ExpenseId);
    }
    RemoveFresh(expenses, x, ExpenseId);
  }

  /** Updating an existing expense keeps it at its place and keeps ids unique. */
  lemma UpdateExpenseInPlace(expenses: seq<Expense>, editId: int, f: ExpenseForm)
    requires HasId(expenses, editId, ExpenseId)
    ensures FindIndex(UpdateExpense(expenses, editId, f), editId, ExpenseId) == FindIndex(expenses, editId, ExpenseId)
    ensures UniqueIds(expenses, ExpenseId) ==> UniqueIds(UpdateExpense(expenses, editId, f), ExpenseId)
  {
    var x := ParseExpense(f).(id := editId);
    ReplaceKeepsPosition(expenses, x, ExpenseId);
    if UniqueIds(expenses, ExpenseId) {
      ReplaceKeepsUnique(expenses, x, ExpenseId);
    }
  }
}
