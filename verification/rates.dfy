/**
 * The brackets of one tax table: what the bracket form yields, the table
 * lookup by id, and the add / update / delete updaters, each of which edits
 * the bracket list of one table in place.
 */
module Rates {
  import opened Wrappers
  import opened Records
  import opened IdLists
  import opened TaxLookup

  /** What the bracket form submits: three numeric fields. */
  datatype RateForm = RateForm(rate: Parsed, min: Parsed, max: Parsed)

  /** `formEventToRate`: id 0, the rate as read, `min` and `max` deleted when they read as 0 or NaN. */
  function ParseRate(f: RateForm): (r: Rate)
    ensures r.id == 0 && r.rate == f.rate
    ensures IsSet(f.min) ==> r.min == f.min
    ensures !IsSet(f.min) ==> r.min.None?
    ensures IsSet(f.max) ==> r.max == f.max
    ensures !IsSet(f.max) ==> r.max.None?
  {
    Rate(0, f.rate, DropFalsy(f.min), DropFalsy(f.max))
  }

  /**
   * Deleting a falsy bound is invisible to the lookup: the parsed bracket
   * holds an income exactly when the bracket as entered would.
   */
  lemma ParsedBoundsSelectAlike(f: RateForm, income: real)
    ensures Selects(ParseRate(f), income) <==> Selects(Rate(0, f.rate, f.min, f.max), income)
  {
  }

  /** `getTax`: the first table with the id; a missing one raises "missing tax". */
  function GetTax(taxes: seq<Tax>, taxId: int): (r: Result<Tax>)
    ensures r.Failure? <==> !HasId(taxes, taxId, TaxId)
    ensures r.Success? ==> r.value.id == taxId && r.value == taxes[FindIndex(taxes, taxId, TaxId)]
  {
    match Find(taxes, taxId, TaxId)
    case None => Failure("TypeError: missing tax")
    case Some(tax) => Success(tax)
  }

  /** Only the bracket list of the table at `i` differs between the two lists. */
  predicate OnlyRatesOf(before: seq<Tax>, after: seq<Tax>, i: int) {
    |after| == |before| && 0 <= i < |before|
    && (forall k :: 0 <= k < |before| && k != i ==> after[k] == before[k])
    && after[i] == before[i].(rates := after[i].rates)
  }

  /** Apply an edit to the brackets of the table `getTax` finds. */
  function EditRates(taxes: seq<Tax>, taxId: int, edit: seq<Rate> -> seq<Rate>): (r: Result<seq<Tax>>)
    ensures r.Failure? <==> !HasId(taxes, taxId, TaxId)
    ensures r.Success? ==>
      var i := FindIndex(taxes, taxId, TaxId);
      OnlyRatesOf(taxes, r.value, i) && r.value[i].rates == edit(taxes[i].rates)
  {
    var i := FindIndex(taxes, taxId, TaxId);
    if i < 0 then Failure("TypeError: missing tax")
    else Success(taxes[i := taxes[i].(rates := edit(taxes[i].rates))])
  }

  /** The parsed bracket, under an id above every id in the table, appended. */
  function AppendRate(rates: seq<Rate>, f: RateForm): (r: seq<Rate>)
    ensures |r| == |rates| + 1 && r[..|rates|] == rates
    ensures r[|rates|] == ParseRate(f).(id := r[|rates|].id)
    ensures r[|rates|].id >= 1
    ensures forall k :: 0 <= k < |rates| ==> rates[k].id < r[|rates|].id
  {
    rates + [ParseRate(f).(id := NextId(rates, RateId))]
  }

  /** `add`: the table with `taxId` gets the parsed bracket appended; no other table changes. */
  function AddRate(taxes: seq<Tax>, taxId: int, f: RateForm): (r: Result<seq<Tax>>)
    ensures r.Failure? <==> !HasId(taxes, taxId, TaxId)
    ensures r.Success? ==>
      var i := FindIndex(taxes, taxId, TaxId);
      OnlyRatesOf(taxes, r.value, i) && r.value[i].rates == AppendRate(taxes[i].rates, f)
  {
    EditRates(taxes, taxId, (rates: seq<Rate>) => AppendRate(rates, f))
  }

  /**
   * `update`: inside the table with `taxId`, the parsed bracket under
   * `editId` replaces the first bracket with that id, or the last one when
   * none has it; no other table changes.
   */
  function UpdateRate(taxes: seq<Tax>, taxId: int, editId: int, f: RateForm): (r: Result<seq<Tax>>)
    ensures r.Failure? <==> !HasId(taxes, taxId, TaxId)
    ensures r.Success? ==>
      var i := FindIndex(taxes, taxId, TaxId);
      var prior := taxes[i].rates;
      var x := ParseRate(f).(id := editId);
      OnlyRatesOf(taxes, r.value, i)
      && (HasId(prior, editId, RateId) ==> r.value[i].rates == prior[FindIndex(prior, editId, RateId) := x])
      && (!HasId(prior, editId, RateId) && |prior| > 0 ==> r.value[i].rates == prior[..|prior| - 1] + [x])
      && (|prior| == 0 ==> r.value[i].rates == [x])
  {
    EditRates(taxes, taxId, (rates: seq<Rate>) => Replace(rates, editId, ParseRate(f).(id := editId), RateId))
  }

  /** `delete`: inside the table with `taxId`, every bracket with `editId` goes; no other table changes. */
  function DeleteRate(taxes: seq<Tax>, taxId: int, editId: int): (r: Result<seq<Tax>>)
    ensures r.Failure? <==> !HasId(taxes, taxId, TaxId)
    ensures r.Success? ==>
      var i := FindIndex(taxes, taxId, TaxId);
      OnlyRatesOf(taxes, r.value, i)
      && !HasId(r.value[i].rates, editId, RateId)
      && (forall k :: 0 <= k < |r.value[i].rates| ==> r.value[i].rates[k] in taxes[i].rates)
      && (forall k :: 0 <= k < |taxes[i].rates| && taxes[i].rates[k].id != editId ==>
            taxes[i].rates[k] in r.value[i].rates)
  {
    EditRates(taxes, taxId, (rates: seq<Rate>) => Remove(rates, editId, RateId))
  }

  /** An edit after an edit of the same table's brackets edits the same table. */
  lemma EditAfterEdit(taxes: seq<Tax>, taxId: int, rates: seq<Rate>, edit: seq<Rate> -> seq<Rate>)
    requires HasId(taxes, taxId, TaxId)
    ensures var i := FindIndex(taxes, taxId, TaxId);
      EditRates(taxes[i := taxes[i].(rates := rates)], taxId, edit)
        == Success(taxes[i := taxes[i].(rates := edit(rates))])
  {
    var i := FindIndex(taxes, taxId, TaxId);
    var once := taxes[i := taxes[i].(rates := rates)];
    SetKeepsPosition(taxes, taxId, once[i], TaxId);
    assert once[i := once[i].(rates := edit(rates))] == taxes[i := taxes[i].(rates := edit(rates))];
  }

  /** An edit that a second edit undoes leaves the tables as they were. */
  lemma EditRoundTrip(taxes: seq<Tax>, taxId: int, there: seq<Rate> -> seq<Rate>, back: seq<Rate> -> seq<Rate>)
    requires HasId(taxes, taxId, TaxId)
    requires var i := FindIndex(taxes, taxId, TaxId); back(there(taxes[i].rates)) == taxes[i].rates
    ensures EditRates(EditRates(taxes, taxId, there).value, taxId, back) == Success(taxes)
  {
    var i := FindIndex(taxes, taxId, TaxId);
    var rates := taxes[i].rates;
    EditAfterEdit(taxes, taxId, there(rates), back);
    assert taxes[i].(rates := rates) == taxes[i];
    SetSame(taxes, i);
  }

  /** Deleting the bracket an add just created gives the tables back. */
  lemma AddThenDeleteRate(taxes: seq<Tax>, taxId: int, f: RateForm)
    requires HasId(taxes, taxId, TaxId)
    ensures var i := FindIndex(taxes, taxId, TaxId);
      DeleteRate(AddRate(taxes, taxId, f).value, taxId, NextId(taxes[i].rates, RateId)) == Success(taxes)
  {
    var i := FindIndex(taxes, taxId, TaxId);
    var rates := taxes[i].rates;
    var nid := NextId(rates, RateId);
    RemoveFresh(rates, ParseRate(f).(id := nid), RateId);
    EditRoundTrip(taxes, taxId,
      (rates: seq<Rate>) => AppendRate(rates, f),
      (rates: seq<Rate>) => Remove(rates, nid, RateId));
  }
}
