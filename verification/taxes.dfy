/**
 * The tax tables: what the tax form yields and the add / update / delete
 * updaters. The brackets of a table are edited separately (module Rates).
 */
module Taxes {
  import opened Wrappers
  import opened Records
  import opened IdLists
  import opened TaxLookup

  /** What the tax form submits: a name and the kind chosen from its two options. */
  datatype TaxForm = TaxForm(name: string, kind: TaxKind)

  /** `formEventToTax`: id 0, the name and kind as chosen, and no brackets yet. */
  function ParseTax(f: TaxForm): (t: Tax)
    ensures t.id == 0 && t.name == f.name && t.kind == f.kind
    ensures t.rates == []
  {
    Tax(0, f.name, f.kind, [])
  }

  /** A freshly parsed table charges nothing on any income. */
  lemma ParsedTaxChargesNothing(f: TaxForm, income: real)
    ensures TableTax(ParseTax(f), income) == 0.0
  {
  }

  /** `add`: the parsed table, under an id above every existing one, appended. */
  function AddTax(taxes: seq<Tax>, f: TaxForm): (r: seq<Tax>)
    ensures |r| == |taxes| + 1 && r[..|taxes|] == taxes
    ensures r[|taxes|] == ParseTax(f).(id := r[|taxes|].id)
    ensures r[|taxes|].id >= 1
    ensures forall k :: 0 <= k < |taxes| ==> taxes[k].id < r[|taxes|].id
  {
    taxes + [ParseTax(f).(id := NextId(taxes, TaxId))]
  }

  /**
   * `update`: the table with `editId` takes the form's name and kind and
   * keeps its id, its place and its brackets. Reading the brackets of a
   * missing table raises a TypeError, so a missing id fails.
   */
  function UpdateTax(taxes: seq<Tax>, editId: int, f: TaxForm): (r: Result<seq<Tax>>)
    ensures r.Failure? <==> !HasId(taxes, editId, TaxId)
    ensures r.Success? ==>
      var i := FindIndex(taxes, editId, TaxId);
      |r.value| == |taxes|
      && (forall k :: 0 <= k < |taxes| && k != i ==> r.value[k] == taxes[k])
      && r.value[i] == Tax(editId, f.name, f.kind, taxes[i].rates)
  {
    var i := FindIndex(taxes, editId, TaxId);
    if i < 0 then Failure("TypeError: Cannot read properties of undefined (reading 'rates')")
    else
      var next := ParseTax(f).(id := editId, rates := taxes[i].rates);
      Success(Replace(taxes, editId, next, TaxId))
  }

  /** Renaming or re-kinding a table leaves every projected tax charge as it was. */
  lemma UpdateTaxKeepsCharges(taxes: seq<Tax>, editId: int, f: TaxForm, income: real)
    requires UpdateTax(taxes, editId, f).Success?
    ensures CalculateTax(UpdateTax(taxes, editId, f).value, income) == CalculateTax(taxes, income)
  {
    var r := UpdateTax(taxes, editId, f).value;
    var i := FindIndex(taxes, editId, TaxId);
    assert forall k :: 0 <= k < |taxes| ==> r[k].rates == taxes[k].rates by {
      forall k | 0 <= k < |taxes| ensures r[k].rates == taxes[k].rates {
        if k != i {
          assert r[k] == taxes[k];
        }
      }
    }
    TotalRateReadsRatesOnly(r, taxes, income);
  }

  /** `delete`: every table with `editId` goes, the rest stay in order. */
  function DeleteTax(taxes: seq<Tax>, editId: int): (r: seq<Tax>)
    ensures !HasId(r, editId, TaxId)
    ensures forall k :: 0 <= k < |r| ==> r[k] in taxes
    ensures forall k :: 0 <= k < |taxes| && taxes[k].id != editId ==> taxes[k] in r
    ensures !HasId(taxes, editId, TaxId) ==> r == taxes
  {
    Remove(taxes, editId, TaxId)
  }

  /** Adding keeps ids unique, and deleting the new id undoes the add. */
  lemma AddThenDeleteTax(taxes: seq<Tax>, f: TaxForm)
    ensures UniqueIds(taxes, TaxId) ==> UniqueIds(AddTax(taxes, f), TaxId)
    ensures DeleteTax(AddTax(taxes, f), NextId(taxes, TaxId)) == taxes
  {
    var x := ParseTax(f).(id := NextId(taxes, TaxId));
    assert AddTax(taxes, f) == taxes + [x];
    if UniqueIds(taxes, TaxId) {
      AppendFreshKeepsUnique(taxes, x, TaxId);
    }
    RemoveFresh(taxes, x, TaxId);
  }
}
