/**
 * The required-minimum-distribution table: what its form yields and the
 * add / update / delete updaters. The projection engine does not read it.
 */
module Rmds {
  import opened Wrappers
  import opened Records
  import opened IdLists

  /** What the RMD form submits: two numeric fields. */
  datatype RmdForm = RmdForm(age: Parsed, distribution: Parsed)

  /** The RMD parser: id 0 and both numbers as read, NaN included. */
  function ParseRmd(f: RmdForm): (r: Rmd)
    ensures r.id == 0 && r.age == f.age && r.distribution == f.distribution
  {
    Rmd(0, f.age, f.distribution)
  }

  /** The edit form prefilled from a row. */
  function FormOf(r: Rmd): RmdForm {
    RmdForm(r.age, r.distribution)
  }

  /** Saving the edit form untouched gives the row back, id aside. */
  lemma ParseFormOf(r: Rmd)
    ensures ParseRmd(FormOf(r)) == r.(id := 0)
  {
  }

  /** `add`: the parsed row, under an id above every existing one, appended. */
  function AddRmd(rmds: seq<Rmd>, f: RmdForm): (r: seq<Rmd>)
    ensures |r| == |rmds| + 1 && r[..|rmds|] == rmds
    ensures r[|rmds|] == ParseRmd(f).(id := r[|rmds|].id)
    ensures r[|rmds|].id >= 1
    ensures forall k :: 0 <= k < |rmds| ==> rmds[k].id < r[|rmds|].id
  {
    rmds + [ParseRmd(f).(id := NextId(rmds, RmdId))]
  }

  /**
   * `update`: the parsed row under `id` replaces the first row with that
   * id, in place; with no such row it replaces the last one, and an empty
   * table gets it as its only row.
   */
  function UpdateRmd(rmds: seq<Rmd>, id: int, f: RmdForm): (r: seq<Rmd>)
    ensures |rmds| > 0 ==> |r| == |rmds|
    ensures HasId(rmds, id, RmdId) ==> r == rmds[FindIndex(rmds, id, RmdId) := ParseRmd(f).(id := id)]
    ensures !HasId(rmds, id, RmdId) && |rmds| > 0 ==> r == rmds[..|rmds| - 1] + [ParseRmd(f).(id := id)]
    ensures |rmds| == 0 ==> r == [ParseRmd(f).(id := id)]
  {
    Replace(rmds, id, ParseRmd(f).(id := id), RmdId)
  }

  /** `delete`: every row with `id` goes, the rest stay in order. */
  function DeleteRmd(rmds: seq<Rmd>, id: int): (r: seq<Rmd>)
    ensures !HasId(r, id, RmdId)
    ensures forall k :: 0 <= k < |r| ==> r[k] in rmds
    ensures forall k :: 0 <= k < |rmds| && rmds[k].id != id ==> rmds[k] in r
    ensures !HasId(rmds, id, RmdId) ==> r == rmds
  {
    Remove(rmds, id, RmdId)
  }

  /** Adding keeps ids unique, and deleting the new id undoes the add. */
  lemma AddThenDeleteRmd(rmds: seq<Rmd>, f: RmdForm)
    ensures UniqueIds(rmds, RmdId) ==> UniqueIds(AddRmd(rmds, f), RmdId)
    ensures DeleteRmd(AddRmd(rmds, f), NextId(rmds, RmdId)) == rmds
  {
    var x := ParseRmd(f).(id := NextId(rmds, RmdId));
    assert AddRmd(rmds, f) == rmds + [x];
    if UniqueIds(rmds, RmdId) {
      AppendFreshKeepsUnique(rmds, x, RmdId);
    }
    RemoveFresh(rmds, x, RmdId);
  }

  /** Updating an existing row keeps it at its place and keeps ids unique. */
  lemma UpdateRmdInPlace(rmds: seq<Rmd>, id: int, f: RmdForm)
    requires HasId(rmds, id, RmdId)
    ensures FindIndex(UpdateRmd(rmds, id, f), id, RmdId) == FindIndex(rmds, id, RmdId)
    ensures UniqueIds(rmds, RmdId) ==> UniqueIds(UpdateRmd(rmds, id, f), RmdId)
  {
    var x := ParseRmd(f).(id := id);
    ReplaceKeepsPosition(rmds, x, RmdId);
    if UniqueIds(rmds, RmdId) {
      ReplaceKeepsUnique(rmds, x, RmdId);
    }
  }
}
