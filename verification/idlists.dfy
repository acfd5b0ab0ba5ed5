/**
 * The list operations every record component passes to `updateData`:
 * a fresh id is `Math.max(0, ...ids) + 1`, an update is
 * `splice(findIndex(id), 1, x)`, a delete is `filter(x => x.id !== id)`.
 */
module IdLists {
  import opened Wrappers
  import opened Sums

  /** `Math.max(0, ...ids)`. */
  function MaxId(ids: seq<int>): (m: int)
    ensures m >= 0
    ensures forall k :: 0 <= k < |ids| ==> ids[k] <= m
    ensures m == 0 || m in ids
    decreases |ids|
  {
    if |ids| == 0 then 0
    else
      var rest := MaxId(ids[1..]);
      if ids[0] > rest then ids[0] else rest
  }

  /** The id an `add` gives a new record: above every id in the list, and at least 1. */
  function NextId<T>(s: seq<T>, id: T -> int): (n: int)
    ensures n >= 1
    ensures forall k :: 0 <= k < |s| ==> id(s[k]) < n
    ensures n == 1 || exists k :: 0 <= k < |s| && id(s[k]) == n - 1
  {
    var ids := MapOf(s, id);
    var m := MaxId(ids);
    assert m == 0 || exists k :: 0 <= k < |s| && id(s[k]) == m by {
      if m != 0 {
        var k :| 0 <= k < |ids| && ids[k] == m;
      }
    }
    m + 1
  }

  predicate HasId<T>(s: seq<T>, target: int, id: T -> int) {
    exists k :: 0 <= k < |s| && id(s[k]) == target
  }

  predicate UniqueIds<T>(s: seq<T>, id: T -> int) {
    forall a, b :: 0 <= a < b < |s| ==> id(s[a]) != id(s[b])
  }

  /** `findIndex(x => x.id === target)`: the first position holding the id, or -1. */
  function FindIndex<T>(s: seq<T>, target: int, id: T -> int): (i: int)
    ensures -1 <= i < |s|
    ensures 0 <= i ==> id(s[i]) == target && forall k :: 0 <= k < i ==> id(s[k]) != target
    ensures i == -1 <==> !HasId(s, target, id)
    decreases |s|
  {
    if |s| == 0 then -1
    else if id(s[0]) == target then 0
    else
      var j := FindIndex(s[1..], target, id);
      assert HasId(s[1..], target, id) ==> HasId(s, target, id) by {
        if HasId(s[1..], target, id) {
          var k :| 0 <= k < |s[1..]| && id(s[1..][k]) == target;
          assert id(s[k + 1]) == target;
        }
      }
      assert HasId(s, target, id) ==> HasId(s[1..], target, id) by {
        if HasId(s, target, id) {
          var k :| 0 <= k < |s| && id(s[k]) == target;
          assert k > 0 && id(s[1..][k - 1]) == target;
        }
      }
      if j < 0 then -1 else j + 1
  }

  /** `s.splice(start, 1, x)`: JavaScript's reading of a negative or too large start included. */
  function Splice1<T>(s: seq<T>, start: int, x: T): (r: seq<T>)
    ensures 0 <= start < |s| ==> r == s[start := x]
    ensures start == -1 && |s| > 0 ==> r == s[..|s| - 1] + [x]
    ensures |s| == 0 ==> r == [x]
  {
    var at := if start < 0 then (if |s| + start < 0 then 0 else |s| + start)
              else (if start > |s| then |s| else start);
    var after := if at + 1 > |s| then |s| else at + 1;
    s[..at] + [x] + s[after..]
  }

  /**
   * `splice(findIndex(id), 1, x)`: the first record with the id is replaced in
   * place; with no such record the last one is replaced, and an empty list
   * gets `x` as its only element.
   */
  function Replace<T>(s: seq<T>, target: int, x: T, id: T -> int): (r: seq<T>)
    ensures |s| > 0 ==> |r| == |s|
    ensures HasId(s, target, id) ==> r == s[FindIndex(s, target, id) := x]
    ensures !HasId(s, target, id) && |s| > 0 ==> r == s[..|s| - 1] + [x]
    ensures |s| == 0 ==> r == [x]
  {
    var i := FindIndex(s, target, id);
    Splice1(s, i, x)
  }

  /** `filter(x => x.id !== target)`. */
  function Remove<T>(s: seq<T>, target: int, id: T -> int): (r: seq<T>)
    ensures |r| <= |s|
    ensures forall k :: 0 <= k < |r| ==> r[k] in s && id(r[k]) != target
    ensures forall k :: 0 <= k < |s| && id(s[k]) != target ==> s[k] in r
    ensures !HasId(s, target, id) ==> r == s
    decreases |s|
  {
    if |s| == 0 then []
    else
      var rest := Remove(s[1..], target, id);
      assert s == [s[0]] + s[1..];
      assert !HasId(s, target, id) ==> !HasId(s[1..], target, id) by {
        if HasId(s[1..], target, id) {
          var k :| 0 <= k < |s[1..]| && id(s[1..][k]) == target;
          assert id(s[k + 1]) == target;
        }
      }
      if id(s[0]) != target then [s[0]] + rest else rest
  }

  /** Deleting keeps the survivors in their original order: it distributes over concatenation. */
  lemma {:induction false} RemoveAppend<T>(a: seq<T>, b: seq<T>, target: int, id: T -> int)
    ensures Remove(a + b, target, id) == Remove(a, target, id) + Remove(b, target, id)
    decreases |a|
  {
    if |a| == 0 {
      assert a + b == b;
    } else {
      var h, t := a[0], a[1..];
      assert a == [h] + t;
      assert a + b == [h] + (t + b);
      RemoveAppend(t, b, target, id);
      RemoveCons(h, t + b, target, id);
      RemoveCons(h, t, target, id);
      AppendAssoc(if id(h) != target then [h] else [], Remove(t, target, id), Remove(b, target, id));
    }
  }

  lemma AppendAssoc<T>(x: seq<T>, y: seq<T>, z: seq<T>)
    ensures (x + y) + z == x + (y + z)
  {
  }

  /** One step of the deletion: the head survives exactly when its id differs. */
  lemma RemoveCons<T>(h: T, t: seq<T>, target: int, id: T -> int)
    ensures Remove([h] + t, target, id) == (if id(h) != target then [h] else []) + Remove(t, target, id)
  {
    var s := [h] + t;
    assert s[0] == h && s[1..] == t;
  }

  /** Appending a record with a fresh id keeps ids unique. */
  lemma AppendFreshKeepsUnique<T>(s: seq<T>, x: T, id: T -> int)
    requires UniqueIds(s, id)
    requires forall k :: 0 <= k < |s| ==> id(s[k]) < id(x)
    ensures UniqueIds(s + [x], id)
  {
    var r := s + [x];
    forall a, b | 0 <= a < b < |r| ensures id(r[a]) != id(r[b]) {
      if b < |s| {
        assert r[a] == s[a] && r[b] == s[b];
      } else {
        assert r[a] == s[a];
      }
    }
  }

  /** `find(x => x.id === target)`: the first record holding the id, if any. */
  function Find<T>(s: seq<T>, target: int, id: T -> int): (r: Option<T>)
    ensures r.None? <==> !HasId(s, target, id)
    ensures r.Some? ==> r.value == s[FindIndex(s, target, id)] && id(r.value) == target
  {
    var i := FindIndex(s, target, id);
    if i < 0 then None else Some(s[i])
  }

  /** Writing back the element already at a position changes nothing. */
  lemma SetSame<T>(s: seq<T>, i: int)
    requires 0 <= i < |s|
    ensures s[i := s[i]] == s
  {
  }

  /** Deleting the record an append just added gives the list back. */
  lemma RemoveFresh<T>(s: seq<T>, x: T, id: T -> int)
    requires forall k :: 0 <= k < |s| ==> id(s[k]) < id(x)
    ensures Remove(s + [x], id(x), id) == s
  {
    RemoveAppend(s, [x], id(x), id);
    assert !HasId(s, id(x), id);
    assert Remove([x], id(x), id) == [];
  }

  /**
   * Replacing a record by one with the same id keeps it where it was: the id
   * is found at the same position, now holding the new record.
   */
  lemma ReplaceKeepsPosition<T>(s: seq<T>, x: T, id: T -> int)
    requires HasId(s, id(x), id)
    ensures FindIndex(Replace(s, id(x), x, id), id(x), id) == FindIndex(s, id(x), id)
  {
    SetKeepsPosition(s, id(x), x, id);
  }

  /** Overwriting the record found for an id with one of the same id leaves it found at the same place. */
  lemma SetKeepsPosition<T>(s: seq<T>, target: int, x: T, id: T -> int)
    requires HasId(s, target, id) && id(x) == target
    ensures var i := FindIndex(s, target, id);
      FindIndex(s[i := x], target, id) == i
  {
    var i := FindIndex(s, target, id);
    var r := s[i := x];
    assert id(r[i]) == target;
    assert forall k :: 0 <= k < i ==> r[k] == s[k];
  }

  /** Replacing a record by one with the same id keeps ids unique. */
  lemma ReplaceKeepsUnique<T>(s: seq<T>, x: T, id: T -> int)
    requires UniqueIds(s, id) && HasId(s, id(x), id)
    ensures UniqueIds(Replace(s, id(x), x, id), id)
  {
    var i := FindIndex(s, id(x), id);
    var r := Replace(s, id(x), x, id);
    assert r == s[i := x];
    forall a, b | 0 <= a < b < |r| ensures id(r[a]) != id(r[b]) {
      if a == i {
        assert id(s[b]) != id(s[i]);
      } else if b == i {
        assert id(s[a]) != id(s[i]);
      } else {
        assert r[a] == s[a] && r[b] == s[b];
      }
    }
  }

  /** With unique ids, deleting a present id removes exactly one record. */
  lemma {:induction false} RemoveUniqueLength<T>(s: seq<T>, target: int, id: T -> int)
    requires UniqueIds(s, id) && HasId(s, target, id)
    ensures |Remove(s, target, id)| == |s| - 1
    decreases |s|
  {
    assert s == [s[0]] + s[1..];
    assert UniqueIds(s[1..], id) by {
      forall a, b | 0 <= a < b < |s[1..]| ensures id(s[1..][a]) != id(s[1..][b]) {
        assert s[1..][a] == s[a + 1] && s[1..][b] == s[b + 1];
      }
    }
    if id(s[0]) == target {
      assert !HasId(s[1..], target, id) by {
        forall k | 0 <= k < |s[1..]| ensures id(s[1..][k]) != target {
          assert s[1..][k] == s[k + 1];
        }
      }
    } else {
      assert HasId(s[1..], target, id) by {
        var k :| 0 <= k < |s| && id(s[k]) == target;
        assert k > 0 && s[1..][k - 1] == s[k];
      }
      RemoveUniqueLength(s[1..], target, id);
    }
  }
}
