/**
 * Ordering of record lists. Every sort in the application is a stable
 * JavaScript `sort`/`toSorted` with a comparator; each comparator orders by a
 * `SortKey`, and a stable sort by a key is modelled as an insertion sort of
 * positions.
 */
module Ordering {
  import opened Wrappers
  import opened Records
  import opened Text
  import opened Sums

  /** What a comparator orders by: every number before every text, numbers by value, texts by JavaScript order. */
  datatype SortKey = ByNumber(n: real) | ByText(t: string)

  predicate KeyLess(a: SortKey, b: SortKey) {
    match (a, b)
    case (ByNumber(x), ByNumber(y)) => x < y
    case (ByNumber(_), ByText(_)) => true
    case (ByText(_), ByNumber(_)) => false
    case (ByText(s), ByText(t)) => LexLess(s, t)
  }

  predicate KeyLe(a: SortKey, b: SortKey) {
    !KeyLess(b, a)
  }

  lemma KeyTrichotomy(a: SortKey, b: SortKey)
    ensures KeyLess(a, b) || a == b || KeyLess(b, a)
    ensures !(KeyLess(a, b) && KeyLess(b, a))
    ensures !KeyLess(a, a)
  {
    if a.ByText? {
      LexIrreflexive(a.t);
      if b.ByText? {
        LexTrichotomy(a.t, b.t);
      }
    }
  }

  lemma KeyLessTransitive(a: SortKey, b: SortKey, c: SortKey)
    requires KeyLess(a, b) && KeyLess(b, c)
    ensures KeyLess(a, c)
  {
    if a.ByText? && b.ByText? && c.ByText? {
      LexTransitive(a.t, b.t, c.t);
    }
  }

  lemma KeyLessLe(a: SortKey, b: SortKey, c: SortKey)
    requires KeyLess(a, b) && KeyLe(b, c)
    ensures KeyLess(a, c)
  {
    KeyTrichotomy(b, c);
    if b != c {
      KeyLessTransitive(a, b, c);
    }
  }

  /** `KeyLe` is a total preorder, so a sort by it is well defined. */
  lemma KeyLeTotalPreorder(a: SortKey, b: SortKey, c: SortKey)
    ensures KeyLe(a, a)
    ensures KeyLe(a, b) || KeyLe(b, a)
    ensures KeyLe(a, b) && KeyLe(b, c) ==> KeyLe(a, c)
  {
    KeyTrichotomy(a, b);
    KeyTrichotomy(a, c);
    KeyTrichotomy(b, c);
    if KeyLe(a, b) && KeyLe(b, c) && KeyLess(c, a) {
      KeyLessLe(c, a, b);
    }
  }

  /** The key of a priority sort: `(priority || 0)`. */
  function PriorityKey(priority: Option<real>): SortKey {
    ByNumber(OrZero(priority))
  }

  /** The priority comparator `(a.priority || 0) - (b.priority || 0)`. */
  function ComparePriority(p1: Option<real>, p2: Option<real>): (c: real)
    ensures c < 0.0 <==> KeyLess(PriorityKey(p1), PriorityKey(p2))
    ensures c > 0.0 <==> KeyLess(PriorityKey(p2), PriorityKey(p1))
  {
    OrZero(p1) - OrZero(p2)
  }

  /** The key of the income and expense lists: undated rows by value, dated rows by start. */
  function StartKey(start: Option<string>, value: Option<real>): SortKey {
    if HasText(start) then ByText(start.value) else ByNumber(OrZero(value))
  }

  /** `a.localeCompare(b)`, modelled by the character order. */
  function LocaleCompare(a: string, b: string): (c: real)
    ensures c < 0.0 <==> LexLess(a, b)
    ensures c == 0.0 <==> a == b
  {
    LexTrichotomy(a, b);
    LexIrreflexive(a);
    if LexLess(a, b) then -1.0 else if a == b then 0.0 else 1.0
  }

  /** The comparator shared by the income and expense lists. */
  function CompareByStart(s1: Option<string>, v1: Option<real>, s2: Option<string>, v2: Option<real>): (c: real)
    ensures c < 0.0 <==> KeyLess(StartKey(s1, v1), StartKey(s2, v2))
    ensures c > 0.0 <==> KeyLess(StartKey(s2, v2), StartKey(s1, v1))
  {
    if HasText(s1) && !HasText(s2) then 1.0
    else if HasText(s2) && !HasText(s1) then -1.0
    else if !HasText(s1) && !HasText(s2) then OrZero(v1) - OrZero(v2)
    else
      LexTrichotomy(s1.value, s2.value);
      LocaleCompare(s1.value, s2.value)
  }

  predicate InRange(order: seq<nat>, n: nat) {
    forall k :: 0 <= k < |order| ==> order[k] < n
  }

  predicate Distinct(order: seq<nat>) {
    forall a, b :: 0 <= a < b < |order| ==> order[a] != order[b]
  }

  lemma InRangeExcludes(order: seq<nat>, n: nat)
    requires InRange(order, n)
    ensures n !in order
  {
    forall k | 0 <= k < |order| ensures order[k] != n {
    }
  }

  /** Dropping the head of a duplicate-free order leaves one without the head. */
  lemma DistinctTail(order: seq<nat>)
    requires Distinct(order) && |order| > 0
    ensures Distinct(order[1..]) && order[0] !in order[1..]
  {
    assert forall k :: 0 <= k < |order[1..]| ==> order[1..][k] == order[k + 1];
  }

  /** The positions in `order` have ascending keys. */
  predicate SortedBy(order: seq<nat>, keys: seq<SortKey>)
    requires InRange(order, |keys|)
  {
    forall a, b :: 0 <= a < b < |order| ==> KeyLe(keys[order[a]], keys[order[b]])
  }

  /** Positions with equal keys keep their original order. */
  predicate Stable(order: seq<nat>, keys: seq<SortKey>)
    requires InRange(order, |keys|)
  {
    forall a, b :: 0 <= a < b < |order| && keys[order[a]] == keys[order[b]] ==> order[a] < order[b]
  }

  /** Inserts position `i` after every position whose key is not greater. */
  function InsertIndex(order: seq<nat>, keys: seq<SortKey>, i: nat): (r: seq<nat>)
    requires i < |keys| && InRange(order, |keys|)
    ensures |r| == |order| + 1
    ensures InRange(r, |keys|)
    decreases |order|
  {
    if |order| == 0 then [i]
    else if KeyLess(keys[i], keys[order[0]]) then [i] + order
    else [order[0]] + InsertIndex(order[1..], keys, i)
  }

  /** The insertion result holds `i` and the positions of `order`, and nothing else. */
  lemma {:induction false} InsertIndexMembers(order: seq<nat>, keys: seq<SortKey>, i: nat)
    requires i < |keys| && InRange(order, |keys|)
    ensures forall x :: x in InsertIndex(order, keys, i) <==> x == i || x in order
    decreases |order|
  {
    if |order| > 0 && !KeyLess(keys[i], keys[order[0]]) {
      InsertIndexMembers(order[1..], keys, i);
      assert order == [order[0]] + order[1..];
    }
  }

  /** Every element of an insertion result is the inserted position or came from `order`. */
  lemma {:induction false} InsertIndexFrom(order: seq<nat>, keys: seq<SortKey>, i: nat, k: nat)
    requires i < |keys| && InRange(order, |keys|)
    requires k < |order| + 1
    ensures var r := InsertIndex(order, keys, i);
      r[k] == i || exists c :: 0 <= c < |order| && order[c] == r[k]
  {
    var r := InsertIndex(order, keys, i);
    InsertIndexMembers(order, keys, i);
    assert r[k] in r;
  }

  lemma {:induction false} InsertIndexSorted(order: seq<nat>, keys: seq<SortKey>, i: nat)
    requires i < |keys| && InRange(order, |keys|)
    requires SortedBy(order, keys)
    ensures SortedBy(InsertIndex(order, keys, i), keys)
    decreases |order|
  {
    var r := InsertIndex(order, keys, i);
    if |order| == 0 {
    } else if KeyLess(keys[i], keys[order[0]]) {
      assert r == [i] + order;
      forall a, b | 0 <= a < b < |r|
        ensures KeyLe(keys[r[a]], keys[r[b]])
      {
        if a == 0 {
          if b > 1 {
            KeyLessLe(keys[i], keys[order[0]], keys[order[b - 1]]);
          }
          KeyTrichotomy(keys[i], keys[r[b]]);
        } else {
          assert r[a] == order[a - 1] && r[b] == order[b - 1];
        }
      }
    } else {
      var h := order[0];
      var tail := InsertIndex(order[1..], keys, i);
      InsertIndexSorted(order[1..], keys, i);
      assert r == [h] + tail;
      forall a, b | 0 <= a < b < |r|
        ensures KeyLe(keys[r[a]], keys[r[b]])
      {
        if a == 0 {
          InsertIndexFrom(order[1..], keys, i, b - 1);
          if tail[b - 1] != i {
            var c :| 0 <= c < |order[1..]| && order[1..][c] == tail[b - 1];
            assert order[c + 1] == r[b];
          }
        } else {
          assert r[a] == tail[a - 1] && r[b] == tail[b - 1];
        }
      }
    }
  }

  lemma {:induction false} InsertIndexStable(order: seq<nat>, keys: seq<SortKey>, i: nat)
    requires i < |keys| && InRange(order, |keys|)
    requires SortedBy(order, keys) && Stable(order, keys)
    requires InRange(order, i)
    ensures Stable(InsertIndex(order, keys, i), keys)
    decreases |order|
  {
    if |order| == 0 {
    } else if KeyLess(keys[i], keys[order[0]]) {
      InsertFrontStable(order, keys, i);
    } else {
      InsertIndexStable(order[1..], keys, i);
      InsertLaterStable(order, keys, i);
    }
  }

  /** Putting a later position in front of strictly greater keys keeps a stable order stable. */
  lemma InsertFrontStable(order: seq<nat>, keys: seq<SortKey>, i: nat)
    requires i < |keys| && InRange(order, |keys|) && |order| > 0
    requires SortedBy(order, keys) && Stable(order, keys)
    requires KeyLess(keys[i], keys[order[0]])
    ensures Stable([i] + order, keys)
  {
    var r := [i] + order;
    forall a, b | 0 <= a < b < |r|
      ensures keys[r[a]] == keys[r[b]] ==> r[a] < r[b]
    {
      if a == 0 {
        if b > 1 {
          KeyLessLe(keys[i], keys[order[0]], keys[order[b - 1]]);
        }
        KeyTrichotomy(keys[i], keys[r[b]]);
      } else {
        assert r[a] == order[a - 1] && r[b] == order[b - 1];
      }
    }
  }

  /** Keeping the head in front of a stable insertion into the tail keeps the order stable. */
  lemma InsertLaterStable(order: seq<nat>, keys: seq<SortKey>, i: nat)
    requires i < |keys| && InRange(order, |keys|) && |order| > 0
    requires Stable(order, keys) && InRange(order, i)
    requires !KeyLess(keys[i], keys[order[0]])
    requires Stable(InsertIndex(order[1..], keys, i), keys)
    ensures Stable(InsertIndex(order, keys, i), keys)
  {
    var r := InsertIndex(order, keys, i);
    var tail := InsertIndex(order[1..], keys, i);
    assert r == [order[0]] + tail;
    forall a, b | 0 <= a < b < |r|
      ensures keys[r[a]] == keys[r[b]] ==> r[a] < r[b]
    {
      if a == 0 {
        InsertIndexFrom(order[1..], keys, i, b - 1);
        if tail[b - 1] != i {
          var c :| 0 <= c < |order[1..]| && order[1..][c] == tail[b - 1];
          assert order[c + 1] == r[b];
        }
      } else {
        assert r[a] == tail[a - 1] && r[b] == tail[b - 1];
      }
    }
  }

  lemma {:induction false} InsertIndexDistinct(order: seq<nat>, keys: seq<SortKey>, i: nat)
    requires i < |keys| && InRange(order, |keys|)
    requires Distinct(order) && i !in order
    ensures Distinct(InsertIndex(order, keys, i))
    decreases |order|
  {
    if |order| == 0 {
    } else if KeyLess(keys[i], keys[order[0]]) {
      DistinctCons(i, order);
    } else {
      var tail := InsertIndex(order[1..], keys, i);
      DistinctTail(order);
      InsertIndexDistinct(order[1..], keys, i);
      InsertIndexMembers(order[1..], keys, i);
      DistinctCons(order[0], tail);
    }
  }

  /** A new head in front of a duplicate-free order keeps it duplicate-free. */
  lemma DistinctCons(h: nat, order: seq<nat>)
    requires Distinct(order) && h !in order
    ensures Distinct([h] + order)
  {
    var r := [h] + order;
    forall a, b | 0 <= a < b < |r| ensures r[a] != r[b] {
      assert r[b] == order[b - 1];
      if a > 0 {
        assert r[a] == order[a - 1];
      }
    }
  }


  /** The first `n` positions in stable key order. */
  function SortPrefix(keys: seq<SortKey>, n: nat): (r: seq<nat>)
    requires n <= |keys|
    ensures |r| == n
    ensures InRange(r, |keys|)
    decreases n
  {
    if n == 0 then [] else InsertIndex(SortPrefix(keys, n - 1), keys, n - 1)
  }

  /** The first `n` positions in sorted order are exactly the positions below `n`. */
  lemma {:induction false} SortPrefixMembers(keys: seq<SortKey>, n: nat)
    requires n <= |keys|
    ensures forall x :: x in SortPrefix(keys, n) <==> 0 <= x < n
    decreases n
  {
    if n > 0 {
      var prev := SortPrefix(keys, n - 1);
      SortPrefixMembers(keys, n - 1);
      InsertIndexMembers(prev, keys, n - 1);
      assert SortPrefix(keys, n) == InsertIndex(prev, keys, n - 1);
    }
  }

  lemma SortPrefixBelow(keys: seq<SortKey>, n: nat)
    requires n <= |keys|
    ensures InRange(SortPrefix(keys, n), n)
  {
    var r := SortPrefix(keys, n);
    SortPrefixMembers(keys, n);
    forall k | 0 <= k < |r| ensures r[k] < n {
      assert r[k] in r;
    }
  }

  lemma {:induction false} SortPrefixSorted(keys: seq<SortKey>, n: nat)
    requires n <= |keys|
    ensures SortedBy(SortPrefix(keys, n), keys)
    decreases n
  {
    if n > 0 {
      SortPrefixSorted(keys, n - 1);
      InsertIndexSorted(SortPrefix(keys, n - 1), keys, n - 1);
    }
  }

  lemma {:induction false} SortPrefixStable(keys: seq<SortKey>, n: nat)
    requires n <= |keys|
    ensures Stable(SortPrefix(keys, n), keys)
    decreases n
  {
    if n > 0 {
      SortPrefixStable(keys, n - 1);
      SortPrefixSorted(keys, n - 1);
      SortPrefixBelow(keys, n - 1);
      SortPrefixStableStep(SortPrefix(keys, n - 1), keys, n);
    }
  }

  /** One insertion step of the sort keeps a sorted, stable prefix stable. */
  lemma SortPrefixStableStep(prev: seq<nat>, keys: seq<SortKey>, n: nat)
    requires 0 < n <= |keys| && prev == SortPrefix(keys, n - 1)
    requires SortedBy(prev, keys) && Stable(prev, keys) && InRange(prev, n - 1)
    ensures Stable(SortPrefix(keys, n), keys)
  {
    SortPrefixUnfold(keys, n);
    InsertIndexStable(prev, keys, n - 1);
  }

  lemma SortPrefixUnfold(keys: seq<SortKey>, n: nat)
    requires 0 < n <= |keys|
    ensures SortPrefix(keys, n) == InsertIndex(SortPrefix(keys, n - 1), keys, n - 1)
  {
  }

  lemma {:induction false} SortPrefixDistinct(keys: seq<SortKey>, n: nat)
    requires n <= |keys|
    ensures Distinct(SortPrefix(keys, n))
    decreases n
  {
    if n > 0 {
      var prev := SortPrefix(keys, n - 1);
      SortPrefixDistinct(keys, n - 1);
      SortPrefixBelow(keys, n - 1);
      InRangeExcludes(prev, n - 1);
      InsertIndexDistinct(prev, keys, n - 1);
    }
  }

  /**
   * The permutation a stable sort by `keys` applies: position k of the sorted
   * list holds element `SortIndices(keys)[k]` of the input.
   */
  function SortIndices(keys: seq<SortKey>): (r: seq<nat>)
    ensures |r| == |keys| && InRange(r, |keys|)
    ensures forall i :: 0 <= i < |keys| ==> i in r
    ensures Distinct(r)
    ensures SortedBy(r, keys)
    ensures Stable(r, keys)
  {
    var r := SortPrefix(keys, |keys|);
    SortPrefixSorted(keys, |keys|);
    SortPrefixStable(keys, |keys|);
    SortPrefixDistinct(keys, |keys|);
    SortPrefixMembers(keys, |keys|);
    r
  }

  /** The elements of `s` picked in the given order. */
  function Permute<T>(s: seq<T>, order: seq<nat>): (r: seq<T>)
    requires InRange(order, |s|)
    ensures |r| == |order|
    decreases |order|
  {
    if |order| == 0 then [] else [s[order[0]]] + Permute(s, order[1..])
  }

  lemma {:induction false} PermuteAt<T>(s: seq<T>, order: seq<nat>)
    requires InRange(order, |s|)
    ensures forall k :: 0 <= k < |order| ==> Permute(s, order)[k] == s[order[k]]
    decreases |order|
  {
    if |order| > 0 {
      PermuteAt(s, order[1..]);
    }
  }

  lemma {:induction false} PermuteInsert<T>(s: seq<T>, order: seq<nat>, keys: seq<SortKey>, i: nat)
    requires |keys| == |s| && i < |s| && InRange(order, |s|)
    ensures multiset(Permute(s, InsertIndex(order, keys, i))) == multiset(Permute(s, order)) + multiset{s[i]}
    decreases |order|
  {
    var r := InsertIndex(order, keys, i);
    if |order| == 0 {
      assert Permute(s, r) == [s[i]];
    } else if KeyLess(keys[i], keys[order[0]]) {
      assert r == [i] + order && r[1..] == order;
      assert Permute(s, r) == [s[i]] + Permute(s, order);
    } else {
      var tail := InsertIndex(order[1..], keys, i);
      PermuteInsert(s, order[1..], keys, i);
      assert r == [order[0]] + tail && r[1..] == tail;
      assert Permute(s, r) == [s[order[0]]] + Permute(s, tail);
      assert Permute(s, order) == [s[order[0]]] + Permute(s, order[1..]);
      ConsMultiset(s[order[0]], Permute(s, tail), Permute(s, order[1..]), s[i]);
    }
  }

  lemma ConsMultiset<T>(h: T, a: seq<T>, b: seq<T>, x: T)
    requires multiset(a) == multiset(b) + multiset{x}
    ensures multiset([h] + a) == multiset([h] + b) + multiset{x}
  {
  }

  lemma TakeSnoc<T>(s: seq<T>, n: nat)
    requires 0 < n <= |s|
    ensures multiset(s[..n]) == multiset(s[..n - 1]) + multiset{s[n - 1]}
  {
    assert s[..n] == s[..n - 1] + [s[n - 1]];
  }

  lemma {:induction false} PermutePrefix<T>(s: seq<T>, keys: seq<SortKey>, n: nat)
    requires |keys| == |s| && n <= |s|
    ensures multiset(Permute(s, SortPrefix(keys, n))) == multiset(s[..n])
    decreases n
  {
    if n == 0 {
      assert Permute(s, SortPrefix(keys, 0)) == [] == s[..0];
    } else {
      PermutePrefix(s, keys, n - 1);
      PermuteStep(s, keys, n);
      TakeSnoc(s, n);
    }
  }

  /** One insertion step adds the inserted element to the picked elements. */
  lemma PermuteStep<T>(s: seq<T>, keys: seq<SortKey>, n: nat)
    requires |keys| == |s| && 0 < n <= |s|
    ensures multiset(Permute(s, SortPrefix(keys, n))) == multiset(Permute(s, SortPrefix(keys, n - 1))) + multiset{s[n - 1]}
  {
    var prev := SortPrefix(keys, n - 1);
    PermuteInsert(s, prev, keys, n - 1);
    assert SortPrefix(keys, n) == InsertIndex(prev, keys, n - 1);
  }

  /**
   * A stable sort of `s` by `key`: the result is a permutation of `s` whose
   * keys ascend.
   */
  function SortBy<T>(s: seq<T>, key: T -> SortKey): (r: seq<T>)
    ensures |r| == |s|
    ensures multiset(r) == multiset(s)
    ensures forall a, b :: 0 <= a < b < |r| ==> KeyLe(key(r[a]), key(r[b]))
  {
    var keys := MapOf(s, key);
    var order := SortIndices(keys);
    PermutePrefix(s, keys, |s|);
    PermuteAt(s, order);
    assert s[..|s|] == s;
    Permute(s, order)
  }

  /**
   * What ascending `StartKey` order means for two rows: a dated row never
   * precedes an undated one, undated rows ascend by value and dated rows by
   * start.
   */
  predicate StartOrdered(s1: Option<string>, v1: Option<real>, s2: Option<string>, v2: Option<real>) {
    (HasText(s1) ==> HasText(s2))
    && (!HasText(s1) && !HasText(s2) ==> OrZero(v1) <= OrZero(v2))
    && (HasText(s1) && HasText(s2) ==> LexLe(s1.value, s2.value))
  }

  lemma StartKeyOrdered(s1: Option<string>, v1: Option<real>, s2: Option<string>, v2: Option<real>)
    ensures KeyLe(StartKey(s1, v1), StartKey(s2, v2)) <==> StartOrdered(s1, v1, s2, v2)
  {
    if HasText(s1) && HasText(s2) {
      NotLessIsLe(s1.value, s2.value);
    }
  }

  /** The income and expense list order: a stable sort by `StartKey`. */
  function SortByStart<T>(s: seq<T>, start: T -> Option<string>, value: T -> Option<real>): (r: seq<T>)
    ensures |r| == |s| && multiset(r) == multiset(s)
    ensures forall a, b :: 0 <= a < b < |r| ==> StartOrdered(start(r[a]), value(r[a]), start(r[b]), value(r[b]))
  {
    var r := SortBy(s, (x: T) => StartKey(start(x), value(x)));
    assert forall a, b :: 0 <= a < b < |r| ==> StartOrdered(start(r[a]), value(r[a]), start(r[b]), value(r[b])) by {
      forall a, b | 0 <= a < b < |r|
        ensures StartOrdered(start(r[a]), value(r[a]), start(r[b]), value(r[b]))
      {
        StartKeyOrdered(start(r[a]), value(r[a]), start(r[b]), value(r[b]));
      }
    }
    r
  }
}
