/**
 * The asset-class breakdown: every investment that names a class and holds
 * shares adds its live-priced value to that class; the breakdown's total is
 * the sum of the classes.
 */
module AssetClasses {
  import opened Wrappers
  import opened Records
  import opened Sums
  import opened Investments

  /** One key of the breakdown object and its accumulated value. */
  datatype Entry = Entry(assetClass: string, value: real)

  function EntryValue(e: Entry): real { e.value }

  /** An investment counts when it names a class and its shares are truthy. */
  predicate Contributes(i: Investment) {
    HasText(i.assetClass) && IsSet(i.shares)
  }

  /** What a contributing investment adds: `(live price || price || 0) * shares`. */
  function Contribution(i: Investment, prices: Prices): real
    requires Contributes(i)
  {
    Price(i, prices) * i.shares.value
  }

  /** A class is a key of the breakdown. */
  predicate HasClass(entries: seq<Entry>, c: string) {
    exists k :: 0 <= k < |entries| && entries[k].assetClass == c
  }

  predicate DistinctClasses(entries: seq<Entry>) {
    forall a, b :: 0 <= a < b < |entries| ==> entries[a].assetClass != entries[b].assetClass
  }

  /** The value under a class: `result[c]`, with a missing key read as 0. */
  function Lookup(entries: seq<Entry>, c: string): real
    decreases |entries|
  {
    if |entries| == 0 then 0.0
    else if entries[0].assetClass == c then entries[0].value
    else Lookup(entries[1..], c)
  }

  /** `result[c] += v`, creating the key at 0 first when it is missing. */
  function AddTo(entries: seq<Entry>, c: string, v: real): (r: seq<Entry>)
    decreases |entries|
  {
    if |entries| == 0 then [Entry(c, v)]
    else if entries[0].assetClass == c then [entries[0].(value := entries[0].value + v)] + entries[1..]
    else [entries[0]] + AddTo(entries[1..], c, v)
  }

  /** Adding to a class changes that class's value by `v`, adds the key, and leaves other keys alone. */
  lemma {:induction false} AddToFacts(entries: seq<Entry>, c: string, v: real)
    requires DistinctClasses(entries)
    ensures DistinctClasses(AddTo(entries, c, v))
    ensures forall d :: Lookup(AddTo(entries, c, v), d) == Lookup(entries, d) + (if d == c then v else 0.0)
    ensures forall d :: HasClass(AddTo(entries, c, v), d) <==> HasClass(entries, d) || d == c
    ensures SumOf(AddTo(entries, c, v), EntryValue) == SumOf(entries, EntryValue) + v
    decreases |entries|
  {
    var r := AddTo(entries, c, v);
    if |entries| == 0 {
      assert SumOf(r, EntryValue) == v + SumOf(r[1..], EntryValue);
    } else {
      var rest := entries[1..];
      assert DistinctClasses(rest) by {
        forall a, b | 0 <= a < b < |rest| ensures rest[a].assetClass != rest[b].assetClass {
          assert rest[a] == entries[a + 1] && rest[b] == entries[b + 1];
        }
      }
      assert !HasClass(rest, entries[0].assetClass) by {
        forall k | 0 <= k < |rest| ensures rest[k].assetClass != entries[0].assetClass {
          assert rest[k] == entries[k + 1];
        }
      }
      forall d ensures HasClass(entries, d) <==> entries[0].assetClass == d || HasClass(rest, d) {
        if HasClass(entries, d) && entries[0].assetClass != d {
          var k :| 0 <= k < |entries| && entries[k].assetClass == d;
          assert rest[k - 1] == entries[k];
        }
        if HasClass(rest, d) {
          var k :| 0 <= k < |rest| && rest[k].assetClass == d;
          assert entries[k + 1] == rest[k];
        }
      }
      assert r[1..] == if entries[0].assetClass == c then rest else AddTo(rest, c, v);
      forall d ensures HasClass(r, d) <==> r[0].assetClass == d || HasClass(r[1..], d) {
        if HasClass(r, d) && r[0].assetClass != d {
          var k :| 0 <= k < |r| && r[k].assetClass == d;
          assert r[1..][k - 1] == r[k];
        }
        if HasClass(r[1..], d) {
          var k :| 0 <= k < |r[1..]| && r[1..][k].assetClass == d;
          assert r[k + 1] == r[1..][k];
        }
      }
      if entries[0].assetClass == c {
        forall d ensures Lookup(r, d) == Lookup(entries, d) + (if d == c then v else 0.0) {
          if d != c {
            assert Lookup(r, d) == Lookup(rest, d);
          }
        }
      } else {
        AddToFacts(rest, c, v);
        forall a, b | 0 <= a < b < |r| ensures r[a].assetClass != r[b].assetClass {
          if a == 0 {
            assert r[b] == r[1..][b - 1];
            assert HasClass(r[1..], r[b].assetClass);
          }
          else {
            assert r[a] == r[1..][a - 1] && r[b] == r[1..][b - 1];
          }
        }
      }
      assert SumOf(entries, EntryValue) == entries[0].value + SumOf(rest, EntryValue);
      assert SumOf(r, EntryValue) == r[0].value + SumOf(r[1..], EntryValue);
    }
  }

  /** One investment's turn in the `forEach`. */
  function Visit(entries: seq<Entry>, i: Investment, prices: Prices): seq<Entry> {
    if Contributes(i) then AddTo(entries, i.assetClass.value, Contribution(i, prices)) else entries
  }

  /** The `forEach` over a list of investments, in order. */
  function Fold(entries: seq<Entry>, invs: seq<Investment>, prices: Prices): seq<Entry>
    decreases |invs|
  {
    if |invs| == 0 then entries else Fold(Visit(entries, invs[0], prices), invs[1..], prices)
  }

  /** Every investment of every account, account by account. */
  function Holdings(accounts: seq<Account>): (r: seq<Investment>)
    ensures forall a, k :: 0 <= a < |accounts| && 0 <= k < |accounts[a].investments| ==>
      accounts[a].investments[k] in r
    ensures forall k :: 0 <= k < |r| ==> exists a :: 0 <= a < |accounts| && r[k] in accounts[a].investments
    decreases |accounts|
  {
    if |accounts| == 0 then []
    else
      var rest := Holdings(accounts[1..]);
      assert forall a :: 1 <= a < |accounts| ==> accounts[a] == accounts[1..][a - 1];
      accounts[0].investments + rest
  }

  /** `assetClasses`: the breakdown over all accounts' investments. */
  function Breakdown(accounts: seq<Account>, prices: Prices): seq<Entry> {
    Fold([], Holdings(accounts), prices)
  }

  /** What a list of investments contributes to class `c`. */
  function ClassSum(invs: seq<Investment>, c: string, prices: Prices): real
    decreases |invs|
  {
    if |invs| == 0 then 0.0
    else
      var own := if Contributes(invs[0]) && invs[0].assetClass.value == c then Contribution(invs[0], prices) else 0.0;
      own + ClassSum(invs[1..], c, prices)
  }

  /** What a list of investments contributes to all classes together. */
  function AllSum(invs: seq<Investment>, prices: Prices): real
    decreases |invs|
  {
    if |invs| == 0 then 0.0
    else (if Contributes(invs[0]) then Contribution(invs[0], prices) else 0.0) + AllSum(invs[1..], prices)
  }

  /** Some investment in the list contributes to class `c`. */
  predicate Feeds(invs: seq<Investment>, c: string) {
    exists k :: 0 <= k < |invs| && Contributes(invs[k]) && invs[k].assetClass.value == c
  }

  /** The fold adds each contribution to its class and to the total, and creates exactly the fed keys. */
  lemma {:induction false} FoldFacts(entries: seq<Entry>, invs: seq<Investment>, prices: Prices)
    requires DistinctClasses(entries)
    ensures DistinctClasses(Fold(entries, invs, prices))
    ensures forall c :: Lookup(Fold(entries, invs, prices), c) == Lookup(entries, c) + ClassSum(invs, c, prices)
    ensures forall c :: HasClass(Fold(entries, invs, prices), c) <==> HasClass(entries, c) || Feeds(invs, c)
    ensures SumOf(Fold(entries, invs, prices), EntryValue) == SumOf(entries, EntryValue) + AllSum(invs, prices)
    decreases |invs|
  {
    if |invs| > 0 {
      var i := invs[0];
      var next := Visit(entries, i, prices);
      if Contributes(i) {
        AddToFacts(entries, i.assetClass.value, Contribution(i, prices));
      }
      FoldFacts(next, invs[1..], prices);
      forall c ensures Feeds(invs, c) <==> (Contributes(i) && i.assetClass.value == c) || Feeds(invs[1..], c) {
        if Feeds(invs, c) && !(Contributes(i) && i.assetClass.value == c) {
          var k :| 0 <= k < |invs| && Contributes(invs[k]) && invs[k].assetClass.value == c;
          assert invs[1..][k - 1] == invs[k];
        }
        if Feeds(invs[1..], c) {
          var k :| 0 <= k < |invs[1..]| && Contributes(invs[1..][k]) && invs[1..][k].assetClass.value == c;
          assert invs[k + 1] == invs[1..][k];
        }
      }
    }
  }

  /**
   * The breakdown has one key per class that some contributing investment
   * names, each holding the sum of those investments' contributions.
   */
  lemma BreakdownByClass(accounts: seq<Account>, prices: Prices)
    ensures DistinctClasses(Breakdown(accounts, prices))
    ensures forall c :: HasClass(Breakdown(accounts, prices), c) <==> Feeds(Holdings(accounts), c)
    ensures forall c :: Lookup(Breakdown(accounts, prices), c) == ClassSum(Holdings(accounts), c, prices)
  {
    FoldFacts([], Holdings(accounts), prices);
  }

  /** `total`: the sum of the class values. */
  function Total(entries: seq<Entry>): real {
    SumOf(entries, EntryValue)
  }

  /** The total of the breakdown is everything the contributing investments add. */
  lemma TotalOfBreakdown(accounts: seq<Account>, prices: Prices)
    ensures Total(Breakdown(accounts, prices)) == AllSum(Holdings(accounts), prices)
  {
    FoldFacts([], Holdings(accounts), prices);
  }

  /** An investment without a class, or without shares, changes nothing. */
  lemma NonContributorIgnored(entries: seq<Entry>, i: Investment, prices: Prices)
    requires !HasText(i.assetClass) || !IsSet(i.shares)
    ensures Visit(entries, i, prices) == entries
  {
  }
}
