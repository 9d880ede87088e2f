/** The product-usage tab: how many of one account's transactions use each
    banking product, which product (if any) accounts for more than half of
    them, and how many server recommendations are listed. */
module ProductUsage {
  import opened Common
  import opened Ledger
  import opened Tally

  /** Above this share of the transactions a product is dominant. */
  const DominantShare: real := 0.5

  /** Recommendations listed before "Voir plus...". */
  const RecommendationsShown: nat := 3

  /** The product of each transaction, "Autre" when missing or empty. */
  function ProductKeys(txs: seq<Transaction>): (r: seq<string>)
    ensures |r| == |txs|
    ensures forall i :: 0 <= i < |txs| ==> r[i] == ProductOrOther(txs[i])
  {
    seq(|txs|, i requires 0 <= i < |txs| => ProductOrOther(txs[i]))
  }

  /** A weight of one per transaction. */
  function Ones(n: nat): (r: seq<real>)
    ensures |r| == n && forall i :: 0 <= i < n ==> r[i] == 1.0
  {
    seq(n, _ => 1.0)
  }

  /** Reference definition: the number of transactions using product `p`. */
  function CountOf(txs: seq<Transaction>, p: string): nat
  {
    if txs == [] then 0
    else CountOf(txs[..|txs| - 1], p) + (if ProductOrOther(txs[|txs| - 1]) == p then 1 else 0)
  }

  /** A product some transaction uses is counted at least once. */
  lemma {:induction false} CountPositive(txs: seq<Transaction>, p: string)
    requires p in ProductKeys(txs)
    ensures CountOf(txs, p) >= 1
  {
    var n := |txs| - 1;
    if ProductOrOther(txs[n]) != p {
      assert ProductKeys(txs)[..n] == ProductKeys(txs[..n]);
      assert p in ProductKeys(txs[..n]);
      CountPositive(txs[..n], p);
    }
  }

  lemma {:induction false} SumOnes(n: nat)
    ensures Sum(Ones(n)) == n as real
  {
    if n > 0 {
      SumOnes(n - 1);
      assert Ones(n)[..n - 1] == Ones(n - 1);
    }
  }

  /** The tally of a product is the number of transactions using it. */
  lemma {:induction false} ProductWeight(txs: seq<Transaction>, p: string)
    ensures WeightOf(ProductKeys(txs), Ones(|txs|), p) == CountOf(txs, p) as real
  {
    if txs != [] {
      var n := |txs| - 1;
      ProductWeight(txs[..n], p);
      assert ProductKeys(txs)[..n] == ProductKeys(txs[..n]);
      assert Ones(|txs|)[..n] == Ones(n);
    }
  }

  /** The counts of a list of entries, added up. */
  function SumCounts(entries: seq<(string, real)>): real
  {
    if entries == [] then 0.0 else SumCounts(entries[..|entries| - 1]) + entries[|entries| - 1].1
  }

  lemma {:induction false} SumCountsIsSumAlong(order: seq<string>, m: map<string, real>, entries: seq<(string, real)>)
    requires forall k :: k in order ==> k in m
    requires |entries| == |order|
    requires forall i :: 0 <= i < |order| ==> entries[i] == (order[i], m[order[i]])
    ensures SumCounts(entries) == SumAlong(order, m)
  {
    if order != [] {
      var n := |order| - 1;
      SumCountsIsSumAlong(order[..n], m, entries[..n]);
    }
  }

  /** Entries as `Object.entries(produitMap)` lists them: one per product
      in order of first use, holding how many transactions use it. */
  predicate CountedEntries(filtered: seq<Transaction>, entries: seq<(string, real)>)
  {
    |entries| == |Distinct(ProductKeys(filtered))| &&
    forall i :: 0 <= i < |entries| ==>
      entries[i].0 == Distinct(ProductKeys(filtered))[i] &&
      entries[i].1 == CountOf(filtered, entries[i].0) as real
  }

  /** `produitMap` and `Object.entries(produitMap)` over `filtered`: one
      entry per product in order of first use, each used at least once, the
      counts adding up to the number of transactions, so no transaction
      means no entry. */
  method CountProducts(filtered: seq<Transaction>) returns (entries: seq<(string, real)>)
    ensures CountedEntries(filtered, entries)
    ensures forall i :: 0 <= i < |entries| ==> entries[i].1 >= 1.0
    ensures SumCounts(entries) == |filtered| as real
    ensures filtered == [] ==> entries == []
  {
    var keys := ProductKeys(filtered);
    var order, produitMap := Accumulate(keys, Ones(|filtered|));
    entries := seq(|order|, i requires 0 <= i < |order| => (order[i], produitMap[order[i]]));
    forall i | 0 <= i < |entries|
      ensures entries[i].1 == CountOf(filtered, entries[i].0) as real && entries[i].1 >= 1.0
    {
      ProductWeight(filtered, order[i]);
      CountPositive(filtered, order[i]);
    }
    SumCountsIsSumAlong(order, produitMap, entries);
    SumOnes(|filtered|);
  }

  /** `filtered`, the counted entries and `total = filtered.length`. */
  method ProductEntries(txs: seq<Transaction>, compteId: int)
    returns (entries: seq<(string, real)>, total: nat)
    ensures total == |ForAccount(txs, compteId)|
    ensures CountedEntries(ForAccount(txs, compteId), entries)
    ensures forall i :: 0 <= i < |entries| ==> entries[i].1 >= 1.0
    ensures SumCounts(entries) == total as real
    ensures total == 0 ==> entries == []
  {
    var filtered := ForAccount(txs, compteId);
    entries := CountProducts(filtered);
    total := |filtered|;
  }

  /** `entries.find(([_, count]) => count / total > 0.5)`: the first entry
      holding more than half of the transactions, if there is one. */
  function Dominant(entries: seq<(string, real)>, total: nat): (r: Option<(string, real)>)
    ensures r.Some? ==> exists i :: (0 <= i < |entries| && entries[i] == r.value &&
      RatioAbove(entries[i].1, total as real, DominantShare) &&
      forall j :: 0 <= j < i ==> !RatioAbove(entries[j].1, total as real, DominantShare))
    ensures r.None? <==> forall i :: 0 <= i < |entries| ==> !RatioAbove(entries[i].1, total as real, DominantShare)
  {
    if entries == [] then None
    else if RatioAbove(entries[0].1, total as real, DominantShare) then Some(entries[0])
    else
      var rest := Dominant(entries[1..], total);
      assert forall i :: 1 <= i < |entries| ==> entries[i] == entries[1..][i - 1];
      rest
  }

  /** Two different entries add up to no more than all of them. */
  lemma {:induction false} TwoCountsBound(entries: seq<(string, real)>, i: nat, j: nat)
    requires forall k :: 0 <= k < |entries| ==> entries[k].1 >= 0.0
    requires i < j < |entries|
    ensures entries[i].1 + entries[j].1 <= SumCounts(entries)
  {
    var n := |entries| - 1;
    var init := entries[..n];
    SumCountsNonNegative(init);
    if j < n {
      TwoCountsBound(init, i, j);
    } else {
      OneCountBound(init, i);
    }
  }

  lemma {:induction false} OneCountBound(entries: seq<(string, real)>, i: nat)
    requires forall k :: 0 <= k < |entries| ==> entries[k].1 >= 0.0
    requires i < |entries|
    ensures entries[i].1 <= SumCounts(entries)
  {
    var n := |entries| - 1;
    var init := entries[..n];
    SumCountsNonNegative(init);
    if i < n {
      OneCountBound(init, i);
    }
  }

  lemma {:induction false} SumCountsNonNegative(entries: seq<(string, real)>)
    requires forall k :: 0 <= k < |entries| ==> entries[k].1 >= 0.0
    ensures SumCounts(entries) >= 0.0
  {
    if entries != [] {
      SumCountsNonNegative(entries[..|entries| - 1]);
    }
  }

  /** At most one product can hold more than half of the transactions:
      whenever the non-negative counts add up to `total`, no two entries
      both pass the test. */
  lemma AtMostOneDominant(entries: seq<(string, real)>, total: nat)
    requires forall k :: 0 <= k < |entries| ==> entries[k].1 >= 0.0
    requires SumCounts(entries) == total as real
    ensures forall i, j :: 0 <= i < j < |entries| && RatioAbove(entries[i].1, total as real, DominantShare) ==>
      !RatioAbove(entries[j].1, total as real, DominantShare)
  {
    forall i, j | 0 <= i < j < |entries| && RatioAbove(entries[i].1, total as real, DominantShare)
      ensures !RatioAbove(entries[j].1, total as real, DominantShare)
    {
      TwoCountsBound(entries, i, j);
      if total > 0 {
        RatioAboveIff(entries[i].1, total as real, DominantShare);
        RatioAboveIff(entries[j].1, total as real, DominantShare);
      }
    }
  }

  /** Next to an entry above half of `total`, every other entry holds at
      most half of it. */
  lemma OthersAtMostHalf(entries: seq<(string, real)>, total: nat, i: nat)
    requires forall k :: 0 <= k < |entries| ==> entries[k].1 >= 0.0
    requires SumCounts(entries) == total as real
    requires i < |entries| && RatioAbove(entries[i].1, total as real, DominantShare)
    ensures total > 0 && 2.0 * entries[i].1 > total as real
    ensures forall j :: 0 <= j < |entries| && j != i ==> 2.0 * entries[j].1 <= total as real
  {
    OneCountBound(entries, i);
    assert total > 0;
    RatioAboveIff(entries[i].1, total as real, DominantShare);
    forall j | 0 <= j < |entries| && j != i
      ensures 2.0 * entries[j].1 <= total as real
    {
      if j < i {
        TwoCountsBound(entries, j, i);
      } else {
        TwoCountsBound(entries, i, j);
      }
    }
  }

  /** An entry above half of the transactions is the count of a product
      used by more than half of them, and every other product is used by
      at most half. */
  lemma MajorityProduct(filtered: seq<Transaction>, entries: seq<(string, real)>, i: nat)
    requires CountedEntries(filtered, entries)
    requires SumCounts(entries) == |filtered| as real
    requires i < |entries| && RatioAbove(entries[i].1, |filtered| as real, DominantShare)
    ensures entries[i].0 in ProductKeys(filtered)
    ensures 2 * CountOf(filtered, entries[i].0) > |filtered|
    ensures forall p :: p != entries[i].0 ==> 2 * CountOf(filtered, p) <= |filtered|
  {
    var order := Distinct(ProductKeys(filtered));
    OthersAtMostHalf(entries, |filtered|, i);
    assert order[i] in order;
    forall p | p != entries[i].0
      ensures 2 * CountOf(filtered, p) <= |filtered|
    {
      if p in order {
        var j :| 0 <= j < |order| && order[j] == p;
        assert entries[j].1 == CountOf(filtered, p) as real;
      } else {
        ProductWeight(filtered, p);
        WeightOfAbsent(ProductKeys(filtered), Ones(|filtered|), p);
      }
    }
  }

  /** When no entry passes the test, no product is used by more than half
      of the transactions. */
  lemma NoMajorityProduct(filtered: seq<Transaction>, entries: seq<(string, real)>)
    requires CountedEntries(filtered, entries)
    requires forall i :: 0 <= i < |entries| ==> !RatioAbove(entries[i].1, |filtered| as real, DominantShare)
    ensures forall p :: 2 * CountOf(filtered, p) <= |filtered|
  {
    var order := Distinct(ProductKeys(filtered));
    forall p
      ensures 2 * CountOf(filtered, p) <= |filtered|
    {
      if p in order {
        var j :| 0 <= j < |order| && order[j] == p;
        assert entries[j].1 == CountOf(filtered, p) as real;
        assert filtered != [];
        RatioAboveIff(entries[j].1, |filtered| as real, DominantShare);
      } else {
        ProductWeight(filtered, p);
        WeightOfAbsent(ProductKeys(filtered), Ones(|filtered|), p);
      }
    }
  }

  /** The tab's dominant product is the one product used by more than half
      of the account's transactions; there is none exactly when no product
      is, in particular for an account without transactions. */
  method DominantProduct(txs: seq<Transaction>, compteId: int) returns (dominant: Option<(string, real)>)
    ensures dominant.Some? ==> dominant.value.0 in ProductKeys(ForAccount(txs, compteId))
    ensures dominant.Some? ==> dominant.value.1 == CountOf(ForAccount(txs, compteId), dominant.value.0) as real
    ensures dominant.Some? ==> 2 * CountOf(ForAccount(txs, compteId), dominant.value.0) > |ForAccount(txs, compteId)|
    ensures dominant.Some? ==> forall p :: p != dominant.value.0 ==>
      2 * CountOf(ForAccount(txs, compteId), p) <= |ForAccount(txs, compteId)|
    ensures dominant.None? ==> forall p ::
      2 * CountOf(ForAccount(txs, compteId), p) <= |ForAccount(txs, compteId)|
    ensures ForAccount(txs, compteId) == [] ==> dominant.None?
  {
    var entries, total := ProductEntries(txs, compteId);
    dominant := Dominant(entries, total);
    if dominant.Some? {
      var i :| 0 <= i < |entries| && entries[i] == dominant.value &&
        RatioAbove(entries[i].1, total as real, DominantShare);
      MajorityProduct(ForAccount(txs, compteId), entries, i);
    } else {
      NoMajorityProduct(ForAccount(txs, compteId), entries);
    }
  }

  /** `displayedRecommendations`: all of them once expanded, the first
      three otherwise. */
  function DisplayedRecommendations(recommendations: seq<string>, showAll: bool): (r: seq<string>)
    ensures showAll ==> r == recommendations
    ensures !showAll ==> r == recommendations[..if |recommendations| < 3 then |recommendations| else 3]
  {
    Displayed(recommendations, showAll, RecommendationsShown)
  }

  /** The "Voir plus"/"Voir moins" toggle appears only for more than three
      recommendations; for at most three both states list all of them. */
  lemma RecommendationToggle(recommendations: seq<string>, showAll: bool)
    ensures ShowToggle(|recommendations|, RecommendationsShown) <==> |recommendations| > 3
    ensures !ShowToggle(|recommendations|, RecommendationsShown) ==>
      DisplayedRecommendations(recommendations, showAll) == recommendations
  {
    NoToggleShowsAll(recommendations, showAll, RecommendationsShown);
  }
}
