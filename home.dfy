/** The home screen: spending per category, spending per month over the
    last six months, and the most recent transactions, all optionally for
    one account only. */
module Home {
  import opened Common
  import opened Months
  import opened Ledger
  import opened Tally
  import opened Buckets
  import opened Sorting

  /** `getLastSixMonths`: pushes the key of each month of the window,
      oldest first. */
  method LastSixMonths(now: YearMonth) returns (keys: seq<string>)
    requires InRange(now)
    ensures keys == WindowKeys(now)
  {
    keys := [];
    var i := 5;
    while i >= 0
      invariant -1 <= i <= 5
      invariant |keys| == 5 - i
      invariant forall j :: 0 <= j < 5 - i ==> keys[j] == Key(Window(now)[j])
    {
      var d := Back(now, i);
      assert d == Window(now)[5 - i];
      keys := keys + [Key(d)];
      i := i - 1;
    }
  }

  /** `compteFiltre !== null ? txs.filter(tx => tx.compteBancaire?.id ===
      compteFiltre) : txs`: every transaction without a filter, exactly the
      selected account's transactions in their order with one. */
  function AccountFilter(txs: seq<Transaction>, filter: Option<int>): (r: seq<Transaction>)
    ensures filter.None? ==> r == txs
    ensures filter.Some? ==> Subsequence(r, txs)
    ensures filter.Some? ==> forall t :: t in r ==> t.account == filter.value
    ensures filter.Some? ==> forall t :: t in txs ==>
      multiset(r)[t] == if t.account == filter.value then multiset(txs)[t] else 0
  {
    if filter.Some? then ForAccount(txs, filter.value) else txs
  }

  /** The category of each transaction, "Autre" when missing or empty. */
  function CategoryKeys(txs: seq<Transaction>): (r: seq<string>)
    ensures |r| == |txs|
    ensures forall i :: 0 <= i < |txs| ==> r[i] == CategoryOrOther(txs[i])
  {
    seq(|txs|, i requires 0 <= i < |txs| => CategoryOrOther(txs[i]))
  }

  function Amounts(txs: seq<Transaction>): (r: seq<real>)
    ensures |r| == |txs|
    ensures forall i :: 0 <= i < |txs| ==> r[i] == txs[i].amount
  {
    seq(|txs|, i requires 0 <= i < |txs| => txs[i].amount)
  }

  lemma {:induction false} AmountsSum(txs: seq<Transaction>)
    ensures Sum(Amounts(txs)) == TotalAmount(txs)
  {
    if txs != [] {
      var n := |txs| - 1;
      AmountsSum(txs[..n]);
      assert Amounts(txs)[..n] == Amounts(txs[..n]);
    }
  }

  /** The tally of a category is the amount of that category's
      transactions. */
  lemma {:induction false} CategoryWeight(txs: seq<Transaction>, c: string)
    ensures WeightOf(CategoryKeys(txs), Amounts(txs), c) == SumWhere(txs, (t: Transaction) => CategoryOrOther(t) == c)
  {
    if txs != [] {
      var n := |txs| - 1;
      CategoryWeight(txs[..n], c);
      assert CategoryKeys(txs)[..n] == CategoryKeys(txs[..n]);
      assert Amounts(txs)[..n] == Amounts(txs[..n]);
    }
  }

  /** `statCalc`: one entry per category in order of first appearance,
      holding the amount of that category's transactions; the entries add
      up to the amount of all transactions. */
  method CategoryTotals(txs: seq<Transaction>) returns (order: seq<string>, stats: map<string, real>)
    ensures order == Distinct(CategoryKeys(txs))
    ensures forall c :: c in stats <==> c in CategoryKeys(txs)
    ensures forall c :: c in stats ==> stats[c] == SumWhere(txs, (t: Transaction) => CategoryOrOther(t) == c)
    ensures SumAlong(order, stats) == TotalAmount(txs)
  {
    order, stats := Accumulate(CategoryKeys(txs), Amounts(txs));
    forall c | c in stats
      ensures stats[c] == SumWhere(txs, (t: Transaction) => CategoryOrOther(t) == c)
    {
      CategoryWeight(txs, c);
    }
    AmountsSum(txs);
  }

  /** `monthly`: the six month buckets of the window, oldest first. Each
      holds the amount of the transactions of its month; an empty list
      gives six zeros; together they hold every in-window amount. */
  method MonthlySeries(txs: seq<Transaction>, now: YearMonth) returns (monthly: seq<real>)
    requires InRange(now)
    ensures |monthly| == 6
    ensures forall i :: 0 <= i < 6 ==> monthly[i] == MonthTotal(txs, WindowKeys(now)[i])
    ensures txs == [] ==> forall i :: 0 <= i < 6 ==> monthly[i] == 0.0
    ensures Sum(monthly) == InWindowTotal(txs, WindowKeys(now))
  {
    var fullMonths := LastSixMonths(now);
    var order, monthMap := MonthlySums(fullMonths, txs);
    monthly := seq(6, i requires 0 <= i < 6 => monthMap[fullMonths[i]]);
    WindowKeysDistinct(now);
    BucketsAddUp(txs, fullMonths);
    SumIsSumBuckets(txs, fullMonths, monthly);
  }

  function DateOf(t: Transaction): string
  {
    t.date
  }

  /** The "Dernières transactions" list: the recent transactions of the
      selected account (or all), sorted in place by date, newest first. */
  method RecentList(recent: seq<Transaction>, filter: Option<int>) returns (list: seq<Transaction>)
    ensures multiset(list) == multiset(AccountFilter(recent, filter))
    ensures SortedBy(list, DateOf, true)
  {
    var shown := AccountFilter(recent, filter);
    var a := new Transaction[|shown|](i requires 0 <= i < |shown| => shown[i]);
    assert a[..] == shown;
    SortBy(a, DateOf, true);
    list := a[..];
  }
}
