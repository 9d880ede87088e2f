/** The "Analyse" tab of an account: income and expense series over the
    last six months, the net flow, a simulated running balance and the
    alerts derived from them. */
module FinanceAnalysis {
  import opened Common
  import opened Months
  import opened Ledger

  /** The assumed opening balance of the simulation. */
  const StartingBalance: real := 1000.0
  /** A simulated balance below this raises the low-balance alert. */
  const LowBalanceThreshold: real := 200.0
  /** Expenses above this share of all movements raise an alert. */
  const DominanceRatio: real := 0.8

  /** `getLast6Months`: pushes the key and the display label of each month of
      the window, oldest first. The month names of the locale are the
      parameter `monthName`. */
  method Last6Months(now: YearMonth, monthName: YearMonth -> string) returns (keys: seq<string>, labels: seq<string>)
    requires InRange(now)
    ensures keys == WindowKeys(now)
    ensures |labels| == 6
    ensures forall i :: 0 <= i < 6 ==> labels[i] == monthName(Window(now)[i])
  {
    keys, labels := [], [];
    var i := 5;
    while i >= 0
      invariant -1 <= i <= 5
      invariant |keys| == 5 - i && |labels| == 5 - i
      invariant forall j :: 0 <= j < 5 - i ==> keys[j] == Key(Window(now)[j]) && labels[j] == monthName(Window(now)[j])
    {
      var d := Back(now, i);
      assert d == Window(now)[5 - i];
      keys := keys + [Key(d)];
      labels := labels + [monthName(d)];
      i := i - 1;
    }
  }

  /** `t.type?.toLowerCase().includes(word)`; a missing type never matches. */
  predicate IsKind(t: Transaction, word: string)
  {
    t.kind.Some? && Contains(Lower(t.kind.value), word)
  }

  predicate IsCredit(t: Transaction)
  {
    IsKind(t, "crédit")
  }

  predicate IsDebit(t: Transaction)
  {
    IsKind(t, "débit")
  }

  /** In month `key` and of kind `word`. */
  predicate Counted(t: Transaction, word: string, key: string)
  {
    IsKind(t, word) && StartsWith(t.date, key)
  }

  /** `keys.map(k => txs.filter(t => kind matches && t.date.startsWith(k))
      .reduce(+, 0))`: one sum per key, each of the amounts of the
      transactions of that kind in that month. */
  function Series(txs: seq<Transaction>, keys: seq<string>, word: string): (r: seq<real>)
    ensures |r| == |keys|
    ensures forall i :: 0 <= i < |keys| ==> r[i] == SumWhere(txs, (t: Transaction) => Counted(t, word, keys[i]))
  {
    var r := seq(|keys|, i requires 0 <= i < |keys| =>
      TotalAmount(Filter(txs, (t: Transaction) => Counted(t, word, keys[i]))));
    assert forall i :: 0 <= i < |keys| ==> r[i] == SumWhere(txs, (t: Transaction) => Counted(t, word, keys[i])) by {
      forall i | 0 <= i < |keys| {
        TotalOfFilter(txs, (t: Transaction) => Counted(t, word, keys[i]));
      }
    }
    r
  }

  /** `revenus`: per month, the amount of the credits of that month. */
  function Revenus(txs: seq<Transaction>, keys: seq<string>): (r: seq<real>)
    ensures |r| == |keys|
    ensures forall i :: 0 <= i < |keys| ==>
      r[i] == SumWhere(txs, (t: Transaction) => IsCredit(t) && StartsWith(t.date, keys[i]))
  {
    var r := Series(txs, keys, "crédit");
    assert forall i :: 0 <= i < |keys| ==>
      r[i] == SumWhere(txs, (t: Transaction) => IsCredit(t) && StartsWith(t.date, keys[i])) by {
      forall i | 0 <= i < |keys| {
        SumWhereExtensional(txs, (t: Transaction) => Counted(t, "crédit", keys[i]),
          (t: Transaction) => IsCredit(t) && StartsWith(t.date, keys[i]));
      }
    }
    r
  }

  /** `depenses`: per month, the amount of the debits of that month. */
  function Depenses(txs: seq<Transaction>, keys: seq<string>): (r: seq<real>)
    ensures |r| == |keys|
    ensures forall i :: 0 <= i < |keys| ==>
      r[i] == SumWhere(txs, (t: Transaction) => IsDebit(t) && StartsWith(t.date, keys[i]))
  {
    var r := Series(txs, keys, "débit");
    assert forall i :: 0 <= i < |keys| ==>
      r[i] == SumWhere(txs, (t: Transaction) => IsDebit(t) && StartsWith(t.date, keys[i])) by {
      forall i | 0 <= i < |keys| {
        SumWhereExtensional(txs, (t: Transaction) => Counted(t, "débit", keys[i]),
          (t: Transaction) => IsDebit(t) && StartsWith(t.date, keys[i]));
      }
    }
    r
  }

  /** One more transaction adds its amount to the bucket of its month in
      the series of its kind, and changes nothing else. */
  lemma SeriesSnoc(txs: seq<Transaction>, t: Transaction, keys: seq<string>, word: string, i: nat)
    requires i < |keys|
    ensures Series(txs + [t], keys, word)[i] == Series(txs, keys, word)[i] + (if Counted(t, word, keys[i]) then t.amount else 0.0)
  {
    SumWhereSnoc(txs, t, (u: Transaction) => Counted(u, word, keys[i]));
  }

  /** A transaction that is neither a credit nor a debit, or whose date lies
      outside the window, changes neither series. */
  lemma IgnoredTransaction(txs: seq<Transaction>, t: Transaction, now: YearMonth)
    requires InRange(now)
    requires (!IsCredit(t) && !IsDebit(t)) || MonthOf(t) !in WindowKeys(now)
    ensures Revenus(txs + [t], WindowKeys(now)) == Revenus(txs, WindowKeys(now))
    ensures Depenses(txs + [t], WindowKeys(now)) == Depenses(txs, WindowKeys(now))
  {
    var keys := WindowKeys(now);
    forall i | 0 <= i < 6
      ensures Revenus(txs + [t], keys)[i] == Revenus(txs, keys)[i]
      ensures Depenses(txs + [t], keys)[i] == Depenses(txs, keys)[i]
    {
      StartsWithKeyIffPrefix(t.date, Window(now)[i]);
      SeriesSnoc(txs, t, keys, "crédit", i);
      SeriesSnoc(txs, t, keys, "débit", i);
    }
  }

  /** `fluxNet = revenus.map((r, i) => r - depenses[i])` */
  function NetFlow(revenus: seq<real>, depenses: seq<real>): (f: seq<real>)
    requires |revenus| == |depenses|
    ensures |f| == |revenus|
    ensures forall i :: 0 <= i < |f| ==> f[i] == revenus[i] - depenses[i]
  {
    seq(|revenus|, i requires 0 <= i < |revenus| => revenus[i] - depenses[i])
  }

  /** The net flows add up to total income minus total expenses. */
  lemma {:induction false} NetFlowTotal(revenus: seq<real>, depenses: seq<real>)
    requires |revenus| == |depenses|
    ensures Sum(NetFlow(revenus, depenses)) == Sum(revenus) - Sum(depenses)
  {
    if revenus != [] {
      var n := |revenus| - 1;
      NetFlowTotal(revenus[..n], depenses[..n]);
      assert NetFlow(revenus, depenses)[..n] == NetFlow(revenus[..n], depenses[..n]);
    }
  }

  /** Reference definition of the simulated balance: after month `i`, the
      starting balance plus the net flows of months 0..i. */
  function BalanceAfter(flux: seq<real>, i: nat): real
    requires i < |flux|
  {
    StartingBalance + Sum(flux[..i + 1])
  }

  /** `fluxNet.reduce((acc, cur) => { acc.push(last + cur); ... }, [])` with
      `last` the previous element, or the starting balance for the first. */
  method SimulateBalance(flux: seq<real>) returns (acc: seq<real>)
    ensures |acc| == |flux|
    ensures |flux| > 0 ==> acc[0] == StartingBalance + flux[0]
    ensures forall i :: 0 < i < |acc| ==> acc[i] == acc[i - 1] + flux[i]
    ensures forall i :: 0 <= i < |acc| ==> acc[i] == BalanceAfter(flux, i)
  {
    acc := [];
    var k := 0;
    while k < |flux|
      invariant 0 <= k <= |flux| && |acc| == k
      invariant forall i :: 0 <= i < k ==> acc[i] == BalanceAfter(flux, i)
      invariant forall i :: 0 < i < k ==> acc[i] == acc[i - 1] + flux[i]
    {
      var last := if |acc| > 0 then acc[|acc| - 1] else StartingBalance;
      assert flux[..k + 1][..k] == flux[..k];
      assert k == 0 ==> flux[..k] == [];
      acc := acc + [last + flux[k]];
      k := k + 1;
    }
    if |flux| > 0 {
      assert acc[0] == BalanceAfter(flux, 0);
      assert flux[..1][..0] == [];
      assert Sum(flux[..1]) == Sum(flux[..1][..0]) + flux[..1][0];
    }
  }

  /** Net flows [70, -10] give balances [1070, 1060]. */
  method SimulateBalanceExample() returns (acc: seq<real>)
    ensures acc == [1070.0, 1060.0]
  {
    acc := SimulateBalance([70.0, -10.0]);
  }

  /** `values.some(v => v < bound)` */
  predicate AnyBelow(values: seq<real>, bound: real)
  {
    |values| > 0 && (values[0] < bound || AnyBelow(values[1..], bound))
  }

  lemma {:induction false} AnyBelowIff(values: seq<real>, bound: real)
    ensures AnyBelow(values, bound) <==> exists i :: 0 <= i < |values| && values[i] < bound
  {
    if |values| > 0 {
      AnyBelowIff(values[1..], bound);
      if exists i :: 0 <= i < |values| && values[i] < bound {
        var i :| 0 <= i < |values| && values[i] < bound;
        if i > 0 { assert values[1..][i - 1] < bound; }
      }
      if exists j :: 0 <= j < |values[1..]| && values[1..][j] < bound {
        var j :| 0 <= j < |values[1..]| && values[1..][j] < bound;
        assert values[j + 1] < bound;
      }
    }
  }

  /** `alertSoldeBas`: some simulated balance is below 200. */
  predicate LowBalanceAlert(balance: seq<real>)
    ensures LowBalanceAlert(balance) <==> exists i :: 0 <= i < |balance| && balance[i] < LowBalanceThreshold
  {
    AnyBelowIff(balance, LowBalanceThreshold);
    AnyBelow(balance, LowBalanceThreshold)
  }

  /** `alertDepenseDomine = totalDepenses > 0 && totalDepenses /
      (totalRevenus + totalDepenses) > 0.8`, stated without division:
      expenses are positive and either all movements cancel out or expenses
      exceed 80% of a positive total. */
  predicate ExpenseDominates(totalRevenus: real, totalDepenses: real)
    ensures ExpenseDominates(totalRevenus, totalDepenses) <==>
      totalDepenses > 0.0 &&
      (totalRevenus + totalDepenses == 0.0 ||
       (totalRevenus + totalDepenses > 0.0 && 5.0 * totalDepenses > 4.0 * (totalRevenus + totalDepenses)))
  {
    DominanceWithoutDivision(totalRevenus, totalDepenses);
    totalDepenses > 0.0 && RatioAbove(totalDepenses, totalRevenus + totalDepenses, DominanceRatio)
  }

  lemma DominanceWithoutDivision(totalRevenus: real, totalDepenses: real)
    ensures totalDepenses > 0.0 && RatioAbove(totalDepenses, totalRevenus + totalDepenses, DominanceRatio) <==>
      totalDepenses > 0.0 &&
      (totalRevenus + totalDepenses == 0.0 ||
       (totalRevenus + totalDepenses > 0.0 && 5.0 * totalDepenses > 4.0 * (totalRevenus + totalDepenses)))
  {
    var den := totalRevenus + totalDepenses;
    if den != 0.0 && totalDepenses > 0.0 {
      var q := totalDepenses / den;
      assert q * den == totalDepenses;
      assert (q - 0.8) * den == totalDepenses - 0.8 * den;
      if den > 0.0 {
        if q > 0.8 {
          ProductPositive(q - 0.8, den);
        } else {
          ProductPositive(0.8 - q, den);
          assert (q - 0.8) * den == -((0.8 - q) * den);
        }
      } else {
        ProductNegative(q, den, totalDepenses);
      }
    }
  }

  /** A positive quotient over a negative denominator is negative. */
  lemma ProductNegative(q: real, den: real, num: real)
    requires den < 0.0 && num > 0.0 && q * den == num
    ensures q < 0.0
  {
    if q >= 0.0 {
      ProductPositive(q, -den);
      assert q * (-den) == -(q * den);
    }
  }

  /** 100 of expenses against 10 of income dominate (100/110 > 0.8); 50
      against 50 do not. */
  lemma ExpenseDominatesExamples()
    ensures ExpenseDominates(10.0, 100.0)
    ensures !ExpenseDominates(50.0, 50.0)
  {
  }

  /** With no negative income the alert says that income is below a
      quarter of the expenses. */
  lemma ExpenseDominatesQuarter(totalRevenus: real, totalDepenses: real)
    requires totalRevenus >= 0.0
    ensures ExpenseDominates(totalRevenus, totalDepenses) <==> totalDepenses > 0.0 && 4.0 * totalRevenus < totalDepenses
  {
  }

  /** The indices of the months with a negative net flow, in increasing
      order. */
  function NegativeIndices(flux: seq<real>): (idx: seq<nat>)
    ensures forall j :: 0 <= j < |idx| ==> idx[j] < |flux| && flux[idx[j]] < 0.0
    ensures forall j, k :: 0 <= j < k < |idx| ==> idx[j] < idx[k]
    ensures forall i :: 0 <= i < |flux| && flux[i] < 0.0 ==> i in idx
  {
    if flux == [] then []
    else
      var n := |flux| - 1;
      var prev := NegativeIndices(flux[..n]);
      assert forall j :: 0 <= j < |prev| ==> prev[j] < n;
      prev + (if flux[n] < 0.0 then [n] else [])
  }

  /** `moisNegatifs`: the labels of the months with a negative net flow, in
      month order. */
  function NegativeMonths(flux: seq<real>, labels: seq<string>): (r: seq<string>)
    requires |labels| == |flux|
    ensures |r| == |NegativeIndices(flux)|
    ensures forall j :: 0 <= j < |r| ==> r[j] == labels[NegativeIndices(flux)[j]]
    ensures r == [] <==> forall i :: 0 <= i < |flux| ==> flux[i] >= 0.0
  {
    var idx := NegativeIndices(flux);
    assert idx != [] ==> flux[idx[0]] < 0.0;
    seq(|idx|, j requires 0 <= j < |idx| => labels[idx[j]])
  }

  /** `aucuneAnomalie = moisNegatifs.length === 0 && !alertSoldeBas &&
      !alertDepenseDomine`: no month has a negative net flow, no simulated
      balance is below 200, and expenses do not dominate. */
  predicate AllClear(flux: seq<real>, labels: seq<string>, balance: seq<real>, expenseDominates: bool)
    requires |labels| == |flux|
    ensures AllClear(flux, labels, balance, expenseDominates) <==>
      (forall i :: 0 <= i < |flux| ==> flux[i] >= 0.0) &&
      (forall i :: 0 <= i < |balance| ==> balance[i] >= LowBalanceThreshold) &&
      !expenseDominates
  {
    |NegativeMonths(flux, labels)| == 0 && !LowBalanceAlert(balance) && !expenseDominates
  }

  /** Everything the tab displays. */
  datatype Report = Report(
    keys: seq<string>,
    labels: seq<string>,
    revenus: seq<real>,
    depenses: seq<real>,
    netFlow: seq<real>,
    balance: seq<real>,
    lowBalance: bool,
    expenseDominates: bool,
    negativeMonths: seq<string>,
    allClear: bool)

  /** The whole computation of the tab, in the order the component runs it. */
  method Analyze(txs: seq<Transaction>, now: YearMonth, monthName: YearMonth -> string) returns (r: Report)
    requires InRange(now)
    ensures r.keys == WindowKeys(now) && |r.labels| == 6
    ensures forall i :: 0 <= i < 6 ==> r.labels[i] == monthName(Window(now)[i])
    ensures r.revenus == Revenus(txs, r.keys) && r.depenses == Depenses(txs, r.keys)
    ensures |r.netFlow| == 6 && |r.balance| == 6
    ensures forall i :: 0 <= i < 6 ==> r.netFlow[i] == r.revenus[i] - r.depenses[i]
    ensures forall i :: 0 <= i < 6 ==> r.balance[i] == StartingBalance + Sum(r.netFlow[..i + 1])
    ensures r.lowBalance <==> exists i :: 0 <= i < 6 && r.balance[i] < LowBalanceThreshold
    ensures r.expenseDominates == ExpenseDominates(Sum(r.revenus), Sum(r.depenses))
    ensures r.negativeMonths == NegativeMonths(r.netFlow, r.labels)
    ensures r.allClear <==>
      (forall i :: 0 <= i < 6 ==> r.netFlow[i] >= 0.0 && r.balance[i] >= LowBalanceThreshold) && !r.expenseDominates
  {
    var keys, labels := Last6Months(now, monthName);
    var revenus := Revenus(txs, keys);
    var depenses := Depenses(txs, keys);
    var flux := NetFlow(revenus, depenses);
    var balance := SimulateBalance(flux);
    var low := LowBalanceAlert(balance);
    var dominates := ExpenseDominates(Sum(revenus), Sum(depenses));
    var negative := NegativeMonths(flux, labels);
    var clear := AllClear(flux, labels, balance, dominates);
    r := Report(keys, labels, revenus, depenses, flux, balance, low, dominates, negative, clear);
  }
}
