/** The records the screens receive from the server, and the sums over
    them that the screens compute. */
module Ledger {
  import opened Common

  /** One transaction. `kind` is the credit/debit type label, `account` the
      id of the account it belongs to. Optional fields may be missing. */
  datatype Transaction = Transaction(
    id: int,
    description: string,
    amount: real,
    date: string,
    category: Option<string>,
    kind: Option<string>,
    product: Option<string>,
    account: int)

  /** A bank account as the account list receives it. */
  datatype Account = Account(
    id: int,
    iban: string,
    balance: real,
    currency: string,
    openedOn: string)

  /** `x || fallback`: a missing or empty string gives the fallback. */
  function OrDefault(x: Option<string>, fallback: string): (r: string)
    ensures x.Some? && x.value != "" ==> r == x.value
    ensures x.None? || x.value == "" ==> r == fallback
  {
    if x.Some? && x.value != "" then x.value else fallback
  }

  /** `tx.categorie || "Autre"` */
  function CategoryOrOther(t: Transaction): string
  {
    OrDefault(t.category, "Autre")
  }

  /** `t.produit || 'Autre'` */
  function ProductOrOther(t: Transaction): string
  {
    OrDefault(t.product, "Autre")
  }

  /** The month key of a transaction: `date.slice(0, 7)`. */
  function MonthOf(t: Transaction): string
  {
    SliceTo(t.date, 7)
  }

  /** The transactions of one account, in their order. */
  function ForAccount(txs: seq<Transaction>, id: int): (r: seq<Transaction>)
    ensures Subsequence(r, txs)
    ensures forall t :: t in r ==> t in txs && t.account == id
    ensures forall t :: t in txs ==> multiset(r)[t] == if t.account == id then multiset(txs)[t] else 0
  {
    var p := (t: Transaction) => t.account == id;
    FilterFacts(txs, p);
    Filter(txs, p)
  }

  /** Filtering by the same account twice is filtering once. */
  lemma ForAccountIdempotent(txs: seq<Transaction>, id: int)
    ensures ForAccount(ForAccount(txs, id), id) == ForAccount(txs, id)
  {
    FilterIdempotent(txs, (t: Transaction) => t.account == id);
  }

  /** `txs.reduce((sum, t) => sum + t.montant, 0)` */
  function TotalAmount(txs: seq<Transaction>): real
  {
    if txs == [] then 0.0 else TotalAmount(txs[..|txs| - 1]) + txs[|txs| - 1].amount
  }

  lemma {:induction false} TotalAmountSnoc(txs: seq<Transaction>, t: Transaction)
    ensures TotalAmount(txs + [t]) == TotalAmount(txs) + t.amount
  {
    assert (txs + [t])[..|txs + [t]| - 1] == txs;
  }

  /** Reference definition: the amounts of the transactions satisfying `p`,
      added one transaction at a time as a `for` loop with an `if` does. */
  function SumWhere(txs: seq<Transaction>, p: Transaction -> bool): real
  {
    if txs == [] then 0.0
    else SumWhere(txs[..|txs| - 1], p) + (if p(txs[|txs| - 1]) then txs[|txs| - 1].amount else 0.0)
  }

  lemma {:induction false} SumWhereSnoc(txs: seq<Transaction>, t: Transaction, p: Transaction -> bool)
    ensures SumWhere(txs + [t], p) == SumWhere(txs, p) + (if p(t) then t.amount else 0.0)
  {
    assert (txs + [t])[..|txs + [t]| - 1] == txs;
  }

  /** `filter(p).reduce(+)` is the same sum as the loop form. */
  lemma {:induction false} TotalOfFilter(txs: seq<Transaction>, p: Transaction -> bool)
    ensures TotalAmount(Filter(txs, p)) == SumWhere(txs, p)
  {
    if txs != [] {
      var init, t := txs[..|txs| - 1], txs[|txs| - 1];
      assert txs == init + [t];
      TotalOfFilter(init, p);
      FilterSnoc(init, t, p);
      if p(t) {
        TotalAmountSnoc(Filter(init, p), t);
      } else {
        assert Filter(txs, p) == Filter(init, p);
      }
    }
  }

  /** Every transaction satisfies `p` or its negation, so the two partial
      sums make up the total. */
  lemma {:induction false} SumWhereSplit(txs: seq<Transaction>, p: Transaction -> bool)
    ensures SumWhere(txs, p) + SumWhere(txs, (t: Transaction) => !p(t)) == TotalAmount(txs)
  {
    if txs != [] {
      SumWhereSplit(txs[..|txs| - 1], p);
    }
  }

  /** Two predicates that agree on the transactions give the same sum. */
  lemma {:induction false} SumWhereExtensional(txs: seq<Transaction>, p: Transaction -> bool, q: Transaction -> bool)
    requires forall t :: t in txs ==> p(t) == q(t)
    ensures SumWhere(txs, p) == SumWhere(txs, q)
  {
    if txs != [] {
      SumWhereExtensional(txs[..|txs| - 1], p, q);
    }
  }

  /** A predicate no transaction satisfies sums to zero. */
  lemma {:induction false} SumWhereNone(txs: seq<Transaction>, p: Transaction -> bool)
    requires forall t :: t in txs ==> !p(t)
    ensures SumWhere(txs, p) == 0.0
  {
    if txs != [] {
      SumWhereNone(txs[..|txs| - 1], p);
    }
  }

  /** The amount of the transactions falling in month `key`. */
  function MonthTotal(txs: seq<Transaction>, key: string): real
  {
    SumWhere(txs, (t: Transaction) => MonthOf(t) == key)
  }

  /** The amount of the transactions whose month is one of `keys`. */
  function InWindowTotal(txs: seq<Transaction>, keys: seq<string>): real
  {
    SumWhere(txs, (t: Transaction) => MonthOf(t) in keys)
  }

  /** The six buckets of a window, added up. */
  function SumBuckets(txs: seq<Transaction>, keys: seq<string>): real
  {
    if keys == [] then 0.0 else SumBuckets(txs, keys[..|keys| - 1]) + MonthTotal(txs, keys[|keys| - 1])
  }

  /** When the keys are distinct, each in-window transaction is counted in
      exactly one bucket: the buckets add up to the in-window total. */
  lemma {:induction false} BucketsAddUp(txs: seq<Transaction>, keys: seq<string>)
    requires forall i, j :: 0 <= i < j < |keys| ==> keys[i] != keys[j]
    ensures SumBuckets(txs, keys) == InWindowTotal(txs, keys)
  {
    if txs != [] {
      var init, t := txs[..|txs| - 1], txs[|txs| - 1];
      assert txs == init + [t];
      BucketsAddUp(init, keys);
      BucketsSnoc(init, t, keys);
      SumWhereSnoc(init, t, (u: Transaction) => MonthOf(u) in keys);
    } else {
      BucketsEmpty(keys);
    }
  }

  lemma {:induction false} BucketsEmpty(keys: seq<string>)
    ensures SumBuckets([], keys) == 0.0
  {
    if keys != [] {
      BucketsEmpty(keys[..|keys| - 1]);
    }
  }

  /** Adding one transaction adds its amount to the buckets once when its
      month is among the (distinct) keys, and not at all otherwise. */
  lemma {:induction false} BucketsSnoc(txs: seq<Transaction>, t: Transaction, keys: seq<string>)
    requires forall i, j :: 0 <= i < j < |keys| ==> keys[i] != keys[j]
    ensures SumBuckets(txs + [t], keys) == SumBuckets(txs, keys) + (if MonthOf(t) in keys then t.amount else 0.0)
  {
    if keys != [] {
      var ks, k := keys[..|keys| - 1], keys[|keys| - 1];
      assert keys == ks + [k];
      BucketsSnoc(txs, t, ks);
      SumWhereSnoc(txs, t, (u: Transaction) => MonthOf(u) == k);
      assert k !in ks;
      assert MonthOf(t) in keys <==> MonthOf(t) in ks || MonthOf(t) == k;
    }
  }

  /** Values aligned with distinct keys, one bucket each, add up like the
      buckets. */
  lemma {:induction false} SumIsSumBuckets(txs: seq<Transaction>, keys: seq<string>, values: seq<real>)
    requires |values| == |keys|
    requires forall i :: 0 <= i < |keys| ==> values[i] == MonthTotal(txs, keys[i])
    ensures Sum(values) == SumBuckets(txs, keys)
  {
    if keys != [] {
      var n := |keys| - 1;
      SumIsSumBuckets(txs, keys[..n], values[..n]);
    }
  }
}
