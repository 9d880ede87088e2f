/** Month buckets: a dictionary seeded with one zero per month key, into
    which every transaction whose `date.slice(0, 7)` is a key adds its
    amount. */
module Buckets {
  import opened Common
  import opened Ledger

  /** `order` and `m` after seeding every key of `keys` with 0. */
  ghost predicate Seeded(order: seq<string>, m: map<string, real>, keys: seq<string>)
  {
    order == Distinct(keys) &&
    (forall k :: k in m <==> k in keys) &&
    (forall k :: k in m ==> m[k] == 0.0)
  }

  /** One run of `m[key] = 0`. */
  lemma SeedStep(order: seq<string>, m: map<string, real>, keys: seq<string>, key: string)
    requires Seeded(order, m, keys)
    ensures Seeded(if key in m then order else order + [key], m[key := 0.0], keys + [key])
  {
    DistinctSnoc(keys, key);
  }

  /** `m` holds every key of `keys`, and each the amount of the
      transactions of its month among `txs`. */
  ghost predicate Bucketed(m: map<string, real>, keys: seq<string>, txs: seq<Transaction>)
  {
    (forall k :: k in m <==> k in keys) &&
    (forall k :: k in m ==> m[k] == MonthTotal(txs, k))
  }

  /** One run of `if (m[mois] !== undefined) m[mois] += t.montant`. */
  lemma BucketStep(m: map<string, real>, keys: seq<string>, txs: seq<Transaction>, t: Transaction)
    requires Bucketed(m, keys, txs)
    ensures Bucketed(if MonthOf(t) in m then m[MonthOf(t) := m[MonthOf(t)] + t.amount] else m, keys, txs + [t])
  {
    forall k | k in m
      ensures MonthTotal(txs + [t], k) == MonthTotal(txs, k) + (if MonthOf(t) == k then t.amount else 0.0)
    {
      SumWhereSnoc(txs, t, (u: Transaction) => MonthOf(u) == k);
    }
  }

  /** The seeding loop: `m[key] = 0` for every key in turn, from an empty
      object. */
  method SeedKeys(keys: seq<string>) returns (order: seq<string>, m: map<string, real>)
    ensures Seeded(order, m, keys)
  {
    order, m := [], map[];
    var i := 0;
    while i < |keys|
      invariant 0 <= i <= |keys|
      invariant Seeded(order, m, keys[..i])
    {
      SeedStep(order, m, keys[..i], keys[i]);
      if keys[i] !in m {
        order := order + [keys[i]];
      }
      m := m[keys[i] := 0.0];
      PrefixSnoc(keys, i);
      i := i + 1;
    }
    assert keys[..i] == keys;
  }

  /** The accumulation loop: `if (m[mois] !== undefined) m[mois] +=
      t.montant` for every transaction, into a freshly seeded object. */
  method AddAmounts(m0: map<string, real>, keys: seq<string>, txs: seq<Transaction>) returns (m: map<string, real>)
    requires Bucketed(m0, keys, [])
    ensures Bucketed(m, keys, txs)
  {
    m := m0;
    var j := 0;
    while j < |txs|
      invariant 0 <= j <= |txs|
      invariant Bucketed(m, keys, txs[..j])
    {
      var t := txs[j];
      var mois := MonthOf(t);
      BucketStep(m, keys, txs[..j], t);
      if mois in m {
        m := m[mois := m[mois] + t.amount];
      }
      PrefixSnoc(txs, j);
      j := j + 1;
    }
    assert txs[..j] == txs;
  }

  /** `monthlySums`: seeds every key with 0, then adds every transaction
      to the key of its month when that key was seeded. `order` is the
      dictionary's key order. */
  method MonthlySums(keys: seq<string>, txs: seq<Transaction>) returns (order: seq<string>, m: map<string, real>)
    ensures order == Distinct(keys)
    ensures forall k :: k in m <==> k in keys
    ensures forall k :: k in m ==> m[k] == MonthTotal(txs, k)
  {
    var seeded;
    order, seeded := SeedKeys(keys);
    m := AddAmounts(seeded, keys, txs);
  }
}
