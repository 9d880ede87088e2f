/** The dictionary-accumulation idiom `obj[k] = (obj[k] || 0) + w` run over a
    list, as the category totals and the product counts use it. A JavaScript
    object lists its (non-numeric) keys in insertion order, so the result is
    the dictionary together with its key order. */
module Tally {
  import opened Common

  /** Reference definition: the total weight recorded under `k`. */
  function WeightOf(keys: seq<string>, ws: seq<real>, k: string): real
    requires |keys| == |ws|
  {
    if keys == [] then 0.0
    else
      var n := |keys| - 1;
      WeightOf(keys[..n], ws[..n], k) + (if keys[n] == k then ws[n] else 0.0)
  }

  /** A key that never occurs has weight zero. */
  lemma {:induction false} WeightOfAbsent(keys: seq<string>, ws: seq<real>, k: string)
    requires |keys| == |ws| && k !in keys
    ensures WeightOf(keys, ws, k) == 0.0
  {
    if keys != [] {
      var n := |keys| - 1;
      assert keys[..n] + [keys[n]] == keys;
      WeightOfAbsent(keys[..n], ws[..n], k);
    }
  }

  /** The values of `m` along `order`, added up. */
  function SumAlong(order: seq<string>, m: map<string, real>): real
    requires forall k :: k in order ==> k in m
  {
    if order == [] then 0.0 else SumAlong(order[..|order| - 1], m) + m[order[|order| - 1]]
  }

  /** The tallies of a key list, added up along `order`. */
  function SumWeights(order: seq<string>, keys: seq<string>, ws: seq<real>): real
    requires |keys| == |ws|
  {
    if order == [] then 0.0
    else SumWeights(order[..|order| - 1], keys, ws) + WeightOf(keys, ws, order[|order| - 1])
  }

  lemma {:induction false} SumAlongIsSumWeights(order: seq<string>, m: map<string, real>, keys: seq<string>, ws: seq<real>)
    requires |keys| == |ws|
    requires forall k :: k in order ==> k in m && m[k] == WeightOf(keys, ws, k)
    ensures SumAlong(order, m) == SumWeights(order, keys, ws)
  {
    if order != [] {
      SumAlongIsSumWeights(order[..|order| - 1], m, keys, ws);
    }
  }

  /** One more (key, weight) pair adds the weight once to a sum along
      distinct keys that contain the key, and nothing otherwise. */
  lemma {:induction false} SumWeightsSnoc(order: seq<string>, keys: seq<string>, ws: seq<real>, k: string, w: real)
    requires |keys| == |ws|
    requires forall i, j :: 0 <= i < j < |order| ==> order[i] != order[j]
    ensures SumWeights(order, keys + [k], ws + [w]) == SumWeights(order, keys, ws) + (if k in order then w else 0.0)
  {
    var keys', ws' := keys + [k], ws + [w];
    assert keys'[..|keys|] == keys && ws'[..|ws|] == ws;
    if order != [] {
      var init, last := order[..|order| - 1], order[|order| - 1];
      assert order == init + [last];
      SumWeightsSnoc(init, keys, ws, k, w);
      assert last !in init;
      assert k in order <==> k in init || k == last;
    }
  }

  /** Whatever the keys, the per-key tallies add up to the sum of all
      weights. */
  lemma {:induction false} WeightsAddUp(keys: seq<string>, ws: seq<real>)
    requires |keys| == |ws|
    ensures SumWeights(Distinct(keys), keys, ws) == Sum(ws)
  {
    if keys != [] {
      var n := |keys| - 1;
      var ks, k, vs, w := keys[..n], keys[n], ws[..n], ws[n];
      assert keys == ks + [k] && ws == vs + [w];
      WeightsAddUp(ks, vs);
      var d := Distinct(ks);
      DistinctSnoc(ks, k);
      SumWeightsSnoc(d, ks, vs, k, w);
      if k !in ks {
        WeightOfAbsent(ks, vs, k);
        assert Distinct(keys) == d + [k];
        assert (d + [k])[..|d|] == d;
      }
      assert Sum(ws) == Sum(vs) + w;
    }
  }

  /** One more pair adds its weight to its own key only. */
  lemma WeightOfSnoc(keys: seq<string>, ws: seq<real>, k: string, w: real, x: string)
    requires |keys| == |ws|
    ensures WeightOf(keys + [k], ws + [w], x) == WeightOf(keys, ws, x) + (if k == x then w else 0.0)
  {
    assert (keys + [k])[..|keys|] == keys && (ws + [w])[..|ws|] == ws;
  }

  /** `order` and `m` are the object after running over `keys` and `ws`. */
  ghost predicate Tallied(order: seq<string>, m: map<string, real>, keys: seq<string>, ws: seq<real>)
    requires |keys| == |ws|
  {
    order == Distinct(keys) &&
    (forall k :: k in m <==> k in keys) &&
    (forall k :: k in m ==> m[k] == WeightOf(keys, ws, k))
  }

  /** One run of `m[k] = (m[k] || 0) + w`, with `k` appended to the key
      order when it is new. */
  lemma TallyStep(order: seq<string>, m: map<string, real>, keys: seq<string>, ws: seq<real>, k: string, w: real)
    requires |keys| == |ws| && Tallied(order, m, keys, ws)
    ensures Tallied(if k in m then order else order + [k],
                    m[k := (if k in m then m[k] else 0.0) + w], keys + [k], ws + [w])
  {
    DistinctSnoc(keys, k);
    if k !in keys {
      WeightOfAbsent(keys, ws, k);
    }
    forall x | x in m[k := (if k in m then m[k] else 0.0) + w]
      ensures m[k := (if k in m then m[k] else 0.0) + w][x] == WeightOf(keys + [k], ws + [w], x)
    {
      WeightOfSnoc(keys, ws, k, w, x);
    }
  }

  /** Runs `m[k] = (m[k] || 0) + w` for every pair in turn, from an empty
      object; `order` is the object's key order. */
  method Accumulate(keys: seq<string>, ws: seq<real>) returns (order: seq<string>, m: map<string, real>)
    requires |keys| == |ws|
    ensures order == Distinct(keys)
    ensures forall k :: k in m <==> k in keys
    ensures forall k :: k in m ==> m[k] == WeightOf(keys, ws, k)
    ensures SumAlong(order, m) == Sum(ws)
  {
    order, m := [], map[];
    var i := 0;
    while i < |keys|
      invariant 0 <= i <= |keys|
      invariant Tallied(order, m, keys[..i], ws[..i])
    {
      var k := keys[i];
      TallyStep(order, m, keys[..i], ws[..i], k, ws[i]);
      var previous := if k in m then m[k] else 0.0;
      if k !in m {
        order := order + [k];
      }
      m := m[k := previous + ws[i]];
      assert keys[..i + 1] == keys[..i] + [k] && ws[..i + 1] == ws[..i] + [ws[i]];
      i := i + 1;
    }
    assert keys[..i] == keys && ws[..i] == ws;
    SumAlongIsSumWeights(order, m, keys, ws);
    WeightsAddUp(keys, ws);
  }
}
