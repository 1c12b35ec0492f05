/** A JavaScript object used as a counter or a running sum:
    `acc[k] = (acc[k] || 0) + w`. Its keys keep insertion order (what
    `Object.keys` and `Object.entries` return), so it is modelled as an
    association list of (key, value) pairs with distinct keys. */
module Tally {

  type Assoc<K> = seq<(K, int)>

  function Keys<K>(t: Assoc<K>): (ks: seq<K>)
    ensures |ks| == |t|
    ensures forall i :: 0 <= i < |t| ==> ks[i] == t[i].0
  {
    if t == [] then [] else [t[0].0] + Keys(t[1..])
  }

  predicate DistinctKeys<K(==)>(t: Assoc<K>) {
    forall i, j :: 0 <= i < j < |t| ==> t[i].0 != t[j].0
  }

  /** `acc[k] || 0`: the value stored under `k`, or 0 when there is none. */
  function Get<K(==)>(t: Assoc<K>, k: K): int {
    if t == [] then 0
    else if t[0].0 == k then t[0].1
    else Get(t[1..], k)
  }

  /** The sum of all values, `Object.values(acc)` added up. */
  function Sum<K>(t: Assoc<K>): int {
    if t == [] then 0 else t[0].1 + Sum(t[1..])
  }

  /** `acc[k] = (acc[k] || 0) + w`: an existing key keeps its place, a new
      one goes to the end. */
  function Bump<K(==)>(t: Assoc<K>, k: K, w: int): Assoc<K> {
    if t == [] then [(k, w)]
    else if t[0].0 == k then [(k, t[0].1 + w)] + t[1..]
    else [t[0]] + Bump(t[1..], k, w)
  }

  lemma {:induction false} BumpGet<K>(t: Assoc<K>, k: K, w: int, j: K)
    ensures Get(Bump(t, k, w), j) == Get(t, j) + (if j == k then w else 0)
  {
    if t != [] && t[0].0 != k {
      BumpGet(t[1..], k, w, j);
      assert Bump(t, k, w)[1..] == Bump(t[1..], k, w);
    }
  }

  lemma {:induction false} BumpSum<K>(t: Assoc<K>, k: K, w: int)
    ensures Sum(Bump(t, k, w)) == Sum(t) + w
  {
    if t != [] {
      if t[0].0 == k {
        assert Bump(t, k, w)[1..] == t[1..];
      } else {
        BumpSum(t[1..], k, w);
        assert Bump(t, k, w)[1..] == Bump(t[1..], k, w);
      }
    }
  }

  lemma {:induction false} BumpKeys<K>(t: Assoc<K>, k: K, w: int)
    ensures Keys(Bump(t, k, w)) == if k in Keys(t) then Keys(t) else Keys(t) + [k]
  {
    if t != [] {
      if t[0].0 == k {
        assert Bump(t, k, w)[1..] == t[1..];
      } else {
        var rest := Bump(t[1..], k, w);
        BumpKeys(t[1..], k, w);
        assert Bump(t, k, w) == [t[0]] + rest;
        assert Keys(Bump(t, k, w)) == [t[0].0] + Keys(rest);
        assert Keys(t) == [t[0].0] + Keys(t[1..]);
        assert k in Keys(t) <==> k in Keys(t[1..]);
      }
    }
  }

  lemma BumpDistinct<K>(t: Assoc<K>, k: K, w: int)
    requires DistinctKeys(t)
    ensures DistinctKeys(Bump(t, k, w))
  {
    BumpKeys(t, k, w);
    var r := Bump(t, k, w);
    assert Keys(r) == if k in Keys(t) then Keys(t) else Keys(t) + [k];
    forall i, j | 0 <= i < j < |r| ensures r[i].0 != r[j].0 {
      assert Keys(r)[i] == r[i].0 && Keys(r)[j] == r[j].0;
    }
  }

  /** The object that `forEach` or `reduce` builds from the (key, weight)
      pairs, taken in order. */
  function Accumulate<K(==)>(kvs: seq<(K, int)>): Assoc<K> {
    if kvs == [] then []
    else
      var last := kvs[|kvs| - 1];
      Bump(Accumulate(kvs[..|kvs| - 1]), last.0, last.1)
  }

  /** The total of all weights. */
  function Weights<K>(kvs: seq<(K, int)>): int {
    if kvs == [] then 0 else Weights(kvs[..|kvs| - 1]) + kvs[|kvs| - 1].1
  }

  /** The total of the weights paired with `k`. */
  function WeightOf<K(==)>(kvs: seq<(K, int)>, k: K): int {
    if kvs == [] then 0
    else WeightOf(kvs[..|kvs| - 1], k) + (if kvs[|kvs| - 1].0 == k then kvs[|kvs| - 1].1 else 0)
  }

  /** Conservation: the accumulated values add up to the total weight. */
  lemma {:induction false} AccumulateSum<K>(kvs: seq<(K, int)>)
    ensures Sum(Accumulate(kvs)) == Weights(kvs)
  {
    if kvs != [] {
      AccumulateSum(kvs[..|kvs| - 1]);
      BumpSum(Accumulate(kvs[..|kvs| - 1]), kvs[|kvs| - 1].0, kvs[|kvs| - 1].1);
    }
  }

  /** Each key holds exactly the weights paired with it. */
  lemma {:induction false} AccumulateGet<K>(kvs: seq<(K, int)>, k: K)
    ensures Get(Accumulate(kvs), k) == WeightOf(kvs, k)
  {
    if kvs != [] {
      AccumulateGet(kvs[..|kvs| - 1], k);
      BumpGet(Accumulate(kvs[..|kvs| - 1]), kvs[|kvs| - 1].0, kvs[|kvs| - 1].1, k);
    }
  }

  /** The keys are those that occur among the pairs, each once, in order of
      first occurrence. */
  lemma AccumulateKeys<K>(kvs: seq<(K, int)>, k: K)
    ensures DistinctKeys(Accumulate(kvs))
    ensures k in Keys(Accumulate(kvs)) <==> exists i :: 0 <= i < |kvs| && kvs[i].0 == k
  {
    AccumulateDistinct(kvs);
    AccumulateHas(kvs, k);
  }

  lemma {:induction false} AccumulateDistinct<K>(kvs: seq<(K, int)>)
    ensures DistinctKeys(Accumulate(kvs))
  {
    if kvs != [] {
      var init := kvs[..|kvs| - 1];
      AccumulateDistinct(init);
      BumpDistinct(Accumulate(init), kvs[|kvs| - 1].0, kvs[|kvs| - 1].1);
    }
  }

  lemma {:induction false} AccumulateHas<K>(kvs: seq<(K, int)>, k: K)
    ensures k in Keys(Accumulate(kvs)) <==> exists i :: 0 <= i < |kvs| && kvs[i].0 == k
  {
    if kvs != [] {
      var init := kvs[..|kvs| - 1];
      var last := kvs[|kvs| - 1];
      AccumulateHas(init, k);
      BumpHas(Accumulate(init), last.0, last.1, k);
      if exists i :: 0 <= i < |kvs| && kvs[i].0 == k {
        var i :| 0 <= i < |kvs| && kvs[i].0 == k;
        if i < |init| {
          assert init[i].0 == k;
        }
      }
      if exists i :: 0 <= i < |init| && init[i].0 == k {
        var i :| 0 <= i < |init| && init[i].0 == k;
        assert kvs[i].0 == k;
      }
    }
  }

  lemma BumpHas<K>(t: Assoc<K>, k': K, w: int, k: K)
    ensures k in Keys(Bump(t, k', w)) <==> k in Keys(t) || k == k'
  {
    BumpKeys(t, k', w);
  }

  /** Each key paired with the weight 1: the pairs a count is made of. */
  function Ones<K>(ks: seq<K>): (kvs: seq<(K, int)>)
    ensures |kvs| == |ks|
    ensures forall i :: 0 <= i < |ks| ==> kvs[i] == (ks[i], 1)
  {
    if ks == [] then [] else Ones(ks[..|ks| - 1]) + [(ks[|ks| - 1], 1)]
  }

  /** The counter object a `reduce` builds, one increment per key. */
  function Count<K(==)>(ks: seq<K>): Assoc<K> {
    Accumulate(Ones(ks))
  }

  /** Conservation: the counts add up to the number of keys counted. */
  lemma {:induction false} CountSum<K>(ks: seq<K>)
    ensures Sum(Count(ks)) == |ks|
  {
    AccumulateSum(Ones(ks));
    OnesWeights(ks);
  }

  lemma {:induction false} OnesWeights<K>(ks: seq<K>)
    ensures Weights(Ones(ks)) == |ks|
  {
    if ks != [] {
      OnesWeights(ks[..|ks| - 1]);
      assert Ones(ks)[..|ks| - 1] == Ones(ks[..|ks| - 1]);
    }
  }

  lemma {:induction false} OnesWeightOf<K>(ks: seq<K>, k: K)
    ensures WeightOf(Ones(ks), k) == multiset(ks)[k]
  {
    if ks != [] {
      var init := ks[..|ks| - 1];
      OnesWeightOf(init, k);
      assert Ones(ks)[..|ks| - 1] == Ones(init);
      assert ks == init + [ks[|ks| - 1]];
    }
  }

  /** Each key's count is its number of occurrences. */
  lemma CountGet<K>(ks: seq<K>, k: K)
    ensures Get(Count(ks), k) == multiset(ks)[k]
  {
    AccumulateGet(Ones(ks), k);
    OnesWeightOf(ks, k);
  }

  /** The counter's keys are the distinct keys counted. */
  lemma CountKeys<K>(ks: seq<K>, k: K)
    ensures DistinctKeys(Count(ks))
    ensures k in Keys(Count(ks)) <==> k in ks
  {
    AccumulateKeys(Ones(ks), k);
    if k in ks {
      var i :| 0 <= i < |ks| && ks[i] == k;
      assert Ones(ks)[i].0 == k;
    }
  }

  /** One more pair bumps its key: the step a loop over the pairs takes. */
  lemma AccumulateSnoc<K>(kvs: seq<(K, int)>, k: K, w: int)
    ensures Accumulate(kvs + [(k, w)]) == Bump(Accumulate(kvs), k, w)
  {
    assert (kvs + [(k, w)])[..|kvs|] == kvs;
  }

  /** One more key adds 1 to its count. */
  lemma CountSnoc<K>(ks: seq<K>, k: K)
    ensures Count(ks + [k]) == Bump(Count(ks), k, 1)
  {
    assert (ks + [k])[..|ks|] == ks;
    assert Ones(ks + [k]) == Ones(ks) + [(k, 1)];
    AccumulateSnoc(Ones(ks), k, 1);
  }

  lemma WeightsSnoc<K>(kvs: seq<(K, int)>, k: K, w: int)
    ensures Weights(kvs + [(k, w)]) == Weights(kvs) + w
  {
    assert (kvs + [(k, w)])[..|kvs|] == kvs;
  }

  predicate Distinct<K(==)>(ks: seq<K>) {
    forall i, j :: 0 <= i < j < |ks| ==> ks[i] != ks[j]
  }

  /** `ks.map(k => acc[k] || 0)` added up. */
  function SumAt<K(==)>(t: Assoc<K>, ks: seq<K>): int {
    if ks == [] then 0 else Get(t, ks[0]) + SumAt(t, ks[1..])
  }

  lemma {:induction false} GetAbsent<K>(t: Assoc<K>, k: K)
    requires forall i :: 0 <= i < |t| ==> t[i].0 != k
    ensures Get(t, k) == 0
  {
    if t != [] {
      GetAbsent(t[1..], k);
    }
  }

  lemma {:induction false} SumAtEmpty<K>(ks: seq<K>)
    ensures SumAt([], ks) == 0
  {
    if ks != [] {
      SumAtEmpty(ks[1..]);
    }
  }

  lemma {:induction false} SumAtShift<K>(t1: Assoc<K>, t2: Assoc<K>, ks: seq<K>, k0: K, v0: int)
    requires Distinct(ks)
    requires forall x :: Get(t1, x) == Get(t2, x) + (if x == k0 then v0 else 0)
    ensures SumAt(t1, ks) == SumAt(t2, ks) + (if k0 in ks then v0 else 0)
  {
    if ks != [] {
      SumAtShift(t1, t2, ks[1..], k0, v0);
      assert ks == [ks[0]] + ks[1..];
    }
  }

  /** Reading a counter at a list of distinct keys that covers all of its
      keys gives back its whole sum. */
  lemma {:induction false} SumAtCovering<K>(t: Assoc<K>, ks: seq<K>)
    requires DistinctKeys(t) && Distinct(ks)
    requires forall i :: 0 <= i < |t| ==> t[i].0 in ks
    ensures SumAt(t, ks) == Sum(t)
  {
    if t == [] {
      SumAtEmpty(ks);
    } else {
      var rest := t[1..];
      assert forall i :: 0 <= i < |rest| ==> rest[i] == t[i + 1];
      SumAtCovering(rest, ks);
      GetAbsent(rest, t[0].0);
      forall x ensures Get(t, x) == Get(rest, x) + (if x == t[0].0 then t[0].1 else 0) {
      }
      SumAtShift(t, rest, ks, t[0].0, t[0].1);
    }
  }

  /** `ks.map(k => acc[k] || 0)`: one value per key, 0 where there is none. */
  function Column<K(==)>(t: Assoc<K>, ks: seq<K>): (r: seq<int>)
    ensures |r| == |ks|
    ensures forall i :: 0 <= i < |ks| ==> r[i] == Get(t, ks[i])
  {
    if ks == [] then [] else [Get(t, ks[0])] + Column(t, ks[1..])
  }

  function Total(xs: seq<int>): int {
    if xs == [] then 0 else xs[0] + Total(xs[1..])
  }

  lemma {:induction false} ColumnTotal<K>(t: Assoc<K>, ks: seq<K>)
    ensures Total(Column(t, ks)) == SumAt(t, ks)
  {
    if ks != [] {
      ColumnTotal(t, ks[1..]);
    }
  }
}
