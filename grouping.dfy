/** A JavaScript object whose values are records, filled by a `reduce` that
    creates a key's record on first sight and then updates it:
    `if (!acc[k]) acc[k] = init; ...update acc[k]...`. Keys keep insertion
    order, so it is an association list with distinct keys, as in Tally. */
module Grouping {
  import opened Wrappers
  import opened Tally

  type Table<K, V> = seq<(K, V)>

  /** Where `k` sits, if anywhere. */
  function IndexOf<K(==), V>(t: Table<K, V>, k: K): (r: Option<nat>)
    ensures r.Some? ==> r.value < |t| && t[r.value].0 == k
    ensures r.Some? ==> forall j :: 0 <= j < r.value ==> t[j].0 != k
    ensures r.None? ==> forall j :: 0 <= j < |t| ==> t[j].0 != k
  {
    if t == [] then None
    else if t[0].0 == k then Some(0)
    else match IndexOf(t[1..], k)
      case None => None
      case Some(j) => Some(j + 1)
  }

  /** The table after one item: `step` applied to the record under `k`,
      which starts as `init` when `k` is new and then goes to the end. */
  function Upsert<K(==), V>(t: Table<K, V>, k: K, init: V, step: V -> V): Table<K, V> {
    if t == [] then [(k, step(init))]
    else if t[0].0 == k then [(k, step(t[0].1))] + t[1..]
    else [t[0]] + Upsert(t[1..], k, init, step)
  }

  /** An existing key's record is updated where it is. */
  lemma {:induction false} UpsertFound<K, V>(t: Table<K, V>, k: K, init: V, step: V -> V)
    requires IndexOf(t, k).Some?
    ensures var j := IndexOf(t, k).value;
      Upsert(t, k, init, step) == t[j := (k, step(t[j].1))]
  {
    if t[0].0 != k {
      UpsertFound(t[1..], k, init, step);
    }
  }

  /** A new key's record goes to the end. */
  lemma {:induction false} UpsertNew<K, V>(t: Table<K, V>, k: K, init: V, step: V -> V)
    requires IndexOf(t, k).None?
    ensures Upsert(t, k, init, step) == t + [(k, step(init))]
  {
    if t != [] {
      UpsertNew(t[1..], k, init, step);
    }
  }

  /** One numeric field of every record, as a counter object. */
  function Project<K, V>(t: Table<K, V>, f: V -> int): (r: Assoc<K>)
    ensures |r| == |t|
    ensures forall i :: 0 <= i < |t| ==> r[i] == (t[i].0, f(t[i].1))
  {
    seq(|t|, i requires 0 <= i < |t| => (t[i].0, f(t[i].1)))
  }

  /** When a step adds `w` to a field that starts at 0, that field's
      projection is a counter bumped by `w`. */
  lemma {:induction false} ProjectUpsert<K, V>(t: Table<K, V>, k: K, init: V, step: V -> V, f: V -> int, w: int)
    requires f(init) == 0
    requires forall v :: f(step(v)) == f(v) + w
    ensures Project(Upsert(t, k, init, step), f) == Bump(Project(t, f), k, w)
  {
    if t != [] {
      if t[0].0 != k {
        ProjectUpsert(t[1..], k, init, step, f, w);
        assert Project(t, f)[1..] == Project(t[1..], f);
      } else {
        assert Project(t, f)[1..] == Project(t[1..], f);
      }
    }
  }

  function TableKeys<K, V>(t: Table<K, V>): (ks: seq<K>)
    ensures |ks| == |t|
    ensures forall i :: 0 <= i < |t| ==> ks[i] == t[i].0
  {
    seq(|t|, i requires 0 <= i < |t| => t[i].0)
  }

  /** `items.reduce((acc, x) => { if (!acc[key(x)]) acc[key(x)] = init;
      ...step(x) on acc[key(x)]...; return acc }, {})`. */
  function GroupBy<T, K(==), V>(items: seq<T>, key: T -> K, init: V, step: T -> V -> V): Table<K, V> {
    if items == [] then []
    else
      var n := |items| - 1;
      Upsert(GroupBy(items[..n], key, init, step), key(items[n]), init, step(items[n]))
  }

  lemma GroupByPrefix<T, K, V>(items: seq<T>, i: nat, key: T -> K, init: V, step: T -> V -> V)
    requires i < |items|
    ensures GroupBy(items[..i + 1], key, init, step) ==
            Upsert(GroupBy(items[..i], key, init, step), key(items[i]), init, step(items[i]))
  {
    assert items[..i + 1][..i] == items[..i];
  }

  /** Each item's key paired with its weight. */
  function Weighed<T, K>(items: seq<T>, key: T -> K, w: T -> int): (r: seq<(K, int)>)
    ensures |r| == |items|
    ensures forall i :: 0 <= i < |items| ==> r[i] == (key(items[i]), w(items[i]))
  {
    seq(|items|, i requires 0 <= i < |items| => (key(items[i]), w(items[i])))
  }

  /** A field that starts at 0 and that each item's step raises by the
      item's weight is, over the whole table, the counter of those weights. */
  lemma {:induction false} GroupByProject<T, K, V>(items: seq<T>, key: T -> K, init: V, step: T -> V -> V,
                                                   f: V -> int, w: T -> int)
    requires f(init) == 0
    requires forall x, v :: f(step(x)(v)) == f(v) + w(x)
    ensures Project(GroupBy(items, key, init, step), f) == Accumulate(Weighed(items, key, w))
  {
    if items != [] {
      var n := |items| - 1;
      var x := items[n];
      GroupByProject(items[..n], key, init, step, f, w);
      ProjectUpsert(GroupBy(items[..n], key, init, step), key(x), init, step(x), f, w(x));
      assert Weighed(items, key, w)[..n] == Weighed(items[..n], key, w);
    }
  }

  /** The keys of the table are distinct and are exactly the items' keys. */
  lemma {:induction false} GroupByKeys<T, K, V>(items: seq<T>, key: T -> K, init: V, step: T -> V -> V, k: K)
    ensures var t := GroupBy(items, key, init, step);
      && (forall i, j :: 0 <= i < j < |t| ==> t[i].0 != t[j].0)
      && (k in TableKeys(t) <==> exists i :: 0 <= i < |items| && key(items[i]) == k)
  {
    var f := (v: V) => 0;
    var w := (x: T) => 0;
    GroupByProject(items, key, init, step, f, w);
    AccumulateKeys(Weighed(items, key, w), k);
    var t := GroupBy(items, key, init, step);
    assert Keys(Project(t, f)) == TableKeys(t);
    if k in TableKeys(t) {
      var i :| 0 <= i < |Weighed(items, key, w)| && Weighed(items, key, w)[i].0 == k;
      assert key(items[i]) == k;
    }
  }

  /** `Object.keys({...a, ...b})`: the keys of `a`, then those of `b` that
      `a` lacks, in order. */
  function MergeKeys<K(==)>(a: seq<K>, b: seq<K>): (r: seq<K>)
    ensures forall i :: 0 <= i < |r| ==> r[i] in a || r[i] in b
    ensures forall i :: 0 <= i < |b| ==> b[i] in r
    ensures Distinct(a) ==> Distinct(r)
    ensures |a| <= |r| && r[..|a|] == a
    decreases |b|
  {
    if b == [] then a
    else
      var a' := if b[0] in a then a else a + [b[0]];
      var r := MergeKeys(a', b[1..]);
      assert b[0] in r by {
        assert b[0] in a' && r[..|a'|] == a';
      }
      assert a'[..|a|] == a;
      r
  }

  /** `Object.values(acc)`. */
  function TableValues<K, V>(t: Table<K, V>): (vs: seq<V>)
    ensures |vs| == |t|
    ensures forall i :: 0 <= i < |t| ==> vs[i] == t[i].1
  {
    seq(|t|, i requires 0 <= i < |t| => t[i].1)
  }

  /** A property that the initial record has and every step keeps holds
      of every record in the table. */
  lemma UpsertKeeps<K, V>(t: Table<K, V>, k: K, init: V, step: V -> V, P: V -> bool)
    requires P(init) && forall v :: P(v) ==> P(step(v))
    requires forall i :: 0 <= i < |t| ==> P(t[i].1)
    ensures forall i :: 0 <= i < |Upsert(t, k, init, step)| ==> P(Upsert(t, k, init, step)[i].1)
  {
    match IndexOf(t, k)
    case None => UpsertNew(t, k, init, step);
    case Some(j) => UpsertFound(t, k, init, step);
  }

  lemma {:induction false} GroupByKeeps<T, K, V>(items: seq<T>, key: T -> K, init: V, step: T -> V -> V, P: V -> bool)
    requires P(init) && forall x, v :: P(v) ==> P(step(x)(v))
    ensures forall i :: 0 <= i < |GroupBy(items, key, init, step)| ==> P(GroupBy(items, key, init, step)[i].1)
  {
    if items != [] {
      var n := |items| - 1;
      var t := GroupBy(items[..n], key, init, step);
      GroupByKeeps(items[..n], key, init, step, P);
      assert forall i :: 0 <= i < |t| ==> P(t[i].1);
      UpsertKeeps(t, key(items[n]), init, step(items[n]), P);
    }
  }

  /** A table has at most one record per item. */
  lemma {:induction false} GroupBySize<T, K, V>(items: seq<T>, key: T -> K, init: V, step: T -> V -> V)
    ensures |GroupBy(items, key, init, step)| <= |items|
  {
    if items != [] {
      var n := |items| - 1;
      var t := GroupBy(items[..n], key, init, step);
      GroupBySize(items[..n], key, init, step);
      match IndexOf(t, key(items[n]))
      case None => UpsertNew(t, key(items[n]), init, step(items[n]));
      case Some(j) => UpsertFound(t, key(items[n]), init, step(items[n]));
    }
  }

  function One<T>(x: T): int {
    1
  }

  lemma {:induction false} WeighedOnes<T, K>(items: seq<T>, key: T -> K)
    ensures Weights(Weighed(items, key, One)) == |items|
  {
    if items != [] {
      var n := |items| - 1;
      WeighedOnes(items[..n], key);
      assert Weighed(items, key, One)[..n] == Weighed(items[..n], key, One);
    }
  }

  /** Every key of the table is among the labels. */
  predicate Covers<K(==), V>(t: Table<K, V>, labels: seq<K>) {
    forall i :: 0 <= i < |t| ==> t[i].0 in labels
  }

  /** A chart series read off a table at labels that list every key of the
      table once adds up to the total weight of the items. */
  lemma SeriesTotal<T, K, V>(items: seq<T>, key: T -> K, init: V, step: T -> V -> V,
                             f: V -> int, w: T -> int, labels: seq<K>)
    requires f(init) == 0
    requires forall x, v :: f(step(x)(v)) == f(v) + w(x)
    requires Distinct(labels) && Covers(GroupBy(items, key, init, step), labels)
    ensures Total(Column(Project(GroupBy(items, key, init, step), f), labels)) == Weights(Weighed(items, key, w))
  {
    var t := GroupBy(items, key, init, step);
    if |t| > 0 {
      GroupByKeys(items, key, init, step, t[0].0);
    }
    ColumnTotal(Project(t, f), labels);
    SumAtCovering(Project(t, f), labels);
    GroupByProject(items, key, init, step, f, w);
    AccumulateSum(Weighed(items, key, w));
  }

  lemma GroupByDistinct<T, K, V>(items: seq<T>, key: T -> K, init: V, step: T -> V -> V)
    ensures Distinct(TableKeys(GroupBy(items, key, init, step)))
  {
    var t := GroupBy(items, key, init, step);
    if |t| > 0 {
      GroupByKeys(items, key, init, step, t[0].0);
    }
  }

  /** Merging the keys of three tables, the first with distinct keys,
      gives distinct labels that cover all three. */
  lemma MergeCovers<K, V1, V2, V3>(a: Table<K, V1>, b: Table<K, V2>, c: Table<K, V3>)
    requires Distinct(TableKeys(a))
    ensures Distinct(MergeKeys(MergeKeys(TableKeys(a), TableKeys(b)), TableKeys(c)))
    ensures Covers(a, MergeKeys(MergeKeys(TableKeys(a), TableKeys(b)), TableKeys(c)))
    ensures Covers(b, MergeKeys(MergeKeys(TableKeys(a), TableKeys(b)), TableKeys(c)))
    ensures Covers(c, MergeKeys(MergeKeys(TableKeys(a), TableKeys(b)), TableKeys(c)))
  {
    var inner := MergeKeys(TableKeys(a), TableKeys(b));
    var labels := MergeKeys(inner, TableKeys(c));
    assert inner[..|TableKeys(a)|] == TableKeys(a);
    assert labels[..|inner|] == inner;
    forall i | 0 <= i < |a| ensures a[i].0 in labels {
      assert a[i].0 == inner[i] == labels[i];
    }
    forall i | 0 <= i < |b| ensures b[i].0 in labels {
      assert TableKeys(b)[i] in inner;
    }
    forall i | 0 <= i < |c| ensures c[i].0 in labels {
      assert TableKeys(c)[i] in labels;
    }
  }
}
