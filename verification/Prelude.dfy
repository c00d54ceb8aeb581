/** Small vocabulary shared by every module of the model. */
module Prelude {
  datatype Option<+T> = None | Some(value: T)
}

/** Sums of weights over finite sets: what the stored counters of an event cache. */
module Tallies {
  /** The total weight of `keys`, taken in any order. */
  ghost function Total<K>(keys: set<K>, weight: map<K, nat>): nat
    requires keys <= weight.Keys
  {
    if keys == {} then 0
    else
      var k :| k in keys;
      weight[k] + Total(keys - {k}, weight)
  }

  /** The order of summation does not matter: any element may be taken out first. */
  lemma {:induction false} TotalTakesOut<K>(keys: set<K>, weight: map<K, nat>, k: K)
    requires keys <= weight.Keys && k in keys
    ensures Total(keys, weight) == weight[k] + Total(keys - {k}, weight)
    decreases keys
  {
    var first :| first in keys && Total(keys, weight) == weight[first] + Total(keys - {first}, weight);
    if first != k {
      TotalTakesOut(keys - {first}, weight, k);
      TotalTakesOut(keys - {k}, weight, first);
      assert keys - {first} - {k} == keys - {k} - {first};
    }
  }

  /** Adds the weights up, in whatever order the keys come. */
  method SumUp<K(==)>(keys: set<K>, weight: map<K, nat>) returns (sum: nat)
    requires keys <= weight.Keys
    ensures sum == Total(keys, weight)
  {
    var left := keys;
    sum := 0;
    while left != {}
      invariant left <= keys
      invariant sum + Total(left, weight) == Total(keys, weight)
      decreases left
    {
      var k :| k in left;
      TotalTakesOut(left, weight, k);
      sum := sum + weight[k];
      left := left - {k};
    }
  }

  lemma {:induction false} TotalOfUnion<K>(a: set<K>, b: set<K>, weight: map<K, nat>)
    requires a <= weight.Keys && b <= weight.Keys && a !! b
    ensures Total(a + b, weight) == Total(a, weight) + Total(b, weight)
    decreases b
  {
    if b == {} {
      assert a + b == a;
    } else {
      var k :| k in b;
      TotalTakesOut(a + b, weight, k);
      TotalTakesOut(b, weight, k);
      TotalOfUnion(a, b - {k}, weight);
      assert a + b - {k} == a + (b - {k});
    }
  }

  /** Only the weights of the summed keys matter. */
  lemma {:induction false} TotalFrame<K>(keys: set<K>, v: map<K, nat>, w: map<K, nat>)
    requires keys <= v.Keys && keys <= w.Keys
    requires forall k :: k in keys ==> v[k] == w[k]
    ensures Total(keys, v) == Total(keys, w)
    decreases keys
  {
    if keys != {} {
      var k :| k in keys;
      TotalTakesOut(keys, v, k);
      TotalTakesOut(keys, w, k);
      TotalFrame(keys - {k}, v, w);
    }
  }

  lemma TotalOfSubset<K>(part: set<K>, whole: set<K>, weight: map<K, nat>)
    requires part <= whole <= weight.Keys
    ensures Total(whole, weight) == Total(part, weight) + Total(whole - part, weight)
    ensures Total(part, weight) <= Total(whole, weight)
  {
    TotalOfUnion(part, whole - part, weight);
    assert part + (whole - part) == whole;
  }

  lemma {:induction false} SubsetSize<K>(part: set<K>, whole: set<K>)
    requires part <= whole
    ensures |part| <= |whole|
    ensures |whole - part| == |whole| - |part|
    ensures |part| == |whole| <==> part == whole
  {
    assert whole == part + (whole - part);
    assert |whole| == |part| + |whole - part|;
    if |part| == |whole| {
      assert whole - part == {};
    }
  }
}
