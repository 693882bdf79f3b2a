/** Sizes of sets and maps. */
module Sizes {
  lemma {:induction false} SubsetSize<T>(a: set<T>, b: set<T>)
    requires a <= b
    ensures |a| <= |b|
    decreases |a|
  {
    if a != {} {
      var x :| x in a;
      SubsetSize(a - {x}, b - {x});
    }
  }

  lemma FewerKeys<K, V>(a: map<K, V>, b: map<K, V>, key: K)
    requires a.Keys <= b.Keys && key in b && key !in a
    ensures |a| < |b|
  {
    SubsetSize(a.Keys, b.Keys - {key});
    assert |a.Keys| == |a| && |b.Keys| == |b|;
  }

  lemma DroppedSize<K, V>(m: map<K, V>, key: K)
    requires key in m
    ensures |m - {key}| == |m| - 1
  {
    assert (m - {key}).Keys == m.Keys - {key};
    assert |m.Keys| == |m|;
    assert |(m - {key}).Keys| == |m - {key}|;
  }

  lemma AddedSize<K, V>(m: map<K, V>, key: K, value: V)
    ensures |m[key := value]| == if key in m then |m| else |m| + 1
  {
    assert m[key := value].Keys == m.Keys + {key};
    assert |m.Keys| == |m| && |m[key := value].Keys| == |m[key := value]|;
  }
}
