// How many threads are in a given state, and lists of threads or tasks without repetition.
module Counting {

  function With<V(==)>(m: map<nat, V>, v: V): set<nat> {
    set t | t in m && m[t] == v
  }

  function Count<V(==)>(m: map<nat, V>, v: V): nat {
    |With(m, v)|
  }

  predicate Distinct(ids: seq<nat>) {
    forall i, j :: 0 <= i < j < |ids| ==> ids[i] != ids[j]
  }

  // One thread changes state.
  lemma CountAfter<V>(m: map<nat, V>, t: nat, to: V, v: V)
    requires t in m
    ensures Count(m[t := to], v) == Count(m, v) - (if m[t] == v then 1 else 0) + (if to == v then 1 else 0)
  {
    var rest := With(m, v) - {t};
    assert With(m, v) == rest + if m[t] == v then {t} else {};
    assert With(m[t := to], v) == rest + if to == v then {t} else {};
  }

  // ... and what that does to every count at once.
  lemma CountsAfter<V(!new)>(m: map<nat, V>, t: nat, to: V)
    requires t in m
    ensures |m[t := to]| == |m| && Count(m, m[t]) > 0
    ensures forall v: V {:trigger Count(m[t := to], v)} ::
              Count(m[t := to], v) == Count(m, v) - (if m[t] == v then 1 else 0) + (if to == v then 1 else 0)
  {
    assert m[t := to].Keys == m.Keys;
    CountPositive(m, t);
    forall v: V ensures Count(m[t := to], v) == Count(m, v) - (if m[t] == v then 1 else 0) + (if to == v then 1 else 0) {
      CountAfter(m, t, to, v);
    }
  }

  // A thread is created.
  lemma CountAdded<V>(m: map<nat, V>, t: nat, to: V, v: V)
    requires t !in m
    ensures Count(m[t := to], v) == Count(m, v) + if to == v then 1 else 0
  {
    assert With(m[t := to], v) == With(m, v) + if to == v then {t} else {};
  }

  // A thread is gone.
  lemma CountRemoved<V>(m: map<nat, V>, t: nat, v: V)
    requires t in m
    ensures Count(m - {t}, v) == Count(m, v) - if m[t] == v then 1 else 0
    ensures |m - {t}| == |m| - 1
  {
    assert With(m, v) == With(m - {t}, v) + if m[t] == v then {t} else {};
    assert (m - {t}).Keys == m.Keys - {t};
  }

  // Some thread is in a state that any thread is in.
  lemma SomeWith<V>(m: map<nat, V>, v: V) returns (t: nat)
    requires Count(m, v) > 0
    ensures t in m && m[t] == v
  {
    t :| t in With(m, v);
  }

  lemma CountPositive<V>(m: map<nat, V>, t: nat)
    requires t in m
    ensures Count(m, m[t]) > 0
  {
    assert t in With(m, m[t]);
  }
}
