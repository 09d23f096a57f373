/** Counters as what they count: how many entries of a map satisfy a predicate. */
module Counting {
  function Bit(b: bool): nat {
    if b then 1 else 0
  }

  function Having<K, V>(m: map<K, V>, p: V -> bool): set<K> {
    set k | k in m && p(m[k])
  }

  function Count<K, V>(m: map<K, V>, p: V -> bool): nat {
    |Having(m, p)|
  }

  lemma HavingSet<K, V>(m: map<K, V>, k: K, v: V, p: V -> bool)
    ensures Having(m[k := v], p) == if p(v) then Having(m, p) + {k} else Having(m, p) - {k}
  {
  }

  /** Setting one entry changes a count by that entry alone. */
  lemma CountSet<K, V>(m: map<K, V>, k: K, v: V, p: V -> bool)
    ensures Count(m[k := v], p) == Count(m, p) + Bit(p(v)) - Bit(k in m && p(m[k]))
  {
    var before, after := Having(m, p), Having(m[k := v], p);
    assert after - {k} == before - {k};
    assert k in after <==> p(v);
    assert k in before <==> k in m && p(m[k]);
    assert |after| == |after - {k}| + Bit(k in after);
    assert |before| == |before - {k}| + Bit(k in before);
  }

  lemma CountOne<K, V>(m: map<K, V>, k: K, p: V -> bool)
    requires k in m && p(m[k])
    ensures Count(m, p) > 0
  {
    assert k in Having(m, p);
  }

  lemma CountZero<K, V>(m: map<K, V>, p: V -> bool)
    requires Count(m, p) == 0
    ensures forall k :: k in m ==> !p(m[k])
  {
    assert Having(m, p) == {};
    forall k | k in m ensures !p(m[k]) { assert k !in Having(m, p); }
  }

  lemma CountNone<K, V>(m: map<K, V>, p: V -> bool)
    requires forall k :: k in m ==> !p(m[k])
    ensures Count(m, p) == 0
  {
    assert Having(m, p) == {};
  }

  /** A predicate that is the disjoint union of two others counts as both. */
  lemma CountSplit<K, V>(m: map<K, V>, p: V -> bool, q: V -> bool, r: V -> bool)
    requires forall k :: k in m ==> p(m[k]) == (q(m[k]) || r(m[k])) && !(q(m[k]) && r(m[k]))
    ensures Count(m, p) == Count(m, q) + Count(m, r)
  {
    assert Having(m, p) == Having(m, q) + Having(m, r);
    assert Having(m, q) !! Having(m, r);
  }
}
