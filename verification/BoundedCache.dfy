/** A verdict cache with expiry and a cap on its entries, as both the certificate gate and the token store keep. */
module BoundedCache {
  import opened Sets

  datatype Entry<V> = Entry(value: V, expires: int)

  type Cache<V> = map<string, Entry<V>>

  /** The entries whose expiry has not passed. */
  function Unexpired<V>(m: Cache<V>, now: int): Cache<V> {
    map k | k in m && now <= m[k].expires :: m[k]
  }

  ghost predicate SubMap<V>(a: Cache<V>, b: Cache<V>) {
    forall k :: k in a ==> k in b && a[k] == b[k]
  }

  /** What an eviction leaves: no expired entry, nothing new, everything unexpired if that fits in half the cap, and
      else exactly half the cap. */
  ghost predicate Evicted<V(!new)>(m: Cache<V>, now: int, cap: nat, r: Cache<V>) {
    && SubMap(r, Unexpired(m, now))
    && |r| == if |Unexpired(m, now)| <= cap / 2 then |Unexpired(m, now)| else cap / 2
  }

  lemma SubMapSize<V>(a: Cache<V>, b: Cache<V>)
    requires SubMap(a, b)
    ensures |a| <= |b| && (|a| == |b| ==> a == b)
  {
    SubsetSize(a.Keys, b.Keys);
    assert |a.Keys| == |a| && |b.Keys| == |b|;
    if |a| == |b| { assert a.Keys == b.Keys; }
  }

  /** An eviction that did not have to halve keeps every unexpired entry. */
  lemma SmallEvictionKeepsAll<V(!new)>(m: Cache<V>, now: int, cap: nat, r: Cache<V>)
    requires Evicted(m, now, cap, r) && |Unexpired(m, now)| <= cap / 2
    ensures r == Unexpired(m, now)
  {
    SubMapSize(r, Unexpired(m, now));
  }

  /** The eviction loops: expired entries first, then arbitrary ones down to half the cap. */
  method Evict<V(!new)>(m: Cache<V>, now: int, cap: nat) returns (r: Cache<V>)
    ensures Evicted(m, now, cap, r)
  {
    r := m;
    var todo := m.Keys;
    while todo != {}
      invariant todo <= m.Keys && SubMap(r, m) && (forall k :: k in todo ==> k in r)
      invariant forall k :: k in m && k !in todo ==> (k in r <==> now <= m[k].expires)
      decreases |todo|
    {
      var k :| k in todo;
      if now > r[k].expires { r := r - {k}; }
      todo := todo - {k};
    }
    assert r == Unexpired(m, now);
    while |r| > cap / 2
      invariant SubMap(r, Unexpired(m, now))
      invariant |r| <= |Unexpired(m, now)| && (|Unexpired(m, now)| > cap / 2 ==> |r| >= cap / 2)
      invariant |Unexpired(m, now)| <= cap / 2 ==> |r| == |Unexpired(m, now)|
      decreases |r|
    {
      var k :| k in r;
      RemoveOne(r, k);
      r := r - {k};
    }
  }

  lemma RemoveOne<V>(m: Cache<V>, k: string)
    requires k in m
    ensures |m - {k}| == |m| - 1
  {
    assert (m - {k}).Keys == m.Keys - {k};
    assert |m.Keys| == |m| && |(m - {k}).Keys| == |m - {k}|;
  }

  /** Storing after making room keeps the cap. */
  lemma StoreFits<V>(m: Cache<V>, k: string, e: Entry<V>, cap: nat)
    requires |m| < cap
    ensures |m[k := e]| <= cap
  {
    assert m[k := e].Keys == m.Keys + {k};
    assert |m.Keys| == |m| && |m[k := e].Keys| == |m[k := e]|;
  }

  ghost predicate Room<V(!new)>(m: Cache<V>, now: int, cap: nat, room: Cache<V>) {
    if |m| >= cap then Evicted(m, now, cap, room) else room == m
  }

  /** What a store may leave: a full cache makes room first. */
  ghost predicate Stored<V(!new)>(m: Cache<V>, k: string, e: Entry<V>, now: int, cap: nat, r: Cache<V>) {
    exists room :: Room(m, now, cap, room) && r == room[k := e]
  }

  lemma StoredFits<V(!new)>(m: Cache<V>, k: string, e: Entry<V>, now: int, cap: nat, r: Cache<V>)
    requires Stored(m, k, e, now, cap, r) && |m| <= cap && cap > 0
    ensures |r| <= cap && k in r && r[k] == e
    ensures forall x :: x in r && x != k ==> x in m && r[x] == m[x]
  {
    var room :| Room(m, now, cap, room) && r == room[k := e];
    StoreFits(room, k, e, cap);
  }

  method Store<V(!new)>(m: Cache<V>, k: string, e: Entry<V>, now: int, cap: nat) returns (r: Cache<V>)
    ensures Stored(m, k, e, now, cap, r)
  {
    var room := m;
    if |m| >= cap { room := Evict(m, now, cap); }
    assert Room(m, now, cap, room);
    r := room[k := e];
  }
}
