/** The traffic store: byte totals per tunnel, fed by streams that end in any order, written to disk and read back. */
module Traffic {
  datatype Key = Key(slug: string, name: string)
  datatype Counts = Counts(bytesIn: nat, bytesOut: nat)
  datatype Report = Report(key: Key, counts: Counts)

  const NONE := Counts(0, 0)

  function Plus(a: Counts, b: Counts): Counts {
    Counts(a.bytesIn + b.bytesIn, a.bytesOut + b.bytesOut)
  }

  function Get(m: map<Key, Counts>, k: Key): Counts {
    if k in m then m[k] else NONE
  }

  // What the store should hold.

  /** What the reports say about one tunnel, in total. */
  function Sum(reports: seq<Report>, k: Key): Counts {
    if |reports| == 0 then NONE
    else Plus(Sum(reports[..|reports| - 1], k), if reports[|reports| - 1].key == k then reports[|reports| - 1].counts else NONE)
  }

  /** One recorded report; a tunnel without a slug is not billed to anyone. */
  function Add(m: map<Key, Counts>, r: Report): map<Key, Counts> {
    if r.key.slug == "" then m else m[r.key := Plus(Get(m, r.key), r.counts)]
  }

  function AddAll(m: map<Key, Counts>, reports: seq<Report>): map<Key, Counts> {
    if |reports| == 0 then m else Add(AddAll(m, reports[..|reports| - 1]), reports[|reports| - 1])
  }

  lemma PlusLaws(a: Counts, b: Counts, c: Counts)
    ensures Plus(a, NONE) == a && Plus(Plus(a, b), c) == Plus(a, Plus(b, c))
  {
  }

  lemma AddOne(m: map<Key, Counts>, r: Report, k: Key)
    ensures Get(Add(m, r), k) == if r.key == k && k.slug != "" then Plus(Get(m, k), r.counts) else Get(m, k)
  {
  }

  /** The billed tunnels some report names. */
  function Named(reports: seq<Report>): set<Key> {
    set r | r in reports && r.key.slug != "" :: r.key
  }

  /** The last report adds to its own tunnel alone. */
  lemma LastReport(m: map<Key, Counts>, reports: seq<Report>, k: Key)
    requires k.slug != "" && |reports| > 0
    ensures var rest, last := reports[..|reports| - 1], reports[|reports| - 1];
            Get(AddAll(m, reports), k) == Plus(Get(AddAll(m, rest), k), if last.key == k then last.counts else NONE)
  {
    var rest, last := reports[..|reports| - 1], reports[|reports| - 1];
    AddOne(AddAll(m, rest), last, k);
    PlusLaws(Get(AddAll(m, rest), k), NONE, NONE);
  }

  /** Conservation: after any reports, every tunnel with a slug holds what it held plus the sum of its reports. */
  lemma {:induction false} Conserved(m: map<Key, Counts>, reports: seq<Report>, k: Key)
    requires k.slug != ""
    ensures Get(AddAll(m, reports), k) == Plus(Get(m, k), Sum(reports, k))
  {
    if |reports| == 0 {
      PlusLaws(Get(m, k), NONE, NONE);
    } else {
      var rest, last := reports[..|reports| - 1], reports[|reports| - 1];
      Conserved(m, rest, k);
      LastReport(m, reports, k);
      PlusLaws(Get(m, k), Sum(rest, k), if last.key == k then last.counts else NONE);
    }
  }

  /** And a tunnel without one never changes. */
  lemma {:induction false} Unbilled(m: map<Key, Counts>, reports: seq<Report>, k: Key)
    requires k.slug == ""
    ensures Get(AddAll(m, reports), k) == Get(m, k)
  {
    if |reports| > 0 {
      var rest, last := reports[..|reports| - 1], reports[|reports| - 1];
      Unbilled(m, rest, k);
      AddOne(AddAll(m, rest), last, k);
    }
  }

  /** The store gains exactly the billed tunnels that were reported. */
  lemma {:induction false} KeysGained(m: map<Key, Counts>, reports: seq<Report>)
    ensures AddAll(m, reports).Keys == m.Keys + Named(reports)
  {
    if |reports| > 0 {
      var rest, last := reports[..|reports| - 1], reports[|reports| - 1];
      KeysGained(m, rest);
      assert reports == rest + [last];
      assert Named(reports) == Named(rest) + if last.key.slug == "" then {} else {last.key};
    }
  }

  /** Moving the report at `i` to the end does not change a sum. */
  lemma {:induction false} SumWithout(reports: seq<Report>, i: nat, k: Key)
    requires i < |reports|
    ensures Sum(reports, k) == Plus(Sum(reports[..i] + reports[i + 1..], k), if reports[i].key == k then reports[i].counts else NONE)
  {
    var without := reports[..i] + reports[i + 1..];
    if i == |reports| - 1 {
      assert without == reports[..i];
    } else {
      var rest := reports[..|reports| - 1];
      SumWithout(rest, i, k);
      assert rest[..i] + rest[i + 1..] == without[..|without| - 1];
      assert without[|without| - 1] == reports[|reports| - 1];
    }
  }

  /** Removing one and the same report from both leaves the same multiset. */
  lemma RemoveBoth(a: seq<Report>, b: seq<Report>, n: nat, i: nat)
    requires multiset(a) == multiset(b) && n < |a| && i < |b| && a[n] == b[i]
    ensures multiset(a[..n] + a[n + 1..]) == multiset(b[..i] + b[i + 1..])
  {
    assert a == a[..n] + [a[n]] + a[n + 1..];
    assert b == b[..i] + [b[i]] + b[i + 1..];
    assert multiset(a) == multiset(a[..n] + a[n + 1..]) + multiset{a[n]};
    assert multiset(b) == multiset(b[..i] + b[i + 1..]) + multiset{a[n]};
    assert multiset(a[..n] + a[n + 1..]) == multiset(a) - multiset{a[n]};
  }

  lemma {:induction false} SumIgnoresOrder(a: seq<Report>, b: seq<Report>, k: Key)
    requires multiset(a) == multiset(b)
    ensures Sum(a, k) == Sum(b, k)
    decreases |a|
  {
    if |a| == 0 {
      assert |multiset(b)| == 0;
    } else {
      assert a[0] in multiset(b);
      var i :| 0 <= i < |b| && b[i] == a[0];
      RemoveBoth(a, b, 0, i);
      SumIgnoresOrder(a[..0] + a[1..], b[..i] + b[i + 1..], k);
      SumWithout(a, 0, k);
      SumWithout(b, i, k);
    }
  }

  /** The order in which streams end does not matter: the store ends up the same. */
  lemma OrderDoesNotMatter(m: map<Key, Counts>, a: seq<Report>, b: seq<Report>)
    requires multiset(a) == multiset(b)
    ensures AddAll(m, a) == AddAll(m, b)
  {
    KeysGained(m, a);
    KeysGained(m, b);
    assert Named(a) == Named(b) by {
      assert forall r :: r in a <==> r in multiset(a);
      assert forall r :: r in b <==> r in multiset(b);
    }
    forall k | k in AddAll(m, a) ensures AddAll(m, a)[k] == AddAll(m, b)[k] {
      if k.slug == "" {
        Unbilled(m, a, k);
        Unbilled(m, b, k);
      } else {
        Conserved(m, a, k);
        Conserved(m, b, k);
        SumIgnoresOrder(a, b, k);
      }
      assert Get(AddAll(m, a), k) == Get(AddAll(m, b), k);
    }
  }

  // On disk.

  /** A file's records list each tunnel of the store once, in any order. */
  ghost predicate Encodes(recs: seq<Report>, m: map<Key, Counts>) {
    && (forall i, j :: 0 <= i < j < |recs| ==> recs[i].key != recs[j].key)
    && (forall i :: 0 <= i < |recs| ==> recs[i].key in m && m[recs[i].key] == recs[i].counts)
    && (forall k :: k in m ==> exists i :: 0 <= i < |recs| && recs[i].key == k)
  }

  /** What reading records back gives. */
  function LoadAll(recs: seq<Report>): map<Key, Counts> {
    if |recs| == 0 then map[] else LoadAll(recs[..|recs| - 1])[recs[|recs| - 1].key := recs[|recs| - 1].counts]
  }

  lemma {:induction false} LoadedFrom(recs: seq<Report>, k: Key)
    ensures k in LoadAll(recs) ==> exists i :: 0 <= i < |recs| && recs[i] == Report(k, LoadAll(recs)[k])
    ensures (exists i :: 0 <= i < |recs| && recs[i].key == k) ==> k in LoadAll(recs)
  {
    if |recs| > 0 {
      var rest := recs[..|recs| - 1];
      LoadedFrom(rest, k);
      if recs[|recs| - 1].key != k {
        if k in LoadAll(rest) {
          var i :| 0 <= i < |rest| && rest[i] == Report(k, LoadAll(rest)[k]);
          assert recs[i] == rest[i];
        }
        if i :| 0 <= i < |recs| && recs[i].key == k { assert rest[i].key == k; }
      }
    }
  }

  /** Reading back what a flush wrote gives the store that wrote it, whatever the order of the records. */
  lemma FlushThenLoad(recs: seq<Report>, m: map<Key, Counts>)
    requires Encodes(recs, m)
    ensures LoadAll(recs) == m
  {
    forall k ensures k in LoadAll(recs) <==> k in m { LoadedFrom(recs, k); }
    forall k | k in m ensures LoadAll(recs)[k] == m[k] { LoadedFrom(recs, k); }
  }

  class Store {
    var m: map<Key, Counts>
    ghost var since: map<Key, Counts>    // what it held at the start
    ghost var recorded: seq<Report>      // and what was recorded since

    ghost predicate Valid()
      reads this
    {
      m == AddAll(since, recorded)
    }

    /** A store that read its file back. */
    constructor (recs: seq<Report>)
      ensures Valid() && recorded == [] && m == LoadAll(recs)
    {
      var loaded: map<Key, Counts> := map[];
      for i := 0 to |recs|
        invariant loaded == LoadAll(recs[..i])
      {
        assert recs[..i + 1][..i] == recs[..i];
        loaded := loaded[recs[i].key := recs[i].counts];
      }
      assert recs[..|recs|] == recs;
      m, since, recorded := loaded, loaded, [];
    }

    method RecordTraffic(slug: string, name: string, bytesIn: nat, bytesOut: nat)
      requires Valid()
      modifies this
      ensures Valid() && since == old(since)
      ensures recorded == old(recorded) + [Report(Key(slug, name), Counts(bytesIn, bytesOut))]
    {
      recorded := recorded + [Report(Key(slug, name), Counts(bytesIn, bytesOut))];
      assert recorded[..|recorded| - 1] == old(recorded);
      if slug == "" { return; }
      var k := Key(slug, name);
      var c := if k in m then m[k] else NONE;
      m := m[k := Counts(c.bytesIn + bytesIn, c.bytesOut + bytesOut)];
    }

    /** The records a flush writes. */
    method Flush() returns (recs: seq<Report>)
      ensures Encodes(recs, m)
    {
      recs := [];
      var todo := m.Keys;
      while todo != {}
        invariant todo <= m.Keys
        invariant forall i :: 0 <= i < |recs| ==> recs[i].key in m && recs[i].key !in todo && m[recs[i].key] == recs[i].counts
        invariant forall i, j :: 0 <= i < j < |recs| ==> recs[i].key != recs[j].key
        invariant forall k :: k in m && k !in todo ==> exists i :: 0 <= i < |recs| && recs[i].key == k
        decreases |todo|
      {
        var k :| k in todo;
        ghost var before := recs;
        recs := recs + [Report(k, m[k])];
        todo := todo - {k};
        assert recs[|before|].key == k;
        assert forall i :: 0 <= i < |before| ==> recs[i] == before[i];
      }
    }
  }
}
