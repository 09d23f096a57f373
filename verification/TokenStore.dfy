/** Bearer tokens verified by a remote endpoint: what a reply grants, what is cached of it, and which scope a request
    is resolved to. */
module TokenStore {
  import opened Options
  import opened BoundedCache

  const CAP := 4096

  /** The endpoint's answer: no answer or an unexpected status; 401 or 404; or a body. */
  datatype Reply = Transient | Refused | Body(session: bool, slug: string, scopes: seq<string>)

  datatype Result = Result(session: bool, slug: string, scopeSet: set<string>, scopeList: seq<string>, ok: bool)

  const REJECTED := Result(false, "", {}, [], false)

  /** What the endpoint said, read as a permission: a session may use its listed scopes, a key its one slug. */
  predicate Grants(reply: Reply, scope: string) {
    reply.Body? && scope != "" && if reply.session || |reply.scopes| > 0 then scope in reply.scopes else scope == reply.slug
  }

  /** The first scope that is not empty: the default one. */
  function DefaultScope(scopes: seq<string>): string {
    if |scopes| == 0 then "" else if scopes[0] != "" then scopes[0] else DefaultScope(scopes[1..])
  }

  /** The scope a request without one resolves to, or "". */
  function Default(reply: Reply): string {
    if !reply.Body? then ""
    else if reply.session || |reply.scopes| > 0 then DefaultScope(reply.scopes)
    else reply.slug
  }

  /** `res` is what is kept of `reply`. */
  ghost predicate Parsed(reply: Reply, res: Result) {
    && (forall s :: Grants(reply, s) <==> (res.ok && if res.session then s in res.scopeSet else s == res.slug))
    && (res.ok ==> Default(reply) == if res.session then (if |res.scopeList| > 0 then res.scopeList[0] else "") else res.slug)
    && (res.ok && res.session ==> |res.scopeList| > 0 && res.scopeList[0] in res.scopeSet)
    && (!res.ok ==> Default(reply) == "")
  }

  lemma {:induction false} DefaultScopeOfPrefix(scopes: seq<string>, i: nat)
    requires i < |scopes|
    ensures DefaultScope(scopes[..i + 1]) == if DefaultScope(scopes[..i]) != "" then DefaultScope(scopes[..i]) else scopes[i]
  {
    if i > 0 {
      assert scopes[..i + 1][1..] == scopes[1..][..i];
      assert scopes[..i][1..] == scopes[1..][..i - 1];
      DefaultScopeOfPrefix(scopes[1..], i - 1);
    } else {
      assert scopes[..1][1..] == [];
    }
  }

  /** Keeps each scope once, in order, without the empty ones. */
  method Distinct(scopes: seq<string>) returns (seen: set<string>, list: seq<string>)
    ensures forall s :: s in seen <==> s in scopes && s != ""
    ensures |list| > 0 <==> seen != {}
    ensures DefaultScope(scopes) == if |list| > 0 then list[0] else ""
    ensures forall s :: s in list <==> s in seen
    ensures forall i, j :: 0 <= i < j < |list| ==> list[i] != list[j]
  {
    seen, list := {}, [];
    for n := 0 to |scopes|
      invariant forall s :: s in seen <==> s in scopes[..n] && s != ""
      invariant |list| > 0 <==> seen != {}
      invariant DefaultScope(scopes[..n]) == if |list| > 0 then list[0] else ""
      invariant forall s :: s in list <==> s in seen
      invariant forall i, j :: 0 <= i < j < |list| ==> list[i] != list[j]
    {
      DefaultScopeOfPrefix(scopes, n);
      assert scopes[..n + 1] == scopes[..n] + [scopes[n]];
      if |list| > 0 { assert list[0] in seen; }
      if scopes[n] != "" && scopes[n] !in seen {
        seen, list := seen + {scopes[n]}, list + [scopes[n]];
      }
    }
    assert scopes[..|scopes|] == scopes;
  }

  /** The last part of fetch; None is an error that is not cached. */
  method Parse(reply: Reply) returns (r: Option<Result>)
    ensures r == None <==> reply == Transient
    ensures r.Some? ==> Parsed(reply, r.value)
  {
    if reply.Transient? { return None; }
    if reply.Refused? { return Some(REJECTED); }
    if reply.session || |reply.scopes| > 0 {
      var seen, list := Distinct(reply.scopes);
      if |list| > 0 { assert list[0] in seen; }
      return Some(Result(true, "", seen, list, |list| > 0));
    }
    if reply.slug == "" { return Some(REJECTED); }
    return Some(Result(false, reply.slug, {}, [], true));
  }

  /** Authorizes the requested scope against a kept result. */
  function Authorize(res: Result, requested: string): Option<string> {
    if !res.ok then None
    else if res.session then
      if requested == "" then if |res.scopeList| == 0 then None else Some(res.scopeList[0])
      else if requested in res.scopeSet then Some(requested) else None
    else if requested == "" || requested == res.slug then Some(res.slug)
    else None
  }

  /** A request is resolved exactly as the endpoint's reply allows: a named scope to itself when the reply grants it,
      an unnamed one to the default scope when the reply grants anything, and else refused. */
  lemma AuthorizesExactly(reply: Reply, res: Result, requested: string)
    requires Parsed(reply, res)
    ensures requested != "" ==> Authorize(res, requested) == if Grants(reply, requested) then Some(requested) else None
    ensures requested == "" ==> Authorize(res, requested) == if Default(reply) != "" then Some(Default(reply)) else None
    ensures Authorize(res, requested).Some? ==> Grants(reply, Authorize(res, requested).value)
  {
    if res.ok && !res.session { assert Grants(reply, res.slug); }
    if res.ok && res.session { assert Grants(reply, res.scopeList[0]); }
  }

  lemma {:induction false} DefaultScopeIsListed(scopes: seq<string>)
    ensures DefaultScope(scopes) != "" ==> DefaultScope(scopes) in scopes
    ensures DefaultScope(scopes) == "" ==> forall s :: s in scopes ==> s == ""
  {
    if |scopes| > 0 {
      DefaultScopeIsListed(scopes[1..]);
      assert scopes == [scopes[0]] + scopes[1..];
    }
  }

  /** The default is granted, and there is one exactly when something is granted. */
  lemma DefaultIsGranted(reply: Reply)
    ensures Default(reply) != "" ==> Grants(reply, Default(reply))
    ensures (exists s :: Grants(reply, s)) <==> Default(reply) != ""
  {
    if reply.Body? { DefaultScopeIsListed(reply.scopes); }
    if Default(reply) != "" { assert Grants(reply, Default(reply)); }
  }

  // Lookups that overlap: two sections under the lock, with the call to the endpoint between them.

  datatype Ttls = Ttls(positive: nat, negative: nat)

  function TtlOf(t: Ttls, res: Result): nat {
    if res.ok then t.positive else t.negative
  }

  /** What the endpoint said about a token, and when it was stored. */
  datatype Said = Said(token: string, reply: Reply, at: int)

  /** A lookup: asking the endpoint, holding its answer, or returned at `at` with a result that rests on what was
      said, or with a refusal that rests on nothing. */
  datatype Call =
    | Asking(token: string)
    | Fetched(token: string, reply: Reply)
    | Returned(token: string, res: Result, said: Option<Said>, at: int)

  datatype State = State(now: int, cache: Cache<Result>, calls: map<nat, Call>, said: set<Said>)

  datatype Event =
    | Tick(now: int)
    | Look(c: nat, token: string, from: Said)                         // `from` is the reply a cached entry rests on
    | Fetch(c: nat, reply: Reply)
    | GiveUp(c: nat)                                                  // the fetch failed: nothing is kept
    | Keep(c: nat, res: Result, cache: Cache<Result>)

  /** The entry keeps what `w` said, for as long as its kind may be kept. */
  ghost predicate RestsOn(t: Ttls, e: Entry<Result>, w: Said) {
    Parsed(w.reply, e.value) && e.expires == w.at + TtlOf(t, e.value)
  }

  predicate Hit(s: State, token: string) {
    token in s.cache && s.now < s.cache[token].expires
  }

  ghost predicate Enabled(t: Ttls, s: State, e: Event) {
    match e
    case Tick(now) => now >= s.now
    case Look(c, token, from) =>
      c !in s.calls && (Hit(s, token) ==> from in s.said && from.token == token && RestsOn(t, s.cache[token], from))
    case Fetch(c, _) => c in s.calls && s.calls[c].Asking?
    case GiveUp(c) => c in s.calls && s.calls[c].Fetched? && s.calls[c].reply == Transient
    case Keep(c, res, cache) =>
      && c in s.calls && s.calls[c].Fetched? && s.calls[c].reply != Transient && Parsed(s.calls[c].reply, res)
      && Stored(s.cache, s.calls[c].token, Entry(res, s.now + TtlOf(t, res)), s.now, CAP, cache)
  }

  function Apply(t: Ttls, s: State, e: Event): State
    requires Enabled(t, s, e)
  {
    match e
    case Tick(now) => s.(now := now)
    case Look(c, token, from) =>
      s.(calls := s.calls[c := if Hit(s, token) then Returned(token, s.cache[token].value, Some(from), s.now) else Asking(token)])
    case Fetch(c, reply) => s.(calls := s.calls[c := Fetched(s.calls[c].token, reply)])
    case GiveUp(c) => s.(calls := s.calls[c := Returned(s.calls[c].token, REJECTED, None, s.now)])
    case Keep(c, res, cache) =>
      var w := Said(s.calls[c].token, s.calls[c].reply, s.now);
      s.(cache := cache, said := s.said + {w}, calls := s.calls[c := Returned(w.token, res, Some(w), s.now)])
  }

  /** A returned result is what some reply for its token said, no longer ago than it may be kept. */
  ghost predicate FreshCall(t: Ttls, s: State, x: Call) {
    x.Returned? ==>
      if x.said.None? then x.res == REJECTED
      else
        && x.said.value in s.said && x.said.value.token == x.token && Parsed(x.said.value.reply, x.res)
        && x.said.value.at <= x.at <= x.said.value.at + TtlOf(t, x.res)
  }

  ghost predicate Backed(t: Ttls, s: State) {
    && (forall w :: w in s.said ==> w.at <= s.now)
    && (forall token :: token in s.cache ==> BackedEntry(t, s, token))
  }

  ghost predicate BackedEntry(t: Ttls, s: State, token: string)
    requires token in s.cache
  {
    exists w :: w in s.said && w.token == token && RestsOn(t, s.cache[token], w)
  }

  ghost predicate Inv(t: Ttls, s: State) {
    |s.cache| <= CAP && Backed(t, s) && forall c :: c in s.calls ==> FreshCall(t, s, s.calls[c])
  }

  lemma KeepStaysBacked(t: Ttls, s: State, e: Event)
    requires Inv(t, s) && Enabled(t, s, e) && e.Keep?
    ensures var s' := Apply(t, s, e); |s'.cache| <= CAP && Backed(t, s')
  {
    var s' := Apply(t, s, e);
    var x := s.calls[e.c];
    var entry, w := Entry(e.res, s.now + TtlOf(t, e.res)), Said(x.token, x.reply, s.now);
    StoredFits(s.cache, x.token, entry, s.now, CAP, e.cache);
    forall token | token in s'.cache ensures BackedEntry(t, s', token) {
      if token == x.token {
        assert w in s'.said && RestsOn(t, s'.cache[token], w);
      } else {
        assert BackedEntry(t, s, token);
        var v :| v in s.said && v.token == token && RestsOn(t, s.cache[token], v);
        assert v in s'.said;
      }
    }
  }

  lemma StepKeepsInv(t: Ttls, s: State, e: Event)
    requires Inv(t, s) && Enabled(t, s, e)
    ensures Inv(t, Apply(t, s, e))
  {
    var s' := Apply(t, s, e);
    if e.Keep? {
      KeepStaysBacked(t, s, e);
    } else {
      forall token | token in s'.cache ensures BackedEntry(t, s', token) {
        assert BackedEntry(t, s, token);
        var v :| v in s.said && v.token == token && RestsOn(t, s.cache[token], v);
        assert v in s'.said;
      }
    }
    forall c | c in s'.calls ensures FreshCall(t, s', s'.calls[c]) {
      if c in s.calls { assert FreshCall(t, s, s.calls[c]); }
    }
  }

  /** Every hit can be served: the reply it rests on is on record. */
  lemma HitHasReply(t: Ttls, s: State, c: nat, token: string) returns (from: Said)
    requires Inv(t, s) && c !in s.calls
    ensures Enabled(t, s, Look(c, token, from))
  {
    if Hit(s, token) {
      assert BackedEntry(t, s, token);
      from :| from in s.said && from.token == token && RestsOn(t, s.cache[token], from);
    } else {
      from := Said(token, Transient, 0);
    }
  }

  const EMPTY := State(0, map[], map[], {})

  ghost predicate Run(t: Ttls, states: seq<State>, events: seq<Event>) {
    && |states| == |events| + 1 && states[0] == EMPTY
    && forall i :: 0 <= i < |events| ==> Enabled(t, states[i], events[i]) && states[i + 1] == Apply(t, states[i], events[i])
  }

  lemma {:induction false} RunKeepsInv(t: Ttls, states: seq<State>, events: seq<Event>, i: nat)
    requires Run(t, states, events) && i < |states|
    ensures Inv(t, states[i])
  {
    if i > 0 {
      RunKeepsInv(t, states, events, i - 1);
      StepKeepsInv(t, states[i - 1], events[i - 1]);
    }
  }

  /** In every state of every run of overlapping lookups: the cache is within its cap, and a scope that a request
      resolves to is one that a reply for its token grants, stored no longer ago than the positive time to live;
      a named scope is never replaced by another. */
  lemma ScopesAreGranted(t: Ttls, states: seq<State>, events: seq<Event>, i: nat, c: nat, requested: string)
    requires Run(t, states, events) && i < |states|
    requires c in states[i].calls && states[i].calls[c].Returned?
    ensures |states[i].cache| <= CAP
    ensures var x := states[i].calls[c];
            var r := Authorize(x.res, requested);
            r.Some? ==>
              && x.said.Some? && x.said.value in states[i].said && x.said.value.token == x.token
              && Grants(x.said.value.reply, r.value) && x.said.value.at <= x.at <= x.said.value.at + t.positive
              && (requested != "" ==> r.value == requested)
  {
    RunKeepsInv(t, states, events, i);
    var x := states[i].calls[c];
    assert FreshCall(t, states[i], x);
    if x.said.Some? { AuthorizesExactly(x.said.value.reply, x.res, requested); }
  }

  /** The store itself. Each section keeps Valid() from any state that has it, so they may interleave freely. */
  class HttpStore {
    const t: Ttls
    var cache: Cache<Result>
    ghost var said: set<Said>

    constructor (ttls: Ttls)
      ensures Valid() && cache == map[] && t == ttls
    {
      t, cache, said := ttls, map[], {};
    }

    /** The cache is within its cap, and every entry is what some reply for its token said. */
    ghost predicate Valid()
      reads this
    {
      |cache| <= CAP && forall token :: token in cache ==> HasReply(token, cache[token])
    }

    ghost predicate HasReply(token: string, e: Entry<Result>)
      reads this
    {
      exists w :: w in said && w.token == token && RestsOn(t, e, w)
    }

    /** The first section: the kept result, or None to ask the endpoint. */
    method LookUp(token: string, now: int) returns (r: Option<Result>)
      requires Valid()
      ensures r.Some? ==> exists w :: w in said && w.token == token && Parsed(w.reply, r.value) && now < w.at + TtlOf(t, r.value)
      ensures r == if token in cache && now < cache[token].expires then Some(cache[token].value) else None
    {
      if token in cache && now < cache[token].expires {
        assert HasReply(token, cache[token]);
        return Some(cache[token].value);
      }
      return None;
    }

    /** The second section, with the endpoint's answer: a failed fetch is a refusal that is not kept, and anything
        else is kept, in a cache that made room for it if it was full. */
    method Remember(token: string, now: int, reply: Reply) returns (res: Result)
      requires Valid()
      modifies this
      ensures Valid() && old(said) <= said
      ensures reply == Transient ==> res == REJECTED && cache == old(cache)
      ensures reply != Transient ==> Parsed(reply, res) && Said(token, reply, now) in said
      ensures reply != Transient ==> token in cache && cache[token] == Entry(res, now + if res.ok then t.positive else t.negative)
    {
      var fetched := Parse(reply);
      if fetched == None { return REJECTED; }
      res := fetched.value;
      ghost var before := cache;
      ghost var w := Said(token, reply, now);
      var entry := Entry(res, now + TtlOf(t, res));
      cache := Store(cache, token, entry, now, CAP);
      StoredFits(before, token, entry, now, CAP, cache);
      said := said + {w};
      forall x | x in cache ensures HasReply(x, cache[x]) {
        if x == token {
          assert w in said && RestsOn(t, entry, w);
        } else {
          assert old(HasReply(x, before[x]));
          var v :| v in old(said) && v.token == x && RestsOn(t, before[x], v);
          assert v in said;
        }
      }
    }
  }
}
