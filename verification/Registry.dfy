/** The edge's routing table: hostname to (session, tunnel name), with reclaim of dead sessions, the
    per-slug cap and the active-tunnel gauge. */
module Registry {
  import opened Sets

  type Host = string
  type Name = string
  type Slug = string
  type SessionId = nat

  datatype Route = Route(session: SessionId, name: Name)

  /** One session's bookkeeping: its slug, its tunnel names, and each name's hosts. */
  datatype Session = Session(slug: Slug, names: set<Name>, hosts: map<Name, seq<Host>>)

  /** The table under the edge's lock. `info` holds every session ever opened, `sessions` the open ones. */
  datatype Table = Table(
    routes: map<Host, Route>, sessions: set<SessionId>, info: map<SessionId, Session>, gauge: int)

  datatype Reply = Registered | InvalidName | NameTaken | OverLimit

  /** What one edge is configured with. `max` 0 means no cap. */
  datatype Config = Config(max: nat, hyphenShape: bool)

  /** The distinct tunnels a route table serves. */
  function Tunnels(routes: map<Host, Route>): set<Route> {
    set h | h in routes :: routes[h]
  }

  // The steps, each one critical section.

  predicate TooLong(cfg: Config, slug: Slug, name: Name) {
    slug != "" && cfg.hyphenShape && |name| + 1 + |slug| > 63
  }

  /** Some wanted host is served by another session whose transport is open. */
  predicate Conflict(t: Table, s: SessionId, hosts: seq<Host>, closed: set<SessionId>) {
    exists h :: h in hosts && h in t.routes && t.routes[h].session != s && t.routes[h].session !in closed
  }

  /** The dead tunnels that hold some wanted host. */
  function Displaced(t: Table, s: SessionId, hosts: seq<Host>, closed: set<SessionId>): set<Route> {
    set h | h in hosts && h in t.routes && t.routes[h].session != s && t.routes[h].session in closed :: t.routes[h]
  }

  function WithoutRoutes(routes: map<Host, Route>, gone: set<Route>): map<Host, Route> {
    map h | h in routes && routes[h] !in gone :: routes[h]
  }

  function WithoutNames(s: SessionId, i: Session, gone: set<Route>): Session {
    Session(i.slug,
            set n | n in i.names && Route(s, n) !in gone,
            map n | n in i.hosts && Route(s, n) !in gone :: i.hosts[n])
  }

  /** Drops every route and all bookkeeping of the given tunnels. */
  function Evict(t: Table, gone: set<Route>): Table {
    t.(routes := WithoutRoutes(t.routes, gone),
       info := map s | s in t.info :: WithoutNames(s, t.info[s], gone))
  }

  /** The tunnels a slug's open sessions hold, which the cap counts. */
  function Held(t: Table, slug: Slug): set<Route> {
    set s, n | s in t.sessions && s in t.info && t.info[s].slug == slug && n in t.info[s].names :: Route(s, n)
  }

  predicate AtCap(t: Table, cfg: Config, slug: Slug) {
    cfg.max > 0 && |Held(t, slug)| >= cfg.max
  }

  function AddRoutes(routes: map<Host, Route>, hosts: seq<Host>, r: Route): map<Host, Route> {
    map h | h in routes.Keys + (set x | x in hosts) :: if h in hosts then r else routes[h]
  }

  function AddTunnel(t: Table, s: SessionId, name: Name, hosts: seq<Host>): Table
    requires s in t.info
  {
    var i := t.info[s];
    t.(routes := AddRoutes(t.routes, hosts, Route(s, name)),
       info := t.info[s := Session(i.slug, i.names + {name}, i.hosts[name := hosts])])
  }

  function Register(t: Table, cfg: Config, s: SessionId, name: Name, hosts: seq<Host>, closed: set<SessionId>)
    : (Table, Reply)
    requires s in t.info
  {
    var slug := t.info[s].slug;
    if TooLong(cfg, slug, name) then (t, InvalidName)
    else if name in t.info[s].names then (t, Registered)
    else if Conflict(t, s, hosts, closed) then (t, NameTaken)
    else
      var gone := Displaced(t, s, hosts, closed);
      var e := Evict(t, gone);
      if AtCap(e, cfg, slug) then (e, OverLimit)
      else (AddTunnel(e, s, name, hosts).(gauge := t.gauge + 1 - |gone|), Registered)
  }

  /** The hosts among `hosts` that a session serves. */
  function OwnHosts(t: Table, s: SessionId, hosts: seq<Host>): set<Host> {
    set h | h in hosts && h in t.routes && t.routes[h].session == s
  }

  /** The locked part of an unregister, given the hosts read before it. */
  function RemoveHosts(t: Table, s: SessionId, hosts: seq<Host>): Table {
    var own := OwnHosts(t, s, hosts);
    t.(routes := t.routes - own, gauge := if own == {} then t.gauge else t.gauge - 1)
  }

  /** The rest of an unregister: the session forgets the name. */
  function ForgetName(t: Table, s: SessionId, name: Name): Table
    requires s in t.info
  {
    var i := t.info[s];
    t.(info := t.info[s := Session(i.slug, i.names - {name}, i.hosts - {name})])
  }

  function Drop(t: Table, s: SessionId): Table {
    var gone := set h | h in t.routes && t.routes[h].session == s;
    var names := set h | h in gone :: t.routes[h].name;
    t.(sessions := t.sessions - {s}, routes := t.routes - gone, gauge := t.gauge - |names|)
  }

  function Open(t: Table, s: SessionId, slug: Slug): Table {
    t.(sessions := t.sessions + {s}, info := t.info[s := Session(slug, {}, map[])])
  }

  // What every step keeps.

  /** Every route belongs to an open session that knows the name and lists the host. */
  ghost predicate Consistent(t: Table) {
    && t.sessions <= t.info.Keys
    && (forall s :: s in t.info ==> t.info[s].hosts.Keys == t.info[s].names)
    && forall h :: h in t.routes ==>
         var r := t.routes[h];
         r.session in t.sessions && r.name in t.info[r.session].hosts && h in t.info[r.session].hosts[r.name]
  }

  ghost predicate GaugeExact(t: Table) {
    t.gauge == |Tunnels(t.routes)|
  }

  ghost predicate WithinCap(t: Table, cfg: Config) {
    cfg.max > 0 ==> forall slug :: |Held(t, slug)| <= cfg.max
  }

  /** Host sets of distinct (name, slug) pairs are disjoint: each host has one owner. */
  type Owner = Host -> (Name, Slug)

  ghost predicate Owned(t: Table, owner: Owner)
    requires Consistent(t)
  {
    forall h :: h in t.routes ==> owner(h) == (t.routes[h].name, t.info[t.routes[h].session].slug)
  }

  lemma EvictKeepsConsistent(t: Table, gone: set<Route>)
    requires Consistent(t)
    ensures Consistent(Evict(t, gone))
  {
    var e := Evict(t, gone);
    forall s | s in e.info ensures e.info[s].hosts.Keys == e.info[s].names {
      assert t.info[s].hosts.Keys == t.info[s].names;
    }
  }

  lemma EvictTunnels(t: Table, gone: set<Route>)
    ensures Tunnels(Evict(t, gone).routes) == Tunnels(t.routes) - gone
  {
    var e := Evict(t, gone);
    forall r | r in Tunnels(t.routes) - gone ensures r in Tunnels(e.routes) {
      var h :| h in t.routes && t.routes[h] == r;
      assert h in e.routes && e.routes[h] == r;
    }
  }

  /** The session's other tunnels that a register would leave with no host at all. */
  function Swallowed(t: Table, s: SessionId, name: Name, hosts: seq<Host>): set<Route> {
    set r | r in Tunnels(t.routes) && r.session == s && r.name != name
            && (forall h :: h in t.routes && t.routes[h] == r ==> h in hosts)
  }

  lemma RegisterKeepsConsistent(t: Table, cfg: Config, s: SessionId, name: Name, hosts: seq<Host>, closed: set<SessionId>)
    requires Consistent(t) && s in t.sessions
    ensures Consistent(Register(t, cfg, s, name, hosts, closed).0)
  {
    var gone := Displaced(t, s, hosts, closed);
    EvictKeepsConsistent(t, gone);
  }

  lemma RegisterTunnels(t: Table, s: SessionId, name: Name, hosts: seq<Host>, closed: set<SessionId>)
    requires Consistent(t) && s in t.sessions && name !in t.info[s].names && hosts != []
    requires !Conflict(t, s, hosts, closed)
    ensures var gone := Displaced(t, s, hosts, closed);
            Tunnels(AddTunnel(Evict(t, gone), s, name, hosts).routes)
            == Tunnels(t.routes) - gone - Swallowed(t, s, name, hosts) + {Route(s, name)}
  {
    var gone := Displaced(t, s, hosts, closed);
    var e := Evict(t, gone);
    var a := AddTunnel(e, s, name, hosts);
    EvictTunnels(t, gone);
    var lost := Swallowed(t, s, name, hosts);
    forall r | r in Tunnels(a.routes) ensures r in Tunnels(t.routes) - gone - lost + {Route(s, name)} {
      var h :| h in a.routes && a.routes[h] == r;
      if h in hosts {
      } else {
        assert h in e.routes && e.routes[h] == r && h in t.routes;
      }
    }
    forall r | r in Tunnels(t.routes) - gone - lost + {Route(s, name)} ensures r in Tunnels(a.routes) {
      if r == Route(s, name) {
        assert hosts[0] in a.routes && a.routes[hosts[0]] == r;
      } else {
        var h :| h in t.routes && t.routes[h] == r && (r.session != s || h !in hosts);
        assert h !in hosts;
        assert h in a.routes && a.routes[h] == r;
      }
    }
  }

  lemma DisplacedServe(t: Table, s: SessionId, hosts: seq<Host>, closed: set<SessionId>)
    ensures Displaced(t, s, hosts, closed) <= Tunnels(t.routes)
  {
  }

  /** Exactly when a register keeps the gauge right, whatever the host sets, by what it finds: it must not evict a
      dead tunnel and then find its slug at the cap, and must not take the last host of another tunnel of its own
      session. */
  lemma RegisterGaugeExactly(t: Table, cfg: Config, s: SessionId, name: Name, hosts: seq<Host>, closed: set<SessionId>)
    requires Consistent(t) && GaugeExact(t) && s in t.sessions && hosts != []
    ensures var slug, gone := t.info[s].slug, Displaced(t, s, hosts, closed);
            GaugeExact(Register(t, cfg, s, name, hosts, closed).0) <==>
              || TooLong(cfg, slug, name) || name in t.info[s].names || Conflict(t, s, hosts, closed)
              || (if AtCap(Evict(t, gone), cfg, slug) then gone == {} else Swallowed(t, s, name, hosts) == {})
  {
    var slug, gone := t.info[s].slug, Displaced(t, s, hosts, closed);
    if !TooLong(cfg, slug, name) && name !in t.info[s].names && !Conflict(t, s, hosts, closed) {
      DisplacedServe(t, s, hosts, closed);
      EvictTunnels(t, gone);
      if AtCap(Evict(t, gone), cfg, slug) {
        assert |Tunnels(t.routes) - gone| == |Tunnels(t.routes)| - |gone|;
      } else {
        RegisterTunnels(t, s, name, hosts, closed);
        RegisterSizes(Tunnels(t.routes), gone, Swallowed(t, s, name, hosts), Route(s, name));
      }
    }
  }

  lemma RegisterSizes(all: set<Route>, gone: set<Route>, lost: set<Route>, r: Route)
    requires gone <= all && lost <= all && gone !! lost && r !in all
    ensures |all - gone - lost + {r}| == |all| - |gone| - |lost| + 1
    ensures |lost| == 0 <==> lost == {}
  {
    assert |all - gone| == |all| - |gone|;
    assert |all - gone - lost| == |all - gone| - |lost|;
  }

  /** With disjoint host sets a register displaces only dead tunnels of its own name and slug, and
      swallows none. */
  lemma OwnedHosts(t: Table, s: SessionId, name: Name, hosts: seq<Host>, closed: set<SessionId>, owner: Owner)
    requires Consistent(t) && Owned(t, owner) && s in t.sessions
    requires forall h :: h in hosts ==> owner(h) == (name, t.info[s].slug)
    ensures forall r :: r in Displaced(t, s, hosts, closed) ==>
              r.session != s && r.session in closed && r.session in t.sessions && r.name == name
              && t.info[r.session].slug == t.info[s].slug && r.name in t.info[r.session].names
    ensures Swallowed(t, s, name, hosts) == {}
  {
    forall r | r in Displaced(t, s, hosts, closed)
      ensures r.session != s && r.session in closed && r.session in t.sessions && r.name == name
      ensures r.session in t.info && t.info[r.session].slug == t.info[s].slug && r.name in t.info[r.session].names
    {
      var h :| h in hosts && h in t.routes && t.routes[h].session != s && t.routes[h].session in closed && t.routes[h] == r;
      assert owner(h) == (name, t.info[s].slug);
    }
    forall r | r in Tunnels(t.routes) && r.session == s && r.name != name
      ensures exists h :: h in t.routes && t.routes[h] == r && h !in hosts
    {
      var h :| h in t.routes && t.routes[h] == r;
      assert owner(h) == (r.name, t.info[s].slug);
      assert h !in hosts;
    }
  }

  /** Evicting a slug's tunnels takes them out of what the cap counts; other slugs are untouched. */
  lemma EvictHeld(t: Table, gone: set<Route>, slug: Slug)
    requires Consistent(t)
    ensures Held(Evict(t, gone), slug) == Held(t, slug) - gone
  {
    var e := Evict(t, gone);
    forall r | r in Held(t, slug) - gone ensures r in Held(e, slug) {
      assert r.session in e.info && r.name in e.info[r.session].names;
    }
    forall r | r in Held(e, slug) ensures r in Held(t, slug) - gone {
      assert r.session in t.info && r.name in t.info[r.session].names;
    }
  }

  lemma AddHeld(t: Table, s: SessionId, name: Name, hosts: seq<Host>, slug: Slug)
    requires Consistent(t) && s in t.sessions
    ensures Held(AddTunnel(t, s, name, hosts), slug)
            == if slug == t.info[s].slug then Held(t, slug) + {Route(s, name)} else Held(t, slug)
  {
    var a := AddTunnel(t, s, name, hosts);
    forall r | r in Held(a, slug)
      ensures r in Held(t, slug) || (slug == t.info[s].slug && r == Route(s, name))
    {
      assert r.session in t.info;
    }
    forall r | r in Held(t, slug) ensures r in Held(a, slug) {
      assert r.session in a.info && r.name in a.info[r.session].names;
    }
    if slug == t.info[s].slug { assert Route(s, name) in Held(a, slug); }
  }

  lemma RegisterKeepsCap(t: Table, cfg: Config, s: SessionId, name: Name, hosts: seq<Host>, closed: set<SessionId>)
    requires Consistent(t) && WithinCap(t, cfg) && s in t.sessions
    ensures WithinCap(Register(t, cfg, s, name, hosts, closed).0, cfg)
  {
    var gone := Displaced(t, s, hosts, closed);
    var e := Evict(t, gone);
    EvictKeepsConsistent(t, gone);
    forall slug ensures |Held(e, slug)| <= |Held(t, slug)| {
      EvictHeld(t, gone, slug);
      SubsetSize(Held(e, slug), Held(t, slug));
    }
    forall slug
      ensures |Held(AddTunnel(e, s, name, hosts), slug)| <= |Held(e, slug)| + (if slug == t.info[s].slug then 1 else 0)
    {
      AddHeld(e, s, name, hosts, slug);
    }
    if cfg.max > 0 {
      var t' := Register(t, cfg, s, name, hosts, closed).0;
      forall slug ensures |Held(t', slug)| <= cfg.max {
        assert |Held(t, slug)| <= cfg.max;
        var a := AddTunnel(e, s, name, hosts);
        assert Held(a.(gauge := t'.gauge), slug) == Held(a, slug);
        assert |Held(a, slug)| <= |Held(e, slug)| + (if slug == t.info[s].slug then 1 else 0);
      }
    }
  }

  lemma DisplacedAreHeld(t: Table, s: SessionId, hosts: seq<Host>, closed: set<SessionId>, r: Route)
    requires Consistent(t) && r in Displaced(t, s, hosts, closed)
    ensures r.session in t.sessions && r in Held(t, t.info[r.session].slug)
  {
    var h :| h in t.routes && t.routes[h] == r;
    assert r.session in t.sessions && r.name in t.info[r.session].names;
  }

  /** A register that reclaims a dead tunnel of its own slug is never refused for the cap. */
  lemma ReclaimNeverOverLimit(t: Table, cfg: Config, s: SessionId, name: Name, hosts: seq<Host>, closed: set<SessionId>, r: Route)
    requires Consistent(t) && WithinCap(t, cfg) && s in t.sessions
    requires r in Displaced(t, s, hosts, closed) && r.session in t.info && t.info[r.session].slug == t.info[s].slug
    ensures Register(t, cfg, s, name, hosts, closed).1 != OverLimit
  {
    EvictMakesRoom(t, cfg, s, hosts, closed, r);
  }

  lemma EvictMakesRoom(t: Table, cfg: Config, s: SessionId, hosts: seq<Host>, closed: set<SessionId>, r: Route)
    requires Consistent(t) && WithinCap(t, cfg) && s in t.sessions
    requires r in Displaced(t, s, hosts, closed) && r.session in t.info && t.info[r.session].slug == t.info[s].slug
    ensures !AtCap(Evict(t, Displaced(t, s, hosts, closed)), cfg, t.info[s].slug)
  {
    var gone := Displaced(t, s, hosts, closed);
    var slug := t.info[s].slug;
    EvictHeld(t, gone, slug);
    DisplacedAreHeld(t, s, hosts, closed, r);
    SubsetSize(Held(t, slug) - gone, Held(t, slug));
  }

  /** Some wanted host is served by another session whose transport is open. */
  ghost predicate ServedByOther(t: Table, s: SessionId, hosts: seq<Host>, closed: set<SessionId>) {
    exists i :: 0 <= i < |hosts| && hosts[i] in t.routes && t.routes[hosts[i]].session != s && t.routes[hosts[i]].session !in closed
  }

  /** The names that open sessions of a slug hold, without those of dead tunnels in the way of the wanted hosts. */
  ghost function StillHeld(t: Table, s: SessionId, hosts: seq<Host>, closed: set<SessionId>): set<Route>
    requires s in t.info
  {
    set x, n | x in t.sessions && x in t.info && t.info[x].slug == t.info[s].slug && n in t.info[x].names
               && !(x != s && x in closed && exists h :: h in hosts && h in t.routes && t.routes[h] == Route(x, n)) :: Route(x, n)
  }

  lemma StillHeldIsHeld(t: Table, s: SessionId, hosts: seq<Host>, closed: set<SessionId>)
    requires Consistent(t) && s in t.info
    ensures StillHeld(t, s, hosts, closed) == Held(Evict(t, Displaced(t, s, hosts, closed)), t.info[s].slug)
  {
    var gone, slug := Displaced(t, s, hosts, closed), t.info[s].slug;
    EvictHeld(t, gone, slug);
    forall r: Route ensures r in gone <==>
      r.session != s && r.session in closed && exists h :: h in hosts && h in t.routes && t.routes[h] == Route(r.session, r.name) {}
    forall r ensures r in StillHeld(t, s, hosts, closed) <==> r in Held(t, slug) - gone {}
  }

  /** What each reply means. A tunnel is registered when the session has the name, and a new one then answers on every
      wanted host; a reply that refuses says exactly why, and only a refusal for the cap may have changed the table. */
  lemma RepliesMean(t: Table, cfg: Config, s: SessionId, name: Name, hosts: seq<Host>, closed: set<SessionId>)
    requires Consistent(t) && s in t.sessions
    ensures var (t', reply) := Register(t, cfg, s, name, hosts, closed);
            var slug := t.info[s].slug;
            var long := slug != "" && cfg.hyphenShape && |name| + 1 + |slug| > 63;
            var had := name in t.info[s].names;
            && (reply == InvalidName <==> long)
            && (reply == NameTaken <==> !long && !had && ServedByOther(t, s, hosts, closed))
            && (reply == OverLimit <==>
                  && !long && !had && !ServedByOther(t, s, hosts, closed)
                  && cfg.max > 0 && |StillHeld(t, s, hosts, closed)| >= cfg.max)
            && (reply == InvalidName || reply == NameTaken || had ==> t' == t)
            && s in t'.info
            && (reply == Registered <==> name in t'.info[s].names && !long)
            && (reply == Registered && !had ==> forall h :: h in hosts ==> h in t'.routes && t'.routes[h] == Route(s, name))
  {
    StillHeldIsHeld(t, s, hosts, closed);
    ConflictMeans(t, s, hosts, closed);
  }

  lemma ConflictMeans(t: Table, s: SessionId, hosts: seq<Host>, closed: set<SessionId>)
    ensures Conflict(t, s, hosts, closed) <==> ServedByOther(t, s, hosts, closed)
  {
    if h :| h in hosts && h in t.routes && t.routes[h].session != s && t.routes[h].session !in closed {
      var i :| 0 <= i < |hosts| && hosts[i] == h;
    }
  }

  /** With disjoint host sets, a register keeps everything. */
  lemma RegisterKeepsAll(t: Table, cfg: Config, s: SessionId, name: Name, hosts: seq<Host>, closed: set<SessionId>, owner: Owner)
    requires Consistent(t) && GaugeExact(t) && WithinCap(t, cfg) && Owned(t, owner) && s in t.sessions && hosts != []
    requires forall h :: h in hosts ==> owner(h) == (name, t.info[s].slug)
    ensures var t' := Register(t, cfg, s, name, hosts, closed).0;
            Consistent(t') && GaugeExact(t') && WithinCap(t', cfg) && Owned(t', owner)
  {
    var (t', reply) := Register(t, cfg, s, name, hosts, closed);
    var gone := Displaced(t, s, hosts, closed);
    RegisterKeepsConsistent(t, cfg, s, name, hosts, closed);
    RegisterKeepsCap(t, cfg, s, name, hosts, closed);
    OwnedHosts(t, s, name, hosts, closed, owner);
    RegisterGaugeExactly(t, cfg, s, name, hosts, closed);
    if gone != {} {
      var r :| r in gone;
      DisplacedAreHeld(t, s, hosts, closed, r);
      ReclaimNeverOverLimit(t, cfg, s, name, hosts, closed, r);
    }
    RegisterKeepsOwned(t, cfg, s, name, hosts, closed, owner);
  }

  /** After a register, a host serves the new tunnel or what it served before, and no session changed its slug. */
  lemma RegisterRoutes(t: Table, cfg: Config, s: SessionId, name: Name, hosts: seq<Host>, closed: set<SessionId>, h: Host)
    requires s in t.info
    ensures var t' := Register(t, cfg, s, name, hosts, closed).0;
            h in t'.routes ==> (h in hosts && t'.routes[h] == Route(s, name)) || (h in t.routes && t'.routes[h] == t.routes[h])
  {
  }

  lemma RegisterSlugs(t: Table, cfg: Config, s: SessionId, name: Name, hosts: seq<Host>, closed: set<SessionId>, x: SessionId)
    requires s in t.info
    ensures var t' := Register(t, cfg, s, name, hosts, closed).0;
            (x in t'.info <==> x in t.info) && (x in t.info ==> t'.info[x].slug == t.info[x].slug)
  {
  }

  lemma RegisterKeepsOwned(t: Table, cfg: Config, s: SessionId, name: Name, hosts: seq<Host>, closed: set<SessionId>, owner: Owner)
    requires Consistent(t) && Owned(t, owner) && s in t.sessions
    requires forall h :: h in hosts ==> owner(h) == (name, t.info[s].slug)
    requires Consistent(Register(t, cfg, s, name, hosts, closed).0)
    ensures Owned(Register(t, cfg, s, name, hosts, closed).0, owner)
  {
    var t' := Register(t, cfg, s, name, hosts, closed).0;
    forall h | h in t'.routes
      ensures owner(h) == (t'.routes[h].name, t'.info[t'.routes[h].session].slug)
    {
      RegisterRoutes(t, cfg, s, name, hosts, closed, h);
      RegisterSlugs(t, cfg, s, name, hosts, closed, t'.routes[h].session);
    }
  }

  /** A register leaves every route of every other session whose transport is open. */
  lemma RegisterSparesOpen(t: Table, cfg: Config, s: SessionId, name: Name, hosts: seq<Host>, closed: set<SessionId>, h: Host)
    requires s in t.info && h in t.routes && t.routes[h].session != s && t.routes[h].session !in closed
    ensures var t' := Register(t, cfg, s, name, hosts, closed).0;
            h in t'.routes && t'.routes[h] == t.routes[h]
  {
    var gone := Displaced(t, s, hosts, closed);
    if !Conflict(t, s, hosts, closed) {
      assert h !in hosts;
      assert t.routes[h] !in gone;
    }
  }

  /** Two sessions, one tunnel each: session 1 of slug `a` on host `x`, session 2 of slug `b` on host `y`. */
  function TwoSlugs(a: Slug, b: Slug, app: Name, web: Name, x: Host, y: Host): Table {
    Table(map[x := Route(1, app), y := Route(2, web)], {1, 2},
          map[1 := Session(a, {app}, map[app := [x]]), 2 := Session(b, {web}, map[web := [y]])], 2)
  }

  /** When two slugs share a host, an eviction followed by a refusal leaves the gauge too high: session 1
      is dead, and session 2, already at its slug's cap of one, asks for session 1's host. */
  lemma CrossSlugDrift(a: Slug, b: Slug, app: Name, web: Name, x: Host, y: Host)
    requires a != b && app != web && x != y
    ensures var t := TwoSlugs(a, b, app, web, x, y);
            var (t', reply) := Register(t, Config(1, false), 2, app, [x], {1});
            Consistent(t) && GaugeExact(t) && reply == OverLimit && !GaugeExact(t')
  {
    var t := TwoSlugs(a, b, app, web, x, y);
    TwoSlugsHold(a, b, app, web, x, y);
    EvictTunnels(t, {Route(1, app)});
  }

  /** One session with one tunnel. */
  function OneTunnel(a: Slug, app: Name, x: Host): Table {
    Table(map[x := Route(1, app)], {1}, map[1 := Session(a, {app}, map[app := [x]])], 1)
  }

  /** A session that registers a second tunnel on hosts that include the only one of its first: both are counted, one
      is served. */
  lemma SwallowDrift(cfg: Config, a: Slug, app: Name, web: Name, x: Host, hosts: seq<Host>)
    requires app != web && x in hosts && cfg.max == 0 && !TooLong(cfg, a, web)
    ensures var t := OneTunnel(a, app, x);
            var (t', reply) := Register(t, cfg, 1, web, hosts, {});
            Consistent(t) && GaugeExact(t) && reply == Registered && !GaugeExact(t')
  {
    var t := OneTunnel(a, app, x);
    assert t.routes[x] == Route(1, app);
    assert Tunnels(t.routes) == {Route(1, app)};
    assert Route(1, app) in Swallowed(t, 1, web, hosts);
    RegisterGaugeExactly(t, cfg, 1, web, hosts, {});
  }

  lemma TwoSlugsHold(a: Slug, b: Slug, app: Name, web: Name, x: Host, y: Host)
    requires a != b && app != web && x != y
    ensures var t := TwoSlugs(a, b, app, web, x, y);
            && Consistent(t) && Tunnels(t.routes) == {Route(1, app), Route(2, web)}
            && Displaced(t, 2, [x], {1}) == {Route(1, app)}
            && Held(Evict(t, {Route(1, app)}), b) == {Route(2, web)}
  {
    var t := TwoSlugs(a, b, app, web, x, y);
    assert t.routes[x] == Route(1, app) && t.routes[y] == Route(2, web);
    EvictHeld(t, {Route(1, app)}, b);
    assert Held(t, b) == {Route(2, web)};
  }

  /** As many routes as names, for one session. */
  lemma {:induction false} RoutesOf(s: SessionId, names: set<Name>)
    ensures |set n | n in names :: Route(s, n)| == |names|
  {
    if names != {} {
      var x :| x in names;
      var rest := names - {x};
      RoutesOf(s, rest);
      assert (set n | n in names :: Route(s, n)) == (set n | n in rest :: Route(s, n)) + {Route(s, x)};
    }
  }

  lemma DropTunnels(t: Table, s: SessionId)
    ensures var mine := set r | r in Tunnels(t.routes) && r.session == s;
            && Tunnels(Drop(t, s).routes) == Tunnels(t.routes) - mine
            && Drop(t, s).gauge == t.gauge - |mine|
  {
    var t' := Drop(t, s);
    var gone := set h | h in t.routes && t.routes[h].session == s;
    var names := set h | h in gone :: t.routes[h].name;
    var mine := set r | r in Tunnels(t.routes) && r.session == s;
    RoutesOf(s, names);
    forall r | r in mine ensures r.name in names {
      var h :| h in t.routes && t.routes[h] == r;
      assert h in gone;
    }
    assert mine == set n | n in names :: Route(s, n);
    forall r | r in Tunnels(t.routes) - mine ensures r in Tunnels(t'.routes) {
      var h :| h in t.routes && t.routes[h] == r;
      assert h in t'.routes;
    }
  }

  lemma DropKeepsAll(t: Table, cfg: Config, s: SessionId, owner: Owner)
    requires Consistent(t) && GaugeExact(t) && WithinCap(t, cfg) && Owned(t, owner)
    ensures var t' := Drop(t, s);
            Consistent(t') && GaugeExact(t') && WithinCap(t', cfg) && Owned(t', owner)
  {
    DropKeepsGauge(t, s);
    DropKeepsSound(t, cfg, s);
  }

  /** What an unregister holds between reading its hosts and taking the lock. */
  ghost predicate Reads(t: Table, s: SessionId, name: Name, hosts: seq<Host>, owner: Owner)
    requires s in t.info
  {
    && (forall h :: h in hosts ==> owner(h) == (name, t.info[s].slug))
    && (forall h :: h in t.routes && t.routes[h] == Route(s, name) ==> h in hosts)
  }

  lemma RemoveTunnels(t: Table, s: SessionId, name: Name, hosts: seq<Host>, owner: Owner)
    requires Consistent(t) && Owned(t, owner) && s in t.info && Reads(t, s, name, hosts, owner)
    ensures Tunnels(RemoveHosts(t, s, hosts).routes) == Tunnels(t.routes) - {Route(s, name)}
    ensures OwnHosts(t, s, hosts) == {} <==> Route(s, name) !in Tunnels(t.routes)
  {
    var t' := RemoveHosts(t, s, hosts);
    var own := OwnHosts(t, s, hosts);
    forall h | h in own ensures t.routes[h] == Route(s, name) {
      assert owner(h) == (t.routes[h].name, t.info[s].slug);
    }
    forall r | r in Tunnels(t.routes) && r != Route(s, name) ensures r in Tunnels(t'.routes) {
      var h :| h in t.routes && t.routes[h] == r;
      assert h in t'.routes && t'.routes[h] == r;
    }
    if Route(s, name) in Tunnels(t.routes) {
      var h :| h in t.routes && t.routes[h] == Route(s, name);
      assert h in own;
    }
    if h :| h in own { assert t.routes[h] in Tunnels(t.routes); }
  }

  /** The tunnels that a removal leaves with no host at all, whichever tunnel the hosts were listed for. */
  function Vanishing(t: Table, s: SessionId, hosts: seq<Host>): set<Route> {
    set r | r in Tunnels(t.routes) && (forall h :: h in t.routes && t.routes[h] == r ==> h in OwnHosts(t, s, hosts))
  }

  lemma VanishingGo(t: Table, s: SessionId, hosts: seq<Host>)
    ensures Tunnels(RemoveHosts(t, s, hosts).routes) == Tunnels(t.routes) - Vanishing(t, s, hosts)
  {
    var own, t' := OwnHosts(t, s, hosts), RemoveHosts(t, s, hosts);
    forall r | r in Tunnels(t.routes) - Vanishing(t, s, hosts) ensures r in Tunnels(t'.routes) {
      var h :| h in t.routes && t.routes[h] == r && h !in own;
      assert h in t'.routes && t'.routes[h] == r;
    }
    forall r | r in Tunnels(t'.routes) ensures r in Tunnels(t.routes) - Vanishing(t, s, hosts) {
      var h :| h in t'.routes && t'.routes[h] == r;
      assert h in t.routes && h !in own;
    }
  }

  /** Exactly when the locked part of an unregister keeps the gauge right, whatever the hosts: it takes one off for all
      that it removes, so exactly one tunnel must lose its last host, and none when nothing is removed. */
  lemma RemoveGaugeExactly(t: Table, s: SessionId, hosts: seq<Host>)
    requires GaugeExact(t)
    ensures GaugeExact(RemoveHosts(t, s, hosts)) <==> |Vanishing(t, s, hosts)| == if OwnHosts(t, s, hosts) == {} then 0 else 1
  {
    VanishingGo(t, s, hosts);
    assert |Tunnels(t.routes) - Vanishing(t, s, hosts)| == |Tunnels(t.routes)| - |Vanishing(t, s, hosts)|;
  }

  /** The locked part of an unregister leaves routes, names and host lists in agreement and no slug above its cap,
      whatever the hosts. */
  lemma RemoveKeepsSound(t: Table, cfg: Config, s: SessionId, hosts: seq<Host>)
    requires Consistent(t) && WithinCap(t, cfg)
    ensures Consistent(RemoveHosts(t, s, hosts)) && WithinCap(RemoveHosts(t, s, hosts), cfg)
  {
    forall slug ensures Held(RemoveHosts(t, s, hosts), slug) == Held(t, slug) {}
  }

  /** One session whose second tunnel took one of the two hosts of its first. */
  function TwoTunnels(a: Slug, p: Name, q: Name, x: Host, y: Host): Table {
    Table(map[x := Route(1, p), y := Route(1, q)], {1}, map[1 := Session(a, {p, q}, map[p := [x, y], q := [y]])], 2)
  }

  function EmptyTable(a: Slug): Table {
    Open(Table(map[], {}, map[], 0), 1, a)
  }

  /** One session with one tunnel on two hosts. */
  function TwoHosts(a: Slug, p: Name, x: Host, y: Host): Table {
    Table(map[x := Route(1, p), y := Route(1, p)], {1}, map[1 := Session(a, {p}, map[p := [x, y]])], 1)
  }

  lemma EvictNothing(t: Table)
    ensures Evict(t, {}) == t
  {
    assert WithoutRoutes(t.routes, {}) == t.routes;
    forall s | s in t.info ensures WithoutNames(s, t.info[s], {}) == t.info[s] {}
    assert Evict(t, {}).info == t.info;
  }

  /** A register that meets nobody. */
  lemma RegisterFreely(t: Table, s: SessionId, name: Name, hosts: seq<Host>)
    requires s in t.info && name !in t.info[s].names && forall h :: h in hosts && h in t.routes ==> t.routes[h].session == s
    ensures Register(t, Config(0, false), s, name, hosts, {}) == (AddTunnel(t, s, name, hosts).(gauge := t.gauge + 1), Registered)
  {
    assert Displaced(t, s, hosts, {}) == {};
    EvictNothing(t);
  }

  lemma FirstOfTwo(a: Slug, p: Name, x: Host, y: Host)
    requires x != y
    ensures Register(EmptyTable(a), Config(0, false), 1, p, [x, y], {}) == (TwoHosts(a, p, x, y), Registered)
  {
    var t, m := EmptyTable(a), TwoHosts(a, p, x, y);
    RegisterFreely(t, 1, p, [x, y]);
    var n := AddTunnel(t, 1, p, [x, y]);
    assert n.routes == m.routes;
    assert n.info[1] == m.info[1] by { assert {} + {p} == {p}; }
    assert n.info == m.info && n.sessions == m.sessions;
  }

  lemma TwoHostsHold(a: Slug, p: Name, x: Host, y: Host)
    requires x != y
    ensures Consistent(TwoHosts(a, p, x, y)) && GaugeExact(TwoHosts(a, p, x, y))
  {
    var m := TwoHosts(a, p, x, y);
    assert m.routes[x] == Route(1, p);
    assert Tunnels(m.routes) == {Route(1, p)};
  }

  lemma TwoTunnelsHold(a: Slug, p: Name, q: Name, x: Host, y: Host)
    requires x != y && p != q
    ensures var m := TwoTunnels(a, p, q, x, y);
            Consistent(m) && GaugeExact(m) && Tunnels(m.routes) == {Route(1, p), Route(1, q)}
  {
    var m := TwoTunnels(a, p, q, x, y);
    assert m.routes[x] == Route(1, p) && m.routes[y] == Route(1, q);
    assert Tunnels(m.routes) == {Route(1, p), Route(1, q)};
  }

  lemma SecondOfTwo(a: Slug, p: Name, q: Name, x: Host, y: Host)
    requires x != y && p != q
    ensures Register(TwoHosts(a, p, x, y), Config(0, false), 1, q, [y], {}) == (TwoTunnels(a, p, q, x, y), Registered)
  {
    var t, m := TwoHosts(a, p, x, y), TwoTunnels(a, p, q, x, y);
    RegisterFreely(t, 1, q, [y]);
    var n := AddTunnel(t, 1, q, [y]);
    assert n.routes == m.routes;
    assert n.info[1] == m.info[1] by { assert {p} + {q} == {p, q}; }
    assert n.info == m.info;
  }

  /** Two registers that both keep the gauge right, and an unregister of the first tunnel that does not: its list still
      names the host the second tunnel took, both tunnels vanish, and one is taken off. */
  lemma SharedHostDrift(a: Slug, p: Name, q: Name, x: Host, y: Host)
    requires x != y && p != q
    ensures var t := TwoTunnels(a, p, q, x, y);
            Consistent(t) && GaugeExact(t) && t.info[1].hosts[p] == [x, y] && !GaugeExact(RemoveHosts(t, 1, [x, y]))
  {
    TwoTunnelsHold(a, p, q, x, y);
    var t := TwoTunnels(a, p, q, x, y);
    assert OwnHosts(t, 1, [x, y]) == {x, y};
    assert Vanishing(t, 1, [x, y]) == Tunnels(t.routes);
    RemoveGaugeExactly(t, 1, [x, y]);
  }

  /** An unregister of a name the session does not have, whose fallback host is one of the two hosts of its tunnel: no
      tunnel vanishes, and one is taken off. */
  lemma StrayNameDrift(a: Slug, p: Name, x: Host, y: Host)
    requires x != y
    ensures var t := TwoHosts(a, p, x, y);
            Consistent(t) && GaugeExact(t) && !GaugeExact(RemoveHosts(t, 1, [y]))
  {
    TwoHostsHold(a, p, x, y);
    var t := TwoHosts(a, p, x, y);
    assert t.routes[x] == Route(1, p) && x !in OwnHosts(t, 1, [y]) && y in OwnHosts(t, 1, [y]);
    assert Vanishing(t, 1, [y]) == {};
    RemoveGaugeExactly(t, 1, [y]);
  }

  /** Dropping a session keeps the gauge right, whatever the hosts. */
  lemma DropKeepsGauge(t: Table, s: SessionId)
    requires GaugeExact(t)
    ensures GaugeExact(Drop(t, s))
  {
    DropTunnels(t, s);
    var mine := set r | r in Tunnels(t.routes) && r.session == s;
    assert |Tunnels(t.routes) - mine| == |Tunnels(t.routes)| - |mine|;
  }

  lemma DropKeepsSound(t: Table, cfg: Config, s: SessionId)
    requires Consistent(t) && WithinCap(t, cfg)
    ensures Consistent(Drop(t, s)) && WithinCap(Drop(t, s), cfg)
  {
    forall slug ensures |Held(Drop(t, s), slug)| <= |Held(t, slug)| {
      SubsetSize(Held(Drop(t, s), slug), Held(t, slug));
    }
  }

  lemma RemoveKeepsAll(t: Table, cfg: Config, s: SessionId, name: Name, hosts: seq<Host>, owner: Owner)
    requires Consistent(t) && GaugeExact(t) && WithinCap(t, cfg) && Owned(t, owner)
    requires s in t.info && Reads(t, s, name, hosts, owner)
    ensures var t' := RemoveHosts(t, s, hosts);
            && Consistent(t') && GaugeExact(t') && WithinCap(t', cfg) && Owned(t', owner)
            && Route(s, name) !in Tunnels(t'.routes)
  {
    RemoveKeepsSound(t, cfg, s, hosts);
    RemoveTunnels(t, s, name, hosts, owner);
  }

  /** Forgetting a name that no route serves keeps routes, names and host lists in agreement, and the cap. */
  lemma ForgetKeepsSound(t: Table, cfg: Config, s: SessionId, name: Name)
    requires Consistent(t) && WithinCap(t, cfg) && s in t.info && Route(s, name) !in Tunnels(t.routes)
    ensures Consistent(ForgetName(t, s, name)) && WithinCap(ForgetName(t, s, name), cfg)
  {
    var t' := ForgetName(t, s, name);
    forall h | h in t'.routes
      ensures var r := t'.routes[h];
              r.session in t'.sessions && r.name in t'.info[r.session].hosts && h in t'.info[r.session].hosts[r.name]
    {
      assert t.routes[h] in Tunnels(t.routes);
    }
    forall slug ensures |Held(t', slug)| <= |Held(t, slug)| {
      SubsetSize(Held(t', slug), Held(t, slug));
    }
  }

  /** A whole unregister of a name the session has: the name is free again for the session, nothing serves it, and its
      slug holds one tunnel less. */
  lemma UnregisterFrees(t: Table, s: SessionId, name: Name, hosts: seq<Host>)
    requires Consistent(t) && s in t.sessions && name in t.info[s].names
    requires forall h :: h in t.routes && t.routes[h] == Route(s, name) ==> h in hosts
    ensures var t' := ForgetName(RemoveHosts(t, s, hosts), s, name);
            && name !in t'.info[s].names && name !in t'.info[s].hosts && Route(s, name) !in Tunnels(t'.routes)
            && |Held(t', t.info[s].slug)| == |Held(t, t.info[s].slug)| - 1
  {
    var t', slug := ForgetName(RemoveHosts(t, s, hosts), s, name), t.info[s].slug;
    assert Route(s, name) in Held(t, slug);
    forall r | r in Held(t, slug) - {Route(s, name)} ensures r in Held(t', slug) {
      assert r.session in t'.info && r.name in t'.info[r.session].names;
    }
    assert Held(t', slug) == Held(t, slug) - {Route(s, name)};
  }

  lemma OpenKeepsSound(t: Table, cfg: Config, s: SessionId, slug: Slug)
    requires Consistent(t) && WithinCap(t, cfg) && s !in t.info
    ensures Consistent(Open(t, s, slug)) && WithinCap(Open(t, s, slug), cfg)
  {
    var t' := Open(t, s, slug);
    forall x ensures Held(t', x) == Held(t, x) {
      forall r | r in Held(t, x) ensures r in Held(t', x) {
        assert r.session in t'.info && r.name in t'.info[r.session].names;
      }
      forall r | r in Held(t', x) ensures r in Held(t, x) {
        assert r.session in t.info && r.name in t.info[r.session].names;
      }
    }
  }

  lemma ForgetKeepsAll(t: Table, cfg: Config, s: SessionId, name: Name, owner: Owner)
    requires Consistent(t) && GaugeExact(t) && WithinCap(t, cfg) && Owned(t, owner)
    requires s in t.info && Route(s, name) !in Tunnels(t.routes)
    ensures var t' := ForgetName(t, s, name);
            Consistent(t') && GaugeExact(t') && WithinCap(t', cfg) && Owned(t', owner)
  {
    ForgetKeepsSound(t, cfg, s, name);
  }

  lemma OpenKeepsAll(t: Table, cfg: Config, s: SessionId, slug: Slug, owner: Owner)
    requires Consistent(t) && GaugeExact(t) && WithinCap(t, cfg) && Owned(t, owner) && s !in t.info
    ensures var t' := Open(t, s, slug);
            Consistent(t') && GaugeExact(t') && WithinCap(t', cfg) && Owned(t', owner)
  {
    OpenKeepsSound(t, cfg, s, slug);
  }
}
