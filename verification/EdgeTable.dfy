/** The routing table as the edge keeps it: maps updated in place under the lock. Each method is proved
    against the table step it implements. */
module EdgeTable {
  import opened Registry

  class Edge {
    const cfg: Config
    var routes: map<Host, Route>
    var sessions: set<SessionId>
    var info: map<SessionId, Session>
    var activeTunnels: int

    ghost function View(): Table
      reads this
    {
      Table(routes, sessions, info, activeTunnels)
    }

    constructor (cfg: Config)
      ensures View() == Table(map[], {}, map[], 0) && this.cfg == cfg
    {
      this.cfg := cfg;
      routes, sessions, info, activeTunnels := map[], {}, map[], 0;
    }

    /** The scan over the wanted hosts: refuse on the first one an open session serves, and collect the
        dead tunnels met on the way. */
    method Scan(s: SessionId, hosts: seq<Host>, closed: set<SessionId>) returns (taken: bool, gone: set<Route>)
      ensures taken == Conflict(View(), s, hosts, closed)
      ensures !taken ==> gone == Displaced(View(), s, hosts, closed)
    {
      gone := {};
      for i := 0 to |hosts|
        invariant !Conflict(View(), s, hosts[..i], closed)
        invariant gone == Displaced(View(), s, hosts[..i], closed)
      {
        var h := hosts[i];
        assert hosts[..i + 1] == hosts[..i] + [h];
        if h in routes && routes[h].session != s {
          if routes[h].session !in closed { return true, gone; }
          gone := gone + {routes[h]};
        }
      }
      assert hosts[..|hosts|] == hosts;
      taken := false;
    }

    /** Deletes every route of one tunnel. */
    method DeleteRoutes(r: Route)
      modifies this`routes
      ensures routes == WithoutRoutes(old(routes), {r})
    {
      var todo := routes.Keys;
      while todo != {}
        invariant todo <= old(routes).Keys && routes.Keys <= old(routes).Keys
        invariant forall h :: h in routes ==> routes[h] == old(routes)[h]
        invariant forall h :: h in old(routes) ==> (h in routes <==> h in todo || old(routes)[h] != r)
        decreases todo
      {
        var h :| h in todo;
        if routes[h] == r { routes := routes - {h}; }
        todo := todo - {h};
      }
    }

    /** Reclaims the displaced tunnels one by one. */
    method EvictAll(gone: set<Route>)
      modifies this`routes, this`info
      ensures View() == Evict(old(View()), gone)
    {
      var todo := gone;
      ghost var done: set<Route> := {};
      assert Evict(View(), {}).routes == routes;
      assert Evict(View(), {}).info == info by {
        assert forall s :: s in info ==> WithoutNames(s, info[s], {}) == info[s];
      }
      while todo != {}
        invariant todo + done == gone
        invariant View() == Evict(old(View()), done)
        decreases todo
      {
        var r :| r in todo;
        ghost var before := View();
        DeleteRoutes(r);
        if r.session in info {
          var i := info[r.session];
          info := info[r.session := Session(i.slug, i.names - {r.name}, i.hosts - {r.name})];
        }
        EvictOneMore(old(View()), done, r);
        assert View() == Evict(before, {r}) by { EvictOne(before, r, View()); }
        todo, done := todo - {r}, done + {r};
      }
      assert done == gone;
    }

    lemma EvictOne(t: Table, r: Route, t': Table)
      requires t'.sessions == t.sessions && t'.gauge == t.gauge && t'.routes == WithoutRoutes(t.routes, {r})
      requires t'.info == if r.session in t.info
                          then t.info[r.session := Session(t.info[r.session].slug, t.info[r.session].names - {r.name},
                                                           t.info[r.session].hosts - {r.name})]
                          else t.info
      ensures t' == Evict(t, {r})
    {
      forall s | s in t.info ensures t'.info[s] == WithoutNames(s, t.info[s], {r}) {
        assert s == r.session ==> t'.info[s].hosts == WithoutNames(s, t.info[s], {r}).hosts;
      }
    }

    lemma EvictOneMore(t: Table, done: set<Route>, r: Route)
      ensures Evict(Evict(t, done), {r}) == Evict(t, done + {r})
    {
      var a, b := Evict(Evict(t, done), {r}), Evict(t, done + {r});
      forall s | s in t.info ensures a.info[s] == b.info[s] {
        assert a.info[s].hosts == b.info[s].hosts;
      }
      assert a.routes == b.routes;
    }

    /** Counts a slug's tunnels, session by session. */
    method CountHeld(slug: Slug) returns (held: nat)
      requires sessions <= info.Keys
      ensures held == |Held(View(), slug)|
    {
      held := 0;
      var todo := sessions;
      ghost var done: set<SessionId> := {};
      assert Held(View().(sessions := done), slug) == {};
      while todo != {}
        invariant todo + done == sessions && todo !! done
        invariant held == |Held(View().(sessions := done), slug)|
        decreases todo
      {
        var s :| s in todo;
        HeldOneMore(View(), done, s, slug);
        if info[s].slug == slug { held := held + |info[s].names|; }
        todo, done := todo - {s}, done + {s};
      }
      assert done == sessions;
    }

    lemma HeldOneMore(t: Table, done: set<SessionId>, s: SessionId, slug: Slug)
      requires s in t.info && s !in done
      ensures |Held(t.(sessions := done + {s}), slug)|
              == |Held(t.(sessions := done), slug)| + (if t.info[s].slug == slug then |t.info[s].names| else 0)
    {
      var before := Held(t.(sessions := done), slug);
      var mine := set n | n in t.info[s].names :: Route(s, n);
      RoutesOf(s, t.info[s].names);
      assert Held(t.(sessions := done + {s}), slug) == before + (if t.info[s].slug == slug then mine else {});
      assert before !! mine;
    }

    method Register(s: SessionId, name: Name, hosts: seq<Host>, closed: set<SessionId>) returns (reply: Reply)
      requires s in info && sessions <= info.Keys
      modifies this`routes, this`info, this`activeTunnels
      ensures (View(), reply) == Registry.Register(old(View()), cfg, s, name, hosts, closed)
    {
      var slug := info[s].slug;
      if TooLong(cfg, slug, name) { return InvalidName; }
      if name in info[s].names { return Registered; }
      var taken, gone := Scan(s, hosts, closed);
      if taken { return NameTaken; }
      EvictAll(gone);
      if cfg.max > 0 {
        var held := CountHeld(slug);
        if held >= cfg.max { return OverLimit; }
      }
      ghost var evicted := View();
      Serve(hosts, Route(s, name));
      info := info[s := Session(info[s].slug, info[s].names + {name}, info[s].hosts[name := hosts])];
      activeTunnels := activeTunnels + 1 - |gone|;
      reply := Registered;
    }

    method Serve(hosts: seq<Host>, r: Route)
      modifies this`routes
      ensures routes == AddRoutes(old(routes), hosts, r)
    {
      for i := 0 to |hosts|
        invariant routes == AddRoutes(old(routes), hosts[..i], r)
      {
        assert hosts[..i + 1] == hosts[..i] + [hosts[i]];
        routes := routes[hosts[i] := r];
      }
      assert hosts[..|hosts|] == hosts;
    }

    /** The locked part of an unregister. */
    method RemoveHosts(s: SessionId, hosts: seq<Host>)
      modifies this`routes, this`activeTunnels
      ensures View() == Registry.RemoveHosts(old(View()), s, hosts)
    {
      var removed := false;
      for i := 0 to |hosts|
        invariant activeTunnels == old(activeTunnels)
        invariant routes == old(routes) - OwnHosts(old(View()), s, hosts[..i])
        invariant removed == (OwnHosts(old(View()), s, hosts[..i]) != {})
      {
        var h := hosts[i];
        assert hosts[..i + 1] == hosts[..i] + [h];
        if h in routes && routes[h].session == s {
          assert h in OwnHosts(old(View()), s, hosts[..i + 1]);
          routes, removed := routes - {h}, true;
        }
      }
      assert hosts[..|hosts|] == hosts;
      ghost var own := OwnHosts(old(View()), s, hosts);
      assert removed == (own != {});
      if removed { activeTunnels := activeTunnels - 1; }
    }

    /** Deletes every route of one session and collects the names they served. */
    method DeleteSession(s: SessionId) returns (names: set<Name>)
      modifies this`routes
      ensures var gone := set h | h in old(routes) && old(routes)[h].session == s;
              routes == old(routes) - gone && names == set h | h in gone :: old(routes)[h].name
    {
      var todo := routes.Keys;
      names := {};
      while todo != {}
        invariant todo <= old(routes).Keys && routes.Keys <= old(routes).Keys
        invariant forall h :: h in routes ==> routes[h] == old(routes)[h]
        invariant forall h :: h in old(routes) ==> (h in routes <==> h in todo || old(routes)[h].session != s)
        invariant forall h :: h in old(routes) && h !in todo && old(routes)[h].session == s ==> old(routes)[h].name in names
        invariant forall n :: n in names ==> exists h :: h in old(routes) && old(routes)[h] == Route(s, n)
        decreases todo
      {
        var h :| h in todo;
        if routes[h].session == s {
          assert old(routes)[h] == Route(s, routes[h].name);
          names := names + {routes[h].name};
          routes := routes - {h};
        }
        todo := todo - {h};
      }
    }

    method DropSession(s: SessionId)
      modifies this`routes, this`sessions, this`activeTunnels
      ensures View() == Drop(old(View()), s)
    {
      sessions := sessions - {s};
      var names := DeleteSession(s);
      activeTunnels := activeTunnels - |names|;
    }
  }
}
