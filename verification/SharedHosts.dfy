/** Host lists with which two tunnels of one session share a host, or an unregister hits another tunnel's: what the
    gauge's failing tables look like when the hosts come from a scope. */
module SharedHosts {
  import opened Naming
  import opened Labels
  import opened Registry

  /** Before and after the base domain was added to the scope as a custom domain. */
  function Plain(a: string): Scope {
    Scope([a], a, [])
  }

  function WithBase(a: string, base: string): Scope {
    Scope([a], a, [Domain(base, false)])
  }

  /** The default host of `q` is the custom host of the tunnel named after `q` and the slug. */
  lemma DefaultIsCustom(q: string, a: string, base: string)
    requires a != ""
    ensures Hostname(q, a, base, Hyphen) == (q + "-" + a) + "." + base
  {
  }

  /** With the plain scope `q` answers on its default host alone; with the base as a domain the tunnel `q-a` answers on
      that host and on its own default host. */
  lemma ListsOfBoth(q: string, a: string, base: string)
    requires a != ""
    ensures forall h :: Listed(h, q, a, base, Hyphen, Plain(a)) <==> h == Hostname(q, a, base, Hyphen)
    ensures forall h :: Listed(h, q + "-" + a, a, base, Hyphen, WithBase(a, base)) <==>
              h == Hostname(q + "-" + a, a, base, Hyphen) || h == Hostname(q, a, base, Hyphen)
  {
    DefaultIsCustom(q, a, base);
    forall h ensures Listed(h, q, a, base, Hyphen, Plain(a)) <==> h == Hostname(q, a, base, Hyphen) {
      assert a in [a];
    }
    var web, scope := q + "-" + a, WithBase(a, base);
    forall h
      ensures Listed(h, web, a, base, Hyphen, scope) <==> h == Hostname(web, a, base, Hyphen) || h == web + "." + base
    {
      assert a in [a] && Domain(base, false) in scope.domains;
    }
  }

  /** `q` registered with the plain scope, then `q-a` after the base became a domain: the second register swallows the
      first tunnel. `hosts` is whatever list hostsForTunnel makes of the second. */
  lemma SwallowedByScope(cfg: Config, q: string, a: string, base: string, hosts: seq<Host>)
    requires ValidLabel(q) && ValidSlug(a) && ValidLabel(q + "-" + a) && cfg.max == 0 && !TooLong(cfg, a, q + "-" + a)
    requires forall h :: h in hosts <==> Listed(h, q + "-" + a, a, base, Hyphen, WithBase(a, base))
    ensures var t := OneTunnel(a, q, Hostname(q, a, base, Hyphen));
            var (t', reply) := Register(t, cfg, 1, q + "-" + a, hosts, {});
            GaugeExact(t) && reply == Registered && !GaugeExact(t')
  {
    ListsOfBoth(q, a, base);
    assert |q + "-" + a| != |q|;
    SwallowDrift(cfg, a, q, q + "-" + a, Hostname(q, a, base, Hyphen), hosts);
  }

  /** `q-a` registered with the base as a domain, then `q` after it was removed: unregistering `q-a` takes both away and
      counts one. */
  lemma BothVanishByScope(q: string, a: string, base: string)
    requires ValidLabel(q) && ValidSlug(a) && ValidLabel(q + "-" + a)
    ensures var x, y := Hostname(q + "-" + a, a, base, Hyphen), Hostname(q, a, base, Hyphen);
            var t := TwoTunnels(a, q + "-" + a, q, x, y);
            && Listed(x, q + "-" + a, a, base, Hyphen, WithBase(a, base)) && Listed(y, q + "-" + a, a, base, Hyphen, WithBase(a, base))
            && Listed(y, q, a, base, Hyphen, Plain(a))
            && GaugeExact(t) && !GaugeExact(RemoveHosts(t, 1, [x, y]))
  {
    ListsOfBoth(q, a, base);
    HostnameInjective(q + "-" + a, a, q, a, base, Hyphen);
    assert |q + "-" + a| != |q|;
    SharedHostDrift(a, q + "-" + a, q, Hostname(q + "-" + a, a, base, Hyphen), Hostname(q, a, base, Hyphen));
  }

  /** In the flat shape, with the domain `d.base`: a request to unregister the unknown name `app.d` falls back to the
      custom host of tunnel `app`, which stays served and is no longer counted. */
  lemma StrayNameByScope(app: string, a: string, d: string, base: string)
    requires d != ""
    ensures var x, y := Hostname(app, a, base, Flat), app + "." + (d + "." + base);
            && Hostname(app + "." + d, a, base, Flat) == y
            && GaugeExact(TwoHosts(a, app, x, y)) && !GaugeExact(RemoveHosts(TwoHosts(a, app, x, y), 1, [y]))
  {
    var x, y := Hostname(app, a, base, Flat), app + "." + (d + "." + base);
    assert |x| == |app| + 1 + |base| && |y| == |app| + 1 + |d| + 1 + |base|;
    StrayNameDrift(a, app, x, y);
  }
}
