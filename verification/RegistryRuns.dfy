/** Every interleaving of the sessions that share one routing table. Each session's control loop runs its
    own registers, unregisters and final drop in order; loops of different sessions interleave freely, and
    a transport may close at any time. */
module RegistryRuns {
  import opened Registry

  /** Where one session's control loop stands. An unregister reads its hosts under the session's lock,
      edits the table under the edge's lock, and forgets the name under the session's lock again. */
  datatype Pc = Serving | Unregistering(name: Name, hosts: seq<Host>) | Forgetting(name: Name) | Dropped

  datatype State = State(t: Table, closed: set<SessionId>, pcs: map<SessionId, Pc>)

  datatype Event =
    | Opens(s: SessionId, slug: Slug)
    | Closes(s: SessionId)
    | Registers(s: SessionId, name: Name, hosts: seq<Host>)
    | ReadsHosts(s: SessionId, name: Name, fallback: Host)
    | RemovesHosts(s: SessionId)
    | Forgets(s: SessionId)
    | Drops(s: SessionId)

  predicate At(st: State, s: SessionId) {
    s in st.pcs && s in st.t.info
  }

  predicate Enabled(st: State, e: Event) {
    match e
    case Opens(s, _) => s !in st.pcs && s !in st.t.info
    case Closes(s) => true
    case Registers(s, _, hosts) => At(st, s) && st.pcs[s] == Serving && hosts != []
    case ReadsHosts(s, _, _) => At(st, s) && st.pcs[s] == Serving
    case RemovesHosts(s) => At(st, s) && st.pcs[s].Unregistering?
    case Forgets(s) => At(st, s) && st.pcs[s].Forgetting?
    case Drops(s) => At(st, s) && st.pcs[s] == Serving
  }

  /** The hypothesis that host sets of distinct (name, slug) pairs are disjoint, for the hosts a step brings in. */
  predicate Disjoint(st: State, e: Event, owner: Owner)
    requires Enabled(st, e)
  {
    match e
    case Registers(s, name, hosts) => forall h :: h in hosts ==> owner(h) == (name, st.t.info[s].slug)
    case ReadsHosts(s, name, fallback) => owner(fallback) == (name, st.t.info[s].slug)
    case _ => true
  }

  function Apply(st: State, e: Event, cfg: Config): State
    requires Enabled(st, e)
  {
    match e
    case Opens(s, slug) => st.(t := Open(st.t, s, slug), pcs := st.pcs[s := Serving])
    case Closes(s) => st.(closed := st.closed + {s})
    case Registers(s, name, hosts) => st.(t := Register(st.t, cfg, s, name, hosts, st.closed).0)
    case ReadsHosts(s, name, fallback) =>
      var known := if name in st.t.info[s].hosts then st.t.info[s].hosts[name] else [];
      st.(pcs := st.pcs[s := Unregistering(name, if known == [] then [fallback] else known)])
    case RemovesHosts(s) =>
      st.(t := RemoveHosts(st.t, s, st.pcs[s].hosts), pcs := st.pcs[s := Forgetting(st.pcs[s].name)])
    case Forgets(s) => st.(t := ForgetName(st.t, s, st.pcs[s].name), pcs := st.pcs[s := Serving])
    case Drops(s) => st.(t := Drop(st.t, s), pcs := st.pcs[s := Dropped])
  }

  // Without any hypothesis on the hosts.

  /** What a session may rely on between its steps. */
  ghost predicate PcSound(st: State, s: SessionId)
    requires s in st.pcs && s in st.t.info
  {
    match st.pcs[s]
    case Serving => s in st.t.sessions
    case Unregistering(name, hosts) =>
      s in st.t.sessions && forall h :: h in st.t.routes && st.t.routes[h] == Route(s, name) ==> h in hosts
    case Forgetting(name) => s in st.t.sessions && Route(s, name) !in Tunnels(st.t.routes)
    case Dropped => s !in st.t.sessions
  }

  ghost predicate Sound(st: State, cfg: Config) {
    && Consistent(st.t) && WithinCap(st.t, cfg) && st.pcs.Keys == st.t.info.Keys
    && forall s :: s in st.pcs ==> PcSound(st, s)
  }

  /** A step by one session adds no route for another, so what the others hold stays true. */
  lemma OthersKeepPc(st: State, st': State, s: SessionId)
    requires s in st.pcs && s in st.t.info && PcSound(st, s)
    requires s in st'.pcs && st'.pcs[s] == st.pcs[s] && s in st'.t.info
    requires s in st.t.sessions <==> s in st'.t.sessions
    requires forall h :: h in st'.t.routes && st'.t.routes[h].session == s ==> h in st.t.routes && st.t.routes[h] == st'.t.routes[h]
    ensures PcSound(st', s)
  {
  }

  lemma RegisterFrame(t: Table, cfg: Config, x: SessionId, name: Name, hosts: seq<Host>, closed: set<SessionId>)
    requires x in t.info
    ensures var t' := Register(t, cfg, x, name, hosts, closed).0;
            && t'.info.Keys == t.info.Keys && t'.sessions == t.sessions
            && (forall s :: s in t.info ==> t'.info[s].slug == t.info[s].slug)
            && (forall h :: h in t'.routes && t'.routes[h].session != x ==> h in t.routes && t.routes[h] == t'.routes[h])
  {
  }

  lemma RegisterSound(st: State, e: Event, cfg: Config)
    requires Sound(st, cfg) && Enabled(st, e) && e.Registers?
    ensures Sound(Apply(st, e, cfg), cfg)
  {
    var st' := Apply(st, e, cfg);
    RegisterKeepsConsistent(st.t, cfg, e.s, e.name, e.hosts, st.closed);
    RegisterKeepsCap(st.t, cfg, e.s, e.name, e.hosts, st.closed);
    RegisterFrame(st.t, cfg, e.s, e.name, e.hosts, st.closed);
    forall s | s in st'.pcs ensures PcSound(st', s) {
      if s != e.s { OthersKeepPc(st, st', s); }
    }
  }

  lemma ReadSound(st: State, e: Event, cfg: Config)
    requires Sound(st, cfg) && Enabled(st, e) && e.ReadsHosts?
    ensures Sound(Apply(st, e, cfg), cfg)
  {
    var st' := Apply(st, e, cfg);
    assert forall h :: h in st.t.routes && st.t.routes[h] == Route(e.s, e.name) ==> h in st'.pcs[e.s].hosts;
    forall s | s in st'.pcs ensures PcSound(st', s) {
      if s != e.s { OthersKeepPc(st, st', s); }
    }
  }

  lemma RemoveSound(st: State, e: Event, cfg: Config)
    requires Sound(st, cfg) && Enabled(st, e) && e.RemovesHosts?
    ensures Sound(Apply(st, e, cfg), cfg)
  {
    var st' := Apply(st, e, cfg);
    RemoveKeepsSound(st.t, cfg, e.s, st.pcs[e.s].hosts);
    forall s | s in st'.pcs ensures PcSound(st', s) {
      if s != e.s {
        OthersKeepPc(st, st', s);
      } else {
        NoneLeft(st, e.s);
      }
    }
  }

  /** The hosts an unregister read are all its tunnel has, so removing them removes the tunnel. */
  lemma NoneLeft(st: State, s: SessionId)
    requires s in st.pcs && s in st.t.info && PcSound(st, s) && st.pcs[s].Unregistering?
    ensures Route(s, st.pcs[s].name) !in Tunnels(RemoveHosts(st.t, s, st.pcs[s].hosts).routes)
  {
  }

  lemma ForgetSound(st: State, e: Event, cfg: Config)
    requires Sound(st, cfg) && Enabled(st, e) && e.Forgets?
    ensures Sound(Apply(st, e, cfg), cfg)
  {
    var st' := Apply(st, e, cfg);
    ForgetKeepsSound(st.t, cfg, e.s, st.pcs[e.s].name);
    forall s | s in st'.pcs ensures PcSound(st', s) {
      if s != e.s { OthersKeepPc(st, st', s); }
    }
  }

  lemma DropSound(st: State, e: Event, cfg: Config)
    requires Sound(st, cfg) && Enabled(st, e) && e.Drops?
    ensures Sound(Apply(st, e, cfg), cfg)
  {
    var st' := Apply(st, e, cfg);
    DropKeepsSound(st.t, cfg, e.s);
    forall s | s in st'.pcs ensures PcSound(st', s) {
      if s != e.s { OthersKeepPc(st, st', s); }
    }
  }

  lemma OpenSound(st: State, e: Event, cfg: Config)
    requires Sound(st, cfg) && Enabled(st, e) && (e.Opens? || e.Closes?)
    ensures Sound(Apply(st, e, cfg), cfg)
  {
    var st' := Apply(st, e, cfg);
    if e.Opens? { OpenKeepsSound(st.t, cfg, e.s, e.slug); }
    forall s | s in st'.pcs ensures PcSound(st', s) {
      if s in st.pcs { OthersKeepPc(st, st', s); }
    }
  }

  lemma StepKeepsSound(st: State, e: Event, cfg: Config)
    requires Sound(st, cfg) && Enabled(st, e)
    ensures Sound(Apply(st, e, cfg), cfg)
  {
    match e
    case Registers(_, _, _) => RegisterSound(st, e, cfg);
    case ReadsHosts(_, _, _) => ReadSound(st, e, cfg);
    case RemovesHosts(_) => RemoveSound(st, e, cfg);
    case Forgets(_) => ForgetSound(st, e, cfg);
    case Drops(_) => DropSound(st, e, cfg);
    case _ => OpenSound(st, e, cfg);
  }

  /** A step of another session never removes or replaces a route whose session's transport is open. */
  lemma OthersSpareOpenRoutes(st: State, e: Event, cfg: Config, h: Host)
    requires Enabled(st, e)
    requires h in st.t.routes && st.t.routes[h].session != e.s && st.t.routes[h].session !in st.closed
    ensures var t' := Apply(st, e, cfg).t; h in t'.routes && t'.routes[h] == st.t.routes[h]
  {
    if e.Registers? { RegisterSparesOpen(st.t, cfg, e.s, e.name, e.hosts, st.closed, h); }
  }

  // The gauge.

  /** What the table must be like for a step to keep the gauge right. Only two kinds of step can put it wrong: a
      register that evicts and is then at the cap, or that takes the last host of another tunnel of its session;
      and an unregister whose hosts are not all and only the hosts of one tunnel served. */
  ghost predicate GaugeSafe(st: State, e: Event, cfg: Config)
    requires Enabled(st, e)
  {
    match e
    case Registers(s, name, hosts) =>
      var slug, gone := st.t.info[s].slug, Displaced(st.t, s, hosts, st.closed);
      || TooLong(cfg, slug, name) || name in st.t.info[s].names || Conflict(st.t, s, hosts, st.closed)
      || (if AtCap(Evict(st.t, gone), cfg, slug) then gone == {} else Swallowed(st.t, s, name, hosts) == {})
    case RemovesHosts(s) =>
      var hosts := st.pcs[s].hosts;
      |Vanishing(st.t, s, hosts)| == if OwnHosts(st.t, s, hosts) == {} then 0 else 1
    case _ => true
  }

  /** Exactly which steps put a right gauge wrong. */
  lemma StepGaugeExactly(st: State, e: Event, cfg: Config)
    requires Sound(st, cfg) && GaugeExact(st.t) && Enabled(st, e)
    ensures GaugeExact(Apply(st, e, cfg).t) <==> GaugeSafe(st, e, cfg)
  {
    match e
    case Registers(s, name, hosts) => RegisterGaugeExactly(st.t, cfg, s, name, hosts, st.closed);
    case RemovesHosts(s) => RemoveGaugeExactly(st.t, s, st.pcs[s].hosts);
    case Drops(s) => DropKeepsGauge(st.t, s);
    case _ =>
  }

  // With disjoint host sets.

  /** A host a session lists for a name is owned by that name. */
  ghost predicate ListsOwned(t: Table, owner: Owner) {
    forall s, n, h :: s in t.info && n in t.info[s].hosts && h in t.info[s].hosts[n] ==> owner(h) == (n, t.info[s].slug)
  }

  ghost predicate PcOwned(st: State, s: SessionId, owner: Owner)
    requires s in st.pcs && s in st.t.info
  {
    st.pcs[s].Unregistering? ==> forall h :: h in st.pcs[s].hosts ==> owner(h) == (st.pcs[s].name, st.t.info[s].slug)
  }

  ghost predicate Inv(st: State, cfg: Config, owner: Owner) {
    && Sound(st, cfg) && GaugeExact(st.t) && Owned(st.t, owner) && ListsOwned(st.t, owner)
    && forall s :: s in st.pcs ==> PcOwned(st, s, owner)
  }

  lemma RegisterLists(t: Table, cfg: Config, x: SessionId, name: Name, hosts: seq<Host>, closed: set<SessionId>, owner: Owner)
    requires x in t.info && ListsOwned(t, owner) && forall h :: h in hosts ==> owner(h) == (name, t.info[x].slug)
    ensures ListsOwned(Register(t, cfg, x, name, hosts, closed).0, owner)
  {
  }

  lemma SlugsStay(st: State, e: Event, cfg: Config, s: SessionId)
    requires Enabled(st, e) && s in st.t.info && st.pcs.Keys == st.t.info.Keys
    ensures s in Apply(st, e, cfg).t.info && Apply(st, e, cfg).t.info[s].slug == st.t.info[s].slug
  {
    if e.Registers? { RegisterFrame(st.t, cfg, e.s, e.name, e.hosts, st.closed); }
  }

  /** The table's part of a step, under the hypothesis. */
  lemma TableStep(st: State, e: Event, cfg: Config, owner: Owner)
    requires Inv(st, cfg, owner) && Enabled(st, e) && Disjoint(st, e, owner)
    ensures var t' := Apply(st, e, cfg).t; Consistent(t') && GaugeExact(t') && Owned(t', owner)
  {
    match e
    case Registers(s, name, hosts) => RegisterKeepsAll(st.t, cfg, s, name, hosts, st.closed, owner);
    case RemovesHosts(s) => RemoveKeepsAll(st.t, cfg, s, st.pcs[s].name, st.pcs[s].hosts, owner);
    case Forgets(s) => ForgetKeepsAll(st.t, cfg, s, st.pcs[s].name, owner);
    case Drops(s) => DropKeepsAll(st.t, cfg, s, owner);
    case Opens(s, slug) => OpenKeepsAll(st.t, cfg, s, slug, owner);
    case _ =>
  }

  lemma ListsStep(st: State, e: Event, cfg: Config, owner: Owner)
    requires Inv(st, cfg, owner) && Enabled(st, e) && Disjoint(st, e, owner)
    ensures ListsOwned(Apply(st, e, cfg).t, owner)
  {
    if e.Registers? { RegisterLists(st.t, cfg, e.s, e.name, e.hosts, st.closed, owner); }
  }

  lemma StepKeepsInv(st: State, e: Event, cfg: Config, owner: Owner)
    requires Inv(st, cfg, owner) && Enabled(st, e) && Disjoint(st, e, owner)
    ensures Inv(Apply(st, e, cfg), cfg, owner)
  {
    var st' := Apply(st, e, cfg);
    StepKeepsSound(st, e, cfg);
    TableStep(st, e, cfg, owner);
    ListsStep(st, e, cfg, owner);
    forall s | s in st'.pcs ensures PcOwned(st', s, owner) {
      if s in st.pcs { SlugsStay(st, e, cfg, s); }
    }
  }

  // Whole runs.

  const EMPTY := State(Table(map[], {}, map[], 0), {}, map[])

  ghost predicate Run(states: seq<State>, events: seq<Event>, cfg: Config) {
    && |states| == |events| + 1 && states[0] == EMPTY
    && forall i :: 0 <= i < |events| ==> Enabled(states[i], events[i]) && states[i + 1] == Apply(states[i], events[i], cfg)
  }

  lemma EmptyIsSound(cfg: Config, owner: Owner)
    ensures Inv(EMPTY, cfg, owner)
  {
    assert forall slug :: Held(EMPTY.t, slug) == {};
    assert Tunnels(EMPTY.t.routes) == {};
  }

  /** In every state of every run, whatever the hosts: routes, names and host lists agree, only open sessions have
      routes, and no slug holds more than its cap. */
  lemma {:induction false} RoutesAlwaysSound(states: seq<State>, events: seq<Event>, cfg: Config, i: nat)
    requires Run(states, events, cfg) && i < |states|
    ensures Sound(states[i], cfg)
    ensures Consistent(states[i].t) && WithinCap(states[i].t, cfg)
  {
    if i == 0 {
      EmptyIsSound(cfg, h => ("", ""));
    } else {
      RoutesAlwaysSound(states, events, cfg, i - 1);
      StepKeepsSound(states[i - 1], events[i - 1], cfg);
    }
  }

  /** In every run, whatever the hosts: the gauge is the number of distinct tunnels served as long as every step finds
      the table as GaugeSafe says, and the first step that does not puts it wrong. */
  lemma {:induction false} GaugeExactUntil(states: seq<State>, events: seq<Event>, cfg: Config, i: nat)
    requires Run(states, events, cfg) && i < |states|
    requires forall j: nat :: j + 1 < i ==> GaugeSafe(states[j], events[j], cfg)
    ensures GaugeExact(states[i].t) <==> (i > 0 ==> GaugeSafe(states[i - 1], events[i - 1], cfg))
  {
    RoutesAlwaysSound(states, events, cfg, i);
    if i == 0 {
      EmptyIsSound(cfg, h => ("", ""));
    } else {
      GaugeExactUntil(states, events, cfg, i - 1);
      RoutesAlwaysSound(states, events, cfg, i - 1);
      if i > 1 { assert GaugeSafe(states[i - 2], events[i - 2], cfg); }
      StepGaugeExactly(states[i - 1], events[i - 1], cfg);
    }
  }

  /** In every state of every run whose steps bring in disjoint host sets: all of that, and the gauge is the number of
      tunnels served. */
  lemma {:induction false} TableAlwaysSound(states: seq<State>, events: seq<Event>, cfg: Config, owner: Owner, i: nat)
    requires Run(states, events, cfg) && i < |states|
    requires forall j: nat :: j < i ==> Disjoint(states[j], events[j], owner)
    ensures Inv(states[i], cfg, owner)
    ensures Consistent(states[i].t) && GaugeExact(states[i].t) && WithinCap(states[i].t, cfg)
  {
    if i == 0 {
      EmptyIsSound(cfg, owner);
    } else {
      TableAlwaysSound(states, events, cfg, owner, i - 1);
      assert Disjoint(states[i - 1], events[i - 1], owner);
      StepKeepsInv(states[i - 1], events[i - 1], cfg, owner);
    }
  }
}
