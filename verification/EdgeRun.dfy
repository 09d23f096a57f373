/** The edge as one machine: connections, dials, workers and the shutdown that must join them all before the
    last flush of the traffic totals. */
module EdgeRun {
  import opened Counting
  import opened EdgeLimits
  import A = Admission
  import L = Leases

  type Id = nat

  /** The other wait groups: accept loops, proxied requests, and the periodic flusher. */
  datatype Group = Accepting | Proxying | Flushing
  datatype Worker = Worker(group: Group, running: bool)

  /** Where Shutdown stands. `stage` counts the wait groups passed, in the order accept, handler, session, proxy,
      background, stream. */
  datatype Phase = Up | Closing | Waiting(stage: nat) | Flushed | Skipped

  const GROUPS := 6

  /** `snapshot`: the transports Shutdown listed in the section that set the flag. `closed`: the transports that
      were closed. `saved`: what the final flush wrote. */
  datatype State = State(
    front: A.Front, back: L.Back, workers: map<Id, Worker>, accepts: nat, proxies: nat, background: nat,
    phase: Phase, snapshot: set<Id>, closed: set<Id>, saved: seq<L.Report>)

  datatype Event =
    | ConnStep(k: Id, conn: A.Step)
    | DialStep(d: Id, dial: L.Step)
    | StartWorker(w: Id, group: Group)   // Serve starts its loops, beginProxy admits a request
    | EndWorker(w: Id)
    | Closes(k: Id)               // a transport is closed by its peer, the network or its own handler
    | Flag
    | CloseNext(k: Id)            // Shutdown closes one listed transport
    | StartWaiting
    | GroupDone
    | TimesOut(again: bool)       // the deadline passed: wait again from the first group, or give up
    | Flush

  datatype Config = Config(limits: A.Limits, settings: Settings)

  function Total(cfg: Config): nat {
    if cfg.settings.total < 0 then 0 else cfg.settings.total
  }

  function Cap(cfg: Config, advertised: int): nat {
    var c := StreamCapacity(cfg.settings.perSession, advertised);
    if c < 0 then 0 else c
  }

  /** The counter of a stage's wait group. */
  function GroupCount(s: State, stage: nat): nat {
    if stage == 0 then s.accepts
    else if stage == 1 then s.front.handlers
    else if stage == 2 then s.front.sessionHandlers
    else if stage == 3 then s.proxies
    else if stage == 4 then s.background
    else s.back.watchers
  }

  predicate StreamOpen(b: L.Back, k: Id) {
    exists d :: d in b.dials && b.dials[d].session == k && b.dials[d].pc == L.Open
  }

  /** The waits in dropSession: the transport's Done follows every stream's, and the watchers are joined. */
  predicate MayStep(s: State, k: Id, e: A.Step) {
    match e
    case Accept(_) => s.accepts > 0
    case TransportDone => !StreamOpen(s.back, k)
    case JoinWatchers => k in s.back.sess && s.back.sess[k].watchers == 0
    case StopAdmission => k in s.back.sess
    case _ => true
  }

  predicate Enabled(s: State, e: Event) {
    match e
    case ConnStep(k, step) => A.Enabled(s.front, k, step) && MayStep(s, k, step)
    case DialStep(d, step) => L.Enabled(s.back, d, step)
    case StartWorker(w, _) => w !in s.workers
    case EndWorker(w) => w in s.workers && s.workers[w].running && WorkerCount(s, s.workers[w].group) > 0
    case Closes(_) => true
    case Flag => s.phase == Up
    case CloseNext(k) => s.phase == Closing && k in s.snapshot
    case StartWaiting => s.phase == Closing && s.snapshot <= s.closed
    case GroupDone => s.phase.Waiting? && s.phase.stage < GROUPS && GroupCount(s, s.phase.stage) == 0
    case TimesOut(_) => s.phase.Waiting?
    case Flush => s.phase == Waiting(GROUPS)
  }

  function WorkerCount(s: State, group: Group): nat {
    match group
    case Accepting => s.accepts
    case Proxying => s.proxies
    case Flushing => s.background
  }

  function SetWorker(s: State, w: Id, x: Worker, n: nat): State {
    var t := s.(workers := s.workers[w := x]);
    match x.group
    case Accepting => t.(accepts := n)
    case Proxying => t.(proxies := n)
    case Flushing => t.(background := n)
  }

  /** Promotion makes the session's slot channel; the drop closes its stream admission. */
  function BackAfter(cfg: Config, s: State, k: Id, e: A.Step): L.Back
    requires A.Enabled(s.front, k, e) && MayStep(s, k, e)
  {
    if e.Promote? && A.Next(cfg.limits, s.front, k, e).session then L.OpenShare(s.back, k, Cap(cfg, e.advertised))
    else if e.StopAdmission? then L.CloseShare(s.back, k)
    else s.back
  }

  function Apply(cfg: Config, s: State, e: Event): State
    requires Enabled(s, e)
  {
    match e
    case ConnStep(k, step) => s.(front := A.Apply(cfg.limits, s.front, k, step), back := BackAfter(cfg, s, k, step))
    case DialStep(d, step) => s.(back := L.Apply(Total(cfg), s.back, d, step))
    // the begin section: refuse when shutting down, else join the group
    case StartWorker(w, group) =>
      if s.front.down then SetWorker(s, w, Worker(group, false), WorkerCount(s, group))
      else SetWorker(s, w, Worker(group, true), WorkerCount(s, group) + 1)
    case EndWorker(w) =>
      var x := s.workers[w];
      SetWorker(s, w, x.(running := false), WorkerCount(s, x.group) - 1)
    case Closes(k) => s.(closed := s.closed + {k})
    case Flag => s.(phase := Closing, front := s.front.(down := true), snapshot := s.front.preauth + s.front.sessions)
    case CloseNext(k) => s.(closed := s.closed + {k})
    case StartWaiting => s.(phase := Waiting(0))
    case GroupDone => s.(phase := Waiting(s.phase.stage + 1))
    case TimesOut(again) => s.(phase := if again then Waiting(0) else Skipped)
    case Flush => s.(phase := Flushed, saved := s.back.reports)
  }

  // Invariants.

  /** A session's share exists exactly for promoted connections, is closed from the drop on, and is empty once the
      handler has joined its watchers. */
  predicate ShareRight(c: A.Conn, x: L.Sess) {
    && (c.pc != A.Promoted && c.pc != A.Serving ==> x.closing)
    && (c.pc == A.Joined || c.pc == A.Ending || c.pc == A.Over ==> x.watchers == 0)
  }

  ghost predicate Coupled(front: A.Front, back: L.Back) {
    && (forall k :: k in back.sess <==> k in front.conns && front.conns[k].session)
    && (forall k :: k in back.sess ==> ShareRight(front.conns[k], back.sess[k]))
  }

  predicate Running(g: Group, x: Worker) {
    x.running && x.group == g
  }

  function Of(g: Group): Worker -> bool {
    (x: Worker) => Running(g, x)
  }

  ghost predicate WorkersExact(s: State) {
    forall g :: WorkerCount(s, g) == Count(s.workers, Of(g))
  }

  function Stage(s: State): nat {
    match s.phase
    case Waiting(n) => n
    case Flushed => GROUPS
    case _ => 0
  }

  ghost predicate Downward(s: State) {
    && (s.phase != Up <==> s.front.down)
    && (s.phase != Up ==> s.front.preauth + s.front.sessions <= s.snapshot)
    && (s.phase != Up && s.phase != Closing ==> s.snapshot <= s.closed)
    && Stage(s) <= GROUPS
    && (forall i: nat :: i < Stage(s) ==> GroupCount(s, i) == 0)
    && (s.phase == Flushed ==> s.saved == s.back.reports)
  }

  ghost predicate Inv(cfg: Config, s: State) {
    && A.Inv(cfg.limits, s.front) && L.Inv(Total(cfg), s.back)
    && Coupled(s.front, s.back) && WorkersExact(s) && Downward(s)
  }

  /** What a step that is not Shutdown's own must respect. */
  lemma DownwardKept(s: State, t: State)
    requires Downward(s) && t.phase == s.phase && t.snapshot == s.snapshot && t.saved == s.saved
    requires s.closed <= t.closed && t.front.down == s.front.down
    requires s.front.down ==> t.front.preauth + t.front.sessions <= s.front.preauth + s.front.sessions
    requires s.front.down ==> NoGroupGrows(s, t)
    requires Stage(s) == GROUPS ==> t.back.watchers == 0 && t.back.reports == s.back.reports
    ensures Downward(t)
  {
    forall i: nat | i < Stage(t) ensures GroupCount(t, i) == 0 { assert GroupCount(s, i) == 0; }
  }

  /** No wait group but the streams' is larger in `t`. */
  predicate NoGroupGrows(s: State, t: State) {
    && t.accepts <= s.accepts && t.front.handlers <= s.front.handlers
    && t.front.sessionHandlers <= s.front.sessionHandlers && t.proxies <= s.proxies && t.background <= s.background
  }

  // Each kind of step, one part of the invariant at a time.

  lemma ConnKeepsCoupled(cfg: Config, s: State, k: Id, e: A.Step)
    requires A.Sound(s.front, k) && Coupled(s.front, s.back) && A.Enabled(s.front, k, e) && MayStep(s, k, e)
    ensures Coupled(A.Apply(cfg.limits, s.front, k, e), BackAfter(cfg, s, k, e))
    ensures e.Promote? ==> k !in s.back.sess
  {
    SessionOnlyByPromotion(cfg.limits, s.front, k, e);
    if k in s.back.sess { ShareStaysRight(cfg, s, k, e); }
    BackAtOne(cfg, s, k, e);
    CoupledAtOne(s.front, s.back, A.Apply(cfg.limits, s.front, k, e), BackAfter(cfg, s, k, e), k);
  }

  lemma BackAtOne(cfg: Config, s: State, k: Id, e: A.Step)
    requires A.Enabled(s.front, k, e) && MayStep(s, k, e)
    ensures var t := BackAfter(cfg, s, k, e).sess; t == if k in t then s.back.sess[k := t[k]] else s.back.sess
  {
  }

  /** Changing one connection and its share. */
  lemma CoupledAtOne(front: A.Front, back: L.Back, front': A.Front, back': L.Back, k: Id)
    requires Coupled(front, back)
    requires k in front'.conns && front'.conns == front.conns[k := front'.conns[k]]
    requires back'.sess == if k in back'.sess then back.sess[k := back'.sess[k]] else back.sess
    requires k in back'.sess <==> front'.conns[k].session
    requires k in back'.sess ==> ShareRight(front'.conns[k], back'.sess[k])
    ensures Coupled(front', back')
  {
  }

  lemma SessionOnlyByPromotion(l: A.Limits, f: A.Front, k: Id, e: A.Step)
    requires A.Sound(f, k) && A.Enabled(f, k, e)
    ensures k in f.conns && f.conns[k].session ==> A.Next(l, f, k, e).session && !e.Promote?
    ensures A.Next(l, f, k, e).session ==> (k in f.conns && f.conns[k].session) || e.Promote?
    ensures e.Promote? && A.Next(l, f, k, e).session ==> A.Next(l, f, k, e).pc == A.Promoted
  {
  }

  lemma ShareStaysRight(cfg: Config, s: State, k: Id, e: A.Step)
    requires A.Sound(s.front, k) && A.Enabled(s.front, k, e) && MayStep(s, k, e) && !e.Promote?
    requires k in s.front.conns && s.front.conns[k].session && k in s.back.sess && ShareRight(s.front.conns[k], s.back.sess[k])
    ensures k in BackAfter(cfg, s, k, e).sess
    ensures ShareRight(A.Next(cfg.limits, s.front, k, e), BackAfter(cfg, s, k, e).sess[k])
  {
  }

  lemma ConnKeepsBack(cfg: Config, s: State, k: Id, e: A.Step)
    requires L.Inv(Total(cfg), s.back) && A.Enabled(s.front, k, e) && MayStep(s, k, e) && (e.Promote? ==> k !in s.back.sess)
    ensures L.Inv(Total(cfg), BackAfter(cfg, s, k, e))
    ensures var b := BackAfter(cfg, s, k, e); b.reports == s.back.reports && b.watchers == s.back.watchers
  {
    if e.Promote? { L.OpenKeepsInv(Total(cfg), s.back, k, Cap(cfg, e.advertised)); }
    if e.StopAdmission? { L.CloseKeepsInv(Total(cfg), s.back, k); }
  }

  lemma ConnKeepsDownward(cfg: Config, s: State, k: Id, e: A.Step)
    requires A.Inv(cfg.limits, s.front) && Downward(s) && Enabled(s, ConnStep(k, e))
    requires var b := BackAfter(cfg, s, k, e); b.reports == s.back.reports && b.watchers == s.back.watchers
    ensures Downward(Apply(cfg, s, ConnStep(k, e)))
  {
    if s.front.down { A.DownStopsAdmission(cfg.limits, s.front, k, e); }
    if Stage(s) == GROUPS { assert GroupCount(s, 5) == 0; }
    DownwardKept(s, Apply(cfg, s, ConnStep(k, e)));
  }

  lemma ConnKeepsInv(cfg: Config, s: State, k: Id, e: A.Step)
    requires Inv(cfg, s) && Enabled(s, ConnStep(k, e))
    ensures Inv(cfg, Apply(cfg, s, ConnStep(k, e)))
  {
    A.StepKeepsInv(cfg.limits, s.front, k, e);
    A.InvMeansSound(cfg.limits, s.front, k);
    ConnKeepsCoupled(cfg, s, k, e);
    ConnKeepsBack(cfg, s, k, e);
    WorkersKept(s, Apply(cfg, s, ConnStep(k, e)));
    ConnKeepsDownward(cfg, s, k, e);
  }

  lemma WorkersKept(s: State, t: State)
    requires WorkersExact(s) && t.workers == s.workers
    requires t.accepts == s.accepts && t.proxies == s.proxies && t.background == s.background
    ensures WorkersExact(t)
  {
    forall g ensures WorkerCount(t, g) == Count(t.workers, Of(g)) { assert WorkerCount(t, g) == WorkerCount(s, g); }
  }

  /** When no handler is left, every session's share is closed and empty. */
  lemma NoHandlerNoSession(cfg: Config, s: State, k: Id)
    requires Inv(cfg, s) && s.front.handlers == 0 && s.front.sessionHandlers == 0 && k in s.back.sess
    ensures s.back.sess[k].closing && s.back.sess[k].watchers == 0
  {
    CountZero(s.front.conns, A.TcpHandled);
    CountZero(s.front.conns, A.QuicHandled);
    var c := s.front.conns[k];
    assert !A.TcpHandled(c) && !A.QuicHandled(c);
    assert A.WellFormed(c);
    assert ShareRight(c, s.back.sess[k]);
  }

  lemma DialKeepsCoupled(cfg: Config, s: State, d: Id, e: L.Step)
    requires Coupled(s.front, s.back) && L.DialsWellFormed(s.back) && L.Enabled(s.back, d, e)
    ensures Coupled(s.front, L.Apply(Total(cfg), s.back, d, e))
  {
    L.StepKeepsDials(Total(cfg), s.back, d, e);
    var back := L.Apply(Total(cfg), s.back, d, e);
    forall k | k in back.sess ensures ShareRight(s.front.conns[k], back.sess[k]) {
      assert ShareRight(s.front.conns[k], s.back.sess[k]);
      if s.back.sess[k].closing { L.ClosedStaysClosed(Total(cfg), s.back, d, e, k); }
    }
  }

  lemma DialKeepsDownward(cfg: Config, s: State, d: Id, e: L.Step)
    requires Inv(cfg, s) && Enabled(s, DialStep(d, e))
    ensures Downward(Apply(cfg, s, DialStep(d, e)))
  {
    if Stage(s) == GROUPS {
      assert GroupCount(s, 1) == 0 && GroupCount(s, 2) == 0 && GroupCount(s, 5) == 0;
      forall k | k in s.back.sess ensures s.back.sess[k].closing { NoHandlerNoSession(cfg, s, k); }
      L.QuietForGood(Total(cfg), s.back, d, e);
    }
    DownwardKept(s, Apply(cfg, s, DialStep(d, e)));
  }

  lemma DialKeepsInv(cfg: Config, s: State, d: Id, e: L.Step)
    requires Inv(cfg, s) && Enabled(s, DialStep(d, e))
    ensures Inv(cfg, Apply(cfg, s, DialStep(d, e)))
  {
    L.StepKeepsInv(Total(cfg), s.back, d, e);
    DialKeepsCoupled(cfg, s, d, e);
    WorkersKept(s, Apply(cfg, s, DialStep(d, e)));
    DialKeepsDownward(cfg, s, d, e);
  }

  lemma WorkersStep(s: State, w: Id, x: Worker, n: nat)
    requires WorkersExact(s)
    requires n == WorkerCount(s, x.group) + Bit(x.running) - Bit(w in s.workers && Running(x.group, s.workers[w]))
    requires w in s.workers ==> s.workers[w].group == x.group
    ensures WorkersExact(SetWorker(s, w, x, n))
  {
    var t := SetWorker(s, w, x, n);
    forall g ensures WorkerCount(t, g) == Count(t.workers, Of(g)) { CountSet(s.workers, w, x, Of(g)); }
  }

  lemma WorkerKeepsDownward(s: State, w: Id, x: Worker, n: nat)
    requires Downward(s) && (s.front.down ==> n <= WorkerCount(s, x.group))
    ensures Downward(SetWorker(s, w, x, n))
    ensures SetWorker(s, w, x, n).front == s.front && SetWorker(s, w, x, n).back == s.back
  {
    if Stage(s) == GROUPS { assert GroupCount(s, 5) == 0; }
    DownwardKept(s, SetWorker(s, w, x, n));
  }

  /** What a change of one worker must respect. */
  predicate WorkerMoves(s: State, w: Id, x: Worker, n: nat) {
    && n == WorkerCount(s, x.group) + Bit(x.running) - Bit(w in s.workers && Running(x.group, s.workers[w]))
    && (w in s.workers ==> s.workers[w].group == x.group)
    && (s.front.down ==> n <= WorkerCount(s, x.group))
  }

  lemma WorkerKeepsInv(cfg: Config, s: State, w: Id, x: Worker, n: nat)
    requires Inv(cfg, s) && WorkerMoves(s, w, x, n)
    ensures Inv(cfg, SetWorker(s, w, x, n))
  {
    WorkersStep(s, w, x, n);
    WorkerKeepsDownward(s, w, x, n);
  }

  lemma WorkerEvents(s: State, e: Event)
    requires Enabled(s, e)
    ensures e.StartWorker? && s.front.down ==> WorkerMoves(s, e.w, Worker(e.group, false), WorkerCount(s, e.group))
    ensures e.StartWorker? && !s.front.down ==> WorkerMoves(s, e.w, Worker(e.group, true), WorkerCount(s, e.group) + 1)
    ensures e.EndWorker? ==>
              WorkerMoves(s, e.w, s.workers[e.w].(running := false), WorkerCount(s, s.workers[e.w].group) - 1)
  {
  }

  lemma StepKeepsInv(cfg: Config, s: State, e: Event)
    requires Inv(cfg, s) && Enabled(s, e)
    ensures Inv(cfg, Apply(cfg, s, e))
  {
    match e
    case ConnStep(k, step) => ConnKeepsInv(cfg, s, k, step);
    case DialStep(d, step) => DialKeepsInv(cfg, s, d, step);
    case StartWorker(w, group) => StartKeepsInv(cfg, s, w, group);
    case EndWorker(w) => EndKeepsInv(cfg, s, w);
    case _ => ShutdownKeepsInv(cfg, s, e);
  }

  lemma StartKeepsInv(cfg: Config, s: State, w: Id, group: Group)
    requires Inv(cfg, s) && Enabled(s, StartWorker(w, group))
    ensures Inv(cfg, Apply(cfg, s, StartWorker(w, group)))
  {
    WorkerEvents(s, StartWorker(w, group));
    if s.front.down {
      WorkerKeepsInv(cfg, s, w, Worker(group, false), WorkerCount(s, group));
    } else {
      WorkerKeepsInv(cfg, s, w, Worker(group, true), WorkerCount(s, group) + 1);
    }
  }

  lemma EndIsSet(cfg: Config, s: State, w: Id)
    requires Enabled(s, EndWorker(w))
    ensures Apply(cfg, s, EndWorker(w)) == SetWorker(s, w, s.workers[w].(running := false), WorkerCount(s, s.workers[w].group) - 1)
  {
  }

  lemma EndKeepsInv(cfg: Config, s: State, w: Id)
    requires Inv(cfg, s) && Enabled(s, EndWorker(w))
    ensures Inv(cfg, Apply(cfg, s, EndWorker(w)))
  {
    WorkerEvents(s, EndWorker(w));
    var x, n := s.workers[w].(running := false), WorkerCount(s, s.workers[w].group) - 1;
    WorkerKeepsInv(cfg, s, w, x, n);
    EndIsSet(cfg, s, w);
  }

  predicate ByShutdown(e: Event) {
    !e.ConnStep? && !e.DialStep? && !e.StartWorker? && !e.EndWorker?
  }

  lemma ShutdownKeepsDownward(cfg: Config, s: State, e: Event)
    requires Downward(s) && Enabled(s, e) && ByShutdown(e)
    ensures Downward(Apply(cfg, s, e))
  {
    var t := Apply(cfg, s, e);
    forall i: nat | i < Stage(t) ensures GroupCount(t, i) == 0 {
      assert GroupCount(t, i) == GroupCount(s, i);
      assert i < Stage(s) || e.GroupDone?;
    }
  }

  lemma FlagKeepsFront(l: A.Limits, f: A.Front)
    requires A.Inv(l, f)
    ensures A.Inv(l, f.(down := true))
  {
  }

  lemma ShutdownKeepsInv(cfg: Config, s: State, e: Event)
    requires Inv(cfg, s) && Enabled(s, e) && ByShutdown(e)
    ensures Inv(cfg, Apply(cfg, s, e))
  {
    FlagKeepsFront(cfg.limits, s.front);
    WorkersKept(s, Apply(cfg, s, e));
    ShutdownKeepsDownward(cfg, s, e);
  }

  // Whole runs.

  const IDLE := State(
    A.Front(map[], 0, 0, 0, {}, {}, 0, 0, false), L.Back(map[], map[], 0, 0, []), map[], 0, 0, 0, Up, {}, {}, [])

  ghost predicate Run(cfg: Config, states: seq<State>, events: seq<Event>) {
    && |states| == |events| + 1 && states[0] == IDLE
    && forall i :: 0 <= i < |events| ==> Enabled(states[i], events[i]) && states[i + 1] == Apply(cfg, states[i], events[i])
  }

  lemma IdleIsSound(cfg: Config)
    ensures Inv(cfg, IDLE)
  {
    CountNone(IDLE.front.conns, A.HoldsShake);
    CountNone(IDLE.front.conns, A.HoldsPre);
    CountNone(IDLE.front.conns, A.HoldsAuth);
    CountNone(IDLE.front.conns, A.TcpHandled);
    CountNone(IDLE.front.conns, A.QuicHandled);
    CountNone(IDLE.back.dials, L.HoldsGlobal);
    CountNone(IDLE.back.dials, L.InEdgeGroup);
    forall g ensures WorkerCount(IDLE, g) == Count(IDLE.workers, Of(g)) { CountNone(IDLE.workers, Of(g)); }
  }

  lemma {:induction false} RunKeepsInv(cfg: Config, states: seq<State>, events: seq<Event>, i: nat)
    requires Run(cfg, states, events) && i < |states|
    ensures Inv(cfg, states[i])
  {
    if i == 0 {
      IdleIsSound(cfg);
    } else {
      RunKeepsInv(cfg, states, events, i - 1);
      StepKeepsInv(cfg, states[i - 1], events[i - 1]);
    }
  }

  lemma ProductBound(used: nat, total: nat, window: nat)
    requires used <= total
    ensures used * window <= window * total
  {
  }

  /** In every state of every run, every slot in use has exactly one holder, no channel is over its capacity, and
      the global stream slots are the session slots plus the half-taken acquisitions. */
  lemma SlotsBalance(cfg: Config, states: seq<State>, events: seq<Event>, i: nat, n: nat)
    requires Run(cfg, states, events) && i < |states| && forall k :: k in states[i].back.sess ==> k < n
    ensures A.CountersExact(states[i].front) && A.WithinLimits(cfg.limits, states[i].front)
    ensures states[i].back.global == L.SlotSum(states[i].back, n) + Count(states[i].back.dials, L.HalfTaken)
    ensures states[i].back.global <= Total(cfg)
  {
    RunKeepsInv(cfg, states, events, i);
    L.GlobalIsSumOfSessions(Total(cfg), states[i].back, n);
  }

  /** In every state of every run, the leased streams, each with a full yamux window, never expose more than
      1 GiB. */
  lemma WindowsStayBounded(cfg: Config, udpAddress: string -> bool, states: seq<State>, events: seq<Event>, i: nat)
    requires Run(cfg, states, events) && i < |states| && Serveable(cfg.settings, udpAddress)
    ensures Count(states[i].back.dials, L.HoldsGlobal) * cfg.settings.window <= YAMUX_EXPOSURE
  {
    RunKeepsInv(cfg, states, events, i);
    ProductBound(Count(states[i].back.dials, L.HoldsGlobal), cfg.settings.total, cfg.settings.window);
  }

  /** Once Shutdown has closed what it listed, every transport that is still before or after authentication is
      closed; and none is ever added to either set. */
  lemma ShutdownClosesEverything(cfg: Config, states: seq<State>, events: seq<Event>, i: nat)
    requires Run(cfg, states, events) && i < |states|
    ensures states[i].phase != Up && states[i].phase != Closing ==> states[i].front.preauth + states[i].front.sessions <= states[i].closed
  {
    RunKeepsInv(cfg, states, events, i);
  }

  /** A session's authenticated slot is free only when the session has no lease and no watcher. */
  lemma AuthSlotOutlivesStreams(cfg: Config, states: seq<State>, events: seq<Event>, i: nat, k: Id)
    requires Run(cfg, states, events) && i < |states| && k in states[i].back.sess
    ensures k in states[i].front.conns
    ensures !A.HoldsAuth(states[i].front.conns[k]) ==> states[i].back.sess[k].watchers == 0 && states[i].back.sess[k].used == 0
  {
    RunKeepsInv(cfg, states, events, i);
    var s := states[i];
    assert A.WellFormed(s.front.conns[k]) && ShareRight(s.front.conns[k], s.back.sess[k]);
    if !A.HoldsAuth(s.front.conns[k]) { L.NoWatcherNoLease(Total(cfg), s.back, k); }
  }

  lemma NoWatcherAnywhere(total: nat, b: L.Back, d: Id)
    requires L.Inv(total, b) && b.watchers == 0 && d in b.dials
    ensures !L.InEdgeGroup(b.dials[d]) && (b.dials[d].streamed ==> L.Reports(b.reports, d) == 1)
  {
    CountZero(b.dials, L.InEdgeGroup);
    assert !L.InEdgeGroup(b.dials[d]);
    if b.dials[d].streamed { L.QuietMeansReported(total, b, d); }
  }

  lemma FlushedFacts(s: State)
    requires Downward(s) && s.phase == Flushed
    ensures s.saved == s.back.reports && s.back.watchers == 0 && forall g: nat :: g < GROUPS ==> GroupCount(s, g) == 0
  {
    assert GroupCount(s, 5) == 0;
  }

  /** If the workers joined, the final flush wrote every leased stream's totals exactly once, no stream is still
      leased, and nothing is reported afterwards. */
  lemma FlushIsLast(cfg: Config, states: seq<State>, events: seq<Event>, i: nat, d: Id)
    requires Run(cfg, states, events) && i < |states| && states[i].phase == Flushed
    ensures states[i].saved == states[i].back.reports
    ensures d in states[i].back.dials && states[i].back.dials[d].streamed ==> L.Reports(states[i].saved, d) == 1
    ensures d in states[i].back.dials ==> !L.InEdgeGroup(states[i].back.dials[d])
    ensures forall g: nat :: g < GROUPS ==> GroupCount(states[i], g) == 0
  {
    RunKeepsInv(cfg, states, events, i);
    FlushedFacts(states[i]);
    if d in states[i].back.dials { NoWatcherAnywhere(Total(cfg), states[i].back, d); }
  }

  /** Once the shutdown flag is up, no wait group but the streams' ever grows again: the begin sections refuse. */
  lemma NothingStartsAfterFlag(cfg: Config, s: State, e: Event)
    requires A.Inv(cfg.limits, s.front) && Enabled(s, e) && s.front.down
    ensures Apply(cfg, s, e).front.down && NoGroupGrows(s, Apply(cfg, s, e))
  {
    if e.ConnStep? { A.DownStopsAdmission(cfg.limits, s.front, e.k, e.conn); }
  }

  // What a session's capacity goes back to.

  /** A share keeps its capacity; a new one comes from its connection's promotion. */
  lemma CapOfStep(cfg: Config, s: State, e: Event, k: Id)
    requires Enabled(s, e) && k in Apply(cfg, s, e).back.sess
    ensures var cap := Apply(cfg, s, e).back.sess[k].cap;
            || (k in s.back.sess && s.back.sess[k].cap == cap)
            || (e.ConnStep? && e.k == k && e.conn.Promote? && cap == Cap(cfg, e.conn.advertised))
  {
  }

  /** What step `m` of a run does to one session's capacity. */
  ghost predicate CapFollows(cfg: Config, states: seq<State>, events: seq<Event>, k: Id, m: nat)
    requires m < |events| && |states| == |events| + 1
  {
    k in states[m + 1].back.sess ==>
      var cap, e := states[m + 1].back.sess[k].cap, events[m];
      || (k in states[m].back.sess && states[m].back.sess[k].cap == cap)
      || (e.ConnStep? && e.k == k && e.conn.Promote? && cap == Cap(cfg, e.conn.advertised))
  }

  lemma RunFollowsCap(cfg: Config, states: seq<State>, events: seq<Event>, k: Id)
    requires Run(cfg, states, events)
    ensures forall m: nat :: m < |events| ==> CapFollows(cfg, states, events, k, m)
  {
    forall m: nat | m < |events| ensures CapFollows(cfg, states, events, k, m) {
      RunStep(cfg, states, events, m);
      if k in states[m + 1].back.sess { CapOfStep(cfg, states[m], events[m], k); }
    }
  }

  lemma {:induction false} CapSince(cfg: Config, states: seq<State>, events: seq<Event>, i: nat, k: Id) returns (j: nat)
    requires |states| == |events| + 1 && states[0] == IDLE && i < |states| && k in states[i].back.sess
    requires forall m: nat :: m < |events| ==> CapFollows(cfg, states, events, k, m)
    ensures j < i && events[j].ConnStep? && events[j].k == k && events[j].conn.Promote?
    ensures states[i].back.sess[k].cap == Cap(cfg, events[j].conn.advertised)
  {
    assert CapFollows(cfg, states, events, k, i - 1);
    if k in states[i - 1].back.sess && states[i - 1].back.sess[k].cap == states[i].back.sess[k].cap {
      j := CapSince(cfg, states, events, i - 1, k);
    } else {
      j := i - 1;
    }
  }

  /** In every run, a session's stream capacity is the smaller of what is configured and what its agent advertised in its
      hello, where an agent that advertised nothing counts as asking for 64. */
  lemma CapWasAdvertised(cfg: Config, states: seq<State>, events: seq<Event>, i: nat, k: Id) returns (j: nat)
    requires Run(cfg, states, events) && i < |states| && k in states[i].back.sess && cfg.settings.perSession >= 0
    ensures j < i && events[j].ConnStep? && events[j].k == k && events[j].conn.Promote?
    ensures var cap := states[i].back.sess[k].cap;
            var wanted := if events[j].conn.advertised <= 0 then 64 else events[j].conn.advertised;
            cap <= cfg.settings.perSession && cap <= wanted && (cap == cfg.settings.perSession || cap == wanted)
  {
    RunFollowsCap(cfg, states, events, k);
    j := CapSince(cfg, states, events, i, k);
  }

  // Reports and late bytes, over whole runs.

  lemma RunStep(cfg: Config, states: seq<State>, events: seq<Event>, i: nat)
    requires Run(cfg, states, events) && i < |events|
    ensures Enabled(states[i], events[i]) && states[i + 1] == Apply(cfg, states[i], events[i])
  {
  }

  /** Only a dial's own steps change it. */
  lemma DialChanges(cfg: Config, s: State, e: Event, d: Id)
    requires Enabled(s, e)
    ensures var t := Apply(cfg, s, e).back.dials;
            if e.DialStep? && e.d == d then d in t && t[d] == L.Next(Total(cfg), s.back, d, e.dial)
            else (d in t <==> d in s.back.dials) && (d in t ==> t[d] == s.back.dials[d])
  {
  }

  predicate Loads(e: Event, d: Id) {
    e == DialStep(d, L.LoadTotals)
  }

  /** The step counts at least one byte of the stream. */
  predicate Counts(e: Event, d: Id) {
    e.DialStep? && e.d == d && e.dial.CountBytes? && e.dial.bytesIn + e.dial.bytesOut > 0
  }

  /** No step in [from, end) counts a byte of the stream. */
  ghost predicate Silent(events: seq<Event>, from: nat, end: nat, d: Id) {
    forall k: nat :: from <= k < end && k < |events| ==> !Counts(events[k], d)
  }

  /** The totals loaded at `was` are on record in `x`, and complete exactly if no byte was counted since. */
  predicate LoadedFrom(was: L.Dial, x: L.Dial, complete: bool) {
    && x.streamed && x.totals != L.Unreported && x.totals.bytesIn == was.bytesIn && x.totals.bytesOut == was.bytesOut
    && x.bytesIn >= was.bytesIn && x.bytesOut >= was.bytesOut
    && (x.bytesIn == was.bytesIn && x.bytesOut == was.bytesOut <==> complete)
  }

  lemma LoadedStays(total: nat, b: L.Back, d: Id, e: L.Step, was: L.Dial, complete: bool)
    requires L.Enabled(b, d, e) && d in b.dials && LoadedFrom(was, b.dials[d], complete)
    ensures LoadedFrom(was, L.Next(total, b, d, e), complete && !(e.CountBytes? && e.bytesIn + e.bytesOut > 0))
  {
  }

  /** What step `m` of a run does to one dial. */
  ghost predicate DialFollows(cfg: Config, states: seq<State>, events: seq<Event>, d: Id, m: nat)
    requires m < |events| && |states| == |events| + 1
  {
    var b, t, e := states[m].back, states[m + 1].back.dials, events[m];
    if e.DialStep? && e.d == d then L.Enabled(b, d, e.dial) && d in t && t[d] == L.Next(Total(cfg), b, d, e.dial)
    else (d in t <==> d in b.dials) && (d in t ==> t[d] == b.dials[d])
  }

  lemma RunFollowsDial(cfg: Config, states: seq<State>, events: seq<Event>, d: Id)
    requires Run(cfg, states, events)
    ensures forall m: nat :: m < |events| ==> DialFollows(cfg, states, events, d, m)
  {
    forall m: nat | m < |events| ensures DialFollows(cfg, states, events, d, m) {
      RunStep(cfg, states, events, m);
      DialChanges(cfg, states[m], events[m], d);
    }
  }

  /** From the step that loads a stream's totals on, they never change, and they are all the stream counted exactly
      until a byte is counted. */
  lemma {:induction false} TotalsAfterLoad(cfg: Config, states: seq<State>, events: seq<Event>, j: nat, i: nat, d: Id)
    requires |states| == |events| + 1 && forall m: nat :: m < |events| ==> DialFollows(cfg, states, events, d, m)
    requires j < i < |states| && Loads(events[j], d)
    ensures d in states[j].back.dials && d in states[i].back.dials
    ensures LoadedFrom(states[j].back.dials[d], states[i].back.dials[d], Silent(events, j + 1, i, d))
  {
    assert DialFollows(cfg, states, events, d, j);
    if j + 1 < i {
      var e := events[i - 1];
      assert DialFollows(cfg, states, events, d, i - 1);
      TotalsAfterLoad(cfg, states, events, j, i - 1, d);
      assert Silent(events, j + 1, i, d) <==> Silent(events, j + 1, i - 1, d) && !Counts(e, d);
      if e.DialStep? && e.d == d {
        LoadedStays(Total(cfg), states[i - 1].back, d, e.dial, states[j].back.dials[d], Silent(events, j + 1, i - 1, d));
      }
    }
  }

  /** Totals on record were loaded by some step. */
  lemma {:induction false} TotalsWereLoaded(cfg: Config, states: seq<State>, events: seq<Event>, i: nat, d: Id) returns (j: nat)
    requires |states| == |events| + 1 && forall m: nat :: m < |events| ==> DialFollows(cfg, states, events, d, m)
    requires i < |states| && states[0] == IDLE
    requires d in states[i].back.dials && states[i].back.dials[d].totals != L.Unreported
    ensures j < i && Loads(events[j], d)
  {
    assert DialFollows(cfg, states, events, d, i - 1);
    if Loads(events[i - 1], d) {
      j := i - 1;
    } else {
      j := TotalsWereLoaded(cfg, states, events, i - 1, d);
    }
  }

  /** What the final flush holds of a stream is all the stream ever counted if and only if no byte was counted after
      the step that loaded its totals; there is such a step for every stream. */
  lemma SavedReportComplete(cfg: Config, states: seq<State>, events: seq<Event>, i: nat, d: Id, r: L.Report) returns (j: nat)
    requires Run(cfg, states, events) && i < |states| && states[i].phase == Flushed
    requires r in states[i].saved && r.dial == d
    ensures j < i && Loads(events[j], d) && d in states[i].back.dials
    ensures r.bytesIn == states[i].back.dials[d].bytesIn && r.bytesOut == states[i].back.dials[d].bytesOut
       <==> Silent(events, j + 1, i, d)
  {
    RunKeepsInv(cfg, states, events, i);
    ReportIsTotals(cfg, states[i], r);
    RunFollowsDial(cfg, states, events, d);
    j := TotalsWereLoaded(cfg, states, events, i, d);
    TotalsAfterLoad(cfg, states, events, j, i, d);
  }

  lemma ReportIsTotals(cfg: Config, s: State, r: L.Report)
    requires L.ReportsExact(s.back) && Downward(s) && s.phase == Flushed && r in s.saved
    ensures r.dial in s.back.dials && s.back.dials[r.dial].totals == L.Recorded(r.bytesIn, r.bytesOut)
  {
  }
}
