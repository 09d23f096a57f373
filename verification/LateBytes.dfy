/** A run of the whole edge, from idle to the final flush, in which one byte of a stream is never reported: it is
    counted after the stream's totals were loaded. */
module LateBytes {
  import opened EdgeRun
  import A = Admission
  import L = Leases

  ghost predicate Reachable(cfg: Config, s: State) {
    exists states: seq<State>, events: seq<Event> :: Run(cfg, states, events) && states[|events|] == s
  }

  lemma Extend(cfg: Config, s: State, e: Event, t: State)
    requires Reachable(cfg, s) && Enabled(s, e) && Apply(cfg, s, e) == t
    ensures Reachable(cfg, t)
  {
    var states: seq<State>, events: seq<Event> :| Run(cfg, states, events) && states[|events|] == s;
    var states', events' := states + [t], events + [e];
    forall i | 0 <= i < |events'| ensures Enabled(states'[i], events'[i]) && states'[i + 1] == Apply(cfg, states'[i], events'[i]) {
      if i < |events| { RunStep(cfg, states, events, i); }
    }
    assert Run(cfg, states', events') && states'[|events'|] == t;
  }

  /** Room for one of each. */
  predicate Roomy(cfg: Config) {
    cfg.limits.pre > 0 && cfg.limits.auth > 0 && cfg.settings.total > 0 && cfg.settings.perSession > 0
  }

  // One QUIC connection, one accept loop, one dial, each with the number 0.

  function Door(pc: A.Pc, handled: bool, session: bool, pre: nat, auth: nat, preauth: set<Id>, sessions: set<Id>, down: bool): A.Front {
    A.Front(map[0 := A.Conn(A.Quic, pc, handled, session)], 0, pre, auth, preauth, sessions, 0, if handled then 1 else 0, down)
  }

  const NOTHING := L.Back(map[], map[], 0, 0, [])

  function Serving(front: A.Front, back: L.Back): State {
    State(front, back, map[0 := Worker(Accepting, true)], 1, 0, 0, Up, {}, {}, [])
  }

  /** The shares and the dial as the stream goes along. */
  function Desk(cap: nat, used: nat, watchers: nat, pc: L.Pc, x: (bool, nat, L.Totals), global: nat, group: nat, reports: seq<L.Report>): L.Back {
    L.Back(map[0 := L.Sess(cap, used, watchers, false)], map[0 := L.Dial(0, pc, x.0, x.1, 0, x.2)], global, group, reports)
  }

  const LATE: (bool, nat, L.Totals) := (true, 1, L.Recorded(0, 0))
  const SAVED: seq<L.Report> := [L.Report(0, 0, 0)]

  /** A connection step that leaves the shares alone. */
  lemma ConnOne(cfg: Config, f: A.Front, e: A.Step, f': A.Front, b: L.Back)
    requires Reachable(cfg, Serving(f, b)) && A.Enabled(f, 0, e) && MayStep(Serving(f, b), 0, e)
    requires !e.Promote? && !e.StopAdmission? && A.Apply(cfg.limits, f, 0, e) == f'
    ensures Reachable(cfg, Serving(f', b))
  {
    Extend(cfg, Serving(f, b), ConnStep(0, e), Serving(f', b));
  }

  lemma Accepting1(cfg: Config)
    ensures Reachable(cfg, Serving(IDLE.front, NOTHING))
  {
    assert Run(cfg, [IDLE], []) && [IDLE][0] == IDLE;
    Extend(cfg, IDLE, StartWorker(0, Accepting), Serving(IDLE.front, NOTHING));
  }

  lemma Accepted(cfg: Config)
    requires Roomy(cfg)
    ensures Reachable(cfg, Serving(Door(A.PreSlot, false, false, 1, 0, {}, {}, false), NOTHING))
  {
    Accepting1(cfg);
    var f2 := Door(A.Connected, false, false, 0, 0, {}, {}, false);
    ConnOne(cfg, IDLE.front, A.Accept(A.Quic), f2, NOTHING);
    ConnOne(cfg, f2, A.TakePre, Door(A.PreSlot, false, false, 1, 0, {}, {}, false), NOTHING);
  }

  lemma Admitted(cfg: Config)
    requires Roomy(cfg)
    ensures Reachable(cfg, Serving(Door(A.Hello, true, false, 1, 0, {0}, {}, false), NOTHING))
  {
    Accepted(cfg);
    var f4 := Door(A.Admitted, false, false, 1, 0, {0}, {}, false);
    ConnOne(cfg, Door(A.PreSlot, false, false, 1, 0, {}, {}, false), A.EnterPre, f4, NOTHING);
    ConnOne(cfg, f4, A.StartQuic, Door(A.Hello, true, false, 1, 0, {0}, {}, false), NOTHING);
  }

  lemma Authenticated(cfg: Config)
    requires Roomy(cfg)
    ensures Reachable(cfg, Serving(Door(A.AuthHeld, true, false, 1, 1, {0}, {}, false), NOTHING))
  {
    Admitted(cfg);
    ConnOne(cfg, Door(A.Hello, true, false, 1, 0, {0}, {}, false), A.TakeAuth,
            Door(A.AuthHeld, true, false, 1, 1, {0}, {}, false), NOTHING);
  }

  lemma Promoted(cfg: Config)
    requires Roomy(cfg)
    ensures Reachable(cfg, Serving(Door(A.Promoted, true, true, 1, 1, {}, {0}, false), L.OpenShare(NOTHING, 0, Cap(cfg, 1))))
  {
    Authenticated(cfg);
    var f := Door(A.AuthHeld, true, false, 1, 1, {0}, {}, false);
    var f' := Door(A.Promoted, true, true, 1, 1, {}, {0}, false);
    assert A.Apply(cfg.limits, f, 0, A.Promote(1)) == f';
    Extend(cfg, Serving(f, NOTHING), ConnStep(0, A.Promote(1)), Serving(f', L.OpenShare(NOTHING, 0, Cap(cfg, 1))));
  }

  function Open(): A.Front {
    Door(A.Serving, true, true, 0, 1, {}, {0}, false)
  }

  lemma SessionOpen(cfg: Config)
    requires Roomy(cfg)
    ensures Reachable(cfg, Serving(Open(), L.OpenShare(NOTHING, 0, Cap(cfg, 1))))
  {
    Promoted(cfg);
    ConnOne(cfg, Door(A.Promoted, true, true, 1, 1, {}, {0}, false), A.GivePre, Open(), L.OpenShare(NOTHING, 0, Cap(cfg, 1)));
  }

  lemma DialOne(cfg: Config, b: L.Back, e: L.Step, t: L.Back)
    requires Reachable(cfg, Serving(Open(), b)) && L.Enabled(b, 0, e) && L.Apply(Total(cfg), b, 0, e) == t
    ensures Reachable(cfg, Serving(Open(), t))
  {
    Extend(cfg, Serving(Open(), b), DialStep(0, e), Serving(Open(), t));
  }

  lemma Leased(cfg: Config)
    requires Roomy(cfg)
    ensures Reachable(cfg, Serving(Open(), Desk(1, 1, 1, L.Leased, (false, 0, L.Unreported), 1, 1, [])))
  {
    SessionOpen(cfg);
    var none := (false, 0, L.Unreported);
    var b0 := L.OpenShare(NOTHING, 0, Cap(cfg, 1));
    assert b0 == L.Back(map[0 := L.Sess(1, 0, 0, false)], map[], 0, 0, []);
    DialOne(cfg, b0, L.Reserve(0), Desk(1, 0, 1, L.Reserved, none, 0, 1, []));
    DialOne(cfg, Desk(1, 0, 1, L.Reserved, none, 0, 1, []), L.TakeGlobal, Desk(1, 0, 1, L.Half, none, 1, 1, []));
    DialOne(cfg, Desk(1, 0, 1, L.Half, none, 1, 1, []), L.TakeSlot, Desk(1, 1, 1, L.Leased, none, 1, 1, []));
  }

  /** The stream opens, its totals are loaded, one byte is counted, and the totals are recorded without it. */
  lemma Late(cfg: Config)
    requires Roomy(cfg)
    ensures Reachable(cfg, Serving(Open(), Desk(1, 1, 1, L.Open, LATE, 1, 1, SAVED)))
  {
    Leased(cfg);
    var b0 := Desk(1, 1, 1, L.Leased, (false, 0, L.Unreported), 1, 1, []);
    var b1 := Desk(1, 1, 1, L.Open, (true, 0, L.Unreported), 1, 1, []);
    var b2 := Desk(1, 1, 1, L.Open, (true, 0, L.Loaded(0, 0)), 1, 1, []);
    var b3 := Desk(1, 1, 1, L.Open, (true, 1, L.Loaded(0, 0)), 1, 1, []);
    DialOne(cfg, b0, L.OpenStream, b1);
    DialOne(cfg, b1, L.LoadTotals, b2);
    DialOne(cfg, b2, L.CountBytes(1, 0), b3);
    assert [] + [L.Report(0, 0, 0)] == SAVED;
    DialOne(cfg, b3, L.RecordTotals, Desk(1, 1, 1, L.Open, LATE, 1, 1, SAVED));
  }

  lemma Returned(cfg: Config)
    requires Roomy(cfg)
    ensures Reachable(cfg, Serving(Open(), Desk(1, 0, 1, L.SlotBack, LATE, 1, 1, SAVED)))
  {
    Late(cfg);
    DialOne(cfg, Desk(1, 1, 1, L.Open, LATE, 1, 1, SAVED), L.StreamDone, Desk(1, 1, 1, L.Ended, LATE, 1, 1, SAVED));
    DialOne(cfg, Desk(1, 1, 1, L.Ended, LATE, 1, 1, SAVED), L.FinalizeReturns, Desk(1, 1, 1, L.Reported, LATE, 1, 1, SAVED));
    DialOne(cfg, Desk(1, 1, 1, L.Reported, LATE, 1, 1, SAVED), L.GiveSlot, Desk(1, 0, 1, L.SlotBack, LATE, 1, 1, SAVED));
  }

  lemma Unwound(cfg: Config)
    requires Roomy(cfg)
    ensures Reachable(cfg, Serving(Open(), Desk(1, 0, 0, L.Over, LATE, 0, 0, SAVED)))
  {
    Returned(cfg);
    DialOne(cfg, Desk(1, 0, 1, L.SlotBack, LATE, 1, 1, SAVED), L.GiveGlobal, Desk(1, 0, 1, L.Unwinding, LATE, 0, 1, SAVED));
    DialOne(cfg, Desk(1, 0, 1, L.Unwinding, LATE, 0, 1, SAVED), L.LeaveSession, Desk(1, 0, 0, L.LastDone, LATE, 0, 1, SAVED));
    DialOne(cfg, Desk(1, 0, 0, L.LastDone, LATE, 0, 1, SAVED), L.LeaveEdge, Desk(1, 0, 0, L.Over, LATE, 0, 0, SAVED));
  }

  /** The session closed to streams, its dial over. */
  function Closed(): L.Back {
    L.CloseShare(Desk(1, 0, 0, L.Over, LATE, 0, 0, SAVED), 0)
  }

  lemma Stopped(cfg: Config)
    requires Roomy(cfg)
    ensures Reachable(cfg, Serving(Door(A.Dropping, true, true, 0, 1, {}, {0}, false), Closed()))
  {
    Unwound(cfg);
    var f1 := Door(A.Dropping, true, true, 0, 1, {}, {0}, false);
    assert A.Apply(cfg.limits, Open(), 0, A.StopAdmission) == f1;
    Extend(cfg, Serving(Open(), Desk(1, 0, 0, L.Over, LATE, 0, 0, SAVED)), ConnStep(0, A.StopAdmission), Serving(f1, Closed()));
  }

  lemma Dropped(cfg: Config)
    requires Roomy(cfg)
    ensures Reachable(cfg, Serving(Door(A.Quiet, true, true, 0, 1, {}, {}, false), Closed()))
  {
    Stopped(cfg);
    var f2 := Door(A.Unlisted, true, true, 0, 1, {}, {}, false);
    ConnOne(cfg, Door(A.Dropping, true, true, 0, 1, {}, {0}, false), A.Unlist, f2, Closed());
    ConnOne(cfg, f2, A.TransportDone, Door(A.Quiet, true, true, 0, 1, {}, {}, false), Closed());
  }

  lemma Ended(cfg: Config)
    requires Roomy(cfg)
    ensures Reachable(cfg, Serving(Door(A.Over, false, true, 0, 0, {}, {}, false), Closed()))
  {
    Dropped(cfg);
    var f3 := Door(A.Quiet, true, true, 0, 1, {}, {}, false);
    var f4 := Door(A.Joined, true, true, 0, 1, {}, {}, false);
    var f5 := Door(A.Ending, true, true, 0, 0, {}, {}, false);
    ConnOne(cfg, f3, A.JoinWatchers, f4, Closed());
    ConnOne(cfg, f4, A.GiveAuth, f5, Closed());
    ConnOne(cfg, f5, A.Leave, Door(A.Over, false, true, 0, 0, {}, {}, false), Closed());
  }

  function Down(phase: Phase, saved: seq<L.Report>): State {
    State(Door(A.Over, false, true, 0, 0, {}, {}, true), Closed(), map[0 := Worker(Accepting, false)], 0, 0, 0, phase, {}, {}, saved)
  }

  lemma ShutDown(cfg: Config)
    requires Roomy(cfg)
    ensures Reachable(cfg, Down(Waiting(0), []))
  {
    Ended(cfg);
    var s := Serving(Door(A.Over, false, true, 0, 0, {}, {}, false), Closed());
    var t := s.(workers := map[0 := Worker(Accepting, false)], accepts := 0);
    Extend(cfg, s, EndWorker(0), t);
    Extend(cfg, t, Flag, Down(Closing, []));
    Extend(cfg, Down(Closing, []), StartWaiting, Down(Waiting(0), []));
  }

  lemma {:induction false} Waited(cfg: Config, n: nat)
    requires Roomy(cfg) && n <= GROUPS
    ensures Reachable(cfg, Down(Waiting(n), []))
  {
    if n == 0 {
      ShutDown(cfg);
    } else {
      Waited(cfg, n - 1);
      Extend(cfg, Down(Waiting(n - 1), []), GroupDone, Down(Waiting(n), []));
    }
  }

  /** The run ends with everything joined and flushed, one byte counted, and a report of none. */
  lemma LateByteIsLost(cfg: Config)
    requires Roomy(cfg)
    ensures Reachable(cfg, Down(Flushed, SAVED))
    ensures var s := Down(Flushed, SAVED);
            s.saved == [L.Report(0, 0, 0)] && s.back.dials[0].streamed && s.back.dials[0].bytesIn == 1
  {
    Waited(cfg, GROUPS);
    Extend(cfg, Down(Waiting(GROUPS), []), Flush, Down(Flushed, SAVED));
  }
}
