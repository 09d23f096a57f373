/** A transport session's end: the first terminal event, the child registry, and the order in which the
    children's Done and the session's Done become visible, in every interleaving of claims, registrations,
    child completions, finish calls and local closes. */
module SessionLife {
  import opened Options

  type Id = nat

  datatype CloseInfo = CloseInfo(code: nat, codeValid: bool, remote: bool, reason: string)
  /** A child stream's once-guarded completion: not begun; begun; its Done closed but the child still to
      be unregistered; over. */
  datatype Child = Live | Completing | DoneClosed | Completed

  /** A CloseWithError call: before its look at the connection, before its claim, before it sends
      CONNECTION_CLOSE, before its finish call, and returned. */
  datatype Closer = Looking | Claiming | Sending | Finishing(fallback: CloseInfo) | Returned

  /** The arbiter's fields under its lock; every child by id; the finish call that won, with the children
      it still has to wait for; the raw connection's own end; what was sent; and how often the session's
      Done was closed. */
  datatype State = State(
    terminal: bool, finished: bool, info: CloseInfo, children: set<Id>, registered: set<Id>,
    kids: map<Id, Child>, waiting: Option<set<Id>>, doneCloses: nat,
    rawEnd: Option<CloseInfo>, closers: map<Id, (Closer, CloseInfo)>, sent: seq<CloseInfo>)

  // The arbiter's critical sections.

  function ClaimStep(s: State, info: CloseInfo): State {
    if s.terminal then s else s.(terminal := true, info := info)
  }

  function RegisterStep(s: State, c: Id): State {
    if s.terminal then s else s.(children := s.children + {c}, registered := s.registered + {c})
  }

  function UnregisterStep(s: State, c: Id): State {
    s.(children := s.children - {c})
  }

  function FinishStep(s: State, fallback: CloseInfo): State {
    if s.finished then s
    else
      var t := if s.terminal then s else s.(terminal := true, info := fallback);
      t.(finished := true, waiting := Some(s.children), children := {})
  }

  datatype Event =
    | NewStream(c: Id)                       // a raw stream becomes a child and tries to register
    | ClaimBy(info: CloseInfo)               // a connection error or an aborted open claims
    | CompleteCalled(c: Id)                  // EOF, abort, timer, or the finishing session
    | CloseChildDone(c: Id)
    | UnregisterChild(c: Id)
    | Finish(fallback: CloseInfo)            // a watcher's or a yamux close's finish call
    | ChildWaited(c: Id)                     // parentTerminated returned for one waited child
    | CloseDone
    | RawEnds(info: CloseInfo)               // the peer or the network ends the raw connection
    | CallClose(k: Id, code: nat, reason: string)
    | Look(k: Id)
    | ClaimLocal(k: Id)
    | SendClose(k: Id)
    | FinishLocal(k: Id)

  ghost predicate Enabled(s: State, e: Event) {
    match e
    case NewStream(c) => c !in s.kids
    case ClaimBy(_) => true
    case CompleteCalled(c) => c in s.kids
    case CloseChildDone(c) => c in s.kids && s.kids[c] == Completing
    case UnregisterChild(c) => c in s.kids && s.kids[c] == DoneClosed
    case Finish(_) => true
    // parentTerminated runs the completion or waits for the one under way
    case ChildWaited(c) => s.waiting.Some? && c in s.waiting.value && c in s.kids && s.kids[c] == Completed
    case CloseDone => s.waiting == Some({})
    case RawEnds(_) => s.rawEnd.None?
    case CallClose(k, _, _) => k !in s.closers
    case Look(k) => k in s.closers && s.closers[k].0 == Looking
    case ClaimLocal(k) => k in s.closers && s.closers[k].0 == Claiming
    case SendClose(k) => k in s.closers && s.closers[k].0 == Sending
    case FinishLocal(k) => k in s.closers && s.closers[k].0.Finishing?
  }

  function SetCloser(s: State, k: Id, pc: Closer): State
    requires k in s.closers
  {
    s.(closers := s.closers[k := (pc, s.closers[k].1)])
  }

  function Apply(s: State, e: Event): State
    requires Enabled(s, e)
  {
    match e
    case NewStream(c) => RegisterStep(s.(kids := s.kids[c := Live]), c)
    case ClaimBy(info) => ClaimStep(s, info)
    case CompleteCalled(c) => if s.kids[c] == Live then s.(kids := s.kids[c := Completing]) else s
    case CloseChildDone(c) => s.(kids := s.kids[c := DoneClosed])
    case UnregisterChild(c) => UnregisterStep(s.(kids := s.kids[c := Completed]), c)
    case Finish(fallback) => FinishStep(s, fallback)
    case ChildWaited(c) => s.(waiting := Some(s.waiting.value - {c}))
    case CloseDone => s.(waiting := None, doneCloses := s.doneCloses + 1)
    case RawEnds(info) => s.(rawEnd := Some(info))
    case CallClose(k, code, reason) => s.(closers := s.closers[k := (Looking, CloseInfo(code, true, false, reason))])
    case Look(k) => SetCloser(s, k, if s.rawEnd.Some? then Finishing(s.rawEnd.value) else Claiming)
    case ClaimLocal(k) => SetCloser(ClaimStep(s, s.closers[k].1), k, if s.terminal then Returned else Sending)
    case SendClose(k) =>
      var mine := s.closers[k].1;
      SetCloser(s.(sent := s.sent + [mine], rawEnd := if s.rawEnd.None? then Some(mine) else s.rawEnd),
                k, Finishing(mine))
    case FinishLocal(k) => SetCloser(FinishStep(s, s.closers[k].0.fallback), k, Returned)
  }

  // What holds in every reachable state.

  predicate DoneIsClosed(s: State, c: Id) {
    c in s.kids && (s.kids[c] == DoneClosed || s.kids[c] == Completed)
  }

  predicate SessionDone(s: State) {
    s.doneCloses > 0
  }

  /** A closer that claimed and has not sent yet. */
  predicate Owns(s: State, k: Id) {
    k in s.closers && s.closers[k].0 == Sending
  }

  ghost predicate Children(s: State) {
    && s.registered <= s.kids.Keys && s.children <= s.registered
    && (s.waiting.Some? ==> s.waiting.value <= s.registered)
    // a registered child is in the registry, awaited by the finish call, or has its Done closed
    && (forall c :: c in s.registered ==>
          c in s.children || (s.waiting.Some? && c in s.waiting.value) || DoneIsClosed(s, c))
  }

  ghost predicate Ending(s: State) {
    && (s.finished ==> s.terminal && s.children == {})
    && (s.waiting.Some? ==> s.finished && s.doneCloses == 0)
    && (s.doneCloses > 0 ==> s.finished)
    && s.doneCloses <= 1
  }

  /** The claim decides who sends: at most one closer owns it, and only before anything was sent. */
  ghost predicate OneSender(s: State) {
    && |s.sent| <= 1
    && (forall i :: i in s.sent ==> s.terminal && s.info == i)
    && (forall k :: Owns(s, k) ==> s.terminal && s.info == s.closers[k].1 && s.sent == [])
    && (forall j, k :: Owns(s, j) && Owns(s, k) ==> j == k)
  }

  ghost predicate Inv(s: State) {
    Children(s) && Ending(s) && OneSender(s)
  }

  lemma StepKeepsChildren(s: State, e: Event)
    requires Children(s) && Ending(s) && Enabled(s, e)
    ensures Children(Apply(s, e))
  {
  }

  lemma StepKeepsEnding(s: State, e: Event)
    requires Ending(s) && Enabled(s, e)
    ensures Ending(Apply(s, e))
  {
  }

  /** Who owns the claim after a step, and what a step sends. */
  lemma OwnersOfStep(s: State, e: Event, k: Id)
    requires Enabled(s, e)
    ensures Owns(Apply(s, e), k) ==> (Owns(s, k) && e != SendClose(k)) || (e == ClaimLocal(k) && !s.terminal)
    ensures Owns(Apply(s, e), k) && k in s.closers ==> Apply(s, e).closers[k].1 == s.closers[k].1
  {
  }

  lemma SentByStep(s: State, e: Event)
    requires Enabled(s, e)
    ensures Apply(s, e).sent == if e.SendClose? then s.sent + [s.closers[e.k].1] else s.sent
    ensures s.terminal ==> Apply(s, e).terminal && Apply(s, e).info == s.info
    ensures e.ClaimLocal? && !s.terminal ==> Apply(s, e).terminal && Apply(s, e).info == s.closers[e.k].1
  {
  }

  lemma StepKeepsOneSender(s: State, e: Event)
    requires OneSender(s) && Enabled(s, e)
    ensures OneSender(Apply(s, e))
  {
    var s' := Apply(s, e);
    SentByStep(s, e);
    if |s.sent| == 1 { assert s.sent[0] in s.sent; }
    forall k | Owns(s', k) ensures s'.terminal && s'.info == s'.closers[k].1 && s'.sent == [] {
      OwnersOfStep(s, e, k);
      if e.SendClose? { assert Owns(s, e.k); }
    }
    forall j, k | Owns(s', j) && Owns(s', k) ensures j == k {
      OwnersOfStep(s, e, j);
      OwnersOfStep(s, e, k);
    }
    if e.SendClose? { assert Owns(s, e.k); }
  }

  lemma StepKeepsInv(s: State, e: Event)
    requires Inv(s) && Enabled(s, e)
    ensures Inv(Apply(s, e))
  {
    StepKeepsChildren(s, e);
    StepKeepsEnding(s, e);
    StepKeepsOneSender(s, e);
  }

  /** The first terminal event fixes the close info and closes registration for good; a Done stays closed. */
  lemma TerminalIsFinal(s: State, e: Event)
    requires Inv(s) && Enabled(s, e)
    ensures var s' := Apply(s, e);
            && (s.terminal ==> s'.terminal && s'.info == s.info && s'.registered == s.registered)
            && (SessionDone(s) ==> SessionDone(s'))
            && s.registered <= s'.registered
            && (forall c :: DoneIsClosed(s, c) ==> DoneIsClosed(s', c))
            && s.sent <= s'.sent
  {
  }

  const NO_INFO := CloseInfo(0, false, false, "")
  const FRESH := State(false, false, NO_INFO, {}, {}, map[], None, 0, None, map[], [])

  ghost predicate Run(states: seq<State>, events: seq<Event>) {
    && |states| == |events| + 1 && states[0] == FRESH
    && forall i :: 0 <= i < |events| ==> Enabled(states[i], events[i]) && states[i + 1] == Apply(states[i], events[i])
  }

  lemma {:induction false} RunKeepsInv(states: seq<State>, events: seq<Event>, i: nat)
    requires Run(states, events) && i < |states|
    ensures Inv(states[i])
  {
    if i > 0 {
      RunKeepsInv(states, events, i - 1);
      StepKeepsInv(states[i - 1], events[i - 1]);
    }
  }

  /** Once the session's Done is closed, every child ever registered, then or later, has its Done closed;
      the session's Done is closed once; and at most one CONNECTION_CLOSE is ever sent, with the code that
      CloseInfo reports. */
  lemma DoneAfterChildren(states: seq<State>, events: seq<Event>, i: nat)
    requires Run(states, events) && i < |states|
    ensures SessionDone(states[i]) ==> forall c :: c in states[i].registered ==> DoneIsClosed(states[i], c)
    ensures states[i].doneCloses <= 1
    ensures |states[i].sent| <= 1 && forall c :: c in states[i].sent ==> states[i].info == c
  {
    RunKeepsInv(states, events, i);
  }

  /** From the first terminal event on, no child is ever added and the close info never changes. */
  lemma {:induction false} FirstEventDecides(states: seq<State>, events: seq<Event>, i: nat, j: nat)
    requires Run(states, events) && i <= j < |states| && states[i].terminal
    ensures states[j].terminal && states[j].info == states[i].info && states[j].registered == states[i].registered
  {
    if i < j {
      FirstEventDecides(states, events, i, j - 1);
      RunKeepsInv(states, events, j - 1);
      TerminalIsFinal(states[j - 1], events[j - 1]);
    }
  }

  /** The closer that claimed first is about to send, or has sent and says so. */
  predicate WinnerSoFar(s: State, k: Id) {
    && k in s.closers
    && (s.closers[k].0 == Sending || s.closers[k].0 == Finishing(s.closers[k].1) || s.closers[k].0 == Returned)
    && (s.closers[k].0 != Sending ==> s.closers[k].1 in s.sent)
    && (s.closers[k].0 == Returned ==> s.finished)
  }

  lemma WinnerGoesOn(s: State, e: Event, k: Id)
    requires WinnerSoFar(s, k) && Enabled(s, e)
    ensures WinnerSoFar(Apply(s, e), k)
  {
    SentByStep(s, e);
  }

  lemma {:induction false} WinnerKept(states: seq<State>, events: seq<Event>, j: nat, i: nat, k: Id)
    requires Run(states, events) && j < i < |states| && events[j] == ClaimLocal(k) && !states[j].terminal
    ensures WinnerSoFar(states[i], k)
  {
    if j + 1 < i {
      WinnerKept(states, events, j, i - 1, k);
      WinnerGoesOn(states[i - 1], events[i - 1], k);
    } else {
      assert Enabled(states[j], events[j]) && states[i] == Apply(states[j], events[j]);
    }
  }

  /** In every run, a CloseWithError that claimed first has, when it returns, sent one CONNECTION_CLOSE with its own code,
      and the session is finished. */
  lemma WinnerSends(states: seq<State>, events: seq<Event>, j: nat, i: nat, k: Id)
    requires Run(states, events) && j < i < |states| && events[j] == ClaimLocal(k) && !states[j].terminal
    requires k in states[i].closers && states[i].closers[k].0 == Returned
    ensures states[i].sent == [states[i].closers[k].1] && states[i].info == states[i].closers[k].1 && states[i].finished
  {
    WinnerKept(states, events, j, i, k);
    DoneAfterChildren(states, events, i);
  }

  /** A closer carries what its call passed, from the call on. */
  lemma {:induction false} CloserFromCall(states: seq<State>, events: seq<Event>, i: nat, k: Id) returns (j: nat)
    requires Run(states, events) && i < |states| && k in states[i].closers
    ensures j < i && events[j].CallClose? && events[j].k == k
    ensures states[i].closers[k].1 == CloseInfo(events[j].code, true, false, events[j].reason)
  {
    assert i > 0;
    var s, e := states[i - 1], events[i - 1];
    assert Enabled(s, e) && states[i] == Apply(s, e);
    if e.CallClose? && e.k == k {
      j := i - 1;
    } else {
      j := CloserFromCall(states, events, i - 1, k);
    }
  }

  /** In every run, a CONNECTION_CLOSE that was sent carries the code and reason of some call of CloseWithError, and the
      session's close info says the same: locally, with that code. */
  lemma {:induction false} SentFromCall(states: seq<State>, events: seq<Event>, i: nat, c: CloseInfo) returns (j: nat)
    requires Run(states, events) && i < |states| && c in states[i].sent
    ensures j < i && events[j].CallClose? && c == CloseInfo(events[j].code, true, false, events[j].reason)
    ensures states[i].info == c
  {
    DoneAfterChildren(states, events, i);
    assert i > 0;
    var s, e := states[i - 1], events[i - 1];
    assert Enabled(s, e) && states[i] == Apply(s, e);
    SentByStep(s, e);
    if c in s.sent {
      j := SentFromCall(states, events, i - 1, c);
    } else {
      j := CloserFromCall(states, events, i - 1, e.k);
    }
  }

  // The arbiter itself, as an object.

  /** A snapshot of the children that a finish call must end: every child ever registered is in it or has its Done
      closed already. */
  lemma SnapshotCovers(s: State, fallback: CloseInfo)
    requires Inv(s) && !s.finished
    ensures var t := FinishStep(s, fallback);
            t.waiting == Some(s.children) && forall c :: c in s.registered ==> c in s.children || DoneIsClosed(s, c)
  {
  }

  /** The object and, as history, the session it belongs to. Every method keeps Valid() from any valid state, so the
      session's own steps may come between any two calls. */
  class SessionState {
    var terminal: bool
    var finished: bool
    var info: CloseInfo
    var children: set<Id>
    ghost var s: State

    /** The fields are the session's, and the session is in a state some run reaches. */
    ghost predicate Valid()
      reads this
    {
      terminal == s.terminal && finished == s.finished && info == s.info && children == s.children && Inv(s)
    }

    constructor ()
      ensures Valid() && s == FRESH
    {
      terminal, finished, info, children, s := false, false, NO_INFO, {}, FRESH;
    }

    /** The first claim wins and fixes the close info; after any claim the session is terminal. */
    method Claim(i: CloseInfo) returns (won: bool)
      requires Valid()
      modifies this`terminal, this`info, this`s
      ensures Valid() && terminal && won == !old(terminal)
      ensures info == if won then i else old(info)
      ensures s.registered == old(s.registered)
    {
      StepKeepsInv(s, ClaimBy(i));
      s := ClaimStep(s, i);
      if terminal { return false; }
      terminal, info := true, i;
      won := true;
    }

    /** A new stream is taken in exactly while nothing terminal has happened; one that is not will never be waited
        for. */
    method Register(c: Id) returns (ok: bool)
      requires Valid() && c !in s.kids
      modifies this`children, this`s
      ensures Valid() && ok == !terminal
      ensures s.registered == if ok then old(s.registered) + {c} else old(s.registered)
    {
      StepKeepsInv(s, NewStream(c));
      s := Apply(s, NewStream(c));
      if terminal { return false; }
      children := children + {c};
      ok := true;
    }

    /** A child is forgotten once its Done is closed; it stays one of those that the session's Done waits behind. */
    method Unregister(c: Id)
      requires Valid() && c in s.kids && s.kids[c] == DoneClosed
      modifies this`children, this`s
      ensures Valid() && c !in children && DoneIsClosed(s, c) && s.registered == old(s.registered)
    {
      StepKeepsInv(s, UnregisterChild(c));
      s := Apply(s, UnregisterChild(c));
      children := children - {c};
    }

    /** The locked part of finish: the first call gets the children it must end before it may close Done, which are
        all that were ever registered and are not done; every other call gets none. */
    method FinishLocked(fallback: CloseInfo) returns (first: bool, snapshot: set<Id>)
      requires Valid()
      modifies this
      ensures Valid() && terminal && finished && children == {} && first == !old(finished)
      ensures info == if old(terminal) then old(info) else fallback
      ensures first ==> s.waiting == Some(snapshot) && forall c :: c in s.registered ==> c in snapshot || DoneIsClosed(s, c)
      ensures !first ==> snapshot == {}
    {
      StepKeepsInv(s, Finish(fallback));
      if !finished { SnapshotCovers(s, fallback); }
      s := FinishStep(s, fallback);
      if finished { return false, {}; }
      if !terminal { terminal, info := true, fallback; }
      finished := true;
      first, snapshot := true, children;
      children := {};
    }
  }
}
