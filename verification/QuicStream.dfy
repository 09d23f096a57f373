/** A QUIC stream adapter: two locks, two directions, one completion, in every interleaving of Read, Write,
    CloseWrite, Close, Abort and the end of the session. A step is one section under the terminal lock, or
    one acquisition or release of the write lock, or one end of a raw Write. */
module QuicStream {
  import opened Options

  type Id = nat

  datatype Send = SendOpen | SendFin | SendReset
  datatype Receive = ReceiveOpen | ReceiveTerminal
  /** Calls on the raw stream that must not collide, in the order they are made. */
  datatype Raw = WriteBegins | WriteEnds | RawClose | CancelWrite

  /** A call in progress: a Write waiting for the lock, before its check, past it, or inside the raw Write; a
      CloseWrite or a Close waiting, holding the write lock, or about to release it; a Close whose second part
      is still to come. */
  datatype Call =
    | WriteWaits | WriteLocked | WriteAllowed | WriteRaw
    | CloseWaits(both: bool) | CloseLocked(both: bool) | CloseUnlocks(both: bool)
    | CloseReads
    | Returned

  datatype State = State(
    send: Send, receive: Receive, doneCloses: nat, onceDone: bool,
    writeLock: Option<Id>, calls: map<Id, Call>, raw: seq<Raw>)

  datatype Event =
    | CallWrite(c: Id) | CallClose(c: Id, both: bool)
    | Lock(c: Id)
    | CheckOpen(c: Id)           // Write looks at the send state and goes on, or returns
    | RawWriteBegins(c: Id)
    | RawWriteReturns(c: Id)
    | CloseWriteLocked(c: Id)
    | Unlock(c: Id)
    | CloseRead(c: Id)           // Close's second part
    | ReceiveEnds                // Read met EOF, a reset or the connection's end
    | Abort
    | ParentTerminated

  /** The completion runs once. */
  function Complete(s: State): State {
    if s.onceDone then s else s.(onceDone := true, doneCloses := s.doneCloses + 1)
  }

  function MaybeComplete(s: State): State {
    if s.send != SendOpen && s.receive == ReceiveTerminal then Complete(s) else s
  }

  function SetCall(s: State, c: Id, call: Call): State {
    s.(calls := s.calls[c := call])
  }

  ghost predicate Enabled(s: State, e: Event) {
    match e
    case CallWrite(c) => c !in s.calls
    case CallClose(c, _) => c !in s.calls
    case Lock(c) => c in s.calls && (s.calls[c].WriteWaits? || s.calls[c].CloseWaits?) && s.writeLock.None?
    case CheckOpen(c) => c in s.calls && s.calls[c].WriteLocked?
    case RawWriteBegins(c) => c in s.calls && s.calls[c].WriteAllowed?
    case RawWriteReturns(c) => c in s.calls && s.calls[c].WriteRaw?
    case CloseWriteLocked(c) => c in s.calls && s.calls[c].CloseLocked?
    case Unlock(c) => c in s.calls && s.calls[c].CloseUnlocks?
    case CloseRead(c) => c in s.calls && s.calls[c].CloseReads?
    case ReceiveEnds => true
    case Abort => true
    case ParentTerminated => true
  }

  function Apply(s: State, e: Event): State
    requires Enabled(s, e)
  {
    match e
    case CallWrite(c) => SetCall(s, c, WriteWaits)
    case CallClose(c, both) => SetCall(s, c, CloseWaits(both))
    case Lock(c) =>
      SetCall(s.(writeLock := Some(c)), c, if s.calls[c].WriteWaits? then WriteLocked else CloseLocked(s.calls[c].both))
    case CheckOpen(c) =>
      if s.send == SendOpen then SetCall(s, c, WriteAllowed)
      else SetCall(s.(writeLock := None), c, Returned)
    case RawWriteBegins(c) => SetCall(s.(raw := s.raw + [WriteBegins]), c, WriteRaw)
    case RawWriteReturns(c) => SetCall(s.(raw := s.raw + [WriteEnds], writeLock := None), c, Returned)
    case CloseWriteLocked(c) =>
      var closed := if s.send == SendOpen then MaybeComplete(s.(send := SendFin, raw := s.raw + [RawClose])) else s;
      SetCall(closed, c, CloseUnlocks(s.calls[c].both))
    case Unlock(c) => SetCall(s.(writeLock := None), c, if s.calls[c].both then CloseReads else Returned)
    case CloseRead(c) => SetCall(MaybeComplete(s.(receive := ReceiveTerminal)), c, Returned)
    case ReceiveEnds => MaybeComplete(s.(receive := ReceiveTerminal))
    case Abort =>
      var reset := if s.send != SendReset then s.(send := SendReset, raw := s.raw + [CancelWrite]) else s;
      Complete(reset.(receive := ReceiveTerminal))
    case ParentTerminated => Complete(s.(send := SendReset, receive := ReceiveTerminal))
  }

  // What the raw stream may be asked to do.

  /** How often `r` was called. */
  function Times(raw: seq<Raw>, r: Raw): nat {
    if raw == [] then 0 else Times(raw[..|raw| - 1], r) + (if raw[|raw| - 1] == r then 1 else 0)
  }

  /** Every raw Close comes with no raw Write under way and no CancelWrite before it. */
  ghost predicate CloseIsAlone(raw: seq<Raw>) {
    forall i :: 0 <= i < |raw| && raw[i] == RawClose ==> Alone(raw[..i])
  }

  /** No raw Write is under way and CancelWrite was not called. */
  predicate Alone(raw: seq<Raw>) {
    Times(raw, WriteBegins) == Times(raw, WriteEnds) && Times(raw, CancelWrite) == 0
  }

  /** How many raw Writes began after `x` was called. */
  function WritesAfter(raw: seq<Raw>, x: Raw): nat {
    if raw == [] then 0
    else
      var rest := raw[..|raw| - 1];
      WritesAfter(rest, x) + (if raw[|raw| - 1] == WriteBegins && Times(rest, x) > 0 then 1 else 0)
  }

  lemma WritesAfterAppend(raw: seq<Raw>, r: Raw, x: Raw)
    ensures WritesAfter(raw + [r], x) == WritesAfter(raw, x) + (if r == WriteBegins && Times(raw, x) > 0 then 1 else 0)
  {
    assert (raw + [r])[..|raw|] == raw;
  }

  lemma TimesAppend(raw: seq<Raw>, x: Raw, r: Raw)
    ensures Times(raw + [x], r) == Times(raw, r) + (if x == r then 1 else 0)
  {
    assert (raw + [x])[..|raw|] == raw;
  }

  predicate Holds(call: Call) {
    call.WriteLocked? || call.WriteAllowed? || call.WriteRaw? || call.CloseLocked? || call.CloseUnlocks?
  }

  /** The call that holds the write lock is the one whose code is between Lock and Unlock. */
  ghost predicate LockOwned(s: State) {
    && (forall c :: c in s.calls && Holds(s.calls[c]) ==> s.writeLock == Some(c))
    && (s.writeLock.Some? ==> s.writeLock.value in s.calls && Holds(s.calls[s.writeLock.value]))
  }

  predicate Writing(s: State) {
    s.writeLock.Some? && s.writeLock.value in s.calls && s.calls[s.writeLock.value].WriteRaw?
  }

  ghost predicate RawSafe(s: State) {
    && Times(s.raw, WriteBegins) == Times(s.raw, WriteEnds) + (if Writing(s) then 1 else 0)
    && Times(s.raw, RawClose) <= 1 && (Times(s.raw, RawClose) == 1 ==> s.send != SendOpen)
    && Times(s.raw, CancelWrite) <= 1 && (Times(s.raw, CancelWrite) == 1 ==> s.send == SendReset)
    && CloseIsAlone(s.raw)
  }

  /** A Write is past its check and has not reached the raw stream yet. */
  predicate Allowed(s: State) {
    s.writeLock.Some? && s.writeLock.value in s.calls && s.calls[s.writeLock.value].WriteAllowed?
  }

  /** No raw Write begins after raw Close; after CancelWrite at most the one that had passed its check before. */
  ghost predicate WritesStop(s: State) {
    && WritesAfter(s.raw, RawClose) == 0 && (Allowed(s) ==> Times(s.raw, RawClose) == 0)
    && WritesAfter(s.raw, CancelWrite) + (if Allowed(s) && Times(s.raw, CancelWrite) > 0 then 1 else 0) <= 1
    && (s.send != SendReset ==> WritesAfter(s.raw, CancelWrite) == 0)
  }

  predicate DoneExact(s: State) {
    && s.doneCloses == (if s.onceDone then 1 else 0)
    && (s.onceDone <==> s.send != SendOpen && s.receive == ReceiveTerminal)
  }

  ghost predicate Inv(s: State) {
    LockOwned(s) && RawSafe(s) && WritesStop(s) && DoneExact(s)
  }

  lemma RawGrows(raw: seq<Raw>, x: Raw)
    ensures forall r :: Times(raw + [x], r) == Times(raw, r) + (if x == r then 1 else 0)
    ensures CloseIsAlone(raw) && (x == RawClose ==> Alone(raw)) ==> CloseIsAlone(raw + [x])
  {
    forall r ensures Times(raw + [x], r) == Times(raw, r) + (if x == r then 1 else 0) { TimesAppend(raw, x, r); }
    assert forall i :: 0 <= i <= |raw| ==> (raw + [x])[..i] == raw[..i];
    assert raw[..|raw|] == raw;
  }

  lemma StepKeepsLock(s: State, e: Event)
    requires LockOwned(s) && Enabled(s, e)
    ensures LockOwned(Apply(s, e))
  {
  }

  /** The raw calls a step makes. */
  function RawOf(s: State, e: Event): seq<Raw>
    requires Enabled(s, e)
  {
    match e
    case RawWriteBegins(_) => [WriteBegins]
    case RawWriteReturns(_) => [WriteEnds]
    case CloseWriteLocked(_) => if s.send == SendOpen then [RawClose] else []
    case Abort => if s.send != SendReset then [CancelWrite] else []
    case _ => []
  }

  lemma RawOfStep(s: State, e: Event)
    requires Enabled(s, e)
    ensures Apply(s, e).raw == s.raw + RawOf(s, e)
  {
    assert s.raw == s.raw + [];
  }

  /** Whether a raw Write is under way changes only where one begins or returns. */
  lemma WritingOfStep(s: State, e: Event)
    requires LockOwned(s) && Enabled(s, e)
    ensures e.RawWriteBegins? ==> !Writing(s) && Writing(Apply(s, e))
    ensures e.RawWriteReturns? ==> Writing(s) && !Writing(Apply(s, e))
    ensures e.CloseWriteLocked? ==> !Writing(s)
    ensures !e.RawWriteBegins? && !e.RawWriteReturns? ==> Writing(Apply(s, e)) == Writing(s)
  {
  }

  lemma StepKeepsRaw(s: State, e: Event)
    requires LockOwned(s) && RawSafe(s) && Enabled(s, e)
    ensures RawSafe(Apply(s, e))
  {
    WritingOfStep(s, e);
    RawOfStep(s, e);
    if |RawOf(s, e)| == 1 { RawGrows(s.raw, RawOf(s, e)[0]); } else { assert s.raw + RawOf(s, e) == s.raw; }
  }

  /** Whether a Write is past its check changes only where one passes it or reaches the raw stream. */
  lemma AllowedOfStep(s: State, e: Event)
    requires LockOwned(s) && Enabled(s, e)
    ensures Allowed(Apply(s, e)) ==> !e.RawWriteBegins? && (Allowed(s) || (e.CheckOpen? && s.send == SendOpen))
    ensures e.RawWriteBegins? ==> Allowed(s)
    ensures e.CloseWriteLocked? ==> !Allowed(Apply(s, e))
    ensures e.CheckOpen? ==> !Allowed(s)
  {
  }

  lemma SendOfStep(s: State, e: Event)
    requires Enabled(s, e)
    ensures s.send == SendReset ==> Apply(s, e).send == SendReset
    ensures e.Abort? ==> Apply(s, e).send == SendReset
  {
  }

  lemma StepKeepsStop(s: State, e: Event)
    requires LockOwned(s) && RawSafe(s) && WritesStop(s) && Enabled(s, e)
    ensures WritesStop(Apply(s, e))
  {
    AllowedOfStep(s, e);
    SendOfStep(s, e);
    RawOfStep(s, e);
    if |RawOf(s, e)| == 1 {
      var r := RawOf(s, e)[0];
      RawGrows(s.raw, r);
      WritesAfterAppend(s.raw, r, RawClose);
      WritesAfterAppend(s.raw, r, CancelWrite);
    } else {
      assert s.raw + RawOf(s, e) == s.raw;
    }
  }

  lemma StepKeepsInv(s: State, e: Event)
    requires Inv(s) && Enabled(s, e)
    ensures Inv(Apply(s, e))
  {
    StepKeepsLock(s, e);
    StepKeepsRaw(s, e);
    StepKeepsStop(s, e);
    assert DoneExact(Apply(s, e));
  }

  /** The sending state only moves forward: open, then FIN, then reset, or straight to reset. */
  lemma SendMovesForward(s: State, e: Event)
    requires Inv(s) && Enabled(s, e)
    ensures var s' := Apply(s, e);
            && (s.send == SendReset ==> s'.send == SendReset)
            && (s.send == SendFin ==> s'.send != SendOpen)
            && (s.receive == ReceiveTerminal ==> s'.receive == ReceiveTerminal)
            && s.doneCloses <= s'.doneCloses
  {
  }

  const FRESH := State(SendOpen, ReceiveOpen, 0, false, None, map[], [])

  ghost predicate Run(states: seq<State>, events: seq<Event>) {
    && |states| == |events| + 1 && states[0] == FRESH
    && forall i :: 0 <= i < |events| ==> Enabled(states[i], events[i]) && states[i + 1] == Apply(states[i], events[i])
  }

  /** In every state of every run: Done is closed exactly when both directions are terminal, and once; the raw
      stream is closed at most once, never during a raw Write and never after CancelWrite; CancelWrite is called
      at most once; no raw Write begins after the raw Close, and at most one after CancelWrite. */
  lemma {:induction false} RawCallsAreSafe(states: seq<State>, events: seq<Event>, i: nat)
    requires Run(states, events) && i < |states|
    ensures Inv(states[i])
    ensures var s := states[i];
            s.doneCloses <= 1 && (s.doneCloses == 1 <==> s.send != SendOpen && s.receive == ReceiveTerminal)
    ensures Times(states[i].raw, RawClose) <= 1 && Times(states[i].raw, CancelWrite) <= 1 && CloseIsAlone(states[i].raw)
    ensures WritesAfter(states[i].raw, RawClose) == 0 && WritesAfter(states[i].raw, CancelWrite) <= 1
  {
    if i > 0 {
      RawCallsAreSafe(states, events, i - 1);
      StepKeepsInv(states[i - 1], events[i - 1]);
    }
  }

  /** How far a CloseWrite, or a Close that also ends receiving, has come, and what it has achieved by then. */
  predicate CloseSoFar(s: State, c: Id, both: bool) {
    && c in s.calls
    && match s.calls[c]
       case CloseWaits(b) => b == both
       case CloseLocked(b) => b == both
       case CloseUnlocks(b) => b == both && s.send != SendOpen
       case CloseReads => both && s.send != SendOpen
       case Returned => s.send != SendOpen && (both ==> s.receive == ReceiveTerminal)
       case _ => false
  }

  lemma CloseBegins(s: State, c: Id, both: bool)
    requires Enabled(s, CallClose(c, both))
    ensures CloseSoFar(Apply(s, CallClose(c, both)), c, both)
  {
  }

  lemma CloseGoesOn(s: State, e: Event, c: Id, both: bool)
    requires CloseSoFar(s, c, both) && Enabled(s, e)
    ensures CloseSoFar(Apply(s, e), c, both)
  {
  }

  lemma {:induction false} CloseKept(states: seq<State>, events: seq<Event>, j: nat, i: nat, c: Id, both: bool)
    requires Run(states, events) && j < i < |states| && events[j] == CallClose(c, both)
    ensures CloseSoFar(states[i], c, both)
  {
    if j + 1 < i {
      CloseKept(states, events, j, i - 1, c, both);
      CloseGoesOn(states[i - 1], events[i - 1], c, both);
    } else {
      CloseBegins(states[j], c, both);
    }
  }

  /** In every run, when a CloseWrite has returned nothing more can be written; when a Close has returned receiving has
      ended, too, and Done is closed. */
  lemma CloseAchieves(states: seq<State>, events: seq<Event>, j: nat, i: nat, c: Id, both: bool)
    requires Run(states, events) && j < i < |states| && events[j] == CallClose(c, both)
    requires c in states[i].calls && states[i].calls[c] == Returned
    ensures states[i].send != SendOpen
    ensures both ==> states[i].receive == ReceiveTerminal && states[i].doneCloses == 1
  {
    CloseKept(states, events, j, i, c, both);
    RawCallsAreSafe(states, events, i);
  }

  /** A Write past its check. */
  function Checked(): State {
    FRESH.(calls := map[0 := WriteAllowed], writeLock := Some(0))
  }

  /** And the abort that comes next. */
  function Aborted(): State {
    State(SendReset, ReceiveTerminal, 1, true, Some(0), map[0 := WriteAllowed], [CancelWrite])
  }

  lemma CheckedRun()
    ensures Enabled(FRESH, CallWrite(0)) && Apply(FRESH, CallWrite(0)) == FRESH.(calls := map[0 := WriteWaits])
    ensures var s1 := FRESH.(calls := map[0 := WriteWaits]);
            Enabled(s1, Lock(0)) && Apply(s1, Lock(0)) == FRESH.(calls := map[0 := WriteLocked], writeLock := Some(0))
    ensures var s2 := FRESH.(calls := map[0 := WriteLocked], writeLock := Some(0));
            Enabled(s2, CheckOpen(0)) && Apply(s2, CheckOpen(0)) == Checked()
  {
  }

  lemma AbortedRun()
    ensures Enabled(Checked(), Abort) && Apply(Checked(), Abort) == Aborted()
    ensures Enabled(Aborted(), RawWriteBegins(0))
    ensures Apply(Aborted(), RawWriteBegins(0)) == Aborted().(calls := map[0 := WriteRaw], raw := [CancelWrite, WriteBegins])
  {
    assert [] + [CancelWrite] == [CancelWrite] && [CancelWrite] + [WriteBegins] == [CancelWrite, WriteBegins];
  }

  lemma OneWriteAfter()
    ensures WritesAfter([CancelWrite, WriteBegins], CancelWrite) == 1
  {
    assert [] + [CancelWrite] == [CancelWrite] && [CancelWrite] + [WriteBegins] == [CancelWrite, WriteBegins];
    TimesAppend([], CancelWrite, CancelWrite);
    WritesAfterAppend([], CancelWrite, CancelWrite);
    WritesAfterAppend([CancelWrite], WriteBegins, CancelWrite);
  }

  /** That one Write does happen: an abort comes between its check and its raw call. */
  lemma WriteAfterAbort() returns (states: seq<State>, events: seq<Event>)
    ensures Run(states, events) && WritesAfter(states[|events|].raw, CancelWrite) == 1
  {
    CheckedRun();
    AbortedRun();
    OneWriteAfter();
    events := [CallWrite(0), Lock(0), CheckOpen(0), Abort, RawWriteBegins(0)];
    states := [FRESH, FRESH.(calls := map[0 := WriteWaits]), FRESH.(calls := map[0 := WriteLocked], writeLock := Some(0)),
               Checked(), Aborted(), Aborted().(calls := map[0 := WriteRaw], raw := [CancelWrite, WriteBegins])];
  }

  /** A raw Write begins after CancelWrite exactly when an abort reset the stream after the Write's check. */
  lemma LateWriteExactly(s: State, c: Id)
    requires Inv(s) && Enabled(s, RawWriteBegins(c))
    ensures WritesAfter(Apply(s, RawWriteBegins(c)).raw, CancelWrite) > WritesAfter(s.raw, CancelWrite)
       <==> Times(s.raw, CancelWrite) == 1
  {
    WritesAfterAppend(s.raw, WriteBegins, CancelWrite);
  }

  // The adapter itself: its sections under the terminal lock.

  /** What the section of a CloseWrite or Close leaves, from any valid state. */
  lemma CloseMeans(s: State, c: Id) returns (t: State)
    requires Inv(s) && c in s.calls && s.calls[c].CloseLocked?
    ensures t == Apply(s, CloseWriteLocked(c)) && Inv(t)
    ensures t.send == (if s.send == SendOpen then SendFin else s.send) && t.receive == s.receive
    ensures t.raw == if s.send == SendOpen then s.raw + [RawClose] else s.raw
    ensures Times(t.raw, RawClose) == Times(s.raw, RawClose) + if s.send == SendOpen then 1 else 0
    ensures t.doneCloses == (if t.receive == ReceiveTerminal then 1 else 0) && t.onceDone == (t.receive == ReceiveTerminal)
    ensures s.doneCloses == (if s.onceDone then 1 else 0) && (s.onceDone <==> s.send != SendOpen && s.receive == ReceiveTerminal)
  {
    StepKeepsInv(s, CloseWriteLocked(c));
    TimesAppend(s.raw, RawClose, RawClose);
    t := Apply(s, CloseWriteLocked(c));
  }

  /** The object and, as history, the stream with the calls in progress on it. Every method keeps Valid() from any
      valid state, so the calls interleave freely; Valid() holds all that is promised of the raw stream and of
      Done. */
  class Adapter {
    var send: Send
    var receive: Receive
    var onceDone: bool
    var doneCloses: nat
    var raw: seq<Raw>
    ghost var s: State

    /** The fields are the stream's, and the stream is in a state some run reaches. */
    ghost predicate Valid()
      reads this
    {
      && send == s.send && receive == s.receive && onceDone == s.onceDone && doneCloses == s.doneCloses && raw == s.raw
      && Inv(s)
    }

    constructor ()
      ensures Valid() && s == FRESH
    {
      send, receive, onceDone, doneCloses, raw, s := SendOpen, ReceiveOpen, false, 0, [], FRESH;
    }

    /** The completion closes Done unless it is closed. */
    method CompleteLocked()
      modifies this`onceDone, this`doneCloses
      ensures onceDone && doneCloses == old(doneCloses) + if old(onceDone) then 0 else 1
    {
      if !onceDone { onceDone, doneCloses := true, doneCloses + 1; }
    }

    method MaybeCompleteLocked()
      modifies this`onceDone, this`doneCloses
      ensures onceDone == (old(onceDone) || (send != SendOpen && receive == ReceiveTerminal))
      ensures doneCloses == old(doneCloses) + if onceDone && !old(onceDone) then 1 else 0
    {
      if send != SendOpen && receive == ReceiveTerminal { CompleteLocked(); }
    }

    /** closeWriteLocked, by a call that holds the write lock: afterwards nothing more can be written, and Done is
        closed if receiving had ended. */
    method CloseWriteSection(c: Id)
      requires Valid() && c in s.calls && s.calls[c].CloseLocked?
      modifies this
      ensures Valid() && send != SendOpen && receive == old(receive)
      ensures doneCloses == if receive == ReceiveTerminal then 1 else 0
      ensures Times(raw, RawClose) == Times(old(raw), RawClose) + if old(send) == SendOpen then 1 else 0
    {
      s := CloseMeans(s, c);
      if send == SendOpen {
        send, raw := SendFin, raw + [RawClose];
        MaybeCompleteLocked();
      }
    }

    /** The end of receiving: Done is closed if sending had ended, and the raw stream is not touched. */
    method MarkReceiveTerminal()
      requires Valid()
      modifies this`receive, this`onceDone, this`doneCloses, this`s
      ensures Valid() && receive == ReceiveTerminal
      ensures doneCloses == if send != SendOpen then 1 else 0
    {
      StepKeepsInv(s, ReceiveEnds);
      s := Apply(s, ReceiveEnds);
      receive := ReceiveTerminal;
      MaybeCompleteLocked();
    }

    /** An abort ends both directions and closes Done, at once and from any state, without the write lock. */
    method AbortSection()
      requires Valid()
      modifies this
      ensures Valid() && send == SendReset && receive == ReceiveTerminal && doneCloses == 1
      ensures Times(raw, CancelWrite) <= 1 && (old(send) != SendReset ==> Times(raw, CancelWrite) == 1)
    {
      StepKeepsInv(s, Abort);
      TimesAppend(raw, CancelWrite, CancelWrite);
      s := Apply(s, Abort);
      if send != SendReset { send, raw := SendReset, raw + [CancelWrite]; }
      receive := ReceiveTerminal;
      CompleteLocked();
    }

    /** The session's end does the same, without a call on the raw stream. */
    method EndWithParent()
      requires Valid()
      modifies this
      ensures Valid() && send == SendReset && receive == ReceiveTerminal && doneCloses == 1 && raw == old(raw)
    {
      StepKeepsInv(s, ParentTerminated);
      s := Apply(s, ParentTerminated);
      send, receive := SendReset, ReceiveTerminal;
      CompleteLocked();
    }
  }
}
