/** Re-registering the intended tunnels on a new session, while the user keeps registering and unregistering.
    `intended(i)` is the intended map at the client's i-th look at it, and `acks(i)` is whether the i-th register call
    on the session returned a URL; both are arbitrary. */
module Replay {
  import Replies

  type Name = string
  type Port = nat
  type Intended = nat -> map<Name, Port>

  /** Name `n` was intended with port `p` at every look in [from, end). */
  ghost predicate Steady(intended: Intended, n: Name, p: Port, from: nat, end: nat) {
    forall i: nat :: from <= i < end ==> n in intended(i) && intended(i)[n] == p
  }

  /** One acknowledged register call: the name, the port, the look that allowed it, and which call it was. */
  datatype Ack = Ack(name: Name, port: Port, look: nat, call: nat)

  /** Every acknowledged call carried what was intended at the look just before it, and did return a URL. `made` lists
      the names of all calls. */
  ghost predicate Honest(intended: Intended, acks: nat -> bool, made: seq<Name>, acked: set<Ack>) {
    forall a :: a in acked ==>
      && a.name in intended(a.look) && intended(a.look)[a.name] == a.port
      && a.call < |made| && made[a.call] == a.name && acks(a.call)
  }

  ghost predicate Acked(acked: set<Ack>, n: Name, p: Port) {
    exists a :: a in acked && a.name == n && a.port == p
  }

  /** Every chosen name outside `todo` that stayed as it was is acknowledged or failed. */
  ghost predicate Settled(intended: Intended, from: nat, end: nat, chosen: Name -> bool, todo: set<Name>,
                          failed: set<Name>, acked: set<Ack>) {
    forall n, p :: n !in todo && chosen(n) && Steady(intended, n, p, from, end) ==> n in failed || Acked(acked, n, p)
  }

  lemma SettledGrows(intended: Intended, from: nat, end: nat, end': nat, chosen: Name -> bool, todo: set<Name>,
                     failed: set<Name>, failed': set<Name>, acked: set<Ack>, acked': set<Ack>, name: Name)
    requires Settled(intended, from, end, chosen, todo, failed, acked)
    requires end <= end' && failed <= failed' && acked <= acked'
    requires forall p :: chosen(name) && Steady(intended, name, p, from, end') ==> name in failed' || Acked(acked', name, p)
    ensures Settled(intended, from, end', chosen, todo - {name}, failed', acked')
  {
    forall n, p | n !in todo - {name} && chosen(n) && Steady(intended, n, p, from, end')
      ensures n in failed' || Acked(acked', n, p)
    {
      if n != name {
        assert Steady(intended, n, p, from, end);
        AckedGrows(acked, acked');
      }
    }
  }

  /** Registers one name, unless it was removed or repointed since the snapshot. */
  method ReplayName(intended: Intended, acks: nat -> bool, look: nat, made: seq<Name>, name: Name, port: Port, before: set<Ack>)
    returns (ok: bool, acked: set<Ack>, made': seq<Name>)
    requires Honest(intended, acks, made, before)
    ensures before <= acked && made <= made' && Honest(intended, acks, made', acked)
    ensures ok <==> forall i: nat :: |made| <= i < |made'| ==> acks(i)
    ensures !ok ==> name in intended(look) && intended(look)[name] == port
    ensures ok && name in intended(look) && intended(look)[name] == port ==> Acked(acked, name, port)
  {
    var now := intended(look);
    acked, made', ok := before, made, true;
    if name in now && now[name] == port {
      ok := acks(|made|);
      made' := made + [name];
      if ok {
        var a := Ack(name, port, look, |made|);
        acked := acked + {a};
        assert a in acked;
      }
    }
  }

  /** One pass: a snapshot, then every chosen name of it in some order, each looked up again before its call.
      A chosen name that stayed as it was is acknowledged or reported failed. */
  method ReplayIntended(intended: Intended, acks: nat -> bool, start: nat, made: seq<Name>, chosen: Name -> bool, before: set<Ack>)
    returns (failed: set<Name>, acked: set<Ack>, look: nat, made': seq<Name>)
    requires Honest(intended, acks, made, before)
    ensures before <= acked && look > start && made <= made'
    ensures Honest(intended, acks, made', acked)
    ensures Settled(intended, start, look, chosen, {}, failed, acked)
    ensures forall n :: n in failed ==> n in intended(start) && chosen(n)
    ensures failed == {} <==> forall i: nat :: |made| <= i < |made'| ==> acks(i)
  {
    var snapshot := intended(start);
    look, made', failed, acked := start + 1, made, {}, before;
    var todo := snapshot.Keys;
    while todo != {}
      invariant todo <= snapshot.Keys && look > start && made <= made'
      invariant before <= acked && Honest(intended, acks, made', acked)
      invariant forall n :: n in failed ==> n in snapshot && chosen(n)
      invariant failed == {} <==> forall i: nat :: |made| <= i < |made'| ==> acks(i)
      invariant Settled(intended, start, look, chosen, todo, failed, acked)
      decreases |todo|
    {
      var name :| name in todo;
      var port := snapshot[name];
      ghost var failed0, acked0, look0 := failed, acked, look;
      if chosen(name) {
        var ok;
        ok, acked, made' := ReplayName(intended, acks, look, made', name, port, acked);
        if !ok { failed := failed + {name}; }
        look := look + 1;
        SteadyMeans(intended, name, start, look0, look);
      }
      SettledGrows(intended, start, look0, look, chosen, todo, failed0, failed, acked0, acked, name);
      todo := todo - {name};
    }
  }

  /** A name that stayed as it was still is at the look before its call. */
  lemma SteadyMeans(intended: Intended, n: Name, from: nat, at: nat, end: nat)
    requires from <= at < end
    ensures forall p :: Steady(intended, n, p, from, end) ==>
              n in intended(from) && intended(from)[n] == p && n in intended(at) && intended(at)[n] == p
  {
  }

  /** The loop after a reconnect. `rounds` passes at most: the session ends or the client closes after them. If it
      reports the replay complete, every name that stayed intended with the same port since the first snapshot
      was acknowledged; and no call was ever made for a name that was not intended at the look before it. It does
      not report so only if some call was refused. */
  method ReplayLoop(intended: Intended, acks: nat -> bool, rounds: nat)
    returns (complete: bool, acked: set<Ack>, look: nat, made: seq<Name>)
    ensures complete ==> look > 0 && forall n, p :: Steady(intended, n, p, 0, look) ==> Acked(acked, n, p)
    ensures rounds > 0 && !complete ==> exists i: nat :: i < |made| && !acks(i)
    ensures Honest(intended, acks, made, acked)
  {
    var only: set<Name> := {};
    acked, look, complete, made := {}, 0, false, [];
    var round := 0;
    while round < rounds
      invariant round == 0 <==> look == 0
      invariant Honest(intended, acks, made, acked)
      invariant round > 0 ==> exists i: nat :: i < |made| && !acks(i)
      invariant round > 0 ==> forall n, p :: Steady(intended, n, p, 0, look) ==> n in only || Acked(acked, n, p)
    {
      var chosen := if round == 0 then (n: Name) => true else (n: Name) => n in only;
      var failed, acked', look', made' := ReplayIntended(intended, acks, look, made, chosen, acked);
      forall n, p | Steady(intended, n, p, 0, look') ensures n in failed || Acked(acked', n, p) {
        StillSteady(intended, n, p, look, look');
        AckedGrows(acked, acked');
      }
      acked, look, made := acked', look', made';
      if failed == {} { return true, acked, look, made; }
      only := failed;
      round := round + 1;
    }
  }

  lemma StillSteady(intended: Intended, n: Name, p: Port, mid: nat, end: nat)
    requires mid <= end && Steady(intended, n, p, 0, end)
    ensures Steady(intended, n, p, 0, mid) && Steady(intended, n, p, mid, end)
  {
  }

  lemma AckedGrows(before: set<Ack>, after: set<Ack>)
    requires before <= after
    ensures forall n, p :: Acked(before, n, p) ==> Acked(after, n, p)
  {
  }

  // The replay on one session, together with that session's reader.

  /** In this state of the session, the calls it has seen include the replay's, under the names the replay gave, and the
      ones that returned a URL are those that took a `registered` reply. `id` says which call is the i-th. */
  ghost predicate OnSession(s: Replies.State, id: nat -> nat, made: seq<Name>, acks: nat -> bool) {
    forall i: nat :: i < |made| ==>
      && id(i) in s.calls && s.calls[id(i)].name == made[i]
      && (acks(i) <==> s.calls[id(i)].outcome.Answered? && s.calls[id(i)].outcome.reply.Registered?)
  }

  /** Some call for `n` on the session was answered by a `registered` reply that names `n`. */
  ghost predicate RegisteredOn(s: Replies.State, n: Name) {
    exists c :: c in s.calls && s.calls[c].name == n && s.calls[c].outcome.Answered?
      && s.calls[c].outcome.reply.Registered? && s.calls[c].outcome.reply.name == n
  }

  /** A complete replay on a session, in any interleaving with the session's reader and with other calls: every name
      that stayed intended with its port was acknowledged by the edge on that session, by a reply that names it. */
  lemma CompleteMeansRegistered(states: seq<Replies.State>, events: seq<Replies.Event>, i: nat, id: nat -> nat,
                                intended: Intended, acks: nat -> bool, made: seq<Name>, acked: set<Ack>, look: nat, n: Name, p: Port)
    requires Replies.Run(states, events) && i < |states| && OnSession(states[i], id, made, acks)
    requires Honest(intended, acks, made, acked) && forall m, q :: Steady(intended, m, q, 0, look) ==> Acked(acked, m, q)
    requires Steady(intended, n, p, 0, look)
    ensures RegisteredOn(states[i], n)
  {
    Replies.RepliesReachTheirCall(states, events, i);
    var a :| a in acked && a.name == n && a.port == p;
    var c := id(a.call);
    assert c in states[i].calls && states[i].calls[c].name == n;
    assert states[i].calls[c].outcome.reply.name == n;
  }
}

/** Register calls and the control-stream reader that answers them, in every interleaving: which reply reaches
    which call. A step is one section under the pending lock, or one channel operation. */
module Replies {
  import opened Options

  type Name = string
  type Id = nat

  datatype Message = Registered(name: Name, url: string) | Error(name: Name, shutdown: bool)

  /** A register call: waiting, or ended with a reply, or ended without one. */
  datatype Outcome = Waiting | Answered(reply: Message) | Unanswered

  datatype Call = Call(name: Name, channel: seq<Message>, outcome: Outcome)

  /** `pending` is the session's slot; `reading` is the message the reader holds with the call it looked up. */
  datatype State = State(calls: map<Id, Call>, pending: Option<Id>, reading: Option<(Message, Option<Id>)>)

  datatype Event =
    | Begin(c: Id, name: Name)
    | ReadMessage(m: Message)
    | Dispatch
    | TakeReply(c: Id)
    | GiveUp(c: Id)         // timeout, closed client, lost session or failed write
    | Clear(c: Id)

  /** Whether the reader hands the message to the call it looked up. */
  predicate Answers(m: Message, name: Name) {
    match m
    case Registered(n, _) => n == name
    case Error(n, _) => n == "" || n == name
  }

  /** Register calls are serialized: one begins only when the slot is free. */
  predicate Enabled(s: State, e: Event) {
    match e
    case Begin(c, _) => c !in s.calls && s.pending.None?
    case ReadMessage(_) => s.reading.None?
    // the channel holds one reply: a second one waits until the first is taken
    case Dispatch => s.reading.Some? && (Delivers(s) ==> |s.calls[s.reading.value.1.value].channel| < 1)
    case TakeReply(c) => c in s.calls && s.calls[c].outcome == Waiting && |s.calls[c].channel| > 0
    case GiveUp(c) => c in s.calls && s.calls[c].outcome == Waiting
    case Clear(c) => s.pending == Some(c) && c in s.calls && s.calls[c].outcome != Waiting
  }

  predicate Delivers(s: State) {
    && s.reading.Some? && s.reading.value.1.Some? && s.reading.value.1.value in s.calls
    && Answers(s.reading.value.0, s.calls[s.reading.value.1.value].name)
  }

  function Apply(s: State, e: Event): State
    requires Enabled(s, e)
  {
    match e
    case Begin(c, name) => s.(calls := s.calls[c := Call(name, [], Waiting)], pending := Some(c))
    case ReadMessage(m) => s.(reading := Some((m, s.pending)))
    case Dispatch =>
      if Delivers(s) then
        var c := s.reading.value.1.value;
        s.(calls := s.calls[c := s.calls[c].(channel := s.calls[c].channel + [s.reading.value.0])], reading := None)
      else s.(reading := None)
    case TakeReply(c) =>
      s.(calls := s.calls[c := s.calls[c].(channel := s.calls[c].channel[1..], outcome := Answered(s.calls[c].channel[0]))])
    case GiveUp(c) => s.(calls := s.calls[c := s.calls[c].(outcome := Unanswered)])
    case Clear(c) => s.(pending := None)
  }

  /** A reply for a tunnel: the edge's `registered` with its name, or an error with its name or with none. */
  predicate Names(m: Message, name: Name) {
    (m.Registered? ==> m.name == name) && (m.Error? ==> m.name == "" || m.name == name)
  }

  /** Everything a call has received or could still receive is for its own tunnel. */
  ghost predicate Inv(s: State) {
    && (forall c, m :: c in s.calls && m in s.calls[c].channel ==> Names(m, s.calls[c].name))
    && (forall c :: c in s.calls && s.calls[c].outcome.Answered? ==> Names(s.calls[c].outcome.reply, s.calls[c].name))
    && (s.pending.Some? ==> s.pending.value in s.calls)
    && (forall c :: c in s.calls && s.calls[c].outcome == Waiting ==> s.pending == Some(c))
  }

  lemma StepKeepsInv(s: State, e: Event)
    requires Inv(s) && Enabled(s, e)
    ensures Inv(Apply(s, e))
  {
    if e.TakeReply? { assert s.calls[e.c].channel[0] in s.calls[e.c].channel; }
  }

  /** The reader holds a reply for a call whose channel is full and which will never take anything again. */
  predicate Wedged(s: State) {
    && Delivers(s) && |s.calls[s.reading.value.1.value].channel| >= 1
    && s.calls[s.reading.value.1.value].outcome != Waiting
  }

  /** The reader is blocked on a full channel exactly until the call takes its reply; once the call has ended
      without taking it, the reader is blocked for good and reads no further message. */
  lemma WedgedForever(s: State, e: Event)
    requires Inv(s) && Wedged(s) && Enabled(s, e)
    ensures Wedged(Apply(s, e)) && !e.Dispatch? && !e.ReadMessage?
  {
  }

  lemma BlockedReaderFreed(s: State)
    requires Inv(s) && Delivers(s) && |s.calls[s.reading.value.1.value].channel| == 1 && !Wedged(s)
    ensures var c := s.reading.value.1.value; Enabled(s, TakeReply(c)) && Enabled(Apply(s, TakeReply(c)), Dispatch)
  {
  }

  /** It can happen: a late reply to an earlier call of the same name and the call's own reply arrive just as the
      call gives up. */
  lemma ReaderCanWedge(name: Name, url: string) returns (states: seq<State>, events: seq<Event>)
    ensures Run(states, events) && Wedged(states[|events|]) && states[|events|].pending == None
  {
    var m := Registered(name, url);
    var call := Call(name, [], Waiting);
    var s1 := State(map[0 := call], Some(0), None);
    var s2 := s1.(reading := Some((m, Some(0))));
    var s3 := State(map[0 := call.(channel := [m])], Some(0), None);
    var s4 := s3.(reading := Some((m, Some(0))));
    var s5 := s4.(calls := map[0 := Call(name, [m], Unanswered)]);
    var s6 := s5.(pending := None);
    events := [Begin(0, name), ReadMessage(m), Dispatch, ReadMessage(m), GiveUp(0), Clear(0)];
    states := [IDLE, s1, s2, s3, s4, s5, s6];
    assert Apply(IDLE, events[0]) == s1;
    assert Apply(s1, events[1]) == s2;
    assert [] + [m] == [m];
    assert Apply(s2, events[2]) == s3;
    assert Apply(s3, events[3]) == s4;
    assert Apply(s4, events[4]) == s5;
    assert Apply(s5, events[5]) == s6;
  }

  const IDLE := State(map[], None, None)

  ghost predicate Run(states: seq<State>, events: seq<Event>) {
    && |states| == |events| + 1 && states[0] == IDLE
    && forall i :: 0 <= i < |events| ==> Enabled(states[i], events[i]) && states[i + 1] == Apply(states[i], events[i])
  }

  /** In every state of every run, what a call was answered with, and what lies in its channel, is for its own tunnel: a
      URL comes from a reply that names it, an error from one that names it or none. One call waits at a time. */
  lemma {:induction false} RepliesReachTheirCall(states: seq<State>, events: seq<Event>, i: nat)
    requires Run(states, events) && i < |states|
    ensures Inv(states[i])
    ensures forall c :: c in states[i].calls && states[i].calls[c].outcome.Answered? ==>
              var reply := states[i].calls[c].outcome.reply;
              && (reply.Registered? ==> reply.name == states[i].calls[c].name)
              && (reply.Error? ==> reply.name == "" || reply.name == states[i].calls[c].name)
    ensures forall c, m :: c in states[i].calls && m in states[i].calls[c].channel ==>
              && (m.Registered? ==> m.name == states[i].calls[c].name)
              && (m.Error? ==> m.name == "" || m.name == states[i].calls[c].name)
  {
    if i > 0 {
      RepliesReachTheirCall(states, events, i - 1);
      StepKeepsInv(states[i - 1], events[i - 1]);
    }
  }

  /** And none is withheld: a message that was read while a call was pending, and that is for its tunnel, is put into
      that call's channel; any other is put into none. */
  lemma DispatchedToItsCall(s: State)
    requires Enabled(s, Dispatch)
    ensures var (m, looked) := s.reading.value;
            var s' := Apply(s, Dispatch);
            && s'.reading.None? && s'.calls.Keys == s.calls.Keys
            && forall c :: c in s.calls ==>
                 s'.calls[c].channel ==
                 if looked == Some(c) && ((m.Registered? && m.name == s.calls[c].name) || (m.Error? && (m.name == "" || m.name == s.calls[c].name)))
                 then s.calls[c].channel + [m] else s.calls[c].channel
  {
  }

  /** A message is looked up against the call that is pending when it is read. */
  lemma ReadLooksUpPending(s: State, m: Message)
    requires Enabled(s, ReadMessage(m))
    ensures Apply(s, ReadMessage(m)).reading == Some((m, s.pending)) && Apply(s, ReadMessage(m)).calls == s.calls
  {
  }
}
