/** What a drain achieves: from any state the pipeline can be in, a drain that the sink and the network leave alone ends,
    and then every valid complete line on disk has been accepted. */
module Drains {
  import opened Options
  import opened Lines
  import opened Shipping
  import opened Pipeline

  /** The shipper's own steps when stats, reads and posts work; saves and removals may fail. */
  predicate Works(e: Event) {
    e.Tick? || (e.StatOld? && e.ok) || e.ReadOk? || (e.Post? && e.answer == Accepted) || e.Remove? || e.AdoptLive?
  }

  /** One drain after its tick: working steps up to the first return to Idle. */
  ghost predicate ToIdle(states: seq<State>, events: seq<Event>, valid: Bytes -> bool) {
    && |states| == |events| + 1 && states[|events|].pc.Idle?
    && forall i :: 0 <= i < |events| ==>
         !states[i].pc.Idle? && Works(events[i]) && Enabled(states[i], events[i]) && states[i + 1] == Apply(states[i], events[i], valid)
  }

  /** A whole drain from `s`: a tick, and then on to Idle. */
  ghost predicate Drain(s: State, states: seq<State>, events: seq<Event>, valid: Bytes -> bool) {
    && s.pc.Idle? && Enabled(s, Tick)
    && |states| > 0 && states[0] == Apply(s, Tick, valid) && ToIdle(states, events, valid)
  }

  /** Everything on disk was accepted. */
  ghost predicate AllAccepted(s: State, valid: Bytes -> bool) {
    forall g: nat :: g < |s.gens| ==> AllTaken(s, g, valid)
  }

  /** The inode of the live file, which no step of a drain changes. */
  predicate IsLive(s: State, ino: nat) {
    s.live.Some? && s.live.value < |s.gens| && s.gens[s.live.value].inode == ino
  }

  /** Where a drain stands, once begun. */
  ghost predicate Draining(s: State, valid: Bytes -> bool) {
    && Inv(s, valid) && !s.blip && s.live.Some?
    && match s.pc
       case Idle => AllAccepted(s, valid)
       case LookOld(ino) => IsLive(s, ino)
       case Ship(target, ino, at, own, pending) =>
         if target == Live then IsLive(s, at.inode)
         else IsLive(s, ino) && s.rotated.Some? && s.gens[s.rotated.value].inode == at.inode
       case RemoveOld(ino) => IsLive(s, ino)
       case Adopt(ino) => IsLive(s, ino)
  }

  lemma TickDrains(s: State, valid: Bytes -> bool)
    requires Inv(s, valid) && !s.blip && s.pc.Idle? && s.live.Some?
    ensures Enabled(s, Tick) && Draining(Apply(s, Tick, valid), valid) && !Apply(s, Tick, valid).pc.Idle?
  {
    StepKeepsInv(s, Tick, valid);
  }

  /** When the live file has nothing left behind an accepted prefix, everything was accepted. */
  lemma LiveDone(s: State, valid: Bytes -> bool)
    requires Inv(s, valid) && !s.blip && s.pc.Ship? && s.pc.target == Live && IsLive(s, s.pc.at.inode)
    requires AllTaken(s, s.live.value, valid)
    ensures AllAccepted(s, valid)
  {
    assert OlderTaken(s, s.pc.at.inode, valid);
    forall g: nat | g < |s.gens| ensures AllTaken(s, g, valid) {
      if g < s.live.value { assert s.gens[s.live.value].inode == s.pc.at.inode; }
    }
  }

  lemma ReadDrains(s: State, max: nat, valid: Bytes -> bool)
    requires Draining(s, valid) && Enabled(s, ReadOk(max))
    ensures Draining(Apply(s, ReadOk(max), valid), valid)
  {
    StepKeepsInv(s, ReadOk(max), valid);
    NeverPastEnd(s, max, valid);
    var s' := s.(pc := PcAfterRead(s, max));
    var k := TrackedFile(s, valid);
    BatchIsPending(s, k, max, valid);
    if s'.pc.Idle? {
      assert k == s.live.value;
      LiveDone(s, valid);
      FactsStay(s, s', valid);
    }
  }

  lemma PostDrains(s: State, saveOk: bool, valid: Bytes -> bool)
    requires Draining(s, valid) && Enabled(s, Post(Accepted, saveOk))
    ensures Draining(Apply(s, Post(Accepted, saveOk), valid), valid)
    ensures !Apply(s, Post(Accepted, saveOk), valid).pc.Idle?
  {
    StepKeepsInv(s, Post(Accepted, saveOk), valid);
  }

  lemma StepDrains(s: State, e: Event, valid: Bytes -> bool)
    requires Draining(s, valid) && !s.pc.Idle? && Works(e) && Enabled(s, e)
    ensures Draining(Apply(s, e, valid), valid)
  {
    match e
    case ReadOk(max) => ReadDrains(s, max, valid);
    case Post(_, saveOk) => PostDrains(s, saveOk, valid);
    case _ => StepKeepsInv(s, e, valid);
  }

  lemma {:induction false} ToIdleDrains(states: seq<State>, events: seq<Event>, valid: Bytes -> bool, i: nat)
    requires ToIdle(states, events, valid) && Draining(states[0], valid) && i < |states|
    ensures Draining(states[i], valid)
  {
    if i > 0 {
      ToIdleDrains(states, events, valid, i - 1);
      StepDrains(states[i - 1], events[i - 1], valid);
    }
  }

  /** Every drain that the sink and the network leave alone ends with everything on disk accepted. */
  lemma DrainTakesAll(s: State, states: seq<State>, events: seq<Event>, valid: Bytes -> bool)
    requires Inv(s, valid) && !s.blip && s.live.Some? && Drain(s, states, events, valid)
    ensures AllAccepted(states[|events|], valid)
  {
    TickDrains(s, valid);
    ToIdleDrains(states, events, valid, |events|);
  }

  // Such a drain exists.

  lemma Prepend(s: State, e: Event, states: seq<State>, events: seq<Event>, valid: Bytes -> bool)
    requires !s.pc.Idle? && Works(e) && Enabled(s, e)
    requires ToIdle(states, events, valid) && states[0] == Apply(s, e, valid)
    ensures ToIdle([s] + states, [e] + events, valid)
  {
    var states', events' := [s] + states, [e] + events;
    forall i | 0 <= i < |events'|
      ensures !states'[i].pc.Idle? && Works(events'[i]) && Enabled(states'[i], events'[i])
      ensures states'[i + 1] == Apply(states'[i], events'[i], valid)
    {
      if i > 0 { assert events'[i] == events[i - 1] && states'[i] == states[i - 1]; }
    }
    assert states'[|events'|] == states[|events|];
  }

  /** How much of the file being shipped lies after the cursor. */
  function Left(s: State): nat
    requires s.pc.Ship? && Reading(s).Some? && s.pc.at.offset <= |Reading(s).value.bytes|
  {
    |Reading(s).value.bytes| - s.pc.at.offset
  }

  /** A read finds a batch, or the file is done. */
  lemma ReadMoves(s: State, valid: Bytes -> bool)
    requires Draining(s, valid) && s.pc.Ship? && s.pc.pending.None?
    ensures Enabled(s, ReadOk(1))
    ensures var s' := Apply(s, ReadOk(1), valid);
            if s'.pc.Ship? then s'.pc.pending.Some? && s' == s.(pc := s.pc.(pending := s'.pc.pending)) && s'.pc.pending.value.end > s.pc.at.offset
            else s'.pc == if s.pc.target == Rotated then RemoveOld(s.pc.ino) else Idle
  {
    NeverPastEnd(s, 1, valid);
    var k := TrackedFile(s, valid);
    BatchEndsAtLineEnd(s.gens[k].bytes, s.pc.at.offset, 1);
  }

  lemma PostMoves(s: State, valid: Bytes -> bool)
    requires Draining(s, valid) && s.pc.Ship? && s.pc.pending.Some?
    ensures Enabled(s, Post(Accepted, true))
    ensures var s' := Apply(s, Post(Accepted, true), valid);
            && s'.pc.Ship? && s'.pc.target == s.pc.target && s'.pc.pending.None?
            && s'.pc.at.offset == s.pc.pending.value.end && s'.gens == s.gens && s'.live == s.live && s'.rotated == s.rotated
  {
  }

  lemma OffsetWithin(s: State, valid: Bytes -> bool)
    requires Draining(s, valid) && s.pc.Ship?
    ensures Reading(s).Some? && s.pc.at.offset <= |Reading(s).value.bytes|
  {
    var k := TrackedFile(s, valid);
  }

  /** Shipping the live file reaches Idle. */
  lemma {:induction false} LiveReachesIdle(s: State, valid: Bytes -> bool) returns (states: seq<State>, events: seq<Event>)
    requires Draining(s, valid) && s.pc.Ship? && s.pc.target == Live && s.pc.pending.None?
    requires Reading(s).Some? && s.pc.at.offset <= |Reading(s).value.bytes|
    ensures ToIdle(states, events, valid) && states[0] == s
    decreases Left(s)
  {
    ReadMoves(s, valid);
    var a := Apply(s, ReadOk(1), valid);
    ReadDrains(s, 1, valid);
    if a.pc.Idle? {
      states, events := [a], [];
    } else {
      PostMoves(a, valid);
      PostDrains(a, true, valid);
      var b := Apply(a, Post(Accepted, true), valid);
      OffsetWithin(b, valid);
      states, events := LiveReachesIdle(b, valid);
      Prepend(a, Post(Accepted, true), states, events, valid);
      states, events := [a] + states, [Post(Accepted, true)] + events;
    }
    Prepend(s, ReadOk(1), states, events, valid);
    states, events := [s] + states, [ReadOk(1)] + events;
  }

  lemma AdoptReachesIdle(s: State, valid: Bytes -> bool) returns (states: seq<State>, events: seq<Event>)
    requires Draining(s, valid) && s.pc.Adopt?
    ensures ToIdle(states, events, valid) && states[0] == s
  {
    StepDrains(s, AdoptLive(true), valid);
    var a := Apply(s, AdoptLive(true), valid);
    OffsetWithin(a, valid);
    states, events := LiveReachesIdle(a, valid);
    Prepend(s, AdoptLive(true), states, events, valid);
    states, events := [s] + states, [AdoptLive(true)] + events;
  }

  lemma RemoveReachesIdle(s: State, valid: Bytes -> bool) returns (states: seq<State>, events: seq<Event>)
    requires Draining(s, valid) && s.pc.RemoveOld?
    ensures ToIdle(states, events, valid) && states[0] == s
  {
    StepDrains(s, Remove(true), valid);
    var a := Apply(s, Remove(true), valid);
    states, events := AdoptReachesIdle(a, valid);
    Prepend(s, Remove(true), states, events, valid);
    states, events := [s] + states, [Remove(true)] + events;
  }

  lemma {:induction false} OldReachesIdle(s: State, valid: Bytes -> bool) returns (states: seq<State>, events: seq<Event>)
    requires Draining(s, valid) && s.pc.Ship? && s.pc.target == Rotated && s.pc.pending.None?
    requires Reading(s).Some? && s.pc.at.offset <= |Reading(s).value.bytes|
    ensures ToIdle(states, events, valid) && states[0] == s
    decreases Left(s)
  {
    ReadMoves(s, valid);
    var a := Apply(s, ReadOk(1), valid);
    ReadDrains(s, 1, valid);
    if a.pc.RemoveOld? {
      states, events := RemoveReachesIdle(a, valid);
    } else {
      PostMoves(a, valid);
      PostDrains(a, true, valid);
      var b := Apply(a, Post(Accepted, true), valid);
      OffsetWithin(b, valid);
      states, events := OldReachesIdle(b, valid);
      Prepend(a, Post(Accepted, true), states, events, valid);
      states, events := [a] + states, [Post(Accepted, true)] + events;
    }
    Prepend(s, ReadOk(1), states, events, valid);
    states, events := [s] + states, [ReadOk(1)] + events;
  }

  lemma LookReachesIdle(s: State, valid: Bytes -> bool) returns (states: seq<State>, events: seq<Event>)
    requires Draining(s, valid) && s.pc.LookOld?
    ensures ToIdle(states, events, valid) && states[0] == s
  {
    StepDrains(s, StatOld(true), valid);
    var a := Apply(s, StatOld(true), valid);
    if a.pc.Adopt? {
      states, events := AdoptReachesIdle(a, valid);
    } else {
      OffsetWithin(a, valid);
      states, events := OldReachesIdle(a, valid);
    }
    Prepend(s, StatOld(true), states, events, valid);
    states, events := [s] + states, [StatOld(true)] + events;
  }

  /** From every state in which the shipper is idle and the log exists, such a drain exists; and it takes everything. */
  lemma DrainExists(s: State, valid: Bytes -> bool) returns (states: seq<State>, events: seq<Event>)
    requires Inv(s, valid) && !s.blip && s.pc.Idle? && s.live.Some?
    ensures Drain(s, states, events, valid) && AllAccepted(states[|events|], valid)
  {
    TickDrains(s, valid);
    var a := Apply(s, Tick, valid);
    if a.pc.LookOld? {
      states, events := LookReachesIdle(a, valid);
    } else {
      OffsetWithin(a, valid);
      states, events := LiveReachesIdle(a, valid);
    }
    DrainTakesAll(s, states, events, valid);
  }
}
