/** The yamux open gate: a channel of tokens shared by stream opens in progress and by the streams they
    produced, in every interleaving of opens, timeouts, closes and stream completions. */
module YamuxGate {
  import opened Counting

  const STREAM_LIMIT := 128

  type Id = nat

  /** One OpenStream call: waiting for a token, opening with one, or returned. */
  datatype OpenPc = Waiting | Opening | Returned

  /** One stream: live; inside the once-guarded completion before and after its token went back; done.
      `token` says the stream took over an open's token; accepted streams have none. */
  datatype Phase = Live | Completing | Released | Done
  datatype Stream = Stream(token: bool, phase: Phase)

  /** `returned` counts the tokens given back; `taken` the tokens handed out. */
  datatype State = State(
    tokens: nat, opens: map<Id, OpenPc>, streams: map<Id, Stream>, taken: nat, returned: nat, panicked: bool)

  datatype Event =
    | CallOpen(op: Id)
    | GiveUpWaiting(op: Id)               // the context ended or the session was done before a token came
    | TakeToken(op: Id)
    | OpenFails(op: Id)                   // raw error, cancelled, timed out, or session done: the token goes back
    | OpenSucceeds(op: Id, stream: Id)    // the stream takes the token over, registered with its session or not
    | Accept(stream: Id)
    | CompleteCalled(stream: Id)          // by a reader, a timer, a failed registration or the ending session
    | ReleaseSlot(stream: Id)
    | CloseDone(stream: Id)

  ghost predicate Enabled(s: State, e: Event) {
    match e
    case CallOpen(op) => op !in s.opens
    case GiveUpWaiting(op) => op in s.opens && s.opens[op] == Waiting
    case TakeToken(op) => op in s.opens && s.opens[op] == Waiting && s.tokens < STREAM_LIMIT
    case OpenFails(op) => op in s.opens && s.opens[op] == Opening
    case OpenSucceeds(op, stream) => op in s.opens && s.opens[op] == Opening && stream !in s.streams
    case Accept(stream) => stream !in s.streams
    case CompleteCalled(stream) => stream in s.streams
    case ReleaseSlot(stream) => stream in s.streams && s.streams[stream].phase == Completing
    case CloseDone(stream) => stream in s.streams && s.streams[stream].phase == Released
  }

  /** Receiving from an empty gate is the panic. */
  function ReleaseOpenSlot(s: State): State {
    if s.tokens == 0 then s.(panicked := true) else s.(tokens := s.tokens - 1, returned := s.returned + 1)
  }

  function Apply(s: State, e: Event): State
    requires Enabled(s, e)
  {
    match e
    case CallOpen(op) => s.(opens := s.opens[op := Waiting])
    case GiveUpWaiting(op) => s.(opens := s.opens[op := Returned])
    case TakeToken(op) => s.(opens := s.opens[op := Opening], tokens := s.tokens + 1, taken := s.taken + 1)
    case OpenFails(op) => ReleaseOpenSlot(s).(opens := s.opens[op := Returned])
    case OpenSucceeds(op, stream) =>
      s.(opens := s.opens[op := Returned], streams := s.streams[stream := Stream(true, Live)])
    case Accept(stream) => s.(streams := s.streams[stream := Stream(false, Live)])
    case CompleteCalled(stream) =>
      var x := s.streams[stream];
      if x.phase == Live then s.(streams := s.streams[stream := x.(phase := Completing)]) else s
    case ReleaseSlot(stream) =>
      var x := s.streams[stream];
      (if x.token then ReleaseOpenSlot(s) else s).(streams := s.streams[stream := x.(phase := Released)])
    case CloseDone(stream) => s.(streams := s.streams[stream := s.streams[stream].(phase := Done)])
  }

  predicate OpenHolds(pc: OpenPc) {
    pc == Opening
  }

  predicate StreamHolds(x: Stream) {
    x.token && (x.phase == Live || x.phase == Completing)
  }

  /** Tokens in use are exactly those of opens in progress and of incomplete streams; every token ever
      taken is in use or was given back once. */
  ghost predicate Inv(s: State) {
    && s.tokens == Count(s.opens, OpenHolds) + Count(s.streams, StreamHolds)
    && s.tokens <= STREAM_LIMIT
    && s.taken == s.tokens + s.returned
    && !s.panicked
  }

  lemma StepKeepsInv(s: State, e: Event)
    requires Inv(s) && Enabled(s, e)
    ensures Inv(Apply(s, e))
  {
    match e
    case CallOpen(op) => CountSet(s.opens, op, Waiting, OpenHolds);
    case GiveUpWaiting(op) => CountSet(s.opens, op, Returned, OpenHolds);
    case TakeToken(op) => CountSet(s.opens, op, Opening, OpenHolds);
    case OpenFails(op) =>
      CountOne(s.opens, op, OpenHolds);
      CountSet(s.opens, op, Returned, OpenHolds);
    case OpenSucceeds(op, stream) =>
      CountSet(s.opens, op, Returned, OpenHolds);
      CountSet(s.streams, stream, Stream(true, Live), StreamHolds);
    case Accept(stream) => CountSet(s.streams, stream, Stream(false, Live), StreamHolds);
    case CompleteCalled(stream) =>
      CountSet(s.streams, stream, s.streams[stream].(phase := Completing), StreamHolds);
    case ReleaseSlot(stream) =>
      if s.streams[stream].token { CountOne(s.streams, stream, StreamHolds); }
      CountSet(s.streams, stream, s.streams[stream].(phase := Released), StreamHolds);
    case CloseDone(stream) =>
      CountSet(s.streams, stream, s.streams[stream].(phase := Done), StreamHolds);
  }

  const FRESH := State(0, map[], map[], 0, 0, false)

  ghost predicate Run(states: seq<State>, events: seq<Event>) {
    && |states| == |events| + 1 && states[0] == FRESH
    && forall i :: 0 <= i < |events| ==> Enabled(states[i], events[i]) && states[i + 1] == Apply(states[i], events[i])
  }

  lemma FreshIsSound()
    ensures Inv(FRESH)
  {
    CountNone(FRESH.opens, OpenHolds);
    CountNone(FRESH.streams, StreamHolds);
  }

  lemma {:induction false} RunKeepsInv(states: seq<State>, events: seq<Event>, i: nat)
    requires Run(states, events) && i < |states|
    ensures Inv(states[i])
  {
    if i == 0 {
      FreshIsSound();
    } else {
      RunKeepsInv(states, events, i - 1);
      StepKeepsInv(states[i - 1], events[i - 1]);
    }
  }

  /** In every state of every run the gate's books balance, and no release finds the gate empty. */
  lemma GateNeverPanics(states: seq<State>, events: seq<Event>, i: nat)
    requires Run(states, events) && i < |states|
    ensures !states[i].panicked && states[i].taken == states[i].tokens + states[i].returned
    ensures states[i].tokens == Count(states[i].opens, OpenHolds) + Count(states[i].streams, StreamHolds) <= STREAM_LIMIT
  {
    RunKeepsInv(states, events, i);
  }

  /** Once every open has returned and every stream is done, the gate is empty: no token leaks. */
  lemma QuietGateIsEmpty(s: State)
    requires Inv(s)
    requires forall op :: op in s.opens ==> s.opens[op] == Returned
    requires forall x :: x in s.streams ==> s.streams[x].phase == Done
    ensures s.tokens == 0 && s.taken == s.returned
  {
    assert Having(s.opens, OpenHolds) == {} && Having(s.streams, StreamHolds) == {};
  }
}
