/** One connection attempt of the client: transports tried one after another, each cleaned up before the next
    dial, and no second try after the server said no. The network, the resolver and the deadlines are
    arbitrary: every answer they could give is covered. */
module Candidates {
  import opened Options

  datatype Kind = Quic | Yamux
  datatype Mode = QuicOnly | TcpOnly | Auto

  /** The fixed close labels, or any other text. */
  datatype Label = Normal | Shutdown | Protocol | Idle | Network | Other | Text(s: string)

  datatype CloseInfo = CloseInfo(code: nat, codeValid: bool, remote: bool, reason: Label)

  const CLOSE_NORMAL: nat := 0x00
  const CLOSE_SHUTDOWN: nat := 0x01
  const CLOSE_PROTOCOL: nat := 0x02
  const CLOSE_AUTH: nat := 0x03
  const CLOSE_SUPERSEDED: nat := 0x04
  const CLOSE_CAPACITY: nat := 0x05
  const CLOSE_IDLE: nat := 0x06

  /** What the edge's refusal is reported as. */
  datatype Refusal = BadToken | OverLimit | BadHello | BadVersion | ShuttingDown | ApplicationClose(code: nat)

  datatype Cause = Unnamed | NetworkDown | TimedOut | Handshake | Terminal | Refused(refusal: Refusal)

  /** Why a candidate failed, and whether the next one may be tried. */
  datatype Failure = Failure(cause: Cause, eligible: bool)

  /** What errors.Is and errors.As find in an error. */
  datatype Fault = Fault(deadline: bool, openTimeout: bool, canceled: bool, closedOrEof: bool, netError: bool)
  datatype Context = Live | Expired | Canceled

  /** How the QUIC dialer classifies a failed dial or lookup. */
  datatype Category = DialNetwork | DialTimeout | DialHandshake | DialTerminal

  // Classification.

  function CloseReason(info: CloseInfo): Label {
    if info.codeValid then
      if info.code == CLOSE_NORMAL || info.code == CLOSE_SUPERSEDED then Normal
      else if info.code == CLOSE_SHUTDOWN then Shutdown
      else if info.code == CLOSE_PROTOCOL || info.code == CLOSE_AUTH then Protocol
      else if info.code == CLOSE_IDLE then Idle
      else Other
    else if info.reason.Text? then Other
    else info.reason
  }

  /** A CONNECTION_CLOSE with an application code, sent by the peer. */
  predicate RemoteClose(info: CloseInfo) {
    info.codeValid && info.remote
  }

  function Rejection(info: CloseInfo, saysVersion: Label -> bool): Option<Failure> {
    if !RemoteClose(info) then None
    else
      var refusal :=
        if info.code == CLOSE_AUTH then BadToken
        else if info.code == CLOSE_CAPACITY then OverLimit
        else if info.code == CLOSE_PROTOCOL then if saysVersion(info.reason) then BadVersion else BadHello
        else if info.code == CLOSE_SHUTDOWN then ShuttingDown
        else ApplicationClose(info.code);
      Some(Failure(Refused(refusal), false))
  }

  function HelloFailure(info: CloseInfo, saysVersion: Label -> bool): Option<Failure> {
    if info.codeValid then Rejection(info, saysVersion)
    else match CloseReason(info)
      case Network => Some(Failure(NetworkDown, true))
      case Idle => Some(Failure(TimedOut, true))
      case _ => Some(Failure(Unnamed, false))
  }

  function Availability(ctx: Context, fault: Fault): Failure {
    if ctx == Expired || fault.deadline || fault.openTimeout then Failure(TimedOut, true)
    else if ctx == Canceled || fault.canceled then Failure(Unnamed, false)
    else if fault.closedOrEof || fault.netError then Failure(NetworkDown, true)
    else Failure(Unnamed, false)
  }

  /** A close decides by itself exactly when it is not a local one; it lets the next candidate in exactly when no
      code was exchanged and the transport was lost or idle; and a peer's code always ends the attempt. */
  lemma CloseDecides(info: CloseInfo, saysVersion: Label -> bool)
    ensures HelloFailure(info, saysVersion).None? <==> info.codeValid && !info.remote
    ensures HelloFailure(info, saysVersion).Some? ==>
              (HelloFailure(info, saysVersion).value.eligible <==>
               !info.codeValid && (info.reason == Network || info.reason == Idle))
    ensures RemoteClose(info) ==>
              HelloFailure(info, saysVersion).Some? && HelloFailure(info, saysVersion).value.cause.Refused?
  {
  }

  /** A refusal is reported by what the peer's code means, and an unknown code by itself; the label of any close is one
      of the six fixed ones, and for a close with a code it is decided by the code alone. */
  lemma RefusalsAndLabels(info: CloseInfo, saysVersion: Label -> bool)
    ensures RemoteClose(info) ==>
              match HelloFailure(info, saysVersion).value.cause.refusal
              case BadToken => info.code == 0x03
              case OverLimit => info.code == 0x05
              case BadHello => info.code == 0x02 && !saysVersion(info.reason)
              case BadVersion => info.code == 0x02 && saysVersion(info.reason)
              case ShuttingDown => info.code == 0x01
              case ApplicationClose(code) => code == info.code && code !in {0x01, 0x02, 0x03, 0x05}
    ensures !CloseReason(info).Text?
    ensures info.codeValid ==>
              match CloseReason(info)
              case Normal => info.code == 0x00 || info.code == 0x04
              case Shutdown => info.code == 0x01
              case Protocol => info.code == 0x02 || info.code == 0x03
              case Idle => info.code == 0x06
              case Other => info.code == 0x05 || info.code > 0x06
              case _ => false
  {
    CloseDecides(info, saysVersion);
  }

  // What the network answered, and what it should lead to. These say directly which failures make a transport
  // unavailable, so that the next one is tried.

  /** Everything that is known of a failed address or candidate: a lookup or dial that failed; no address; a hello that
      got no answer, with what the transport said of itself then (`early`) and in the end (`final`, if it was joined);
      another answer than hello_ok; a success that the candidate's own deadline, or the caller, overtook. */
  datatype Why =
    | NotDialed(kind: Kind, category: Option<Category>, ctx: Context, fault: Fault)
    | NoAddress
    | NoAnswer(ctx: Context, fault: Fault, early: Option<CloseInfo>, final: Option<CloseInfo>)
    | OtherAnswer(reply: Reply)
    | Overtaken(ctx: Context, final: Option<CloseInfo>)
    | Withdrawn

  datatype Reply = NoReply | ErrorReply | OtherReply | BadHelloOk | WrongVersion | HelloOk

  /** A timeout comes first, whatever else an error says; then a cancellation; then the marks of a lost network. */
  predicate FaultLate(ctx: Context, fault: Fault) {
    ctx == Expired || fault.deadline || fault.openTimeout
  }

  predicate FaultLost(ctx: Context, fault: Fault) {
    !FaultLate(ctx, fault) && ctx != Canceled && !fault.canceled && (fault.closedOrEof || fault.netError)
  }

  /** The transport ended without a code, lost or idle. */
  predicate CloseLost(info: CloseInfo) {
    !info.codeValid && info.reason == Network
  }

  predicate CloseLate(info: CloseInfo) {
    !info.codeValid && info.reason == Idle
  }

  /** The client closed it itself. */
  predicate ClosedHere(info: CloseInfo) {
    info.codeValid && !info.remote
  }

  /** How a hello without an answer looks before the transport is joined. */
  predicate LostFirst(why: Why)
    requires why.NoAnswer?
  {
    if why.early.Some? then CloseLost(why.early.value) else FaultLost(why.ctx, why.fault)
  }

  predicate LateFirst(why: Why)
    requires why.NoAnswer?
  {
    if why.early.Some? then CloseLate(why.early.value) else FaultLate(why.ctx, why.fault)
  }

  /** The network is down: the next address, or the next transport, is worth a try. */
  predicate Lost(why: Why) {
    match why
    case NotDialed(kind, category, ctx, fault) =>
      if kind == Quic && category.Some? then category.value == DialNetwork else FaultLost(ctx, fault)
    case NoAddress => true
    case NoAnswer(_, _, _, final) =>
      && (LostFirst(why) || LateFirst(why)) && final.Some?
      && (CloseLost(final.value) || (ClosedHere(final.value) && LostFirst(why)))
    case Overtaken(ctx, final) => ctx == Expired && final.Some? && CloseLost(final.value)
    case _ => false
  }

  /** The transport is too slow, or does not get through its handshake: the next transport is worth a try. */
  predicate Slow(why: Why) {
    match why
    case NotDialed(kind, category, ctx, fault) =>
      if kind == Quic && category.Some? then category.value == DialTimeout || category.value == DialHandshake
      else FaultLate(ctx, fault)
    case NoAnswer(_, _, _, final) =>
      && (LostFirst(why) || LateFirst(why)) && final.Some?
      && (CloseLate(final.value) || (ClosedHere(final.value) && LateFirst(why)))
    case Overtaken(ctx, final) => ctx == Expired && final.Some? && (CloseLate(final.value) || ClosedHere(final.value))
    case _ => false
  }

  predicate Unavailable(why: Why) {
    Lost(why) || Slow(why)
  }

  // What an attempt does, in order.

  /** A candidate begins; a dial ends, with a transport or without; the server answers a hello with an error message;
      a transport is joined (its Done observed, with its final close info); joining one timed out; a transport
      becomes the session; an address or a candidate has failed. A transport is named by the position of its
      dial. */
  datatype Act =
    | Begin(kind: Kind)
    | Dial(kind: Kind, made: bool)
    | HelloRefused(id: nat)
    | Joined(id: nat, info: CloseInfo)
    | NotJoined(id: nat)
    | Failed(why: Why)
    | Installed(id: nat)

  type Trace = seq<Act>

  predicate Made(t: Trace, id: nat) {
    id < |t| && t[id].Dial? && t[id].made
  }

  /** Transport `id` is over, and its peer did not refuse. */
  predicate Over(t: Trace, id: nat) {
    exists j: nat :: id < j < |t| && t[j].Joined? && t[j].id == id && !RemoteClose(t[j].info)
  }

  /** Nothing is alive and nothing refused, so another dial is allowed. */
  ghost predicate Clean(t: Trace) {
    && (forall id: nat :: Made(t, id) ==> Over(t, id))
    && (forall j: nat :: j < |t| && t[j].Joined? ==> !RemoteClose(t[j].info))
    && (forall j: nat :: j < |t| ==> !t[j].NotJoined? && !t[j].Installed? && !t[j].HelloRefused?)
  }

  /** Every dial happened in a clean state. */
  ghost predicate Safe(t: Trace) {
    forall i: nat :: i < |t| && t[i].Dial? ==> Clean(t[..i])
  }

  /** Transport `id` is the last dial's, alive, and everything before it is clean. */
  ghost predicate Alive(t: Trace, id: nat) {
    id + 1 == |t| && Made(t, id) && Clean(t[..id])
  }

  /** Nothing made is left running, or the trace says which join timed out. */
  ghost predicate Accounted(t: Trace) {
    forall id: nat :: Made(t, id) ==> exists j: nat :: j < |t| && (t[j].Joined? || t[j].NotJoined?) && t[j].id == id
  }

  lemma SafeGrows(t: Trace, a: Act)
    requires Safe(t) && (a.Dial? ==> Clean(t))
    ensures Safe(t + [a])
  {
    var u := t + [a];
    forall i: nat | i < |u| && u[i].Dial? ensures Clean(u[..i]) {
      if i < |t| { assert u[..i] == t[..i]; } else { assert u[..i] == t; }
    }
  }

  lemma OverGrows(t: Trace, a: Act, id: nat)
    requires Over(t, id)
    ensures Over(t + [a], id)
  {
    var j: nat :| id < j < |t| && t[j].Joined? && t[j].id == id && !RemoteClose(t[j].info);
    assert (t + [a])[j] == t[j];
  }

  /** A clean trace stays clean through a begun candidate or a dial that made nothing. */
  lemma CleanGrows(t: Trace, a: Act)
    requires Clean(t) && (a.Begin? || a.Failed? || (a.Dial? && !a.made))
    ensures Clean(t + [a])
  {
    var u := t + [a];
    forall id: nat | Made(u, id) ensures Over(u, id) {
      assert Made(t, id);
      OverGrows(t, a, id);
    }
    forall j: nat | j < |u| && u[j].Joined? ensures !RemoteClose(u[j].info) { assert u[j] == t[j]; }
  }

  /** Joining the transport that is alive, without a refusal, leaves a clean trace. */
  lemma JoinCleans(t: Trace, id: nat, info: CloseInfo)
    requires Alive(t, id) && !RemoteClose(info)
    ensures Clean(t + [Joined(id, info)])
  {
    var u, before := t + [Joined(id, info)], t[..id];
    assert u[|t|] == Joined(id, info);
    forall x: nat | Made(u, x) ensures Over(u, x) {
      if x != id {
        assert Made(before, x);
        var j: nat :| x < j < |before| && before[j].Joined? && before[j].id == x && !RemoteClose(before[j].info);
        assert u[j] == before[j];
      }
    }
    forall j: nat | j < |u|
      ensures !u[j].NotJoined? && !u[j].Installed? && !u[j].HelloRefused? && (u[j].Joined? ==> !RemoteClose(u[j].info))
    {
      if j < id { assert u[j] == before[j]; }
    }
  }

  /** Joining it, or failing to, accounts for everything, whatever came between. */
  lemma JoinAccounts(t: Trace, id: nat, more: Trace, a: Act)
    requires Alive(t, id) && (a.Joined? || a.NotJoined?) && a.id == id && forall m :: m in more ==> !m.Dial?
    ensures Accounted(t + more + [a])
  {
    var u, before := t + more + [a], t[..id];
    assert u[|u| - 1] == a;
    forall x: nat | Made(u, x) ensures exists j: nat :: j < |u| && (u[j].Joined? || u[j].NotJoined?) && u[j].id == x {
      assert forall y :: |t| <= y < |u| - 1 ==> u[y] in more;
      if x != id {
        assert Made(before, x);
        var j: nat :| x < j < |before| && before[j].Joined? && before[j].id == x && !RemoteClose(before[j].info);
        assert u[j] == before[j];
      }
    }
  }

  lemma CleanIsAccounted(t: Trace)
    requires Clean(t)
    ensures Accounted(t)
  {
    forall id: nat | Made(t, id) ensures exists j: nat :: j < |t| && (t[j].Joined? || t[j].NotJoined?) && t[j].id == id {
      assert Over(t, id);
    }
  }

  /** The begun candidates of a trace, in order. */
  function Begun(t: Trace): seq<Kind> {
    if |t| == 0 then [] else Begun(t[..|t| - 1]) + (if t[|t| - 1].Begin? then [t[|t| - 1].kind] else [])
  }

  lemma BegunGrows(t: Trace, a: Act)
    ensures Begun(t + [a]) == Begun(t) + (if a.Begin? then [a.kind] else [])
  {
    assert (t + [a])[..|t|] == t;
  }

  // The steps of an attempt. `saysVersion` is the text search in a close reason.

  /** What a step of one candidate leaves behind: the safe trace it got, grown, with no candidate begun; accounted
      for; and clean if the failure lets the next candidate in. */
  ghost predicate FailedWell(t: Trace, u: Trace, f: Failure) {
    Safe(u) && Begun(u) == Begun(t) && Accounted(u) && (f.eligible ==> Clean(u)) && NotInstalled(u) && t <= u
  }

  /** The failure is on record with what the network answered, and is as eligible as that makes it. */
  predicate Told(u: Trace, f: Failure, why: Why) {
    && |u| > 0 && u[|u| - 1] == Failed(why)
    && (f.eligible <==> Unavailable(why))
    && (f.eligible && f.cause == NetworkDown <==> Lost(why))
  }

  /** Putting a failure on record changes nothing else. */
  lemma Record(t: Trace, u: Trace, f: Failure, why: Why)
    requires FailedWell(t, u, f)
    ensures FailedWell(t, u + [Failed(why)], f)
  {
    var v := u + [Failed(why)];
    SafeGrows(u, Failed(why));
    BegunGrows(u, Failed(why));
    if f.eligible { CleanGrows(u, Failed(why)); }
    forall id: nat | Made(v, id) ensures exists j: nat :: j < |v| && (v[j].Joined? || v[j].NotJoined?) && v[j].id == id {
      assert Made(u, id);
      var j: nat :| j < |u| && (u[j].Joined? || u[j].NotJoined?) && u[j].id == id;
      assert v[j] == u[j];
    }
  }

  predicate NotInstalled(t: Trace) {
    forall j: nat :: j < |t| ==> !t[j].Installed?
  }

  /** Closes the transport and waits for its Done, then lets its final close info overrule an eligible failure. A
      refusal by message comes with a failure that is not eligible. `final` is the close info, if it was joined. */
  method FailCandidate(t: Trace, id: nat, failure: Failure, refused: bool, saysVersion: Label -> bool)
    returns (u: Trace, f: Failure, final: Option<CloseInfo>)
    requires Safe(t) && Alive(t, id) && (refused ==> !failure.eligible)
    ensures FailedWell(t, u, f) && t < u
    ensures u[|u| - 1] == if final.Some? then Joined(id, final.value) else NotJoined(id)
    ensures Overruled(failure, final, f)
    ensures refused ==> u[|t|] == HelloRefused(id)
  {
    var joined: bool := *;
    var info: CloseInfo := *;
    var act := if joined then Joined(id, info) else NotJoined(id);
    var more := if refused then [HelloRefused(id)] else [];
    u := t + more;
    if refused {
      SafeGrows(t, HelloRefused(id));
      BegunGrows(t, HelloRefused(id));
    } else {
      assert u == t;
    }
    SafeGrows(u, act);
    BegunGrows(u, act);
    JoinAccounts(t, id, more, act);
    u := u + [act];
    assert NotInstalled(t[..id]);
    assert forall j: nat :: j < id ==> t[j] == t[..id][j];
    if !joined { return u, Failure(Unnamed, false), None; }
    f, final := failure, Some(info);
    if failure.eligible {
      var authoritative := HelloFailure(info, saysVersion);
      CloseDecides(info, saysVersion);
      if authoritative.Some? { f := authoritative.value; }
    }
    if f.eligible { JoinCleans(t, id, info); }
  }

  /** What a hello cut short is blamed on, when the transport already says so by a close that is not the client's own. */
  method ClosedHelloRejection(saysVersion: Label -> bool) returns (r: Option<Failure>, early: Option<CloseInfo>)
    ensures r.Some? <==> early.Some?
    ensures r.Some? ==> !ClosedHere(early.value)
    ensures r.Some? ==> (r.value.eligible <==> CloseLost(early.value) || CloseLate(early.value))
    ensures r.Some? && r.value.eligible ==> r.value.cause == if CloseLost(early.value) then NetworkDown else TimedOut
  {
    var info: CloseInfo := *;
    var closed: bool := *;
    if !info.codeValid && closed {
      var contextFirst: bool := *;
      if contextFirst { return None, None; }
      info := *;
    }
    closed := *;
    if !closed && !info.codeValid { return None, None; }
    CloseDecides(info, saysVersion);
    r := HelloFailure(info, saysVersion);
    early := if r.Some? then Some(info) else None;
  }

  /** The final close info, where the transport was joined, leaves an eligible failure or replaces it. */
  predicate Overruled(failure: Failure, final: Option<CloseInfo>, f: Failure) {
    && (f.eligible <==>
          failure.eligible && final.Some? && (ClosedHere(final.value) || CloseLost(final.value) || CloseLate(final.value)))
    && (f.eligible ==>
          f.cause == if ClosedHere(final.value) then failure.cause else if CloseLost(final.value) then NetworkDown else TimedOut)
  }

  /** A hello without an answer is as eligible as the network's answers make it. */
  lemma NoAnswerMeans(failure: Failure, ctx: Context, fault: Fault, early: Option<CloseInfo>, final: Option<CloseInfo>, f: Failure)
    requires Overruled(failure, final, f)
    requires early.None? ==> failure == Availability(ctx, fault)
    requires early.Some? ==> (failure.eligible <==> CloseLost(early.value) || CloseLate(early.value))
    requires early.Some? && failure.eligible ==> failure.cause == if CloseLost(early.value) then NetworkDown else TimedOut
    ensures var why := NoAnswer(ctx, fault, early, final);
            (f.eligible <==> Unavailable(why)) && (f.eligible && f.cause == NetworkDown <==> Lost(why))
  {
  }

  /** The hello exchange on a fresh transport. `reply` is what the server answered, when the hello got through. A
      server that answers with anything but hello_ok ends the attempt; an error message is a refusal. */
  method Negotiate(t: Trace, id: nat, saysVersion: Label -> bool)
    returns (u: Trace, won: bool, f: Failure, reply: Reply, why: Why)
    requires Safe(t) && Alive(t, id)
    ensures won ==> u == t && reply == HelloOk
    ensures !won ==> FailedWell(t, u, f) && t < u && Told(u, f, why)
    ensures reply != NoReply && !won ==> !f.eligible && why == OtherAnswer(reply)
    ensures reply == NoReply ==> why.NoAnswer?
    ensures reply == ErrorReply ==> !won && u[|t|] == HelloRefused(id)
  {
    var gotControl: bool := *;
    var sent: bool := *;
    var ctx: Context := *;
    var fault: Fault := *;
    var final;
    reply := *;
    if !gotControl || !sent {
      u, f, final := FailCandidate(t, id, Availability(ctx, fault), false, saysVersion);
      NoAnswerMeans(Availability(ctx, fault), ctx, fault, None, final, f);
      reply, why := NoReply, NoAnswer(ctx, fault, None, final);
    } else if reply == HelloOk {
      return t, true, Failure(Unnamed, false), HelloOk, Withdrawn;
    } else if reply == NoReply {
      var rejection, early := ClosedHelloRejection(saysVersion);
      var failure := if rejection.Some? then rejection.value else Availability(ctx, fault);
      u, f, final := FailCandidate(t, id, failure, false, saysVersion);
      NoAnswerMeans(failure, ctx, fault, early, final, f);
      why := NoAnswer(ctx, fault, early, final);
    } else {
      // an error message, another type, a malformed hello_ok or another version: the client closes, for good
      u, f, final := FailCandidate(t, id, Failure(Unnamed, false), reply == ErrorReply, saysVersion);
      why := OtherAnswer(reply);
    }
    Record(t, u, f, why);
    u, won := u + [Failed(why)], false;
  }

  function CauseOf(category: Category): Cause {
    match category
    case DialNetwork => NetworkDown
    case DialTimeout => TimedOut
    case DialHandshake => Handshake
    case DialTerminal => Terminal
  }

  function DialFault(kind: Kind, category: Option<Category>, ctx: Context, fault: Fault): Failure {
    if kind == Quic && category.Some? then Failure(CauseOf(category.value), category.value != DialTerminal)
    else Availability(ctx, fault)
  }

  /** A failed dial or lookup is as eligible as the network's answer makes it. */
  lemma DialFaultMeans(kind: Kind, category: Option<Category>, ctx: Context, fault: Fault)
    ensures var f, why := DialFault(kind, category, ctx, fault), NotDialed(kind, category, ctx, fault);
            (f.eligible <==> Unavailable(why)) && (f.eligible && f.cause == NetworkDown <==> Lost(why))
  {
  }

  /** Dials one address; a transport that comes up is negotiated. */
  method TryAddress(t: Trace, kind: Kind, saysVersion: Label -> bool) returns (u: Trace, won: bool, f: Failure, why: Why)
    requires Safe(t) && Clean(t)
    ensures won ==> Safe(u) && |u| == |t| + 1 && Alive(u, |t|) && Begun(u) == Begun(t) && t <= u
    ensures !won ==> FailedWell(t, u, f) && Told(u, f, why)
  {
    var made: bool := *;
    var act := Dial(kind, made);
    u := t + [act];
    SafeGrows(t, act);
    BegunGrows(t, act);
    assert u[..|t|] == t;
    if made {
      var reply;
      u, won, f, reply, why := Negotiate(u, |t|, saysVersion);
    } else {
      var ctx: Context := *;
      var fault: Fault := *;
      var category: Option<Category> := *;
      CleanGrows(t, act);
      CleanIsAccounted(u);
      won, f, why := false, DialFault(kind, category, ctx, fault), NotDialed(kind, category, ctx, fault);
      DialFaultMeans(kind, category, ctx, fault);
      Record(t, u, f, why);
      u := u + [Failed(why)];
    }
  }

  /** How far the list of resolved addresses was worked through, why the ones tried failed, and whether the candidate's
      context ended that. */
  datatype Tries = Tries(addresses: nat, tried: nat, stopped: bool, whys: seq<Why>)

  predicate AllLost(whys: seq<Why>) {
    forall i: nat :: i < |whys| ==> Lost(whys[i])
  }

  /** The addresses were tried in order, each next one exactly when the network was down for the last. */
  predicate Worked(tries: Tries, won: bool, why: Why) {
    && tries.tried <= tries.addresses
    && (won ==> |tries.whys| + 1 == tries.tried && AllLost(tries.whys))
    && (!won && tries.tried > 0 ==>
          |tries.whys| == tries.tried && tries.whys[tries.tried - 1] == why && AllLost(tries.whys[..tries.tried - 1]))
    && (!won && tries.tried < tries.addresses && !tries.stopped ==> !Lost(why))
  }

  /** All addresses tried so far failed, and the network was down for each. */
  predicate AllDown(tries: Tries) {
    |tries.whys| == tries.tried <= tries.addresses && AllLost(tries.whys) && !tries.stopped
  }

  lemma OneAddressMore(tries: Tries, why: Why, stopped: bool)
    requires AllDown(tries) && tries.tried < tries.addresses
    ensures Worked(tries.(tried := tries.tried + 1), true, why)
    ensures var next := Tries(tries.addresses, tries.tried + 1, stopped, tries.whys + [why]);
            && (stopped || !Lost(why) ==> Worked(next, false, why))
            && (!stopped && Lost(why) ==> AllDown(next) && next.whys[next.tried - 1] == why)
            && (!stopped && next.tried == next.addresses ==> Worked(next, false, why))
  {
    assert (tries.whys + [why])[..tries.tried] == tries.whys;
  }

  /** Tries the resolved addresses in order: the next one exactly when the network was down for the last. */
  method TryQuic(t: Trace, saysVersion: Label -> bool) returns (u: Trace, won: bool, f: Failure, why: Why, tries: Tries)
    requires Safe(t) && Clean(t)
    ensures won ==> Safe(u) && |u| > 0 && Alive(u, |u| - 1) && Begun(u) == Begun(t) && t <= u
    ensures !won ==> FailedWell(t, u, f) && Told(u, f, why)
    ensures Worked(tries, won, why)
  {
    u, won := t, false;
    CleanIsAccounted(t);
    var resolved: bool := *;
    if !resolved {
      var ctx: Context := *;
      var fault: Fault := *;
      var category: Option<Category> := *;
      f, why := DialFault(Quic, category, ctx, fault), NotDialed(Quic, category, ctx, fault);
      DialFaultMeans(Quic, category, ctx, fault);
      Record(t, u, f, why);
      return u + [Failed(why)], false, f, why, Tries(0, 0, false, []);
    }
    var answer: int := *;
    var addresses: nat := if answer < 0 then 0 else answer;
    f, why := Failure(NetworkDown, true), NoAddress;
    if addresses == 0 {
      Record(t, u, f, why);
      return u + [Failed(why)], false, f, why, Tries(0, 0, false, []);
    }
    tries := Tries(addresses, 0, false, []);
    var more := true;
    while more
      invariant more ==> tries.tried < tries.addresses && AllDown(tries) && Safe(u) && Clean(u) && Begun(u) == Begun(t) && t <= u
      invariant !more ==> if won then Up(t, u) else FailedWell(t, u, f) && Told(u, f, why)
      invariant !more ==> Worked(tries, won, why)
      decreases more, tries.addresses - tries.tried
    {
      u, won, f, why, tries, more := NextAddress(t, u, tries, saysVersion);
    }
  }

  /** The candidate has a transport, alive, and everything before it is clean. */
  ghost predicate Up(t: Trace, u: Trace) {
    Safe(u) && |u| > 0 && Alive(u, |u| - 1) && Begun(u) == Begun(t) && t <= u
  }

  /** The next address, and whether there is another one to go on to. */
  method NextAddress(t: Trace, before: Trace, tries: Tries, saysVersion: Label -> bool)
    returns (u: Trace, won: bool, f: Failure, why: Why, tries': Tries, more: bool)
    requires Safe(before) && Clean(before) && Begun(before) == Begun(t) && t <= before
    requires AllDown(tries) && tries.tried < tries.addresses
    ensures tries'.addresses == tries.addresses && tries'.tried == tries.tried + 1
    ensures more ==> !won && tries'.tried < tries'.addresses && AllDown(tries') && Safe(u) && Clean(u) && Begun(u) == Begun(t) && t <= u
    ensures !more ==> if won then Up(t, u) else FailedWell(t, u, f) && Told(u, f, why)
    ensures !more ==> Worked(tries', won, why)
  {
    u, won, f, why := TryAddress(before, Quic, saysVersion);
    Further(t, before, u, won, f);
    var ctx: Context := *;
    OneAddressMore(tries, why, ctx != Live);
    if won { return u, true, f, why, tries.(tried := tries.tried + 1), false; }
    tries' := Tries(tries.addresses, tries.tried + 1, ctx != Live, tries.whys + [why]);
    more := ctx == Live && f.eligible && f.cause == NetworkDown && tries'.tried < tries'.addresses;
  }

  /** What was done from a later point of a candidate was done from its start. */
  lemma Further(t: Trace, before: Trace, u: Trace, won: bool, f: Failure)
    requires t <= before && Begun(before) == Begun(t)
    requires if won then before <= u else FailedWell(before, u, f)
    ensures t <= u && (!won ==> FailedWell(t, u, f))
  {
  }

  datatype Result = Connected | Gone | TryNext

  /** The client's selection state. `closed`: Close was called. `sess`: the dial that made the session it owns. */
  class Client {
    const mode: Mode
    var closed: bool
    var slug: string
    var sess: Option<nat>
    var lastSuccessful: Option<Kind>
    var tcpFallbackAt: Option<nat>
    var fallbacks: nat

    constructor (m: Mode)
      ensures mode == m && sess == None && !closed
    {
      mode, closed, slug, sess, lastSuccessful, tcpFallbackAt, fallbacks := m, false, "", None, None, None, 0;
    }

    predicate FellBackRecently(now: nat, reprobe: nat)
      reads this
    {
      tcpFallbackAt.Some? && now - tcpFallbackAt.value < reprobe
    }

    /** Automatic mode tries both kinds, QUIC first unless a recent fallback made TCP the known path. */
    method Order(first: bool, now: nat, reprobe: nat) returns (order: seq<Kind>)
      ensures mode != Auto ==> order == [if mode == QuicOnly then Quic else Yamux]
      ensures mode == Auto ==> |order| == 2 && order[0] != order[1]
      ensures mode == Auto ==> (order[0] == Yamux <==> !first && lastSuccessful == Some(Yamux) && FellBackRecently(now, reprobe))
    {
      if mode == QuicOnly { return [Quic]; }
      if mode == TcpOnly { return [Yamux]; }
      if first || lastSuccessful == None || lastSuccessful == Some(Quic) { return [Quic, Yamux]; }
      assert lastSuccessful.value == Yamux;
      if FellBackRecently(now, reprobe) { return [Yamux, Quic]; }
      return [Quic, Yamux];
    }

    /** Takes the candidate over as the session, unless the client was closed or the edge now resolves to another
        slug. */
    method Install(id: nat, kind: Kind, newSlug: string, first: bool) returns (ok: bool)
      modifies this
      ensures ok <==> !old(closed) && (first || newSlug == old(slug))
      ensures ok ==> sess == Some(id) && slug == newSlug && lastSuccessful == Some(kind)
      ensures ok ==> tcpFallbackAt == if kind == Quic then None else old(tcpFallbackAt)
      ensures !ok ==> sess == old(sess) && slug == old(slug) && lastSuccessful == old(lastSuccessful) && tcpFallbackAt == old(tcpFallbackAt)
      ensures fallbacks == old(fallbacks) && closed == old(closed)
    {
      if closed { return false; }
      if first { slug := newSlug; } else if newSlug != slug { return false; }
      sess, lastSuccessful := Some(id), Some(kind);
      if kind == Quic { tcpFallbackAt := None; }
      return true;
    }

    /** One candidate, up to its hello. A success that raced a deadline is given up again. */
    method Candidate(t: Trace, kind: Kind, saysVersion: Label -> bool)
      returns (u: Trace, won: bool, f: Failure, why: Why, canceled: bool)
      requires Safe(t) && Clean(t)
      ensures won ==> Safe(u) && |u| > 0 && Alive(u, |u| - 1) && Begun(u) == Begun(t) && t <= u && !canceled
      ensures !won ==> FailedWell(t, u, f) && Told(u, f, why)
    {
      if kind == Quic {
        var tries;
        u, won, f, why, tries := TryQuic(t, saysVersion);
      } else {
        u, won, f, why := TryAddress(t, Yamux, saysVersion);
      }
      canceled := false;
      if won {
        var outer: Context := *;
        var inner: Context := *;
        u, won, f, why, canceled := GiveUpLate(t, u, outer, inner, saysVersion);
      }
    }

    /** A candidate that completed its hello, against its own deadline and the caller's. */
    method GiveUpLate(t: Trace, alive: Trace, outer: Context, inner: Context, saysVersion: Label -> bool)
      returns (u: Trace, won: bool, f: Failure, why: Why, canceled: bool)
      requires Safe(alive) && |alive| > 0 && Alive(alive, |alive| - 1) && Begun(alive) == Begun(t) && t <= alive
      ensures won == (outer == Live && inner == Live) && canceled == (outer != Live)
      ensures won ==> u == alive
      ensures !won ==> FailedWell(t, u, f) && Told(u, f, why)
    {
      u, canceled, won := alive, outer != Live, outer == Live && inner == Live;
      if won { return u, true, Failure(Unnamed, false), Withdrawn, false; }
      var final;
      if canceled {
        // cancelled from outside: the transport is cleaned up and the attempt is over
        u, f, final := FailCandidate(alive, |alive| - 1, Failure(Unnamed, false), false, saysVersion);
        why := Withdrawn;
      } else {
        var fault := Fault(inner == Expired, false, inner == Canceled, false, false);
        u, f, final := FailCandidate(alive, |alive| - 1, Availability(inner, fault), false, saysVersion);
        why := Overtaken(inner, final);
      }
      Record(alive, u, f, why);
      u := u + [Failed(why)];
    }

    /** A candidate that completed its hello in time is installed, or cleaned up if the client does not want it. */
    method TakeOver(t: Trace, kind: Kind, first: bool, saysVersion: Label -> bool) returns (u: Trace, r: Result)
      requires Safe(t) && |t| > 0 && Alive(t, |t| - 1)
      modifies this
      ensures Safe(u) && Begun(u) == Begun(t) && t <= u && (old(closed) ==> closed) && r != TryNext
      ensures r == Connected ==> !closed && EndsInstalled(u) && sess == Some(|u| - 2) && lastSuccessful == Some(kind)
      ensures r == Gone ==> sess == old(sess) && Accounted(u) && NotInstalled(u)
      ensures fallbacks == old(fallbacks) && tcpFallbackAt == if r == Connected && kind == Quic then None else old(tcpFallbackAt)
    {
      var newSlug: string := *;
      var closing: bool := *;
      if closing { closed := true; }   // Close was called meanwhile
      var id := |t| - 1;
      var installed := Install(id, kind, newSlug, first);
      if installed {
        InstallEnds(t);
        return t + [Installed(id)], Connected;
      }
      var f, final;
      u, f, final := FailCandidate(t, id, Failure(Unnamed, false), false, saysVersion);
      return u, Gone;
    }

    /** One candidate to its end: installed, over for this cycle, or cleaned up with the next one allowed. The next one
        follows exactly when this one failed because its transport was unavailable, nobody cancelled, and there
        is a next one. */
    method Attempt(t: Trace, kind: Kind, next: Option<Kind>, first: bool, now: nat, saysVersion: Label -> bool)
      returns (u: Trace, r: Result, why: Option<Why>, canceled: bool)
      requires Safe(t) && Clean(t)
      modifies this
      ensures Safe(u) && Begun(u) == Begun(t) + [kind] && t <= u && (old(closed) ==> closed)
      ensures r == Connected ==> !closed && EndsInstalled(u) && sess == Some(|u| - 2) && lastSuccessful == Some(kind)
      ensures r != Connected ==> sess == old(sess) && Accounted(u) && NotInstalled(u)
      ensures r == TryNext ==> Clean(u)
      ensures canceled ==> r == Gone
      ensures r == TryNext <==> why.Some? && !canceled && Unavailable(why.value) && next.Some?
      ensures why.Some? ==> |u| > 0 && u[|u| - 1] == Failed(why.value)
      ensures fallbacks == old(fallbacks) + if r == TryNext && kind == Quic && next == Some(Yamux) then 1 else 0
      ensures tcpFallbackAt == if r == TryNext && kind == Quic && next == Some(Yamux) then Some(now)
                               else if r == Connected && kind == Quic then None else old(tcpFallbackAt)
    {
      var begin := Begin(kind);
      SafeGrows(t, begin);
      CleanGrows(t, begin);
      BegunGrows(t, begin);
      var won, f, w;
      u, won, f, w, canceled := Candidate(t + [begin], kind, saysVersion);
      assert t <= t + [begin] <= u;
      if won {
        ghost var before := u;
        u, r := TakeOver(u, kind, first, saysVersion);
        assert t <= before <= u;
        return u, r, None, false;
      }
      var ctx: Context := *;
      canceled, why := canceled || ctx != Live, Some(w);
      if canceled || !f.eligible || next == None { return u, Gone, why, canceled; }
      if kind == Quic && next == Some(Yamux) { fallbacks, tcpFallbackAt := fallbacks + 1, Some(now); }
      return u, TryNext, why, false;
    }

    /** One ordered cycle. Whatever the network answers: each kind is begun at most once and in the preferred
        order; every dial happens when all transports made before are joined and none of their peers refused;
        in automatic mode the second kind is begun exactly when the first failed because its transport was
        unavailable, unless the caller cancelled; a successful cycle installs exactly the last transport it made,
        which is alive while every other one is joined; a failed cycle leaves the client without a new session
        and accounts for every transport. Close may be called at any time up to the installation, and then none
        takes place. `whys` lists why the candidates failed, in order. */
    method ConnectOnce(first: bool, now: nat, reprobe: nat, saysVersion: Label -> bool)
      returns (t: Trace, r: Result, whys: seq<Why>, canceled: bool)
      modifies this
      ensures Safe(t) && NoRepeats(Begun(t)) && |Begun(t)| > 0 && r != TryNext
      ensures mode != Auto ==> Begun(t) == [if mode == QuicOnly then Quic else Yamux]
      ensures mode == Auto ==>
                (Begun(t)[0] == Yamux <==> !first && old(lastSuccessful) == Some(Yamux) && old(FellBackRecently(now, reprobe)))
      ensures mode == Auto && !canceled ==> (|Begun(t)| == 2 <==> |whys| > 0 && Unavailable(whys[0]))
      ensures canceled ==> r == Gone
      ensures Recorded(t, whys)
      ensures |whys| == |Begun(t)| || |whys| + 1 == |Begun(t)|
      ensures r == Connected ==> !closed && EndsInstalled(t) && sess == Some(|t| - 2)
      ensures r == Gone ==> sess == old(sess) && Accounted(t) && NotInstalled(t)
      ensures old(closed) ==> closed && r == Gone
    {
      var order := Order(first, now, reprobe);
      t, r, whys, canceled := Cycle(order, first, now, saysVersion);
      assert |order| == 2 && |Begun(t)| == 2 ==> Begun(t) == order;
    }

    /** The cycle over a given order: it goes on exactly while transports are unavailable and nobody cancels. */
    method Cycle(order: seq<Kind>, first: bool, now: nat, saysVersion: Label -> bool)
      returns (t: Trace, r: Result, whys: seq<Why>, canceled: bool)
      requires |order| > 0 && NoRepeats(order)
      modifies this
      ensures Ends(order, t, whys, canceled) && r != TryNext && (canceled ==> r == Gone)
      ensures r == Connected ==> !closed && EndsInstalled(t) && sess == Some(|t| - 2)
      ensures r == Gone ==> sess == old(sess) && Accounted(t) && NotInstalled(t)
      ensures old(closed) ==> closed && r == Gone
    {
      t, whys := [], [];
      var i := 0;
      while i < |order|
        invariant 0 <= i < |order| && SoFar(t, order, i, whys) && Clean(t)
        invariant sess == old(sess) && (old(closed) ==> closed)
        decreases |order| - i
      {
        var next := if i + 1 < |order| then Some(order[i + 1]) else None;
        ghost var before := t;
        var why;
        t, r, why, canceled := Attempt(t, order[i], next, first, now, saysVersion);
        OneMore(before, t, order, i, whys, why);
        if r != TryNext {
          EndsHere(t, order, i, whys, why, canceled);
          return t, r, if why.Some? then whys + [why.value] else whys, canceled;
        }
        whys, i := whys + [why.value], i + 1;
      }
    }
  }

  /** How a cycle over an order ends: it has begun the kinds of the order up to some place, and a second one exactly when
      the first was unavailable, unless the caller cancelled. */
  ghost predicate Ends(order: seq<Kind>, t: Trace, whys: seq<Why>, canceled: bool) {
    && Safe(t) && 0 < |Begun(t)| <= |order| && Begun(t) == order[..|Begun(t)|] && NoRepeats(Begun(t))
    && (|order| > 1 && !canceled ==> (|Begun(t)| > 1 <==> |whys| > 0 && Unavailable(whys[0])))
    && Recorded(t, whys) && (|whys| == |Begun(t)| || |whys| + 1 == |Begun(t)|)
  }

  lemma EndsHere(t: Trace, order: seq<Kind>, i: nat, whys: seq<Why>, why: Option<Why>, canceled: bool)
    requires NoRepeats(order) && i < |order| && |whys| == i && Safe(t) && Begun(t) == order[..i + 1]
    requires i > 0 ==> Unavailable(whys[0])
    requires Recorded(t, if why.Some? then whys + [why.value] else whys)
    requires !(why.Some? && !canceled && Unavailable(why.value) && i + 1 < |order|)
    ensures Ends(order, t, if why.Some? then whys + [why.value] else whys, canceled)
  {
    PrefixHasNoRepeats(order, i + 1);
  }

  /** `i` candidates of the order have failed because their transports were unavailable. */
  ghost predicate SoFar(t: Trace, order: seq<Kind>, i: nat, whys: seq<Why>) {
    && i <= |order| && Safe(t) && Begun(t) == order[..i] && |whys| == i && Recorded(t, whys)
    && (i > 0 ==> Unavailable(whys[0]))
  }

  lemma OneMore(t: Trace, u: Trace, order: seq<Kind>, i: nat, whys: seq<Why>, why: Option<Why>)
    requires SoFar(t, order, i, whys) && i < |order| && t <= u && Safe(u) && Begun(u) == Begun(t) + [order[i]]
    requires why.Some? ==> |u| > 0 && u[|u| - 1] == Failed(why.value)
    ensures Begun(u) == order[..i + 1] && |Begun(u)| == i + 1
    ensures Recorded(u, if why.Some? then whys + [why.value] else whys)
    ensures why.Some? && Unavailable(why.value) ==> SoFar(u, order, i + 1, whys + [why.value])
  {
    assert order[..i] + [order[i]] == order[..i + 1];
    RecordedGrows(t, u, whys, why);
  }

  /** The failures are on record in the trace. */
  predicate Recorded(t: Trace, whys: seq<Why>) {
    forall i: nat :: i < |whys| ==> Failed(whys[i]) in t
  }

  lemma RecordedGrows(t: Trace, u: Trace, whys: seq<Why>, why: Option<Why>)
    requires Recorded(t, whys) && t <= u && (why.Some? ==> |u| > 0 && u[|u| - 1] == Failed(why.value))
    ensures Recorded(u, if why.Some? then whys + [why.value] else whys)
  {
    forall a | a in t ensures a in u {
      var i :| 0 <= i < |t| && t[i] == a;
      assert u[i] == a;
    }
  }

  /** The trace ends with the installation of the transport made last, alive, with everything before it clean. */
  ghost predicate EndsInstalled(t: Trace) {
    |t| >= 2 && t[|t| - 1] == Installed(|t| - 2) && Alive(t[..|t| - 1], |t| - 2)
  }

  predicate NoRepeats(s: seq<Kind>) {
    forall i: nat, j: nat :: i < j < |s| ==> s[i] != s[j]
  }

  lemma PrefixHasNoRepeats(s: seq<Kind>, n: nat)
    requires NoRepeats(s) && n <= |s|
    ensures NoRepeats(s[..n])
  {
  }

  lemma InstallEnds(t: Trace)
    requires Safe(t) && |t| > 0 && Alive(t, |t| - 1)
    ensures Safe(t + [Installed(|t| - 1)]) && Begun(t + [Installed(|t| - 1)]) == Begun(t)
    ensures EndsInstalled(t + [Installed(|t| - 1)])
  {
    SafeGrows(t, Installed(|t| - 1));
    BegunGrows(t, Installed(|t| - 1));
    assert (t + [Installed(|t| - 1)])[..|t|] == t;
  }

  /** What safety means: no dial follows a refusal, by message or by close; nor a transport that was not joined, nor
      an installed session; and every transport made before a dial was joined before it. */
  lemma NoDialAfterRefusal(t: Trace, i: nat, j: nat)
    requires Safe(t) && i < j < |t| && t[j].Dial?
    ensures t[i].Joined? ==> !RemoteClose(t[i].info)
    ensures Made(t, i) ==> exists k: nat :: i < k < j && t[k].Joined? && t[k].id == i
    ensures !t[i].NotJoined? && !t[i].Installed? && !t[i].HelloRefused?
  {
    var before := t[..j];
    assert Clean(before) && before[i] == t[i];
    if Made(t, i) { assert Made(before, i); }
  }
}
