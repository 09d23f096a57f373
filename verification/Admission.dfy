/** The edge's front door: every connection from its accept to the end of its handler, with the counted slots
    it takes and gives back on the way. A step is one section under the lifecycle lock, one channel send or
    receive, or one wait-group change; connections interleave freely. */
module Admission {
  import opened Counting

  type Id = nat

  datatype Kind = Tcp | Quic

  /** Where a connection's code stands. */
  datatype Pc =
    | Accepted       // out of the listener, nothing taken
    | ShakeSlot      // TCP: holds a handshake slot, no handler yet
    | ShakeBack      // TCP: refused by the shutdown check, about to give the handshake slot back
    | Shaking        // TCP handler: in the TLS handshake
    | Shaken         // TCP handler: handshake over, its slot given back
    | Public         // TCP handler: serving public requests
    | Connected      // a tunnel transport exists
    | PreSlot        // holds a pre-auth slot, not in the pre-auth map yet
    | PreBack        // refused by the shutdown check, about to give the pre-auth slot back
    | Admitted       // QUIC: in the pre-auth map, no handler yet
    | Hello          // handler: reading and checking the hello
    | AuthHeld       // handler: took an authenticated slot
    | AuthBack       // handler: hello_ok failed or promotion refused, about to give the authenticated slot back
    | Failing        // about to leave the pre-auth map
    | PreDeleted     // out of the pre-auth map, about to give the pre-auth slot back
    | Promoted       // in the session set, about to give the pre-auth slot back
    | Serving        // the control loop
    | Dropping       // dropSession: stream admission stopped
    | Unlisted       // dropSession: out of the session set and the routes
    | Quiet          // dropSession: the transport is done and the helpers joined
    | Joined         // dropSession: the stream watchers joined, about to give the authenticated slot back
    | Ending         // about to leave its wait group, or to be forgotten by the accept loop
    | Over

  /** `handled`: counted by its wait group. `session`: was promoted. */
  datatype Conn = Conn(kind: Kind, pc: Pc, handled: bool, session: bool)

  datatype Limits = Limits(shake: nat, pre: nat, auth: nat)

  datatype Front = Front(
    conns: map<Id, Conn>, shake: nat, pre: nat, auth: nat, preauth: set<Id>, sessions: set<Id>,
    handlers: nat, sessionHandlers: nat, down: bool)

  datatype Choice = ServePublic | RunTunnel | HangUp

  datatype Step =
    | Accept(kind: Kind)
    | TakeShake | StartTcp | GiveShake | EndShake(ok: bool) | Choose(choice: Choice) | PublicEnds
    | TakePre | EnterPre | StartQuic
    | HelloFails | TakeAuth | HelloOkFails | Promote(advertised: int) | LeavePre | GivePre | GiveAuth
    | StopAdmission | Unlist | TransportDone | JoinWatchers
    | Leave

  /** The step is the next one of connection `k`. */
  predicate At(s: Front, k: Id, e: Step) {
    if e.Accept? then k !in s.conns else k in s.conns && PcFor(s.conns[k].pc, s.conns[k].kind, e)
  }

  predicate PcFor(pc: Pc, kind: Kind, e: Step) {
    match e
    case Accept(_) => false
    case TakeShake => kind == Tcp && pc == Accepted
    case StartTcp => pc == ShakeSlot
    case GiveShake => pc == ShakeBack
    case EndShake(_) => pc == Shaking
    case Choose(_) => pc == Shaken
    case PublicEnds => pc == Public
    case TakePre => pc == Connected
    case EnterPre => pc == PreSlot
    case StartQuic => pc == Admitted
    case HelloFails => pc == Hello
    case TakeAuth => pc == Hello
    case HelloOkFails => pc == AuthHeld
    case Promote(_) => pc == AuthHeld
    case LeavePre => pc == Failing
    case GivePre => pc == PreBack || pc == PreDeleted || pc == Promoted
    case GiveAuth => pc == AuthBack || pc == Joined
    case StopAdmission => pc == Serving
    case Unlist => pc == Dropping
    case TransportDone => pc == Unlisted
    case JoinWatchers => pc == Quiet
    case Leave => pc == Ending
  }

  /** A receive waits for a token in its channel; a wait group must not go below zero. */
  predicate Ready(s: Front, k: Id, e: Step)
    requires At(s, k, e)
  {
    match e
    case GiveShake => s.shake > 0
    case EndShake(_) => s.shake > 0
    case GivePre => s.pre > 0
    case GiveAuth => s.auth > 0
    case Leave => s.conns[k].handled ==> (if s.conns[k].kind == Tcp then s.handlers > 0 else s.sessionHandlers > 0)
    case _ => true
  }

  predicate Enabled(s: Front, k: Id, e: Step) {
    At(s, k, e) && Ready(s, k, e)
  }

  /** The connection after its step. */
  function Next(l: Limits, s: Front, k: Id, e: Step): Conn
    requires At(s, k, e)
  {
    match e
    case Accept(kind) => Conn(kind, if kind == Tcp then Accepted else Connected, false, false)
    case TakeShake => s.conns[k].(pc := if s.shake < l.shake then ShakeSlot else Over)
    case StartTcp => if s.down then s.conns[k].(pc := ShakeBack) else s.conns[k].(pc := Shaking, handled := true)
    case GiveShake => s.conns[k].(pc := Over)
    case EndShake(ok) => s.conns[k].(pc := if ok then Shaken else Ending)
    case Choose(choice) =>
      s.conns[k].(pc := if s.down || choice == HangUp then Ending else if choice == ServePublic then Public else Connected)
    case PublicEnds => s.conns[k].(pc := Ending)
    case TakePre => s.conns[k].(pc := if s.pre < l.pre then PreSlot else Ending)
    case EnterPre => s.conns[k].(pc := if s.down then PreBack else if s.conns[k].kind == Quic then Admitted else Hello)
    case StartQuic => if s.down then s.conns[k].(pc := Failing) else s.conns[k].(pc := Hello, handled := true)
    case HelloFails => s.conns[k].(pc := Failing)
    case TakeAuth => s.conns[k].(pc := if s.down || s.auth >= l.auth then Failing else AuthHeld)
    case HelloOkFails => s.conns[k].(pc := AuthBack)
    case Promote(_) =>
      if s.down || k !in s.preauth then s.conns[k].(pc := AuthBack)
      else s.conns[k].(pc := Promoted, session := true)
    // releasePreauth does nothing for a transport that is not in the map
    case LeavePre => s.conns[k].(pc := if k in s.preauth then PreDeleted else Ending)
    case GivePre => s.conns[k].(pc := if s.conns[k].pc == Promoted then Serving else Ending)
    case GiveAuth => s.conns[k].(pc := if s.conns[k].pc == Joined then Ending else Failing)
    case StopAdmission => s.conns[k].(pc := Dropping)
    case Unlist => s.conns[k].(pc := Unlisted)
    case TransportDone => s.conns[k].(pc := Quiet)
    case JoinWatchers => s.conns[k].(pc := Joined)
    case Leave => s.conns[k].(pc := Over, handled := false)
  }

  // What a step does to each channel, map and wait group.

  function ShakeAfter(l: Limits, s: Front, e: Step): nat
    requires e.GiveShake? || e.EndShake? ==> s.shake > 0
  {
    if e.TakeShake? && s.shake < l.shake then s.shake + 1
    else if e.GiveShake? || e.EndShake? then s.shake - 1
    else s.shake
  }

  function PreAfter(l: Limits, s: Front, e: Step): nat
    requires e.GivePre? ==> s.pre > 0
  {
    if e.TakePre? && s.pre < l.pre then s.pre + 1 else if e.GivePre? then s.pre - 1 else s.pre
  }

  function AuthAfter(l: Limits, s: Front, e: Step): nat
    requires e.GiveAuth? ==> s.auth > 0
  {
    if e.TakeAuth? && !s.down && s.auth < l.auth then s.auth + 1 else if e.GiveAuth? then s.auth - 1 else s.auth
  }

  function PreauthAfter(s: Front, k: Id, e: Step): set<Id> {
    if e.EnterPre? && !s.down then s.preauth + {k}
    else if (e.Promote? && !s.down) || e.LeavePre? then s.preauth - {k}
    else s.preauth
  }

  function SessionsAfter(s: Front, k: Id, e: Step): set<Id> {
    if e.Promote? && !s.down && k in s.preauth then s.sessions + {k}
    else if e.Unlist? then s.sessions - {k}
    else s.sessions
  }

  function HandlersAfter(s: Front, k: Id, e: Step): nat
    requires Enabled(s, k, e)
  {
    if e.StartTcp? && !s.down then s.handlers + 1
    else if e.Leave? && TcpHandled(s.conns[k]) then s.handlers - 1
    else s.handlers
  }

  function SessionHandlersAfter(s: Front, k: Id, e: Step): nat
    requires Enabled(s, k, e)
  {
    if e.StartQuic? && !s.down then s.sessionHandlers + 1
    else if e.Leave? && QuicHandled(s.conns[k]) then s.sessionHandlers - 1
    else s.sessionHandlers
  }

  function Apply(l: Limits, s: Front, k: Id, e: Step): Front
    requires Enabled(s, k, e)
  {
    Front(s.conns[k := Next(l, s, k, e)], ShakeAfter(l, s, e), PreAfter(l, s, e), AuthAfter(l, s, e),
          PreauthAfter(s, k, e), SessionsAfter(s, k, e), HandlersAfter(s, k, e), SessionHandlersAfter(s, k, e), s.down)
  }

  // Who holds what.

  predicate HoldsShake(c: Conn) {
    c.pc == ShakeSlot || c.pc == ShakeBack || c.pc == Shaking
  }

  predicate HoldsPre(c: Conn) {
    InPreauth(c) || c.pc == PreSlot || c.pc == PreBack || c.pc == PreDeleted || c.pc == Promoted
  }

  predicate HoldsAuth(c: Conn) {
    c.pc == AuthHeld || c.pc == AuthBack || InSessions(c) || c.pc == Unlisted || c.pc == Quiet || c.pc == Joined
  }

  predicate InPreauth(c: Conn) {
    c.pc == Admitted || c.pc == Hello || c.pc == AuthHeld || c.pc == AuthBack || c.pc == Failing
  }

  predicate InSessions(c: Conn) {
    c.pc == Promoted || c.pc == Serving || c.pc == Dropping
  }

  predicate TcpHandled(c: Conn) {
    c.handled && c.kind == Tcp
  }

  predicate QuicHandled(c: Conn) {
    c.handled && c.kind == Quic
  }

  /** Only a handler runs the handshake, the hello or a session. */
  predicate HandledRight(c: Conn) {
    && (c.pc == Shaking || c.pc == Shaken || c.pc == Public ==> c.handled && c.kind == Tcp)
    && (c.pc == Hello || c.pc == AuthHeld || c.pc == AuthBack ==> c.handled)
    && (c.pc == Accepted || c.pc == ShakeSlot || c.pc == ShakeBack ==> !c.handled && c.kind == Tcp)
    && (c.pc == Connected || c.pc == PreSlot || c.pc == PreBack ==> c.handled == c.kind.Tcp?)
    && (c.pc == Admitted ==> !c.handled && c.kind == Quic)
    && (c.pc == Over ==> !c.handled)
  }

  predicate SessionPc(pc: Pc) {
    pc == Promoted || pc == Serving || pc == Dropping || pc == Unlisted || pc == Quiet || pc == Joined
  }

  /** A promoted connection is handled until it is over. */
  predicate SessionRight(c: Conn) {
    && (SessionPc(c.pc) ==> c.session)
    && (c.session ==> SessionPc(c.pc) || c.pc == Ending || c.pc == Over)
    && (c.session && c.pc != Over ==> c.handled)
  }

  predicate WellFormed(c: Conn) {
    HandledRight(c) && SessionRight(c)
  }

  ghost predicate CountersExact(s: Front) {
    && s.shake == Count(s.conns, HoldsShake)
    && s.pre == Count(s.conns, HoldsPre)
    && s.auth == Count(s.conns, HoldsAuth)
    && s.handlers == Count(s.conns, TcpHandled)
    && s.sessionHandlers == Count(s.conns, QuicHandled)
  }

  ghost predicate SetsExact(s: Front) {
    s.preauth == Having(s.conns, InPreauth) && s.sessions == Having(s.conns, InSessions)
  }

  predicate WithinLimits(l: Limits, s: Front) {
    s.shake <= l.shake && s.pre <= l.pre && s.auth <= l.auth
  }

  ghost predicate Inv(l: Limits, s: Front) {
    && CountersExact(s) && SetsExact(s) && WithinLimits(l, s)
    && forall k :: k in s.conns ==> WellFormed(s.conns[k])
  }

  /** No give-back ever blocks on an empty channel or drives a wait group below zero. */
  lemma GiveBackNeverBlocks(l: Limits, s: Front, k: Id, e: Step)
    requires Inv(l, s) && At(s, k, e)
    ensures Ready(s, k, e)
  {
    if k in s.conns {
      var c := s.conns[k];
      if HoldsShake(c) { CountOne(s.conns, k, HoldsShake); }
      if HoldsPre(c) { CountOne(s.conns, k, HoldsPre); }
      if HoldsAuth(c) { CountOne(s.conns, k, HoldsAuth); }
      if TcpHandled(c) { CountOne(s.conns, k, TcpHandled); }
      if QuicHandled(c) { CountOne(s.conns, k, QuicHandled); }
    }
  }

  /** What a connection's code may rely on: it is where its set memberships say. */
  predicate Sound(s: Front, k: Id) {
    && (k in s.preauth <==> k in s.conns && InPreauth(s.conns[k]))
    && (k in s.sessions <==> k in s.conns && InSessions(s.conns[k]))
    && (k in s.conns ==> WellFormed(s.conns[k]))
  }

  /** So the map guards in promoteAuthenticated and releasePreauth always find the transport they look for. */
  lemma InvMeansSound(l: Limits, s: Front, k: Id)
    requires Inv(l, s)
    ensures Sound(s, k)
    ensures k in s.conns && (s.conns[k].pc == AuthHeld || s.conns[k].pc == Failing) ==> k in s.preauth
  {
  }

  // A slot taken or given back by a step is one the connection holds or held.

  lemma ShakeChanges(l: Limits, s: Front, k: Id, e: Step)
    requires Sound(s, k) && Enabled(s, k, e)
    ensures ShakeAfter(l, s, e) == s.shake + Bit(HoldsShake(Next(l, s, k, e))) - Bit(k in s.conns && HoldsShake(s.conns[k]))
  {
  }

  lemma PreChanges(l: Limits, s: Front, k: Id, e: Step)
    requires Sound(s, k) && Enabled(s, k, e)
    ensures PreAfter(l, s, e) == s.pre + Bit(HoldsPre(Next(l, s, k, e))) - Bit(k in s.conns && HoldsPre(s.conns[k]))
  {
  }

  lemma AuthChanges(l: Limits, s: Front, k: Id, e: Step)
    requires Sound(s, k) && Enabled(s, k, e)
    ensures AuthAfter(l, s, e) == s.auth + Bit(HoldsAuth(Next(l, s, k, e))) - Bit(k in s.conns && HoldsAuth(s.conns[k]))
  {
  }

  /** The steps of an accept loop and of a handler before the hello. */
  predicate Early(e: Step) {
    || e.Accept? || e.TakeShake? || e.StartTcp? || e.GiveShake? || e.EndShake? || e.Choose? || e.PublicEnds?
    || e.TakePre? || e.EnterPre? || e.StartQuic?
  }

  lemma EarlyStaysHandled(l: Limits, s: Front, k: Id, e: Step)
    requires Sound(s, k) && Enabled(s, k, e) && Early(e)
    ensures HandledRight(Next(l, s, k, e))
  {
  }

  lemma StaysHandled(l: Limits, s: Front, k: Id, e: Step)
    requires Sound(s, k) && Enabled(s, k, e)
    ensures HandledRight(Next(l, s, k, e))
  {
    if Early(e) { EarlyStaysHandled(l, s, k, e); }
  }

  lemma StaysSession(l: Limits, s: Front, k: Id, e: Step)
    requires Sound(s, k) && Enabled(s, k, e)
    ensures SessionRight(Next(l, s, k, e))
  {
  }

  lemma GroupChanges(l: Limits, s: Front, k: Id, e: Step)
    requires Sound(s, k) && Enabled(s, k, e)
    ensures var c, held := Next(l, s, k, e), k in s.conns;
            && HandlersAfter(s, k, e) == s.handlers + Bit(TcpHandled(c)) - Bit(held && TcpHandled(s.conns[k]))
            && SessionHandlersAfter(s, k, e) == s.sessionHandlers + Bit(QuicHandled(c)) - Bit(held && QuicHandled(s.conns[k]))
  {
  }

  lemma PreauthStays(l: Limits, s: Front, k: Id, e: Step)
    requires Sound(s, k) && Enabled(s, k, e) && !e.EnterPre? && !e.Promote? && !e.LeavePre?
    ensures InPreauth(Next(l, s, k, e)) == (k in s.preauth)
  {
  }

  lemma PreauthChanges(l: Limits, s: Front, k: Id, e: Step)
    requires Sound(s, k) && Enabled(s, k, e)
    ensures PreauthAfter(s, k, e) == if InPreauth(Next(l, s, k, e)) then s.preauth + {k} else s.preauth - {k}
  {
    if !e.EnterPre? && !e.Promote? && !e.LeavePre? { PreauthStays(l, s, k, e); }
  }

  lemma SessionsChange(l: Limits, s: Front, k: Id, e: Step)
    requires Sound(s, k) && Enabled(s, k, e)
    ensures SessionsAfter(s, k, e) == if InSessions(Next(l, s, k, e)) then s.sessions + {k} else s.sessions - {k}
  {
  }

  lemma StepKeepsSlots(l: Limits, s: Front, k: Id, e: Step)
    requires CountersExact(s) && WithinLimits(l, s) && Sound(s, k) && Enabled(s, k, e)
    ensures var t := Apply(l, s, k, e);
            t.shake == Count(t.conns, HoldsShake) && t.pre == Count(t.conns, HoldsPre) && t.auth == Count(t.conns, HoldsAuth)
    ensures WithinLimits(l, Apply(l, s, k, e))
  {
    var c := Next(l, s, k, e);
    ShakeChanges(l, s, k, e);
    PreChanges(l, s, k, e);
    AuthChanges(l, s, k, e);
    CountSet(s.conns, k, c, HoldsShake);
    CountSet(s.conns, k, c, HoldsPre);
    CountSet(s.conns, k, c, HoldsAuth);
  }

  lemma StepKeepsGroups(l: Limits, s: Front, k: Id, e: Step)
    requires CountersExact(s) && Sound(s, k) && Enabled(s, k, e)
    ensures var t := Apply(l, s, k, e);
            t.handlers == Count(t.conns, TcpHandled) && t.sessionHandlers == Count(t.conns, QuicHandled)
  {
    GroupChanges(l, s, k, e);
    CountSet(s.conns, k, Next(l, s, k, e), TcpHandled);
    CountSet(s.conns, k, Next(l, s, k, e), QuicHandled);
  }

  lemma StepKeepsSets(l: Limits, s: Front, k: Id, e: Step)
    requires SetsExact(s) && Sound(s, k) && Enabled(s, k, e)
    ensures SetsExact(Apply(l, s, k, e))
  {
    PreauthChanges(l, s, k, e);
    SessionsChange(l, s, k, e);
    HavingSet(s.conns, k, Next(l, s, k, e), InPreauth);
    HavingSet(s.conns, k, Next(l, s, k, e), InSessions);
  }

  lemma StepKeepsInv(l: Limits, s: Front, k: Id, e: Step)
    requires Inv(l, s) && Enabled(s, k, e)
    ensures Inv(l, Apply(l, s, k, e))
  {
    InvMeansSound(l, s, k);
    StaysHandled(l, s, k, e);
    StaysSession(l, s, k, e);
    StepKeepsSlots(l, s, k, e);
    StepKeepsGroups(l, s, k, e);
    StepKeepsSets(l, s, k, e);
  }

  /** Each slot is granted exactly while fewer connections than the limit hold one. */
  lemma GrantsExactly(l: Limits, s: Front, k: Id)
    requires CountersExact(s) && k in s.conns
    ensures At(s, k, TakeShake) ==> (Next(l, s, k, TakeShake).pc == ShakeSlot <==> Count(s.conns, HoldsShake) < l.shake)
    ensures At(s, k, TakePre) ==> (Next(l, s, k, TakePre).pc == PreSlot <==> Count(s.conns, HoldsPre) < l.pre)
    ensures At(s, k, TakeAuth) ==> (Next(l, s, k, TakeAuth).pc == AuthHeld <==> !s.down && Count(s.conns, HoldsAuth) < l.auth)
  {
  }

  /** A finished handshake leads on, a failed one to the end; then the negotiated protocol decides between a tunnel and
      public requests, and a shutdown ends it. */
  lemma HandshakeLeads(l: Limits, s: Front, k: Id, e: Step)
    requires At(s, k, e) && (e.EndShake? || e.Choose?)
    ensures Next(l, s, k, e).pc ==
              if e.EndShake? then (if e.ok then Shaken else Ending)
              else if s.down then Ending
              else (match e.choice case RunTunnel => Connected case ServePublic => Public case HangUp => Ending)
  {
  }

  /** Each section that starts a handler does so exactly while the edge is up. */
  lemma StartsExactly(l: Limits, s: Front, k: Id)
    requires Sound(s, k) && k in s.conns
    ensures At(s, k, StartTcp) ==> (Next(l, s, k, StartTcp).handled <==> !s.down)
    ensures At(s, k, StartQuic) ==> (Next(l, s, k, StartQuic).handled <==> !s.down)
  {
  }

  /** Each section that lists a transport does so exactly while the edge is up. */
  lemma AdmitsExactly(l: Limits, s: Front, k: Id, advertised: int)
    requires Sound(s, k) && k in s.conns
    ensures At(s, k, EnterPre) ==> (InPreauth(Next(l, s, k, EnterPre)) <==> !s.down)
    ensures At(s, k, Promote(advertised)) ==> (InSessions(Next(l, s, k, Promote(advertised))) <==> !s.down)
  {
  }

  /** After the shutdown flag, no handler and no session handler is added, and no transport enters the pre-auth
      map or the session set from outside them. */
  lemma DownStopsAdmission(l: Limits, s: Front, k: Id, e: Step)
    requires Inv(l, s) && Enabled(s, k, e) && s.down
    ensures var t := Apply(l, s, k, e);
            && t.down && t.handlers <= s.handlers && t.sessionHandlers <= s.sessionHandlers
            && t.preauth <= s.preauth && t.sessions <= s.sessions
            && (t.conns[k].handled ==> k in s.conns && s.conns[k].handled)
            && (t.conns[k].session ==> k in s.conns && s.conns[k].session)
  {
  }

  /** When every connection is over, every slot is free: no exit path leaks one. */
  lemma AllOverMeansAllFree(l: Limits, s: Front)
    requires Inv(l, s) && forall k :: k in s.conns ==> s.conns[k].pc == Over
    ensures s.shake == 0 && s.pre == 0 && s.auth == 0 && s.handlers == 0 && s.sessionHandlers == 0
  {
    NoneHolds(s.conns, HoldsShake);
    NoneHolds(s.conns, HoldsPre);
    NoneHolds(s.conns, HoldsAuth);
    NoneHolds(s.conns, TcpHandled);
    NoneHolds(s.conns, QuicHandled);
  }

  lemma NoneHolds(conns: map<Id, Conn>, p: Conn -> bool)
    requires forall k :: k in conns ==> WellFormed(conns[k]) && conns[k].pc == Over
    requires forall c: Conn :: c.pc == Over && !c.handled ==> !p(c)
    ensures Count(conns, p) == 0
  {
    forall k | k in conns ensures !p(conns[k]) { assert WellFormed(conns[k]); }
    CountNone(conns, p);
  }
}
