/** Stream leases: what a proxied request's dial takes from the edge and from its session, holds for as long as
    the transport stream lives, and gives back; and the traffic report each stream makes. A step is one section
    under a session's stream lock, one channel operation, one wait-group change or one stream event. */
module Leases {
  import opened Counting

  type Id = nat

  /** A session's share: its slot channel, its watcher group, and whether it still admits streams. */
  datatype Sess = Sess(cap: nat, used: nat, watchers: nat, closing: bool)

  /** Where a dial stands, and after it the watcher that owns the stream. */
  datatype Pc =
    | Refused        // the session no longer admits streams
    | Reserved       // counted as a watcher
    | Half           // took a global slot, not yet a session slot
    | Leased         // holds the lease, no stream yet
    | Returning      // the open failed: about to return the lease
    | Open           // the stream exists
    | Ended          // the stream is done in both directions
    | Reported       // the watcher's finalize returned
    | SlotBack       // has no session slot any more: about to give the global slot back
    | Unwinding      // has no lease: about to leave the session's group
    | LastDone       // about to leave the edge's group
    | Over

  /** The once-guarded report of a stream's totals: not begun, totals loaded, recorded. */
  datatype Totals = Unreported | Loaded(bytesIn: nat, bytesOut: nat) | Recorded(bytesIn: nat, bytesOut: nat)

  datatype Dial = Dial(session: Id, pc: Pc, streamed: bool, bytesIn: nat, bytesOut: nat, totals: Totals)

  datatype Report = Report(dial: Id, bytesIn: nat, bytesOut: nat)

  datatype Back = Back(sess: map<Id, Sess>, dials: map<Id, Dial>, global: nat, watchers: nat, reports: seq<Report>)

  datatype Step =
    | Reserve(session: Id)
    | TakeGlobal | TakeSlot
    | OpenFails                    // stale route, closed transport or failed open
    | OpenStream
    | CountBytes(bytesIn: nat, bytesOut: nat)
    | LoadTotals | RecordTotals    // by Close or by the watcher, whichever enters the once first
    | StreamDone
    | FinalizeReturns
    | GiveSlot | GiveGlobal | LeaveSession | LeaveEdge

  predicate At(b: Back, d: Id, e: Step) {
    if e.Reserve? then d !in b.dials && e.session in b.sess else d in b.dials && Fits(b.dials[d], e)
  }

  predicate Fits(x: Dial, e: Step) {
    match e
    case Reserve(_) => false
    case TakeGlobal => x.pc == Reserved
    case TakeSlot => x.pc == Half
    case OpenFails => x.pc == Leased
    case OpenStream => x.pc == Leased
    case CountBytes(_, _) => x.streamed
    case LoadTotals => x.streamed && x.totals == Unreported
    case RecordTotals => x.totals.Loaded?
    case StreamDone => x.pc == Open
    case FinalizeReturns => x.pc == Ended && x.totals.Recorded?
    case GiveSlot => x.pc == Returning || x.pc == Reported
    case GiveGlobal => x.pc == SlotBack
    case LeaveSession => x.pc == Unwinding
    case LeaveEdge => x.pc == LastDone
  }

  predicate HasSess(b: Back, d: Id) {
    d in b.dials && b.dials[d].session in b.sess
  }

  /** Receives need a token in the channel, and wait groups must not go below zero. */
  predicate Ready(b: Back, d: Id, e: Step) {
    match e
    case TakeSlot => HasSess(b, d)
    case GiveSlot => HasSess(b, d) && b.sess[b.dials[d].session].used > 0
    case GiveGlobal => b.global > 0
    case LeaveSession => HasSess(b, d) && b.sess[b.dials[d].session].watchers > 0
    case LeaveEdge => b.watchers > 0
    case _ => true
  }

  predicate Enabled(b: Back, d: Id, e: Step) {
    At(b, d, e) && Ready(b, d, e)
  }

  /** The dial after its step; `total` is the capacity of the global slot channel. */
  function Next(total: nat, b: Back, d: Id, e: Step): Dial
    requires Enabled(b, d, e)
  {
    match e
    case Reserve(k) => Dial(k, if b.sess[k].closing then Refused else Reserved, false, 0, 0, Unreported)
    case TakeGlobal => b.dials[d].(pc := if b.global < total then Half else Unwinding)
    case TakeSlot =>
      var x := b.sess[b.dials[d].session];
      b.dials[d].(pc := if x.used < x.cap then Leased else SlotBack)
    case OpenFails => b.dials[d].(pc := Returning)
    case OpenStream => b.dials[d].(pc := Open, streamed := true)
    case CountBytes(i, o) =>
      b.dials[d].(bytesIn := b.dials[d].bytesIn + i, bytesOut := b.dials[d].bytesOut + o)
    case LoadTotals => b.dials[d].(totals := Loaded(b.dials[d].bytesIn, b.dials[d].bytesOut))
    case RecordTotals => b.dials[d].(totals := Recorded(b.dials[d].totals.bytesIn, b.dials[d].totals.bytesOut))
    case StreamDone => b.dials[d].(pc := Ended)
    case FinalizeReturns => b.dials[d].(pc := Reported)
    case GiveSlot => b.dials[d].(pc := SlotBack)
    case GiveGlobal => b.dials[d].(pc := Unwinding)
    case LeaveSession => b.dials[d].(pc := LastDone)
    case LeaveEdge => b.dials[d].(pc := Over)
  }

  function GlobalAfter(total: nat, b: Back, d: Id, e: Step): nat
    requires Enabled(b, d, e)
  {
    if e.TakeGlobal? && b.global < total then b.global + 1 else if e.GiveGlobal? then b.global - 1 else b.global
  }

  function WatchersAfter(b: Back, d: Id, e: Step): nat
    requires Enabled(b, d, e)
  {
    if e.Reserve? && !b.sess[e.session].closing then b.watchers + 1
    else if e.LeaveEdge? then b.watchers - 1
    else b.watchers
  }

  function SessAfter(b: Back, d: Id, e: Step): map<Id, Sess>
    requires Enabled(b, d, e)
  {
    match e
    case Reserve(k) =>
      if b.sess[k].closing then b.sess else b.sess[k := b.sess[k].(watchers := b.sess[k].watchers + 1)]
    case TakeSlot =>
      var k := b.dials[d].session;
      if b.sess[k].used < b.sess[k].cap then b.sess[k := b.sess[k].(used := b.sess[k].used + 1)] else b.sess
    case GiveSlot =>
      var k := b.dials[d].session;
      b.sess[k := b.sess[k].(used := b.sess[k].used - 1)]
    case LeaveSession =>
      var k := b.dials[d].session;
      b.sess[k := b.sess[k].(watchers := b.sess[k].watchers - 1)]
    case _ => b.sess
  }

  function ReportsAfter(b: Back, d: Id, e: Step): seq<Report>
    requires Enabled(b, d, e)
  {
    if e.RecordTotals?
    then b.reports + [Report(d, b.dials[d].totals.bytesIn, b.dials[d].totals.bytesOut)]
    else b.reports
  }

  function Apply(total: nat, b: Back, d: Id, e: Step): Back
    requires Enabled(b, d, e)
  {
    Back(SessAfter(b, d, e), b.dials[d := Next(total, b, d, e)], GlobalAfter(total, b, d, e),
         WatchersAfter(b, d, e), ReportsAfter(b, d, e))
  }

  // Who holds what.

  predicate HoldsSlot(x: Dial) {
    x.pc == Leased || x.pc == Returning || x.pc == Open || x.pc == Ended || x.pc == Reported
  }

  predicate HalfTaken(x: Dial) {
    x.pc == Half || x.pc == SlotBack
  }

  predicate HoldsGlobal(x: Dial) {
    HoldsSlot(x) || HalfTaken(x)
  }

  predicate InSessionGroup(x: Dial) {
    HoldsGlobal(x) || x.pc == Reserved || x.pc == Unwinding
  }

  predicate InEdgeGroup(x: Dial) {
    InSessionGroup(x) || x.pc == LastDone
  }

  function SlotOf(k: Id): Dial -> bool {
    (x: Dial) => x.session == k && HoldsSlot(x)
  }

  function WatchedBy(k: Id): Dial -> bool {
    (x: Dial) => x.session == k && InSessionGroup(x)
  }

  /** A lease outlives its stream's report; only streams report. */
  predicate WellFormed(x: Dial) {
    && (x.pc == Open || x.pc == Ended || x.pc == Reported ==> x.streamed)
    && (x.streamed ==> x.pc == Open || x.pc == Ended || x.totals.Recorded?)
    && (x.streamed ==> x.pc == Open || x.pc == Ended || x.pc == Reported || x.pc == SlotBack || x.pc == Unwinding || x.pc == LastDone || x.pc == Over)
    && (x.totals != Unreported ==> x.streamed && x.totals.bytesIn <= x.bytesIn && x.totals.bytesOut <= x.bytesOut)
  }

  ghost predicate GlobalExact(total: nat, b: Back) {
    b.global == Count(b.dials, HoldsGlobal) && b.global <= total && b.watchers == Count(b.dials, InEdgeGroup)
  }

  ghost predicate SessExact(b: Back, k: Id)
    requires k in b.sess
  {
    && b.sess[k].used == Count(b.dials, SlotOf(k)) && b.sess[k].used <= b.sess[k].cap
    && b.sess[k].watchers == Count(b.dials, WatchedBy(k))
  }

  /** How many reports name dial `d`. */
  function Reports(reports: seq<Report>, d: Id): nat {
    if |reports| == 0 then 0
    else Reports(reports[..|reports| - 1], d) + Bit(reports[|reports| - 1].dial == d)
  }

  predicate HasReported(b: Back, d: Id) {
    d in b.dials && b.dials[d].totals.Recorded?
  }

  /** A stream is reported once, when its once-guarded record ran, with the totals loaded there. */
  ghost predicate ReportsExact(b: Back) {
    && (forall d: Id :: Reports(b.reports, d) == Bit(HasReported(b, d)))
    && (forall r :: r in b.reports ==>
          HasReported(b, r.dial) && b.dials[r.dial].totals == Recorded(r.bytesIn, r.bytesOut))
  }

  ghost predicate Inv(total: nat, b: Back) {
    && GlobalExact(total, b)
    && (forall k: Id :: k in b.sess ==> SessExact(b, k))
    && ReportsExact(b)
    && DialsWellFormed(b)
  }

  // Steps keep the invariant.

  lemma GlobalChanges(total: nat, b: Back, d: Id, e: Step)
    requires Enabled(b, d, e)
    ensures GlobalAfter(total, b, d, e)
         == b.global + Bit(HoldsGlobal(Next(total, b, d, e))) - Bit(d in b.dials && HoldsGlobal(b.dials[d]))
  {
  }

  lemma WatchersChange(total: nat, b: Back, d: Id, e: Step)
    requires Enabled(b, d, e)
    ensures WatchersAfter(b, d, e)
         == b.watchers + Bit(InEdgeGroup(Next(total, b, d, e))) - Bit(d in b.dials && InEdgeGroup(b.dials[d]))
  {
  }

  lemma SlotsChange(total: nat, b: Back, d: Id, e: Step, k: Id)
    requires Enabled(b, d, e) && k in b.sess
    ensures k in SessAfter(b, d, e)
    ensures var x, y := b.sess[k], SessAfter(b, d, e)[k];
            && (x.used <= x.cap ==> y.used <= y.cap)
            && y.used == x.used + Bit(SlotOf(k)(Next(total, b, d, e))) - Bit(d in b.dials && SlotOf(k)(b.dials[d]))
  {
  }

  lemma GroupChanges(total: nat, b: Back, d: Id, e: Step, k: Id)
    requires Enabled(b, d, e) && k in b.sess
    ensures k in SessAfter(b, d, e)
    ensures SessAfter(b, d, e)[k].watchers
         == b.sess[k].watchers + Bit(WatchedBy(k)(Next(total, b, d, e))) - Bit(d in b.dials && WatchedBy(k)(b.dials[d]))
  {
  }

  lemma StaysWellFormed(total: nat, b: Back, d: Id, e: Step)
    requires Enabled(b, d, e) && (d in b.dials ==> WellFormed(b.dials[d]) && b.dials[d].session in b.sess)
    ensures WellFormed(Next(total, b, d, e)) && Next(total, b, d, e).session in SessAfter(b, d, e)
    ensures d in b.dials ==> Next(total, b, d, e).session == b.dials[d].session
    ensures SessAfter(b, d, e).Keys == b.sess.Keys
  {
  }

  ghost predicate DialsWellFormed(b: Back) {
    forall d :: d in b.dials ==> WellFormed(b.dials[d]) && b.dials[d].session in b.sess
  }

  lemma StepKeepsDials(total: nat, b: Back, d: Id, e: Step)
    requires DialsWellFormed(b) && Enabled(b, d, e)
    ensures DialsWellFormed(Apply(total, b, d, e)) && Apply(total, b, d, e).sess.Keys == b.sess.Keys
  {
    StaysWellFormed(total, b, d, e);
    var t := Apply(total, b, d, e);
    forall x | x in t.dials ensures WellFormed(t.dials[x]) && t.dials[x].session in b.sess {
      if x != d { assert t.dials[x] == b.dials[x]; }
    }
  }

  lemma ReportsAppend(reports: seq<Report>, r: Report, d: Id)
    ensures Reports(reports + [r], d) == Reports(reports, d) + Bit(r.dial == d)
  {
    assert (reports + [r])[..|reports|] == reports;
  }

  lemma StepKeepsReports(total: nat, b: Back, d: Id, e: Step)
    requires ReportsExact(b) && Enabled(b, d, e)
    ensures ReportsExact(Apply(total, b, d, e))
  {
    var t := Apply(total, b, d, e);
    RecordedGrows(total, b, d, e);
    if e.RecordTotals? {
      var r := Report(d, b.dials[d].totals.bytesIn, b.dials[d].totals.bytesOut);
      forall x: Id ensures Reports(t.reports, x) == Bit(HasReported(t, x)) { ReportsAppend(b.reports, r, x); }
    }
  }

  /** A recorded total never changes; the only new one is the one a step records. */
  lemma RecordedGrows(total: nat, b: Back, d: Id, e: Step)
    requires Enabled(b, d, e)
    ensures var t := Apply(total, b, d, e);
            && (forall x :: HasReported(b, x) ==> HasReported(t, x) && t.dials[x].totals == b.dials[x].totals)
            && (forall x :: HasReported(t, x) ==> HasReported(b, x) || (e.RecordTotals? && x == d))
  {
  }

  lemma StepKeepsGlobal(total: nat, b: Back, d: Id, e: Step)
    requires GlobalExact(total, b) && Enabled(b, d, e)
    ensures GlobalExact(total, Apply(total, b, d, e))
  {
    GlobalChanges(total, b, d, e);
    WatchersChange(total, b, d, e);
    CountSet(b.dials, d, Next(total, b, d, e), HoldsGlobal);
    CountSet(b.dials, d, Next(total, b, d, e), InEdgeGroup);
  }

  lemma StepKeepsSess(total: nat, b: Back, d: Id, e: Step, k: Id)
    requires k in b.sess && SessExact(b, k) && Enabled(b, d, e)
    ensures k in SessAfter(b, d, e) && SessExact(Apply(total, b, d, e), k)
  {
    SlotsChange(total, b, d, e, k);
    GroupChanges(total, b, d, e, k);
    CountSet(b.dials, d, Next(total, b, d, e), SlotOf(k));
    CountSet(b.dials, d, Next(total, b, d, e), WatchedBy(k));
  }

  lemma StepKeepsInv(total: nat, b: Back, d: Id, e: Step)
    requires Inv(total, b) && Enabled(b, d, e)
    ensures Inv(total, Apply(total, b, d, e))
  {
    StepKeepsDials(total, b, d, e);
    StepKeepsReports(total, b, d, e);
    StepKeepsGlobal(total, b, d, e);
    forall k: Id | k in b.sess ensures k in SessAfter(b, d, e) && SessExact(Apply(total, b, d, e), k) {
      StepKeepsSess(total, b, d, e, k);
    }
  }

  /** No release ever blocks on an empty channel or drives a wait group below zero. */
  lemma GiveBackNeverBlocks(total: nat, b: Back, d: Id, e: Step)
    requires Inv(total, b) && At(b, d, e)
    ensures Ready(b, d, e)
  {
    if d in b.dials {
      var x := b.dials[d];
      assert SessExact(b, x.session);
      if HoldsSlot(x) { CountOne(b.dials, d, SlotOf(x.session)); }
      if InSessionGroup(x) { CountOne(b.dials, d, WatchedBy(x.session)); }
      if HoldsGlobal(x) { CountOne(b.dials, d, HoldsGlobal); }
      if InEdgeGroup(x) { CountOne(b.dials, d, InEdgeGroup); }
    }
  }

  /** A lease whose stream exists is returned only after the stream is done and its totals are recorded, and a
      session's slot is never returned twice for one dial. */
  lemma LeaseOutlivesStream(total: nat, b: Back, d: Id, e: Step)
    requires d in b.dials && WellFormed(b.dials[d]) && Enabled(b, d, e)
    ensures HoldsSlot(b.dials[d]) && !HoldsSlot(Next(total, b, d, e)) && b.dials[d].streamed ==> HasReported(b, d) && b.dials[d].pc == Reported
    ensures !HoldsSlot(b.dials[d]) && b.dials[d].pc != Half ==> !HoldsSlot(Next(total, b, d, e))
  {
  }

  /** A dial is let in exactly while its session admits streams, and gets each slot exactly while fewer dials than the
      capacity hold one. */
  lemma GrantsExactly(total: nat, b: Back, d: Id, k: Id)
    requires Inv(total, b)
    ensures At(b, d, Reserve(k)) ==> (Next(total, b, d, Reserve(k)).pc == Reserved <==> !b.sess[k].closing)
    ensures At(b, d, TakeGlobal) ==> (Next(total, b, d, TakeGlobal).pc == Half <==> Count(b.dials, HoldsGlobal) < total)
    ensures At(b, d, TakeSlot) && b.dials[d].session == k ==>
              k in b.sess && (Next(total, b, d, TakeSlot).pc == Leased <==> Count(b.dials, SlotOf(k)) < b.sess[k].cap)
  {
    if k in b.sess { assert SessExact(b, k); }
  }

  // The two kinds of stream slot, summed.

  /** The session slots in use over the sessions below `n`. */
  function SlotSum(b: Back, n: nat): nat {
    if n == 0 then 0 else SlotSum(b, n - 1) + (if n - 1 in b.sess then b.sess[n - 1].used else 0)
  }

  function SlotBelow(n: nat): Dial -> bool {
    (x: Dial) => x.session < n && HoldsSlot(x)
  }

  lemma SplitBelow(dials: map<Id, Dial>, n: nat)
    requires n > 0
    ensures Count(dials, SlotBelow(n)) == Count(dials, SlotBelow(n - 1)) + Count(dials, SlotOf(n - 1))
  {
    CountSplit(dials, SlotBelow(n), SlotBelow(n - 1), SlotOf(n - 1));
  }

  lemma SplitGlobal(dials: map<Id, Dial>, n: nat)
    requires forall d :: d in dials ==> dials[d].session < n
    ensures Count(dials, HoldsGlobal) == Count(dials, SlotBelow(n)) + Count(dials, HalfTaken)
  {
    CountSplit(dials, HoldsGlobal, SlotBelow(n), HalfTaken);
  }

  lemma NoneOutside(b: Back, k: Id)
    requires DialsWellFormed(b) && k !in b.sess
    ensures Count(b.dials, SlotOf(k)) == 0
  {
    CountNone(b.dials, SlotOf(k));
  }

  lemma {:induction false} SumIsCount(b: Back, n: nat)
    requires DialsWellFormed(b) && forall k: Id :: k in b.sess ==> SessExact(b, k)
    ensures SlotSum(b, n) == Count(b.dials, SlotBelow(n))
  {
    if n == 0 {
      CountNone(b.dials, SlotBelow(0));
    } else {
      SumIsCount(b, n - 1);
      SplitBelow(b.dials, n);
      if n - 1 in b.sess {
        assert SessExact(b, n - 1);
      } else {
        NoneOutside(b, n - 1);
      }
    }
  }

  /** Global stream slots in use are the session slots in use plus the half-taken acquisitions. */
  lemma GlobalIsSumOfSessions(total: nat, b: Back, n: nat)
    requires Inv(total, b) && forall k :: k in b.sess ==> k < n
    ensures b.global == SlotSum(b, n) + Count(b.dials, HalfTaken)
  {
    SumIsCount(b, n);
    forall d | d in b.dials ensures b.dials[d].session < n {}
    SplitGlobal(b.dials, n);
  }

  /** A session with no watcher left has no lease and no slot in use. */
  lemma NoWatcherNoLease(total: nat, b: Back, k: Id)
    requires Inv(total, b) && k in b.sess && b.sess[k].watchers == 0
    ensures b.sess[k].used == 0
    ensures forall d :: d in b.dials && b.dials[d].session == k ==> !InSessionGroup(b.dials[d])
  {
    assert SessExact(b, k);
    CountZero(b.dials, WatchedBy(k));
    forall d | d in b.dials && b.dials[d].session == k ensures !InSessionGroup(b.dials[d]) {
      assert !WatchedBy(k)(b.dials[d]);
    }
    CountNone(b.dials, SlotOf(k));
  }

  // What the session's own handler does to its share.

  function OpenShare(b: Back, k: Id, cap: nat): Back {
    b.(sess := b.sess[k := Sess(cap, 0, 0, false)])
  }

  function CloseShare(b: Back, k: Id): Back
    requires k in b.sess
  {
    b.(sess := b.sess[k := b.sess[k].(closing := true)])
  }

  lemma OpenKeepsInv(total: nat, b: Back, k: Id, cap: nat)
    requires Inv(total, b) && k !in b.sess
    ensures Inv(total, OpenShare(b, k, cap))
  {
    var t := OpenShare(b, k, cap);
    CountNone(b.dials, SlotOf(k));
    CountNone(b.dials, WatchedBy(k));
    forall j: Id | j in t.sess ensures SessExact(t, j) {
      if j != k { assert SessExact(b, j); }
    }
  }

  lemma CloseKeepsInv(total: nat, b: Back, k: Id)
    requires Inv(total, b) && k in b.sess
    ensures Inv(total, CloseShare(b, k))
  {
    var t := CloseShare(b, k);
    forall j: Id | j in t.sess ensures SessExact(t, j) { assert SessExact(b, j); }
  }

  /** A session that stopped admitting streams never admits again, and once its last watcher left none comes
      back. */
  lemma ClosedStaysClosed(total: nat, b: Back, d: Id, e: Step, k: Id)
    requires Enabled(b, d, e) && k in b.sess && b.sess[k].closing
    ensures k in SessAfter(b, d, e) && SessAfter(b, d, e)[k].closing
    ensures SessAfter(b, d, e)[k].watchers <= b.sess[k].watchers
  {
  }

  /** With no watcher left and every session closed to streams, nothing moves the edge's counters again. */
  lemma QuietForGood(total: nat, b: Back, d: Id, e: Step)
    requires Inv(total, b) && Enabled(b, d, e)
    requires b.watchers == 0 && forall k :: k in b.sess ==> b.sess[k].closing
    ensures var t := Apply(total, b, d, e); t.watchers == 0 && t.global == 0 && t.reports == b.reports
  {
    CountZero(b.dials, InEdgeGroup);
    CountNone(b.dials, HoldsGlobal);
    if d in b.dials { assert !InEdgeGroup(b.dials[d]); }
  }

  /** And every stream there ever was is reported exactly once. */
  lemma QuietMeansReported(total: nat, b: Back, d: Id)
    requires Inv(total, b) && b.watchers == 0 && d in b.dials && b.dials[d].streamed
    ensures Reports(b.reports, d) == 1 && !InEdgeGroup(b.dials[d])
  {
    CountZero(b.dials, InEdgeGroup);
    assert !InEdgeGroup(b.dials[d]);
    assert HasReported(b, d);
  }
}
