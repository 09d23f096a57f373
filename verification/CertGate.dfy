/** The gate in front of on-demand certificate issuance: cached verdicts and a cooldown after a failed issuance, in
    every interleaving of handshakes whose authorizer calls overlap. Times come from one monotone clock. */
module CertGate {
  import opened Options
  import opened BoundedCache

  type Name = string
  type Id = nat

  datatype Times = Times(posTtl: nat, negTtl: nat, cooldown: nat, cap: nat)

  /** A cached verdict: whether the name was authorized. */
  type Verdicts = Cache<bool>

  /** One Decide call: asking the authorizer since `asked`, holding its answer, or returned with the final answer,
      given at `at`; `consulted` tells an answer of the authorizer from a cached one. */
  datatype Call =
    | Asking(name: Name, asked: int)
    | Answered(name: Name, asked: int, ok: bool)
    | Returned(name: Name, asked: int, ok: bool, at: int, consulted: bool)

  /** What happened to cooldowns, in order. */
  datatype Log = Start(name: Name, at: int) | Success(name: Name)

  /** `approvals` lists each authorizer approval with the time it was stored. */
  datatype State = State(
    now: int, verdicts: Verdicts, lastFail: map<Name, int>, calls: map<Id, Call>,
    approvals: set<(Name, int)>, log: seq<Log>)

  predicate Cooling(t: Times, lastFail: map<Name, int>, name: Name, now: int) {
    name in lastFail && now - lastFail[name] < t.cooldown
  }

  /** The verdict the cache answers with, if any. */
  function Cached(verdicts: Verdicts, name: Name, now: int): Option<bool> {
    if name in verdicts && now < verdicts[name].expires then Some(verdicts[name].value) else None
  }

  predicate Approved(verdicts: Verdicts, name: Name) {
    name in verdicts && verdicts[name].value
  }

  /** The cooldowns that have not elapsed. */
  function Running(t: Times, lastFail: map<Name, int>, now: int): map<Name, int> {
    map n | n in lastFail && now - lastFail[n] < t.cooldown :: lastFail[n]
  }

  datatype Event =
    | Tick(now: int)
    | Look(c: Id, name: Name)
    | Answer(c: Id, ok: bool)
    | StoreVerdict(c: Id, verdicts: Verdicts)   // with what the eviction happened to keep
    | RecordFailure(name: Name)
    | RecordSuccess(name: Name)

  ghost predicate Enabled(t: Times, s: State, e: Event) {
    match e
    case Tick(now) => now >= s.now
    case Look(c, _) => c !in s.calls
    case Answer(c, _) => c in s.calls && s.calls[c].Asking?
    case StoreVerdict(c, verdicts) =>
      && c in s.calls && s.calls[c].Answered?
      && Stored(s.verdicts, s.calls[c].name, NewVerdict(t, s.calls[c].ok, s.now), s.now, t.cap, verdicts)
    case RecordFailure(_) => true
    case RecordSuccess(_) => true
  }

  function NewVerdict(t: Times, ok: bool, now: int): Entry<bool> {
    Entry(ok, now + if ok then t.posTtl else t.negTtl)
  }

  function FailureStep(t: Times, s: State, name: Name): State {
    if !Approved(s.verdicts, name) || Cooling(t, s.lastFail, name, s.now) then s
    else s.(lastFail := Running(t, s.lastFail, s.now)[name := s.now], log := s.log + [Start(name, s.now)])
  }

  function Apply(t: Times, s: State, e: Event): State
    requires Enabled(t, s, e)
  {
    match e
    case Tick(now) => s.(now := now)
    case Look(c, name) =>
      var r :=
        if Cooling(t, s.lastFail, name, s.now) then Returned(name, s.now, false, s.now, false)
        else match Cached(s.verdicts, name, s.now)
          case Some(ok) => Returned(name, s.now, ok, s.now, false)
          case None => Asking(name, s.now);
      s.(calls := s.calls[c := r])
    case Answer(c, ok) => s.(calls := s.calls[c := Answered(s.calls[c].name, s.calls[c].asked, ok)])
    case StoreVerdict(c, verdicts) =>
      var x := s.calls[c];
      s.(verdicts := verdicts, calls := s.calls[c := Returned(x.name, x.asked, x.ok, s.now, true)],
         approvals := if x.ok then s.approvals + {(x.name, s.now)} else s.approvals)
    case RecordFailure(name) => FailureStep(t, s, name)
    case RecordSuccess(name) => s.(lastFail := s.lastFail - {name}, log := s.log + [Success(name)])
  }

  // Invariants.

  /** The last start of a cooldown for `name` that no success followed. */
  function LastStart(log: seq<Log>, name: Name): Option<int> {
    if |log| == 0 then None
    else
      var l := log[|log| - 1];
      if l.name != name then LastStart(log[..|log| - 1], name)
      else if l.Start? then Some(l.at)
      else None
  }

  /** Two starts for one name with no success between them are at least a cooldown apart. */
  ghost predicate Spaced(t: Times, log: seq<Log>) {
    forall i: nat :: i < |log| && log[i].Start? && LastStart(log[..i], log[i].name).Some? ==>
      log[i].at - LastStart(log[..i], log[i].name).value >= t.cooldown
  }

  /** A start is remembered until its cooldown has elapsed or a success cleared it. */
  ghost predicate Remembered(t: Times, s: State) {
    forall n :: LastStart(s.log, n).Some? ==>
      s.now - LastStart(s.log, n).value >= t.cooldown || (n in s.lastFail && s.lastFail[n] == LastStart(s.log, n).value)
  }

  /** Every cached approval, and every name in cooldown, goes back to an approval that was stored. */
  ghost predicate Backed(t: Times, s: State) {
    && (forall n :: Approved(s.verdicts, n) ==> (n, s.verdicts[n].expires - t.posTtl) in s.approvals)
    && (forall n :: n in s.lastFail ==> WasApproved(s, n))
    && (forall n, at :: (n, at) in s.approvals ==> at <= s.now)
  }

  ghost predicate WasApproved(s: State, n: Name) {
    exists at :: (n, at) in s.approvals
  }

  /** An approval that a call returned is backed. */
  ghost predicate AskedWell(t: Times, s: State, x: Call) {
    && x.asked <= s.now
    && (x.Returned? && x.ok ==> x.asked <= x.at && BackedAt(t, s, x))
  }

  /** The approval behind a call's answer was stored at most `posTtl` before it. */
  ghost predicate BackedAt(t: Times, s: State, x: Call)
    requires x.Returned?
  {
    exists at :: (x.name, at) in s.approvals && at <= x.at <= at + t.posTtl
  }

  ghost predicate Inv(t: Times, s: State) {
    && |s.verdicts| <= t.cap
    && Spaced(t, s.log) && Remembered(t, s) && Backed(t, s)
    && (forall n :: n in s.lastFail ==> s.lastFail[n] <= s.now)
    && (forall c :: c in s.calls ==> AskedWell(t, s, s.calls[c]))
  }

  // Steps.

  lemma LastStartAppend(log: seq<Log>, l: Log, n: Name)
    ensures LastStart(log + [l], n) == if l.name != n then LastStart(log, n) else if l.Start? then Some(l.at) else None
  {
    assert (log + [l])[..|log|] == log;
  }

  lemma SpacedAppend(t: Times, log: seq<Log>, l: Log)
    requires Spaced(t, log)
    requires l.Start? && LastStart(log, l.name).Some? ==> l.at - LastStart(log, l.name).value >= t.cooldown
    ensures Spaced(t, log + [l])
  {
    var log' := log + [l];
    forall i: nat | i < |log'| && log'[i].Start? && LastStart(log'[..i], log'[i].name).Some?
      ensures log'[i].at - LastStart(log'[..i], log'[i].name).value >= t.cooldown
    {
      if i < |log| { assert log'[..i] == log[..i]; } else { assert log'[..i] == log; }
    }
  }

  lemma FailureKeepsLog(t: Times, s: State, name: Name)
    requires Spaced(t, s.log) && Remembered(t, s)
    ensures Spaced(t, FailureStep(t, s, name).log) && Remembered(t, FailureStep(t, s, name))
  {
    var s' := FailureStep(t, s, name);
    if s'.log != s.log {
      SpacedAppend(t, s.log, Start(name, s.now));
      forall n | LastStart(s'.log, n).Some?
        ensures s'.now - LastStart(s'.log, n).value >= t.cooldown || (n in s'.lastFail && s'.lastFail[n] == LastStart(s'.log, n).value)
      {
        LastStartAppend(s.log, Start(name, s.now), n);
      }
    }
  }

  lemma SuccessKeepsLog(t: Times, s: State, name: Name)
    requires Spaced(t, s.log) && Remembered(t, s)
    ensures var s' := Apply(t, s, RecordSuccess(name)); Spaced(t, s'.log) && Remembered(t, s')
  {
    SpacedAppend(t, s.log, Success(name));
    forall n ensures LastStart(s.log + [Success(name)], n) == if n == name then None else LastStart(s.log, n) {
      LastStartAppend(s.log, Success(name), n);
    }
  }

  lemma StoreKeepsBacked(t: Times, s: State, c: Id, verdicts: Verdicts)
    requires Inv(t, s) && t.cap > 0 && Enabled(t, s, StoreVerdict(c, verdicts))
    ensures var s' := Apply(t, s, StoreVerdict(c, verdicts)); |s'.verdicts| <= t.cap && Backed(t, s')
  {
    var x := s.calls[c];
    StoredFits(s.verdicts, x.name, NewVerdict(t, x.ok, s.now), s.now, t.cap, verdicts);
    BackedStays(t, s, Apply(t, s, StoreVerdict(c, verdicts)), x.name, x.ok);
  }

  /** One new verdict, with its approval on record, keeps everything backed. */
  lemma BackedStays(t: Times, s: State, s': State, name: Name, ok: bool)
    requires Backed(t, s) && s'.now == s.now && s'.lastFail == s.lastFail
    requires s'.approvals == if ok then s.approvals + {(name, s.now)} else s.approvals
    requires name in s'.verdicts && s'.verdicts[name] == NewVerdict(t, ok, s.now)
    requires forall n :: n in s'.verdicts && n != name ==> n in s.verdicts && s'.verdicts[n] == s.verdicts[n]
    ensures Backed(t, s')
  {
    forall n | n in s'.lastFail ensures WasApproved(s', n) { ApprovalStays(s, s', n); }
  }

  lemma ApprovalStays(s: State, s': State, n: Name)
    requires WasApproved(s, n) && s.approvals <= s'.approvals
    ensures WasApproved(s', n)
  {
    var at :| (n, at) in s.approvals;
    assert (n, at) in s'.approvals;
  }

  lemma AskedStays(t: Times, s: State, s': State, x: Call)
    requires AskedWell(t, s, x) && s.now <= s'.now && s.approvals <= s'.approvals
    ensures AskedWell(t, s', x)
  {
    if x.Returned? && x.ok {
      var at :| (x.name, at) in s.approvals && at <= x.at <= at + t.posTtl;
      assert (x.name, at) in s'.approvals;
    }
  }

  lemma StoreKeepsCalls(t: Times, s: State, c: Id, verdicts: Verdicts)
    requires Inv(t, s) && Enabled(t, s, StoreVerdict(c, verdicts))
    ensures var s' := Apply(t, s, StoreVerdict(c, verdicts)); forall k :: k in s'.calls ==> AskedWell(t, s', s'.calls[k])
  {
    var s' := Apply(t, s, StoreVerdict(c, verdicts));
    var x := s.calls[c];
    forall k | k in s'.calls ensures AskedWell(t, s', s'.calls[k]) {
      if k != c { AskedStays(t, s, s', s.calls[k]); } else if x.ok { assert (x.name, s.now) in s'.approvals; }
    }
  }

  lemma LookKeepsCalls(t: Times, s: State, c: Id, name: Name)
    requires Inv(t, s) && Enabled(t, s, Look(c, name))
    ensures var s' := Apply(t, s, Look(c, name)); forall k :: k in s'.calls ==> AskedWell(t, s', s'.calls[k])
  {
    var s' := Apply(t, s, Look(c, name));
    var x := s'.calls[c];
    if x.Returned? && x.ok { assert (name, s.verdicts[name].expires - t.posTtl) in s'.approvals; }
    forall k | k in s'.calls ensures AskedWell(t, s', s'.calls[k]) {
      if k != c { AskedStays(t, s, s', s.calls[k]); }
    }
  }

  lemma FailureKeepsRest(t: Times, s: State, name: Name)
    requires Inv(t, s)
    ensures var s' := FailureStep(t, s, name);
            && Backed(t, s') && (forall n :: n in s'.lastFail ==> s'.lastFail[n] <= s'.now)
            && (forall c :: c in s'.calls ==> AskedWell(t, s', s'.calls[c]))
  {
    var s' := FailureStep(t, s, name);
    forall n | n in s'.lastFail ensures WasApproved(s', n) {
      if n in s.lastFail { ApprovalStays(s, s', n); } else { assert Approved(s.verdicts, n); }
    }
    forall c | c in s'.calls ensures AskedWell(t, s', s'.calls[c]) { AskedStays(t, s, s', s.calls[c]); }
  }

  lemma QuietKeepsInv(t: Times, s: State, e: Event)
    requires Inv(t, s) && Enabled(t, s, e) && (e.Tick? || e.Answer? || e.RecordSuccess?)
    ensures Inv(t, Apply(t, s, e))
  {
    var s' := Apply(t, s, e);
    if e.RecordSuccess? { SuccessKeepsLog(t, s, e.name); }
    forall n | n in s'.lastFail ensures WasApproved(s', n) { ApprovalStays(s, s', n); }
    forall c | c in s'.calls ensures AskedWell(t, s', s'.calls[c]) { AskedStays(t, s, s', s.calls[c]); }
  }

  lemma StepKeepsInv(t: Times, s: State, e: Event)
    requires Inv(t, s) && Enabled(t, s, e) && t.cap > 0
    ensures Inv(t, Apply(t, s, e))
  {
    match e
    case Look(c, name) => LookKeepsCalls(t, s, c, name);
    case StoreVerdict(c, verdicts) =>
      StoreKeepsBacked(t, s, c, verdicts);
      StoreKeepsCalls(t, s, c, verdicts);
    case RecordFailure(name) =>
      FailureKeepsLog(t, s, name);
      FailureKeepsRest(t, s, name);
    case _ => QuietKeepsInv(t, s, e);
  }

  const EMPTY := State(0, map[], map[], map[], {}, [])

  ghost predicate Run(t: Times, states: seq<State>, events: seq<Event>) {
    && |states| == |events| + 1 && states[0] == EMPTY
    && forall i :: 0 <= i < |events| ==> Enabled(t, states[i], events[i]) && states[i + 1] == Apply(t, states[i], events[i])
  }

  /** In every state of every run: the cache is within its cap; every answer that allowed issuance is backed by an
      approval stored at most `posTtl` before it; only names that were approved are in the cooldown map; and
      cooldown starts are spaced. */
  lemma {:induction false} GateHolds(t: Times, states: seq<State>, events: seq<Event>, i: nat)
    requires Run(t, states, events) && i < |states| && t.cap > 0
    ensures Inv(t, states[i])
    ensures |states[i].verdicts| <= t.cap && Spaced(t, states[i].log)
    ensures forall n :: n in states[i].lastFail ==> WasApproved(states[i], n)
    ensures forall c :: c in states[i].calls && states[i].calls[c].Returned? && states[i].calls[c].ok ==>
              BackedAt(t, states[i], states[i].calls[c])
  {
    if i > 0 {
      GateHolds(t, states, events, i - 1);
      StepKeepsInv(t, states[i - 1], events[i - 1]);
    }
  }

  /** A name enters the cooldown map only by a failure recorded while the cache holds an approval of it. */
  lemma EntersApproved(t: Times, s: State, e: Event, n: Name)
    requires Enabled(t, s, e)
    ensures var s' := Apply(t, s, e);
            n in s'.lastFail && !(n in s.lastFail && s'.lastFail[n] == s.lastFail[n]) ==>
              e == RecordFailure(n) && Approved(s.verdicts, n) && !Cooling(t, s.lastFail, n, s.now) && s'.lastFail[n] == s.now
  {
  }

  /** In every run, a name in the cooldown map is there since a failure that was recorded, at the time kept with it, while
      the cache held an approval of it. */
  lemma {:induction false} CoolingWasApproved(t: Times, states: seq<State>, events: seq<Event>, i: nat, n: Name) returns (j: nat)
    requires Run(t, states, events) && i < |states| && n in states[i].lastFail
    ensures j < i && events[j] == RecordFailure(n) && Approved(states[j].verdicts, n) && states[i].lastFail[n] == states[j].now
  {
    assert i > 0;
    assert Enabled(t, states[i - 1], events[i - 1]) && states[i] == Apply(t, states[i - 1], events[i - 1]);
    EntersApproved(t, states[i - 1], events[i - 1], n);
    if n in states[i - 1].lastFail && states[i].lastFail[n] == states[i - 1].lastFail[n] {
      j := CoolingWasApproved(t, states, events, i - 1, n);
    } else {
      j := i - 1;
    }
  }

  // An allowed answer during a cooldown.

  /** Step `k` starts a cooldown of `name`: a failure is recorded for an approved name that is not cooling. */
  ghost predicate Starts(t: Times, states: seq<State>, events: seq<Event>, k: nat, name: Name)
    requires k < |events| && k < |states|
  {
    events[k] == RecordFailure(name) && Approved(states[k].verdicts, name) && !Cooling(t, states[k].lastFail, name, states[k].now)
  }

  /** A success of `name` is recorded at some step in [from, end). */
  ghost predicate Cleared(events: seq<Event>, from: nat, end: nat, name: Name) {
    exists m: nat :: from <= m < end && m < |events| && events[m] == RecordSuccess(name)
  }

  /** Some step in [i, j) started a cooldown that no success cleared and that has not elapsed at time `now`. */
  ghost predicate Started(t: Times, states: seq<State>, events: seq<Event>, i: nat, j: nat, name: Name, now: int) {
    exists k: nat :: i <= k < j && k < |events| && k < |states| && Starts(t, states, events, k, name)
      && !Cleared(events, k + 1, j, name) && now - states[k].now < t.cooldown
  }

  lemma {:induction false} TimeGoesOn(t: Times, states: seq<State>, events: seq<Event>, i: nat, j: nat)
    requires Run(t, states, events) && i <= j < |states|
    ensures states[i].now <= states[j].now
  {
    if i < j {
      TimeGoesOn(t, states, events, i, j - 1);
      assert Enabled(t, states[j - 1], events[j - 1]) && states[j] == Apply(t, states[j - 1], events[j - 1]);
    }
  }

  /** What step `m` does to a cooldown of `name`, as seen from a later time. */
  ghost predicate CooldownFollows(t: Times, states: seq<State>, events: seq<Event>, m: nat, name: Name, now: int)
    requires m < |events| && |states| == |events| + 1
  {
    Cooling(t, states[m + 1].lastFail, name, now) <==>
      || (Cooling(t, states[m].lastFail, name, now) && events[m] != RecordSuccess(name))
      || (Starts(t, states, events, m, name) && now - states[m].now < t.cooldown)
  }

  lemma CooldownStep(t: Times, states: seq<State>, events: seq<Event>, m: nat, name: Name, now: int)
    requires Run(t, states, events) && m < |events| && states[m].now <= now
    ensures CooldownFollows(t, states, events, m, name, now)
  {
    assert Enabled(t, states[m], events[m]) && states[m + 1] == Apply(t, states[m], events[m]);
  }

  /** From a state in which it is not cooling, a name is cooling later exactly when a cooldown started since. */
  lemma {:induction false} CoolingMeansStarted(t: Times, states: seq<State>, events: seq<Event>, i: nat, j: nat, name: Name, now: int)
    requires |states| == |events| + 1 && i <= j < |states| && !Cooling(t, states[i].lastFail, name, now)
    requires forall m: nat :: i <= m < j ==> CooldownFollows(t, states, events, m, name, now)
    ensures Cooling(t, states[j].lastFail, name, now) <==> Started(t, states, events, i, j, name, now)
  {
    if i < j {
      CoolingMeansStarted(t, states, events, i, j - 1, name, now);
      assert CooldownFollows(t, states, events, j - 1, name, now);
      StartedStep(t, states, events, i, j, name, now);
    }
  }

  lemma StartedStep(t: Times, states: seq<State>, events: seq<Event>, i: nat, j: nat, name: Name, now: int)
    requires i < j < |states| && |states| == |events| + 1
    ensures Started(t, states, events, i, j, name, now) <==>
              || (Started(t, states, events, i, j - 1, name, now) && events[j - 1] != RecordSuccess(name))
              || (Starts(t, states, events, j - 1, name) && now - states[j - 1].now < t.cooldown)
  {
    if Started(t, states, events, i, j - 1, name, now) && events[j - 1] != RecordSuccess(name) {
      var k: nat :| i <= k < j - 1 && k < |events| && k < |states| && Starts(t, states, events, k, name)
        && !Cleared(events, k + 1, j - 1, name) && now - states[k].now < t.cooldown;
      assert !Cleared(events, k + 1, j, name);
    }
    if Starts(t, states, events, j - 1, name) && now - states[j - 1].now < t.cooldown {
      assert !Cleared(events, j, j, name);
    }
    if Started(t, states, events, i, j, name, now) {
      var k: nat :| i <= k < j && k < |events| && k < |states| && Starts(t, states, events, k, name)
        && !Cleared(events, k + 1, j, name) && now - states[k].now < t.cooldown;
      if k < j - 1 { assert !Cleared(events, k + 1, j - 1, name); }
    }
  }

  /** The call that looked at step `i` and stores its answer at step `j` answers during a cooldown exactly when, in
      between, the failure of another issuance of that name was recorded, no success after it, less than a
      cooldown ago. */
  lemma AllowedWhileCoolingExactly(t: Times, states: seq<State>, events: seq<Event>, i: nat, j: nat, c: Id, name: Name, verdicts: Verdicts)
    requires Run(t, states, events) && i < j < |events|
    requires events[i] == Look(c, name) && states[i + 1].calls[c].Asking?
    requires events[j] == StoreVerdict(c, verdicts) && states[j].calls[c].name == name
    ensures Cooling(t, states[j].lastFail, name, states[j].now)
       <==> Started(t, states, events, i + 1, j, name, states[j].now)
  {
    TimeGoesOn(t, states, events, i, j);
    assert states[i + 1] == Apply(t, states[i], events[i]);
    assert !Cooling(t, states[i].lastFail, name, states[i].now);
    forall m: nat | i + 1 <= m < j ensures CooldownFollows(t, states, events, m, name, states[j].now) {
      TimeGoesOn(t, states, events, m, j);
      CooldownStep(t, states, events, m, name, states[j].now);
    }
    CoolingMeansStarted(t, states, events, i + 1, j, name, states[j].now);
  }

  /** What a look does, in every state: during a cooldown it refuses; outside of one it answers with the cached verdict
      while that has not expired, approval or denial; and else it asks. */
  lemma LookAnswers(t: Times, s: State, c: Id, name: Name)
    requires Enabled(t, s, Look(c, name))
    ensures var s' := Apply(t, s, Look(c, name));
            var cooling := name in s.lastFail && s.now < s.lastFail[name] + t.cooldown;
            var cached := name in s.verdicts && s.now < s.verdicts[name].expires;
            && s' == s.(calls := s'.calls) && s'.calls.Keys == s.calls.Keys + {c}
            && (cooling ==> s'.calls[c] == Returned(name, s.now, false, s.now, false))
            && (!cooling && cached ==> s'.calls[c] == Returned(name, s.now, s.verdicts[name].value, s.now, false))
            && (!cooling && !cached ==> s'.calls[c] == Asking(name, s.now))
  {
  }

  /** In every run, an approval that was stored is given again to a look that comes within posTTL of it, if no cooldown of
      the name runs, and neither an eviction nor a later answer of the authorizer has replaced it. */
  lemma ApprovalIsUsed(t: Times, states: seq<State>, events: seq<Event>, i: nat, c: Id, name: Name, at: int)
    requires Run(t, states, events) && i < |events| && events[i] == Look(c, name)
    requires name in states[i].verdicts && states[i].verdicts[name] == Entry(true, at + t.posTtl) && states[i].now < at + t.posTtl
    requires !Cooling(t, states[i].lastFail, name, states[i].now)
    ensures states[i + 1].calls[c] == Returned(name, states[i].now, true, states[i].now, false)
  {
    LookAnswers(t, states[i], c, name);
  }

  lemma CachedNeverWhileCooling(t: Times, s: State, c: Id, name: Name)
    requires Enabled(t, s, Look(c, name))
    ensures var x := Apply(t, s, Look(c, name)).calls[c]; x.Returned? && x.ok ==> !Cooling(t, s.lastFail, name, s.now)
  {
  }

  // And it happens: a call asks because the verdict has expired, the failure of an earlier issuance is recorded
  // against that expired verdict, and the call then returns an approval in the middle of the cooldown.

  function FirstVerdict(t: Times, name: Name): Verdicts {
    map[name := NewVerdict(t, true, 0)]
  }

  function SecondVerdict(t: Times, name: Name): Verdicts {
    FirstVerdict(t, name)[name := NewVerdict(t, true, t.posTtl)]
  }

  function Script(t: Times, name: Name): seq<Event> {
    [Look(0, name), Answer(0, true), StoreVerdict(0, FirstVerdict(t, name)), Tick(t.posTtl),
     Look(1, name), RecordFailure(name), Answer(1, true), StoreVerdict(1, SecondVerdict(t, name))]
  }

  /** The first approval, stored at time 0, has just expired. */
  function Expired(t: Times, name: Name): State {
    State(t.posTtl, FirstVerdict(t, name), map[], map[0 := Returned(name, 0, true, 0, true)], {(name, 0)}, [])
  }

  function Scene(t: Times, name: Name): seq<State> {
    var s4 := Expired(t, name);
    var s5 := s4.(calls := s4.calls[1 := Asking(name, t.posTtl)]);
    var s6 := s5.(lastFail := map[name := t.posTtl], log := [Start(name, t.posTtl)]);
    var s7 := s6.(calls := s6.calls[1 := Answered(name, t.posTtl, true)]);
    [EMPTY, EMPTY.(calls := map[0 := Asking(name, 0)]), EMPTY.(calls := map[0 := Answered(name, 0, true)]),
     s4.(now := 0), s4, s5, s6, s7,
     s7.(verdicts := SecondVerdict(t, name), calls := s7.calls[1 := Returned(name, t.posTtl, true, t.posTtl, true)],
         approvals := {(name, 0), (name, t.posTtl)})]
  }

  ghost predicate Follows(t: Times, name: Name, i: nat)
    requires i < 8
  {
    var scene, script := Scene(t, name), Script(t, name);
    Enabled(t, scene[i], script[i]) && scene[i + 1] == Apply(t, scene[i], script[i])
  }

  lemma FirstSteps(t: Times, name: Name)
    ensures Follows(t, name, 0) && Follows(t, name, 1)
  {
  }

  lemma FirstTick(t: Times, name: Name)
    ensures Follows(t, name, 3)
  {
  }

  lemma FirstStore(t: Times, name: Name)
    requires t.cap > 1
    ensures Follows(t, name, 2)
  {
    var none: Verdicts := map[];
    assert FirstVerdict(t, name) == none[name := NewVerdict(t, true, 0)];
    StoreInRoom(t, none, name, 0, FirstVerdict(t, name));
    assert {(name, 0)} == {} + {(name, 0)};
  }

  lemma SecondHalf(t: Times, name: Name)
    requires t.cap > 1
    ensures Follows(t, name, 4) && Follows(t, name, 5) && Follows(t, name, 6)
  {
    assert [] + [Start(name, t.posTtl)] == [Start(name, t.posTtl)];
    assert Running(t, map[], t.posTtl) == map[];
  }

  lemma LastStep(t: Times, name: Name)
    requires t.cap > 1
    ensures Follows(t, name, 7)
  {
    StoreInRoom(t, FirstVerdict(t, name), name, t.posTtl, SecondVerdict(t, name));
    assert {(name, 0), (name, t.posTtl as int)} == {(name, 0)} + {(name, t.posTtl as int)};
  }

  lemma SceneIsRun(t: Times, name: Name)
    requires t.cap > 1
    ensures Run(t, Scene(t, name), Script(t, name))
  {
    FirstSteps(t, name);
    FirstTick(t, name);
    FirstStore(t, name);
    SecondHalf(t, name);
    LastStep(t, name);
    forall i: nat | i < 8 ensures Follows(t, name, i) {}
  }

  lemma AllowedInsideCooldown(t: Times, name: Name)
    requires t.cap > 1 && t.cooldown > 0
    ensures Run(t, Scene(t, name), Script(t, name))
    ensures var s := Scene(t, name)[8];
            1 in s.calls && s.calls[1] == Returned(name, s.now, true, s.now, true) && Cooling(t, s.lastFail, name, s.now)
  {
    SceneIsRun(t, name);
  }

  lemma StoreInRoom(t: Times, m: Verdicts, name: Name, now: int, r: Verdicts)
    requires |m| < t.cap && r == m[name := NewVerdict(t, true, now)]
    ensures Stored(m, name, NewVerdict(t, true, now), now, t.cap, r)
  {
    assert Room(m, now, t.cap, m);
  }

  // The gate itself: its sections under its lock.

  lemma TickAnd(t: Times, s: State, now: int)
    requires Inv(t, s) && now >= s.now && t.cap > 0
    ensures Inv(t, s.(now := now))
  {
    StepKeepsInv(t, s, Tick(now));
  }

  /** What a look leaves of its call: an approval only from the cache, not during a cooldown, and backed. */
  lemma LookMeans(t: Times, s: State, c: Id, name: Name)
    requires Inv(t, s) && c !in s.calls && t.cap > 0
    ensures var s' := Apply(t, s, Look(c, name));
            && Inv(t, s') && c in s'.calls && s'.calls[c].name == name
            && (s'.calls[c].Asking? <==> !Cooling(t, s.lastFail, name, s.now) && Cached(s.verdicts, name, s.now).None?)
            && (s'.calls[c].Returned? && s'.calls[c].ok ==>
                  !Cooling(t, s.lastFail, name, s.now) && exists at :: (name, at) in s.approvals && at <= s.now <= at + t.posTtl)
  {
    StepKeepsInv(t, s, Look(c, name));
    var s' := Apply(t, s, Look(c, name));
    assert AskedWell(t, s', s'.calls[c]);
  }

  /** The cache within its cap, with one new verdict and otherwise nothing it did not hold before. */
  ghost predicate Kept(t: Times, before: Verdicts, after: Verdicts, name: Name, e: Entry<bool>) {
    && |after| <= t.cap && name in after && after[name] == e
    && forall n :: n in after && n != name ==> n in before && after[n] == before[n]
  }

  /** The state after the authorizer's answer was stored at `now`, with what the eviction happened to keep. */
  lemma StoreMeans(t: Times, s: State, now: int, c: Id, ok: bool, verdicts: Verdicts) returns (s': State)
    requires Inv(t, s) && t.cap > 0 && now >= s.now && c in s.calls && s.calls[c].Asking?
    requires Stored(s.verdicts, s.calls[c].name, NewVerdict(t, ok, now), now, t.cap, verdicts)
    ensures Inv(t, s') && s'.verdicts == verdicts && s'.lastFail == s.lastFail && s'.now == now && s'.log == s.log
    ensures s'.calls == s.calls[c := Returned(s.calls[c].name, s.calls[c].asked, ok, now, true)]
    ensures s'.approvals == if ok then s.approvals + {(s.calls[c].name, now)} else s.approvals
    ensures Kept(t, s.verdicts, verdicts, s.calls[c].name, NewVerdict(t, ok, now))
  {
    TickAnd(t, s, now);
    StoredFits(s.verdicts, s.calls[c].name, NewVerdict(t, ok, now), now, t.cap, verdicts);
    var b := s.(now := now);
    var a := Apply(t, b, Answer(c, ok));
    StepKeepsInv(t, b, Answer(c, ok));
    StepKeepsInv(t, a, StoreVerdict(c, verdicts));
    s' := Apply(t, a, StoreVerdict(c, verdicts));
  }

  lemma FailureMeans(t: Times, s: State, name: Name)
    requires Inv(t, s) && t.cap > 0
    ensures Inv(t, FailureStep(t, s, name))
    ensures Cooling(t, FailureStep(t, s, name).lastFail, name, s.now) <==>
              Cooling(t, s.lastFail, name, s.now) || (Approved(s.verdicts, name) && t.cooldown > 0)
    ensures Approved(s.verdicts, name) ==> exists at :: (name, at) in s.approvals && at <= s.now
  {
    StepKeepsInv(t, s, Event.RecordFailure(name));
    if Approved(s.verdicts, name) { assert (name, s.verdicts[name].expires - t.posTtl) in s.approvals; }
  }

  /** The object and, as history, the gate with the calls in progress. Every section keeps Valid() from any valid state,
      so calls interleave freely. */
  class DecisionGate {
    const t: Times
    var verdicts: Verdicts
    var lastFail: map<Name, int>
    ghost var s: State

    /** The maps are the gate's, and the gate is in a state some run reaches. */
    ghost predicate Valid()
      reads this
    {
      verdicts == s.verdicts && lastFail == s.lastFail && t.cap > 0 && Inv(t, s)
    }

    constructor (times: Times)
      requires times.cap > 0
      ensures Valid() && t == times && s == EMPTY
    {
      t, verdicts, lastFail, s := times, map[], map[], EMPTY;
    }

    /** The first section of Decide. An approval is backed by one stored at most posTTL ago, and is not given during a
        cooldown; None means to ask the authorizer. */
    method LookUp(c: Id, name: Name, now: int) returns (r: Option<bool>)
      requires Valid() && now >= s.now && c !in s.calls
      modifies this`s
      ensures Valid() && s.now == now && c in s.calls && s.approvals == old(s.approvals)
      ensures r == Some(true) ==>
                !Cooling(t, lastFail, name, now) && exists at :: (name, at) in s.approvals && at <= now <= at + t.posTtl
      ensures r == None <==> s.calls[c].Asking?
      ensures r.Some? ==> s.calls[c] == Returned(name, now, r.value, now, false)
      ensures name in lastFail && now - lastFail[name] < t.cooldown ==> r == Some(false)
      ensures !(name in lastFail && now - lastFail[name] < t.cooldown) && name in verdicts && now < verdicts[name].expires ==>
                r == Some(verdicts[name].value)
    {
      TickAnd(t, s, now);
      s := s.(now := now);
      LookMeans(t, s, c, name);
      s := Apply(t, s, Look(c, name));
      if name in lastFail && now - lastFail[name] < t.cooldown { return Some(false); }
      if name in verdicts && now < verdicts[name].expires { return Some(verdicts[name].value); }
      return None;
    }

    /** The second section of Decide, when the authorizer has answered: the cache stays within its cap, made room if it
        was full, and an approval is on record from now. */
    method Remember(c: Id, name: Name, ok: bool, now: int)
      requires Valid() && now >= s.now && c in s.calls && s.calls[c].Asking? && s.calls[c].name == name
      modifies this`verdicts, this`s
      ensures Valid() && Kept(t, old(verdicts), verdicts, name, Entry(ok, now + if ok then t.posTtl else t.negTtl))
      ensures ok ==> (name, now) in s.approvals
    {
      var kept := Store(verdicts, name, NewVerdict(t, ok, now), now, t.cap);
      ghost var after := StoreMeans(t, s, now, c, ok, kept);
      verdicts, s := kept, after;
    }

    /** A failed issuance: afterwards the name is cooling exactly if it was, or was approved; a running cooldown is not
        extended, and no other one is forgotten before it elapsed. */
    method RecordFailure(name: Name, now: int)
      requires Valid() && now >= s.now
      modifies this`lastFail, this`s
      ensures Valid() && s.now == now
      ensures Cooling(t, lastFail, name, now) <==> old(Cooling(t, lastFail, name, now)) || (Approved(verdicts, name) && t.cooldown > 0)
      ensures old(Cooling(t, lastFail, name, now)) ==> lastFail == old(lastFail)
      ensures forall n :: n != name && Cooling(t, old(lastFail), n, now) ==> n in lastFail && lastFail[n] == old(lastFail)[n]
    {
      TickAnd(t, s, now);
      s := s.(now := now);
      FailureMeans(t, s, name);
      s := FailureStep(t, s, name);
      if name !in verdicts || !verdicts[name].value { return; }
      if name in lastFail && now - lastFail[name] < t.cooldown { return; }
      Sweep(now);
      lastFail := lastFail[name := now];
    }

    /** Forgets the cooldowns that have elapsed. */
    method Sweep(now: int)
      modifies this`lastFail
      ensures lastFail == Running(t, old(lastFail), now)
    {
      var todo := lastFail.Keys;
      ghost var before := lastFail;
      while todo != {}
        invariant todo <= before.Keys
        invariant forall n :: n in lastFail <==> n in before && (n in todo || now - before[n] < t.cooldown)
        invariant forall n :: n in lastFail ==> lastFail[n] == before[n]
        decreases |todo|
      {
        var n :| n in todo;
        if now - lastFail[n] >= t.cooldown { lastFail := lastFail - {n}; }
        todo := todo - {n};
      }
    }

    /** A success ends the cooldown. */
    method RecordSuccess(name: Name)
      requires Valid()
      modifies this`lastFail, this`s
      ensures Valid() && name !in lastFail && forall n :: n != name && n in old(lastFail) ==> n in lastFail && lastFail[n] == old(lastFail)[n]
    {
      StepKeepsInv(t, s, Event.RecordSuccess(name));
      s := Apply(t, s, Event.RecordSuccess(name));
      lastFail := lastFail - {name};
    }
  }
}
