/** The request-log pipeline: the sink that appends, repairs and rotates the log, and the shipper that
    follows it, as one machine whose steps interleave freely.

    A step is one file operation, one post or one cursor save. The assumptions are the code's own:
    inodes are never 0 and never reused, nobody else edits the files, and one batch is read from one
    snapshot of the file. */
module Pipeline {
  import opened Options
  import opened Lines
  import opened Shipping
  import RepairTail

  /** Which file a drain loop reads. */
  datatype Target = Rotated | Live

  /** Lines read but not yet answered for, and the offset after them. */
  datatype Pending = Pending(lines: seq<Bytes>, end: nat)

  /** Where the shipper stands inside one drain. `ino` is the inode of the live file it sampled first. */
  datatype Pc =
    | Idle
    | LookOld(ino: nat)
    | Ship(target: Target, ino: nat, at: Cursor, own: bool, pending: Option<Pending>)
    | RemoveOld(ino: nat)
    | Adopt(ino: nat)

  /** `gens` lists every log file ever created, oldest first; `live` and `rotated` say which of them
      `<path>` and `<path>.1` name. `saved` holds every cursor ever persisted. `blip` records that the
      shipper's stat of an existing `<path>.1` has failed. */
  datatype State = State(
    gens: seq<LogFile>, live: Option<nat>, rotated: Option<nat>,
    cur: Cursor, pc: Pc, saved: set<Cursor>, accepted: set<Bytes>, blip: bool)

  datatype Answer = Accepted | ReplyLost | Rejected

  datatype Event =
    | Append(bytes: Bytes)
    | Repair
    | Rotate(statOk: bool)      // whether the sink's look for `<path>.1` tells the truth
    | Create(inode: nat)
    | Crash(from: Cursor)
    | Tick
    | StatOld(ok: bool)
    | ReadOk(max: nat)
    | ReadFails
    | Post(answer: Answer, saveOk: bool)
    | Remove(ok: bool)
    | AdoptLive(saveOk: bool)

  ghost predicate Enabled(s: State, e: Event) {
    match e
    case Append(_) => s.live.Some? && s.live.value < |s.gens|
    case Repair => s.live.Some? && s.live.value < |s.gens|
    // a failed stat counts as "no such file"
    case Rotate(statOk) => s.live.Some? && (statOk ==> s.rotated.None?)
    case Create(inode) => s.live.None? && inode != 0 && forall f :: f in s.gens ==> f.inode != inode
    case Crash(from) => from == NO_CURSOR || from in s.saved
    case Tick => s.pc.Idle? && (s.live.Some? ==> s.live.value < |s.gens|)
    case StatOld(ok) => s.pc.LookOld? && (s.rotated.Some? ==> s.rotated.value < |s.gens|)
    case ReadOk(max) => s.pc.Ship? && s.pc.pending.None? && max > 0
    case ReadFails => s.pc.Ship? && s.pc.pending.None?
    case Post(_, _) => s.pc.Ship? && s.pc.pending.Some?
    case Remove(_) => s.pc.RemoveOld?
    case AdoptLive(_) => s.pc.Adopt?
  }

  function FileOf(s: State, i: Option<nat>): Option<LogFile> {
    if i.Some? && i.value < |s.gens| then Some(s.gens[i.value]) else None
  }

  function WithBytes(s: State, i: nat, bytes: Bytes): State
    requires i < |s.gens|
  {
    s.(gens := s.gens[i := s.gens[i].(bytes := bytes)])
  }

  function Save(s: State, c: Cursor, ok: bool): State {
    if ok then s.(saved := s.saved + {c}) else s
  }

  /** The drain loop has nothing more to read: on to the removal, or done. */
  function FileDone(s: State): State
    requires s.pc.Ship?
  {
    s.(pc := if s.pc.target == Rotated then RemoveOld(s.pc.ino) else Idle)
  }

  function MoveTo(s: State, at: Cursor): State
    requires s.pc.Ship?
  {
    s.(pc := s.pc.(at := at, pending := None), cur := if s.pc.own then at else s.cur)
  }

  function ReadStep(s: State, max: nat): State
    requires s.pc.Ship?
  {
    var file := FileOf(s, if s.pc.target == Rotated then s.rotated else s.live);
    var at := s.pc.at;
    if file.None? then FileDone(s)
    else if !Tracks(at, file.value) then s.(pc := Idle)
    else
      var bytes := file.value.bytes;
      if at.offset > |bytes| then Save(MoveTo(s, at.(offset := 0)), at.(offset := 0), true)
      else
        var end := BatchEnd(bytes, at.offset, max);
        if end == at.offset then FileDone(s)
        else s.(pc := s.pc.(pending := Some(Pending(LinesBetween(bytes, at.offset, end), end))))
  }

  function PostStep(s: State, answer: Answer, saveOk: bool, valid: Bytes -> bool): State
    requires s.pc.Ship? && s.pc.pending.Some?
  {
    var good := Keep(s.pc.pending.value.lines, valid);
    var at := s.pc.at.(offset := s.pc.pending.value.end);
    var taken := if good == [] || answer == Rejected then s
                 else s.(accepted := s.accepted + set l | l in good);
    if good == [] || answer == Accepted then Save(MoveTo(taken, at), at, saveOk)
    else taken.(pc := Idle)
  }

  function StatStep(s: State, ok: bool): State
    requires s.pc.LookOld? && (s.rotated.Some? ==> s.rotated.value < |s.gens|)
  {
    var ino := s.pc.ino;
    if s.rotated.None? then s.(pc := Adopt(ino))
    else if !ok then s.(pc := Adopt(ino), blip := true)
    else
      var old' := s.gens[s.rotated.value].inode;
      var own := old' == s.cur.inode;
      s.(pc := Ship(Rotated, ino, if own then s.cur else Cursor(old', 0), own, None))
  }

  function Apply(s: State, e: Event, valid: Bytes -> bool): State
    requires Enabled(s, e)
  {
    match e
    case Append(bytes) => WithBytes(s, s.live.value, s.gens[s.live.value].bytes + bytes)
    case Repair =>
      var bytes := s.gens[s.live.value].bytes;
      WithBytes(s, s.live.value, bytes[..CompletePart(bytes)])
    case Rotate(_) => s.(rotated := s.live, live := None)
    case Create(inode) => s.(gens := s.gens + [LogFile(inode, [])], live := Some(|s.gens|))
    case Crash(from) => s.(pc := Idle, cur := from)
    case Tick =>
      if s.live.None? then s
      else
        var ino := s.gens[s.live.value].inode;
        s.(pc := if s.cur.inode == ino then Ship(Live, ino, s.cur, true, None) else LookOld(ino))
    case StatOld(ok) => StatStep(s, ok)
    case ReadOk(max) => ReadStep(s, max)
    case ReadFails => s.(pc := Idle)
    case Post(answer, saveOk) => PostStep(s, answer, saveOk, valid)
    case Remove(ok) => s.(pc := Adopt(s.pc.ino), rotated := if ok then None else s.rotated)
    case AdoptLive(saveOk) =>
      var c := Cursor(s.pc.ino, 0);
      Save(s.(cur := c, pc := Ship(Live, s.pc.ino, c, true, None)), c, saveOk)
  }

  /** A start: whatever the disk holds is still named, nothing was ever shipped or saved. */
  ghost predicate Init(s: State) {
    && Layout(s)
    && (forall g :: 0 <= g < |s.gens| ==> Present(s, g))
    && s.cur == NO_CURSOR && s.pc == Idle && s.saved == {} && s.accepted == {} && !s.blip
  }

  // What is promised.

  predicate Worth(line: Bytes, valid: Bytes -> bool) {
    line != [] && valid(line)
  }

  predicate Present(s: State, g: nat) {
    s.live == Some(g) || s.rotated == Some(g)
  }

  /** Every valid complete line of `f` that ends at or before `upTo` was accepted. */
  ghost predicate Taken(f: LogFile, upTo: nat, accepted: set<Bytes>, valid: Bytes -> bool) {
    forall e: nat :: IsLineEnd(f.bytes, e) && e <= upTo && Worth(LineAt(f.bytes, e), valid)
                     ==> LineAt(f.bytes, e) in accepted
  }

  /** The line ending at `e` of generation `g` lies after the cursor. */
  ghost predicate After(s: State, c: Cursor, g: nat, e: nat) {
    c.inode == 0 ||
    forall k :: 0 <= k < |s.gens| && s.gens[k].inode == c.inode ==> k < g || (k == g && c.offset < e)
  }

  /** Every valid complete line that reached disk is accepted, or still on disk. */
  ghost predicate OnDisk(s: State, valid: Bytes -> bool) {
    forall g, e: nat :: 0 <= g < |s.gens| && IsLineEnd(s.gens[g].bytes, e) && Worth(LineAt(s.gens[g].bytes, e), valid)
      ==> LineAt(s.gens[g].bytes, e) in s.accepted || Present(s, g)
  }

  /** Every valid complete line that reached disk is accepted, or still on disk after the cursor. */
  ghost predicate Lossless(s: State, valid: Bytes -> bool) {
    forall g, e: nat :: 0 <= g < |s.gens| && IsLineEnd(s.gens[g].bytes, e) && Worth(LineAt(s.gens[g].bytes, e), valid)
      ==> LineAt(s.gens[g].bytes, e) in s.accepted || (Present(s, g) && After(s, s.cur, g, e))
  }

  // The invariant.

  ghost predicate Layout(s: State) {
    && (forall g :: 0 <= g < |s.gens| ==> s.gens[g].inode != 0)
    && (forall g, h :: 0 <= g < h < |s.gens| ==> s.gens[g].inode != s.gens[h].inode)
    && (s.live.Some? ==> s.live.value + 1 == |s.gens|)
    && (s.rotated.Some? ==> s.rotated.value + (if s.live.Some? then 2 else 1) == |s.gens|)
  }

  ghost predicate Known(s: State, inode: nat) {
    exists k :: 0 <= k < |s.gens| && s.gens[k].inode == inode
  }

  /** A cursor sits on a line boundary of its file, and what lies before it there was accepted. */
  ghost predicate Sound(s: State, c: Cursor, valid: Bytes -> bool) {
    if c.inode == 0 then c.offset == 0
    else
      && Known(s, c.inode)
      && forall k :: 0 <= k < |s.gens| && s.gens[k].inode == c.inode ==>
           AtBoundary(s.gens[k].bytes, c.offset) && Taken(s.gens[k], c.offset, s.accepted, valid)
  }

  ghost predicate AllTaken(s: State, g: nat, valid: Bytes -> bool)
    requires g < |s.gens|
  {
    Taken(s.gens[g], |s.gens[g].bytes|, s.accepted, valid)
  }

  /** Every generation older than the one with this inode was accepted in full. */
  ghost predicate OlderTaken(s: State, inode: nat, valid: Bytes -> bool) {
    forall k, h :: 0 <= h < k < |s.gens| && s.gens[k].inode == inode ==> AllTaken(s, h, valid)
  }

  ghost predicate GoneTaken(s: State, valid: Bytes -> bool) {
    forall g :: 0 <= g < |s.gens| && !Present(s, g) ==> AllTaken(s, g, valid)
  }

  ghost predicate PendingSound(s: State, at: Cursor, p: Pending) {
    forall k :: 0 <= k < |s.gens| && s.gens[k].inode == at.inode ==>
      && IsLineEnd(s.gens[k].bytes, p.end)
      && forall e: nat :: at.offset < e <= p.end && IsLineEnd(s.gens[k].bytes, e) && LineAt(s.gens[k].bytes, e) != []
           ==> LineAt(s.gens[k].bytes, e) in p.lines
  }

  ghost predicate PcSound(s: State, valid: Bytes -> bool) {
    match s.pc
    case Idle => true
    case LookOld(ino) => Known(s, ino)
    case Ship(target, ino, at, own, pending) =>
      && Sound(s, at, valid) && at.inode != 0
      && (own ==> at == s.cur)
      && (target == Live ==> own)
      && (target == Rotated ==> Known(s, ino) && s.rotated.Some?)
      && (pending.Some? ==> PendingSound(s, at, pending.value))
    case RemoveOld(ino) => Known(s, ino) && s.rotated.Some? && s.rotated.value < |s.gens| && AllTaken(s, s.rotated.value, valid)
    case Adopt(ino) => Known(s, ino) && ino != 0
  }

  ghost predicate Base(s: State, valid: Bytes -> bool) {
    && Layout(s)
    && GoneTaken(s, valid)
    && Sound(s, s.cur, valid)
    && (forall c :: c in s.saved ==> Sound(s, c, valid))
    && PcSound(s, valid)
  }

  /** No cursor has passed an unshipped file. It holds while no stat of `<path>.1` fails. */
  ghost predicate Ordered(s: State, valid: Bytes -> bool) {
    && OlderTaken(s, s.cur.inode, valid)
    && (forall c :: c in s.saved ==> OlderTaken(s, c.inode, valid))
    && PcOrdered(s, valid)
  }

  ghost predicate PcOrdered(s: State, valid: Bytes -> bool) {
    && (s.pc.Adopt? ==> OlderTaken(s, s.pc.ino, valid))
    && (s.pc.Ship? ==> OlderTaken(s, s.pc.at.inode, valid))
  }

  ghost predicate Inv(s: State, valid: Bytes -> bool) {
    Base(s, valid) && (s.blip || Ordered(s, valid))
  }

  // Every step keeps the invariant.

  /** `b` holds every complete line `a` holds, in place. */
  ghost predicate KeepsLines(a: Bytes, b: Bytes) {
    CompletePart(a) <= |b| && a[..CompletePart(a)] == b[..CompletePart(a)]
  }

  lemma KeptLines(a: Bytes, b: Bytes, e: nat)
    requires KeepsLines(a, b)
    requires IsLineEnd(a, e) || (e <= CompletePart(a) && IsLineEnd(b, e))
    ensures IsLineEnd(a, e) && IsLineEnd(b, e) && LineAt(a, e) == LineAt(b, e)
  {
    var c := CompletePart(a);
    assert e <= c;
    assert a[..c][..e] == a[..e] && b[..c][..e] == b[..e];
    if IsLineEnd(a, e) { LineInPrefix(a, b, e); } else { LineInPrefix(b, a, e); }
  }

  lemma TakenStays(f: LogFile, b: Bytes, upTo: nat, accepted: set<Bytes>, valid: Bytes -> bool)
    requires KeepsLines(f.bytes, b) && AtBoundary(f.bytes, upTo) && Taken(f, upTo, accepted, valid)
    ensures AtBoundary(b, upTo) && Taken(f.(bytes := b), upTo, accepted, valid)
  {
    if upTo != 0 { KeptLines(f.bytes, b, upTo); }
    forall e: nat | IsLineEnd(b, e) && e <= upTo && Worth(LineAt(b, e), valid)
      ensures LineAt(b, e) in accepted
    {
      assert upTo <= CompletePart(f.bytes);
      KeptLines(f.bytes, b, e);
    }
  }

  /** A write to the live file that keeps its complete lines. */
  ghost predicate Writes(s: State, s': State, bytes: Bytes) {
    && s.live.Some? && s.live.value < |s.gens|
    && KeepsLines(s.gens[s.live.value].bytes, bytes)
    && s' == WithBytes(s, s.live.value, bytes)
  }

  lemma WriteKeepsSound(s: State, s': State, bytes: Bytes, c: Cursor, valid: Bytes -> bool)
    requires Writes(s, s', bytes) && Sound(s, c, valid)
    ensures Sound(s', c, valid)
  {
    if c.inode != 0 {
      var k :| 0 <= k < |s.gens| && s.gens[k].inode == c.inode;
      assert s'.gens[k].inode == c.inode;
      forall k | 0 <= k < |s'.gens| && s'.gens[k].inode == c.inode
        ensures AtBoundary(s'.gens[k].bytes, c.offset) && Taken(s'.gens[k], c.offset, s'.accepted, valid)
      {
        assert s.gens[k].inode == c.inode;
        if k == s.live.value { TakenStays(s.gens[k], bytes, c.offset, s.accepted, valid); }
      }
    }
  }

  lemma WriteKeepsOlder(s: State, s': State, bytes: Bytes, inode: nat, valid: Bytes -> bool)
    requires Writes(s, s', bytes) && Layout(s) && OlderTaken(s, inode, valid)
    ensures OlderTaken(s', inode, valid)
  {
    forall k, h | 0 <= h < k < |s'.gens| && s'.gens[k].inode == inode
      ensures AllTaken(s', h, valid)
    {
      assert s.gens[k].inode == inode;
      assert AllTaken(s, h, valid);
    }
  }

  lemma WriteKeepsPending(s: State, s': State, bytes: Bytes, at: Cursor, p: Pending)
    requires Writes(s, s', bytes) && PendingSound(s, at, p)
    ensures PendingSound(s', at, p)
  {
    forall k | 0 <= k < |s'.gens| && s'.gens[k].inode == at.inode
      ensures IsLineEnd(s'.gens[k].bytes, p.end)
      ensures forall e: nat :: at.offset < e <= p.end && IsLineEnd(s'.gens[k].bytes, e) && LineAt(s'.gens[k].bytes, e) != []
                ==> LineAt(s'.gens[k].bytes, e) in p.lines
    {
      assert s.gens[k].inode == at.inode;
      if k == s.live.value {
        var a := s.gens[k].bytes;
        KeptLines(a, bytes, p.end);
        forall e: nat | at.offset < e <= p.end && IsLineEnd(bytes, e) && LineAt(bytes, e) != []
          ensures LineAt(bytes, e) in p.lines
        {
          KeptLines(a, bytes, e);
        }
      }
    }
  }

  lemma WriteKeepsKnown(s: State, s': State, bytes: Bytes, ino: nat)
    requires Writes(s, s', bytes) && Known(s, ino)
    ensures Known(s', ino)
  {
    var k :| 0 <= k < |s.gens| && s.gens[k].inode == ino;
    assert s'.gens[k].inode == ino;
  }

  lemma WriteKeepsBase(s: State, s': State, bytes: Bytes, valid: Bytes -> bool)
    requires Writes(s, s', bytes) && Base(s, valid)
    ensures Base(s', valid)
  {
    WriteKeepsSound(s, s', bytes, s.cur, valid);
    forall c | c in s'.saved ensures Sound(s', c, valid) { WriteKeepsSound(s, s', bytes, c, valid); }
    forall g | 0 <= g < |s'.gens| && !Present(s', g) ensures AllTaken(s', g, valid) {
      assert AllTaken(s, g, valid);
    }
    match s.pc
    case Idle =>
    case Ship(target, ino, at, own, pending) =>
      WriteKeepsSound(s, s', bytes, at, valid);
      if target == Rotated { WriteKeepsKnown(s, s', bytes, ino); }
      if pending.Some? { WriteKeepsPending(s, s', bytes, at, pending.value); }
    case LookOld(ino) => WriteKeepsKnown(s, s', bytes, ino);
    case RemoveOld(ino) => WriteKeepsKnown(s, s', bytes, ino);
    case Adopt(ino) => WriteKeepsKnown(s, s', bytes, ino);
  }

  lemma WriteKeepsInv(s: State, s': State, bytes: Bytes, valid: Bytes -> bool)
    requires Writes(s, s', bytes) && Inv(s, valid)
    ensures Inv(s', valid)
  {
    WriteKeepsBase(s, s', bytes, valid);
    if !s.blip {
      WriteKeepsOlder(s, s', bytes, s.cur.inode, valid);
      forall c | c in s'.saved ensures OlderTaken(s', c.inode, valid) {
        WriteKeepsOlder(s, s', bytes, c.inode, valid);
      }
      if s.pc.Adopt? { WriteKeepsOlder(s, s', bytes, s.pc.ino, valid); }
      if s.pc.Ship? { WriteKeepsOlder(s, s', bytes, s.pc.at.inode, valid); }
    }
  }

  /** Facts about files stay while the files stay and more lines are accepted. */
  lemma FactsStay(s: State, s': State, valid: Bytes -> bool)
    requires s'.gens == s.gens && s.accepted <= s'.accepted
    ensures forall g: nat :: g < |s.gens| && AllTaken(s, g, valid) ==> AllTaken(s', g, valid)
    ensures forall c :: Sound(s, c, valid) ==> Sound(s', c, valid)
    ensures forall i: nat :: OlderTaken(s, i, valid) ==> OlderTaken(s', i, valid)
    ensures forall i: nat :: Known(s, i) ==> Known(s', i)
  {
    forall c | Sound(s, c, valid) ensures Sound(s', c, valid) {
      if c.inode != 0 {
        forall k | 0 <= k < |s.gens| && s.gens[k].inode == c.inode
          ensures AtBoundary(s'.gens[k].bytes, c.offset) && Taken(s'.gens[k], c.offset, s'.accepted, valid)
        {
          assert Taken(s.gens[k], c.offset, s.accepted, valid);
        }
      }
    }
    forall i: nat | OlderTaken(s, i, valid) ensures OlderTaken(s', i, valid) {
      forall k, h | 0 <= h < k < |s'.gens| && s'.gens[k].inode == i ensures AllTaken(s', h, valid) {
        assert AllTaken(s, h, valid);
      }
    }
  }

  /** What a step that leaves the files in place has to show: the one new cursor `c` and the new pc. */
  lemma Reassemble(s: State, s': State, c: Cursor, valid: Bytes -> bool)
    requires Inv(s, valid)
    requires s'.gens == s.gens && s'.live == s.live && s'.rotated == s.rotated
    requires s.accepted <= s'.accepted && (s.blip ==> s'.blip)
    requires s'.saved <= s.saved + {c} && s'.cur in {s.cur, c}
    requires Sound(s', c, valid) && PcSound(s', valid)
    requires s'.blip || (OlderTaken(s', c.inode, valid) && PcOrdered(s', valid))
    ensures Inv(s', valid)
  {
    FactsStay(s, s', valid);
    forall g | 0 <= g < |s'.gens| && !Present(s', g) ensures AllTaken(s', g, valid) {
      assert AllTaken(s, g, valid);
    }
  }

  lemma SinkKeepsInv(s: State, e: Event, valid: Bytes -> bool)
    requires Inv(s, valid) && Enabled(s, e) && (e.Append? || e.Repair?)
    ensures Inv(Apply(s, e, valid), valid)
  {
    var s' := Apply(s, e, valid);
    var a := s.gens[s.live.value].bytes;
    match e
    case Append(bytes) =>
      assert (a + bytes)[..CompletePart(a)] == a[..CompletePart(a)];
      WriteKeepsInv(s, s', a + bytes, valid);
    case Repair =>
      WriteKeepsInv(s, s', a[..CompletePart(a)], valid);
  }

  /** A rename of the sink that does no harm, now or later: over no file, or over one accepted in full; and when the
      shipper is about to remove the file it has finished, the live file, which the removal then takes, was
      accepted in full, too. */
  ghost predicate Harmless(s: State, valid: Bytes -> bool)
    requires s.rotated.Some? ==> s.rotated.value < |s.gens|
    requires s.live.Some? ==> s.live.value < |s.gens|
  {
    s.rotated.Some? ==>
      AllTaken(s, s.rotated.value, valid) && (s.pc.RemoveOld? && s.live.Some? ==> AllTaken(s, s.live.value, valid))
  }

  lemma RotateKeepsInv(s: State, statOk: bool, valid: Bytes -> bool)
    requires Inv(s, valid) && Enabled(s, Rotate(statOk)) && Harmless(s, valid)
    ensures Inv(Apply(s, Rotate(statOk), valid), valid)
  {
    var s' := Apply(s, Rotate(statOk), valid);
    FactsStay(s, s', valid);
    forall g | 0 <= g < |s'.gens| && !Present(s', g) ensures AllTaken(s', g, valid) {
      assert AllTaken(s, g, valid);
    }
    RotateKeepsPc(s, statOk, valid);
  }

  lemma RotateKeepsPc(s: State, statOk: bool, valid: Bytes -> bool)
    requires Base(s, valid) && Enabled(s, Rotate(statOk)) && Harmless(s, valid)
    ensures PcSound(Apply(s, Rotate(statOk), valid), valid)
  {
    var s' := Apply(s, Rotate(statOk), valid);
    FactsStay(s, s', valid);
    if s.pc.Ship? && s.pc.pending.Some? { assert PendingSound(s', s.pc.at, s.pc.pending.value); }
  }

  /** A new generation is empty and its inode is new, so it changes nothing about the older ones. */
  lemma CreateKeepsFacts(s: State, inode: nat, valid: Bytes -> bool)
    requires Layout(s) && Enabled(s, Create(inode))
    ensures var s' := Apply(s, Create(inode), valid);
            && (forall g :: 0 <= g < |s.gens| ==> s'.gens[g] == s.gens[g])
            && (forall i: nat :: Known(s, i) ==> Known(s', i) && i != inode)
            && (forall c :: Sound(s, c, valid) ==> Sound(s', c, valid))
            && (forall i: nat :: i != inode && OlderTaken(s, i, valid) ==> OlderTaken(s', i, valid))
  {
    var s' := Apply(s, Create(inode), valid);
    assert forall g :: 0 <= g < |s.gens| ==> s'.gens[g] == s.gens[g];
    forall i: nat | Known(s, i) ensures Known(s', i) && i != inode {
      var k :| 0 <= k < |s.gens| && s.gens[k].inode == i;
      assert s.gens[k] in s.gens;
      assert s'.gens[k].inode == i;
    }
    forall i: nat | i != inode && OlderTaken(s, i, valid) ensures OlderTaken(s', i, valid) {
      forall k, h | 0 <= h < k < |s'.gens| && s'.gens[k].inode == i ensures AllTaken(s', h, valid) {
        assert k < |s.gens|;
        assert AllTaken(s, h, valid);
      }
    }
  }

  lemma CreateKeepsInv(s: State, inode: nat, valid: Bytes -> bool)
    requires Inv(s, valid) && Enabled(s, Create(inode))
    ensures Inv(Apply(s, Create(inode), valid), valid)
  {
    var s' := Apply(s, Create(inode), valid);
    CreateKeepsFacts(s, inode, valid);
    CreateKeepsPc(s, inode, valid);
    forall g | 0 <= g < |s'.gens| && !Present(s', g) ensures AllTaken(s', g, valid) {
      assert AllTaken(s, g, valid);
    }
  }

  lemma CreateKeepsPc(s: State, inode: nat, valid: Bytes -> bool)
    requires Base(s, valid) && Enabled(s, Create(inode))
    requires forall i: nat :: Known(s, i) ==> Known(Apply(s, Create(inode), valid), i) && i != inode
    requires forall c :: Sound(s, c, valid) ==> Sound(Apply(s, Create(inode), valid), c, valid)
    ensures PcSound(Apply(s, Create(inode), valid), valid)
  {
    var s' := Apply(s, Create(inode), valid);
    assert forall g :: 0 <= g < |s.gens| ==> s'.gens[g] == s.gens[g];
    if s.pc.RemoveOld? && s.rotated.Some? {
      assert AllTaken(s, s.rotated.value, valid);
    }
  }

  /** The shipper steps that only look. */
  lemma LookKeepsInv(s: State, e: Event, valid: Bytes -> bool)
    requires Inv(s, valid) && Enabled(s, e)
    requires e.Crash? || e.Tick? || e.ReadFails?
    ensures Inv(Apply(s, e, valid), valid)
  {
    var s' := Apply(s, e, valid);
    FactsStay(s, s', valid);
    if e.Tick? && s.live.Some? {
      assert s.gens[s.live.value].inode != 0;
      assert Known(s', s.gens[s.live.value].inode);
    }
    Reassemble(s, s', s'.cur, valid);
  }

  lemma StatKeepsInv(s: State, ok: bool, valid: Bytes -> bool)
    requires Inv(s, valid) && Enabled(s, StatOld(ok))
    ensures Inv(Apply(s, StatOld(ok), valid), valid)
  {
    var s' := Apply(s, StatOld(ok), valid);
    FactsStay(s, s', valid);
    StatKeepsPc(s, ok, valid);
    Reassemble(s, s', s.cur, valid);
  }

  lemma StatKeepsPc(s: State, ok: bool, valid: Bytes -> bool)
    requires Inv(s, valid) && Enabled(s, StatOld(ok))
    ensures var s' := Apply(s, StatOld(ok), valid); PcSound(s', valid) && (s'.blip || PcOrdered(s', valid))
  {
    var s' := Apply(s, StatOld(ok), valid);
    FactsStay(s, s', valid);
    var k :| 0 <= k < |s.gens| && s.gens[k].inode == s.pc.ino;
    assert s.gens[k].inode != 0;
    if s.rotated.None? {
      GoneMeansOlderTaken(s, s.pc.ino, valid);
    } else if ok {
      StartingOldIsSound(s, valid);
    }
  }

  /** With no `<path>.1`, everything older than a file that was live is gone, hence accepted. */
  lemma GoneMeansOlderTaken(s: State, ino: nat, valid: Bytes -> bool)
    requires Layout(s) && GoneTaken(s, valid) && Known(s, ino)
    requires s.rotated.Some? ==> AllTaken(s, s.rotated.value, valid)
    ensures OlderTaken(s, ino, valid)
  {
    forall k, h | 0 <= h < k < |s.gens| && s.gens[k].inode == ino ensures AllTaken(s, h, valid) {
      if Present(s, h) { assert s.rotated == Some(h); }
    }
  }

  lemma StartingOldIsSound(s: State, valid: Bytes -> bool)
    requires Inv(s, valid) && s.pc.LookOld? && s.rotated.Some?
    ensures var f := s.gens[s.rotated.value];
            Sound(s, Cursor(f.inode, 0), valid) && f.inode != 0 && OlderTaken(s, f.inode, valid)
  {
    var r := s.rotated.value;
    assert Known(s, s.gens[r].inode);
    forall k, h | 0 <= h < k < |s.gens| && s.gens[k].inode == s.gens[r].inode ensures AllTaken(s, h, valid) {
      assert k == r;
      assert !Present(s, h);
    }
  }

  lemma RemoveKeepsInv(s: State, ok: bool, valid: Bytes -> bool)
    requires Inv(s, valid) && Enabled(s, Remove(ok))
    ensures Inv(Apply(s, Remove(ok), valid), valid)
  {
    var s' := Apply(s, Remove(ok), valid);
    FactsStay(s, s', valid);
    var k :| 0 <= k < |s.gens| && s.gens[k].inode == s.pc.ino;
    assert s.gens[k].inode != 0;
    GoneMeansOlderTaken(s, s.pc.ino, valid);
    forall g | 0 <= g < |s'.gens| && !Present(s', g) ensures AllTaken(s', g, valid) {
      assert AllTaken(s, g, valid);
    }
  }

  lemma AdoptKeepsInv(s: State, saveOk: bool, valid: Bytes -> bool)
    requires Inv(s, valid) && Enabled(s, AdoptLive(saveOk))
    ensures Inv(Apply(s, AdoptLive(saveOk), valid), valid)
  {
    var s' := Apply(s, AdoptLive(saveOk), valid);
    FactsStay(s, s', valid);
    Reassemble(s, s', Cursor(s.pc.ino, 0), valid);
  }

  /** A batch covers every line of its bytes. */
  lemma BatchCovers(bytes: Bytes, from: nat, max: nat)
    requires from <= |bytes| && AtBoundary(bytes, from) && BatchEnd(bytes, from, max) != from
    ensures var end := BatchEnd(bytes, from, max);
            && IsLineEnd(bytes, end)
            && forall e: nat :: from < e <= end && IsLineEnd(bytes, e) && LineAt(bytes, e) != []
                 ==> LineAt(bytes, e) in LinesBetween(bytes, from, end)
  {
    var end := BatchEnd(bytes, from, max);
    BatchEndsAtLineEnd(bytes, from, max);
    forall e: nat | from < e <= end && IsLineEnd(bytes, e) && LineAt(bytes, e) != []
      ensures LineAt(bytes, e) in LinesBetween(bytes, from, end)
    {
      LineIsListed(bytes, from, end, e);
    }
  }

  /** A file with nothing left to read after an accepted prefix was accepted in full. */
  lemma DrainedIsTaken(f: LogFile, offset: nat, accepted: set<Bytes>, valid: Bytes -> bool)
    requires offset <= |f.bytes| && NextEnd(f.bytes, offset) == 0 && Taken(f, offset, accepted, valid)
    ensures Taken(f, |f.bytes|, accepted, valid)
  {
    NextEndIsFirst(f.bytes, offset);
  }

  lemma BatchIsPending(s: State, k: nat, max: nat, valid: Bytes -> bool)
    requires Layout(s) && s.pc.Ship? && Sound(s, s.pc.at, valid) && s.pc.at.inode != 0
    requires k < |s.gens| && s.gens[k].inode == s.pc.at.inode
    ensures s.pc.at.offset <= |s.gens[k].bytes|
    ensures var bytes, from := s.gens[k].bytes, s.pc.at.offset;
            var end := BatchEnd(bytes, from, max);
            end != from ==> PendingSound(s, s.pc.at, Pending(LinesBetween(bytes, from, end), end))
    ensures max > 0 && BatchEnd(s.gens[k].bytes, s.pc.at.offset, max) == s.pc.at.offset ==> AllTaken(s, k, valid)
  {
    var f, at := s.gens[k], s.pc.at;
    assert AtBoundary(f.bytes, at.offset) && Taken(f, at.offset, s.accepted, valid);
    assert forall j :: 0 <= j < |s.gens| && s.gens[j].inode == at.inode ==> s.gens[j] == f;
    if BatchEnd(f.bytes, at.offset, max) != at.offset {
      BatchCovers(f.bytes, at.offset, max);
    } else if max > 0 {
      DrainedIsTaken(f, at.offset, s.accepted, valid);
    }
  }

  /** The file the drain loop reads. */
  function Reading(s: State): Option<LogFile>
    requires s.pc.Ship?
  {
    FileOf(s, if s.pc.target == Rotated then s.rotated else s.live)
  }

  /** Where a read that does not start past the end leaves the shipper. */
  function PcAfterRead(s: State, max: nat): Pc
    requires s.pc.Ship?
  {
    var file := Reading(s);
    if file.Some? && !Tracks(s.pc.at, file.value) then Idle
    else if file.None? || s.pc.at.offset > |file.value.bytes| then FileDone(s).pc
    else
      var end := BatchEnd(file.value.bytes, s.pc.at.offset, max);
      if end == s.pc.at.offset then FileDone(s).pc
      else s.pc.(pending := Some(Pending(LinesBetween(file.value.bytes, s.pc.at.offset, end), end)))
  }

  /** A file that the cursor tracks is a generation whose bytes reach up to the cursor. */
  lemma TrackedFile(s: State, valid: Bytes -> bool) returns (k: nat)
    requires Base(s, valid) && s.pc.Ship? && Reading(s).Some? && Tracks(s.pc.at, Reading(s).value)
    ensures k < |s.gens| && s.gens[k] == Reading(s).value && s.gens[k].inode == s.pc.at.inode
    ensures s.pc.at.offset <= |s.gens[k].bytes|
  {
    k := (if s.pc.target == Rotated then s.rotated else s.live).value;
    assert AtBoundary(s.gens[k].bytes, s.pc.at.offset);
  }

  /** No cursor is ever past the end of the file it tracks, so the restart from 0 is never taken: a read changes
      where the shipper stands and nothing else. */
  lemma NeverPastEnd(s: State, max: nat, valid: Bytes -> bool)
    requires Base(s, valid) && Enabled(s, ReadOk(max))
    ensures Apply(s, ReadOk(max), valid) == s.(pc := PcAfterRead(s, max))
  {
    if Reading(s).Some? && Tracks(s.pc.at, Reading(s).value) { var k := TrackedFile(s, valid); }
  }

  lemma DoneKeepsPc(s: State, valid: Bytes -> bool)
    requires Base(s, valid) && s.pc.Ship? && (s.pc.target == Rotated ==> AllTaken(s, s.rotated.value, valid))
    ensures PcSound(FileDone(s), valid)
  {
  }

  lemma PendingKeepsPc(s: State, p: Pending, valid: Bytes -> bool)
    requires Base(s, valid) && s.pc.Ship? && PendingSound(s, s.pc.at, p)
    ensures PcSound(s.(pc := s.pc.(pending := Some(p))), valid)
  {
    var s' := s.(pc := s.pc.(pending := Some(p)));
    FactsStay(s, s', valid);
    assert PendingSound(s', s.pc.at, p);
  }

  lemma ReadKeepsPc(s: State, max: nat, valid: Bytes -> bool)
    requires Base(s, valid) && Enabled(s, ReadOk(max))
    ensures PcSound(s.(pc := PcAfterRead(s, max)), valid)
  {
    if Reading(s).Some? && Tracks(s.pc.at, Reading(s).value) {
      var k := TrackedFile(s, valid);
      BatchIsPending(s, k, max, valid);
      var bytes, from := s.gens[k].bytes, s.pc.at.offset;
      var end := BatchEnd(bytes, from, max);
      if end == from { DoneKeepsPc(s, valid); } else { PendingKeepsPc(s, Pending(LinesBetween(bytes, from, end), end), valid); }
    }
  }

  lemma ReadKeepsInv(s: State, max: nat, valid: Bytes -> bool)
    requires Inv(s, valid) && Enabled(s, ReadOk(max))
    ensures Inv(Apply(s, ReadOk(max), valid), valid)
  {
    NeverPastEnd(s, max, valid);
    var s' := s.(pc := PcAfterRead(s, max));
    ReadKeepsPc(s, max, valid);
    FactsStay(s, s', valid);
    Reassemble(s, s', s.cur, valid);
  }

  /** Once a batch is accepted, everything up to its end is. */
  lemma AcceptedIsTaken(s: State, k: nat, accepted: set<Bytes>, valid: Bytes -> bool)
    requires s.pc.Ship? && s.pc.pending.Some? && k < |s.gens| && s.gens[k].inode == s.pc.at.inode
    requires Sound(s, s.pc.at, valid) && PendingSound(s, s.pc.at, s.pc.pending.value) && s.pc.at.inode != 0
    requires s.accepted <= accepted && forall l :: l in Keep(s.pc.pending.value.lines, valid) ==> l in accepted
    ensures AtBoundary(s.gens[k].bytes, s.pc.pending.value.end)
    ensures Taken(s.gens[k], s.pc.pending.value.end, accepted, valid)
  {
    var bytes, p := s.gens[k].bytes, s.pc.pending.value;
    assert Taken(s.gens[k], s.pc.at.offset, s.accepted, valid);
    forall e: nat | IsLineEnd(bytes, e) && e <= p.end && Worth(LineAt(bytes, e), valid)
      ensures LineAt(bytes, e) in accepted
    {
      if e > s.pc.at.offset { assert LineAt(bytes, e) in Keep(p.lines, valid); }
    }
  }

  lemma AcceptedIsSound(s: State, accepted: set<Bytes>, valid: Bytes -> bool)
    requires Base(s, valid) && s.pc.Ship? && s.pc.pending.Some?
    requires s.accepted <= accepted && forall l :: l in Keep(s.pc.pending.value.lines, valid) ==> l in accepted
    ensures Sound(s.(accepted := accepted), s.pc.at.(offset := s.pc.pending.value.end), valid)
  {
    var at := s.pc.at.(offset := s.pc.pending.value.end);
    forall k: nat | k < |s.gens| && s.gens[k].inode == at.inode
      ensures AtBoundary(s.gens[k].bytes, at.offset) && Taken(s.gens[k], at.offset, accepted, valid)
    {
      AcceptedIsTaken(s, k, accepted, valid);
    }
  }

  /** Only an accepted batch moves the cursor, and an accepted batch is what lies before it. */
  lemma MoveKeepsInv(s: State, accepted: set<Bytes>, saveOk: bool, valid: Bytes -> bool)
    requires Inv(s, valid) && s.pc.Ship? && s.pc.pending.Some?
    requires s.accepted <= accepted && forall l :: l in Keep(s.pc.pending.value.lines, valid) ==> l in accepted
    ensures var at := s.pc.at.(offset := s.pc.pending.value.end);
            Inv(Save(MoveTo(s.(accepted := accepted), at), at, saveOk), valid)
  {
    var at := s.pc.at.(offset := s.pc.pending.value.end);
    var s' := Save(MoveTo(s.(accepted := accepted), at), at, saveOk);
    AcceptedIsSound(s, accepted, valid);
    FactsStay(s.(accepted := accepted), s', valid);
    FactsStay(s, s', valid);
    Reassemble(s, s', at, valid);
  }

  lemma StopKeepsInv(s: State, accepted: set<Bytes>, valid: Bytes -> bool)
    requires Inv(s, valid) && s.accepted <= accepted
    ensures Inv(s.(accepted := accepted, pc := Idle), valid)
  {
    var s' := s.(accepted := accepted, pc := Idle);
    FactsStay(s, s', valid);
    Reassemble(s, s', s.cur, valid);
  }

  lemma PostKeepsInv(s: State, answer: Answer, saveOk: bool, valid: Bytes -> bool)
    requires Inv(s, valid) && Enabled(s, Post(answer, saveOk))
    ensures Inv(Apply(s, Post(answer, saveOk), valid), valid)
  {
    var good := Keep(s.pc.pending.value.lines, valid);
    var all := s.accepted + set l | l in good;
    if good == [] {
      MoveKeepsInv(s, s.accepted, saveOk, valid);
      assert s.(accepted := s.accepted) == s;
    } else if answer == Accepted {
      MoveKeepsInv(s, all, saveOk, valid);
    } else {
      StopKeepsInv(s, if answer == Rejected then s.accepted else all, valid);
    }
  }

  /** Every step but a harmful rename keeps the invariant. */
  lemma StepKeepsInv(s: State, e: Event, valid: Bytes -> bool)
    requires Inv(s, valid) && Enabled(s, e) && (e.Rotate? ==> Harmless(s, valid))
    ensures Inv(Apply(s, e, valid), valid)
  {
    match e
    case Create(inode) => CreateKeepsInv(s, inode, valid);
    case ReadOk(max) => ReadKeepsInv(s, max, valid);
    case Post(answer, saveOk) => PostKeepsInv(s, answer, saveOk, valid);
    case Remove(ok) => RemoveKeepsInv(s, ok, valid);
    case AdoptLive(saveOk) => AdoptKeepsInv(s, saveOk, valid);
    case Append(_) => SinkKeepsInv(s, e, valid);
    case Repair => SinkKeepsInv(s, e, valid);
    case Rotate(statOk) => RotateKeepsInv(s, statOk, valid);
    case Crash(_) => LookKeepsInv(s, e, valid);
    case Tick => LookKeepsInv(s, e, valid);
    case StatOld(ok) => StatKeepsInv(s, ok, valid);
    case ReadFails => LookKeepsInv(s, e, valid);
  }

  // Runs.

  /** A run: states linked by enabled events from a start. */
  ghost predicate Run(states: seq<State>, events: seq<Event>, valid: Bytes -> bool) {
    && |states| == |events| + 1
    && Init(states[0])
    && forall i :: 0 <= i < |events| ==>
         Enabled(states[i], events[i]) && states[i + 1] == Apply(states[i], events[i], valid)
  }

  /** Every rename of the sink before step `i` was harmless. */
  ghost predicate NoHarm(states: seq<State>, events: seq<Event>, valid: Bytes -> bool, i: nat) {
    forall j: nat :: j < i && j < |events| && j < |states| && events[j].Rotate? ==>
      && (states[j].rotated.Some? ==> states[j].rotated.value < |states[j].gens|)
      && (states[j].live.Some? ==> states[j].live.value < |states[j].gens|)
      && Harmless(states[j], valid)
  }

  lemma {:induction false} RunKeepsInv(states: seq<State>, events: seq<Event>, valid: Bytes -> bool, i: nat)
    requires Run(states, events, valid) && i < |states| && NoHarm(states, events, valid, i)
    ensures Inv(states[i], valid)
  {
    if i > 0 {
      RunKeepsInv(states, events, valid, i - 1);
      StepKeepsInv(states[i - 1], events[i - 1], valid);
    }
  }

  /** In every state of every run in which no rename of the sink was harmful, each valid complete line that reached
      disk was accepted or is still on disk; and while the shipper's stat of an existing `<path>.1` has not failed,
      it also still lies after the cursor, whichever persisted cursor the shipper last restarted from. */
  lemma NothingIsLost(states: seq<State>, events: seq<Event>, valid: Bytes -> bool, i: nat)
    requires Run(states, events, valid) && i < |states| && NoHarm(states, events, valid, i)
    ensures OnDisk(states[i], valid)
    ensures !states[i].blip ==> Lossless(states[i], valid)
  {
    RunKeepsInv(states, events, valid, i);
    InvMeansLossless(states[i], valid);
  }

  /** A stat of the sink that tells the truth never leads to a harmful rename. */
  lemma TrueStatIsHarmless(s: State, valid: Bytes -> bool)
    requires Inv(s, valid) && Enabled(s, Rotate(true))
    ensures Harmless(s, valid)
  {
  }

  lemma InvMeansLossless(s: State, valid: Bytes -> bool)
    requires Inv(s, valid)
    ensures OnDisk(s, valid)
    ensures !s.blip ==> Lossless(s, valid)
  {
    forall g, e: nat | 0 <= g < |s.gens| && IsLineEnd(s.gens[g].bytes, e) && Worth(LineAt(s.gens[g].bytes, e), valid)
      ensures LineAt(s.gens[g].bytes, e) in s.accepted || Present(s, g)
      ensures !s.blip ==> LineAt(s.gens[g].bytes, e) in s.accepted || After(s, s.cur, g, e)
    {
      if !Present(s, g) { assert AllTaken(s, g, valid); }
      if !s.blip && !After(s, s.cur, g, e) {
        var k :| 0 <= k < |s.gens| && s.gens[k].inode == s.cur.inode && !(k < g || (k == g && s.cur.offset < e));
        if g < k { assert AllTaken(s, g, valid); }
        else { assert Taken(s.gens[k], s.cur.offset, s.accepted, valid); }
      }
    }
  }

  /** `<path>.1` exists and is older than the file with this inode. */
  ghost predicate OldBehind(s: State, ino: nat) {
    s.rotated.Some? && exists k :: s.rotated.value < k < |s.gens| && s.gens[k].inode == ino
  }

  lemma OlderTakenExactly(s: State, ino: nat, valid: Bytes -> bool)
    requires Base(s, valid) && Known(s, ino)
    ensures OlderTaken(s, ino, valid) <==> (OldBehind(s, ino) ==> AllTaken(s, s.rotated.value, valid))
  {
    if OldBehind(s, ino) && OlderTaken(s, ino, valid) {
      var k :| s.rotated.value < k < |s.gens| && s.gens[k].inode == ino;
      assert AllTaken(s, s.rotated.value, valid);
    }
    if OldBehind(s, ino) ==> AllTaken(s, s.rotated.value, valid) {
      forall k, h | 0 <= h < k < |s.gens| && s.gens[k].inode == ino ensures AllTaken(s, h, valid) {
        if Present(s, h) { assert s.rotated == Some(h) && OldBehind(s, ino); }
      }
    }
  }

  /** A stat of `<path>.1` that fails counts as "no such file". The drain that goes on from there is
      lossless exactly when there was no older `<path>.1`, or everything in it was already accepted. */
  lemma FailedStatSafeExactly(s: State, saveOk: bool, valid: Bytes -> bool)
    requires Inv(s, valid) && s.pc.LookOld?
    ensures var stat := Apply(s, StatOld(false), valid);
            Lossless(Apply(stat, AdoptLive(saveOk), valid), valid)
            <==> (OldBehind(s, s.pc.ino) ==> AllTaken(s, s.rotated.value, valid))
  {
    var stat := Apply(s, StatOld(false), valid);
    StatKeepsInv(s, false, valid);
    OlderTakenExactly(s, s.pc.ino, valid);
    FactsStay(s, stat, valid);
    FactsStay(stat, s, valid);
    AdoptSafeExactly(stat, saveOk, valid);
  }

  lemma AdoptSafeExactly(s: State, saveOk: bool, valid: Bytes -> bool)
    requires Base(s, valid) && s.pc.Adopt?
    ensures Lossless(Apply(s, AdoptLive(saveOk), valid), valid) <==> OlderTaken(s, s.pc.ino, valid)
  {
    var s' := Apply(s, AdoptLive(saveOk), valid);
    var ino := s.pc.ino;
    var k :| 0 <= k < |s.gens| && s.gens[k].inode == ino;
    if Lossless(s', valid) {
      forall j, h | 0 <= h < j < |s.gens| && s.gens[j].inode == ino ensures AllTaken(s, h, valid) {
        forall e: nat | IsLineEnd(s.gens[h].bytes, e) && Worth(LineAt(s.gens[h].bytes, e), valid)
          ensures LineAt(s.gens[h].bytes, e) in s.accepted
        {
          assert s'.gens[j].inode == s'.cur.inode;
          assert !After(s', s'.cur, h, e);
        }
      }
    }
    if OlderTaken(s, ino, valid) {
      forall g, e: nat | 0 <= g < |s'.gens| && IsLineEnd(s'.gens[g].bytes, e) && Worth(LineAt(s'.gens[g].bytes, e), valid)
        ensures LineAt(s'.gens[g].bytes, e) in s'.accepted || (Present(s', g) && After(s', s'.cur, g, e))
      {
        if g < k { assert AllTaken(s, g, valid); }
        else if !Present(s, g) { assert AllTaken(s, g, valid); }
      }
    }
  }

  const LINE: Bytes := [65, NEWLINE]

  lemma TheLine()
    ensures IsLineEnd(LINE, 2) && LineAt(LINE, 2) == [65]
  {
    LineStartIsLast(LINE, 1);
  }

  /** One unshipped line, before and after a rotation. */
  function Before(): State {
    State([LogFile(1, LINE)], Some(0), None, NO_CURSOR, Idle, {}, {}, false)
  }

  function Rotated1(): State {
    Before().(live := None, rotated := Some(0))
  }

  function Created(): State {
    Rotated1().(gens := [LogFile(1, LINE), LogFile(2, [])], live := Some(1))
  }

  lemma RotationRun(valid: Bytes -> bool)
    ensures Init(Before())
    ensures Enabled(Before(), Rotate(true)) && Apply(Before(), Rotate(true), valid) == Rotated1()
    ensures Enabled(Rotated1(), Create(2)) && Apply(Rotated1(), Create(2), valid) == Created()
  {
  }

  function Looking(): State {
    Created().(pc := LookOld(2))
  }

  function Fooled(): State {
    Created().(pc := Adopt(2), blip := true)
  }

  /** The cursor on the new file, the line behind it. */
  function Stranded(): State {
    Fooled().(cur := Cursor(2, 0), pc := Ship(Live, 2, Cursor(2, 0), true, None), saved := {Cursor(2, 0)})
  }

  lemma StrandingRun(valid: Bytes -> bool)
    ensures Enabled(Created(), Tick) && Apply(Created(), Tick, valid) == Looking()
    ensures Enabled(Looking(), StatOld(false)) && Apply(Looking(), StatOld(false), valid) == Fooled()
    ensures Enabled(Fooled(), AdoptLive(true)) && Apply(Fooled(), AdoptLive(true), valid) == Stranded()
  {
    assert {} + {Cursor(2, 0)} == {Cursor(2, 0)};
  }

  lemma StrandedBehind(valid: Bytes -> bool)
    requires valid([65])
    ensures !Lossless(Stranded(), valid)
  {
    TheLine();
    var s := Stranded();
    assert s.gens[0] == LogFile(1, LINE) && IsLineEnd(s.gens[0].bytes, 2) && Worth(LineAt(s.gens[0].bytes, 2), valid);
    assert s.gens[1].inode == s.cur.inode && !After(s, s.cur, 0, 2);
  }

  /** A run grows by a step. */
  lemma RunGrows(states: seq<State>, events: seq<Event>, e: Event, s: State, valid: Bytes -> bool)
    requires Run(states, events, valid) && Enabled(states[|events|], e) && s == Apply(states[|events|], e, valid)
    ensures Run(states + [s], events + [e], valid) && (states + [s])[|events + [e]|] == s
  {
    var states', events' := states + [s], events + [e];
    forall i | 0 <= i < |events'|
      ensures Enabled(states'[i], events'[i]) && states'[i + 1] == Apply(states'[i], events'[i], valid)
    {
      if i < |events| { assert states'[i] == states[i] && states'[i + 1] == states[i + 1] && events'[i] == events[i]; }
    }
  }

  lemma CreatedRun(valid: Bytes -> bool) returns (states: seq<State>, events: seq<Event>)
    ensures Run(states, events, valid) && states[|events|] == Created()
  {
    RotationRun(valid);
    states, events := [Before()], [];
    RunGrows(states, events, Rotate(true), Rotated1(), valid);
    states, events := states + [Rotated1()], events + [Rotate(true)];
    RunGrows(states, events, Create(2), Created(), valid);
    states, events := states + [Created()], events + [Create(2)];
  }

  /** A run in which one failed stat leaves an unshipped line behind the cursor. */
  lemma FailedStatStrandsALine() returns (states: seq<State>, events: seq<Event>, valid: Bytes -> bool)
    ensures Run(states, events, valid) && !Lossless(states[|events|], valid)
  {
    valid := line => true;
    StrandingRun(valid);
    StrandedBehind(valid);
    states, events := CreatedRun(valid);
    RunGrows(states, events, Tick, Looking(), valid);
    states, events := states + [Looking()], events + [Tick];
    RunGrows(states, events, StatOld(false), Fooled(), valid);
    states, events := states + [Fooled()], events + [StatOld(false)];
    RunGrows(states, events, AdoptLive(true), Stranded(), valid);
    states, events := states + [Stranded()], events + [AdoptLive(true)];
  }

  /** The cursor is on the live file while `<path>.1` still exists: a failed stat or a failed removal. */
  ghost predicate Stuck(s: State) {
    && s.live.Some? && s.rotated.Some? && s.live.value < |s.gens|
    && s.cur.inode == s.gens[s.live.value].inode
    && (s.pc.Idle? || (s.pc.Ship? && s.pc.target == Live && s.pc.own && s.pc.at.inode == s.cur.inode))
  }

  lemma StuckReading(s: State, max: nat)
    requires Stuck(s) && s.pc.Ship?
    ensures Stuck(ReadStep(s, max)) && ReadStep(s, max).rotated == s.rotated
  {
  }

  lemma StuckPosting(s: State, answer: Answer, saveOk: bool, valid: Bytes -> bool)
    requires Stuck(s) && s.pc.Ship? && s.pc.pending.Some?
    ensures var s' := PostStep(s, answer, saveOk, valid); Stuck(s') && s'.rotated == s.rotated
  {
  }

  /** From there nothing gets out but a restart from a cursor of another file, or a stat of the sink that fails: no
      other step removes `<path>.1`, so the sink never rotates again. A restart from the cursor that the
      adoption saved changes nothing. */
  lemma StuckForGood(s: State, e: Event, valid: Bytes -> bool)
    requires Stuck(s) && Enabled(s, e)
    ensures Stuck(Apply(s, e, valid)) && Apply(s, e, valid).rotated == s.rotated
       <==> (e.Crash? ==> e.from.inode == s.cur.inode) && !e.Rotate?
  {
    match e
    case ReadOk(max) => StuckReading(s, max);
    case Post(answer, saveOk) => StuckPosting(s, answer, saveOk, valid);
    case _ =>
  }

  // The sink's own stat.

  /** Renaming over `<path>.1` loses nothing exactly when every valid line in it was accepted. */
  lemma FailedSinkStatSafeExactly(s: State, valid: Bytes -> bool)
    requires Inv(s, valid) && s.live.Some?
    ensures OnDisk(Apply(s, Rotate(false), valid), valid)
       <==> (s.rotated.Some? ==> AllTaken(s, s.rotated.value, valid))
    ensures !s.blip ==>
              (Lossless(Apply(s, Rotate(false), valid), valid)
               <==> (s.rotated.Some? ==> AllTaken(s, s.rotated.value, valid)))
  {
    var s' := Apply(s, Rotate(false), valid);
    InvMeansLossless(s, valid);
    if s.rotated.Some? {
      var r := s.rotated.value;
      assert !Present(s', r);
      if OnDisk(s', valid) {
        forall e: nat | IsLineEnd(s.gens[r].bytes, e) && Worth(LineAt(s.gens[r].bytes, e), valid)
          ensures LineAt(s.gens[r].bytes, e) in s.accepted
        {
          assert s'.gens[r] == s.gens[r];
        }
      }
    }
    if s.rotated.Some? ==> AllTaken(s, s.rotated.value, valid) {
      forall g, e: nat | 0 <= g < |s'.gens| && IsLineEnd(s'.gens[g].bytes, e) && Worth(LineAt(s'.gens[g].bytes, e), valid)
        ensures LineAt(s'.gens[g].bytes, e) in s'.accepted || Present(s', g)
        ensures !s.blip ==> LineAt(s'.gens[g].bytes, e) in s'.accepted || After(s', s'.cur, g, e)
      {
        if s.rotated == Some(g) { assert AllTaken(s, g, valid); }
        assert LineAt(s.gens[g].bytes, e) in s.accepted || Present(s, g);
        if !s.blip { assert LineAt(s.gens[g].bytes, e) in s.accepted || After(s, s.cur, g, e); }
      }
    }
  }

  /** When the shipper has just finished `<path>.1` and the rename comes before its removal, the removal takes the
      newly rotated file: that loses nothing exactly when every valid line of it was accepted, too. */
  lemma RenameBeforeRemoval(s: State, valid: Bytes -> bool)
    requires Inv(s, valid) && s.live.Some? && s.pc.RemoveOld?
    ensures OnDisk(Apply(Apply(s, Rotate(false), valid), Remove(true), valid), valid)
       <==> AllTaken(s, s.live.value, valid)
  {
    var s' := Apply(Apply(s, Rotate(false), valid), Remove(true), valid);
    var l := s.live.value;
    if OnDisk(s', valid) {
      forall e: nat | IsLineEnd(s.gens[l].bytes, e) && Worth(LineAt(s.gens[l].bytes, e), valid)
        ensures LineAt(s.gens[l].bytes, e) in s.accepted
      {
        assert s'.gens[l] == s.gens[l] && !Present(s', l);
      }
    }
    if AllTaken(s, l, valid) {
      forall g, e: nat | 0 <= g < |s'.gens| && IsLineEnd(s'.gens[g].bytes, e) && Worth(LineAt(s'.gens[g].bytes, e), valid)
        ensures LineAt(s'.gens[g].bytes, e) in s'.accepted
      {
        if g != l && s.rotated != Some(g) { assert !Present(s, g); }
        assert AllTaken(s, g, valid);
      }
    }
  }

  /** So a rename is harmless exactly when it loses nothing at once, and nothing by the removal that the shipper may be
      about to make. */
  lemma HarmlessExactly(s: State, valid: Bytes -> bool)
    requires Inv(s, valid) && s.live.Some?
    ensures Harmless(s, valid) <==>
              && OnDisk(Apply(s, Rotate(false), valid), valid)
              && (s.pc.RemoveOld? ==> OnDisk(Apply(Apply(s, Rotate(false), valid), Remove(true), valid), valid))
  {
    FailedSinkStatSafeExactly(s, valid);
    if s.pc.RemoveOld? { RenameBeforeRemoval(s, valid); }
  }

  /** The created file renamed over the one with the line. */
  function Clobbered(): State {
    Created().(live := None, rotated := Some(1))
  }

  lemma ClobberedLostALine(valid: Bytes -> bool)
    requires valid([65])
    ensures Enabled(Created(), Rotate(false)) && Apply(Created(), Rotate(false), valid) == Clobbered()
    ensures !Clobbered().blip && !OnDisk(Clobbered(), valid)
  {
    TheLine();
    var s := Clobbered();
    assert s.gens[0] == LogFile(1, LINE) && IsLineEnd(s.gens[0].bytes, 2) && Worth(LineAt(s.gens[0].bytes, 2), valid);
    assert !Present(s, 0);
  }

  /** A run in which one failed stat of the sink destroys an unshipped line. */
  lemma FailedSinkStatDestroysALine() returns (states: seq<State>, events: seq<Event>, valid: Bytes -> bool)
    ensures Run(states, events, valid) && !states[|events|].blip && !OnDisk(states[|events|], valid)
  {
    valid := line => true;
    ClobberedLostALine(valid);
    states, events := CreatedRun(valid);
    RunGrows(states, events, Rotate(false), Clobbered(), valid);
    states, events := states + [Clobbered()], events + [Rotate(false)];
  }

  /** Whatever has happened before, the next undisturbed drain sends every line not yet accepted. */
  lemma NextDrainSendsTheRest(s: State, valid: Bytes -> bool, g: nat, e: nat)
    requires Inv(s, valid) && !s.blip && s.live.Some?
    requires g < |s.gens| && IsLineEnd(s.gens[g].bytes, e) && Worth(LineAt(s.gens[g].bytes, e), valid)
    ensures LineAt(s.gens[g].bytes, e) in s.accepted ||
            LineAt(s.gens[g].bytes, e) in DrainLog(s.cur, s.gens[s.live.value], FileOf(s, s.rotated), valid)
  {
    var f, live := s.gens[g], s.gens[s.live.value];
    if !Present(s, g) {
      assert AllTaken(s, g, valid);
    } else if s.live == Some(g) {
      var from := if s.cur.inode == live.inode then s.cur.offset else 0;
      SentFrom(s, g, from, e, valid);
    } else if s.cur.inode == live.inode {
      assert AllTaken(s, g, valid);
    } else {
      var from := if s.cur.inode == f.inode then s.cur.offset else 0;
      SentFrom(s, g, from, e, valid);
    }
  }

  lemma SentFrom(s: State, g: nat, from: nat, e: nat, valid: Bytes -> bool)
    requires Inv(s, valid) && g < |s.gens|
    requires from == if s.cur.inode == s.gens[g].inode then s.cur.offset else 0
    requires IsLineEnd(s.gens[g].bytes, e) && Worth(LineAt(s.gens[g].bytes, e), valid)
    ensures LineAt(s.gens[g].bytes, e) in s.accepted || LineAt(s.gens[g].bytes, e) in Unsent(s.gens[g], from, valid)
  {
    var f := s.gens[g];
    assert f.inode != 0;
    if s.cur.inode == f.inode {
      assert AtBoundary(f.bytes, from) && Taken(f, from, s.accepted, valid);
    }
    if e > from { LineIsListed(f.bytes, from, |f.bytes|, e); }
  }
}
