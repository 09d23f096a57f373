/** The file sink's writer goroutine: what it writes, buffers, drops, and what it loses without counting. */
module FileSink {
  import opened Lines
  import opened Sets
  import RepairTail

  /** How a write or flush of the buffered writer ended, and how many buffered bytes reached the file
      (at most; a flush that succeeds moves them all). */
  datatype IO = Ok(pushed: nat) | Failed(pushed: nat)

  function Min(a: nat, b: nat): nat {
    if a < b then a else b
  }

  /** How reopening the log went: whether the tail repair worked and whether the open did. */
  datatype Opening = Opening(repairOk: bool, openOk: bool)

  /** What the writer goroutine wakes up for, with how the file system answers. */
  datatype Input =
    | Take(line: Bytes, marshalOk: bool, io: IO, rotatedExists: bool, flush: IO, renameOk: bool, opening: Opening)
    | Tick(flush: IO, opening: Opening)

  /** The answers under which the sink loses nothing without counting it: the flush before a rotation
      works, and so does every tail repair. Neither can be left out: see the scripts at the end. */
  predicate Benign(i: Input) {
    i.opening.repairOk && (i.Take? ==> i.flush.Ok?)
  }

  /** How many of `buffered` bytes a flush moves. */
  function Moved(flush: IO, buffered: nat): nat {
    if flush.Ok? then buffered else Min(flush.pushed, buffered)
  }

  lemma Regroup(a: Bytes, b: Bytes, c: Bytes, d: Bytes)
    ensures a + (b + c + d) == a + b + c + d
  {
  }

  /** A file that ends with an event's line loses an event exactly when it is cut anywhere before its end. */
  lemma ShortFlushLoses(file: Bytes, k: nat, valid: Bytes -> bool)
    requires k <= |file| && |file| in GoodEnds(file, valid)
    ensures Beyond(file, k, valid) == {} <==> k == |file|
  {
    if k < |file| { assert |file| in Beyond(file, k, valid); }
  }

  class Sink {
    const valid: Bytes -> bool
    const tailed: bool
    const maxBytes: nat

    // The file at <path>, and the writer on it.
    var live: Bytes
    var open: bool
    var buffer: Bytes
    var latched: bool

    // The writer goroutine's own variables.
    var size: nat
    var dirty: bool
    var pending: nat
    var writeFailed: bool
    var dropped: nat

    // History: events taken off the channel, event lines in files rotated away, event lines found at
    // startup, and events lost without being counted.
    ghost var taken: nat
    ghost var archived: nat
    ghost var found: nat
    ghost var silent: nat

    /** The intact event lines of a file. */
    ghost function Count(bytes: Bytes): nat {
      |GoodEnds(bytes, valid)|
    }

    /** What the file holds once the buffer is flushed. */
    ghost function Flushed(): Bytes
      reads this
    {
      live + buffer
    }

    ghost predicate Torn()
      reads this
    {
      Fragment(Flushed()) != []
    }

    /** The promise: every event taken is intact on disk, still pending, or counted as dropped. */
    ghost predicate NothingSilent()
      reads this
    {
      taken + found <= archived + Count(live) + pending + dropped
    }

    ghost predicate Valid()
      reads this
    {
      && taken + found <= archived + Count(live) + pending + dropped + silent
      && (!open ==> pending == 0 && !writeFailed && buffer == [])
      && (open ==>
            && writeFailed == latched
            && taken + found <= archived + Count(Flushed()) + dropped + silent
            && Count(Flushed()) <= Count(live) + pending)
    }

    /** Growing a file loses no line. */
    lemma Grows(a: Bytes, b: Bytes)
      requires |a| <= |b| && b[..|a|] == a
      ensures Count(a) <= Count(b)
    {
      GoodEndsOfPrefix(a, b, valid);
      SubsetSize(GoodEnds(a, valid), GoodEnds(b, valid));
    }

    /** Cutting the torn tail off a file loses no line. */
    lemma CutKeeps(a: Bytes)
      ensures Count(a[..CompletePart(a)]) == Count(a)
    {
      GoodEndsOfPrefix(a[..CompletePart(a)], a, valid);
    }

    /** One more line is one more intact event, exactly when the torn line before it does not spoil it. */
    lemma AddsOne(a: Bytes, line: Bytes)
      requires NEWLINE !in line
      ensures Count(a + line + [NEWLINE]) == Count(a) + if valid(Fragment(a) + line) then 1 else 0
      ensures Fragment(a + line + [NEWLINE]) == []
    {
      GoodEndsAppend(a, line, valid);
      var t := a + line + [NEWLINE];
      LastLine(a, line);
      assert CompletePart(t) == |t|;
    }

    /** A sink started on whatever file is there; a torn line found at startup is cut and counted. */
    constructor (valid: Bytes -> bool, tailed: bool, maxBytes: nat, file: Bytes, repairOk: bool)
      ensures Valid() && open && !writeFailed && !latched && pending == 0 && taken == 0 && silent == 0 && buffer == []
      ensures this.valid == valid && this.tailed == tailed
      ensures this.maxBytes == if maxBytes == 0 then 0x800_0000 else maxBytes
      ensures live == if repairOk then file[..CompletePart(file)] else file
      ensures dropped == (if live == file then 0 else 1) && archived == 0 && found == |GoodEnds(file, valid)|
      ensures size == |live| && !dirty
      ensures repairOk ==> !Torn()
    {
      this.valid, this.tailed := valid, tailed;
      this.maxBytes := if maxBytes == 0 then 0x800_0000 else maxBytes;
      live, open, buffer, latched := file, false, [], false;
      size, dirty, pending, writeFailed, dropped := 0, false, 0, false, 0;
      taken, archived, silent := 0, 0, 0;
      found := |GoodEnds(file, valid)|;
      new;
      Open(Opening(repairOk, true));
    }

    /** Repairs the tail, then opens the file for append with a fresh writer. */
    method Open(o: Opening)
      requires taken + found <= archived + Count(live) + dropped + silent && pending == 0 && !writeFailed
      modifies this`live, this`open, this`buffer, this`latched, this`size, this`dropped
      ensures Valid() && open == o.openOk && buffer == [] && !latched && size == if open then |live| else 0
      ensures live == if o.repairOk then old(live)[..CompletePart(old(live))] else old(live)
      ensures dropped == old(dropped) + if live == old(live) then 0 else 1
      ensures o.repairOk ==> !Torn()
    {
      if o.repairOk {
        var kept, repaired := RepairTail.RepairTail(live, 0x1_0000);
        CutKeeps(live);
        live := kept;
        if repaired { dropped := dropped + 1; }
      }
      open, buffer, latched := o.openOk, [], false;
      size := if o.openOk then |live| else 0;
      assert live + buffer == live;
    }

    /** Gives up on a writer that failed, counting what was pending in it, and starts over. */
    method Reopen(o: Opening)
      requires Valid()
      modifies this
      ensures Valid() && !writeFailed && pending == 0 && !dirty && open == o.openOk && !latched
      ensures dropped >= old(dropped) + old(pending)
      ensures taken == old(taken) && silent == old(silent) && found == old(found) && archived == old(archived)
      ensures o.repairOk ==> !Torn()
    {
      dropped := dropped + pending;
      pending, dirty, writeFailed := 0, false, false;
      Open(o);
    }

    /** Moves bytes from the buffer to the file, as the buffered writer does under pressure or on a flush. */
    method Push(n: nat)
      requires n <= |buffer|
      modifies this`live, this`buffer
      ensures live == old(live) + old(buffer)[..n] && buffer == old(buffer)[n..]
      ensures Flushed() == old(Flushed()) && Count(old(live)) <= Count(live) <= Count(Flushed())
      ensures Count(live) + |Beyond(old(Flushed()), |old(live)| + n, valid)| == Count(old(Flushed()))
      ensures old(Valid()) && open ==> Valid()
    {
      var all := live + buffer;
      Grows(live, live + buffer[..n]);
      live, buffer := live + buffer[..n], buffer[n..];
      assert all[..|live|] == live && live + buffer == all;
      CutLoses(all, |live|, valid);
    }

    /** Flushes the buffer; a failed flush leaves the writer broken, with part of it written. */
    method Flush(io: IO)
      requires Valid() && open && !writeFailed
      modifies this`live, this`buffer, this`latched
      ensures latched == io.Failed? && Flushed() == old(Flushed()) && Count(old(live)) <= Count(live) <= Count(Flushed())
      ensures live == old(live) + old(buffer)[..Moved(io, |old(buffer)|)]
      ensures Count(live) + |Beyond(old(Flushed()), |old(live)| + Moved(io, |old(buffer)|), valid)| == Count(old(Flushed()))
      ensures io.Ok? ==> live == old(Flushed()) && buffer == []
    {
      Push(Moved(io, |buffer|));
      latched := io.Failed?;
    }

    /** Flushes and renames the file away and opens a fresh one. The flush's error is ignored and the pending count
        is forgotten, so exactly the events whose newline the flush did not reach are lost silently. */
    method Rotate(flush: IO, renameOk: bool, o: Opening)
      requires Valid() && open && !writeFailed
      modifies this
      ensures Valid() && pending == 0 && !writeFailed
      ensures taken == old(taken) && found == old(found)
      ensures silent == old(silent) + |Beyond(old(Flushed()), |old(live)| + Moved(flush, |old(buffer)|), valid)|
      ensures o.repairOk ==> !Torn()
      ensures var flushed := old(live) + old(buffer)[..Moved(flush, |old(buffer)|)];
              && archived == old(archived) + (if renameOk then Count(flushed) else 0)
              && (renameOk ==> live == [] && dropped == old(dropped))
    {
      Flush(flush);
      silent := silent + |Beyond(old(Flushed()), |old(live)| + Moved(flush, |old(buffer)|), valid)|;
      pending := 0;
      if renameOk {
        archived := archived + Count(live);
        live := [];
        assert GoodEnds(live, valid) == {};
      }
      Open(o);
    }

    /** A writer that breaks: some part of its buffer, or all of it and some part of the line, reached the file. */
    method Break(line: Bytes, pushed: nat)
      requires Valid() && open
      modifies this`live, this`buffer
      ensures Valid() && (pushed == 0 ==> live == old(live) && buffer == old(buffer))
    {
      if pushed <= |buffer| {
        Push(pushed);
      } else {
        var rest := buffer + line + [NEWLINE];
        var more := rest[..Min(pushed, |rest|)];
        Grows(live + buffer, live + more);
        Grows(live, live + more);
        live, buffer := live + more, [];
        assert live + buffer == live;
      }
    }

    /** A write that fails: a broken writer takes nothing, one that breaks now wrote some part of what it held. */
    method FailedWrite(line: Bytes, io: IO)
      requires Valid() && open && (latched || io.Failed?)
      modifies this
      ensures Valid() && writeFailed && open
      ensures dropped == old(dropped) + 1 && taken == old(taken) + 1 && pending == old(pending)
      ensures silent == old(silent) && found == old(found) && archived == old(archived)
      ensures io.pushed == 0 || old(latched) ==> live == old(live) && buffer == old(buffer)
    {
      if !latched { Break(line, io.pushed); }
      size := size + Min(io.pushed, |line| + 1);
      latched, writeFailed, dirty := true, true, true;
      dropped, taken := dropped + 1, taken + 1;
    }

    /** The line joins the buffer. The event is lost silently exactly when a torn line before it makes the joined
        line invalid. */
    method BufferLine(line: Bytes)
      requires Valid() && open && !writeFailed && NEWLINE !in line
      modifies this`buffer, this`size, this`dirty, this`pending, this`taken, this`silent
      ensures Valid() && taken == old(taken) + 1 && !Torn() && pending == old(pending) + 1 && dirty
      ensures silent == old(silent) + if valid(Fragment(old(Flushed())) + line) then 0 else 1
      ensures Flushed() == old(Flushed()) + line + [NEWLINE]
      ensures size == old(size) + |line| + 1
    {
      AddsOne(live + buffer, line);
      silent := silent + if valid(Fragment(live + buffer) + line) then 0 else 1;
      Regroup(live, buffer, line, [NEWLINE]);
      buffer := buffer + line + [NEWLINE];
      taken, size, dirty, pending := taken + 1, size + |line| + 1, true, pending + 1;
    }

    /** The write goes through. */
    ghost predicate Writes(marshalOk: bool, io: IO)
      reads this
    {
      open && marshalOk && !latched && io.Ok?
    }

    /** The write fills the file and nothing defers the rotation. */
    ghost predicate Rotates(line: Bytes, rotatedExists: bool)
      reads this
    {
      size + |line| + 1 >= maxBytes && !(tailed && rotatedExists)
    }

    /** The rotation's flush stops before the end of the buffer. */
    ghost predicate FlushShort(line: Bytes, io: IO, flush: IO)
      reads this
    {
      var held := |buffer| + |line| + 1;
      flush.Failed? && flush.pushed < held - Min(io.pushed, held)
    }

    /** A write that works, with the rotation it may bring about. */
    method WriteLine(line: Bytes, io: IO, rotatedExists: bool, flush: IO, renameOk: bool, o: Opening)
      requires Valid() && NEWLINE !in line && Writes(true, io)
      modifies this
      ensures Valid() && taken == old(taken) + 1 && found == old(found) && silent >= old(silent) && !writeFailed
      ensures silent > old(silent) <==>
                !valid(Fragment(old(Flushed())) + line) || (old(Rotates(line, rotatedExists)) && old(FlushShort(line, io, flush)))
      ensures o.repairOk ==> !Torn()
      ensures !old(Rotates(line, rotatedExists)) ==>
                && open && pending == old(pending) + 1 && dirty && dropped == old(dropped) && archived == old(archived)
                && Flushed() == old(Flushed()) + line + [NEWLINE]
                && live == Flushed()[..|old(live)| + Min(io.pushed, |old(buffer)| + |line| + 1)]
      ensures old(Rotates(line, rotatedExists)) && renameOk ==> pending == 0 && dropped == old(dropped) && live == []
      ensures old(Rotates(line, rotatedExists)) && renameOk && flush == Failed(0) && io == Ok(0) ==>
                archived == old(archived) + Count(old(live))
    {
      BufferLine(line);
      Push(Min(io.pushed, |buffer|));
      if size >= maxBytes && !(tailed && rotatedExists) {
        LastIsGood(old(Flushed()), line, |live| + Moved(flush, |buffer|));
        if flush == Failed(0) && io == Ok(0) { assert live + buffer[..0] == old(live); }
        Rotate(flush, renameOk, o);
      }
    }

    /** One event off the channel: write it, and rotate when the file is full. Something is lost silently exactly
        when the write works and either a torn line before it spoils the event or a rotation's flush stops
        short. */
    method WriteOne(line: Bytes, marshalOk: bool, io: IO, rotatedExists: bool, flush: IO, renameOk: bool, o: Opening)
      requires Valid() && NEWLINE !in line
      modifies this
      ensures Valid() && taken == old(taken) + 1 && found == old(found) && silent >= old(silent)
      ensures silent > old(silent) <==>
                && old(Writes(marshalOk, io))
                && (!valid(Fragment(old(Flushed())) + line) || (old(Rotates(line, rotatedExists)) && old(FlushShort(line, io, flush))))
      ensures (old(writeFailed) || !old(Torn())) && o.repairOk ==> writeFailed || !Torn()
    {
      if !open || !marshalOk {
        taken, dropped := taken + 1, dropped + 1;
      } else if latched || io.Failed? {
        FailedWrite(line, io);
      } else {
        WriteLine(line, io, rotatedExists, flush, renameOk, o);
      }
    }

    /** When the last line written is an event's, a flush that stops short loses at least that event. */
    lemma LastIsGood(before: Bytes, line: Bytes, k: nat)
      requires NEWLINE !in line && k <= |before| + |line| + 1
      ensures var all := before + line + [NEWLINE];
              valid(Fragment(before) + line) ==> (Beyond(all, k, valid) == {} <==> k == |all|)
    {
      var all := before + line + [NEWLINE];
      GoodEndsAppend(before, line, valid);
      if valid(Fragment(before) + line) { ShortFlushLoses(all, k, valid); }
    }

    /** The ticker: replace a broken writer, retry a failed open, or flush and sync. After a tick whose opening works
        the sink writes again. */
    method FlushTick(flush: IO, o: Opening)
      requires Valid()
      modifies this
      ensures Valid() && !writeFailed
      ensures o.openOk ==> Writes(true, Ok(0))
      ensures taken == old(taken) && found == old(found) && silent == old(silent) && archived == old(archived)
      ensures (old(writeFailed) || !old(Torn())) && o.repairOk ==> !Torn()
      ensures old(open) && !old(writeFailed) && old(dirty) && flush.Ok? ==>
                live == old(Flushed()) && pending == 0 && dropped == old(dropped)
    {
      if writeFailed {
        Reopen(o);
      } else if !open {
        Open(o);
      } else if dirty {
        Flush(flush);
        if flush.Failed? {
          writeFailed := true;
          Reopen(o);
        } else {
          pending, dirty := 0, false;
          assert live + buffer == live;
        }
      }
    }

    /** The writer goroutine over any script of inputs: nothing is ever lost uncounted but through a failed
        rotation flush or a failed tail repair. */
    method Run(script: seq<Input>)
      requires Valid() && !Torn() && silent == 0
      requires forall i :: i in script && i.Take? ==> NEWLINE !in i.line && valid(i.line)
      modifies this
      ensures Valid()
      ensures (forall i :: i in script ==> Benign(i)) ==> silent == 0 && NothingSilent()
    {
      for n := 0 to |script|
        invariant Valid()
        invariant (forall i :: i in script ==> Benign(i)) ==> silent == 0 && (writeFailed || !Torn())
      {
        var i := script[n];
        assert i in script;
        match i
        case Take(line, marshalOk, io, rotatedExists, flush, renameOk, opening) =>
          assert !Torn() ==> Fragment(Flushed()) + line == line;
          WriteOne(line, marshalOk, io, rotatedExists, flush, renameOk, opening);
        case Tick(flush, opening) =>
          FlushTick(flush, opening);
      }
    }

    /** Stopping flushes once more and ignores the error, and a broken writer takes no flush at all: exactly the
        events whose newline stays in the buffer are lost silently. */
    method Close(flush: IO)
      requires Valid()
      modifies this
      ensures taken + found <= archived + Count(live) + dropped + silent && taken == old(taken) && found == old(found)
      ensures var n := if old(writeFailed) then 0 else Moved(flush, |old(buffer)|);
              && live == old(live) + old(buffer)[..n]
              && silent == old(silent) + |Beyond(old(Flushed()), |old(live)| + n, valid)|
      ensures pending == 0 && dropped == old(dropped) && archived == old(archived)
    {
      var n := if writeFailed then 0 else Moved(flush, |buffer|);
      Push(n);
      silent := silent + |Beyond(old(Flushed()), |live|, valid)|;
      open, pending := false, 0;
    }
  }

  // Three scripts that break the promise, one for each way, for any event.

  lemma TornHoldsNothing(torn: Bytes, valid: Bytes -> bool)
    requires NEWLINE !in torn
    ensures GoodEnds(torn, valid) == {} && Fragment(torn) == torn
  {
    assert forall i :: 0 <= i < |torn| ==> torn[i] != NEWLINE;
    assert forall e :: e in GoodEnds(torn, valid) ==> 0 < e <= |torn| && torn[e - 1] == NEWLINE;
    assert CompletePart(torn) == 0;
  }

  lemma TornSwallows(torn: Bytes, line: Bytes, valid: Bytes -> bool)
    requires NEWLINE !in torn && NEWLINE !in line && !valid(torn + line)
    ensures GoodEnds(torn + line + [NEWLINE], valid) == {}
  {
    TornHoldsNothing(torn, valid);
    GoodEndsAppend(torn, line, valid);
  }

  /** A sink on a file without a newline, repaired or not. */
  method Start(valid: Bytes -> bool, maxBytes: nat, torn: Bytes) returns (s: Sink)
    requires maxBytes > 0 && NEWLINE !in torn
    ensures fresh(s) && s.Valid() && s.valid == valid && !s.tailed && s.maxBytes == maxBytes
    ensures s.Writes(true, Ok(0)) && s.live == torn && s.Flushed() == torn && s.buffer == [] && s.size == |torn|
    ensures s.taken == 0 && s.pending == 0 && s.dropped == 0 && s.archived == 0 && !s.writeFailed && s.Count(s.live) == 0
  {
    s := new Sink(valid, false, maxBytes, torn, false);
    TornHoldsNothing(torn, valid);
  }

  /** A rotation whose flush fails: one event taken, and it is nowhere. */
  method LostInRotation(valid: Bytes -> bool, line: Bytes) returns (s: Sink)
    requires valid(line) && NEWLINE !in line
    ensures s.taken == 1 && !s.NothingSilent()
  {
    s := Start(valid, 1, []);
    s.WriteLine(line, Ok(0), false, Failed(0), true, Opening(true, true));
  }

  /** A tail repair that fails: the next event is swallowed by the torn line. */
  method LostBehindTornLine(valid: Bytes -> bool, torn: Bytes, line: Bytes) returns (s: Sink)
    requires valid(line) && NEWLINE !in line && NEWLINE !in torn && !valid(torn + line)
    ensures s.taken == 1 && !s.NothingSilent()
  {
    TornSwallows(torn, line, valid);
    s := Start(valid, |torn| + |line| + 2, torn);
    s.WriteLine(line, Ok(0), false, Ok(0), true, Opening(true, true));
    s.FlushTick(Ok(0), Opening(true, true));
  }

  /** A close with a broken writer: the event it held is lost, and only the one that broke it was counted. */
  method LostInClose(valid: Bytes -> bool, line: Bytes) returns (s: Sink)
    requires valid(line) && NEWLINE !in line
    ensures s.taken == 2 && s.dropped == 1 && !s.NothingSilent()
  {
    s := Start(valid, |line| + 2, []);
    s.WriteLine(line, Ok(0), false, Ok(0), true, Opening(true, true));
    assert s.live == [];
    s.FailedWrite(line, Failed(0));
    s.Close(Ok(0));
    assert s.live == [] && GoodEnds([], valid) == {};
  }
}
