/** The shipper run on its own: what one batch, one file and one drain send to the control plane. */
module Shipping {
  import opened Options
  import opened Lines

  datatype LogFile = LogFile(inode: nat, bytes: Bytes)
  datatype Cursor = Cursor(inode: nat, offset: nat)
  datatype Outcome = Advanced | Drained | Refused
  datatype ReadResult = Lines(lines: seq<Bytes>, consumed: nat) | NotExist | WrongFile | PastEOF

  const NO_CURSOR := Cursor(0, 0)

  /** Where a batch of up to `max` non-empty lines read from `from` on ends; the empty lines met on
      the way are passed over and not counted. */
  function BatchEnd(s: Bytes, from: nat, max: nat): (end: nat)
    requires from <= |s|
    ensures from <= end <= |s|
    ensures end == from <==> max == 0 || NextEnd(s, from) == 0
    decreases |s| - from
  {
    var e := NextEnd(s, from);
    if max == 0 || e == 0 then from else BatchEnd(s, e, if e == from + 1 then max else max - 1)
  }

  /** Batches end at a line end, or where they start. */
  lemma {:induction false} BatchEndsAtLineEnd(s: Bytes, from: nat, max: nat)
    requires from <= |s|
    ensures var end := BatchEnd(s, from, max); end == from || IsLineEnd(s, end)
    decreases |s| - from
  {
    var e := NextEnd(s, from);
    if max != 0 && e != 0 {
      NextEndIsFirst(s, from);
      BatchEndsAtLineEnd(s, e, if e == from + 1 then max else max - 1);
    }
  }

  lemma ReadOneLine(s: Bytes, start: nat, at: nat)
    requires Read(s, start, at) && NextEnd(s, at) != 0
    ensures var e := NextEnd(s, at);
            Read(s, start, e) && LinesBetween(s, start, e) == LinesBetween(s, start, at) + Text(s, at, e)
  {
    OneLine(s, at);
    LinesSplit(s, start, at, NextEnd(s, at));
    NextEndIsFirst(s, at);
  }

  method ReadBatch(file: Option<LogFile>, cursor: Cursor, max: nat) returns (r: ReadResult)
    ensures r.NotExist? <==> file.None?
    ensures r.WrongFile? <==> file.Some? && cursor.inode != 0 && cursor.inode != file.value.inode
    ensures r.PastEOF? <==> file.Some? && !r.WrongFile? && cursor.offset > |file.value.bytes|
    ensures r.Lines? ==>
              var end := BatchEnd(file.value.bytes, cursor.offset, max);
              r.consumed == end - cursor.offset && r.lines == LinesBetween(file.value.bytes, cursor.offset, end)
  {
    if file.None? { return NotExist; }
    if cursor.inode != 0 && cursor.inode != file.value.inode { return WrongFile; }
    var s := file.value.bytes;
    if cursor.offset > |s| { return PastEOF; }
    var lines, consumed := [], 0;
    var at := cursor.offset;
    assert LinesBetween(s, at, at) == [];
    while |lines| < max && NextEnd(s, at) != 0
      invariant at == cursor.offset + consumed && Read(s, cursor.offset, at) && |lines| <= max
      invariant lines == LinesBetween(s, cursor.offset, at)
      invariant BatchEnd(s, cursor.offset, max) == BatchEnd(s, at, max - |lines|)
      decreases |s| - at
    {
      var e := NextEnd(s, at);
      var text := Text(s, at, e);
      ReadOneLine(s, cursor.offset, at);
      var left := max - |lines|;
      assert BatchEnd(s, at, left) == BatchEnd(s, e, if e == at + 1 then left else left - 1);
      lines, consumed, at := lines + text, consumed + (e - at), e;
      assert max - |lines| == left - |text|;
    }
    r := Lines(lines, consumed);
  }

  /** Where reading starts: an offset past the end means the file was cut in place, so start over. */
  function StartOf(file: LogFile, offset: nat): (start: nat)
    ensures start <= |file.bytes|
  {
    if offset > |file.bytes| then 0 else offset
  }

  /** `at` is a place a reader that started at `start` can have reached. */
  predicate Read(s: Bytes, start: nat, at: nat) {
    start <= at <= |s| && (at == start || IsLineEnd(s, at))
  }

  /** A cursor with an inode is pinned to the file with that inode. */
  predicate Tracks(cursor: Cursor, file: LogFile) {
    cursor.inode == 0 || cursor.inode == file.inode
  }

  lemma AcceptedSoFar(before: seq<Bytes>, s: Bytes, start: nat, at: nat, next: nat, valid: Bytes -> bool)
    requires Read(s, start, at) && at <= next <= |s|
    ensures before + Keep(LinesBetween(s, start, next), valid)
            == before + Keep(LinesBetween(s, start, at), valid) + Keep(LinesBetween(s, at, next), valid)
  {
    LinesSplit(s, start, at, next);
    KeepConcat(LinesBetween(s, start, at), LinesBetween(s, at, next), valid);
    ConcatAssociates(before, Keep(LinesBetween(s, start, at), valid), Keep(LinesBetween(s, at, next), valid));
  }

  /** What was sent so far is the beginning of what there is to send. */
  lemma SentIsPrefix(before: seq<Bytes>, s: Bytes, start: nat, at: nat, valid: Bytes -> bool)
    requires Read(s, start, at)
    ensures before + Keep(LinesBetween(s, start, at), valid) <= before + Keep(LinesBetween(s, start, |s|), valid)
  {
    AcceptedSoFar(before, s, start, at, |s|, valid);
  }

  lemma DrainedMeansAll(s: Bytes, start: nat, at: nat)
    requires Read(s, start, at) && NextEnd(s, at) == 0
    ensures LinesBetween(s, start, |s|) == LinesBetween(s, start, at)
  {
    LinesSplit(s, start, at, |s|);
    ConcatNil(LinesBetween(s, start, at));
  }

  /** The lines that draining one file from `offset` must send. */
  function Unsent(file: LogFile, offset: nat, valid: Bytes -> bool): seq<Bytes> {
    Keep(LinesBetween(file.bytes, StartOf(file, offset), |file.bytes|), valid)
  }

  /** The lines one drain must send, given the two files and the cursor. */
  function DrainLog(cursor: Cursor, live: LogFile, rotated: Option<LogFile>, valid: Bytes -> bool): seq<Bytes> {
    if cursor.inode == live.inode then Unsent(live, cursor.offset, valid)
    else
      (if rotated.None? then []
       else if rotated.value.inode == cursor.inode then Unsent(rotated.value, cursor.offset, valid)
       else Unsent(rotated.value, 0, valid))
      + Unsent(live, 0, valid)
  }

  /** The shipper over files nobody else touches. `replies` scripts the control plane: whether
      the n-th post is answered with a 2xx. */
  class Shipper {
    const batchSize: nat
    const valid: Bytes -> bool
    const replies: nat -> bool

    var live: Option<LogFile>
    var rotated: Option<LogFile>
    var posts: nat
    var accepted: seq<Bytes>
    var saves: seq<Cursor>

    ghost predicate Valid()
      reads this
    {
      && batchSize > 0
      && (live.Some? ==> live.value.inode != 0)
      && (rotated.Some? ==> rotated.value.inode != 0)
    }

    /** The cursors saved since `before` all sit on line boundaries of `bytes`. */
    ghost predicate SavedAtBoundaries(before: seq<Cursor>, bytes: Bytes)
      reads this
    {
      && before <= saves
      && forall c :: c in saves[|before|..] ==> AtBoundary(bytes, c.offset)
    }

    constructor (batchSize: nat, valid: Bytes -> bool, replies: nat -> bool,
                 live: Option<LogFile>, rotated: Option<LogFile>)
      requires live.Some? ==> live.value.inode != 0
      requires rotated.Some? ==> rotated.value.inode != 0
      ensures Valid() && accepted == [] && this.live == live && this.rotated == rotated
      ensures this.batchSize == (if batchSize == 0 then 500 else batchSize)
      ensures this.valid == valid && this.replies == replies
    {
      this.batchSize := if batchSize == 0 then 500 else batchSize;
      this.valid, this.replies := valid, replies;
      this.live, this.rotated := live, rotated;
      posts, accepted, saves := 0, [], [];
    }

    method Ship(lines: seq<Bytes>) returns (ok: bool)
      modifies this`posts, this`accepted
      ensures ok == replies(old(posts)) && posts == old(posts) + 1
      ensures accepted == if ok then old(accepted) + lines else old(accepted)
    {
      ok := replies(posts);
      posts := posts + 1;
      if ok { accepted := accepted + lines; }
    }

    /** Ships a file from the cursor on, a batch at a time, moving the cursor only after a 2xx: what the
        control plane took is exactly the valid lines between where reading started and the cursor. */
    method DrainFile(file: Option<LogFile>, cursor: Cursor) returns (cur: Cursor, drained: bool)
      requires Valid()
      modifies this`posts, this`accepted, this`saves
      ensures cur.inode == cursor.inode
      ensures file.None? ==> drained && cur == cursor && accepted == old(accepted)
      ensures file.Some? && !Tracks(cursor, file.value) ==> !drained && cur == cursor && accepted == old(accepted)
      ensures file.Some? && Tracks(cursor, file.value) ==>
                var s, start := file.value.bytes, StartOf(file.value, cursor.offset);
                && Read(s, start, cur.offset)
                && accepted == old(accepted) + Keep(LinesBetween(s, start, cur.offset), valid)
                && accepted <= old(accepted) + Unsent(file.value, cursor.offset, valid)
                && (drained ==> accepted == old(accepted) + Unsent(file.value, cursor.offset, valid))
                && (drained ==> NextEnd(s, cur.offset) == 0)
                && (AtBoundary(s, start) ==> SavedAtBoundaries(old(saves), s))
                && ((forall n :: replies(n)) ==> drained)
    {
      cur := cursor;
      if file.None? { return cur, true; }
      if !Tracks(cur, file.value) { return cur, false; }
      var start := StartOf(file.value, cursor.offset);
      ghost var s := file.value.bytes;
      if cur.offset > |file.value.bytes| {
        cur := cur.(offset := 0);
        saves := saves + [cur];
      }
      assert LinesBetween(s, start, start) == [];
      while true
        invariant cur.inode == cursor.inode && Read(s, start, cur.offset)
        invariant accepted == old(accepted) + Keep(LinesBetween(s, start, cur.offset), valid)
        invariant AtBoundary(s, start) ==> SavedAtBoundaries(old(saves), s)
        decreases |s| - cur.offset
      {
        var next, outcome := ShipBatch(file.value, cur);
        if outcome == Drained { DrainedMeansAll(s, start, cur.offset); }
        if outcome != Advanced {
          SentIsPrefix(old(accepted), s, start, cur.offset, valid);
          return cur, outcome == Drained;
        }
        AcceptedSoFar(old(accepted), s, start, cur.offset, next.offset, valid);
        cur := next;
      }
    }

    /** One turn of the loop: read a batch, ship its valid lines, and move and save the cursor on a 2xx. */
    method ShipBatch(file: LogFile, cursor: Cursor) returns (cur: Cursor, outcome: Outcome)
      requires Valid() && Tracks(cursor, file) && cursor.offset <= |file.bytes|
      modifies this`posts, this`accepted, this`saves
      ensures outcome != Advanced ==> cur == cursor && accepted == old(accepted) && saves == old(saves)
      ensures outcome == Drained <==> NextEnd(file.bytes, cursor.offset) == 0
      ensures outcome == Advanced ==>
                && cur.inode == cursor.inode && cur.offset > cursor.offset
                && Read(file.bytes, cursor.offset, cur.offset)
                && accepted == old(accepted) + Keep(LinesBetween(file.bytes, cursor.offset, cur.offset), valid)
                && saves == old(saves) + [cur]
      ensures (forall n :: replies(n)) ==> outcome != Refused
    {
      var r := ReadBatch(Some(file), cursor, batchSize);
      BatchEndsAtLineEnd(file.bytes, cursor.offset, batchSize);
      if r.consumed == 0 { return cursor, Drained; }
      var good := KeepValid(r.lines);
      if |good| > 0 {
        var ok := Ship(good);
        if !ok { return cursor, Refused; }
      } else {
        ConcatNil(accepted);
      }
      cur := cursor.(offset := cursor.offset + r.consumed);
      saves := saves + [cur];
      outcome := Advanced;
    }

    /** The lines of a batch that are valid JSON, in order. */
    method KeepValid(lines: seq<Bytes>) returns (good: seq<Bytes>)
      ensures good == Keep(lines, valid)
    {
      good := [];
      for i := 0 to |lines|
        invariant good == Keep(lines[..i], valid)
      {
        assert lines[..i + 1] == lines[..i] + [lines[i]];
        KeepConcat(lines[..i], [lines[i]], valid);
        if valid(lines[i]) { good := good + [lines[i]]; }
      }
      assert lines[..|lines|] == lines;
    }

    /** The part of a drain's work that lies in the rotated file. */
    ghost function OldPart(cursor: Cursor, live: LogFile, rotated: Option<LogFile>): seq<Bytes> {
      if cursor.inode == live.inode || rotated.None? then []
      else Unsent(rotated.value, if rotated.value.inode == cursor.inode then cursor.offset else 0, valid)
    }

    lemma DrainLogSplits(before: seq<Bytes>, cursor: Cursor, live: LogFile, rotated: Option<LogFile>)
      ensures before + DrainLog(cursor, live, rotated, valid)
           == before + OldPart(cursor, live, rotated) + Unsent(live, if cursor.inode == live.inode then cursor.offset else 0, valid)
    {
      var rest := Unsent(live, if cursor.inode == live.inode then cursor.offset else 0, valid);
      ConcatAssociates(before, OldPart(cursor, live, rotated), rest);
      ConcatNil(rest);
    }

    /** Before adopting the live file: finish the rotated one and remove it, unless some of it was refused. */
    method FinishOld(cursor: Cursor) returns (cur: Cursor, done: bool)
      requires Valid() && live.Some? && cursor.inode != live.value.inode
      modifies this`rotated, this`posts, this`accepted, this`saves
      ensures done ==> rotated == None && accepted == old(accepted) + OldPart(cursor, live.value, old(rotated))
      ensures !done ==> rotated == old(rotated)
      ensures old(accepted) <= accepted <= old(accepted) + OldPart(cursor, live.value, old(rotated))
      ensures done ==> cur == Cursor(live.value.inode, 0)
      ensures (forall n :: replies(n)) ==> done
    {
      cur := cursor;
      if rotated.Some? {
        var local := cur.inode != rotated.value.inode;
        var finished, drained := DrainFile(rotated, if local then Cursor(rotated.value.inode, 0) else cur);
        if !local { cur := finished; }
        if !drained { return cur, false; }
        rotated := None;
      } else {
        ConcatNil(accepted);
      }
      cur := Cursor(live.value.inode, 0);
      saves := saves + [cur];
      done := true;
    }

    /** One drain: finish the rotated file, remove it, adopt the live one, ship it. Whatever the control plane
        answers, it takes a beginning of what there is to send, and the rotated file is removed only when all
        of it was taken. */
    method Drain(cursor: Cursor) returns (cur: Cursor)
      requires Valid()
      modifies this`rotated, this`posts, this`accepted, this`saves
      ensures Valid()
      ensures live.None? ==> cur == cursor && accepted == old(accepted) && rotated == old(rotated)
      ensures live.Some? ==> old(accepted) <= accepted <= old(accepted) + DrainLog(cursor, live.value, old(rotated), valid)
      ensures live.Some? && rotated != old(rotated) ==>
                rotated == None && old(accepted) + OldPart(cursor, live.value, old(rotated)) <= accepted
      ensures live.Some? && (forall n :: replies(n)) ==>
                && accepted == old(accepted) + DrainLog(cursor, live.value, old(rotated), valid)
                && cur.inode == live.value.inode && cur.offset <= |live.value.bytes|
                && NextEnd(live.value.bytes, cur.offset) == 0
                && rotated == if cursor.inode == live.value.inode then old(rotated) else None
    {
      cur := cursor;
      if live.None? { return; }
      DrainLogSplits(old(accepted), cursor, live.value, rotated);
      if cur.inode != live.value.inode {
        var done;
        cur, done := FinishOld(cur);
        if !done { return; }
      } else {
        ConcatNil(accepted);
      }
      var cur', _ := DrainFile(live, cur);
      cur := cur';
    }
  }
}
