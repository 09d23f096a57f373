/** The sink's tail repair: a backward scan in chunks that cuts a torn last line. */
module RepairTail {
  import opened Lines

  /** The last newline of `buf`, or -1. */
  method LastIndexOfNewline(buf: Bytes) returns (i: int)
    ensures -1 <= i < |buf|
    ensures i >= 0 ==> buf[i] == NEWLINE
    ensures NoNewline(buf, i + 1, |buf|)
  {
    i := |buf| - 1;
    while i >= 0 && buf[i] != NEWLINE
      invariant -1 <= i < |buf|
      invariant NoNewline(buf, i + 1, |buf|)
    {
      i := i - 1;
    }
  }

  /** What the tail repair leaves of a file, and whether it removed anything. The chunk size is
      64 KiB in the sink; the result does not depend on it. */
  method RepairTail(file: Bytes, chunk: nat) returns (kept: Bytes, repaired: bool)
    requires chunk > 0
    ensures kept == file[..CompletePart(file)]
    ensures repaired <==> kept != file
  {
    var size := |file|;
    if size == 0 || file[size - 1] == NEWLINE {
      return file, false;
    }
    var end := size;
    while end > 0
      invariant 0 <= end <= size
      invariant NoNewline(file, end, size)
    {
      var start := if end < chunk then 0 else end - chunk;
      var buf := file[start..end];
      var i := LastIndexOfNewline(buf);
      assert forall k :: start <= k < end ==> file[k] == buf[k - start];
      if i >= 0 {
        return file[..start + i + 1], true;
      }
      end := start;
    }
    return [], true;
  }

  /** The repair never cuts below a shipped offset and changes no complete line. */
  lemma RepairKeepsCursor(file: Bytes, offset: nat)
    requires AtBoundary(file, offset)
    ensures offset <= CompletePart(file)
    ensures AtBoundary(file[..CompletePart(file)], offset)
    ensures forall e: nat :: IsLineEnd(file, e) ==>
              IsLineEnd(file[..CompletePart(file)], e) && LineAt(file[..CompletePart(file)], e) == LineAt(file, e)
  {
    var c := CompletePart(file);
    forall e: nat | IsLineEnd(file, e)
      ensures IsLineEnd(file[..c], e) && LineAt(file[..c], e) == LineAt(file, e)
    {
      LineInPrefix(file, file[..c], e);
    }
  }
}
