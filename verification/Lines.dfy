/** Byte files as newline-terminated lines: the vocabulary shared by the request-log sink,
    the tail repair and the shipper. */
module Lines {
  type Byte = bv8
  type Bytes = seq<Byte>

  const NEWLINE: Byte := 10

  predicate NoNewline(s: Bytes, a: nat, b: nat)
    requires b <= |s|
  {
    forall i :: a <= i < b ==> s[i] != NEWLINE
  }

  /** The position just after the first newline at or after `from`, or 0 when there is none. */
  function NextEnd(s: Bytes, from: nat): (e: nat)
    requires from <= |s|
    ensures e == 0 || from < e <= |s|
    decreases |s| - from
  {
    if from == |s| then 0
    else if s[from] == NEWLINE then from + 1
    else NextEnd(s, from + 1)
  }

  lemma {:induction false} NextEndIsFirst(s: Bytes, from: nat)
    requires from <= |s|
    ensures NextEnd(s, from) == 0 ==> NoNewline(s, from, |s|)
    ensures NextEnd(s, from) != 0 ==>
              IsLineEnd(s, NextEnd(s, from)) && NoNewline(s, from, NextEnd(s, from) - 1)
    decreases |s| - from
  {
    if from < |s| && s[from] != NEWLINE {
      NextEndIsFirst(s, from + 1);
    }
  }

  /** `e` is the end of a complete line of `s`. */
  predicate IsLineEnd(s: Bytes, e: nat) {
    0 < e <= |s| && s[e - 1] == NEWLINE
  }

  /** `p` is a place where a line starts. */
  predicate AtBoundary(s: Bytes, p: nat) {
    p == 0 || IsLineEnd(s, p)
  }

  /** Where the line holding position `p` starts. */
  function LineStart(s: Bytes, p: nat): (b: nat)
    requires p <= |s|
    ensures b <= p
  {
    if p == 0 || s[p - 1] == NEWLINE then p else LineStart(s, p - 1)
  }

  lemma {:induction false} LineStartIsLast(s: Bytes, p: nat)
    requires p <= |s|
    ensures AtBoundary(s, LineStart(s, p)) && NoNewline(s, LineStart(s, p), p)
  {
    if p != 0 && s[p - 1] != NEWLINE {
      LineStartIsLast(s, p - 1);
    }
  }

  /** The text of the complete line that ends at `e`, without its newline. */
  function LineAt(s: Bytes, e: nat): (line: Bytes)
    requires IsLineEnd(s, e)
  {
    s[LineStart(s, e - 1)..e - 1]
  }

  /** The end of the complete part of a file: everything after it is a torn line. */
  function CompletePart(s: Bytes): (e: nat)
    ensures e <= |s| && AtBoundary(s, e) && NoNewline(s, e, |s|)
  {
    LineStartIsLast(s, |s|);
    LineStart(s, |s|)
  }

  /** The non-empty complete lines of `s` that lie between `from` and `end`, in file order. */
  function LinesBetween(s: Bytes, from: nat, end: nat): (lines: seq<Bytes>)
    requires from <= end <= |s|
    decreases end - from
  {
    var e := NextEnd(s, from);
    if e == 0 || e > end then [] else Text(s, from, e) + LinesBetween(s, e, end)
  }

  /** The line from `from` to its newline just before `e`, when it has text. */
  function Text(s: Bytes, from: nat, e: nat): (text: seq<Bytes>)
    requires from < e <= |s|
  {
    if e == from + 1 then [] else [s[from..e - 1]]
  }

  /** The elements of `lines` that satisfy `valid`, in order. */
  function Keep(lines: seq<Bytes>, valid: Bytes -> bool): (kept: seq<Bytes>)
    ensures forall l :: l in kept <==> l in lines && valid(l)
  {
    if lines == [] then []
    else if valid(lines[0]) then [lines[0]] + Keep(lines[1..], valid)
    else Keep(lines[1..], valid)
  }

  lemma {:induction false} KeepConcat(a: seq<Bytes>, b: seq<Bytes>, valid: Bytes -> bool)
    ensures Keep(a + b, valid) == Keep(a, valid) + Keep(b, valid)
  {
    if a == [] {
      assert a + b == b;
    } else {
      assert (a + b)[1..] == a[1..] + b;
      KeepConcat(a[1..], b, valid);
    }
  }

  /** Reading on from a boundary to the next newline reads exactly the line that ends there. */
  lemma NextLine(s: Bytes, from: nat)
    requires from <= |s| && AtBoundary(s, from) && NextEnd(s, from) != 0
    ensures var e := NextEnd(s, from);
            IsLineEnd(s, e) && LineAt(s, e) == s[from..e - 1]
  {
    NextEndIsFirst(s, from);
    LineStartIsLast(s, NextEnd(s, from) - 1);
  }

  /** Lines inside a prefix keep their text however the file is extended or cut after them. */
  lemma LineInPrefix(s: Bytes, t: Bytes, e: nat)
    requires e <= |s| && e <= |t| && s[..e] == t[..e]
    requires IsLineEnd(s, e)
    ensures IsLineEnd(t, e) && LineAt(s, e) == LineAt(t, e)
  {
    assert forall i :: 0 <= i < e ==> s[i] == s[..e][i] == t[i];
    var b := LineStart(s, e - 1);
    LineStartIsLast(s, e - 1);
    LineStartIsLast(t, e - 1);
    assert b == LineStart(t, e - 1);
    assert s[b..e - 1] == t[b..e - 1];
  }

  /** No line ends between a position and the newline that follows it. */
  lemma NoEndBetween(s: Bytes, from: nat, e: nat)
    requires from < e && IsLineEnd(s, e)
    ensures NextEnd(s, from) != 0 && NextEnd(s, from) <= e
  {
    NextEndIsFirst(s, from);
  }

  lemma ConcatAssociates<T>(a: seq<T>, b: seq<T>, c: seq<T>)
    ensures a + (b + c) == a + b + c
  {
  }

  lemma ConcatNil<T>(a: seq<T>)
    ensures a == [] + a && a == a + []
  {
  }

  /** The lines between two places are those up to any line end between them, then the others. */
  lemma {:induction false} LinesSplit(s: Bytes, from: nat, mid: nat, end: nat)
    requires from <= mid <= end <= |s| && (mid == from || IsLineEnd(s, mid))
    ensures LinesBetween(s, from, end) == LinesBetween(s, from, mid) + LinesBetween(s, mid, end)
    decreases mid - from
  {
    if mid == from {
      assert LinesBetween(s, from, mid) == [];
      ConcatNil(LinesBetween(s, mid, end));
    } else {
      NoEndBetween(s, from, mid);
      var e := NextEnd(s, from);
      LinesSplit(s, e, mid, end);
      ConcatAssociates(Text(s, from, e), LinesBetween(s, e, mid), LinesBetween(s, mid, end));
    }
  }

  /** The next line alone. */
  lemma OneLine(s: Bytes, from: nat)
    requires from <= |s| && NextEnd(s, from) != 0
    ensures LinesBetween(s, from, NextEnd(s, from)) == Text(s, from, NextEnd(s, from))
  {
    var e := NextEnd(s, from);
    assert LinesBetween(s, e, e) == [];
    ConcatNil(Text(s, from, e));
  }

  /** Every line listed from a boundary on is the text of a complete line of the file. */
  lemma {:induction false} ListedLineEnds(s: Bytes, from: nat, end: nat, line: Bytes) returns (e: nat)
    requires from <= end <= |s| && AtBoundary(s, from) && line in LinesBetween(s, from, end)
    ensures from < e <= end && IsLineEnd(s, e) && LineAt(s, e) == line && line != []
    decreases end - from
  {
    e := NextEnd(s, from);
    NextLine(s, from);
    if line !in Text(s, from, e) {
      e := ListedLineEnds(s, e, end, line);
    }
  }

  /** And every complete line after a boundary that has text is listed. */
  lemma {:induction false} LineIsListed(s: Bytes, from: nat, end: nat, e: nat)
    requires from < e <= end <= |s| && AtBoundary(s, from) && IsLineEnd(s, e) && LineAt(s, e) != []
    ensures LineAt(s, e) in LinesBetween(s, from, end)
    decreases end - from
  {
    NoEndBetween(s, from, e);
    var n := NextEnd(s, from);
    NextLine(s, from);
    if n == e {
      assert LineAt(s, e) in Text(s, from, e);
    } else {
      LineIsListed(s, n, end, e);
    }
  }

  /** The ends of the complete lines of `s` that satisfy `good`. */
  function GoodEnds(s: Bytes, good: Bytes -> bool): (ends: set<nat>)
  {
    set e | 0 < e <= |s| && s[e - 1] == NEWLINE && good(LineAt(s, e))
  }

  /** However a file grows or is cut after its last newline, the lines of the common part stay. */
  lemma GoodEndsOfPrefix(s: Bytes, t: Bytes, good: Bytes -> bool)
    requires |s| <= |t| && s == t[..|s|]
    ensures GoodEnds(s, good) <= GoodEnds(t, good)
    ensures forall e :: e in GoodEnds(t, good) && e <= |s| ==> e in GoodEnds(s, good)
    ensures NoNewline(t, |s|, |t|) ==> GoodEnds(s, good) == GoodEnds(t, good)
  {
    forall e: nat | IsLineEnd(s, e)
      ensures IsLineEnd(t, e) && LineAt(s, e) == LineAt(t, e)
    {
      assert s[..e] == t[..e];
      LineInPrefix(s, t, e);
    }
    forall e: nat | IsLineEnd(t, e) && e <= |s|
      ensures IsLineEnd(s, e) && LineAt(s, e) == LineAt(t, e)
    {
      assert s[..e] == t[..e];
      LineInPrefix(t, s, e);
    }
  }

  /** The torn line at the end of a file. */
  function Fragment(s: Bytes): Bytes {
    s[CompletePart(s)..]
  }

  /** A line written behind a torn one becomes one line with it. */
  lemma LastLine(s: Bytes, line: Bytes)
    requires NEWLINE !in line
    ensures var t := s + line + [NEWLINE];
            IsLineEnd(t, |t|) && LineAt(t, |t|) == Fragment(s) + line && NoNewline(t, |s|, |t| - 1)
  {
    var c, t := CompletePart(s), s + line + [NEWLINE];
    assert forall i :: 0 <= i < |s| ==> t[i] == s[i];
    assert forall i :: |s| <= i < |t| - 1 ==> t[i] == line[i - |s|];
    LineStartIsLast(t, |t| - 1);
    assert LineStart(t, |t| - 1) == c;
    assert t[c..|t| - 1] == s[c..] + line;
  }

  /** Writing one more line adds its own end, exactly when the line it completes is good. */
  lemma GoodEndsAppend(s: Bytes, line: Bytes, good: Bytes -> bool)
    requires NEWLINE !in line
    ensures var t := s + line + [NEWLINE];
            && |t| !in GoodEnds(s, good)
            && GoodEnds(t, good) == GoodEnds(s, good) + if good(Fragment(s) + line) then {|t|} else {}
  {
    var t := s + line + [NEWLINE];
    LastLine(s, line);
    assert t[..|s|] == s;
    GoodEndsOfPrefix(s, t, good);
    assert forall e :: e in GoodEnds(t, good) && e != |t| ==> e <= |s|;
  }

  /** The good lines of a file that end beyond position `k`. */
  function Beyond(s: Bytes, k: nat, good: Bytes -> bool): set<nat> {
    set e | e in GoodEnds(s, good) && e > k
  }

  /** A file cut at `k` keeps every good line but those that end beyond. */
  lemma CutLoses(s: Bytes, k: nat, good: Bytes -> bool)
    requires k <= |s|
    ensures |GoodEnds(s[..k], good)| + |Beyond(s, k, good)| == |GoodEnds(s, good)|
  {
    GoodEndsOfPrefix(s[..k], s, good);
    assert GoodEnds(s, good) == GoodEnds(s[..k], good) + Beyond(s, k, good);
  }
}
