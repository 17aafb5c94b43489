/** Cutting the body of the input into pieces of whole rows, as the optimized C analyzer and
    the Go reference generator do for their workers. */
module Chunks {
  import opened ReferenceFold
  import opened Csv
  import opened Rows

  datatype Range = Range(begin: nat, end: nat)

  /** A place where a piece may end: the start, or just after a line feed, or the end. */
  predicate Boundary(data: seq<Byte>, begin: nat, end: nat, cut: nat)
    requires end <= |data|
  {
    cut == begin || cut == end || (begin < cut <= end && data[cut - 1] == LF)
  }

  /** Pieces that follow each other from begin to `upto`, cut at boundaries. */
  ghost predicate Covers(data: seq<Byte>, begin: nat, end: nat, ranges: seq<Range>, upto: nat) {
    && begin <= upto <= end <= |data|
    && upto == (if |ranges| == 0 then begin else ranges[|ranges| - 1].end)
    && (|ranges| > 0 ==> ranges[0].begin == begin)
    && (forall i :: 0 <= i < |ranges| ==>
          begin <= ranges[i].begin <= ranges[i].end <= end && Boundary(data, begin, end, ranges[i].end))
    && (forall i :: 0 < i < |ranges| ==> ranges[i].begin == ranges[i - 1].end)
  }

  ghost predicate Partition(data: seq<Byte>, begin: nat, end: nat, ranges: seq<Range>) {
    Covers(data, begin, end, ranges, end)
  }

  lemma CoverOneMore(data: seq<Byte>, begin: nat, end: nat, ranges: seq<Range>, upto: nat, stop: nat)
    requires Covers(data, begin, end, ranges, upto) && upto <= stop <= end && Boundary(data, begin, end, stop)
    ensures Covers(data, begin, end, ranges + [Range(upto, stop)], stop)
  {
  }

  /** The end of the line that contains `target`, or the end of the data. */
  function CutAfter(data: seq<Byte>, target: nat, end: nat): (cut: nat)
    requires target <= end <= |data|
    ensures FirstCut(data, target, end, cut)
    decreases end - target
  {
    if target == end then end else if data[target] == LF then target + 1 else CutAfter(data, target + 1, end)
  }

  /** Later targets are never cut earlier, so the pieces do not overlap. */
  lemma {:induction false} CutMonotone(data: seq<Byte>, a: nat, b: nat, end: nat)
    requires a <= b <= end <= |data|
    ensures CutAfter(data, a, end) <= CutAfter(data, b, end)
    decreases b - a
  {
    if a < b && data[a] != LF {
      CutMonotone(data, a + 1, b, end);
    }
  }

  lemma {:induction false} CutIsFirst(data: seq<Byte>, target: nat, end: nat, at: nat)
    requires target <= at < end <= |data| && data[at] == LF && forall j :: target <= j < at ==> data[j] != LF
    ensures CutAfter(data, target, end) == at + 1
    decreases at - target
  {
    if target < at {
      CutIsFirst(data, target + 1, end, at);
    }
  }

  lemma {:induction false} CutIsEnd(data: seq<Byte>, target: nat, end: nat)
    requires target <= end <= |data| && forall j :: target <= j < end ==> data[j] != LF
    ensures CutAfter(data, target, end) == end
    decreases end - target
  {
  }

  lemma ShareBounds(bytes: nat, i: nat, threads: nat)
    requires threads > 0
    ensures bytes * i / threads >= 0
    ensures i <= threads ==> bytes * i / threads <= bytes
  {
  }

  lemma Next(a: nat, n: nat)
    ensures (a + 1) * n == a * n + n
  {
  }

  lemma Below(q: int, n: nat)
    requires q < 0
    ensures q * n + n <= 0
  {
  }

  lemma QuotientMonotone(x: nat, y: nat, n: nat)
    requires n > 0 && x <= y
    ensures x / n <= y / n
  {
    assert x == (x / n) * n + x % n && y == (y / n) * n + y % n;
    if y / n < x / n {
      Below(y / n - x / n, n);
    }
  }

  /** memchr from the target, and the place after what it found. */
  method CutAt(data: seq<Byte>, target: nat, end: nat) returns (cut: nat)
    requires target <= end <= |data|
    ensures cut == CutAfter(data, target, end)
  {
    var feed := FindLineFeed(data, target, end);
    if feed.Some? {
      CutIsFirst(data, target, end, feed.value);
      cut := feed.value + 1;
    } else {
      CutIsEnd(data, target, end);
      cut := end;
    }
  }

  /** Rising places from begin to end. */
  ghost predicate Rising(targets: seq<nat>, begin: nat, end: nat) {
    && (forall i :: 0 <= i < |targets| ==> begin <= targets[i] <= end)
    && (forall i :: 0 <= i < |targets| - 1 ==> targets[i] <= targets[i + 1])
  }

  /** The bytes before worker i, of so many workers. */
  function Share(bytes: nat, i: nat, threads: nat): nat
    requires threads > 0
  {
    bytes * i / threads
  }

  lemma ShareRises(bytes: nat, i: nat, threads: nat)
    requires 0 < threads && i <= threads
    ensures Share(bytes, i, threads) <= bytes
    ensures i > 0 ==> Share(bytes, i - 1, threads) <= Share(bytes, i, threads)
  {
    ShareBounds(bytes, i, threads);
    if i > 0 {
      Next(i - 1, bytes);
      QuotientMonotone(bytes * (i - 1), bytes * i, threads);
    }
  }

  /** The target of every worker: begin + bytes * i / threads. */
  method Targets(begin: nat, end: nat, threads: nat) returns (targets: seq<nat>)
    requires begin <= end && threads > 0
    ensures |targets| == threads + 1 && Rising(targets, begin, end)
    ensures forall i :: 0 <= i <= threads ==> targets[i] == begin + Share(end - begin, i, threads)
  {
    var bytes := end - begin;
    targets := [];
    for i := 0 to threads + 1
      invariant |targets| == i && Rising(targets, begin, end)
      invariant forall k :: 0 <= k < i ==> targets[k] == begin + Share(bytes, k, threads)
    {
      ShareRises(bytes, i, threads);
      targets := targets + [begin + Share(bytes, i, threads)];
    }
  }

  /** As many workers as wanted, but at most one for every 4,096 bytes and one more. */
  ghost predicate Sized(wanted: int, bytes: nat, threads: nat) {
    threads == if wanted > bytes / 4096 + 1 then bytes / 4096 + 1 else if wanted < 1 then 1 else wanted
  }

  /** Cut i of n is that of the line which holds the byte behind the share of i of n workers. */
  ghost predicate EvenCut(data: seq<Byte>, begin: nat, end: nat, i: nat, n: nat, cut: nat)
    requires begin <= end && n > 0
  {
    FirstCut(data, begin + Share(end - begin, i, n), end, cut)
  }

  /** A share is the whole part of i/n of the bytes. */
  lemma ShareMeaning(bytes: nat, i: nat, n: nat)
    requires n > 0
    ensures Share(bytes, i, n) * n <= bytes * i < Share(bytes, i, n) * n + n
  {
    WholePart(bytes * i, n);
  }

  lemma WholePart(x: nat, n: nat)
    requires n > 0
    ensures (x / n) * n <= x < (x / n) * n + n
  {
  }

  /** Each piece but the first begins at its even cut. */
  ghost predicate BeginEvenly(data: seq<Byte>, begin: nat, end: nat, n: nat, ranges: seq<Range>)
    requires begin <= end && n > 0
  {
    forall k :: 0 < k < |ranges| ==> EvenCut(data, begin, end, k, n, ranges[k].begin)
  }

  lemma OneMoreBegins(data: seq<Byte>, begin: nat, end: nat, n: nat, ranges: seq<Range>, last: Range)
    requires begin <= end && n > 0 && BeginEvenly(data, begin, end, n, ranges)
    requires |ranges| > 0 ==> EvenCut(data, begin, end, |ranges|, n, last.begin)
    ensures BeginEvenly(data, begin, end, n, ranges + [last])
  {
  }

  /** The pieces of the C analyzer, one for every worker, cut after even shares of the bytes; some may
      be empty. */
  method Split(data: seq<Byte>, begin: nat, end: nat, online: nat) returns (ranges: seq<Range>)
    requires begin <= end <= |data| && online >= 1
    ensures Partition(data, begin, end, ranges) && |ranges| > 0 && Sized(online, end - begin, |ranges|)
    ensures BeginEvenly(data, begin, end, |ranges|, ranges)
  {
    var threads := online;
    if threads > (end - begin) / 4096 + 1 {
      threads := (end - begin) / 4096 + 1;
    }
    var targets := Targets(begin, end, threads);
    ranges := [];
    var start := begin;
    for i := 0 to threads
      invariant |ranges| == i && Covers(data, begin, end, ranges, start) && BeginEvenly(data, begin, end, threads, ranges)
      invariant i == threads ==> start == end
      invariant i == 0 ==> start == begin
      invariant 0 < i < threads ==> start == CutAfter(data, targets[i], end)
    {
      var stop := end;
      if i + 1 < threads {
        stop := NextCut(data, begin, end, i, targets, start);
      }
      CoverOneMore(data, begin, end, ranges, start, stop);
      OneMoreBegins(data, begin, end, threads, ranges, Range(start, stop));
      ranges := ranges + [Range(start, stop)];
      start := stop;
    }
  }

  /** Where piece i ends; never before it starts. */
  method NextCut(data: seq<Byte>, begin: nat, end: nat, i: nat, targets: seq<nat>, ghost start: nat) returns (stop: nat)
    requires begin <= start <= end <= |data| && i + 1 < |targets| && Rising(targets, begin, end)
    requires if i == 0 then start == begin else start == CutAfter(data, targets[i], end)
    ensures stop == CutAfter(data, targets[i + 1], end)
    ensures start <= stop <= end && Boundary(data, begin, end, stop)
  {
    stop := CutAt(data, targets[i + 1], end);
    if i > 0 {
      CutMonotone(data, targets[i], targets[i + 1], end);
    }
  }

  /** A piece ends at the even cut i, or is still to begin there. */
  ghost predicate Ends(data: seq<Byte>, begin: nat, end: nat, i: nat, n: nat, ranges: seq<Range>)
    requires begin <= end && n > 0
  {
    exists k :: 0 <= k < |ranges| && EvenCut(data, begin, end, i, n, ranges[k].end)
  }

  /** Where this piece ends there is an even cut, or the end. */
  ghost predicate IsEven(data: seq<Byte>, begin: nat, end: nat, n: nat, cut: nat)
    requires begin <= end && n > 0
  {
    cut == end || exists i: nat :: 0 < i < n && EvenCut(data, begin, end, i, n, cut)
  }

  /** The pieces end exactly at the even cuts and at the end. */
  ghost predicate CutEvenly(data: seq<Byte>, begin: nat, end: nat, n: nat, upto: nat, ranges: seq<Range>)
    requires begin <= end && n > 0
  {
    && (forall k :: 0 <= k < |ranges| ==> IsEven(data, begin, end, n, ranges[k].end))
    && forall i :: 0 < i < upto ==> Ends(data, begin, end, i, n, ranges)
  }

  lemma OneMoreEven(data: seq<Byte>, begin: nat, end: nat, n: nat, upto: nat, ranges: seq<Range>, last: Range)
    requires begin <= end && n > 0 && CutEvenly(data, begin, end, n, upto, ranges) && IsEven(data, begin, end, n, last.end)
    ensures CutEvenly(data, begin, end, n, upto, ranges + [last])
  {
    forall i | 0 < i < upto ensures Ends(data, begin, end, i, n, ranges + [last]) {
      assert Ends(data, begin, end, i, n, ranges);
      var k :| 0 <= k < |ranges| && EvenCut(data, begin, end, i, n, ranges[k].end);
      assert EvenCut(data, begin, end, i, n, (ranges + [last])[k].end);
    }
  }

  /** splitChunks of the Go generator: the same cuts without the empty pieces. */
  method SplitChunks(data: seq<Byte>, begin: nat, end: nat, wanted: int) returns (ranges: seq<Range>, ghost threads: nat)
    requires begin <= |data| && end <= |data|
    ensures begin >= end ==> ranges == []
    ensures begin < end ==> Partition(data, begin, end, ranges) && 1 <= |ranges|
    ensures forall i :: 0 <= i < |ranges| ==> ranges[i].begin < ranges[i].end
    ensures begin < end ==>
              threads > 0 && Sized(wanted, end - begin, threads) && CutEvenly(data, begin, end, threads, threads, ranges)
  {
    threads := 1;
    if begin >= end {
      return [], 1;
    }
    var n := wanted;
    if n > (end - begin) / 4096 + 1 {
      n := (end - begin) / 4096 + 1;
    }
    if n < 1 {
      n := 1;
    }
    threads := n;
    var targets := Targets(begin, end, n);
    ranges := [];
    var chunkBegin: nat := begin;
    for i := 1 to n
      invariant Covers(data, begin, end, ranges, chunkBegin)
      invariant if i == 1 then chunkBegin == begin else chunkBegin == CutAfter(data, targets[i - 1], end)
      invariant forall k :: 0 <= k < |ranges| ==> ranges[k].begin < ranges[k].end
      invariant CutEvenly(data, begin, end, n, i, ranges)
    {
      var chunkEnd := NextCut(data, begin, end, i - 1, targets, chunkBegin);
      ranges := NextChunk(data, begin, end, n, i, targets[i], ranges, chunkBegin, chunkEnd);
      chunkBegin := chunkEnd;
    }
    if chunkBegin < end {
      CoverOneMore(data, begin, end, ranges, chunkBegin, end);
      OneMoreEven(data, begin, end, n, n, ranges, Range(chunkBegin, end));
      ranges := ranges + [Range(chunkBegin, end)];
    }
  }

  /** One cut of splitChunks. */
  method NextChunk(data: seq<Byte>, begin: nat, end: nat, n: nat, i: nat, ghost target: nat, ranges: seq<Range>,
                   from: nat, to: nat)
    returns (longer: seq<Range>)
    requires begin <= from <= to <= end <= |data| && 0 < i < n && Covers(data, begin, end, ranges, from)
    requires target == begin + Share(end - begin, i, n) && target <= end && to == CutAfter(data, target, end)
    requires Boundary(data, begin, end, to) && (to == from ==> |ranges| > 0)
    requires CutEvenly(data, begin, end, n, i, ranges)
    requires forall k :: 0 <= k < |ranges| ==> ranges[k].begin < ranges[k].end
    ensures Covers(data, begin, end, longer, to) && CutEvenly(data, begin, end, n, i + 1, longer)
    ensures forall k :: 0 <= k < |longer| ==> longer[k].begin < longer[k].end
  {
    longer := ranges;
    assert EvenCut(data, begin, end, i, n, to);
    if from < to {
      CoverOneMore(data, begin, end, ranges, from, to);
      OneMoreEven(data, begin, end, n, i, ranges, Range(from, to));
      longer := ranges + [Range(from, to)];
    }
    assert EvenCut(data, begin, end, i, n, longer[|longer| - 1].end);
    assert Ends(data, begin, end, i, n, longer);
  }

  // ---- Pieces are whole rows ---------------------------------------------------------

  /** The pieces of a partition hold whole rows, each row in exactly one piece. */
  lemma {:induction false} PiecesAreRows(data: seq<Byte>, begin: nat, end: nat, ranges: seq<Range>, upto: nat, lines: seq<Line>)
    returns (pieces: seq<seq<Line>>, rest: seq<Line>)
    requires Covers(data, begin, end, ranges, upto) && ValidLines(lines) && data[begin..end] == Body(lines)
    ensures |pieces| == |ranges| && Flatten(pieces) + rest == lines
    ensures forall i :: 0 <= i < |ranges| ==> ValidLines(pieces[i]) && data[ranges[i].begin..ranges[i].end] == Body(pieces[i])
    ensures ValidLines(rest) && data[upto..end] == Body(rest)
    decreases |ranges|
  {
    if |ranges| == 0 {
      pieces, rest := [], lines;
    } else {
      var n := |ranges| - 1;
      var front, last := ranges[..n], ranges[n];
      CoverOneLess(data, begin, end, ranges, upto);
      var before, left := PiecesAreRows(data, begin, end, front, last.begin, lines);
      var piece, after := CutPiece(data, last.begin, upto, end, begin, left);
      pieces, rest := before + [piece], after;
      JoinPieces(before, piece, after);
      PiecesNext(data, ranges, before, piece);
    }
  }

  lemma PiecesNext(data: seq<Byte>, ranges: seq<Range>, before: seq<seq<Line>>, piece: seq<Line>)
    requires |ranges| == |before| + 1 && forall i :: 0 <= i < |ranges| ==> ranges[i].begin <= ranges[i].end <= |data|
    requires forall i :: 0 <= i < |before| ==>
               ValidLines(before[i]) && data[ranges[..|before|][i].begin..ranges[..|before|][i].end] == Body(before[i])
    requires ValidLines(piece) && data[ranges[|before|].begin..ranges[|before|].end] == Body(piece)
    ensures var pieces := before + [piece];
            forall i :: 0 <= i < |ranges| ==> ValidLines(pieces[i]) && data[ranges[i].begin..ranges[i].end] == Body(pieces[i])
  {
    var pieces := before + [piece];
    forall i | 0 <= i < |ranges| ensures ValidLines(pieces[i]) && data[ranges[i].begin..ranges[i].end] == Body(pieces[i]) {
      if i < |before| {
        assert ranges[..|before|][i] == ranges[i] && pieces[i] == before[i];
      }
    }
  }

  lemma JoinPieces(before: seq<seq<Line>>, piece: seq<Line>, after: seq<Line>)
    ensures Flatten(before + [piece]) + after == Flatten(before) + (piece + after)
  {
  }

  lemma CoverOneLess(data: seq<Byte>, begin: nat, end: nat, ranges: seq<Range>, upto: nat)
    requires Covers(data, begin, end, ranges, upto) && |ranges| > 0
    ensures var n := |ranges| - 1;
            Covers(data, begin, end, ranges[..n], ranges[n].begin) && begin <= ranges[n].begin <= ranges[n].end == upto
    ensures Boundary(data, begin, end, upto)
  {
  }

  lemma CutPiece(data: seq<Byte>, from: nat, cut: nat, end: nat, begin: nat, lines: seq<Line>)
    returns (piece: seq<Line>, rest: seq<Line>)
    requires begin <= from <= cut <= end <= |data| && ValidLines(lines) && data[from..end] == Body(lines)
    requires Boundary(data, begin, end, cut)
    ensures piece + rest == lines && ValidLines(piece) && ValidLines(rest)
    ensures data[from..cut] == Body(piece) && data[cut..end] == Body(rest)
  {
    if from < cut {
      assert data[cut - 1] == data[from..end][cut - from - 1];
      if cut == end {
        LastByte(lines);
      }
    }
    var k := CutAtLineFeed(lines, cut - from);
    piece, rest := lines[..k], lines[k..];
    SliceHalves(data, from, cut, end);
  }

  lemma SliceHalves(data: seq<Byte>, from: nat, cut: nat, end: nat)
    requires from <= cut <= end <= |data|
    ensures data[from..end][..cut - from] == data[from..cut] && data[from..end][cut - from..] == data[cut..end]
  {
  }
}
