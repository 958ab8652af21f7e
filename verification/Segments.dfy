/** How a download of known size is cut into byte ranges. */
module Segments {

  const MIN_SEGMENT_SIZE: int := 0x10_0000

  /** One byte range; `current` is the next byte still needed, `end` is inclusive and -1 when unbounded. */
  datatype Segment = Segment(start: int, current: int, end: int)

  predicate Bounded(total: int, ranged: bool) {
    ranged && 0 < total
  }

  function Min(a: int, b: int): int {
    if a < b then a else b
  }

  function Max(a: int, b: int): int {
    if a < b then b else a
  }

  /** How many connections a bounded download gets. */
  function SegmentCount(total: int, maxConn: int): int {
    Max(1, Min(Max(maxConn, 1), total / MIN_SEGMENT_SIZE))
  }

  /** The segments are non-empty, lie end to end without a gap, and cover exactly `[0, total)`. */
  ghost predicate Contiguous(segs: seq<Segment>, total: int) {
    && |segs| > 0
    && segs[0].start == 0
    && segs[|segs| - 1].end == total - 1
    && (forall i :: 0 <= i < |segs| ==> 0 <= segs[i].start <= segs[i].end)
    && (forall i :: 0 < i < |segs| ==> segs[i].start == segs[i - 1].end + 1)
  }

  function Length(seg: Segment): int {
    seg.end + 1 - seg.start
  }

  predicate Owns(seg: Segment, b: int) {
    seg.start <= b <= seg.end
  }

  /** What the source promises of a fresh list of segments. */
  ghost predicate EvenSplit(segs: seq<Segment>, total: int, maxConn: int) {
    && Contiguous(segs, total)
    && |segs| == SegmentCount(total, maxConn)
    && (forall i :: 0 <= i < |segs| ==> segs[i].current == segs[i].start)
    && (forall i :: 0 <= i < |segs| - 1 ==> Length(segs[i]) == Length(segs[0]))
    && 0 <= Length(segs[|segs| - 1]) - Length(segs[0]) < |segs|
    && (|segs| > 1 ==> forall i :: 0 <= i < |segs| ==> Length(segs[i]) >= MIN_SEGMENT_SIZE)
  }

  /** Cuts `[0, total)` into contiguous ranges, or returns one unbounded segment. */
  method BuildSegments(total: int, maxConn: int, ranged: bool) returns (segs: seq<Segment>)
    ensures !Bounded(total, ranged) ==> segs == [Segment(0, 0, -1)]
    ensures Bounded(total, ranged) ==> EvenSplit(segs, total, maxConn)
  {
    if !ranged || total <= 0 {
      return [Segment(0, 0, -1)];
    }
    var conns := maxConn;
    if conns < 1 {
      conns := 1;
    }
    var n := conns;
    var bySize := total / MIN_SEGMENT_SIZE;
    if bySize < n {
      n := bySize;
    }
    if n < 1 {
      n := 1;
    }
    segs := [];
    var size := total / n;
    var start := 0;
    for i := 0 to n
      invariant |segs| == i && forall k :: 0 <= k < i ==> segs[k] == Piece(total, n, k)
      invariant start == if i < n then i * size else total
    {
      NextMultiple(i, size);
      var end := start + size - 1;
      if i == n - 1 {
        end := total - 1;
      }
      segs := segs + [Segment(start, start, end)];
      start := end + 1;
    }
    PiecesSplitEvenly(segs, total, n);
  }

  /** Segment `i` of `n`. */
  function Piece(total: int, n: int, i: int): Segment
    requires n > 0
  {
    var start := i * (total / n);
    Segment(start, start, if i == n - 1 then total - 1 else start + total / n - 1)
  }

  lemma PiecesSplitEvenly(segs: seq<Segment>, total: int, n: int)
    requires total > 0 && n > 0 && (n == 1 || n <= total / MIN_SEGMENT_SIZE)
    requires |segs| == n && forall k :: 0 <= k < n ==> segs[k] == Piece(total, n, k)
    ensures Contiguous(segs, total)
    ensures forall i :: 0 <= i < n ==> segs[i].current == segs[i].start
    ensures forall i :: 0 <= i < n - 1 ==> Length(segs[i]) == total / n
    ensures Length(segs[n - 1]) == total / n + total % n && 0 <= total % n < n
    ensures n > 1 ==> total / n >= MIN_SEGMENT_SIZE
  {
    var size := total / n;
    SizeFacts(total, n);
    forall i | 0 <= i < n ensures 0 <= segs[i].start <= segs[i].end && (i > 0 ==> segs[i].start == segs[i - 1].end + 1) {
      NextMultiple(i, size);
      if i > 0 {
        NextMultiple(i - 1, size);
      }
      LastFits(total, n);
    }
    LastFits(total, n);
  }

  lemma LastFits(total: int, n: int)
    requires total > 0 && n > 0
    ensures (n - 1) * (total / n) + total / n + total % n == total
  {
  }

  lemma NextMultiple(i: int, size: int)
    ensures (i + 1) * size == i * size + size
    ensures i >= 0 && size >= 0 ==> i * size >= 0
  {
  }

  lemma SizeFacts(total: int, n: int)
    requires total > 0 && n >= 1
    requires n == 1 || n <= total / MIN_SEGMENT_SIZE
    ensures total / n >= 1
    ensures n > 1 ==> total / n >= MIN_SEGMENT_SIZE
    ensures total == n * (total / n) + total % n && 0 <= total % n < n
  {
    if n > 1 {
      QuotientAtLeast(total, n, MIN_SEGMENT_SIZE);
    }
  }

  lemma QuotientAtLeast(total: int, n: int, m: int)
    requires n >= 1 && n * m <= total
    ensures total / n >= m
  {
    var q, r := total / n, total % n;
    assert total == n * q + r;
    if q < m {
      DifferenceAtLeast(n, q, m);
    }
  }

  /** The number of connections is the largest there can be: no more than asked for, and, beyond one, none with less
      than 1 MiB. */
  lemma CountIsLargest(total: int, maxConn: int)
    requires total > 0
    ensures var n := SegmentCount(total, maxConn);
            && 1 <= n && (n == 1 || (n <= maxConn && n * 1048576 <= total))
            && forall m :: 1 < m <= maxConn && m * 1048576 <= total ==> m <= n
  {
    var n, q := SegmentCount(total, maxConn), total / MIN_SEGMENT_SIZE;
    assert MIN_SEGMENT_SIZE == 1048576;
    assert total == MIN_SEGMENT_SIZE * q + total % MIN_SEGMENT_SIZE;
    forall m | 1 < m <= maxConn && m * 1048576 <= total ensures m <= n {
      if m > q {
        DifferenceAtLeast(MIN_SEGMENT_SIZE, q, m);
      }
    }
  }

  /** The even split is determined by its size bounds: it is the only list the contract allows. */
  lemma SplitIsUnique(a: seq<Segment>, b: seq<Segment>, total: int, maxConn: int)
    requires EvenSplit(a, total, maxConn) && EvenSplit(b, total, maxConn)
    ensures a == b
  {
    var n := |a|;
    LengthsAddUp(a, total);
    LengthsAddUp(b, total);
    QuotientIsUnique(n, Length(a[0]), Length(a[n - 1]) - Length(a[0]), Length(b[0]), Length(b[n - 1]) - Length(b[0]));
    forall i | 0 <= i < n ensures a[i] == b[i] {
      SpanOfSplit(a, i);
      SpanOfSplit(b, i);
    }
  }

  lemma LengthsAddUp(segs: seq<Segment>, total: int)
    requires Contiguous(segs, total)
    requires forall k :: 0 <= k < |segs| - 1 ==> Length(segs[k]) == Length(segs[0])
    ensures |segs| * Length(segs[0]) + (Length(segs[|segs| - 1]) - Length(segs[0])) == total
  {
    SpanOfSplit(segs, |segs| - 1);
    NextMultiple(|segs| - 1, Length(segs[0]));
  }

  lemma {:induction false} SpanOfSplit(segs: seq<Segment>, i: nat)
    requires |segs| > i && segs[0].start == 0
    requires forall k :: 0 < k < |segs| ==> segs[k].start == segs[k - 1].end + 1
    requires forall k :: 0 <= k < |segs| - 1 ==> Length(segs[k]) == Length(segs[0])
    ensures segs[i].start == i * Length(segs[0])
  {
    if i > 0 {
      SpanOfSplit(segs, i - 1);
      NextMultiple(i - 1, Length(segs[0]));
    }
  }

  lemma QuotientIsUnique(n: int, q: int, r: int, q': int, r': int)
    requires n > 0 && 0 <= r < n && 0 <= r' < n
    requires n * q + r == n * q' + r'
    ensures q == q' && r == r'
  {
    if q < q' {
      DifferenceAtLeast(n, q, q');
    } else if q' < q {
      DifferenceAtLeast(n, q', q);
    }
  }

  lemma DifferenceAtLeast(n: int, small: int, large: int)
    requires n > 0 && small < large
    ensures n * small + n <= n * large
  {
    var d := large - small - 1;
    assert n * large == n * (small + 1 + d) == n * small + n + n * d;
  }

  /** Every byte of the file belongs to exactly one segment. */
  lemma {:induction false} EveryByteHasOneOwner(segs: seq<Segment>, total: int, b: int)
    requires Contiguous(segs, total) && 0 <= b < total
    ensures exists i :: 0 <= i < |segs| && Owns(segs[i], b)
    ensures forall i, j | 0 <= i < |segs| && 0 <= j < |segs| :: Owns(segs[i], b) && Owns(segs[j], b) ==> i == j
  {
    var owner := OwnerUpTo(segs, |segs| - 1, b);
    assert Owns(segs[owner], b);
    forall i, j | 0 <= i < j < |segs| ensures segs[i].end < segs[j].start {
      SegmentsAscend(segs, total, i, j);
    }
  }

  lemma {:induction false} OwnerUpTo(segs: seq<Segment>, last: nat, b: int) returns (i: nat)
    requires last < |segs| && segs[0].start <= b <= segs[last].end
    requires forall k :: 0 < k < |segs| ==> segs[k].start == segs[k - 1].end + 1
    ensures i <= last && segs[i].start <= b <= segs[i].end
  {
    if last == 0 || segs[last].start <= b {
      i := last;
    } else {
      i := OwnerUpTo(segs, last - 1, b);
    }
  }

  lemma {:induction false} SegmentsAscend(segs: seq<Segment>, total: int, i: int, j: int)
    requires Contiguous(segs, total) && 0 <= i < j < |segs|
    ensures segs[i].end < segs[j].start
    decreases j
  {
    if i < j - 1 {
      SegmentsAscend(segs, total, i, j - 1);
    }
  }
}
