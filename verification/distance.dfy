/**
 * The sample dissimilarity matrix of panglossStruct.cpp: the Manhattan
 * distance between every pair of rows of a 0/1 population matrix, computed
 * over the upper triangle through a bounded FIFO of pending results and
 * mirrored into the lower triangle.
 */
module Distance {

  /** A population matrix given by its rows; every row has the same length. */
  predicate IsRectangular(m: seq<seq<int>>) {
    forall r :: 0 <= r < |m| ==> |m[r]| == |m[0]|
  }

  predicate IsBinary(v: seq<int>) {
    forall k :: 0 <= k < |v| ==> v[k] == 0 || v[k] == 1
  }

  function Abs(x: int): nat {
    if x < 0 then -x else x
  }

  function Min(a: nat, b: nat): nat {
    if a <= b then a else b
  }

  /** The positions where two rows differ. */
  function DiffPositions(a: seq<int>, b: seq<int>): set<nat>
    requires |a| == |b|
  {
    set k: nat | k < |a| && a[k] != b[k]
  }

  /** How far apart two rows are at position k. */
  function Gap(a: seq<int>, b: seq<int>, k: nat): nat
    requires |a| == |b| && k < |a|
  {
    Abs(a[k] - b[k])
  }

  /**
   * distanceFunction: the sum of the absolute element-wise differences, so
   * no single position differs by more than the whole distance.
   */
  function DistanceFunction(a: seq<int>, b: seq<int>): (d: nat)
    requires |a| == |b|
    ensures forall k :: 0 <= k < |a| ==> Gap(a, b, k) <= d
  {
    if |a| == 0 then 0
    else
      var n := |a| - 1;
      assert forall k :: 0 <= k < n ==> Gap(a[..n], b[..n], k) == Gap(a, b, k);
      DistanceFunction(a[..n], b[..n]) + Abs(a[n] - b[n])
  }

  /** The distance is zero exactly when the two rows are equal. */
  lemma {:induction false} DistanceZeroIff(a: seq<int>, b: seq<int>)
    requires |a| == |b|
    ensures DistanceFunction(a, b) == 0 <==> a == b
  {
    if |a| > 0 {
      var n := |a| - 1;
      DistanceZeroIff(a[..n], b[..n]);
      assert a == a[..n] + [a[n]] && b == b[..n] + [b[n]];
    }
  }

  lemma {:induction false} DistanceSymmetric(a: seq<int>, b: seq<int>)
    requires |a| == |b|
    ensures DistanceFunction(a, b) == DistanceFunction(b, a)
  {
    if |a| > 0 {
      var n := |a| - 1;
      DistanceSymmetric(a[..n], b[..n]);
    }
  }

  /** On 0/1 rows the distance is the Hamming count of differing positions. */
  lemma {:induction false} DistanceIsHamming(a: seq<int>, b: seq<int>)
    requires |a| == |b| && IsBinary(a) && IsBinary(b)
    ensures DistanceFunction(a, b) == |DiffPositions(a, b)|
  {
    if |a| > 0 {
      var n := |a| - 1;
      DistanceIsHamming(a[..n], b[..n]);
      var prefix := DiffPositions(a[..n], b[..n]);
      assert n !in prefix;
      if a[n] != b[n] {
        assert DiffPositions(a, b) == prefix + {n};
      } else {
        assert DiffPositions(a, b) == prefix;
      }
    }
  }

  /** distance_element: one result of threadDistance. */
  datatype DistanceElement = DistanceElement(row: nat, col: nat, distance: nat)

  /**
   * threadDistance: the record for the pair (i, j); on 0/1 rows its distance
   * counts the positions where the rows differ.
   */
  function ThreadDistance(i: nat, j: nat, row1: seq<int>, row2: seq<int>): (d: DistanceElement)
    requires |row1| == |row2|
    ensures d.row == i && d.col == j
    ensures d.distance == 0 <==> row1 == row2
    ensures IsBinary(row1) && IsBinary(row2) ==> d.distance == |DiffPositions(row1, row2)|
  {
    DistanceZeroIff(row1, row2);
    var d := DistanceElement(i, j, DistanceFunction(row1, row2));
    if IsBinary(row1) && IsBinary(row2) then DistanceIsHamming(row1, row2); d else d
  }

  /**
   * The value the sequential build (NO_THREAD) writes at (r, c): zero on the
   * diagonal, the distance of the upper-triangle pair everywhere else.
   */
  function RefEntry(m: seq<seq<int>>, r: nat, c: nat): nat
    requires IsRectangular(m) && r < |m| && c < |m|
  {
    if r == c then 0
    else if r < c then DistanceFunction(m[r], m[c])
    else DistanceFunction(m[c], m[r])
  }

  /** The matrix of the sequential computation: square, symmetric, zero diagonal. */
  function ReferenceMatrix(m: seq<seq<int>>): (d: seq<seq<nat>>)
    requires IsRectangular(m)
    ensures |d| == |m| && forall r :: 0 <= r < |m| ==> |d[r]| == |m|
    ensures forall r :: 0 <= r < |m| ==> d[r][r] == 0
    ensures forall r, c :: 0 <= r < |m| && 0 <= c < |m| ==> d[r][c] == d[c][r]
  {
    seq(|m|, r requires 0 <= r < |m| => seq(|m|, c requires 0 <= c < |m| => RefEntry(m, r, c)))
  }

  /** Every cell of the reference matrix is the distance between its two rows. */
  lemma ReferenceMatrixIsDistance(m: seq<seq<int>>, r: nat, c: nat)
    requires IsRectangular(m) && r < |m| && c < |m|
    ensures ReferenceMatrix(m)[r][c] == DistanceFunction(m[r], m[c])
  {
    if c < r {
      DistanceSymmetric(m[c], m[r]);
    } else if c == r {
      DistanceZeroIff(m[r], m[c]);
    }
  }

  /** For a 0/1 matrix every cell counts the columns where its two rows differ. */
  lemma ReferenceMatrixIsHamming(m: seq<seq<int>>, r: nat, c: nat)
    requires IsRectangular(m) && r < |m| && c < |m|
    requires forall k :: 0 <= k < |m| ==> IsBinary(m[k])
    ensures ReferenceMatrix(m)[r][c] == |DiffPositions(m[r], m[c])|
  {
    ReferenceMatrixIsDistance(m, r, c);
    DistanceIsHamming(m[r], m[c]);
  }

  /** The record threadDistance returns for the pair (r, c) of the population. */
  ghost function Issued(m: seq<seq<int>>, r: nat, c: nat): DistanceElement
    requires IsRectangular(m) && r < |m| && c < |m|
  {
    DistanceElement(r, c, DistanceFunction(m[r], m[c]))
  }

  /** The records row r issues for columns r + 1 .. j - 1, in loop order. */
  ghost function RowSubmissions(m: seq<seq<int>>, r: nat, j: nat): seq<DistanceElement>
    requires IsRectangular(m) && r < |m| && j <= |m|
    decreases j
  {
    if j <= r + 1 then []
    else RowSubmissions(m, r, j - 1) + [Issued(m, r, j - 1)]
  }

  /** The records the loop issues for rows 0 .. i - 1, in loop order. */
  ghost function SubmittedBefore(m: seq<seq<int>>, i: nat): seq<DistanceElement>
    requires IsRectangular(m) && i <= |m|
  {
    if i == 0 then []
    else SubmittedBefore(m, i - 1) + RowSubmissions(m, i - 1, |m|)
  }

  /** Every upper-triangle pair, in the order the nested loops issue it. */
  ghost function SubmissionOrder(m: seq<seq<int>>): seq<DistanceElement>
    requires IsRectangular(m)
  {
    SubmittedBefore(m, |m|)
  }

  /** A pending or completed record: an upper-triangle pair and its distance. */
  ghost predicate WellFormed(m: seq<seq<int>>, e: DistanceElement)
    requires IsRectangular(m)
  {
    e.row < e.col < |m| && e.distance == DistanceFunction(m[e.row], m[e.col])
  }

  lemma {:induction false} RowSubmissionsCover(m: seq<seq<int>>, r: nat, j: nat, c: nat)
    requires IsRectangular(m) && r < c < j <= |m|
    ensures Issued(m, r, c) in RowSubmissions(m, r, j)
  {
    if c < j - 1 {
      RowSubmissionsCover(m, r, j - 1, c);
      InLeft(RowSubmissions(m, r, j - 1), [Issued(m, r, j - 1)], Issued(m, r, c));
    } else {
      InRight(RowSubmissions(m, r, j - 1), [Issued(m, r, j - 1)], Issued(m, r, c));
    }
  }

  lemma {:induction false} SubmittedBeforeCovers(m: seq<seq<int>>, i: nat, r: nat, c: nat)
    requires IsRectangular(m) && r < c < |m| && r < i <= |m|
    ensures Issued(m, r, c) in SubmittedBefore(m, i)
    decreases i
  {
    var before := SubmittedBefore(m, i - 1);
    var row := RowSubmissions(m, i - 1, |m|);
    if r < i - 1 {
      SubmittedBeforeCovers(m, i - 1, r, c);
      InLeft(before, row, Issued(m, r, c));
    } else {
      RowSubmissionsCover(m, r, |m|, c);
      InRight(before, row, Issued(m, r, c));
    }
  }

  lemma InLeft<T>(a: seq<T>, b: seq<T>, x: T)
    requires x in a
    ensures x in a + b
  {
  }

  lemma InRight<T>(a: seq<T>, b: seq<T>, x: T)
    requires x in b
    ensures x in a + b
  {
  }

  /** Every pair r < c is issued, so every off-diagonal cell gets written. */
  lemma SubmissionOrderCovers(m: seq<seq<int>>, r: nat, c: nat)
    requires IsRectangular(m) && r < c < |m|
    ensures Issued(m, r, c) in SubmissionOrder(m)
  {
    SubmittedBeforeCovers(m, |m|, r, c);
  }

  lemma {:induction false} RowSubmissionsLength(m: seq<seq<int>>, r: nat, j: nat)
    requires IsRectangular(m) && r < j <= |m|
    ensures |RowSubmissions(m, r, j)| == j - r - 1
  {
    if j > r + 1 {
      RowSubmissionsLength(m, r, j - 1);
      LengthStep(RowSubmissions(m, r, j - 1), [Issued(m, r, j - 1)], RowSubmissions(m, r, j));
    }
  }

  /** The number of pairs (r, c), r < c < n, whose row r is below i. */
  function PairsBefore(n: nat, i: nat): nat
    requires i <= n
  {
    if i == 0 then 0 else PairsBefore(n, i - 1) + (n - i)
  }

  lemma {:induction false} PairsBeforeClosedForm(n: nat, i: nat)
    requires i <= n
    ensures 2 * PairsBefore(n, i) == i * (2 * n - i - 1)
  {
    if i > 0 {
      PairsBeforeClosedForm(n, i - 1);
      assert (i - 1) * (2 * n - i) + 2 * (n - i) == i * (2 * n - i - 1);
    }
  }

  lemma {:induction false} SubmittedBeforeLength(m: seq<seq<int>>, i: nat)
    requires IsRectangular(m) && i <= |m|
    ensures |SubmittedBefore(m, i)| == PairsBefore(|m|, i)
  {
    if i > 0 {
      SubmittedBeforeLength(m, i - 1);
      RowSubmissionsLength(m, i - 1, |m|);
      LengthStep(SubmittedBefore(m, i - 1), RowSubmissions(m, i - 1, |m|), SubmittedBefore(m, i));
    }
  }

  /** n rows give n(n-1)/2 submitted pairs. */
  lemma SubmissionCount(m: seq<seq<int>>)
    requires IsRectangular(m)
    ensures 2 * |SubmissionOrder(m)| == |m| * (|m| - 1)
  {
    SubmittedBeforeLength(m, |m|);
    PairsBeforeClosedForm(|m|, |m|);
  }

  lemma LengthStep<T>(a: seq<T>, b: seq<T>, ab: seq<T>)
    requires ab == a + b
    ensures |ab| == |a| + |b|
  {
  }

  lemma AppendAssoc<T>(a: seq<T>, b: seq<T>, x: T)
    ensures (a + b) + [x] == a + (b + [x])
  {
  }

  /** Issuing the record for (i, j) extends the log by the next entry of row i. */
  lemma RowStep(m: seq<seq<int>>, i: nat, j: nat, before: seq<DistanceElement>, log: seq<DistanceElement>)
    requires IsRectangular(m) && i < j < |m|
    requires log == before + RowSubmissions(m, i, j)
    ensures log + [Issued(m, i, j)] == before + RowSubmissions(m, i, j + 1)
  {
    AppendAssoc(before, RowSubmissions(m, i, j), Issued(m, i, j));
  }

  /** Once row i has issued all its pairs, the log is the one for rows 0 .. i. */
  lemma RowDone(m: seq<seq<int>>, i: nat, log: seq<DistanceElement>)
    requires IsRectangular(m) && i < |m|
    requires log == SubmittedBefore(m, i) + RowSubmissions(m, i, |m|)
    ensures log == SubmittedBefore(m, i + 1)
  {
  }

  /** Both cells of a record's pair hold its distance. */
  ghost predicate Written(dist: array2<int>, e: DistanceElement)
    reads dist
  {
    e.row < dist.Length0 && e.col < dist.Length1 &&
    e.col < dist.Length0 && e.row < dist.Length1 &&
    dist[e.row, e.col] == e.distance && dist[e.col, e.row] == e.distance
  }

  /**
   * What the matrix holds so far: both cells of every completed record, and
   * zero on the first `diag` diagonal cells.
   */
  ghost predicate Filled(dist: array2<int>, m: seq<seq<int>>, completed: seq<DistanceElement>, diag: nat)
    requires IsRectangular(m)
    reads dist
  {
    dist.Length0 == |m| && dist.Length1 == |m| && diag <= |m| &&
    (forall k :: 0 <= k < |completed| ==> WellFormed(m, completed[k]) && Written(dist, completed[k])) &&
    forall r :: 0 <= r < diag ==> dist[r, r] == 0
  }

  /**
   * The FIFO discipline: the submitted records are the completed ones followed
   * by the pending ones; the queue holds min(submitted, threads) records.
   * That count never shrinks, so `peak`, the most the queue has held, equals it.
   */
  ghost predicate QueueInv(m: seq<seq<int>>, threads: nat, submitted: seq<DistanceElement>,
                           completed: seq<DistanceElement>, pending: seq<DistanceElement>, peak: nat)
    requires IsRectangular(m)
  {
    submitted == completed + pending &&
    |pending| == Min(|submitted|, threads) && peak == |pending| &&
    forall k :: 0 <= k < |pending| ==> WellFormed(m, pending[k])
  }

  /** The state of dissimiliarityMatrix after its outer loop has handled rows 0 .. i - 1. */
  ghost predicate RowsDone(dist: array2<int>, m: seq<seq<int>>, threads: nat, i: nat, pending: seq<DistanceElement>,
                           submitted: seq<DistanceElement>, completed: seq<DistanceElement>, peak: nat)
    requires IsRectangular(m)
    reads dist
  {
    i <= |m| && submitted == SubmittedBefore(m, i) &&
    QueueInv(m, threads, submitted, completed, pending, peak) && Filled(dist, m, completed, i)
  }

  /**
   * The drain step: takes the oldest pending record off the queue and writes
   * its distance into both of its cells. The cells of the other pairs and the
   * diagonal keep their values.
   */
  method DrainFront(dist: array2<int>, ghost m: seq<seq<int>>, pending: seq<DistanceElement>,
                    ghost completed: seq<DistanceElement>, ghost diag: nat)
    returns (rest: seq<DistanceElement>, ghost done: seq<DistanceElement>)
    requires IsRectangular(m) && Filled(dist, m, completed, diag)
    requires |pending| > 0
    requires forall k :: 0 <= k < |pending| ==> WellFormed(m, pending[k])
    modifies dist
    ensures Filled(dist, m, done, diag)
    ensures rest == pending[1..] && done == completed + [pending[0]]
    ensures done + rest == completed + pending
    ensures forall k :: 0 <= k < |rest| ==> WellFormed(m, rest[k])
  {
    var d := pending[0];
    rest := pending[1..];
    dist[d.row, d.col] := d.distance;
    dist[d.col, d.row] := d.distance;
    done := completed + [d];
    assert pending == [d] + rest;
  }

  /**
   * One off-diagonal pair (i, j) of the loop: when `threads` records are
   * pending the oldest is drained first, then the record for (i, j) joins the
   * back of the queue.
   */
  method Schedule(dist: array2<int>, ghost m: seq<seq<int>>, threads: nat, i: nat, j: nat,
                  rowI: seq<int>, rowJ: seq<int>, pending: seq<DistanceElement>,
                  ghost submitted: seq<DistanceElement>, ghost completed: seq<DistanceElement>,
                  ghost peak: nat, ghost diag: nat)
    returns (pending': seq<DistanceElement>, ghost submitted': seq<DistanceElement>,
             ghost completed': seq<DistanceElement>, ghost peak': nat)
    requires IsRectangular(m) && threads >= 1 && i < j < |m| && rowI == m[i] && rowJ == m[j]
    requires QueueInv(m, threads, submitted, completed, pending, peak)
    requires Filled(dist, m, completed, diag)
    modifies dist
    ensures QueueInv(m, threads, submitted', completed', pending', peak')
    ensures Filled(dist, m, completed', diag)
    ensures submitted' == submitted + [Issued(m, i, j)]
    ensures peak' >= peak && peak' >= |pending'| && peak' <= threads
  {
    pending', completed' := pending, completed;
    if |pending| == threads {
      pending', completed' := DrainFront(dist, m, pending, completed, diag);
    }
    var e := ThreadDistance(i, j, rowI, rowJ);
    AppendAssoc(completed', pending', e);
    pending' := pending' + [e];
    submitted' := submitted + [e];
    peak' := if peak < |pending'| then |pending'| else peak;
  }

  /** The diagonal cell (i, i) is set to zero without scheduling any work. */
  method ZeroDiagonal(dist: array2<int>, ghost m: seq<seq<int>>, ghost completed: seq<DistanceElement>, i: nat)
    requires IsRectangular(m) && i < |m| && Filled(dist, m, completed, i)
    modifies dist
    ensures Filled(dist, m, completed, i + 1)
  {
    dist[i, i] := 0;
  }

  /** The final drain: every record still pending is written, oldest first. */
  method DrainAll(dist: array2<int>, ghost m: seq<seq<int>>, pending: seq<DistanceElement>,
                  ghost completed: seq<DistanceElement>)
    returns (ghost done: seq<DistanceElement>)
    requires IsRectangular(m) && Filled(dist, m, completed, |m|)
    requires forall k :: 0 <= k < |pending| ==> WellFormed(m, pending[k])
    modifies dist
    ensures done == completed + pending
    ensures Filled(dist, m, done, |m|)
  {
    var queue := pending;
    done := completed;
    while |queue| > 0
      invariant done + queue == completed + pending
      invariant forall k :: 0 <= k < |queue| ==> WellFormed(m, queue[k])
      invariant Filled(dist, m, done, |m|)
    {
      queue, done := DrainFront(dist, m, queue, done, |m|);
    }
  }

  /** Once every submitted record is written, the matrix is the sequential one. */
  lemma AllPairsWritten(dist: array2<int>, m: seq<seq<int>>, completed: seq<DistanceElement>)
    requires IsRectangular(m) && completed == SubmissionOrder(m)
    requires Filled(dist, m, completed, |m|)
    ensures forall r, c :: 0 <= r < |m| && 0 <= c < |m| ==> dist[r, c] == ReferenceMatrix(m)[r][c]
  {
    forall r, c | 0 <= r < |m| && 0 <= c < |m|
      ensures dist[r, c] == ReferenceMatrix(m)[r][c]
    {
      if r < c {
        SubmissionOrderCovers(m, r, c);
        var k :| 0 <= k < |completed| && completed[k] == Issued(m, r, c);
        assert Written(dist, completed[k]);
      } else if c < r {
        SubmissionOrderCovers(m, c, r);
        var k :| 0 <= k < |completed| && completed[k] == Issued(m, c, r);
        assert Written(dist, completed[k]);
      }
    }
  }

  /**
   * One pass of the outer loop of dissimiliarityMatrix: row i's diagonal
   * cell is zeroed and its pairs (i, j), j > i, are scheduled in order.
   */
  method ScheduleRow(dist: array2<int>, m: seq<seq<int>>, threads: nat, i: nat,
                     pending: seq<DistanceElement>, ghost submitted: seq<DistanceElement>,
                     ghost completed: seq<DistanceElement>, ghost peak: nat)
    returns (pending': seq<DistanceElement>, ghost submitted': seq<DistanceElement>,
             ghost completed': seq<DistanceElement>, ghost peak': nat)
    requires IsRectangular(m) && threads >= 1 && i < |m|
    requires RowsDone(dist, m, threads, i, pending, submitted, completed, peak)
    modifies dist
    ensures RowsDone(dist, m, threads, i + 1, pending', submitted', completed', peak')
  {
    // the iteration j == i only zeroes the diagonal cell
    ZeroDiagonal(dist, m, completed, i);
    pending', submitted', completed', peak' := pending, submitted, completed, peak;
    var j := i + 1;
    assert RowSubmissions(m, i, j) == [];
    assert submitted' == SubmittedBefore(m, i) + RowSubmissions(m, i, j);
    while j < |m|
      invariant i < j <= |m|
      invariant submitted' == SubmittedBefore(m, i) + RowSubmissions(m, i, j)
      invariant QueueInv(m, threads, submitted', completed', pending', peak')
      invariant Filled(dist, m, completed', i + 1)
    {
      RowStep(m, i, j, SubmittedBefore(m, i), submitted');
      pending', submitted', completed', peak' :=
        Schedule(dist, m, threads, i, j, m[i], m[j], pending', submitted', completed', peak', i + 1);
      j := j + 1;
    }
    RowDone(m, i, submitted');
  }

  /** The final drain, after which every cell holds its sequential value. */
  method DrainRemaining(dist: array2<int>, ghost m: seq<seq<int>>, threads: nat, pending: seq<DistanceElement>,
                        ghost submitted: seq<DistanceElement>, ghost completed: seq<DistanceElement>, ghost peak: nat)
    returns (ghost completed': seq<DistanceElement>)
    requires IsRectangular(m) && threads >= 1
    requires RowsDone(dist, m, threads, |m|, pending, submitted, completed, peak)
    modifies dist
    ensures forall r, c :: 0 <= r < |m| && 0 <= c < |m| ==> dist[r, c] == ReferenceMatrix(m)[r][c]
    ensures submitted == SubmissionOrder(m)
    ensures completed' == submitted
    ensures peak == Min(|submitted|, threads)
  {
    completed' := DrainAll(dist, m, pending, completed);
    AllPairsWritten(dist, m, completed');
  }

  /** The nested loops of dissimiliarityMatrix, up to the final drain. */
  method ScheduleRows(dist: array2<int>, m: seq<seq<int>>, threads: nat)
    returns (pending: seq<DistanceElement>, ghost submitted: seq<DistanceElement>,
             ghost completed: seq<DistanceElement>, ghost peak: nat)
    requires IsRectangular(m) && threads >= 1
    requires RowsDone(dist, m, threads, 0, [], [], [], 0)
    modifies dist
    ensures RowsDone(dist, m, threads, |m|, pending, submitted, completed, peak)
  {
    pending, submitted, completed, peak := [], [], [], 0;
    var i := 0;
    while i < |m|
      invariant 0 <= i <= |m|
      invariant RowsDone(dist, m, threads, i, pending, submitted, completed, peak)
    {
      pending, submitted, completed, peak :=
        ScheduleRow(dist, m, threads, i, pending, submitted, completed, peak);
      i := i + 1;
    }
  }

  /**
   * dissimiliarityMatrix. The upper triangle is visited row by row; each
   * off-diagonal pair becomes a pending record, and when `threads` records
   * are already pending the oldest one is written (both cells) first; the
   * records still pending at the end are written in order. The result equals
   * the sequential matrix for every threads >= 1; the records are completed
   * in exactly the order they were submitted, and at most `threads` are ever
   * pending at once.
   */
  method DissimilarityMatrix(m: seq<seq<int>>, threads: nat)
    returns (dist: array2<int>, ghost submitted: seq<DistanceElement>,
             ghost completed: seq<DistanceElement>, ghost peak: nat)
    requires IsRectangular(m)
    requires threads >= 1
    ensures fresh(dist)
    ensures dist.Length0 == |m| && dist.Length1 == |m|
    ensures forall r, c :: 0 <= r < |m| && 0 <= c < |m| ==> dist[r, c] == ReferenceMatrix(m)[r][c]
    ensures submitted == SubmissionOrder(m)
    ensures completed == submitted
    ensures peak == Min(|submitted|, threads)
  {
    dist := new int[|m|, |m|];
    var pending;
    pending, submitted, completed, peak := ScheduleRows(dist, m, threads);
    completed := DrainRemaining(dist, m, threads, pending, submitted, completed, peak);
  }
}
