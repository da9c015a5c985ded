/**
 * seerBinaryAssoc.cpp: the per-k-mer logistic regression. The design matrix
 * is an intercept column followed by the k-mer's presence column and any MDS
 * covariates; the fit tries BFGS, then Newton-Raphson, then Firth-penalised
 * Newton-Raphson, tagging the k-mer with each failure, and records the
 * coefficient of the k-mer column (index 1) with its Wald standard error and
 * p-value. Floating-point numerics are supplied as a Numerics value; the
 * information matrix is exact over the reals.
 */
module Logit {
  import opened Wrappers
  import Matrices

  type Vector = seq<real>

  /** A design matrix held column by column. */
  type Columns = seq<seq<real>>

  /** Every column has one entry per sample. */
  predicate IsColumns(x: Columns, n: nat) {
    forall c :: 0 <= c < |x| ==> |x[c]| == n
  }

  /** A design the fit can index: at least the intercept and the k-mer column. */
  predicate IsDesign(x: Columns, n: nat) {
    |x| >= 2 && IsColumns(x, n)
  }

  /**
   * The floating-point operations the fit relies on, left uninterpreted:
   * log(mean(y) / (1 - mean(y))), the logistic sigmoid, dlib's BFGS search
   * (whether it throws, and coordinate k of the maximiser it leaves behind),
   * inv_covar (entry i, j of the inverse), the change a Firth pass makes to
   * coordinate k,
   * pow(., 0.5), IEEE division and normalPval.
   */
  datatype Numerics = Numerics(
    logOdds: Vector -> real,
    sigmoid: real -> real,
    bfgsThrows: (Columns, Vector, Vector) -> bool,
    bfgsMax: (Columns, Vector, Vector, nat) -> real,
    invCovar: (seq<seq<real>>, nat, nat) -> real,
    firthStep: (Columns, Vector, Vector, nat) -> real,
    sqrt: real -> real,
    divide: (real, real) -> real,
    normalPval: real -> real)

  /** convergence_limit and max_nr_iterations. */
  datatype Settings = Settings(limit: real, maxIter: nat)

  const BfgsFail := "bfgs-fail"
  const NrFail := "nr-fail"
  const FirthFail := "firth-fail"

  /** The diagnostic tags in the order the cascade can add them. */
  const Cascade := [BfgsFail, NrFail, FirthFail]

  /** Beta, standard error and p-value of the k-mer coefficient. */
  datatype Fit = Fit(beta: real, se: real, pVal: real)

  /** What a fit adds to a k-mer: its diagnostic tags and, unless every stage failed, a fit. */
  datatype Outcome = Outcome(tags: seq<string>, fit: Option<Fit>)

  /** A k-mer's presence column and the statistics the fit writes back. */
  class Kmer {
    const x: Vector
    var beta: real
    var standardError: real
    var pVal: real
    var comments: seq<string>

    constructor(x: Vector)
      ensures this.x == x && comments == []
    {
      this.x := x;
      comments := [];
    }
  }

  /** k gained the tags of o, and its statistics are o's fit, or untouched when there is none. */
  twostate predicate Records(k: Kmer, o: Outcome)
    reads k
  {
    && k.comments == old(k.comments) + o.tags
    && (o.fit.Some? ==>
          k.beta == o.fit.value.beta && k.standardError == o.fit.value.se && k.pVal == o.fit.value.pVal)
    && (o.fit.None? ==>
          k.beta == old(k.beta) && k.standardError == old(k.standardError) && k.pVal == old(k.pVal))
  }

  function Abs(r: real): real {
    if r < 0.0 then -r else r
  }

  /** join_rows(ones(n, 1), xTrain): an intercept column in front of the training columns. */
  function Design(xTrain: Columns, n: nat): (x: Columns)
    requires IsColumns(xTrain, n)
    ensures |x| == |xTrain| + 1 && IsColumns(x, n)
    ensures (forall i :: 0 <= i < n ==> x[0][i] == 1.0) && x[1..] == xTrain
  {
    [seq(n, _ => 1.0)] + xTrain
  }

  /** The number of columns of a row-major matrix; an empty one is read as having none. */
  function Width(m: seq<seq<real>>): nat {
    if |m| == 0 then 0 else |m[0]|
  }

  /** The columns of a row-major matrix whose rows all have d entries. */
  function ColumnsOf(m: seq<seq<real>>, d: nat): (x: Columns)
    requires forall r :: 0 <= r < |m| ==> |m[r]| == d
    ensures |x| == d && IsColumns(x, |m|)
    ensures forall c, r :: 0 <= c < d && 0 <= r < |m| ==> x[c][r] == m[r][c]
  {
    seq(d, c requires 0 <= c < d => Matrices.Column(m, c))
  }

  /**
   * With covariates, the design is the intercept, the k-mer column and then
   * one column per MDS dimension, column 2 + c holding dimension c.
   */
  lemma CovariateDesign(kx: Vector, mds: seq<seq<real>>)
    requires |mds| == |kx| && forall r :: 0 <= r < |mds| ==> |mds[r]| == Width(mds)
    ensures var x := Design([kx] + ColumnsOf(mds, Width(mds)), |kx|);
      && |x| == 2 + Width(mds)
      && (forall i :: 0 <= i < |kx| ==> x[0][i] == 1.0)
      && x[1] == kx
      && forall c, r :: 0 <= c < Width(mds) && 0 <= r < |kx| ==> x[2 + c][r] == mds[r][c]
  {
    var cols := ColumnsOf(mds, Width(mds));
    var x := Design([kx] + cols, |kx|);
    assert x[1..] == [kx] + cols;
    forall c, r | 0 <= c < Width(mds) && 0 <= r < |kx|
      ensures x[2 + c][r] == mds[r][c]
    {
      assert x[2 + c] == x[1..][1 + c] == cols[c];
    }
  }

  /** The BFGS starting point: the log-odds of mean(y) for the intercept, 1 elsewhere. */
  function BfgsStart(p: nat, y: Vector, nm: Numerics): (b: Vector)
    requires p >= 1
    ensures |b| == p && b[0] == nm.logOdds(y)
    ensures forall k :: 1 <= k < p ==> b[k] == 1.0
  {
    seq(p, k requires 0 <= k < p => if k == 0 then nm.logOdds(y) else 1.0)
  }

  /** The Newton-Raphson starting point: the log-odds of mean(y) for the intercept, 0 elsewhere. */
  function NrStart(p: nat, y: Vector, nm: Numerics): (b: Vector)
    requires p >= 1
    ensures |b| == p && b[0] == nm.logOdds(y)
    ensures forall k :: 1 <= k < p ==> b[k] == 0.0
  {
    seq(p, k requires 0 <= k < p => if k == 0 then nm.logOdds(y) else 0.0)
  }

  /** Both starting points give the intercept the same value and differ everywhere else. */
  lemma StartsShareIntercept(p: nat, y: Vector, nm: Numerics)
    requires p >= 1
    ensures BfgsStart(p, y, nm)[0] == NrStart(p, y, nm)[0] == nm.logOdds(y)
    ensures forall k :: 1 <= k < p ==> BfgsStart(p, y, nm)[k] != NrStart(p, y, nm)[k]
  {
  }

  /**
   * Fills a starting vector of length p the way doLogit does: the intercept
   * first, then every later coefficient set to 1 in turn.
   */
  method StartingPoint(p: nat, y: Vector, nm: Numerics) returns (start: Vector)
    requires p >= 1
    ensures start == BfgsStart(p, y, nm)
  {
    var a := new real[p];
    a[0] := nm.logOdds(y);
    for i := 1 to p
      invariant a[0] == nm.logOdds(y)
      invariant forall k :: 1 <= k < i ==> a[k] == 1.0
    {
      a[i] := 1.0;
    }
    start := a[..];
  }

  /** Sample i's linear predictor over the first c columns: the sum of x[c'][i] * b[c'] for c' < c. */
  function Predictor(x: Columns, b: Vector, i: nat, c: nat): real
    requires c <= |x| && |b| == |x| && forall k :: 0 <= k < c ==> i < |x[k]|
  {
    if c == 0 then 0.0 else Predictor(x, b, i, c - 1) + x[c - 1][i] * b[c - 1]
  }

  /** predictLogitProbs: the sigmoid of each sample's linear predictor. */
  function Probs(x: Columns, b: Vector, n: nat, nm: Numerics): (p: Vector)
    requires IsColumns(x, n) && |b| == |x|
    ensures |p| == n
  {
    seq(n, i requires 0 <= i < n => nm.sigmoid(Predictor(x, b, i, |x|)))
  }

  lemma MulNonNegative(x: real, y: real)
    requires x >= 0.0 && y >= 0.0
    ensures x * y >= 0.0
  {
  }

  /** p(1 - p) = 1/4 - (p - 1/2)^2 lies in [0, 1/4] for every probability p. */
  lemma BernoulliVariance(q: real)
    requires 0.0 <= q <= 1.0
    ensures 0.0 <= q * (1.0 - q) <= 0.25
  {
    var t := q - 0.5;
    assert q * (1.0 - q) == 0.25 - t * t;
    if t >= 0.0 {
      MulNonNegative(t, 0.5 - t);
    } else {
      MulNonNegative(-t, 0.5 + t);
    }
    MulNonNegative(q, 1.0 - q);
  }

  /**
   * The weights p(1 - p) of the information matrix: the variance of a
   * Bernoulli(p) response, between 0 and 1/4 for every probability p.
   */
  function Weights(p: Vector): (w: Vector)
    ensures |w| == |p|
    ensures forall i :: 0 <= i < |p| && 0.0 <= p[i] <= 1.0 ==> 0.0 <= w[i] <= 0.25
  {
    var w := seq(|p|, i requires 0 <= i < |p| => p[i] * (1.0 - p[i]));
    assert forall i :: 0 <= i < |p| && 0.0 <= p[i] <= 1.0 ==> 0.0 <= w[i] <= 0.25 by {
      forall i | 0 <= i < |p| && 0.0 <= p[i] <= 1.0 ensures 0.0 <= w[i] <= 0.25 {
        BernoulliVariance(p[i]);
      }
    }
    w
  }

  /** accu(w % a % b); with a == b and non-negative weights, a sum of squares. */
  function WeightedDot(w: Vector, a: Vector, b: Vector): (r: real)
    requires |a| == |w| && |b| == |w|
    ensures a == b && (forall i :: 0 <= i < |w| ==> w[i] >= 0.0) ==> r >= 0.0
  {
    if |w| == 0 then 0.0
    else
      assert a == b && w[|w| - 1] >= 0.0 ==> w[|w| - 1] * a[|a| - 1] * b[|b| - 1] >= 0.0 by {
        if a == b && w[|w| - 1] >= 0.0 {
          assert a[|a| - 1] * b[|b| - 1] >= 0.0;
        }
      }
      WeightedDot(w[..|w| - 1], a[..|a| - 1], b[..|b| - 1]) + w[|w| - 1] * a[|a| - 1] * b[|b| - 1]
  }

  lemma {:induction false} WeightedDotSymmetric(w: Vector, a: Vector, b: Vector)
    requires |a| == |w| && |b| == |w|
    ensures WeightedDot(w, a, b) == WeightedDot(w, b, a)
  {
    if |w| > 0 {
      WeightedDotSymmetric(w[..|w| - 1], a[..|a| - 1], b[..|b| - 1]);
    }
  }

  /** The Fisher information X' diag(w) X: cell i, j is the weighted product of columns i and j. */
  function Information(x: Columns, w: Vector): (info: seq<seq<real>>)
    requires IsColumns(x, |w|)
    ensures Matrices.IsSquare(info, |x|)
  {
    seq(|x|, i requires 0 <= i < |x| => seq(|x|, j requires 0 <= j < |x| => WeightedDot(w, x[i], x[j])))
  }

  lemma InformationSymmetric(x: Columns, w: Vector)
    requires IsColumns(x, |w|)
    ensures Matrices.IsSymmetric(Information(x, w))
  {
    forall i, j | 0 <= i < |x| && 0 <= j < |x|
      ensures Information(x, w)[i][j] == Information(x, w)[j][i]
    {
      WeightedDotSymmetric(w, x[i], x[j]);
    }
  }

  /** inv_covar of the information matrix at b. */
  function Covariance(x: Columns, b: Vector, n: nat, nm: Numerics): (v: seq<seq<real>>)
    requires IsColumns(x, n) && |b| == |x|
    ensures Matrices.IsSquare(v, |x|)
  {
    var info := Information(x, Weights(Probs(x, b, n, nm)));
    seq(|x|, i requires 0 <= i < |x| => seq(|x|, j requires 0 <= j < |x| => nm.invCovar(info, i, j)))
  }

  /** Every cell in the first i rows or columns of info holds its information entry. */
  ghost predicate InfoFilled(info: array2<real>, x: Columns, w: Vector, i: nat)
    requires IsColumns(x, |w|)
    reads info
  {
    && info.Length0 == |x| && info.Length1 == |x|
    && forall r, c :: 0 <= r < |x| && 0 <= c < |x| && (r < i || c < i) ==>
         info[r, c] == WeightedDot(w, x[r], x[c])
  }

  /** One pass of the outer loop of varCovarMat: cells (i, j) for j >= i, each mirrored to (j, i). */
  method FillRow(info: array2<real>, x: Columns, w: Vector, i: nat)
    requires IsColumns(x, |w|) && i < |x| && InfoFilled(info, x, w, i)
    modifies info
    ensures InfoFilled(info, x, w, i + 1)
  {
    for j := i to |x|
      invariant InfoFilled(info, x, w, i)
      invariant forall c :: i <= c < j ==>
        info[i, c] == WeightedDot(w, x[i], x[c]) && info[c, i] == WeightedDot(w, x[c], x[i])
    {
      info[i, j] := WeightedDot(w, x[i], x[j]);
      if i != j {
        WeightedDotSymmetric(w, x[i], x[j]);
        info[j, i] := info[i, j];
      }
    }
  }

  /**
   * varCovarMat: fills the information matrix over its upper triangle,
   * mirroring every off-diagonal cell, and inverts it.
   */
  method VarCovarMat(x: Columns, b: Vector, n: nat, nm: Numerics) returns (covar: seq<seq<real>>)
    requires IsColumns(x, n) && |b| == |x|
    ensures covar == Covariance(x, b, n, nm)
  {
    var w := Weights(Probs(x, b, n, nm));
    var p := |b|;
    var info := new real[p, p];
    for i := 0 to p
      invariant InfoFilled(info, x, w, i)
    {
      FillRow(info, x, w, i);
    }
    var m := seq(p, r requires 0 <= r < p reads info => seq(p, c requires 0 <= c < p reads info => info[r, c]));
    assert m == Information(x, w) by {
      forall r | 0 <= r < p ensures m[r] == Information(x, w)[r] {
      }
    }
    covar := seq(p, i requires 0 <= i < p => seq(p, j requires 0 <= j < p => nm.invCovar(m, i, j)));
  }

  /** The score X'(y - p): zero in every coordinate when the predictions equal the response. */
  function Score(x: Columns, y: Vector, p: Vector): (s: Vector)
    requires IsColumns(x, |y|) && |p| == |y|
    ensures |s| == |x|
    ensures p == y ==> forall j :: 0 <= j < |s| ==> s[j] == 0.0
  {
    var r := seq(|y|, i requires 0 <= i < |y| => y[i] - p[i]);
    assert p == y ==> forall j :: 0 <= j < |x| ==> Matrices.Dot(x[j], r) == 0.0 by {
      if p == y {
        forall j | 0 <= j < |x| ensures Matrices.Dot(x[j], r) == 0.0 {
          Matrices.DotZero(x[j], r);
        }
      }
    }
    seq(|x|, j requires 0 <= j < |x| => Matrices.Dot(x[j], r))
  }

  /**
   * One Newton-Raphson pass from b0: b0 + inv(I) X'(y - p) for the plain
   * stage; for Firth, b0 plus the penalised step.
   */
  function NrUpdate(x: Columns, y: Vector, b0: Vector, firth: bool, nm: Numerics): (b1: Vector)
    requires IsColumns(x, |y|) && |b0| == |x|
    ensures |b1| == |x|
  {
    if firth then
      seq(|x|, k requires 0 <= k < |x| => b0[k] + nm.firthStep(x, y, b0, k))
    else
      var v := Covariance(x, b0, |y|, nm);
      var s := Score(x, y, Probs(x, b0, |y|, nm));
      seq(|x|, k requires 0 <= k < |x| => b0[k] + Matrices.Dot(v[k], s))
  }

  /** Where the predictions already equal the response, a plain Newton-Raphson pass stays put. */
  lemma NrFixedPoint(x: Columns, y: Vector, b0: Vector, nm: Numerics)
    requires IsColumns(x, |y|) && |b0| == |x|
    requires Probs(x, b0, |y|, nm) == y
    ensures NrUpdate(x, y, b0, false, nm) == b0
  {
    var s := Score(x, y, Probs(x, b0, |y|, nm));
    var v := Covariance(x, b0, |y|, nm);
    forall k | 0 <= k < |x| ensures Matrices.Dot(v[k], s) == 0.0 {
      Matrices.DotZero(v[k], s);
    }
  }

  /** The stop rule: the change in the k-mer coefficient is below the limit. */
  predicate Converged(b0: Vector, b1: Vector, limit: real)
    requires |b0| >= 2 && |b1| >= 2
    ensures Converged(b0, b1, limit) ==> limit > 0.0
    ensures limit > 0.0 && b1[1] == b0[1] ==> Converged(b0, b1, limit)
  {
    Abs(b1[1] - b0[1]) < limit
  }

  /** step maps every vector of length p to a vector of length p. */
  ghost predicate Preserves(step: Vector --> Vector, p: nat) {
    forall b: Vector {:trigger step.requires(b)} {:trigger step(b)} :: |b| == p ==> step.requires(b) && |step(b)| == p
  }

  /** One pass of the loop of newtonRaphson, for a fixed design, response and stage. */
  function NrStep(x: Columns, y: Vector, firth: bool, nm: Numerics): (step: Vector --> Vector)
    requires IsColumns(x, |y|)
    ensures Preserves(step, |x|)
  {
    b requires |b| == |x| => NrUpdate(x, y, b, firth, nm)
  }

  /**
   * The iterates pushed after b0 when at most `passes` passes remain: one per
   * pass, stopping after the first pass that converges.
   */
  function Passes(step: Vector --> Vector, b0: Vector, limit: real, passes: nat): (its: seq<Vector>)
    requires |b0| >= 2 && Preserves(step, |b0|)
    ensures |its| <= passes && (passes > 0 ==> |its| >= 1)
    ensures forall t :: 0 <= t < |its| ==> |its[t]| == |b0|
    decreases passes
  {
    if passes == 0 then []
    else
      var b1 := step(b0);
      if Converged(b0, b1, limit) then [b1] else [b1] + Passes(step, b1, limit, passes - 1)
  }

  /**
   * The iterate list the loop of newtonRaphson builds from b0 for a given
   * pass, when at most `passes` passes may run: b0, then the passes.
   */
  function IteratesOf(step: Vector --> Vector, b0: Vector, limit: real, passes: nat): (its: seq<Vector>)
    requires |b0| >= 2 && Preserves(step, |b0|)
    ensures 1 <= |its| <= passes + 1 && its[0] == b0 && (passes >= 1 ==> |its| >= 2)
    ensures forall t :: 0 <= t < |its| ==> |its[t]| == |b0|
  {
    [b0] + Passes(step, b0, limit, passes)
  }

  /** parameter_iterations at the end of the loop of newtonRaphson. */
  function Iterates(x: Columns, y: Vector, firth: bool, s: Settings, nm: Numerics): (its: seq<Vector>)
    requires IsDesign(x, |y|) && s.maxIter >= 1
    ensures 2 <= |its| <= s.maxIter + 1 && its[0] == NrStart(|x|, y, nm)
    ensures forall t :: 0 <= t < |its| ==> |its[t]| == |x|
  {
    IteratesOf(NrStep(x, y, firth, nm), NrStart(|x|, y, nm), s.limit, s.maxIter)
  }

  /** A pass that does not converge is followed by the list from its result. */
  lemma IteratesOfNext(step: Vector --> Vector, b0: Vector, limit: real, passes: nat)
    requires |b0| >= 2 && Preserves(step, |b0|) && passes >= 1
    requires !Converged(b0, step(b0), limit)
    ensures IteratesOf(step, b0, limit, passes) == [b0] + IteratesOf(step, step(b0), limit, passes - 1)
  {
  }

  /** Each iterate after the first is one pass from the one before. */
  lemma {:induction false} IteratesChain(step: Vector --> Vector, b0: Vector, limit: real, passes: nat)
    requires |b0| >= 2 && Preserves(step, |b0|)
    ensures forall t :: 1 <= t < |IteratesOf(step, b0, limit, passes)| ==>
      IteratesOf(step, b0, limit, passes)[t] == step(IteratesOf(step, b0, limit, passes)[t - 1])
    decreases passes
  {
    if passes > 0 && !Converged(b0, step(b0), limit) {
      var its, rest := IteratesOf(step, b0, limit, passes), IteratesOf(step, step(b0), limit, passes - 1);
      IteratesChain(step, step(b0), limit, passes - 1);
      IteratesOfNext(step, b0, limit, passes);
      forall t | 2 <= t < |its| ensures its[t] == step(its[t - 1]) {
        assert its[t] == rest[t - 1] && its[t - 1] == rest[t - 2];
      }
    }
  }

  /** No pass before the last one converged. */
  lemma {:induction false} IteratesNoEarlyStop(step: Vector --> Vector, b0: Vector, limit: real, passes: nat)
    requires |b0| >= 2 && Preserves(step, |b0|)
    ensures forall t :: 1 <= t < |IteratesOf(step, b0, limit, passes)| - 1 ==>
      !Converged(IteratesOf(step, b0, limit, passes)[t - 1], IteratesOf(step, b0, limit, passes)[t], limit)
    decreases passes
  {
    if passes > 0 && !Converged(b0, step(b0), limit) {
      var its, rest := IteratesOf(step, b0, limit, passes), IteratesOf(step, step(b0), limit, passes - 1);
      IteratesNoEarlyStop(step, step(b0), limit, passes - 1);
      IteratesOfNext(step, b0, limit, passes);
      forall t | 2 <= t < |its| - 1 ensures !Converged(its[t - 1], its[t], limit) {
        assert its[t] == rest[t - 1] && its[t - 1] == rest[t - 2];
      }
    }
  }

  /** Stopping before every pass has run means the last pass converged. */
  lemma {:induction false} IteratesEarlyStopConverged(step: Vector --> Vector, b0: Vector, limit: real, passes: nat)
    requires |b0| >= 2 && Preserves(step, |b0|)
    ensures var its := IteratesOf(step, b0, limit, passes);
      1 <= |its| - 1 < passes ==> Converged(its[|its| - 2], its[|its| - 1], limit)
    decreases passes
  {
    if passes > 0 && !Converged(b0, step(b0), limit) {
      IteratesEarlyStopConverged(step, step(b0), limit, passes - 1);
      IteratesOfNext(step, b0, limit, passes);
    }
  }

  /** A pass of NrStep is the Newton-Raphson update. */
  lemma NrStepIsUpdate(x: Columns, y: Vector, firth: bool, nm: Numerics, b: Vector)
    requires IsColumns(x, |y|) && |b| == |x|
    ensures NrStep(x, y, firth, nm)(b) == NrUpdate(x, y, b, firth, nm)
  {
  }

  /**
   * The stop rule of the loop, for any pass: no pass but the last converged,
   * and the list stops short of max_nr_iterations passes only on a converged pass.
   */
  lemma IteratesStopRule(step: Vector --> Vector, start: Vector, s: Settings)
    requires |start| >= 2 && Preserves(step, |start|) && s.maxIter >= 1
    ensures var its := IteratesOf(step, start, s.limit, s.maxIter);
      && (forall t :: 1 <= t < |its| - 1 ==> !Converged(its[t - 1], its[t], s.limit))
      && (|its| <= s.maxIter ==> Converged(its[|its| - 2], its[|its| - 1], s.limit))
  {
    IteratesNoEarlyStop(step, start, s.limit, s.maxIter);
    IteratesEarlyStopConverged(step, start, s.limit, s.maxIter);
  }

  /** Each iterate after the start is one Newton-Raphson pass from the one before. */
  lemma IterateIsUpdate(x: Columns, y: Vector, firth: bool, s: Settings, nm: Numerics, t: nat)
    requires IsDesign(x, |y|) && s.maxIter >= 1
    requires 1 <= t < |Iterates(x, y, firth, s, nm)|
    ensures var its := Iterates(x, y, firth, s, nm);
      its[t] == NrUpdate(x, y, its[t - 1], firth, nm)
  {
    var its := Iterates(x, y, firth, s, nm);
    IteratesChain(NrStep(x, y, firth, nm), NrStart(|x|, y, nm), s.limit, s.maxIter);
    NrStepIsUpdate(x, y, firth, nm, its[t - 1]);
  }

  /** No pass of the iterate list converged. */
  predicate NoPassConverged(its: seq<Vector>, limit: real)
    requires forall t :: 0 <= t < |its| ==> |its[t]| >= 2
  {
    forall t :: 1 <= t < |its| ==> !Converged(its[t - 1], its[t], limit)
  }

  /** Beta, pow(variance, 0.5) and the p-value of the Wald statistic |beta| / se. */
  function WaldFit(beta: real, variance: real, nm: Numerics): (f: Fit)
    ensures f.beta == beta && f.se == nm.sqrt(variance)
    ensures f.pVal == nm.normalPval(nm.divide(Abs(beta), nm.sqrt(variance)))
  {
    var se := nm.sqrt(variance);
    Fit(beta, se, nm.normalPval(nm.divide(Abs(beta), se)))
  }

  /**
   * The fit a Newton-Raphson stage records: the k-mer coefficient of the
   * last iterate, with the covariance of the pass that produced it, taken at
   * the iterate before.
   */
  function StageFit(x: Columns, y: Vector, its: seq<Vector>, nm: Numerics): (f: Fit)
    requires IsDesign(x, |y|) && |its| >= 2
    requires forall t :: 0 <= t < |its| ==> |its[t]| == |x|
    ensures f.beta == its[|its| - 1][1]
    ensures f.se == nm.sqrt(Covariance(x, its[|its| - 2], |y|, nm)[1][1])
    ensures f.pVal == nm.normalPval(nm.divide(Abs(f.beta), f.se))
  {
    WaldFit(its[|its| - 1][1], Covariance(x, its[|its| - 2], |y|, nm)[1][1], nm)
  }

  /**
   * newtonRaphson as written: the stage is declared failed when the iterate
   * list holds exactly max_nr_iterations entries; a failed plain stage is
   * tagged and retried with Firth, a failed Firth stage is tagged and ends
   * the cascade with no fit.
   */
  function NrStage(x: Columns, y: Vector, firth: bool, s: Settings, nm: Numerics): (o: Outcome)
    requires IsDesign(x, |y|) && s.maxIter >= 1
    ensures firth ==> (o.tags == [] && o.fit.Some?) || (o.tags == [FirthFail] && o.fit.None?)
    ensures !firth ==> o.tags == [] || o.tags == [NrFail] || o.tags == [NrFail, FirthFail]
    ensures o.fit.None? <==> o.tags == (if firth then [FirthFail] else [NrFail, FirthFail])
    decreases if firth then 0 else 1
  {
    var its := Iterates(x, y, firth, s, nm);
    if |its| == s.maxIter then
      if firth then Outcome([FirthFail], None)
      else
        var o := NrStage(x, y, true, s, nm);
        Outcome([NrFail] + o.tags, o.fit)
    else
      Outcome([], Some(StageFit(x, y, its, nm)))
  }

  /** The literal failure test only fires on a stage whose last pass converged. */
  lemma LiteralFailureFollowsConvergence(step: Vector --> Vector, start: Vector, s: Settings)
    requires |start| >= 2 && Preserves(step, |start|) && s.maxIter >= 1
    ensures var its := IteratesOf(step, start, s.limit, s.maxIter);
      |its| == s.maxIter ==> Converged(its[|its| - 2], its[|its| - 1], s.limit)
  {
    IteratesStopRule(step, start, s);
  }

  /**
   * A stage in which no pass converges is not caught by the literal test:
   * its iterate list has max_nr_iterations + 1 entries, and the stage records
   * the last iterate as its fit with no tag.
   */
  lemma LiteralTestMissesExhaustion(x: Columns, y: Vector, firth: bool, s: Settings, nm: Numerics)
    requires IsDesign(x, |y|) && s.maxIter >= 1
    requires NoPassConverged(Iterates(x, y, firth, s, nm), s.limit)
    ensures var its := Iterates(x, y, firth, s, nm);
      && |its| == s.maxIter + 1
      && NrStage(x, y, firth, s, nm) == Outcome([], Some(StageFit(x, y, its, nm)))
  {
    IteratesStopRule(NrStep(x, y, firth, nm), NrStart(|x|, y, nm), s);
  }

  /** The evidently intended failure test: every pass ran and the last did not converge. */
  predicate Exhausted(its: seq<Vector>, s: Settings)
    requires forall t :: 0 <= t < |its| ==> |its[t]| >= 2
  {
    s.maxIter >= 1 && |its| == s.maxIter + 1 && !Converged(its[|its| - 2], its[|its| - 1], s.limit)
  }

  lemma ExhaustedIff(step: Vector --> Vector, start: Vector, s: Settings)
    requires |start| >= 2 && Preserves(step, |start|) && s.maxIter >= 1
    ensures var its := IteratesOf(step, start, s.limit, s.maxIter);
      Exhausted(its, s) <==> NoPassConverged(its, s.limit)
  {
    IteratesStopRule(step, start, s);
  }

  /**
   * newtonRaphson with the intended failure test: a stage records a fit
   * exactly when one of its passes converged.
   */
  function IntendedNrStage(x: Columns, y: Vector, firth: bool, s: Settings, nm: Numerics): (o: Outcome)
    requires IsDesign(x, |y|) && s.maxIter >= 1
    ensures o.fit.None? <==> o.tags == (if firth then [FirthFail] else [NrFail, FirthFail])
    ensures firth ==> (o.fit.Some? <==> !NoPassConverged(Iterates(x, y, true, s, nm), s.limit))
    ensures !firth ==> (o.tags == [] <==> !NoPassConverged(Iterates(x, y, false, s, nm), s.limit))
    ensures !firth && o.tags != [] ==> NoPassConverged(Iterates(x, y, false, s, nm), s.limit)
    decreases if firth then 0 else 1
  {
    var its := Iterates(x, y, firth, s, nm);
    ExhaustedIff(NrStep(x, y, firth, nm), NrStart(|x|, y, nm), s);
    if Exhausted(its, s) then
      if firth then Outcome([FirthFail], None)
      else
        var o := IntendedNrStage(x, y, true, s, nm);
        Outcome([NrFail] + o.tags, o.fit)
    else
      Outcome([], Some(StageFit(x, y, its, nm)))
  }

  /**
   * doLogit: BFGS from its starting point; when it returns, the fit is its
   * maximiser's k-mer coefficient with the covariance there; when it throws,
   * "bfgs-fail" and the Newton-Raphson stage.
   */
  function LogitFit(xTrain: Columns, y: Vector, s: Settings, nm: Numerics): (o: Outcome)
    requires IsColumns(xTrain, |y|) && |xTrain| >= 1 && s.maxIter >= 1
    ensures o.tags <= Cascade
    ensures o.fit.None? <==> o.tags == Cascade
  {
    var x := Design(xTrain, |y|);
    var start := BfgsStart(|x|, y, nm);
    if nm.bfgsThrows(xTrain, y, start) then
      var o := NrStage(x, y, false, s, nm);
      Outcome([BfgsFail] + o.tags, o.fit)
    else
      var b := seq(|x|, k requires 0 <= k < |x| => nm.bfgsMax(xTrain, y, start, k));
      Outcome([], Some(WaldFit(b[1], Covariance(x, b, |y|, nm)[1][1], nm)))
  }

  /** A pass that does not converge leaves the remaining passes to run from its result. */
  lemma PassNext(step: Vector --> Vector, its: seq<Vector>, b0: Vector, limit: real, passes: nat, full: seq<Vector>)
    requires |b0| >= 2 && Preserves(step, |b0|) && passes >= 1
    requires its + Passes(step, b0, limit, passes) == full
    requires !Converged(b0, step(b0), limit)
    ensures (its + [step(b0)]) + Passes(step, step(b0), limit, passes - 1) == full
  {
    var rest := Passes(step, step(b0), limit, passes - 1);
    assert Passes(step, b0, limit, passes) == [step(b0)] + rest;
    assert its + ([step(b0)] + rest) == (its + [step(b0)]) + rest;
  }

  /** A pass that converges is the last one. */
  lemma PassLast(step: Vector --> Vector, its: seq<Vector>, b0: Vector, limit: real, passes: nat, full: seq<Vector>)
    requires |b0| >= 2 && Preserves(step, |b0|) && passes >= 1
    requires its + Passes(step, b0, limit, passes) == full
    requires Converged(b0, step(b0), limit)
    ensures its + [step(b0)] == full
  {
    assert Passes(step, b0, limit, passes) == [step(b0)];
  }

  /** With no passes left nothing more is pushed. */
  lemma PassesDone(step: Vector --> Vector, its: seq<Vector>, b0: Vector, limit: real, full: seq<Vector>)
    requires |b0| >= 2 && Preserves(step, |b0|)
    requires its + Passes(step, b0, limit, 0) == full
    ensures its == full
  {
    assert its + [] == its;
  }

  /** The covariance after a pass from b, for a fixed design. */
  function CovarianceAt(x: Columns, n: nat, nm: Numerics): (covar: Vector --> seq<seq<real>>)
    requires IsColumns(x, n)
    ensures forall b :: |b| == |x| ==> covar.requires(b)
  {
    b requires |b| == |x| => Covariance(x, b, n, nm)
  }

  /** The loop state after |its| - 1 passes: the passes still to come complete the list. */
  ghost predicate PassesLeft(step: Vector --> Vector, start: Vector, its: seq<Vector>,
                             limit: real, maxIter: nat, full: seq<Vector>)
  {
    && |start| >= 2 && Preserves(step, |start|)
    && 1 <= |its| <= maxIter + 1
    && (forall t :: 0 <= t < |its| ==> |its[t]| == |start|)
    && its + Passes(step, its[|its| - 1], limit, maxIter + 1 - |its|) == full
  }

  /**
   * One pass of the loop of newtonRaphson: the covariance at the last
   * iterate, the next iterate pushed, and whether the stop rule holds.
   */
  method Pass(step: Vector --> Vector, covar: Vector --> seq<seq<real>>, start: Vector, its: seq<Vector>,
              limit: real, maxIter: nat, ghost full: seq<Vector>)
    returns (next: seq<Vector>, varCovar: seq<seq<real>>, converged: bool)
    requires PassesLeft(step, start, its, limit, maxIter, full) && |its| <= maxIter
    requires forall b :: |b| == |start| ==> covar.requires(b)
    ensures next == its + [step(its[|its| - 1])] && |next| == |its| + 1
    ensures converged == Converged(its[|its| - 1], step(its[|its| - 1]), limit)
    ensures varCovar == covar(its[|its| - 1]) && varCovar == covar(next[|next| - 2])
    ensures converged ==> next == full
    ensures !converged ==> PassesLeft(step, start, next, limit, maxIter, full)
  {
    var b0 := its[|its| - 1];
    varCovar := covar(b0);
    var b1 := step(b0);
    converged := Converged(b0, b1, limit);
    if converged {
      PassLast(step, its, b0, limit, maxIter + 1 - |its|, full);
    } else {
      PassNext(step, its, b0, limit, maxIter + 1 - |its|, full);
    }
    next := its + [b1];
  }

  /**
   * The loop of newtonRaphson, for any pass function `step` and the
   * covariance `covar` each pass computes: from `start`, one pass at a time,
   * keeping every iterate and the covariance of the latest pass, until a
   * pass converges or `maxIter` passes have run.
   */
  method RunPasses(step: Vector --> Vector, covar: Vector --> seq<seq<real>>, start: Vector,
                   limit: real, maxIter: nat)
    returns (its: seq<Vector>, varCovar: seq<seq<real>>)
    requires |start| >= 2 && Preserves(step, |start|) && maxIter >= 1
    requires forall b :: |b| == |start| ==> covar.requires(b)
    ensures its == IteratesOf(step, start, limit, maxIter)
    ensures |its| >= 2 && varCovar == covar(its[|its| - 2])
  {
    ghost var full := IteratesOf(step, start, limit, maxIter);
    its := [start];
    varCovar := [];
    var i := 0;
    while i < maxIter
      invariant 0 <= i <= maxIter && |its| == i + 1
      invariant PassesLeft(step, start, its, limit, maxIter, full)
      invariant i > 0 ==> varCovar == covar(its[|its| - 2])
    {
      var converged;
      its, varCovar, converged := Pass(step, covar, start, its, limit, maxIter, full);
      if converged {
        return;
      }
      i := i + 1;
    }
    PassesDone(step, its, its[i], limit, full);
  }

  /**
   * newtonRaphson: runs the passes, then applies the literal failure test
   * and records the outcome on k.
   */
  method NewtonRaphson(k: Kmer, y: Vector, x: Columns, firth: bool, s: Settings, nm: Numerics)
    requires IsDesign(x, |y|) && s.maxIter >= 1
    modifies k
    ensures Records(k, NrStage(x, y, firth, s, nm))
    decreases if firth then 0 else 1, 1
  {
    var its, varCovar :=
      RunPasses(NrStep(x, y, firth, nm), CovarianceAt(x, |y|, nm), NrStart(|x|, y, nm), s.limit, s.maxIter);
    if |its| == s.maxIter {
      StageFailed(k, y, x, firth, s, nm);
    } else {
      StageConverged(k, y, x, firth, s, nm, its, varCovar);
    }
  }

  /** A stage the literal test declares failed: tagged, and retried with Firth unless it was Firth. */
  method StageFailed(k: Kmer, y: Vector, x: Columns, firth: bool, s: Settings, nm: Numerics)
    requires IsDesign(x, |y|) && s.maxIter >= 1
    requires |Iterates(x, y, firth, s, nm)| == s.maxIter
    modifies k
    ensures Records(k, NrStage(x, y, firth, s, nm))
    decreases if firth then 0 else 1, 0
  {
    if !firth {
      k.comments := k.comments + [NrFail];
      NewtonRaphson(k, y, x, true, s, nm);
    } else {
      k.comments := k.comments + [FirthFail];
    }
  }

  /** A stage the literal test lets through: beta, its standard error and p-value are written. */
  method StageConverged(k: Kmer, y: Vector, x: Columns, firth: bool, s: Settings, nm: Numerics,
                        its: seq<Vector>, varCovar: seq<seq<real>>)
    requires IsDesign(x, |y|) && s.maxIter >= 1
    requires its == Iterates(x, y, firth, s, nm) && |its| != s.maxIter
    requires varCovar == Covariance(x, its[|its| - 2], |y|, nm)
    modifies k
    ensures Records(k, NrStage(x, y, firth, s, nm))
  {
    RecordWald(k, its[|its| - 1][1], varCovar[1][1], nm);
  }

  /** Writes beta, then se = pow(variance, 0.5), then the p-value of the Wald statistic |beta| / se. */
  method RecordWald(k: Kmer, beta: real, variance: real, nm: Numerics)
    modifies k
    ensures Records(k, Outcome([], Some(WaldFit(beta, variance, nm))))
  {
    k.beta := beta;
    var se := nm.sqrt(variance);
    k.standardError := se;
    k.pVal := nm.normalPval(nm.divide(Abs(k.beta), se));
  }

  /** doLogit: builds the design, runs BFGS and falls back to Newton-Raphson. */
  method DoLogit(k: Kmer, y: Vector, xTrain: Columns, s: Settings, nm: Numerics)
    requires IsColumns(xTrain, |y|) && |xTrain| >= 1 && s.maxIter >= 1
    modifies k
    ensures Records(k, LogitFit(xTrain, y, s, nm))
  {
    var x := Design(xTrain, |y|);
    var start := StartingPoint(|x|, y, nm);
    if nm.bfgsThrows(xTrain, y, start) {
      k.comments := k.comments + [BfgsFail];
      NewtonRaphson(k, y, x, false, s, nm);
    } else {
      var b := seq(|x|, i requires 0 <= i < |x| => nm.bfgsMax(xTrain, y, start, i));
      var covar := VarCovarMat(x, b, |y|, nm);
      RecordWald(k, b[1], covar[1][1], nm);
    }
  }

  /** logisticTest without covariates: the k-mer column alone. */
  method LogisticTest(k: Kmer, y: Vector, s: Settings, nm: Numerics)
    requires |k.x| == |y| && s.maxIter >= 1
    modifies k
    ensures Records(k, LogitFit([k.x], y, s, nm))
  {
    DoLogit(k, y, [k.x], s, nm);
  }

  /** logisticTest with covariates: the k-mer column followed by the MDS columns. */
  method LogisticTestWithCovariates(k: Kmer, y: Vector, mds: seq<seq<real>>, s: Settings, nm: Numerics)
    requires |k.x| == |y| == |mds| && s.maxIter >= 1
    requires forall r :: 0 <= r < |mds| ==> |mds[r]| == Width(mds)
    modifies k
    ensures Records(k, LogitFit([k.x] + ColumnsOf(mds, Width(mds)), y, s, nm))
  {
    DoLogit(k, y, [k.x] + ColumnsOf(mds, Width(mds)), s, nm);
  }
}
