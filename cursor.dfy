/**
 * The virtual cursor: a short history of recent paint positions from which
 * the tool estimates the direction the user is painting in, and the
 * choices made from that direction (which face vertex lies ahead, which
 * vertex is nearest). Everything here is a pure specification; the tool's
 * methods in module SprytileModal are proved against it.
 */
module VirtualCursor {
  import opened Vectors

  /** The history keeps at most this many samples (a bounded deque). */
  const Capacity: nat := 3

  /** A new sample must be at least 0.1 away from the last one: 0.1^2, as squared length. */
  const MinStepSq: real := 0.01

  /** The newest `n` entries of `s`: what a bounded deque keeps after appends. */
  function KeepNewest<T>(s: seq<T>, n: nat): (r: seq<T>)
    ensures |r| == if |s| <= n then |s| else n
    ensures r == s[|s| - |r|..]
  {
    if |s| <= n then s else s[|s| - n..]
  }

  /**
   * The painting direction: zero with at most one sample, otherwise the
   * sum of the steps between consecutive samples (which telescopes to
   * last - first) divided by the number of samples.
   */
  function Direction(h: seq<Vec3>): (d: Vec3)
    ensures |h| <= 1 ==> d == Zero
    ensures |h| >= 2 ==> Scale(d, |h| as real) == StepSum(h)
  {
    if |h| <= 1 then Zero else DivScalar(Sub(h[|h| - 1], h[0]), |h| as real)
  }

  /**
   * Sum of the steps between consecutive samples, the quantity the tool
   * accumulates; it telescopes to last - first.
   */
  function StepSum(h: seq<Vec3>): (s: Vec3)
    requires |h| >= 1
    ensures s == Sub(h[|h| - 1], h[0])
  {
    if |h| == 1 then Zero
    else
      var init := h[..|h| - 1];
      assert init[0] == h[0] && init[|init| - 1] == h[|h| - 2];
      Add(StepSum(init), Sub(h[|h| - 1], h[|h| - 2]))
  }

  /**
   * Only the sign of a dot product with the direction is ever used, and it
   * is the sign of the dot product with last - first: dividing by the
   * sample count, a positive number, changes no sign.
   */
  lemma DirectionSign(h: seq<Vec3>, w: Vec3)
    requires |h| >= 2
    ensures Dot(Direction(h), w) < 0.0 <==> Dot(Sub(h[|h| - 1], h[0]), w) < 0.0
    ensures Dot(Direction(h), w) > 0.0 <==> Dot(Sub(h[|h| - 1], h[0]), w) > 0.0
  {
    var n := |h| as real;
    var span := Sub(h[|h| - 1], h[0]);
    assert DivScalar(span, n) == Scale(span, 1.0 / n);
    DotScaleLeft(span, 1.0 / n, w);
    var x := Dot(span, w);
    if x < 0.0 {
      MulLeftMonotone(1.0 / n, x, 0.0);
    } else if x > 0.0 {
      MulLeftMonotone(1.0 / n, 0.0, x);
    }
  }

  /** Consecutive samples are at least MinStepSq apart (squared). */
  ghost predicate Spaced(h: seq<Vec3>)
  {
    forall i :: 0 < i < |h| ==> SqDist(h[i], h[i - 1]) >= MinStepSq
  }

  /**
   * Recording a sample: the first sample is always kept; a sample less than
   * 0.1 from the last one is ignored; a step against the current direction
   * clears the history first; the sample is then appended, the oldest
   * entry falling out beyond Capacity.
   */
  function AddSample(h: seq<Vec3>, p: Vec3): (r: seq<Vec3>)
    ensures r == h || (0 < |r| <= Capacity && r[|r| - 1] == p)
    ensures |h| <= Capacity ==> |r| <= Capacity
  {
    if |h| == 0 then [p]
    else
      var step := Sub(p, h[|h| - 1]);
      if SqLen(step) < MinStepSq then h
      else if Dot(Direction(h), step) < 0.0 then KeepNewest([p], Capacity)
      else KeepNewest(h + [p], Capacity)
  }

  /**
   * The outcome of AddSample is one of exactly three things, and the
   * history never grows past Capacity.
   */
  lemma AddSampleCases(h: seq<Vec3>, p: Vec3)
    ensures var r := AddSample(h, p);
      && (|h| == 0 ==> r == [p])
      && (|h| > 0 && SqDist(p, h[|h| - 1]) < MinStepSq ==> r == h)
      && ((|h| > 0 && SqDist(p, h[|h| - 1]) >= MinStepSq && Dot(Direction(h), Sub(p, h[|h| - 1])) < 0.0)
          ==> r == [p])
      && ((|h| > 0 && SqDist(p, h[|h| - 1]) >= MinStepSq && Dot(Direction(h), Sub(p, h[|h| - 1])) >= 0.0)
          ==> r == KeepNewest(h + [p], Capacity) && r[|r| - 1] == p)
      && (|h| <= Capacity ==> |r| <= Capacity)
  {
  }

  /** A suffix of a spaced history is spaced. */
  lemma SpacedSuffix(s: seq<Vec3>, k: nat)
    requires Spaced(s) && k <= |s|
    ensures Spaced(s[k..])
  {
    var t := s[k..];
    forall i | 0 < i < |t|
      ensures SqDist(t[i], t[i - 1]) >= MinStepSq
    {
      assert t[i] == s[k + i] && t[i - 1] == s[k + i - 1];
    }
  }

  /** Recording a sample keeps consecutive samples at least 0.1 apart. */
  lemma AddSampleKeepsSpacing(h: seq<Vec3>, p: Vec3)
    requires Spaced(h)
    ensures Spaced(AddSample(h, p))
  {
    if |h| > 0 && SqDist(p, h[|h| - 1]) >= MinStepSq && Dot(Direction(h), Sub(p, h[|h| - 1])) >= 0.0 {
      var s := h + [p];
      forall i | 0 < i < |s|
        ensures SqDist(s[i], s[i - 1]) >= MinStepSq
      {
        if i < |h| {
          assert s[i] == h[i] && s[i - 1] == h[i - 1];
        }
      }
      SpacedSuffix(s, |s| - |KeepNewest(s, Capacity)|);
    }
  }

  /**
   * Reversal: with history [A, B] where B - A = (1, 0, 0), recording A
   * again moves against the direction, so the history restarts as [A].
   */
  lemma ReversalRestartsHistory(a: Vec3)
    ensures AddSample([a, Add(a, Vec3(1.0, 0.0, 0.0))], a) == [a]
  {
    var h := [a, Add(a, Vec3(1.0, 0.0, 0.0))];
    assert Sub(h[1], h[0]) == Vec3(1.0, 0.0, 0.0);
    assert Direction(h) == Vec3(0.5, 0.0, 0.0);
  }

  /** A vertex lies ahead of `origin` in direction `d`. */
  predicate Forward(v: Vec3, origin: Vec3, d: Vec3)
    ensures Forward(v, origin, d) ==> v != origin && d != Zero
  {
    Dot(Sub(v, origin), d) > 0.0
  }

  /**
   * Index of the last vertex ahead of `origin` along `d`, or -1 when none
   * is: the vertex the flow loop ends up with, since every vertex that
   * passes its test replaces the previous pick.
   */
  function LastForwardIndex(verts: seq<Vec3>, origin: Vec3, d: Vec3): (r: int)
    ensures -1 <= r < |verts|
    ensures r >= 0 ==> Forward(verts[r], origin, d)
    ensures forall j :: r < j < |verts| ==> !Forward(verts[j], origin, d)
    decreases |verts|
  {
    if |verts| == 0 then -1
    else if Forward(verts[|verts| - 1], origin, d) then |verts| - 1
    else LastForwardIndex(verts[..|verts| - 1], origin, d)
  }

  /**
   * The flow loop scores a vertex by |1 - v^ . d^| with both vectors
   * normalized, and keeps it when the score is below 1. For non-zero
   * vectors that test holds exactly when the raw dot product is positive,
   * which is what Forward states.
   */
  lemma FlowScoreMeansForward(vHat: Vec3, dHat: Vec3, sv: real, sd: real)
    requires IsUnit(vHat) && IsUnit(dHat) && sv > 0.0 && sd > 0.0
    ensures Abs(1.0 - Dot(vHat, dHat)) < 1.0 <==> Dot(Scale(vHat, sv), Scale(dHat, sd)) > 0.0
  {
    var c := Dot(vHat, dHat);
    UnitDotAtMostOne(vHat, dHat);
    DotScaleLeft(vHat, sv, Scale(dHat, sd));
    DotScaleRight(vHat, dHat, sd);
    var e := sd * c;
    if c > 0.0 {
      MulLeftMonotone(sd, 0.0, c);
      MulLeftMonotone(sv, 0.0, e);
    } else {
      MulLeftMonotone(sd, c, 0.0);
      MulLeftMonotone(sv, e, 0.0);
    }
  }

  /**
   * A vertex exactly at the origin normalizes to the zero vector, scores
   * |1 - 0| = 1, and is never kept; Forward agrees.
   */
  lemma FlowScoreAtOrigin(origin: Vec3, dHat: Vec3)
    ensures Abs(1.0 - Dot(Zero, dHat)) == 1.0
    ensures !Forward(origin, origin, dHat)
  {
    assert Sub(origin, origin) == Zero;
  }

  /**
   * `i` is the first vertex at the least distance from `loc`: what a scan
   * keeping a candidate only on a strictly smaller distance returns.
   * Squared distances order like distances (MagnitudeOrder).
   */
  ghost predicate IsFirstNearest(verts: seq<Vec3>, loc: Vec3, i: int)
  {
    && 0 <= i < |verts|
    && (forall j :: 0 <= j < |verts| ==> SqDist(loc, verts[i]) <= SqDist(loc, verts[j]))
    && (forall j :: 0 <= j < i ==> SqDist(loc, verts[i]) < SqDist(loc, verts[j]))
  }

  /** At most one index is the first nearest one. */
  lemma FirstNearestUnique(verts: seq<Vec3>, loc: Vec3, i: int, k: int)
    requires IsFirstNearest(verts, loc, i) && IsFirstNearest(verts, loc, k)
    ensures i == k
  {
    var di, dk := SqDist(loc, verts[i]), SqDist(loc, verts[k]);
    assert di <= dk && dk <= di;
  }

  /**
   * Comparing magnitudes is comparing squared lengths: for non-negative
   * m1, m2, m1 < m2 exactly when m1^2 < m2^2. This justifies both the
   * 0.1 step test (against 0.01) and the nearest-vertex scan on squares.
   */
  lemma MagnitudeOrder(m1: real, m2: real)
    requires m1 >= 0.0 && m2 >= 0.0
    ensures m1 < m2 <==> m1 * m1 < m2 * m2
  {
    if m1 < m2 {
      SquareBelow(m1, m2);
    } else {
      SquareBelow(m2, m1);
    }
  }

  /** For 0 <= a <= b, a^2 <= b^2, strictly when a < b. */
  lemma SquareBelow(a: real, b: real)
    requires 0.0 <= a <= b
    ensures a * a <= b * b
    ensures a < b ==> a * a < b * b
  {
    if a < b {
      if a > 0.0 {
        MulLeftMonotone(a, a, b);
      }
      MulLeftMonotone(b, a, b);
      calc {
        a * a;
      <= a * b;
      == b * a;
      <  b * b;
      }
    } else {
      assert a == b;
    }
  }
}
