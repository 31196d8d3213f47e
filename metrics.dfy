/**
 * The evaluation metrics and the training loss, over real numbers.
 *
 * Precision, recall and F1 clip every value to [0, 1], round it to the
 * nearest integer (ties to even) and count; a small epsilon keeps their
 * denominators away from zero. The Dice coefficient uses plain sums over all
 * elements; the Dice loss reduces only over the last axis and uses sums of
 * squares in its denominator. Tensors reduced over every axis are taken here
 * as flat sequences (a sum does not depend on the order of its terms); the
 * loss takes a sequence of last-axis vectors and returns one loss per vector.
 */
module Metrics {

  /** The backend's fuzz factor. */
  const EPSILON: real := 0.0000001
  /** Default smoothing term of both Dice formulas. */
  const SMOOTH: real := 1.0

  function Sum(s: seq<real>): real {
    if s == [] then 0.0 else s[0] + Sum(s[1..])
  }

  /** Element-wise product. */
  function Times(a: seq<real>, b: seq<real>): (r: seq<real>)
    requires |a| == |b|
    ensures |r| == |a|
  {
    seq(|a|, i requires 0 <= i < |a| => a[i] * b[i])
  }

  function Abs(v: real): real {
    if v < 0.0 then -v else v
  }

  function AbsAll(s: seq<real>): (r: seq<real>)
    ensures |r| == |s|
  {
    seq(|s|, i requires 0 <= i < |s| => Abs(s[i]))
  }

  function SquareAll(s: seq<real>): (r: seq<real>)
    ensures |r| == |s|
  {
    seq(|s|, i requires 0 <= i < |s| => s[i] * s[i])
  }

  /** Clipping lands in [lo, hi] and leaves values already there unchanged. */
  function Clip(v: real, lo: real, hi: real): (r: real)
    requires lo <= hi
    ensures lo <= r <= hi
    ensures lo <= v <= hi ==> r == v
  {
    if v < lo then lo else if v > hi then hi else v
  }

  /** Round to the nearest integer, halfway cases to the even one. */
  function Round(v: real): (r: real)
    ensures r == r.Floor as real
    ensures v - 0.5 <= r <= v + 0.5
    ensures r == v - 0.5 || r == v + 0.5 ==> r.Floor % 2 == 0
  {
    var f := v.Floor;
    var d := v - f as real;
    if d < 0.5 then f as real
    else if d > 0.5 then (f + 1) as real
    else if f % 2 == 0 then f as real
    else (f + 1) as real
  }

  function RoundClip(v: real): (r: real)
    ensures r == 0.0 || r == 1.0
  {
    Round(Clip(v, 0.0, 1.0))
  }

  /** sum(round(clip(s, 0, 1))): the number of elements that round to one. */
  function Count(s: seq<real>): (c: real)
    ensures 0.0 <= c <= |s| as real
  {
    if s == [] then 0.0 else RoundClip(s[0]) + Count(s[1..])
  }

  function TruePositives(yTrue: seq<real>, yPred: seq<real>): (tp: real)
    requires |yTrue| == |yPred|
    ensures 0.0 <= tp <= |yTrue| as real
  {
    Count(Times(yTrue, yPred))
  }

  /** Never negative, and zero exactly when there is no true positive. */
  function Recall(yTrue: seq<real>, yPred: seq<real>): (r: real)
    requires |yTrue| == |yPred|
    ensures r >= 0.0
    ensures r == 0.0 <==> TruePositives(yTrue, yPred) == 0.0
  {
    var tp, possible := TruePositives(yTrue, yPred), Count(yTrue);
    QuotientSign(tp, possible + EPSILON);
    tp / (possible + EPSILON)
  }

  /** Never negative, and zero exactly when there is no true positive. */
  function Precision(yTrue: seq<real>, yPred: seq<real>): (r: real)
    requires |yTrue| == |yPred|
    ensures r >= 0.0
    ensures r == 0.0 <==> TruePositives(yTrue, yPred) == 0.0
  {
    var tp, predicted := TruePositives(yTrue, yPred), Count(yPred);
    QuotientSign(tp, predicted + EPSILON);
    tp / (predicted + EPSILON)
  }

  /** Never negative, and zero exactly when precision or recall is zero. */
  function F1(yTrue: seq<real>, yPred: seq<real>): (r: real)
    requires |yTrue| == |yPred|
    ensures r >= 0.0
    ensures r == 0.0 <==> Precision(yTrue, yPred) == 0.0 || Recall(yTrue, yPred) == 0.0
  {
    var precision := Precision(yTrue, yPred);
    var recall := Recall(yTrue, yPred);
    F1Formula(precision, recall);
    2.0 * ((precision * recall) / (precision + recall + EPSILON))
  }

  /**
   * Plain sums over all elements; undefined (a division by zero) when the
   * denominator vanishes. On values in [0, 1] it lies in (0, 1].
   */
  function DiceCoef(yTrue: seq<real>, yPred: seq<real>): (r: real)
    requires |yTrue| == |yPred|
    requires Sum(yTrue) + Sum(yPred) + SMOOTH != 0.0
    ensures InUnit(yTrue) && InUnit(yPred) ==> 0.0 < r <= 1.0
  {
    var overlap2, total := 2.0 * Sum(Times(yTrue, yPred)), Sum(yTrue) + Sum(yPred);
    var coef := (overlap2 + SMOOTH) / (total + SMOOTH);
    if InUnit(yTrue) && InUnit(yPred) then
      OverlapBounded(yTrue, yPred);
      DiceQuotient(overlap2, total, SMOOTH);
      coef
    else coef
  }

  /** The loss of one last-axis vector, squared sums in the denominator: in [0, 1) for all reals. */
  function DiceLossAt(yTrue: seq<real>, yPred: seq<real>): (r: real)
    requires |yTrue| == |yPred|
    ensures 0.0 <= r < 1.0
  {
    var overlap2 := 2.0 * Sum(AbsAll(Times(yTrue, yPred)));
    var total := Sum(SquareAll(yTrue)) + Sum(SquareAll(yPred));
    AbsOverlapBounded(yTrue, yPred);
    DiceQuotient(overlap2, total, SMOOTH);
    1.0 - (overlap2 + SMOOTH) / (total + SMOOTH)
  }

  predicate SameLengths(yTrue: seq<seq<real>>, yPred: seq<seq<real>>) {
    |yTrue| == |yPred| && forall n :: 0 <= n < |yTrue| ==> |yTrue[n]| == |yPred[n]|
  }

  function DiceLoss(yTrue: seq<seq<real>>, yPred: seq<seq<real>>): (r: seq<real>)
    requires SameLengths(yTrue, yPred)
    ensures |r| == |yTrue|
  {
    seq(|yTrue|, n requires 0 <= n < |yTrue| => DiceLossAt(yTrue[n], yPred[n]))
  }

  // Helper facts about sums and quotients.

  predicate AllNonneg(s: seq<real>) {
    forall i :: 0 <= i < |s| ==> s[i] >= 0.0
  }

  predicate InUnit(s: seq<real>) {
    forall i :: 0 <= i < |s| ==> 0.0 <= s[i] <= 1.0
  }

  predicate Binary(s: seq<real>) {
    forall i :: 0 <= i < |s| ==> s[i] == 0.0 || s[i] == 1.0
  }

  lemma {:induction false} SumNonneg(s: seq<real>)
    requires AllNonneg(s)
    ensures Sum(s) >= 0.0
  {
    if s != [] {
      SumNonneg(s[1..]);
    }
  }

  lemma {:induction false} MulNonneg(x: real, y: real)
    requires x >= 0.0 && y >= 0.0
    ensures x * y >= 0.0
  {
  }

  lemma {:induction false} SquareNonneg(z: real)
    ensures z * z >= 0.0
  {
  }

  lemma {:induction false} QuotientSign(a: real, b: real)
    requires a >= 0.0 && b > 0.0
    ensures a / b >= 0.0
    ensures a / b == 0.0 <==> a == 0.0
  {
    assert a / b * b == a;
  }

  /** A quotient of a non-negative numerator by a larger denominator is below one. */
  lemma {:induction false} QuotientBelowOne(a: real, b: real)
    requires 0.0 <= a < b
    ensures 0.0 <= a / b < 1.0
  {
    assert a / b * b == a;
  }

  lemma {:induction false} UnitProduct(x: real, y: real)
    requires 0.0 <= x <= 1.0 && 0.0 <= y <= 1.0
    ensures 0.0 <= x * y && x * y <= x && x * y <= y
    ensures 2.0 * (x * y) <= x + y
  {
    MulNonneg(x, y);
    MulNonneg(x, 1.0 - y);
    MulNonneg(y, 1.0 - x);
  }

  // Counting.

  lemma {:induction false} RoundClipMonotone(a: real, b: real)
    requires a <= b
    ensures RoundClip(a) <= RoundClip(b)
  {
    if RoundClip(a) == 1.0 {
      assert Clip(a, 0.0, 1.0) > 0.5;
    }
  }

  /** Counting is monotone in each element. */
  lemma {:induction false} CountMonotone(a: seq<real>, b: seq<real>)
    requires |a| == |b|
    requires forall i :: 0 <= i < |a| ==> a[i] <= b[i]
    ensures Count(a) <= Count(b)
  {
    if a != [] {
      RoundClipMonotone(a[0], b[0]);
      CountMonotone(a[1..], b[1..]);
    }
  }

  lemma {:induction false} ProductBelowFactors(a: seq<real>, b: seq<real>)
    requires |a| == |b| && InUnit(a) && InUnit(b)
    ensures forall i :: 0 <= i < |a| ==> Times(a, b)[i] <= a[i] && Times(a, b)[i] <= b[i]
  {
    forall i | 0 <= i < |a|
      ensures Times(a, b)[i] <= a[i] && Times(a, b)[i] <= b[i]
    {
      var x, y := a[i], b[i];
      assert 0.0 <= x <= 1.0 && 0.0 <= y <= 1.0;
      UnitProduct(x, y);
      assert Times(a, b)[i] == x * y;
    }
  }

  /** On values in [0, 1] a true positive is also a positive of each mask. */
  lemma {:induction false} TruePositivesBounded(yTrue: seq<real>, yPred: seq<real>)
    requires |yTrue| == |yPred| && InUnit(yTrue) && InUnit(yPred)
    ensures TruePositives(yTrue, yPred) <= Count(yTrue)
    ensures TruePositives(yTrue, yPred) <= Count(yPred)
  {
    var tp := Times(yTrue, yPred);
    ProductBelowFactors(yTrue, yPred);
    CountMonotone(tp, yTrue);
    CountMonotone(tp, yPred);
  }

  // Precision, recall and F1.

  /** Recall is never negative and is zero exactly when there is no true positive; on [0, 1] it stays below one. */
  lemma {:induction false} RecallBounds(yTrue: seq<real>, yPred: seq<real>)
    requires |yTrue| == |yPred|
    ensures Recall(yTrue, yPred) >= 0.0
    ensures Recall(yTrue, yPred) == 0.0 <==> TruePositives(yTrue, yPred) == 0.0
    ensures InUnit(yTrue) && InUnit(yPred) ==> Recall(yTrue, yPred) < 1.0
  {
    var tp, d := TruePositives(yTrue, yPred), Count(yTrue) + EPSILON;
    assert tp / d * d == tp;
    if InUnit(yTrue) && InUnit(yPred) {
      TruePositivesBounded(yTrue, yPred);
      QuotientBelowOne(tp, d);
    }
  }

  /** Precision is never negative and is zero exactly when there is no true positive; on [0, 1] it stays below one. */
  lemma {:induction false} PrecisionBounds(yTrue: seq<real>, yPred: seq<real>)
    requires |yTrue| == |yPred|
    ensures Precision(yTrue, yPred) >= 0.0
    ensures Precision(yTrue, yPred) == 0.0 <==> TruePositives(yTrue, yPred) == 0.0
    ensures InUnit(yTrue) && InUnit(yPred) ==> Precision(yTrue, yPred) < 1.0
  {
    var tp, d := TruePositives(yTrue, yPred), Count(yPred) + EPSILON;
    assert tp / d * d == tp;
    if InUnit(yTrue) && InUnit(yPred) {
      TruePositivesBounded(yTrue, yPred);
      QuotientBelowOne(tp, d);
    }
  }

  /** The F1 formula on a precision p and a recall r. */
  lemma {:induction false} F1Formula(p: real, r: real)
    requires p >= 0.0 && r >= 0.0
    ensures var f := 2.0 * ((p * r) / (p + r + EPSILON));
      && f >= 0.0
      && (f == 0.0 <==> p == 0.0 || r == 0.0)
      && (p < 1.0 && r < 1.0 ==> f < 1.0)
  {
    var num, den := p * r, p + r + EPSILON;
    MulNonneg(p, r);
    assert num / den * den == num;
    assert num == 0.0 <==> p == 0.0 || r == 0.0;
    if p < 1.0 && r < 1.0 {
      MulNonneg(p, 1.0 - r);
      MulNonneg(r, 1.0 - p);
      QuotientBelowOne(2.0 * num, den);
      assert 2.0 * (num / den) == 2.0 * num / den;
    }
  }

  /** F1 is zero exactly when precision or recall is, which is when there is no true positive; on [0, 1] it stays in [0, 1). */
  lemma {:induction false} F1Bounds(yTrue: seq<real>, yPred: seq<real>)
    requires |yTrue| == |yPred|
    ensures F1(yTrue, yPred) >= 0.0
    ensures F1(yTrue, yPred) == 0.0 <==> Precision(yTrue, yPred) == 0.0 || Recall(yTrue, yPred) == 0.0
    ensures F1(yTrue, yPred) == 0.0 <==> TruePositives(yTrue, yPred) == 0.0
    ensures InUnit(yTrue) && InUnit(yPred) ==> F1(yTrue, yPred) < 1.0
  {
    var p, r := Precision(yTrue, yPred), Recall(yTrue, yPred);
    PrecisionBounds(yTrue, yPred);
    RecallBounds(yTrue, yPred);
    assert F1(yTrue, yPred) == 2.0 * ((p * r) / (p + r + EPSILON));
    F1Formula(p, r);
  }

  /** An all-zero prediction scores zero precision, recall and F1, whatever the truth. */
  lemma {:induction false} NoPredictionScoresZero(yTrue: seq<real>, yPred: seq<real>)
    requires |yTrue| == |yPred|
    requires forall i :: 0 <= i < |yPred| ==> yPred[i] == 0.0
    ensures Recall(yTrue, yPred) == 0.0 && Precision(yTrue, yPred) == 0.0 && F1(yTrue, yPred) == 0.0
  {
    var zeros := seq(|yPred|, i => 0.0);
    assert Times(yTrue, yPred) == zeros;
    ZeroCount(zeros);
    RecallBounds(yTrue, yPred);
    PrecisionBounds(yTrue, yPred);
    F1Bounds(yTrue, yPred);
  }

  /** On a binary mask round(clip(·)) changes nothing, so the count is the sum. */
  lemma {:induction false} CountBinary(s: seq<real>)
    requires Binary(s)
    ensures Count(s) == Sum(s)
  {
    if s != [] {
      CountBinary(s[1..]);
      assert RoundClip(s[0]) == s[0];
    }
  }

  /** On binary masks the three counts are exact: the overlap and the two numbers of ones. */
  lemma {:induction false} TruePositivesBinary(yTrue: seq<real>, yPred: seq<real>)
    requires |yTrue| == |yPred| && Binary(yTrue) && Binary(yPred)
    ensures TruePositives(yTrue, yPred) == Sum(Times(yTrue, yPred))
    ensures Count(yTrue) == Sum(yTrue) && Count(yPred) == Sum(yPred)
  {
    assert Binary(Times(yTrue, yPred));
    CountBinary(Times(yTrue, yPred));
    CountBinary(yTrue);
    CountBinary(yPred);
  }

  lemma {:induction false} ZeroCount(s: seq<real>)
    requires forall i :: 0 <= i < |s| ==> s[i] == 0.0
    ensures Count(s) == 0.0
  {
    if s != [] {
      ZeroCount(s[1..]);
    }
  }

  // Dice.

  lemma {:induction false} TimesTail(a: seq<real>, b: seq<real>)
    requires |a| == |b| > 0
    ensures Times(a, b)[1..] == Times(a[1..], b[1..])
    ensures AbsAll(Times(a, b))[1..] == AbsAll(Times(a[1..], b[1..]))
  {
    assert forall k :: 0 <= k < |a| - 1 ==> Times(a, b)[1..][k] == Times(a[1..], b[1..])[k];
    assert forall k :: 0 <= k < |a| - 1 ==>
      AbsAll(Times(a, b))[1..][k] == AbsAll(Times(a[1..], b[1..]))[k];
  }

  lemma {:induction false} SquareTail(a: seq<real>)
    requires |a| > 0
    ensures SquareAll(a)[1..] == SquareAll(a[1..])
  {
    assert forall k :: 0 <= k < |a| - 1 ==> SquareAll(a)[1..][k] == SquareAll(a[1..])[k];
  }

  /** On [0, 1] the overlap counted twice never exceeds the two sums. */
  lemma {:induction false} OverlapBounded(a: seq<real>, b: seq<real>)
    requires |a| == |b| && InUnit(a) && InUnit(b)
    ensures 0.0 <= 2.0 * Sum(Times(a, b)) <= Sum(a) + Sum(b)
  {
    if a != [] {
      TimesTail(a, b);
      OverlapBounded(a[1..], b[1..]);
      UnitProduct(a[0], b[0]);
      assert Sum(Times(a, b)) == a[0] * b[0] + Sum(Times(a[1..], b[1..]));
    }
  }

  /** The quotient (2·i + s) / (d + s) with 0 <= 2·i <= d and s > 0 lies in (0, 1]. */
  lemma {:induction false} DiceQuotient(overlap2: real, total: real, smooth: real)
    requires 0.0 <= overlap2 <= total && smooth > 0.0
    ensures 0.0 < (overlap2 + smooth) / (total + smooth) <= 1.0
  {
    var num, den := overlap2 + smooth, total + smooth;
    assert num / den * den == num;
  }

  /** For values in [0, 1] the Dice coefficient lies in (0, 1]. */
  lemma {:induction false} DiceCoefBounds(yTrue: seq<real>, yPred: seq<real>)
    requires |yTrue| == |yPred| && InUnit(yTrue) && InUnit(yPred)
    ensures Sum(yTrue) + Sum(yPred) + SMOOTH > 0.0
    ensures 0.0 < DiceCoef(yTrue, yPred) <= 1.0
  {
    var overlap2, total := 2.0 * Sum(Times(yTrue, yPred)), Sum(yTrue) + Sum(yPred);
    OverlapBounded(yTrue, yPred);
    DiceQuotient(overlap2, total, SMOOTH);
    assert DiceCoef(yTrue, yPred) == (overlap2 + SMOOTH) / (total + SMOOTH);
  }

  /** 2·|x·y| <= x² + y². */
  lemma {:induction false} AbsProductBound(x: real, y: real)
    ensures 0.0 <= 2.0 * Abs(x * y) <= x * x + y * y
  {
    var u, v := Abs(x), Abs(y);
    MulNonneg(u, v);
    SquareNonneg(u - v);
    assert Abs(x * y) == u * v;
    assert x * x == u * u && y * y == v * v;
  }

  lemma {:induction false} HeadBound(a: seq<real>, b: seq<real>)
    requires |a| == |b| > 0
    ensures 0.0 <= 2.0 * AbsAll(Times(a, b))[0] <= SquareAll(a)[0] + SquareAll(b)[0]
  {
    AbsProductBound(a[0], b[0]);
  }

  /** 2·|t·p| <= t² + p², summed. */
  lemma {:induction false} AbsOverlapBounded(a: seq<real>, b: seq<real>)
    requires |a| == |b|
    ensures 0.0 <= 2.0 * Sum(AbsAll(Times(a, b))) <= Sum(SquareAll(a)) + Sum(SquareAll(b))
  {
    if a != [] {
      TimesTail(a, b);
      SquareTail(a);
      SquareTail(b);
      AbsOverlapBounded(a[1..], b[1..]);
      HeadBound(a, b);
    }
  }

  /** For any real inputs every per-vector Dice loss lies in [0, 1). */
  lemma {:induction false} DiceLossBounds(yTrue: seq<seq<real>>, yPred: seq<seq<real>>)
    requires SameLengths(yTrue, yPred)
    ensures forall n :: 0 <= n < |yTrue| ==> 0.0 <= DiceLoss(yTrue, yPred)[n] < 1.0
  {
    forall n | 0 <= n < |yTrue|
      ensures 0.0 <= DiceLossAt(yTrue[n], yPred[n]) < 1.0
    {
      var t, p := yTrue[n], yPred[n];
      AbsOverlapBounded(t, p);
      DiceQuotient(2.0 * Sum(AbsAll(Times(t, p))), Sum(SquareAll(t)) + Sum(SquareAll(p)), SMOOTH);
    }
  }

  /** On a binary mask squaring, taking absolute values and self-products change nothing. */
  lemma {:induction false} BinaryIdempotent(t: seq<real>)
    requires Binary(t)
    ensures Times(t, t) == t && AbsAll(Times(t, t)) == t && SquareAll(t) == t
  {
  }

  /** A binary mask compared with itself has Dice coefficient one. */
  lemma {:induction false} DiceCoefPerfectMatch(t: seq<real>)
    requires Binary(t)
    ensures Sum(t) + Sum(t) + SMOOTH > 0.0
    ensures DiceCoef(t, t) == 1.0
  {
    BinaryIdempotent(t);
    SumNonneg(t);
    var den := Sum(t) + Sum(t) + SMOOTH;
    assert 2.0 * Sum(Times(t, t)) + SMOOTH == den;
    assert den / den == 1.0;
  }

  /** A binary last-axis vector compared with itself has Dice loss zero, at every position. */
  lemma {:induction false} DiceLossPerfectMatch(ts: seq<seq<real>>)
    requires forall n :: 0 <= n < |ts| ==> Binary(ts[n])
    ensures forall n :: 0 <= n < |ts| ==> DiceLoss(ts, ts)[n] == 0.0
  {
    forall n | 0 <= n < |ts|
      ensures DiceLossAt(ts[n], ts[n]) == 0.0
    {
      var t := ts[n];
      BinaryIdempotent(t);
      SumNonneg(t);
      var den := Sum(SquareAll(t)) + Sum(SquareAll(t)) + SMOOTH;
      assert 2.0 * Sum(AbsAll(Times(t, t))) + SMOOTH == den;
      assert den / den == 1.0;
    }
  }
}
