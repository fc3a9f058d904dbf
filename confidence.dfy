/** Confidence of a landmark group: the spread of the group's points around
    their centre, measured as the population variance of the point-to-centre
    distances, mapped to a score in (0, 1] and a three-level tier. */
module Confidence {
  import opened Geometry
  import opened Centroid

  /** The 'status' field. The two web front ends spell the two error
      statuses differently ('insufficient_points' / 'insufficient',
      'calculation_failed' / 'failed'); the model keeps one tag each. */
  datatype Status = Unknown | Insufficient | Failed | High | Medium | Low

  datatype Assessment = Assessment(
    confidence: real,
    status: Status,
    color: string,
    variance: Option<real>,
    pointCount: Option<nat>)

  /** The 'color' field for each status. */
  function ColorOf(s: Status): string
  {
    match s
    case Unknown => "#808080"
    case High => "#00FF00"
    case Medium => "#FFAA00"
    case _ => "#FF0000"
  }

  /** The distance of each point to the centre, in order. */
  function Distances(ps: seq<Point>, c: Point, sqrt: real -> real): (ds: seq<real>)
    ensures |ds| == |ps|
    ensures forall i :: 0 <= i < |ps| ==> ds[i] == Dist(sqrt, ps[i], c)
  {
    if ps == [] then []
    else Distances(ps[..|ps| - 1], c, sqrt) + [Dist(sqrt, ps[|ps| - 1], c)]
  }

  function Sum(xs: seq<real>): real
  {
    if xs == [] then 0.0 else Sum(xs[..|xs| - 1]) + xs[|xs| - 1]
  }

  function Mean(xs: seq<real>): real
    requires |xs| > 0
  {
    Sum(xs) / |xs| as real
  }

  /** The sum of squared deviations from m; never negative. */
  function SquaredDeviations(xs: seq<real>, m: real): (s: real)
    ensures s >= 0.0
    ensures s == 0.0 <==> forall i :: 0 <= i < |xs| ==> xs[i] == m
  {
    if xs == [] then 0.0
    else
      var init := SquaredDeviations(xs[..|xs| - 1], m);
      var d := xs[|xs| - 1] - m;
      assert forall i :: 0 <= i < |xs| - 1 ==> xs[..|xs| - 1][i] == xs[i];
      SquareSign(d);
      init + Square(d)
  }

  /** a * b, named so that the solver treats a square as a product of two
      arguments. */
  function Mul(a: real, b: real): real
  {
    a * b
  }

  function Square(d: real): real
  {
    Mul(d, d)
  }

  /** A square is zero at zero and positive elsewhere. */
  lemma SquareSign(d: real)
    ensures d == 0.0 ==> Square(d) == 0.0
    ensures d != 0.0 ==> Square(d) > 0.0
  {
    if d > 0.0 {
      MulPositive(d, d);
    } else if d < 0.0 {
      MulNegative(d, d);
    }
  }

  lemma MulPositive(a: real, b: real)
    requires a > 0.0 && b > 0.0
    ensures Mul(a, b) > 0.0
  {
  }

  lemma MulNegative(a: real, b: real)
    requires a < 0.0 && b < 0.0
    ensures Mul(a, b) > 0.0
  {
  }

  /** np.var: the population variance (divisor n). */
  function Variance(xs: seq<real>): (v: real)
    requires |xs| > 0
    ensures v >= 0.0
    ensures v == 0.0 <==> forall i :: 0 <= i < |xs| ==> xs[i] == Mean(xs)
  {
    SquaredDeviations(xs, Mean(xs)) / |xs| as real
  }

  /** max(0, min(1, 1 / (1 + variance / 10))). */
  function ConfidenceOf(v: real): (c: real)
    requires v >= 0.0
    ensures 0.0 < c <= 1.0
    ensures c == 1.0 <==> v == 0.0
  {
    var raw := 1.0 / (1.0 + v / 10.0);
    assert raw * (1.0 + v / 10.0) == 1.0;
    var capped := if 1.0 <= raw then 1.0 else raw;
    if 0.0 >= capped then 0.0 else capped
  }

  /** The score falls as the spread grows. */
  lemma ConfidenceDecreasing(v1: real, v2: real)
    requires 0.0 <= v1 <= v2
    ensures ConfidenceOf(v1) >= ConfidenceOf(v2)
  {
    ReciprocalAntitone(1.0 + v1 / 10.0, 1.0 + v2 / 10.0);
  }

  lemma ReciprocalAntitone(a: real, b: real)
    requires 0.0 < a <= b
    ensures 1.0 / b <= 1.0 / a
  {
    assert 1.0 / a * a == 1.0 && 1.0 / b * b == 1.0;
    assert 1.0 / b * a <= 1.0 / b * b;
  }

  /** Thresholds 0.8 and 0.5 on the score. */
  function TierOf(c: real): (t: Status)
    ensures t == High <==> c > 0.8
    ensures t == Medium <==> 0.5 < c <= 0.8
    ensures t == Low <==> c <= 0.5
  {
    if c > 0.8 then High else if c > 0.5 then Medium else Low
  }

  /** In terms of the variance, the tiers are: high below 2.5, medium from
      2.5 up to 10, low from 10 on. */
  lemma TierByVariance(v: real)
    requires v >= 0.0
    ensures TierOf(ConfidenceOf(v)) == High <==> v < 2.5
    ensures TierOf(ConfidenceOf(v)) == Medium <==> 2.5 <= v < 10.0
    ensures TierOf(ConfidenceOf(v)) == Low <==> 10.0 <= v
  {
    var a := 1.0 + v / 10.0;
    var c := ConfidenceOf(v);
    assert c == 1.0 / a;
    assert c * a == 1.0;
    assert c > 0.8 <==> v < 2.5 by {
      if c > 0.8 {
        assert c * a > 0.8 * a;
      }
      if v < 2.5 {
        assert 0.8 * a < 1.0;
        assert c * a > 0.8 * a;
      }
    }
    assert c > 0.5 <==> v < 10.0 by {
      if c > 0.5 {
        assert c * a > 0.5 * a;
      }
      if v < 10.0 {
        assert 0.5 * a < 1.0;
        assert c * a > 0.5 * a;
      }
    }
  }

  /** assess_landmark_confidence: unknown names, fewer than two landmarks
      in range, and a missing centre are reported with confidence 0;
      otherwise the score comes from the variance of the distances of the
      in-range points to the group centre (rounded by `round` in
      src/app_final.py, unrounded in src/app.py). */
  function Assess(groups: seq<Group>, name: string, lms: seq<Landmark>, img: Size,
                  sqrt: real -> real, round: real -> real): (r: Assessment)
    ensures r.color == ColorOf(r.status)
    ensures r.status == Unknown <==> !Known(groups, name)
    ensures r.status == Insufficient <==> Known(groups, name) && |Pixels(lms, IndicesOf(groups, name), img)| < 2
    ensures r.status != Failed
    ensures r.status in {High, Medium, Low} ==>
      0.0 < r.confidence <= 1.0 && r.status == TierOf(r.confidence) &&
      r.variance.Some? && r.variance.value >= 0.0 && r.confidence == ConfidenceOf(r.variance.value) &&
      r.pointCount == Some(|Pixels(lms, IndicesOf(groups, name), img)|)
    ensures r.status !in {High, Medium, Low} ==> r.confidence == 0.0 && r.variance.None? && r.pointCount.None?
  {
    if !Known(groups, name) then Assessment(0.0, Unknown, ColorOf(Unknown), None, None)
    else
      var indices := IndicesOf(groups, name);
      var ps := Pixels(lms, indices, img);
      if |ps| < 2 then Assessment(0.0, Insufficient, ColorOf(Insufficient), None, None)
      else
        match RoundedCenter(lms, indices, img, round)
        case None => Assessment(0.0, Failed, ColorOf(Failed), None, None)
        case Some(c) =>
          var v := Variance(Distances(ps, c, sqrt));
          var conf := ConfidenceOf(v);
          Assessment(conf, TierOf(conf), ColorOf(TierOf(conf)), Some(v), Some(|ps|))
  }

  /** A group whose in-range points all lie at the same distance from the
      centre (for instance, two points) has variance 0 and is rated high
      with confidence 1. */
  lemma EquidistantIsHigh(groups: seq<Group>, name: string, lms: seq<Landmark>, img: Size,
                          sqrt: real -> real, round: real -> real)
    requires Known(groups, name)
    requires var ps := Pixels(lms, IndicesOf(groups, name), img);
      |ps| >= 2 &&
      var c := RoundedCenter(lms, IndicesOf(groups, name), img, round).value;
      forall i :: 0 <= i < |ps| ==> Dist(sqrt, ps[i], c) == Dist(sqrt, ps[0], c)
    ensures Assess(groups, name, lms, img, sqrt, round).confidence == 1.0
    ensures Assess(groups, name, lms, img, sqrt, round).status == High
  {
    var indices := IndicesOf(groups, name);
    var ps := Pixels(lms, indices, img);
    PixelsEmpty(lms, indices, img);
    var c := RoundedCenter(lms, indices, img, round).value;
    var ds := Distances(ps, c, sqrt);
    ConstantMean(ds, ds[0]);
  }

  lemma {:induction false} ConstantSum(xs: seq<real>, k: real)
    requires forall i :: 0 <= i < |xs| ==> xs[i] == k
    ensures Sum(xs) == |xs| as real * k
  {
    if xs != [] {
      var init := xs[..|xs| - 1];
      assert forall i :: 0 <= i < |init| ==> init[i] == xs[i];
      ConstantSum(init, k);
    }
  }

  lemma ConstantMean(xs: seq<real>, k: real)
    requires |xs| > 0
    requires forall i :: 0 <= i < |xs| ==> xs[i] == k
    ensures Mean(xs) == k
    ensures Variance(xs) == 0.0
  {
    ConstantSum(xs, k);
  }

  // ---- src/app.py's loop version ------------------------------------------

  /** LandmarkAnalyzer.assess_landmark_confidence: the loops of the source
      (collect points, compute the centre, the distances, then np.var),
      proved to compute Assess with the unrounded centre. */
  method AssessLandmarkConfidence(name: string, lms: seq<Landmark>, img: Size, sqrt: real -> real)
    returns (r: Assessment)
    ensures r == Assess(AppGroups, name, lms, img, sqrt, Identity)
  {
    if !Known(AppGroups, name) {
      return Assessment(0.0, Unknown, ColorOf(Unknown), None, None);
    }
    var groupIndices := IndicesOf(AppGroups, name);
    var points: seq<Point> := [];
    var i := 0;
    while i < |groupIndices|
      invariant 0 <= i <= |groupIndices|
      invariant points == Pixels(lms, groupIndices[..i], img)
    {
      assert groupIndices[..i + 1][..i] == groupIndices[..i];
      var idx := groupIndices[i];
      if idx < |lms| {
        points := points + [ToPixel(lms[idx], img)];
      }
      i := i + 1;
    }
    assert groupIndices[..i] == groupIndices;
    if |points| < 2 {
      return Assessment(0.0, Insufficient, ColorOf(Insufficient), None, None);
    }
    var center := CalculateGroupCenter(lms, groupIndices, img);
    if center.None? {
      return Assessment(0.0, Failed, ColorOf(Failed), None, None);
    }
    var c := center.value;
    var distances: seq<real> := [];
    var j := 0;
    while j < |points|
      invariant 0 <= j <= |points|
      invariant distances == Distances(points[..j], c, sqrt)
    {
      assert points[..j + 1][..j] == points[..j];
      distances := distances + [Dist(sqrt, points[j], c)];
      j := j + 1;
    }
    assert points[..j] == points;
    var variance := NpVar(distances);
    var confidence := ConfidenceOf(variance);
    var status := TierOf(confidence);
    r := Assessment(confidence, status, ColorOf(status), Some(variance), Some(|points|));
  }

  /** np.var as two passes: the mean, then the mean squared deviation. */
  method NpVar(xs: seq<real>) returns (v: real)
    requires |xs| > 0
    ensures v == Variance(xs)
  {
    var total := 0.0;
    var i := 0;
    while i < |xs|
      invariant 0 <= i <= |xs|
      invariant total == Sum(xs[..i])
    {
      assert xs[..i + 1][..i] == xs[..i];
      total := total + xs[i];
      i := i + 1;
    }
    assert xs[..i] == xs;
    var mean := total / |xs| as real;
    var squares := 0.0;
    i := 0;
    while i < |xs|
      invariant 0 <= i <= |xs|
      invariant squares == SquaredDeviations(xs[..i], mean)
    {
      assert xs[..i + 1][..i] == xs[..i];
      squares := squares + Square(xs[i] - mean);
      i := i + 1;
    }
    assert xs[..i] == xs;
    v := squares / |xs| as real;
  }
}
