/** Group-centroid aggregation: a named group's centre is the mean of its
    in-range landmarks, scaled from normalised to pixel coordinates; the
    name-to-point map holds exactly the groups whose centre resolves. */
module Centroid {
  import opened Geometry

  /** One entry of LANDMARK_GROUPS: the name, the landmark indices averaged,
      and the drawing radius ('size'). */
  datatype Group = Group(name: string, indices: seq<nat>, size: nat)

  /** AppConfig.LANDMARK_GROUPS of src/app.py, in its order (eyes first). */
  const AppGroups: seq<Group> := [
    Group("left_eye_center", [159, 158, 157, 173], 10),
    Group("right_eye_center", [386, 385, 384, 398], 10),
    Group("nose_tip", [1, 2], 12),
    Group("nose_bridge", [6, 9], 8),
    Group("left_nostril", [131, 134, 126], 10),
    Group("right_nostril", [102, 49, 48], 10)
  ]

  /** LANDMARK_GROUPS of the other front ends, in their order (nose first). */
  const EditorGroups: seq<Group> := [
    Group("nose_tip", [1, 2], 12),
    Group("nose_bridge", [6, 9], 8),
    Group("left_nostril", [131, 134, 126], 10),
    Group("right_nostril", [102, 49, 48], 10),
    Group("left_eye_center", [159, 158, 157, 173], 10),
    Group("right_eye_center", [386, 385, 384, 398], 10)
  ]

  /** The groups come from a dictionary literal: no name twice. */
  predicate DistinctNames(groups: seq<Group>)
  {
    forall i, j :: 0 <= i < j < |groups| ==> groups[i].name != groups[j].name
  }

  predicate Known(groups: seq<Group>, name: string)
  {
    exists k :: 0 <= k < |groups| && groups[k].name == name
  }

  /** LANDMARK_GROUPS[name]: the indices of the first group with that name. */
  function IndicesOf(groups: seq<Group>, name: string): (r: seq<nat>)
    requires Known(groups, name)
    ensures exists k :: 0 <= k < |groups| && groups[k].name == name && groups[k].indices == r
  {
    if groups[0].name == name then groups[0].indices
    else
      assert Known(groups[1..], name) by {
        var k :| 0 <= k < |groups| && groups[k].name == name;
        assert groups[1..][k - 1].name == name;
      }
      var r := IndicesOf(groups[1..], name);
      ghost var k :| 0 <= k < |groups| - 1 && groups[1..][k].name == name && groups[1..][k].indices == r;
      assert groups[k + 1] == groups[1..][k];
      r
  }

  /** The list `valid_points` of the source: for each index below the
      landmark count, in order, the landmark scaled by (w, h). */
  function Pixels(lms: seq<Landmark>, indices: seq<nat>, img: Size): (ps: seq<Point>)
    ensures |ps| <= |indices|
  {
    if indices == [] then []
    else
      var rest := Pixels(lms, indices[..|indices| - 1], img);
      var i := indices[|indices| - 1];
      if i < |lms| then rest + [ToPixel(lms[i], img)] else rest
  }

  /** Every listed point is the landmark of an in-range index, scaled. */
  lemma {:induction false} PixelsMembers(lms: seq<Landmark>, indices: seq<nat>, img: Size, p: Point)
    requires p in Pixels(lms, indices, img)
    ensures exists i :: i in indices && i < |lms| && p == ToPixel(lms[i], img)
    decreases |indices|
  {
    var init := indices[..|indices| - 1];
    var i := indices[|indices| - 1];
    assert i in indices;
    if p in Pixels(lms, init, img) {
      PixelsMembers(lms, init, img, p);
      var j :| j in init && j < |lms| && p == ToPixel(lms[j], img);
      assert j in indices;
    }
  }

  /** A normalised landmark scaled to pixel coordinates. */
  function ToPixel(l: Landmark, img: Size): Point
  {
    Point(Scaled(l.x, img.w), Scaled(l.y, img.h))
  }

  /** A normalised coordinate times a pixel extent. */
  function Scaled(v: real, n: nat): real
  {
    v * n as real
  }

  predicate AllOutOfRange(lms: seq<Landmark>, indices: seq<nat>)
  {
    forall k :: 0 <= k < |indices| ==> indices[k] >= |lms|
  }

  /** No point survives exactly when every index is out of range. */
  lemma {:induction false} PixelsEmpty(lms: seq<Landmark>, indices: seq<nat>, img: Size)
    ensures Pixels(lms, indices, img) == [] <==> AllOutOfRange(lms, indices)
    decreases |indices|
  {
    if indices != [] {
      var init := indices[..|indices| - 1];
      PixelsEmpty(lms, init, img);
      assert forall k :: 0 <= k < |init| ==> init[k] == indices[k];
    }
  }

  /** sum(p['x'] for p in points), accumulated left to right. */
  function SumX(ps: seq<Point>): real
  {
    if ps == [] then 0.0 else SumX(ps[..|ps| - 1]) + ps[|ps| - 1].x
  }

  function SumY(ps: seq<Point>): real
  {
    if ps == [] then 0.0 else SumY(ps[..|ps| - 1]) + ps[|ps| - 1].y
  }

  /** calculate_landmark_center: the arithmetic mean of the in-range points,
      or None when no index is below the landmark count. */
  function Center(lms: seq<Landmark>, indices: seq<nat>, img: Size): (c: Option<Point>)
    ensures c.None? <==> AllOutOfRange(lms, indices)
    ensures c.Some? ==>
      var ps := Pixels(lms, indices, img);
      c.value.x * |ps| as real == SumX(ps) && c.value.y * |ps| as real == SumY(ps)
  {
    var ps := Pixels(lms, indices, img);
    PixelsEmpty(lms, indices, img);
    if ps == [] then None
    else Some(Point(SumX(ps) / |ps| as real, SumY(ps) / |ps| as real))
  }

  /** The centre of src/app_final.py: the same mean, each coordinate rounded
      (round(.., 2) there, passed in here). */
  function RoundedCenter(lms: seq<Landmark>, indices: seq<nat>, img: Size, round: real -> real): (c: Option<Point>)
    ensures c.None? <==> Center(lms, indices, img).None?
    ensures c.Some? ==>
      c.value == Point(round(Center(lms, indices, img).value.x), round(Center(lms, indices, img).value.y))
  {
    match Center(lms, indices, img)
    case None => None
    case Some(p) => Some(Point(round(p.x), round(p.y)))
  }

  /** A group whose centre resolves (at least one index in range). */
  predicate Resolves(g: Group, lms: seq<Landmark>, img: Size)
  {
    Center(lms, g.indices, img).Some?
  }

  /** The name-to-centre map built by the loop over LANDMARK_GROUPS: a
      group whose centre is None is left out. */
  function Aggregate(groups: seq<Group>, lms: seq<Landmark>, img: Size): Snapshot
  {
    if groups == [] then map[]
    else
      var m := Aggregate(groups[..|groups| - 1], lms, img);
      var g := groups[|groups| - 1];
      match Center(lms, g.indices, img)
      case None => m
      case Some(c) => m[g.name := c]
  }

  /** The map holds a name exactly when some group of that name resolves. */
  lemma {:induction false} AggregateKeys(groups: seq<Group>, lms: seq<Landmark>, img: Size, name: string)
    ensures name in Aggregate(groups, lms, img) <==>
      exists k :: 0 <= k < |groups| && groups[k].name == name && Resolves(groups[k], lms, img)
    decreases |groups|
  {
    if groups != [] {
      var init := groups[..|groups| - 1];
      AggregateKeys(init, lms, img, name);
      AggregateLastKey(groups, lms, img, name);
      var g := groups[|groups| - 1];
      if name in Aggregate(groups, lms, img) && !(name == g.name && Resolves(g, lms, img)) {
        var k :| 0 <= k < |init| && init[k].name == name && Resolves(init[k], lms, img);
        assert groups[k] == init[k];
      }
      if exists k :: 0 <= k < |groups| && groups[k].name == name && Resolves(groups[k], lms, img) {
        var k :| 0 <= k < |groups| && groups[k].name == name && Resolves(groups[k], lms, img);
        if k < |init| {
          assert init[k] == groups[k];
        }
      }
    }
  }

  lemma AggregateLastKey(groups: seq<Group>, lms: seq<Landmark>, img: Size, name: string)
    requires groups != []
    ensures var g := groups[|groups| - 1];
      name in Aggregate(groups, lms, img) <==>
        name in Aggregate(groups[..|groups| - 1], lms, img) || (name == g.name && Resolves(g, lms, img))
  {
  }

  /** With distinct names, a resolving group's entry is its own centre. */
  lemma {:induction false} AggregateValue(groups: seq<Group>, lms: seq<Landmark>, img: Size, k: nat)
    requires DistinctNames(groups)
    requires k < |groups| && Resolves(groups[k], lms, img)
    ensures groups[k].name in Aggregate(groups, lms, img)
    ensures Aggregate(groups, lms, img)[groups[k].name] == Center(lms, groups[k].indices, img).value
    decreases |groups|
  {
    var init := groups[..|groups| - 1];
    if k < |init| {
      assert DistinctNames(init) by {
        assert forall i :: 0 <= i < |init| ==> init[i] == groups[i];
      }
      assert init[k] == groups[k];
      AggregateValue(init, lms, img, k);
      assert groups[|groups| - 1].name != groups[k].name;
    }
  }

  // ---- Properties of the centre -------------------------------------------

  lemma {:induction false} PixelsAppend(lms: seq<Landmark>, a: seq<nat>, b: seq<nat>, img: Size)
    ensures Pixels(lms, a + b, img) == Pixels(lms, a, img) + Pixels(lms, b, img)
    decreases |b|
  {
    if b == [] {
      assert a + b == a;
    } else {
      var b' := b[..|b| - 1];
      assert (a + b)[..|a + b| - 1] == a + b';
      PixelsAppend(lms, a, b', img);
    }
  }

  lemma {:induction false} SumAppend(p: seq<Point>, q: seq<Point>)
    ensures SumX(p + q) == SumX(p) + SumX(q)
    ensures SumY(p + q) == SumY(p) + SumY(q)
    decreases |q|
  {
    if q == [] {
      assert p + q == p;
    } else {
      var q' := q[..|q| - 1];
      assert (p + q)[..|p + q| - 1] == p + q';
      SumAppend(p, q');
    }
  }

  /** Moving one index out of the middle of the list to the end changes
      neither the count nor the sums of the in-range points. */
  lemma PixelsMiddle(lms: seq<Landmark>, p: seq<nat>, x: nat, q: seq<nat>, img: Size)
    ensures |Pixels(lms, p + [x] + q, img)| == |Pixels(lms, p + q, img)| + |Pixels(lms, [x], img)|
    ensures SumX(Pixels(lms, p + [x] + q, img)) == SumX(Pixels(lms, p + q, img)) + SumX(Pixels(lms, [x], img))
    ensures SumY(Pixels(lms, p + [x] + q, img)) == SumY(Pixels(lms, p + q, img)) + SumY(Pixels(lms, [x], img))
  {
    PixelsAppend(lms, p + [x], q, img);
    PixelsAppend(lms, p, [x], img);
    PixelsAppend(lms, p, q, img);
    MiddleSums(Pixels(lms, p, img), Pixels(lms, [x], img), Pixels(lms, q, img));
  }

  lemma MiddleSums(ps: seq<Point>, xs: seq<Point>, qs: seq<Point>)
    ensures SumX(ps + xs + qs) == SumX(ps + qs) + SumX(xs)
    ensures SumY(ps + xs + qs) == SumY(ps + qs) + SumY(xs)
  {
    SumAppend(ps + xs, qs);
    SumAppend(ps, xs);
    SumAppend(ps, qs);
  }

  /** Taking the entry at k out of a list: the count and the sums are
      those of the rest plus those of the entry. */
  lemma RemoveAt(lms: seq<Landmark>, s: seq<nat>, k: nat, img: Size)
    requires k < |s|
    ensures |Pixels(lms, s, img)| == |Pixels(lms, s[..k] + s[k + 1..], img)| + |Pixels(lms, [s[k]], img)|
    ensures SumX(Pixels(lms, s, img)) == SumX(Pixels(lms, s[..k] + s[k + 1..], img)) + SumX(Pixels(lms, [s[k]], img))
    ensures SumY(Pixels(lms, s, img)) == SumY(Pixels(lms, s[..k] + s[k + 1..], img)) + SumY(Pixels(lms, [s[k]], img))
  {
    assert s == s[..k] + [s[k]] + s[k + 1..];
    PixelsMiddle(lms, s[..k], s[k], s[k + 1..], img);
  }

  lemma MultisetCancel(p: multiset<nat>, q: multiset<nat>, x: nat)
    requires p + multiset{x} == q + multiset{x}
    ensures p == q
  {
    forall y
      ensures p[y] == q[y]
    {
      assert (p + multiset{x})[y] == (q + multiset{x})[y];
    }
  }

  lemma MultisetRemoveAt(s: seq<nat>, k: nat)
    requires k < |s|
    ensures multiset(s) == multiset(s[..k] + s[k + 1..]) + multiset{s[k]}
  {
    assert s == s[..k] + [s[k]] + s[k + 1..];
  }

  /** For two permutations of each other: a position in b holding the last
      entry of a, such that the rest of a and b without it are again
      permutations of each other. */
  lemma MatchLast(a: seq<nat>, b: seq<nat>) returns (k: nat)
    requires multiset(a) == multiset(b) && a != []
    ensures k < |b| && b[k] == a[|a| - 1]
    ensures multiset(a[..|a| - 1]) == multiset(b[..k] + b[k + 1..])
  {
    var n := |a| - 1;
    MultisetRemoveAt(a, n);
    assert a[..n] + a[n + 1..] == a[..n];
    assert a[n] in b by {
      assert a[n] in multiset(b);
    }
    k :| 0 <= k < |b| && b[k] == a[n];
    MultisetRemoveAt(b, k);
    MultisetCancel(multiset(a[..n]), multiset(b[..k] + b[k + 1..]), a[n]);
  }

  /** The sums and the count of the in-range points do not depend on the
      order of the indices. */
  lemma {:induction false} PixelsPermutation(lms: seq<Landmark>, a: seq<nat>, b: seq<nat>, img: Size)
    requires multiset(a) == multiset(b)
    ensures |Pixels(lms, a, img)| == |Pixels(lms, b, img)|
    ensures SumX(Pixels(lms, a, img)) == SumX(Pixels(lms, b, img))
    ensures SumY(Pixels(lms, a, img)) == SumY(Pixels(lms, b, img))
    decreases |a|
  {
    if a == [] {
      assert |b| == |multiset(b)| == 0;
    } else {
      var k := MatchLast(a, b);
      var n := |a| - 1;
      assert a[..n] + a[n + 1..] == a[..n];
      PixelsPermutation(lms, a[..n], b[..k] + b[k + 1..], img);
      RemoveAt(lms, a, n, img);
      RemoveAt(lms, b, k, img);
    }
  }

  /** The centre is an arithmetic mean: permuting the indices changes
      nothing. */
  lemma CenterOrderIndependent(lms: seq<Landmark>, a: seq<nat>, b: seq<nat>, img: Size)
    requires multiset(a) == multiset(b)
    ensures Center(lms, a, img) == Center(lms, b, img)
  {
    PixelsPermutation(lms, a, b, img);
  }

  /** Out-of-range indices are skipped silently: appending any number of
      them leaves the centre as it was. */
  lemma {:induction false} CenterIgnoresOutOfRange(lms: seq<Landmark>, a: seq<nat>, b: seq<nat>, img: Size)
    requires AllOutOfRange(lms, b)
    ensures Center(lms, a + b, img) == Center(lms, a, img)
  {
    PixelsAppend(lms, a, b, img);
    PixelsEmpty(lms, b, img);
    assert Pixels(lms, b, img) == [];
    assert Pixels(lms, a, img) + [] == Pixels(lms, a, img);
  }

  predicate Normalised(lms: seq<Landmark>)
  {
    forall i :: 0 <= i < |lms| ==> 0.0 <= lms[i].x <= 1.0 && 0.0 <= lms[i].y <= 1.0
  }

  lemma ToPixelBound(l: Landmark, img: Size)
    requires 0.0 <= l.x <= 1.0 && 0.0 <= l.y <= 1.0
    ensures 0.0 <= ToPixel(l, img).x <= img.w as real
    ensures 0.0 <= ToPixel(l, img).y <= img.h as real
  {
    ScaledBound(l.x, img.w);
    ScaledBound(l.y, img.h);
  }

  /** A fraction in [0, 1] of a pixel extent lies between 0 and it. */
  lemma ScaledBound(a: real, n: nat)
    requires 0.0 <= a <= 1.0
    ensures 0.0 <= Scaled(a, n) <= n as real
  {
    assert n as real - a * n as real == (1.0 - a) * n as real;
  }

  /** n copies of the extent w laid end to end. */
  function Span(n: nat, w: real): real
  {
    n as real * w
  }

  lemma SpanStep(n: nat, w: real)
    ensures Span(n + 1, w) == Span(n, w) + w
  {
    assert (n + 1) as real * w == n as real * w + 1.0 * w;
  }

  lemma MeanBound(s: real, n: nat, w: real)
    requires n > 0 && 0.0 <= s <= Span(n, w)
    ensures 0.0 <= s / n as real <= w
  {
    assert s / n as real * n as real == s;
  }

  lemma StepBound(sum: real, n: nat, v: real, w: real)
    requires 0.0 <= sum <= Span(n, w) && 0.0 <= v <= w
    ensures 0.0 <= sum + v <= Span(n + 1, w)
  {
    SpanStep(n, w);
  }

  /** With normalised landmarks every point of `valid_points` lies inside
      the image. */
  lemma {:induction false} PixelsInImage(lms: seq<Landmark>, indices: seq<nat>, img: Size)
    requires Normalised(lms)
    ensures forall p :: p in Pixels(lms, indices, img) ==>
      0.0 <= p.x <= img.w as real && 0.0 <= p.y <= img.h as real
    decreases |indices|
  {
    if indices != [] {
      PixelsInImage(lms, indices[..|indices| - 1], img);
      var i := indices[|indices| - 1];
      if i < |lms| {
        ToPixelBound(lms[i], img);
      }
    }
  }

  /** A sum of n x-coordinates, each in [0, w], lies in [0, n * w]. */
  lemma {:induction false} SumXBound(ps: seq<Point>, w: real)
    requires forall p :: p in ps ==> 0.0 <= p.x <= w
    ensures 0.0 <= SumX(ps) <= Span(|ps|, w)
    decreases |ps|
  {
    if ps != [] {
      var init := ps[..|ps| - 1];
      assert forall p :: p in init ==> p in ps;
      SumXBound(init, w);
      StepBound(SumX(init), |init|, ps[|ps| - 1].x, w);
    }
  }

  lemma {:induction false} SumYBound(ps: seq<Point>, h: real)
    requires forall p :: p in ps ==> 0.0 <= p.y <= h
    ensures 0.0 <= SumY(ps) <= Span(|ps|, h)
    decreases |ps|
  {
    if ps != [] {
      var init := ps[..|ps| - 1];
      assert forall p :: p in init ==> p in ps;
      SumYBound(init, h);
      StepBound(SumY(init), |init|, ps[|ps| - 1].y, h);
    }
  }

  /** With normalised landmarks the centre lies inside the image. */
  lemma CenterWithinImage(lms: seq<Landmark>, indices: seq<nat>, img: Size)
    requires Normalised(lms)
    requires Center(lms, indices, img).Some?
    ensures var c := Center(lms, indices, img).value;
      0.0 <= c.x <= img.w as real && 0.0 <= c.y <= img.h as real
  {
    var ps := Pixels(lms, indices, img);
    PixelsInImage(lms, indices, img);
    SumXBound(ps, img.w as real);
    SumYBound(ps, img.h as real);
    MeanBound(SumX(ps), |ps|, img.w as real);
    MeanBound(SumY(ps), |ps|, img.h as real);
  }

  /** A rounding function off by at most e moves the rounded centre by at
      most e per axis. */
  lemma RoundedCenterClose(lms: seq<Landmark>, indices: seq<nat>, img: Size, round: real -> real, e: real)
    requires forall v :: Abs(round(v) - v) <= e
    requires Center(lms, indices, img).Some?
    ensures var c := Center(lms, indices, img).value;
      var r := RoundedCenter(lms, indices, img, round).value;
      Abs(r.x - c.x) <= e && Abs(r.y - c.y) <= e
  {
    var c := Center(lms, indices, img).value;
    assert Abs(round(c.x) - c.x) <= e;
    assert Abs(round(c.y) - c.y) <= e;
  }

  // ---- src/app.py's loop-and-accumulate version ---------------------------

  /** LandmarkAnalyzer.calculate_group_center: None for no landmarks or no
      indices, otherwise the loops of the source, proved to compute Center. */
  method CalculateGroupCenter(lms: seq<Landmark>, groupIndices: seq<nat>, img: Size) returns (c: Option<Point>)
    ensures c == Center(lms, groupIndices, img)
    ensures c.None? <==> lms == [] || groupIndices == [] || AllOutOfRange(lms, groupIndices)
  {
    if |lms| == 0 || |groupIndices| == 0 {
      return None;
    }
    var validPoints: seq<Point> := [];
    var i := 0;
    while i < |groupIndices|
      invariant 0 <= i <= |groupIndices|
      invariant validPoints == Pixels(lms, groupIndices[..i], img)
    {
      var idx := groupIndices[i];
      assert groupIndices[..i + 1][..i] == groupIndices[..i];
      if idx < |lms| {
        var point := lms[idx];
        validPoints := validPoints + [ToPixel(point, img)];
      }
      i := i + 1;
    }
    assert groupIndices[..i] == groupIndices;
    if validPoints == [] {
      return None;
    }
    var sumX, sumY := 0.0, 0.0;
    var j := 0;
    while j < |validPoints|
      invariant 0 <= j <= |validPoints|
      invariant sumX == SumX(validPoints[..j]) && sumY == SumY(validPoints[..j])
    {
      assert validPoints[..j + 1][..j] == validPoints[..j];
      sumX := sumX + validPoints[j].x;
      sumY := sumY + validPoints[j].y;
      j := j + 1;
    }
    assert validPoints[..j] == validPoints;
    c := Some(Point(sumX / |validPoints| as real, sumY / |validPoints| as real));
  }
}
