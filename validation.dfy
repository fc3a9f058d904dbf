/** Anatomical validation of the nose landmarks: three metrics (nose length,
    nostril spacing, nose tilt from the vertical) checked against fixed
    thresholds. */
module Validation {
  import opened Geometry

  /** One warning per violated rule, in the order the rules are checked. The
      angle warning carries the angle it reports. */
  datatype Warning = TooShort | TooLong | TooClose | TooFar | BadAngle(degrees: real)

  datatype Metrics = Metrics(noseLength: real, nostrilDistance: real, noseAngleDegrees: real)

  /** The result dictionary; 'metrics' is empty (None) when the check was
      skipped. */
  datatype Report = Report(isValid: bool, warnings: seq<Warning>, metrics: Option<Metrics>)

  const MinNoseLength: real := 10.0
  const MaxNoseLength: real := 200.0
  const MinNostrilDistance: real := 5.0
  const MaxNostrilDistance: real := 100.0
  const MaxNoseAngle: real := 30.0

  /** Position of a warning's rule in the checking order. */
  function Rank(w: Warning): nat
  {
    match w
    case TooShort => 0
    case TooLong => 0
    case TooClose => 1
    case TooFar => 1
    case BadAngle(_) => 2
  }

  /** The three rules: length and spacing each an if/elif pair, then the
      angle. A boundary value (10, 200, 5, 100, 30) is never flagged. */
  function CheckMetrics(m: Metrics): (ws: seq<Warning>)
    ensures TooShort in ws <==> m.noseLength < MinNoseLength
    ensures TooLong in ws <==> m.noseLength > MaxNoseLength
    ensures TooClose in ws <==> m.nostrilDistance < MinNostrilDistance
    ensures TooFar in ws <==> m.nostrilDistance > MaxNostrilDistance
    ensures BadAngle(m.noseAngleDegrees) in ws <==> m.noseAngleDegrees > MaxNoseAngle
    ensures forall i :: 0 <= i < |ws| && ws[i].BadAngle? ==> ws[i].degrees == m.noseAngleDegrees
    ensures forall i, j :: 0 <= i < j < |ws| ==> Rank(ws[i]) < Rank(ws[j])
  {
    var length :=
      if m.noseLength < MinNoseLength then [TooShort]
      else if m.noseLength > MaxNoseLength then [TooLong]
      else [];
    var spacing :=
      if m.nostrilDistance < MinNostrilDistance then [TooClose]
      else if m.nostrilDistance > MaxNostrilDistance then [TooFar]
      else [];
    var angle := if m.noseAngleDegrees > MaxNoseAngle then [BadAngle(m.noseAngleDegrees)] else [];
    length + spacing + angle
  }

  /** Each pair of rules yields at most one warning, so there are at most
      three; none at all exactly when every metric is within its bounds. */
  lemma CheckMetricsCount(m: Metrics)
    ensures |CheckMetrics(m)| <= 3
    ensures !(TooShort in CheckMetrics(m) && TooLong in CheckMetrics(m))
    ensures !(TooClose in CheckMetrics(m) && TooFar in CheckMetrics(m))
    ensures CheckMetrics(m) == [] <==>
      MinNoseLength <= m.noseLength <= MaxNoseLength &&
      MinNostrilDistance <= m.nostrilDistance <= MaxNostrilDistance &&
      m.noseAngleDegrees <= MaxNoseAngle
  {
    var ws := CheckMetrics(m);
    if ws != [] && ws[0].BadAngle? {
      assert ws[0] == BadAngle(m.noseAngleDegrees);
    }
  }

  /** The three metrics: tip-to-bridge length, nostril-to-nostril spacing, and
      abs(degrees(atan2(dx, dy))) of the tip relative to the bridge; `angle`
      stands for that last expression. */
  function MetricsOf(tip: Point, bridge: Point, left: Point, right: Point,
                     sqrt: real -> real, angle: (real, real) -> real): Metrics
  {
    Metrics(Dist(sqrt, tip, bridge), Dist(sqrt, left, right), angle(tip.x - bridge.x, tip.y - bridge.y))
  }

  /** LandmarkAnalyzer.validate_anatomical_constraints in src/app.py. */
  function ValidateAnatomicalConstraints(tip: Point, bridge: Point, left: Point, right: Point,
                                         sqrt: real -> real, angle: (real, real) -> real): (r: Report)
    ensures r.metrics == Some(MetricsOf(tip, bridge, left, right, sqrt, angle))
    ensures r.isValid <==> r.warnings == []
    ensures r.isValid <==>
      MinNoseLength <= Dist(sqrt, tip, bridge) <= MaxNoseLength &&
      MinNostrilDistance <= Dist(sqrt, left, right) <= MaxNostrilDistance &&
      angle(tip.x - bridge.x, tip.y - bridge.y) <= MaxNoseAngle
  {
    var m := MetricsOf(tip, bridge, left, right, sqrt, angle);
    var ws := CheckMetrics(m);
    CheckMetricsCount(m);
    Report(|ws| == 0, ws, Some(m))
  }

  predicate HasRequired(adj: Snapshot)
  {
    "nose_tip" in adj && "nose_bridge" in adj && "left_nostril" in adj && "right_nostril" in adj
  }

  /** validate_anatomical_constraints in src/app_final.py: it takes the whole
      override map and reports valid, with no warnings and no metrics, unless
      all four nose groups have been overridden. */
  function ValidateAdjustments(adj: Snapshot, sqrt: real -> real, angle: (real, real) -> real): (r: Report)
    ensures !HasRequired(adj) ==> r == Report(true, [], None)
    ensures HasRequired(adj) ==>
              r.metrics == Some(MetricsOf(adj["nose_tip"], adj["nose_bridge"], adj["left_nostril"], adj["right_nostril"], sqrt, angle))
    ensures r.isValid <==> r.warnings == []
  {
    if !HasRequired(adj) then Report(true, [], None)
    else ValidateAnatomicalConstraints(adj["nose_tip"], adj["nose_bridge"], adj["left_nostril"], adj["right_nostril"], sqrt, angle)
  }

  /** validate_anatomical_constraints_ui in src/app.py: nothing is shown
      (None) unless all four nose groups have been overridden; otherwise the
      analyser's report is shown. */
  function ConstraintsForUi(adj: Snapshot, sqrt: real -> real, angle: (real, real) -> real): (r: Option<Report>)
    ensures r.None? <==> !HasRequired(adj)
    ensures r.Some? ==> r.value.metrics.Some? && (r.value.isValid <==> r.value.warnings == [])
  {
    if !HasRequired(adj) then None
    else Some(ValidateAnatomicalConstraints(adj["nose_tip"], adj["nose_bridge"], adj["left_nostril"], adj["right_nostril"], sqrt, angle))
  }

  /** The two front ends agree whenever the check runs; when it is skipped the
      src/app_final.py version reports a clean result. */
  lemma FrontEndsAgree(adj: Snapshot, sqrt: real -> real, angle: (real, real) -> real)
    ensures ConstraintsForUi(adj, sqrt, angle).Some? ==>
      ValidateAdjustments(adj, sqrt, angle) == ConstraintsForUi(adj, sqrt, angle).value
    ensures ConstraintsForUi(adj, sqrt, angle).None? ==>
      ValidateAdjustments(adj, sqrt, angle).isValid && ValidateAdjustments(adj, sqrt, angle).warnings == []
  {
  }

  /** Missing one nose group is enough to skip the check, whatever the
      others are. */
  lemma MissingGroupSkips(adj: Snapshot, name: string, sqrt: real -> real, angle: (real, real) -> real)
    requires name in {"nose_tip", "nose_bridge", "left_nostril", "right_nostril"} && name !in adj
    ensures ValidateAdjustments(adj, sqrt, angle) == Report(true, [], None)
    ensures ConstraintsForUi(adj, sqrt, angle).None?
  {
  }
}
