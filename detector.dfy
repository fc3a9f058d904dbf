/** The landmark-level operations of FaceDetector in src/app.py: the
    name-to-centre map built from the detector's landmarks, and the write-back
    of manual overrides into a copy of the landmark list. */
module Detector {
  import opened Geometry
  import opened Centroid

  /** FaceDetector._get_enhanced_landmarks_internal: one pass over the
      groups, keeping each centre that resolves. */
  method GetEnhancedLandmarks(lms: seq<Landmark>, img: Size) returns (coords: Snapshot)
    ensures coords == Aggregate(AppGroups, lms, img)
  {
    coords := map[];
    var k := 0;
    while k < |AppGroups|
      invariant 0 <= k <= |AppGroups|
      invariant coords == Aggregate(AppGroups[..k], lms, img)
    {
      assert AppGroups[..k + 1][..k] == AppGroups[..k];
      var g := AppGroups[k];
      var center := CalculateGroupCenter(lms, g.indices, img);
      if center.Some? {
        coords := coords[g.name := center.value];
      }
      k := k + 1;
    }
    assert AppGroups[..k] == AppGroups;
  }

  /** The group names of src/app.py are pairwise distinct, so the map holds
      each resolving group's own centre. */
  lemma AppGroupsDistinct()
    ensures DistinctNames(AppGroups)
  {
  }

  /** point_indices of adjust_landmarks: the one landmark that stands for
      each group. */
  const RepresentativeIndex: seq<(string, nat)> := [
    ("nose_tip", 1),
    ("nose_bridge", 6),
    ("left_nostril", 131),
    ("right_nostril", 102),
    ("left_eye_center", 159),
    ("right_eye_center", 386)
  ]

  /** Landmark i after the overrides named in `table` have been written:
      the override divided by (w, h) when an entry of the table points at i
      and is overridden, the original landmark otherwise; depth is kept. */
  function AdjustedAt(table: seq<(string, nat)>, lms: seq<Landmark>, adj: Snapshot, img: ImageSize, i: nat): (l: Landmark)
    requires i < |lms|
    ensures l.z == lms[i].z
  {
    if table == [] then lms[i]
    else
      var (name, idx) := table[|table| - 1];
      if idx == i && name in adj then Landmark(adj[name].x / img.w as real, adj[name].y / img.h as real, lms[i].z)
      else AdjustedAt(table[..|table| - 1], lms, adj, img, i)
  }

  /** adjust_landmarks: a copy of the landmarks in which each overridden
      group's representative landmark (when in range) is set to the override
      in normalised coordinates. */
  method AdjustLandmarks(lms: seq<Landmark>, adj: Snapshot, img: ImageSize) returns (adjusted: seq<Landmark>)
    ensures |adjusted| == |lms|
    ensures forall i :: 0 <= i < |lms| ==> adjusted[i] == AdjustedAt(RepresentativeIndex, lms, adj, img, i)
  {
    var a := new Landmark[|lms|](i requires 0 <= i < |lms| => lms[i]);
    var k := 0;
    while k < |RepresentativeIndex|
      invariant 0 <= k <= |RepresentativeIndex|
      invariant forall i :: 0 <= i < a.Length ==> a[i] == AdjustedAt(RepresentativeIndex[..k], lms, adj, img, i)
    {
      assert RepresentativeIndex[..k + 1][..k] == RepresentativeIndex[..k];
      var (name, idx) := RepresentativeIndex[k];
      if name in adj && idx < a.Length {
        a[idx] := Landmark(adj[name].x / img.w as real, adj[name].y / img.h as real, a[idx].z);
      }
      k := k + 1;
    }
    assert RepresentativeIndex[..k] == RepresentativeIndex;
    adjusted := a[..];
  }

  /** No two entries of the table point at the same landmark. */
  predicate DistinctIndices(table: seq<(string, nat)>)
  {
    forall j, k :: 0 <= j < k < |table| ==> table[j].1 != table[k].1
  }

  lemma {:induction false} AdjustedAtEntry(table: seq<(string, nat)>, lms: seq<Landmark>, adj: Snapshot, img: ImageSize, k: nat)
    requires DistinctIndices(table)
    requires k < |table| && table[k].0 in adj && table[k].1 < |lms|
    ensures AdjustedAt(table, lms, adj, img, table[k].1) ==
            Landmark(adj[table[k].0].x / img.w as real, adj[table[k].0].y / img.h as real, lms[table[k].1].z)
    decreases |table|
  {
    if k < |table| - 1 {
      var init := table[..|table| - 1];
      assert init[k] == table[k];
      assert DistinctIndices(init) by {
        forall j, l | 0 <= j < l < |init|
          ensures init[j].1 != init[l].1
        {
          assert init[j] == table[j] && init[l] == table[l];
        }
      }
      AdjustedAtEntry(init, lms, adj, img, k);
    }
  }

  lemma {:induction false} AdjustedAtOther(table: seq<(string, nat)>, lms: seq<Landmark>, adj: Snapshot, img: ImageSize, i: nat)
    requires i < |lms|
    requires forall k :: 0 <= k < |table| ==> table[k].1 != i || table[k].0 !in adj
    ensures AdjustedAt(table, lms, adj, img, i) == lms[i]
    decreases |table|
  {
    if table != [] {
      var init := table[..|table| - 1];
      assert forall k :: 0 <= k < |init| ==> init[k] == table[k];
      assert table[|table| - 1].1 != i || table[|table| - 1].0 !in adj;
      AdjustedAtOther(init, lms, adj, img, i);
    }
  }

  /** Read back in pixels, an overridden group's representative landmark is
      exactly the override. */
  lemma AdjustedLandmarkIsOverride(lms: seq<Landmark>, adj: Snapshot, img: ImageSize, k: nat)
    requires k < |RepresentativeIndex|
    requires RepresentativeIndex[k].0 in adj && RepresentativeIndex[k].1 < |lms|
    ensures ToPixel(AdjustedAt(RepresentativeIndex, lms, adj, img, RepresentativeIndex[k].1), img) ==
            adj[RepresentativeIndex[k].0]
  {
    AdjustedAtEntry(RepresentativeIndex, lms, adj, img, k);
  }

  /** Every other landmark is left as it was. */
  lemma AdjustLeavesOthers(lms: seq<Landmark>, adj: Snapshot, img: ImageSize, i: nat)
    requires i < |lms|
    requires forall k :: 0 <= k < |RepresentativeIndex| ==> RepresentativeIndex[k].1 != i || RepresentativeIndex[k].0 !in adj
    ensures AdjustedAt(RepresentativeIndex, lms, adj, img, i) == lms[i]
  {
    AdjustedAtOther(RepresentativeIndex, lms, adj, img, i);
  }
}
