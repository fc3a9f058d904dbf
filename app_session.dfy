/** The override state of the full web front end (src/app.py): the manual
    overrides, a deduplicated undo history, a redo stack that is only ever
    filled and cleared, and the digest of the last uploaded image. */
module AppSession {
  import opened Geometry
  import opened Centroid
  import opened Coordinates
  import opened History
  import opened Canvas

  /** The override stored for n is more than half a pixel away from c on
      some axis, or there is none. */
  predicate Differs(adj: Snapshot, n: string, c: Point)
  {
    n !in adj || Abs(adj[n].x - c.x) > 0.5 || Abs(adj[n].y - c.y) > 0.5
  }

  /** A canvas object the loop of update_enhanced_landmark_positions acts on:
      a named circle of a displayed group, dragged at least `threshold`. */
  predicate Qualifies(o: CanvasObject, keyPoints: set<string>, threshold: real, sqrt: real -> real)
  {
    IsNamedCircle(o) && o.name.value in keyPoints && Moved(o, threshold, sqrt)
  }

  /** The dictionary `updated_positions` after the loop over the objects:
      each qualifying object whose scaled-back centre differs from the
      stored override is recorded, a later object overriding an earlier one
      of the same name. None stands for the ZeroDivisionError that a
      zero-sized canvas raises. */
  function Pending(objs: seq<CanvasObject>, adj: Snapshot, keyPoints: set<string>, realSize: Size, canvas: Size,
                   threshold: real, sqrt: real -> real, round: real -> real): Option<Snapshot>
  {
    if objs == [] then Some(map[])
    else
      PendingNext(Pending(objs[..|objs| - 1], adj, keyPoints, realSize, canvas, threshold, sqrt, round),
                  objs[|objs| - 1], adj, keyPoints, realSize, canvas, threshold, sqrt, round)
  }

  /** One iteration of that loop. */
  function PendingNext(p: Option<Snapshot>, o: CanvasObject, adj: Snapshot, keyPoints: set<string>, realSize: Size,
                       canvas: Size, threshold: real, sqrt: real -> real, round: real -> real): Option<Snapshot>
  {
    match p
    case None => None
    case Some(m) =>
      if !Qualifies(o, keyPoints, threshold, sqrt) then Some(m)
      else
        match ScaleToReal(CurrentCenter(o), realSize, canvas, round)
        case None => None
        case Some(c) => if Differs(adj, o.name.value, c) then Some(m[o.name.value := c]) else Some(m)
  }

  lemma PendingPrefix(objs: seq<CanvasObject>, i: nat, adj: Snapshot, keyPoints: set<string>, realSize: Size,
                      canvas: Size, threshold: real, sqrt: real -> real, round: real -> real)
    requires i < |objs|
    ensures Pending(objs[..i + 1], adj, keyPoints, realSize, canvas, threshold, sqrt, round) ==
      PendingNext(Pending(objs[..i], adj, keyPoints, realSize, canvas, threshold, sqrt, round),
                  objs[i], adj, keyPoints, realSize, canvas, threshold, sqrt, round)
  {
    assert objs[..i + 1][..i] == objs[..i];
  }

  /** Every recorded name is a displayed group whose circle was dragged,
      and its recorded position is that circle's centre scaled back to the
      image and differs from the stored override. */
  lemma {:induction false} PendingSound(objs: seq<CanvasObject>, adj: Snapshot, keyPoints: set<string>, realSize: Size,
                                        canvas: Size, threshold: real, sqrt: real -> real, round: real -> real, n: string)
    requires Pending(objs, adj, keyPoints, realSize, canvas, threshold, sqrt, round).Some?
    requires n in Pending(objs, adj, keyPoints, realSize, canvas, threshold, sqrt, round).value
    ensures var c := Pending(objs, adj, keyPoints, realSize, canvas, threshold, sqrt, round).value[n];
      n in keyPoints && Differs(adj, n, c) &&
      exists o :: o in objs && o.name == Some(n) && Qualifies(o, keyPoints, threshold, sqrt) &&
                  ScaleToReal(CurrentCenter(o), realSize, canvas, round) == Some(c)
    decreases |objs|
  {
    var init := objs[..|objs| - 1];
    var o := objs[|objs| - 1];
    var m := Pending(init, adj, keyPoints, realSize, canvas, threshold, sqrt, round).value;
    var r := Pending(objs, adj, keyPoints, realSize, canvas, threshold, sqrt, round).value;
    if Qualifies(o, keyPoints, threshold, sqrt) && o.name.value == n && r != m {
      assert o in objs;
    } else {
      assert n in m && r[n] == m[n];
      PendingSound(init, adj, keyPoints, realSize, canvas, threshold, sqrt, round, n);
      var p :| p in init && p.name == Some(n) && Qualifies(p, keyPoints, threshold, sqrt) &&
               ScaleToReal(CurrentCenter(p), realSize, canvas, round) == Some(m[n]);
      assert p in objs;
    }
  }

  /** The ZeroDivisionError is raised exactly when the canvas has a zero
      side and some circle qualifies. */
  lemma {:induction false} PendingFailsOnlyOnEmptyCanvas(objs: seq<CanvasObject>, adj: Snapshot, keyPoints: set<string>,
                                                         realSize: Size, canvas: Size, threshold: real,
                                                         sqrt: real -> real, round: real -> real)
    ensures Pending(objs, adj, keyPoints, realSize, canvas, threshold, sqrt, round).None? <==>
      (canvas.w == 0 || canvas.h == 0) && exists o :: o in objs && Qualifies(o, keyPoints, threshold, sqrt)
    decreases |objs|
  {
    if objs != [] {
      var init := objs[..|objs| - 1];
      PendingFailsOnlyOnEmptyCanvas(init, adj, keyPoints, realSize, canvas, threshold, sqrt, round);
      SomeQualifiesLast(objs, keyPoints, threshold, sqrt);
    }
  }

  lemma SomeQualifiesLast(objs: seq<CanvasObject>, keyPoints: set<string>, threshold: real, sqrt: real -> real)
    requires objs != []
    ensures (exists o :: o in objs && Qualifies(o, keyPoints, threshold, sqrt)) <==>
      (exists o :: o in objs[..|objs| - 1] && Qualifies(o, keyPoints, threshold, sqrt)) ||
      Qualifies(objs[|objs| - 1], keyPoints, threshold, sqrt)
  {
    var init := objs[..|objs| - 1];
    assert objs == init + [objs[|objs| - 1]];
    if exists p :: p in objs && Qualifies(p, keyPoints, threshold, sqrt) {
      var p :| p in objs && Qualifies(p, keyPoints, threshold, sqrt);
      assert p in init || p == objs[|objs| - 1];
    }
    if exists p :: p in init && Qualifies(p, keyPoints, threshold, sqrt) {
      var p :| p in init && Qualifies(p, keyPoints, threshold, sqrt);
      assert p in objs;
    }
  }

  /** The object is a qualifying circle named n whose scaled-back centre
      differs from the stored override: the loop records it. */
  predicate Records(o: CanvasObject, n: string, adj: Snapshot, keyPoints: set<string>, realSize: Size, canvas: Size,
                    threshold: real, sqrt: real -> real, round: real -> real)
  {
    o.name == Some(n) && Qualifies(o, keyPoints, threshold, sqrt) &&
    var c := ScaleToReal(CurrentCenter(o), realSize, canvas, round);
    c.Some? && Differs(adj, n, c.value)
  }

  /** Once recorded, a name stays recorded for the rest of the loop. */
  lemma PendingNextKeeps(p: Option<Snapshot>, o: CanvasObject, adj: Snapshot, keyPoints: set<string>, realSize: Size,
                         canvas: Size, threshold: real, sqrt: real -> real, round: real -> real, n: string)
    requires p.Some? && n in p.value
    requires PendingNext(p, o, adj, keyPoints, realSize, canvas, threshold, sqrt, round).Some?
    ensures var q := PendingNext(p, o, adj, keyPoints, realSize, canvas, threshold, sqrt, round).value;
      n in q && (!Records(o, n, adj, keyPoints, realSize, canvas, threshold, sqrt, round) ==> q[n] == p.value[n])
  {
  }

  /** Every qualifying drag that differs from its override is recorded, at
      the scaled-back centre of the last such circle of that name. */
  lemma {:induction false} PendingComplete(objs: seq<CanvasObject>, adj: Snapshot, keyPoints: set<string>, realSize: Size,
                                           canvas: Size, threshold: real, sqrt: real -> real, round: real -> real,
                                           n: string, k: nat)
    requires Pending(objs, adj, keyPoints, realSize, canvas, threshold, sqrt, round).Some?
    requires k < |objs| && Records(objs[k], n, adj, keyPoints, realSize, canvas, threshold, sqrt, round)
    requires forall j :: k < j < |objs| ==> !Records(objs[j], n, adj, keyPoints, realSize, canvas, threshold, sqrt, round)
    ensures var r := Pending(objs, adj, keyPoints, realSize, canvas, threshold, sqrt, round).value;
      n in r && r[n] == ScaleToReal(CurrentCenter(objs[k]), realSize, canvas, round).value
    decreases |objs|
  {
    var init := objs[..|objs| - 1];
    var m := Pending(init, adj, keyPoints, realSize, canvas, threshold, sqrt, round);
    if k < |objs| - 1 {
      assert m.Some?;
      assert init[k] == objs[k];
      forall j | k < j < |init|
        ensures !Records(init[j], n, adj, keyPoints, realSize, canvas, threshold, sqrt, round)
      {
        assert init[j] == objs[j];
      }
      PendingComplete(init, adj, keyPoints, realSize, canvas, threshold, sqrt, round, n, k);
      PendingNextKeeps(m, objs[|objs| - 1], adj, keyPoints, realSize, canvas, threshold, sqrt, round, n);
    }
  }

  /** So a name is recorded exactly when some circle of that name is. */
  lemma PendingKeys(objs: seq<CanvasObject>, adj: Snapshot, keyPoints: set<string>, realSize: Size,
                    canvas: Size, threshold: real, sqrt: real -> real, round: real -> real, n: string)
    requires Pending(objs, adj, keyPoints, realSize, canvas, threshold, sqrt, round).Some?
    ensures n in Pending(objs, adj, keyPoints, realSize, canvas, threshold, sqrt, round).value <==>
      exists k :: 0 <= k < |objs| && Records(objs[k], n, adj, keyPoints, realSize, canvas, threshold, sqrt, round)
  {
    var r := Pending(objs, adj, keyPoints, realSize, canvas, threshold, sqrt, round).value;
    if n in r {
      PendingSound(objs, adj, keyPoints, realSize, canvas, threshold, sqrt, round, n);
      var o :| o in objs && o.name == Some(n) && Qualifies(o, keyPoints, threshold, sqrt) &&
               ScaleToReal(CurrentCenter(o), realSize, canvas, round) == Some(r[n]);
      var k :| 0 <= k < |objs| && objs[k] == o;
      assert Records(objs[k], n, adj, keyPoints, realSize, canvas, threshold, sqrt, round);
    }
    if exists k :: 0 <= k < |objs| && Records(objs[k], n, adj, keyPoints, realSize, canvas, threshold, sqrt, round) {
      var i :| 0 <= i < |objs| && Records(objs[i], n, adj, keyPoints, realSize, canvas, threshold, sqrt, round);
      var k := LastRecord(objs, adj, keyPoints, realSize, canvas, threshold, sqrt, round, n, i);
      PendingComplete(objs, adj, keyPoints, realSize, canvas, threshold, sqrt, round, n, k);
    }
  }

  /** The index of the last circle that records n, found from one that
      does. */
  lemma {:induction false} LastRecord(objs: seq<CanvasObject>, adj: Snapshot, keyPoints: set<string>, realSize: Size,
                                      canvas: Size, threshold: real, sqrt: real -> real, round: real -> real,
                                      n: string, i: nat)
    returns (k: nat)
    requires i < |objs| && Records(objs[i], n, adj, keyPoints, realSize, canvas, threshold, sqrt, round)
    ensures i <= k < |objs| && Records(objs[k], n, adj, keyPoints, realSize, canvas, threshold, sqrt, round)
    ensures forall j :: k < j < |objs| ==> !Records(objs[j], n, adj, keyPoints, realSize, canvas, threshold, sqrt, round)
    decreases |objs| - i
  {
    if j :| i < j < |objs| && Records(objs[j], n, adj, keyPoints, realSize, canvas, threshold, sqrt, round) {
      k := LastRecord(objs, adj, keyPoints, realSize, canvas, threshold, sqrt, round, n, j);
    } else {
      k := i;
    }
  }

  /** When no circle was dragged far enough nothing is recorded. */
  lemma {:induction false} PendingNothingMoved(objs: seq<CanvasObject>, adj: Snapshot, keyPoints: set<string>,
                                               realSize: Size, canvas: Size, threshold: real,
                                               sqrt: real -> real, round: real -> real)
    requires forall o :: o in objs ==> !Moved(o, threshold, sqrt)
    ensures Pending(objs, adj, keyPoints, realSize, canvas, threshold, sqrt, round) == Some(map[])
    decreases |objs|
  {
    if objs != [] {
      assert objs[|objs| - 1] in objs;
      PendingNothingMoved(objs[..|objs| - 1], adj, keyPoints, realSize, canvas, threshold, sqrt, round);
    }
  }

  /** Session state of src/app.py. */
  class AppSession {
    var adjustments: Snapshot
    var history: seq<Snapshot>
    var redo: seq<Snapshot>
    var currentHash: Option<string>
    var previousHash: Option<string>

    /** Both lists stay within MAX_HISTORY_SIZE. */
    predicate Valid()
      reads this
    {
      |history| <= MaxHistory && |redo| <= MaxHistory
    }

    /** initialize_session_state: everything empty, no image seen yet. */
    constructor()
      ensures Valid()
      ensures adjustments == map[] && history == [] && redo == []
      ensures currentHash == None && previousHash == None
    {
      adjustments := map[];
      history := [];
      redo := [];
      currentHash := None;
      previousHash := None;
    }

    /** save_adjustment_to_history: a copy equal to the top is not saved
      and leaves the redo stack alone; otherwise the redo stack is emptied,
      the oldest entry dropped if the history is full, and the copy
      appended. Either way the top is now the current overrides. */
    method SaveAdjustmentToHistory()
      requires Valid()
      modifies this
      ensures Valid()
      ensures TopIs(old(history), old(adjustments)) ==> history == old(history) && redo == old(redo)
      ensures !TopIs(old(history), old(adjustments)) ==>
        history == EvictThenAppend(old(history), old(adjustments)) && redo == []
      ensures TopIs(history, adjustments)
      ensures adjustments == old(adjustments)
      ensures currentHash == old(currentHash) && previousHash == old(previousHash)
    {
      var current := adjustments;
      if history != [] && history[|history| - 1] == current {
        return;
      }
      redo := [];
      if |history| >= MaxHistory {
        history := history[1..];
      }
      history := history + [current];
    }

    /** undo_last_adjustment: False and no change on an empty history;
      otherwise the current overrides go onto the redo stack (its oldest
      entry dropped past MAX_HISTORY_SIZE) and the history's top is popped
      into the overrides. */
    method UndoLastAdjustment() returns (ok: bool)
      requires Valid()
      modifies this
      ensures Valid()
      ensures ok <==> old(history) != []
      ensures !ok ==> adjustments == old(adjustments) && history == old(history) && redo == old(redo)
      ensures ok ==> redo == AppendThenEvict(old(redo), old(adjustments)) &&
                     (history, adjustments) == Pop(old(history))
      ensures currentHash == old(currentHash) && previousHash == old(previousHash)
    {
      if history == [] {
        return false;
      }
      var current := adjustments;
      redo := redo + [current];
      if |redo| > MaxHistory {
        redo := redo[1..];
      }
      var previous := history[|history| - 1];
      history := history[..|history| - 1];
      adjustments := previous;
      return true;
    }

    /** detect_image_change, with the MD5 digest of the upload given: the
      overrides, history and redo stack are cleared exactly when a previous
      digest exists and differs; the digest is remembered either way. */
    method DetectImageChange(digest: string) returns (changed: bool)
      requires Valid()
      modifies this
      ensures Valid()
      ensures changed <==> old(previousHash).Some? && old(previousHash).value != digest
      ensures currentHash == Some(digest) && previousHash == Some(digest)
      ensures changed ==> adjustments == map[] && history == [] && redo == []
      ensures !changed ==> adjustments == old(adjustments) && history == old(history) && redo == old(redo)
    {
      currentHash := Some(digest);
      if previousHash.Some? && previousHash.value != digest {
        adjustments := map[];
        history := [];
        redo := [];
        previousHash := Some(digest);
        return true;
      }
      previousHash := Some(digest);
      return false;
    }

    /** The "reset all" button: overrides, history and redo stack emptied. */
    method ResetAll()
      modifies this
      ensures Valid()
      ensures adjustments == map[] && history == [] && redo == []
      ensures currentHash == old(currentHash) && previousHash == old(previousHash)
    {
      adjustments := map[];
      history := [];
      redo := [];
    }

    /** update_enhanced_landmark_positions: a missing canvas payload, an
      exception, or no qualifying change returns False with the state
      untouched; otherwise exactly one snapshot is taken and then every
      recorded position is written. */
    method UpdateEnhancedLandmarkPositions(payload: Option<seq<CanvasObject>>, keyPoints: set<string>,
                                           realSize: Size, canvas: Size, threshold: real,
                                           sqrt: real -> real, round: real -> real)
      returns (changed: bool)
      requires Valid()
      modifies this
      ensures Valid()
      ensures var p := if payload.None? then None
                       else Pending(payload.value, old(adjustments), keyPoints, realSize, canvas, threshold, sqrt, round);
        changed <==> p.Some? && p.value != map[]
      ensures !changed ==> adjustments == old(adjustments) && history == old(history) && redo == old(redo)
      ensures changed ==>
        adjustments == old(adjustments) +
          Pending(payload.value, old(adjustments), keyPoints, realSize, canvas, threshold, sqrt, round).value &&
        TopIs(history, old(adjustments)) &&
        (TopIs(old(history), old(adjustments)) ==> history == old(history) && redo == old(redo)) &&
        (!TopIs(old(history), old(adjustments)) ==> history == EvictThenAppend(old(history), old(adjustments)) && redo == [])
      ensures currentHash == old(currentHash) && previousHash == old(previousHash)
    {
      if payload.None? {
        return false;
      }
      var objects := payload.value;
      var updated: map<string, Point> := map[];
      var stateChanged := false;
      var i := 0;
      while i < |objects|
        invariant 0 <= i <= |objects|
        invariant Pending(objects[..i], adjustments, keyPoints, realSize, canvas, threshold, sqrt, round) == Some(updated)
        invariant stateChanged <==> updated != map[]
        invariant unchanged(this)
      {
        PendingPrefix(objects, i, adjustments, keyPoints, realSize, canvas, threshold, sqrt, round);
        var raised, next, wrote := ScanObject(objects[i], adjustments, keyPoints, realSize, canvas, threshold, sqrt, round, updated);
        if raised {
          PendingStaysFailed(objects, i + 1, adjustments, keyPoints, realSize, canvas, threshold, sqrt, round);
          return false;
        }
        updated := next;
        stateChanged := stateChanged || wrote;
        i := i + 1;
      }
      assert objects[..i] == objects;
      if stateChanged {
        var before := adjustments;
        SaveAdjustmentToHistory();
        adjustments := before + updated;
      }
      return stateChanged;
    }
  }

  /** The body of the loop of update_enhanced_landmark_positions for one
      canvas object: `raised` when its position cannot be scaled, otherwise
      the recorded positions with this object's entry added when it has
      moved past the threshold and differs from its override. */
  method ScanObject(o: CanvasObject, adj: Snapshot, keyPoints: set<string>, realSize: Size, canvas: Size,
                    threshold: real, sqrt: real -> real, round: real -> real, updated: Snapshot)
    returns (raised: bool, next: Snapshot, wrote: bool)
    ensures var r := PendingNext(Some(updated), o, adj, keyPoints, realSize, canvas, threshold, sqrt, round);
      (raised <==> r.None?) && (!raised ==> r == Some(next))
    ensures !raised && !wrote ==> next == updated
    ensures !raised && wrote ==> next != map[]
  {
    next, wrote := updated, false;
    if IsNamedCircle(o) && o.name.value in keyPoints {
      var name := o.name.value;
      var current := CurrentCenter(o);
      var original := OriginalCenter(o);
      var moveDistance := Dist(sqrt, current, original);
      if moveDistance >= threshold {
        var realCoords := ScaleToReal(current, realSize, canvas, round);
        if realCoords.None? {
          return true, next, wrote;
        }
        if name !in adj || Abs(adj[name].x - realCoords.value.x) > 0.5 ||
           Abs(adj[name].y - realCoords.value.y) > 0.5 {
          next := updated[name := realCoords.value];
          assert name in next;
          wrote := true;
        }
      }
    }
    return false, next, wrote;
  }

  /** Once the loop has raised, the whole pass has. */
  lemma {:induction false} PendingStaysFailed(objs: seq<CanvasObject>, k: nat, adj: Snapshot, keyPoints: set<string>,
                                              realSize: Size, canvas: Size, threshold: real,
                                              sqrt: real -> real, round: real -> real)
    requires k <= |objs|
    requires Pending(objs[..k], adj, keyPoints, realSize, canvas, threshold, sqrt, round).None?
    ensures Pending(objs, adj, keyPoints, realSize, canvas, threshold, sqrt, round).None?
    decreases |objs| - k
  {
    if k < |objs| {
      assert objs[..k + 1][..k] == objs[..k];
      PendingStaysFailed(objs, k + 1, adj, keyPoints, realSize, canvas, threshold, sqrt, round);
    } else {
      assert objs[..k] == objs;
    }
  }

  /** After a save the top of the history is the saved state whichever
      branch was taken, so the undo that follows an update restores the
      overrides the update started from. */
  lemma UndoAfterUpdateRestores(h: seq<Snapshot>, before: Snapshot)
    ensures var saved := if TopIs(h, before) then h else EvictThenAppend(h, before);
      Pop(saved).1 == before
  {
  }
}
