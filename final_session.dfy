/** The override state of the two canvas front ends src/app_final.py and
    src/app_interactive.py: the manual overrides and a deduplicated
    history. Their update loops differ in two ways: the one of
    src/app_interactive.py returns nothing and keeps no `updated` flag, and
    its scale_coordinates does not round (the `round` parameter is then the
    identity). Undo hands the new top of the history to the overrides
    without copying it, so the two are then one dictionary: later writes to
    the overrides rewrite that history entry too. The flag `sharesTop`
    records that aliasing. */
module FinalSession {
  import opened Geometry
  import opened Coordinates
  import opened History
  import opened Canvas

  /** The whole session state as a value. */
  datatype Edit = Edit(adjustments: Snapshot, history: seq<Snapshot>, sharesTop: bool)

  /** The history is bounded, and an aliased override map is the history's
      top entry. */
  predicate ValidEdit(e: Edit)
  {
    |e.history| <= MaxHistory && (e.sharesTop ==> TopIs(e.history, e.adjustments))
  }

  /** save_to_history: a deep copy of the overrides, skipped when equal to
      the top. */
  function Saved(e: Edit): (r: Edit)
    ensures r.adjustments == e.adjustments && r.sharesTop == e.sharesTop
    ensures r.history == Deduped(e.history, e.adjustments)
  {
    Edit(e.adjustments, Deduped(e.history, e.adjustments), e.sharesTop)
  }

  /** manual_adjustments[name] = coords; when the overrides are the
      history's top entry the write lands there as well. */
  function Written(e: Edit, name: string, c: Point): (r: Edit)
    requires ValidEdit(e)
    ensures r.adjustments == e.adjustments[name := c] && r.sharesTop == e.sharesTop
    ensures !e.sharesTop ==> r.history == e.history
    ensures e.sharesTop ==> |r.history| == |e.history| && r.history[..|r.history| - 1] == e.history[..|e.history| - 1]
    ensures ValidEdit(r)
  {
    var a := e.adjustments[name := c];
    Edit(a, if e.sharesTop then e.history[..|e.history| - 1] + [a] else e.history, e.sharesTop)
  }

  /** A canvas object the update acts on: a named circle dragged at least
      the movement threshold. */
  predicate Dragged(o: CanvasObject, threshold: real, sqrt: real -> real)
  {
    IsNamedCircle(o) && Moved(o, threshold, sqrt)
  }

  /** One iteration of the loop of update_adjustments_from_canvas: a dragged
      circle is scaled back to the image (None: the ZeroDivisionError of a
      zero-sized canvas) and, when that differs from its stored override or
      there is none, a snapshot is saved and the override written. The flag
      says whether a write happened. */
  function Step(e: Edit, o: CanvasObject, img: Size, canvas: Size, threshold: real,
                sqrt: real -> real, round: real -> real): (r: Option<(Edit, bool)>)
    requires ValidEdit(e)
    ensures r.None? <==> Dragged(o, threshold, sqrt) && (canvas.w == 0 || canvas.h == 0)
    ensures r.Some? && !Dragged(o, threshold, sqrt) ==> r.value == (e, false)
    ensures r.Some? && Dragged(o, threshold, sqrt) ==>
      r.value.0.adjustments == e.adjustments[o.name.value := Scale(CurrentCenter(o), canvas, img, round).value]
  {
    if !Dragged(o, threshold, sqrt) then Some((e, false))
    else
      match Scale(CurrentCenter(o), canvas, img, round)
      case None => None
      case Some(c) =>
        var name := o.name.value;
        if name !in e.adjustments || e.adjustments[name] != c then
          DedupedIdempotent(e.history, e.adjustments);
          Some((Written(Saved(e), name, c), true))
        else Some((e, false))
  }

  /** A step keeps the state valid. */
  lemma StepValid(e: Edit, o: CanvasObject, img: Size, canvas: Size, threshold: real,
                  sqrt: real -> real, round: real -> real)
    requires ValidEdit(e)
    ensures var r := Step(e, o, img, canvas, threshold, sqrt, round);
      r.Some? ==> ValidEdit(r.value.0) && (!r.value.1 ==> r.value.0 == e)
  {
    DedupedIdempotent(e.history, e.adjustments);
    AppendThenEvictBounded(e.history, e.adjustments);
  }

  /** The whole loop over the canvas objects, in order. */
  function Update(objs: seq<CanvasObject>, e: Edit, img: Size, canvas: Size, threshold: real,
                  sqrt: real -> real, round: real -> real): (r: Option<(Edit, bool)>)
    requires ValidEdit(e)
    ensures r.Some? ==> ValidEdit(r.value.0)
  {
    if objs == [] then Some((e, false))
    else
      match Update(objs[..|objs| - 1], e, img, canvas, threshold, sqrt, round)
      case None => None
      case Some((mid, any)) =>
        StepValid(mid, objs[|objs| - 1], img, canvas, threshold, sqrt, round);
        match Step(mid, objs[|objs| - 1], img, canvas, threshold, sqrt, round)
        case None => None
        case Some((next, wrote)) => Some((next, any || wrote))
  }

  /** The update reports False exactly when it left the state as it was. */
  lemma {:induction false} UpdateFalseUnchanged(objs: seq<CanvasObject>, e: Edit, img: Size, canvas: Size,
                                                threshold: real, sqrt: real -> real, round: real -> real)
    requires ValidEdit(e)
    ensures var r := Update(objs, e, img, canvas, threshold, sqrt, round);
      r.Some? && !r.value.1 ==> r.value.0 == e
    decreases |objs|
  {
    if objs != [] {
      var init := objs[..|objs| - 1];
      UpdateFalseUnchanged(init, e, img, canvas, threshold, sqrt, round);
      var m := Update(init, e, img, canvas, threshold, sqrt, round);
      if m.Some? {
        StepValid(m.value.0, objs[|objs| - 1], img, canvas, threshold, sqrt, round);
      }
    }
  }

  /** When no named circle was dragged far enough nothing happens. */
  lemma {:induction false} UpdateNothingDragged(objs: seq<CanvasObject>, e: Edit, img: Size, canvas: Size,
                                                threshold: real, sqrt: real -> real, round: real -> real)
    requires ValidEdit(e)
    requires forall o :: o in objs ==> !Dragged(o, threshold, sqrt)
    ensures Update(objs, e, img, canvas, threshold, sqrt, round) == Some((e, false))
    decreases |objs|
  {
    if objs != [] {
      assert objs[|objs| - 1] in objs;
      assert forall o :: o in objs[..|objs| - 1] ==> o in objs;
      UpdateNothingDragged(objs[..|objs| - 1], e, img, canvas, threshold, sqrt, round);
    }
  }

  /** The ZeroDivisionError is raised only by a zero-sized canvas, and a
      zero-sized canvas raises as soon as one circle was dragged. */
  lemma {:induction false} UpdateRaises(objs: seq<CanvasObject>, e: Edit, img: Size, canvas: Size,
                                        threshold: real, sqrt: real -> real, round: real -> real)
    requires ValidEdit(e)
    ensures Update(objs, e, img, canvas, threshold, sqrt, round).None? <==>
      (canvas.w == 0 || canvas.h == 0) && exists o :: o in objs && Dragged(o, threshold, sqrt)
    decreases |objs|
  {
    if objs != [] {
      var init := objs[..|objs| - 1];
      var o := objs[|objs| - 1];
      UpdateRaises(init, e, img, canvas, threshold, sqrt, round);
      SomeDraggedLast(objs, threshold, sqrt);
    }
  }

  lemma SomeDraggedLast(objs: seq<CanvasObject>, threshold: real, sqrt: real -> real)
    requires objs != []
    ensures (exists o :: o in objs && Dragged(o, threshold, sqrt)) <==>
      (exists o :: o in objs[..|objs| - 1] && Dragged(o, threshold, sqrt)) || Dragged(objs[|objs| - 1], threshold, sqrt)
  {
    var init := objs[..|objs| - 1];
    assert objs == init + [objs[|objs| - 1]];
    if exists p :: p in objs && Dragged(p, threshold, sqrt) {
      var p :| p in objs && Dragged(p, threshold, sqrt);
      assert p in init || p == objs[|objs| - 1];
    }
    if exists p :: p in init && Dragged(p, threshold, sqrt) {
      var p :| p in init && Dragged(p, threshold, sqrt);
      assert p in objs;
    }
  }

  /** An override whose name is on no dragged circle keeps its value (or
      stays absent), and every override written is the scaled-back centre
      of a dragged circle of that name. */
  lemma {:induction false} UpdateOverrides(objs: seq<CanvasObject>, e: Edit, img: Size, canvas: Size,
                                           threshold: real, sqrt: real -> real, round: real -> real, n: string)
    requires ValidEdit(e)
    requires Update(objs, e, img, canvas, threshold, sqrt, round).Some?
    ensures var a := Update(objs, e, img, canvas, threshold, sqrt, round).value.0.adjustments;
      (n in a && (n !in e.adjustments || a[n] != e.adjustments[n])) ==>
        exists o :: o in objs && o.name == Some(n) && Dragged(o, threshold, sqrt) &&
                    Scale(CurrentCenter(o), canvas, img, round) == Some(a[n])
    decreases |objs|
  {
    if objs != [] {
      var init := objs[..|objs| - 1];
      var o := objs[|objs| - 1];
      UpdateOverrides(init, e, img, canvas, threshold, sqrt, round, n);
      var mid := Update(init, e, img, canvas, threshold, sqrt, round).value.0;
      var a := Update(objs, e, img, canvas, threshold, sqrt, round).value.0.adjustments;
      StepValid(mid, o, img, canvas, threshold, sqrt, round);
      if n in a && (n !in e.adjustments || a[n] != e.adjustments[n]) {
        if Dragged(o, threshold, sqrt) && o.name.value == n && a != mid.adjustments {
          assert o in objs;
        } else {
          assert forall p :: p in init ==> p in objs;
        }
      }
    }
  }

  /** Every dragged circle is written: afterwards each name of a dragged
      circle holds the scaled-back centre of the last dragged circle of
      that name. */
  lemma {:induction false} UpdateComplete(objs: seq<CanvasObject>, e: Edit, img: Size, canvas: Size,
                                          threshold: real, sqrt: real -> real, round: real -> real, n: string, k: nat)
    requires ValidEdit(e)
    requires Update(objs, e, img, canvas, threshold, sqrt, round).Some?
    requires k < |objs| && objs[k].name == Some(n) && Dragged(objs[k], threshold, sqrt)
    requires forall j :: k < j < |objs| ==> !(objs[j].name == Some(n) && Dragged(objs[j], threshold, sqrt))
    ensures var a := Update(objs, e, img, canvas, threshold, sqrt, round).value.0.adjustments;
      n in a && Scale(CurrentCenter(objs[k]), canvas, img, round) == Some(a[n])
    decreases |objs|
  {
    var init := objs[..|objs| - 1];
    if k < |objs| - 1 {
      assert init[k] == objs[k];
      forall j | k < j < |init|
        ensures !(init[j].name == Some(n) && Dragged(init[j], threshold, sqrt))
      {
        assert init[j] == objs[j];
      }
      UpdateComplete(init, e, img, canvas, threshold, sqrt, round, n, k);
    }
  }

  /** A name that is on no dragged circle keeps its override. */
  lemma {:induction false} UpdateKeepsOthers(objs: seq<CanvasObject>, e: Edit, img: Size, canvas: Size,
                                             threshold: real, sqrt: real -> real, round: real -> real, n: string)
    requires ValidEdit(e)
    requires Update(objs, e, img, canvas, threshold, sqrt, round).Some?
    requires forall o :: o in objs && o.name == Some(n) ==> !Dragged(o, threshold, sqrt)
    ensures var a := Update(objs, e, img, canvas, threshold, sqrt, round).value.0.adjustments;
      (n in a <==> n in e.adjustments) && (n in a ==> a[n] == e.adjustments[n])
    decreases |objs|
  {
    if objs != [] {
      var init := objs[..|objs| - 1];
      var o := objs[|objs| - 1];
      assert o in objs;
      assert forall p :: p in init ==> p in objs;
      UpdateKeepsOthers(init, e, img, canvas, threshold, sqrt, round, n);
      var mid := Update(init, e, img, canvas, threshold, sqrt, round).value.0;
      StepValid(mid, o, img, canvas, threshold, sqrt, round);
    }
  }

  /** Each write of an unaliased state is preceded by a snapshot of the
      overrides it replaces: afterwards the history's top is the state from
      before the write. */
  lemma SnapshotBeforeWrite(e: Edit, o: CanvasObject, img: Size, canvas: Size, threshold: real,
                            sqrt: real -> real, round: real -> real)
    requires ValidEdit(e) && !e.sharesTop
    ensures var r := Step(e, o, img, canvas, threshold, sqrt, round);
      r.Some? && r.value.1 ==> TopIs(r.value.0.history, e.adjustments)
  {
    DedupedIdempotent(e.history, e.adjustments);
  }

  /** The undo button as written: drop the top entry, then make the new top
      (the same dictionary, not a copy) the overrides, or start afresh with
      {} when the history is now empty. Nothing happens on an empty
      history. */
  function UndoAsWritten(e: Edit): (r: Edit)
    requires ValidEdit(e)
    ensures ValidEdit(r)
    ensures e.history == [] ==> r == e
    ensures e.history != [] ==> r.history == Pop(e.history).0
    ensures e.history != [] ==> (r.sharesTop <==> r.history != [])
    ensures e.history != [] && r.history == [] ==> r.adjustments == map[]
  {
    if e.history == [] then e
    else
      var h := Pop(e.history).0;
      if h != [] then Edit(h[|h| - 1], h, true) else Edit(map[], h, false)
  }

  /** Undo as evidently intended: pop the top entry, which is the snapshot
      saved just before the last write, into the overrides. */
  function UndoRestoring(e: Edit): (r: Edit)
    requires ValidEdit(e)
    ensures ValidEdit(r) && !r.sharesTop
    ensures e.history != [] ==> r.history + [r.adjustments] == e.history
    ensures e.history == [] ==> r.adjustments == e.adjustments && r.history == e.history
  {
    if e.history == [] then Edit(e.adjustments, e.history, false)
    else
      var (h, top) := Pop(e.history);
      Edit(top, h, false)
  }

  /** The corrected undo takes back a write: after a saved write to an
      unaliased state it gives back exactly the overrides from before it. */
  lemma UndoRestoringTakesBackWrite(e: Edit, name: string, c: Point)
    requires ValidEdit(e) && !e.sharesTop
    ensures UndoRestoring(Written(Saved(e), name, c)).adjustments == e.adjustments
  {
    DedupedIdempotent(e.history, e.adjustments);
  }

  /** The undo as written does not: starting from nothing, two writes
      (A, then A and B) followed by one undo give back {} rather than A. */
  lemma UndoAsWrittenSkipsAState()
    ensures var pa := Point(1.0, 1.0);
      var pb := Point(2.0, 2.0);
      var e0 := Edit(map[], [], false);
      var e1 := Written(Saved(e0), "nose_tip", pa);
      var e2 := Written(Saved(e1), "nose_bridge", pb);
      e1.adjustments == map["nose_tip" := pa] &&
      UndoAsWritten(e2).adjustments == map[] &&
      UndoRestoring(e2).adjustments == e1.adjustments
  {
    var pa := Point(1.0, 1.0);
    var pb := Point(2.0, 2.0);
    var e0 := Edit(map[], [], false);
    var e1 := Written(Saved(e0), "nose_tip", pa);
    assert e1.history == [map[]];
    var e2 := Written(Saved(e1), "nose_bridge", pb);
    assert e1.adjustments != map[] by {
      assert "nose_tip" in e1.adjustments;
    }
    assert e2.history == [map[], e1.adjustments];
  }

  /** Session state of src/app_final.py and src/app_interactive.py. */
  class FinalSession {
    var adjustments: Snapshot
    var history: seq<Snapshot>
    var sharesTop: bool

    function State(): Edit
      reads this
    {
      Edit(adjustments, history, sharesTop)
    }

    predicate Valid()
      reads this
    {
      ValidEdit(State())
    }

    /** initialize_session_state. */
    constructor()
      ensures Valid() && State() == Edit(map[], [], false)
    {
      adjustments := map[];
      history := [];
      sharesTop := false;
    }

    /** save_to_history. */
    method SaveToHistory()
      requires Valid()
      modifies this
      ensures Valid() && State() == Saved(old(State()))
    {
      DedupedIdempotent(history, adjustments);
      var current := adjustments;
      if history == [] || history[|history| - 1] != current {
        history := history + [current];
        if |history| > MaxHistory {
          history := history[1..];
        }
      }
    }

    /** The reset button: overrides and history emptied. */
    method Reset()
      modifies this
      ensures Valid() && State() == Edit(map[], [], false)
    {
      adjustments := map[];
      history := [];
      sharesTop := false;
    }

    /** The undo button, which runs only on a non-empty history. */
    method Undo()
      requires Valid()
      modifies this
      ensures Valid() && State() == UndoAsWritten(old(State()))
    {
      if history == [] {
        return;
      }
      history := history[..|history| - 1];
      if history != [] {
        adjustments := history[|history| - 1];
        sharesTop := true;
      } else {
        adjustments := map[];
        sharesTop := false;
      }
    }

    /** One iteration of the loop of update_adjustments_from_canvas: a
      dragged named circle is scaled back to the image and, when that
      differs from its stored override, a snapshot is saved and the
      override written. `raised`: the scaling divided by zero. */
    method ApplyObject(o: CanvasObject, img: Size, canvas: Size, threshold: real,
                       sqrt: real -> real, round: real -> real)
      returns (raised: bool, wrote: bool)
      requires Valid()
      modifies this
      ensures Valid()
      ensures var r := Step(old(State()), o, img, canvas, threshold, sqrt, round);
        (raised <==> r.None?) &&
        (raised ==> State() == old(State())) &&
        (!raised ==> r.value == (State(), wrote))
    {
      ghost var before := State();
      StepValid(before, o, img, canvas, threshold, sqrt, round);
      raised, wrote := false, false;
      if IsNamedCircle(o) {
        var name := o.name.value;
        var current := CurrentCenter(o);
        var original := OriginalCenter(o);
        var distance := Dist(sqrt, current, original);
        if distance >= threshold {
          var realCoords := Scale(current, canvas, img, round);
          if realCoords.None? {
            return true, false;
          }
          if name !in adjustments || adjustments[name] != realCoords.value {
            SaveToHistory();
            adjustments := adjustments[name := realCoords.value];
            if sharesTop {
              history := history[..|history| - 1] + [adjustments];
            }
            assert State() == Written(Saved(before), name, realCoords.value);
            wrote := true;
          }
        }
      }
    }

    /** update_adjustments_from_canvas: `payload` is the canvas's objects,
      None when it sent no JSON. The result is None when the loop raised,
      which leaves the state as it was; otherwise whether an override was
      written (src/app_final.py returns it, src/app_interactive.py drops
      it). */
    method UpdateAdjustmentsFromCanvas(payload: Option<seq<CanvasObject>>, img: Size, canvas: Size,
                                       threshold: real, sqrt: real -> real, round: real -> real)
      returns (updated: Option<bool>)
      requires Valid()
      modifies this
      ensures Valid()
      ensures payload.None? ==> updated == Some(false) && State() == old(State())
      ensures payload.Some? ==>
        var r := Update(payload.value, old(State()), img, canvas, threshold, sqrt, round);
        (updated.None? <==> r.None?) &&
        (updated.None? ==> State() == old(State())) &&
        (updated.Some? ==> updated.value == r.value.1 && State() == r.value.0)
    {
      if payload.None? {
        return Some(false);
      }
      var objects := payload.value;
      ghost var start := State();
      var any := false;
      var i := 0;
      while i < |objects|
        invariant 0 <= i <= |objects|
        invariant Valid()
        invariant Update(objects[..i], start, img, canvas, threshold, sqrt, round) == Some((State(), any))
        invariant canvas.w == 0 || canvas.h == 0 ==> State() == start
      {
        var o := objects[i];
        ghost var before := State();
        var raised, wrote := ApplyObject(o, img, canvas, threshold, sqrt, round);
        if raised {
          assert objects[..i + 1][..i] == objects[..i];
          UpdateStaysRaised(objects, i + 1, start, img, canvas, threshold, sqrt, round);
          assert objects[..|objects|] == objects;
          return None;
        }
        UpdateExtends(objects, i, start, img, canvas, threshold, sqrt, round, before, any, State(), wrote);
        any := any || wrote;
        i := i + 1;
      }
      assert objects[..i] == objects;
      return Some(any);
    }
  }

  /** One more object extends the loop by one step. */
  lemma UpdateExtends(objs: seq<CanvasObject>, i: nat, e: Edit, img: Size, canvas: Size, threshold: real,
                      sqrt: real -> real, round: real -> real, mid: Edit, any: bool, next: Edit, wrote: bool)
    requires ValidEdit(e) && i < |objs| && ValidEdit(mid)
    requires Update(objs[..i], e, img, canvas, threshold, sqrt, round) == Some((mid, any))
    requires Step(mid, objs[i], img, canvas, threshold, sqrt, round) == Some((next, wrote))
    ensures Update(objs[..i + 1], e, img, canvas, threshold, sqrt, round) == Some((next, any || wrote))
  {
    assert objs[..i + 1][..i] == objs[..i];
  }

  /** Once the loop has raised, the whole update has. */
  lemma {:induction false} UpdateStaysRaised(objs: seq<CanvasObject>, k: nat, e: Edit, img: Size, canvas: Size,
                                             threshold: real, sqrt: real -> real, round: real -> real)
    requires ValidEdit(e) && k <= |objs|
    requires Update(objs[..k], e, img, canvas, threshold, sqrt, round).None?
    ensures Update(objs, e, img, canvas, threshold, sqrt, round).None?
    decreases |objs| - k
  {
    if k < |objs| {
      assert objs[..k + 1][..k] == objs[..k];
      UpdateStaysRaised(objs, k + 1, e, img, canvas, threshold, sqrt, round);
    } else {
      assert objs[..k] == objs;
    }
  }
}
