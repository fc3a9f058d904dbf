# Landmark-editing engine

A Dafny model of the landmark-editing engine of the face-landmark
adjustment tools. The engine is shared, with small differences, by three
Streamlit front ends and one OpenCV desktop editor. The model covers:

- **Group centres.** Each landmark group's centre is the mean of its
  in-range landmarks, scaled from normalised coordinates to image pixels.
  A group whose indices are all out of range has no centre, and the
  name-to-centre map leaves it out (`centroid.dfy`).
- **Coordinate conversions.**
  - The web front ends scale each axis by the ratio of canvas size to image
    size. `src/app.py` and `src/app_final.py` round the result.
    `src/app.py` adds a round-trip integrity check.
  - The canvas size follows the image's aspect ratio (`coordinates.dfy`).
  - The desktop editor fits the image into an 800 x 600 window with one
    uniform scale and a centring offset (`viewport.dfy`).
- **Confidence and anatomical validation.**
  - A group's confidence is a decreasing function of the variance of its
    points' distances to the centre, with three tiers (`confidence.dfy`).
  - Three nose metrics are checked against fixed thresholds
    (`validation.dfy`).
- **Canvas objects.** One draggable circle per resolving group is drawn at
  the override or the centre. The update code reads the circles back
  (`canvas.dfy`).
- **Override / history state machines.** These are modelled one front end
  at a time because they really differ:
  - `src/app.py` (`app_session.dfy`): a deduplicated history that evicts
    before it appends, a redo stack that is only filled and cleared,
    clearing on image change, and one snapshot per committed drag.
  - `src/app_final.py` and `src/app_interactive.py` (`final_session.dfy`):
    a deduplicated history and one snapshot per written override. Their
    undo hands the new top of the history to the overrides without
    copying it.
  - `src/app_new.py` (`new_session.dfy`): slider and fine-adjust edits and
    a non-deduplicated history that undo pops.
  - `interactive_local.py` (`editor.dfy`): the desktop editor's
    nearest-point pick and its press / drag / release cycle.
- **Shared pieces.**
  - The bounded history lists: both eviction orders, deduplication and
    pop (`history.dfy`).
  - The detector's landmark-level operations: the name-to-centre map and
    writing overrides back into the landmark list (`detector.dfy`).

Conventions:

- Coordinates are `real`.
- The square root, `abs(degrees(atan2(dx, dy)))` and `round(v, n)` are
  function parameters (`sqrt`, `angle`, `round`). `Geometry.Identity`
  stands for "no rounding".
- Python's `int()` is `Geometry.Trunc`, which truncates toward zero. Its
  `//` is only ever applied with a positive divisor to a non-negative
  value, so it is Dafny's `/`.
- Streamlit's session state is a class per front end. Each method's
  `ensures` gives the new state as a function of the old. The properties
  are lemmas about those functions.

## Model

| member | source | states |
|---|---|---|
| Centroid.Center | standalone_demo.py:28-47 | None exactly when every index is out of range. Otherwise the centre times the number of in-range points equals the sum of their x·w (and y·h): it is their mean. The same function is used for `src/app_interactive.py`, `src/app_new.py` and the desktop editor. |
| Centroid.RoundedCenter | src/app_final.py:116-139 | None exactly when the unrounded centre is None. Otherwise each coordinate is `round` of the mean. |
| Centroid.PixelsEmpty | standalone_demo.py:33-42 | No point survives the range filter exactly when every index is at or beyond the landmark count. |
| Centroid.Pixels | src/app.py:169-177 | At most one point per index. |
| Centroid.PixelsMembers | src/app.py:169-177 | Every point is the landmark of some in-range index, scaled by (w, h). |
| Centroid.PixelsPermutation | standalone_demo.py:44-45 | Two index lists that are permutations of each other give the same number of in-range points and the same coordinate sums. |
| Centroid.CenterOrderIndependent | standalone_demo.py:44-45 | The centre does not depend on the order of the indices. |
| Centroid.CenterIgnoresOutOfRange | standalone_demo.py:34 | Appending indices that are all out of range leaves the centre unchanged: they are skipped, not errors. |
| Centroid.CenterWithinImage | standalone_demo.py:36-39 | For landmarks normalised to [0, 1], the centre lies inside the w x h image. |
| Centroid.RoundedCenterClose | src/app_final.py:135-139 | A rounding function off by at most e moves the centre by at most e on each axis. |
| Centroid.AggregateKeys | src/app.py:373-383 | The name-to-centre map holds a name exactly when some group of that name resolves. |
| Centroid.AggregateValue | src/app_new.py:97-101 | With distinct group names, a resolving group's entry is its own centre. |
| Centroid.CalculateGroupCenter | src/app.py:153-186 | The two loops compute `Center`. The result is None exactly when there are no landmarks, no indices, or no index in range. |
| Coordinates.Scale | src/app_interactive.py:129-137 | None (the ZeroDivisionError) exactly when the source size has a zero side. Otherwise each axis is `round(v · to / from)`. |
| Coordinates.ScaleToCanvas | src/app.py:56-81 | None (the ZeroDivisionError) exactly when the image size has a zero side. Otherwise each coordinate is `round(v · canvas / real)` on its axis. |
| Coordinates.ScaleToReal | src/app.py:83-109 | None exactly when the canvas has a zero side. Otherwise each coordinate is `round(v · real / canvas)` on its axis. |
| Coordinates.ScaleInverse | src/app.py:102-103 | Scaling by a/b and then by b/a is the identity. |
| Coordinates.ScaleRoundTrip | src/app.py:56-109 | Without rounding, scale_to_canvas followed by scale_to_real gives back the point for non-degenerate sizes. |
| Coordinates.VerifyConversionIntegrity | src/app.py:112-145 | True only when both sizes are non-degenerate. A zero side is the exception path and gives False. |
| Coordinates.IntegrityWithoutRounding | src/app.py:132-136 | With no rounding, the check holds exactly when neither size has a zero side. |
| Coordinates.IntegrityUnderRounding | src/app.py:126-141 | With a rounding off by at most e and e·(1 + real/canvas) ≤ 1 on each axis, the check holds. |
| Coordinates.AxisRoundTrip | src/app.py:74-80 | One rounded round trip moves a coordinate by at most one pixel under the same bound. |
| Coordinates.CanvasDimensions | src/app.py:521-543 | None (the ZeroDivisionError) exactly when the image width is zero. |
| Coordinates.CanvasDimensionsBounds | src/app_final.py:270-282 | The canvas is at most 600 wide and 800 high. A landscape image gets width 600 and height floor(600·h/w). A portrait image gets height floor(600·h/w) unless that is capped at 800, and width floor(w·height/h). |
| Viewport.DisplayScale | interactive_local.py:122-125 | The scale is positive. The scaled image fits the 800 x 600 window and touches it on at least one side. |
| Viewport.DisplayOffset | interactive_local.py:127-129 | Each offset is the floor of half the unused window width (height): twice it is at most the margin, and less than two below it. |
| Viewport.DisplayOffsetCentres | interactive_local.py:127-129 | Both offsets are non-negative, at least one is zero, and each leaves equal margins up to one pixel. |
| Viewport.CanvasImageCanvas | interactive_local.py:137-141 | A window pixel mapped to the image and back is the same pixel. |
| Viewport.ImageCanvasImage | interactive_local.py:131-135 | An image point mapped to the window and back moves by less than one window pixel (1/scale image pixels). |
| Confidence.Assess | src/app_final.py:142-185 | Unknown exactly for a name not in the groups. Insufficient exactly for fewer than two in-range points. The no-centre status never occurs. Otherwise the score is in (0, 1], is `ConfidenceOf(variance)`, the tier matches the score, and the colour matches the status. |
| Confidence.AssessLandmarkConfidence | src/app.py:189-250 | The loops of the source compute `Assess` over the groups of `src/app.py`, unrounded. |
| Confidence.NpVar | src/app.py:233 | The two-pass loop computes the population variance. |
| Confidence.Variance | src/app.py:226-233 | The variance is never negative, and is zero exactly when every distance equals the mean. |
| Confidence.SquaredDeviations | src/app.py:233 | The sum of squared deviations is never negative, and is zero exactly when every value equals the mean. |
| Confidence.ConfidenceOf | src/app.py:234 | The clamped score is in (0, 1] and is 1 exactly at variance 0. |
| Confidence.TierOf | src/app.py:237-242 | High exactly above 0.8, medium exactly in (0.5, 0.8], low exactly at or below 0.5. |
| Confidence.ConfidenceDecreasing | src/app.py:232-234 | A larger variance never gives a larger score. |
| Confidence.TierByVariance | src/app.py:237-242 | High exactly when the variance is below 2.5, medium from 2.5 to below 10, low from 10. |
| Confidence.EquidistantIsHigh | src/app_final.py:174-180 | A group whose points are all equally far from the centre scores 1.0 and is 'high'. |
| Validation.CheckMetrics | src/app.py:282-293 | Each warning is emitted exactly when its rule is violated: length < 10 or > 200, spacing < 5 or > 100, angle > 30. The angle warning carries the angle. The warnings appear in rule order. |
| Validation.CheckMetricsCount | src/app.py:282-291 | There are at most three warnings, never both of a pair, and none exactly when every metric is within its bounds (boundary values pass). |
| Validation.ValidateAnatomicalConstraints | src/app.py:253-303 | The metrics are reported. `is_valid` holds exactly when there are no warnings, and exactly when the three metrics are within bounds. |
| Validation.ValidateAdjustments | src/app_final.py:196-257 | Missing any of the four nose groups gives valid, with no warnings and no metrics. Otherwise the metrics come from the four overrides. `is_valid` holds exactly when there are no warnings. |
| Validation.ConstraintsForUi | src/app.py:1031-1044 | Nothing is shown exactly when a nose group is missing. Otherwise a report with metrics is shown, valid exactly when it has no warnings. |
| Validation.FrontEndsAgree | src/app_final.py:201-209 | When the check runs, the two front ends give the same report. When it is skipped, `src/app_final.py` reports clean. |
| Validation.MissingGroupSkips | src/app.py:1035-1037 | One missing nose group skips the check in both front ends. |
| History.AppendThenEvict | src/app_new.py:258-265 | Append, then drop the first entry when the list has grown past 20. |
| History.AppendThenEvictBounded | interactive_local.py:162-166 | From at most 20 entries: still at most 20, the new entry on top, and the newest old entries below it in order. |
| History.EvictThenAppendBounded | src/app.py:1024-1029 | The same for dropping the oldest at 20 before appending. |
| History.EvictionOrdersAgree | src/app.py:1025-1029 | The two eviction orders always produce the same list. |
| History.Deduped | src/app_interactive.py:269-279 | A copy equal to the top leaves the list unchanged. Otherwise it is appended with eviction. |
| History.DedupedIdempotent | src/app_final.py:428-438 | Saving twice equals saving once, and afterwards the top is the saved state. |
| History.DedupedKeepsNeighboursDistinct | src/app_final.py:432-435 | Deduplicated saving never creates two equal neighbouring entries. |
| History.Pop | interactive_local.py:168-173 | `list.pop()`: the rest plus the popped entry is the old list. |
| History.SaveThenPop | src/app_new.py:268-271 | Below the limit, a save then a pop gives back the list and the saved state, for both eviction orders. |
| History.PopAfterSave | src/app_new.py:258-271 | Whatever was evicted, a pop right after a save returns the saved state. |
| Canvas.UntouchedNotMoved | src/app_interactive.py:209-218 | A circle still at its recorded original centre has not moved, for any positive threshold (given a square root with sqrt(0) = 0). |
| Canvas.DrawnPosition | src/app_interactive.py:161-172 | No position exactly when the group does not resolve. Otherwise the override when present, else the (rounded) centre. |
| Canvas.ObjectFor | src/app_interactive.py:161-187 | No circle exactly when the group does not resolve. The circle carries the group's name and radius and its canvas centre as originalX/originalY. It is untouched. |
| Canvas.CanvasObjects | src/app_final.py:285-329 | At most one circle per group. |
| Canvas.CanvasObjectsUntouched | src/app_interactive.py:180-187 | Every circle created sits at its recorded original centre. |
| Canvas.CanvasObjectsNames | src/app_final.py:296-327 | There is a circle named n exactly when the name-to-centre map of the same groups holds n. |
| Canvas.CircleFor | src/app_interactive.py:161-187 | One iteration of the loop yields exactly the circle `ObjectFor` specifies, or none for a group that does not resolve. |
| Canvas.CreateCanvasObjects | src/app_interactive.py:155-189 | The loop builds exactly `CanvasObjects`. |
| AppSession.PendingSound | src/app.py:950-980 | Every recorded position belongs to a displayed group whose circle was dragged at least the threshold. It is that circle's scaled-back centre and differs from the stored override by more than 0.5, or no override existed. |
| AppSession.PendingFailsOnlyOnEmptyCanvas | src/app.py:974-977 | The exception path is taken exactly when the canvas has a zero side and some circle qualifies. |
| AppSession.PendingComplete | src/app.py:950-986 | Every qualifying circle whose scaled-back centre differs from its override is recorded. A name holds the centre of the last such circle of that name. |
| AppSession.PendingKeys | src/app.py:950-986 | A name is recorded exactly when some qualifying circle of that name differs from its override. |
| AppSession.ScanObject | src/app.py:951-986 | One iteration of the loop: it raises exactly when the loop step would, and otherwise yields the step's recorded positions. It writes nothing when it reports no write, and leaves the recorded map non-empty when it does write. |
| AppSession.PendingNothingMoved | src/app.py:969-972 | Nothing is recorded when no circle moved at least the threshold. |
| AppSession.UndoAfterUpdateRestores | src/app.py:982-985 | Undo right after the snapshot of an update pops exactly the state from before the update, whether or not the snapshot was deduplicated. |
| AppSession.AppSession.constructor | src/app.py:546-582 | Everything is empty and no image has been seen. |
| AppSession.AppSession.SaveAdjustmentToHistory | src/app.py:1011-1029 | A duplicate leaves both history and redo alone. Otherwise redo is emptied, the oldest entry is evicted at 20, and the copy is appended. The top is then the current overrides. |
| AppSession.AppSession.UndoLastAdjustment | src/app.py:768-790 | False and no change on an empty history. Otherwise the current overrides go onto redo (evicting past 20) and the history top is popped into the overrides. |
| AppSession.AppSession.DetectImageChange | src/app.py:584-611 | Everything is cleared, and True returned, exactly when a previous digest exists and differs. The digest is remembered either way. |
| AppSession.AppSession.ResetAll | src/app.py:725-729 | Overrides, history and redo are emptied. |
| AppSession.AppSession.UpdateEnhancedLandmarkPositions | src/app.py:924-1010 | False with no change without a payload, on the exception path, or when nothing is recorded. Otherwise one snapshot is taken and then every recorded position is written. |
| Detector.GetEnhancedLandmarks | src/app.py:362-383 | The loop builds the name-to-centre map over the groups of `src/app.py`. |
| Detector.AppGroupsDistinct | src/app.py:37-46 | The group names are pairwise distinct. |
| Detector.AdjustedAt | src/app.py:461-467 | The depth coordinate is never changed. |
| Detector.AdjustLandmarks | src/app.py:436-470 | The copy has the same length, and each landmark is `AdjustedAt` of the original. |
| Detector.AdjustedLandmarkIsOverride | src/app.py:452-467 | Read back in pixels, an overridden group's representative landmark is exactly its override. |
| Detector.AdjustLeavesOthers | src/app.py:461-465 | A landmark that no overridden group stands for is unchanged. |
| FinalSession.Saved | src/app_final.py:428-438 | A deduplicated save touches only the history. |
| FinalSession.Written | src/app_final.py:371 | A write changes one override. When the overrides are the history's top entry, it also replaces that entry and nothing else. Validity is kept. |
| FinalSession.Step | src/app_final.py:344-372 | One iteration of the loop. It raises exactly for a dragged named circle on a zero-sized canvas. A circle that is not dragged changes nothing. A dragged one leaves its scaled-back centre as the override of its name, and no other override changes. |
| FinalSession.StepValid | src/app_final.py:343-372 | One loop iteration keeps the state valid, and an iteration that writes nothing changes nothing. |
| FinalSession.Update | src/app_final.py:331-374 | The loop over all objects keeps the state valid. |
| FinalSession.UpdateFalseUnchanged | src/app_final.py:341-374 | When the update reports False, the state is as before. |
| FinalSession.UpdateNothingDragged | src/app_interactive.py:218 | With no named circle dragged at least the threshold, nothing happens. |
| FinalSession.UpdateRaises | src/app_final.py:359-365 | The update raises exactly when the canvas has a zero side and some named circle was dragged. |
| FinalSession.UpdateOverrides | src/app_interactive.py:218-230 | Every override that changed is the scaled-back centre of a dragged circle of that name. |
| FinalSession.UpdateComplete | src/app_final.py:343-372 | After the loop, each name of a dragged circle holds the scaled-back centre of the last dragged circle of that name. |
| FinalSession.UpdateKeepsOthers | src/app_final.py:343-372 | A name on no dragged circle keeps its override, or stays absent. |
| FinalSession.SnapshotBeforeWrite | src/app_final.py:368-371 | Before each write to unaliased overrides, the history's top becomes the overrides being replaced. |
| FinalSession.UndoAsWritten | src/app_final.py:480-485 | No change on an empty history. Otherwise the top is dropped. The overrides become the new top, shared and not copied, or {} when no entry is left. |
| FinalSession.UndoRestoring | src/app_interactive.py:306-311 | Corrected undo: the rest of the history plus the restored overrides is the old history. |
| FinalSession.UndoRestoringTakesBackWrite | src/app_interactive.py:227-230 | The corrected undo gives back exactly the overrides from before a saved write. |
| FinalSession.UndoAsWrittenSkipsAState | src/app_final.py:481-483 | From nothing, the edits A and then A+B followed by undo give {}, not A. The corrected undo gives A. |
| FinalSession.FinalSession.constructor | src/app_final.py:70-77 | Empty overrides and history. |
| FinalSession.FinalSession.SaveToHistory | src/app_interactive.py:269-279 | The new state is `Saved` of the old. Validity is kept. |
| FinalSession.FinalSession.Reset | src/app_final.py:474-477 | Overrides and history are emptied, and the aliasing ends. |
| FinalSession.FinalSession.Undo | src/app_interactive.py:306-311 | The new state is `UndoAsWritten` of the old. |
| FinalSession.FinalSession.UpdateAdjustmentsFromCanvas | src/app_final.py:331-374 | Without a payload: False and no change. Otherwise the result and the new state are those of `Update`. An exception leaves the state as it was. |
| NewSession.GetLandmarkPositions | src/app_new.py:94-103 | The loop builds the name-to-centre map. It holds exactly the groups whose centre resolves. |
| NewSession.CurrentPosition | src/app_new.py:170-175 | There is a current position exactly when the selected group has a centre. |
| NewSession.SliderTarget | src/app_new.py:198-205 | Something is written only for a group with a centre. The written point truncates back to the slider values. |
| NewSession.SliderAtRestWritesNothing | src/app_new.py:179-196 | Sliders left at their initial values write nothing. |
| NewSession.SliderWritesWhenMoved | src/app_new.py:198 | A write happens exactly when a slider value differs from the truncated current position. |
| NewSession.SliderSettles | src/app_new.py:198-205 | After a slider write, the rerun showing the same values writes nothing more. |
| NewSession.FineTarget | src/app_new.py:227-233 | Something is written exactly when the selected group has a centre. |
| NewSession.FineAdjustmentsAdd | src/app_new.py:229-233 | Two fine adjustments add up to one by the summed offsets. Zero offsets write back the current position. |
| NewSession.NewAppSession.constructor | src/app_new.py:33-44 | Empty overrides and history. |
| NewSession.NewAppSession.SaveToHistory | src/app_new.py:258-265 | Always appends, with eviction past 20. The overrides are unchanged. |
| NewSession.NewAppSession.RestoreFromHistory | src/app_new.py:268-271 | Pops the top into the overrides. No change on an empty history. |
| NewSession.NewAppSession.Reset | src/app_new.py:239-242 | Overrides and history are emptied. |
| NewSession.NewAppSession.ApplySlider | src/app_new.py:166-205 | Edits exactly when `SliderTarget` says so: one snapshot, then the write. Otherwise no change. |
| NewSession.NewAppSession.ApplyFineAdjust | src/app_new.py:227-233 | For a group with a centre: one snapshot, then the `FineTarget` write. Otherwise no change. |
| Editor.PositionList | interactive_local.py:101-105 | At most one entry per group. |
| Editor.PositionListEntries | interactive_local.py:102-105 | Each entry is a resolving group's own centre. A name is listed exactly when the name-to-centre map holds it. |
| Editor.Distances | interactive_local.py:148-154 | One distance per listed point, measured to where it is drawn (its override if any). |
| Editor.Nearest | interactive_local.py:145-160 | A pick is an index of the list. |
| Editor.NearestIsNearest | interactive_local.py:145-160 | None exactly when every point is at or beyond the threshold. Otherwise the pick is strictly inside the threshold, no farther than any other point inside it, and strictly nearer than every earlier one (the earliest wins ties). |
| Editor.FaceLandmarkEditor.constructor | interactive_local.py:35-45 | Nothing loaded, empty overrides and history, scale 1 and offset (0, 0). |
| Editor.FaceLandmarkEditor.CalculateDisplayParams | interactive_local.py:113-129 | With an image: the scale and offset of `DisplayScale` / `DisplayOffset`. Without one: no change. |
| Editor.FaceLandmarkEditor.LoadImage | interactive_local.py:79-111 | The image is replaced in every case. On a detection, the centres are recomputed and the display is fitted. Overrides and history are kept. |
| Editor.FaceLandmarkEditor.FindNearestLandmark | interactive_local.py:143-160 | The running-minimum loop returns the name at `Nearest` of the distances. |
| Editor.FaceLandmarkEditor.SaveToHistory | interactive_local.py:162-166 | Always appends a copy, with eviction past 20. |
| Editor.FaceLandmarkEditor.Undo | interactive_local.py:168-173 | False and no change on an empty history. Otherwise the top is popped into the overrides. |
| Editor.FaceLandmarkEditor.ResetAdjustments | interactive_local.py:175-178 | Overrides and history are emptied. |
| Editor.FaceLandmarkEditor.MouseCallback | interactive_local.py:180-202 | A press selects the nearest point. Only when one is found does it start a drag and take exactly one snapshot. A move during a drag changes only the selected override. A release clears the drag and the selection. |

## Left out

- Face detection (MediaPipe) is not modelled: the landmark list is an input. The same goes for image decoding, drawing, and the Streamlit and OpenCV widgets. Slider ranges and number-input bounds are not enforced.
- The MD5 digest of an upload is given as a string. Hashing is not modelled.
- Floating point is not modelled. Coordinates are reals. `math.sqrt`, `atan2`/`degrees` and `round(v, n)` are parameters with no assumed behaviour, except where a lemma states its assumption (for example a rounding off by at most e).
- Exceptions other than ZeroDivisionError are not modelled: missing landmark fields, non-numeric JSON values, and `LANDMARK_GROUPS[name]` lookups in display code.
- The canvas JSON is a list of objects whose keys may be missing. The type and name checks are modelled, but not JSON parsing. A missing `json_data` and an empty one are the same (`None`).
- Detector.AdjustLandmarks: iterates over the table of representative indices rather than over the overrides dictionary. The representative indices are pairwise distinct, so the two orders write the same landmarks.
- Detector.AdjustedAt and Viewport.DisplayScale: take `ImageSize` (both sides positive), as every decoded image has. The source would raise ZeroDivisionError on an empty image.
- Group indices are natural numbers. Python's negative-index wrap-around does not arise for the configured indices and is not modelled.
- `test_app.py` and `simple_demo.py` are not modelled: they are detection smoke tests and dependency checks around I/O.
- `FaceLandmarkEditor.image_to_canvas` and `canvas_to_image` are `Viewport.ToCanvas` and `Viewport.ToImage` applied to the editor's scale and offset. They have no separate members.
- No redo operation exists in the source. The redo stack of `src/app.py` is only filled and cleared, and no undo/redo law is stated.
- The status strings of the two web front ends differ: `src/app.py` says 'insufficient_points' and 'calculation_failed', and `src/app_final.py` says 'insufficient' and 'failed'. `Confidence.Status` has one tag for each pair. The spelling is not modelled.
- The parameter sliders of `src/app.py` (lines 1063-1154) are not modelled: they feed only image processing outside this core.

## Findings

| source | as written | input that shows it | evidently intended | confidence | as-written member | corrected member |
|---|---|---|---|---|---|---|
| src/app_final.py:480-485 (same code at src/app_interactive.py:306-311) | Undo drops the top entry and restores the entry below it. After a drag, the top entry is the snapshot of the state before that drag, so the pre-drag state is skipped. | From empty overrides, drag nose_tip (history [{}], overrides A), then drag nose_bridge (history [{}, A], overrides A+B), then undo: the overrides become {} instead of A. | Undo returns to the state before the last edit, as the comment "remove the current state" and the other front ends' pop-into-state undo suggest. | medium, not executed | FinalSession.UndoAsWrittenSkipsAState | FinalSession.UndoRestoring |
