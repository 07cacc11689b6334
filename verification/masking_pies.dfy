/** masking_pies.py: the mask-editing operators behind the masking pie menu. They
    collect the selected points of the editable layers, switch which layers can
    be selected, set a layer's blend mode, toggle the mask draw type, clear the
    shape keys away from the current frame and toggle the visibility of tracks. */
module MaskingPies {
  import opened Wrappers
  import opened Tracking

  /** A mask point: its selection flag and the name of the track it is
      parented to ("" when it has none). */
  datatype MaskPoint = MaskPoint(select: bool, subParent: string)

  datatype Spline = Spline(points: seq<MaskPoint>)

  datatype Blend = MergeAdd | MergeSubtract | OtherBlend(code: nat)

  /** A mask layer: its visibility and selectability flags, its blend mode,
      its splines and the frames that carry a shape key. */
  datatype Layer = Layer(hide: bool, hideSelect: bool, blend: Blend, splines: seq<Spline>, shapeKeys: set<int>)

  /** The mask of the editor: its layers and the active one. */
  class Mask {
    var layers: seq<Layer>
    var active: Option<nat>

    predicate Valid()
      reads this
    {
      active.Some? ==> active.value < |layers|
    }

    constructor(layers: seq<Layer>, active: Option<nat>)
      requires active.Some? ==> active.value < |layers|
      ensures Valid() && this.layers == layers && this.active == active
    {
      this.layers := layers;
      this.active := active;
    }
  }

  // ----- selected_mask_points -----

  /** The selected points of a spline, in order. */
  function SelectedOf(points: seq<MaskPoint>): seq<MaskPoint>
  {
    if points == [] then []
    else SelectedOf(points[..|points| - 1]) + (if points[|points| - 1].select then [points[|points| - 1]] else [])
  }

  /** The selected points of a list of splines, spline by spline. */
  function SplinesSelected(splines: seq<Spline>): seq<MaskPoint>
  {
    if splines == [] then []
    else SplinesSelected(splines[..|splines| - 1]) + SelectedOf(splines[|splines| - 1].points)
  }

  /** A layer whose points can be picked: neither hidden nor locked. */
  predicate Editable(l: Layer)
  {
    !l.hide && !l.hideSelect
  }

  /** The selected points of the editable layers, layer by layer. */
  function MaskSelected(layers: seq<Layer>): seq<MaskPoint>
  {
    if layers == [] then []
    else
      var last := layers[|layers| - 1];
      MaskSelected(layers[..|layers| - 1]) + (if Editable(last) then SplinesSelected(last.splines) else [])
  }

  /** The point lies on one of the splines. */
  predicate OnSpline(splines: seq<Spline>, p: MaskPoint)
  {
    exists s :: 0 <= s < |splines| && p in splines[s].points
  }

  /** The point lies on a spline of a layer that is neither hidden nor
      locked. */
  predicate OnEditableLayer(layers: seq<Layer>, p: MaskPoint)
  {
    exists l :: 0 <= l < |layers| && Editable(layers[l]) && OnSpline(layers[l].splines, p)
  }

  lemma {:induction false} SelectedOfMeaning(points: seq<MaskPoint>)
    ensures forall p :: p in SelectedOf(points) <==> p in points && p.select
  {
    if points != [] {
      SelectedOfMeaning(points[..|points| - 1]);
      assert points == points[..|points| - 1] + [points[|points| - 1]];
    }
  }

  lemma {:induction false} SplinesSelectedMeaning(splines: seq<Spline>)
    ensures forall p :: p in SplinesSelected(splines) <==> p.select && OnSpline(splines, p)
  {
    if splines != [] {
      var init := splines[..|splines| - 1];
      SplinesSelectedMeaning(init);
      SelectedOfMeaning(splines[|splines| - 1].points);
      forall p: MaskPoint | p.select && OnSpline(splines, p)
        ensures p in SplinesSelected(splines)
      {
        var s :| 0 <= s < |splines| && p in splines[s].points;
        if s < |splines| - 1 {
          assert init[s] == splines[s];
        }
      }
      forall p | p in SplinesSelected(splines)
        ensures p.select && OnSpline(splines, p)
      {
        if p in SplinesSelected(init) {
          var s :| 0 <= s < |init| && p in init[s].points;
          assert splines[s] == init[s];
        }
      }
    }
  }

  /** selected_mask_points: a point is listed exactly when it is selected and
      lies on a spline of a layer that is neither hidden nor locked. */
  lemma {:induction false} MaskSelectedMeaning(layers: seq<Layer>)
    ensures forall p :: p in MaskSelected(layers) <==> p.select && OnEditableLayer(layers, p)
  {
    if layers != [] {
      var init := layers[..|layers| - 1];
      var last := layers[|layers| - 1];
      MaskSelectedMeaning(init);
      SplinesSelectedMeaning(last.splines);
      forall p: MaskPoint | p.select && OnEditableLayer(layers, p)
        ensures p in MaskSelected(layers)
      {
        var l :| 0 <= l < |layers| && Editable(layers[l]) && OnSpline(layers[l].splines, p);
        if l < |layers| - 1 {
          assert init[l] == layers[l];
        }
      }
      forall p | p in MaskSelected(layers)
        ensures p.select && OnEditableLayer(layers, p)
      {
        if p in MaskSelected(init) {
          var l :| 0 <= l < |init| && Editable(init[l]) && OnSpline(init[l].splines, p);
          assert layers[l] == init[l];
        } else {
          assert layers[|layers| - 1] == last;
        }
      }
    }
  }

  /** selected_mask_points, with its three nested loops. */
  method SelectedMaskPoints(mask: Mask) returns (pointlist: seq<MaskPoint>)
    ensures pointlist == MaskSelected(mask.layers)
  {
    var layers := mask.layers;
    pointlist := [];
    var i := 0;
    while i < |layers|
      invariant 0 <= i <= |layers|
      invariant pointlist == MaskSelected(layers[..i])
    {
      assert layers[..i + 1][..i] == layers[..i];
      var l := layers[i];
      if !l.hide && !l.hideSelect {
        pointlist := AppendSplinesSelected(pointlist, l.splines);
      }
      i := i + 1;
    }
    assert layers[..i] == layers;
  }

  /** The loop over the splines of one shown layer: the selected points of
      each spline are appended in order. */
  method AppendSplinesSelected(acc: seq<MaskPoint>, splines: seq<Spline>) returns (pointlist: seq<MaskPoint>)
    ensures pointlist == acc + SplinesSelected(splines)
  {
    pointlist := acc;
    var j := 0;
    while j < |splines|
      invariant 0 <= j <= |splines|
      invariant pointlist == acc + SplinesSelected(splines[..j])
    {
      assert splines[..j + 1][..j] == splines[..j];
      pointlist := AppendSelected(pointlist, splines[j].points);
      j := j + 1;
    }
    assert splines[..j] == splines;
  }

  /** The loop over the points of one spline: each selected point is appended. */
  method AppendSelected(acc: seq<MaskPoint>, points: seq<MaskPoint>) returns (pointlist: seq<MaskPoint>)
    ensures pointlist == acc + SelectedOf(points)
  {
    pointlist := acc;
    var k := 0;
    while k < |points|
      invariant 0 <= k <= |points|
      invariant pointlist == acc + SelectedOf(points[..k])
    {
      assert points[..k + 1][..k] == points[..k];
      if points[k].select {
        pointlist := pointlist + [points[k]];
      }
      k := k + 1;
    }
    assert points[..k] == points;
  }

  // ----- layer operators -----

  /** MASK_OT_isolate_layer.execute: every layer is locked, then the active
      one is unlocked; nothing else changes. Without an active layer every
      layer stays locked and the operator fails. */
  method IsolateLayer(mask: Mask) returns (ok: bool)
    requires mask.Valid()
    modifies mask
    ensures mask.Valid() && mask.active == old(mask.active) && |mask.layers| == |old(mask.layers)|
    ensures ok <==> mask.active.Some?
    ensures forall i :: 0 <= i < |mask.layers| ==>
      mask.layers[i] == old(mask.layers)[i].(hideSelect := mask.active != Some(i))
  {
    var k := 0;
    while k < |mask.layers|
      invariant 0 <= k <= |mask.layers| && |mask.layers| == |old(mask.layers)| && mask.active == old(mask.active)
      invariant forall i :: 0 <= i < |mask.layers| ==>
        mask.layers[i] == old(mask.layers)[i].(hideSelect := i < k || old(mask.layers)[i].hideSelect)
    {
      mask.layers := mask.layers[k := mask.layers[k].(hideSelect := true)];
      k := k + 1;
    }
    if mask.active.None? {
      return false;
    }
    var a := mask.active.value;
    mask.layers := mask.layers[a := mask.layers[a].(hideSelect := false)];
    return true;
  }

  /** The layer mask.layer_new adds: shown, selectable, additive, empty. */
  const NewLayer := Layer(false, false, MergeAdd, [], {})

  /** MASK_OT_new_mask_layer.execute: locks every existing layer, then adds a
      new layer, which becomes the active one. */
  method NewMaskLayer(mask: Mask)
    requires mask.Valid()
    modifies mask
    ensures mask.Valid() && |mask.layers| == |old(mask.layers)| + 1 && mask.active == Some(|old(mask.layers)|)
    ensures forall i :: 0 <= i < |old(mask.layers)| ==> mask.layers[i] == old(mask.layers)[i].(hideSelect := true)
    ensures mask.layers[|old(mask.layers)|] == NewLayer
  {
    var k := 0;
    while k < |mask.layers|
      invariant 0 <= k <= |mask.layers| && |mask.layers| == |old(mask.layers)|
      invariant forall i :: 0 <= i < |mask.layers| ==>
        mask.layers[i] == old(mask.layers)[i].(hideSelect := i < k || old(mask.layers)[i].hideSelect)
    {
      mask.layers := mask.layers[k := mask.layers[k].(hideSelect := true)];
      k := k + 1;
    }
    mask.layers := mask.layers + [NewLayer];
    mask.active := Some(|mask.layers| - 1);
  }

  /** After a new layer is added, no point can be picked: every old layer is
      locked and the new one is empty, so selected_mask_points finds
      nothing. */
  lemma NewLayerIsolates(before: seq<Layer>, after: seq<Layer>)
    requires |after| == |before| + 1 && after[|before|] == NewLayer
    requires forall i :: 0 <= i < |before| ==> after[i] == before[i].(hideSelect := true)
    ensures forall p :: p !in MaskSelected(after)
  {
    MaskSelectedMeaning(after);
    forall p: MaskPoint
      ensures !OnEditableLayer(after, p)
    {
      assert forall l :: 0 <= l < |after| ==> !(Editable(after[l]) && OnSpline(after[l].splines, p)) by {
        forall l | 0 <= l < |after|
          ensures !(Editable(after[l]) && OnSpline(after[l].splines, p))
        {
          if l < |before| {
            assert after[l].hideSelect;
          } else {
            assert after[l].splines == [];
          }
        }
      }
    }
  }

  /** MASK_OT_set_to_add and MASK_OT_set_to_subtract: the active layer's blend
      mode becomes `blend`; no other layer and no other field changes. Without
      an active layer nothing changes and the operator fails. */
  method SetBlend(mask: Mask, blend: Blend) returns (ok: bool)
    requires mask.Valid()
    modifies mask
    ensures mask.Valid() && mask.active == old(mask.active) && |mask.layers| == |old(mask.layers)|
    ensures ok <==> mask.active.Some?
    ensures forall i :: 0 <= i < |mask.layers| ==>
      mask.layers[i] == if mask.active == Some(i) then old(mask.layers)[i].(blend := blend) else old(mask.layers)[i]
  {
    if mask.active.None? {
      return false;
    }
    var a := mask.active.value;
    mask.layers := mask.layers[a := mask.layers[a].(blend := blend)];
    return true;
  }

  method SetToAdd(mask: Mask) returns (ok: bool)
    requires mask.Valid()
    modifies mask
    ensures mask.Valid() && mask.active == old(mask.active) && (ok <==> mask.active.Some?)
    ensures |mask.layers| == |old(mask.layers)|
    ensures forall i :: 0 <= i < |mask.layers| ==>
      mask.layers[i] == if mask.active == Some(i) then old(mask.layers)[i].(blend := MergeAdd) else old(mask.layers)[i]
  {
    ok := SetBlend(mask, MergeAdd);
  }

  method SetToSubtract(mask: Mask) returns (ok: bool)
    requires mask.Valid()
    modifies mask
    ensures mask.Valid() && mask.active == old(mask.active) && (ok <==> mask.active.Some?)
    ensures |mask.layers| == |old(mask.layers)|
    ensures forall i :: 0 <= i < |mask.layers| ==>
      mask.layers[i] == if mask.active == Some(i) then old(mask.layers)[i].(blend := MergeSubtract) else old(mask.layers)[i]
  {
    ok := SetBlend(mask, MergeSubtract);
  }

  // ----- MASK_OT_toggle_drawtype -----

  datatype MaskDrawType = Outline | White | Dash | Black

  /** The clip editor's mask display settings. */
  class MaskDisplay {
    var showMaskSmooth: bool
    var drawType: MaskDrawType

    constructor(smooth: bool, drawType: MaskDrawType)
      ensures showMaskSmooth == smooth && this.drawType == drawType
    {
      showMaskSmooth := smooth;
      this.drawType := drawType;
    }
  }

  /** The draw type after a toggle: OUTLINE becomes WHITE, anything else
      OUTLINE. */
  function ToggledDrawType(d: MaskDrawType): (r: MaskDrawType)
    ensures r == White <==> d == Outline
    ensures r == Outline <==> d != Outline
  {
    if d == Outline then White else Outline
  }

  /** Two toggles lead back to OUTLINE or WHITE, whichever was shown; any
      other draw type is left for good. */
  lemma ToggleDrawTypeTwice(d: MaskDrawType)
    ensures ToggledDrawType(ToggledDrawType(d)) == if d == Outline then Outline else White
  {
  }

  /** MASK_OT_toggle_drawtype.execute. */
  method ToggleDrawtype(space: MaskDisplay)
    modifies space
    ensures space.showMaskSmooth && space.drawType == ToggledDrawType(old(space.drawType))
  {
    space.showMaskSmooth := true;
    if space.drawType == Outline {
      space.drawType := White;
    } else {
      space.drawType := Outline;
    }
  }

  // ----- MASK_OT_clear_keyframes -----

  /** The frames from lo up to hi, in order (Python's range(lo, hi + 1)). */
  function FramesThrough(lo: int, hi: int): (r: seq<int>)
    ensures |r| == if hi >= lo then hi - lo + 1 else 0
    ensures forall k :: 0 <= k < |r| ==> r[k] == lo + k
    ensures forall f :: f in r <==> lo <= f <= hi
    decreases hi - lo
  {
    if hi < lo then [] else FramesThrough(lo, hi - 1) + [hi]
  }

  /** The frame the scene is on when the second range of
      MASK_OT_clear_keyframes is evaluated: the first loop steps the scene up
      to the end frame whenever it runs at all. */
  function FrameAfterFirstLoop(end: int, current: int): int
  {
    if current < end then end else current
  }

  /** The frames at which MASK_OT_clear_keyframes clears, as written and in
      order: after the current frame up to the end, then from the start up to
      three frames before the re-read frame_current. */
  function ClearedFramesAsWritten(start: int, end: int, current: int): (r: seq<int>)
    ensures forall f :: f in r <==>
      (current < f <= end || start <= f < FrameAfterFirstLoop(end, current) - 2)
  {
    FramesThrough(current + 1, end) + FramesThrough(start, FrameAfterFirstLoop(end, current) - 3)
  }

  /** What the comment of MASK_OT_clear_keyframes intends: the same two
      ranges, the second bounded by the saved current frame. */
  function ClearedFrames(start: int, end: int, current: int): (r: seq<int>)
    ensures forall f :: f in r <==> (current < f <= end || start <= f < current - 2)
  {
    FramesThrough(current + 1, end) + FramesThrough(start, current - 3)
  }

  /** With the intended bound, the current frame and the two before it are
      never cleared. */
  lemma ClearKeepsCurrentFrames(start: int, end: int, current: int)
    ensures current !in ClearedFrames(start, end, current)
    ensures current - 1 !in ClearedFrames(start, end, current)
    ensures current - 2 !in ClearedFrames(start, end, current)
  {
  }

  /** As written, a current frame at least three before the end is cleared
      with everything else: every frame from the start to the end is visited. */
  lemma ClearAsWrittenClearsAll(start: int, end: int, current: int)
    requires start <= current <= end - 3
    ensures forall f :: start <= f <= end ==> f in ClearedFramesAsWritten(start, end, current)
    ensures current in ClearedFramesAsWritten(start, end, current)
  {
  }

  /** A current frame on the last two frames, or past the end, leaves the
      first loop idle or stepping onto the end only; as written the frames
      kept are then those the intended bound keeps. */
  lemma ClearAsWrittenNearEnd(start: int, end: int, current: int)
    requires current >= end
    ensures ClearedFramesAsWritten(start, end, current) == ClearedFrames(start, end, current)
  {
  }

  /** One loop of MASK_OT_clear_keyframes: steps the scene to each frame
      from lo to hi in turn and clears the active layer's shape key there. */
  method ClearThrough(scene: Scene, mask: Mask, lo: int, hi: int) returns (visited: seq<int>)
    requires mask.Valid()
    modifies scene, mask
    ensures visited == FramesThrough(lo, hi)
    ensures scene.frameCurrent == if lo <= hi then hi else old(scene.frameCurrent)
    ensures scene.frameStart == old(scene.frameStart) && scene.frameEnd == old(scene.frameEnd)
    ensures mask.Valid() && mask.active == old(mask.active) && |mask.layers| == |old(mask.layers)|
    ensures forall i :: 0 <= i < |mask.layers| ==>
      mask.layers[i] == if mask.active == Some(i) then
        old(mask.layers)[i].(shapeKeys := old(mask.layers)[i].shapeKeys - set g | g in visited)
      else old(mask.layers)[i]
  {
    var layers := mask.layers;
    visited := [];
    var f := lo;
    while f < hi + 1
      invariant lo <= f && (f <= hi + 1 || f == lo)
      invariant visited == FramesThrough(lo, f - 1)
      invariant scene.frameCurrent == if f == lo then old(scene.frameCurrent) else f - 1
      invariant scene.frameStart == old(scene.frameStart) && scene.frameEnd == old(scene.frameEnd)
      invariant mask.Valid() && mask.active == old(mask.active) && |mask.layers| == |layers|
      invariant forall i :: 0 <= i < |layers| ==>
        mask.layers[i] == if mask.active == Some(i) then layers[i].(shapeKeys := layers[i].shapeKeys - set g | g in visited)
        else layers[i]
    {
      scene.frameCurrent := f;
      ShapeKeyClear(mask, f);
      visited := visited + [f];
      f := f + 1;
    }
  }

  /** MASK_OT_clear_keyframes.execute: steps to every frame of
      ClearedFramesAsWritten and clears the active layer's shape key there,
      then puts the frame back. The second range reads frame_current after
      the first loop has moved it. Without an active layer the clear does
      nothing. */
  method ClearKeyframes(scene: Scene, mask: Mask) returns (visited: seq<int>)
    requires mask.Valid()
    modifies scene, mask
    ensures visited == ClearedFramesAsWritten(old(scene.frameStart), old(scene.frameEnd), old(scene.frameCurrent))
    ensures scene.frameCurrent == old(scene.frameCurrent)
    ensures scene.frameStart == old(scene.frameStart) && scene.frameEnd == old(scene.frameEnd)
    ensures mask.Valid() && mask.active == old(mask.active) && |mask.layers| == |old(mask.layers)|
    ensures forall i :: 0 <= i < |mask.layers| ==>
      mask.layers[i] == if mask.active == Some(i) then
        old(mask.layers)[i].(shapeKeys := old(mask.layers)[i].shapeKeys - set f | f in visited)
      else old(mask.layers)[i]
  {
    var currentFrame := scene.frameCurrent;
    ghost var layers := mask.layers;
    var after := ClearThrough(scene, mask, currentFrame + 1, scene.frameEnd);
    // frame_current is read again here, after the first loop moved it
    var before := ClearThrough(scene, mask, scene.frameStart, scene.frameCurrent - 3);
    visited := after + before;
    scene.frameCurrent := currentFrame;
    forall i | 0 <= i < |mask.layers| && mask.active == Some(i)
      ensures mask.layers[i] == layers[i].(shapeKeys := layers[i].shapeKeys - set f | f in visited)
    {
      assert (set f | f in visited) == (set f | f in after) + (set f | f in before);
    }
  }

  /** MASK_OT_clear_keyframes with the second range bounded by the saved
      current frame, as its comment intends: the frames ClearedFrames lists
      are cleared, so the current frame keeps its key. */
  method ClearKeyframesIntended(scene: Scene, mask: Mask) returns (visited: seq<int>)
    requires mask.Valid()
    modifies scene, mask
    ensures visited == ClearedFrames(old(scene.frameStart), old(scene.frameEnd), old(scene.frameCurrent))
    ensures scene.frameCurrent == old(scene.frameCurrent)
    ensures scene.frameStart == old(scene.frameStart) && scene.frameEnd == old(scene.frameEnd)
    ensures mask.Valid() && mask.active == old(mask.active) && |mask.layers| == |old(mask.layers)|
    ensures forall i :: 0 <= i < |mask.layers| ==>
      mask.layers[i] == if mask.active == Some(i) then
        old(mask.layers)[i].(shapeKeys := old(mask.layers)[i].shapeKeys - set f | f in visited)
      else old(mask.layers)[i]
  {
    var currentFrame := scene.frameCurrent;
    ghost var layers := mask.layers;
    var after := ClearThrough(scene, mask, currentFrame + 1, scene.frameEnd);
    var before := ClearThrough(scene, mask, scene.frameStart, currentFrame - 3);
    visited := after + before;
    scene.frameCurrent := currentFrame;
    forall i | 0 <= i < |mask.layers| && mask.active == Some(i)
      ensures mask.layers[i] == layers[i].(shapeKeys := layers[i].shapeKeys - set f | f in visited)
    {
      assert (set f | f in visited) == (set f | f in after) + (set f | f in before);
    }
  }

  /** mask.shape_key_clear at frame f: the active layer loses its shape key on
      f. */
  method ShapeKeyClear(mask: Mask, f: int)
    requires mask.Valid()
    modifies mask
    ensures mask.Valid() && mask.active == old(mask.active) && |mask.layers| == |old(mask.layers)|
    ensures forall i :: 0 <= i < |mask.layers| ==>
      mask.layers[i] == if mask.active == Some(i) then old(mask.layers)[i].(shapeKeys := old(mask.layers)[i].shapeKeys - {f})
      else old(mask.layers)[i]
  {
    if mask.active.Some? {
      var a := mask.active.value;
      mask.layers := mask.layers[a := mask.layers[a].(shapeKeys := mask.layers[a].shapeKeys - {f})];
    }
  }

  // ----- track visibility -----

  /** The tracks after MASK_OT_toggle_marker_visibility: all shown when any
      was hidden, all hidden otherwise. */
  function ToggledVisibility(tracks: seq<Track>): (r: seq<Track>)
    ensures |r| == |tracks|
    ensures forall j :: 0 <= j < |tracks| ==>
      r[j] == tracks[j].(hide := !exists i :: 0 <= i < |tracks| && tracks[i].hide)
  {
    var hidden := exists i :: 0 <= i < |tracks| && tracks[i].hide;
    seq(|tracks|, j requires 0 <= j < |tracks| => tracks[j].(hide := !hidden))
  }

  /** After a toggle every track shares one visibility, and a second toggle
      flips it for all of them. */
  lemma ToggleVisibilityTwice(tracks: seq<Track>)
    requires |tracks| > 0
    ensures var once := ToggledVisibility(tracks);
      (forall j :: 0 <= j < |once| ==> once[j].hide == once[0].hide) &&
      (forall j :: 0 <= j < |once| ==> ToggledVisibility(once)[j].hide == !once[0].hide)
  {
    var once := ToggledVisibility(tracks);
    if once[0].hide {
      assert forall j :: 0 <= j < |once| ==> ToggledVisibility(once)[j].hide == false;
    } else {
      assert forall j :: 0 <= j < |once| ==> !once[j].hide;
    }
  }

  /** MASK_OT_toggle_marker_visibility.execute. */
  method ToggleMarkerVisibility(clip: Clip)
    modifies clip
    ensures clip.tracks == ToggledVisibility(old(clip.tracks))
  {
    var hidden := false;
    var tracks := clip.tracks;
    var k := 0;
    while k < |tracks|
      invariant 0 <= k <= |tracks|
      invariant hidden <==> exists i :: 0 <= i < k && tracks[i].hide
    {
      if tracks[k].hide {
        hidden := true;
      }
      k := k + 1;
    }
    k := 0;
    while k < |tracks|
      invariant 0 <= k <= |tracks| && |clip.tracks| == |tracks|
      invariant forall j :: 0 <= j < |tracks| ==> clip.tracks[j] == if j < k then tracks[j].(hide := !hidden) else tracks[j]
    {
      clip.tracks := clip.tracks[k := clip.tracks[k].(hide := !hidden)];
      k := k + 1;
    }
  }

  /** tracks[name]: the first track of that name. */
  function FindTrack(tracks: seq<Track>, name: string): (r: Option<nat>)
    ensures r.Some? ==> (r.value < |tracks| && tracks[r.value].name == name &&
      forall j :: 0 <= j < r.value ==> tracks[j].name != name)
    ensures r.None? ==> forall j :: 0 <= j < |tracks| ==> tracks[j].name != name
  {
    if tracks == [] then None
    else if tracks[0].name == name then Some(0)
    else match FindTrack(tracks[1..], name)
      case None => None
      case Some(k) => Some(k + 1)
  }

  /** The parent tracks of a list of points: the set of non-empty sub_parent
      names. */
  function ParentNames(points: seq<MaskPoint>): (r: set<string>)
    ensures forall m :: m in r <==> m != "" && exists k :: 0 <= k < |points| && points[k].subParent == m
  {
    set k | 0 <= k < |points| && points[k].subParent != "" :: points[k].subParent
  }

  /** A track a name of `names` resolves to. */
  predicate Named(tracks: seq<Track>, names: set<string>, j: nat)
  {
    j < |tracks| && tracks[j].name in names && FindTrack(tracks, tracks[j].name) == Some(j)
  }

  /** The tracks after the parent tracks of `names` are toggled, each once. */
  function ToggledParents(tracks: seq<Track>, names: set<string>): (r: seq<Track>)
    ensures |r| == |tracks|
    ensures forall j :: 0 <= j < |tracks| ==>
      r[j] == if Named(tracks, names, j) then tracks[j].(hide := !tracks[j].hide) else tracks[j]
  {
    seq(|tracks|, j requires 0 <= j < |tracks| =>
      if Named(tracks, names, j) then tracks[j].(hide := !tracks[j].hide) else tracks[j])
  }

  /** MASK_OT_parent_marker_visibility.execute: the parent track of every
      selected point of the editable layers is toggled once, however many
      points share it. A name with no track raises KeyError: the result is
      False and the parent tracks visited before it stay toggled. */
  method ParentMarkerVisibility(mask: Mask, clip: Clip) returns (ok: bool)
    modifies clip
    ensures var markers := ParentNames(MaskSelected(mask.layers));
      (ok <==> forall m :: m in markers ==> FindTrack(old(clip.tracks), m).Some?) &&
      (ok ==> clip.tracks == ToggledParents(old(clip.tracks), markers)) &&
      (!ok ==> exists done :: done <= markers && clip.tracks == ToggledParents(old(clip.tracks), done))
  {
    var points := SelectedMaskPoints(mask);
    var markers := ParentsOf(points);
    var tracks := clip.tracks;
    // The toggled tracks are gathered in cur and written back to the clip at
    // each exit; nothing reads the clip's tracks in between.
    var cur := tracks;
    var todo := markers;
    while todo != {}
      invariant todo <= markers
      invariant cur == ToggledParents(tracks, markers - todo)
      invariant forall m :: m in markers - todo ==> FindTrack(tracks, m).Some?
      decreases todo
    {
      var m :| m in todo;
      SameNames(tracks, markers - todo);
      var found := FindTrack(cur, m);
      if found.None? {
        clip.tracks := cur;
        return false;
      }
      var t := found.value;
      ToggleOneMore(tracks, markers - todo, m, t);
      assert markers - todo + {m} == markers - (todo - {m});
      cur := cur[t := cur[t].(hide := !cur[t].hide)];
      todo := todo - {m};
    }
    assert markers - todo == markers;
    clip.tracks := cur;
    return true;
  }

  /** The loop over the selected points: the non-empty parent names, as a set. */
  method ParentsOf(points: seq<MaskPoint>) returns (markers: set<string>)
    ensures markers == ParentNames(points)
  {
    markers := {};
    var k := 0;
    while k < |points|
      invariant 0 <= k <= |points|
      invariant markers == ParentNames(points[..k])
    {
      assert points[..k + 1][..k] == points[..k];
      if points[k].subParent != "" {
        markers := markers + {points[k].subParent};
      }
      k := k + 1;
    }
    assert points[..k] == points;
  }

  /** Toggling one more name whose track is t toggles track t on top of the
      tracks already toggled. */
  lemma ToggleOneMore(tracks: seq<Track>, done: set<string>, m: string, t: nat)
    requires m !in done && FindTrack(tracks, m) == Some(t)
    ensures var before := ToggledParents(tracks, done);
      t < |before| && ToggledParents(tracks, done + {m}) == before[t := before[t].(hide := !before[t].hide)]
  {
    var before := ToggledParents(tracks, done);
    var after := ToggledParents(tracks, done + {m});
    assert !Named(tracks, done, t);
    forall j | 0 <= j < |tracks| && j != t
      ensures Named(tracks, done + {m}, j) == Named(tracks, done, j)
    {
      if tracks[j].name == m {
        assert FindTrack(tracks, tracks[j].name) != Some(j);
      }
    }
    assert after == before[t := before[t].(hide := !before[t].hide)];
  }

  /** Toggling visibility keeps every name, so every name resolves as before. */
  lemma SameNames(tracks: seq<Track>, names: set<string>)
    ensures forall m :: FindTrack(ToggledParents(tracks, names), m) == FindTrack(tracks, m)
  {
    forall m
      ensures FindTrack(ToggledParents(tracks, names), m) == FindTrack(tracks, m)
    {
      FindTrackByNames(ToggledParents(tracks, names), tracks, m);
    }
  }

  lemma {:induction false} FindTrackByNames(a: seq<Track>, b: seq<Track>, m: string)
    requires |a| == |b| && forall j :: 0 <= j < |a| ==> a[j].name == b[j].name
    ensures FindTrack(a, m) == FindTrack(b, m)
    decreases |a|
  {
    if a != [] && a[0].name != m {
      FindTrackByNames(a[1..], b[1..], m);
    }
  }
}
