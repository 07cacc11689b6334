/** snapping_pies.py: the pivot-point toggle of the 3D view and the snapping
    operators that borrow the 3D cursor to find a location and then put it
    back. */
module SnappingPies {
  import opened Wrappers

  datatype Pivot = BoundingBoxCenter | Cursor | IndividualOrigins | MedianPoint | ActiveElement

  /** VIEW3D_OT_toggle_pivot: CURSOR and INDIVIDUAL_ORIGINS go to
      MEDIAN_POINT, every other pivot to CURSOR. */
  function TogglePivot(p: Pivot): (r: Pivot)
    ensures p == Cursor || p == IndividualOrigins ==> r == MedianPoint
    ensures p != Cursor && p != IndividualOrigins ==> r == Cursor
    ensures r != IndividualOrigins
  {
    if p == Cursor then MedianPoint
    else if p == IndividualOrigins then MedianPoint
    else Cursor
  }

  /** From any pivot, toggling settles into alternating between CURSOR and
      MEDIAN_POINT. */
  lemma TogglePivotCycles(p: Pivot)
    ensures var q := TogglePivot(p);
      (q == Cursor || q == MedianPoint) && TogglePivot(TogglePivot(q)) == q && TogglePivot(q) != q
  {
  }

  /** The 3D view's pivot setting. */
  class View3D {
    var pivot: Pivot

    constructor(p: Pivot)
      ensures pivot == p
    {
      pivot := p;
    }

    /** VIEW3D_OT_toggle_pivot.execute. */
    method TogglePivotOperator()
      modifies this
      ensures pivot == TogglePivot(old(pivot))
    {
      if pivot == Cursor {
        pivot := MedianPoint;
      } else if pivot == IndividualOrigins {
        pivot := MedianPoint;
      } else {
        pivot := Cursor;
      }
    }

    /** VIEW3D_OT_SetPivotIndividual.execute: the one way to INDIVIDUAL_ORIGINS. */
    method SetPivotIndividual()
      modifies this
      ensures pivot == IndividualOrigins
    {
      pivot := IndividualOrigins;
    }
  }

  datatype Vec3 = Vec3(x: real, y: real, z: real)

  datatype Object3D = Object3D(location: Vec3, selected: bool)

  /** The parts of a scene the snapping operators read and write: the objects,
      the active object, the scene camera, the 3D cursor and whether the
      active object is in edit mode. */
  class Scene3D {
    var objects: seq<Object3D>
    var active: Option<nat>
    var camera: Option<nat>
    var cursor: Vec3
    var editMode: bool

    predicate Valid()
      reads this
    {
      (active.Some? ==> active.value < |objects|) && (camera.Some? ==> camera.value < |objects|)
    }

    constructor(objects: seq<Object3D>, active: Option<nat>, camera: Option<nat>, cursor: Vec3, editMode: bool)
      requires (active.Some? ==> active.value < |objects|) && (camera.Some? ==> camera.value < |objects|)
      ensures Valid() && this.objects == objects && this.active == active && this.camera == camera
      ensures this.cursor == cursor && this.editMode == editMode
    {
      this.objects := objects;
      this.active := active;
      this.camera := camera;
      this.cursor := cursor;
      this.editMode := editMode;
    }

    /** object.select_all(action='DESELECT'). */
    method DeselectAll()
      requires Valid()
      modifies this
      ensures Valid() && active == old(active) && camera == old(camera) && cursor == old(cursor)
      ensures editMode == old(editMode) && |objects| == |old(objects)|
      ensures forall i :: 0 <= i < |objects| ==> objects[i] == old(objects)[i].(selected := false)
    {
      var k := 0;
      while k < |objects|
        invariant 0 <= k <= |objects| && |objects| == |old(objects)|
        invariant active == old(active) && camera == old(camera) && cursor == old(cursor)
        invariant editMode == old(editMode)
        invariant forall i :: 0 <= i < |objects| ==> objects[i] == old(objects)[i].(selected := i >= k && old(objects)[i].selected)
      {
        objects := objects[k := objects[k].(selected := false)];
        k := k + 1;
      }
    }

    /** VIEW3D_OT_object_to_marker.execute: with only the camera selected the
        cursor is snapped to it, its location is the marker location, the
        active object is moved there and selected, and the cursor is put back.
        Without a camera or without an active object the operator stops with an
        AttributeError, leaving every object deselected and no active object;
        without an active object the cursor then stays on the camera. */
    method ObjectToMarker() returns (ok: bool)
      requires Valid()
      modifies this
      ensures Valid() && camera == old(camera) && editMode == old(editMode) && |objects| == |old(objects)|
      ensures ok <==> old(camera).Some? && old(active).Some?
      ensures ok ==> (cursor == old(cursor) && active == old(active) &&
        objects[active.value].location == old(objects)[camera.value].location &&
        objects[active.value].selected &&
        forall i :: 0 <= i < |objects| && i != active.value ==>
          objects[i] == old(objects)[i].(selected := false))
      ensures old(camera).Some? && old(active).None? ==> cursor == old(objects)[camera.value].location
      ensures old(camera).None? ==> cursor == old(cursor)
      ensures !ok ==> active.None?
      ensures !ok ==> forall i :: 0 <= i < |objects| ==> objects[i] == old(objects)[i].(selected := false)
    {
      var cursorLocation := cursor;
      var activeObject := active;
      var activeCamera := camera;
      DeselectAll();
      active := activeCamera;
      if activeCamera.None? {
        return false;
      }
      var cam := activeCamera.value;
      objects := objects[cam := objects[cam].(selected := true)];
      cursor := objects[cam].location;
      var markerLocation := cursor;
      objects := objects[cam := objects[cam].(selected := false)];
      active := activeObject;
      if activeObject.None? {
        return false;
      }
      var a := activeObject.value;
      objects := objects[a := objects[a].(selected := true)];
      objects := objects[a := objects[a].(location := markerLocation)];
      cursor := cursorLocation;
      return true;
    }

    /** VIEW3D_OT_origin_to_selected.execute: the cursor is snapped to the
        centre of the selected vertices, the editor goes to object mode, and
        origin_set puts the origin of every selected object on the cursor (the
        object's location becomes that centre; its geometry stays where it
        is); the cursor is then put back. */
    method OriginToSelected(selectionCenter: Vec3)
      requires Valid()
      modifies this
      ensures Valid() && active == old(active) && camera == old(camera) && cursor == old(cursor)
      ensures !editMode
      ensures |objects| == |old(objects)|
      ensures forall i :: 0 <= i < |objects| ==>
        objects[i] == if old(objects)[i].selected then old(objects)[i].(location := selectionCenter) else old(objects)[i]
    {
      var cursorLocation := cursor;
      cursor := selectionCenter;
      editMode := false;
      var moved, objs := cursor, objects;
      objects := seq(|objs|, i requires 0 <= i < |objs| =>
        if objs[i].selected then objs[i].(location := moved) else objs[i]);
      cursor := cursorLocation;
    }
  }
}
