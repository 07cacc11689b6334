/** viewport_pies.py: two all-or-nothing display toggles on the selected mesh
    and curve objects. If any of them already shows the effect, it is switched
    off on all of them; otherwise it is switched on on all of them. */
module ViewportPies {

  datatype ObjectType = Mesh | Curve | Camera | Lamp | Empty | Armature

  datatype DrawType = Wire | Textured | Solid | Bounds

  /** A 3D-view object with the display settings the toggles touch. */
  datatype ViewObject = ViewObject(kind: ObjectType, selected: bool, showWire: bool, showAllEdges: bool, drawType: DrawType)

  /** An object the toggles change: selected, and a mesh or a curve. */
  predicate Affected(ob: ViewObject)
  {
    ob.selected && (ob.kind == Mesh || ob.kind == Curve)
  }

  /** Some affected object shows its wireframe. */
  predicate AnyWired(objects: seq<ViewObject>)
  {
    exists i :: 0 <= i < |objects| && Affected(objects[i]) && objects[i].showWire
  }

  /** Some affected object is drawn as wire only. */
  predicate AnyWireDrawn(objects: seq<ViewObject>)
  {
    exists i :: 0 <= i < |objects| && Affected(objects[i]) && objects[i].drawType == Wire
  }

  /** The objects after show_all_wires. */
  function WiresToggled(objects: seq<ViewObject>): (r: seq<ViewObject>)
    ensures |r| == |objects|
    ensures forall i :: 0 <= i < |objects| ==>
      r[i] == if Affected(objects[i]) then objects[i].(showWire := !AnyWired(objects), showAllEdges := !AnyWired(objects))
              else objects[i]
  {
    var on := !AnyWired(objects);
    seq(|objects|, i requires 0 <= i < |objects| =>
      if Affected(objects[i]) then objects[i].(showWire := on, showAllEdges := on) else objects[i])
  }

  /** The objects after draw_only_wire. */
  function DrawTypeToggled(objects: seq<ViewObject>): (r: seq<ViewObject>)
    ensures |r| == |objects|
    ensures forall i :: 0 <= i < |objects| ==>
      r[i] == if Affected(objects[i]) then objects[i].(drawType := if AnyWireDrawn(objects) then Textured else Wire)
              else objects[i]
  {
    var d := if AnyWireDrawn(objects) then Textured else Wire;
    seq(|objects|, i requires 0 <= i < |objects| => if Affected(objects[i]) then objects[i].(drawType := d) else objects[i])
  }

  /** After show_all_wires every affected object shows the same wire setting;
      a second call flips it on all of them, so an all-off selection goes on
      and back off. */
  lemma WiresToggleTwice(objects: seq<ViewObject>)
    ensures var once := WiresToggled(objects);
      (forall i, j :: 0 <= i < |once| && 0 <= j < |once| && Affected(once[i]) && Affected(once[j]) ==>
        once[i].showWire == once[j].showWire) &&
      (forall i :: 0 <= i < |once| && Affected(once[i]) ==>
        WiresToggled(once)[i].showWire == !once[i].showWire)
    ensures !AnyWired(objects) ==>
      forall i :: 0 <= i < |objects| ==> WiresToggled(WiresToggled(objects))[i].showWire == objects[i].showWire
  {
    var once := WiresToggled(objects);
    assert forall i :: 0 <= i < |once| ==> Affected(once[i]) == Affected(objects[i]);
    if AnyWired(objects) {
      assert !AnyWired(once);
    } else if exists i :: 0 <= i < |objects| && Affected(objects[i]) {
      var i :| 0 <= i < |objects| && Affected(objects[i]);
      assert once[i].showWire;
      assert AnyWired(once);
    } else {
      assert !AnyWired(once);
    }
  }

  /** Two draw_only_wire calls on a selection with no wire-only object leave
      every affected object textured. */
  lemma DrawTypeToggleTwice(objects: seq<ViewObject>)
    requires !AnyWireDrawn(objects)
    ensures forall i :: 0 <= i < |objects| && Affected(objects[i]) ==>
      DrawTypeToggled(objects)[i].drawType == Wire && DrawTypeToggled(DrawTypeToggled(objects))[i].drawType == Textured
  {
    var once := DrawTypeToggled(objects);
    if exists i :: 0 <= i < |objects| && Affected(objects[i]) {
      var i :| 0 <= i < |objects| && Affected(objects[i]);
      assert Affected(once[i]) && once[i].drawType == Wire;
      assert AnyWireDrawn(once);
    }
  }

  /** The objects of the 3D view. */
  class View {
    var objects: seq<ViewObject>

    constructor(objects: seq<ViewObject>)
      ensures this.objects == objects
    {
      this.objects := objects;
    }

    /** The indices of the affected objects, in order: the obs list. */
    method AffectedObjects() returns (obs: seq<nat>)
      ensures forall k :: 0 <= k < |obs| ==> obs[k] < |objects| && Affected(objects[obs[k]])
      ensures forall i :: 0 <= i < |objects| && Affected(objects[i]) ==> i in obs
      ensures forall k, m :: 0 <= k < m < |obs| ==> obs[k] < obs[m]
    {
      obs := [];
      var i := 0;
      while i < |objects|
        invariant 0 <= i <= |objects|
        invariant forall k :: 0 <= k < |obs| ==> obs[k] < i && Affected(objects[obs[k]])
        invariant forall j :: 0 <= j < i && Affected(objects[j]) ==> j in obs
        invariant forall k, m :: 0 <= k < m < |obs| ==> obs[k] < obs[m]
      {
        if objects[i].kind == Mesh || objects[i].kind == Curve {
          if objects[i].selected {
            obs := obs + [i];
          }
        }
        i := i + 1;
      }
    }

    /** VIEW3D_OT_show_all_wires: collect the affected objects, count those
        showing their wireframe, then set both wire flags on all of them to
        whether none did. */
    method ShowAllWires()
      modifies this
      ensures objects == WiresToggled(old(objects))
    {
      var obs := AffectedObjects();
      var wired := CountWired(objects, obs);
      assert wired >= 1 <==> AnyWired(objects) by {
        if AnyWired(objects) {
          var i :| 0 <= i < |objects| && Affected(objects[i]) && objects[i].showWire;
          var m :| 0 <= m < |obs| && obs[m] == i;
        }
      }
      var on := wired < 1;
      objects := SetWires(objects, obs, on);
    }

    /** VIEW3D_OT_draw_wire_only: collect the affected objects, count those
        drawn as wire, then draw all of them textured if any was, as wire
        otherwise. */
    method DrawOnlyWire()
      modifies this
      ensures objects == DrawTypeToggled(old(objects))
    {
      var obs := AffectedObjects();
      var wired := CountWireDrawn(objects, obs);
      assert wired >= 1 <==> AnyWireDrawn(objects) by {
        if AnyWireDrawn(objects) {
          var i :| 0 <= i < |objects| && Affected(objects[i]) && objects[i].drawType == Wire;
          var m :| 0 <= m < |obs| && obs[m] == i;
        }
      }
      var d := if wired >= 1 then Textured else Wire;
      objects := SetDrawType(objects, obs, d);
    }
  }

  /** The counting loop of show_all_wires: how many of the listed objects show
      their wireframe; at least one exactly when some of them does. */
  method CountWired(objects: seq<ViewObject>, obs: seq<nat>) returns (wired: nat)
    requires forall k :: 0 <= k < |obs| ==> obs[k] < |objects|
    ensures wired >= 1 <==> exists m :: 0 <= m < |obs| && objects[obs[m]].showWire
  {
    wired := 0;
    var k := 0;
    while k < |obs|
      invariant 0 <= k <= |obs|
      invariant wired >= 1 <==> exists m :: 0 <= m < k && objects[obs[m]].showWire
    {
      if objects[obs[k]].showWire {
        wired := wired + 1;
      }
      k := k + 1;
    }
  }

  /** The counting loop of draw_wire_only: at least one exactly when some
      listed object is drawn as wire. */
  method CountWireDrawn(objects: seq<ViewObject>, obs: seq<nat>) returns (wired: nat)
    requires forall k :: 0 <= k < |obs| ==> obs[k] < |objects|
    ensures wired >= 1 <==> exists m :: 0 <= m < |obs| && objects[obs[m]].drawType == Wire
  {
    wired := 0;
    var k := 0;
    while k < |obs|
      invariant 0 <= k <= |obs|
      invariant wired >= 1 <==> exists m :: 0 <= m < k && objects[obs[m]].drawType == Wire
    {
      if objects[obs[k]].drawType == Wire {
        wired := wired + 1;
      }
      k := k + 1;
    }
  }

  /** The setting loop of show_all_wires: both wire flags of every listed
      object become on; the other objects are unchanged. */
  method SetWires(objects: seq<ViewObject>, obs: seq<nat>, on: bool) returns (r: seq<ViewObject>)
    requires forall k :: 0 <= k < |obs| ==> obs[k] < |objects|
    ensures |r| == |objects|
    ensures forall i :: 0 <= i < |objects| ==>
      r[i] == if i in obs then objects[i].(showWire := on, showAllEdges := on) else objects[i]
  {
    r := objects;
    var k := 0;
    while k < |obs|
      invariant 0 <= k <= |obs| && |r| == |objects|
      invariant forall i :: 0 <= i < |objects| ==>
        r[i] == if i in obs[..k] then objects[i].(showWire := on, showAllEdges := on) else objects[i]
    {
      var i := obs[k];
      if !on {
        r := r[i := r[i].(showWire := false, showAllEdges := false)];
      } else {
        r := r[i := r[i].(showWire := true, showAllEdges := true)];
      }
      assert obs[..k + 1] == obs[..k] + [i];
      k := k + 1;
    }
    assert obs[..k] == obs;
  }

  /** The setting loop of draw_wire_only: every listed object is drawn d; the
      other objects are unchanged. */
  method SetDrawType(objects: seq<ViewObject>, obs: seq<nat>, d: DrawType) returns (r: seq<ViewObject>)
    requires forall k :: 0 <= k < |obs| ==> obs[k] < |objects|
    ensures |r| == |objects|
    ensures forall i :: 0 <= i < |objects| ==>
      r[i] == if i in obs then objects[i].(drawType := d) else objects[i]
  {
    r := objects;
    var k := 0;
    while k < |obs|
      invariant 0 <= k <= |obs| && |r| == |objects|
      invariant forall i :: 0 <= i < |objects| ==>
        r[i] == if i in obs[..k] then objects[i].(drawType := d) else objects[i]
    {
      var i := obs[k];
      r := r[i := r[i].(drawType := d)];
      assert obs[..k + 1] == obs[..k] + [i];
      k := k + 1;
    }
    assert obs[..k] == obs;
  }
}
