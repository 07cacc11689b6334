/** nla_player.py: the action starter, which moves every keyframe of the
    animated objects, lights, shape keys and material node trees to one frame
    so that all actions start together. */
module NlaPlayer {
  import opened Wrappers

  /** The frame the keyframes move to when force_reset is set. */
  const ResetFrame := 5000

  /** A keyframe point: co.x is its frame, co.y its value. */
  datatype Keyframe = Keyframe(x: real, y: real)

  datatype FCurve = FCurve(dataPath: string, points: seq<Keyframe>)

  datatype Action = Action(name: string, fcurves: seq<FCurve>)

  /** animation_data, with its action slot possibly empty. */
  datatype AnimData = AnimData(action: Option<Action>)

  datatype ObjectType = Mesh | Curve | Camera | Lamp | Empty | Armature

  /** A material slot's material and its shader node tree's animation. */
  datatype Material = Material(useNodes: bool, treeAnim: Option<AnimData>)

  /** An object: its pass index, its own animation and the materials of its
      data (empty slots are None). */
  datatype Obj = Obj(kind: ObjectType, passIndex: int, anim: Option<AnimData>, materials: seq<Option<Material>>)

  datatype Light = Light(anim: Option<AnimData>)

  /** Shape keys of a mesh or curve data-block. */
  datatype ShapeKeys = ShapeKeys(anim: Option<AnimData>)

  datatype ShapeOwner = ShapeOwner(shapeKeys: Option<ShapeKeys>)

  /** The frame the operator moves keyframes to. */
  function TargetFrame(forceReset: bool, frameCurrent: int): (r: int)
    ensures forceReset ==> r == ResetFrame
    ensures !forceReset ==> r == frameCurrent
  {
    if !forceReset then frameCurrent else ResetFrame
  }

  /** An f-curve with every keyframe moved to frame t. */
  function CurveRetimed(c: FCurve, t: int): (r: FCurve)
    ensures r.dataPath == c.dataPath && |r.points| == |c.points|
    ensures forall j :: 0 <= j < |c.points| ==> r.points[j].x == t as real && r.points[j].y == c.points[j].y
  {
    c.(points := seq(|c.points|, j requires 0 <= j < |c.points| => c.points[j].(x := t as real)))
  }

  /** An action with every keyframe of every f-curve moved to frame t. */
  function Retimed(a: Action, t: int): (r: Action)
    ensures r.name == a.name && |r.fcurves| == |a.fcurves|
    ensures forall i :: 0 <= i < |a.fcurves| ==> r.fcurves[i] == CurveRetimed(a.fcurves[i], t)
  {
    a.(fcurves := seq(|a.fcurves|, i requires 0 <= i < |a.fcurves| => CurveRetimed(a.fcurves[i], t)))
  }

  /** Retiming an action to a frame it was already retimed to changes nothing. */
  lemma RetimedIdempotent(a: Action, t: int)
    ensures Retimed(Retimed(a, t), t) == Retimed(a, t)
  {
    var once := Retimed(a, t);
    forall i | 0 <= i < |once.fcurves|
      ensures CurveRetimed(once.fcurves[i], t) == once.fcurves[i]
    {
      assert CurveRetimed(once.fcurves[i], t).points == once.fcurves[i].points;
    }
  }

  /** Retiming to t and then to u is retiming to u. */
  lemma RetimedLastWins(a: Action, t: int, u: int)
    ensures Retimed(Retimed(a, t), u) == Retimed(a, u)
  {
    var once := Retimed(a, t);
    forall i | 0 <= i < |a.fcurves|
      ensures CurveRetimed(once.fcurves[i], u) == CurveRetimed(a.fcurves[i], u)
    {
      assert CurveRetimed(once.fcurves[i], u).points == CurveRetimed(a.fcurves[i], u).points;
    }
  }

  /** The nested loop over an action's f-curves and keyframe points. */
  method RetimeAction(a: Action, t: int) returns (r: Action)
    ensures r == Retimed(a, t)
  {
    var fcurves := a.fcurves;
    var i := 0;
    while i < |fcurves|
      invariant 0 <= i <= |fcurves| == |a.fcurves|
      invariant forall m :: 0 <= m < i ==> fcurves[m] == CurveRetimed(a.fcurves[m], t)
      invariant forall m :: i <= m < |fcurves| ==> fcurves[m] == a.fcurves[m]
    {
      var points := fcurves[i].points;
      var j := 0;
      while j < |points|
        invariant 0 <= j <= |points| == |a.fcurves[i].points|
        invariant forall m :: 0 <= m < j ==> points[m] == a.fcurves[i].points[m].(x := t as real)
        invariant forall m :: j <= m < |points| ==> points[m] == a.fcurves[i].points[m]
      {
        points := points[j := points[j].(x := t as real)];
        j := j + 1;
      }
      assert points == CurveRetimed(a.fcurves[i], t).points;
      fcurves := fcurves[i := fcurves[i].(points := points)];
      i := i + 1;
    }
    r := a.(fcurves := fcurves);
  }

  /** Animation data with its action, when there is one, retimed. */
  function AnimRetimed(anim: Option<AnimData>, t: int): (r: Option<AnimData>)
    ensures r.Some? <==> anim.Some?
    ensures anim.Some? ==> (r.value.action.Some? <==> anim.value.action.Some?)
    ensures anim.Some? && anim.value.action.Some? ==> r.value.action.value == Retimed(anim.value.action.value, t)
  {
    match anim
    case None => None
    case Some(AnimData(None)) => anim
    case Some(AnimData(Some(a))) => Some(AnimData(Some(Retimed(a, t))))
  }

  /** The object loop: objects with pass index 10 are skipped; the others
      have their action retimed. */
  function ObjectRetimed(o: Obj, t: int): (r: Obj)
    ensures r.kind == o.kind && r.passIndex == o.passIndex && r.materials == o.materials
    ensures o.passIndex == 10 ==> r == o
    ensures o.passIndex != 10 ==> r.anim == AnimRetimed(o.anim, t)
  {
    if o.passIndex == 10 then o else o.(anim := AnimRetimed(o.anim, t))
  }

  function LightRetimed(l: Light, t: int): (r: Light)
    ensures r.anim == AnimRetimed(l.anim, t)
  {
    Light(AnimRetimed(l.anim, t))
  }

  /** The shape-key loop stops with an AttributeError at shape keys that
      have animation data without an action. */
  predicate ShapeRaises(s: ShapeOwner)
  {
    s.shapeKeys.Some? && s.shapeKeys.value.anim.Some? && s.shapeKeys.value.anim.value.action.None?
  }

  function ShapeRetimed(s: ShapeOwner, t: int): (r: ShapeOwner)
    requires !ShapeRaises(s)
    ensures s.shapeKeys.None? ==> r == s
    ensures s.shapeKeys.Some? ==> r.shapeKeys == Some(ShapeKeys(AnimRetimed(s.shapeKeys.value.anim, t)))
  {
    match s.shapeKeys
    case None => s
    case Some(keys) => ShapeOwner(Some(ShapeKeys(AnimRetimed(keys.anim, t))))
  }

  /** A material slot after the shader-node loop: materials using nodes have
      their node tree's action retimed. */
  function MaterialRetimed(m: Option<Material>, t: int): (r: Option<Material>)
    ensures m.None? ==> r.None?
    ensures m.Some? ==> r.Some? && r.value.useNodes == m.value.useNodes
    ensures m.Some? && !m.value.useNodes ==> r == m
    ensures m.Some? && m.value.useNodes ==> r.value.treeAnim == AnimRetimed(m.value.treeAnim, t)
  {
    if m.None? || !m.value.useNodes then m
    else Some(m.value.(treeAnim := AnimRetimed(m.value.treeAnim, t)))
  }

  /** The shader-node loop on one object: only mesh objects, whatever their
      pass index. */
  function MaterialsRetimed(o: Obj, t: int): (r: Obj)
    ensures r.kind == o.kind && r.passIndex == o.passIndex && r.anim == o.anim
    ensures |r.materials| == |o.materials|
    ensures o.kind != Mesh ==> r == o
    ensures o.kind == Mesh ==> forall i :: 0 <= i < |o.materials| ==> r.materials[i] == MaterialRetimed(o.materials[i], t)
  {
    if o.kind != Mesh then o
    else o.(materials := seq(|o.materials|, i requires 0 <= i < |o.materials| => MaterialRetimed(o.materials[i], t)))
  }

  /** What the whole operator does to one object. */
  function ObjectStarted(o: Obj, t: int): Obj
  {
    MaterialsRetimed(ObjectRetimed(o, t), t)
  }

  lemma AnimRetimedIdempotent(anim: Option<AnimData>, t: int)
    ensures AnimRetimed(AnimRetimed(anim, t), t) == AnimRetimed(anim, t)
  {
    if anim.Some? && anim.value.action.Some? {
      RetimedIdempotent(anim.value.action.value, t);
    }
  }

  /** Running the operator twice with the same target frame leaves an object
      as one run did; only keyframe frames change, never their values. */
  lemma ObjectStartedIdempotent(o: Obj, t: int)
    ensures ObjectStarted(ObjectStarted(o, t), t) == ObjectStarted(o, t)
  {
    var once := ObjectStarted(o, t);
    AnimRetimedIdempotent(o.anim, t);
    if o.kind == Mesh {
      forall i | 0 <= i < |o.materials|
        ensures MaterialRetimed(once.materials[i], t) == once.materials[i]
      {
        if o.materials[i].Some? && o.materials[i].value.useNodes {
          AnimRetimedIdempotent(o.materials[i].value.treeAnim, t);
        }
      }
    }
  }

  lemma ShapeRetimedIdempotent(s: ShapeOwner, t: int)
    requires !ShapeRaises(s)
    ensures !ShapeRaises(ShapeRetimed(s, t)) && ShapeRetimed(ShapeRetimed(s, t), t) == ShapeRetimed(s, t)
  {
    if s.shapeKeys.Some? {
      AnimRetimedIdempotent(s.shapeKeys.value.anim, t);
    }
  }

  /** The loop over one mesh's material slots. */
  method RetimeSlots(slots: seq<Option<Material>>, t: int) returns (r: seq<Option<Material>>)
    ensures |r| == |slots|
    ensures forall m :: 0 <= m < |slots| ==> r[m] == MaterialRetimed(slots[m], t)
  {
    r := slots;
    var j := 0;
    while j < |r|
      invariant 0 <= j <= |r| == |slots|
      invariant forall m :: 0 <= m < j ==> r[m] == MaterialRetimed(slots[m], t)
      invariant forall m :: j <= m < |r| ==> r[m] == slots[m]
    {
      var mat := r[j];
      if mat.Some? && mat.value.useNodes && mat.value.treeAnim.Some? && mat.value.treeAnim.value.action.Some? {
        var action := RetimeAction(mat.value.treeAnim.value.action.value, t);
        r := r[j := Some(mat.value.(treeAnim := Some(AnimData(Some(action)))))];
      }
      j := j + 1;
    }
  }

  /** The first k shape owners are retimed and the rest untouched. */
  predicate ShapesRetimedUpTo(now: seq<ShapeOwner>, before: seq<ShapeOwner>, k: int, t: int)
  {
    0 <= k <= |before| == |now| &&
    (forall i :: 0 <= i < k ==> !ShapeRaises(before[i]) && now[i] == ShapeRetimed(before[i], t)) &&
    (forall i :: k <= i < |now| ==> now[i] == before[i])
  }

  /** The data the operator walks over: bpy.data's objects, lights, meshes
      and curves, and the scene's current frame. */
  class BlendData {
    var objects: seq<Obj>
    var lights: seq<Light>
    var meshes: seq<ShapeOwner>
    var curves: seq<ShapeOwner>
    var frameCurrent: int

    constructor(objects: seq<Obj>, lights: seq<Light>, meshes: seq<ShapeOwner>, curves: seq<ShapeOwner>, frameCurrent: int)
      ensures this.objects == objects && this.lights == lights && this.meshes == meshes
      ensures this.curves == curves && this.frameCurrent == frameCurrent
    {
      this.objects := objects;
      this.lights := lights;
      this.meshes := meshes;
      this.curves := curves;
      this.frameCurrent := frameCurrent;
    }

    /** The OBJECTS loop. */
    method RetimeObjects(t: int)
      modifies this
      ensures |objects| == |old(objects)|
      ensures forall i :: 0 <= i < |objects| ==> objects[i] == ObjectRetimed(old(objects)[i], t)
      ensures lights == old(lights) && meshes == old(meshes) && curves == old(curves)
      ensures frameCurrent == old(frameCurrent)
    {
      var k := 0;
      while k < |objects|
        invariant 0 <= k <= |objects| == |old(objects)|
        invariant forall i :: 0 <= i < k ==> objects[i] == ObjectRetimed(old(objects)[i], t)
        invariant forall i :: k <= i < |objects| ==> objects[i] == old(objects)[i]
        invariant lights == old(lights) && meshes == old(meshes) && curves == old(curves)
        invariant frameCurrent == old(frameCurrent)
      {
        var ob := objects[k];
        if ob.passIndex != 10 && ob.anim.Some? && ob.anim.value.action.Some? {
          var action := RetimeAction(ob.anim.value.action.value, t);
          objects := objects[k := ob.(anim := Some(AnimData(Some(action))))];
        }
        k := k + 1;
      }
    }

    /** The LAMPS loop. */
    method RetimeLights(t: int)
      modifies this
      ensures |lights| == |old(lights)|
      ensures forall i :: 0 <= i < |lights| ==> lights[i] == LightRetimed(old(lights)[i], t)
      ensures objects == old(objects) && meshes == old(meshes) && curves == old(curves)
      ensures frameCurrent == old(frameCurrent)
    {
      var k := 0;
      while k < |lights|
        invariant 0 <= k <= |lights| == |old(lights)|
        invariant forall i :: 0 <= i < k ==> lights[i] == LightRetimed(old(lights)[i], t)
        invariant forall i :: k <= i < |lights| ==> lights[i] == old(lights)[i]
        invariant objects == old(objects) && meshes == old(meshes) && curves == old(curves)
        invariant frameCurrent == old(frameCurrent)
      {
        var l := lights[k];
        if l.anim.Some? && l.anim.value.action.Some? {
          var action := RetimeAction(l.anim.value.action.value, t);
          lights := lights[k := Light(Some(AnimData(Some(action))))];
        }
        k := k + 1;
      }
    }

    /** The SHAPEKEYS loop over the meshes followed by the curves; ok is false
        when it stops at shape keys whose animation data has no action, with
        the owners before it retimed and the rest untouched. */
    method RetimeShapeKeys(t: int) returns (ok: bool)
      modifies this
      ensures |meshes| == |old(meshes)| && |curves| == |old(curves)|
      ensures ok <==> forall i :: 0 <= i < |old(meshes) + old(curves)| ==> !ShapeRaises((old(meshes) + old(curves))[i])
      ensures ok ==> ShapesRetimedUpTo(meshes + curves, old(meshes) + old(curves), |meshes + curves|, t)
      ensures !ok ==> exists k :: (ShapesRetimedUpTo(meshes + curves, old(meshes) + old(curves), k, t) &&
        k < |meshes + curves| && ShapeRaises((old(meshes) + old(curves))[k]))
      ensures objects == old(objects) && lights == old(lights) && frameCurrent == old(frameCurrent)
    {
      var shapes := meshes + curves;
      ghost var before := shapes;
      var k := 0;
      ok := true;
      while k < |shapes|
        invariant ShapesRetimedUpTo(shapes, before, k, t)
        invariant objects == old(objects) && lights == old(lights) && frameCurrent == old(frameCurrent)
        invariant meshes == old(meshes) && curves == old(curves)
      {
        var me := shapes[k];
        if me.shapeKeys.Some? && me.shapeKeys.value.anim.Some? {
          if me.shapeKeys.value.anim.value.action.None? {
            ok := false;
            break;
          }
          var action := RetimeAction(me.shapeKeys.value.anim.value.action.value, t);
          shapes := shapes[k := ShapeOwner(Some(ShapeKeys(Some(AnimData(Some(action))))))];
        }
        k := k + 1;
      }
      var n := |meshes|;
      meshes := shapes[..n];
      curves := shapes[n..];
      assert meshes + curves == shapes;
    }

    /** The SHADERNODES loop. */
    method RetimeMaterials(t: int)
      modifies this
      ensures |objects| == |old(objects)|
      ensures forall i :: 0 <= i < |objects| ==> objects[i] == MaterialsRetimed(old(objects)[i], t)
      ensures lights == old(lights) && meshes == old(meshes) && curves == old(curves)
      ensures frameCurrent == old(frameCurrent)
    {
      var objs := objects;
      var k := 0;
      while k < |objs|
        invariant 0 <= k <= |objs| == |objects|
        invariant forall i :: 0 <= i < k ==> objs[i] == MaterialsRetimed(objects[i], t)
        invariant forall i :: k <= i < |objs| ==> objs[i] == objects[i]
        invariant objects == old(objects) && lights == old(lights) && meshes == old(meshes) && curves == old(curves)
        invariant frameCurrent == old(frameCurrent)
      {
        var ob := objs[k];
        if ob.kind == Mesh {
          var materials := RetimeSlots(ob.materials, t);
          assert materials == MaterialsRetimed(ob, t).materials;
          objs := objs[k := ob.(materials := materials)];
        }
        k := k + 1;
      }
      objects := objs;
    }

    /** VP_OT_action_starter.execute: ok is false when the shape-key loop
        raised, in which case the shape keys are retimed up to the raising
        owner and the shader-node loop has not run. */
    method ActionStarter(forceReset: bool) returns (ok: bool)
      modifies this
      ensures frameCurrent == old(frameCurrent)
      ensures var t := TargetFrame(forceReset, old(frameCurrent));
        |objects| == |old(objects)| && |lights| == |old(lights)| &&
        |meshes| == |old(meshes)| && |curves| == |old(curves)| &&
        (forall i :: 0 <= i < |lights| ==> lights[i] == LightRetimed(old(lights)[i], t)) &&
        (ok <==> forall i :: 0 <= i < |old(meshes) + old(curves)| ==> !ShapeRaises((old(meshes) + old(curves))[i])) &&
        (ok ==> ShapesRetimedUpTo(meshes + curves, old(meshes) + old(curves), |meshes + curves|, t)) &&
        (!ok ==> exists k :: (ShapesRetimedUpTo(meshes + curves, old(meshes) + old(curves), k, t) &&
          k < |meshes + curves| && ShapeRaises((old(meshes) + old(curves))[k]))) &&
        (ok ==> forall i :: 0 <= i < |objects| ==> objects[i] == ObjectStarted(old(objects)[i], t)) &&
        (!ok ==> forall i :: 0 <= i < |objects| ==> objects[i] == ObjectRetimed(old(objects)[i], t))
    {
      var frame;
      if !forceReset {
        frame := frameCurrent;
      } else {
        frame := ResetFrame;
      }
      RetimeObjects(frame);
      RetimeLights(frame);
      ok := RetimeShapeKeys(frame);
      if !ok {
        return;
      }
      RetimeMaterials(frame);
    }
  }
}
