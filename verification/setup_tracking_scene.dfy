/** setup_tracking_scene_new.py: the decisions the tracking-scene setup takes
    before and around creating host data: whether the tracking camera has lens
    distortion, which camera belongs to a clip, whether the compositor needs
    setting up, which nodes and collections already exist, and the index layout
    of the meshes it builds. */
module SetupTrackingScene {
  import opened Wrappers

  // ----- check_camera_has_distortion -----

  datatype DistortionModel = Polynomial | Division | Nuke | Brown

  datatype TrackingCamera = TrackingCamera(
    model: DistortionModel, k1: real, k2: real, k3: real, divisionK1: real, divisionK2: real)

  /** `all(k == 0 for k in ks)`. */
  predicate AllZero(ks: seq<real>)
  {
    forall k :: 0 <= k < |ks| ==> ks[k] == 0.0
  }

  /** check_camera_has_distortion: a polynomial model with a non-zero k1, k2 or
      k3, or a division model with a non-zero division_k1 or division_k2; any
      other model has none. */
  function HasDistortion(camera: TrackingCamera): (r: bool)
    ensures r <==>
      (camera.model == Polynomial && (camera.k1 != 0.0 || camera.k2 != 0.0 || camera.k3 != 0.0)) ||
      (camera.model == Division && (camera.divisionK1 != 0.0 || camera.divisionK2 != 0.0))
  {
    match camera.model
    case Polynomial =>
      var ks := [camera.k1, camera.k2, camera.k3];
      assert ks[0] == camera.k1 && ks[1] == camera.k2 && ks[2] == camera.k3;
      !AllZero(ks)
    case Division =>
      var ks := [camera.divisionK1, camera.divisionK2];
      assert ks[0] == camera.divisionK1 && ks[1] == camera.divisionK2;
      !AllZero(ks)
    case _ => false
  }

  // ----- CLIP_camera_for_clip and CLIP_findOrCreateCamera -----

  datatype ObjectType = CameraObject | MeshObject | LightObject | EmptyObject

  datatype ConstraintType = CameraSolver | ObjectSolver | FollowTrack | OtherConstraint

  /** A constraint; `clip` is the clip it names, by clip id. */
  datatype Constraint = Constraint(kind: ConstraintType, useActiveClip: bool, clip: Option<nat>)

  datatype SceneObject = SceneObject(name: string, kind: ObjectType, constraints: seq<Constraint>)

  /** The clip a camera-solver constraint follows: the scene's active clip when
      use_active_clip is set, its own clip otherwise. */
  function ConstraintClip(con: Constraint, activeClip: Option<nat>): Option<nat>
  {
    if con.useActiveClip then activeClip else con.clip
  }

  /** A camera-solver constraint of the list that follows `clip`. */
  predicate SolvesFor(cons: seq<Constraint>, clip: nat, activeClip: Option<nat>)
  {
    exists k :: 0 <= k < |cons| && cons[k].kind == CameraSolver && ConstraintClip(cons[k], activeClip) == Some(clip)
  }

  /** The loop over the constraints of one camera object. */
  function HasSolverFor(cons: seq<Constraint>, clip: nat, activeClip: Option<nat>): (r: bool)
    ensures r <==> SolvesFor(cons, clip, activeClip)
  {
    if cons == [] then false
    else if cons[0].kind == CameraSolver && ConstraintClip(cons[0], activeClip) == Some(clip) then true
    else
      var rest := HasSolverFor(cons[1..], clip, activeClip);
      assert SolvesFor(cons[1..], clip, activeClip) ==> SolvesFor(cons, clip, activeClip) by {
        if SolvesFor(cons[1..], clip, activeClip) {
          var k :| 0 <= k < |cons| - 1 && cons[1..][k].kind == CameraSolver &&
            ConstraintClip(cons[1..][k], activeClip) == Some(clip);
          assert cons[k + 1] == cons[1..][k];
        }
      }
      rest
  }

  /** The outer loop of CLIP_camera_for_clip from object i on: the index of the
      first camera object with a camera-solver constraint following `clip`, or
      the scene camera when there is none. */
  function CameraForClipFrom(objects: seq<SceneObject>, i: nat, clip: nat, activeClip: Option<nat>,
                             sceneCamera: Option<nat>): (r: Option<nat>)
    ensures (exists j :: i <= j < |objects| && objects[j].kind == CameraObject && SolvesFor(objects[j].constraints, clip, activeClip)) ==>
      r.Some? && i <= r.value < |objects| && objects[r.value].kind == CameraObject &&
      SolvesFor(objects[r.value].constraints, clip, activeClip) &&
      forall j :: i <= j < r.value ==> !(objects[j].kind == CameraObject && SolvesFor(objects[j].constraints, clip, activeClip))
    ensures !(exists j :: i <= j < |objects| && objects[j].kind == CameraObject && SolvesFor(objects[j].constraints, clip, activeClip)) ==>
      r == sceneCamera
    decreases |objects| - i
  {
    if i >= |objects| then sceneCamera
    else if objects[i].kind == CameraObject && HasSolverFor(objects[i].constraints, clip, activeClip) then Some(i)
    else CameraForClipFrom(objects, i + 1, clip, activeClip, sceneCamera)
  }

  /** The objects of a scene, the scene camera and the active clip, with the
      objects the setup links into the scene collection. */
  class SceneObjects {
    var objects: seq<SceneObject>
    var camera: Option<nat>
    var activeClip: Option<nat>

    predicate Valid()
      reads this
    {
      camera.Some? ==> camera.value < |objects|
    }

    constructor(objects: seq<SceneObject>, camera: Option<nat>, activeClip: Option<nat>)
      requires camera.Some? ==> camera.value < |objects|
      ensures this.objects == objects && this.camera == camera && this.activeClip == activeClip
      ensures Valid()
    {
      this.objects := objects;
      this.camera := camera;
      this.activeClip := activeClip;
    }

    /** CLIP_camera_for_clip. */
    function CameraForClip(clip: nat): (r: Option<nat>)
      reads this
      requires Valid()
      ensures r.Some? ==> r.value < |objects|
    {
      CameraForClipFrom(objects, 0, clip, activeClip, camera)
    }

    /** CLIP_findOrCreateCamera: the scene camera when there is one; otherwise
        a new camera object named "Camera" is linked to the scene and becomes
        the scene camera. */
    method FindOrCreateCamera() returns (cam: nat)
      requires Valid()
      modifies this
      ensures Valid() && camera == Some(cam) && activeClip == old(activeClip)
      ensures old(camera).Some? ==> cam == old(camera).value && objects == old(objects)
      ensures old(camera).None? ==>
        cam == |old(objects)| && objects == old(objects) + [SceneObject("Camera", CameraObject, [])]
    {
      if camera.Some? {
        return camera.value;
      }
      objects := objects + [SceneObject("Camera", CameraObject, [])];
      cam := |objects| - 1;
      camera := Some(cam);
    }
  }

  /** Finding or creating twice gives the same camera as once and links at
      most one new object. A method, not a lemma, because it states a
      property of two calls of the method FindOrCreateCamera. */
  method FindOrCreateTwice(s: SceneObjects) returns (first: nat, second: nat)
    requires s.Valid()
    modifies s
    ensures first == second && |s.objects| <= |old(s.objects)| + 1
  {
    first := s.FindOrCreateCamera();
    second := s.FindOrCreateCamera();
  }

  // ----- createCollection and collection_in_collection -----

  /** A collection with its identity, the library flag and its children. */
  datatype Collection = Collection(id: nat, name: string, library: bool, children: seq<Collection>)

  /** The identities in a collection tree, its own included. */
  function Ids(c: Collection): set<nat>
    decreases c
  {
    {c.id} + ChildIds(c.children)
  }

  function ChildIds(cs: seq<Collection>): set<nat>
    decreases cs
  {
    if cs == [] then {} else Ids(cs[0]) + ChildIds(cs[1..])
  }

  /** collection_in_collection: truthy exactly when the collection is below the
      queried one at any depth (the queried collection itself does not count). */
  function InCollection(id: nat, query: Collection): (r: bool)
    ensures r <==> id in ChildIds(query.children)
    decreases query, 1
  {
    InChildren(id, query.children)
  }

  /** The loop over the children: a child that is the collection, or that has
      it below it. */
  function InChildren(id: nat, cs: seq<Collection>): (r: bool)
    ensures r <==> id in ChildIds(cs)
    decreases cs, 0
  {
    if cs == [] then false
    else if id == cs[0].id then true
    else if InCollection(id, cs[0]) then true
    else InChildren(id, cs[1..])
  }

  /** createCollection: a library collection of that name does not count; with
      none, a new local collection is linked below the scene collection; an
      existing one is linked there only when it is not already below it. */
  function CreateCollection(master: Collection, existing: Option<Collection>, name: string, newId: nat): (r: Collection)
    ensures r.id == master.id && r.name == master.name && r.library == master.library
    ensures var linked := if existing.Some? && !existing.value.library then existing.value
                          else Collection(newId, name, false, []);
      linked.id in ChildIds(r.children) &&
      (r.children == master.children || r.children == master.children + [linked]) &&
      (existing.Some? && !existing.value.library && existing.value.id in ChildIds(master.children) ==> r == master)
    // a missing or library-only collection is always created anew and linked,
    // whatever ids the scene already holds
    ensures existing.None? || existing.value.library ==>
      r.children == master.children + [Collection(newId, name, false, [])]
    ensures existing.Some? && !existing.value.library && existing.value.id !in ChildIds(master.children) ==>
      r.children == master.children + [existing.value]
    // a fresh id is below the master only afterwards
    ensures (existing.None? || existing.value.library) && newId !in ChildIds(master.children) ==>
      newId in ChildIds(r.children) - ChildIds(master.children)
  {
    var collection := if existing.Some? && !existing.value.library then existing else None;
    match collection
    case None =>
      var created := Collection(newId, name, false, []);
      ChildIdsAppend(master.children, created);
      master.(children := master.children + [created])
    case Some(c) =>
      if InCollection(c.id, master) then master
      else
        ChildIdsAppend(master.children, c);
        master.(children := master.children + [c])
  }

  lemma {:induction false} ChildIdsAppend(cs: seq<Collection>, c: Collection)
    ensures ChildIds(cs + [c]) == ChildIds(cs) + Ids(c)
    decreases |cs|
  {
    if cs == [] {
      assert [c][1..] == [];
    } else {
      assert (cs + [c])[1..] == cs[1..] + [c];
      ChildIdsAppend(cs[1..], c);
    }
  }

  /** Creating the same collection a second time changes nothing. */
  lemma CreateCollectionTwice(master: Collection, existing: Collection, name: string, newId: nat)
    requires !existing.library
    ensures var once := CreateCollection(master, Some(existing), name, newId);
      CreateCollection(once, Some(existing), name, newId) == once
  {
  }

  // ----- compositor nodes -----

  datatype NodeType =
    | Composite | RenderLayers | MovieClipNode | MovieDistortion | Scale | AlphaOver | Viewer | OtherNode(code: nat)

  datatype Location = Location(x: real, y: real)

  datatype Node = Node(kind: NodeType, location: Location)

  /** The value of a node's `type` attribute. OtherNode stands for any node
      type the add-on does not name. */
  function TypeName(kind: NodeType): string
  {
    match kind
    case Composite => "COMPOSITE"
    case RenderLayers => "R_LAYERS"
    case MovieClipNode => "MOVIECLIP"
    case MovieDistortion => "MOVIEDISTORTION"
    case Scale => "SCALE"
    case AlphaOver => "ALPHAOVER"
    case Viewer => "VIEWER"
    case OtherNode(_) => "OTHER"
  }

  /** The identifier `nodes.new` takes to create a node of the kind. */
  function IdName(kind: NodeType): string
  {
    match kind
    case Composite => "CompositorNodeComposite"
    case RenderLayers => "CompositorNodeRLayers"
    case MovieClipNode => "CompositorNodeMovieClip"
    case MovieDistortion => "CompositorNodeMovieDistortion"
    case Scale => "CompositorNodeScale"
    case AlphaOver => "CompositorNodeAlphaOver"
    case Viewer => "CompositorNodeViewer"
    case OtherNode(_) => "CompositorNodeOther"
  }

  /** A creation identifier is never the `type` of a node: the types are
      upper-case words, the identifiers are CamelCase. */
  lemma IdNameIsNoTypeName(a: NodeType, b: NodeType)
    ensures TypeName(a) != IdName(b)
  {
    assert IdName(b)[1] == 'o';
    assert TypeName(a)[1] != 'o';
  }

  /** The two node types of a default compositor tree, in either order. */
  predicate IsDefaultPair(a: NodeType, b: NodeType)
  {
    (a == Composite && b == RenderLayers) || (a == RenderLayers && b == Composite)
  }

  /** _findNode: the index of the first node whose `type` is the given
      string. */
  function FindNode(nodes: seq<Node>, typeName: string): (r: Option<nat>)
    ensures r.Some? ==> (r.value < |nodes| && TypeName(nodes[r.value].kind) == typeName &&
      forall k :: 0 <= k < r.value ==> TypeName(nodes[k].kind) != typeName)
    ensures r.None? ==> forall k :: 0 <= k < |nodes| ==> TypeName(nodes[k].kind) != typeName
  {
    if nodes == [] then None
    else if TypeName(nodes[0].kind) == typeName then Some(0)
    else match FindNode(nodes[1..], typeName)
      case None => None
      case Some(k) => Some(k + 1)
  }

  /** The lookup _setupNodes makes through _findOrCreateNode passes a creation
      identifier, which no node's `type` equals: it never finds a node. */
  lemma FindByIdNameFails(nodes: seq<Node>, kind: NodeType)
    ensures FindNode(nodes, IdName(kind)).None?
  {
    forall k | 0 <= k < |nodes|
      ensures TypeName(nodes[k].kind) != IdName(kind)
    {
      IdNameIsNoTypeName(nodes[k].kind, kind);
    }
  }

  /** A tree left with a render-layers, a composite and a viewer node (one
      _wipeDefaultNodes keeps): the lookup by `type` would find the render
      layers node, the lookup by creation identifier finds nothing, so
      _setupNodes adds a second one. */
  lemma FindOrCreateDuplicates()
    ensures var nodes := [Node(RenderLayers, Location(0.0, 0.0)), Node(Composite, Location(0.0, 0.0)),
                          Node(Viewer, Location(0.0, 0.0))];
      FindNode(nodes, TypeName(RenderLayers)) == Some(0) && FindNode(nodes, IdName(RenderLayers)).None?
  {
    var nodes := [Node(RenderLayers, Location(0.0, 0.0)), Node(Composite, Location(0.0, 0.0)),
                  Node(Viewer, Location(0.0, 0.0))];
    FindByIdNameFails(nodes, RenderLayers);
  }

  /** _needSetupNodes: no node tree, or none of its nodes is a movie clip or a
      movie distortion node. */
  function NeedSetupNodes(tree: Option<seq<Node>>): (r: bool)
    ensures r <==> (tree.None? ||
      forall k :: 0 <= k < |tree.value| ==> tree.value[k].kind != MovieClipNode && tree.value[k].kind != MovieDistortion)
  {
    match tree
    case None => true
    case Some(nodes) => FindNode(nodes, "MOVIECLIP").None? && FindNode(nodes, "MOVIEDISTORTION").None?
  }

  /** The offset _offsetNodes moves a node by. */
  const Nudge := Location(40.0, 20.0)

  function Shifted(l: Location, times: nat): Location
  {
    Location(l.x + times as real * Nudge.x, l.y + times as real * Nudge.y)
  }

  /** The inner loop of _offsetNodes for node a, from node b on: every other
      node standing on a's location at the moment it is looked at moves by
      (40, 20). */
  function OffsetRow(nodes: seq<Node>, a: nat, b: nat): (r: seq<Node>)
    requires a < |nodes|
    ensures |r| == |nodes|
    decreases |nodes| - b
  {
    if b >= |nodes| then nodes
    else if a != b && nodes[a].location == nodes[b].location
    then OffsetRow(nodes[b := nodes[b].(location := Shifted(nodes[b].location, 1))], a, b + 1)
    else OffsetRow(nodes, a, b + 1)
  }

  /** The outer loop of _offsetNodes from node a on. */
  function OffsetFrom(nodes: seq<Node>, a: nat): (r: seq<Node>)
    ensures |r| == |nodes|
    decreases |nodes| - a
  {
    if a >= |nodes| then nodes else OffsetFrom(OffsetRow(nodes, a, 0), a + 1)
  }

  /** The tree a node of the compositor lives in. */
  class NodeTree {
    var nodes: seq<Node>

    constructor(nodes: seq<Node>)
      ensures this.nodes == nodes
    {
      this.nodes := nodes;
    }

    /** _wipeDefaultNodes: a tree of exactly a composite and a render-layers
        node is emptied one node at a time; any other tree is left alone. */
    method WipeDefaultNodes()
      modifies this
      ensures |old(nodes)| == 2 && IsDefaultPair(old(nodes)[0].kind, old(nodes)[1].kind) ==> nodes == []
      ensures !(|old(nodes)| == 2 && IsDefaultPair(old(nodes)[0].kind, old(nodes)[1].kind)) ==> nodes == old(nodes)
    {
      if |nodes| != 2 {
        return;
      }
      if IsDefaultPair(nodes[0].kind, nodes[1].kind) {
        while nodes != []
          decreases |nodes|
        {
          nodes := nodes[1..];
        }
      }
    }

    /** _findOrCreateNode as _setupNodes calls it: the argument is the
        creation identifier of the kind, the lookup compares it with each
        node's `type`, finds nothing, and a new node of the kind is appended
        at the origin every time. */
    method FindOrCreateNode(kind: NodeType) returns (index: nat)
      modifies this
      ensures nodes == old(nodes) + [Node(kind, Location(0.0, 0.0))]
      ensures index == |old(nodes)| && nodes[index].kind == kind
    {
      var found := FindNode(nodes, IdName(kind));
      FindByIdNameFails(nodes, kind);
      if found.Some? {
        assert false;
      } else {
        nodes := nodes + [Node(kind, Location(0.0, 0.0))];
        index := |nodes| - 1;
      }
    }

    /** _findOrCreateNode as intended, looking up the kind's `type`: the first
        node of that type, or a new one at the origin appended to the tree
        when there is none. */
    method FindOrCreateNodeIntended(kind: NodeType) returns (index: nat)
      modifies this
      ensures index < |nodes| && TypeName(nodes[index].kind) == TypeName(kind)
      ensures FindNode(nodes, TypeName(kind)) == Some(index)
      ensures old(FindNode(nodes, TypeName(kind))).Some? ==>
        nodes == old(nodes) && index == old(FindNode(nodes, TypeName(kind))).value
      ensures old(FindNode(nodes, TypeName(kind))).None? ==> nodes == old(nodes) + [Node(kind, Location(0.0, 0.0))]
    {
      var found := FindNode(nodes, TypeName(kind));
      if found.Some? {
        return found.value;
      }
      nodes := nodes + [Node(kind, Location(0.0, 0.0))];
      index := |nodes| - 1;
      FindNodeAppend(old(nodes), Node(kind, Location(0.0, 0.0)));
    }

    /** _offsetNodes, with its nested loops over the live locations. */
    method OffsetNodes()
      modifies this
      ensures nodes == OffsetFrom(old(nodes), 0)
    {
      var a := 0;
      while a < |nodes|
        invariant 0 <= a <= |nodes|
        invariant OffsetFrom(nodes, a) == OffsetFrom(old(nodes), 0)
      {
        ghost var row := nodes;
        var b := 0;
        while b < |nodes|
          invariant 0 <= b <= |nodes| && |nodes| == |row|
          invariant OffsetRow(nodes, a, b) == OffsetRow(row, a, 0)
        {
          if a != b && nodes[a].location == nodes[b].location {
            nodes := nodes[b := nodes[b].(location := Shifted(nodes[b].location, 1))];
          }
          b := b + 1;
        }
        a := a + 1;
      }
    }
  }

  lemma FindNodeAppend(nodes: seq<Node>, n: Node)
    requires FindNode(nodes, TypeName(n.kind)).None?
    ensures FindNode(nodes + [n], TypeName(n.kind)) == Some(|nodes|)
  {
    var r := FindNode(nodes + [n], TypeName(n.kind));
    assert (nodes + [n])[|nodes|].kind == n.kind;
    assert r.Some?;
    assert forall k :: 0 <= k < |nodes| ==> (nodes + [n])[k] == nodes[k];
  }

  /** _offsetNodes only moves nodes, each by a whole number of (40, 20) steps,
      at most once per other node, and never changes a node's type. */
  lemma {:induction false} OffsetRowMoves(nodes: seq<Node>, a: nat, b: nat)
    requires a < |nodes|
    ensures var r := OffsetRow(nodes, a, b);
      forall j :: 0 <= j < |nodes| ==> (r[j].kind == nodes[j].kind &&
        (r[j].location == nodes[j].location || (b <= j && j != a && r[j].location == Shifted(nodes[j].location, 1))))
    decreases |nodes| - b
  {
    if b < |nodes| {
      if a != b && nodes[a].location == nodes[b].location {
        OffsetRowMoves(nodes[b := nodes[b].(location := Shifted(nodes[b].location, 1))], a, b + 1);
      } else {
        OffsetRowMoves(nodes, a, b + 1);
      }
    }
  }

  /** `moved` is `start` nudged by (40, 20) at most `bound` times. */
  predicate NudgedWithin(start: Location, moved: Location, bound: int)
  {
    exists k: nat :: k <= bound && moved == Shifted(start, k)
  }

  lemma {:induction false} OffsetFromMoves(nodes: seq<Node>, a: nat)
    requires a <= |nodes|
    ensures var r := OffsetFrom(nodes, a);
      forall j :: 0 <= j < |nodes| ==>
        r[j].kind == nodes[j].kind && NudgedWithin(nodes[j].location, r[j].location, |nodes| - a)
    decreases |nodes| - a
  {
    var r := OffsetFrom(nodes, a);
    if a >= |nodes| {
      forall j | 0 <= j < |nodes|
        ensures NudgedWithin(nodes[j].location, r[j].location, |nodes| - a)
      {
        assert r[j].location == Shifted(nodes[j].location, 0);
      }
    } else {
      var row := OffsetRow(nodes, a, 0);
      assert r == OffsetFrom(row, a + 1);
      OffsetRowMoves(nodes, a, 0);
      OffsetFromMoves(row, a + 1);
      forall j | 0 <= j < |nodes|
        ensures r[j].kind == nodes[j].kind && NudgedWithin(nodes[j].location, r[j].location, |nodes| - a)
      {
        assert r[j].kind == row[j].kind == nodes[j].kind;
        var k: nat :| k <= |nodes| - (a + 1) && r[j].location == Shifted(row[j].location, k);
        if row[j].location == nodes[j].location {
          assert r[j].location == Shifted(nodes[j].location, k);
        } else {
          assert r[j].location == Shifted(nodes[j].location, k + 1);
        }
      }
    }
  }

  /** A row pass leaves the nodes alone when no later node shares the
      location of the node being placed. */
  lemma {:induction false} OffsetRowNoMatch(nodes: seq<Node>, a: nat, b: nat)
    requires a < |nodes|
    requires forall j :: b <= j < |nodes| && j != a ==> nodes[j].location != nodes[a].location
    ensures OffsetRow(nodes, a, b) == nodes
    decreases |nodes| - b
  {
    if b < |nodes| {
      OffsetRowNoMatch(nodes, a, b + 1);
    }
  }

  /** Four nodes for which _offsetNodes ends with two nodes on one location:
      moving node 3 onto node 1 sends node 1 onto node 0, whose turn has
      passed. */
  lemma OffsetNodesCanCollide()
    ensures var nodes := [Node(Viewer, Location(80.0, 40.0)), Node(Scale, Location(40.0, 20.0)),
                          Node(AlphaOver, Location(0.0, 0.0)), Node(Composite, Location(0.0, 0.0))];
      var r := OffsetFrom(nodes, 0);
      r[0].location == r[1].location
  {
    var n0 := Node(Viewer, Location(80.0, 40.0));
    var n1 := Node(Scale, Location(40.0, 20.0));
    var n2 := Node(AlphaOver, Location(0.0, 0.0));
    var n3 := Node(Composite, Location(0.0, 0.0));
    var nodes := [n0, n1, n2, n3];
    OffsetRowNoMatch(nodes, 0, 0);
    OffsetRowNoMatch(nodes, 1, 0);
    var m3 := n3.(location := Location(40.0, 20.0));
    var row2 := [n0, n1, n2, m3];
    OffsetRowNoMatch(row2, 2, 4);
    assert nodes[3 := nodes[3].(location := Shifted(nodes[3].location, 1))] == row2;
    assert OffsetRow(nodes, 2, 3) == row2;
    assert OffsetRow(nodes, 2, 0) == OffsetRow(nodes, 2, 1) == OffsetRow(nodes, 2, 2) == OffsetRow(nodes, 2, 3);
    var m1 := n1.(location := Location(80.0, 40.0));
    var row3 := [n0, m1, n2, m3];
    OffsetRowNoMatch(row3, 3, 2);
    assert row2[1 := row2[1].(location := Shifted(row2[1].location, 1))] == row3;
    assert OffsetRow(row2, 3, 1) == row3;
    assert OffsetRow(row2, 3, 0) == row3;
    assert OffsetFrom(nodes, 0) == OffsetFrom(nodes, 1) == OffsetFrom(nodes, 2) == OffsetFrom(row2, 3)
      == OffsetFrom(row3, 4) == row3;
  }

  // ----- meshes -----

  datatype Vertex = Vertex(x: real, y: real, z: real)

  /** _getPlaneVertices(half_size, z): the four corners of the square of side
      2 * half_size at height z, counter-clockwise seen from above. */
  function PlaneVertices(halfSize: real, z: real): (r: seq<Vertex>)
    ensures |r| == 4
    ensures forall k :: 0 <= k < 4 ==> (r[k].z == z && (r[k].x == halfSize || r[k].x == -halfSize) &&
      (r[k].y == halfSize || r[k].y == -halfSize))
  {
    [Vertex(-halfSize, -halfSize, z), Vertex(halfSize, -halfSize, z),
     Vertex(halfSize, halfSize, z), Vertex(-halfSize, halfSize, z)]
  }

  /** The shoelace sum of a polygon in the xy-plane: twice its signed area,
      positive exactly for a counter-clockwise polygon. */
  function TwiceSignedArea(ps: seq<Vertex>): real
  {
    ShoelaceFrom(ps, 0)
  }

  function ShoelaceFrom(ps: seq<Vertex>, k: nat): real
    decreases |ps| - k
  {
    if k >= |ps| then 0.0
    else
      var p := ps[k];
      var q := ps[(k + 1) % |ps|];
      p.x * q.y - q.x * p.y + ShoelaceFrom(ps, k + 1)
  }

  /** The polygon layout _createMesh writes: one quad per four face indices,
      starting at loop 0, 4, 8, ...; None when the number of indices is not a
      multiple of four, where `range(0, nbr_loops, 4)` has one more entry than
      there are polygons and foreach_set fails. */
  function LoopStarts(faces: seq<nat>): (r: Option<seq<nat>>)
    ensures r.Some? <==> |faces| % 4 == 0
    ensures r.Some? ==> (|r.value| == |faces| / 4 &&
      forall k :: 0 <= k < |r.value| ==> r.value[k] == 4 * k && r.value[k] + 4 <= |faces|)
  {
    var polys := |faces| / 4;
    var starts := seq((|faces| + 3) / 4, k => 4 * k);
    if |starts| != polys then None else Some(starts)
  }

  /** The plane corners run counter-clockwise: twice the signed area is
      8 * half_size^2, positive for every non-zero size. */
  lemma PlaneCounterClockwise(halfSize: real, z: real)
    ensures TwiceSignedArea(PlaneVertices(halfSize, z)) == 8.0 * halfSize * halfSize
    ensures halfSize != 0.0 ==> TwiceSignedArea(PlaneVertices(halfSize, z)) > 0.0
  {
    var ps := PlaneVertices(halfSize, z);
    var h := halfSize;
    assert ShoelaceFrom(ps, 4) == 0.0;
    assert ShoelaceFrom(ps, 3) == 2.0 * h * h;
    assert ShoelaceFrom(ps, 2) == 4.0 * h * h;
    assert ShoelaceFrom(ps, 1) == 6.0 * h * h;
    assert ShoelaceFrom(ps, 0) == 8.0 * h * h;
    if h != 0.0 {
      assert h * h > 0.0;
    }
  }

  /** A mesh whose every face index names one of its vertices. */
  predicate IndicesInRange(vertices: seq<Vertex>, faces: seq<nat>)
  {
    forall k :: 0 <= k < |faces| ==> faces[k] < |vertices|
  }

  /** The ground plane of _createGround. */
  function GroundFaces(): seq<nat> { [0, 1, 2, 3] }

  /** The cube of _createSampleObject: six quads over the eight corners of two
      planes at z = -1 and z = 1. */
  function CubeFaces(): seq<nat>
  {
    [0, 1, 2, 3,
     4, 7, 6, 5,
     0, 4, 5, 1,
     1, 5, 6, 2,
     2, 6, 7, 3,
     3, 7, 4, 0]
  }

  /** The ground is one quad, the cube six; every index names a vertex and
      every cube corner is used by some quad. */
  lemma SampleMeshesWellFormed()
    ensures var ground := PlaneVertices(4.0, 0.0);
      LoopStarts(GroundFaces()) == Some([0]) && IndicesInRange(ground, GroundFaces())
    ensures var cube := PlaneVertices(1.0, -1.0) + PlaneVertices(1.0, 1.0);
      |cube| == 8 && LoopStarts(CubeFaces()).Some? && |LoopStarts(CubeFaces()).value| == 6 &&
      IndicesInRange(cube, CubeFaces()) &&
      forall v :: 0 <= v < 8 ==> v in CubeFaces()
  {
    assert LoopStarts(GroundFaces()).value == [0];
    var faces := CubeFaces();
    assert faces[0] == 0 && faces[1] == 1 && faces[2] == 2 && faces[3] == 3;
    assert faces[4] == 4 && faces[5] == 7 && faces[6] == 6 && faces[7] == 5;
  }
}
