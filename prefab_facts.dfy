/**
 * What `UrhoExportPrefabs` (io_mesh_urho/prefabs.py) guarantees about the documents it writes:
 * the fixed layout of the scene prefab, the numbering of components and nodes in both passes,
 * the shape of the collective tree, and what happens to the files written before an early end.
 */
module PrefabFacts {
  import opened Wrappers
  import opened Text
  import opened Xml
  import opened Geometry
  import opened Components
  import opened Registry
  import opened Prefabs

  /** Some child of `items` is a component of type `t`. */
  predicate HasComponent(items: seq<Item>, t: string) {
    exists i :: 0 <= i < |items| && items[i].Component? && items[i].ctype == t
  }

  /**
   * The scene element starts with the octree (id 1) and the debug renderer (id 2), numbers its
   * components with increasing ids, and ends with the directional light node.
   */
  lemma SceneIds(o: SceneOptions)
    ensures var s := SceneComponents(o);
      && |s| >= 3
      && s[0] == Component("Octree", Some(1), []) && s[1] == Component("DebugRenderer", Some(2), [])
      && s[|s| - 1] == LightNode()
      && (forall i :: 0 <= i < |s| - 1 ==> s[i].Component? && s[i].cid.Some?)
      && (forall i, j :: 0 <= i < j < |s| - 1 ==> s[i].cid.value < s[j].cid.value)
  {
    var s := SceneComponents(o);
    var ids := [1, 2] + (if o.createSkybox then [4] else []) + (if o.navigation then [5] else [])
      + (if o.doPhysics && o.exportMode != "Props" then [6] else []);
    assert |s| == |ids| + 1;
    forall i | 0 <= i < |s| - 1 ensures s[i].Component? && s[i].cid == Some(ids[i]) {
    }
  }

  /** The skybox, the navigation mesh and the physics world are there exactly when their options ask for them. */
  lemma SceneOptional(o: SceneOptions)
    ensures HasComponent(SceneComponents(o), "Skybox") <==> o.createSkybox
    ensures HasComponent(SceneComponents(o), "NavigationMesh") <==> o.navigation
    ensures HasComponent(SceneComponents(o), "PhysicsWorld") <==> o.doPhysics && o.exportMode != "Props"
  {
    var s := SceneComponents(o);
    var sky := Opt(o.createSkybox, Component("Skybox", Some(4), [
        Attribute("Model", "Model;Models/Box.mdl"),
        Attribute("Material", "Material;" + o.skyboxPath)]));
    var nav := Opt(o.navigation, Component("NavigationMesh", Some(5), []));
    var phy := Opt(o.doPhysics && o.exportMode != "Props", Component("PhysicsWorld", Some(6), []));
    if o.createSkybox {
      assert s[2].ctype == "Skybox";
    }
    if o.navigation {
      assert s[2 + |sky|].ctype == "NavigationMesh";
    }
    if o.doPhysics && o.exportMode != "Props" {
      assert s[2 + |sky| + |nav|].ctype == "PhysicsWorld";
    }
  }

  /**
   * Splitting the Material attribute's value at ';' gives back the word Material and, per
   * material of the model, its registered path or an empty string, as long as no registered
   * path contains a ';'.
   */
  lemma MaterialAttribute(files: map<string, string>, pathType: string, mats: seq<SceneMaterial>)
    requires forall k :: k in files ==> ';' !in files[k]
    ensures Split("Material" + MaterialsText(files, pathType, mats), ';') == ["Material"] + MaterialPaths(files, pathType, mats)
    ensures forall i :: 0 <= i < |mats| ==>
      MaterialPaths(files, pathType, mats)[i] == (if Lookup(files, pathType, mats[i].name).Some? then Lookup(files, pathType, mats[i].name).value else "")
  {
    var paths := MaterialPaths(files, pathType, mats);
    forall i | 0 <= i < |paths| ensures ';' !in paths[i] {
      if Lookup(files, pathType, mats[i].name).Some? {
        assert pathType + mats[i].name.value in files;
      }
    }
    SplitPrefixed("Material", paths);
  }

  /** How many component ids a model of the scene uses: RigidBody and CollisionShape, Navigable, and its model component. */
  function Cost(x: ExportSettings, m: SceneModel): nat {
    var obj := ObjectOf(x, m);
    (if Physical(x, obj) then 2 else 0) + (if NavigableModel(obj, m) then 1 else 0) + 1
  }

  /**
   * A model's components are the RigidBody and CollisionShape when it is physical, a Navigable
   * when it asks for one, and always its model component last; they get consecutive ids, from
   * 0x1000000 for a physical model in pass 0 and from the running counter otherwise, and the
   * counter moves on past the last of them.
   */
  lemma NumberedIds(x: ExportSettings, m: SceneModel, physical: bool, navigable: bool,
                    body: seq<Item>, shape: seq<Item>, display: seq<Item>, compoId: int)
    ensures var parts := Numbered(x, m, physical, navigable, body, shape, display, compoId);
      var all := parts.physics + parts.navigable + [parts.model];
      var first := if x.currentPass == 0 && physical then FirstId else compoId;
      && |all| == (if physical then 2 else 0) + (if navigable then 1 else 0) + 1
      && (forall i :: 0 <= i < |all| ==> all[i].Component? && all[i].cid == Some(first + i))
      && parts.nextId == first + |all|
      && (physical ==> parts.physics == [Component("RigidBody", Some(first), body), Component("CollisionShape", Some(first + 1), shape)])
      && (navigable ==> parts.navigable[0].ctype == "Navigable")
      && parts.model.ctype == m.mtype && parts.model.attrs == display
  {
    var parts := Numbered(x, m, physical, navigable, body, shape, display, compoId);
    var all := parts.physics + parts.navigable + [parts.model];
    forall i | 0 <= i < |all| ensures all[i].Component? {
    }
  }

  /**
   * For a model of the scene: the RigidBody carries the body attributes and the CollisionShape
   * the shape attributes exactly when the model is physical, the Navigable exists exactly when
   * the object asks for one on a static model or terrain patch, the model component carries the
   * display attributes with the model file and the materials, and the model uses `Cost` ids.
   */
  lemma ComponentsNumbered(x: ExportSettings, files: map<string, string>, m: SceneModel, modelFile: string,
                           frame: Option<ShapeFrame>, compoId: int)
    requires Physical(x, ObjectOf(x, m)) ==> frame.Some?
    ensures var obj := ObjectOf(x, m);
      var parts := ComponentsOf(x, files, obj, m, modelFile, frame, compoId);
      var first := if x.currentPass == 0 && Physical(x, obj) then FirstId else compoId;
      && parts.nextId == first + Cost(x, m)
      && (|parts.physics| == 2 <==> Physical(x, obj))
      && (Physical(x, obj) ==>
            && parts.physics[0] == Component("RigidBody", Some(first), BodyAttributes(obj.body, x.fmt))
            && parts.physics[1] == Component("CollisionShape", Some(first + 1), ShapeAttributes(obj.shape, x.fmt, frame.value, modelFile)))
      && (parts.navigable != [] <==> NavigableModel(obj, m))
      && parts.model.ctype == m.mtype
      && parts.model.attrs == DisplayAttributes(obj.display, x.fmt, modelFile, MaterialsText(files, x.paths.materials, m.materials))
  {
    var obj := ObjectOf(x, m);
    var physical := Physical(x, obj) && frame.Some?;
    NumberedIds(x, m, physical, NavigableModel(obj, m),
      if physical then BodyAttributes(obj.body, x.fmt) else [],
      if physical then ShapeAttributes(obj.shape, x.fmt, frame.value, modelFile) else [],
      DisplayAttributes(obj.display, x.fmt, modelFile, MaterialsText(files, x.paths.materials, m.materials)),
      compoId);
  }

  /**
   * One model ends the call exactly when it has no registered model file, or when it is
   * physical, its shape overwrites the size but not the offset, and no earlier model of the
   * call has bound the local `bbox` (the source then reads an unbound local); an ending step
   * keeps everything but the reason.
   */
  lemma StepOutcome(x: ExportSettings, files: map<string, string>, p: Progress, m: SceneModel)
    requires p.stop.None?
    ensures var obj := ObjectOf(x, m);
      var missing := !Truthy(Lookup(files, x.paths.models, Some(m.name)));
      var unbound := Physical(x, obj) && obj.shape.overwriteSize && !obj.shape.overwriteOffsetPosition && p.extents.None?;
      && (Step(x, files, p, m).stop == Some(MissingModel(m.name)) <==> missing)
      && (Step(x, files, p, m).stop == Some(UnboundExtents(m.name)) <==> !missing && unbound)
      && (Step(x, files, p, m).stop.None? <==> !missing && !unbound)
      && (Step(x, files, p, m).stop.Some? ==> Step(x, files, p, m) == p.(stop := Step(x, files, p, m).stop))
  {
  }

  /**
   * A step that does not end the call emits the model, with the shape frame computed from its
   * own box or from the box an earlier model left in `bbox`.
   */
  lemma StepEmits(x: ExportSettings, files: map<string, string>, p: Progress, m: SceneModel)
    requires p.stop.None? && Step(x, files, p, m).stop.None?
    ensures Truthy(Lookup(files, x.paths.models, Some(m.name)))
    ensures Physical(x, ObjectOf(x, m)) ==> ShapeGeometry(ObjectOf(x, m).shape, m.boundingBox, p.extents).Some?
    ensures Step(x, files, p, m) == Emit(x, files, p.(extents := BoxAfter(x, ObjectOf(x, m), m, p.extents)), ObjectOf(x, m), m,
      Lookup(files, x.paths.models, Some(m.name)).value, ShapeGeometry(ObjectOf(x, m).shape, m.boundingBox, p.extents))
  {
  }

  /** A step that does not end the call leaves the model's own box in `bbox` exactly when it computes its size. */
  lemma StepBox(x: ExportSettings, files: map<string, string>, p: Progress, m: SceneModel)
    requires p.stop.None? && Step(x, files, p, m).stop.None?
    ensures Step(x, files, p, m).extents == BoxAfter(x, ObjectOf(x, m), m, p.extents)
  {
  }

  /** A physical model whose size is computed from its own bounding box, which binds `bbox`. */
  predicate Computes(x: ExportSettings, m: SceneModel) {
    Physical(x, ObjectOf(x, m)) && !ObjectOf(x, m).shape.overwriteSize
  }

  /** The box `bbox` holds after the models, from `e` at the start. */
  function Boxes(x: ExportSettings, e: Option<BoundingBox>, models: seq<SceneModel>): Option<BoundingBox> {
    if models == [] then e
    else
      var m := models[|models| - 1];
      BoxAfter(x, ObjectOf(x, m), m, Boxes(x, e, models[..|models| - 1]))
  }

  /** The loop's `bbox` is `Boxes` of the models, as long as the call has not ended. */
  lemma {:induction false} RunBoxes(x: ExportSettings, files: map<string, string>, start: Progress, models: seq<SceneModel>)
    requires start.stop.None? && Run(x, files, start, models).stop.None?
    ensures Run(x, files, start, models).extents == Boxes(x, start.extents, models)
  {
    if models != [] {
      var front := models[..|models| - 1];
      var q := Run(x, files, start, front);
      assert q.stop.None? by {
        RunGoing(x, files, start, models);
      }
      RunBoxes(x, files, start, front);
      StepBox(x, files, q, models[|models| - 1]);
    }
  }

  /** `Boxes` after a model that computes its size is that model's box; after any other model it is as before. */
  lemma BoxesStep(x: ExportSettings, e: Option<BoundingBox>, models: seq<SceneModel>)
    requires models != []
    ensures Computes(x, models[|models| - 1]) ==> Boxes(x, e, models) == Some(models[|models| - 1].boundingBox)
    ensures !Computes(x, models[|models| - 1]) ==> Boxes(x, e, models) == Boxes(x, e, models[..|models| - 1])
  {
  }

  /** `Boxes` is unbound exactly when it starts unbound and no model computes its size. */
  lemma {:induction false} BoxesNone(x: ExportSettings, e: Option<BoundingBox>, models: seq<SceneModel>)
    ensures Boxes(x, e, models).None? <==> e.None? && forall i :: 0 <= i < |models| ==> !Computes(x, models[i])
  {
    if models != [] {
      var front := models[..|models| - 1];
      var n := |models| - 1;
      BoxesNone(x, e, front);
      BoxesStep(x, e, models);
      if !Computes(x, models[n]) {
        assert forall i :: 0 <= i < n ==> front[i] == models[i];
        assert (forall i :: 0 <= i < |models| ==> !Computes(x, models[i])) <==> (forall i :: 0 <= i < |front| ==> !Computes(x, front[i]));
      }
    }
  }

  /** `Boxes` is the box of the last model that computes its size, when there is one. */
  lemma {:induction false} BoxesAt(x: ExportSettings, e: Option<BoundingBox>, models: seq<SceneModel>, i: nat)
    requires i < |models| && Computes(x, models[i])
    requires forall j :: i < j < |models| ==> !Computes(x, models[j])
    ensures Boxes(x, e, models) == Some(models[i].boundingBox)
  {
    var n := |models| - 1;
    BoxesStep(x, e, models);
    if i < n {
      var front := models[..n];
      assert forall j :: 0 <= j < n ==> front[j] == models[j];
      BoxesAt(x, e, front, i);
    }
  }

  /** `Boxes` stays at its start when no model computes its size. */
  lemma {:induction false} BoxesKept(x: ExportSettings, e: Option<BoundingBox>, models: seq<SceneModel>)
    requires forall i :: 0 <= i < |models| ==> !Computes(x, models[i])
    ensures Boxes(x, e, models) == e
  {
    if models != [] {
      var front := models[..|models| - 1];
      BoxesStep(x, e, models);
      assert forall j :: 0 <= j < |front| ==> front[j] == models[j];
      BoxesKept(x, e, front);
    }
  }

  /**
   * The local `bbox` after the models of a call that has not ended: unbound exactly when it was
   * unbound at the start and no model computed its size, and otherwise the bounding box of the
   * last model that did.
   */
  lemma RunExtents(x: ExportSettings, files: map<string, string>, start: Progress, models: seq<SceneModel>)
    requires start.stop.None? && Run(x, files, start, models).stop.None?
    ensures Run(x, files, start, models).extents.None? <==>
      start.extents.None? && forall i :: 0 <= i < |models| ==> !Computes(x, models[i])
    ensures forall i :: 0 <= i < |models| && Computes(x, models[i]) && (forall j :: i < j < |models| ==> !Computes(x, models[j])) ==>
      Run(x, files, start, models).extents == Some(models[i].boundingBox)
    ensures (forall i :: 0 <= i < |models| ==> !Computes(x, models[i])) ==> Run(x, files, start, models).extents == start.extents
  {
    RunBoxes(x, files, start, models);
    BoxesNone(x, start.extents, models);
    forall i | 0 <= i < |models| && Computes(x, models[i]) && (forall j :: i < j < |models| ==> !Computes(x, models[j]))
      ensures Run(x, files, start, models).extents == Some(models[i].boundingBox)
    {
      BoxesAt(x, start.extents, models, i);
    }
    if forall i :: 0 <= i < |models| ==> !Computes(x, models[i]) {
      BoxesKept(x, start.extents, models);
    }
  }

  /**
   * An overwritten size with a computed offset after an earlier model has bound `bbox`: the call
   * goes on, and the offset of the shape is the centre of that earlier box.
   */
  lemma StaleOffset(x: ExportSettings, files: map<string, string>, p: Progress, m: SceneModel)
    requires p.stop.None? && p.extents.Some? && Truthy(Lookup(files, x.paths.models, Some(m.name)))
    requires Physical(x, ObjectOf(x, m)) && ObjectOf(x, m).shape.overwriteSize && !ObjectOf(x, m).shape.overwriteOffsetPosition
    ensures Step(x, files, p, m).stop.None?
    ensures var f := ShapeGeometry(ObjectOf(x, m).shape, m.boundingBox, p.extents);
      var b := p.extents.value;
      && f.Some?
      && f.value.size == ObjectOf(x, m).shape.size
      && f.value.offset.x == (b.min.x + b.max.x) / 2.0
      && Step(x, files, p, m).extents == p.extents
  {
  }

  /**
   * The counters after one model: the component counter moves on by the model's cost, from
   * 0x1000000 for a physical model of pass 0 (the reset) and from where it was otherwise; the node
   * counter falls back to 0x1000000 in pass 0 and counts the new node in a later pass.
   */
  lemma StepCounters(x: ExportSettings, files: map<string, string>, p: Progress, m: SceneModel)
    requires p.stop.None? && Step(x, files, p, m).stop.None?
    ensures Step(x, files, p, m).compoId
      == (if x.currentPass == 0 && Physical(x, ObjectOf(x, m)) then FirstId else p.compoId) + Cost(x, m)
    ensures Step(x, files, p, m).nodeId == (if x.currentPass == 0 then FirstId else p.nodeId + 1)
  {
    StepEmits(x, files, p, m);
    var obj := ObjectOf(x, m);
    var file := Lookup(files, x.paths.models, Some(m.name));
    var frame := ShapeGeometry(obj.shape, m.boundingBox, p.extents);
    ComponentsNumbered(x, files, m, file.value, frame, p.compoId);
  }

  /**
   * The documents after one model: pass 0 adds the model's individual prefab when its file may
   * be written and leaves the collective tree alone; a later pass writes nothing and adds one slot.
   */
  lemma StepWrites(x: ExportSettings, files: map<string, string>, p: Progress, m: SceneModel)
    requires p.stop.None? && Step(x, files, p, m).stop.None?
    ensures x.currentPass == 0 ==>
      && Step(x, files, p, m).slots == p.slots && Step(x, files, p, m).elements == p.elements
      && |Step(x, files, p, m).written| == |p.written| + (if x.mayWrite(x.paths.objects, m.name) then 1 else 0)
      && p.written <= Step(x, files, p, m).written
      && (x.mayWrite(x.paths.objects, m.name) ==>
            var w := Step(x, files, p, m).written[|p.written|];
            w.pathType == x.paths.objects && w.name == m.name && w.doc.Node? && w.doc.nid == p.nodeId)
    ensures x.currentPass > 0 ==>
      && Step(x, files, p, m).written == p.written
      && |Step(x, files, p, m).slots| == |p.slots| + 1
  {
    StepEmits(x, files, p, m);
  }

  /** Every step extends the list of written documents. */
  lemma StepExtends(x: ExportSettings, files: map<string, string>, p: Progress, m: SceneModel)
    ensures p.written <= Step(x, files, p, m).written
    ensures |p.slots| <= |Step(x, files, p, m).slots|
  {
    if p.stop.None? {
      StepOutcome(x, files, p, m);
      if Step(x, files, p, m).stop.None? {
        StepWrites(x, files, p, m);
      }
    }
  }

  /** A call that has not ended after the models had not ended before the last of them. */
  lemma RunGoing(x: ExportSettings, files: map<string, string>, start: Progress, models: seq<SceneModel>)
    requires models != [] && Run(x, files, start, models).stop.None?
    ensures Run(x, files, start, models[..|models| - 1]).stop.None?
  {
  }

  /** Documents once written stay written: the documents after a prefix of the models are a prefix. */
  lemma {:induction false} WrittenGrows(x: ExportSettings, files: map<string, string>, start: Progress, models: seq<SceneModel>, i: nat)
    requires i <= |models|
    ensures Run(x, files, start, models[..i]).written <= Run(x, files, start, models).written
    decreases |models| - i
  {
    if i < |models| {
      WrittenGrows(x, files, start, models, i + 1);
      assert models[..i + 1][..i] == models[..i];
      StepExtends(x, files, Run(x, files, start, models[..i]), models[i]);
    } else {
      assert models[..i] == models;
    }
  }

  /** The path type and name of each written document. */
  function Names(ws: seq<Written>): (names: seq<(string, string)>)
    ensures |names| == |ws|
    ensures forall i :: 0 <= i < |ws| ==> names[i] == (ws[i].pathType, ws[i].name)
  {
    if ws == [] then [] else Names(ws[..|ws| - 1]) + [(ws[|ws| - 1].pathType, ws[|ws| - 1].name)]
  }

  /** The individual prefabs pass 0 may write, one per model in order. */
  function Writable(x: ExportSettings, models: seq<SceneModel>): seq<(string, string)> {
    if models == [] then []
    else
      var m := models[|models| - 1];
      Writable(x, models[..|models| - 1]) + (if x.mayWrite(x.paths.objects, m.name) then [(x.paths.objects, m.name)] else [])
  }

  lemma NamesGrow(a: seq<Written>, b: seq<Written>)
    requires a <= b
    ensures Names(b) == Names(a) + Names(b[|a|..])
  {
    assert forall i :: 0 <= i < |b| - |a| ==> b[|a|..][i] == b[|a| + i];
  }

  /** Pass 0 leaves the collective tree as it started, and ends with the node counter reset. */
  lemma {:induction false} IndividualTree(x: ExportSettings, files: map<string, string>, start: Progress, models: seq<SceneModel>)
    requires x.currentPass == 0 && Run(x, files, start, models).stop.None?
    ensures Run(x, files, start, models).slots == start.slots
    ensures Run(x, files, start, models).elements == start.elements
    ensures models != [] ==> Run(x, files, start, models).nodeId == FirstId
  {
    if models != [] {
      var front := models[..|models| - 1];
      var m := models[|models| - 1];
      RunGoing(x, files, start, models);
      IndividualTree(x, files, start, front);
      StepWrites(x, files, Run(x, files, start, front), m);
      StepCounters(x, files, Run(x, files, start, front), m);
    }
  }

  /** The names after one model of pass 0: its own, when its file may be written. */
  lemma StepNames(x: ExportSettings, files: map<string, string>, p: Progress, m: SceneModel)
    requires x.currentPass == 0 && p.stop.None? && Step(x, files, p, m).stop.None?
    ensures Names(Step(x, files, p, m).written)
      == Names(p.written) + (if x.mayWrite(x.paths.objects, m.name) then [(x.paths.objects, m.name)] else [])
  {
    StepWrites(x, files, p, m);
    var w := Step(x, files, p, m).written;
    NamesGrow(p.written, w);
    var extra := if x.mayWrite(x.paths.objects, m.name) then [(x.paths.objects, m.name)] else [];
    assert Names(w[|p.written|..]) == extra;
  }

  /** Pass 0 writes one individual prefab per model whose file may be written, named after the model, in the order of the models. */
  lemma {:induction false} IndividualPrefabs(x: ExportSettings, files: map<string, string>, start: Progress, models: seq<SceneModel>)
    requires x.currentPass == 0 && Run(x, files, start, models).stop.None?
    ensures Names(Run(x, files, start, models).written) == Names(start.written) + Writable(x, models)
  {
    if models != [] {
      var front := models[..|models| - 1];
      RunGoing(x, files, start, models);
      IndividualPrefabs(x, files, start, front);
      StepNames(x, files, Run(x, files, start, front), models[|models| - 1]);
    }
  }

  /** The ids a sequence of models uses. */
  function TotalCost(x: ExportSettings, models: seq<SceneModel>): nat {
    if models == [] then 0 else TotalCost(x, models[..|models| - 1]) + Cost(x, models[|models| - 1])
  }

  /**
   * A later pass writes nothing while looping, adds one node per model with ids counting up from
   * the root's, and hands out `TotalCost` consecutive component ids: the models' component ids are
   * all different.
   */
  lemma {:induction false} CollectiveRun(x: ExportSettings, files: map<string, string>, start: Progress, models: seq<SceneModel>)
    requires x.currentPass > 0 && Run(x, files, start, models).stop.None?
    ensures Run(x, files, start, models).written == start.written
    ensures |Run(x, files, start, models).slots| == |start.slots| + |models|
    ensures Run(x, files, start, models).nodeId == start.nodeId + |models|
    ensures Run(x, files, start, models).compoId == start.compoId + TotalCost(x, models)
  {
    if models != [] {
      var front := models[..|models| - 1];
      var m := models[|models| - 1];
      var p := Run(x, files, start, front);
      RunGoing(x, files, start, models);
      CollectiveRun(x, files, start, front);
      StepWrites(x, files, p, m);
      StepCounters(x, files, p, m);
    }
  }

  /** Slot `k` holds the node with id `RootId + k`, and the node counter is at the last of them. */
  ghost predicate NodeNumbering(o: SceneOptions, p: Progress) {
    && |p.slots| >= 1
    && p.nodeId == RootId(o) + |p.slots| - 1
    && forall k :: 0 <= k < |p.slots| ==> p.slots[k].head.Node? && p.slots[k].head.nid == RootId(o) + k
  }

  /** Every node is appended to an earlier one, and each node's children lists later nodes in increasing order. */
  ghost predicate KidsOrdered(slots: seq<Slot>) {
    && (forall k, j :: 0 <= k < |slots| && 0 <= j < |slots[k].kids| ==> k < slots[k].kids[j] < |slots|)
    && (forall k, i, j :: 0 <= k < |slots| && 0 <= i < j < |slots[k].kids| ==> slots[k].kids[i] < slots[k].kids[j])
  }

  /** Slot `c` is a child of an earlier slot. */
  ghost predicate HasParent(slots: seq<Slot>, c: nat) {
    exists k :: 0 <= k < c && k < |slots| && c in slots[k].kids
  }

  /** Every node but the root is the child of exactly one node. */
  ghost predicate OneParent(slots: seq<Slot>) {
    && (forall c :: 1 <= c < |slots| ==> HasParent(slots, c))
    && (forall c, k1, k2 :: 0 <= k1 < k2 < |slots| && c in slots[k1].kids ==> c !in slots[k2].kids)
  }
  /** `elements` maps a model name to a model node carrying that name. */
  ghost predicate ElementsNamed(p: Progress) {
    forall n :: n in p.elements ==>
      && 1 <= p.elements[n] < |p.slots|
      && p.slots[p.elements[n]].head.Node?
      && |p.slots[p.elements[n]].head.items| >= 1
      && p.slots[p.elements[n]].head.items[0] == Attribute("Name", n)
  }

  /** The collective tree of a later pass: slots numbered in order, forming a tree under the root slot. */
  ghost predicate Arena(o: SceneOptions, p: Progress) {
    NodeNumbering(o, p) && KidsOrdered(p.slots) && OneParent(p.slots) && ElementsNamed(p)
  }

  lemma AddKidFacts(slots: seq<Slot>, parent: nat, k: nat)
    requires parent < |slots|
    ensures |AddKid(slots, parent, k)| == |slots|
    ensures forall i :: 0 <= i < |slots| ==> AddKid(slots, parent, k)[i].head == slots[i].head
    ensures forall i :: 0 <= i < |slots| && i != parent ==> AddKid(slots, parent, k)[i].kids == slots[i].kids
    ensures AddKid(slots, parent, k)[parent].kids == slots[parent].kids + [k]
  {
  }

  /** The slot of the parent is an existing slot. */
  lemma ParentExists(o: SceneOptions, p: Progress, m: SceneModel)
    requires NodeNumbering(o, p) && ElementsNamed(p)
    ensures ParentSlot(p.elements, m) < |p.slots|
  {
  }

  lemma CollectivelyNumbers(x: ExportSettings, p: Progress, obj: ObjectSettings, m: SceneModel, parts: Parts)
    requires NodeNumbering(x.options, p) && ElementsNamed(p)
    ensures NodeNumbering(x.options, Collectively(x, p, obj, m, parts))
    ensures Collectively(x, p, obj, m, parts).slots[0].head == p.slots[0].head
  {
    ParentExists(x.options, p, m);
    AddKidFacts(p.slots, ParentSlot(p.elements, m), |p.slots|);
  }

  /** Appending a new slot under an existing one keeps the children ordered. */
  lemma AppendOrdered(slots: seq<Slot>, parent: nat, head: Item)
    requires KidsOrdered(slots) && parent < |slots|
    ensures KidsOrdered(AddKid(slots, parent, |slots|) + [Slot(head, [])])
  {
    AddKidFacts(slots, parent, |slots|);
  }

  /** Appending a new slot under an existing one gives it exactly one parent and changes no other parent. */
  lemma AppendParents(slots: seq<Slot>, parent: nat, head: Item)
    requires KidsOrdered(slots) && OneParent(slots) && parent < |slots|
    ensures OneParent(AddKid(slots, parent, |slots|) + [Slot(head, [])])
  {
    var k := |slots|;
    AddKidFacts(slots, parent, k);
    var next := AddKid(slots, parent, k) + [Slot(head, [])];
    assert k in next[parent].kids;
    forall c | 1 <= c < |next| ensures HasParent(next, c) {
      if c < k {
        assert HasParent(slots, c);
        var j :| 0 <= j < c && j < |slots| && c in slots[j].kids;
        assert c in next[j].kids;
      }
    }
    forall c, k1, k2 | 0 <= k1 < k2 < |next| && c in next[k1].kids ensures c !in next[k2].kids {
      if c == k {
        assert k1 == parent;
      }
    }
  }

  lemma CollectivelyOrders(x: ExportSettings, p: Progress, obj: ObjectSettings, m: SceneModel, parts: Parts)
    requires NodeNumbering(x.options, p) && ElementsNamed(p) && KidsOrdered(p.slots)
    ensures KidsOrdered(Collectively(x, p, obj, m, parts).slots)
  {
    ParentExists(x.options, p, m);
    var slots := Collectively(x, p, obj, m, parts).slots;
    AppendOrdered(p.slots, ParentSlot(p.elements, m), slots[|p.slots|].head);
  }

  lemma CollectivelyParents(x: ExportSettings, p: Progress, obj: ObjectSettings, m: SceneModel, parts: Parts)
    requires NodeNumbering(x.options, p) && ElementsNamed(p) && KidsOrdered(p.slots) && OneParent(p.slots)
    ensures OneParent(Collectively(x, p, obj, m, parts).slots)
  {
    ParentExists(x.options, p, m);
    var slots := Collectively(x, p, obj, m, parts).slots;
    AppendParents(p.slots, ParentSlot(p.elements, m), slots[|p.slots|].head);
  }

  lemma CollectivelyNames(x: ExportSettings, p: Progress, obj: ObjectSettings, m: SceneModel, parts: Parts)
    requires NodeNumbering(x.options, p) && ElementsNamed(p)
    ensures ElementsNamed(Collectively(x, p, obj, m, parts))
  {
    ParentExists(x.options, p, m);
    AddKidFacts(p.slots, ParentSlot(p.elements, m), |p.slots|);
  }

  /**
   * Where a later pass puts a model's node: in a new slot, holding the next node id and the
   * model's name, with no children yet, recorded in `elements` under the model's name, and
   * appended to the node of its parent object when the model is a static model whose parent
   * object's node was emitted earlier, and to the root node otherwise.
   */
  lemma StepPlacement(x: ExportSettings, files: map<string, string>, p: Progress, m: SceneModel)
    requires x.currentPass > 0 && p.stop.None? && Step(x, files, p, m).stop.None?
    requires NodeNumbering(x.options, p) && ElementsNamed(p)
    ensures var q := Step(x, files, p, m);
      var k := |p.slots|;
      var nested := m.mtype == "StaticModel" && Truthy(m.parentObjectName) && m.parentObjectName.value in p.elements;
      var parent := if nested then p.elements[m.parentObjectName.value] else 0;
      && |q.slots| == k + 1
      && q.elements == p.elements[m.name := k]
      && q.slots[k].head.Node? && q.slots[k].head.nid == p.nodeId + 1
      && q.slots[k].head.items[0] == Attribute("Name", m.name)
      && q.slots[k].kids == []
      && parent < k
      && q.slots[parent].kids == p.slots[parent].kids + [k]
  {
    StepEmits(x, files, p, m);
    ParentExists(x.options, p, m);
    AddKidFacts(p.slots, ParentSlot(p.elements, m), |p.slots|);
  }

  /** A later-pass step keeps the collective tree well formed and its root node as it was. */
  lemma StepKeepsArena(x: ExportSettings, files: map<string, string>, p: Progress, m: SceneModel)
    requires x.currentPass > 0 && p.stop.None? && Step(x, files, p, m).stop.None?
    requires Arena(x.options, p)
    ensures Arena(x.options, Step(x, files, p, m))
    ensures Step(x, files, p, m).slots[0].head == p.slots[0].head
  {
    StepEmits(x, files, p, m);
    var obj := ObjectOf(x, m);
    var file := Lookup(files, x.paths.models, Some(m.name));
    var parts := ComponentsOf(x, files, obj, m, file.value, ShapeGeometry(obj.shape, m.boundingBox, p.extents), p.compoId);
    var p' := p.(extents := BoxAfter(x, obj, m, p.extents));
    CollectivelyNumbers(x, p', obj, m, parts);
    CollectivelyOrders(x, p', obj, m, parts);
    CollectivelyParents(x, p', obj, m, parts);
    CollectivelyNames(x, p', obj, m, parts);
  }

  /**
   * After a later pass the collective tree is well formed: one slot per model after the root, in
   * the order of the models, every node numbered by its slot and the child of exactly one
   * earlier node, and the root node still the one the call started with.
   */
  lemma {:induction false} CollectiveTree(x: ExportSettings, files: map<string, string>, sceneName: string, models: seq<SceneModel>)
    requires x.currentPass > 0 && Run(x, files, Start(x.options, sceneName), models).stop.None?
    ensures Arena(x.options, Run(x, files, Start(x.options, sceneName), models))
    ensures Run(x, files, Start(x.options, sceneName), models).slots[0].head == RootHead(x.options, sceneName)
  {
    var start := Start(x.options, sceneName);
    if models == [] {
      assert HasParent(start.slots, 0) || |start.slots| == 1;
    } else {
      var front := models[..|models| - 1];
      RunGoing(x, files, start, models);
      CollectiveTree(x, files, sceneName, front);
      StepKeepsArena(x, files, Run(x, files, start, front), models[|models| - 1]);
    }
  }

  /** When every slot's children are later slots, the tree of each slot has every child's tree, in order. */
  lemma WholeTree(slots: seq<Slot>)
    requires KidsOrdered(slots)
    ensures forall k :: 0 <= k < |slots| ==> |Forest(slots, k, slots[k].kids)| == |slots[k].kids|
    ensures forall k, j :: 0 <= k < |slots| && 0 <= j < |slots[k].kids| ==>
      Forest(slots, k, slots[k].kids)[j] == Tree(slots, slots[k].kids[j])
  {
    forall k | 0 <= k < |slots|
      ensures |Forest(slots, k, slots[k].kids)| == |slots[k].kids|
      ensures forall j :: 0 <= j < |slots[k].kids| ==> Forest(slots, k, slots[k].kids)[j] == Tree(slots, slots[k].kids[j])
    {
      ForestAll(slots, k, slots[k].kids);
    }
  }

  /**
   * The documents of one call start with those of the model loop, and nothing follows them
   * when the loop ended early; the reason is reported as the loop left it.
   */
  lemma ExportedEnd(x: ExportSettings, sceneName: string, files: map<string, string>, models: seq<SceneModel>)
    ensures var q := Run(x, files, Start(x.options, sceneName), models);
      var w := Exported(x, sceneName, files, models).0;
      && |q.slots| >= 1
      && Exported(x, sceneName, files, models).1 == q.stop
      && q.written <= w
      && (q.stop.Some? ==> w == q.written)
  {
    RunKeepsRoot(x, files, Start(x.options, sceneName), models);
  }

  /**
   * Unless the loop ended early, the documents of the loop are followed by the collective
   * prefab (the root node with its tree) when it is asked for and may be written, and then the
   * scene prefab (the scene components followed by that same root node) when it is asked for
   * and may be written.
   */
  lemma ExportedPrefabs(x: ExportSettings, sceneName: string, files: map<string, string>, models: seq<SceneModel>)
    requires Run(x, files, Start(x.options, sceneName), models).stop.None?
    ensures var q := Run(x, files, Start(x.options, sceneName), models);
      var w := Exported(x, sceneName, files, models).0;
      var o := x.options;
      var collective := o.doCollectivePrefab && !o.mergeObjects && x.mayWrite(x.paths.objects, sceneName);
      var scene := o.doScenePrefab && x.mayWrite(x.paths.scenes, sceneName);
      && |q.slots| >= 1
      && |w| == |q.written| + (if collective then 1 else 0) + (if scene then 1 else 0)
      && (collective ==> w[|q.written|] == Written(x.paths.objects, sceneName, Tree(q.slots, 0)))
      && (scene ==> w[|w| - 1] == Written(x.paths.scenes, sceneName, Scene(1, SceneComponents(o) + [Tree(q.slots, 0)])))
  {
    RunKeepsRoot(x, files, Start(x.options, sceneName), models);
  }

  /**
   * A loop that did not end early writes nothing in a later pass, and in pass 0 leaves the root
   * node without model nodes.
   */
  lemma ExportedLoop(x: ExportSettings, sceneName: string, files: map<string, string>, models: seq<SceneModel>)
    requires Run(x, files, Start(x.options, sceneName), models).stop.None?
    ensures var q := Run(x, files, Start(x.options, sceneName), models);
      && |q.slots| >= 1
      && (x.currentPass > 0 ==> q.written == [])
      && (x.currentPass == 0 ==> Tree(q.slots, 0) == RootHead(x.options, sceneName))
  {
    var start := Start(x.options, sceneName);
    RunKeepsRoot(x, files, start, models);
    if x.currentPass > 0 {
      CollectiveRun(x, files, start, models);
    } else {
      IndividualTree(x, files, start, models);
      assert RootHead(x.options, sceneName).items + [] == RootHead(x.options, sceneName).items;
    }
  }

  /**
   * The documents of one call: those of the model loop, then, unless the loop ended early, the
   * collective prefab (the root node with its tree) when it is asked for and may be written, and
   * the scene prefab (the scene components followed by that same root node) when it is asked
   * for and may be written. A later pass writes nothing during the loop, and in pass 0 the root
   * node has no model nodes.
   */
  lemma ExportedDocs(x: ExportSettings, sceneName: string, files: map<string, string>, models: seq<SceneModel>)
    ensures var q := Run(x, files, Start(x.options, sceneName), models);
      var w := Exported(x, sceneName, files, models).0;
      var o := x.options;
      var collective := o.doCollectivePrefab && !o.mergeObjects && x.mayWrite(x.paths.objects, sceneName);
      var scene := o.doScenePrefab && x.mayWrite(x.paths.scenes, sceneName);
      && |q.slots| >= 1
      && Exported(x, sceneName, files, models).1 == q.stop
      && q.written <= w
      && (q.stop.Some? ==> w == q.written)
      && (q.stop.None? ==> |w| == |q.written| + (if collective then 1 else 0) + (if scene then 1 else 0))
      && (q.stop.None? && collective ==> w[|q.written|] == Written(x.paths.objects, sceneName, Tree(q.slots, 0)))
      && (q.stop.None? && scene ==>
            w[|w| - 1] == Written(x.paths.scenes, sceneName, Scene(1, SceneComponents(o) + [Tree(q.slots, 0)])))
      && (q.stop.None? && x.currentPass > 0 ==> q.written == [])
      && (q.stop.None? && x.currentPass == 0 ==> Tree(q.slots, 0) == RootHead(o, sceneName))
  {
    ExportedEnd(x, sceneName, files, models);
    if Run(x, files, Start(x.options, sceneName), models).stop.None? {
      ExportedPrefabs(x, sceneName, files, models);
      ExportedLoop(x, sceneName, files, models);
    }
  }
}
