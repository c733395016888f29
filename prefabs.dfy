/**
 * `UrhoExportPrefabs` of io_mesh_urho/prefabs.py: after sorting the scene's models, one pass
 * over them emits a node per model with its components, numbering nodes with `nodeID` and
 * components with `compoID`. In pass 0 every model becomes its own prefab document; in a later
 * pass the nodes go into one collective tree under the root node, a static model nesting under
 * the node of its parent object when that was emitted earlier. The infrastructure of the scene
 * prefab (octree, debug renderer, skybox, navigation mesh, physics world, light) has fixed ids.
 *
 * Calls into the add-on's utilities are parameters: `GetFilepath`/`CheckFilepath` become the
 * `mayWrite` test on (path type, name), and `WriteXmlFile` appends the document to the list of
 * written files.
 */
module Prefabs {
  import opened Wrappers
  import opened Text
  import opened Xml
  import opened Geometry
  import opened Components
  import opened Registry
  import Hierarchy

  /** The first node and component id the exporter hands out, 0x1000000. */
  const FirstId: nat := 0x1000000

  /** `SOptions`. */
  datatype SceneOptions = SceneOptions(
    doIndividualPrefab: bool,
    doCollectivePrefab: bool,
    doScenePrefab: bool,
    doPhysics: bool,
    mergeObjects: bool,
    batchComponents: bool,
    navigation: bool,
    createSkybox: bool,
    skyboxPath: string,
    exportMode: string)

  /** `SOptions()`: every switch off, no skybox path, export mode 'Everything'. */
  function DefaultSceneOptions(): SceneOptions {
    SceneOptions(false, false, false, false, false, false, false, false, "", "Everything")
  }

  /** What one call of `UrhoExportPrefabs` depends on besides the scene. */
  datatype ExportSettings = ExportSettings(
    options: SceneOptions,
    paths: PathTypes,
    /** `bpy.data.objects`, by name. */
    objects: string -> ObjectSettings,
    /** The active object, whose settings serve every model when merging or batching. */
    active: ObjectSettings,
    fmt: Formatter,
    globalOrigin: bool,
    currentPass: nat,
    /** `CheckFilepath(GetFilepath(pathType, name, fOptions)[0], fOptions)`. */
    mayWrite: (string, string) -> bool)

  /** A document handed to `WriteXmlFile`, by the path type and name of its file. */
  datatype Written = Written(pathType: string, name: string, doc: Item)

  /**
   * Why the call ended early: a model without a registered file, or the error of reading the
   * unbound `bbox` for a shape that overwrites its size but not its offset.
   */
  datatype Stop = MissingModel(model: string) | UnboundExtents(model: string)

  /**
   * The exporter's local state between models: the two counters, the `elements` map from model
   * name to the slot of its node, the slots of the collective tree (slot 0 is the root node),
   * the documents written so far, the bounding box the local `bbox` holds (None while it is
   * unbound), and whether the call has ended.
   */
  datatype Progress = Progress(
    nodeId: int,
    compoId: int,
    elements: map<string, nat>,
    slots: seq<Slot>,
    written: seq<Written>,
    extents: Option<BoundingBox>,
    stop: Option<Stop>)

  /** The directional light node of the scene prefab. */
  function LightNode(): Item {
    Node(FirstId, [
      Attribute("Name", "DirectionalLight"),
      Attribute("Rotation", "0.9 0.4 0.25 0"),
      Component("Light", Some(7), [Attribute("Light Type", "Directional")])])
  }

  /** The children of the scene element before the root node. */
  function SceneComponents(o: SceneOptions): seq<Item> {
    [Component("Octree", Some(1), []), Component("DebugRenderer", Some(2), [])]
    + Opt(o.createSkybox, Component("Skybox", Some(4), [
        Attribute("Model", "Model;Models/Box.mdl"),
        Attribute("Material", "Material;" + o.skyboxPath)]))
    + Opt(o.navigation, Component("NavigationMesh", Some(5), []))
    + Opt(o.doPhysics && o.exportMode != "Props", Component("PhysicsWorld", Some(6), []))
    + [LightNode()]
  }

  /** The id of the root node: the light node takes the first id when there is a scene prefab. */
  function RootId(o: SceneOptions): int {
    if o.doScenePrefab then FirstId + 1 else FirstId
  }

  /** The root node before any model node is appended. */
  function RootHead(o: SceneOptions, sceneName: string): Item {
    Node(RootId(o), [Attribute("Name", sceneName)] + Opt(o.navigation, Component("Navigable", None, [])))
  }

  /** The state when the model loop starts. */
  function Start(o: SceneOptions, sceneName: string): Progress {
    Progress(RootId(o), FirstId, map[], [Slot(RootHead(o, sceneName), [])], [], None, None)
  }

  /** The object whose settings a model is exported with. */
  function ObjectOf(x: ExportSettings, m: SceneModel): ObjectSettings {
    if x.options.mergeObjects || x.options.batchComponents then x.active else x.objects(m.name)
  }

  /** Whether the model gets a RigidBody and a CollisionShape. */
  predicate Physical(x: ExportSettings, obj: ObjectSettings) {
    x.options.doPhysics && obj.activatePhysics && x.options.exportMode != "Props"
  }

  /**
   * The box the local `bbox` holds after a model: the model's own bounding box once a physical
   * model has its size computed from it, otherwise the box it held before.
   */
  function BoxAfter(x: ExportSettings, obj: ObjectSettings, m: SceneModel, last: Option<BoundingBox>): Option<BoundingBox> {
    if Physical(x, obj) && !obj.shape.overwriteSize then Some(m.boundingBox) else last
  }

  /** Whether the model gets a Navigable component. */
  predicate NavigableModel(obj: ObjectSettings, m: SceneModel) {
    obj.createNavigable && (m.mtype == "StaticModel" || m.mtype == "TerrainPatch")
  }

  /** The path of a material in the Material attribute: its registered file, or empty. */
  function MaterialPath(files: map<string, string>, pathType: string, mat: SceneMaterial): string {
    match Lookup(files, pathType, mat.name)
    case None => ""
    case Some(f) => f
  }

  function MaterialPaths(files: map<string, string>, pathType: string, mats: seq<SceneMaterial>): (paths: seq<string>)
    ensures |paths| == |mats|
    ensures forall i :: 0 <= i < |mats| ==> paths[i] == MaterialPath(files, pathType, mats[i])
  {
    if mats == [] then []
    else MaterialPaths(files, pathType, mats[..|mats| - 1]) + [MaterialPath(files, pathType, mats[|mats| - 1])]
  }

  /** The `materials` text: `';' + path` per material. */
  function MaterialsText(files: map<string, string>, pathType: string, mats: seq<SceneMaterial>): string {
    Prefixed(MaterialPaths(files, pathType, mats))
  }

  /** The Name attribute of a model node, then its transform when exporting with local origins in a later pass. */
  function NodeAttributes(x: ExportSettings, obj: ObjectSettings, m: SceneModel): seq<Item> {
    [Attribute("Name", m.name)]
    + (if !x.globalOrigin && x.currentPass > 0 then
         [Attribute("Position", obj.transform.position),
          Attribute("Rotation", obj.transform.rotation),
          Attribute("Scale", obj.transform.scale)]
       else [])
  }

  /** The components of one model and the next free component id. */
  datatype Parts = Parts(physics: seq<Item>, navigable: seq<Item>, model: Item, nextId: int)

  /**
   * The RigidBody, CollisionShape, Navigable and model components of a model, given their
   * attribute lists, numbered from `compoId`; in pass 0 a RigidBody restarts the numbering at
   * 0x1000000.
   */
  function Numbered(x: ExportSettings, m: SceneModel, physical: bool, navigable: bool,
                    body: seq<Item>, shape: seq<Item>, display: seq<Item>, compoId: int): Parts
  {
    var bodyId := if x.currentPass == 0 then FirstId else compoId;
    var physics :=
      if physical then [Component("RigidBody", Some(bodyId), body), Component("CollisionShape", Some(bodyId + 1), shape)]
      else [];
    var navId := if physical then bodyId + 2 else compoId;
    var nav := Opt(navigable, Component("Navigable", Some(navId), []));
    var modelId := navId + |nav|;
    Parts(physics, nav, Component(m.mtype, Some(modelId), display), modelId + 1)
  }

  /** The components of a model exported with the settings of `obj`. */
  function ComponentsOf(x: ExportSettings, files: map<string, string>, obj: ObjectSettings, m: SceneModel,
                        modelFile: string, frame: Option<ShapeFrame>, compoId: int): Parts
  {
    var physical := Physical(x, obj) && frame.Some?;
    var materials := MaterialsText(files, x.paths.materials, m.materials);
    Numbered(x, m, physical, NavigableModel(obj, m),
      if physical then BodyAttributes(obj.body, x.fmt) else [],
      if physical then ShapeAttributes(obj.shape, x.fmt, frame.value, modelFile) else [],
      DisplayAttributes(obj.display, x.fmt, modelFile, materials),
      compoId)
  }

  /** The sub-node of pass 0, holding the Navigable and model components. */
  function SubNode(fmt: Formatter, obj: ObjectSettings, payload: seq<Item>): Item {
    Node(FirstId, [Attribute("Name", "SubNode")]
      + Opt(fmt.vector(obj.subnodeRotation) != "0 0 0", Attribute("Rotation", fmt.vector(obj.subnodeRotation)))
      + payload)
  }

  /** The individual prefab of pass 0. */
  function Individual(x: ExportSettings, obj: ObjectSettings, m: SceneModel, id: int, parts: Parts): Item {
    var payload := parts.navigable + [parts.model];
    Node(id, NodeAttributes(x, obj, m) + parts.physics
      + (if obj.createSubnode then [SubNode(x.fmt, obj, payload)] else payload))
  }

  /** The slot a later-pass model node is appended to: its parent object's node for a static model, otherwise the root. */
  function ParentSlot(elements: map<string, nat>, m: SceneModel): nat {
    if m.mtype == "StaticModel" && Truthy(m.parentObjectName) && m.parentObjectName.value in elements
    then elements[m.parentObjectName.value]
    else 0
  }

  /** `SubElement(slots[parent], ...)` for the slot `k`. */
  function AddKid(slots: seq<Slot>, parent: nat, k: nat): seq<Slot> {
    if parent < |slots| then slots[parent := Slot(slots[parent].head, slots[parent].kids + [k])] else slots
  }

  /** The documents `mayWrite` lets through. */
  function WriteIf(x: ExportSettings, pathType: string, name: string, doc: Item): seq<Written> {
    if x.mayWrite(pathType, name) then [Written(pathType, name, doc)] else []
  }

  /** A pass-0 model: its individual prefab is written, and the node counter falls back to 0x1000000. */
  function Individually(x: ExportSettings, p: Progress, obj: ObjectSettings, m: SceneModel, parts: Parts): Progress {
    var doc := Individual(x, obj, m, p.nodeId, parts);
    p.(nodeId := FirstId, compoId := parts.nextId, written := p.written + WriteIf(x, x.paths.objects, m.name, doc))
  }

  /** A later-pass model: its node becomes a new slot, appended to the slot of its parent. */
  function Collectively(x: ExportSettings, p: Progress, obj: ObjectSettings, m: SceneModel, parts: Parts): Progress {
    var k := |p.slots|;
    var head := Node(p.nodeId + 1, NodeAttributes(x, obj, m) + parts.physics + parts.navigable + [parts.model]);
    p.(nodeId := p.nodeId + 1, compoId := parts.nextId, elements := p.elements[m.name := k],
       slots := AddKid(p.slots, ParentSlot(p.elements, m), k) + [Slot(head, [])])
  }

  /** The components of a model, then its node, in the current pass. */
  function Emit(x: ExportSettings, files: map<string, string>, p: Progress, obj: ObjectSettings, m: SceneModel,
                modelFile: string, frame: Option<ShapeFrame>): Progress {
    var parts := ComponentsOf(x, files, obj, m, modelFile, frame, p.compoId);
    if x.currentPass == 0 then Individually(x, p, obj, m, parts) else Collectively(x, p, obj, m, parts)
  }

  /** One iteration of the model loop. */
  function Step(x: ExportSettings, files: map<string, string>, p: Progress, m: SceneModel): Progress {
    if p.stop.Some? then p
    else
      var file := Lookup(files, x.paths.models, Some(m.name));
      if !Truthy(file) then p.(stop := Some(MissingModel(m.name)))
      else
        var obj := ObjectOf(x, m);
        var frame := ShapeGeometry(obj.shape, m.boundingBox, p.extents);
        if Physical(x, obj) && frame.None? then p.(stop := Some(UnboundExtents(m.name)))
        else Emit(x, files, p.(extents := BoxAfter(x, obj, m, p.extents)), obj, m, file.value, frame)
  }

  /** The state after the model loop has run over `models`. */
  function Run(x: ExportSettings, files: map<string, string>, start: Progress, models: seq<SceneModel>): Progress {
    if models == [] then start
    else Step(x, files, Run(x, files, start, models[..|models| - 1]), models[|models| - 1])
  }

  /** The collective and scene prefabs written after the loop, unless the call ended early. */
  function Finish(x: ExportSettings, sceneName: string, p: Progress): seq<Written>
    requires |p.slots| >= 1
  {
    if p.stop.Some? then p.written
    else
      var root := Tree(p.slots, 0);
      var o := x.options;
      p.written
      + (if o.doCollectivePrefab && !o.mergeObjects then WriteIf(x, x.paths.objects, sceneName, root) else [])
      + (if o.doScenePrefab then WriteIf(x, x.paths.scenes, sceneName, Scene(1, SceneComponents(o) + [root])) else [])
  }

  lemma {:induction false} RunKeepsRoot(x: ExportSettings, files: map<string, string>, start: Progress, models: seq<SceneModel>)
    requires |start.slots| >= 1
    ensures |Run(x, files, start, models).slots| >= 1
  {
    if models != [] {
      RunKeepsRoot(x, files, start, models[..|models| - 1]);
    }
  }

  /** The documents one call writes over the sorted models, and why it ended early if it did. */
  function Exported(x: ExportSettings, sceneName: string, files: map<string, string>, models: seq<SceneModel>): (seq<Written>, Option<Stop>) {
    var start := Start(x.options, sceneName);
    RunKeepsRoot(x, files, start, models);
    var p := Run(x, files, start, models);
    (Finish(x, sceneName, p), p.stop)
  }

  /** One more model is one more step. */
  lemma RunSnoc(x: ExportSettings, files: map<string, string>, start: Progress, models: seq<SceneModel>, i: nat)
    requires i < |models|
    ensures Run(x, files, start, models[..i + 1]) == Step(x, files, Run(x, files, start, models[..i]), models[i])
  {
    assert models[..i + 1][..i] == models[..i];
  }

  /** Once the call has ended, later models change nothing. */
  lemma {:induction false} RunAfterStop(x: ExportSettings, files: map<string, string>, start: Progress, models: seq<SceneModel>, i: nat)
    requires i <= |models|
    requires Run(x, files, start, models[..i]).stop.Some?
    ensures Run(x, files, start, models) == Run(x, files, start, models[..i])
    decreases |models| - i
  {
    if i < |models| {
      assert models[..i + 1][..i] == models[..i];
      RunAfterStop(x, files, start, models, i + 1);
      var front := models[..|models| - 1];
      if i < |models| - 1 {
        assert front[..i] == models[..i];
        RunAfterStop(x, files, start, front, i);
      } else {
        assert front == models[..i];
      }
    } else {
      assert models[..i] == models;
    }
  }

  /** The `materials` loop of `UrhoExportPrefabs`. */
  method GatherMaterials(scene: UrhoScene, pathType: string, mats: seq<SceneMaterial>) returns (materials: string)
    ensures materials == MaterialsText(scene.files, pathType, mats)
  {
    materials := "";
    var j := 0;
    while j < |mats|
      invariant 0 <= j <= |mats|
      invariant materials == Prefixed(MaterialPaths(scene.files, pathType, mats[..j]))
    {
      var file := scene.FindFile(pathType, mats[j].name);
      if file.None? {
        file := Some("");
      }
      ghost var front := MaterialPaths(scene.files, pathType, mats[..j]);
      assert mats[..j + 1][..j] == mats[..j];
      assert MaterialPaths(scene.files, pathType, mats[..j + 1]) == front + [file.value];
      assert (front + [file.value])[..j] == front;
      materials := materials + ";" + file.value;
      j := j + 1;
    }
    assert mats[..j] == mats;
  }

  /** The pass-0 branch of the model loop: write the model's own prefab and reset the node counter. */
  method WriteIndividual(x: ExportSettings, p: Progress, obj: ObjectSettings, m: SceneModel, parts: Parts) returns (q: Progress)
    requires p.stop.None?
    ensures q == Individually(x, p, obj, m, parts)
  {
    var written := p.written;
    var individual := Individual(x, obj, m, p.nodeId, parts);
    if x.mayWrite(x.paths.objects, m.name) {
      written := written + [Written(x.paths.objects, m.name, individual)];
    } else {
      assert written == p.written + [];
    }
    q := Progress(FirstId, parts.nextId, p.elements, p.slots, written, p.extents, None);
  }

  /** The later-pass branch of the model loop: append the model's node under its parent's node. */
  method AppendNode(x: ExportSettings, p: Progress, obj: ObjectSettings, m: SceneModel, parts: Parts) returns (q: Progress)
    requires p.stop.None?
    ensures q == Collectively(x, p, obj, m, parts)
  {
    var nodeId, elements, slots := p.nodeId, p.elements, p.slots;
    var parent := ParentSlot(elements, m);
    var k := |slots|;
    nodeId := nodeId + 1;
    var head := Node(nodeId, NodeAttributes(x, obj, m) + parts.physics + parts.navigable + [parts.model]);
    slots := AddKid(slots, parent, k) + [Slot(head, [])];
    elements := elements[m.name := k];
    q := Progress(nodeId, parts.nextId, elements, slots, p.written, p.extents, None);
  }

  /** One iteration of the model loop of `UrhoExportPrefabs`, on the loop's local state. */
  method ExportModel(scene: UrhoScene, x: ExportSettings, m: SceneModel, p: Progress) returns (q: Progress)
    requires p.stop.None?
    ensures q == Step(x, scene.files, p, m)
  {
    var modelFile := scene.FindFile(x.paths.models, Some(m.name));
    if !Truthy(modelFile) {
      return p.(stop := Some(MissingModel(m.name)));
    }
    var obj := ObjectOf(x, m);
    var extents := p.extents;
    var frame := ShapeGeometry(obj.shape, m.boundingBox, extents);
    if Physical(x, obj) && frame.None? {
      return p.(stop := Some(UnboundExtents(m.name)));
    }
    if Physical(x, obj) && !obj.shape.overwriteSize {
      extents := Some(m.boundingBox);
    }
    var parts := ComponentsOf(x, scene.files, obj, m, modelFile.value, frame, p.compoId);
    if x.currentPass == 0 {
      q := WriteIndividual(x, p.(extents := extents), obj, m, parts);
    } else {
      q := AppendNode(x, p.(extents := extents), obj, m, parts);
    }
    assert q == Emit(x, scene.files, p.(extents := extents), obj, m, modelFile.value, frame);
  }

  /** The collective and scene prefabs written after the model loop. */
  method WritePrefabs(x: ExportSettings, sceneName: string, p: Progress) returns (written: seq<Written>)
    requires |p.slots| >= 1 && p.stop.None?
    ensures written == Finish(x, sceneName, p)
  {
    var o := x.options;
    var root := Tree(p.slots, 0);
    written := p.written;
    if o.doCollectivePrefab && !o.mergeObjects && x.mayWrite(x.paths.objects, sceneName) {
      written := written + [Written(x.paths.objects, sceneName, root)];
    } else {
      assert written == written + [];
    }
    ghost var collective := written;
    if o.doScenePrefab && x.mayWrite(x.paths.scenes, sceneName) {
      written := written + [Written(x.paths.scenes, sceneName, Scene(1, SceneComponents(o) + [root]))];
    } else {
      assert written == collective + [];
    }
  }

  /** The model loop of `UrhoExportPrefabs` over the sorted models, then the collective and scene prefabs. */
  method ExportSorted(scene: UrhoScene, x: ExportSettings) returns (written: seq<Written>, stop: Option<Stop>)
    ensures (written, stop) == Exported(x, scene.blenderSceneName, scene.files, scene.models)
  {
    var models := scene.models;
    var start := Start(x.options, scene.blenderSceneName);
    var p := start;
    var i := 0;
    while i < |models|
      invariant 0 <= i <= |models|
      invariant p == Run(x, scene.files, start, models[..i]) && p.stop.None?
    {
      RunSnoc(x, scene.files, start, models, i);
      p := ExportModel(scene, x, models[i], p);
      i := i + 1;
      if p.stop.Some? {
        RunAfterStop(x, scene.files, start, models, i);
        return p.written, p.stop;
      }
    }
    assert models[..i] == models;
    RunKeepsRoot(x, scene.files, start, models);
    written := WritePrefabs(x, scene.blenderSceneName, p);
    stop := None;
  }

  /** `UrhoExportPrefabs`: sorts the scene's models, then emits and writes the prefabs. */
  method UrhoExportPrefabs(scene: UrhoScene, x: ExportSettings) returns (written: seq<Written>, stop: Option<Stop>)
    modifies scene
    ensures scene.models ==
      Hierarchy.Rearranged(Hierarchy.Flatten(Hierarchy.Built(old(scene.models), ModelName, ParentName)), old(scene.models), ModelName).taken
    ensures scene.files == old(scene.files) && scene.blenderSceneName == old(scene.blenderSceneName)
    ensures (written, stop) == Exported(x, scene.blenderSceneName, scene.files, scene.models)
  {
    scene.SortModels();
    written, stop := ExportSorted(scene, x);
  }
}
