# Urho3D exporter for Blender: hierarchy, prefabs and scene assembly

This project models the sequential core of the Blender add-on that exports scenes to the
Urho3D engine, and proves properties of the model. The core has three parts.

- **Scene registry and hierarchy sorting** (`io_mesh_urho/export_scene.py`).
  - `Tree.push` builds a name-keyed forest of `Node`s. A parent name that was never pushed gets
    a placeholder node. A self-parent is ignored.
  - `Tree.to_list` flattens the forest in pre-order, visiting the roots in dictionary insertion
    order.
  - `UrhoScene.SortModels` moves the model records into that order.
  - `AddFile`/`FindFile` form a registry keyed by `pathType + name`.
  - `UrhoWriteMaterialsList` builds one line per material, with `null` for a missing file.
- **Prefab and scene XML assembly** (`io_mesh_urho/prefabs.py`).
  - `UrhoExportPrefabs` walks the sorted models with a node counter and a component counter.
  - It emits a RigidBody, a CollisionShape, a Navigable and a model component per model. Each
    attribute is suppressed when its value is Urho3D's default.
  - In pass 0 it writes one individual prefab per model. In a later pass it nests model nodes
    into a collective prefab.
  - It can also write a scene prefab with fixed infrastructure components.
  - `GetBitMask` turns eight layer flags into an integer mask, with 255 mapped to -1.
- **Scene from prefabs** (`urho_scene_prefab.py`).
  - `ExportScenePrefabButton.SortModels` drops hidden objects and sorts the rest with the same
    tree.
  - `execute` builds the scene infrastructure. For each gathered instance it loads the prefab's
    root node and rewrites its Position, Rotation and Scale attributes in place. It appends the
    attributes that are absent.
  - It hangs the prefab under the scene or under the element of its parent instance. Then it
    writes the scene file.

## How the model is built

- **Tree and registry.**
  - `Hierarchy.Tree` is a class whose methods update its dictionary fields in place:
    `keys` (the insertion order), `par` (the node parents) and `kids` (the children lists).
  - Each method is proved against a value-level function on `TreeState`: `Pushed`, `Subtree`
    and `Flatten`.
  - `Registry.UrhoScene` is a class with the models list and the file dictionary.
  - The record sort is the generic `Hierarchy.SortByHierarchy`. Both `SortModels` use it.
- **XML documents and element mutation.**
  - XML is a small datatype of scenes, nodes, components and attributes (`Xml.Item`).
  - `SubElement` and `append` mutation is modelled with an arena of slots. Each slot holds an
    element and the indices of the slots appended to it.
  - The written document is the tree materialised from the arena (`Xml.Tree`).
- **Loops.**
  - The model loop of `UrhoExportPrefabs` is a method over a local state (`Prefabs.Progress`).
    It is proved equal to a left fold of `Prefabs.Step`.
  - The instance loop of `execute` is a method proved equal to a fold of `ScenePrefab.Place`.
  - The in-place rewrite of the prefab's children is a method over an `array`, proved equal to
    `ScenePrefab.Rewritten`.
- **Values.**
  - Floats are `real`s.
  - The `utils` formatters (`FloatToString`, `Vector3ToString`) are the fields of a `Formatter`
    record passed in.
  - `CheckFilepath` is a `mayWrite` predicate.
  - "Write a file" is an entry in the returned list of written documents.

## Model

| member | source | states |
|---|---|---|
| Hierarchy.Pushed | io_mesh_urho/export_scene.py:92-101 | `push`: the dictionary gains the name and a truthy parent; only a truthy parent other than the name itself gets the name as child and becomes its parent; every other children list is unchanged; the insertion order only grows |
| Hierarchy.Subtree | io_mesh_urho/export_scene.py:82-86 | definition, no contract: the node followed by the lists of its children, cut where a name reappears on its own path |
| Hierarchy.Flatten | io_mesh_urho/export_scene.py:103-108 | definition, no contract: the lists of the parentless nodes, in dictionary order |
| Hierarchy.Built | io_mesh_urho/export_scene.py:146-149 | definition, no contract: the tree after pushing every record's name and parent name, in order |
| Hierarchy.Rearranged | io_mesh_urho/export_scene.py:153-160 | definition, no contract: along the name order, the first waiting record of each name is moved to the result |
| Hierarchy.Tree.constructor | io_mesh_urho/export_scene.py:89-90 | a new tree has an empty dictionary |
| Hierarchy.Tree.Push | io_mesh_urho/export_scene.py:92-101 | the in-place `push` leaves the tree in the state `Pushed` describes |
| Hierarchy.Tree.NodeList | io_mesh_urho/export_scene.py:82-86 | the recursive `Node.to_list` returns the node followed by its children's lists |
| Hierarchy.Tree.ToList | io_mesh_urho/export_scene.py:103-108 | `Tree.to_list` returns the lists of the parentless nodes in dictionary order |
| Hierarchy.ChildrenAppend | io_mesh_urho/export_scene.py:84-85 | the list of a concatenation of children is the concatenation of their lists |
| Hierarchy.KeyIndex | io_mesh_urho/export_scene.py:155-157 | the index found is the first record with the key; None exactly when no record has it |
| Hierarchy.FindFirst | io_mesh_urho/export_scene.py:155-160 | the inner `for model ... break` scan agrees with `KeyIndex` |
| Hierarchy.Rearrange | io_mesh_urho/export_scene.py:153-160 | the rearrangement loop, moving the first waiting record of each name to the result, equals `Rearranged` |
| Hierarchy.SortByHierarchy | io_mesh_urho/export_scene.py:144-160 | pushing every record and rearranging along `to_list` returns `Rearranged(Flatten(Built(..)))` |
| TreeFacts.ParentRoot | io_mesh_urho/export_scene.py:103-108 | a node has a parentless ancestor exactly when its parent has, one step further away |
| TreeFacts.CycleNoRoot | io_mesh_urho/export_scene.py:103-108 | a node on a cycle of parents has no parentless ancestor |
| TreeFacts.SubtreeAnc | io_mesh_urho/export_scene.py:82-86 | every name in a node's list descends from that node |
| TreeFacts.SubtreeDistinct | io_mesh_urho/export_scene.py:82-86 | the list of a node with a parentless ancestor names nobody twice |
| TreeFacts.ChildrenDistinct | io_mesh_urho/export_scene.py:84-85 | the lists of distinct siblings together name nobody twice |
| TreeFacts.RootBlock | io_mesh_urho/export_scene.py:103-108 | the list of a parentless node is one contiguous block of `to_list`, at its dictionary position |
| TreeFacts.SubtreeInfix | io_mesh_urho/export_scene.py:82-86 | the list of any descendant sits inside the list of its ancestor |
| TreeFacts.FlattenMembers | io_mesh_urho/export_scene.py:103-108 | `to_list` holds exactly the names whose parent chain ends in a parentless node |
| TreeFacts.FlattenDistinct | io_mesh_urho/export_scene.py:103-108 | `to_list` never names a node twice |
| TreeFacts.FlattenPermutation | io_mesh_urho/export_scene.py:103-108 | with every node under a parentless ancestor, `to_list` is a permutation of the dictionary, placeholders included |
| TreeFacts.FlattenParentsFirst | io_mesh_urho/export_scene.py:82-86 | in `to_list` every node with a parent comes after that parent (lines 103-108 of the same file) |
| TreeFacts.SiblingOrder | io_mesh_urho/export_scene.py:100-101 | children appear in `to_list` in the order they were attached |
| TreeFacts.RootOrder | io_mesh_urho/export_scene.py:103-108 | parentless nodes appear in dictionary insertion order |
| TreeFacts.CycleOmitted | io_mesh_urho/export_scene.py:103-108 | names on a parent cycle are left out of `to_list` |
| TreeFacts.AcyclicRooted | io_mesh_urho/export_scene.py:92-108 | without a parent cycle every node has a parentless ancestor, so nothing is omitted |
| SortFacts.FirstOccurrencesMembers | io_mesh_urho/export_scene.py:94-98 | the dictionary order holds each mentioned name once |
| SortFacts.PushedWellFormed | io_mesh_urho/export_scene.py:92-101 | `push` keeps the dictionary consistent and extends its order by the names it mentions |
| SortFacts.PushedLinked | io_mesh_urho/export_scene.py:99-101 | pushing a name without a parent keeps parent and children links in agreement |
| SortFacts.BuiltWellFormed | io_mesh_urho/export_scene.py:146-149 | the tree built from the records is consistent |
| SortFacts.BuiltLinked | io_mesh_urho/export_scene.py:146-149 | with one record per name, the built tree's parent and children links agree |
| SortFacts.BuiltParents | io_mesh_urho/export_scene.py:94-101 | with one record per name, a name has a parent exactly when pushed with a truthy parent other than itself, and it is that parent |
| SortFacts.BuiltChildren | io_mesh_urho/export_scene.py:99-101 | the children of every node are the records pushed under it, in push order |
| SortFacts.BuiltKeys | io_mesh_urho/export_scene.py:94-98 | the dictionary order is the order in which the records first mention each name |
| SortFacts.BuiltNodes | io_mesh_urho/export_scene.py:94-98 | every name a record mentions, and no other, is a node, parent-only placeholders included |
| SortFacts.KeyIndexWithKey | io_mesh_urho/export_scene.py:155-159 | the scan finds a key exactly when a record has it, and removing that record drops only the first record of that key |
| SortFacts.RearrangedMoves | io_mesh_urho/export_scene.py:153-160 | records move from the waiting list to the result, never copied or lost |
| SortFacts.RearrangedSpec | io_mesh_urho/export_scene.py:153-160 | along distinct names, the result holds the first record of each name that has one, in name order, and the waiting list loses exactly those |
| SortFacts.RearrangedPermutation | io_mesh_urho/export_scene.py:153-160 | when the order names every record and names are unique, every record is taken once |
| SortFacts.PresentBefore | io_mesh_urho/export_scene.py:153-160 | names without a record are skipped without disturbing the order of the others |
| SortFacts.SortedPermutation | io_mesh_urho/export_scene.py:144-160 | with unique names and no parent cycle, `SortModels` returns a permutation of the models |
| SortFacts.ParentRecordFirst | io_mesh_urho/export_scene.py:144-160 | the record of a parent comes before the record of its child |
| SortFacts.SiblingRecordsInOrder | io_mesh_urho/export_scene.py:144-160 | records pushed under the same parent keep their relative order |
| SortFacts.SortedByHierarchy | io_mesh_urho/export_scene.py:144-160 | permutation, parent before child, and stable sibling order, together |
| SortFacts.OrderedRecords | io_mesh_urho/export_scene.py:153-160 | two records whose names come in that order are taken in that order |
| Registry.Lookup | io_mesh_urho/export_scene.py:130-136 | definition, no contract: the path stored under `pathType + name`, None for a None name or a missing key |
| Registry.UrhoScene.FindFile | io_mesh_urho/export_scene.py:130-136 | definition, no contract: `Lookup` of the scene's files |
| Registry.MaterialsListContent | io_mesh_urho/export_scene.py:234-248 | definition, no contract: the newline-ended material lines of the first model with the name, None when there is none |
| Registry.FindAfterAdd | io_mesh_urho/export_scene.py:120-136 | after an accepted `AddFile`, `FindFile` with the same type and name returns the path |
| Registry.AddKeepsOthers | io_mesh_urho/export_scene.py:120-136 | `AddFile` changes no other lookup, and a refused `AddFile` changes nothing |
| Registry.AddTwice | io_mesh_urho/export_scene.py:120-128 | the duplicate test looks at the bare name: with a non-empty path type a second add overwrites; with an empty one it is refused |
| Registry.UrhoScene.constructor | io_mesh_urho/export_scene.py:111-118 | an empty models list and file dictionary |
| Registry.UrhoScene.AddFile | io_mesh_urho/export_scene.py:120-128 | returns False for a None or empty name or a name already a key, storing nothing; otherwise stores the path under `pathType + name` and returns True |
| Registry.UrhoScene.SortModels | io_mesh_urho/export_scene.py:144-160 | the models list becomes the records rearranged along `to_list` of their (name, parent object name) tree; the files are unchanged |
| Registry.MaterialLines | io_mesh_urho/export_scene.py:243-248 | one line per material, in order, each the found path or `null` |
| Registry.UrhoScene.MaterialsList | io_mesh_urho/export_scene.py:234-248 | the content string of `UrhoWriteMaterialsList` equals `MaterialsListContent` |
| Registry.MaterialsListLines | io_mesh_urho/export_scene.py:234-248 | no content exactly when no model has the name; otherwise splitting at newlines gives one line per material of the first such model, in order, and an empty rest |
| Text.SplitTerminated | io_mesh_urho/export_scene.py:248 | splitting newline-ended lines gives back the lines |
| Text.SplitPrefixed | io_mesh_urho/prefabs.py:158-163 | splitting a head and `;`-prefixed parts gives the head and the parts |
| Text.NatRoundTrip | io_mesh_urho/prefabs.py:104 | `'{:d}'.format(n)` for `n >= 0` is a digit string that reads back as `n` (lines 129 of the same file) |
| Text.IntRoundTrip | io_mesh_urho/prefabs.py:329-331 | `int('{:d}'.format(i)) == i`, and the text has no sign exactly when `i >= 0` |
| BitMask.MaskValue | io_mesh_urho/prefabs.py:26-35 | definition, no contract: `LayerBits` of the flags, bit `i` for flag `i`, with 255 replaced by -1 |
| BitMask.OrBit | io_mesh_urho/prefabs.py:30 | `a \| b` sets exactly the bits set in either operand |
| BitMask.LayerBitsBit | io_mesh_urho/prefabs.py:27-31 | bit `i` of the mask is set exactly when flag `i` exists and is true |
| BitMask.LayerBitsBound | io_mesh_urho/prefabs.py:27-31 | the mask of `n` flags is below `1 << n` |
| BitMask.GetBitMask | io_mesh_urho/prefabs.py:27-35 | the loop returns `MaskValue(layers)` |
| BitMask.MaskMinusOne | io_mesh_urho/prefabs.py:24-35 | -1 exactly when the first eight flags are true and any later ones false; otherwise the result's bits are the flags (longer lists can exceed 255) |
| BitMask.MaskFromBits | io_mesh_urho/prefabs.py:27-35 | flags that are the bits of a value other than 255 give that value |
| BitMask.MaskCorners | urho_scene_prefab.py:38-46 | eight true flags give -1, none give 0, the first only gives 1, nine true flags give 511 |
| Components.BodyAttributes | io_mesh_urho/prefabs.py:263-376 | definition, no contract: the RigidBody attributes, each written only off its default |
| Components.ShapeAttributes | io_mesh_urho/prefabs.py:385-426 | definition, no contract: Shape Type, then the Model or the Size and Offset Position, then the optional attributes |
| Components.DisplayAttributes | io_mesh_urho/prefabs.py:463-529 | definition, no contract: Model and Material, then each display attribute only off its default |
| Components.BodyDefaults | io_mesh_urho/prefabs.py:610-635 | definition, no contract: the values the RigidBody reset operator sets |
| Components.ShapeDefaults | io_mesh_urho/prefabs.py:588-602 | definition, no contract: the values the CollisionShape reset operator sets |
| Components.DisplayDefaults | io_mesh_urho/prefabs.py:566-580 | definition, no contract: the values the model reset operator sets |
| Components.BodyGroupsEmpty | io_mesh_urho/prefabs.py:263-376 | each group of RigidBody attributes is empty exactly when its settings are at Urho3D's defaults |
| Components.BodyEmpty | io_mesh_urho/prefabs.py:263-376 | the RigidBody has no attribute exactly when every setting is at its default |
| Components.BodyResetWritesNothing | io_mesh_urho/prefabs.py:610-635 | the body reset operator's values are the defaults, so the RigidBody carries no attribute |
| Components.OnlyFriction | io_mesh_urho/prefabs.py:263-286 | with the other groups at defaults only the friction attributes are written |
| Components.OnlyMotion | io_mesh_urho/prefabs.py:288-306 | with the other groups at defaults only the velocity and factor attributes are written |
| Components.OnlyDamping | io_mesh_urho/prefabs.py:308-326 | with the other groups at defaults only the damping and rest threshold attributes are written |
| Components.OnlyCollision | io_mesh_urho/prefabs.py:328-351 | with the other groups at defaults only the layer, mask, threshold and CCD attributes are written |
| Components.OnlyFlags | io_mesh_urho/prefabs.py:353-376 | with the other groups at defaults only the event mode, gravity, kinematic and trigger attributes are written |
| Components.BodyMassFrictionChange | io_mesh_urho/prefabs.py:263-271 | a reset body with only mass or friction changed writes exactly that attribute (lines 612-613 of the same file) |
| Components.BodyFrictionChange | io_mesh_urho/prefabs.py:273-286 | the same for anisotropic friction, rolling friction and restitution (lines 614-616 of the same file) |
| Components.BodyVelocityChange | io_mesh_urho/prefabs.py:288-296 | the same for linear and angular velocity (lines 617-618 of the same file) |
| Components.BodyFactorChange | io_mesh_urho/prefabs.py:298-306 | the same for linear and angular factor (lines 619-620 of the same file) |
| Components.BodyDampingChange | io_mesh_urho/prefabs.py:308-316 | the same for linear and angular damping (lines 621-622 of the same file) |
| Components.BodyRestThresholdChange | io_mesh_urho/prefabs.py:318-326 | the same for the rest thresholds (the linear one compared as text) (lines 623-624 of the same file) |
| Components.BodyLayerChange | io_mesh_urho/prefabs.py:328-336 | the same for collision layer and mask, written as the bit mask's decimal text (lines 625-626 of the same file) |
| Components.BodyContactThresholdChange | io_mesh_urho/prefabs.py:338-341 | a changed contact threshold is written exactly when below 1e17; the reset 1e18 is not (lines 627 of the same file) |
| Components.BodyCcdChange | io_mesh_urho/prefabs.py:343-351 | the same for CCD radius and motion threshold (lines 628-629 of the same file) |
| Components.BodyCollisionEventModeChange | io_mesh_urho/prefabs.py:353-356 | a changed event mode writes one attribute named "CCD Motion Threshold" (lines 630 of the same file) |
| Components.BodyFlagsChange | io_mesh_urho/prefabs.py:358-371 | turning gravity off, or kinematic or trigger on, writes exactly that attribute (lines 631-633 of the same file) |
| Components.BodyGravityOverrideChange | io_mesh_urho/prefabs.py:373-376 | the same for the gravity override (lines 634 of the same file) |
| Components.BodyEventModeName | io_mesh_urho/prefabs.py:348-356 | a body with both set carries two attributes named "CCD Motion Threshold" |
| Components.OneLayerText | io_mesh_urho/prefabs.py:27-35 | a single layer `i < 8` is written as the decimal of `1 << i` (lines 328-331 of the same file) |
| Components.ShapeGeometry | io_mesh_urho/prefabs.py:229-252 | overwritten size and offset are used as given; a computed size is the model's extent times the factor; a computed offset is the centre of the model's own box when its size was computed and otherwise of the box an earlier model left in the local `bbox`, a flat Box getting height 1 and offset -0.5; None exactly when the size is overwritten, the offset is not, and `bbox` is still unbound |
| Components.ShapeOptionalNames | io_mesh_urho/prefabs.py:408-426 | the trailing shape attributes are only offset rotation, LOD level, margin and custom geometry node |
| Components.ShapeVolumeNames | io_mesh_urho/prefabs.py:389-406 | a mesh shape names its model; any other shape names only size and offset |
| Components.ShapeKinds | io_mesh_urho/prefabs.py:385-406 | the shape type comes first; TriangleMesh or ConvexHull has a Model and no Size or Offset; other shapes have no Model |
| Components.ShapeResetAttributes | io_mesh_urho/prefabs.py:588-602 | a reset shape is a triangle mesh naming the model's own file and nothing else |
| Components.DisplayMinimal | io_mesh_urho/prefabs.py:463-529 | the model component starts with Model and Material and has more exactly when a setting is off its default; the reset values are the defaults (lines 566-580 of the same file) |
| Components.DisplayDistanceChange | io_mesh_urho/prefabs.py:471-504 | a single changed culling, distance, LOD or light setting adds exactly that attribute (lines 568-574 of the same file) |
| Components.DisplayMaskChange | io_mesh_urho/prefabs.py:506-529 | a single changed mask or occlusion LOD level adds exactly that attribute (lines 576-579 of the same file) |
| Components.ShapeSingleChange | io_mesh_urho/prefabs.py:408-426 | a reset shape writes no trailing attribute, and a single change writes exactly that one (lines 592-595 of the same file) |
| Prefabs.SceneComponents | io_mesh_urho/prefabs.py:66-122 | definition, no contract: Octree, DebugRenderer, the optional Skybox, NavigationMesh and PhysicsWorld, then the light node |
| Prefabs.RootId | io_mesh_urho/prefabs.py:103-129 | definition, no contract: the light node takes the first id when there is a scene prefab, the root the next |
| Prefabs.Numbered | io_mesh_urho/prefabs.py:255-261 | definition, no contract: the components of a model with consecutive ids (lines 379-383 of the same file) |
| Prefabs.BoxAfter | io_mesh_urho/prefabs.py:234-239 | definition, no contract: the box the local `bbox` holds after a model |
| Prefabs.Individually | io_mesh_urho/prefabs.py:165-168 | definition, no contract: the individual prefab is written when allowed and the node counter resets (lines 533-538 of the same file) |
| Prefabs.ParentSlot | io_mesh_urho/prefabs.py:170-176 | definition, no contract: the parent object's slot for a static model with an emitted parent, the root slot otherwise |
| Prefabs.Collectively | io_mesh_urho/prefabs.py:169-178 | definition, no contract: a new slot with the next node id, appended under `ParentSlot` |
| Prefabs.Emit | io_mesh_urho/prefabs.py:165-538 | definition, no contract: the model's components, then `Individually` in pass 0 and `Collectively` otherwise |
| Prefabs.Step | io_mesh_urho/prefabs.py:143-538 | definition, no contract: one loop iteration, ending the call on a missing model file or an unbound `bbox` |
| Prefabs.Run | io_mesh_urho/prefabs.py:143 | definition, no contract: the loop state after the models, a left fold of `Step` |
| Prefabs.Finish | io_mesh_urho/prefabs.py:541-552 | definition, no contract: the collective and scene prefabs after a loop that did not end early |
| Prefabs.Exported | io_mesh_urho/prefabs.py:57-552 | definition, no contract: the documents and the early-end reason of one call |
| Prefabs.MaterialPaths | io_mesh_urho/prefabs.py:158-163 | one path per material, the registered file or empty |
| Prefabs.GatherMaterials | io_mesh_urho/prefabs.py:158-163 | the `materials` loop builds `;` plus a path per material, in order |
| Prefabs.RunKeepsRoot | io_mesh_urho/prefabs.py:124-178 | the model loop never loses the root slot |
| Prefabs.RunSnoc | io_mesh_urho/prefabs.py:143 | one more model is one more loop step |
| Prefabs.RunAfterStop | io_mesh_urho/prefabs.py:153-155 | once the call has returned early, later models change nothing |
| Prefabs.WriteIndividual | io_mesh_urho/prefabs.py:165-168 | the pass-0 branch writes the model's prefab when allowed and resets the node counter (lines 533-538 of the same file) |
| Prefabs.AppendNode | io_mesh_urho/prefabs.py:169-178 | the later-pass branch adds the model's node as a new slot under its parent's slot |
| Prefabs.ExportModel | io_mesh_urho/prefabs.py:143-538 | one loop iteration on the local state equals `Step` |
| Prefabs.WritePrefabs | io_mesh_urho/prefabs.py:541-552 | the collective and scene prefabs written after the loop |
| Prefabs.ExportSorted | io_mesh_urho/prefabs.py:59-552 | the whole call over sorted models equals `Exported` |
| Prefabs.UrhoExportPrefabs | io_mesh_urho/prefabs.py:57-552 | sorts the scene's models in place, then writes exactly `Exported` of them; the files are unchanged |
| PrefabFacts.SceneIds | io_mesh_urho/prefabs.py:66-124 | the scene starts with Octree 1 and DebugRenderer 2, gives its components increasing ids, and ends with the light node |
| PrefabFacts.SceneOptional | io_mesh_urho/prefabs.py:79-101 | Skybox exactly with `createSkybox`, NavigationMesh exactly with `navigation`, PhysicsWorld exactly with `doPhysics` outside 'Props' mode |
| PrefabFacts.MaterialAttribute | io_mesh_urho/prefabs.py:158-163 | splitting the Material value at `;` gives "Material" and each material's path or "", in order (lines 467-469 of the same file) |
| PrefabFacts.NumberedIds | io_mesh_urho/prefabs.py:255-261 | a model's components get consecutive ids from 0x1000000 (a physical model in pass 0) or from the counter, which moves past the last (lines 379-383, 450-461 of the same file) |
| PrefabFacts.ComponentsNumbered | io_mesh_urho/prefabs.py:227-529 | RigidBody and CollisionShape exactly when physical, Navigable exactly when asked for on a StaticModel or TerrainPatch, the model component last, with `Cost` ids |
| PrefabFacts.StepOutcome | io_mesh_urho/prefabs.py:151-155 | a model ends the call exactly when its model file is missing, or when it is physical, overwrites the size but not the offset, and no earlier model of the call bound `bbox`; an ending step keeps the rest of the state (lines 232-252 of the same file) |
| PrefabFacts.StepBox | io_mesh_urho/prefabs.py:234-239 | after a step that goes on, `bbox` holds the model's own box exactly when it is physical with a computed size, and is as before otherwise |
| PrefabFacts.RunExtents | io_mesh_urho/prefabs.py:232-252 | after the loop so far, `bbox` is unbound exactly when no model computed its size, and otherwise is the box of the last model that did |
| PrefabFacts.StaleOffset | io_mesh_urho/prefabs.py:244-252 | an overwritten size with a computed offset after `bbox` was bound does not end the call: the shape keeps the overwritten size and takes the centre of the earlier box as offset |
| PrefabFacts.StepEmits | io_mesh_urho/prefabs.py:143-529 | a step that does not end the call emits the model's components and node |
| PrefabFacts.StepCounters | io_mesh_urho/prefabs.py:165-178 | the component counter moves on by the model's cost, from 0x1000000 for a physical pass-0 model; the node counter resets in pass 0 and counts up in a later pass (lines 255-261 of the same file) |
| PrefabFacts.StepWrites | io_mesh_urho/prefabs.py:165-178 | pass 0 adds the individual prefab when allowed and leaves the collective tree; a later pass writes nothing and adds one slot (lines 533-538 of the same file) |
| PrefabFacts.StepExtends | io_mesh_urho/prefabs.py:143-538 | a step only extends the written documents and the slots |
| PrefabFacts.WrittenGrows | io_mesh_urho/prefabs.py:143-538 | the documents after a prefix of the models are a prefix of the final ones |
| PrefabFacts.IndividualTree | io_mesh_urho/prefabs.py:165-168 | pass 0 leaves the collective tree as it started and ends with the node counter reset |
| PrefabFacts.IndividualPrefabs | io_mesh_urho/prefabs.py:533-538 | pass 0 writes one individual prefab per writable model, named after it, in order |
| PrefabFacts.CollectiveRun | io_mesh_urho/prefabs.py:169-178 | a later pass writes nothing in the loop, adds one node per model with ids counting up from the root's, and uses `TotalCost` consecutive component ids (lines 255-261 of the same file) |
| PrefabFacts.StepPlacement | io_mesh_urho/prefabs.py:169-178 | a later-pass node is a new slot with the next id and the model's name, recorded in `elements`, appended under its parent's node exactly when the model is a StaticModel with a truthy, already emitted parent, and under the root otherwise |
| PrefabFacts.StepKeepsArena | io_mesh_urho/prefabs.py:169-178 | a later-pass step keeps the collective tree well formed and its root unchanged |
| PrefabFacts.CollectiveTree | io_mesh_urho/prefabs.py:124-178 | after a later pass every node is numbered by its slot and is the child of exactly one earlier node |
| PrefabFacts.WholeTree | io_mesh_urho/prefabs.py:541-552 | the written tree of each slot has every child's tree, in order |
| PrefabFacts.ExportedEnd | io_mesh_urho/prefabs.py:541-552 | the loop's documents come first, the early-end reason is reported, and nothing follows an early end |
| PrefabFacts.ExportedPrefabs | io_mesh_urho/prefabs.py:541-552 | after a loop that did not end early: the collective prefab when asked for and allowed, then the scene prefab with the scene components and the same root |
| PrefabFacts.ExportedLoop | io_mesh_urho/prefabs.py:143-538 | a later pass writes nothing in the loop; pass 0 leaves the root node without model nodes |
| PrefabFacts.ExportedDocs | io_mesh_urho/prefabs.py:541-552 | nothing more after an early return; otherwise the collective prefab when asked for and allowed, then the scene prefab with the scene components followed by the same root |
| ScenePrefab.Visible | urho_scene_prefab.py:129 | exactly the objects that are not hidden |
| ScenePrefab.SortModels | urho_scene_prefab.py:128-146 | the filter loop and the tree sort return `SortedObjects` |
| ScenePrefab.SortedModels | urho_scene_prefab.py:128-146 | with unique names and no cycle: every visible object once and no hidden one, parent before child, siblings in scene order |
| ScenePrefab.SortedPermutation | urho_scene_prefab.py:128-146 | the sorted objects are a permutation of the visible ones |
| ScenePrefab.SortedParentFirst | urho_scene_prefab.py:133-140 | each visible object comes after the visible object named as its parent |
| ScenePrefab.SortedSiblings | urho_scene_prefab.py:133-140 | visible objects with the same parent keep their scene order |
| ScenePrefab.OnlyVisible | urho_scene_prefab.py:129 | a permutation of the visible objects holds no hidden object |
| ScenePrefab.OptionalIds | urho_scene_prefab.py:192-213 | the optional components have ids 4, 5, 6, in increasing order |
| ScenePrefab.SceneIds | urho_scene_prefab.py:180-241 | the scene has id 1, starts with Octree 1 and DebugRenderer 2, components in increasing ids, then the light node 0x1000000 and the root 0x1000001 |
| ScenePrefab.SceneOptional | urho_scene_prefab.py:192-246 | Skybox with the skybox path as material exactly for a non-empty path, NavigationMesh with navigation, PhysicsWorld with physics, Navigable on the root with both navigation and navigable |
| ScenePrefab.PrefabRoot | urho_scene_prefab.py:148-160 | a root only for a loaded file whose root element is a node |
| ScenePrefab.SetTransforms | urho_scene_prefab.py:297-313 | the in-place loop over the children leaves them, and the pending values, as `Rewritten` describes |
| ScenePrefab.PendingLeft | urho_scene_prefab.py:297-313 | a transform value is still pending after the loop exactly when no attribute of that name was found |
| ScenePrefab.RewriteLength | urho_scene_prefab.py:297-313 | the loop neither adds nor removes children |
| ScenePrefab.RewriteAt | urho_scene_prefab.py:297-313 | each child after the loop depends only on itself and on whether it is the first of its name |
| ScenePrefab.RewriteFrame | urho_scene_prefab.py:297-313 | the first attribute named Position, Rotation or Scale gets the value, later duplicates get "", every other child is unchanged |
| ScenePrefab.MissingExactly | urho_scene_prefab.py:316-327 | exactly the absent transform attributes with a value are created, in the order Position, Rotation, Scale |
| ScenePrefab.MissingNamed | urho_scene_prefab.py:316-327 | a created attribute carries the instance's value for its name |
| ScenePrefab.TransformApplied | urho_scene_prefab.py:297-327 | after the rewrite and the appends, the first attribute of each transform name carries the instance's value |
| ScenePrefab.AppliedInPlace | urho_scene_prefab.py:297-313 | a transform attribute the prefab had takes the value where it stands |
| ScenePrefab.AppliedAppended | urho_scene_prefab.py:316-327 | a transform attribute the prefab lacked is created after all children, with the value |
| ScenePrefab.Retransformed | urho_scene_prefab.py:297-327 | definition, no contract: the rewritten children followed by the missing transform attributes |
| ScenePrefab.Place | urho_scene_prefab.py:253-333 | definition, no contract: one loop iteration over an instance |
| ScenePrefab.Run | urho_scene_prefab.py:253-333 | definition, no contract: the loop state after the instances, a left fold of `Place` |
| ScenePrefab.Exported | urho_scene_prefab.py:252-339 | definition, no contract: the scene document written, if any, and the failure |
| ScenePrefab.Transformed | urho_scene_prefab.py:297-327 | the rewrite and the appends together return `Retransformed` |
| ScenePrefab.RunSnoc | urho_scene_prefab.py:253 | one more instance is one more loop step |
| ScenePrefab.RunAfterStop | urho_scene_prefab.py:253-333 | after a failure the later instances change nothing |
| ScenePrefab.PlaceInstance | urho_scene_prefab.py:253-333 | one loop iteration equals `Place` |
| ScenePrefab.ExportScenePrefab | urho_scene_prefab.py:252-339 | the instance loop and the final write equal `Exported` |
| ScenePrefab.PlaceOutcome | urho_scene_prefab.py:253-333 | a missing or empty root is skipped; an unhandled front view fails with the unbound matrix; a truthy parent without an element fails; otherwise the rewritten root is a new slot, recorded for its object name and appended last under the parent's element or the scene |
| ScenePrefab.PlaceKeepsTree | urho_scene_prefab.py:260 | an instance that is not its own parent keeps the slots one tree under the scene (lines 330-333 of the same file) |
| ScenePrefab.RunTree | urho_scene_prefab.py:253-333 | without self-parents the placed prefabs hang in one tree under the scene |
| ScenePrefab.SelfParentDetached | urho_scene_prefab.py:260 | an instance named as its own parent is appended to itself, so the written scene never reaches it (lines 330-333 of the same file) |
| ScenePrefab.ExportedScene | urho_scene_prefab.py:336-339 | nothing is written after a failure or when the file may not be written; otherwise the scene element with its infrastructure, then the trees of the prefabs placed directly in the scene, in order |
| ScenePrefab.SceneDoc | urho_scene_prefab.py:180-246 | the written scene is the infrastructure followed by the trees of the scene's direct prefabs (lines 330-333 of the same file) |

## Left out

- Blender UI: panels, property registrations, `draw`, `register` and the report operator.
- `UrhoSceneMaterial.Load`, `UrhoSceneModel.Load`, `UrhoScene.Load` and `UrhoGatherInstances`.
  These read `bpy.data`; models and instances are inputs here.
- The module-level `instances` and `mdls` lists of `urho_scene_prefab.py` that persist across
  calls. The model covers one invocation with its own instance list.
- Matrix, Euler and quaternion math, `axis_conversion`, `degrees` and `'{:g}'` formatting. A
  node's Position, Rotation and Scale texts are inputs (`Components.Transform`).
- `utils` is not part of this model.
  - `FloatToString` and `Vector3ToString` are uninterpreted formatter fields.
  - `GetFilepath` and `CheckFilepath` become the `mayWrite` predicate.
  - `WriteXmlFile` becomes an entry in the list of written documents.
  - The `PathType` constants are strings passed in.
- File reading and writing: `ET.parse`/`exists` become a `prefabs` lookup function, and the
  `open`/`write` of `UrhoWriteMaterialsList` are left out (only its content is modelled).
- `UrhoWriteMaterial`. It depends on `utils` formatters and file paths that are not part of
  this model.
- Logging.
- Floats are exact `real`s, so Python float rounding is not modelled.
- The `bpy.data.objects[...]` lookup is a total function from model to object settings.
- Exceptions. The `KeyError` of `elements[parentName]` and the unbound `posMatrix` become an
  error result on the loop state (`ScenePrefab.Failure`). The later instances are then ignored,
  and no scene is written, as with the exception.
- `bbox`, `x`, `y` and `z` are locals of the whole call and keep their values from one model to
  the next. `Prefabs.Progress.extents` carries that box. A shape that overwrites its size but not
  its offset takes the centre of the box an earlier model left there. When no earlier physical
  model of the call computed its size, the locals are unbound and Python raises
  `UnboundLocalError`. The model ends the call there with `Prefabs.Stop.UnboundExtents`.
- `Hierarchy.Subtree` and `Hierarchy.Tree.NodeList`: a name pushed twice can leave stale children
  lists that form a cycle reachable from a parentless node. An example is the records (a, b),
  (b, a), (a, r). There `Node.to_list` recurses without end, and the `RecursionError` aborts
  `SortModels` and the whole export. The model's `avail` set cuts the recursion and returns a
  list instead. The sort theorems assume one record per name, and then the children lists agree
  with the parents (`Hierarchy.Linked`).
- `Prefabs.AppendNode`: finds the parent's node through `elements[parentObjectName]` instead of
  the `for usm in uScene.modelsList` search. This is the same element whenever the parent was
  emitted, which the guard requires.
- `doIndividualPrefab` of `SOptions` is never read by the exporter and is not modelled.
- The copy of `GetBitMask` in `urho_scene_prefab.py` is the same code and is modelled once
  (`BitMask`).
- ElementTree aliasing beyond `append`: each loaded prefab is a fresh element, and a self-parent
  instance is appended to its own element. The arena models this as a slot that lists itself.
  It is left out of the written tree, where ElementTree would hold a cycle.
