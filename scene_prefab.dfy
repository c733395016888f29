/**
 * The scene prefab operator of urho_scene_prefab.py (`ExportScenePrefabButton`). It orders the
 * visible objects of the Blender scene parent-before-child, builds a `<scene>` element with the
 * fixed components, a light node and a root node, then loads the individual prefab of every
 * gathered instance, rewrites the prefab's Position, Rotation and Scale attributes in place and
 * appends the prefab under the scene or under the prefab of its parent instance.
 *
 * The scene element and every loaded prefab root are kept as slots (see module Xml): slot 0 is
 * the scene element, slot k >= 1 the k-th prefab placed.
 */
module ScenePrefab {
  import opened Wrappers
  import opened Xml
  import Hierarchy
  import TreeFacts
  import SortFacts
  import Components
  import Prefabs
  import PrefabFacts

  // ---------------------------------------------------------------------------------------------
  // SortModels
  // ---------------------------------------------------------------------------------------------

  /** A Blender object of the scene: its name, its parent's name (None without a parent), hidden or not. */
  datatype SceneObject = SceneObject(name: string, parent: Option<string>, hide: bool)

  function ObjectName(o: SceneObject): string {
    o.name
  }

  function ObjectParent(o: SceneObject): Option<string> {
    o.parent
  }

  /** The objects that are not hidden, in scene order. */
  function Visible(objects: seq<SceneObject>): (r: seq<SceneObject>)
    ensures |r| <= |objects|
    ensures forall o :: o in r <==> o in objects && !o.hide
  {
    if objects == [] then []
    else
      var last := objects[|objects| - 1];
      Visible(objects[..|objects| - 1]) + (if last.hide then [] else [last])
  }

  /** What `SortModels` returns: the visible objects in the order of the tree of (name, parent name). */
  ghost function SortedObjects(objects: seq<SceneObject>): seq<SceneObject> {
    var visible := Visible(objects);
    Hierarchy.Rearranged(Hierarchy.Flatten(Hierarchy.Built(visible, ObjectName, ObjectParent)), visible, ObjectName).taken
  }

  /** `SortModels`: filter out the hidden objects, then order the rest by the name tree. */
  method SortModels(objects: seq<SceneObject>) returns (sorted: seq<SceneObject>)
    ensures sorted == SortedObjects(objects)
  {
    var models := [];
    var i := 0;
    while i < |objects|
      invariant 0 <= i <= |objects|
      invariant models == Visible(objects[..i])
    {
      assert objects[..i + 1][..i] == objects[..i];
      if !objects[i].hide {
        models := models + [objects[i]];
      }
      i := i + 1;
    }
    assert objects[..i] == objects;
    sorted := Hierarchy.SortByHierarchy(models, ObjectName, ObjectParent);
  }

  /**
   * With distinct names and no parent cycle, `SortModels` returns every visible object once and
   * no hidden one, each object after the object named as its parent, and objects with the same
   * parent in scene order.
   */
  lemma SortedModels(objects: seq<SceneObject>)
    requires SortFacts.DistinctKeys(Visible(objects), ObjectName)
    requires TreeFacts.Acyclic(Hierarchy.Built(Visible(objects), ObjectName, ObjectParent))
    ensures multiset(SortedObjects(objects)) == multiset(Visible(objects))
    ensures forall o :: o in SortedObjects(objects) ==> o in objects && !o.hide
    ensures var visible := Visible(objects);
      forall a, b ::
        (0 <= a < |visible| && 0 <= b < |visible| && SortFacts.LinksUp(visible[a], ObjectName, ObjectParent)
         && visible[a].parent.value == visible[b].name) ==> Before(SortedObjects(objects), visible[b], visible[a])
    ensures var visible := Visible(objects);
      forall a, b ::
        (0 <= a < b < |visible| && SortFacts.LinksUp(visible[a], ObjectName, ObjectParent)
         && SortFacts.LinksUp(visible[b], ObjectName, ObjectParent) && visible[a].parent == visible[b].parent)
        ==> Before(SortedObjects(objects), visible[a], visible[b])
  {
    SortedPermutation(objects);
    OnlyVisible(objects, SortedObjects(objects));
    SortedParentFirst(objects);
    SortedSiblings(objects);
  }

  /** Every visible object once. */
  lemma SortedPermutation(objects: seq<SceneObject>)
    requires SortFacts.DistinctKeys(Visible(objects), ObjectName)
    requires TreeFacts.Acyclic(Hierarchy.Built(Visible(objects), ObjectName, ObjectParent))
    ensures multiset(SortedObjects(objects)) == multiset(Visible(objects))
  {
    SortFacts.SortedByHierarchy(Visible(objects), ObjectName, ObjectParent);
  }

  /** Each visible object after the visible object named as its parent. */
  lemma SortedParentFirst(objects: seq<SceneObject>)
    requires SortFacts.DistinctKeys(Visible(objects), ObjectName)
    requires TreeFacts.Acyclic(Hierarchy.Built(Visible(objects), ObjectName, ObjectParent))
    ensures var visible := Visible(objects);
      forall a, b ::
        (0 <= a < |visible| && 0 <= b < |visible| && SortFacts.LinksUp(visible[a], ObjectName, ObjectParent)
         && visible[a].parent.value == visible[b].name) ==> Before(SortedObjects(objects), visible[b], visible[a])
  {
    SortFacts.SortedByHierarchy(Visible(objects), ObjectName, ObjectParent);
  }

  /** Visible objects with the same parent in scene order. */
  lemma SortedSiblings(objects: seq<SceneObject>)
    requires SortFacts.DistinctKeys(Visible(objects), ObjectName)
    requires TreeFacts.Acyclic(Hierarchy.Built(Visible(objects), ObjectName, ObjectParent))
    ensures var visible := Visible(objects);
      forall a, b ::
        (0 <= a < b < |visible| && SortFacts.LinksUp(visible[a], ObjectName, ObjectParent)
         && SortFacts.LinksUp(visible[b], ObjectName, ObjectParent) && visible[a].parent == visible[b].parent)
        ==> Before(SortedObjects(objects), visible[a], visible[b])
  {
    SortFacts.SortedByHierarchy(Visible(objects), ObjectName, ObjectParent);
  }

  /** A permutation of the visible objects holds no hidden object. */
  lemma OnlyVisible(objects: seq<SceneObject>, sorted: seq<SceneObject>)
    requires multiset(sorted) == multiset(Visible(objects))
    ensures forall o :: o in sorted ==> o in objects && !o.hide
  {
    forall o | o in sorted ensures o in objects && !o.hide {
      assert o in multiset(sorted);
      assert o in Visible(objects);
    }
  }

  // ---------------------------------------------------------------------------------------------
  // The scene element
  // ---------------------------------------------------------------------------------------------

  /**
   * The scene settings `execute` reads: the scene's name, the skybox path, the navigation,
   * navigable and physics flags, and the front view (None for an unset enumeration).
   */
  datatype SceneSettings = SceneSettings(
    name: string,
    skyboxPath: string,
    navigation: bool,
    navigable: bool,
    physics: bool,
    orientation: Option<string>)

  /** The components `execute` adds only when a setting asks for them. */
  function Optional(s: SceneSettings): seq<Item> {
    Opt(s.skyboxPath != "", Component("Skybox", Some(4), [
      Attribute("Model", "Model;Models/Box.mdl"),
      Attribute("Material", "Material;" + s.skyboxPath)]))
    + Opt(s.navigation, Component("NavigationMesh", Some(5), []))
    + Opt(s.physics, Component("PhysicsWorld", Some(6), []))
  }

  /** The children of the scene element before the root node. */
  function SceneComponents(s: SceneSettings): seq<Item> {
    [Component("Octree", Some(1), []), Component("DebugRenderer", Some(2), [])] + Optional(s) + [Prefabs.LightNode()]
  }

  /** The root node, which gets the id after the light node's. */
  function RootNode(s: SceneSettings): Item {
    Node(Prefabs.FirstId + 1, [Attribute("Name", s.name)] + Opt(s.navigation && s.navigable, Component("Navigable", None, [])))
  }

  /** The scene element before any prefab is appended to it. */
  function SceneHead(s: SceneSettings): Item {
    Scene(1, SceneComponents(s) + [RootNode(s)])
  }

  /** The optional components have ids 4, 5 and 6, in increasing order. */
  lemma OptionalIds(s: SceneSettings)
    ensures |Optional(s)| <= 3
    ensures forall i :: 0 <= i < |Optional(s)| ==>
      Optional(s)[i].Component? && Optional(s)[i].cid.Some? && 4 + i <= Optional(s)[i].cid.value <= 6
    ensures forall i, j :: 0 <= i < j < |Optional(s)| ==> Optional(s)[i].cid.value < Optional(s)[j].cid.value
  {
    var sky := Opt(s.skyboxPath != "", Component("Skybox", Some(4), [
      Attribute("Model", "Model;Models/Box.mdl"), Attribute("Material", "Material;" + s.skyboxPath)]));
    var nav := Opt(s.navigation, Component("NavigationMesh", Some(5), []));
    var phys := Opt(s.physics, Component("PhysicsWorld", Some(6), []));
    assert Optional(s) == sky + nav + phys;
  }

  /**
   * The scene element has id 1 and starts with the octree (1) and the debug renderer (2); the
   * components between them and the light node have increasing ids; the light node (0x1000000)
   * and the root node (0x1000001) come last.
   */
  lemma SceneIds(s: SceneSettings)
    ensures SceneHead(s).sid == 1
    ensures var c := SceneHead(s).items;
      && |c| >= 4
      && c[0] == Component("Octree", Some(1), []) && c[1] == Component("DebugRenderer", Some(2), [])
      && c[|c| - 2] == Prefabs.LightNode() && Prefabs.LightNode().nid == Prefabs.FirstId
      && c[|c| - 1] == RootNode(s) && RootNode(s).nid == Prefabs.FirstId + 1
      && (forall i :: 0 <= i < |c| - 2 ==> c[i].Component? && c[i].cid.Some?)
      && (forall i, j :: 0 <= i < j < |c| - 2 ==> c[i].cid.value < c[j].cid.value)
  {
    var fixed := [Component("Octree", Some(1), []), Component("DebugRenderer", Some(2), [])] + Optional(s);
    var c := SceneHead(s).items;
    assert c == fixed + [Prefabs.LightNode(), RootNode(s)];
    OptionalIds(s);
    assert forall i :: 2 <= i < |fixed| ==> fixed[i] == Optional(s)[i - 2];
  }

  /**
   * The optional parts: a Skybox whose material attribute names the skybox path exactly when
   * the path is not empty, a NavigationMesh exactly with navigation, a PhysicsWorld exactly with
   * physics, and a Navigable component on the root exactly with both navigation and navigable.
   */
  lemma SceneOptional(s: SceneSettings)
    ensures PrefabFacts.HasComponent(SceneComponents(s), "Skybox") <==> s.skyboxPath != ""
    ensures s.skyboxPath != "" ==> SceneComponents(s)[2].attrs[1] == Attribute("Material", "Material;" + s.skyboxPath)
    ensures PrefabFacts.HasComponent(SceneComponents(s), "NavigationMesh") <==> s.navigation
    ensures PrefabFacts.HasComponent(SceneComponents(s), "PhysicsWorld") <==> s.physics
    ensures PrefabFacts.HasComponent(RootNode(s).items, "Navigable") <==> s.navigation && s.navigable
  {
    var fixed := [Component("Octree", Some(1), []), Component("DebugRenderer", Some(2), [])];
    assert SceneComponents(s) == fixed + Optional(s) + [Prefabs.LightNode()];
    forall t | t in {"Skybox", "NavigationMesh", "PhysicsWorld"}
      ensures PrefabFacts.HasComponent(SceneComponents(s), t) <==> PrefabFacts.HasComponent(Optional(s), t)
    {
      HasComponentAppend(fixed, Optional(s), t);
      HasComponentAppend(fixed + Optional(s), [Prefabs.LightNode()], t);
    }
    OptionalPresence(s);
    if s.navigation && s.navigable {
      assert RootNode(s).items[1].ctype == "Navigable";
    }
  }

  lemma HasComponentAppend(a: seq<Item>, b: seq<Item>, t: string)
    ensures PrefabFacts.HasComponent(a + b, t) <==> PrefabFacts.HasComponent(a, t) || PrefabFacts.HasComponent(b, t)
  {
    if PrefabFacts.HasComponent(a + b, t) {
      var i :| 0 <= i < |a + b| && (a + b)[i].Component? && (a + b)[i].ctype == t;
      if i >= |a| {
        assert b[i - |a|] == (a + b)[i];
      }
    }
    if PrefabFacts.HasComponent(b, t) {
      var i :| 0 <= i < |b| && b[i].Component? && b[i].ctype == t;
      assert (a + b)[|a| + i] == b[i];
    }
    if PrefabFacts.HasComponent(a, t) {
      var i :| 0 <= i < |a| && a[i].Component? && a[i].ctype == t;
      assert (a + b)[i] == a[i];
    }
  }

  lemma OptionalPresence(s: SceneSettings)
    ensures PrefabFacts.HasComponent(Optional(s), "Skybox") <==> s.skyboxPath != ""
    ensures s.skyboxPath != "" ==> Optional(s)[0].attrs[1] == Attribute("Material", "Material;" + s.skyboxPath)
    ensures PrefabFacts.HasComponent(Optional(s), "NavigationMesh") <==> s.navigation
    ensures PrefabFacts.HasComponent(Optional(s), "PhysicsWorld") <==> s.physics
  {
    var o := Optional(s);
    if s.skyboxPath != "" {
      assert o[0].ctype == "Skybox";
    }
    if s.navigation {
      assert o[|Opt(s.skyboxPath != "", Attribute("", ""))|].ctype == "NavigationMesh";
    }
    if s.physics {
      assert o[|o| - 1].ctype == "PhysicsWorld";
    }
  }

  // ---------------------------------------------------------------------------------------------
  // The transform rewrite
  // ---------------------------------------------------------------------------------------------

  predicate IsTransformName(n: string) {
    n == "Position" || n == "Rotation" || n == "Scale"
  }

  /** The value still pending for the transform attribute `n`. */
  function Pending(t: Components.Transform, n: string): string {
    if n == "Position" then t.position
    else if n == "Rotation" then t.rotation
    else if n == "Scale" then t.scale
    else ""
  }

  /** The pending values after the attribute `n` took its value: that value is cleared. */
  function Taken(t: Components.Transform, n: string): Components.Transform {
    if n == "Position" then t.(position := "")
    else if n == "Rotation" then t.(rotation := "")
    else if n == "Scale" then t.(scale := "")
    else t
  }

  /** `e` is an attribute element named `n`. */
  predicate Named(e: Item, n: string) {
    e.Attribute? && e.name == n
  }

  /** Some child of `items` is an attribute named `n`. */
  predicate HasAttr(items: seq<Item>, n: string) {
    exists j :: 0 <= j < |items| && Named(items[j], n)
  }

  /** The loop over `findall('attribute')` up to a child: the children so far and the pending values. */
  function Rewritten(items: seq<Item>, t: Components.Transform): (seq<Item>, Components.Transform) {
    if items == [] then ([], t)
    else
      RewriteStep(Rewritten(items[..|items| - 1], t), items[|items| - 1])
  }

  /** One iteration: a transform attribute takes the pending value of its name, any other child stays. */
  function RewriteStep(r: (seq<Item>, Components.Transform), e: Item): (seq<Item>, Components.Transform) {
    if e.Attribute? && IsTransformName(e.name) then (r.0 + [Attribute(e.name, Pending(r.1, e.name))], Taken(r.1, e.name))
    else (r.0 + [e], r.1)
  }

  /** The attributes created after the loop for the pending values that are not empty, in this order. */
  function Missing(t: Components.Transform): seq<Item> {
    Opt(t.position != "", Attribute("Position", t.position))
    + Opt(t.rotation != "", Attribute("Rotation", t.rotation))
    + Opt(t.scale != "", Attribute("Scale", t.scale))
  }

  /** The prefab root's children after the rewrite and the appended attributes. */
  function Retransformed(items: seq<Item>, t: Components.Transform): seq<Item> {
    var r := Rewritten(items, t);
    r.0 + Missing(r.1)
  }

  /** The rewrite loop: every Position, Rotation or Scale attribute is set in place. */
  method SetTransforms(children: array<Item>, t: Components.Transform) returns (rest: Components.Transform)
    modifies children
    ensures (children[..], rest) == Rewritten(old(children[..]), t)
  {
    ghost var orig := children[..];
    rest := t;
    var i := 0;
    while i < children.Length
      invariant 0 <= i <= children.Length
      invariant (children[..i], rest) == Rewritten(orig[..i], t)
      invariant forall j :: i <= j < children.Length ==> children[j] == orig[j]
    {
      ghost var before := (children[..i], rest);
      assert Rewritten(orig[..i + 1], t) == RewriteStep(before, orig[i]) by {
        assert orig[..i + 1][..i] == orig[..i];
      }
      var e := children[i];
      assert e == orig[i];
      if e.Attribute? {
        if e.name == "Position" {
          children[i] := Attribute("Position", rest.position);
          rest := rest.(position := "");
        } else if e.name == "Rotation" {
          children[i] := Attribute("Rotation", rest.rotation);
          rest := rest.(rotation := "");
        } else if e.name == "Scale" {
          children[i] := Attribute("Scale", rest.scale);
          rest := rest.(scale := "");
        }
      }
      assert children[..i] == before.0;
      assert children[..i + 1] == children[..i] + [children[i]];
      i := i + 1;
    }
    assert children[..i] == children[..];
    assert orig[..i] == orig;
  }

  /** A transform value is still pending after the loop exactly when no attribute of that name was found. */
  lemma {:induction false} PendingLeft(items: seq<Item>, t: Components.Transform, n: string)
    requires IsTransformName(n)
    ensures Pending(Rewritten(items, t).1, n) == if HasAttr(items, n) then "" else Pending(t, n)
  {
    if items != [] {
      var init := items[..|items| - 1];
      var e := items[|items| - 1];
      PendingLeft(init, t, n);
      if HasAttr(init, n) {
        var j :| 0 <= j < |init| && Named(init[j], n);
        assert Named(items[j], n);
      }
      if HasAttr(items, n) && !Named(e, n) {
        var j :| 0 <= j < |items| && Named(items[j], n);
        assert j < |init| && Named(init[j], n);
      }
      if Named(e, n) {
        assert Named(items[|items| - 1], n);
      }
    }
  }

  /** The child at `i` is the first attribute named `n`. */
  predicate FirstNamed(items: seq<Item>, i: nat, n: string)
    requires i < |items|
  {
    Named(items[i], n) && forall j :: 0 <= j < i ==> !Named(items[j], n)
  }

  /** The rewrite neither adds nor removes children. */
  lemma {:induction false} RewriteLength(items: seq<Item>, t: Components.Transform)
    ensures |Rewritten(items, t).0| == |items|
  {
    if items != [] {
      RewriteLength(items[..|items| - 1], t);
    }
  }

  /** The last child is the first attribute of its name exactly when no earlier child has that name. */
  lemma FirstNamedLast(items: seq<Item>, n: string)
    requires items != []
    ensures FirstNamed(items, |items| - 1, n) <==> Named(items[|items| - 1], n) && !HasAttr(items[..|items| - 1], n)
  {
    var init := items[..|items| - 1];
    if HasAttr(init, n) {
      var j :| 0 <= j < |init| && Named(init[j], n);
      assert Named(items[j], n);
    }
    if !HasAttr(init, n) {
      forall j | 0 <= j < |init| ensures !Named(items[j], n) {
        assert items[j] == init[j];
      }
    }
  }

  /** The child at `i` after the rewrite. */
  function RewrittenAt(items: seq<Item>, t: Components.Transform, i: nat): Item
    requires i < |items|
  {
    var e := items[i];
    if e.Attribute? && IsTransformName(e.name) then
      Attribute(e.name, if FirstNamed(items, i, e.name) then Pending(t, e.name) else "")
    else e
  }

  lemma {:induction false} RewriteAt(items: seq<Item>, t: Components.Transform, i: nat)
    requires i < |items|
    ensures |Rewritten(items, t).0| == |items|
    ensures Rewritten(items, t).0[i] == RewrittenAt(items, t, i)
  {
    var init := items[..|items| - 1];
    var e := items[|items| - 1];
    RewriteLength(items, t);
    RewriteLength(init, t);
    if i < |init| {
      RewriteAt(init, t, i);
      assert items[i] == init[i];
      assert forall j :: 0 <= j < i ==> items[j] == init[j];
      assert forall n :: FirstNamed(items, i, n) == FirstNamed(init, i, n);
    } else if e.Attribute? && IsTransformName(e.name) {
      PendingLeft(init, t, e.name);
      FirstNamedLast(items, e.name);
    }
  }

  /**
   * The loop keeps every child in its place. The first attribute named Position, Rotation or
   * Scale gets the instance's value; later duplicates get ""; every other child is unchanged.
   */
  lemma RewriteFrame(items: seq<Item>, t: Components.Transform)
    ensures |Rewritten(items, t).0| == |items|
    ensures forall i :: 0 <= i < |items| && !(items[i].Attribute? && IsTransformName(items[i].name)) ==>
      Rewritten(items, t).0[i] == items[i]
    ensures forall i :: 0 <= i < |items| && items[i].Attribute? && IsTransformName(items[i].name) ==>
      Rewritten(items, t).0[i] ==
        Attribute(items[i].name, if FirstNamed(items, i, items[i].name) then Pending(t, items[i].name) else "")
  {
    RewriteLength(items, t);
    forall i | 0 <= i < |items| ensures Rewritten(items, t).0[i] == RewrittenAt(items, t, i) {
      RewriteAt(items, t, i);
    }
  }

  /**
   * After the loop, exactly the transform attributes that were absent and have a value are
   * created, in the order Position, Rotation, Scale, each with the instance's value.
   */
  lemma MissingExactly(items: seq<Item>, t: Components.Transform)
    ensures Missing(Rewritten(items, t).1) ==
      Opt(t.position != "" && !HasAttr(items, "Position"), Attribute("Position", t.position))
      + Opt(t.rotation != "" && !HasAttr(items, "Rotation"), Attribute("Rotation", t.rotation))
      + Opt(t.scale != "" && !HasAttr(items, "Scale"), Attribute("Scale", t.scale))
  {
    PendingLeft(items, t, "Position");
    PendingLeft(items, t, "Rotation");
    PendingLeft(items, t, "Scale");
  }

  /** The created attribute of a transform name, as its own list: the only one of that name. */
  lemma MissingNamed(t: Components.Transform, n: string)
    requires IsTransformName(n)
    ensures forall j :: 0 <= j < |Missing(t)| && Named(Missing(t)[j], n) ==> Missing(t)[j].value == Pending(t, n)
    ensures Pending(t, n) != "" ==> HasAttr(Missing(t), n)
  {
    var m := Missing(t);
    if Pending(t, n) != "" {
      var j := if n == "Position" then 0
        else if n == "Rotation" then |Opt(t.position != "", Attribute("", ""))|
        else |m| - 1;
      assert Named(m[j], n);
    }
  }

  /**
   * Whatever the prefab held, once the rewrite is done the first attribute named Position,
   * Rotation or Scale carries the instance's value for it (when that value is not empty).
   */
  lemma TransformApplied(items: seq<Item>, t: Components.Transform, n: string)
    requires IsTransformName(n) && Pending(t, n) != ""
    ensures exists i :: (0 <= i < |Retransformed(items, t)| && FirstNamed(Retransformed(items, t), i, n)
      && Retransformed(items, t)[i].value == Pending(t, n))
  {
    if HasAttr(items, n) {
      var i := AppliedInPlace(items, t, n);
    } else {
      var i := AppliedAppended(items, t, n);
    }
  }

  /** A transform attribute the prefab has: its first occurrence keeps its place and takes the value. */
  lemma AppliedInPlace(items: seq<Item>, t: Components.Transform, n: string) returns (i: nat)
    requires IsTransformName(n) && HasAttr(items, n)
    ensures i < |items| && FirstNamed(items, i, n)
    ensures i < |Retransformed(items, t)| && FirstNamed(Retransformed(items, t), i, n)
      && Retransformed(items, t)[i].value == Pending(t, n)
  {
    var r := Rewritten(items, t);
    var all := Retransformed(items, t);
    RewriteLength(items, t);
    i := FirstOccurrence(items, n);
    RewriteAt(items, t, i);
    assert all[i] == r.0[i];
    forall l | 0 <= l < i ensures !Named(all[l], n) {
      RewriteAt(items, t, l);
      assert all[l] == r.0[l];
    }
  }

  /** A transform attribute the prefab lacks: it is created after all of the children, with the value. */
  lemma AppliedAppended(items: seq<Item>, t: Components.Transform, n: string) returns (i: nat)
    requires IsTransformName(n) && !HasAttr(items, n) && Pending(t, n) != ""
    ensures |items| <= i < |Retransformed(items, t)| && FirstNamed(Retransformed(items, t), i, n)
      && Retransformed(items, t)[i].value == Pending(t, n)
  {
    var r := Rewritten(items, t);
    RewriteLength(items, t);
    PendingLeft(items, t, n);
    NoneNamed(items, t, n);
    MissingNamed(r.1, n);
    var m := Missing(r.1);
    var j := FirstOccurrence(m, n);
    FirstAfter(r.0, m, j, n);
    i := |r.0| + j;
  }

  /** Without an attribute of that name before the rewrite, there is none after it. */
  lemma NoneNamed(items: seq<Item>, t: Components.Transform, n: string)
    requires IsTransformName(n) && !HasAttr(items, n)
    ensures forall l :: 0 <= l < |Rewritten(items, t).0| ==> !Named(Rewritten(items, t).0[l], n)
  {
    RewriteLength(items, t);
    forall l | 0 <= l < |Rewritten(items, t).0| ensures !Named(Rewritten(items, t).0[l], n) {
      RewriteAt(items, t, l);
    }
  }

  /** The first occurrence in a list appended after a list without the name is the first of the whole. */
  lemma FirstAfter(a: seq<Item>, m: seq<Item>, j: nat, n: string)
    requires j < |m| && FirstNamed(m, j, n)
    requires forall l :: 0 <= l < |a| ==> !Named(a[l], n)
    ensures FirstNamed(a + m, |a| + j, n) && (a + m)[|a| + j] == m[j]
  {
    forall l | 0 <= l < |a| + j ensures !Named((a + m)[l], n) {
      if l >= |a| {
        assert (a + m)[l] == m[l - |a|];
      }
    }
  }

  /** A name that occurs among the children has a first occurrence. */
  lemma {:induction false} FirstOccurrence(items: seq<Item>, n: string) returns (i: nat)
    requires HasAttr(items, n)
    ensures i < |items| && FirstNamed(items, i, n)
  {
    var init := items[..|items| - 1];
    if HasAttr(init, n) {
      i := FirstOccurrence(init, n);
      assert forall j :: 0 <= j <= i ==> items[j] == init[j];
    } else {
      i := |items| - 1;
      FirstNamedLast(items, n);
    }
  }

  // ---------------------------------------------------------------------------------------------
  // Placing the prefabs
  // ---------------------------------------------------------------------------------------------

  /**
   * `UrhoInstance` as `UrhoGatherInstances` leaves it: the prefab name, the parent's object
   * name, the object name, and the position, rotation and scale strings `execute` formats from
   * the instance matrix and the scene orientation.
   */
  datatype Instance = Instance(name: string, parentName: Option<string>, objectName: string, transform: Components.Transform)

  /** How `execute` ends early: the position matrix was never bound, or a parent has no element. */
  datatype Failure = UnboundPosMatrix | MissingParent(parentName: string)

  /** The loop state: `elements` from object name to slot, the slots, and the failure, if any. */
  datatype Placing = Placing(elements: map<string, nat>, slots: seq<Slot>, stop: Option<Failure>)

  /** The front views `execute` has a branch for; the branch commented 'Y_PLUS' compares with None. */
  predicate Handled(frontView: Option<string>) {
    frontView.None? || frontView.value in {"X_PLUS", "X_MINUS", "Y_MINUS", "Z_PLUS", "Z_MINUS"}
  }

  /** `GetPrefabRoot`: the root of the loaded prefab file when its tag is `node`, None otherwise. */
  function PrefabRoot(loaded: Option<Item>): (r: Option<Item>)
    ensures r.Some? <==> loaded.Some? && loaded.value.Node?
    ensures r.Some? ==> r == loaded
  {
    match loaded
    case None => None
    case Some(e) => if e.Node? then Some(e) else None
  }

  /** `if not prefab_root`: a missing root, and a root element without children, are skipped. */
  predicate Usable(root: Option<Item>) {
    root.Some? && root.value.Node? && root.value.items != []
  }

  /** The prefab root once its transform is set. */
  function Positioned(root: Item, t: Components.Transform): Item
    requires root.Node?
  {
    Node(root.nid, Retransformed(root.items, t))
  }

  function Start(s: SceneSettings): Placing {
    Placing(map[], [Slot(SceneHead(s), [])], None)
  }

  /**
   * One instance. `prefabs` gives the parsed file of each prefab name, None when it does not
   * exist. The new slot is appended to the slot of `elements[parentName]` for a truthy parent
   * name, to the scene element otherwise.
   */
  function Place(s: SceneSettings, prefabs: string -> Option<Item>, st: Placing, inst: Instance): Placing {
    if st.stop.Some? then st
    else
      var root := PrefabRoot(prefabs(inst.name));
      if !Usable(root) then st
      else if !Handled(s.orientation) then st.(stop := Some(UnboundPosMatrix))
      else
        var k := |st.slots|;
        var elements := st.elements[inst.objectName := k];
        var slots := st.slots + [Slot(Positioned(root.value, inst.transform), [])];
        if !Truthy(inst.parentName) then Placing(elements, Prefabs.AddKid(slots, 0, k), None)
        else if inst.parentName.value in elements then Placing(elements, Prefabs.AddKid(slots, elements[inst.parentName.value], k), None)
        else st.(stop := Some(MissingParent(inst.parentName.value)))
  }

  /** The loop over the instances. */
  function Run(s: SceneSettings, prefabs: string -> Option<Item>, instances: seq<Instance>): Placing {
    if instances == [] then Start(s)
    else Place(s, prefabs, Run(s, prefabs, instances[..|instances| - 1]), instances[|instances| - 1])
  }

  /** What `execute` writes (the scene document when `mayWrite` lets the scene name through) and how it ended. */
  function Exported(s: SceneSettings, prefabs: string -> Option<Item>, mayWrite: string -> bool, instances: seq<Instance>)
    : (Option<Item>, Option<Failure>)
  {
    var q := Run(s, prefabs, instances);
    if q.stop.Some? || |q.slots| == 0 || !mayWrite(s.name) then (None, q.stop)
    else (Some(Tree(q.slots, 0)), None)
  }

  lemma RunSnoc(s: SceneSettings, prefabs: string -> Option<Item>, instances: seq<Instance>, i: nat)
    requires i < |instances|
    ensures Run(s, prefabs, instances[..i + 1]) == Place(s, prefabs, Run(s, prefabs, instances[..i]), instances[i])
  {
    assert instances[..i + 1][..i] == instances[..i];
  }

  /** Once a failure is raised, the later instances change nothing. */
  lemma {:induction false} RunAfterStop(s: SceneSettings, prefabs: string -> Option<Item>, instances: seq<Instance>, i: nat)
    requires i <= |instances| && Run(s, prefabs, instances[..i]).stop.Some?
    ensures Run(s, prefabs, instances) == Run(s, prefabs, instances[..i])
    decreases |instances| - i
  {
    if i < |instances| {
      RunSnoc(s, prefabs, instances, i);
      RunAfterStop(s, prefabs, instances, i + 1);
    } else {
      assert instances[..i] == instances;
    }
  }

  /** The transform block of the loop body: rewrite the children in place, then create the missing attributes. */
  method Transformed(items: seq<Item>, t: Components.Transform) returns (result: seq<Item>)
    ensures result == Retransformed(items, t)
  {
    var children := new Item[|items|](i requires 0 <= i < |items| => items[i]);
    assert children[..] == items;
    var rest := SetTransforms(children, t);
    result := children[..];
    if rest.position != "" {
      result := result + [Attribute("Position", rest.position)];
    }
    if rest.rotation != "" {
      result := result + [Attribute("Rotation", rest.rotation)];
    }
    if rest.scale != "" {
      result := result + [Attribute("Scale", rest.scale)];
    }
  }

  /** One instance: load, set the transform, place. */
  method PlaceInstance(s: SceneSettings, prefabs: string -> Option<Item>, st: Placing, inst: Instance) returns (next: Placing)
    requires st.stop.None?
    ensures next == Place(s, prefabs, st, inst)
  {
    var root := PrefabRoot(prefabs(inst.name));
    if !Usable(root) {
      return st;
    }
    var k := |st.slots|;
    var elements := st.elements[inst.objectName := k];
    if !Handled(s.orientation) {
      return st.(stop := Some(UnboundPosMatrix));
    }
    var items := Transformed(root.value.items, inst.transform);
    var slots := st.slots + [Slot(Node(root.value.nid, items), [])];
    if !Truthy(inst.parentName) {
      next := Placing(elements, Prefabs.AddKid(slots, 0, k), None);
    } else if inst.parentName.value in elements {
      next := Placing(elements, Prefabs.AddKid(slots, elements[inst.parentName.value], k), None);
    } else {
      next := st.(stop := Some(MissingParent(inst.parentName.value)));
    }
  }

  /** `execute` after the instances are gathered: place every instance, then write the scene. */
  method ExportScenePrefab(s: SceneSettings, prefabs: string -> Option<Item>, mayWrite: string -> bool, instances: seq<Instance>)
    returns (written: Option<Item>, stop: Option<Failure>)
    ensures (written, stop) == Exported(s, prefabs, mayWrite, instances)
  {
    var st := Start(s);
    var i := 0;
    while i < |instances|
      invariant 0 <= i <= |instances|
      invariant st == Run(s, prefabs, instances[..i]) && st.stop.None?
    {
      RunSnoc(s, prefabs, instances, i);
      st := PlaceInstance(s, prefabs, st, instances[i]);
      i := i + 1;
      if st.stop.Some? {
        RunAfterStop(s, prefabs, instances, i);
        return None, st.stop;
      }
    }
    assert instances[..i] == instances;
    if |st.slots| == 0 || !mayWrite(s.name) {
      return None, None;
    }
    return Some(Tree(st.slots, 0)), None;
  }

  // ---------------------------------------------------------------------------------------------
  // What the placement loop guarantees
  // ---------------------------------------------------------------------------------------------

  /**
   * The outcome of one instance: skipped without a usable root; the unbound-matrix failure for
   * an unhandled front view; the missing-parent failure when the parent has no element;
   * otherwise a new last slot holding the rewritten root, recorded for its object name and
   * appended as the last child of its parent's slot, or of the scene for a falsy parent name.
   */
  lemma PlaceOutcome(s: SceneSettings, prefabs: string -> Option<Item>, st: Placing, inst: Instance)
    requires st.stop.None? && |st.slots| >= 1
    requires forall n :: n in st.elements ==> st.elements[n] < |st.slots|
    ensures var root := PrefabRoot(prefabs(inst.name)); var next := Place(s, prefabs, st, inst);
      && (!Usable(root) ==> next == st)
      && (next.stop == Some(UnboundPosMatrix) <==> Usable(root) && !Handled(s.orientation))
      && (next.stop.Some? && next.stop.value.MissingParent? <==>
            Usable(root) && Handled(s.orientation) && Truthy(inst.parentName)
            && inst.parentName.value != inst.objectName && inst.parentName.value !in st.elements)
      && (Usable(root) && next.stop.None? ==>
            var k := |st.slots|;
            var parent := if Truthy(inst.parentName) then next.elements[inst.parentName.value] else 0;
            && |next.slots| == k + 1
            && next.elements == st.elements[inst.objectName := k]
            && next.slots[k].head == Positioned(root.value, inst.transform)
            && parent <= k
            && next.slots[parent].kids == (if parent < k then st.slots[parent].kids else []) + [k]
            && (forall i :: 0 <= i < k ==> next.slots[i].head == st.slots[i].head)
            && (forall i :: 0 <= i < k && i != parent ==> next.slots[i].kids == st.slots[i].kids))
  {
    var root := PrefabRoot(prefabs(inst.name));
    var next := Place(s, prefabs, st, inst);
    if Usable(root) && next.stop.None? {
      var k := |st.slots|;
      var elements := st.elements[inst.objectName := k];
      var slots := st.slots + [Slot(Positioned(root.value, inst.transform), [])];
      var parent := if Truthy(inst.parentName) then elements[inst.parentName.value] else 0;
      PrefabFacts.AddKidFacts(slots, parent, k);
    }
  }

  /** The slots form one tree under the scene element, and `elements` points at prefab slots. */
  ghost predicate SceneTree(s: SceneSettings, st: Placing) {
    && |st.slots| >= 1
    && st.slots[0].head == SceneHead(s)
    && PrefabFacts.KidsOrdered(st.slots)
    && PrefabFacts.OneParent(st.slots)
    && (forall n :: n in st.elements ==> 1 <= st.elements[n] < |st.slots|)
  }

  /** No instance names itself as its parent. */
  ghost predicate NoSelfParent(instances: seq<Instance>) {
    forall i :: 0 <= i < |instances| ==> instances[i].parentName != Some(instances[i].objectName)
  }

  lemma AddKidSnoc(slots: seq<Slot>, parent: nat, k: nat, x: Slot)
    requires parent < |slots|
    ensures Prefabs.AddKid(slots + [x], parent, k) == Prefabs.AddKid(slots, parent, k) + [x]
  {
  }

  /** An instance that does not name itself as parent keeps the slots a tree under the scene. */
  lemma PlaceKeepsTree(s: SceneSettings, prefabs: string -> Option<Item>, st: Placing, inst: Instance)
    requires SceneTree(s, st) && inst.parentName != Some(inst.objectName)
    ensures SceneTree(s, Place(s, prefabs, st, inst))
  {
    var next := Place(s, prefabs, st, inst);
    var root := PrefabRoot(prefabs(inst.name));
    if st.stop.None? && Usable(root) && Handled(s.orientation) && next.stop.None? {
      var head := Positioned(root.value, inst.transform);
      var parent := if Truthy(inst.parentName) then st.elements[inst.parentName.value] else 0;
      AppendKeepsTree(s, st, inst.objectName, parent, head);
    }
  }

  /** A new slot appended under an existing one, and recorded for its object name, keeps the tree. */
  lemma AppendKeepsTree(s: SceneSettings, st: Placing, name: string, parent: nat, head: Item)
    requires SceneTree(s, st) && parent < |st.slots|
    ensures var k := |st.slots|;
      SceneTree(s, Placing(st.elements[name := k], Prefabs.AddKid(st.slots + [Slot(head, [])], parent, k), st.stop))
  {
    var k := |st.slots|;
    AddKidSnoc(st.slots, parent, k, Slot(head, []));
    PrefabFacts.AppendOrdered(st.slots, parent, head);
    PrefabFacts.AppendParents(st.slots, parent, head);
    PrefabFacts.AddKidFacts(st.slots, parent, k);
  }

  /**
   * When no instance names itself as its parent, the placed prefabs hang in one tree under the
   * scene element: every prefab slot is the child of exactly one earlier slot.
   */
  lemma {:induction false} RunTree(s: SceneSettings, prefabs: string -> Option<Item>, instances: seq<Instance>)
    requires NoSelfParent(instances)
    ensures SceneTree(s, Run(s, prefabs, instances))
  {
    if instances != [] {
      var init := instances[..|instances| - 1];
      assert NoSelfParent(init) by {
        forall i | 0 <= i < |init| ensures init[i].parentName != Some(init[i].objectName) {
          assert init[i] == instances[i];
        }
      }
      RunTree(s, prefabs, init);
      PlaceKeepsTree(s, prefabs, Run(s, prefabs, init), instances[|instances| - 1]);
    } else {
      assert PrefabFacts.OneParent(Start(s).slots);
    }
  }

  /**
   * An instance named as its own parent is appended to its own element: its slot is its own
   * only child, so the written scene never reaches it.
   */
  lemma SelfParentDetached(s: SceneSettings, prefabs: string -> Option<Item>, st: Placing, inst: Instance)
    requires SceneTree(s, st) && st.stop.None?
    requires Usable(PrefabRoot(prefabs(inst.name))) && Handled(s.orientation) && Truthy(inst.parentName)
    requires inst.parentName.value == inst.objectName
    ensures var next := Place(s, prefabs, st, inst); var k := |st.slots|;
      && next.stop.None? && |next.slots| == k + 1
      && next.slots[k].kids == [k]
      && (forall j :: 0 <= j < k ==> next.slots[j] == st.slots[j] && k !in next.slots[j].kids)
      && Forest(next.slots, k, next.slots[k].kids) == []
  {
    var k := |st.slots|;
    forall j | 0 <= j < k ensures k !in st.slots[j].kids {
      assert forall l :: 0 <= l < |st.slots[j].kids| ==> st.slots[j].kids[l] < k;
    }
  }

  /**
   * The written document: nothing after a failure; otherwise, when the scene file may be written,
   * the scene element with its infrastructure and, after it, the trees of the prefabs placed
   * directly in the scene, in placement order.
   */
  lemma ExportedScene(s: SceneSettings, prefabs: string -> Option<Item>, mayWrite: string -> bool, instances: seq<Instance>)
    requires NoSelfParent(instances)
    ensures var q := Run(s, prefabs, instances); var w := Exported(s, prefabs, mayWrite, instances);
      && |q.slots| >= 1
      && w.1 == q.stop
      && (w.0.Some? <==> q.stop.None? && mayWrite(s.name))
      && (forall j :: 0 <= j < |q.slots[0].kids| ==> q.slots[0].kids[j] < |q.slots|)
      && (w.0.Some? ==> w.0.value == Tree(q.slots, 0) && SceneDocument(s, q.slots))
  {
    var q := Run(s, prefabs, instances);
    RunTree(s, prefabs, instances);
    SceneDoc(s, q.slots);
  }

  /**
   * The scene element with its infrastructure and, after it, the trees of the prefabs placed
   * directly in the scene, in placement order.
   */
  ghost predicate SceneDocument(s: SceneSettings, slots: seq<Slot>)
    requires |slots| >= 1 && forall j :: 0 <= j < |slots[0].kids| ==> slots[0].kids[j] < |slots|
  {
    var doc := Tree(slots, 0);
    && doc.Scene? && doc.sid == 1
    && |doc.items| == |SceneHead(s).items| + |slots[0].kids|
    && doc.items[..|SceneHead(s).items|] == SceneHead(s).items
    && forall j :: 0 <= j < |slots[0].kids| ==> doc.items[|SceneHead(s).items| + j] == Tree(slots, slots[0].kids[j])
  }

  lemma SceneDoc(s: SceneSettings, slots: seq<Slot>)
    requires |slots| >= 1 && slots[0].head == SceneHead(s) && PrefabFacts.KidsOrdered(slots)
    ensures (forall j :: 0 <= j < |slots[0].kids| ==> slots[0].kids[j] < |slots|) && SceneDocument(s, slots)
  {
    ForestAll(slots, 0, slots[0].kids);
  }
}
