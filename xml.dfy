/**
 * The Urho3D scene XML the exporter writes with ElementTree, as a tree of typed elements:
 * `<attribute name=.. value=..>`, `<component type=.. id=..>` holding attributes, `<node id=..>`
 * and `<scene id=..>` holding attributes, components and nodes. Any other root tag of a loaded
 * file is an `Other` element. Ids are kept as the integers the exporter formats with `{:d}`.
 *
 * ElementTree elements are shared objects that later statements append to. The model keeps
 * the elements that receive appends in a list of slots, each with its own content and the
 * indices of the slots appended to it later; `Tree` assembles the value tree from that list.
 */
module Xml {
  import opened Wrappers

  datatype Item =
    | Attribute(name: string, value: string)
    | Component(ctype: string, cid: Option<int>, attrs: seq<Item>)
    | Node(nid: int, items: seq<Item>)
    | Scene(sid: int, items: seq<Item>)
    | Other(tag: string, items: seq<Item>)

  /** An element that later statements append to: its own content and the slots appended to it. */
  datatype Slot = Slot(head: Item, kids: seq<nat>)

  /** `[x]` when the condition holds, nothing otherwise: one `if cond: SubElement(...)`. */
  function Opt(c: bool, x: Item): seq<Item> {
    if c then [x] else []
  }

  /** The element with `extra` appended to its children. */
  function Appended(e: Item, extra: seq<Item>): Item {
    match e
    case Attribute(_, _) => e
    case Component(t, i, a) => Component(t, i, a + extra)
    case Node(i, s) => Node(i, s + extra)
    case Scene(i, s) => Scene(i, s + extra)
    case Other(t, s) => Other(t, s + extra)
  }

  /** The element of slot `i` with the trees of the slots appended to it. */
  function Tree(slots: seq<Slot>, i: nat): Item
    requires i < |slots|
    decreases |slots| - i, 1
  {
    Appended(slots[i].head, Forest(slots, i, slots[i].kids))
  }

  /** The trees of the slots `ks` appended to slot `i`; only later slots can be appended. */
  function Forest(slots: seq<Slot>, i: nat, ks: seq<nat>): seq<Item>
    decreases |slots| - i, 0, |ks|
  {
    if ks == [] then []
    else (if i < ks[0] < |slots| then [Tree(slots, ks[0])] else []) + Forest(slots, i, ks[1..])
  }

  /** When every kid is a later slot, the trees appended to an element are exactly its kids, in order. */
  lemma {:induction false} ForestAll(slots: seq<Slot>, i: nat, ks: seq<nat>)
    requires forall k :: 0 <= k < |ks| ==> i < ks[k] < |slots|
    ensures |Forest(slots, i, ks)| == |ks|
    ensures forall k :: 0 <= k < |ks| ==> Forest(slots, i, ks)[k] == Tree(slots, ks[k])
    decreases |ks|
  {
    if ks != [] {
      ForestAll(slots, i, ks[1..]);
    }
  }

  /** The attribute names among `items`, in order. */
  function AttrNames(items: seq<Item>): seq<string> {
    if items == [] then []
    else (if items[0].Attribute? then [items[0].name] else []) + AttrNames(items[1..])
  }

  lemma {:induction false} AttrNamesAppend(a: seq<Item>, b: seq<Item>)
    ensures AttrNames(a + b) == AttrNames(a) + AttrNames(b)
    decreases |a|
  {
    if a == [] {
      assert a + b == b;
    } else {
      assert (a + b)[0] == a[0] && (a + b)[1..] == a[1..] + b;
      AttrNamesAppend(a[1..], b);
    }
  }
}
