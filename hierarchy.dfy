/**
 * The name tree used to order models parent-before-child (`Node` and `Tree` in
 * io_mesh_urho/export_scene.py) and the rearrangement of a record list along it.
 *
 * A `Tree` keeps a dictionary from names to `Node` objects. Here the dictionary is three
 * fields: `keys` is its insertion order, `par` maps a name to the name of its parent node
 * (only where `node.parent` is set) and `kids` gives every node's `children` list by name.
 */
module Hierarchy {
  import opened Wrappers

  datatype TreeState = TreeState(keys: seq<string>, par: map<string, string>, kids: map<string, seq<string>>)

  /** The names of all nodes of the dictionary. */
  ghost function Names(t: TreeState): set<string> {
    set k | k in t.keys
  }

  /** The dictionary view is consistent: one entry per name, and links only between entries. */
  ghost predicate WellFormed(t: TreeState) {
    && Distinct(t.keys)
    && t.kids.Keys == Names(t)
    && (forall x :: x in t.par ==> x in t.kids && t.par[x] in t.kids)
    && (forall p, i :: p in t.kids && 0 <= i < |t.kids[p]| ==> t.kids[p][i] in t.kids)
  }

  /** The children list of `c`, empty for a name that has no node. */
  function KidsOf(kids: map<string, seq<string>>, c: string): seq<string> {
    if c in kids then kids[c] else []
  }

  /**
   * Parent and children links agree: a child's parent is the node whose list holds it, every
   * node with a parent is in that parent's list, and no list holds a node twice.
   */
  ghost predicate Linked(t: TreeState) {
    && (forall p, i :: p in t.kids && 0 <= i < |t.kids[p]| ==>
          t.kids[p][i] in t.par && t.par[t.kids[p][i]] == p)
    && (forall x :: x in t.par ==> x in KidsOf(t.kids, t.par[x]))
    && (forall p :: p in t.kids ==> Distinct(t.kids[p]))
  }

  /** `Tree.push((name, parent))`. */
  function Pushed(t: TreeState, name: string, parent: Option<string>): (r: TreeState)
    // the node, and a truthy parent, get an entry if they had none
    ensures r.kids.Keys == t.kids.Keys + {name} + (if Truthy(parent) then {parent.value} else {})
    // a falsy parent or the node itself as parent only creates the node
    ensures !Truthy(parent) || parent.value == name ==> r.par == t.par
    // otherwise the node is re-linked under the parent and appended to its children
    ensures Truthy(parent) && parent.value != name ==>
      r.par == t.par[name := parent.value] && r.kids[parent.value] == KidsOf(t.kids, parent.value) + [name]
    // every other children list is as before, empty for a new entry
    ensures forall q :: q in r.kids && !(Truthy(parent) && parent.value != name && q == parent.value) ==>
      r.kids[q] == KidsOf(t.kids, q)
    // names already present keep their place in the dictionary order
    ensures t.keys <= r.keys
  {
    var t1 := if name in t.kids then t else TreeState(t.keys + [name], t.par, t.kids[name := []]);
    if !Truthy(parent) then t1
    else
      var p := parent.value;
      var t2 := if p in t1.kids then t1 else TreeState(t1.keys + [p], t1.par, t1.kids[p := []]);
      if p == name then t2
      else TreeState(t2.keys, t2.par[name := p], t2.kids[p := t2.kids[p] + [name]])
  }

  /** The tree after pushing `(key(x), parentKey(x))` for every record `x` of `items`, in order. */
  function Built<T>(items: seq<T>, key: T -> string, parentKey: T -> Option<string>): TreeState {
    if items == [] then TreeState([], map[], map[])
    else
      var last := items[|items| - 1];
      Pushed(Built(items[..|items| - 1], key, parentKey), key(last), parentKey(last))
  }

  /**
   * `Node.to_list` of `c`: the node followed by the lists of its children, in order.
   * `avail` holds the names not yet entered on the current path; it bounds the recursion. When
   * the parent and children links agree (`Linked`), the lemmas of `TreeFacts` show it never cuts
   * a node below a parentless ancestor. A name pushed twice can leave children lists that loop,
   * where `Node.to_list` recurses without end and the cut returns a list instead.
   */
  function Subtree(kids: map<string, seq<string>>, c: string, avail: set<string>): seq<string>
    requires c in avail
    decreases avail, 0, 0
  {
    [c] + Children(kids, KidsOf(kids, c), avail - {c})
  }

  /** The concatenated `to_list` of the children `ds`. */
  function Children(kids: map<string, seq<string>>, ds: seq<string>, avail: set<string>): seq<string>
    decreases avail, 1, |ds|
  {
    if ds == [] then []
    else (if ds[0] in avail then Subtree(kids, ds[0], avail) else []) + Children(kids, ds[1..], avail)
  }

  lemma {:induction false} ChildrenAppend(kids: map<string, seq<string>>, a: seq<string>, b: seq<string>, avail: set<string>)
    ensures Children(kids, a + b, avail) == Children(kids, a, avail) + Children(kids, b, avail)
    decreases |a|
  {
    if a != [] {
      assert (a + b)[0] == a[0] && (a + b)[1..] == a[1..] + b;
      ChildrenAppend(kids, a[1..], b, avail);
      var head := if a[0] in avail then Subtree(kids, a[0], avail) else [];
      assert Children(kids, a + b, avail) == head + Children(kids, a[1..] + b, avail);
      assert Children(kids, a, avail) == head + Children(kids, a[1..], avail);
    } else {
      assert a + b == b;
    }
  }

  /** What `Tree.to_list` adds for the dictionary entry `r`. */
  ghost function Block(t: TreeState, r: string): seq<string> {
    if r in t.par || r !in t.kids then [] else Subtree(t.kids, r, t.kids.Keys)
  }

  /** The blocks of the dictionary entries `lo` to `hi - 1`, in order. */
  ghost function Roots(t: TreeState, lo: nat, hi: nat): seq<string>
    requires lo <= hi <= |t.keys|
    decreases hi - lo
  {
    if lo == hi then [] else Roots(t, lo, hi - 1) + Block(t, t.keys[hi - 1])
  }

  /** `Tree.to_list`: the lists of the parentless nodes, in dictionary order. */
  ghost function Flatten(t: TreeState): seq<string> {
    Roots(t, 0, |t.keys|)
  }

  class Tree {
    var keys: seq<string>
    var par: map<string, string>
    var kids: map<string, seq<string>>

    ghost function State(): TreeState
      reads this
    {
      TreeState(keys, par, kids)
    }

    constructor ()
      ensures State() == TreeState([], map[], map[])
    {
      keys := [];
      par := map[];
      kids := map[];
    }

    /** `Tree.push`. */
    method Push(name: string, parent: Option<string>)
      modifies this
      ensures State() == Pushed(old(State()), name, parent)
    {
      if name !in kids {
        keys := keys + [name];
        kids := kids[name := []];
      }
      if Truthy(parent) {
        var p := parent.value;
        if p !in kids {
          keys := keys + [p];
          kids := kids[p := []];
        }
        if p != name {
          par := par[name := p];
          kids := kids[p := kids[p] + [name]];
        }
      }
    }

    /** `Node.to_list` of the node named `c`. */
    method NodeList(c: string, avail: set<string>) returns (names: seq<string>)
      requires c in avail
      ensures names == Subtree(kids, c, avail)
      decreases avail
    {
      var ds := KidsOf(kids, c);
      names := [c];
      var i := 0;
      while i < |ds|
        invariant 0 <= i <= |ds|
        invariant names == [c] + Children(kids, ds[..i], avail - {c})
      {
        ChildrenAppend(kids, ds[..i], [ds[i]], avail - {c});
        assert ds[..i + 1] == ds[..i] + [ds[i]];
        if ds[i] in avail - {c} {
          var sub := NodeList(ds[i], avail - {c});
          names := names + sub;
        }
        i := i + 1;
      }
      assert ds[..i] == ds;
    }

    /** `Tree.to_list`. */
    method ToList() returns (names: seq<string>)
      ensures names == Flatten(State())
    {
      names := [];
      var i := 0;
      while i < |keys|
        invariant 0 <= i <= |keys|
        invariant names == Roots(State(), 0, i)
      {
        if keys[i] !in par && keys[i] in kids {
          var sub := NodeList(keys[i], kids.Keys);
          names := names + sub;
        }
        i := i + 1;
      }
    }
  }

  /** The index of the first record of `s` whose key is `k`. */
  function KeyIndex<T>(s: seq<T>, key: T -> string, k: string): (r: Option<nat>)
    ensures r.Some? ==> r.value < |s| && key(s[r.value]) == k
    ensures r.Some? ==> forall l :: 0 <= l < r.value ==> key(s[l]) != k
    ensures r.None? ==> forall l :: 0 <= l < |s| ==> key(s[l]) != k
  {
    if s == [] then None
    else if key(s[0]) == k then Some(0)
    else match KeyIndex(s[1..], key, k)
      case None => None
      case Some(i) => Some(i + 1)
  }

  /** The reordered records so far and the records still waiting. */
  datatype Split<T> = Split(taken: seq<T>, rest: seq<T>)

  /**
   * The rearrangement loop of `SortModels`: for each name of `order`, the first waiting record
   * with that name is moved to the end of `taken`; names without a record are skipped.
   */
  function Rearranged<T>(order: seq<string>, items: seq<T>, key: T -> string): Split<T> {
    if order == [] then Split([], items)
    else
      var s := Rearranged(order[..|order| - 1], items, key);
      match KeyIndex(s.rest, key, order[|order| - 1])
      case None => s
      case Some(i) => Split(s.taken + [s.rest[i]], s.rest[..i] + s.rest[i + 1..])
  }

  /** The first record of `rest` whose key is `k`, found by the same scan as `SortModels`. */
  method FindFirst<T>(rest: seq<T>, key: T -> string, k: string) returns (j: nat)
    ensures j <= |rest|
    ensures KeyIndex(rest, key, k) == if j < |rest| then Some(j) else None
  {
    j := 0;
    while j < |rest| && key(rest[j]) != k
      invariant 0 <= j <= |rest|
      invariant forall l :: 0 <= l < j ==> key(rest[l]) != k
    {
      j := j + 1;
    }
  }

  /** The rearrangement loop of `SortModels`, moving records out of `items` along `order`. */
  method Rearrange<T>(order: seq<string>, items: seq<T>, key: T -> string) returns (sorted: seq<T>)
    ensures sorted == Rearranged(order, items, key).taken
  {
    var rest := items;
    sorted := [];
    var n := 0;
    while n < |order|
      invariant 0 <= n <= |order|
      invariant Split(sorted, rest) == Rearranged(order[..n], items, key)
    {
      assert order[..n + 1][..n] == order[..n];
      var j := FindFirst(rest, key, order[n]);
      if j < |rest| {
        sorted := sorted + [rest[j]];
        rest := rest[..j] + rest[j + 1..];
      }
      n := n + 1;
    }
    assert order[..n] == order;
  }

  /**
   * `SortModels`: push (name, parent name) of every record into a fresh `Tree`, then take the
   * records in the order of `Tree.to_list`.
   */
  method SortByHierarchy<T>(items: seq<T>, key: T -> string, parentKey: T -> Option<string>)
    returns (sorted: seq<T>)
    ensures sorted == Rearranged(Flatten(Built(items, key, parentKey)), items, key).taken
  {
    var tree := new Tree();
    var i := 0;
    while i < |items|
      invariant 0 <= i <= |items|
      invariant tree.State() == Built(items[..i], key, parentKey)
    {
      assert items[..i + 1][..i] == items[..i];
      tree.Push(key(items[i]), parentKey(items[i]));
      i := i + 1;
    }
    assert items[..i] == items;
    var names := tree.ToList();
    sorted := Rearrange(names, items, key);
  }
}
