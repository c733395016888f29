/**
 * What `Tree.to_list` (io_mesh_urho/export_scene.py) delivers: every name whose chain of
 * parents ends in a parentless node appears exactly once, after its parent, with siblings in
 * the order they were pushed and the parentless nodes in dictionary order; names caught in a
 * cycle of parents are left out.
 */
module TreeFacts {
  import opened Wrappers
  import opened Hierarchy

  /** The `k`-th ancestor of `x` along the parent links, if the chain is that long. */
  function Anc(par: map<string, string>, x: string, k: nat): Option<string>
    decreases k
  {
    if k == 0 then Some(x) else if x in par then Anc(par, par[x], k - 1) else None
  }

  /** The `j`-th ancestor of `x` exists and has no parent. */
  ghost predicate RootAt(par: map<string, string>, x: string, j: nat) {
    Anc(par, x, j).Some? && Anc(par, x, j).value !in par
  }

  /** The chain of parents from `x` ends in a parentless node. */
  ghost predicate HasRoot(par: map<string, string>, x: string) {
    exists j: nat :: RootAt(par, x, j)
  }

  /** `x` is its own proper ancestor. */
  ghost predicate OnCycle(par: map<string, string>, x: string) {
    exists k: nat :: 0 < k && Anc(par, x, k) == Some(x)
  }

  /** No node of the tree is its own ancestor. */
  ghost predicate Acyclic(t: TreeState) {
    forall x :: x in t.kids ==> !OnCycle(t.par, x)
  }

  /** Every node of the tree has a parentless ancestor. */
  ghost predicate Rooted(t: TreeState) {
    forall x :: x in t.kids ==> HasRoot(t.par, x)
  }

  lemma {:induction false} AncAdd(par: map<string, string>, x: string, a: nat, b: nat)
    requires Anc(par, x, a).Some?
    ensures Anc(par, x, a + b) == Anc(par, Anc(par, x, a).value, b)
    decreases a
  {
    if a > 0 {
      AncAdd(par, par[x], a - 1, b);
    }
  }

  lemma {:induction false} AncPrefix(par: map<string, string>, x: string, a: nat, b: nat)
    requires Anc(par, x, a + b).Some?
    ensures Anc(par, x, a).Some?
    decreases a
  {
    if a > 0 {
      AncPrefix(par, par[x], a - 1, b);
    }
  }

  /** A chain reaches its parentless end at one distance only. */
  lemma RootUnique(par: map<string, string>, x: string, j1: nat, j2: nat)
    requires RootAt(par, x, j1) && RootAt(par, x, j2)
    ensures j1 == j2
  {
    if j1 < j2 {
      AncAdd(par, x, j1, j2 - j1);
    } else if j2 < j1 {
      AncAdd(par, x, j2, j1 - j2);
    }
  }

  /** The distance from `x` to its parentless ancestor. */
  ghost function Depth(par: map<string, string>, x: string): (d: nat)
    requires HasRoot(par, x)
    ensures RootAt(par, x, d)
  {
    var j :| RootAt(par, x, j); j
  }

  /** A node has a parentless ancestor exactly when its parent has, one step further away. */
  lemma ParentRoot(par: map<string, string>, x: string)
    requires x in par
    ensures HasRoot(par, x) <==> HasRoot(par, par[x])
    ensures HasRoot(par, x) ==> Depth(par, x) == Depth(par, par[x]) + 1
  {
    if HasRoot(par, par[x]) {
      var e := Depth(par, par[x]);
      assert RootAt(par, x, e + 1);
      RootUnique(par, x, Depth(par, x), e + 1);
    }
    if HasRoot(par, x) {
      var d := Depth(par, x);
      assert RootAt(par, par[x], d - 1);
    }
  }

  /** A node on a cycle of parents has no parentless ancestor. */
  lemma CycleNoRoot(par: map<string, string>, x: string)
    requires OnCycle(par, x)
    ensures !HasRoot(par, x)
  {
    if HasRoot(par, x) {
      var j := Depth(par, x);
      var k: nat :| 0 < k && Anc(par, x, k) == Some(x);
      AncAdd(par, x, k, j);
      AncAdd(par, x, j, k);
      assert false;
    }
  }

  lemma {:induction false} AncInTree(t: TreeState, x: string, k: nat)
    requires WellFormed(t) && x in t.kids && Anc(t.par, x, k).Some?
    ensures Anc(t.par, x, k).value in t.kids
    decreases k
  {
    if k > 0 {
      AncInTree(t, t.par[x], k - 1);
    }
  }

  lemma {:induction false} SubtreeWithin(kids: map<string, seq<string>>, c: string, avail: set<string>)
    requires c in avail
    ensures forall y :: y in Subtree(kids, c, avail) ==> y in avail
    decreases avail, 0, 0
  {
    ChildrenWithin(kids, KidsOf(kids, c), avail - {c});
  }

  lemma {:induction false} ChildrenWithin(kids: map<string, seq<string>>, ds: seq<string>, avail: set<string>)
    ensures forall y :: y in Children(kids, ds, avail) ==> y in avail
    decreases avail, 1, |ds|
  {
    if ds != [] {
      if ds[0] in avail {
        SubtreeWithin(kids, ds[0], avail);
      }
      ChildrenWithin(kids, ds[1..], avail);
    }
  }

  lemma {:induction false} ChildrenMember(kids: map<string, seq<string>>, ds: seq<string>, avail: set<string>, y: string)
    requires y in Children(kids, ds, avail)
    ensures exists i :: 0 <= i < |ds| && ds[i] in avail && y in Subtree(kids, ds[i], avail)
    decreases |ds|
  {
    var head := if ds[0] in avail then Subtree(kids, ds[0], avail) else [];
    if y !in head {
      ChildrenMember(kids, ds[1..], avail, y);
      var i :| 0 <= i < |ds[1..]| && ds[1..][i] in avail && y in Subtree(kids, ds[1..][i], avail);
      assert ds[i + 1] == ds[1..][i];
    }
  }

  /** The list of one child sits inside the concatenated list of all children. */
  lemma ChildrenInfix(kids: map<string, seq<string>>, ds: seq<string>, avail: set<string>, i: nat)
    returns (pre: seq<string>, post: seq<string>)
    requires i < |ds| && ds[i] in avail
    ensures Children(kids, ds, avail) == pre + Subtree(kids, ds[i], avail) + post
  {
    assert ds == ds[..i] + ([ds[i]] + ds[i + 1..]);
    ChildrenAppend(kids, ds[..i], [ds[i]] + ds[i + 1..], avail);
    ChildrenAppend(kids, [ds[i]], ds[i + 1..], avail);
    assert Children(kids, [ds[i]], avail) == Subtree(kids, ds[i], avail) + Children(kids, [], avail);
    pre := Children(kids, ds[..i], avail);
    post := Children(kids, ds[i + 1..], avail);
    assert Children(kids, ds, avail) == pre + Subtree(kids, ds[i], avail) + post;
  }

  /** Every name in the list of `c` descends from `c`. */
  lemma {:induction false} SubtreeAnc(t: TreeState, c: string, avail: set<string>, y: string)
    requires Linked(t) && c in avail && y in Subtree(t.kids, c, avail)
    ensures exists j: nat :: Anc(t.par, y, j) == Some(c)
    decreases avail
  {
    if y == c {
      assert Anc(t.par, y, 0) == Some(c);
    } else {
      var ds := KidsOf(t.kids, c);
      var rest := avail - {c};
      assert Subtree(t.kids, c, avail) == [c] + Children(t.kids, ds, rest);
      ChildrenMember(t.kids, ds, rest, y);
      var i :| 0 <= i < |ds| && ds[i] in rest && y in Subtree(t.kids, ds[i], rest);
      var d := ds[i];
      assert c in t.kids;
      assert d in t.par && t.par[d] == c;
      SubtreeAnc(t, d, rest, y);
      var j: nat :| Anc(t.par, y, j) == Some(d);
      AncAdd(t.par, y, j, 1);
      assert Anc(t.par, d, 1) == Some(c);
    }
  }

  /** Two nodes of one chain with the same parent are the same node, if that parent has a root. */
  lemma SiblingsOnChain(par: map<string, string>, y: string, d1: string, d2: string, j1: nat, j2: nat)
    requires Anc(par, y, j1) == Some(d1) && Anc(par, y, j2) == Some(d2)
    requires d1 in par && d2 in par && par[d1] == par[d2] && HasRoot(par, par[d1])
    ensures d1 == d2
  {
    var c := par[d1];
    if j1 < j2 {
      AncAdd(par, y, j1, j2 - j1);
      assert Anc(par, c, j2 - j1 - 1) == Some(d2);
      AncAdd(par, c, j2 - j1 - 1, 1);
      assert Anc(par, c, j2 - j1) == Some(c);
      CycleNoRoot(par, c);
      assert false;
    } else if j2 < j1 {
      AncAdd(par, y, j2, j1 - j2);
      assert Anc(par, c, j1 - j2 - 1) == Some(d1);
      AncAdd(par, c, j1 - j2 - 1, 1);
      assert Anc(par, c, j1 - j2) == Some(c);
      CycleNoRoot(par, c);
      assert false;
    }
  }

  lemma DistinctConcat<T>(a: seq<T>, b: seq<T>)
    requires Distinct(a) && Distinct(b)
    requires forall y :: y in a ==> y !in b
    ensures Distinct(a + b)
  {
    forall i, j | 0 <= i < j < |a + b| ensures (a + b)[i] != (a + b)[j] {
      if i < |a| && |a| <= j {
        assert (a + b)[i] in a && (a + b)[j] == b[j - |a|];
      }
    }
  }

  /** The list of a node with a parentless ancestor names nobody twice. */
  lemma {:induction false} SubtreeDistinct(t: TreeState, c: string, avail: set<string>)
    requires WellFormed(t) && Linked(t) && HasRoot(t.par, c) && c in avail
    ensures Distinct(Subtree(t.kids, c, avail))
    decreases avail, 0, 0
  {
    var ds := KidsOf(t.kids, c);
    assert Distinct(ds);
    ChildrenDistinct(t, ds, avail - {c}, c);
    ChildrenWithin(t.kids, ds, avail - {c});
    DistinctConcat([c], Children(t.kids, ds, avail - {c}));
  }

  lemma {:induction false} ChildrenDistinct(t: TreeState, ds: seq<string>, avail: set<string>, c: string)
    requires WellFormed(t) && Linked(t) && HasRoot(t.par, c) && Distinct(ds)
    requires forall i :: 0 <= i < |ds| ==> ds[i] in t.par && t.par[ds[i]] == c
    ensures Distinct(Children(t.kids, ds, avail))
    decreases avail, 1, |ds|
  {
    if ds != [] {
      var head := if ds[0] in avail then Subtree(t.kids, ds[0], avail) else [];
      var tail := Children(t.kids, ds[1..], avail);
      assert Children(t.kids, ds, avail) == head + tail;
      ParentRoot(t.par, ds[0]);
      if ds[0] in avail {
        SubtreeDistinct(t, ds[0], avail);
      }
      ChildrenDistinct(t, ds[1..], avail, c);
      if ds[0] in avail {
        SubtreeApart(t, ds, avail, c);
      }
      DistinctConcat(head, tail);
    }
  }

  /** Nobody in the list of the first child is in the lists of its later siblings. */
  lemma SubtreeApart(t: TreeState, ds: seq<string>, avail: set<string>, c: string)
    requires WellFormed(t) && Linked(t) && HasRoot(t.par, c) && Distinct(ds) && ds != [] && ds[0] in avail
    requires forall i :: 0 <= i < |ds| ==> ds[i] in t.par && t.par[ds[i]] == c
    ensures forall y :: y in Subtree(t.kids, ds[0], avail) ==> y !in Children(t.kids, ds[1..], avail)
  {
    var rest := ds[1..];
    forall y | y in Subtree(t.kids, ds[0], avail)
      ensures y !in Children(t.kids, rest, avail)
    {
      if y in Children(t.kids, rest, avail) {
        SubtreeAnc(t, ds[0], avail, y);
        var j1: nat :| Anc(t.par, y, j1) == Some(ds[0]);
        ChildrenMember(t.kids, rest, avail, y);
        var i :| 0 <= i < |rest| && rest[i] in avail && y in Subtree(t.kids, rest[i], avail);
        SubtreeAnc(t, rest[i], avail, y);
        var j2: nat :| Anc(t.par, y, j2) == Some(rest[i]);
        assert rest[i] == ds[i + 1];
        SiblingsOnChain(t.par, y, ds[0], rest[i], j1, j2);
        assert false;
      }
    }
  }

  lemma {:induction false} RootsSplit(t: TreeState, lo: nat, mid: nat, hi: nat)
    requires lo <= mid <= hi <= |t.keys|
    ensures Roots(t, lo, hi) == Roots(t, lo, mid) + Roots(t, mid, hi)
    decreases hi - mid
  {
    if mid < hi {
      RootsSplit(t, lo, mid, hi - 1);
    }
  }

  lemma {:induction false} RootsMember(t: TreeState, lo: nat, hi: nat, y: string)
    requires lo <= hi <= |t.keys| && y in Roots(t, lo, hi)
    ensures exists k :: (lo <= k < hi && t.keys[k] !in t.par && t.keys[k] in t.kids &&
      y in Subtree(t.kids, t.keys[k], t.kids.Keys))
    decreases hi - lo
  {
    if y !in Block(t, t.keys[hi - 1]) {
      RootsMember(t, lo, hi - 1, y);
    }
  }

  /** The list of a parentless node is one block of `Tree.to_list`. */
  lemma RootBlock(t: TreeState, i: nat)
    requires i < |t.keys| && t.keys[i] !in t.par && t.keys[i] in t.kids
    ensures Flatten(t) == Roots(t, 0, i) + Block(t, t.keys[i]) + Roots(t, i + 1, |t.keys|)
  {
    var n := |t.keys|;
    RootsSplit(t, 0, i, n);
    RootsSplit(t, i, i + 1, n);
    var a, b, c := Roots(t, 0, i), Block(t, t.keys[i]), Roots(t, i + 1, n);
    RootsOne(t, i);
    assert Flatten(t) == a + (b + c);
    SeqAssoc(a, b, c);
  }

  lemma RootsOne(t: TreeState, i: nat)
    requires i < |t.keys|
    ensures Roots(t, i, i + 1) == Block(t, t.keys[i])
  {
    assert Roots(t, i, i + 1) == [] + Block(t, t.keys[i]);
  }

  lemma SeqAssoc<T>(a: seq<T>, b: seq<T>, c: seq<T>)
    ensures a + (b + c) == a + b + c
  {
  }

  lemma SplitAt<T>(s: seq<T>, i: nat)
    requires i < |s|
    ensures s == s[..i] + ([s[i]] + s[i + 1..])
  {
  }

  /** Every key `z` at least as deep as `c` is still available. */
  ghost predicate Good(t: TreeState, avail: set<string>, c: string) {
    HasRoot(t.par, c) &&
    forall z :: z in t.kids && HasRoot(t.par, z) && Depth(t.par, z) >= Depth(t.par, c) ==> z in avail
  }

  /** Passing from `c` to a child `d` keeps every name at least as deep as `d` available. */
  lemma GoodChild(t: TreeState, avail: set<string>, c: string, d: string)
    requires WellFormed(t) && Good(t, avail, c) && d in t.par && t.par[d] == c
    ensures d in avail - {c} && Good(t, avail - {c}, d)
  {
    ParentRoot(t.par, d);
    forall z | z in t.kids && HasRoot(t.par, z) && Depth(t.par, z) >= Depth(t.par, d)
      ensures z in avail - {c}
    {
      assert z in avail;
    }
  }

  /**
   * A descendant `y` of `c` has its own list inside the list of `c`, computed with a set of
   * available names that still contains everything at least as deep as `y`.
   */
  lemma {:induction false} SubtreeInfix(t: TreeState, c: string, avail: set<string>, y: string, j: nat)
    returns (pre: seq<string>, post: seq<string>, a: set<string>)
    requires WellFormed(t) && Linked(t) && c in avail && Good(t, avail, c)
    requires Anc(t.par, y, j) == Some(c)
    ensures HasRoot(t.par, y) && y in a && Good(t, a, y)
    ensures Subtree(t.kids, c, avail) == pre + Subtree(t.kids, y, a) + post
    decreases j
  {
    if j == 0 {
      pre, post, a := [], [], avail;
      assert Subtree(t.kids, c, avail) == [] + Subtree(t.kids, y, avail) + [];
    } else {
      AncPrefix(t.par, y, j - 1, 1);
      var d := Anc(t.par, y, j - 1).value;
      AncAdd(t.par, y, j - 1, 1);
      assert d in t.par && t.par[d] == c;
      ParentRoot(t.par, d);
      var ds := KidsOf(t.kids, c);
      assert d in ds;
      var i :| 0 <= i < |ds| && ds[i] == d;
      var rest := avail - {c};
      GoodChild(t, avail, c, d);
      var pre1, post1 := ChildrenInfix(t.kids, ds, rest, i);
      var pre2, post2, a2 := SubtreeInfix(t, d, rest, y, j - 1);
      assert Subtree(t.kids, c, avail) == [c] + Children(t.kids, ds, rest);
      NestedInfix([c], pre1, Subtree(t.kids, d, rest), post1, pre2, Subtree(t.kids, y, a2), post2);
      pre, post, a := [c] + pre1 + pre2, post2 + post1, a2;
    }
  }

  /** `Tree.to_list` holds exactly the names whose parent chain ends in a parentless node. */
  lemma FlattenMembers(t: TreeState)
    requires WellFormed(t) && Linked(t)
    ensures forall y :: y in Flatten(t) <==> y in t.kids && HasRoot(t.par, y)
  {
    forall y | y in Flatten(t)
      ensures y in t.kids && HasRoot(t.par, y)
    {
      RootsMember(t, 0, |t.keys|, y);
      var k :| 0 <= k < |t.keys| && t.keys[k] !in t.par && t.keys[k] in t.kids &&
        y in Subtree(t.kids, t.keys[k], t.kids.Keys);
      var r := t.keys[k];
      SubtreeWithin(t.kids, r, t.kids.Keys);
      SubtreeAnc(t, r, t.kids.Keys, y);
      var j: nat :| Anc(t.par, y, j) == Some(r);
      assert RootAt(t.par, y, j);
    }
    forall y | y in t.kids && HasRoot(t.par, y)
      ensures y in Flatten(t)
    {
      var i, _, _, _ := RootIndexOf(t, y);
      RootBlock(t, i);
    }
  }

  /**
   * The dictionary position of the parentless ancestor of `y`; the list of that ancestor
   * contains `y`.
   */
  lemma RootIndexOf(t: TreeState, y: string) returns (i: nat, pre: seq<string>, post: seq<string>, a: set<string>)
    requires WellFormed(t) && Linked(t) && y in t.kids && HasRoot(t.par, y)
    ensures i < |t.keys| && t.keys[i] !in t.par && t.keys[i] in t.kids
    ensures y in a && Good(t, a, y)
    ensures Subtree(t.kids, t.keys[i], t.kids.Keys) == pre + Subtree(t.kids, y, a) + post
    ensures y in Subtree(t.kids, t.keys[i], t.kids.Keys)
  {
    var j := Depth(t.par, y);
    var r := Anc(t.par, y, j).value;
    AncInTree(t, y, j);
    assert r in t.kids.Keys;
    i :| 0 <= i < |t.keys| && t.keys[i] == r;
    assert RootAt(t.par, r, 0);
    assert Good(t, t.kids.Keys, r);
    pre, post, a := SubtreeInfix(t, r, t.kids.Keys, y, j);
    assert y == Subtree(t.kids, y, a)[0];
    assert y == Subtree(t.kids, r, t.kids.Keys)[|pre|];
  }

  /** `Tree.to_list` never names a node twice. */
  lemma FlattenDistinct(t: TreeState)
    requires WellFormed(t) && Linked(t)
    ensures Distinct(Flatten(t))
  {
    RootsDistinct(t, |t.keys|);
  }

  lemma {:induction false} RootsDistinct(t: TreeState, n: nat)
    requires WellFormed(t) && Linked(t) && n <= |t.keys|
    ensures Distinct(Roots(t, 0, n))
    decreases n
  {
    if n > 0 {
      var r := t.keys[n - 1];
      RootsDistinct(t, n - 1);
      if r !in t.par && r in t.kids {
        assert RootAt(t.par, r, 0);
        SubtreeDistinct(t, r, t.kids.Keys);
        forall y | y in Roots(t, 0, n - 1)
          ensures y !in Block(t, r)
        {
          if y in Block(t, r) {
            RootsMember(t, 0, n - 1, y);
            var k :| 0 <= k < n - 1 && t.keys[k] !in t.par && t.keys[k] in t.kids &&
              y in Subtree(t.kids, t.keys[k], t.kids.Keys);
            SubtreeAnc(t, t.keys[k], t.kids.Keys, y);
            var j1: nat :| Anc(t.par, y, j1) == Some(t.keys[k]);
            SubtreeAnc(t, r, t.kids.Keys, y);
            var j2: nat :| Anc(t.par, y, j2) == Some(r);
            RootUnique(t.par, y, j1, j2);
            assert false;
          }
        }
        DistinctConcat(Roots(t, 0, n - 1), Block(t, r));
      }
    }
  }

  lemma DistinctMultiset<T>(s: seq<T>)
    requires Distinct(s)
    ensures forall x :: multiset(s)[x] == if x in s then 1 else 0
  {
    if s != [] {
      assert s == [s[0]] + s[1..];
      DistinctMultiset(s[1..]);
    }
  }

  /** With every node under a parentless ancestor, `Tree.to_list` is a permutation of the dictionary. */
  lemma FlattenPermutation(t: TreeState)
    requires WellFormed(t) && Linked(t) && Rooted(t)
    ensures multiset(Flatten(t)) == multiset(t.keys)
  {
    FlattenMembers(t);
    FlattenDistinct(t);
    SameMembers(Flatten(t), t.keys);
  }

  /** Two lists without repetitions that hold the same elements are permutations of each other. */
  lemma SameMembers<T>(a: seq<T>, b: seq<T>)
    requires Distinct(a) && Distinct(b) && forall x :: x in a <==> x in b
    ensures multiset(a) == multiset(b)
  {
    DistinctMultiset(a);
    DistinctMultiset(b);
    assert forall x :: multiset(a)[x] == multiset(b)[x];
  }

  /** The parent of `s[i]` occurs earlier in `s`. */
  ghost predicate ParentEarlier(s: seq<string>, par: map<string, string>, i: nat)
    requires i < |s| && s[i] in par
  {
    exists j :: 0 <= j < i && s[j] == par[s[i]]
  }

  /** Every name of `s` has a parent, which is `c` or occurs earlier in `s`. */
  ghost predicate ParentsFirst(s: seq<string>, par: map<string, string>, c: string) {
    forall i :: 0 <= i < |s| ==> s[i] in par && (par[s[i]] == c || ParentEarlier(s, par, i))
  }

  lemma ParentsFirstConcat(a: seq<string>, b: seq<string>, par: map<string, string>, c: string)
    requires ParentsFirst(a, par, c) && ParentsFirst(b, par, c)
    ensures ParentsFirst(a + b, par, c)
  {
    var s := a + b;
    forall i | 0 <= i < |s| && par[s[i]] != c
      ensures ParentEarlier(s, par, i)
    {
      if i < |a| {
        assert s[i] == a[i] && ParentEarlier(a, par, i);
        var j :| 0 <= j < i && a[j] == par[a[i]];
        assert s[j] == a[j];
      } else {
        assert s[i] == b[i - |a|] && ParentEarlier(b, par, i - |a|);
        var j :| 0 <= j < i - |a| && b[j] == par[b[i - |a|]];
        assert s[j + |a|] == b[j];
      }
    }
  }

  /** Below the head of its list, every node comes after its parent. */
  lemma {:induction false} SubtreeParentsFirst(t: TreeState, c: string, avail: set<string>)
    requires Linked(t) && c in avail
    ensures ParentsFirst(Subtree(t.kids, c, avail)[1..], t.par, c)
    decreases avail, 0, 0
  {
    var s := Subtree(t.kids, c, avail);
    ChildrenParentsFirst(t, KidsOf(t.kids, c), avail - {c}, c);
    assert s[1..] == Children(t.kids, KidsOf(t.kids, c), avail - {c});
  }

  lemma {:induction false} ChildrenParentsFirst(t: TreeState, ds: seq<string>, avail: set<string>, c: string)
    requires Linked(t)
    requires forall i :: 0 <= i < |ds| ==> ds[i] in t.par && t.par[ds[i]] == c
    ensures ParentsFirst(Children(t.kids, ds, avail), t.par, c)
    decreases avail, 1, |ds|
  {
    if ds != [] {
      var head := if ds[0] in avail then Subtree(t.kids, ds[0], avail) else [];
      if ds[0] in avail {
        SubtreeParentsFirst(t, ds[0], avail);
        forall i | 0 <= i < |head|
          ensures head[i] in t.par && (t.par[head[i]] == c || ParentEarlier(head, t.par, i))
        {
          if i > 0 {
            assert head[i] == head[1..][i - 1];
            if t.par[head[i]] != ds[0] {
              assert ParentEarlier(head[1..], t.par, i - 1);
              var j :| 0 <= j < i - 1 && head[1..][j] == t.par[head[1..][i - 1]];
              assert head[j + 1] == head[1..][j];
            } else {
              assert head[0] == ds[0];
            }
          }
        }
      }
      ChildrenParentsFirst(t, ds[1..], avail, c);
      ParentsFirstConcat(head, Children(t.kids, ds[1..], avail), t.par, c);
    }
  }

  /** In `Tree.to_list` every node that has a parent comes after that parent. */
  lemma FlattenParentsFirst(t: TreeState)
    requires Linked(t)
    ensures forall i :: 0 <= i < |Flatten(t)| && Flatten(t)[i] in t.par ==> ParentEarlier(Flatten(t), t.par, i)
  {
    RootsParentsFirst(t, |t.keys|);
  }

  lemma {:induction false} RootsParentsFirst(t: TreeState, n: nat)
    requires Linked(t) && n <= |t.keys|
    ensures forall i :: 0 <= i < |Roots(t, 0, n)| && Roots(t, 0, n)[i] in t.par ==> ParentEarlier(Roots(t, 0, n), t.par, i)
    decreases n
  {
    if n > 0 {
      var r := t.keys[n - 1];
      RootsParentsFirst(t, n - 1);
      var a := Roots(t, 0, n - 1);
      var b := Block(t, r);
      var s := a + b;
      if r !in t.par && r in t.kids {
        SubtreeParentsFirst(t, r, t.kids.Keys);
      }
      forall i | 0 <= i < |s| && s[i] in t.par
        ensures ParentEarlier(s, t.par, i)
      {
        if i < |a| {
          assert s[i] == a[i] && ParentEarlier(a, t.par, i);
          var j :| 0 <= j < i && a[j] == t.par[a[i]];
          assert s[j] == a[j];
        } else {
          var k := i - |a|;
          assert s[i] == b[k];
          if k == 0 {
            assert false;
          }
          assert b[k] == b[1..][k - 1];
          if t.par[b[k]] == r {
            assert s[|a|] == r;
          } else {
            assert ParentEarlier(b[1..], t.par, k - 1);
            var j :| 0 <= j < k - 1 && b[1..][j] == t.par[b[1..][k - 1]];
            assert s[|a| + 1 + j] == b[1..][j];
          }
        }
      }
    }
  }

  /** A child whose list lies inside one of the sibling lists comes before the later siblings. */
  lemma {:induction false} ChildrenBefore(kids: map<string, seq<string>>, ds: seq<string>, avail: set<string>, k1: nat, k2: nat)
    requires k1 < k2 < |ds| && ds[k1] in avail && ds[k2] in avail
    ensures Before(Children(kids, ds, avail), ds[k1], ds[k2])
    decreases |ds|
  {
    var head := if ds[0] in avail then Subtree(kids, ds[0], avail) else [];
    var tail := Children(kids, ds[1..], avail);
    assert Children(kids, ds, avail) == head + tail;
    if k1 == 0 {
      var pre, post := ChildrenInfix(kids, ds[1..], avail, k2 - 1);
      assert (head + tail)[0] == ds[0];
      assert (head + tail)[|head| + |pre|] == ds[k2];
    } else {
      ChildrenBefore(kids, ds[1..], avail, k1 - 1, k2 - 1);
      var i, j :| 0 <= i < j < |tail| && tail[i] == ds[k1] && tail[j] == ds[k2];
      assert (head + tail)[|head| + i] == ds[k1] && (head + tail)[|head| + j] == ds[k2];
    }
  }

  /** Children keep the order in which they were attached to their parent. */
  lemma SiblingOrder(t: TreeState, p: string, k1: nat, k2: nat)
    requires WellFormed(t) && Linked(t) && p in t.kids && HasRoot(t.par, p)
    requires k1 < k2 < |KidsOf(t.kids, p)|
    ensures Before(Flatten(t), KidsOf(t.kids, p)[k1], KidsOf(t.kids, p)[k2])
  {
    var ds := KidsOf(t.kids, p);
    var u, v := ds[k1], ds[k2];
    var i, pre, post, a := RootIndexOf(t, p);
    ParentRoot(t.par, u);
    ParentRoot(t.par, v);
    assert u in a - {p} && v in a - {p};
    ChildrenBefore(t.kids, ds, a - {p}, k1, k2);
    var cs := Children(t.kids, ds, a - {p});
    BeforeWithin([p], cs, [], u, v);
    assert [p] + cs + [] == Subtree(t.kids, p, a);
    BeforeWithin(pre, Subtree(t.kids, p, a), post, u, v);
    RootBlock(t, i);
    BeforeWithin(Roots(t, 0, i), Block(t, t.keys[i]), Roots(t, i + 1, |t.keys|), u, v);
  }

  lemma BeforeWithin<T>(pre: seq<T>, s: seq<T>, post: seq<T>, u: T, v: T)
    requires Before(s, u, v)
    ensures Before(pre + s + post, u, v)
  {
    var i, j :| 0 <= i < j < |s| && s[i] == u && s[j] == v;
    assert (pre + s + post)[|pre| + i] == u && (pre + s + post)[|pre| + j] == v;
  }

  lemma NestedInfix<T>(x: seq<T>, pre1: seq<T>, mid: seq<T>, post1: seq<T>, pre2: seq<T>, e: seq<T>, post2: seq<T>)
    requires mid == pre2 + e + post2
    ensures x + (pre1 + mid + post1) == (x + pre1 + pre2) + e + (post2 + post1)
  {
  }

  /** Parentless nodes appear in dictionary order. */
  lemma RootOrder(t: TreeState, i1: nat, i2: nat)
    requires i1 < i2 < |t.keys| && t.keys[i1] !in t.par && t.keys[i2] !in t.par
    requires t.keys[i1] in t.kids && t.keys[i2] in t.kids
    ensures Before(Flatten(t), t.keys[i1], t.keys[i2])
  {
    var n := |t.keys|;
    var a := Roots(t, 0, i1);
    var b1 := Block(t, t.keys[i1]);
    var y := Roots(t, i1 + 1, i2);
    var b2 := Block(t, t.keys[i2]);
    var z := Roots(t, i2 + 1, n);
    var r1 := Roots(t, i1, n);
    var r2 := Roots(t, i1 + 1, n);
    var r3 := Roots(t, i2, n);
    assert Flatten(t) == a + r1 by {
      RootsSplit(t, 0, i1, n);
    }
    assert r1 == b1 + r2 by {
      RootsSplit(t, i1, i1 + 1, n);
      RootsOne(t, i1);
    }
    assert r2 == y + r3 by {
      RootsSplit(t, i1 + 1, i2, n);
    }
    assert r3 == b2 + z by {
      RootsSplit(t, i2, i2 + 1, n);
      RootsOne(t, i2);
    }
    BlockHead(t, t.keys[i1]);
    BlockHead(t, t.keys[i2]);
    HeadsInOrder(a, b1, y, b2, z);
  }

  /** The block of a parentless entry starts with the entry itself. */
  lemma BlockHead(t: TreeState, r: string)
    requires r !in t.par && r in t.kids
    ensures Block(t, r) != [] && Block(t, r)[0] == r
  {
    assert Block(t, r) == [r] + Children(t.kids, KidsOf(t.kids, r), t.kids.Keys - {r});
  }

  lemma HeadsInOrder<T>(a: seq<T>, b1: seq<T>, y: seq<T>, b2: seq<T>, z: seq<T>)
    requires b1 != [] && b2 != []
    ensures Before(a + (b1 + (y + (b2 + z))), b1[0], b2[0])
  {
    var f := a + (b1 + (y + (b2 + z)));
    assert f[|a|] == b1[0];
    assert f[|a| + |b1| + |y|] == b2[0];
  }

  /** Names caught in a cycle of parents do not appear in `Tree.to_list`. */
  lemma CycleOmitted(t: TreeState, x: string)
    requires WellFormed(t) && Linked(t) && OnCycle(t.par, x)
    ensures x !in Flatten(t)
  {
    FlattenMembers(t);
    CycleNoRoot(t.par, x);
  }

  /** The `k`-th ancestor of `x`, or `x` itself when the chain is shorter. */
  function AncOr(par: map<string, string>, x: string, k: nat): string {
    match Anc(par, x, k)
    case Some(v) => v
    case None => x
  }

  /** A sequence longer than the set its elements come from repeats an element. */
  lemma {:induction false} Pigeonhole<T>(s: seq<T>, from: set<T>)
    requires forall i :: 0 <= i < |s| ==> s[i] in from
    requires |s| > |from|
    ensures exists i, j :: 0 <= i < j < |s| && s[i] == s[j]
    decreases |s|
  {
    if s[0] in s[1..] {
      var j :| 0 <= j < |s[1..]| && s[1..][j] == s[0];
      assert s[0] == s[j + 1];
    } else {
      var rest := from - {s[0]};
      forall i | 0 <= i < |s[1..]|
        ensures s[1..][i] in rest
      {
        assert s[1..][i] == s[i + 1] && s[i + 1] != s[0];
      }
      Pigeonhole(s[1..], rest);
      var i, j :| 0 <= i < j < |s[1..]| && s[1..][i] == s[1..][j];
      assert s[i + 1] == s[j + 1];
    }
  }

  /** Without a parentless ancestor, the chain of parents goes on for ever inside the tree. */
  lemma {:induction false} EndlessChain(t: TreeState, x: string, k: nat)
    requires WellFormed(t) && x in t.kids && !HasRoot(t.par, x)
    ensures Anc(t.par, x, k).Some? && Anc(t.par, x, k).value in t.par
    decreases k
  {
    if k == 0 {
      assert !RootAt(t.par, x, 0);
    } else {
      EndlessChain(t, x, k - 1);
      AncAdd(t.par, x, k - 1, 1);
      assert !RootAt(t.par, x, k);
    }
  }

  /** Without a cycle of parents every node has a parentless ancestor. */
  lemma AcyclicRooted(t: TreeState)
    requires WellFormed(t) && Acyclic(t)
    ensures Rooted(t)
  {
    forall x | x in t.kids
      ensures HasRoot(t.par, x)
    {
      if !HasRoot(t.par, x) {
        var n := |t.kids.Keys|;
        var chain := seq(n + 1, (k: int) requires 0 <= k => AncOr(t.par, x, k));
        forall k | 0 <= k < |chain|
          ensures chain[k] in t.kids.Keys
        {
          EndlessChain(t, x, k);
          AncInTree(t, x, k);
        }
        Pigeonhole(chain, t.kids.Keys);
        var i, j :| 0 <= i < j < |chain| && chain[i] == chain[j];
        EndlessChain(t, x, i);
        EndlessChain(t, x, j);
        AncInTree(t, x, i);
        var z := chain[i];
        AncAdd(t.par, x, i, j - i);
        assert false;
      }
    }
  }
}
