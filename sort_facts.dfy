/**
 * What `SortModels` (io_mesh_urho/export_scene.py, and its copy in urho_scene_prefab.py)
 * delivers: the tree it builds from (name, parent name) pairs, and the records it rearranges
 * along `Tree.to_list`.
 */
module SortFacts {
  import opened Wrappers
  import opened Hierarchy
  import opened TreeFacts

  /** No two records share a key. */
  ghost predicate DistinctKeys<T>(items: seq<T>, key: T -> string) {
    forall i, j :: 0 <= i < j < |items| ==> key(items[i]) != key(items[j])
  }

  /** The record is pushed with a parent that `Tree.push` links it under. */
  predicate LinksUp<T>(x: T, key: T -> string, parentKey: T -> Option<string>) {
    Truthy(parentKey(x)) && parentKey(x).value != key(x)
  }

  /** The names of the records pushed under `p`, in push order. */
  function ChildNames<T>(items: seq<T>, key: T -> string, parentKey: T -> Option<string>, p: string): seq<string> {
    if items == [] then []
    else
      var last := items[|items| - 1];
      ChildNames(items[..|items| - 1], key, parentKey, p)
        + (if LinksUp(last, key, parentKey) && parentKey(last).value == p then [key(last)] else [])
  }

  /** Every name a record mentions, its own first and then its parent's, in push order. */
  function Mentions<T>(items: seq<T>, key: T -> string, parentKey: T -> Option<string>): seq<string> {
    if items == [] then []
    else
      var last := items[|items| - 1];
      Mentions(items[..|items| - 1], key, parentKey) + [key(last)]
        + (if Truthy(parentKey(last)) then [parentKey(last).value] else [])
  }

  /** The first occurrences of the names of `s`, in order. */
  function FirstOccurrences(s: seq<string>): seq<string> {
    if s == [] then []
    else
      var front := FirstOccurrences(s[..|s| - 1]);
      front + (if s[|s| - 1] in s[..|s| - 1] then [] else [s[|s| - 1]])
  }

  lemma FirstOccurrencesMembers(s: seq<string>)
    ensures forall x :: x in FirstOccurrences(s) <==> x in s
    ensures Distinct(FirstOccurrences(s))
  {
    if s != [] {
      var front := s[..|s| - 1];
      FirstOccurrencesMembers(front);
      assert s == front + [s[|s| - 1]];
      var f := FirstOccurrences(front);
      if s[|s| - 1] !in front {
        DistinctConcat(f, [s[|s| - 1]]);
      }
    }
  }

  /** `Tree.push` keeps the dictionary view consistent. */
  /** The dictionary after `Tree.push` has made sure a node named `n` exists. */
  function Added(t: TreeState, n: string): TreeState {
    if n in t.kids then t else TreeState(t.keys + [n], t.par, t.kids[n := []])
  }

  /** The dictionary order after making sure `x` is present. */
  function Extended(ks: seq<string>, x: string): seq<string> {
    if x in ks then ks else ks + [x]
  }

  lemma AddedWellFormed(t: TreeState, n: string)
    requires WellFormed(t)
    ensures WellFormed(Added(t, n)) && Added(t, n).keys == Extended(t.keys, n)
  {
    if n !in t.kids {
      DistinctConcat(t.keys, [n]);
      assert Names(Added(t, n)) == Names(t) + {n};
    }
  }

  lemma LinkWellFormed(t: TreeState, name: string, p: string)
    requires WellFormed(t) && name in t.kids && p in t.kids
    ensures WellFormed(TreeState(t.keys, t.par[name := p], t.kids[p := t.kids[p] + [name]]))
  {
  }

  /** `Tree.push` keeps the dictionary view consistent, and extends the dictionary order by the names it mentions. */
  lemma PushedWellFormed(t: TreeState, name: string, parent: Option<string>)
    requires WellFormed(t)
    ensures WellFormed(Pushed(t, name, parent))
    ensures Pushed(t, name, parent).keys ==
      if Truthy(parent) then Extended(Extended(t.keys, name), parent.value) else Extended(t.keys, name)
  {
    var t1 := Added(t, name);
    AddedWellFormed(t, name);
    if Truthy(parent) {
      var p := parent.value;
      AddedWellFormed(t1, p);
      if p != name {
        LinkWellFormed(Added(t1, p), name, p);
      }
    }
  }

  /** Linking `name`, which had no parent, under `p` keeps parent and children links in agreement. */
  lemma LinkLinked(t: TreeState, r: TreeState, name: string, p: string)
    requires WellFormed(t) && Linked(t) && name !in t.par && name != p
    requires r.par == t.par[name := p] && p in r.kids && r.kids[p] == KidsOf(t.kids, p) + [name]
    requires t.kids.Keys <= r.kids.Keys && forall q :: q in r.kids && q != p ==> r.kids[q] == KidsOf(t.kids, q)
    ensures Linked(r)
  {
    forall q, i | q in r.kids && 0 <= i < |r.kids[q]|
      ensures r.kids[q][i] in r.par && r.par[r.kids[q][i]] == q
    {
      if q == p && i == |r.kids[q]| - 1 {
        assert r.kids[q][i] == name;
      } else if q == p {
        assert r.kids[q][i] == KidsOf(t.kids, p)[i];
      } else {
        assert r.kids[q] == KidsOf(t.kids, q);
        assert q in t.kids && r.kids[q][i] == t.kids[q][i];
      }
    }
    forall q | q in r.kids
      ensures Distinct(r.kids[q])
    {
      if q == p {
        assert name !in KidsOf(t.kids, p);
        DistinctConcat(KidsOf(t.kids, p), [name]);
      }
    }
    forall x | x in r.par
      ensures x in KidsOf(r.kids, r.par[x])
    {
      if x == name {
        assert r.kids[p][|r.kids[p]| - 1] == name;
      } else {
        var q := t.par[x];
        var i :| 0 <= i < |KidsOf(t.kids, q)| && KidsOf(t.kids, q)[i] == x;
        if q == p {
          assert r.kids[p][i] == x;
        } else {
          assert r.kids[q] == t.kids[q];
        }
      }
    }
  }

  /** Pushing a name that has no parent yet keeps parent and children links in agreement. */
  lemma PushedLinked(t: TreeState, name: string, parent: Option<string>)
    requires WellFormed(t) && Linked(t) && name !in t.par
    ensures Linked(Pushed(t, name, parent))
  {
    var r := Pushed(t, name, parent);
    if Truthy(parent) && parent.value != name {
      LinkLinked(t, r, name, parent.value);
    } else {
      forall q, i | q in r.kids && 0 <= i < |r.kids[q]|
        ensures r.kids[q][i] in r.par && r.par[r.kids[q][i]] == q
      {
        assert r.kids[q] == KidsOf(t.kids, q);
      }
      forall x | x in r.par
        ensures x in KidsOf(r.kids, r.par[x])
      {
        assert r.kids[t.par[x]] == t.kids[t.par[x]];
      }
    }
  }

  /** The tree built from the records is consistent. */
  lemma {:induction false} BuiltWellFormed<T>(items: seq<T>, key: T -> string, parentKey: T -> Option<string>)
    ensures WellFormed(Built(items, key, parentKey))
    decreases |items|
  {
    if items != [] {
      var front := items[..|items| - 1];
      BuiltWellFormed(front, key, parentKey);
      PushedWellFormed(Built(front, key, parentKey), key(items[|items| - 1]), parentKey(items[|items| - 1]));
    }
  }

  /** Only a name some record carries gets a parent. */
  lemma {:induction false} BuiltParKeys<T>(items: seq<T>, key: T -> string, parentKey: T -> Option<string>)
    ensures forall x :: x in Built(items, key, parentKey).par ==> exists i :: 0 <= i < |items| && key(items[i]) == x
    decreases |items|
  {
    if items != [] {
      var front := items[..|items| - 1];
      var last := items[|items| - 1];
      BuiltParKeys(front, key, parentKey);
      forall x | x in Built(items, key, parentKey).par
        ensures exists i :: 0 <= i < |items| && key(items[i]) == x
      {
        if x != key(last) {
          assert x in Built(front, key, parentKey).par;
          var i :| 0 <= i < |front| && key(front[i]) == x;
          assert items[i] == front[i];
        } else {
          assert key(items[|items| - 1]) == x;
        }
      }
    }
  }

  /** With one record per name, the parent and children links of the built tree agree. */
  lemma {:induction false} BuiltLinked<T>(items: seq<T>, key: T -> string, parentKey: T -> Option<string>)
    requires DistinctKeys(items, key)
    ensures Linked(Built(items, key, parentKey))
    decreases |items|
  {
    if items != [] {
      var front := items[..|items| - 1];
      var last := items[|items| - 1];
      assert DistinctKeys(front, key) by {
        forall i, j | 0 <= i < j < |front| ensures key(front[i]) != key(front[j]) {
          assert front[i] == items[i] && front[j] == items[j];
        }
      }
      BuiltLinked(front, key, parentKey);
      BuiltWellFormed(front, key, parentKey);
      BuiltParKeys(front, key, parentKey);
      if key(last) in Built(front, key, parentKey).par {
        assert false;
      }
      PushedLinked(Built(front, key, parentKey), key(last), parentKey(last));
    }
  }

  /**
   * With one record per name, a record's name has a parent exactly when the record was pushed
   * with a parent other than itself, and that parent is the one recorded.
   */
  lemma {:induction false} BuiltParents<T>(items: seq<T>, key: T -> string, parentKey: T -> Option<string>)
    requires DistinctKeys(items, key)
    ensures forall i :: 0 <= i < |items| ==>
      (key(items[i]) in Built(items, key, parentKey).par <==> LinksUp(items[i], key, parentKey))
    ensures forall i :: 0 <= i < |items| && LinksUp(items[i], key, parentKey) ==>
      Built(items, key, parentKey).par[key(items[i])] == parentKey(items[i]).value
    decreases |items|
  {
    if items != [] {
      var front := items[..|items| - 1];
      var last := items[|items| - 1];
      assert DistinctKeys(front, key) by {
        forall i, j | 0 <= i < j < |front| ensures key(front[i]) != key(front[j]) {
          assert front[i] == items[i] && front[j] == items[j];
        }
      }
      BuiltParents(front, key, parentKey);
      BuiltParKeys(front, key, parentKey);
      var t := Built(front, key, parentKey);
      if key(last) in t.par {
        assert false;
      }
      var r := Built(items, key, parentKey);
      assert r == Pushed(t, key(last), parentKey(last));
      forall i | 0 <= i < |items|
        ensures key(items[i]) in r.par <==> LinksUp(items[i], key, parentKey)
        ensures LinksUp(items[i], key, parentKey) ==> r.par[key(items[i])] == parentKey(items[i]).value
      {
        if i < |items| - 1 {
          assert items[i] == front[i];
          assert key(items[i]) != key(last);
        }
      }
    }
  }

  /** With one record per name, the children of every node are the records pushed under it, in push order. */
  lemma {:induction false} BuiltChildren<T>(items: seq<T>, key: T -> string, parentKey: T -> Option<string>)
    requires DistinctKeys(items, key)
    ensures forall p :: KidsOf(Built(items, key, parentKey).kids, p) == ChildNames(items, key, parentKey, p)
    decreases |items|
  {
    if items != [] {
      var front := items[..|items| - 1];
      var last := items[|items| - 1];
      assert DistinctKeys(front, key) by {
        forall i, j | 0 <= i < j < |front| ensures key(front[i]) != key(front[j]) {
          assert front[i] == items[i] && front[j] == items[j];
        }
      }
      BuiltChildren(front, key, parentKey);
      var t := Built(front, key, parentKey);
      var r := Built(items, key, parentKey);
      forall p
        ensures KidsOf(r.kids, p) == ChildNames(items, key, parentKey, p)
      {
        if LinksUp(last, key, parentKey) && parentKey(last).value == p {
        } else if p in t.kids {
          assert r.kids[p] == t.kids[p];
        } else if p in r.kids {
          assert r.kids[p] == [];
          assert ChildNames(front, key, parentKey, p) == KidsOf(t.kids, p);
        }
      }
    }
  }

  /** The dictionary order of the built tree is the order in which the records first mention each name. */
  lemma FirstOccurrencesSnoc(s: seq<string>, x: string)
    ensures FirstOccurrences(s + [x]) == Extended(FirstOccurrences(s), x)
  {
    assert (s + [x])[..|s + [x]| - 1] == s;
    FirstOccurrencesMembers(s);
  }

  lemma {:induction false} BuiltKeys<T>(items: seq<T>, key: T -> string, parentKey: T -> Option<string>)
    ensures Built(items, key, parentKey).keys == FirstOccurrences(Mentions(items, key, parentKey))
    decreases |items|
  {
    if items != [] {
      var front := items[..|items| - 1];
      var last := items[|items| - 1];
      BuiltKeys(front, key, parentKey);
      BuiltWellFormed(front, key, parentKey);
      PushedWellFormed(Built(front, key, parentKey), key(last), parentKey(last));
      var m := Mentions(front, key, parentKey);
      FirstOccurrencesSnoc(m, key(last));
      assert Built(items, key, parentKey) == Pushed(Built(front, key, parentKey), key(last), parentKey(last));
      assert Built(front, key, parentKey).keys == FirstOccurrences(m);
      if Truthy(parentKey(last)) {
        FirstOccurrencesSnoc(m + [key(last)], parentKey(last).value);
        assert Mentions(items, key, parentKey) == m + [key(last)] + [parentKey(last).value];
        assert Built(items, key, parentKey).keys == Extended(Extended(FirstOccurrences(m), key(last)), parentKey(last).value);
      } else {
        assert Mentions(items, key, parentKey) == m + [key(last)];
      }
    }
  }

  /** Every name a record mentions is a node of the built tree. */
  lemma BuiltNodes<T>(items: seq<T>, key: T -> string, parentKey: T -> Option<string>)
    ensures forall x :: x in Built(items, key, parentKey).kids <==> x in Mentions(items, key, parentKey)
  {
    BuiltWellFormed(items, key, parentKey);
    BuiltKeys(items, key, parentKey);
    FirstOccurrencesMembers(Mentions(items, key, parentKey));
  }

  /** The records of `s` whose key is `k`, in order. */
  function WithKey<T>(s: seq<T>, key: T -> string, k: string): seq<T> {
    if s == [] then []
    else (if key(s[0]) == k then [s[0]] else []) + WithKey(s[1..], key, k)
  }

  /** The list without its first element, if it has one. */
  function DropFirst<T>(s: seq<T>): seq<T> {
    if s == [] then [] else s[1..]
  }

  /** The names of `order` that some record of `items` carries, in order. */
  function Present<T>(order: seq<string>, items: seq<T>, key: T -> string): seq<string> {
    if order == [] then []
    else
      var k := order[|order| - 1];
      Present(order[..|order| - 1], items, key) + (if KeyIndex(items, key, k).Some? then [k] else [])
  }

  lemma {:induction false} WithKeyAppend<T>(a: seq<T>, b: seq<T>, key: T -> string, k: string)
    ensures WithKey(a + b, key, k) == WithKey(a, key, k) + WithKey(b, key, k)
    decreases |a|
  {
    if a == [] {
      assert a + b == b;
    } else {
      assert (a + b)[0] == a[0] && (a + b)[1..] == a[1..] + b;
      WithKeyAppend(a[1..], b, key, k);
      var h := if key(a[0]) == k then [a[0]] else [];
      assert WithKey(a + b, key, k) == h + WithKey(a[1..] + b, key, k);
      assert WithKey(a, key, k) == h + WithKey(a[1..], key, k);
    }
  }

  lemma {:induction false} WithKeyMember<T>(s: seq<T>, key: T -> string, k: string, x: T)
    ensures x in WithKey(s, key, k) <==> x in s && key(x) == k
    decreases |s|
  {
    if s != [] {
      WithKeyMember(s[1..], key, k, x);
      assert s == [s[0]] + s[1..];
    }
  }

  /** The first record with key `k`, and what removing it does to every key's records. */
  lemma KeyIndexWithKey<T>(s: seq<T>, key: T -> string, k: string)
    ensures KeyIndex(s, key, k).None? <==> WithKey(s, key, k) == []
    ensures KeyIndex(s, key, k).Some? ==>
      var i := KeyIndex(s, key, k).value;
      && WithKey(s, key, k)[0] == s[i]
      && WithKey(s[..i] + s[i + 1..], key, k) == WithKey(s, key, k)[1..]
      && forall k' :: k' != k ==> WithKey(s[..i] + s[i + 1..], key, k') == WithKey(s, key, k')
  {
    match KeyIndex(s, key, k)
    case None =>
      if WithKey(s, key, k) != [] {
        WithKeyMember(s, key, k, WithKey(s, key, k)[0]);
        assert false;
      }
    case Some(i) =>
      WithKeyAround(s, key, i, k);
      if WithKey(s[..i], key, k) != [] {
        WithKeyMember(s[..i], key, k, WithKey(s[..i], key, k)[0]);
        assert false;
      }
      forall k' | k' != k
        ensures WithKey(s[..i] + s[i + 1..], key, k') == WithKey(s, key, k')
      {
        WithKeyAround(s, key, i, k');
      }
  }

  /** Every key's records, split around position `i`, with and without the record at `i`. */
  lemma WithKeyAround<T>(s: seq<T>, key: T -> string, i: nat, k: string)
    requires i < |s|
    ensures WithKey(s, key, k) == WithKey(s[..i], key, k) + (if key(s[i]) == k then [s[i]] else []) + WithKey(s[i + 1..], key, k)
    ensures WithKey(s[..i] + s[i + 1..], key, k) == WithKey(s[..i], key, k) + WithKey(s[i + 1..], key, k)
  {
    assert s == s[..i] + ([s[i]] + s[i + 1..]);
    WithKeyAppend(s[..i], [s[i]] + s[i + 1..], key, k);
    WithKeyAppend([s[i]], s[i + 1..], key, k);
    WithKeyAppend(s[..i], s[i + 1..], key, k);
    assert [s[i]][1..] == [];
  }

  /** Records are moved from `rest` to `taken`, never copied or lost. */
  lemma {:induction false} RearrangedMoves<T>(order: seq<string>, items: seq<T>, key: T -> string)
    ensures multiset(Rearranged(order, items, key).taken) + multiset(Rearranged(order, items, key).rest) == multiset(items)
    decreases |order|
  {
    if order != [] {
      var s := Rearranged(order[..|order| - 1], items, key);
      RearrangedMoves(order[..|order| - 1], items, key);
      match KeyIndex(s.rest, key, order[|order| - 1])
      case None =>
      case Some(i) =>
        MoveOne(s.taken, s.rest, i);
    }
  }

  /** Moving one record from the waiting list to the taken list keeps the records together. */
  lemma MoveOne<T>(taken: seq<T>, rest: seq<T>, i: nat)
    requires i < |rest|
    ensures multiset(taken + [rest[i]]) + multiset(rest[..i] + rest[i + 1..]) == multiset(taken) + multiset(rest)
  {
    assert rest == rest[..i] + [rest[i]] + rest[i + 1..];
  }

  /** The records still waiting: every key's records minus the first one, for the names passed. */
  ghost predicate RestSpec<T>(order: seq<string>, items: seq<T>, key: T -> string, rest: seq<T>) {
    forall k :: WithKey(rest, key, k) == if k in order then DropFirst(WithKey(items, key, k)) else WithKey(items, key, k)
  }

  /** The records taken: the first record of each passed name some record carries, in the order of the names. */
  ghost predicate TakenSpec<T>(order: seq<string>, items: seq<T>, key: T -> string, taken: seq<T>) {
    var names := Present(order, items, key);
    && |taken| == |names|
    && forall m :: 0 <= m < |taken| ==>
      key(taken[m]) == names[m] && WithKey(items, key, names[m]) != [] && taken[m] == WithKey(items, key, names[m])[0]
  }

  /**
   * Along an order without repeated names: the records still waiting are the original ones
   * minus the first record of every name already passed, and `taken` holds, for each passed
   * name that some record carries, the first such record, in the order of the names.
   */
  lemma {:induction false} RearrangedSpec<T>(order: seq<string>, items: seq<T>, key: T -> string)
    requires Distinct(order)
    ensures RestSpec(order, items, key, Rearranged(order, items, key).rest)
    ensures TakenSpec(order, items, key, Rearranged(order, items, key).taken)
    decreases |order|
  {
    if order != [] {
      var front := order[..|order| - 1];
      assert Distinct(front);
      RearrangedSpec(front, items, key);
      RestStep(order, items, key);
      TakenStep(order, items, key);
    }
  }

  lemma RestStep<T>(order: seq<string>, items: seq<T>, key: T -> string)
    requires order != [] && Distinct(order)
    requires RestSpec(order[..|order| - 1], items, key, Rearranged(order[..|order| - 1], items, key).rest)
    ensures RestSpec(order, items, key, Rearranged(order, items, key).rest)
  {
    var front := order[..|order| - 1];
    var k := order[|order| - 1];
    assert k !in front;
    var s := Rearranged(front, items, key);
    assert WithKey(s.rest, key, k) == WithKey(items, key, k);
    var r := Rearranged(order, items, key);
    forall k' ensures WithKey(r.rest, key, k') == if k' in order then DropFirst(WithKey(items, key, k')) else WithKey(items, key, k') {
      RestOne(order, items, key, k');
    }
  }

  /** One key's waiting records after one more name of the order. */
  lemma RestOne<T>(order: seq<string>, items: seq<T>, key: T -> string, k': string)
    requires order != [] && Distinct(order)
    requires var s := Rearranged(order[..|order| - 1], items, key);
      && WithKey(s.rest, key, k') == (if k' in order[..|order| - 1] then DropFirst(WithKey(items, key, k')) else WithKey(items, key, k'))
      && WithKey(s.rest, key, order[|order| - 1]) == WithKey(items, key, order[|order| - 1])
    ensures WithKey(Rearranged(order, items, key).rest, key, k') ==
      if k' in order then DropFirst(WithKey(items, key, k')) else WithKey(items, key, k')
  {
    var front := order[..|order| - 1];
    var k := order[|order| - 1];
    assert k !in front;
    var s := Rearranged(front, items, key);
    KeyIndexWithKey(s.rest, key, k);
    assert k' in order <==> k' in front || k' == k;
  }

  lemma TakenStep<T>(order: seq<string>, items: seq<T>, key: T -> string)
    requires order != [] && Distinct(order)
    requires RestSpec(order[..|order| - 1], items, key, Rearranged(order[..|order| - 1], items, key).rest)
    requires TakenSpec(order[..|order| - 1], items, key, Rearranged(order[..|order| - 1], items, key).taken)
    ensures TakenSpec(order, items, key, Rearranged(order, items, key).taken)
  {
    var front := order[..|order| - 1];
    var k := order[|order| - 1];
    assert k !in front;
    var s := Rearranged(front, items, key);
    var r := Rearranged(order, items, key);
    assert WithKey(s.rest, key, k) == WithKey(items, key, k);
    KeyIndexFirst(s.rest, key, k);
    KeyIndexFirst(items, key, k);
    var names := Present(front, items, key);
    assert Present(order, items, key) == names + (if KeyIndex(items, key, k).Some? then [k] else []);
    match KeyIndex(s.rest, key, k)
    case None =>
      assert r == s;
    case Some(i) =>
      assert r.taken == s.taken + [s.rest[i]];
      assert s.rest[i] == WithKey(items, key, k)[0];
  }

  /** The scan finds a key exactly when some record has it, and finds the first such record. */
  lemma KeyIndexFirst<T>(s: seq<T>, key: T -> string, k: string)
    ensures KeyIndex(s, key, k).None? <==> WithKey(s, key, k) == []
    ensures KeyIndex(s, key, k).Some? ==> WithKey(s, key, k) != [] && WithKey(s, key, k)[0] == s[KeyIndex(s, key, k).value]
  {
    KeyIndexWithKey(s, key, k);
  }

  lemma UniqueKeyRecords<T>(items: seq<T>, key: T -> string, x: T)
    requires DistinctKeys(items, key) && x in items
    ensures WithKey(items, key, key(x)) == [x]
    decreases |items|
  {
    if items[0] == x {
      if WithKey(items[1..], key, key(x)) != [] {
        var y := WithKey(items[1..], key, key(x))[0];
        WithKeyMember(items[1..], key, key(x), y);
        assert false;
      }
    } else {
      assert x in items[1..];
      assert DistinctKeys(items[1..], key) by {
        forall i, j | 0 <= i < j < |items[1..]| ensures key(items[1..][i]) != key(items[1..][j]) {
          assert items[1..][i] == items[i + 1] && items[1..][j] == items[j + 1];
        }
      }
      UniqueKeyRecords(items[1..], key, x);
      var j :| 0 <= j < |items[1..]| && items[1..][j] == x;
      assert items[j + 1] == x;
      assert key(items[0]) != key(x);
    }
  }

  /** Along an order naming every record, with one record per name, every record is taken. */
  lemma RearrangedPermutation<T>(order: seq<string>, items: seq<T>, key: T -> string)
    requires Distinct(order) && DistinctKeys(items, key)
    requires forall i :: 0 <= i < |items| ==> key(items[i]) in order
    ensures Rearranged(order, items, key).rest == []
    ensures multiset(Rearranged(order, items, key).taken) == multiset(items)
  {
    var s := Rearranged(order, items, key);
    RearrangedSpec(order, items, key);
    RearrangedMoves(order, items, key);
    if s.rest != [] {
      var x := s.rest[0];
      assert x in multiset(s.rest);
      assert x in multiset(items) by {
        assert multiset(items)[x] == multiset(s.taken)[x] + multiset(s.rest)[x];
      }
      assert x in items;
      var j :| 0 <= j < |items| && items[j] == x;
      assert key(x) in order;
      UniqueKeyRecords(items, key, x);
      WithKeyMember(s.rest, key, key(x), x);
      assert false;
    }
  }

  /** Names in order stay in order when the names without a record are dropped. */
  lemma {:induction false} PresentBefore<T>(order: seq<string>, items: seq<T>, key: T -> string, u: string, v: string)
    requires Before(order, u, v) && KeyIndex(items, key, u).Some? && KeyIndex(items, key, v).Some?
    ensures Before(Present(order, items, key), u, v)
    decreases |order|
  {
    var front := order[..|order| - 1];
    var k := order[|order| - 1];
    var i, j :| 0 <= i < j < |order| && order[i] == u && order[j] == v;
    var p := Present(front, items, key);
    if j < |order| - 1 {
      assert front[i] == u && front[j] == v;
      PresentBefore(front, items, key, u, v);
      var a, b :| 0 <= a < b < |p| && p[a] == u && p[b] == v;
      assert Present(order, items, key)[a] == u && Present(order, items, key)[b] == v;
    } else {
      assert front[i] == u;
      PresentMember(front, items, key, u);
      var a :| 0 <= a < |p| && p[a] == u;
      var q := Present(order, items, key);
      assert q == p + [v];
      assert q[a] == u && q[|p|] == v;
    }
  }

  lemma {:induction false} PresentMember<T>(order: seq<string>, items: seq<T>, key: T -> string, u: string)
    requires u in order && KeyIndex(items, key, u).Some?
    ensures u in Present(order, items, key)
    decreases |order|
  {
    var front := order[..|order| - 1];
    if order[|order| - 1] != u {
      assert u in front;
      PresentMember(front, items, key, u);
    }
  }

  /** The facts about the built tree that the ordering theorems share. */
  lemma BuiltForest<T>(items: seq<T>, key: T -> string, parentKey: T -> Option<string>)
    requires DistinctKeys(items, key) && Acyclic(Built(items, key, parentKey))
    ensures var t := Built(items, key, parentKey);
      && WellFormed(t) && Linked(t) && Rooted(t) && Distinct(Flatten(t))
      && forall i :: 0 <= i < |items| ==> key(items[i]) in Flatten(t)
  {
    var t := Built(items, key, parentKey);
    BuiltWellFormed(items, key, parentKey);
    BuiltLinked(items, key, parentKey);
    BuiltNodes(items, key, parentKey);
    AcyclicRooted(t);
    FlattenMembers(t);
    FlattenDistinct(t);
    forall i | 0 <= i < |items|
      ensures key(items[i]) in Flatten(t)
    {
      MentionedKey(items, key, parentKey, i);
    }
  }

  /** With one record per name and no cycle of parents, `SortModels` returns a permutation of its input. */
  lemma SortedPermutation<T>(items: seq<T>, key: T -> string, parentKey: T -> Option<string>)
    requires DistinctKeys(items, key) && Acyclic(Built(items, key, parentKey))
    ensures multiset(Rearranged(Flatten(Built(items, key, parentKey)), items, key).taken) == multiset(items)
  {
    BuiltForest(items, key, parentKey);
    RearrangedPermutation(Flatten(Built(items, key, parentKey)), items, key);
  }

  /** The record of a parent comes before the record of its child. */
  lemma ParentRecordFirst<T>(items: seq<T>, key: T -> string, parentKey: T -> Option<string>, a: nat, b: nat)
    requires DistinctKeys(items, key) && Acyclic(Built(items, key, parentKey))
    requires a < |items| && b < |items| && LinksUp(items[a], key, parentKey)
    requires parentKey(items[a]).value == key(items[b])
    ensures Before(Rearranged(Flatten(Built(items, key, parentKey)), items, key).taken, items[b], items[a])
  {
    var t := Built(items, key, parentKey);
    var f := Flatten(t);
    BuiltForest(items, key, parentKey);
    BuiltParents(items, key, parentKey);
    FlattenParentsFirst(t);
    var ix :| 0 <= ix < |f| && f[ix] == key(items[a]);
    assert ParentEarlier(f, t.par, ix);
    var iy :| 0 <= iy < ix && f[iy] == t.par[f[ix]];
    OrderedRecords(f, items, key, b, a);
  }

  /** Records pushed under the same parent keep their relative order. */
  lemma SiblingRecordsInOrder<T>(items: seq<T>, key: T -> string, parentKey: T -> Option<string>, a: nat, b: nat)
    requires DistinctKeys(items, key) && Acyclic(Built(items, key, parentKey))
    requires a < b < |items| && LinksUp(items[a], key, parentKey) && LinksUp(items[b], key, parentKey)
    requires parentKey(items[a]) == parentKey(items[b])
    ensures Before(Rearranged(Flatten(Built(items, key, parentKey)), items, key).taken, items[a], items[b])
  {
    var t := Built(items, key, parentKey);
    var p := parentKey(items[a]).value;
    BuiltForest(items, key, parentKey);
    BuiltParents(items, key, parentKey);
    ChildIndices(items, key, parentKey, p, a, b);
    BuiltChildren(items, key, parentKey);
    var c := ChildNames(items, key, parentKey, p);
    var k1, k2 :| 0 <= k1 < k2 < |c| && c[k1] == key(items[a]) && c[k2] == key(items[b]);
    assert p in t.kids by {
      assert t.par[key(items[a])] == p;
    }
    assert t.kids[p] == c && HasRoot(t.par, p);
    SiblingOrder(t, p, k1, k2);
    assert Before(Flatten(t), key(items[a]), key(items[b]));
    OrderedRecords(Flatten(t), items, key, a, b);
  }

  /**
   * `SortModels` with one record per name and no cycle of parents: the result is a
   * permutation of the records, every record comes after the record of its parent, and
   * records pushed under the same parent keep their relative order.
   */
  lemma SortedByHierarchy<T>(items: seq<T>, key: T -> string, parentKey: T -> Option<string>)
    requires DistinctKeys(items, key) && Acyclic(Built(items, key, parentKey))
    ensures var sorted := Rearranged(Flatten(Built(items, key, parentKey)), items, key).taken;
      && multiset(sorted) == multiset(items)
      && (forall a, b ::
            (0 <= a < |items| && 0 <= b < |items| && LinksUp(items[a], key, parentKey)
             && parentKey(items[a]).value == key(items[b])) ==> Before(sorted, items[b], items[a]))
      && (forall a, b ::
            (0 <= a < b < |items| && LinksUp(items[a], key, parentKey) && LinksUp(items[b], key, parentKey)
             && parentKey(items[a]) == parentKey(items[b])) ==> Before(sorted, items[a], items[b]))
  {
    var sorted := Rearranged(Flatten(Built(items, key, parentKey)), items, key).taken;
    SortedPermutation(items, key, parentKey);
    forall a, b | 0 <= a < |items| && 0 <= b < |items| && LinksUp(items[a], key, parentKey)
        && parentKey(items[a]).value == key(items[b])
      ensures Before(sorted, items[b], items[a])
    {
      ParentRecordFirst(items, key, parentKey, a, b);
    }
    forall a, b | 0 <= a < b < |items| && LinksUp(items[a], key, parentKey) && LinksUp(items[b], key, parentKey)
        && parentKey(items[a]) == parentKey(items[b])
      ensures Before(sorted, items[a], items[b])
    {
      SiblingRecordsInOrder(items, key, parentKey, a, b);
    }
  }

  /** Every record's name is a node of the built tree. */
  lemma MentionedKey<T>(items: seq<T>, key: T -> string, parentKey: T -> Option<string>, i: nat)
    requires i < |items|
    ensures key(items[i]) in Mentions(items, key, parentKey)
    decreases |items|
  {
    var front := items[..|items| - 1];
    if i < |items| - 1 {
      assert items[i] == front[i];
      MentionedKey(front, key, parentKey, i);
    }
  }

  /** Two records named in that order by `order` are taken in that order. */
  lemma OrderedRecords<T>(order: seq<string>, items: seq<T>, key: T -> string, a: nat, b: nat)
    requires Distinct(order) && DistinctKeys(items, key) && a < |items| && b < |items|
    requires Before(order, key(items[a]), key(items[b]))
    ensures Before(Rearranged(order, items, key).taken, items[a], items[b])
  {
    var s := Rearranged(order, items, key);
    HasKeyIndex(items, key, items[a]);
    HasKeyIndex(items, key, items[b]);
    PresentBefore(order, items, key, key(items[a]), key(items[b]));
    var names := Present(order, items, key);
    var m1, m2 :| 0 <= m1 < m2 < |names| && names[m1] == key(items[a]) && names[m2] == key(items[b]);
    TakenAt(order, items, key, m1);
    TakenAt(order, items, key, m2);
    assert s.taken[m1] == items[a] && s.taken[m2] == items[b];
  }

  /** With one record per name, a record is the only one of its name, and the scan finds its name. */
  lemma HasKeyIndex<T>(items: seq<T>, key: T -> string, x: T)
    requires DistinctKeys(items, key) && x in items
    ensures WithKey(items, key, key(x)) == [x] && KeyIndex(items, key, key(x)).Some?
  {
    UniqueKeyRecords(items, key, x);
    KeyIndexWithKey(items, key, key(x));
  }

  /** The record taken for the `m`-th present name is the first record of that name. */
  lemma TakenAt<T>(order: seq<string>, items: seq<T>, key: T -> string, m: nat)
    requires Distinct(order) && m < |Present(order, items, key)|
    ensures |Rearranged(order, items, key).taken| == |Present(order, items, key)|
    ensures WithKey(items, key, Present(order, items, key)[m]) != []
      && Rearranged(order, items, key).taken[m] == WithKey(items, key, Present(order, items, key)[m])[0]
  {
    RearrangedSpec(order, items, key);
  }

  /** Records pushed under `p` appear among its child names in push order. */
  lemma {:induction false} ChildIndices<T>(items: seq<T>, key: T -> string, parentKey: T -> Option<string>, p: string, a: nat, b: nat)
    requires a < b < |items| && LinksUp(items[a], key, parentKey) && LinksUp(items[b], key, parentKey)
    requires parentKey(items[a]) == Some(p) && parentKey(items[b]) == Some(p)
    ensures Before(ChildNames(items, key, parentKey, p), key(items[a]), key(items[b]))
    decreases |items|
  {
    var front := items[..|items| - 1];
    var c := ChildNames(front, key, parentKey, p);
    if b < |items| - 1 {
      assert items[a] == front[a] && items[b] == front[b];
      ChildIndices(front, key, parentKey, p, a, b);
      var x, y :| 0 <= x < y < |c| && c[x] == key(items[a]) && c[y] == key(items[b]);
      assert ChildNames(items, key, parentKey, p)[x] == c[x] && ChildNames(items, key, parentKey, p)[y] == c[y];
    } else {
      assert items[a] == front[a];
      ChildMember(front, key, parentKey, p, a);
      var x :| 0 <= x < |c| && c[x] == key(items[a]);
      var full := ChildNames(items, key, parentKey, p);
      assert full == c + [key(items[b])];
      assert full[x] == key(items[a]) && full[|c|] == key(items[b]);
    }
  }

  lemma {:induction false} ChildMember<T>(items: seq<T>, key: T -> string, parentKey: T -> Option<string>, p: string, a: nat)
    requires a < |items| && LinksUp(items[a], key, parentKey) && parentKey(items[a]) == Some(p)
    ensures key(items[a]) in ChildNames(items, key, parentKey, p)
    decreases |items|
  {
    var front := items[..|items| - 1];
    if a < |items| - 1 {
      assert items[a] == front[a];
      ChildMember(front, key, parentKey, p, a);
    }
  }
}
