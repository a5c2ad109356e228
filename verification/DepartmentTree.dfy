/**
  The department page rebuilds a forest from whatever nesting the server sent: it flattens the units,
  links them by parent id, sorts siblings and writes display paths. Parent links may be missing or
  run in circles.
*/
module DepartmentTree {
  import opened Wrappers

  datatype Raw = Raw(id: string, name: string, parent: Option<string>, sortOrder: int, children: seq<Raw>)

  datatype Unit = Unit(id: string, name: string, parent: Option<string>, sortOrder: int)

  /** A node of the result; `path` is its display path. */
  datatype Tree = Node(unit: Unit, path: seq<string>, children: seq<Tree>)

  // Flattening

  function FlattenUnits(units: seq<Raw>): seq<Raw> {
    if units == [] then [] else [units[0]] + FlattenUnits(units[0].children) + FlattenUnits(units[1..])
  }

  /** Each unit is followed by what is nested in it, at every depth, and then by the units after it. */
  lemma {:induction false} FlattenUnitsParts(a: seq<Raw>, b: seq<Raw>, u: Raw)
    ensures FlattenUnits(a + b) == FlattenUnits(a) + FlattenUnits(b)
    ensures FlattenUnits([u]) == [u] + FlattenUnits(u.children)
    decreases |a|
  {
    if a == [] {
      assert a + b == b;
    } else {
      assert (a + b)[1..] == a[1..] + b;
      FlattenUnitsParts(a[1..], b, u);
    }
    assert [u][1..] == [] && FlattenUnits([]) == [];
  }

  function ToUnit(raw: Raw): Unit {
    Unit(raw.id, raw.name, raw.parent, raw.sortOrder)
  }

  /** `Map.set`: a known id keeps its place and takes the new value. */
  function Put(nodes: seq<Unit>, u: Unit): seq<Unit> {
    if nodes == [] then [u]
    else if nodes[0].id == u.id then [u] + nodes[1..]
    else [nodes[0]] + Put(nodes[1..], u)
  }

  function Nodes(raws: seq<Raw>, n: nat): seq<Unit>
    requires n <= |raws|
  {
    if n == 0 then [] else Put(Nodes(raws, n - 1), ToUnit(raws[n - 1]))
  }

  predicate DistinctIds(nodes: seq<Unit>) {
    forall i, j :: 0 <= i < j < |nodes| ==> nodes[i].id != nodes[j].id
  }

  lemma {:induction false} PutKeepsDistinct(nodes: seq<Unit>, u: Unit)
    requires DistinctIds(nodes)
    ensures DistinctIds(Put(nodes, u))
    ensures forall x :: x in Put(nodes, u) ==> x == u || (x in nodes && x.id != u.id)
  {
    if nodes != [] {
      if nodes[0].id == u.id {
        assert forall x :: x in nodes[1..] ==> x.id != u.id;
      } else {
        PutKeepsDistinct(nodes[1..], u);
        assert forall x :: x in nodes[1..] ==> x.id != nodes[0].id;
      }
    }
  }

  lemma {:induction false} NodesAreDistinct(raws: seq<Raw>, n: nat)
    requires n <= |raws|
    ensures DistinctIds(Nodes(raws, n))
  {
    if n > 0 {
      NodesAreDistinct(raws, n - 1);
      PutKeepsDistinct(Nodes(raws, n - 1), ToUnit(raws[n - 1]));
    }
  }

  /** With distinct ids the map holds the flattened units as they came. */
  lemma {:induction false} NodesOfDistinct(raws: seq<Raw>, n: nat)
    requires n <= |raws| && forall i, j :: 0 <= i < j < |raws| ==> raws[i].id != raws[j].id
    ensures Nodes(raws, n) == seq(n, i requires 0 <= i < n => ToUnit(raws[i]))
  {
    if n > 0 {
      NodesOfDistinct(raws, n - 1);
      PutNew(Nodes(raws, n - 1), ToUnit(raws[n - 1]));
    }
  }

  /** The unit comes at place k, and none of the others up to n that come later has its id. */
  predicate LastWith(raws: seq<Raw>, n: nat, u: Unit, k: nat)
    requires k < n <= |raws|
  {
    && raws[k].id == u.id && raws[k].name == u.name && raws[k].parent == u.parent && raws[k].sortOrder == u.sortOrder
    && forall l :: k < l < n ==> raws[l].id != u.id
  }

  /** The map holds, for each id, the last unit that came with it; a known id keeps its place. */
  lemma {:induction false} NodesHold(raws: seq<Raw>, n: nat, u: Unit)
    requires n <= |raws|
    ensures u in Nodes(raws, n) <==> IsLast(raws, n, u)
  {
    if n > 0 {
      NodesHold(raws, n - 1, u);
      NodesAreDistinct(raws, n - 1);
      PutMembers(Nodes(raws, n - 1), ToUnit(raws[n - 1]), u);
      LastWithOneMore(raws, n, u);
    }
  }

  predicate IsLast(raws: seq<Raw>, n: nat, u: Unit)
    requires n <= |raws|
  {
    exists k :: 0 <= k < n && LastWith(raws, n, u, k)
  }

  lemma {:induction false} LastWithOneMore(raws: seq<Raw>, n: nat, u: Unit)
    requires 0 < n <= |raws|
    ensures IsLast(raws, n, u) <==> u == ToUnit(raws[n - 1]) || (raws[n - 1].id != u.id && IsLast(raws, n - 1, u))
  {
    var m := n - 1;
    if k :| 0 <= k < n && LastWith(raws, n, u, k) {
      if k < m {
        assert LastWith(raws, m, u, k) && raws[m].id != u.id;
      }
    }
    if k :| 0 <= k < m && LastWith(raws, m, u, k) {
      if raws[m].id != u.id {
        assert LastWith(raws, n, u, k);
      }
    }
    if u == ToUnit(raws[m]) {
      assert LastWith(raws, n, u, m);
    }
  }

  lemma {:induction false} PutMembers(nodes: seq<Unit>, u: Unit, x: Unit)
    requires DistinctIds(nodes)
    ensures x in Put(nodes, u) <==> x == u || (x in nodes && x.id != u.id)
  {
    if nodes != [] {
      if nodes[0].id == u.id {
        assert forall y :: y in nodes[1..] ==> y.id != u.id;
      } else {
        PutMembers(nodes[1..], u, x);
      }
    }
  }

  function IdsOf(nodes: seq<Unit>): seq<string> {
    seq(|nodes|, i requires 0 <= i < |nodes| => nodes[i].id)
  }

  lemma {:induction false} PutKeepsOrder(nodes: seq<Unit>, u: Unit)
    ensures IdsOf(Put(nodes, u)) == if u.id in IdsOf(nodes) then IdsOf(nodes) else IdsOf(nodes) + [u.id]
  {
    if nodes != [] {
      assert IdsOf(nodes) == [nodes[0].id] + IdsOf(nodes[1..]);
      if nodes[0].id == u.id {
        assert IdsOf(Put(nodes, u)) == [u.id] + IdsOf(nodes[1..]);
      } else {
        PutKeepsOrder(nodes[1..], u);
        assert IdsOf(Put(nodes, u)) == [nodes[0].id] + IdsOf(Put(nodes[1..], u));
      }
    }
  }

  lemma {:induction false} PutNew(nodes: seq<Unit>, u: Unit)
    requires forall i :: 0 <= i < |nodes| ==> nodes[i].id != u.id
    ensures Put(nodes, u) == nodes + [u]
  {
    if nodes != [] {
      PutNew(nodes[1..], u);
    }
  }

  // Links

  /** An empty parent id counts as none. */
  predicate ChildOf(p: Unit, u: Unit) {
    u.parent == Some(p.id) && p.id != ""
  }

  predicate IsRoot(nodes: seq<Unit>, u: Unit) {
    forall p :: p in nodes ==> !ChildOf(p, u)
  }

  function ChildTest(p: Unit): Unit -> bool {
    u => ChildOf(p, u)
  }

  function RootTest(nodes: seq<Unit>): Unit -> bool {
    u => IsRoot(nodes, u)
  }

  function Children(nodes: seq<Unit>, p: Unit): seq<Unit> {
    Select(nodes, |nodes|, ChildTest(p))
  }

  function Roots(nodes: seq<Unit>): seq<Unit> {
    Select(nodes, |nodes|, RootTest(nodes))
  }

  function Select(nodes: seq<Unit>, n: nat, keep: Unit -> bool): seq<Unit>
    requires n <= |nodes|
  {
    if n == 0 then [] else Select(nodes, n - 1, keep) + if keep(nodes[n - 1]) then [nodes[n - 1]] else []
  }

  lemma {:induction false} SelectHolds(nodes: seq<Unit>, n: nat, keep: Unit -> bool)
    requires n <= |nodes| && DistinctIds(nodes)
    ensures forall u :: u in Select(nodes, n, keep) <==> u in nodes[..n] && keep(u)
    ensures DistinctIds(Select(nodes, n, keep))
  {
    if n > 0 {
      SelectHolds(nodes, n - 1, keep);
      assert nodes[..n] == nodes[..n - 1] + [nodes[n - 1]];
      var before, r := Select(nodes, n - 1, keep), Select(nodes, n, keep);
      forall i | 0 <= i < |before| ensures before[i].id != nodes[n - 1].id {
        assert before[i] in nodes[..n - 1];
      }
    }
  }

  // Sorting

  /** `compare` stands for the locale's comparison of names. */
  predicate Le(compare: (string, string) -> int, a: Unit, b: Unit) {
    a.sortOrder < b.sortOrder || (a.sortOrder == b.sortOrder && compare(a.name, b.name) <= 0)
  }

  ghost predicate Collates(compare: (string, string) -> int) {
    && (forall a, b :: compare(a, b) <= 0 || compare(b, a) <= 0)
    && (forall a, b, c :: compare(a, b) <= 0 && compare(b, c) <= 0 ==> compare(a, c) <= 0)
  }

  function Insert(compare: (string, string) -> int, u: Unit, sorted: seq<Unit>): seq<Unit> {
    if sorted == [] || Le(compare, u, sorted[0]) then [u] + sorted else [sorted[0]] + Insert(compare, u, sorted[1..])
  }

  function Sorted(compare: (string, string) -> int, us: seq<Unit>): seq<Unit> {
    if us == [] then [] else Insert(compare, us[0], Sorted(compare, us[1..]))
  }

  lemma {:induction false} InsertAdds(compare: (string, string) -> int, u: Unit, sorted: seq<Unit>)
    ensures multiset(Insert(compare, u, sorted)) == multiset(sorted) + multiset{u}
  {
    if sorted != [] {
      assert sorted == [sorted[0]] + sorted[1..];
      InsertAdds(compare, u, sorted[1..]);
    }
  }

  lemma {:induction false} SortedPermutes(compare: (string, string) -> int, us: seq<Unit>)
    ensures multiset(Sorted(compare, us)) == multiset(us)
  {
    if us != [] {
      assert us == [us[0]] + us[1..];
      SortedPermutes(compare, us[1..]);
      InsertAdds(compare, us[0], Sorted(compare, us[1..]));
    }
  }

  ghost predicate InOrder(compare: (string, string) -> int, us: seq<Unit>) {
    forall i, j :: 0 <= i < j < |us| ==> Le(compare, us[i], us[j])
  }

  lemma {:induction false} InsertKeepsOrder(compare: (string, string) -> int, u: Unit, sorted: seq<Unit>)
    requires Collates(compare) && InOrder(compare, sorted)
    ensures InOrder(compare, Insert(compare, u, sorted))
    ensures forall x :: x in Insert(compare, u, sorted) ==> x == u || x in sorted
  {
    if sorted != [] {
      var rest := sorted[1..];
      if Le(compare, u, sorted[0]) {
        assert forall i :: 0 < i < |sorted| ==> Le(compare, sorted[0], sorted[i]);
      } else {
        InsertKeepsOrder(compare, u, rest);
        assert forall x :: x in rest ==> Le(compare, sorted[0], x);
      }
    }
  }

  lemma {:induction false} SortedIsInOrder(compare: (string, string) -> int, us: seq<Unit>)
    requires Collates(compare)
    ensures InOrder(compare, Sorted(compare, us))
  {
    if us != [] {
      SortedIsInOrder(compare, us[1..]);
      InsertKeepsOrder(compare, us[0], Sorted(compare, us[1..]));
    }
  }

  /** Sorting keeps the members and their distinct ids. */
  lemma {:induction false} SortedKeeps(compare: (string, string) -> int, us: seq<Unit>)
    requires DistinctIds(us)
    ensures forall u :: u in Sorted(compare, us) <==> u in us
    ensures DistinctIds(Sorted(compare, us))
  {
    if us != [] {
      SortedKeeps(compare, us[1..]);
      InsertKeeps(compare, us[0], Sorted(compare, us[1..]));
    }
  }

  lemma {:induction false} InsertKeeps(compare: (string, string) -> int, u: Unit, sorted: seq<Unit>)
    requires DistinctIds(sorted) && forall x :: x in sorted ==> x.id != u.id
    ensures forall x :: x in Insert(compare, u, sorted) <==> x == u || x in sorted
    ensures DistinctIds(Insert(compare, u, sorted))
  {
    if sorted != [] && !Le(compare, u, sorted[0]) {
      assert forall x :: x in sorted[1..] ==> x.id != sorted[0].id;
      InsertKeeps(compare, u, sorted[1..]);
    }
  }

  // Chains

  /** From a root down, each unit the parent of the next. */
  ghost predicate Chain(nodes: seq<Unit>, c: seq<Unit>) {
    && c != [] && (forall i :: 0 <= i < |c| ==> c[i] in nodes)
    && IsRoot(nodes, c[0])
    && forall i :: 0 < i < |c| ==> ChildOf(c[i - 1], c[i])
  }

  lemma {:induction false} SameId(nodes: seq<Unit>, u: Unit, v: Unit)
    requires DistinctIds(nodes) && u in nodes && v in nodes && u.id == v.id
    ensures u == v
  {
  }

  lemma {:induction false} LastIsRootIff(nodes: seq<Unit>, c: seq<Unit>)
    requires Chain(nodes, c)
    ensures IsRoot(nodes, c[|c| - 1]) <==> |c| == 1
  {
    if |c| > 1 {
      assert ChildOf(c[|c| - 2], c[|c| - 1]);
    }
  }

  lemma {:induction false} ChainIsUnique(nodes: seq<Unit>, c: seq<Unit>, d: seq<Unit>)
    requires DistinctIds(nodes) && Chain(nodes, c) && Chain(nodes, d) && c[|c| - 1] == d[|d| - 1]
    ensures c == d
    decreases |c|
  {
    LastIsRootIff(nodes, c);
    LastIsRootIff(nodes, d);
    if |c| > 1 {
      SameId(nodes, c[|c| - 2], d[|d| - 2]);
      ChainIsUnique(nodes, c[..|c| - 1], d[..|d| - 1]);
      assert c == c[..|c| - 1] + [c[|c| - 1]] && d == d[..|d| - 1] + [d[|d| - 1]];
    }
  }

  lemma {:induction false} ChainIsDistinct(nodes: seq<Unit>, c: seq<Unit>)
    requires DistinctIds(nodes) && Chain(nodes, c)
    ensures DistinctIds(c)
  {
    forall i, j | 0 <= i < j < |c| ensures c[i].id != c[j].id {
      if c[i].id == c[j].id {
        SameId(nodes, c[i], c[j]);
        ChainIsUnique(nodes, c[..i + 1], c[..j + 1]);
        assert false;
      }
    }
  }

  lemma {:induction false} Pigeonhole(nodes: seq<Unit>, c: seq<Unit>)
    requires DistinctIds(c) && forall u :: u in c ==> u in nodes
    ensures |c| <= |nodes|
    decreases |c|
  {
    if c != [] {
      var last := c[|c| - 1];
      assert last in c;
      var i :| 0 <= i < |nodes| && nodes[i] == last;
      var rest := nodes[..i] + nodes[i + 1..];
      forall u | u in c[..|c| - 1] ensures u in rest {
        assert u in c;
        var k :| 0 <= k < |nodes| && nodes[k] == u;
        assert u.id != last.id;
        assert if k < i then rest[k] == u else rest[k - 1] == u;
      }
      Pigeonhole(rest, c[..|c| - 1]);
    }
  }

  lemma {:induction false} ChainIsBounded(nodes: seq<Unit>, c: seq<Unit>)
    requires DistinctIds(nodes) && Chain(nodes, c)
    ensures |c| <= |nodes|
  {
    ChainIsDistinct(nodes, c);
    Pigeonhole(nodes, c);
  }

  // The forest

  /** Every unit extends the trail to a chain. */
  ghost predicate Extend(nodes: seq<Unit>, trail: seq<Unit>, us: seq<Unit>) {
    forall i :: 0 <= i < |us| ==> Chain(nodes, trail + [us[i]])
  }

  lemma {:induction false} ChildrenExtend(compare: (string, string) -> int, nodes: seq<Unit>, trail: seq<Unit>)
    requires DistinctIds(nodes) && Chain(nodes, trail)
    ensures Extend(nodes, trail, SortedChildren(compare, nodes, trail[|trail| - 1]))
  {
    var last := trail[|trail| - 1];
    var us := SortedChildren(compare, nodes, last);
    ChildrenHold(compare, nodes, last);
    forall i | 0 <= i < |us| ensures Chain(nodes, trail + [us[i]]) {
      assert us[i] in us;
      var c := trail + [us[i]];
      assert forall k :: 0 <= k < |trail| ==> c[k] == trail[k];
    }
  }

  function SortedChildren(compare: (string, string) -> int, nodes: seq<Unit>, p: Unit): seq<Unit> {
    Sorted(compare, Children(nodes, p))
  }

  lemma {:induction false} ChildrenHold(compare: (string, string) -> int, nodes: seq<Unit>, p: Unit)
    requires DistinctIds(nodes)
    ensures forall u :: u in SortedChildren(compare, nodes, p) <==> u in nodes && ChildOf(p, u)
    ensures DistinctIds(SortedChildren(compare, nodes, p))
  {
    SelectHolds(nodes, |nodes|, ChildTest(p));
    assert nodes[..|nodes|] == nodes;
    SortedKeeps(compare, Children(nodes, p));
  }

  lemma {:induction false} RootsHold(compare: (string, string) -> int, nodes: seq<Unit>)
    requires DistinctIds(nodes)
    ensures forall u :: u in Sorted(compare, Roots(nodes)) <==> u in nodes && IsRoot(nodes, u)
    ensures DistinctIds(Sorted(compare, Roots(nodes))) && Extend(nodes, [], Sorted(compare, Roots(nodes)))
  {
    SelectHolds(nodes, |nodes|, RootTest(nodes));
    assert nodes[..|nodes|] == nodes;
    SortedKeeps(compare, Roots(nodes));
    var us := Sorted(compare, Roots(nodes));
    forall i | 0 <= i < |us| ensures Chain(nodes, [] + [us[i]]) {
      assert us[i] in us;
    }
  }

  /** `applyDisplayPath` on siblings; the recursion ends because the trail is a chain, circles or not. */
  function Grow(compare: (string, string) -> int, nodes: seq<Unit>, trail: seq<Unit>, us: seq<Unit>,
                parentPath: seq<string>)
    : seq<Tree>
    requires DistinctIds(nodes) && Extend(nodes, trail, us)
    decreases |nodes| - |trail|, |us|
  {
    if us == [] then []
    else
      var here, path := trail + [us[0]], parentPath + [us[0].name];
      ChainIsBounded(nodes, here);
      ChildrenExtend(compare, nodes, here);
      [Node(us[0], path, Grow(compare, nodes, here, SortedChildren(compare, nodes, us[0]), path))]
      + Grow(compare, nodes, trail, us[1..], parentPath)
  }

  /** `normalizeTree` after the map is filled. */
  function Forest(compare: (string, string) -> int, nodes: seq<Unit>): seq<Tree>
    requires DistinctIds(nodes)
  {
    RootsHold(compare, nodes);
    Grow(compare, nodes, [], Sorted(compare, Roots(nodes)), [])
  }

  // What the forest holds

  /** The nodes of a forest, each before its children. */
  function Flatten(ts: seq<Tree>): seq<Tree> {
    if ts == [] then [] else [ts[0]] + Flatten(ts[0].children) + Flatten(ts[1..])
  }

  function Tops(ts: seq<Tree>): seq<Unit> {
    seq(|ts|, i requires 0 <= i < |ts| => ts[i].unit)
  }

  function Names(c: seq<Unit>): seq<string> {
    seq(|c|, i requires 0 <= i < |c| => c[i].name)
  }

  /** A node sits where its chain says, below a unit of `us`, with the chain's names and its own children. */
  ghost predicate SitsAt(compare: (string, string) -> int, nodes: seq<Unit>, trail: seq<Unit>, us: seq<Unit>, t: Tree,
                         c: seq<Unit>) {
    && Chain(nodes, c) && |c| > |trail| && c[..|trail|] == trail && c[|trail|] in us
    && c[|c| - 1] == t.unit && t.path == Names(c)
    && Tops(t.children) == SortedChildren(compare, nodes, t.unit)
  }

  lemma {:induction false} GrowTops(compare: (string, string) -> int, nodes: seq<Unit>, trail: seq<Unit>, us: seq<Unit>,
                                    path: seq<string>)
    requires DistinctIds(nodes) && Extend(nodes, trail, us)
    ensures Tops(Grow(compare, nodes, trail, us, path)) == us
    decreases |us|
  {
    if us != [] {
      GrowTops(compare, nodes, trail, us[1..], path);
      var g := Grow(compare, nodes, trail, us, path);
      assert g[1..] == Grow(compare, nodes, trail, us[1..], path);
      assert Tops(g) == [g[0].unit] + Tops(g[1..]);
    }
  }

  /** The first tree that `Grow` makes. */
  function First(compare: (string, string) -> int, nodes: seq<Unit>, trail: seq<Unit>, us: seq<Unit>, path: seq<string>)
    : Tree
    requires DistinctIds(nodes) && Extend(nodes, trail, us) && us != []
  {
    Grow(compare, nodes, trail, us, path)[0]
  }

  /** `Grow` taken apart: its first tree and the rest, flattened. */
  lemma {:induction false} FlattenGrow(compare: (string, string) -> int, nodes: seq<Unit>, trail: seq<Unit>,
                                       us: seq<Unit>, path: seq<string>)
    requires DistinctIds(nodes) && Extend(nodes, trail, us) && us != []
    ensures var first := First(compare, nodes, trail, us, path);
            && Chain(nodes, trail + [us[0]]) && |trail| < |nodes|
            && Extend(nodes, trail + [us[0]], SortedChildren(compare, nodes, us[0]))
            && first.unit == us[0] && first.path == path + [us[0].name]
            && first.children == Grow(compare, nodes, trail + [us[0]], SortedChildren(compare, nodes, us[0]),
                                      path + [us[0].name])
            && Flatten(Grow(compare, nodes, trail, us, path))
               == [first] + Flatten(first.children) + Flatten(Grow(compare, nodes, trail, us[1..], path))
  {
    ChainIsBounded(nodes, trail + [us[0]]);
    ChildrenExtend(compare, nodes, trail + [us[0]]);
    var g := Grow(compare, nodes, trail, us, path);
    assert g[1..] == Grow(compare, nodes, trail, us[1..], path);
  }

  lemma {:induction false} FindChain(compare: (string, string) -> int, nodes: seq<Unit>, trail: seq<Unit>,
                                     us: seq<Unit>, path: seq<string>, t: Tree)
    returns (c: seq<Unit>)
    requires DistinctIds(nodes) && Extend(nodes, trail, us) && path == Names(trail)
    requires t in Flatten(Grow(compare, nodes, trail, us, path))
    ensures SitsAt(compare, nodes, trail, us, t, c)
    decreases |nodes| - |trail|, |us|
  {
    FlattenGrow(compare, nodes, trail, us, path);
    var first, here := First(compare, nodes, trail, us, path), trail + [us[0]];
    var below := SortedChildren(compare, nodes, us[0]);
    assert Names(here) == path + [us[0].name];
    if t == first {
      c := here;
      GrowTops(compare, nodes, here, below, Names(here));
    } else if t in Flatten(first.children) {
      c := FindChain(compare, nodes, here, below, Names(here), t);
      assert c[..|trail|] == here[..|trail|] == trail && c[|trail|] == here[|trail|];
    } else {
      c := FindChain(compare, nodes, trail, us[1..], path, t);
    }
  }

  predicate Holds(ts: seq<Tree>, u: Unit) {
    exists t :: t in ts && t.unit == u
  }

  predicate Places(ts: seq<Tree>, u: Unit) {
    Holds(Flatten(ts), u)
  }

  lemma {:induction false} HoldsInThree(first: Tree, inner: seq<Tree>, rest: seq<Tree>, u: Unit)
    requires first.unit == u || Holds(inner, u) || Holds(rest, u)
    ensures Holds([first] + inner + rest, u)
  {
    var whole := [first] + inner + rest;
    if first.unit == u {
      assert whole[0] == first;
    } else if Holds(inner, u) {
      var t :| t in inner && t.unit == u;
      assert t in whole;
    } else {
      var t :| t in rest && t.unit == u;
      assert t in whole;
    }
  }

  lemma {:induction false} ChainIsPlaced(compare: (string, string) -> int, nodes: seq<Unit>, trail: seq<Unit>,
                                         us: seq<Unit>, path: seq<string>, c: seq<Unit>, whole: seq<Tree>)
    requires DistinctIds(nodes) && Extend(nodes, trail, us) && whole == Flatten(Grow(compare, nodes, trail, us, path))
    requires Chain(nodes, c) && |c| > |trail| && c[..|trail|] == trail && c[|trail|] in us
    ensures Holds(whole, c[|c| - 1])
    decreases |nodes| - |trail|, |us|
  {
    FlattenGrow(compare, nodes, trail, us, path);
    var first := First(compare, nodes, trail, us, path);
    var inner, rest := Flatten(first.children), Flatten(Grow(compare, nodes, trail, us[1..], path));
    if c[|trail|] != us[0] {
      ChainIsPlaced(compare, nodes, trail, us[1..], path, c, rest);
    } else if |c| > |trail| + 1 {
      var here := trail + [us[0]];
      NextOnChain(compare, nodes, here, c);
      ChainIsPlaced(compare, nodes, here, SortedChildren(compare, nodes, us[0]), path + [us[0].name], c, inner);
    }
    HoldsInThree(first, inner, rest, c[|c| - 1]);
  }

  lemma {:induction false} NextOnChain(compare: (string, string) -> int, nodes: seq<Unit>, here: seq<Unit>,
                                       c: seq<Unit>)
    requires DistinctIds(nodes) && Chain(nodes, c) && here != [] && |c| > |here|
    requires c[..|here| - 1] + [c[|here| - 1]] == here
    ensures c[..|here|] == here && c[|here|] in SortedChildren(compare, nodes, here[|here| - 1])
  {
    assert c[..|here|] == c[..|here| - 1] + [c[|here| - 1]];
    assert ChildOf(c[|here| - 1], c[|here|]);
    ChildrenHold(compare, nodes, here[|here| - 1]);
  }

  predicate DistinctUnits(ts: seq<Tree>) {
    forall i, j :: 0 <= i < j < |ts| ==> ts[i].unit.id != ts[j].unit.id
  }

  /** Two nodes found under different siblings, or a sibling and a node below it, differ. */
  lemma {:induction false} SitsApart(compare: (string, string) -> int, nodes: seq<Unit>, trail: seq<Unit>,
                                     us: seq<Unit>, us': seq<Unit>, t: Tree, t': Tree, c: seq<Unit>, c': seq<Unit>)
    requires DistinctIds(nodes) && SitsAt(compare, nodes, trail, us, t, c) && SitsAt(compare, nodes, trail, us', t', c')
    requires forall u :: u in us ==> u !in us'
    ensures t.unit.id != t'.unit.id
  {
    if t.unit.id == t'.unit.id {
      SameId(nodes, c[|c| - 1], c'[|c'| - 1]);
      ChainIsUnique(nodes, c, c');
    }
  }

  lemma {:induction false} ThreeParts(first: Tree, below: seq<Tree>, rest: seq<Tree>)
    requires DistinctUnits(below) && DistinctUnits(rest)
    requires forall t :: t in below ==> t.unit.id != first.unit.id
    requires forall t :: t in rest ==> t.unit.id != first.unit.id
    requires forall t, s :: t in below && s in rest ==> t.unit.id != s.unit.id
    ensures DistinctUnits([first] + below + rest)
  {
    var all := [first] + below + rest;
    forall i, j | 0 <= i < j < |all| ensures all[i].unit.id != all[j].unit.id {
      assert all[i] == if i == 0 then first else if i <= |below| then below[i - 1] else rest[i - 1 - |below|];
      assert all[j] == if j <= |below| then below[j - 1] else rest[j - 1 - |below|];
    }
  }

  /** The first sibling, what grows below it and what grows from the other siblings have no id in common. */
  lemma {:induction false} GrowsApart(compare: (string, string) -> int, nodes: seq<Unit>, trail: seq<Unit>,
                                      us: seq<Unit>, path: seq<string>, inner: seq<Tree>, rest: seq<Tree>)
    requires DistinctIds(nodes) && Extend(nodes, trail, us) && DistinctIds(us) && us != [] && path == Names(trail)
    requires inner == Flatten(First(compare, nodes, trail, us, path).children)
    requires rest == Flatten(Grow(compare, nodes, trail, us[1..], path))
    ensures forall t :: t in inner ==> t.unit.id != us[0].id
    ensures forall s :: s in rest ==> s.unit.id != us[0].id
    ensures forall t, s :: t in inner && s in rest ==> t.unit.id != s.unit.id
  {
    FlattenGrow(compare, nodes, trail, us, path);
    var here, below := trail + [us[0]], SortedChildren(compare, nodes, us[0]);
    assert Names(here) == path + [us[0].name];
    forall t | t in inner ensures t.unit.id != us[0].id {
      var c := FindChain(compare, nodes, here, below, Names(here), t);
      ChainIsDistinct(nodes, c);
      assert c[|trail|] == here[|trail|];
    }
    forall s | s in rest ensures s.unit.id != us[0].id {
      FirstAgainstRest(compare, nodes, trail, us, path, s);
    }
    forall t, s | t in inner && s in rest ensures t.unit.id != s.unit.id {
      BelowAgainstRest(compare, nodes, trail, us, below, path, t, s);
    }
  }

  lemma {:induction false} GrowIsDistinct(compare: (string, string) -> int, nodes: seq<Unit>, trail: seq<Unit>,
                                          us: seq<Unit>, path: seq<string>)
    requires DistinctIds(nodes) && Extend(nodes, trail, us) && DistinctIds(us) && path == Names(trail)
    ensures DistinctUnits(Flatten(Grow(compare, nodes, trail, us, path)))
    decreases |nodes| - |trail|, |us|
  {
    if us != [] {
      FlattenGrow(compare, nodes, trail, us, path);
      var first, here := First(compare, nodes, trail, us, path), trail + [us[0]];
      var below := SortedChildren(compare, nodes, us[0]);
      assert Names(here) == path + [us[0].name];
      ChildrenHold(compare, nodes, us[0]);
      GrowIsDistinct(compare, nodes, here, below, Names(here));
      GrowIsDistinct(compare, nodes, trail, us[1..], path);
      var inner, rest := Flatten(first.children), Flatten(Grow(compare, nodes, trail, us[1..], path));
      GrowsApart(compare, nodes, trail, us, path, inner, rest);
      ThreeParts(first, inner, rest);
    }
  }

  lemma {:induction false} FirstAgainstRest(compare: (string, string) -> int, nodes: seq<Unit>, trail: seq<Unit>,
                                            us: seq<Unit>, path: seq<string>, s: Tree)
    requires DistinctIds(nodes) && Extend(nodes, trail, us) && DistinctIds(us) && us != [] && path == Names(trail)
    requires s in Flatten(Grow(compare, nodes, trail, us[1..], path))
    ensures s.unit.id != us[0].id
  {
    var d := FindChain(compare, nodes, trail, us[1..], path, s);
    var here := trail + [us[0]];
    assert Chain(nodes, here) && here[|trail|] == us[0];
    if s.unit.id == us[0].id {
      SameId(nodes, s.unit, us[0]);
      ChainIsUnique(nodes, d, here);
    }
  }

  lemma {:induction false} BelowAgainstRest(compare: (string, string) -> int, nodes: seq<Unit>, trail: seq<Unit>,
                                            us: seq<Unit>, below: seq<Unit>, path: seq<string>, t: Tree, s: Tree)
    requires DistinctIds(nodes) && Extend(nodes, trail, us) && DistinctIds(us) && us != [] && path == Names(trail)
    requires Extend(nodes, trail + [us[0]], below)
    requires t in Flatten(Grow(compare, nodes, trail + [us[0]], below, Names(trail + [us[0]])))
    requires s in Flatten(Grow(compare, nodes, trail, us[1..], path))
    ensures t.unit.id != s.unit.id
  {
    var here := trail + [us[0]];
    var c := FindChain(compare, nodes, here, below, Names(here), t);
    var d := FindChain(compare, nodes, trail, us[1..], path, s);
    assert c[..|trail|] == here[..|trail|] == trail && c[|trail|] == here[|trail|];
    SitsApart(compare, nodes, trail, [us[0]], us[1..], t, s, c, d);
  }

  // Main results

  ghost predicate Reaches(nodes: seq<Unit>, u: Unit) {
    exists c :: Chain(nodes, c) && c[|c| - 1] == u
  }

  /** Main result: a unit is in the forest exactly when its parents lead up to a root, and then once. */
  lemma {:induction false} PlacedOnceIff(compare: (string, string) -> int, nodes: seq<Unit>, u: Unit)
    requires DistinctIds(nodes)
    ensures Places(Forest(compare, nodes), u) <==> Reaches(nodes, u)
    ensures DistinctUnits(Flatten(Forest(compare, nodes)))
  {
    RootsHold(compare, nodes);
    var us := Sorted(compare, Roots(nodes));
    GrowIsDistinct(compare, nodes, [], us, []);
    if Places(Forest(compare, nodes), u) {
      var t :| t in Flatten(Forest(compare, nodes)) && t.unit == u;
      var c := FindChain(compare, nodes, [], us, [], t);
    }
    if Reaches(nodes, u) {
      var c :| Chain(nodes, c) && c[|c| - 1] == u;
      ChainIsPlaced(compare, nodes, [], us, [], c, Flatten(Forest(compare, nodes)));
    }
  }

  /** One of two siblings comes first: by sort order, then by name, then by their order in the list. */
  predicate ComesFirst(compare: (string, string) -> int, nodes: seq<Unit>, a: Unit, b: Unit) {
    || a.sortOrder < b.sortOrder
    || (a.sortOrder == b.sortOrder && compare(b.name, a.name) > 0)
    || (a.sortOrder == b.sortOrder && compare(a.name, b.name) <= 0 && Precedes(nodes, a, b))
  }

  predicate Precedes(us: seq<Unit>, a: Unit, b: Unit) {
    exists i, j :: 0 <= i < j < |us| && us[i] == a && us[j] == b
  }

  predicate Ordered(compare: (string, string) -> int, nodes: seq<Unit>, us: seq<Unit>) {
    forall i, j :: 0 <= i < j < |us| ==> ComesFirst(compare, nodes, us[i], us[j])
  }

  lemma {:induction false} PrecedesLater(us: seq<Unit>, a: Unit, b: Unit)
    requires us != [] && Precedes(us[1..], a, b)
    ensures Precedes(us, a, b)
  {
    var i, j :| 0 <= i < j < |us[1..]| && us[1..][i] == a && us[1..][j] == b;
    assert us[i + 1] == a && us[j + 1] == b;
  }

  lemma {:induction false} InsertIsOrdered(compare: (string, string) -> int, nodes: seq<Unit>, u: Unit,
                                           sorted: seq<Unit>)
    requires Collates(compare) && Ordered(compare, nodes, sorted) && InOrder(compare, sorted)
    requires forall x :: x in sorted ==> Precedes(nodes, u, x)
    ensures Ordered(compare, nodes, Insert(compare, u, sorted))
    ensures forall x :: x in Insert(compare, u, sorted) ==> x == u || x in sorted
  {
    if sorted != [] && !Le(compare, u, sorted[0]) {
      var first, rest := sorted[0], sorted[1..];
      assert forall i :: 0 <= i < |rest| ==> rest[i] == sorted[i + 1];
      InsertIsOrdered(compare, nodes, u, rest);
      var tail := Insert(compare, u, rest);
      forall j | 0 <= j < |tail| ensures ComesFirst(compare, nodes, first, tail[j]) {
        assert tail[j] in tail;
        if tail[j] != u {
          var k :| 0 <= k < |rest| && rest[k] == tail[j];
        }
      }
      OrderedCons(compare, nodes, first, tail);
    } else if sorted != [] {
      forall j | 0 <= j < |sorted| ensures ComesFirst(compare, nodes, u, sorted[j]) {
        assert sorted[j] in sorted && Le(compare, sorted[0], sorted[j]);
      }
      OrderedCons(compare, nodes, u, sorted);
    }
  }

  lemma {:induction false} OrderedCons(compare: (string, string) -> int, nodes: seq<Unit>, u: Unit, us: seq<Unit>)
    requires Ordered(compare, nodes, us) && forall j :: 0 <= j < |us| ==> ComesFirst(compare, nodes, u, us[j])
    ensures Ordered(compare, nodes, [u] + us)
  {
  }

  lemma {:induction false} OrderedLater(compare: (string, string) -> int, nodes: seq<Unit>, us: seq<Unit>)
    requires nodes != [] && Ordered(compare, nodes[1..], us)
    ensures Ordered(compare, nodes, us)
  {
    forall i, j | 0 <= i < j < |us| ensures ComesFirst(compare, nodes, us[i], us[j]) {
      if Precedes(nodes[1..], us[i], us[j]) {
        PrecedesLater(nodes, us[i], us[j]);
      }
    }
  }

  /** The sort is the stable one: ties stay in the order in which they came. */
  lemma {:induction false} SortedIsOrdered(compare: (string, string) -> int, us: seq<Unit>)
    requires Collates(compare)
    ensures Ordered(compare, us, Sorted(compare, us))
    ensures forall x :: x in Sorted(compare, us) ==> x in us
  {
    if us != [] {
      var rest := Sorted(compare, us[1..]);
      SortedIsOrdered(compare, us[1..]);
      SortedIsInOrder(compare, us[1..]);
      OrderedLater(compare, us, rest);
      forall x | x in rest ensures Precedes(us, us[0], x) {
        var j :| 0 <= j < |us[1..]| && us[1..][j] == x;
        assert us[j + 1] == x;
      }
      InsertIsOrdered(compare, us, us[0], rest);
    }
  }

  lemma {:induction false} SelectPrecedes(nodes: seq<Unit>, n: nat, keep: Unit -> bool, a: Unit, b: Unit)
    requires n <= |nodes| && Precedes(Select(nodes, n, keep), a, b)
    ensures Precedes(nodes[..n], a, b)
  {
    if n > 0 {
      var before, r, last := Select(nodes, n - 1, keep), Select(nodes, n, keep), nodes[n - 1];
      var i, j :| 0 <= i < j < |r| && r[i] == a && r[j] == b;
      assert nodes[..n] == nodes[..n - 1] + [last];
      if j < |before| {
        assert before[i] == a && before[j] == b;
        SelectPrecedes(nodes, n - 1, keep, a, b);
        var k, l :| 0 <= k < l < n - 1 && nodes[..n - 1][k] == a && nodes[..n - 1][l] == b;
        assert nodes[..n][k] == a && nodes[..n][l] == b;
      } else {
        assert before[i] == a;
        SelectIsIn(nodes, n - 1, keep, i);
        var k :| 0 <= k < n - 1 && nodes[k] == a;
        assert nodes[..n][k] == a && nodes[..n][n - 1] == b;
      }
    }
  }

  lemma {:induction false} SelectIsIn(nodes: seq<Unit>, n: nat, keep: Unit -> bool, i: nat)
    requires n <= |nodes| && i < |Select(nodes, n, keep)|
    ensures exists k :: 0 <= k < n && nodes[k] == Select(nodes, n, keep)[i]
  {
    if n > 0 && i < |Select(nodes, n - 1, keep)| {
      SelectIsIn(nodes, n - 1, keep, i);
    }
  }

  lemma {:induction false} SelectedIsOrdered(compare: (string, string) -> int, nodes: seq<Unit>, keep: Unit -> bool)
    requires Collates(compare)
    ensures Ordered(compare, nodes, Sorted(compare, Select(nodes, |nodes|, keep)))
  {
    var chosen := Select(nodes, |nodes|, keep);
    var us := Sorted(compare, chosen);
    SortedIsOrdered(compare, chosen);
    forall i, j | 0 <= i < j < |us| ensures ComesFirst(compare, nodes, us[i], us[j]) {
      if Precedes(chosen, us[i], us[j]) {
        SelectPrecedes(nodes, |nodes|, keep, us[i], us[j]);
        assert nodes[..|nodes|] == nodes;
      }
    }
  }

  /** The unit names the other by its id, which is not empty. */
  predicate LinksTo(u: Unit, p: Unit) {
    u.parent == Some(p.id) && u.parent != Some("")
  }

  /** A chain of parent links from a unit without a present parent down. */
  predicate IsLine(nodes: seq<Unit>, c: seq<Unit>) {
    && c != [] && (forall u :: u in c ==> u in nodes) && (forall p :: p in nodes ==> !LinksTo(c[0], p))
    && forall i :: 1 <= i < |c| ==> LinksTo(c[i], c[i - 1])
  }

  /**
    Main result: every node has the names on the line of links down to it as display path, and its children
    are exactly the units that link to it, ordered by sort order, name and their order in the input.
  */
  lemma {:induction false} NodesSitRight(compare: (string, string) -> int, nodes: seq<Unit>, t: Tree)
    requires DistinctIds(nodes) && t in Flatten(Forest(compare, nodes)) && Collates(compare)
    ensures exists c :: IsLine(nodes, c) && c[|c| - 1] == t.unit && t.path == Names(c)
    ensures forall u :: u in Tops(t.children) <==> u in nodes && LinksTo(u, t.unit)
    ensures DistinctIds(Tops(t.children)) && Ordered(compare, nodes, Tops(t.children))
  {
    RootsHold(compare, nodes);
    var c := FindChain(compare, nodes, [], Sorted(compare, Roots(nodes)), [], t);
    ChainIsLine(nodes, c);
    ChildrenHold(compare, nodes, t.unit);
    SelectedIsOrdered(compare, nodes, ChildTest(t.unit));
  }

  lemma {:induction false} ChainIsLine(nodes: seq<Unit>, c: seq<Unit>)
    ensures Chain(nodes, c) <==> IsLine(nodes, c)
  {
    if c != [] {
      assert IsRoot(nodes, c[0]) <==> forall p :: p in nodes ==> !LinksTo(c[0], p) by {
        assert forall p :: ChildOf(p, c[0]) <==> LinksTo(c[0], p);
      }
      assert forall i :: 1 <= i < |c| ==> (ChildOf(c[i - 1], c[i]) <==> LinksTo(c[i], c[i - 1]));
    }
  }

  /** In terms of links: a unit is in the forest if and only if a line of links leads down to it. */
  lemma {:induction false} PlacedIffOnLine(compare: (string, string) -> int, nodes: seq<Unit>, u: Unit)
    requires DistinctIds(nodes)
    ensures Places(Forest(compare, nodes), u) <==> exists c :: IsLine(nodes, c) && c[|c| - 1] == u
  {
    PlacedOnceIff(compare, nodes, u);
    forall c ensures Chain(nodes, c) <==> IsLine(nodes, c) {
      ChainIsLine(nodes, c);
    }
  }

  lemma {:induction false} RootsSitRight(compare: (string, string) -> int, nodes: seq<Unit>)
    requires DistinctIds(nodes) && Collates(compare)
    ensures forall u :: u in Tops(Forest(compare, nodes)) <==> u in nodes && forall p :: p in nodes ==> !LinksTo(u, p)
    ensures Ordered(compare, nodes, Tops(Forest(compare, nodes)))
  {
    RootsHold(compare, nodes);
    GrowTops(compare, nodes, [], Sorted(compare, Roots(nodes)), []);
    SelectedIsOrdered(compare, nodes, RootTest(nodes));
    forall u ensures IsRoot(nodes, u) <==> forall p :: p in nodes ==> !LinksTo(u, p) {
      assert forall p :: ChildOf(p, u) <==> LinksTo(u, p);
    }
  }

  /** Climbing parent links gets to a root in at most n steps. */
  predicate Climbs(nodes: seq<Unit>, u: Unit, n: nat)
    decreases n
  {
    IsRoot(nodes, u) || (n > 0 && exists p :: p in nodes && ChildOf(p, u) && Climbs(nodes, p, n - 1))
  }

  lemma {:induction false} ClimbsToChain(nodes: seq<Unit>, u: Unit, n: nat) returns (c: seq<Unit>)
    requires u in nodes && Climbs(nodes, u, n)
    ensures Chain(nodes, c) && c[|c| - 1] == u
    decreases n
  {
    if IsRoot(nodes, u) {
      c := [u];
    } else {
      var p :| p in nodes && ChildOf(p, u) && Climbs(nodes, p, n - 1);
      var above := ClimbsToChain(nodes, p, n - 1);
      c := above + [u];
    }
  }

  lemma {:induction false} ChainClimbs(nodes: seq<Unit>, c: seq<Unit>, n: nat)
    requires Chain(nodes, c) && |c| <= n + 1
    ensures Climbs(nodes, c[|c| - 1], n)
    decreases |c|
  {
    if |c| > 1 {
      ChainClimbs(nodes, c[..|c| - 1], n - 1);
      assert ChildOf(c[|c| - 2], c[|c| - 1]) && c[|c| - 2] in nodes;
    }
  }

  /** Reaching a root can be checked: it takes no more steps than there are units. */
  lemma {:induction false} ReachesIff(nodes: seq<Unit>, u: Unit)
    requires DistinctIds(nodes) && u in nodes
    ensures Reaches(nodes, u) <==> Climbs(nodes, u, |nodes|)
  {
    if Reaches(nodes, u) {
      var c :| Chain(nodes, c) && c[|c| - 1] == u;
      ChainIsBounded(nodes, c);
      ChainClimbs(nodes, c, |nodes|);
    }
    if Climbs(nodes, u, |nodes|) {
      var c := ClimbsToChain(nodes, u, |nodes|);
    }
  }

  /** Units in a circle of parent links are on no chain, so the forest leaves them out. */
  lemma {:induction false} CircleIsLeftOut(nodes: seq<Unit>, circle: seq<Unit>, i: nat, c: seq<Unit>)
    requires DistinctIds(nodes) && i < |circle| && forall k :: 0 <= k < |circle| ==> circle[k] in nodes
    requires forall k :: 0 <= k < |circle| ==> ChildOf(circle[if k == 0 then |circle| - 1 else k - 1], circle[k])
    ensures !(Chain(nodes, c) && c[|c| - 1] == circle[i])
    decreases |c|
  {
    if Chain(nodes, c) && c[|c| - 1] == circle[i] {
      var before := if i == 0 then |circle| - 1 else i - 1;
      assert ChildOf(circle[before], circle[i]);
      LastIsRootIff(nodes, c);
      SameId(nodes, c[|c| - 2], circle[before]);
      CircleIsLeftOut(nodes, circle, before, c[..|c| - 1]);
    }
  }

  /** Parent links that always go up in some rank run in no circle. */
  ghost predicate Ranked(nodes: seq<Unit>, rank: Unit -> nat) {
    forall p, u :: p in nodes && u in nodes && ChildOf(p, u) ==> rank(p) < rank(u)
  }

  lemma {:induction false} RankedClimbs(nodes: seq<Unit>, rank: Unit -> nat, u: Unit)
    requires Ranked(nodes, rank) && u in nodes
    ensures Climbs(nodes, u, rank(u))
    decreases rank(u)
  {
    if !IsRoot(nodes, u) {
      var p :| p in nodes && ChildOf(p, u);
      RankedClimbs(nodes, rank, p);
      MoreSteps(nodes, p, rank(p), rank(u) - 1);
    }
  }

  lemma {:induction false} MoreSteps(nodes: seq<Unit>, u: Unit, n: nat, m: nat)
    requires Climbs(nodes, u, n) && n <= m
    ensures Climbs(nodes, u, m)
    decreases n
  {
    if !IsRoot(nodes, u) {
      var p :| p in nodes && ChildOf(p, u) && Climbs(nodes, p, n - 1);
      MoreSteps(nodes, p, n - 1, m - 1);
    }
  }

  /** Main result: without circles, flattening the forest gives back the units, each as often as before. */
  lemma {:induction false} FlatteningGivesBack(compare: (string, string) -> int, nodes: seq<Unit>, rank: Unit -> nat)
    requires DistinctIds(nodes) && Ranked(nodes, rank)
    ensures multiset(Tops(Flatten(Forest(compare, nodes)))) == multiset(nodes)
  {
    var flat := Flatten(Forest(compare, nodes));
    RootsHold(compare, nodes);
    GrowIsDistinct(compare, nodes, [], Sorted(compare, Roots(nodes)), []);
    forall u ensures u in Tops(flat) <==> u in nodes {
      PlacedOnceIff(compare, nodes, u);
      if u in nodes {
        RankedClimbs(nodes, rank, u);
        var c := ClimbsToChain(nodes, u, rank(u));
        var t :| t in flat && t.unit == u;
        var k :| 0 <= k < |flat| && flat[k] == t;
        assert Tops(flat)[k] == u;
      }
      if u in Tops(flat) {
        var k :| 0 <= k < |flat| && Tops(flat)[k] == u;
        assert flat[k] in flat;
      }
    }
    SameDistinct(Tops(flat), nodes);
  }

  lemma {:induction false} SameDistinct(a: seq<Unit>, b: seq<Unit>)
    requires DistinctIds(a) && DistinctIds(b) && forall u :: u in a <==> u in b
    ensures multiset(a) == multiset(b)
  {
    forall u ensures multiset(a)[u] == multiset(b)[u] {
      Once(a, u);
      Once(b, u);
    }
  }

  lemma {:induction false} Once(us: seq<Unit>, u: Unit)
    requires DistinctIds(us)
    ensures multiset(us)[u] == if u in us then 1 else 0
  {
    if us != [] {
      assert us == [us[0]] + us[1..];
      Once(us[1..], u);
      assert us[0] !in us[1..];
    }
  }
}
