/**
  The rebuilding as it runs: a map of nodes in insertion order, child lists that are pushed to and
  sorted in place, and paths that are overwritten. Nodes are named by their ids.
*/
module DepartmentPage {
  import opened Wrappers
  import opened DepartmentTree

  class ForestBuilder {
    var nodes: seq<Unit>
    var children: map<string, seq<Unit>>
    var roots: seq<Unit>
    var path: map<string, seq<string>>

    constructor ()
      ensures nodes == [] && roots == []
    {
      nodes, children, roots, path := [], map[], [], map[];
    }

    /** The loop over the flattened units. */
    method Fill(raws: seq<Raw>)
      modifies this`nodes
      ensures nodes == Nodes(raws, |raws|)
    {
      nodes := [];
      var i := 0;
      while i < |raws|
        invariant i <= |raws| && nodes == Nodes(raws, i)
      {
        nodes := Put(nodes, ToUnit(raws[i]));
        i := i + 1;
      }
    }

    /** `nodes.get`: the unit with this id, unless the id is empty. */
    method Get(id: string) returns (found: bool, p: Unit)
      requires DistinctIds(nodes)
      ensures found ==> p in nodes && p.id == id
      ensures !found ==> forall u :: u in nodes ==> u.id != id
    {
      p := Unit(id, "", None, 0);
      var i := 0;
      while i < |nodes|
        invariant i <= |nodes| && forall k :: 0 <= k < i ==> nodes[k].id != id
      {
        if nodes[i].id == id {
          return true, nodes[i];
        }
        i := i + 1;
      }
      return false, p;
    }

    /** What the lists hold when the first n nodes have been pushed. */
    ghost predicate Linked(n: nat)
      reads this
      requires n <= |nodes|
    {
      && roots == Select(nodes, n, RootTest(nodes))
      && forall p :: p in nodes ==> p.id in children && children[p.id] == Select(nodes, n, ChildTest(p))
    }

    method Clear()
      requires DistinctIds(nodes)
      modifies this`children, this`roots
      ensures Linked(0)
    {
      roots := [];
      children := map p | p in nodes :: p.id := [];
    }

    /** The loop that pushes every node to its parent's list or to the roots. */
    method Link()
      requires DistinctIds(nodes)
      modifies this`children, this`roots
      ensures Linked(|nodes|)
    {
      Clear();
      var i := 0;
      while i < |nodes|
        invariant i <= |nodes| && Linked(i)
      {
        Push(i);
        i := i + 1;
      }
    }

    method Push(i: nat)
      requires i < |nodes| && DistinctIds(nodes) && Linked(i)
      modifies this`children, this`roots
      ensures Linked(i + 1)
    {
      var u := nodes[i];
      if u.parent.Some? && u.parent.value != "" {
        var found, p := Get(u.parent.value);
        if found {
          children := children[p.id := children[p.id] + [u]];
          assert ChildOf(p, u) && !IsRoot(nodes, u);
          forall q | q in nodes && ChildOf(q, u) ensures q == p {
            SameId(nodes, q, p);
          }
          return;
        }
      }
      assert IsRoot(nodes, u);
      roots := roots + [u];
    }

    /** `applyDisplayPath`: the node's path, its children in order, and then all below it. */
    method ApplyDisplayPath(compare: (string, string) -> int, u: Unit, parentPath: seq<string>, ghost here: seq<Unit>,
                            ghost first: Tree, ghost inner: seq<Tree>)
      requires DistinctIds(nodes) && Entered(compare, nodes, here, u, parentPath, first, inner)
      requires Unsorted(nodes, children, [first] + inner)
      modifies this`children, this`path
      ensures Shows(children, path, [first] + inner)
      ensures Untouched(old(children), old(path), children, path, [first] + inner)
      decreases |nodes| - |here|, |SortedChildren(compare, nodes, u)| + 1
    {
      ghost var c0, p0 := children, path;
      FirstIsUnsorted(nodes, children, first, inner);
      path := path[u.id := parentPath + [u.name]];
      children := children[u.id := Sorted(compare, children[u.id])];
      ghost var c1, p1 := children, path;
      Written(nodes, c0, p0, c1, p1, first, inner);
      ApplyDisplayPaths(compare, children[u.id], path[u.id], here, inner);
      Both(c0, p0, c1, p1, children, path, [first], inner);
    }

    /** The loop over siblings, each with all below it before the next. */
    method ApplyDisplayPaths(compare: (string, string) -> int, us: seq<Unit>, parentPath: seq<string>,
                             ghost trail: seq<Unit>, ghost whole: seq<Tree>)
      requires DistinctIds(nodes) && Extend(nodes, trail, us) && DistinctIds(us) && parentPath == Names(trail)
      requires whole == Flatten(Grow(compare, nodes, trail, us, parentPath)) && Unsorted(nodes, children, whole)
      modifies this`children, this`path
      ensures Shows(children, path, whole)
      ensures Untouched(old(children), old(path), children, path, whole)
      decreases |nodes| - |trail|, |us|
    {
      if us == [] {
        return;
      }
      ghost var here, first := trail + [us[0]], First(compare, nodes, trail, us, parentPath);
      ghost var inner, rest := Flatten(first.children), Flatten(Grow(compare, nodes, trail, us[1..], parentPath));
      Enter(compare, nodes, trail, us, parentPath, first, inner, rest);
      ghost var c0, p0 := children, path;
      UnsortedParts(nodes, c0, [first] + inner, rest);
      ApplyDisplayPath(compare, us[0], parentPath, here, first, inner);
      ghost var c1, p1 := children, path;
      StillUnsorted(nodes, c0, p0, c1, p1, [first] + inner, rest);
      ApplyDisplayPaths(compare, us[1..], parentPath, trail, rest);
      Both(c0, p0, c1, p1, children, path, [first] + inner, rest);
    }

    /** `normalizeTree`. */
    method NormalizeTree(compare: (string, string) -> int, units: seq<Raw>)
      modifies this
      ensures nodes == Nodes(FlattenUnits(units), |FlattenUnits(units)|) && DistinctIds(nodes)
      ensures roots == Tops(Forest(compare, nodes))
      ensures Shows(children, path, Flatten(Forest(compare, nodes)))
    {
      var raws := FlattenUnits(units);
      Fill(raws);
      NodesAreDistinct(raws, |raws|);
      Link();
      roots := Sorted(compare, roots);
      path := map[];
      RootsHold(compare, nodes);
      GrowTops(compare, nodes, [], roots, []);
      forall t | t in Flatten(Forest(compare, nodes)) ensures t.unit in nodes {
        var c := FindChain(compare, nodes, [], roots, [], t);
      }
      ApplyDisplayPaths(compare, roots, [], [], Flatten(Forest(compare, nodes)));
    }
  }

  /** The sorted lists and the paths that these nodes stand for. */
  ghost predicate Shows(children: map<string, seq<Unit>>, path: map<string, seq<string>>, ts: seq<Tree>) {
    forall t :: t in ts ==>
      && t.unit.id in path && path[t.unit.id] == t.path
      && t.unit.id in children && children[t.unit.id] == Tops(t.children)
  }

  /** The child lists are as they were pushed. */
  ghost predicate Unsorted(nodes: seq<Unit>, children: map<string, seq<Unit>>, ts: seq<Tree>) {
    forall t :: t in ts ==> t.unit.id in children && children[t.unit.id] == Children(nodes, t.unit)
  }

  ghost predicate Same(children: map<string, seq<Unit>>, path: map<string, seq<string>>,
                       children': map<string, seq<Unit>>, path': map<string, seq<string>>, id: string)
  {
    && (id in children <==> id in children') && (id in children ==> children[id] == children'[id])
    && (id in path <==> id in path') && (id in path ==> path[id] == path'[id])
  }

  /** Nothing is written for an id that is not one of these nodes'. */
  ghost predicate Untouched(children: map<string, seq<Unit>>, path: map<string, seq<string>>,
                            children': map<string, seq<Unit>>, path': map<string, seq<string>>, ts: seq<Tree>)
  {
    forall id :: id !in Ids(ts) ==> Same(children, path, children', path', id)
  }

  ghost function Ids(ts: seq<Tree>): set<string> {
    set t | t in ts :: t.unit.id
  }

  lemma {:induction false} StillUnsorted(nodes: seq<Unit>, children: map<string, seq<Unit>>,
                                         path: map<string, seq<string>>, children': map<string, seq<Unit>>,
                                         path': map<string, seq<string>>, done: seq<Tree>, ts: seq<Tree>)
    requires Unsorted(nodes, children, ts) && Untouched(children, path, children', path', done)
    requires Ids(ts) !! Ids(done)
    ensures Unsorted(nodes, children', ts)
  {
    forall t | t in ts ensures t.unit.id in children' && children'[t.unit.id] == Children(nodes, t.unit) {
      assert t.unit.id in Ids(ts);
      assert Same(children, path, children', path', t.unit.id);
    }
  }

  /** Two steps on trees without a common id are one step on both. */
  lemma {:induction false} Both(c0: map<string, seq<Unit>>, p0: map<string, seq<string>>,
                                c1: map<string, seq<Unit>>, p1: map<string, seq<string>>,
                                c2: map<string, seq<Unit>>, p2: map<string, seq<string>>, ts: seq<Tree>, ss: seq<Tree>)
    requires Shows(c1, p1, ts) && Untouched(c0, p0, c1, p1, ts)
    requires Shows(c2, p2, ss) && Untouched(c1, p1, c2, p2, ss)
    requires Ids(ts) !! Ids(ss)
    ensures Shows(c2, p2, ts + ss) && Untouched(c0, p0, c2, p2, ts + ss)
  {
    forall t | t in ts ensures t.unit.id in Ids(ts) && Same(c1, p1, c2, p2, t.unit.id) {
    }
    forall id | id !in Ids(ts + ss) ensures Same(c0, p0, c2, p2, id) {
      forall t | t in ts ensures t.unit.id != id {
        assert t in ts + ss;
      }
      forall t | t in ss ensures t.unit.id != id {
        assert t in ts + ss;
      }
      assert Same(c0, p0, c1, p1, id) && Same(c1, p1, c2, p2, id);
    }
  }

  lemma {:induction false} UnsortedParts(nodes: seq<Unit>, children: map<string, seq<Unit>>, front: seq<Tree>,
                                         back: seq<Tree>)
    requires Unsorted(nodes, children, front + back)
    ensures Unsorted(nodes, children, front) && Unsorted(nodes, children, back)
  {
    forall t | t in front ensures t in front + back {
    }
    forall t | t in back ensures t in front + back {
    }
  }

  lemma {:induction false} FirstIsUnsorted(nodes: seq<Unit>, children: map<string, seq<Unit>>, first: Tree,
                                           inner: seq<Tree>)
    requires Unsorted(nodes, children, [first] + inner)
    ensures first.unit.id in children && children[first.unit.id] == Children(nodes, first.unit)
  {
    assert first in [first] + inner;
  }

  /** Writing the first node leaves the lists of those below as they were. */
  lemma {:induction false} Written(nodes: seq<Unit>, c0: map<string, seq<Unit>>, p0: map<string, seq<string>>,
                                   c1: map<string, seq<Unit>>, p1: map<string, seq<string>>, first: Tree,
                                   inner: seq<Tree>)
    requires Unsorted(nodes, c0, [first] + inner) && Ids([first]) !! Ids(inner)
    requires c1 == c0[first.unit.id := Tops(first.children)] && p1 == p0[first.unit.id := first.path]
    ensures Shows(c1, p1, [first]) && Untouched(c0, p0, c1, p1, [first])
    ensures Unsorted(nodes, c1, inner)
  {
    assert first in [first];
    forall id | id !in Ids([first]) ensures Same(c0, p0, c1, p1, id) {
      assert first.unit.id in Ids([first]);
    }
    UnsortedParts(nodes, c0, [first], inner);
    StillUnsorted(nodes, c0, p0, c1, p1, [first], inner);
  }

  /** What holds when a node is entered: `first` is its tree and `inner` what grows below it. */
  ghost predicate Entered(compare: (string, string) -> int, nodes: seq<Unit>, here: seq<Unit>, u: Unit,
                          parentPath: seq<string>, first: Tree, inner: seq<Tree>)
    requires DistinctIds(nodes)
  {
    var below, path := SortedChildren(compare, nodes, u), parentPath + [u.name];
    && Extend(nodes, here, below) && DistinctIds(below) && |here| <= |nodes|
    && Names(here) == path && first.unit == u && first.path == path && Tops(first.children) == below
    && inner == Flatten(Grow(compare, nodes, here, below, path))
    && Ids([first]) !! Ids(inner)
  }

  lemma {:induction false} Enter(compare: (string, string) -> int, nodes: seq<Unit>, trail: seq<Unit>, us: seq<Unit>,
                                 path: seq<string>, first: Tree, inner: seq<Tree>, rest: seq<Tree>)
    requires DistinctIds(nodes) && Extend(nodes, trail, us) && DistinctIds(us) && us != [] && path == Names(trail)
    requires first == First(compare, nodes, trail, us, path)
    requires inner == Flatten(first.children) && rest == Flatten(Grow(compare, nodes, trail, us[1..], path))
    ensures |trail| < |nodes| && Entered(compare, nodes, trail + [us[0]], us[0], path, first, inner)
    ensures Flatten(Grow(compare, nodes, trail, us, path)) == [first] + inner + rest
    ensures Ids([first] + inner) !! Ids(rest)
  {
    FlattenGrow(compare, nodes, trail, us, path);
    GrowTops(compare, nodes, trail + [us[0]], SortedChildren(compare, nodes, us[0]), path + [us[0].name]);
    ChildrenHold(compare, nodes, us[0]);
    GrowsApart(compare, nodes, trail, us, path, inner, rest);
    assert Names(trail + [us[0]]) == path + [us[0].name];
    forall t, s | t in [first] + inner && s in rest ensures t.unit.id != s.unit.id {
    }
  }
}
