/** Feeding a rebuilt forest back in: flattening and rebuilding it gives the same forest. */
module DepartmentRoundTrip {
  import opened DepartmentTree

  // Selecting from a flattened forest

  lemma {:induction false} SelectIgnoresRest(a: seq<Unit>, b: seq<Unit>, n: nat, keep: Unit -> bool)
    requires n <= |a|
    ensures Select(a + b, n, keep) == Select(a, n, keep)
  {
    if n > 0 {
      SelectIgnoresRest(a, b, n - 1, keep);
    }
  }

  lemma {:induction false} SelectSum(a: seq<Unit>, b: seq<Unit>, n: nat, keep: Unit -> bool)
    requires n <= |b|
    ensures Select(a + b, |a| + n, keep) == Select(a, |a|, keep) + Select(b, n, keep)
  {
    if n > 0 {
      SelectSum(a, b, n - 1, keep);
    } else {
      SelectIgnoresRest(a, b, |a|, keep);
    }
  }

  lemma {:induction false} SelectNone(us: seq<Unit>, n: nat, keep: Unit -> bool)
    requires n <= |us| && forall i :: 0 <= i < n ==> !keep(us[i])
    ensures Select(us, n, keep) == []
  {
    if n > 0 {
      SelectNone(us, n - 1, keep);
    }
  }

  function Kept(us: seq<Unit>, keep: Unit -> bool): seq<Unit> {
    Select(us, |us|, keep)
  }

  lemma {:induction false} KeptThree(first: Unit, inner: seq<Unit>, rest: seq<Unit>, keep: Unit -> bool)
    ensures Kept([first] + inner + rest, keep)
            == (if keep(first) then [first] else []) + Kept(inner, keep) + Kept(rest, keep)
  {
    SelectSum([first] + inner, rest, |rest|, keep);
    SelectSum([first], inner, |inner|, keep);
    assert Select([first], 1, keep) == Select([first], 0, keep) + if keep(first) then [first] else [];
  }

  lemma {:induction false} TopsThree(first: Tree, inner: seq<Tree>, rest: seq<Tree>)
    ensures Tops([first] + inner + rest) == [first.unit] + Tops(inner) + Tops(rest)
  {
  }

  // Parents on chains

  lemma {:induction false} ParentIsBefore(nodes: seq<Unit>, c: seq<Unit>, p: Unit)
    requires DistinctIds(nodes) && Chain(nodes, c) && p in nodes && ChildOf(p, c[|c| - 1])
    ensures |c| > 1 && c[|c| - 2] == p
  {
    LastIsRootIff(nodes, c);
    SameId(nodes, p, c[|c| - 2]);
  }

  /** The units of the nodes that grow from these siblings. */
  function Grown(compare: (string, string) -> int, nodes: seq<Unit>, trail: seq<Unit>, us: seq<Unit>): seq<Unit>
    requires DistinctIds(nodes) && Extend(nodes, trail, us)
  {
    Tops(Flatten(Grow(compare, nodes, trail, us, Names(trail))))
  }

  lemma {:induction false} GrownParts(compare: (string, string) -> int, nodes: seq<Unit>, trail: seq<Unit>,
                                      us: seq<Unit>)
    requires DistinctIds(nodes) && Extend(nodes, trail, us) && DistinctIds(us) && us != []
    ensures var here, below := trail + [us[0]], SortedChildren(compare, nodes, us[0]);
            && Chain(nodes, here) && |trail| < |nodes| && Extend(nodes, here, below) && DistinctIds(below)
            && Grown(compare, nodes, trail, us)
               == [us[0]] + Grown(compare, nodes, here, below) + Grown(compare, nodes, trail, us[1..])
  {
    var here, below := trail + [us[0]], SortedChildren(compare, nodes, us[0]);
    FlattenGrow(compare, nodes, trail, us, Names(trail));
    ChildrenHold(compare, nodes, us[0]);
    assert Names(here) == Names(trail) + [us[0].name];
    var first := First(compare, nodes, trail, us, Names(trail));
    TopsThree(first, Flatten(first.children), Flatten(Grow(compare, nodes, trail, us[1..], Names(trail))));
  }

  /** Where a grown unit's chain runs. */
  lemma {:induction false} GrownChain(compare: (string, string) -> int, nodes: seq<Unit>, trail: seq<Unit>,
                                      us: seq<Unit>, u: Unit)
    returns (c: seq<Unit>)
    requires DistinctIds(nodes) && Extend(nodes, trail, us) && u in Grown(compare, nodes, trail, us)
    ensures Chain(nodes, c) && c[|c| - 1] == u && |c| > |trail| && c[..|trail|] == trail && c[|trail|] in us
  {
    var ts := Flatten(Grow(compare, nodes, trail, us, Names(trail)));
    var k :| 0 <= k < |ts| && Tops(ts)[k] == u;
    c := FindChain(compare, nodes, trail, us, Names(trail), ts[k]);
  }

  /** A grown unit comes after its trail, and is none of the trail's units. */
  lemma {:induction false} NotOnTrail(compare: (string, string) -> int, nodes: seq<Unit>, trail: seq<Unit>,
                                      us: seq<Unit>, p: Unit)
    requires DistinctIds(nodes) && Extend(nodes, trail, us) && Chain(nodes, trail) && p == trail[|trail| - 1]
    ensures p !in Grown(compare, nodes, trail, us)
  {
    if p in Grown(compare, nodes, trail, us) {
      var c := GrownChain(compare, nodes, trail, us, p);
      ChainIsUnique(nodes, c, trail);
    }
  }

  /** What grows below the first sibling and from the others has no unit in common, nor with the first. */
  lemma {:induction false} PartsApart(compare: (string, string) -> int, nodes: seq<Unit>, trail: seq<Unit>,
                                      us: seq<Unit>, p: Unit)
    requires DistinctIds(nodes) && Extend(nodes, trail, us) && DistinctIds(us) && us != []
    requires Extend(nodes, trail + [us[0]], SortedChildren(compare, nodes, us[0]))
    ensures p in Grown(compare, nodes, trail + [us[0]], SortedChildren(compare, nodes, us[0])) ==>
              p !in Grown(compare, nodes, trail, us[1..]) && p != us[0]
    ensures p in Grown(compare, nodes, trail, us[1..]) ==> p != us[0]
  {
    var here, below := trail + [us[0]], SortedChildren(compare, nodes, us[0]);
    assert Chain(nodes, here) && here[|trail|] == us[0];
    NotOnTrail(compare, nodes, here, below, us[0]);
    if p in Grown(compare, nodes, trail, us[1..]) {
      var d := GrownChain(compare, nodes, trail, us[1..], p);
      if p == us[0] {
        ChainIsUnique(nodes, d, here);
      }
      if p in Grown(compare, nodes, here, below) {
        var c := GrownChain(compare, nodes, here, below, p);
        assert c[|trail|] == here[|trail|];
        ChainIsUnique(nodes, c, d);
      }
    }
  }

  /** A sibling's parent is the end of the trail and nothing else. */
  lemma {:induction false} SiblingParent(nodes: seq<Unit>, trail: seq<Unit>, u: Unit, p: Unit)
    requires DistinctIds(nodes) && Chain(nodes, trail + [u]) && p in nodes
    ensures ChildOf(p, u) <==> trail != [] && trail[|trail| - 1] == p
    ensures p == u ==> !(trail != [] && trail[|trail| - 1] == p)
  {
    var here := trail + [u];
    if ChildOf(p, u) {
      ParentIsBefore(nodes, here, p);
    }
    if trail != [] {
      assert ChildOf(here[|trail| - 1], here[|trail|]);
      ChainIsDistinct(nodes, here);
    }
  }

  lemma {:induction false} TrailIsAbove(compare: (string, string) -> int, nodes: seq<Unit>, trail: seq<Unit>, u: Unit,
                                        below: seq<Unit>, p: Unit)
    requires DistinctIds(nodes) && Chain(nodes, trail) && Chain(nodes, trail + [u]) && Extend(nodes, trail + [u], below)
    requires p == trail[|trail| - 1]
    ensures p !in Grown(compare, nodes, trail + [u], below) && p != u
  {
    var here := trail + [u];
    ChainIsDistinct(nodes, here);
    assert here[|trail| - 1] == p && here[|trail|] == u;
    if p in Grown(compare, nodes, here, below) {
      var c := GrownChain(compare, nodes, here, below, p);
      ChainIsUnique(nodes, c, trail);
    }
  }

  /** What is kept of a whole from what is kept of its parts. */
  lemma {:induction false} KeptOfParts(us: seq<Unit>, inner: seq<Unit>, rest: seq<Unit>, p: Unit, atTrail: bool,
                                       own: seq<Unit>)
    requires us != [] && (ChildOf(p, us[0]) <==> atTrail)
    requires Kept(inner, ChildTest(p)) == if p == us[0] || p in inner then own else []
    requires Kept(rest, ChildTest(p)) == if atTrail then us[1..] else if p in rest then own else []
    requires p in inner ==> p !in rest && p != us[0]
    requires p in rest ==> p != us[0]
    requires atTrail ==> p !in inner && p != us[0]
    ensures Kept([us[0]] + inner + rest, ChildTest(p))
            == if atTrail then us else if p in [us[0]] + inner + rest then own else []
  {
    KeptThree(us[0], inner, rest, ChildTest(p));
    if atTrail {
      assert [us[0]] + [] + us[1..] == us;
    }
  }

  predicate AtTrail(trail: seq<Unit>, p: Unit) {
    trail != [] && trail[|trail| - 1] == p
  }

  /**
    What is kept of a forest for a unit: its siblings where it is at the end of the trail, its own list where
    it is inside.
  */
  predicate KeepsOwn(units: seq<Unit>, p: Unit, atTrail: bool, us: seq<Unit>, own: seq<Unit>) {
    Kept(units, ChildTest(p)) == if atTrail then us else if p in units then own else []
  }

  lemma {:induction false} RestExtends(nodes: seq<Unit>, trail: seq<Unit>, us: seq<Unit>)
    requires Extend(nodes, trail, us) && DistinctIds(us) && us != []
    ensures Extend(nodes, trail, us[1..]) && DistinctIds(us[1..])
  {
    var rest := us[1..];
    forall i | 0 <= i < |rest| ensures Chain(nodes, trail + [rest[i]]) {
      assert rest[i] == us[i + 1];
    }
  }

  lemma {:induction false} GrownKeepsOwn(compare: (string, string) -> int, nodes: seq<Unit>, trail: seq<Unit>,
                                         us: seq<Unit>, p: Unit, units: seq<Unit>, own: seq<Unit>)
    requires DistinctIds(nodes) && Extend(nodes, trail, us) && DistinctIds(us) && p in nodes
    requires (trail != [] ==> Chain(nodes, trail)) && units == Grown(compare, nodes, trail, us)
    requires own == SortedChildren(compare, nodes, p)
    ensures KeepsOwn(units, p, AtTrail(trail, p), us, own)
    decreases |nodes| - |trail|, |us|
  {
    if us == [] {
      assert units == [];
    } else {
      RestExtends(nodes, trail, us);
      GrownParts(compare, nodes, trail, us);
      var here, below := trail + [us[0]], SortedChildren(compare, nodes, us[0]);
      var inner := Grown(compare, nodes, here, below);
      var rest := Grown(compare, nodes, trail, us[1..]);
      GrownKeepsOwn(compare, nodes, here, below, p, inner, own);
      GrownKeepsOwn(compare, nodes, trail, us[1..], p, rest, own);
      BelowAndRestKeepOwn(compare, nodes, trail, us, p, inner, rest, own);
    }
  }

  lemma {:induction false} BelowAndRestKeepOwn(compare: (string, string) -> int, nodes: seq<Unit>, trail: seq<Unit>,
                                               us: seq<Unit>, p: Unit, inner: seq<Unit>, rest: seq<Unit>,
                                               own: seq<Unit>)
    requires DistinctIds(nodes) && Extend(nodes, trail, us) && DistinctIds(us) && us != [] && p in nodes
    requires (trail != [] ==> Chain(nodes, trail)) && Extend(nodes, trail, us[1..])
    requires Extend(nodes, trail + [us[0]], SortedChildren(compare, nodes, us[0]))
    requires inner == Grown(compare, nodes, trail + [us[0]], SortedChildren(compare, nodes, us[0]))
    requires rest == Grown(compare, nodes, trail, us[1..]) && own == SortedChildren(compare, nodes, p)
    requires KeepsOwn(inner, p, AtTrail(trail + [us[0]], p), SortedChildren(compare, nodes, us[0]), own)
    requires KeepsOwn(rest, p, AtTrail(trail, p), us[1..], own)
    ensures KeepsOwn([us[0]] + inner + rest, p, AtTrail(trail, p), us, own)
  {
    BelowKeepsOwn(trail, us[0], p, inner, SortedChildren(compare, nodes, us[0]), own);
    JoinParts(compare, nodes, trail, us, p, inner, rest, own);
  }

  /** Below a unit: its own list if it is the one, or inside. */
  lemma {:induction false} BelowKeepsOwn(trail: seq<Unit>, first: Unit, p: Unit, inner: seq<Unit>, below: seq<Unit>,
                                         own: seq<Unit>)
    requires KeepsOwn(inner, p, AtTrail(trail + [first], p), below, own) && (p == first ==> below == own)
    ensures Kept(inner, ChildTest(p)) == if p == first || p in inner then own else []
  {
    assert (trail + [first])[|trail|] == first;
  }

  lemma {:induction false} JoinParts(compare: (string, string) -> int, nodes: seq<Unit>, trail: seq<Unit>,
                                     us: seq<Unit>, p: Unit, inner: seq<Unit>, rest: seq<Unit>, own: seq<Unit>)
    requires DistinctIds(nodes) && Extend(nodes, trail, us) && DistinctIds(us) && us != [] && p in nodes
    requires trail != [] ==> Chain(nodes, trail)
    requires Extend(nodes, trail + [us[0]], SortedChildren(compare, nodes, us[0]))
    requires inner == Grown(compare, nodes, trail + [us[0]], SortedChildren(compare, nodes, us[0]))
    requires rest == Grown(compare, nodes, trail, us[1..])
    requires Kept(inner, ChildTest(p)) == if p == us[0] || p in inner then own else []
    requires KeepsOwn(rest, p, AtTrail(trail, p), us[1..], own)
    ensures KeepsOwn([us[0]] + inner + rest, p, AtTrail(trail, p), us, own)
  {
    SiblingParent(nodes, trail, us[0], p);
    PartsApart(compare, nodes, trail, us, p);
    if AtTrail(trail, p) {
      TrailIsAbove(compare, nodes, trail, us[0], SortedChildren(compare, nodes, us[0]), p);
    }
    KeptOfParts(us, inner, rest, p, AtTrail(trail, p), own);
  }

  /** In a flattened forest the children of a unit stand in the order of its child list. */
  lemma {:induction false} ChildrenInOrder(compare: (string, string) -> int, nodes: seq<Unit>, trail: seq<Unit>,
                                           us: seq<Unit>, p: Unit, units: seq<Unit>)
    requires DistinctIds(nodes) && Extend(nodes, trail, us) && DistinctIds(us) && p in nodes
    requires (trail != [] ==> Chain(nodes, trail)) && units == Grown(compare, nodes, trail, us)
    ensures Kept(units, ChildTest(p))
            == if trail != [] && trail[|trail| - 1] == p then us
               else if p in units then SortedChildren(compare, nodes, p)
               else []
  {
    GrownKeepsOwn(compare, nodes, trail, us, p, units, SortedChildren(compare, nodes, p));
  }

  lemma {:induction false} NoRootsBelow(compare: (string, string) -> int, nodes: seq<Unit>, here: seq<Unit>,
                                        below: seq<Unit>, inner: seq<Unit>)
    requires DistinctIds(nodes) && here != [] && Extend(nodes, here, below)
             && inner == Grown(compare, nodes, here, below)
    ensures Kept(inner, RootTest(nodes)) == []
  {
    forall i | 0 <= i < |inner| ensures !RootTest(nodes)(inner[i]) {
      var c := GrownChain(compare, nodes, here, below, inner[i]);
      LastIsRootIff(nodes, c);
    }
    SelectNone(inner, |inner|, RootTest(nodes));
  }

  lemma {:induction false} KeptRoots(nodes: seq<Unit>, first: Unit, inner: seq<Unit>, rest: seq<Unit>)
    requires IsRoot(nodes, first) && Kept(inner, RootTest(nodes)) == []
    ensures Kept([first] + inner + rest, RootTest(nodes)) == [first] + Kept(rest, RootTest(nodes))
  {
    KeptThree(first, inner, rest, RootTest(nodes));
  }

  lemma {:induction false} OneRootMore(compare: (string, string) -> int, nodes: seq<Unit>, us: seq<Unit>,
                                       rest: seq<Unit>)
    requires DistinctIds(nodes) && Extend(nodes, [], us) && DistinctIds(us) && us != [] && Extend(nodes, [], us[1..])
    requires rest == Grown(compare, nodes, [], us[1..])
    ensures Kept(Grown(compare, nodes, [], us), RootTest(nodes)) == [us[0]] + Kept(rest, RootTest(nodes))
  {
    GrownParts(compare, nodes, [], us);
    var here, below := [] + [us[0]], SortedChildren(compare, nodes, us[0]);
    var inner := Grown(compare, nodes, here, below);
    NoRootsBelow(compare, nodes, here, below, inner);
    assert Chain(nodes, here) && here[0] == us[0];
    KeptRoots(nodes, us[0], inner, rest);
  }

  /** And the roots in the order of the roots. */
  lemma {:induction false} RootsInOrder(compare: (string, string) -> int, nodes: seq<Unit>, us: seq<Unit>)
    requires DistinctIds(nodes) && Extend(nodes, [], us) && DistinctIds(us)
    ensures Kept(Grown(compare, nodes, [], us), RootTest(nodes)) == us
    decreases |us|
  {
    if us != [] {
      var rest := us[1..];
      RestExtends(nodes, [], us);
      OneRootMore(compare, nodes, us, Grown(compare, nodes, [], rest));
      RootsInOrder(compare, nodes, rest);
      assert us == [us[0]] + rest;
    }
  }

  // The same forest again

  lemma {:induction false} SortedStays(compare: (string, string) -> int, us: seq<Unit>)
    requires InOrder(compare, us)
    ensures Sorted(compare, us) == us
  {
    if us != [] {
      SortedStays(compare, us[1..]);
    }
  }

  /** Two lists of units with the same roots and the same sorted children below them. */
  ghost predicate SameLists(compare: (string, string) -> int, nodes: seq<Unit>, again: seq<Unit>) {
    forall p :: p in again ==> SortedChildren(compare, again, p) == SortedChildren(compare, nodes, p)
  }

  lemma {:induction false} GrowsAgain(compare: (string, string) -> int, nodes: seq<Unit>, again: seq<Unit>,
                                      trail: seq<Unit>, us: seq<Unit>, path: seq<string>)
    requires DistinctIds(nodes) && DistinctIds(again) && SameLists(compare, nodes, again)
    requires Extend(nodes, trail, us) && Extend(again, trail, us)
    ensures Grow(compare, again, trail, us, path) == Grow(compare, nodes, trail, us, path)
    decreases |nodes| - |trail|, |us|
  {
    if us != [] {
      var here := trail + [us[0]];
      assert Chain(again, here) && here[|trail|] == us[0];
      ChainIsBounded(nodes, here);
      ChildrenExtend(compare, nodes, here);
      ChildrenExtend(compare, again, here);
      GrowsAgain(compare, nodes, again, here, SortedChildren(compare, nodes, us[0]), path + [us[0].name]);
      GrowsAgain(compare, nodes, again, trail, us[1..], path);
    }
  }

  /** The flattened forest, as grown from the sorted roots. */
  lemma {:induction false} ForestIsGrown(compare: (string, string) -> int, nodes: seq<Unit>, us: seq<Unit>)
    requires DistinctIds(nodes) && us == Sorted(compare, Roots(nodes))
    ensures Extend(nodes, [], us) && DistinctIds(us)
    ensures Tops(Flatten(Forest(compare, nodes))) == Grown(compare, nodes, [], us)
  {
    RootsHold(compare, nodes);
    assert Names([]) == [];
  }

  lemma {:induction false} GrownAreNodes(compare: (string, string) -> int, nodes: seq<Unit>, us: seq<Unit>,
                                         again: seq<Unit>)
    requires DistinctIds(nodes) && Extend(nodes, [], us) && again == Grown(compare, nodes, [], us)
    ensures forall p :: p in again ==> p in nodes
  {
    forall p | p in again ensures p in nodes {
      var c := GrownChain(compare, nodes, [], us, p);
    }
  }

  lemma {:induction false} SameChildren(compare: (string, string) -> int, nodes: seq<Unit>, us: seq<Unit>,
                                        again: seq<Unit>)
    requires DistinctIds(nodes) && Collates(compare) && Extend(nodes, [], us) && DistinctIds(us)
    requires again == Grown(compare, nodes, [], us)
    ensures SameLists(compare, nodes, again)
  {
    GrownAreNodes(compare, nodes, us, again);
    forall p | p in again ensures SortedChildren(compare, again, p) == SortedChildren(compare, nodes, p) {
      ChildrenInOrder(compare, nodes, [], us, p, again);
      SortedIsInOrder(compare, Children(nodes, p));
      SortedStays(compare, SortedChildren(compare, nodes, p));
    }
  }

  lemma {:induction false} SelectSame(us: seq<Unit>, n: nat, keep: Unit -> bool, keep': Unit -> bool)
    requires n <= |us| && forall i :: 0 <= i < n ==> keep(us[i]) == keep'(us[i])
    ensures Select(us, n, keep) == Select(us, n, keep')
  {
    if n > 0 {
      SelectSame(us, n - 1, keep, keep');
    }
  }

  lemma {:induction false} PlacedInAgain(compare: (string, string) -> int, nodes: seq<Unit>, again: seq<Unit>,
                                         c: seq<Unit>)
    requires DistinctIds(nodes) && again == Tops(Flatten(Forest(compare, nodes))) && Chain(nodes, c)
    ensures c[|c| - 1] in again
  {
    var flat := Flatten(Forest(compare, nodes));
    PlacedOnceIff(compare, nodes, c[|c| - 1]);
    var t :| t in flat && t.unit == c[|c| - 1];
    var k :| 0 <= k < |flat| && flat[k] == t;
    assert again[k] == c[|c| - 1];
  }

  /** A unit of the forest has a parent in it exactly when it has one at all. */
  lemma {:induction false} SameParents(compare: (string, string) -> int, nodes: seq<Unit>, us: seq<Unit>,
                                       again: seq<Unit>, u: Unit)
    requires DistinctIds(nodes) && Extend(nodes, [], us) && again == Grown(compare, nodes, [], us) && u in again
    requires again == Tops(Flatten(Forest(compare, nodes)))
    ensures IsRoot(again, u) <==> IsRoot(nodes, u)
  {
    GrownAreNodes(compare, nodes, us, again);
    if !IsRoot(nodes, u) {
      var c := GrownChain(compare, nodes, [], us, u);
      var p :| p in nodes && ChildOf(p, u);
      ParentIsBefore(nodes, c, p);
      PlacedInAgain(compare, nodes, again, c[..|c| - 1]);
    }
  }

  /** The units of the forest have the roots they had, in the order of the roots. */
  lemma {:induction false} SameRoots(compare: (string, string) -> int, nodes: seq<Unit>, us: seq<Unit>,
                                     again: seq<Unit>)
    requires DistinctIds(nodes) && Extend(nodes, [], us) && DistinctIds(us) && again == Grown(compare, nodes, [], us)
    requires again == Tops(Flatten(Forest(compare, nodes)))
    ensures Roots(again) == us
  {
    RootsInOrder(compare, nodes, us);
    forall i | 0 <= i < |again| ensures RootTest(again)(again[i]) == RootTest(nodes)(again[i]) {
      SameParents(compare, nodes, us, again, again[i]);
    }
    SelectSame(again, |again|, RootTest(again), RootTest(nodes));
  }

  lemma {:induction false} AgainIsDistinct(compare: (string, string) -> int, nodes: seq<Unit>, again: seq<Unit>)
    requires DistinctIds(nodes) && again == Tops(Flatten(Forest(compare, nodes)))
    ensures DistinctIds(again)
  {
    RootsHold(compare, nodes);
    GrowIsDistinct(compare, nodes, [], Sorted(compare, Roots(nodes)), []);
  }

  /** Main result: rebuilding a flattened forest gives the same forest, whatever circles the first input had. */
  lemma {:induction false} RebuildingChangesNothing(compare: (string, string) -> int, nodes: seq<Unit>,
                                                    again: seq<Unit>)
    requires DistinctIds(nodes) && Collates(compare) && again == Tops(Flatten(Forest(compare, nodes)))
    ensures DistinctIds(again)
    ensures Forest(compare, again) == Forest(compare, nodes)
  {
    var us := Sorted(compare, Roots(nodes));
    ForestIsGrown(compare, nodes, us);
    AgainIsDistinct(compare, nodes, again);
    SameChildren(compare, nodes, us, again);
    SameRoots(compare, nodes, us, again);
    SortedIsInOrder(compare, Roots(nodes));
    SortedStays(compare, us);
    RootsHold(compare, again);
    GrowsAgain(compare, nodes, again, [], us, []);
  }
}
