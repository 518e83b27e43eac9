/** Journeys derived from same-workflow pairs: connected components found with a work list. */
module Journeys {
  import opened Ordering
  import Text

  datatype Journey = Journey(key: string, steps: seq<string>, maxFragments: nat)

  type Graph = map<string, set<string>>

  // ----- The same-workflow graph

  function Neighbours(g: Graph, v: string): set<string> {
    if v in g then g[v] else {}
  }

  function AddEdge(g: Graph, left: string, right: string): Graph {
    var once := g[left := Neighbours(g, left) + {right}];
    once[right := Neighbours(once, right) + {left}]
  }

  function GraphOf(pairs: seq<(string, string)>): Graph {
    if pairs == [] then map[]
    else AddEdge(GraphOf(pairs[..|pairs| - 1]), pairs[|pairs| - 1].0, pairs[|pairs| - 1].1)
  }

  /** Edges go both ways and between vertices only. */
  ghost predicate Symmetric(g: Graph) {
    forall v, x :: v in g && x in g[v] ==> x in g && v in g[x]
  }

  lemma AddEdgeMeaning(g: Graph, left: string, right: string, x: string)
    ensures Neighbours(AddEdge(g, left, right), x)
         == Neighbours(g, x) + (if x == left then {right} else {}) + (if x == right then {left} else {})
  {
  }

  /** The graph has the labelled pairs as its edges, in both directions, and nothing else. */
  lemma {:induction false} GraphMeaning(pairs: seq<(string, string)>, x: string, y: string)
    ensures y in Neighbours(GraphOf(pairs), x) <==> (x, y) in pairs || (y, x) in pairs
  {
    if pairs != [] {
      var n := |pairs| - 1;
      GraphMeaning(pairs[..n], x, y);
      AddEdgeMeaning(GraphOf(pairs[..n]), pairs[n].0, pairs[n].1, x);
      assert pairs == pairs[..n] + [pairs[n]];
      assert pairs[n] == (pairs[n].0, pairs[n].1);
    }
  }

  lemma GraphIsSymmetric(pairs: seq<(string, string)>)
    ensures Symmetric(GraphOf(pairs))
  {
    var g := GraphOf(pairs);
    forall v, x | v in g && x in g[v] ensures x in g && v in g[x] {
      GraphMeaning(pairs, v, x);
      GraphMeaning(pairs, x, v);
      assert v in Neighbours(g, x);
    }
  }

  // ----- Reachability

  ghost predicate IsPath(g: Graph, p: seq<string>) {
    p != [] && forall i :: 0 <= i < |p| - 1 ==> p[i + 1] in Neighbours(g, p[i])
  }

  ghost predicate Connects(g: Graph, p: seq<string>, a: string, b: string) {
    IsPath(g, p) && p[0] == a && p[|p| - 1] == b
  }

  ghost predicate Reachable(g: Graph, a: string, b: string) {
    exists p :: Connects(g, p, a, b)
  }

  lemma ReachesItself(g: Graph, a: string)
    ensures Reachable(g, a, a)
  {
    assert Connects(g, [a], a, a);
  }

  lemma ReachesNext(g: Graph, a: string, b: string, c: string)
    requires Reachable(g, a, b) && c in Neighbours(g, b)
    ensures Reachable(g, a, c)
  {
    var p :| Connects(g, p, a, b);
    assert Connects(g, p + [c], a, c);
  }

  lemma ReachesThrough(g: Graph, a: string, b: string, c: string)
    requires Reachable(g, a, b) && Reachable(g, b, c)
    ensures Reachable(g, a, c)
  {
    var p :| Connects(g, p, a, b);
    var q :| Connects(g, q, b, c);
    var r := p + q[1..];
    forall i | 0 <= i < |r| - 1 ensures r[i + 1] in Neighbours(g, r[i]) {
      if i >= |p| - 1 {
        var k := i - (|p| - 1);
        assert r[i] == q[k] && r[i + 1] == q[k + 1];
      } else {
        assert r[i] == p[i] && r[i + 1] == p[i + 1];
      }
    }
    assert Connects(g, r, a, c);
  }

  lemma {:induction false} PathBack(g: Graph, p: seq<string>, a: string, b: string)
    requires Symmetric(g) && Connects(g, p, a, b)
    ensures Reachable(g, b, a)
    decreases |p|
  {
    if |p| == 1 {
      ReachesItself(g, a);
    } else {
      var c := p[1];
      assert c in Neighbours(g, p[0]);
      forall i | 0 <= i < |p[1..]| - 1 ensures p[1..][i + 1] in Neighbours(g, p[1..][i]) {
        assert p[i + 2] in Neighbours(g, p[i + 1]);
      }
      PathBack(g, p[1..], c, b);
      ReachesNext(g, b, c, a);
    }
  }

  lemma ReachesBack(g: Graph, a: string, b: string)
    requires Symmetric(g) && Reachable(g, a, b)
    ensures Reachable(g, b, a)
  {
    var p :| Connects(g, p, a, b);
    PathBack(g, p, a, b);
  }

  /** A set closed under the edges cannot be left. */
  ghost predicate Closed(g: Graph, s: set<string>) {
    forall v, x :: v in s && x in Neighbours(g, v) ==> x in s
  }

  lemma {:induction false} ClosedPath(g: Graph, s: set<string>, p: seq<string>)
    requires Closed(g, s) && IsPath(g, p) && p[0] in s
    ensures p[|p| - 1] in s
    decreases |p|
  {
    if |p| > 1 {
      assert p[1] in Neighbours(g, p[0]);
      forall i | 0 <= i < |p[1..]| - 1 ensures p[1..][i + 1] in Neighbours(g, p[1..][i]) {
        assert p[i + 2] in Neighbours(g, p[i + 1]);
      }
      ClosedPath(g, s, p[1..]);
    }
  }

  lemma ClosedKeeps(g: Graph, s: set<string>, a: string, b: string)
    requires Closed(g, s) && a in s && Reachable(g, a, b)
    ensures b in s
  {
    var p :| Connects(g, p, a, b);
    ClosedPath(g, s, p);
  }

  /** The connected component of a vertex. */
  ghost function Component(g: Graph, v: string): set<string> {
    set x | x in g && Reachable(g, v, x)
  }

  /** Components of two vertices are the same or have nothing in common. */
  lemma ComponentsPartition(g: Graph, v: string, x: string)
    requires Symmetric(g) && x in Component(g, v)
    ensures Component(g, x) == Component(g, v)
  {
    ReachesBack(g, v, x);
    forall y | y in g ensures Reachable(g, v, y) <==> Reachable(g, x, y) {
      if Reachable(g, v, y) { ReachesThrough(g, x, v, y); }
      if Reachable(g, x, y) { ReachesThrough(g, v, x, y); }
    }
  }

  // ----- The work list

  method Explore(g: Graph, start: string) returns (component: set<string>)
    requires Symmetric(g) && start in g
    ensures component == Component(g, start)
    ensures Closed(g, component)
  {
    component := {};
    var pending := [start];
    ReachesItself(g, start);
    while pending != []
      invariant start in component || start in pending
      invariant forall x :: x in component || x in pending ==> x in g && Reachable(g, start, x)
      invariant forall v, x :: v in component && x in Neighbours(g, v) ==> x in component || x in pending
      decreases g.Keys - component, |pending|
    {
      var current := pending[|pending| - 1];
      ghost var was := pending;
      pending := pending[..|pending| - 1];
      assert was == pending + [current];
      if current !in component {
        component := component + {current};
        var next := SortSet(Neighbours(g, current) - component);
        forall x | x in next ensures x in g && Reachable(g, start, x) {
          ReachesNext(g, start, current, x);
        }
        pending := pending + next;
      }
    }
    forall x | x in Component(g, start) ensures x in component {
      ClosedKeeps(g, component, start, x);
    }
  }

  // ----- Deriving journeys

  function Joined(steps: seq<string>): string {
    if steps == [] then "" else if |steps| == 1 then steps[0] else steps[0] + "|" + Joined(steps[1..])
  }

  /** A derived journey lists one component of at least two vertices in order. */
  ghost predicate Derived(g: Graph, j: Journey) {
    && |j.steps| >= 2 && j.steps[0] in g
    && IsSortedList(j.steps, Component(g, j.steps[0]))
    && j.key == "derived:" + Joined(j.steps) && j.maxFragments == 1
  }

  /** The journeys are exactly the components of at least two vertices, by least vertex. */
  ghost predicate AreComponents(g: Graph, journeys: seq<Journey>) {
    && (forall i :: 0 <= i < |journeys| ==> Derived(g, journeys[i]))
    && (forall i, j :: 0 <= i < j < |journeys| ==> StringLess(journeys[i].steps[0], journeys[j].steps[0]))
    && (forall v :: v in g && |Component(g, v)| >= 2 ==> exists i :: 0 <= i < |journeys| && v in journeys[i].steps)
  }

  ghost predicate Visited(g: Graph, order: seq<string>, k: nat, seen: set<string>)
    requires k <= |order|
  {
    seen <= g.Keys && Closed(g, seen) && forall i :: 0 <= i < k ==> order[i] in seen
  }

  ghost predicate Headed(g: Graph, order: seq<string>, k: nat, journeys: seq<Journey>)
    requires k <= |order|
  {
    && (forall i :: 0 <= i < |journeys| ==> Derived(g, journeys[i]) && journeys[i].steps[0] in order[..k])
    && (forall i, j :: 0 <= i < j < |journeys| ==> StringLess(journeys[i].steps[0], journeys[j].steps[0]))
  }

  ghost predicate Covers(g: Graph, seen: set<string>, journeys: seq<Journey>) {
    forall v :: v in seen && |Component(g, v)| >= 2 ==> exists i :: 0 <= i < |journeys| && v in journeys[i].steps
  }

  /** Progress of the outer loop: the vertices before position k are dealt with. */
  ghost predicate Progress(g: Graph, order: seq<string>, k: nat, seen: set<string>, journeys: seq<Journey>)
    requires k <= |order|
  {
    Visited(g, order, k, seen) && Headed(g, order, k, journeys) && Covers(g, seen, journeys)
  }

  method ExpectedJourneys(expected: seq<Journey>, sameWorkflow: seq<(string, string)>) returns (journeys: seq<Journey>)
    ensures expected != [] ==> journeys == expected
    ensures expected == [] ==> AreComponents(GraphOf(sameWorkflow), journeys)
  {
    if expected != [] { return expected; }
    var g: Graph := map[];
    for i := 0 to |sameWorkflow|
      invariant g == GraphOf(sameWorkflow[..i])
    {
      assert sameWorkflow[..i + 1][..i] == sameWorkflow[..i];
      g := g[sameWorkflow[i].0 := Neighbours(g, sameWorkflow[i].0) + {sameWorkflow[i].1}];
      g := g[sameWorkflow[i].1 := Neighbours(g, sameWorkflow[i].1) + {sameWorkflow[i].0}];
    }
    assert sameWorkflow[..|sameWorkflow|] == sameWorkflow;
    GraphIsSymmetric(sameWorkflow);
    journeys := DeriveJourneys(g);
  }

  method DeriveJourneys(g: Graph) returns (journeys: seq<Journey>)
    requires Symmetric(g)
    ensures AreComponents(g, journeys)
  {
    hide *;
    journeys := [];
    var seen: set<string> := {};
    var order := SortSet(g.Keys);
    NoProgressYet(g, order);
    for k := 0 to |order|
      invariant Progress(g, order, k, seen, journeys)
    {
      if order[k] in seen {
        SkipSeen(g, order, k, seen, journeys);
      } else {
        OrderLists(g, order, k);
        var component := Explore(g, order[k]);
        var steps := SortSet(component);
        TakeComponent(g, order, k, seen, journeys, steps);
        journeys := WithJourney(journeys, steps);
        seen := seen + component;
      }
    }
    AllDone(g, order, seen, journeys);
  }

  lemma OrderLists(g: Graph, order: seq<string>, k: nat)
    requires IsSortedList(order, g.Keys) && k < |order|
    ensures order[k] in g
  {
    assert order[k] in order;
  }

  lemma NoProgressYet(g: Graph, order: seq<string>)
    ensures Progress(g, order, 0, {}, [])
  {
  }

  lemma SkipSeen(g: Graph, order: seq<string>, k: nat, seen: set<string>, journeys: seq<Journey>)
    requires k < |order| && Progress(g, order, k, seen, journeys) && order[k] in seen
    ensures Progress(g, order, k + 1, seen, journeys)
  {
    assert order[..k + 1] == order[..k] + [order[k]];
  }

  lemma AllDone(g: Graph, order: seq<string>, seen: set<string>, journeys: seq<Journey>)
    requires IsSortedList(order, g.Keys) && Progress(g, order, |order|, seen, journeys)
    ensures AreComponents(g, journeys)
  {
    forall v | v in g ensures v in seen {
      assert v in order;
    }
  }

  /** The start vertex is the least of its component, so it heads the sorted steps. */
  lemma StartIsLeast(g: Graph, order: seq<string>, k: nat, seen: set<string>, steps: seq<string>)
    requires Symmetric(g) && IsSortedList(order, g.Keys) && k < |order| && order[k] !in seen
    requires Closed(g, seen) && forall i :: 0 <= i < k ==> order[i] in seen
    requires IsSortedList(steps, Component(g, order[k]))
    ensures steps != [] && steps[0] == order[k]
    ensures forall x :: x in steps ==> x !in seen
  {
    var start := order[k];
    ReachesItself(g, start);
    assert start in order;
    assert start in steps;
    forall x | x in steps ensures x !in seen && !StringLess(x, start) {
      if x in seen {
        ReachesBack(g, start, x);
        ClosedKeeps(g, seen, x, start);
      }
      assert x in order;
      var i :| 0 <= i < |order| && order[i] == x;
      StringTotal(x, start);
    }
    var j :| 0 <= j < |steps| && steps[j] == start;
    assert steps[0] in steps;
  }

  function WithJourney(journeys: seq<Journey>, steps: seq<string>): seq<Journey> {
    if |steps| >= 2 then journeys + [Journey("derived:" + Joined(steps), steps, 1)] else journeys
  }

  lemma TakeComponent(g: Graph, order: seq<string>, k: nat, seen: set<string>, journeys: seq<Journey>,
      steps: seq<string>)
    requires Symmetric(g) && IsSortedList(order, g.Keys) && k < |order| && order[k] !in seen
    requires Progress(g, order, k, seen, journeys)
    requires IsSortedList(steps, Component(g, order[k])) && Closed(g, Component(g, order[k]))
    ensures Progress(g, order, k + 1, seen + Component(g, order[k]), WithJourney(journeys, steps))
  {
    StartIsLeast(g, order, k, seen, steps);
    assert order[k] in steps;
    OrderLists(g, order, k);
    ComponentInGraph(g, order[k]);
    assert Visited(g, order, k + 1, seen + Component(g, order[k])) by {
      hide Component, IsSortedList, Symmetric, Headed, Covers;
    }
    assert Headed(g, order, k + 1, WithJourney(journeys, steps)) by {
      hide Symmetric, Closed, Covers, Visited;
      NewHead(g, order, k, journeys, steps);
    }
    assert Covers(g, seen + Component(g, order[k]), WithJourney(journeys, steps)) by {
      hide Headed, Visited, Closed;
      Covered(g, seen, journeys, steps, order[k]);
    }
  }

  lemma NewHead(g: Graph, order: seq<string>, k: nat, journeys: seq<Journey>, steps: seq<string>)
    requires IsSortedList(order, g.Keys) && k < |order| && Headed(g, order, k, journeys)
    requires IsSortedList(steps, Component(g, order[k])) && steps != [] && steps[0] == order[k]
    ensures Headed(g, order, k + 1, WithJourney(journeys, steps))
  {
    OrderLists(g, order, k);
    assert order[..k + 1] == order[..k] + [order[k]];
    HeadsAscend(order, g.Keys, k, journeys, order[k]);
    hide Component, StringLess, Joined, IsSortedList;
  }

  /** Every large component met so far is listed, the new one included. */
  lemma Covered(g: Graph, seen: set<string>, journeys: seq<Journey>, steps: seq<string>, start: string)
    requires Symmetric(g) && IsSortedList(steps, Component(g, start)) && Covers(g, seen, journeys)
    ensures Covers(g, seen + Component(g, start), WithJourney(journeys, steps))
  {
    var component, more := Component(g, start), WithJourney(journeys, steps);
    hide Reachable, StringLess, Joined;
    SortedCardinality(steps, component);
    forall v | v in seen + component && |Component(g, v)| >= 2
        ensures exists i :: 0 <= i < |more| && v in more[i].steps {
      if v in seen {
        var i :| 0 <= i < |journeys| && v in journeys[i].steps;
        assert more[i] == journeys[i];
      } else {
        ComponentsPartition(g, start, v);
        assert v in more[|journeys|].steps;
      }
    }
  }

  lemma ComponentInGraph(g: Graph, v: string)
    ensures Component(g, v) <= g.Keys
  {
  }

  lemma HeadsAscend(order: seq<string>, vertices: set<string>, k: nat, journeys: seq<Journey>, start: string)
    requires IsSortedList(order, vertices) && k < |order| && order[k] == start
    requires forall i :: 0 <= i < |journeys| ==> journeys[i].steps != [] && journeys[i].steps[0] in order[..k]
    ensures forall i :: 0 <= i < |journeys| ==> StringLess(journeys[i].steps[0], start)
  {
  }

  lemma SortedCardinality(xs: seq<string>, s: set<string>)
    requires IsSortedList(xs, s)
    ensures |xs| == |s|
  {
    forall i, k | 0 <= i < k < |xs| ensures xs[i] != xs[k] {
      StringTotal(xs[i], xs[k]);
    }
    DistinctCardinality(xs, s);
  }

  // ----- What the components mean

  /** Steps of one journey reach each other. */
  lemma StepsReachEachOther(g: Graph, journeys: seq<Journey>, i: nat, x: string, y: string)
    requires Symmetric(g) && AreComponents(g, journeys) && i < |journeys|
    requires x in journeys[i].steps && y in journeys[i].steps
    ensures Reachable(g, x, y)
  {
    var head := journeys[i].steps[0];
    assert Derived(g, journeys[i]);
    ReachesBack(g, head, x);
    ReachesThrough(g, x, head, y);
  }

  /** No path leads from one journey to another; in particular they share no vertex. */
  lemma JourneysAreApart(g: Graph, journeys: seq<Journey>, i: nat, j: nat, x: string, y: string)
    requires Symmetric(g) && AreComponents(g, journeys) && i < j < |journeys|
    requires x in journeys[i].steps && y in journeys[j].steps
    ensures !Reachable(g, x, y) && x != y
  {
    var a, b := journeys[i].steps[0], journeys[j].steps[0];
    assert Derived(g, journeys[i]) && Derived(g, journeys[j]);
    StringTotal(a, b);
    ComponentsPartition(g, a, x);
    ComponentsPartition(g, b, y);
    ReachesItself(g, x);
    if Reachable(g, x, y) {
      ComponentsPartition(g, x, y);
      LeastIsUnique(journeys[i].steps, journeys[j].steps, Component(g, x));
    }
  }

  lemma LeastIsUnique(xs: seq<string>, ys: seq<string>, s: set<string>)
    requires IsSortedList(xs, s) && IsSortedList(ys, s) && xs != [] && ys != []
    ensures xs[0] == ys[0]
  {
    assert xs[0] in xs && ys[0] in ys;
    StringTotal(xs[0], ys[0]);
    var i :| 0 <= i < |ys| && ys[i] == xs[0];
    var j :| 0 <= j < |xs| && xs[j] == ys[0];
  }

  lemma {:induction false} NeighbourOnPath(g: Graph, p: seq<string>, v: string, y: string)
    requires Connects(g, p, v, y) && v != y
    ensures exists x :: x in Neighbours(g, v) && x != v
    decreases |p|
  {
    assert p[1] in Neighbours(g, p[0]);
    if p[1] == v {
      forall i | 0 <= i < |p[1..]| - 1 ensures p[1..][i + 1] in Neighbours(g, p[1..][i]) {
        assert p[i + 2] in Neighbours(g, p[i + 1]);
      }
      NeighbourOnPath(g, p[1..], v, y);
    }
  }

  lemma JourneyHasNeighbour(g: Graph, journeys: seq<Journey>, i: nat, v: string)
    requires Symmetric(g) && AreComponents(g, journeys) && i < |journeys| && v in journeys[i].steps
    ensures exists x :: x in Neighbours(g, v) && x != v
  {
    var steps := journeys[i].steps;
    assert Derived(g, journeys[i]);
    StringTotal(steps[0], steps[1]);
    var y := if steps[0] != v then steps[0] else steps[1];
    assert y in steps;
    StepsReachEachOther(g, journeys, i, v, y);
    var p :| Connects(g, p, v, y);
    NeighbourOnPath(g, p, v, y);
  }

  /** A vertex is left out exactly when it is only ever paired with itself. */
  lemma LeftOutIffAlone(g: Graph, journeys: seq<Journey>, v: string)
    requires Symmetric(g) && AreComponents(g, journeys) && v in g
    ensures (exists i :: 0 <= i < |journeys| && v in journeys[i].steps) <==> exists x :: x in Neighbours(g, v) && x != v
  {
    ReachesItself(g, v);
    if x :| x in Neighbours(g, v) && x != v {
      ReachesNext(g, v, v, x);
      assert {v, x} <= Component(g, v);
      CardinalityAtLeast(Component(g, v), v, x);
    }
    if i :| 0 <= i < |journeys| && v in journeys[i].steps {
      JourneyHasNeighbour(g, journeys, i, v);
    }
  }

  lemma CardinalityAtLeast(s: set<string>, v: string, x: string)
    requires {v, x} <= s && v != x
    ensures |s| >= 2
  {
    assert |s - {v}| == |s| - 1;
    assert x in s - {v};
  }

  // ----- Keys

  /** The key of a derived journey spells its steps: splitting what follows the prefix at the bars gives
      them back, when no step contains a bar. */
  lemma KeySpellsSteps(g: Graph, j: Journey)
    requires Derived(g, j) && forall s :: s in j.steps ==> '|' !in s
    ensures "derived:" <= j.key && Text.Split(j.key[8..], '|') == j.steps && j.maxFragments == 1
  {
    assert j.key[8..] == Joined(j.steps);
    JoinedSplits(j.steps);
  }

  lemma {:induction false} JoinedSplits(steps: seq<string>)
    requires steps != [] && forall s :: s in steps ==> '|' !in s
    ensures Text.Split(Joined(steps), '|') == steps
  {
    assert steps[0] in steps;
    if |steps| == 1 {
      Text.SplitToken(steps[0], [], '|');
    } else {
      JoinedSplits(steps[1..]);
      Text.SplitToken(steps[0], Joined(steps[1..]), '|');
      assert steps[0] + "|" + Joined(steps[1..]) == steps[0] + ['|'] + Joined(steps[1..]);
    }
  }
}
