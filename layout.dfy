/**
 * `optimizeWorkflowLayout` (lib/workflow-ai.ts:512-574): place the graph
 * reachable from the LAUNCH_BROWSER node as a tree, depth first, each level
 * 300 below its parent and siblings 400 apart, then put every node the walk
 * did not reach in a row at y = 600. Without an entry node the nodes are put
 * in one row at y = 0.
 *
 * The walk keeps its state in a closure (`nodeMap`, `processedNodes`,
 * `visited`); here that state is the `Positioner` class. A JavaScript `Map`
 * or `Set` finds a primitive key by value and an object key only by its
 * reference; since two values of the model are never the same reference,
 * only primitive ids are kept in the map and the visited set.
 */
module Layout {
  import opened Wrappers
  import opened Js
  import opened Graph

  /** A value a `Map` or `Set` finds again by value. */
  predicate IsPrimitive(v: Value) {
    !v.Arr? && !v.Obj?
  }

  /** `{ x, y }`. */
  function Point(x: int, y: int): Value {
    Obj([Field("x", Num(x)), Field("y", Num(y))])
  }

  /** `{ ...node, position: { x, y } }`: spreading one field is assigning it. */
  function Placed(node: Value, x: int, y: int): Value {
    Obj(Assign(OwnFields(node), "position", Point(x, y)))
  }

  /** A placed node has the new position and keeps every other field of the node. */
  lemma PlacedReads(node: Value, x: int, y: int, k: string)
    ensures Get(Placed(node, x, y), k) == if k == "position" then Point(x, y) else Lookup(OwnFields(node), k)
  {
    AssignLookup(OwnFields(node), "position", Point(x, y), k);
  }

  /** `ns[i]` placed at `spots[i]`, for each `i`. */
  function PlaceAll(ns: seq<Value>, spots: seq<(int, int)>): (r: seq<Value>)
    requires |ns| == |spots|
    ensures |r| == |ns|
  {
    if ns == [] then []
    else
      var k := |ns| - 1;
      PlaceAll(ns[..k], spots[..k]) + [Placed(ns[k], spots[k].0, spots[k].1)]
  }

  /** The `k`-th placed node is `ns[k]` at `spots[k]`. */
  lemma {:induction false} PlaceAllAt(ns: seq<Value>, spots: seq<(int, int)>, k: nat)
    requires |ns| == |spots| && k < |ns|
    ensures PlaceAll(ns, spots)[k] == Placed(ns[k], spots[k].0, spots[k].1)
    decreases |ns|
  {
    if k < |ns| - 1 {
      var n := |ns| - 1;
      PlaceAllAt(ns[..n], spots[..n], k);
    }
  }

  /** The id a node is filed under, read as `node.id` once the node is known to be readable. */
  function IdOf(node: Value): Value {
    OptGet(node, "id")
  }

  /**
   * `new Map(nodes.map(node => [node.id, node]))`: every primitive id is a
   * key, mapped to a node that carries it (the last one).
   */
  function NodeMap(nodes: seq<Value>): (m: map<Value, Value>)
    ensures forall k :: k in m ==> IsPrimitive(k) && m[k] in nodes && IdOf(m[k]) == k
    ensures forall i :: 0 <= i < |nodes| && IsPrimitive(IdOf(nodes[i])) ==> IdOf(nodes[i]) in m
    decreases |nodes|
  {
    if nodes == [] then map[]
    else
      var init := nodes[..|nodes| - 1];
      var last := nodes[|nodes| - 1];
      assert nodes == init + [last];
      var m := NodeMap(init);
      if IsPrimitive(IdOf(last)) then m[IdOf(last) := last] else m
  }

  predicate AllReadable(nodes: seq<Value>) {
    forall i :: 0 <= i < |nodes| ==> !Nullish(nodes[i])
  }

  /**
   * `nodes.find(node => node.data.type === TaskType.LAUNCH_BROWSER)`: the
   * index of the first entry node, or the TypeError of an unreadable node met
   * before it.
   */
  function FindEntry(nodes: seq<Value>): (r: Result<Option<nat>, Thrown>)
    ensures r.Ok? <==> HasEntryPoint(nodes).Ok?
    ensures r.Ok? ==> (r.value.Some? <==> HasEntryPoint(nodes) == Ok(true))
    ensures r.Ok? && r.value.Some? ==> r.value.value < |nodes| && ReadType(nodes[r.value.value]) == Ok(Str(LaunchBrowser))
    ensures r.Ok? && r.value.Some? ==> forall j :: 0 <= j < r.value.value ==> ReadType(nodes[j]).Ok? && ReadType(nodes[j]) != Ok(Str(LaunchBrowser))
  {
    if nodes == [] then Ok(None)
    else match ReadType(nodes[0])
      case Err(e) => Err(e)
      case Ok(t) =>
        if StrictEq(t, Str(LaunchBrowser)) then Ok(Some(0))
        else
          var r := FindEntry(nodes[1..]);
          assert forall i :: 1 <= i < |nodes| ==> nodes[i] == nodes[1..][i - 1];
          match r
          case Err(e) => Err(e)
          case Ok(None) => Ok(None)
          case Ok(Some(i)) => Ok(Some(i + 1))
  }

  /** No edge of `edges` is `null` or `undefined`. */
  predicate EdgesReadable(edges: seq<Value>) {
    forall i :: 0 <= i < |edges| ==> !Nullish(edges[i])
  }

  /**
   * `edges.filter(edge => edge.source === nodeId)`, which throws at the
   * first edge whose `source` cannot be read.
   */
  function ChildEdges(edges: seq<Value>, nodeId: Value): (r: Result<seq<Value>, Thrown>)
    ensures r.Ok? <==> EdgesReadable(edges)
    ensures r.Ok? ==> forall e :: e in r.value ==> e in edges && !Nullish(e) && StrictEq(Get(e, "source"), nodeId)
    ensures r.Ok? ==> forall i :: 0 <= i < |edges| && StrictEq(Get(edges[i], "source"), nodeId) ==> edges[i] in r.value
  {
    if edges == [] then Ok([])
    else if Nullish(edges[0]) then Err(ReadError(edges[0], "source"))
    else
      var rest := ChildEdges(edges[1..], nodeId);
      assert forall i :: 1 <= i < |edges| ==> edges[i] == edges[1..][i - 1];
      match rest
      case Err(e) => Err(e)
      case Ok(children) =>
        Ok(if StrictEq(Get(edges[0], "source"), nodeId) then [edges[0]] + children else children)
  }

  /** `Math.max(a, b)`. */
  function Max(a: int, b: int): (r: int)
    ensures r >= a && r >= b && (r == a || r == b)
  {
    if a < b then b else a
  }

  /** `ns` in one row at height `y`, 400 apart from x = 0. */
  function Row(ns: seq<Value>, y: int): (r: seq<Value>)
    ensures |r| == |ns|
    decreases |ns|
  {
    if ns == [] then [] else Row(ns[..|ns| - 1], y) + [Placed(ns[|ns| - 1], (|ns| - 1) * 400, y)]
  }

  /** Placing one more node extends the walk by that node. */
  lemma WalkAppend(placed: seq<Value>, sources: seq<Value>, spots: seq<(int, int)>, n: Value, x: int, y: int)
    requires |sources| == |spots| == |placed| && placed[..|sources|] == PlaceAll(sources, spots)
    ensures (placed + [Placed(n, x, y)])[..|sources| + 1] == PlaceAll(sources + [n], spots + [(x, y)])
  {
    assert (sources + [n])[..|sources|] == sources && (spots + [(x, y)])[..|spots|] == spots;
    assert placed[..|sources|] == placed;
  }

  /** A sequence that extends `a` agrees with `a` up to `n`. */
  lemma KeepPrefix(a: seq<Value>, b: seq<Value>, n: nat)
    requires n <= |a| <= |b| && b[..|a|] == a
    ensures b[..n] == a[..n]
  {
    assert b[..n] == b[..|a|][..n];
  }

  /** The `j`-th node of a row is at x = 400 j. */
  lemma {:induction false} RowAt(ns: seq<Value>, y: int, j: nat)
    requires j < |ns|
    ensures Row(ns, y)[j] == Placed(ns[j], j * 400, y)
    decreases |ns|
  {
    if j < |ns| - 1 {
      RowAt(ns[..|ns| - 1], y, j);
    }
  }

  /** The nodes whose id the walk did not visit, in their order. */
  function Unvisited(nodes: seq<Value>, visited: set<Value>): (r: seq<Value>)
    ensures |r| <= |nodes|
    decreases |nodes|
  {
    if nodes == [] then []
    else
      var last := nodes[|nodes| - 1];
      Unvisited(nodes[..|nodes| - 1], visited) + (if IdOf(last) in visited then [] else [last])
  }

  lemma {:induction false} SubsetCard<T>(a: set<T>, b: set<T>)
    requires a <= b
    ensures |a| <= |b|
    decreases |a|
  {
    if a != {} {
      var x :| x in a;
      SubsetCard(a - {x}, b - {x});
    }
  }

  /** Visiting one more key leaves fewer keys to visit. */
  lemma FewerLeft(keys: set<Value>, before: set<Value>, after: set<Value>, k: Value)
    requires before <= after && k in keys && k !in before && k in after
    ensures |keys - after| < |keys - before|
  {
    SubsetCard(keys - after, keys - before - {k});
  }

  /** The walk's state: the visited ids, and the map entry behind each placed node with where it was placed. */
  datatype Walked = Walked(visited: set<Value>, sources: seq<Value>, spots: seq<(int, int)>)

  /** `edge.target`. */
  function Target(edge: Value): Value {
    OptGet(edge, "target")
  }

  /**
   * `positionNodeAndChildren(id, x, y)` on the walk state `w`: the new state
   * and the lowest y used, or the exception of an edge whose source cannot
   * be read. A visited or unknown id changes nothing; otherwise the node is
   * placed at (x, y), then its children are walked from y + 300 on.
   */
  function Walk(nodeMap: map<Value, Value>, edges: seq<Value>, w: Walked, id: Value, x: int, y: int): (r: (Walked, Result<int, Thrown>))
    requires w.visited <= nodeMap.Keys
    ensures w.visited <= r.0.visited <= nodeMap.Keys
    ensures |r.0.sources| - |w.sources| == |r.0.spots| - |w.spots|
    ensures EdgesReadable(edges) ==> r.1.Ok?
    decreases |nodeMap.Keys - w.visited|, 1
  {
    if id in w.visited || id !in nodeMap then (w, Ok(y))
    else
      var placed := Walked(w.visited + {id}, w.sources + [nodeMap[id]], w.spots + [(x, y)]);
      match ChildEdges(edges, id)
      case Err(e) => (placed, Err(e))
      case Ok(kids) =>
        FewerLeft(nodeMap.Keys, w.visited, placed.visited, id);
        var (after, bottom) := Children(nodeMap, edges, placed, kids, 0, x, y + 300);
        (after, Ok(Max(y, bottom)))
  }

  /**
   * The `forEach` over the child edges from the `i`-th on: the child of edge
   * `i` is walked at x + 400 i and at the lowest y used so far, which then
   * becomes the larger of the two.
   */
  function Children(nodeMap: map<Value, Value>, edges: seq<Value>, w: Walked, kids: seq<Value>, i: nat, x: int, cy: int): (r: (Walked, int))
    requires w.visited <= nodeMap.Keys && EdgesReadable(edges) && i <= |kids|
    ensures w.visited <= r.0.visited <= nodeMap.Keys
    ensures |r.0.sources| - |w.sources| == |r.0.spots| - |w.spots|
    ensures cy <= r.1
    decreases |nodeMap.Keys - w.visited|, 2, |kids| - i
  {
    if i == |kids| then (w, cy)
    else
      var (next, below) := Walk(nodeMap, edges, w, Target(kids[i]), x + i * 400, cy);
      SubsetCard(nodeMap.Keys - next.visited, nodeMap.Keys - w.visited);
      Children(nodeMap, edges, next, kids, i + 1, x, Max(cy, below.value))
  }

  /** One turn of the `forEach`: the child `id` of edge `i` is walked at `cx`, then the edges after it. */
  lemma ChildrenStep(nodeMap: map<Value, Value>, edges: seq<Value>, w: Walked, kids: seq<Value>, i: nat, x: int, cy: int, id: Value, cx: int)
    requires w.visited <= nodeMap.Keys && EdgesReadable(edges) && i < |kids|
    requires id == Target(kids[i]) && cx == x + i * 400
    ensures var r := Walk(nodeMap, edges, w, id, cx, cy);
            Children(nodeMap, edges, w, kids, i, x, cy) == Children(nodeMap, edges, r.0, kids, i + 1, x, Max(cy, r.1.value))
  {
  }

  /**
   * `t` continues the walk `w`: what was placed stays in place, and each
   * newly visited id accounts for one newly placed node.
   */
  predicate Extends(w: Walked, t: Walked) {
    && |w.sources| <= |t.sources| == |t.spots|
    && t.sources[..|w.sources|] == w.sources && t.spots[..|w.sources|] == w.spots
    && w.visited <= t.visited
    && |t.visited| - |w.visited| == |t.sources| - |w.sources|
  }

  /** Every spot of `t` from the `from`-th on is at `x` or to its right, and between the heights `lo` and `hi`. */
  predicate Within(t: Walked, from: nat, x: int, lo: int, hi: int) {
    forall k :: from <= k < |t.spots| ==> x <= t.spots[k].0 && lo <= t.spots[k].1 <= hi
  }

  lemma ExtendsTrans(a: Walked, b: Walked, c: Walked)
    requires |a.sources| == |a.spots| && Extends(a, b) && Extends(b, c)
    ensures Extends(a, c)
  {
    assert c.sources[..|a.sources|] == c.sources[..|b.sources|][..|a.sources|];
    assert c.spots[..|a.sources|] == c.spots[..|b.sources|][..|a.sources|];
  }

  /**
   * The tree the walk lays out from the node `id` at (x, y): what was placed
   * before stays, one node is placed per newly visited id, and when the node
   * is new it comes first, at (x, y), with everything placed under it at or
   * to the right of x and at least one level (300) lower. The y the walk
   * returns is the lowest y it used.
   */
  lemma {:induction false} WalkShape(nodeMap: map<Value, Value>, edges: seq<Value>, w: Walked, id: Value, x: int, y: int)
    requires w.visited <= nodeMap.Keys && |w.sources| == |w.spots|
    ensures var r := Walk(nodeMap, edges, w, id, x, y);
            && Extends(w, r.0)
            && (r.1.Ok? ==> y <= r.1.value && Within(r.0, |w.spots|, x, y, r.1.value))
    ensures var r := Walk(nodeMap, edges, w, id, x, y);
            id !in w.visited && id in nodeMap ==>
              && id in r.0.visited && |w.sources| < |r.0.sources|
              && r.0.sources[|w.sources|] == nodeMap[id] && r.0.spots[|w.spots|] == (x, y)
              && (r.1.Ok? ==> Within(r.0, |w.spots| + 1, x, y + 300, r.1.value))
    decreases |nodeMap.Keys - w.visited|, 1
  {
    if id !in w.visited && id in nodeMap {
      var placed := Walked(w.visited + {id}, w.sources + [nodeMap[id]], w.spots + [(x, y)]);
      assert placed.sources[..|w.sources|] == w.sources && placed.spots[..|w.sources|] == w.spots;
      assert Extends(w, placed);
      match ChildEdges(edges, id)
      case Err(_) =>
      case Ok(kids) =>
        FewerLeft(nodeMap.Keys, w.visited, placed.visited, id);
        ChildrenShape(nodeMap, edges, placed, kids, 0, x, y + 300);
        var (after, bottom) := Children(nodeMap, edges, placed, kids, 0, x, y + 300);
        assert Walk(nodeMap, edges, w, id, x, y) == (after, Ok(Max(y, bottom)));
        assert x + 0 * 400 == x;
        ExtendsTrans(w, placed, after);
        assert after.spots[|w.spots|] == (x, y) by {
          assert after.spots[..|placed.sources|][|w.spots|] == placed.spots[|w.spots|];
        }
        assert after.sources[|w.sources|] == nodeMap[id] by {
          assert after.sources[..|placed.sources|][|w.sources|] == placed.sources[|w.sources|];
        }
        assert Within(after, |w.spots| + 1, x, y + 300, bottom);
        forall k | |w.spots| <= k < |after.spots|
          ensures x <= after.spots[k].0 && y <= after.spots[k].1 <= Max(y, bottom)
        {
          if k > |w.spots| {
            assert x <= after.spots[k].0 && y + 300 <= after.spots[k].1 <= bottom;
          }
        }
    }
  }

  /** The children from edge `i` on are laid out at or to the right of x + 400 i, between `cy` and the y returned. */
  lemma {:induction false} ChildrenShape(nodeMap: map<Value, Value>, edges: seq<Value>, w: Walked, kids: seq<Value>, i: nat, x: int, cy: int)
    requires w.visited <= nodeMap.Keys && EdgesReadable(edges) && i <= |kids| && |w.sources| == |w.spots|
    ensures var r := Children(nodeMap, edges, w, kids, i, x, cy);
            Extends(w, r.0) && Within(r.0, |w.spots|, x + i * 400, cy, r.1)
    decreases |nodeMap.Keys - w.visited|, 2, |kids| - i
  {
    if i == |kids| {
      assert w.sources[..|w.sources|] == w.sources && w.spots[..|w.sources|] == w.spots;
    } else {
      var cx := x + i * 400;
      var id := Target(kids[i]);
      var step := Walk(nodeMap, edges, w, id, cx, cy);
      WalkShape(nodeMap, edges, w, id, cx, cy);
      SubsetCard(nodeMap.Keys - step.0.visited, nodeMap.Keys - w.visited);
      var cy' := Max(cy, step.1.value);
      ChildrenShape(nodeMap, edges, step.0, kids, i + 1, x, cy');
      ChildrenStep(nodeMap, edges, w, kids, i, x, cy, id, cx);
      var r := Children(nodeMap, edges, step.0, kids, i + 1, x, cy');
      assert x + (i + 1) * 400 == cx + 400;
      CombineWithin(w, step.0, r.0, cx, cy, step.1.value, cy', r.1);
    }
  }

  /** A walk followed by a walk further right and lower stays within the bounds of the two. */
  lemma CombineWithin(w: Walked, next: Walked, t: Walked, cx: int, cy: int, mid: int, lo: int, hi: int)
    requires |w.sources| == |w.spots| && Extends(w, next) && Extends(next, t)
    requires Within(next, |w.spots|, cx, cy, mid) && mid <= lo && cy <= lo
    requires Within(t, |next.spots|, cx + 400, lo, hi) && lo <= hi
    ensures Extends(w, t) && Within(t, |w.spots|, cx, cy, hi)
  {
    ExtendsTrans(w, next, t);
    forall k | |w.spots| <= k < |t.spots|
      ensures cx <= t.spots[k].0 && cy <= t.spots[k].1 <= hi
    {
      if k < |next.spots| {
        assert t.spots[k] == t.spots[..|next.sources|][k];
      }
    }
  }

  /**
   * The child of edge `i`, when it is new, is placed next, at x + 400 i and
   * at the lowest y used so far.
   */
  lemma ChildPlaced(nodeMap: map<Value, Value>, edges: seq<Value>, w: Walked, kids: seq<Value>, i: nat, x: int, cy: int)
    requires w.visited <= nodeMap.Keys && EdgesReadable(edges) && i < |kids| && |w.sources| == |w.spots|
    requires Target(kids[i]) !in w.visited && Target(kids[i]) in nodeMap
    ensures var r := Children(nodeMap, edges, w, kids, i, x, cy).0;
            && |w.sources| < |r.sources|
            && r.sources[|w.sources|] == nodeMap[Target(kids[i])]
            && r.spots[|w.spots|] == (x + i * 400, cy)
  {
    var cx := x + i * 400;
    var step := Walk(nodeMap, edges, w, Target(kids[i]), cx, cy);
    WalkShape(nodeMap, edges, w, Target(kids[i]), cx, cy);
    var cy' := Max(cy, step.1.value);
    ChildrenShape(nodeMap, edges, step.0, kids, i + 1, x, cy');
    ChildrenStep(nodeMap, edges, w, kids, i, x, cy, Target(kids[i]), cx);
    var r := Children(nodeMap, edges, step.0, kids, i + 1, x, cy').0;
    assert r.sources[|w.sources|] == r.sources[..|step.0.sources|][|w.sources|];
    assert r.spots[|w.spots|] == r.spots[..|step.0.sources|][|w.spots|];
  }

  /**
   * The closure state of `optimizeWorkflowLayout`: the node map, the edges,
   * the visited ids and the nodes placed so far.
   */
  class Positioner {
    const edges: seq<Value>
    const nodeMap: map<Value, Value>
    var visited: set<Value>
    var processedNodes: seq<Value>
    /** The map entry behind each node the walk placed, and where it was placed. */
    ghost var sources: seq<Value>
    ghost var spots: seq<(int, int)>

    /**
     * One placed node per visited id, each the placement of a node the map
     * holds.
     */
    ghost predicate Valid()
      reads this
    {
      && visited <= nodeMap.Keys
      && |sources| == |spots| == |visited| <= |processedNodes|
      && (forall v :: v in sources ==> v in nodeMap.Values)
      && processedNodes[..|sources|] == PlaceAll(sources, spots)
    }

    constructor (nodes: seq<Value>, edges: seq<Value>)
      ensures this.edges == edges && nodeMap == NodeMap(nodes)
      ensures visited == {} && processedNodes == []
      ensures Valid()
    {
      this.edges := edges;
      nodeMap := NodeMap(nodes);
      visited := {};
      processedNodes := [];
      sources := [];
      spots := [];
    }

    /**
     * `positionNodeAndChildren(nodeId, x, y)`: place the node, then each child
     * 400 further right than the previous one and below everything placed so
     * far under this node; return the lowest y used. The new state and the
     * result are those of `Walk`.
     */
    method PositionNodeAndChildren(nodeId: Value, x: int, y: int) returns (r: Result<int, Thrown>)
      requires Valid() && |sources| == |processedNodes|
      modifies this
      ensures Valid() && |sources| == |processedNodes|
      ensures Walked(visited, sources, spots) == Walk(nodeMap, edges, old(Walked(visited, sources, spots)), nodeId, x, y).0
      ensures r == Walk(nodeMap, edges, old(Walked(visited, sources, spots)), nodeId, x, y).1
      ensures |old(processedNodes)| <= |processedNodes| && processedNodes[..|old(processedNodes)|] == old(processedNodes)
      decreases |nodeMap.Keys - visited|, 1
    {
      if nodeId in visited || nodeId !in nodeMap {
        return Ok(y);
      }
      var node := nodeMap[nodeId];
      WalkAppend(processedNodes, sources, spots, node, x, y);
      visited := visited + {nodeId};
      processedNodes := processedNodes + [Placed(node, x, y)];
      sources := sources + [node];
      spots := spots + [(x, y)];
      ghost var appended := processedNodes;
      var children := ChildEdges(edges, nodeId);
      if children.Err? {
        return Err(children.error);
      }
      FewerLeft(nodeMap.Keys, old(visited), visited, nodeId);
      var kids := children.value;
      assert forall k :: 0 <= k < |kids| ==> kids[k] in kids;
      var bottom := PositionChildren(kids, x, y + 300);
      KeepPrefix(appended, processedNodes, |old(processedNodes)|);
      return Ok(Max(y, bottom));
    }

    /**
     * The `forEach` over the child edges: the child of edge `i` is walked at
     * x + 400 i and at the lowest y used so far. The new state and the lowest
     * y used are those of `Children`.
     */
    method PositionChildren(kids: seq<Value>, x: int, cy: int) returns (bottom: int)
      requires Valid() && |sources| == |processedNodes| && EdgesReadable(edges)
      requires forall k :: 0 <= k < |kids| ==> !Nullish(kids[k])
      modifies this
      ensures Valid() && |sources| == |processedNodes|
      ensures Walked(visited, sources, spots) == Children(nodeMap, edges, old(Walked(visited, sources, spots)), kids, 0, x, cy).0
      ensures bottom == Children(nodeMap, edges, old(Walked(visited, sources, spots)), kids, 0, x, cy).1
      ensures |old(processedNodes)| <= |processedNodes| && processedNodes[..|old(processedNodes)|] == old(processedNodes)
      decreases |nodeMap.Keys - visited|, 2
    {
      ghost var start := Walked(visited, sources, spots);
      bottom := cy;
      var i := 0;
      while i < |kids|
        invariant 0 <= i <= |kids|
        invariant Valid() && |sources| == |processedNodes|
        invariant old(visited) <= visited
        invariant |old(processedNodes)| <= |processedNodes| && processedNodes[..|old(processedNodes)|] == old(processedNodes)
        invariant Children(nodeMap, edges, start, kids, 0, x, cy)
               == Children(nodeMap, edges, Walked(visited, sources, spots), kids, i, x, bottom)
      {
        var child := Get(kids[i], "target");
        var childX := x + i * 400;
        ghost var mid := processedNodes;
        ChildrenStep(nodeMap, edges, Walked(visited, sources, spots), kids, i, x, bottom, child, childX);
        SubsetCard(nodeMap.Keys - visited, nodeMap.Keys - old(visited));
        var below := PositionNodeAndChildren(child, childX, bottom);
        KeepPrefix(mid, processedNodes, |old(processedNodes)|);
        bottom := Max(bottom, below.value);
        i := i + 1;
      }
    }

    /** The closing `forEach`: the nodes the walk did not reach are added in a row at y = 600. */
    method PlaceRemaining(nodes: seq<Value>)
      modifies this
      ensures visited == old(visited) && sources == old(sources) && spots == old(spots)
      ensures processedNodes == old(processedNodes) + Row(Unvisited(nodes, visited), 600)
    {
      var remaining := PlaceUnvisited(nodes, visited);
      processedNodes := processedNodes + remaining;
    }
  }

  /**
   * The loop of the closing `forEach`: every node whose id was not visited is
   * placed at y = 600, 400 to the right of the previous one, starting at x = 0.
   */
  method PlaceUnvisited(nodes: seq<Value>, visited: set<Value>) returns (remaining: seq<Value>)
    ensures remaining == Row(Unvisited(nodes, visited), 600)
  {
    remaining := [];
    ghost var done: seq<Value> := [];
    var currentX := 0;
    var i := 0;
    while i < |nodes|
      invariant 0 <= i <= |nodes|
      invariant done == Unvisited(nodes[..i], visited)
      invariant remaining == Row(done, 600)
      invariant currentX == |done| * 400
    {
      var node := nodes[i];
      PlaceStep(nodes, i, visited, done, remaining, currentX);
      if IdOf(node) !in visited {
        remaining := remaining + [Placed(node, currentX, 600)];
        done := done + [node];
        currentX := currentX + 400;
      }
      i := i + 1;
    }
    assert nodes[..i] == nodes;
  }

  /** One step of the closing loop: an unvisited node joins the row at the next spot. */
  lemma PlaceStep(nodes: seq<Value>, i: nat, visited: set<Value>, done: seq<Value>, remaining: seq<Value>, x: int)
    requires i < |nodes| && done == Unvisited(nodes[..i], visited)
    requires remaining == Row(done, 600) && x == |done| * 400
    ensures IdOf(nodes[i]) in visited ==> Unvisited(nodes[..i + 1], visited) == done
    ensures IdOf(nodes[i]) !in visited ==>
              && Unvisited(nodes[..i + 1], visited) == done + [nodes[i]]
              && remaining + [Placed(nodes[i], x, 600)] == Row(done + [nodes[i]], 600)
  {
    UnvisitedSnoc(nodes, i, visited);
    if IdOf(nodes[i]) in visited {
      assert done + [] == done;
    } else {
      RowSnoc(done, nodes[i], x, 600);
    }
  }

  lemma UnvisitedSnoc(nodes: seq<Value>, i: nat, visited: set<Value>)
    requires i < |nodes|
    ensures Unvisited(nodes[..i + 1], visited)
         == Unvisited(nodes[..i], visited) + (if IdOf(nodes[i]) in visited then [] else [nodes[i]])
  {
    assert nodes[..i + 1][..i] == nodes[..i];
  }

  /** Placing one more node extends the row by that node, 400 to the right of the last. */
  lemma RowSnoc(ns: seq<Value>, n: Value, x: int, y: int)
    requires x == |ns| * 400
    ensures Row(ns + [n], y) == Row(ns, y) + [Placed(n, x, y)]
  {
    assert (ns + [n])[..|ns|] == ns;
  }

  /** What `optimizeWorkflowLayout` returns. */
  datatype Layout = Layout(nodes: seq<Value>, edges: seq<Value>)

  /** The layout does not throw: the nodes, the entry search and, once the walk starts, the edges can be read. */
  predicate LayoutSucceeds(nodes: seq<Value>, edges: seq<Value>) {
    && AllReadable(nodes)
    && FindEntry(nodes).Ok?
    && (FindEntry(nodes).value.Some? && IdOf(nodes[FindEntry(nodes).value.value]) in NodeMap(nodes)
        ==> EdgesReadable(edges))
  }

  /**
   * `optimizeWorkflowLayout`. The edges are returned unchanged. Without an
   * entry node every node is put in one row at y = 0. Otherwise the nodes
   * are those `Walk` places from the entry's id at (0, 0), in the order it
   * places them, followed by the nodes it did not reach, in a row at
   * y = 600. `visitedIds` is the set of ids the walk visited.
   */
  method OptimizeWorkflowLayout(nodes: seq<Value>, edges: seq<Value>)
    returns (r: Result<Layout, Thrown>, ghost visitedIds: set<Value>)
    ensures r.Ok? <==> LayoutSucceeds(nodes, edges)
    ensures r.Ok? ==> r.value.edges == edges
    ensures r.Ok? && FindEntry(nodes) == Ok(None) ==> r.value.nodes == Row(nodes, 0)
    ensures r.Ok? && FindEntry(nodes).value.Some? ==>
              && visitedIds <= NodeMap(nodes).Keys
              && |visitedIds| <= |r.value.nodes|
              && r.value.nodes[|visitedIds|..] == Row(Unvisited(nodes, visitedIds), 600)
    ensures r.Ok? && FindEntry(nodes).value.Some? ==>
              var walked := Walk(NodeMap(nodes), edges, Walked({}, [], []), IdOf(nodes[FindEntry(nodes).value.value]), 0, 0).0;
              && visitedIds == walked.visited
              && r.value.nodes == PlaceAll(walked.sources, walked.spots) + Row(Unvisited(nodes, visitedIds), 600)
    ensures r.Ok? && FindEntry(nodes).value.Some? && IdOf(nodes[FindEntry(nodes).value.value]) in NodeMap(nodes) ==>
              var id := IdOf(nodes[FindEntry(nodes).value.value]);
              id in visitedIds && r.value.nodes[0] == Placed(NodeMap(nodes)[id], 0, 0)
  {
    visitedIds := {};
    var i := 0;
    while i < |nodes|
      invariant 0 <= i <= |nodes|
      invariant forall j :: 0 <= j < i ==> !Nullish(nodes[j])
    {
      if Nullish(nodes[i]) {
        return Err(ReadError(nodes[i], "id")), visitedIds;
      }
      i := i + 1;
    }
    var p := new Positioner(nodes, edges);
    var entry := FindEntry(nodes);
    if entry.Err? {
      return Err(entry.error), visitedIds;
    }
    if entry.value.None? {
      return Ok(Layout(Row(nodes, 0), edges)), visitedIds;
    }
    var entryNode := nodes[entry.value.value];
    var entryId := Get(entryNode, "id");
    assert entryId == IdOf(entryNode);
    var top := p.PositionNodeAndChildren(entryId, 0, 0);
    if top.Err? {
      return Err(top.error), visitedIds;
    }
    var placedWalk := p.processedNodes;
    assert placedWalk == PlaceAll(p.sources, p.spots) by {
      assert placedWalk[..|p.sources|] == placedWalk;
    }
    WalkShape(p.nodeMap, edges, Walked({}, [], []), entryId, 0, 0);
    if entryId in p.nodeMap {
      PlaceAllAt(p.sources, p.spots, 0);
    }
    p.PlaceRemaining(nodes);
    visitedIds := p.visited;
    assert p.processedNodes[|placedWalk|..] == Row(Unvisited(nodes, visitedIds), 600);
    return Ok(Layout(p.processedNodes, edges)), visitedIds;
  }

  /** Node ids that are primitive and pairwise distinct. */
  predicate DistinctIds(nodes: seq<Value>) {
    && (forall i :: 0 <= i < |nodes| ==> IsPrimitive(IdOf(nodes[i])))
    && (forall i, j :: 0 <= i < j < |nodes| ==> IdOf(nodes[i]) != IdOf(nodes[j]))
  }

  /** The ids of `nodes`. */
  function Ids(nodes: seq<Value>): (ids: set<Value>)
    ensures forall i :: 0 <= i < |nodes| ==> IdOf(nodes[i]) in ids
    ensures forall k :: k in ids ==> exists i :: 0 <= i < |nodes| && IdOf(nodes[i]) == k
  {
    set i | 0 <= i < |nodes| :: IdOf(nodes[i])
  }

  /** The keys of the node map are the primitive ids. */
  lemma NodeMapKeys(nodes: seq<Value>)
    ensures NodeMap(nodes).Keys <= Ids(nodes)
  {
  }

  /** An id no node carries does not change which nodes are unvisited. */
  lemma {:induction false} UnvisitedIgnores(nodes: seq<Value>, visited: set<Value>, k: Value)
    requires k !in Ids(nodes)
    ensures Unvisited(nodes, visited) == Unvisited(nodes, visited - {k})
    decreases |nodes|
  {
    if nodes != [] {
      var init := nodes[..|nodes| - 1];
      assert forall i :: 0 <= i < |init| ==> init[i] == nodes[i];
      UnvisitedIgnores(init, visited, k);
    }
  }

  /**
   * With distinct primitive ids, the placed nodes and the unvisited ones add
   * up to the input: each visited id accounts for exactly one node.
   */
  lemma {:induction false} UnvisitedCount(nodes: seq<Value>, visited: set<Value>)
    requires DistinctIds(nodes) && visited <= Ids(nodes)
    ensures |visited| + |Unvisited(nodes, visited)| == |nodes|
    decreases |nodes|
  {
    if nodes == [] {
      assert visited == {};
    } else {
      var init := nodes[..|nodes| - 1];
      var k := IdOf(nodes[|nodes| - 1]);
      InitIds(nodes, visited - {k});
      if k in visited {
        UnvisitedCount(init, visited - {k});
        UnvisitedIgnores(init, visited, k);
      } else {
        assert visited - {k} == visited;
        UnvisitedCount(init, visited);
      }
    }
  }

  /** Dropping the last node drops exactly its id. */
  lemma InitIds(nodes: seq<Value>, ids: set<Value>)
    requires DistinctIds(nodes) && nodes != [] && ids <= Ids(nodes) && IdOf(nodes[|nodes| - 1]) !in ids
    ensures DistinctIds(nodes[..|nodes| - 1])
    ensures IdOf(nodes[|nodes| - 1]) !in Ids(nodes[..|nodes| - 1])
    ensures ids <= Ids(nodes[..|nodes| - 1])
  {
    var init := nodes[..|nodes| - 1];
    assert forall i :: 0 <= i < |init| ==> init[i] == nodes[i];
    forall v | v in ids ensures v in Ids(init) {
      var i :| 0 <= i < |nodes| && IdOf(nodes[i]) == v;
      assert i < |init|;
    }
  }

  /** With distinct primitive ids the layout returns as many nodes as it was given. */
  lemma LayoutKeepsCount(nodes: seq<Value>, visitedIds: set<Value>, laid: seq<Value>)
    requires DistinctIds(nodes) && visitedIds <= NodeMap(nodes).Keys
    requires |visitedIds| <= |laid| && laid[|visitedIds|..] == Row(Unvisited(nodes, visitedIds), 600)
    ensures |laid| == |nodes|
  {
    NodeMapKeys(nodes);
    UnvisitedCount(nodes, visitedIds);
    assert |laid[|visitedIds|..]| == |Unvisited(nodes, visitedIds)|;
  }
}
