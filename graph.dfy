/**
 * The graph functions of `lib/workflow-ai.ts` over nodes and edges as
 * JavaScript values: the position sort and sequential wiring of
 * `generateAutoEdges`, and the checks of `validateWorkflow`.
 *
 * Both functions read properties of their nodes without guards, so a node
 * that is `null`, or has no `data` or no `position`, makes them throw a
 * TypeError; the model returns that error as `Err`.
 */
module Graph {
  import opened Wrappers
  import opened Text
  import opened Js
  import opened Registry

  /** The node kind a graph must contain to have an entry point. */
  const LaunchBrowser := "LAUNCH_BROWSER"

  // ---------------------------------------------------------------------------
  // Sorting by position (workflow-ai.ts:607-613)

  /** `node.position[axis]` as the comparator uses it; a coordinate that is not a number reads as 0. */
  function Coord(node: Value, axis: string): int {
    if Nullish(node) then 0
    else
      var pos := Get(node, "position");
      if Nullish(pos) then 0
      else match Get(pos, axis)
        case Num(n) => n
        case _ => 0
  }

  /** The comparator is negative: `a` goes before `b` (top to bottom, then left to right). */
  predicate Before(a: Value, b: Value) {
    RowMajor(Coord(a, "y"), Coord(a, "x"), Coord(b, "y"), Coord(b, "x"))
  }

  /** Point `(y1, x1)` comes before `(y2, x2)` in reading order. */
  predicate RowMajor(y1: int, x1: int, y2: int, x2: int) {
    y1 < y2 || (y1 == y2 && x1 < x2)
  }

  lemma RowMajorOrder(ay: int, ax: int, y2: int, x2: int, cy: int, cx: int)
    ensures !RowMajor(ay, ax, ay, ax)
    ensures RowMajor(ay, ax, y2, x2) ==> !RowMajor(y2, x2, ay, ax)
    ensures !RowMajor(y2, x2, ay, ax) && !RowMajor(cy, cx, y2, x2) ==> !RowMajor(cy, cx, ay, ax)
    ensures RowMajor(ay, ax, y2, x2) && !RowMajor(cy, cx, y2, x2) ==> RowMajor(ay, ax, cy, cx)
  {
  }

  /** `Before` is a strict weak order, as a sort comparator must be. */
  lemma BeforeOrder(a: Value, b: Value, c: Value)
    ensures !Before(a, a)
    ensures Before(a, b) ==> !Before(b, a)
    ensures !Before(b, a) && !Before(c, b) ==> !Before(c, a)
    ensures Before(a, b) && !Before(c, b) ==> Before(a, c)
  {
    RowMajorOrder(Coord(a, "y"), Coord(a, "x"), Coord(b, "y"), Coord(b, "x"), Coord(c, "y"), Coord(c, "x"));
  }

  predicate SortedByPosition(s: seq<Value>) {
    forall i, j :: 0 <= i < j < |s| ==> !Before(s[j], s[i])
  }

  /** Stable insertion of `x` behind every element it does not precede. */
  function Insert(s: seq<Value>, x: Value): (r: seq<Value>)
    ensures |r| == |s| + 1
    ensures multiset(r) == multiset(s) + multiset{x}
    decreases |s|
  {
    if s == [] || !Before(x, s[|s| - 1]) then s + [x]
    else
      var init := s[..|s| - 1];
      assert s == init + [s[|s| - 1]];
      Insert(init, x) + [s[|s| - 1]]
  }

  /** Appending an element that precedes nothing already there keeps the order. */
  lemma AppendSorted(s: seq<Value>, x: Value)
    requires SortedByPosition(s)
    requires s == [] || !Before(x, s[|s| - 1])
    ensures SortedByPosition(s + [x])
  {
    var r := s + [x];
    forall i, j | 0 <= i < j < |r| ensures !Before(r[j], r[i]) {
      if j == |s| && i < |s| - 1 {
        BeforeOrder(r[i], s[|s| - 1], x);
      }
    }
  }

  /** Appending the old last element behind the insertion into the rest keeps the order. */
  lemma AppendLastSorted(ins: seq<Value>, init: seq<Value>, last: Value, x: Value)
    requires SortedByPosition(ins) && SortedByPosition(init + [last])
    requires multiset(ins) == multiset(init) + multiset{x}
    requires Before(x, last)
    ensures SortedByPosition(ins + [last])
  {
    var r := ins + [last];
    forall i, j | 0 <= i < j < |r| ensures !Before(r[j], r[i]) {
      if j == |ins| {
        assert ins[i] in multiset(ins);
        if ins[i] == x {
          BeforeOrder(x, last, x);
        } else {
          assert ins[i] in multiset(init);
          var k :| 0 <= k < |init| && init[k] == ins[i];
          assert (init + [last])[k] == init[k] && (init + [last])[|init|] == last;
        }
      }
    }
  }

  lemma {:induction false} InsertSorted(s: seq<Value>, x: Value)
    requires SortedByPosition(s)
    ensures SortedByPosition(Insert(s, x))
    decreases |s|
  {
    if s == [] || !Before(x, s[|s| - 1]) {
      AppendSorted(s, x);
    } else {
      var init, last := s[..|s| - 1], s[|s| - 1];
      assert s == init + [last];
      InsertSorted(init, x);
      AppendLastSorted(Insert(init, x), init, last, x);
    }
  }

  /** `[...nodes].sort(...)`: a stable sort, top to bottom, then left to right. */
  function SortByPosition(nodes: seq<Value>): (r: seq<Value>)
    ensures multiset(r) == multiset(nodes)
    ensures |r| == |nodes|
    decreases |nodes|
  {
    if nodes == [] then []
    else
      var init := nodes[..|nodes| - 1];
      assert nodes == init + [nodes[|nodes| - 1]];
      Insert(SortByPosition(init), nodes[|nodes| - 1])
  }

  lemma {:induction false} SortByPositionSorted(nodes: seq<Value>)
    ensures SortedByPosition(SortByPosition(nodes))
    decreases |nodes|
  {
    if nodes != [] {
      SortByPositionSorted(nodes[..|nodes| - 1]);
      InsertSorted(SortByPosition(nodes[..|nodes| - 1]), nodes[|nodes| - 1]);
    }
  }

  // ---------------------------------------------------------------------------
  // generateAutoEdges (workflow-ai.ts:602-662)

  /** A node the comparator can read: `node.position.y` does not throw. */
  predicate HasPosition(node: Value) {
    !Nullish(node) && !Nullish(Get(node, "position"))
  }

  /** A node whose `id` and `data.type` can be read. */
  predicate HasData(node: Value) {
    !Nullish(node) && !Nullish(Get(node, "data"))
  }

  predicate AllPositioned(nodes: seq<Value>) {
    forall i :: 0 <= i < |nodes| ==> HasPosition(nodes[i])
  }

  predicate AllHaveData(nodes: seq<Value>) {
    forall i :: 0 <= i < |nodes| ==> HasData(nodes[i])
  }

  /** The TypeError of the first node whose position cannot be read. */
  function PositionError(nodes: seq<Value>): Thrown
    requires !AllPositioned(nodes)
  {
    if HasPosition(nodes[0]) then
      assert forall i :: 1 <= i < |nodes| ==> nodes[i] == nodes[1..][i - 1];
      PositionError(nodes[1..])
    else if Nullish(nodes[0]) then ReadError(nodes[0], "position")
    else ReadError(Get(nodes[0], "position"), "y")
  }

  /** The TypeError of the first node whose `id` or `data.type` cannot be read. */
  function DataError(nodes: seq<Value>): Thrown
    requires !AllHaveData(nodes)
  {
    if HasData(nodes[0]) then
      assert forall i :: 1 <= i < |nodes| ==> nodes[i] == nodes[1..][i - 1];
      DataError(nodes[1..])
    else if Nullish(nodes[0]) then ReadError(nodes[0], "id")
    else ReadError(Get(nodes[0], "data"), "type")
  }

  /** `String(node.data.type)`, the key under which the registry is consulted. */
  function TaskKind(node: Value): string {
    ToText(OptGet(OptGet(node, "data"), "type"))
  }

  /** The handle pair an auto edge binds: the source's first output and the target's first visible input. */
  function Handles(src: Value, tgt: Value, registry: TaskRegistry): (r: Option<(string, string)>)
    ensures r.Some? <==>
      TaskKind(src) in registry && registry[TaskKind(src)].outputs != []
      && TaskKind(tgt) in registry && FirstVisibleInput(registry[TaskKind(tgt)].inputs).Some?
    ensures r.Some? ==>
      && r.value.0 == registry[TaskKind(src)].outputs[0].name
      && r.value.1 == FirstVisibleInput(registry[TaskKind(tgt)].inputs).value.name
  {
    var s, t := TaskKind(src), TaskKind(tgt);
    if s in registry && t in registry then
      var out, inp := FirstOutput(registry[s].outputs), FirstVisibleInput(registry[t].inputs);
      if out.Some? && inp.Some? then Some((out.value.name, inp.value.name)) else None
    else None
  }

  /** `edge-<source id>-<target id>`. */
  function EdgeId(src: Value, tgt: Value): string {
    "edge-" + ToText(OptGet(src, "id")) + "-" + ToText(OptGet(tgt, "id"))
  }

  /** An edge object `{id, source, target, [sourceHandle, targetHandle,] animated: true}`. */
  function EdgeValue(id: string, source: Value, target: Value, handles: Option<(string, string)>): Value {
    var ends := [Field("id", Str(id)), Field("source", source), Field("target", target)];
    match handles
    case Some((sh, th)) =>
      Obj(ends + [Field("sourceHandle", Str(sh)), Field("targetHandle", Str(th)), Field("animated", Bool(true))])
    case None =>
      Obj(ends + [Field("animated", Bool(true))])
  }

  /** The fields an edge object carries. */
  predicate EdgeFields(e: Value, id: string, source: Value, target: Value, handles: Option<(string, string)>) {
    && e.Obj?
    && Lookup(e.fields, "id") == Str(id)
    && Lookup(e.fields, "source") == source
    && Lookup(e.fields, "target") == target
    && Lookup(e.fields, "animated") == Bool(true)
    && (handles.Some? <==> HasKey(e.fields, "sourceHandle"))
    && (handles.Some? <==> HasKey(e.fields, "targetHandle"))
    && (handles.Some? ==>
          Lookup(e.fields, "sourceHandle") == Str(handles.value.0)
          && Lookup(e.fields, "targetHandle") == Str(handles.value.1))
  }

  lemma EdgeValueFields(id: string, source: Value, target: Value, handles: Option<(string, string)>)
    ensures EdgeFields(EdgeValue(id, source, target, handles), id, source, target, handles)
  {
    match handles
    case Some((sh, th)) => HandledEdgeFields(id, source, target, sh, th);
    case None => PlainEdgeFields(id, source, target);
  }

  lemma HandledEdgeFields(id: string, source: Value, target: Value, sh: string, th: string)
    ensures EdgeFields(EdgeValue(id, source, target, Some((sh, th))), id, source, target, Some((sh, th)))
  {
    var fs := EdgeValue(id, source, target, Some((sh, th))).fields;
    assert fs == [Field("id", Str(id)), Field("source", source), Field("target", target),
                  Field("sourceHandle", Str(sh)), Field("targetHandle", Str(th)), Field("animated", Bool(true))];
    HandleLookups(fs, sh, th);
    LookupSkip(fs, "source");
    LookupSkip(fs, "target");
    LookupSkip(fs[1..], "target");
    assert Keys(fs)[3] == "sourceHandle" && Keys(fs)[4] == "targetHandle";
  }

  lemma HandleLookups(fs: seq<Field>, sh: string, th: string)
    requires |fs| == 6 && fs[0].key == "id" && fs[1].key == "source" && fs[2].key == "target"
    requires fs[3] == Field("sourceHandle", Str(sh)) && fs[4] == Field("targetHandle", Str(th))
    requires fs[5] == Field("animated", Bool(true))
    ensures Lookup(fs, "sourceHandle") == Str(sh) && Lookup(fs, "targetHandle") == Str(th)
    ensures Lookup(fs, "animated") == Bool(true)
  {
    LookupSkip(fs, "sourceHandle");
    LookupSkip(fs[1..], "sourceHandle");
    LookupSkip(fs[2..], "sourceHandle");
    LookupSkip(fs, "targetHandle");
    LookupSkip(fs[1..], "targetHandle");
    LookupSkip(fs[2..], "targetHandle");
    LookupSkip(fs[3..], "targetHandle");
    LookupSkip(fs, "animated");
    LookupSkip(fs[1..], "animated");
    LookupSkip(fs[2..], "animated");
    LookupSkip(fs[3..], "animated");
    LookupSkip(fs[4..], "animated");
  }

  lemma PlainEdgeFields(id: string, source: Value, target: Value)
    ensures EdgeFields(EdgeValue(id, source, target, None), id, source, target, None)
  {
    var fs := EdgeValue(id, source, target, None).fields;
    assert fs == [Field("id", Str(id)), Field("source", source), Field("target", target), Field("animated", Bool(true))];
    assert forall i :: 0 <= i < |fs| ==> Keys(fs)[i] != "sourceHandle" && Keys(fs)[i] != "targetHandle";
    LookupSkip(fs, "animated");
    LookupSkip(fs[1..], "animated");
    LookupSkip(fs[2..], "animated");
    LookupSkip(fs, "source");
    LookupSkip(fs, "target");
    LookupSkip(fs[1..], "target");
  }

  /** The edge from `src` to `tgt`, with handles when both ends have one. */
  function AutoEdge(src: Value, tgt: Value, registry: TaskRegistry): Value {
    EdgeValue(EdgeId(src, tgt), OptGet(src, "id"), OptGet(tgt, "id"), Handles(src, tgt, registry))
  }

  /**
   * One edge per consecutive pair of `sorted`: max(N - 1, 0) edges, edge i
   * from the i-th to the (i+1)-th node, with id `edge-<src>-<tgt>`, animated,
   * and with handles exactly when the source has an output and the target a
   * visible input.
   */
  function ChainEdges(sorted: seq<Value>, registry: TaskRegistry): (r: seq<Value>)
    ensures |r| == if |sorted| == 0 then 0 else |sorted| - 1
    ensures forall i :: 0 <= i < |r| ==> r[i] == AutoEdge(sorted[i], sorted[i + 1], registry)
  {
    seq(if |sorted| == 0 then 0 else |sorted| - 1,
        i requires 0 <= i < |sorted| - 1 => AutoEdge(sorted[i], sorted[i + 1], registry))
  }

  lemma ChainEdgesFields(sorted: seq<Value>, registry: TaskRegistry)
    ensures forall i :: 0 <= i < |ChainEdges(sorted, registry)| ==>
      EdgeFields(ChainEdges(sorted, registry)[i], EdgeId(sorted[i], sorted[i + 1]), OptGet(sorted[i], "id"),
                 OptGet(sorted[i + 1], "id"), Handles(sorted[i], sorted[i + 1], registry))
  {
    forall i | 0 <= i < |ChainEdges(sorted, registry)| {
      EdgeValueFields(EdgeId(sorted[i], sorted[i + 1]), OptGet(sorted[i], "id"), OptGet(sorted[i + 1], "id"),
                      Handles(sorted[i], sorted[i + 1], registry));
    }
  }

  /**
   * What `generateAutoEdges` returns: the sort throws when two or more nodes
   * are compared and one has no readable position; the logged summary of the
   * sorted nodes throws when one has no readable `id` or `data`.
   */
  function AutoEdges(nodes: seq<Value>, registry: TaskRegistry): Result<seq<Value>, Thrown> {
    if |nodes| >= 2 && !AllPositioned(nodes) then Err(PositionError(nodes))
    else
      var sorted := SortByPosition(nodes);
      if !AllHaveData(sorted) then Err(DataError(sorted))
      else Ok(ChainEdges(sorted, registry))
  }

  /**
   * For nodes whose data (and, for two or more, position) can be read, the
   * generator succeeds and chains the nodes in position order: the order is
   * sorted top to bottom then left to right, and is a permutation of the input.
   */
  lemma AutoEdgesChain(nodes: seq<Value>, registry: TaskRegistry)
    requires AllHaveData(nodes)
    requires |nodes| >= 2 ==> AllPositioned(nodes)
    ensures AutoEdges(nodes, registry) == Ok(ChainEdges(SortByPosition(nodes), registry))
    ensures SortedByPosition(SortByPosition(nodes))
    ensures multiset(SortByPosition(nodes)) == multiset(nodes)
  {
    var sorted := SortByPosition(nodes);
    SortByPositionSorted(nodes);
    forall i | 0 <= i < |sorted| ensures HasData(sorted[i]) {
      assert sorted[i] in multiset(nodes);
    }
  }

  /** Generating edges throws when two nodes are compared and one of them has no position. */
  lemma AutoEdgesNeedPositions(nodes: seq<Value>, registry: TaskRegistry, k: nat)
    requires |nodes| >= 2 && k < |nodes| && !HasPosition(nodes[k])
    ensures AutoEdges(nodes, registry).Err?
  {
  }

  /** `generateAutoEdges`: sort, then push one edge per consecutive pair. */
  /** The `for` loop of generateAutoEdges: one edge per neighbouring pair. */
  method ChainLoop(sorted: seq<Value>, registry: TaskRegistry) returns (edges: seq<Value>)
    ensures edges == ChainEdges(sorted, registry)
  {
    edges := [];
    var i := 0;
    while i + 1 < |sorted|
      invariant 0 <= i <= if |sorted| == 0 then 0 else |sorted| - 1
      invariant edges == ChainEdges(sorted, registry)[..i]
    {
      assert ChainEdges(sorted, registry)[..i + 1] == edges + [ChainEdges(sorted, registry)[i]];
      edges := edges + [AutoEdge(sorted[i], sorted[i + 1], registry)];
      i := i + 1;
    }
  }

  method GenerateAutoEdges(nodes: seq<Value>, registry: TaskRegistry) returns (r: Result<seq<Value>, Thrown>)
    ensures r == AutoEdges(nodes, registry)
  {
    if |nodes| >= 2 && !AllPositioned(nodes) {
      return Err(PositionError(nodes));
    }
    var sorted := SortByPosition(nodes);
    if !AllHaveData(sorted) {
      return Err(DataError(sorted));
    }
    var edges := ChainLoop(sorted, registry);
    return Ok(edges);
  }

  // ---------------------------------------------------------------------------
  // validateWorkflow (workflow-ai.ts:445-509)

  datatype ValidationResult = ValidationResult(isValid: bool, errors: seq<string>)

  const NoNodesError := "Workflow must have at least one node"
  const NoEntryError := "Workflow must start with LAUNCH_BROWSER task"

  /** `node.data.type`, read without a guard. */
  function ReadType(node: Value): Result<Value, Thrown> {
    match Read(node, "data")
    case Err(e) => Err(e)
    case Ok(data) => Read(data, "type")
  }

  /**
   * `nodes.some(node => node.data.type === TaskType.LAUNCH_BROWSER)`: stops
   * at the first entry node, throws at an unreadable node met before it.
   */
  function HasEntryPoint(nodes: seq<Value>): (r: Result<bool, Thrown>)
    ensures r == Ok(true) <==> exists i :: 0 <= i < |nodes| && ReadType(nodes[i]) == Ok(Str(LaunchBrowser))
                                && forall j :: 0 <= j < i ==> ReadType(nodes[j]).Ok?
    ensures r == Ok(false) <==> forall i :: 0 <= i < |nodes| ==>
                                  ReadType(nodes[i]).Ok? && ReadType(nodes[i]) != Ok(Str(LaunchBrowser))
  {
    if nodes == [] then Ok(false)
    else match ReadType(nodes[0])
      case Err(e) => Err(e)
      case Ok(t) =>
        if StrictEq(t, Str(LaunchBrowser)) then Ok(true)
        else
          var r := HasEntryPoint(nodes[1..]);
          assert forall i :: 1 <= i < |nodes| ==> nodes[i] == nodes[1..][i - 1];
          r
  }

  /** `Object.values(TaskType).includes(t)`. */
  predicate KnownKind(t: Value, taskTypes: set<string>) {
    t.Str? && t.s in taskTypes
  }

  /** `<subject> <i + 1> <what>`: a message about the `i`-th node or edge, counted from 1 in the text. */
  function About(subject: string, i: nat, what: string): (r: string)
    ensures |subject| <= |r| && r[..|subject|] == subject
  {
    subject + " " + NatText(i + 1) + " " + what
  }

  /** Every message is about `subject`. */
  predicate Headed(ms: seq<string>, subject: string) {
    forall m :: m in ms ==> |subject| <= |m| && m[..|subject|] == subject
  }

  /** The messages for node `i` (counted from 0), or the TypeError its checks raise. */
  function NodeErrors(node: Value, i: nat, taskTypes: set<string>): (r: Result<seq<string>, Thrown>)
    ensures r.Err? <==> Nullish(node) || Nullish(Get(node, "data"))
  {
    if Nullish(node) then Err(ReadError(node, "id"))
    else
      var data := Get(node, "data");
      if Nullish(data) then Err(ReadError(data, "type"))
      else
        var t := Get(data, "type");
        Ok((if !Truthy(Get(node, "id")) then [About("Node", i, "is missing an ID")] else [])
          + (if !Truthy(t) then [About("Node", i, "is missing task type")] else [])
          + (if Truthy(t) && !KnownKind(t, taskTypes) then [About("Node", i, "has invalid task type: " + ToText(t))] else [])
          + (if !Truthy(Get(node, "position")) then [About("Node", i, "is missing position")] else []))
  }

  /**
   * Some node's `id` is `===` to `v`. The edge checks run after the node
   * checks have read every node, so no node is nullish here.
   */
  predicate IdExists(nodes: seq<Value>, v: Value) {
    exists k :: 0 <= k < |nodes| && StrictEq(OptGet(nodes[k], "id"), v)
  }

  /** The messages for edge `i` (counted from 0), or the TypeError reading its `id` raises. */
  function EdgeErrors(edge: Value, i: nat, nodes: seq<Value>): (r: Result<seq<string>, Thrown>)
    ensures r.Err? <==> Nullish(edge)
  {
    if Nullish(edge) then Err(ReadError(edge, "id"))
    else
      var src, tgt := Get(edge, "source"), Get(edge, "target");
      Ok((if !Truthy(Get(edge, "id")) then [About("Edge", i, "is missing an ID")] else [])
        + (if !Truthy(src) || !Truthy(tgt) then [About("Edge", i, "is missing source or target")] else [])
        + (if !IdExists(nodes, src) then [About("Edge", i, "references non-existent source node: " + ToText(src))] else [])
        + (if !IdExists(nodes, tgt) then [About("Edge", i, "references non-existent target node: " + ToText(tgt))] else []))
  }

  /** The node check of the `forEach`, as a callback. */
  function NodeCheck(taskTypes: set<string>): (Value, nat) -> Result<seq<string>, Thrown> {
    (node: Value, i: nat) => NodeErrors(node, i, taskTypes)
  }

  /** The edge check of the `forEach`, as a callback. */
  function EdgeCheck(nodes: seq<Value>): (Value, nat) -> Result<seq<string>, Thrown> {
    (edge: Value, i: nat) => EdgeErrors(edge, i, nodes)
  }

  lemma NodeCheckIs(taskTypes: set<string>, node: Value, i: nat)
    ensures NodeCheck(taskTypes)(node, i) == NodeErrors(node, i, taskTypes)
  {
  }

  lemma EdgeCheckIs(nodes: seq<Value>, edge: Value, i: nat)
    ensures EdgeCheck(nodes)(edge, i) == EdgeErrors(edge, i, nodes)
  {
  }

  /** `done` in front of the messages of `rest`; a TypeError stays as it is. */
  function Prefixed(done: seq<string>, rest: Result<seq<string>, Thrown>): (r: Result<seq<string>, Thrown>)
    ensures r.Ok? <==> rest.Ok?
    ensures r.Ok? ==> |r.value| == |done| + |rest.value| && r.value[..|done|] == done
  {
    match rest
    case Ok(more) => Ok(done + more)
    case Err(e) => Err(e)
  }

  lemma PrefixedNone(done: seq<string>, rest: Result<seq<string>, Thrown>)
    ensures Prefixed(done, rest) == Ok([]) <==> done == [] && rest == Ok([])
  {
    if rest.Ok? && done + rest.value == [] {
      assert |done| + |rest.value| == 0;
    }
  }

  lemma PrefixedTwice(a: seq<string>, b: seq<string>, rest: Result<seq<string>, Thrown>)
    ensures Prefixed(a, Prefixed(b, rest)) == Prefixed(a + b, rest)
  {
    if rest.Ok? {
      assert a + (b + rest.value) == (a + b) + rest.value;
    }
  }

  lemma PrefixedHeaded(done: seq<string>, rest: Result<seq<string>, Thrown>, subject: string)
    requires Headed(done, subject) && rest.Ok? && Headed(rest.value, subject)
    ensures Headed(Prefixed(done, rest).value, subject)
  {
  }

  /**
   * `xs.forEach((x, index) => ...)` pushing the messages of `check` in order;
   * the first TypeError a callback raises escapes.
   */
  function Each(xs: seq<Value>, from: nat, check: (Value, nat) -> Result<seq<string>, Thrown>): Result<seq<string>, Thrown>
    requires from <= |xs|
    decreases |xs| - from
  {
    if from == |xs| then Ok([])
    else match check(xs[from], from)
      case Err(e) => Err(e)
      case Ok(es) => Prefixed(es, Each(xs, from + 1, check))
  }

  /** One step of the loop: a throwing callback ends it, otherwise its messages join those already gathered. */
  lemma EachStep(xs: seq<Value>, from: nat, check: (Value, nat) -> Result<seq<string>, Thrown>, done: seq<string>)
    requires from < |xs|
    ensures check(xs[from], from).Err? ==> Prefixed(done, Each(xs, from, check)) == Err(check(xs[from], from).error)
    ensures check(xs[from], from).Ok? ==>
      Prefixed(done, Each(xs, from, check)) == Prefixed(done + check(xs[from], from).value, Each(xs, from + 1, check))
  {
    var c := check(xs[from], from);
    if c.Ok? {
      PrefixedTwice(done, c.value, Each(xs, from + 1, check));
    }
  }

  /** The loop completes exactly when no callback throws. */
  lemma {:induction false} EachOk(xs: seq<Value>, from: nat, check: (Value, nat) -> Result<seq<string>, Thrown>)
    requires from <= |xs|
    ensures Each(xs, from, check).Ok? <==> forall k :: from <= k < |xs| ==> check(xs[k], k).Ok?
    decreases |xs| - from
  {
    if from < |xs| {
      EachOk(xs, from + 1, check);
    }
  }

  /** The loop reports nothing exactly when no callback reports anything. */
  lemma {:induction false} EachNone(xs: seq<Value>, from: nat, check: (Value, nat) -> Result<seq<string>, Thrown>)
    requires from <= |xs|
    ensures Each(xs, from, check) == Ok([]) <==> forall k :: from <= k < |xs| ==> check(xs[k], k) == Ok([])
    decreases |xs| - from
  {
    if from < |xs| {
      EachNone(xs, from + 1, check);
      if check(xs[from], from).Ok? {
        PrefixedNone(check(xs[from], from).value, Each(xs, from + 1, check));
      }
    }
  }

  /** When every callback's messages are about `subject`, so are the loop's. */
  lemma {:induction false} EachHeaded(xs: seq<Value>, from: nat, check: (Value, nat) -> Result<seq<string>, Thrown>, subject: string)
    requires from <= |xs| && Each(xs, from, check).Ok?
    requires forall k :: from <= k < |xs| && check(xs[k], k).Ok? ==> Headed(check(xs[k], k).value, subject)
    ensures Headed(Each(xs, from, check).value, subject)
    decreases |xs| - from
  {
    if from < |xs| {
      EachHeaded(xs, from + 1, check, subject);
      PrefixedHeaded(check(xs[from], from).value, Each(xs, from + 1, check), subject);
    }
  }

  /** A node that draws no message: it has an id, a known task kind and a position. */
  predicate NodeClean(node: Value, taskTypes: set<string>) {
    && HasData(node)
    && Truthy(Get(node, "id"))
    && Truthy(Get(Get(node, "data"), "type")) && KnownKind(Get(Get(node, "data"), "type"), taskTypes)
    && Truthy(Get(node, "position"))
  }

  /** An edge that draws no message: it has an id, and both ends name existing nodes. */
  predicate EdgeClean(edge: Value, nodes: seq<Value>) {
    && !Nullish(edge)
    && Truthy(Get(edge, "id"))
    && Truthy(Get(edge, "source")) && Truthy(Get(edge, "target"))
    && IdExists(nodes, Get(edge, "source")) && IdExists(nodes, Get(edge, "target"))
  }

  lemma NodeErrorsNone(node: Value, i: nat, taskTypes: set<string>)
    ensures NodeErrors(node, i, taskTypes) == Ok([]) <==> NodeClean(node, taskTypes)
  {
  }

  lemma EdgeErrorsNone(edge: Value, i: nat, nodes: seq<Value>)
    ensures EdgeErrors(edge, i, nodes) == Ok([]) <==> EdgeClean(edge, nodes)
  {
  }

  lemma NodeErrorsHeaded(node: Value, i: nat, taskTypes: set<string>)
    requires NodeErrors(node, i, taskTypes).Ok?
    ensures Headed(NodeErrors(node, i, taskTypes).value, "Node")
  {
  }

  lemma EdgeErrorsHeaded(edge: Value, i: nat, nodes: seq<Value>)
    requires EdgeErrors(edge, i, nodes).Ok?
    ensures Headed(EdgeErrors(edge, i, nodes).value, "Edge")
  {
  }

  /** The node checks complete exactly when every node and its `data` can be read. */
  lemma NodeChecksOk(nodes: seq<Value>, taskTypes: set<string>)
    ensures Each(nodes, 0, NodeCheck(taskTypes)).Ok? <==> AllHaveData(nodes)
  {
    EachOk(nodes, 0, NodeCheck(taskTypes));
  }

  /** The node checks report nothing exactly when every node is clean. */
  lemma NodeChecksNone(nodes: seq<Value>, taskTypes: set<string>)
    ensures Each(nodes, 0, NodeCheck(taskTypes)) == Ok([]) <==> forall k :: 0 <= k < |nodes| ==> NodeClean(nodes[k], taskTypes)
  {
    EachNone(nodes, 0, NodeCheck(taskTypes));
    forall k | 0 <= k < |nodes| {
      NodeErrorsNone(nodes[k], k, taskTypes);
    }
  }

  /** The edge checks report nothing exactly when every edge is clean. */
  lemma EdgeChecksNone(edges: seq<Value>, nodes: seq<Value>)
    ensures Each(edges, 0, EdgeCheck(nodes)) == Ok([]) <==> forall k :: 0 <= k < |edges| ==> EdgeClean(edges[k], nodes)
  {
    EachNone(edges, 0, EdgeCheck(nodes));
    forall k | 0 <= k < |edges| {
      EdgeErrorsNone(edges[k], k, nodes);
    }
  }

  /** What `validateWorkflow` returns or throws. */
  function Validation(nodes: seq<Value>, edges: seq<Value>, taskTypes: set<string>): (r: Result<ValidationResult, Thrown>)
    ensures r.Ok? ==> (r.value.isValid <==> r.value.errors == [])
  {
    if nodes == [] then Ok(ValidationResult(false, [NoNodesError]))
    else match HasEntryPoint(nodes)
      case Err(e) => Err(e)
      case Ok(entry) =>
        match Each(nodes, 0, NodeCheck(taskTypes))
        case Err(e) => Err(e)
        case Ok(nodeErrors) =>
          match Each(edges, 0, EdgeCheck(nodes))
          case Err(e) => Err(e)
          case Ok(edgeErrors) =>
            var errors := (if entry then [] else [NoEntryError]) + nodeErrors + edgeErrors;
            Ok(ValidationResult(errors == [], errors))
  }

  /** An empty node list reports exactly one error and nothing else is checked. */
  lemma NoNodesInvalid(edges: seq<Value>, taskTypes: set<string>)
    ensures Validation([], edges, taskTypes) == Ok(ValidationResult(false, [NoNodesError]))
  {
  }

  /** Without a LAUNCH_BROWSER node the graph is reported invalid, with the entry error first. */
  lemma NoEntryInvalid(nodes: seq<Value>, edges: seq<Value>, taskTypes: set<string>)
    requires nodes != []
    requires forall i :: 0 <= i < |nodes| ==> ReadType(nodes[i]).Ok? && ReadType(nodes[i]) != Ok(Str(LaunchBrowser))
    requires forall i :: 0 <= i < |edges| ==> !Nullish(edges[i])
    ensures Validation(nodes, edges, taskTypes).Ok?
    ensures !Validation(nodes, edges, taskTypes).value.isValid
    ensures Validation(nodes, edges, taskTypes).value.errors[0] == NoEntryError
  {
    assert HasEntryPoint(nodes) == Ok(false);
    forall k | 0 <= k < |nodes| ensures HasData(nodes[k]) {
      assert ReadType(nodes[k]).Ok?;
    }
    NodeChecksOk(nodes, taskTypes);
    EachOk(edges, 0, EdgeCheck(nodes));
  }

  /** An edge whose source is no node's id is reported, with that source in the message. */
  lemma DanglingSourceReported(edge: Value, i: nat, nodes: seq<Value>)
    requires !Nullish(edge) && !IdExists(nodes, Get(edge, "source"))
    ensures EdgeErrors(edge, i, nodes).Ok?
    ensures About("Edge", i, "references non-existent source node: " + ToText(Get(edge, "source")))
            in EdgeErrors(edge, i, nodes).value
  {
  }

  /** `node` with `data.type` set to `t`, all else unchanged. */
  function WithKind(node: Value, t: string): Value
    requires node.Obj? && Get(node, "data").Obj?
  {
    Obj(Assign(node.fields, "data", Obj(Assign(Get(node, "data").fields, "type", Str(t)))))
  }

  lemma WithKindReads(node: Value, t: string, k: string)
    requires node.Obj? && Get(node, "data").Obj?
    ensures Get(WithKind(node, t), k) == if k == "data" then Obj(Assign(Get(node, "data").fields, "type", Str(t))) else Get(node, k)
    ensures ReadType(WithKind(node, t)) == Ok(Str(t))
  {
    AssignLookup(node.fields, "data", Obj(Assign(Get(node, "data").fields, "type", Str(t))), k);
    AssignLookup(node.fields, "data", Obj(Assign(Get(node, "data").fields, "type", Str(t))), "data");
    AssignLookup(Get(node, "data").fields, "type", Str(t), "type");
  }

  /** The messages of a validation that ran to the end, in the order they are pushed. */
  lemma ValidationParts(nodes: seq<Value>, edges: seq<Value>, taskTypes: set<string>)
    requires nodes != [] && Validation(nodes, edges, taskTypes).Ok?
    ensures HasEntryPoint(nodes).Ok?
    ensures Each(nodes, 0, NodeCheck(taskTypes)).Ok? && Each(edges, 0, EdgeCheck(nodes)).Ok?
    ensures Validation(nodes, edges, taskTypes).value.errors
         == (if HasEntryPoint(nodes).value then [] else [NoEntryError])
            + Each(nodes, 0, NodeCheck(taskTypes)).value + Each(edges, 0, EdgeCheck(nodes)).value
  {
  }

  /** Every node message names a node. */
  lemma NodeChecksHeaded(nodes: seq<Value>, taskTypes: set<string>)
    requires Each(nodes, 0, NodeCheck(taskTypes)).Ok?
    ensures Headed(Each(nodes, 0, NodeCheck(taskTypes)).value, "Node")
  {
    forall k | 0 <= k < |nodes| && NodeCheck(taskTypes)(nodes[k], k).Ok?
      ensures Headed(NodeCheck(taskTypes)(nodes[k], k).value, "Node")
    {
      NodeErrorsHeaded(nodes[k], k, taskTypes);
    }
    EachHeaded(nodes, 0, NodeCheck(taskTypes), "Node");
  }

  /** Every edge message names an edge. */
  lemma EdgeChecksHeaded(edges: seq<Value>, nodes: seq<Value>)
    requires Each(edges, 0, EdgeCheck(nodes)).Ok?
    ensures Headed(Each(edges, 0, EdgeCheck(nodes)).value, "Edge")
  {
    forall k | 0 <= k < |edges| && EdgeCheck(nodes)(edges[k], k).Ok?
      ensures Headed(EdgeCheck(nodes)(edges[k], k).value, "Edge")
    {
      EdgeErrorsHeaded(edges[k], k, nodes);
    }
    EachHeaded(edges, 0, EdgeCheck(nodes), "Edge");
  }

  /** Validation reports only the missing entry point: no node or edge message, and no TypeError. */
  lemma OnlyEntryMissing(nodes: seq<Value>, edges: seq<Value>, taskTypes: set<string>)
    requires nodes != [] && HasEntryPoint(nodes) == Ok(false)
    requires Validation(nodes, edges, taskTypes) == Ok(ValidationResult(false, [NoEntryError]))
    ensures Each(nodes, 0, NodeCheck(taskTypes)) == Ok([])
    ensures Each(edges, 0, EdgeCheck(nodes)) == Ok([])
  {
    ValidationParts(nodes, edges, taskTypes);
    var nodeErrors := Each(nodes, 0, NodeCheck(taskTypes)).value;
    var edgeErrors := Each(edges, 0, EdgeCheck(nodes)).value;
    assert |[NoEntryError] + nodeErrors + edgeErrors| == 1;
  }

  /** Giving node `k` another kind keeps every node id, so the same edges name existing nodes. */
  lemma WithKindKeepsIds(nodes: seq<Value>, k: nat, t: string, fixed: seq<Value>)
    requires k < |nodes| && nodes[k].Obj? && Get(nodes[k], "data").Obj?
    requires fixed == nodes[k := WithKind(nodes[k], t)]
    ensures forall v :: IdExists(fixed, v) <==> IdExists(nodes, v)
  {
    WithKindReads(nodes[k], t, "id");
    assert forall j :: 0 <= j < |nodes| ==> OptGet(fixed[j], "id") == OptGet(nodes[j], "id");
  }

  /** Giving a clean node a known kind leaves it clean. */
  lemma WithKindClean(node: Value, t: string, taskTypes: set<string>)
    requires node.Obj? && Get(node, "data").Obj?
    requires t in taskTypes && t != []
    requires NodeClean(node, taskTypes)
    ensures NodeClean(WithKind(node, t), taskTypes)
  {
    WithKindReads(node, t, "id");
    WithKindReads(node, t, "position");
    WithKindReads(node, t, "data");
    AssignLookup(Get(node, "data").fields, "type", Str(t), "type");
  }

  /**
   * When the missing entry point is the only problem, giving one node the
   * LAUNCH_BROWSER kind makes the same graph valid.
   */
  lemma EntryFixMakesValid(nodes: seq<Value>, edges: seq<Value>, taskTypes: set<string>, k: nat)
    requires k < |nodes| && nodes[k].Obj? && Get(nodes[k], "data").Obj?
    requires LaunchBrowser in taskTypes
    requires HasEntryPoint(nodes) == Ok(false)
    requires Validation(nodes, edges, taskTypes) == Ok(ValidationResult(false, [NoEntryError]))
    ensures Validation(nodes[k := WithKind(nodes[k], LaunchBrowser)], edges, taskTypes) == Ok(ValidationResult(true, []))
  {
    var fixed := nodes[k := WithKind(nodes[k], LaunchBrowser)];
    assert nodes != [];
    OnlyEntryMissing(nodes, edges, taskTypes);
    NodeChecksNone(nodes, taskTypes);
    NodeChecksNone(fixed, taskTypes);
    WithKindClean(nodes[k], LaunchBrowser, taskTypes);
    forall j | 0 <= j < |fixed| ensures NodeClean(fixed[j], taskTypes) {
      if j != k { assert fixed[j] == nodes[j]; }
    }
    WithKindKeepsIds(nodes, k, LaunchBrowser, fixed);
    EdgeChecksNone(edges, nodes);
    EdgeChecksNone(edges, fixed);
    forall j | 0 <= j < |edges| ensures EdgeClean(edges[j], fixed) {
      assert EdgeClean(edges[j], nodes);
    }
    WithKindReads(nodes[k], LaunchBrowser, "data");
    assert HasEntryPoint(fixed) == Ok(true) by {
      assert ReadType(fixed[k]) == Ok(Str(LaunchBrowser));
      forall j | 0 <= j < k ensures ReadType(fixed[j]).Ok? {
        assert fixed[j] == nodes[j] && NodeClean(nodes[j], taskTypes);
      }
    }
  }

  /** The node `forEach` of `validateWorkflow`: the messages of every node, in order. */
  method CheckNodes(nodes: seq<Value>, taskTypes: set<string>) returns (r: Result<seq<string>, Thrown>)
    ensures r == Each(nodes, 0, NodeCheck(taskTypes))
  {
    ghost var all := Each(nodes, 0, NodeCheck(taskTypes));
    var errors: seq<string> := [];
    var i := 0;
    while i < |nodes|
      invariant 0 <= i <= |nodes|
      invariant all == Prefixed(errors, Each(nodes, i, NodeCheck(taskTypes)))
    {
      var es := NodeErrors(nodes[i], i, taskTypes);
      NodeCheckIs(taskTypes, nodes[i], i);
      if es.Err? {
        EachStep(nodes, i, NodeCheck(taskTypes), errors);
        return Err(es.error);
      }
      EachStep(nodes, i, NodeCheck(taskTypes), errors);
      errors := errors + es.value;
      i := i + 1;
    }
    assert errors + [] == errors;
    return Ok(errors);
  }

  /** The edge `forEach` of `validateWorkflow`: the messages of every edge, in order. */
  method CheckEdges(edges: seq<Value>, nodes: seq<Value>) returns (r: Result<seq<string>, Thrown>)
    ensures r == Each(edges, 0, EdgeCheck(nodes))
  {
    ghost var all := Each(edges, 0, EdgeCheck(nodes));
    var errors: seq<string> := [];
    var j := 0;
    while j < |edges|
      invariant 0 <= j <= |edges|
      invariant all == Prefixed(errors, Each(edges, j, EdgeCheck(nodes)))
    {
      var es := EdgeErrors(edges[j], j, nodes);
      EdgeCheckIs(nodes, edges[j], j);
      if es.Err? {
        EachStep(edges, j, EdgeCheck(nodes), errors);
        return Err(es.error);
      }
      EachStep(edges, j, EdgeCheck(nodes), errors);
      errors := errors + es.value;
      j := j + 1;
    }
    assert errors + [] == errors;
    return Ok(errors);
  }

  /** `validateWorkflow`: the entry check, then the node messages, then the edge messages. */
  method ValidateWorkflow(nodes: seq<Value>, edges: seq<Value>, taskTypes: set<string>)
    returns (r: Result<ValidationResult, Thrown>)
    ensures r == Validation(nodes, edges, taskTypes)
  {
    var errors: seq<string> := [];
    if |nodes| == 0 {
      errors := errors + [NoNodesError];
      assert errors == [NoNodesError];
      return Ok(ValidationResult(false, errors));
    }
    var entry := HasEntryPoint(nodes);
    if entry.Err? {
      return Err(entry.error);
    }
    if !entry.value {
      errors := errors + [NoEntryError];
    }
    var nodeErrors := CheckNodes(nodes, taskTypes);
    if nodeErrors.Err? {
      return Err(nodeErrors.error);
    }
    errors := errors + nodeErrors.value;
    var edgeErrors := CheckEdges(edges, nodes);
    if edgeErrors.Err? {
      return Err(edgeErrors.error);
    }
    errors := errors + edgeErrors.value;
    assert errors == (if entry.value then [] else [NoEntryError]) + nodeErrors.value + edgeErrors.value;
    return Ok(ValidationResult(|errors| == 0, errors));
  }
}
