/**
 The bounded breadth-first search of the code graph (internal/codegraph/storage.go:1033-1141).
 Queries are taken to succeed. Node ids are AUTOINCREMENT, so 0 is never one.
 */
module ShortestPaths {

  datatype Node = Node(name: string, path: string, startLine: int)

  datatype Edge = Edge(source: int, target: int, relation: string)

  datatype Graph = Graph(nodes: map<int, Node>, edges: seq<Edge>)

  /** A row of the outgoing-edges query: an edge joined with its target node. */
  datatype Row = Row(id: int, node: Node, relation: string)

  datatype PathStep = PathStep(source: Node, target: Node, relation: string)

  datatype Result = Result(found: bool, path: seq<PathStep>)

  datatype Item = Item(id: int, path: seq<PathStep>, depth: nat, source: Node)

  const DEFAULT_LIMIT: nat := 6

  function Limit(limit: int): nat { if limit <= 0 then DEFAULT_LIMIT else limit }

  predicate IsEdge(g: Graph, e: Edge) {
    e in g.edges && e.source in g.nodes && e.target in g.nodes
  }

  /** The join drops edges whose target has no row. */
  function Outgoing(g: Graph, id: int): seq<Row> {
    OutgoingFrom(g, id, |g.edges|)
  }

  function OutgoingFrom(g: Graph, id: int, n: nat): seq<Row>
    requires n <= |g.edges|
  {
    if n == 0 then []
    else
      var e := g.edges[n - 1];
      OutgoingFrom(g, id, n - 1) +
      if e.source == id && e.target in g.nodes then [Row(e.target, g.nodes[e.target], e.relation)] else []
  }

  lemma {:induction false} OutgoingExact(g: Graph, id: int, n: nat)
    requires n <= |g.edges| && id in g.nodes
    ensures forall r :: r in OutgoingFrom(g, id, n) <==>
      exists i :: 0 <= i < n && IsEdge(g, g.edges[i]) && g.edges[i] == Edge(id, r.id, r.relation)
          && r.node == g.nodes[r.id]
  {
    if n > 0 {
      OutgoingExact(g, id, n - 1);
    }
  }

  // ---------------------------------------------------------------- what a path is

  /** The edges lead from `from` to `to`. */
  ghost predicate IsWalk(g: Graph, from: int, to: int, hops: seq<Edge>)
    decreases |hops|
  {
    if hops == [] then from == to
    else
      var last := hops[|hops| - 1];
      IsEdge(g, last) && last.target == to && IsWalk(g, from, last.source, hops[..|hops| - 1])
  }

  /** What the caller is shown of a walk. */
  ghost predicate Describes(g: Graph, path: seq<PathStep>, hops: seq<Edge>) {
    && |path| == |hops|
    && forall i :: 0 <= i < |hops| ==>
         IsEdge(g, hops[i]) && path[i] == PathStep(g.nodes[hops[i].source], g.nodes[hops[i].target], hops[i].relation)
  }

  /** `path` shows a walk from `from` to `to`, and no walk between them is shorter. */
  ghost predicate ShowsShortest(g: Graph, from: int, to: int, path: seq<PathStep>) {
    && (exists hops :: IsWalk(g, from, to, hops) && Describes(g, path, hops))
    && (forall hops :: IsWalk(g, from, to, hops) ==> |path| <= |hops|)
  }

  ghost predicate Within(g: Graph, from: int, to: int, limit: nat) {
    exists hops :: IsWalk(g, from, to, hops) && |hops| <= limit
  }

  // ---------------------------------------------------------------- the search

  /** Walks found so far; its keys are the visited nodes. */
  type Walks = map<int, seq<Edge>>

  ghost predicate WalksOk(g: Graph, from: int, limit: nat, walks: Walks) {
    && from in walks && walks[from] == []
    && forall v :: v in walks ==> v in g.nodes && IsWalk(g, from, v, walks[v]) && |walks[v]| <= limit
  }

  ghost predicate Queued(queue: seq<Item>, v: int) {
    exists i :: 0 <= i < |queue| && queue[i].id == v
  }

  ghost predicate ItemOk(g: Graph, walks: Walks, x: Item) {
    && x.id in walks && x.id in g.nodes
    && x.depth == |walks[x.id]| && x.source == g.nodes[x.id] && Describes(g, x.path, walks[x.id])
  }

  /** The queue holds one level and then the next. */
  ghost predicate QueueOk(g: Graph, walks: Walks, queue: seq<Item>, level: nat) {
    && (forall i :: 0 <= i < |queue| ==> ItemOk(g, walks, queue[i]) && level <= queue[i].depth <= level + 1)
    && (forall i, j :: 0 <= i < j < |queue| ==> queue[i].depth <= queue[j].depth)
    && (forall v :: v in walks ==> |walks[v]| <= level + 1)
  }

  /** Every edge out of v leads to a visited node, at most one level further. */
  ghost predicate Expanded(g: Graph, walks: Walks, v: int)
    requires v in walks
  {
    forall e :: IsEdge(g, e) && e.source == v ==> e.target in walks && |walks[e.target]| <= |walks[v]| + 1
  }

  ghost predicate Closed(g: Graph, limit: nat, walks: Walks, queue: seq<Item>) {
    forall v :: v in walks && !Queued(queue, v) && |walks[v]| < limit ==> Expanded(g, walks, v)
  }

  /** Any walk ends at a node visited no later than its length, or something shallower is still queued. */
  lemma {:induction false} WalkIsCovered(g: Graph, from: int, limit: nat, walks: Walks, queue: seq<Item>, v: int,
      hops: seq<Edge>)
    requires WalksOk(g, from, limit, walks) && Closed(g, limit, walks, queue)
    requires forall i :: 0 <= i < |queue| ==> ItemOk(g, walks, queue[i])
    requires IsWalk(g, from, v, hops) && |hops| <= limit
    ensures (v in walks && |walks[v]| <= |hops|) || exists i :: 0 <= i < |queue| && queue[i].depth < |hops|
    decreases |hops|
  {
    if hops != [] {
      var last := hops[|hops| - 1];
      var u := last.source;
      WalkIsCovered(g, from, limit, walks, queue, u, hops[..|hops| - 1]);
      if u in walks && |walks[u]| <= |hops| - 1 {
        if Queued(queue, u) {
          var i :| 0 <= i < |queue| && queue[i].id == u;
          assert queue[i].depth < |hops|;
        } else {
          assert Expanded(g, walks, u);
        }
      }
    }
  }

  /** Exactly the newly visited nodes joined the queue, and no walk found before changed. */
  ghost predicate Grown(walks: Walks, rest: seq<Item>, walks': Walks, queue: seq<Item>) {
    && (forall v :: v in walks ==> v in walks' && walks'[v] == walks[v])
    && (forall v :: v in walks' ==> (Queued(queue, v) <==> Queued(rest, v) || v !in walks))
    && |queue| + |walks| == |rest| + |walks'|
  }

  ghost predicate LeadsTo(g: Graph, id: int, v: int) {
    exists e :: IsEdge(g, e) && e.source == id && e.target == v
  }

  ghost predicate RowsFrom(g: Graph, id: int, rows: seq<Row>) {
    forall k :: 0 <= k < |rows| ==> IsEdge(g, Edge(id, rows[k].id, rows[k].relation)) && rows[k].node == g.nodes[rows[k].id]
  }

  /** The books after k rows of one node: `walks0` and `rest` are what they were before the first. */
  ghost predicate Expanding(g: Graph, from: int, limit: nat, walks0: Walks, rest: seq<Item>, current: Item,
      rows: seq<Row>, k: nat, queue: seq<Item>, walks: Walks)
    requires k <= |rows|
  {
    && WalksOk(g, from, limit, walks) && QueueOk(g, walks, queue, current.depth)
    && Grown(walks0, rest, walks, queue) && rest <= queue
    && (forall v :: v in walks ==> v in walks0 || LeadsTo(g, current.id, v))
    && (forall j :: 0 <= j < k ==> rows[j].id in walks && |walks[rows[j].id]| <= current.depth + 1)
  }

  /** Appends the unvisited targets of one node, each with the path that reached it. */
  method Expand(g: Graph, current: Item, rest: seq<Item>, ghost from: int, ghost limit: nat, ghost walks: Walks,
      visited: set<int>)
    returns (queue: seq<Item>, visited': set<int>, ghost walks': Walks)
    requires 0 !in g.nodes && visited == walks.Keys
    requires WalksOk(g, from, limit, walks) && ItemOk(g, walks, current) && current.depth < limit
    requires QueueOk(g, walks, rest, current.depth)
    ensures rest <= queue && forall v :: v in visited' <==> v in visited || LeadsTo(g, current.id, v)
    ensures visited' == walks'.Keys
    ensures WalksOk(g, from, limit, walks') && QueueOk(g, walks', queue, current.depth)
    ensures Grown(walks, rest, walks', queue)
    ensures Expanded(g, walks', current.id)
  {
    var rows := Outgoing(g, current.id);
    RowsAreEdges(g, current.id, rows);
    queue, visited', walks' := rest, visited, walks;
    for k := 0 to |rows|
      invariant visited' == walks'.Keys
      invariant Expanding(g, from, limit, walks, rest, current, rows, k, queue, walks')
    {
      var row := rows[k];
      if row.id == 0 || row.id in visited' {
        SkipRow(g, from, limit, walks, rest, current, rows, k, queue, walks');
        continue;
      }
      visited' := visited' + {row.id};
      var step := PathStep(current.source, row.node, row.relation);
      var item := Item(row.id, current.path + [step], current.depth + 1, row.node);
      walks' := Reach(g, from, limit, walks, rest, current, rows, k, queue, walks', item);
      queue := queue + [item];
    }
    RowsCoverEdges(g, walks', current.id, rows);
  }

  lemma RowsAreEdges(g: Graph, id: int, rows: seq<Row>)
    requires id in g.nodes && rows == Outgoing(g, id)
    ensures RowsFrom(g, id, rows)
  {
    OutgoingExact(g, id, |g.edges|);
    forall k | 0 <= k < |rows|
      ensures IsEdge(g, Edge(id, rows[k].id, rows[k].relation)) && rows[k].node == g.nodes[rows[k].id]
    {
      assert rows[k] in rows;
    }
  }

  /** A target visited before was reached no later than one level on. */
  lemma SkipRow(g: Graph, from: int, limit: nat, walks0: Walks, rest: seq<Item>, current: Item, rows: seq<Row>, k: nat,
      queue: seq<Item>, walks: Walks)
    requires 0 !in g.nodes && k < |rows| && RowsFrom(g, current.id, rows)
    requires Expanding(g, from, limit, walks0, rest, current, rows, k, queue, walks)
    requires rows[k].id == 0 || rows[k].id in walks
    ensures Expanding(g, from, limit, walks0, rest, current, rows, k + 1, queue, walks)
  {
  }

  lemma RowsCoverEdges(g: Graph, walks: Walks, v: int, rows: seq<Row>)
    requires v in walks && v in g.nodes && rows == Outgoing(g, v)
    requires forall j :: 0 <= j < |rows| ==> rows[j].id in walks && |walks[rows[j].id]| <= |walks[v]| + 1
    ensures Expanded(g, walks, v)
  {
    OutgoingExact(g, v, |g.edges|);
    forall e | IsEdge(g, e) && e.source == v ensures e.target in walks && |walks[e.target]| <= |walks[v]| + 1 {
      var row := Row(e.target, g.nodes[e.target], e.relation);
      var i :| 0 <= i < |g.edges| && g.edges[i] == e;
      assert row in rows;
      var j :| 0 <= j < |rows| && rows[j] == row;
    }
  }

  lemma QueuedAppend(queue: seq<Item>, item: Item, v: int)
    ensures Queued(queue + [item], v) <==> Queued(queue, v) || v == item.id
  {
    if Queued(queue, v) {
      var i :| 0 <= i < |queue| && queue[i].id == v;
      assert (queue + [item])[i].id == v;
    }
    assert (queue + [item])[|queue|].id == item.id;
  }

  lemma WalksByOne(g: Graph, from: int, limit: nat, walks: Walks, hop: Edge)
    requires WalksOk(g, from, limit, walks) && hop.source in walks && |walks[hop.source]| < limit
    requires IsEdge(g, hop) && hop.target !in walks
    ensures WalksOk(g, from, limit, walks[hop.target := walks[hop.source] + [hop]])
  {
    var hops := walks[hop.source] + [hop];
    assert hops[..|hops| - 1] == walks[hop.source];
  }

  lemma ItemByOne(g: Graph, walks: Walks, current: Item, hop: Edge, item: Item)
    requires ItemOk(g, walks, current) && IsEdge(g, hop) && hop.source == current.id && hop.target !in walks
    requires item.id == hop.target && item.depth == current.depth + 1 && item.source == g.nodes[hop.target]
    requires item.path == current.path + [PathStep(current.source, g.nodes[hop.target], hop.relation)]
    ensures ItemOk(g, walks[hop.target := walks[hop.source] + [hop]], item)
  {
  }

  lemma QueueByOne(g: Graph, walks: Walks, queue: seq<Item>, level: nat, item: Item, hops: seq<Edge>)
    requires QueueOk(g, walks, queue, level) && item.id !in walks
    requires item.depth == level + 1 == |hops| && ItemOk(g, walks[item.id := hops], item)
    ensures QueueOk(g, walks[item.id := hops], queue + [item], level)
  {
    var r, q := walks[item.id := hops], queue + [item];
    forall i | 0 <= i < |q| ensures ItemOk(g, r, q[i]) && level <= q[i].depth <= level + 1 {
      if i < |queue| { assert ItemOk(g, walks, queue[i]); }
    }
  }

  /** Recording the walk to one more node keeps the books. */
  lemma Reach(g: Graph, from: int, limit: nat, walks0: Walks, rest: seq<Item>, current: Item, rows: seq<Row>, k: nat,
      queue: seq<Item>, walks: Walks, item: Item)
    returns (r: Walks)
    requires k < |rows| && RowsFrom(g, current.id, rows)
    requires Expanding(g, from, limit, walks0, rest, current, rows, k, queue, walks)
    requires ItemOk(g, walks0, current) && current.depth < limit && rows[k].id !in walks
    requires item.id == rows[k].id && item.depth == current.depth + 1 && item.source == rows[k].node
    requires item.path == current.path + [PathStep(current.source, rows[k].node, rows[k].relation)]
    ensures r.Keys == walks.Keys + {rows[k].id}
    ensures Expanding(g, from, limit, walks0, rest, current, rows, k + 1, queue + [item], r)
  {
    var hop := Edge(current.id, rows[k].id, rows[k].relation);
    var hops := walks[current.id] + [hop];
    r := walks[hop.target := hops];
    assert ItemOk(g, walks, current);
    WalksByOne(g, from, limit, walks, hop);
    ItemByOne(g, walks, current, hop, item);
    QueueByOne(g, walks, queue, current.depth, item, hops);
    GrownByOne(walks0, rest, walks, queue, item, hops);
    assert LeadsTo(g, current.id, hop.target);
  }

  lemma GrownByOne(walks0: Walks, rest: seq<Item>, walks: Walks, queue: seq<Item>, item: Item, hops: seq<Edge>)
    requires Grown(walks0, rest, walks, queue) && item.id !in walks
    ensures Grown(walks0, rest, walks[item.id := hops], queue + [item])
  {
    var r := walks[item.id := hops];
    forall v | v in r ensures Queued(queue + [item], v) <==> Queued(rest, v) || v !in walks0 {
      QueuedAppend(queue, item, v);
    }
    assert r.Keys == walks.Keys + {item.id};
    assert |r| == |r.Keys| && |walks| == |walks.Keys|;
  }

  /** FindShortestPath, once both names have been looked up. */
  method FindShortestPath(g: Graph, fromNodes: seq<int>, toNodes: seq<int>, limit: int) returns (r: Result)
    requires 0 !in g.nodes
    requires forall i :: 0 <= i < |fromNodes| ==> fromNodes[i] in g.nodes
    requires forall i :: 0 <= i < |toNodes| ==> toNodes[i] in g.nodes
    ensures fromNodes == [] || toNodes == [] ==> r == Result(false, [])
    ensures fromNodes != [] && toNodes != [] ==>
      && (r.found <==> Within(g, fromNodes[0], toNodes[0], if limit >= 1 then limit else 6))
      && (r.found ==> ShowsShortest(g, fromNodes[0], toNodes[0], r.path))
  {
    if |fromNodes| == 0 || |toNodes| == 0 {
      return Result(false, []);
    }
    var bound := Limit(limit);
    var from, to := fromNodes[0], toNodes[0];
    var visited := {from};
    var queue := [Item(from, [], 0, g.nodes[from])];
    ghost var walks: Walks := map[from := []];
    ghost var level := 0;
    assert queue[0].id == from;
    while |queue| > 0
      invariant visited == walks.Keys
      invariant Books(g, from, to, bound, walks, queue, level)
      decreases g.nodes.Keys - visited, |queue|
    {
      var current := queue[0];
      var rest := queue[1..];
      if current.id == to {
        Arrived(g, from, bound, walks, queue, level);
        return Result(true, current.path);
      }
      PopKeeps(g, from, to, bound, walks, queue, level);
      queue := rest;
      level := current.depth;
      if current.depth >= bound { continue; }
      ghost var walks0 := walks;
      queue, visited, walks := Expand(g, current, rest, from, bound, walks, visited);
      ExpandKeeps(g, from, to, bound, walks0, rest, current, walks, queue);
      NoRepeat(g, from, bound, walks0, rest, walks, queue);
    }
    Exhausted(g, from, to, bound, walks, level);
    return Result(false, []);
  }

  ghost predicate Books(g: Graph, from: int, to: int, limit: nat, walks: Walks, queue: seq<Item>, level: nat) {
    && WalksOk(g, from, limit, walks) && QueueOk(g, walks, queue, level)
    && Closed(g, limit, walks, queue)
    && (to in walks ==> Queued(queue, to))
  }

  /** Closed apart from one node that has just left the queue. */
  ghost predicate ClosedBut(g: Graph, limit: nat, walks: Walks, queue: seq<Item>, u: int) {
    forall v :: v in walks && v != u && !Queued(queue, v) && |walks[v]| < limit ==> Expanded(g, walks, v)
  }

  lemma QueuedTail(queue: seq<Item>, v: int)
    requires queue != [] && Queued(queue, v)
    ensures v == queue[0].id || Queued(queue[1..], v)
  {
    var i :| 0 <= i < |queue| && queue[i].id == v;
    if i > 0 { assert queue[1..][i - 1].id == v; }
  }

  lemma PopKeeps(g: Graph, from: int, to: int, limit: nat, walks: Walks, queue: seq<Item>, level: nat)
    requires queue != [] && queue[0].id != to && Books(g, from, to, limit, walks, queue, level)
    ensures QueueOk(g, walks, queue[1..], queue[0].depth)
    ensures ClosedBut(g, limit, walks, queue[1..], queue[0].id)
    ensures queue[0].depth >= limit ==> Closed(g, limit, walks, queue[1..])
    ensures to in walks ==> Queued(queue[1..], to)
  {
    var rest := queue[1..];
    assert ItemOk(g, walks, queue[0]);
    forall v | v in walks && v != queue[0].id && !Queued(rest, v) && |walks[v]| < limit ensures Expanded(g, walks, v) {
      if Queued(queue, v) { QueuedTail(queue, v); }
    }
    if to in walks { QueuedTail(queue, to); }
    forall i | 0 <= i < |rest| ensures ItemOk(g, walks, rest[i])
        && queue[0].depth <= rest[i].depth <= queue[0].depth + 1 {
      assert rest[i] == queue[i + 1];
    }
  }

  lemma ExpandKeeps(g: Graph, from: int, to: int, limit: nat, walks: Walks, rest: seq<Item>, current: Item,
      walks': Walks, queue: seq<Item>)
    requires ClosedBut(g, limit, walks, rest, current.id) && (to in walks ==> Queued(rest, to))
    requires Grown(walks, rest, walks', queue) && current.id in walks && Expanded(g, walks', current.id)
    ensures Closed(g, limit, walks', queue) && (to in walks' ==> Queued(queue, to))
  {
    forall v | v in walks' && !Queued(queue, v) && |walks'[v]| < limit ensures Expanded(g, walks', v) {
      if v != current.id { assert Expanded(g, walks, v); }
    }
  }

  lemma NoRepeat(g: Graph, from: int, limit: nat, walks: Walks, rest: seq<Item>, walks': Walks, queue: seq<Item>)
    requires WalksOk(g, from, limit, walks') && Grown(walks, rest, walks', queue)
    ensures g.nodes.Keys - walks'.Keys < g.nodes.Keys - walks.Keys || (walks'.Keys == walks.Keys && |queue| == |rest|)
  {
    assert forall v :: v in walks ==> v in walks';
    assert forall v :: v in walks' ==> v in g.nodes;
    if v :| v in walks'.Keys && v !in walks.Keys {
      assert v in g.nodes.Keys - walks.Keys;
    } else {
      assert walks'.Keys == walks.Keys by {
        forall v ensures v in walks'.Keys <==> v in walks.Keys {
          if v in walks { assert v in walks'; }
        }
      }
      assert |walks'| == |walks'.Keys| && |walks| == |walks.Keys|;
    }
  }

  lemma Exhausted(g: Graph, from: int, to: int, limit: nat, walks: Walks, level: nat)
    requires Books(g, from, to, limit, walks, [], level)
    ensures !Within(g, from, to, limit)
  {
    if Within(g, from, to, limit) {
      var hops :| IsWalk(g, from, to, hops) && |hops| <= limit;
      WalkIsCovered(g, from, limit, walks, [], to, hops);
    }
  }

  lemma Arrived(g: Graph, from: int, limit: nat, walks: Walks, queue: seq<Item>, level: nat)
    requires queue != [] && WalksOk(g, from, limit, walks) && QueueOk(g, walks, queue, level)
    requires Closed(g, limit, walks, queue)
    ensures Within(g, from, queue[0].id, limit) && ShowsShortest(g, from, queue[0].id, queue[0].path)
  {
    var to := queue[0].id;
    assert ItemOk(g, walks, queue[0]);
    assert IsWalk(g, from, to, walks[to]);
    forall hops | IsWalk(g, from, to, hops) ensures |queue[0].path| <= |hops| {
      if |hops| <= limit { WalkIsCovered(g, from, limit, walks, queue, to, hops); }
    }
  }
}
