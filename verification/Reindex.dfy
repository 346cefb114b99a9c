/**
 Incremental re-indexing of one file (internal/codegraph/storage.go:460-520). Tables are maps
 from id to row, statements are taken to succeed, and deleting a node cascades to its edges.
 */
module Reindexing {
  import opened Decimal
  import opened FiniteSets

  datatype NodeRec = NodeRec(name: string, startLine: int, kind: string, endLine: int, content: string)

  datatype Row = Row(file: nat, rec: NodeRec)

  datatype Edge = Edge(source: nat, target: nat, relation: string)

  datatype Import = Import(file: nat, path: string)

  /** `nextID` is the AUTOINCREMENT counter: no id is ever used twice. */
  datatype Tables = Tables(nodes: map<nat, Row>, edges: map<nat, Edge>, imports: map<nat, Import>, nextID: nat)

  const NUL: char := '\0'

  function NodeKey(name: string, line: int): string {
    name + [NUL] + Numeral(line)
  }

  function KeyOf(rec: NodeRec): string { NodeKey(rec.name, rec.startLine) }

  /** The key is exactly the pair of name and start line; the kind of the node is not part of it. */
  lemma NodeKeyExact(a: NodeRec, b: NodeRec)
    ensures KeyOf(a) == KeyOf(b) <==> a.name == b.name && a.startLine == b.startLine
  {
    if KeyOf(a) == KeyOf(b) {
      NamedNumeralInjective(a.name, a.startLine, b.name, b.startLine, NUL);
    }
  }

  /** Foreign keys hold, and the counter is ahead of every id. */
  ghost predicate Valid(t: Tables) {
    && (forall id :: id in t.nodes ==> id < t.nextID)
    && (forall e :: e in t.edges ==> t.edges[e].source in t.nodes && t.edges[e].target in t.nodes)
  }

  predicate InFile(nodes: map<nat, Row>, file: nat, id: nat) {
    id in nodes && nodes[id].file == file
  }

  ghost function FileIds(nodes: map<nat, Row>, file: nat): set<nat> {
    set id | id in nodes && nodes[id].file == file
  }

  /** For each key stored for the file, one of its rows: the one the query returned last. */
  ghost predicate Indexes(nodes: map<nat, Row>, file: nat, chosen: map<string, nat>) {
    && (forall k :: k in chosen ==> InFile(nodes, file, chosen[k]) && KeyOf(nodes[chosen[k]].rec) == k)
    && (forall id :: InFile(nodes, file, id) ==> KeyOf(nodes[id].rec) in chosen)
  }

  /** A stored row that another row with its key hides from the index. */
  ghost predicate Shadowed(nodes: map<nat, Row>, file: nat, chosen: map<string, nat>, id: nat) {
    InFile(nodes, file, id) && KeyOf(nodes[id].rec) in chosen && chosen[KeyOf(nodes[id].rec)] != id
  }

  /** Some of the first n new nodes has key k. */
  ghost predicate KeyAmong(recs: seq<NodeRec>, n: nat, k: string)
    requires n <= |recs|
  {
    exists j :: 0 <= j < n && KeyOf(recs[j]) == k
  }

  /** New node i has row `id`: the row its key had, if it is the first with that key, or a fresh one. */
  ghost predicate PlacedAt(t: Tables, recs: seq<NodeRec>, i: nat, chosen: map<string, nat>, id: nat)
    requires i < |recs|
  {
    if KeyOf(recs[i]) in chosen && !KeyAmong(recs, i, KeyOf(recs[i])) then id == chosen[KeyOf(recs[i])]
        else t.nextID <= id
  }

  ghost predicate Placed(t: Tables, recs: seq<NodeRec>, n: nat, chosen: map<string, nat>, ids: seq<nat>)
    requires n <= |recs|
  {
    && |ids| == n
    && (forall i, j :: 0 <= i < j < n ==> ids[i] != ids[j])
    && (forall i :: 0 <= i < n ==> PlacedAt(t, recs, i, chosen, ids[i]))
  }

  /** The file's rows are the new nodes, and whatever the index never saw. */
  ghost predicate RowsReplaced(t: Tables, t': Tables, file: nat, recs: seq<NodeRec>, chosen: map<string, nat>,
      ids: seq<nat>) {
    && |ids| == |recs|
    && (forall i :: 0 <= i < |ids| ==> ids[i] in t'.nodes && t'.nodes[ids[i]] == Row(file, recs[i]))
    && (forall id :: InFile(t'.nodes, file, id) <==> id in ids || Shadowed(t.nodes, file, chosen, id))
    && (forall id :: Shadowed(t.nodes, file, chosen, id) ==>
          id in t'.nodes && t'.nodes[id] == t.nodes[id] && id !in ids)
  }

  ghost predicate OthersKept(t: Tables, t': Tables, file: nat) {
    && (forall id :: id in t'.nodes && t'.nodes[id].file != file ==> id in t.nodes && t.nodes[id].file != file)
    && (forall id :: id in t.nodes && t.nodes[id].file != file ==> id in t'.nodes && t'.nodes[id] == t.nodes[id])
    && (forall m :: m in t'.imports <==> m in t.imports && t.imports[m].file != file)
    && (forall m :: m in t'.imports ==> t'.imports[m] == t.imports[m])
    && t.nextID <= t'.nextID
  }

  /** Edges from other files into surviving nodes stay; every edge out of the file goes, and none dangles. */
  ghost predicate EdgesKept(t: Tables, t': Tables, file: nat) {
    forall e ::
      && (e in t'.edges <==> e in t.edges && !InFile(t.nodes, file, t.edges[e].source) && t.edges[e].target in t'.nodes)
      && (e in t'.edges ==> t'.edges[e] == t.edges[e])
  }

  /** The whole effect of one re-index on the tables. */
  ghost predicate Reindexed(t: Tables, t': Tables, file: nat, recs: seq<NodeRec>, chosen: map<string, nat>,
      ids: seq<nat>) {
    && Indexes(t.nodes, file, chosen)
    && Placed(t, recs, |recs|, chosen, ids)
    && RowsReplaced(t, t', file, recs, chosen, ids)
    && OthersKept(t, t', file)
    && EdgesKept(t, t', file)
  }

  function Surviving(edges: map<nat, Edge>, gone: set<nat>): map<nat, Edge> {
    map e | e in edges && edges[e].source !in gone && edges[e].target !in gone :: edges[e]
  }

  function WithoutSources(edges: map<nat, Edge>, nodes: map<nat, Row>, file: nat): map<nat, Edge> {
    map e | e in edges && !InFile(nodes, file, edges[e].source) :: edges[e]
  }

  function WithoutImports(imports: map<nat, Import>, file: nat): map<nat, Import> {
    map m | m in imports && imports[m].file != file :: imports[m]
  }

  // ---------------------------------------------------------------- the transaction

  class Storage {
    var nodes: map<nat, Row>
    var edges: map<nat, Edge>
    var imports: map<nat, Import>
    var nextID: nat

    ghost function View(): Tables
      reads this
    {
      Tables(nodes, edges, imports, nextID)
    }

    constructor ()
      ensures View() == Tables(map[], map[], map[], 1) && Valid(View())
    {
      nodes, edges, imports, nextID := map[], map[], map[], 1;
    }

    /** SELECT of the file's rows into the key index; a later row with the same key wins. */
    method BuildIndex(file: nat) returns (existing: map<string, nat>)
      ensures Indexes(nodes, file, existing)
    {
      existing := map[];
      var left := nodes.Keys;
      while left != {}
        invariant left <= nodes.Keys
        invariant forall k :: k in existing ==> InFile(nodes, file, existing[k]) && KeyOf(nodes[existing[k]].rec) == k
        invariant forall id :: InFile(nodes, file, id) && id !in left ==> KeyOf(nodes[id].rec) in existing
        decreases |left|
      {
        var id :| id in left;
        left := left - {id};
        if nodes[id].file == file {
          existing := existing[KeyOf(nodes[id].rec) := id];
        }
      }
    }

    /** DELETE of one node, with the cascade to its edges. */
    method DeleteNode(id: nat)
      modifies this`nodes, this`edges
      ensures nodes == old(nodes) - {id}
      ensures edges == Surviving(old(edges), {id})
    {
      nodes := nodes - {id};
      edges := Surviving(edges, {id});
    }

    /** A new node whose key is in the index takes that row, which leaves the index. */
    method UpdateRow(file: nat, n: NodeRec, id: nat)
      modifies this`nodes
      ensures nodes == old(nodes)[id := Row(file, n)]
    {
      nodes := nodes[id := Row(file, n)];
    }

    /** Any other new node gets a row with a fresh id. */
    method InsertRow(file: nat, n: NodeRec)
      modifies this`nodes, this`nextID
      ensures nodes == old(nodes)[old(nextID) := Row(file, n)] && nextID == old(nextID) + 1
    {
      nodes := nodes[nextID := Row(file, n)];
      nextID := nextID + 1;
    }

    /** One new node: its key's row is updated, or a row is inserted. */
    method UpsertRow(ghost t: Tables, file: nat, recs: seq<NodeRec>, i: nat, ghost chosen: map<string, nat>,
        existing: map<string, nat>, ghost ids: seq<nat>)
      returns (left: map<string, nat>, ghost id: nat)
      requires i < |recs| && Valid(t) && Indexes(t.nodes, file, chosen)
      requires Upserting(t, View(), file, recs, i, chosen, existing, ids)
      modifies this`nodes, this`nextID
      ensures Upserting(t, View(), file, recs, i + 1, chosen, left, ids + [id])
    {
      ghost var before := View();
      var key := KeyOf(recs[i]);
      if key in existing {
        id := existing[key];
        UpdateRow(file, recs[i], existing[key]);
        UpdateKeeps(t, before, View(), file, recs, i, chosen, existing, ids);
        left := existing - {key};
      } else {
        id := nextID;
        InsertRow(file, recs[i]);
        InsertKeeps(t, before, View(), file, recs, i, chosen, existing, ids);
        left := existing;
      }
    }

    /** The upsert loop: update the row a key has, once, and insert the rest. */
    method Upsert(file: nat, recs: seq<NodeRec>, chosen: map<string, nat>)
      returns (existing: map<string, nat>, ghost ids: seq<nat>)
      requires Valid(View()) && Indexes(nodes, file, chosen)
      modifies this`nodes, this`nextID
      ensures Upserting(old(View()), View(), file, recs, |recs|, chosen, existing, ids)
    {
      ghost var t := View();
      existing := chosen;
      ids := [];
      for i := 0 to |recs|
        invariant Upserting(t, View(), file, recs, i, chosen, existing, ids)
      {
        ghost var id;
        existing, id := UpsertRow(t, file, recs, i, chosen, existing, ids);
        ids := ids + [id];
      }
    }

    /** Drops the rows the index still names: the file no longer has them. */
    method DeleteStale(existing: map<string, nat>)
      modifies this`nodes, this`edges
      ensures nodes == old(nodes) - existing.Values
      ensures edges == Surviving(old(edges), existing.Values)
    {
      var left := existing.Keys;
      ghost var gone: set<nat> := {};
      while left != {}
        invariant left <= existing.Keys
        invariant gone <= existing.Values
        invariant forall k :: k in existing && k !in left ==> existing[k] in gone
        invariant nodes == old(nodes) - gone && edges == Surviving(old(edges), gone)
        decreases |left|
      {
        var k :| k in left;
        left := left - {k};
        DeleteNode(existing[k]);
        assert existing[k] in existing.Values;
        gone := gone + {existing[k]};
      }
      assert gone == existing.Values;
    }

    /** One file's data is replaced; incoming edges from other files are left alone. */
    method ReindexFileData(file: nat, recs: seq<NodeRec>) returns (ghost chosen: map<string, nat>, ghost ids: seq<nat>)
      requires Valid(View())
      modifies this
      ensures Valid(View()) && Reindexed(old(View()), View(), file, recs, chosen, ids)
    {
      var index := BuildIndex(file);
      chosen := index;
      var existing;
      existing, ids := Upsert(file, recs, index);
      ghost var mid := View();
      DeleteStale(existing);
      edges := WithoutSources(edges, nodes, file);
      imports := WithoutImports(imports, file);
      ReplacesFile(old(View()), mid, View(), file, recs, chosen, existing, ids);
    }
  }

  /** After n upserts: the placed rows hold the new nodes, every other row is as it was. */
  ghost predicate Upserted(t: Tables, t': Tables, file: nat, recs: seq<NodeRec>, n: nat, ids: seq<nat>)
    requires n <= |recs|
  {
    && |ids| == n
    && t'.edges == t.edges && t'.imports == t.imports && t.nextID <= t'.nextID
    && (forall i :: 0 <= i < n ==> ids[i] in t'.nodes && ids[i] < t'.nextID && t'.nodes[ids[i]] == Row(file, recs[i]))
    && (forall id :: id in t'.nodes <==> id in t.nodes || id in ids)
    && (forall id :: id in t.nodes && id !in ids ==> t'.nodes[id] == t.nodes[id])
  }

  /** What is left of the index: the keys none of the first n new nodes has. */
  ghost predicate Unused(chosen: map<string, nat>, recs: seq<NodeRec>, n: nat, existing: map<string, nat>)
    requires n <= |recs|
  {
    && (forall k :: k in existing <==> k in chosen && !KeyAmong(recs, n, k))
    && (forall k :: k in existing ==> existing[k] == chosen[k])
  }

  /** The books of the upsert loop after n new nodes. */
  ghost predicate Upserting(t: Tables, t1: Tables, file: nat, recs: seq<NodeRec>, n: nat, chosen: map<string, nat>,
      existing: map<string, nat>, ids: seq<nat>)
    requires n <= |recs|
  {
    && Placed(t, recs, n, chosen, ids) && Upserted(t, t1, file, recs, n, ids) && Unused(chosen, recs, n, existing)
  }

  lemma UpdateKeeps(t: Tables, t1: Tables, t2: Tables, file: nat, recs: seq<NodeRec>, i: nat, chosen: map<string, nat>,
      existing: map<string, nat>, ids: seq<nat>)
    requires i < |recs| && Valid(t) && Indexes(t.nodes, file, chosen) && KeyOf(recs[i]) in existing
    requires Upserting(t, t1, file, recs, i, chosen, existing, ids)
    requires t2 == t1.(nodes := t1.nodes[existing[KeyOf(recs[i])] := Row(file, recs[i])])
    ensures var key := KeyOf(recs[i]);
      Upserting(t, t2, file, recs, i + 1, chosen, existing - {key}, ids + [existing[key]])
  {
    var id := existing[KeyOf(recs[i])];
    assert InFile(t.nodes, file, id);
    UnusedNext(chosen, recs, i, existing);
    PlaceOld(t, file, recs, i, chosen, existing, ids);
    UpsertedNext(t, t1, file, recs, i, ids, id, t1.nextID);
  }

  lemma InsertKeeps(t: Tables, t1: Tables, t2: Tables, file: nat, recs: seq<NodeRec>, i: nat, chosen: map<string, nat>,
      existing: map<string, nat>, ids: seq<nat>)
    requires i < |recs| && KeyOf(recs[i]) !in existing
    requires Upserting(t, t1, file, recs, i, chosen, existing, ids)
    requires t2 == t1.(nodes := t1.nodes[t1.nextID := Row(file, recs[i])], nextID := t1.nextID + 1)
    ensures Upserting(t, t2, file, recs, i + 1, chosen, existing, ids + [t1.nextID])
  {
    UnusedNext(chosen, recs, i, existing);
    PlaceNew(t, recs, i, chosen, existing, ids, t1.nextID);
    UpsertedNext(t, t1, file, recs, i, ids, t1.nextID, t1.nextID + 1);
  }

  lemma KeyAmongNext(recs: seq<NodeRec>, i: nat, k: string)
    requires i < |recs|
    ensures KeyAmong(recs, i + 1, k) <==> KeyAmong(recs, i, k) || KeyOf(recs[i]) == k
  {
  }

  /** The row of a key not met yet is not taken. */
  lemma RowStillFree(t: Tables, file: nat, recs: seq<NodeRec>, i: nat, chosen: map<string, nat>, ids: seq<nat>,
      key: string)
    requires i <= |recs| && Valid(t) && Indexes(t.nodes, file, chosen)
    requires Placed(t, recs, i, chosen, ids) && key in chosen && !KeyAmong(recs, i, key)
    ensures chosen[key] !in ids
  {
    forall j | 0 <= j < i ensures ids[j] != chosen[key] {
      assert PlacedAt(t, recs, j, chosen, ids[j]);
      assert KeyOf(recs[j]) != key;
      assert InFile(t.nodes, file, chosen[key]);
    }
  }

  lemma PlacedAppend(t: Tables, recs: seq<NodeRec>, i: nat, chosen: map<string, nat>, ids: seq<nat>, id: nat)
    requires i < |recs| && Placed(t, recs, i, chosen, ids) && PlacedAt(t, recs, i, chosen, id) && id !in ids
    ensures Placed(t, recs, i + 1, chosen, ids + [id])
  {
  }

  lemma PlaceOld(t: Tables, file: nat, recs: seq<NodeRec>, i: nat, chosen: map<string, nat>,
      existing: map<string, nat>, ids: seq<nat>)
    requires i < |recs| && Valid(t) && Indexes(t.nodes, file, chosen)
    requires Placed(t, recs, i, chosen, ids) && Unused(chosen, recs, i, existing)
    requires KeyOf(recs[i]) in existing
    ensures existing[KeyOf(recs[i])] !in ids
    ensures Placed(t, recs, i + 1, chosen, ids + [existing[KeyOf(recs[i])]])
  {
    var key := KeyOf(recs[i]);
    RowStillFree(t, file, recs, i, chosen, ids, key);
    PlacedAppend(t, recs, i, chosen, ids, existing[key]);
  }

  lemma PlaceNew(t: Tables, recs: seq<NodeRec>, i: nat, chosen: map<string, nat>, existing: map<string, nat>,
      ids: seq<nat>, id: nat)
    requires i < |recs| && t.nextID <= id && forall j :: 0 <= j < |ids| ==> ids[j] < id
    requires Placed(t, recs, i, chosen, ids) && Unused(chosen, recs, i, existing)
    requires KeyOf(recs[i]) !in existing
    ensures Placed(t, recs, i + 1, chosen, ids + [id])
  {
    PlacedAppend(t, recs, i, chosen, ids, id);
  }

  lemma UnusedNext(chosen: map<string, nat>, recs: seq<NodeRec>, i: nat, existing: map<string, nat>)
    requires i < |recs| && Unused(chosen, recs, i, existing)
    ensures Unused(chosen, recs, i + 1, existing - {KeyOf(recs[i])})
    ensures KeyOf(recs[i]) !in existing ==> Unused(chosen, recs, i + 1, existing)
  {
    forall k ensures KeyAmong(recs, i + 1, k) <==> KeyAmong(recs, i, k) || KeyOf(recs[i]) == k {
      KeyAmongNext(recs, i, k);
    }
  }

  lemma UpsertedNext(t: Tables, t1: Tables, file: nat, recs: seq<NodeRec>, i: nat, ids: seq<nat>, id: nat, next: nat)
    requires i < |recs| && Upserted(t, t1, file, recs, i, ids)
    requires id !in ids && id < next && t1.nextID <= next
    ensures Upserted(t, Tables(t1.nodes[id := Row(file, recs[i])], t1.edges, t1.imports, next), file, recs, i + 1,
        ids + [id])
  {
  }

  /** A file row after the upserts is placed, stale or shadowed; the stale ones are what the index still names. */
  lemma RowsAfter(t: Tables, mid: Tables, file: nat, recs: seq<NodeRec>, chosen: map<string, nat>,
      existing: map<string, nat>, ids: seq<nat>, id: nat)
    requires Valid(t) && Indexes(t.nodes, file, chosen) && Placed(t, recs, |recs|, chosen, ids)
    requires Upserted(t, mid, file, recs, |recs|, ids) && Unused(chosen, recs, |recs|, existing)
    ensures id in existing.Values ==> InFile(t.nodes, file, id) && id !in ids && !Shadowed(t.nodes, file, chosen, id)
    ensures Shadowed(t.nodes, file, chosen, id) ==> id !in ids
    ensures InFile(mid.nodes, file, id) <==> id in ids || id in existing.Values || Shadowed(t.nodes, file, chosen, id)
  {
    if id in existing.Values {
      var k :| k in existing && existing[k] == id;
      RowStillFree(t, file, recs, |recs|, chosen, ids, k);
    }
    if Shadowed(t.nodes, file, chosen, id) {
      forall j | 0 <= j < |ids| ensures ids[j] != id { assert PlacedAt(t, recs, j, chosen, ids[j]); }
    }
    if InFile(t.nodes, file, id) && id !in ids && !Shadowed(t.nodes, file, chosen, id) {
      var k := KeyOf(t.nodes[id].rec);
      assert chosen[k] == id;
      if KeyAmong(recs, |recs|, k) { ChosenIsPlaced(t, recs, chosen, ids, k); }
      assert k in existing;
    }
  }

  /** The first new node with an indexed key takes that key's row. */
  lemma ChosenIsPlaced(t: Tables, recs: seq<NodeRec>, chosen: map<string, nat>, ids: seq<nat>, k: string)
    requires Placed(t, recs, |recs|, chosen, ids) && k in chosen && KeyAmong(recs, |recs|, k)
    ensures chosen[k] in ids
  {
    var i := FirstAmong(recs, |recs|, k);
    assert PlacedAt(t, recs, i, chosen, ids[i]);
  }

  lemma {:induction false} FirstAmong(recs: seq<NodeRec>, n: nat, k: string) returns (i: nat)
    requires n <= |recs| && KeyAmong(recs, n, k)
    ensures i < n && KeyOf(recs[i]) == k && !KeyAmong(recs, i, k)
  {
    if KeyAmong(recs, n - 1, k) { i := FirstAmong(recs, n - 1, k); } else { i := n - 1; }
  }

  lemma OtherRowsStay(t: Tables, mid: Tables, file: nat, recs: seq<NodeRec>, chosen: map<string, nat>,
      existing: map<string, nat>, ids: seq<nat>, id: nat)
    requires Valid(t) && Indexes(t.nodes, file, chosen) && Placed(t, recs, |recs|, chosen, ids)
    requires Upserted(t, mid, file, recs, |recs|, ids) && Unused(chosen, recs, |recs|, existing)
    ensures id in mid.nodes && mid.nodes[id].file != file <==> id in t.nodes && t.nodes[id].file != file
    ensures id in t.nodes && t.nodes[id].file != file ==>
      mid.nodes[id] == t.nodes[id] && id !in ids && id !in existing.Values
  {
    RowsAfter(t, mid, file, recs, chosen, existing, ids, id);
    if id in ids && id in t.nodes {
      var j :| 0 <= j < |ids| && ids[j] == id;
      assert PlacedAt(t, recs, j, chosen, ids[j]);
    }
  }

  lemma RowsAreReplaced(t: Tables, mid: Tables, t': Tables, file: nat, recs: seq<NodeRec>, chosen: map<string, nat>,
      existing: map<string, nat>, ids: seq<nat>)
    requires Valid(t) && Indexes(t.nodes, file, chosen) && Placed(t, recs, |recs|, chosen, ids)
    requires Upserted(t, mid, file, recs, |recs|, ids) && Unused(chosen, recs, |recs|, existing)
    requires t'.nodes == mid.nodes - existing.Values
    ensures RowsReplaced(t, t', file, recs, chosen, ids)
  {
    forall i | 0 <= i < |ids| ensures ids[i] in t'.nodes && t'.nodes[ids[i]] == Row(file, recs[i]) {
      RowsAfter(t, mid, file, recs, chosen, existing, ids, ids[i]);
    }
    forall id: nat ensures InFile(t'.nodes, file, id) <==> id in ids || Shadowed(t.nodes, file, chosen, id) {
      RowsAfter(t, mid, file, recs, chosen, existing, ids, id);
    }
    forall id: nat | Shadowed(t.nodes, file, chosen, id) ensures id in t'.nodes && t'.nodes[id] == t.nodes[id]
        && id !in ids {
      RowsAfter(t, mid, file, recs, chosen, existing, ids, id);
    }
  }

  lemma OthersAreKept(t: Tables, mid: Tables, t': Tables, file: nat, recs: seq<NodeRec>, chosen: map<string, nat>,
      existing: map<string, nat>, ids: seq<nat>)
    requires Valid(t) && Indexes(t.nodes, file, chosen) && Placed(t, recs, |recs|, chosen, ids)
    requires Upserted(t, mid, file, recs, |recs|, ids) && Unused(chosen, recs, |recs|, existing)
    requires t'.nodes == mid.nodes - existing.Values && t'.nextID == mid.nextID
    requires t'.imports == WithoutImports(mid.imports, file)
    ensures OthersKept(t, t', file)
  {
    forall id: nat | id in t'.nodes && t'.nodes[id].file != file ensures id in t.nodes && t.nodes[id].file != file {
      OtherRowsStay(t, mid, file, recs, chosen, existing, ids, id);
    }
    forall id: nat | id in t.nodes && t.nodes[id].file != file ensures id in t'.nodes && t'.nodes[id] == t.nodes[id] {
      OtherRowsStay(t, mid, file, recs, chosen, existing, ids, id);
    }
  }

  lemma EdgesAreKept(t: Tables, mid: Tables, t': Tables, file: nat, gone: set<nat>)
    requires Valid(t) && OthersKept(t, t', file) && mid.edges == t.edges
    requires (forall id :: id in t.nodes ==> id in mid.nodes) && t'.nodes == mid.nodes - gone
    requires t'.edges == WithoutSources(Surviving(mid.edges, gone), t'.nodes, file)
    ensures EdgesKept(t, t', file)
    ensures forall e :: e in t'.edges ==> t'.edges[e].source in t'.nodes && t'.edges[e].target in t'.nodes
  {
    forall e: nat | e in t.edges
      ensures e in t'.edges <==> !InFile(t.nodes, file, t.edges[e].source) && t.edges[e].target in t'.nodes
      ensures e in t'.edges ==> t'.edges[e].source in t'.nodes && t'.edges[e].target in t'.nodes
    {
      var source, target := t.edges[e].source, t.edges[e].target;
      assert source in mid.nodes && target in mid.nodes;
    }
  }

  lemma ReplacesFile(t: Tables, mid: Tables, t': Tables, file: nat, recs: seq<NodeRec>, chosen: map<string, nat>,
      existing: map<string, nat>, ids: seq<nat>)
    requires Valid(t) && Indexes(t.nodes, file, chosen) && Placed(t, recs, |recs|, chosen, ids)
    requires Upserted(t, mid, file, recs, |recs|, ids) && Unused(chosen, recs, |recs|, existing)
    requires t'.nodes == mid.nodes - existing.Values && t'.nextID == mid.nextID
    requires t'.edges == WithoutSources(Surviving(mid.edges, existing.Values), t'.nodes, file)
    requires t'.imports == WithoutImports(mid.imports, file)
    ensures Valid(t') && Reindexed(t, t', file, recs, chosen, ids)
  {
    RowsAreReplaced(t, mid, t', file, recs, chosen, existing, ids);
    OthersAreKept(t, mid, t', file, recs, chosen, existing, ids);
    EdgesAreKept(t, mid, t', file, existing.Values);
    forall id | id in t'.nodes ensures id < t'.nextID {
      if id in ids { var j :| 0 <= j < |ids| && ids[j] == id; }
    }
  }

  // ---------------------------------------------------------------- what a re-index amounts to

  ghost predicate StoredKeysDistinct(nodes: map<nat, Row>, file: nat) {
    forall a, b :: InFile(nodes, file, a) && InFile(nodes, file, b) && KeyOf(nodes[a].rec) == KeyOf(nodes[b].rec) ==> a == b
  }

  ghost predicate ExactlyTheNewNodes(t': Tables, file: nat, recs: seq<NodeRec>, ids: seq<nat>) {
    && |ids| == |recs| && (forall i :: 0 <= i < |ids| ==> ids[i] in t'.nodes && t'.nodes[ids[i]] == Row(file, recs[i]))
    && (forall id :: InFile(t'.nodes, file, id) <==> id in ids)
  }

  /** The file is replaced exactly when its stored rows had distinct keys; the new nodes may repeat keys. */
  lemma ReplacesIffStoredKeysDistinct(t: Tables, t': Tables, file: nat, recs: seq<NodeRec>, chosen: map<string, nat>,
      ids: seq<nat>)
    requires Reindexed(t, t', file, recs, chosen, ids)
    ensures ExactlyTheNewNodes(t', file, recs, ids) <==> StoredKeysDistinct(t.nodes, file)
  {
    if a, b :| InFile(t.nodes, file, a) && InFile(t.nodes, file, b) && KeyOf(t.nodes[a].rec) == KeyOf(t.nodes[b].rec) && a != b {
      var hidden := if chosen[KeyOf(t.nodes[a].rec)] == a then b else a;
      assert Shadowed(t.nodes, file, chosen, hidden);
      assert InFile(t'.nodes, file, hidden) && hidden !in ids;
    } else {
      forall id: nat ensures !Shadowed(t.nodes, file, chosen, id) {
        if InFile(t.nodes, file, id) { assert InFile(t.nodes, file, chosen[KeyOf(t.nodes[id].rec)]); }
      }
    }
  }

  /** A stored row survives exactly when some new node has its key, or another stored row hides it from the index. */
  lemma SurvivesIff(t: Tables, t': Tables, file: nat, recs: seq<NodeRec>, chosen: map<string, nat>, ids: seq<nat>,
      id: nat)
    requires Valid(t) && Reindexed(t, t', file, recs, chosen, ids) && InFile(t.nodes, file, id)
    ensures InFile(t'.nodes, file, id) <==>
      KeyAmong(recs, |recs|, KeyOf(t.nodes[id].rec)) || Shadowed(t.nodes, file, chosen, id)
  {
    var k := KeyOf(t.nodes[id].rec);
    if Shadowed(t.nodes, file, chosen, id) {
      assert InFile(t'.nodes, file, id);
    } else if KeyAmong(recs, |recs|, k) {
      var i := FirstAmong(recs, |recs|, k);
      assert PlacedAt(t, recs, i, chosen, ids[i]);
    } else {
      forall i | 0 <= i < |ids| ensures ids[i] != id {
        assert PlacedAt(t, recs, i, chosen, ids[i]);
        assert KeyOf(recs[i]) != k;
      }
    }
  }

  /** A key that stays keeps the ids of its rows, and with them every edge other files have into them. */
  lemma SurvivorKeepsIdAndEdges(t: Tables, t': Tables, file: nat, recs: seq<NodeRec>, chosen: map<string, nat>,
      ids: seq<nat>, id: nat, e: nat)
    requires Reindexed(t, t', file, recs, chosen, ids)
    requires InFile(t.nodes, file, id) && KeyAmong(recs, |recs|, KeyOf(t.nodes[id].rec))
    ensures InFile(t'.nodes, file, id) && KeyOf(t'.nodes[id].rec) == KeyOf(t.nodes[id].rec)
    ensures e in t.edges && t.edges[e].target == id && !InFile(t.nodes, file, t.edges[e].source) ==>
      e in t'.edges && t'.edges[e] == t.edges[e]
  {
    var k := KeyOf(t.nodes[id].rec);
    if chosen[k] == id {
      var i := FirstAmong(recs, |recs|, k);
      assert PlacedAt(t, recs, i, chosen, ids[i]);
    } else {
      assert Shadowed(t.nodes, file, chosen, id);
    }
  }

  ghost function KeysOf(recs: seq<NodeRec>): set<string> {
    set i | 0 <= i < |recs| :: KeyOf(recs[i])
  }

  ghost function StoredKeys(nodes: map<nat, Row>, file: nat): set<string> {
    set id | id in nodes && nodes[id].file == file :: KeyOf(nodes[id].rec)
  }

  lemma {:induction false} InjectiveValues(m: map<string, nat>)
    requires forall k, j :: k in m && j in m && m[k] == m[j] ==> k == j
    ensures |m.Values| == |m|
    decreases |m|
  {
    if m == map[] {
      assert m.Values == {};
    } else {
      var k :| k in m;
      var rest := m - {k};
      assert rest.Keys == m.Keys - {k};
      assert |rest| == |rest.Keys| && |m| == |m.Keys|;
      InjectiveValues(rest);
      assert m.Values == rest.Values + {m[k]} by {
        forall v ensures v in m.Values <==> v in rest.Values || v == m[k] {
          if v in m.Values { var j :| j in m && m[j] == v; if j != k { assert rest[j] == v; } }
          if v in rest.Values { var j :| j in rest && rest[j] == v; assert m[j] == v; }
        }
      }
    }
  }

  ghost function Hidden(t: Tables, file: nat, chosen: map<string, nat>): set<nat> {
    set id | id in FileIds(t.nodes, file) && Shadowed(t.nodes, file, chosen, id)
  }

  lemma ChosenCountsKeys(nodes: map<nat, Row>, file: nat, chosen: map<string, nat>)
    requires Indexes(nodes, file, chosen)
    ensures |chosen.Values| == |StoredKeys(nodes, file)|
  {
    InjectiveValues(chosen);
    forall k | k in chosen.Keys ensures k in StoredKeys(nodes, file) { assert chosen[k] in nodes; }
    assert chosen.Keys == StoredKeys(nodes, file);
    assert |chosen| == |chosen.Keys|;
  }

  lemma StoredRowsSplit(t: Tables, file: nat, chosen: map<string, nat>)
    requires Indexes(t.nodes, file, chosen)
    ensures |FileIds(t.nodes, file)| == |Hidden(t, file, chosen)| + |chosen.Values|
  {
    var before, hidden := FileIds(t.nodes, file), Hidden(t, file, chosen);
    forall id ensures id in chosen.Values <==> id in before && id !in hidden {
      if id in chosen.Values { var k :| k in chosen && chosen[k] == id; }
      if id in before && id !in hidden { assert chosen[KeyOf(t.nodes[id].rec)] == id; }
    }
    assert before == hidden + chosen.Values && hidden !! chosen.Values;
  }

  /** Every stored row beyond the first of its key survives as litter. */
  lemma RowCountAfter(t: Tables, t': Tables, file: nat, recs: seq<NodeRec>, chosen: map<string, nat>, ids: seq<nat>)
    requires Reindexed(t, t', file, recs, chosen, ids)
    ensures |FileIds(t'.nodes, file)| == |recs| + |FileIds(t.nodes, file)| - |StoredKeys(t.nodes, file)|
  {
    ChosenCountsKeys(t.nodes, file, chosen);
    StoredRowsSplit(t, file, chosen);
    DistinctSize(ids);
    RowsSplit(t, t', file, recs, chosen, ids);
  }

  lemma RowsSplit(t: Tables, t': Tables, file: nat, recs: seq<NodeRec>, chosen: map<string, nat>, ids: seq<nat>)
    requires RowsReplaced(t, t', file, recs, chosen, ids)
    ensures |FileIds(t'.nodes, file)| == |Elements(ids)| + |Hidden(t, file, chosen)|
  {
    var after, hidden := FileIds(t'.nodes, file), Hidden(t, file, chosen);
    forall id: nat ensures (id in after <==> id in ids || id in hidden) && !(id in ids && id in hidden) {
      assert id in after <==> InFile(t'.nodes, file, id);
      assert id in hidden <==> Shadowed(t.nodes, file, chosen, id);
    }
    assert after == Elements(ids) + hidden && Elements(ids) !! hidden;
  }

  /** If the stored keys were among the new ones, the keys afterwards are exactly the new ones. */
  lemma KeysAfter(t: Tables, t': Tables, file: nat, recs: seq<NodeRec>, chosen: map<string, nat>, ids: seq<nat>)
    requires Reindexed(t, t', file, recs, chosen, ids) && StoredKeys(t.nodes, file) <= KeysOf(recs)
    ensures StoredKeys(t'.nodes, file) == KeysOf(recs)
  {
    forall k | k in KeysOf(recs) ensures k in StoredKeys(t'.nodes, file) {
      var i :| 0 <= i < |recs| && KeyOf(recs[i]) == k;
      assert ids[i] in t'.nodes;
    }
    forall k | k in StoredKeys(t'.nodes, file) ensures k in KeysOf(recs) {
      var id :| id in t'.nodes && t'.nodes[id].file == file && KeyOf(t'.nodes[id].rec) == k;
      assert InFile(t'.nodes, file, id);
      if id in ids { var i :| 0 <= i < |ids| && ids[i] == id; }
      else { assert Shadowed(t.nodes, file, chosen, id); assert k in StoredKeys(t.nodes, file); }
    }
  }

  ghost predicate ReindexesTo(t: Tables, t': Tables, file: nat, recs: seq<NodeRec>) {
    exists chosen, ids :: Reindexed(t, t', file, recs, chosen, ids)
  }

  /** The same nodes indexed again and again, over a file that had no rows. */
  ghost predicate Repeated(ts: seq<Tables>, file: nat, recs: seq<NodeRec>) {
    && ts != [] && FileIds(ts[0].nodes, file) == {}
    && forall n :: 0 <= n < |ts| - 1 ==> ReindexesTo(ts[n], ts[n + 1], file, recs)
  }

  lemma NoRowsNoKeys(nodes: map<nat, Row>, file: nat)
    requires FileIds(nodes, file) == {}
    ensures StoredKeys(nodes, file) == {}
  {
    forall id | id in nodes ensures nodes[id].file != file {
      assert nodes[id].file == file ==> id in FileIds(nodes, file);
    }
  }

  lemma OneMoreRun(t: Tables, t': Tables, file: nat, recs: seq<NodeRec>)
    requires ReindexesTo(t, t', file, recs) && StoredKeys(t.nodes, file) <= KeysOf(recs)
    ensures |FileIds(t'.nodes, file)| == |recs| + |FileIds(t.nodes, file)| - |StoredKeys(t.nodes, file)|
    ensures StoredKeys(t'.nodes, file) == KeysOf(recs)
  {
    var chosen, ids :| Reindexed(t, t', file, recs, chosen, ids);
    RowCountAfter(t, t', file, recs, chosen, ids);
    KeysAfter(t, t', file, recs, chosen, ids);
  }

  /** The rows of a file with `size` nodes of `keys` different keys after n runs. */
  function RowsAfterRuns(size: nat, keys: nat, n: nat): int
    requires n >= 1
  {
    size + (n - 1) * (size - keys)
  }

  lemma RowsAfterOneMore(size: nat, keys: nat, n: nat)
    requires n >= 2
    ensures RowsAfterRuns(size, keys, n) == size + RowsAfterRuns(size, keys, n - 1) - keys
  {
    assert (n - 1) * (size - keys) == (n - 2) * (size - keys) + (size - keys);
  }

  /** Each run after the first adds one row for every node whose key another node of the file already has. */
  lemma {:induction false} UnchangedFileGrows(ts: seq<Tables>, file: nat, recs: seq<NodeRec>, n: nat)
    requires Repeated(ts, file, recs) && 1 <= n < |ts|
    ensures |FileIds(ts[n].nodes, file)| == RowsAfterRuns(|recs|, |KeysOf(recs)|, n)
    ensures StoredKeys(ts[n].nodes, file) == KeysOf(recs)
  {
    var t := ts[n - 1];
    assert ReindexesTo(t, ts[(n - 1) + 1], file, recs);
    if n == 1 {
      NoRowsNoKeys(t.nodes, file);
    } else {
      UnchangedFileGrows(ts, file, recs, n - 1);
      RowsAfterOneMore(|recs|, |KeysOf(recs)|, n);
    }
    OneMoreRun(t, ts[n], file, recs);
  }

  /** What the two queries of the Go plugin yield for one struct: a node of kind "struct" and one of kind "type". */
  function GoStruct(name: string, line: int, endLine: int, content: string): seq<NodeRec> {
    [NodeRec(name, line, "struct", endLine, content), NodeRec(name, line, "type", endLine, content)]
  }

  /** A Go file with one struct has n + 1 rows after n runs over the same content. */
  lemma GoStructGrows(ts: seq<Tables>, file: nat, name: string, line: int, endLine: int, content: string, n: nat)
    requires Repeated(ts, file, GoStruct(name, line, endLine, content)) && 1 <= n < |ts|
    ensures |FileIds(ts[n].nodes, file)| == n + 1
  {
    var recs := GoStruct(name, line, endLine, content);
    GoStructHasOneKey(recs, name, line);
    UnchangedFileGrows(ts, file, recs, n);
  }

  lemma GoStructHasOneKey(recs: seq<NodeRec>, name: string, line: int)
    requires |recs| == 2 && forall i :: 0 <= i < 2 ==> recs[i].name == name && recs[i].startLine == line
    ensures |KeysOf(recs)| == 1
  {
    assert KeyOf(recs[0]) == NodeKey(name, line);
    forall k ensures k in KeysOf(recs) <==> k == NodeKey(name, line) {}
    assert KeysOf(recs) == {NodeKey(name, line)};
  }
}
