/**
 Name resolution while edges are built (internal/codegraph/engine.go:217-393): an in-memory index
 that stands in for a query, scoped lookup, and a capped product of sources and targets.
 */
module NodeIndex {
  import opened Options

  datatype NodeRecord = NodeRecord(id: int, name: string, qualifiedName: string, path: string)

  /** FindNodesByName's predicate. */
  predicate Matches(n: NodeRecord, name: string) {
    n.name == name || n.qualifiedName == name
  }

  /** Under which names the index lists a node. */
  predicate ListedUnder(n: NodeRecord, name: string) {
    n.name == name || (n.qualifiedName != "" && n.qualifiedName != n.name && n.qualifiedName == name)
  }

  type Test = NodeRecord -> bool

  function Named(name: string): Test { (n: NodeRecord) => Matches(n, name) }
  function ListedAs(name: string): Test { (n: NodeRecord) => ListedUnder(n, name) }
  function InFile(file: string): Test { (n: NodeRecord) => n.path == file }
  function Beside(file: string, dir: string -> string): Test {
    (n: NodeRecord) => n.path != file && dir(n.path) == dir(file)
  }

  function Filter(all: seq<NodeRecord>, p: Test): seq<NodeRecord> {
    if all == [] then []
    else Filter(all[..|all| - 1], p) + if p(all[|all| - 1]) then [all[|all| - 1]] else []
  }

  /** The rows the query answers, in id order. */
  function Query(all: seq<NodeRecord>, name: string): seq<NodeRecord> {
    Filter(all, Named(name))
  }

  function Listed(all: seq<NodeRecord>, name: string): seq<NodeRecord> {
    Filter(all, ListedAs(name))
  }

  ghost predicate ById(all: seq<NodeRecord>) {
    forall i, j :: 0 <= i < j < |all| ==> all[i].id < all[j].id
  }

  /** A filter of rows in id order has exactly the rows that pass, each once, in id order. */
  lemma {:induction false} FilterExact(all: seq<NodeRecord>, p: Test)
    requires ById(all)
    ensures ById(Filter(all, p))
    ensures forall n :: n in Filter(all, p) <==> n in all && p(n)
  {
    if all != [] {
      var front, last := all[..|all| - 1], all[|all| - 1];
      FilterExact(front, p);
      assert all == front + [last];
      var kept := Filter(front, p);
      forall i | 0 <= i < |kept| ensures kept[i].id < last.id {
        assert kept[i] in front;
      }
    }
  }

  lemma {:induction false} FilterSame(all: seq<NodeRecord>, p: Test, q: Test)
    requires forall n :: n in all ==> p(n) == q(n)
    ensures Filter(all, p) == Filter(all, q)
  {
    if all != [] {
      FilterSame(all[..|all| - 1], p, q);
      assert all[|all| - 1] in all;
    }
  }

  /**
   The index answers what the query would for every non-empty name; for the empty name it agrees
   exactly when no named node lacks a qualified name.
   */
  lemma IndexAnswersQueryIff(all: seq<NodeRecord>, name: string)
    requires ById(all)
    ensures Listed(all, name) == Query(all, name) <==>
      name != "" || forall n :: n in all && n.qualifiedName == "" ==> n.name == ""
  {
    if name != "" || forall n :: n in all && n.qualifiedName == "" ==> n.name == "" {
      FilterSame(all, ListedAs(name), Named(name));
    } else {
      var n :| n in all && n.qualifiedName == "" && n.name != "";
      FilterExact(all, ListedAs(name));
      FilterExact(all, Named(name));
      assert n in Query(all, name) && n !in Listed(all, name);
    }
  }

  /** A node is found by its name and by its qualified name, through the index as through the query, and by nothing else;
      only the query finds one that has no qualified name by the empty name. */
  lemma FoundByItsNames(all: seq<NodeRecord>, name: string, n: NodeRecord)
    requires ById(all)
    ensures n in Query(all, name) <==> n in all && (n.name == name || n.qualifiedName == name)
    ensures n in Listed(all, name) <==> n in all && (n.name == name || (name != "" && n.qualifiedName == name))
  {
    FilterExact(all, Named(name));
    FilterExact(all, ListedAs(name));
  }

  /** What Phase 2 stores as the qualified name of a node the parser named `name` in the file `path`. */
  function StoredQualifiedName(path: string, name: string, parsed: Option<string>): string {
    if parsed.None? || parsed.value == name then path + "::" + name else parsed.value
  }

  /** A node parsed without a qualified name of its own is stored under its file and its name. */
  lemma QualifiedNameFilled(path: string, name: string, own: string)
    requires own != name
    ensures StoredQualifiedName(path, name, None) == StoredQualifiedName(path, name, Some(name)) == path + "::" + name
    ensures StoredQualifiedName(path, name, Some(own)) == own
  {
  }

  ghost predicate StoredByIndex(n: NodeRecord) {
    exists parsed: Option<string> :: parsed != Some("") && n.qualifiedName == StoredQualifiedName(n.path, n.name, parsed)
  }

  /** For nodes stored by Phase 2 the index and the query agree on every name, the empty one included. */
  lemma StoredNodesAnswerAlike(all: seq<NodeRecord>, name: string)
    requires ById(all) && forall n :: n in all ==> StoredByIndex(n)
    ensures Listed(all, name) == Query(all, name)
  {
    forall n | n in all ensures n.qualifiedName != "" {
      var parsed: Option<string> :| parsed != Some("") && n.qualifiedName == StoredQualifiedName(n.path, n.name, parsed);
      assert |n.path + "::" + n.name| >= 2;
    }
    IndexAnswersQueryIff(all, name);
  }

  // ---------------------------------------------------------------- the resolver

  class NodeResolver {
    const storage: seq<NodeRecord> // what queries see, in id order
    var loaded: bool               // whether the one-shot load of the index succeeded
    var index: map<string, seq<NodeRecord>>
    var cache: map<string, seq<NodeRecord>>

    function Answer(name: string): seq<NodeRecord>
      reads this`loaded
    {
      if loaded then Listed(storage, name) else Query(storage, name)
    }

    ghost predicate Valid()
      reads this
    {
      && (loaded ==> IndexOf(storage, index))
      && (forall name :: name in cache ==> cache[name] == Answer(name))
    }

    constructor (storage: seq<NodeRecord>, loadFails: bool)
      ensures Valid() && this.storage == storage && loaded == !loadFails && cache == map[]
    {
      this.storage, cache := storage, map[];
      loaded := !loadFails;
      index := map[];
      new;
      if loadFails { return; }
      var built := BuildIndex(storage);
      index := built;
    }

    /** Every node matching a name; a repeated lookup is answered from the cache. */
    method Find(name: string) returns (nodes: seq<NodeRecord>)
      requires Valid()
      modifies this`cache
      ensures Valid() && nodes == if loaded then Listed(storage, name) else Query(storage, name)
      ensures name in cache && forall k :: k in old(cache) ==> k in cache
    {
      if name in cache { return cache[name]; }
      if loaded {
        nodes := if name in index then index[name] else [];
      } else {
        nodes := Query(storage, name);
      }
      cache := cache[name := nodes];
    }

    /** Scoped lookup: same file first, then same directory, then everywhere; `dir` is filepath.Dir. */
    method ResolveForScope(name: string, scopeFile: string, requireSameFile: bool, dir: string -> string)
      returns (nodes: seq<NodeRecord>, inferred: bool)
      requires Valid()
      modifies this`cache
      ensures Valid()
      ensures var all := if loaded then Listed(storage, name) else Query(storage, name);
        (nodes, inferred) == Scoped(all, scopeFile, requireSameFile, dir)
    {
      var all := Find(name);
      if |all| == 0 { return [], false; }
      var sameFile, sameDir := SplitByScope(all, scopeFile, dir);
      if |sameFile| > 0 { return sameFile, false; }
      if requireSameFile { return [], false; }
      if |sameDir| > 0 { return sameDir, false; }
      return all, true;
    }
  }

  /** The loop of the scoped lookup: the matches in the file itself, and those in other files of its directory. */
  method SplitByScope(all: seq<NodeRecord>, scopeFile: string, dir: string -> string)
    returns (sameFile: seq<NodeRecord>, sameDir: seq<NodeRecord>)
    ensures sameFile == Filter(all, InFile(scopeFile))
    ensures sameDir == Filter(all, Beside(scopeFile, dir))
  {
    sameFile, sameDir := [], [];
    for i := 0 to |all|
      invariant sameFile == Filter(all[..i], InFile(scopeFile))
      invariant sameDir == Filter(all[..i], Beside(scopeFile, dir))
    {
      var n := all[i];
      assert all[..i + 1][..i] == all[..i];
      if n.path == scopeFile {
        sameFile := sameFile + [n];
      } else if dir(n.path) == dir(scopeFile) {
        sameDir := sameDir + [n];
      }
    }
    assert all[..|all|] == all;
  }

  /** Each name lists its nodes in id order; a name that lists none has no entry. */
  ghost predicate IndexOf(all: seq<NodeRecord>, index: map<string, seq<NodeRecord>>) {
    forall name :: (if name in index then index[name] else []) == Listed(all, name)
  }

  method BuildIndex(all: seq<NodeRecord>) returns (index: map<string, seq<NodeRecord>>)
    ensures IndexOf(all, index)
  {
    index := map[];
    for i := 0 to |all|
      invariant IndexOf(all[..i], index)
    {
      var n := all[i];
      ghost var before := index;
      assert all[..i + 1][..i] == all[..i];
      index := Append(index, n.name, n);
      if n.qualifiedName != "" && n.qualifiedName != n.name {
        index := Append(index, n.qualifiedName, n);
      }
      forall name ensures (if name in index then index[name] else []) == Listed(all[..i + 1], name) {
        assert (if name in before then before[name] else []) == Listed(all[..i], name);
      }
    }
    assert all[..|all|] == all;
  }

  function Append(index: map<string, seq<NodeRecord>>, name: string, n: NodeRecord): map<string, seq<NodeRecord>> {
    index[name := (if name in index then index[name] else []) + [n]]
  }

  function Scoped(all: seq<NodeRecord>, scopeFile: string, requireSameFile: bool, dir: string -> string)
    : (seq<NodeRecord>, bool)
  {
    var sameFile := Filter(all, InFile(scopeFile));
    var sameDir := Filter(all, Beside(scopeFile, dir));
    if sameFile != [] then (sameFile, false)
    else if requireSameFile || all == [] then ([], false)
    else if sameDir != [] then (sameDir, false)
    else (all, true)
  }

  /** The node is in the file, or no match is and it is in the file's directory, or no match is even there. */
  ghost predicate Nearest(all: seq<NodeRecord>, n: NodeRecord, scopeFile: string, requireSameFile: bool,
      dir: string -> string)
  {
    || n.path == scopeFile
    || (&& !requireSameFile
        && (forall m :: m in all ==> m.path != scopeFile)
        && (dir(n.path) == dir(scopeFile) || forall m :: m in all ==> dir(m.path) != dir(scopeFile)))
  }

  /** Exactly the nearest matches are answered, in id order, and INFERRED means nothing nearby matched. */
  lemma ScopedPrefersNear(all: seq<NodeRecord>, scopeFile: string, requireSameFile: bool, dir: string -> string)
    requires ById(all)
    ensures var (nodes, inferred) := Scoped(all, scopeFile, requireSameFile, dir);
      && ById(nodes)
      && (forall n :: n in nodes ==> n in all)
      && (requireSameFile ==> !inferred && forall n :: n in nodes <==> n in all && n.path == scopeFile)
      && (inferred <==> !requireSameFile && all != [] && forall n :: n in all ==> dir(n.path) != dir(scopeFile))
      && (!requireSameFile && all != [] ==> nodes != [])
      && (forall n :: n in nodes <==> n in all && Nearest(all, n, scopeFile, requireSameFile, dir))
  {
    FilterExact(all, InFile(scopeFile));
    FilterExact(all, Beside(scopeFile, dir));
    var sameFile := Filter(all, InFile(scopeFile));
    var sameDir := Filter(all, Beside(scopeFile, dir));
    assert sameFile != [] ==> sameFile[0] in sameFile;
    assert sameDir != [] ==> sameDir[0] in sameDir;
    assert all != [] ==> all[0] in all;
  }

  // ---------------------------------------------------------------- the capped product

  const MAX_EDGE_FANOUT: nat := 64

  datatype Pair = Pair(source: int, target: int)

  function Row(source: NodeRecord, targets: seq<NodeRecord>): seq<Pair> {
    seq(|targets|, j requires 0 <= j < |targets| => Pair(source.id, targets[j].id))
  }

  /** All pairs, row by row. */
  function Product(sources: seq<NodeRecord>, targets: seq<NodeRecord>): seq<Pair> {
    if sources == [] then []
    else Product(sources[..|sources| - 1], targets) + Row(sources[|sources| - 1], targets)
  }

  /** Pair number i * |targets| + j joins source i and target j. */
  lemma {:induction false} ProductIsRowMajor(sources: seq<NodeRecord>, targets: seq<NodeRecord>, i: nat, j: nat)
    requires i < |sources| && j < |targets|
    ensures |Product(sources, targets)| == |sources| * |targets|
    ensures 0 <= i * |targets| + j < |sources| * |targets|
    ensures Product(sources, targets)[i * |targets| + j] == Pair(sources[i].id, targets[j].id)
  {
    var front, n := sources[..|sources| - 1], |targets|;
    assert (|sources| - 1) * n + n == |sources| * n;
    if |sources| == 1 {
      assert front == [];
    } else {
      ProductIsRowMajor(front, targets, if i < |front| then i else 0, j);
      if i < |front| { assert i * n + j < |front| * n; }
    }
  }

  function Capped(pairs: seq<Pair>, cap: nat): seq<Pair> {
    if |pairs| <= cap then pairs else pairs[..cap]
  }

  /** The inner loop: one source's pairs are appended until the cap is reached. */
  method EmitRow(edges: seq<Pair>, ghost done: seq<Pair>, source: NodeRecord, targets: seq<NodeRecord>, cap: nat)
    returns (more: seq<Pair>)
    requires edges == Capped(done, cap)
    ensures more == Capped(done + Row(source, targets), cap)
  {
    more := edges;
    assert done + Row(source, targets)[..0] == done;
    for j := 0 to |targets|
      invariant more == Capped(done + Row(source, targets)[..j], cap)
    {
      if |more| >= cap {
        StillCapped(done + Row(source, targets)[..j], done + Row(source, targets), cap);
        return;
      }
      OneMorePair(done, source, targets, j, cap);
      more := more + [Pair(source.id, targets[j].id)];
    }
    assert Row(source, targets)[..|targets|] == Row(source, targets);
  }

  /** The two loops: exactly the first `cap` pairs of the row-major product. */
  method EmitUpTo(sources: seq<NodeRecord>, targets: seq<NodeRecord>, cap: nat) returns (edges: seq<Pair>)
    ensures edges == Capped(Product(sources, targets), cap)
  {
    edges := [];
    for i := 0 to |sources|
      invariant edges == Capped(Product(sources[..i], targets), cap)
    {
      assert sources[..i + 1][..i] == sources[..i];
      edges := EmitRow(edges, Product(sources[..i], targets), sources[i], targets, cap);
      if |edges| >= cap {
        ProductGrows(sources, i + 1, targets);
        StillCapped(Product(sources[..i + 1], targets), Product(sources, targets), cap);
        return;
      }
    }
    assert sources[..|sources|] == sources;
  }

  /** The Phase 3 loop for one relation. */
  method EmitEdges(sources: seq<NodeRecord>, targets: seq<NodeRecord>) returns (edges: seq<Pair>)
    ensures edges == Capped(Product(sources, targets), MAX_EDGE_FANOUT)
    ensures |edges| == if |sources| * |targets| <= MAX_EDGE_FANOUT then |sources| * |targets| else MAX_EDGE_FANOUT
  {
    ProductSize(sources, targets);
    edges := EmitUpTo(sources, targets, MAX_EDGE_FANOUT);
  }

  lemma {:induction false} ProductSize(sources: seq<NodeRecord>, targets: seq<NodeRecord>)
    ensures |Product(sources, targets)| == |sources| * |targets|
  {
    if sources != [] {
      ProductSize(sources[..|sources| - 1], targets);
      assert (|sources| - 1) * |targets| + |targets| == |sources| * |targets|;
    }
  }

  lemma OneMorePair(done: seq<Pair>, source: NodeRecord, targets: seq<NodeRecord>, j: nat, cap: nat)
    requires j < |targets| && |Capped(done + Row(source, targets)[..j], cap)| < cap
    ensures Capped(done + Row(source, targets)[..j + 1], cap)
            == Capped(done + Row(source, targets)[..j], cap) + [Pair(source.id, targets[j].id)]
  {
    var row := Row(source, targets);
    assert row[..j + 1] == row[..j] + [row[j]];
    assert done + row[..j + 1] == done + row[..j] + [row[j]];
  }

  lemma StillCapped(some: seq<Pair>, more: seq<Pair>, cap: nat)
    requires some <= more && |some| >= cap
    ensures Capped(some, cap) == Capped(more, cap)
  {
  }

  lemma {:induction false} ProductGrows(sources: seq<NodeRecord>, i: nat, targets: seq<NodeRecord>)
    requires i <= |sources|
    ensures Product(sources[..i], targets) <= Product(sources, targets)
    decreases |sources| - i
  {
    if i == |sources| {
      assert sources[..i] == sources;
    } else {
      ProductGrows(sources, i + 1, targets);
      assert sources[..i + 1][..i] == sources[..i];
    }
  }
}
