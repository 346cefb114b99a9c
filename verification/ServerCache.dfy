/**
 Two caches that must stay in step. The server cache (internal/server/routes.go:57-162)
 keeps built servers; the workspace registries (main.go:92-142) keep what a config edit
 must be re-applied to. An edit reaches a cached server only if its registry is still there.
 */
module ServerCaches {
  import opened FiniteSets
  import opened Recency

  const SERVER_CACHE_MAX: nat := 32
  const REGISTRIES_MAX: nat := 64

  /** Last-use times of the cached servers and of the remembered registries. */
  datatype Pair = Pair(cache: map<string, int>, regs: map<string, int>)

  /** `t1` and `t2` are the two readings of the clock a request makes, in order. */
  datatype Step =
    | Request(id: string, t1: int, t2: int)
    | Reap(now: int)

  /** One listener's bounds: cache size, registry limit, idle time (0 or less switches reaping off). */
  datatype Bounds = Bounds(maxSize: int, limit: nat, ttl: int)

  ghost predicate EvictedTo(before: map<string, int>, after: map<string, int>, maxSize: int) {
    if maxSize <= 0 then after == before else Trimmed(before, after, maxSize)
  }

  ghost predicate Next(b: Bounds, s: Pair, s': Pair, step: Step) {
    match step
    case Request(id, t1, t2) =>
      if id in s.cache then
        && s'.cache == s.cache[id := t1]
        && s'.regs == (if id in s.regs then s.regs[id := t2] else s.regs)
      else
        && Trimmed(s.regs[id := t1], s'.regs, b.limit)
        && EvictedTo(s.cache[id := t2], s'.cache, b.maxSize)
    case Reap(now) =>
      && s'.regs == s.regs
      && s'.cache == if b.ttl <= 0 then s.cache else map id | id in s.cache && now - s.cache[id] <= b.ttl :: s.cache[id]
  }

  function Clock(step: Step, now: int): int {
    if step.Request? then step.t2 else now
  }

  /** Each reading of the clock is later than the one before. */
  predicate Later(step: Step, now: int) {
    step.Request? ==> now < step.t1 < step.t2
  }

  /** Reachable in n requests and reaps, the last clock reading being `now`. */
  ghost predicate Reachable(b: Bounds, s: Pair, now: int, n: nat)
    decreases n
  {
    if n == 0 then s == Pair(map[], map[])
    else exists s0, t0, step ::
      Reachable(b, s0, t0, n - 1) && Later(step, t0) && now == Clock(step, t0) && Next(b, s0, s, step)
  }

  /** What every cached id relies on: its registry is remembered. */
  ghost predicate Included(s: Pair) {
    forall id :: id in s.cache ==> id in s.regs
  }

  /** The stack property: both order ids alike, and an id used more recently than a cached one is cached. */
  ghost predicate Stacked(s: Pair, now: int) {
    && Included(s)
    && (forall id :: id in s.cache ==> s.cache[id] <= now)
    && (forall id :: id in s.regs ==> s.regs[id] <= now)
    && (forall x, y :: x in s.regs && y in s.regs && s.regs[x] == s.regs[y] ==> x == y)
    && (forall x, y :: x in s.cache && y in s.cache ==> (s.cache[x] <= s.cache[y] <==> s.regs[x] <= s.regs[y]))
    && (forall x, y :: x in s.cache && y in s.regs && s.regs[x] < s.regs[y] ==> y in s.cache)
  }

  ghost predicate Good(b: Bounds, s: Pair, now: int) {
    && Stacked(s, now)
    && |s.regs| <= b.limit
    && (b.maxSize > 0 ==> |s.cache| <= b.maxSize)
  }

  lemma HitKeeps(b: Bounds, s: Pair, s': Pair, now: int, id: string, t1: int, t2: int)
    requires Good(b, s, now) && now < t1 < t2 && id in s.cache
    requires Next(b, s, s', Request(id, t1, t2))
    ensures Good(b, s', t2)
  {
    RestampSize(s.cache, id, t1);
    RestampSize(s.regs, id, t2);
    RestampStacked(s, now, id, t1, t2);
  }

  /** Using an id makes it the most recent in both, which keeps the stack. */
  lemma RestampStacked(s: Pair, now: int, id: string, t1: int, t2: int)
    requires Stacked(s, now) && now < t1 && now < t2
    ensures var s1 := Pair(s.cache[id := t1], s.regs[id := t2]); Stacked(s1, if t1 < t2 then t2 else t1)
  {
    RestampOrder(s, now, id, t1, t2);
    var s1 := Pair(s.cache[id := t1], s.regs[id := t2]);
    forall x, y | x in s1.regs && y in s1.regs && s1.regs[x] == s1.regs[y] ensures x == y {
      if x != id { assert s.regs[x] <= now; }
      if y != id { assert s.regs[y] <= now; }
    }
    forall x, y | x in s1.cache && y in s1.regs && s1.regs[x] < s1.regs[y] ensures y in s1.cache {
      if y != id { assert s.regs[y] <= now && x != id; }
    }
  }

  lemma RestampOrder(s: Pair, now: int, id: string, t1: int, t2: int)
    requires Stacked(s, now) && now < t1 && now < t2
    ensures var c, r := s.cache[id := t1], s.regs[id := t2];
      forall x, y :: x in c && y in c ==> (c[x] <= c[y] <==> r[x] <= r[y])
  {
    var c, r := s.cache[id := t1], s.regs[id := t2];
    forall x, y | x in c && y in c ensures c[x] <= c[y] <==> r[x] <= r[y] {
      if x != id { assert s.cache[x] <= now && s.regs[x] <= now; }
      if y != id { assert s.cache[y] <= now && s.regs[y] <= now; }
    }
  }

  /** Dropping the oldest of each keeps the stack, as long as nothing cached loses its registry. */
  lemma TrimStacked(s: Pair, s': Pair, now: int)
    requires Stacked(s, now) && KeepsNewest(s.cache, s'.cache) && KeepsNewest(s.regs, s'.regs) && Included(s')
    ensures Stacked(s', now)
  {
    forall x, y | x in s'.cache && y in s'.regs && s'.regs[x] < s'.regs[y] ensures y in s'.cache {
      assert y in s.cache;
      assert s.cache[x] < s.cache[y];
    }
  }

  /** With the registries full, the id they drop is older than every other. */
  lemma OnlyOneDropped(regs: map<string, int>, after: map<string, int>, limit: nat, o: string)
    requires |regs| == limit + 1 && Trimmed(regs, after, limit) && o in regs && o !in after
    ensures regs.Keys == after.Keys + {o}
    ensures forall k :: k in regs ==> regs[o] <= regs[k]
  {
    assert |after| == |after.Keys| == limit && |regs| == |regs.Keys|;
    SubsetSize(after.Keys + {o}, regs.Keys);
  }

  /** A bound below its size makes a cache drop its oldest id. */
  lemma OldestGoes(used: map<string, int>, after: map<string, int>, bound: nat, o: string)
    requires |used| > bound && Trimmed(used, after, bound)
    requires o in used && forall k :: k in used && k != o ==> used[o] < used[k]
    ensures o !in after
  {
    Leftover(after.Keys, used.Keys);
    var x :| x in used.Keys && x !in after.Keys;
  }

  /** An id the registries drop to make room is not one the server cache keeps. */
  lemma DroppedIsNotCached(s1: Pair, s': Pair, now: int, maxSize: nat, limit: nat, o: string)
    requires Stacked(s1, now) && |s1.regs| == limit + 1 && 0 < maxSize <= limit
    requires Trimmed(s1.regs, s'.regs, limit) && Trimmed(s1.cache, s'.cache, maxSize)
    requires o in s1.regs && o !in s'.regs
    ensures o !in s'.cache
  {
    OnlyOneDropped(s1.regs, s'.regs, limit, o);
    if o in s1.cache {
      OldestIsCached(s1, now, o);
      OldestGoes(s1.cache, s'.cache, maxSize, o);
    }
  }

  /** If the oldest registry's server is cached, every one is. */
  lemma OldestIsCached(s: Pair, now: int, o: string)
    requires Stacked(s, now) && o in s.cache && o in s.regs && forall k :: k in s.regs ==> s.regs[o] <= s.regs[k]
    ensures |s.cache| == |s.regs|
    ensures forall k :: k in s.cache && k != o ==> s.cache[o] < s.cache[k]
  {
    assert s.cache.Keys == s.regs.Keys;
    assert |s.cache| == |s.cache.Keys| == |s.regs.Keys| == |s.regs|;
  }

  lemma MissKeeps(b: Bounds, s: Pair, s': Pair, now: int, id: string, t1: int, t2: int)
    requires Good(b, s, now) && now < t1 < t2 && id !in s.cache
    requires 0 < b.maxSize <= b.limit
    requires Next(b, s, s', Request(id, t1, t2))
    ensures Good(b, s', t2)
  {
    var s1 := Pair(s.cache[id := t2], s.regs[id := t1]);
    RestampStacked(s, now, id, t2, t1);
    RestampSize(s.cache, id, t2);
    RestampSize(s.regs, id, t1);
    forall o | o in s'.cache ensures o in s'.regs {
      assert o in s1.cache && o in s1.regs;
      if o !in s'.regs {
        if |s1.regs| <= b.limit { UntrimmedIsSame(s1.regs, s'.regs, b.limit); }
        else { DroppedIsNotCached(s1, s', t2, b.maxSize, b.limit, o); }
      }
    }
    TrimStacked(s1, s', t2);
  }

  lemma ReapKeeps(b: Bounds, s: Pair, s': Pair, now: int, reapNow: int)
    requires Good(b, s, now) && Next(b, s, s', Reap(reapNow))
    ensures Good(b, s', now)
  {
    SubmapSize(s.cache, s'.cache);
    TrimStacked(s, s', now);
  }

  lemma {:induction false} RunsKeepTheStack(b: Bounds, s: Pair, now: int, n: nat)
    requires 0 < b.maxSize <= b.limit && Reachable(b, s, now, n)
    ensures Good(b, s, now)
    decreases n
  {
    if n > 0 {
      var s0, t0, step :| Reachable(b, s0, t0, n - 1) && Later(step, t0) && now == Clock(step, t0)
          && Next(b, s0, s, step);
      RunsKeepTheStack(b, s0, t0, n - 1);
      match step
      case Request(id, t1, t2) =>
        if id in s0.cache { HitKeeps(b, s0, s, t0, id, t1, t2); } else { MissKeeps(b, s0, s, t0, id, t1, t2); }
      case Reap(reapNow) => ReapKeeps(b, s0, s, t0, reapNow);
    }
  }

  /** With the bounds the program uses, refresh always finds the registry of a cached server. */
  lemma RefreshNeverMisses(ttl: int, s: Pair, now: int, n: nat, id: string)
    requires Reachable(Bounds(SERVER_CACHE_MAX, REGISTRIES_MAX, ttl), s, now, n) && id in s.cache
    ensures id in s.regs && |s.cache| <= SERVER_CACHE_MAX && |s.regs| <= REGISTRIES_MAX
  {
    RunsKeepTheStack(Bounds(SERVER_CACHE_MAX, REGISTRIES_MAX, ttl), s, now, n);
  }

  // ---------------------------------------------------------------- the bounds that matter

  /** The cache may hold more servers than there is room for registries. */
  predicate RegistriesAreFewer(b: Bounds) { b.maxSize <= 0 || b.limit < b.maxSize }

  function Name(n: nat): string { seq(n + 1, _ => 'a') }

  /** The state after asking once for each of the first n names. */
  function Filled(n: nat): Pair {
    if n == 0 then Pair(map[], map[])
    else var s := Filled(n - 1); Pair(s.cache[Name(n - 1) := 2 * n], s.regs[Name(n - 1) := 2 * n - 1])
  }

  lemma {:induction false} FilledShape(n: nat)
    ensures |Filled(n).cache| == n && |Filled(n).regs| == n
    ensures Filled(n).cache.Keys == Filled(n).regs.Keys
    ensures forall k: string :: k in Filled(n).cache ==> |k| <= n
  {
    if n > 0 {
      FilledShape(n - 1);
      var s := Filled(n - 1);
      RestampSize(s.cache, Name(n - 1), 2 * n);
      RestampSize(s.regs, Name(n - 1), 2 * n - 1);
    }
  }

  lemma ReachStep(b: Bounds, s: Pair, t0: int, n: nat, s': Pair, step: Step)
    requires Reachable(b, s, t0, n) && Later(step, t0) && Next(b, s, s', step)
    ensures Reachable(b, s', Clock(step, t0), n + 1)
  {
  }

  lemma FilledStep(b: Bounds, n: nat)
    requires n < b.limit && RegistriesAreFewer(b)
    ensures Next(b, Filled(n), Filled(n + 1), Request(Name(n), 2 * n + 1, 2 * n + 2))
  {
    FilledShape(n);
    FilledShape(n + 1);
  }

  ghost predicate ReachesFilled(b: Bounds, n: nat) {
    Reachable(b, Filled(n), 2 * n, n)
  }

  lemma {:induction false} FilledIsReachable(b: Bounds, n: nat)
    requires n <= b.limit && RegistriesAreFewer(b)
    ensures ReachesFilled(b, n)
  {
    if n > 0 {
      FilledIsReachable(b, n - 1);
      FillOneMore(b, n - 1);
    } else {
      StartIsReachable(b);
    }
  }

  lemma FillOneMore(b: Bounds, n: nat)
    requires n < b.limit && RegistriesAreFewer(b) && ReachesFilled(b, n)
    ensures ReachesFilled(b, n + 1)
  {
    FilledStep(b, n);
    ReachRequest(b, Filled(n), 2 * n, n, Filled(n + 1), Name(n));
  }

  lemma StartIsReachable(b: Bounds)
    ensures Reachable(b, Filled(0), 0, 0)
  {
  }

  lemma ReachRequest(b: Bounds, s: Pair, t0: int, n: nat, s': Pair, id: string)
    requires Reachable(b, s, t0, n) && Next(b, s, s', Request(id, t0 + 1, t0 + 2))
    ensures Reachable(b, s', t0 + 2, n + 1)
  {
    ReachStep(b, s, t0, n, s', Request(id, t0 + 1, t0 + 2));
  }

  /** A request that overflows the registries but not the cache. */
  lemma Overflow(b: Bounds, s: Pair, id: string, t1: int, t2: int) returns (s': Pair)
    requires RegistriesAreFewer(b) && |s.cache| == |s.regs| == b.limit
    requires id !in s.cache && id !in s.regs
    ensures Next(b, s, s', Request(id, t1, t2)) && !Included(s')
  {
    RestampSize(s.cache, id, t2);
    RestampSize(s.regs, id, t1);
    var regs' := TrimOne(s.regs[id := t1]);
    s' := Pair(s.cache[id := t2], regs');
    NotIncluded(s');
  }

  ghost predicate CanMiss(b: Bounds) {
    exists s, now, n :: Reachable(b, s, now, n) && !Included(s)
  }

  lemma OneMore(b: Bounds, s: Pair, t0: int, n: nat, id: string)
    requires RegistriesAreFewer(b) && Reachable(b, s, t0, n)
    requires |s.cache| == |s.regs| == b.limit && id !in s.cache && id !in s.regs
    ensures CanMiss(b)
  {
    var s' := Overflow(b, s, id, t0 + 1, t0 + 2);
    ReachStep(b, s, t0, n, s', Request(id, t0 + 1, t0 + 2));
  }

  /** One request more than the registries hold leaves a cached server without its registry. */
  lemma SmallerRegistriesMiss(b: Bounds)
    requires RegistriesAreFewer(b)
    ensures CanMiss(b)
  {
    FilledIsReachable(b, b.limit);
    FilledShape(b.limit);
    assert |Name(b.limit)| == b.limit + 1;
    OneMore(b, Filled(b.limit), 2 * b.limit, b.limit, Name(b.limit));
  }

  lemma NotIncluded(s: Pair)
    requires |s.regs| < |s.cache|
    ensures !Included(s)
  {
    if Included(s) { SubmapSize(s.regs, s.cache); }
  }

  /** Any nonempty map can be trimmed by one. */
  lemma TrimOne(used: map<string, int>) returns (after: map<string, int>)
    requires |used| > 0
    ensures Trimmed(used, after, |used| - 1)
  {
    var o := SomeOldest(used);
    after := used - {o};
    assert after.Keys == used.Keys - {o};
  }

  lemma {:induction false} SomeOldest(used: map<string, int>) returns (o: string)
    requires |used| > 0
    ensures o in used && forall k :: k in used ==> used[o] <= used[k]
    decreases |used|
  {
    assert used.Keys != {};
    o :| o in used;
    if k :| k in used && used[k] < used[o] {
      var rest := used - {o};
      assert k in rest && rest.Keys == used.Keys - {o};
      assert |rest| == |rest.Keys|;
      var o' := SomeOldest(rest);
      assert used[o'] <= used[k] < used[o];
      assert forall j :: j in used ==> j == o || j in rest;
      o := o';
    }
  }

  /** While every hit is refreshed before anything else happens, some run loses the registry of a cached server
      exactly when the registries hold fewer than the cache, or the cache is unbounded. */
  lemma InclusionIffRegistriesHoldAsMany(b: Bounds)
    ensures CanMiss(b) <==> RegistriesAreFewer(b)
  {
    if RegistriesAreFewer(b) {
      SmallerRegistriesMiss(b);
    } else if CanMiss(b) {
      var s, now, n :| Reachable(b, s, now, n) && !Included(s);
      RunsKeepTheStack(b, s, now, n);
    }
  }

  // ---------------------------------------------------------------- the caches, updated in place

  datatype Entry = Entry(workspace: string, reg: nat, used: int)

  function Times(byID: map<string, Entry>): map<string, int> {
    map id | id in byID :: byID[id].used
  }

  lemma TimesShape(byID: map<string, Entry>, id: string)
    ensures |Times(byID)| == |byID|
    ensures Times(byID - {id}) == Times(byID) - {id}
  {
    assert Times(byID).Keys == byID.Keys;
  }

  class WorkspaceRegistries {
    var limit: nat
    var byID: map<string, Entry>

    constructor (limit: nat)
      ensures byID == map[] && this.limit == limit
    {
      this.limit, byID := limit, map[];
    }

    /** Remembers a workspace's registry, then drops the oldest while over the limit. */
    method Put(id: string, workspace: string, reg: nat, now: int)
      requires "" !in byID && id != ""
      modifies this`byID
      ensures "" !in byID
      ensures Trimmed(old(Times(byID))[id := now], Times(byID), limit)
      ensures forall k :: k in byID ==>
        byID[k] == if k == id || k !in old(byID) then Entry(workspace, reg, now) else old(byID)[k]
    {
      byID := byID[id := Entry(workspace, reg, now)];
      ghost var all := byID;
      assert Times(all) == old(Times(byID))[id := now];
      TimesShape(byID, id);
      while |byID| > limit
        invariant "" !in byID
        invariant KeepsNewest(Times(all), Times(byID))
        invariant forall k :: k in byID ==> k in all && byID[k] == all[k]
        invariant |Times(byID)| == |byID| && (byID == all || limit <= |byID| < |all|)
        decreases |byID|
      {
        var oldest := Oldest(Times(byID));
        TimesShape(byID, oldest);
        DropOldest(Times(all), Times(byID), oldest);
        byID := byID - {oldest};
        TimesShape(byID, oldest);
      }
    }

    /** Marks a cached workspace as used; false when its registry is gone and the edit cannot be applied. */
    method Refresh(id: string, now: int) returns (ok: bool)
      modifies this`byID
      ensures ok <==> id in old(byID)
      ensures byID == if ok then old(byID)[id := old(byID)[id].(used := now)] else old(byID)
    {
      ok := id in byID;
      if ok {
        byID := byID[id := byID[id].(used := now)];
      }
    }
  }

  /** A built server; its handler is made from it exactly once and names it. */
  datatype Server = Server(serial: nat)
  datatype Handler = HandlerFor(server: Server)

  class ServerCache {
    var servers: map<string, Server>
    var lastUsed: map<string, int>
    var handlers: map<string, Handler>
    var maxSize: int
    var ttl: int
    var built: nat // servers built so far; the factory never returns the same one twice

    /** The three maps have the same keys, and each handler serves its own server. */
    ghost predicate Valid()
      reads this
    {
      && servers.Keys == lastUsed.Keys == handlers.Keys
      && "" !in servers
      && (forall id :: id in servers ==> handlers[id] == HandlerFor(servers[id]) && servers[id].serial < built)
    }

    constructor (maxSize: int, ttl: int)
      ensures Valid() && lastUsed == map[] && this.maxSize == maxSize && this.ttl == ttl
    {
      this.maxSize, this.ttl, built := maxSize, ttl, 0;
      servers, lastUsed, handlers := map[], map[], map[];
    }

    method EvictLocked()
      requires Valid()
      modifies this`servers, this`lastUsed, this`handlers
      ensures Valid()
      ensures EvictedTo(old(lastUsed), lastUsed, maxSize)
      ensures forall id :: id in servers ==> id in old(servers) && servers[id] == old(servers)[id]
    {
      if maxSize <= 0 { return; }
      while |servers| > maxSize
        invariant Valid()
        invariant KeepsNewest(old(lastUsed), lastUsed)
        invariant lastUsed == old(lastUsed) || maxSize <= |lastUsed| < |old(lastUsed)|
        invariant forall id :: id in servers ==> id in old(servers) && servers[id] == old(servers)[id]
        decreases |servers|
      {
        SameKeys();
        var oldest := Oldest(lastUsed);
        DropOldest(old(lastUsed), lastUsed, oldest);
        Drop(oldest);
      }
      SameKeys();
    }

    lemma SameKeys()
      requires Valid()
      ensures |servers| == |lastUsed|
    {
      assert |servers| == |servers.Keys| == |lastUsed.Keys| == |lastUsed|;
    }

    /** The three deletes that eviction and reaping make together. */
    method Drop(id: string)
      requires Valid()
      modifies this`servers, this`lastUsed, this`handlers
      ensures Valid() && servers == old(servers) - {id} && lastUsed == old(lastUsed) - {id}
    {
      servers := servers - {id};
      lastUsed := lastUsed - {id};
      handlers := handlers - {id};
    }

    method ReapIdle(now: int)
      requires Valid()
      modifies this`servers, this`lastUsed, this`handlers
      ensures Valid()
      ensures lastUsed == if ttl <= 0 then old(lastUsed)
        else map id | id in old(lastUsed) && now - old(lastUsed)[id] <= ttl :: old(lastUsed)[id]
      ensures forall id :: id in servers ==> id in old(servers) && servers[id] == old(servers)[id]
    {
      if ttl <= 0 { return; }
      var left := lastUsed.Keys;
      while left != {}
        invariant Valid() && left <= lastUsed.Keys
        invariant forall id :: id in lastUsed ==> id in old(lastUsed) && lastUsed[id] == old(lastUsed)[id]
        invariant forall id :: id in old(lastUsed) ==>
          (id in lastUsed <==> id in left || now - old(lastUsed)[id] <= ttl)
        invariant forall id :: id in servers ==> id in old(servers) && servers[id] == old(servers)[id]
        decreases |left|
      {
        var id :| id in left;
        left := left - {id};
        if now - lastUsed[id] > ttl {
          Drop(id);
        }
      }
    }

    /** Caches a newly built server with its handler, then evicts. */
    method AddLocked(id: string, srv: Server, now: int)
      requires Valid() && id != "" && id !in servers && srv.serial < built
      modifies this`servers, this`lastUsed, this`handlers
      ensures Valid()
      ensures EvictedTo(old(lastUsed)[id := now], lastUsed, maxSize)
      ensures forall k :: k in servers ==> servers[k] == if k == id || k !in old(servers) then srv else old(servers)[k]
    {
      servers := servers[id := srv];
      lastUsed := lastUsed[id := now];
      handlers := handlers[id := HandlerFor(srv)];
      EvictLocked();
    }

    /**
     The half of a request under the cache's lock: a hit stamps the cache and touches no registry, a miss builds,
     registers and caches a server. `t1` and `t2` are the readings of the clock.
     */
    method LookUpOrBuild(id: string, workspace: string, regs: WorkspaceRegistries, t1: int, t2: int)
      returns (srv: Server, cached: bool)
      requires Valid() && id != "" && "" !in regs.byID
      modifies this, regs`byID
      ensures Valid() && "" !in regs.byID && maxSize == old(maxSize) && ttl == old(ttl)
      ensures cached == (id in old(servers))
      ensures cached ==> srv == old(servers)[id] && lastUsed == old(lastUsed)[id := t1] && regs.byID == old(regs.byID)
      ensures !cached ==> srv.serial == old(built)
      ensures !cached ==> Next(Bounds(maxSize, regs.limit, ttl),
        old(Pair(lastUsed, Times(regs.byID))), Pair(lastUsed, Times(regs.byID)), Request(id, t1, t2))
      ensures forall k :: k in servers ==> servers[k] == if k == id || k !in old(servers) then srv else old(servers)[k]
    {
      cached := id in servers;
      if cached {
        srv := servers[id];
        lastUsed := lastUsed[id := t1];
      } else {
        srv := Server(built);
        built := built + 1;
        regs.Put(id, workspace, srv.serial, t1);
        AddLocked(id, srv, t2);
      }
    }

    /**
     One request with nothing between its two halves. `regs` is what the factory and the refresh hook reach. A hit
     answers the server cached before, a miss a newly built one.
     */
    method GetOrCreate(id: string, workspace: string, regs: WorkspaceRegistries, t1: int, t2: int)
      returns (srv: Server, refreshed: bool)
      requires Valid() && id != "" && "" !in regs.byID
      modifies this, regs`byID
      ensures Valid() && "" !in regs.byID && maxSize == old(maxSize) && ttl == old(ttl)
      ensures Next(Bounds(maxSize, regs.limit, ttl),
                   old(Pair(lastUsed, Times(regs.byID))), Pair(lastUsed, Times(regs.byID)), Request(id, t1, t2))
      ensures id in old(servers) ==> srv == old(servers)[id] && refreshed == (id in old(regs.byID))
      ensures id !in old(servers) ==> srv.serial == old(built) && !refreshed
      ensures forall k :: k in servers ==> servers[k] == if k == id || k !in old(servers) then srv else old(servers)[k]
    {
      refreshed := false;
      var cached;
      srv, cached := LookUpOrBuild(id, workspace, regs, t1, t2);
      if cached {
        refreshed := regs.Refresh(id, t2);
        assert Times(regs.byID) == old(if id in regs.byID then Times(regs.byID)[id := t2] else Times(regs.byID));
      }
    }
  }
}
