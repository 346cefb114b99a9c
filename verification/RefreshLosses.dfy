/**
 The exact number of registries that overlapping requests need. RefreshRaces shows how many are enough; here is, for
 any smaller number, a run that leaves a cached server without its registry, and the theorem that joins the two.
 */
module RefreshLosses {
  import opened FiniteSets
  import opened Recency
  import opened ServerCaches
  import opened RefreshRaces

  // ---------------------------------------------------------------- a cache of one server

  ghost predicate OneServer(s: Racing, now: int) {
    Included(PairOf(s)) && |s.cache| <= 1 && Stamps(s.cache, now) && Stamps(s.regs, now)
  }

  lemma OneServerMiss(b: Bounds, s: Racing, now: int, id: string, t1: int, t2: int,
      cache': map<string, int>, regs': map<string, int>)
    requires b.maxSize == 1 && b.limit >= 1 && OneServer(s, now) && now < t1 < t2
    requires Trimmed(s.regs[id := t1], regs', b.limit) && Trimmed(s.cache[id := t2], cache', 1)
    ensures OneServer(Racing(cache', regs', s.inFlight), t2)
  {
    NewestIsKept(s.cache[id := t2], cache', 1, id);
    NewestIsKept(s.regs[id := t1], regs', b.limit, id);
    assert |cache'| == |cache'.Keys|;
    SubsetSize({id}, cache'.Keys);
    RestampStamps(s.cache, now, id, t2);
    RestampStamps(s.regs, now, id, t1);
    StampsTrimmed(s.cache[id := t2], cache', t2);
    StampsTrimmed(s.regs[id := t1], regs', t1);
  }

  lemma OneServerHit(s: Racing, now: int, id: string, t1: int, t2: int)
    requires OneServer(s, now) && now < t1 < t2 && id in s.cache
    ensures OneServer(HitWhole(s, id, t1, t2), t2)
  {
    RestampSize(s.cache, id, t1);
    RestampStamps(s.cache, now, id, t1);
    RestampStamps(s.regs, now, id, t2);
  }

  lemma OneServerMoves(b: Bounds, p: nat, s: Racing, now: int, e: Event, s': Racing, now': int)
    requires b.maxSize == 1 && b.limit >= 1 && OneServer(s, now) && Follows(b, p, s, now, e, s', now')
    ensures OneServer(s', now')
  {
    match e
    case Stamp(id, t) =>
      RestampSize(s.cache, id, t);
      RestampStamps(s.cache, now, id, t);
    case Refresh(id, t) => RestampStamps(s.regs, now, id, t);
    case Whole(Reap(_)) => SubmapSize(s.cache, s'.cache);
    case Whole(Request(id, t1, t2)) =>
      if id in s.cache {
        OneServerHit(s, now, id, t1, t2);
        assert s' == HitWhole(s, id, t1, t2);
      } else {
        OneServerMiss(b, s, now, id, t1, t2, s'.cache, s'.regs);
      }
  }

  lemma OneServerLink(b: Bounds, p: nat, x: Point, y: Point)
    requires b.maxSize == 1 && b.limit >= 1 && OneServer(x.s, x.now) && Linked(b, p, x, y)
    ensures OneServer(y.s, y.now)
  {
    var e :| Follows(b, p, x.s, x.now, e, y.s, y.now);
    OneServerMoves(b, p, x.s, x.now, e, y.s, y.now);
  }

  lemma {:induction false} OneServerRuns(b: Bounds, p: nat, run: seq<Point>)
    requires b.maxSize == 1 && b.limit >= 1 && IsRun(b, p, run)
    ensures OneServer(run[|run| - 1].s, run[|run| - 1].now)
    decreases |run|
  {
    var n := |run|;
    if n > 1 {
      FrontIsRun(b, p, run);
      OneServerRuns(b, p, run[..n - 1]);
      OneServerLink(b, p, run[n - 2], run[n - 1]);
    }
  }

  // ---------------------------------------------------------------- steps of the losing run

  lemma Go(b: Bounds, p: nat, s: Racing, now: int, e: Event, s': Racing, now': int)
    requires Arrives(b, p, s, now) && Follows(b, p, s, now, e, s', now')
    ensures Arrives(b, p, s', now')
  {
    var run :| IsRun(b, p, run) && run[|run| - 1] == Point(s, now);
    LongerRun(b, p, run, Point(s', now'));
  }

  lemma LongerRun(b: Bounds, p: nat, run: seq<Point>, next: Point)
    requires IsRun(b, p, run) && Linked(b, p, run[|run| - 1], next)
    ensures Arrives(b, p, next.s, next.now)
  {
    var longer := run + [next];
    forall i | 0 <= i < |longer| - 1 ensures Linked(b, p, longer[i], longer[i + 1]) {
      if i < |run| - 1 { assert Linked(b, p, run[i], run[i + 1]); }
    }
    assert IsRun(b, p, longer);
  }

  lemma {:induction false} LongerThanAll(keys: set<string>) returns (n: nat)
    ensures forall k :: k in keys ==> |k| <= n
    decreases |keys|
  {
    if keys == {} {
      n := 0;
    } else {
      var k :| k in keys;
      n := LongerThanAll(keys - {k});
      if n < |k| { n := |k|; }
    }
  }

  lemma NewName(keys: set<string>) returns (id: string)
    ensures id !in keys && id != ""
  {
    var n := LongerThanAll(keys);
    id := Name(n);
    assert |id| == n + 1;
  }

  ghost predicate Fine(b: Bounds, s: Racing, now: int) {
    && Stamps(s.cache, now) && Stamps(s.regs, now)
    && s.cache.Keys <= s.regs.Keys && |s.cache| <= b.maxSize && |s.regs| <= b.limit
  }

  lemma TrimTo(used: map<string, int>, bound: nat) returns (after: map<string, int>)
    requires |used| <= bound + 1
    ensures Trimmed(used, after, bound)
  {
    if |used| <= bound { after := used; } else { after := TrimOne(used); }
  }

  lemma KeptIfFewNewer(used: map<string, int>, after: map<string, int>, now: int, bound: nat, x: string)
    requires Trimmed(used, after, bound) && Stamps(used, now) && x in used && |Newer(used, x)| < bound
    ensures x in after
  {
    if x !in after { DroppedIsFarBehind(used, after, now, bound, x); }
  }

  /** A miss of a new id, while the registries have room. */
  lemma MissNew(b: Bounds, p: nat, s: Racing, now: int, id: string) returns (s': Racing)
    requires b.maxSize > 0 && Arrives(b, p, s, now) && Fine(b, s, now) && id !in s.regs && |s.regs| < b.limit
    ensures Arrives(b, p, s', now + 2) && Fine(b, s', now + 2)
    ensures s'.regs == s.regs[id := now + 1] && s'.inFlight == s.inFlight && id in s'.cache
    ensures Trimmed(s.cache[id := now + 2], s'.cache, b.maxSize)
  {
    var cache1 := s.cache[id := now + 2];
    RestampSize(s.cache, id, now + 2);
    RestampSize(s.regs, id, now + 1);
    var cache' := TrimTo(cache1, b.maxSize);
    s' := Racing(cache', s.regs[id := now + 1], s.inFlight);
    RestampStamps(s.cache, now, id, now + 2);
    RestampStamps(s.regs, now, id, now + 1);
    StampsTrimmed(cache1, cache', now + 2);
    NewestIsKept(cache1, cache', b.maxSize, id);
    Go(b, p, s, now, Whole(Request(id, now + 1, now + 2)), s', now + 2);
  }

  /** The first half of a hit. */
  lemma StampNow(b: Bounds, p: nat, s: Racing, now: int, id: string)
    requires Arrives(b, p, s, now) && Fine(b, s, now) && id in s.cache && |s.inFlight| < p
    ensures Arrives(b, p, Stamped(s, id, now + 1), now + 1) && Fine(b, Stamped(s, id, now + 1), now + 1)
    ensures Newer(s.cache[id := now + 1], id) == {}
  {
    RestampSize(s.cache, id, now + 1);
    RestampStamps(s.cache, now, id, now + 1);
    Go(b, p, s, now, Stamp(id, now + 1), Stamped(s, id, now + 1), now + 1);
  }

  /** The second half of a hit, of an id that is remembered. */
  lemma RefreshNow(b: Bounds, p: nat, s: Racing, now: int, id: string)
    requires Arrives(b, p, s, now) && Fine(b, s, now) && id in s.inFlight && id in s.regs
    ensures Arrives(b, p, Refreshed(s, id, now + 1), now + 1) && Fine(b, Refreshed(s, id, now + 1), now + 1)
  {
    RestampSize(s.regs, id, now + 1);
    RestampStamps(s.regs, now, id, now + 1);
    Go(b, p, s, now, Refresh(id, now + 1), Refreshed(s, id, now + 1), now + 1);
  }

  // ---------------------------------------------------------------- the losing run

  /** First, q servers are built and each is hit once; none of those hits is refreshed yet. */
  lemma {:induction false} Preload(b: Bounds, p: nat, q: nat) returns (s: Racing, now: int)
    requires b.maxSize > 0 && q <= p && q <= b.limit
    ensures Arrives(b, p, s, now) && Fine(b, s, now)
    ensures |s.regs| == q && |s.inFlight| == q && s.regs.Keys == Support(s.inFlight)
  {
    if q == 0 {
      s, now := Racing(map[], map[], multiset{}), 0;
      assert IsRun(b, p, [Point(s, now)]);
      assert Support(s.inFlight) == {};
    } else {
      var s0, t0 := Preload(b, p, q - 1);
      var id := NewName(s0.regs.Keys);
      var s1 := MissNew(b, p, s0, t0, id);
      RestampSize(s0.regs, id, t0 + 1);
      StampNow(b, p, s1, t0 + 2, id);
      s, now := Stamped(s1, id, t0 + 3), t0 + 3;
      assert s.regs.Keys == Support(s.inFlight);
    }
  }

  /** Everyone else was registered or refreshed after x, or will be refreshed soon. */
  ghost predicate Overtaking(s: Racing, x: string) {
    && x in s.cache && x in s.regs && x !in s.inFlight && Newer(s.cache, x) == {}
    && Support(s.inFlight) <= s.regs.Keys
    && forall y :: y in s.regs && y != x ==> s.regs[x] < s.regs[y] || y in s.inFlight
  }

  /** Everyone else is ahead of x in the registries. */
  ghost predicate LastInRegs(s: Racing, x: string) {
    x in s.cache && x in s.regs && forall y :: y in s.regs && y != x ==> s.regs[x] < s.regs[y]
  }

  /** Second, x is built; third, the refreshes land, all after it. */
  lemma {:induction false} Land(b: Bounds, p: nat, s: Racing, now: int, x: string) returns (s': Racing, now': int)
    requires Arrives(b, p, s, now) && Fine(b, s, now) && Overtaking(s, x)
    ensures Arrives(b, p, s', now') && Fine(b, s', now') && LastInRegs(s', x)
    ensures s'.cache == s.cache && s'.regs.Keys == s.regs.Keys && s'.inFlight == multiset{}
    decreases |s.inFlight|
  {
    if s.inFlight == multiset{} {
      s', now' := s, now;
    } else {
      var y :| y in s.inFlight;
      assert y in Support(s.inFlight);
      RefreshNow(b, p, s, now, y);
      var s1 := Refreshed(s, y, now + 1);
      LandOne(s, now, x, y);
      s', now' := Land(b, p, s1, now + 1, x);
    }
  }

  lemma LandOne(s: Racing, now: int, x: string, y: string)
    requires Overtaking(s, x) && Stamps(s.regs, now) && y in s.inFlight && y in s.regs
    ensures Overtaking(Refreshed(s, y, now + 1), x) && Refreshed(s, y, now + 1).regs.Keys == s.regs.Keys
  {
  }

  lemma StartOvertaking(s: Racing, now: int, s': Racing, x: string)
    requires x !in s.regs && s.regs.Keys == Support(s.inFlight) && s.cache.Keys <= s.regs.Keys && Stamps(s.cache, now)
    requires s'.regs == s.regs[x := now + 1] && s'.inFlight == s.inFlight && x in s'.cache
    requires KeepsNewest(s.cache[x := now + 2], s'.cache)
    ensures Overtaking(s', x)
  {
    assert x !in Support(s.inFlight);
    NewerSubset(s.cache[x := now + 2], s'.cache, x);
  }

  /** The misses still missing before x is dropped: the registries' free room and one more. */
  function Missing(b: Bounds, s: Racing): int { b.limit + 1 - |s.regs| }

  /** The misses x can still sit out: until it is the oldest in the cache, and again after each hit it may get. */
  ghost function Patience(b: Bounds, p: nat, s: Racing, x: string): int
    requires b.maxSize > 0 && x in s.cache && |s.inFlight| <= p
  {
    b.maxSize - 1 - |Newer(s.cache, x)| + Allowed(b.maxSize, 0, p - |s.inFlight|)
  }

  /** A miss that x sits out. */
  lemma SitOut(s: Racing, now: int, s': Racing, z: string, x: string, maxSize: nat)
    requires z !in s.cache && x in s.cache && Stamps(s.cache, now) && |Newer(s.cache, x)| < maxSize - 1 && z != x
    requires Trimmed(s.cache[z := now + 2], s'.cache, maxSize)
    ensures x in s'.cache && |Newer(s'.cache, x)| <= |Newer(s.cache, x)| + 1
  {
    var cache1 := s.cache[z := now + 2];
    RestampStamps(s.cache, now, z, now + 2);
    UnionSize(Newer(cache1, x), Newer(s.cache, x), {z});
    KeptIfFewNewer(cache1, s'.cache, now + 2, maxSize, x);
    NewerSubset(cache1, s'.cache, x);
    SubsetSize(Newer(s'.cache, x), Newer(cache1, x));
  }

  lemma WithoutOldest(used: map<string, int>, x: string, bound: nat)
    requires |used| == bound + 1 && x in used && forall y :: y in used ==> used[x] <= used[y]
    ensures Trimmed(used, used - {x}, bound)
  {
    assert used.Keys == (used - {x}).Keys + {x};
    assert |used - {x}| == |(used - {x}).Keys| && |used| == |used.Keys|;
  }

  /** The last miss drops x from the full registries, though x stays in the cache. */
  lemma DropX(b: Bounds, p: nat, s: Racing, now: int, x: string)
    requires b.maxSize > 1 && Arrives(b, p, s, now) && Fine(b, s, now) && LastInRegs(s, x)
    requires |s.regs| == b.limit && |Newer(s.cache, x)| < b.maxSize - 1
    ensures CanLose(b, p)
  {
    var z := NewName(s.regs.Keys);
    var regs1 := s.regs[z := now + 1];
    RestampSize(s.regs, z, now + 1);
    RestampSize(s.cache, z, now + 2);
    WithoutOldest(regs1, x, b.limit);
    var cache' := TrimTo(s.cache[z := now + 2], b.maxSize);
    var s' := Racing(cache', regs1 - {x}, s.inFlight);
    SitOut(s, now, s', z, x, b.maxSize);
    Go(b, p, s, now, Whole(Request(z, now + 1, now + 2)), s', now + 2);
    Lost(b, p, s', now + 2, x);
  }

  lemma Lost(b: Bounds, p: nat, s: Racing, now: int, x: string)
    requires Arrives(b, p, s, now) && x in s.cache && x !in s.regs
    ensures CanLose(b, p)
  {
    assert !Included(PairOf(s));
  }

  /** x has enough patience to be overtaken by everyone still missing. */
  ghost predicate Chased(b: Bounds, p: nat, s: Racing, now: int, x: string) {
    && b.maxSize > 1 && Arrives(b, p, s, now) && Fine(b, s, now) && LastInRegs(s, x)
    && |s.inFlight| <= p && |Newer(s.cache, x)| <= b.maxSize - 1
    && Missing(b, s) <= Patience(b, p, s, x)
  }

  lemma HitPatience(b: Bounds, p: nat, s: Racing, s': Racing, x: string)
    requires b.maxSize > 1 && x in s.cache && x in s'.cache && |s.inFlight| < p && |s'.inFlight| == |s.inFlight| + 1
    requires |Newer(s.cache, x)| == b.maxSize - 1 && Newer(s'.cache, x) == {}
    ensures Patience(b, p, s', x) == Patience(b, p, s, x)
  {
    assert p - |s.inFlight| == (p - |s'.inFlight|) + 1;
  }

  lemma CanBeHit(b: Bounds, p: nat, s: Racing, now: int, x: string)
    requires Chased(b, p, s, now, x) && |Newer(s.cache, x)| == b.maxSize - 1
    ensures |s.inFlight| < p
  {
    assert Missing(b, s) >= 1;
  }

  lemma HitX(b: Bounds, p: nat, s: Racing, now: int, x: string) returns (s': Racing)
    requires Chased(b, p, s, now, x) && |Newer(s.cache, x)| == b.maxSize - 1
    ensures Chased(b, p, s', now + 1, x) && s'.regs == s.regs && Newer(s'.cache, x) == {}
  {
    CanBeHit(b, p, s, now, x);
    StampNow(b, p, s, now, x);
    s' := Stamped(s, x, now + 1);
    HitPatience(b, p, s, s', x);
    assert LastInRegs(s', x);
    assert |Newer(s'.cache, x)| == 0;
    assert Missing(b, s') == Missing(b, s);
  }

  lemma StillLast(s: Racing, now: int, s': Racing, z: string, x: string)
    requires LastInRegs(s, x) && Stamps(s.regs, now) && z !in s.regs && x in s'.cache && s'.regs == s.regs[z := now + 1]
    ensures LastInRegs(s', x) && |s'.regs| == |s.regs| + 1
  {
    RestampSize(s.regs, z, now + 1);
  }

  lemma PassX(b: Bounds, p: nat, s: Racing, now: int, x: string) returns (s': Racing)
    requires Chased(b, p, s, now, x) && |Newer(s.cache, x)| < b.maxSize - 1 && |s.regs| < b.limit
    ensures Chased(b, p, s', now + 2, x) && |s'.regs| == |s.regs| + 1
  {
    var z := NewName(s.regs.Keys);
    s' := MissNew(b, p, s, now, z);
    SitOut(s, now, s', z, x, b.maxSize);
    StillLast(s, now, s', z, x);
    assert Patience(b, p, s', x) >= Patience(b, p, s, x) - 1;
  }

  /** Last, new servers are built; x is hit, without a refresh, whenever it would otherwise leave the cache. */
  lemma {:induction false} Overtake(b: Bounds, p: nat, s: Racing, now: int, x: string)
    requires Chased(b, p, s, now, x)
    ensures CanLose(b, p)
    decreases Missing(b, s), |Newer(s.cache, x)|
  {
    if |Newer(s.cache, x)| == b.maxSize - 1 {
      var s' := HitX(b, p, s, now, x);
      Overtake(b, p, s', now + 1, x);
    } else if |s.regs| < b.limit {
      var s' := PassX(b, p, s, now, x);
      Overtake(b, p, s', now + 2, x);
    } else {
      DropX(b, p, s, now, x);
    }
  }

  /** The state after the first three phases, with q servers hit before x was built. */
  lemma OvertakenBy(b: Bounds, p: nat, q: nat) returns (s: Racing, now: int, x: string)
    requires b.maxSize > 1 && q <= p && q < b.limit
    ensures Arrives(b, p, s, now) && Fine(b, s, now) && LastInRegs(s, x)
    ensures |s.regs| == q + 1 && s.inFlight == multiset{} && Newer(s.cache, x) == {}
  {
    var s0, t0 := Preload(b, p, q);
    x := NewName(s0.regs.Keys);
    var s1 := MissNew(b, p, s0, t0, x);
    RestampSize(s0.regs, x, t0 + 1);
    StartOvertaking(s0, t0, s1, x);
    s, now := Land(b, p, s1, t0 + 2, x);
    SameSize(s.regs, s1.regs);
  }

  lemma EnoughPatience(b: Bounds, p: nat, q: nat)
    requires b.maxSize > 1 && 0 < b.limit < (p + 1) * b.maxSize
    requires q == if p < b.limit then p else b.limit - 1
    ensures b.limit - q <= b.maxSize - 1 + Allowed(b.maxSize, 0, p)
  {
    AllowedIs(b.maxSize, 0, p);
    assert (p + 1) * b.maxSize == p * (b.maxSize - 1) + p + b.maxSize;
  }

  lemma TooFewLose(b: Bounds, p: nat)
    requires b.maxSize > 1 && 0 < b.limit < (p + 1) * b.maxSize
    ensures CanLose(b, p)
  {
    var q := if p < b.limit then p else b.limit - 1;
    var s, now, x := OvertakenBy(b, p, q);
    EnoughPatience(b, p, q);
    Overtake(b, p, s, now, x);
  }

  lemma SameSize(a: map<string, int>, b: map<string, int>)
    requires a.Keys == b.Keys
    ensures |a| == |b|
  {
    assert |a| == |a.Keys| && |b| == |b.Keys|;
  }

  // ---------------------------------------------------------------- the exact number

  lemma WholeStepIsEvent(b: Bounds, p: nat, s0: Pair, t0: int, step: Step, s: Pair, now: int)
    requires Later(step, t0) && now == Clock(step, t0) && Next(b, s0, s, step)
    ensures Follows(b, p, Racing(s0.cache, s0.regs, multiset{}), t0, Whole(step), Racing(s.cache, s.regs, multiset{}), now)
  {
  }

  lemma {:induction false} WholeRunsAreRuns(b: Bounds, p: nat, s: Pair, now: int, n: nat)
    requires Reachable(b, s, now, n)
    ensures Arrives(b, p, Racing(s.cache, s.regs, multiset{}), now)
    decreases n
  {
    if n > 0 {
      var s0, t0, step :| Reachable(b, s0, t0, n - 1) && Later(step, t0) && now == Clock(step, t0) && Next(b, s0, s, step);
      WholeRunsAreRuns(b, p, s0, t0, n - 1);
      var r0, r := Racing(s0.cache, s0.regs, multiset{}), Racing(s.cache, s.regs, multiset{});
      WholeStepIsEvent(b, p, s0, t0, step, s, now);
      Go(b, p, r0, t0, Whole(step), r, now);
    } else {
      assert IsRun(b, p, [Point(Racing(map[], map[], multiset{}), now)]);
    }
  }

  lemma WholeRunsLose(b: Bounds, p: nat)
    requires CanMiss(b)
    ensures CanLose(b, p)
  {
    var s, now, n :| Reachable(b, s, now, n) && !Included(s);
    WholeRunsAreRuns(b, p, s, now, n);
    assert PairOf(Racing(s.cache, s.regs, multiset{})) == s;
  }

  lemma EnoughNeverLose(b: Bounds, p: nat)
    requires b.maxSize > 0 && Needed(b.maxSize, p) <= b.limit
    ensures !CanLose(b, p)
  {
    if CanLose(b, p) {
      var s, now :| Arrives(b, p, s, now) && !Included(PairOf(s));
      var run :| IsRun(b, p, run) && run[|run| - 1] == Point(s, now);
      if b.maxSize == 1 {
        OneServerRuns(b, p, run);
      } else {
        EnoughIs(b, p);
        RunsKeepUp(b, p, run);
      }
    }
  }

  /**
   With at most p refreshes in flight, some run leaves a cached server without its registry exactly when the cache is
   unbounded or the registries hold fewer than p + 1 times as many as the cache (than one, for a cache of one).
   */
  lemma LosesIffFewerThanNeeded(b: Bounds, p: nat)
    ensures CanLose(b, p) <==> b.maxSize <= 0 || b.limit < Needed(b.maxSize, p)
  {
    if RegistriesAreFewer(b) {
      InclusionIffRegistriesHoldAsMany(b);
      WholeRunsLose(b, p);
      FewerIsTooFew(b, p);
    } else if b.limit < Needed(b.maxSize, p) {
      TooFewLose(b, p);
    } else {
      EnoughNeverLose(b, p);
    }
  }

  lemma FewerIsTooFew(b: Bounds, p: nat)
    requires RegistriesAreFewer(b)
    ensures b.maxSize <= 0 || b.limit < Needed(b.maxSize, p)
  {
    if b.maxSize > 1 { assert (p + 1) * b.maxSize == p * b.maxSize + b.maxSize; }
  }

  /** The program's 64 registries for 32 servers are exactly enough for one refresh in flight. */
  lemma OneRefreshInFlightIsSafe(ttl: int, p: nat)
    ensures CanLose(Bounds(SERVER_CACHE_MAX, REGISTRIES_MAX, ttl), p) <==> p >= 2
  {
    LosesIffFewerThanNeeded(Bounds(SERVER_CACHE_MAX, REGISTRIES_MAX, ttl), p);
  }
}
