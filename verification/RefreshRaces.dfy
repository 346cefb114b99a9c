/**
 The two caches when requests overlap. A hit stamps the server cache under its lock, releases it, and only then
 refreshes the registry (internal/server/routes.go:78-102); other requests run in between. How many registries must be
 kept depends on how many refreshes can be in flight at once.
 */
module RefreshRaces {
  import opened FiniteSets
  import opened Recency
  import opened ServerCaches

  /** `inFlight` counts, for each id, the hits that have stamped the cache and not yet refreshed the registry. */
  datatype Racing = Racing(cache: map<string, int>, regs: map<string, int>, inFlight: multiset<string>)

  datatype Event =
    | Whole(step: Step)           // a request with nothing between its halves, or a reap
    | Stamp(id: string, t: int)   // the first half of a hit
    | Refresh(id: string, t: int) // the second half, some time later

  function PairOf(s: Racing): Pair { Pair(s.cache, s.regs) }

  /** With at most `p` refreshes in flight. */
  ghost predicate Moves(b: Bounds, p: nat, s: Racing, s': Racing, e: Event) {
    match e
    case Whole(step) => Next(b, PairOf(s), PairOf(s'), step) && s'.inFlight == s.inFlight
    case Stamp(id, t) =>
      && id in s.cache && |s.inFlight| < p
      && s' == Racing(s.cache[id := t], s.regs, s.inFlight + multiset{id})
    case Refresh(id, t) =>
      && id in s.inFlight
      && s' == Racing(s.cache, if id in s.regs then s.regs[id := t] else s.regs, s.inFlight - multiset{id})
  }

  function ClockAfter(e: Event, now: int): int {
    if e.Whole? then Clock(e.step, now) else e.t
  }

  predicate LaterThan(e: Event, now: int) {
    if e.Whole? then Later(e.step, now) else now < e.t
  }

  ghost predicate Follows(b: Bounds, p: nat, s: Racing, now: int, e: Event, s': Racing, now': int) {
    LaterThan(e, now) && now' == ClockAfter(e, now) && Moves(b, p, s, s', e)
  }

  /** A state and the last clock reading. */
  datatype Point = Point(s: Racing, now: int)

  ghost predicate Linked(b: Bounds, p: nat, x: Point, y: Point) {
    exists e :: Follows(b, p, x.s, x.now, e, y.s, y.now)
  }

  ghost predicate IsRun(b: Bounds, p: nat, run: seq<Point>) {
    && run != [] && run[0].s == Racing(map[], map[], multiset{})
    && forall i :: 0 <= i < |run| - 1 ==> Linked(b, p, run[i], run[i + 1])
  }

  /** Some run ends here. */
  ghost predicate Arrives(b: Bounds, p: nat, s: Racing, now: int) {
    exists run :: IsRun(b, p, run) && run[|run| - 1] == Point(s, now)
  }

  ghost predicate CanLose(b: Bounds, p: nat) {
    exists s, now :: Arrives(b, p, s, now) && !Included(PairOf(s))
  }

  /** The number of registries that is enough: as many as servers for every refresh in flight, and once more. */
  function Needed(maxSize: int, p: nat): nat
    requires maxSize > 0
  {
    if maxSize == 1 then 1 else (p + 1) * maxSize
  }

  // ---------------------------------------------------------------- enough registries never lose one

  ghost function Newer(used: map<string, int>, x: string): set<string>
    requires x in used
  {
    set y | y in used && used[x] < used[y]
  }

  ghost function Support(m: multiset<string>): set<string> { set y | y in m }

  /** Ids that are ahead of x in the registries, or will be once their refresh lands, but not in the cache. */
  ghost function Ahead(s: Racing, x: string): set<string>
    requires x in s.cache && x in s.regs
  {
    Newer(s.regs, x) + (Support(s.inFlight) - {x}) - Newer(s.cache, x)
  }

  /** How many there can be: every hit of x that is not refreshed yet lets another cacheful pass. */
  function Allowed(maxSize: nat, p: nat, k: nat): (r: nat)
    requires maxSize > 0
    ensures p <= r
  {
    if k == 0 then p else Allowed(maxSize, p, k - 1) + (maxSize - 1)
  }

  lemma {:induction false} AllowedGrows(maxSize: nat, p: nat, k: nat, l: nat)
    requires maxSize > 0 && k <= l
    ensures Allowed(maxSize, p, k) <= Allowed(maxSize, p, l)
  {
    if k < l { AllowedGrows(maxSize, p, k, l - 1); }
  }

  lemma {:induction false} AllowedIs(maxSize: nat, p: nat, k: nat)
    requires maxSize > 0
    ensures Allowed(maxSize, p, k) == p + k * (maxSize - 1)
  {
    if k > 0 {
      AllowedIs(maxSize, p, k - 1);
      assert k * (maxSize - 1) == (k - 1) * (maxSize - 1) + (maxSize - 1);
    }
  }

  ghost predicate Enough(b: Bounds, p: nat) {
    b.maxSize > 0 && Allowed(b.maxSize, p, p) + b.maxSize <= b.limit
  }

  lemma EnoughIs(b: Bounds, p: nat)
    requires b.maxSize > 0
    ensures Enough(b, p) <==> (p + 1) * b.maxSize <= b.limit
  {
    AllowedIs(b.maxSize, p, p);
    assert p + p * (b.maxSize - 1) + b.maxSize == (p + 1) * b.maxSize;
  }

  ghost predicate Stamps(used: map<string, int>, now: int) {
    && (forall x :: x in used ==> used[x] <= now)
    && (forall x, y :: x in used && y in used && used[x] == used[y] ==> x == y)
  }

  ghost predicate NotTooFarBehind(b: Bounds, p: nat, s: Racing, x: string)
    requires b.maxSize > 0 && x in s.cache
  {
    x in s.regs && |Ahead(s, x)| <= Allowed(b.maxSize, p, s.inFlight[x])
  }

  ghost predicate InShape(b: Bounds, p: nat, s: Racing, now: int) {
    && Stamps(s.cache, now) && Stamps(s.regs, now)
    && |s.cache| <= b.maxSize && |s.inFlight| <= p
  }

  ghost predicate Keeps(b: Bounds, p: nat, s: Racing, now: int)
    requires b.maxSize > 0
  {
    InShape(b, p, s, now) && forall x :: x in s.cache ==> NotTooFarBehind(b, p, s, x)
  }

  lemma {:induction false} SupportSize(m: multiset<string>)
    ensures |Support(m)| <= |m|
    decreases |m|
  {
    if m == multiset{} {
      assert Support(m) == {};
    } else {
      var y :| y in m;
      var rest := m - multiset{y};
      SupportSize(rest);
      SubsetSize(Support(m), Support(rest) + {y});
    }
  }

  lemma CountSize(m: multiset<string>, x: string)
    ensures m[x] <= |m|
  {
    var only := multiset{}[x := m[x]];
    assert m == only + (m - only);
  }

  /** Fewer than the cache's bound are ahead of a cached id in the cache. */
  lemma NewerInCache(cache: map<string, int>, x: string, maxSize: nat)
    requires x in cache && |cache| <= maxSize
    ensures |Newer(cache, x)| <= maxSize - 1
  {
    assert |cache| == |cache.Keys|;
    SubsetSize(Newer(cache, x) + {x}, cache.Keys);
  }

  /** A fresh registry stamp leaves only the refreshes in flight ahead. */
  lemma FreshlyStamped(b: Bounds, p: nat, s: Racing, x: string)
    requires b.maxSize > 0 && x in s.cache && x in s.regs && |s.inFlight| <= p && Newer(s.regs, x) == {}
    ensures NotTooFarBehind(b, p, s, x)
  {
    SupportSize(s.inFlight);
    SubsetSize(Ahead(s, x), Support(s.inFlight));
  }

  /** Whoever moved, nobody new is ahead of x in the registries only. */
  lemma StillNotBehind(b: Bounds, p: nat, s: Racing, s': Racing, x: string)
    requires b.maxSize > 0 && x in s.cache && NotTooFarBehind(b, p, s, x)
    requires x in s'.cache && x in s'.regs && s'.inFlight[x] == s.inFlight[x]
    requires Ahead(s', x) <= Ahead(s, x)
    ensures NotTooFarBehind(b, p, s', x)
  {
    SubsetSize(Ahead(s', x), Ahead(s, x));
  }

  /** Being used puts an id ahead in the cache, whatever it does to the registries. */
  lemma UsedIsAheadInCache(s: Racing, s': Racing, id: string, x: string)
    requires x in s.cache && x in s.regs && x in s'.cache && x in s'.regs
    requires Newer(s'.regs, x) <= Newer(s.regs, x) + {id}
    requires Support(s'.inFlight) <= Support(s.inFlight) + {id}
    requires Newer(s.cache, x) + {id} <= Newer(s'.cache, x)
    ensures Ahead(s', x) <= Ahead(s, x)
  {
  }

  // ---- a hit whose refresh is still to come

  function Stamped(s: Racing, id: string, t: int): Racing {
    Racing(s.cache[id := t], s.regs, s.inFlight + multiset{id})
  }

  lemma StampOther(b: Bounds, p: nat, s: Racing, now: int, id: string, t: int, x: string)
    requires b.maxSize > 0 && x in s.cache && NotTooFarBehind(b, p, s, x) && Stamps(s.cache, now) && now < t && x != id
    ensures NotTooFarBehind(b, p, Stamped(s, id, t), x)
  {
    var s' := Stamped(s, id, t);
    assert id in s'.inFlight;
    UsedIsAheadInCache(s, s', id, x);
    StillNotBehind(b, p, s, s', x);
  }

  /** Those ahead of it in the cache count from now on. */
  lemma StampSelf(b: Bounds, p: nat, s: Racing, now: int, x: string, t: int)
    requires b.maxSize > 0 && x in s.cache && NotTooFarBehind(b, p, s, x) && |s.cache| <= b.maxSize
    ensures NotTooFarBehind(b, p, Stamped(s, x, t), x)
  {
    var s' := Stamped(s, x, t);
    NewerInCache(s.cache, x, b.maxSize);
    StampedAhead(s, x, t);
    UnionSize(Ahead(s', x), Ahead(s, x), Newer(s.cache, x));
    assert s'.inFlight[x] == s.inFlight[x] + 1;
  }

  lemma StampedAhead(s: Racing, x: string, t: int)
    requires x in s.cache && x in s.regs
    ensures Ahead(Stamped(s, x, t), x) <= Ahead(s, x) + Newer(s.cache, x)
  {
    var s' := Stamped(s, x, t);
    forall y | y in Ahead(s', x) ensures y in Ahead(s, x) + Newer(s.cache, x) {
      assert y in Newer(s.regs, x) || (y in Support(s.inFlight) && y != x);
    }
  }

  lemma UnionSize(r: set<string>, a: set<string>, b: set<string>)
    requires r <= a + b
    ensures |r| <= |a| + |b|
  {
    SubsetSize(r, a + b);
    assert a + b == a + (b - a);
    SubsetSize(b - a, b);
  }

  lemma StampKeeps(b: Bounds, p: nat, s: Racing, now: int, id: string, t: int)
    requires b.maxSize > 0 && Keeps(b, p, s, now) && now < t && id in s.cache && |s.inFlight| < p
    ensures Keeps(b, p, Stamped(s, id, t), t)
  {
    var s' := Stamped(s, id, t);
    RestampSize(s.cache, id, t);
    RestampStamps(s.cache, now, id, t);
    forall x | x in s'.cache ensures NotTooFarBehind(b, p, s', x) {
      assert NotTooFarBehind(b, p, s, x);
      if x == id { StampSelf(b, p, s, now, x, t); } else { StampOther(b, p, s, now, id, t, x); }
    }
  }

  lemma RestampStamps(used: map<string, int>, now: int, id: string, t: int)
    requires Stamps(used, now) && now < t
    ensures Stamps(used[id := t], t)
  {
  }

  // ---- a refresh that lands

  function Refreshed(s: Racing, id: string, t: int): Racing {
    Racing(s.cache, if id in s.regs then s.regs[id := t] else s.regs, s.inFlight - multiset{id})
  }

  lemma RefreshOther(b: Bounds, p: nat, s: Racing, now: int, id: string, t: int, x: string)
    requires b.maxSize > 0 && x in s.cache && NotTooFarBehind(b, p, s, x) && id in s.inFlight && x != id
    ensures NotTooFarBehind(b, p, Refreshed(s, id, t), x)
  {
    var s' := Refreshed(s, id, t);
    assert Newer(s'.regs, x) <= Newer(s.regs, x) + {id};
    assert id in Support(s.inFlight) && Support(s'.inFlight) <= Support(s.inFlight);
    StillNotBehind(b, p, s, s', x);
  }

  lemma RefreshSelf(b: Bounds, p: nat, s: Racing, now: int, x: string, t: int)
    requires b.maxSize > 0 && x in s.cache && x in s.regs && |s.inFlight| <= p && x in s.inFlight
    requires Stamps(s.regs, now) && now < t
    ensures NotTooFarBehind(b, p, Refreshed(s, x, t), x)
  {
    assert Newer(Refreshed(s, x, t).regs, x) == {};
    FreshlyStamped(b, p, Refreshed(s, x, t), x);
  }

  lemma RefreshKeeps(b: Bounds, p: nat, s: Racing, now: int, id: string, t: int)
    requires b.maxSize > 0 && Keeps(b, p, s, now) && now < t && id in s.inFlight
    ensures Keeps(b, p, Refreshed(s, id, t), t)
  {
    var s' := Refreshed(s, id, t);
    RestampStamps(s.regs, now, id, t);
    forall x | x in s'.cache ensures NotTooFarBehind(b, p, s', x) {
      assert NotTooFarBehind(b, p, s, x);
      if x == id { RefreshSelf(b, p, s, now, x, t); } else { RefreshOther(b, p, s, now, id, t, x); }
    }
  }

  // ---- a hit with nothing between its halves

  function HitWhole(s: Racing, id: string, t1: int, t2: int): Racing {
    Racing(s.cache[id := t1], if id in s.regs then s.regs[id := t2] else s.regs, s.inFlight)
  }

  lemma HitOther(b: Bounds, p: nat, s: Racing, now: int, id: string, t1: int, t2: int, x: string)
    requires b.maxSize > 0 && x in s.cache && NotTooFarBehind(b, p, s, x) && Stamps(s.cache, now) && now < t1 && x != id
    ensures NotTooFarBehind(b, p, HitWhole(s, id, t1, t2), x)
  {
    var s' := HitWhole(s, id, t1, t2);
    UsedIsAheadInCache(s, s', id, x);
    StillNotBehind(b, p, s, s', x);
  }

  lemma HitSelf(b: Bounds, p: nat, s: Racing, now: int, x: string, t1: int, t2: int)
    requires b.maxSize > 0 && x in s.cache && x in s.regs && |s.inFlight| <= p && Stamps(s.regs, now) && now < t2
    ensures NotTooFarBehind(b, p, HitWhole(s, x, t1, t2), x)
  {
    assert Newer(HitWhole(s, x, t1, t2).regs, x) == {};
    FreshlyStamped(b, p, HitWhole(s, x, t1, t2), x);
  }

  lemma HitWholeKeeps(b: Bounds, p: nat, s: Racing, now: int, id: string, t1: int, t2: int)
    requires b.maxSize > 0 && Keeps(b, p, s, now) && now < t1 < t2 && id in s.cache
    ensures Keeps(b, p, HitWhole(s, id, t1, t2), t2)
  {
    var s' := HitWhole(s, id, t1, t2);
    RestampSize(s.cache, id, t1);
    RestampStamps(s.cache, now, id, t1);
    RestampStamps(s.regs, now, id, t2);
    forall x | x in s'.cache ensures NotTooFarBehind(b, p, s', x) {
      assert NotTooFarBehind(b, p, s, x);
      if x == id { HitSelf(b, p, s, now, x, t1, t2); } else { HitOther(b, p, s, now, id, t1, t2, x); }
    }
  }

  // ---- a reap

  lemma NewerStays(used: map<string, int>, after: map<string, int>, x: string)
    requires x in after && forall k :: k in after ==> k in used && after[k] == used[k]
    requires forall k :: k in used && used[x] < used[k] ==> k in after
    ensures Newer(after, x) == Newer(used, x)
  {
  }

  lemma ReapKeepsUp(b: Bounds, p: nat, s: Racing, s': Racing, now: int, reapNow: int)
    requires b.maxSize > 0 && Keeps(b, p, s, now) && Moves(b, p, s, s', Whole(Reap(reapNow)))
    ensures Keeps(b, p, s', now)
  {
    SubmapSize(s.cache, s'.cache);
    forall x | x in s'.cache ensures NotTooFarBehind(b, p, s', x) {
      assert NotTooFarBehind(b, p, s, x);
      NewerStays(s.cache, s'.cache, x);
      StillNotBehind(b, p, s, s', x);
    }
  }

  // ---- a miss

  lemma NewestIsKept(used: map<string, int>, after: map<string, int>, bound: nat, id: string)
    requires Trimmed(used, after, bound) && bound > 0
    requires id in used && forall k :: k in used && k != id ==> used[k] < used[id]
    ensures id in after
  {
    assert |used.Keys| == |used| && |after.Keys| == |after|;
    SubsetSize({id}, used.Keys);
    assert after.Keys != {};
    var k :| k in after.Keys;
  }

  /** An id dropped from the registries has the bound's number of ids ahead of it there. */
  lemma DroppedIsFarBehind(used: map<string, int>, after: map<string, int>, now: int, bound: nat, x: string)
    requires Trimmed(used, after, bound) && Stamps(used, now) && x in used && x !in after
    ensures bound <= |Newer(used, x)|
  {
    if |used| <= bound { UntrimmedIsSame(used, after, bound); }
    assert |after| == |after.Keys| == bound;
    SubsetSize(after.Keys, Newer(used, x));
  }

  /** After the miss, nobody but the newcomer is new ahead of x in either map. */
  lemma MissAhead(s: Racing, now: int, id: string, t1: int, t2: int, x: string)
    requires x in s.cache && x in s.regs && x != id && Stamps(s.cache, now) && Stamps(s.regs, now) && now < t1 < t2
    ensures Newer(s.regs[id := t1], x) <= Newer(s.regs, x) + {id}
    ensures Newer(s.cache, x) + {id} <= Newer(s.cache[id := t2], x)
  {
  }

  lemma NewerTrimmed(used: map<string, int>, after: map<string, int>, now: int, x: string)
    requires KeepsNewest(used, after) && Stamps(used, now) && x in after
    ensures Newer(after, x) == Newer(used, x)
  {
    NewerStays(used, after, x);
  }

  lemma NewerSubset(used: map<string, int>, after: map<string, int>, x: string)
    requires KeepsNewest(used, after) && x in after
    ensures Newer(after, x) <= Newer(used, x)
  {
  }

  /** A cached id that is not used keeps its registry: too few are ahead of it for it to be dropped. */
  lemma MissSpares(b: Bounds, p: nat, s: Racing, now: int, id: string, t1: int, t2: int,
      cache': map<string, int>, regs': map<string, int>, x: string)
    requires Enough(b, p) && x in s.cache && NotTooFarBehind(b, p, s, x) && InShape(b, p, s, now) && now < t1 < t2
    requires Trimmed(s.regs[id := t1], regs', b.limit) && Trimmed(s.cache[id := t2], cache', b.maxSize)
    requires x in cache' && x != id
    ensures x in regs'
  {
    var cache1, regs1 := s.cache[id := t2], s.regs[id := t1];
    RestampStamps(s.cache, now, id, t2);
    RestampStamps(s.regs, now, id, t1);
    MissAhead(s, now, id, t1, t2, x);
    NewerTrimmed(cache1, cache', t2, x);
    NewerInCache(cache', x, b.maxSize);
    UnionSize(Newer(regs1, x), Ahead(s, x), Newer(cache', x));
    CountSize(s.inFlight, x);
    AllowedGrows(b.maxSize, p, s.inFlight[x], p);
    if x !in regs' { DroppedIsFarBehind(regs1, regs', t1, b.limit, x); }
  }

  lemma MissOther(b: Bounds, p: nat, s: Racing, now: int, id: string, t1: int, t2: int,
      cache': map<string, int>, regs': map<string, int>, x: string)
    requires Enough(b, p) && x in s.cache && NotTooFarBehind(b, p, s, x) && InShape(b, p, s, now) && now < t1 < t2
    requires Trimmed(s.regs[id := t1], regs', b.limit) && Trimmed(s.cache[id := t2], cache', b.maxSize)
    requires x in cache' && x != id
    ensures NotTooFarBehind(b, p, Racing(cache', regs', s.inFlight), x)
  {
    var s' := Racing(cache', regs', s.inFlight);
    MissSpares(b, p, s, now, id, t1, t2, cache', regs', x);
    MissAhead(s, now, id, t1, t2, x);
    RestampStamps(s.cache, now, id, t2);
    NewerTrimmed(s.cache[id := t2], cache', t2, x);
    NewerSubset(s.regs[id := t1], regs', x);
    UsedIsAheadInCache(s, s', id, x);
    StillNotBehind(b, p, s, s', x);
  }

  lemma MissSelf(b: Bounds, p: nat, s: Racing, now: int, t1: int, cache': map<string, int>, regs': map<string, int>,
      x: string)
    requires Enough(b, p) && InShape(b, p, s, now) && now < t1 && Trimmed(s.regs[x := t1], regs', b.limit) && x in cache'
    ensures NotTooFarBehind(b, p, Racing(cache', regs', s.inFlight), x)
  {
    NewestIsKept(s.regs[x := t1], regs', b.limit, x);
    NewerSubset(s.regs[x := t1], regs', x);
    assert Newer(s.regs[x := t1], x) == {};
    FreshlyStamped(b, p, Racing(cache', regs', s.inFlight), x);
  }

  lemma StampsTrimmed(used: map<string, int>, after: map<string, int>, now: int)
    requires KeepsNewest(used, after) && Stamps(used, now)
    ensures Stamps(after, now)
  {
  }

  lemma MissKeepsUp(b: Bounds, p: nat, s: Racing, now: int, id: string, t1: int, t2: int,
      cache': map<string, int>, regs': map<string, int>)
    requires Enough(b, p) && Keeps(b, p, s, now) && now < t1 < t2
    requires Trimmed(s.regs[id := t1], regs', b.limit) && Trimmed(s.cache[id := t2], cache', b.maxSize)
    ensures Keeps(b, p, Racing(cache', regs', s.inFlight), t2)
  {
    var s' := Racing(cache', regs', s.inFlight);
    RestampStamps(s.cache, now, id, t2);
    RestampStamps(s.regs, now, id, t1);
    StampsTrimmed(s.cache[id := t2], cache', t2);
    StampsTrimmed(s.regs[id := t1], regs', t1);
    forall x | x in s'.cache ensures NotTooFarBehind(b, p, s', x) {
      if x == id {
        MissSelf(b, p, s, now, t1, cache', regs', x);
      } else {
        assert NotTooFarBehind(b, p, s, x);
        MissOther(b, p, s, now, id, t1, t2, cache', regs', x);
      }
    }
  }

  // ---- whole runs

  lemma MoveKeepsUp(b: Bounds, p: nat, s: Racing, now: int, e: Event, s': Racing, now': int)
    requires Enough(b, p) && Keeps(b, p, s, now) && Follows(b, p, s, now, e, s', now')
    ensures Keeps(b, p, s', now')
  {
    match e
    case Stamp(id, t) => StampKeeps(b, p, s, now, id, t);
    case Refresh(id, t) => RefreshKeeps(b, p, s, now, id, t);
    case Whole(step) =>
      match step
      case Reap(reapNow) => ReapKeepsUp(b, p, s, s', now, reapNow);
      case Request(id, t1, t2) =>
        if id in s.cache {
          HitWholeKeeps(b, p, s, now, id, t1, t2);
          assert s' == HitWhole(s, id, t1, t2);
        } else {
          MissKeepsUp(b, p, s, now, id, t1, t2, s'.cache, s'.regs);
        }
  }

  lemma StartKeepsUp(b: Bounds, p: nat, now: int)
    requires b.maxSize > 0
    ensures Keeps(b, p, Racing(map[], map[], multiset{}), now)
  {
  }

  lemma FrontIsRun(b: Bounds, p: nat, run: seq<Point>)
    requires IsRun(b, p, run) && |run| > 1
    ensures IsRun(b, p, run[..|run| - 1]) && Linked(b, p, run[|run| - 2], run[|run| - 1])
  {
    var front := run[..|run| - 1];
    forall i | 0 <= i < |front| - 1 ensures Linked(b, p, front[i], front[i + 1]) {
      assert Linked(b, p, run[i], run[i + 1]);
    }
    assert Linked(b, p, run[|run| - 2], run[|run| - 2 + 1]);
  }

  lemma LinkKeepsUp(b: Bounds, p: nat, x: Point, y: Point)
    requires Enough(b, p) && Keeps(b, p, x.s, x.now) && Linked(b, p, x, y)
    ensures Keeps(b, p, y.s, y.now)
  {
    var e :| Follows(b, p, x.s, x.now, e, y.s, y.now);
    MoveKeepsUp(b, p, x.s, x.now, e, y.s, y.now);
  }

  lemma {:induction false} RunsKeepUp(b: Bounds, p: nat, run: seq<Point>)
    requires Enough(b, p) && IsRun(b, p, run)
    ensures Keeps(b, p, run[|run| - 1].s, run[|run| - 1].now)
    decreases |run|
  {
    var n := |run|;
    if n == 1 {
      StartKeepsUp(b, p, run[0].now);
    } else {
      FrontIsRun(b, p, run);
      RunsKeepUp(b, p, run[..n - 1]);
      LinkKeepsUp(b, p, run[n - 2], run[n - 1]);
    }
  }
}
