/**
 The registry of long-running tool calls (internal/pooling/registry.go). Times are clock readings;
 a job's done channel is closed exactly when `done` is set.
 */
module PoolRegistry {
  import opened Options
  import opened Decimal
  import opened FiniteSets

  datatype JobState<R> = JobState(cancelled: bool, done: bool, result: Option<R>, createdAt: int,
      finishedAt: Option<int>)

  datatype State<R> = State(jobs: map<string, JobState<R>>, counters: map<string, nat>, ttl: int, grace: int, max: int)

  datatype Status = Running | Finished | Cancelled | Unknown

  const HOUR: int := 3600
  const DEFAULT_MAX: int := 256

  function New<R>(ttl: int, grace: int, max: int): State<R> {
    State(map[], map[], if ttl <= 0 then HOUR else ttl, if grace <= 0 then HOUR else grace,
        if max <= 0 then DEFAULT_MAX else max)
  }

  function PoolID(name: string, n: nat): string { name + ['_'] + Numeral(n) }

  function Counter<R>(s: State<R>, name: string): nat {
    if name in s.counters then s.counters[name] else 0
  }

  predicate Expired<R>(job: JobState<R>, ttl: int, grace: int, now: int) {
    if job.done then job.finishedAt.Some? && now - job.finishedAt.value > grace
    else now - job.createdAt > ttl
  }

  function Evict<R>(s: State<R>, now: int): State<R> {
    s.(jobs := map id | id in s.jobs && !Expired(s.jobs[id], s.ttl, s.grace, now) :: s.jobs[id])
  }

  /** Room for one more: expired jobs are evicted first when the registry is full. */
  function MakeRoom<R>(s: State<R>, now: int): State<R> {
    if |s.jobs| >= s.max then Evict(s, now) else s
  }

  /** A record as it goes into the registry: its done channel is new, the other fields are as the caller left them. */
  function Opened<R>(job: JobState<R>, now: int): JobState<R> {
    job.(done := false, createdAt := now)
  }

  /** With room: an empty id is minted from the name's counter, an id the caller chose is refused when taken. */
  function Place<R>(r: State<R>, name: string, id: string, job: JobState<R>, now: int): (State<R>, Option<string>) {
    if id == "" then
      var n := Counter(r, name) + 1;
      (r.(counters := r.counters[name := n], jobs := r.jobs[PoolID(name, n) := Opened(job, now)]),
          Some(PoolID(name, n)))
    else if id in r.jobs then (r, None)
    else (r.(jobs := r.jobs[id := Opened(job, now)]), Some(id))
  }

  /** None is the error: the registry is full or the id is taken. */
  function RegisterJob<R>(s: State<R>, name: string, id: string, job: JobState<R>, now: int)
    : (State<R>, Option<string>)
  {
    var r := MakeRoom(s, now);
    if |r.jobs| >= r.max then (r, None) else Place(r, name, id, job, now)
  }

  /** Register without an id. */
  function Register<R>(s: State<R>, name: string, job: JobState<R>, now: int): (State<R>, Option<string>) {
    RegisterJob(s, name, "", job, now)
  }

  predicate CanComplete<R>(s: State<R>, id: string) { id in s.jobs && !s.jobs[id].done }

  function AfterComplete<R>(s: State<R>, id: string, res: R, now: int): State<R> {
    if CanComplete(s, id) then
      s.(jobs := s.jobs[id := s.jobs[id].(done := true, result := Some(res), finishedAt := Some(now))])
    else s
  }

  function AfterCancel<R>(s: State<R>, id: string): State<R> {
    if id in s.jobs then s.(jobs := s.jobs[id := s.jobs[id].(cancelled := true)]) else s
  }

  function StatusOf<R>(s: State<R>, id: string): Status {
    if id !in s.jobs then Unknown
    else if s.jobs[id].cancelled then Cancelled
    else if s.jobs[id].done then Finished
    else Running
  }

  // ---------------------------------------------------------------- whole runs with minted ids

  datatype Step<R> =
    | RegisterStep(name: string, job: JobState<R>, now: int)
    | CompleteStep(id: string, res: R, now: int)
    | CancelStep(id: string)
    | EvictStep(now: int)

  /** The registry with its history: every id ever minted, and the result each completed job was given. */
  datatype History<R> = History(reg: State<R>, issued: set<string>, results: map<string, R>)

  function Do<R>(h: History<R>, step: Step<R>): History<R> {
    match step
    case RegisterStep(name, job, now) =>
      var (reg, id) := Register(h.reg, name, job, now);
      h.(reg := reg, issued := if id.Some? then h.issued + {id.value} else h.issued)
    case CompleteStep(id, res, now) =>
      h.(reg := AfterComplete(h.reg, id, res, now),
          results := if CanComplete(h.reg, id) then h.results[id := res] else h.results)
    case CancelStep(id) => h.(reg := AfterCancel(h.reg, id))
    case EvictStep(now) => h.(reg := Evict(h.reg, now))
  }

  function Run<R>(h: History<R>, steps: seq<Step<R>>): History<R>
    decreases |steps|
  {
    if steps == [] then h else Run(Do(h, steps[0]), steps[1..])
  }

  function Start<R>(ttl: int, grace: int, max: int): History<R> {
    History(New(ttl, grace, max), {}, map[])
  }

  /** The id was minted for some name and a count its counter has reached. */
  ghost predicate Minted<R>(s: State<R>, id: string) {
    exists name: string, n: nat :: 1 <= n <= Counter(s, name) && id == PoolID(name, n)
  }

  ghost predicate WithinCap<R>(s: State<R>) {
    s.max > 0 && |s.jobs| <= s.max
  }

  ghost predicate AllMinted<R>(s: State<R>, ids: set<string>) {
    forall id :: id in ids ==> Minted(s, id)
  }

  ghost predicate Agrees<R>(job: JobState<R>, results: map<string, R>, id: string) {
    && (job.done <==> id in results)
    && (job.done ==> job.result == Some(results[id]))
  }

  ghost predicate JobsAgree<R>(jobs: map<string, JobState<R>>, results: map<string, R>) {
    forall id :: id in jobs ==> Agrees(jobs[id], results, id)
  }

  ghost predicate Ok<R>(h: History<R>) {
    && WithinCap(h.reg)
    && h.reg.jobs.Keys <= h.issued
    && h.results.Keys <= h.issued
    && AllMinted(h.reg, h.issued)
    && JobsAgree(h.reg.jobs, h.results)
  }

  /** Eviction only drops jobs; making room for one leaves room or refuses. */
  lemma EvictShrinks<R>(s: State<R>, now: int)
    ensures var r := Evict(s, now);
      && |r.jobs| <= |s.jobs| && r.jobs.Keys <= s.jobs.Keys && r == s.(jobs := r.jobs)
      && forall id :: id in r.jobs ==> r.jobs[id] == s.jobs[id]
  {
    assert Evict(s, now).jobs.Keys <= s.jobs.Keys;
    SubsetSize(Evict(s, now).jobs.Keys, s.jobs.Keys);
  }

  /** The id a registration mints was never minted before, even for a job long evicted. */
  lemma NextIdIsNew<R>(s: State<R>, name: string)
    ensures !Minted(s, PoolID(name, Counter(s, name) + 1))
  {
    var id := PoolID(name, Counter(s, name) + 1);
    if Minted(s, id) {
      var name', n: nat :| 1 <= n <= Counter(s, name') && id == PoolID(name', n);
      NamedNumeralInjective(name, Counter(s, name) + 1, name', n, '_');
    }
  }

  lemma MintedPersists<R>(s: State<R>, s': State<R>, ids: set<string>)
    requires AllMinted(s, ids) && forall name :: Counter(s, name) <= Counter(s', name)
    ensures AllMinted(s', ids)
  {
    forall id | id in ids ensures Minted(s', id) {
      var name, n: nat :| 1 <= n <= Counter(s, name) && id == PoolID(name, n);
      assert 1 <= n <= Counter(s', name) && id == PoolID(name, n);
    }
  }

  /** Counting a name up by one mints exactly the id made from the new count. */
  lemma CountedUp<R>(s: State<R>, s': State<R>, ids: set<string>, name: string)
    requires AllMinted(s, ids) && s'.counters == s.counters[name := Counter(s, name) + 1]
    ensures AllMinted(s', ids + {PoolID(name, Counter(s', name))})
  {
    MintedPersists(s, s', ids);
    assert Minted(s', PoolID(name, Counter(s', name)));
  }

  /** Adding a fresh job under an id never issued keeps the invariant, whatever the id is. */
  lemma AddedOk<R>(h: History<R>, jobs: map<string, JobState<R>>, reg: State<R>, id: string, job: JobState<R>, now: int)
    requires Ok(h) && id !in h.issued
    requires reg.max == h.reg.max && AllMinted(reg, h.issued + {id})
    requires SubmapOf(jobs, h.reg.jobs) && |jobs| < reg.max && reg.jobs == jobs[id := Opened(job, now)]
    ensures Ok(h.(reg := reg, issued := h.issued + {id}))
  {
    assert reg.jobs.Keys == jobs.Keys + {id};
    AddedAgrees(h.reg.jobs, jobs, h.results, id, job, now);
  }

  lemma AddedAgrees<R>(before: map<string, JobState<R>>, jobs: map<string, JobState<R>>, results: map<string, R>,
      id: string, job: JobState<R>, now: int)
    requires JobsAgree(before, results) && SubmapOf(jobs, before) && id !in results
    ensures JobsAgree(jobs[id := Opened(job, now)], results)
  {
    forall k | k in jobs && k != id ensures Agrees(jobs[k], results, k) { assert Agrees(before[k], results, k); }
  }

  lemma CompletedAgrees<R>(jobs: map<string, JobState<R>>, results: map<string, R>, id: string, res: R, now: int)
    requires JobsAgree(jobs, results) && id in jobs
    ensures JobsAgree(jobs[id := jobs[id].(done := true, result := Some(res), finishedAt := Some(now))],
        results[id := res])
  {
    forall k | k in jobs && k != id ensures Agrees(jobs[k], results[id := res], k) {
      assert Agrees(jobs[k], results, k);
    }
  }

  lemma CancelledAgrees<R>(jobs: map<string, JobState<R>>, results: map<string, R>, id: string)
    requires JobsAgree(jobs, results) && id in jobs
    ensures JobsAgree(jobs[id := jobs[id].(cancelled := true)], results)
  {
    assert Agrees(jobs[id], results, id);
    forall k | k in jobs && k != id ensures Agrees(jobs[k], results, k) { }
  }

  ghost predicate SubmapOf<R>(small: map<string, JobState<R>>, big: map<string, JobState<R>>) {
    small.Keys <= big.Keys && forall id :: id in small ==> small[id] == big[id]
  }

  /** With room, what a registration that mints does. */
  ghost predicate Mints<R>(s: State<R>, reg: State<R>, name: string, id: string, job: JobState<R>, now: int) {
    && id == PoolID(name, Counter(reg, name)) && reg.counters == s.counters[name := Counter(s, name) + 1]
    && reg.max == s.max && reg.jobs == MakeRoom(s, now).jobs[id := Opened(job, now)]
  }

  lemma RegisterMints<R>(s: State<R>, name: string, job: JobState<R>, now: int)
    requires |MakeRoom(s, now).jobs| < s.max
    ensures var (reg, got) := Register(s, name, job, now);
      got.Some? && Mints(s, reg, name, got.value, job, now) && got.value == PoolID(name, Counter(s, name) + 1)
  {
  }

  lemma MintedOk<R>(h: History<R>, reg: State<R>, name: string, id: string, job: JobState<R>, now: int)
    requires Ok(h) && |MakeRoom(h.reg, now).jobs| < h.reg.max
    requires Mints(h.reg, reg, name, id, job, now) && id !in h.issued
    ensures Ok(h.(reg := reg, issued := h.issued + {id}))
  {
    EvictShrinks(h.reg, now);
    CountedUp(h.reg, reg, h.issued, name);
    AddedOk(h, MakeRoom(h.reg, now).jobs, reg, id, job, now);
  }

  lemma NextIdUnissued<R>(h: History<R>, name: string)
    requires Ok(h)
    ensures PoolID(name, Counter(h.reg, name) + 1) !in h.issued
  {
    NextIdIsNew(h.reg, name);
  }

  lemma RegisterOk<R>(h: History<R>, name: string, job: JobState<R>, now: int)
    requires Ok(h)
    ensures Ok(Do(h, RegisterStep(name, job, now)))
    ensures Register(h.reg, name, job, now).1.Some? ==> Register(h.reg, name, job, now).1.value !in h.issued
  {
    if |MakeRoom(h.reg, now).jobs| < h.reg.max {
      var (reg, got) := Register(h.reg, name, job, now);
      RegisterMints(h.reg, name, job, now);
      NextIdUnissued(h, name);
      MintedOk(h, reg, name, got.value, job, now);
    } else {
      EvictShrinks(h.reg, now);
      DroppedOk(h, MakeRoom(h.reg, now));
    }
  }

  /** Dropping jobs keeps the invariant. */
  lemma DroppedOk<R>(h: History<R>, reg: State<R>)
    requires Ok(h) && reg == h.reg.(jobs := reg.jobs) && SubmapOf(reg.jobs, h.reg.jobs)
    ensures Ok(h.(reg := reg))
  {
    SubsetSize(reg.jobs.Keys, h.reg.jobs.Keys);
    MintedPersists(h.reg, reg, h.issued);
  }

  /** A change that keeps the ids, the counters and the cap keeps the invariant. */
  lemma SameIdsOk<R>(h: History<R>, h': History<R>)
    requires Ok(h) && h'.issued == h.issued && h'.reg == h.reg.(jobs := h'.reg.jobs)
    requires h'.reg.jobs.Keys == h.reg.jobs.Keys && h'.results.Keys <= h.issued && JobsAgree(h'.reg.jobs, h'.results)
    ensures Ok(h')
  {
    assert |h'.reg.jobs| == |h'.reg.jobs.Keys| && |h.reg.jobs| == |h.reg.jobs.Keys|;
    MintedPersists(h.reg, h'.reg, h.issued);
  }

  lemma CompleteOk<R>(h: History<R>, id: string, res: R, now: int)
    requires Ok(h)
    ensures Ok(Do(h, CompleteStep(id, res, now)))
  {
    if CanComplete(h.reg, id) {
      CompletedAgrees(h.reg.jobs, h.results, id, res, now);
      SameIdsOk(h, Do(h, CompleteStep(id, res, now)));
    } else {
      assert Do(h, CompleteStep(id, res, now)) == h;
    }
  }

  lemma CancelOk<R>(h: History<R>, id: string)
    requires Ok(h)
    ensures Ok(Do(h, CancelStep(id)))
  {
    if id in h.reg.jobs {
      CancelledAgrees(h.reg.jobs, h.results, id);
      SameIdsOk(h, Do(h, CancelStep(id)));
    } else {
      assert Do(h, CancelStep(id)) == h;
    }
  }

  lemma StepOk<R>(h: History<R>, step: Step<R>)
    requires Ok(h)
    ensures Ok(Do(h, step))
  {
    match step
    case RegisterStep(name, job, now) => RegisterOk(h, name, job, now);
    case CompleteStep(id, res, now) => CompleteOk(h, id, res, now);
    case CancelStep(id) => CancelOk(h, id);
    case EvictStep(now) => EvictShrinks(h.reg, now); DroppedOk(h, Evict(h.reg, now));
  }

  lemma {:induction false} RunOk<R>(h: History<R>, steps: seq<Step<R>>)
    requires Ok(h)
    ensures Ok(Run(h, steps))
    decreases |steps|
  {
    if steps != [] {
      StepOk(h, steps[0]);
      RunOk(Do(h, steps[0]), steps[1..]);
    }
  }

  /** In every run the cap holds, and each registration is given an id no job ever had. */
  lemma IdsAreNeverReissued<R>(ttl: int, grace: int, max: int, steps: seq<Step<R>>, name: string, job: JobState<R>,
      now: int)
    ensures var h := Run(Start(ttl, grace, max), steps);
      && |h.reg.jobs| <= h.reg.max
      && (Register(h.reg, name, job, now).1.Some? ==> Register(h.reg, name, job, now).1.value !in h.issued)
  {
    RunOk(Start<R>(ttl, grace, max), steps);
    RegisterOk(Run(Start(ttl, grace, max), steps), name, job, now);
  }

  /** What one step may do to an id minted before: gone it stays gone, it never runs again,
      and it keeps the result it was given. */
  ghost predicate Onward<R>(h: History<R>, h': History<R>, id: string) {
    && id in h'.issued
    && (id !in h.reg.jobs ==> id !in h'.reg.jobs)
    && (StatusOf(h.reg, id) != Running ==> StatusOf(h'.reg, id) != Running)
    && (id in h.results ==> id in h'.results && h'.results[id] == h.results[id])
  }

  /** Whatever a registration evicts and adds, no other job's record changes. */
  lemma RegisterTouchesOne<R>(s: State<R>, name: string, job: JobState<R>, now: int, id: string)
    requires id != PoolID(name, Counter(s, name) + 1) && id in Register(s, name, job, now).0.jobs
    ensures id in s.jobs && Register(s, name, job, now).0.jobs[id] == s.jobs[id]
  {
    EvictShrinks(s, now);
  }

  lemma RegisterOnward<R>(h: History<R>, name: string, job: JobState<R>, now: int, id: string)
    requires id in h.issued && PoolID(name, Counter(h.reg, name) + 1) !in h.issued
    ensures Onward(h, Do(h, RegisterStep(name, job, now)), id)
  {
    if id in Register(h.reg, name, job, now).0.jobs {
      RegisterTouchesOne(h.reg, name, job, now, id);
    }
  }

  lemma StepForward<R>(h: History<R>, step: Step<R>, id: string)
    requires Ok(h) && id in h.issued
    ensures Onward(h, Do(h, step), id)
  {
    match step
    case RegisterStep(name, job, now) => NextIdIsNew(h.reg, name); RegisterOnward(h, name, job, now, id);
    case CompleteStep(_, _, _) => assert id in h.reg.jobs ==> Agrees(h.reg.jobs[id], h.results, id);
    case EvictStep(now) => EvictShrinks(h.reg, now);
    case CancelStep(_) =>
  }

  /** Over any continuation: not running stays not running, a result is given once and never changes. */
  lemma {:induction false} NeverRunsAgain<R>(h: History<R>, more: seq<Step<R>>, id: string)
    requires Ok(h) && id in h.issued
    ensures var r := Run(h, more);
      && Onward(h, r, id)
      && (id in h.results ==>
            && !CanComplete(r.reg, id)
            && (id in r.reg.jobs ==> r.reg.jobs[id].done && r.reg.jobs[id].result == Some(h.results[id])))
    decreases |more|
  {
    if more == [] {
    } else {
      StepForward(h, more[0], id);
      StepOk(h, more[0]);
      NeverRunsAgain(Do(h, more[0]), more[1..], id);
    }
  }

  // ---------------------------------------------------------------- polling

  datatype Outcome<R> = Outcome(status: Status, result: Option<R>)

  /** LongPoll: `arrival` is the record found when the poll starts, `end` the same record when the wait is over,
      and `closed` says that the closed done channel was what ended the wait. */
  function LongPoll<R>(arrival: Option<JobState<R>>, closed: bool, end: JobState<R>): Outcome<R> {
    if arrival.None? then Outcome(Unknown, None)
    else if arrival.value.cancelled then Outcome(Cancelled, None)
    else if closed then Outcome(Finished, end.result)
    else if end.cancelled then Outcome(Cancelled, None)
    else Outcome(Running, None)
  }

  /** The record of an id after a run. Pollers keep it when the registry evicts it, and nothing changes it then. */
  function Track<R>(h: History<R>, steps: seq<Step<R>>, id: string, rec: JobState<R>): JobState<R>
    decreases |steps|
  {
    if steps == [] then rec
    else
      var h1 := Do(h, steps[0]);
      Track(h1, steps[1..], id, if id in h1.reg.jobs then h1.reg.jobs[id] else rec)
  }

  /** The record is what the registry holds under the id, while it does, and shows the result recorded for it. */
  ghost predicate Tracks<R>(h: History<R>, id: string, rec: JobState<R>) {
    && id in h.issued && (id in h.reg.jobs ==> rec == h.reg.jobs[id])
    && Agrees(rec, h.results, id)
  }

  lemma StepTracks<R>(h: History<R>, step: Step<R>, id: string, rec: JobState<R>)
    requires Ok(h) && Tracks(h, id, rec)
    ensures var h1 := Do(h, step); Tracks(h1, id, if id in h1.reg.jobs then h1.reg.jobs[id] else rec)
  {
    StepOk(h, step);
    StepForward(h, step, id);
    var h1 := Do(h, step);
    if id in h1.reg.jobs {
      assert Agrees(h1.reg.jobs[id], h1.results, id);
    } else {
      assert id in h1.results <==> id in h.results;
    }
  }

  lemma {:induction false} RunTracks<R>(h: History<R>, steps: seq<Step<R>>, id: string, rec: JobState<R>)
    requires Ok(h) && Tracks(h, id, rec)
    ensures Ok(Run(h, steps)) && Tracks(Run(h, steps), id, Track(h, steps, id, rec))
    decreases |steps|
  {
    if steps != [] {
      StepOk(h, steps[0]);
      StepTracks(h, steps[0], id, rec);
      var h1 := Do(h, steps[0]);
      RunTracks(h1, steps[1..], id, if id in h1.reg.jobs then h1.reg.jobs[id] else rec);
    }
  }

  /**
   Polls that found the job, whether or not it is evicted before they end: one that sees the done channel closed
   reports the result recorded for the id, or that it was cancelled before it arrived; and one that ends later, however
   it arrived, sees the channel closed too and reports that same result.
   */
  lemma PollsAgree<R>(h: History<R>, mid: seq<Step<R>>, more: seq<Step<R>>, id: string,
      arrival: JobState<R>, later: JobState<R>)
    requires Ok(h) && id in h.reg.jobs
    ensures var rec1, h1 := Track(h, mid, id, h.reg.jobs[id]), Run(h, mid);
      var rec2 := Track(h1, more, id, rec1);
      rec1.done ==>
        && id in h1.results && rec2.done
        && LongPoll(Some(arrival), true, rec1)
           == (if arrival.cancelled then Outcome(Cancelled, None) else Outcome(Finished, Some(h1.results[id])))
        && LongPoll(Some(later), true, rec2)
           == (if later.cancelled then Outcome(Cancelled, None) else Outcome(Finished, Some(h1.results[id])))
  {
    var rec1, h1 := Track(h, mid, id, h.reg.jobs[id]), Run(h, mid);
    assert Agrees(h.reg.jobs[id], h.results, id);
    RunTracks(h, mid, id, h.reg.jobs[id]);
    RunTracks(h1, more, id, rec1);
    if rec1.done { NeverRunsAgain(h1, more, id); }
  }

  // ---------------------------------------------------------------- the registry in place

  lemma Without<T>(m: map<string, T>, id: string)
    requires id in m
    ensures |m - {id}| == |m| - 1
  {
    assert m.Keys == (m - {id}).Keys + {id};
  }

  /** One call's record. The registry, the drainer and every poll share it. */
  class Job<R> {
    var id: string
    var cancelled: bool
    var done: bool
    var result: Option<R>
    var createdAt: int
    var finishedAt: Option<int>

    constructor (id: string)
      ensures this.id == id && !cancelled && !done && result.None? && finishedAt.None?
    {
      this.id, cancelled, done, result, finishedAt := id, false, false, None, None;
    }

    ghost function View(): JobState<R>
      reads this
    {
      JobState(cancelled, done, result, createdAt, finishedAt)
    }

    method Open(id: string, now: int)
      modifies this
      ensures this.id == id && View() == Opened(old(View()), now)
    {
      this.id := id;
      done := false;
      createdAt := now;
    }
  }

  /** The job store of one process; every method body is one section under its lock. */
  class Registry<R> {
    var jobs: map<string, Job<R>>
    var counters: map<string, nat>
    const ttl: int
    const grace: int
    const max: int

    /** A record is held under its own id, and never under the empty one. */
    ghost predicate Valid()
      reads this, jobs.Values
    {
      "" !in jobs && forall id :: id in jobs ==> jobs[id].id == id
    }

    ghost function Model(): (s: State<R>)
      reads this, jobs.Values
      ensures |s.jobs| == |jobs|
    {
      assert (map id | id in jobs :: jobs[id].View()).Keys == jobs.Keys;
      State(map id | id in jobs :: jobs[id].View(), counters, ttl, grace, max)
    }

    constructor (ttl: int, grace: int, max: int)
      ensures Valid() && Model() == New(ttl, grace, max) && jobs == map[]
      ensures this.ttl == (if ttl >= 1 then ttl else 3600) && this.grace == (if grace >= 1 then grace else 3600)
      ensures this.max == if max >= 1 then max else 256
    {
      this.ttl := if ttl <= 0 then HOUR else ttl;
      this.grace := if grace <= 0 then HOUR else grace;
      this.max := if max <= 0 then DEFAULT_MAX else max;
      jobs, counters := map[], map[];
    }

    /** The body of evictLocked's loop. */
    method DropIfExpired(id: string, now: int) returns (dropped: bool)
      requires id in jobs
      modifies this`jobs
      ensures dropped == Expired(old(jobs[id].View()), ttl, grace, now)
      ensures jobs == if dropped then old(jobs) - {id} else old(jobs)
      ensures |jobs| == |old(jobs)| - (if dropped then 1 else 0)
    {
      var job := jobs[id];
      if job.done {
        dropped := job.finishedAt.Some? && now - job.finishedAt.value > grace;
      } else {
        dropped := now - job.createdAt > ttl;
      }
      if dropped {
        Without(jobs, id);
        jobs := jobs - {id};
      }
    }

    method EvictLocked(now: int) returns (evicted: nat)
      requires Valid()
      modifies this`jobs
      ensures Valid() && Model() == Evict(old(Model()), now)
      ensures evicted + |jobs| == |old(jobs)|
      ensures forall id :: id in jobs ==> id in old(jobs) && jobs[id] == old(jobs)[id]
    {
      evicted := 0;
      ghost var was := Model();
      var left := jobs.Keys;
      while left != {}
        invariant left <= jobs.Keys
        invariant forall id :: id in jobs ==> id in old(jobs) && jobs[id] == old(jobs)[id]
        invariant forall id :: id in was.jobs && id !in left ==>
          (id in jobs <==> !Expired(was.jobs[id], ttl, grace, now))
        invariant evicted + |jobs| == |old(jobs)|
        decreases |left|
      {
        var id :| id in left;
        left := left - {id};
        var dropped := DropIfExpired(id, now);
        if dropped { evicted := evicted + 1; }
      }
      ModelEvicted(was, now);
    }

    lemma ModelEvicted(was: State<R>, now: int)
      requires was == Model().(jobs := was.jobs)
      requires forall id :: id in was.jobs ==> (id in jobs <==> !Expired(was.jobs[id], ttl, grace, now))
      requires forall id :: id in jobs ==> id in was.jobs && jobs[id].View() == was.jobs[id]
      ensures Model() == Evict(was, now)
    {
      assert Model().jobs == Evict(was, now).jobs;
    }

    /** newPoolID. */
    method NewPoolID(name: string) returns (id: string)
      modifies this`counters
      ensures Model() == old(Model()).(counters := old(counters)[name := Counter(old(Model()), name) + 1])
      ensures id == PoolID(name, Counter(old(Model()), name) + 1) && id != ""
    {
      var n := if name in counters then counters[name] else 0;
      counters := counters[name := n + 1];
      id := name + "_" + Numeral(n + 1);
    }

    method MakeRoomLocked(now: int)
      requires Valid()
      modifies this`jobs
      ensures Valid() && Model() == MakeRoom(old(Model()), now)
      ensures forall id :: id in jobs ==> id in old(jobs) && jobs[id] == old(jobs)[id]
    {
      if |jobs| >= max {
        var _ := EvictLocked(now);
      }
    }

    lemma ModelStored(was: State<R>, before: map<string, Job<R>>, job: Job<R>, id: string)
      requires jobs == before[id := job] && was == Model().(jobs := was.jobs)
      requires was.jobs.Keys == before.Keys
      requires forall k :: k in before && k != id ==> before[k].View() == was.jobs[k]
      ensures Model() == was.(jobs := was.jobs[id := job.View()])
    {
      assert Model().jobs == was.jobs[id := job.View()];
    }

    /** Storing a record under its id, once there is room and the id is free or minted. */
    method StoreLocked(job: Job<R>, id: string, now: int)
      requires Valid() && id != "" && job.id in {"", id} && (job.id == "" || id !in jobs)
      modifies this`jobs, job
      ensures Valid() && Model() == old(Model()).(jobs := old(Model()).jobs[id := Opened(old(job.View()), now)])
      ensures id in jobs && jobs[id] == job
    {
      ghost var was := Model();
      assert forall k :: k in jobs ==> jobs[k] != job;
      job.Open(id, now);
      jobs := jobs[id := job];
      ModelStored(was, old(jobs), job, id);
    }

    method PlaceLocked(name: string, job: Job<R>, now: int) returns (id: Option<string>)
      requires Valid()
      modifies this`jobs, this`counters, job
      ensures Valid()
      ensures (Model(), id) == Place(old(Model()), name, old(job.id), old(job.View()), now)
      ensures id.Some? ==> id.value in jobs && jobs[id.value] == job
      ensures id.None? ==> job.View() == old(job.View()) && job.id == old(job.id)
    {
      var key := job.id;
      if key == "" {
        key := NewPoolID(name);
      } else if key in jobs {
        return None;
      }
      StoreLocked(job, key, now);
      return Some(key);
    }

    method Register(name: string, job: Job<R>, now: int) returns (id: Option<string>)
      requires Valid()
      modifies this`jobs, this`counters, job
      ensures Valid()
      ensures (Model(), id) == RegisterJob(old(Model()), name, old(job.id), old(job.View()), now)
      ensures id.Some? ==> id.value in jobs && jobs[id.value] == job
      ensures id.None? ==> job.View() == old(job.View()) && job.id == old(job.id)
    {
      MakeRoomLocked(now);
      if |jobs| >= max {
        return None;
      }
      id := PlaceLocked(name, job, now);
    }

    method Complete(id: string, res: R, now: int) returns (ok: bool)
      requires Valid()
      modifies jobs.Values
      ensures Valid() && Model() == AfterComplete(old(Model()), id, res, now)
      ensures ok == CanComplete(old(Model()), id)
    {
      if id !in jobs { return false; }
      var job := jobs[id];
      if job.done { return false; }
      job.result := Some(res);
      job.finishedAt := Some(now);
      job.done := true;
      return true;
    }

    method Cancel(id: string) returns (ok: bool)
      requires Valid()
      modifies jobs.Values
      ensures Valid() && Model() == AfterCancel(old(Model()), id)
      ensures ok == (id in old(jobs))
      ensures forall k :: k in jobs ==> jobs[k].cancelled == (old(jobs[k].cancelled) || k == id)
    {
      if id !in jobs { return false; }
      jobs[id].cancelled := true;
      return true;
    }

    method StateOf(id: string) returns (status: Status)
      ensures status == StatusOf(Model(), id)
    {
      if id !in jobs { return Unknown; }
      var job := jobs[id];
      if job.cancelled { return Cancelled; }
      return if job.done then Finished else Running;
    }
  }
}
