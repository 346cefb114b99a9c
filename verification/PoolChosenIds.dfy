/**
 Runs of the job registry in which callers may also choose ids (internal/pooling/registry.go:97-104). A chosen id is
 refused while a job has it, a minted one is not compared with anything.
 */
module PoolChosenIds {
  import opened Decimal
  import opened FiniteSets
  import opened Options
  import opened PoolRegistry

  datatype AnyStep<R> =
    | Own(step: Step<R>)                              // the steps of runs with minted ids
    | Chosen(id: string, job: JobState<R>, now: int)  // a registration under a caller's own id

  /** The id a registration puts its job under, None when it is refused or the step is no registration. */
  function Placed<R>(h: History<R>, any: AnyStep<R>): Option<string> {
    match any
    case Chosen(id, job, now) => if id == "" then None else RegisterJob(h.reg, "", id, job, now).1
    case Own(step) => if step.RegisterStep? then Register(h.reg, step.name, step.job, step.now).1 else None
  }

  /** `results` is now about the job last placed under each id. */
  function DoAny<R>(h: History<R>, any: AnyStep<R>): History<R> {
    var id := Placed(h, any);
    var h1 := match any
      case Own(step) => Do(h, step)
      case Chosen(cid, job, now) =>
        if cid == "" then h
        else h.(reg := RegisterJob(h.reg, "", cid, job, now).0,
                issued := if id.Some? then h.issued + {id.value} else h.issued);
    if id.Some? then h1.(results := h1.results - {id.value}) else h1
  }

  function RunAny<R>(h: History<R>, steps: seq<AnyStep<R>>): History<R>
    decreases |steps|
  {
    if steps == [] then h else RunAny(DoAny(h, steps[0]), steps[1..])
  }

  /** The step registers a job under `id`: there is room, and the id is what the name's counter mints next, or the
      caller's own and not taken. */
  predicate Reissues<R>(h: History<R>, any: AnyStep<R>, id: string) {
    match any
    case Chosen(cid, _, now) =>
      cid == id != "" && |MakeRoom(h.reg, now).jobs| < h.reg.max && id !in MakeRoom(h.reg, now).jobs
    case Own(step) =>
      && step.RegisterStep?
      && |MakeRoom(h.reg, step.now).jobs| < h.reg.max
      && PoolID(step.name, Counter(h.reg, step.name) + 1) == id
  }

  function JobOf<R>(any: AnyStep<R>): JobState<R>
    requires any.Chosen? || any.step.RegisterStep?
  {
    if any.Chosen? then any.job else any.step.job
  }

  lemma ReissuesIsPlaced<R>(h: History<R>, any: AnyStep<R>, id: string)
    ensures Reissues(h, any, id) <==> Placed(h, any) == Some(id)
  {
  }

  /** What every run keeps, whoever chose the ids. */
  ghost predicate Base<R>(h: History<R>) {
    && WithinCap(h.reg)
    && h.reg.jobs.Keys <= h.issued && h.results.Keys <= h.issued
    && JobsAgree(h.reg.jobs, h.results)
  }

  lemma PlacedAgrees<R>(before: map<string, JobState<R>>, jobs: map<string, JobState<R>>, results: map<string, R>,
      id: string, job: JobState<R>, now: int)
    requires JobsAgree(before, results) && SubmapOf(jobs, before)
    ensures JobsAgree(jobs[id := Opened(job, now)], results - {id})
  {
    forall k | k in jobs && k != id ensures Agrees(jobs[k], results - {id}, k) { assert Agrees(before[k], results, k); }
  }

  lemma PlacedBase<R>(h: History<R>, jobs: map<string, JobState<R>>, h': History<R>, id: string, job: JobState<R>, now: int)
    requires Base(h) && SubmapOf(jobs, h.reg.jobs) && |jobs| < h.reg.max && h'.reg.max == h.reg.max
    requires h'.reg.jobs == jobs[id := Opened(job, now)] && h'.results == h.results - {id} && h'.issued == h.issued + {id}
    ensures Base(h')
  {
    PlacedAgrees(h.reg.jobs, jobs, h.results, id, job, now);
    OneMoreAtMost(jobs, id, Opened(job, now));
  }

  lemma OneMoreAtMost<T>(m: map<string, T>, id: string, v: T)
    ensures |m[id := v]| <= |m| + 1
  {
    assert m[id := v].Keys == m.Keys + {id};
  }

  lemma DroppedBase<R>(h: History<R>, h': History<R>)
    requires Base(h) && SubmapOf(h'.reg.jobs, h.reg.jobs) && h'.reg.max == h.reg.max
    requires h'.results == h.results && h'.issued == h.issued
    ensures Base(h')
  {
    SubsetSize(h'.reg.jobs.Keys, h.reg.jobs.Keys);
  }

  lemma RegistersBase<R>(h: History<R>, any: AnyStep<R>)
    requires Base(h) && (any.Chosen? || any.step.RegisterStep?)
    ensures Base(DoAny(h, any))
  {
    var now := if any.Chosen? then any.now else any.step.now;
    var room := MakeRoom(h.reg, now);
    EvictShrinks(h.reg, now);
    var h' := DoAny(h, any);
    match Placed(h, any)
    case Some(id) => PlacedBase(h, room.jobs, h', id, JobOf(any), now);
    case None => DroppedBase(h, h');
  }

  lemma StepBase<R>(h: History<R>, any: AnyStep<R>)
    requires Base(h)
    ensures Base(DoAny(h, any))
  {
    match any
    case Chosen(_, _, _) => RegistersBase(h, any);
    case Own(step) =>
      match step
      case RegisterStep(_, _, _) => RegistersBase(h, any);
      case EvictStep(now) => EvictShrinks(h.reg, now); DroppedBase(h, DoAny(h, any));
      case CompleteStep(id, res, now) =>
        if CanComplete(h.reg, id) {
          CompletedAgrees(h.reg.jobs, h.results, id, res, now);
          SameKeys(h.reg.jobs, DoAny(h, any).reg.jobs);
        }
      case CancelStep(id) =>
        if id in h.reg.jobs {
          CancelledAgrees(h.reg.jobs, h.results, id);
          SameKeys(h.reg.jobs, DoAny(h, any).reg.jobs);
        }
  }

  lemma SameKeys<T>(a: map<string, T>, b: map<string, T>)
    requires a.Keys == b.Keys
    ensures |a| == |b|
  {
    assert |a| == |a.Keys| && |b| == |b.Keys|;
  }

  /** A registration leaves every job but the one it places as it was, or evicted. */
  lemma OtherJobsStay<R>(h: History<R>, any: AnyStep<R>, id: string)
    requires (any.Chosen? || any.step.RegisterStep?) && !Reissues(h, any, id) && id in DoAny(h, any).reg.jobs
    ensures id in h.reg.jobs && DoAny(h, any).reg.jobs[id] == h.reg.jobs[id]
  {
    ReissuesIsPlaced(h, any, id);
    EvictShrinks(h.reg, if any.Chosen? then any.now else any.step.now);
  }

  /** Unless a job is placed under it anew, an id goes only forward. */
  lemma StepOnward<R>(h: History<R>, any: AnyStep<R>, id: string)
    requires Base(h) && id in h.issued && !Reissues(h, any, id)
    ensures Onward(h, DoAny(h, any), id)
  {
    ReissuesIsPlaced(h, any, id);
    if any.Chosen? || any.step.RegisterStep? {
      if id in DoAny(h, any).reg.jobs { OtherJobsStay(h, any, id); }
    } else {
      match any.step
      case CompleteStep(_, _, _) => assert id in h.reg.jobs ==> Agrees(h.reg.jobs[id], h.results, id);
      case EvictStep(now) => EvictShrinks(h.reg, now);
      case CancelStep(_) =>
    }
  }

  /** The job placed under an id runs, unless its record came in cancelled. */
  lemma PlacedRuns<R>(h: History<R>, any: AnyStep<R>, id: string)
    requires Reissues(h, any, id)
    ensures StatusOf(DoAny(h, any).reg, id) == if JobOf(any).cancelled then Cancelled else Running
  {
    ReissuesIsPlaced(h, any, id);
  }

  /** An id that does not run starts to run again exactly when a job is placed under it anew. */
  lemma RunsAgainIff<R>(h: History<R>, any: AnyStep<R>, id: string)
    requires Base(h) && id in h.issued && StatusOf(h.reg, id) != Running
    ensures StatusOf(DoAny(h, any).reg, id) == Running <==> Reissues(h, any, id) && !JobOf(any).cancelled
  {
    if Reissues(h, any, id) { PlacedRuns(h, any, id); } else { StepOnward(h, any, id); }
  }

  predicate NeverReissued<R>(h: History<R>, steps: seq<AnyStep<R>>, id: string)
    decreases |steps|
  {
    steps == [] || (!Reissues(h, steps[0], id) && NeverReissued(DoAny(h, steps[0]), steps[1..], id))
  }

  /** What runs with minted ids keep for every id, runs with chosen ids keep for each id that is not placed anew. */
  lemma {:induction false} NeverRunsAgainUnlessReissued<R>(h: History<R>, more: seq<AnyStep<R>>, id: string)
    requires Base(h) && id in h.issued && NeverReissued(h, more, id)
    ensures var r := RunAny(h, more);
      && Base(r) && Onward(h, r, id)
      && (id in h.results ==>
            && !CanComplete(r.reg, id)
            && (id in r.reg.jobs ==> r.reg.jobs[id].done && r.reg.jobs[id].result == Some(h.results[id])))
    decreases |more|
  {
    if more == [] {
      assert id in h.reg.jobs ==> Agrees(h.reg.jobs[id], h.results, id);
    } else {
      StepOnward(h, more[0], id);
      StepBase(h, more[0]);
      NeverRunsAgainUnlessReissued(DoAny(h, more[0]), more[1..], id);
    }
  }

  /**
   A minted id is not compared with the ids callers chose. A job the registry still holds after making room is
   replaced exactly when its id is the one minted next: then its record and its result are gone, and a poll of the
   id sees the newcomer.
   */
  lemma MintReplacesIff<R>(h: History<R>, name: string, job: JobState<R>, now: int, id: string)
    requires Base(h) && id in MakeRoom(h.reg, now).jobs && MakeRoom(h.reg, now).jobs[id] != Opened(job, now)
    ensures var any := Own(RegisterStep(name, job, now));
      var h' := DoAny(h, any);
      && id in h'.reg.jobs
      && (h'.reg.jobs[id] != h.reg.jobs[id] <==>
            |MakeRoom(h.reg, now).jobs| < h.reg.max && id == PoolID(name, Counter(h.reg, name) + 1))
      && (h'.reg.jobs[id] != h.reg.jobs[id] ==> id !in h'.results)
  {
    EvictShrinks(h.reg, now);
    ReissuesIsPlaced(h, Own(RegisterStep(name, job, now)), id);
  }

  lemma FirstIdOf(name: string)
    ensures PoolID(name, 1) == name + "_1"
  {
    assert Numeral(1) == "1";
  }

  /** The collision is within reach of a fresh registry: a caller takes the id the name's counter mints first. */
  lemma CollisionIsReachable<R>(name: string, job: JobState<R>, other: JobState<R>, now: int)
    requires job != other && job.createdAt == other.createdAt == now && !job.done && !other.done
    ensures var h := RunAny(Start<R>(HOUR, HOUR, 2), [Chosen(name + "_1", job, now), Own(RegisterStep(name, other, now))]);
      h.reg.jobs == map[name + "_1" := other]
  {
    FirstIdOf(name);
    var h0 := Start<R>(HOUR, HOUR, 2);
    var steps := [Chosen(name + "_1", job, now), Own(RegisterStep(name, other, now))];
    var h1 := DoAny(h0, steps[0]);
    assert h1.reg == h0.reg.(jobs := map[name + "_1" := job]);
    var h2 := DoAny(h1, steps[1]);
    assert h2.reg.jobs == map[name + "_1" := other];
    assert steps[1..] == [steps[1]];
    assert RunAny(h1, [steps[1]]) == RunAny(h2, []);
  }
}
