/**
 What callers are told about a job, and for how long (internal/pooling/registry.go:129-240): cancelling shows at once
 and for good, a finished job can be fetched until its grace is over.
 */
module PoolReports {
  import opened Options
  import opened Decimal
  import opened PoolRegistry
  import opened PoolChosenIds

  /** Cancelled comes before finished: an id is unknown when no job is held under it, cancelled when its job was, finished
      when its job is done and was not cancelled, and running otherwise. */
  lemma StatusIff<R>(s: State<R>, id: string)
    ensures StatusOf(s, id) == Unknown <==> id !in s.jobs
    ensures StatusOf(s, id) == Cancelled <==> id in s.jobs && s.jobs[id].cancelled
    ensures StatusOf(s, id) == Finished <==> id in s.jobs && s.jobs[id].done && !s.jobs[id].cancelled
    ensures StatusOf(s, id) == Running <==> id in s.jobs && !s.jobs[id].done && !s.jobs[id].cancelled
  {
  }

  // ---------------------------------------------------------------- cancelling

  /** Cancelling an id shows at once, leaves its result as it is, and shows on no other id. */
  lemma CancelShows<R>(h: History<R>, id: string, other: string)
    ensures var r := Do(h, CancelStep(id));
      && StatusOf(r.reg, id) == (if id in h.reg.jobs then Cancelled else Unknown)
      && (id in h.reg.jobs ==> r.reg.jobs[id] == h.reg.jobs[id].(cancelled := true))
      && (other != id ==> StatusOf(r.reg, other) == StatusOf(h.reg, other))
      && (other != id && other in h.reg.jobs ==> r.reg.jobs[other] == h.reg.jobs[other])
  {
  }

  ghost predicate StillCancelled<R>(s: State<R>, id: string) {
    id in s.jobs ==> s.jobs[id].cancelled
  }

  lemma RegisterStillCancelled<R>(h: History<R>, name: string, job: JobState<R>, now: int, id: string)
    requires Ok(h) && id in h.issued && StillCancelled(h.reg, id)
    ensures StillCancelled(Register(h.reg, name, job, now).0, id)
  {
    NextIdUnissued(h, name);
    var reg := Register(h.reg, name, job, now).0;
    if id in reg.jobs {
      RegisterTouchesOne(h.reg, name, job, now, id);
      assert reg.jobs[id] == h.reg.jobs[id];
    }
  }

  lemma StepStillCancelled<R>(h: History<R>, step: Step<R>, id: string)
    requires Ok(h) && id in h.issued && StillCancelled(h.reg, id)
    ensures id in Do(h, step).issued && StillCancelled(Do(h, step).reg, id)
  {
    match step
    case RegisterStep(name, job, now) => RegisterStillCancelled(h, name, job, now, id);
    case _ =>
  }

  lemma {:induction false} RunStillCancelled<R>(h: History<R>, more: seq<Step<R>>, id: string)
    requires Ok(h) && id in h.issued && StillCancelled(h.reg, id)
    ensures StillCancelled(Run(h, more).reg, id)
    decreases |more|
  {
    if more != [] {
      StepStillCancelled(h, more[0], id);
      StepOk(h, more[0]);
      RunStillCancelled(Do(h, more[0]), more[1..], id);
    }
  }

  /** Once a held job was cancelled, its id is reported cancelled while the job is held and unknown from then on, over any
      continuation. */
  lemma CancelledForGood<R>(h: History<R>, id: string, more: seq<Step<R>>)
    requires Ok(h) && id in h.reg.jobs
    ensures var r := Run(Do(h, CancelStep(id)), more);
      StatusOf(r.reg, id) == if id in r.reg.jobs then Cancelled else Unknown
  {
    StepOk(h, CancelStep(id));
    CancelShows(h, id, id);
    RunStillCancelled(Do(h, CancelStep(id)), more, id);
  }

  /** With ids chosen by callers, too, as long as no job is placed under the id anew. */
  lemma {:induction false} RunAnyStillCancelled<R>(h: History<R>, more: seq<AnyStep<R>>, id: string)
    requires Base(h) && id in h.issued && StillCancelled(h.reg, id) && NeverReissued(h, more, id)
    ensures StillCancelled(RunAny(h, more).reg, id)
    decreases |more|
  {
    if more != [] {
      var h1 := DoAny(h, more[0]);
      StepOnward(h, more[0], id);
      StepBase(h, more[0]);
      if id in h1.reg.jobs && (more[0].Chosen? || more[0].step.RegisterStep?) { OtherJobsStay(h, more[0], id); }
      RunAnyStillCancelled(h1, more[1..], id);
    }
  }

  lemma CancelledUntilReissued<R>(h: History<R>, id: string, more: seq<AnyStep<R>>)
    requires Base(h) && id in h.reg.jobs && NeverReissued(DoAny(h, Own(CancelStep(id))), more, id)
    ensures var r := RunAny(DoAny(h, Own(CancelStep(id))), more);
      StatusOf(r.reg, id) == if id in r.reg.jobs then Cancelled else Unknown
  {
    StepBase(h, Own(CancelStep(id)));
    CancelShows(h, id, id);
    RunAnyStillCancelled(DoAny(h, Own(CancelStep(id))), more, id);
  }

  // ---------------------------------------------------------------- polling

  /** A poll that found no job reports an unknown id; one whose job was not cancelled when it arrived reports the result
      if the closed channel ended its wait, and otherwise whether the job was cancelled meanwhile. */
  lemma PollReports<R>(arrival: JobState<R>, closed: bool, end: JobState<R>)
    ensures LongPoll(None, closed, end) == Outcome(Unknown, None)
    ensures LongPoll(Some(arrival), closed, end) ==
      match (arrival.cancelled, closed, end.cancelled)
      case (true, _, _) => Outcome(Cancelled, None)
      case (false, true, _) => Outcome(Finished, end.result)
      case (false, false, true) => Outcome(Cancelled, None)
      case (false, false, false) => Outcome(Running, None)
  {
  }

  /** The record found by a poll that arrives now. */
  function Found<R>(h: History<R>, id: string): Option<JobState<R>> {
    if id in h.reg.jobs then Some(h.reg.jobs[id]) else None
  }

  lemma {:induction false} TrackStillCancelled<R>(h: History<R>, more: seq<Step<R>>, id: string, rec: JobState<R>)
    requires Ok(h) && id in h.issued && StillCancelled(h.reg, id) && rec.cancelled
    ensures Track(h, more, id, rec).cancelled
    decreases |more|
  {
    if more != [] {
      StepStillCancelled(h, more[0], id);
      StepOk(h, more[0]);
      var h1 := Do(h, more[0]);
      TrackStillCancelled(h1, more[1..], id, if id in h1.reg.jobs then h1.reg.jobs[id] else rec);
    }
  }

  /** After a held job was cancelled, a poll that arrives reports it cancelled whatever ends its wait, or unknown once it
      was evicted; and a poll that arrived before and times out then reports it cancelled, evicted or not. */
  lemma PollsAfterCancel<R>(h: History<R>, id: string, more: seq<Step<R>>, arrival: JobState<R>, closed: bool,
      end: JobState<R>)
    requires Ok(h) && id in h.reg.jobs
    ensures var h1 := Do(h, CancelStep(id));
      && var r := Run(h1, more);
      && id in h1.reg.jobs
      && LongPoll(Found(r, id), closed, end) == Outcome(if id in r.reg.jobs then Cancelled else Unknown, None)
      && LongPoll(Some(arrival), false, Track(h1, more, id, h1.reg.jobs[id])) == Outcome(Cancelled, None)
  {
    var h1 := Do(h, CancelStep(id));
    StepOk(h, CancelStep(id));
    CancelShows(h, id, id);
    RunStillCancelled(h1, more, id);
    TrackStillCancelled(h1, more, id, h1.reg.jobs[id]);
  }

  // ---------------------------------------------------------------- how long a job is held

  /** A completed job shows its result, finished unless it was cancelled; the other jobs stay as they are. */
  lemma CompleteShows<R>(h: History<R>, id: string, res: R, now: int, other: string)
    requires id in h.reg.jobs && !h.reg.jobs[id].done
    ensures var r := Do(h, CompleteStep(id, res, now));
      && id in r.reg.jobs && r.reg.jobs[id].result == Some(res) && r.reg.jobs[id].finishedAt == Some(now)
      && r.reg.jobs[id].cancelled == h.reg.jobs[id].cancelled
      && StatusOf(r.reg, id) == (if h.reg.jobs[id].cancelled then Cancelled else Finished)
      && (other != id ==> Found(r, other) == Found(h, other))
  {
  }

  /** A sweep keeps a running job within the time to live from its registration, a completed one within the grace from
      its completion if that was noted, and changes neither. */
  lemma SweepKeepsIff<R>(h: History<R>, id: string, now: int)
    requires id in h.reg.jobs
    ensures var r, job := Do(h, EvictStep(now)).reg, h.reg.jobs[id];
      && (id in r.jobs ==> r.jobs[id] == job)
      && (!job.done ==> (id in r.jobs <==> now <= job.createdAt + h.reg.ttl))
      && (job.done && job.finishedAt.Some? ==> (id in r.jobs <==> now <= job.finishedAt.value + h.reg.grace))
      && (job.done && job.finishedAt.None? ==> id in r.jobs)
  {
  }

  /** A result can be fetched after a sweep exactly within the grace from its completion, however old the job is. */
  lemma ResultKeptForGrace<R>(h: History<R>, id: string, res: R, t: int, now: int)
    requires id in h.reg.jobs && !h.reg.jobs[id].done && !h.reg.jobs[id].cancelled
    ensures var r := Do(Do(h, CompleteStep(id, res, t)), EvictStep(now));
      && (now - t <= h.reg.grace ==> StatusOf(r.reg, id) == Finished && r.reg.jobs[id].result == Some(res))
      && (now - t > h.reg.grace ==> StatusOf(r.reg, id) == Unknown)
  {
    CompleteShows(h, id, res, t, id);
    SweepKeepsIff(Do(h, CompleteStep(id, res, t)), id, now);
  }

  /** A job registered at t that does not complete runs until it is swept, exactly once its time to live is over. */
  lemma RunningKeptForTtl<R>(h: History<R>, name: string, job: JobState<R>, t: int, now: int)
    requires Register(h.reg, name, job, t).1.Some? && !job.cancelled
    ensures var id := PoolID(name, Counter(h.reg, name) + 1);
      && var h1 := Do(h, RegisterStep(name, job, t));
      && StatusOf(h1.reg, id) == Running
      && StatusOf(Do(h1, EvictStep(now)).reg, id) == if now - t <= h.reg.ttl then Running else Unknown
  {
    RegisterMints(h.reg, name, job, t);
    SweepKeepsIff(Do(h, RegisterStep(name, job, t)), PoolID(name, Counter(h.reg, name) + 1), now);
  }

  /** A registration is refused exactly when the registry is full of jobs none of which a sweep would drop. */
  lemma RefusedIffFull<R>(h: History<R>, name: string, job: JobState<R>, now: int)
    requires Ok(h)
    ensures Register(h.reg, name, job, now).1.None? <==>
      |h.reg.jobs| == h.reg.max && forall k :: k in h.reg.jobs ==> k in Do(h, EvictStep(now)).reg.jobs
  {
    EvictShrinks(h.reg, now);
    var swept := Evict(h.reg, now).jobs;
    assert |swept| == |swept.Keys| && |h.reg.jobs| == |h.reg.jobs.Keys|;
    if forall k :: k in h.reg.jobs ==> k in swept {
      assert swept.Keys == h.reg.jobs.Keys;
    } else {
      var k :| k in h.reg.jobs && k !in swept;
      SubsetSmaller(swept.Keys, h.reg.jobs.Keys, k);
    }
  }

  /** Nobody is dropped for a newcomer while the registry is not full, and only jobs a sweep would drop when it is. */
  lemma NewcomerSpares<R>(h: History<R>, name: string, job: JobState<R>, now: int, other: string)
    requires Ok(h) && other in h.reg.jobs
    requires |h.reg.jobs| < h.reg.max || other in Do(h, EvictStep(now)).reg.jobs
    ensures Found(Do(h, RegisterStep(name, job, now)), other) == Found(h, other)
  {
    NextIdUnissued(h, name);
    RoomKeeps(h.reg, now, other);
    if |MakeRoom(h.reg, now).jobs| < h.reg.max { RegisterMints(h.reg, name, job, now); }
  }

  lemma RoomKeeps<R>(s: State<R>, now: int, other: string)
    requires other in s.jobs && (|s.jobs| < s.max || other in Evict(s, now).jobs)
    ensures var r := MakeRoom(s, now); r.max == s.max && other in r.jobs && r.jobs[other] == s.jobs[other]
  {
  }

  lemma SubsetSmaller(a: set<string>, b: set<string>, k: string)
    requires a <= b && k in b && k !in a
    ensures |a| < |b|
  {
    assert b == a + (b - a);
    assert k in b - a;
  }

  /** A registry made without usable settings holds 256 jobs, each for an hour. */
  lemma Defaults<R>(ttl: int, grace: int, max: int)
    ensures var s := New<R>(ttl, grace, max);
      && s.jobs == map[] && s.counters == map[]
      && s.ttl == (if ttl >= 1 then ttl else 3600)
      && s.grace == (if grace >= 1 then grace else 3600)
      && s.max == (if max >= 1 then max else 256)
  {
  }
}
