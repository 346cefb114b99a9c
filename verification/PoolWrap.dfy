/**
 The wrapper that turns a slow tool call into a polled job (internal/pooling/wrap.go), as the steps of three
 goroutines over one registry: the inner call, the caller's handler and the drainer it starts.
 R is an outcome ready for the client: a failed or panicking inner call counts as the outcome its error is wrapped in.
 */
module PoolWrap {
  import opened Options
  import opened PoolRegistry

  /** Where the caller's handler is. */
  datatype Main<R> =
    | Selecting
    | Converting
    | Direct(r: R)
    | Refused
    | Probing(id: string)
    | Watching(id: string, missing: bool)
    | Fetching(id: string)
    | Replied(id: string, result: Option<R>)
    | Interim(id: string)
    | Crashed(id: string)

  /** Where the drainer is: not started, waiting on the channel, holding what it took, or done. */
  datatype Drainer<R> =
    | Idle
    | Waiting(id: string)
    | Holding(id: string, r: R)
    | Stored(id: string, ok: bool)

  /** `chan` is the one-slot channel, `given` what the inner call produced, `minted` the ids this call registered. */
  datatype System<R> = System(
    hist: History<R>, given: Option<R>, chan: Option<R>, main: Main<R>, drainer: Drainer<R>, minted: seq<string>)

  datatype Move<R> =
    | InnerSends(r: R)
    | MainReceives
    | MainGivesUp
    | MainRegisters(name: string, now: int)
    | MainLooksUp
    | MainProbes
    | MainFetches
    | DrainerReceives
    | DrainerStores(now: int)
    | Others(step: Step<R>)

  function Blank<R>(): JobState<R> { JobState(false, false, None, 0, None) }

  predicate Enabled<R>(s: System<R>, move: Move<R>) {
    match move
    case InnerSends(_) => s.given.None?
    case MainReceives => s.main.Selecting? && s.chan.Some?
    case MainGivesUp => s.main.Selecting?
    case MainRegisters(_, _) => s.main.Converting?
    case MainLooksUp => s.main.Probing?
    case MainProbes => s.main.Watching?
    case MainFetches => s.main.Fetching?
    case DrainerReceives => s.drainer.Waiting? && s.chan.Some?
    case DrainerStores(_) => s.drainer.Holding?
    // Only a drainer completes jobs, each its own.
    case Others(step) => step.CompleteStep? ==> step.id !in s.minted
  }

  function Act<R>(s: System<R>, move: Move<R>): System<R>
    requires Enabled(s, move)
  {
    match move
    case InnerSends(r) => s.(given := Some(r), chan := Some(r))
    case MainReceives => s.(main := Direct(s.chan.value), chan := None)
    case MainGivesUp => s.(main := Converting)
    case MainRegisters(name, now) =>
      var id := Register(s.hist.reg, name, Blank(), now).1;
      var hist := Do(s.hist, RegisterStep(name, Blank(), now));
      if id.None? then s.(hist := hist, main := Refused)
      else s.(hist := hist, main := Probing(id.value), drainer := Waiting(id.value), minted := s.minted + [id.value])
    // jobDone: a missing id counts as done, otherwise the job's own channel is watched.
    case MainLooksUp => s.(main := Watching(s.main.id, s.main.id !in s.hist.reg.jobs))
    case MainProbes =>
      s.(main := if s.main.missing || s.main.id in s.hist.results then Fetching(s.main.id) else Interim(s.main.id))
    case MainFetches =>
      var id := s.main.id;
      s.(main := if id in s.hist.reg.jobs then Replied(id, s.hist.reg.jobs[id].result) else Crashed(id))
    case DrainerReceives => s.(drainer := Holding(s.drainer.id, s.chan.value), chan := None)
    case DrainerStores(now) =>
      s.(hist := Do(s.hist, CompleteStep(s.drainer.id, s.drainer.r, now)),
         drainer := Stored(s.drainer.id, CanComplete(s.hist.reg, s.drainer.id)))
    case Others(step) => s.(hist := Do(s.hist, step))
  }

  /** Any interleaving: moves that are not enabled when their turn comes are skipped. */
  function Play<R>(s: System<R>, moves: seq<Move<R>>): System<R>
    decreases |moves|
  {
    if moves == [] then s
    else Play(if Enabled(s, moves[0]) then Act(s, moves[0]) else s, moves[1..])
  }

  /** A call begins on a registry in any state its own history allows. */
  function Begin<R>(hist: History<R>): System<R> {
    System(hist, None, None, Selecting, Idle, [])
  }

  /** A call that exceeds its window and is not refused runs under the next id of its tool, as one job more, and stores
      its outcome there. */
  lemma RegisteredRuns<R>(s: System<R>, name: string, now: int)
    requires Enabled(s, MainRegisters(name, now)) && Ok(s.hist)
    ensures var r, id := Act(s, MainRegisters(name, now)), PoolID(name, Counter(s.hist.reg, name) + 1);
      r.main != Refused ==>
        && r.main == Probing(id) && r.drainer == Waiting(id) && r.minted == s.minted + [id]
        && id !in s.hist.issued && StatusOf(r.hist.reg, id) == Running
  {
    RegisterOk(s.hist, name, Blank(), now);
    if |MakeRoom(s.hist.reg, now).jobs| < s.hist.reg.max { RegisterMints(s.hist.reg, name, Blank<R>(), now); }
  }

  // ---------------------------------------------------------------- one outcome, one place

  /** How many places hold the outcome the inner call produced. */
  function Copies<R>(s: System<R>): nat {
    (if s.chan.Some? then 1 else 0) + (if s.main.Direct? then 1 else 0)
    + (if s.drainer.Holding? || s.drainer.Stored? then 1 else 0)
  }

  /** The outcome is in exactly one place, and every place that shows it shows it unchanged. */
  ghost predicate OnePlace<R>(s: System<R>) {
    && Copies(s) == (if s.given.Some? then 1 else 0)
    && (s.chan.Some? ==> s.chan == s.given)
    && (s.main.Direct? ==> Some(s.main.r) == s.given)
    && (s.drainer.Holding? ==> Some(s.drainer.r) == s.given)
  }

  ghost predicate HasId<R>(m: Main<R>) {
    m.Probing? || m.Watching? || m.Fetching? || m.Replied? || m.Interim? || m.Crashed?
  }

  /** At most one id is ever minted, and the handler, the drainer and the registry use that one. */
  ghost predicate OneId<R>(s: System<R>) {
    if s.drainer.Idle? then s.minted == [] && !HasId(s.main)
    else s.minted == [s.drainer.id] && HasId(s.main) && s.main.id == s.drainer.id && s.drainer.id in s.hist.issued
  }

  /** A result under this call's id is there exactly when the drainer stored it, and it is the inner outcome. */
  ghost predicate StoredIsGiven<R>(s: System<R>) {
    !s.drainer.Idle? ==>
      && (s.drainer.id in s.hist.results <==> s.drainer == Stored(s.drainer.id, true))
      && (s.drainer.id in s.hist.results ==> Some(s.hist.results[s.drainer.id]) == s.given)
      && (s.drainer == Stored(s.drainer.id, false) ==> s.drainer.id !in s.hist.reg.jobs)
  }

  /** The handler treats the job as finished only when it is, or when it has been evicted. */
  ghost predicate SeesTruly<R>(s: System<R>) {
    && (s.main.Watching? && s.main.missing ==> s.main.id !in s.hist.reg.jobs)
    && (s.main.Fetching? ==> s.main.id in s.hist.results || s.main.id !in s.hist.reg.jobs)
    && (s.main.Replied? ==> s.main.result.Some? && s.main.result == s.given && s.main.id in s.hist.results)
    && (s.main.Crashed? ==> s.main.id !in s.hist.reg.jobs)
  }

  ghost predicate InStep<R>(s: System<R>) {
    OnePlace(s) && OneId(s) && StoredIsGiven(s) && SeesTruly(s)
  }

  ghost predicate Sound<R>(s: System<R>) {
    Ok(s.hist) && InStep(s)
  }

  /** Registering under an id no job ever had. */
  lemma RegistersInStep<R>(s: System<R>, name: string, now: int)
    requires InStep(s) && s.main.Converting? && s.hist.results.Keys <= s.hist.issued
    requires var id := Register(s.hist.reg, name, Blank(), now).1; id.Some? ==> id.value !in s.hist.issued
    ensures InStep(Act(s, MainRegisters(name, now)))
  {
    var id := Register(s.hist.reg, name, Blank(), now).1;
    var s' := Act(s, MainRegisters(name, now));
    if id.Some? {
      assert s'.drainer == Waiting(id.value) && s'.main == Probing(id.value) && s'.minted == [id.value];
      assert s'.hist.results == s.hist.results;
    }
  }

  lemma StoresInStep<R>(s: System<R>, now: int)
    requires InStep(s) && s.drainer.Holding?
    requires CanComplete(s.hist.reg, s.drainer.id) <==> s.drainer.id in s.hist.reg.jobs
    ensures InStep(Act(s, DrainerStores(now)))
  {
  }

  lemma MoveOnRegistrySound<R>(s: System<R>, move: Move<R>)
    requires Sound(s) && (move.MainRegisters? || move.DrainerStores?) && Enabled(s, move)
    ensures Sound(Act(s, move))
  {
    match move
    case MainRegisters(name, now) =>
      RegisterOk(s.hist, name, Blank(), now);
      RegistersInStep(s, name, now);
    case DrainerStores(now) =>
      var id := s.drainer.id;
      assert id in s.hist.reg.jobs ==> Agrees(s.hist.reg.jobs[id], s.hist.results, id);
      CompleteOk(s.hist, id, s.drainer.r, now);
      StoresInStep(s, now);
  }

  lemma OthersSound<R>(s: System<R>, step: Step<R>)
    requires Sound(s) && Enabled(s, Others(step))
    ensures Sound(Act(s, Others(step)))
  {
    StepOk(s.hist, step);
    if !s.drainer.Idle? {
      StepForward(s.hist, step, s.drainer.id);
    }
  }

  lemma MoveSound<R>(s: System<R>, move: Move<R>)
    requires Sound(s) && Enabled(s, move)
    ensures Sound(Act(s, move))
  {
    match move
    case MainRegisters(_, _) => MoveOnRegistrySound(s, move);
    case DrainerStores(_) => MoveOnRegistrySound(s, move);
    case Others(step) => OthersSound(s, step);
    case MainFetches => assert s.main.id in s.hist.reg.jobs
        ==> Agrees(s.hist.reg.jobs[s.main.id], s.hist.results, s.main.id);
    case _ =>
  }

  lemma {:induction false} PlaySound<R>(s: System<R>, moves: seq<Move<R>>)
    requires Sound(s)
    ensures Sound(Play(s, moves))
    decreases |moves|
  {
    if moves != [] {
      if Enabled(s, moves[0]) {
        MoveSound(s, moves[0]);
        PlaySound(Act(s, moves[0]), moves[1..]);
      } else {
        PlaySound(s, moves[1..]);
      }
    }
  }

  // ---------------------------------------------------------------- what a call promises

  /** In every interleaving with any other use of the registry: at most one id, a direct answer is the inner outcome,
      and a job of this call that is done holds the inner outcome. */
  lemma DeliversOnceUnchanged<R>(hist: History<R>, moves: seq<Move<R>>)
    requires Ok(hist)
    ensures var s := Play(Begin(hist), moves);
      && |s.minted| <= 1
      && (s.main.Direct? ==> s.given == Some(s.main.r) && s.minted == [] && s.chan.None?)
      && (s.main.Replied? ==> s.given == s.main.result && s.given.Some?)
      && (forall id :: id in s.minted && id in s.hist.reg.jobs && s.hist.reg.jobs[id].done ==>
            s.given.Some? && s.hist.reg.jobs[id].result == s.given)
  {
    PlaySound(Begin(hist), moves);
    var s := Play(Begin(hist), moves);
    forall id | id in s.minted && id in s.hist.reg.jobs && s.hist.reg.jobs[id].done
      ensures s.given.Some? && s.hist.reg.jobs[id].result == s.given
    {
      assert id == s.drainer.id && Agrees(s.hist.reg.jobs[id], s.hist.results, id);
    }
  }

  /** Nothing is left to do: the inner call has finished and no goroutine of this call can move. */
  ghost predicate Settled<R>(s: System<R>) {
    && s.given.Some?
    && !s.main.Selecting? && !s.main.Converting? && !s.main.Probing? && !s.main.Watching? && !s.main.Fetching?
    && !s.drainer.Holding? && !(s.drainer.Waiting? && s.chan.Some?)
  }

  /** The outcome was kept somewhere: returned, or stored under the one id. */
  ghost predicate Kept<R>(s: System<R>) {
    s.main.Direct? || (s.drainer.Stored? && s.drainer.ok)
  }

  /** The two branches that drop an outcome: the registry is full and nothing can be evicted when the call is
      converted, or the job is gone from it when the drainer comes to store. */
  predicate Loses<R>(s: System<R>, move: Move<R>) {
    && Enabled(s, move)
    && (|| (move.MainRegisters? && |MakeRoom(s.hist.reg, move.now).jobs| >= s.hist.reg.max)
        || (move.DrainerStores? && s.drainer.id !in s.hist.reg.jobs))
  }

  /** The branch that reads a missing job. */
  predicate Misses<R>(s: System<R>, move: Move<R>) {
    Enabled(s, move) && move.MainFetches? && s.main.id !in s.hist.reg.jobs
  }

  predicate LosesDuring<R>(s: System<R>, moves: seq<Move<R>>)
    decreases |moves|
  {
    moves != [] &&
      (Loses(s, moves[0]) || LosesDuring(if Enabled(s, moves[0]) then Act(s, moves[0]) else s, moves[1..]))
  }

  predicate MissesDuring<R>(s: System<R>, moves: seq<Move<R>>)
    decreases |moves|
  {
    moves != [] &&
      (Misses(s, moves[0]) || MissesDuring(if Enabled(s, moves[0]) then Act(s, moves[0]) else s, moves[1..]))
  }

  ghost predicate Lost<R>(s: System<R>) {
    s.main.Refused? || (s.drainer.Stored? && !s.drainer.ok)
  }

  lemma RefusedIffFull<R>(s: State<R>, name: string, job: JobState<R>, now: int)
    ensures Register(s, name, job, now).1.None? <==> |MakeRoom(s, now).jobs| >= s.max
  {
  }

  lemma MoveLoses<R>(s: System<R>, move: Move<R>)
    requires Sound(s) && Enabled(s, move)
    ensures Lost(Act(s, move)) <==> Lost(s) || Loses(s, move)
    ensures Act(s, move).main.Crashed? <==> s.main.Crashed? || Misses(s, move)
  {
    match move
    case MainRegisters(name, now) => RefusedIffFull(s.hist.reg, name, Blank(), now);
    case DrainerStores(_) =>
      assert s.drainer.id in s.hist.reg.jobs ==> Agrees(s.hist.reg.jobs[s.drainer.id], s.hist.results, s.drainer.id);
    case _ =>
  }

  lemma {:induction false} PlayLoses<R>(s: System<R>, moves: seq<Move<R>>)
    requires Sound(s)
    ensures Lost(Play(s, moves)) <==> Lost(s) || LosesDuring(s, moves)
    ensures Play(s, moves).main.Crashed? <==> s.main.Crashed? || MissesDuring(s, moves)
    decreases |moves|
  {
    if moves != [] {
      if Enabled(s, moves[0]) {
        MoveSound(s, moves[0]);
        MoveLoses(s, moves[0]);
        PlayLoses(Act(s, moves[0]), moves[1..]);
      } else {
        PlayLoses(s, moves[1..]);
      }
    }
  }

  /** Once settled, a call has kept its outcome exactly when, during its run, it did not meet a full registry and did
      not find its job gone when it came to store the outcome. */
  lemma KeptIffNeverLost<R>(hist: History<R>, moves: seq<Move<R>>)
    requires Ok(hist) && Settled(Play(Begin(hist), moves))
    ensures Kept(Play(Begin(hist), moves)) <==> !LosesDuring(Begin(hist), moves)
  {
    PlaySound(Begin(hist), moves);
    PlayLoses(Begin(hist), moves);
  }

  /** The client has the outcome, or the id it is stored under. */
  ghost predicate Received<R>(s: System<R>) {
    s.main.Direct? || s.main.Replied? || (s.main.Interim? && s.drainer.Stored? && s.drainer.ok)
  }

  /** Once settled, the client has the outcome or the way to it exactly when the call neither lost the outcome nor read
      a missing job. */
  lemma ReceivedIff<R>(hist: History<R>, moves: seq<Move<R>>)
    requires Ok(hist) && Settled(Play(Begin(hist), moves))
    ensures Received(Play(Begin(hist), moves))
            <==> !LosesDuring(Begin(hist), moves) && !MissesDuring(Begin(hist), moves)
  {
    PlaySound(Begin(hist), moves);
    PlayLoses(Begin(hist), moves);
  }

  /** The handler ends up reading a missing job exactly when, during the run, the job was gone by the time it fetched
      what it had taken for finished. */
  lemma CrashesIffMisses<R>(hist: History<R>, moves: seq<Move<R>>)
    requires Ok(hist)
    ensures Play(Begin(hist), moves).main.Crashed? <==> MissesDuring(Begin(hist), moves)
  {
    PlayLoses(Begin(hist), moves);
  }

  lemma PlayOne<R>(s: System<R>, moves: seq<Move<R>>)
    requires moves != [] && Enabled(s, moves[0])
    ensures Play(s, moves) == Play(Act(s, moves[0]), moves[1..])
  {
  }

  lemma PlayThree<R>(s: System<R>, a: Move<R>, b: Move<R>, c: Move<R>)
    requires Enabled(s, a) && Enabled(Act(s, a), b) && Enabled(Act(Act(s, a), b), c)
    ensures Play(s, [a, b, c]) == Act(Act(Act(s, a), b), c)
  {
    PlayOne(s, [a, b, c]);
    assert [a, b, c][1..] == [b, c];
    PlayOne(Act(s, a), [b, c]);
    assert [b, c][1..] == [c];
    PlayOne(Act(Act(s, a), b), [c]);
    assert [c][1..] == [];
  }

  /** A call that gives up when no slot can be reclaimed loses the outcome, whatever it is. */
  lemma FullRegistryLosesTheOutcome<R>(hist: History<R>, r: R, name: string, now: int)
    requires |MakeRoom(hist.reg, now).jobs| >= hist.reg.max
    ensures var s := Play(Begin(hist), [MainGivesUp, MainRegisters(name, now), InnerSends(r)]);
      Settled(s) && s.main.Refused? && s.given == Some(r) && !Kept(s) && !Received(s)
  {
    PlayThree(Begin(hist), MainGivesUp, MainRegisters(name, now), InnerSends(r));
  }

  /** With the registry swept between registration and look-up, the handler that then runs undisturbed reads a
      missing job exactly when its own had expired. */
  lemma EvictionCrashesTheHandlerIff<R>(s: System<R>, sweptAt: int)
    requires s.main.Probing? && s.main.id in s.hist.reg.jobs
    ensures Play(Act(s, Others(EvictStep(sweptAt))), [MainLooksUp, MainProbes, MainFetches]).main.Crashed?
            <==> Expired(s.hist.reg.jobs[s.main.id], s.hist.reg.ttl, s.hist.reg.grace, sweptAt)
  {
    var swept := Act(s, Others(EvictStep(sweptAt)));
    var probed := Act(Act(swept, MainLooksUp), MainProbes);
    if Enabled(probed, MainFetches) {
      PlayThree(swept, MainLooksUp, MainProbes, MainFetches);
    } else {
      var moves: seq<Move<R>> := [MainLooksUp, MainProbes, MainFetches];
      PlayOne(swept, moves);
      assert moves[1..] == [MainProbes, MainFetches];
      PlayOne(Act(swept, MainLooksUp), moves[1..]);
      assert moves[1..][1..] == [MainFetches];
      assert Play(probed, [MainFetches]) == Play(probed, []);
    }
  }

  /** How far the call's own goroutines still have to go. */
  function Rank<R>(s: System<R>): nat {
    (if s.given.None? then 1 else 0)
    + (match s.main
       case Selecting => 9
       case Converting => 8
       case Probing(_) => 3
       case Watching(_, _) => 2
       case Fetching(_) => 1
       case _ => 0)
    + (match s.drainer
       case Waiting(_) => 2
       case Holding(_, _) => 1
       case _ => 0)
  }

  /** Every move of the call itself brings it closer to the end, and other users of the registry never push it back. */
  lemma MovesAdvance<R>(s: System<R>, move: Move<R>)
    requires Enabled(s, move) && Sound(s)
    ensures move.Others? ==> Rank(Act(s, move)) == Rank(s)
    ensures !move.Others? ==> Rank(Act(s, move)) < Rank(s)
  {
  }

  /** Once the inner call has finished, a call that is not settled can always move. */
  lemma NeverStuck<R>(s: System<R>, r: R, now: int)
    requires Sound(s) && !Settled(s)
    ensures exists move: Move<R> :: !move.Others? && Enabled(s, move)
  {
    var next: Move<R> :=
      if s.given.None? then InnerSends(r)
      else if s.drainer.Holding? then DrainerStores(now)
      else if s.drainer.Waiting? && s.chan.Some? then DrainerReceives
      else match s.main
        case Selecting => MainGivesUp
        case Converting => MainRegisters("", now)
        case Probing(_) => MainLooksUp
        case Watching(_, _) => MainProbes
        case _ => MainFetches;
    assert !next.Others? && Enabled(s, next);
  }
}
