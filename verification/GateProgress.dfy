/**
 Who gets a turn. A waiter that gives up anywhere but at the head of the line leaves a
 ticket nobody holds and nobody waits with: a hole (internal/bridge/gate.go:300-302).
 Admission walks tickets upward and never steps over one. These lemmas say exactly
 when holes arise and exactly whom they cost the turn.
 */
module GateProgress {
  import opened Options
  import opened BridgeGate
  import opened GateProtocol

  /** A drawn ticket, not yet passed, with which nobody waits. */
  ghost predicate Hole(sys: System, h: nat) {
    sys.gate.eligible <= h < sys.gate.next && h !in sys.gate.pending
  }

  ghost predicate HoleFree(sys: System) {
    forall h :: !Hole(sys, h)
  }

  predicate LeavesMidQueue(sys: System, step: Step) {
    step.GiveUp? && step.ticket in sys.gate.pending && step.ticket != sys.gate.eligible
  }

  lemma {:induction false} FillKeepsHoles(sys: System, h: nat)
    ensures Hole(Fill(sys), h) <==> Hole(sys, h)
    decreases sys.gate.limit - |sys.gate.holders|
  {
    if |sys.gate.holders| < sys.gate.limit && sys.gate.eligible in sys.gate.pending {
      FillKeepsHoles(AdmitNext(sys), h);
    }
  }

  /** Holes never close, and only a waiter leaving from behind the head makes one: its own ticket. */
  lemma HolesExactly(sys: System, step: Step, h: nat)
    requires Safe(sys)
    ensures Hole(Do(sys, step), h) <==>
      Hole(sys, h) || (step == GiveUp(h) && LeavesMidQueue(sys, step))
  {
    match step
    case GiveUp(t) =>
      if t < |sys.calls| {
        assert Accounted(sys, t);
        if t in sys.gate.pending {
          FillKeepsHoles(SetPhase(sys, t, GaveUp).(gate := Leave(sys.gate, t)), h);
        }
      }
    case Return(t) =>
      if t < |sys.calls| { FillKeepsHoles(SetPhase(sys, t, Released).(gate := GiveBack(sys.gate, t)), h); }
    case _ =>
  }

  /** No waiter ever left except from the head of the line. */
  predicate HeadOnly(sys: System, steps: seq<Step>)
    decreases |steps|
  {
    steps == [] || (!LeavesMidQueue(sys, steps[0]) && HeadOnly(Do(sys, steps[0]), steps[1..]))
  }

  lemma StepHoleFree(sys: System, step: Step)
    requires Safe(sys)
    ensures HoleFree(Do(sys, step)) <==> HoleFree(sys) && !LeavesMidQueue(sys, step)
  {
    forall h ensures Hole(Do(sys, step), h) <==> Hole(sys, h) || (step == GiveUp(h) && LeavesMidQueue(sys, step)) {
      HolesExactly(sys, step, h);
    }
    if LeavesMidQueue(sys, step) {
      assert Hole(Do(sys, step), step.ticket);
    }
  }

  lemma {:induction false} HolesFromLeavers(sys: System, steps: seq<Step>)
    requires Safe(sys)
    ensures HoleFree(Run(sys, steps)) <==> HoleFree(sys) && HeadOnly(sys, steps)
    decreases |steps|
  {
    if steps != [] {
      StepSafe(sys, steps[0]);
      StepHoleFree(sys, steps[0]);
      HolesFromLeavers(Do(sys, steps[0]), steps[1..]);
    }
  }

  /** A run leaves no hole exactly when every waiter that gave up was at the head of the line. */
  lemma HoleFreeIffHeadOnly(limit: int, steps: seq<Step>)
    ensures HoleFree(Run(Start(limit), steps)) <==> HeadOnly(Start(limit), steps)
  {
    HolesFromLeavers(Start(limit), steps);
  }

  /** Once there is a hole, no call with a later ticket is admitted, now or ever, whatever the limit becomes. */
  lemma {:induction false} ShutOut(sys: System, more: seq<Step>, h: nat, t: nat)
    requires Safe(sys) && Hole(sys, h) && h <= t
    ensures var r := Run(sys, more);
      && Hole(r, h)
      && t !in r.order && !Holds(r.gate, t)
      && (t < |r.calls| ==> r.calls[t] == GaveUp || (r.calls[t] == Waiting && t in r.gate.pending))
    decreases |more|
  {
    if more == [] {
      if t < |sys.calls| { assert Accounted(sys, t); }
    } else {
      StepSafe(sys, more[0]);
      HolesExactly(sys, more[0], h);
      ShutOut(Do(sys, more[0]), more[1..], h, t);
    }
  }

  // ---------------------------------------------------------------- a fixed limit

  /** No turn is free while the next ticket in line waits. */
  ghost predicate Settled(sys: System) {
    && |sys.gate.holders| <= sys.gate.limit
    && (|sys.gate.holders| < sys.gate.limit ==> sys.gate.eligible !in sys.gate.pending)
  }

  predicate KeepsLimit(step: Step, limit: nat) {
    step.SetLimit? && step.policy.Some? ==>
      limit == if step.policy.value < 1 then DEFAULT_CONCURRENCY else step.policy.value
  }

  lemma {:induction false} FillSettles(sys: System)
    requires |sys.gate.holders| <= sys.gate.limit
    ensures Settled(Fill(sys)) && Fill(sys).gate.limit == sys.gate.limit
    decreases sys.gate.limit - |sys.gate.holders|
  {
    if |sys.gate.holders| < sys.gate.limit && sys.gate.eligible in sys.gate.pending {
      FillSettles(AdmitNext(sys));
    }
  }

  lemma StepSettles(sys: System, step: Step)
    requires Safe(sys) && Settled(sys) && KeepsLimit(step, sys.gate.limit)
    ensures Settled(Do(sys, step)) && Do(sys, step).gate.limit == sys.gate.limit
  {
    match step
    case GiveUp(t) =>
      if t < |sys.calls| { FillSettles(SetPhase(sys, t, GaveUp).(gate := Leave(sys.gate, t))); }
    case Return(t) =>
      if t < |sys.calls| { FillSettles(SetPhase(sys, t, Released).(gate := GiveBack(sys.gate, t))); }
    case _ =>
  }

  lemma {:induction false} RunSettles(sys: System, steps: seq<Step>)
    requires Safe(sys) && Settled(sys) && forall i :: 0 <= i < |steps| ==> KeepsLimit(steps[i], sys.gate.limit)
    ensures Safe(Run(sys, steps)) && Settled(Run(sys, steps)) && Run(sys, steps).gate.limit == sys.gate.limit
    decreases |steps|
  {
    if steps != [] {
      StepSafe(sys, steps[0]);
      StepSettles(sys, steps[0]);
      RunSettles(Do(sys, steps[0]), steps[1..]);
    }
  }

  /**
   Under a fixed limit the holders never exceed it, and a free turn is refused to a
   newcomer, or left to nobody while calls wait, exactly when the line is stuck at a hole.
   */
  lemma FreeTurnWastedIffStuck(limit: int, steps: seq<Step>, caller: string)
    requires forall i :: 0 <= i < |steps| ==> KeepsLimit(steps[i], New(limit).limit)
    ensures var sys := Run(Start(limit), steps);
      && |sys.gate.holders| <= New(limit).limit
      && (|sys.gate.holders| < New(limit).limit ==>
            && (Hole(sys, sys.gate.eligible) <==> At(Do(sys, Enter(caller)), sys.gate.next) == Waiting)
            && (!Hole(sys, sys.gate.eligible) ==> sys.gate.pending == map[] && sys.gate.eligible == sys.gate.next))
  {
    RunSettles(Start(limit), steps);
    var sys := Run(Start(limit), steps);
    if sys.gate.eligible == sys.gate.next {
      assert sys.gate.pending.Keys == {};
      assert sys.gate.pending == map[];
    }
  }

  // ---------------------------------------------------------------- who is served

  /** A return that takes effect and leaves fewer holders than the limit. */
  predicate FreesTurn(sys: System, step: Step) {
    step.Return? && At(sys, step.ticket) == Owning && |sys.gate.holders| <= sys.gate.limit
  }

  function TurnsFreed(sys: System, steps: seq<Step>): nat
    decreases |steps|
  {
    if steps == [] then 0
    else (if FreesTurn(sys, steps[0]) then 1 else 0) + TurnsFreed(Do(sys, steps[0]), steps[1..])
  }

  ghost function ReturnedTurns(sys: System): set<nat> {
    set t: nat | t < |sys.calls| && sys.calls[t] == Released
  }

  lemma PhaseChanges(sys: System, step: Step, t: nat)
    requires Safe(sys) && t < |sys.calls|
    ensures |sys.calls| <= |Do(sys, step).calls|
    ensures Do(sys, step).calls[t] == Released <==>
      sys.calls[t] == Released || (step == Return(t) && sys.calls[t] == Owning)
  {
    match step
    case GiveUp(u) => if u < |sys.calls| { FillExtends(SetPhase(sys, u, GaveUp).(gate := Leave(sys.gate, u))); }
    case Return(u) => if u < |sys.calls| { FillExtends(SetPhase(sys, u, Released).(gate := GiveBack(sys.gate, u))); }
    case _ =>
  }

  lemma NewCallNotReturned(sys: System, step: Step, t: nat)
    requires |sys.calls| <= t < |Do(sys, step).calls|
    ensures Do(sys, step).calls[t] != Released
  {
    match step
    case GiveUp(u) => if u < |sys.calls| { FillExtends(SetPhase(sys, u, GaveUp).(gate := Leave(sys.gate, u))); }
    case Return(u) => if u < |sys.calls| { FillExtends(SetPhase(sys, u, Released).(gate := GiveBack(sys.gate, u))); }
    case _ =>
  }

  lemma StepReturns(sys: System, step: Step)
    requires Safe(sys)
    ensures ReturnedTurns(Do(sys, step)) ==
      ReturnedTurns(sys) + if step.Return? && At(sys, step.ticket) == Owning then {step.ticket} else {}
  {
    forall t: nat
      ensures t in ReturnedTurns(Do(sys, step)) <==>
        t in ReturnedTurns(sys) || (step == Return(t) && At(sys, t) == Owning)
    {
      if t < |sys.calls| {
        PhaseChanges(sys, step, t);
      } else if t < |Do(sys, step).calls| {
        NewCallNotReturned(sys, step, t);
      }
    }
  }

  /** With a fixed limit the turns freed in a run are the calls that gave theirs back in it. */
  lemma {:induction false} FreedIsReturned(sys: System, steps: seq<Step>)
    requires Safe(sys) && Settled(sys) && forall i :: 0 <= i < |steps| ==> KeepsLimit(steps[i], sys.gate.limit)
    ensures TurnsFreed(sys, steps) == |ReturnedTurns(Run(sys, steps))| - |ReturnedTurns(sys)|
    decreases |steps|
  {
    if steps != [] {
      StepSafe(sys, steps[0]);
      StepSettles(sys, steps[0]);
      StepReturns(sys, steps[0]);
      FreedIsReturned(Do(sys, steps[0]), steps[1..]);
    }
  }

  lemma {:induction false} FillAdvances(sys: System)
    ensures sys.gate.eligible <= Fill(sys).gate.eligible
    ensures |sys.gate.holders| < sys.gate.limit && sys.gate.eligible in sys.gate.pending ==>
      sys.gate.eligible < Fill(sys).gate.eligible
    decreases sys.gate.limit - |sys.gate.holders|
  {
    if |sys.gate.holders| < sys.gate.limit && sys.gate.eligible in sys.gate.pending {
      FillAdvances(AdmitNext(sys));
    }
  }

  /** The line never moves back, and each turn freed moves it on while its head waits. */
  lemma StepAdvances(sys: System, step: Step)
    requires Safe(sys)
    ensures sys.gate.eligible <= Do(sys, step).gate.eligible
    ensures FreesTurn(sys, step) && sys.gate.eligible in sys.gate.pending ==>
      sys.gate.eligible < Do(sys, step).gate.eligible
  {
    match step
    case GiveUp(t) =>
      if t < |sys.calls| { FillAdvances(SetPhase(sys, t, GaveUp).(gate := Leave(sys.gate, t))); }
    case Return(t) =>
      if t < |sys.calls| {
        var mid := SetPhase(sys, t, Released).(gate := GiveBack(sys.gate, t));
        FillAdvances(mid);
        if sys.calls[t] == Owning { HolderLeaves(sys, t); }
      }
    case _ =>
  }

  lemma HolderLeaves(sys: System, t: nat)
    requires Safe(sys) && t < |sys.calls| && sys.calls[t] == Owning
    ensures |GiveBack(sys.gate, t).holders| == |sys.gate.holders| - 1
  {
    assert Accounted(sys, t);
    var p := WithoutExact(sys.gate.holders, t);
  }

  /** With a fixed limit every return that takes effect frees a turn. */
  lemma ReturnsFree(sys: System, t: nat)
    requires Settled(sys)
    ensures FreesTurn(sys, Return(t)) <==> At(sys, t) == Owning
  {
  }

  lemma {:induction false} HolesStay(sys: System, more: seq<Step>, h: nat)
    requires Safe(sys) && Hole(sys, h)
    ensures Hole(Run(sys, more), h)
    decreases |more|
  {
    if more != [] {
      StepSafe(sys, more[0]);
      HolesExactly(sys, more[0], h);
      HolesStay(Do(sys, more[0]), more[1..], h);
    }
  }

  /** A waiter that no longer waits was admitted or gave up, and stays so. */
  lemma DecidedOnLeaving(sys: System, step: Step, more: seq<Step>, t: nat)
    requires Safe(sys) && t in sys.gate.pending && t !in Do(sys, step).gate.pending
    ensures var r := Run(Do(sys, step), more); At(r, t) == GaveUp || t in r.order
  {
    var s1 := Do(sys, step);
    StepSafe(sys, step);
    StepOutcome(sys, step, t);
    assert Accounted(s1, t);
    OneOutcome(s1, more, t);
  }

  /**
   Arrival order, in every continuation: a waiter no hole comes before is admitted, unless it gives up, by the time
   the turns freed outnumber the calls ahead of it, whoever else comes, goes or changes the limit.
   */
  lemma {:induction false} Served(sys: System, more: seq<Step>, t: nat)
    requires Safe(sys) && t in sys.gate.pending
    requires forall h :: Hole(Run(sys, more), h) ==> t < h
    requires TurnsFreed(sys, more) > t - sys.gate.eligible
    ensures var r := Run(sys, more); At(r, t) == GaveUp || t in r.order
    decreases |more|
  {
    var e := sys.gate.eligible;
    if e !in sys.gate.pending {
      HolesStay(sys, more, e);
    }
    var s1 := Do(sys, more[0]);
    StepSafe(sys, more[0]);
    StepAdvances(sys, more[0]);
    assert Run(sys, more) == Run(s1, more[1..]);
    if t in s1.gate.pending {
      Served(s1, more[1..], t);
    } else {
      DecidedOnLeaving(sys, more[0], more[1..], t);
    }
  }

  // ---------------------------------------------------------------- who can still be served

  /** A gate nobody holds lets nobody wait at its head. */
  ghost predicate HeadNeedsHolder(sys: System) {
    sys.gate.holders == [] ==> sys.gate.eligible !in sys.gate.pending
  }

  lemma {:induction false} FillNeedsHolder(sys: System)
    requires Inv(sys.gate)
    ensures HeadNeedsHolder(Fill(sys))
    decreases sys.gate.limit - |sys.gate.holders|
  {
    if |sys.gate.holders| < sys.gate.limit && sys.gate.eligible in sys.gate.pending {
      AdmitHeadKeeps(sys.gate);
      FillNeedsHolder(AdmitNext(sys));
    }
  }

  lemma StepNeedsHolder(sys: System, step: Step)
    requires Safe(sys) && HeadNeedsHolder(sys)
    ensures HeadNeedsHolder(Do(sys, step))
  {
    match step
    case GiveUp(t) =>
      if t < |sys.calls| && t in sys.gate.pending {
        LeaveKeeps(sys.gate, t);
        FillNeedsHolder(SetPhase(sys, t, GaveUp).(gate := Leave(sys.gate, t)));
      }
    case Return(t) =>
      if t < |sys.calls| {
        GiveBackKeeps(sys.gate, t);
        FillNeedsHolder(SetPhase(sys, t, Released).(gate := GiveBack(sys.gate, t)));
      }
    case _ =>
  }

  lemma {:induction false} RunNeedsHolder(sys: System, steps: seq<Step>)
    requires Safe(sys) && HeadNeedsHolder(sys)
    ensures HeadNeedsHolder(Run(sys, steps))
    decreases |steps|
  {
    if steps != [] {
      StepSafe(sys, steps[0]);
      StepNeedsHolder(sys, steps[0]);
      RunNeedsHolder(Do(sys, steps[0]), steps[1..]);
    }
  }

  lemma HolderWakes(sys: System, u: nat)
    requires Safe(sys) && sys.gate.holders != [] && sys.gate.holders[0].ticket == u
    ensures At(Do(sys, Wake(u)), u) == Owning && u < |sys.calls|
  {
    assert Holds(sys.gate, u);
    assert Accounted(sys, u);
  }

  lemma RunTwo(sys: System, a: Step, b: Step)
    ensures Run(sys, [a, b]) == Do(Do(sys, a), b)
  {
    assert [a, b][1..] == [b];
    assert Run(Do(sys, a), [b]) == Run(Do(Do(sys, a), b), []);
  }

  ghost predicate CanBeServed(sys: System, t: nat) {
    exists more :: t in Run(sys, more).order
  }

  /** Holders wake and give their turns back; nothing else happens. */
  predicate OnlyReturns(steps: seq<Step>) {
    forall i :: 0 <= i < |steps| ==> steps[i].Wake? || steps[i].Return?
  }

  ghost predicate ServedByReturns(sys: System, t: nat) {
    exists more :: OnlyReturns(more) && t in Run(sys, more).order
  }

  ghost predicate NoHoleUpTo(sys: System, t: nat) {
    forall h :: Hole(sys, h) ==> t < h
  }

  /** The first holder wakes, if it has not yet, and returns: the line moves on, or there is one holder less. */
  lemma FirstHolderReturns(sys: System, t: nat) returns (r: System, u: nat)
    requires Safe(sys) && HeadNeedsHolder(sys) && t in sys.gate.pending && NoHoleUpTo(sys, t)
    ensures r == Do(Do(sys, Wake(u)), Return(u))
    ensures Safe(r) && HeadNeedsHolder(r) && NoHoleUpTo(r, t)
    ensures sys.gate.eligible < r.gate.eligible
         || (r.gate.eligible == sys.gate.eligible && |r.gate.holders| < |sys.gate.holders|)
    ensures t in r.gate.pending || t in r.order
  {
    assert sys.gate.eligible in sys.gate.pending by {
      if sys.gate.eligible !in sys.gate.pending { assert Hole(sys, sys.gate.eligible); }
    }
    u := sys.gate.holders[0].ticket;
    var awake := Do(sys, Wake(u));
    HolderWakes(sys, u);
    StepSafe(sys, Wake(u));
    StepNeedsHolder(sys, Wake(u));
    r := Do(awake, Return(u));
    StepSafe(awake, Return(u));
    StepNeedsHolder(awake, Return(u));
    StepAdvances(awake, Return(u));
    HolderLeaves(awake, u);
    ReturnStops(awake, u);
    forall h | Hole(r, h) ensures t < h {
      HolesExactly(sys, Wake(u), h);
      HolesExactly(awake, Return(u), h);
    }
    StaysOrServed(sys, u, t);
  }

  /** A return that does not move the line on admits nobody. */
  lemma ReturnStops(sys: System, u: nat)
    requires Safe(sys) && At(sys, u) == Owning
    ensures var r := Do(sys, Return(u));
      r.gate.eligible == sys.gate.eligible ==> |r.gate.holders| < |sys.gate.holders|
  {
    var mid := SetPhase(sys, u, Released).(gate := GiveBack(sys.gate, u));
    HolderLeaves(sys, u);
    FillAdvances(mid);
    assert Fill(mid).gate.eligible == mid.gate.eligible ==> Fill(mid) == mid;
  }

  lemma StaysOrServed(sys: System, u: nat, t: nat)
    requires Safe(sys) && t in sys.gate.pending && sys.gate.holders != [] && sys.gate.holders[0].ticket == u
    ensures var r := Do(Do(sys, Wake(u)), Return(u)); t in r.gate.pending || t in r.order
  {
    var awake := Do(sys, Wake(u));
    StepSafe(sys, Wake(u));
    StepSafe(awake, Return(u));
    var r := Do(awake, Return(u));
    HolderWakes(sys, u);
    FillExtends(SetPhase(awake, u, Released).(gate := GiveBack(awake.gate, u)));
    assert Accounted(sys, t);
    assert r.calls[t] == Waiting;
    assert Accounted(r, t);
  }

  /** Returns alone serve a waiter no hole comes before, however few turns the limit leaves. */
  lemma {:induction false} ReturnsServe(sys: System, t: nat) returns (steps: seq<Step>)
    requires Safe(sys) && HeadNeedsHolder(sys) && t in sys.gate.pending && NoHoleUpTo(sys, t)
    ensures OnlyReturns(steps) && t in Run(sys, steps).order
    decreases t - sys.gate.eligible, |sys.gate.holders|
  {
    var r, u := FirstHolderReturns(sys, t);
    RunTwo(sys, Wake(u), Return(u));
    if t in r.gate.pending {
      var rest := ReturnsServe(r, t);
      RunThen(sys, [Wake(u), Return(u)], rest);
      steps := [Wake(u), Return(u)] + rest;
    } else {
      steps := [Wake(u), Return(u)];
    }
  }

  /**
   In every reachable state, whatever the limits were: a waiter can still get a turn exactly when no hole lies before
   it, and then it takes no more than the holders returning their turns.
   */
  lemma CanBeServedIffNoHoleBefore(limit: int, steps: seq<Step>, t: nat)
    requires t in Run(Start(limit), steps).gate.pending
    ensures var sys := Run(Start(limit), steps);
      && (CanBeServed(sys, t) <==> NoHoleUpTo(sys, t))
      && (ServedByReturns(sys, t) <==> NoHoleUpTo(sys, t))
  {
    AlwaysSafe(limit, steps);
    RunNeedsHolder(Start(limit), steps);
    var sys := Run(Start(limit), steps);
    if NoHoleUpTo(sys, t) {
      var more := ReturnsServe(sys, t);
    } else {
      var h: nat :| Hole(sys, h) && h <= t;
      if CanBeServed(sys, t) {
        var more :| t in Run(sys, more).order;
        ShutOut(sys, more, h, t);
      }
    }
  }

  // ---------------------------------------------------------------- two runs that lose the turn

  /** Three callers on a one-turn gate; the last gives up while the second is next. After both finish,
      the gate is idle, nobody waits, and yet no later call is ever admitted. */
  const FREEZE: seq<Step> := [Enter("a"), Enter("b"), Enter("c"), GiveUp(2), Return(0), Wake(1), Return(1)]

  /** With the third caller gone, the other two finish and leave the gate idle, one ticket short of the next. */
  lemma OthersFinish(s4: System) returns (s7: System)
    requires s4.gate == State(1, 1, 3, [Holder(0, "a")], map[1 := "b"])
    requires s4.calls == [Owning, Waiting, GaveUp]
    ensures s7 == Do(Do(Do(s4, Return(0)), Wake(1)), Return(1))
    ensures s7.gate == State(1, 2, 3, [], map[])
  {
    var mid := SetPhase(s4, 0, Released).(gate := GiveBack(s4.gate, 0));
    assert mid.gate.holders == [];
    assert Fill(mid) == Fill(AdmitNext(mid)) == AdmitNext(mid);
    var s5 := Do(s4, Return(0));
    assert s5.gate == State(1, 2, 3, [Holder(1, "b")], map[]);
    var s6 := Do(s5, Wake(1));
    s7 := Do(s6, Return(1));
  }

  lemma FreezeRun(s0: System)
    ensures Run(s0, FREEZE) ==
      Do(Do(Do(Do(Do(Do(Do(s0, Enter("a")), Enter("b")), Enter("c")), GiveUp(2)), Return(0)), Wake(1)), Return(1))
  {
    var s2 := Do(Do(s0, Enter("a")), Enter("b"));
    var s4 := Do(Do(s2, Enter("c")), GiveUp(2));
    RunTwo(s0, Enter("a"), Enter("b"));
    RunTwo(s2, Enter("c"), GiveUp(2));
    RunTwo(s4, Return(0), Wake(1));
    assert FREEZE == [Enter("a"), Enter("b")] + ([Enter("c"), GiveUp(2)] + ([Return(0), Wake(1)] + [Return(1)]));
    RunThen(s0, [Enter("a"), Enter("b")], [Enter("c"), GiveUp(2)] + ([Return(0), Wake(1)] + [Return(1)]));
    RunThen(s2, [Enter("c"), GiveUp(2)], [Return(0), Wake(1)] + [Return(1)]);
    RunThen(s4, [Return(0), Wake(1)], [Return(1)]);
  }

  lemma IdleGateFreezes(more: seq<Step>, t: nat)
    requires 2 <= t
    ensures var sys := Run(Start(1), FREEZE);
      && sys.gate.holders == [] && sys.gate.pending == map[]
      && t !in Run(sys, more).order
  {
    var s0 := Start(1);
    var s1 := Do(s0, Enter("a"));
    var s2 := Do(s1, Enter("b"));
    var s3 := Do(s2, Enter("c"));
    var s4 := Do(s3, GiveUp(2));
    assert s4.gate == State(1, 1, 3, [Holder(0, "a")], map[1 := "b"]);
    var s7 := OthersFinish(s4);
    FreezeRun(s0);
    AlwaysSafe(1, FREEZE);
    assert Hole(s7, 2);
    ShutOut(s7, more, 2, t);
  }

  // ---------------------------------------------------------------- a raised limit

  /** A step that neither gives a turn back nor leaves the queue. */
  predicate Bystander(step: Step) {
    step.SetLimit? || step.Enter? || step.Wake?
  }

  /** While the head of the line waits, no number of limit changes, arrivals and wake-ups admits anybody. */
  lemma {:induction false} BystandersAdmitNobody(sys: System, steps: seq<Step>)
    requires Safe(sys) && sys.gate.eligible in sys.gate.pending
    requires forall i :: 0 <= i < |steps| ==> Bystander(steps[i])
    ensures var r := Run(sys, steps);
      && r.order == sys.order && r.gate.holders == sys.gate.holders
      && r.gate.eligible == sys.gate.eligible && r.gate.eligible in r.gate.pending
    decreases |steps|
  {
    if steps != [] {
      StepSafe(sys, steps[0]);
      BystandersAdmitNobody(Do(sys, steps[0]), steps[1..]);
    }
  }

  lemma {:induction false} FillAdmitsIff(sys: System)
    ensures |sys.order| <= |Fill(sys).order|
    ensures |sys.order| < |Fill(sys).order| <==>
      |sys.gate.holders| < sys.gate.limit && sys.gate.eligible in sys.gate.pending
    decreases sys.gate.limit - |sys.gate.holders|
  {
    if |sys.gate.holders| < sys.gate.limit && sys.gate.eligible in sys.gate.pending {
      FillAdmitsIff(AdmitNext(sys));
    }
  }

  /** The step takes effect and makes the gate look at its queue again. */
  predicate Departs(sys: System, step: Step) {
    || (step.Return? && At(sys, step.ticket) == Owning)
    || (step.GiveUp? && step.ticket in sys.gate.pending)
  }

  /** What a departure leaves for others: holders below the limit, and a head that waits. */
  predicate LeavesWork(sys: System, step: Step) {
    var holders := |sys.gate.holders| - if step.Return? then 1 else 0;
    && holders < sys.gate.limit
    && (step.GiveUp? && step.ticket == sys.gate.eligible ==> sys.gate.eligible + 1 in sys.gate.pending)
  }

  /**
   A raised limit is not used when it is set: only the next caller that returns its turn or leaves the queue makes the
   gate admit, and it does so exactly if there is then room and a head that waits.
   */
  lemma RaisedLimitWaitsForDeparture(sys: System, steps: seq<Step>, step: Step)
    requires Safe(sys) && sys.gate.eligible in sys.gate.pending
    requires forall i :: 0 <= i < |steps| ==> Bystander(steps[i])
    ensures var r := Run(sys, steps);
      && r.order == sys.order
      && (|r.order| < |Do(r, step).order| <==> Departs(r, step) && LeavesWork(r, step))
  {
    BystandersAdmitNobody(sys, steps);
    RunSafe(sys, steps);
    var r := Run(sys, steps);
    DepartureAdmitsIff(r, step);
  }

  lemma DepartureAdmitsIff(r: System, step: Step)
    requires Safe(r) && r.gate.eligible in r.gate.pending
    ensures |r.order| < |Do(r, step).order| <==> Departs(r, step) && LeavesWork(r, step)
  {
    match step
    case GiveUp(t) =>
      if t in r.gate.pending {
        assert Accounted(r, t);
        FillAdmitsIff(SetPhase(r, t, GaveUp).(gate := Leave(r.gate, t)));
      }
    case Return(t) =>
      if At(r, t) == Owning && t < |r.calls| {
        HolderLeaves(r, t);
        FillAdmitsIff(SetPhase(r, t, Released).(gate := GiveBack(r.gate, t)));
      }
    case _ =>
  }
}
