/**
 Whole runs of one gate under any interleaving of its callers. One step is one
 mutex-protected section of internal/bridge/gate.go; callers are program counters.
 Every Acquire draws exactly one ticket, so call number t is the call with ticket t.
 */
module GateProtocol {
  import opened FiniteSets
  import opened Options
  import opened BridgeGate

  /** Where the Acquire with some ticket stands. A `Waiting` call may already have been handed the turn. */
  datatype Phase = Waiting | Owning | Released | GaveUp

  /** `order` and `peak` record the history: the tickets admitted so far, and the largest limit so far. */
  datatype System = System(gate: State, calls: seq<Phase>, order: seq<nat>, peak: nat)

  datatype Step =
    | SetLimit(policy: Option<int>) // settingsLocked, at the start of any Acquire
    | Enter(caller: string)         // draw a ticket, then take the turn or queue
    | Wake(ticket: nat)             // the waiter sees its ready channel closed
    | GiveUp(ticket: nat)           // context or timer: abandon, or own the turn if it lost the race
    | Return(ticket: nat)           // the release closure, any number of times

  function Start(limit: int): System {
    System(New(limit), [], [], New(limit).limit)
  }

  /** The admission loop, with the history it makes. */
  function Fill(sys: System): System
    decreases sys.gate.limit - |sys.gate.holders|
  {
    if |sys.gate.holders| < sys.gate.limit && sys.gate.eligible in sys.gate.pending then
      Fill(AdmitNext(sys))
    else sys
  }

  function AdmitNext(sys: System): System
    requires sys.gate.eligible in sys.gate.pending
  {
    sys.(gate := AdmitHead(sys.gate), order := sys.order + [sys.gate.eligible])
  }

  function At(sys: System, t: nat): Phase {
    if t < |sys.calls| then sys.calls[t] else Waiting
  }

  function SetPhase(sys: System, t: nat, p: Phase): System
    requires t < |sys.calls|
  {
    sys.(calls := sys.calls[t := p])
  }

  /** A step whose guard does not hold changes nothing. */
  function Do(sys: System, step: Step): System {
    match step
    case SetLimit(policy) =>
      var g := Settings(sys.gate, policy);
      sys.(gate := g, peak := if g.limit > sys.peak then g.limit else sys.peak)
    case Enter(caller) =>
      if AdmitsOnArrival(sys.gate) then
        sys.(gate := Arrive(sys.gate, caller), calls := sys.calls + [Owning], order := sys.order + [sys.gate.next])
      else
        sys.(gate := Arrive(sys.gate, caller), calls := sys.calls + [Waiting])
    case Wake(t) =>
      if t < |sys.calls| && sys.calls[t] == Waiting && t !in sys.gate.pending then SetPhase(sys, t, Owning) else sys
    case GiveUp(t) =>
      if !(t < |sys.calls| && sys.calls[t] == Waiting) then sys
      else if t in sys.gate.pending then Fill(SetPhase(sys, t, GaveUp).(gate := Leave(sys.gate, t)))
      else SetPhase(sys, t, Owning)
    case Return(t) =>
      if t < |sys.calls| && sys.calls[t] == Owning then
        Fill(SetPhase(sys, t, Released).(gate := GiveBack(sys.gate, t)))
      else sys
  }

  function Run(sys: System, steps: seq<Step>): System
    decreases |steps|
  {
    if steps == [] then sys else Run(Do(sys, steps[0]), steps[1..])
  }

  lemma {:induction false} RunThen(sys: System, a: seq<Step>, b: seq<Step>)
    ensures Run(sys, a + b) == Run(Run(sys, a), b)
    decreases |a|
  {
    if a == [] {
      assert a + b == b;
    } else {
      assert (a + b)[1..] == a[1..] + b;
      RunThen(Do(sys, a[0]), a[1..], b);
    }
  }

  /** The machine's gate moves exactly as the gate's own functions say. */
  lemma {:induction false} FillIsAdmitPending(sys: System)
    ensures Fill(sys).gate == AdmitPending(sys.gate)
    ensures Fill(sys).calls == sys.calls && Fill(sys).peak == sys.peak
    decreases sys.gate.limit - |sys.gate.holders|
  {
    if |sys.gate.holders| < sys.gate.limit && sys.gate.eligible in sys.gate.pending {
      FillIsAdmitPending(AdmitNext(sys));
    }
  }

  lemma StepsAreGateSections(sys: System, step: Step)
    ensures var g' := Do(sys, step).gate;
      || g' == sys.gate
      || (step.SetLimit? && g' == Settings(sys.gate, step.policy))
      || (step.Enter? && g' == Arrive(sys.gate, step.caller))
      || (step.GiveUp? && step.ticket in sys.gate.pending && g' == Abandon(sys.gate, step.ticket))
      || (step.Return? && g' == Release(sys.gate, step.ticket))
  {
    match step
    case GiveUp(t) =>
      if t < |sys.calls| { FillIsAdmitPending(SetPhase(sys, t, GaveUp).(gate := Leave(sys.gate, t))); }
    case Return(t) =>
      if t < |sys.calls| { FillIsAdmitPending(SetPhase(sys, t, Released).(gate := GiveBack(sys.gate, t))); }
    case _ =>
  }

  // ---------------------------------------------------------------- safety

  ghost predicate Increasing(order: seq<nat>, bound: nat) {
    && (forall i :: 0 <= i < |order| ==> order[i] < bound)
    && (forall i, j :: 0 <= i < j < |order| ==> order[i] < order[j])
  }

  /** Where each ticket is agrees with where its call stands. */
  ghost predicate Accounted(sys: System, t: nat)
    requires t < |sys.calls|
  {
    match sys.calls[t]
    case Waiting => (t in sys.gate.pending) != Holds(sys.gate, t) && (t in sys.order <==> Holds(sys.gate, t))
    case Owning => t !in sys.gate.pending && Holds(sys.gate, t) && t in sys.order
    case Released => t !in sys.gate.pending && !Holds(sys.gate, t) && t in sys.order
    case GaveUp => t !in sys.gate.pending && !Holds(sys.gate, t) && t !in sys.order
  }

  ghost predicate Safe(sys: System) {
    && Inv(sys.gate)
    && |sys.calls| == sys.gate.next
    && sys.gate.limit <= sys.peak && |sys.gate.holders| <= sys.peak
    && Increasing(sys.order, sys.gate.eligible)
    && (forall t :: 0 <= t < |sys.calls| ==> Accounted(sys, t))
  }

  lemma AdmitNextSafe(sys: System)
    requires Safe(sys) && |sys.gate.holders| < sys.gate.limit && sys.gate.eligible in sys.gate.pending
    ensures Safe(AdmitNext(sys))
  {
    AdmitHeadKeeps(sys.gate);
    var r := AdmitNext(sys);
    var e := sys.gate.eligible;
    forall t | 0 <= t < |r.calls| ensures Accounted(r, t) {
      assert Accounted(sys, t);
      HoldsAppended(sys.gate, Holder(e, sys.gate.pending[e]), t);
      assert Holds(r.gate, t) <==> Holds(sys.gate, t) || t == e;
      assert t in r.order <==> t in sys.order || t == e;
    }
  }

  lemma HoldsAppended(g: State, h: Holder, t: nat)
    ensures Holds(g.(holders := g.holders + [h]), t) <==> Holds(g, t) || t == h.ticket
  {
    var r := g.(holders := g.holders + [h]);
    if Holds(g, t) {
      var i :| 0 <= i < |g.holders| && g.holders[i].ticket == t;
      assert r.holders[i].ticket == t;
    }
    if t == h.ticket { assert r.holders[|g.holders|].ticket == t; }
  }

  lemma {:induction false} FillSafe(sys: System)
    requires Safe(sys)
    ensures Safe(Fill(sys))
    decreases sys.gate.limit - |sys.gate.holders|
  {
    if |sys.gate.holders| < sys.gate.limit && sys.gate.eligible in sys.gate.pending {
      AdmitNextSafe(sys);
      FillSafe(AdmitNext(sys));
    }
  }

  lemma EnterSafe(sys: System, caller: string)
    requires Safe(sys)
    ensures Safe(Do(sys, Enter(caller)))
  {
    ArriveKeeps(sys.gate, caller);
    var r := Do(sys, Enter(caller));
    forall t | 0 <= t < |r.calls| ensures Accounted(r, t) {
      if t < |sys.calls| { assert Accounted(sys, t); }
      HoldsAppended(sys.gate, Holder(sys.gate.next, caller), t);
      assert AdmitsOnArrival(sys.gate) ==> (t in r.order <==> t in sys.order || t == sys.gate.next);
    }
  }

  lemma GiveUpSafe(sys: System, t: nat)
    requires Safe(sys)
    ensures Safe(Do(sys, GiveUp(t)))
  {
    if t < |sys.calls| && sys.calls[t] == Waiting {
      assert Accounted(sys, t);
      if t in sys.gate.pending {
        LeaveKeeps(sys.gate, t);
        var mid := SetPhase(sys, t, GaveUp).(gate := Leave(sys.gate, t));
        forall u | 0 <= u < |mid.calls| ensures Accounted(mid, u) {
          assert Accounted(sys, u);
        }
        FillSafe(mid);
      } else {
        PhaseOnlySafe(sys, t);
      }
    }
  }

  lemma PhaseOnlySafe(sys: System, t: nat)
    requires Safe(sys) && t < |sys.calls| && sys.calls[t] == Waiting && t !in sys.gate.pending
    ensures Safe(SetPhase(sys, t, Owning))
  {
    var r := SetPhase(sys, t, Owning);
    forall u | 0 <= u < |r.calls| ensures Accounted(r, u) {
      assert Accounted(sys, u);
    }
  }

  lemma ReturnSafe(sys: System, t: nat)
    requires Safe(sys)
    ensures Safe(Do(sys, Return(t)))
  {
    if t < |sys.calls| && sys.calls[t] == Owning {
      GiveBackKeeps(sys.gate, t);
      var mid := SetPhase(sys, t, Released).(gate := GiveBack(sys.gate, t));
      forall u | 0 <= u < |mid.calls| ensures Accounted(mid, u) {
        assert Accounted(sys, u);
        GiveBackFrees(sys.gate, t, u);
      }
      FillSafe(mid);
    }
  }

  lemma StepSafe(sys: System, step: Step)
    requires Safe(sys)
    ensures Safe(Do(sys, step))
  {
    match step
    case SetLimit(policy) =>
      var r := Do(sys, step);
      forall u | 0 <= u < |r.calls| ensures Accounted(r, u) { assert Accounted(sys, u); }
    case Enter(caller) => EnterSafe(sys, caller);
    case Wake(t) => if t < |sys.calls| && sys.calls[t] == Waiting && t !in sys.gate.pending { PhaseOnlySafe(sys, t); }
    case GiveUp(t) => GiveUpSafe(sys, t);
    case Return(t) => ReturnSafe(sys, t);
  }

  lemma {:induction false} RunSafe(sys: System, steps: seq<Step>)
    requires Safe(sys)
    ensures Safe(Run(sys, steps))
    decreases |steps|
  {
    if steps != [] {
      StepSafe(sys, steps[0]);
      RunSafe(Do(sys, steps[0]), steps[1..]);
    }
  }

  /** Safety of every reachable state, in every interleaving. */
  lemma AlwaysSafe(limit: int, steps: seq<Step>)
    ensures Safe(Run(Start(limit), steps))
  {
    RunSafe(Start(limit), steps);
  }

  // ---------------------------------------------------------------- exactly one outcome per call

  /** The phases a call may still reach; giving up and having returned the turn are final. */
  predicate MayBecome(p: Phase, q: Phase) {
    match p
    case Waiting => true
    case Owning => q == Owning || q == Released
    case Released => q == Released
    case GaveUp => q == GaveUp
  }

  lemma StepOutcome(sys: System, step: Step, t: nat)
    requires Safe(sys) && t < |sys.calls|
    ensures |sys.calls| <= |Do(sys, step).calls|
    ensures MayBecome(sys.calls[t], Do(sys, step).calls[t])
    ensures t in sys.order ==> t in Do(sys, step).order
  {
    match step
    case GiveUp(u) =>
      if u < |sys.calls| && sys.calls[u] == Waiting && u in sys.gate.pending {
        FillExtends(SetPhase(sys, u, GaveUp).(gate := Leave(sys.gate, u)));
      }
    case Return(u) =>
      if u < |sys.calls| && sys.calls[u] == Owning {
        FillExtends(SetPhase(sys, u, Released).(gate := GiveBack(sys.gate, u)));
      }
    case _ =>
  }

  lemma {:induction false} FillExtends(sys: System)
    ensures Fill(sys).calls == sys.calls
    ensures forall t :: t in sys.order ==> t in Fill(sys).order
    decreases sys.gate.limit - |sys.gate.holders|
  {
    if |sys.gate.holders| < sys.gate.limit && sys.gate.eligible in sys.gate.pending {
      FillExtends(AdmitNext(sys));
    }
  }

  /** In any continuation of any reachable state, a call's outcome is never revised. */
  lemma {:induction false} OneOutcome(sys: System, more: seq<Step>, t: nat)
    requires Safe(sys) && t < |sys.calls|
    ensures var r := Run(sys, more);
      && t < |r.calls|
      && MayBecome(sys.calls[t], r.calls[t])
      && (t in sys.order ==> t in r.order)
      && (sys.calls[t] == GaveUp ==> t !in r.order && !Holds(r.gate, t) && t !in r.gate.pending)
      && (sys.calls[t] == Released ==> !Holds(r.gate, t) && t !in r.gate.pending)
    decreases |more|
  {
    if more == [] {
      assert Accounted(sys, t);
    } else {
      StepOutcome(sys, more[0], t);
      StepSafe(sys, more[0]);
      OneOutcome(Do(sys, more[0]), more[1..], t);
    }
  }

  /** A waiter that gives up, or wakes, finds out whether it was handed the turn: if so the turn is its own, giving up or
      not; if not, it waits on or leaves. */
  lemma WaiterDecides(sys: System, t: nat)
    requires Safe(sys) && t < |sys.calls| && sys.calls[t] == Waiting
    ensures At(Do(sys, GiveUp(t)), t) == if t in sys.order then Owning else GaveUp
    ensures At(Do(sys, Wake(t)), t) == if t in sys.order then Owning else Waiting
    ensures t in sys.order <==> t !in sys.gate.pending
  {
    assert Accounted(sys, t);
    if t in sys.gate.pending { FillExtends(SetPhase(sys, t, GaveUp).(gate := Leave(sys.gate, t))); }
  }

  /** An owner that returns its turn no longer holds it; a second return changes nothing. */
  lemma ReturnEnds(sys: System, t: nat)
    requires Safe(sys) && At(sys, t) == Owning
    ensures var r := Do(sys, Return(t)); At(r, t) == Released && !Holds(r.gate, t) && Do(r, Return(t)) == r
  {
    FillExtends(SetPhase(sys, t, Released).(gate := GiveBack(sys.gate, t)));
    ReturnSafe(sys, t);
    assert Accounted(Do(sys, Return(t)), t);
  }

  ghost function Gone(sys: System): set<nat> {
    set t | 0 <= t < |sys.calls| && sys.calls[t] == GaveUp
  }

  /** Every ticket drawn is still waiting, was admitted, or gave up, and is counted once. */
  lemma TicketsBalance(sys: System)
    requires Safe(sys)
    ensures sys.gate.next == |sys.order| + |Gone(sys)| + |sys.gate.pending|
  {
    var admitted, gone, waiting := Elements(sys.order), Gone(sys), sys.gate.pending.Keys;
    forall t: nat ensures OneOf(t < sys.gate.next, t in admitted, t in gone, t in waiting) {
      if t < sys.gate.next { assert Accounted(sys, t); }
    }
    SizesAdd(UpTo(sys.gate.next), admitted, gone, waiting);
    DistinctSize(sys.order);
  }

  predicate OneOf(all: bool, a: bool, b: bool, c: bool) {
    && (all <==> a || b || c)
    && !(a && b) && !(a && c) && !(b && c)
  }

  lemma SizesAdd(all: set<nat>, a: set<nat>, b: set<nat>, c: set<nat>)
    requires forall t :: OneOf(t in all, t in a, t in b, t in c)
    ensures |all| == |a| + |b| + |c|
  {
    assert forall t :: OneOf(t in all, t in a, t in b, t in c);
    assert all == a + b + c;
    assert a !! b && a + b !! c;
  }

  ghost function UpTo(n: nat): (r: set<nat>)
    ensures |r| == n
    ensures forall t :: t in r <==> 0 <= t < n
  {
    if n == 0 then {} else UpTo(n - 1) + {n - 1}
  }
}
