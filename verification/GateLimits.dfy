/** How many callers the gate lets through: what its admission limit and the policy hook mean for them. */
module GateLimits {
  import opened Options
  import opened BridgeGate
  import opened GateProtocol

  function Min(a: int, b: int): int { if a < b then a else b }

  function Max(a: int, b: int): int { if a < b then b else a }

  /** One Acquire after another, each still waiting or holding its turn when the next arrives. */
  function Enters(callers: seq<string>): seq<Step> {
    seq(|callers|, i requires 0 <= i < |callers| => Enter(callers[i]))
  }

  lemma RunEnters(sys: System, callers: seq<string>)
    requires callers != []
    ensures var n := |callers| - 1;
      Run(sys, Enters(callers)) == Do(Run(sys, Enters(callers[..n])), Enter(callers[n]))
  {
    var n := |callers| - 1;
    assert Enters(callers) == Enters(callers[..n]) + [Enter(callers[n])];
    RunThen(sys, Enters(callers[..n]), [Enter(callers[n])]);
    var before := Run(sys, Enters(callers[..n]));
    assert Run(Do(before, Enter(callers[n])), []) == Run(before, [Enter(callers[n])]);
  }

  /** The first k callers took a turn each, in the order they came. */
  ghost predicate Seated(g: State, r: State, callers: seq<string>, k: nat)
    requires k <= |callers|
  {
    && |r.holders| == |g.holders| + k
    && (forall j :: 0 <= j < |g.holders| ==> r.holders[j] == g.holders[j])
    && (forall j :: |g.holders| <= j < |r.holders| ==>
          r.holders[j] == Holder(g.next + j - |g.holders|, callers[j - |g.holders|]))
  }

  /** The callers from the k-th on queue, in the order they came. */
  ghost predicate Queued(g: State, r: State, callers: seq<string>, k: nat) {
    && (forall t :: t in r.pending <==> t in g.pending || g.next + k <= t < g.next + |callers|)
    && (forall t :: g.next <= t < g.next + |callers| && t in r.pending ==> r.pending[t] == callers[t - g.next])
  }

  ghost predicate Told(sys: System, r: System, callers: seq<string>, k: nat) {
    && |r.calls| == |sys.calls| + |callers|
    && (forall t :: |sys.calls| <= t < |r.calls| ==> r.calls[t] == if t < |sys.calls| + k then Owning else Waiting)
  }

  /** Tickets are drawn in order, the first k of them take a turn and the others queue. */
  ghost predicate LinedUp(sys: System, r: System, callers: seq<string>, k: nat) {
    && k <= |callers|
    && r.gate.limit == sys.gate.limit && r.gate.next == sys.gate.next + |callers|
    && Seated(sys.gate, r.gate, callers, k) && Queued(sys.gate, r.gate, callers, k) && Told(sys, r, callers, k)
  }

  predicate Ready(sys: System) {
    |sys.calls| == sys.gate.next && forall t :: t in sys.gate.pending ==> t < sys.gate.next
  }

  lemma OneMoreQueues(sys: System, r: System, callers: seq<string>, c: string, k: nat)
    requires Ready(sys) && LinedUp(sys, r, callers, k) && !AdmitsOnArrival(r.gate)
    ensures LinedUp(sys, Do(r, Enter(c)), callers + [c], k)
  {
  }

  lemma OneMoreSits(sys: System, r: System, callers: seq<string>, c: string)
    requires Ready(sys) && LinedUp(sys, r, callers, |callers|) && AdmitsOnArrival(r.gate)
    ensures LinedUp(sys, Do(r, Enter(c)), callers + [c], |callers| + 1)
  {
  }

  /** Nobody waits and every ticket drawn was passed. */
  predicate Clear(g: State) { g.pending == map[] && g.eligible == g.next }

  /** Callers that find nobody waiting take the free turns in the order they come, and the rest queue in that order. */
  lemma {:induction false} FreeTurnsFill(sys: System, callers: seq<string>)
    requires Ready(sys) && Clear(sys.gate)
    ensures var r, free := Run(sys, Enters(callers)), Max(0, sys.gate.limit - |sys.gate.holders|);
      && LinedUp(sys, r, callers, Min(|callers|, free))
      && (|callers| <= free ==> Clear(r.gate))
    decreases |callers|
  {
    var free := Max(0, sys.gate.limit - |sys.gate.holders|);
    var n := |callers| - 1;
    if callers != [] {
      FreeTurnsFill(sys, callers[..n]);
      RunEnters(sys, callers);
      var r := Run(sys, Enters(callers[..n]));
      assert callers == callers[..n] + [callers[n]];
      if n < free {
        OneMoreSits(sys, r, callers[..n], callers[n]);
      } else {
        if n > free { assert sys.gate.next + free in r.gate.pending; }
        OneMoreQueues(sys, r, callers[..n], callers[n], free);
      }
    }
  }

  // ---------------------------------------------------------------- what a configured limit means

  lemma QueueLength(g: State, r: State, callers: seq<string>, k: nat)
    requires k <= |callers| && Queued(g, r, callers, k) && g.pending == map[]
    ensures |r.pending| == |callers| - k
  {
    assert r.pending.Keys == UpTo(g.next + |callers|) - UpTo(g.next + k);
    assert UpTo(g.next + k) <= UpTo(g.next + |callers|);
  }

  /** A fresh gate hands out as many turns as it was made with, at least one, and a policy hook that answers nothing
      leaves it at that. */
  lemma FreshGateAdmits(limit: int, callers: seq<string>, asked: bool)
    ensures var sys := if asked then Do(Start(limit), SetLimit(None)) else Start(limit);
      && var r := Run(sys, Enters(callers));
      && LinedUp(sys, r, callers, Min(|callers|, Max(1, limit)))
      && |r.gate.holders| == Min(|callers|, Max(1, limit))
      && |r.gate.pending| == |callers| - |r.gate.holders|
  {
    var sys := if asked then Do(Start(limit), SetLimit(None)) else Start(limit);
    FreeTurnsFill(sys, callers);
    QueueLength(sys.gate, Run(sys, Enters(callers)).gate, callers, Min(|callers|, Max(1, limit)));
  }

  /** An answer of the policy hook becomes the limit, an answer below one a limit of one; nobody moves. */
  lemma PolicySets(sys: System, n: int)
    ensures var r := Do(sys, SetLimit(Some(n)));
      r.gate == sys.gate.(limit := Max(1, n)) && r.calls == sys.calls && r.order == sys.order
  {
  }

  /** Once the policy answers n, callers that find nobody waiting fill the gate up to n turns, at least one: more than
      before when n is higher, fewer when it is lower, and none while as many still hold a turn. */
  lemma PolicyDecides(sys: System, n: int, callers: seq<string>)
    requires Safe(sys) && Clear(sys.gate)
    ensures var r := Run(sys, [SetLimit(Some(n))] + Enters(callers));
      && var k := Min(|callers|, Max(0, Max(1, n) - |sys.gate.holders|));
      && |r.gate.holders| == |sys.gate.holders| + k
      && |r.gate.pending| == |callers| - k
      && Told(sys, r, callers, k)
  {
    var s1 := Do(sys, SetLimit(Some(n)));
    PolicySets(sys, n);
    assert ([SetLimit(Some(n))] + Enters(callers))[1..] == Enters(callers);
    FreeTurnsFill(s1, callers);
    var r, k := Run(s1, Enters(callers)), Min(|callers|, Max(0, Max(1, n) - |sys.gate.holders|));
    QueueLength(s1.gate, r.gate, callers, k);
  }

  /** On a gate made with whatever limit: min(m, max(1, n)) of m callers hold a turn and the others wait. */
  lemma FreshGateObeysPolicy(limit: int, n: int, callers: seq<string>)
    ensures var r := Run(Start(limit), [SetLimit(Some(n))] + Enters(callers));
      && |r.gate.holders| == Min(|callers|, Max(1, n))
      && |r.gate.pending| == |callers| - |r.gate.holders|
  {
    AlwaysSafe(limit, []);
    PolicyDecides(Start(limit), n, callers);
  }

  /** The policy answers n, or has nothing to answer, from now on. */
  predicate PolicyStays(steps: seq<Step>, n: int) {
    forall i :: 0 <= i < |steps| && steps[i].SetLimit? ==> steps[i].policy in {None, Some(n)}
  }

  lemma {:induction false} FillWithin(sys: System, bound: nat)
    requires sys.gate.limit <= bound
    ensures |sys.order| < |Fill(sys).order| ==> |Fill(sys).gate.holders| <= bound
    ensures |Fill(sys).order| == |sys.order| ==> Fill(sys) == sys
    ensures |sys.order| <= |Fill(sys).order|
    decreases sys.gate.limit - |sys.gate.holders|
  {
    if |sys.gate.holders| < sys.gate.limit && sys.gate.eligible in sys.gate.pending {
      var s1 := AdmitNext(sys);
      FillWithin(s1, bound);
    }
  }

  /** From then on nobody is admitted beyond n turns, however many held one when the policy changed. */
  lemma {:induction false} AdmitsWithinPolicy(sys: System, n: int, more: seq<Step>, step: Step)
    requires sys.gate.limit == Max(1, n) && PolicyStays(more + [step], n)
    ensures var r := Run(sys, more);
      |r.order| < |Do(r, step).order| ==> |Do(r, step).gate.holders| <= Max(1, n)
    decreases |more|
  {
    if more == [] {
      assert (more + [step])[0] == step;
      match step
      case GiveUp(t) =>
        if t < |sys.calls| { FillWithin(SetPhase(sys, t, GaveUp).(gate := Leave(sys.gate, t)), Max(1, n)); }
      case Return(t) =>
        if t < |sys.calls| { FillWithin(SetPhase(sys, t, Released).(gate := GiveBack(sys.gate, t)), Max(1, n)); }
      case _ =>
    } else {
      var s1 := Do(sys, more[0]);
      assert (more + [step])[0] == more[0];
      LimitStays(sys, more[0], n);
      assert (more + [step])[1..] == more[1..] + [step];
      AdmitsWithinPolicy(s1, n, more[1..], step);
    }
  }

  lemma LimitStays(sys: System, step: Step, n: int)
    requires sys.gate.limit == Max(1, n) && (step.SetLimit? ==> step.policy in {None, Some(n)})
    ensures Do(sys, step).gate.limit == Max(1, n)
  {
    match step
    case GiveUp(t) =>
      if t < |sys.calls| { FillKeepsLimit(SetPhase(sys, t, GaveUp).(gate := Leave(sys.gate, t))); }
    case Return(t) =>
      if t < |sys.calls| { FillKeepsLimit(SetPhase(sys, t, Released).(gate := GiveBack(sys.gate, t))); }
    case _ =>
  }

  lemma {:induction false} FillKeepsLimit(sys: System)
    ensures Fill(sys).gate.limit == sys.gate.limit
    decreases sys.gate.limit - |sys.gate.holders|
  {
    if |sys.gate.holders| < sys.gate.limit && sys.gate.eligible in sys.gate.pending { FillKeepsLimit(AdmitNext(sys)); }
  }

  /** A lowered or raised limit binds every admission after it, whatever happens in between. */
  lemma PolicyBindsFromThenOn(sys: System, n: int, more: seq<Step>, step: Step)
    requires PolicyStays(more + [step], n)
    ensures var r := Run(sys, [SetLimit(Some(n))] + more);
      |r.order| < |Do(r, step).order| ==> |Do(r, step).gate.holders| <= Max(1, n)
  {
    PolicySets(sys, n);
    assert ([SetLimit(Some(n))] + more)[1..] == more;
    AdmitsWithinPolicy(Do(sys, SetLimit(Some(n))), n, more, step);
  }
}
