/**
 The registry of per-tab queues (internal/bridge/address.go): one-slot gates created on
 first use and dropped when their reference count reaches zero.
 */
module TabRegistry {
  import opened Options
  import opened BridgeGate

  datatype TabRef<G> = TabRef(gate: G, refs: int)

  /** tabGateFor: takes a reference, creating the queue (here `made`) on first use. */
  function Join<G>(tabs: map<string, TabRef<G>>, tab: string, made: G): map<string, TabRef<G>> {
    if tab in tabs then tabs[tab := tabs[tab].(refs := tabs[tab].refs + 1)] else tabs[tab := TabRef(made, 1)]
  }

  /** untabGate: hands a reference back, dropping an idle queue. */
  function Untab<G>(tabs: map<string, TabRef<G>>, tab: string): map<string, TabRef<G>> {
    if tab !in tabs then tabs
    else if tabs[tab].refs - 1 <= 0 then tabs - {tab}
    else tabs[tab := tabs[tab].(refs := tabs[tab].refs - 1)]
  }

  class Registry {
    var tabGates: map<string, TabRef<Gate>>

    constructor ()
      ensures tabGates == map[]
    {
      tabGates := map[];
    }

    method TabGateFor(tab: string) returns (g: Gate)
      modifies this
      ensures tabGates == Join(old(tabGates), tab, g)
      ensures tabGates[tab].gate == g
      ensures tab !in old(tabGates) ==> fresh(g) && g.Valid() && g.View() == New(1)
    {
      if tab !in tabGates {
        var made := new Gate(1);
        tabGates := tabGates[tab := TabRef(made, 0)];
      }
      tabGates := tabGates[tab := tabGates[tab].(refs := tabGates[tab].refs + 1)];
      g := tabGates[tab].gate;
    }

    method UntabGate(tab: string)
      modifies this
      ensures tabGates == Untab(old(tabGates), tab)
    {
      if tab !in tabGates { return; }
      tabGates := tabGates[tab := tabGates[tab].(refs := tabGates[tab].refs - 1)];
      if tabGates[tab].refs <= 0 {
        tabGates := tabGates - {tab};
      }
    }
  }
}

/**
 Whole runs of WithTabTurn callers over queues that come and go. One step is one
 critical section; a caller takes a reference, asks the queue it was given, and
 hands the reference back after it released the turn or failed to get it.
 */
module TabTurns {
  import opened Options
  import opened BridgeGate
  import opened TabRegistry
  import GP = GateProtocol

  datatype Stage = Joined | Queued(ticket: nat) | Left(ticket: nat)

  datatype Caller = Caller(tab: string, gate: nat, stage: Stage)

  /** A queue with, for each ticket, the caller that drew it. */
  datatype TabGate = TabGate(sys: GP.System, owners: seq<nat>)

  /** `gates` keeps every queue ever created; `refs` is the live registry, naming queues by index. */
  datatype Tabs = Tabs(refs: map<string, TabRef<nat>>, gates: seq<TabGate>, callers: seq<Caller>)

  datatype Step =
    | Enter(tab: string)      // a new caller takes its reference
    | Ask(c: nat)             // Acquire: re-read the settings, draw a ticket
    | Wake(c: nat)
    | GiveUp(c: nat)
    | Unlock(c: nat)          // the release closure returns the turn
    | Leave(c: nat)           // and then the reference
    | LeaveAgain(c: nat)      // the closure, which a caller got with its turn, is called a second time

  const EMPTY := Tabs(map[], [], [])

  function SetGate(s: Tabs, g: nat, sys: GP.System): Tabs
    requires g < |s.gates|
  {
    s.(gates := s.gates[g := s.gates[g].(sys := sys)])
  }

  function SetStage(s: Tabs, c: nat, stage: Stage): Tabs
    requires c < |s.callers|
  {
    s.(callers := s.callers[c := s.callers[c].(stage := stage)])
  }

  predicate QueuedAt(s: Tabs, c: nat) {
    c < |s.callers| && s.callers[c].gate < |s.gates| && s.callers[c].stage.Queued?
  }

  /** Only a caller that got the turn was given a closure; one that gave up got none. */
  predicate CanCallAgain(s: Tabs, c: nat) {
    && c < |s.callers| && s.callers[c].gate < |s.gates| && s.callers[c].stage.Left?
    && GP.At(s.gates[s.callers[c].gate].sys, s.callers[c].stage.ticket) == GP.Released
  }

  function PhaseOf(s: Tabs, c: nat): GP.Phase
    requires QueuedAt(s, c)
  {
    GP.At(s.gates[s.callers[c].gate].sys, s.callers[c].stage.ticket)
  }

  function MoveGate(s: Tabs, c: nat, step: GP.Step): Tabs
    requires QueuedAt(s, c)
  {
    SetGate(s, s.callers[c].gate, GP.Do(s.gates[s.callers[c].gate].sys, step))
  }

  /** Acquire on a tab's queue re-reads its settings, which keep it at one turn, and draws a ticket. */
  function Drawn(sys: GP.System): GP.System {
    GP.Do(GP.Do(sys, GP.SetLimit(Some(1))), GP.Enter("bridge"))
  }

  function Do(s: Tabs, step: Step): Tabs {
    match step
    case Enter(tab) =>
      var made := |s.gates|;
      var refs := Join(s.refs, tab, made);
      Tabs(refs,
           if tab in s.refs then s.gates else s.gates + [TabGate(GP.Start(1), [])],
           s.callers + [Caller(tab, refs[tab].gate, Joined)])
    case Ask(c) =>
      if c < |s.callers| && s.callers[c].gate < |s.gates| && s.callers[c].stage.Joined? then
        var g := s.callers[c].gate;
        var q := s.gates[g];
        SetStage(s.(gates := s.gates[g := TabGate(Drawn(q.sys), q.owners + [c])]), c, Queued(q.sys.gate.next))
      else s
    case Wake(c) => if QueuedAt(s, c) then MoveGate(s, c, GP.Wake(s.callers[c].stage.ticket)) else s
    case GiveUp(c) => if QueuedAt(s, c) then MoveGate(s, c, GP.GiveUp(s.callers[c].stage.ticket)) else s
    case Unlock(c) => if QueuedAt(s, c) then MoveGate(s, c, GP.Return(s.callers[c].stage.ticket)) else s
    case Leave(c) =>
      if QueuedAt(s, c) && PhaseOf(s, c) in {GP.Released, GP.GaveUp} then
        SetStage(s, c, Left(s.callers[c].stage.ticket)).(refs := Untab(s.refs, s.callers[c].tab))
      else s
    case LeaveAgain(c) =>
      if CanCallAgain(s, c) then s.(refs := Untab(s.refs, s.callers[c].tab)) else s
  }

  function Run(s: Tabs, steps: seq<Step>): Tabs
    decreases |steps|
  {
    if steps == [] then s else Run(Do(s, steps[0]), steps[1..])
  }

  // ---------------------------------------------------------------- what every run keeps

  /** The callers between tabGateFor and untabGate. */
  ghost function Members(callers: seq<Caller>, tab: string): set<nat> {
    set c: nat | c < |callers| && callers[c].tab == tab && !callers[c].stage.Left?
  }

  ghost predicate GateOk(s: Tabs, g: nat)
    requires g < |s.gates|
  {
    var q := s.gates[g];
    && GP.Safe(q.sys) && q.sys.gate.limit == 1 && q.sys.peak == 1
    && |q.owners| == |q.sys.calls|
    && forall t :: 0 <= t < |q.owners| ==>
         && q.owners[t] < |s.callers|
         && var c := s.callers[q.owners[t]]; c.gate == g && !c.stage.Joined? && c.stage.ticket == t
  }

  ghost predicate Placed(s: Tabs, c: nat)
    requires c < |s.callers|
  {
    var me := s.callers[c];
    && me.gate < |s.gates|
    && (!me.stage.Joined? ==>
          var q := s.gates[me.gate];
          && me.stage.ticket < |q.owners| && q.owners[me.stage.ticket] == c
          && (me.stage.Left? ==> GP.At(q.sys, me.stage.ticket) in {GP.Released, GP.GaveUp}))
  }

  ghost predicate Listed(s: Tabs, c: nat)
    requires c < |s.callers|
  {
    var me := s.callers[c];
    !me.stage.Left? ==> me.tab in s.refs && s.refs[me.tab].gate == me.gate
  }

  ghost predicate CountOk(s: Tabs, tab: string)
    requires tab in s.refs
  {
    s.refs[tab].refs == |Members(s.callers, tab)| > 0
  }

  /** What holds however often closures are called: queues are safe and tickets have owners. */
  ghost predicate Sound(s: Tabs) {
    && (forall g :: 0 <= g < |s.gates| ==> GateOk(s, g))
    && (forall c :: 0 <= c < |s.callers| ==> Placed(s, c))
    && (forall x :: x in s.refs ==> 0 <= s.refs[x].gate < |s.gates|)
  }

  /** The registry lists exactly the queues in use, each for one tab, with their users counted. */
  ghost predicate Counted(s: Tabs) {
    && (forall c :: 0 <= c < |s.callers| ==> Listed(s, c))
    && (forall x :: x in s.refs ==> CountOk(s, x))
    && (forall x, y :: x in s.refs && y in s.refs && s.refs[x].gate == s.refs[y].gate ==> x == y)
  }

  ghost predicate Ok(s: Tabs) {
    Sound(s) && Counted(s)
  }

  lemma EnterSound(s: Tabs, tab: string)
    requires Sound(s)
    ensures Sound(Do(s, Enter(tab)))
  {
    var r := Do(s, Enter(tab));
    forall g | 0 <= g < |r.gates| ensures GateOk(r, g) {
      if g < |s.gates| { assert GateOk(s, g); } else { GP.AlwaysSafe(1, []); }
    }
    forall c | 0 <= c < |r.callers| ensures Placed(r, c) {
      if c < |s.callers| { assert Placed(s, c); }
    }
  }

  lemma EnterCounted(s: Tabs, tab: string)
    requires Ok(s)
    ensures Counted(Do(s, Enter(tab)))
  {
    var r := Do(s, Enter(tab));
    forall c | 0 <= c < |r.callers| ensures Listed(r, c) {
      if c < |s.callers| { assert Listed(s, c); }
    }
    forall x | x in r.refs ensures CountOk(r, x) {
      MembersJoin(s.callers, r.callers[|s.callers|], x);
      if x in s.refs { assert CountOk(s, x); } else { NoMembers(s, x); }
    }
  }

  lemma NoMembers(s: Tabs, x: string)
    requires (forall c :: 0 <= c < |s.callers| ==> Listed(s, c)) && x !in s.refs
    ensures Members(s.callers, x) == {}
  {
    forall c: nat | c < |s.callers| ensures c !in Members(s.callers, x) { assert Listed(s, c); }
  }

  lemma MembersJoin(callers: seq<Caller>, c: Caller, x: string)
    requires c.stage.Joined?
    ensures |Members(callers + [c], x)| == |Members(callers, x)| + (if c.tab == x then 1 else 0)
  {
    assert Members(callers + [c], x) == Members(callers, x) + (if c.tab == x then {|callers|} else {});
  }

  lemma MembersSame(callers: seq<Caller>, c: nat, stage: Stage, x: string)
    requires c < |callers| && stage.Left? == callers[c].stage.Left?
    ensures Members(callers[c := callers[c].(stage := stage)], x) == Members(callers, x)
  {
  }

  lemma MembersLeave(callers: seq<Caller>, c: nat, stage: Stage, x: string)
    requires c < |callers| && stage.Left? && !callers[c].stage.Left?
    ensures |Members(callers[c := callers[c].(stage := stage)], x)|
        == |Members(callers, x)| - (if callers[c].tab == x then 1 else 0)
  {
    assert Members(callers[c := callers[c].(stage := stage)], x) ==
      Members(callers, x) - (if callers[c].tab == x then {c} else {});
  }

  lemma DrawnSafe(sys: GP.System)
    requires GP.Safe(sys) && sys.gate.limit == 1 && sys.peak == 1
    ensures var r := Drawn(sys);
      && GP.Safe(r) && r.gate.limit == 1 && r.peak == 1
      && |r.calls| == |sys.calls| + 1
      && forall t :: 0 <= t < |sys.calls| ==> r.calls[t] == sys.calls[t]
  {
    GP.StepSafe(sys, GP.SetLimit(Some(1)));
    GP.StepSafe(GP.Do(sys, GP.SetLimit(Some(1))), GP.Enter("bridge"));
  }

  lemma AskSound(s: Tabs, c: nat)
    requires Sound(s) && c < |s.callers| && s.callers[c].stage.Joined?
    ensures Sound(Do(s, Ask(c)))
  {
    assert Placed(s, c);
    var r := Do(s, Ask(c));
    var g0 := s.callers[c].gate;
    assert GateOk(s, g0);
    DrawnSafe(s.gates[g0].sys);
    forall g | 0 <= g < |r.gates| ensures GateOk(r, g) { assert GateOk(s, g); }
    forall d | 0 <= d < |r.callers| ensures Placed(r, d) { assert Placed(s, d); }
  }

  /** A change of stage that does not leave keeps the counts. */
  lemma StageCounted(s: Tabs, c: nat, r: Tabs)
    requires Counted(s) && c < |s.callers| && !s.callers[c].stage.Left? && r.refs == s.refs
    requires exists stage: Stage :: !stage.Left? && r.callers == s.callers[c := s.callers[c].(stage := stage)]
    ensures Counted(r)
  {
    forall d | 0 <= d < |r.callers| ensures Listed(r, d) { assert Listed(s, d); }
    forall x | x in r.refs ensures CountOk(r, x) {
      assert CountOk(s, x);
      MembersSame(s.callers, c, r.callers[c].stage, x);
    }
  }

  lemma MoveSound(s: Tabs, c: nat, step: GP.Step)
    requires Sound(s) && QueuedAt(s, c)
    requires step.Wake? || step.GiveUp? || step.Return?
    ensures Sound(MoveGate(s, c, step))
  {
    assert Placed(s, c);
    var g0 := s.callers[c].gate;
    assert GateOk(s, g0);
    var q := s.gates[g0].sys;
    GP.StepSafe(q, step);
    MoveKeepsShape(q, step);
    var r := MoveGate(s, c, step);
    forall g | 0 <= g < |r.gates| ensures GateOk(r, g) { assert GateOk(s, g); }
    forall d | 0 <= d < |r.callers| ensures Placed(r, d) {
      assert Placed(s, d);
      if s.callers[d].stage.Left? && s.callers[d].gate == g0 { GP.StepOutcome(q, step, s.callers[d].stage.ticket); }
    }
  }

  lemma MoveKeepsShape(q: GP.System, step: GP.Step)
    requires step.Wake? || step.GiveUp? || step.Return?
    ensures var r := GP.Do(q, step); |r.calls| == |q.calls| && r.peak == q.peak && r.gate.limit == q.gate.limit
  {
    if step.ticket < |q.calls| {
      var t := step.ticket;
      GP.FillIsAdmitPending(GP.SetPhase(q, t, GP.GaveUp).(gate := BridgeGate.Leave(q.gate, t)));
      GP.FillIsAdmitPending(GP.SetPhase(q, t, GP.Released).(gate := GiveBack(q.gate, t)));
      AdmitKeepsLimit(BridgeGate.Leave(q.gate, t));
      AdmitKeepsLimit(GiveBack(q.gate, t));
    }
  }

  lemma {:induction false} AdmitKeepsLimit(g: State)
    ensures AdmitPending(g).limit == g.limit
    decreases g.limit - |g.holders|
  {
    if |g.holders| < g.limit && g.eligible in g.pending {
      AdmitKeepsLimit(AdmitHead(g));
    }
  }

  lemma LeaveSound(s: Tabs, c: nat)
    requires Sound(s) && QueuedAt(s, c) && PhaseOf(s, c) in {GP.Released, GP.GaveUp}
    ensures Sound(Do(s, Leave(c)))
  {
    assert Placed(s, c);
    var r := Do(s, Leave(c));
    forall g | 0 <= g < |r.gates| ensures GateOk(r, g) { assert GateOk(s, g); }
    forall d | 0 <= d < |r.callers| ensures Placed(r, d) { assert Placed(s, d); }
  }

  lemma LeaveCounted(s: Tabs, c: nat)
    requires Ok(s) && QueuedAt(s, c) && PhaseOf(s, c) in {GP.Released, GP.GaveUp}
    ensures Counted(Do(s, Leave(c)))
  {
    assert Listed(s, c);
    var r := Do(s, Leave(c));
    var tab := s.callers[c].tab;
    assert CountOk(s, tab);
    forall x | x in s.refs
      ensures CountOk(s, x) && |Members(r.callers, x)| == |Members(s.callers, x)| - (if x == tab then 1 else 0)
    {
      MembersLeave(s.callers, c, r.callers[c].stage, x);
    }
    forall d | 0 <= d < |r.callers| ensures Listed(r, d) {
      assert Listed(s, d);
      if tab !in r.refs && s.callers[d].tab == tab && d != c {
        assert |Members(r.callers, tab)| == 0;
        assert d !in Members(r.callers, tab);
      }
    }
  }

  /** Every step keeps the queues sound, second calls of a closure included. */
  lemma StepSound(s: Tabs, step: Step)
    requires Sound(s)
    ensures Sound(Do(s, step))
  {
    match step
    case Enter(tab) => EnterSound(s, tab);
    case Ask(c) => if c < |s.callers| && s.callers[c].stage.Joined? { AskSound(s, c); }
    case Wake(c) => if QueuedAt(s, c) { MoveSound(s, c, GP.Wake(s.callers[c].stage.ticket)); }
    case GiveUp(c) => if QueuedAt(s, c) { MoveSound(s, c, GP.GiveUp(s.callers[c].stage.ticket)); }
    case Unlock(c) => if QueuedAt(s, c) { MoveSound(s, c, GP.Return(s.callers[c].stage.ticket)); }
    case Leave(c) => if QueuedAt(s, c) && PhaseOf(s, c) in {GP.Released, GP.GaveUp} { LeaveSound(s, c); }
    case LeaveAgain(c) => SoundWithFewerRefs(s, Do(s, step));
  }

  /** A new caller joins the queue its tab has, or the first of a fresh one-turn queue if it has none. */
  lemma EnterJoins(s: Tabs, tab: string)
    requires Sound(s)
    ensures var r := Do(s, Enter(tab));
      && (tab in s.refs ==> r.gates == s.gates && r.callers == s.callers + [Caller(tab, s.refs[tab].gate, Joined)])
      && (tab !in s.refs ==>
            && r.gates == s.gates + [TabGate(GP.Start(1), [])]
            && r.callers == s.callers + [Caller(tab, |s.gates|, Joined)])
      && r.refs == s.refs[tab := TabRef(r.callers[|s.callers|].gate, if tab in s.refs then s.refs[tab].refs + 1 else 1)]
  {
  }

  /** A waiter that wakes, or gives up, finds out whether it was handed the tab; an owner that unlocks has given it back. */
  lemma CallerDecides(s: Tabs, c: nat)
    requires Sound(s) && QueuedAt(s, c)
    ensures PhaseOf(s, c) == GP.Waiting ==>
      && var handed := s.callers[c].stage.ticket !in s.gates[s.callers[c].gate].sys.gate.pending;
      && PhaseOf(Do(s, Wake(c)), c) == (if handed then GP.Owning else GP.Waiting)
      && PhaseOf(Do(s, GiveUp(c)), c) == (if handed then GP.Owning else GP.GaveUp)
    ensures PhaseOf(s, c) == GP.Owning ==> PhaseOf(Do(s, Unlock(c)), c) == GP.Released
  {
    assert Placed(s, c) && GateOk(s, s.callers[c].gate);
    var q, t := s.gates[s.callers[c].gate].sys, s.callers[c].stage.ticket;
    if PhaseOf(s, c) == GP.Waiting { GP.WaiterDecides(q, t); }
    if PhaseOf(s, c) == GP.Owning { GP.ReturnEnds(q, t); }
  }

  lemma SoundWithFewerRefs(s: Tabs, r: Tabs)
    requires Sound(s) && r.gates == s.gates && r.callers == s.callers
    requires forall x :: x in r.refs ==> x in s.refs && r.refs[x].gate == s.refs[x].gate
    ensures Sound(r)
  {
    forall g | 0 <= g < |r.gates| ensures GateOk(r, g) { assert GateOk(s, g); }
    forall c | 0 <= c < |r.callers| ensures Placed(r, c) { assert Placed(s, c); }
  }

  /** A second call keeps the books exactly when its tab has no queue at that moment. */
  lemma SecondCallOkIff(s: Tabs, c: nat)
    requires Ok(s) && CanCallAgain(s, c)
    ensures Ok(Do(s, LeaveAgain(c))) <==> s.callers[c].tab !in s.refs
  {
    var r := Do(s, LeaveAgain(c));
    var tab := s.callers[c].tab;
    StepSound(s, LeaveAgain(c));
    if tab in s.refs {
      assert CountOk(s, tab);
      if tab in r.refs {
        assert !CountOk(r, tab);
      } else {
        var d :| d in Members(s.callers, tab);
        assert !Listed(r, d);
      }
    }
  }

  /** The step is not a second call of a closure whose tab has a queue. */
  predicate Harmless(s: Tabs, step: Step) {
    step.LeaveAgain? && CanCallAgain(s, step.c) ==> s.callers[step.c].tab !in s.refs
  }

  predicate AllHarmless(s: Tabs, steps: seq<Step>)
    decreases |steps|
  {
    steps == [] || (Harmless(s, steps[0]) && AllHarmless(Do(s, steps[0]), steps[1..]))
  }

  lemma StepOk(s: Tabs, step: Step)
    requires Ok(s) && Harmless(s, step)
    ensures Ok(Do(s, step))
  {
    StepSound(s, step);
    match step
    case Enter(tab) => EnterCounted(s, tab);
    case Ask(c) =>
      if c < |s.callers| && s.callers[c].stage.Joined? {
        assert Placed(s, c);
        StageCounted(s, c, Do(s, step));
      }
    case Leave(c) => if QueuedAt(s, c) && PhaseOf(s, c) in {GP.Released, GP.GaveUp} { LeaveCounted(s, c); }
    case LeaveAgain(c) =>
    case _ => assert Do(s, step).callers == s.callers && Do(s, step).refs == s.refs; SameCounted(s, Do(s, step));
  }

  lemma SameCounted(s: Tabs, r: Tabs)
    requires Counted(s) && r.callers == s.callers && r.refs == s.refs
    ensures Counted(r)
  {
    forall c | 0 <= c < |r.callers| ensures Listed(r, c) { assert Listed(s, c); }
    forall x | x in r.refs ensures CountOk(r, x) { assert CountOk(s, x); }
  }

  lemma {:induction false} RunOk(s: Tabs, steps: seq<Step>)
    requires Ok(s) && AllHarmless(s, steps)
    ensures Ok(Run(s, steps))
    decreases |steps|
  {
    if steps != [] {
      StepOk(s, steps[0]);
      RunOk(Do(s, steps[0]), steps[1..]);
    }
  }

  // ---------------------------------------------------------------- the theorems

  /** A caller has the reservation of its tab from the moment the queue hands it over until it returns it. */
  ghost predicate Reserves(s: Tabs, c: nat, tab: string) {
    QueuedAt(s, c) && s.callers[c].tab == tab && Holds(s.gates[s.callers[c].gate].sys.gate, s.callers[c].stage.ticket)
  }

  /** At most one reservation per tab id, however often its queue was dropped and made again. */
  lemma OneReservationPerTab(steps: seq<Step>, tab: string, c: nat, d: nat)
    requires AllHarmless(EMPTY, steps)
    requires Reserves(Run(EMPTY, steps), c, tab) && Reserves(Run(EMPTY, steps), d, tab)
    ensures c == d
  {
    RunOk(EMPTY, steps);
    var s := Run(EMPTY, steps);
    assert Placed(s, c) && Placed(s, d) && Listed(s, c) && Listed(s, d);
    var q := s.gates[s.callers[c].gate];
    assert GateOk(s, s.callers[c].gate);
    assert |q.sys.gate.holders| <= 1;
    var i :| 0 <= i < |q.sys.gate.holders| && q.sys.gate.holders[i].ticket == s.callers[c].stage.ticket;
    var j :| 0 <= j < |q.sys.gate.holders| && q.sys.gate.holders[j].ticket == s.callers[d].stage.ticket;
    assert i == 0 && j == 0;
  }

  /** The reference count is the number of callers using the queue, and a queue is kept exactly while there is one. */
  lemma RefsCountUsers(steps: seq<Step>, tab: string)
    requires AllHarmless(EMPTY, steps)
    ensures var s := Run(EMPTY, steps);
      && (tab in s.refs <==> Members(s.callers, tab) != {})
      && (tab in s.refs ==> s.refs[tab].refs == |Members(s.callers, tab)|)
  {
    RunOk(EMPTY, steps);
    var s := Run(EMPTY, steps);
    if c :| c in Members(s.callers, tab) { assert Listed(s, c); }
    if tab in s.refs { assert CountOk(s, tab); }
  }

  /** A queue that leaves the registry has no holder and no waiter. */
  lemma DroppedQueueIsIdle(steps: seq<Step>, step: Step, tab: string)
    requires AllHarmless(EMPTY, steps) && Harmless(Run(EMPTY, steps), step)
    requires tab in Run(EMPTY, steps).refs && tab !in Do(Run(EMPTY, steps), step).refs
    ensures var s := Run(EMPTY, steps);
      var g := s.refs[tab].gate;
      && 0 <= g < |s.gates| && s.gates[g].sys.gate.holders == [] && s.gates[g].sys.gate.pending == map[]
  {
    RunOk(EMPTY, steps);
    StepOk(Run(EMPTY, steps), step);
    DropIsIdle(Run(EMPTY, steps), step, tab);
  }

  lemma DropIsIdle(s: Tabs, step: Step, tab: string)
    requires Ok(s) && Ok(Do(s, step)) && tab in s.refs && tab !in Do(s, step).refs
    ensures var g := s.refs[tab].gate;
      && 0 <= g < |s.gates| && s.gates[g].sys.gate.holders == [] && s.gates[g].sys.gate.pending == map[]
  {
    var r := Do(s, step);
    var g := s.refs[tab].gate;
    var q := s.gates[g];
    assert GateOk(s, g) && GateOk(r, g);
    forall t | 0 <= t < |q.sys.calls| ensures GP.At(q.sys, t) in {GP.Released, GP.GaveUp} {
      var c := q.owners[t];
      assert Placed(s, c) && Placed(r, c) && Listed(r, c);
    }
    IdleGate(q.sys);
  }

  lemma IdleGate(q: GP.System)
    requires GP.Safe(q)
    requires forall t :: 0 <= t < |q.calls| ==> GP.At(q, t) in {GP.Released, GP.GaveUp}
    ensures q.gate.holders == [] && q.gate.pending == map[]
  {
    forall t | 0 <= t < |q.calls| ensures !Holds(q.gate, t) && t !in q.gate.pending {
      assert GP.At(q, t) in {GP.Released, GP.GaveUp};
      assert GP.Accounted(q, t);
    }
    assert q.gate.holders != [] ==> Holds(q.gate, q.gate.holders[0].ticket);
    assert q.gate.pending.Keys == {};
  }

  // ---------------------------------------------------------------- what a second call can do

  /** Two callers have the reservation of one tab. */
  ghost predicate Doubled(s: Tabs, tab: string) {
    exists c, d :: c != d && Reserves(s, c, tab) && Reserves(s, d, tab)
  }

  /** No closure is called a second time. */
  predicate Once(steps: seq<Step>) {
    forall i :: 0 <= i < |steps| ==> !steps[i].LeaveAgain?
  }

  ghost predicate CanDouble(s: Tabs, tab: string) {
    exists more :: Once(more) && Doubled(Run(s, more), tab)
  }

  lemma {:induction false} OnceIsHarmless(s: Tabs, steps: seq<Step>)
    requires Once(steps)
    ensures AllHarmless(s, steps)
    decreases |steps|
  {
    if steps != [] { OnceIsHarmless(Do(s, steps[0]), steps[1..]); }
  }

  lemma {:induction false} RunSound(s: Tabs, steps: seq<Step>)
    requires Sound(s)
    ensures Sound(Run(s, steps))
    decreases |steps|
  {
    if steps != [] {
      StepSound(s, steps[0]);
      RunSound(Do(s, steps[0]), steps[1..]);
    }
  }

  /** Only caller c moved, on its own queue. */
  ghost predicate Apart(s: Tabs, r: Tabs, c: nat) {
    && c < |s.callers| == |r.callers| && |r.gates| == |s.gates|
    && r.callers[c].tab == s.callers[c].tab && r.callers[c].gate == s.callers[c].gate
    && (forall d :: 0 <= d < |s.callers| && d != c ==> r.callers[d] == s.callers[d])
    && (forall g :: 0 <= g < |s.gates| && g != s.callers[c].gate ==> r.gates[g] == s.gates[g])
  }

  /** However far a caller is, these steps take it out: ask, give up or own, return, hand back the reference. */
  function Exit(c: nat): seq<Step> { [Ask(c), GiveUp(c), Unlock(c), Leave(c)] }

  lemma ExitAsks(s: Tabs, c: nat)
    requires Sound(s) && c < |s.callers| && !s.callers[c].stage.Left?
    ensures var r := Do(s, Ask(c)); Apart(s, r, c) && QueuedAt(r, c) && r.refs == s.refs
  {
    assert Placed(s, c);
  }

  lemma ExitGivesUp(s: Tabs, c: nat)
    requires Sound(s) && QueuedAt(s, c)
    ensures var r := Do(s, GiveUp(c));
      Apart(s, r, c) && QueuedAt(r, c) && r.refs == s.refs && PhaseOf(r, c) != GP.Waiting
  {
    assert Placed(s, c);
    assert GateOk(s, s.callers[c].gate);
    var q, t := s.gates[s.callers[c].gate].sys, s.callers[c].stage.ticket;
    GP.FillIsAdmitPending(GP.SetPhase(q, t, GP.GaveUp).(gate := BridgeGate.Leave(q.gate, t)));
  }

  lemma ExitUnlocks(s: Tabs, c: nat)
    requires Sound(s) && QueuedAt(s, c) && PhaseOf(s, c) != GP.Waiting
    ensures var r := Do(s, Unlock(c));
      Apart(s, r, c) && QueuedAt(r, c) && r.refs == s.refs && PhaseOf(r, c) in {GP.Released, GP.GaveUp}
  {
    assert Placed(s, c);
    assert GateOk(s, s.callers[c].gate);
    var q, t := s.gates[s.callers[c].gate].sys, s.callers[c].stage.ticket;
    GP.FillIsAdmitPending(GP.SetPhase(q, t, GP.Released).(gate := GiveBack(q.gate, t)));
  }

  lemma ExitDecides(s: Tabs, c: nat)
    requires Sound(s) && c < |s.callers| && !s.callers[c].stage.Left?
    ensures var r := Run(s, [Ask(c), GiveUp(c)]);
      Sound(r) && Apart(s, r, c) && QueuedAt(r, c) && r.refs == s.refs && PhaseOf(r, c) != GP.Waiting
  {
    ExitAsks(s, c);
    var s1 := Do(s, Ask(c));
    StepSound(s, Ask(c));
    ExitGivesUp(s1, c);
    StepSound(s1, GiveUp(c));
    RunTwo(s, Ask(c), GiveUp(c));
  }

  lemma ExitFinishes(s: Tabs, c: nat)
    requires Sound(s) && QueuedAt(s, c) && PhaseOf(s, c) != GP.Waiting
    ensures var r := Run(s, [Unlock(c), Leave(c)]);
      Sound(r) && Apart(s, r, c) && r.callers[c].stage.Left? && r.refs == Untab(s.refs, s.callers[c].tab)
  {
    ExitUnlocks(s, c);
    var s1 := Do(s, Unlock(c));
    StepSound(s, Unlock(c));
    StepSound(s1, Leave(c));
    RunTwo(s, Unlock(c), Leave(c));
  }

  lemma ExitLeaves(s: Tabs, c: nat)
    requires Sound(s) && c < |s.callers| && !s.callers[c].stage.Left?
    ensures var r := Run(s, Exit(c));
      Sound(r) && Apart(s, r, c) && r.callers[c].stage.Left? && r.refs == Untab(s.refs, s.callers[c].tab)
  {
    ExitDecides(s, c);
    ExitFinishes(Run(s, [Ask(c), GiveUp(c)]), c);
    RunThen(s, [Ask(c), GiveUp(c)], [Unlock(c), Leave(c)]);
    assert Exit(c) == [Ask(c), GiveUp(c)] + [Unlock(c), Leave(c)];
  }

  lemma RunTwo(s: Tabs, a: Step, b: Step)
    ensures Run(s, [a, b]) == Do(Do(s, a), b)
  {
    assert [a, b][1..] == [b];
    assert Run(Do(s, a), [b]) == Run(Do(Do(s, a), b), []);
  }

  /** The references left cover the callers in `leaving`, all users of the tab. */
  ghost predicate Covers(s: Tabs, tab: string, leaving: set<nat>) {
    && (forall c :: c in leaving ==> c < |s.callers| && s.callers[c].tab == tab && !s.callers[c].stage.Left?)
    && (tab in s.refs <==> leaving != {})
    && (tab in s.refs ==> s.refs[tab].refs == |leaving|)
  }

  /** When those have left, the tab has no queue, though caller m still uses one. */
  lemma {:induction false} OthersLeave(s: Tabs, tab: string, leaving: set<nat>, m: nat) returns (steps: seq<Step>)
    requires Sound(s) && Covers(s, tab, leaving) && m < |s.callers| && m !in leaving
    ensures Once(steps)
    ensures var r := Run(s, steps); Sound(r) && tab !in r.refs && m < |r.callers| && r.callers[m] == s.callers[m]
    decreases |leaving|
  {
    if leaving == {} {
      steps := [];
    } else {
      var c :| c in leaving;
      ExitLeaves(s, c);
      var r := Run(s, Exit(c));
      assert |leaving - {c}| == |leaving| - 1;
      var rest := OthersLeave(r, tab, leaving - {c}, m);
      steps := Exit(c) + rest;
      RunThen(s, Exit(c), rest);
    }
  }

  /** A caller that finds no queue for its tab makes one and has the turn at once. */
  lemma FreshTurn(s: Tabs, tab: string)
    requires Sound(s) && tab !in s.refs
    ensures var r, n := Run(s, [Enter(tab), Ask(|s.callers|)]), |s.callers|;
      && Sound(r) && Reserves(r, n, tab) && PhaseOf(r, n) == GP.Owning && r.refs == s.refs[tab := TabRef(|s.gates|, 1)]
      && |r.callers| == n + 1 && r.callers[..n] == s.callers && r.callers[n].gate == |s.gates|
      && |r.gates| == |s.gates| + 1 && r.gates[..|s.gates|] == s.gates
  {
    var n := |s.callers|;
    var s1 := Do(s, Enter(tab));
    StepSound(s, Enter(tab));
    assert s1.callers[n] == Caller(tab, |s.gates|, Joined);
    var r := Do(s1, Ask(n));
    StepSound(s1, Ask(n));
    assert Drawn(GP.Start(1)).gate.holders == [Holder(0, "bridge")];
    assert r.gates[|s.gates|].sys.gate.holders[0].ticket == 0 == r.callers[n].stage.ticket;
    RunTwo(s, Enter(tab), Ask(n));
  }

  lemma StillReserves(s: Tabs, r: Tabs, c: nat, tab: string)
    requires Reserves(s, c, tab) && c < |r.callers| && r.callers[c] == s.callers[c]
    requires s.callers[c].gate < |r.gates| && r.gates[s.callers[c].gate] == s.gates[s.callers[c].gate]
    ensures Reserves(r, c, tab)
  {
  }

  /** A user of a tab whose queue is gone takes the next caller's queue away when it leaves. */
  lemma LatecomerLosesQueue(s: Tabs, tab: string, m: nat) returns (steps: seq<Step>)
    requires Sound(s) && tab !in s.refs
    requires m < |s.callers| && s.callers[m].tab == tab && !s.callers[m].stage.Left?
    ensures Once(steps)
    ensures var r := Run(s, steps); Sound(r) && tab !in r.refs && |r.callers| > |s.callers| && Reserves(r, |s.callers|, tab)
  {
    assert Placed(s, m);
    var a := |s.callers|;
    var first := [Enter(tab), Ask(a)];
    FreshTurn(s, tab);
    var s1 := Run(s, first);
    assert s1.callers[m] == s1.callers[..a][m] == s.callers[m];
    ExitLeaves(s1, m);
    StillReserves(s1, Run(s1, Exit(m)), a, tab);
    RunThen(s, first, Exit(m));
    steps := first + Exit(m);
  }

  lemma TwoFreshTurns(s: Tabs, tab: string, m: nat)
    requires Sound(s) && tab !in s.refs
    requires m < |s.callers| && s.callers[m].tab == tab && !s.callers[m].stage.Left?
    ensures CanDouble(s, tab)
  {
    var a := |s.callers|;
    var steps := LatecomerLosesQueue(s, tab, m);
    var s2 := Run(s, steps);
    var second := [Enter(tab), Ask(|s2.callers|)];
    FreshTurn(s2, tab);
    var s3 := Run(s2, second);
    assert s3.callers[a] == s3.callers[..|s2.callers|][a] == s2.callers[a];
    var g := s2.callers[a].gate;
    assert s3.gates[g] == s3.gates[..|s2.gates|][g] == s2.gates[g];
    StillReserves(s2, s3, a, tab);
    RunThen(s, steps, second);
    assert Once(steps + second) && Doubled(Run(s, steps + second), tab);
  }

  lemma LiveSecondCallDoubles(s: Tabs, c: nat)
    requires Ok(s) && CanCallAgain(s, c) && s.callers[c].tab in s.refs
    ensures CanDouble(Do(s, LeaveAgain(c)), s.callers[c].tab)
  {
    var tab := s.callers[c].tab;
    var r := Do(s, LeaveAgain(c));
    StepSound(s, LeaveAgain(c));
    assert CountOk(s, tab);
    var users := Members(s.callers, tab);
    var m :| m in users;
    assert |users - {m}| == |users| - 1;
    var steps := OthersLeave(r, tab, users - {m}, m);
    var r1 := Run(r, steps);
    TwoFreshTurns(r1, tab, m);
    var more :| Once(more) && Doubled(Run(r1, more), tab);
    RunThen(r, steps, more);
    assert Once(steps + more) && Doubled(Run(r, steps + more), tab);
  }

  lemma {:induction false} HarmlessThen(s: Tabs, a: seq<Step>, b: seq<Step>)
    requires AllHarmless(s, a) && AllHarmless(Run(s, a), b)
    ensures AllHarmless(s, a + b)
    decreases |a|
  {
    if a == [] {
      assert a + b == b;
    } else {
      assert (a + b)[1..] == a[1..] + b;
      HarmlessThen(Do(s, a[0]), a[1..], b);
    }
  }

  /**
   The closure is not guarded against a second call. From any state of any run whose second calls so far were
   harmless, one more call can lead to two reservations of its tab, with no further second call, exactly when the
   tab has a queue at that moment.
   */
  lemma SecondCallDoublesIff(steps: seq<Step>, c: nat)
    requires AllHarmless(EMPTY, steps) && CanCallAgain(Run(EMPTY, steps), c)
    ensures var s := Run(EMPTY, steps);
      CanDouble(Do(s, LeaveAgain(c)), s.callers[c].tab) <==> s.callers[c].tab in s.refs
  {
    RunOk(EMPTY, steps);
    var s := Run(EMPTY, steps);
    var tab := s.callers[c].tab;
    if tab in s.refs {
      LiveSecondCallDoubles(s, c);
    } else if CanDouble(Do(s, LeaveAgain(c)), tab) {
      assert Do(s, LeaveAgain(c)) == s;
      var more :| Once(more) && Doubled(Run(s, more), tab);
      OnceIsHarmless(s, more);
      HarmlessThen(EMPTY, steps, more);
      RunThen(EMPTY, steps, more);
      var a, b :| a != b && Reserves(Run(s, more), a, tab) && Reserves(Run(s, more), b, tab);
      OneReservationPerTab(steps + more, tab, a, b);
    }
  }

  /** The state is within reach: a caller has finished, and another uses its tab. */
  lemma LiveSecondCallWithinReach(tab: string) returns (first: seq<Step>)
    ensures Once(first)
    ensures var s := Run(EMPTY, first); CanCallAgain(s, 0) && s.callers[0].tab == tab && tab in s.refs
  {
    FreshTurn(EMPTY, tab);
    var s1 := Run(EMPTY, [Enter(tab), Ask(0)]);
    OnlyCallerLeaves(s1, tab);
    var s3 := Do(Do(s1, Unlock(0)), Leave(0));
    RunThen(EMPTY, [Enter(tab), Ask(0)], [Unlock(0), Leave(0)] + [Enter(tab)]);
    RunThen(s1, [Unlock(0), Leave(0)], [Enter(tab)]);
    RunTwo(s1, Unlock(0), Leave(0));
    assert Run(s3, [Enter(tab)]) == Run(Do(s3, Enter(tab)), []);
    first := [Enter(tab), Ask(0)] + ([Unlock(0), Leave(0)] + [Enter(tab)]);
  }

  lemma ReleasingTwiceBreaksIt(tab: string)
    ensures exists steps :: Doubled(Run(EMPTY, steps), tab)
  {
    var first := LiveSecondCallWithinReach(tab);
    var s := Run(EMPTY, first);
    OnceIsHarmless(EMPTY, first);
    SecondCallDoublesIff(first, 0);
    var more :| Once(more) && Doubled(Run(Do(s, LeaveAgain(0)), more), tab);
    assert ([LeaveAgain(0)] + more)[1..] == more;
    RunThen(EMPTY, first, [LeaveAgain(0)] + more);
    assert Run(EMPTY, first + ([LeaveAgain(0)] + more)) == Run(Do(s, LeaveAgain(0)), more);
  }

  lemma OnlyCallerLeaves(s1: Tabs, tab: string)
    requires Sound(s1) && |s1.callers| == 1 && Reserves(s1, 0, tab) && PhaseOf(s1, 0) == GP.Owning
    requires s1.refs == map[tab := TabRef(0, 1)]
    ensures var s4 := Do(Do(Do(s1, Unlock(0)), Leave(0)), Enter(tab));
      CanCallAgain(s4, 0) && s4.callers[0].tab == tab && tab in s4.refs
  {
    assert Placed(s1, 0);
    ExitUnlocks(s1, 0);
    var q, t := s1.gates[s1.callers[0].gate].sys, s1.callers[0].stage.ticket;
    GP.FillIsAdmitPending(GP.SetPhase(q, t, GP.Released).(gate := GiveBack(q.gate, t)));
    assert PhaseOf(Do(s1, Unlock(0)), 0) == GP.Released;
  }

  lemma {:induction false} RunThen(s: Tabs, a: seq<Step>, b: seq<Step>)
    ensures Run(s, a + b) == Run(Run(s, a), b)
    decreases |a|
  {
    if a == [] {
      assert a + b == b;
    } else {
      assert (a + b)[1..] == a[1..] + b;
      RunThen(Do(s, a[0]), a[1..], b);
    }
  }
}
