/**
 Which asking policies deadlock. A policy says which turn a context may ask for while it holds which other; the rule
 of internal/bridge/bridge.go:44-73 (the global turn first, then one tab) is one of them. A policy can deadlock exactly
 when it lets turns be asked for in a circle.
 */
module LockOrder {
  import opened Options
  import opened BridgeGate
  import opened CallRouting
  import opened TurnNet
  import GP = GateProtocol

  /** may(x, y): a context that holds x may ask for y. */
  type Policy = (Turn, Turn) -> bool

  predicate Asks(s: Net, step: Step) {
    step.Ask? && step.p < |s.procs| && s.procs[step.p].todo != [] && s.procs[step.p].want == None
  }

  predicate MayAll(may: Policy, held: seq<Hold>, turn: Turn) {
    forall i :: 0 <= i < |held| ==> may(held[i].turn, turn)
  }

  predicate Obeys(may: Policy, s: Net, step: Step) {
    Asks(s, step) ==> MayAll(may, s.procs[step.p].held, s.procs[step.p].todo[0])
  }

  predicate AllObey(may: Policy, s: Net, steps: seq<Step>)
    decreases |steps|
  {
    steps == [] || (Obeys(may, s, steps[0]) && AllObey(may, Do(s, steps[0]), steps[1..]))
  }

  lemma {:induction false} ObeyThen(may: Policy, s: Net, a: seq<Step>, b: seq<Step>)
    requires AllObey(may, s, a) && AllObey(may, Run(s, a), b)
    ensures AllObey(may, s, a + b)
    decreases |a|
  {
    if a == [] {
      assert a + b == b;
    } else {
      assert (a + b)[1..] == a[1..] + b;
      ObeyThen(may, Do(s, a[0]), a[1..], b);
    }
  }

  // ---------------------------------------------------------------- paths and cycles of a policy

  /** The tab "" stands for the active tab, which is never reserved. */
  predicate Real(turn: Turn) { turn != Tab("") }

  predicate Edge(may: Policy, x: Turn, y: Turn) { x != y && may(x, y) && Real(x) && Real(y) }

  predicate Path(may: Policy, xs: seq<Turn>) {
    xs != [] && forall i :: 0 <= i < |xs| - 1 ==> Edge(may, xs[i], xs[i + 1])
  }

  predicate Closed(may: Policy, xs: seq<Turn>) {
    |xs| >= 2 && Path(may, xs) && xs[0] == xs[|xs| - 1]
  }

  function Next(xs: seq<Turn>, i: nat): Turn
    requires i < |xs|
  {
    if i + 1 < |xs| then xs[i + 1] else xs[0]
  }

  /** Different turns, each of which may be asked for while the one before it is held, the first after the last. */
  predicate Cycle(may: Policy, xs: seq<Turn>) {
    && |xs| >= 2
    && (forall i, j :: 0 <= i < j < |xs| ==> xs[i] != xs[j])
    && (forall i :: 0 <= i < |xs| ==> Edge(may, xs[i], Next(xs, i)))
  }

  ghost predicate Cyclic(may: Policy) { exists xs :: Cycle(may, xs) }

  predicate DistinctTurns(xs: seq<Turn>) {
    forall i, j :: 0 <= i < j < |xs| ==> xs[i] != xs[j]
  }

  /** A closed path has a cycle in it: cut it short at any turn it visits twice. */
  lemma {:induction false} ClosedHasCycle(may: Policy, xs: seq<Turn>)
    requires Closed(may, xs)
    ensures Cyclic(may)
    decreases |xs|
  {
    var round := xs[..|xs| - 1];
    if DistinctTurns(round) {
      assert Edge(may, xs[0], xs[1]);
      forall i | 0 <= i < |round| ensures Edge(may, round[i], Next(round, i)) { assert Edge(may, xs[i], xs[i + 1]); }
      assert Cycle(may, round);
    } else {
      var i, j :| 0 <= i < j < |round| && round[i] == round[j];
      var shorter := xs[i..j + 1];
      assert Edge(may, xs[i], xs[i + 1]);
      forall k | 0 <= k < |shorter| - 1 ensures Edge(may, shorter[k], shorter[k + 1]) {
        assert Edge(may, xs[i + k], xs[i + k + 1]);
      }
      ClosedHasCycle(may, shorter);
    }
  }

  // ---------------------------------------------------------------- what an obedient run keeps

  predicate HeldInOrder(may: Policy, held: seq<Hold>) {
    && (forall i :: 0 <= i < |held| ==> Real(held[i].turn))
    && (forall i, j :: 0 <= i < j < |held| ==> may(held[i].turn, held[j].turn))
  }

  /** Neither the active tab nor the tab the context reserved last. */
  predicate Fresh(held: seq<Hold>, turn: Turn) {
    Real(turn) && (turn.Tab? ==> turn.id != LastTab(held))
  }

  predicate ProcObedient(may: Policy, me: Proc) {
    && HeldInOrder(may, me.held)
    && (forall turn :: turn in me.todo ==> Fresh(me.held, turn))
    && (me.want.Some? ==> Fresh(me.held, me.want.value.turn) && MayAll(may, me.held, me.want.value.turn))
  }

  ghost predicate Obedient(may: Policy, s: Net) {
    forall p :: 0 <= p < |s.procs| ==> ProcObedient(may, s.procs[p])
  }

  lemma LastTabPush(held: seq<Hold>, h: Hold)
    ensures LastTab(held + [h]) == if h.turn.Tab? then h.turn.id else LastTab(held)
  {
    assert (held + [h])[..|held|] == held;
  }

  lemma LastTabIsHeld(held: seq<Hold>, i: nat)
    requires i < |held| && held[i].turn.Tab?
    ensures exists j :: i <= j < |held| && held[j].turn == Tab(LastTab(held))
  {
    if !held[|held| - 1].turn.Tab? { LastTabIsHeld(held[..|held| - 1], i); }
  }

  lemma SettleObedient(may: Policy, s: Net, p: nat)
    requires p < |s.procs| && s.procs[p].want.Some? && ProcObedient(may, s.procs[p]) && ProcRouted(s.procs[p])
    ensures ProcObedient(may, Settle(s, p).procs[p])
  {
    var me := s.procs[p];
    LastTabPush(me.held, me.want.value);
  }

  lemma DropObedient(may: Policy, me: Proc)
    requires ProcObedient(may, me) && Idle(me) && me.held != []
    ensures ProcObedient(may, me.(held := me.held[..|me.held| - 1]))
  {
  }

  lemma MoverObedient(may: Policy, s: Net, step: Step)
    requires Routed(s) && Obedient(may, s) && Obeys(may, s, step) && 0 <= Mover(step) < |s.procs|
    ensures ProcObedient(may, Do(s, step).procs[Mover(step)])
  {
    var p := Mover(step);
    var me := s.procs[p];
    assert ProcObedient(may, me) && ProcRouted(me);
    match step
    case Call(_, action, params, cfg) => GlobalBeforeTab(ContextOf(me), action, params, cfg);
    case Wake(_) =>
      if me.want.Some? { SettleObedient(may, MoveGate(s, me.want.value.turn, GP.Wake(me.want.value.ticket)), p); }
    case GiveUp(_) =>
      if me.want.Some? { SettleObedient(may, MoveGate(s, me.want.value.turn, GP.GiveUp(me.want.value.ticket)), p); }
    case Drop(_) => if Idle(me) && me.held != [] { DropObedient(may, me); }
    case _ =>
  }

  lemma StepObedient(may: Policy, s: Net, step: Step)
    requires Routed(s) && Obedient(may, s) && Obeys(may, s, step)
    ensures Obedient(may, Do(s, step))
  {
    OthersStay(s, step);
    if 0 <= Mover(step) < |s.procs| { MoverObedient(may, s, step); }
  }

  lemma {:induction false} RunObedient(may: Policy, s: Net, steps: seq<Step>)
    requires Routed(s) && Obedient(may, s) && AllObey(may, s, steps)
    ensures Obedient(may, Run(s, steps)) && Routed(Run(s, steps))
    decreases |steps|
  {
    if steps != [] {
      StepRouted(s, steps[0]);
      StepObedient(may, s, steps[0]);
      RunObedient(may, Do(s, steps[0]), steps[1..]);
    }
  }

  // ---------------------------------------------------------------- a deadlock shows a cycle

  function Wanted(s: Net, p: nat): Turn
    requires p < |s.procs| && s.procs[p].want.Some?
  {
    s.procs[p].want.value.turn
  }

  /** From the turn p queues for to the one q queues for: nothing but the same line, or a path of the policy. */
  lemma Hop(may: Policy, s: Net, p: nat, q: nat) returns (xs: seq<Turn>)
    requires Routed(s) && Obedient(may, s) && WaitsFor(s, p, q) && Blocked(s, q)
    ensures Path(may, xs) && xs[0] == Wanted(s, p) && xs[|xs| - 1] == Wanted(s, q)
    ensures |xs| == 1 ==> s.procs[q].want.value.ticket < s.procs[p].want.value.ticket
  {
    var w, v, held := Wanted(s, p), Wanted(s, q), s.procs[q].held;
    assert ProcObedient(may, s.procs[p]) && ProcObedient(may, s.procs[q]) && ProcRouted(s.procs[q]);
    if HoldsTurn(held, w) {
      var i :| 0 <= i < |held| && held[i].turn == w;
      if w == v {
        LastTabIsHeld(held, i);
        var j :| i <= j < |held| && held[j].turn == Tab(LastTab(held));
        xs := [w, held[j].turn, w];
      } else {
        xs := [w, v];
      }
    } else {
      assert w in s.gates ==> Inv(s.gates[w].gate);
      xs := [w];
    }
  }

  lemma PathJoin(may: Policy, xs: seq<Turn>, ys: seq<Turn>)
    requires Path(may, xs) && Path(may, ys) && xs[|xs| - 1] == ys[0]
    ensures Path(may, xs + ys[1..])
  {
    var zs := xs + ys[1..];
    forall i | 0 <= i < |zs| - 1 ensures Edge(may, zs[i], zs[i + 1]) {
      if i < |xs| - 1 {
        assert Edge(may, xs[i], xs[i + 1]);
      } else {
        assert Edge(may, ys[i - |xs| + 1], ys[i - |xs| + 2]);
      }
    }
  }

  lemma {:induction false} ChainPath(may: Policy, s: Net, ps: seq<nat>) returns (xs: seq<Turn>)
    requires Routed(s) && Obedient(may, s) && ps != [] && Chain(s, ps)
    requires forall i :: 0 <= i < |ps| ==> Blocked(s, ps[i])
    ensures Blocked(s, ps[0]) && Blocked(s, ps[|ps| - 1])
    ensures Path(may, xs) && xs[0] == Wanted(s, ps[0]) && xs[|xs| - 1] == Wanted(s, ps[|ps| - 1])
    ensures |xs| == 1 ==>
      |ps| == 1 || s.procs[ps[|ps| - 1]].want.value.ticket < s.procs[ps[0]].want.value.ticket
    decreases |ps|
  {
    if |ps| == 1 {
      xs := [Wanted(s, ps[0])];
    } else {
      assert WaitsFor(s, ps[0], ps[1]);
      var hop := Hop(may, s, ps[0], ps[1]);
      assert Chain(s, ps[1..]) by {
        forall i | 0 <= i < |ps[1..]| - 1 ensures WaitsFor(s, ps[1..][i], ps[1..][i + 1]) {
          assert WaitsFor(s, ps[i + 1], ps[i + 2]);
        }
      }
      var rest := ChainPath(may, s, ps[1..]);
      PathJoin(may, hop, rest);
      xs := hop + rest[1..];
    }
  }

  lemma DeadlockShowsCycle(may: Policy, steps: seq<Step>, ps: seq<nat>)
    requires AllObey(may, EMPTY, steps) && Deadlock(Run(EMPTY, steps), ps)
    ensures Cyclic(may)
  {
    RunObedient(may, EMPTY, steps);
    var s := Run(EMPTY, steps);
    forall i | 0 <= i < |ps| ensures Blocked(s, ps[i]) {
      if i < |ps| - 1 { assert WaitsFor(s, ps[i], ps[i + 1]); } else { assert WaitsFor(s, ps[0], ps[1]); }
    }
    var xs := ChainPath(may, s, ps);
    ClosedHasCycle(may, xs);
  }

  // ---------------------------------------------------------------- a cycle makes a deadlock

  const HELD_GATE: GP.System := GP.System(State(1, 1, 1, [Holder(0, "bridge")], map[]), [GP.Owning], [0], 1)
  const QUEUED_GATE: GP.System :=
    GP.System(State(1, 1, 2, [Holder(0, "bridge")], map[1 := "bridge"]), [GP.Owning, GP.Waiting], [0], 1)

  function Holds1(turn: Turn): seq<Hold> { [Hold(turn, 0)] }

  /** Process i holds turn i, for the first k of them, and nothing else happened. */
  ghost predicate Taken(s: Net, xs: seq<Turn>, k: nat) {
    && |s.procs| == k <= |xs|
    && (forall i :: 0 <= i < k ==> s.procs[i] == Proc(Holds1(xs[i]), [], None))
    && (forall i :: 0 <= i < k ==> GateOf(s, xs[i]) == HELD_GATE)
    && (forall turn :: turn in s.gates ==> turn in xs[..k])
  }

  function TakeSteps(k: nat, turn: Turn): seq<Step> { [Spawn, Reserve(k, turn), Ask(k), Wake(k)] }

  lemma EnterFree()
    ensures GP.Do(GP.Start(1), GP.Enter("bridge")) == HELD_GATE
    ensures GP.Do(HELD_GATE, GP.Enter("bridge")) == QUEUED_GATE
    ensures GP.Do(HELD_GATE, GP.Wake(0)) == HELD_GATE
  {
    assert [GP.Owning] + [GP.Waiting] == [GP.Owning, GP.Waiting];
  }

  /** A new process reserves a turn nobody uses. */
  lemma TakeNew(s: Net, turn: Turn)
    requires Real(turn) && turn !in s.gates
    ensures var k := |s.procs|;
      DoFour(s, Spawn, Reserve(k, turn), Ask(k), Wake(k))
      == Net(s.gates[turn := HELD_GATE], s.procs + [Proc(Holds1(turn), [], None)])
  {
    EnterFree();
    var k := |s.procs|;
    var s1 := Do(s, Spawn);
    var s2 := Do(s1, Reserve(k, turn));
    assert s2.procs == s.procs + [Proc([], [turn], None)];
    var s3 := Do(s2, Ask(k));
    assert [turn][1..] == [];
    assert s3.procs == s.procs + [Proc([], [], Some(Hold(turn, 0)))];
    assert s3.gates == s.gates[turn := HELD_GATE];
    var s4 := Do(s3, Wake(k));
    assert [] + [Hold(turn, 0)] == Holds1(turn);
    assert s4.procs == s.procs + [Proc(Holds1(turn), [], None)];
    assert s4.gates == s.gates[turn := HELD_GATE];
  }

  function DoFour(s: Net, a: Step, b: Step, c: Step, d: Step): Net {
    Do(Do(Do(Do(s, a), b), c), d)
  }

  lemma RunFour(s: Net, a: Step, b: Step, c: Step, d: Step)
    ensures Run(s, [a, b, c, d]) == DoFour(s, a, b, c, d)
  {
    RunTwo(s, a, b);
    RunTwo(Do(Do(s, a), b), c, d);
    RunThen(s, [a, b], [c, d]);
    assert [a, b, c, d] == [a, b] + [c, d];
  }

  lemma TakeObeys(may: Policy, s: Net, turn: Turn)
    requires Real(turn)
    ensures AllObey(may, s, TakeSteps(|s.procs|, turn))
  {
    var k := |s.procs|;
    var s1 := Do(s, Spawn);
    var s2 := Do(s1, Reserve(k, turn));
    assert s2.procs[k].held == [];
    var s3 := Do(s2, Ask(k));
    var steps := TakeSteps(k, turn);
    assert steps[1..] == [Reserve(k, turn), Ask(k), Wake(k)];
    assert steps[1..][1..] == [Ask(k), Wake(k)];
    assert steps[1..][1..][1..] == [Wake(k)];
    assert steps[1..][1..][1..][1..] == [];
    assert AllObey(may, s3, [Wake(k)]);
  }

  lemma {:induction false} TakeAll(may: Policy, xs: seq<Turn>, k: nat) returns (steps: seq<Step>)
    requires k <= |xs| && DistinctTurns(xs) && forall i :: 0 <= i < |xs| ==> Real(xs[i])
    ensures AllObey(may, EMPTY, steps) && Taken(Run(EMPTY, steps), xs, k)
  {
    if k == 0 {
      steps := [];
    } else {
      var before := TakeAll(may, xs, k - 1);
      var s := Run(EMPTY, before);
      var turn := xs[k - 1];
      TakeNew(s, turn);
      TakeObeys(may, s, turn);
      RunFour(s, Spawn, Reserve(k - 1, turn), Ask(k - 1), Wake(k - 1));
      RunThen(EMPTY, before, TakeSteps(k - 1, turn));
      ObeyThen(may, EMPTY, before, TakeSteps(k - 1, turn));
      steps := before + TakeSteps(k - 1, turn);
      TakenNext(s, xs, k - 1);
    }
  }

  lemma TakenNext(s: Net, xs: seq<Turn>, k: nat)
    requires k < |xs| && DistinctTurns(xs) && Taken(s, xs, k)
    ensures Taken(Net(s.gates[xs[k] := HELD_GATE], s.procs + [Proc(Holds1(xs[k]), [], None)]), xs, k + 1)
  {
    assert xs[..k + 1] == xs[..k] + [xs[k]];
  }

  /** Processes 0 to k-1 also queue for the next turn round the cycle. */
  ghost predicate Asked(s: Net, xs: seq<Turn>, k: nat) {
    && |s.procs| == |xs| && k <= |xs|
    && (forall i :: 0 <= i < |xs| ==>
          s.procs[i] == Proc(Holds1(xs[i]), [], if i < k then Some(Hold(Next(xs, i), 1)) else None))
    && (forall i :: 0 <= i < |xs| ==> GateOf(s, Next(xs, i)) == if i < k then QUEUED_GATE else HELD_GATE)
  }

  lemma TakenIsAsked(s: Net, xs: seq<Turn>)
    requires Taken(s, xs, |xs|)
    ensures Asked(s, xs, 0)
  {
    forall i | 0 <= i < |xs| ensures GateOf(s, Next(xs, i)) == HELD_GATE {
      if i + 1 < |xs| { assert Next(xs, i) == xs[i + 1]; } else { assert Next(xs, i) == xs[0]; }
    }
  }

  /** A process that holds one turn asks for another that is taken. */
  lemma AskTaken(s: Net, p: nat, x: Turn, y: Turn)
    requires p < |s.procs| && s.procs[p] == Proc(Holds1(x), [], None)
    requires x != y && Real(y) && GateOf(s, y) == HELD_GATE
    ensures Do(Do(s, Reserve(p, y)), Ask(p))
            == Net(s.gates[y := QUEUED_GATE], s.procs[p := Proc(Holds1(x), [], Some(Hold(y, 1)))])
    ensures Do(s, Reserve(p, y)).procs[p] == Proc(Holds1(x), [y], None)
  {
    EnterFree();
    var held := Holds1(x);
    assert HoldsTurn(held, Global) <==> x == Global by { assert held[0].turn == x; }
    assert LastTab(held) == if x.Tab? then x.id else "" by { LastTabPush([], held[0]); assert [] + [held[0]] == held; }
    var s1 := Do(s, Reserve(p, y));
    assert s1 == s.(procs := s.procs[p := Proc(held, [y], None)]);
    var s2 := Do(s1, Ask(p));
    assert [y][1..] == [];
    assert s2.procs == s.procs[p := Proc(held, [], Some(Hold(y, 1)))];
    assert s2.gates == s.gates[y := QUEUED_GATE];
  }

  lemma AskObeys(may: Policy, s: Net, p: nat, x: Turn, y: Turn)
    requires p < |s.procs| && s.procs[p] == Proc(Holds1(x), [], None) && may(x, y)
    requires Do(s, Reserve(p, y)).procs[p] == Proc(Holds1(x), [y], None)
    ensures AllObey(may, s, [Reserve(p, y), Ask(p)])
  {
    var steps := [Reserve(p, y), Ask(p)];
    assert steps[1..] == [Ask(p)];
    assert steps[1..][1..] == [];
    assert AllObey(may, Do(s, Reserve(p, y)), [Ask(p)]);
  }

  lemma AskedNext(s: Net, xs: seq<Turn>, k: nat)
    requires k < |xs| && DistinctTurns(xs) && Asked(s, xs, k)
    ensures var me := Proc(Holds1(xs[k]), [], Some(Hold(Next(xs, k), 1)));
      Asked(Net(s.gates[Next(xs, k) := QUEUED_GATE], s.procs[k := me]), xs, k + 1)
  {
    var me := Proc(Holds1(xs[k]), [], Some(Hold(Next(xs, k), 1)));
    var r := Net(s.gates[Next(xs, k) := QUEUED_GATE], s.procs[k := me]);
    forall i | 0 <= i < |xs| ensures GateOf(r, Next(xs, i)) == if i < k + 1 then QUEUED_GATE else HELD_GATE {
      assert GateOf(s, Next(xs, i)) == if i < k then QUEUED_GATE else HELD_GATE;
      if i != k { NextDiffers(xs, i, k); }
    }
  }

  lemma NextDiffers(xs: seq<Turn>, i: nat, j: nat)
    requires i < |xs| && j < |xs| && i != j && DistinctTurns(xs)
    ensures Next(xs, i) != Next(xs, j)
  {
  }

  function AskSteps(p: nat, y: Turn): seq<Step> { [Reserve(p, y), Ask(p)] }

  lemma AskOne(may: Policy, s: Net, xs: seq<Turn>, k: nat)
    requires Cycle(may, xs) && k < |xs| && Asked(s, xs, k)
    ensures var steps := AskSteps(k, Next(xs, k)); AllObey(may, s, steps) && Asked(Run(s, steps), xs, k + 1)
  {
    var x, y := xs[k], Next(xs, k);
    assert Edge(may, x, y);
    assert GateOf(s, y) == HELD_GATE;
    AskTaken(s, k, x, y);
    AskObeys(may, s, k, x, y);
    RunTwo(s, Reserve(k, y), Ask(k));
    AskedNext(s, xs, k);
  }

  lemma {:induction false} AskAll(may: Policy, xs: seq<Turn>, k: nat) returns (steps: seq<Step>)
    requires Cycle(may, xs) && k <= |xs|
    ensures AllObey(may, EMPTY, steps) && Asked(Run(EMPTY, steps), xs, k)
  {
    if k == 0 {
      forall i | 0 <= i < |xs| ensures Real(xs[i]) { assert Edge(may, xs[i], Next(xs, i)); }
      steps := TakeAll(may, xs, |xs|);
      TakenIsAsked(Run(EMPTY, steps), xs);
    } else {
      var before := AskAll(may, xs, k - 1);
      var last := AskSteps(k - 1, Next(xs, k - 1));
      AskOne(may, Run(EMPTY, before), xs, k - 1);
      RunThen(EMPTY, before, last);
      ObeyThen(may, EMPTY, before, last);
      steps := before + last;
    }
  }

  function Round(n: nat): seq<nat>
    requires n >= 1
  {
    seq(n + 1, i requires 0 <= i <= n => if i < n then i else 0)
  }

  lemma AllAskedDeadlocks(s: Net, xs: seq<Turn>)
    requires |xs| >= 2 && Asked(s, xs, |xs|)
    ensures Deadlock(s, Round(|xs|))
  {
    var ps := Round(|xs|);
    forall i | 0 <= i < |ps| - 1 ensures WaitsFor(s, ps[i], ps[i + 1]) {
      assert GateOf(s, Next(xs, i)) == QUEUED_GATE;
      assert s.procs[ps[i + 1]].held[0].turn == Next(xs, i);
    }
  }

  lemma CycleDeadlocks(may: Policy, xs: seq<Turn>) returns (steps: seq<Step>)
    requires Cycle(may, xs)
    ensures AllObey(may, EMPTY, steps) && Deadlock(Run(EMPTY, steps), Round(|xs|))
  {
    steps := AskAll(may, xs, |xs|);
    AllAskedDeadlocks(Run(EMPTY, steps), xs);
  }

  // ---------------------------------------------------------------- the theorems

  ghost predicate CanDeadlock(may: Policy) {
    exists steps, ps :: AllObey(may, EMPTY, steps) && Deadlock(Run(EMPTY, steps), ps)
  }

  /** A policy has a run that obeys it and deadlocks exactly when it has a cycle. */
  lemma DeadlocksIffCyclic(may: Policy)
    ensures CanDeadlock(may) <==> Cyclic(may)
  {
    if CanDeadlock(may) {
      var steps, ps :| AllObey(may, EMPTY, steps) && Deadlock(Run(EMPTY, steps), ps);
      DeadlockShowsCycle(may, steps, ps);
    }
    if Cyclic(may) {
      var xs :| Cycle(may, xs);
      var steps := CycleDeadlocks(may, xs);
      assert AllObey(may, EMPTY, steps) && Deadlock(Run(EMPTY, steps), Round(|xs|));
    }
  }

  ghost predicate RanksUp(may: Policy, rank: Turn -> int) {
    forall x, y :: may(x, y) ==> rank(x) < rank(y)
  }

  lemma {:induction false} PathRanks(may: Policy, rank: Turn -> int, xs: seq<Turn>, k: nat)
    requires RanksUp(may, rank) && Path(may, xs) && 0 < k < |xs|
    ensures rank(xs[0]) < rank(xs[k])
  {
    assert Edge(may, xs[k - 1], xs[k]);
    assert may(xs[k - 1], xs[k]);
    if k > 1 { PathRanks(may, rank, xs, k - 1); }
  }

  /** Callers that ask for turns in one fixed order, whatever it is, never deadlock. */
  lemma RankedNeverDeadlocks(may: Policy, rank: Turn -> int)
    requires RanksUp(may, rank)
    ensures !CanDeadlock(may)
  {
    DeadlocksIffCyclic(may);
    if Cyclic(may) {
      var xs :| Cycle(may, xs);
      var last := |xs| - 1;
      forall i | 0 <= i < last ensures Edge(may, xs[i], xs[i + 1]) { assert Edge(may, xs[i], Next(xs, i)); }
      assert Edge(may, xs[last], Next(xs, last));
      assert may(xs[last], xs[0]);
      PathRanks(may, rank, xs, last);
    }
  }

  /** Two turns that may be asked for in either order are enough for a deadlock. */
  lemma InvertedPairDeadlocks(may: Policy, x: Turn, y: Turn)
    requires x != y && Real(x) && Real(y) && may(x, y) && may(y, x)
    ensures CanDeadlock(may)
  {
    assert Cycle(may, [x, y]);
    DeadlocksIffCyclic(may);
  }

  // ---------------------------------------------------------------- two policies of the program

  /** The global turn first, then one tab. */
  function GlobalThenTab(): Policy { (x: Turn, y: Turn) => x.Global? && y.Tab? }

  function TabsLast(): Turn -> int { (x: Turn) => if x.Global? then 0 else 1 }

  lemma {:induction false} DisciplinedObeys(s: Net, steps: seq<Step>)
    requires Routed(s) && TabLast(s) && AllDisciplined(s, steps)
    ensures AllObey(GlobalThenTab(), s, steps)
    decreases |steps|
  {
    if steps != [] {
      if Asks(s, steps[0]) {
        var me := s.procs[steps[0].p];
        assert ProcRouted(me) && !HoldsTab(me.held);
        forall i | 0 <= i < |me.held| ensures GlobalThenTab()(me.held[i].turn, me.todo[0]) {
          assert me.held[i].turn.Global?;
        }
      }
      StepRouted(s, steps[0]);
      StepTabLast(s, steps[0]);
      DisciplinedObeys(Do(s, steps[0]), steps[1..]);
    }
  }

  /** If contexts that hold a tab keep to calls that need no further turn, no interleaving deadlocks. */
  lemma DisciplineAvoidsDeadlock(steps: seq<Step>, ps: seq<nat>)
    requires AllDisciplined(EMPTY, steps)
    ensures !Deadlock(Run(EMPTY, steps), ps)
  {
    DisciplinedObeys(EMPTY, steps);
    RankedNeverDeadlocks(GlobalThenTab(), TabsLast());
  }

  /** Per-tab queues are switched off, and no tool reserves a tab. */
  predicate Serial(step: Step) {
    (step.Reserve? ==> step.turn.Global?) && (step.Call? ==> !step.cfg.tabParallel)
  }

  predicate ProcSerial(me: Proc) {
    && (forall i :: 0 <= i < |me.held| ==> me.held[i].turn.Global?)
    && (forall i :: 0 <= i < |me.todo| ==> me.todo[i].Global?)
    && (me.want.Some? ==> me.want.value.turn.Global?)
  }

  ghost predicate AllSerial(s: Net) {
    && (forall p :: 0 <= p < |s.procs| ==> ProcSerial(s.procs[p]))
    && (forall turn :: turn in s.gates ==> turn.Global?)
  }

  lemma MoverSerial(s: Net, step: Step)
    requires AllSerial(s) && Serial(step) && 0 <= Mover(step) < |s.procs|
    ensures ProcSerial(Do(s, step).procs[Mover(step)])
  {
    var me := s.procs[Mover(step)];
    assert ProcSerial(me);
    match step
    case Call(_, action, params, cfg) => SwitchedOff(ContextOf(me), action, params, cfg);
    case _ =>
  }

  lemma GatesSerial(s: Net, step: Step)
    requires AllSerial(s)
    ensures forall turn :: turn in Do(s, step).gates ==> turn.Global?
  {
    if 0 <= Mover(step) < |s.procs| { assert ProcSerial(s.procs[Mover(step)]); }
  }

  lemma GlobalIsHeld(held: seq<Hold>)
    requires held != [] && held[0].turn.Global?
    ensures HoldsTurn(held, Global)
  {
    assert held[0].turn == Global;
  }

  lemma SerialAsksFree(me: Proc)
    requires ProcRouted(me) && ProcSerial(me) && me.todo != []
    ensures me.held == []
  {
    assert me.todo[0] == Global;
    if me.held != [] { GlobalIsHeld(me.held); }
  }

  lemma {:induction false} SerialObeys(s: Net, steps: seq<Step>)
    requires Routed(s) && AllSerial(s) && forall i :: 0 <= i < |steps| ==> Serial(steps[i])
    ensures AllObey(Nothing(), s, steps) && AllSerial(Run(s, steps))
    decreases |steps|
  {
    if steps != [] {
      var step := steps[0];
      if Asks(s, step) {
        var me := s.procs[step.p];
        SerialAsksFree(me);
      }
      StepRouted(s, step);
      OthersStay(s, step);
      GatesSerial(s, step);
      if 0 <= Mover(step) < |s.procs| { MoverSerial(s, step); }
      SerialObeys(Do(s, step), steps[1..]);
    }
  }

  function Nothing(): Policy { (x: Turn, y: Turn) => false }

  /** With per-tab queues off, every turn any call asks for is the global one, and no interleaving deadlocks. */
  lemma SwitchedOffIsSerial(steps: seq<Step>, ps: seq<nat>)
    requires forall i :: 0 <= i < |steps| ==> Serial(steps[i])
    ensures forall turn :: turn in Run(EMPTY, steps).gates ==> turn == Global
    ensures !Deadlock(Run(EMPTY, steps), ps)
  {
    SerialObeys(EMPTY, steps);
    RankedNeverDeadlocks(Nothing(), TabsLast());
  }

  // ---------------------------------------------------------------- calls on different tabs

  /** Per-tab queues are on; every call opens a tab of its own or is addressed to one and needs no focus, and no tool
      reserves the whole browser. */
  predicate Addressed(step: Step) {
    && (step.Reserve? ==> step.turn.Tab?)
    && (step.Call? ==>
          && step.cfg.tabParallel
          && (OpensOwnTab(step.action, step.params) || (AddressedTab(step.params) != "" && !FocusBound(step.action))))
  }

  /** Nothing the process holds or asks for is the whole browser. */
  predicate ProcOnTabs(me: Proc) {
    && (forall i :: 0 <= i < |me.held| ==> me.held[i].turn.Tab?)
    && (forall i :: 0 <= i < |me.todo| ==> me.todo[i].Tab?)
    && (me.want.Some? ==> me.want.value.turn.Tab?)
  }

  predicate AllOnTabs(s: Net) {
    forall p :: 0 <= p < |s.procs| ==> ProcOnTabs(s.procs[p])
  }

  lemma MoverOnTabs(s: Net, step: Step)
    requires AllOnTabs(s) && Addressed(step) && 0 <= Mover(step) < |s.procs|
    ensures ProcOnTabs(Do(s, step).procs[Mover(step)])
  {
    var me := s.procs[Mover(step)];
    assert ProcOnTabs(me);
    match step
    case Call(_, action, params, cfg) =>
      if OpensOwnTab(action, params) {
        UnaddressedAsks(ContextOf(me), action, params, cfg);
      } else {
        AddressedAsks(ContextOf(me), action, params, cfg);
      }
    case _ =>
  }

  lemma {:induction false} RunOnTabs(s: Net, steps: seq<Step>)
    requires AllOnTabs(s) && forall i :: 0 <= i < |steps| ==> Addressed(steps[i])
    ensures AllOnTabs(Run(s, steps))
    decreases |steps|
  {
    if steps != [] {
      OthersStay(s, steps[0]);
      if 0 <= Mover(steps[0]) < |s.procs| { MoverOnTabs(s, steps[0]); }
      RunOnTabs(Do(s, steps[0]), steps[1..]);
    }
  }

  ghost predicate Uses(me: Proc, id: string) {
    HoldsTurn(me.held, Tab(id)) || (me.want.Some? && me.want.value.turn == Tab(id))
  }

  /** In every interleaving of such calls nobody ever holds, wants or goes on to ask for the whole browser, and one
      process waits for another only on a tab that both of them use. */
  lemma TabsRunIndependently(steps: seq<Step>, p: nat, q: nat)
    requires forall i :: 0 <= i < |steps| ==> Addressed(steps[i])
    ensures var s := Run(EMPTY, steps);
      && AllOnTabs(s)
      && (WaitsFor(s, p, q) ==> exists id :: s.procs[p].want.value.turn == Tab(id) && Uses(s.procs[q], id))
  {
    RunOnTabs(EMPTY, steps);
    var s := Run(EMPTY, steps);
    if WaitsFor(s, p, q) {
      assert ProcOnTabs(s.procs[p]);
      assert Uses(s.procs[q], s.procs[p].want.value.turn.id);
    }
  }
}
