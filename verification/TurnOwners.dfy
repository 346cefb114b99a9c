/**
 Who has a turn, over the gates of internal/bridge/gate.go and the callers of internal/bridge/bridge.go:44-73: in every
 interleaving a reservation is a ticket its gate counts as taken, and no two reservations are the same ticket.
 */
module TurnOwners {
  import opened Options
  import opened BridgeGate
  import opened CallRouting
  import opened TurnNet
  import GP = GateProtocol

  ghost predicate AtPhase(s: Net, h: Hold, phase: GP.Phase) {
    var g := GateOf(s, h.turn);
    h.ticket < |g.calls| && g.calls[h.ticket] == phase
  }

  predicate Has(me: Proc, h: Hold) { h in me.held || me.want == Some(h) }

  ghost predicate HoldsOwned(s: Net, me: Proc) {
    && (forall h :: h in me.held ==> AtPhase(s, h, GP.Owning))
    && (me.want.Some? ==> AtPhase(s, me.want.value, GP.Waiting) || AtPhase(s, me.want.value, GP.Owning))
  }

  ghost predicate NoneTwice(me: Proc) {
    && (forall i, j :: 0 <= i < j < |me.held| ==> me.held[i] != me.held[j])
    && (me.want.Some? ==> me.want.value !in me.held)
  }

  /** Each reservation is a taken ticket, each request one not given up, and no ticket is in two places. */
  ghost predicate Ticketed(s: Net) {
    && (forall p :: 0 <= p < |s.procs| ==> HoldsOwned(s, s.procs[p]) && NoneTwice(s.procs[p]))
    && (forall p, q, h :: 0 <= p < |s.procs| && 0 <= q < |s.procs| && p != q && Has(s.procs[p], h) ==> !Has(s.procs[q], h))
  }

  /** A step of a gate leaves the phase of every ticket but its own. */
  lemma OtherTicketsStay(sys: GP.System, step: GP.Step, t: nat)
    requires t < |sys.calls|
    requires step.SetLimit? || step.Enter? || step.ticket != t
    ensures t < |GP.Do(sys, step).calls| && GP.Do(sys, step).calls[t] == sys.calls[t]
  {
    match step
    case GiveUp(u) =>
      if u < |sys.calls| { GP.FillExtends(GP.SetPhase(sys, u, GP.GaveUp).(gate := Leave(sys.gate, u))); }
    case Return(u) =>
      if u < |sys.calls| { GP.FillExtends(GP.SetPhase(sys, u, GP.Released).(gate := GiveBack(sys.gate, u))); }
    case _ =>
  }

  ghost predicate OthersStayPut(s: Net, r: Net, own: Hold) {
    forall h, phase :: h != own && AtPhase(s, h, phase) ==> AtPhase(r, h, phase)
  }

  lemma MovedGate(s: Net, turn: Turn, step: GP.Step, own: Hold)
    requires step.SetLimit? || step.Enter? || own == Hold(turn, step.ticket)
    ensures OthersStayPut(s, MoveGate(s, turn, step), own)
  {
    var r := MoveGate(s, turn, step);
    forall h, phase | h != own && AtPhase(s, h, phase) ensures AtPhase(r, h, phase) {
      if h.turn == turn { OtherTicketsStay(GateOf(s, turn), step, h.ticket); }
    }
  }

  /** One process changes, and at most one ticket with it, which no other process has. */
  lemma OneMoves(s: Net, r: Net, p: nat, own: Hold)
    requires Ticketed(s) && p < |s.procs| == |r.procs| && OthersStayPut(s, r, own)
    requires forall q :: 0 <= q < |s.procs| && q != p ==> r.procs[q] == s.procs[q] && !Has(s.procs[q], own)
    requires forall h :: Has(r.procs[p], h) ==> h == own || Has(s.procs[p], h)
    requires HoldsOwned(r, r.procs[p]) && NoneTwice(r.procs[p])
    ensures Ticketed(r)
  {
    forall q | 0 <= q < |r.procs| && q != p ensures HoldsOwned(r, r.procs[q]) && NoneTwice(r.procs[q]) {
      var me := s.procs[q];
      assert HoldsOwned(s, me);
      assert NoneTwice(me);
      forall h | h in me.held ensures AtPhase(r, h, GP.Owning) { assert Has(me, h); }
      if me.want.Some? { assert Has(me, me.want.value); }
    }
  }

  lemma AskTicketed(s: Net, p: nat)
    requires Routed(s) && Ticketed(s)
    ensures Ticketed(Do(s, Ask(p)))
  {
    if p < |s.procs| && s.procs[p].todo != [] && s.procs[p].want == None {
      var me := s.procs[p];
      var turn := me.todo[0];
      var own := Hold(turn, GateOf(s, turn).gate.next);
      var r := Do(s, Ask(p));
      GP.AlwaysSafe(1, []);
      assert GP.Safe(GateOf(s, turn));
      MovedGate(s, turn, GP.Enter("bridge"), own);
      assert OthersStayPut(s, r, own);
      forall q | 0 <= q < |s.procs| ensures !Has(s.procs[q], own) { assert HoldsOwned(s, s.procs[q]); }
      assert HoldsOwned(s, me) && NoneTwice(me);
      assert AtPhase(r, own, GP.Waiting) || AtPhase(r, own, GP.Owning);
      forall h | h in me.held ensures AtPhase(r, h, GP.Owning) { assert Has(me, h); }
      OneMoves(s, r, p, own);
    }
  }

  /** Waking up and giving up: the ticket is the caller's from then on, or it still waits, or it left. */
  lemma DecideTicketed(s: Net, p: nat, gaveUp: bool)
    requires Routed(s) && Ticketed(s)
    ensures Ticketed(Do(s, if gaveUp then GiveUp(p) else Wake(p)))
  {
    if p < |s.procs| && s.procs[p].want.Some? {
      var me, own := s.procs[p], s.procs[p].want.value;
      var gstep := if gaveUp then GP.GiveUp(own.ticket) else GP.Wake(own.ticket);
      var m := MoveGate(s, own.turn, gstep);
      var r := Settle(m, p);
      assert HoldsOwned(s, me) && NoneTwice(me);
      MovedGate(s, own.turn, gstep, own);
      Decided(s, own, gaveUp);
      assert OthersStayPut(s, r, own);
      forall h | h in me.held ensures AtPhase(r, h, GP.Owning) { assert h != own; }
      forall q | 0 <= q < |s.procs| && q != p ensures !Has(s.procs[q], own) { assert Has(me, own); }
      OneMoves(s, r, p, own);
    }
  }

  lemma Decided(s: Net, own: Hold, gaveUp: bool)
    requires Routed(s) && (AtPhase(s, own, GP.Waiting) || AtPhase(s, own, GP.Owning))
    ensures var m := MoveGate(s, own.turn, if gaveUp then GP.GiveUp(own.ticket) else GP.Wake(own.ticket));
      || AtPhase(m, own, GP.Owning)
      || AtPhase(m, own, if gaveUp then GP.GaveUp else GP.Waiting)
  {
    var g := GateOf(s, own.turn);
    GP.AlwaysSafe(1, []);
    if g.calls[own.ticket] == GP.Waiting {
      GP.WaiterDecides(g, own.ticket);
      GP.StepOutcome(g, if gaveUp then GP.GiveUp(own.ticket) else GP.Wake(own.ticket), own.ticket);
    }
  }

  lemma DropTicketed(s: Net, p: nat)
    requires Routed(s) && Ticketed(s)
    ensures Ticketed(Do(s, Drop(p)))
  {
    if p < |s.procs| && Idle(s.procs[p]) && s.procs[p].held != [] {
      var me := s.procs[p];
      var own := me.held[|me.held| - 1];
      var r := Do(s, Drop(p));
      assert HoldsOwned(s, me) && NoneTwice(me);
      MovedGate(s, own.turn, GP.Return(own.ticket), own);
      assert OthersStayPut(s, r, own);
      WithoutLast(s, r, me, own);
      forall q | 0 <= q < |s.procs| && q != p ensures !Has(s.procs[q], own) { assert Has(me, own); }
      OneMoves(s, r, p, own);
    }
  }

  lemma WithoutLast(s: Net, r: Net, me: Proc, own: Hold)
    requires HoldsOwned(s, me) && NoneTwice(me) && Idle(me) && me.held != [] && own == me.held[|me.held| - 1]
    requires OthersStayPut(s, r, own)
    ensures var rest := me.(held := me.held[..|me.held| - 1]);
      HoldsOwned(r, rest) && NoneTwice(rest) && forall h :: Has(rest, h) ==> Has(me, h)
  {
    var front := me.held[..|me.held| - 1];
    forall h | h in front ensures AtPhase(r, h, GP.Owning) {
      var i :| 0 <= i < |front| && front[i] == h;
      assert me.held[i] != own;
      assert AtPhase(s, h, GP.Owning);
    }
  }

  lemma StepTicketed(s: Net, step: Step)
    requires Routed(s) && Ticketed(s)
    ensures Ticketed(Do(s, step))
  {
    match step
    case Ask(p) => AskTicketed(s, p);
    case Wake(p) => DecideTicketed(s, p, false);
    case GiveUp(p) => DecideTicketed(s, p, true);
    case Drop(p) => DropTicketed(s, p);
    case SetLimit(limit) =>
      MovedGate(s, Global, GP.SetLimit(limit), Hold(Global, 0));
      SameProcs(s, Do(s, step));
    case _ => SameTickets(s, Do(s, step));
  }

  /** A new limit moves nobody. */
  lemma SameProcs(s: Net, r: Net)
    requires Ticketed(s) && r.procs == s.procs
    requires forall h, phase :: AtPhase(s, h, phase) ==> AtPhase(r, h, phase)
    ensures Ticketed(r)
  {
    forall q | 0 <= q < |r.procs| ensures HoldsOwned(r, r.procs[q]) { assert HoldsOwned(s, s.procs[q]); }
  }

  /** Nor does a process that appears, or decides what to ask for. */
  lemma SameTickets(s: Net, r: Net)
    requires Ticketed(s) && r.gates == s.gates && |s.procs| <= |r.procs|
    requires forall p :: 0 <= p < |s.procs| ==> r.procs[p].held == s.procs[p].held && r.procs[p].want == s.procs[p].want
    requires forall p :: |s.procs| <= p < |r.procs| ==> r.procs[p] == Proc([], [], None)
    ensures Ticketed(r)
  {
    forall q | 0 <= q < |r.procs| ensures HoldsOwned(r, r.procs[q]) && NoneTwice(r.procs[q]) {
      if q < |s.procs| { assert HoldsOwned(s, s.procs[q]) && NoneTwice(s.procs[q]); }
    }
    forall p, q, h | 0 <= p < |r.procs| && 0 <= q < |r.procs| && p != q && Has(r.procs[p], h) ensures !Has(r.procs[q], h) {
      if q < |s.procs| && p < |s.procs| { assert Has(s.procs[p], h); }
    }
  }

  lemma {:induction false} RunTicketed(s: Net, steps: seq<Step>)
    requires Routed(s) && Ticketed(s)
    ensures Ticketed(Run(s, steps)) && Routed(Run(s, steps))
    decreases |steps|
  {
    if steps != [] {
      StepRouted(s, steps[0]);
      StepTicketed(s, steps[0]);
      RunTicketed(Do(s, steps[0]), steps[1..]);
    }
  }

  // ---------------------------------------------------------------- one at a time

  /** The policy never asks for more than one turn at a time. */
  predicate NeverRaised(steps: seq<Step>) {
    forall i :: 0 <= i < |steps| && steps[i].SetLimit? && steps[i].limit.Some? ==> steps[i].limit.value <= 1
  }

  lemma GatePeakStays(sys: GP.System, step: GP.Step)
    requires GP.Safe(sys) && sys.peak == 1
    requires step.SetLimit? && step.policy.Some? ==> step.policy.value <= 1
    ensures GP.Do(sys, step).peak == 1
  {
    match step
    case GiveUp(t) =>
      if t < |sys.calls| { GP.FillIsAdmitPending(GP.SetPhase(sys, t, GP.GaveUp).(gate := Leave(sys.gate, t))); }
    case Return(t) =>
      if t < |sys.calls| { GP.FillIsAdmitPending(GP.SetPhase(sys, t, GP.Released).(gate := GiveBack(sys.gate, t))); }
    case _ =>
  }

  ghost predicate OneTurn(s: Net, turn: Turn) { GateOf(s, turn).peak == 1 }

  lemma MoveOneTurn(s: Net, moved: Turn, gstep: GP.Step, turn: Turn)
    requires Routed(s) && OneTurn(s, turn)
    requires moved == turn && gstep.SetLimit? && gstep.policy.Some? ==> gstep.policy.value <= 1
    ensures OneTurn(MoveGate(s, moved, gstep), turn)
  {
    GP.AlwaysSafe(1, []);
    if moved == turn { GatePeakStays(GateOf(s, turn), gstep); }
  }

  lemma StepOneTurn(s: Net, step: Step, turn: Turn)
    requires Routed(s) && OneTurn(s, turn)
    requires turn.Global? && step.SetLimit? && step.limit.Some? ==> step.limit.value <= 1
    ensures OneTurn(Do(s, step), turn)
  {
    match step
    case SetLimit(limit) => MoveOneTurn(s, Global, GP.SetLimit(limit), turn);
    case Ask(p) =>
      if p < |s.procs| && s.procs[p].todo != [] { MoveOneTurn(s, s.procs[p].todo[0], GP.Enter("bridge"), turn); }
    case Wake(p) =>
      if p < |s.procs| && s.procs[p].want.Some? {
        var w := s.procs[p].want.value;
        MoveOneTurn(s, w.turn, GP.Wake(w.ticket), turn);
      }
    case GiveUp(p) =>
      if p < |s.procs| && s.procs[p].want.Some? {
        var w := s.procs[p].want.value;
        MoveOneTurn(s, w.turn, GP.GiveUp(w.ticket), turn);
      }
    case Drop(p) =>
      if p < |s.procs| && s.procs[p].held != [] {
        var last := s.procs[p].held[|s.procs[p].held| - 1];
        MoveOneTurn(s, last.turn, GP.Return(last.ticket), turn);
      }
    case _ =>
  }

  lemma {:induction false} RunOneTurn(s: Net, steps: seq<Step>, turn: Turn)
    requires Routed(s) && OneTurn(s, turn) && (turn.Global? ==> NeverRaised(steps))
    ensures OneTurn(Run(s, steps), turn)
    decreases |steps|
  {
    if steps != [] {
      StepOneTurn(s, steps[0], turn);
      StepRouted(s, steps[0]);
      RunOneTurn(Do(s, steps[0]), steps[1..], turn);
    }
  }

  /** In every interleaving no two processes have one tab reserved at the same time, nor the browser unless the policy
      asked for more than one turn; and no process has the same turn twice. */
  lemma OneReservationAtATime(steps: seq<Step>, turn: Turn, p: nat, q: nat, i: nat, j: nat)
    requires turn.Global? ==> NeverRaised(steps)
    requires var s := Run(EMPTY, steps);
      && p < |s.procs| && q < |s.procs| && i < |s.procs[p].held| && j < |s.procs[q].held|
      && s.procs[p].held[i].turn == turn == s.procs[q].held[j].turn
    ensures p == q && i == j
  {
    RunTicketed(EMPTY, steps);
    RunOneTurn(EMPTY, steps, turn);
    var s := Run(EMPTY, steps);
    var a, b := s.procs[p].held[i], s.procs[q].held[j];
    GP.AlwaysSafe(1, []);
    assert HoldsOwned(s, s.procs[p]) && HoldsOwned(s, s.procs[q]) && NoneTwice(s.procs[p]);
    assert a in s.procs[p].held && b in s.procs[q].held;
    OneOwner(GateOf(s, turn), a.ticket, b.ticket);
    assert Has(s.procs[p], a) && Has(s.procs[q], a);
  }

  lemma OneOwner(g: GP.System, t: nat, u: nat)
    requires GP.Safe(g) && g.peak == 1 && GP.At(g, t) == GP.Owning && GP.At(g, u) == GP.Owning
    ensures t == u
  {
    assert GP.Accounted(g, t) && GP.Accounted(g, u);
    var x :| 0 <= x < |g.gate.holders| && g.gate.holders[x].ticket == t;
    var y :| 0 <= y < |g.gate.holders| && g.gate.holders[y].ticket == u;
  }
}
