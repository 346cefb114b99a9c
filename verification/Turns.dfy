/**
 Which turns a bridge call takes (internal/bridge/bridge.go:44-73 with the decisions
 of internal/bridge/address.go), and why callers that follow one rule never deadlock.
 */
module CallRouting {
  import opened Text

  datatype Value = Str(s: string) | Bool(b: bool) | Other

  /** A reservation: the whole browser, or one tab. */
  datatype Turn = Global | Tab(id: string)

  /** What a context carries: whether the global turn is held, and the tab reserved last ("" for none). */
  datatype Context = Context(held: bool, tab: string)

  /** The `bridge` config block, as far as routing reads it. */
  datatype Routing = Routing(tabParallel: bool, queueAgentActions: bool)

  const TAB_PREFIX := "t_"

  const FOCUS_BOUND := {
    "human_click", "trusted_click", "native_click", "hover", "trusted_hover", "native_hover",
    "drag_and_drop", "trusted_drag_and_drop", "native_drag_drop", "native_type", "trusted_type",
    "native_paste", "trusted_paste", "key_combo", "trusted_key_combo", "solve_challenge",
    "screenshot", "switch_tab", "activate"}

  predicate FocusBound(action: string) { action in FOCUS_BOUND }

  predicate ChatLike(action: string) { action in {"chat", "brainstorm", "brainstorm_status"} }

  predicate IsTrue(params: map<string, Value>, key: string) {
    key in params && params[key] == Bool(true)
  }

  function RegistryID(v: Value): string {
    if !v.Str? then ""
    else
      var s := TrimSpace(v.s);
      if !HasPrefix(s, TAB_PREFIX) || |s| <= |TAB_PREFIX| then "" else s
  }

  function AddressedTab(params: map<string, Value>): string {
    if "index" in params then RegistryID(params["index"]) else ""
  }

  predicate OpensOwnTab(action: string, params: map<string, Value>) {
    && action in {"navigate", "new_tab"}
    && (|| IsTrue(params, "back_tab") || IsTrue(params, "background") || IsTrue(params, "inBackground")
        || ("active" in params && params["active"] == Bool(false)))
  }

  /** WithTurn: the turn to ask for, none when the context already carries it. */
  function WithTurn(ctx: Context): seq<Turn> {
    if ctx.held then [] else [Global]
  }

  /** WithTabTurn: none for the active tab or a tab the context already reserves. */
  function WithTabTurn(ctx: Context, id: string): seq<Turn> {
    if id == "" || ctx.tab == id then [] else [Tab(id)]
  }

  /** The turns CallBridge asks for, in order, before it posts. */
  function CallBridge(ctx: Context, action: string, params: map<string, Value>, cfg: Routing): seq<Turn> {
    if OpensOwnTab(action, params) && cfg.tabParallel then []
    else
      var id := AddressedTab(params);
      if id != "" && cfg.tabParallel then
        (if !ctx.held && FocusBound(action) then WithTurn(ctx) else []) + WithTabTurn(ctx, id)
      else if ctx.held || (ChatLike(action) && !cfg.queueAgentActions) then []
      else [Global]
  }

  /** A call asks for at most one turn of each kind, the global one first, and none its context holds. */
  lemma GlobalBeforeTab(ctx: Context, action: string, params: map<string, Value>, cfg: Routing)
    ensures var p := CallBridge(ctx, action, params, cfg);
      && Ordered(p)
      && (Global in p ==> !ctx.held)
      && (forall id :: Tab(id) in p ==> id != "" && id != ctx.tab && id == AddressedTab(params))
  {
  }

  predicate Ordered(p: seq<Turn>) {
    |p| <= 2 && (|p| == 2 ==> p[0] == Global && p[1].Tab?)
  }

  /** A call addressed to a tab asks for the whole browser only if the action needs its focus and the context does not
      hold it, and for that tab unless the context reserved it last. */
  lemma AddressedAsks(ctx: Context, action: string, params: map<string, Value>, cfg: Routing)
    requires cfg.tabParallel && !OpensOwnTab(action, params) && AddressedTab(params) != ""
    ensures var p, id := CallBridge(ctx, action, params, cfg), AddressedTab(params);
      && (Global in p <==> FocusBound(action) && !ctx.held)
      && (Tab(id) in p <==> ctx.tab != id)
      && (forall t :: t in p ==> t in {Global, Tab(id)})
  {
  }

  /** Any other call asks for the whole browser, or for nothing: with per-tab queues on it opens a tab of its own, or the
      context holds the browser, or it is one of three chat actions that are not queued. */
  lemma UnaddressedAsks(ctx: Context, action: string, params: map<string, Value>, cfg: Routing)
    requires cfg.tabParallel ==> OpensOwnTab(action, params) || AddressedTab(params) == ""
    ensures var p := CallBridge(ctx, action, params, cfg);
      && p in {[], [Global]}
      && (p == [] <==>
            || (cfg.tabParallel && OpensOwnTab(action, params))
            || ctx.held
            || (action in {"chat", "brainstorm", "brainstorm_status"} && !cfg.queueAgentActions))
  {
  }

  /** What a reservation of a turn asks for. */
  lemma ReservationAsks(ctx: Context, id: string)
    ensures WithTurn(ctx) == [Global] <==> !ctx.held
    ensures WithTurn(ctx) != [Global] ==> WithTurn(ctx) == []
    ensures WithTabTurn(ctx, id) == [Tab(id)] <==> id != "" && id != ctx.tab
    ensures WithTabTurn(ctx, id) != [Tab(id)] ==> WithTabTurn(ctx, id) == []
  {
  }

  /** Only `navigate` and `new_tab` open a tab of their own, when told by any one of four parameters. */
  lemma OpensOwnTabIff(action: string, params: map<string, Value>)
    ensures OpensOwnTab(action, params) <==>
      && (action == "navigate" || action == "new_tab")
      && (|| ("back_tab", Bool(true)) in params.Items
          || ("background", Bool(true)) in params.Items
          || ("inBackground", Bool(true)) in params.Items
          || ("active", Bool(false)) in params.Items)
  {
  }

  /** The native and the trusted actions, the human click, and those that need the tab to be the selected one. */
  lemma FocusBoundIff(action: string)
    ensures FocusBound(action) <==>
      || action in {"native_click", "native_hover", "native_drag_drop", "native_type", "native_paste"}
      || action in {"trusted_click", "trusted_hover", "trusted_drag_and_drop"}
      || action in {"trusted_type", "trusted_paste", "trusted_key_combo"}
      || action in {"human_click", "hover", "drag_and_drop", "key_combo", "solve_challenge"}
      || action in {"screenshot", "switch_tab", "activate"}
  {
  }

  // ---------------------------------------------------------------- registry ids

  predicate IdShaped(id: string) {
    |id| > 2 && id[0] == 't' && id[1] == '_' && !IsSpace(id[|id| - 1])
  }

  ghost predicate Around(id: string, s: string) {
    exists a, b :: AllSpace(a) && AllSpace(b) && s == a + id + b
  }

  /** An id is read off a value exactly when the value is that id, which starts with `t_` and goes on, with white space
      around it; everything else, a positional index included, addresses no tab. */
  lemma RegistryIDIff(v: Value, id: string)
    requires id != ""
    ensures RegistryID(v) == id <==> v.Str? && IdShaped(id) && Around(id, v.s)
  {
    if v.Str? && IdShaped(id) && Around(id, v.s) {
      var a, b :| AllSpace(a) && AllSpace(b) && v.s == a + id + b;
      TrimSpaceOf(a, id, b);
      assert id[..2] == TAB_PREFIX;
    }
    if RegistryID(v) == id {
      var a, b := TrimSpaceExact(v.s);
      assert TAB_PREFIX[0] == 't' && TAB_PREFIX[1] == '_';
    }
  }

  /** A call is addressed to a tab by its `index` parameter alone. */
  lemma AddressedIff(params: map<string, Value>, id: string)
    requires id != ""
    ensures AddressedTab(params) == id <==>
      "index" in params && params["index"].Str? && IdShaped(id) && Around(id, params["index"].s)
  {
    if "index" in params { RegistryIDIff(params["index"], id); }
  }

  /** Two ids are never taken for one another, whatever white space they come with. */
  lemma IdsStayApart(x: string, y: string, v: Value, w: Value)
    requires IdShaped(x) && IdShaped(y) && v.Str? && w.Str? && Around(x, v.s) && Around(y, w.s)
    ensures RegistryID(v) == RegistryID(w) <==> x == y
  {
    RegistryIDIff(v, x);
    RegistryIDIff(w, y);
  }

  /** With per-tab queues switched off every call that queues at all does so on the global turn. */
  lemma SwitchedOff(ctx: Context, action: string, params: map<string, Value>, cfg: Routing)
    requires !cfg.tabParallel
    ensures CallBridge(ctx, action, params, cfg) in {[], [Global]}
    ensures !ctx.held && !ChatLike(action) ==> CallBridge(ctx, action, params, cfg) == [Global]
  {
  }

  /** What a caller can see before the call: it opens a tab of its own, or addresses the tab the context reserved last
      with an action that does not need the browser's focus, or goes to the active tab with the whole browser held. */
  predicate NeedsNoTurn(ctx: Context, action: string, params: map<string, Value>, cfg: Routing) {
    if cfg.tabParallel && OpensOwnTab(action, params) then true
    else if cfg.tabParallel && AddressedTab(params) != "" then
      AddressedTab(params) == ctx.tab && (ctx.held || !FocusBound(action))
    else ctx.held || (ChatLike(action) && !cfg.queueAgentActions)
  }

  lemma AsksNothingIff(ctx: Context, action: string, params: map<string, Value>, cfg: Routing)
    ensures CallBridge(ctx, action, params, cfg) == [] <==> NeedsNoTurn(ctx, action, params, cfg)
  {
  }
}

/** Processes that take the global turn and tab turns, in any interleaving. */
module TurnNet {
  import opened Options
  import opened BridgeGate
  import opened CallRouting
  import opened Text
  import GP = GateProtocol

  datatype Hold = Hold(turn: Turn, ticket: nat)

  /** `held` is the stack of reservations, `todo` the turns still to ask for, `want` the one asked for now. */
  datatype Proc = Proc(held: seq<Hold>, todo: seq<Turn>, want: Option<Hold>)

  datatype Net = Net(gates: map<Turn, GP.System>, procs: seq<Proc>)

  datatype Step =
    | Spawn
    | SetLimit(limit: Option<int>)
    | Reserve(p: nat, turn: Turn)      // a tool calls WithTurn or WithTabTurn
    | Call(p: nat, action: string, params: map<string, Value>, cfg: Routing)
    | Ask(p: nat)                      // the first section of Acquire
    | Wake(p: nat)
    | GiveUp(p: nat)                   // context or queue ceiling: the call fails
    | Drop(p: nat)                     // the innermost reservation is released

  function GateOf(s: Net, turn: Turn): GP.System {
    if turn in s.gates then s.gates[turn] else GP.Start(1)
  }

  function LastTab(held: seq<Hold>): string {
    if held == [] then ""
    else if held[|held| - 1].turn.Tab? then held[|held| - 1].turn.id
    else LastTab(held[..|held| - 1])
  }

  predicate HoldsTurn(held: seq<Hold>, turn: Turn) {
    exists i :: 0 <= i < |held| && held[i].turn == turn
  }

  predicate HoldsTab(held: seq<Hold>) {
    exists i :: 0 <= i < |held| && held[i].turn.Tab?
  }

  function ContextOf(p: Proc): Context {
    Context(HoldsTurn(p.held, Global), LastTab(p.held))
  }

  predicate Idle(p: Proc) { p.todo == [] && p.want == None }

  function SetProc(s: Net, p: nat, proc: Proc): Net
    requires p < |s.procs|
  {
    s.(procs := s.procs[p := proc])
  }

  /** The outcome of the turn asked for, once its gate says the call owns it or gave up. */
  function Settle(s: Net, p: nat): Net
    requires p < |s.procs| && s.procs[p].want.Some?
  {
    var me := s.procs[p];
    match GP.At(GateOf(s, me.want.value.turn), me.want.value.ticket)
    case Owning => SetProc(s, p, me.(held := me.held + [me.want.value], want := None))
    case GaveUp => SetProc(s, p, me.(todo := [], want := None))
    case _ => s
  }

  function MoveGate(s: Net, turn: Turn, step: GP.Step): Net {
    s.(gates := s.gates[turn := GP.Do(GateOf(s, turn), step)])
  }

  function Do(s: Net, step: Step): Net {
    match step
    case Spawn => s.(procs := s.procs + [Proc([], [], None)])
    case SetLimit(limit) => MoveGate(s, Global, GP.SetLimit(limit))
    case Reserve(p, turn) =>
      if p < |s.procs| && Idle(s.procs[p]) then
        var ctx := ContextOf(s.procs[p]);
        SetProc(s, p, s.procs[p].(todo := if turn.Global? then WithTurn(ctx) else WithTabTurn(ctx, turn.id)))
      else s
    case Call(p, action, params, cfg) =>
      if p < |s.procs| && Idle(s.procs[p]) then
        SetProc(s, p, s.procs[p].(todo := CallBridge(ContextOf(s.procs[p]), action, params, cfg)))
      else s
    case Ask(p) =>
      if p < |s.procs| && s.procs[p].todo != [] && s.procs[p].want == None then
        var me := s.procs[p];
        var turn := me.todo[0];
        SetProc(MoveGate(s, turn, GP.Enter("bridge")), p,
                me.(todo := me.todo[1..], want := Some(Hold(turn, GateOf(s, turn).gate.next))))
      else s
    case Wake(p) =>
      if p < |s.procs| && s.procs[p].want.Some? then
        Settle(MoveGate(s, s.procs[p].want.value.turn, GP.Wake(s.procs[p].want.value.ticket)), p)
      else s
    case GiveUp(p) =>
      if p < |s.procs| && s.procs[p].want.Some? then
        Settle(MoveGate(s, s.procs[p].want.value.turn, GP.GiveUp(s.procs[p].want.value.ticket)), p)
      else s
    case Drop(p) =>
      if p < |s.procs| && Idle(s.procs[p]) && s.procs[p].held != [] then
        var me := s.procs[p];
        var last := me.held[|me.held| - 1];
        SetProc(MoveGate(s, last.turn, GP.Return(last.ticket)), p, me.(held := me.held[..|me.held| - 1]))
      else s
  }

  function Run(s: Net, steps: seq<Step>): Net
    decreases |steps|
  {
    if steps == [] then s else Run(Do(s, steps[0]), steps[1..])
  }

  const EMPTY := Net(map[], [])

  /** The turn the process asked for is one its gate has not told it about yet. */
  ghost predicate Asking(s: Net, p: nat) {
    && p < |s.procs| && s.procs[p].want.Some?
    && var w := s.procs[p].want.value;
       var g := GateOf(s, w.turn);
       GP.Safe(g) && w.ticket < |g.calls| && g.calls[w.ticket] == GP.Waiting
  }

  /** A caller that gives up fails while it still queues, and asks for nothing more; once it was handed the turn it has
      it, like one that woke up in time. */
  lemma AskEnds(s: Net, p: nat, gaveUp: bool)
    requires Asking(s, p)
    ensures var me, r := s.procs[p], Do(s, if gaveUp then GiveUp(p) else Wake(p)).procs[p];
      if me.want.value.ticket !in GateOf(s, me.want.value.turn).gate.pending then
        r == Proc(me.held + [me.want.value], me.todo, None)
      else r == if gaveUp then Proc(me.held, [], None) else me
  {
    var w := s.procs[p].want.value;
    GP.WaiterDecides(GateOf(s, w.turn), w.ticket);
  }

  // ---------------------------------------------------------------- waiting for one another

  /** Process p queues behind others for a turn it has not been handed. */
  ghost predicate Blocked(s: Net, p: nat) {
    && p < |s.procs| && s.procs[p].want.Some?
    && s.procs[p].want.value.ticket in GateOf(s, s.procs[p].want.value.turn).gate.pending
  }

  /** p cannot go on before q gives something back: q has the turn p queues for, or is ahead of p in that line. */
  ghost predicate WaitsFor(s: Net, p: nat, q: nat) {
    && Blocked(s, p) && q < |s.procs|
    && var w := s.procs[p].want.value;
       || HoldsTurn(s.procs[q].held, w.turn)
       || (&& s.procs[q].want.Some? && s.procs[q].want.value.turn == w.turn
           && var u := s.procs[q].want.value.ticket;
              Holds(GateOf(s, w.turn).gate, u) || (u in GateOf(s, w.turn).gate.pending && u < w.ticket))
  }

  ghost predicate Chain(s: Net, ps: seq<nat>) {
    forall i :: 0 <= i < |ps| - 1 ==> WaitsFor(s, ps[i], ps[i + 1])
  }

  ghost predicate Deadlock(s: Net, ps: seq<nat>) {
    |ps| >= 2 && Chain(s, ps) && ps[0] == ps[|ps| - 1]
  }

  /** Kept by every run: gates are safe, and a call never asks for the global turn it holds, nor after a tab. */
  ghost predicate Routed(s: Net) {
    && (forall t :: t in s.gates ==> GP.Safe(s.gates[t]))
    && (forall p :: 0 <= p < |s.procs| ==> ProcRouted(s.procs[p]))
  }

  ghost predicate ProcRouted(p: Proc) {
    && Ordered(p.todo)
    && (Global in p.todo ==> !HoldsTurn(p.held, Global) && p.todo[0] == Global)
    && (p.want.Some? && p.want.value.turn == Global ==> !HoldsTurn(p.held, Global) && Global !in p.todo)
    && (p.want.Some? && p.want.value.turn.Tab? ==> p.todo == [])
  }

  lemma GatesSafe(s: Net, turn: Turn, step: GP.Step)
    requires Routed(s)
    ensures forall t :: t in MoveGate(s, turn, step).gates ==> GP.Safe(MoveGate(s, turn, step).gates[t])
  {
    GP.AlwaysSafe(1, []);
    GP.StepSafe(GateOf(s, turn), step);
  }

  lemma StepGatesSafe(s: Net, step: Step)
    requires Routed(s)
    ensures forall t :: t in Do(s, step).gates ==> GP.Safe(Do(s, step).gates[t])
  {
    match step
    case SetLimit(limit) => GatesSafe(s, Global, GP.SetLimit(limit));
    case Ask(p) =>
      if p < |s.procs| && s.procs[p].todo != [] { GatesSafe(s, s.procs[p].todo[0], GP.Enter("bridge")); }
    case Wake(p) =>
      if p < |s.procs| && s.procs[p].want.Some? {
        GatesSafe(s, s.procs[p].want.value.turn, GP.Wake(s.procs[p].want.value.ticket));
      }
    case GiveUp(p) =>
      if p < |s.procs| && s.procs[p].want.Some? {
        GatesSafe(s, s.procs[p].want.value.turn, GP.GiveUp(s.procs[p].want.value.ticket));
      }
    case Drop(p) =>
      if p < |s.procs| && s.procs[p].held != [] {
        var last := s.procs[p].held[|s.procs[p].held| - 1];
        GatesSafe(s, last.turn, GP.Return(last.ticket));
      }
    case _ =>
  }

  /** A step touches one process. */
  function Mover(step: Step): int {
    match step
    case Spawn => -1
    case SetLimit(_) => -1
    case Reserve(p, _) => p
    case Call(p, _, _, _) => p
    case Ask(p) => p
    case Wake(p) => p
    case GiveUp(p) => p
    case Drop(p) => p
  }

  lemma OthersStay(s: Net, step: Step)
    ensures |s.procs| <= |Do(s, step).procs| <= |s.procs| + 1
    ensures forall p :: 0 <= p < |s.procs| && p != Mover(step) ==> Do(s, step).procs[p] == s.procs[p]
    ensures |s.procs| < |Do(s, step).procs| ==> Do(s, step).procs[|s.procs|] == Proc([], [], None)
  {
  }

  lemma MoverRouted(s: Net, step: Step)
    requires Routed(s) && 0 <= Mover(step) < |s.procs|
    ensures ProcRouted(Do(s, step).procs[Mover(step)])
  {
    var p := Mover(step);
    assert ProcRouted(s.procs[p]);
    match step
    case Call(_, action, params, cfg) => GlobalBeforeTab(ContextOf(s.procs[p]), action, params, cfg);
    case _ =>
  }

  lemma StepRouted(s: Net, step: Step)
    requires Routed(s)
    ensures Routed(Do(s, step))
  {
    StepGatesSafe(s, step);
    OthersStay(s, step);
    if 0 <= Mover(step) < |s.procs| { MoverRouted(s, step); }
  }

  lemma {:induction false} RunRouted(s: Net, steps: seq<Step>)
    requires Routed(s)
    ensures Routed(Run(s, steps))
    decreases |steps|
  {
    if steps != [] {
      StepRouted(s, steps[0]);
      RunRouted(Do(s, steps[0]), steps[1..]);
    }
  }

  // ---------------------------------------------------------------- no cycle without a blocked tab holder

  function Level(turn: Turn): nat { if turn.Global? then 2 else 1 }

  /** Waiting only ever leads to a strictly lower rank. */
  ghost predicate Lower(s: Net, q: nat, p: nat)
    requires Blocked(s, p)
  {
    var w := s.procs[p].want.value;
    Blocked(s, q) ==>
      var v := s.procs[q].want.value;
      Level(v.turn) < Level(w.turn) || (v.turn == w.turn && v.ticket < w.ticket)
  }

  lemma WaitingDescends(s: Net, p: nat, q: nat)
    requires Routed(s) && WaitsFor(s, p, q)
    requires Blocked(s, q) ==> !HoldsTab(s.procs[q].held)
    ensures Lower(s, q, p)
  {
    var w := s.procs[p].want.value;
    if Blocked(s, q) {
      var v := s.procs[q].want.value;
      assert ProcRouted(s.procs[q]);
      if HoldsTurn(s.procs[q].held, w.turn) {
        assert w.turn == Global;
      } else if Holds(GateOf(s, w.turn).gate, v.ticket) {
        assert w.turn in s.gates;
        assert Inv(s.gates[w.turn].gate);
      }
    }
  }

  /** Along a chain of waiting, every later process has a lower rank than the first. */
  lemma {:induction false} ChainDescends(s: Net, ps: seq<nat>)
    requires Routed(s) && |ps| >= 2 && Chain(s, ps)
    requires forall i :: 0 <= i < |ps| && Blocked(s, ps[i]) ==> !HoldsTab(s.procs[ps[i]].held)
    ensures Blocked(s, ps[0]) && Lower(s, ps[|ps| - 1], ps[0])
  {
    assert WaitsFor(s, ps[0], ps[1]);
    WaitingDescends(s, ps[0], ps[1]);
    if |ps| > 2 {
      assert Chain(s, ps[1..]) by {
        forall i | 0 <= i < |ps[1..]| - 1 ensures WaitsFor(s, ps[1..][i], ps[1..][i + 1]) {
          assert WaitsFor(s, ps[i + 1], ps[i + 2]);
        }
      }
      ChainDescends(s, ps[1..]);
    }
  }

  /** In every state of every run, a deadlock has a process on it that queues while it holds a tab. */
  lemma DeadlockNeedsBlockedTabHolder(steps: seq<Step>, ps: seq<nat>)
    requires Deadlock(Run(EMPTY, steps), ps)
    ensures var s := Run(EMPTY, steps);
      exists i :: 0 <= i < |ps| && Blocked(s, ps[i]) && HoldsTab(s.procs[ps[i]].held)
  {
    RunRouted(EMPTY, steps);
    var s := Run(EMPTY, steps);
    if forall i :: 0 <= i < |ps| && Blocked(s, ps[i]) ==> !HoldsTab(s.procs[ps[i]].held) {
      ChainDescends(s, ps);
    }
  }

  // ---------------------------------------------------------------- the rule that prevents it

  /** A context that holds a tab reserves nothing it does not have and makes only calls that need no further turn. */
  predicate Disciplined(s: Net, step: Step) {
    match step
    case Reserve(p, turn) =>
      p < |s.procs| && HoldsTab(s.procs[p].held) ==>
        if turn.Global? then HoldsTurn(s.procs[p].held, Global) else turn.id in {"", LastTab(s.procs[p].held)}
    case Call(p, action, params, cfg) =>
      p < |s.procs| && HoldsTab(s.procs[p].held) ==> NeedsNoTurn(ContextOf(s.procs[p]), action, params, cfg)
    case _ => true
  }

  predicate AllDisciplined(s: Net, steps: seq<Step>)
    decreases |steps|
  {
    steps == [] || (Disciplined(s, steps[0]) && AllDisciplined(Do(s, steps[0]), steps[1..]))
  }

  /** Whoever still has a turn to ask for, or is asking, holds no tab. */
  ghost predicate TabLast(s: Net) {
    forall p :: 0 <= p < |s.procs| && HoldsTab(s.procs[p].held) ==> Idle(s.procs[p])
  }

  lemma MoverTabLast(s: Net, step: Step)
    requires Routed(s) && TabLast(s) && Disciplined(s, step) && 0 <= Mover(step) < |s.procs|
    ensures var me := Do(s, step).procs[Mover(step)]; HoldsTab(me.held) ==> Idle(me)
  {
    var me := s.procs[Mover(step)];
    assert ProcRouted(me);
    match step
    case Call(_, action, params, cfg) => AsksNothingIff(ContextOf(me), action, params, cfg);
    case _ =>
  }

  lemma StepTabLast(s: Net, step: Step)
    requires Routed(s) && TabLast(s) && Disciplined(s, step)
    ensures TabLast(Do(s, step))
  {
    OthersStay(s, step);
    if 0 <= Mover(step) < |s.procs| { MoverTabLast(s, step); }
  }

  lemma {:induction false} RunTabLast(s: Net, steps: seq<Step>)
    requires Routed(s) && TabLast(s) && AllDisciplined(s, steps)
    ensures TabLast(Run(s, steps))
    decreases |steps|
  {
    if steps != [] {
      StepRouted(s, steps[0]);
      StepTabLast(s, steps[0]);
      RunTabLast(Do(s, steps[0]), steps[1..]);
    }
  }

  // ---------------------------------------------------------------- two screenshots that deadlock

  const CFG := Routing(true, false)
  const ON_TAB: map<string, Value> := map["index" := Str("t_1")]
  const SHOT_HOLDING_TAB := Call(0, "screenshot", ON_TAB, CFG)
  const SHOT := Call(1, "screenshot", ON_TAB, CFG)

  lemma RouteOfShot(ctx: Context)
    requires !ctx.held
    ensures CallBridge(ctx, "screenshot", ON_TAB, CFG) == if ctx.tab == "t_1" then [Global] else [Global, Tab("t_1")]
  {
    var id := "t_1";
    assert id[0] == 't' && id[|id| - 1] == '1';
    assert TrimLeft(id) == id && TrimRight(id) == id;
    assert HasPrefix(id, TAB_PREFIX) by { assert id[..2] == TAB_PREFIX; }
    assert AddressedTab(ON_TAB) == id;
  }

  const ONE: State := State(1, 1, 1, [Holder(0, "bridge")], map[])
  const TAB_FIRST: seq<Step> := [Spawn, Spawn, Reserve(0, Tab("t_1")), Ask(0), Wake(0)]
  const THEN_SHOT: seq<Step> := [SHOT, Ask(1), Wake(1)]
  const CROSSED: seq<Step> := [Ask(1), SHOT_HOLDING_TAB, Ask(0)]

  lemma RunThree(s: Net, a: Step, b: Step, c: Step)
    ensures Run(s, [a, b, c]) == Do(Do(Do(s, a), b), c)
  {
    assert [a, b, c][1..] == [b, c];
    RunTwo(Do(s, a), b, c);
  }

  lemma RunTwo(s: Net, a: Step, b: Step)
    ensures Run(s, [a, b]) == Do(Do(s, a), b)
  {
    assert [a, b][1..] == [b];
    assert Run(Do(s, a), [b]) == Run(Do(Do(s, a), b), []);
  }

  /** Caller 0 reserves a tab. */
  lemma TabTaken() returns (s: Net)
    ensures s == Run(EMPTY, TAB_FIRST)
    ensures s.procs == [Proc([Hold(Tab("t_1"), 0)], [], None), Proc([], [], None)]
    ensures GateOf(s, Tab("t_1")).gate == ONE && Global !in s.gates
  {
    var steps := TAB_FIRST;
    var s1 := Do(EMPTY, steps[0]);
    var s2 := Do(s1, steps[1]);
    assert s2.procs == [Proc([], [], None), Proc([], [], None)];
    var s3 := Do(s2, steps[2]);
    assert s3.procs[0] == Proc([], [Tab("t_1")], None);
    var s4 := Do(s3, steps[3]);
    assert s4.procs[0] == Proc([], [], Some(Hold(Tab("t_1"), 0)));
    s := Do(s4, steps[4]);
    assert s.procs[0] == Proc([Hold(Tab("t_1"), 0)], [], None);
    assert steps == [steps[0], steps[1]] + [steps[2], steps[3], steps[4]];
    RunThen(EMPTY, [steps[0], steps[1]], [steps[2], steps[3], steps[4]]);
    RunTwo(EMPTY, steps[0], steps[1]);
    RunThree(s2, steps[2], steps[3], steps[4]);
  }

  lemma ShotCalled(s0: Net)
    requires s0.procs == [Proc([Hold(Tab("t_1"), 0)], [], None), Proc([], [], None)]
    ensures Do(s0, SHOT).gates == s0.gates
    ensures Do(s0, SHOT).procs == [Proc([Hold(Tab("t_1"), 0)], [], None), Proc([], [Global, Tab("t_1")], None)]
  {
    RouteOfShot(ContextOf(s0.procs[1]));
  }

  /** Caller 1 takes a screenshot of that tab and gets as far as the global turn. */
  lemma GlobalTaken(s0: Net) returns (s: Net)
    requires s0.procs == [Proc([Hold(Tab("t_1"), 0)], [], None), Proc([], [], None)]
    requires GateOf(s0, Tab("t_1")).gate == ONE && Global !in s0.gates
    ensures s == Run(s0, THEN_SHOT)
    ensures s.procs == [Proc([Hold(Tab("t_1"), 0)], [], None), Proc([Hold(Global, 0)], [Tab("t_1")], None)]
    ensures GateOf(s, Tab("t_1")).gate == ONE && GateOf(s, Global).gate == ONE
  {
    ShotCalled(s0);
    var s1 := Do(s0, SHOT);
    var s2 := Do(s1, Ask(1));
    assert s2.procs[1] == Proc([], [Tab("t_1")], Some(Hold(Global, 0)));
    s := Do(s2, Wake(1));
    assert s.procs[1] == Proc([Hold(Global, 0)], [Tab("t_1")], None);
    RunThree(s0, SHOT, Ask(1), Wake(1));
  }

  /** Now each asks for what the other has. */
  lemma CrossedRequests(s: Net) returns (r: Net)
    requires s.procs == [Proc([Hold(Tab("t_1"), 0)], [], None), Proc([Hold(Global, 0)], [Tab("t_1")], None)]
    requires GateOf(s, Tab("t_1")).gate == ONE && GateOf(s, Global).gate == ONE
    ensures r == Run(s, CROSSED)
    ensures WaitsFor(r, 0, 1) && WaitsFor(r, 1, 0)
  {
    var steps := CROSSED;
    var s1 := Do(s, steps[0]);
    assert s1.procs[1] == Proc([Hold(Global, 0)], [], Some(Hold(Tab("t_1"), 1)));
    assert ContextOf(s1.procs[0]) == Context(false, "t_1");
    RouteOfShot(ContextOf(s1.procs[0]));
    var s2 := Do(s1, steps[1]);
    assert s2.procs[0] == Proc([Hold(Tab("t_1"), 0)], [Global], None);
    r := Do(s2, steps[2]);
    assert r.procs[0] == Proc([Hold(Tab("t_1"), 0)], [], Some(Hold(Global, 1)));
    assert r.procs[0].held[0].turn == Tab("t_1") && r.procs[1].held[0].turn == Global;
    RunThree(s, steps[0], steps[1], steps[2]);
  }

  lemma {:induction false} RunThen(s: Net, a: seq<Step>, b: seq<Step>)
    ensures Run(s, a + b) == Run(Run(s, a), b)
    decreases |a|
  {
    if a == [] {
      assert a + b == b;
    } else {
      assert (a + b)[1..] == a[1..] + b;
      RunThen(Do(s, a[0]), a[1..], b);
    }
  }

  /** The rule is needed: a focus-bound call on a tab the context already reserves can deadlock. */
  lemma ScreenshotWhileHoldingTabDeadlocks()
    ensures exists steps :: Deadlock(Run(EMPTY, steps), [0, 1, 0])
  {
    var taken := TabTaken();
    var both := GlobalTaken(taken);
    var stuck := CrossedRequests(both);
    assert Deadlock(stuck, [0, 1, 0]);
    RunThen(EMPTY, TAB_FIRST, THEN_SHOT + CROSSED);
    RunThen(taken, THEN_SHOT, CROSSED);
    assert Run(EMPTY, TAB_FIRST + (THEN_SHOT + CROSSED)) == stuck;
  }
}
