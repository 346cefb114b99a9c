/**
 The bridge admission gate (internal/bridge/gate.go): a FIFO counting semaphore
 built from tickets. `State` is the part of a gate its mutex protects, as a value;
 the functions on it say what each critical section does to it. Class `Gate` is
 the gate itself, updated in place, each method proved against its function.
 */
module BridgeGate {

  import opened Options

  const DEFAULT_CONCURRENCY: nat := 1

  datatype Holder = Holder(ticket: nat, caller: string)

  datatype State = State(
    limit: nat,
    eligible: nat,
    next: nat,
    holders: seq<Holder>,
    pending: map<nat, string>)

  ghost predicate Holds(s: State, t: nat) {
    exists i :: 0 <= i < |s.holders| && s.holders[i].ticket == t
  }

  /** What every critical section keeps. */
  ghost predicate Inv(s: State) {
    && 1 <= s.limit
    && s.eligible <= s.next
    && (forall i :: 0 <= i < |s.holders| ==> s.holders[i].ticket < s.eligible)
    && (forall i, j :: 0 <= i < j < |s.holders| ==> s.holders[i].ticket < s.holders[j].ticket)
    && (forall t :: t in s.pending ==> s.eligible <= t < s.next)
  }

  // ---------------------------------------------------------------- the critical sections as functions

  function New(limit: int): State {
    State(if limit < 1 then DEFAULT_CONCURRENCY else limit, 0, 0, [], map[])
  }

  function Settings(s: State, policy: Option<int>): State {
    match policy
    case None => s
    case Some(limit) => s.(limit := if limit < 1 then DEFAULT_CONCURRENCY else limit)
  }

  function Admit(s: State, t: nat, caller: string): State {
    s.(eligible := t + 1, holders := s.holders + [Holder(t, caller)])
  }

  /** Whether the next ticket may be admitted by the call that draws it. */
  predicate AdmitsOnArrival(s: State) {
    |s.pending| == 0 && s.next == s.eligible && |s.holders| < s.limit
  }

  function Arrive(s: State, caller: string): State {
    var drawn := s.(next := s.next + 1);
    if AdmitsOnArrival(s) then Admit(drawn, s.next, caller)
    else drawn.(pending := s.pending[s.next := caller])
  }

  /** Hands the turn to the waiter whose ticket is next in line. */
  function AdmitHead(s: State): State
    requires s.eligible in s.pending
  {
    Admit(s.(pending := s.pending - {s.eligible}), s.eligible, s.pending[s.eligible])
  }

  function AdmitPending(s: State): State
    decreases s.limit - |s.holders|
  {
    if |s.holders| < s.limit && s.eligible in s.pending then
      AdmitPending(AdmitHead(s))
    else s
  }

  /** A waiter leaves the queue; only the head of the line moves `eligible` on. */
  function Leave(s: State, t: nat): State {
    s.(pending := s.pending - {t}, eligible := if t == s.eligible then t + 1 else s.eligible)
  }

  function Abandon(s: State, t: nat): State {
    AdmitPending(Leave(s, t))
  }

  function Without(holders: seq<Holder>, t: nat): (r: seq<Holder>)
    ensures |holders| - 1 <= |r| <= |holders|
  {
    if holders == [] then []
    else if holders[0].ticket == t then holders[1..]
    else [holders[0]] + Without(holders[1..], t)
  }

  function GiveBack(s: State, t: nat): State {
    s.(holders := Without(s.holders, t))
  }

  function Release(s: State, t: nat): State {
    AdmitPending(GiveBack(s, t))
  }

  // ---------------------------------------------------------------- what admission does

  /** `s'` is `s` after the `k` lowest waiting tickets, which are consecutive, took a turn each. */
  ghost predicate AdmitsRun(s: State, s': State, k: nat) {
    && s'.limit == s.limit && s'.next == s.next
    && s'.eligible == s.eligible + k
    && (forall u :: s.eligible <= u < s.eligible + k ==> u in s.pending)
    && s'.pending == (map t | t in s.pending && s.eligible + k <= t :: s.pending[t])
    && |s'.holders| == |s.holders| + k
    && (forall j :: 0 <= j < |s.holders| ==> s'.holders[j] == s.holders[j])
    && (forall j :: |s.holders| <= j < |s'.holders| ==>
          var u := s.eligible + j - |s.holders|;
          u in s.pending && s'.holders[j] == Holder(u, s.pending[u]))
  }

  /** The loop admits in ticket order, stops at the first ticket that is not waiting, and wastes no turn. */
  lemma {:induction false} AdmitPendingExact(s: State) returns (k: nat)
    requires Inv(s)
    ensures AdmitsRun(s, AdmitPending(s), k)
    ensures |s.holders| + k < s.limit ==> s.eligible + k !in s.pending
    ensures k > 0 ==> |s.holders| + k <= s.limit
    decreases s.limit - |s.holders|
  {
    if |s.holders| < s.limit && s.eligible in s.pending {
      var s1 := AdmitHead(s);
      AdmitHeadKeeps(s);
      var k1 := AdmitPendingExact(s1);
      k := k1 + 1;
      forall u | s.eligible <= u < s.eligible + k ensures u in s.pending {
        assert u == s.eligible || u in s1.pending;
      }
    } else {
      k := 0;
    }
  }

  lemma AdmitHeadKeeps(s: State)
    requires Inv(s) && |s.holders| < s.limit && s.eligible in s.pending
    ensures Inv(AdmitHead(s))
  {
  }

  lemma {:induction false} AdmitPendingKeeps(s: State)
    requires Inv(s)
    ensures Inv(AdmitPending(s))
    decreases s.limit - |s.holders|
  {
    if |s.holders| < s.limit && s.eligible in s.pending {
      AdmitHeadKeeps(s);
      AdmitPendingKeeps(AdmitHead(s));
    }
  }

  lemma {:induction false} WithoutExact(holders: seq<Holder>, t: nat) returns (p: nat)
    ensures p <= |holders|
    ensures forall i :: 0 <= i < p ==> holders[i].ticket != t
    ensures p < |holders| ==> holders[p].ticket == t
    ensures |Without(holders, t)| == if p < |holders| then |holders| - 1 else |holders|
    ensures forall i :: 0 <= i < |Without(holders, t)| ==> Without(holders, t)[i] == holders[if i < p then i else i + 1]
  {
    if holders == [] || holders[0].ticket == t {
      p := 0;
    } else {
      var q := WithoutExact(holders[1..], t);
      p := q + 1;
    }
  }

  lemma ArriveKeeps(s: State, caller: string)
    requires Inv(s)
    ensures Inv(Arrive(s, caller))
  {
  }

  lemma LeaveKeeps(s: State, t: nat)
    requires Inv(s) && t in s.pending
    ensures Inv(Leave(s, t))
  {
  }

  lemma GiveBackKeeps(s: State, t: nat)
    requires Inv(s)
    ensures Inv(GiveBack(s, t))
  {
    var p := WithoutExact(s.holders, t);
  }

  lemma GiveBackFrees(s: State, t: nat, u: nat)
    requires Inv(s)
    ensures Holds(GiveBack(s, t), u) <==> Holds(s, u) && u != t
  {
    var p := WithoutExact(s.holders, t);
    var r := GiveBack(s, t).holders;
    if Holds(GiveBack(s, t), u) {
      var i :| 0 <= i < |r| && r[i].ticket == u;
      assert s.holders[if i < p then i else i + 1].ticket == u;
    }
    if Holds(s, u) && u != t {
      var i :| 0 <= i < |s.holders| && s.holders[i].ticket == u;
      assert r[if i < p then i else i - 1] == s.holders[i];
    }
  }

  // ---------------------------------------------------------------- the gate, updated in place

  class Waiter {
    const ticket: nat
    const caller: string
    var ready: bool // the ready channel is closed
    var admitted: bool

    constructor (ticket: nat, caller: string)
      ensures this.ticket == ticket && this.caller == caller && !ready && !admitted
    {
      this.ticket, this.caller := ticket, caller;
      ready, admitted := false, false;
    }
  }

  ghost function Labels(pending: map<nat, Waiter>): map<nat, string> {
    map t | t in pending :: pending[t].caller
  }

  lemma LabelsSize(pending: map<nat, Waiter>)
    ensures |Labels(pending)| == |pending|
  {
    assert Labels(pending).Keys == pending.Keys;
  }

  lemma LabelsWithout(pending: map<nat, Waiter>, t: nat)
    ensures Labels(pending - {t}) == Labels(pending) - {t}
  {
  }

  /** Every waiter of `was` knows whether it was handed the turn: exactly when it left `now`. */
  ghost predicate HandedOver(was: map<nat, Waiter>, now: map<nat, Waiter>)
    reads was.Values
  {
    && (forall t :: t in now ==> t in was && now[t] == was[t])
    && (forall t :: t in was ==> was[t].ready == was[t].admitted)
    && (forall t :: t in was ==> (was[t].admitted <==> t !in now))
  }

  ghost predicate Keyed(pending: map<nat, Waiter>) {
    forall t :: t in pending ==> pending[t].ticket == t
  }

  class Gate {
    var limit: nat
    var eligible: nat
    var next: nat
    var holders: seq<Holder>
    var pending: map<nat, Waiter>

    ghost function View(): State
      reads this
    {
      State(limit, eligible, next, holders, Labels(pending))
    }

    ghost predicate Valid()
      reads this, pending.Values
    {
      && Inv(View())
      && Keyed(pending)
      && HandedOver(pending, pending)
    }

    constructor (limit: int)
      ensures Valid() && View() == New(limit)
      ensures this.limit == (if 1 <= limit then limit else 1) && holders == [] && pending == map[] && next == 0
    {
      this.limit := if limit < 1 then DEFAULT_CONCURRENCY else limit;
      eligible, next, holders, pending := 0, 0, [], map[];
    }

    /** Re-reads the admission limit; `policy` is what the policy hook answers, None when the gate has none. */
    method SettingsLocked(policy: Option<int>)
      requires Valid()
      modifies this`limit
      ensures Valid() && View() == Settings(old(View()), policy)
      ensures policy.None? ==> limit == old(limit)
      ensures policy.Some? ==> limit == if 1 <= policy.value then policy.value else 1
    {
      match policy {
        case None =>
        case Some(l) => limit := if l < 1 then DEFAULT_CONCURRENCY else l;
      }
    }

    /** The first critical section of Acquire: draw a ticket, then take the turn (w is null) or queue. */
    method Draw(caller: string) returns (ticket: nat, w: Waiter?)
      requires Valid()
      modifies this
      ensures Valid() && View() == Arrive(old(View()), caller)
      ensures ticket == old(next)
      ensures w == null <==> AdmitsOnArrival(old(View()))
      ensures w == null ==> pending == old(pending)
      ensures w != null ==> fresh(w) && w.ticket == ticket && pending == old(pending)[ticket := w]
    {
      ArriveKeeps(View(), caller);
      LabelsSize(pending);
      ticket := next;
      next := next + 1;
      if |pending| == 0 && ticket == eligible && |holders| < limit {
        AdmitLocked(ticket, caller);
        return ticket, null;
      }
      w := new Waiter(ticket, caller);
      pending := pending[ticket := w];
      assert Labels(pending) == old(Labels(pending))[ticket := caller];
    }

    method AdmitLocked(ticket: nat, caller: string)
      modifies this`eligible, this`holders
      ensures View() == Admit(old(View()), ticket, caller)
    {
      eligible := ticket + 1;
      holders := holders + [Holder(ticket, caller)];
    }

    /** One round of the admission loop: the waiter next in line takes a turn and learns of it. */
    method HandTurnLocked(ghost was: map<nat, Waiter>)
      requires Inv(View()) && |holders| < limit && eligible in pending
      requires Keyed(was) && HandedOver(was, pending)
      modifies this, was.Values
      ensures Inv(View()) && View() == AdmitHead(old(View()))
      ensures HandedOver(was, pending)
    {
      var w := pending[eligible];
      AdmitHeadKeeps(View());
      LabelsWithout(pending, w.ticket);
      pending := pending - {w.ticket};
      AdmitLocked(w.ticket, w.caller);
      w.admitted := true;
      w.ready := true;
    }

    /** Fills free turns in ticket order, closing the ready channel of every waiter it admits. */
    method AdmitPendingLocked()
      requires Valid()
      modifies this, pending.Values
      ensures Valid() && View() == AdmitPending(old(View()))
      ensures HandedOver(old(pending), pending)
    {
      ghost var was := pending;
      while |holders| < limit && eligible in pending
        invariant Inv(View())
        invariant AdmitPending(View()) == AdmitPending(old(View()))
        invariant Keyed(was) && HandedOver(was, pending)
        decreases limit - |holders|
      {
        HandTurnLocked(was);
      }
    }

    /** Removes a waiter that gave up; false when the turn had already been handed over. */
    method AbandonLocked(w: Waiter) returns (left: bool)
      requires Valid()
      requires w.ticket in pending ==> pending[w.ticket] == w
      modifies this, pending.Values
      ensures Valid()
      ensures left <==> w.ticket in old(pending)
      ensures left ==> !w.admitted && !w.ready && View() == Abandon(old(View()), w.ticket)
      ensures left ==> HandedOver(old(pending) - {w.ticket}, pending)
      ensures !left ==> View() == old(View()) && pending == old(pending)
    {
      if w.admitted { return false; }
      if w.ticket !in pending { return false; }
      LeaveLocked(w.ticket);
      AdmitPendingLocked();
      return true;
    }

    /** The waiter goes, and the line moves on if it was the head. */
    method LeaveLocked(ticket: nat)
      requires Valid() && ticket in pending
      modifies this`pending, this`eligible
      ensures Valid() && View() == Leave(old(View()), ticket) && pending == old(pending) - {ticket}
    {
      LabelsWithout(pending, ticket);
      LeaveKeeps(View(), ticket);
      pending := pending - {ticket};
      if ticket == eligible {
        eligible := eligible + 1;
      }
    }

    /** Gives a turn back; a ticket that holds none changes no holder. */
    method ReleaseLocked(ticket: nat)
      requires Valid()
      modifies this, pending.Values
      ensures Valid() && View() == Release(old(View()), ticket)
      ensures HandedOver(old(pending), pending)
    {
      ghost var p := WithoutExact(holders, ticket);
      GiveBackKeeps(View(), ticket);
      var i := 0;
      while i < |holders|
        invariant 0 <= i <= p
        invariant holders == old(holders)
      {
        if holders[i].ticket == ticket {
          holders := holders[..i] + holders[i + 1..];
          break;
        }
        i := i + 1;
      }
      assert holders == Without(old(holders), ticket);
      AdmitPendingLocked();
    }

    /** The waiters in ticket order. */
    method QueuedLocked() returns (out: seq<Waiter>)
      requires Valid()
      ensures |out| == |pending|
      ensures forall i, j :: 0 <= i < j < |out| ==> out[i].ticket < out[j].ticket
      ensures forall w :: w in out <==> w in pending.Values
    {
      var queue: seq<Waiter> := [];
      var left := pending.Keys;
      while left != {}
        invariant left <= pending.Keys
        invariant |queue| + |left| == |pending.Keys|
        invariant forall w :: w in queue ==> w.ticket in pending && w.ticket !in left && pending[w.ticket] == w
        invariant forall t :: t in pending && t !in left ==> pending[t] in queue
        invariant DistinctTickets(queue)
        decreases |left|
      {
        var t :| t in left;
        queue := queue + [pending[t]];
        left := left - {t};
      }
      out := SortByTicket(queue);
      forall w ensures w in out <==> w in queue {
        assert w in out <==> w in multiset(out);
      }
    }
  }

  /** The release closure of one turn, which acts at most once. */
  class ReleaseFunc {
    const gate: Gate
    const ticket: nat
    var done: bool

    constructor (gate: Gate, ticket: nat)
      ensures this.gate == gate && this.ticket == ticket && !done
    {
      this.gate, this.ticket, done := gate, ticket, false;
    }

    method End()
      requires gate.Valid()
      modifies this, gate, gate.pending.Values
      ensures gate.Valid() && done
      ensures gate.View() == if old(done) then old(gate.View()) else Release(old(gate.View()), ticket)
    {
      if !done {
        done := true;
        gate.ReleaseLocked(ticket);
      }
    }
  }

  /** Insertion sort by ticket. */
  method SortByTicket(queue: seq<Waiter>) returns (out: seq<Waiter>)
    requires DistinctTickets(queue)
    ensures multiset(out) == multiset(queue) && |out| == |queue|
    ensures SortedTo(out, |out|)
  {
    out := queue;
    var i := 1;
    while i < |out|
      invariant 1 <= i && |out| == |queue| && multiset(out) == multiset(queue)
      invariant DistinctTickets(out) && SortedTo(out, i)
    {
      out := Sink(out, i);
      i := i + 1;
    }
  }

  /** The inner loop: swaps element i down to its place among the sorted ones before it. */
  method Sink(queue: seq<Waiter>, i: nat) returns (out: seq<Waiter>)
    requires i < |queue| && DistinctTickets(queue) && SortedTo(queue, i)
    ensures multiset(out) == multiset(queue) && |out| == |queue|
    ensures DistinctTickets(out) && SortedTo(out, i + 1)
  {
    out := queue;
    var j := i;
    while j > 0 && out[j].ticket < out[j - 1].ticket
      invariant 0 <= j <= i && |out| == |queue| && multiset(out) == multiset(queue)
      invariant DistinctTickets(out) && Sinking(out, i, j)
    {
      SwapSinks(out, i, j);
      out := out[j := out[j - 1]][j - 1 := out[j]];
      j := j - 1;
    }
  }

  /** The first i+1 waiters are sorted apart from the one at j, which belongs at j or before. */
  ghost predicate Sinking(out: seq<Waiter>, i: nat, j: nat)
    requires j <= i < |out|
  {
    && (forall p, q :: 0 <= p < q <= i && p != j && q != j ==> out[p].ticket < out[q].ticket)
    && (forall q :: j < q <= i ==> out[j].ticket < out[q].ticket)
  }

  lemma SwapSinks(out: seq<Waiter>, i: nat, j: nat)
    requires 0 < j <= i < |out| && DistinctTickets(out) && Sinking(out, i, j) && out[j].ticket < out[j - 1].ticket
    ensures var r := out[j := out[j - 1]][j - 1 := out[j]];
      multiset(r) == multiset(out) && DistinctTickets(r) && Sinking(r, i, j - 1)
  {
    var r := out[j := out[j - 1]][j - 1 := out[j]];
    forall p, q | 0 <= p < q < |r| ensures r[p].ticket != r[q].ticket {
      assert r[p] == out[if p == j then j - 1 else if p == j - 1 then j else p];
      assert r[q] == out[if q == j then j - 1 else if q == j - 1 then j else q];
    }
  }

  ghost predicate SortedTo(out: seq<Waiter>, n: nat) {
    forall p, q :: 0 <= p < q < n && q < |out| ==> out[p].ticket < out[q].ticket
  }

  ghost predicate DistinctTickets(out: seq<Waiter>) {
    forall p, q :: 0 <= p < q < |out| ==> out[p].ticket != out[q].ticket
  }
}
