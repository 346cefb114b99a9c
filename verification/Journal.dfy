/**
 The ledger of channel mutations and its daily upload cap (internal/youtube/journal.go).
 Saves are taken to succeed, and a date is its day number.
 */
module Ledger {
  import opened Options
  import opened Decimal

  datatype Status = Claimed | Completed | Abandoned | Released

  datatype Slot = Slot(id: string, kind: string, videoID: string, commentID: string, status: Status, detail: string,
      dated: int)

  datatype Event = Event(kind: string, videoID: string, detail: string)

  datatype State = State(date: int, maxPerDay: int, uploadsToday: nat, slots: seq<Slot>, events: seq<Event>)

  const ACROSS_DATE := "unfinished across a date boundary"

  /** The slot is charged against its day: an upload that was not released. */
  predicate Charged(s: Slot) { s.kind == "upload" && s.status != Released }

  function Open(s: Slot, date: int): nat {
    if s.dated == date && Charged(s) then 1 else 0
  }

  function CountOpen(slots: seq<Slot>, date: int): nat {
    if slots == [] then 0 else CountOpen(slots[..|slots| - 1], date) + Open(slots[|slots| - 1], date)
  }

  // ---------------------------------------------------------------- the operations as functions

  function Close(s: Slot): Slot {
    if s.status == Claimed then s.(status := Abandoned, detail := ACROSS_DATE) else s
  }

  function CloseAll(slots: seq<Slot>): seq<Slot> {
    seq(|slots|, i requires 0 <= i < |slots| => Close(slots[i]))
  }

  function ClosingEvents(slots: seq<Slot>): seq<Event> {
    if slots == [] then []
    else
      var s := slots[|slots| - 1];
      ClosingEvents(slots[..|slots| - 1])
      + if s.status == Claimed then [Event("slot_abandoned", s.videoID, s.id)] else []
  }

  function RollIn(j: State, today: int): State {
    if j.date == today then j.(uploadsToday := CountOpen(j.slots, j.date))
    else j.(slots := CloseAll(j.slots), events := j.events + ClosingEvents(j.slots), date := today, uploadsToday := 0)
  }

  predicate AtCap(j: State, kind: string) {
    kind == "upload" && j.maxPerDay > 0 && CountOpen(j.slots, j.date) >= j.maxPerDay
  }

  function SlotID(stamp: string, n: nat): string {
    "s_" + stamp + ['_'] + Numeral(n)
  }

  /** The ledger after a claim, and the slot unless the cap refuses it. */
  function ClaimIn(j: State, kind: string, today: int, stamp: string): (State, Option<Slot>) {
    var r := RollIn(j, today);
    if AtCap(r, kind) then (r, None)
    else
      var slot := Slot(SlotID(stamp, |r.slots| + 1), kind, "", "", Claimed, "", r.date);
      var slots := r.slots + [slot];
      (r.(slots := slots, uploadsToday := CountOpen(slots, r.date)), Some(slot))
  }

  predicate NamedByVideo(kind: string) { kind in {"", "upload", "edit", "delete"} }

  function BindID(s: Slot, pageID: string): Slot {
    if pageID == "" then s
    else if NamedByVideo(s.kind) then s.(videoID := pageID)
    else s.(commentID := pageID)
  }

  /** The first slot with an id; |slots| when there is none. */
  function Find(slots: seq<Slot>, id: string): (i: nat)
    ensures i <= |slots|
    ensures forall k :: 0 <= k < i ==> slots[k].id != id
    ensures i < |slots| ==> slots[i].id == id
  {
    if slots == [] || slots[0].id == id then 0 else 1 + Find(slots[1..], id)
  }

  function CompleteIn(j: State, id: string, pageID: string): State {
    var i := Find(j.slots, id);
    if i == |j.slots| then j
    else j.(slots := j.slots[i := BindID(j.slots[i].(status := Completed), pageID)])
  }

  function AbandonIn(j: State, id: string, pageID: string, reason: string): State {
    var i := Find(j.slots, id);
    if i == |j.slots| then j
    else
      var s := BindID(j.slots[i].(status := Abandoned), pageID).(detail := reason);
      j.(slots := j.slots[i := s], events := j.events + [Event("slot_abandoned", s.videoID, reason)])
  }

  function ReleaseIn(j: State, id: string, reason: string): State {
    var i := Find(j.slots, id);
    if i == |j.slots| then j
    else
      var slots := j.slots[i := j.slots[i].(status := Released, detail := reason)];
      j.(slots := slots, events := j.events + [Event("slot_released", "", reason)],
          uploadsToday := CountOpen(slots, j.date))
  }

  // ---------------------------------------------------------------- what each operation does to the slots

  ghost function ChargedAt(slots: seq<Slot>, date: int): set<nat> {
    set i: nat | i < |slots| && slots[i].dated == date && slots[i].kind == "upload" && slots[i].status != Released
  }

  /** The count is the number of slots dated that day that are uploads and were not released. */
  lemma {:induction false} CountOpenExact(slots: seq<Slot>, date: int)
    ensures CountOpen(slots, date) == |ChargedAt(slots, date)|
  {
    if slots != [] {
      var n := |slots| - 1;
      CountOpenExact(slots[..n], date);
      var before, now := ChargedAt(slots[..n], date), ChargedAt(slots, date);
      assert now == if Open(slots[n], date) == 1 then before + {n} else before;
    }
  }

  /** A claim is refused exactly when an upload is asked for, there is a cap, and the day already has as many uploads
      charged as the cap allows. */
  lemma ClaimRefusedIff(j: State, kind: string, today: int, stamp: string)
    ensures ClaimIn(j, kind, today, stamp).1.None? <==>
      kind == "upload" && j.maxPerDay > 0 && CountOpen(j.slots, today) >= j.maxPerDay
  {
    CountClosed(j.slots, today);
  }

  /** The slot handed out is claimed for the kind asked for, dated today and bound to nothing, under an id made of the
      clock and its place in the ledger, where it comes last. */
  lemma ClaimedSlot(j: State, kind: string, today: int, stamp: string)
    requires ClaimIn(j, kind, today, stamp).1.Some?
    ensures var (r, granted) := ClaimIn(j, kind, today, stamp);
      && granted.value.kind == kind && granted.value.status == Claimed && granted.value.dated == today
      && granted.value.videoID == "" && granted.value.commentID == "" && granted.value.detail == ""
      && granted.value.id == "s_" + stamp + "_" + Numeral(|j.slots| + 1)
      && |r.slots| == |j.slots| + 1 && r.slots[|j.slots|] == granted.value && r.date == today
  {
  }

  /** On a new day exactly the slots still claimed are closed, and the counter starts at zero. */
  lemma NewDayCloses(j: State, today: int, i: nat)
    requires today != j.date && i < |j.slots|
    ensures var r, s := RollIn(j, today), j.slots[i];
      && r.date == today && r.uploadsToday == 0 && r.maxPerDay == j.maxPerDay && |r.slots| == |j.slots|
      && (s.status != Claimed ==> r.slots[i] == s)
      && (s.status == Claimed ==>
            r.slots[i] == s.(status := Abandoned, detail := "unfinished across a date boundary"))
  {
  }

  lemma SameDayOnlyRecounts(j: State)
    ensures RollIn(j, j.date) == State(j.date, j.maxPerDay, CountOpen(j.slots, j.date), j.slots, j.events)
  {
  }

  /** `at` lists the claimed slots, in order. */
  ghost predicate ListsClaimed(slots: seq<Slot>, at: seq<nat>) {
    && (forall k :: 0 <= k < |at| ==> at[k] < |slots| && slots[at[k]].status == Claimed)
    && (forall k, l :: 0 <= k < l < |at| ==> at[k] < at[l])
    && (forall i :: 0 <= i < |slots| && slots[i].status == Claimed ==> i in at)
  }

  /** A new day records one event for each slot it closes, in slot order, with its video and its id. */
  lemma {:induction false} ClosingEventsExact(slots: seq<Slot>) returns (at: seq<nat>)
    ensures ListsClaimed(slots, at) && |ClosingEvents(slots)| == |at|
    ensures forall k :: 0 <= k < |at| ==>
      at[k] < |slots| && ClosingEvents(slots)[k] == Event("slot_abandoned", slots[at[k]].videoID, slots[at[k]].id)
  {
    if slots == [] {
      at := [];
    } else {
      var n := |slots| - 1;
      var before := ClosingEventsExact(slots[..n]);
      at := before + if slots[n].status == Claimed then [n] else [];
    }
  }

  lemma NewDayRecords(j: State, today: int) returns (at: seq<nat>)
    requires today != j.date
    ensures ListsClaimed(j.slots, at) && |RollIn(j, today).events| == |j.events| + |at|
    ensures j.events <= RollIn(j, today).events
    ensures forall k :: 0 <= k < |at| ==>
      var s := j.slots[at[k]]; RollIn(j, today).events[|j.events| + k] == Event("slot_abandoned", s.videoID, s.id)
  {
    at := ClosingEventsExact(j.slots);
  }

  /** The page's id names the video for uploads, edits, deletions and slots of no kind, a comment for every other kind;
      an empty one names nothing. */
  predicate Bound(s: Slot, pageID: string, r: Slot) {
    var byVideo := s.kind == "" || s.kind == "upload" || s.kind == "edit" || s.kind == "delete";
    && r.id == s.id && r.kind == s.kind && r.dated == s.dated
    && r.videoID == (if pageID != "" && byVideo then pageID else s.videoID)
    && r.commentID == (if pageID != "" && !byVideo then pageID else s.commentID)
  }

  /** The slot is the first in the ledger with its id. */
  ghost predicate FirstWith(slots: seq<Slot>, id: string, i: nat) {
    i < |slots| && slots[i].id == id && forall k :: 0 <= k < i ==> slots[k].id != id
  }

  lemma CompleteEffect(j: State, id: string, pageID: string, i: nat)
    requires FirstWith(j.slots, id, i)
    ensures var s, r := j.slots[i], CompleteIn(j, id, pageID);
      && i < |r.slots| && Bound(s, pageID, r.slots[i]) && r.slots[i].status == Completed && r.slots[i].detail == s.detail
      && r == j.(slots := j.slots[i := r.slots[i]])
  {
  }

  lemma AbandonEffect(j: State, id: string, pageID: string, reason: string, i: nat)
    requires FirstWith(j.slots, id, i)
    ensures var s, r := j.slots[i], AbandonIn(j, id, pageID, reason);
      && i < |r.slots| && Bound(s, pageID, r.slots[i]) && r.slots[i].status == Abandoned && r.slots[i].detail == reason
      && r == j.(slots := j.slots[i := r.slots[i]],
                 events := j.events + [Event("slot_abandoned", r.slots[i].videoID, reason)])
  {
  }

  lemma ReleaseEffect(j: State, id: string, reason: string, i: nat)
    requires FirstWith(j.slots, id, i)
    ensures var s, r := j.slots[i], ReleaseIn(j, id, reason);
      && i < |r.slots| && Bound(s, "", r.slots[i]) && r.slots[i].status == Released && r.slots[i].detail == reason
      && r == j.(slots := j.slots[i := r.slots[i]], events := j.events + [Event("slot_released", "", reason)],
                 uploadsToday := CountOpen(r.slots, j.date))
  {
  }

  /** An id no slot has finishes nothing. */
  lemma UnknownIdChangesNothing(j: State, id: string, pageID: string, reason: string)
    requires forall k :: 0 <= k < |j.slots| ==> j.slots[k].id != id
    ensures CompleteIn(j, id, pageID) == AbandonIn(j, id, pageID, reason) == ReleaseIn(j, id, reason) == j
  {
  }

  // ---------------------------------------------------------------- whole runs

  datatype Step =
    | Roll(today: int)
    | ClaimSlot(kind: string, today: int, stamp: string)
    | CompleteSlot(id: string, pageID: string)
    | AbandonSlot(id: string, pageID: string, reason: string)
    | ReleaseSlot(id: string, reason: string)

  function Do(j: State, step: Step): State {
    match step
    case Roll(today) => RollIn(j, today)
    case ClaimSlot(kind, today, stamp) => ClaimIn(j, kind, today, stamp).0
    case CompleteSlot(id, pageID) => CompleteIn(j, id, pageID)
    case AbandonSlot(id, pageID, reason) => AbandonIn(j, id, pageID, reason)
    case ReleaseSlot(id, reason) => ReleaseIn(j, id, reason)
  }

  function Run(j: State, steps: seq<Step>): State
    decreases |steps|
  {
    if steps == [] then j else Run(Do(j, steps[0]), steps[1..])
  }

  function Fresh(maxPerDay: int, today: int): State {
    State(today, maxPerDay, 0, [], [])
  }

  // ---------------------------------------------------------------- identity of slots

  predicate HasNumber(s: Slot, stamp: string, n: nat) { s.id == SlotID(stamp, n) }

  ghost predicate Numbered(s: Slot, n: nat) {
    exists stamp :: HasNumber(s, stamp, n)
  }

  predicate OneNamed(s: Slot) {
    if NamedByVideo(s.kind) then s.commentID == "" else s.videoID == ""
  }

  /** Ids carry the position of their slot, and each page identifier sits in the field its kind owns. */
  ghost predicate WellKept(j: State) {
    forall i :: 0 <= i < |j.slots| ==> Numbered(j.slots[i], i + 1) && OneNamed(j.slots[i])
  }

  /** What never changes in a slot. */
  predicate SameSlot(a: Slot, b: Slot) {
    a.id == b.id && a.kind == b.kind && a.dated == b.dated
  }

  /** No step removes a slot or changes its id, kind or day; only a claim adds one, at the end. */
  lemma SlotsPersist(j: State, step: Step)
    ensures |j.slots| <= |Do(j, step).slots|
    ensures forall i :: 0 <= i < |j.slots| ==> SameSlot(Do(j, step).slots[i], j.slots[i])
    ensures forall i :: 0 <= i < |j.slots| && OneNamed(j.slots[i]) ==> OneNamed(Do(j, step).slots[i])
    ensures |j.slots| < |Do(j, step).slots| ==>
      && step.ClaimSlot? && |Do(j, step).slots| == |j.slots| + 1
      && var s := Do(j, step).slots[|j.slots|]; HasNumber(s, step.stamp, |j.slots| + 1) && OneNamed(s)
  {
    match step
    case ClaimSlot(kind, today, stamp) => RollPersists(j, today);
    case Roll(today) => RollPersists(j, today);
    case _ =>
  }

  lemma RollPersists(j: State, today: int)
    ensures var r := RollIn(j, today);
      && |r.slots| == |j.slots|
      && (forall i :: 0 <= i < |j.slots| ==> SameSlot(r.slots[i], j.slots[i]))
      && (forall i :: 0 <= i < |j.slots| && OneNamed(j.slots[i]) ==> OneNamed(r.slots[i]))
  {
  }

  lemma SlotKept(j: State, step: Step, i: nat)
    requires WellKept(j) && i < |j.slots|
    ensures i < |Do(j, step).slots| && Numbered(Do(j, step).slots[i], i + 1) && OneNamed(Do(j, step).slots[i])
  {
    SlotsPersist(j, step);
    assert SameSlot(Do(j, step).slots[i], j.slots[i]) && Numbered(j.slots[i], i + 1);
    var stamp :| HasNumber(j.slots[i], stamp, i + 1);
    assert HasNumber(Do(j, step).slots[i], stamp, i + 1);
  }

  lemma StepKeeps(j: State, step: Step)
    requires WellKept(j)
    ensures WellKept(Do(j, step))
  {
    SlotsPersist(j, step);
    var r := Do(j, step);
    forall i | 0 <= i < |r.slots| ensures Numbered(r.slots[i], i + 1) && OneNamed(r.slots[i]) {
      if i < |j.slots| { SlotKept(j, step, i); } else { assert HasNumber(r.slots[i], step.stamp, i + 1); }
    }
  }

  lemma {:induction false} RunKeeps(j: State, steps: seq<Step>)
    requires WellKept(j)
    ensures WellKept(Run(j, steps))
    decreases |steps|
  {
    if steps != [] {
      StepKeeps(j, steps[0]);
      RunKeeps(Do(j, steps[0]), steps[1..]);
    }
  }

  lemma IdsDiffer(j: State, a: nat, b: nat)
    requires WellKept(j) && a < |j.slots| && b < |j.slots| && j.slots[a].id == j.slots[b].id
    ensures a == b
  {
    assert Numbered(j.slots[a], a + 1) && Numbered(j.slots[b], b + 1);
    var s :| HasNumber(j.slots[a], s, a + 1);
    var t :| HasNumber(j.slots[b], t, b + 1);
    NamedNumeralInjective("s_" + s, a + 1, "s_" + t, b + 1, '_');
  }

  /** No two slots of any run share an id, whatever the clock read when they were claimed. */
  lemma SlotIdsNeverRepeat(maxPerDay: int, today: int, steps: seq<Step>, a: nat, b: nat)
    requires var j := Run(Fresh(maxPerDay, today), steps);
      a < |j.slots| && b < |j.slots| && j.slots[a].id == j.slots[b].id
    ensures a == b
  {
    RunKeeps(Fresh(maxPerDay, today), steps);
    IdsDiffer(Run(Fresh(maxPerDay, today), steps), a, b);
  }

  /** Finishing a slot changes that slot and no other. */
  lemma FinishesExactlyOne(j: State, step: Step, i: nat)
    requires WellKept(j) && i < |j.slots|
    requires !step.Roll? && !step.ClaimSlot? && step.id == j.slots[i].id
    ensures forall k :: 0 <= k < |j.slots| && k != i ==> Do(j, step).slots[k] == j.slots[k]
    ensures Do(j, step).slots[i].status
        == match step case CompleteSlot(_, _) => Completed case AbandonSlot(_, _, _) => Abandoned case _ => Released
  {
    IdsDiffer(j, Find(j.slots, step.id), i);
  }

  // ---------------------------------------------------------------- the daily cap

  lemma {:induction false} CountReplaced(slots: seq<Slot>, i: nat, s: Slot, date: int)
    requires i < |slots|
    ensures CountOpen(slots[i := s], date) == CountOpen(slots, date) - Open(slots[i], date) + Open(s, date)
  {
    var n := |slots| - 1;
    if i == n {
      assert slots[i := s][..n] == slots[..n];
    } else {
      assert slots[i := s][..n] == slots[..n][i := s];
      CountReplaced(slots[..n], i, s, date);
    }
  }

  lemma {:induction false} CountClosed(slots: seq<Slot>, date: int)
    ensures CountOpen(CloseAll(slots), date) == CountOpen(slots, date)
  {
    if slots != [] {
      assert CloseAll(slots)[..|slots| - 1] == CloseAll(slots[..|slots| - 1]);
      CountClosed(slots[..|slots| - 1], date);
    }
  }

  ghost predicate WithinCap(j: State) {
    forall date :: CountOpen(j.slots, date) <= j.maxPerDay
  }

  /** The step puts a released upload back on the books. */
  predicate Revives(j: State, step: Step) {
    && (step.CompleteSlot? || step.AbandonSlot?)
    && var i := Find(j.slots, step.id);
       i < |j.slots| && j.slots[i].kind == "upload" && j.slots[i].status == Released
  }

  /** The day a revived slot belongs to. */
  function RevivedDay(j: State, step: Step): int
    requires Revives(j, step)
  {
    j.slots[Find(j.slots, step.id)].dated
  }

  /** Completing or abandoning a slot charges it; the count moves only if it was released. */
  lemma CountAfterFinish(j: State, step: Step, date: int)
    requires step.CompleteSlot? || step.AbandonSlot?
    ensures CountOpen(Do(j, step).slots, date) ==
      CountOpen(j.slots, date) + if Revives(j, step) && RevivedDay(j, step) == date then 1 else 0
  {
    var i := Find(j.slots, step.id);
    if i < |j.slots| {
      var s := Do(j, step).slots[i];
      assert Do(j, step).slots == j.slots[i := s];
      CountReplaced(j.slots, i, s, date);
    }
  }

  lemma CountAfterRelease(j: State, id: string, reason: string, date: int)
    ensures CountOpen(ReleaseIn(j, id, reason).slots, date) <= CountOpen(j.slots, date)
  {
    var i := Find(j.slots, id);
    if i < |j.slots| { CountReplaced(j.slots, i, ReleaseIn(j, id, reason).slots[i], date); }
  }

  lemma CountAfterClaim(j: State, kind: string, today: int, stamp: string, date: int)
    ensures var (r, slot) := ClaimIn(j, kind, today, stamp);
      CountOpen(r.slots, date) == CountOpen(j.slots, date)
        + if slot.Some? && kind == "upload" && today == date then 1 else 0
    ensures ClaimIn(j, kind, today, stamp).1.Some? && kind == "upload" && j.maxPerDay > 0
        ==> CountOpen(j.slots, today) < j.maxPerDay
  {
    var rolled := RollIn(j, today);
    CountClosed(j.slots, date);
    CountClosed(j.slots, today);
    if !AtCap(rolled, kind) {
      var slots := ClaimIn(j, kind, today, stamp).0.slots;
      assert slots[..|slots| - 1] == rolled.slots;
    }
  }

  /** The uploads a run asks for on one day. */
  function Tries(steps: seq<Step>, day: int): nat {
    if steps == [] then 0 else Try(steps[0], day) + Tries(steps[1..], day)
  }

  function Try(step: Step, day: int): nat {
    if step.ClaimSlot? && step.kind == "upload" && step.today == day then 1 else 0
  }

  predicate NoneReleased(j: State) {
    forall i :: 0 <= i < |j.slots| ==> j.slots[i].status != Released
  }

  lemma StepWithoutRelease(j: State, step: Step)
    requires NoneReleased(j) && !step.ReleaseSlot?
    ensures NoneReleased(Do(j, step)) && Do(j, step).maxPerDay == j.maxPerDay
  {
  }

  lemma TryCounts(j: State, step: Step, day: int)
    requires NoneReleased(j) && !step.ReleaseSlot? && j.maxPerDay > 0
    ensures CountOpen(Do(j, step).slots, day) == CountOpen(j.slots, day)
      + if Try(step, day) == 1 && CountOpen(j.slots, day) < j.maxPerDay then 1 else 0
  {
    match step
    case Roll(today) => CountClosed(j.slots, day);
    case ClaimSlot(kind, today, stamp) =>
      CountAfterClaim(j, kind, today, stamp, day);
      ClaimRefusedIff(j, kind, today, stamp);
    case _ => CountAfterFinish(j, step, day);
  }

  lemma {:induction false} TriesCount(j: State, steps: seq<Step>, day: int)
    requires NoneReleased(j) && j.maxPerDay > 0 && CountOpen(j.slots, day) <= j.maxPerDay
    requires forall i :: 0 <= i < |steps| ==> !steps[i].ReleaseSlot?
    ensures var asked := CountOpen(j.slots, day) + Tries(steps, day);
      CountOpen(Run(j, steps).slots, day) == if asked <= j.maxPerDay then asked else j.maxPerDay
    decreases |steps|
  {
    if steps != [] {
      TryCounts(j, steps[0], day);
      StepWithoutRelease(j, steps[0]);
      TriesCount(Do(j, steps[0]), steps[1..], day);
    }
  }

  /** While nothing is released, each day gets exactly as many uploads as the cap: those asked for first. The next one is
      granted if fewer than the cap were asked for, and refused if not, whatever else the run did on whatever days. */
  lemma FirstUploadsGranted(cap: int, today: int, steps: seq<Step>, day: int, stamp: string)
    requires cap > 0 && forall i :: 0 <= i < |steps| ==> !steps[i].ReleaseSlot?
    ensures var j := Run(Fresh(cap, today), steps);
      && CountOpen(j.slots, day) == (if Tries(steps, day) <= cap then Tries(steps, day) else cap)
      && (ClaimIn(j, "upload", day, stamp).1.Some? <==> Tries(steps, day) < cap)
  {
    TriesCount(Fresh(cap, today), steps, day);
    RunKeepsCap(Fresh(cap, today), steps);
    ClaimRefusedIff(Run(Fresh(cap, today), steps), "upload", day, stamp);
  }

  /** The step revives an upload of a day that is full. */
  predicate Overfills(j: State, step: Step) {
    Revives(j, step) && CountOpen(j.slots, RevivedDay(j, step)) == j.maxPerDay
  }

  /** A step exceeds some day's cap exactly when it revives an upload of a day already full. */
  lemma StepWithinCapIff(j: State, step: Step)
    requires WithinCap(j) && j.maxPerDay > 0
    ensures WithinCap(Do(j, step)) <==> !Overfills(j, step)
    ensures Do(j, step).maxPerDay == j.maxPerDay
  {
    var r := Do(j, step);
    match step
    case Roll(today) =>
      forall date ensures CountOpen(r.slots, date) <= r.maxPerDay { CountClosed(j.slots, date); }
    case ClaimSlot(kind, today, stamp) =>
      forall date ensures CountOpen(r.slots, date) <= r.maxPerDay { CountAfterClaim(j, kind, today, stamp, date); }
    case ReleaseSlot(id, reason) =>
      forall date ensures CountOpen(r.slots, date) <= r.maxPerDay { CountAfterRelease(j, id, reason, date); }
    case _ =>
      if Revives(j, step) { CountAfterFinish(j, step, RevivedDay(j, step)); }
      forall date
        ensures CountOpen(r.slots, date) == CountOpen(j.slots, date)
          + if Revives(j, step) && RevivedDay(j, step) == date then 1 else 0
      {
        CountAfterFinish(j, step, date);
      }
  }

  predicate NeverOverfills(j: State, steps: seq<Step>)
    decreases |steps|
  {
    steps == [] || (!Overfills(j, steps[0]) && NeverOverfills(Do(j, steps[0]), steps[1..]))
  }

  /** The cap holds after every step of the run. */
  ghost predicate AlwaysWithin(j: State, steps: seq<Step>)
    decreases |steps|
  {
    WithinCap(j) && (steps == [] || AlwaysWithin(Do(j, steps[0]), steps[1..]))
  }

  /** The cap holds throughout a run exactly when the run never revives an upload of a full day. */
  lemma {:induction false} AlwaysWithinIff(j: State, steps: seq<Step>)
    requires WithinCap(j) && j.maxPerDay > 0
    ensures AlwaysWithin(j, steps) <==> NeverOverfills(j, steps)
    decreases |steps|
  {
    if steps != [] {
      StepWithinCapIff(j, steps[0]);
      if WithinCap(Do(j, steps[0])) { AlwaysWithinIff(Do(j, steps[0]), steps[1..]); }
    }
  }

  lemma {:induction false} WithinAtTheEnd(j: State, steps: seq<Step>)
    requires AlwaysWithin(j, steps)
    ensures WithinCap(Run(j, steps))
    decreases |steps|
  {
    if steps != [] { WithinAtTheEnd(Do(j, steps[0]), steps[1..]); }
  }

  /** No day ever has more charged uploads than the cap, with any clock, even one that goes back. */
  lemma DailyCapHolds(cap: int, today: int, steps: seq<Step>, date: int)
    requires cap > 0 && NeverOverfills(Fresh(cap, today), steps)
    ensures CountOpen(Run(Fresh(cap, today), steps).slots, date) <= cap
  {
    AlwaysWithinIff(Fresh(cap, today), steps);
    WithinAtTheEnd(Fresh(cap, today), steps);
    RunKeepsCap(Fresh(cap, today), steps);
  }

  lemma {:induction false} RunKeepsCap(j: State, steps: seq<Step>)
    ensures Run(j, steps).maxPerDay == j.maxPerDay
    decreases |steps|
  {
    if steps != [] { RunKeepsCap(Do(j, steps[0]), steps[1..]); }
  }

  /** A charged upload stays charged through everything but the release of its own slot. */
  lemma ChargedUntilReleased(j: State, step: Step, i: nat)
    requires WellKept(j) && i < |j.slots| && Charged(j.slots[i])
    ensures i < |Do(j, step).slots|
    ensures Charged(Do(j, step).slots[i]) <==> !(step.ReleaseSlot? && step.id == j.slots[i].id)
  {
    SlotsPersist(j, step);
    if step.ReleaseSlot? && step.id == j.slots[i].id { FinishesExactlyOne(j, step, i); }
  }

  // ---------------------------------------------------------------- the cached counter

  predicate Exact(j: State) { j.uploadsToday == CountOpen(j.slots, j.date) }

  /** A date roll leaves the counter right exactly when the new day has no charged upload yet. */
  lemma RollExactIff(j: State, today: int)
    ensures Exact(RollIn(j, today)) <==> j.date == today || CountOpen(j.slots, today) == 0
  {
    CountClosed(j.slots, today);
  }

  /** Every claim that succeeds and every release that finds its slot recounts, whatever the clock did. */
  lemma RecountsOnClaimAndRelease(j: State, step: Step)
    requires || (step.ClaimSlot? && ClaimIn(j, step.kind, step.today, step.stamp).1 != None)
             || (step.ReleaseSlot? && Find(j.slots, step.id) < |j.slots|)
    ensures Exact(Do(j, step))
  {
  }

  /** The clock never goes back. */
  predicate Forward(j: State, step: Step) {
    (step.Roll? || step.ClaimSlot?) ==> j.date <= step.today
  }

  predicate AllForward(j: State, steps: seq<Step>)
    decreases |steps|
  {
    steps == [] || (Forward(j, steps[0]) && AllForward(Do(j, steps[0]), steps[1..]))
  }

  ghost predicate NoneLater(j: State) {
    forall i :: 0 <= i < |j.slots| ==> j.slots[i].dated <= j.date
  }

  lemma {:induction false} NoneYet(slots: seq<Slot>, date: int)
    requires forall i :: 0 <= i < |slots| ==> slots[i].dated < date
    ensures CountOpen(slots, date) == 0
  {
    if slots != [] { NoneYet(slots[..|slots| - 1], date); }
  }

  lemma StepNoneLater(j: State, step: Step)
    requires NoneLater(j) && Forward(j, step)
    ensures NoneLater(Do(j, step))
  {
    SlotsPersist(j, step);
    var r := Do(j, step);
    forall i | 0 <= i < |r.slots| ensures r.slots[i].dated <= r.date {
      if i < |j.slots| { assert SameSlot(r.slots[i], j.slots[i]); }
    }
  }

  lemma RollExact(j: State, today: int)
    requires NoneLater(j) && j.date <= today
    ensures Exact(RollIn(j, today))
  {
    if today != j.date { NoneYet(j.slots, today); }
    RollExactIff(j, today);
  }

  /** Completing or abandoning a slot spoils the counter exactly when it revives an upload of the ledger's own day. */
  lemma FinishExactIff(j: State, step: Step)
    requires Exact(j) && (step.CompleteSlot? || step.AbandonSlot?)
    ensures Exact(Do(j, step)) <==> !(Revives(j, step) && RevivedDay(j, step) == j.date)
  {
    CountAfterFinish(j, step, j.date);
  }

  lemma {:induction false} RunNoneLater(j: State, steps: seq<Step>)
    requires NoneLater(j) && AllForward(j, steps)
    ensures NoneLater(Run(j, steps))
    decreases |steps|
  {
    if steps != [] {
      StepNoneLater(j, steps[0]);
      RunNoneLater(Do(j, steps[0]), steps[1..]);
    }
  }

  /** The steps after which the code sets the counter: a roll, any claim, and a release that finds its slot. */
  predicate SetsCounter(j: State, step: Step) {
    step.Roll? || step.ClaimSlot? || (step.ReleaseSlot? && Find(j.slots, step.id) < |j.slots|)
  }

  /** With a clock that never goes back the counter is today's charged uploads after each of those steps, whatever was
      completed, abandoned or revived before. */
  lemma CounterRestored(cap: int, today: int, steps: seq<Step>, last: Step)
    requires var j := Run(Fresh(cap, today), steps);
      AllForward(Fresh(cap, today), steps) && Forward(j, last) && SetsCounter(j, last)
    ensures Exact(Do(Run(Fresh(cap, today), steps), last))
  {
    RunNoneLater(Fresh(cap, today), steps);
    var j := Run(Fresh(cap, today), steps);
    match last
    case Roll(day) => RollExact(j, day);
    case ClaimSlot(_, day, _) => RollExact(j, day);
    case ReleaseSlot(_, _) => RecountsOnClaimAndRelease(j, last);
  }

  /** The step leaves the counter right, given that it was. */
  predicate KeepsCounter(j: State, step: Step) {
    Revives(j, step) ==> RevivedDay(j, step) != j.date
  }

  /** Between those steps the counter stays right exactly as long as no upload of the ledger's day is revived. */
  lemma StepExactIff(j: State, step: Step)
    requires Exact(j) && NoneLater(j) && Forward(j, step)
    ensures Exact(Do(j, step)) <==> KeepsCounter(j, step)
  {
    match step
    case Roll(today) => RollExact(j, today);
    case ClaimSlot(kind, today, stamp) => RollExact(j, today);
    case ReleaseSlot(id, reason) =>
    case _ => FinishExactIff(j, step);
  }

  predicate AlwaysKeepsCounter(j: State, steps: seq<Step>)
    decreases |steps|
  {
    steps == [] || (KeepsCounter(j, steps[0]) && AlwaysKeepsCounter(Do(j, steps[0]), steps[1..]))
  }

  /** The counter is right after every step of the run. */
  ghost predicate AlwaysExact(j: State, steps: seq<Step>)
    decreases |steps|
  {
    Exact(j) && (steps == [] || AlwaysExact(Do(j, steps[0]), steps[1..]))
  }

  /** With a clock that never goes back the counter is right after every step of a run exactly when the run never
      revives an upload of the ledger's own day. */
  lemma {:induction false} CounterExactIff(j: State, steps: seq<Step>)
    requires Exact(j) && NoneLater(j) && AllForward(j, steps)
    ensures AlwaysExact(j, steps) <==> AlwaysKeepsCounter(j, steps)
    decreases |steps|
  {
    if steps != [] {
      StepExactIff(j, steps[0]);
      StepNoneLater(j, steps[0]);
      if Exact(Do(j, steps[0])) { CounterExactIff(Do(j, steps[0]), steps[1..]); }
    }
  }

  const FIRST := SlotID("a", 1)

  /** Claim, release, claim again, complete the released slot: with a cap of one the day has two. */
  lemma ReleasedStates(today: int)
    ensures Do(Do(Fresh(1, today), ClaimSlot("upload", today, "a")), ReleaseSlot(FIRST, "")).slots
            == [Slot(FIRST, "upload", "", "", Released, "", today)]
    ensures var j2 := Do(Do(Fresh(1, today), ClaimSlot("upload", today, "a")), ReleaseSlot(FIRST, ""));
      j2.date == today && j2.maxPerDay == 1
  {
    var one := Slot(FIRST, "upload", "", "", Claimed, "", today);
    var j1 := Do(Fresh(1, today), ClaimSlot("upload", today, "a"));
    assert j1.slots == [one];
  }

  lemma RevivedStates(today: int) returns (j4: State)
    ensures j4 == Do(Do(Do(Do(Fresh(1, today), ClaimSlot("upload", today, "a")), ReleaseSlot(FIRST, "")),
        ClaimSlot("upload", today, "b")), CompleteSlot(FIRST, ""))
    ensures CountOpen(j4.slots, today) == 2
  {
    var one := Slot(FIRST, "upload", "", "", Claimed, "", today);
    ReleasedStates(today);
    var j2 := Do(Do(Fresh(1, today), ClaimSlot("upload", today, "a")), ReleaseSlot(FIRST, ""));
    CountOne(j2.slots, today);
    var j3 := Do(j2, ClaimSlot("upload", today, "b"));
    var two := j3.slots[1];
    assert j3.slots == [one.(status := Released), two];
    j4 := Do(j3, CompleteSlot(FIRST, ""));
    assert j4.slots == [one.(status := Completed), two];
    assert j4.slots[..1] == [one.(status := Completed)];
    CountOne(j4.slots[..1], today);
  }

  lemma CountOne(slots: seq<Slot>, date: int)
    requires |slots| == 1
    ensures CountOpen(slots, date) == Open(slots[0], date)
  {
    assert slots[..0] == [];
  }

  lemma RevivedUploadBreaksTheCap(today: int)
    ensures exists steps :: CountOpen(Run(Fresh(1, today), steps).slots, today) > 1
  {
    var j4 := RevivedStates(today);
    RunFour(Fresh(1, today), ClaimSlot("upload", today, "a"), ReleaseSlot(FIRST, ""), ClaimSlot("upload", today, "b"),
        CompleteSlot(FIRST, ""));
  }

  lemma RunFour(j: State, a: Step, b: Step, c: Step, d: Step)
    ensures exists steps :: Run(j, steps) == Do(Do(Do(Do(j, a), b), c), d)
  {
    RunFirst(j, a, [b] + ([c] + ([d] + [])));
    RunFirst(Do(j, a), b, [c] + ([d] + []));
    RunFirst(Do(Do(j, a), b), c, [d] + []);
    RunFirst(Do(Do(Do(j, a), b), c), d, []);
    assert Run(j, [a] + ([b] + ([c] + ([d] + [])))) == Do(Do(Do(Do(j, a), b), c), d);
  }

  lemma RunFirst(j: State, a: Step, rest: seq<Step>)
    ensures Run(j, [a] + rest) == Run(Do(j, a), rest)
  {
    assert ([a] + rest)[1..] == rest;
  }

  ghost predicate NewestFor(slots: seq<Slot>, i: nat, videoID: string)
    requires i < |slots|
  {
    slots[i].videoID == videoID && forall k :: i < k < |slots| ==> slots[k].videoID != videoID
  }

  // ---------------------------------------------------------------- the ledger, updated in place

  class Journal {
    var date: int
    var maxPerDay: int
    var uploadsToday: nat
    var slots: seq<Slot>
    var events: seq<Event>

    ghost function View(): State
      reads this
    {
      State(date, maxPerDay, uploadsToday, slots, events)
    }

    /** OpenJournal: an existing file keeps its slots; the cap is the configured one, and the day is rolled. */
    constructor (existing: Option<State>, maxPerDay: int, today: int)
      ensures View() == match existing
        case None => Fresh(maxPerDay, today)
        case Some(j) => RollIn(j.(maxPerDay := maxPerDay), today)
    {
      this.maxPerDay := maxPerDay;
      match existing {
        case None => date, uploadsToday, slots, events := today, 0, [], [];
        case Some(j) => date, uploadsToday, slots, events := j.date, j.uploadsToday, j.slots, j.events;
      }
      new;
      if existing.Some? { RollDate(today); }
    }

    method CountOpenUploads() returns (n: nat)
      ensures n == CountOpen(slots, date)
    {
      n := 0;
      for i := 0 to |slots|
        invariant n == CountOpen(slots[..i], date)
      {
        var s := slots[i];
        assert slots[..i + 1][..i] == slots[..i];
        if s.dated == date && s.kind == "upload" && s.status != Released {
          n := n + 1;
        }
      }
      assert slots[..|slots|] == slots;
    }

    method RollDate(today: int)
      modifies this
      ensures View() == RollIn(old(View()), today)
    {
      if date == today {
        uploadsToday := CountOpenUploads();
        return;
      }
      ghost var before := slots;
      for i := 0 to |slots|
        invariant |slots| == |before| && date == old(date) && maxPerDay == old(maxPerDay)
        invariant forall k :: 0 <= k < |before| ==> slots[k] == if k < i then Close(before[k]) else before[k]
        invariant events == old(events) + ClosingEvents(before[..i])
      {
        assert before[..i + 1][..i] == before[..i];
        if slots[i].status == Claimed {
          slots := slots[i := slots[i].(status := Abandoned, detail := ACROSS_DATE)];
          events := events + [Event("slot_abandoned", slots[i].videoID, slots[i].id)];
        }
      }
      assert before[..|before|] == before;
      assert slots == CloseAll(before);
      date := today;
      uploadsToday := 0;
    }

    /** Takes a slot before the mutation happens; None when the day's uploads are used up. */
    method Claim(kind: string, today: int, stamp: string) returns (slot: Option<Slot>)
      modifies this
      ensures (View(), slot) == ClaimIn(old(View()), kind, today, stamp)
      ensures slot.None? <==> kind == "upload" && maxPerDay > 0 && CountOpen(old(slots), today) >= maxPerDay
      ensures slot.Some? ==> slot.value.kind == kind && slot.value.status == Claimed && slot.value.dated == today
    {
      ClaimRefusedIff(View(), kind, today, stamp);
      RollDate(today);
      if kind == "upload" && maxPerDay > 0 {
        var used := CountOpenUploads();
        if used >= maxPerDay { return None; }
      }
      var s := Slot(SlotID(stamp, |slots| + 1), kind, "", "", Claimed, "", date);
      slots := slots + [s];
      uploadsToday := CountOpenUploads();
      return Some(s);
    }

    /** The index of the first slot with an id, by scanning. */
    method Scan(id: string) returns (i: nat)
      ensures i == Find(slots, id)
    {
      i := 0;
      while i < |slots| && slots[i].id != id
        invariant i <= |slots| && forall k :: 0 <= k < i ==> slots[k].id != id
      {
        i := i + 1;
      }
    }

    method Complete(id: string, pageID: string) returns (found: bool)
      modifies this
      ensures View() == CompleteIn(old(View()), id, pageID)
      ensures found <==> exists k :: 0 <= k < |old(slots)| && old(slots)[k].id == id
    {
      var i := Scan(id);
      if i == |slots| { return false; }
      slots := slots[i := slots[i].(status := Completed)];
      slots := slots[i := BindID(slots[i], pageID)];
      return true;
    }

    method Abandon(id: string, pageID: string, reason: string) returns (found: bool)
      modifies this
      ensures View() == AbandonIn(old(View()), id, pageID, reason)
      ensures found <==> exists k :: 0 <= k < |old(slots)| && old(slots)[k].id == id
    {
      var i := Scan(id);
      if i == |slots| { return false; }
      slots := slots[i := slots[i].(status := Abandoned)];
      slots := slots[i := BindID(slots[i], pageID)];
      slots := slots[i := slots[i].(detail := reason)];
      events := events + [Event("slot_abandoned", slots[i].videoID, reason)];
      return true;
    }

    method Release(id: string, reason: string) returns (found: bool)
      modifies this
      ensures View() == ReleaseIn(old(View()), id, reason)
      ensures found <==> exists k :: 0 <= k < |old(slots)| && old(slots)[k].id == id
    {
      var i := Scan(id);
      if i == |slots| { return false; }
      slots := slots[i := slots[i].(status := Released, detail := reason)];
      events := events + [Event("slot_released", "", reason)];
      uploadsToday := CountOpenUploads();
      return true;
    }

    /** The newest slot bound to a video, never one of a kind that comments name. */
    method SlotForVideo(videoID: string) returns (r: Option<Slot>)
      ensures r.None? <==> videoID == "" || forall k :: 0 <= k < |slots| ==> slots[k].videoID != videoID
      ensures r.Some? ==> exists i :: 0 <= i < |slots| && slots[i] == r.value && NewestFor(slots, i, videoID)
      ensures WellKept(View()) && r.Some? ==> NamedByVideo(r.value.kind)
    {
      var i := |slots|;
      while i > 0
        invariant 0 <= i <= |slots|
        invariant videoID != "" ==> forall k :: i <= k < |slots| ==> slots[k].videoID != videoID
      {
        i := i - 1;
        if slots[i].videoID == videoID && videoID != "" {
          assert WellKept(View()) ==> OneNamed(View().slots[i]);
          return Some(slots[i]);
        }
      }
      return None;
    }
  }
}
