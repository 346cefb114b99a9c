/**
 The per-workspace configuration cache (internal/mcpcfg/workspace.go:97-281). Content stamps are
 taken to be collision-free, and a base configuration is never written after it is published.
 */
module TierCache {
  import opened Options
  import opened FiniteSets
  import opened Recency

  const TIER_CACHE_MAX: nat := 64
  const TIER_CACHE_IDLE: int := 30 * 60 * 1_000_000_000
  const MAX_INT64: int := 0x7FFF_FFFF_FFFF_FFFF

  /** What reading the project tier finds. */
  datatype File = Missing | Unreadable | Bytes(content: string)

  /** The stamp of a tier: its exact bytes, or nothing for a file that could not be read or is not there. */
  datatype Stamp = Absent | Sum(content: string)

  /** Decoding a tier and merging it onto a base; both may refuse. */
  datatype Rules<!C, !T> = Rules(parse: string -> Option<T>, isEmpty: T -> bool, merge: (C, T) -> Option<C>)

  function StampOf(f: File): Stamp {
    if f.Bytes? then Sum(f.content) else Absent
  }

  /** The tier of a file: None when it is broken or unreadable, an empty one when it is missing. */
  datatype Tier<T> = Broken | Nothing | Keys(tier: T)

  function ReadTier<C, T>(rules: Rules<C, T>, f: File): Tier<T> {
    match f
    case Missing => Nothing
    case Unreadable => Broken
    case Bytes(s) =>
      match rules.parse(s)
      case None => Broken
      case Some(t) => if rules.isEmpty(t) then Nothing else Keys(t)
  }

  /** Uncached resolution: the base unless there is a readable, non-empty tier that merges. */
  function Resolve<C, T>(rules: Rules<C, T>, base: C, f: File): C {
    match ReadTier(rules, f)
    case Broken => base
    case Nothing => base
    case Keys(t) => var m := rules.merge(base, t); if m.Some? then m.value else base
  }

  /** The stamp decides the outcome: a missing and an unreadable tier share a stamp and both mean the base. */
  lemma StampDecides<C, T>(rules: Rules<C, T>, base: C, f: File, g: File)
    requires StampOf(f) == StampOf(g)
    ensures Resolve(rules, base, f) == Resolve(rules, base, g)
  {
  }

  /** Stamps tell apart the contents of two tiers that could be read, and those from one that could not. */
  lemma StampTells(f: File, g: File)
    ensures StampOf(f) == StampOf(g) <==> f == g || (!f.Bytes? && !g.Bytes?)
  {
  }

  /** The tier is read, decoded, not empty and merges; otherwise it is ignored. */
  predicate Applies<C, T>(rules: Rules<C, T>, base: C, f: File) {
    && f.Bytes?
    && rules.parse(f.content).Some?
    && !rules.isEmpty(rules.parse(f.content).value)
    && rules.merge(base, rules.parse(f.content).value).Some?
  }

  /** What that makes of the base: the merge of the decoded tier onto it, or the base as it is. */
  lemma ResolvesTo<C, T>(rules: Rules<C, T>, base: C, f: File)
    ensures Applies(rules, base, f) ==> rules.merge(base, rules.parse(f.content).value) == Some(Resolve(rules, base, f))
    ensures !Applies(rules, base, f) ==> Resolve(rules, base, f) == base
  {
  }

  // ---------------------------------------------------------------- any interleaving of lookups and reloads

  /** `base` names a published configuration, never reused for another. */
  datatype Entry<C> = Entry(cfg: C, base: nat, project: Stamp, global: int, gen: nat, used: int)

  predicate Current<C(==)>(e: Entry<C>, base: nat, gen: nat, project: Stamp, global: int) {
    e.base == base && e.gen == gen && e.project == project && e.global == global
  }

  /** One For call: what it has read so far, and its answer. */
  datatype Lookup<C> =
    | Asked(key: string)
    | Based(key: string, base: nat)
    | Read(key: string, base: nat, file: File)
    | Stamped(key: string, base: nat, file: File, global: int)
    | Ready(key: string, base: nat, file: File, global: int, gen: nat)
    | Probed(key: string, base: nat, file: File, global: int, gen: nat, hit: Option<Entry<C>>)
    | Done(key: string, base: nat, file: File, answer: C)

  datatype World<C> = World(
    bases: seq<C>, live: nat, gen: nat,
    files: map<string, File>, global: int,
    tiers: map<string, Entry<C>>, lookups: seq<Lookup<C>>)

  datatype Step<C> =
    | EditProject(key: string, file: File)
    | EditGlobal(stamp: int)
    | Publish(cfg: C)            // Load: Config.Store, then the two below, in any order
    | Bump
    | Invalidate
    | Ask(key: string)
    | Advance(i: nat)            // the next read of lookup i
    | Finish(i: nat, kept: set<string>, now: int) // answer, and store or drop; pruning keeps some of the cache

  function FileAt<C>(w: World<C>, key: string): File {
    if key in w.files then w.files[key] else Missing
  }

  function SetLookup<C>(w: World<C>, i: nat, l: Lookup<C>): World<C>
    requires i < |w.lookups|
  {
    w.(lookups := w.lookups[i := l])
  }

  function Advanced<C>(w: World<C>, l: Lookup<C>): Lookup<C> {
    match l
    case Asked(key) => Based(key, w.live)
    case Based(key, base) => Read(key, base, FileAt(w, key))
    case Read(key, base, file) => Stamped(key, base, file, w.global)
    case Stamped(key, base, file, global) => Ready(key, base, file, global, w.gen)
    case Ready(key, base, file, global, gen) =>
      Probed(key, base, file, global, gen, if key in w.tiers then Some(w.tiers[key]) else None)
    case _ => l
  }

  /** Answer of a lookup that has probed the cache, and the entry it stores, if any. */
  function Conclude<C(==), T>(rules: Rules<C, T>, base: C, l: Lookup<C>, now: int): (C, Option<Entry<C>>)
    requires l.Probed?
  {
    if l.hit.Some? && Current(l.hit.value, l.base, l.gen, StampOf(l.file), l.global) then
      (l.hit.value.cfg, None)
    else
      match ReadTier(rules, l.file)
      case Nothing => (base, None)
      case Broken => (base, Some(Entry(base, l.base, StampOf(l.file), l.global, l.gen, now)))
      case Keys(t) =>
        var m := rules.merge(base, t);
        var cfg := if m.Some? then m.value else base;
        (cfg, Some(Entry(cfg, l.base, StampOf(l.file), l.global, l.gen, now)))
  }

  /** A lookup that saw an entry, found it outdated and has no tier any more removes what is cached under its key. */
  predicate DropsCached<C(==), T>(rules: Rules<C, T>, l: Lookup<C>)
    requires l.Probed?
  {
    && l.hit.Some? && !Current(l.hit.value, l.base, l.gen, StampOf(l.file), l.global)
    && ReadTier(rules, l.file).Nothing?
  }

  function Restrict<C>(tiers: map<string, Entry<C>>, kept: set<string>): map<string, Entry<C>> {
    map k | k in tiers && k in kept :: tiers[k]
  }

  /** What pruning after an insert may keep: everything while within the bound, else at most the bound. */
  predicate PruneMayKeep<C(==)>(all: map<string, Entry<C>>, kept: set<string>) {
    if |all| <= TIER_CACHE_MAX then Restrict(all, kept) == all else |Restrict(all, kept)| <= TIER_CACHE_MAX
  }

  function Do<C(==), T>(rules: Rules<C, T>, w: World<C>, step: Step<C>): World<C> {
    match step
    case EditProject(key, file) => w.(files := w.files[key := file])
    case EditGlobal(stamp) => w.(global := stamp)
    case Publish(cfg) => w.(bases := w.bases + [cfg], live := |w.bases|)
    case Bump => w.(gen := w.gen + 1)
    case Invalidate => w.(tiers := map[])
    case Ask(key) => w.(lookups := w.lookups + [Asked(key)])
    case Advance(i) => if i < |w.lookups| then SetLookup(w, i, Advanced(w, w.lookups[i])) else w
    case Finish(i, kept, now) =>
      if i < |w.lookups| && w.lookups[i].Probed? && w.lookups[i].base < |w.bases| then
        var l := w.lookups[i];
        var (answer, store) := Conclude(rules, w.bases[l.base], l, now);
        var w1 := SetLookup(w, i, Done(l.key, l.base, l.file, answer));
        if store.Some? then
          var all := w.tiers[l.key := store.value];
          if PruneMayKeep(all, kept) then w1.(tiers := Restrict(all, kept)) else w
        else if DropsCached(rules, l) then w1.(tiers := w.tiers - {l.key})
        else w1
      else w
  }

  function Run<C(==), T>(rules: Rules<C, T>, w: World<C>, steps: seq<Step<C>>): World<C>
    decreases |steps|
  {
    if steps == [] then w else Run(rules, Do(rules, w, steps[0]), steps[1..])
  }

  /** The process just after its first load. */
  function Booted<C>(cfg: C): World<C> {
    World([cfg], 0, 0, map[], 0, map[], [])
  }

  /** The entry is what resolving its base with any tier of its stamp would give. */
  ghost predicate EntryOk<C(!new), T(!new)>(rules: Rules<C, T>, bases: seq<C>, e: Entry<C>) {
    e.base < |bases| && forall f :: StampOf(f) == e.project ==> e.cfg == Resolve(rules, bases[e.base], f)
  }

  ghost predicate LookupOk<C(!new), T(!new)>(rules: Rules<C, T>, bases: seq<C>, l: Lookup<C>) {
    && (!l.Asked? ==> l.base < |bases|)
    && (l.Probed? && l.hit.Some? ==> EntryOk(rules, bases, l.hit.value))
    && (l.Done? ==> l.answer == Resolve(rules, bases[l.base], l.file))
  }

  ghost predicate Coherent<C(!new), T(!new)>(rules: Rules<C, T>, w: World<C>) {
    && w.live < |w.bases|
    && (forall k :: k in w.tiers ==> EntryOk(rules, w.bases, w.tiers[k]))
    && (forall i :: 0 <= i < |w.lookups| ==> LookupOk(rules, w.bases, w.lookups[i]))
  }

  lemma ConcludeOk<C(!new), T(!new)>(rules: Rules<C, T>, bases: seq<C>, l: Lookup<C>, now: int)
    requires l.Probed? && LookupOk(rules, bases, l)
    ensures var (answer, store) := Conclude(rules, bases[l.base], l, now);
      && answer == Resolve(rules, bases[l.base], l.file)
      && (store.Some? ==> EntryOk(rules, bases, store.value))
  {
    forall f | StampOf(f) == StampOf(l.file) ensures Resolve(rules, bases[l.base], f)
        == Resolve(rules, bases[l.base], l.file) {
      StampDecides(rules, bases[l.base], f, l.file);
    }
  }

  /** A new base is appended, so what was said about the others stays true. */
  lemma PublishCoherent<C(!new), T(!new)>(rules: Rules<C, T>, w: World<C>, cfg: C)
    requires Coherent(rules, w)
    ensures Coherent(rules, Do(rules, w, Publish(cfg)))
  {
    var bases := w.bases + [cfg];
    forall k | k in w.tiers ensures EntryOk(rules, bases, w.tiers[k]) { assert EntryOk(rules, w.bases, w.tiers[k]); }
    forall i | 0 <= i < |w.lookups| ensures LookupOk(rules, bases, w.lookups[i]) {
      assert LookupOk(rules, w.bases, w.lookups[i]);
    }
  }

  lemma AdvanceCoherent<C(!new), T(!new)>(rules: Rules<C, T>, w: World<C>, i: nat)
    requires Coherent(rules, w)
    ensures Coherent(rules, Do(rules, w, Advance(i)))
  {
    if i < |w.lookups| { assert LookupOk(rules, w.bases, w.lookups[i]); }
  }

  lemma FinishCoherent<C(!new), T(!new)>(rules: Rules<C, T>, w: World<C>, i: nat, kept: set<string>, now: int)
    requires Coherent(rules, w)
    ensures Coherent(rules, Do(rules, w, Finish(i, kept, now)))
  {
    if i < |w.lookups| && w.lookups[i].Probed? {
      assert LookupOk(rules, w.bases, w.lookups[i]);
      ConcludeOk(rules, w.bases, w.lookups[i], now);
    }
  }

  lemma StepCoherent<C(!new), T(!new)>(rules: Rules<C, T>, w: World<C>, step: Step<C>)
    requires Coherent(rules, w)
    ensures Coherent(rules, Do(rules, w, step))
    ensures w.live <= Do(rules, w, step).live && w.bases <= Do(rules, w, step).bases
  {
    match step
    case Publish(cfg) => PublishCoherent(rules, w, cfg);
    case Advance(i) => AdvanceCoherent(rules, w, i);
    case Finish(i, kept, now) => FinishCoherent(rules, w, i, kept, now);
    case _ =>
  }

  lemma {:induction false} RunCoherent<C(!new), T(!new)>(rules: Rules<C, T>, w: World<C>, steps: seq<Step<C>>)
    requires Coherent(rules, w)
    ensures Coherent(rules, Run(rules, w, steps))
    ensures w.live <= Run(rules, w, steps).live && w.bases <= Run(rules, w, steps).bases
    decreases |steps|
  {
    if steps != [] {
      StepCoherent(rules, w, steps[0]);
      RunCoherent(rules, Do(rules, w, steps[0]), steps[1..]);
    }
  }

  /** However lookups, edits and reloads interleave, a lookup answers what resolving its own reads uncached would. */
  lemma AnswersMatchUncached<C(!new), T(!new)>(rules: Rules<C, T>, cfg: C, steps: seq<Step<C>>, i: nat)
    requires i < |Run(rules, Booted(cfg), steps).lookups| && Run(rules, Booted(cfg), steps).lookups[i].Done?
    ensures var w := Run(rules, Booted(cfg), steps);
      var l := w.lookups[i];
      l.base < |w.bases| && l.answer == Resolve(rules, w.bases[l.base], l.file)
  {
    RunCoherent(rules, Booted(cfg), steps);
    var w := Run(rules, Booted(cfg), steps);
    assert LookupOk(rules, w.bases, w.lookups[i]);
  }

  /** So the answer is the merge c of the tier onto the base it read, if the file it read holds one that decodes, has
      keys and merges. */
  lemma AnswersMerged<C(!new), T(!new)>(rules: Rules<C, T>, cfg: C, steps: seq<Step<C>>, i: nat, s: string, t: T, c: C)
    requires var w := Run(rules, Booted(cfg), steps);
      && i < |w.lookups| && w.lookups[i].Done? && w.lookups[i].base < |w.bases|
      && w.lookups[i].file == Bytes(s)
      && rules.parse(s) == Some(t) && !rules.isEmpty(t)
      && rules.merge(w.bases[w.lookups[i].base], t) == Some(c)
    ensures Run(rules, Booted(cfg), steps).lookups[i].answer == c
  {
    AnswersMatchUncached(rules, cfg, steps, i);
  }

  /** In every other case it is that base: no file, one that cannot be read or decoded, an empty tier, a refused merge. */
  lemma AnswersBase<C(!new), T(!new)>(rules: Rules<C, T>, cfg: C, steps: seq<Step<C>>, i: nat)
    requires i < |Run(rules, Booted(cfg), steps).lookups| && Run(rules, Booted(cfg), steps).lookups[i].Done?
    ensures var w := Run(rules, Booted(cfg), steps);
      && var l := w.lookups[i];
      && l.base < |w.bases|
      && (|| !l.file.Bytes?
          || rules.parse(l.file.content).None?
          || rules.isEmpty(rules.parse(l.file.content).value)
          || rules.merge(w.bases[l.base], rules.parse(l.file.content).value).None?
          ==> l.answer == w.bases[l.base])
  {
    AnswersMatchUncached(rules, cfg, steps, i);
  }

  /** A lookup asked after a reload never answers from an older base, whatever late entries were stored. */
  lemma {:induction false} NeverOlderThanAsked<C(!new),
      T(!new)>(rules: Rules<C, T>, w: World<C>, more: seq<Step<C>>, i: nat, oldest: nat)
    requires Coherent(rules, w) && i < |w.lookups| && oldest <= w.live
    requires !w.lookups[i].Asked? ==> oldest <= w.lookups[i].base
    ensures var r := Run(rules, w, more);
      && i < |r.lookups|
      && (r.lookups[i].Done? ==>
            && oldest <= r.lookups[i].base < |r.bases|
            && r.lookups[i].answer == Resolve(rules, r.bases[r.lookups[i].base], r.lookups[i].file))
    decreases |more|
  {
    if more == [] {
      assert LookupOk(rules, w.bases, w.lookups[i]);
    } else {
      StepCoherent(rules, w, more[0]);
      NeverOlderThanAsked(rules, Do(rules, w, more[0]), more[1..], i, oldest);
    }
  }

  // ---------------------------------------------------------------- what is cached

  /** What is cached under the key was made from the same base, load, tier and machine-wide file. */
  predicate Hits<C>(tiers: map<string, Entry<C>>, key: string, id: nat, file: File, global: int, gen: nat) {
    && key in tiers
    && tiers[key].base == id && tiers[key].gen == gen && tiers[key].global == global
    && (file.Bytes? ==> tiers[key].project == Sum(file.content))
    && (!file.Bytes? ==> tiers[key].project == Absent)
  }

  lemma HitsIsCurrent<C>(tiers: map<string, Entry<C>>, key: string, id: nat, file: File, global: int, gen: nat)
    ensures Hits(tiers, key, id, file, global, gen) <==>
      key in tiers && Current(tiers[key], id, gen, StampOf(file), global)
  {
  }

  /** There is a tier, if only one that is broken. */
  predicate HasTier<C, T>(rules: Rules<C, T>, file: File) {
    || file.Unreadable?
    || (file.Bytes? && rules.parse(file.content).None?)
    || (file.Bytes? && !rules.isEmpty(rules.parse(file.content).value))
  }

  // ---------------------------------------------------------------- a lookup with nothing in between

  /** Lookup number i from start to end; `kept` is what pruning keeps should the cache be over its bound. */
  function LookupSteps<C>(i: nat, key: string, kept: set<string>, now: int): seq<Step<C>> {
    [Ask(key), Advance(i), Advance(i), Advance(i), Advance(i), Advance(i), Finish(i, kept, now)]
  }

  lemma {:induction false} RunThen<C, T>(rules: Rules<C, T>, w: World<C>, a: seq<Step<C>>, b: seq<Step<C>>)
    ensures Run(rules, w, a + b) == Run(rules, Run(rules, w, a), b)
    decreases |a|
  {
    if a == [] {
      assert a + b == b;
    } else {
      assert (a + b)[1..] == a[1..] + b;
      RunThen(rules, Do(rules, w, a[0]), a[1..], b);
    }
  }

  lemma RunOne<C, T>(rules: Rules<C, T>, w: World<C>, a: Step<C>)
    ensures Run(rules, w, [a]) == Do(rules, w, a)
  {
    assert Run(rules, Do(rules, w, a), []) == Do(rules, w, a);
  }

  lemma RunTwo<C, T>(rules: Rules<C, T>, w: World<C>, a: Step<C>, b: Step<C>)
    ensures Run(rules, w, [a, b]) == Do(rules, Do(rules, w, a), b)
  {
    assert [a, b][1..] == [b];
    RunOne(rules, Do(rules, w, a), b);
  }

  lemma ThreeReads<C, T>(rules: Rules<C, T>, w: World<C>, key: string)
    ensures var i := |w.lookups|;
      Run(rules, w, [Ask(key), Advance(i), Advance(i)])
      == w.(lookups := w.lookups + [Read(key, w.live, FileAt(w, key))])
  {
    var i := |w.lookups|;
    var w1 := Do(rules, w, Ask(key));
    var w2 := Do(rules, w1, Advance(i));
    assert w2.lookups == w.lookups + [Based(key, w.live)];
    var w3 := Do(rules, w2, Advance(i));
    assert w3.lookups == w.lookups + [Read(key, w.live, FileAt(w, key))];
    var steps: seq<Step<C>> := [Ask(key), Advance(i), Advance(i)];
    assert steps[1..] == [Advance(i), Advance(i)];
    RunTwo(rules, w1, Advance(i), Advance(i));
  }

  lemma ThreeMoreReads<C, T>(rules: Rules<C, T>, w: World<C>, before: seq<Lookup<C>>, key: string, base: nat, file: File)
    requires w.lookups == before + [Read(key, base, file)]
    ensures var i := |before|;
      var hit := if key in w.tiers then Some(w.tiers[key]) else None;
      Run(rules, w, [Advance(i), Advance(i), Advance(i)])
      == w.(lookups := before + [Probed(key, base, file, w.global, w.gen, hit)])
  {
    var i := |before|;
    var w1 := Do(rules, w, Advance(i));
    assert w1.lookups == before + [Stamped(key, base, file, w.global)];
    var w2 := Do(rules, w1, Advance(i));
    assert w2.lookups == before + [Ready(key, base, file, w.global, w.gen)];
    var w3 := Do(rules, w2, Advance(i));
    var hit := if key in w.tiers then Some(w.tiers[key]) else None;
    assert w3.lookups == before + [Probed(key, base, file, w.global, w.gen, hit)];
    var two: seq<Step<C>> := [Advance(i), Advance(i)];
    assert ([Advance(i)] + two)[1..] == two;
    assert [Advance(i)] + two == [Advance(i), Advance(i), Advance(i)];
    RunTwo(rules, w1, Advance(i), Advance(i));
  }

  /** It reads everything as it stands. */
  lemma ReadsAll<C, T>(rules: Rules<C, T>, w: World<C>, key: string, kept: set<string>, now: int)
    ensures var i := |w.lookups|;
      var hit := if key in w.tiers then Some(w.tiers[key]) else None;
      var probed := Probed(key, w.live, FileAt(w, key), w.global, w.gen, hit);
      Run(rules, w, LookupSteps(i, key, kept, now)) == Do(rules, w.(lookups := w.lookups + [probed]), Finish(i, kept, now))
  {
    var i := |w.lookups|;
    var first: seq<Step<C>>, rest: seq<Step<C>> := [Ask(key), Advance(i), Advance(i)], [Advance(i), Advance(i), Advance(i)];
    var last: seq<Step<C>> := [Finish(i, kept, now)];
    var w3, w6 := Run(rules, w, first), Run(rules, Run(rules, w, first), rest);
    ThreeReads(rules, w, key);
    ThreeMoreReads(rules, w3, w.lookups, key, w.live, FileAt(w, key));
    assert LookupSteps(i, key, kept, now) == first + (rest + last);
    RunThen(rules, w, first, rest + last);
    RunThen(rules, w3, rest, last);
    RunOne(rules, w6, Finish(i, kept, now));
  }

  /** Keeping everything is fine while the bound is not passed, and keeping nothing is fine then. */
  function Keepable<C>(w: World<C>, key: string): set<string> {
    if key in w.tiers || |w.tiers| < TIER_CACHE_MAX then w.tiers.Keys + {key} else {}
  }

  lemma KeepableMayKeep<C>(w: World<C>, key: string, e: Entry<C>)
    requires |w.tiers| <= TIER_CACHE_MAX
    ensures PruneMayKeep(w.tiers[key := e], Keepable(w, key))
  {
    var all := w.tiers[key := e];
    assert all.Keys == w.tiers.Keys + {key};
    if key in w.tiers || |w.tiers| < TIER_CACHE_MAX {
      assert Restrict(all, Keepable(w, key)) == all;
      assert key in w.tiers ==> w.tiers.Keys + {key} == w.tiers.Keys;
    } else {
      assert |all.Keys| == |w.tiers.Keys| + 1;
      assert Restrict(all, {}) == map[];
    }
  }

  lemma FinishAnswers<C, T>(rules: Rules<C, T>, w: World<C>, i: nat, kept: set<string>, now: int)
    requires i < |w.lookups| && w.lookups[i].Probed? && w.lookups[i].base < |w.bases|
    requires var l := w.lookups[i];
      var store := Conclude(rules, w.bases[l.base], l, now).1;
      store.Some? ==> PruneMayKeep(w.tiers[l.key := store.value], kept)
    ensures var l := w.lookups[i];
      Do(rules, w, Finish(i, kept, now)).lookups
      == w.lookups[i := Done(l.key, l.base, l.file, Conclude(rules, w.bases[l.base], l, now).0)]
  {
  }

  /** Whatever was cached and whatever other lookups are under way, its answer is for the live configuration and the
      file as it is now. */
  lemma UndisturbedLookup<C(!new), T(!new)>(rules: Rules<C, T>, w: World<C>, key: string, now: int)
    requires Coherent(rules, w) && |w.tiers| <= TIER_CACHE_MAX
    ensures var i := |w.lookups|;
      && var r := Run(rules, w, LookupSteps(i, key, Keepable(w, key), now));
      && |r.lookups| == i + 1 && r.lookups[i].Done?
      && (Applies(rules, w.bases[w.live], FileAt(w, key)) ==>
            Some(r.lookups[i].answer) == rules.merge(w.bases[w.live], rules.parse(FileAt(w, key).content).value))
      && (!Applies(rules, w.bases[w.live], FileAt(w, key)) ==> r.lookups[i].answer == w.bases[w.live])
  {
    var i, kept, base, f := |w.lookups|, Keepable(w, key), w.bases[w.live], FileAt(w, key);
    var hit := if key in w.tiers then Some(w.tiers[key]) else None;
    var probed := Probed(key, w.live, f, w.global, w.gen, hit);
    ReadsAll(rules, w, key, kept, now);
    ConcludeOk(rules, w.bases, probed, now);
    ResolvesTo(rules, base, f);
    var (answer, store) := Conclude(rules, base, probed, now);
    if store.Some? { KeepableMayKeep(w, key, store.value); }
    FinishAnswers(rules, w.(lookups := w.lookups + [probed]), i, kept, now);
  }

  /** An edit of a workspace's file and a reload both show at once, and neither shows anywhere else. */
  lemma EditsShow<C(!new), T>(rules: Rules<C, T>, w: World<C>, key: string, file: File, cfg: C, other: string)
    ensures var r := Do(rules, Do(rules, w, EditProject(key, file)), Publish(cfg));
      && FileAt(r, key) == file
      && (other != key ==> FileAt(r, other) == FileAt(w, other))
      && r.live < |r.bases| && r.bases[r.live] == cfg
  {
  }

  /** What the lookup saw in the cache answers it. */
  predicate SawFresh<C>(l: Lookup<C>)
    requires l.Probed?
  {
    l.hit.Some? && Hits(map[l.key := l.hit.value], l.key, l.base, l.file, l.global, l.gen)
  }

  /** A lookup that saw a fresh entry answers that and leaves the cache as it was. */
  lemma HitLeavesAll<C(!new), T(!new)>(rules: Rules<C, T>, w: World<C>, i: nat, kept: set<string>, now: int)
    requires i < |w.lookups| && w.lookups[i].Probed? && w.lookups[i].base < |w.bases| && SawFresh(w.lookups[i])
    ensures var r := Do(rules, w, Finish(i, kept, now));
      r.lookups[i].Done? && r.lookups[i].answer == w.lookups[i].hit.value.cfg && r.tiers == w.tiers
  {
  }

  lemma MissConcludes<C(!new), T(!new)>(rules: Rules<C, T>, base: C, l: Lookup<C>, now: int)
    requires l.Probed? && !SawFresh(l)
    ensures var (answer, store) := Conclude(rules, base, l, now);
      store == if HasTier(rules, l.file) then Some(Entry(answer, l.base, StampOf(l.file), l.global, l.gen, now)) else None
    ensures DropsCached(rules, l) <==> l.hit.Some? && !HasTier(rules, l.file)
  {
  }

  /** One that did not, and has a tier, stores its answer under everything it read, with all else while there is room. */
  lemma MissStores<C(!new), T(!new)>(rules: Rules<C, T>, w: World<C>, i: nat, kept: set<string>, now: int)
    requires i < |w.lookups| && w.lookups[i].Probed? && w.lookups[i].base < |w.bases| && !SawFresh(w.lookups[i])
    requires HasTier(rules, w.lookups[i].file) && Do(rules, w, Finish(i, kept, now)).lookups[i].Done?
    ensures var l, r := w.lookups[i], Do(rules, w, Finish(i, kept, now));
      && var all := w.tiers[l.key := Entry(r.lookups[i].answer, l.base, StampOf(l.file), l.global, l.gen, now)];
      && r.tiers == Restrict(all, kept) && |r.tiers| <= 64 && (|all| <= 64 ==> r.tiers == all)
  {
    MissConcludes(rules, w.bases[w.lookups[i].base], w.lookups[i], now);
  }

  /** One that saw an outdated entry and has no tier removes what is cached under its key; without an entry it leaves the
      cache as it was. */
  lemma MissDrops<C(!new), T(!new)>(rules: Rules<C, T>, w: World<C>, i: nat, kept: set<string>, now: int)
    requires i < |w.lookups| && w.lookups[i].Probed? && w.lookups[i].base < |w.bases| && !SawFresh(w.lookups[i])
    requires !HasTier(rules, w.lookups[i].file)
    ensures var l, r := w.lookups[i], Do(rules, w, Finish(i, kept, now));
      r.lookups[i].Done? && r.tiers == if l.hit.Some? then w.tiers - {l.key} else w.tiers
  {
    MissConcludes(rules, w.bases[w.lookups[i].base], w.lookups[i], now);
  }

  /** The entry under the key would answer a lookup of the key that starts now. */
  predicate Fresh<C>(w: World<C>, key: string) {
    Hits(w.tiers, key, w.live, FileAt(w, key), w.global, w.gen)
  }

  /** A fresh entry stays so until its workspace's file or the machine-wide one has other contents, or the configuration
      is reloaded or reset: exactly those steps end it. */
  lemma FreshUntilChanged<C, T>(rules: Rules<C, T>, w: World<C>, key: string, step: Step<C>)
    requires Fresh(w, key) && w.live < |w.bases| && !step.Finish?
    ensures Fresh(Do(rules, w, step), key) <==>
      match step
      case EditProject(k, file) => k == key ==> StampOf(file) == StampOf(FileAt(w, key))
      case EditGlobal(stamp) => stamp == w.global
      case Publish(_) => false
      case Bump => false
      case Invalidate => false
      case _ => true
  {
  }

  lemma StepBounded<C, T>(rules: Rules<C, T>, w: World<C>, step: Step<C>)
    requires |w.tiers| <= TIER_CACHE_MAX
    ensures |Do(rules, w, step).tiers| <= TIER_CACHE_MAX
  {
    if step.Finish? && step.i < |w.lookups| {
      var key := w.lookups[step.i].key;
      SubsetSize((w.tiers - {key}).Keys, w.tiers.Keys);
    }
  }

  /** However lookups, edits and reloads interleave, the cache never holds more than 64 entries. */
  lemma {:induction false} NeverOverBound<C, T>(rules: Rules<C, T>, w: World<C>, steps: seq<Step<C>>)
    requires |w.tiers| <= TIER_CACHE_MAX
    ensures |Run(rules, w, steps).tiers| <= TIER_CACHE_MAX
    decreases |steps|
  {
    if steps != [] {
      StepBounded(rules, w, steps[0]);
      NeverOverBound(rules, Do(rules, w, steps[0]), steps[1..]);
    }
  }

  // ---------------------------------------------------------------- the cache, updated in place

  function Uses<C>(tiers: map<string, Entry<C>>): map<string, int> {
    map k | k in tiers :: tiers[k].used
  }

  function NotIdle(used: map<string, int>, floor: int): map<string, int> {
    map k | k in used && used[k] >= floor :: used[k]
  }

  lemma UsesShape<C>(tiers: map<string, Entry<C>>, k: string)
    ensures |Uses(tiers)| == |tiers|
    ensures Uses(tiers - {k}) == Uses(tiers) - {k}
  {
    assert Uses(tiers).Keys == tiers.Keys;
  }

  /** What pruning leaves: at most 64 entries, none unused for more than 30 minutes; and of those within the 30 minutes
      it drops one only if 64 that were used no earlier are left. */
  lemma PrunedTo<C>(before: map<string, Entry<C>>, after: map<string, Entry<C>>, now: int, k: string)
    requires Trimmed(NotIdle(Uses(before), now - TIER_CACHE_IDLE), Uses(after), TIER_CACHE_MAX)
    requires k in before
    ensures |after| <= 64
    ensures k in after ==> now - before[k].used <= 30 * 60 * 1_000_000_000
    ensures k !in after && now - before[k].used <= 30 * 60 * 1_000_000_000 ==>
      |after| == 64 && forall a :: a in after ==> before[k].used <= after[a].used
  {
    UsesShape(after, "");
    var awake := NotIdle(Uses(before), now - TIER_CACHE_IDLE);
    assert k in after ==> k in Uses(after) && k in awake;
    if k !in after && k in awake {
      assert k !in Uses(after);
      if |awake| <= TIER_CACHE_MAX {
        UntrimmedIsSame(awake, Uses(after), TIER_CACHE_MAX);
        assert false;
      }
      forall a | a in after ensures before[k].used <= after[a].used { assert a in Uses(after); }
    }
  }

  lemma HasTierIsRead<C, T>(rules: Rules<C, T>, file: File)
    ensures HasTier(rules, file) <==> !ReadTier(rules, file).Nothing?
  {
  }

  class Cache<C(==, !new)> {
    var tiers: map<string, Entry<C>>

    /** Keys carry a separator, so none is empty, and no clock reading is the largest integer. */
    ghost predicate Valid()
      reads this
    {
      "" !in tiers && forall k :: k in tiers ==> tiers[k].used < MAX_INT64
    }

    constructor ()
      ensures Valid() && tiers == map[]
    {
      tiers := map[];
    }

    method Invalidate()
      modifies this
      ensures Valid() && tiers == map[]
    {
      tiers := map[];
    }

    /** The key least recently used; "" only when there is none. */
    method OldestKey() returns (oldestKey: string)
      requires Valid()
      ensures tiers != map[] ==> oldestKey in tiers && forall k :: k in tiers ==> tiers[oldestKey].used <= tiers[k].used
    {
      oldestKey := "";
      var oldest := MAX_INT64;
      var left := tiers.Keys;
      while left != {}
        invariant left <= tiers.Keys
        invariant oldestKey == "" ==> left == tiers.Keys && oldest == MAX_INT64
        invariant oldestKey != "" ==> oldestKey in tiers && tiers[oldestKey].used == oldest
        invariant oldestKey != "" ==> forall k :: k in tiers && k !in left ==> oldest <= tiers[k].used
        decreases |left|
      {
        var key :| key in left;
        if tiers[key].used < oldest {
          oldestKey, oldest := key, tiers[key].used;
        }
        left := left - {key};
      }
      assert oldestKey == "" ==> tiers.Keys == {};
    }

    method DropIdle(floor: int)
      requires Valid()
      modifies this
      ensures Valid() && Uses(tiers) == NotIdle(old(Uses(tiers)), floor)
      ensures forall k :: k in tiers ==> k in old(tiers) && tiers[k] == old(tiers)[k]
    {
      var left := tiers.Keys;
      while left != {}
        invariant Valid() && left <= tiers.Keys
        invariant forall k :: k in tiers ==> k in old(tiers) && tiers[k] == old(tiers)[k]
        invariant forall k :: k in old(tiers) ==> (k in tiers <==> k in left || old(tiers)[k].used >= floor)
        decreases |left|
      {
        var key :| key in left;
        left := left - {key};
        if tiers[key].used < floor {
          tiers := tiers - {key};
        }
      }
    }

    /** Idle entries go first, then the least recently used while over the bound. */
    method PruneTiersLocked(now: int)
      requires Valid()
      modifies this
      ensures Valid() && Trimmed(NotIdle(old(Uses(tiers)), now - TIER_CACHE_IDLE), Uses(tiers), TIER_CACHE_MAX)
      ensures forall k :: k in tiers ==> k in old(tiers) && tiers[k] == old(tiers)[k]
      ensures |tiers| <= TIER_CACHE_MAX
    {
      DropIdle(now - TIER_CACHE_IDLE);
      ghost var awake := tiers;
      UsesShape(tiers, "");
      while |tiers| > TIER_CACHE_MAX
        invariant Valid()
        invariant KeepsNewest(Uses(awake), Uses(tiers))
        invariant forall k :: k in tiers ==> k in awake && tiers[k] == awake[k]
        invariant |Uses(tiers)| == |tiers| && (tiers == awake || TIER_CACHE_MAX <= |tiers| < |awake|)
        decreases |tiers|
      {
        var oldestKey := OldestKey();
        if oldestKey == "" { return; }
        UsesShape(tiers, oldestKey);
        DropOldest(Uses(awake), Uses(tiers), oldestKey);
        tiers := tiers - {oldestKey};
        UsesShape(tiers, oldestKey);
      }
    }

    /** Caches one resolution; the cache never ends up over its bound. */
    method RememberTier(key: string, entry: Entry<C>, now: int)
      requires Valid() && key != "" && entry.used < MAX_INT64
      modifies this
      ensures Valid() && |tiers| <= TIER_CACHE_MAX
      ensures tiers == Restrict(old(tiers)[key := entry], tiers.Keys)
      ensures PruneMayKeep(old(tiers)[key := entry], tiers.Keys)
      ensures |old(tiers)[key := entry]| <= 64 ==> tiers == old(tiers)[key := entry]
    {
      tiers := tiers[key := entry];
      ghost var all := tiers;
      if |tiers| > TIER_CACHE_MAX {
        PruneTiersLocked(now);
      }
      assert tiers == Restrict(all, tiers.Keys);
    }

    /** One lookup with nothing in between: `base` is the live configuration, number `id` of those published. */
    method For<T(!new)>(rules: Rules<C, T>, ghost bases: seq<C>, base: C, id: nat, key: string, file: File,
        global: int, gen: nat, now: int)
      returns (cfg: C)
      requires Valid() && |tiers| <= TIER_CACHE_MAX && key != "" && now < MAX_INT64
      requires id < |bases| && bases[id] == base
      requires forall k :: k in tiers ==> EntryOk(rules, bases, tiers[k])
      modifies this
      ensures Valid() && |tiers| <= TIER_CACHE_MAX
      ensures cfg == Resolve(rules, base, file)
      ensures forall k :: k in tiers ==> EntryOk(rules, bases, tiers[k])
      ensures Applies(rules, base, file) ==> rules.merge(base, rules.parse(file.content).value) == Some(cfg)
      ensures !Applies(rules, base, file) ==> cfg == base
      ensures Hits(old(tiers), key, id, file, global, gen) ==> tiers == old(tiers)[key := old(tiers)[key].(used := now)]
      ensures !Hits(old(tiers), key, id, file, global, gen) && !HasTier(rules, file) ==> tiers == old(tiers) - {key}
      ensures !Hits(old(tiers), key, id, file, global, gen) && HasTier(rules, file) ==>
        && var all := old(tiers)[key := Entry(cfg, id, StampOf(file), global, gen, now)];
        && PruneMayKeep(all, tiers.Keys)
        && tiers == Restrict(all, tiers.Keys)
    {
      ResolvesTo(rules, base, file);
      HitsIsCurrent(tiers, key, id, file, global, gen);
      HasTierIsRead(rules, file);
      if key in tiers && Current(tiers[key], id, gen, StampOf(file), global) {
        cfg := tiers[key].cfg;
        tiers := tiers[key := tiers[key].(used := now)];
        assert |tiers| == |old(tiers)| by { assert tiers.Keys == old(tiers).Keys; }
        return;
      }
      match ReadTier(rules, file) {
        case Nothing =>
          cfg := base;
          if key in tiers {
            tiers := tiers - {key};
            assert |tiers| <= |old(tiers)| by { assert tiers.Keys == old(tiers).Keys - {key}; }
          }
        case Broken =>
          cfg := base;
          Remember(rules, bases, key, file, Entry(cfg, id, StampOf(file), global, gen, now));
        case Keys(t) =>
          var m := rules.merge(base, t);
          cfg := if m.Some? then m.value else base;
          Remember(rules, bases, key, file, Entry(cfg, id, StampOf(file), global, gen, now));
      }
    }

    method Remember<T(!new)>(ghost rules: Rules<C, T>, ghost bases: seq<C>, key: string, ghost file: File,
        entry: Entry<C>)
      requires Valid() && |tiers| <= TIER_CACHE_MAX && key != "" && entry.used < MAX_INT64
      requires forall k :: k in tiers ==> EntryOk(rules, bases, tiers[k])
      requires entry.base < |bases| && entry.project == StampOf(file)
          && entry.cfg == Resolve(rules, bases[entry.base], file)
      modifies this
      ensures Valid() && |tiers| <= TIER_CACHE_MAX
      ensures forall k :: k in tiers ==> EntryOk(rules, bases, tiers[k])
      ensures tiers == Restrict(old(tiers)[key := entry], tiers.Keys)
      ensures PruneMayKeep(old(tiers)[key := entry], tiers.Keys)
    {
      forall f | StampOf(f) == entry.project ensures entry.cfg == Resolve(rules, bases[entry.base], f) {
        StampDecides(rules, bases[entry.base], f, file);
      }
      RememberTier(key, entry, entry.used);
    }
  }
}
