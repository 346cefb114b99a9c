/** Least-recently-used eviction over a map of last-use times. */
module Recency {
  import opened FiniteSets

  /** `after` keeps the times of its keys, and every key it dropped is no more recent than any it kept. */
  ghost predicate KeepsNewest(before: map<string, int>, after: map<string, int>) {
    && (forall k :: k in after ==> k in before && after[k] == before[k])
    && (forall a, b :: a in after && b in before && b !in after ==> before[b] <= before[a])
  }

  /** The result of dropping the oldest keys while there are more than `bound`. */
  ghost predicate Trimmed(before: map<string, int>, after: map<string, int>, bound: nat) {
    KeepsNewest(before, after) && |after| == if |before| <= bound then |before| else bound
  }

  lemma SubmapSize(before: map<string, int>, after: map<string, int>)
    requires forall k :: k in after ==> k in before
    ensures |after| <= |before|
    ensures |after| == |before| ==> after.Keys == before.Keys
  {
    assert after.Keys <= before.Keys;
    SubsetSize(after.Keys, before.Keys);
  }

  lemma RestampSize(used: map<string, int>, k: string, t: int)
    ensures |used[k := t]| == |used| + if k in used then 0 else 1
  {
    assert used[k := t].Keys == used.Keys + {k};
  }

  lemma Leftover(a: set<string>, b: set<string>)
    requires |a| < |b|
    ensures exists x :: x in b && x !in a
  {
    if forall x :: x in b ==> x in a { SubsetSize(b, a); }
  }

  lemma UntrimmedIsSame(before: map<string, int>, after: map<string, int>, bound: nat)
    requires Trimmed(before, after, bound) && |before| <= bound
    ensures after == before
  {
    SubmapSize(before, after);
  }

  /** One scan for the oldest key; the empty name marks "none yet", so no key may be empty. */
  method Oldest(used: map<string, int>) returns (oldest: string)
    requires "" !in used
    ensures used == map[] ==> oldest == ""
    ensures used != map[] ==> oldest in used && forall k :: k in used ==> used[oldest] <= used[k]
  {
    oldest := "";
    var oldestT := 0;
    var left := used.Keys;
    while left != {}
      invariant left <= used.Keys
      invariant oldest == "" ==> left == used.Keys
      invariant oldest != "" ==> oldest in used && used[oldest] == oldestT
      invariant oldest != "" ==> forall k :: k in used && k !in left ==> oldestT <= used[k]
      decreases |left|
    {
      var id :| id in left;
      if oldest == "" || used[id] < oldestT {
        oldest, oldestT := id, used[id];
      }
      left := left - {id};
    }
    assert oldest == "" ==> used.Keys == {};
  }

  lemma DropOldest(before: map<string, int>, now: map<string, int>, oldest: string)
    requires KeepsNewest(before, now)
    requires oldest in now && forall k :: k in now ==> now[oldest] <= now[k]
    ensures KeepsNewest(before, now - {oldest}) && |now - {oldest}| == |now| - 1
  {
    assert (now - {oldest}).Keys == now.Keys - {oldest};
  }
}
