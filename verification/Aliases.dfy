/** Short flag names for a tool's parameters (internal/terminal/exportcli.go). */
module Aliases {
  import opened Text

  /** The candidate may stand for `key`: it is not the help flag, and no other key starts with it. */
  ghost predicate Allowed(cand: string, key: string, keys: seq<string>) {
    cand != "h" && forall k :: k in keys && k != key ==> !HasPrefix(k, cand)
  }

  /** The shortest allowed prefix, or the whole key when there is none. */
  ghost predicate IsShortest(a: string, key: string, keys: seq<string>) {
    && HasPrefix(key, a)
    && (key != "" ==> a != "")
    && (Allowed(a, key, keys) || a == key)
    && (forall i :: 1 <= i < |a| ==> !Allowed(key[..i], key, keys))
  }

  method ShortestAlias(key: string, keys: seq<string>) returns (a: string)
    ensures IsShortest(a, key, keys)
  {
    var i := 1;
    while i <= |key|
      invariant 1 <= i <= |key| + 1
      invariant forall j :: 1 <= j < i ==> !Allowed(key[..j], key, keys)
    {
      var cand := key[..i];
      if cand != "h" {
        var unique := true;
        var n := 0;
        while n < |keys| && unique
          invariant 0 <= n <= |keys|
          invariant unique ==> forall m :: 0 <= m < n && keys[m] != key ==> !HasPrefix(keys[m], cand)
          invariant !unique ==> !Allowed(cand, key, keys)
        {
          if keys[n] != key && HasPrefix(keys[n], cand) {
            unique := false;
          }
          n := n + 1;
        }
        if unique {
          return cand;
        }
      }
      i := i + 1;
    }
    return key;
  }

  /** Every named parameter has its shortest alias. */
  ghost predicate AliasesFor(m: map<string, string>, keys: seq<string>) {
    && (forall k :: k in m <==> k in keys && k != "")
    && (forall k :: k in m ==> IsShortest(m[k], k, keys))
  }

  method ShortAliasMap(keys: seq<string>) returns (m: map<string, string>)
    ensures AliasesFor(m, keys)
  {
    m := map[];
    for n := 0 to |keys|
      invariant forall k :: k in m <==> k in keys[..n] && k != ""
      invariant forall k :: k in m ==> IsShortest(m[k], k, keys)
    {
      assert keys[..n + 1] == keys[..n] + [keys[n]];
      if keys[n] != "" {
        var a := ShortestAlias(keys[n], keys);
        m := m[keys[n] := a];
      }
    }
    assert keys[..|keys|] == keys;
  }

  /** The shortest alias is the only one. */
  lemma ShortestIsUnique(a: string, b: string, key: string, keys: seq<string>)
    requires IsShortest(a, key, keys) && IsShortest(b, key, keys)
    ensures a == b
  {
    assert a == key[..|a|] && b == key[..|b|];
  }

  /** An alias that starts another key is a full key name. */
  lemma PrefixOfAnotherIsFull(m: map<string, string>, keys: seq<string>, k: string, other: string)
    requires AliasesFor(m, keys) && k in m && other in keys && other != k && HasPrefix(other, m[k])
    ensures m[k] == k
  {
  }

  /** No two parameters share an alias, and no alias is another parameter's name. */
  lemma NoAmbiguity(m: map<string, string>, keys: seq<string>, k: string, other: string)
    requires AliasesFor(m, keys) && k in m && other in m && other != k
    ensures m[k] != m[other] && m[k] != other
  {
  }

  ghost predicate StartsAnother(prefix: string, key: string, keys: seq<string>) {
    exists other :: other in keys && other != key && HasPrefix(other, prefix)
  }

  /** A key keeps its full name exactly when each of its proper prefixes starts another key or is the help flag. */
  lemma FullNameIff(m: map<string, string>, keys: seq<string>, k: string)
    requires AliasesFor(m, keys) && k in m
    ensures m[k] == k <==>
              forall i :: 1 <= i < |k| ==> k[..i] == "h" || StartsAnother(k[..i], k, keys)
  {
    assert forall i :: 1 <= i < |k| ==>
      (!Allowed(k[..i], k, keys) <==> k[..i] == "h" || StartsAnother(k[..i], k, keys));
    assert m[k] == k[..|m[k]|];
    if m[k] != k { assert Allowed(k[..|m[k]|], k, keys) && 1 <= |m[k]| < |k|; }
  }

  /** A key that starts another key keeps its full name. */
  lemma PrefixKeysKeepTheirName(m: map<string, string>, keys: seq<string>, k: string, longer: string)
    requires AliasesFor(m, keys) && k in m && longer in keys && longer != k && HasPrefix(longer, k)
    ensures m[k] == k
  {
  }

  /** The help flag is given away only to a parameter that is itself called h. */
  lemma HelpFlagIff(m: map<string, string>, keys: seq<string>)
    requires AliasesFor(m, keys)
    ensures "h" in m.Values <==> "h" in keys
  {
    if k :| k in m && m[k] == "h" { assert k == "h"; }
    if "h" in keys {
      assert IsShortest(m["h"], "h", keys);
      assert m["h"] == "h"[..|m["h"]|];
    }
  }
}
