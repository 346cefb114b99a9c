/** The deep merge of configuration layers (internal/mcpcfg/config.go:541-592). */
module ConfigMerge {
  import opened Options

  /** A decoded JSON value. Strings, numbers, booleans and arrays replace wholesale, so one case covers them. */
  datatype Json = Null | Scalar(text: string) | Obj(fields: map<string, Json>)

  type Layer = map<string, Json>

  /** The value left when `u` is laid over `d`: objects merge key by key, anything else replaces. */
  function Over(d: Json, u: Json): Json
    decreases u
  {
    if d.Obj? && u.Obj? then
      Obj(map k | k in d.fields.Keys + u.fields.Keys ::
        if k !in u.fields then d.fields[k]
        else if k !in d.fields then u.fields[k]
        else Over(d.fields[k], u.fields[k]))
    else u
  }

  function MergeNested(def: Layer, user: Layer): Layer {
    Over(Obj(def), Obj(user)).fields
  }

  function DropNulls(user: Layer): Layer {
    map k | k in user && user[k] != Null :: user[k]
  }

  /** What the merge leaves under a key the upper layer has. */
  function Written(def: Layer, user: Layer, k: string): Json
    requires k in user
  {
    if k in def then Over(def[k], user[k]) else user[k]
  }

  /** The lower layer with all but the keys in `left` of the upper one written into it. */
  ghost predicate WrittenBut(def: Layer, user: Layer, left: set<string>, out: Layer) {
    && out.Keys == def.Keys + (user.Keys - left)
    && forall k :: k in out ==> out[k] == if k in user && k !in left then Written(def, user, k) else def[k]
  }

  lemma AllWritten(def: Layer, user: Layer, out: Layer)
    requires WrittenBut(def, user, {}, out)
    ensures out == MergeNested(def, user)
  {
    var r := MergeNested(def, user);
    assert out.Keys == r.Keys;
    forall k | k in out ensures out[k] == r[k] {}
  }

  lemma WriteOne(def: Layer, user: Layer, left: set<string>, out: Layer, k: string)
    requires k in left && k in user && WrittenBut(def, user, left, out)
    ensures k in out <==> k in def
    ensures k in out ==> out[k] == def[k]
    ensures WrittenBut(def, user, left - {k}, out[k := Written(def, user, k)])
  {
  }

  /** mergeNested: copies the lower layer and writes the upper one's keys into the copy, in any order. */
  method MergeNestedInto(def: Layer, user: Layer) returns (out: Layer)
    ensures out == MergeNested(def, user)
    decreases Obj(user)
  {
    out := def;
    var left := user.Keys;
    while left != {}
      invariant left <= user.Keys && WrittenBut(def, user, left, out)
      decreases |left|
    {
      var k :| k in left;
      var v := user[k];
      WriteOne(def, user, left, out, k);
      if k in out && out[k].Obj? && v.Obj? {
        var merged := MergeNestedInto(out[k].fields, v.fields);
        out := out[k := Obj(merged)];
      } else {
        out := out[k := v];
      }
      left := left - {k};
    }
    AllWritten(def, user, out);
  }

  /** A key the upper layer does not have may be left out. */
  lemma SkipOne(def: Layer, user: Layer, left: set<string>, out: Layer, k: string)
    requires k !in user && WrittenBut(def, user, left, out)
    ensures WrittenBut(def, user, left - {k}, out)
  {
  }

  lemma NothingWritten(def: Layer, user: Layer, left: set<string>)
    requires user.Keys <= left
    ensures WrittenBut(def, user, left, def)
  {
  }

  /** applyLayer: the same at the top level, except that a null leaves the lower value alone. */
  method ApplyLayer(base: Layer, user: Layer) returns (merged: Layer)
    ensures merged == MergeNested(base, DropNulls(user))
    ensures forall k :: k in merged <==> k in base || (k in user && user[k] != Null)
    ensures forall k :: k in merged && k in user && user[k] != Null && k in base ==> merged[k] == Over(base[k], user[k])
    ensures forall k :: k in merged && k in user && user[k] != Null && k !in base ==> merged[k] == user[k]
    ensures forall k :: k in merged && (k in user ==> user[k] == Null) ==> merged[k] == base[k]
  {
    merged := base;
    var left := user.Keys;
    ghost var said := DropNulls(user);
    NothingWritten(base, said, left);
    while left != {}
      invariant left <= user.Keys && WrittenBut(base, said, left, merged)
      decreases |left|
    {
      var k :| k in left;
      var v := user[k];
      if v == Null {
        SkipOne(base, said, left, merged, k);
        left := left - {k};
        continue;
      }
      WriteOne(base, said, left, merged, k);
      if k in merged && merged[k].Obj? && v.Obj? {
        var sub := MergeNestedInto(merged[k].fields, v.fields);
        merged := merged[k := Obj(sub)];
      } else {
        merged := merged[k := v];
      }
      left := left - {k};
    }
    AllWritten(base, said, merged);
  }

  // ---------------------------------------------------------------- identity and idempotence

  lemma EmptyLayerChangesNothing(d: Layer)
    ensures MergeNested(d, map[]) == d
  {
  }

  /** Applying a layer twice is applying it once, at every depth. */
  lemma {:induction false} Idempotent(d: Json, u: Json)
    ensures Over(Over(d, u), u) == Over(d, u)
    decreases u
  {
    if d.Obj? && u.Obj? {
      var once := Over(d, u);
      var twice := Over(once, u);
      assert twice.fields.Keys == once.fields.Keys;
      forall k | k in once.fields ensures twice.fields[k] == once.fields[k] {
        if k in u.fields && k in d.fields {
          Idempotent(d.fields[k], u.fields[k]);
        } else if k in u.fields {
          SelfMerge(u.fields[k]);
        }
      }
    } else {
      SelfMerge(u);
    }
  }

  lemma {:induction false} SelfMerge(u: Json)
    ensures Over(u, u) == u
  {
    if u.Obj? {
      var r := Over(u, u);
      assert r.fields.Keys == u.fields.Keys;
      forall k | k in u.fields ensures r.fields[k] == u.fields[k] {
        SelfMerge(u.fields[k]);
      }
    }
  }

  // ---------------------------------------------------------------- what a path holds afterwards

  function Get(j: Json, path: seq<string>): Option<Json>
    decreases |path|
  {
    if path == [] then Some(j)
    else if j.Obj? && path[0] in j.fields then Get(j.fields[path[0]], path[1..])
    else None
  }

  /** Following the path through objects of both, the upper layer stops naming it. */
  predicate Silent(d: Json, u: Json, path: seq<string>)
    decreases |path|
  {
    && path != [] && d.Obj? && u.Obj?
    && (path[0] !in u.fields || (path[0] in d.fields && Silent(d.fields[path[0]], u.fields[path[0]], path[1..])))
  }

  /** Both layers have an object at the path. */
  predicate BothObjects(d: Json, u: Json, path: seq<string>) {
    && Get(d, path).Some? && Get(d, path).value.Obj?
    && Get(u, path).Some? && Get(u, path).value.Obj?
  }

  /** Every path: kept where the layer is silent, merged where both have objects, the layer's own otherwise. */
  lemma {:induction false} PathAfterMerge(d: Json, u: Json, path: seq<string>)
    ensures Get(Over(d, u), path) ==
      if Silent(d, u, path) then Get(d, path)
      else if BothObjects(d, u, path) then Some(Over(Get(d, path).value, Get(u, path).value))
      else Get(u, path)
    decreases |path|
  {
    if path != [] && d.Obj? && u.Obj? && path[0] in d.fields && path[0] in u.fields {
      PathAfterMerge(d.fields[path[0]], u.fields[path[0]], path[1..]);
    }
  }

  // ---------------------------------------------------------------- three layers

  /** Nothing of x shows through y: every key of x is in y, at every depth where both are objects. */
  predicate Absorbed(x: Json, y: Json)
    decreases x
  {
    x.Obj? && y.Obj? ==> forall k :: k in x.fields ==> k in y.fields && Absorbed(x.fields[k], y.fields[k])
  }

  lemma {:induction false} AbsorbedIff(x: Json, y: Json)
    ensures Over(x, y) == y <==> Absorbed(x, y)
    decreases x
  {
    if x.Obj? && y.Obj? {
      var r := Over(x, y);
      forall k | k in x.fields && k in y.fields ensures Over(x.fields[k], y.fields[k]) == y.fields[k]
          <==> Absorbed(x.fields[k], y.fields[k]) {
        AbsorbedIff(x.fields[k], y.fields[k]);
      }
      if Absorbed(x, y) {
        assert r.fields.Keys == y.fields.Keys;
        forall k | k in y.fields ensures r.fields[k] == y.fields[k] {}
      } else {
        var k :| k in x.fields && !(k in y.fields && Absorbed(x.fields[k], y.fields[k]));
        assert k in r.fields;
      }
    }
  }

  /** Where the middle layer has a non-object between two objects, the lowest one is covered by the top one. */
  predicate NoShowThrough(a: Json, b: Json, c: Json)
    decreases c
  {
    a.Obj? && c.Obj? ==>
      if b.Obj? then
        forall k :: k in a.fields && k in b.fields && k in c.fields ==>
          NoShowThrough(a.fields[k], b.fields[k], c.fields[k])
      else Absorbed(a, c)
  }

  ghost predicate Associates(a: Json, b: Json, c: Json) {
    Over(Over(a, b), c) == Over(a, Over(b, c))
  }

  lemma {:induction false} KeyAssociates(a: Json, b: Json, c: Json, k: string)
    requires a.Obj? && b.Obj? && c.Obj?
    ensures var l, r := Over(Over(a, b), c).fields, Over(a, Over(b, c)).fields;
      && (k in l <==> k in r)
      && (k in l ==> (l[k] == r[k] <==>
           (k in a.fields && k in b.fields && k in c.fields ==> Associates(a.fields[k], b.fields[k], c.fields[k]))))
  {
  }

  /** Layers may be combined in either order exactly when nothing shows through. */
  lemma {:induction false} AssociatesIff(a: Json, b: Json, c: Json)
    ensures Associates(a, b, c) <==> NoShowThrough(a, b, c)
    decreases c
  {
    if a.Obj? && c.Obj? {
      if b.Obj? {
        var l, r := Over(Over(a, b), c), Over(a, Over(b, c));
        forall k
          ensures (k in l.fields <==> k in r.fields)
          ensures k in l.fields ==> (l.fields[k] == r.fields[k] <==>
            (k in a.fields && k in b.fields && k in c.fields ==> Associates(a.fields[k], b.fields[k], c.fields[k])))
        {
          KeyAssociates(a, b, c, k);
        }
        forall k | k in a.fields && k in b.fields && k in c.fields
          ensures Associates(a.fields[k], b.fields[k], c.fields[k])
              <==> NoShowThrough(a.fields[k], b.fields[k], c.fields[k])
        {
          AssociatesIff(a.fields[k], b.fields[k], c.fields[k]);
        }
        assert l == r <==> l.fields == r.fields;
      } else {
        AbsorbedIff(a, c);
      }
    }
  }

  /** A project tier that scalars over a block and a later one that reopens it: the order of merging shows. */
  lemma ReopenedBlockShowsThrough()
    ensures var a := Obj(map["youtube" := Obj(map["container" := Scalar("main")])]);
      var b := Obj(map["youtube" := Scalar("off")]);
      var c := Obj(map["youtube" := Obj(map[])]);
      && !Associates(a, b, c)
      && Get(Over(Over(a, b), c), ["youtube", "container"]) == None
      && Get(Over(a, Over(b, c)), ["youtube", "container"]) == Some(Scalar("main"))
  {
    var inner := Obj(map["container" := Scalar("main")]);
    var a, b, c := Obj(map["youtube" := inner]), Obj(map["youtube" := Scalar("off")]),
        Obj(map["youtube" := Obj(map[])]);
    var path := ["youtube", "container"];
    assert path[1..] == ["container"];
    assert Over(Over(a, b), c).fields["youtube"] == Obj(map[]);
    assert Over(a, Over(b, c)).fields["youtube"] == Over(inner, Obj(map[])) == inner;
    assert Get(Over(a, Over(b, c)), path) == Get(inner, ["container"]) == Get(Scalar("main"), []);
  }

  // ---------------------------------------------------------------- nulls

  /** A null the layer has at a path keeps what is below exactly at the top level, or where a null is there already;
      anywhere else it replaces it. */
  lemma NullKeepsIff(d: Layer, u: Layer, path: seq<string>)
    requires path != [] && Get(Obj(u), path) == Some(Null)
    ensures var merged := Obj(MergeNested(d, DropNulls(u)));
      && (Get(merged, path) == Get(Obj(d), path) <==> |path| == 1 || Get(Obj(d), path) == Some(Null))
      && (|path| > 1 ==> Get(merged, path) == Some(Null))
  {
    var k, rest := path[0], path[1..];
    var said := DropNulls(u);
    if |path| == 1 {
      assert rest == [];
      assert k !in said;
    } else {
      assert u[k].Obj? && said[k] == u[k];
      PathAfterMerge(Obj(d), Obj(said), path);
      if k in d { NamedIsNotSilent(d[k], u[k], rest); }
    }
  }

  lemma {:induction false} NamedIsNotSilent(d: Json, u: Json, path: seq<string>)
    requires Get(u, path).Some?
    ensures !Silent(d, u, path)
    decreases |path|
  {
    if path != [] && d.Obj? && path[0] in d.fields {
      NamedIsNotSilent(d.fields[path[0]], u.fields[path[0]], path[1..]);
    }
  }
}
