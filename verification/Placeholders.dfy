/**
 The prompt placeholder substituter (internal/prompts/parser.go), the scan it refines, and the segments a template
 falls into.
 */
module Placeholders {
  import opened Text

  const OPEN: string := "{{"
  const CLOSE: string := "}}"

  predicate NameChar(c: char) {
    'a' <= c <= 'z' || 'A' <= c <= 'Z' || '0' <= c <= '9' || c == '-' || c == '_'
  }

  predicate PlaceholderName(s: string) {
    s != "" && forall i :: 0 <= i < |s| ==> NameChar(s[i])
  }

  method IsPlaceholderName(s: string) returns (ok: bool)
    ensures ok == PlaceholderName(s)
    ensures ok <==> s != "" && forall c :: c in s ==>
      'a' <= c <= 'z' || 'A' <= c <= 'Z' || '0' <= c <= '9' || c == '-' || c == '_'
  {
    if s == "" { return false; }
    for i := 0 to |s|
      invariant forall k :: 0 <= k < i ==> NameChar(s[k])
    {
      if !NameChar(s[i]) { assert s[i] in s; return false; }
    }
    return true;
  }

  // ---------------------------------------------------------------- segments

  /** A template is characters, closed placeholders, and at most one opening that is never closed, at its end. */
  datatype Segment = Plain(c: char) | Hole(inner: string) | Unclosed(rest: string)

  function Raw(g: Segment): string {
    match g
    case Plain(c) => [c]
    case Hole(inner) => OPEN + inner + CLOSE
    case Unclosed(rest) => OPEN + rest
  }

  function Unparse(gs: seq<Segment>): string {
    if gs == [] then "" else Raw(gs[0]) + Unparse(gs[1..])
  }

  /** Left to right, each character read once. */
  function Parse(t: string): seq<Segment>
    decreases |t|
  {
    if t == "" then []
    else if !HasPrefix(t, OPEN) then [Plain(t[0])] + Parse(t[1..])
    else
      var end := Index(t[2..], CLOSE);
      if end < 0 then [Unclosed(t[2..])] else [Hole(t[2..2 + end])] + Parse(t[2 + end + 2..])
  }

  predicate Resolves(g: Segment, known: set<string>) {
    g.Hole? && PlaceholderName(TrimSpace(g.inner)) && TrimSpace(g.inner) in known
  }

  function Value(name: string, args: map<string, string>): string {
    if name in args then args[name] else ""
  }

  function Shown(g: Segment, args: map<string, string>, known: set<string>): string {
    if Resolves(g, known) then Value(TrimSpace(g.inner), args) else Raw(g)
  }

  function Render(gs: seq<Segment>, args: map<string, string>, known: set<string>): string {
    if gs == [] then "" else Shown(gs[0], args, known) + Render(gs[1..], args, known)
  }

  function Chars(s: string): seq<Segment> {
    seq(|s|, i requires 0 <= i < |s| => Plain(s[i]))
  }

  lemma RenderCons(g: Segment, gs: seq<Segment>, args: map<string, string>, known: set<string>)
    ensures Render([g] + gs, args, known) == Shown(g, args, known) + Render(gs, args, known)
  {
    assert ([g] + gs)[1..] == gs;
  }

  lemma UnparseCons(g: Segment, gs: seq<Segment>)
    ensures Unparse([g] + gs) == Raw(g) + Unparse(gs)
  {
    assert ([g] + gs)[1..] == gs;
  }

  lemma CharsCons(s: string, gs: seq<Segment>)
    requires s != ""
    ensures Chars(s) + gs == [Plain(s[0])] + (Chars(s[1..]) + gs)
  {
  }

  lemma Assoc(a: string, b: string, c: string)
    ensures a + b + c == a + (b + c)
  {
  }

  lemma {:induction false} CharsRender(s: string, gs: seq<Segment>, args: map<string, string>, known: set<string>)
    ensures Render(Chars(s) + gs, args, known) == s + Render(gs, args, known)
  {
    if s == "" {
      assert Chars(s) + gs == gs;
    } else {
      CharsCons(s, gs);
      RenderCons(Plain(s[0]), Chars(s[1..]) + gs, args, known);
      CharsRender(s[1..], gs, args, known);
      Assoc([s[0]], s[1..], Render(gs, args, known));
      assert s == [s[0]] + s[1..];
    }
  }

  lemma {:induction false} CharsUnparse(s: string, gs: seq<Segment>)
    ensures Unparse(Chars(s) + gs) == s + Unparse(gs)
  {
    if s == "" {
      assert Chars(s) + gs == gs;
    } else {
      CharsCons(s, gs);
      UnparseCons(Plain(s[0]), Chars(s[1..]) + gs);
      CharsUnparse(s[1..], gs);
      Assoc([s[0]], s[1..], Unparse(gs));
      assert s == [s[0]] + s[1..];
    }
  }

  lemma PrefixIsOccurrence(t: string, sub: string)
    ensures HasPrefix(t, sub) <==> OccursAt(t, sub, 0)
  {
  }

  lemma ParsePlain(c: char, rest: string)
    requires !HasPrefix([c] + rest, OPEN)
    ensures Parse([c] + rest) == [Plain(c)] + Parse(rest)
  {
    assert ([c] + rest)[1..] == rest;
  }

  lemma ParseUnclosed(after: string)
    requires Index(after, CLOSE) < 0
    ensures Parse(OPEN + after) == [Unclosed(after)]
  {
    assert (OPEN + after)[2..] == after;
  }

  lemma ParseHole(after: string, end: nat)
    requires Index(after, CLOSE) == end
    ensures Parse(OPEN + after) == [Hole(after[..end])] + Parse(after[end + 2..])
  {
    var t := OPEN + after;
    assert t[2..] == after;
    assert t[2..2 + end] == after[..end];
    assert t[2 + end + 2..] == after[end + 2..];
  }

  // ---------------------------------------------------------------- the loop

  /** No opening comes earlier in the rest. */
  lemma OpeningsShift(t: string, n: nat)
    requires t != "" && n > 0 && forall i: nat :: OccursAt(t, OPEN, i) ==> n <= i
    ensures forall i: nat :: OccursAt(t[1..], OPEN, i) ==> n - 1 <= i
  {
    var rest := t[1..];
    forall i: nat | OccursAt(rest, OPEN, i) ensures n - 1 <= i {
      assert rest[i..i + |OPEN|] == t[i + 1..i + 1 + |OPEN|];
      assert OccursAt(t, OPEN, i + 1);
    }
  }

  lemma FirstIsPlain(t: string)
    requires t != "" && !OccursAt(t, OPEN, 0)
    ensures Parse(t) == [Plain(t[0])] + Parse(t[1..])
  {
    PrefixIsOccurrence(t, OPEN);
    assert t == [t[0]] + t[1..];
    ParsePlain(t[0], t[1..]);
  }

  /** Up to where the first opening is, a template is plain. */
  lemma {:induction false} PlainUpTo(t: string, n: nat)
    requires n <= |t| && forall i: nat :: OccursAt(t, OPEN, i) ==> n <= i
    ensures Parse(t) == Chars(t[..n]) + Parse(t[n..])
  {
    if n == 0 {
      assert t[0..] == t && Chars(t[..0]) == [];
    } else {
      FirstIsPlain(t);
      OpeningsShift(t, n);
      PlainUpTo(t[1..], n - 1);
      assert t[1..][n - 1..] == t[n..] && t[..n][1..] == t[1..][..n - 1];
      CharsCons(t[..n], Parse(t[n..]));
    }
  }

  /** No opening left: the rest is written out. */
  lemma NoneLeft(rest: string, args: map<string, string>, known: set<string>)
    requires Index(rest, OPEN) < 0
    ensures Render(Parse(rest), args, known) == rest
  {
    PlainUpTo(rest, |rest|);
    assert rest[|rest|..] == "" && rest[..|rest|] == rest;
    CharsRender(rest, [], args, known);
  }

  lemma UpToOpening(rest: string, start: nat, args: map<string, string>, known: set<string>)
    requires Index(rest, OPEN) == start
    ensures Render(Parse(rest), args, known) == rest[..start] + Render(Parse(OPEN + rest[start + 2..]), args, known)
  {
    PlainUpTo(rest, start);
    assert rest[start..] == rest[start..start + 2] + rest[start + 2..];
    CharsRender(rest[..start], Parse(rest[start..]), args, known);
  }

  /** An opening that is never closed: the rest is written out. */
  lemma NeverClosed(rest: string, start: nat, args: map<string, string>, known: set<string>)
    requires Index(rest, OPEN) == start && Index(rest[start + 2..], CLOSE) < 0
    ensures Render(Parse(rest), args, known) == rest[..start] + rest[start..]
  {
    var after := rest[start + 2..];
    UpToOpening(rest, start, args, known);
    ParseUnclosed(after);
    RenderCons(Unclosed(after), [], args, known);
    assert [Unclosed(after)] + [] == [Unclosed(after)];
    assert rest[start..] == rest[start..start + 2] + after;
  }

  lemma FirstPlaceholder(rest: string, start: nat, end: nat, args: map<string, string>, known: set<string>)
    requires Index(rest, OPEN) == start && Index(rest[start + 2..], CLOSE) == end
    ensures var after := rest[start + 2..];
      Render(Parse(rest), args, known)
      == rest[..start] + (Shown(Hole(after[..end]), args, known) + Render(Parse(after[end + 2..]), args, known))
  {
    var after := rest[start + 2..];
    UpToOpening(rest, start, args, known);
    ParseHole(after, end);
    RenderCons(Hole(after[..end]), Parse(after[end + 2..]), args, known);
  }

  lemma RawText(rest: string, start: nat, end: nat)
    requires Index(rest, OPEN) == start && Index(rest[start + 2..], CLOSE) == end
    ensures Raw(Hole(rest[start + 2..][..end])) == rest[start..start + 2 + end + 2]
  {
    var after := rest[start + 2..];
    assert after[end..end + 2] == rest[start + 2 + end..start + 2 + end + 2];
    assert rest[start..start + 2 + end + 2]
        == rest[start..start + 2] + rest[start + 2..start + 2 + end] + rest[start + 2 + end..start + 2 + end + 2];
  }

  method Substitute(template: string, args: map<string, string>, known: set<string>) returns (b: string)
    ensures b == Render(Parse(template), args, known)
  {
    b := "";
    var rest := template;
    while true
      invariant Render(Parse(template), args, known) == b + Render(Parse(rest), args, known)
      decreases |rest|
    {
      var start := Index(rest, OPEN);
      if start < 0 {
        NoneLeft(rest, args, known);
        b := b + rest;
        break;
      }
      ghost var sofar := b;
      b := b + rest[..start];
      var after := rest[start + |OPEN|..];
      var end := Index(after, CLOSE);
      if end < 0 {
        NeverClosed(rest, start, args, known);
        b := b + rest[start..];
        Assoc(sofar, rest[..start], rest[start..]);
        break;
      }
      var shown := ShowPlaceholder(rest, start, end, args, known);
      b := b + shown;
      FirstPlaceholder(rest, start, end, args, known);
      Joined(sofar, rest[..start], shown, Render(Parse(after[end + 2..]), args, known));
      rest := after[end + |CLOSE|..];
    }
  }

  lemma Joined(a: string, b: string, c: string, d: string)
    ensures a + b + c + d == a + (b + (c + d))
  {
  }

  /** The loop's branch on one placeholder. */
  method ShowPlaceholder(rest: string, start: nat, end: nat, args: map<string, string>, known: set<string>)
    returns (shown: string)
    requires Index(rest, OPEN) == start && Index(rest[start + 2..], CLOSE) == end
    ensures shown == Shown(Hole(rest[start + 2..][..end]), args, known)
  {
    var name := TrimSpace(rest[start + 2..][..end]);
    var isName := IsPlaceholderName(name);
    if isName && name in known {
      shown := if name in args then args[name] else "";
    } else {
      RawText(rest, start, end);
      shown := rest[start..start + |OPEN| + end + |CLOSE|];
    }
  }

  // ---------------------------------------------------------------- templates and segments are the same thing

  /** What Parse can produce: placeholders end at their first closing, and no opening is hidden among the characters. */
  predicate HeadOk(g: Segment, next: seq<Segment>) {
    match g
    case Plain(c) => c == '{' && next != [] ==> next[0].Plain? && next[0].c != '{'
    case Hole(inner) => Index(inner + CLOSE, CLOSE) == |inner|
    case Unclosed(rest) => next == [] && Index(rest, CLOSE) < 0
  }

  predicate WellFormed(gs: seq<Segment>) {
    gs == [] || (HeadOk(gs[0], gs[1..]) && WellFormed(gs[1..]))
  }

  lemma HoleSpellsOut(after: string, end: nat)
    requires Index(after, CLOSE) == end && Unparse(Parse(after[end + 2..])) == after[end + 2..]
    ensures Unparse(Parse(OPEN + after)) == OPEN + after
  {
    ParseHole(after, end);
    UnparseCons(Hole(after[..end]), Parse(after[end + 2..]));
    AroundClosing(OPEN, after, end);
  }

  lemma AroundClosing(before: string, after: string, end: nat)
    requires OccursAt(after, CLOSE, end)
    ensures before + after[..end] + CLOSE + after[end + 2..] == before + after
  {
    var tail := after[end + 2..];
    assert after == after[..end] + (CLOSE + tail) by { assert after[end..] == after[end..end + 2] + tail; }
    Assoc(before + after[..end], CLOSE, tail);
    Assoc(before, after[..end], CLOSE + tail);
  }

  lemma {:induction false} UnparseParse(t: string)
    ensures Unparse(Parse(t)) == t
    decreases |t|
  {
    if t == "" {
    } else if !HasPrefix(t, OPEN) {
      assert t == [t[0]] + t[1..];
      UnparseParse(t[1..]);
      ParsePlain(t[0], t[1..]);
      UnparseCons(Plain(t[0]), Parse(t[1..]));
    } else {
      var after := t[2..];
      assert t == OPEN + after;
      var end := Index(after, CLOSE);
      if end < 0 {
        ParseUnclosed(after);
        UnparseCons(Unclosed(after), []);
        assert [Unclosed(after)] + [] == [Unclosed(after)];
      } else {
        UnparseParse(after[end + 2..]);
        HoleSpellsOut(after, end);
      }
    }
  }

  /** The first closing is found inside the placeholder, whatever follows it. */
  lemma FirstClosing(inner: string, rest: string)
    ensures Index(inner + CLOSE, CLOSE) == |inner| <==> Index(inner + CLOSE + rest, CLOSE) == |inner|
  {
    var a, b := inner + CLOSE, inner + CLOSE + rest;
    assert OccursAt(a, CLOSE, |inner|) && OccursAt(b, CLOSE, |inner|);
    forall i: nat | i <= |inner| ensures OccursAt(a, CLOSE, i) <==> OccursAt(b, CLOSE, i) {
      assert a[i..i + |CLOSE|] == b[i..i + |CLOSE|];
    }
  }

  lemma ClosesFirst(after: string, end: nat)
    requires Index(after, CLOSE) == end
    ensures Index(after[..end] + CLOSE, CLOSE) == end
  {
    assert after == after[..end] + after[end..end + 2] + after[end + 2..];
    FirstClosing(after[..end], after[end + 2..]);
  }

  lemma {:induction false} ParseWellFormed(t: string)
    ensures WellFormed(Parse(t))
    decreases |t|
  {
    if t == "" {
    } else if !HasPrefix(t, OPEN) {
      assert t == [t[0]] + t[1..];
      ParseWellFormed(t[1..]);
      ParsePlain(t[0], t[1..]);
      assert t[0] == '{' && t[1..] != "" ==> t[1] != '{';
    } else {
      var after := t[2..];
      assert t == OPEN + after;
      var end := Index(after, CLOSE);
      if end < 0 {
        ParseUnclosed(after);
      } else {
        ParseWellFormed(after[end + 2..]);
        ParseHole(after, end);
        ClosesFirst(after, end);
      }
    }
  }

  lemma PlainHidesNoOpening(c: char, next: seq<Segment>)
    requires HeadOk(Plain(c), next)
    ensures !HasPrefix([c] + Unparse(next), OPEN)
  {
    var t := [c] + Unparse(next);
    if next == [] {
      assert |t| == 1;
    } else if c == '{' {
      assert Unparse(next)[0] == next[0].c;
      assert t[1] != '{';
    } else {
      assert t[0] != '{';
    }
  }

  lemma HoleReadsBack(inner: string, rest: string)
    requires Index(inner + CLOSE, CLOSE) == |inner|
    ensures Parse(OPEN + inner + CLOSE + rest) == [Hole(inner)] + Parse(rest)
  {
    var after := inner + CLOSE + rest;
    FirstClosing(inner, rest);
    ParseHole(after, |inner|);
    assert after[..|inner|] == inner && after[|inner| + 2..] == rest;
    assert OPEN + inner + CLOSE + rest == OPEN + after;
  }

  lemma HeadReadsBack(g: Segment, next: seq<Segment>)
    requires HeadOk(g, next) && Parse(Unparse(next)) == next
    ensures Parse(Raw(g) + Unparse(next)) == [g] + next
  {
    match g
    case Plain(c) =>
      PlainHidesNoOpening(c, next);
      ParsePlain(c, Unparse(next));
    case Hole(inner) =>
      HoleReadsBack(inner, Unparse(next));
    case Unclosed(tail) =>
      ParseUnclosed(tail);
      assert OPEN + tail + "" == OPEN + tail;
  }

  lemma {:induction false} ParseUnparse(gs: seq<Segment>)
    requires WellFormed(gs)
    ensures Parse(Unparse(gs)) == gs
  {
    if gs != [] {
      ParseUnparse(gs[1..]);
      HeadReadsBack(gs[0], gs[1..]);
      assert gs == [gs[0]] + gs[1..];
    }
  }

  // ---------------------------------------------------------------- what substitution promises

  /** Segments none of which resolves come out as they went in. */
  lemma {:induction false} UnresolvedIsRaw(gs: seq<Segment>, args: map<string, string>, known: set<string>)
    requires forall i :: 0 <= i < |gs| ==> !Resolves(gs[i], known)
    ensures Render(gs, args, known) == Unparse(gs)
  {
    if gs != [] { UnresolvedIsRaw(gs[1..], args, known); }
  }

  /** A template no placeholder of which is known comes out as it went in. */
  lemma NothingKnownIsIdentity(t: string, args: map<string, string>, known: set<string>)
    requires forall g :: g in Parse(t) ==> !Resolves(g, known)
    ensures Render(Parse(t), args, known) == t
  {
    UnresolvedIsRaw(Parse(t), args, known);
    UnparseParse(t);
  }

  /** Inserted values are never read: the result is the template's own segments, with the values in place of the
      placeholders that resolve. */
  function Spliced(gs: seq<Segment>, args: map<string, string>, known: set<string>): seq<Segment> {
    if gs == [] then []
    else (if Resolves(gs[0], known) then Chars(Value(TrimSpace(gs[0].inner), args)) else [gs[0]])
         + Spliced(gs[1..], args, known)
  }

  lemma {:induction false} RenderIsSplice(gs: seq<Segment>, args: map<string, string>, known: set<string>)
    ensures Render(gs, args, known) == Unparse(Spliced(gs, args, known))
  {
    if gs != [] {
      RenderIsSplice(gs[1..], args, known);
      var tail := Spliced(gs[1..], args, known);
      if Resolves(gs[0], known) {
        CharsUnparse(Value(TrimSpace(gs[0].inner), args), tail);
      } else {
        assert ([gs[0]] + tail)[1..] == tail;
      }
    }
  }

  // ---------------------------------------------------------------- later stages

  /** No value inserted for a known name can open a placeholder. */
  ghost predicate ValuesDoNotOpen(args: map<string, string>, known: set<string>) {
    forall name :: name in known && name in args ==> '{' !in args[name]
  }

  lemma {:induction false} CharsWellFormed(s: string, gs: seq<Segment>)
    requires '{' !in s && WellFormed(gs)
    ensures WellFormed(Chars(s) + gs)
  {
    if s == "" {
      assert Chars(s) + gs == gs;
    } else {
      CharsWellFormed(s[1..], gs);
      assert (Chars(s) + gs)[1..] == Chars(s[1..]) + gs;
    }
  }

  lemma {:induction false} SplicedWellFormed(gs: seq<Segment>, args: map<string, string>, known: set<string>)
    requires WellFormed(gs) && ValuesDoNotOpen(args, known)
    ensures WellFormed(Spliced(gs, args, known))
    ensures gs != [] && gs[0].Plain? ==> Spliced(gs, args, known) != [] && Spliced(gs, args, known)[0] == gs[0]
  {
    if gs != [] {
      SplicedWellFormed(gs[1..], args, known);
      var tail := Spliced(gs[1..], args, known);
      if Resolves(gs[0], known) {
        CharsWellFormed(Value(TrimSpace(gs[0].inner), args), tail);
      } else {
        assert ([gs[0]] + tail)[1..] == tail;
      }
    }
  }

  /** The first stage's values, and the second's for the names the first did not know. */
  function Both(args: map<string, string>, known: set<string>, args2: map<string, string>): map<string, string> {
    map name | name in args.Keys + args2.Keys && (if name in known then name in args else name in args2) ::
      if name in known then args[name] else args2[name]
  }

  lemma {:induction false} SpliceThenRender(gs: seq<Segment>, args: map<string, string>, known: set<string>,
                                            args2: map<string, string>, known2: set<string>)
    ensures Render(Spliced(gs, args, known), args2, known2) == Render(gs, Both(args, known, args2), known + known2)
  {
    if gs != [] {
      SpliceThenRender(gs[1..], args, known, args2, known2);
      var tail := Spliced(gs[1..], args, known);
      if Resolves(gs[0], known) {
        CharsRender(Value(TrimSpace(gs[0].inner), args), tail, args2, known2);
      } else {
        assert ([gs[0]] + tail)[1..] == tail;
        assert Shown(gs[0], args2, known2) == Shown(gs[0], Both(args, known, args2), known + known2);
      }
    }
  }

  /** Placeholders left alone by one stage are resolved by a later one exactly as if both had been known at once, for
      every template in which inserting the values hides no opening and no closing. */
  lemma StagesCompose(t: string, args: map<string, string>, known: set<string>, args2: map<string, string>,
      known2: set<string>)
    requires WellFormed(Spliced(Parse(t), args, known))
    ensures Render(Parse(Render(Parse(t), args, known)), args2, known2)
            == Render(Parse(t), Both(args, known, args2), known + known2)
  {
    var gs := Parse(t);
    RenderIsSplice(gs, args, known);
    ParseUnparse(Spliced(gs, args, known));
    SpliceThenRender(gs, args, known, args2, known2);
  }

  /** That is so for every template when no inserted value contains an opening brace. */
  lemma ValuesWithoutBracesCompose(t: string, args: map<string, string>, known: set<string>)
    requires ValuesDoNotOpen(args, known)
    ensures WellFormed(Spliced(Parse(t), args, known))
  {
    ParseWellFormed(t);
    SplicedWellFormed(Parse(t), args, known);
  }

  /** A later stage sees the template's own segments, with the values as plain text, exactly when putting the values
      in hides no opening and no closing. */
  lemma LaterStageSeesIff(t: string, args: map<string, string>, known: set<string>)
    ensures Parse(Render(Parse(t), args, known)) == Spliced(Parse(t), args, known)
            <==> WellFormed(Spliced(Parse(t), args, known))
  {
    var gs := Spliced(Parse(t), args, known);
    RenderIsSplice(Parse(t), args, known);
    ParseWellFormed(Unparse(gs));
    if WellFormed(gs) { ParseUnparse(gs); }
  }

  lemma NamesDoNotClose(name: string)
    requires PlaceholderName(name)
    ensures Index(name + CLOSE, CLOSE) == |name| && TrimSpace(name) == name
  {
    assert OccursAt(name + CLOSE, CLOSE, |name|);
    forall i: nat | i < |name| ensures !OccursAt(name + CLOSE, CLOSE, i) {
      assert (name + CLOSE)[i] == name[i];
    }
    assert NameChar(name[0]) && NameChar(name[|name| - 1]);
  }

  /** A closed placeholder is resolved exactly if, apart from white space around it, it is a known name: it then shows the
      value given for that name, or nothing if none was. Every other one stays as it was written. */
  lemma ShownIff(inner: string, args: map<string, string>, known: set<string>, a: string, name: string, b: string)
    requires inner == a + name + b && AllSpace(a) && AllSpace(b) && Bare(name)
    ensures Shown(Hole(inner), args, known) ==
      if PlaceholderName(name) && name in known then (if name in args then args[name] else "") else "{{" + inner + "}}"
  {
    TrimSpaceOf(a, name, b);
  }

  /** Every inside of a placeholder is of that form. */
  lemma InnerSplits(inner: string) returns (a: string, name: string, b: string)
    ensures inner == a + name + b && AllSpace(a) && AllSpace(b) && Bare(name)
  {
    a, b := TrimSpaceExact(inner);
    name := TrimSpace(inner);
  }

  /** A template that is one placeholder. */
  lemma OneHole(name: string, args: map<string, string>, known: set<string>)
    requires PlaceholderName(name) && name in known
    ensures Render(Parse(OPEN + name + CLOSE), args, known) == Value(name, args)
  {
    NamesDoNotClose(name);
    HoleReadsBack(name, "");
    assert OPEN + name + CLOSE + "" == OPEN + name + CLOSE;
    RenderCons(Hole(name), [], args, known);
  }

  /** A value that is itself a placeholder is taken for one by the next stage, though it would stay as it is if both
      names had been known at once. */
  lemma InsertedPlaceholderIsReread(a: string, b: string, x: string)
    requires PlaceholderName(a) && PlaceholderName(b) && a != b
    ensures var t, inserted := OPEN + a + CLOSE, OPEN + b + CLOSE;
      var first, second := map[a := inserted], map[b := x];
      && Render(Parse(Render(Parse(t), first, {a})), second, {b}) == x
      && Render(Parse(t), Both(first, {a}, second), {a} + {b}) == inserted
  {
    var inserted := OPEN + b + CLOSE;
    OneHole(a, map[a := inserted], {a});
    OneHole(b, map[b := x], {b});
    OneHole(a, Both(map[a := inserted], {a}, map[b := x]), {a} + {b});
  }
}
