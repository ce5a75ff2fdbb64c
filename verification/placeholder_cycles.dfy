/** Exactly when the placeholder loop ends: when no value refers back to itself. */
module PlaceholderCycles {
  import opened Wrappers
  import opened Text
  import opened Placeholders

  /** The texts of a finite global store, by path. */
  type Store = map<string, string>

  function In(m: Store): Lookup {
    (path: string) => if path in m then Some(m[path]) else None
  }

  function Path(inner: string): string {
    SplitOn(inner, ':')[0]
  }

  function Default(inner: string): string {
    var parts := SplitOn(inner, ':');
    if |parts| > 1 then parts[1] else ""
  }

  lemma DefaultPlain(inner: string)
    requires Plain(inner)
    ensures Plain(Default(inner))
  {
    var parts := SplitOn(inner, ':');
    forall c | |parts| > 1 && c in parts[1] ensures c in inner {
      SplitOnChars(inner, ':', 1, c);
    }
  }

  // ---- Well-formed texts as templates ---------------------------------------------------------

  datatype Template = Literal(text: string) | Hole(before: string, inner: string, tail: Template)

  function Show(t: Template): string {
    match t
    case Literal(text) => text
    case Hole(before, inner, tail) => before + "{" + inner + "}" + Show(tail)
  }

  predicate Valid(t: Template) {
    match t
    case Literal(text) => Plain(text)
    case Hole(before, inner, tail) => Plain(before) && Plain(inner) && Valid(tail)
  }

  function Parse(t: string): Template
    requires WellFormed(t)
    decreases |t|
  {
    if IndexOf(t, '{') == |t| then Literal(t) else Hole(Before(t), Inner(t), Parse(Tail(t)))
  }

  lemma {:induction false} ParseShows(t: string)
    requires WellFormed(t)
    ensures Valid(Parse(t)) && Show(Parse(t)) == t
    decreases |t|
  {
    if IndexOf(t, '{') < |t| {
      Pieces(t);
      ParseShows(Tail(t));
    }
  }

  /** The values of a store, as templates. */
  type Templates = map<string, Template>

  ghost predicate Shows(ts: Templates, m: Store) {
    && ts.Keys == m.Keys
    && forall p | p in ts :: Valid(ts[p]) && Show(ts[p]) == m[p]
  }

  function ParseAll(m: Store): Templates
    requires forall p | p in m :: WellFormed(m[p])
  {
    map p | p in m :: Parse(m[p])
  }

  // ---- One round ------------------------------------------------------------------------------

  /** A property of texts and rounds left that each round of the loop passes on, in both directions. */
  type Property = (string, nat) -> bool

  ghost predicate Passed(f: Property, m: Store) {
    forall s: string, k: nat {:trigger f(s, k), Rewritable(s)} ::
      Rewritable(s) ==> (f(s, k) <==> k > 0 && f(Round(s, In(m)), k - 1))
  }

  /** The text between the two others, in its context, has the property. */
  predicate At(f: Property, prefix: string, t: string, rest: string, k: nat) {
    f(prefix + t + rest, k)
  }

  lemma HolePieces(before: string, inner: string, tail: string)
    requires Plain(before) && Plain(inner)
    ensures var t := before + "{" + inner + "}" + tail;
      Rewritable(t) && Before(t) == before && Inner(t) == inner && Tail(t) == tail
  {
    var t := before + "{" + inner + "}" + tail;
    var i, j := |before|, |before| + 1 + |inner|;
    assert t[i] == '{' && t[j] == '}';
    forall k | 0 <= k < j ensures t[k] != '}' && (k < i ==> t[k] != '{') {
      if k < i {
        assert t[k] == before[k] && before[k] in before;
      } else if k > i {
        assert t[k] == inner[k - i - 1] && inner[k - i - 1] in inner;
      }
    }
    FirstIs(t, '{', i);
    FirstIs(t, '}', j);
  }

  function Next(inner: string, m: Store): string {
    if Path(inner) in m then m[Path(inner)] else Default(inner)
  }

  /** One round replaces the first hole by its value or its default. */
  lemma HoleRound(prefix: string, before: string, inner: string, tail: string, rest: string, m: Store)
    requires Plain(prefix) && Plain(before) && Plain(inner)
    ensures var s := prefix + (before + "{" + inner + "}" + tail) + rest;
      Rewritable(s) && Round(s, In(m)) == (prefix + before) + Next(inner, m) + (tail + rest)
  {
    var t := before + "{" + inner + "}" + tail;
    HolePieces(before, inner, tail);
    RoundInContext(prefix + t + rest, prefix, t, rest, In(m));
  }

  lemma AtHole(f: Property, prefix: string, t: Template, rest: string, m: Store, k: nat)
    requires Passed(f, m) && Plain(prefix) && Valid(t) && t.Hole?
    ensures At(f, prefix, Show(t), rest, k)
       <==> k > 0 && At(f, prefix + t.before, Next(t.inner, m), Show(t.tail) + rest, k - 1)
  {
    HoleRound(prefix, t.before, t.inner, Show(t.tail), rest, m);
  }

  lemma AtShift(f: Property, a: string, b: string, c: string, d: string, k: nat)
    ensures At(f, a, b, c + d, k) <==> At(f, a + b, c, d, k)
  {
    assert a + b + (c + d) == (a + b) + c + d;
  }

  lemma AtFlat(f: Property, prefix: string, before: string, middle: string, tail: string, rest: string, k: nat)
    ensures At(f, (prefix + before) + middle, tail, rest, k) <==> At(f, prefix, (before + middle) + tail, rest, k)
  {
    assert ((prefix + before) + middle) + tail + rest == prefix + ((before + middle) + tail) + rest;
  }

  lemma PlainAppend(a: string, b: string)
    requires Plain(a) && Plain(b)
    ensures Plain(a + b)
  {
  }

  // ---- References -----------------------------------------------------------------------------

  /** Following references never meets a path again; left holds the paths not on the way. */
  predicate Acyclic(t: Template, ts: Templates, left: set<string>)
    decreases |left|, t
  {
    t.Hole? ==>
      var p := Path(t.inner);
      && (p in ts ==> p in left && Acyclic(ts[p], ts, left - {p}))
      && Acyclic(t.tail, ts, left)
  }

  /** The full expansion, references inside values included. */
  function Flat(t: Template, ts: Templates, left: set<string>): string
    requires Acyclic(t, ts, left)
    decreases |left|, t
  {
    match t
    case Literal(text) => text
    case Hole(before, inner, tail) =>
      var p := Path(inner);
      (before + if p in ts then Flat(ts[p], ts, left - {p}) else Default(inner)) + Flat(tail, ts, left)
  }

  /** The rounds it takes. */
  function Rounds(t: Template, ts: Templates, left: set<string>): nat
    requires Acyclic(t, ts, left)
    decreases |left|, t
  {
    match t
    case Literal(_) => 0
    case Hole(_, inner, tail) =>
      var p := Path(inner);
      1 + (if p in ts then Rounds(ts[p], ts, left - {p}) else 0) + Rounds(tail, ts, left)
  }

  /** References are at most d deep. */
  predicate Bounded(t: Template, ts: Templates, d: nat)
    decreases d, t
  {
    t.Hole? ==>
      var p := Path(t.inner);
      && (p in ts ==> d > 0 && Bounded(ts[p], ts, d - 1))
      && Bounded(t.tail, ts, d)
  }

  lemma {:induction false} FlatPlain(t: Template, ts: Templates, m: Store, left: set<string>)
    requires Valid(t) && Shows(ts, m) && Acyclic(t, ts, left)
    ensures Plain(Flat(t, ts, left))
    decreases |left|, t
  {
    if t.Hole? {
      var p := Path(t.inner);
      DefaultPlain(t.inner);
      if p in ts {
        FlatPlain(ts[p], ts, m, left - {p});
      }
      FlatPlain(t.tail, ts, m, left);
    }
  }

  // ---- An acyclic text is expanded completely -------------------------------------------------

  /** What holds of the expansion of t, in its context, with k rounds left holds of t with its own rounds more. */
  lemma {:induction false} AcyclicExpands(
      f: Property, prefix: string, t: Template, rest: string, ts: Templates, m: Store, left: set<string>, k: nat)
    requires Passed(f, m) && Plain(prefix) && Valid(t) && Shows(ts, m) && Acyclic(t, ts, left)
    requires At(f, prefix, Flat(t, ts, left), rest, k)
    ensures At(f, prefix, Show(t), rest, Rounds(t, ts, left) + k)
    decreases |left|, t
  {
    if t.Hole? {
      var p, before, k' := Path(t.inner), prefix + t.before, Rounds(t.tail, ts, left) + k;
      var middle := if p in ts then Flat(ts[p], ts, left - {p}) else Default(t.inner);
      DefaultPlain(t.inner);
      if p in ts {
        FlatPlain(ts[p], ts, m, left - {p});
      }
      PlainAppend(prefix, t.before);
      PlainAppend(before, middle);
      AtFlat(f, prefix, t.before, middle, Flat(t.tail, ts, left), rest, k);
      AcyclicExpands(f, before + middle, t.tail, rest, ts, m, left, k);
      AtShift(f, before, middle, Show(t.tail), rest, k');
      if p in ts {
        AcyclicExpands(f, before, ts[p], Show(t.tail) + rest, ts, m, left - {p}, k');
      }
      AtHole(f, prefix, t, rest, m, Rounds(t, ts, left) + k);
    }
  }

  // ---- A text on which the loop ends is acyclic -----------------------------------------------

  lemma {:induction false} BoundedMore(t: Template, ts: Templates, d: nat, e: nat)
    requires Bounded(t, ts, d) && d <= e
    ensures Bounded(t, ts, e)
    decreases d, t
  {
    if t.Hole? {
      var p := Path(t.inner);
      if p in ts {
        BoundedMore(ts[p], ts, d - 1, e - 1);
      }
      BoundedMore(t.tail, ts, d, e);
    }
  }

  lemma BoundedJoin(t: Template, ts: Templates, used: nat, more: nat)
    requires t.Hole? && Bounded(t.tail, ts, more)
    requires Path(t.inner) in ts ==> Bounded(ts[Path(t.inner)], ts, used)
    ensures Bounded(t, ts, 1 + used + more)
  {
    BoundedMore(t.tail, ts, more, 1 + used + more);
    if Path(t.inner) in ts {
      BoundedMore(ts[Path(t.inner)], ts, used, used + more);
    }
  }

  /** If the property bounds the rounds, the loop gets past t: it leaves plain text, and t is no deeper than that. */
  lemma {:induction false} GetsPast(
      f: Property, prefix: string, t: Template, rest: string, ts: Templates, m: Store, k: nat)
    returns (flat: string, n: nat)
    requires Passed(f, m) && Plain(prefix) && Valid(t) && Shows(ts, m) && At(f, prefix, Show(t), rest, k)
    ensures n <= k && Plain(flat) && At(f, prefix, flat, rest, k - n)
    ensures Bounded(t, ts, n)
    decreases k, t, 0
  {
    if t.Literal? {
      flat, n := t.text, 0;
    } else {
      var p, middle, used, more := Path(t.inner), Default(t.inner), 0, 0;
      AtHole(f, prefix, t, rest, m, k);
      DefaultPlain(t.inner);
      PlainAppend(prefix, t.before);
      if p in ts {
        middle, used := GetsPast(f, prefix + t.before, ts[p], Show(t.tail) + rest, ts, m, k - 1);
      }
      flat, more := GetsPastTail(f, prefix, t.before, middle, t.tail, rest, ts, m, k - 1 - used);
      n := 1 + used + more;
      BoundedJoin(t, ts, used, more);
    }
  }

  /** The same for what follows the first hole, once that is plain. */
  lemma {:induction false} GetsPastTail(
      f: Property, prefix: string, before: string, middle: string, tail: Template, rest: string,
      ts: Templates, m: Store, k: nat)
    returns (flat: string, n: nat)
    requires Passed(f, m) && Plain(prefix) && Plain(before) && Plain(middle) && Valid(tail) && Shows(ts, m)
    requires At(f, prefix + before, middle, Show(tail) + rest, k)
    ensures n <= k && Plain(flat) && At(f, prefix, flat, rest, k - n)
    ensures Bounded(tail, ts, n)
    decreases k, tail, 1
  {
    PlainAppend(prefix, before);
    PlainAppend(prefix + before, middle);
    AtShift(f, prefix + before, middle, Show(tail), rest, k);
    var more, used := GetsPast(f, (prefix + before) + middle, tail, rest, ts, m, k);
    AtFlat(f, prefix, before, middle, more, rest, k - used);
    PlainAppend(before, middle);
    PlainAppend(before + middle, more);
    flat, n := (before + middle) + more, used;
  }

  /** The least depth of a bounded text. */
  ghost function Depth(t: Template, ts: Templates, d: nat): (r: nat)
    requires Bounded(t, ts, d)
    ensures r <= d && Bounded(t, ts, r) && forall e | 0 <= e < r :: !Bounded(t, ts, e)
  {
    if d > 0 && Bounded(t, ts, d - 1) then Depth(t, ts, d - 1)
    else
      assert forall e | 0 <= e < d :: !Bounded(t, ts, e) by {
        forall e | 0 <= e < d ensures !Bounded(t, ts, e) {
          if Bounded(t, ts, e) {
            BoundedMore(t, ts, e, d - 1);
          }
        }
      }
      d
  }

  /** A path on the way to a text is deeper than the text, so the text does not refer to it. */
  lemma {:induction false} BoundedAcyclic(t: Template, ts: Templates, left: set<string>, d: nat)
    requires Bounded(t, ts, d)
    requires forall q, e | q in ts && q !in left && 0 <= e < d :: !Bounded(ts[q], ts, e)
    ensures Acyclic(t, ts, left)
    decreases d, t
  {
    if t.Hole? {
      var p := Path(t.inner);
      if p in ts {
        assert p in left;
        BoundedAcyclic(ts[p], ts, left - {p}, Depth(ts[p], ts, d - 1));
      }
      BoundedAcyclic(t.tail, ts, left, d);
    }
  }

  // ---- The result -----------------------------------------------------------------------------

  /** The loop stops within k rounds. */
  ghost function Stops(m: Store): Property {
    (s: string, k: nat) => StopsIn(s, In(m), k)
  }

  lemma StopsPassed(m: Store)
    ensures Passed(Stops(m), m)
  {
  }

  /** The loop stops within k rounds, with that result. */
  ghost function StopsWith(m: Store, flat: string): Property {
    (s: string, k: nat) => StopsIn(s, In(m), k) && Ends(s, In(m)) && Resolved(s, In(m)) == flat
  }

  lemma StopsWithPassed(m: Store, flat: string)
    ensures Passed(StopsWith(m, flat), m)
  {
    forall s: string, k: nat | Rewritable(s)
      ensures StopsWith(m, flat)(s, k) <==> k > 0 && StopsWith(m, flat)(Round(s, In(m)), k - 1)
    {
      var next := Round(s, In(m));
      if k > 0 && StopsIn(next, In(m), k - 1) {
        assert StopsIn(s, In(m), k);
        ResolvedOneRound(s, next, In(m));
      }
    }
  }

  lemma AcyclicEnds(t: Template, ts: Templates, m: Store)
    requires Valid(t) && Shows(ts, m) && Acyclic(t, ts, m.Keys)
    ensures Ends(Show(t), In(m)) && Resolved(Show(t), In(m)) == Flat(t, ts, m.Keys)
  {
    var s, flat := Show(t), Flat(t, ts, m.Keys);
    var f := StopsWith(m, flat);
    FlatPlain(t, ts, m, m.Keys);
    PlainStops(flat, In(m));
    StopsWithPassed(m, flat);
    Alone(s);
    Alone(flat);
    assert f(flat, 0);
    AcyclicExpands(f, "", t, "", ts, m, m.Keys, 0);
    assert f(s, Rounds(t, ts, m.Keys));
  }

  lemma Alone(s: string)
    ensures "" + s + "" == s
  {
  }

  lemma EndingIsAcyclic(t: Template, ts: Templates, m: Store)
    requires Valid(t) && Shows(ts, m) && Ends(Show(t), In(m))
    ensures Acyclic(t, ts, m.Keys)
  {
    var k: nat :| StopsIn(Show(t), In(m), k);
    StopsPassed(m);
    Alone(Show(t));
    assert At(Stops(m), "", Show(t), "", k);
    var _, n := GetsPast(Stops(m), "", t, "", ts, m, k);
    BoundedAcyclic(t, ts, m.Keys, n);
  }

  /**
   * For templates as values, the loop ends exactly when following references never meets a path again,
   * and then its result is the full expansion.
   */
  lemma EndsExactly(t: string, m: Store)
    requires WellFormed(t) && forall p | p in m :: WellFormed(m[p])
    ensures var ts := ParseAll(m);
      && (Ends(t, In(m)) <==> Acyclic(Parse(t), ts, m.Keys))
      && (Ends(t, In(m)) ==> Resolved(t, In(m)) == Flat(Parse(t), ts, m.Keys))
  {
    ParseShows(t);
    forall p | p in m {
      ParseShows(m[p]);
    }
    if Acyclic(Parse(t), ParseAll(m), m.Keys) {
      AcyclicEnds(Parse(t), ParseAll(m), m);
    }
    if Ends(t, In(m)) {
      EndingIsAcyclic(Parse(t), ParseAll(m), m);
    }
  }

  /** A value that is its own placeholder makes the loop repeat itself. */
  lemma SelfReferenceLoops(m: Store, p: string)
    requires Plain(p) && ':' !in p && p in m && m[p] == "{" + p + "}"
    ensures Rewritable(m[p]) && Round(m[p], In(m)) == m[p] && !Ends(m[p], In(m))
  {
    var val := m[p];
    assert val == "" + "{" + p + "}" + "";
    HolePieces("", p, "");
    SplitOnPlain(p, ':');
    assert Round(val, In(m)) == val;
    forall n: nat ensures !StopsIn(val, In(m), n) {
      Repeats(val, In(m), n);
    }
  }

  lemma {:induction false} Repeats(val: string, lookup: Lookup, n: nat)
    requires Rewritable(val) && Round(val, lookup) == val
    ensures !StopsIn(val, lookup, n)
  {
    if n > 0 {
      Repeats(val, lookup, n - 1);
    }
  }
}
