/** Placeholders of the form {path} or {path:default} in the texts of a payment. */
module Placeholders {
  import opened Wrappers
  import opened Text

  /** The text a path stands for in the global store, if it has one. */
  type Lookup = string -> Option<string>

  ghost predicate Without(lookup: Lookup, c: char) {
    forall path :: lookup(path).Some? ==> c !in lookup(path).value
  }

  /** What is written in place of the braces around inner. */
  function Replacement(inner: string, lookup: Lookup): string {
    var parts := SplitOn(inner, ':');
    var resolved := lookup(parts[0]);
    if resolved.Some? then resolved.value
    else if |parts| > 1 then parts[1]
    else ""
  }

  /** A path is replaced by its value, or by nothing. */
  lemma PathReplaced(path: string, lookup: Lookup)
    requires ':' !in path
    ensures Replacement(path, lookup) == match lookup(path) case Some(value) => value case None => ""
  {
    SplitOnPlain(path, ':');
  }

  /** With a default the value still wins; what follows a second colon is ignored. */
  lemma DefaultReplaced(path: string, text: string, rest: string, lookup: Lookup)
    requires ':' !in path && ':' !in text && (rest == "" || rest[0] == ':')
    ensures Replacement(path + ":" + (text + rest), lookup)
         == match lookup(path) case Some(value) => value case None => text
  {
    SplitOnFirst(path, text + rest, ':');
    if rest == "" {
      assert text + rest == text;
      SplitOnPlain(text, ':');
    } else {
      assert text + rest == text + [':'] + rest[1..];
      SplitOnFirst(text, rest[1..], ':');
    }
  }

  lemma ReplacementWithout(inner: string, lookup: Lookup, c: char)
    requires Without(lookup, c) && c !in inner
    ensures c !in Replacement(inner, lookup)
  {
    var parts := SplitOn(inner, ':');
    if |parts| > 1 && c in parts[1] {
      SplitOnChars(inner, ':', 1, c);
    }
  }

  // ---- One round of the loop ------------------------------------------------------------------

  /** There is an opening brace before the first closing one. */
  predicate Rewritable(val: string) {
    IndexOf(val, '{') < IndexOf(val, '}') < |val|
  }

  function Before(val: string): string {
    val[..IndexOf(val, '{')]
  }

  /** The text between the first braces. */
  function Inner(val: string): string
    requires Rewritable(val)
  {
    val[IndexOf(val, '{') + 1..IndexOf(val, '}')]
  }

  function Tail(val: string): string
    requires Rewritable(val)
  {
    val[IndexOf(val, '}') + 1..]
  }

  function Round(val: string, lookup: Lookup): string
    requires Rewritable(val)
  {
    Before(val) + Replacement(Inner(val), lookup) + Tail(val)
  }

  lemma Pieces(val: string)
    requires Rewritable(val)
    ensures val == Before(val) + "{" + Inner(val) + "}" + Tail(val)
    ensures '{' !in Before(val) && '}' !in Before(val) && '}' !in Inner(val)
  {
  }

  // ---- When the loop ends ---------------------------------------------------------------------

  /** The loop stops after at most n rounds. */
  predicate StopsIn(val: string, lookup: Lookup, n: nat)
    decreases n
  {
    !Rewritable(val) || (n > 0 && StopsIn(Round(val, lookup), lookup, n - 1))
  }

  ghost predicate Ends(val: string, lookup: Lookup) {
    exists n: nat :: StopsIn(val, lookup, n)
  }

  lemma {:induction false} StopsLater(val: string, lookup: Lookup, n: nat, m: nat)
    requires StopsIn(val, lookup, n) && n <= m
    ensures StopsIn(val, lookup, m)
    decreases n
  {
    if Rewritable(val) {
      StopsLater(Round(val, lookup), lookup, n - 1, m - 1);
    }
  }

  /** The smallest number of rounds not below k. */
  ghost function RoundsFrom(val: string, lookup: Lookup, k: nat, n: nat): (r: nat)
    requires StopsIn(val, lookup, n) && k <= n && forall j | 0 <= j < k :: !StopsIn(val, lookup, j)
    ensures StopsIn(val, lookup, r) && forall j | 0 <= j < r :: !StopsIn(val, lookup, j)
    decreases n - k
  {
    if StopsIn(val, lookup, k) then k else RoundsFrom(val, lookup, k + 1, n)
  }

  /** How many rounds the loop takes. */
  ghost function RoundsLeft(val: string, lookup: Lookup): (r: nat)
    requires Ends(val, lookup)
    ensures StopsIn(val, lookup, r) && forall j | 0 <= j < r :: !StopsIn(val, lookup, j)
  {
    var n: nat :| StopsIn(val, lookup, n);
    RoundsFrom(val, lookup, 0, n)
  }

  lemma RoundTakesOne(val: string, lookup: Lookup)
    requires Ends(val, lookup) && Rewritable(val)
    ensures Ends(Round(val, lookup), lookup)
    ensures RoundsLeft(Round(val, lookup), lookup) < RoundsLeft(val, lookup)
  {
    var n := RoundsLeft(val, lookup);
    assert n > 0 && StopsIn(Round(val, lookup), lookup, n - 1);
    assert RoundsLeft(Round(val, lookup), lookup) <= n - 1;
  }

  function Count(s: string, c: char): nat {
    multiset(s)[c]
  }

  lemma {:induction false} CountPart(s: string, sep: char, i: nat, c: char)
    requires i < |SplitOn(s, sep)|
    ensures Count(SplitOn(s, sep)[i], c) <= Count(s, c)
  {
    if s != "" {
      var rest := SplitOn(s[1..], sep);
      assert s == [s[0]] + s[1..];
      if s[0] == sep {
        if i > 0 {
          CountPart(s[1..], sep, i - 1, c);
        }
      } else {
        CountPart(s[1..], sep, i, c);
      }
    }
  }

  lemma RoundCounts(val: string, lookup: Lookup, c: char)
    requires Rewritable(val) && (c == '{' || c == '}')
    ensures Count(val, c) == Count(Before(val), c) + 1 + Count(Inner(val), c) + Count(Tail(val), c)
    ensures Count(Round(val, lookup), c)
         == Count(Before(val), c) + Count(Replacement(Inner(val), lookup), c) + Count(Tail(val), c)
  {
    Pieces(val);
  }

  lemma ReplacementCounts(inner: string, lookup: Lookup, c: char)
    requires Without(lookup, c)
    ensures Count(Replacement(inner, lookup), c) <= Count(inner, c)
  {
    var parts := SplitOn(inner, ':');
    if |parts| > 1 {
      CountPart(inner, ':', 1, c);
    }
  }

  /** A round uses up one of the braces that the global values do not contain. */
  lemma RoundUsesOne(val: string, lookup: Lookup, c: char)
    requires Rewritable(val) && (c == '{' || c == '}') && Without(lookup, c)
    ensures Count(Round(val, lookup), c) < Count(val, c)
  {
    RoundCounts(val, lookup, c);
    ReplacementCounts(Inner(val), lookup, c);
  }

  /** If no value contains one of the two braces, their number in the text bounds the rounds. */
  lemma {:induction false} EndsWithout(val: string, lookup: Lookup, c: char)
    requires (c == '{' || c == '}') && Without(lookup, c)
    ensures StopsIn(val, lookup, Count(val, c))
    decreases Count(val, c)
  {
    if Rewritable(val) {
      var next := Round(val, lookup);
      RoundUsesOne(val, lookup, c);
      EndsWithout(next, lookup, c);
      StopsLater(next, lookup, Count(next, c), Count(val, c) - 1);
    }
  }

  // ---- The loop -------------------------------------------------------------------------------

  function Resolved(val: string, lookup: Lookup): string
    requires Ends(val, lookup)
    decreases RoundsLeft(val, lookup)
  {
    if !Rewritable(val) then val
    else
      RoundTakesOne(val, lookup);
      Resolved(Round(val, lookup), lookup)
  }

  method ResolveString(text: string, lookup: Lookup) returns (val: string)
    requires Ends(text, lookup)
    ensures val == Resolved(text, lookup) && !Rewritable(val)
  {
    val := text;
    while true
      invariant Ends(val, lookup) && Resolved(val, lookup) == Resolved(text, lookup)
      decreases RoundsLeft(val, lookup)
    {
      var start, end := IndexOf(val, '{'), IndexOf(val, '}');
      if start == |val| || end == |val| || end < start {
        break;
      }
      var placeholder := val[start..end + 1];
      var replacement := Replacement(val[start + 1..end], lookup);
      RoundTakesOne(val, lookup);
      FirstPlaceholder(val, start, end, lookup);
      val := ReplaceFirst(val, placeholder, replacement);
    }
  }

  /** The placeholder found is also the first occurrence of its text. */
  lemma FirstPlaceholder(val: string, start: nat, end: nat, lookup: Lookup)
    requires Rewritable(val) && start == IndexOf(val, '{') && end == IndexOf(val, '}')
    ensures ReplaceFirst(val, val[start..end + 1], Replacement(val[start + 1..end], lookup)) == Round(val, lookup)
  {
    var sub := val[start..end + 1];
    forall k | 0 <= k < start ensures !OccursAt(val, sub, k) {
      OccursStart(val, sub, k);
    }
    FoundAt(val, sub, start);
    assert start + |sub| == end + 1;
  }

  lemma FoundAt(val: string, sub: string, start: nat)
    requires sub != "" && OccursAt(val, sub, start) && forall k | 0 <= k < start :: !OccursAt(val, sub, k)
    ensures FindFrom(val, sub, 0) == start < |val|
  {
    assert !(start < FindFrom(val, sub, 0));
  }

  lemma OccursStart(val: string, sub: string, k: nat)
    requires sub != ""
    ensures OccursAt(val, sub, k) ==> val[k] == sub[0]
  {
    if OccursAt(val, sub, k) {
      assert val[k..k + |sub|][0] == val[k];
    }
  }

  // ---- Templates ------------------------------------------------------------------------------

  /** Braces come in pairs and do not nest. */
  predicate WellFormed(t: string)
    decreases |t|
  {
    if IndexOf(t, '{') == |t| then '}' !in t
    else Rewritable(t) && '{' !in Inner(t) && WellFormed(Tail(t))
  }

  predicate Plain(s: string) {
    '{' !in s && '}' !in s
  }

  lemma SlicesInContext(s: string, prefix: string, t: string, rest: string, i: nat, j: nat)
    requires s == prefix + t + rest && i < j < |t|
    ensures var n := |prefix|;
      && s[..n + i] == prefix + t[..i] && s[n + i + 1..n + j] == t[i + 1..j]
      && s[n + j + 1..] == t[j + 1..] + rest
  {
  }

  lemma PiecesInContext(s: string, prefix: string, t: string, rest: string)
    requires s == prefix + t + rest && Plain(prefix) && Rewritable(t)
    ensures Rewritable(s)
    ensures Before(s) == prefix + Before(t) && Inner(s) == Inner(t) && Tail(s) == Tail(t) + rest
  {
    FirstInside(s, prefix, t, rest, '{');
    FirstInside(s, prefix, t, rest, '}');
    SlicesInContext(s, prefix, t, rest, IndexOf(t, '{'), IndexOf(t, '}'));
  }

  /** After plain text the first placeholder of a template is rewritten first. */
  lemma RoundInContext(s: string, prefix: string, t: string, rest: string, lookup: Lookup)
    requires s == prefix + t + rest && Plain(prefix) && Rewritable(t)
    ensures Rewritable(s)
    ensures Round(s, lookup) == (prefix + Before(t)) + Replacement(Inner(t), lookup) + (Tail(t) + rest)
  {
    PiecesInContext(s, prefix, t, rest);
    RoundOf(s, prefix + Before(t), Inner(t), Tail(t) + rest, lookup);
  }

  lemma RoundOf(s: string, before: string, inner: string, tail: string, lookup: Lookup)
    requires Rewritable(s) && Before(s) == before && Inner(s) == inner && Tail(s) == tail
    ensures Round(s, lookup) == before + Replacement(inner, lookup) + tail
  {
  }

  lemma PlainStops(s: string, lookup: Lookup)
    requires Plain(s)
    ensures !Rewritable(s) && StopsIn(s, lookup, 0)
  {
  }

  // ---- Simultaneous substitution --------------------------------------------------------------

  /** Every placeholder is replaced at once, from left to right; replacements are not looked at again. */
  function Substitute(t: string, lookup: Lookup): string
    requires WellFormed(t)
    decreases |t|
  {
    if IndexOf(t, '{') == |t| then t
    else Before(t) + Replacement(Inner(t), lookup) + Substitute(Tail(t), lookup)
  }

  lemma Regroup(a: string, b: string, c: string, d: string)
    ensures ((a + b) + c) + d == a + (b + c + d)
  {
  }

  lemma ResolvedOneRound(s: string, s': string, lookup: Lookup)
    requires Ends(s, lookup) && Rewritable(s) && s' == Round(s, lookup)
    ensures Ends(s', lookup) && Resolved(s, lookup) == Resolved(s', lookup)
  {
    RoundTakesOne(s, lookup);
  }

  lemma {:induction false} ResolvedAfterPlain(s: string, prefix: string, t: string, lookup: Lookup)
    requires Without(lookup, '{') && Without(lookup, '}') && Plain(prefix) && WellFormed(t)
    requires s == prefix + t && Ends(s, lookup)
    ensures Resolved(s, lookup) == prefix + Substitute(t, lookup)
    decreases |t|
  {
    if IndexOf(t, '{') == |t| {
      PlainStops(s, lookup);
    } else {
      var replacement, tail := Replacement(Inner(t), lookup), Tail(t);
      Pieces(t);
      ReplacementWithout(Inner(t), lookup, '{');
      ReplacementWithout(Inner(t), lookup, '}');
      assert prefix + t + "" == s && tail + "" == tail;
      RoundInContext(s, prefix, t, "", lookup);
      var prefix' := (prefix + Before(t)) + replacement;
      ResolvedOneRound(s, prefix' + tail, lookup);
      ResolvedAfterPlain(prefix' + tail, prefix', tail, lookup);
      Regroup(prefix, Before(t), replacement, Substitute(tail, lookup));
    }
  }

  /** On a well-formed template and values without braces, the loop is one simultaneous substitution. */
  lemma ResolvedIsSubstitution(t: string, lookup: Lookup)
    requires Without(lookup, '{') && Without(lookup, '}') && WellFormed(t)
    ensures Ends(t, lookup) && Resolved(t, lookup) == Substitute(t, lookup)
  {
    EndsWithout(t, lookup, '{');
    assert "" + t == t;
    ResolvedAfterPlain(t, "", t, lookup);
  }
}
