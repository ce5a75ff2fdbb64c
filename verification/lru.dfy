/** The least-recently-used cache as a list of entries, most recently used first. */
module LRU {
  import opened Wrappers

  datatype Entry<T> = Entry(key: string, value: T)

  ghost predicate Has<T>(es: seq<Entry<T>>, k: string) {
    exists e | e in es :: e.key == k
  }

  function Without<T>(es: seq<Entry<T>>, k: string): (r: seq<Entry<T>>)
    ensures forall e | e in r :: e in es && e.key != k
    ensures forall e | e in es && e.key != k :: e in r
    ensures |r| <= |es|
  {
    if es == [] then []
    else if es[0].key == k then Without(es[1..], k)
    else [es[0]] + Without(es[1..], k)
  }

  function Lookup<T>(es: seq<Entry<T>>, k: string): Option<T> {
    if es == [] then None
    else if es[0].key == k then Some(es[0].value)
    else Lookup(es[1..], k)
  }

  /** A hit moves the entry to the front; a miss changes nothing. */
  function Get<T>(es: seq<Entry<T>>, k: string): seq<Entry<T>> {
    match Lookup(es, k)
    case Some(v) => [Entry(k, v)] + Without(es, k)
    case None => es
  }

  /** The entry goes to the front; beyond the capacity the last entry is dropped. */
  function Set<T>(es: seq<Entry<T>>, k: string, v: T, capacity: nat): seq<Entry<T>> {
    var es' := [Entry(k, v)] + Without(es, k);
    if |es'| > capacity then es'[..|es'| - 1] else es'
  }

  ghost predicate UniqueKeys<T>(es: seq<Entry<T>>) {
    forall i, j | 0 <= i < j < |es| :: es[i].key != es[j].key
  }

  lemma CutTail<S>(s: seq<S>, i: nat)
    requires 0 < i < |s|
    ensures [s[0]] + (s[1..][..i - 1] + s[1..][i..]) == s[..i] + s[i + 1..]
  {
    assert s[1..][i..] == s[i + 1..];
  }

  /** The entries without the one at index i, when i holds the key. */
  lemma {:induction false} WithoutAt<T>(es: seq<Entry<T>>, i: nat)
    requires UniqueKeys(es) && i < |es|
    ensures Without(es, es[i].key) == es[..i] + es[i + 1..]
    ensures Lookup(es, es[i].key) == Some(es[i].value)
  {
    if i == 0 {
      WithoutAbsent(es[1..], es[0].key);
      assert es[..0] + es[1..] == es[1..];
    } else {
      WithoutAt(es[1..], i - 1);
      CutTail(es, i);
    }
  }

  lemma {:induction false} WithoutAbsent<T>(es: seq<Entry<T>>, k: string)
    requires forall e | e in es :: e.key != k
    ensures Without(es, k) == es && Lookup(es, k).None?
  {
    if es != [] {
      assert es[0] in es;
      WithoutAbsent(es[1..], k);
    }
  }

  lemma {:induction false} LookupExact<T>(es: seq<Entry<T>>, k: string)
    ensures Lookup(es, k).Some? <==> Has(es, k)
  {
    if es != [] {
      LookupExact(es[1..], k);
      assert forall e | e in es :: e == es[0] || e in es[1..];
    }
  }

  lemma {:induction false} LookupIn<T>(es: seq<Entry<T>>, k: string)
    requires Lookup(es, k).Some?
    ensures Entry(k, Lookup(es, k).value) in es
  {
    if es[0].key != k {
      LookupIn(es[1..], k);
    } else {
      assert es[0] == Entry(k, es[0].value);
    }
  }

  /** A hit or a miss shows no entry that was not there. */
  lemma GetKeeps<T>(es: seq<Entry<T>>, k: string)
    ensures forall e | e in Get(es, k) :: e in es
  {
    if Lookup(es, k).Some? {
      LookupIn(es, k);
    }
  }

  /** With unique keys a read is a permutation: no entry is lost, added or doubled. */
  lemma GetPermutes<T>(es: seq<Entry<T>>, k: string)
    requires UniqueKeys(es)
    ensures |Get(es, k)| == |es| && multiset(Get(es, k)) == multiset(es)
  {
    if Lookup(es, k).Some? {
      LookupIn(es, k);
      var i :| 0 <= i < |es| && es[i] == Entry(k, Lookup(es, k).value);
      WithoutAt(es, i);
      assert es == es[..i] + [es[i]] + es[i + 1..];
    }
  }

  // ---- Runs of Get and Set --------------------------------------------------------------------

  datatype Op<T> = GetOp(key: string) | SetOp(key: string, value: T)

  function Apply<T>(es: seq<Entry<T>>, op: Op<T>, capacity: nat): seq<Entry<T>> {
    match op
    case GetOp(k) => Get(es, k)
    case SetOp(k, v) => Set(es, k, v, capacity)
  }

  function Run<T>(ops: seq<Op<T>>, capacity: nat): seq<Entry<T>> {
    if ops == [] then [] else Apply(Run(ops[..|ops| - 1], capacity), ops[|ops| - 1], capacity)
  }

  /** The keys touched by the run, in order: every Set, and every Get that hit. */
  ghost function Touches<T>(ops: seq<Op<T>>, capacity: nat): seq<string> {
    if ops == [] then []
    else
      var before, op := ops[..|ops| - 1], ops[|ops| - 1];
      Touches(before, capacity)
      + (if op.SetOp? || Has(Run(before, capacity), op.key) then [op.key] else [])
  }

  /** The distinct keys other than k touched since the last touch of k. */
  ghost function OthersSince(touches: seq<string>, k: string): set<string> {
    if touches == [] || touches[|touches| - 1] == k then {}
    else OthersSince(touches[..|touches| - 1], k) + {touches[|touches| - 1]}
  }

  // ---- The stack of all keys ever touched -----------------------------------------------------

  ghost function Remove(s: seq<string>, k: string): (r: seq<string>)
    ensures forall x :: x in r <==> x in s && x != k
  {
    if s == [] then [] else if s[0] == k then Remove(s[1..], k) else [s[0]] + Remove(s[1..], k)
  }

  /** Every touched key once, the most recently touched first. */
  ghost function Stack(touches: seq<string>): seq<string> {
    if touches == [] then []
    else [touches[|touches| - 1]] + Remove(Stack(touches[..|touches| - 1]), touches[|touches| - 1])
  }

  ghost predicate Distinct(s: seq<string>) {
    forall i, j | 0 <= i < j < |s| :: s[i] != s[j]
  }

  lemma {:induction false} RemoveAbsent(s: seq<string>, k: string)
    requires k !in s
    ensures Remove(s, k) == s
  {
    if s != [] {
      RemoveAbsent(s[1..], k);
    }
  }

  lemma {:induction false} RemoveAt(s: seq<string>, i: nat)
    requires Distinct(s) && i < |s|
    ensures Remove(s, s[i]) == s[..i] + s[i + 1..]
  {
    if i == 0 {
      RemoveAbsent(s[1..], s[0]);
    } else {
      RemoveAt(s[1..], i - 1);
      CutTail(s, i);
    }
  }

  lemma RemoveDistinct(s: seq<string>, k: string)
    requires Distinct(s)
    ensures Distinct(Remove(s, k))
    ensures k !in s ==> Remove(s, k) == s
    ensures forall i | 0 <= i < |s| && s[i] == k :: Remove(s, k) == s[..i] + s[i + 1..]
  {
    if i :| 0 <= i < |s| && s[i] == k {
      RemoveAt(s, i);
    } else {
      RemoveAbsent(s, k);
    }
  }

  lemma {:induction false} StackDistinct(touches: seq<string>)
    ensures Distinct(Stack(touches))
    ensures forall k :: k in Stack(touches) <==> k in touches
  {
    if touches != [] {
      var n := |touches| - 1;
      StackDistinct(touches[..n]);
      RemoveDistinct(Stack(touches[..n]), touches[n]);
      assert touches == touches[..n] + [touches[n]];
    }
  }

  /** The depth of a key in the stack is the number of distinct other keys touched since. */
  lemma {:induction false} StackDepth(touches: seq<string>, k: string)
    requires k in touches
    ensures exists i | 0 <= i < |Stack(touches)| ::
      Stack(touches)[i] == k && OthersSince(touches, k) == (set x | x in Stack(touches)[..i])
  {
    var n := |touches| - 1;
    var last := touches[n];
    var s := Stack(touches[..n]);
    if last == k {
      assert Stack(touches)[0] == k && Stack(touches)[..0] == [];
    } else {
      assert touches == touches[..n] + [last];
      StackDepth(touches[..n], k);
      var i :| 0 <= i < |s| && s[i] == k && OthersSince(touches[..n], k) == (set x | x in s[..i]);
      StackDistinct(touches[..n]);
      RemoveDistinct(s, last);
      var j := DepthAfter(s, i, last);
      assert Stack(touches)[j] == k;
    }
  }

  lemma CutAbove(s: seq<string>, m: nat, i: nat)
    requires m < i < |s|
    ensures ([s[m]] + (s[..m] + s[m + 1..]))[i] == s[i]
    ensures ([s[m]] + (s[..m] + s[m + 1..]))[..i] == [s[m]] + (s[..m] + s[m + 1..i])
    ensures s[..i] == s[..m] + [s[m]] + s[m + 1..i]
  {
  }

  lemma SameElements(a: seq<string>, k: string, b: seq<string>, t: seq<string>, u: seq<string>)
    requires t == [k] + (a + b) && u == a + [k] + b
    ensures (set x | x in t) == (set x | x in u) + {k}
  {
    assert u[|a|] == k;
  }

  /** Moving another key to the front pushes k down unless that key was above it. */
  lemma DepthAfter(s: seq<string>, i: nat, last: string) returns (j: nat)
    requires Distinct(s) && i < |s| && s[i] != last
    requires last !in s ==> Remove(s, last) == s
    requires forall m | 0 <= m < |s| && s[m] == last :: Remove(s, last) == s[..m] + s[m + 1..]
    ensures j < |[last] + Remove(s, last)| && ([last] + Remove(s, last))[j] == s[i]
    ensures (set x | x in ([last] + Remove(s, last))[..j]) == (set x | x in s[..i]) + {last}
  {
    if m :| 0 <= m < |s| && s[m] == last {
      if m < i {
        j := i;
        CutAbove(s, m, i);
        SameElements(s[..m], last, s[m + 1..i], ([last] + (s[..m] + s[m + 1..]))[..i], s[..i]);
      } else {
        j := i + 1;
        assert ([last] + (s[..m] + s[m + 1..]))[..i + 1] == [last] + s[..i];
      }
    } else {
      j := i + 1;
      assert ([last] + s)[..i + 1] == [last] + s[..i];
    }
  }

  // ---- The cache is the top of the stack ------------------------------------------------------

  ghost function Keys<T>(es: seq<Entry<T>>): (r: seq<string>)
    ensures |r| == |es| && forall i | 0 <= i < |es| :: r[i] == es[i].key
  {
    seq(|es|, i requires 0 <= i < |es| => es[i].key)
  }

  ghost function Top(s: seq<string>, n: nat): seq<string> {
    if |s| <= n then s else s[..n]
  }

  lemma KeysCons<T>(e: Entry<T>, es: seq<Entry<T>>)
    ensures Keys([e] + es) == [e.key] + Keys(es)
  {
  }

  lemma {:induction false} KeysWithout<T>(es: seq<Entry<T>>, k: string)
    ensures Keys(Without(es, k)) == Remove(Keys(es), k)
  {
    if es != [] {
      var e, rest := es[0], es[1..];
      KeysWithout(rest, k);
      assert Keys(es)[0] == e.key && Keys(es)[1..] == Keys(rest);
      if e.key != k {
        KeysCons(e, Without(rest, k));
      }
    }
  }

  lemma KeysHas<T>(es: seq<Entry<T>>, k: string)
    ensures Has(es, k) <==> k in Keys(es)
  {
    if Has(es, k) {
      var e :| e in es && e.key == k;
      var i :| 0 <= i < |es| && es[i] == e;
      assert Keys(es)[i] == k;
    }
    if k in Keys(es) {
      var i :| 0 <= i < |es| && Keys(es)[i] == k;
      assert es[i] in es;
    }
  }

  lemma TopCut(s: seq<string>, m: nat, n: nat)
    requires m < n < |s|
    ensures s[..n][m] == s[m]
    ensures s[..n][..m] + s[..n][m + 1..] == (s[..m] + s[m + 1..])[..n - 1]
  {
    assert s[..n][m + 1..] == s[m + 1..n];
  }

  lemma TopWithKey(s: seq<string>, m: nat, n: nat)
    requires Distinct(s) && m < |s| && m < n
    ensures Remove(Top(s, n), s[m]) == Top(s[..m] + s[m + 1..], n - 1)
    ensures s[m] in Top(s, n)
  {
    if |s| > n {
      RemoveAt(s[..n], m);
      TopCut(s, m, n);
    } else {
      RemoveAt(s, m);
    }
  }

  lemma TopWithoutKey(s: seq<string>, m: nat, n: nat)
    requires Distinct(s) && n <= m < |s|
    ensures Remove(Top(s, n), s[m]) == Top(s[..m] + s[m + 1..], n)
    ensures s[m] !in Top(s, n)
  {
    RemoveAbsent(s[..n], s[m]);
    assert (s[..m] + s[m + 1..])[..n] == s[..n];
  }

  lemma TopPush(s: seq<string>, k: string, n: nat)
    requires n > 0
    ensures Top([k] + s, n) == [k] + Top(s, n - 1)
    ensures Top([k] + Top(s, n), n) == Top([k] + s, n)
    ensures Top([k] + Top(s, n - 1), n) == Top([k] + s, n)
  {
  }

  /** Touching a key commutes with looking only at the top of the stack. */
  lemma TopOfTouch(s: seq<string>, k: string, n: nat)
    requires Distinct(s) && n > 0
    ensures Top([k] + Remove(s, k), n) == Top([k] + Remove(Top(s, n), k), n)
    ensures k in Top(s, n) ==> Top([k] + Remove(s, k), n) == [k] + Remove(Top(s, n), k)
  {
    TopPush(Remove(s, k), k, n);
    if m :| 0 <= m < |s| && s[m] == k {
      RemoveAt(s, m);
      if m < n {
        TopWithKey(s, m, n);
      } else {
        TopWithoutKey(s, m, n);
      }
    } else {
      RemoveAbsent(s, k);
      RemoveAbsent(Top(s, n), k);
    }
  }

  lemma GetIsTouch<T>(es: seq<Entry<T>>, t: seq<string>, k: string, capacity: nat)
    requires capacity > 0 && Keys(es) == Top(Stack(t), capacity) && Has(es, k)
    ensures Keys(Get(es, k)) == Top(Stack(t + [k]), capacity)
  {
    StackDistinct(t);
    TopOfTouch(Stack(t), k, capacity);
    TouchedStack(t, k);
    KeysHas(es, k);
    GetKeys(es, k);
  }

  lemma GetKeys<T>(es: seq<Entry<T>>, k: string)
    requires Has(es, k)
    ensures Keys(Get(es, k)) == [k] + Remove(Keys(es), k)
  {
    LookupExact(es, k);
    KeysWithout(es, k);
    var e := Entry(k, Lookup(es, k).value);
    KeysCons(e, Without(es, k));
  }

  lemma SetIsTouch<T>(es: seq<Entry<T>>, t: seq<string>, k: string, v: T, capacity: nat)
    requires capacity > 0 && Keys(es) == Top(Stack(t), capacity)
    ensures Keys(Set(es, k, v, capacity)) == Top(Stack(t + [k]), capacity)
  {
    StackDistinct(t);
    TopOfTouch(Stack(t), k, capacity);
    TouchedStack(t, k);
    SetKeys(es, k, v, capacity);
  }

  /** The cached keys are the top of the stack of all keys ever touched. */
  lemma {:induction false} CacheIsTop<T>(ops: seq<Op<T>>, capacity: nat)
    requires capacity > 0
    ensures Keys(Run(ops, capacity)) == Top(Stack(Touches(ops, capacity)), capacity)
  {
    if ops != [] {
      var before, op := ops[..|ops| - 1], ops[|ops| - 1];
      CacheIsTop(before, capacity);
      var es, t := Run(before, capacity), Touches(before, capacity);
      match op {
        case GetOp(k) =>
          if Has(es, k) {
            GetIsTouch(es, t, k, capacity);
          } else {
            LookupExact(es, k);
            assert t + [] == t;
          }
        case SetOp(k, v) =>
          SetIsTouch(es, t, k, v, capacity);
      }
    }
  }

  lemma TouchedStack(t: seq<string>, k: string)
    ensures Stack(t + [k]) == [k] + Remove(Stack(t), k)
  {
    assert (t + [k])[..|t|] == t;
  }

  lemma {:induction false} RemoveShorter(s: seq<string>, k: string)
    ensures |Remove(s, k)| <= |s|
  {
    if s != [] {
      RemoveShorter(s[1..], k);
    }
  }

  lemma SetKeys<T>(es: seq<Entry<T>>, k: string, v: T, capacity: nat)
    requires |es| <= capacity && capacity > 0
    ensures Keys(Set(es, k, v, capacity)) == Top([k] + Remove(Keys(es), k), capacity)
  {
    KeysWithout(es, k);
    RemoveShorter(Keys(es), k);
    KeysCons(Entry(k, v), Without(es, k));
  }

  lemma {:induction false} TouchedWasSet<T>(ops: seq<Op<T>>, capacity: nat, k: string)
    requires capacity > 0
    ensures k in Touches(ops, capacity) <==> exists op | op in ops :: op.SetOp? && op.key == k
  {
    if ops != [] {
      var before, op := ops[..|ops| - 1], ops[|ops| - 1];
      assert ops == before + [op];
      TouchedWasSet(before, capacity, k);
      CacheIsTop(before, capacity);
      StackDistinct(Touches(before, capacity));
      KeysHas(Run(before, capacity), op.key);
    }
  }

  /**
   * A key is in the cache exactly if it was ever set and fewer than capacity distinct other keys
   * have been touched since its last touch.
   */
  lemma StackDistance<T>(ops: seq<Op<T>>, capacity: nat, k: string)
    requires capacity > 0
    ensures Has(Run(ops, capacity), k) <==>
      && (exists op | op in ops :: op.SetOp? && op.key == k)
      && |OthersSince(Touches(ops, capacity), k)| < capacity
  {
    var t := Touches(ops, capacity);
    CacheIsTop(ops, capacity);
    TouchedWasSet(ops, capacity, k);
    KeysHas(Run(ops, capacity), k);
    StackDistinct(t);
    if k in t {
      StackDepth(t, k);
      var s := Stack(t);
      var i :| 0 <= i < |s| && s[i] == k && OthersSince(t, k) == (set x | x in s[..i]);
      DistinctSize(s[..i]);
      assert k in Top(s, capacity) <==> i < capacity;
    }
  }

  /** The value of the last Set of the key. */
  ghost function LastSet<T>(ops: seq<Op<T>>, k: string): Option<T> {
    if ops == [] then None
    else
      match ops[|ops| - 1]
      case SetOp(key, v) => if key == k then Some(v) else LastSet(ops[..|ops| - 1], k)
      case GetOp(_) => LastSet(ops[..|ops| - 1], k)
  }

  lemma {:induction false} LookupWithout<T>(es: seq<Entry<T>>, key: string, k: string)
    ensures Lookup(Without(es, key), k) == if k == key then None else Lookup(es, k)
  {
    if es != [] {
      LookupWithout(es[1..], key, k);
      if es[0].key != key {
        assert Without(es, key)[1..] == Without(es[1..], key);
      }
    }
  }

  lemma LookupCons<T>(e: Entry<T>, es: seq<Entry<T>>, k: string)
    ensures Lookup([e] + es, k) == if e.key == k then Some(e.value) else Lookup(es, k)
  {
    assert ([e] + es)[1..] == es;
  }

  lemma {:induction false} LookupPrefix<T>(es: seq<Entry<T>>, n: nat, k: string)
    requires n <= |es|
    ensures Lookup(es[..n], k).Some? ==> Lookup(es[..n], k) == Lookup(es, k)
  {
    if n > 0 {
      assert es[..n][1..] == es[1..][..n - 1];
      LookupPrefix(es[1..], n - 1, k);
    }
  }

  lemma StepValue<T>(es: seq<Entry<T>>, op: Op<T>, capacity: nat, k: string)
    requires Lookup(Apply(es, op, capacity), k).Some?
    ensures Lookup(Apply(es, op, capacity), k) == if op.SetOp? && op.key == k then Some(op.value) else Lookup(es, k)
  {
    match op {
      case GetOp(key) =>
        if Lookup(es, key).Some? {
          LookupCons(Entry(key, Lookup(es, key).value), Without(es, key), k);
          LookupWithout(es, key, k);
        }
      case SetOp(key, v) =>
        var es' := [Entry(key, v)] + Without(es, key);
        LookupCons(Entry(key, v), Without(es, key), k);
        LookupWithout(es, key, k);
        if |es'| > capacity {
          LookupPrefix(es', |es'| - 1, k);
        }
    }
  }

  /** What a cached key holds is what was last set for it. */
  lemma {:induction false} CachedValue<T>(ops: seq<Op<T>>, capacity: nat, k: string)
    requires Has(Run(ops, capacity), k)
    ensures Lookup(Run(ops, capacity), k).Some? && Lookup(Run(ops, capacity), k) == LastSet(ops, k)
  {
    var before, op := ops[..|ops| - 1], ops[|ops| - 1];
    LookupExact(Run(ops, capacity), k);
    StepValue(Run(before, capacity), op, capacity, k);
    if !(op.SetOp? && op.key == k) {
      LookupExact(Run(before, capacity), k);
      CachedValue(before, capacity, k);
    }
  }

  lemma {:induction false} DistinctSize(s: seq<string>)
    requires Distinct(s)
    ensures |set x | x in s| == |s|
  {
    if s != [] {
      DistinctSize(s[1..]);
      assert (set x | x in s) == {s[0]} + (set x | x in s[1..]);
    }
  }
}
