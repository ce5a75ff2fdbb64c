/** Exactly when the order in which Go iterates decides what a submitted form writes. */
module ExtractionOrder {
  import opened Wrappers
  import opened JsonPath
  import opened Schemas
  import opened Extraction

  // ---- Other orders of the same keys ----------------------------------------------------------

  ghost predicate Permuted(o: Order, o': Order) {
    forall p :: multiset(o'(p)) == multiset(o(p))
  }

  lemma Twice(keys: seq<string>, i: nat, j: nat)
    requires i < j < |keys| && keys[i] == keys[j]
    ensures multiset(keys)[keys[i]] >= 2
  {
    assert keys == keys[..j] + [keys[j]] + keys[j + 1..];
    assert keys[..j][i] == keys[j];
  }

  lemma {:induction false} Once(keys: seq<string>, k: string)
    requires Distinct(keys)
    ensures multiset(keys)[k] <= 1
  {
    if keys != [] {
      assert keys == [keys[0]] + keys[1..];
      Once(keys[1..], k);
    }
  }

  lemma PermutedKeys(a: seq<string>, b: seq<string>)
    requires multiset(a) == multiset(b) && Distinct(a)
    ensures Distinct(b) && forall k :: k in b <==> k in a
  {
    forall i, j | 0 <= i < j < |b| ensures b[i] != b[j] {
      if b[i] == b[j] {
        Twice(b, i, j);
        Once(a, b[i]);
        assert false;
      }
    }
    forall k ensures k in b <==> k in a {
      assert k in multiset(a) <==> k in multiset(b);
    }
  }

  lemma {:induction false} ListsPermuted(s: Schema, path: string, o: Order, o': Order)
    requires Lists(s, path, o) && Permuted(o, o')
    ensures Lists(s, path, o')
    decreases s
  {
    if s.kind == "object" {
      assert Distinct(o(path));
      PermutedKeys(o(path), o'(path));
      forall k | k in s.properties ensures Lists(s.properties[k], ChildPath(path, k), o') {
        ListsPermuted(s.properties[k], ChildPath(path, k), o, o');
      }
    } else if s.kind == "array" && s.items.Some? {
      ListsPermuted(s.items.value, path + "[]", o, o');
    }
  }

  // ---- A subtree is visited in the order given for its paths ----------------------------------

  ghost predicate SameFrom(o: Order, o': Order, n: nat) {
    forall p | |p| >= n :: o'(p) == o(p)
  }

  lemma {:induction false} SameTraverse(s: Schema, path: string, o: Order, o': Order)
    requires SameFrom(o, o', |path|)
    ensures Traverse(s, path, o') == Traverse(s, path, o)
    decreases s, 1, 0
  {
    if s.kind == "object" {
      SameTraverseKeys(s, path, o(path), o, o');
    }
    if s.kind == "array" && s.items.Some? {
      SameTraverse(s.items.value, path + "[]", o, o');
    }
  }

  lemma {:induction false} SameTraverseKeys(s: Schema, path: string, keys: seq<string>, o: Order, o': Order)
    requires SameFrom(o, o', |path|)
    ensures TraverseKeys(s, path, keys, o') == TraverseKeys(s, path, keys, o)
    decreases s, 0, |keys|
  {
    if keys != [] {
      if keys[0] in s.properties {
        SameTraverse(s.properties[keys[0]], ChildPath(path, keys[0]), o, o');
      }
      SameTraverseKeys(s, path, keys[1..], o, o');
    }
  }

  lemma {:induction false} VisitOfKey(s: Schema, path: string, keys: seq<string>, o: Order, v: Visit) returns (i: nat)
    requires v in TraverseKeys(s, path, keys, o)
    ensures i < |keys| && keys[i] in s.properties
    ensures v in Traverse(s.properties[keys[i]], ChildPath(path, keys[i]), o)
    decreases |keys|
  {
    if keys[0] in s.properties && v in Traverse(s.properties[keys[0]], ChildPath(path, keys[0]), o) {
      i := 0;
    } else {
      i := VisitOfKey(s, path, keys[1..], o, v);
      i := i + 1;
    }
  }

  // ---- Any field can be visited last ----------------------------------------------------------

  /** No property has the empty name, so that every path is longer than that of its parent. */
  ghost predicate Named(s: Schema)
    decreases s
  {
    && (s.kind == "object" ==> forall k | k in s.properties :: k != "" && Named(s.properties[k]))
    && (s.kind == "array" && s.items.Some? ==> Named(s.items.value))
  }

  function MovedLast(o: Order, path: string, i: nat): Order
    requires i < |o(path)|
  {
    p => if p == path then Without(o(path), i) + [o(path)[i]] else o(p)
  }

  lemma MovedPermuted(o: Order, path: string, i: nat)
    requires i < |o(path)|
    ensures Permuted(o, MovedLast(o, path, i)) && SameFrom(o, MovedLast(o, path, i), |path| + 1)
  {
    var keys := o(path);
    assert keys == keys[..i] + [keys[i]] + keys[i + 1..];
  }

  lemma PermutedTwice(a: Order, b: Order, c: Order)
    requires Permuted(a, b) && Permuted(b, c)
    ensures Permuted(a, c)
  {
  }

  ghost predicate LastIs(visits: seq<Visit>, v: Visit) {
    |visits| > 0 && visits[|visits| - 1] == v
  }

  lemma LastOfAppend(a: seq<Visit>, b: seq<Visit>, v: Visit)
    requires LastIs(b, v)
    ensures LastIs(a + b, v)
  {
  }

  /** The subtree of the last key is visited last. */
  lemma LastKeyLast(s: Schema, path: string, before: seq<string>, k: string, o: Order, v: Visit)
    requires s.kind == "object" && o(path) == before + [k] && k in s.properties
    requires LastIs(Traverse(s.properties[k], ChildPath(path, k), o), v)
    ensures LastIs(Traverse(s, path, o), v)
  {
    var child := Traverse(s.properties[k], ChildPath(path, k), o);
    assert TraverseKeys(s, path, [k], o) == child by {
      assert [k][1..] == [];
      assert TraverseKeys(s, path, [k], o) == child + [];
    }
    TraverseKeysAppend(s, path, before, [k], o);
    var keys := TraverseKeys(s, path, o(path), o);
    LastOfAppend(TraverseKeys(s, path, before, o), child, v);
    LastOfAppend([Visit(path, s)], keys, v);
    assert Traverse(s, path, o) == [Visit(path, s)] + keys + [];
  }

  /** o' differs from o only in the order of keys, at paths no shorter than n. */
  ghost predicate ReorderedFrom(o: Order, o': Order, n: nat) {
    Permuted(o, o') && forall p | |p| < n :: o'(p) == o(p)
  }

  lemma LongerPath(path: string, k: string)
    requires k != ""
    ensures |ChildPath(path, k)| > |path|
  {
  }

  lemma MovedReorders(o: Order, o1: Order, n: nat, path: string, i: nat)
    requires ReorderedFrom(o, o1, n) && |path| < n && i < |o(path)|
    ensures o1(path) == o(path) && ReorderedFrom(o, MovedLast(o1, path, i), |path|)
  {
    MovedPermuted(o1, path, i);
    PermutedTwice(o, o1, MovedLast(o1, path, i));
  }

  /** From an order that visits v last below a key, one that visits it last altogether. */
  lemma MovedVisitsLast(s: Schema, path: string, o: Order, i: nat, v: Visit)
    requires s.kind == "object" && i < |o(path)| && o(path)[i] in s.properties && o(path)[i] != ""
    requires LastIs(Traverse(s.properties[o(path)[i]], ChildPath(path, o(path)[i]), o), v)
    ensures LastIs(Traverse(s, path, MovedLast(o, path, i)), v)
  {
    var k, o' := o(path)[i], MovedLast(o, path, i);
    LongerPath(path, k);
    MovedPermuted(o, path, i);
    SameTraverse(s.properties[k], ChildPath(path, k), o, o');
    LastKeyLast(s, path, Without(o(path), i), k, o', v);
  }

  /** Some order visits a given field last. */
  lemma {:induction false} VisitLast(s: Schema, path: string, o: Order, v: Visit) returns (o': Order)
    requires Lists(s, path, o) && Named(s) && v in Traverse(s, path, o) && Scalar(v.node.kind)
    ensures ReorderedFrom(o, o', |path|) && LastIs(Traverse(s, path, o'), v)
    decreases s
  {
    if s.kind == "object" {
      var i := VisitOfKey(s, path, o(path), o, v);
      var k := o(path)[i];
      var o1 := VisitLast(s.properties[k], ChildPath(path, k), o, v);
      LongerPath(path, k);
      MovedReorders(o, o1, |ChildPath(path, k)|, path, i);
      MovedVisitsLast(s, path, o1, i, v);
      o' := MovedLast(o1, path, i);
    } else if s.kind == "array" && s.items.Some? {
      o' := VisitLast(s.items.value, path + "[]", o, v);
    } else {
      o' := o;
    }
  }

  // ---- The result -----------------------------------------------------------------------------

  /** The node visited last decides what its name gets. */
  lemma LastWrites(visits: seq<Visit>, data: Fields)
    requires visits != [] && Writes(visits[|visits| - 1]) && Extract(visits, data).Some?
    ensures var v := visits[|visits| - 1];
      var pairs := Extract(visits, data).value;
      v.node.writeTo.value in pairs && ValueAt(data, v.path) == Some(pairs[v.node.writeTo.value])
  {
  }

  lemma SomeOrderWrites(s: Schema, data: Fields, o: Order, v: Visit) returns (o': Order)
    requires Lists(s, "", o) && Named(s) && v in Traverse(s, "", o) && Writes(v)
    requires Extract(Traverse(s, "", o), data).Some?
    ensures Lists(s, "", o')
    ensures var r := Extract(Traverse(s, "", o'), data);
      r.Some? && v.node.writeTo.value in r.value && ValueAt(data, v.path) == Some(r.value[v.node.writeTo.value])
  {
    o' := VisitLast(s, "", o, v);
    ListsPermuted(s, "", o, o');
    ExtractionOrderFree(s, data, o, o');
    LastWrites(Traverse(s, "", o'), data);
  }

  /** Every order gives the same pairs. */
  ghost predicate OrderFree(s: Schema, data: Fields, r: Option<Fields>) {
    forall o | Lists(s, "", o) :: Extract(Traverse(s, "", o), data) == r
  }

  /** The pairs do not depend on the order exactly when no two nodes write different values to one name. */
  lemma ExtractionOrderExact(s: Schema, data: Fields, o: Order)
    requires Lists(s, "", o) && Named(s)
    ensures var visits := Traverse(s, "", o);
      var r := Extract(visits, data);
      OrderFree(s, data, r) <==> r.None? || Unambiguous(visits, data)
  {
    var visits := Traverse(s, "", o);
    var r := Extract(visits, data);
    if r.None? || Unambiguous(visits, data) {
      forall o' | Lists(s, "", o') ensures Extract(Traverse(s, "", o'), data) == r {
        ExtractionOrderFree(s, data, o, o');
      }
    } else {
      var v, w :| v in visits && w in visits && Writes(v) && Writes(w) && v.node.writeTo == w.node.writeTo
                  && ValueAt(data, v.path) != ValueAt(data, w.path);
      var a := SomeOrderWrites(s, data, o, v);
      var b := SomeOrderWrites(s, data, o, w);
      assert Extract(Traverse(s, "", a), data) != Extract(Traverse(s, "", b), data);
    }
  }
}
