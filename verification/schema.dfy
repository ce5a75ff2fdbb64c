/** Form schemas and their traversal. */
module Schemas {
  import opened Wrappers

  datatype Schema = Schema(
    kind: string,
    properties: map<string, Schema>,
    items: Option<Schema>,
    readFrom: Option<string>,
    writeTo: Option<string>)

  /** Go iterates over a map in any order; order gives the one used at each path. */
  type Order = string -> seq<string>

  datatype Visit = Visit(path: string, node: Schema)

  function ChildPath(path: string, key: string): string {
    if path == "" then key else path + "." + key
  }

  // ---- Traversal ------------------------------------------------------------------------------

  function Traverse(s: Schema, path: string, order: Order): seq<Visit>
    decreases s, 1, 0
  {
    [Visit(path, s)]
    + (if s.kind == "object" then TraverseKeys(s, path, order(path), order) else [])
    + (if s.kind == "array" && s.items.Some? then Traverse(s.items.value, path + "[]", order) else [])
  }

  function TraverseKeys(s: Schema, path: string, keys: seq<string>, order: Order): seq<Visit>
    decreases s, 0, |keys|
  {
    if keys == [] then []
    else
      (if keys[0] in s.properties then Traverse(s.properties[keys[0]], ChildPath(path, keys[0]), order) else [])
      + TraverseKeys(s, path, keys[1..], order)
  }

  /** The order lists the keys of every object it is asked about. */
  ghost predicate Lists(s: Schema, path: string, order: Order)
    decreases s
  {
    && (s.kind == "object" ==>
          && (forall k :: k in order(path) <==> k in s.properties)
          && (forall i, j | 0 <= i < j < |order(path)| :: order(path)[i] != order(path)[j])
          && (forall k | k in s.properties :: Lists(s.properties[k], ChildPath(path, k), order)))
    && (s.kind == "array" && s.items.Some? ==> Lists(s.items.value, path + "[]", order))
  }

  // ---- Every order visits the same nodes ------------------------------------------------------

  lemma {:induction false} TraverseKeysAppend(s: Schema, path: string, a: seq<string>, b: seq<string>, order: Order)
    ensures TraverseKeys(s, path, a + b, order) == TraverseKeys(s, path, a, order) + TraverseKeys(s, path, b, order)
    decreases |a|
  {
    if a == [] {
      assert a + b == b;
    } else {
      assert (a + b)[1..] == a[1..] + b;
      TraverseKeysAppend(s, path, a[1..], b, order);
    }
  }

  lemma {:induction false} SameVisits(s: Schema, path: string, o: Order, o': Order)
    requires Lists(s, path, o) && Lists(s, path, o')
    ensures multiset(Traverse(s, path, o)) == multiset(Traverse(s, path, o'))
    decreases s, 1, 0
  {
    if s.kind == "object" {
      SameKeyVisits(s, path, o(path), o'(path), o, o');
    } else if s.kind == "array" && s.items.Some? {
      SameVisits(s.items.value, path + "[]", o, o');
    }
  }

  ghost predicate Distinct(keys: seq<string>) {
    forall i, j | 0 <= i < j < |keys| :: keys[i] != keys[j]
  }

  ghost predicate SameKeys(keys: seq<string>, keys': seq<string>) {
    forall k :: k in keys <==> k in keys'
  }

  function Without(keys: seq<string>, i: nat): seq<string>
    requires i < |keys|
  {
    keys[..i] + keys[i + 1..]
  }

  lemma OtherKeyStays(keys: seq<string>, i: nat, k: string)
    requires i < |keys| && k in keys && k != keys[i]
    ensures k in Without(keys, i)
  {
    var m :| 0 <= m < |keys| && keys[m] == k;
    assert Without(keys, i)[if m < i then m else m - 1] == k;
  }

  lemma WithoutKey(keys: seq<string>, i: nat)
    requires i < |keys| && Distinct(keys)
    ensures Distinct(Without(keys, i))
    ensures forall k :: k in Without(keys, i) <==> k in keys && k != keys[i]
  {
    var rest := Without(keys, i);
    forall k | k in rest ensures k in keys && k != keys[i] {
      var m :| 0 <= m < |rest| && rest[m] == k;
      assert keys[if m < i then m else m + 1] == k;
    }
    forall k | k in keys && k != keys[i] ensures k in rest {
      OtherKeyStays(keys, i, k);
    }
  }

  lemma WithoutSame(keys: seq<string>, keys': seq<string>, i: nat)
    requires Distinct(keys) && Distinct(keys') && SameKeys(keys, keys')
    requires keys != [] && i < |keys'| && keys'[i] == keys[0]
    ensures Distinct(keys[1..]) && Distinct(Without(keys', i)) && SameKeys(keys[1..], Without(keys', i))
  {
    assert Without(keys, 0) == keys[1..];
    WithoutKey(keys, 0);
    WithoutKey(keys', i);
  }

  ghost predicate ListsAll(s: Schema, path: string, o: Order) {
    forall k | k in s.properties :: Lists(s.properties[k], ChildPath(path, k), o)
  }

  lemma {:induction false} SameKeyVisits(
      s: Schema, path: string, keys: seq<string>, keys': seq<string>, o: Order, o': Order)
    requires s.kind == "object" && ListsAll(s, path, o) && ListsAll(s, path, o')
    requires Distinct(keys) && Distinct(keys') && SameKeys(keys, keys')
    ensures multiset(TraverseKeys(s, path, keys, o)) == multiset(TraverseKeys(s, path, keys', o'))
    decreases s, 0, |keys|
  {
    if keys == [] {
      if keys' != [] {
        NotIn(keys', keys);
        assert false;
      }
    } else {
      assert keys[0] in keys && keys[0] in keys';
      var i :| 0 <= i < |keys'| && keys'[i] == keys[0];
      WithoutSame(keys, keys', i);
      SameKeyVisits(s, path, keys[1..], Without(keys', i), o, o');
      SameKey(s, path, keys[0], o, o');
      assert Without(keys, 0) == keys[1..];
      KeyPulledOut(s, path, keys, 0, o);
      KeyPulledOut(s, path, keys', i, o');
    }
  }

  lemma KeyPulledOut(s: Schema, path: string, keys: seq<string>, i: nat, order: Order)
    requires i < |keys|
    ensures multiset(TraverseKeys(s, path, keys, order)) ==
            multiset(TraverseKeys(s, path, [keys[i]], order))
            + multiset(TraverseKeys(s, path, Without(keys, i), order))
  {
    var before, after := keys[..i], keys[i + 1..];
    assert keys == before + ([keys[i]] + after);
    TraverseKeysAppend(s, path, before, [keys[i]] + after, order);
    TraverseKeysAppend(s, path, [keys[i]], after, order);
    TraverseKeysAppend(s, path, before, after, order);
  }

  lemma NotIn(keys: seq<string>, none: seq<string>)
    requires keys != [] && none == []
    ensures !forall k :: k in none <==> k in keys
  {
    assert keys[0] in keys;
  }

  lemma SameKey(s: Schema, path: string, k: string, o: Order, o': Order)
    requires k in s.properties ==>
      Lists(s.properties[k], ChildPath(path, k), o) && Lists(s.properties[k], ChildPath(path, k), o')
    ensures multiset(TraverseKeys(s, path, [k], o)) == multiset(TraverseKeys(s, path, [k], o'))
    decreases s, 0, 0
  {
    assert [k][1..] == [];
    assert TraverseKeys(s, path, [], o) == TraverseKeys(s, path, [], o') == [];
    if k in s.properties {
      SameVisits(s.properties[k], ChildPath(path, k), o, o');
    }
  }
}
