/** What a traversal visits: every node of the schema, once, at the path its way writes. */
module SchemaVisits {
  import opened Wrappers
  import opened Schemas

  /** A turn on the way from a node to one below it. */
  datatype Turn = Property(name: string) | Element

  type Way = seq<Turn>

  function NodeAt(s: Schema, way: Way): Option<Schema>
    decreases |way|
  {
    if way == [] then Some(s)
    else
      match way[0]
      case Property(k) =>
        if s.kind == "object" && k in s.properties then NodeAt(s.properties[k], way[1..]) else None
      case Element =>
        if s.kind == "array" && s.items.Some? then NodeAt(s.items.value, way[1..]) else None
  }

  /** Names are joined by dots, elements marked by brackets. */
  function Written(path: string, way: Way): string
    decreases |way|
  {
    if way == [] then path
    else
      match way[0]
      case Property(k) => Written(if path != "" then path + "." + k else k, way[1..])
      case Element => Written(path + "[]", way[1..])
  }

  /** The i-th visit is that of the node at the end of the i-th way. */
  ghost predicate Shows(s: Schema, path: string, visits: seq<Visit>, ways: seq<Way>) {
    && |visits| == |ways|
    && forall i | 0 <= i < |ways| ::
         NodeAt(s, ways[i]) == Some(visits[i].node) && visits[i].path == Written(path, ways[i])
  }

  ghost predicate NoneTwice(ways: seq<Way>) {
    forall i, j | 0 <= i < j < |ways| :: ways[i] != ways[j]
  }

  ghost predicate All(s: Schema, ways: seq<Way>) {
    forall w :: NodeAt(s, w).Some? ==> w in ways
  }

  ghost function Behind(turn: Turn, ways: seq<Way>): (r: seq<Way>)
    ensures |r| == |ways| && forall i | 0 <= i < |r| :: r[i] == [turn] + ways[i]
  {
    seq(|ways|, i requires 0 <= i < |ways| => [turn] + ways[i])
  }

  lemma BehindExact(turn: Turn, ways: seq<Way>)
    ensures forall w :: w in Behind(turn, ways) <==> w != [] && w[0] == turn && w[1..] in ways
    ensures NoneTwice(ways) ==> NoneTwice(Behind(turn, ways))
  {
    var r := Behind(turn, ways);
    forall i | 0 <= i < |r| ensures r[i][0] == turn && r[i][1..] == ways[i] {
    }
    forall w | w != [] && w[0] == turn && w[1..] in ways ensures w in r {
      var i :| 0 <= i < |ways| && ways[i] == w[1..];
      assert r[i] == w;
    }
  }

  lemma PropertyShows(s: Schema, path: string, k: string, visits: seq<Visit>, ways: seq<Way>)
    requires s.kind == "object" && k in s.properties
    requires Shows(s.properties[k], ChildPath(path, k), visits, ways)
    ensures Shows(s, path, visits, Behind(Property(k), ways))
  {
    var r := Behind(Property(k), ways);
    forall i | 0 <= i < |r|
      ensures NodeAt(s, r[i]) == Some(visits[i].node) && visits[i].path == Written(path, r[i])
    {
      assert r[i][0] == Property(k) && r[i][1..] == ways[i];
    }
  }

  lemma ElementShows(s: Schema, path: string, visits: seq<Visit>, ways: seq<Way>)
    requires s.kind == "array" && s.items.Some? && Shows(s.items.value, path + "[]", visits, ways)
    ensures Shows(s, path, visits, Behind(Element, ways))
  {
    var r := Behind(Element, ways);
    forall i | 0 <= i < |r|
      ensures NodeAt(s, r[i]) == Some(visits[i].node) && visits[i].path == Written(path, r[i])
    {
      assert r[i][0] == Element && r[i][1..] == ways[i];
    }
  }

  /** The way starts with one of these properties. */
  ghost predicate Starts(w: Way, keys: seq<string>) {
    w != [] && w[0].Property? && w[0].name in keys
  }

  ghost predicate StartIn(ways: seq<Way>, keys: seq<string>) {
    forall w | w in ways :: Starts(w, keys)
  }

  ghost predicate AllIn(s: Schema, ways: seq<Way>, keys: seq<string>) {
    forall w: Way | NodeAt(s, w).Some? && Starts(w, keys) :: w in ways
  }

  lemma NoneTwiceAppend(a: seq<Way>, b: seq<Way>)
    requires NoneTwice(a) && NoneTwice(b) && forall w | w in a :: w !in b
    ensures NoneTwice(a + b)
  {
    forall i, j | 0 <= i < j < |a + b| ensures (a + b)[i] != (a + b)[j] {
      if i < |a| <= j {
        assert a[i] in a && b[j - |a|] in b;
      }
    }
  }

  lemma ShowsAppend(s: Schema, path: string, a: seq<Visit>, b: seq<Visit>, wa: seq<Way>, wb: seq<Way>)
    requires Shows(s, path, a, wa) && Shows(s, path, b, wb)
    ensures Shows(s, path, a + b, wa + wb)
  {
    forall i | 0 <= i < |wa + wb|
      ensures NodeAt(s, (wa + wb)[i]) == Some((a + b)[i].node) && (a + b)[i].path == Written(path, (wa + wb)[i])
    {
      assert (wa + wb)[i] == if i < |wa| then wa[i] else wb[i - |wa|];
    }
  }

  /** The ways through one property, then those through the others. */
  lemma WaysAppend(s: Schema, keys: seq<string>, below: seq<Way>, others: seq<Way>)
    requires keys != [] && keys[0] !in keys[1..] && s.kind == "object" && keys[0] in s.properties
    requires NoneTwice(below) && All(s.properties[keys[0]], below)
    requires NoneTwice(others) && StartIn(others, keys[1..]) && AllIn(s, others, keys[1..])
    ensures var ways := Behind(Property(keys[0]), below) + others;
      NoneTwice(ways) && StartIn(ways, keys) && AllIn(s, ways, keys)
  {
    var here := Behind(Property(keys[0]), below);
    BehindExact(Property(keys[0]), below);
    forall w | w in here ensures w !in others && Starts(w, keys) {
      assert w in others ==> Starts(w, keys[1..]);
    }
    NoneTwiceAppend(here, others);
    forall w | w in here + others ensures Starts(w, keys) {
      assert w in others ==> Starts(w, keys[1..]);
    }
    forall w: Way | NodeAt(s, w).Some? && Starts(w, keys) ensures w in here + others {
      if w[0].name == keys[0] {
        assert NodeAt(s.properties[keys[0]], w[1..]).Some?;
        assert w in here;
      } else {
        assert Starts(w, keys[1..]) && w in others;
      }
    }
  }

  lemma DistinctRest(keys: seq<string>)
    requires Distinct(keys) && keys != []
    ensures Distinct(keys[1..]) && keys[0] !in keys[1..]
  {
  }

  lemma {:induction false} KeysVisited(s: Schema, path: string, keys: seq<string>, order: Order)
    returns (ways: seq<Way>)
    requires s.kind == "object" && ListsAll(s, path, order) && Distinct(keys)
    ensures Shows(s, path, TraverseKeys(s, path, keys, order), ways)
    ensures NoneTwice(ways) && StartIn(ways, keys) && AllIn(s, ways, keys)
    decreases s, 0, |keys|
  {
    if keys == [] {
      ways := [];
    } else {
      var k, rest := keys[0], keys[1..];
      DistinctRest(keys);
      var others := KeysVisited(s, path, rest, order);
      if k in s.properties {
        var child, visits := s.properties[k], Traverse(s.properties[k], ChildPath(path, k), order);
        var below := Visits(child, ChildPath(path, k), order);
        PropertyShows(s, path, k, visits, below);
        ShowsAppend(s, path, visits, TraverseKeys(s, path, rest, order), Behind(Property(k), below), others);
        WaysAppend(s, keys, below, others);
        ways := Behind(Property(k), below) + others;
      } else {
        MissingKey(s, keys, others);
        ways := others;
      }
    }
  }

  lemma MissingKey(s: Schema, keys: seq<string>, others: seq<Way>)
    requires keys != [] && keys[0] !in s.properties
    requires StartIn(others, keys[1..]) && AllIn(s, others, keys[1..])
    ensures StartIn(others, keys) && AllIn(s, others, keys)
  {
    forall w: Way | NodeAt(s, w).Some? && Starts(w, keys) ensures Starts(w, keys[1..]) {
    }
    forall w | w in others ensures Starts(w, keys) {
      assert Starts(w, keys[1..]);
    }
  }

  /** The way to the node itself, and those that go on from there. */
  lemma RootVisited(s: Schema, path: string, visits: seq<Visit>, below: seq<Way>)
    requires Shows(s, path, visits, below) && NoneTwice(below) && [] !in below
    ensures Shows(s, path, [Visit(path, s)] + visits, [[]] + below) && NoneTwice([[]] + below)
  {
    assert Shows(s, path, [Visit(path, s)], [[]]);
    ShowsAppend(s, path, [Visit(path, s)], visits, [[]], below);
    NoneTwiceAppend([[]], below);
  }

  lemma RootAll(s: Schema, order: seq<string>, below: seq<Way>)
    requires s.kind == "object" ==>
      (forall k | k in s.properties :: k in order) && AllIn(s, below, order)
    requires s.kind == "array" && s.items.Some? ==>
      forall w: Way | w != [] && w[0].Element? && NodeAt(s.items.value, w[1..]).Some? :: w in below
    ensures All(s, [[]] + below)
  {
    forall w: Way | NodeAt(s, w).Some? ensures w in [[]] + below {
      if w == [] {
        assert ([[]] + below)[0] == w;
      } else {
        assert w[0].Property? ==> Starts(w, order);
        assert w in below;
      }
    }
  }

  /** Every way into the schema is taken exactly once, and its node is visited at the path it writes. */
  lemma {:induction false} Visits(s: Schema, path: string, order: Order) returns (ways: seq<Way>)
    requires Lists(s, path, order)
    ensures Shows(s, path, Traverse(s, path, order), ways) && NoneTwice(ways) && All(s, ways)
    decreases s, 1, 0
  {
    if s.kind == "object" {
      var below := KeysVisited(s, path, order(path), order);
      RootVisited(s, path, TraverseKeys(s, path, order(path), order), below);
      RootAll(s, order(path), below);
      ways := [[]] + below;
    } else if s.kind == "array" && s.items.Some? {
      ways := ElementsVisited(s, path, order);
    } else {
      ways := [[]] + [];
      RootVisited(s, path, [], []);
      RootAll(s, [], []);
    }
  }

  lemma {:induction false} ElementsVisited(s: Schema, path: string, order: Order) returns (ways: seq<Way>)
    requires Lists(s, path, order) && s.kind == "array" && s.items.Some?
    ensures Shows(s, path, Traverse(s, path, order), ways) && NoneTwice(ways) && All(s, ways)
    decreases s, 0, 0
  {
    var visits := Traverse(s.items.value, path + "[]", order);
    var deeper := Visits(s.items.value, path + "[]", order);
    var below := Behind(Element, deeper);
    ElementShows(s, path, visits, deeper);
    BehindExact(Element, deeper);
    RootVisited(s, path, visits, below);
    RootAll(s, [], below);
    ways := [[]] + below;
  }
}
