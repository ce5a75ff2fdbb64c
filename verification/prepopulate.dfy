/** Prepopulation of a form from the global context. */
module Prepopulate {
  import opened Wrappers
  import opened Json
  import opened JsonPath
  import opened Schemas
  import opened Text

  // ---- Prepopulation --------------------------------------------------------------------------

  /** The value a visited node asks for; lookup is the read of the global store, None where it gives nil. */
  function Wanted(node: Schema, lookup: string -> Option<Json>): Option<Json> {
    if node.readFrom.None? || Blank(node.readFrom.value) then None
    else lookup(node.readFrom.value)
  }

  function Populate(data: Fields, visits: seq<Visit>, lookup: string -> Option<Json>): Fields
    decreases |visits|
  {
    if visits == [] then data
    else
      var v := Wanted(visits[0].node, lookup);
      var data' := if v.Some? then SetValueByPath(data, visits[0].path, v.value) else data;
      Populate(data', visits[1..], lookup)
  }

  /** Existing form data takes priority over what the global context supplies. */
  function PrepopulateFormData(s: Schema, existing: Fields, order: Order, lookup: string -> Option<Json>): Fields {
    Merge(Populate(map[], Traverse(s, "", order), lookup), existing)
  }

  // ---- Schemas whose fields are independent ---------------------------------------------------

  /** Names are not empty and use no path syntax; only nodes without children read the context. */
  ghost predicate Independent(s: Schema)
    decreases s
  {
    && (s.kind == "object" ==>
          && (s.properties != map[] ==> s.readFrom.None?)
          && (forall k | k in s.properties :: k != "" && '.' !in k && '[' !in k && Independent(s.properties[k])))
    && (s.kind == "array" && s.items.Some? ==> s.readFrom.None? && Independent(s.items.value))
  }

  // ---- Paths of a subtree ---------------------------------------------------------------------

  lemma {:induction false} SplitDot(path: string, name: string)
    requires '.' !in name
    ensures Split(path + "." + name) == Split(path) + [name]
  {
    var whole := path + "." + name;
    if path == "" {
      assert whole[1..] == name;
      SplitOnPlain(name, '.');
    } else {
      assert whole[1..] == path[1..] + "." + name;
      SplitDot(path[1..], name);
    }
  }

  lemma {:induction false} SplitBrackets(path: string)
    ensures var segs := Split(path);
      Split(path + "[]") == segs[..|segs| - 1] + [segs[|segs| - 1] + "[]"]
  {
    if path == "" {
      assert path + "[]" == "[]";
      SplitOnPlain("[]", '.');
    } else {
      assert (path + "[]")[1..] == path[1..] + "[]";
      SplitBrackets(path[1..]);
      var rest := Split(path[1..]);
      if path[0] != '.' && |rest| == 1 {
        assert [path[0]] + (rest[0] + "[]") == ([path[0]] + rest[0]) + "[]";
      }
    }
  }

  /** The path goes through the child of that name: name, or name followed by brackets. */
  ghost predicate Through(path: string, base: seq<string>, name: string) {
    var segs := Split(path);
    && |base| < |segs| && segs[..|base|] == base
    && var seg := segs[|base|];
      |name| <= |seg| && seg[..|name|] == name && (|seg| == |name| || seg[|name|] == '[')
  }

  lemma ThroughChild(path: string, base: seq<string>, name: string, key: string)
    requires Through(path, base, name) && path != "" && '.' !in key
    ensures Through(ChildPath(path, key), base, name)
    ensures Through(ChildPath(path, key), Split(path), key)
  {
    SplitDot(path, key);
  }

  lemma ThroughItems(path: string, base: seq<string>, name: string)
    requires Through(path, base, name)
    ensures Through(path + "[]", base, name)
  {
    SplitBrackets(path);
    var segs := Split(path);
    var segs' := Split(path + "[]");
    assert forall i | 0 <= i < |segs| - 1 :: segs'[i] == segs[i];
    assert segs'[..|base|] == segs[..|base|];
  }

  /** Everything visited below a child goes through it. */
  lemma {:induction false} TraverseThrough(s: Schema, path: string, order: Order, base: seq<string>, name: string)
    requires Independent(s) && Through(path, base, name) && path != ""
    ensures forall v | v in Traverse(s, path, order) :: Through(v.path, base, name)
    decreases s, 1, 0
  {
    if s.kind == "object" {
      KeysThrough(s, path, order(path), order, base, name);
    }
    if s.kind == "array" && s.items.Some? {
      ThroughItems(path, base, name);
      TraverseThrough(s.items.value, path + "[]", order, base, name);
    }
  }

  lemma {:induction false} KeysThrough(
      s: Schema, path: string, keys: seq<string>, order: Order, base: seq<string>, name: string)
    requires Independent(s) && s.kind == "object" && Through(path, base, name) && path != ""
    ensures forall v | v in TraverseKeys(s, path, keys, order) :: Through(v.path, base, name)
    decreases s, 0, |keys|
  {
    if keys != [] {
      if keys[0] in s.properties {
        ThroughChild(path, base, name, keys[0]);
        TraverseThrough(s.properties[keys[0]], ChildPath(path, keys[0]), order, base, name);
      }
      KeysThrough(s, path, keys[1..], order, base, name);
    }
  }

  lemma ThroughDifferent(p: string, q: string, base: seq<string>, k: string, l: string)
    requires Through(p, base, k) && Through(q, base, l) && k != l && '[' !in k && '[' !in l
    ensures Unrelated(Split(p), Split(q))
  {
    assert Split(p)[|base|] != Split(q)[|base|];
  }

  // ---- No two reading nodes have related paths ------------------------------------------------

  ghost predicate Reads(v: Visit) {
    v.node.readFrom.Some? && v.path != ""
  }

  ghost predicate Compatible(v: Visit, w: Visit) {
    Reads(v) && Reads(w) ==> Unrelated(Split(v.path), Split(w.path))
  }

  ghost predicate ClashFree(vs: seq<Visit>) {
    forall i, j | 0 <= i < j < |vs| :: Compatible(vs[i], vs[j])
  }

  lemma ClashFreeAppend(a: seq<Visit>, b: seq<Visit>)
    requires ClashFree(a) && ClashFree(b) && forall v, w | v in a && w in b :: Compatible(v, w)
    ensures ClashFree(a + b)
  {
  }

  function Base(path: string): seq<string> {
    if path == "" then [] else Split(path)
  }

  lemma ChildThrough(path: string, key: string)
    requires '.' !in key
    ensures Through(ChildPath(path, key), Base(path), key)
  {
    if path == "" {
      SplitOnPlain(key, '.');
    } else {
      SplitDot(path, key);
    }
  }

  lemma {:induction false} KeysThroughSome(s: Schema, path: string, keys: seq<string>, order: Order)
    requires Independent(s) && s.kind == "object"
    ensures forall v | v in TraverseKeys(s, path, keys, order) ::
      exists k | k in keys :: k in s.properties && Through(v.path, Base(path), k)
    decreases |keys|
  {
    if keys != [] {
      KeysThroughSome(s, path, keys[1..], order);
      var k := keys[0];
      if k in s.properties {
        ChildThrough(path, k);
        TraverseThrough(s.properties[k], ChildPath(path, k), order, Base(path), k);
      }
      forall v | v in TraverseKeys(s, path, keys, order)
        ensures exists k | k in keys :: k in s.properties && Through(v.path, Base(path), k)
      {
        if v in TraverseKeys(s, path, keys[1..], order) {
          var l :| l in keys[1..] && l in s.properties && Through(v.path, Base(path), l);
          assert l in keys;
        } else {
          assert k in keys;
        }
      }
    }
  }

  lemma {:induction false} TraverseClashFree(s: Schema, path: string, order: Order)
    requires Independent(s) && Lists(s, path, order)
    ensures ClashFree(Traverse(s, path, order))
    decreases s, 1, 0
  {
    var self := [Visit(path, s)];
    if s.kind == "object" {
      KeysClashFree(s, path, order(path), order);
      if s.properties == map[] {
        NoKeys(s, path, order(path), order);
      }
      ClashFreeAppend(self, TraverseKeys(s, path, order(path), order));
      assert Traverse(s, path, order) == self + TraverseKeys(s, path, order(path), order);
    } else if s.kind == "array" && s.items.Some? {
      TraverseClashFree(s.items.value, path + "[]", order);
      ClashFreeAppend(self, Traverse(s.items.value, path + "[]", order));
      assert Traverse(s, path, order) == self + Traverse(s.items.value, path + "[]", order);
    }
  }

  lemma {:induction false} NoKeys(s: Schema, path: string, keys: seq<string>, order: Order)
    requires s.properties == map[]
    ensures TraverseKeys(s, path, keys, order) == []
    decreases |keys|
  {
    if keys != [] {
      NoKeys(s, path, keys[1..], order);
    }
  }

  lemma {:induction false} KeysClashFree(s: Schema, path: string, keys: seq<string>, order: Order)
    requires Independent(s) && s.kind == "object"
    requires forall k | k in s.properties :: Lists(s.properties[k], ChildPath(path, k), order)
    requires forall i, j | 0 <= i < j < |keys| :: keys[i] != keys[j]
    ensures ClashFree(TraverseKeys(s, path, keys, order))
    decreases s, 0, |keys|
  {
    if keys != [] {
      var k, rest := keys[0], TraverseKeys(s, path, keys[1..], order);
      KeysClashFree(s, path, keys[1..], order);
      if k in s.properties {
        var first := Traverse(s.properties[k], ChildPath(path, k), order);
        TraverseClashFree(s.properties[k], ChildPath(path, k), order);
        ChildThrough(path, k);
        TraverseThrough(s.properties[k], ChildPath(path, k), order, Base(path), k);
        KeysThroughSome(s, path, keys[1..], order);
        forall v, w | v in first && w in rest ensures Compatible(v, w) {
          var l :| l in keys[1..] && l in s.properties && Through(w.path, Base(path), l);
          ThroughDifferent(v.path, w.path, Base(path), k, l);
        }
        ClashFreeAppend(first, rest);
      } else {
        assert [] + rest == rest;
      }
    }
  }

  // ---- The order of independent writes does not matter ----------------------------------------

  function Write(data: Fields, v: Visit, lookup: string -> Option<Json>): Fields {
    var x := Wanted(v.node, lookup);
    if x.Some? then SetValueByPath(data, v.path, x.value) else data
  }

  lemma WritesCommute(data: Fields, v: Visit, w: Visit, lookup: string -> Option<Json>)
    requires Compatible(v, w)
    ensures Write(Write(data, v, lookup), w, lookup) == Write(Write(data, w, lookup), v, lookup)
  {
    var x, y := Wanted(v.node, lookup), Wanted(w.node, lookup);
    if x.Some? && y.Some? && v.path != "" && w.path != "" {
      SetsCommute(data, Split(v.path), x.value, Split(w.path), y.value);
    }
  }

  /** A write that is compatible with those before it can come first. */
  lemma {:induction false} WriteFirst(
      data: Fields, before: seq<Visit>, v: Visit, after: seq<Visit>, lookup: string -> Option<Json>)
    requires forall w | w in before :: Compatible(v, w)
    ensures Populate(data, before + [v] + after, lookup) == Populate(Write(data, v, lookup), before + after, lookup)
    decreases |before|
  {
    if before == [] {
      assert before + [v] + after == [v] + after && before + after == after;
      assert ([v] + after)[1..] == after;
    } else {
      var w, rest := before[0], before[1..];
      assert (before + [v] + after)[1..] == rest + [v] + after;
      assert (before + after)[1..] == rest + after;
      WriteFirst(Write(data, w, lookup), rest, v, after, lookup);
      WritesCommute(data, v, w, lookup);
    }
  }

  lemma PulledOut(before: seq<Visit>, v: Visit, after: seq<Visit>)
    requires ClashFree(before + [v] + after)
    ensures multiset(before + [v] + after) == multiset{v} + multiset(before + after)
    ensures ClashFree(before + after)
    ensures forall w | w in before :: Compatible(v, w)
  {
    var b, i := before + [v] + after, |before|;
    forall w | w in before ensures Compatible(v, w) {
      var j :| 0 <= j < i && before[j] == w;
      assert b[j] == w && b[i] == v && Compatible(b[j], b[i]);
      if Reads(v) && Reads(w) {
        UnrelatedTails(Split(w.path), Split(v.path));
      }
    }
    var rest := before + after;
    forall m, n | 0 <= m < n < |rest| ensures Compatible(rest[m], rest[n]) {
      assert rest[m] == b[if m < i then m else m + 1] && rest[n] == b[if n < i then n else n + 1];
    }
  }

  lemma SplitAt(b: seq<Visit>, v: Visit) returns (before: seq<Visit>, after: seq<Visit>)
    requires v in multiset(b)
    ensures b == before + [v] + after
  {
    var i :| 0 <= i < |b| && b[i] == v;
    before, after := b[..i], b[i + 1..];
  }

  lemma {:induction false} PopulatePermuted(data: Fields, a: seq<Visit>, b: seq<Visit>, lookup: string -> Option<Json>)
    requires multiset(a) == multiset(b) && ClashFree(a) && ClashFree(b)
    ensures Populate(data, a, lookup) == Populate(data, b, lookup)
    decreases |a|
  {
    if a == [] {
      assert |multiset(b)| == 0;
    } else {
      var v, rest := a[0], a[1..];
      assert v in multiset(a);
      var before, after := SplitAt(b, v);
      assert a == [] + [v] + rest;
      PopulateStep(data, v, rest, before, after, lookup);
      PopulatePermuted(Write(data, v, lookup), rest, before + after, lookup);
    }
  }

  lemma PopulateStep(
      data: Fields, v: Visit, rest: seq<Visit>, before: seq<Visit>, after: seq<Visit>, lookup: string -> Option<Json>)
    requires ClashFree([] + [v] + rest) && ClashFree(before + [v] + after)
    requires multiset([] + [v] + rest) == multiset(before + [v] + after)
    ensures ClashFree(rest) && ClashFree(before + after) && multiset(rest) == multiset(before + after)
    ensures Populate(data, before + [v] + after, lookup) == Populate(Write(data, v, lookup), before + after, lookup)
  {
    assert [] + rest == rest;
    PulledOut([], v, rest);
    PulledOut(before, v, after);
    SameRest(v, multiset(rest), multiset(before + after));
    WriteFirst(data, before, v, after, lookup);
  }

  lemma SameRest(v: Visit, a: multiset<Visit>, b: multiset<Visit>)
    requires multiset{v} + a == multiset{v} + b
    ensures a == b
  {
    assert a == (multiset{v} + a) - multiset{v};
    assert b == (multiset{v} + b) - multiset{v};
  }

  /** Prepopulation does not depend on the order in which Go iterates over the properties. */
  lemma PrepopulationOrderFree(
      s: Schema, existing: Fields, o: Order, o': Order, lookup: string -> Option<Json>)
    requires Independent(s) && Lists(s, "", o) && Lists(s, "", o')
    ensures PrepopulateFormData(s, existing, o, lookup) == PrepopulateFormData(s, existing, o', lookup)
  {
    TraverseClashFree(s, "", o);
    TraverseClashFree(s, "", o');
    SameVisits(s, "", o, o');
    PopulatePermuted(map[], Traverse(s, "", o), Traverse(s, "", o'), lookup);
  }
}
