/** What a prepopulated form holds at each of its fields. */
module PrepopulateValues {
  import opened Wrappers
  import opened Json
  import opened JsonPath
  import opened Schemas
  import opened Text
  import opened Prepopulate

  // ---- Paths of an independent schema have no index -------------------------------------------

  /** Every bracket that is opened is closed at once. */
  ghost predicate Closed(segment: string) {
    forall i | 0 <= i < |segment| && segment[i] == '[' :: i + 1 < |segment| && segment[i + 1] == ']'
  }

  lemma ClosedHasNoIndex(segment: string)
    requires Closed(segment)
    ensures !Indexed(segment)
  {
    var i := IndexOf(segment, '[');
    if i + 2 < |segment| {
      var inside := segment[i + 1..|segment| - 1];
      assert inside[0] == ']' && inside[0] in inside && !Digit(inside[0]);
    }
  }

  ghost predicate AllClosed(path: string) {
    forall segment | segment in Split(path) :: Closed(segment)
  }

  lemma RootClosed()
    ensures AllClosed("")
  {
  }

  lemma ChildClosed(path: string, key: string)
    requires AllClosed(path) && '.' !in key && '[' !in key
    ensures AllClosed(ChildPath(path, key))
  {
    if path == "" {
      SplitOnPlain(key, '.');
    } else {
      SplitDot(path, key);
    }
  }

  lemma ItemsClosed(path: string)
    requires AllClosed(path)
    ensures AllClosed(path + "[]")
  {
    SplitBrackets(path);
    var segs := Split(path);
    assert segs[|segs| - 1] in segs;
    var last := segs[|segs| - 1] + "[]";
    forall i | 0 <= i < |last| && last[i] == '[' ensures i + 1 < |last| && last[i + 1] == ']' {
      if i < |last| - 2 {
        assert segs[|segs| - 1][i] == '[';
      }
    }
  }

  lemma {:induction false} TraverseClosed(s: Schema, path: string, order: Order)
    requires Independent(s) && AllClosed(path)
    ensures forall v | v in Traverse(s, path, order) :: AllClosed(v.path)
    decreases s, 1, 0
  {
    if s.kind == "object" {
      KeysClosed(s, path, order(path), order);
    }
    if s.kind == "array" && s.items.Some? {
      ItemsClosed(path);
      TraverseClosed(s.items.value, path + "[]", order);
    }
  }

  lemma {:induction false} KeysClosed(s: Schema, path: string, keys: seq<string>, order: Order)
    requires Independent(s) && s.kind == "object" && AllClosed(path)
    ensures forall v | v in TraverseKeys(s, path, keys, order) :: AllClosed(v.path)
    decreases s, 0, |keys|
  {
    if keys != [] {
      if keys[0] in s.properties {
        ChildClosed(path, keys[0]);
        TraverseClosed(s.properties[keys[0]], ChildPath(path, keys[0]), order);
      }
      KeysClosed(s, path, keys[1..], order);
    }
  }

  // ---- One field ------------------------------------------------------------------------------

  /** The field asks for this value of the global store: its name is not blank and the store has the value. */
  ghost predicate AsksFor(node: Schema, lookup: string -> Option<Json>, x: Json) {
    && node.readFrom.Some? && (exists c | c in node.readFrom.value :: !IsSpace(c))
    && lookup(node.readFrom.value) == Some(x)
  }

  lemma WantedExact(node: Schema, lookup: string -> Option<Json>, x: Json)
    ensures Wanted(node, lookup) == Some(x) <==> AsksFor(node, lookup, x)
  {
  }

  /** Writes at unrelated paths leave what a path holds. */
  lemma {:induction false} PopulateKeeps(
      data: Fields, vs: seq<Visit>, lookup: string -> Option<Json>, p: seq<string>)
    requires NoIndex(p) && forall v | v in vs && Reads(v) :: Unrelated(Split(v.path), p)
    ensures Get(Obj(Populate(data, vs, lookup)), p) == Get(Obj(data), p)
    decreases |vs|
  {
    if vs != [] {
      var v := vs[0];
      assert v in vs;
      if Wanted(v.node, lookup).Some? && v.path != "" {
        SetKeepsUnrelated(data, Split(v.path), p, Wanted(v.node, lookup).value);
      }
      PopulateKeeps(Write(data, v, lookup), vs[1..], lookup, p);
    }
  }

  lemma WrittenFirst(v: Visit, lookup: string -> Option<Json>, x: Json)
    requires v.path != "" && NoIndex(Split(v.path)) && Wanted(v.node, lookup) == Some(x)
    ensures Get(Obj(Write(map[], v, lookup)), Split(v.path)) == Some(x)
  {
    SetThenGet(map[], Split(v.path), x);
  }

  lemma OthersUnrelated(before: seq<Visit>, v: Visit, after: seq<Visit>)
    requires ClashFree(before + [v] + after) && Reads(v)
    ensures forall w | w in before + after && Reads(w) :: Unrelated(Split(w.path), Split(v.path))
  {
    var all := before + [v] + after;
    forall w | w in before + after && Reads(w) ensures Unrelated(Split(w.path), Split(v.path)) {
      var j :| 0 <= j < |before + after| && (before + after)[j] == w;
      var i, m := |before|, if j < |before| then j else j + 1;
      assert all[m] == w && all[i] == v;
      if m < i {
        assert Compatible(all[m], all[i]);
      } else {
        assert Compatible(all[i], all[m]);
        UnrelatedTails(Split(v.path), Split(w.path));
      }
    }
  }

  /** What the global store gives a field is what the populated form holds there. */
  lemma PopulatedValue(s: Schema, o: Order, v: Visit, lookup: string -> Option<Json>, x: Json)
    requires Independent(s) && Lists(s, "", o) && v in Traverse(s, "", o) && v.path != ""
    requires AsksFor(v.node, lookup, x)
    ensures NoIndex(Split(v.path))
    ensures Get(Obj(Populate(map[], Traverse(s, "", o), lookup)), Split(v.path)) == Some(x)
  {
    var all := Traverse(s, "", o);
    RootClosed();
    TraverseClosed(s, "", o);
    forall segment | segment in Split(v.path) ensures !Indexed(segment) {
      ClosedHasNoIndex(segment);
    }
    TraverseClashFree(s, "", o);
    assert v in multiset(all);
    var before, after := SplitAt(all, v);
    PulledOut(before, v, after);
    forall w | w in before ensures Compatible(v, w) {
    }
    WriteFirst(map[], before, v, after, lookup);
    WantedExact(v.node, lookup, x);
    WrittenFirst(v, lookup, x);
    OthersUnrelated(before, v, after);
    PopulateKeeps(Write(map[], v, lookup), before + after, lookup, Split(v.path));
  }

  // ---- The form -------------------------------------------------------------------------------

  /** What existing data and a value from the store come to at one path. */
  ghost predicate Holds(existing: Fields, p: seq<string>, x: Json, r: Option<Json>) {
    match Get(Obj(existing), p)
    case Some(y) => if x.Obj? && y.Obj? then r.Some? && r.value.Obj? else r == Some(y)
    case None => if Blocked(Obj(existing), p) then r.None? else r == Some(x)
  }

  /** A field that asks for a value holds it, unless the existing data hold another or leave no place for one. */
  lemma PrepopulatedValue(
      s: Schema, existing: Fields, o: Order, v: Visit, lookup: string -> Option<Json>, x: Json)
    requires Independent(s) && Lists(s, "", o) && v in Traverse(s, "", o) && v.path != ""
    requires AsksFor(v.node, lookup, x)
    ensures Holds(existing, Split(v.path), x,
                  Get(Obj(PrepopulateFormData(s, existing, o, lookup)), Split(v.path)))
  {
    PopulatedValue(s, o, v, lookup, x);
    MergeGet(Populate(map[], Traverse(s, "", o), lookup), existing, Split(v.path));
  }

  /** Existing data win: every value that is not an object is still there. */
  lemma ExistingWins(
      s: Schema, existing: Fields, o: Order, lookup: string -> Option<Json>, q: seq<string>, y: Json)
    requires NoIndex(q) && Get(Obj(existing), q) == Some(y) && !y.Obj?
    ensures Get(Obj(PrepopulateFormData(s, existing, o, lookup)), q) == Some(y)
  {
    MergeGet(Populate(map[], Traverse(s, "", o), lookup), existing, q);
  }

  /** And nothing else appears: at a path unrelated to every field that reads the store the form holds what it held. */
  lemma NothingElse(
      s: Schema, existing: Fields, o: Order, lookup: string -> Option<Json>, q: seq<string>)
    requires NoIndex(q) && q != [] && forall v | v in Traverse(s, "", o) && Reads(v) :: Unrelated(Split(v.path), q)
    ensures Get(Obj(PrepopulateFormData(s, existing, o, lookup)), q) == Get(Obj(existing), q)
  {
    var populated := Populate(map[], Traverse(s, "", o), lookup);
    PopulateKeeps(map[], Traverse(s, "", o), lookup, q);
    assert q[0] in q;
    assert Get(Obj(map[]), q).None?;
    MergeGet(populated, existing, q);
  }
}
