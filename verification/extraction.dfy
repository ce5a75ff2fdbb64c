/** The values a submitted form writes to the global context. */
module Extraction {
  import opened Wrappers
  import opened Json
  import opened JsonPath
  import opened Schemas
  import opened Text

  // ---- What the code computes -----------------------------------------------------------------

  predicate Scalar(kind: string) {
    kind == "string" || kind == "number" || kind == "boolean"
  }

  /** The visited node asks for its value to be written. */
  predicate Writes(v: Visit) {
    Scalar(v.node.kind) && v.node.writeTo.Some? && !Blank(v.node.writeTo.value)
  }

  function ValueAt(data: Fields, path: string): Option<Json> {
    Get(Obj(data), if path == "" then [] else Split(path))
  }

  /** The pairs written by the visited nodes; none if a value is missing. */
  function Extract(visits: seq<Visit>, data: Fields): Option<Fields> {
    if visits == [] then Some(map[])
    else
      var before, v := Extract(visits[..|visits| - 1], data), visits[|visits| - 1];
      if before.None? || !Writes(v) then before
      else
        match ValueAt(data, v.path)
        case None => None
        case Some(x) => Some(before.value[v.node.writeTo.value := x])
  }

  method ExtractGlobals(visits: seq<Visit>, data: Fields) returns (r: Option<Fields>)
    ensures r == Extract(visits, data)
  {
    var pairs: Fields := map[];
    for i := 0 to |visits|
      invariant Extract(visits[..i], data) == Some(pairs)
    {
      var v := visits[i];
      assert visits[..i + 1][..i] == visits[..i];
      if Writes(v) {
        var value := GetValueByPath(data, v.path);
        if value.None? {
          StaysMissing(visits, data, i + 1);
          return None;
        }
        pairs := pairs[v.node.writeTo.value := value.value];
      }
    }
    assert visits[..|visits|] == visits;
    return Some(pairs);
  }

  lemma {:induction false} StaysMissing(visits: seq<Visit>, data: Fields, i: nat)
    requires i <= |visits| && Extract(visits[..i], data).None?
    ensures Extract(visits, data).None?
    decreases |visits|
  {
    if i < |visits| {
      var before := visits[..|visits| - 1];
      assert before[..i] == visits[..i];
      StaysMissing(before, data, i);
    } else {
      assert visits[..i] == visits;
    }
  }

  // ---- The order of the visits ----------------------------------------------------------------

  ghost predicate Found(visits: seq<Visit>, data: Fields) {
    forall v | v in visits && Writes(v) :: ValueAt(data, v.path).Some?
  }

  /** Nodes that write the same name write the same value. */
  ghost predicate Unambiguous(visits: seq<Visit>, data: Fields) {
    forall v, w | v in visits && w in visits && Writes(v) && Writes(w) && v.node.writeTo == w.node.writeTo ::
      ValueAt(data, v.path) == ValueAt(data, w.path)
  }

  /** A pair comes from a node that writes it. */
  ghost predicate WrittenBy(visits: seq<Visit>, data: Fields, k: string, x: Json) {
    exists v | v in visits :: Writes(v) && v.node.writeTo == Some(k) && ValueAt(data, v.path) == Some(x)
  }

  /** The pairs are those that some node writes, and every writing node has one. */
  ghost predicate PairsOf(visits: seq<Visit>, data: Fields, pairs: Fields) {
    && (forall v | v in visits && Writes(v) :: v.node.writeTo.value in pairs)
    && (forall k | k in pairs :: WrittenBy(visits, data, k, pairs[k]))
  }

  lemma WrittenLater(visits: seq<Visit>, last: Visit, data: Fields, k: string, x: Json)
    requires WrittenBy(visits, data, k, x)
    ensures WrittenBy(visits + [last], data, k, x)
  {
    var v :| v in visits && Writes(v) && v.node.writeTo == Some(k) && ValueAt(data, v.path) == Some(x);
    assert v in visits + [last];
  }

  lemma PairsNext(visits: seq<Visit>, last: Visit, data: Fields, pairs: Fields)
    requires PairsOf(visits, data, pairs)
    ensures !Writes(last) ==> PairsOf(visits + [last], data, pairs)
    ensures Writes(last) && ValueAt(data, last.path).Some? ==>
      PairsOf(visits + [last], data, pairs[last.node.writeTo.value := ValueAt(data, last.path).value])
  {
    forall k | k in pairs ensures WrittenBy(visits + [last], data, k, pairs[k]) {
      WrittenLater(visits, last, data, k, pairs[k]);
    }
    assert last in visits + [last];
  }

  lemma FoundNext(visits: seq<Visit>, last: Visit, data: Fields)
    ensures Found(visits + [last], data) <==>
      Found(visits, data) && (Writes(last) ==> ValueAt(data, last.path).Some?)
  {
    assert last in visits + [last];
    assert forall v | v in visits :: v in visits + [last];
  }

  lemma {:induction false} ExtractExact(visits: seq<Visit>, data: Fields)
    ensures Extract(visits, data).Some? <==> Found(visits, data)
    ensures Extract(visits, data).Some? ==> PairsOf(visits, data, Extract(visits, data).value)
  {
    if visits != [] {
      var before, last := visits[..|visits| - 1], visits[|visits| - 1];
      assert visits == before + [last];
      ExtractExact(before, data);
      FoundNext(before, last, data);
      if Extract(before, data).Some? {
        PairsNext(before, last, data, Extract(before, data).value);
      }
    }
  }

  lemma SamePair(a: seq<Visit>, b: seq<Visit>, data: Fields, p: Fields, q: Fields, k: string)
    requires (forall v | v in b :: v in a) && Unambiguous(a, data) && Found(a, data)
    requires PairsOf(a, data, p) && PairsOf(b, data, q) && k in q
    ensures k in p && p[k] == q[k]
  {
    assert WrittenBy(b, data, k, q[k]);
    var v :| v in b && Writes(v) && v.node.writeTo == Some(k) && ValueAt(data, v.path) == Some(q[k]);
    assert v in a && k in p && WrittenBy(a, data, k, p[k]);
  }

  ghost predicate SameNodes(a: seq<Visit>, b: seq<Visit>) {
    (forall v | v in a :: v in b) && (forall v | v in b :: v in a)
  }

  lemma SamePairs(a: seq<Visit>, b: seq<Visit>, data: Fields, p: Fields, q: Fields)
    requires SameNodes(a, b) && Unambiguous(a, data) && Found(a, data)
    requires PairsOf(a, data, p) && PairsOf(b, data, q)
    ensures p == q
  {
    forall k | k in q ensures k in p && p[k] == q[k] {
      SamePair(a, b, data, p, q, k);
    }
    forall k | k in p ensures k in q && p[k] == q[k] {
      SamePair(b, a, data, q, p, k);
    }
  }

  lemma SameExtract(a: seq<Visit>, b: seq<Visit>, data: Fields)
    requires SameNodes(a, b)
    ensures Extract(a, data).Some? <==> Extract(b, data).Some?
    ensures Unambiguous(a, data) ==> Extract(a, data) == Extract(b, data)
  {
    ExtractExact(a, data);
    ExtractExact(b, data);
    if Unambiguous(a, data) && Extract(a, data).Some? {
      SamePairs(a, b, data, Extract(a, data).value, Extract(b, data).value);
    }
  }

  lemma SameMembers(a: seq<Visit>, b: seq<Visit>)
    requires multiset(a) == multiset(b)
    ensures forall v | v in a :: v in b
  {
    forall v | v in a ensures v in b {
      assert v in multiset(a);
    }
  }

  /**
   * Whether a form passes does not depend on the order in which Go iterates over the properties, nor do
   * the pairs, unless two nodes write different values to one name.
   */
  lemma ExtractionOrderFree(s: Schema, data: Fields, o: Order, o': Order)
    requires Lists(s, "", o) && Lists(s, "", o')
    ensures var a, b := Extract(Traverse(s, "", o), data), Extract(Traverse(s, "", o'), data);
      && (a.Some? <==> b.Some?)
      && (Unambiguous(Traverse(s, "", o), data) ==> a == b)
  {
    SameVisits(s, "", o, o');
    SameMembers(Traverse(s, "", o), Traverse(s, "", o'));
    SameMembers(Traverse(s, "", o'), Traverse(s, "", o));
    SameExtract(Traverse(s, "", o), Traverse(s, "", o'), data);
  }

  // ---- Fields of a response -------------------------------------------------------------------

  /** The mapped fields that the response has; paths is the order in which Go iterates over the mapping. */
  function ParseResponse(mapping: map<string, string>, paths: seq<string>, response: Fields): Fields {
    if paths == [] then map[]
    else
      var before, path := ParseResponse(mapping, paths[..|paths| - 1], response), paths[|paths| - 1];
      if path !in mapping then before
      else
        match ValueAt(response, path)
        case None => before
        case Some(x) => before[mapping[path] := x]
  }

  method ParseResponseData(mapping: map<string, string>, paths: seq<string>, response: Fields) returns (r: Fields)
    ensures r == ParseResponse(mapping, paths, response) && FieldsOf(mapping, paths, response, r)
  {
    r := map[];
    for i := 0 to |paths|
      invariant r == ParseResponse(mapping, paths[..i], response)
    {
      assert paths[..i + 1][..i] == paths[..i];
      if paths[i] in mapping {
        var value := GetValueByPath(response, paths[i]);
        if value.Some? {
          r := r[mapping[paths[i]] := value.value];
        }
      }
    }
    assert paths[..|paths|] == paths;
    ParseResponseExact(mapping, paths, response);
  }

  /** A field comes from a mapped path that the response has. */
  ghost predicate MappedFrom(mapping: map<string, string>, paths: seq<string>, response: Fields, k: string, x: Json) {
    exists p | p in paths :: p in mapping && mapping[p] == k && ValueAt(response, p) == Some(x)
  }

  /** The fields are those found at the paths, and every path found has one. */
  ghost predicate FieldsOf(mapping: map<string, string>, paths: seq<string>, response: Fields, r: Fields) {
    && (forall p | p in paths && p in mapping && ValueAt(response, p).Some? :: mapping[p] in r)
    && (forall k | k in r :: MappedFrom(mapping, paths, response, k, r[k]))
  }

  lemma FieldsNext(mapping: map<string, string>, paths: seq<string>, path: string, response: Fields, r: Fields)
    requires FieldsOf(mapping, paths, response, r)
    ensures path !in mapping || ValueAt(response, path).None? ==> FieldsOf(mapping, paths + [path], response, r)
    ensures path in mapping && ValueAt(response, path).Some? ==>
      FieldsOf(mapping, paths + [path], response, r[mapping[path] := ValueAt(response, path).value])
  {
    assert path in paths + [path];
    forall k | k in r ensures MappedFrom(mapping, paths + [path], response, k, r[k]) {
      var p :| p in paths && p in mapping && mapping[p] == k && ValueAt(response, p) == Some(r[k]);
      assert p in paths + [path];
    }
  }

  /** What is collected: exactly the mapped fields that the response has. */
  lemma {:induction false} ParseResponseExact(mapping: map<string, string>, paths: seq<string>, response: Fields)
    ensures FieldsOf(mapping, paths, response, ParseResponse(mapping, paths, response))
  {
    if paths != [] {
      var before, path := paths[..|paths| - 1], paths[|paths| - 1];
      assert paths == before + [path];
      ParseResponseExact(mapping, before, response);
      FieldsNext(mapping, before, path, response, ParseResponse(mapping, before, response));
    }
  }

  /** An order of the keys of the mapping. */
  ghost predicate ListsKeys(mapping: map<string, string>, paths: seq<string>) {
    Distinct(paths) && forall p :: p in paths <==> p in mapping
  }

  /** Paths mapped to one name hold the same value. */
  ghost predicate MappedApart(mapping: map<string, string>, response: Fields) {
    forall p, q | p in mapping && q in mapping && mapping[p] == mapping[q]
      && ValueAt(response, p).Some? && ValueAt(response, q).Some? :: ValueAt(response, p) == ValueAt(response, q)
  }

  lemma SameFields(mapping: map<string, string>, a: seq<string>, b: seq<string>, response: Fields)
    requires MappedApart(mapping, response) && ListsKeys(mapping, a) && ListsKeys(mapping, b)
    ensures ParseResponse(mapping, a, response) == ParseResponse(mapping, b, response)
  {
    var r, t := ParseResponse(mapping, a, response), ParseResponse(mapping, b, response);
    ParseResponseExact(mapping, a, response);
    ParseResponseExact(mapping, b, response);
    forall k | k in r ensures k in t && t[k] == r[k] {
      FieldAgrees(mapping, a, b, response, r, t, k);
    }
    forall k | k in t ensures k in r && r[k] == t[k] {
      FieldAgrees(mapping, b, a, response, t, r, k);
    }
  }

  lemma FieldAgrees(
      mapping: map<string, string>, a: seq<string>, b: seq<string>, response: Fields, r: Fields, t: Fields, k: string)
    requires MappedApart(mapping, response) && ListsKeys(mapping, a) && ListsKeys(mapping, b)
    requires FieldsOf(mapping, a, response, r) && FieldsOf(mapping, b, response, t) && k in r
    ensures k in t && t[k] == r[k]
  {
    assert MappedFrom(mapping, a, response, k, r[k]);
    var p :| p in a && p in mapping && mapping[p] == k && ValueAt(response, p) == Some(r[k]);
    assert k in t && MappedFrom(mapping, b, response, k, t[k]);
  }

  lemma LastPathWins(mapping: map<string, string>, paths: seq<string>, response: Fields, p: string)
    returns (paths': seq<string>)
    requires ListsKeys(mapping, paths) && p in mapping && ValueAt(response, p).Some?
    ensures ListsKeys(mapping, paths')
    ensures var r := ParseResponse(mapping, paths', response);
      mapping[p] in r && Some(r[mapping[p]]) == ValueAt(response, p)
  {
    var i :| 0 <= i < |paths| && paths[i] == p;
    WithoutKey(paths, i);
    paths' := Without(paths, i) + [p];
    assert paths'[..|paths'| - 1] == Without(paths, i);
  }

  ghost predicate ParseOrderFree(mapping: map<string, string>, response: Fields, r: Fields) {
    forall paths | ListsKeys(mapping, paths) :: ParseResponse(mapping, paths, response) == r
  }

  /** The fields do not depend on the order of the mapping exactly when no name gets two different values. */
  lemma ParseOrderExact(mapping: map<string, string>, paths: seq<string>, response: Fields)
    requires ListsKeys(mapping, paths)
    ensures var r := ParseResponse(mapping, paths, response);
      ParseOrderFree(mapping, response, r) <==> MappedApart(mapping, response)
  {
    if MappedApart(mapping, response) {
      forall paths' | ListsKeys(mapping, paths')
        ensures ParseResponse(mapping, paths', response) == ParseResponse(mapping, paths, response)
      {
        SameFields(mapping, paths, paths', response);
      }
    } else {
      var p, q :| p in mapping && q in mapping && mapping[p] == mapping[q]
                  && ValueAt(response, p).Some? && ValueAt(response, q).Some?
                  && ValueAt(response, p) != ValueAt(response, q);
      var a := LastPathWins(mapping, paths, response, p);
      var b := LastPathWins(mapping, paths, response, q);
      assert ParseResponse(mapping, a, response) != ParseResponse(mapping, b, response);
    }
  }
}
