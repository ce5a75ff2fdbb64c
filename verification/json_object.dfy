/** JSON objects that are updated in place, as the form data is while it is prepopulated. */
module JsonObject {
  import opened Json
  import opened JsonPath

  /** A value held in an object: another object, or anything else. */
  datatype Value = Atom(j: Json) | Nested(o: Object)

  class Object {
    var entries: map<string, Value>
    ghost var Repr: set<Object>

    constructor ()
      ensures Valid() && fresh(Repr) && entries == map[]
    {
      entries := map[];
      Repr := {this};
    }

    /** The object is a tree: nested objects are reached in one way only. */
    ghost predicate Valid()
      reads this, Repr
      decreases Repr
    {
      && this in Repr
      && (forall k | k in entries :: ChildValid(k))
      && (forall k, l | k in entries && l in entries && k != l && entries[k].Nested? && entries[l].Nested? ::
            entries[k].o.Repr !! entries[l].o.Repr)
    }

    ghost predicate ChildValid(k: string)
      requires k in entries && this in Repr
      reads this, Repr
      decreases Repr, 0
    {
      match entries[k]
      case Atom(j) => !j.Obj?
      case Nested(o) => o in Repr && o.Repr <= Repr && this !in o.Repr && o.Valid()
    }

    ghost function Contents(): Fields
      requires Valid()
      reads this, Repr
      decreases Repr
    {
      map k | k in entries :: Child(k)
    }

    ghost function Child(k: string): Json
      requires Valid() && k in entries
      reads this, Repr
      decreases Repr, 0
    {
      assert ChildValid(k);
      match entries[k]
      case Atom(j) => j
      case Nested(o) => Obj(o.Contents())
    }

    /** Replaces or adds an entry by one that nothing else refers to. */
    method Assign(key: string, v: Value)
      requires Valid() && Owned(v) && ReprOf(v) !! Repr
      modifies this
      ensures Valid() && Repr == old(Repr) + ReprOf(v) && entries == old(entries)[key := v]
      ensures Contents() == old(Contents())[key := Meaning(v)]
    {
      entries := entries[key := v];
      Repr := Repr + ReprOf(v);
      forall k | k in entries ensures ChildValid(k) {
      }
    }
  }

  ghost function ReprOf(v: Value): set<Object>
    reads if v.Nested? then {v.o} else {}
  {
    if v.Nested? then v.o.Repr else {}
  }

  /** A value that can be put into an object without sharing. */
  ghost predicate Owned(v: Value)
    reads if v.Nested? then {v.o} + v.o.Repr else {}
  {
    match v
    case Atom(j) => !j.Obj?
    case Nested(o) => o.Valid()
  }

  ghost function Meaning(v: Value): Json
    requires Owned(v)
    reads if v.Nested? then {v.o} + v.o.Repr else {}
  {
    match v
    case Atom(j) => j
    case Nested(o) => Obj(o.Contents())
  }

  /** An empty object is put where nothing is yet. */
  method EnsureEntry(data: Object, key: string)
    requires data.Valid()
    modifies data
    ensures data.Valid() && fresh(data.Repr - old(data.Repr)) && old(data.Repr) <= data.Repr && key in data.entries
    ensures data.Contents() == if key in old(data.Contents()) then old(data.Contents())
                               else old(data.Contents())[key := Obj(map[])]
  {
    if key !in data.entries {
      var nested := new Object();
      data.Assign(key, Nested(nested));
    }
  }

  /** Writing below a nested object changes that entry only. */
  method SetBelow(data: Object, key: string, segments: seq<string>, v: Value)
    requires data.Valid() && Owned(v) && ReprOf(v) !! data.Repr && segments != []
    requires key in data.entries && data.entries[key].Nested?
    modifies data.Repr
    ensures data.Valid() && fresh(data.Repr - old(data.Repr) - ReprOf(v))
    ensures data.Contents()
         == old(data.Contents())[key := Obj(Set(old(data.Child(key)).fields, segments, old(Meaning(v))))]
    decreases |segments|, 1
  {
    var child := data.entries[key].o;
    assert data.ChildValid(key);
    forall k | k in data.entries && k != key && data.entries[k].Nested?
      ensures data.entries[k].o.Valid() && data.entries[k].o.Repr !! child.Repr && data !in data.entries[k].o.Repr
    {
      assert data.ChildValid(k);
    }
    label before:
    SetPath(child, segments, v);
    forall k | k in data.entries && k != key && data.entries[k].Nested?
      ensures var o := data.entries[k].o;
        o.Valid() && o.Repr == old@before(o.Repr) && o.Contents() == old@before(o.Contents())
    {
    }
    data.Repr := data.Repr + child.Repr;
    assert data.ChildValid(key);
  }

  /** Creates missing objects on the way down; stops at a value that is not an object. */
  method SetPath(data: Object, segments: seq<string>, v: Value)
    requires data.Valid() && Owned(v) && ReprOf(v) !! data.Repr && segments != []
    modifies data.Repr
    ensures data.Valid() && fresh(data.Repr - old(data.Repr) - ReprOf(v))
    ensures data.Contents() == Set(old(data.Contents()), segments, old(Meaning(v)))
    decreases |segments|, 0
  {
    if |segments| == 1 {
      data.Assign(segments[0], v);
      return;
    }
    EnsureEntry(data, segments[0]);
    assert data.ChildValid(segments[0]) && data.Contents()[segments[0]] == data.Child(segments[0]);
    if data.entries[segments[0]].Nested? {
      SetBelow(data, segments[0], segments[1..], v);
    }
  }

  method SetValueByPath(data: Object, path: string, v: Value)
    requires data.Valid() && Owned(v) && ReprOf(v) !! data.Repr
    modifies data.Repr
    ensures data.Valid() && fresh(data.Repr - old(data.Repr) - ReprOf(v))
    ensures data.Contents() == JsonPath.SetValueByPath(old(data.Contents()), path, old(Meaning(v)))
  {
    if path != "" {
      SetPath(data, Split(path), v);
    }
  }
}
