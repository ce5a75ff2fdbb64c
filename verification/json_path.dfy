/** Reading and writing JSON objects by dotted path. */
module JsonPath {
  import opened Wrappers
  import opened Json
  import opened Text

  type Fields = map<string, Json>

  // ---- Paths ----------------------------------------------------------------------------------

  function Split(path: string): (segs: seq<string>)
    ensures segs != []
  {
    SplitOn(path, '.')
  }

  predicate NameChar(c: char) {
    'a' <= c <= 'z' || 'A' <= c <= 'Z' || '0' <= c <= '9' || c == '_' || c == '-'
  }

  predicate Digit(c: char) {
    '0' <= c <= '9'
  }

  /** A name and an index in brackets, as in items[0]. */
  predicate Indexed(s: string) {
    var i := IndexOf(s, '[');
    && 0 < i && i + 2 < |s| && s[|s| - 1] == ']'
    && (forall c | c in s[..i] :: NameChar(c))
    && (forall c | c in s[i + 1..|s| - 1] :: Digit(c))
  }

  function DigitValue(c: char): nat
    requires Digit(c)
  {
    c as int - '0' as int
  }

  function Decimal(s: string): nat
    requires forall c | c in s :: Digit(c)
  {
    if s == "" then 0
    else
      assert s[|s| - 1] in s;
      Decimal(s[..|s| - 1]) * 10 + DigitValue(s[|s| - 1])
  }

  // ---- Reading --------------------------------------------------------------------------------

  function Child(j: Json, segment: string): Option<Json> {
    if !j.Obj? then None
    else if Indexed(segment) then
      var i := IndexOf(segment, '[');
      var field, index := segment[..i], Decimal(segment[i + 1..|segment| - 1]);
      if field in j.fields && j.fields[field].Arr? && index < |j.fields[field].items|
      then Some(j.fields[field].items[index])
      else None
    else if segment in j.fields then Some(j.fields[segment])
    else None
  }

  function Get(j: Json, segs: seq<string>): Option<Json> {
    if segs == [] then Some(j)
    else
      match Child(j, segs[0])
      case None => None
      case Some(c) => Get(c, segs[1..])
  }

  method GetValueByPath(data: Fields, path: string) returns (r: Option<Json>)
    ensures r == Get(Obj(data), if path == "" then [] else Split(path))
  {
    if path == "" {
      return Some(Obj(data));
    }
    var segments := Split(path);
    var current := Obj(data);
    for i := 0 to |segments|
      invariant Get(Obj(data), segments) == Get(current, segments[i..])
    {
      assert segments[i..][0] == segments[i] && segments[i..][1..] == segments[i + 1..];
      var next := Child(current, segments[i]);
      if next.None? {
        return None;
      }
      current := next.value;
    }
    assert segments[|segments|..] == [];
    return Some(current);
  }

  /** A longer path is read from what the shorter one holds. */
  lemma {:induction false} GetAppend(j: Json, p: seq<string>, q: seq<string>)
    ensures Get(j, p + q) == match Get(j, p) case None => None case Some(x) => Get(x, q)
    decreases |p|
  {
    if p == [] {
      assert p + q == q;
    } else {
      assert (p + q)[0] == p[0] && (p + q)[1..] == p[1..] + q;
      if Child(j, p[0]).Some? {
        GetAppend(Child(j, p[0]).value, p[1..], q);
      }
    }
  }

  // ---- Segments with an index -----------------------------------------------------------------

  function DigitOf(n: nat): char
    requires n < 10
  {
    ('0' as int + n) as char
  }

  /** The decimal digits of a number. */
  function Digits(n: nat): (s: string)
    ensures s != "" && forall c | c in s :: Digit(c)
  {
    if n < 10 then [DigitOf(n)] else Digits(n / 10) + [DigitOf(n % 10)]
  }

  lemma {:induction false} DecimalOfDigits(n: nat)
    ensures Decimal(Digits(n)) == n
  {
    var s := Digits(n);
    if n < 10 {
      assert s[..0] == "";
    } else {
      DecimalOfDigits(n / 10);
      assert s[..|s| - 1] == Digits(n / 10);
    }
  }

  /** Leading zeros do not count. */
  lemma {:induction false} DecimalLeadingZero(s: string)
    requires forall c | c in s :: Digit(c)
    ensures Decimal("0" + s) == Decimal(s)
  {
    if s == "" {
      assert "0"[..0] == "";
      assert "0" + s == "0";
    } else {
      DecimalLeadingZero(s[..|s| - 1]);
      assert ("0" + s)[..|"0" + s| - 1] == "0" + s[..|s| - 1];
    }
  }

  /** A name and digits in brackets is a segment with an index. */
  lemma IndexedSegment(name: string, digits: string)
    requires name != "" && (forall c | c in name :: NameChar(c)) && digits != "" && forall c | c in digits :: Digit(c)
    ensures var segment := name + "[" + digits + "]";
      && Indexed(segment) && IndexOf(segment, '[') == |name|
      && segment[..|name|] == name && segment[|name| + 1..|segment| - 1] == digits
  {
    var segment := name + "[" + digits + "]";
    forall k | 0 <= k < |name| ensures segment[k] != '[' {
      assert segment[k] == name[k] && name[k] in name;
    }
    FirstIs(segment, '[', |name|);
    assert segment[..|name|] == name && segment[|name| + 1..|segment| - 1] == digits;
  }

  const LOWER := "abcdefghijklmnopqrstuvwxyz"
  const UPPER := "ABCDEFGHIJKLMNOPQRSTUVWXYZ"
  const DIGITS := "0123456789"

  lemma LowerListed(c: char)
    ensures 'a' <= c <= 'z' <==> c in LOWER
  {
  }

  lemma UpperListed(c: char)
    ensures 'A' <= c <= 'Z' <==> c in UPPER
  {
  }

  lemma DigitListed(c: char)
    ensures Digit(c) <==> c in DIGITS
  {
  }

  ghost predicate InName(c: char) {
    c in LOWER || c in UPPER || c in DIGITS || c == '_' || c == '-'
  }

  lemma NameChars(c: char)
    ensures NameChar(c) <==> InName(c)
  {
    LowerListed(c);
    UpperListed(c);
    DigitListed(c);
  }

  ghost predicate IsName(name: string) {
    name != "" && forall c | c in name :: InName(c)
  }

  ghost predicate IsNumber(digits: string) {
    digits != "" && forall c | c in digits :: c in DIGITS
  }

  /** A name with digits in brackets. */
  ghost predicate IsElement(segment: string) {
    exists name, digits :: segment == name + "[" + digits + "]" && IsName(name) && IsNumber(digits)
  }

  lemma IndexedExact(segment: string)
    ensures Indexed(segment) <==> IsElement(segment)
  {
    forall c: char
      ensures NameChar(c) <==> InName(c)
      ensures Digit(c) <==> c in DIGITS
    {
      NameChars(c);
      DigitListed(c);
    }
    if Indexed(segment) {
      var i := IndexOf(segment, '[');
      var name, digits := segment[..i], segment[i + 1..|segment| - 1];
      assert segment == name + "[" + digits + "]" && IsName(name) && IsNumber(digits);
    }
    if name, digits :| segment == name + "[" + digits + "]" && IsName(name) && IsNumber(digits) {
      IndexedSegment(name, digits);
    }
  }

  /** It reads that element of the array of that name, and nothing if there is none. */
  lemma ElementExact(fields: Fields, name: string, n: nat)
    requires IsName(name)
    ensures Child(Obj(fields), name + "[" + Digits(n) + "]")
         == if name in fields && fields[name].Arr? && n < |fields[name].items|
            then Some(fields[name].items[n])
            else None
  {
    forall c | c in name ensures NameChar(c) {
      NameChars(c);
    }
    IndexedSegment(name, Digits(n));
    DecimalOfDigits(n);
  }

  /** Any other segment is a key. */
  lemma KeyExact(fields: Fields, segment: string)
    requires !IsElement(segment)
    ensures Child(Obj(fields), segment) == if segment in fields then Some(fields[segment]) else None
  {
    IndexedExact(segment);
  }

  /** Nothing is read below a value that is not an object. */
  lemma NoChild(j: Json, segment: string)
    requires !j.Obj?
    ensures Child(j, segment).None?
  {
  }

  // ---- Writing --------------------------------------------------------------------------------

  /** Creates missing objects on the way; stops without effect at a value that is not an object. */
  function Set(data: Fields, segs: seq<string>, v: Json): Fields
    requires segs != []
    decreases |segs|
  {
    if |segs| == 1 then data[segs[0] := v]
    else
      var child := if segs[0] in data then data[segs[0]] else Obj(map[]);
      if child.Obj? then data[segs[0] := Obj(Set(child.fields, segs[1..], v))] else data
  }

  function SetValueByPath(data: Fields, path: string, v: Json): Fields {
    if path == "" then data else Set(data, Split(path), v)
  }

  /** Every existing ancestor on the path is an object. */
  predicate Settable(data: Fields, segs: seq<string>)
    requires segs != []
    decreases |segs|
  {
    |segs| == 1 || segs[0] !in data || (data[segs[0]].Obj? && Settable(data[segs[0]].fields, segs[1..]))
  }

  predicate NoIndex(segs: seq<string>) {
    forall s | s in segs :: !Indexed(s)
  }

  /** Neither path is a prefix of the other. */
  predicate Unrelated(p: seq<string>, q: seq<string>) {
    exists i | 0 <= i < |p| && i < |q| :: p[i] != q[i]
  }

  /** The first position at which they differ is either 0 or lies in the tails. */
  lemma UnrelatedTails(p: seq<string>, q: seq<string>)
    requires Unrelated(p, q)
    ensures p != [] && q != [] && (p[0] != q[0] || Unrelated(p[1..], q[1..]))
    ensures Unrelated(q, p)
  {
    var i :| 0 <= i < |p| && i < |q| && p[i] != q[i];
    assert q[i] != p[i];
    if p[0] == q[0] {
      assert p[1..][i - 1] != q[1..][i - 1];
    }
  }

  /** Set then get: the value if the path can be written, and nothing otherwise. */
  lemma {:induction false} SetThenGet(data: Fields, p: seq<string>, v: Json)
    requires p != [] && NoIndex(p)
    ensures Get(Obj(Set(data, p, v)), p) == if Settable(data, p) then Some(v) else None
    ensures !Settable(data, p) ==> Set(data, p, v) == data
    decreases |p|
  {
    assert p[0] in p;
    if |p| > 1 {
      var child := if p[0] in data then data[p[0]] else Obj(map[]);
      if child.Obj? {
        assert NoIndex(p[1..]);
        SetThenGet(child.fields, p[1..], v);
      }
    }
  }

  /** A write leaves every unrelated path as it was. */
  lemma {:induction false} SetKeepsUnrelated(data: Fields, p: seq<string>, q: seq<string>, v: Json)
    requires NoIndex(q) && Unrelated(p, q)
    ensures Get(Obj(Set(data, p, v)), q) == Get(Obj(data), q)
    decreases |p|
  {
    UnrelatedTails(p, q);
    assert q[0] in q;
    if |p| > 1 && p[0] == q[0] {
      var child := if p[0] in data then data[p[0]] else Obj(map[]);
      if child.Obj? {
        assert NoIndex(q[1..]);
        SetKeepsUnrelated(child.fields, p[1..], q[1..], v);
        if p[0] !in data {
          assert q[1..] != [];
          assert q[1..][0] in q;
        }
      }
    }
  }

  /** A write changes one top-level key, to a value that depends on that key alone. */
  function SetChild(old_: Option<Json>, p: seq<string>, v: Json): Option<Json>
    requires p != []
  {
    if |p| == 1 then Some(v)
    else
      var child := if old_.Some? then old_.value else Obj(map[]);
      if child.Obj? then Some(Obj(Set(child.fields, p[1..], v))) else old_
  }

  function At(data: Fields, k: string): Option<Json> {
    if k in data then Some(data[k]) else None
  }

  lemma SetIsSetChild(data: Fields, p: seq<string>, v: Json)
    requires p != []
    ensures var c := SetChild(At(data, p[0]), p, v);
      c.Some? && Set(data, p, v) == data[p[0] := c.value]
  {
  }

  /** Writes under different keys commute. */
  lemma SetsApart(data: Fields, p: seq<string>, v: Json, q: seq<string>, w: Json)
    requires p != [] && q != [] && p[0] != q[0]
    ensures Set(Set(data, p, v), q, w) == Set(Set(data, q, w), p, v)
  {
    SetIsSetChild(data, p, v);
    SetIsSetChild(data, q, w);
    SetIsSetChild(Set(data, p, v), q, w);
    SetIsSetChild(Set(data, q, w), p, v);
  }

  /** Writes under the same key commute if they commute below it. */
  lemma SetsBelow(data: Fields, p: seq<string>, v: Json, q: seq<string>, w: Json)
    requires p != [] && q != [] && p[0] == q[0]
    requires SetChild(SetChild(At(data, p[0]), p, v), q, w) == SetChild(SetChild(At(data, p[0]), q, w), p, v)
    ensures Set(Set(data, p, v), q, w) == Set(Set(data, q, w), p, v)
  {
    SetIsSetChild(data, p, v);
    SetIsSetChild(data, q, w);
    SetIsSetChild(Set(data, p, v), q, w);
    SetIsSetChild(Set(data, q, w), p, v);
  }

  /** Two writes at unrelated paths commute. */
  lemma {:induction false} SetsCommute(data: Fields, p: seq<string>, v: Json, q: seq<string>, w: Json)
    requires Unrelated(p, q)
    ensures p != [] && q != []
    ensures Set(Set(data, p, v), q, w) == Set(Set(data, q, w), p, v)
    decreases |p|
  {
    UnrelatedTails(p, q);
    if p[0] == q[0] {
      var child := if p[0] in data then data[p[0]] else Obj(map[]);
      if child.Obj? {
        SetsCommute(child.fields, p[1..], v, q[1..], w);
      }
      SetsBelow(data, p, v, q, w);
    } else {
      SetsApart(data, p, v, q, w);
    }
  }

  // ---- Merging --------------------------------------------------------------------------------

  /** Existing values win, except that two objects are merged key by key. */
  function Merge(prepopulated: Fields, existing: Fields): Fields
    decreases Obj(existing)
  {
    map k | k in prepopulated.Keys + existing.Keys ::
      if k !in existing then prepopulated[k]
      else if existing[k].Obj? && k in prepopulated && prepopulated[k].Obj?
      then Obj(Merge(prepopulated[k].fields, existing[k].fields))
      else existing[k]
  }

  /** Something that is not an object stands on a proper prefix of the path. */
  predicate Blocked(j: Json, segs: seq<string>) {
    segs != [] && (!j.Obj? || (segs[0] in j.fields && Blocked(j.fields[segs[0]], segs[1..])))
  }

  /** What a merged object holds at a path. */
  lemma {:induction false} MergeGet(p: Fields, e: Fields, q: seq<string>)
    requires NoIndex(q)
    ensures Get(Obj(Merge(p, e)), q) ==
      match (Get(Obj(p), q), Get(Obj(e), q))
      case (Some(Obj(pf)), Some(Obj(ef))) => Some(Obj(Merge(pf, ef)))
      case (_, Some(x)) => Some(x)
      case (x, None) => if Blocked(Obj(e), q) then None else x
    decreases |q|
  {
    if q != [] {
      var k := q[0];
      assert k in q;
      assert NoIndex(q[1..]);
      if k in e && e[k].Obj? && k in p && p[k].Obj? {
        MergeGet(p[k].fields, e[k].fields, q[1..]);
      }
    }
  }
}
