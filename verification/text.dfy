/** Characters and strings. */
module Text {

  /** White space in the sense of Unicode, which is what Go's strings.TrimSpace removes. */
  predicate IsSpace(c: char) {
    || '\t' <= c <= '\r' || c == ' ' || c == '\U{85}' || c == '\U{A0}' || c == '\U{1680}'
    || '\U{2000}' <= c <= '\U{200A}' || c == '\U{2028}' || c == '\U{2029}' || c == '\U{202F}'
    || c == '\U{205F}' || c == '\U{3000}'
  }

  const SPACES := [
    9, 10, 11, 12, 13, 32, 0x85, 0xA0, 0x1680,
    0x2000, 0x2001, 0x2002, 0x2003, 0x2004, 0x2005, 0x2006, 0x2007, 0x2008, 0x2009, 0x200A,
    0x2028, 0x2029, 0x202F, 0x205F, 0x3000]

  lemma SpacesListed(c: char)
    ensures IsSpace(c) <==> c as int in SPACES
  {
  }

  /** Nothing is left after trimming. */
  predicate Blank(s: string) {
    forall c | c in s :: IsSpace(c)
  }

  function UpperChar(c: char): char {
    if 'a' <= c <= 'z' then c - 'a' + 'A' else c
  }

  /** ASCII upper case: no character outside ASCII has its upper case among the letters of a status word. */
  function Upper(s: string): string {
    seq(|s|, i requires 0 <= i < |s| => UpperChar(s[i]))
  }

  /** The pieces between the separators; there is always at least one. */
  function SplitOn(s: string, sep: char): (parts: seq<string>)
    ensures parts != []
  {
    if s == "" then [""]
    else
      var rest := SplitOn(s[1..], sep);
      if s[0] == sep then [""] + rest else [[s[0]] + rest[0]] + rest[1..]
  }

  lemma {:induction false} SplitOnPlain(s: string, sep: char)
    requires sep !in s
    ensures SplitOn(s, sep) == [s]
  {
    if s != "" {
      assert s[0] in s && s == [s[0]] + s[1..];
      SplitOnPlain(s[1..], sep);
    }
  }

  /** The first piece ends at the first separator. */
  lemma {:induction false} SplitOnFirst(a: string, b: string, sep: char)
    requires sep !in a
    ensures SplitOn(a + [sep] + b, sep) == [a] + SplitOn(b, sep)
  {
    if a == "" {
      assert a + [sep] + b == [sep] + b && ([sep] + b)[1..] == b;
    } else {
      assert a[0] in a && (a + [sep] + b)[0] == a[0];
      assert (a + [sep] + b)[1..] == a[1..] + [sep] + b;
      SplitOnFirst(a[1..], b, sep);
      assert [a[0]] + a[1..] == a;
    }
  }

  /** The pieces consist of characters of the whole. */
  lemma {:induction false} SplitOnChars(s: string, sep: char, i: nat, c: char)
    requires i < |SplitOn(s, sep)| && c in SplitOn(s, sep)[i]
    ensures c in s
  {
    if s != "" {
      var rest := SplitOn(s[1..], sep);
      if s[0] == sep {
        if i > 0 {
          SplitOnChars(s[1..], sep, i - 1, c);
        }
      } else if i > 0 || c in rest[0] {
        SplitOnChars(s[1..], sep, i, c);
      }
    }
  }

  /** The position of the first c from k on, or the length. */
  function IndexFrom(s: string, c: char, k: nat): (i: nat)
    requires k <= |s|
    ensures k <= i <= |s| && (forall j | k <= j < i :: s[j] != c) && (i < |s| ==> s[i] == c)
    decreases |s| - k
  {
    if k == |s| || s[k] == c then k else IndexFrom(s, c, k + 1)
  }

  /** The position of the first c, or the length. */
  function IndexOf(s: string, c: char): (i: nat)
    ensures i <= |s| && (forall j | 0 <= j < i :: s[j] != c) && (i < |s| ==> s[i] == c)
  {
    IndexFrom(s, c, 0)
  }

  lemma FirstIs(s: string, c: char, i: nat)
    requires i < |s| && s[i] == c && forall k | 0 <= k < i :: s[k] != c
    ensures IndexOf(s, c) == i
  {
    assert !(IndexOf(s, c) < i);
  }

  /** The first c of the middle part is the first one of the whole. */
  lemma FirstInside(s: string, prefix: string, t: string, rest: string, c: char)
    requires s == prefix + t + rest && c !in prefix && IndexOf(t, c) < |t|
    ensures IndexOf(s, c) == |prefix| + IndexOf(t, c)
  {
    var i := IndexOf(t, c);
    forall k | 0 <= k < |prefix| + i ensures s[k] != c {
      if k < |prefix| {
        assert prefix[k] in prefix && s[k] == prefix[k];
      } else {
        assert s[k] == t[k - |prefix|];
      }
    }
    FirstIs(s, c, |prefix| + i);
  }

  predicate OccursAt(s: string, sub: string, k: nat) {
    k + |sub| <= |s| && s[k..k + |sub|] == sub
  }

  /** The first occurrence of sub from k on, or the length. */
  function FindFrom(s: string, sub: string, k: nat): (i: nat)
    requires k <= |s|
    ensures k <= i <= |s| && (i < |s| ==> OccursAt(s, sub, i))
    ensures forall j | k <= j < i :: !OccursAt(s, sub, j)
    decreases |s| - k
  {
    if k == |s| || OccursAt(s, sub, k) then k else FindFrom(s, sub, k + 1)
  }

  /** The first occurrence is replaced, if there is one. */
  function ReplaceFirst(s: string, sub: string, replacement: string): string
    requires sub != ""
  {
    var i := FindFrom(s, sub, 0);
    if i == |s| then s else s[..i] + replacement + s[i + |sub|..]
  }
}
