/**
 * The JavaScript string operations the adapters use: `trim`, `indexOf`, `split`, `join`.
 *
 * A string is a sequence of characters; the operations do not look at more than one of them
 * at a time, so it makes no difference that JavaScript counts UTF-16 code units.
 *
 * Beside them are the facts the adapters rest on: trimming a text that is trimmed leaves it
 * alone, trimming and splitting introduce no character that was not there, and splitting at a
 * character undoes joining with it when the parts lack it.
 */
module Strings {
  /** What `trim` removes: the white space and line terminators of ECMAScript. */
  predicate IsSpace(c: char) {
    || c == '\t' || c == '\n' || c == '\U{0B}' || c == '\U{0C}' || c == '\r' || c == ' ' || c == '\U{A0}'
    || c == '\U{1680}' || '\U{2000}' <= c <= '\U{200A}' || c == '\U{2028}' || c == '\U{2029}'
    || c == '\U{202F}' || c == '\U{205F}' || c == '\U{3000}' || c == '\U{FEFF}'
  }

  /** Twenty-five characters in all. */
  lemma SpacesAre(c: char)
    ensures IsSpace(c) <==> c in {
      '\t', '\n', '\U{0B}', '\U{0C}', '\r', ' ', '\U{A0}', '\U{1680}', '\U{2000}', '\U{2001}', '\U{2002}', '\U{2003}',
      '\U{2004}', '\U{2005}', '\U{2006}', '\U{2007}', '\U{2008}', '\U{2009}', '\U{200A}', '\U{2028}', '\U{2029}',
      '\U{202F}', '\U{205F}', '\U{3000}', '\U{FEFF}'}
  {
  }

  function TrimStart(s: string): string {
    if s != "" && IsSpace(s[0]) then TrimStart(s[1..]) else s
  }

  function TrimEnd(s: string): string {
    if s != "" && IsSpace(s[|s| - 1]) then TrimEnd(s[..|s| - 1]) else s
  }

  function Trim(s: string): string { TrimEnd(TrimStart(s)) }

  predicate Trimmed(s: string) { s == "" || (!IsSpace(s[0]) && !IsSpace(s[|s| - 1])) }

  predicate Lacks(s: string, c: char) { forall i | 0 <= i < |s| :: s[i] != c }

  /** The first place of a character, or the length when it is absent. */
  function IndexOf(s: string, c: char): (i: nat)
    ensures i <= |s| && Lacks(s[..i], c) && (i < |s| ==> s[i] == c)
  {
    if s == "" || s[0] == c then 0 else 1 + IndexOf(s[1..], c)
  }

  function Split(s: string, c: char): (parts: seq<string>)
    ensures parts != []
    decreases |s|
  {
    var i := IndexOf(s, c);
    if i == |s| then [s] else [s[..i]] + Split(s[i + 1..], c)
  }

  function Join(parts: seq<string>, separator: string): string {
    if parts == [] then ""
    else if |parts| == 1 then parts[0]
    else parts[0] + separator + Join(parts[1..], separator)
  }

  // ---------------------------------------------------------------- trim

  lemma {:induction false} TrimStartIs(s: string)
    ensures TrimStart(s) == "" || !IsSpace(TrimStart(s)[0])
    ensures |TrimStart(s)| <= |s| && TrimStart(s) == s[|s| - |TrimStart(s)|..]
    decreases |s|
  {
    if s != "" && IsSpace(s[0]) { TrimStartIs(s[1..]); }
  }

  lemma {:induction false} TrimEndIs(s: string)
    ensures TrimEnd(s) == "" || !IsSpace(TrimEnd(s)[|TrimEnd(s)| - 1])
    ensures |TrimEnd(s)| <= |s| && TrimEnd(s) == s[..|TrimEnd(s)|]
    decreases |s|
  {
    if s != "" && IsSpace(s[|s| - 1]) { TrimEndIs(s[..|s| - 1]); }
  }

  lemma TrimIsTrimmed(s: string)
    ensures Trimmed(Trim(s))
  {
    TrimStartIs(s);
    TrimEndIs(TrimStart(s));
  }

  lemma TrimmedStays(s: string)
    requires Trimmed(s)
    ensures Trim(s) == s
  {
  }

  lemma TrimLacks(s: string, c: char)
    requires Lacks(s, c)
    ensures Lacks(Trim(s), c)
  {
    TrimStartIs(s);
    TrimEndIs(TrimStart(s));
  }

  /** A string that starts with a non-space keeps its first character. */
  lemma TrimKeepsFirst(s: string)
    requires s != "" && !IsSpace(s[0])
    ensures Trim(s) != "" && Trim(s)[0] == s[0]
  {
    TrimEndIs(s);
    if TrimEnd(s) == "" { OnlySpaces(s); }
  }

  lemma {:induction false} OnlySpaces(s: string)
    requires TrimEnd(s) == ""
    ensures forall i | 0 <= i < |s| :: IsSpace(s[i])
    decreases |s|
  {
    if s != "" { OnlySpaces(s[..|s| - 1]); }
  }

  lemma TrimSpaceBefore(s: string)
    requires Trimmed(s)
    ensures Trim(" " + s) == s
  {
    assert (" " + s)[0] == ' ' && (" " + s)[1..] == s;
    assert TrimStart(" " + s) == TrimStart(s);
  }

  lemma TrimSpaceAfter(s: string)
    requires Trimmed(s)
    ensures Trim(s + " ") == s
  {
    var t := s + " ";
    assert t[|s|] == ' ' && t[..|s|] == s;
    if s == "" {
      assert t[0] == ' ' && t[1..] == "";
      assert TrimStart(t) == TrimStart(t[1..]) == "";
    } else {
      assert TrimEnd(t) == TrimEnd(s);
      assert TrimStart(s + " ") == s + " ";
    }
  }

  // ---------------------------------------------------------------- split and join

  lemma {:induction false} IndexUnique(s: string, c: char, i: nat)
    requires i <= |s| && Lacks(s[..i], c) && (i < |s| ==> s[i] == c)
    ensures IndexOf(s, c) == i
  {
    var k := IndexOf(s, c);
    assert forall j | 0 <= j < i :: s[j] == s[..i][j];
    assert forall j | 0 <= j < k :: s[j] == s[..k][j];
  }

  lemma SplitFirst(a: string, c: char, b: string)
    requires Lacks(a, c)
    ensures Split(a + [c] + b, c) == [a] + Split(b, c)
  {
    var s := a + [c] + b;
    assert s[..|a|] == a && s[|a|] == c && s[|a| + 1..] == b;
    IndexUnique(s, c, |a|);
  }

  lemma SplitWhole(a: string, c: char)
    requires Lacks(a, c)
    ensures Split(a, c) == [a]
  {
    assert a[..|a|] == a;
    IndexUnique(a, c, |a|);
  }

  /** Joining and splitting at a character that the parts lack gives the parts back. */
  lemma {:induction false} SplitOfJoin(parts: seq<string>, c: char)
    requires parts != [] && forall i | 0 <= i < |parts| :: Lacks(parts[i], c)
    ensures Split(Join(parts, [c]), c) == parts
    decreases |parts|
  {
    var s := Join(parts, [c]);
    if |parts| == 1 {
      IndexUnique(s, c, |s|);
    } else {
      assert s[..|parts[0]|] == parts[0];
      IndexUnique(s, c, |parts[0]|);
      assert s[|parts[0]| + 1..] == Join(parts[1..], [c]);
      SplitOfJoin(parts[1..], c);
    }
  }

  lemma {:induction false} SplitLacks(s: string, c: char)
    ensures forall i | 0 <= i < |Split(s, c)| :: Lacks(Split(s, c)[i], c)
    decreases |s|
  {
    var i := IndexOf(s, c);
    if i == |s| {
      assert s[..i] == s;
    } else {
      SplitLacks(s[i + 1..], c);
    }
  }

  /** The pieces of a string have no character that the string lacks. */
  lemma {:induction false} SplitKeepsLack(s: string, c: char, d: char)
    requires Lacks(s, d)
    ensures forall i | 0 <= i < |Split(s, c)| :: Lacks(Split(s, c)[i], d)
    decreases |s|
  {
    var i := IndexOf(s, c);
    if i < |s| { SplitKeepsLack(s[i + 1..], c, d); }
  }
}
