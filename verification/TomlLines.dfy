// What the parser makes of any line, also one the printer did not write, and when a value
// keeps its text when the file is rewritten.
module TomlLines {
  import opened Prelude
  import opened Strings
  import opened Toml
  import opened TomlRoundTrip

  // ---------------------------------------------------------------- lookups

  /** The section of this name has this value under this key; the first entries of a name or key count. */
  ghost predicate Holds(d: Doc, section: string, key: string, value: Value) {
    exists i, k ::
      0 <= i < |d.sections| && d.sections[i].0 == section && 0 <= k < |d.sections[i].1|
      && d.sections[i].1[k] == (key, value)
      && (forall j | 0 <= j < i :: d.sections[j].0 != section)
      && (forall j | 0 <= j < k :: d.sections[i].1[j].0 != key)
  }

  ghost predicate HasKey<T>(t: Table<T>, key: string, value: T) {
    exists k :: 0 <= k < |t| && t[k] == (key, value) && forall j | 0 <= j < k :: t[j].0 != key
  }

  predicate Names<T>(t: Table<T>, key: string) { exists k :: 0 <= k < |t| && t[k].0 == key }

  lemma {:induction false} FindIsFirst<T(!new)>(t: Table<T>, key: string, value: T)
    ensures HasKey(t, key, value) <==> Find(t, key) < |t| && t[Find(t, key)].1 == value
  {
    var i := Find(t, key);
    if i < |t| && t[i].1 == value { assert t[i] == (key, value); }
  }

  lemma {:induction false} HoldsIsHasKey(d: Doc, section: string, key: string, value: Value)
    ensures Holds(d, section, key, value) <==> HasKey(Section(d.sections, section), key, value)
  {
    var i := Find(d.sections, section);
    if HasKey(Section(d.sections, section), key, value) {
      var k :| 0 <= k < |d.sections[i].1| && d.sections[i].1[k] == (key, value)
               && forall j | 0 <= j < k :: d.sections[i].1[j].0 != key;
      assert d.sections[i].0 == section;
    }
    if Holds(d, section, key, value) {
      var x, k :| 0 <= x < |d.sections| && d.sections[x].0 == section && 0 <= k < |d.sections[x].1|
        && d.sections[x].1[k] == (key, value) && (forall j | 0 <= j < x :: d.sections[j].0 != section)
        && (forall j | 0 <= j < k :: d.sections[x].1[j].0 != key);
      assert x == i;
    }
  }

  lemma {:induction false} PutSets<T(!new)>(t: Table<T>, key: string, value: T, other: string, x: T)
    ensures HasKey(Put(t, key, value), other, x) <==> if other == key then x == value else HasKey(t, other, x)
  {
    var u, i := Put(t, key, value), Find(t, key);
    FindIsFirst(u, other, x);
    FindIsFirst(t, other, x);
    assert forall j | 0 <= j < |t| :: u[j].0 == t[j].0;
    assert Find(u, key) == i by { FirstOf(u, key, i); }
    if other != key {
      var k := Find(t, other);
      if k < |t| { FirstOf(u, other, k); } else { FirstOf(u, other, |u|); }
    }
  }

  lemma {:induction false} FirstOf<T>(t: Table<T>, key: string, i: nat)
    requires i <= |t| && (i < |t| ==> t[i].0 == key) && forall j | 0 <= j < i :: t[j].0 != key
    ensures Find(t, key) == i
  {
  }

  lemma {:induction false} SectionAfterPut(sections: Table<Pairs>, name: string, pairs: Pairs, other: string)
    ensures Section(Put(sections, name, pairs), other) == if other == name then pairs else Section(sections, other)
  {
    var u, i := Put(sections, name, pairs), Find(sections, name);
    assert forall j | 0 <= j < |sections| :: u[j].0 == sections[j].0;
    FirstOf(u, name, i);
    if other != name {
      var k := Find(sections, other);
      if k < |sections| { FirstOf(u, other, k); } else { FirstOf(u, other, |u|); }
    }
  }

  // ---------------------------------------------------------------- lines

  /** White space around the text does not matter, within it nothing is lost. */
  lemma {:induction false} TrimExactly(l: string, t: string, r: string)
    requires Trimmed(t) && (forall i | 0 <= i < |l| :: IsSpace(l[i])) && (forall i | 0 <= i < |r| :: IsSpace(r[i]))
    ensures Trim(l + t + r) == t
    decreases |l| + |r|
  {
    var s := l + t + r;
    if l != "" {
      assert s[0] == l[0] && s[1..] == l[1..] + t + r;
      TrimExactly(l[1..], t, r);
    } else if r != "" && t != "" {
      assert s == t + r && s[0] == t[0];
      TrimEndOff(t, r);
    } else if r != "" {
      assert s == r && s[0] == r[0] && s[1..] == "" + t + r[1..];
      TrimExactly("", t, r[1..]);
    } else {
      assert s == t;
      TrimmedStays(t);
    }
  }

  lemma {:induction false} TrimEndOff(t: string, r: string)
    requires t != "" && !IsSpace(t[|t| - 1]) && forall i | 0 <= i < |r| :: IsSpace(r[i])
    ensures TrimEnd(t + r) == t
    decreases |r|
  {
    if r == "" {
      assert t + r == t;
    } else {
      assert (t + r)[|t + r| - 1] == r[|r| - 1] && (t + r)[..|t + r| - 1] == t + r[..|r| - 1];
      TrimEndOff(t, r[..|r| - 1]);
    }
  }

  /** A pair line: the key in front of the first equals sign, the raw value behind it. */
  lemma {:induction false} PairLineSets(s: State, line: string, front: string, back: string, section: string,
                                        key: string, value: Value)
    requires Trim(line) == front + "=" + back && Lacks(front, '=')
    requires !IsHeader(Trim(line)) && !IsComment(Trim(line))
    ensures var next := Line(s, line);
      next.current == s.current && next.doc.preamble == s.doc.preamble
      && (Holds(next.doc, section, key, value) <==>
            if section == s.current && key == Trim(front) then value == ParseValue(Trim(back))
            else Holds(s.doc, section, key, value))
  {
    var t, next := Trim(line), Line(s, line);
    assert t[..|front|] == front && t[|front|] == '=' && t[|front| + 1..] == back;
    IndexUnique(t, '=', |front|);
    var pairs := Put(Section(s.doc.sections, s.current), Trim(front), ParseValue(Trim(back)));
    assert next.doc.sections == Put(s.doc.sections, s.current, pairs);
    hide Trim, ParseValue, IsHeader, IsComment, Line, Put, Section;
    SectionAfterPut(s.doc.sections, s.current, pairs, section);
    HoldsIsHasKey(next.doc, section, key, value);
    HoldsIsHasKey(s.doc, section, key, value);
    PutSets(Section(s.doc.sections, s.current), Trim(front), ParseValue(Trim(back)), key, value);
  }

  /** A header opens its section, which keeps what it has; nothing else changes. */
  lemma {:induction false} HeaderOpens(s: State, line: string, name: string)
    requires Trim(line) == "[" + name + "]" && name != "" && Lacks(name, ']')
    ensures Line(s, line).current == name && Line(s, line).doc.preamble == s.doc.preamble
    ensures Line(s, line).doc.sections == s.doc.sections + if Names(s.doc.sections, name) then [] else [(name, [])]
  {
    var t := Trim(line);
    assert t[1..|t| - 1] == name;
    PutSame(s.doc.sections, name);
    var i := Find(s.doc.sections, name);
    assert i < |s.doc.sections| ==> s.doc.sections[i].0 == name;
  }

  /**
   * Blank lines, comments and lines without an equals sign are kept in front of the first section and dropped
   * inside one.
   */
  lemma {:induction false} OtherLines(s: State, line: string)
    requires !IsHeader(Trim(line)) && (Trim(line) == "" || Trim(line)[0] == '#' || Lacks(Trim(line), '='))
    ensures Line(s, line) == if s.current == "" then s.(doc := s.doc.(preamble := s.doc.preamble + [line])) else s
  {
    var t := Trim(line);
    if Lacks(t, '=') {
      assert t[..|t|] == t;
      IndexUnique(t, '=', |t|);
    }
  }

  // ---------------------------------------------------------------- values

  predicate Quote(c: char) { c in {'"', '\''} }

  /** At most one quote goes from each end. */
  lemma {:induction false} StripsOneEach(s: string)
    ensures var head := if s != "" && Quote(s[0]) then 1 else 0;
      var tail := if |s| > head && Quote(s[|s| - 1]) then 1 else 0;
      StripQuotes(s) == s[head..|s| - tail]
  {
  }

  /** What starts with no bracket is a string, as written but for those quotes: numbers and booleans too. */
  lemma {:induction false} ScalarsAreText(raw: string)
    requires raw == "" || raw[0] != '['
    ensures ParseValue(raw) == Str(StripQuotes(raw))
    ensures (raw == "" || (!Quote(raw[0]) && !Quote(raw[|raw| - 1]))) ==> ParseValue(raw) == Str(raw)
  {
  }

  lemma {:induction false} LastIndexIs(s: string, c: char, i: nat)
    requires i < |s| && s[i] == c && forall k | i < k < |s| :: s[k] != c
    ensures LastIndexOf(s, c) == i
  {
  }

  /** An array ends at its last bracket. */
  lemma {:induction false} ArraysAreRead(y: string, rest: string)
    requires Lacks(rest, ']')
    ensures ParseValue("[" + y + "]" + rest) == Arr(Items(Split(y, ',')))
  {
    var raw, n := "[" + y + "]" + rest, |y| + 1;
    assert raw[n] == ']' && raw[1..n] == y;
    assert forall k | n < k < |raw| :: raw[k] == rest[k - n - 1];
    LastIndexIs(raw, ']', n);
    hide Items, Split, LastIndexOf;
    assert Inner(raw) == y;
  }

  lemma {:induction false} NoLastIndex(s: string, c: char)
    requires Lacks(s, c)
    ensures LastIndexOf(s, c) == -1
  {
  }

  /** Without a bracket at the end it loses its last character. */
  lemma {:induction false} OpenArraysAreCut(x: string, last: char)
    requires Lacks(x, ']') && last != ']'
    ensures ParseValue("[" + x + [last]) == Arr(Items(Split(x, ',')))
    ensures ParseValue("[") == Arr(Items(Split("", ',')))
  {
    var raw := "[" + x + [last];
    assert raw[1..|raw| - 1] == x;
    assert Lacks(raw, ']');
    NoLastIndex(raw, ']');
    NoLastIndex("[", ']');
    hide Items, Split, LastIndexOf;
    assert Inner(raw) == x && Inner("[") == "";
  }

  /** The items are the pieces between commas, in order, trimmed and without their quotes; empty ones are left out. */
  lemma {:induction false} ItemsInOrder(a: seq<string>, piece: string, b: seq<string>)
    ensures var item := StripQuotes(Trim(piece));
      Items(a + [piece] + b) == Items(a) + (if item == "" then [] else [item]) + Items(b)
    decreases |a|
  {
    var all := a + [piece] + b;
    if a == [] {
      assert all[0] == piece && all[1..] == b;
    } else {
      var item, head := StripQuotes(Trim(piece)), StripQuotes(Trim(a[0]));
      var mine, first := if item == "" then [] else [item], if head == "" then [] else [head];
      assert all[0] == a[0] && all[1..] == a[1..] + [piece] + b;
      ItemsInOrder(a[1..], piece, b);
      assert Items(all) == first + Items(all[1..]) && Items(a) == first + Items(a[1..]);
      hide Items, Trim, StripQuotes;
      Reassociate(first, Items(a[1..]), mine);
      Reassociate(first, Items(a[1..]) + mine, Items(b));
    }
  }

  // ---------------------------------------------------------------- rewriting

  /** A value keeps its text when it is read and printed exactly when the printer would have written it so. */
  lemma {:induction false} ValueTextStays(raw: string)
    ensures PrintValue(ParseValue(raw)) == raw <==> exists v :: ValueOk(v) && PrintValue(v) == raw
  {
    ParsedIsOk(raw);
    if v :| ValueOk(v) && PrintValue(v) == raw { ValueComesBack(v); }
  }

  /** A bare value, such as a number or a boolean, comes back in quotes: for a TOML reader it has become a string. */
  lemma {:induction false} BareValueIsQuoted(key: string, raw: string)
    requires raw != "" && raw[0] != '[' && !Quote(raw[0]) && !Quote(raw[|raw| - 1])
    ensures PrintPair((key, ParseValue(raw))) == key + " = " + ("\"" + raw + "\"")
    ensures !exists v :: ValueOk(v) && PrintValue(v) == raw
  {
    ScalarsAreText(raw);
    forall v | ValueOk(v) ensures PrintValue(v) != raw { assert PrintValue(v)[0] in {'"', '['}; }
  }

  /** Read and printed once, a value keeps its text ever after. */
  lemma {:induction false} RewritingSettles(raw: string)
    ensures var once := PrintValue(ParseValue(raw)); PrintValue(ParseValue(once)) == once
  {
    ParsedIsOk(raw);
    ValueComesBack(ParseValue(raw));
  }
}
