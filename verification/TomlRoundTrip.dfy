/**
 * Which documents come back when printed and parsed (src/adapters/codex.ts:30-117): for all
 * documents, exactly the normal ones, a condition on names, keys, items and the preamble.
 */
module TomlRoundTrip {
  import opened Strings
  import opened Toml

  // ---------------------------------------------------------------- values

  predicate ItemOk(item: string) { item != "" && Lacks(item, ',') }

  predicate ValueOk(v: Value) { v.Arr? ==> forall i | 0 <= i < |v.items| :: ItemOk(v.items[i]) }

  lemma StripsItsQuotes(s: string)
    ensures StripQuotes(Quoted(s)) == s
  {
    assert Quoted(s)[1..] == s + "\"" && (s + "\"")[..|s|] == s;
  }

  lemma QuotedIsTrimmed(lead: string, s: string)
    requires lead == "" || lead == " "
    ensures Trim(lead + Quoted(s)) == Quoted(s)
  {
    assert Trimmed(Quoted(s));
    if lead == "" {
      assert lead + Quoted(s) == Quoted(s);
      TrimmedStays(Quoted(s));
    } else {
      TrimSpaceBefore(Quoted(s));
    }
  }

  lemma FirstItem(piece: string, rest: seq<string>, item: string)
    requires item != "" && StripQuotes(Trim(piece)) == item
    ensures Items([piece] + rest) == [item] + Items(rest)
  {
    assert ([piece] + rest)[1..] == rest;
  }

  lemma CommaSpace(q: string, rest: string)
    ensures q + ", " + rest == q + [','] + (" " + rest)
  {
  }

  lemma LeadFirst(lead: string, q: string, rest: string)
    ensures lead + (q + [','] + rest) == (lead + q) + [','] + rest
  {
  }

  lemma JoinQuoted(items: seq<string>)
    requires |items| > 1
    ensures Join(QuotedItems(items), ", ") == Quoted(items[0]) + [','] + (" " + Join(QuotedItems(items[1..]), ", "))
  {
    var rest := QuotedItems(items[1..]);
    assert QuotedItems(items) == [Quoted(items[0])] + rest && QuotedItems(items)[1..] == rest;
    CommaSpace(Quoted(items[0]), Join(rest, ", "));
  }

  lemma LeadLacks(lead: string, item: string)
    requires ItemOk(item) && (lead == "" || lead == " ")
    ensures Lacks(lead + Quoted(item), ',')
  {
  }

  lemma LastItemComesBack(lead: string, item: string)
    requires ItemOk(item) && (lead == "" || lead == " ")
    ensures Items(Split(lead + Join(QuotedItems([item]), ", "), ',')) == [item]
  {
    var first := lead + Quoted(item);
    QuotedIsTrimmed(lead, item);
    StripsItsQuotes(item);
    LeadLacks(lead, item);
    assert QuotedItems([item]) == [Quoted(item)];
    hide Quoted;
    SplitWhole(first, ',');
    assert [first] + [] == [first];
    FirstItem(first, [], item);
  }

  /** The printed items of an array, split at the commas, are the items again. */
  lemma {:induction false} ItemsComeBack(lead: string, items: seq<string>)
    requires items != [] && forall i | 0 <= i < |items| :: ItemOk(items[i])
    requires lead == "" || lead == " "
    ensures Items(Split(lead + Join(QuotedItems(items), ", "), ',')) == items
    decreases |items|
  {
    if |items| == 1 {
      LastItemComesBack(lead, items[0]);
      assert items == [items[0]];
    } else {
      var first, rest := lead + Quoted(items[0]), " " + Join(QuotedItems(items[1..]), ", ");
      ItemsComeBack(" ", items[1..]);
      QuotedIsTrimmed(lead, items[0]);
      StripsItsQuotes(items[0]);
      LeadLacks(lead, items[0]);
      hide Quoted, QuotedItems, Join, Items, Split, Trim, StripQuotes, Lacks;
      JoinQuoted(items);
      LeadFirst(lead, Quoted(items[0]), rest);
      SplitFirst(first, ',', rest);
      FirstItem(first, Split(rest, ','), items[0]);
      assert items == [items[0]] + items[1..];
    }
  }

  lemma InnerOfBrackets(x: string)
    ensures Inner("[" + x + "]") == x
  {
    var s := "[" + x + "]";
    assert s[|s| - 1] == ']';
    assert LastIndexOf(s, ']') == |s| - 1;
    assert s[1..|s| - 1] == x;
  }

  lemma StripLacks(s: string, c: char)
    requires Lacks(s, c)
    ensures Lacks(StripQuotes(s), c)
  {
  }

  lemma {:induction false} ItemsAreOk(pieces: seq<string>)
    requires forall i | 0 <= i < |pieces| :: Lacks(pieces[i], ',')
    ensures forall i | 0 <= i < |Items(pieces)| :: ItemOk(Items(pieces)[i])
    decreases |pieces|
  {
    if pieces != [] {
      TrimLacks(pieces[0], ',');
      StripLacks(Trim(pieces[0]), ',');
      ItemsAreOk(pieces[1..]);
    }
  }

  lemma ParsedIsOk(raw: string)
    ensures ValueOk(ParseValue(raw))
  {
    if raw != "" && raw[0] == '[' {
      SplitLacks(Inner(raw), ',');
      ItemsAreOk(Split(Inner(raw), ','));
    }
  }

  /** A value comes back exactly when no item of an array is empty or has a comma; any string does. */
  lemma ValueComesBack(v: Value)
    ensures ParseValue(PrintValue(v)) == v <==> ValueOk(v)
  {
    ParsedIsOk(PrintValue(v));
    if ValueOk(v) {
      match v
      case Str(text) => StripsItsQuotes(text);
      case Arr(items) =>
        InnerOfBrackets(Join(QuotedItems(items), ", "));
        if items == [] {
          assert Join(QuotedItems(items), ", ") == "";
          assert Split("", ',') == [""];
          assert StripQuotes(Trim("")) == "";
          assert Items([""]) == [] + Items([""][1..]);
        } else {
          assert "" + Join(QuotedItems(items), ", ") == Join(QuotedItems(items), ", ");
          ItemsComeBack("", items);
        }
    }
  }

  // ---------------------------------------------------------------- lines

  predicate OneLine(s: string) { Lacks(s, '\n') }

  predicate ValueOnOneLine(v: Value) {
    match v
    case Str(text) => OneLine(text)
    case Arr(items) => forall i | 0 <= i < |items| :: OneLine(items[i])
  }

  predicate KeyOk(k: string) { Trimmed(k) && Lacks(k, '=') && OneLine(k) && (k != "" ==> k[0] != '#') }

  /** `[x = ["y"]` is a section header to the parser. */
  predicate TakenForHeader(pair: (string, Value)) { IsHeader(Trim(PrintPair(pair))) }

  /** A key and value whose printed line is read as that key and value. */
  predicate PairOk(pair: (string, Value)) {
    KeyOk(pair.0) && ValueOk(pair.1) && ValueOnOneLine(pair.1) && !TakenForHeader(pair)
  }

  predicate NameOk(name: string) { name != "" && Lacks(name, ']') && OneLine(name) }

  /** Blank, a comment, or no key and no section. */
  predicate PreambleLine(line: string) {
    OneLine(line) && !IsHeader(Trim(line)) && (IsComment(Trim(line)) || Lacks(Trim(line), '='))
  }

  ghost predicate SectionOk(section: (string, Pairs)) {
    NameOk(section.0) && forall i | 0 <= i < |section.1| :: PairOk(section.1[i])
  }

  /**
   * No top-level keys, sections and pairs that print to readable lines, and a preamble of
   * preamble lines that ends blank, or is empty in front of a section.
   */
  ghost predicate Normal(d: Doc) {
    && (forall i | 0 <= i < |d.sections| :: SectionOk(d.sections[i]))
    && (forall i | 0 <= i < |d.preamble| :: PreambleLine(d.preamble[i]))
    && (if d.preamble == [] then d.sections != [] else Trim(d.preamble[|d.preamble| - 1]) == "")
  }

  /** What a Map and its objects are: names once, keys once. */
  ghost predicate IsMap(d: Doc) {
    Distinct(d.sections) && forall i | 0 <= i < |d.sections| :: Distinct(d.sections[i].1)
  }

  lemma {:induction false} LinesConcat(s: State, a: seq<string>, b: seq<string>)
    ensures Lines(s, a + b) == Lines(Lines(s, a), b)
    decreases |b|
  {
    if b == [] {
      assert a + b == a;
    } else {
      assert (a + b)[..|a + b| - 1] == a + b[..|b| - 1];
      LinesConcat(s, a, b[..|b| - 1]);
    }
  }

  lemma OneMoreLine(s: State, lines: seq<string>, line: string)
    ensures Lines(s, lines + [line]) == Line(Lines(s, lines), line)
  {
    assert (lines + [line])[..|lines + [line]| - 1] == lines;
  }

  // ---------------------------------------------------------------- what a printed line is read as

  lemma PrintedEnds(v: Value)
    ensures var t := PrintValue(v); |t| >= 2 && Trimmed(t)
  {
  }

  /** The trimmed line of a pair: the key, if there is one, before ` = ` and the value. */
  lemma PairTrimmed(pair: (string, Value))
    requires KeyOk(pair.0)
    ensures Trim(PrintPair(pair)) == (if pair.0 == "" then "= " else pair.0 + " = ") + PrintValue(pair.1)
  {
    PrintedEnds(pair.1);
    var line := PrintPair(pair);
    if pair.0 == "" {
      var t := "= " + PrintValue(pair.1);
      assert line == " " + t;
      assert Trimmed(t);
      TrimSpaceBefore(t);
    } else {
      assert line[0] == pair.0[0] && line[|line| - 1] == PrintValue(pair.1)[|PrintValue(pair.1)| - 1];
      TrimmedStays(line);
    }
  }

  lemma CutAtEquals(front: string, value: string)
    requires Lacks(front, '=')
    ensures var t := front + ("=" + (" " + value));
      IndexOf(t, '=') == |front| < |t| && t[..|front|] == front && t[|front| + 1..] == " " + value
  {
    var t := front + ("=" + (" " + value));
    assert t[..|front|] == front && t[|front|] == '=';
    IndexUnique(t, '=', |front|);
    assert t[|front| + 1..] == " " + value;
  }

  lemma EqualsAndValue(front: string, value: string)
    ensures front + " = " + value == front + " " + ("=" + (" " + value)) && "= " + value == "" + ("=" + (" " + value))
  {
  }

  lemma PairIsRead(pair: (string, Value))
    requires KeyOk(pair.0)
    ensures var t := Trim(PrintPair(pair));
      !IsComment(t) && IndexOf(t, '=') < |t|
      && Trim(t[..IndexOf(t, '=')]) == pair.0 && Trim(t[IndexOf(t, '=') + 1..]) == PrintValue(pair.1)
  {
    PairTrimmed(pair);
    PrintedEnds(pair.1);
    var key, value := pair.0, PrintValue(pair.1);
    hide PrintPair, PrintValue, Trim;
    EqualsAndValue(key, value);
    CutAtEquals(if key == "" then "" else key + " ", value);
    TrimSpaceBefore(value);
    if key == "" { TrimmedStays(""); } else { TrimSpaceAfter(key); }
  }

  lemma HeaderIsRead(name: string)
    requires NameOk(name)
    ensures var t := Trim(Header(name)); IsHeader(t) && t[1..|t| - 1] == name
  {
    TrimmedStays(Header(name));
    assert Header(name)[1..|Header(name)| - 1] == name;
  }

  // ---------------------------------------------------------------- normal documents come back

  lemma {:induction false} PreambleIsRead(preamble: seq<string>)
    requires forall i | 0 <= i < |preamble| :: PreambleLine(preamble[i])
    ensures Lines(START, preamble) == State(Doc(preamble, []), "")
    decreases |preamble|
  {
    if preamble != [] {
      PreambleIsRead(preamble[..|preamble| - 1]);
      LackingNone(Trim(preamble[|preamble| - 1]));
      assert preamble == preamble[..|preamble| - 1] + [preamble[|preamble| - 1]];
    }
  }

  lemma LackingNone(t: string)
    ensures Lacks(t, '=') <==> IndexOf(t, '=') == |t|
  {
    if Lacks(t, '=') { IndexUnique(t, '=', |t|); } else { assert t[..|t|] == t; }
  }

  lemma FindUnique<T>(t: Table<T>, key: string, i: nat)
    requires i <= |t| && (i < |t| ==> t[i].0 == key) && forall k | 0 <= k < i :: t[k].0 != key
    ensures Find(t, key) == i
  {
    hide Find;
    assert Find(t, key) <= |t|;
  }

  lemma FindLast<T>(t: Table<T>, key: string, value: T)
    requires Find(t, key) == |t|
    ensures Find(t + [(key, value)], key) == |t|
  {
    hide Find;
    var u := t + [(key, value)];
    forall k | 0 <= k < |t| ensures u[k].0 != key { assert u[k] == t[k]; }
    FindUnique(u, key, |t|);
  }

  lemma PutLast(t: Table<Pairs>, key: string, old': Pairs, value: Pairs)
    requires Find(t, key) == |t|
    ensures Put(t + [(key, old')], key, value) == t + [(key, value)]
    ensures Section(t + [(key, old')], key) == old'
  {
    FindLast(t, key, old');
  }

  lemma PutNew<T>(t: Table<T>, n: nat)
    requires n < |t| && Distinct(t)
    ensures Put(t[..n], t[n].0, t[n].1) == t[..n + 1] && Find(t[..n], t[n].0) == n
  {
    FindUnique(t[..n], t[n].0, n);
    hide Find;
  }

  /** The line of a pair puts it in the current section. */
  lemma PairLineIs(s: State, pair: (string, Value))
    requires PairOk(pair) && s.current != ""
    ensures Line(s, PrintPair(pair)) ==
      s.(doc := s.doc.(sections := Put(s.doc.sections, s.current,
        Put(Section(s.doc.sections, s.current), pair.0, pair.1))))
  {
    PairIsRead(pair);
    ValueComesBack(pair.1);
    hide IsHeader, ParseValue, PrintPair, PrintValue, ValueOk, KeyOk, Find, Put, Section;
  }

  lemma {:induction false} PairsAreRead(s: State, before: Table<Pairs>, name: string, pairs: Pairs)
    requires name != "" && Find(before, name) == |before| && Distinct(pairs)
    requires s.current == name && s.doc.sections == before + [(name, [])]
    requires forall i | 0 <= i < |pairs| :: PairOk(pairs[i])
    ensures Lines(s, PairLines(pairs)) == s.(doc := s.doc.(sections := before + [(name, pairs)]))
    decreases |pairs|
  {
    if pairs != [] {
      var n := |pairs| - 1;
      PairsAreRead(s, before, name, pairs[..n]);
      OneMoreLine(s, PairLines(pairs[..n]), PrintPair(pairs[n]));
      PutLast(before, name, pairs[..n], pairs);
      PutNew(pairs, n);
      assert pairs[..n + 1] == pairs;
      hide Line, PairOk, Find, Put, Section, PrintPair, Distinct;
      PairLineIs(Lines(s, PairLines(pairs[..n])), pairs[n]);
    }
  }

  lemma SectionIsRead(s: State, section: (string, Pairs))
    requires SectionOk(section) && Distinct(section.1) && Find(s.doc.sections, section.0) == |s.doc.sections|
    ensures Lines(s, SectionLines(section)) == State(s.doc.(sections := s.doc.sections + [section]), section.0)
  {
    var before, name, pairs := s.doc.sections, section.0, section.1;
    HeaderIsRead(name);
    var opened' := Line(s, Header(name));
    assert opened' == State(s.doc.(sections := before + [(name, [])]), name);
    OneMoreLine(s, [], Header(name));
    assert [] + [Header(name)] == [Header(name)];
    LinesConcat(s, [Header(name)], PairLines(pairs));
    PairsAreRead(opened', before, name, pairs);
    OneMoreLine(s, [Header(name)] + PairLines(pairs), "");
    BlankIsSkipped(Lines(s, [Header(name)] + PairLines(pairs)));
  }

  lemma BlankIsSkipped(s: State)
    requires s.current != ""
    ensures Line(s, "") == s
  {
    assert Trim("") == "";
  }

  lemma {:induction false} SectionsAreRead(s: State, sections: Table<Pairs>)
    requires s.doc.sections == [] && Distinct(sections)
    requires forall i | 0 <= i < |sections| :: SectionOk(sections[i]) && Distinct(sections[i].1)
    ensures Lines(s, SectionsLines(sections)).doc == s.doc.(sections := sections)
    decreases |sections|
  {
    if sections != [] {
      var n := |sections| - 1;
      SectionsAreRead(s, sections[..n]);
      LinesConcat(s, SectionsLines(sections[..n]), SectionLines(sections[n]));
      PutNew(sections, n);
      SectionIsRead(Lines(s, SectionsLines(sections[..n])), sections[n]);
      assert sections == sections[..n] + [sections[n]];
    }
  }

  // ---------------------------------------------------------------- printed lines are lines

  lemma {:induction false} QuotedOnOneLine(items: seq<string>)
    requires forall i | 0 <= i < |items| :: OneLine(items[i])
    ensures OneLine(Join(QuotedItems(items), ", "))
    decreases |items|
  {
    if |items| > 1 {
      assert QuotedItems(items)[1..] == QuotedItems(items[1..]);
      QuotedOnOneLine(items[1..]);
    } else if |items| == 1 {
      assert QuotedItems(items) == [Quoted(items[0])] + QuotedItems(items[1..]);
    }
  }

  lemma PairOnOneLine(pair: (string, Value))
    requires OneLine(pair.0) && ValueOnOneLine(pair.1)
    ensures OneLine(PrintPair(pair))
  {
    if pair.1.Arr? { QuotedOnOneLine(pair.1.items); }
  }

  lemma {:induction false} PairsOnLines(pairs: Pairs)
    requires forall i | 0 <= i < |pairs| :: OneLine(pairs[i].0) && ValueOnOneLine(pairs[i].1)
    ensures forall i | 0 <= i < |PairLines(pairs)| :: OneLine(PairLines(pairs)[i])
    decreases |pairs|
  {
    if pairs != [] {
      PairsOnLines(pairs[..|pairs| - 1]);
      PairOnOneLine(pairs[|pairs| - 1]);
    }
  }

  ghost predicate SectionOnLines(section: (string, Pairs)) {
    OneLine(section.0) && forall i | 0 <= i < |section.1| :: OneLine(section.1[i].0) && ValueOnOneLine(section.1[i].1)
  }

  ghost predicate AllOneLine(lines: seq<string>) { forall i | 0 <= i < |lines| :: OneLine(lines[i]) }

  lemma SectionPrintsLines(section: (string, Pairs))
    requires SectionOnLines(section)
    ensures AllOneLine(SectionLines(section))
  {
    PairsOnLines(section.1);
    hide PairLines;
  }

  lemma {:induction false} SectionsOnLines(sections: Table<Pairs>)
    requires forall i | 0 <= i < |sections| :: SectionOnLines(sections[i])
    ensures AllOneLine(SectionsLines(sections))
    decreases |sections|
  {
    if sections != [] {
      SectionPrintsLines(sections[|sections| - 1]);
      hide SectionOnLines, SectionLines, OneLine;
      SectionsOnLines(sections[..|sections| - 1]);
    }
  }

  /** The lines that the parser sees: those printed, or one empty line when nothing was. */
  lemma PrintedLines(d: Doc)
    requires forall i | 0 <= i < |d.sections| :: SectionOnLines(d.sections[i])
    requires forall i | 0 <= i < |d.preamble| :: OneLine(d.preamble[i])
    ensures Split(Print(d), '\n') == if DocLines(d) == [] then [""] else DocLines(d)
  {
    SectionsOnLines(d.sections);
    if DocLines(d) == [] {
      assert Split("", '\n') == [""];
    } else {
      SplitOfJoin(DocLines(d), '\n');
    }
  }

  lemma NormalOnLines(d: Doc)
    requires Normal(d)
    ensures forall i | 0 <= i < |d.sections| :: SectionOnLines(d.sections[i])
    ensures forall i | 0 <= i < |d.preamble| :: OneLine(d.preamble[i])
  {
    forall i | 0 <= i < |d.sections| ensures SectionOnLines(d.sections[i]) {
      assert SectionOk(d.sections[i]);
      forall k | 0 <= k < |d.sections[i].1|
        ensures OneLine(d.sections[i].1[k].0) && ValueOnOneLine(d.sections[i].1[k].1)
      {
        assert PairOk(d.sections[i].1[k]);
      }
    }
  }

  /** A normal document, printed and parsed, is itself again, values with quotes in them too. */
  lemma NormalComesBack(d: Doc)
    requires IsMap(d) && Normal(d)
    ensures Parse(Print(d)) == d
  {
    NormalOnLines(d);
    PrintedLines(d);
    PreambleIsRead(d.preamble);
    LinesConcat(START, d.preamble, SectionsLines(d.sections));
    SectionsAreRead(Lines(START, d.preamble), d.sections);
    if d.preamble == [] { SomeLine(d.sections); }
  }

  lemma SomeLine(sections: Table<Pairs>)
    requires sections != [] && forall i | 0 <= i < |sections| :: SectionOk(sections[i])
    ensures SectionsLines(sections) != []
  {
    assert SectionOk(sections[|sections| - 1]);
  }
}
