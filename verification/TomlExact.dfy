// The other half of the round trip (src/adapters/codex.ts:30-117): a document that comes back
// is normal.
module TomlExact {
  // What the parser builds has only readable names, keys and values; and it builds no more pairs
  // than there are lines that read as one, so a pair that is not printed as one is missed.
  import opened Strings
  import opened Toml
  import opened TomlRoundTrip

  // ---------------------------------------------------------------- what the parser can build

  predicate SeenPair(pair: (string, Value)) { KeyOk(pair.0) && ValueOk(pair.1) && ValueOnOneLine(pair.1) }

  predicate SeenPairs(pairs: Pairs) { forall i | 0 <= i < |pairs| :: SeenPair(pairs[i]) }

  predicate SeenSection(section: (string, Pairs)) {
    SeenPairs(section.1) && if section.0 == "" then section.1 != [] else NameOk(section.0)
  }

  predicate SeenDoc(d: Doc) {
    (forall i | 0 <= i < |d.sections| :: SeenSection(d.sections[i]))
    && forall i | 0 <= i < |d.preamble| :: PreambleLine(d.preamble[i])
  }

  predicate Seen(s: State) { SeenDoc(s.doc) && (s.current != "" ==> NameOk(s.current)) }

  lemma {:induction false} ItemsOnOneLine(pieces: seq<string>)
    requires forall i | 0 <= i < |pieces| :: OneLine(pieces[i])
    ensures forall i | 0 <= i < |Items(pieces)| :: OneLine(Items(pieces)[i])
    decreases |pieces|
  {
    if pieces != [] {
      TrimLacks(pieces[0], '\n');
      StripLacks(Trim(pieces[0]), '\n');
      ItemsOnOneLine(pieces[1..]);
    }
  }

  lemma ParsedOnOneLine(raw: string)
    requires OneLine(raw)
    ensures ValueOnOneLine(ParseValue(raw))
  {
    if raw != "" && raw[0] == '[' {
      SplitKeepsLack(Inner(raw), ',', '\n');
      ItemsOnOneLine(Split(Inner(raw), ','));
    } else {
      StripLacks(raw, '\n');
    }
  }

  lemma ReadKeyOk(t: string)
    requires Trimmed(t) && OneLine(t) && !IsComment(t) && IndexOf(t, '=') < |t|
    ensures KeyOk(Trim(t[..IndexOf(t, '=')]))
  {
    var front := t[..IndexOf(t, '=')];
    TrimIsTrimmed(front);
    TrimLacks(front, '=');
    TrimLacks(front, '\n');
    if front == "" { assert Trim(front) == ""; } else { TrimKeepsFirst(front); }
  }

  lemma ReadPairSeen(line: string)
    requires OneLine(line) && !IsComment(Trim(line)) && IndexOf(Trim(line), '=') < |Trim(line)|
    ensures var t := Trim(line); var eq := IndexOf(t, '=');
      SeenPair((Trim(t[..eq]), ParseValue(Trim(t[eq + 1..]))))
  {
    var t := Trim(line);
    TrimIsTrimmed(line);
    TrimLacks(line, '\n');
    ReadKeyOk(t);
    var raw := Trim(t[IndexOf(t, '=') + 1..]);
    TrimLacks(t[IndexOf(t, '=') + 1..], '\n');
    ParsedIsOk(raw);
    ParsedOnOneLine(raw);
  }

  lemma SectionSeen(d: Doc, name: string)
    requires SeenDoc(d)
    ensures SeenPairs(Section(d.sections, name))
  {
    var i := Find(d.sections, name);
    if i < |d.sections| { assert SeenSection(d.sections[i]); }
  }

  lemma PutPairSeen(pairs: Pairs, pair: (string, Value))
    requires SeenPairs(pairs) && SeenPair(pair)
    ensures SeenPairs(Put(pairs, pair.0, pair.1)) && Put(pairs, pair.0, pair.1) != []
  {
    hide SeenPair, Find;
  }

  lemma PutSectionSeen(d: Doc, name: string, pairs: Pairs)
    requires SeenDoc(d) && SeenSection((name, pairs))
    ensures SeenDoc(d.(sections := Put(d.sections, name, pairs)))
  {
    hide SeenSection, PreambleLine, Find;
  }

  lemma HeaderSeen(s: State, t: string)
    requires Seen(s) && OneLine(t) && IsHeader(t)
    ensures var name := t[1..|t| - 1];
      NameOk(name) && SeenDoc(s.doc.(sections := Put(s.doc.sections, name, Section(s.doc.sections, name))))
  {
    var name := t[1..|t| - 1];
    SectionSeen(s.doc, name);
    PutSectionSeen(s.doc, name, Section(s.doc.sections, name));
  }

  lemma PairSeen(s: State, pair: (string, Value))
    requires Seen(s) && SeenPair(pair)
    ensures SeenDoc(s.doc.(sections := Put(s.doc.sections, s.current,
        Put(Section(s.doc.sections, s.current), pair.0, pair.1))))
  {
    SectionSeen(s.doc, s.current);
    PutPairSeen(Section(s.doc.sections, s.current), pair);
    PutSectionSeen(s.doc, s.current, Put(Section(s.doc.sections, s.current), pair.0, pair.1));
  }

  lemma LineSeen(s: State, line: string)
    requires Seen(s) && OneLine(line)
    ensures Seen(Line(s, line))
  {
    var t := Trim(line);
    TrimLacks(line, '\n');
    LackingNone(t);
    if IsHeader(t) {
      HeaderSeen(s, t);
      hide SeenDoc, IsHeader, Put, Section, NameOk;
    } else if !IsComment(t) && IndexOf(t, '=') < |t| {
      ReadPairSeen(line);
      var eq := IndexOf(t, '=');
      PairSeen(s, (Trim(t[..eq]), ParseValue(Trim(t[eq + 1..]))));
      hide SeenDoc, IsHeader, Put, Section, NameOk, ParseValue, Trim;
    } else {
      hide SeenSection, Trim;
    }
  }

  lemma {:induction false} LinesSeen(lines: seq<string>)
    requires forall i | 0 <= i < |lines| :: OneLine(lines[i])
    ensures Seen(Lines(START, lines))
    decreases |lines|
  {
    if lines != [] {
      LinesSeen(lines[..|lines| - 1]);
      LineSeen(Lines(START, lines[..|lines| - 1]), lines[|lines| - 1]);
    }
  }

  // ---------------------------------------------------------------- pairs counted

  function Count(sections: Table<Pairs>): nat {
    if sections == [] then 0 else |sections[0].1| + Count(sections[1..])
  }

  predicate IsPairLine(line: string) {
    var t := Trim(line);
    !IsHeader(t) && !IsComment(t) && IndexOf(t, '=') < |t|
  }

  function PairLineCount(lines: seq<string>): nat {
    if lines == [] then 0
    else PairLineCount(lines[..|lines| - 1]) + if IsPairLine(lines[|lines| - 1]) then 1 else 0
  }

  lemma PutBehind(t: Table<Pairs>, key: string, value: Pairs)
    requires t != [] && t[0].0 != key
    ensures Put(t, key, value) == [t[0]] + Put(t[1..], key, value) && Section(t, key) == Section(t[1..], key)
  {
  }

  lemma {:induction false} PutCounts(t: Table<Pairs>, key: string, value: Pairs)
    ensures Count(Put(t, key, value)) + |Section(t, key)| == Count(t) + |value|
    decreases |t|
  {
    if t == [] {
      assert Put(t, key, value) == [(key, value)];
      assert Count([(key, value)]) == |value| + Count([(key, value)][1..]);
    } else if t[0].0 == key {
      assert Put(t, key, value) == [(key, value)] + t[1..];
    } else {
      PutBehind(t, key, value);
      PutCounts(t[1..], key, value);
      assert ([t[0]] + Put(t[1..], key, value))[1..] == Put(t[1..], key, value);
    }
  }

  lemma HeaderCounts(t: Table<Pairs>, name: string)
    ensures Count(Put(t, name, Section(t, name))) == Count(t)
  {
    PutCounts(t, name, Section(t, name));
  }

  lemma PairCounts(t: Table<Pairs>, name: string, key: string, value: Value)
    ensures Count(Put(t, name, Put(Section(t, name), key, value))) <= Count(t) + 1
  {
    PutCounts(t, name, Put(Section(t, name), key, value));
    assert |Put(Section(t, name), key, value)| <= |Section(t, name)| + 1;
  }

  lemma LineCounts(s: State, line: string)
    ensures Count(Line(s, line).doc.sections) <= Count(s.doc.sections) + if IsPairLine(line) then 1 else 0
  {
    var t := Trim(line);
    assert IsHeader(t) ==> |t| >= 3;
    hide Put, Section, Trim, ParseValue, Count, IsHeader, IsComment;
    if IsHeader(t) {
      HeaderCounts(s.doc.sections, t[1..|t| - 1]);
    } else if IsPairLine(line) {
      var eq := IndexOf(t, '=');
      PairCounts(s.doc.sections, s.current, Trim(t[..eq]), ParseValue(Trim(t[eq + 1..])));
    }
  }

  lemma {:induction false} LinesCount(lines: seq<string>)
    ensures Count(Lines(START, lines).doc.sections) <= PairLineCount(lines)
    decreases |lines|
  {
    if lines != [] {
      LinesCount(lines[..|lines| - 1]);
      LineCounts(Lines(START, lines[..|lines| - 1]), lines[|lines| - 1]);
    }
  }

  lemma {:induction false} CountConcat(a: seq<string>, b: seq<string>)
    ensures PairLineCount(a + b) == PairLineCount(a) + PairLineCount(b)
    decreases |b|
  {
    if b == [] {
      assert a + b == a;
    } else {
      assert (a + b)[..|a + b| - 1] == a + b[..|b| - 1];
      CountConcat(a, b[..|b| - 1]);
    }
  }

  /** The pairs of a section whose printed line is not taken for a header. */
  function Readable(pairs: Pairs): nat {
    if pairs == [] then 0
    else Readable(pairs[..|pairs| - 1]) + if TakenForHeader(pairs[|pairs| - 1]) then 0 else 1
  }

  /** A section with the empty name prints nothing. */
  function Printed(section: (string, Pairs)): nat { if section.0 == "" then 0 else Readable(section.1) }

  function Readables(sections: Table<Pairs>): nat {
    if sections == [] then 0 else Readables(sections[..|sections| - 1]) + Printed(sections[|sections| - 1])
  }

  lemma {:induction false} PairsPrintLess(pairs: Pairs)
    ensures PairLineCount(PairLines(pairs)) <= Readable(pairs)
    decreases |pairs|
  {
    if pairs != [] {
      var n := |pairs| - 1;
      PairsPrintLess(pairs[..n]);
      assert PairLines(pairs)[..|PairLines(pairs)| - 1] == PairLines(pairs[..n]);
    }
  }

  lemma OneLineCount(line: string)
    ensures PairLineCount([line]) == if IsPairLine(line) then 1 else 0
  {
    assert [line][..0] == [];
  }

  lemma SectionPrintsLess(section: (string, Pairs))
    requires section.0 == "" || NameOk(section.0)
    ensures PairLineCount(SectionLines(section)) <= Printed(section)
  {
    if section.0 != "" {
      HeaderIsRead(section.0);
      OneLineCount(Header(section.0));
      OneLineCount("");
      PairsPrintLess(section.1);
      CountConcat([Header(section.0)], PairLines(section.1));
      CountConcat([Header(section.0)] + PairLines(section.1), [""]);
    }
  }

  lemma {:induction false} SectionsPrintLess(sections: Table<Pairs>)
    requires forall i | 0 <= i < |sections| :: SeenSection(sections[i])
    ensures PairLineCount(SectionsLines(sections)) <= Readables(sections)
    decreases |sections|
  {
    if sections != [] {
      var n := |sections| - 1;
      assert SeenSection(sections[n]);
      SectionsPrintLess(sections[..n]);
      SectionPrintsLess(sections[n]);
      CountConcat(SectionsLines(sections[..n]), SectionLines(sections[n]));
    }
  }

  lemma {:induction false} NoPairsInPreamble(preamble: seq<string>)
    requires forall i | 0 <= i < |preamble| :: PreambleLine(preamble[i])
    ensures PairLineCount(preamble) == 0
    decreases |preamble|
  {
    if preamble != [] {
      NoPairsInPreamble(preamble[..|preamble| - 1]);
      LackingNone(Trim(preamble[|preamble| - 1]));
    }
  }

  lemma PrintsLess(d: Doc)
    requires SeenDoc(d)
    ensures PairLineCount(DocLines(d)) <= Readables(d.sections) && PairLineCount([""]) == 0
  {
    OneLineCount("");
    NoPairsInPreamble(d.preamble);
    CountConcat(d.preamble, [""]);
    SectionsPrintLess(d.sections);
    CountConcat(PreambleLines(d.preamble), SectionsLines(d.sections));
  }

  // ---------------------------------------------------------------- tight counts

  lemma {:induction false} AllReadable(pairs: Pairs)
    ensures Readable(pairs) <= |pairs|
    ensures Readable(pairs) == |pairs| ==> forall i | 0 <= i < |pairs| :: !TakenForHeader(pairs[i])
    decreases |pairs|
  {
    hide TakenForHeader;
    if pairs != [] { AllReadable(pairs[..|pairs| - 1]); }
  }

  lemma {:induction false} CountLast(sections: Table<Pairs>)
    requires sections != []
    ensures Count(sections) == Count(sections[..|sections| - 1]) + |sections[|sections| - 1].1|
    decreases |sections|
  {
    if |sections| == 1 {
      assert Count(sections[1..]) == 0;
    } else {
      CountLast(sections[1..]);
      assert sections[1..][..|sections| - 2] == sections[..|sections| - 1][1..];
    }
  }

  ghost predicate Readably(section: (string, Pairs)) {
    section.0 != "" && forall i | 0 <= i < |section.1| :: !TakenForHeader(section.1[i])
  }

  lemma TightSection(section: (string, Pairs))
    requires SeenSection(section)
    ensures Printed(section) <= |section.1|
    ensures Printed(section) == |section.1| ==> Readably(section)
  {
    AllReadable(section.1);
    hide Readable, TakenForHeader, SeenPairs;
  }

  lemma {:induction false} TightCount(sections: Table<Pairs>)
    requires forall i | 0 <= i < |sections| :: SeenSection(sections[i])
    ensures Readables(sections) <= Count(sections)
    ensures Readables(sections) == Count(sections) ==> forall i | 0 <= i < |sections| :: Readably(sections[i])
    decreases |sections|
  {
    hide SeenSection, Readably, Printed;
    if sections != [] {
      var n := |sections| - 1;
      CountLast(sections);
      hide Count;
      TightCount(sections[..n]);
      TightSection(sections[n]);
    }
  }

  // ---------------------------------------------------------------- the preamble

  lemma {:induction false} PreambleGrows(s: State, lines: seq<string>)
    ensures s.doc.preamble <= Lines(s, lines).doc.preamble
    decreases |lines|
  {
    if lines != [] { PreambleGrows(s, lines[..|lines| - 1]); }
  }

  lemma BlankIsPreamble()
    ensures PreambleLine("")
  {
    assert Trim("") == "";
  }

  /** A preamble that ends in text gets one blank line more. */
  lemma PreambleMustEndBlank(d: Doc)
    requires SeenDoc(d) && Lines(START, DocLines(d)).doc.preamble == d.preamble && d.preamble != []
    ensures Trim(d.preamble[|d.preamble| - 1]) == ""
  {
    if Trim(d.preamble[|d.preamble| - 1]) != "" {
      BlankIsPreamble();
      PreambleIsRead(d.preamble + [""]);
      LinesConcat(START, d.preamble + [""], SectionsLines(d.sections));
      PreambleGrows(Lines(START, d.preamble + [""]), SectionsLines(d.sections));
    }
  }

  /** Nothing at all is printed as one empty line, which is read as a preamble. */
  lemma NothingIsALine()
    ensures Lines(START, [""]).doc.preamble == [""]
  {
    OneMoreLine(START, [], "");
    assert [] + [""] == [""] && Trim("") == "";
  }

  // ---------------------------------------------------------------- exactly the normal documents

  lemma SeenOnLines(d: Doc)
    requires SeenDoc(d)
    ensures forall i | 0 <= i < |d.sections| :: SectionOnLines(d.sections[i])
    ensures forall i | 0 <= i < |d.preamble| :: OneLine(d.preamble[i])
  {
    forall i | 0 <= i < |d.sections| ensures SectionOnLines(d.sections[i]) {
      assert SeenSection(d.sections[i]);
      forall k | 0 <= k < |d.sections[i].1|
        ensures OneLine(d.sections[i].1[k].0) && ValueOnOneLine(d.sections[i].1[k].1)
      {
        assert SeenPair(d.sections[i].1[k]);
      }
    }
  }

  lemma ReadableIsOk(section: (string, Pairs))
    requires SeenSection(section) && Readably(section)
    ensures SectionOk(section)
  {
    forall i | 0 <= i < |section.1| ensures PairOk(section.1[i]) { assert SeenPair(section.1[i]); }
  }

  lemma BuiltOfLines(text: string)
    ensures SeenDoc(Parse(text)) && Count(Parse(text).sections) <= PairLineCount(Split(text, '\n'))
  {
    SplitLacks(text, '\n');
    LinesSeen(Split(text, '\n'));
    LinesCount(Split(text, '\n'));
    hide Lines, SeenDoc, Split, Count, PairLineCount;
  }

  lemma PrintsNoMore(d: Doc)
    requires SeenDoc(d)
    ensures PairLineCount(Split(Print(d), '\n')) <= Readables(d.sections)
  {
    SeenOnLines(d);
    PrintedLines(d);
    hide SeenDoc, Split, Print, DocLines, PairLineCount, Readables, OneLine, SectionOnLines;
    PrintsLess(d);
  }

  /** What comes back was built by the parser, and of no more lines than it prints. */
  lemma ComesBackReadably(d: Doc)
    requires Parse(Print(d)) == d
    ensures SeenDoc(d) && forall i | 0 <= i < |d.sections| :: Readably(d.sections[i])
  {
    BuiltOfLines(Print(d));
    hide Parse, Print, Split, Count, PairLineCount, Readables, Readably, SeenSection, PreambleLine;
    PrintsNoMore(d);
    TightCount(d.sections);
  }

  lemma PreambleIsNormal(d: Doc)
    requires Parse(Print(d)) == d && SeenDoc(d)
    ensures if d.preamble == [] then d.sections != [] else Trim(d.preamble[|d.preamble| - 1]) == ""
  {
    SeenOnLines(d);
    PrintedLines(d);
    NothingIsALine();
    hide SeenDoc, Split, Print;
    if d.preamble != [] {
      PreambleMustEndBlank(d);
    }
  }

  lemma OnlyNormalComesBack(d: Doc)
    requires Parse(Print(d)) == d
    ensures Normal(d)
  {
    ComesBackReadably(d);
    PreambleIsNormal(d);
    hide Parse, Print;
    forall i | 0 <= i < |d.sections| ensures SectionOk(d.sections[i]) {
      assert SeenSection(d.sections[i]) && Readably(d.sections[i]);
      ReadableIsOk(d.sections[i]);
    }
  }

  /** Printing and then parsing gives a document back exactly when it is normal. */
  lemma RoundTripExactly(d: Doc)
    requires IsMap(d)
    ensures Parse(Print(d)) == d <==> Normal(d)
  {
    if Normal(d) { NormalComesBack(d); }
    if Parse(Print(d)) == d { OnlyNormalComesBack(d); }
  }

  /** Top-level keys are read into a section that is not printed: they never come back. */
  lemma TopLevelKeysAreLost(d: Doc, i: nat)
    requires IsMap(d) && i < |d.sections| && d.sections[i].0 == ""
    ensures Parse(Print(d)) != d
  {
    RoundTripExactly(d);
    assert !SectionOk(d.sections[i]);
  }
}
