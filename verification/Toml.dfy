/**
 * The TOML subset of the Codex adapter (src/adapters/codex.ts:19-117): its parser, its printer,
 * and exactly which documents survive being printed and parsed. A `Map` and an object with
 * string keys are lists of entries in order of first insertion.
 */
module Toml {
  import opened Strings

  type Table<T> = seq<(string, T)>

  datatype Value = Str(text: string) | Arr(items: seq<string>)

  type Pairs = Table<Value>

  datatype Doc = Doc(preamble: seq<string>, sections: Table<Pairs>)

  /** The document so far and `currentSection`. */
  datatype State = State(doc: Doc, current: string)

  const START: State := State(Doc([], []), "")

  // ---------------------------------------------------------------- tables

  function Find<T>(t: Table<T>, key: string): (i: nat)
    ensures i <= |t| && (i < |t| ==> t[i].0 == key) && forall k | 0 <= k < i :: t[k].0 != key
  {
    if t == [] || t[0].0 == key then 0 else 1 + Find(t[1..], key)
  }

  /** Setting a key that is there keeps its place; a new one goes last. */
  function Put<T>(t: Table<T>, key: string, value: T): Table<T> {
    var i := Find(t, key);
    if i < |t| then t[i := (key, value)] else t + [(key, value)]
  }

  predicate Distinct<T>(t: Table<T>) { forall i, k | 0 <= i < k < |t| :: t[i].0 != t[k].0 }

  function Section(sections: Table<Pairs>, name: string): Pairs {
    var i := Find(sections, name);
    if i < |sections| then sections[i].1 else []
  }

  // ---------------------------------------------------------------- values

  predicate IsQuote(c: char) { c == '"' || c == '\'' }

  /** `replace(/^["']|["']$/g, '')`: one quote off each end, where there is one. */
  function StripQuotes(s: string): string {
    var t := if s != "" && IsQuote(s[0]) then s[1..] else s;
    if t != "" && IsQuote(t[|t| - 1]) then t[..|t| - 1] else t
  }

  function LastIndexOf(s: string, c: char): (i: int)
    ensures -1 <= i < |s| && (i >= 0 ==> s[i] == c)
    ensures forall k | i < k < |s| :: s[k] != c
  {
    if s == "" then -1 else if s[|s| - 1] == c then |s| - 1 else LastIndexOf(s[..|s| - 1], c)
  }

  /** `raw.slice(1, raw.lastIndexOf(']'))`; a missing bracket gives -1, which counts from the end. */
  function Inner(raw: string): string
    requires raw != "" && raw[0] == '['
  {
    var end := LastIndexOf(raw, ']');
    if end >= 1 then raw[1..end] else if |raw| >= 2 then raw[1..|raw| - 1] else ""
  }

  function Items(pieces: seq<string>): seq<string> {
    if pieces == [] then []
    else
      var item := StripQuotes(Trim(pieces[0]));
      (if |item| > 0 then [item] else []) + Items(pieces[1..])
  }

  function ParseValue(raw: string): Value {
    if raw != "" && raw[0] == '[' then Arr(Items(Split(Inner(raw), ','))) else Str(StripQuotes(raw))
  }

  function Quoted(s: string): string { "\"" + s + "\"" }

  function QuotedItems(items: seq<string>): seq<string> {
    if items == [] then [] else [Quoted(items[0])] + QuotedItems(items[1..])
  }

  function PrintValue(v: Value): string {
    match v
    case Str(text) => Quoted(text)
    case Arr(items) => "[" + Join(QuotedItems(items), ", ") + "]"
  }

  // ---------------------------------------------------------------- the parser

  /** `^\[([^\]]+)\]$` on a trimmed line. */
  predicate IsHeader(t: string) {
    |t| >= 3 && t[0] == '[' && t[|t| - 1] == ']' && Lacks(t[1..|t| - 1], ']')
  }

  predicate IsComment(t: string) { t == "" || t[0] == '#' }

  /** One line. Top-level keys go to the section with the empty name. */
  function Line(s: State, line: string): State {
    var t := Trim(line);
    if IsHeader(t) then
      var name := t[1..|t| - 1];
      State(s.doc.(sections := Put(s.doc.sections, name, Section(s.doc.sections, name))), name)
    else if IsComment(t) || IndexOf(t, '=') == |t| then
      if s.current == "" then s.(doc := s.doc.(preamble := s.doc.preamble + [line])) else s
    else
      var eq := IndexOf(t, '=');
      var pairs := Put(Section(s.doc.sections, s.current), Trim(t[..eq]), ParseValue(Trim(t[eq + 1..])));
      s.(doc := s.doc.(sections := Put(s.doc.sections, s.current, pairs)))
  }

  function Lines(s: State, lines: seq<string>): State {
    if lines == [] then s else Line(Lines(s, lines[..|lines| - 1]), lines[|lines| - 1])
  }

  function Parse(text: string): Doc { Lines(START, Split(text, '\n')).doc }

  // ---------------------------------------------------------------- the printer

  function PrintPair(pair: (string, Value)): string { pair.0 + " = " + PrintValue(pair.1) }

  function PairLines(pairs: Pairs): seq<string> {
    if pairs == [] then [] else PairLines(pairs[..|pairs| - 1]) + [PrintPair(pairs[|pairs| - 1])]
  }

  function Header(name: string): string { "[" + name + "]" }

  /** A section with the empty name is skipped. */
  function SectionLines(section: (string, Pairs)): seq<string> {
    if section.0 == "" then [] else [Header(section.0)] + PairLines(section.1) + [""]
  }

  function SectionsLines(sections: Table<Pairs>): seq<string> {
    if sections == [] then [] else SectionsLines(sections[..|sections| - 1]) + SectionLines(sections[|sections| - 1])
  }

  function PreambleLines(preamble: seq<string>): seq<string> {
    if preamble != [] && Trim(preamble[|preamble| - 1]) != "" then preamble + [""] else preamble
  }

  function DocLines(d: Doc): seq<string> { PreambleLines(d.preamble) + SectionsLines(d.sections) }

  function Print(d: Doc): string { Join(DocLines(d), "\n") }

  // ---------------------------------------------------------------- the loops

  /** Meeting a section header again changes nothing; a new one adds an empty section. */
  lemma PutSame(sections: Table<Pairs>, name: string)
    ensures Put(sections, name, Section(sections, name))
         == if Find(sections, name) < |sections| then sections else sections + [(name, [])]
  {
    var i := Find(sections, name);
    if i < |sections| { assert sections[i := sections[i]] == sections; }
  }

  method ParseTOML(content: string) returns (doc: Doc)
    ensures doc == Parse(content)
  {
    var preamble: seq<string>, sections: Table<Pairs>, currentSection := [], [], "";
    hide Split, Trim, ParseValue, Put, Section;
    var lines := Split(content, '\n');
    var i := 0;
    while i < |lines|
      invariant i <= |lines| && State(Doc(preamble, sections), currentSection) == Lines(START, lines[..i])
    {
      assert lines[..i + 1][..i] == lines[..i];
      var line, trimmed := lines[i], Trim(lines[i]);
      i := i + 1;
      if IsHeader(trimmed) {
        currentSection := trimmed[1..|trimmed| - 1];
        PutSame(sections, currentSection);
        if Find(sections, currentSection) == |sections| {
          sections := sections + [(currentSection, [])];
        }
        continue;
      }
      if trimmed == "" || trimmed[0] == '#' {
        if currentSection == "" {
          preamble := preamble + [line];
        }
        continue;
      }
      var eqIdx := IndexOf(trimmed, '=');
      if eqIdx == |trimmed| {
        if currentSection == "" {
          preamble := preamble + [line];
        }
        continue;
      }
      var key, rawVal := Trim(trimmed[..eqIdx]), Trim(trimmed[eqIdx + 1..]);
      var pairs := Put(Section(sections, currentSection), key, ParseValue(rawVal));
      sections := Put(sections, currentSection, pairs);
    }
    assert lines[..i] == lines;
    return Doc(preamble, sections);
  }

  /** The inner loop of the printer: one line for each entry of a section. */
  method PushPairs(lines: seq<string>, values: Pairs) returns (more: seq<string>)
    ensures more == lines + PairLines(values)
  {
    hide PrintPair;
    more := lines;
    var k := 0;
    while k < |values|
      invariant k <= |values| && more == lines + PairLines(values[..k])
    {
      assert values[..k + 1][..k] == values[..k];
      more := more + [PrintPair(values[k])];
      k := k + 1;
    }
    assert values[..k] == values;
  }

  lemma OneMoreSection(sections: Table<Pairs>, i: nat)
    requires i < |sections|
    ensures SectionsLines(sections[..i + 1]) == SectionsLines(sections[..i]) + SectionLines(sections[i])
  {
    assert sections[..i + 1][..i] == sections[..i];
  }

  lemma NoSections()
    ensures SectionsLines([]) == []
  {
  }

  /** One turn of the printer's outer loop. */
  method PushSection(lines: seq<string>, section: (string, Pairs)) returns (more: seq<string>)
    ensures more == lines + SectionLines(section)
  {
    if section.0 == "" {
      return lines;
    }
    hide Header, PairLines;
    more := PushPairs(lines + [Header(section.0)], section.1);
    more := more + [""];
  }

  method PushSections(lines: seq<string>, sections: Table<Pairs>) returns (more: seq<string>)
    ensures more == lines + SectionsLines(sections)
  {
    hide SectionLines, SectionsLines;
    more := lines;
    ghost var printed: seq<string> := [];
    NoSections();
    assert sections[..0] == [];
    var i := 0;
    while i < |sections|
      invariant i <= |sections| && printed == SectionsLines(sections[..i]) && more == lines + printed
    {
      OneMoreSection(sections, i);
      more := PushSection(more, sections[i]);
      printed := printed + SectionLines(sections[i]);
      i := i + 1;
    }
    assert sections[..i] == sections;
  }

  /** What the printer does before its loop: a blank line after a preamble that ends in text. */
  method PushPreamble(preamble: seq<string>) returns (lines: seq<string>)
    ensures lines == PreambleLines(preamble)
  {
    hide Trim;
    lines := preamble;
    if |lines| > 0 && Trim(lines[|lines| - 1]) != "" {
      lines := lines + [""];
    }
  }

  method SerializeTOML(doc: Doc) returns (text: string)
    ensures text == Print(doc)
  {
    hide PreambleLines, SectionsLines, Join;
    var lines := PushPreamble(doc.preamble);
    lines := PushSections(lines, doc.sections);
    return Join(lines, "\n");
  }
}
