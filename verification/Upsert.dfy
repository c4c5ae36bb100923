/**
 * The marked block in a user's instruction file (src/adapters/common.ts:326-425): found by
 * its markers, replaced between them, appended when there is none; an old unmarked section is
 * only touched when forced.
 */
module Upsert {
  import opened Prelude
  import opened Strings

  /** The opening marker, in lengths a proof can look at character by character. */
  function Begin(): string { Opening() + (Warning() + Advice()) }

  function Opening(): string { "<!-- AWM:GENERATED:BEGIN " }

  function Warning(): string { "\U{2014} this block is " + ("REPLACED by `awm " + "setup`. ") }

  function Advice(): string {
    "Put your own notes " + ("OUTSIDE these markers " + ("and they will " + "survive upgrades. -->"))
  }

  function End(): string { "<!-- AWM:GENERATED:END -->" }

  function Wrap(content: string): string { Begin() + "\n" + Trim(content) + "\n" + End() }

  // ---------------------------------------------------------------- finding things

  predicate At(s: string, p: string, i: nat) { i + |p| <= |s| && s[i..i + |p|] == p }

  ghost predicate Has(s: string, p: string) { exists i: nat :: At(s, p, i) }

  /** `indexOf`, from a place on: the first occurrence, or -1. */
  function IndexFrom(s: string, p: string, from: nat): (i: int)
    ensures i >= 0 ==> i >= from && At(s, p, i) && forall k: nat | from <= k < i :: !At(s, p, k)
    ensures i < 0 ==> i == -1 && forall k: nat | from <= k :: !At(s, p, k)
    decreases |s| - from
  {
    if from + |p| > |s| then -1
    else if s[from..from + |p|] == p then from
    else IndexFrom(s, p, from + 1)
  }

  function Index(s: string, p: string): int { IndexFrom(s, p, 0) }

  predicate LineStart(s: string, i: nat)
    requires i <= |s|
  {
    i == 0 || s[i - 1] == '\n' || s[i - 1] == '\r' || s[i - 1] == '\U{2028}' || s[i - 1] == '\U{2029}'
  }

  const MEMORY: string := "Memory (AWM)"

  /** `^## Memory \(AWM\)` in multiline mode. */
  function SectionStart(s: string, from: nat): (i: int)
    ensures i == -1 || from <= i <= |s|
    decreases |s| - from
  {
    if from > |s| then -1
    else if LineStart(s, from) && At(s, "## " + MEMORY, from) then from
    else SectionStart(s, from + 1)
  }

  /** `[^\n]*$`: the match goes on to the end of the line. */
  function LineEnd(s: string, from: nat): (i: nat)
    requires from <= |s|
    ensures from <= i <= |s|
    decreases |s| - from
  {
    if from == |s| || s[from] == '\n' then from else LineEnd(s, from + 1)
  }

  /** `^## (?!Memory \(AWM\))` in multiline mode; the end of the text when there is none. */
  function NextHeading(s: string, from: nat): (i: nat)
    requires from <= |s|
    ensures from <= i <= |s|
    decreases |s| - from
  {
    if from == |s| then from
    else if LineStart(s, from) && At(s, "## ", from) && !At(s, MEMORY, from + 3) then from
    else NextHeading(s, from + 1)
  }

  /** `^\s*\n`: white space at the start, up to its last newline. */
  function DropBlankLines(s: string): string {
    var k := BlankPrefix(s, 0);
    s[k..]
  }

  function BlankPrefix(s: string, from: nat): (k: nat)
    requires from <= |s|
    ensures k == 0 || from < k <= |s|
    decreases |s| - from
  {
    if from == |s| || !IsSpace(s[from]) then 0
    else
      var more := BlankPrefix(s, from + 1);
      if more > 0 then more else if s[from] == '\n' then from + 1 else 0
  }

  // ---------------------------------------------------------------- the upsert

  datatype Options = Options(title: string, suffix: string, force: bool)

  datatype Status = WasCreated | UpToDate | Updated | Appended | BackedUp | NoBackup | Replaced

  /** The file, and the backups made of it. */
  datatype Place = Place(text: Option<string>, backups: seq<string>)

  predicate Marked(s: string) { Index(s, Begin()) != -1 && Index(s, End()) > Index(s, Begin()) }

  /** The text with the block between the first markers replaced. */
  function WithBlock(s: string, content: string): string
    requires Marked(s)
  {
    s[..Index(s, Begin())] + Wrap(content) + s[Index(s, End()) + |End()|..]
  }

  function Block(s: string): string
    requires Marked(s)
  {
    s[Index(s, Begin())..Index(s, End()) + |End()|]
  }

  lemma MarkedBounds(s: string)
    requires Marked(s)
    ensures 0 <= Index(s, Begin()) < Index(s, End()) && Index(s, End()) + |End()| <= |s|
  {
  }

  /** Where the unmarked section ends: the next other heading below its first line. */
  function SectionEnd(s: string, start: nat): (i: nat)
    requires start <= |s|
    ensures start <= i <= |s|
  {
    var after := LineEnd(s, start);
    var tail := s[after..];
    after + NextHeading(tail, 0)
  }

  function Rebuilt(s: string, start: nat, end: nat, content: string, o: Options): string
    requires start <= end <= |s|
  {
    var before, after := TrimEnd(s[..start]), DropBlankLines(s[end..]);
    (if before != "" then before + "\n\n" else "") + Wrap(content) + o.suffix
    + (if after != "" then "\n\n" + after else "\n")
  }

  /** `backupOk` says whether a backup file can be written. */
  function Refresh(p: Place, content: string, o: Options, backupOk: bool): (Place, Status) {
    match p.text
    case None => (p.(text := Some(o.title + "\n\n" + Wrap(content) + o.suffix)), WasCreated)
    case Some(s) =>
      if Marked(s) then
        if TrimEnd(Block(s)) == TrimEnd(Wrap(content)) then (p, UpToDate)
        else (p.(text := Some(WithBlock(s, content))), Updated)
      else
        var start := SectionStart(s, 0);
        if start == -1 then (p.(text := Some(TrimEnd(s) + "\n\n" + Wrap(content) + o.suffix)), Appended)
        else
          var end := SectionEnd(s, start);
          if TrimEnd(s[start..end]) == TrimEnd(content + o.suffix) then (p, UpToDate)
          else if !o.force then
            if backupOk then (p.(backups := p.backups + [s]), BackedUp) else (p, NoBackup)
          else (p.(text := Some(Rebuilt(s, start, end, content, o))), Replaced)
  }

  // ---------------------------------------------------------------- the markers

  /** Nothing but its first character is a `<`, and it is on one line. */
  predicate OneTag(p: string) { |p| > 19 && p[0] == '<' && (forall i | 0 < i < |p| :: p[i] != '<') && Lacks(p, '\n') }

  predicate Plain(s: string) { Lacks(s, '<') && Lacks(s, '\n') }

  lemma PlainParts()
    ensures Plain(Warning()) && Plain(Advice())
  {
    assert Plain("\U{2014} this block is ") && Plain("REPLACED by `awm ") && Plain("setup`. ");
    assert Plain("Put your own notes ") && Plain("OUTSIDE these markers ");
    assert Plain("and they will ") && Plain("survive upgrades. -->");
  }

  lemma TagAndPlain(tag: string, rest: string)
    requires OneTag(tag) && Plain(rest)
    ensures OneTag(tag + rest) && (tag + rest)[19] == tag[19]
  {
  }

  lemma TagParts()
    ensures OneTag(Opening()) && OneTag(End()) && Opening()[19] == 'B' && End()[19] == 'E'
  {
  }

  lemma MarkersAreTags()
    ensures OneTag(Begin()) && OneTag(End()) && Begin()[19] != End()[19]
  {
    hide Opening, Warning, Advice, End;
    TagParts();
    PlainParts();
    TagAndPlain(Opening(), Warning() + Advice());
  }

  lemma OccursOnce(s: string, p: string, i: nat)
    requires At(s, p, i) && forall k: nat | k < i :: !At(s, p, k)
    ensures Index(s, p) == i
  {
  }

  lemma AtChars(s: string, p: string, i: nat, k: nat)
    requires At(s, p, i) && k < |p|
    ensures s[i + k] == p[k]
  {
    assert s[i..i + |p|][k] == p[k];
  }

  /** A tag that begins before a `<` in the text ends at or before it. */
  lemma TagEndsBefore(s: string, p: string, i: nat, lt: nat)
    requires OneTag(p) && At(s, p, i) && i < lt < |s| && s[lt] == '<'
    ensures i + |p| <= lt
  {
    if i + |p| > lt {
      AtChars(s, p, i, lt - i);
    }
  }

  /** A tag that begins before a newline in the text ends at or before it. */
  lemma TagEndsOnLine(s: string, p: string, i: nat, nl: nat)
    requires OneTag(p) && At(s, p, i) && i <= nl < |s| && s[nl] == '\n'
    ensures i + |p| <= nl
  {
    if i + |p| > nl { AtChars(s, p, i, nl - i); }
  }

  lemma AtIn(a: string, b: string, p: string, i: nat)
    requires At(a + b, p, i) && i + |p| <= |a|
    ensures At(a, p, i)
  {
    assert a[i..i + |p|] == (a + b)[i..i + |p|];
  }

  /** In text, a tag and more text, the tag is found right after text that lacks it. */
  lemma TagIsFirst(a: string, p: string, b: string)
    requires OneTag(p) && !Has(a, p)
    ensures Index(a + p + b, p) == |a|
  {
    var s := a + p + b;
    assert s[|a|..|a| + |p|] == p && s[|a|] == '<';
    assert s == a + (p + b);
    if k: nat :| k < |a| && At(s, p, k) {
      TagEndsBefore(s, p, k, |a|);
      AtIn(a, p + b, p, k);
    } else {
      OccursOnce(s, p, |a|);
    }
  }

  /** One tag does not begin inside another, different one. */
  lemma TagsApart(s: string, p: string, q: string, i: nat, k: nat)
    requires OneTag(p) && OneTag(q) && p[19] != q[19] && At(s, p, i) && At(s, q, k) && i <= k
    ensures i + |p| <= k
  {
    if i < k < i + |p| {
      AtChars(s, q, k, 0);
      AtChars(s, p, i, k - i);
    } else if k == i {
      AtChars(s, p, i, 19);
      AtChars(s, q, k, 19);
    }
  }

  /** The closing tag is the one after a line of text that lacks it. */
  lemma CloseIsFirst(a: string, p: string, c: string, q: string, b: string)
    requires OneTag(p) && OneTag(q) && p[19] != q[19] && !Has(a, q) && !Has(c, q)
    ensures Index(a + (p + "\n" + c + "\n" + q) + b, q) == |a| + |p| + |c| + 2
  {
    var s := a + (p + "\n" + c + "\n" + q) + b;
    var e := |a| + |p| + |c| + 2;
    assert s[e..e + |q|] == q;
    assert s[|a|..|a| + |p|] == p && s[|a|] == '<';
    assert s[|a| + |p|] == '\n' && s[e - 1] == '\n';
    assert s[|a| + |p| + 1..e - 1] == c;
    assert s[..|a|] == a;
    if k: nat :| k < e && At(s, q, k) {
      NoEarlierClose(s, a, p, c, q, k);
    } else {
      OccursOnce(s, q, e);
    }
  }

  lemma SliceAt(s: string, lo: nat, hi: nat, p: string, k: nat)
    requires lo <= k && k + |p| <= hi <= |s| && At(s, p, k)
    ensures At(s[lo..hi], p, k - lo)
  {
    var t, i := s[lo..hi], k - lo;
    var x, y := t[i..i + |p|], s[k..k + |p|];
    forall j | 0 <= j < |p| ensures x[j] == y[j] { assert x[j] == t[i + j] == s[k + j]; }
    assert x == y;
  }

  /** An occurrence of the closing tag before its place would be in the text before, or in the content. */
  lemma NoEarlierClose(s: string, a: string, p: string, c: string, q: string, k: nat)
    requires OneTag(p) && OneTag(q) && p[19] != q[19]
    requires |s| >= |a| + |p| + |c| + 2 && s[..|a|] == a && At(s, p, |a|) && s[|a|] == '<'
    requires s[|a| + |p|] == '\n' && s[|a| + |p| + |c| + 1] == '\n' && s[|a| + |p| + 1..|a| + |p| + |c| + 1] == c
    requires At(s, q, k) && k < |a| + |p| + |c| + 2
    ensures Has(a, q) || Has(c, q)
  {
    var nl, last := |a| + |p|, |a| + |p| + |c| + 1;
    if k < |a| {
      TagEndsBefore(s, q, k, |a|);
      SliceAt(s, 0, |a|, q, k);
    } else if k <= nl {
      AtChars(s, q, k, 0);
      if k < nl { TagsApart(s, p, q, |a|, k); }
    } else {
      TagEndsOnLine(s, q, k, last);
      SliceAt(s, nl + 1, last, q, k);
    }
  }

  // ---------------------------------------------------------------- a framed block is found and is stable

  lemma BlockCloses(a: string, content: string, b: string)
    requires !Has(a, End()) && !Has(Trim(content), End())
    ensures Index(a + Wrap(content) + b, End()) + |End()| == |a| + |Wrap(content)|
    ensures Index(a + Wrap(content) + b, End()) > |a|
  {
    MarkersAreTags();
    var begin, c, end := Begin(), Trim(content), End();
    hide Begin, End, Trim;
    assert Wrap(content) == begin + "\n" + c + "\n" + end;
    CloseIsFirst(a, begin, c, end, b);
  }

  lemma BlockOpens(a: string, content: string, b: string)
    requires !Has(a, Begin())
    ensures Index(a + Wrap(content) + b, Begin()) == |a|
  {
    MarkersAreTags();
    var begin, rest := Begin(), "\n" + Trim(content) + "\n" + End();
    hide Begin, End, Trim;
    assert Wrap(content) == begin + rest;
    assert a + (begin + rest) + b == a + begin + (rest + b);
    TagIsFirst(a, begin, rest + b);
  }

  /** Text without markers, the block, any text: the block is the one the markers find. */
  lemma BlockIsFound(a: string, content: string, b: string)
    requires !Has(a, Begin()) && !Has(a, End()) && !Has(Trim(content), End())
    ensures var s := a + Wrap(content) + b;
      Marked(s) && Block(s) == Wrap(content) && Index(s, Begin()) == |a|
        && Index(s, End()) + |End()| == |a| + |Wrap(content)|
  {
    BlockOpens(a, content, b);
    BlockCloses(a, content, b);
    var s := a + Wrap(content) + b;
    hide Begin, End, Wrap, Index;
    assert s[|a|..|a| + |Wrap(content)|] == Wrap(content);
  }

  /** Running again on such a file changes nothing. */
  lemma FramedIsStable(p: Place, a: string, content: string, b: string, o: Options, backupOk: bool)
    requires !Has(a, Begin()) && !Has(a, End()) && !Has(Trim(content), End())
    requires p.text == Some(a + Wrap(content) + b)
    ensures Refresh(p, content, o, backupOk) == (p, UpToDate)
  {
    BlockIsFound(a, content, b);
    hide Wrap, Marked, Block;
  }

  // ---------------------------------------------------------------- the promises

  lemma PrefixAt(s: string, n: nat, p: string, k: nat)
    requires n <= |s| && At(s[..n], p, k)
    ensures At(s, p, k) && k + |p| <= n
  {
    assert s[k..k + |p|] == s[..n][k..k + |p|];
  }

  lemma NoMarkerInFront(s: string, n: nat, p: string)
    requires !Has(s, p) && n <= |s|
    ensures !Has(s[..n], p)
  {
    if Has(s[..n], p) {
      var k: nat :| At(s[..n], p, k);
      PrefixAt(s, n, p, k);
    }
  }

  lemma BeforeFirst(s: string, p: string, n: nat)
    requires p != "" && n <= |s| && forall k: nat | k < n :: !At(s, p, k)
    ensures !Has(s[..n], p)
  {
    if Has(s[..n], p) {
      var k: nat :| At(s[..n], p, k);
      PrefixAt(s, n, p, k);
    }
  }

  lemma BeforeFirstMarkers(s: string)
    requires Marked(s)
    ensures var a := s[..Index(s, Begin())]; !Has(a, Begin()) && !Has(a, End())
  {
    MarkersAreTags();
    var begin, end := Begin(), End();
    hide Begin, End;
    BeforeFirst(s, begin, Index(s, begin));
    BeforeFirst(s, end, Index(s, begin));
  }

  /** On a marked file the block is compared and replaced as it stands. */
  lemma MarkedStep(p: Place, s: string, content: string, o: Options, ok: bool)
    requires p.text == Some(s) && Marked(s)
    ensures Refresh(p, content, o, ok) ==
      if Block(s) == Wrap(content) then (p, UpToDate) else (p.(text := Some(WithBlock(s, content))), Updated)
  {
    BlockEndsTight(s);
    WrapEndsTight(content);
    hide Wrap, Block, WithBlock, Marked, SectionStart, SectionEnd, Rebuilt, TrimEnd;
  }

  lemma Around(s: string, content: string)
    requires Marked(s)
    ensures s == s[..Index(s, Begin())] + Block(s) + s[Index(s, End()) + |End()|..]
  {
    hide Begin, End;
  }

  /**
   * A file whose first BEGIN comes before its first END: everything before the one and after
   * the other is kept to the letter, what is between becomes the new block, and running again
   * changes nothing. The new content must not contain the END marker.
   */
  lemma MarkedFileIsFramed(p: Place, s: string, content: string, o: Options, o': Options, ok: bool, ok': bool)
    requires p.text == Some(s) && Marked(s) && !Has(Trim(content), End())
    ensures var (q, status) := Refresh(p, content, o, ok);
      q.backups == p.backups && q.text == Some(s[..Index(s, Begin())] + Wrap(content) + s[Index(s, End()) + |End()|..])
      && (status.UpToDate? ==> q == p) && Refresh(q, content, o', ok') == (q, UpToDate)
  {
    BeforeFirstMarkers(s);
    MarkedStep(p, s, content, o, ok);
    Around(s, content);
    var a, b := s[..Index(s, Begin())], s[Index(s, End()) + |End()|..];
    hide Begin, End, Wrap, Block, Marked, Refresh, Has;
    FramedIsStable(p.(text := Some(a + Wrap(content) + b)), a, content, b, o', ok');
  }

  lemma WrapEndsTight(content: string)
    ensures TrimEnd(Wrap(content)) == Wrap(content)
  {
    var w := Wrap(content);
    assert w[|w| - 1] == End()[|End()| - 1] == '>';
  }

  lemma BlockEndsTight(s: string)
    requires Marked(s)
    ensures TrimEnd(Block(s)) == Block(s)
  {
    var b, e := Block(s), Index(s, End());
    AtChars(s, End(), e, |End()| - 1);
    assert b[|b| - 1] == s[e + |End()| - 1] == '>';
  }

  lemma NoMarkerAdded(s: string, p: string)
    requires !Has(s, p) && OneTag(p)
    ensures !Has(TrimEnd(s), p) && !Has(TrimEnd(s) + "\n\n", p) && !Has(s + "\n\n", p)
  {
    TrimEndIs(s);
    NoMarkerInFront(s, |TrimEnd(s)|, p);
    NoMarkerInBlankLines(TrimEnd(s), p);
    NoMarkerInBlankLines(s, p);
  }

  lemma InBlankLines(t: string, p: string, k: nat)
    requires OneTag(p) && At(t + "\n\n", p, k)
    ensures At(t, p, k)
  {
    var u := t + "\n\n";
    assert u[|t|] == '\n' && u[|t| + 1] == '\n';
    AtChars(u, p, k, 0);
    TagEndsOnLine(u, p, k, |t|);
    AtIn(t, "\n\n", p, k);
  }

  lemma NoMarkerInBlankLines(t: string, p: string)
    requires !Has(t, p) && OneTag(p)
    ensures !Has(t + "\n\n", p)
  {
    if Has(t + "\n\n", p) {
      var k: nat :| At(t + "\n\n", p, k);
      InBlankLines(t, p, k);
    }
  }

  /**
   * A new file, or a file with neither a marker nor a section: the block is put at the end, and running again
   * is a no-op.
   */
  lemma AppendThenStable(p: Place, content: string, o: Options, o': Options, ok: bool, ok': bool)
    requires !Has(Trim(content), End())
    requires match p.text
      case None => !Has(o.title, Begin()) && !Has(o.title, End())
      case Some(s) => !Has(s, Begin()) && !Has(s, End()) && SectionStart(s, 0) == -1
    ensures var (q, status) := Refresh(p, content, o, ok);
      q.text == Some((if p.text.Some? then TrimEnd(p.text.value) else o.title) + "\n\n" + Wrap(content) + o.suffix)
      && status == (if p.text.Some? then Appended else WasCreated)
      && Refresh(q, content, o', ok') == (q, UpToDate)
  {
    MarkersAreTags();
    var q := Refresh(p, content, o, ok).0;
    var kept := if p.text.Some? then TrimEnd(p.text.value) else o.title;
    hide Begin, End, Wrap;
    if p.text.Some? {
      NoMarkerAdded(p.text.value, Begin());
      NoMarkerAdded(p.text.value, End());
      Unmarked(p.text.value);
    } else {
      NoMarkerAdded(o.title, Begin());
      NoMarkerAdded(o.title, End());
    }
    assert q.text == Some(kept + "\n\n" + Wrap(content) + o.suffix);
    FramedIsStable(q, kept + "\n\n", content, o.suffix, o', ok');
  }

  /** One run of the tool: its content and options, and whether a backup can be written. */
  datatype Setup = Setup(content: string, options: Options, backupOk: bool)

  function RefreshAll(p: Place, runs: seq<Setup>): Place
    decreases |runs|
  {
    if runs == [] then p
    else RefreshAll(Refresh(p, runs[0].content, runs[0].options, runs[0].backupOk).0, runs[1..])
  }

  /** The unmarked section is not what the run would write. */
  predicate OutOfDate(s: string, r: Setup)
    requires SectionStart(s, 0) != -1
  {
    var start := SectionStart(s, 0);
    TrimEnd(s[start..SectionEnd(s, start)]) != TrimEnd(r.content + r.options.suffix)
  }

  /** One copy for each run that found the section out of date and could write a backup. */
  function Copies(s: string, runs: seq<Setup>): seq<string>
    requires SectionStart(s, 0) != -1
  {
    if runs == [] then []
    else (if OutOfDate(s, runs[0]) && runs[0].backupOk then [s] else []) + Copies(s, runs[1..])
  }

  /**
   * Without force an unmarked section is never touched: up to date, backed up, or left because no backup can
   * be made.
   */
  lemma LegacyStep(p: Place, s: string, r: Setup)
    requires p.text == Some(s) && !Marked(s) && SectionStart(s, 0) != -1 && !r.options.force
    ensures Refresh(p, r.content, r.options, r.backupOk) ==
      (Place(Some(s), p.backups + if OutOfDate(s, r) && r.backupOk then [s] else []),
       if !OutOfDate(s, r) then UpToDate else if r.backupOk then BackedUp else NoBackup)
  {
    hide Marked, SectionStart, SectionEnd, TrimEnd, Wrap, Rebuilt;
    assert p.backups + [] == p.backups;
  }

  /** However often the tool runs without force, the unmarked section stays as it is; copies are all that is made. */
  lemma {:induction false} LegacyIsLeftAlone(p: Place, s: string, runs: seq<Setup>)
    requires p.text == Some(s) && !Marked(s) && SectionStart(s, 0) != -1
    requires forall i | 0 <= i < |runs| :: !runs[i].options.force
    ensures RefreshAll(p, runs) == Place(Some(s), p.backups + Copies(s, runs))
    decreases |runs|
  {
    if runs == [] {
      assert p.backups + [] == p.backups;
    } else {
      var r := runs[0];
      var q := Refresh(p, r.content, r.options, r.backupOk).0;
      hide Marked, Refresh, OutOfDate, SectionStart, SectionEnd, TrimEnd;
      var made := if OutOfDate(s, r) && r.backupOk then [s] else [];
      LegacyStep(p, s, r);
      LegacyIsLeftAlone(q, s, runs[1..]);
      Reassociate(p.backups, made, Copies(s, runs[1..]));
    }
  }

  /** The text above the section, with a blank line after it if there is any. */
  function Above(s: string, start: nat): string
    requires start <= |s|
  {
    if TrimEnd(s[..start]) != "" then TrimEnd(s[..start]) + "\n\n" else ""
  }

  /** The suffix, and the text from the next heading on. */
  function Below(s: string, end: nat, suffix: string): string
    requires end <= |s|
  {
    suffix + if DropBlankLines(s[end..]) != "" then "\n\n" + DropBlankLines(s[end..]) else "\n"
  }

  lemma RebuiltAround(s: string, start: nat, end: nat, content: string, o: Options)
    requires start <= end <= |s|
    ensures Rebuilt(s, start, end, content, o) == Above(s, start) + Wrap(content) + Below(s, end, o.suffix)
  {
    hide Wrap, TrimEnd, DropBlankLines;
  }

  lemma NothingIn(p: string)
    requires p != ""
    ensures !Has("", p)
  {
  }

  // ---------------------------------------------------------------- when the block is found again

  lemma Unmarked(s: string)
    requires !Has(s, Begin())
    ensures !Marked(s)
  {
  }

  lemma Unclosed(s: string)
    requires !Has(s, End())
    ensures !Marked(s)
  {
  }

  lemma EndsInAngle()
    ensures Begin()[|Begin()| - 1] == '>' && End()[|End()| - 1] == '>'
  {
    assert "survive upgrades. -->"[20] == '>';
    assert Advice()[|Advice()| - 1] == '>';
    hide Opening, Warning, Advice;
  }

  lemma {:induction false} KeepsNonSpace(s: string, i: nat)
    requires i < |s| && !IsSpace(s[i])
    ensures i < |TrimEnd(s)|
    decreases |s|
  {
    if IsSpace(s[|s| - 1]) { KeepsNonSpace(s[..|s| - 1], i); }
  }

  /** The first occurrence of a tag survives the trimming of the text, and is first in it. */
  lemma FirstInTrimmed(s: string, p: string)
    requires OneTag(p) && p[|p| - 1] == '>' && Has(s, p)
    ensures var i := Index(s, p);
      i >= 0 && i + |p| <= |TrimEnd(s)| && At(TrimEnd(s), p, i) && forall k: nat | k < i :: !At(TrimEnd(s), p, k)
    ensures TrimEnd(s) <= s
  {
    TrimEndIs(s);
    var i, t := Index(s, p), TrimEnd(s);
    assert i >= 0;
    AtChars(s, p, i, |p| - 1);
    KeepsNonSpace(s, i + |p| - 1);
    SliceAt(s, 0, |t|, p, i);
    forall k: nat | k < i ensures !At(t, p, k) {
      if At(t, p, k) { PrefixAt(s, |t|, p, k); }
    }
  }

  /** The first occurrence inside a text is still the first with more text behind it. */
  lemma SameFirst(t: string, more: string, p: string, i: nat)
    requires i + |p| <= |t| && At(t, p, i) && forall k: nat | k < i :: !At(t, p, k)
    ensures Index(t + more, p) == i
  {
    var u := t + more;
    assert u[i..i + |p|] == t[i..i + |p|];
    if k: nat :| k < i && At(u, p, k) {
      AtIn(t, more, p, k);
    } else {
      OccursOnce(u, p, i);
    }
  }

  /** What is found in a text is found there with more text behind it. */
  lemma StillFirst(t: string, more: string, p: string)
    requires Index(t, p) >= 0
    ensures Index(t + more, p) == Index(t, p)
  {
    var i := Index(t, p);
    SameFirst(t, more, p, i);
  }

  /** Trimming a text and ending it with a blank line neither moves nor makes a marker. */
  lemma KeptMarkers(s: string, p: string)
    requires OneTag(p) && p[|p| - 1] == '>'
    ensures Index(TrimEnd(s) + "\n\n", p) == Index(s, p)
    ensures Has(TrimEnd(s) + "\n\n", p) <==> Has(s, p)
  {
    if Has(s, p) {
      FirstInTrimmed(s, p);
      SameFirst(TrimEnd(s), "\n\n", p, Index(s, p));
    } else {
      NoMarkerAdded(s, p);
    }
  }

  lemma AboveMarkers(s: string, start: nat, p: string)
    requires start <= |s| && OneTag(p) && p[|p| - 1] == '>'
    ensures Index(Above(s, start), p) == Index(s[..start], p)
    ensures Has(Above(s, start), p) <==> Has(s[..start], p)
  {
    if Has(s[..start], p) { FirstInTrimmed(s[..start], p); }
    if TrimEnd(s[..start]) == "" { NothingIn(p); } else { KeptMarkers(s[..start], p); }
  }

  lemma MarkedPrefix(s: string, n: nat)
    requires n <= |s| && !Marked(s)
    ensures !Marked(s[..n])
  {
    var begin, end := Begin(), End();
    hide Begin, End;
    assert s[..n] + s[n..] == s;
    if Marked(s[..n]) {
      StillFirst(s[..n], s[n..], begin);
      StillFirst(s[..n], s[n..], end);
    }
  }

  /** The block stands between two texts and the markers find it. */
  ghost predicate FoundBetween(a: string, content: string, b: string) {
    var u := a + Wrap(content) + b;
    Marked(u) && Block(u) == Wrap(content)
  }

  /** A stray END stays in front of every BEGIN: a block behind it is not found. */
  lemma StrayEndHides(a: string, content: string, b: string)
    requires !Marked(a) && Has(a, End())
    ensures !Marked(a + Wrap(content) + b)
  {
    var w, begin, end := Wrap(content), Begin(), End();
    assert Index(a, end) >= 0;
    assert Has(a, begin) ==> Index(a, begin) >= 0;
    StillFirst(a, w + b, end);
    if Has(a, begin) { StillFirst(a, w + b, begin); } else { BlockOpens(a, content, b); }
    hide Begin, End, Wrap;
    assert a + w + b == a + (w + b);
  }

  lemma FirstIsInside(a: string, w: string, b: string, p: string)
    requires Has(a, p)
    ensures 0 <= Index(a, p) && Index(a, p) + |p| <= |a| && Index(a + w + b, p) == Index(a, p)
  {
    assert Index(a, p) >= 0;
    StillFirst(a, w + b, p);
    hide Has, Index;
    assert a + w + b == a + (w + b);
  }

  lemma StrayIndices(a: string, content: string, b: string)
    requires Has(a, Begin()) && !Has(a, End()) && !Has(Trim(content), End())
    ensures var u := a + Wrap(content) + b;
      0 <= Index(a, Begin()) == Index(u, Begin()) && Index(a, Begin()) + |Begin()| <= |a| && |Begin()| > 0
      && Index(u, End()) + |End()| == |a| + |Wrap(content)| && Index(u, End()) > |a|
  {
    hide Begin, End, Wrap, Index, Trim, Has;
    MarkersAreTags();
    BlockCloses(a, content, b);
    FirstIsInside(a, Wrap(content), b, Begin());
  }

  /** With a stray BEGIN the markers find a longer block, from there to the new END. */
  lemma StrayBeginTakes(a: string, content: string, b: string)
    requires Has(a, Begin()) && !Has(a, End()) && !Has(Trim(content), End())
    ensures var u := a + Wrap(content) + b;
      Index(u, Begin()) == Index(a, Begin()) >= 0 && Index(a, Begin()) <= |a|
      && Marked(u) && Index(u, End()) + |End()| == |a| + |Wrap(content)| && Block(u) != Wrap(content)
  {
    StrayIndices(a, content, b);
    hide Begin, End, Wrap, Index, Has, Trim;
    assert |Block(a + Wrap(content) + b)| > |Wrap(content)|;
  }

  /** Between any two texts, the first not itself marked, the block is found exactly when no marker is above it. */
  lemma FoundExactly(a: string, content: string, b: string)
    requires !Marked(a) && !Has(Trim(content), End())
    ensures FoundBetween(a, content, b) <==> !Has(a, Begin()) && !Has(a, End())
  {
    if Has(a, End()) {
      StrayEndHides(a, content, b);
    } else if Has(a, Begin()) {
      StrayBeginTakes(a, content, b);
    } else {
      BlockIsFound(a, content, b);
    }
    hide Begin, End, Wrap, Index, Has, Marked, Block;
  }

  lemma FoundIsStable(q: Place, a: string, content: string, b: string, o: Options, ok: bool)
    requires q.text == Some(a + Wrap(content) + b) && FoundBetween(a, content, b)
    ensures Refresh(q, content, o, ok) == (q, UpToDate)
  {
    hide Wrap, Marked, Block;
  }

  /** Where a stray BEGIN is above the block, the next run replaces everything from it to the new END. */
  lemma StrayIsTaken(q: Place, a: string, content: string, b: string, o: Options, ok: bool)
    requires q.text == Some(a + Wrap(content) + b)
    requires Has(a, Begin()) && !Has(a, End()) && !Has(Trim(content), End())
    ensures 0 <= Index(a, Begin()) <= |a|
    ensures Refresh(q, content, o, ok) == (q.(text := Some(a[..Index(a, Begin())] + Wrap(content) + b)), Updated)
  {
    StrayBeginTakes(a, content, b);
    var u, w := q.text.value, Wrap(content);
    MarkedStep(q, u, content, o, ok);
    hide Wrap, Begin, End, Refresh, Marked, Index, Block, Has;
    Ends(a, w, b, Index(a, Begin()));
  }

  lemma Ends(a: string, w: string, b: string, n: nat)
    requires n <= |a|
    ensures var u := a + w + b; u[..n] == a[..n] && u[|a| + |w|..] == b
  {
  }

  // ---------------------------------------------------------------- a block appended

  lemma AppendedAbove(s: string)
    ensures var a := TrimEnd(s) + "\n\n";
      Index(a, Begin()) == Index(s, Begin()) && (Has(a, Begin()) <==> Has(s, Begin()))
      && Index(a, End()) == Index(s, End()) && (Has(a, End()) <==> Has(s, End())) && (Marked(a) <==> Marked(s))
  {
    MarkersAreTags();
    EndsInAngle();
    var begin, end := Begin(), End();
    hide Begin, End, Index, Has, TrimEnd;
    KeptMarkers(s, begin);
    KeptMarkers(s, end);
  }

  /** An appended block is found again exactly when the file had neither marker before. */
  lemma AppendExactly(s: string, content: string, suffix: string)
    requires !Marked(s) && !Has(Trim(content), End())
    ensures FoundBetween(TrimEnd(s) + "\n\n", content, suffix) <==> !Has(s, Begin()) && !Has(s, End())
  {
    AppendedAbove(s);
    FoundExactly(TrimEnd(s) + "\n\n", content, suffix);
  }

  lemma Appending(p: Place, s: string, content: string, o: Options, ok: bool)
    requires p.text == Some(s) && !Marked(s) && SectionStart(s, 0) == -1
    ensures Refresh(p, content, o, ok) == (p.(text := Some(TrimEnd(s) + "\n\n" + Wrap(content) + o.suffix)), Appended)
  {
    hide Wrap, TrimEnd, Marked;
  }

  /**
   * A BEGIN without an END is not a block: the first run appends one, and the second run takes
   * everything from the stray BEGIN to the new END for it, so the text between is lost.
   */
  lemma StrayBeginLosesText(p: Place, s: string, content: string, o: Options, o': Options, ok: bool, ok': bool)
    requires p.text == Some(s) && SectionStart(s, 0) == -1
    requires Has(s, Begin()) && !Has(s, End()) && !Has(Trim(content), End())
    ensures var q := Refresh(p, content, o, ok).0;
      var (r, status) := Refresh(q, content, o', ok');
      var stray := Index(s, Begin());
      0 <= stray <= |s| && status.Updated? && q.text == Some(TrimEnd(s) + "\n\n" + Wrap(content) + o.suffix)
      && r.text == Some(s[..stray] + Wrap(content) + o.suffix)
  {
    var a, q := TrimEnd(s) + "\n\n", Refresh(p, content, o, ok).0;
    Unclosed(s);
    Appending(p, s, content, o, ok);
    AppendedAbove(s);
    StrayIsTaken(q, a, content, o.suffix, o', ok');
    StrayPrefix(s);
    hide Wrap, TrimEnd, Begin, End, Refresh, Has, SectionStart, Index, Marked;
  }

  /** The text in front of a stray BEGIN is not touched by trimming. */
  lemma StrayPrefix(s: string)
    requires Has(s, Begin())
    ensures TrimEnd(s) != ""
    ensures var i := Index(s, Begin()); 0 <= i <= |TrimEnd(s)| <= |s| && (TrimEnd(s) + "\n\n")[..i] == s[..i]
  {
    var begin := Begin();
    MarkersAreTags();
    EndsInAngle();
    hide Begin, End, Index;
    FirstInTrimmed(s, begin);
  }

  // ---------------------------------------------------------------- runs on a file with a stray END

  /** At the start of the text, or behind one of the four line terminators of ECMAScript. */
  predicate OnNewLine(s: string, i: nat) {
    i == 0 || (i <= |s| && s[i - 1] in {'\n', '\r', '\U{2028}', '\U{2029}'})
  }

  predicate HeadingAt(s: string, i: nat) { OnNewLine(s, i) && At(s, "## " + MEMORY, i) }

  lemma {:induction false} SectionIsFirst(s: string, from: nat)
    ensures var i := SectionStart(s, from);
      (i == -1 ==> forall k: nat | from <= k :: !HeadingAt(s, k))
      && (i != -1 ==> HeadingAt(s, i) && forall k: nat | from <= k < i :: !HeadingAt(s, k))
    decreases |s| - from
  {
    if from <= |s| && !HeadingAt(s, from) { SectionIsFirst(s, from + 1); }
  }

  lemma HeadingIsPlain(k: nat)
    requires k < |"## " + MEMORY|
    ensures ("## " + MEMORY)[0] == '#' && ("## " + MEMORY)[k] != '\n' && |"## " + MEMORY| == 15
  {
    assert Lacks("## " + MEMORY, '\n');
  }

  /** No heading begins in a text, or the blank line behind it, that would not be one in the text alone. */
  lemma HeadingInFront(t: string, v: string, i: nat)
    requires HeadingAt(t + "\n\n" + v, i) && i < |t| + 2
    ensures HeadingAt(t, i)
  {
    var u, h := t + "\n\n" + v, "## " + MEMORY;
    assert u[|t|] == '\n' && u[|t| + 1] == '\n';
    HeadingIsPlain(0);
    AtChars(u, h, i, 0);
    if i < |t| < i + |h| {
      AtChars(u, h, i, |t| - i);
      HeadingIsPlain(|t| - i);
    }
    assert u == t + ("\n\n" + v);
    AtIn(t, "\n\n" + v, h, i);
  }

  lemma HeadingBehind(t: string, v: string, k: nat)
    ensures HeadingAt(t + "\n\n" + v, |t| + 2 + k) <==> HeadingAt(v, k)
  {
    var u, h, n := t + "\n\n" + v, "## " + MEMORY, |t| + 2 + k;
    if k <= |v| {
      assert OnNewLine(u, n) <==> OnNewLine(v, k) by {
        if k == 0 { assert u[n - 1] == '\n'; } else { assert u[n - 1] == v[k - 1]; }
      }
      if k + |h| <= |v| { assert u[n..n + |h|] == v[k..k + |h|]; }
    }
  }

  /** A text without a section, a blank line and more text: the section is the one in the latter, if any. */
  lemma SectionBehind(t: string, v: string)
    requires forall k: nat :: !HeadingAt(t, k)
    ensures SectionStart(t + "\n\n" + v, 0) == if SectionStart(v, 0) == -1 then -1 else |t| + 2 + SectionStart(v, 0)
  {
    var u := t + "\n\n" + v;
    SectionIsFirst(u, 0);
    SectionIsFirst(v, 0);
    var i, k := SectionStart(u, 0), SectionStart(v, 0);
    if k != -1 { HeadingBehind(t, v, k); }
    if i != -1 {
      if i < |t| + 2 { HeadingInFront(t, v, i); }
      HeadingBehind(t, v, i - |t| - 2);
    }
  }

  lemma NoSectionInPrefix(s: string, n: nat)
    requires n <= |s| && SectionStart(s, 0) == -1
    ensures forall k: nat :: !HeadingAt(s[..n], k)
  {
    SectionIsFirst(s, 0);
    forall k: nat ensures !HeadingAt(s[..n], k) {
      if HeadingAt(s[..n], k) {
        PrefixAt(s, n, "## " + MEMORY, k);
        assert k > 0 ==> s[..n][k - 1] == s[k - 1];
        assert HeadingAt(s, k);
      }
    }
  }

  /** What an append writes. */
  function WithAppended(s: string, content: string, suffix: string): string {
    TrimEnd(s) + "\n\n" + Wrap(content) + suffix
  }

  lemma AppendedIs(s: string, content: string, suffix: string)
    ensures WithAppended(s, content, suffix) == TrimEnd(s) + "\n\n" + (Wrap(content) + suffix)
  {
    hide TrimEnd, Wrap;
  }

  lemma StaysInFront(t: string, w: string, b: string)
    requires w != "" && w[|w| - 1] == '>'
    ensures t <= TrimEnd(t + "\n\n" + w + b)
  {
    var u, i := t + "\n\n" + w + b, |t| + 1 + |w|;
    assert u[i] == w[|w| - 1] && u[..|t|] == t;
    TrimEndIs(u);
    KeepsNonSpace(u, i);
    hide TrimEnd;
    assert TrimEnd(u)[..|t|] == u[..|t|];
  }

  lemma WrapEndsInAngle(content: string)
    ensures Wrap(content) != "" && Wrap(content)[|Wrap(content)| - 1] == '>'
  {
    assert Wrap(content)[|Wrap(content)| - 1] == End()[|End()| - 1];
  }

  lemma HasMeansFirst(s: string, p: string)
    ensures Has(s, p) <==> Index(s, p) >= 0
  {
  }

  /** A stray END is still there, and still hides every block, behind whatever is appended. */
  lemma AppendKeepsStray(s: string, content: string, suffix: string)
    requires !Marked(s) && Has(s, End())
    ensures var u := WithAppended(s, content, suffix); !Marked(u) && Has(u, End()) && TrimEnd(s) <= TrimEnd(u)
  {
    hide Begin, End, Wrap, TrimEnd, Marked, Has, Index;
    var a, w, end := TrimEnd(s) + "\n\n", Wrap(content), End();
    AppendedAbove(s);
    StrayEndHides(a, content, suffix);
    FirstIsInside(a, w, suffix, end);
    HasMeansFirst(a + w + suffix, end);
    WrapEndsInAngle(content);
    StaysInFront(TrimEnd(s), w, suffix);
  }

  lemma SectionOfAppended(s: string, content: string, suffix: string)
    requires SectionStart(s, 0) == -1
    ensures var section := SectionStart(Wrap(content) + suffix, 0);
      SectionStart(WithAppended(s, content, suffix), 0) == if section == -1 then -1 else |TrimEnd(s)| + 2 + section
  {
    TrimEndIs(s);
    NoSectionInPrefix(s, |TrimEnd(s)|);
    AppendedIs(s, content, suffix);
    hide TrimEnd, Wrap, WithAppended, SectionStart, HeadingAt;
    SectionBehind(TrimEnd(s), Wrap(content) + suffix);
  }

  /**
   * The next run without force on a file with a stray END, in closed form: the block is appended once
   * more, or a section inside the first run's block is taken for an unmarked one and left alone.
   */
  lemma StrayEndAppendsAgain(p: Place, s: string, x: Setup, y: Setup)
    requires p.text == Some(s) && !Marked(s) && Has(s, End()) && SectionStart(s, 0) == -1 && !y.options.force
    ensures var u := WithAppended(s, x.content, x.options.suffix);
      var section := SectionStart(Wrap(x.content) + x.options.suffix, 0);
      var (q, first) := Refresh(p, x.content, x.options, x.backupOk);
      var (r, second) := Refresh(q, y.content, y.options, y.backupOk);
      q == p.(text := Some(u)) && first == Appended && TrimEnd(s) <= u && TrimEnd(s) <= TrimEnd(u)
      && if section == -1 then r == p.(text := Some(WithAppended(u, y.content, y.options.suffix))) && second == Appended
         else SectionStart(u, 0) == |TrimEnd(s)| + 2 + section
              && r == q.(backups := q.backups + if OutOfDate(u, y) && y.backupOk then [u] else [])
  {
    var u := WithAppended(s, x.content, x.options.suffix);
    var q := p.(text := Some(u));
    Appending(p, s, x.content, x.options, x.backupOk);
    AppendKeepsStray(s, x.content, x.options.suffix);
    SectionOfAppended(s, x.content, x.options.suffix);
    assert TrimEnd(s) <= u;
    hide Wrap, TrimEnd, Marked, Has, SectionStart, Refresh, OutOfDate;
    if SectionStart(u, 0) == -1 {
      Appending(q, u, y.content, y.options, y.backupOk);
    } else {
      LegacyStep(q, u, y);
    }
  }

  /** Over any list of runs without force on such a file, the user's text stays in front to the letter. */
  lemma {:induction false} StrayEndKeepsText(p: Place, s: string, runs: seq<Setup>)
    requires p.text == Some(s) && !Marked(s) && Has(s, End())
    requires forall i | 0 <= i < |runs| :: !runs[i].options.force
    ensures var q := RefreshAll(p, runs); q.text.Some? && TrimEnd(s) <= q.text.value && !Marked(q.text.value)
    decreases |runs|
  {
    TrimEndIs(s);
    if runs == [] {
    } else if SectionStart(s, 0) != -1 {
      LegacyIsLeftAlone(p, s, runs);
    } else {
      var r := runs[0];
      var u := WithAppended(s, r.content, r.options.suffix);
      Appending(p, s, r.content, r.options, r.backupOk);
      AppendKeepsStray(s, r.content, r.options.suffix);
      TrimEndIs(u);
      hide Wrap, TrimEnd, Marked, Has, SectionStart, Refresh;
      StrayEndKeepsText(p.(text := Some(u)), u, runs[1..]);
    }
  }

  // ---------------------------------------------------------------- a section replaced by force

  /** Another second-level heading begins here, on a line of its own. */
  predicate OtherHeading(s: string, i: nat) {
    0 < i && OnNewLine(s, i) && At(s, "## ", i) && !At(s, MEMORY, i + 3)
  }

  /** The first line from `start` on ends here. */
  predicate LineOver(s: string, start: nat, line: nat) {
    start <= line <= |s| && Lacks(s[start..line], '\n') && (line < |s| ==> s[line] == '\n')
  }

  lemma {:induction false} LineEndIs(s: string, from: nat, line: nat)
    requires LineOver(s, from, line)
    ensures LineEnd(s, from) == line
    decreases |s| - from
  {
    if from < line {
      assert s[from..line][0] == s[from];
      assert s[from..line][1..] == s[from + 1..line];
      LineEndIs(s, from + 1, line);
    }
  }

  /** Where the tail of a text has a heading of its own; its first character is a newline, so it begins none. */
  lemma {:induction false} HeadingInTail(s: string, line: nat, from: nat)
    requires line <= |s| && from <= |s| - line && (line < |s| ==> s[line] == '\n')
    ensures var e := line + NextHeading(s[line..], from);
      (forall k | line + from <= k < e :: k > line ==> !OtherHeading(s, k))
        && (e < |s| ==> e > line && OtherHeading(s, e))
    decreases |s| - line - from
  {
    var tail := s[line..];
    if from < |tail| {
      TailHeading(s, line, from);
      var here := LineStart(tail, from) && At(tail, "## ", from) && !At(tail, MEMORY, from + 3);
      assert NextHeading(tail, from) == if here then from else NextHeading(tail, from + 1);
      hide NextHeading, OtherHeading, LineStart, At;
      if !here { HeadingInTail(s, line, from + 1); }
    }
  }

  lemma TailAt(s: string, line: nat, p: string, i: nat)
    requires line <= |s|
    ensures At(s[line..], p, i) <==> At(s, p, line + i)
  {
    if i + |p| <= |s| - line { assert s[line..][i..i + |p|] == s[line + i..line + i + |p|]; }
  }

  lemma TailHeading(s: string, line: nat, i: nat)
    requires line < |s| && s[line] == '\n' && i < |s| - line
    ensures LineStart(s[line..], i) && At(s[line..], "## ", i) && !At(s[line..], MEMORY, i + 3)
      <==> i > 0 && OtherHeading(s, line + i)
  {
    TailAt(s, line, "## ", i);
    TailAt(s, line, MEMORY, i + 3);
    if i == 0 {
      if At(s, "## ", line) { AtChars(s, "## ", line, 0); }
    } else {
      assert s[line..][i - 1] == s[line + i - 1];
    }
  }

  lemma SectionEndsAtHeading(s: string, start: nat, line: nat, e: nat)
    requires LineOver(s, start, line) && line < e <= |s| && (e < |s| ==> OtherHeading(s, e))
    requires forall k | line < k < e :: !OtherHeading(s, k)
    ensures SectionEnd(s, start) == e
  {
    LineEndIs(s, start, line);
    HeadingInTail(s, line, 0);
  }

  lemma HeadingIsNotBlank(s: string, e: nat)
    requires e < |s| && OtherHeading(s, e)
    ensures DropBlankLines(s[e..]) == s[e..] != ""
  {
    AtChars(s, "## ", e, 0);
    assert s[e..][0] == '#';
  }

  /**
   * Forced, everything from the first other heading below the section's first line is kept to the letter; a
   * section with no such heading reaches to the end of the file.
   */
  lemma ForceKeepsBelow(p: Place, s: string, content: string, o: Options, ok: bool, line: nat, e: nat)
    requires p.text == Some(s) && !Marked(s) && SectionStart(s, 0) != -1
    requires o.force && OutOfDate(s, Setup(content, o, ok))
    requires LineOver(s, SectionStart(s, 0), line) && (forall k | line < k < e :: !OtherHeading(s, k))
    requires (line < e < |s| && OtherHeading(s, e)) || line <= e == |s|
    ensures Refresh(p, content, o, ok).0.text ==
      Some(Above(s, SectionStart(s, 0)) + Wrap(content) + o.suffix + if e < |s| then "\n\n" + s[e..] else "\n")
  {
    var start := SectionStart(s, 0);
    Forcing(p, s, content, o, ok);
    if line < e {
      SectionEndsAtHeading(s, start, line, e);
    } else {
      LineEndIs(s, start, line);
    }
    if e < |s| { HeadingIsNotBlank(s, e); }
    assert e == |s| ==> s[e..] == "" && DropBlankLines("") == "";
    hide Above, Wrap, Refresh, SectionStart, Marked, LineOver, OtherHeading, DropBlankLines;
    var a, w, suffix := Above(s, start), Wrap(content), o.suffix;
    assert a + w + Below(s, e, suffix) == a + w + suffix + if e < |s| then "\n\n" + s[e..] else "\n";
  }

  lemma ForcedAbove(s: string, start: nat)
    requires start <= |s| && !Marked(s)
    ensures var a := Above(s, start);
      !Marked(a) && Index(a, Begin()) == Index(s[..start], Begin())
      && (Has(a, Begin()) <==> Has(s[..start], Begin())) && (Has(a, End()) <==> Has(s[..start], End()))
  {
    MarkersAreTags();
    EndsInAngle();
    MarkedPrefix(s, start);
    var begin, end := Begin(), End();
    assert Marked(Above(s, start)) <==>
      Index(Above(s, start), begin) != -1 && Index(Above(s, start), end) > Index(Above(s, start), begin);
    assert Marked(s[..start]) <==> Index(s[..start], begin) != -1 && Index(s[..start], end) > Index(s[..start], begin);
    hide Begin, End, Index, Has, Above, Marked;
    AboveMarkers(s, start, begin);
    AboveMarkers(s, start, end);
  }

  lemma Forcing(p: Place, s: string, content: string, o: Options, ok: bool)
    requires p.text == Some(s) && !Marked(s) && SectionStart(s, 0) != -1
    requires o.force && OutOfDate(s, Setup(content, o, ok))
    ensures var start := SectionStart(s, 0);
      Refresh(p, content, o, ok)
      == (p.(text := Some(Above(s, start) + Wrap(content) + Below(s, SectionEnd(s, start), o.suffix))), Replaced)
  {
    var start := SectionStart(s, 0);
    RebuiltAround(s, start, SectionEnd(s, start), content, o);
    hide Wrap, Above, Below, TrimEnd, Rebuilt, Marked;
  }

  /**
   * Forced, the section becomes a marked block between the text above it and the text from the next
   * heading on. The block is found again, so that running again is a no-op, exactly when no marker
   * stands above the heading; strays inside or below the section do no harm.
   */
  lemma ForceExactly(p: Place, s: string, content: string, o: Options, o': Options, ok: bool, ok': bool)
    requires p.text == Some(s) && !Marked(s) && SectionStart(s, 0) != -1 && !Has(Trim(content), End())
    requires o.force && OutOfDate(s, Setup(content, o, ok))
    ensures var start := SectionStart(s, 0);
      var a, b := Above(s, start), Below(s, SectionEnd(s, start), o.suffix);
      var (q, status) := Refresh(p, content, o, ok);
      status == Replaced && q.text == Some(a + Wrap(content) + b)
      && (FoundBetween(a, content, b) <==> !Has(s[..start], Begin()) && !Has(s[..start], End()))
      && (FoundBetween(a, content, b) ==> Refresh(q, content, o', ok') == (q, UpToDate))
  {
    var start := SectionStart(s, 0);
    var a, b, q := Above(s, start), Below(s, SectionEnd(s, start), o.suffix), Refresh(p, content, o, ok).0;
    Forcing(p, s, content, o, ok);
    ForcedAbove(s, start);
    hide Begin, End, Wrap, Marked, Refresh, Above, Below, Has, Trim, SectionStart, SectionEnd, Index, FoundBetween;
    FoundExactly(a, content, b);
    if FoundBetween(a, content, b) { FoundIsStable(q, a, content, b, o', ok'); }
  }

  lemma AbovePrefix(s: string, start: nat)
    requires start <= |s| && Has(s[..start], Begin())
    ensures var i := Index(s[..start], Begin());
      0 <= i <= start && i <= |Above(s, start)| && Above(s, start)[..i] == s[..i]
  {
    var i := Index(s[..start], Begin());
    StrayPrefix(s[..start]);
    hide Begin, TrimEnd, Index, Has;
    assert s[..start][..i] == s[..i];
  }

  /** With a stray BEGIN above the heading, the run after a forced one loses the text from it to the new block. */
  lemma ForceLosesText(p: Place, s: string, content: string, o: Options, o': Options, ok: bool, ok': bool)
    requires p.text == Some(s) && !Marked(s) && SectionStart(s, 0) != -1 && !Has(Trim(content), End())
    requires o.force && OutOfDate(s, Setup(content, o, ok))
    requires var above := s[..SectionStart(s, 0)]; Has(above, Begin()) && !Has(above, End())
    ensures var start := SectionStart(s, 0);
      var stray := Index(s[..start], Begin());
      var q := Refresh(p, content, o, ok).0;
      0 <= stray <= start
      && Refresh(q, content, o', ok')
         == (q.(text := Some(s[..stray] + Wrap(content) + Below(s, SectionEnd(s, start), o.suffix))), Updated)
  {
    var start := SectionStart(s, 0);
    var a, b, q := Above(s, start), Below(s, SectionEnd(s, start), o.suffix), Refresh(p, content, o, ok).0;
    Forcing(p, s, content, o, ok);
    ForcedAbove(s, start);
    AbovePrefix(s, start);
    hide TrimEnd, Begin, End, Wrap, Marked, Refresh, Above, Below, Has, Trim, SectionStart, SectionEnd, Index;
    StrayIsTaken(q, a, content, b, o', ok');
  }

  // ---------------------------------------------------------------- the file

  class InstructionFile {
    var text: Option<string>
    var backups: seq<string>

    ghost function View(): Place
      reads this
    {
      Place(text, backups)
    }

    constructor (text: Option<string>)
      ensures View() == Place(text, [])
    {
      this.text, backups := text, [];
    }

    /** `upsertAwmSection`: reads the file and overwrites it, or not, branch by branch. */
    method UpsertSection(content: string, o: Options, backupOk: bool) returns (status: Status)
      modifies this
      ensures (View(), status) == Refresh(old(View()), content, o, backupOk)
    {
      hide Begin, End, Wrap, TrimEnd, Index, SectionStart, SectionEnd;
      if text.None? {
        text := Some(o.title + "\n\n" + Wrap(content) + o.suffix);
        return WasCreated;
      }
      var existing := text.value;
      var gb, ge := Index(existing, Begin()), Index(existing, End());
      if gb != -1 && ge > gb {
        status := ReplaceBlock(content);
      } else {
        status := ReplaceSection(content, o, backupOk);
      }
    }

    /** The file carries markers: only what is between them is touched. */
    method ReplaceBlock(content: string) returns (status: Status)
      requires text.Some? && Marked(text.value)
      modifies this`text
      ensures var s := old(text).value;
        if TrimEnd(Block(s)) == TrimEnd(Wrap(content)) then status == UpToDate && text == old(text)
        else status == Updated && text == Some(WithBlock(s, content))
    {
      var existing := text.value;
      hide Begin, End, Wrap, TrimEnd, Index;
      MarkedBounds(existing);
      var gb, ge := Index(existing, Begin()), Index(existing, End());
      var current, desired := existing[gb..ge + |End()|], Wrap(content);
      assert current == Block(existing);
      if TrimEnd(current) == TrimEnd(desired) {
        return UpToDate;
      }
      assert existing[..gb] + desired + existing[ge + |End()|..] == WithBlock(existing, content);
      hide Block, WithBlock, Marked;
      text := Some(existing[..gb] + desired + existing[ge + |End()|..]);
      return Updated;
    }

    /** The file has no marked block: append one, or deal with a section without markers. */
    method ReplaceSection(content: string, o: Options, backupOk: bool) returns (status: Status)
      requires text.Some? && !Marked(text.value)
      modifies this
      ensures (View(), status) == Refresh(old(View()), content, o, backupOk)
    {
      hide Begin, End, Wrap, TrimEnd, Marked, Rebuilt;
      var existing := text.value;
      var start := SectionStart(existing, 0);
      if start == -1 {
        text := Some(TrimEnd(existing) + "\n\n" + Wrap(content) + o.suffix);
        return Appended;
      }
      var sectionEnd := SectionEnd(existing, start);
      if TrimEnd(existing[start..sectionEnd]) == TrimEnd(content + o.suffix) {
        return UpToDate;
      }
      if !o.force {
        if !backupOk {
          return NoBackup;
        }
        backups := backups + [existing];
        return BackedUp;
      }
      text := Some(Rebuilt(existing, start, sectionEnd, content, o));
      return Replaced;
    }
  }
}
