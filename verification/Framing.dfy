/**
 * The frame splitter (src/core/model-daemon.ts:203-233): newline-terminated frames out of
 * chunks cut anywhere. JSON is a pair of functions, `parse` and `encode`; what is asked of
 * them is that an encoding holds no newline (section 7 of RFC 8259) and parses back.
 */
module Framing {
  import opened Prelude

  type Parser<!F> = string -> Option<F>

  /** The unterminated text, the frames delivered, and whether a line failed to parse. */
  datatype Reader<F> = Reader(buffer: string, frames: seq<F>, broken: bool)

  // ---------------------------------------------------------------- one character at a time

  /** The splitter a character at a time: the meaning `push` is proved against. */
  function Eat<F>(parse: Parser<F>, r: Reader<F>, c: char): Reader<F> {
    if r.broken then r
    else if c != '\n' then r.(buffer := r.buffer + [c])
    else if r.buffer == "" then r
    else
      match parse(r.buffer)
      case None => Reader("", r.frames, true)
      case Some(f) => Reader("", r.frames + [f], false)
  }

  function Scan<F>(parse: Parser<F>, r: Reader<F>, s: string): Reader<F> {
    if s == "" then r else Eat(parse, Scan(parse, r, s[..|s| - 1]), s[|s| - 1])
  }

  lemma {:induction false} ScanConcat<F>(parse: Parser<F>, r: Reader<F>, a: string, b: string)
    ensures Scan(parse, r, a + b) == Scan(parse, Scan(parse, r, a), b)
    decreases |b|
  {
    if b == "" {
      assert a + b == a;
    } else {
      assert (a + b)[..|a + b| - 1] == a + b[..|b| - 1];
      ScanConcat(parse, r, a, b[..|b| - 1]);
    }
  }

  predicate NoNewline(s: string) { forall i | 0 <= i < |s| :: s[i] != '\n' }

  lemma {:induction false} ScanText<F>(parse: Parser<F>, r: Reader<F>, s: string)
    requires NoNewline(s) && !r.broken
    ensures Scan(parse, r, s) == r.(buffer := r.buffer + s)
    decreases |s|
  {
    if s == "" {
      assert r.buffer + s == r.buffer;
    } else {
      ScanText(parse, r, s[..|s| - 1]);
      assert s == s[..|s| - 1] + [s[|s| - 1]];
      assert r.buffer + s == (r.buffer + s[..|s| - 1]) + [s[|s| - 1]];
    }
  }

  lemma {:induction false} ScanBroken<F>(parse: Parser<F>, r: Reader<F>, s: string)
    requires r.broken
    ensures Scan(parse, r, s) == r
    decreases |s|
  {
    if s != "" { ScanBroken(parse, r, s[..|s| - 1]); }
  }

  // ---------------------------------------------------------------- the splitter

  function Join(parts: seq<string>): string {
    if parts == [] then "" else Join(parts[..|parts| - 1]) + parts[|parts| - 1]
  }

  class FrameReader<F> {
    const parse: Parser<F>
    var limit: nat
    var parts: seq<string>
    var size: nat
    /** The frames handed to the callback so far. */
    var delivered: seq<F>

    ghost predicate Valid()
      reads this
    {
      size == |Join(parts)|
    }

    ghost function View(): Reader<F>
      reads this
    {
      Reader(Join(parts), delivered, false)
    }

    constructor (parse: Parser<F>, limit: nat)
      ensures Valid() && View() == Reader("", [], false) && this.parse == parse && this.limit == limit
    {
      this.parse, this.limit := parse, limit;
      parts, size, delivered := [], 0, [];
    }

    method IndexOfNewline(s: string) returns (nl: nat)
      ensures nl <= |s| && NoNewline(s[..nl]) && (nl < |s| ==> s[nl] == '\n')
    {
      nl := 0;
      while nl < |s| && s[nl] != '\n'
        invariant nl <= |s| && NoNewline(s[..nl])
      {
        nl := nl + 1;
      }
    }

    /**
     * False when a line does not parse, or when the unterminated tail is over the limit;
     * otherwise the chunk has been scanned to its end.
     */
    method Push(chunk: string) returns (ok: bool)
      requires Valid()
      modifies this`parts, this`size, this`delivered
      ensures Valid()
      ensures var r := Scan(parse, old(View()), chunk);
        ok == (!r.broken && |r.buffer| <= limit) && View() == Reader(r.buffer, r.frames, false)
    {
      var rest := chunk;
      ghost var goal := Scan(parse, View(), chunk);
      var nl: nat := IndexOfNewline(rest);
      while nl < |rest|
        invariant nl <= |rest| && NoNewline(rest[..nl]) && (nl < |rest| ==> rest[nl] == '\n')
        invariant Valid() && Scan(parse, View(), rest) == goal
        decreases |rest|
      {
        var line := if parts != [] then Join(parts) + rest[..nl] else rest[..nl];
        LineScan(parse, View(), rest, nl);
        assert Join(parts) + rest[..nl] == line;
        parts, size := [], 0;
        rest := rest[nl + 1..];
        if line != "" {
          var frame := parse(line);
          if frame.None? {
            ScanBroken(parse, Reader("", delivered, true), rest);
            return false;
          }
          delivered := delivered + [frame.value];
        }
        nl := IndexOfNewline(rest);
      }
      assert rest[..nl] == rest;
      ScanText(parse, View(), rest);
      if rest != "" {
        assert (parts + [rest])[..|parts|] == parts;
        parts, size := parts + [rest], size + |rest|;
      }
      return size <= limit;
    }
  }

  /** A line and its newline: the buffered text and the line parse as one. */
  lemma LineScan<F>(parse: Parser<F>, r: Reader<F>, s: string, nl: nat)
    requires nl < |s| && NoNewline(s[..nl]) && s[nl] == '\n' && !r.broken
    ensures Scan(parse, r, s) == Scan(parse, Eat(parse, r.(buffer := r.buffer + s[..nl]), '\n'), s[nl + 1..])
  {
    assert s == s[..nl] + (['\n'] + s[nl + 1..]);
    ScanConcat(parse, r, s[..nl], ['\n'] + s[nl + 1..]);
    ScanText(parse, r, s[..nl]);
    var m := Scan(parse, r, s[..nl]);
    ScanConcat(parse, m, ['\n'], s[nl + 1..]);
    assert ['\n'][..0] == "";
    assert Scan(parse, m, ['\n']) == Eat(parse, Scan(parse, m, ""), '\n');
  }

  // ---------------------------------------------------------------- chunks

  /** Chunk after chunk until one is refused: what the connection's `data` handler does. */
  function Feed<F>(parse: Parser<F>, limit: nat, r: Reader<F>, chunks: seq<string>): (Reader<F>, bool)
    decreases |chunks|
  {
    if chunks == [] then (r, true)
    else
      var r' := Scan(parse, r, chunks[0]);
      if Refuses(limit, r') then (r', false) else Feed(parse, limit, r', chunks[1..])
  }

  /** What makes `push` answer false after a chunk. */
  predicate Refuses<F>(limit: nat, r: Reader<F>) { r.broken || |r.buffer| > limit }

  /** The handler's loop over the chunks, on the object. */
  method FeedAll<F>(reader: FrameReader<F>, chunks: seq<string>) returns (ok: bool)
    requires reader.Valid()
    modifies reader`parts, reader`size, reader`delivered
    ensures reader.Valid()
    ensures var (r, b) := Feed(reader.parse, reader.limit, old(reader.View()), chunks);
      ok == b && reader.View() == Reader(r.buffer, r.frames, false)
  {
    ok := true;
    var i := 0;
    while i < |chunks|
      invariant i <= |chunks| && ok && reader.Valid()
      invariant Feed(reader.parse, reader.limit, reader.View(), chunks[i..])
          == Feed(reader.parse, reader.limit, old(reader.View()), chunks)
    {
      ghost var before := reader.View();
      assert chunks[i..][0] == chunks[i] && chunks[i..][1..] == chunks[i + 1..];
      ok := reader.Push(chunks[i]);
      if !ok {
        return;
      }
      i := i + 1;
    }
    assert chunks[i..] == [];
  }

  function Flat(chunks: seq<string>): string {
    if chunks == [] then "" else chunks[0] + Flat(chunks[1..])
  }

  /** A feed is one scan of the whole text, refused exactly when some prefix of the chunks is. */
  lemma {:induction false} FeedScans<F>(parse: Parser<F>, limit: nat, r: Reader<F>, chunks: seq<string>)
    ensures var (t, ok) := Feed(parse, limit, r, chunks);
      (ok ==> t == Scan(parse, r, Flat(chunks)))
      && (ok <==> forall k | 0 < k <= |chunks| :: !Refuses(limit, Scan(parse, r, Flat(chunks[..k]))))
    decreases |chunks|
  {
    if chunks == [] {
    } else {
      var r', tail := Scan(parse, r, chunks[0]), chunks[1..];
      assert Flat(chunks[..1]) == chunks[0] by { assert chunks[..1][1..] == []; assert Flat([]) == ""; }
      FeedScans(parse, limit, r', tail);
      ScanConcat(parse, r, chunks[0], Flat(tail));
      forall k: nat | 0 < k <= |tail|
        ensures Scan(parse, r, Flat(chunks[..k + 1])) == Scan(parse, r', Flat(tail[..k]))
      {
        assert chunks[..k + 1][1..] == tail[..k];
        ScanConcat(parse, r, chunks[0], Flat(tail[..k]));
      }
      if Feed(parse, limit, r, chunks).1 {
        forall k | 0 < k <= |chunks| ensures !Refuses(limit, Scan(parse, r, Flat(chunks[..k]))) {
          if k > 1 {
            assert !Refuses(limit, Scan(parse, r', Flat(tail[..k - 1])));
            assert chunks[..k - 1 + 1] == chunks[..k];
          }
        }
      } else if !Refuses(limit, r') {
        var k: nat :| 0 < k <= |tail| && Refuses(limit, Scan(parse, r', Flat(tail[..k])));
        assert Refuses(limit, Scan(parse, r, Flat(chunks[..k + 1])));
      } else {
        assert Refuses(limit, Scan(parse, r, Flat(chunks[..1])));
      }
    }
  }

  /** However a stream is cut, chunkings that are not refused give the same frames and the same tail. */
  lemma CutsDoNotMatter<F>(parse: Parser<F>, limit: nat, a: seq<string>, b: seq<string>)
    requires Flat(a) == Flat(b)
    requires Feed(parse, limit, Reader("", [], false), a).1 && Feed(parse, limit, Reader("", [], false), b).1
    ensures Feed(parse, limit, Reader("", [], false), a) == Feed(parse, limit, Reader("", [], false), b)
  {
    FeedScans(parse, limit, Reader("", [], false), a);
    FeedScans(parse, limit, Reader("", [], false), b);
  }

  // ---------------------------------------------------------------- framing undoes itself

  ghost predicate Codec<F(!new)>(parse: Parser<F>, encode: F -> string) {
    forall f :: encode(f) != "" && NoNewline(encode(f)) && parse(encode(f)) == Some(f)
  }

  /** The frames one after another, each ended by a newline. */
  function Stream<F>(encode: F -> string, frames: seq<F>): string {
    if frames == [] then "" else Stream(encode, frames[..|frames| - 1]) + (encode(frames[|frames| - 1]) + "\n")
  }

  /** After part of the next frame: the frames before it delivered, that part in the buffer. */
  lemma {:induction false} StreamScans<F(!new)>(parse: Parser<F>, encode: F -> string, frames: seq<F>, part: string)
    requires Codec(parse, encode) && NoNewline(part)
    ensures Scan(parse, Reader("", [], false), Stream(encode, frames) + part) == Reader(part, frames, false)
    decreases |frames|
  {
    var start: Reader<F> := Reader("", [], false);
    if frames == [] {
      assert "" + part == part;
      ScanText(parse, start, part);
    } else {
      var front, f := frames[..|frames| - 1], frames[|frames| - 1];
      StreamScans(parse, encode, front, encode(f));
      assert Stream(encode, frames) == Stream(encode, front) + (encode(f) + "\n");
      assert frames == front + [f];
      hide Stream, Scan;
      LineEnds(parse, start, Stream(encode, front), encode(f));
      var done := Scan(parse, start, Stream(encode, frames));
      ScanConcat(parse, start, Stream(encode, frames), part);
      ScanText(parse, done, part);
      assert "" + part == part;
    }
  }

  /** The newline after a line completes it. */
  lemma LineEnds<F>(parse: Parser<F>, r: Reader<F>, text: string, line: string)
    ensures Scan(parse, r, text + (line + "\n")) == Eat(parse, Scan(parse, r, text + line), '\n')
  {
    var s := text + (line + "\n");
    assert s[..|s| - 1] == text + line;
  }

  /**
   * Round trip under any chunking: chunks that flatten to encoded frames and part of another,
   * none refused, deliver exactly those frames, once each, in order, and hold exactly the part.
   */
  lemma FramesComeBack<F(!new)>(parse: Parser<F>, encode: F -> string, limit: nat, frames: seq<F>, part: string,
                                chunks: seq<string>)
    requires Codec(parse, encode) && NoNewline(part)
    requires Flat(chunks) == Stream(encode, frames) + part
    requires Feed(parse, limit, Reader("", [], false), chunks).1
    ensures Feed(parse, limit, Reader("", [], false), chunks).0 == Reader(part, frames, false)
  {
    FeedScans(parse, limit, Reader("", [], false), chunks);
    StreamScans(parse, encode, frames, part);
  }

  function Tail(s: string): string {
    if s == "" || s[|s| - 1] == '\n' then "" else Tail(s[..|s| - 1]) + [s[|s| - 1]]
  }

  /** Every prefix of a stream of frames scans to some of the frames and its own tail. */
  lemma {:induction false} PrefixScans<F(!new)>(parse: Parser<F>, encode: F -> string, frames: seq<F>, part: string,
                                                n: nat)
    requires Codec(parse, encode) && NoNewline(part) && n <= |Stream(encode, frames) + part|
    ensures var r := Scan(parse, Reader("", [], false), (Stream(encode, frames) + part)[..n]);
      !r.broken && r.frames <= frames && r.buffer == Tail((Stream(encode, frames) + part)[..n])
    decreases |frames|, |part|
  {
    var s := Stream(encode, frames) + part;
    if n >= |Stream(encode, frames)| {
      var cut := n - |Stream(encode, frames)|;
      assert s[..n] == Stream(encode, frames) + part[..cut];
      StreamScans(parse, encode, frames, part[..cut]);
      TailOfText(Stream(encode, frames), part[..cut]);
      StreamEnds(encode, frames);
    } else {
      var front, f := frames[..|frames| - 1], frames[|frames| - 1];
      var t := Stream(encode, front) + encode(f);
      assert Stream(encode, frames) == t + "\n";
      assert s[..n] == t[..n];
      PrefixScans(parse, encode, front, encode(f), n);
    }
  }

  lemma StreamEnds<F>(encode: F -> string, frames: seq<F>)
    ensures frames != [] ==>
      Stream(encode, frames) != "" && Stream(encode, frames)[|Stream(encode, frames)| - 1] == '\n'
  {
  }

  lemma {:induction false} TailOfText(a: string, b: string)
    requires NoNewline(b) && (a == "" || a[|a| - 1] == '\n')
    ensures Tail(a + b) == b
    decreases |b|
  {
    if b == "" {
      assert a + b == a;
    } else {
      assert (a + b)[..|a + b| - 1] == a + b[..|b| - 1];
      TailOfText(a, b[..|b| - 1]);
    }
  }

  /** The limit in full: chunks of a well-formed stream are accepted exactly when every unterminated tail fits. */
  lemma RefusedOnlyForTails<F(!new)>(parse: Parser<F>, encode: F -> string, limit: nat, frames: seq<F>, part: string,
                                     chunks: seq<string>)
    requires Codec(parse, encode) && NoNewline(part)
    requires Flat(chunks) == Stream(encode, frames) + part
    ensures Feed(parse, limit, Reader("", [], false), chunks).1 <==>
      forall k | 0 < k <= |chunks| :: |Tail(Flat(chunks[..k]))| <= limit
  {
    FeedScans(parse, limit, Reader("", [], false), chunks);
    forall k | 0 < k <= |chunks|
      ensures var m := Scan(parse, Reader("", [], false), Flat(chunks[..k]));
        !m.broken && m.buffer == Tail(Flat(chunks[..k]))
    {
      FlatPrefix(chunks, k);
      PrefixScans(parse, encode, frames, part, |Flat(chunks[..k])|);
    }
  }

  lemma {:induction false} FlatPrefix(chunks: seq<string>, k: nat)
    requires k <= |chunks|
    ensures |Flat(chunks[..k])| <= |Flat(chunks)| && Flat(chunks[..k]) == Flat(chunks)[..|Flat(chunks[..k])|]
    decreases k
  {
    if k > 0 {
      FlatPrefix(chunks[1..], k - 1);
      assert chunks[..k][1..] == chunks[1..][..k - 1];
    }
  }
}
