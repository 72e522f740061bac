/**
  Sequential reading of twitter7 data (org.aksw.twig.parsing.Twitter7Reader)
  as its test pins it down.  A twitter7 block is three consecutive lines
  tagged `T` (time), `U` (user) and `W` (words); the extracted triple holds
  each line without its one-character tag, leading whitespace kept.

  The reader's implementation is not part of this model.  The rule for
  malformed input is an assumption: a window of three lines that is not
  tagged T, U, W in that order loses its first line and reading slides on by
  one line, so any junk -- a block missing a line, blank separator lines --
  is skipped and the next well-formed block is returned.
*/
module Twitter7Readers {
  import opened Wrappers

  /** `Triple<String, String, String>`: time, user and words. */
  datatype Triple = Triple(left: string, middle: string, right: string)

  /** Result of one extraction: the block found, if any, and the unread lines. */
  datatype Extraction = Extraction(block: Option<Triple>, rest: seq<string>)

  // ---- Lines, as BufferedReader.readLine delivers them ----

  predicate IsLineBreak(c: char)
  {
    c == '\n' || c == '\r'
  }

  predicate NoBreaks(s: string)
  {
    forall i :: 0 <= i < |s| ==> !IsLineBreak(s[i])
  }

  /** Index of the first line break, or the length when there is none. */
  function LineEnd(s: string): (i: nat)
    ensures i <= |s|
  {
    if s == [] || IsLineBreak(s[0]) then 0 else 1 + LineEnd(s[1..])
  }

  /** `LineEnd` stops at the first line break. */
  lemma {:induction false} LineEndIsFirstBreak(s: string)
    ensures forall j :: 0 <= j < LineEnd(s) ==> !IsLineBreak(s[j])
    ensures LineEnd(s) < |s| ==> IsLineBreak(s[LineEnd(s)])
  {
    if s != [] && !IsLineBreak(s[0]) {
      LineEndIsFirstBreak(s[1..]);
      forall j | 1 <= j < LineEnd(s) ensures s[j] == s[1..][j - 1] { }
    }
  }

  /** The text after the line terminator at `i`: `\n`, `\r` or `\r\n`. */
  function AfterBreak(s: string, i: nat): (r: string)
    requires i <= |s|
    ensures |r| + i <= |s|
  {
    if i == |s| then []
    else if s[i] == '\r' && i + 1 < |s| && s[i + 1] == '\n' then s[i + 2..]
    else s[i + 1..]
  }

  /** The lines successive `readLine` calls return before `null`: a final
      terminator does not start another line. */
  function SplitLines(text: string): (r: seq<string>)
    ensures r == [] <==> text == []
    decreases |text|
  {
    if text == [] then []
    else
      var i := LineEnd(text);
      [text[..i]] + SplitLines(AfterBreak(text, i))
  }

  /** No line that `readLine` returns contains a line break. */
  lemma {:induction false} SplitLinesHaveNoBreaks(text: string)
    ensures forall k :: 0 <= k < |SplitLines(text)| ==> NoBreaks(SplitLines(text)[k])
    decreases |text|
  {
    if text != [] {
      var i := LineEnd(text);
      var rest := AfterBreak(text, i);
      LineEndIsFirstBreak(text);
      assert NoBreaks(text[..i]) by {
        forall j | 0 <= j < i ensures text[..i][j] == text[j] { }
      }
      SplitLinesHaveNoBreaks(rest);
      var r := SplitLines(text);
      assert r == [text[..i]] + SplitLines(rest);
      forall k | 0 < k < |r| ensures r[k] == SplitLines(rest)[k - 1] { }
    }
  }

  /** A line without breaks followed by `\n` is read back as that line. */
  lemma SplitAfterLine(line: string, rest: string)
    requires NoBreaks(line)
    ensures SplitLines(line + "\n" + rest) == [line] + SplitLines(rest)
  {
    var text := line + "\n" + rest;
    var i := LineEnd(text);
    LineEndIsFirstBreak(text);
    assert text[|line|] == '\n';
    if i < |line| {
      assert false;
    }
    if i > |line| {
      assert false;
    }
    assert text[..i] == line;
    assert AfterBreak(text, i) == rest;
  }

  // ---- Blocks ----

  predicate HasTag(line: string, tag: char)
  {
    |line| > 0 && line[0] == tag
  }

  predicate IsBlock(time: string, user: string, words: string)
  {
    HasTag(time, 'T') && HasTag(user, 'U') && HasTag(words, 'W')
  }

  predicate BlockAt(lines: seq<string>, k: nat)
    requires k + 3 <= |lines|
  {
    IsBlock(lines[k], lines[k + 1], lines[k + 2])
  }

  /** The triple of the block at `k`: each line with its tag removed. */
  function TripleAt(lines: seq<string>, k: nat): Triple
    requires k + 3 <= |lines| && BlockAt(lines, k)
  {
    Triple(lines[k][1..], lines[k + 1][1..], lines[k + 2][1..])
  }

  /** `k` is the first line of the first well-formed block. */
  predicate FirstBlockAt(lines: seq<string>, k: nat)
  {
    k + 3 <= |lines| && BlockAt(lines, k) &&
    forall j: nat :: j < k ==> !BlockAt(lines, j)
  }

  /** `readTwitter7Block` on the unread lines: the next well-formed block,
      or None once fewer than three lines are left, which are then consumed. */
  function Extract(lines: seq<string>): (r: Extraction)
    ensures r.block.None? ==> r.rest == []
    ensures r.block.Some? ==> |r.rest| + 3 <= |lines|
    decreases |lines|
  {
    if |lines| < 3 then Extraction(None, [])
    else if BlockAt(lines, 0) then Extraction(Some(TripleAt(lines, 0)), lines[3..])
    else Extract(lines[1..])
  }

  /** Extraction returns the first well-formed block and the lines after it,
      and None exactly when no three consecutive lines form a block. */
  lemma {:induction false} ExtractFindsFirstBlock(lines: seq<string>)
    ensures Extract(lines).block.None? <==> forall k: nat :: k + 3 <= |lines| ==> !BlockAt(lines, k)
    ensures Extract(lines).block.Some? ==> exists k: nat ::
      FirstBlockAt(lines, k) && Extract(lines) == Extraction(Some(TripleAt(lines, k)), lines[k + 3..])
    decreases |lines|
  {
    if |lines| >= 3 && !BlockAt(lines, 0) {
      var tail := lines[1..];
      ExtractFindsFirstBlock(tail);
      forall k: nat | k + 3 <= |tail| ensures BlockAt(tail, k) == BlockAt(lines, k + 1) {
        assert tail[k] == lines[k + 1] && tail[k + 1] == lines[k + 2] && tail[k + 2] == lines[k + 3];
      }
      if Extract(tail).block.Some? {
        var k: nat :| FirstBlockAt(tail, k) && Extract(tail) == Extraction(Some(TripleAt(tail, k)), tail[k + 3..]);
        assert tail[k + 3..] == lines[k + 4..];
        forall j: nat | j < k + 1 ensures !BlockAt(lines, j) {
          if j > 0 {
            assert !BlockAt(tail, j - 1);
          }
        }
        assert FirstBlockAt(lines, k + 1);
      } else {
        forall k: nat | k + 3 <= |lines| ensures !BlockAt(lines, k) {
          if k > 0 {
            assert !BlockAt(tail, k - 1);
          }
        }
      }
    } else if |lines| >= 3 {
      assert FirstBlockAt(lines, 0);
    }
  }

  /** A window that is not a block loses its first line: what junk precedes a
      block does not change which block is found. */
  lemma {:induction false} SkipsLeadingJunk(junk: seq<string>, lines: seq<string>)
    requires forall k: nat :: k < |junk| && k + 3 <= |junk + lines| ==> !BlockAt(junk + lines, k)
    ensures Extract(junk + lines) == Extract(lines)
    decreases |junk|
  {
    if junk != [] {
      var all := junk + lines;
      assert all[1..] == junk[1..] + lines;
      forall k: nat | k < |junk[1..]| && k + 3 <= |junk[1..] + lines| ensures !BlockAt(junk[1..] + lines, k) {
        assert !BlockAt(all, k + 1);
      }
      SkipsLeadingJunk(junk[1..], lines);
      if |all| >= 3 {
        assert !BlockAt(all, 0);
        assert Extract(all) == Extract(all[1..]);
      } else {
        assert |lines| < 3;
      }
    } else {
      assert junk + lines == lines;
    }
  }

  /** Extraction on an empty input finds nothing and reports no error. */
  lemma EmptyInputHasNoBlock()
    ensures SplitLines("") == []
    ensures Extract(SplitLines("")) == Extraction(None, [])
  {
  }

  // ---- The test's Parser: triple back to block text ----

  /** `Parser`: "T" + left + "\nU" + middle + "\nW" + right + "\n". */
  function Format(t: Triple): string
  {
    "T" + t.left + "\nU" + t.middle + "\nW" + t.right + "\n"
  }

  function BlockLines(t: Triple): seq<string>
  {
    ["T" + t.left, "U" + t.middle, "W" + t.right]
  }

  predicate Clean(t: Triple)
  {
    NoBreaks(t.left) && NoBreaks(t.middle) && NoBreaks(t.right)
  }

  /** A tag followed by a line without breaks is a line without breaks. */
  lemma TaggedNoBreaks(tag: char, s: string)
    requires !IsLineBreak(tag) && NoBreaks(s)
    ensures NoBreaks([tag] + s)
  {
    var line := [tag] + s;
    forall i | 0 < i < |line| ensures line[i] == s[i - 1] { }
  }

  /** Lines written out, each followed by `\n`. */
  function JoinLines(lines: seq<string>): string
  {
    if lines == [] then "" else lines[0] + "\n" + JoinLines(lines[1..])
  }

  predicate AllClean(lines: seq<string>)
  {
    forall k :: 0 <= k < |lines| ==> NoBreaks(lines[k])
  }

  /** Reading back lines written out with `\n` gives the same lines, and
      reading then continues with whatever text follows. */
  lemma {:induction false} SplitJoinedLines(lines: seq<string>, rest: string)
    requires AllClean(lines)
    ensures SplitLines(JoinLines(lines) + rest) == lines + SplitLines(rest)
    decreases |lines|
  {
    if lines == [] {
      assert JoinLines(lines) + rest == rest;
    } else {
      TailClean(lines);
      SplitJoinedLines(lines[1..], rest);
      SplitJoinedStep(lines, rest);
    }
  }

  lemma TailClean(lines: seq<string>)
    requires AllClean(lines) && lines != []
    ensures AllClean(lines[1..]) && NoBreaks(lines[0])
  {
    var tail := lines[1..];
    forall k | 0 <= k < |tail| ensures NoBreaks(tail[k]) {
      assert tail[k] == lines[k + 1];
    }
  }

  lemma SplitJoinedStep(lines: seq<string>, rest: string)
    requires lines != [] && NoBreaks(lines[0])
    requires SplitLines(JoinLines(lines[1..]) + rest) == lines[1..] + SplitLines(rest)
    ensures SplitLines(JoinLines(lines) + rest) == lines + SplitLines(rest)
  {
    var after := JoinLines(lines[1..]) + rest;
    assert JoinLines(lines) + rest == lines[0] + "\n" + after;
    SplitAfterLine(lines[0], after);
    ConsAppend(lines, SplitLines(rest));
  }

  lemma ConsAppend<T>(a: seq<T>, b: seq<T>)
    requires a != []
    ensures [a[0]] + (a[1..] + b) == a + b
  {
  }

  /** The Parser's text is the block's three lines written out. */
  lemma FormatIsJoinedBlockLines(t: Triple)
    ensures Format(t) == JoinLines(BlockLines(t))
  {
    var lines := BlockLines(t);
    assert lines[1..][1..][1..] == [];
    assert JoinLines(lines[1..][1..]) == "W" + t.right + "\n";
    assert JoinLines(lines[1..]) == "U" + t.middle + "\n" + ("W" + t.right + "\n");
  }

  lemma BlockLinesClean(t: Triple)
    requires Clean(t)
    ensures AllClean(BlockLines(t))
  {
    TaggedNoBreaks('T', t.left);
    TaggedNoBreaks('U', t.middle);
    TaggedNoBreaks('W', t.right);
  }

  /** A formatted block reads back as its three tagged lines. */
  lemma FormatSplitsIntoBlockLines(t: Triple, rest: string)
    requires Clean(t)
    ensures SplitLines(Format(t) + rest) == BlockLines(t) + SplitLines(rest)
  {
    FormatIsJoinedBlockLines(t);
    BlockLinesClean(t);
    SplitJoinedLines(BlockLines(t), rest);
  }

  /** Extracting from a block's own lines returns its triple: the tag is
      the only character removed, leading whitespace stays. */
  lemma ExtractBlockLines(t: Triple, more: seq<string>)
    ensures Extract(BlockLines(t) + more) == Extraction(Some(t), more)
  {
    var lines := BlockLines(t) + more;
    assert lines[0] == "T" + t.left && lines[1] == "U" + t.middle && lines[2] == "W" + t.right;
    assert ("T" + t.left)[1..] == t.left;
    assert ("U" + t.middle)[1..] == t.middle;
    assert ("W" + t.right)[1..] == t.right;
    assert lines[3..] == more;
  }

  /** Round trip: formatting a triple and reading the text back gives the
      triple and leaves the following text unread. */
  lemma ReadBackFormatted(t: Triple, rest: string)
    requires Clean(t)
    ensures Extract(SplitLines(Format(t) + rest)) == Extraction(Some(t), SplitLines(rest))
  {
    FormatSplitsIntoBlockLines(t, rest);
    ExtractBlockLines(t, SplitLines(rest));
  }

  /** The other direction: the Parser rebuilds the exact text of every
      well-formed block of lines. */
  lemma FormatRebuildsBlock(time: string, user: string, words: string)
    requires IsBlock(time, user, words)
    ensures Format(Triple(time[1..], user[1..], words[1..])) == time + "\n" + user + "\n" + words + "\n"
  {
    assert time == "T" + time[1..];
    assert user == "U" + user[1..];
    assert words == "W" + words[1..];
  }

  /** `testBrokenBlockReading`: a block missing its user line is skipped and
      the well-formed block after it is returned. */
  lemma BrokenBlockIsSkipped(broken: Triple, t: Triple, rest: string)
    requires Clean(broken) && Clean(t)
    ensures Extract(SplitLines(JoinLines(["T" + broken.left, "W" + broken.right]) + Format(t) + rest))
      == Extraction(Some(t), SplitLines(rest))
  {
    BrokenBlockLines(broken, t, rest);
    SkipsTimeAndWordsLines(broken, t, SplitLines(rest));
  }

  /** A T line and a W line with no U line between them form no block and are skipped. */
  lemma SkipsTimeAndWordsLines(broken: Triple, t: Triple, more: seq<string>)
    ensures Extract(["T" + broken.left, "W" + broken.right] + (BlockLines(t) + more)) == Extraction(Some(t), more)
  {
    var junk := ["T" + broken.left, "W" + broken.right];
    var good := BlockLines(t) + more;
    var all := junk + good;
    assert all[0] == junk[0] && all[1] == junk[1] && all[2] == "T" + t.left && all[3] == "U" + t.middle;
    assert !BlockAt(all, 0) && !BlockAt(all, 1);
    SkipsLeadingJunk(junk, good);
    ExtractBlockLines(t, more);
  }

  /** The broken block's two lines, then the good block's three lines, then the rest. */
  lemma BrokenBlockLines(broken: Triple, t: Triple, rest: string)
    requires Clean(broken) && Clean(t)
    ensures SplitLines(JoinLines(["T" + broken.left, "W" + broken.right]) + Format(t) + rest)
      == ["T" + broken.left, "W" + broken.right] + (BlockLines(t) + SplitLines(rest))
  {
    var junk := ["T" + broken.left, "W" + broken.right];
    assert AllClean(junk) by {
      TaggedNoBreaks('T', broken.left);
      TaggedNoBreaks('W', broken.right);
    }
    FormatSplitsIntoBlockLines(t, rest);
    assert JoinLines(junk) + Format(t) + rest == JoinLines(junk) + (Format(t) + rest);
    SplitJoinedLines(junk, Format(t) + rest);
  }

  // ---- Reading a whole input ----

  /** The blocks successive extractions deliver, in input order. */
  function AllBlocks(lines: seq<string>): (r: seq<Triple>)
    ensures |r| <= |lines| / 3
    decreases |lines|
  {
    var e := Extract(lines);
    match e.block
    case None => []
    case Some(t) => [t] + AllBlocks(e.rest)
  }

  /** Text made of formatted blocks, one after another. */
  function Concat(ts: seq<Triple>): string
  {
    if ts == [] then "" else Format(ts[0]) + Concat(ts[1..])
  }

  /** Reading a text of formatted blocks delivers each block exactly once,
      in order (`testBlockReading` reads the first two this way). */
  lemma {:induction false} ReadAllRecoversBlocks(ts: seq<Triple>)
    requires forall i :: 0 <= i < |ts| ==> Clean(ts[i])
    ensures AllBlocks(SplitLines(Concat(ts))) == ts
  {
    if ts != [] {
      ReadBackFormatted(ts[0], Concat(ts[1..]));
      ReadAllRecoversBlocks(ts[1..]);
    }
  }

  /** The set of expected block texts of `testReading`. */
  function Formats(ts: seq<Triple>): set<string>
  {
    set t | t in ts :: Format(t)
  }

  /** `testReading`, sequentially: removing the text the Parser rebuilds for
      every delivered block empties the set of expected blocks. */
  lemma ReadingEmptiesExpectedBlocks(ts: seq<Triple>)
    requires forall i :: 0 <= i < |ts| ==> Clean(ts[i])
    ensures Formats(ts) - Formats(AllBlocks(SplitLines(Concat(ts)))) == {}
  {
    ReadAllRecoversBlocks(ts);
  }

  /** The shared `BufferedReader`: the lines not yet read. */
  class LineReader {
    var lines: seq<string>

    constructor (text: string)
      ensures lines == SplitLines(text)
    {
      lines := SplitLines(text);
    }

    /** `readLine`: the next line, or None (Java's null) at the end. */
    method ReadLine() returns (r: Option<string>)
      modifies this
      ensures old(lines) == [] ==> r == None && lines == []
      ensures old(lines) != [] ==> r == Some(old(lines)[0]) && lines == old(lines)[1..]
    {
      if lines == [] {
        r := None;
      } else {
        r := Some(lines[0]);
        lines := lines[1..];
      }
    }
  }

  /** `readTwitter7Block`: reads line by line, keeping the last lines read
      until they form a block. */
  method ReadTwitter7Block(input: LineReader) returns (r: Option<Triple>)
    modifies input
    ensures r == Extract(old(input.lines)).block
    ensures input.lines == Extract(old(input.lines)).rest
  {
    ghost var start := input.lines;
    var window: seq<string> := [];
    assert window + input.lines == input.lines;
    while true
      invariant |window| <= 2
      invariant Extract(start) == Extract(window + input.lines)
      decreases |input.lines|
    {
      ghost var before := input.lines;
      var line := input.ReadLine();
      if line.None? {
        assert window + input.lines == window;
        return None;
      }
      assert before == [line.value] + input.lines;
      AppendShift(window, line.value, input.lines);
      window := window + [line.value];
      if |window| == 3 {
        ExtractWindow(window, input.lines);
        if IsBlock(window[0], window[1], window[2]) {
          return Some(Triple(window[0][1..], window[1][1..], window[2][1..]));
        }
        window := window[1..];
      }
    }
  }

  lemma AppendShift(window: seq<string>, line: string, rest: seq<string>)
    ensures window + ([line] + rest) == (window + [line]) + rest
  {
  }

  /** One step of the reading window: three lines that form a block are
      returned, otherwise the first of them is dropped. */
  lemma ExtractWindow(window: seq<string>, rest: seq<string>)
    requires |window| == 3
    ensures IsBlock(window[0], window[1], window[2]) ==>
      Extract(window + rest) == Extraction(Some(Triple(window[0][1..], window[1][1..], window[2][1..])), rest)
    ensures !IsBlock(window[0], window[1], window[2]) ==> Extract(window + rest) == Extract(window[1..] + rest)
  {
    var all := window + rest;
    assert all[0] == window[0] && all[1] == window[1] && all[2] == window[2];
    assert all[3..] == rest;
    assert all[1..] == window[1..] + rest;
  }

  /** Every block of the input, by repeated `readTwitter7Block`. */
  method ReadAll(input: LineReader) returns (blocks: seq<Triple>)
    modifies input
    ensures blocks == AllBlocks(old(input.lines))
    ensures input.lines == []
  {
    blocks := [];
    while true
      invariant AllBlocks(old(input.lines)) == blocks + AllBlocks(input.lines)
      decreases |input.lines|
    {
      var next := ReadTwitter7Block(input);
      if next.None? {
        return;
      }
      blocks := blocks + [next.value];
    }
  }

  /** `testReading` without its thread pool: each delivered block goes
      through the Parser and the callback removes the text from the set. */
  method DeliverAll(input: LineReader, expected: set<string>) returns (remaining: set<string>)
    modifies input
    ensures remaining == expected - Formats(AllBlocks(old(input.lines)))
  {
    remaining := expected;
    ghost var delivered: seq<Triple> := [];
    while true
      invariant AllBlocks(old(input.lines)) == delivered + AllBlocks(input.lines)
      invariant remaining == expected - Formats(delivered)
      decreases |input.lines|
    {
      var next := ReadTwitter7Block(input);
      if next.None? {
        assert delivered + AllBlocks(input.lines) == delivered;
        return;
      }
      remaining := remaining - {Format(next.value)};
      delivered := delivered + [next.value];
    }
  }
}
