/**
  The Markdown unwrapping script: joins hard-wrapped prose lines into one line per
  paragraph, keeps list items and blank lines on their own lines, and copies fenced
  code blocks verbatim.

  The script works on Python strings; here a string is a `seq<char>` and the only line
  break is '\n'.
 */
module Unwrap {
  import opened Wrappers
  import opened Text

  // ===========================================================================
  // remove_line_endings
  // ===========================================================================

  /** Python `text.split("\n\n")`: leftmost, non-overlapping separators. */
  function SplitParagraphs(s: string): (r: seq<string>)
    ensures |r| >= 1
  {
    if |s| < 2 then [s]
    else if s[0] == '\n' && s[1] == '\n' then [""] + SplitParagraphs(s[2..])
    else
      var rest := SplitParagraphs(s[1..]);
      [[s[0]] + rest[0]] + rest[1..]
  }

  /** One paragraph with its internal line breaks replaced by single spaces. */
  function FixParagraph(p: string): string {
    Join(" ", SplitLines(p))
  }

  function FixAll(ps: seq<string>): (r: seq<string>)
    ensures |r| == |ps|
    ensures forall k :: 0 <= k < |ps| ==> r[k] == FixParagraph(ps[k])
  {
    seq(|ps|, k requires 0 <= k < |ps| => FixParagraph(ps[k]))
  }

  /** `remove_line_endings`. */
  function RemoveLineEndings(text: string): string {
    Join("\n\n", FixAll(SplitParagraphs(text)))
  }

  lemma {:induction false} FixParagraphHasNoNewline(p: string)
    ensures !HasChar(FixParagraph(p), '\n')
  {
    assert !HasChar(" ", '\n');
    JoinKeepsCharOut(" ", SplitLines(p), '\n');
  }

  lemma {:induction false} SplitParagraphsSingle(p: string)
    requires !HasChar(p, '\n')
    ensures SplitParagraphs(p) == [p]
  {
    if |p| >= 2 {
      assert p[0] != '\n';
      assert !HasChar(p[1..], '\n') by {
        forall i | 0 <= i < |p[1..]| ensures p[1..][i] != '\n' {
          assert p[1..][i] == p[i + 1];
        }
      }
      SplitParagraphsSingle(p[1..]);
      assert p == [p[0]] + p[1..];
    }
  }

  lemma {:induction false} SplitParagraphsCons(p: string, rest: string)
    requires !HasChar(p, '\n')
    ensures SplitParagraphs(p + "\n\n" + rest) == [p] + SplitParagraphs(rest)
  {
    var s := p + "\n\n" + rest;
    if |p| == 0 {
      assert s[2..] == rest;
    } else {
      assert s[0] == p[0] && p[0] != '\n';
      assert !HasChar(p[1..], '\n') by {
        forall i | 0 <= i < |p[1..]| ensures p[1..][i] != '\n' {
          assert p[1..][i] == p[i + 1];
        }
      }
      SplitParagraphsCons(p[1..], rest);
      assert s[1..] == p[1..] + "\n\n" + rest;
      assert [p[0]] + p[1..] == p;
    }
  }

  /** Joining newline-free paragraphs with "\n\n" and splitting again gives them back. */
  lemma {:induction false} SplitParagraphsJoin(ps: seq<string>)
    requires |ps| >= 1
    requires forall k :: 0 <= k < |ps| ==> !HasChar(ps[k], '\n')
    ensures SplitParagraphs(Join("\n\n", ps)) == ps
  {
    if |ps| == 1 {
      SplitParagraphsSingle(ps[0]);
    } else {
      SplitParagraphsJoin(ps[1..]);
      SplitParagraphsCons(ps[0], Join("\n\n", ps[1..]));
      assert ps == [ps[0]] + ps[1..];
    }
  }

  /** Splitting on "\n\n" and joining with "\n\n" gives back the original text. */
  lemma {:induction false} SplitParagraphsRoundTrip(s: string)
    ensures Join("\n\n", SplitParagraphs(s)) == s
    decreases |s|, 1
  {
    if |s| >= 2 {
      if s[0] == '\n' && s[1] == '\n' {
        SplitParagraphsRoundTripSeparator(s);
      } else {
        SplitParagraphsRoundTripChar(s);
      }
    }
  }

  lemma {:induction false} SplitParagraphsRoundTripSeparator(s: string)
    requires |s| >= 2 && s[0] == '\n' && s[1] == '\n'
    ensures Join("\n\n", SplitParagraphs(s)) == s
    decreases |s|, 0
  {
    var rest := SplitParagraphs(s[2..]);
    SplitParagraphsRoundTrip(s[2..]);
    assert SplitParagraphs(s) == [""] + rest;
    assert Join("\n\n", [""] + rest) == "" + "\n\n" + Join("\n\n", rest) by {
      assert ([""] + rest)[1..] == rest;
    }
    assert s == "\n\n" + s[2..];
  }

  lemma {:induction false} SplitParagraphsRoundTripChar(s: string)
    requires |s| >= 2 && !(s[0] == '\n' && s[1] == '\n')
    ensures Join("\n\n", SplitParagraphs(s)) == s
    decreases |s|, 0
  {
    var rest := SplitParagraphs(s[1..]);
    SplitParagraphsRoundTrip(s[1..]);
    assert SplitParagraphs(s) == [[s[0]] + rest[0]] + rest[1..];
    JoinConsHead("\n\n", s[0], rest);
    assert s == [s[0]] + s[1..];
  }

  /** Putting a character in front of the first part puts it in front of the joined text. */
  lemma {:induction false} JoinConsHead(sep: string, c: char, parts: seq<string>)
    requires |parts| >= 1
    ensures Join(sep, [[c] + parts[0]] + parts[1..]) == [c] + Join(sep, parts)
  {
    var r := [[c] + parts[0]] + parts[1..];
    assert r[0] == [c] + parts[0];
    if |parts| > 1 {
      assert r[1..] == parts[1..];
      assert Join(sep, r) == ([c] + parts[0]) + sep + Join(sep, parts[1..]);
      assert Join(sep, parts) == parts[0] + sep + Join(sep, parts[1..]);
    }
  }

  /**
    `remove_line_endings` keeps the paragraph structure: the result splits on "\n\n"
    into exactly as many paragraphs as the input did, and each is the corresponding input
    paragraph with its lines joined by single spaces, so it holds no line break at all.
   */
  lemma {:induction false} RemoveLineEndingsParagraphs(text: string)
    ensures |SplitParagraphs(RemoveLineEndings(text))| == |SplitParagraphs(text)|
    ensures forall k :: 0 <= k < |SplitParagraphs(text)| ==>
      SplitParagraphs(RemoveLineEndings(text))[k] == Join(" ", SplitLines(SplitParagraphs(text)[k]))
    ensures !HasChar(RemoveLineEndings(text), '\n') <==> |SplitParagraphs(text)| == 1
  {
    var fixed := FixAll(SplitParagraphs(text));
    forall k | 0 <= k < |fixed| ensures !HasChar(fixed[k], '\n') {
      FixParagraphHasNoNewline(SplitParagraphs(text)[k]);
    }
    SplitParagraphsJoin(fixed);
    if |fixed| == 1 {
      assert RemoveLineEndings(text) == fixed[0];
    } else {
      var j := Join("\n\n", fixed);
      assert j == fixed[0] + "\n\n" + Join("\n\n", fixed[1..]);
      assert j[|fixed[0]|] == '\n';
    }
  }

  // ===========================================================================
  // process_content: the fence scanner
  // ===========================================================================

  const Fence: string := "```"

  /** The first position at or after `from` where `p` occurs in `s`. */
  function FindFrom(s: string, p: string, from: nat): (r: Option<nat>)
    requires |p| > 0
    decreases |s| - from
    ensures r.Some? ==> from <= r.value && OccursAt(s, p, r.value)
  {
    if from + |p| > |s| then None
    else if OccursAt(s, p, from) then Some(from)
    else FindFrom(s, p, from + 1)
  }

  /** `FindFrom` finds the first occurrence: none is skipped, and `None` means there is none. */
  lemma {:induction false} FindFromFirst(s: string, p: string, from: nat)
    requires |p| > 0
    ensures FindFrom(s, p, from).Some? ==>
      forall k :: from <= k < FindFrom(s, p, from).value ==> !OccursAt(s, p, k)
    ensures FindFrom(s, p, from).None? ==> forall k :: from <= k ==> !OccursAt(s, p, k)
    decreases |s| - from
  {
    if from + |p| <= |s| && !OccursAt(s, p, from) {
      FindFromFirst(s, p, from + 1);
    }
  }

  /** A fenced code block as the regex "```[\s\S]*?```" matches it. */
  predicate IsFenceBlock(f: string) {
    && |f| >= 6
    && StartsWith(f, Fence)
    && EndsWith(f, Fence)
    && forall k :: 3 <= k < |f| - 3 ==> !OccursAt(f, Fence, k)
  }

  function Concat(parts: seq<string>): string {
    if |parts| == 0 then "" else parts[0] + Concat(parts[1..])
  }

  lemma {:induction false} OccursInSlice(s: string, p: string, a: nat, b: nat, k: int)
    requires a <= b <= |s|
    requires OccursAt(s[a..b], p, k)
    ensures OccursAt(s, p, a + k)
  {
    forall i | k <= i < k + |p| ensures s[a..b][i] == s[a + i] {
    }
    assert s[a..b][k..k + |p|] == s[a + k..a + k + |p|];
  }

  /**
    Python `re.split(r"(```[\s\S]*?```)", content)`: text and fenced blocks alternate,
    starting and ending with a (possibly empty) text segment. The non-greedy block runs
    from the first "```" to the next "```" that starts after it; an opening "```" with no
    closing one leaves the rest of the text as one segment.
   */
  function SplitFences(s: string): (r: seq<string>)
    decreases |s|
    ensures |r| % 2 == 1
  {
    var open := FindFrom(s, Fence, 0);
    if open.None? then [s]
    else
      var close := FindFrom(s, Fence, open.value + 3);
      if close.None? then [s]
      else [s[..open.value], s[open.value..close.value + 3]] + SplitFences(s[close.value + 3..])
  }

  /**
    The fence split is a partition of the text into alternating pieces: concatenated they
    give the text back, every odd piece is one fenced block, and no text piece except the
    last contains "```".
   */
  lemma {:induction false} SplitFencesShape(s: string)
    ensures Concat(SplitFences(s)) == s
    ensures forall k :: 0 <= k < |SplitFences(s)| && k % 2 == 1 ==> IsFenceBlock(SplitFences(s)[k])
    ensures forall k :: 0 <= k < |SplitFences(s)| - 1 && k % 2 == 0 ==> !Contains(SplitFences(s)[k], Fence)
  {
    SplitFencesConcat(s);
    SplitFencesPieces(s);
    assert Alternates(SplitFences(s));
  }

  lemma {:induction false} SplitFencesConcat(s: string)
    ensures Concat(SplitFences(s)) == s
    decreases |s|
  {
    var open := FindFrom(s, Fence, 0);
    if open.Some? && FindFrom(s, Fence, open.value + 3).Some? {
      var j := FindFrom(s, Fence, open.value + 3).value;
      SplitFencesConcat(s[j + 3..]);
      SplitFencesConcatStep(s, open.value, j);
    } else {
      assert SplitFences(s) == [s];
      assert Concat([s]) == s + Concat([]);
    }
  }

  lemma {:induction false} SplitFencesConcatStep(s: string, i: nat, j: nat)
    requires FindFrom(s, Fence, 0) == Some(i) && FindFrom(s, Fence, i + 3) == Some(j)
    requires Concat(SplitFences(s[j + 3..])) == s[j + 3..]
    ensures Concat(SplitFences(s)) == s
  {
    ThreePieces(s, i, j + 3, SplitFences(s[j + 3..]), SplitFences(s));
  }

  /** Cutting a text at two points and concatenating the pieces gives it back. */
  lemma {:induction false} ThreePieces(s: string, i: nat, j: nat, rest: seq<string>, parts: seq<string>)
    requires i <= j <= |s|
    requires Concat(rest) == s[j..]
    requires parts == [s[..i], s[i..j]] + rest
    ensures Concat(parts) == s
  {
    ConcatPair(s[..i], s[i..j], rest);
    assert s == s[..i] + s[i..j] + s[j..];
  }

  lemma {:induction false} ConcatPair(a: string, b: string, rest: seq<string>)
    ensures Concat([a, b] + rest) == a + b + Concat(rest)
  {
    var r := [a, b] + rest;
    assert r[1..] == [b] + rest;
    assert ([b] + rest)[1..] == rest;
  }

  /** Odd pieces are fenced blocks; even pieces other than the last hold no "```". */
  predicate Alternates(r: seq<string>) {
    && (forall k :: 0 <= k < |r| && k % 2 == 1 ==> IsFenceBlock(r[k]))
    && (forall k :: 0 <= k < |r| - 1 && k % 2 == 0 ==> !Contains(r[k], Fence))
  }

  lemma {:induction false} SplitFencesPieces(s: string)
    ensures Alternates(SplitFences(s))
    decreases |s|
  {
    var open := FindFrom(s, Fence, 0);
    if open.Some? && FindFrom(s, Fence, open.value + 3).Some? {
      var i := open.value;
      var j := FindFrom(s, Fence, i + 3).value;
      SplitFencesPieces(s[j + 3..]);
      FindFromFirst(s, Fence, 0);
      FindFromFirst(s, Fence, i + 3);
      FencePieces(s, i, j);
      AlternatesCons(s[..i], s[i..j + 3], SplitFences(s[j + 3..]), SplitFences(s));
    } else {
      assert SplitFences(s) == [s];
    }
  }

  /** A text piece without "```" and a fenced block, put in front of alternating pieces. */
  lemma {:induction false} AlternatesCons(a: string, b: string, rest: seq<string>, r: seq<string>)
    requires !Contains(a, Fence) && IsFenceBlock(b) && Alternates(rest)
    requires r == [a, b] + rest
    ensures Alternates(r)
  {
    forall k | 0 <= k < |r| && k % 2 == 1 ensures IsFenceBlock(r[k]) {
      if k > 1 {
        assert r[k] == rest[k - 2];
      }
    }
    forall k | 0 <= k < |r| - 1 && k % 2 == 0 ensures !Contains(r[k], Fence) {
      if k > 1 {
        assert r[k] == rest[k - 2];
      }
    }
  }

  /** The text before the first "```" holds none, and the span up to the closing one is a block. */
  lemma {:induction false} FencePieces(s: string, i: nat, j: nat)
    requires i + 3 <= j && j + 3 <= |s|
    requires OccursAt(s, Fence, i) && OccursAt(s, Fence, j)
    requires forall k :: 0 <= k < i ==> !OccursAt(s, Fence, k)
    requires forall k :: i + 3 <= k < j ==> !OccursAt(s, Fence, k)
    ensures !Contains(s[..i], Fence)
    ensures IsFenceBlock(s[i..j + 3])
  {
    forall k | 0 <= k <= i && OccursAt(s[..i], Fence, k) ensures false {
      OccursInSlice(s, Fence, 0, i, k);
    }
    var f := s[i..j + 3];
    assert f[..3] == s[i..i + 3];
    assert f[|f| - 3..] == s[j..j + 3];
    forall k | 3 <= k < |f| - 3 && OccursAt(f, Fence, k) ensures false {
      OccursInSlice(s, Fence, i, j + 3, k);
    }
  }

  // ===========================================================================
  // process_content: the prose line machine
  // ===========================================================================

  /** After the bullet or number: at least one white-space character. */
  predicate StartsWithSpace(s: string) {
    |s| > 0 && IsSpace(s[0])
  }

  /** `\d*\.\s` at the front of `s`: the digits after the first, then '.', then white space. */
  predicate NumberTail(s: string) {
    |s| > 0 && ((s[0] == '.' && StartsWithSpace(s[1..])) || (IsDigit(s[0]) && NumberTail(s[1..])))
  }

  /** `(?:[-*+]|\d+\.)\s` at the front of `s`. */
  predicate Marker(s: string) {
    |s| > 0 && (((s[0] == '-' || s[0] == '*' || s[0] == '+') && StartsWithSpace(s[1..]))
                || (IsDigit(s[0]) && NumberTail(s[1..])))
  }

  /**
    `list_item_pattern.match(line)` for `^\s*(?:[-*+]|\d+\.)\s+`: optional indent, then a
    bullet `-`, `*`, `+` or digits followed by '.', then at least one white-space character.
    The pattern's trailing `\s+` only needs its first character to match.
   */
  predicate IsListItem(line: string) {
    Marker(line) || (|line| > 0 && IsSpace(line[0]) && IsListItem(line[1..]))
  }

  /** A line that is emitted on its own and ends the paragraph being collected. */
  predicate IsBreak(line: string) {
    IsListItem(line) || IsBlank(line)
  }

  /** Emitting the buffer: nothing if it is empty, otherwise its lines joined by spaces. */
  function Flush(buffer: seq<string>): seq<string> {
    if |buffer| == 0 then [] else [Join(" ", buffer)]
  }

  /**
    The loop of `process_content` over the lines of one prose segment: `out` is
    `processed_lines` and `buffer` the stripped lines of the paragraph being collected.
   */
  function ProcessLines(lines: seq<string>, out: seq<string>, buffer: seq<string>): seq<string>
    decreases |lines|
  {
    if |lines| == 0 then out + Flush(buffer)
    else if IsListItem(lines[0]) then ProcessLines(lines[1..], out + Flush(buffer) + [lines[0]], [])
    else if IsBlank(lines[0]) then ProcessLines(lines[1..], out + Flush(buffer) + [lines[0]], [])
    else ProcessLines(lines[1..], out, buffer + [Strip(lines[0])])
  }

  /** One segment of `re.split`: fenced blocks verbatim, prose through the line machine. */
  function ProcessSegment(segment: string): string {
    if StartsWith(segment, Fence) then segment
    else Join("\n", ProcessLines(SplitLines(segment), [], []))
  }

  function ProcessAll(segments: seq<string>): (r: seq<string>)
    ensures |r| == |segments|
    ensures forall k :: 0 <= k < |segments| ==> r[k] == ProcessSegment(segments[k])
  {
    seq(|segments|, k requires 0 <= k < |segments| => ProcessSegment(segments[k]))
  }

  /** `process_content`. */
  function ProcessContent(content: string): string {
    Concat(ProcessAll(SplitFences(content)))
  }

  // ===========================================================================
  // The block structure the line machine produces
  // ===========================================================================

  /** An output line's origin: one break line, or a maximal run of ordinary lines. */
  datatype Block = Break(line: string) | Paragraph(lines: seq<string>)

  /** Number of leading lines that are not breaks. */
  function RunLength(lines: seq<string>): (r: nat)
    ensures r <= |lines|
    ensures forall k :: 0 <= k < r ==> !IsBreak(lines[k])
    ensures r < |lines| ==> IsBreak(lines[r])
  {
    if |lines| > 0 && !IsBreak(lines[0]) then 1 + RunLength(lines[1..]) else 0
  }

  /** Reference grouping of a segment's lines, read front to back. */
  function Blocks(lines: seq<string>): seq<Block>
    decreases |lines|
  {
    if |lines| == 0 then []
    else if IsBreak(lines[0]) then [Break(lines[0])] + Blocks(lines[1..])
    else
      var k := RunLength(lines);
      [Paragraph(lines[..k])] + Blocks(lines[k..])
  }

  function StripAll(lines: seq<string>): (r: seq<string>)
    ensures |r| == |lines|
    ensures forall k :: 0 <= k < |lines| ==> r[k] == Strip(lines[k])
  {
    seq(|lines|, k requires 0 <= k < |lines| => Strip(lines[k]))
  }

  /** The output line a block becomes. */
  function Render(b: Block): string {
    match b
    case Break(line) => line
    case Paragraph(lines) => Join(" ", StripAll(lines))
  }

  function RenderAll(bs: seq<Block>): (r: seq<string>)
    ensures |r| == |bs|
    ensures forall k :: 0 <= k < |bs| ==> r[k] == Render(bs[k])
  {
    seq(|bs|, k requires 0 <= k < |bs| => Render(bs[k]))
  }

  /** The input lines a sequence of blocks came from, in order. */
  function Flatten(bs: seq<Block>): seq<string> {
    if |bs| == 0 then [] else Source(bs[0]) + Flatten(bs[1..])
  }

  /** The input lines one block came from. */
  function Source(b: Block): seq<string> {
    match b
    case Break(l) => [l]
    case Paragraph(ls) => ls
  }

  /** Every block is a break line, or a non-empty paragraph of ordinary lines. */
  predicate WellFormedBlock(b: Block) {
    match b
    case Break(line) => IsBreak(line)
    case Paragraph(lines) => |lines| > 0 && forall k :: 0 <= k < |lines| ==> !IsBreak(lines[k])
  }

  /**
    The blocks partition the lines: flattening them gives the lines back in order, each
    block is well formed, and no paragraph is directly followed by another (paragraphs
    are maximal runs).
   */
  lemma {:induction false} BlocksPartition(lines: seq<string>)
    ensures Flatten(Blocks(lines)) == lines
    ensures forall k :: 0 <= k < |Blocks(lines)| ==> WellFormedBlock(Blocks(lines)[k])
    ensures forall k :: 0 <= k < |Blocks(lines)| - 1 && Blocks(lines)[k].Paragraph? ==>
      Blocks(lines)[k + 1].Break?
  {
    BlocksFlatten(lines);
    BlocksWellFormed(lines);
    BlocksMaximal(lines);
  }

  /** Flattening the blocks gives the lines back in order. */
  lemma {:induction false} BlocksFlatten(lines: seq<string>)
    ensures Flatten(Blocks(lines)) == lines
    decreases |lines|
  {
    if |lines| > 0 {
      var n := if IsBreak(lines[0]) then 1 else RunLength(lines);
      var first := if IsBreak(lines[0]) then Break(lines[0]) else Paragraph(lines[..n]);
      var rest := Blocks(lines[n..]);
      assert Source(first) == lines[..n];
      assert Blocks(lines) == [first] + rest;
      BlocksFlatten(lines[n..]);
      FlattenCons(first, rest);
      SplitAt(lines, n);
    }
  }

  lemma SplitAt<T>(s: seq<T>, n: nat)
    requires n <= |s|
    ensures s[..n] + s[n..] == s
  {
  }

  /** The lines of a block placed in front come first. */
  lemma FlattenCons(b: Block, rest: seq<Block>)
    ensures Flatten([b] + rest) == Source(b) + Flatten(rest)
  {
    assert ([b] + rest)[1..] == rest;
  }

  /** Every block is a break line or a non-empty run of ordinary lines. */
  lemma {:induction false} BlocksWellFormed(lines: seq<string>)
    ensures forall k :: 0 <= k < |Blocks(lines)| ==> WellFormedBlock(Blocks(lines)[k])
    decreases |lines|
  {
    if |lines| > 0 {
      var bs := Blocks(lines);
      if IsBreak(lines[0]) {
        BlocksWellFormed(lines[1..]);
        assert bs[1..] == Blocks(lines[1..]);
      } else {
        var n := RunLength(lines);
        BlocksWellFormed(lines[n..]);
        assert bs[1..] == Blocks(lines[n..]);
      }
      forall k | 0 <= k < |bs| ensures WellFormedBlock(bs[k]) {
        if k > 0 {
          assert bs[k] == bs[1..][k - 1];
        }
      }
    }
  }

  /** A paragraph block is always followed by a break block, or ends the sequence. */
  lemma {:induction false} BlocksMaximal(lines: seq<string>)
    ensures forall k :: 0 <= k < |Blocks(lines)| - 1 && Blocks(lines)[k].Paragraph? ==>
      Blocks(lines)[k + 1].Break?
    decreases |lines|
  {
    if |lines| > 0 {
      var bs := Blocks(lines);
      if IsBreak(lines[0]) {
        BlocksMaximal(lines[1..]);
        assert bs[1..] == Blocks(lines[1..]);
      } else {
        var n := RunLength(lines);
        BlocksMaximal(lines[n..]);
        assert bs[1..] == Blocks(lines[n..]);
        if n < |lines| {
          assert IsBreak(lines[n..][0]);
        }
      }
      forall k | 0 <= k < |bs| - 1 && bs[k].Paragraph? ensures bs[k + 1].Break? {
        if k > 0 {
          assert bs[k] == bs[1..][k - 1] && bs[k + 1] == bs[1..][k];
        }
      }
    }
  }

  function Last<T>(xs: seq<T>): T
    requires |xs| > 0
  {
    xs[|xs| - 1]
  }

  /** A point between two line sequences where no paragraph can straddle. */
  predicate Boundary(a: seq<string>, b: seq<string>) {
    |a| == 0 || |b| == 0 || IsBreak(Last(a)) || IsBreak(b[0])
  }

  lemma {:induction false} RunLengthAppend(a: seq<string>, b: seq<string>)
    requires Boundary(a, b)
    requires RunLength(a) < |a| || |b| == 0 || IsBreak(b[0])
    ensures RunLength(a + b) == RunLength(a)
    decreases |a|
  {
    if |a| > 0 && !IsBreak(a[0]) {
      if |a| == 1 {
        assert (a + b)[1..] == b;
        if |b| > 0 {
          assert RunLength(b) == 0;
        }
      } else {
        assert (a + b)[1..] == a[1..] + b;
        assert Last(a[1..]) == Last(a);
        RunLengthAppend(a[1..], b);
      }
    }
  }

  lemma {:induction false} BlocksAppend(a: seq<string>, b: seq<string>)
    requires Boundary(a, b)
    ensures Blocks(a + b) == Blocks(a) + Blocks(b)
    decreases |a|, 1
  {
    if |a| == 0 {
      assert a + b == b;
    } else if IsBreak(a[0]) {
      BlocksAppendBreak(a, b);
    } else if RunLength(a) < |a| {
      BlocksAppendRun(a, b);
    } else if |b| == 0 {
      assert a + b == a;
    } else {
      BlocksAppendWholeRun(a, b);
    }
  }

  lemma {:induction false} BlocksAppendBreak(a: seq<string>, b: seq<string>)
    requires Boundary(a, b) && |a| > 0 && IsBreak(a[0])
    ensures Blocks(a + b) == Blocks(a) + Blocks(b)
    decreases |a|, 0
  {
    var ab := a + b;
    assert ab[0] == a[0];
    assert ab[1..] == a[1..] + b;
    if |a| > 1 {
      assert Last(a[1..]) == Last(a);
    }
    BlocksAppend(a[1..], b);
    assert Blocks(ab) == [Break(a[0])] + Blocks(a[1..] + b);
    assert Blocks(a) == [Break(a[0])] + Blocks(a[1..]);
    Assoc3([Break(a[0])], Blocks(a[1..]), Blocks(b));
  }

  lemma {:induction false} BlocksAppendRun(a: seq<string>, b: seq<string>)
    requires Boundary(a, b) && |a| > 0 && !IsBreak(a[0]) && RunLength(a) < |a|
    ensures Blocks(a + b) == Blocks(a) + Blocks(b)
    decreases |a|, 0
  {
    var ab := a + b;
    assert ab[0] == a[0];
    var n := RunLength(a);
    RunLengthAppend(a, b);
    assert ab[..n] == a[..n];
    assert ab[n..] == a[n..] + b;
    assert Last(a[n..]) == Last(a);
    BlocksAppend(a[n..], b);
    assert Blocks(ab) == [Paragraph(a[..n])] + Blocks(a[n..] + b);
    assert Blocks(a) == [Paragraph(a[..n])] + Blocks(a[n..]);
    Assoc3([Paragraph(a[..n])], Blocks(a[n..]), Blocks(b));
  }

  lemma {:induction false} BlocksAppendWholeRun(a: seq<string>, b: seq<string>)
    requires Boundary(a, b) && |a| > 0 && !IsBreak(a[0]) && RunLength(a) == |a| && |b| > 0
    ensures Blocks(a + b) == Blocks(a) + Blocks(b)
  {
    var ab := a + b;
    var n := |a|;
    assert IsBreak(b[0]);
    assert ab[0] == a[0];
    RunLengthAppend(a, b);
    assert ab[..n] == a;
    assert ab[n..] == b;
    assert a[..n] == a;
    assert a[n..] == [];
    assert Blocks(ab) == [Paragraph(a)] + Blocks(b);
    assert Blocks(a) == [Paragraph(a)] + Blocks([]);
  }

  lemma {:induction false} BlocksOfRun(run: seq<string>)
    requires |run| > 0
    requires forall k :: 0 <= k < |run| ==> !IsBreak(run[k])
    ensures Blocks(run) == [Paragraph(run)]
  {
    assert RunLength(run) == |run|;
    assert run[..|run|] == run;
    assert run[|run|..] == [];
  }

  lemma {:induction false} RenderAllAppend(a: seq<Block>, b: seq<Block>)
    ensures RenderAll(a + b) == RenderAll(a) + RenderAll(b)
  {
  }

  /**
    The line machine, started with an output prefix and a buffer holding the stripped
    `pending` lines, produces exactly the prefix followed by one rendered line per block
    of `pending + rest`.
   */
  lemma {:induction false} ProcessLinesMatchesBlocks(pending: seq<string>, rest: seq<string>, out: seq<string>)
    requires forall k :: 0 <= k < |pending| ==> !IsBreak(pending[k])
    ensures ProcessLines(rest, out, StripAll(pending)) == out + RenderAll(Blocks(pending + rest))
    decreases |rest|, 1
  {
    if |rest| == 0 {
      assert pending + rest == pending;
      RenderRun(pending);
    } else if IsBreak(rest[0]) {
      ProcessBreakLine(pending, rest, out);
    } else {
      ProcessOrdinaryLine(pending, rest, out);
    }
  }

  /** An ordinary line joins the buffer, stripped. */
  lemma {:induction false} ProcessOrdinaryLine(pending: seq<string>, rest: seq<string>, out: seq<string>)
    requires forall k :: 0 <= k < |pending| ==> !IsBreak(pending[k])
    requires |rest| > 0 && !IsBreak(rest[0])
    ensures ProcessLines(rest, out, StripAll(pending)) == out + RenderAll(Blocks(pending + rest))
    decreases |rest|, 0
  {
    var pending' := pending + [rest[0]];
    StripAllSnoc(pending, rest[0]);
    assert ProcessLines(rest, out, StripAll(pending)) == ProcessLines(rest[1..], out, StripAll(pending'));
    assert forall k :: 0 <= k < |pending'| ==> !IsBreak(pending'[k]) by {
      forall k | 0 <= k < |pending'| ensures !IsBreak(pending'[k]) {
        if k < |pending| {
          assert pending'[k] == pending[k];
        }
      }
    }
    ProcessLinesMatchesBlocks(pending', rest[1..], out);
    ShiftHead(pending, rest);
  }

  lemma {:induction false} ShiftHead<T>(a: seq<T>, b: seq<T>)
    requires |b| > 0
    ensures (a + [b[0]]) + b[1..] == a + b
  {
    assert b == [b[0]] + b[1..];
  }

  lemma {:induction false} StripAllSnoc(lines: seq<string>, line: string)
    ensures StripAll(lines + [line]) == StripAll(lines) + [Strip(line)]
  {
  }

  /** A break line flushes the buffer, then is emitted itself. */
  lemma {:induction false} ProcessBreakLine(pending: seq<string>, rest: seq<string>, out: seq<string>)
    requires forall k :: 0 <= k < |pending| ==> !IsBreak(pending[k])
    requires |rest| > 0 && IsBreak(rest[0])
    ensures ProcessLines(rest, out, StripAll(pending)) == out + RenderAll(Blocks(pending + rest))
    decreases |rest|, 0
  {
    var line := rest[0];
    var head := Flush(StripAll(pending));
    var tail := RenderAll(Blocks(rest[1..]));
    var flushed := out + head + [line];
    ProcessLinesBreakStep(rest, out, StripAll(pending));
    assert StripAll([]) == [];
    ProcessLinesMatchesBlocks([], rest[1..], flushed);
    assert [] + rest[1..] == rest[1..];
    BlocksAtBreak(pending, rest);
    Assoc4(out, head, [line], tail);
  }

  lemma {:induction false} ProcessLinesBreakStep(lines: seq<string>, out: seq<string>, buffer: seq<string>)
    requires |lines| > 0 && IsBreak(lines[0])
    ensures ProcessLines(lines, out, buffer) == ProcessLines(lines[1..], out + Flush(buffer) + [lines[0]], [])
  {
  }

  lemma {:induction false} Assoc3<T>(a: seq<T>, b: seq<T>, c: seq<T>)
    ensures a + (b + c) == a + b + c
  {
  }

  lemma {:induction false} Assoc4<T>(a: seq<T>, b: seq<T>, c: seq<T>, d: seq<T>)
    ensures a + b + c + d == a + (b + c + d)
  {
  }

  /** Rendering the blocks of a pending run followed by a break line and more lines. */
  lemma {:induction false} BlocksAtBreak(pending: seq<string>, rest: seq<string>)
    requires forall k :: 0 <= k < |pending| ==> !IsBreak(pending[k])
    requires |rest| > 0 && IsBreak(rest[0])
    ensures RenderAll(Blocks(pending + rest)) == Flush(StripAll(pending)) + [rest[0]] + RenderAll(Blocks(rest[1..]))
  {
    var line := rest[0];
    var head := Flush(StripAll(pending));
    var tail := RenderAll(Blocks(rest[1..]));
    BlocksAppend(pending, rest);
    RenderAllAppend(Blocks(pending), Blocks(rest));
    RenderRun(pending);
    RenderBreak(rest);
    assert RenderAll(Blocks(pending + rest)) == head + ([line] + tail);
    assert head + ([line] + tail) == head + [line] + tail;
  }

  lemma {:induction false} RenderBreak(rest: seq<string>)
    requires |rest| > 0 && IsBreak(rest[0])
    ensures RenderAll(Blocks(rest)) == [rest[0]] + RenderAll(Blocks(rest[1..]))
  {
    assert Blocks(rest) == [Break(rest[0])] + Blocks(rest[1..]);
    RenderAllAppend([Break(rest[0])], Blocks(rest[1..]));
    assert RenderAll([Break(rest[0])]) == [rest[0]];
  }

  /** A run of ordinary lines renders exactly as the flushed buffer of its stripped lines. */
  lemma {:induction false} RenderRun(run: seq<string>)
    requires forall k :: 0 <= k < |run| ==> !IsBreak(run[k])
    ensures RenderAll(Blocks(run)) == Flush(StripAll(run))
  {
    if |run| > 0 {
      BlocksOfRun(run);
      assert RenderAll([Paragraph(run)])[0] == Join(" ", StripAll(run));
    } else {
      assert RenderAll([]) == [];
    }
  }

  /**
    The prose half of `process_content`: one output line per block, in input order. A
    list item or blank line is emitted verbatim on its own line; a maximal run of
    ordinary lines becomes those lines stripped and joined with single spaces.
   */
  lemma {:induction false} UnwrapLines(lines: seq<string>)
    ensures ProcessLines(lines, [], []) == RenderAll(Blocks(lines))
  {
    ProcessLinesMatchesBlocks([], lines, []);
    assert [] + lines == lines;
  }

  /**
    `process_content` over the whole text: the segments of the fence split, each fenced
    block copied verbatim and each other segment (unless it itself begins with "```")
    replaced by its rendered blocks joined with "\n", concatenated in order.
   */
  lemma {:induction false} ProcessContentSegments(content: string)
    ensures var segs := SplitFences(content);
      ProcessAll(segs) == seq(|segs|, k requires 0 <= k < |segs| =>
        if k % 2 == 1 || StartsWith(segs[k], Fence) then segs[k]
        else Join("\n", RenderAll(Blocks(SplitLines(segs[k])))))
  {
    var segs := SplitFences(content);
    SplitFencesShape(content);
    forall k | 0 <= k < |segs| && k % 2 == 0 && !StartsWith(segs[k], Fence)
      ensures ProcessSegment(segs[k]) == Join("\n", RenderAll(Blocks(SplitLines(segs[k]))))
    {
      UnwrapLines(SplitLines(segs[k]));
    }
  }

  /** Text with no "```" at all is one prose segment. */
  lemma {:induction false} ProcessContentWithoutFences(content: string)
    requires !Contains(content, Fence)
    ensures ProcessContent(content) == Join("\n", RenderAll(Blocks(SplitLines(content))))
  {
    assert FindFrom(content, Fence, 0).None?;
    assert SplitFences(content) == [content];
    assert !StartsWith(content, Fence) by {
      assert !OccursAt(content, Fence, 0);
    }
    UnwrapLines(SplitLines(content));
    assert ProcessAll([content]) == [ProcessSegment(content)];
    assert ProcessSegment(content) == Join("\n", ProcessLines(SplitLines(content), [], []));
    assert Concat([ProcessSegment(content)]) == ProcessSegment(content);
  }
}
