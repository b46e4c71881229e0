/**
  The documentation helpers of the feature-file agent's file-system plugin: snippet
  extraction around matching lines, the search-result report, the byte-size unit
  choice, the text-file filter and the guards in front of reading a file.

  Directory enumeration, path normalisation and file contents are inputs here: a read
  is given the already resolved path and a map from resolved paths to file contents.
 */
module FileSystem {
  import opened Wrappers
  import opened Text

  // ===========================================================================
  // Character-level helpers
  // ===========================================================================

  /** `s.Replace(a, b)` for single characters. */
  function ReplaceChar(s: string, a: char, b: char): (r: string)
    ensures |r| == |s|
    ensures forall i :: 0 <= i < |s| ==> r[i] == (if s[i] == a then b else s[i])
  {
    seq(|s|, i requires 0 <= i < |s| => if s[i] == a then b else s[i])
  }

  /**
    `s.Replace("  ", " ")`: one left-to-right pass that turns each non-overlapping pair
    of spaces into one space. Longer runs only shrink to half their length.
   */
  function ReplaceDoubleSpace(s: string): (r: string)
    ensures |r| <= |s|
  {
    if |s| >= 2 && s[0] == ' ' && s[1] == ' ' then " " + ReplaceDoubleSpace(s[2..])
    else if |s| == 0 then ""
    else [s[0]] + ReplaceDoubleSpace(s[1..])
  }

  function Spaces(n: nat): (r: string)
    ensures |r| == n
    ensures forall i :: 0 <= i < n ==> r[i] == ' '
  {
    seq(n, i => ' ')
  }

  /** A run of `n` spaces comes out as a run of `n / 2` rounded up: four spaces become two. */
  lemma {:induction false} ReplaceDoubleSpaceRun(n: nat)
    ensures ReplaceDoubleSpace(Spaces(n)) == Spaces((n + 1) / 2)
  {
    if n >= 2 {
      ReplaceDoubleSpaceRun(n - 2);
      assert Spaces(n)[2..] == Spaces(n - 2);
      assert " " + Spaces((n - 1) / 2) == Spaces((n + 1) / 2);
    } else if n == 1 {
      assert Spaces(1)[1..] == "";
      assert ReplaceDoubleSpace("") == "";
      assert Spaces(1) == [' '];
    }
  }

  /** Text without a double space passes through unchanged. */
  lemma {:induction false} ReplaceDoubleSpaceNoPair(s: string)
    requires forall i :: 0 <= i < |s| - 1 ==> !(s[i] == ' ' && s[i + 1] == ' ')
    ensures ReplaceDoubleSpace(s) == s
  {
    if |s| > 0 {
      forall i | 0 <= i < |s[1..]| - 1 ensures !(s[1..][i] == ' ' && s[1..][i + 1] == ' ') {
        assert s[1..][i] == s[i + 1] && s[1..][i + 1] == s[i + 2];
      }
      ReplaceDoubleSpaceNoPair(s[1..]);
      assert s == [s[0]] + s[1..];
    }
  }

  /** The pass only ever writes spaces and characters it read. */
  lemma {:induction false} ReplaceDoubleSpaceKeepsCharOut(s: string, c: char)
    requires c != ' ' && !HasChar(s, c)
    ensures !HasChar(ReplaceDoubleSpace(s), c)
  {
    if |s| > 0 {
      var k := if |s| >= 2 && s[0] == ' ' && s[1] == ' ' then 2 else 1;
      NoCharInSlice(s, c, k, |s|);
      ReplaceDoubleSpaceKeepsCharOut(s[k..], c);
      var r := ReplaceDoubleSpace(s);
      var tail := ReplaceDoubleSpace(s[k..]);
      assert r == [if k == 2 then ' ' else s[0]] + tail;
      forall i | 0 <= i < |r| ensures r[i] != c {
        if i > 0 {
          assert r[i] == tail[i - 1];
        }
      }
    }
  }

  lemma {:induction false} NoCharInSlice(s: string, c: char, a: nat, b: nat)
    requires a <= b <= |s| && !HasChar(s, c)
    ensures !HasChar(s[a..b], c)
  {
    forall i | 0 <= i < b - a ensures s[a..b][i] != c {
      assert s[a..b][i] == s[a + i];
    }
  }

  /** Trimming only removes characters. */
  lemma {:induction false} StripKeepsCharOut(s: string, c: char)
    requires !HasChar(s, c)
    ensures !HasChar(Strip(s), c)
  {
    var t := TrimStart(s);
    NoCharInSlice(s, c, |s| - |t|, |s|);
    NoCharInSlice(t, c, 0, |TrimEnd(t)|);
  }

  /** The longest prefix of `s` that has at most `n` characters. */
  function Truncate(s: string, n: nat): (r: string)
    ensures |r| == if |s| > n then n else |s|
    ensures r == s[..|r|]
  {
    if |s| > n then s[..n] else s
  }

  // ===========================================================================
  // ExtractSnippets
  // ===========================================================================

  const MaxSnippets: nat := 5
  const MaxSnippetLength: nat := 200

  /** The first and last line of the window around line `i`: one line either side, clipped. */
  function WindowStart(i: nat): nat {
    if i == 0 then 0 else i - 1
  }

  function WindowEnd(n: nat, i: nat): (r: nat)
    requires i < n
    ensures i <= r < n
  {
    if i + 1 <= n - 1 then i + 1 else n - 1
  }

  /** The snippet for matching line `i`: its window joined by spaces, cleaned and capped. */
  function Snippet(lines: seq<string>, i: nat): string
    requires i < |lines|
  {
    var window := lines[WindowStart(i)..WindowEnd(|lines|, i) + 1];
    var cleaned := ReplaceDoubleSpace(ReplaceChar(Strip(Join(" ", window)), '\t', ' '));
    Truncate(cleaned, MaxSnippetLength)
  }

  predicate LineMatches(line: string, pattern: string) {
    ContainsIgnoreCase(line, pattern)
  }

  /** Indices of the lines before `i` that contain the pattern, in increasing order. */
  function MatchesBefore(lines: seq<string>, pattern: string, i: nat): (r: seq<nat>)
    requires i <= |lines|
    ensures forall k :: 0 <= k < |r| ==> r[k] < i && LineMatches(lines[r[k]], pattern)
    ensures forall k, l :: 0 <= k < l < |r| ==> r[k] < r[l]
    ensures forall j :: 0 <= j < i && LineMatches(lines[j], pattern) ==> j in r
  {
    if i == 0 then []
    else
      var prev := MatchesBefore(lines, pattern, i - 1);
      if LineMatches(lines[i - 1], pattern) then prev + [i - 1] else prev
  }

  lemma {:induction false} MatchesBeforePrefix(lines: seq<string>, pattern: string, i: nat, j: nat)
    requires i <= j <= |lines|
    ensures MatchesBefore(lines, pattern, i) <= MatchesBefore(lines, pattern, j)
    decreases j - i
  {
    if i < j {
      MatchesBeforePrefix(lines, pattern, i, j - 1);
    }
  }

  function SnippetsAt(lines: seq<string>, idx: seq<nat>): (r: seq<string>)
    requires forall k :: 0 <= k < |idx| ==> idx[k] < |lines|
    ensures |r| == |idx|
    ensures forall k :: 0 <= k < |idx| ==> r[k] == Snippet(lines, idx[k])
  {
    seq(|idx|, k requires 0 <= k < |idx| => Snippet(lines, idx[k]))
  }

  /** Reference definition: the snippets of the first five matching lines, in line order. */
  function Snippets(content: string, pattern: string): seq<string> {
    var lines := SplitChar(content, '\n');
    var idx := MatchesBefore(lines, pattern, |lines|);
    SnippetsAt(lines, if |idx| <= MaxSnippets then idx else idx[..MaxSnippets])
  }

  /** `snippets` are the snippets of the matching lines among the first `i`. */
  predicate Collected(lines: seq<string>, pattern: string, i: nat, snippets: seq<string>) {
    i <= |lines| && snippets == SnippetsAt(lines, MatchesBefore(lines, pattern, i))
  }

  /** `ExtractSnippets`: the loop over the lines with its early exit at five snippets. */
  method ExtractSnippets(content: string, pattern: string) returns (snippets: seq<string>)
    ensures snippets == Snippets(content, pattern)
  {
    var lines := SplitChar(content, '\n');
    snippets := [];
    var i := 0;
    while i < |lines|
      invariant Collected(lines, pattern, i, snippets) && |snippets| < MaxSnippets
    {
      snippets := ScanLine(lines, pattern, i, snippets);
      if |snippets| >= MaxSnippets {
        CollectedEarlyExit(content, pattern, i + 1, snippets);
        return;
      }
      i := i + 1;
    }
    CollectedAll(content, pattern, snippets);
  }

  /** One turn of the loop: a matching line adds its snippet, any other line adds nothing. */
  method ScanLine(lines: seq<string>, pattern: string, i: nat, snippets: seq<string>) returns (next: seq<string>)
    requires i < |lines| && Collected(lines, pattern, i, snippets)
    ensures Collected(lines, pattern, i + 1, next)
    ensures LineMatches(lines[i], pattern) ==> next == snippets + [Snippet(lines, i)]
    ensures !LineMatches(lines[i], pattern) ==> next == snippets
  {
    if LineMatches(lines[i], pattern) {
      CollectMatch(lines, pattern, i, snippets);
      next := snippets + [Snippet(lines, i)];
    } else {
      CollectSkip(lines, pattern, i, snippets);
      next := snippets;
    }
  }

  /** A matching line adds its snippet at the end. */
  lemma {:induction false} CollectMatch(lines: seq<string>, pattern: string, i: nat, snippets: seq<string>)
    requires i < |lines| && LineMatches(lines[i], pattern)
    requires Collected(lines, pattern, i, snippets)
    ensures Collected(lines, pattern, i + 1, snippets + [Snippet(lines, i)])
  {
    SnippetsAtSnoc(lines, pattern, MatchesBefore(lines, pattern, i), i);
  }

  /** Any other line adds nothing. */
  lemma {:induction false} CollectSkip(lines: seq<string>, pattern: string, i: nat, snippets: seq<string>)
    requires i < |lines| && !LineMatches(lines[i], pattern)
    requires Collected(lines, pattern, i, snippets)
    ensures Collected(lines, pattern, i + 1, snippets)
  {
    assert MatchesBefore(lines, pattern, i + 1) == MatchesBefore(lines, pattern, i);
  }

  /** Fewer than five matches in the whole file: the loop collects them all. */
  lemma {:induction false} CollectedAll(content: string, pattern: string, snippets: seq<string>)
    requires Collected(SplitChar(content, '\n'), pattern, |SplitChar(content, '\n')|, snippets)
    requires |snippets| < MaxSnippets
    ensures snippets == Snippets(content, pattern)
  {
  }

  /** The fifth match ends the loop with the first five snippets. */
  lemma {:induction false} CollectedEarlyExit(content: string, pattern: string, i: nat, snippets: seq<string>)
    requires Collected(SplitChar(content, '\n'), pattern, i, snippets)
    requires |snippets| == MaxSnippets
    ensures snippets == Snippets(content, pattern)
  {
    SnippetsEarlyExit(content, pattern, i);
  }

  /** One more matching line adds its snippet at the end. */
  lemma {:induction false} SnippetsAtSnoc(lines: seq<string>, pattern: string, idx: seq<nat>, i: nat)
    requires i < |lines| && LineMatches(lines[i], pattern)
    requires idx == MatchesBefore(lines, pattern, i)
    ensures MatchesBefore(lines, pattern, i + 1) == idx + [i]
    ensures SnippetsAt(lines, idx + [i]) == SnippetsAt(lines, idx) + [Snippet(lines, i)]
  {
    assert MatchesBefore(lines, pattern, i + 1) == idx + [i];
    SnippetsAtAppend(lines, idx, i);
  }

  /** The snippets of one more index are the old snippets followed by its own. */
  lemma {:induction false} SnippetsAtAppend(lines: seq<string>, idx: seq<nat>, i: nat)
    requires i < |lines|
    requires forall k :: 0 <= k < |idx| ==> idx[k] < |lines|
    ensures SnippetsAt(lines, idx + [i]) == SnippetsAt(lines, idx) + [Snippet(lines, i)]
  {
    var next := idx + [i];
    var a := SnippetsAt(lines, next);
    var b := SnippetsAt(lines, idx) + [Snippet(lines, i)];
    assert |a| == |b|;
    forall k | 0 <= k < |a| ensures a[k] == b[k] {
      if k < |idx| {
        assert next[k] == idx[k] && b[k] == SnippetsAt(lines, idx)[k];
      } else {
        assert next[k] == i && b[k] == Snippet(lines, i);
      }
    }
  }

  /** Once five matches are seen among the first `i` lines, they are the first five of all. */
  lemma {:induction false} FirstMatches(lines: seq<string>, pattern: string, i: nat)
    requires i <= |lines|
    requires |MatchesBefore(lines, pattern, i)| == MaxSnippets
    ensures |MatchesBefore(lines, pattern, |lines|)| >= MaxSnippets
    ensures MatchesBefore(lines, pattern, |lines|)[..MaxSnippets] == MatchesBefore(lines, pattern, i)
  {
    MatchesBeforePrefix(lines, pattern, i, |lines|);
  }

  /** Stopping once five matches are seen yields the first five of all the matches. */
  lemma {:induction false} SnippetsEarlyExit(content: string, pattern: string, i: nat)
    requires i <= |SplitChar(content, '\n')|
    requires |MatchesBefore(SplitChar(content, '\n'), pattern, i)| == MaxSnippets
    ensures Snippets(content, pattern) == SnippetsAt(SplitChar(content, '\n'), MatchesBefore(SplitChar(content, '\n'), pattern, i))
  {
    FirstMatches(SplitChar(content, '\n'), pattern, i);
  }

  /** Every snippet is at most 200 characters and holds no line break and no tab. */
  lemma {:induction false} SnippetShape(lines: seq<string>, i: nat)
    requires i < |lines|
    requires forall k :: 0 <= k < |lines| ==> !HasChar(lines[k], '\n')
    ensures |Snippet(lines, i)| <= MaxSnippetLength
    ensures !HasChar(Snippet(lines, i), '\n') && !HasChar(Snippet(lines, i), '\t')
  {
    var window := lines[WindowStart(i)..WindowEnd(|lines|, i) + 1];
    var joined := Join(" ", window);
    assert !HasChar(" ", '\n');
    JoinKeepsCharOut(" ", window, '\n');
    StripKeepsCharOut(joined, '\n');
    var untabbed := ReplaceChar(Strip(joined), '\t', ' ');
    assert !HasChar(untabbed, '\n') && !HasChar(untabbed, '\t');
    ReplaceDoubleSpaceKeepsCharOut(untabbed, '\n');
    ReplaceDoubleSpaceKeepsCharOut(untabbed, '\t');
    var cleaned := ReplaceDoubleSpace(untabbed);
    var r := Truncate(cleaned, MaxSnippetLength);
    NoCharInSlice(cleaned, '\n', 0, |r|);
    NoCharInSlice(cleaned, '\t', 0, |r|);
  }

  /**
    The snippets of a file: at most five, one per matching line in line order, each the
    capped window around its line, none longer than 200 characters, none holding a line
    break or a tab.
   */
  lemma {:induction false} SnippetsShape(content: string, pattern: string)
    ensures |Snippets(content, pattern)| <= MaxSnippets
    ensures forall k :: 0 <= k < |Snippets(content, pattern)| ==>
      |Snippets(content, pattern)[k]| <= MaxSnippetLength
      && !HasChar(Snippets(content, pattern)[k], '\n')
      && !HasChar(Snippets(content, pattern)[k], '\t')
    ensures var lines := SplitChar(content, '\n');
      var idx := MatchesBefore(lines, pattern, |lines|);
      |Snippets(content, pattern)| == (if |idx| <= MaxSnippets then |idx| else MaxSnippets)
  {
    var lines := SplitChar(content, '\n');
    var idx := MatchesBefore(lines, pattern, |lines|);
    var taken := if |idx| <= MaxSnippets then idx else idx[..MaxSnippets];
    var r := Snippets(content, pattern);
    forall k | 0 <= k < |r|
      ensures |r[k]| <= MaxSnippetLength && !HasChar(r[k], '\n') && !HasChar(r[k], '\t')
    {
      SnippetShape(lines, taken[k]);
    }
  }

  // ===========================================================================
  // FindFilesAsync: filtering and the report
  // ===========================================================================

  const TextExtensions: seq<string> := [
    ".txt", ".md", ".markdown", ".rst", ".doc", ".docx", ".pdf",
    ".cs", ".js", ".ts", ".py", ".java", ".cpp", ".c", ".h",
    ".html", ".htm", ".xml", ".json", ".yaml", ".yml",
    ".cfg", ".config", ".ini", ".log", ".csv"]

  /** `IsTextFile`, applied to the lower-cased extension as the caller does. */
  predicate IsTextFile(extension: string) {
    Fold(extension) in TextExtensions
  }

  /** The filter ignores the case of the extension: ".MD" is as much a text file as ".md". */
  lemma {:induction false} IsTextFileIgnoresCase(a: string, b: string)
    requires EqualsIgnoreCase(a, b)
    ensures IsTextFile(a) <==> IsTextFile(b)
  {
  }

  /** The listed extensions are lower case already, so each one is accepted as it is. */
  lemma {:induction false} TextExtensionsAccepted()
    ensures forall k :: 0 <= k < |TextExtensions| ==> IsTextFile(TextExtensions[k])
  {
    forall k | 0 <= k < |TextExtensions| ensures Fold(TextExtensions[k]) == TextExtensions[k] {
      LowerFixed(TextExtensions[k]);
    }
  }

  /** Lower-case letters and dots are left alone by case folding. */
  lemma {:induction false} LowerFixed(e: string)
    requires forall i :: 0 <= i < |e| ==> e[i] == '.' || 'a' <= e[i] <= 'z'
    ensures Fold(e) == e
  {
  }

  /** One file of the documentation folder, as enumerated. */
  datatype DocFile = DocFile(relativePath: string, extension: string, content: string)

  /** A file whose content contains the pattern, with its snippets. */
  datatype FileMatch = FileMatch(relativePath: string, snippets: seq<string>)

  /** `m` is the match for `f`, a text file of `files` whose content contains the pattern. */
  predicate Reported(f: DocFile, files: seq<DocFile>, pattern: string, m: FileMatch) {
    && f in files && IsTextFile(f.extension) && ContainsIgnoreCase(f.content, pattern)
    && m == FileMatch(f.relativePath, Snippets(f.content, pattern))
  }

  /** The loop of `FindFilesAsync`: text files whose content contains the pattern, in order. */
  function CollectMatches(files: seq<DocFile>, pattern: string): (r: seq<FileMatch>)
    ensures |r| <= |files|
  {
    if |files| == 0 then []
    else
      var f := files[0];
      var rest := CollectMatches(files[1..], pattern);
      if IsTextFile(f.extension) && ContainsIgnoreCase(f.content, pattern)
      then [FileMatch(f.relativePath, Snippets(f.content, pattern))] + rest
      else rest
  }

  /** Only text files whose content contains the pattern are reported. */
  lemma {:induction false} CollectMatchesSound(files: seq<DocFile>, pattern: string, m: FileMatch)
    requires m in CollectMatches(files, pattern)
    ensures exists f :: Reported(f, files, pattern, m)
  {
    var f := files[0];
    var rest := CollectMatches(files[1..], pattern);
    if IsTextFile(f.extension) && ContainsIgnoreCase(f.content, pattern)
      && m == FileMatch(f.relativePath, Snippets(f.content, pattern)) {
      assert Reported(f, files, pattern, m);
    } else {
      assert m in rest;
      CollectMatchesSound(files[1..], pattern, m);
      var g :| Reported(g, files[1..], pattern, m);
      assert Reported(g, files, pattern, m);
    }
  }

  /** Every text file whose content contains the pattern is reported. */
  lemma {:induction false} CollectMatchesComplete(files: seq<DocFile>, pattern: string, f: DocFile)
    requires f in files && IsTextFile(f.extension) && ContainsIgnoreCase(f.content, pattern)
    ensures FileMatch(f.relativePath, Snippets(f.content, pattern)) in CollectMatches(files, pattern)
  {
    if files[0] != f {
      CollectMatchesComplete(files[1..], pattern, f);
    }
  }

  const MaxFilesShown: nat := 10
  const MaxSnippetsShown: nat := 3

  function Take<T>(xs: seq<T>, n: nat): (r: seq<T>)
    ensures |r| <= n && |r| <= |xs| && r == xs[..|r|]
    ensures |xs| <= n ==> r == xs
    ensures |xs| > n ==> |r| == n
  {
    if |xs| <= n then xs else xs[..n]
  }

  function SnippetLines(snippets: seq<string>): string {
    if |snippets| == 0 then "" else "  - ..." + snippets[0] + "...\n" + SnippetLines(snippets[1..])
  }

  function FileBlock(m: FileMatch): string {
    "File: " + m.relativePath + "\n" + SnippetLines(Take(m.snippets, MaxSnippetsShown)) + "\n"
  }

  function FileBlocks(ms: seq<FileMatch>): string {
    if |ms| == 0 then "" else FileBlock(ms[0]) + FileBlocks(ms[1..])
  }

  /** What the report shows: the total, the files listed with their snippets, and how many more. */
  datatype Report = Report(total: nat, shown: seq<FileMatch>, more: nat)

  function MakeReport(matches: seq<FileMatch>): (r: Report)
    ensures r.total == |matches| == |r.shown| + r.more
    ensures |r.shown| <= MaxFilesShown
    ensures r.more > 0 <==> |matches| > MaxFilesShown
    ensures |matches| > MaxFilesShown ==> |r.shown| == MaxFilesShown && r.more == |matches| - MaxFilesShown
    ensures |matches| <= MaxFilesShown ==> |r.shown| == |matches| && r.more == 0
    ensures forall k :: 0 <= k < |r.shown| ==>
      r.shown[k].relativePath == matches[k].relativePath
      && |r.shown[k].snippets| <= MaxSnippetsShown
      && r.shown[k].snippets == Take(matches[k].snippets, MaxSnippetsShown)
  {
    var listed := Take(matches, MaxFilesShown);
    var shown := seq(|listed|, k requires 0 <= k < |listed| =>
      FileMatch(listed[k].relativePath, Take(listed[k].snippets, MaxSnippetsShown)));
    Report(|matches|, shown, |matches| - |listed|)
  }

  const TrailerEnd: string := " more files.\n"

  function RenderReport(pattern: string, r: Report): string {
    var header := "Found " + NatToString(r.total) + " file(s) containing '" + pattern + "':\n\n";
    var blocks := FileBlocks(r.shown);
    var trailer := if r.more > 0 then "... and " + NatToString(r.more) + TrailerEnd else "";
    header + blocks + trailer
  }

  /** The result text of `FindFilesAsync` for the matches found. */
  function FormatMatches(pattern: string, matches: seq<FileMatch>): string {
    if |matches| == 0 then "No files found containing the pattern: " + pattern
    else RenderReport(pattern, MakeReport(matches))
  }

  /** `FindFilesAsync` over an enumerated folder. */
  function FindFiles(files: seq<DocFile>, pattern: string): string {
    if IsBlank(pattern) then "Search pattern cannot be null or empty."
    else FormatMatches(pattern, CollectMatches(files, pattern))
  }

  lemma {:induction false} FileBlockEnding(m: FileMatch)
    ensures EndsWith(FileBlock(m), "\n\n")
  {
    var s := SnippetLines(Take(m.snippets, MaxSnippetsShown));
    var b := FileBlock(m);
    if |s| == 0 {
      assert b == "File: " + m.relativePath + "\n" + "\n";
    } else {
      SnippetLinesEnding(Take(m.snippets, MaxSnippetsShown));
      assert b[|b| - 2] == s[|s| - 1];
    }
  }

  lemma {:induction false} SnippetLinesEnding(snippets: seq<string>)
    requires |snippets| > 0
    ensures |SnippetLines(snippets)| > 0 && SnippetLines(snippets)[|SnippetLines(snippets)| - 1] == '\n'
  {
    if |snippets| > 1 {
      SnippetLinesEnding(snippets[1..]);
    }
  }

  lemma {:induction false} FileBlocksEnding(ms: seq<FileMatch>)
    requires |ms| > 0
    ensures EndsWith(FileBlocks(ms), "\n\n")
  {
    if |ms| == 1 {
      FileBlockEnding(ms[0]);
      assert FileBlocks(ms) == FileBlock(ms[0]) + "";
    } else {
      FileBlocksEnding(ms[1..]);
      var t := FileBlocks(ms[1..]);
      var all := FileBlocks(ms);
      assert all == FileBlock(ms[0]) + t;
      assert all[|all| - 2..] == t[|t| - 2..];
    }
  }

  /**
    The report lists at most ten files with at most three snippets each, and it ends with
    the "... and N more files." line exactly when more than ten files matched; otherwise it
    ends with the blank line after the last file.
   */
  lemma {:induction false} FormatMatchesTrailer(pattern: string, matches: seq<FileMatch>)
    requires |matches| > 0
    ensures EndsWith(FormatMatches(pattern, matches), TrailerEnd) <==> |matches| > MaxFilesShown
    ensures EndsWith(FormatMatches(pattern, matches), "\n\n") <==> |matches| <= MaxFilesShown
  {
    var rep := MakeReport(matches);
    if |matches| > MaxFilesShown {
      RenderWithMore(pattern, rep);
    } else {
      RenderWithoutMore(pattern, rep);
    }
  }

  /** With files left over, the report ends with the trailer line. */
  lemma RenderWithMore(pattern: string, r: Report)
    requires r.more > 0
    ensures EndsWith(RenderReport(pattern, r), TrailerEnd)
    ensures !EndsWith(RenderReport(pattern, r), "\n\n")
  {
    var text := RenderReport(pattern, r);
    var header := "Found " + NatToString(r.total) + " file(s) containing '" + pattern + "':\n\n";
    var front := header + FileBlocks(r.shown) + "... and " + NatToString(r.more);
    assert text == front + TrailerEnd;
    assert text[|front|..] == TrailerEnd;
    assert text[|text| - 2] == TrailerEnd[|TrailerEnd| - 2] == '.';
  }

  /** With every file listed, the report ends with the blank line after the last file. */
  lemma RenderWithoutMore(pattern: string, r: Report)
    requires r.more == 0 && |r.shown| > 0
    ensures EndsWith(RenderReport(pattern, r), "\n\n")
    ensures !EndsWith(RenderReport(pattern, r), TrailerEnd)
  {
    var text := RenderReport(pattern, r);
    var header := "Found " + NatToString(r.total) + " file(s) containing '" + pattern + "':\n\n";
    var blocks := FileBlocks(r.shown);
    assert text == header + blocks;
    FileBlocksEnding(r.shown);
    assert text[|text| - 2..] == blocks[|blocks| - 2..];
    assert text[|text| - 2] == '\n' != TrailerEnd[|TrailerEnd| - 2];
  }

  // ===========================================================================
  // FormatBytes
  // ===========================================================================

  datatype Unit = Bytes | KB | MB | GB

  const KiB: int := 1024
  const MiB: int := KiB * 1024
  const GiB: int := MiB * 1024

  function Divisor(u: Unit): int {
    match u
    case Bytes => 1
    case KB => KiB
    case MB => MiB
    case GB => GiB
  }

  function Rank(u: Unit): nat {
    match u
    case Bytes => 0
    case KB => 1
    case MB => 2
    case GB => 3
  }

  /** The switch of `FormatBytes`: the largest unit the size reaches. */
  function ChooseUnit(bytes: int): Unit {
    if bytes >= GiB then GB
    else if bytes >= MiB then MB
    else if bytes >= KiB then KB
    else Bytes
  }

  /**
    The chosen unit is the one whose scaled value lies in [1, 1024): the size reaches the
    unit's divisor and (below GB) stays under the next one; sizes under 1024, including
    negative ones, stay in bytes; and a bigger size never gets a smaller unit.
   */
  lemma {:induction false} ChooseUnitScale(bytes: int, other: int)
    ensures var u := ChooseUnit(bytes);
      (u != Bytes ==> Divisor(u) <= bytes) && (u != GB ==> bytes < 1024 * Divisor(u))
    ensures ChooseUnit(bytes) == Bytes <==> bytes < 1024
    ensures bytes <= other ==> Rank(ChooseUnit(bytes)) <= Rank(ChooseUnit(other))
  {
  }

  /**
    `FormatBytes`. The two-decimal rendering of `bytes / unit` is floating-point text and
    is the parameter `fixed2`; sizes under 1 KB are written as a whole number.
   */
  function FormatBytes(bytes: int, fixed2: (int, int) -> string): (r: string)
    ensures ChooseUnit(bytes) == Bytes ==> r == IntToString(bytes) + " bytes"
    ensures ChooseUnit(bytes) == KB ==> EndsWith(r, " KB")
    ensures ChooseUnit(bytes) == MB ==> EndsWith(r, " MB")
    ensures ChooseUnit(bytes) == GB ==> EndsWith(r, " GB")
  {
    match ChooseUnit(bytes)
    case GB => fixed2(bytes, GiB) + " GB"
    case MB => fixed2(bytes, MiB) + " MB"
    case KB => fixed2(bytes, KiB) + " KB"
    case Bytes => IntToString(bytes) + " bytes"
  }

  // ===========================================================================
  // ReadFileAsync
  // ===========================================================================

  /** What a read can answer. */
  datatype ReadReply = BlankPath | AccessDenied | FileNotFound | FileEmpty | Content(text: string)

  function ReadReplyText(reply: ReadReply, relativePath: string): string {
    match reply
    case BlankPath => "Relative path cannot be null or empty."
    case AccessDenied => "Access denied: Path is outside the documentation folder."
    case FileNotFound => "File not found: " + relativePath
    case FileEmpty => "File is empty: " + relativePath
    case Content(text) => text
  }

  /** The containment guard as written: a case-insensitive prefix test on the path text. */
  predicate PassesGuard(folder: string, resolved: string) {
    StartsWithIgnoreCase(resolved, folder)
  }

  /**
    `ReadFileAsync`. `resolved` is the normalised full path of the folder combined with
    `relativePath`; `files` maps existing full paths to their text.
   */
  function ReadFile(folder: string, relativePath: string, resolved: string, files: map<string, string>): (r: ReadReply)
    ensures r.Content? <==>
      !IsBlank(relativePath) && PassesGuard(folder, resolved) && resolved in files && !IsBlank(files[resolved])
    ensures r.Content? ==> r.text == files[resolved]
    ensures r == AccessDenied <==> !IsBlank(relativePath) && !PassesGuard(folder, resolved)
    ensures r == BlankPath <==> IsBlank(relativePath)
    ensures r == FileNotFound <==> !IsBlank(relativePath) && PassesGuard(folder, resolved) && resolved !in files
    ensures r == FileEmpty <==>
      !IsBlank(relativePath) && PassesGuard(folder, resolved) && resolved in files && IsBlank(files[resolved])
  {
    if IsBlank(relativePath) then BlankPath
    else if !PassesGuard(folder, resolved) then AccessDenied
    else if resolved !in files then FileNotFound
    else if IsBlank(files[resolved]) then FileEmpty
    else Content(files[resolved])
  }

  /**
    The guard is a text prefix test, not directory containment: any path that begins with
    the folder's characters passes, including a sibling folder such as "/docs-private"
    next to "/docs", and the comparison ignores case.
   */
  lemma {:induction false} GuardIsPrefixTest(folder: string, suffix: string)
    ensures PassesGuard(folder, folder + suffix)
    ensures PassesGuard(folder, Fold(folder) + suffix)
  {
    assert (folder + suffix)[..|folder|] == folder;
    FoldIdempotent(folder);
    assert (Fold(folder) + suffix)[..|folder|] == Fold(folder);
  }

  /** Any case variant of the folder, followed by anything, passes the guard: "/DOCS/x" for "/docs". */
  lemma {:induction false} GuardIgnoresCase(folder: string, variant: string, suffix: string)
    requires EqualsIgnoreCase(variant, folder)
    ensures PassesGuard(folder, variant + suffix)
  {
    assert (variant + suffix)[..|folder|] == variant;
  }

  lemma {:induction false} FoldIdempotent(s: string)
    ensures Fold(Fold(s)) == Fold(s)
  {
    assert forall i :: 0 <= i < |s| ==> FoldChar(FoldChar(s[i])) == FoldChar(s[i]);
  }

  /** A file in the sibling folder "/docs-x" is read although it is outside "/docs". */
  lemma {:induction false} SiblingFolderIsRead(secret: string)
    requires !IsBlank(secret)
    ensures ReadFile("/docs", "../docs-x/a", "/docs-x/a", map["/docs-x/a" := secret]) == Content(secret)
  {
    GuardIsPrefixTest("/docs", "-x/a");
    assert "/docs" + "-x/a" == "/docs-x/a";
    assert !IsSpace("../docs-x/a"[0]);
  }
}
