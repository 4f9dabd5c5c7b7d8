/** The filter over a generated Caddyfile: it scans the file for site blocks and writes out those
    whose host is not blocked.
 */
module CaddySites {
  import opened Text

  // ---- What a line can be ----

  datatype Kind = Ignored | Snippet | Site(host: string)

  predicate HostChar(c: char) {
    c == '*' || 'A' <= c <= 'Z' || 'a' <= c <= 'z' || '0' <= c <= '9' || c == '.' || c == '-'
  }

  function HostRun(s: string): (n: nat)
    ensures n <= |s|
  {
    if s != [] && HostChar(s[0]) then 1 + HostRun(s[1..]) else 0
  }

  /** The site pattern: one or more host characters, white space, an opening brace. */
  function HostOf(trimmed: string): Option<string> {
    var n := HostRun(trimmed);
    if n > 0 && StartsWith(TrimStart(trimmed[n..], JavaScript), "{") then Some(trimmed[..n]) else None
  }

  function KindOf(line: string): Kind {
    var trimmed := JsTrim(line);
    if trimmed == "" || trimmed[0] == '#' then Ignored
    else if trimmed[0] == '(' then Snippet
    else
      match HostOf(trimmed)
      case Some(host) => Site(host)
      case None => Ignored
  }

  /** A line that opens a site block: the host and a brace, with white space around and between. */
  ghost predicate OpensSite(line: string, host: string, before: string, gap: string, rest: string) {
    && line == before + host + gap + "{" + rest
    && AllSpace(before, JavaScript) && AllSpace(gap, JavaScript)
    && host != ""
    && forall k :: 0 <= k < |host| ==>
         'a' <= host[k] <= 'z' || 'A' <= host[k] <= 'Z' || '0' <= host[k] <= '9' || host[k] in "*.-"
  }

  lemma {:induction false} HostRunIs(s: string, n: nat)
    requires n <= |s| && (forall k :: 0 <= k < n ==> HostChar(s[k])) && (n == |s| || !HostChar(s[n]))
    ensures HostRun(s) == n
  {
    if n > 0 {
      HostRunIs(s[1..], n - 1);
    }
  }

  lemma {:induction false} HostRunStops(s: string)
    ensures var n := HostRun(s); (forall k :: 0 <= k < n ==> HostChar(s[k])) && (n == |s| || !HostChar(s[n]))
  {
    if s != [] && HostChar(s[0]) {
      HostRunStops(s[1..]);
    }
  }

  lemma {:induction false} HostOfIs(s: string, host: string, gap: string)
    requires |s| > |host| + |gap| && s[..|host|] == host && s[|host|..|host| + |gap|] == gap
    requires s[|host| + |gap|] == '{' && AllSpace(gap, JavaScript)
    requires host != "" && forall k :: 0 <= k < |host| ==> HostChar(host[k])
    ensures HostOf(s) == Some(host)
  {
    var n := |host|;
    assert forall k :: 0 <= k < n ==> s[k] == host[k];
    assert gap != "" ==> s[n] == gap[0];
    HostRunIs(s, n);
    var i := TrimStartIs(s[n..], JavaScript);
    assert forall k :: 0 <= k < |gap| ==> s[n..][k] == gap[k];
    assert i == |gap|;
  }

  lemma {:induction false} OpeningLineIsSite(line: string, host: string, before: string, gap: string, rest: string)
    requires OpensSite(line, host, before, gap, rest)
    ensures KindOf(line) == Site(host)
  {
    assert forall k :: 0 <= k < |host| ==> HostChar(host[k]);
    var i := TrimStartIs(line, JavaScript);
    assert line[|before|] == host[0];
    assert i == |before|;
    var core := line[i..];
    assert core == host + gap + "{" + rest;
    var n := TrimEndIs(core, JavaScript);
    OpeningSurvives(core, n, host, gap, rest);
    HostOfIs(core[..n], host, gap);
  }

  /** Trimming the end leaves the brace, and what is before it. */
  lemma {:induction false} OpeningSurvives(core: string, n: nat, host: string, gap: string, rest: string)
    requires core == host + gap + "{" + rest && host != "" && n <= |core|
    requires forall k :: n <= k < |core| ==> IsSpace(JavaScript, core[k])
    ensures var p := |host| + |gap|;
            n > p && core[p] == '{' && core[..n][0] == host[0]
            && core[..n][..|host|] == host && core[..n][|host|..p] == gap
  {
    assert core[|host| + |gap|] == '{';
  }

  lemma {:induction false} HostOfOpens(trimmed: string, host: string) returns (gap: string, rest: string)
    requires HostOf(trimmed) == Some(host)
    ensures OpensSite(trimmed, host, "", gap, rest)
  {
    HostRunStops(trimmed);
    var tail := trimmed[|host|..];
    var m := TrimStartIs(tail, JavaScript);
    gap, rest := tail[..m], tail[m + 1..];
    assert tail[m..][0] == '{';
    assert tail == gap + "{" + rest;
    assert trimmed == "" + host + gap + "{" + rest;
  }

  lemma {:induction false} TrimParts(line: string) returns (before: string, after: string)
    ensures line == before + JsTrim(line) + after && AllSpace(before, JavaScript)
  {
    var i := TrimStartIs(line, JavaScript);
    var n := TrimEndIs(line[i..], JavaScript);
    before, after := line[..i], line[i..][n..];
  }

  lemma {:induction false} SiteIsOpeningLine(line: string, host: string)
    requires KindOf(line) == Site(host)
    ensures exists before, gap, rest :: OpensSite(line, host, before, gap, rest)
  {
    var before, after := TrimParts(line);
    var trimmed := JsTrim(line);
    var gap, rest := HostOfOpens(trimmed, host);
    assert before + ("" + host + gap + "{" + rest) + after == before + host + gap + "{" + (rest + after);
    assert OpensSite(line, host, before, gap, rest + after);
  }

  /** What the scan takes for the first line of a site block, and for that of which site. */
  lemma {:induction false} SiteIff(line: string, host: string)
    ensures KindOf(line) == Site(host) <==> exists before, gap, rest :: OpensSite(line, host, before, gap, rest)
  {
    if KindOf(line) == Site(host) {
      SiteIsOpeningLine(line, host);
    }
    if before, gap, rest :| OpensSite(line, host, before, gap, rest) {
      OpeningLineIsSite(line, host, before, gap, rest);
    }
  }

  /** And for the first line of a snippet: any whose first character, white space aside, is an
      opening parenthesis. */
  lemma {:induction false} SnippetIff(line: string)
    ensures KindOf(line) == Snippet <==>
              exists i :: 0 <= i < |line| && AllSpace(line[..i], JavaScript) && line[i] == '('
  {
    if i :| 0 <= i < |line| && AllSpace(line[..i], JavaScript) && line[i] == '(' {
      assert forall k :: 0 <= k < i ==> line[k] == line[..i][k];
      TrimFirst(line, i, JavaScript);
    }
    if KindOf(line) == Snippet {
      var i := TrimWitness(line, JavaScript);
      assert AllSpace(line[..i], JavaScript) && line[i] == '(';
    }
  }

  /** How many more braces a line opens than it closes. */
  function Delta(line: string): int {
    Count(line, '{') - Count(line, '}')
  }

  function Balance(lines: seq<string>): int {
    if lines == [] then 0 else Delta(lines[0]) + Balance(lines[1..])
  }

  // ---- What a file is made of ----

  datatype Segment = Line(line: string) | Definition(lines: seq<string>) | Block(host: string, lines: seq<string>)

  function Flat(segments: seq<Segment>): seq<string> {
    if segments == [] then [] else LinesOf(segments[0]) + Flat(segments[1..])
  }

  function LinesOf(segment: Segment): seq<string> {
    match segment
    case Line(line) => [line]
    case Definition(lines) => lines
    case Block(_, lines) => lines
  }

  /** A run of lines whose braces stay open, starting at `brace`, until its very end. */
  ghost predicate StaysOpen(lines: seq<string>, brace: int) {
    forall k :: 0 <= k < |lines| ==> brace + Balance(lines[..k]) > 0
  }

  /** A braced run: its first line opens it, no proper prefix closes it, and it is closed as a
      whole unless the file ends first. */
  ghost predicate IsBraced(lines: seq<string>, last: bool) {
    && lines != []
    && StaysOpen(lines[1..], Delta(lines[0]))
    && (Balance(lines) <= 0 || last)
  }

  ghost predicate IsSegment(segment: Segment, last: bool) {
    match segment
    case Line(line) => KindOf(line) == Ignored
    case Definition(lines) => IsBraced(lines, last) && KindOf(lines[0]) == Snippet
    case Block(host, lines) => IsBraced(lines, last) && KindOf(lines[0]) == Site(host)
  }

  /** `segments` cuts `lines` into ignored lines, snippet definitions and site blocks. */
  ghost predicate Divides(segments: seq<Segment>, lines: seq<string>) {
    && Flat(segments) == lines
    && forall k :: 0 <= k < |segments| ==> IsSegment(segments[k], k == |segments| - 1)
  }

  // ---- The division the scan finds ----

  /** How many of the following lines belong to a run whose braces stand at `brace`. */
  function Extent(lines: seq<string>, brace: int): (n: nat)
    ensures n <= |lines|
  {
    if lines != [] && brace > 0 then 1 + Extent(lines[1..], brace + Delta(lines[0])) else 0
  }

  function RunLength(lines: seq<string>): (n: nat)
    requires lines != []
    ensures 1 <= n <= |lines|
  {
    1 + Extent(lines[1..], Delta(lines[0]))
  }

  function Segments(lines: seq<string>): seq<Segment> {
    if lines == [] then []
    else
      var n := RunLength(lines);
      match KindOf(lines[0])
      case Ignored => [Line(lines[0])] + Segments(lines[1..])
      case Snippet => [Definition(lines[..n])] + Segments(lines[n..])
      case Site(host) => [Block(host, lines[..n])] + Segments(lines[n..])
  }

  /** The blocks to write: those of the sites whose host is not blocked, in order. */
  function Emitted(segments: seq<Segment>, blocked: set<string>): seq<seq<string>> {
    if segments == [] then []
    else
      var rest := Emitted(segments[1..], blocked);
      if segments[0].Block? && segments[0].host !in blocked then [segments[0].lines] + rest else rest
  }

  lemma {:induction false} BalanceCons(line: string, lines: seq<string>)
    ensures Balance([line] + lines) == Delta(line) + Balance(lines)
  {
    assert ([line] + lines)[1..] == lines;
  }

  lemma {:induction false} ExtentStaysOpen(lines: seq<string>, brace: int)
    ensures var n := Extent(lines, brace);
            && StaysOpen(lines[..n], brace)
            && (n < |lines| ==> brace + Balance(lines[..n]) <= 0)
  {
    var n := Extent(lines, brace);
    if n > 0 {
      var brace' := brace + Delta(lines[0]);
      ExtentStaysOpen(lines[1..], brace');
      assert lines[..n] == [lines[0]] + lines[1..][..n - 1];
      BalanceCons(lines[0], lines[1..][..n - 1]);
      forall k | 0 < k < n ensures brace + Balance(lines[..n][..k]) > 0 {
        assert lines[..n][..k] == [lines[0]] + lines[1..][..n - 1][..k - 1];
        BalanceCons(lines[0], lines[1..][..n - 1][..k - 1]);
      }
    }
  }

  lemma {:induction false} ExtentIs(run: seq<string>, rest: seq<string>, brace: int)
    requires StaysOpen(run, brace)
    requires brace + Balance(run) <= 0 || rest == []
    ensures Extent(run + rest, brace) == |run|
  {
    if run == [] {
      assert run + rest == rest;
    } else {
      assert brace + Balance(run[..0]) > 0;
      assert (run + rest)[1..] == run[1..] + rest;
      forall k | 0 <= k < |run| - 1 ensures brace + Delta(run[0]) + Balance(run[1..][..k]) > 0 {
        assert run[..k + 1] == [run[0]] + run[1..][..k];
        BalanceCons(run[0], run[1..][..k]);
      }
      ExtentIs(run[1..], rest, brace + Delta(run[0]));
    }
  }

  lemma {:induction false} RunIsBraced(lines: seq<string>)
    requires lines != []
    ensures IsBraced(lines[..RunLength(lines)], RunLength(lines) == |lines|)
  {
    var n := RunLength(lines);
    ExtentStaysOpen(lines[1..], Delta(lines[0]));
    assert lines[..n] == [lines[0]] + lines[1..][..n - 1];
    assert lines[..n][1..] == lines[1..][..n - 1];
    BalanceCons(lines[0], lines[1..][..n - 1]);
  }

  lemma {:induction false} BracedRunLength(run: seq<string>, rest: seq<string>)
    requires IsBraced(run, rest == [])
    ensures RunLength(run + rest) == |run|
  {
    assert (run + rest)[1..] == run[1..] + rest;
    ExtentIs(run[1..], rest, Delta(run[0]));
  }

  lemma {:induction false} FlatSegments(lines: seq<string>)
    ensures Flat(Segments(lines)) == lines
    decreases |lines|
  {
    if lines != [] {
      var n := if KindOf(lines[0]) == Ignored then 1 else RunLength(lines);
      var head, rest := Segments(lines)[0], lines[n..];
      FlatSegments(rest);
      assert Segments(lines) == [head] + Segments(rest);
      assert LinesOf(head) == lines[..n];
    }
  }

  lemma {:induction false} SegmentsAreSegments(lines: seq<string>)
    ensures var s := Segments(lines); forall k :: 0 <= k < |s| ==> IsSegment(s[k], k == |s| - 1)
    decreases |lines|
  {
    if lines != [] {
      var s := Segments(lines);
      var n := if KindOf(lines[0]) == Ignored then 1 else RunLength(lines);
      assert s[1..] == Segments(lines[n..]);
      SegmentsAreSegments(lines[n..]);
      RunIsBraced(lines);
      assert n == |lines| ==> |s| == 1;
      forall k | 0 < k < |s| ensures IsSegment(s[k], k == |s| - 1) {
        assert s[k] == s[1..][k - 1];
      }
    }
  }

  /** The scan finds a division of the file. */
  lemma {:induction false} SegmentsDivide(lines: seq<string>)
    ensures Divides(Segments(lines), lines)
  {
    FlatSegments(lines);
    SegmentsAreSegments(lines);
  }

  lemma {:induction false} FlatEmpty(segments: seq<Segment>)
    requires forall k :: 0 <= k < |segments| ==> IsSegment(segments[k], k == |segments| - 1)
    ensures Flat(segments) == [] <==> segments == []
  {
    if segments != [] {
      assert LinesOf(segments[0]) != [];
    }
  }

  /** The scan takes off a segment in front of anything. */
  lemma {:induction false} SegmentFirst(segment: Segment, rest: seq<string>)
    requires IsSegment(segment, rest == [])
    ensures Segments(LinesOf(segment) + rest) == [segment] + Segments(rest)
  {
    var first := LinesOf(segment);
    var lines := first + rest;
    assert lines[..|first|] == first && lines[|first|..] == rest && lines[0] == first[0];
    if !segment.Line? {
      BracedRunLength(first, rest);
    }
  }

  /** A file has one division only, so the scan's is the right one. */
  lemma {:induction false} DivisionUnique(segments: seq<Segment>, lines: seq<string>)
    requires Divides(segments, lines)
    ensures segments == Segments(lines)
    decreases |segments|
  {
    if segments != [] {
      forall k | 0 <= k < |segments| - 1 ensures IsSegment(segments[1..][k], k == |segments[1..]| - 1) {
        assert segments[1..][k] == segments[k + 1];
      }
      FlatEmpty(segments[1..]);
      DivisionUnique(segments[1..], Flat(segments[1..]));
      SegmentFirst(segments[0], Flat(segments[1..]));
    }
  }

  // ---- The scan ----

  function JoinEach(blocks: seq<seq<string>>): seq<string> {
    if blocks == [] then [] else [Join(blocks[0], "\n")] + JoinEach(blocks[1..])
  }

  /** What the scan writes for the lines ahead of it. */
  ghost function Written(lines: seq<string>, blocked: set<string>): seq<string> {
    JoinEach(Emitted(Segments(lines), blocked))
  }

  lemma {:induction false} LineIsSkipped(lines: seq<string>, i: nat, blocked: set<string>)
    requires i < |lines| && KindOf(lines[i]).Ignored?
    ensures Written(lines[i..], blocked) == Written(lines[i + 1..], blocked)
  {
    assert lines[i..][1..] == lines[i + 1..];
    assert Segments(lines[i..])[1..] == Segments(lines[i + 1..]);
  }

  lemma {:induction false} FirstRunIsWritten(lines: seq<string>, blocked: set<string>)
    requires lines != [] && !KindOf(lines[0]).Ignored?
    ensures var n := RunLength(lines);
            Written(lines, blocked)
            == (if KindOf(lines[0]).Site? && KindOf(lines[0]).host !in blocked then [Join(lines[..n], "\n")] else [])
               + Written(lines[n..], blocked)
  {
    assert Segments(lines)[1..] == Segments(lines[RunLength(lines)..]);
  }

  lemma {:induction false} RunIsWritten(lines: seq<string>, i: nat, next: nat, blocked: set<string>)
    requires i < next <= |lines| && !KindOf(lines[i]).Ignored?
    requires next - i == RunLength(lines[i..])
    ensures Written(lines[i..], blocked)
         == (if KindOf(lines[i]).Site? && KindOf(lines[i]).host !in blocked then [Join(lines[i..next], "\n")] else [])
            + Written(lines[next..], blocked)
  {
    var ahead := lines[i..];
    assert ahead[0] == lines[i];
    assert ahead[next - i..] == lines[next..] && ahead[..next - i] == lines[i..next];
    FirstRunIsWritten(ahead, blocked);
  }

  lemma {:induction false} RunIsAppended(lines: seq<string>, i: nat, next: nat, blocked: set<string>,
        blocks: seq<string>)
    requires i < next <= |lines| && !KindOf(lines[i]).Ignored?
    requires next - i == RunLength(lines[i..])
    ensures blocks + Written(lines[i..], blocked)
         == (if KindOf(lines[i]).Site? && KindOf(lines[i]).host !in blocked
             then blocks + [Join(lines[i..next], "\n")]
             else blocks) + Written(lines[next..], blocked)
  {
    RunIsWritten(lines, i, next, blocked);
  }

  lemma {:induction false} WholeFileIsAhead(lines: seq<string>, blocked: set<string>)
    ensures [] + Written(lines[0..], blocked) == Written(lines, blocked)
  {
    assert lines[0..] == lines;
  }

  lemma {:induction false} NothingIsAhead(lines: seq<string>, i: nat, blocked: set<string>, blocks: seq<string>)
    requires i == |lines|
    ensures blocks + Written(lines[i..], blocked) == blocks
  {
    assert lines[i..] == [];
  }

  /** The inner loop of the source, for snippets and for blocks alike. */
  method ScanRun(lines: seq<string>, start: nat) returns (run: seq<string>, i: nat)
    requires start < |lines|
    ensures start < i <= |lines|
    ensures run == lines[start..i]
    ensures i - start == RunLength(lines[start..])
  {
    run := [lines[start]];
    var brace := Delta(lines[start]);
    i := start + 1;
    assert lines[start..][1..] == lines[i..];
    while i < |lines| && brace > 0
      invariant start < i <= |lines|
      invariant run == lines[start..i]
      invariant i - start + Extent(lines[i..], brace) == RunLength(lines[start..])
    {
      assert lines[i..][1..] == lines[i + 1..];
      run := run + [lines[i]];
      brace := brace + Delta(lines[i]);
      i := i + 1;
    }
  }

  /** The scan writes exactly the unblocked site blocks of the file's division, whole and in
      order; every step of it moves forward. */
  method FilterSites(lines: seq<string>, blocked: set<string>) returns (blocks: seq<string>)
    ensures blocks == JoinEach(Emitted(Segments(lines), blocked))
  {
    blocks := [];
    var i := 0;
    WholeFileIsAhead(lines, blocked);
    while i < |lines|
      invariant i <= |lines|
      invariant blocks + Written(lines[i..], blocked) == Written(lines, blocked)
    {
      var kind := KindOf(lines[i]);
      if kind.Ignored? {
        LineIsSkipped(lines, i, blocked);
        i := i + 1;
        continue;
      }
      var run, next := ScanRun(lines, i);
      RunIsAppended(lines, i, next, blocked, blocks);
      if kind.Site? && kind.host !in blocked {
        blocks := blocks + [Join(run, "\n")];
      }
      i := next;
    }
    NothingIsAhead(lines, i, blocked, blocks);
  }

  // ---- Reading the printed file again ----

  /** Splitting at /\r?\n/: a carriage return before a line feed goes with it. */
  function SplitLines(text: string): seq<string> {
    var parts := Split(text, LF);
    ChompAll(parts[..|parts| - 1], CR) + [parts[|parts| - 1]]
  }

  function Blocks(text: string, blocked: set<string>): seq<seq<string>> {
    Emitted(Segments(SplitLines(text)), blocked)
  }

  /** The printed file: the header, and the blocks with an empty line between them. */
  function Print(header: seq<string>, blocks: seq<seq<string>>): string {
    Unlines(header, LF) + Join(JoinEach(blocks), "\n\n") + "\n"
  }

  /** The lines of the printed blocks, each block but the last followed by an empty line. */
  function Spaced(blocks: seq<seq<string>>): seq<string> {
    if blocks == [] then [""]
    else if |blocks| == 1 then blocks[0]
    else blocks[0] + [""] + Spaced(blocks[1..])
  }

  lemma {:induction false} JoinIsUnlines(lines: seq<string>)
    requires lines != []
    ensures Join(lines, "\n") + "\n" == Unlines(lines, LF)
  {
    if |lines| > 1 {
      JoinIsUnlines(lines[1..]);
    } else {
      assert Unlines(lines[1..], LF) == [];
    }
  }

  lemma {:induction false} SpacedFirst(block: seq<string>, rest: seq<string>)
    ensures Unlines(block + [""] + rest, LF) == Unlines(block, LF) + "\n" + Unlines(rest, LF)
  {
    UnlinesAppend(block, [""] + rest, LF);
    assert ([""] + rest)[1..] == rest;
    assert block + [""] + rest == block + ([""] + rest);
  }

  lemma {:induction false} JoinFirst(blocks: seq<seq<string>>)
    requires |blocks| > 1
    ensures Join(JoinEach(blocks), "\n\n")
         == Join(blocks[0], "\n") + "\n\n" + Join(JoinEach(blocks[1..]), "\n\n")
  {
    assert JoinEach(blocks)[1..] == JoinEach(blocks[1..]);
  }

  lemma {:induction false} GlueIsTwoBreaks(a: string, b: string)
    ensures a + "\n\n" + b + "\n" == (a + "\n") + "\n" + (b + "\n")
  {
    assert "\n\n" == "\n" + "\n";
  }

  lemma {:induction false} PrintedBlocks(blocks: seq<seq<string>>)
    requires forall k :: 0 <= k < |blocks| ==> blocks[k] != []
    ensures Join(JoinEach(blocks), "\n\n") + "\n" == Unlines(Spaced(blocks), LF)
  {
    if blocks == [] {
      assert Unlines([""], LF) == "" + [LF] + Unlines([], LF);
    } else {
      JoinIsUnlines(blocks[0]);
      if |blocks| > 1 {
        PrintedBlocks(blocks[1..]);
        SpacedFirst(blocks[0], Spaced(blocks[1..]));
        JoinFirst(blocks);
        GlueIsTwoBreaks(Join(blocks[0], "\n"), Join(JoinEach(blocks[1..]), "\n\n"));
      }
    }
  }

  lemma {:induction false} PrintedLines(header: seq<string>, blocks: seq<seq<string>>)
    requires forall k :: 0 <= k < |blocks| ==> blocks[k] != []
    requires NoLineFeed(header) && NoLineFeed(Spaced(blocks))
    ensures SplitLines(Print(header, blocks)) == ChompAll(header + Spaced(blocks), CR) + [""]
  {
    var lines := header + Spaced(blocks);
    PrintedBlocks(blocks);
    UnlinesAppend(header, Spaced(blocks), LF);
    assert Print(header, blocks) == Unlines(header, LF) + (Join(JoinEach(blocks), "\n\n") + "\n");
    SplitUnlines(lines);
    assert (lines + [""])[..|lines|] == lines;
  }

  /** What the scan can emit: braced site blocks of unblocked hosts, of which only the last may be
      cut off by the end of the file. */
  ghost predicate IsOutput(blocks: seq<seq<string>>, blocked: set<string>) {
    forall k :: 0 <= k < |blocks| ==> IsOutputBlock(blocks[k], k == |blocks| - 1, blocked)
  }

  ghost predicate IsOutputBlock(b: seq<string>, last: bool, blocked: set<string>) {
    IsBraced(b, last) && NoLineFeed(b) && KindOf(b[0]).Site? && KindOf(b[0]).host !in blocked
  }

  lemma {:induction false} EmittedIsOutput(segments: seq<Segment>, blocked: set<string>)
    requires forall k :: 0 <= k < |segments| ==> IsSegment(segments[k], k == |segments| - 1)
    requires NoLineFeed(Flat(segments))
    ensures IsOutput(Emitted(segments, blocked), blocked)
    ensures |segments| == 0 ==> Emitted(segments, blocked) == []
  {
    if segments != [] {
      var first, rest := LinesOf(segments[0]), segments[1..];
      forall k | 0 <= k < |rest| ensures IsSegment(rest[k], k == |rest| - 1) {
        assert rest[k] == segments[k + 1];
      }
      assert NoLineFeed(first) && NoLineFeed(Flat(rest)) by {
        assert forall k :: 0 <= k < |first| ==> first[k] == Flat(segments)[k];
        assert forall k :: 0 <= k < |Flat(rest)| ==> Flat(rest)[k] == Flat(segments)[|first| + k];
      }
      EmittedIsOutput(rest, blocked);
    }
  }

  lemma {:induction false} SplitHasNoLineFeed(text: string)
    ensures NoLineFeed(Split(text, LF))
    decreases |text|
  {
    var i := FirstIndex(text, LF);
    if i < |text| {
      SplitHasNoLineFeed(text[i + 1..]);
    }
  }

  lemma {:induction false} BlocksAreOutput(text: string, blocked: set<string>)
    ensures IsOutput(Blocks(text, blocked), blocked)
  {
    SplitHasNoLineFeed(text);
    SegmentsDivide(SplitLines(text));
    EmittedIsOutput(Segments(SplitLines(text)), blocked);
  }

  /** No block was cut off by the end of the file, and no line ends in a carriage return of its
      own. */
  ghost predicate Clean(blocks: seq<seq<string>>) {
    forall k :: 0 <= k < |blocks| ==> Balance(blocks[k]) <= 0 && NoTrailingReturn(blocks[k])
  }

  ghost predicate NoTrailingReturn(lines: seq<string>) {
    forall k :: 0 <= k < |lines| ==> Chomp(lines[k], CR) == lines[k]
  }

  ghost predicate IsHeader(header: seq<string>) {
    NoLineFeed(header) && forall k :: 0 <= k < |header| ==> header[k] != "" && header[k][0] == '#'
  }

  lemma {:induction false} CommentIsIgnored(line: string)
    requires line != "" && line[0] == '#'
    ensures KindOf(line) == Ignored
  {
    TrimFirst(line, 0, JavaScript);
  }

  lemma {:induction false} HeaderIsSkipped(header: seq<string>, rest: seq<string>, blocked: set<string>)
    requires IsHeader(header)
    ensures Emitted(Segments(ChompAll(header, CR) + rest), blocked) == Emitted(Segments(rest), blocked)
  {
    var chomped := ChompAll(header, CR);
    if header == [] {
      assert chomped + rest == rest;
    } else {
      CommentIsIgnored(chomped[0]);
      var tail := chomped[1..] + rest;
      assert chomped + rest == LinesOf(Line(chomped[0])) + tail;
      SegmentFirst(Line(chomped[0]), tail);
      assert chomped[1..] == ChompAll(header[1..], CR);
      HeaderIsSkipped(header[1..], rest, blocked);
    }
  }

  lemma {:induction false} BlockThenRest(b: seq<string>, rest: seq<string>, blocked: set<string>)
    requires IsOutputBlock(b, rest == [], blocked)
    ensures Emitted(Segments(b + rest), blocked) == [b] + Emitted(Segments(rest), blocked)
  {
    SegmentFirst(Block(KindOf(b[0]).host, b), rest);
  }

  lemma {:induction false} EmptyLineThenRest(rest: seq<string>, blocked: set<string>)
    ensures Emitted(Segments([""] + rest), blocked) == Emitted(Segments(rest), blocked)
  {
    SegmentFirst(Line(""), rest);
  }

  lemma {:induction false} RestIsOutput(blocks: seq<seq<string>>, blocked: set<string>)
    requires IsOutput(blocks, blocked) && |blocks| > 1
    ensures IsOutput(blocks[1..], blocked) && IsOutputBlock(blocks[0], false, blocked)
  {
    assert forall k :: 0 <= k < |blocks[1..]| ==> blocks[1..][k] == blocks[k + 1];
  }

  lemma {:induction false} SpacedCons(blocks: seq<seq<string>>)
    requires |blocks| > 1
    ensures Spaced(blocks) + [""] == blocks[0] + ([""] + (Spaced(blocks[1..]) + [""]))
  {
  }

  lemma {:induction false} FirstOfSeveral(blocks: seq<seq<string>>, blocked: set<string>)
    requires IsOutput(blocks, blocked) && |blocks| > 1
    ensures IsOutput(blocks[1..], blocked)
    ensures Emitted(Segments(Spaced(blocks) + [""]), blocked)
         == [blocks[0]] + Emitted(Segments(Spaced(blocks[1..]) + [""]), blocked)
  {
    RestIsOutput(blocks, blocked);
    var tail := Spaced(blocks[1..]) + [""];
    EmptyLineThenRest(tail, blocked);
    BlockThenRest(blocks[0], [""] + tail, blocked);
    SpacedCons(blocks);
  }

  lemma {:induction false} NothingAfterEmptyLine(blocked: set<string>)
    ensures Emitted(Segments([""]), blocked) == []
    ensures Emitted(Segments(["", ""]), blocked) == []
  {
    EmptyLineThenRest([], blocked);
    EmptyLineThenRest([""], blocked);
    assert [""] + [] == [""];
    assert [""] + [""] == ["", ""];
  }

  lemma {:induction false} LastBlockReparses(blocks: seq<seq<string>>, blocked: set<string>)
    requires IsOutput(blocks, blocked) && |blocks| <= 1
    requires |blocks| == 1 ==> Balance(blocks[0]) <= 0
    ensures Emitted(Segments(Spaced(blocks) + [""]), blocked) == blocks
  {
    NothingAfterEmptyLine(blocked);
    if |blocks| == 1 {
      BlockThenRest(blocks[0], [""], blocked);
    }
  }

  /** Closed blocks are found again. */
  lemma {:induction false} ClosedBlocksReparse(blocks: seq<seq<string>>, blocked: set<string>)
    requires IsOutput(blocks, blocked)
    requires forall k :: 0 <= k < |blocks| ==> Balance(blocks[k]) <= 0
    ensures Emitted(Segments(Spaced(blocks) + [""]), blocked) == blocks
  {
    if |blocks| <= 1 {
      LastBlockReparses(blocks, blocked);
    } else {
      FirstOfSeveral(blocks, blocked);
      var rest := blocks[1..];
      assert forall k :: 0 <= k < |rest| ==> rest[k] == blocks[k + 1];
      ClosedBlocksReparse(rest, blocked);
      assert blocks == [blocks[0]] + rest;
    }
  }

  lemma {:induction false} OpenBlockTakesEmptyLine(b: seq<string>, blocked: set<string>)
    requires IsOutputBlock(b, true, blocked) && Balance(b) > 0
    ensures Emitted(Segments(b + [""]), blocked) == [b + [""]]
  {
    var longer := b + [""];
    assert longer[1..] == b[1..] + [""];
    BalanceCons(b[0], b[1..]);
    assert b == [b[0]] + b[1..];
    forall k | 0 <= k < |longer[1..]| ensures Delta(longer[0]) + Balance(longer[1..][..k]) > 0 {
      if k < |b| - 1 {
        assert longer[1..][..k] == b[1..][..k];
      } else {
        assert longer[1..][..k] == b[1..];
      }
    }
    BlockThenRest(longer, [], blocked);
    assert longer + [] == longer;
  }

  lemma {:induction false} LaterBlockGrows(blocks: seq<seq<string>>, blocked: set<string>)
    requires IsOutput(blocks, blocked) && |blocks| > 1
    requires Emitted(Segments(Spaced(blocks[1..]) + [""]), blocked) != blocks[1..]
    ensures Emitted(Segments(Spaced(blocks) + [""]), blocked) != blocks
  {
    FirstOfSeveral(blocks, blocked);
    var found := Emitted(Segments(Spaced(blocks[1..]) + [""]), blocked);
    assert ([blocks[0]] + found)[1..] == found;
  }

  /** A block that the end of the file cut off swallows the line that follows it. */
  lemma {:induction false} OpenBlockGrows(blocks: seq<seq<string>>, blocked: set<string>)
    requires IsOutput(blocks, blocked)
    requires blocks != [] && Balance(blocks[|blocks| - 1]) > 0
    ensures Emitted(Segments(Spaced(blocks) + [""]), blocked) != blocks
  {
    if |blocks| == 1 {
      OpenBlockTakesEmptyLine(blocks[0], blocked);
    } else {
      RestIsOutput(blocks, blocked);
      OpenBlockGrows(blocks[1..], blocked);
      LaterBlockGrows(blocks, blocked);
    }
  }

  // A carriage return lost in printing cannot be made up for: the blocks found again hold no more
  // characters than the lines they are cut from.

  function Size(lines: seq<string>): nat {
    if lines == [] then 0 else |lines[0]| + Size(lines[1..])
  }

  function SizeAll(blocks: seq<seq<string>>): nat {
    if blocks == [] then 0 else Size(blocks[0]) + SizeAll(blocks[1..])
  }

  lemma {:induction false} SizeAppend(a: seq<string>, b: seq<string>)
    ensures Size(a + b) == Size(a) + Size(b)
  {
    if a == [] {
      assert a + b == b;
    } else {
      assert (a + b)[1..] == a[1..] + b;
      SizeAppend(a[1..], b);
    }
  }

  lemma {:induction false} EmittedSize(segments: seq<Segment>, blocked: set<string>)
    ensures SizeAll(Emitted(segments, blocked)) <= Size(Flat(segments))
  {
    if segments != [] {
      EmittedSize(segments[1..], blocked);
      SizeAppend(LinesOf(segments[0]), Flat(segments[1..]));
    }
  }

  lemma {:induction false} ChompSize(lines: seq<string>)
    ensures Size(ChompAll(lines, CR)) <= Size(lines)
    ensures Size(ChompAll(lines, CR)) == Size(lines) ==> NoTrailingReturn(lines)
  {
    if lines != [] {
      ChompSize(lines[1..]);
      assert ChompAll(lines, CR)[1..] == ChompAll(lines[1..], CR);
    }
  }

  lemma {:induction false} SpacedSize(blocks: seq<seq<string>>)
    ensures Size(Spaced(blocks)) == SizeAll(blocks)
  {
    if |blocks| > 1 {
      SizeAppend(blocks[0] + [""], Spaced(blocks[1..]));
      SizeAppend(blocks[0], [""]);
      SpacedSize(blocks[1..]);
    } else if |blocks| == 1 {
      assert SizeAll(blocks[1..]) == 0;
    }
  }

  lemma {:induction false} SpacedHasAll(blocks: seq<seq<string>>)
    requires forall k :: 0 <= k < |blocks| ==> NoLineFeed(blocks[k])
    ensures NoLineFeed(Spaced(blocks))
    ensures NoTrailingReturn(Spaced(blocks)) <==> forall k :: 0 <= k < |blocks| ==> NoTrailingReturn(blocks[k])
  {
    if |blocks| > 1 {
      var rest := blocks[1..];
      SpacedHasAll(rest);
      var head := blocks[0] + [""];
      assert Spaced(blocks) == head + Spaced(rest);
      NoTrailingReturnAppend(blocks[0], [""]);
      NoTrailingReturnAppend(head, Spaced(rest));
      assert blocks == [blocks[0]] + rest;
    }
  }

  lemma {:induction false} NoTrailingReturnAppend(a: seq<string>, b: seq<string>)
    ensures NoTrailingReturn(a + b) <==> NoTrailingReturn(a) && NoTrailingReturn(b)
  {
    assert forall k :: 0 <= k < |a| ==> (a + b)[k] == a[k];
    assert forall k :: 0 <= k < |b| ==> (a + b)[|a| + k] == b[k];
  }

  lemma {:induction false} OutputIsPrintable(blocks: seq<seq<string>>, blocked: set<string>)
    requires IsOutput(blocks, blocked)
    ensures forall k :: 0 <= k < |blocks| ==> blocks[k] != []
    ensures NoLineFeed(Spaced(blocks))
  {
    forall k | 0 <= k < |blocks| ensures blocks[k] != [] && NoLineFeed(blocks[k]) {
      assert IsOutputBlock(blocks[k], k == |blocks| - 1, blocked);
    }
    SpacedHasAll(blocks);
  }

  lemma {:induction false} ChompFile(header: seq<string>, lines: seq<string>)
    ensures ChompAll(header + lines, CR) + [""] == ChompAll(header, CR) + (ChompAll(lines, CR) + [""])
  {
    ChompAppend(header, lines, CR);
  }

  lemma {:induction false} PrintedLinesOfOutput(header: seq<string>, blocks: seq<seq<string>>, blocked: set<string>)
    requires IsHeader(header) && IsOutput(blocks, blocked)
    ensures SplitLines(Print(header, blocks)) == ChompAll(header, CR) + (ChompAll(Spaced(blocks), CR) + [""])
  {
    OutputIsPrintable(blocks, blocked);
    PrintedLines(header, blocks);
    ChompFile(header, Spaced(blocks));
  }

  lemma {:induction false} ReprintedBlocks(header: seq<string>, blocks: seq<seq<string>>, blocked: set<string>)
    requires IsHeader(header) && IsOutput(blocks, blocked)
    ensures Blocks(Print(header, blocks), blocked)
         == Emitted(Segments(ChompAll(Spaced(blocks), CR) + [""]), blocked)
  {
    var rest := ChompAll(Spaced(blocks), CR) + [""];
    PrintedLinesOfOutput(header, blocks, blocked);
    HeaderIsSkipped(header, rest, blocked);
  }

  lemma {:induction false} LostReturn(blocks: seq<seq<string>>, blocked: set<string>)
    requires IsOutput(blocks, blocked)
    requires Emitted(Segments(ChompAll(Spaced(blocks), CR) + [""]), blocked) == blocks
    ensures NoTrailingReturn(Spaced(blocks))
  {
    var lines := ChompAll(Spaced(blocks), CR) + [""];
    EmittedSize(Segments(lines), blocked);
    FlatSegments(lines);
    SizeAppend(ChompAll(Spaced(blocks), CR), [""]);
    SpacedSize(blocks);
    ChompSize(Spaced(blocks));
  }

  /** Filtering the printed file again yields the same blocks exactly when every block the filter
      wrote was closed and none of its lines ended in a carriage return. */
  lemma {:induction false} FilterTwice(text: string, blocked: set<string>, header: seq<string>)
    requires IsHeader(header)
    ensures var blocks := Blocks(text, blocked);
            Blocks(Print(header, blocks), blocked) == blocks <==> Clean(blocks)
  {
    var blocks := Blocks(text, blocked);
    BlocksAreOutput(text, blocked);
    ReprintedBlocks(header, blocks, blocked);
    SpacedHasAll(blocks);
    var found := Emitted(Segments(ChompAll(Spaced(blocks), CR) + [""]), blocked);
    if NoTrailingReturn(Spaced(blocks)) {
      assert ChompAll(Spaced(blocks), CR) == Spaced(blocks);
      if blocks != [] && Balance(blocks[|blocks| - 1]) > 0 {
        OpenBlockGrows(blocks, blocked);
      } else {
        ClosedBlocksReparse(blocks, blocked);
      }
    } else if found == blocks {
      LostReturn(blocks, blocked);
    }
  }

  lemma {:induction false} TwoLineBlock(line: string, host: string, gap: string)
    requires line == host + gap + "{" && OpensSite(line, host, "", gap, "")
    ensures IsSegment(Block(host, [line, "}"]), false) && Balance([line, "}"]) == 0
  {
    OpeningLineIsSite(line, host, "", gap, "");
    assert forall k :: 0 <= k < |host + gap| ==> (host + gap)[k] != '{' && (host + gap)[k] != '}';
    CountZero(host + gap, '{');
    CountZero(host + gap, '}');
    CountAppend(host + gap, "{", '{');
    CountAppend(host + gap, "{", '}');
    assert "{"[1..] == "" && "}"[1..] == "";
    assert Count("{", '{') == 1 && Count("{", '}') == 0 && Count("}", '{') == 0 && Count("}", '}') == 1;
    assert Delta(line) == 1 && Delta("}") == -1;
    assert [line, "}"][1..] == ["}"] && ["}"][1..] == [];
    assert forall k :: 0 <= k < 1 ==> ["}"][..k] == [];
  }

  lemma {:induction false} TwoLineBlockIsFiltered(line: string, host: string, gap: string, rest: seq<string>,
        blocked: set<string>)
    requires line == host + gap + "{" && OpensSite(line, host, "", gap, "")
    ensures Emitted(Segments([line, "}"] + rest), blocked)
         == (if host in blocked then [] else [[line, "}"]]) + Emitted(Segments(rest), blocked)
  {
    TwoLineBlock(line, host, gap);
    var first := Block(host, [line, "}"]);
    SegmentFirst(first, rest);
    assert ([first] + Segments(rest))[1..] == Segments(rest);
  }

  lemma {:induction false} KeptAlone(line: string, host: string, blocked: set<string>)
    requires OpensSite(line, host, "", " ", "") && host !in blocked
    ensures Emitted(Segments([""] + ([line, "}"] + [])), blocked) == [[line, "}"]]
  {
    EmptyLineThenRest([line, "}"] + [], blocked);
    TwoLineBlockIsFiltered(line, host, " ", [], blocked);
    assert Segments([]) == [];
  }

  /** Two blocks, each opened and closed, of which one is blocked: the other is written, whole. */
  lemma {:induction false} BlockedSiteIsDropped(kept: string, dropped: string, keptHost: string, droppedHost: string)
    requires OpensSite(kept, keptHost, "", " ", "") && OpensSite(dropped, droppedHost, "", " ", "")
    requires keptHost != droppedHost
    ensures Emitted(Segments([dropped, "}"] + ([""] + ([kept, "}"] + []))), {droppedHost}) == [[kept, "}"]]
  {
    KeptAlone(kept, keptHost, {droppedHost});
    TwoLineBlockIsFiltered(dropped, droppedHost, " ", [""] + ([kept, "}"] + []), {droppedHost});
  }

  lemma {:induction false} OpenLineIsSite()
    ensures KindOf("a{") == Site("a") && Delta("a{") == 1
  {
    var line := "a{";
    assert line[1..] == "{" && "{"[1..] == "";
    assert Count("{", '{') == 1 && Count("{", '}') == 0;
    TrimEnds(line, JavaScript);
    assert JsTrim(line) == line;
    assert HostRun("{") == 0 && HostRun(line) == 1;
    assert TrimStart("{", JavaScript) == "{";
    assert line[..1] == "a";
  }

  lemma {:induction false} OpenFileHasBlock(blocked: set<string>)
    requires "a" !in blocked
    ensures Blocks("a{", blocked) == [["a{"]]
  {
    var b := ["a{"];
    OpenLineIsSite();
    SplitOne("a{", LF);
    assert SplitLines("a{") == b;
    SegmentFirst(Block("a", b), []);
    assert b + [] == b && Segments([]) == [];
    assert Segments(b) == [Block("a", b)] && [Block("a", b)][1..] == [];
    assert Emitted([Block("a", b)], blocked) == [b];
  }

  /** A file that does not survive: its only block is never closed, and grows by a line. */
  lemma {:induction false} OpenFileGrows(header: seq<string>, blocked: set<string>)
    requires IsHeader(header) && "a" !in blocked
    ensures var blocks := Blocks("a{", blocked);
            blocks == [["a{"]] && Blocks(Print(header, blocks), blocked) == [["a{", ""]]
  {
    var b := ["a{"];
    OpenLineIsSite();
    OpenFileHasBlock(blocked);
    BlocksAreOutput("a{", blocked);
    ReprintedBlocks(header, [b], blocked);
    assert ChompAll(Spaced([b]), CR) == b;
    OpenBlockTakesEmptyLine(b, blocked);
    assert b + [""] == ["a{", ""];
  }

  /** The whole program, from the text of the generated file to the text of the filtered one. */
  method FilterFile(text: string, header: seq<string>, blocked: set<string>) returns (output: string)
    ensures output == Print(header, Blocks(text, blocked))
  {
    var blocks := FilterSites(SplitLines(text), blocked);
    output := Unlines(header, LF) + Join(blocks, "\n\n") + "\n";
  }
}
