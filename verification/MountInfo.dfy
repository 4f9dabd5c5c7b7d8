/** The reader of /proc/self/mountinfo: undoing the octal escapes of a mount path, and finding
    out whether a path lives on a read-only mount.
 */
module MountInfo {
  import opened Text

  // ---- Octal escapes ----

  /** A backslash, three octal digits, and the character they stand for. */
  datatype Escape = Escape(d0: char, d1: char, d2: char, literal: char)

  const SPACE := Escape('0', '4', '0', ' ')
  const TAB := Escape('0', '1', '1', '\t')
  const NEWLINE := Escape('0', '1', '2', '\n')
  const BACKSLASH := Escape('1', '3', '4', '\\')

  function Pattern(e: Escape): string { ['\\', e.d0, e.d1, e.d2] }

  /** JavaScript's `replaceAll` for one escape: left to right, never looking again at what it
      has written. */
  function ReplaceAll(s: string, e: Escape): string {
    if s == [] then []
    else if StartsWith(s, Pattern(e)) then [e.literal] + ReplaceAll(s[4..], e)
    else [s[0]] + ReplaceAll(s[1..], e)
  }

  /** The four passes of the source, one after the other. */
  function DecodeMountInfoPath(value: string): string {
    ReplaceAll(ReplaceAll(ReplaceAll(ReplaceAll(value, SPACE), TAB), NEWLINE), BACKSLASH)
  }

  /** The escape that pass number `n` replaces. */
  function PassEscape(n: nat): Escape
    requires n < 4
  {
    match n case 0 => SPACE case 1 => TAB case 2 => NEWLINE case 3 => BACKSLASH
  }

  /** What the text starts with, for a reader that knows the first `n` escapes. */
  function Literal(s: string, n: nat): Option<char> {
    if |s| < 4 || s[0] != '\\' then None
    else
      var d := s[1..4];
      if 0 < n && d == "040" then Some(' ')
      else if 1 < n && d == "011" then Some('\t')
      else if 2 < n && d == "012" then Some('\n')
      else if 3 < n && d == "134" then Some('\\')
      else None
  }

  /** What decoding means: one pass over the text that replaces each known escape where it
      stands. */
  function DecodeOnce(s: string, n: nat): string {
    if s == [] then []
    else
      match Literal(s, n)
      case Some(c) => [c] + DecodeOnce(s[4..], n)
      case None => [s[0]] + DecodeOnce(s[1..], n)
  }

  /** What a pass recognises is what a reader with one more escape recognises in addition. */
  lemma {:induction false} LiteralOfPass(s: string, n: nat)
    requires n < 4
    ensures var mine := StartsWith(s, Pattern(PassEscape(n)));
            && (mine ==> Literal(s, n) == None && Literal(s, n + 1) == Some(PassEscape(n).literal))
            && (!mine ==> Literal(s, n + 1) == Literal(s, n))
  {
    if |s| >= 4 {
      assert s[1..4] == [s[1], s[2], s[3]];
    }
  }

  /** The digits of an escape come out of a reader only where they went in: what the first three
      escapes stand for is white space. */
  lemma {:induction false} DigitBehind(s: string, n: nat)
    requires n < 4
    requires var d := DecodeOnce(s, n); d != [] && '0' <= d[0] <= '9'
    ensures s != [] && s[0] == DecodeOnce(s, n)[0]
    ensures DecodeOnce(s, n)[1..] == DecodeOnce(s[1..], n)
  {
    assert Literal(s, n).None?;
  }

  lemma {:induction false} PatternBehind(s: string, n: nat, e: Escape)
    requires n < 4 && e == PassEscape(n) && Literal(s, n).None?
    requires StartsWith(DecodeOnce(s, n), Pattern(e))
    ensures StartsWith(s, Pattern(e))
  {
    var d := DecodeOnce(s, n);
    var t := s[1..];
    assert d[1..] == DecodeOnce(t, n);
    assert d[1] == e.d0 && d[2] == e.d1 && d[3] == e.d2;
    DigitBehind(t, n);
    DigitBehind(t[1..], n);
    DigitBehind(t[1..][1..], n);
    assert s[1] == t[0] && s[2] == t[1..][0] && s[3] == t[1..][1..][0];
  }

  lemma {:induction false} CharacterPasses(s: string, n: nat)
    requires s != [] && s[0] != '\\'
    ensures DecodeOnce(s, n) == [s[0]] + DecodeOnce(s[1..], n)
  {
  }

  /** A pattern that is not yet known passes through a reader unchanged. */
  lemma {:induction false} UnknownPattern(s: string, n: nat, e: Escape)
    requires n < 4 && e == PassEscape(n) && StartsWith(s, Pattern(e))
    ensures StartsWith(DecodeOnce(s, n), Pattern(e))
    ensures DecodeOnce(s, n)[4..] == DecodeOnce(s[4..], n)
  {
    LiteralOfPass(s, n);
    var t1, t2, t3 := s[1..], s[2..], s[3..];
    assert s[0] == Pattern(e)[0] && t1[0] == Pattern(e)[1] && t2[0] == Pattern(e)[2] && t3[0] == Pattern(e)[3];
    assert t1[1..] == t2 && t2[1..] == t3 && t3[1..] == s[4..];
    CharacterPasses(t3, n);
    CharacterPasses(t2, n);
    CharacterPasses(t1, n);
    assert DecodeOnce(s, n) == [s[0]] + DecodeOnce(t1, n);
    assert DecodeOnce(s, n) == [s[0], t1[0], t2[0], t3[0]] + DecodeOnce(s[4..], n);
  }

  /** One more `replaceAll` pass after a reader that knows `n` escapes gives the reader that knows
      one escape more: nothing the earlier passes wrote can complete a later pattern. */
  lemma {:induction false} PassExtendsReader(s: string, n: nat)
    requires n < 4
    ensures ReplaceAll(DecodeOnce(s, n), PassEscape(n)) == DecodeOnce(s, n + 1)
    decreases |s|
  {
    if s != [] {
      var e := PassEscape(n);
      var d := DecodeOnce(s, n);
      LiteralOfPass(s, n);
      if StartsWith(s, Pattern(e)) {
        UnknownPattern(s, n, e);
        PassExtendsReader(s[4..], n);
      } else if Literal(s, n).Some? {
        assert d[0] != '\\' && Pattern(e)[0] == '\\';
        assert d[1..] == DecodeOnce(s[4..], n);
        PassExtendsReader(s[4..], n);
      } else {
        if StartsWith(d, Pattern(e)) {
          PatternBehind(s, n, e);
          assert false;
        }
        assert d[1..] == DecodeOnce(s[1..], n);
        PassExtendsReader(s[1..], n);
      }
    }
  }

  lemma {:induction false} DecodeNothing(s: string)
    ensures DecodeOnce(s, 0) == s
  {
    if s != [] {
      DecodeNothing(s[1..]);
    }
  }

  /** The four sequential passes are one simultaneous decoding, on every string: the order of the
      passes never lets one escape be taken for another. */
  lemma {:induction false} SequentialIsSimultaneous(value: string)
    ensures DecodeMountInfoPath(value) == DecodeOnce(value, 4)
  {
    DecodeNothing(value);
    PassExtendsReader(value, 0);
    PassExtendsReader(value, 1);
    PassExtendsReader(value, 2);
    PassExtendsReader(value, 3);
  }

  /** The escaping of getmntent(3), as the kernel writes a path. */
  function EncodePath(path: string): string {
    if path == [] then []
    else EncodeChar(path[0]) + EncodePath(path[1..])
  }

  predicate Special(c: char) {
    c == ' ' || c == '\t' || c == '\n' || c == '\\'
  }

  function EncodeChar(c: char): string {
    if c == ' ' then "\\040"
    else if c == '\t' then "\\011"
    else if c == '\n' then "\\012"
    else if c == '\\' then "\\134"
    else [c]
  }

  /** Every path survives being escaped by the kernel and decoded by the reader. */
  lemma {:induction false} DecodeEncode(path: string)
    ensures DecodeMountInfoPath(EncodePath(path)) == path
  {
    SequentialIsSimultaneous(EncodePath(path));
    DecodeOnceEncode(path);
  }

  lemma {:induction false} DecodeOnceEncode(path: string)
    ensures DecodeOnce(EncodePath(path), 4) == path
  {
    if path != [] {
      var s := EncodePath(path);
      var rest := EncodePath(path[1..]);
      if Special(path[0]) {
        assert s[4..] == rest;
        assert s[1..4] == EncodeChar(path[0])[1..4];
      } else {
        assert s[1..] == rest;
      }
      DecodeOnceEncode(path[1..]);
    }
  }

  /** An encoded path fills exactly one field of its line. */
  lemma {:induction false} EncodedIsOneField(path: string, c: char)
    requires c == ' ' || c == '\n'
    ensures c !in EncodePath(path)
  {
    if path != [] {
      EncodedIsOneField(path[1..], c);
      assert c !in EncodeChar(path[0]);
    }
  }

  /** The four escapes, as getmntent(3) writes them. */
  lemma {:induction false} EscapesDecode()
    ensures DecodeMountInfoPath("\\040") == " " && DecodeMountInfoPath("\\011") == "\t"
    ensures DecodeMountInfoPath("\\012") == "\n" && DecodeMountInfoPath("\\134") == "\\"
  {
    OneEscape(' ');
    OneEscape('\t');
    OneEscape('\n');
    OneEscape('\\');
  }

  lemma {:induction false} OneEscape(c: char)
    ensures DecodeMountInfoPath(EncodeChar(c)) == [c]
  {
    DecodeEncode([c]);
    assert [c][1..] == [];
    assert EncodePath([c]) == EncodeChar(c) + EncodePath([]);
    assert EncodeChar(c) + [] == EncodeChar(c);
  }

  // ---- Reading the table ----

  datatype Entry = Entry(mountPoint: string, options: seq<string>)

  /** The mount a line describes, if the line has the separator and enough fields before it. */
  function ParseLine(rawLine: string): Option<Entry> {
    var line := JsTrim(rawLine);
    if line == "" then None
    else
      var separator := IndexOf(line, " - ");
      if separator.None? then None
      else
        var fields := Split(line[..separator.value], ' ');
        if |fields| < 6 then None
        else Some(Entry(DecodeMountInfoPath(fields[4]), Split(fields[5], ',')))
  }

  predicate TargetMatches(target: string, mountPoint: string) {
    target == mountPoint || StartsWith(target, mountPoint + "/")
  }

  /** `ro` wins over `rw`; a mount that carries neither says nothing. */
  function ReadOnlyFlag(options: seq<string>): Option<bool> {
    if "ro" in options then Some(true) else if "rw" in options then Some(false) else None
  }

  predicate Candidate(entry: Option<Entry>, target: string) {
    && entry.Some?
    && TargetMatches(target, entry.value.mountPoint)
    && ReadOnlyFlag(entry.value.options).Some?
  }

  /** The deciding entry among the first `n`: no candidate has a longer mount point, and none as
      long comes before. */
  ghost predicate Decides(entries: seq<Option<Entry>>, n: nat, target: string, k: nat) {
    && k < n <= |entries|
    && Candidate(entries[k], target)
    && forall j :: 0 <= j < n && Candidate(entries[j], target) ==> !Beats(entries, j, k)
  }

  ghost predicate Beats(entries: seq<Option<Entry>>, j: nat, k: nat)
    requires j < |entries| && entries[j].Some? && k < |entries| && entries[k].Some?
  {
    var challenger, holder := |entries[j].value.mountPoint|, |entries[k].value.mountPoint|;
    challenger > holder || (challenger == holder && j < k)
  }

  ghost predicate IsReadOnlyState(entries: seq<Option<Entry>>, n: nat, target: string, r: Option<bool>)
    requires n <= |entries|
  {
    match r
    case None => forall k :: 0 <= k < n ==> !Candidate(entries[k], target)
    case Some(_) => exists k: nat :: Decides(entries, n, target, k) && r == ReadOnlyFlag(entries[k].value.options)
  }

  function Entries(lines: seq<string>): (r: seq<Option<Entry>>)
    ensures |r| == |lines| && forall k :: 0 <= k < |lines| ==> r[k] == ParseLine(lines[k])
  {
    if lines == [] then []
    else
      assert forall k :: 0 < k < |lines| ==> lines[1..][k - 1] == lines[k];
      [ParseLine(lines[0])] + Entries(lines[1..])
  }

  /** The loop of the source, over the lines as they are read. */
  method LongestMatch(entries: seq<Option<Entry>>, target: string) returns (r: Option<bool>)
    ensures IsReadOnlyState(entries, |entries|, target, r)
  {
    var matchedLength := -1;
    r := None;
    ghost var best: nat := 0;
    for i := 0 to |entries|
      invariant r == None ==> matchedLength == -1
      invariant r == None ==> forall k :: 0 <= k < i ==> !Candidate(entries[k], target)
      invariant r != None ==> Decides(entries, i, target, best)
      invariant r != None ==> r == ReadOnlyFlag(entries[best].value.options)
      invariant r != None ==> matchedLength == |entries[best].value.mountPoint|
    {
      var entry := entries[i];
      if entry.None? {
        continue;
      }
      if !TargetMatches(target, entry.value.mountPoint) || |entry.value.mountPoint| <= matchedLength {
        continue;
      }
      if "ro" in entry.value.options {
        matchedLength := |entry.value.mountPoint|;
        r := Some(true);
        best := i;
        continue;
      }
      if "rw" in entry.value.options {
        matchedLength := |entry.value.mountPoint|;
        r := Some(false);
        best := i;
      }
    }
  }

  method GetMountReadOnlyState(mountInfo: string, targetPath: string) returns (r: Option<bool>)
    ensures JsTrim(targetPath) == "" ==> r == None
    ensures JsTrim(targetPath) != "" ==>
              var entries := Entries(Split(mountInfo, '\n'));
              IsReadOnlyState(entries, |entries|, JsTrim(targetPath), r)
    ensures JsTrim(targetPath) != "" ==>
              var entries, target := Entries(Split(mountInfo, '\n')), JsTrim(targetPath);
              && (r == None <==> forall k :: 0 <= k < |entries| ==> !Speaks(entries, target, k))
              && (r == Some(true) <==>
                    exists k: nat :: DecidesFor(entries, target, k) && "ro" in entries[k].value.options)
              && (r == Some(false) <==>
                    exists k: nat :: DecidesFor(entries, target, k) && "ro" !in entries[k].value.options
                                     && "rw" in entries[k].value.options)
  {
    var target := JsTrim(targetPath);
    if target == "" {
      return None;
    }
    var entries := Entries(Split(mountInfo, '\n'));
    r := LongestMatch(entries, target);
    StateIff(entries, target, r);
  }

  // ---- The answer, in the fields of the entries ----

  /** The target is the path, or continues it behind a slash. */
  predicate IsUnder(target: string, path: string) {
    target == path || (|target| > |path| && target[..|path|] == path && target[|path|] == '/')
  }

  /** The entry's mount holds the target, and says whether it is read-only. */
  predicate Speaks(entries: seq<Option<Entry>>, target: string, k: nat)
    requires k < |entries|
  {
    && entries[k].Some? && IsUnder(target, entries[k].value.mountPoint)
    && ("ro" in entries[k].value.options || "rw" in entries[k].value.options)
  }

  /** Nobody who speaks has a longer mount point, and nobody with one as long comes before. */
  ghost predicate DecidesFor(entries: seq<Option<Entry>>, target: string, k: nat) {
    && k < |entries| && Speaks(entries, target, k)
    && forall j :: 0 <= j < |entries| && Speaks(entries, target, j) ==>
         |entries[j].value.mountPoint| < |entries[k].value.mountPoint|
         || (|entries[j].value.mountPoint| == |entries[k].value.mountPoint| && k <= j)
  }

  lemma {:induction false} MatchesIff(target: string, path: string)
    ensures TargetMatches(target, path) <==> IsUnder(target, path)
  {
    var start := path + "/";
    if StartsWith(target, start) {
      assert forall k :: 0 <= k < |path| ==> target[k] == start[k];
      assert target[..|path|] == path && target[|path|] == start[|path|];
    }
    if |target| > |path| && target[..|path|] == path && target[|path|] == '/' {
      assert forall k :: 0 <= k < |path| ==> target[k] == target[..|path|][k];
      assert forall k :: 0 <= k < |start| ==> target[k] == start[k];
    }
  }

  lemma {:induction false} CandidateIff(entries: seq<Option<Entry>>, target: string, k: nat)
    requires k < |entries|
    ensures Candidate(entries[k], target) <==> Speaks(entries, target, k)
  {
    if entries[k].Some? {
      MatchesIff(target, entries[k].value.mountPoint);
    }
  }

  lemma {:induction false} DecidesIff(entries: seq<Option<Entry>>, target: string, k: nat)
    ensures Decides(entries, |entries|, target, k) <==> DecidesFor(entries, target, k)
  {
    forall j | 0 <= j < |entries| ensures Candidate(entries[j], target) <==> Speaks(entries, target, j) {
      CandidateIff(entries, target, j);
    }
    if DecidesFor(entries, target, k) {
      forall j | 0 <= j < |entries| && Candidate(entries[j], target) ensures !Beats(entries, j, k) {
        assert Speaks(entries, target, j);
      }
    }
    if Decides(entries, |entries|, target, k) {
      forall j | 0 <= j < |entries| && Speaks(entries, target, j)
        ensures |entries[j].value.mountPoint| < |entries[k].value.mountPoint|
                || (|entries[j].value.mountPoint| == |entries[k].value.mountPoint| && k <= j)
      {
        assert Candidate(entries[j], target) && !Beats(entries, j, k);
      }
    }
  }

  /** Read-only exactly if the deciding entry has `ro`, writable exactly if it has `rw` and not `ro`,
      and no answer exactly if nobody speaks. */
  lemma {:induction false} StateIff(entries: seq<Option<Entry>>, target: string, r: Option<bool>)
    requires IsReadOnlyState(entries, |entries|, target, r)
    ensures r == None <==> forall k :: 0 <= k < |entries| ==> !Speaks(entries, target, k)
    ensures r == Some(true) <==>
              exists k: nat :: DecidesFor(entries, target, k) && "ro" in entries[k].value.options
    ensures r == Some(false) <==>
              exists k: nat :: DecidesFor(entries, target, k) && "ro" !in entries[k].value.options
                               && "rw" in entries[k].value.options
  {
    forall k | 0 <= k < |entries| ensures Candidate(entries[k], target) <==> Speaks(entries, target, k) {
      CandidateIff(entries, target, k);
    }
    if r == None {
      assert forall k :: 0 <= k < |entries| ==> !Candidate(entries[k], target);
      assert forall k :: 0 <= k < |entries| ==> !Speaks(entries, target, k);
    } else {
      var n := |entries|;
      var k: nat :| Decides(entries, n, target, k) && r == ReadOnlyFlag(entries[k].value.options);
      DecidesIff(entries, target, k);
      assert Speaks(entries, target, k);
      forall j: nat | DecidesFor(entries, target, j) ensures j == k {
        assert Speaks(entries, target, j);
      }
    }
  }

  /** The specification admits one answer only. */
  lemma {:induction false} ReadOnlyStateUnique(entries: seq<Option<Entry>>, target: string, r: Option<bool>,
        r': Option<bool>)
    requires IsReadOnlyState(entries, |entries|, target, r)
    requires IsReadOnlyState(entries, |entries|, target, r')
    ensures r == r'
  {
    if r.Some? && r'.Some? {
      var n := |entries|;
      var k: nat :| Decides(entries, n, target, k) && r == ReadOnlyFlag(entries[k].value.options);
      var k': nat :| Decides(entries, n, target, k') && r' == ReadOnlyFlag(entries[k'].value.options);
      assert !Beats(entries, k, k') && !Beats(entries, k', k);
    }
  }

  // ---- Tables the kernel writes ----

  /** One mount: the three leading numbers, the root within its filesystem, the mount point, its
      options, the optional tags, and what follows the separator. */
  datatype Mount = Mount(ids: seq<string>, root: string, path: string, options: seq<string>,
                         tags: seq<string>, source: string)

  ghost predicate IsField(s: string) {
    ' ' !in s && '\n' !in s && s != "-"
  }

  /** A mount the table can hold: fields are fields, and the line neither starts nor ends with
      white space of its own. */
  ghost predicate IsMount(m: Mount) {
    && |m.ids| == 3
    && (forall k :: 0 <= k < |m.ids| ==> IsField(m.ids[k]))
    && m.ids[0] != "" && !IsSpace(JavaScript, m.ids[0][0])
    && m.root != "-" && m.path != "-"
    && m.options != [] && IsField(Join(m.options, ","))
    && (forall k :: 0 <= k < |m.options| ==> ',' !in m.options[k])
    && (forall k :: 0 <= k < |m.tags| ==> IsField(m.tags[k]))
    && m.source != "" && !IsSpace(JavaScript, m.source[|m.source| - 1]) && '\n' !in m.source
  }

  function Fields(m: Mount): seq<string> {
    m.ids + [EncodePath(m.root), EncodePath(m.path), Join(m.options, ",")] + m.tags
  }

  function Render(m: Mount): string {
    Join(Fields(m), " ") + " - " + m.source
  }

  lemma {:induction false} EncodedIsNotDash(path: string)
    requires path != "-"
    ensures EncodePath(path) != "-"
  {
    if path != [] && path[0] == '-' {
      assert |path| > 1;
      assert EncodePath(path) == ['-'] + EncodePath(path[1..]);
      assert |EncodeChar(path[1])| >= 1;
    }
  }

  lemma {:induction false} NoEarlierSeparator(fields: seq<string>, source: string, i: nat)
    requires fields != []
    requires forall k :: 0 <= k < |fields| ==> ' ' !in fields[k] && fields[k] != "-"
    requires i < |Join(fields, " ")|
    ensures !StartsWith((Join(fields, " ") + " - " + source)[i..], " - ")
  {
    var f := fields[0];
    var line := Join(fields, " ") + " - " + source;
    if i < |f| {
      assert line[i..][0] == f[i] != " - "[0];
    } else {
      var rest := Join(fields[1..], " ") + " - " + source;
      assert line == f + " " + rest;
      if i == |f| {
        assert line[i..] == " " + rest;
        AfterFieldNoDash(fields[1..], source);
      } else {
        assert line[i..] == rest[i - |f| - 1..];
        NoEarlierSeparator(fields[1..], source, i - |f| - 1);
      }
    }
  }

  lemma {:induction false} AfterFieldNoDash(fields: seq<string>, source: string)
    requires fields != [] && ' ' !in fields[0] && fields[0] != "-"
    ensures !StartsWith(" " + (Join(fields, " ") + " - " + source), " - ")
  {
    var g := fields[0];
    var rest := Join(fields, " ") + " - " + source;
    var s := " " + rest;
    if |g| == 0 {
      assert s[1] == rest[0] == ' ' != " - "[1];
    } else if |g| == 1 {
      assert s[1] == rest[0] == g[0];
      assert g == [g[0]];
      assert g[0] != " - "[1];
    } else {
      assert s[2] == rest[1] == g[1] != " - "[2];
    }
  }

  lemma {:induction false} TrimKeeps(s: string)
    requires s != "" && !IsSpace(JavaScript, s[0]) && !IsSpace(JavaScript, s[|s| - 1])
    ensures JsTrim(s) == s
  {
  }

  lemma {:induction false} FirstFoundThere(s: string, pattern: string, n: nat)
    requires n <= |s| && StartsWith(s[n..], pattern)
    requires forall i :: 0 <= i < n ==> !StartsWith(s[i..], pattern)
    ensures IndexOf(s, pattern) == Some(n)
  {
  }

  lemma {:induction false} RenderedSeparator(m: Mount)
    requires IsMount(m)
    ensures var joined := Join(Fields(m), " ");
            IndexOf(Render(m), " - ") == Some(|joined|) && Render(m)[..|joined|] == joined
  {
    var joined := Join(Fields(m), " ");
    var line := Render(m);
    FieldsAreFields(m);
    assert line == joined + " - " + m.source;
    assert line[|joined|..] == " - " + m.source && line[..|joined|] == joined;
    forall i | 0 <= i < |joined| ensures !StartsWith(line[i..], " - ") {
      NoEarlierSeparator(Fields(m), m.source, i);
    }
    FirstFoundThere(line, " - ", |joined|);
  }

  lemma {:induction false} RenderedTrims(m: Mount)
    requires IsMount(m)
    ensures Render(m) != "" && JsTrim(Render(m)) == Render(m)
  {
    var line := Render(m);
    assert Fields(m)[0] == m.ids[0];
    assert line[0] == m.ids[0][0];
    assert line[|line| - 1] == m.source[|m.source| - 1];
    TrimKeeps(line);
  }

  /** The reader recovers mount point and options of every mount from its line. */
  lemma {:induction false} ParseRendered(m: Mount)
    requires IsMount(m)
    ensures ParseLine(Render(m)) == Some(Entry(m.path, m.options))
  {
    RenderedTrims(m);
    RenderedSeparator(m);
    FieldsAreFields(m);
    SplitJoin(Fields(m), ' ');
    DecodeEncode(m.path);
    SplitJoin(m.options, ',');
  }

  lemma {:induction false} FieldsAreFields(m: Mount)
    requires IsMount(m)
    ensures forall k :: 0 <= k < |Fields(m)| ==> IsField(Fields(m)[k])
  {
    EncodedIsOneField(m.root, ' ');
    EncodedIsOneField(m.root, '\n');
    EncodedIsNotDash(m.root);
    EncodedIsOneField(m.path, ' ');
    EncodedIsOneField(m.path, '\n');
    EncodedIsNotDash(m.path);
  }

  const EXAMPLE := Mount(["1", "2", "3"], "/", "/a", ["ro", "x"], ["m"], "t")

  lemma {:induction false} ExampleFields()
    ensures Fields(EXAMPLE) == ["1", "2", "3", "/", "/a", "ro,x", "m"]
  {
    assert Join(["ro", "x"], ",") == "ro,x";
    assert "/"[1..] == "" && "/a"[1..] == "a" && "a"[1..] == "";
    assert EncodePath("a") == "a";
    assert EncodePath("/") == "/" && EncodePath("/a") == "/a";
  }

  lemma {:induction false} ExampleIsMount()
    ensures IsMount(EXAMPLE)
  {
    assert Join(["ro", "x"], ",") == "ro,x";
  }

  /** One line of the kernel's, read. */
  lemma {:induction false} LineIsRead()
    ensures var fields := "1" + " " + ("2" + " " + ("3" + " " + ("/" + " " + ("/a" + " " + ("ro,x" + " " + "m")))));
            ParseLine(fields + " - " + "t") == Some(Entry("/a", ["ro", "x"]))
  {
    ExampleFields();
    JoinSeven("1", "2", "3", "/", "/a", "ro,x", "m");
    ExampleIsMount();
    ParseRendered(EXAMPLE);
  }

  lemma {:induction false} JoinSeven(a: string, b: string, c: string, d: string, e: string, f: string, g: string)
    ensures Join([a, b, c, d, e, f, g], " ")
         == a + " " + (b + " " + (c + " " + (d + " " + (e + " " + (f + " " + g)))))
  {
    assert [f, g][1..] == [g] && [e, f, g][1..] == [f, g] && [d, e, f, g][1..] == [e, f, g];
    assert [c, d, e, f, g][1..] == [d, e, f, g] && [b, c, d, e, f, g][1..] == [c, d, e, f, g];
    assert [a, b, c, d, e, f, g][1..] == [b, c, d, e, f, g];
    assert Join([f, g], " ") == f + " " + g;
    assert Join([e, f, g], " ") == e + " " + Join([f, g], " ");
    assert Join([d, e, f, g], " ") == d + " " + Join([e, f, g], " ");
    assert Join([c, d, e, f, g], " ") == c + " " + Join([d, e, f, g], " ");
    assert Join([b, c, d, e, f, g], " ") == b + " " + Join([c, d, e, f, g], " ");
  }

  lemma {:induction false} JoinHasNo(parts: seq<string>, c: char)
    requires c != ' '
    requires forall k :: 0 <= k < |parts| ==> c !in parts[k]
    ensures c !in Join(parts, " ")
  {
    if |parts| > 1 {
      JoinHasNo(parts[1..], c);
    }
  }

  function RenderAll(mounts: seq<Mount>): (lines: seq<string>)
    ensures |lines| == |mounts| && forall k :: 0 <= k < |mounts| ==> lines[k] == Render(mounts[k])
  {
    if mounts == [] then [] else [Render(mounts[0])] + RenderAll(mounts[1..])
  }

  function MountEntries(mounts: seq<Mount>): (r: seq<Option<Entry>>)
    ensures |r| == |mounts|
  {
    if mounts == [] then []
    else [Some(Entry(mounts[0].path, mounts[0].options))] + MountEntries(mounts[1..])
  }

  lemma {:induction false} RenderedLine(m: Mount)
    requires IsMount(m)
    ensures '\n' !in Render(m)
  {
    FieldsAreFields(m);
    JoinHasNo(Fields(m), '\n');
  }

  lemma {:induction false} EmptyLineHasNoEntry()
    ensures Entries([""]) == [None]
  {
    assert JsTrim("") == "" && [""][1..] == [];
  }

  lemma {:induction false} FirstRendered(mounts: seq<Mount>)
    requires mounts != [] && IsMount(mounts[0])
    ensures Entries(RenderAll(mounts) + [""])
         == [Some(Entry(mounts[0].path, mounts[0].options))] + Entries(RenderAll(mounts[1..]) + [""])
  {
    ParseRendered(mounts[0]);
    assert (RenderAll(mounts) + [""])[1..] == RenderAll(mounts[1..]) + [""];
  }

  lemma {:induction false} RenderedEntries(mounts: seq<Mount>)
    requires forall k :: 0 <= k < |mounts| ==> IsMount(mounts[k])
    ensures Entries(RenderAll(mounts) + [""]) == MountEntries(mounts) + [None]
  {
    if mounts == [] {
      EmptyLineHasNoEntry();
      assert [] + [""] == [""];
    } else {
      var rest := mounts[1..];
      FirstRendered(mounts);
      RenderedEntries(rest);
      var first := Some(Entry(mounts[0].path, mounts[0].options));
      assert MountEntries(mounts) == [first] + MountEntries(rest);
      assert [first] + (MountEntries(rest) + [None]) == ([first] + MountEntries(rest)) + [None];
    }
  }

  /** The file of a list of mounts: one line each. */
  function Table(mounts: seq<Mount>): string {
    Unlines(RenderAll(mounts), LF)
  }

  lemma {:induction false} TableEntries(mounts: seq<Mount>)
    requires forall k :: 0 <= k < |mounts| ==> IsMount(mounts[k])
    ensures Entries(Split(Table(mounts), LF)) == MountEntries(mounts) + [None]
  {
    forall k | 0 <= k < |mounts| ensures LF !in RenderAll(mounts)[k] {
      RenderedLine(mounts[k]);
    }
    SplitUnlines(RenderAll(mounts));
    RenderedEntries(mounts);
  }

  /** The mount holds the target, and says whether it is read-only. */
  predicate Governs(m: Mount, target: string) {
    IsUnder(target, m.path) && ("ro" in m.options || "rw" in m.options)
  }

  /** No mount that governs the target has a longer path, and none as long comes before. */
  ghost predicate IsInnermost(mounts: seq<Mount>, target: string, k: nat) {
    && k < |mounts| && Governs(mounts[k], target)
    && forall j :: 0 <= j < |mounts| && Governs(mounts[j], target) ==>
         |mounts[j].path| < |mounts[k].path| || (|mounts[j].path| == |mounts[k].path| && k <= j)
  }

  lemma {:induction false} MountEntryAt(mounts: seq<Mount>, k: nat)
    requires k < |mounts|
    ensures MountEntries(mounts)[k] == Some(Entry(mounts[k].path, mounts[k].options))
  {
    if k > 0 {
      MountEntryAt(mounts[1..], k - 1);
    }
  }

  lemma {:induction false} MountsSpeak(mounts: seq<Mount>, target: string)
    ensures var entries := MountEntries(mounts) + [None];
            && (forall k :: 0 <= k < |mounts| ==> entries[k] == Some(Entry(mounts[k].path, mounts[k].options)))
            && (forall k :: 0 <= k < |entries| ==>
                  (Speaks(entries, target, k) <==> k < |mounts| && Governs(mounts[k], target)))
  {
    forall k | 0 <= k < |mounts| ensures MountEntries(mounts)[k] == Some(Entry(mounts[k].path, mounts[k].options)) {
      MountEntryAt(mounts, k);
    }
  }

  lemma {:induction false} InnermostMount(mounts: seq<Mount>, target: string, k: nat)
    ensures IsInnermost(mounts, target, k) <==> DecidesFor(MountEntries(mounts) + [None], target, k)
  {
    MountsSpeak(mounts, target);
    var entries := MountEntries(mounts) + [None];
    if DecidesFor(entries, target, k) {
      forall j | 0 <= j < |mounts| && Governs(mounts[j], target)
        ensures |mounts[j].path| < |mounts[k].path| || (|mounts[j].path| == |mounts[k].path| && k <= j)
      {
        assert Speaks(entries, target, j);
      }
    }
    if IsInnermost(mounts, target, k) {
      forall j | 0 <= j < |entries| && Speaks(entries, target, j)
        ensures |entries[j].value.mountPoint| < |entries[k].value.mountPoint|
                || (|entries[j].value.mountPoint| == |entries[k].value.mountPoint| && k <= j)
      {
        assert Governs(mounts[j], target);
      }
    }
  }

  /** For every list of mounts, whatever characters their paths hold, the state read from its table
      is that of the innermost mount that governs the target: read-only exactly if that has `ro`,
      writable exactly if it has `rw` and not `ro`; and none exactly if no mount governs it. */
  lemma {:induction false} RenderedTable(mounts: seq<Mount>, target: string, r: Option<bool>)
    requires forall k :: 0 <= k < |mounts| ==> IsMount(mounts[k])
    requires var entries := Entries(Split(Table(mounts), LF)); IsReadOnlyState(entries, |entries|, target, r)
    ensures r == None <==> forall k :: 0 <= k < |mounts| ==> !Governs(mounts[k], target)
    ensures r == Some(true) <==> exists k: nat :: IsInnermost(mounts, target, k) && "ro" in mounts[k].options
    ensures r == Some(false) <==>
              exists k: nat :: IsInnermost(mounts, target, k) && "ro" !in mounts[k].options && "rw" in mounts[k].options
  {
    TableEntries(mounts);
    MountsSpeak(mounts, target);
    var entries := MountEntries(mounts) + [None];
    StateIff(entries, target, r);
    forall k: nat ensures IsInnermost(mounts, target, k) <==> DecidesFor(entries, target, k) {
      InnermostMount(mounts, target, k);
    }
    if r == None {
      forall k | 0 <= k < |mounts| ensures !Governs(mounts[k], target) {
        assert !Speaks(entries, target, k);
      }
    }
  }
}
