/** The text operations the modelled programs use: Rust's `str::lines` and `str::trim`, and
    JavaScript's `split`, `join`, `indexOf` and `trim`.

    They are generic in the element type where the deployer uses them on bytes (log files) as
    well as on characters (environment files).
 */
module Text {
  datatype Option<+T> = None | Some(value: T)

  /** The position of the first `x` in `s`, or `|s|` when there is none. */
  function FirstIndex<T(==)>(s: seq<T>, x: T): (i: nat)
    ensures i <= |s|
    ensures forall k :: 0 <= k < i ==> s[k] != x
    ensures i < |s| ==> s[i] == x
  {
    if s == [] || s[0] == x then 0 else 1 + FirstIndex(s[1..], x)
  }

  // ---- Rust: lines ----

  function Chomp<T(==)>(line: seq<T>, cr: T): seq<T> {
    if |line| > 0 && line[|line| - 1] == cr then line[..|line| - 1] else line
  }

  /** `str::lines`: a line ends at a newline, a carriage return just before that newline belongs
      to the terminator, and a last line without a newline is kept as it is. */
  function Lines<T(==)>(s: seq<T>, nl: T, cr: T): seq<seq<T>> {
    var i := FirstIndex(s, nl);
    if s == [] then []
    else if i == |s| then [s]
    else [Chomp(s[..i], cr)] + Lines(s[i + 1..], nl, cr)
  }

  function Count<T(==)>(s: seq<T>, x: T): nat {
    if s == [] then 0 else (if s[0] == x then 1 else 0) + Count(s[1..], x)
  }

  lemma {:induction false} FirstIndexIs<T>(s: seq<T>, x: T, i: nat)
    requires i < |s| && s[i] == x
    requires forall k :: 0 <= k < i ==> s[k] != x
    ensures FirstIndex(s, x) == i
  {
    if i > 0 {
      FirstIndexIs(s[1..], x, i - 1);
    }
  }

  lemma {:induction false} CountAppend<T>(a: seq<T>, b: seq<T>, x: T)
    ensures Count(a + b, x) == Count(a, x) + Count(b, x)
  {
    if a == [] {
      assert a + b == b;
    } else {
      assert (a + b)[1..] == a[1..] + b;
      CountAppend(a[1..], b, x);
    }
  }

  lemma {:induction false} CountZero<T>(s: seq<T>, x: T)
    requires x !in s
    ensures Count(s, x) == 0
  {
    if s != [] {
      CountZero(s[1..], x);
    }
  }

  lemma {:induction false} CountAfterFirst<T>(s: seq<T>, x: T)
    requires Count(s, x) > 0
    ensures FirstIndex(s, x) < |s|
    ensures Count(s[FirstIndex(s, x) + 1..], x) == Count(s, x) - 1
  {
    if s[0] != x {
      CountAfterFirst(s[1..], x);
      assert s[FirstIndex(s, x) + 1..] == s[1..][FirstIndex(s[1..], x) + 1..];
    }
  }

  /** A line break is a place where a text may be cut: the lines before it and the lines
      after it are found independently. */
  lemma {:induction false} LinesCut<T>(a: seq<T>, b: seq<T>, nl: T, cr: T)
    requires a != [] && a[|a| - 1] == nl
    ensures Lines(a + b, nl, cr) == Lines(a, nl, cr) + Lines(b, nl, cr)
    decreases |a|
  {
    var i := FirstIndex(a, nl);
    assert i < |a|;
    assert (a + b)[..i] == a[..i];
    FirstIndexIs(a + b, nl, i);
    assert (a + b)[i + 1..] == a[i + 1..] + b;
    if i + 1 == |a| {
      assert Lines(a[i + 1..], nl, cr) == [];
      assert a[i + 1..] + b == b;
    } else {
      LinesCut(a[i + 1..], b, nl, cr);
    }
  }

  /** Every newline ends a line. */
  lemma {:induction false} LinesAtLeastNewlines<T>(s: seq<T>, nl: T, cr: T)
    ensures |Lines(s, nl, cr)| >= Count(s, nl)
    decreases |s|
  {
    var i := FirstIndex(s, nl);
    if i == |s| {
      assert s == s[..i];
      CountZero(s, nl);
    } else {
      assert s == s[..i] + ([nl] + s[i + 1..]);
      CountAppend(s[..i], [nl] + s[i + 1..], nl);
      CountAppend([nl], s[i + 1..], nl);
      CountZero(s[..i], nl);
      LinesAtLeastNewlines(s[i + 1..], nl, cr);
    }
  }

  function Unlines<T>(lines: seq<seq<T>>, nl: T): seq<T> {
    if lines == [] then [] else lines[0] + [nl] + Unlines(lines[1..], nl)
  }

  lemma {:induction false} UnlinesAppend<T>(a: seq<seq<T>>, b: seq<seq<T>>, nl: T)
    ensures Unlines(a + b, nl) == Unlines(a, nl) + Unlines(b, nl)
  {
    if a == [] {
      assert a + b == b;
    } else {
      assert (a + b)[1..] == a[1..] + b;
      UnlinesAppend(a[1..], b, nl);
    }
  }

  function ChompAll<T(==)>(lines: seq<seq<T>>, cr: T): (r: seq<seq<T>>)
    ensures |r| == |lines|
    ensures forall k :: 0 <= k < |lines| ==> r[k] == Chomp(lines[k], cr)
  {
    if lines == [] then [] else [Chomp(lines[0], cr)] + ChompAll(lines[1..], cr)
  }

  lemma {:induction false} ChompAppend<T>(a: seq<seq<T>>, b: seq<seq<T>>, cr: T)
    ensures ChompAll(a + b, cr) == ChompAll(a, cr) + ChompAll(b, cr)
  {
    assert forall k :: 0 <= k < |a| ==> (a + b)[k] == a[k];
    assert forall k :: 0 <= k < |b| ==> (a + b)[|a| + k] == b[k];
  }

  /** Reading back lines that were written one by one: all that is lost is one carriage return
      at the end of a line. */
  lemma {:induction false} LinesOfUnlines<T>(lines: seq<seq<T>>, nl: T, cr: T)
    requires forall k :: 0 <= k < |lines| ==> nl !in lines[k]
    ensures Lines(Unlines(lines, nl), nl, cr) == ChompAll(lines, cr)
  {
    if lines != [] {
      var text := Unlines(lines, nl);
      var n := |lines[0]|;
      assert text == lines[0] + ([nl] + Unlines(lines[1..], nl));
      assert text[..n] == lines[0] && text[n + 1..] == Unlines(lines[1..], nl);
      FirstIndexIs(text, nl, n);
      LinesOfUnlines(lines[1..], nl, cr);
    }
  }

  // ---- JavaScript: split, join, indexOf ----

  function Split<T(==)>(s: seq<T>, sep: T): (parts: seq<seq<T>>)
    ensures parts != []
  {
    var i := FirstIndex(s, sep);
    if i == |s| then [s] else [s[..i]] + Split(s[i + 1..], sep)
  }

  function Join<T>(parts: seq<seq<T>>, glue: seq<T>): seq<T> {
    if parts == [] then []
    else if |parts| == 1 then parts[0]
    else parts[0] + glue + Join(parts[1..], glue)
  }

  lemma {:induction false} SplitCut<T>(a: seq<T>, b: seq<T>, sep: T)
    ensures Split(a + [sep] + b, sep) == Split(a, sep) + Split(b, sep)
    decreases |a|
  {
    var s := a + [sep] + b;
    var i := FirstIndex(a, sep);
    FirstIndexIs(s, sep, i);
    assert s[..i] == a[..i];
    if i == |a| {
      assert s[i + 1..] == b;
      assert a[..i] == a;
    } else {
      assert s[i + 1..] == a[i + 1..] + [sep] + b;
      SplitCut(a[i + 1..], b, sep);
    }
  }

  lemma {:induction false} SplitOne<T>(s: seq<T>, sep: T)
    requires sep !in s
    ensures Split(s, sep) == [s]
  {
    assert FirstIndex(s, sep) == |s|;
  }

  lemma {:induction false} SplitJoin<T>(parts: seq<seq<T>>, sep: T)
    requires parts != []
    requires forall k :: 0 <= k < |parts| ==> sep !in parts[k]
    ensures Split(Join(parts, [sep]), sep) == parts
  {
    SplitOne(parts[0], sep);
    if |parts| > 1 {
      SplitCut(parts[0], Join(parts[1..], [sep]), sep);
      SplitJoin(parts[1..], sep);
    }
  }

  predicate StartsWith<T(==)>(s: seq<T>, prefix: seq<T>) {
    |prefix| <= |s| && forall k :: 0 <= k < |prefix| ==> s[k] == prefix[k]
  }

  /** The position of the first occurrence of `pattern`, or None where JavaScript says -1. */
  function IndexOf<T(==)>(s: seq<T>, pattern: seq<T>): (r: Option<nat>)
    ensures r.Some? ==> r.value <= |s| && StartsWith(s[r.value..], pattern)
    ensures r.Some? ==> forall k :: 0 <= k < r.value ==> !StartsWith(s[k..], pattern)
    ensures r.None? ==> forall k :: 0 <= k <= |s| ==> !StartsWith(s[k..], pattern)
  {
    if StartsWith(s, pattern) then
      assert s[0..] == s;
      Some(0)
    else if s == [] then None
    else
      var r := IndexOf(s[1..], pattern);
      assert s[0..] == s;
      assert forall k :: 1 <= k <= |s| ==> s[k..] == s[1..][k - 1..];
      if r.Some? then Some(r.value + 1) else None
  }

  // ---- trim, in both languages ----

  datatype Language = JavaScript | Rust

  /** The white space that `trim` removes: the languages differ in two characters. */
  predicate IsSpace(language: Language, c: char) {
    || '\U{0009}' <= c <= '\U{000D}'
    || c == ' '
    || c == '\U{00A0}'
    || c == '\U{1680}'
    || '\U{2000}' <= c <= '\U{200A}'
    || c == '\U{2028}'
    || c == '\U{2029}'
    || c == '\U{202F}'
    || c == '\U{205F}'
    || c == '\U{3000}'
    || (language.JavaScript? && c == '\U{FEFF}')
    || (language.Rust? && c == '\U{0085}')
  }

  function TrimStart(s: string, language: Language): string {
    if s != [] && IsSpace(language, s[0]) then TrimStart(s[1..], language) else s
  }

  function TrimEnd(s: string, language: Language): string {
    if s != [] && IsSpace(language, s[|s| - 1]) then TrimEnd(s[..|s| - 1], language) else s
  }

  function Trim(s: string, language: Language): string {
    TrimEnd(TrimStart(s, language), language)
  }

  function JsTrim(s: string): string { Trim(s, JavaScript) }

  function RustTrim(s: string): string { Trim(s, Rust) }

  lemma {:induction false} TrimStartIs(s: string, language: Language) returns (i: nat)
    ensures i <= |s| && TrimStart(s, language) == s[i..]
    ensures forall k :: 0 <= k < i ==> IsSpace(language, s[k])
    ensures i < |s| ==> !IsSpace(language, s[i])
  {
    i := 0;
    if s != [] && IsSpace(language, s[0]) {
      i := TrimStartIs(s[1..], language);
      i := i + 1;
    }
  }

  lemma {:induction false} TrimEndIs(s: string, language: Language) returns (n: nat)
    ensures n <= |s| && TrimEnd(s, language) == s[..n]
    ensures forall k :: n <= k < |s| ==> IsSpace(language, s[k])
    ensures n > 0 ==> !IsSpace(language, s[n - 1])
  {
    n := |s|;
    if s != [] && IsSpace(language, s[|s| - 1]) {
      n := TrimEndIs(s[..|s| - 1], language);
    }
  }

  /** The first character that survives trimming is the first that is not white space. */
  lemma {:induction false} TrimFirst(s: string, i: nat, language: Language)
    requires i < |s| && !IsSpace(language, s[i]) && forall k :: 0 <= k < i ==> IsSpace(language, s[k])
    ensures Trim(s, language) != "" && Trim(s, language)[0] == s[i]
  {
    var j := TrimStartIs(s, language);
    assert i == j;
    var n := TrimEndIs(s[j..], language);
    assert s[j..][0] == s[i];
  }

  lemma {:induction false} TrimWitness(s: string, language: Language) returns (i: nat)
    requires Trim(s, language) != ""
    ensures i < |s| && !IsSpace(language, s[i]) && forall k :: 0 <= k < i ==> IsSpace(language, s[k])
    ensures Trim(s, language)[0] == s[i]
  {
    i := TrimStartIs(s, language);
    TrimFirst(s, i, language);
  }

  /** Trimming leaves no white space at either end, and adds nothing. */
  lemma {:induction false} TrimEnds(s: string, language: Language)
    ensures var t := Trim(s, language);
            t != "" ==> !IsSpace(language, t[0]) && !IsSpace(language, t[|t| - 1])
    ensures forall c :: c in Trim(s, language) ==> c in s
  {
    var i := TrimStartIs(s, language);
    var n := TrimEndIs(s[i..], language);
  }

  lemma {:induction false} TrimAgain(s: string, language: Language)
    ensures Trim(Trim(s, language), language) == Trim(s, language)
  {
    TrimEnds(s, language);
  }

  predicate AllSpace(s: string, language: Language) {
    forall k :: 0 <= k < |s| ==> IsSpace(language, s[k])
  }

  /** Trimming takes off exactly the white space around the text. */
  lemma {:induction false} TrimAround(before: string, core: string, after: string, language: Language)
    requires AllSpace(before, language) && AllSpace(after, language)
    requires core != "" ==> !IsSpace(language, core[0]) && !IsSpace(language, core[|core| - 1])
    ensures Trim(before + core + after, language) == core
  {
    var s := before + core + after;
    var i := TrimStartIs(s, language);
    var n := TrimEndIs(s[i..], language);
    if core == "" {
      assert forall k :: 0 <= k < |s| ==> IsSpace(language, s[k]);
    } else {
      assert s[|before|] == core[0];
      assert i == |before|;
      assert s[i..] == core + after;
      assert s[i..][|core| - 1] == core[|core| - 1];
      assert n == |core|;
    }
  }

  // ---- Lines of characters ----

  const LF: char := '\n'
  const CR: char := '\r'

  ghost predicate NoLineFeed(lines: seq<string>) {
    forall k :: 0 <= k < |lines| ==> LF !in lines[k]
  }

  lemma {:induction false} SplitUnlines(lines: seq<string>)
    requires NoLineFeed(lines)
    ensures Split(Unlines(lines, LF), LF) == lines + [""]
  {
    if lines != [] {
      SplitUnlines(lines[1..]);
      var rest := Unlines(lines[1..], LF);
      assert Unlines(lines, LF) == lines[0] + [LF] + rest;
      SplitCut(lines[0], rest, LF);
      SplitOne(lines[0], LF);
      assert [lines[0]] + (lines[1..] + [""]) == lines + [""];
    }
  }

  // ---- Numbers ----

  function Digit(n: nat): char
    requires n < 10
  {
    '0' + n as char
  }

  function Decimal(n: nat): string {
    if n < 10 then [Digit(n)] else Decimal(n / 10) + [Digit(n % 10)]
  }

  function ReadDecimal(s: string): int {
    if s == "" then 0 else 10 * ReadDecimal(s[..|s| - 1]) + (s[|s| - 1] as int - '0' as int)
  }

  lemma {:induction false} DecimalReads(n: nat)
    ensures ReadDecimal(Decimal(n)) == n
  {
    if n < 10 {
      assert Decimal(n)[..0] == "";
    } else {
      DecimalReads(n / 10);
      assert Decimal(n)[..|Decimal(n)| - 1] == Decimal(n / 10);
    }
  }
}
