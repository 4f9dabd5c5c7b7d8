/** The deployer's environment file sanitiser: values are normalised, email keys may be blocked,
    some keys are forced, and PORT is always the runtime's.
 */
module EnvFile {
  import opened Text

  /** The forced variables are listed in key order, as the source's sorted map yields them. */
  datatype Policy = Policy(allowEmail: bool, blockedKeys: set<string>, forced: seq<(string, string)>)

  datatype Result = Unreadable | Written(output: string)

  /** Cutting a line at its first equals sign. */
  function SplitOnce(line: string): Option<(string, string)> {
    var i := FirstIndex(line, '=');
    if i == |line| then None else Some((line[..i], line[i + 1..]))
  }

  predicate IsQuoted(s: string) {
    |s| >= 2 && s[0] == s[|s| - 1] && (s[0] == '"' || s[0] == '\'')
  }

  function NormalizeEnvValue(raw: string): string {
    var trimmed := RustTrim(raw);
    if IsQuoted(trimmed) then trimmed[1..|trimmed| - 1] else trimmed
  }

  /** What the normalisation does to a value with white space around it: quotes of one kind around
      the rest come off, once; anything else stays. */
  lemma {:induction false} NormalizedValue(before: string, core: string, after: string)
    requires AllSpace(before, Rust) && AllSpace(after, Rust)
    requires core != "" ==> !IsSpace(Rust, core[0]) && !IsSpace(Rust, core[|core| - 1])
    ensures var value := NormalizeEnvValue(before + core + after);
            && ((exists inner :: core == "\"" + inner + "\"" && value == inner)
                || (exists inner :: core == "'" + inner + "'" && value == inner)
                || ((forall inner :: core != "\"" + inner + "\"" && core != "'" + inner + "'") && value == core))
  {
    TrimAround(before, core, after, Rust);
    if IsQuoted(core) {
      var inner := core[1..|core| - 1];
      assert core == [core[0]] + inner + [core[|core| - 1]];
    } else {
      forall inner: string ensures core != "\"" + inner + "\"" && core != "'" + inner + "'" {
        QuotedIs(inner);
      }
    }
  }

  lemma {:induction false} QuotedIs(inner: string)
    ensures IsQuoted("\"" + inner + "\"") && IsQuoted("'" + inner + "'")
  {
    var d, s := "\"" + inner + "\"", "'" + inner + "'";
    assert d[0] == d[|d| - 1] == '"' && s[0] == s[|s| - 1] == '\'';
  }

  predicate IsBlankOrComment(line: string) {
    var trimmed := RustTrim(line);
    trimmed == "" || trimmed[0] == '#'
  }

  predicate IsForced(policy: Policy, key: string) {
    exists k :: 0 <= k < |policy.forced| && policy.forced[k].0 == key
  }

  predicate Dropped(policy: Policy, blockEmail: bool, key: string) {
    (blockEmail && key in policy.blockedKeys) || IsForced(policy, key) || key == "PORT"
  }

  function Assign(key: string, value: string): string {
    key + "=" + value
  }

  /** What becomes of one source line. */
  function Sanitize(policy: Policy, blockEmail: bool, line: string): seq<string> {
    if IsBlankOrComment(line) then [line]
    else
      match SplitOnce(line)
      case None => [line]
      case Some((k, v)) =>
        var key := RustTrim(k);
        if Dropped(policy, blockEmail, key) then [] else [Assign(key, NormalizeEnvValue(v))]
  }

  function SanitizeAll(policy: Policy, blockEmail: bool, lines: seq<string>): seq<string> {
    if lines == [] then []
    else Sanitize(policy, blockEmail, lines[0]) + SanitizeAll(policy, blockEmail, lines[1..])
  }

  function ForcedLines(forced: seq<(string, string)>): seq<string> {
    if forced == [] then []
    else (if forced[0].0 == "PORT" then [] else [Assign(forced[0].0, forced[0].1)]) + ForcedLines(forced[1..])
  }

  function BlocksEmail(policy: Policy, environmentAllowsEmail: bool): bool {
    !policy.allowEmail || !environmentAllowsEmail
  }

  function OutputLines(content: string, policy: Policy, environmentAllowsEmail: bool, port: nat): seq<string> {
    SanitizeAll(policy, BlocksEmail(policy, environmentAllowsEmail), Lines(content, LF, CR))
    + ForcedLines(policy.forced) + [Assign("PORT", Decimal(port))]
  }

  // ---- What an environment file means ----

  function Assignment(line: string): Option<(string, string)> {
    if IsBlankOrComment(line) then None
    else
      match SplitOnce(line)
      case None => None
      case Some((k, v)) => Some((RustTrim(k), v))
  }

  /** The value a key is given last. */
  function Lookup(lines: seq<string>, key: string): Option<string> {
    if lines == [] then None
    else
      var later := Lookup(lines[1..], key);
      if later.Some? then later
      else
        match Assignment(lines[0])
        case Some((k, v)) => if k == key then Some(v) else None
        case None => None
  }

  function Read(text: string, key: string): Option<string> {
    Lookup(Lines(text, LF, CR), key)
  }

  lemma {:induction false} LookupAppend(a: seq<string>, b: seq<string>, key: string)
    ensures Lookup(a + b, key) == if Lookup(b, key).Some? then Lookup(b, key) else Lookup(a, key)
  {
    if a == [] {
      assert a + b == b;
    } else {
      assert (a + b)[1..] == a[1..] + b;
      LookupAppend(a[1..], b, key);
    }
  }

  lemma {:induction false} BlankChomped(line: string)
    ensures IsBlankOrComment(Chomp(line, CR)) <==> IsBlankOrComment(line)
  {
    var chomped := Chomp(line, CR);
    if RustTrim(line) != "" {
      var i := TrimWitness(line, Rust);
      TrimFirst(chomped, i, Rust);
    } else if RustTrim(chomped) != "" {
      var i := TrimWitness(chomped, Rust);
      TrimFirst(line, i, Rust);
    }
  }

  lemma {:induction false} NoEqualsSplit(line: string)
    requires SplitOnce(line).None?
    ensures SplitOnce(Chomp(line, CR)).None?
  {
    var chomped := Chomp(line, CR);
    assert forall k :: 0 <= k < |chomped| ==> chomped[k] == line[k] != '=';
  }

  lemma {:induction false} LookupFirst(line: string, rest: seq<string>, key: string)
    ensures Lookup([line] + rest, key)
         == if Lookup(rest, key).Some? then Lookup(rest, key)
            else match Assignment(line)
                 case Some((k, v)) => if k == key then Some(v) else None
                 case None => None
  {
    assert ([line] + rest)[1..] == rest;
  }

  // ---- What is written is what is read ----

  ghost predicate IsKey(key: string) {
    && RustTrim(key) == key
    && (key == "" || key[0] != '#')
    && '=' !in key && LF !in key
  }

  /** A line the sanitiser writes reads back as the assignment it was written for, less one
      carriage return at the end of the value. */
  lemma {:induction false} AssignmentReadsBack(key: string, value: string)
    requires IsKey(key)
    ensures Assignment(Chomp(Assign(key, value), CR)) == Some((key, Chomp(value, CR)))
  {
    var line := Chomp(Assign(key, value), CR);
    assert line == key + "=" + Chomp(value, CR) by {
      if value != "" {
        assert Assign(key, value)[|key| + |value|] == value[|value| - 1];
      } else {
        assert Assign(key, value)[|key|] == '=';
      }
    }
    TrimEnds(key, Rust);
    TrimFirst(line, 0, Rust);
    FirstIndexIs(line, '=', |key|);
    assert line[..|key|] == key && line[|key| + 1..] == Chomp(value, CR);
  }

  lemma {:induction false} SourceKey(line: string)
    requires !IsBlankOrComment(line) && LF !in line && SplitOnce(line).Some?
    ensures IsKey(RustTrim(SplitOnce(line).value.0))
  {
    var k := SplitOnce(line).value.0;
    var key := RustTrim(k);
    TrimEnds(k, Rust);
    TrimAgain(k, Rust);
    assert forall c :: c in k ==> c in line;
    if key != "" {
      var i := TrimWitness(k, Rust);
      TrimFirst(line, i, Rust);
    }
  }

  /** What the output says about a key that is not dropped, for one source line. */
  lemma {:induction false} SanitizedLine(policy: Policy, blockEmail: bool, line: string, key: string)
    requires LF !in line
    ensures NoLineFeed(Sanitize(policy, blockEmail, line))
    ensures Lookup(ChompAll(Sanitize(policy, blockEmail, line), CR), key)
         == match Assignment(line)
            case None => None
            case Some((k, v)) =>
              if k != key || Dropped(policy, blockEmail, key) then None
              else Some(Chomp(NormalizeEnvValue(v), CR))
  {
    var out := Sanitize(policy, blockEmail, line);
    var chomped := ChompAll(out, CR);
    BlankChomped(line);
    if IsBlankOrComment(line) {
      assert chomped == [Chomp(line, CR)] && chomped[1..] == [];
    } else if SplitOnce(line).None? {
      NoEqualsSplit(line);
      assert chomped == [Chomp(line, CR)] && chomped[1..] == [];
    } else {
      var (k, v) := SplitOnce(line).value;
      SourceKey(line);
      assert forall c :: c in v ==> c in line;
      TrimEnds(v, Rust);
      if out != [] {
        AssignmentReadsBack(RustTrim(k), NormalizeEnvValue(v));
        assert chomped[1..] == [];
      }
    }
  }

  lemma {:induction false} SanitizedLines(policy: Policy, blockEmail: bool, lines: seq<string>, key: string)
    requires NoLineFeed(lines)
    ensures NoLineFeed(SanitizeAll(policy, blockEmail, lines))
    ensures Lookup(ChompAll(SanitizeAll(policy, blockEmail, lines), CR), key)
         == if Dropped(policy, blockEmail, key) then None
            else match Lookup(lines, key)
                 case None => None
                 case Some(v) => Some(Chomp(NormalizeEnvValue(v), CR))
  {
    if lines != [] {
      var first := Sanitize(policy, blockEmail, lines[0]);
      var rest := SanitizeAll(policy, blockEmail, lines[1..]);
      SanitizedLine(policy, blockEmail, lines[0], key);
      SanitizedLines(policy, blockEmail, lines[1..], key);
      ChompAppend(first, rest, CR);
      LookupAppend(ChompAll(first, CR), ChompAll(rest, CR), key);
    }
  }

  /** A policy whose forced variables can be written on a line each. */
  ghost predicate WellFormed(forced: seq<(string, string)>) {
    && (forall k :: 0 <= k < |forced| ==>
          IsKey(forced[k].0) && LF !in forced[k].1 && Chomp(forced[k].1, CR) == forced[k].1)
    && (forall j, k :: 0 <= j < k < |forced| ==> forced[j].0 != forced[k].0)
  }

  function ForcedValue(forced: seq<(string, string)>, key: string): Option<string> {
    if forced == [] then None
    else if forced[0].0 == key then Some(forced[0].1)
    else ForcedValue(forced[1..], key)
  }

  lemma {:induction false} ForcedValueSome(policy: Policy, forced: seq<(string, string)>, key: string)
    ensures ForcedValue(forced, key).Some? <==> exists k :: 0 <= k < |forced| && forced[k].0 == key
  {
    if forced != [] {
      ForcedValueSome(policy, forced[1..], key);
      if k :| 0 < k < |forced| && forced[k].0 == key {
        assert forced[1..][k - 1].0 == key;
      }
    }
  }

  lemma {:induction false} ForcedLinesRead(forced: seq<(string, string)>, key: string)
    requires WellFormed(forced)
    ensures NoLineFeed(ForcedLines(forced))
    ensures Lookup(ChompAll(ForcedLines(forced), CR), key) == if key == "PORT" then None else ForcedValue(forced, key)
  {
    if forced != [] {
      var rest := ForcedLines(forced[1..]);
      ForcedLinesRead(forced[1..], key);
      if forced[0].0 == key {
        ForcedValueAbsent(forced[1..], key);
      }
      if forced[0].0 != "PORT" {
        var line := Assign(forced[0].0, forced[0].1);
        AssignmentReadsBack(forced[0].0, forced[0].1);
        assert ChompAll([line] + rest, CR) == [Chomp(line, CR)] + ChompAll(rest, CR);
        LookupFirst(Chomp(line, CR), ChompAll(rest, CR), key);
      } else {
        assert ForcedLines(forced) == rest;
      }
    }
  }

  lemma {:induction false} ForcedValueAbsent(forced: seq<(string, string)>, key: string)
    requires forall k :: 0 <= k < |forced| ==> forced[k].0 != key
    ensures ForcedValue(forced, key) == None
  {
    if forced != [] {
      ForcedValueAbsent(forced[1..], key);
    }
  }

  /** The value the deployment is to see for a key. */
  function Expected(content: string, policy: Policy, environmentAllowsEmail: bool, port: nat,
        key: string): Option<string> {
    if key == "PORT" then Some(Decimal(port))
    else if IsForced(policy, key) then ForcedValue(policy.forced, key)
    else if BlocksEmail(policy, environmentAllowsEmail) && key in policy.blockedKeys then None
    else
      match Read(content, key)
      case None => None
      case Some(raw) => Some(NormalizeEnvValue(raw))
  }

  function ChompValue(value: Option<string>): Option<string> {
    match value case None => None case Some(v) => Some(Chomp(v, CR))
  }

  lemma {:induction false} DecimalIsPlain(n: nat)
    ensures Decimal(n) != "" && forall c :: c in Decimal(n) ==> '0' <= c <= '9'
  {
    if n >= 10 {
      DecimalIsPlain(n / 10);
    }
  }

  lemma {:induction false} LinesHaveNoLineFeed(text: string)
    ensures NoLineFeed(Lines(text, LF, CR))
    decreases |text|
  {
    var i := FirstIndex(text, LF);
    if i < |text| {
      LinesHaveNoLineFeed(text[i + 1..]);
    }
  }

  lemma {:induction false} PortLine(port: nat, key: string)
    ensures LF !in Assign("PORT", Decimal(port))
    ensures Lookup(ChompAll([Assign("PORT", Decimal(port))], CR), key)
         == if key == "PORT" then Some(Decimal(port)) else None
  {
    DecimalIsPlain(port);
    var line := Assign("PORT", Decimal(port));
    assert RustTrim("PORT") == "PORT";
    AssignmentReadsBack("PORT", Decimal(port));
    assert Chomp(Decimal(port), CR) == Decimal(port);
    LookupFirst(Chomp(line, CR), [], key);
    assert ChompAll([line], CR) == [Chomp(line, CR)] + [];
  }

  /** For every source file and every well-formed policy, the last assignment of each key in the
      sanitised file is the expected one, up to one carriage return at the end of the value. */
  lemma {:induction false} SanitizedFileReads(content: string, policy: Policy, environmentAllowsEmail: bool,
        port: nat, key: string)
    requires WellFormed(policy.forced)
    ensures Read(Unlines(OutputLines(content, policy, environmentAllowsEmail, port), LF), key)
         == ChompValue(Expected(content, policy, environmentAllowsEmail, port, key))
  {
    var blockEmail := BlocksEmail(policy, environmentAllowsEmail);
    var lines := Lines(content, LF, CR);
    var first, second := SanitizeAll(policy, blockEmail, lines), ForcedLines(policy.forced);
    var third := [Assign("PORT", Decimal(port))];
    LinesHaveNoLineFeed(content);
    SanitizedLines(policy, blockEmail, lines, key);
    ForcedLinesRead(policy.forced, key);
    PortLine(port, key);
    ReadThree(first, second, third, key);
    ExpectedForced(policy, key);
    PortChomped(port);
  }

  /** The same key by key, in the fields of the policy: PORT, then what is forced, then the email keys
      that the policy or the environment blocks, then everything else, normalised. */
  lemma {:induction false} EachKeyReads(content: string, policy: Policy, environmentAllowsEmail: bool, port: nat,
        key: string)
    requires WellFormed(policy.forced)
    ensures var value := Read(Unlines(OutputLines(content, policy, environmentAllowsEmail, port), LF), key);
            var forced := exists k :: 0 <= k < |policy.forced| && policy.forced[k].0 == key;
            var blocked := key in policy.blockedKeys && !(policy.allowEmail && environmentAllowsEmail);
            && (forall k :: 0 <= k < |policy.forced| && policy.forced[k].0 == key && key != "PORT" ==>
                  value == Some(policy.forced[k].1))
            && (key != "PORT" && !forced && blocked ==> value == None)
            && (key != "PORT" && !forced && !blocked ==>
                  && (value == None <==> Read(content, key) == None)
                  && forall raw :: Read(content, key) == Some(raw) ==> value == Some(Chomp(NormalizeEnvValue(raw), CR)))
  {
    SanitizedFileReads(content, policy, environmentAllowsEmail, port, key);
    ExpectedForced(policy, key);
    forall k | 0 <= k < |policy.forced| && policy.forced[k].0 == key
      ensures ForcedValue(policy.forced, key) == Some(policy.forced[k].1)
    {
      ForcedValueAt(policy.forced, k);
    }
  }

  lemma {:induction false} ForcedValueAt(forced: seq<(string, string)>, k: nat)
    requires WellFormed(forced) && k < |forced|
    ensures ForcedValue(forced, forced[k].0) == Some(forced[k].1)
  {
    if k > 0 {
      ForcedValueAt(forced[1..], k - 1);
    }
  }

  /** Whoever reads the file finds the runtime's port, as a number. */
  lemma {:induction false} PortReadsBack(content: string, policy: Policy, environmentAllowsEmail: bool, port: nat)
    requires WellFormed(policy.forced)
    ensures var value := Read(Unlines(OutputLines(content, policy, environmentAllowsEmail, port), LF), "PORT");
            value.Some? && ReadDecimal(value.value) == port
  {
    SanitizedFileReads(content, policy, environmentAllowsEmail, port, "PORT");
    PortChomped(port);
    DecimalReads(port);
  }

  function LastOf(earlier: Option<string>, later: Option<string>): Option<string> {
    if later.Some? then later else earlier
  }

  lemma {:induction false} ReadThree(first: seq<string>, second: seq<string>, third: seq<string>, key: string)
    requires NoLineFeed(first) && NoLineFeed(second) && NoLineFeed(third)
    ensures Read(Unlines(first + second + third, LF), key)
         == LastOf(LastOf(Lookup(ChompAll(first, CR), key), Lookup(ChompAll(second, CR), key)),
                   Lookup(ChompAll(third, CR), key))
  {
    LinesOfUnlines(first + second + third, LF, CR);
    ChompAppend(first, second, CR);
    ChompAppend(first + second, third, CR);
    LookupAppend(ChompAll(first, CR), ChompAll(second, CR), key);
    LookupAppend(ChompAll(first, CR) + ChompAll(second, CR), ChompAll(third, CR), key);
  }

  lemma {:induction false} PortChomped(port: nat)
    ensures Chomp(Decimal(port), CR) == Decimal(port)
  {
    DecimalIsPlain(port);
  }

  lemma {:induction false} ForcedValueChomped(forced: seq<(string, string)>, key: string)
    requires WellFormed(forced)
    ensures ChompValue(ForcedValue(forced, key)) == ForcedValue(forced, key)
  {
    if forced != [] && forced[0].0 != key {
      ForcedValueChomped(forced[1..], key);
    }
  }

  lemma {:induction false} ExpectedForced(policy: Policy, key: string)
    requires WellFormed(policy.forced)
    ensures ForcedValue(policy.forced, key).Some? <==> IsForced(policy, key)
    ensures ChompValue(ForcedValue(policy.forced, key)) == ForcedValue(policy.forced, key)
  {
    ForcedValueSome(policy, policy.forced, key);
    ForcedValueChomped(policy.forced, key);
  }

  /** A key reads back exactly as expected, unless its value was quoted and the last character
      inside the quotes is a carriage return. */
  lemma {:induction false} SanitizedFileExact(content: string, policy: Policy, environmentAllowsEmail: bool,
        port: nat, key: string)
    requires WellFormed(policy.forced)
    ensures Read(Unlines(OutputLines(content, policy, environmentAllowsEmail, port), LF), key)
         == Expected(content, policy, environmentAllowsEmail, port, key)
       <==> (Dropped(policy, BlocksEmail(policy, environmentAllowsEmail), key)
             || Read(content, key).None?
             || !QuotesReturn(Read(content, key).value))
  {
    SanitizedFileReads(content, policy, environmentAllowsEmail, port, key);
    ExpectedForced(policy, key);
    PortChomped(port);
    if Read(content, key).Some? {
      NormalizedReturn(Read(content, key).value);
    }
  }

  predicate QuotesReturn(raw: string) {
    var trimmed := RustTrim(raw);
    |trimmed| > 2 && IsQuoted(trimmed) && trimmed[|trimmed| - 2] == CR
  }

  lemma {:induction false} NormalizedReturn(raw: string)
    ensures Chomp(NormalizeEnvValue(raw), CR) != NormalizeEnvValue(raw) <==> QuotesReturn(raw)
  {
    TrimEnds(raw, Rust);
  }

  lemma {:induction false} QuotedValueIsRead()
    ensures var content := "A=\"x\r\""; Read(content, "A") == Some(content[2..])
  {
    var content := "A=\"x\r\"";
    assert FirstIndex(content, LF) == |content|;
    FirstIndexIs(content, '=', 1);
    TrimFirst(content, 0, Rust);
    assert content[..1] == "A" && RustTrim("A") == "A";
    assert Assignment(content) == Some(("A", content[2..]));
    LookupFirst(content, [], "A");
    assert Lines(content, LF, CR) == [content] + [];
  }

  lemma {:induction false} QuotedReturnNormalized()
    ensures NormalizeEnvValue("\"x\r\"") == "x\r" && Chomp("x\r", CR) == "x"
  {
    var raw := "\"x\r\"";
    assert RustTrim(raw) == raw;
    assert raw[1..3] == "x\r";
  }

  /** A file that does not survive: the carriage return inside the quotes is lost on the way. */
  lemma {:induction false} QuotedReturnIsLost(port: nat)
    ensures var content, policy := "A=\"x\r\"", Policy(true, {}, []);
            && Expected(content, policy, true, port, "A") == Some("x\r")
            && Read(Unlines(OutputLines(content, policy, true, port), LF), "A") == Some("x")
  {
    var content, policy, raw := "A=\"x\r\"", Policy(true, {}, []), "\"x\r\"";
    QuotedValueIsRead();
    QuotedReturnNormalized();
    assert content[2..] == raw;
    SanitizedFileReads(content, policy, true, port, "A");
  }

  // ---- The program ----

  method WriteSanitizedEnvFile(source: Option<string>, policy: Policy, environmentAllowsEmail: bool, port: nat)
    returns (r: Result)
    ensures r == if source.None? then Unreadable
                 else Written(Unlines(OutputLines(source.value, policy, environmentAllowsEmail, port), LF))
  {
    if source.None? {
      return Unreadable;
    }
    var lines := Lines(source.value, LF, CR);
    var blockEmail := BlocksEmail(policy, environmentAllowsEmail);
    var output := SanitizeLoop(lines, policy, blockEmail);
    var forcedText := ForcedLoop(policy.forced);
    UnlinesAppend(SanitizeAll(policy, blockEmail, lines), ForcedLines(policy.forced), LF);
    var last := [Assign("PORT", Decimal(port))];
    UnlinesAppend(SanitizeAll(policy, blockEmail, lines) + ForcedLines(policy.forced), last, LF);
    assert Unlines(last, LF) == Assign("PORT", Decimal(port)) + "\n";
    return Written(output + forcedText + (Assign("PORT", Decimal(port)) + "\n"));
  }

  lemma {:induction false} SanitizeStep(policy: Policy, blockEmail: bool, lines: seq<string>)
    requires lines != []
    ensures Unlines(SanitizeAll(policy, blockEmail, lines), LF)
         == Unlines(Sanitize(policy, blockEmail, lines[0]), LF)
            + Unlines(SanitizeAll(policy, blockEmail, lines[1..]), LF)
  {
    UnlinesAppend(Sanitize(policy, blockEmail, lines[0]), SanitizeAll(policy, blockEmail, lines[1..]), LF);
  }

  lemma {:induction false} SanitizeAt(policy: Policy, blockEmail: bool, lines: seq<string>, i: nat)
    requires i < |lines|
    ensures Unlines(SanitizeAll(policy, blockEmail, lines[i..]), LF)
         == Unlines(Sanitize(policy, blockEmail, lines[i]), LF)
            + Unlines(SanitizeAll(policy, blockEmail, lines[i + 1..]), LF)
  {
    SanitizeStep(policy, blockEmail, lines[i..]);
    assert lines[i..][1..] == lines[i + 1..];
  }

  lemma {:induction false} OneLine(line: string)
    ensures Unlines([line], LF) == line + "\n"
  {
    assert [line][1..] == [];
  }

  lemma {:induction false} SplitOnceIs(line: string, key: string, value: string)
    requires line == key + "=" + value && '=' !in key
    ensures SplitOnce(line) == Some((key, value))
  {
    assert line[|key|] == '=' && forall i :: 0 <= i < |key| ==> line[i] == key[i];
    FirstIndexIs(line, '=', |key|);
    assert line[..|key|] == key && line[|key| + 1..] == value;
  }

  /** Blank lines, comments and lines without an equals sign are copied; an assignment is written
      again, normalised, unless its key is PORT, forced, or an email key that is blocked. */
  method SanitizeLine(policy: Policy, blockEmail: bool, line: string) returns (text: string)
    ensures text == Unlines(Sanitize(policy, blockEmail, line), LF)
    ensures '=' !in line || RustTrim(line) == "" || RustTrim(line)[0] == '#' ==> text == line + "\n"
    ensures RustTrim(line) != "" && RustTrim(line)[0] != '#' ==>
              forall k, v: string :: line == k + "=" + v && '=' !in k ==>
                text == (if RustTrim(k) == "PORT" || (blockEmail && RustTrim(k) in policy.blockedKeys)
                            || (exists i :: 0 <= i < |policy.forced| && policy.forced[i].0 == RustTrim(k))
                         then "" else RustTrim(k) + "=" + NormalizeEnvValue(v) + "\n")
  {
    OneLine(line);
    forall k, v: string | line == k + "=" + v && '=' !in k ensures SplitOnce(line) == Some((k, v)) {
      SplitOnceIs(line, k, v);
    }
    if IsBlankOrComment(line) {
      return line + "\n";
    }
    var assignment := SplitOnce(line);
    if assignment.Some? {
      var key := RustTrim(assignment.value.0);
      if Dropped(policy, blockEmail, key) {
        return "";
      }
      OneLine(Assign(key, NormalizeEnvValue(assignment.value.1)));
      return Assign(key, NormalizeEnvValue(assignment.value.1)) + "\n";
    }
    return line + "\n";
  }

  method SanitizeLoop(lines: seq<string>, policy: Policy, blockEmail: bool) returns (output: string)
    ensures output == Unlines(SanitizeAll(policy, blockEmail, lines), LF)
  {
    output := "";
    for i := 0 to |lines|
      invariant Unlines(SanitizeAll(policy, blockEmail, lines), LF)
             == output + Unlines(SanitizeAll(policy, blockEmail, lines[i..]), LF)
    {
      SanitizeAt(policy, blockEmail, lines, i);
      var text := SanitizeLine(policy, blockEmail, lines[i]);
      output := output + text;
    }
  }

  method ForcedLoop(forced: seq<(string, string)>) returns (output: string)
    ensures output == Unlines(ForcedLines(forced), LF)
  {
    output := "";
    for i := 0 to |forced|
      invariant Unlines(ForcedLines(forced), LF) == output + Unlines(ForcedLines(forced[i..]), LF)
    {
      assert forced[i..][1..] == forced[i + 1..];
      var rest := ForcedLines(forced[i + 1..]);
      if forced[i].0 != "PORT" {
        var line := Assign(forced[i].0, forced[i].1);
        assert ForcedLines(forced[i..]) == [line] + rest;
        assert ([line] + rest)[1..] == rest;
        output := output + (line + "\n");
      } else {
        assert ForcedLines(forced[i..]) == rest;
      }
    }
  }
}
