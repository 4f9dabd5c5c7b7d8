/** The deployer's log tail: a file is read backwards in chunks until enough newlines have
    been seen, and the lines of what was read are cut down to the last `maxLines`.
 */
module LogTail {
  import opened Text

  type byte = b: int | 0 <= b < 256

  const NEWLINE: byte := 10
  const CARRIAGE_RETURN: byte := 13
  const TAIL_READ_CHUNK_BYTES: nat := 8192

  datatype Tail = Unreadable | Tail(lines: seq<seq<byte>>)

  function FileLines(content: seq<byte>): seq<seq<byte>> {
    Lines(content, NEWLINE, CARRIAGE_RETURN)
  }

  /** The last `n` elements, or all of them when there are fewer. */
  function Last<T>(s: seq<T>, n: nat): seq<T> {
    if |s| <= n then s else s[|s| - n..]
  }

  function Concat(chunks: seq<seq<byte>>): seq<byte> {
    if chunks == [] then [] else chunks[0] + Concat(chunks[1..])
  }

  function Reverse<T>(s: seq<T>): (r: seq<T>)
    ensures |r| == |s|
  {
    if s == [] then [] else Reverse(s[1..]) + [s[0]]
  }

  lemma {:induction false} ConcatAppend(a: seq<seq<byte>>, b: seq<seq<byte>>)
    ensures Concat(a + b) == Concat(a) + Concat(b)
  {
    if a == [] {
      assert a + b == b;
    } else {
      assert (a + b)[1..] == a[1..] + b;
      ConcatAppend(a[1..], b);
    }
  }

  lemma {:induction false} ReversePush<T>(s: seq<T>, x: T)
    ensures Reverse(s + [x]) == [x] + Reverse(s)
  {
    if s != [] {
      assert (s + [x])[1..] == s[1..] + [x];
      ReversePush(s[1..], x);
    }
  }

  /** As many elements as are asked for, or all, and those at the end. */
  lemma {:induction false} LastIs<T>(s: seq<T>, n: nat)
    ensures |Last(s, n)| == (if |s| < n then |s| else n) && Last(s, n) == s[|s| - |Last(s, n)|..]
  {
  }

  lemma {:induction false} LastOfTail<T>(a: seq<T>, b: seq<T>, n: nat)
    requires |b| >= n
    ensures Last(a + b, n) == Last(b, n)
  {
    assert |b| == n ==> Last(b, n) == b[|b| - n..];
    assert (a + b)[|a| + |b| - n..] == b[|b| - n..];
  }

  /** Cutting a file after any line break that leaves at least `n` newlines behind it does not
      change its last `n` lines. */
  lemma {:induction false} TailIsLocal(head: seq<byte>, rest: seq<byte>, n: nat)
    requires head != [] && head[|head| - 1] == NEWLINE
    requires Count(rest, NEWLINE) >= n
    ensures Last(FileLines(head + rest), n) == Last(FileLines(rest), n)
  {
    LinesCut(head, rest, NEWLINE, CARRIAGE_RETURN);
    LinesAtLeastNewlines(rest, NEWLINE, CARRIAGE_RETURN);
    LastOfTail(FileLines(head), FileLines(rest), n);
  }

  /** Dropping the cut-off first line of what was read costs exactly one newline. */
  lemma {:induction false} DropPartialLine(content: seq<byte>, position: nat, n: nat)
    requires position <= |content|
    requires Count(content[position..], NEWLINE) > n
    ensures FirstIndex(content[position..], NEWLINE) < |content[position..]|
    ensures Last(FileLines(content[position..][FirstIndex(content[position..], NEWLINE) + 1..]), n)
         == Last(FileLines(content), n)
  {
    var buffer := content[position..];
    CountAfterFirst(buffer, NEWLINE);
    var index := FirstIndex(buffer, NEWLINE);
    var rest := buffer[index + 1..];
    var head := content[..position + index + 1];
    assert head[|head| - 1] == NEWLINE;
    assert content == head + rest;
    TailIsLocal(head, rest, n);
  }

  /** The reading loop: it stops at the start of the file or once more than `maxLines` newlines
      have been read.  The chunks come out last one first. */
  method ReadBackwards(bytes: seq<byte>, maxLines: nat, chunkBytes: nat)
    returns (position: nat, chunks: seq<seq<byte>>)
    requires chunkBytes > 0
    ensures position <= |bytes|
    ensures Concat(Reverse(chunks)) == bytes[position..]
    ensures position > 0 ==> Count(bytes[position..], NEWLINE) > maxLines
  {
    position := |bytes|;
    chunks := [];
    var newlineCount := 0;
    while position > 0 && newlineCount <= maxLines
      invariant position <= |bytes|
      invariant newlineCount == Count(bytes[position..], NEWLINE)
      invariant Concat(Reverse(chunks)) == bytes[position..]
    {
      var readLen := if chunkBytes < position then chunkBytes else position;
      ghost var seen := bytes[position..];
      position := position - readLen;
      var chunk := bytes[position..position + readLen];
      assert bytes[position..] == chunk + seen;
      CountAppend(chunk, seen, NEWLINE);
      ReversePush(chunks, chunk);
      newlineCount := newlineCount + Count(chunk, NEWLINE);
      chunks := chunks + [chunk];
    }
  }

  method Assemble(chunks: seq<seq<byte>>) returns (buffer: seq<byte>)
    ensures buffer == Concat(chunks)
  {
    buffer := [];
    for i := 0 to |chunks|
      invariant buffer == Concat(chunks[..i])
    {
      assert chunks[..i + 1] == chunks[..i] + [chunks[i]];
      ConcatAppend(chunks[..i], [chunks[i]]);
      buffer := buffer + chunks[i];
    }
    assert chunks[..|chunks|] == chunks;
  }

  /** For every file, every number of lines and every chunk size, the backwards reader returns
      exactly the last lines of the whole file.  `file == None` stands for a file that cannot be
      opened; asking for no lines at all succeeds before the file is touched. */
  method ReadTailLines(file: Option<seq<byte>>, maxLines: nat, chunkBytes: nat) returns (r: Tail)
    requires chunkBytes > 0
    ensures r == if maxLines == 0 then Tail([])
                 else if file.None? then Unreadable
                 else Tail(Last(FileLines(file.value), maxLines))
  {
    if maxLines == 0 {
      return Tail([]);
    }
    if file.None? {
      return Unreadable;
    }
    var bytes := file.value;
    if |bytes| == 0 {
      return Tail([]);
    }

    var position, chunks := ReadBackwards(bytes, maxLines, chunkBytes);
    var content := Assemble(Reverse(chunks));
    assert content == bytes[position..];
    if position > 0 {
      DropPartialLine(bytes, position, maxLines);
      var index := FirstIndex(content, NEWLINE);
      if index < |content| {
        content := content[index + 1..];
      } else {
        // The loop stopped before the start of the file, so it saw a newline.
        assert false;
        content := [];
      }
    }

    assert Last(FileLines(content), maxLines) == Last(FileLines(bytes), maxLines);
    var lines := FileLines(content);
    var start := if |lines| < maxLines then 0 else |lines| - maxLines;
    return Tail(lines[start..]);
  }
}
