/** Copying a JavaScript value with its strings cut short, for logging.  Values are primitives and
    references into a heap of arrays and plain objects, which may share and form cycles.
 */
module TruncateDeep {
  import T = Text

  type Ref = nat

  datatype Value = Null | Undefined | Bool(b: bool) | Number(n: real) | Text(s: string) | At(ref: Ref)

  datatype Kind = Array | Record(keys: seq<string>)

  /** An array has its items, a plain object a value for each of its keys. */
  datatype Obj = Obj(kind: Kind, items: seq<Value>)

  type Heap = map<Ref, Obj>

  predicate InHeap(h: Heap, v: Value) {
    v.At? ==> v.ref in h
  }

  predicate AllInHeap(h: Heap, items: seq<Value>) {
    forall i :: 0 <= i < |items| ==> InHeap(h, items[i])
  }

  ghost predicate Closed(h: Heap) {
    forall r :: r in h ==>
      AllInHeap(h, h[r].items) && (h[r].kind.Record? ==> |h[r].kind.keys| == |h[r].items|)
  }

  /** What comes out: a tree of its own. */
  datatype Tree = Leaf(value: Value) | Node(kind: Kind, items: seq<Tree>)

  const DEPTH_REMARK: Value := Text("[max depth reached]")
  const CIRCULAR_REMARK: Value := Text("[Circular Reference]")
  const DEPTH_REACHED: Tree := Leaf(DEPTH_REMARK)
  const CIRCULAR: Tree := Leaf(CIRCULAR_REMARK)

  function Remark(cut: nat): string {
    "...[truncated " + T.Decimal(cut) + " chars]"
  }

  function Shorten(v: Value, maxLength: nat): Value {
    if v.Text? && |v.s| > maxLength then Text(v.s[..maxLength] + Remark(|v.s| - maxLength)) else v
  }

  /** The copy, and the objects met so far.  `room` is the number of levels left. */
  ghost function Truncate(h: Heap, v: Value, maxLength: nat, room: int, seen: set<Ref>): (Tree, set<Ref>)
    requires Closed(h) && InHeap(h, v)
    decreases room, 0
  {
    if room <= 0 then (DEPTH_REACHED, seen)
    else if !v.At? then (Leaf(Shorten(v, maxLength)), seen)
    else if v.ref in seen then (CIRCULAR, seen)
    else
      var (items, seen') := TruncateAll(h, h[v.ref].items, maxLength, room - 1, seen + {v.ref});
      (Node(h[v.ref].kind, items), seen')
  }

  ghost function TruncateAll(h: Heap, items: seq<Value>, maxLength: nat, room: int,
        seen: set<Ref>): (r: (seq<Tree>, set<Ref>))
    requires Closed(h) && AllInHeap(h, items)
    ensures |r.0| == |items|
    decreases room, |items|
  {
    if items == [] then ([], seen)
    else
      var (first, seen') := Truncate(h, items[0], maxLength, room, seen);
      var (rest, seen'') := TruncateAll(h, items[1..], maxLength, room, seen');
      ([first] + rest, seen'')
  }

  /** Where the depth is used up, and where an object was met before. */
  lemma {:induction false} Remarks(h: Heap, v: Value, maxLength: nat, room: int, seen: set<Ref>)
    requires Closed(h) && InHeap(h, v)
    ensures room <= 0 ==> Truncate(h, v, maxLength, room, seen) == (Leaf(Text("[max depth reached]")), seen)
    ensures room > 0 && v.At? && v.ref in seen ==>
              Truncate(h, v, maxLength, room, seen) == (Leaf(Text("[Circular Reference]")), seen)
    ensures room > 0 && !v.At? ==> Truncate(h, v, maxLength, room, seen) == (Leaf(Shorten(v, maxLength)), seen)
  {
  }

  // ---- Each object is expanded once ----

  function Nodes(t: Tree): nat {
    match t
    case Leaf(_) => 0
    case Node(_, items) => 1 + NodesAll(items)
  }

  function NodesAll(items: seq<Tree>): nat {
    if items == [] then 0 else Nodes(items[0]) + NodesAll(items[1..])
  }

  /** The copy has one node for each object met on the way, so none is expanded twice. */
  lemma {:induction false} OneNodePerObject(h: Heap, v: Value, maxLength: nat, room: int, seen: set<Ref>)
    requires Closed(h) && InHeap(h, v)
    ensures var (t, seen') := Truncate(h, v, maxLength, room, seen);
            seen <= seen' <= seen + h.Keys && Nodes(t) == |seen'| - |seen|
    decreases room, 0
  {
    if room > 0 && v.At? && v.ref !in seen {
      OneNodePerObjectAll(h, h[v.ref].items, maxLength, room - 1, seen + {v.ref});
    }
  }

  lemma {:induction false} OneNodePerObjectAll(h: Heap, items: seq<Value>, maxLength: nat, room: int, seen: set<Ref>)
    requires Closed(h) && AllInHeap(h, items)
    ensures var (ts, seen') := TruncateAll(h, items, maxLength, room, seen);
            seen <= seen' <= seen + h.Keys && NodesAll(ts) == |seen'| - |seen|
    decreases room, |items|
  {
    if items != [] {
      var (first, seen') := Truncate(h, items[0], maxLength, room, seen);
      OneNodePerObject(h, items[0], maxLength, room, seen);
      OneNodePerObjectAll(h, items[1..], maxLength, room, seen');
      var rest := TruncateAll(h, items[1..], maxLength, room, seen').0;
      assert ([first] + rest)[1..] == rest;
    }
  }

  // ---- Depth and strings are bounded ----

  ghost predicate TextOk(v: Value, maxLength: nat) {
    v.Text? ==>
      || |v.s| <= maxLength
      || v == DEPTH_REMARK || v == CIRCULAR_REMARK
      || EndsWithRemark(v.s, maxLength)
  }

  ghost predicate EndsWithRemark(s: string, maxLength: nat) {
    |s| > maxLength && exists cut: nat :: cut > 0 && s[maxLength..] == Remark(cut)
  }

  /** No path is longer than `room`, and every string is short, cut short or a remark. */
  ghost predicate Bounded(t: Tree, maxLength: nat, room: int) {
    match t
    case Leaf(v) => !v.At? && TextOk(v, maxLength)
    case Node(_, items) => room > 0 && forall i :: 0 <= i < |items| ==> Bounded(items[i], maxLength, room - 1)
  }

  ghost predicate AllBounded(ts: seq<Tree>, maxLength: nat, room: int) {
    forall i :: 0 <= i < |ts| ==> Bounded(ts[i], maxLength, room)
  }

  lemma {:induction false} ShortenedIsOk(v: Value, maxLength: nat)
    ensures TextOk(Shorten(v, maxLength), maxLength)
    ensures v.Text? && |v.s| > maxLength ==>
              exists digits :: Shorten(v, maxLength) == Text(v.s[..maxLength] + "...[truncated " + digits + " chars]")
                               && T.ReadDecimal(digits) == |v.s| - maxLength
    ensures !v.Text? || |v.s| <= maxLength ==> Shorten(v, maxLength) == v
  {
    if v.Text? && |v.s| > maxLength {
      var digits := T.Decimal(|v.s| - maxLength);
      T.DecimalReads(|v.s| - maxLength);
      assert v.s[..maxLength] + Remark(|v.s| - maxLength) == v.s[..maxLength] + "...[truncated " + digits + " chars]";
      assert Shorten(v, maxLength) == Text(v.s[..maxLength] + "...[truncated " + digits + " chars]");
    }
    if v.Text? && |v.s| > maxLength {
      var cut := |v.s| - maxLength;
      var s := v.s[..maxLength] + Remark(cut);
      assert s[maxLength..] == Remark(cut);
      assert EndsWithRemark(s, maxLength);
    }
  }

  lemma {:induction false} CopyIsBounded(h: Heap, v: Value, maxLength: nat, room: int, seen: set<Ref>)
    requires Closed(h) && InHeap(h, v)
    ensures Bounded(Truncate(h, v, maxLength, room, seen).0, maxLength, room)
    decreases room, 0
  {
    assert TextOk(DEPTH_REMARK, maxLength) && TextOk(CIRCULAR_REMARK, maxLength);
    if room <= 0 {
    } else if !v.At? {
      ShortenedIsOk(v, maxLength);
    } else if v.ref !in seen {
      CopiesAreBounded(h, h[v.ref].items, maxLength, room - 1, seen + {v.ref});
    }
  }

  lemma {:induction false} CopiesAreBounded(h: Heap, items: seq<Value>, maxLength: nat, room: int, seen: set<Ref>)
    requires Closed(h) && AllInHeap(h, items)
    ensures AllBounded(TruncateAll(h, items, maxLength, room, seen).0, maxLength, room)
    decreases room, |items|
  {
    if items != [] {
      var (first, seen') := Truncate(h, items[0], maxLength, room, seen);
      var rest := TruncateAll(h, items[1..], maxLength, room, seen').0;
      CopyIsBounded(h, items[0], maxLength, room, seen);
      CopiesAreBounded(h, items[1..], maxLength, room, seen');
      assert forall i :: 0 < i < |items| ==> ([first] + rest)[i] == rest[i - 1];
    }
  }

  // ---- When the copy is the one that was promised ----

  /** The copy that the caller expects: it knows nothing of what was met before. */
  ghost function Copy(h: Heap, v: Value, maxLength: nat, room: int): Tree
    requires Closed(h) && InHeap(h, v)
    decreases room, 0
  {
    if room <= 0 then DEPTH_REACHED
    else if !v.At? then Leaf(Shorten(v, maxLength))
    else Node(h[v.ref].kind, CopyAll(h, h[v.ref].items, maxLength, room - 1))
  }

  ghost function CopyAll(h: Heap, items: seq<Value>, maxLength: nat, room: int): (ts: seq<Tree>)
    requires Closed(h) && AllInHeap(h, items)
    ensures |ts| == |items|
    decreases room, |items|
  {
    if items == [] then []
    else [Copy(h, items[0], maxLength, room)] + CopyAll(h, items[1..], maxLength, room)
  }

  /** The objects that copy is made of, each as often as it occurs there. */
  ghost function Occurrences(h: Heap, v: Value, room: int): multiset<Ref>
    requires Closed(h) && InHeap(h, v)
    decreases room, 0
  {
    if room <= 0 || !v.At? then multiset{}
    else multiset{v.ref} + OccurrencesAll(h, h[v.ref].items, room - 1)
  }

  ghost function OccurrencesAll(h: Heap, items: seq<Value>, room: int): multiset<Ref>
    requires Closed(h) && AllInHeap(h, items)
    decreases room, |items|
  {
    if items == [] then multiset{}
    else Occurrences(h, items[0], room) + OccurrencesAll(h, items[1..], room)
  }

  /** No object occurs twice, and none was met before. */
  ghost predicate Unshared(m: multiset<Ref>, seen: set<Ref>) {
    forall r :: r in m ==> m[r] == 1 && r !in seen
  }

  ghost predicate Extends(seen: set<Ref>, m: multiset<Ref>, seen': set<Ref>) {
    forall r :: r in seen' <==> r in seen || r in m
  }

  lemma {:induction false} UnsharedSplits(a: multiset<Ref>, b: multiset<Ref>, seen: set<Ref>, seen': set<Ref>)
    requires Unshared(a, seen) ==> Extends(seen, a, seen')
    ensures Unshared(a + b, seen) <==> Unshared(a, seen) && Unshared(b, seen')
  {
    if Unshared(a + b, seen) {
      forall r | r in a ensures a[r] == 1 && r !in seen {
        assert r in a + b;
      }
      forall r | r in b ensures b[r] == 1 && r !in seen' {
        assert r in a + b;
      }
    }
    if Unshared(a, seen) && Unshared(b, seen') {
      forall r | r in a + b ensures (a + b)[r] == 1 && r !in seen {
      }
    }
  }

  /** The copy is the one expected exactly when no object occurs in it twice: a second occurrence
      is called circular even where there is no cycle. */
  lemma {:induction false} ExpectedIffUnshared(h: Heap, v: Value, maxLength: nat, room: int, seen: set<Ref>)
    requires Closed(h) && InHeap(h, v)
    ensures var (t, seen') := Truncate(h, v, maxLength, room, seen);
            && (t == Copy(h, v, maxLength, room) <==> Unshared(Occurrences(h, v, room), seen))
            && (Unshared(Occurrences(h, v, room), seen) ==> Extends(seen, Occurrences(h, v, room), seen'))
    decreases room, 0
  {
    if room > 0 && v.At? {
      var one := multiset{v.ref};
      var rest := OccurrencesAll(h, h[v.ref].items, room - 1);
      assert Occurrences(h, v, room) == one + rest;
      if v.ref in seen {
        assert v.ref in one + rest;
      } else {
        UnsharedSplits(one, rest, seen, seen + {v.ref});
        ExpectedIffUnsharedAll(h, h[v.ref].items, maxLength, room - 1, seen + {v.ref});
      }
    }
  }

  lemma {:induction false} ExpectedIffUnsharedAll(h: Heap, items: seq<Value>, maxLength: nat, room: int, seen: set<Ref>)
    requires Closed(h) && AllInHeap(h, items)
    ensures var (ts, seen') := TruncateAll(h, items, maxLength, room, seen);
            && (ts == CopyAll(h, items, maxLength, room) <==> Unshared(OccurrencesAll(h, items, room), seen))
            && (Unshared(OccurrencesAll(h, items, room), seen) ==> Extends(seen, OccurrencesAll(h, items, room), seen'))
    decreases room, |items|
  {
    if items != [] {
      var (first, seen') := Truncate(h, items[0], maxLength, room, seen);
      var rest := TruncateAll(h, items[1..], maxLength, room, seen').0;
      var copies := CopyAll(h, items[1..], maxLength, room);
      ExpectedIffUnshared(h, items[0], maxLength, room, seen);
      ExpectedIffUnsharedAll(h, items[1..], maxLength, room, seen');
      UnsharedSplits(Occurrences(h, items[0], room), OccurrencesAll(h, items[1..], room), seen, seen');
      ConsEqual(first, rest, Copy(h, items[0], maxLength, room), copies);
    }
  }

  lemma {:induction false} ConsEqual(a: Tree, s: seq<Tree>, b: Tree, t: seq<Tree>)
    ensures [a] + s == [b] + t <==> a == b && s == t
  {
    assert ([a] + s)[1..] == s && ([b] + t)[1..] == t;
    assert ([a] + s)[0] == a && ([b] + t)[0] == b;
  }

  // ---- Copying without a change ----

  /** The value fits: it ends within `room` levels, and its strings are short. */
  ghost predicate Fits(h: Heap, v: Value, maxLength: nat, room: int)
    requires Closed(h) && InHeap(h, v)
    decreases room
  {
    && room > 0
    && (v.Text? ==> |v.s| <= maxLength)
    && (v.At? ==> forall i :: 0 <= i < |h[v.ref].items| ==> Fits(h, h[v.ref].items[i], maxLength, room - 1))
  }

  /** The tree is the value, read from the heap. */
  ghost predicate Mirrors(h: Heap, v: Value, t: Tree)
    requires Closed(h) && InHeap(h, v)
    decreases t
  {
    if !v.At? then t == Leaf(v)
    else
      && t.Node? && t.kind == h[v.ref].kind && |t.items| == |h[v.ref].items|
      && forall i :: 0 <= i < |t.items| ==> Mirrors(h, h[v.ref].items[i], t.items[i])
  }

  lemma {:induction false} CopyAllAt(h: Heap, items: seq<Value>, maxLength: nat, room: int, i: nat)
    requires Closed(h) && AllInHeap(h, items) && i < |items|
    ensures CopyAll(h, items, maxLength, room)[i] == Copy(h, items[i], maxLength, room)
    decreases |items|
  {
    if i > 0 {
      CopyAllAt(h, items[1..], maxLength, room, i - 1);
    }
  }

  lemma {:induction false} FittingCopyMirrors(h: Heap, v: Value, maxLength: nat, room: int)
    requires Closed(h) && InHeap(h, v) && Fits(h, v, maxLength, room)
    ensures Mirrors(h, v, Copy(h, v, maxLength, room))
    decreases room
  {
    if v.At? {
      var items := h[v.ref].items;
      forall i | 0 <= i < |items|
        ensures Mirrors(h, items[i], CopyAll(h, items, maxLength, room - 1)[i])
      {
        CopyAllAt(h, items, maxLength, room - 1, i);
        FittingCopyMirrors(h, items[i], maxLength, room - 1);
      }
    }
  }

  /** A shallow value with short strings and nothing shared comes out unchanged. */
  lemma {:induction false} UnsharedFittingIsUnchanged(h: Heap, v: Value, maxLength: nat, room: int)
    requires Closed(h) && InHeap(h, v) && Fits(h, v, maxLength, room)
    requires Unshared(Occurrences(h, v, room), {})
    ensures Mirrors(h, v, Truncate(h, v, maxLength, room, {}).0)
  {
    ExpectedIffUnshared(h, v, maxLength, room, {});
    FittingCopyMirrors(h, v, maxLength, room);
  }

  /** `[x, x]` is no cycle, but its second item is reported as one. */
  lemma {:induction false} SharedIsCalledCircular(maxLength: nat, room: int)
    requires room > 2
    ensures var h: Heap := map[0 := Obj(Array, [At(1), At(1)]), 1 := Obj(Array, [])];
            && Closed(h) && Fits(h, At(0), maxLength, room)
            && Truncate(h, At(0), maxLength, room, {}).0
               == Node(Array, [Node(Array, []), Leaf(Text("[Circular Reference]"))])
  {
    var h: Heap := map[0 := Obj(Array, [At(1), At(1)]), 1 := Obj(Array, [])];
    var items := [At(1), At(1)];
    assert items[1..] == [At(1)] && [At(1)][1..] == [];
    assert Truncate(h, At(1), maxLength, room - 1, {0, 1}) == (CIRCULAR, {0, 1});
    assert TruncateAll(h, [], maxLength, room - 1, {0, 1}).0 == [];
    assert TruncateAll(h, [At(1)], maxLength, room - 1, {0, 1}).0 == [CIRCULAR];
    assert {0} + {1} == {0, 1};
    assert Truncate(h, At(1), maxLength, room - 1, {0}) == (Node(Array, []), {0, 1});
    assert TruncateAll(h, items, maxLength, room - 1, {0}).0 == [Node(Array, []), CIRCULAR];
    assert {} + {0} == {0};
  }

  // ---- The program ----

  class Truncator {
    const heap: Heap
    const maxLength: nat
    const maxDepth: int
    var seen: set<Ref>

    constructor (heap: Heap, maxLength: nat, maxDepth: int)
      ensures this.heap == heap && this.maxLength == maxLength && this.maxDepth == maxDepth && seen == {}
    {
      this.heap, this.maxLength, this.maxDepth, seen := heap, maxLength, maxDepth, {};
    }

    method TruncateDeep(value: Value, currentDepth: int) returns (result: Tree)
      requires Closed(heap) && InHeap(heap, value)
      modifies this
      ensures (result, seen) == Truncate(heap, value, maxLength, maxDepth - currentDepth, old(seen))
      decreases maxDepth - currentDepth, 0
    {
      if currentDepth >= maxDepth {
        return DEPTH_REACHED;
      }
      if value.Text? && |value.s| > maxLength {
        return Leaf(Text(value.s[..maxLength] + Remark(|value.s| - maxLength)));
      }
      if !value.At? {
        return Leaf(value);
      }
      if value.ref in seen {
        return CIRCULAR;
      }
      seen := seen + {value.ref};
      var copies := TruncateItems(heap[value.ref].items, currentDepth + 1);
      return Node(heap[value.ref].kind, copies);
    }

    /** The loop over the items of an array, or over the keys of an object. */
    method TruncateItems(items: seq<Value>, currentDepth: int) returns (copies: seq<Tree>)
      requires Closed(heap) && AllInHeap(heap, items)
      modifies this
      ensures (copies, seen) == TruncateAll(heap, items, maxLength, maxDepth - currentDepth, old(seen))
      decreases maxDepth - currentDepth, 1
    {
      ghost var room := maxDepth - currentDepth;
      ghost var all := TruncateAll(heap, items, maxLength, room, seen);
      copies := [];
      var i := 0;
      assert items[0..] == items && [] + all.0 == all.0;
      while i < |items|
        invariant 0 <= i <= |items|
        invariant var rest := TruncateAll(heap, items[i..], maxLength, room, seen);
                  all == (copies + rest.0, rest.1)
      {
        assert items[i..][1..] == items[i + 1..] && items[i..][0] == items[i];
        ghost var copied := copies;
        var copy := TruncateDeep(items[i], currentDepth);
        copies := copies + [copy];
        ghost var rest := TruncateAll(heap, items[i + 1..], maxLength, room, seen).0;
        assert copied + ([copy] + rest) == copies + rest;
        i := i + 1;
      }
      assert items[i..] == [] && copies + [] == copies;
    }
  }
}
