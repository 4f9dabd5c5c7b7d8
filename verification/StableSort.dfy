/** The standard library's stable sort, as an insertion sort, with what makes its result unique:
    it is sorted, and equivalent elements keep their order.
 */
module StableSort {

  ghost predicate TotalPreorder<T(!new)>(leq: (T, T) -> bool) {
    && (forall x, y :: leq(x, y) || leq(y, x))
    && (forall x, y, z :: leq(x, y) && leq(y, z) ==> leq(x, z))
  }

  /** Puts `x` behind the elements it is not smaller than. */
  function Insert<T>(leq: (T, T) -> bool, x: T, s: seq<T>): seq<T> {
    if s == [] then [x]
    else if leq(s[0], x) then [s[0]] + Insert(leq, x, s[1..])
    else [x] + s
  }

  function Sort<T>(leq: (T, T) -> bool, s: seq<T>): seq<T> {
    if s == [] then [] else Insert(leq, s[|s| - 1], Sort(leq, s[..|s| - 1]))
  }

  ghost predicate Sorted<T>(leq: (T, T) -> bool, s: seq<T>) {
    forall i, j :: 0 <= i < j < |s| ==> leq(s[i], s[j])
  }

  /** The elements of `s` that are equivalent to `x`, in their order. */
  function Class<T>(leq: (T, T) -> bool, s: seq<T>, x: T): seq<T> {
    if s == [] then []
    else (if leq(s[0], x) && leq(x, s[0]) then [s[0]] else []) + Class(leq, s[1..], x)
  }

  lemma {:induction false} InsertContents<T>(leq: (T, T) -> bool, x: T, s: seq<T>)
    ensures multiset(Insert(leq, x, s)) == multiset(s) + multiset{x}
    ensures forall y :: y in Insert(leq, x, s) ==> y in s || y == x
  {
    if s != [] && leq(s[0], x) {
      InsertContents(leq, x, s[1..]);
      assert s == [s[0]] + s[1..];
    }
  }

  lemma {:induction false} InsertSorted<T(!new)>(leq: (T, T) -> bool, x: T, s: seq<T>)
    requires TotalPreorder(leq) && Sorted(leq, s)
    ensures Sorted(leq, Insert(leq, x, s))
  {
    if s != [] && leq(s[0], x) {
      InsertSorted(leq, x, s[1..]);
      InsertContents(leq, x, s[1..]);
      assert forall y :: y in s[1..] ==> leq(s[0], y);
    } else if s != [] {
      assert leq(x, s[0]);
      assert forall k :: 0 <= k < |s| ==> leq(s[0], s[k]);
    }
  }

  lemma {:induction false} SortSorted<T(!new)>(leq: (T, T) -> bool, s: seq<T>)
    requires TotalPreorder(leq)
    ensures Sorted(leq, Sort(leq, s))
    ensures multiset(Sort(leq, s)) == multiset(s)
  {
    if s != [] {
      SortSorted(leq, s[..|s| - 1]);
      InsertSorted(leq, s[|s| - 1], Sort(leq, s[..|s| - 1]));
      InsertContents(leq, s[|s| - 1], Sort(leq, s[..|s| - 1]));
      assert s == s[..|s| - 1] + [s[|s| - 1]];
    }
  }

  lemma {:induction false} ClassAppend<T>(leq: (T, T) -> bool, a: seq<T>, b: seq<T>, x: T)
    ensures Class(leq, a + b, x) == Class(leq, a, x) + Class(leq, b, x)
  {
    if a == [] {
      assert a + b == b;
    } else {
      assert (a + b)[1..] == a[1..] + b;
      ClassAppend(leq, a[1..], b, x);
    }
  }

  lemma {:induction false} ClassPush<T>(leq: (T, T) -> bool, s: seq<T>, last: T, x: T)
    ensures Class(leq, s + [last], x) == Class(leq, s, x) + (if leq(last, x) && leq(x, last) then [last] else [])
  {
    ClassAppend(leq, s, [last], x);
    assert [last][1..] == [];
  }

  lemma {:induction false} ClassEmpty<T>(leq: (T, T) -> bool, s: seq<T>, x: T)
    requires forall k :: 0 <= k < |s| ==> !(leq(s[k], x) && leq(x, s[k]))
    ensures Class(leq, s, x) == []
  {
    if s != [] {
      ClassEmpty(leq, s[1..], x);
    }
  }

  lemma {:induction false} InsertClass<T(!new)>(leq: (T, T) -> bool, x: T, s: seq<T>, y: T)
    requires TotalPreorder(leq) && Sorted(leq, s)
    ensures Class(leq, Insert(leq, x, s), y)
         == Class(leq, s, y) + (if leq(x, y) && leq(y, x) then [x] else [])
  {
    if s != [] && leq(s[0], x) {
      InsertClass(leq, x, s[1..], y);
      assert Insert(leq, x, s)[1..] == Insert(leq, x, s[1..]);
    } else if s != [] {
      assert ([x] + s)[1..] == s;
      if leq(x, y) && leq(y, x) {
        forall k | 0 <= k < |s| ensures !(leq(s[k], y) && leq(y, s[k])) {
          assert leq(s[0], s[k]);
        }
        ClassEmpty(leq, s, y);
      }
    }
  }

  /** Sorting is stable: each class of equivalent elements comes out in its old order. */
  lemma {:induction false} SortStable<T(!new)>(leq: (T, T) -> bool, s: seq<T>, y: T)
    requires TotalPreorder(leq)
    ensures Class(leq, Sort(leq, s), y) == Class(leq, s, y)
  {
    if s != [] {
      var init, last := s[..|s| - 1], s[|s| - 1];
      SortStable(leq, init, y);
      SortSorted(leq, init);
      InsertClass(leq, last, Sort(leq, init), y);
      assert s == init + [last];
      ClassPush(leq, init, last, y);
    }
  }

  lemma {:induction false} ClassIn<T>(leq: (T, T) -> bool, s: seq<T>, y: T)
    ensures forall z :: z in Class(leq, s, y) <==> z in s && leq(z, y) && leq(y, z)
  {
    if s != [] {
      ClassIn(leq, s[1..], y);
    }
  }

  lemma {:induction false} HeadInClass<T(!new)>(leq: (T, T) -> bool, s: seq<T>)
    requires TotalPreorder(leq) && s != []
    ensures Class(leq, s, s[0]) != []
  {
    assert leq(s[0], s[0]);
  }

  /** A sorted list is determined by its classes. */
  lemma {:induction false} SortedUnique<T(!new)>(leq: (T, T) -> bool, a: seq<T>, b: seq<T>)
    requires TotalPreorder(leq) && Sorted(leq, a) && Sorted(leq, b)
    requires forall y :: Class(leq, a, y) == Class(leq, b, y)
    ensures a == b
  {
    if a == [] {
      if b != [] {
        HeadInClass(leq, b);
      }
    } else {
      var x := a[0];
      assert Class(leq, a, x) == Class(leq, b, x);
      ClassIn(leq, a, x);
      ClassIn(leq, b, x);
      assert x in b;
      var y := b[0];
      assert Class(leq, a, y) == Class(leq, b, y);
      ClassIn(leq, a, y);
      ClassIn(leq, b, y);
      assert y in a;
      assert leq(x, y) && leq(y, x);
      assert Class(leq, a, x)[0] == x && Class(leq, b, x)[0] == y;
      forall z ensures Class(leq, a[1..], z) == Class(leq, b[1..], z) {
        assert Class(leq, a, z) == Class(leq, b, z);
        var own := if leq(x, z) && leq(z, x) then [x] else [];
        assert Class(leq, a, z) == own + Class(leq, a[1..], z);
        assert Class(leq, b, z) == own + Class(leq, b[1..], z);
        assert Class(leq, a[1..], z) == Class(leq, a, z)[|own|..];
        assert Class(leq, b[1..], z) == Class(leq, b, z)[|own|..];
      }
      SortedUnique(leq, a[1..], b[1..]);
    }
  }

  lemma {:induction false} InsertAt<T>(leq: (T, T) -> bool, x: T, s: seq<T>) returns (k: nat)
    ensures k <= |s| && Insert(leq, x, s) == s[..k] + [x] + s[k..]
  {
    k := 0;
    if s != [] && leq(s[0], x) {
      k := InsertAt(leq, x, s[1..]);
      assert s[..k + 1] == [s[0]] + s[1..][..k];
      k := k + 1;
    }
  }

  /** Sorting what is sorted changes nothing, so one more element is just put in its place. */
  lemma {:induction false} SortOfSorted<T(!new)>(leq: (T, T) -> bool, s: seq<T>)
    requires TotalPreorder(leq) && Sorted(leq, s)
    ensures Sort(leq, s) == s
  {
    if s != [] {
      var init, last := s[..|s| - 1], s[|s| - 1];
      SortOfSorted(leq, init);
      InsertLargest(leq, last, init);
    }
  }

  lemma {:induction false} InsertLargest<T>(leq: (T, T) -> bool, x: T, s: seq<T>)
    requires forall k :: 0 <= k < |s| ==> leq(s[k], x)
    ensures Insert(leq, x, s) == s + [x]
  {
    if s != [] {
      InsertLargest(leq, x, s[1..]);
    }
  }

  lemma {:induction false} SortPush<T(!new)>(leq: (T, T) -> bool, s: seq<T>, x: T)
    requires TotalPreorder(leq) && Sorted(leq, s)
    ensures Sort(leq, s + [x]) == Insert(leq, x, s)
  {
    assert (s + [x])[..|s|] == s;
    SortOfSorted(leq, s);
  }
}
