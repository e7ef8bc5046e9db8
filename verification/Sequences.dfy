/** Facts about finite sequences and sets that several oracles rely on. */
module Sequences {

  ghost predicate Distinct<T>(s: seq<T>) {
    forall i, j :: 0 <= i < j < |s| ==> s[i] != s[j]
  }

  function ToSet<T(==)>(s: seq<T>): set<T> {
    set x | x in s
  }

  lemma ToSetAppend<T>(s: seq<T>, x: T)
    ensures ToSet(s + [x]) == ToSet(s) + {x}
    ensures Distinct(s + [x]) <==> Distinct(s) && x !in s
  {
    var t := s + [x];
    assert t[|s|] == x;
    assert forall i :: 0 <= i < |s| ==> t[i] == s[i];
  }

  lemma DistinctConcat<T>(a: seq<T>, b: seq<T>)
    requires Distinct(a) && Distinct(b) && forall x :: x in a ==> x !in b
    ensures Distinct(a + b)
  {
    var s := a + b;
    forall i, j | 0 <= i < j < |s| ensures s[i] != s[j] {
      if i < |a| <= j {
        assert a[i] in a && b[j - |a|] in b;
      }
    }
  }

  lemma DistinctParts<T>(a: seq<T>, b: seq<T>)
    requires Distinct(a + b)
    ensures Distinct(a) && Distinct(b)
  {
    var s := a + b;
    assert forall i :: 0 <= i < |a| ==> s[i] == a[i];
    forall i, j | 0 <= i < j < |b| ensures b[i] != b[j] {
      assert s[|a| + i] == b[i] && s[|a| + j] == b[j];
    }
  }

  /** The elements 0, 1, ..., n-1 as a set. */
  function Below(n: nat): (r: set<nat>)
    ensures forall x: nat :: x in r <==> x < n
    ensures |r| == n
  {
    if n == 0 then {} else Below(n - 1) + {n - 1}
  }

  /** A sequence has as many elements as its set exactly when nothing repeats. */
  lemma {:induction false} SetSize<T>(s: seq<T>)
    ensures |ToSet(s)| <= |s|
    ensures |ToSet(s)| == |s| <==> Distinct(s)
  {
    if s == [] {
      assert ToSet(s) == {};
    } else {
      var front, last := s[..|s| - 1], s[|s| - 1];
      SetSize(front);
      assert s == front + [last];
      assert ToSet(s) == ToSet(front) + {last};
      if last in front {
        assert ToSet(s) == ToSet(front);
        var i :| 0 <= i < |front| && front[i] == last;
        assert s[i] == s[|s| - 1];
      } else {
        assert forall i :: 0 <= i < |front| ==> s[i] == front[i];
      }
    }
  }

  lemma Element<T>(s: set<T>) returns (x: T)
    requires s != {}
    ensures x in s
  {
    x :| x in s;
  }

  lemma SubsetSize<T>(a: set<T>, b: set<T>)
    requires a <= b
    ensures |a| <= |b|
    ensures |a| == |b| ==> a == b
  {
    assert b == a + (b - a);
  }

  // ---------- sorting ----------

  ghost predicate Sorted(s: seq<int>) {
    forall i, j :: 0 <= i < j < |s| ==> s[i] <= s[j]
  }

  ghost predicate Increasing(s: seq<int>) {
    forall i, j :: 0 <= i < j < |s| ==> s[i] < s[j]
  }

  function Insert(x: int, s: seq<int>): (r: seq<int>)
    ensures multiset(r) == multiset(s) + multiset{x}
  {
    if s == [] then [x]
    else if x <= s[0] then [x] + s
    else
      assert s == [s[0]] + s[1..];
      [s[0]] + Insert(x, s[1..])
  }

  lemma SortedCons(x: int, s: seq<int>)
    requires Sorted(s) && (s != [] ==> x <= s[0])
    ensures Sorted([x] + s)
  {
    var t := [x] + s;
    forall i, j | 0 <= i < j < |t| ensures t[i] <= t[j] {
      if i > 0 {
        assert s[i - 1] <= s[j - 1];
      } else if j > 1 {
        assert s[0] <= s[j - 1];
      }
    }
  }

  lemma {:induction false} InsertSorted(x: int, s: seq<int>)
    requires Sorted(s)
    ensures Sorted(Insert(x, s))
    ensures Insert(x, s) != [] && (Insert(x, s)[0] == x || (s != [] && Insert(x, s)[0] == s[0]))
  {
    if s == [] {
    } else if x <= s[0] {
      SortedCons(x, s);
    } else {
      InsertSorted(x, s[1..]);
      SortedCons(s[0], Insert(x, s[1..]));
    }
  }

  /** `[...values].sort((left, right) => left - right)`. */
  function Sort(s: seq<int>): (r: seq<int>)
    ensures Sorted(r) && multiset(r) == multiset(s)
  {
    if s == [] then []
    else
      assert s == [s[0]] + s[1..];
      InsertSorted(s[0], Sort(s[1..]));
      Insert(s[0], Sort(s[1..]))
  }

  lemma SameElements<T>(a: seq<T>, b: seq<T>)
    requires multiset(a) == multiset(b)
    ensures |a| == |b|
    ensures ToSet(a) == ToSet(b)
    ensures Distinct(a) <==> Distinct(b)
  {
    assert |a| == |multiset(a)| == |multiset(b)| == |b|;
    forall x ensures x in a <==> x in b {
      assert x in a <==> x in multiset(a);
    }
    assert ToSet(a) == ToSet(b);
    SetSize(a);
    SetSize(b);
  }

  lemma MultisetTail<T>(s: seq<T>)
    requires s != []
    ensures multiset(s[1..]) == multiset(s) - multiset{s[0]}
  {
    assert s == [s[0]] + s[1..];
  }

  /** Taking the same element out of two rearrangements leaves rearrangements. */
  lemma MultisetRemove<T>(front: seq<T>, x: T, left: seq<T>, right: seq<T>)
    requires multiset(front + [x]) == multiset(left + [x] + right)
    ensures multiset(front) == multiset(left + right)
  {
    assert multiset(front + [x]) == multiset(front) + multiset{x};
    assert multiset(left + [x] + right) == multiset(left) + multiset{x} + multiset(right);
    assert multiset(left + right) == multiset(left) + multiset(right);
    assert multiset(front) == multiset(front) + multiset{x} - multiset{x};
  }

  /** An element of the second rearrangement's split that matches the end of the first. */
  lemma FindSplit<T>(a: seq<T>, b: seq<T>) returns (left: seq<T>, right: seq<T>)
    requires multiset(a) == multiset(b) && a != []
    ensures b == left + [a[|a| - 1]] + right
    ensures multiset(a[..|a| - 1]) == multiset(left + right)
  {
    var x := a[|a| - 1];
    assert x in multiset(b);
    var i :| 0 <= i < |b| && b[i] == x;
    left, right := b[..i], b[i + 1..];
    assert a == a[..|a| - 1] + [x];
    assert b == left + [x] + right;
    MultisetRemove(a[..|a| - 1], x, left, right);
  }

  lemma SortedHead(a: seq<int>, b: seq<int>)
    requires Sorted(a) && multiset(a) == multiset(b) && a != [] && b != []
    ensures a[0] <= b[0]
  {
    assert b[0] in multiset(a);
    var i :| 0 <= i < |a| && a[i] == b[0];
  }

  /** Two sorted sequences with the same elements are the same sequence. */
  lemma {:induction false} SortedUnique(a: seq<int>, b: seq<int>)
    requires Sorted(a) && Sorted(b) && multiset(a) == multiset(b)
    ensures a == b
  {
    SameElements(a, b);
    if a != [] {
      SortedHead(a, b);
      SortedHead(b, a);
      MultisetTail(a);
      MultisetTail(b);
      SortedUnique(a[1..], b[1..]);
    }
  }

  /** A strictly increasing list is determined by the set of its elements. */
  lemma {:induction false} IncreasingUnique(a: seq<int>, b: seq<int>)
    requires Increasing(a) && Increasing(b) && ToSet(a) == ToSet(b)
    ensures a == b
  {
    SetSize(a);
    SetSize(b);
    if a != [] {
      var x, y := a[0], b[0];
      assert x in ToSet(b) && y in ToSet(a);
      assert x == y;
      assert ToSet(a[1..]) == ToSet(a) - {x};
      assert ToSet(b[1..]) == ToSet(b) - {y};
      IncreasingUnique(a[1..], b[1..]);
    } else {
      assert b == [];
    }
  }

  // ---------- rearrangements of 0, ..., n - 1 ----------

  function Range(n: nat): (r: seq<int>)
    ensures |r| == n && forall i :: 0 <= i < n ==> r[i] == i
  {
    seq(n, i => i)
  }

  lemma {:induction false} DistinctMultiset<T>(s: seq<T>, x: T)
    requires Distinct(s)
    ensures multiset(s)[x] == if x in s then 1 else 0
  {
    if s != [] {
      var front, last := s[..|s| - 1], s[|s| - 1];
      assert s == front + [last];
      ToSetAppend(front, last);
      DistinctMultiset(front, x);
    }
  }

  lemma OnlyInRange(recovered: seq<int>, expected: nat)
    requires Distinct(recovered) && |recovered| == expected && forall x :: 0 <= x < expected ==> x in recovered
    ensures forall x :: x in recovered <==> 0 <= x < expected
  {
    SetSize(recovered);
    var below := ToSet(Range(expected));
    SetSize(Range(expected));
    assert forall x :: 0 <= x < expected ==> Range(expected)[x] == x;
    SubsetSize(below, ToSet(recovered));
    assert forall x :: x in recovered <==> x in ToSet(recovered);
  }

  lemma NothingMissing(operations: nat, recovered: seq<int>)
    requires Distinct(recovered)
    requires forall x :: x in recovered <==> 0 <= x < operations
    ensures |recovered| == operations
  {
    SetSize(recovered);
    SetSize(Range(operations));
    forall x | 0 <= x < operations ensures x in ToSet(Range(operations)) {
      assert Range(operations)[x] == x;
    }
    assert ToSet(recovered) == ToSet(Range(operations));
  }

  lemma {:induction false} DistinctIffCounts<T>(s: seq<T>)
    ensures Distinct(s) <==> forall x :: multiset(s)[x] <= 1
  {
    if s != [] {
      var front, last := s[..|s| - 1], s[|s| - 1];
      assert s == front + [last];
      ToSetAppend(front, last);
      DistinctIffCounts(front);
      assert forall x :: multiset(s)[x] == multiset(front)[x] + (if x == last then 1 else 0);
      assert last in front <==> multiset(front)[last] > 0;
    }
  }

  /** A rearrangement of 0, ..., n - 1: nothing twice, the right number, nothing missing. */
  lemma PermutationIff(recovered: seq<int>, expected: nat)
    ensures multiset(recovered) == multiset(Range(expected)) <==>
              && Distinct(recovered) && |recovered| == expected
              && forall x :: 0 <= x < expected ==> x in recovered
  {
    var range := Range(expected);
    assert Distinct(range);
    assert forall x :: x in range <==> 0 <= x < expected by {
      forall x | 0 <= x < expected ensures x in range { assert range[x] == x; }
    }
    if multiset(recovered) == multiset(range) {
      SameElements(recovered, range);
      forall x | 0 <= x < expected ensures x in recovered {
        assert x in ToSet(range);
        assert x in ToSet(recovered);
      }
    }
    if Distinct(recovered) && |recovered| == expected && forall x :: 0 <= x < expected ==> x in recovered {
      OnlyInRange(recovered, expected);
      forall x ensures multiset(recovered)[x] == multiset(range)[x] {
        DistinctMultiset(recovered, x);
        DistinctMultiset(range, x);
      }
    }
  }

  // ---------- flattening ----------

  function Flatten<T>(parts: seq<seq<T>>): (r: seq<T>) {
    if parts == [] then [] else parts[0] + Flatten(parts[1..])
  }

  lemma {:induction false} FlattenConcat<T>(a: seq<seq<T>>, b: seq<seq<T>>)
    ensures Flatten(a + b) == Flatten(a) + Flatten(b)
  {
    if a == [] {
      assert a + b == b;
    } else {
      assert (a + b)[1..] == a[1..] + b;
      FlattenConcat(a[1..], b);
    }
  }

  lemma {:induction false} FlattenLast<T>(parts: seq<seq<T>>)
    requires parts != []
    ensures Flatten(parts) == Flatten(parts[..|parts| - 1]) + parts[|parts| - 1]
  {
    var front, last := parts[..|parts| - 1], parts[|parts| - 1];
    assert parts == front + [last];
    FlattenConcat(front, [last]);
  }

  lemma FlattenNext<T>(parts: seq<seq<T>>, n: nat)
    requires 0 < n <= |parts|
    ensures Flatten(parts[..n]) == Flatten(parts[..n - 1]) + parts[n - 1]
  {
    FlattenLast(parts[..n]);
    assert parts[..n][..n - 1] == parts[..n - 1];
  }

  lemma FlattenPrefix<T>(parts: seq<seq<T>>, n: nat)
    requires n <= |parts|
    ensures Flatten(parts) == Flatten(parts[..n]) + Flatten(parts[n..])
  {
    var front, back := parts[..n], parts[n..];
    assert parts == front + back;
    FlattenConcat(front, back);
  }

  lemma {:induction false} FlattenMember<T>(parts: seq<seq<T>>, x: T)
    ensures x in Flatten(parts) <==> exists i :: 0 <= i < |parts| && x in parts[i]
  {
    if parts != [] {
      FlattenMember(parts[1..], x);
      if i :| 0 <= i < |parts| && x in parts[i] {
        if i > 0 { assert parts[1..][i - 1] == parts[i]; }
      }
      if x in Flatten(parts[1..]) {
        var i :| 0 <= i < |parts[1..]| && x in parts[1..][i];
        assert parts[i + 1] == parts[1..][i];
      }
    }
  }
}
