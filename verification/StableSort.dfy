/** Go's sort.SliceStable on short slices: insertion sort with a caller-supplied `less`. */
module StableSort {

  /** Moves `x` left from the end, past every element it is less than. */
  function Insert<T>(less: (T, T) -> bool, s: seq<T>, x: T): seq<T> {
    if s == [] || !less(x, s[|s| - 1]) then s + [x]
    else Insert(less, s[..|s| - 1], x) + [s[|s| - 1]]
  }

  function Sort<T>(less: (T, T) -> bool, s: seq<T>): seq<T> {
    if s == [] then [] else Insert(less, Sort(less, s[..|s| - 1]), s[|s| - 1])
  }

  // ----- whatever `less` is, sorting permutes

  lemma {:induction false} InsertPermutes<T>(less: (T, T) -> bool, s: seq<T>, x: T)
    ensures multiset(Insert(less, s, x)) == multiset(s) + multiset{x}
    ensures |Insert(less, s, x)| == |s| + 1
  {
    if s != [] && less(x, s[|s| - 1]) {
      InsertPermutes(less, s[..|s| - 1], x);
      assert s == s[..|s| - 1] + [s[|s| - 1]];
    }
  }

  lemma {:induction false} SortPermutes<T>(less: (T, T) -> bool, s: seq<T>)
    ensures multiset(Sort(less, s)) == multiset(s)
    ensures |Sort(less, s)| == |s|
  {
    if s != [] {
      SortPermutes(less, s[..|s| - 1]);
      InsertPermutes(less, Sort(less, s[..|s| - 1]), s[|s| - 1]);
      assert s == s[..|s| - 1] + [s[|s| - 1]];
    }
  }

  lemma SortKeepsElements<T>(less: (T, T) -> bool, s: seq<T>)
    ensures |Sort(less, s)| == |s|
    ensures forall x :: x in Sort(less, s) <==> x in s
  {
    SortPermutes(less, s);
    assert forall x :: x in Sort(less, s) <==> x in multiset(Sort(less, s));
    assert forall x :: x in s <==> x in multiset(s);
  }

  // ----- for a strict weak order, sorting is the one stable way to sort

  ghost predicate StrictWeakOrder<T(!new)>(less: (T, T) -> bool) {
    && (forall x, y :: less(x, y) ==> !less(y, x))
    && (forall x, y, z :: less(x, y) && less(y, z) ==> less(x, z))
    && (forall x, y, z :: less(x, z) ==> less(x, y) || less(y, z))
  }

  predicate Equivalent<T>(less: (T, T) -> bool, x: T, y: T) {
    !less(x, y) && !less(y, x)
  }

  predicate Sorted<T>(less: (T, T) -> bool, s: seq<T>) {
    forall i, j :: 0 <= i < j < |s| ==> !less(s[j], s[i])
  }

  /** The elements that are equivalent to `x`, in their order. */
  function Class<T>(less: (T, T) -> bool, s: seq<T>, x: T): seq<T> {
    if s == [] then []
    else Class(less, s[..|s| - 1], x) + (if Equivalent(less, s[|s| - 1], x) then [s[|s| - 1]] else [])
  }

  /** Equivalent elements keep their order. */
  ghost predicate Stable<T(!new)>(less: (T, T) -> bool, s: seq<T>, t: seq<T>) {
    forall x :: Class(less, s, x) == Class(less, t, x)
  }

  lemma {:induction false} InsertKeepsSorted<T(!new)>(less: (T, T) -> bool, s: seq<T>, x: T)
    requires StrictWeakOrder(less) && Sorted(less, s)
    ensures Sorted(less, Insert(less, s, x))
  {
    if s == [] || !less(x, s[|s| - 1]) {
      forall i | 0 <= i < |s|
        ensures !less(x, s[i])
      {
        if i < |s| - 1 {
          assert !less(s[|s| - 1], s[i]);
        }
      }
    } else {
      var n := |s| - 1;
      InsertKeepsSorted(less, s[..n], x);
      InsertPermutes(less, s[..n], x);
      var t := Insert(less, s[..n], x);
      forall i | 0 <= i < |t|
        ensures !less(s[n], t[i])
      {
        assert t[i] in multiset(t);
        if t[i] in s[..n] {
          var k :| 0 <= k < n && s[k] == t[i];
        } else {
          assert t[i] == x;
        }
      }
    }
  }

  lemma {:induction false} SortSorts<T(!new)>(less: (T, T) -> bool, s: seq<T>)
    requires StrictWeakOrder(less)
    ensures Sorted(less, Sort(less, s))
  {
    if s != [] {
      SortSorts(less, s[..|s| - 1]);
      InsertKeepsSorted(less, Sort(less, s[..|s| - 1]), s[|s| - 1]);
    }
  }

  lemma {:induction false} InsertIsStable<T(!new)>(less: (T, T) -> bool, s: seq<T>, x: T, y: T)
    requires StrictWeakOrder(less)
    ensures Class(less, Insert(less, s, x), y) == Class(less, s, y) + (if Equivalent(less, x, y) then [x] else [])
  {
    if s == [] || !less(x, s[|s| - 1]) {
      assert (s + [x])[..|s|] == s;
    } else {
      var n := |s| - 1;
      InsertIsStable(less, s[..n], x, y);
      var t := Insert(less, s[..n], x);
      assert (t + [s[n]])[..|t|] == t;
      assert less(x, s[n]);
      assert !(Equivalent(less, x, y) && Equivalent(less, s[n], y));
    }
  }

  lemma {:induction false} SortIsStableAt<T(!new)>(less: (T, T) -> bool, s: seq<T>, y: T)
    requires StrictWeakOrder(less)
    ensures Class(less, s, y) == Class(less, Sort(less, s), y)
  {
    if s != [] {
      SortIsStableAt(less, s[..|s| - 1], y);
      InsertIsStable(less, Sort(less, s[..|s| - 1]), s[|s| - 1], y);
    }
  }

  lemma {:induction false} ClassMembers<T(!new)>(less: (T, T) -> bool, s: seq<T>, x: T, y: T)
    ensures y in Class(less, s, x) <==> y in s && Equivalent(less, y, x)
  {
    if s != [] {
      ClassMembers(less, s[..|s| - 1], x, y);
      assert s == s[..|s| - 1] + [s[|s| - 1]];
    }
  }

  /** The last element of a sorted sequence is at the end of its class. */
  lemma LastOfClass<T(!new)>(less: (T, T) -> bool, s: seq<T>)
    requires s != []
    requires StrictWeakOrder(less)
    ensures Class(less, s, s[|s| - 1]) != []
    ensures Class(less, s, s[|s| - 1])[|Class(less, s, s[|s| - 1])| - 1] == s[|s| - 1]
  {
    assert !less(s[|s| - 1], s[|s| - 1]);
  }

  /** Two sorted sequences with the same classes end in equivalent elements. */
  lemma SameLast<T(!new)>(less: (T, T) -> bool, s: seq<T>, t: seq<T>)
    requires StrictWeakOrder(less) && Sorted(less, s) && Sorted(less, t) && Stable(less, s, t)
    requires s != []
    ensures t != [] && s[|s| - 1] == t[|t| - 1]
  {
    var x := s[|s| - 1];
    LastOfClass(less, s);
    ClassMembers(less, t, x, x);
    ClassMembers(less, s, x, x);
    assert Class(less, s, x) == Class(less, t, x);
    assert x in t;
    var y := t[|t| - 1];
    ClassMembers(less, s, y, y);
    ClassMembers(less, t, y, y);
    assert Class(less, s, y) == Class(less, t, y);
    assert y in t && y in s;
    LastOfClass(less, t);
    LastIsMaximal(less, s, y);
    LastIsMaximal(less, t, x);
    SameClass(less, s, x, y);
    SameClass(less, t, x, y);
  }

  lemma LastIsMaximal<T(!new)>(less: (T, T) -> bool, s: seq<T>, y: T)
    requires StrictWeakOrder(less) && Sorted(less, s) && y in s
    ensures !less(s[|s| - 1], y)
  {
    var k :| 0 <= k < |s| && s[k] == y;
  }

  lemma {:induction false} SameClass<T(!new)>(less: (T, T) -> bool, s: seq<T>, x: T, y: T)
    requires StrictWeakOrder(less) && Equivalent(less, x, y)
    ensures Class(less, s, x) == Class(less, s, y)
  {
    if s != [] {
      SameClass(less, s[..|s| - 1], x, y);
    }
  }

  /** Sorting stably has one result. */
  lemma {:induction false} StableSortingIsUnique<T(!new)>(less: (T, T) -> bool, s: seq<T>, t: seq<T>)
    requires StrictWeakOrder(less) && Sorted(less, s) && Sorted(less, t) && Stable(less, s, t)
    ensures s == t
    decreases |s|
  {
    if s == [] {
      if t != [] {
        var x := t[0];
        ClassMembers(less, s, x, x);
        ClassMembers(less, t, x, x);
      }
    } else {
      SameLast(less, s, t);
      var n, m := |s| - 1, |t| - 1;
      forall x
        ensures Class(less, s[..n], x) == Class(less, t[..m], x)
      {
        assert Class(less, s, x) == Class(less, t, x);
        var last := if Equivalent(less, s[n], x) then [s[n]] else [];
        assert Class(less, s[..n], x) == Class(less, s, x)[..|Class(less, s, x)| - |last|];
        assert Class(less, t[..m], x) == Class(less, t, x)[..|Class(less, t, x)| - |last|];
      }
      StableSortingIsUnique(less, s[..n], t[..m]);
      assert s == s[..n] + [s[n]] && t == t[..m] + [t[m]];
    }
  }

  /** Inputs that differ only in the order of inequivalent elements are sorted alike. */
  lemma SortDependsOnClassesOnly<T(!new)>(less: (T, T) -> bool, s: seq<T>, t: seq<T>)
    requires StrictWeakOrder(less) && Stable(less, s, t)
    ensures Sort(less, s) == Sort(less, t)
  {
    SortSorts(less, s);
    SortSorts(less, t);
    forall x
      ensures Class(less, Sort(less, s), x) == Class(less, Sort(less, t), x)
    {
      SortIsStableAt(less, s, x);
      SortIsStableAt(less, t, x);
      assert Class(less, s, x) == Class(less, t, x);
    }
    StableSortingIsUnique(less, Sort(less, s), Sort(less, t));
  }

  // ----- the code

  /** Moves element `i` left, one swap at a time, while it is less than its left neighbour. */
  method InsertAt<T>(less: (T, T) -> bool, data: array<T>, i: nat)
    requires i < data.Length
    modifies data
    ensures data[..i + 1] == Insert(less, old(data[..i]), old(data[i]))
    ensures data[i + 1..] == old(data[i + 1..])
  {
    ghost var front, x := data[..i], data[i];
    ghost var moved: seq<T> := [];
    var j := i;
    while j > 0 && less(data[j], data[j - 1])
      invariant 0 <= j <= i
      invariant data[..j] == front[..j] && data[j] == x
      invariant data[j + 1..i + 1] == moved
      invariant Insert(less, front[..j], x) + moved == Insert(less, front, x)
      invariant data[i + 1..] == old(data[i + 1..])
    {
      assert front[..j][..j - 1] == front[..j - 1];
      assert front[..j][j - 1] == data[j - 1];
      assert Insert(less, front[..j], x) + moved == Insert(less, front[..j - 1], x) + ([data[j - 1]] + moved);
      moved := [data[j - 1]] + moved;
      data[j], data[j - 1] := data[j - 1], data[j];
      j := j - 1;
    }
    assert Insert(less, front[..j], x) == front[..j] + [x];
    assert data[..i + 1] == data[..j] + [x] + data[j + 1..i + 1];
  }

  method InsertionSort<T>(less: (T, T) -> bool, data: array<T>)
    modifies data
    ensures data[..] == Sort(less, old(data[..]))
  {
    ghost var before := data[..];
    var i := 0;
    while i < data.Length
      invariant 0 <= i <= data.Length
      invariant data[..i] == Sort(less, before[..i])
      invariant data[i..] == before[i..]
    {
      assert before[..i + 1][..i] == before[..i];
      assert data[i] == before[i];
      assert data[i + 1..] == before[i + 1..];
      InsertAt(less, data, i);
      i := i + 1;
    }
    assert data[..i] == data[..] && before[..i] == before;
  }
}
