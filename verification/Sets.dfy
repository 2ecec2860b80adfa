/** Sets with sorted keys (pkg/minipipeline/set.go), and the order of strings. */
module Sets {
  import StableSort

  /** Go's `<` on strings. */
  predicate StringLess(a: string, b: string) {
    if b == [] then false
    else if a == [] then true
    else if a[0] != b[0] then a[0] < b[0]
    else StringLess(a[1..], b[1..])
  }

  predicate IntLess(a: int, b: int) {
    a < b
  }

  ghost predicate TotalOrder<T(!new)>(less: (T, T) -> bool) {
    && StableSort.StrictWeakOrder(less)
    && forall x, y :: less(x, y) || less(y, x) || x == y
  }

  lemma {:induction false} StringLessAsymmetric(a: string, b: string)
    requires StringLess(a, b)
    ensures !StringLess(b, a)
    decreases a
  {
    if a != [] && a[0] == b[0] {
      StringLessAsymmetric(a[1..], b[1..]);
    }
  }

  lemma {:induction false} StringLessTransitive(a: string, b: string, c: string)
    requires StringLess(a, b) && StringLess(b, c)
    ensures StringLess(a, c)
    decreases a
  {
    if a != [] && a[0] == b[0] == c[0] {
      StringLessTransitive(a[1..], b[1..], c[1..]);
    }
  }

  lemma {:induction false} StringLessTotal(a: string, b: string)
    ensures StringLess(a, b) || StringLess(b, a) || a == b
    decreases a
  {
    if a != [] && b != [] && a[0] == b[0] {
      StringLessTotal(a[1..], b[1..]);
      assert a == [a[0]] + a[1..] && b == [b[0]] + b[1..];
    }
  }

  /** The strings differ first at `i`, where `a` has the smaller character or ends. */
  predicate LessAt(a: string, b: string, i: nat) {
    && i <= |a| && i < |b| && a[..i] == b[..i]
    && (i == |a| || a[i] < b[i])
  }

  lemma {:induction false} StringLessMeaning(a: string, b: string)
    ensures StringLess(a, b) <==> exists i: nat :: LessAt(a, b, i)
    decreases a
  {
    if b == [] {
    } else if a == [] {
      assert LessAt(a, b, 0);
    } else if a[0] != b[0] {
      if a[0] < b[0] {
        assert LessAt(a, b, 0);
      }
      forall i: nat | LessAt(a, b, i)
        ensures a[0] < b[0]
      {
        assert i > 0 ==> a[..i][0] == b[..i][0];
      }
    } else {
      StringLessMeaning(a[1..], b[1..]);
      if i: nat :| LessAt(a[1..], b[1..], i) {
        assert a[..i + 1] == [a[0]] + a[1..][..i] && b[..i + 1] == [b[0]] + b[1..][..i];
        assert LessAt(a, b, i + 1);
      }
      if i: nat :| LessAt(a, b, i) {
        assert a[1..][..i - 1] == a[..i][1..] && b[1..][..i - 1] == b[..i][1..];
        assert LessAt(a[1..], b[1..], i - 1);
      }
    }
  }

  lemma StringLessIsTotalOrder()
    ensures TotalOrder(StringLess)
  {
    hide StringLess;
    forall a: string, b: string | StringLess(a, b)
      ensures !StringLess(b, a)
    {
      StringLessAsymmetric(a, b);
    }
    forall a: string, b: string, c: string | StringLess(a, b) && StringLess(b, c)
      ensures StringLess(a, c)
    {
      StringLessTransitive(a, b, c);
    }
    forall a: string, b: string
      ensures StringLess(a, b) || StringLess(b, a) || a == b
    {
      StringLessTotal(a, b);
    }
    forall a: string, b: string, c: string | StringLess(a, c)
      ensures StringLess(a, b) || StringLess(b, c)
    {
      StringLessTotal(a, b);
      if StringLess(b, a) {
        StringLessTransitive(b, a, c);
      }
    }
  }

  /** Exactly the elements of the set, in strictly increasing order. */
  ghost predicate IsSortedKeys<T(!new)>(less: (T, T) -> bool, s: set<T>, keys: seq<T>) {
    && (forall x :: x in keys <==> x in s)
    && (forall i, j :: 0 <= i < j < |keys| ==> less(keys[i], keys[j]))
  }

  /** There is one way only to list the keys, so listing them does not depend on iteration order. */
  lemma {:induction false} SortedKeysAreUnique<T(!new)>(less: (T, T) -> bool, s: set<T>, k1: seq<T>, k2: seq<T>)
    requires TotalOrder(less) && IsSortedKeys(less, s, k1) && IsSortedKeys(less, s, k2)
    ensures k1 == k2
    decreases |k1|
  {
    if k1 == [] {
      if k2 != [] {
        KeysOfNonEmpty(less, s, k2);
      }
    } else {
      hide IsSortedKeys, TotalOrder;
      KeysOfNonEmpty(less, s, k1);
      var m, n := |k1| - 1, |k2| - 1;
      SameLast(less, s, k1, k2);
      var last := k1[m];
      DropLast(less, s, k1);
      DropLast(less, s, k2);
      SortedKeysAreUnique(less, s - {last}, k1[..m], k2[..n]);
      assert k1 == k1[..m] + [last] && k2 == k2[..n] + [last];
    }
  }

  lemma KeysOfNonEmpty<T(!new)>(less: (T, T) -> bool, s: set<T>, keys: seq<T>)
    requires IsSortedKeys(less, s, keys) && keys != []
    ensures keys[0] in s
  {
    assert keys[0] in keys;
  }

  lemma LastIsGreatest<T(!new)>(less: (T, T) -> bool, s: set<T>, keys: seq<T>)
    requires TotalOrder(less) && IsSortedKeys(less, s, keys) && s != {}
    ensures keys != []
    ensures forall x :: x in s ==> !less(keys[|keys| - 1], x)
  {
    var y :| y in s;
    assert y in keys;
    forall x | x in s
      ensures !less(keys[|keys| - 1], x)
    {
      assert x in keys;
      var i :| 0 <= i < |keys| && keys[i] == x;
      if i < |keys| - 1 {
        assert less(keys[i], keys[|keys| - 1]);
      }
    }
  }

  lemma SameLast<T(!new)>(less: (T, T) -> bool, s: set<T>, k1: seq<T>, k2: seq<T>)
    requires TotalOrder(less) && IsSortedKeys(less, s, k1) && IsSortedKeys(less, s, k2) && s != {}
    ensures k1 != [] && k2 != [] && k1[|k1| - 1] == k2[|k2| - 1]
  {
    LastIsGreatest(less, s, k1);
    LastIsGreatest(less, s, k2);
    var x, y := k1[|k1| - 1], k2[|k2| - 1];
    assert x in k1 && y in k2;
    assert !less(x, y) && !less(y, x);
  }

  lemma DropLast<T(!new)>(less: (T, T) -> bool, s: set<T>, keys: seq<T>)
    requires TotalOrder(less) && IsSortedKeys(less, s, keys) && keys != []
    ensures IsSortedKeys(less, s - {keys[|keys| - 1]}, keys[..|keys| - 1])
  {
    var n := |keys| - 1;
    assert keys == keys[..n] + [keys[n]];
    forall x | x in keys[..n]
      ensures x != keys[n]
    {
      var i :| 0 <= i < n && keys[i] == x;
      assert less(keys[i], keys[n]);
    }
  }

  class Set<T(!new,==)> {
    const less: (T, T) -> bool
    var state: map<T, bool>

    constructor (less: (T, T) -> bool, keys: seq<T>)
      ensures this.less == less && Elements() == (set x | x in keys)
    {
      this.less := less;
      this.state := map[];
      new;
      Add(keys);
    }

    function Elements(): set<T>
      reads this
    {
      state.Keys
    }

    method Add(keys: seq<T>)
      modifies this
      ensures Elements() == old(Elements()) + (set x | x in keys)
    {
      var i := 0;
      while i < |keys|
        invariant 0 <= i <= |keys|
        invariant Elements() == old(Elements()) + (set x | x in keys[..i])
      {
        assert keys[..i + 1] == keys[..i] + [keys[i]];
        state := state[keys[i] := true];
        i := i + 1;
      }
      assert keys[..i] == keys;
    }

    method Remove(keys: seq<T>)
      modifies this
      ensures Elements() == old(Elements()) - (set x | x in keys)
    {
      var i := 0;
      while i < |keys|
        invariant 0 <= i <= |keys|
        invariant Elements() == old(Elements()) - (set x | x in keys[..i])
      {
        assert keys[..i + 1] == keys[..i] + [keys[i]];
        state := state - {keys[i]};
        i := i + 1;
      }
      assert keys[..i] == keys;
    }

    method Contains(key: T) returns (found: bool)
      ensures found <==> key in Elements()
    {
      found := key in state;
    }

    method Keys() returns (keys: seq<T>)
      requires TotalOrder(less)
      ensures IsSortedKeys(less, Elements(), keys)
    {
      keys := SortedKeys(less, Elements());
    }
  }

  /** The keys in some order, sorted. */
  method SortedKeys<T(!new,==)>(less: (T, T) -> bool, s: set<T>) returns (keys: seq<T>)
    requires TotalOrder(less)
    ensures IsSortedKeys(less, s, keys)
  {
    var list: seq<T> := [];
    var left := s;
    while left != {}
      invariant left <= s
      invariant forall x :: x in list <==> x in s && x !in left
      invariant |list| + |left| == |s|
      decreases left
    {
      var x :| x in left;
      left := left - {x};
      list := list + [x];
    }
    var data := new T[|list|](k requires 0 <= k < |list| => list[k]);
    assert data[..] == list;
    StableSort.InsertionSort(less, data);
    keys := data[..];
    StableSort.SortKeepsElements(less, list);
    StableSort.SortSorts(less, list);
    SortedWithoutDuplicates(less, s, keys);
  }

  lemma {:induction false} Listing<T>(s: set<T>) returns (list: seq<T>)
    ensures |list| == |s| && forall x :: x in list <==> x in s
    decreases |s|
  {
    if s == {} {
      list := [];
    } else {
      var x :| x in s;
      var rest := Listing(s - {x});
      list := rest + [x];
    }
  }

  /** There is such a listing for every set. */
  lemma SortedKeysExist<T(!new)>(less: (T, T) -> bool, s: set<T>)
    requires TotalOrder(less)
    ensures exists keys :: IsSortedKeys(less, s, keys)
  {
    var list := Listing(s);
    StableSort.SortKeepsElements(less, list);
    StableSort.SortSorts(less, list);
    StableSort.SortPermutes(less, list);
    var keys := StableSort.Sort(less, list);
    assert |keys| == |list| by { assert |multiset(keys)| == |keys| && |multiset(list)| == |list|; }
    SortedWithoutDuplicates(less, s, keys);
  }

  lemma SortedWithoutDuplicates<T(!new)>(less: (T, T) -> bool, s: set<T>, keys: seq<T>)
    requires TotalOrder(less) && StableSort.Sorted(less, keys)
    requires |keys| == |s| && forall x :: x in keys <==> x in s
    ensures IsSortedKeys(less, s, keys)
  {
    ListIsDistinct(keys, s);
    forall i, j | 0 <= i < j < |keys|
      ensures less(keys[i], keys[j])
    {
      assert !less(keys[j], keys[i]) && keys[i] != keys[j];
    }
  }

  lemma {:induction false} ListIsDistinct<T>(list: seq<T>, s: set<T>)
    requires |list| == |s| && forall x :: x in list <==> x in s
    ensures forall i, j :: 0 <= i < j < |list| ==> list[i] != list[j]
  {
    if list != [] {
      var n := |list| - 1;
      var x := list[n];
      assert list == list[..n] + [x];
      if x in list[..n] {
        ListCovers(list[..n], s);
        assert false;
      }
      ListIsDistinct(list[..n], s - {x});
      forall i, j | 0 <= i < j < |list|
        ensures list[i] != list[j]
      {
        if j < n {
          assert list[..n][i] != list[..n][j];
        } else {
          assert list[i] in list[..n];
        }
      }
    }
  }

  lemma {:induction false} ListCovers<T>(list: seq<T>, s: set<T>)
    requires forall x :: x in s ==> x in list
    ensures |s| <= |list|
  {
    if list == [] {
      assert s == {};
    } else {
      var n := |list| - 1;
      assert list == list[..n] + [list[n]];
      ListCovers(list[..n], s - {list[n]});
    }
  }
}
