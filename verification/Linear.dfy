/** The linear analysis: all observations in one fixed order (pkg/minipipeline/analysis.go). */
module Linear {
  import opened Optional
  import opened Observations
  import opened Containers
  import Sets
  import StableSort

  const UNKNOWN_FAILURE := "unknown_failure"

  function Depth(o: Observation): int {
    o.tagDepth.UnwrapOr(-1)
  }

  function FailureText(o: Observation): string {
    o.failure.UnwrapOr(UNKNOWN_FAILURE)
  }

  /** The comparator of the sort. */
  predicate Less(left: Observation, right: Observation) {
    if Depth(left) > Depth(right) then true
    else if Depth(left) < Depth(right) then false
    else if left.kind.Rank() > right.kind.Rank() then true
    else if left.kind.Rank() < right.kind.Rank() then false
    else if Sets.StringLess(FailureText(left), FailureText(right)) then true
    else if Sets.StringLess(FailureText(right), FailureText(left)) then false
    else left.transactionID > right.transactionID
  }

  lemma LessAsymmetric(a: Observation, b: Observation)
    requires Less(a, b)
    ensures !Less(b, a)
  {
    hide Sets.StringLess;
    if Sets.StringLess(FailureText(a), FailureText(b)) {
      Sets.StringLessAsymmetric(FailureText(a), FailureText(b));
    }
  }

  lemma LessTransitive(a: Observation, b: Observation, c: Observation)
    requires Less(a, b) && Less(b, c)
    ensures Less(a, c)
  {
    hide Sets.StringLess, FailureText, Depth;
    var x, y, z := FailureText(a), FailureText(b), FailureText(c);
    Sets.StringLessIsTotalOrder();
    assert Sets.StringLess(x, y) && Sets.StringLess(y, z) ==> Sets.StringLess(x, z);
    assert Sets.StringLess(x, y) && y == z ==> Sets.StringLess(x, z);
    assert Sets.StringLess(x, y) || Sets.StringLess(y, x) || x == y;
    assert Sets.StringLess(y, z) || Sets.StringLess(z, y) || y == z;
  }

  lemma LessNegativelyTransitive(a: Observation, b: Observation, c: Observation)
    requires Less(a, c)
    ensures Less(a, b) || Less(b, c)
  {
    hide Sets.StringLess, FailureText, Depth;
    var x, y, z := FailureText(a), FailureText(b), FailureText(c);
    Sets.StringLessIsTotalOrder();
    assert Sets.StringLess(x, y) || Sets.StringLess(y, x) || x == y;
    assert Sets.StringLess(y, z) || Sets.StringLess(z, y) || y == z;
    assert Sets.StringLess(x, z) ==> Sets.StringLess(x, y) || Sets.StringLess(y, z);
  }

  lemma LessIsStrictWeakOrder()
    ensures StableSort.StrictWeakOrder(Less)
  {
    hide Less;
    forall a, b | Less(a, b)
      ensures !Less(b, a)
    {
      LessAsymmetric(a, b);
    }
    forall a, b, c | Less(a, b) && Less(b, c)
      ensures Less(a, c)
    {
      LessTransitive(a, b, c);
    }
    forall a, b, c | Less(a, c)
      ensures Less(a, b) || Less(b, c)
    {
      LessNegativelyTransitive(a, b, c);
    }
  }

  /** An order in which the map may be iterated. */
  ghost predicate IterationOrder(m: map<TransactionID, Observation>, order: seq<TransactionID>) {
    && (forall k :: k in order <==> k in m)
    && (forall i :: 0 <= i < |order| ==> order[i] in m)
    && (forall i, j :: 0 <= i < j < |order| ==> order[i] != order[j])
  }

  ghost function At(m: map<TransactionID, Observation>, order: seq<TransactionID>): (r: seq<Observation>)
    requires forall i :: 0 <= i < |order| ==> order[i] in m
    ensures |r| == |order| && forall i {:trigger r[i]} {:trigger order[i]} :: 0 <= i < |order| ==> r[i] == m[order[i]]
  {
    if order == [] then [] else At(m, order[..|order| - 1]) + [m[order[|order| - 1]]]
  }

  // ----- the order of the endpoints does not matter

  lemma {:induction false} ClassOfBoth(s: seq<Observation>, t: seq<Observation>, x: Observation)
    ensures StableSort.Class(Less, s + t, x) == StableSort.Class(Less, s, x) + StableSort.Class(Less, t, x)
    decreases |t|
  {
    hide Less;
    if t == [] {
      assert s + t == s;
    } else {
      var n := |t| - 1;
      ClassOfBoth(s, t[..n], x);
      assert (s + t)[..|s + t| - 1] == s + t[..n] && (s + t)[|s + t| - 1] == t[n];
    }
  }

  lemma {:induction false} ClassOfNone(s: seq<Observation>, x: Observation)
    requires forall i :: 0 <= i < |s| ==> !StableSort.Equivalent(Less, s[i], x)
    ensures StableSort.Class(Less, s, x) == []
  {
    hide Less;
    if s != [] {
      ClassOfNone(s[..|s| - 1], x);
    }
  }

  /** Of observations with distinct transactions at most one is equivalent to `x`. */
  lemma {:induction false} ClassOfOne(s: seq<Observation>, x: Observation, i: nat)
    requires i < |s| && StableSort.Equivalent(Less, s[i], x)
    requires forall j, k :: 0 <= j < k < |s| ==> s[j].transactionID != s[k].transactionID
    ensures StableSort.Class(Less, s, x) == [s[i]]
  {
    var n := |s| - 1;
    EquivalentSharesTransaction(s[i], x);
    if i == n {
      forall j | 0 <= j < n
        ensures !StableSort.Equivalent(Less, s[..n][j], x)
      {
        if StableSort.Equivalent(Less, s[j], x) {
          EquivalentSharesTransaction(s[j], x);
        }
      }
      ClassOfNone(s[..n], x);
    } else {
      if StableSort.Equivalent(Less, s[n], x) {
        EquivalentSharesTransaction(s[n], x);
      }
      ClassOfOne(s[..n], x, i);
    }
  }

  lemma EquivalentSharesTransaction(a: Observation, b: Observation)
    requires StableSort.Equivalent(Less, a, b)
    ensures a.transactionID == b.transactionID
  {
    hide Sets.StringLess;
  }

  lemma ClassDoesNotDependOnOrder(m: map<TransactionID, Observation>, o1: seq<TransactionID>, o2: seq<TransactionID>, x: Observation)
    requires forall id :: id in m ==> m[id].transactionID == id
    requires IterationOrder(m, o1) && IterationOrder(m, o2)
    ensures StableSort.Class(Less, At(m, o1), x) == StableSort.Class(Less, At(m, o2), x)
  {
    hide Less;
    var s, t := At(m, o1), At(m, o2);
    if i :| 0 <= i < |s| && StableSort.Equivalent(Less, s[i], x) {
      assert o1[i] in o2;
      var j :| 0 <= j < |o2| && o2[j] == o1[i];
      assert t[j] == s[i];
      ClassOfOne(s, x, i);
      ClassOfOne(t, x, j);
    } else {
      ClassOfNone(s, x);
      forall j | 0 <= j < |t|
        ensures !StableSort.Equivalent(Less, t[j], x)
      {
        assert o2[j] in o1;
        var i :| 0 <= i < |o1| && o1[i] == o2[j];
        assert s[i] == t[j];
      }
      ClassOfNone(t, x);
    }
  }

  /** The linear analysis for one iteration order of the endpoints. */
  ghost function Linearized(v: View, order: seq<TransactionID>): seq<Observation>
    requires IterationOrder(v.endpoints, order)
  {
    StableSort.Sort(Less, v.failures + v.successes + At(v.endpoints, order))
  }

  /** Every observation is there, as often as it was. */
  lemma LinearizedPermutes(v: View, order: seq<TransactionID>)
    requires IterationOrder(v.endpoints, order)
    ensures
      multiset(Linearized(v, order))
      == multiset(v.failures) + multiset(v.successes) + multiset(At(v.endpoints, order))
  {
    hide Less;
    StableSort.SortPermutes(Less, v.failures + v.successes + At(v.endpoints, order));
  }

  /** The result is the same for every iteration order of the endpoints. */
  lemma LinearAnalysisIsDeterministic(v: View, o1: seq<TransactionID>, o2: seq<TransactionID>)
    requires ValidView(v) && IterationOrder(v.endpoints, o1) && IterationOrder(v.endpoints, o2)
    ensures Linearized(v, o1) == Linearized(v, o2)
  {
    hide Less;
    var lookups := v.failures + v.successes;
    var s, t := lookups + At(v.endpoints, o1), lookups + At(v.endpoints, o2);
    LessIsStrictWeakOrder();
    TransactionsAreKeys(v);
    forall x
      ensures StableSort.Class(Less, s, x) == StableSort.Class(Less, t, x)
    {
      ClassOfBoth(lookups, At(v.endpoints, o1), x);
      ClassOfBoth(lookups, At(v.endpoints, o2), x);
      ClassDoesNotDependOnOrder(v.endpoints, o1, o2, x);
    }
    StableSort.SortDependsOnClassesOnly(Less, s, t);
  }

  lemma TransactionsAreKeys(v: View)
    requires ValidView(v)
    ensures forall id :: id in v.endpoints ==> v.endpoints[id].transactionID == id
  {
    hide ValidLookup, ValidLookupSuccess;
  }

  /** The latest redirects come first; for one redirect the more complex operations; for one kind of
      operation the failures in order, hence successes first, and of these the later transactions. */
  lemma LinearOrder(v: View, order: seq<TransactionID>, i: nat, j: nat)
    requires IterationOrder(v.endpoints, order) && i < j < |Linearized(v, order)|
    ensures
      var a, b := Linearized(v, order)[i], Linearized(v, order)[j];
      || Depth(a) > Depth(b)
      || (Depth(a) == Depth(b) && a.kind.Rank() > b.kind.Rank())
      || (Depth(a) == Depth(b) && a.kind == b.kind && Sets.StringLess(FailureText(a), FailureText(b)))
      || (Depth(a) == Depth(b) && a.kind == b.kind && FailureText(a) == FailureText(b) && a.transactionID >= b.transactionID)
  {
    hide Sets.StringLess, Depth, FailureText;
    var s := v.failures + v.successes + At(v.endpoints, order);
    LessIsStrictWeakOrder();
    StableSort.SortSorts(Less, s);
    var a, b := Linearized(v, order)[i], Linearized(v, order)[j];
    assert !Less(b, a);
    Sets.StringLessTotal(FailureText(a), FailureText(b));
  }

  /** Of two operations, the one that is done later: HTTP after TLS after TCP after DNS. */
  predicate IsLater(a: ObservationType, b: ObservationType) {
    match b
    case DNSLookup => a != DNSLookup
    case TCPConnect => a == TLSHandshake || a == HTTPRoundTrip
    case TLSHandshake => a == HTTPRoundTrip
    case HTTPRoundTrip => false
  }

  /** A request that was redirected more often; observations without a depth are last. */
  predicate IsDeeper(a: Observation, b: Observation) {
    if b.tagDepth.None? then a.tagDepth.Some? && a.tagDepth.value > -1
    else if a.tagDepth.None? then -1 > b.tagDepth.value
    else a.tagDepth.value > b.tagDepth.value
  }

  /** The failures in the order of their texts, no failure text counting as `unknown_failure`. */
  predicate FailsBefore(a: Observation, b: Observation) {
    Sets.StringLess(match a.failure case None => "unknown_failure" case Some(text) => text,
                    match b.failure case None => "unknown_failure" case Some(text) => text)
  }

  /** No observation comes before one that is deeper, or of a later operation at the same depth, or whose failure
      comes before its own among those, or that is of a later transaction among those with the same failure. */
  lemma NothingIsOutOfOrder(v: View, order: seq<TransactionID>, i: nat, j: nat)
    requires IterationOrder(v.endpoints, order) && i < j < |Linearized(v, order)|
    ensures
      var a, b := Linearized(v, order)[i], Linearized(v, order)[j];
      && !IsDeeper(b, a)
      && (!IsDeeper(a, b) ==> !IsLater(b.kind, a.kind))
      && (!IsDeeper(a, b) && !IsLater(a.kind, b.kind) ==> !FailsBefore(b, a))
      && (!IsDeeper(a, b) && !IsLater(a.kind, b.kind) && !FailsBefore(a, b) ==> a.transactionID >= b.transactionID)
  {
    LinearOrder(v, order, i, j);
    var a, b := Linearized(v, order)[i], Linearized(v, order)[j];
    hide Linearized, Sets.StringLess;
    if Sets.StringLess(FailureText(a), FailureText(b)) {
      Sets.StringLessAsymmetric(FailureText(a), FailureText(b));
    }
    NotBeforeItself(FailureText(a));
  }

  lemma NotBeforeItself(text: string)
    ensures !Sets.StringLess(text, text)
  {
    if Sets.StringLess(text, text) {
      Sets.StringLessAsymmetric(text, text);
    }
  }

  /** The endpoints in whatever order the map is iterated. */
  method ListEndpoints(m: map<TransactionID, Observation>) returns (list: seq<Observation>, ghost order: seq<TransactionID>)
    ensures IterationOrder(m, order) && list == At(m, order)
  {
    list, order := [], [];
    var left := m.Keys;
    while left != {}
      invariant left <= m.Keys
      invariant forall k :: k in order <==> k in m && k !in left
      invariant forall i, j :: 0 <= i < j < |order| ==> order[i] != order[j]
      invariant |list| == |order|
      invariant forall i {:trigger list[i]} {:trigger order[i]} :: 0 <= i < |order| ==>
        order[i] in m && list[i] == m[order[i]]
      decreases left
    {
      var k :| k in left;
      left := left - {k};
      list := list + [m[k]];
      order := order + [k];
    }
  }

  method NewLinearWebAnalysis(v: View) returns (output: seq<Observation>)
    requires ValidView(v)
    ensures forall order :: IterationOrder(v.endpoints, order) ==> output == Linearized(v, order)
    ensures |output| == |v.failures| + |v.successes| + |v.endpoints|
  {
    hide Less, ValidView;
    var entries, order := ListEndpoints(v.endpoints);
    var list := v.failures + v.successes + entries;
    var data := new Observation[|list|](k requires 0 <= k < |list| => list[k]);
    assert data[..] == list;
    StableSort.InsertionSort(Less, data);
    output := data[..];
    StableSort.SortPermutes(Less, list);
    OrderLength(v.endpoints.Keys, order);
    forall other | IterationOrder(v.endpoints, other)
      ensures output == Linearized(v, other)
    {
      LinearAnalysisIsDeterministic(v, order, other);
    }
  }

  lemma {:induction false} OrderLength(keys: set<TransactionID>, order: seq<TransactionID>)
    requires forall k :: k in order <==> k in keys
    requires forall i, j :: 0 <= i < j < |order| ==> order[i] != order[j]
    ensures |order| == |keys|
  {
    if order != [] {
      var n := |order| - 1;
      assert order == order[..n] + [order[n]];
      OrderLength(keys - {order[n]}, order[..n]);
    }
  }
}
