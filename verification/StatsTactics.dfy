/** Records of dialing tactics, and sorting them (pkg/enginenetx/statsmanager.go). */
module StatsTactics {
  import opened Optional
  import opened Tactics
  import StableSort

  type Histogram = Option<map<string, int>>

  /** A record; the histograms may be nil and so may the tactic, because records come from disk. */
  datatype StatsTactic = StatsTactic(
    countStarted: int,
    countTCPConnectError: int,
    countTCPConnectInterrupt: int,
    countTLSHandshakeError: int,
    countTLSHandshakeInterrupt: int,
    countTLSVerificationError: int,
    countSuccess: int,
    histoTCPConnectError: Histogram,
    histoTLSHandshakeError: Histogram,
    histoTLSVerificationError: Histogram,
    lastUpdated: int,
    tactic: Option<Tactic>)

  // ----- the comparator

  function SuccessRate(t: StatsTactic): real {
    if t.countStarted > 0 then t.countSuccess as real / t.countStarted as real else 0.0
  }

  /** The comparator of the sort. It is not asymmetric, see `ComparatorIsInconsistent`. */
  predicate Better(a: StatsTactic, b: StatsTactic) {
    || SuccessRate(a) > SuccessRate(b)
    || a.countSuccess > b.countSuccess
    || a.lastUpdated - b.lastUpdated > 0
  }

  /** What the comparator looks at. */
  datatype Rank = Rank(rate: real, count: int, updated: int)

  function RankOf(t: StatsTactic): Rank {
    Rank(SuccessRate(t), t.countSuccess, t.lastUpdated)
  }

  function Ranks(s: seq<StatsTactic>): (r: seq<Rank>)
    ensures |r| == |s| && forall i {:trigger r[i]} :: 0 <= i < |s| ==> r[i] == RankOf(s[i])
  {
    if s == [] then [] else Ranks(s[..|s| - 1]) + [RankOf(s[|s| - 1])]
  }

  predicate AtLeast(a: Rank, b: Rank) {
    a.rate >= b.rate && a.count >= b.count && a.updated >= b.updated
  }

  /** Not being beaten is being at least as good in each of the three respects. */
  lemma NotBeaten(a: StatsTactic, b: StatsTactic)
    ensures !Better(b, a) <==> AtLeast(RankOf(a), RankOf(b))
  {
  }

  /** A record can beat another by its rate while the other beats it by its count: the outcome then
      depends on the order in which the map was iterated. */
  lemma ComparatorIsInconsistent()
    ensures exists a, b :: Better(a, b) && Better(b, a) && a != b
                           && StableSort.Sort(Better, [a, b]) == [b, a] && StableSort.Sort(Better, [b, a]) == [a, b]
  {
    var t := Some(Tactic("", 0, "", "", ""));
    var a := StatsTactic(1, 0, 0, 0, 0, 0, 1, None, None, None, 0, t);
    var b := StatsTactic(4, 0, 0, 0, 0, 0, 2, None, None, None, 0, t);
    assert Better(a, b) && Better(b, a);
    SwapsTwo(a, b);
    SwapsTwo(b, a);
  }

  lemma SwapsTwo(a: StatsTactic, b: StatsTactic)
    requires Better(b, a)
    ensures StableSort.Sort(Better, [a, b]) == [b, a]
  {
    assert [a, b][..1] == [a] && [a][..0] == [];
    assert StableSort.Sort(Better, [a]) == [a];
    assert StableSort.Insert(Better, [], b) == [b];
    assert StableSort.Insert(Better, [a], b) == StableSort.Insert(Better, [a][..0], b) + [a];
  }

  // ----- when sorting works

  function Elements(s: seq<StatsTactic>): set<StatsTactic> {
    set x | x in s
  }

  /** No two records beat each other. */
  ghost predicate NoConflict(records: set<StatsTactic>) {
    forall x, y {:trigger Better(x, y)} :: x in records && y in records ==> !(Better(x, y) && Better(y, x))
  }

  lemma InsertElements(s: seq<StatsTactic>, x: StatsTactic)
    ensures Elements(StableSort.Insert(Better, s, x)) == Elements(s) + {x}
    ensures |StableSort.Insert(Better, s, x)| == |s| + 1
  {
    var r := StableSort.Insert(Better, s, x);
    StableSort.InsertPermutes(Better, s, x);
    forall y: StatsTactic
      ensures y in Elements(r) <==> y in Elements(s) + {x}
    {
      assert y in r <==> y in multiset(r);
      assert y in s <==> y in multiset(s);
    }
  }

  lemma SortElements(s: seq<StatsTactic>)
    ensures Elements(StableSort.Sort(Better, s)) == Elements(s)
  {
    StableSort.SortKeepsElements(Better, s);
  }

  lemma FrontElements(s: seq<StatsTactic>)
    requires s != []
    ensures Elements(s) == Elements(s[..|s| - 1]) + {s[|s| - 1]}
  {
    assert s == s[..|s| - 1] + [s[|s| - 1]];
  }

  /** A record that does not beat the last one of a sorted list beats none. */
  lemma BeatsNone(s: seq<StatsTactic>, x: StatsTactic)
    requires s != [] && StableSort.Sorted(Better, s) && !Better(x, s[|s| - 1])
    ensures StableSort.Sorted(Better, s + [x])
  {
    forall i | 0 <= i < |s|
      ensures !Better(x, s[i])
    {
      NotBeaten(s[i], s[|s| - 1]);
      NotBeaten(s[|s| - 1], x);
      NotBeaten(s[i], x);
      if i < |s| - 1 {
        assert !Better(s[|s| - 1], s[i]);
      }
    }
  }

  lemma {:induction false} InsertKeepsSorted(s: seq<StatsTactic>, x: StatsTactic)
    requires NoConflict(Elements(s) + {x}) && StableSort.Sorted(Better, s)
    ensures StableSort.Sorted(Better, StableSort.Insert(Better, s, x))
  {
    hide Better;
    if s == [] {
    } else if !Better(x, s[|s| - 1]) {
      BeatsNone(s, x);
    } else {
      var n := |s| - 1;
      var p := StableSort.Insert(Better, s[..n], x);
      FrontElements(s);
      assert NoConflict(Elements(s[..n]) + {x});
      InsertKeepsSorted(s[..n], x);
      InsertElements(s[..n], x);
      LastBeatsNone(s, x, p);
    }
  }

  lemma LastBeatsNone(s: seq<StatsTactic>, x: StatsTactic, p: seq<StatsTactic>)
    requires s != [] && NoConflict(Elements(s) + {x}) && StableSort.Sorted(Better, s) && Better(x, s[|s| - 1])
    requires Elements(p) == Elements(s[..|s| - 1]) + {x}
    ensures forall i :: 0 <= i < |p| ==> !Better(s[|s| - 1], p[i])
  {
    hide Better;
    var n := |s| - 1;
    forall i | 0 <= i < |p|
      ensures !Better(s[n], p[i])
    {
      assert p[i] in Elements(p);
      if p[i] != x {
        var k :| 0 <= k < n && s[..n][k] == p[i];
        assert !Better(s[n], s[k]);
      }
    }
  }

  lemma {:induction false} SortSortsWithoutConflict(s: seq<StatsTactic>)
    requires NoConflict(Elements(s))
    ensures StableSort.Sorted(Better, StableSort.Sort(Better, s))
  {
    hide Better, StableSort.Insert;
    if s != [] {
      var n := |s| - 1;
      FrontElements(s);
      SortElements(s[..n]);
      SortSortsWithoutConflict(s[..n]);
      InsertKeepsSorted(StableSort.Sort(Better, s[..n]), s[n]);
    }
  }

  /** Sorting sorts exactly the lists in which no two records beat each other. */
  lemma SortsExactlyWithoutConflict(s: seq<StatsTactic>)
    ensures StableSort.Sorted(Better, StableSort.Sort(Better, s)) <==> NoConflict(Elements(s))
  {
    hide StableSort.Sort;
    var sorted := StableSort.Sort(Better, s);
    SortElements(s);
    if NoConflict(Elements(s)) {
      SortSortsWithoutConflict(s);
    } else {
      var x, y :| x in Elements(s) && y in Elements(s) && Better(x, y) && Better(y, x);
      assert x in Elements(sorted) && y in Elements(sorted);
      var i :| 0 <= i < |sorted| && sorted[i] == x;
      var j :| 0 <= j < |sorted| && sorted[j] == y;
      assert i != j;
    }
  }

  // ----- the sort of the library

  /** Lists up to this length are sorted by insertion. */
  const INSERTION_SORT_BLOCK: nat := 20

  /** What Go's sort.SliceStable does with the comparator: always a permutation; by insertion for a short
      list; and without a conflict the comparator orders the records, so there is one stable result. */
  ghost predicate SliceStable(s: seq<StatsTactic>, sorted: seq<StatsTactic>) {
    && multiset(sorted) == multiset(s)
    && (|s| <= INSERTION_SORT_BLOCK || NoConflict(Elements(s)) ==> sorted == StableSort.Sort(Better, s))
  }

  lemma SliceStableElements(s: seq<StatsTactic>, sorted: seq<StatsTactic>)
    requires SliceStable(s, sorted)
    ensures |sorted| == |s|
    ensures forall x {:trigger x in sorted} {:trigger x in s} :: x in sorted <==> x in s
  {
    hide Better;
    assert |multiset(sorted)| == |sorted| && |multiset(s)| == |s|;
    forall x: StatsTactic
      ensures x in sorted <==> x in s
    {
      assert x in sorted <==> x in multiset(sorted);
      assert x in s <==> x in multiset(s);
    }
  }

  /** Without a conflict, the records are sorted by success rate, and by each of the other two as well. */
  lemma SortedByRate(s: seq<StatsTactic>, sorted: seq<StatsTactic>, i: nat, j: nat)
    requires NoConflict(Elements(s)) && SliceStable(s, sorted) && i < j < |sorted|
    ensures SuccessRate(sorted[i]) >= SuccessRate(sorted[j])
    ensures sorted[i].countSuccess >= sorted[j].countSuccess
    ensures sorted[i].lastUpdated >= sorted[j].lastUpdated
  {
    SortSortsWithoutConflict(s);
    assert !Better(sorted[j], sorted[i]);
    NotBeaten(sorted[i], sorted[j]);
  }

  predicate DescendingRanks(r: seq<Rank>) {
    forall i, j :: 0 <= i < j < |r| ==> AtLeast(r[i], r[j])
  }

  lemma LowestIsLast(r: seq<Rank>, x: Rank)
    requires DescendingRanks(r) && x in r
    ensures AtLeast(x, r[|r| - 1])
  {
  }

  lemma WithoutAt<T>(s: seq<T>, k: nat)
    requires k < |s|
    ensures multiset(s[..k] + s[k + 1..]) == multiset(s) - multiset{s[k]}
    ensures s[k] in multiset(s)
  {
    assert s == s[..k] + [s[k]] + s[k + 1..];
  }

  lemma LastIsIn<T>(s: seq<T>, t: seq<T>)
    requires multiset(s) == multiset(t) && s != []
    ensures |t| == |s| && s[|s| - 1] in t && t[|t| - 1] in s
  {
    assert |multiset(s)| == |s| && |multiset(t)| == |t|;
    assert s[|s| - 1] in multiset(s) && t[|t| - 1] in multiset(t);
  }

  lemma LastRanksAgree(r: seq<Rank>, t: seq<Rank>)
    requires DescendingRanks(r) && DescendingRanks(t) && multiset(r) == multiset(t) && r != []
    ensures |t| == |r| && r[|r| - 1] == t[|r| - 1]
  {
    LastIsIn(r, t);
    LowestIsLast(r, t[|t| - 1]);
    LowestIsLast(t, r[|r| - 1]);
  }

  lemma DropLast<T>(s: seq<T>)
    requires s != []
    ensures multiset(s[..|s| - 1]) == multiset(s) - multiset{s[|s| - 1]}
    ensures s == s[..|s| - 1] + [s[|s| - 1]]
  {
    assert s[..|s| - 1] + s[|s|..] == s[..|s| - 1];
    WithoutAt(s, |s| - 1);
  }

  lemma DescendingFront(r: seq<Rank>)
    requires DescendingRanks(r) && r != []
    ensures DescendingRanks(r[..|r| - 1])
  {
  }

  lemma {:induction false} DescendingRanksAreUnique(r: seq<Rank>, t: seq<Rank>)
    requires DescendingRanks(r) && DescendingRanks(t) && multiset(r) == multiset(t)
    ensures r == t
    decreases |r|
  {
    hide *;
    if r == [] {
      assert |multiset(t)| == 0;
    } else {
      LastRanksAgree(r, t);
      DropLast(r);
      DropLast(t);
      DescendingFront(r);
      DescendingFront(t);
      DescendingRanksAreUnique(r[..|r| - 1], t[..|t| - 1]);
    }
  }

  /** Taking one record out takes one rank out. */
  lemma RanksWithout(s: seq<StatsTactic>, k: nat)
    requires k < |s|
    ensures multiset(Ranks(s)) == multiset(Ranks(s[..k] + s[k + 1..])) + multiset{RankOf(s[k])}
  {
    hide RankOf, Ranks;
    assert Ranks(s)[..k] + Ranks(s)[k + 1..] == Ranks(s[..k] + s[k + 1..]);
    WithoutAt(Ranks(s), k);
  }

  lemma {:induction false} RanksPermute(s: seq<StatsTactic>, t: seq<StatsTactic>)
    requires multiset(s) == multiset(t)
    ensures multiset(Ranks(s)) == multiset(Ranks(t))
    decreases |s|
  {
    hide RankOf, Ranks;
    if s == [] {
      assert |multiset(t)| == 0;
    } else {
      var n := |s| - 1;
      LastIsIn(s, t);
      var k :| 0 <= k < |t| && t[k] == s[n];
      WithoutAt(s, n);
      WithoutAt(t, k);
      RanksPermute(s[..n] + s[n + 1..], t[..k] + t[k + 1..]);
      RanksWithout(s, n);
      RanksWithout(t, k);
    }
  }

  /** Without a conflict, the ranks of the sorted records do not depend on the order in which the map was
      iterated. */
  lemma SortedRanksDoNotDependOnOrder(s: seq<StatsTactic>, t: seq<StatsTactic>, a: seq<StatsTactic>, b: seq<StatsTactic>)
    requires multiset(s) == multiset(t) && NoConflict(Elements(s))
    requires SliceStable(s, a) && SliceStable(t, b)
    ensures Ranks(a) == Ranks(b)
  {
    hide Better, StableSort.Sort;
    assert Elements(s) == Elements(t) by { SameElements(s, t); }
    SortedRanksDescend(s, a);
    SortedRanksDescend(t, b);
    RanksPermute(a, b);
    DescendingRanksAreUnique(Ranks(a), Ranks(b));
  }

  lemma SameElements(s: seq<StatsTactic>, t: seq<StatsTactic>)
    requires multiset(s) == multiset(t)
    ensures Elements(s) == Elements(t)
  {
    forall x: StatsTactic
      ensures x in s <==> x in t
    {
      assert x in s <==> x in multiset(s);
      assert x in t <==> x in multiset(t);
    }
  }

  lemma SortedRanksDescend(s: seq<StatsTactic>, sorted: seq<StatsTactic>)
    requires NoConflict(Elements(s)) && SliceStable(s, sorted)
    ensures DescendingRanks(Ranks(sorted))
  {
    hide Better, SuccessRate;
    forall i, j | 0 <= i < j < |sorted|
      ensures AtLeast(Ranks(sorted)[i], Ranks(sorted)[j])
    {
      SortedByRate(s, sorted, i, j);
    }
  }

  /** The call into the library. */
  method SortSliceStable(slice: array<StatsTactic>)
    modifies slice
    ensures SliceStable(old(slice[..]), slice[..])
  {
    hide Better;
    StableSort.SortPermutes(Better, slice[..]);
    StableSort.InsertionSort(Better, slice);
  }

  // ----- accepting and collecting

  function FilterSeq<T>(s: seq<T>, accept: T -> bool): seq<T> {
    if s == [] then []
    else FilterSeq(s[..|s| - 1], accept) + (if accept(s[|s| - 1]) then [s[|s| - 1]] else [])
  }

  lemma {:induction false} FilterSeqMembers<T>(s: seq<T>, accept: T -> bool, x: T)
    ensures x in FilterSeq(s, accept) <==> x in s && accept(x)
    ensures |FilterSeq(s, accept)| <= |s|
  {
    if s != [] {
      FilterSeqMembers(s[..|s| - 1], accept, x);
      assert s == s[..|s| - 1] + [s[|s| - 1]];
    }
  }

  lemma FilterSeqNothing<T>(accept: T -> bool)
    ensures FilterSeq([], accept) == []
  {
  }

  lemma {:induction false} FilterSeqCounts<T>(s: seq<T>, accept: T -> bool, x: T)
    ensures multiset(FilterSeq(s, accept))[x] == if accept(x) then multiset(s)[x] else 0
  {
    if s != [] {
      var n := |s| - 1;
      FilterSeqCounts(s[..n], accept, x);
      assert s == s[..n] + [s[n]];
    }
  }

  function NonNilRecords(s: seq<Option<StatsTactic>>): seq<StatsTactic> {
    if s == [] then []
    else
      var last := s[|s| - 1];
      NonNilRecords(s[..|s| - 1]) + (if last.Some? && last.value.tactic.Some? then [last.value] else [])
  }

  /** `output` are the accepted ones of the sorted records. */
  ghost predicate SortedAndAccepted(s: seq<StatsTactic>, accept: StatsTactic -> bool, output: seq<StatsTactic>) {
    exists sorted :: SliceStable(s, sorted) && output == FilterSeq(sorted, accept)
  }

  /** statsDefensivelySortTacticsByDescendingSuccessRateWithAcceptPredicate. */
  method SortAndAccept(input: seq<Option<StatsTactic>>, accept: StatsTactic -> bool)
      returns (output: seq<StatsTactic>, ghost sorted: seq<StatsTactic>)
    ensures SliceStable(NonNilRecords(input), sorted) && output == FilterSeq(sorted, accept)
    ensures SortedAndAccepted(NonNilRecords(input), accept, output)
  {
    hide SliceStable, NonNilRecords, FilterSeq;
    var work := FilterOutNil(input);
    var slice := new StatsTactic[|work|](k requires 0 <= k < |work| => work[k]);
    assert slice[..] == work;
    SortSliceStable(slice);
    sorted := slice[..];
    output := AcceptFrom(slice[..], accept);
  }

  method FilterOutNil(input: seq<Option<StatsTactic>>) returns (work: seq<StatsTactic>)
    ensures work == NonNilRecords(input)
  {
    work := [];
    var i := 0;
    while i < |input|
      invariant 0 <= i <= |input|
      invariant work == NonNilRecords(input[..i])
    {
      var t := input[i];
      assert input[..i + 1][..i] == input[..i];
      if t.Some? && t.value.tactic.Some? {
        work := work + [t.value];
      }
      i := i + 1;
    }
    assert input[..i] == input;
  }

  method AcceptFrom(sorted: seq<StatsTactic>, accept: StatsTactic -> bool) returns (output: seq<StatsTactic>)
    ensures output == FilterSeq(sorted, accept)
  {
    output := [];
    var i := 0;
    while i < |sorted|
      invariant 0 <= i <= |sorted|
      invariant output == FilterSeq(sorted[..i], accept)
    {
      assert sorted[..i + 1][..i] == sorted[..i];
      if accept(sorted[i]) {
        output := output + [sorted[i]];
      }
      i := i + 1;
    }
    assert sorted[..i] == sorted;
  }

  /** Sorting and filtering keeps exactly the accepted records, each as often as it was there. */
  lemma SortedAndAcceptedKeepsAccepted(s: seq<StatsTactic>, accept: StatsTactic -> bool, output: seq<StatsTactic>)
    requires SortedAndAccepted(s, accept, output)
    ensures multiset(output) == multiset(FilterSeq(s, accept))
  {
    hide Better;
    var sorted :| SliceStable(s, sorted) && output == FilterSeq(sorted, accept);
    forall x: StatsTactic
      ensures multiset(output)[x] == multiset(FilterSeq(s, accept))[x]
    {
      FilterSeqCounts(s, accept, x);
      FilterSeqCounts(sorted, accept, x);
    }
  }

  lemma AcceptedAreAccepted(s: seq<StatsTactic>, accept: StatsTactic -> bool)
    ensures forall i {:trigger FilterSeq(s, accept)[i]} :: 0 <= i < |FilterSeq(s, accept)| ==> accept(FilterSeq(s, accept)[i])
  {
    var r := FilterSeq(s, accept);
    forall i {:trigger r[i]} | 0 <= i < |r|
      ensures accept(r[i])
    {
      FilterSeqMembers(s, accept, r[i]);
    }
  }

  lemma SortedIsSorted(s: seq<StatsTactic>, sorted: seq<StatsTactic>)
    requires NoConflict(Elements(s)) && SliceStable(s, sorted)
    ensures StableSort.Sorted(Better, sorted)
  {
    SortSortsWithoutConflict(s);
  }

  lemma {:induction false} FilterKeepsSorted(s: seq<StatsTactic>, accept: StatsTactic -> bool)
    requires StableSort.Sorted(Better, s)
    ensures StableSort.Sorted(Better, FilterSeq(s, accept))
  {
    hide Better;
    if s != [] {
      var n := |s| - 1;
      var front := FilterSeq(s[..n], accept);
      FilterKeepsSorted(s[..n], accept);
      forall i | 0 <= i < |front|
        ensures !Better(s[n], front[i])
      {
        FilterSeqMembers(s[..n], accept, front[i]);
        var k :| 0 <= k < n && s[..n][k] == front[i];
        assert s[k] == front[i];
      }
    }
  }

  // ----- the policy that follows the statistics

  predicate Succeeded(r: StatsTactic) {
    r.tactic.Some? && r.countSuccess > 0
  }

  /** The tactics of the records that have one. */
  function TacticsIn(records: seq<StatsTactic>): seq<Tactic> {
    if records == [] then []
    else
      var last := records[|records| - 1];
      TacticsIn(records[..|records| - 1]) + (if last.tactic.Some? then [last.tactic.value] else [])
  }

  lemma {:induction false} TacticsInCount(records: seq<StatsTactic>)
    requires forall i {:trigger records[i]} :: 0 <= i < |records| ==> records[i].tactic.Some?
    ensures |TacticsIn(records)| == |records|
    ensures forall i {:trigger TacticsIn(records)[i]} :: 0 <= i < |records| ==> records[i].tactic == Some(TacticsIn(records)[i])
  {
    if records != [] {
      TacticsInCount(records[..|records| - 1]);
    }
  }

  /** Of the sorted successes each gives its tactic. */
  lemma SuccessesGiveTactics(records: seq<StatsTactic>, successes: seq<StatsTactic>)
    requires SortedAndAccepted(records, Succeeded, successes)
    ensures multiset(successes) == multiset(FilterSeq(records, Succeeded))
    ensures |TacticsIn(successes)| == |successes|
    ensures forall i {:trigger TacticsIn(successes)[i]} :: 0 <= i < |successes| ==>
              successes[i].tactic == Some(TacticsIn(successes)[i])
  {
    hide SliceStable, FilterSeq;
    SortedAndAcceptedKeepsAccepted(records, Succeeded, successes);
    var sorted :| SliceStable(records, sorted) && successes == FilterSeq(sorted, Succeeded);
    AcceptedAreAccepted(sorted, Succeeded);
    TacticsInCount(successes);
  }

  /** statsPolicyFilterStatsTactics: the tactics of exactly the well-formed records that succeeded. */
  method StatsPolicyFilterStatsTactics(tactics: seq<Option<StatsTactic>>, good: bool) returns (out: seq<Tactic>)
    ensures !good ==> out == []
    ensures good ==>
              exists successes :: SortedAndAccepted(NonNilRecords(tactics), Succeeded, successes) && out == TacticsIn(successes)
    ensures forall t :: t in out <==> good && exists r :: Some(r) in tactics && r.tactic == Some(t) && r.countSuccess > 0
  {
    hide SliceStable, NonNilRecords, SortedAndAccepted, FilterSeq;
    if !good {
      return [];
    }
    var onlySuccesses, sorted := SortAndAccept(tactics, Succeeded);
    AcceptedAreAccepted(sorted, Succeeded);
    out := TacticsOfRecords(onlySuccesses);
    forall t
      ensures t in out <==> exists r :: Some(r) in tactics && r.tactic == Some(t) && r.countSuccess > 0
    {
      SuggestedMembers(tactics, sorted, t);
    }
  }

  lemma {:induction false} NonNilMembers(s: seq<Option<StatsTactic>>, r: StatsTactic)
    ensures r in NonNilRecords(s) <==> Some(r) in s && r.tactic.Some?
  {
    if s != [] {
      var n := |s| - 1;
      NonNilMembers(s[..n], r);
      assert s == s[..n] + [s[n]];
    }
  }

  lemma {:induction false} TacticsInMembers(records: seq<StatsTactic>, t: Tactic)
    ensures t in TacticsIn(records) <==> exists r :: r in records && r.tactic == Some(t)
  {
    if records != [] {
      var n := |records| - 1;
      TacticsInMembers(records[..n], t);
      assert records == records[..n] + [records[n]];
    }
  }

  lemma SuggestedMembers(tactics: seq<Option<StatsTactic>>, sorted: seq<StatsTactic>, t: Tactic)
    requires SliceStable(NonNilRecords(tactics), sorted)
    ensures t in TacticsIn(FilterSeq(sorted, Succeeded))
            <==> exists r :: Some(r) in tactics && r.tactic == Some(t) && r.countSuccess > 0
  {
    hide NonNilRecords, FilterSeq, TacticsIn, SliceStable;
    var successes := FilterSeq(sorted, Succeeded);
    TacticsInMembers(successes, t);
    SliceStableElements(NonNilRecords(tactics), sorted);
    forall r
      ensures r in successes <==> Some(r) in tactics && r.tactic.Some? && r.countSuccess > 0
    {
      FilterSeqMembers(sorted, Succeeded, r);
      NonNilMembers(tactics, r);
    }
  }

  /** The loop whose assertion needs that only successes were accepted. */
  method TacticsOfRecords(records: seq<StatsTactic>) returns (out: seq<Tactic>)
    requires forall i {:trigger records[i]} :: 0 <= i < |records| ==> Succeeded(records[i])
    ensures out == TacticsIn(records)
  {
    out := [];
    var i := 0;
    while i < |records|
      invariant 0 <= i <= |records|
      invariant out == TacticsIn(records[..i])
    {
      assert records[..i + 1][..i] == records[..i];
      assert Succeeded(records[i]);
      out := out + [records[i].tactic.value];
      i := i + 1;
    }
    assert records[..i] == records;
  }
}
