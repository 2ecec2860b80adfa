/** What pruning the statistics keeps, in plain numbers (pkg/enginenetx/statsmanager.go). */
module StatsPrune {
  import opened Optional
  import opened Tactics
  import opened StatsTactics
  import opened StatsManager

  /** An entry that pruning considers: neither its key nor its record nor the record's tactic is missing, and it is
      less than seven days old. Times are in nanoseconds. */
  predicate Considered(m: TacticsMap, k: string, now: int) {
    && k in m && k != "" && m[k].Some? && m[k].value.tactic.Some?
    && now - m[k].value.lastUpdated < 604_800_000_000_000
  }

  lemma ConsideredIsFresh(m: TacticsMap, k: string, now: int)
    ensures Considered(m, k, now) <==> WellFormedEntry(m, k) && Fresh(m[k].value, now)
  {
  }

  /** No two positions hold records with one key. */
  ghost predicate DistinctKeys(s: seq<StatsTactic>) {
    && AllHaveTactics(s)
    && forall i, j :: 0 <= i < j < |s| ==> KeyAt(s, i) != KeyAt(s, j)
  }

  function KeyAt(s: seq<StatsTactic>, i: int): string {
    if 0 <= i < |s| && s[i].tactic.Some? then s[i].tactic.value.SummaryKey() else ""
  }

  lemma {:induction false} DistinctCountOnce(s: seq<StatsTactic>, r: StatsTactic)
    requires DistinctKeys(s)
    ensures multiset(s)[r] <= 1
  {
    hide Tactic.SummaryKey;
    if s != [] {
      var n := |s| - 1;
      assert s == s[..n] + [s[n]];
      assert forall i :: 0 <= i < n ==> KeyAt(s[..n], i) == KeyAt(s, i);
      assert AllHaveTactics(s[..n]);
      DistinctCountOnce(s[..n], r);
      forall i | 0 <= i < n
        ensures s[..n][i] != s[n]
      {
        assert KeyAt(s, i) != KeyAt(s, n);
      }
    }
  }

  lemma TwiceCountsTwo(s: seq<StatsTactic>, i: nat, j: nat)
    requires i < j < |s| && s[i] == s[j]
    ensures multiset(s)[s[i]] >= 2
  {
    assert s == s[..j] + [s[j]] + s[j + 1..];
    assert s[i] in s[..j];
  }

  /** The keys stay distinct however the records are sorted. */
  lemma DistinctKeysPermute(s: seq<StatsTactic>, t: seq<StatsTactic>)
    requires DistinctKeys(s) && multiset(s) == multiset(t)
    ensures DistinctKeys(t)
  {
    hide Tactic.SummaryKey;
    forall r | r in t
      ensures r.tactic.Some?
    {
      assert r in multiset(s);
    }
    forall i, j | 0 <= i < j < |t|
      ensures KeyAt(t, i) != KeyAt(t, j)
    {
      if KeyAt(t, i) == KeyAt(t, j) {
        assert t[i] in multiset(s) && t[j] in multiset(s);
        var a :| 0 <= a < |s| && s[a] == t[i];
        var b :| 0 <= b < |s| && s[b] == t[j];
        assert KeyAt(s, a) == KeyAt(s, b);
        assert a == b;
        TwiceCountsTwo(t, i, j);
        DistinctCountOnce(s, t[i]);
        assert false;
      }
    }
  }

  lemma {:induction false} DistinctKeysFilter(s: seq<StatsTactic>, accept: StatsTactic -> bool)
    requires DistinctKeys(s)
    ensures DistinctKeys(FilterSeq(s, accept))
  {
    hide Tactic.SummaryKey;
    if s != [] {
      var n := |s| - 1;
      var front := FilterSeq(s[..n], accept);
      assert forall i :: 0 <= i < n ==> KeyAt(s[..n], i) == KeyAt(s, i);
      assert s[n] in s;
      assert AllHaveTactics(s[..n]);
      DistinctKeysFilter(s[..n], accept);
      forall i | 0 <= i < |front|
        ensures KeyAt(front, i) != KeyAt(s, n)
      {
        FilterSeqMembers(s[..n], accept, front[i]);
        var k :| 0 <= k < n && s[..n][k] == front[i];
        assert KeyAt(s, k) == KeyAt(front, i);
      }
      assert KeyAt(s, n) == s[n].tactic.value.SummaryKey();
      OneMoreKey(front, s[n]);
      assert FilterSeq(s, accept) == if accept(s[n]) then front + [s[n]] else front;
    }
  }

  lemma OneMoreKey(s: seq<StatsTactic>, r: StatsTactic)
    requires DistinctKeys(s) && r.tactic.Some?
    requires forall i :: 0 <= i < |s| ==> KeyAt(s, i) != r.tactic.value.SummaryKey()
    ensures DistinctKeys(s + [r])
  {
    hide Tactic.SummaryKey;
    assert forall i :: 0 <= i < |s| ==> KeyAt(s + [r], i) == KeyAt(s, i);
  }

  lemma {:induction false} DistinctKeysSize(s: seq<StatsTactic>)
    requires DistinctKeys(s)
    ensures |ByKey(s)| == |s|
  {
    hide Tactic.SummaryKey;
    if s != [] {
      var n := |s| - 1;
      ByKeyStep(s);
      assert forall i :: 0 <= i < n ==> KeyAt(s[..n], i) == KeyAt(s, i);
      DistinctKeysSize(s[..n]);
      ByKeyMeaning(s[..n]);
      hide ByKey;
      forall k | k in ByKey(s[..n])
        ensures k != KeyOfRecord(s[n])
      {
        var i :| 0 <= i < n && s[..n][i] == ByKey(s[..n])[k].value;
        assert KeyAt(s, i) == k && KeyAt(s, n) == KeyOfRecord(s[n]);
      }
    }
  }

  lemma RecordsHaveDistinctKeys(m: TacticsMap, order: seq<string>)
    requires IterationOrder(m, order) && forall k {:trigger WellFormedEntry(m, k)} :: WellFormedEntry(m, k) ==> OwnKey(m, k)
    ensures DistinctKeys(RecordsAt(m, order))
  {
    hide Tactic.SummaryKey;
    var records := RecordsAt(m, order);
    forall i {:trigger order[i]} | 0 <= i < |order|
      ensures records[i].tactic.Some? && KeyAt(records, i) == order[i]
    {
      assert WellFormedEntry(m, order[i]);
    }
    forall i, j | 0 <= i < j < |records|
      ensures KeyAt(records, i) != KeyAt(records, j)
    {
      assert KeyAt(records, i) == order[i] && KeyAt(records, j) == order[j];
    }
  }

  /** When every entry is under its own key, a considered entry is dropped only if ten others are kept. */
  lemma OnlyExcessIsDropped(m: TacticsMap, now: int, pruned: TacticsMap, k: string)
    requires PrunedDomain(m, now, pruned)
    requires forall j {:trigger WellFormedEntry(m, j)} :: WellFormedEntry(m, j) ==> OwnKey(m, j)
    requires Considered(m, k, now)
    ensures k in pruned || |pruned| == 10
  {
    hide Tactic.SummaryKey, SliceStable, RecordsAt, ByKey, FilterSeq, Fresh;
    ConsideredIsFresh(m, k, now);
    var order, sorted :| PrunedFrom(m, now, pruned, order, sorted);
    RecordsHaveDistinctKeys(m, order);
    SameRecords(RecordsAt(m, order), sorted);
    DistinctKeysPermute(RecordsAt(m, order), sorted);
    var accepted := FilterSeq(sorted, r => Fresh(r, now));
    DistinctKeysFilter(sorted, r => Fresh(r, now));
    SortedRecordsMembers(m, order, sorted);
    FilterSeqMembers(sorted, r => Fresh(r, now), m[k].value);
    ByKeyMeaning(Kept(sorted, now));
    if |accepted| <= 10 {
      assert m[k].value in Kept(sorted, now) && KeyOfRecord(m[k].value) == k;
    } else {
      assert forall i :: 0 <= i < 10 ==> KeyAt(accepted[..10], i) == KeyAt(accepted, i);
      DistinctKeysSize(accepted[..10]);
    }
  }

  lemma SameRecords(s: seq<StatsTactic>, sorted: seq<StatsTactic>)
    requires SliceStable(s, sorted)
    ensures multiset(s) == multiset(sorted)
  {
  }

  /** Pruning a container keeps, of each domain with a name, at most ten entries under a week old, each as it was and
      under its tactic's own key; it drops the domains without such entries; and when all entries are under their own
      keys, it drops such an entry only if ten are kept. */
  lemma PruneKeepsTenOfTheWeek(input: StatsContainer, clock: Clock, output: StatsContainer, d: string)
    requires PrunedContainer(input, clock, output)
    ensures output.version == 5
    ensures d in output.domainEndpoints <==> d != "" && exists k :: Considered(TacticsOf(input, d), k, clock(d))
    ensures d in output.domainEndpoints ==>
              && 1 <= |TacticsOf(output, d)| <= 10
              && forall k :: k in TacticsOf(output, d) ==>
                   && Considered(TacticsOf(output, d), k, clock(d))
                   && TacticsOf(output, d)[k].value.tactic.value.SummaryKey() == k
                   && exists k' :: Considered(TacticsOf(input, d), k', clock(d)) && TacticsOf(input, d)[k'] == TacticsOf(output, d)[k]
    ensures forall k :: (forall j {:trigger OwnKeyed(TacticsOf(input, d), j)} :: OwnKeyed(TacticsOf(input, d), j))
                        && d != "" && Considered(TacticsOf(input, d), k, clock(d)) && k !in TacticsOf(output, d)
                        ==> |TacticsOf(output, d)| == 10
  {
    hide PrunedDomain, Fresh, Tactic.SummaryKey, WellFormed;
    PruneMeaning(input, clock, output);
    var m, m' := TacticsOf(input, d), TacticsOf(output, d);
    forall k
      ensures Considered(m, k, clock(d)) <==> WellFormedEntry(m, k) && Fresh(m[k].value, clock(d))
    {
      ConsideredIsFresh(m, k, clock(d));
    }
    if d in output.domainEndpoints {
      forall k | k in m'
        ensures Considered(m', k, clock(d)) && m'[k].value.tactic.value.SummaryKey() == k
      {
        KeptIsConsidered(output, d, k, clock(d));
      }
    }
    if d != "" {
      forall k | (forall j {:trigger OwnKeyed(m, j)} :: OwnKeyed(m, j)) && Considered(m, k, clock(d)) && k !in m'
        ensures |m'| == 10
      {
        assert forall j :: WellFormedEntry(m, j) ==> OwnKeyed(m, j);
        OnlyExcessIsDropped(m, clock(d), m', k);
      }
    }
  }

  /** A record with a tactic is under the tactic's key. */
  predicate OwnKeyed(m: TacticsMap, k: string) {
    k in m && k != "" && m[k].Some? && m[k].value.tactic.Some? ==> m[k].value.tactic.value.SummaryKey() == k
  }

  lemma KeptIsConsidered(output: StatsContainer, d: string, k: string, now: int)
    requires WellFormed(output) && d in output.domainEndpoints && k in TacticsOf(output, d)
    requires Fresh(TacticsOf(output, d)[k].value, now)
    ensures Considered(TacticsOf(output, d), k, now) && TacticsOf(output, d)[k].value.tactic.value.SummaryKey() == k
  {
    hide Tactic.SummaryKey;
    assert OwnKey(TacticsOf(output, d), k);
    KeyIsNotEmpty(TacticsOf(output, d)[k].value.tactic.value);
  }
}
