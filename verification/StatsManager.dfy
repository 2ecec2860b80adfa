/** Statistics about dialing tactics (pkg/enginenetx/statsmanager.go). */
module StatsManager {
  import opened Optional
  import opened Tactics
  import opened HttpsDialer
  import opened StatsTactics

  type TacticsMap = map<string, Option<StatsTactic>>

  /** The tactics map of a decoded document may be nil. */
  datatype StatsDomainEndpoint = StatsDomainEndpoint(tactics: Option<TacticsMap>)

  datatype StatsContainer = StatsContainer(domainEndpoints: map<string, Option<StatsDomainEndpoint>>, version: int)

  const STATS_CONTAINER_VERSION: int := 5
  const ONE_WEEK: int := 7 * 24 * 3600 * 1_000_000_000
  const MAX_ENTRIES_PER_DOMAIN_ENDPOINT: nat := 10

  const NEW_CONTAINER := StatsContainer(map[], STATS_CONTAINER_VERSION)

  // ----- pruning

  predicate WellFormedEntry(m: TacticsMap, k: string) {
    k in m && k != "" && m[k].Some? && m[k].value.tactic.Some?
  }

  predicate Fresh(r: StatsTactic, now: int) {
    now - r.lastUpdated < ONE_WEEK
  }

  /** An order in which the well-formed entries of a map may be iterated. */
  ghost predicate IterationOrder(m: TacticsMap, order: seq<string>) {
    && (forall i, j :: 0 <= i < j < |order| ==> order[i] != order[j])
    && WellFormedAt(m, order)
    && (forall k :: WellFormedEntry(m, k) ==> k in order)
  }

  predicate WellFormedAt(m: TacticsMap, order: seq<string>) {
    forall i :: 0 <= i < |order| ==> WellFormedEntry(m, order[i])
  }

  function RecordsAt(m: TacticsMap, order: seq<string>): (r: seq<StatsTactic>)
    requires WellFormedAt(m, order)
    ensures |r| == |order|
    ensures forall i {:trigger r[i]} :: 0 <= i < |order| ==> r[i] == m[order[i]].value
  {
    if order == [] then []
    else RecordsAt(m, order[..|order| - 1]) + [m[order[|order| - 1]].value]
  }

  function Cut(s: seq<StatsTactic>): seq<StatsTactic> {
    if |s| > MAX_ENTRIES_PER_DOMAIN_ENDPOINT then s[..MAX_ENTRIES_PER_DOMAIN_ENDPOINT] else s
  }

  predicate AllHaveTactics(s: seq<StatsTactic>) {
    forall r :: r in s ==> r.tactic.Some?
  }

  /** The records under their tactics' own keys; of equal keys the last record wins. */
  function ByKey(s: seq<StatsTactic>): TacticsMap
    requires AllHaveTactics(s)
  {
    if s == [] then map[]
    else
      var last := s[|s| - 1];
      assert AllHaveTactics(s[..|s| - 1]);
      ByKey(s[..|s| - 1])[last.tactic.value.SummaryKey() := Some(last)]
  }

  /** The first ten fresh ones of the sorted records. */
  function Kept(sorted: seq<StatsTactic>, now: int): seq<StatsTactic> {
    Cut(FilterSeq(sorted, r => Fresh(r, now)))
  }

  /** The records of a map as the sort left them, from some iteration order. */
  ghost predicate SortedRecords(m: TacticsMap, order: seq<string>, sorted: seq<StatsTactic>) {
    IterationOrder(m, order) && SliceStable(RecordsAt(m, order), sorted)
  }

  lemma SortedRecordsMembers(m: TacticsMap, order: seq<string>, sorted: seq<StatsTactic>)
    requires SortedRecords(m, order, sorted)
    ensures |sorted| == |order|
    ensures forall r {:trigger r in sorted} :: r in sorted ==> exists k :: k in order && WellFormedEntry(m, k) && m[k] == Some(r)
    ensures forall k {:trigger WellFormedEntry(m, k)} :: WellFormedEntry(m, k) ==> m[k].value in sorted
  {
    var records := RecordsAt(m, order);
    SliceStableElements(records, sorted);
    hide SliceStable;
    forall r | r in sorted
      ensures exists k :: k in order && WellFormedEntry(m, k) && m[k] == Some(r)
    {
      assert r in records;
      var i :| 0 <= i < |records| && records[i] == r;
      assert order[i] in order && m[order[i]] == Some(r);
    }
    forall k | WellFormedEntry(m, k)
      ensures m[k].value in sorted
    {
      assert k in order;
      var i :| 0 <= i < |order| && order[i] == k;
      assert records[i] == m[k].value;
      assert m[k].value in records;
    }
  }

  lemma KeptMembers(sorted: seq<StatsTactic>, now: int)
    ensures |Kept(sorted, now)| <= MAX_ENTRIES_PER_DOMAIN_ENDPOINT && |Kept(sorted, now)| <= |sorted|
    ensures forall r {:trigger r in Kept(sorted, now)} :: r in Kept(sorted, now) ==> Fresh(r, now) && r in sorted
    ensures forall r {:trigger r in sorted} :: r in sorted && Fresh(r, now) ==>
              Kept(sorted, now) != [] && (|sorted| <= MAX_ENTRIES_PER_DOMAIN_ENDPOINT ==> r in Kept(sorted, now))
  {
    hide Fresh, FilterSeq;
    var accept := (r: StatsTactic) => Fresh(r, now);
    var accepted := FilterSeq(sorted, accept);
    if sorted != [] {
      FilterSeqMembers(sorted, accept, sorted[0]);
    } else {
      FilterSeqNothing(accept);
    }
    forall r: StatsTactic
      ensures r in accepted <==> r in sorted && Fresh(r, now)
    {
      FilterSeqMembers(sorted, accept, r);
    }
    forall r | r in Kept(sorted, now)
      ensures r in accepted
    {
    }
  }

  /** `order` is an iteration order and `sorted` what the sort made of it. */
  ghost predicate PrunedFrom(m: TacticsMap, now: int, pruned: TacticsMap, order: seq<string>, sorted: seq<StatsTactic>) {
    && SortedRecords(m, order, sorted)
    && AllHaveTactics(Kept(sorted, now)) && pruned == ByKey(Kept(sorted, now))
  }

  ghost predicate PrunedDomain(m: TacticsMap, now: int, pruned: TacticsMap) {
    exists order, sorted :: PrunedFrom(m, now, pruned, order, sorted)
  }

  function KeyOfRecord(r: StatsTactic): string
    requires r.tactic.Some?
  {
    r.tactic.value.SummaryKey()
  }

  lemma ByKeyStep(s: seq<StatsTactic>)
    requires AllHaveTactics(s) && s != []
    ensures
      var n := |s| - 1;
      && AllHaveTactics(s[..n]) && s[n].tactic.Some?
      && ByKey(s) == ByKey(s[..n])[KeyOfRecord(s[n]) := Some(s[n])]
      && forall r :: r in s <==> r in s[..n] || r == s[n]
  {
    hide Tactic.SummaryKey;
    assert s == s[..|s| - 1] + [s[|s| - 1]];
    assert s[|s| - 1] in s;
  }

  lemma {:induction false} ByKeyMeaning(s: seq<StatsTactic>)
    requires AllHaveTactics(s)
    ensures forall k {:trigger ByKey(s)[k]} :: k in ByKey(s) ==>
              ByKey(s)[k].Some? && ByKey(s)[k].value in s && ByKey(s)[k].value.tactic.Some? && KeyOfRecord(ByKey(s)[k].value) == k
    ensures forall r {:trigger r in s} :: r in s ==> r.tactic.Some? && KeyOfRecord(r) in ByKey(s)
    ensures |ByKey(s)| <= |s|
  {
    hide KeyOfRecord;
    if s != [] {
      var n := |s| - 1;
      ByKeyStep(s);
      hide ByKey;
      ByKeyMeaning(s[..n]);
    }
  }

  lemma NonNilRecordsAppend(s: seq<Option<StatsTactic>>, r: StatsTactic)
    requires r.tactic.Some?
    ensures NonNilRecords(s + [Some(r)]) == NonNilRecords(s) + [r]
  {
    assert (s + [Some(r)])[..|s|] == s;
  }

  lemma RecordsAtAppend(m: TacticsMap, order: seq<string>, k: string)
    requires WellFormedAt(m, order) && WellFormedEntry(m, k)
    ensures WellFormedAt(m, order + [k])
    ensures RecordsAt(m, order + [k]) == RecordsAt(m, order) + [m[k].value]
  {
    assert WellFormedAt(m, order + [k]);
    assert (order + [k])[..|order|] == order;
  }

  /** The well-formed records of a map, in some iteration order. */
  method CollectWellFormed(m: TacticsMap) returns (tactics: seq<Option<StatsTactic>>, ghost order: seq<string>)
    ensures IterationOrder(m, order)
    ensures NonNilRecords(tactics) == RecordsAt(m, order)
  {
    tactics, order := [], [];
    var keys := m.Keys;
    while keys != {}
      invariant keys <= m.Keys
      invariant forall i, j :: 0 <= i < j < |order| ==> order[i] != order[j]
      invariant forall i :: 0 <= i < |order| ==> order[i] !in keys
      invariant WellFormedAt(m, order)
      invariant forall k :: WellFormedEntry(m, k) ==> k in keys || k in order
      invariant NonNilRecords(tactics) == RecordsAt(m, order)
      decreases keys
    {
      var summary :| summary in keys;
      keys := keys - {summary};
      var tactic := m[summary];
      if summary == "" || tactic.None? || tactic.value.tactic.None? {
        continue;
      }
      NonNilRecordsAppend(tactics, tactic.value);
      RecordsAtAppend(m, order, summary);
      tactics := tactics + [tactic];
      order := order + [summary];
    }
  }

  method IndexByKey(kept: seq<StatsTactic>) returns (result: TacticsMap)
    requires AllHaveTactics(kept)
    ensures result == ByKey(kept)
  {
    hide Tactic.SummaryKey;
    result := map[];
    var i := 0;
    while i < |kept|
      invariant 0 <= i <= |kept|
      invariant AllHaveTactics(kept[..i])
      invariant result == ByKey(kept[..i])
    {
      assert kept[i] in kept;
      assert kept[..i + 1] == kept[..i] + [kept[i]];
      assert kept[..i + 1][..i] == kept[..i];
      result := result[kept[i].tactic.value.SummaryKey() := Some(kept[i])];
      i := i + 1;
    }
    assert kept[..i] == kept;
  }

  method StatsDomainEndpointPruneEntries(input: StatsDomainEndpoint, now: int) returns (output: StatsDomainEndpoint)
    ensures output.tactics.Some?
    ensures PrunedDomain(input.tactics.UnwrapOr(map[]), now, output.tactics.value)
  {
    hide ByKey, SliceStable, SortedAndAccepted, NonNilRecords, RecordsAt, FilterSeq, Fresh;
    var m := input.tactics.UnwrapOr(map[]);
    ghost var order, sorted;
    var tactics, kept;
    tactics, order := CollectWellFormed(m);
    kept, sorted := SortAndAccept(tactics, r => Fresh(r, now));
    if |kept| > MAX_ENTRIES_PER_DOMAIN_ENDPOINT {
      kept := kept[..MAX_ENTRIES_PER_DOMAIN_ENDPOINT];
    }
    assert kept == Kept(sorted, now);
    KeptHaveTactics(m, order, sorted, now);
    var result := IndexByKey(kept);
    output := StatsDomainEndpoint(Some(result));
    assert PrunedFrom(m, now, result, order, sorted);
  }

  lemma KeptHaveTactics(m: TacticsMap, order: seq<string>, sorted: seq<StatsTactic>, now: int)
    requires SortedRecords(m, order, sorted)
    ensures AllHaveTactics(Kept(sorted, now))
  {
    hide SortedRecords, Kept;
    SortedRecordsMembers(m, order, sorted);
    KeptMembers(sorted, now);
  }

  /** Whether pruning looks at a domain at all. */
  predicate Eligible(c: StatsContainer, d: string) {
    && d in c.domainEndpoints && d != "" && c.domainEndpoints[d].Some?
    && c.domainEndpoints[d].value.tactics.Some? && c.domainEndpoints[d].value.tactics.value != map[]
  }

  function TacticsOf(c: StatsContainer, d: string): TacticsMap {
    if d in c.domainEndpoints && c.domainEndpoints[d].Some? then c.domainEndpoints[d].value.tactics.UnwrapOr(map[])
    else map[]
  }

  /** What the clock shows when a domain is pruned: it is read once for each. */
  type Clock = string -> int

  ghost predicate PrunedContainer(input: StatsContainer, clock: Clock, output: StatsContainer) {
    && output.version == STATS_CONTAINER_VERSION
    && (forall d :: d in output.domainEndpoints ==>
          && Eligible(input, d)
          && Eligible(output, d)
          && PrunedDomain(TacticsOf(input, d), clock(d), TacticsOf(output, d)))
    && (forall d :: Eligible(input, d) && d !in output.domainEndpoints ==> PrunedDomain(TacticsOf(input, d), clock(d), map[]))
  }

  method StatsContainerPruneEntries(input: StatsContainer, clock: Clock) returns (output: StatsContainer)
    ensures PrunedContainer(input, clock, output)
  {
    hide PrunedDomain;
    output := NEW_CONTAINER;
    var keys := input.domainEndpoints.Keys;
    while keys != {}
      invariant keys <= input.domainEndpoints.Keys
      invariant output.version == STATS_CONTAINER_VERSION
      invariant forall d :: d in output.domainEndpoints ==>
        && d !in keys && Eligible(input, d) && Eligible(output, d)
        && PrunedDomain(TacticsOf(input, d), clock(d), TacticsOf(output, d))
      invariant forall d :: Eligible(input, d) && d !in keys && d !in output.domainEndpoints ==>
        PrunedDomain(TacticsOf(input, d), clock(d), map[])
      decreases keys
    {
      var domainEpnt :| domainEpnt in keys;
      keys := keys - {domainEpnt};
      var inputStats := input.domainEndpoints[domainEpnt];
      if domainEpnt == "" || inputStats.None? || inputStats.value.tactics.UnwrapOr(map[]) == map[] {
        continue;
      }
      var prunedStats := StatsDomainEndpointPruneEntries(inputStats.value, clock(domainEpnt));
      if prunedStats.tactics.value == map[] {
        continue;
      }
      output := output.(domainEndpoints := output.domainEndpoints[domainEpnt := Some(prunedStats)]);
    }
  }

  // ----- what pruning guarantees, whatever was on disk

  /** No nil anywhere, and every record is stored under its tactic's own key. */
  predicate WellFormed(c: StatsContainer) {
    && c.version == STATS_CONTAINER_VERSION
    && forall d :: d in c.domainEndpoints ==>
         && c.domainEndpoints[d].Some? && c.domainEndpoints[d].value.tactics.Some?
         && forall k {:trigger TacticsOf(c, d)[k]} :: k in TacticsOf(c, d) ==> OwnKey(TacticsOf(c, d), k)
  }

  predicate OwnKey(m: TacticsMap, k: string)
    requires k in m
  {
    m[k].Some? && m[k].value.tactic.Some? && m[k].value.tactic.value.SummaryKey() == k
  }

  lemma PrunedDomainMeaning(m: TacticsMap, now: int, pruned: TacticsMap)
    requires PrunedDomain(m, now, pruned)
    ensures |pruned| <= MAX_ENTRIES_PER_DOMAIN_ENDPOINT
    ensures forall k :: k in pruned ==>
              && OwnKey(pruned, k) && Fresh(pruned[k].value, now)
              && exists k' :: WellFormedEntry(m, k') && m[k'] == pruned[k]
    ensures pruned == map[] <==> forall k :: WellFormedEntry(m, k) ==> !Fresh(m[k].value, now)
  {
    hide Tactic.SummaryKey, Fresh, Kept, SortedRecords;
    var order, sorted :| PrunedFrom(m, now, pruned, order, sorted);
    SortedRecordsMembers(m, order, sorted);
    KeptMembers(sorted, now);
    ByKeyMeaning(Kept(sorted, now));
    if Kept(sorted, now) != [] {
      var r := Kept(sorted, now)[0];
      assert r in Kept(sorted, now);
    }
  }

  /** When no two well-formed records beat each other, a fresh record that is dropped is not better than any
      record that is kept, unless a record with its own key is kept. */
  lemma PruneKeepsTheBest(m: TacticsMap, now: int, pruned: TacticsMap, k: string, kept: string)
    requires PrunedDomain(m, now, pruned)
    requires NoConflict(set k | k in m && WellFormedEntry(m, k) :: m[k].value)
    requires WellFormedEntry(m, k) && Fresh(m[k].value, now) && kept in pruned && pruned[kept].Some?
    ensures !Better(m[k].value, pruned[kept].value) || KeyOfRecord(m[k].value) in pruned
  {
    hide Better, Fresh, SliceStable, RecordsAt, ByKey, FilterSeq, KeyOfRecord, Tactic.SummaryKey;
    var order, sorted :| PrunedFrom(m, now, pruned, order, sorted);
    SortedRecordsMembers(m, order, sorted);
    ByKeyMeaning(Kept(sorted, now));
    var accepted := FilterSeq(sorted, r => Fresh(r, now));
    FilterSeqMembers(sorted, r => Fresh(r, now), m[k].value);
    var i :| 0 <= i < |accepted| && accepted[i] == m[k].value;
    var j :| 0 <= j < |Kept(sorted, now)| && Kept(sorted, now)[j] == pruned[kept].value;
    if i < MAX_ENTRIES_PER_DOMAIN_ENDPOINT {
      assert Kept(sorted, now)[i] in Kept(sorted, now);
    } else {
      RecordsWithoutConflict(m, order);
      SortedIsSorted(RecordsAt(m, order), sorted);
      FilterKeepsSorted(sorted, r => Fresh(r, now));
      assert accepted[j] == pruned[kept].value;
    }
  }

  lemma RecordsWithoutConflict(m: TacticsMap, order: seq<string>)
    requires IterationOrder(m, order) && NoConflict(set k | k in m && WellFormedEntry(m, k) :: m[k].value)
    ensures NoConflict(Elements(RecordsAt(m, order)))
  {
    hide Better;
    var all := set k | k in m && WellFormedEntry(m, k) :: m[k].value;
    var records := RecordsAt(m, order);
    forall x | x in Elements(records)
      ensures x in all
    {
      var i :| 0 <= i < |records| && records[i] == x;
      assert WellFormedEntry(m, order[i]);
    }
  }

  /** After pruning nothing is nil, and every domain has one to ten records, each under a week old,
      under its own key, and equal to a record that was there before. A domain is kept exactly when
      it has a well-formed fresh record. */
  lemma PruneMeaning(input: StatsContainer, clock: Clock, output: StatsContainer)
    requires PrunedContainer(input, clock, output)
    ensures WellFormed(output)
    ensures forall d :: d in output.domainEndpoints ==> 1 <= |TacticsOf(output, d)| <= MAX_ENTRIES_PER_DOMAIN_ENDPOINT
    ensures forall d, k :: d in output.domainEndpoints && k in TacticsOf(output, d) ==>
              && Fresh(TacticsOf(output, d)[k].value, clock(d))
              && exists k' :: WellFormedEntry(TacticsOf(input, d), k') && TacticsOf(input, d)[k'] == TacticsOf(output, d)[k]
    ensures forall d :: d in output.domainEndpoints <==>
              Eligible(input, d) && exists k :: WellFormedEntry(TacticsOf(input, d), k) && Fresh(TacticsOf(input, d)[k].value, clock(d))
  {
    hide PrunedDomain, Fresh, Tactic.SummaryKey;
    forall d | d in output.domainEndpoints
      ensures
        && 1 <= |TacticsOf(output, d)| <= MAX_ENTRIES_PER_DOMAIN_ENDPOINT
        && (forall k :: k in TacticsOf(output, d) ==>
              && OwnKey(TacticsOf(output, d), k)
              && Fresh(TacticsOf(output, d)[k].value, clock(d))
              && exists k' :: WellFormedEntry(TacticsOf(input, d), k') && TacticsOf(input, d)[k'] == TacticsOf(output, d)[k])
        && (exists k :: WellFormedEntry(TacticsOf(input, d), k) && Fresh(TacticsOf(input, d)[k].value, clock(d)))
    {
      PrunedDomainMeaning(TacticsOf(input, d), clock(d), TacticsOf(output, d));
    }
    forall d | Eligible(input, d) && d !in output.domainEndpoints
      ensures forall k :: WellFormedEntry(TacticsOf(input, d), k) ==> !Fresh(TacticsOf(input, d)[k].value, clock(d))
    {
      PrunedDomainMeaning(TacticsOf(input, d), clock(d), map[]);
    }
  }

  lemma {:induction false} DistinctFits(order: seq<string>, keys: set<string>)
    requires forall i, j :: 0 <= i < j < |order| ==> order[i] != order[j]
    requires forall i :: 0 <= i < |order| ==> order[i] in keys
    ensures |order| <= |keys|
  {
    if order != [] {
      var n := |order| - 1;
      DistinctFits(order[..n], keys - {order[n]});
    }
  }

  /** A map of at most ten entries that are all well formed, fresh and under their own keys. */
  ghost predicate Tidy(m: TacticsMap, now: int) {
    && |m| <= MAX_ENTRIES_PER_DOMAIN_ENDPOINT
    && forall k {:trigger m[k]} :: k in m ==> WellFormedEntry(m, k) && OwnKey(m, k) && Fresh(m[k].value, now)
  }

  lemma TidyIsKept(m: TacticsMap, now: int, pruned: TacticsMap)
    requires Tidy(m, now) && PrunedDomain(m, now, pruned)
    ensures forall k :: k in m ==> k in pruned
  {
    hide Tactic.SummaryKey, Fresh, Kept, SliceStable, ByKey;
    var order, sorted :| PrunedFrom(m, now, pruned, order, sorted);
    DistinctFits(order, m.Keys);
    SortedRecordsMembers(m, order, sorted);
    hide SortedRecords;
    KeptMembers(sorted, now);
    ByKeyMeaning(Kept(sorted, now));
    forall k | k in m
      ensures k in pruned
    {
      assert m[k].value in sorted && KeyOfRecord(m[k].value) == k;
    }
  }

  lemma PruneDomainTwice(m: TacticsMap, now: int, once: TacticsMap, twice: TacticsMap)
    requires PrunedDomain(m, now, once) && PrunedDomain(once, now, twice)
    ensures twice == once
  {
    hide Tactic.SummaryKey, Fresh, PrunedDomain;
    PrunedDomainMeaning(m, now, once);
    PrunedDomainMeaning(once, now, twice);
    forall k {:trigger once[k]} | k in once
      ensures WellFormedEntry(once, k)
    {
      KeyIsNotEmpty(once[k].value.tactic.value);
    }
    TidyIsKept(once, now, twice);
    forall k | k in twice
      ensures k in once && twice[k] == once[k]
    {
      var k' :| WellFormedEntry(once, k') && once[k'] == twice[k];
      assert OwnKey(once, k') && OwnKey(twice, k);
    }
  }

  lemma KeyIsNotEmpty(t: Tactic)
    ensures t.SummaryKey() != ""
  {
    assert |t.SummaryKey()| > 0;
  }

  lemma PrunedStaysEligible(input: StatsContainer, clock: Clock, once: StatsContainer, twice: StatsContainer)
    requires PrunedContainer(input, clock, once) && PrunedContainer(once, clock, twice)
    ensures forall d :: d in once.domainEndpoints ==> Eligible(once, d) && TacticsOf(once, d) != map[]
    ensures forall d :: d in twice.domainEndpoints ==> Eligible(twice, d) && d in once.domainEndpoints
  {
    hide PrunedDomain;
  }

  /** Pruning twice changes nothing while the clock stands still. */
  lemma PruneIsIdempotent(input: StatsContainer, clock: Clock, once: StatsContainer, twice: StatsContainer)
    requires PrunedContainer(input, clock, once) && PrunedContainer(once, clock, twice)
    ensures twice == once
  {
    hide PrunedDomain, Fresh, OwnKey, WellFormedEntry;
    PrunedStaysEligible(input, clock, once, twice);
    forall d | d in once.domainEndpoints
      ensures d in twice.domainEndpoints && twice.domainEndpoints[d] == once.domainEndpoints[d]
    {
      if d !in twice.domainEndpoints {
        PruneDomainTwice(TacticsOf(input, d), clock(d), TacticsOf(once, d), map[]);
      } else {
        PruneDomainTwice(TacticsOf(input, d), clock(d), TacticsOf(once, d), TacticsOf(twice, d));
      }
    }
    assert once.domainEndpoints.Keys == twice.domainEndpoints.Keys;
  }

  // ----- loading

  /** `stored` is the decoded document, if the store has one that decodes. */
  method LoadStatsContainer(stored: Option<StatsContainer>, clock: Clock) returns (r: Option<StatsContainer>)
    ensures r.Some? <==> stored.Some? && stored.value.version == STATS_CONTAINER_VERSION
    ensures r.Some? ==> PrunedContainer(stored.value, clock, r.value)
  {
    if stored.None? || stored.value.version != STATS_CONTAINER_VERSION {
      return None;
    }
    var pruned := StatsContainerPruneEntries(stored.value, clock);
    r := Some(pruned);
  }

  // ----- records and events

  datatype Key = Key(endpoint: string, summary: string)

  function KeyOf(t: Tactic): Key {
    Key(t.DomainEndpointKey(), t.SummaryKey())
  }

  /** The record under a key, if there is one. */
  function Lookup(c: StatsContainer, key: Key): Option<StatsTactic> {
    var m := TacticsOf(c, key.endpoint);
    if key.summary in m then m[key.summary] else None
  }

  function Store(c: StatsContainer, key: Key, r: StatsTactic): StatsContainer {
    var m := TacticsOf(c, key.endpoint)[key.summary := Some(r)];
    c.(domainEndpoints := c.domainEndpoints[key.endpoint := Some(StatsDomainEndpoint(Some(m)))])
  }

  function NewRecord(t: Tactic): StatsTactic {
    StatsTactic(0, 0, 0, 0, 0, 0, 0, Some(map[]), Some(map[]), Some(map[]), 0, Some(t))
  }

  function Increment(h: Histogram, value: string): Histogram {
    var m := h.UnwrapOr(map[]);
    Some(m[value := (if value in m then m[value] else 0) + 1])
  }

  /** The entry of a histogram, where absent is zero. */
  function EntryOf(h: Histogram, text: string): int {
    var m := h.UnwrapOr(map[]);
    if text in m then m[text] else 0
  }

  /** What an event does to the record of its tactic. */
  function Counted(r: StatsTactic, e: Event, error: string, now: int): StatsTactic {
    var r := r.(lastUpdated := now);
    match e
    case OnStarting(_) => r.(countStarted := r.countStarted + 1)
    case OnTCPConnectError(_, interrupted) =>
      if interrupted then r.(countTCPConnectInterrupt := r.countTCPConnectInterrupt + 1)
      else r.(countTCPConnectError := r.countTCPConnectError + 1,
              histoTCPConnectError := Increment(r.histoTCPConnectError, error))
    case OnTLSHandshakeError(_, interrupted) =>
      if interrupted then r.(countTLSHandshakeInterrupt := r.countTLSHandshakeInterrupt + 1)
      else r.(countTLSHandshakeError := r.countTLSHandshakeError + 1,
              histoTLSHandshakeError := Increment(r.histoTLSHandshakeError, error))
    case OnTLSVerifyError(_) =>
      r.(countTLSVerificationError := r.countTLSVerificationError + 1,
         histoTLSVerificationError := Increment(r.histoTLSVerificationError, error))
    case OnSuccess(_) => r.(countSuccess := r.countSuccess + 1)
  }

  /** An event creates a record only when dialing starts, and is otherwise ignored without one. */
  function Handle(c: StatsContainer, e: Event, error: string, now: int): StatsContainer {
    var key := KeyOf(e.tactic);
    match Lookup(c, key)
    case Some(r) => Store(c, key, Counted(r, e, error, now))
    case None => if e.OnStarting? then Store(c, key, Counted(NewRecord(e.tactic), e, error, now)) else c
  }

  // ----- conservation

  /** Dials that ended, by any of the six ways to end. */
  function Ended(r: StatsTactic): int {
    r.countSuccess + r.countTCPConnectError + r.countTLSHandshakeError + r.countTLSVerificationError
    + r.countTCPConnectInterrupt + r.countTLSHandshakeInterrupt
  }

  ghost function Total(m: map<string, int>): int
    decreases |m|
  {
    if m == map[] then 0
    else
      var k :| k in m;
      m[k] + Total(m - {k})
  }

  lemma {:induction false} TotalRemove(m: map<string, int>, k: string)
    requires k in m
    ensures Total(m) == m[k] + Total(m - {k})
    decreases |m|
  {
    var j :| j in m && Total(m) == m[j] + Total(m - {j});
    if j != k {
      TotalRemove(m - {j}, k);
      TotalRemove(m - {k}, j);
      assert m - {j} - {k} == m - {k} - {j};
    }
  }

  lemma TotalIncrement(h: Histogram, value: string)
    ensures Total(Increment(h, value).UnwrapOr(map[])) == Total(h.UnwrapOr(map[])) + 1
  {
    var m := h.UnwrapOr(map[]);
    var m' := Increment(h, value).value;
    TotalRemove(m', value);
    assert m' - {value} == m - {value};
    if value in m {
      TotalRemove(m, value);
    } else {
      assert m - {value} == m;
    }
  }

  /** Every error counter is the sum of its histogram. */
  ghost predicate HistogramsMatch(r: StatsTactic) {
    && r.countTCPConnectError == Total(r.histoTCPConnectError.UnwrapOr(map[]))
    && r.countTLSHandshakeError == Total(r.histoTLSHandshakeError.UnwrapOr(map[]))
    && r.countTLSVerificationError == Total(r.histoTLSVerificationError.UnwrapOr(map[]))
  }

  lemma CountedConserves(r: StatsTactic, e: Event, error: string, now: int)
    ensures
      var r' := Counted(r, e, error, now);
      && r'.countStarted - Ended(r') == r.countStarted - Ended(r) + (if e.OnStarting? then 1 else -1)
      && (HistogramsMatch(r') <==> HistogramsMatch(r))
      && r'.tactic == r.tactic
  {
    hide Increment;
    TotalIncrement(r.histoTCPConnectError, error);
    TotalIncrement(r.histoTLSHandshakeError, error);
    TotalIncrement(r.histoTLSVerificationError, error);
  }

  lemma LookupAfterStore(c: StatsContainer, key: Key, r: StatsTactic, other: Key)
    ensures Lookup(Store(c, key, r), other) == if other == key then Some(r) else Lookup(c, other)
  {
  }

  lemma StoreKeepsWellFormed(c: StatsContainer, t: Tactic, r: StatsTactic)
    requires WellFormed(c) && r.tactic.Some? && r.tactic.value.SummaryKey() == t.SummaryKey()
    ensures WellFormed(Store(c, KeyOf(t), r))
  {
    hide Tactic.SummaryKey, Tactic.DomainEndpointKey;
    var c' := Store(c, KeyOf(t), r);
    forall d | d in c'.domainEndpoints
      ensures c'.domainEndpoints[d].Some? && c'.domainEndpoints[d].value.tactics.Some?
    {
    }
    forall d, k | d in c'.domainEndpoints && k in TacticsOf(c', d)
      ensures OwnKey(TacticsOf(c', d), k)
    {
      if d == t.DomainEndpointKey() && k == t.SummaryKey() {
      } else {
        assert k in TacticsOf(c, d) && d in c.domainEndpoints;
        assert TacticsOf(c', d)[k] == TacticsOf(c, d)[k];
        assert OwnKey(TacticsOf(c, d), k);
      }
    }
  }

  lemma WellFormedRecord(c: StatsContainer, key: Key)
    requires WellFormed(c) && Lookup(c, key).Some?
    ensures Lookup(c, key).value.tactic.Some? && Lookup(c, key).value.tactic.value.SummaryKey() == key.summary
  {
    hide Tactic.SummaryKey;
    assert OwnKey(TacticsOf(c, key.endpoint), key.summary);
  }

  lemma HandleKeepsWellFormed(c: StatsContainer, e: Event, error: string, now: int)
    requires WellFormed(c)
    ensures WellFormed(Handle(c, e, error, now))
  {
    hide Tactic.SummaryKey, Tactic.DomainEndpointKey, Store, Counted;
    var key := KeyOf(e.tactic);
    match Lookup(c, key)
    case Some(r) =>
      WellFormedRecord(c, key);
      CountedConserves(r, e, error, now);
      StoreKeepsWellFormed(c, e.tactic, Counted(r, e, error, now));
    case None =>
      CountedConserves(NewRecord(e.tactic), e, error, now);
      StoreKeepsWellFormed(c, e.tactic, Counted(NewRecord(e.tactic), e, error, now));
  }

  /** Pruning keeps a record as it is or removes it. */
  lemma PruneKeepsOrRemoves(c: StatsContainer, clock: Clock, pruned: StatsContainer, key: Key)
    requires WellFormed(c) && PrunedContainer(c, clock, pruned)
    ensures Lookup(pruned, key).Some? ==> Lookup(pruned, key) == Lookup(c, key)
  {
    hide PrunedContainer, Fresh, Tactic.SummaryKey, Eligible;
    PruneMeaning(c, clock, pruned);
    var d, k := key.endpoint, key.summary;
    if Lookup(pruned, key).Some? {
      var k' :| WellFormedEntry(TacticsOf(c, d), k') && TacticsOf(c, d)[k'] == TacticsOf(pruned, d)[k];
      assert OwnKey(TacticsOf(c, d), k') && OwnKey(TacticsOf(pruned, d), k);
    }
  }

  /** What is found after an event; under its own key, what the event made of the record. */
  lemma LookupAfterEvent(c: StatsContainer, e: Event, error: string, now: int, key: Key)
    ensures
      var found := Lookup(Handle(c, e, error, now), key);
      var was := Lookup(c, KeyOf(e.tactic));
      if key != KeyOf(e.tactic) then found == Lookup(c, key)
      else if was.Some? then found == Some(Counted(was.value, e, error, now))
      else if e.OnStarting? then found == Some(Counted(NewRecord(e.tactic), e, error, now))
      else found.None?
  {
    hide Store, Counted, KeyOf, TacticsOf;
    match Lookup(c, KeyOf(e.tactic))
    case Some(r) => LookupAfterStore(c, KeyOf(e.tactic), Counted(r, e, error, now), key);
    case None => LookupAfterStore(c, KeyOf(e.tactic), Counted(NewRecord(e.tactic), e, error, now), key);
  }

  lemma NewRecordMatches(t: Tactic)
    ensures HistogramsMatch(NewRecord(t))
  {
  }

  ghost predicate ListsOnce(order: seq<string>, keys: set<string>) {
    && (forall i, j :: 0 <= i < j < |order| ==> order[i] != order[j])
    && (forall k :: k in order <==> k in keys)
  }

  // ----- the code

  /** The histogram has one more of the text and is otherwise the same. */
  ghost predicate OneMore(h: Histogram, h': Histogram, text: string) {
    forall t {:trigger EntryOf(h', t)} :: EntryOf(h', t) == EntryOf(h, t) + (if t == text then 1 else 0)
  }

  /** Only the record under the key may have changed. */
  ghost predicate OthersStay(before: StatsContainer, after: StatsContainer, key: Key) {
    forall other {:trigger Lookup(after, other)} :: other != key ==> Lookup(after, other) == Lookup(before, other)
  }

  lemma HandleChangesOne(c: StatsContainer, e: Event, error: string, now: int)
    ensures
      var c' := Handle(c, e, error, now);
      var was, found := Lookup(c, KeyOf(e.tactic)), Lookup(c', KeyOf(e.tactic));
      && OthersStay(c, c', KeyOf(e.tactic))
      && (was.Some? ==> found == Some(Counted(was.value, e, error, now)))
      && (was.None? && !e.OnStarting? ==> c' == c)
      && (was.None? && e.OnStarting? ==> found == Some(Counted(NewRecord(e.tactic), e, error, now)))
  {
    hide Store, Counted, KeyOf, TacticsOf;
    forall other
      ensures other != KeyOf(e.tactic) ==> Lookup(Handle(c, e, error, now), other) == Lookup(c, other)
    {
      LookupAfterEvent(c, e, error, now, other);
    }
    LookupAfterEvent(c, e, error, now, KeyOf(e.tactic));
  }

  lemma IncrementIsOneMore(h: Histogram, text: string)
    ensures OneMore(h, Increment(h, text), text)
  {
  }

  class StatsManager {
    var container: StatsContainer

    /** What the key-value store holds under our key, decoded. */
    var stored: Option<StatsContainer>

    /** The background goroutine that trims is running. */
    var trimming: bool

    /** newStatsManager: starts from what is stored, or from nothing. */
    constructor (stored: Option<StatsContainer>, clock: Clock)
      ensures WellFormed(container) && this.stored == stored && trimming
      ensures stored.Some? && stored.value.version == STATS_CONTAINER_VERSION ==>
                PrunedContainer(stored.value, clock, container)
      ensures stored.None? || stored.value.version != STATS_CONTAINER_VERSION ==> container == NEW_CONTAINER
    {
      var root := LoadStatsContainer(stored, clock);
      if root.Some? {
        PruneMeaning(stored.value, clock, root.value);
      }
      container := root.UnwrapOr(NEW_CONTAINER);
      this.stored := stored;
      trimming := true;
    }

    /** The record of a tactic and whether there is an entry for it. */
    method GetStatsTacticLocked(tactic: Tactic) returns (record: Option<StatsTactic>, found: bool)
      requires WellFormed(container)
      ensures record == Lookup(container, KeyOf(tactic))
      ensures found ==> record.Some?
      ensures !found ==> record.None?
    {
      hide Tactic.SummaryKey, Tactic.DomainEndpointKey;
      var d := tactic.DomainEndpointKey();
      if d !in container.domainEndpoints || container.domainEndpoints[d].None? {
        return None, false;
      }
      var m := container.domainEndpoints[d].value.tactics.value;
      var k := tactic.SummaryKey();
      assert m == TacticsOf(container, d);
      if k in m {
        assert OwnKey(m, k);
        return m[k], true;
      }
      return None, false;
    }

    /** Dereferencing the domain record and its map is safe: neither is nil. */
    method SetStatsTacticLocked(tactic: Tactic, record: StatsTactic)
      requires WellFormed(container)
      modifies this`container
      ensures container == Store(old(container), KeyOf(tactic), record)
    {
      hide Tactic.SummaryKey, Tactic.DomainEndpointKey;
      var d := tactic.DomainEndpointKey();
      var domainEpntRecord := StatsDomainEndpoint(Some(map[]));
      if d in container.domainEndpoints {
        domainEpntRecord := container.domainEndpoints[d].value;
      }
      var m := domainEpntRecord.tactics.value[tactic.SummaryKey() := Some(record)];
      container := container.(domainEndpoints := container.domainEndpoints[d := Some(StatsDomainEndpoint(Some(m)))]);
    }

    method OnStarting(tactic: Tactic, now: int)
      requires WellFormed(container)
      modifies this`container
      ensures container == Handle(old(container), HttpsDialer.OnStarting(tactic), "", now)
      ensures WellFormed(container)
      ensures OthersStay(old(container), container, KeyOf(tactic))
      ensures
        var was := old(Lookup(container, KeyOf(tactic)));
        var r := was.UnwrapOr(NewRecord(tactic));
        Lookup(container, KeyOf(tactic)) == Some(r.(countStarted := r.countStarted + 1, lastUpdated := now))
    {
      hide Tactic.SummaryKey, Tactic.DomainEndpointKey, Lookup, Store, WellFormed, EntryOf, Increment, KeyOf;
      HandleChangesOne(container, HttpsDialer.OnStarting(tactic), "", now);
      HandleKeepsWellFormed(container, HttpsDialer.OnStarting(tactic), "", now);
      var record, found := GetStatsTacticLocked(tactic);
      if !found {
        record := Some(NewRecord(tactic));
      }
      var updated := record.value.(countStarted := record.value.countStarted + 1, lastUpdated := now);
      SetStatsTacticLocked(tactic, updated);
    }

    method OnTCPConnectError(ctxDone: bool, tactic: Tactic, error: string, now: int)
      requires WellFormed(container)
      modifies this`container
      ensures container == Handle(old(container), HttpsDialer.OnTCPConnectError(tactic, ctxDone), error, now)
      ensures WellFormed(container)
      ensures OthersStay(old(container), container, KeyOf(tactic))
      ensures
        var was := old(Lookup(container, KeyOf(tactic)));
        if was.None? then container == old(container)
        else
          Lookup(container, KeyOf(tactic)).Some?
          && var r, r' := was.value, Lookup(container, KeyOf(tactic)).value;
             if ctxDone then r' == r.(countTCPConnectInterrupt := r.countTCPConnectInterrupt + 1, lastUpdated := now)
             else
               && r' == r.(countTCPConnectError := r.countTCPConnectError + 1, histoTCPConnectError := r'.histoTCPConnectError, lastUpdated := now)
               && OneMore(r.histoTCPConnectError, r'.histoTCPConnectError, error)
    {
      hide Tactic.SummaryKey, Tactic.DomainEndpointKey, Lookup, Store, WellFormed, EntryOf, Increment, KeyOf;
      HandleChangesOne(container, HttpsDialer.OnTCPConnectError(tactic, ctxDone), error, now);
      if Lookup(container, KeyOf(tactic)).Some? {
        IncrementIsOneMore(Lookup(container, KeyOf(tactic)).value.histoTCPConnectError, error);
      }
      HandleKeepsWellFormed(container, HttpsDialer.OnTCPConnectError(tactic, ctxDone), error, now);
      var found, record, r;
      record, found := GetStatsTacticLocked(tactic);
      if !found {
        return;
      }
      r := record.value.(lastUpdated := now);
      if ctxDone {
        r := r.(countTCPConnectInterrupt := r.countTCPConnectInterrupt + 1);
        SetStatsTacticLocked(tactic, r);
        return;
      }
      r := r.(countTCPConnectError := r.countTCPConnectError + 1,
              histoTCPConnectError := Increment(r.histoTCPConnectError, error));
      SetStatsTacticLocked(tactic, r);
    }

    method OnTLSHandshakeError(ctxDone: bool, tactic: Tactic, error: string, now: int)
      requires WellFormed(container)
      modifies this`container
      ensures container == Handle(old(container), HttpsDialer.OnTLSHandshakeError(tactic, ctxDone), error, now)
      ensures WellFormed(container)
      ensures OthersStay(old(container), container, KeyOf(tactic))
      ensures
        var was := old(Lookup(container, KeyOf(tactic)));
        if was.None? then container == old(container)
        else
          Lookup(container, KeyOf(tactic)).Some?
          && var r, r' := was.value, Lookup(container, KeyOf(tactic)).value;
             if ctxDone then r' == r.(countTLSHandshakeInterrupt := r.countTLSHandshakeInterrupt + 1, lastUpdated := now)
             else
               && r' == r.(countTLSHandshakeError := r.countTLSHandshakeError + 1, histoTLSHandshakeError := r'.histoTLSHandshakeError, lastUpdated := now)
               && OneMore(r.histoTLSHandshakeError, r'.histoTLSHandshakeError, error)
    {
      hide Tactic.SummaryKey, Tactic.DomainEndpointKey, Lookup, Store, WellFormed, EntryOf, Increment, KeyOf;
      HandleChangesOne(container, HttpsDialer.OnTLSHandshakeError(tactic, ctxDone), error, now);
      if Lookup(container, KeyOf(tactic)).Some? {
        IncrementIsOneMore(Lookup(container, KeyOf(tactic)).value.histoTLSHandshakeError, error);
      }
      HandleKeepsWellFormed(container, HttpsDialer.OnTLSHandshakeError(tactic, ctxDone), error, now);
      var found, record, r;
      record, found := GetStatsTacticLocked(tactic);
      if !found {
        return;
      }
      r := record.value.(lastUpdated := now);
      if ctxDone {
        r := r.(countTLSHandshakeInterrupt := r.countTLSHandshakeInterrupt + 1);
        SetStatsTacticLocked(tactic, r);
        return;
      }
      r := r.(countTLSHandshakeError := r.countTLSHandshakeError + 1,
              histoTLSHandshakeError := Increment(r.histoTLSHandshakeError, error));
      SetStatsTacticLocked(tactic, r);
    }

    method OnTLSVerifyError(tactic: Tactic, error: string, now: int)
      requires WellFormed(container)
      modifies this`container
      ensures container == Handle(old(container), HttpsDialer.OnTLSVerifyError(tactic), error, now)
      ensures WellFormed(container)
      ensures OthersStay(old(container), container, KeyOf(tactic))
      ensures
        var was := old(Lookup(container, KeyOf(tactic)));
        if was.None? then container == old(container)
        else
          Lookup(container, KeyOf(tactic)).Some?
          && var r, r' := was.value, Lookup(container, KeyOf(tactic)).value;
             && r' == r.(countTLSVerificationError := r.countTLSVerificationError + 1, histoTLSVerificationError := r'.histoTLSVerificationError, lastUpdated := now)
             && OneMore(r.histoTLSVerificationError, r'.histoTLSVerificationError, error)
    {
      hide Tactic.SummaryKey, Tactic.DomainEndpointKey, Lookup, Store, WellFormed, EntryOf, Increment, KeyOf;
      HandleChangesOne(container, HttpsDialer.OnTLSVerifyError(tactic), error, now);
      if Lookup(container, KeyOf(tactic)).Some? {
        IncrementIsOneMore(Lookup(container, KeyOf(tactic)).value.histoTLSVerificationError, error);
      }
      HandleKeepsWellFormed(container, HttpsDialer.OnTLSVerifyError(tactic), error, now);
      var record, found := GetStatsTacticLocked(tactic);
      if !found {
        return;
      }
      var r := record.value;
      r := r.(countTLSVerificationError := r.countTLSVerificationError + 1,
              histoTLSVerificationError := Increment(r.histoTLSVerificationError, error),
              lastUpdated := now);
      SetStatsTacticLocked(tactic, r);
    }

    method OnSuccess(tactic: Tactic, now: int)
      requires WellFormed(container)
      modifies this`container
      ensures container == Handle(old(container), HttpsDialer.OnSuccess(tactic), "", now)
      ensures WellFormed(container)
      ensures OthersStay(old(container), container, KeyOf(tactic))
      ensures
        var was := old(Lookup(container, KeyOf(tactic)));
        if was.None? then container == old(container)
        else
          Lookup(container, KeyOf(tactic)) == Some(was.value.(countSuccess := was.value.countSuccess + 1, lastUpdated := now))
    {
      hide Tactic.SummaryKey, Tactic.DomainEndpointKey, Lookup, Store, WellFormed, EntryOf, Increment, KeyOf;
      HandleChangesOne(container, HttpsDialer.OnSuccess(tactic), "", now);
      HandleKeepsWellFormed(container, HttpsDialer.OnSuccess(tactic), "", now);
      var record, found := GetStatsTacticLocked(tactic);
      if !found {
        return;
      }
      var r := record.value;
      SetStatsTacticLocked(tactic, r.(countSuccess := r.countSuccess + 1, lastUpdated := now));
    }

    /** One tick of the background trimmer. */
    method TrimOnce(clock: Clock)
      requires WellFormed(container) && trimming
      modifies this`container
      ensures PrunedContainer(old(container), clock, container)
      ensures WellFormed(container)
    {
      var pruned := StatsContainerPruneEntries(container, clock);
      PruneMeaning(container, clock, pruned);
      container := pruned;
    }

    /** Only the first call does something: it stores a pruned copy, unless the store fails, and waits for the
        trimmer to end. What is kept in memory stays as it is. Loading what was stored while the clock stands
        still gives it back, see `PruneIsIdempotent`. */
    method Close(clock: Clock, storeFails: Option<string>) returns (err: Option<string>)
      requires WellFormed(container)
      modifies this`stored, this`trimming
      ensures !trimming
      ensures !old(trimming) ==> err.None? && stored == old(stored)
      ensures old(trimming) ==> err == storeFails
      ensures old(trimming) && storeFails.Some? ==> stored == old(stored)
      ensures old(trimming) && storeFails.None? ==>
                stored.Some? && PrunedContainer(container, clock, stored.value) && WellFormed(stored.value)
    {
      if !trimming {
        return None;
      }
      var pruned := StatsContainerPruneEntries(container, clock);
      PruneMeaning(container, clock, pruned);
      if storeFails.None? {
        stored := Some(pruned);
      }
      trimming := false;
      return storeFails;
    }

    /** A copy of every record for the endpoint, in the map's iteration order. */
    method LookupTactics(domain: string, port: string) returns (out: seq<StatsTactic>, good: bool)
      requires WellFormed(container)
      ensures good <==> out != []
      ensures AllRecords(TacticsOf(container, JoinHostPort(domain, port)), out)
    {
      hide JoinHostPort, Tactic.SummaryKey;
      var d := JoinHostPort(domain, port);
      if d !in container.domainEndpoints || container.domainEndpoints[d].None? {
        assert TacticsOf(container, d) == map[];
        return [], false;
      }
      var m := container.domainEndpoints[d].value.tactics.value;
      forall k | k in m
        ensures m[k].Some?
      {
        assert OwnKey(TacticsOf(container, d), k);
      }
      out := CloneRecords(m);
      good := |out| > 0;
    }
  }

  /** `out` holds each record of the map once per key. */
  ghost predicate AllRecords(m: TacticsMap, out: seq<StatsTactic>) {
    exists order :: ListsOnce(order, m.Keys) && |out| == |order|
                    && forall i :: 0 <= i < |order| ==> m[order[i]] == Some(out[i])
  }

  method CloneRecords(m: TacticsMap) returns (out: seq<StatsTactic>)
    requires forall k :: k in m ==> m[k].Some?
    ensures AllRecords(m, out)
  {
    out := [];
    ghost var order: seq<string> := [];
    var keys := m.Keys;
    while keys != {}
      invariant keys <= m.Keys
      invariant forall i, j :: 0 <= i < j < |order| ==> order[i] != order[j]
      invariant forall k :: k in order <==> k in m && k !in keys
      invariant |out| == |order|
      invariant forall i :: 0 <= i < |order| ==> m[order[i]] == Some(out[i])
      decreases keys
    {
      var k :| k in keys;
      keys := keys - {k};
      out := out + [m[k].value];
      order := order + [k];
    }
  }

  // ----- the policy that follows the statistics

  /** The tactic of a record that succeeded and is kept for the endpoint. */
  ghost predicate Suggests(c: StatsContainer, domain: string, port: string, t: Tactic) {
    exists summary, r {:trigger SuccessUnder(c, Key(JoinHostPort(domain, port), summary), r)} ::
      SuccessUnder(c, Key(JoinHostPort(domain, port), summary), r) && r.tactic == Some(t)
  }

  predicate SuccessUnder(c: StatsContainer, key: Key, r: StatsTactic) {
    Lookup(c, key) == Some(r) && r.countSuccess > 0
  }

  lemma RecordsOfEndpoint(m: TacticsMap, out: seq<StatsTactic>, r: StatsTactic)
    requires AllRecords(m, out)
    ensures r in out <==> exists k :: k in m && m[k] == Some(r)
  {
    var order :| ListsOnce(order, m.Keys) && |out| == |order| && forall i :: 0 <= i < |order| ==> m[order[i]] == Some(out[i]);
    if r in out {
      var i :| 0 <= i < |out| && out[i] == r;
      assert order[i] in order;
    }
    if k :| k in m && m[k] == Some(r) {
      assert k in order;
      var i :| 0 <= i < |order| && order[i] == k;
      assert out[i] == r;
    }
  }

  /** statsPolicyV2.LookupTactics: suggests exactly the tactics that succeeded with the endpoint. */
  method StatsPolicyV2LookupTactics(stats: StatsManager, domain: string, port: string) returns (out: seq<Tactic>)
    requires WellFormed(stats.container)
    ensures forall t :: t in out <==> Suggests(stats.container, domain, port, t)
  {
    hide JoinHostPort, WellFormed, AllRecords;
    var records, good := stats.LookupTactics(domain, port);
    var pointers := seq(|records|, i requires 0 <= i < |records| => Some(records[i]));
    out := StatsPolicyFilterStatsTactics(pointers, good);
    var m := TacticsOf(stats.container, JoinHostPort(domain, port));
    forall t
      ensures t in out <==> Suggests(stats.container, domain, port, t)
    {
      if t in out {
        var r :| Some(r) in pointers && r.tactic == Some(t) && r.countSuccess > 0;
        var i :| 0 <= i < |pointers| && pointers[i] == Some(r);
        assert records[i] == r;
        RecordsOfEndpoint(m, records, r);
        var k :| k in m && m[k] == Some(r);
        assert SuccessUnder(stats.container, Key(JoinHostPort(domain, port), k), r);
      }
      if Suggests(stats.container, domain, port, t) {
        var summary, r :| SuccessUnder(stats.container, Key(JoinHostPort(domain, port), summary), r) && r.tactic == Some(t);
        RecordsOfEndpoint(m, records, r);
        var i :| 0 <= i < |records| && records[i] == r;
        assert pointers[i] == Some(r);
      }
    }
  }
}
