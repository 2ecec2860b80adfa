/** The session resolver (pkg/engineresolver): a persisted ranking of resolvers. */
module Resolver {
  import opened Optional
  import StableSort

  /** A resolver and its score. Scores are reals: floating-point rounding is not modelled. */
  datatype Entry = Entry(url: string, score: real)

  /** What happens to one entry of the list, when it is not skipped because of the proxy. */
  datatype Attempt =
    | ContextDone(error: string)
    | NoChildResolver(error: string)
    | LookupFailed(error: string)
    | LookupSucceeded(addrs: seq<string>)

  const SYSTEM_RESOLVER_URL := "system:///"

  const MAKER_URLS := [
    "https://cloudflare-dns.com/dns-query",
    "http3://cloudflare-dns.com/dns-query",
    "https://dns.google/dns-query",
    "http3://dns.google/dns-query",
    "https://dns.quad9.net/dns-query",
    SYSTEM_RESOLVER_URL,
    "https://mozilla.cloudflare-dns.com/dns-query",
    "http3://mozilla.cloudflare-dns.com/dns-query",
    "https://wikimedia-dns.org/dns-query"
  ]

  const EWMA: real := 0.9

  /** No two entries for one URL. */
  predicate Distinct(s: seq<Entry>) {
    forall i, j :: 0 <= i < j < |s| ==> s[i].url != s[j].url
  }

  predicate HasUrl(s: seq<Entry>, url: string) {
    exists i :: 0 <= i < |s| && s[i].url == url
  }

  predicate Score01(s: seq<Entry>) {
    forall i :: 0 <= i < |s| ==> 0.0 <= s[i].score <= 1.0
  }

  predicate Supported(s: seq<Entry>) {
    forall i :: 0 <= i < |s| ==> s[i].url in MAKER_URLS
  }

  /** Every built-in resolver exactly once, and nothing else. */
  predicate EachOnce(s: seq<Entry>) {
    Distinct(s) && Supported(s) && forall url :: url in MAKER_URLS ==> HasUrl(s, url)
  }

  /** The makers in their order, with the scores drawn when the program started. */
  predicate ValidMakers(makers: seq<Entry>) {
    && |makers| == |MAKER_URLS|
    && (forall i :: 0 <= i < |makers| ==> makers[i].url == MAKER_URLS[i])
    && Score01(makers)
  }

  lemma MakerUrlsAreDistinct()
    ensures forall i, j :: 0 <= i < j < |MAKER_URLS| ==> MAKER_URLS[i] != MAKER_URLS[j]
  {
    forall i, j | 0 <= i < j < |MAKER_URLS|
      ensures MAKER_URLS[i] != MAKER_URLS[j]
    {
      assert MAKER_URLS[i][4] != MAKER_URLS[j][4] || |MAKER_URLS[i]| != |MAKER_URLS[j]|;
    }
  }

  // ----- reading the state

  /** The stored entries that are supported, in their order. */
  function Prune(stored: seq<Entry>): seq<Entry> {
    if stored == [] then []
    else
      var last := stored[|stored| - 1];
      Prune(stored[..|stored| - 1]) + (if last.url in MAKER_URLS then [last] else [])
  }

  /** The makers whose URL does not appear in the list. */
  function Missing(makers: seq<Entry>, here: seq<Entry>): seq<Entry> {
    if makers == [] then []
    else
      var last := makers[|makers| - 1];
      Missing(makers[..|makers| - 1], here) + (if HasUrl(here, last.url) then [] else [last])
  }

  /** The comparison of the sort. It holds both ways for equal scores. */
  predicate AtLeast(a: Entry, b: Entry) {
    a.score >= b.score
  }

  function StateDefault(makers: seq<Entry>, stored: Option<seq<Entry>>): seq<Entry> {
    var ri := Prune(stored.UnwrapOr([]));
    StableSort.Sort(AtLeast, ri + Missing(makers, ri))
  }

  predicate Descending(s: seq<Entry>) {
    forall i, j :: 0 <= i < j < |s| ==> s[i].score >= s[j].score
  }

  lemma {:induction false} InsertMembers(s: seq<Entry>, x: Entry)
    ensures |StableSort.Insert(AtLeast, s, x)| == |s| + 1
    ensures forall i {:trigger StableSort.Insert(AtLeast, s, x)[i]} :: 0 <= i <= |s| ==>
              StableSort.Insert(AtLeast, s, x)[i] == x || StableSort.Insert(AtLeast, s, x)[i] in s
    ensures x in StableSort.Insert(AtLeast, s, x)
    ensures forall e :: e in s ==> e in StableSort.Insert(AtLeast, s, x)
  {
    if s != [] && AtLeast(x, s[|s| - 1]) {
      InsertMembers(s[..|s| - 1], x);
      assert s == s[..|s| - 1] + [s[|s| - 1]];
    }
  }

  lemma {:induction false} InsertKeepsDescending(s: seq<Entry>, x: Entry)
    requires Descending(s)
    ensures Descending(StableSort.Insert(AtLeast, s, x))
  {
    if s != [] && AtLeast(x, s[|s| - 1]) {
      var n := |s| - 1;
      InsertKeepsDescending(s[..n], x);
      InsertMembers(s[..n], x);
    }
  }

  lemma {:induction false} SortDescends(s: seq<Entry>)
    ensures Descending(StableSort.Sort(AtLeast, s))
  {
    if s != [] {
      SortDescends(s[..|s| - 1]);
      InsertKeepsDescending(StableSort.Sort(AtLeast, s[..|s| - 1]), s[|s| - 1]);
    }
  }

  function WithScore(s: seq<Entry>, score: real): seq<Entry> {
    if s == [] then []
    else WithScore(s[..|s| - 1], score) + (if s[|s| - 1].score == score then [s[|s| - 1]] else [])
  }

  function Reverse(s: seq<Entry>): seq<Entry> {
    if s == [] then [] else [s[|s| - 1]] + Reverse(s[..|s| - 1])
  }

  lemma {:induction false} WithScoreOfNone(s: seq<Entry>, score: real)
    requires forall i :: 0 <= i < |s| ==> s[i].score != score
    ensures WithScore(s, score) == []
  {
    if s != [] {
      WithScoreOfNone(s[..|s| - 1], score);
    }
  }

  lemma WithScoreAppend(s: seq<Entry>, x: Entry, score: real)
    ensures WithScore(s + [x], score) == WithScore(s, score) + (if x.score == score then [x] else [])
  {
    assert (s + [x])[..|s|] == s;
  }

  lemma InsertUnfold(s: seq<Entry>, x: Entry)
    ensures StableSort.Insert(AtLeast, s, x)
            == if s != [] && AtLeast(x, s[|s| - 1]) then StableSort.Insert(AtLeast, s[..|s| - 1], x) + [s[|s| - 1]] else s + [x]
  {
    hide AtLeast;
  }

  lemma DescendingFront(s: seq<Entry>)
    requires Descending(s) && s != []
    ensures Descending(s[..|s| - 1])
  {
  }

  /** The last entry of a descending list is the lowest. */
  lemma NoneAsLow(s: seq<Entry>, x: Entry)
    requires Descending(s) && (s == [] || !AtLeast(x, s[|s| - 1]))
    ensures WithScore(s, x.score) == []
  {
    hide WithScore;
    WithScoreOfNone(s, x.score);
  }

  lemma {:induction false} InsertPutsFirst(s: seq<Entry>, x: Entry, score: real)
    requires Descending(s)
    ensures WithScore(StableSort.Insert(AtLeast, s, x), score)
            == (if x.score == score then [x] else []) + WithScore(s, score)
  {
    hide StableSort.Insert, WithScore, Descending, AtLeast;
    InsertUnfold(s, x);
    if s != [] && AtLeast(x, s[|s| - 1]) {
      var n := |s| - 1;
      DescendingFront(s);
      InsertPutsFirst(s[..n], x, score);
      AppendBoth(StableSort.Insert(AtLeast, s[..n], x), s[..n], s[n], if x.score == score then [x] else [], score);
      assert s == s[..n] + [s[n]];
    } else {
      WithScoreAppend(s, x, score);
      NoneAsLow(s, x);
    }
  }

  lemma AppendBoth(p: seq<Entry>, q: seq<Entry>, e: Entry, first: seq<Entry>, score: real)
    requires WithScore(p, score) == first + WithScore(q, score)
    ensures WithScore(p + [e], score) == first + WithScore(q + [e], score)
  {
    hide WithScore;
    WithScoreAppend(p, e, score);
    WithScoreAppend(q, e, score);
  }

  lemma ReverseAppend(s: seq<Entry>, x: Entry)
    ensures Reverse(s + [x]) == [x] + Reverse(s)
  {
    assert (s + [x])[..|s|] == s;
  }

  /** The sort is not stable: it reverses the order of entries with equal scores. */
  lemma {:induction false} SortReversesEquals(s: seq<Entry>, score: real)
    ensures WithScore(StableSort.Sort(AtLeast, s), score) == Reverse(WithScore(s, score))
  {
    hide AtLeast, Descending, StableSort.Insert;
    if s == [] {
      assert WithScore([], score) == [] && Reverse([]) == [];
    } else {
      hide Reverse;
      var n := |s| - 1;
      SortReversesEquals(s[..n], score);
      SortDescends(s[..n]);
      InsertPutsFirst(StableSort.Sort(AtLeast, s[..n]), s[n], score);
      var w := WithScore(s[..n], score);
      ReverseAppend(w, s[n]);
      assert w + [] == w && [] + Reverse(w) == Reverse(w);
    }
  }

  lemma {:induction false} DistinctCountsOnce(s: seq<Entry>, e: Entry)
    requires Distinct(s)
    ensures multiset(s)[e] <= 1
  {
    if s != [] {
      var n := |s| - 1;
      DistinctCountsOnce(s[..n], e);
      assert s == s[..n] + [s[n]];
      assert s[n] !in s[..n];
    }
  }

  lemma TwiceCountsTwo(s: seq<Entry>, i: nat, j: nat)
    requires i < j < |s| && s[i] == s[j]
    ensures multiset(s)[s[i]] >= 2
  {
    assert s == s[..j] + [s[j]] + s[j + 1..];
    assert s[i] in s[..j];
  }

  lemma DistinctPermutes(s: seq<Entry>, t: seq<Entry>)
    requires Distinct(s) && multiset(s) == multiset(t)
    ensures Distinct(t)
  {
    forall i, j | 0 <= i < j < |t|
      ensures t[i].url != t[j].url
    {
      if t[i] == t[j] {
        TwiceCountsTwo(t, i, j);
        DistinctCountsOnce(s, t[i]);
      } else {
        assert t[i] in multiset(s) && t[j] in multiset(s);
      }
    }
  }

  lemma SortIsDistinctOnlyIf(s: seq<Entry>)
    ensures Distinct(StableSort.Sort(AtLeast, s)) <==> Distinct(s)
  {
    hide Distinct;
    var sorted := StableSort.Sort(AtLeast, s);
    StableSort.SortPermutes(AtLeast, s);
    if Distinct(s) {
      DistinctPermutes(s, sorted);
    } else if Distinct(sorted) {
      DistinctPermutes(sorted, s);
    }
  }

  lemma LastIsMember(s: seq<Entry>)
    requires s != []
    ensures forall e {:trigger e in s} :: e in s <==> e in s[..|s| - 1] || e == s[|s| - 1]
  {
    assert s == s[..|s| - 1] + [s[|s| - 1]];
  }

  lemma PruneStep(stored: seq<Entry>)
    requires stored != []
    ensures
      var n := |stored| - 1;
      && (stored[n].url in MAKER_URLS ==> Prune(stored) == Prune(stored[..n]) + [stored[n]])
      && (stored[n].url !in MAKER_URLS ==> Prune(stored) == Prune(stored[..n]))
  {
    hide MAKER_URLS;
  }

  lemma PruneOneMore(stored: seq<Entry>, e: Entry)
    ensures Prune(stored + [e]) == Prune(stored) + (if e.url in MAKER_URLS then [e] else [])
  {
    hide MAKER_URLS;
    assert (stored + [e])[..|stored|] == stored;
  }

  lemma {:induction false} PruneMember(stored: seq<Entry>, e: Entry)
    ensures e in Prune(stored) <==> e in stored && e.url in MAKER_URLS
  {
    hide MAKER_URLS;
    if stored != [] {
      hide Prune;
      PruneStep(stored);
      LastIsMember(stored);
      PruneMember(stored[..|stored| - 1], e);
    } else {
      assert Prune([]) == [];
    }
  }

  lemma {:induction false} PruneKeepsDistinct(stored: seq<Entry>)
    requires Distinct(stored)
    ensures Distinct(Prune(stored))
  {
    hide MAKER_URLS;
    if stored != [] {
      var n := |stored| - 1;
      PruneKeepsDistinct(stored[..n]);
      PruneStep(stored);
      hide Prune;
      var front := Prune(stored[..n]);
      forall i | 0 <= i < |front|
        ensures front[i].url != stored[n].url
      {
        PruneMember(stored[..n], front[i]);
        assert front[i] in stored[..n];
      }
    }
  }

  lemma PruneMembers(stored: seq<Entry>)
    ensures forall e :: e in Prune(stored) <==> e in stored && e.url in MAKER_URLS
    ensures Supported(Prune(stored))
    ensures Distinct(stored) ==> Distinct(Prune(stored))
  {
    hide Prune, MAKER_URLS, Distinct;
    forall e: Entry
      ensures e in Prune(stored) <==> e in stored && e.url in MAKER_URLS
    {
      PruneMember(stored, e);
    }
    forall i | 0 <= i < |Prune(stored)|
      ensures Prune(stored)[i].url in MAKER_URLS
    {
      PruneMember(stored, Prune(stored)[i]);
    }
    if Distinct(stored) {
      PruneKeepsDistinct(stored);
    }
  }

  lemma {:induction false} MissingMembers(makers: seq<Entry>, here: seq<Entry>)
    requires Distinct(makers)
    ensures forall e :: e in Missing(makers, here) <==> e in makers && !HasUrl(here, e.url)
    ensures Distinct(Missing(makers, here))
  {
    hide HasUrl;
    if makers != [] {
      var n := |makers| - 1;
      MissingMembers(makers[..n], here);
      assert makers == makers[..n] + [makers[n]];
    }
  }

  /** Reading the state gives each built-in resolver exactly once, best first. It does so exactly when
      no supported entry was stored twice: a duplicate on disk is kept. */
  lemma StateDefaultEachOnce(makers: seq<Entry>, stored: Option<seq<Entry>>)
    requires ValidMakers(makers)
    ensures Descending(StateDefault(makers, stored))
    ensures Supported(StateDefault(makers, stored))
    ensures forall url :: url in MAKER_URLS ==> HasUrl(StateDefault(makers, stored), url)
    ensures EachOnce(StateDefault(makers, stored)) <==> Distinct(Prune(stored.UnwrapOr([])))
  {
    hide Distinct, AtLeast, Descending, HasUrl, Prune, Missing, StableSort.Sort;
    var ri := Prune(stored.UnwrapOr([]));
    var missing := Missing(makers, ri);
    var merged := ri + missing;
    PruneMembers(stored.UnwrapOr([]));
    MakersAreDistinct(makers);
    MissingMembers(makers, ri);
    SortDescends(merged);
    StableSort.SortKeepsElements(AtLeast, merged);
    SortIsDistinctOnlyIf(merged);
    MergedIsDistinct(ri, missing);
    var sorted := StateDefault(makers, stored);
    forall i | 0 <= i < |sorted|
      ensures sorted[i].url in MAKER_URLS
    {
      assert sorted[i] in merged;
    }
    forall url | url in MAKER_URLS
      ensures HasUrl(sorted, url)
    {
      MergedHasUrl(makers, ri, url);
      UrlKept(merged, sorted, url);
    }
  }

  lemma MakersAreDistinct(makers: seq<Entry>)
    requires ValidMakers(makers)
    ensures Distinct(makers)
  {
    MakerUrlsAreDistinct();
  }

  lemma UrlKept(s: seq<Entry>, t: seq<Entry>, url: string)
    requires HasUrl(s, url) && forall e :: e in s ==> e in t
    ensures HasUrl(t, url)
  {
    var i :| 0 <= i < |s| && s[i].url == url;
    assert s[i] in t;
  }

  lemma MergedHasUrl(makers: seq<Entry>, ri: seq<Entry>, url: string)
    requires ValidMakers(makers) && url in MAKER_URLS
    requires forall e :: e in Missing(makers, ri) <==> e in makers && !HasUrl(ri, e.url)
    ensures HasUrl(ri + Missing(makers, ri), url)
  {
    hide Missing, HasUrl;
    var missing := Missing(makers, ri);
    if HasUrl(ri, url) {
      UrlKept(ri, ri + missing, url);
    } else {
      var i :| 0 <= i < |MAKER_URLS| && MAKER_URLS[i] == url;
      assert makers[i] in makers && makers[i] in missing;
      HasItsUrl(missing, makers[i]);
      UrlKept(missing, ri + missing, url);
    }
  }

  lemma HasItsUrl(s: seq<Entry>, e: Entry)
    requires e in s
    ensures HasUrl(s, e.url)
  {
  }

  lemma MergedIsDistinct(ri: seq<Entry>, missing: seq<Entry>)
    requires Distinct(missing) && forall e :: e in missing ==> !HasUrl(ri, e.url)
    ensures Distinct(ri + missing) <==> Distinct(ri)
  {
    var merged := ri + missing;
    if Distinct(ri) {
      forall i, j | 0 <= i < j < |merged|
        ensures merged[i].url != merged[j].url
      {
        if i < |ri| <= j {
          assert merged[j] in missing;
          assert merged[i] == ri[i];
        }
      }
    }
    if Distinct(merged) {
      forall i, j | 0 <= i < j < |ri|
        ensures ri[i].url != ri[j].url
      {
        assert merged[i] == ri[i] && merged[j] == ri[j];
      }
    }
  }

  // ----- one lookup

  /** The characters before the first colon, if there is one. */
  function Scheme(url: string): string {
    if ':' !in url then [] else BeforeColon(url)
  }

  function BeforeColon(url: string): string {
    if url == [] || url[0] == ':' then [] else [url[0]] + BeforeColon(url[1..])
  }

  predicate ShouldSkipWithProxy(url: string) {
    Scheme(url) !in {"https", "dot", "tcp"}
  }

  predicate Skipped(e: Entry, proxied: bool) {
    proxied && ShouldSkipWithProxy(e.url)
  }

  /** Whether the lookup says anything about the resolver. */
  predicate Tried(e: Entry, proxied: bool, a: Attempt) {
    !Skipped(e, proxied) && !a.ContextDone?
  }

  predicate Succeeds(e: Entry, proxied: bool, a: Attempt) {
    !Skipped(e, proxied) && a.LookupSucceeded?
  }

  function NewScore(score: real, a: Attempt): real {
    match a
    case ContextDone(_) => score
    case NoChildResolver(_) => 0.0
    case LookupFailed(_) => EWMA * 0.0 + (1.0 - EWMA) * score
    case LookupSucceeded(_) => EWMA * 1.0 + (1.0 - EWMA) * score
  }

  /** What happens to the n-th entry of the list. */
  type World = nat -> Attempt

  /** The first entry that succeeds, or the length of the list. */
  function Stop(s: seq<Entry>, proxied: bool, world: World, k: nat): (r: nat)
    requires k <= |s|
    ensures k <= r <= |s|
    ensures forall i :: k <= i < r ==> !Succeeds(s[i], proxied, world(i))
    ensures r < |s| ==> Succeeds(s[r], proxied, world(r))
    decreases |s| - k
  {
    if k == |s| || Succeeds(s[k], proxied, world(k)) then k else Stop(s, proxied, world, k + 1)
  }

  /** The list after the lookup: the entries tried up to the first success have a new score. */
  ghost predicate Updated(s: seq<Entry>, proxied: bool, world: World, t: seq<Entry>) {
    && |t| == |s|
    && forall i: nat {:trigger t[i]} {:trigger s[i]} :: i < |s| ==>
         t[i] == if i <= Stop(s, proxied, world, 0) then After(s[i], proxied, world(i)) else s[i]
  }

  /** maybeConfusion: the list stays, or its first entry is swapped with its second or third. */
  predicate Confused(s: seq<Entry>, t: seq<Entry>) {
    || t == s
    || (|s| == 2 && t == [s[1], s[0]])
    || (|s| >= 3 && t == s[0 := s[2]][2 := s[0]])
  }

  lemma ScoresStayInRange(s: seq<Entry>, proxied: bool, world: World, t: seq<Entry>)
    requires Score01(s) && Updated(s, proxied, world, t)
    ensures Score01(t)
  {
    forall i | 0 <= i < |t|
      ensures 0.0 <= t[i].score <= 1.0
    {
      assert 0.0 <= s[i].score <= 1.0;
    }
  }

  lemma UpdatedKeepsUrls(s: seq<Entry>, proxied: bool, world: World, t: seq<Entry>)
    requires EachOnce(s) && Updated(s, proxied, world, t)
    ensures EachOnce(t)
  {
    hide Stop, Tried, NewScore, After;
    forall url | url in MAKER_URLS
      ensures HasUrl(t, url)
    {
      var i :| 0 <= i < |s| && s[i].url == url;
      assert t[i].url == url;
    }
    forall i, j | 0 <= i < j < |t|
      ensures t[i].url != t[j].url
    {
      assert s[i].url != s[j].url;
    }
  }

  lemma ConfusedPermutes(s: seq<Entry>, t: seq<Entry>)
    requires Confused(s, t)
    ensures forall e :: e in s <==> e in t
    ensures |t| == |s|
    ensures Distinct(s) ==> Distinct(t)
  {
    if |s| >= 3 && t == s[0 := s[2]][2 := s[0]] {
      assert t[0] == s[2] && t[2] == s[0];
      assert forall i :: 0 <= i < |s| && i != 0 && i != 2 ==> t[i] == s[i];
    } else if |s| == 2 && t == [s[1], s[0]] {
      assert t[0] == s[1] && t[1] == s[0];
    }
  }

  lemma EachOncePermutes(s: seq<Entry>, t: seq<Entry>)
    requires EachOnce(s) && Distinct(t) && forall e :: e in s <==> e in t
    ensures EachOnce(t)
    ensures Score01(s) ==> Score01(t)
  {
    hide HasUrl, Distinct;
    forall url | url in MAKER_URLS
      ensures HasUrl(t, url)
    {
      UrlKept(s, t, url);
    }
    forall i | 0 <= i < |t|
      ensures t[i].url in MAKER_URLS && (Score01(s) ==> 0.0 <= t[i].score <= 1.0)
    {
      assert t[i] in s;
    }
  }

  // ----- runs of lookups whose results are all stored

  /** `last` says for each resolver that was ever tried whether its last attempt succeeded. */
  datatype RunState = RunState(store: Option<seq<Entry>>, last: map<string, bool>)

  ghost predicate LastUpdated(s: seq<Entry>, proxied: bool, world: World, last: map<string, bool>, last': map<string, bool>) {
    forall i: nat {:trigger s[i]} :: i < |s| ==>
      if i <= Stop(s, proxied, world, 0) && Tried(s[i], proxied, world(i))
      then s[i].url in last' && last'[s[i].url] == Succeeds(s[i], proxied, world(i))
      else SameAt(last, last', s[i].url)
  }

  predicate SameAt(last: map<string, bool>, last': map<string, bool>, url: string) {
    (url in last <==> url in last') && (url in last ==> last[url] == last'[url])
  }

  ghost predicate LookupRound(makers: seq<Entry>, s: RunState, s': RunState, order: seq<Entry>, proxied: bool, world: World) {
    && Confused(StateDefault(makers, s.store), order)
    && s'.store.Some? && Updated(order, proxied, world, s'.store.value)
    && LastUpdated(order, proxied, world, s.last, s'.last)
  }

  datatype Round = Round(order: seq<Entry>, proxied: bool, world: World)

  ghost predicate IsRun(makers: seq<Entry>, states: seq<RunState>, rounds: seq<Round>) {
    && |states| == |rounds| + 1
    && states[0] == RunState(None, map[])
    && forall i {:trigger rounds[i]} :: 0 <= i < |rounds| ==>
         LookupRound(makers, states[i], states[i + 1], rounds[i].order, rounds[i].proxied, rounds[i].world)
  }

  /** A success leaves a score of at least 0.9, a failure one of at most 0.1. */
  predicate Remembers(s: seq<Entry>, last: map<string, bool>) {
    forall i {:trigger s[i]} :: 0 <= i < |s| && s[i].url in last ==>
      if last[s[i].url] then s[i].score >= 0.9 else s[i].score <= 0.1
  }

  ghost predicate GoodStore(store: Option<seq<Entry>>) {
    store.Some? ==> EachOnce(store.value) && Score01(store.value)
  }

  ghost predicate RunInv(s: RunState) {
    && GoodStore(s.store)
    && (s.store.Some? ==> Remembers(s.store.value, s.last))
    && (s.store.None? ==> s.last == map[])
  }

  /** What the next lookup starts from. */
  lemma StateDefaultKeepsStored(makers: seq<Entry>, stored: seq<Entry>)
    requires ValidMakers(makers) && EachOnce(stored)
    ensures forall e :: e in StateDefault(makers, Some(stored)) <==> e in stored
  {
    hide Distinct, AtLeast, HasUrl, Prune, Missing, StableSort.Sort;
    var ri := Prune(stored);
    PruneMembers(stored);
    MakersAreDistinct(makers);
    MissingMembers(makers, ri);
    assert forall e :: e in stored ==> e.url in MAKER_URLS;
    forall e | e in Missing(makers, ri)
      ensures false
    {
      var i :| 0 <= i < |makers| && makers[i] == e;
      assert e.url in MAKER_URLS;
      UrlKept(stored, ri, e.url);
    }
    StableSort.SortKeepsElements(AtLeast, ri + Missing(makers, ri));
  }

  lemma StateDefaultOfNone(makers: seq<Entry>)
    requires ValidMakers(makers)
    ensures forall e :: e in StateDefault(makers, None) <==> e in makers
  {
    hide Distinct, AtLeast, HasUrl, Missing, StableSort.Sort;
    MakersAreDistinct(makers);
    assert Prune([]) == [];
    MissingMembers(makers, []);
    NothingHere(makers);
    StableSort.SortKeepsElements(AtLeast, [] + Missing(makers, []));
  }

  lemma NothingHere(makers: seq<Entry>)
    ensures forall e :: e in makers ==> !HasUrl([], e.url)
  {
  }

  /** The list a lookup starts from, given what was stored by earlier ones. */
  lemma StateDefaultIsGood(makers: seq<Entry>, s: RunState)
    requires ValidMakers(makers) && RunInv(s)
    ensures EachOnce(StateDefault(makers, s.store)) && Score01(StateDefault(makers, s.store))
    ensures Remembers(StateDefault(makers, s.store), s.last)
  {
    hide EachOnce, StateDefault;
    var d := StateDefault(makers, s.store);
    StateDefaultIsDistinct(makers, s.store);
    match s.store
    case None =>
      StateDefaultOfNone(makers);
      forall i | 0 <= i < |d|
        ensures 0.0 <= d[i].score <= 1.0
      {
        assert d[i] in makers;
      }
    case Some(stored) =>
      StateDefaultKeepsStored(makers, stored);
      forall i {:trigger d[i]} | 0 <= i < |d|
        ensures 0.0 <= d[i].score <= 1.0
        ensures d[i].url in s.last ==> if s.last[d[i].url] then d[i].score >= 0.9 else d[i].score <= 0.1
      {
        assert d[i] in stored;
      }
  }

  lemma StateDefaultIsDistinct(makers: seq<Entry>, store: Option<seq<Entry>>)
    requires ValidMakers(makers) && GoodStore(store)
    ensures EachOnce(StateDefault(makers, store))
  {
    hide StateDefault, HasUrl, Distinct;
    StateDefaultEachOnce(makers, store);
    match store
    case None => EmptyIsDistinct();
    case Some(stored) => PruneMembers(stored);
  }

  lemma EmptyIsDistinct()
    ensures Distinct(Prune([]))
  {
  }

  lemma UpdatedRemembers(s: seq<Entry>, proxied: bool, world: World, t: seq<Entry>, last: map<string, bool>, last': map<string, bool>)
    requires Score01(s) && Remembers(s, last)
    requires Updated(s, proxied, world, t) && LastUpdated(s, proxied, world, last, last')
    ensures Remembers(t, last')
  {
    hide Stop, Skipped;
    forall i {:trigger t[i]} | 0 <= i < |t| && t[i].url in last'
      ensures if last'[t[i].url] then t[i].score >= 0.9 else t[i].score <= 0.1
    {
      var e, a := s[i], world(i);
      if i <= Stop(s, proxied, world, 0) && Tried(e, proxied, a) {
        assert last'[e.url] == Succeeds(e, proxied, a);
      } else {
        assert SameAt(last, last', e.url);
      }
    }
  }

  lemma ConfusedRemembers(s: seq<Entry>, t: seq<Entry>, last: map<string, bool>)
    requires Remembers(s, last) && forall e :: e in t ==> e in s
    ensures Remembers(t, last)
  {
    forall i {:trigger t[i]} | 0 <= i < |t| && t[i].url in last
      ensures if last[t[i].url] then t[i].score >= 0.9 else t[i].score <= 0.1
    {
      assert t[i] in s;
    }
  }

  lemma RoundKeepsInv(makers: seq<Entry>, s: RunState, s': RunState, order: seq<Entry>, proxied: bool, world: World)
    requires ValidMakers(makers) && RunInv(s) && LookupRound(makers, s, s', order, proxied, world)
    ensures RunInv(s')
  {
    hide StateDefault, Confused, Updated, LastUpdated, EachOnce, Score01, Remembers, ValidMakers;
    var d := StateDefault(makers, s.store);
    StateDefaultIsGood(makers, s);
    OrderIsGood(d, order);
    ConfusedRemembers(d, order, s.last);
    ScoresStayInRange(order, proxied, world, s'.store.value);
    UpdatedKeepsUrls(order, proxied, world, s'.store.value);
    UpdatedRemembers(order, proxied, world, s'.store.value, s.last, s'.last);
  }

  lemma OrderIsGood(d: seq<Entry>, order: seq<Entry>)
    requires EachOnce(d) && Score01(d) && Confused(d, order)
    ensures EachOnce(order) && Score01(order) && forall e :: e in d <==> e in order
  {
    hide Confused, HasUrl, Distinct;
    ConfusedPermutes(d, order);
    EachOncePermutes(d, order);
  }

  /** Scores stay within 0 and 1, and what is stored has each built-in resolver exactly once. */
  lemma {:induction false} RunKeepsInv(makers: seq<Entry>, states: seq<RunState>, rounds: seq<Round>, i: nat)
    requires ValidMakers(makers) && IsRun(makers, states, rounds) && i < |states|
    ensures RunInv(states[i])
    decreases i
  {
    hide LookupRound, ValidMakers;
    if i > 0 {
      hide RunInv;
      RunKeepsInv(makers, states, rounds, i - 1);
      var r := rounds[i - 1];
      RoundKeepsInv(makers, states[i - 1], states[i], r.order, r.proxied, r.world);
    }
  }

  /** After any run, the next lookup's list has each resolver once, scores within 0 and 1, best first, and
      every resolver whose last attempt succeeded before every one whose last attempt failed. */
  lemma WorkingResolversComeFirst(makers: seq<Entry>, states: seq<RunState>, rounds: seq<Round>, i: nat)
    requires ValidMakers(makers) && IsRun(makers, states, rounds) && i < |states|
    ensures
      var d, last := StateDefault(makers, states[i].store), states[i].last;
      && EachOnce(d) && Score01(d) && Descending(d)
      && forall j, k | 0 <= j < |d| && 0 <= k < |d| && d[j].url in last && d[k].url in last ::
           last[d[j].url] && !last[d[k].url] ==> j < k
  {
    hide StateDefault, IsRun, RunInv, EachOnce, Score01, ValidMakers, Distinct, HasUrl, Supported;
    RunKeepsInv(makers, states, rounds, i);
    StateDefaultIsGood(makers, states[i]);
    StateDefaultEachOnce(makers, states[i].store);
  }

  /** A resolver that is skipped, not reached, or reached after the context is done keeps its score. */
  lemma UntriedKeepsScore(makers: seq<Entry>, s: RunState, s': RunState, order: seq<Entry>, proxied: bool, world: World, i: nat)
    requires LookupRound(makers, s, s', order, proxied, world)
    requires i < |order| && (i > Stop(order, proxied, world, 0) || !Tried(order[i], proxied, world(i)))
    ensures order[i] in StateDefault(makers, s.store) && order[i] in s'.store.value
    ensures SameAt(s.last, s'.last, order[i].url)
  {
    hide StateDefault, Stop;
    ConfusedPermutes(StateDefault(makers, s.store), order);
    assert s'.store.value[i] == order[i];
  }

  /** Of the built-in resolvers, a proxy rules out the ones over HTTP/3 and the system's. */
  lemma ProxySkips(i: nat)
    requires i < |MAKER_URLS|
    ensures ShouldSkipWithProxy(MAKER_URLS[i]) <==> i in {1, 3, 5, 7}
  {
    if i == 5 {
      assert SchemeIs(MAKER_URLS[i], "system");
      SchemeBeforeColon(MAKER_URLS[i], "system");
    } else if i in {1, 3, 7} {
      assert SchemeIs(MAKER_URLS[i], "http3");
      SchemeBeforeColon(MAKER_URLS[i], "http3");
    } else {
      assert SchemeIs(MAKER_URLS[i], "https");
      SchemeBeforeColon(MAKER_URLS[i], "https");
    }
  }

  predicate SchemeIs(url: string, scheme: string) {
    |scheme| < |url| && url[|scheme|] == ':' && (forall k :: 0 <= k < |scheme| ==> url[k] == scheme[k] != ':')
  }

  lemma {:induction false} SchemeBeforeColon(url: string, scheme: string)
    requires SchemeIs(url, scheme)
    ensures BeforeColon(url) == scheme && Scheme(url) == scheme
  {
    assert url[|scheme|] in url;
    if scheme != [] {
      SchemeBeforeColon(url[1..], scheme[1..]);
      assert scheme == [scheme[0]] + scheme[1..];
    }
  }

  // ----- the code

  /** An error of one resolver. */
  datatype ErrWrapper = ErrWrapper(error: string, url: string)

  /** What failing entries add to the union of errors. */
  function ErrorsOf(s: seq<Entry>, proxied: bool, world: World, n: nat): seq<ErrWrapper>
    requires n <= |s|
  {
    if n == 0 then []
    else
      ErrorsOf(s, proxied, world, n - 1)
      + (if Skipped(s[n - 1], proxied) || world(n - 1).LookupSucceeded? then []
         else [ErrWrapper(world(n - 1).error, s[n - 1].url)])
  }

  /** A stored document: its list may hold nulls. */
  type Document = Option<seq<Option<Entry>>>

  predicate HasNull(stored: Document) {
    stored.Some? && None in stored.value
  }

  /** The entries of a list, less the nulls. */
  function NonNull(s: seq<Option<Entry>>): seq<Entry> {
    if s == [] then []
    else
      var last := s[|s| - 1];
      NonNull(s[..|s| - 1]) + (if last.Some? then [last.value] else [])
  }

  function EntriesOf(stored: Document): Option<seq<Entry>> {
    match stored case None => None case Some(s) => Some(NonNull(s))
  }

  /** What writing a list stores. */
  function Written(s: seq<Entry>): (r: seq<Option<Entry>>)
    ensures |r| == |s| && forall i {:trigger r[i]} :: 0 <= i < |s| ==> r[i] == Some(s[i])
  {
    seq(|s|, i requires 0 <= i < |s| => Some(s[i]))
  }

  lemma {:induction false} WrittenIsRead(s: seq<Entry>)
    ensures NonNull(Written(s)) == s && None !in Written(s)
  {
    if s != [] {
      var n := |s| - 1;
      WrittenIsRead(s[..n]);
      assert Written(s)[..n] == Written(s[..n]);
      assert s == s[..n] + [s[n]];
    }
  }

  class Resolver {
    const makers: seq<Entry>
    const proxied: bool

    /** What the key-value store gives for our key; nothing when it is nil, empty or does not decode. */
    var stored: Document

    constructor (makers: seq<Entry>, proxied: bool, stored: Document)
      ensures this.makers == makers && this.proxied == proxied && this.stored == stored
    {
      this.makers, this.proxied, this.stored := makers, proxied, stored;
    }

    /** Panics exactly when some entry is null. `ok` is false when no entry remains, or there was none to read. */
    method ReadStateAndPrune() returns (panics: bool, out: seq<Entry>, ok: bool)
      ensures panics <==> HasNull(stored)
      ensures !panics ==> out == Prune(EntriesOf(stored).UnwrapOr([]))
      ensures !panics ==> (ok <==> out != [])
    {
      out := [];
      if stored.None? {
        return false, [], false;
      }
      var ri := stored.value;
      var i := 0;
      while i < |ri|
        invariant 0 <= i <= |ri|
        invariant None !in ri[..i]
        invariant out == Prune(NonNull(ri[..i]))
      {
        assert ri[..i + 1] == ri[..i] + [ri[i]] && ri[..i + 1][..i] == ri[..i];
        if ri[i].None? {
          return true, [], false;
        }
        PruneOneMore(NonNull(ri[..i]), ri[i].value);
        if ri[i].value.url in MAKER_URLS {
          out := out + [ri[i].value];
        }
        i := i + 1;
      }
      assert ri[..i] == ri;
      panics, ok := false, |out| > 0;
    }

    method ReadStateDefault() returns (panics: bool, state: array<Entry>)
      ensures panics <==> HasNull(stored)
      ensures fresh(state)
      ensures !panics ==> state[..] == StateDefault(makers, EntriesOf(stored))
    {
      hide Prune, AtLeast, NonNull, StableSort.Sort;
      var ri, ok;
      panics, ri, ok := ReadStateAndPrune();
      if panics {
        return true, new Entry[0];
      }
      var here: set<string> := {};
      var i := 0;
      while i < |ri|
        invariant 0 <= i <= |ri|
        invariant forall url :: url in here <==> HasUrl(ri[..i], url)
      {
        assert ri[..i + 1] == ri[..i] + [ri[i]];
        here := here + {ri[i].url};
        i := i + 1;
      }
      assert ri[..i] == ri;
      var all := AppendMissing(ri, here);
      state := new Entry[|all|](k requires 0 <= k < |all| => all[k]);
      assert state[..] == all;
      StableSort.InsertionSort(AtLeast, state);
    }

    method AppendMissing(ri: seq<Entry>, here: set<string>) returns (all: seq<Entry>)
      requires forall url :: url in here <==> HasUrl(ri, url)
      ensures all == ri + Missing(makers, ri)
    {
      all := ri;
      var i := 0;
      while i < |makers|
        invariant 0 <= i <= |makers|
        invariant all == ri + Missing(makers[..i], ri)
      {
        assert makers[..i + 1][..i] == makers[..i];
        if makers[i].url !in here {
          all := all + [makers[i]];
        }
        i := i + 1;
      }
      assert makers[..i] == makers;
    }

    /** `confuse` stands for the outcome of the random draw. */
    method MaybeConfusion(state: array<Entry>, confuse: bool) returns (r: int)
      modifies state
      ensures Confused(old(state[..]), state[..])
      ensures !confuse ==> state[..] == old(state[..])
      ensures confuse && state.Length >= 2 ==>
        var j := if state.Length == 2 then 1 else 2;
        state[..] == old(state[..])[0 := old(state[j])][j := old(state[0])]
    {
      if !confuse {
        return -1;
      }
      match state.Length
      case 0 => r := 0;
      case 1 => r := 0;
      case 2 =>
        state[0], state[1] := state[1], state[0];
        r := 2;
      case _ =>
        state[0], state[2] := state[2], state[0];
        r := 3;
    }

    method TryLookup(state: array<Entry>, k: nat, a: Attempt) returns (addrs: seq<string>, err: Option<string>)
      requires k < state.Length && !a.ContextDone?
      modifies state
      ensures state[..] == old(state[..])[k := Entry(old(state[k]).url, NewScore(old(state[k]).score, a))]
      ensures if a.LookupSucceeded? then err.None? && addrs == a.addrs else err == Some(a.error) && addrs == []
    {
      match a
      case NoChildResolver(e) =>
        state[k] := Entry(state[k].url, 0.0);
        return [], Some(e);
      case LookupSucceeded(found) =>
        state[k] := Entry(state[k].url, EWMA * 1.0 + (1.0 - EWMA) * state[k].score);
        return found, None;
      case LookupFailed(e) =>
        state[k] := Entry(state[k].url, EWMA * 0.0 + (1.0 - EWMA) * state[k].score);
        return [], Some(e);
    }

    /** Tries the resolvers in order until one succeeds. The scores are stored in any case, unless the
        store does not take them; what is stored can be read again. Panics, and stores nothing, exactly when
        some stored entry is null. */
    method LookupHost(world: World, confuse: bool, storeTakes: bool)
        returns (panics: bool, addrs: seq<string>, errors: Option<seq<ErrWrapper>>, ghost order: seq<Entry>)
      modifies this`stored
      ensures panics <==> HasNull(old(stored))
      ensures panics || !storeTakes ==> stored == old(stored)
      ensures !panics ==>
        && Confused(StateDefault(makers, EntriesOf(old(stored))), order)
        && Answer(order, proxied, world, addrs, errors)
      ensures !panics && storeTakes ==>
        && !HasNull(stored)
        && EntriesOf(stored).Some? && Updated(order, proxied, world, EntriesOf(stored).value)
    {
      hide StateDefault, Confused, Updated, Answer, NonNull;
      var state;
      panics, state := ReadStateDefault();
      if panics {
        return true, [], None, [];
      }
      var _ := MaybeConfusion(state, confuse);
      order := state[..];
      addrs, errors := LookupInOrder(state, world);
      if storeTakes {
        stored := Some(Written(state[..]));
        WrittenIsRead(state[..]);
      }
    }

    method LookupInOrder(state: array<Entry>, world: World) returns (addrs: seq<string>, errors: Option<seq<ErrWrapper>>)
      modifies state
      ensures Updated(old(state[..]), proxied, world, state[..])
      ensures Answer(old(state[..]), proxied, world, addrs, errors)
    {
      hide NewScore, ShouldSkipWithProxy, Updated, Answer, Visited;
      ghost var order := state[..];
      var me: seq<ErrWrapper> := [];
      addrs := [];
      var k := 0;
      while k < state.Length
        invariant 0 <= k <= state.Length
        invariant forall i :: 0 <= i < k ==> !Succeeds(order[i], proxied, world(i))
        invariant addrs == [] && me == ErrorsOf(order, proxied, world, k)
        invariant state[..] == Visited(order, proxied, world, k)
      {
        VisitOne(order, proxied, world, k);
        assert state[k] == state[..][k] == order[k];
        if proxied && ShouldSkipWithProxy(state[k].url) {
          k := k + 1;
          continue;
        }
        var a := world(k);
        if a.ContextDone? {
          me := me + [ErrWrapper(a.error, state[k].url)];
          k := k + 1;
          continue;
        }
        var err;
        addrs, err := TryLookup(state, k, a);
        if err.None? {
          UpdatedAtStop(order, proxied, world, k, state[..]);
          AnswerAtStop(order, proxied, world, k, addrs, None);
          return addrs, None;
        }
        me := me + [ErrWrapper(err.value, state[k].url)];
        k := k + 1;
      }
      errors := Some(me);
      UpdatedAtStop(order, proxied, world, k, state[..]);
      AnswerAtStop(order, proxied, world, k, addrs, errors);
    }
  }

  /** The list when the first `k` entries were visited. */
  ghost function Visited(s: seq<Entry>, proxied: bool, world: World, k: nat): (r: seq<Entry>)
    requires k <= |s|
    ensures |r| == |s| && (k == 0 ==> r == s)
  {
    if k == 0 then s else Visited(s, proxied, world, k - 1)[k - 1 := After(s[k - 1], proxied, world(k - 1))]
  }

  lemma {:induction false} VisitedAt(s: seq<Entry>, proxied: bool, world: World, k: nat, i: nat)
    requires k <= |s| && i < |s|
    ensures Visited(s, proxied, world, k)[i] == if i < k then After(s[i], proxied, world(i)) else s[i]
  {
    hide After;
    if k > 0 {
      VisitedAt(s, proxied, world, k - 1, i);
    }
  }

  /** Visiting one more entry, which has not been touched before; it may stay as it is. */
  lemma VisitOne(s: seq<Entry>, proxied: bool, world: World, k: nat)
    requires k < |s|
    ensures Visited(s, proxied, world, k)[k] == s[k]
    ensures Visited(s, proxied, world, k + 1) == Visited(s, proxied, world, k)[k := After(s[k], proxied, world(k))]
    ensures After(s[k], proxied, world(k)) == s[k] ==> Visited(s, proxied, world, k + 1) == Visited(s, proxied, world, k)
  {
    hide After;
    VisitedAt(s, proxied, world, k, k);
  }

  /** `n` is where the loop stopped. */
  ghost predicate StopsAt(s: seq<Entry>, proxied: bool, world: World, n: nat) {
    && n <= |s|
    && (forall i :: 0 <= i < n ==> !Succeeds(s[i], proxied, world(i)))
    && (n < |s| ==> Succeeds(s[n], proxied, world(n)))
  }

  lemma UpdatedAtStop(s: seq<Entry>, proxied: bool, world: World, n: nat, t: seq<Entry>)
    requires StopsAt(s, proxied, world, n)
    requires t == Visited(s, proxied, world, if n < |s| then n + 1 else n)
    ensures Updated(s, proxied, world, t)
  {
    hide After, Succeeds, Visited;
    StopIs(s, proxied, world, 0, n);
    forall i: nat {:trigger t[i]} | i < |s|
      ensures t[i] == if i <= n then After(s[i], proxied, world(i)) else s[i]
    {
      VisitedAt(s, proxied, world, if n < |s| then n + 1 else n, i);
    }
  }

  lemma AnswerAtStop(s: seq<Entry>, proxied: bool, world: World, n: nat, addrs: seq<string>, errors: Option<seq<ErrWrapper>>)
    requires StopsAt(s, proxied, world, n)
    requires if n < |s| then errors.None? && addrs == world(n).addrs
             else errors == Some(ErrorsOf(s, proxied, world, |s|)) && addrs == []
    ensures Answer(s, proxied, world, addrs, errors)
  {
    hide Skipped;
    StopIs(s, proxied, world, 0, n);
  }

  function After(e: Entry, proxied: bool, a: Attempt): (r: Entry)
    ensures r.url == e.url
  {
    if Tried(e, proxied, a) then Entry(e.url, NewScore(e.score, a)) else e
  }

  /** The addresses of the first success, or the errors of all entries that were not skipped. */
  ghost predicate Answer(s: seq<Entry>, proxied: bool, world: World, addrs: seq<string>, errors: Option<seq<ErrWrapper>>) {
    var stop := Stop(s, proxied, world, 0);
    if stop < |s| then errors.None? && addrs == world(stop).addrs
    else errors == Some(ErrorsOf(s, proxied, world, |s|)) && addrs == []
  }

  lemma {:induction false} StopIs(s: seq<Entry>, proxied: bool, world: World, k: nat, n: nat)
    requires k <= n <= |s|
    requires forall i :: k <= i < n ==> !Succeeds(s[i], proxied, world(i))
    requires n < |s| ==> Succeeds(s[n], proxied, world(n))
    ensures Stop(s, proxied, world, k) == n
    decreases n - k
  {
    if k < n {
      StopIs(s, proxied, world, k + 1, n);
    }
  }
}
