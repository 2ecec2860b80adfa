/** What each composition of the policies schedules, from its sources (pkg/enginenetx/network.go). */
module PolicyCases {
  import opened Optional
  import opened Tactics
  import opened HappyEyeballs
  import opened MixPolicy
  import opened Network
  import F = Filter
  import H = TestHelpersPolicy
  import N = TacticNet

  /** `out` are the tactics of the list, without nil entries and without those whose key came before, in their order
      and with the delays of their new positions. `ps` are the positions from which they are. */
  ghost predicate TakenFrom(entries: seq<Option<Tactic>>, out: seq<Tactic>, ps: seq<nat>) {
    && |ps| == |out| && F.Increasing(ps)
    && (forall k {:trigger out[k]} {:trigger ps[k]} :: 0 <= k < |out| ==>
          && ps[k] < |entries| && entries[ps[k]].Some?
          && out[k] == entries[ps[k]].value.(initialDelay := HappyEyeballsDelay(k)))
    && (forall i: nat {:trigger entries[i]} :: i < |entries| && entries[i].Some? ==>
          (i in ps <==> forall j {:trigger entries[j]} :: 0 <= j < i && entries[j].Some? ==>
             entries[j].value.SummaryKey() != entries[i].value.SummaryKey()))
  }

  ghost predicate FirstOccurrences(entries: seq<Option<Tactic>>, out: seq<Tactic>) {
    exists ps :: TakenFrom(entries, out, ps)
  }

  /** The same for tactics before the delays are assigned. */
  ghost predicate UniqueFrom(entries: seq<Option<Tactic>>, out: seq<Tactic>, ps: seq<nat>) {
    && |ps| == |out| && F.Increasing(ps)
    && (forall k {:trigger out[k]} {:trigger ps[k]} :: 0 <= k < |out| ==>
          ps[k] < |entries| && entries[ps[k]].Some? && out[k] == entries[ps[k]].value)
    && (forall i: nat {:trigger entries[i]} :: i < |entries| && entries[i].Some? ==> (i in ps <==> IsFirst(entries, i)))
  }

  predicate IsFirst(entries: seq<Option<Tactic>>, i: nat)
    requires i < |entries| && entries[i].Some?
  {
    forall j {:trigger entries[j]} :: 0 <= j < i && entries[j].Some? ==>
      entries[j].value.SummaryKey() != entries[i].value.SummaryKey()
  }

  /** Some tactic of the list has the key. */
  ghost predicate HasKey(entries: seq<Option<Tactic>>, key: string) {
    exists j {:trigger entries[j]} :: 0 <= j < |entries| && entries[j].Some? && entries[j].value.SummaryKey() == key
  }

  lemma HasKeyStep(entries: seq<Option<Tactic>>, key: string)
    requires entries != []
    ensures
      var n := |entries| - 1;
      HasKey(entries, key) <==> HasKey(entries[..n], key) || (entries[n].Some? && entries[n].value.SummaryKey() == key)
  {
    hide Tactic.SummaryKey;
    var n := |entries| - 1;
    assert forall j {:trigger entries[j]} :: 0 <= j < n ==> entries[..n][j] == entries[j];
    if HasKey(entries[..n], key) {
      var j :| 0 <= j < n && entries[..n][j].Some? && entries[..n][j].value.SummaryKey() == key;
      assert entries[j].Some? && entries[j].value.SummaryKey() == key;
    }
  }

  lemma {:induction false} KeysOfNonNil(entries: seq<Option<Tactic>>, key: string)
    ensures key in F.Keys(F.NonNil(entries)) <==> HasKey(entries, key)
  {
    hide Tactic.SummaryKey;
    if entries != [] {
      var n := |entries| - 1;
      HasKeyStep(entries, key);
      hide HasKey;
      KeysOfNonNil(entries[..n], key);
      if entries[n].Some? {
        KeysAppend(F.NonNil(entries[..n]), entries[n].value);
      } else {
        assert F.NonNil(entries) == F.NonNil(entries[..n]);
      }
    }
  }

  lemma KeysAppend(ts: seq<Tactic>, t: Tactic)
    ensures F.Keys(ts + [t]) == F.Keys(ts) + [t.SummaryKey()]
  {
    hide Tactic.SummaryKey;
    assert (ts + [t])[..|ts|] == ts;
  }

  lemma {:induction false} UniquePositions(entries: seq<Option<Tactic>>) returns (ps: seq<nat>)
    ensures UniqueFrom(entries, F.Unique(F.NonNil(entries)), ps)
  {
    hide Tactic.SummaryKey, F.Unique;
    if entries == [] {
      ps := [];
      assert F.NonNil(entries) == [];
      NothingIsUnique();
    } else {
      var n := |entries| - 1;
      ps := UniquePositions(entries[..n]);
      var front, all := F.NonNil(entries[..n]), F.NonNil(entries);
      assert forall j :: 0 <= j < n ==> entries[..n][j] == entries[j];
      if entries[n].Some? {
        assert all == front + [entries[n].value] && all[..|front|] == front;
        N.UniqueStep(all);
        assert all[|front|] == entries[n].value;
        KeysOfNonNil(entries[..n], entries[n].value.SummaryKey());
        assert IsFirst(entries, n) <==> !HasKey(entries[..n], entries[n].value.SummaryKey()) by { FirstHasNoKey(entries, n); }
        if IsFirst(entries, n) {
          ps := ps + [n];
        } else {
          assert F.Unique(all) == F.Unique(front);
        }
      } else {
        assert all == front;
      }
      OneMoreEntry(entries, F.Unique(front), F.Unique(all), ps);
    }
  }

  lemma FirstHasNoKey(entries: seq<Option<Tactic>>, i: nat)
    requires i < |entries| && entries[i].Some?
    ensures IsFirst(entries, i) <==> !HasKey(entries[..i], entries[i].value.SummaryKey())
  {
    hide Tactic.SummaryKey;
    var key := entries[i].value.SummaryKey();
    assert forall j {:trigger entries[j]} :: 0 <= j < i ==> entries[..i][j] == entries[j];
    if HasKey(entries[..i], key) {
      var j :| 0 <= j < i && entries[..i][j].Some? && entries[..i][j].value.SummaryKey() == key;
      assert entries[j].Some?;
    }
  }

  lemma NothingIsUnique()
    ensures F.Unique([]) == []
  {
  }

  lemma OneMoreEntry(entries: seq<Option<Tactic>>, before: seq<Tactic>, out: seq<Tactic>, ps: seq<nat>)
    requires entries != []
    requires
      var n := |entries| - 1;
      if entries[n].Some? && IsFirst(entries, n)
      then ps != [] && ps[|ps| - 1] == n && UniqueFrom(entries[..n], before, ps[..|ps| - 1]) && out == before + [entries[n].value]
      else UniqueFrom(entries[..n], before, ps) && out == before
    ensures UniqueFrom(entries, out, ps)
  {
    hide Tactic.SummaryKey;
    var n := |entries| - 1;
    assert forall j :: 0 <= j < n ==> entries[..n][j] == entries[j];
    forall i: nat | i < n && entries[i].Some?
      ensures IsFirst(entries[..n], i) <==> IsFirst(entries, i)
    {
    }
    if entries[n].Some? && IsFirst(entries, n) {
      var front := ps[..|ps| - 1];
      assert ps == front + [n];
    }
  }

  /** What reaches the dialing workers, of any list that a policy emits. */
  lemma FilterTakesFirst(entries: seq<Option<Tactic>>)
    ensures FirstOccurrences(entries, F.FilterTactics(entries))
  {
    hide Tactic.SummaryKey, F.Unique, F.NonNil, HappyEyeballsDelay;
    var ps := UniquePositions(entries);
    assert TakenFrom(entries, F.FilterTactics(entries), ps);
  }

  // ----- the cases

  /** What a policy gives the dialer, when its user policy has a tactic for the endpoint: the tactics of the user, each
      key once and in the order of the user, and nothing else. */
  lemma UserTacticsReplaceAllOthers(root: UserRoot, w: World, domain: string, port: string)
    requires JoinHostPort(domain, port) in root
    requires exists t :: Some(t) in root[JoinHostPort(domain, port)]
    ensures FirstOccurrences(root[JoinHostPort(domain, port)],
                             Scheduled(NewHTTPSDialerPolicy(false, Some(root)), w, domain, port))
  {
    hide JoinHostPort, Interleave, FirstOccurrences, F.FilterTactics, F.NonNil;
    var entries := root[JoinHostPort(domain, port)];
    var t :| Some(t) in entries;
    NonNilMembers(entries, t);
    var p := NewHTTPSDialerPolicy(false, Some(root));
    assert Emit(p, w, domain, port) == F.NonNil(entries);
    NonNilPointers(F.NonNil(entries));
    SameNonNil(Pointers(F.NonNil(entries)), entries);
    FilterTakesFirst(entries);
  }

  lemma SameNonNil(a: seq<Option<Tactic>>, b: seq<Option<Tactic>>)
    requires F.NonNil(a) == F.NonNil(b)
    ensures F.FilterTactics(a) == F.FilterTactics(b)
  {
  }

  lemma {:induction false} NonNilMembers(entries: seq<Option<Tactic>>, t: Tactic)
    ensures t in F.NonNil(entries) <==> Some(t) in entries
  {
    if entries != [] {
      var n := |entries| - 1;
      NonNilMembers(entries[..n], t);
      assert entries == entries[..n] + [entries[n]];
    }
  }

  /** Some scheduled tactic has the key. */
  predicate IsScheduled(out: seq<Tactic>, key: string) {
    exists k {:trigger out[k]} :: 0 <= k < |out| && out[k].SummaryKey() == key
  }

  lemma KeyIgnoresDelay(t: Tactic, d: int)
    ensures t.(initialDelay := d).SummaryKey() == t.SummaryKey()
  {
  }

  lemma ScheduledIsEmitted(entries: seq<Option<Tactic>>, out: seq<Tactic>, k: nat) returns (i: nat)
    requires FirstOccurrences(entries, out) && k < |out|
    ensures i < |entries| && entries[i].Some? && out[k] == entries[i].value.(initialDelay := HappyEyeballsDelay(k))
    ensures out[k].SummaryKey() == entries[i].value.SummaryKey()
  {
    hide Tactic.SummaryKey, HappyEyeballsDelay;
    var ps :| TakenFrom(entries, out, ps);
    i := ps[k];
    KeyIgnoresDelay(entries[i].value, HappyEyeballsDelay(k));
  }

  /** Exactly the keys that a policy emits are scheduled. */
  lemma ScheduledKeys(p: Policy, w: World, domain: string, port: string, key: string)
    ensures
      IsScheduled(Scheduled(p, w, domain, port), key) <==> exists t :: t in Emit(p, w, domain, port) && t.SummaryKey() == key
  {
    hide Tactic.SummaryKey, Emit, F.FilterTactics, HappyEyeballsDelay, FirstOccurrences;
    var emitted := Emit(p, w, domain, port);
    var entries := Pointers(emitted);
    var out := Scheduled(p, w, domain, port);
    if IsScheduled(out, key) {
      FilterTakesFirst(entries);
      var k :| 0 <= k < |out| && out[k].SummaryKey() == key;
      var i := ScheduledIsEmitted(entries, out, k);
      assert emitted[i] in emitted;
    }
    if t :| t in emitted && t.SummaryKey() == key {
      var i :| 0 <= i < |emitted| && emitted[i] == t;
      NonNilPointers(emitted);
      var k := F.FilterSchedulesAtOrBefore(entries, i);
      assert out[k].SummaryKey() == key;
    }
  }

  predicate DistinctKeys(out: seq<Tactic>) {
    forall i, j {:trigger out[i], out[j]} :: 0 <= i < j < |out| ==> out[i].SummaryKey() != out[j].SummaryKey()
  }

  lemma ScheduledOnce(p: Policy, w: World, domain: string, port: string)
    ensures DistinctKeys(Scheduled(p, w, domain, port))
  {
    hide Tactic.SummaryKey, Emit, F.FilterTactics;
    var out := Scheduled(p, w, domain, port);
    forall i, j {:trigger out[i], out[j]} | 0 <= i < j < |out|
      ensures out[i].SummaryKey() != out[j].SummaryKey()
    {
      F.FilteredKeysAreDistinct(Pointers(Emit(p, w, domain, port)), i, j);
    }
  }

  /** With a proxy, one tactic for each key of the resolved addresses, of the domain for everything, in the order of
      the addresses; the user's policy is not looked at. */
  lemma ProxySchedulesTheAddresses(user: Option<UserRoot>, w: World, domain: string, port: string, i: nat)
    ensures
      var out := Scheduled(NewHTTPSDialerPolicy(true, user), w, domain, port);
      var addrs := w.addrs.UnwrapOr([]);
      && (i < |addrs| ==> IsScheduled(out, Tactic(addrs[i], 0, port, domain, domain).SummaryKey()))
      && (i < |out| ==> exists a :: a in addrs && out[i] == Tactic(a, HappyEyeballsDelay(i), port, domain, domain))
      && DistinctKeys(out)
  {
    hide Tactic.SummaryKey, F.FilterTactics, HappyEyeballsDelay, FirstOccurrences, DistinctKeys;
    var p := NewHTTPSDialerPolicy(true, user);
    var addrs := w.addrs.UnwrapOr([]);
    var emitted := Emit(p, w, domain, port);
    var out := Scheduled(p, w, domain, port);
    assert emitted == DnsTactics(addrs, domain, port);
    ScheduledOnce(p, w, domain, port);
    if i < |addrs| {
      ScheduledKeys(p, w, domain, port, emitted[i].SummaryKey());
      assert emitted[i] in emitted;
    }
    if i < |out| {
      FilterTakesFirst(Pointers(emitted));
      var j := ScheduledIsEmitted(Pointers(emitted), out, i);
      assert emitted[j] == Tactic(addrs[j], 0, port, domain, domain) && addrs[j] in addrs;
    }
  }

  /** The bridges are for one domain only. */
  lemma {:induction false} BridgesAreForOneDomain(p: Policy, w: World, bridges: seq<Tactic>, domain: string, port: string)
    requires domain != "api.ooni.io"
    ensures Emit(p, w.(bridges := bridges), domain, port) == Emit(p, w, domain, port)
    ensures Scheduled(p, w.(bridges := bridges), domain, port) == Scheduled(p, w, domain, port)
    decreases p
  {
    hide Interleave, F.FilterTactics, H.LookupTactics;
    match p
    case TestHelpersPolicy(child) => BridgesAreForOneDomain(child, w, bridges, domain, port);
    case MixPolicyInterleave(primary, fallback, _) =>
      BridgesAreForOneDomain(primary, w, bridges, domain, port);
      BridgesAreForOneDomain(fallback, w, bridges, domain, port);
    case MixPolicyEitherOr(primary, fallback) =>
      BridgesAreForOneDomain(primary, w, bridges, domain, port);
      BridgesAreForOneDomain(fallback, w, bridges, domain, port);
    case _ =>
  }

  /** Where a tactic of the composed policies comes from: the resolved addresses, also with the further server names
      when the domain is a test helper's, the statistics, or the bridges of their domain. */
  ghost predicate HasSource(w: World, snis: seq<string>, domain: string, port: string, t: Tactic) {
    || (exists a :: a in w.addrs.UnwrapOr([]) && t == Tactic(a, 0, port, domain, domain))
    || (&& domain in ["0.th.ooni.org", "1.th.ooni.org", "2.th.ooni.org", "3.th.ooni.org", "d33d1gs9kpq1c5.cloudfront.net"]
        && exists a, sni :: a in w.addrs.UnwrapOr([]) && sni in snis && t == Tactic(a, 0, port, sni, domain))
    || t in w.stats
    || (domain == "api.ooni.io" && t in w.bridges)
  }

  lemma DnsMembers(addrs: seq<string>, domain: string, port: string, t: Tactic)
    ensures t in DnsTactics(addrs, domain, port) <==> exists a :: a in addrs && t == Tactic(a, 0, port, domain, domain)
  {
    var r := DnsTactics(addrs, domain, port);
    if a :| a in addrs && t == Tactic(a, 0, port, domain, domain) {
      var i :| 0 <= i < |addrs| && addrs[i] == a;
      assert r[i] == t;
    }
    if t in r {
      var i :| 0 <= i < |r| && r[i] == t;
      assert addrs[i] in addrs;
    }
  }

  lemma InterleaveMembers(p: seq<Tactic>, f: seq<Tactic>, n: nat, t: Tactic)
    requires n >= 1
    ensures t in Interleave(p, f, n) <==> t in p || t in f
  {
    hide Interleave;
    InterleaveConserves(p, f, n);
    assert t in Interleave(p, f, n) <==> t in multiset(Interleave(p, f, n));
  }

  lemma ExtendedMembers(w: World, snis: seq<string>, domain: string, port: string, t: Tactic)
    requires forall k: nat :: multiset(w.order(k)) == multiset(snis)
    ensures
      var addrs := w.addrs.UnwrapOr([]);
      t in Emit(TestHelpersPolicy(DnsPolicy), w, domain, port) <==>
        || (exists a :: a in addrs && t == Tactic(a, 0, port, domain, domain))
        || (domain in H.TEST_HELPERS_DOMAINS && exists a, sni :: a in addrs && sni in snis && t == Tactic(a, 0, port, sni, domain))
  {
    hide H.TEST_HELPERS_DOMAINS, H.LookupTactics;
    var addrs := w.addrs.UnwrapOr([]);
    var child := DnsTactics(addrs, domain, port);
    var all := H.LookupTactics(child, w.order);
    H.LookupTacticsMeaning(child, w.order, snis, t);
    assert all == child + all[|child|..];
    forall x
      ensures x in child <==> exists a :: a in addrs && x == Tactic(a, 0, port, domain, domain)
    {
      DnsMembers(addrs, domain, port, x);
    }
    if domain in H.TEST_HELPERS_DOMAINS {
      if a, sni :| a in addrs && sni in snis && t == Tactic(a, 0, port, sni, domain) {
        assert Tactic(a, 0, port, domain, domain) in child;
      }
    }
  }

  /** Without a proxy, and when the user has nothing for the endpoint, the keys that are scheduled are exactly those of
      tactics with a source, each once. */
  lemma ComposedSchedulesAllSources(user: Option<UserRoot>, w: World, snis: seq<string>, domain: string, port: string, key: string)
    requires user.Some? && JoinHostPort(domain, port) in user.value ==>
               forall t :: Some(t) !in user.value[JoinHostPort(domain, port)]
    requires forall k: nat :: multiset(w.order(k)) == multiset(snis)
    ensures
      var out := Scheduled(NewHTTPSDialerPolicy(false, user), w, domain, port);
      && (IsScheduled(out, key) <==> exists t :: HasSource(w, snis, domain, port, t) && t.SummaryKey() == key)
      && DistinctKeys(out)
  {
    hide Tactic.SummaryKey, JoinHostPort, Interleave, Scheduled, IsScheduled, DistinctKeys;
    var p := NewHTTPSDialerPolicy(false, user);
    ScheduledKeys(p, w, domain, port, key);
    ScheduledOnce(p, w, domain, port);
    assert Composed(false, user, domain, port) by { NothingForEndpoint(user, domain, port); }
    ComposedEmits(false, user, w, domain, port);
    forall t
      ensures t in Emit(p, w, domain, port) <==> HasSource(w, snis, domain, port, t)
    {
      ComposedMembers(w, snis, domain, port, t);
    }
  }

  lemma NothingForEndpoint(user: Option<UserRoot>, domain: string, port: string)
    requires user.Some? && JoinHostPort(domain, port) in user.value ==>
               forall t :: Some(t) !in user.value[JoinHostPort(domain, port)]
    ensures user.Some? ==> UserTactics(user.value, domain, port) == []
  {
    hide JoinHostPort;
    if user.Some? && JoinHostPort(domain, port) in user.value {
      var entries := user.value[JoinHostPort(domain, port)];
      forall t
        ensures t !in F.NonNil(entries)
      {
        NonNilMembers(entries, t);
      }
      if F.NonNil(entries) != [] {
        assert F.NonNil(entries)[0] !in F.NonNil(entries);
      }
    }
  }

  lemma ComposedMembers(w: World, snis: seq<string>, domain: string, port: string, t: Tactic)
    requires forall k: nat :: multiset(w.order(k)) == multiset(snis)
    ensures
      var dnsExt := Emit(TestHelpersPolicy(DnsPolicy), w, domain, port);
      var statsOrBridges := Interleave(w.stats, Emit(BridgesPolicyV2, w, domain, port), 3);
      t in Interleave(dnsExt, statsOrBridges, 3) <==> HasSource(w, snis, domain, port, t)
  {
    hide Interleave, H.LookupTactics;
    var dnsExt := Emit(TestHelpersPolicy(DnsPolicy), w, domain, port);
    var bridges := Emit(BridgesPolicyV2, w, domain, port);
    InterleaveMembers(w.stats, bridges, 3, t);
    InterleaveMembers(dnsExt, Interleave(w.stats, bridges, 3), 3, t);
    ExtendedMembers(w, snis, domain, port, t);
  }
}
