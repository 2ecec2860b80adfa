/** Which policies are composed, and what that guarantees to each of them
    (newHTTPSDialerPolicy of pkg/enginenetx/network.go). */
module Network {
  import opened Optional
  import opened Tactics
  import opened HappyEyeballs
  import opened MixPolicy
  import Filter
  import TestHelpersPolicy

  type UserRoot = map<string, seq<Option<Tactic>>>

  datatype Policy =
    | DnsPolicy
    | StatsPolicyV2
    | BridgesPolicyV2
    | UserPolicyV2(root: UserRoot)
    | TestHelpersPolicy(child: Policy)
    | MixPolicyInterleave(primary: Policy, fallback: Policy, factor: uint8)
    | MixPolicyEitherOr(primary: Policy, fallback: Policy)

  /** What the policies find when they run: the resolved addresses (none on failure), the
      tactics known to work, and the k-th shuffle of the SNIs. */
  datatype World = World(addrs: Option<seq<string>>, stats: seq<Tactic>, bridges: seq<Tactic>, order: nat -> seq<string>)

  function NewHTTPSDialerPolicy(proxy: bool, user: Option<UserRoot>): Policy {
    if proxy then DnsPolicy
    else
      var statsOrBridges := MixPolicyInterleave(StatsPolicyV2, BridgesPolicyV2, 3);
      var dnsExt := TestHelpersPolicy(DnsPolicy);
      var composed := MixPolicyInterleave(dnsExt, statsOrBridges, 3);
      match user
      case None => composed
      case Some(root) => MixPolicyEitherOr(UserPolicyV2(root), composed)
  }

  function DnsTactics(addrs: seq<string>, domain: string, port: string): (r: seq<Tactic>)
    ensures |r| == |addrs|
    ensures forall i {:trigger r[i]} :: 0 <= i < |addrs| ==> r[i] == Tactic(addrs[i], 0, port, domain, domain)
  {
    seq(|addrs|, i requires 0 <= i < |addrs| => Tactic(addrs[i], 0, port, domain, domain))
  }

  function UserTactics(root: UserRoot, domain: string, port: string): seq<Tactic> {
    var key := JoinHostPort(domain, port);
    if key in root then Filter.NonNil(root[key]) else []
  }

  /** The stream a policy emits. Bridges exist for one domain only. */
  function Emit(p: Policy, w: World, domain: string, port: string): seq<Tactic> {
    match p
    case DnsPolicy => DnsTactics(w.addrs.UnwrapOr([]), domain, port)
    case StatsPolicyV2 => w.stats
    case BridgesPolicyV2 => if domain == "api.ooni.io" then w.bridges else []
    case UserPolicyV2(root) => UserTactics(root, domain, port)
    case TestHelpersPolicy(child) => TestHelpersPolicy.LookupTactics(Emit(child, w, domain, port), w.order)
    case MixPolicyInterleave(primary, fallback, factor) =>
      Interleave(Emit(primary, w, domain, port), Emit(fallback, w, domain, port), Batch(factor))
    case MixPolicyEitherOr(primary, fallback) =>
      EitherOr(Emit(primary, w, domain, port), Emit(fallback, w, domain, port))
  }

  /** A stream of non-nil pointers. */
  function Pointers(ts: seq<Tactic>): (r: seq<Option<Tactic>>)
    ensures |r| == |ts|
    ensures forall i {:trigger r[i]} :: 0 <= i < |ts| ==> r[i] == Some(ts[i])
  {
    seq(|ts|, i requires 0 <= i < |ts| => Some(ts[i]))
  }

  /** What reaches the dialing workers. */
  function Scheduled(p: Policy, w: World, domain: string, port: string): seq<Tactic> {
    Filter.FilterTactics(Pointers(Emit(p, w, domain, port)))
  }

  lemma {:induction false} NonNilPointers(ts: seq<Tactic>)
    ensures Filter.NonNil(Pointers(ts)) == ts
  {
    if ts != [] {
      var n := |ts| - 1;
      NonNilPointers(ts[..n]);
      assert Pointers(ts)[..n] == Pointers(ts[..n]);
    }
  }

  /** A tactic is tried at the latest as attempt number `bound`, so with at most that delay. */
  ghost predicate TriedBy(ts: seq<Tactic>, t: Tactic, bound: nat) {
    exists k :: 0 <= k < |ts| && k <= bound
             && ts[k].SummaryKey() == t.SummaryKey()
             && (bound <= LAST_EXACT_INDEX ==> ts[k].initialDelay <= HappyEyeballsDelay(bound))
  }

  lemma ScheduledByPosition(p: Policy, w: World, domain: string, port: string, i: nat, bound: nat)
    requires i < |Emit(p, w, domain, port)| && i <= bound
    ensures TriedBy(Scheduled(p, w, domain, port), Emit(p, w, domain, port)[i], bound)
  {
    hide Tactic.SummaryKey, Emit, Filter.FilterTactics, HappyEyeballsDelay;
    var emitted := Emit(p, w, domain, port);
    NonNilPointers(emitted);
    var k := Filter.FilterSchedulesAtOrBefore(Pointers(emitted), i);
    if i < bound <= LAST_EXACT_INDEX {
      DelaysStrictlyIncrease(i, bound);
    }
  }

  /** The policy in use without a proxy and without an applicable user policy. */
  predicate Composed(proxy: bool, user: Option<UserRoot>, domain: string, port: string) {
    !proxy && (user.Some? ==> UserTactics(user.value, domain, port) == [])
  }

  /** The number by which the j-th tactic of an interleaved fallback is tried at the latest. */
  function FallbackBound(j: nat): nat {
    j + 3 * (j / 3) + 3
  }

  lemma ThirdsMonotone(i: nat, j: nat)
    requires i <= j
    ensures i / 3 <= j / 3
  {
  }

  lemma ComposedEmits(proxy: bool, user: Option<UserRoot>, w: World, domain: string, port: string)
    requires Composed(proxy, user, domain, port)
    ensures
      var dnsExt := Emit(TestHelpersPolicy(DnsPolicy), w, domain, port);
      var statsOrBridges := Interleave(w.stats, Emit(BridgesPolicyV2, w, domain, port), 3);
      Emit(NewHTTPSDialerPolicy(proxy, user), w, domain, port) == Interleave(dnsExt, statsOrBridges, 3)
  {
    hide Interleave;
    var statsOrBridges := MixPolicyInterleave(StatsPolicyV2, BridgesPolicyV2, 3);
    assert Emit(statsOrBridges, w, domain, port) == Interleave(w.stats, Emit(BridgesPolicyV2, w, domain, port), 3);
    var composed := MixPolicyInterleave(TestHelpersPolicy(DnsPolicy), statsOrBridges, 3);
    assert NewHTTPSDialerPolicy(proxy, user) ==
           if user.None? then composed else MixPolicyEitherOr(UserPolicyV2(user.value), composed);
  }

  /** The i-th address the DNS gave is tried as attempt i + 3 * (i / 3) at the latest, however many
      other tactics there are. */
  lemma DnsTacticsAreTriedEarly(proxy: bool, user: Option<UserRoot>, w: World, domain: string, port: string, i: nat)
    requires Composed(proxy, user, domain, port)
    requires w.addrs.Some? && i < |w.addrs.value|
    ensures TriedBy(Scheduled(NewHTTPSDialerPolicy(proxy, user), w, domain, port),
                    Tactic(w.addrs.value[i], 0, port, domain, domain), i + 3 * (i / 3))
  {
    hide Interleave, TriedBy, Scheduled;
    var p := NewHTTPSDialerPolicy(proxy, user);
    var dnsExt := Emit(TestHelpersPolicy(DnsPolicy), w, domain, port);
    var others := Interleave(w.stats, Emit(BridgesPolicyV2, w, domain, port), 3);
    ComposedEmits(proxy, user, w, domain, port);
    assert dnsExt[i] == Tactic(w.addrs.value[i], 0, port, domain, domain);
    InterleavePlacement(dnsExt, others, 3, i);
    ScheduledByPosition(p, w, domain, port, i + Min(3 * (i / 3), |others|), i + 3 * (i / 3));
  }

  /** A tactic at position `j` of the statistics-or-bridges stream. */
  lemma FallbackIsTriedBy(proxy: bool, user: Option<UserRoot>, w: World, domain: string, port: string, j: nat, latest: nat)
    requires Composed(proxy, user, domain, port)
    requires j < |Interleave(w.stats, Emit(BridgesPolicyV2, w, domain, port), 3)| && j <= latest
    ensures TriedBy(Scheduled(NewHTTPSDialerPolicy(proxy, user), w, domain, port),
                    Interleave(w.stats, Emit(BridgesPolicyV2, w, domain, port), 3)[j], FallbackBound(latest))
  {
    hide Interleave, TriedBy, Scheduled;
    var p := NewHTTPSDialerPolicy(proxy, user);
    var dnsExt := Emit(TestHelpersPolicy(DnsPolicy), w, domain, port);
    var others := Interleave(w.stats, Emit(BridgesPolicyV2, w, domain, port), 3);
    ComposedEmits(proxy, user, w, domain, port);
    InterleavePlacement(dnsExt, others, 3, j);
    ThirdsMonotone(j, latest);
    ScheduledByPosition(p, w, domain, port, j + Min(3 * (j / 3) + 3, |dnsExt|), FallbackBound(latest));
  }

  /** The k-th tactic the statistics suggest, through both interleavings. */
  lemma StatsTacticsAreTriedEarly(proxy: bool, user: Option<UserRoot>, w: World, domain: string, port: string, k: nat)
    requires Composed(proxy, user, domain, port)
    requires k < |w.stats|
    ensures TriedBy(Scheduled(NewHTTPSDialerPolicy(proxy, user), w, domain, port),
                    w.stats[k], FallbackBound(k + 3 * (k / 3)))
  {
    hide Interleave, TriedBy, Scheduled;
    var bridges := Emit(BridgesPolicyV2, w, domain, port);
    InterleavePlacement(w.stats, bridges, 3, k);
    FallbackIsTriedBy(proxy, user, w, domain, port, k + Min(3 * (k / 3), |bridges|), k + 3 * (k / 3));
  }

  /** The b-th bridge tactic, through both interleavings. */
  lemma BridgesAreTriedEarly(proxy: bool, user: Option<UserRoot>, w: World, port: string, b: nat)
    requires Composed(proxy, user, "api.ooni.io", port)
    requires b < |w.bridges|
    ensures TriedBy(Scheduled(NewHTTPSDialerPolicy(proxy, user), w, "api.ooni.io", port),
                    w.bridges[b], FallbackBound(FallbackBound(b)))
  {
    hide Interleave, TriedBy, Scheduled;
    InterleavePlacement(w.stats, w.bridges, 3, b);
    FallbackIsTriedBy(proxy, user, w, "api.ooni.io", port, b + Min(3 * (b / 3) + 3, |w.stats|), FallbackBound(b));
  }
}
