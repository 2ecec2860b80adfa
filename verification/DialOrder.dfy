/** In which order a dial tries its tactics, also when it succeeds or is canceled
    (pkg/enginenetx/httpsdialer.go, pkg/enginenetx/dnspolicy.go). */
module DialOrder {
  import opened Optional
  import opened Tactics
  import opened HappyEyeballs
  import opened Network
  import opened TacticNet
  import opened HttpsDialer

  // ----- what cancellation can change

  /** No goroutine that looks at the context is still to start: cancellation changes nothing any more. */
  predicate Steady(a: Net) {
    match a
    case Leaf(started, watchesCtx, _) => started || !watchesCtx
    case Filter(_, _, _, up) => Steady(up)
    case Helpers(_, _, _, _, _, _, child) => Steady(child)
    case Mix(_, _, _, _, _, _, _, primary, fallback) => Steady(primary) && Steady(fallback)
    case Either(any, _, _, _, primary, fallback) => Steady(primary) && (any || Steady(fallback))
  }

  /** Nothing is emitted before the goroutine that looks at the context starts; there is at most one such. */
  predicate Guarded(a: Net) {
    match a
    case Leaf(_, _, _) => true
    case Filter(_, slot, _, up) => Guarded(up) && (Steady(up) || slot == [])
    case Helpers(_, slot, _, _, _, _, child) => Guarded(child) && (Steady(child) || slot == [])
    case Mix(_, onPrimary, taken, pOpen, _, slot, _, primary, fallback) =>
      && Guarded(primary) && Steady(fallback)
      && (Steady(primary) || (onPrimary && taken == 0 && pOpen && slot == []))
    case Either(any, _, slot, _, primary, fallback) =>
      && Steady(primary) && Guarded(fallback)
      && (any || Steady(fallback) || slot == [])
  }

  /** The net in which the lookup of the guarding goroutine gives nothing. */
  function Quenched(a: Net): Net {
    match a
    case Leaf(started, watchesCtx, items) => if started || !watchesCtx then a else Leaf(started, watchesCtx, [])
    case Filter(stage, slot, done, up) => Filter(stage, slot, done, Quenched(up))
    case Helpers(order, slot, todo, drained, queue, done, child) =>
      Helpers(order, slot, todo, drained, queue, done, Quenched(child))
    case Mix(n, onPrimary, taken, pOpen, fOpen, slot, done, primary, fallback) =>
      Mix(n, onPrimary, taken, pOpen, fOpen, slot, done, Quenched(primary), fallback)
    case Either(any, onFallback, slot, done, primary, fallback) =>
      Either(any, onFallback, slot, done, primary, Quenched(fallback))
  }

  lemma {:induction false} GuardedOffersNothing(a: Net)
    requires Valid(a) && Guarded(a) && !Steady(a)
    ensures Offer(a) == [] && !Closed(a)
    decreases a
  {
    match a
    case Leaf(_, _, _) =>
    case Filter(_, _, _, up) => GuardedOffersNothing(up);
    case Helpers(_, _, _, _, _, _, child) => GuardedOffersNothing(child);
    case Mix(_, _, _, _, _, _, _, primary, _) => GuardedOffersNothing(primary);
    case Either(_, _, _, _, _, fallback) => GuardedOffersNothing(fallback);
  }

  lemma {:induction false} QuenchedIsValid(a: Net)
    requires Valid(a) && Guarded(a) && !Steady(a)
    ensures Valid(Quenched(a)) && Offer(Quenched(a)) == [] && !Closed(Quenched(a))
    decreases a
  {
    GuardedOffersNothing(a);
    match a
    case Leaf(_, _, _) =>
    case Filter(_, _, _, up) => QuenchedIsValid(up); GuardedOffersNothing(up);
    case Helpers(_, _, _, _, _, _, child) => QuenchedIsValid(child); GuardedOffersNothing(child);
    case Mix(_, _, _, _, _, _, _, primary, _) => QuenchedIsValid(primary); GuardedOffersNothing(primary);
    case Either(_, _, _, _, _, fallback) => QuenchedIsValid(fallback); GuardedOffersNothing(fallback);
  }

  lemma {:induction false} TakeStaysSteady(a: Net)
    requires Valid(a) && Offer(a) != []
    ensures Steady(a) ==> Steady(Take(a))
    ensures Guarded(a) ==> Guarded(Take(a)) && Steady(a)
  {
    if Guarded(a) && !Steady(a) {
      GuardedOffersNothing(a);
    }
  }

  /** The topmost goroutine's step, when cancellation changes nothing. */
  lemma OwnStepStaysSteady(a: Net)
    requires Valid(a) && Steady(a) && OwnStep(a).Some?
    ensures Steady(OwnStep(a).value)
    ensures Guarded(a) ==> Guarded(OwnStep(a).value)
  {
    hide StageStep;
    match a
    case Leaf(_, _, _) =>
    case Filter(_, _, _, up) => if Offer(up) != [] { TakeStaysSteady(up); }
    case Helpers(_, _, _, _, _, _, child) => if Offer(child) != [] { TakeStaysSteady(child); }
    case Mix(_, _, _, _, _, _, _, primary, fallback) =>
      if Offer(primary) != [] { TakeStaysSteady(primary); }
      if Offer(fallback) != [] { TakeStaysSteady(fallback); }
    case Either(_, _, _, _, primary, fallback) =>
      if Offer(primary) != [] { TakeStaysSteady(primary); }
      if Offer(fallback) != [] { TakeStaysSteady(fallback); }
  }

  /** A step of a steady net is one that does not depend on cancellation. */
  lemma {:induction false} SteadyStep(a: Net, b: Net, cancelled: bool)
    requires Valid(a) && Steady(a) && Internal(a, b, cancelled)
    ensures Internal(a, b, false) && Steady(b)
    ensures Guarded(a) ==> Guarded(b)
    decreases a
  {
    if OwnStep(a) == Some(b) {
      OwnStepStaysSteady(a);
    } else {
      hide OwnStep;
      match a
      case Leaf(_, _, _) =>
      case Filter(_, _, _, up) => SteadyStep(up, b.up, cancelled);
      case Helpers(_, _, _, _, _, _, child) => SteadyStep(child, b.child, cancelled);
      case Mix(_, _, _, _, _, _, _, primary, fallback) =>
        if b.fallback == fallback && Internal(primary, b.primary, cancelled) {
          SteadyStep(primary, b.primary, cancelled);
        } else {
          SteadyStep(fallback, b.fallback, cancelled);
        }
      case Either(_, onFallback, _, _, primary, fallback) =>
        if onFallback {
          SteadyStep(fallback, b.fallback, cancelled);
        } else {
          SteadyStep(primary, b.primary, cancelled);
        }
    }
  }

  /** A step before the guarding goroutine starts is a step of the quenched net too; the one with which it starts
      is a step of the one or of the other. */
  ghost predicate StepsAlong(a: Net, b: Net) {
    if Steady(b) then Internal(a, b, false) || Internal(Quenched(a), b, false)
    else Internal(a, b, false) && Internal(Quenched(a), Quenched(b), false)
  }

  lemma EitherOwnStep(a: Net)
    requires a.Either? && Valid(a) && Guarded(a) && !Steady(a) && OwnStep(a).Some?
    ensures Guarded(OwnStep(a).value) && StepsAlong(a, OwnStep(a).value)
  {
    GuardedOffersNothing(a.fallback);
    QuenchedIsValid(a.fallback);
    if !a.onFallback && Offer(a.primary) != [] {
      TakeStaysSteady(a.primary);
    }
  }

  lemma {:induction false} GuardedStep(a: Net, b: Net, cancelled: bool)
    requires Valid(a) && Guarded(a) && !Steady(a) && Internal(a, b, cancelled)
    ensures Guarded(b) && StepsAlong(a, b)
    ensures !cancelled ==> Internal(a, b, false)
    decreases a
  {
    GuardedOffersNothing(a);
    match a
    case Leaf(_, _, _) =>
    case Filter(_, _, _, up) =>
      GuardedOffersNothing(up);
      GuardedStep(up, b.up, cancelled);
    case Helpers(_, _, _, _, _, _, child) =>
      GuardedOffersNothing(child);
      GuardedStep(child, b.child, cancelled);
    case Mix(_, _, _, _, _, _, _, primary, fallback) =>
      GuardedOffersNothing(primary);
      if b.fallback == fallback && Internal(primary, b.primary, cancelled) {
        GuardedStep(primary, b.primary, cancelled);
      } else {
        SteadyStep(fallback, b.fallback, cancelled);
      }
    case Either(_, onFallback, _, _, primary, fallback) =>
      if OwnStep(a) == Some(b) {
        EitherOwnStep(a);
      } else if onFallback {
        GuardedStep(fallback, b.fallback, cancelled);
      } else {
        SteadyStep(primary, b.primary, cancelled);
      }
  }

  // ----- dials

  /** Which streams the workers receive from: `total` as long as nobody but the dialer itself cancels, or else
      `quenched` when the caller canceled before the guarding goroutine got its answer. */
  ghost predicate InOrder(s: State, total: seq<Msg>, quenched: seq<Msg>)
    requires Valid(s.net)
  {
    && Guarded(s.net)
    && (Steady(s.net) ==>
          || Pointers(s.emitted) + Flow(s.net) == total
          || (s.external && Pointers(s.emitted) + Flow(s.net) == quenched))
    && (!Steady(s.net) ==>
          && s.emitted == [] && Flow(s.net) == total
          && Valid(Quenched(s.net)) && Flow(Quenched(s.net)) == quenched)
  }

  /** Before the guarding goroutine starts only the caller can have canceled. */
  lemma OnlyTheCallerCancels(s: State, total: seq<Msg>)
    requires Inv(s, total) && s.outcome.None? && s.emitted == [] && s.cancelled
    ensures s.external
  {
    hide ConnectionsAccounted, EventsAccounted, Gather, Sum, Flow;
    NoTacticNoConnection(s);
  }

  lemma NetStepKeepsOrder(s: State, net: Net, total: seq<Msg>, quenched: seq<Msg>)
    requires Inv(s, total) && s.outcome.None? && InOrder(s, total, quenched) && Internal(s.net, net, s.cancelled)
    ensures Valid(net) && InOrder(s.(net := net), total, quenched)
  {
    hide Inv, Flow, Valid, Internal, Steady, Guarded, Quenched, Closed;
    assert Valid(s.net) by { NetIsValid(s, total); }
    InternalKeepsFlow(s.net, net, s.cancelled);
    if Steady(s.net) {
      SteadyStep(s.net, net, s.cancelled);
      InternalKeepsFlow(s.net, net, false);
    } else {
      GuardedStep(s.net, net, s.cancelled);
      assert Pointers(s.emitted) == [];
      if s.cancelled {
        OnlyTheCallerCancels(s, total);
      }
      if Internal(s.net, net, false) {
        InternalKeepsFlow(s.net, net, false);
        assert [] + Flow(net) == Flow(net);
      }
      QuenchedStep(s.net, net);
    }
  }

  lemma QuenchedStep(a: Net, b: Net)
    requires Valid(a) && Guarded(a) && !Steady(a) && Valid(b) && Guarded(b) && StepsAlong(a, b)
    ensures Valid(Quenched(a))
    ensures Steady(b) && !Internal(a, b, false) ==> [] + Flow(b) == Flow(Quenched(a))
    ensures !Steady(b) ==> Valid(Quenched(b)) && Flow(Quenched(b)) == Flow(Quenched(a))
  {
    hide Flow, Valid, Internal, Steady, Guarded, Quenched;
    QuenchedIsValid(a);
    if !Steady(b) {
      InternalKeepsFlow(Quenched(a), Quenched(b), false);
    } else if !Internal(a, b, false) {
      InternalKeepsFlow(Quenched(a), b, false);
      assert [] + Flow(b) == Flow(b);
    }
  }

  lemma NetIsValid(s: State, total: seq<Msg>)
    requires Inv(s, total)
    ensures Valid(s.net) && s.net.Filter? && |s.workers| == PARALLELISM
  {
    hide Valid, Closed;
  }

  lemma TakeKeepsOrder(s: State, w: nat, total: seq<Msg>, quenched: seq<Msg>)
    requires Inv(s, total) && InOrder(s, total, quenched) && Enabled(s, TakeTactic(w))
    ensures Valid(Apply(s, TakeTactic(w)).net) && InOrder(Apply(s, TakeTactic(w)), total, quenched)
  {
    hide Inv, Flow, Valid, Steady, Guarded, Quenched, Closed, Offer, Take, Pointers, Apply, Enabled;
    NetIsValid(s, total);
    TakeEffect(s, w);
    TakeGivesTheHead(s.net);
    TakeStaysSteady(s.net);
    var tactic := Offer(s.net)[0].value;
    var s' := Apply(s, TakeTactic(w));
    OnePointer(s.emitted, tactic);
    assert Pointers(s.emitted) + ([Some(tactic)] + Flow(s'.net)) == Pointers(s'.emitted) + Flow(s'.net);
  }

  lemma OtherStepKeepsOrder(s: State, step: Step, total: seq<Msg>, quenched: seq<Msg>)
    requires Valid(s.net) && InOrder(s, total, quenched)
    requires Enabled(s, step) && !step.NetStep? && !step.TakeTactic?
    ensures Valid(Apply(s, step).net) && InOrder(Apply(s, step), total, quenched)
  {
    hide Valid, Flow, Internal, Closed, Offer, Take, Pointers, Steady, Guarded, Quenched;
    var s' := Apply(s, step);
    assert s.emitted + [] == s.emitted;
    assert s'.net == s.net && s'.emitted == s.emitted && (s.external ==> s'.external);
  }

  lemma StepKeepsOrder(s: State, step: Step, total: seq<Msg>, quenched: seq<Msg>)
    requires Inv(s, total) && Valid(s.net) && InOrder(s, total, quenched) && Enabled(s, step)
    ensures Valid(Apply(s, step).net) && InOrder(Apply(s, step), total, quenched)
  {
    if s.outcome.Some? {
      hide *;
      NoStepAfterReturn(s, step, total);
    } else {
      hide Inv, InOrder, Valid, Internal, WorkerEnabled, WorkerMove;
      match step
      case NetStep(net) => NetStepKeepsOrder(s, net, total, quenched);
      case TakeTactic(w) => TakeKeepsOrder(s, w, total, quenched);
      case _ => OtherStepKeepsOrder(s, step, total, quenched);
    }
  }

  lemma {:induction false} DialKeepsOrder(net: Net, states: seq<State>, steps: seq<Step>, i: nat)
    requires IsDial(net, states, steps) && i < |states|
    requires Guarded(net) && !Steady(net)
    ensures Valid(Quenched(net)) && Valid(states[i].net) && InOrder(states[i], Flow(net), Flow(Quenched(net)))
    decreases i
  {
    hide Inv, Enabled, Apply, Valid, Flow, Guarded, Steady, Quenched, InOrder;
    QuenchedIsValid(net);
    DialKeepsInv(net, states, steps, i);
    NetIsValid(states[i], Flow(net));
    if i == 0 {
      InitInOrder(net);
    } else {
      DialKeepsOrder(net, states, steps, i - 1);
      DialKeepsInv(net, states, steps, i - 1);
      var step := steps[i - 1];
      StepKeepsOrder(states[i - 1], step, Flow(net), Flow(Quenched(net)));
    }
  }

  lemma InitInOrder(net: Net)
    requires Valid(net) && Guarded(net) && !Steady(net) && Valid(Quenched(net))
    ensures InOrder(Init(net), Flow(net), Flow(Quenched(net)))
  {
    hide Valid, Flow, Guarded, Steady, Quenched;
  }

  // ----- the composed policies

  /** What the policies find when the lookup of the name gives nothing. */
  function WithoutAddrs(w: World): World {
    w.(addrs := None)
  }

  lemma {:induction false} NoDnsIsSteady(p: Policy, w: World, domain: string, port: string)
    requires NoDns(p)
    ensures Steady(Start(p, w, domain, port)) && Start(p, WithoutAddrs(w), domain, port) == Start(p, w, domain, port)
    decreases p
  {
    match p
    case MixPolicyInterleave(primary, fallback, _) =>
      NoDnsIsSteady(primary, w, domain, port);
      NoDnsIsSteady(fallback, w, domain, port);
    case MixPolicyEitherOr(primary, fallback) =>
      NoDnsIsSteady(primary, w, domain, port);
      NoDnsIsSteady(fallback, w, domain, port);
    case TestHelpersPolicy(child) => NoDnsIsSteady(child, w, domain, port);
    case _ =>
  }

  /** Policies that do not resolve the name. */
  predicate NoDns(p: Policy) {
    match p
    case DnsPolicy => false
    case TestHelpersPolicy(child) => NoDns(child)
    case MixPolicyInterleave(primary, fallback, _) => NoDns(primary) && NoDns(fallback)
    case MixPolicyEitherOr(primary, fallback) => NoDns(primary) && NoDns(fallback)
    case _ => true
  }

  /** Policies that emit nothing before the name is resolved, unless it need not be. */
  predicate DnsFirst(p: Policy) {
    match p
    case DnsPolicy => true
    case TestHelpersPolicy(child) => DnsFirst(child)
    case MixPolicyInterleave(primary, fallback, _) => DnsFirst(primary) && NoDns(fallback)
    case MixPolicyEitherOr(primary, fallback) => NoDns(primary) && DnsFirst(fallback)
    case _ => false
  }

  lemma {:induction false} DnsFirstIsGuarded(p: Policy, w: World, domain: string, port: string)
    requires DnsFirst(p)
    ensures
      var a := Start(p, w, domain, port);
      Guarded(a) && !Steady(a) && Quenched(a) == Start(p, WithoutAddrs(w), domain, port)
    decreases p
  {
    match p
    case DnsPolicy =>
    case TestHelpersPolicy(child) => DnsFirstIsGuarded(child, w, domain, port);
    case MixPolicyInterleave(primary, fallback, _) =>
      DnsFirstIsGuarded(primary, w, domain, port);
      NoDnsIsSteady(fallback, w, domain, port);
    case MixPolicyEitherOr(primary, fallback) =>
      NoDnsIsSteady(primary, w, domain, port);
      DnsFirstIsGuarded(fallback, w, domain, port);
    case _ =>
  }

  lemma ComposedIsDnsFirst(proxy: bool, user: Option<UserRoot>)
    ensures DnsFirst(NewHTTPSDialerPolicy(proxy, user))
  {
    var statsOrBridges := MixPolicyInterleave(StatsPolicyV2, BridgesPolicyV2, 3);
    assert NoDns(statsOrBridges);
    assert DnsFirst(MixPolicyInterleave(TestHelpersPolicy(DnsPolicy), statsOrBridges, 3));
  }

  lemma FilteredIsGuarded(p: Policy, w: World, domain: string, port: string)
    requires DnsFirst(p)
    ensures
      var a := StartFiltered(p, w, domain, port);
      Guarded(a) && !Steady(a) && Quenched(a) == StartFiltered(p, WithoutAddrs(w), domain, port)
  {
    hide Start, DnsFirst, Guarded, Steady, Quenched;
    DnsFirstIsGuarded(p, w, domain, port);
    var noNil := GuardedFilter(DropNil, Start(p, w, domain, port));
    var unique := GuardedFilter(KeepUnique({}), noNil);
    var delayed := GuardedFilter(AssignDelays(0), unique);
  }

  lemma GuardedFilter(stage: Stage, up: Net) returns (a: Net)
    requires Guarded(up) && !Steady(up)
    ensures a == Filter(stage, [], false, up)
    ensures Guarded(a) && !Steady(a) && Quenched(a) == Filter(stage, [], false, Quenched(up))
  {
    a := Filter(stage, [], false, up);
  }

  /** At any moment of any dial with the composed policies, also when it returns a connection: if the caller did
      not cancel, the tactics taken so far are the first of the scheduled ones, in order. If the caller did, they
      may be those that are scheduled when the name does not resolve. */
  lemma TacticsAreTakenInOrder(proxy: bool, user: Option<UserRoot>, w: World, domain: string, port: string,
                               states: seq<State>, steps: seq<Step>, i: nat)
    requires IsDial(StartFiltered(NewHTTPSDialerPolicy(proxy, user), w, domain, port), states, steps) && i < |states|
    ensures
      var p := NewHTTPSDialerPolicy(proxy, user);
      || states[i].emitted <= Scheduled(p, w, domain, port)
      || (states[i].external && states[i].emitted <= Scheduled(p, WithoutAddrs(w), domain, port))
  {
    hide Scheduled, StartFiltered, IsDial, Flow, Valid, Guarded, Steady, Quenched;
    var p := NewHTTPSDialerPolicy(proxy, user);
    ComposedHelpersOnDns(proxy, user);
    ComposedIsDnsFirst(proxy, user);
    FilteredIsGuarded(p, w, domain, port);
    FilteredFlow(p, w, domain, port);
    FilteredFlow(p, WithoutAddrs(w), domain, port);
    DialKeepsOrder(StartFiltered(p, w, domain, port), states, steps, i);
    var s := states[i];
    if Steady(s.net) {
      if Pointers(s.emitted) + Flow(s.net) == Pointers(Scheduled(p, w, domain, port)) {
        PointersPrefix(s.emitted, Flow(s.net), Scheduled(p, w, domain, port));
      } else {
        PointersPrefix(s.emitted, Flow(s.net), Scheduled(p, WithoutAddrs(w), domain, port));
      }
    }
  }

  lemma PointersPrefix(emitted: seq<Tactic>, rest: seq<Msg>, all: seq<Tactic>)
    requires Pointers(emitted) + rest == Pointers(all)
    ensures emitted <= all
  {
    var whole := Pointers(emitted) + rest;
    assert |emitted| <= |all|;
    forall k | 0 <= k < |emitted|
      ensures emitted[k] == all[k]
    {
      assert whole[k] == Pointers(emitted)[k] == Pointers(all)[k];
    }
  }

  lemma TriedByPrefix(taken: seq<Tactic>, scheduled: seq<Tactic>, t: Tactic, bound: nat)
    requires taken <= scheduled && TriedBy(scheduled, t, bound) && |taken| > bound
    ensures TriedBy(taken, t, bound)
  {
    hide Tactic.SummaryKey, HappyEyeballsDelay;
  }

  /** The i-th address the DNS gave is among the first i + 3 * (i / 3) + 1 tactics that a dial takes: in every run
      that takes that many and that the caller does not cancel, whether it succeeds or not. */
  lemma DnsTacticsAreTakenEarly(proxy: bool, user: Option<UserRoot>, w: World, domain: string, port: string,
                                states: seq<State>, steps: seq<Step>, n: nat, i: nat)
    requires IsDial(StartFiltered(NewHTTPSDialerPolicy(proxy, user), w, domain, port), states, steps) && n < |states|
    requires Composed(proxy, user, domain, port) && w.addrs.Some? && i < |w.addrs.value|
    requires !states[n].external && |states[n].emitted| > i + 3 * (i / 3)
    ensures TriedBy(states[n].emitted, Tactic(w.addrs.value[i], 0, port, domain, domain), i + 3 * (i / 3))
  {
    hide TriedBy, Scheduled, IsDial, StartFiltered;
    DnsTacticsAreTriedEarly(proxy, user, w, domain, port, i);
    TacticsAreTakenInOrder(proxy, user, w, domain, port, states, steps, n);
    TriedByPrefix(states[n].emitted, Scheduled(NewHTTPSDialerPolicy(proxy, user), w, domain, port),
                  Tactic(w.addrs.value[i], 0, port, domain, domain), i + 3 * (i / 3));
  }
}
