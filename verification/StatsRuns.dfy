/** Runs of the statistics: events of dials and trims in any order (pkg/enginenetx/statsmanager.go). */
module StatsRuns {
  import opened Optional
  import opened Tactics
  import opened HttpsDialer
  import opened TacticNet
  import opened StatsTactics
  import opened StatsManager
  import StableSort

  /** `NoEvent` is a step of a dial that reports nothing. */
  datatype Action =
    | DialEvent(event: Event, error: string, now: int)
    | Trim(clock: Clock, pruned: StatsContainer)
    | NoEvent

  /** `inFlight` are the keys of the dials that started and have not ended. `base` is what started dials had in
      excess of ended ones and of those in flight when the record came to be: for a record that was loaded the
      excess it was loaded with, for a record that was created less the dials then in flight. */
  datatype RunState = RunState(container: StatsContainer, inFlight: multiset<Key>, base: map<Key, int>)

  /** The dialer reports the end of dials that it started only. */
  ghost predicate CanAct(s: RunState, a: Action) {
    match a
    case DialEvent(e, _, _) => e.OnStarting? || s.inFlight[KeyOf(e.tactic)] > 0
    case Trim(clock, pruned) => PrunedContainer(s.container, clock, pruned)
    case NoEvent => true
  }

  /** Whether pruning removed the record. */
  ghost predicate Removed(before: StatsContainer, after: StatsContainer, key: Key) {
    Lookup(before, key).Some? && Lookup(after, key).None?
  }

  ghost function Act(s: RunState, a: Action): RunState {
    match a
    case DialEvent(e, error, now) =>
      var key := KeyOf(e.tactic);
      var dialing: int := s.inFlight[key];
      RunState(Handle(s.container, e, error, now),
               if e.OnStarting? then s.inFlight + multiset{key} else s.inFlight - multiset{key},
               if e.OnStarting? && Lookup(s.container, key).None? then s.base[key := -dialing] else s.base)
    case Trim(clock, pruned) =>
      RunState(pruned, s.inFlight, map key | key in s.base && !Removed(s.container, pruned, key) :: s.base[key])
    case NoEvent => s
  }

  /** The balance of one key. */
  ghost predicate Conserved(s: RunState, key: Key) {
    && (key in s.base <==> Lookup(s.container, key).Some?)
    && (key in s.base ==>
          var r := Lookup(s.container, key).value;
          r.countStarted == Ended(r) + s.inFlight[key] + s.base[key])
  }

  ghost predicate RunInv(s: RunState) {
    WellFormed(s.container) && forall key :: Conserved(s, key)
  }

  lemma EventConserves(s: RunState, e: Event, error: string, now: int, key: Key)
    requires RunInv(s) && CanAct(s, DialEvent(e, error, now))
    ensures Conserved(Act(s, DialEvent(e, error, now)), key)
  {
    hide Handle, Lookup, Counted, KeyOf, WellFormed, HistogramsMatch;
    assert Conserved(s, key);
    LookupAfterEvent(s.container, e, error, now, key);
    CountedConserves(Lookup(s.container, KeyOf(e.tactic)).UnwrapOr(NewRecord(e.tactic)), e, error, now);
  }

  lemma TrimConserves(s: RunState, clock: Clock, pruned: StatsContainer, key: Key)
    requires RunInv(s) && PrunedContainer(s.container, clock, pruned)
    ensures Conserved(Act(s, Trim(clock, pruned)), key)
  {
    hide PrunedContainer, WellFormed, Lookup;
    assert Conserved(s, key);
    PruneKeepsOrRemoves(s.container, clock, pruned, key);
  }

  lemma ActKeepsRunInv(s: RunState, a: Action)
    requires RunInv(s) && CanAct(s, a)
    ensures RunInv(Act(s, a))
  {
    hide Conserved, WellFormed, Handle, PrunedContainer;
    match a
    case DialEvent(e, error, now) =>
      HandleKeepsWellFormed(s.container, e, error, now);
      forall key
        ensures Conserved(Act(s, a), key)
      {
        EventConserves(s, e, error, now, key);
      }
    case Trim(clock, pruned) =>
      PruneMeaning(s.container, clock, pruned);
      forall key
        ensures Conserved(Act(s, a), key)
      {
        TrimConserves(s, clock, pruned, key);
      }
    case NoEvent =>
  }

  ghost predicate IsStatsRun(states: seq<RunState>, actions: seq<Action>) {
    && |states| == |actions| + 1
    && forall i {:trigger actions[i]} :: 0 <= i < |actions| ==>
         CanAct(states[i], actions[i]) && states[i + 1] == Act(states[i], actions[i])
  }

  /** What a record has in excess of started over ended dials. */
  function Excess(r: StatsTactic): int {
    r.countStarted - Ended(r)
  }

  /** A manager that was just created: nothing is in flight, and loaded records have their excess. */
  ghost predicate JustCreated(s: RunState) {
    && WellFormed(s.container) && s.inFlight == multiset{}
    && forall key :: (key in s.base <==> Lookup(s.container, key).Some?)
                     && (key in s.base ==> s.base[key] == Excess(Lookup(s.container, key).value))
  }

  lemma JustCreatedInv(s: RunState)
    requires JustCreated(s)
    ensures RunInv(s)
  {
    hide Lookup, WellFormed;
  }

  lemma {:induction false} RunKeepsInv(states: seq<RunState>, actions: seq<Action>, i: nat)
    requires IsStatsRun(states, actions) && JustCreated(states[0]) && i < |states|
    ensures RunInv(states[i])
    decreases i
  {
    if i == 0 {
      JustCreatedInv(states[0]);
    } else {
      hide RunInv, Act, CanAct, Conserved, JustCreated;
      RunKeepsInv(states, actions, i - 1);
      var a := actions[i - 1];
      ActKeepsRunInv(states[i - 1], a);
    }
  }

  /** A record's base is set when the record is created and then stays. */
  lemma BaseStep(s: RunState, a: Action, key: Key)
    requires RunInv(s) && CanAct(s, a) && Lookup(Act(s, a).container, key).Some?
    ensures key in Act(s, a).base
    ensures Lookup(s.container, key).Some? ==> key in s.base && Act(s, a).base[key] == s.base[key]
    ensures Lookup(s.container, key).None? ==> Act(s, a).base[key] + s.inFlight[key] == 0
  {
    hide Handle, Lookup, Counted, KeyOf, WellFormed, PrunedContainer;
    assert Conserved(s, key);
    match a
    case DialEvent(e, error, now) => LookupAfterEvent(s.container, e, error, now, key);
    case Trim(clock, pruned) => PruneKeepsOrRemoves(s.container, clock, pruned, key);
    case NoEvent =>
  }

  /** Moments `first` to `last` all have a record under the key. */
  ghost predicate Present(states: seq<RunState>, key: Key, first: nat, last: nat)
    requires last < |states|
  {
    forall j {:trigger states[j]} :: first <= j <= last ==> Lookup(states[j].container, key).Some?
  }

  lemma {:induction false} BaseStays(states: seq<RunState>, actions: seq<Action>, first: nat, last: nat, key: Key)
    requires IsStatsRun(states, actions) && JustCreated(states[0]) && first <= last < |states|
    requires Present(states, key, first, last)
    ensures key in states[first].base && key in states[last].base && states[last].base[key] == states[first].base[key]
    decreases last
  {
    hide RunInv, JustCreated, CanAct, Act, Lookup;
    RunKeepsInv(states, actions, last);
    assert Conserved(states[last], key) by { ConservedIn(states[last], key); }
    if first < last {
      BaseStays(states, actions, first, last - 1, key);
      RunKeepsInv(states, actions, last - 1);
      var a := actions[last - 1];
      BaseStep(states[last - 1], a, key);
    }
  }

  lemma ConservedIn(s: RunState, key: Key)
    requires RunInv(s)
    ensures Conserved(s, key)
  {
  }

  /** A record that was loaded and not pruned since has counted every started dial as ended in one of the six
      ways or as still in flight, but for what it was loaded with. */
  lemma LoadedRecordsAreBalanced(states: seq<RunState>, actions: seq<Action>, i: nat, key: Key)
    requires IsStatsRun(states, actions) && JustCreated(states[0]) && i < |states| && Present(states, key, 0, i)
    ensures Excess(Lookup(states[i].container, key).value)
            == states[i].inFlight[key] + Excess(Lookup(states[0].container, key).value)
  {
    hide Lookup, WellFormed, Ended;
    BaseStays(states, actions, 0, i, key);
    RunKeepsInv(states, actions, i);
    assert Conserved(states[i], key);
  }

  /** A record that was created between moments `c` and `c + 1` is in balance up to the dials that were in
      flight at `c`: it counts their ends, but does not count their starts. */
  lemma StartedDialsAreAccountedFor(states: seq<RunState>, actions: seq<Action>, c: nat, i: nat, key: Key)
    requires IsStatsRun(states, actions) && JustCreated(states[0]) && c < i < |states|
    requires Lookup(states[c].container, key).None? && Present(states, key, c + 1, i)
    ensures
      var r := Lookup(states[i].container, key).value;
      && r.countStarted + states[c].inFlight[key] == Ended(r) + states[i].inFlight[key]
      && (r.countStarted == Ended(r) + states[i].inFlight[key] <==> states[c].inFlight[key] == 0)
  {
    hide Lookup, WellFormed, Ended, Act, CanAct, JustCreated, RunInv;
    BaseStays(states, actions, c + 1, i, key);
    RunKeepsInv(states, actions, c);
    var a := actions[c];
    assert states[c + 1] == Act(states[c], a);
    assert Lookup(states[c + 1].container, key).Some?;
    BaseStep(states[c], a, key);
    RunKeepsInv(states, actions, i);
    ConservedIn(states[i], key);
  }

  // ----- success rates above one

  predicate CountersAreNatural(r: StatsTactic) {
    && r.countStarted >= 1 && r.countSuccess >= 0
    && r.countTCPConnectError >= 0 && r.countTLSHandshakeError >= 0 && r.countTLSVerificationError >= 0
    && r.countTCPConnectInterrupt >= 0 && r.countTLSHandshakeInterrupt >= 0
  }

  lemma CountersStep(s: RunState, a: Action, key: Key)
    requires RunInv(s) && CanAct(s, a) && Lookup(Act(s, a).container, key).Some?
    requires Lookup(s.container, key).Some? ==> CountersAreNatural(Lookup(s.container, key).value)
    ensures CountersAreNatural(Lookup(Act(s, a).container, key).value)
  {
    hide Handle, Lookup, KeyOf, WellFormed, PrunedContainer, Increment;
    match a
    case DialEvent(e, error, now) => LookupAfterEvent(s.container, e, error, now, key);
    case Trim(clock, pruned) => PruneKeepsOrRemoves(s.container, clock, pruned, key);
    case NoEvent =>
  }

  lemma {:induction false} CreatedCountersAreNatural(states: seq<RunState>, actions: seq<Action>, c: nat, i: nat, key: Key)
    requires IsStatsRun(states, actions) && JustCreated(states[0]) && c < i < |states|
    requires Lookup(states[c].container, key).None? && Present(states, key, c + 1, i)
    ensures CountersAreNatural(Lookup(states[i].container, key).value)
    decreases i
  {
    hide Lookup, Act, CanAct, JustCreated, RunInv, CountersAreNatural;
    if c + 1 < i {
      CreatedCountersAreNatural(states, actions, c, i - 1, key);
    }
    RunKeepsInv(states, actions, i - 1);
    var a := actions[i - 1];
    assert states[i] == Act(states[i - 1], a);
    CountersStep(states[i - 1], a, key);
  }

  /** A record that was not loaded has a success rate above one only if it was created while more dials of its
      key were in flight than are now. */
  lemma RateAboveOneNeedsDialsInFlight(states: seq<RunState>, actions: seq<Action>, c: nat, i: nat, key: Key)
    requires IsStatsRun(states, actions) && JustCreated(states[0]) && c < i < |states|
    requires Lookup(states[c].container, key).None? && Present(states, key, c + 1, i)
    requires SuccessRate(Lookup(states[i].container, key).value) > 1.0
    ensures states[c].inFlight[key] > states[i].inFlight[key]
  {
    hide Lookup, IsStatsRun, JustCreated;
    StartedDialsAreAccountedFor(states, actions, c, i, key);
    CreatedCountersAreNatural(states, actions, c, i, key);
    RateAboveOne(Lookup(states[i].container, key).value);
  }

  lemma RateAboveOne(r: StatsTactic)
    requires r.countStarted >= 1
    ensures SuccessRate(r) > 1.0 <==> r.countSuccess > r.countStarted
  {
    var rate, started := SuccessRate(r), r.countStarted as real;
    assert rate * started == r.countSuccess as real;
    if rate > 1.0 {
      assert (rate - 1.0) * started > 0.0;
    } else {
      assert (1.0 - rate) * started >= 0.0;
    }
  }

  /** Every record of the container has matching histograms. */
  ghost predicate AllMatch(c: StatsContainer) {
    forall key :: Lookup(c, key).Some? ==> HistogramsMatch(Lookup(c, key).value)
  }

  /** Error counters and histograms stay in step, through events and trims alike. */
  lemma HistogramsStayMatched(s: RunState, a: Action)
    requires WellFormed(s.container) && CanAct(s, a) && AllMatch(s.container)
    ensures AllMatch(Act(s, a).container)
  {
    hide Store, Counted, Tactic.SummaryKey, Tactic.DomainEndpointKey, WellFormed, HistogramsMatch, PrunedContainer;
    var c' := Act(s, a).container;
    forall key | Lookup(c', key).Some?
      ensures HistogramsMatch(Lookup(c', key).value)
    {
      match a
      case DialEvent(e, error, now) =>
        var k := KeyOf(e.tactic);
        var r := Lookup(s.container, k).UnwrapOr(NewRecord(e.tactic));
        NewRecordMatches(e.tactic);
        LookupAfterStore(s.container, k, Counted(r, e, error, now), key);
        CountedConserves(r, e, error, now);
      case Trim(clock, pruned) =>
        PruneKeepsOrRemoves(s.container, clock, pruned, key);
      case NoEvent =>
    }
  }

  // ----- the run in which the rate passes one

  /** The container after one event of a tactic without a record; for an empty container, only that record. */
  lemma OnlyRecord(t: Tactic, c: StatsContainer, r: StatsTactic)
    requires c == Store(NEW_CONTAINER, KeyOf(t), r)
    ensures c.domainEndpoints.Keys == {KeyOf(t).endpoint}
    ensures TacticsOf(c, KeyOf(t).endpoint) == map[KeyOf(t).summary := Some(r)]
    ensures forall r' :: Store(c, KeyOf(t), r') == Store(NEW_CONTAINER, KeyOf(t), r')
  {
    hide KeyOf;
    var e, k := KeyOf(t).endpoint, KeyOf(t).summary;
    assert TacticsOf(NEW_CONTAINER, e) == map[];
    assert TacticsOf(c, e) == map[k := Some(r)];
    forall r'
      ensures Store(c, KeyOf(t), r') == Store(NEW_CONTAINER, KeyOf(t), r')
    {
      assert TacticsOf(c, e)[k := Some(r')] == map[k := Some(r')];
    }
  }

  lemma StaleDomainIsPruned(k: string, r: StatsTactic, now: int)
    requires k != "" && r.tactic.Some? && !Fresh(r, now)
    ensures PrunedDomain(map[k := Some(r)], now, map[])
  {
    var m: TacticsMap := map[k := Some(r)];
    assert RecordsAt(m, [k]) == [r] && StableSort.Sort(Better, [r]) == [r];
    var kept := Kept([r], now);
    assert forall i :: 0 <= i < |kept| ==> kept[i] in kept;
    KeptMembers([r], now);
    assert PrunedFrom(m, now, map[], [k], [r]);
  }

  /** The container that holds nothing but one record with these counts, last updated at time zero. */
  function OneRecord(t: Tactic, started: int, succeeded: int): StatsContainer {
    Store(NEW_CONTAINER, KeyOf(t), NewRecord(t).(countStarted := started, countSuccess := succeeded))
  }

  lemma OneRecordEvent(t: Tactic, started: int, succeeded: int)
    ensures Handle(OneRecord(t, started, succeeded), HttpsDialer.OnStarting(t), "", 0) == OneRecord(t, started + 1, succeeded)
    ensures Handle(OneRecord(t, started, succeeded), HttpsDialer.OnSuccess(t), "", 0) == OneRecord(t, started, succeeded + 1)
    ensures Handle(NEW_CONTAINER, HttpsDialer.OnStarting(t), "", 0) == OneRecord(t, 1, 0)
  {
    hide KeyOf, Store;
    var r := NewRecord(t).(countStarted := started, countSuccess := succeeded);
    OnlyRecord(t, OneRecord(t, started, succeeded), r);
    LookupAfterStore(NEW_CONTAINER, KeyOf(t), r, KeyOf(t));
  }

  lemma OneRecordGoesStale(t: Tactic, started: int, succeeded: int)
    ensures PrunedContainer(OneRecord(t, started, succeeded), _ => ONE_WEEK, NEW_CONTAINER)
  {
    hide Tactic.SummaryKey, Tactic.DomainEndpointKey, PrunedDomain;
    var c := OneRecord(t, started, succeeded);
    var r := NewRecord(t).(countStarted := started, countSuccess := succeeded);
    OnlyRecord(t, c, r);
    KeyIsNotEmpty(t);
    StaleDomainIsPruned(KeyOf(t).summary, r, ONE_WEEK);
  }

  /** And it happens, for every tactic: the record becomes a week old while two dials of it are in flight, and
      a third dial starts after the trim. When the two succeed, the rate is two. */
  lemma RateCanPassOne(t: Tactic) returns (states: seq<RunState>, actions: seq<Action>)
    ensures IsStatsRun(states, actions) && JustCreated(states[0]) && |states| == 7
    ensures
      var found := Lookup(states[6].container, KeyOf(t));
      found.Some? && SuccessRate(found.value) == 2.0
  {
    hide KeyOf, Handle, PrunedContainer, Act, Lookup;
    var key := KeyOf(t);
    var start, succeed := HttpsDialer.OnStarting(t), HttpsDialer.OnSuccess(t);
    var trim := Trim(_ => ONE_WEEK, NEW_CONTAINER);
    var s0 := RunState(NEW_CONTAINER, multiset{}, map[]);
    NothingLoaded(s0);
    OneRecordEvent(t, 1, 0);
    OneRecordEvent(t, 1, 1);
    OneRecordGoesStale(t, 2, 0);
    var s1 := EventAct(s0, start);
    var s2 := EventAct(s1, start);
    var s3 := TrimAct(s2, trim.clock, trim.pruned);
    var s4 := EventAct(s3, start);
    var s5 := EventAct(s4, succeed);
    var s6 := EventAct(s5, succeed);
    states := [s0, s1, s2, s3, s4, s5, s6];
    actions := [DialEvent(start, "", 0), DialEvent(start, "", 0), trim, DialEvent(start, "", 0), DialEvent(succeed, "", 0),
                DialEvent(succeed, "", 0)];
    LookupAfterStore(NEW_CONTAINER, key, NewRecord(t).(countStarted := 1, countSuccess := 2), key);
  }

  lemma NothingLoaded(s: RunState)
    requires s == RunState(NEW_CONTAINER, multiset{}, map[])
    ensures JustCreated(s)
  {
  }

  lemma EventAct(s: RunState, e: Event) returns (r: RunState)
    requires e.OnStarting? || s.inFlight[KeyOf(e.tactic)] > 0
    ensures CanAct(s, DialEvent(e, "", 0)) && r == Act(s, DialEvent(e, "", 0))
    ensures r.container == Handle(s.container, e, "", 0)
    ensures r.inFlight[KeyOf(e.tactic)] == s.inFlight[KeyOf(e.tactic)] + (if e.OnStarting? then 1 else -1)
  {
    hide KeyOf, Handle, Lookup;
    r := Act(s, DialEvent(e, "", 0));
  }

  lemma TrimAct(s: RunState, clock: Clock, pruned: StatsContainer) returns (r: RunState)
    requires PrunedContainer(s.container, clock, pruned)
    ensures CanAct(s, Trim(clock, pruned)) && r == Act(s, Trim(clock, pruned))
    ensures r.container == pruned && r.inFlight == s.inFlight
  {
    hide PrunedContainer, Lookup;
    r := Act(s, Trim(clock, pruned));
  }

  // ----- the dialer's runs feed the statistics

  /** Dials in progress, and the manager that all of them report to. */
  datatype SystemState = SystemState(dials: seq<HttpsDialer.State>, stats: RunState)

  datatype SystemStep =
    | DialStep(d: nat, step: Step, error: string, now: int)
    | TrimStep(clock: Clock, pruned: StatsContainer)

  /** The error that a failing step reports to its caller and to the statistics. */
  function ErrorOfStep(step: Step): Option<string> {
    match step
    case TcpFails(_, error) => Some(error)
    case HandshakeFails(_, error) => Some(error)
    case VerifyFails(_, error) => Some(error)
    case _ => None
  }

  /** Nothing is assumed about the events but that a step of a dial makes them. */
  ghost predicate SystemEnabled(y: SystemState, a: SystemStep) {
    match a
    case DialStep(d, step, error, _) =>
      d < |y.dials| && Enabled(y.dials[d], step) && (ErrorOfStep(step).Some? ==> error == ErrorOfStep(step).value)
    case TrimStep(clock, pruned) => PrunedContainer(y.stats.container, clock, pruned)
  }

  ghost function SystemApply(y: SystemState, a: SystemStep): SystemState
    requires SystemEnabled(y, a)
  {
    match a
    case DialStep(d, step, error, now) =>
      SystemState(y.dials[d := Apply(y.dials[d], step)],
                  match EventOf(y.dials[d], step)
                  case None => y.stats
                  case Some(e) => Act(y.stats, DialEvent(e, error, now)))
    case TrimStep(clock, pruned) => SystemState(y.dials, Act(y.stats, Trim(clock, pruned)))
  }

  function KeyInFlight(p: Phase): multiset<Key> {
    match TacticInFlight(p) case None => multiset{} case Some(t) => multiset{KeyOf(t)}
  }

  /** The keys of what is in flight with the workers of all dials. */
  ghost function Dialing(dials: seq<HttpsDialer.State>): multiset<Key> {
    if dials == [] then multiset{}
    else Dialing(dials[..|dials| - 1]) + Gather(dials[|dials| - 1].workers, KeyInFlight)
  }

  lemma {:induction false} DialingUpdate(dials: seq<HttpsDialer.State>, d: nat, dial: HttpsDialer.State, key: Key)
    requires d < |dials|
    ensures Dialing(dials[d := dial])[key] + Gather(dials[d].workers, KeyInFlight)[key]
            == Dialing(dials)[key] + Gather(dial.workers, KeyInFlight)[key]
  {
    hide Gather, KeyInFlight;
    var n := |dials| - 1;
    if d < n {
      DialingUpdate(dials[..n], d, dial, key);
      assert dials[d := dial][..n] == dials[..n][d := dial];
    } else {
      assert dials[d := dial][..n] == dials[..n];
    }
  }

  lemma {:induction false} DialingIncludes(dials: seq<HttpsDialer.State>, d: nat, key: Key)
    requires d < |dials|
    ensures Gather(dials[d].workers, KeyInFlight)[key] <= Dialing(dials)[key]
  {
    hide Gather, KeyInFlight;
    if d < |dials| - 1 {
      DialingIncludes(dials[..|dials| - 1], d, key);
    }
  }

  /** A worker's key changes as its event says. */
  lemma KeyHandover(p: Phase, step: Step, s: HttpsDialer.State, key: Key)
    requires WorkerEnabled(p, step, s)
    ensures
      var m := WorkerMove(p, step, s);
      match m.event
      case None => KeyInFlight(m.phase)[key] == KeyInFlight(p)[key]
      case Some(e) =>
        if e.OnStarting? then KeyInFlight(p) == multiset{} && KeyInFlight(m.phase) == multiset{KeyOf(e.tactic)}
        else KeyInFlight(p) == multiset{KeyOf(e.tactic)} && KeyInFlight(m.phase) == multiset{}
  {
    hide KeyOf, WorkerMove, WorkerEnabled, TacticInFlight;
    MovesHandOver(p, step, s);
  }

  /** One dial's part of what is in flight, before and after a step. */
  lemma DialStepGathers(s: HttpsDialer.State, step: Step, key: Key)
    requires Enabled(s, step)
    ensures
      var before, after := Gather(s.workers, KeyInFlight)[key], Gather(Apply(s, step).workers, KeyInFlight)[key];
      match EventOf(s, step)
      case None => after == before
      case Some(e) =>
        if e.OnStarting? then after == before + multiset{KeyOf(e.tactic)}[key]
        else before == after + multiset{KeyOf(e.tactic)}[key]
  {
    hide KeyOf, Gather, WorkerMove, WorkerEnabled, KeyInFlight, Enabled, Apply, EventOf;
    StepOfWorker(s, step);
    if WorkerOf(step).Some? {
      var w := WorkerOf(step).value;
      var phase := WorkerMove(s.workers[w], step, s).phase;
      KeyHandover(s.workers[w], step, s, key);
      GatherUpdate(s.workers, KeyInFlight, w, phase);
      assert (Gather(s.workers[w := phase], KeyInFlight) + KeyInFlight(s.workers[w]))[key]
             == (Gather(s.workers, KeyInFlight) + KeyInFlight(phase))[key];
    }
  }

  /** The dialer discharges what the statistics assume: an event that ends a dial is of a key in flight. */
  lemma DialEventsCanAct(y: SystemState, d: nat, step: Step, error: string, now: int)
    requires SystemEnabled(y, DialStep(d, step, error, now)) && EventOf(y.dials[d], step).Some?
    requires y.stats.inFlight == Dialing(y.dials)
    ensures CanAct(y.stats, DialEvent(EventOf(y.dials[d], step).value, error, now))
  {
    hide KeyOf, Gather, Dialing, EventOf, Enabled, Apply;
    var key := KeyOf(EventOf(y.dials[d], step).value.tactic);
    DialStepGathers(y.dials[d], step, key);
    DialingIncludes(y.dials, d, key);
  }

  /** What is in flight for the statistics stays what the workers of all dials have in flight. */
  lemma StepKeepsDialing(y: SystemState, a: SystemStep)
    requires SystemEnabled(y, a) && y.stats.inFlight == Dialing(y.dials)
    ensures SystemApply(y, a).stats.inFlight == Dialing(SystemApply(y, a).dials)
  {
    hide KeyOf, Gather, Dialing, Enabled, Apply, EventOf, PrunedContainer, Handle;
    var y' := SystemApply(y, a);
    if a.DialStep? {
      forall key: Key
        ensures y'.stats.inFlight[key] == Dialing(y'.dials)[key]
      {
        DialingUpdate(y.dials, a.d, Apply(y.dials[a.d], a.step), key);
        DialStepGathers(y.dials[a.d], a.step, key);
        DialingIncludes(y.dials, a.d, key);
      }
    }
  }

  /** Every dial is at some moment of a run for some stream. */
  ghost predicate InProgress(s: HttpsDialer.State) {
    exists total :: Inv(s, total)
  }

  ghost predicate SystemInv(y: SystemState) {
    && RunInv(y.stats)
    && y.stats.inFlight == Dialing(y.dials)
    && forall d {:trigger y.dials[d]} :: 0 <= d < |y.dials| ==> InProgress(y.dials[d])
  }

  lemma StaysInProgress(s: HttpsDialer.State, step: Step)
    requires InProgress(s) && Enabled(s, step)
    ensures InProgress(Apply(s, step))
  {
    hide Inv, Enabled, Apply;
    var total :| Inv(s, total);
    StepKeepsInv(s, step, total);
  }

  lemma SystemStepKeepsInv(y: SystemState, a: SystemStep)
    requires SystemInv(y) && SystemEnabled(y, a)
    ensures SystemInv(SystemApply(y, a))
  {
    hide RunInv, InProgress, Dialing, Enabled, Apply, EventOf, CanAct, Act, PrunedContainer;
    StepKeepsDialing(y, a);
    match a
    case DialStep(d, step, error, now) =>
      StaysInProgress(y.dials[d], step);
      if EventOf(y.dials[d], step).Some? {
        DialEventsCanAct(y, d, step, error, now);
        ActKeepsRunInv(y.stats, DialEvent(EventOf(y.dials[d], step).value, error, now));
      }
    case TrimStep(clock, pruned) =>
      TrimCanAct(y.stats, clock, pruned);
      ActKeepsRunInv(y.stats, Trim(clock, pruned));
  }

  lemma TrimCanAct(s: RunState, clock: Clock, pruned: StatsContainer)
    requires PrunedContainer(s.container, clock, pruned)
    ensures CanAct(s, Trim(clock, pruned))
  {
  }

  ghost predicate IsSystemRun(states: seq<SystemState>, steps: seq<SystemStep>) {
    && |states| == |steps| + 1
    && forall i {:trigger steps[i]} :: 0 <= i < |steps| ==>
         SystemEnabled(states[i], steps[i]) && states[i + 1] == SystemApply(states[i], steps[i])
  }

  /** A manager that was just created and dials that are about to begin. */
  ghost predicate SystemStarts(y: SystemState, nets: seq<Net>) {
    && JustCreated(y.stats) && |nets| == |y.dials|
    && forall d {:trigger nets[d]} :: 0 <= d < |nets| ==> nets[d].Filter? && Valid(nets[d]) && y.dials[d] == Init(nets[d])
  }

  lemma {:induction false} NothingDialing(dials: seq<HttpsDialer.State>)
    requires forall d {:trigger dials[d]} :: 0 <= d < |dials| ==> Gather(dials[d].workers, KeyInFlight) == multiset{}
    ensures Dialing(dials) == multiset{}
  {
    hide Gather, KeyInFlight;
    if dials != [] {
      NothingDialing(dials[..|dials| - 1]);
    }
  }

  lemma InitialDial(net: Net)
    requires net.Filter? && Valid(net)
    ensures InProgress(Init(net)) && Gather(Init(net).workers, KeyInFlight) == multiset{}
  {
    hide Inv, Flow, Valid, Gather;
    InitHolds(net);
    GatherNothing(Init(net).workers, KeyInFlight);
  }

  lemma SystemStartsInv(y: SystemState, nets: seq<Net>)
    requires SystemStarts(y, nets)
    ensures SystemInv(y)
  {
    hide InProgress, Valid, Gather, JustCreated, RunInv, Init;
    JustCreatedInv(y.stats);
    assert y.stats.inFlight == multiset{} by { NothingInFlightYet(y.stats); }
    forall d {:trigger y.dials[d]} | 0 <= d < |y.dials|
      ensures Gather(y.dials[d].workers, KeyInFlight) == multiset{} && InProgress(y.dials[d])
    {
      assert y.dials[d] == Init(nets[d]);
      InitialDial(nets[d]);
    }
    NothingDialing(y.dials);
  }

  lemma NothingInFlightYet(s: RunState)
    requires JustCreated(s)
    ensures s.inFlight == multiset{}
  {
  }

  lemma {:induction false} SystemRunKeepsInv(states: seq<SystemState>, steps: seq<SystemStep>, nets: seq<Net>, i: nat)
    requires IsSystemRun(states, steps) && SystemStarts(states[0], nets) && i < |states|
    ensures SystemInv(states[i])
    decreases i
  {
    hide SystemInv, SystemEnabled, SystemApply;
    if i == 0 {
      SystemStartsInv(states[0], nets);
    } else {
      SystemRunKeepsInv(states, steps, nets, i - 1);
      SystemStepKeepsInv(states[i - 1], steps[i - 1]);
    }
  }

  lemma ReturnedDialsNothing(s: HttpsDialer.State)
    requires InProgress(s) && s.outcome.Some?
    ensures Gather(s.workers, KeyInFlight) == multiset{}
  {
    hide Gather, ConnectionsAccounted, TacticsAccounted, EventsAccounted, StreamAccounted;
    AllJoinedHoldNothing(s);
    GatherNothing(s.workers, KeyInFlight);
  }

  ghost predicate AllReturned(y: SystemState) {
    forall d {:trigger y.dials[d]} :: 0 <= d < |y.dials| ==> y.dials[d].outcome.Some?
  }

  lemma ReturnedNothingInFlight(y: SystemState)
    requires SystemInv(y) && AllReturned(y)
    ensures y.stats.inFlight == multiset{}
  {
    hide RunInv, InProgress, Gather, Dialing, KeyInFlight;
    forall d {:trigger y.dials[d]} | 0 <= d < |y.dials|
      ensures Gather(y.dials[d].workers, KeyInFlight) == multiset{}
    {
      ReturnedDialsNothing(y.dials[d]);
    }
    NothingDialing(y.dials);
  }

  /** What a step of the system is for the statistics. */
  ghost function ActionOf(y: SystemState, a: SystemStep): Action
    requires SystemEnabled(y, a)
  {
    match a
    case DialStep(d, step, error, now) =>
      (match EventOf(y.dials[d], step) case None => NoEvent case Some(e) => DialEvent(e, error, now))
    case TrimStep(clock, pruned) => Trim(clock, pruned)
  }

  lemma StepIsAction(y: SystemState, a: SystemStep)
    requires SystemInv(y) && SystemEnabled(y, a)
    ensures CanAct(y.stats, ActionOf(y, a)) && SystemApply(y, a).stats == Act(y.stats, ActionOf(y, a))
  {
    hide RunInv, InProgress, Dialing, Enabled, Apply, EventOf, CanAct, Act, PrunedContainer;
    match a
    case DialStep(d, step, error, now) =>
      if EventOf(y.dials[d], step).Some? {
        DialEventsCanAct(y, d, step, error, now);
      }
      assert Act(y.stats, NoEvent) == y.stats by { NoEventChangesNothing(y.stats); }
      assert CanAct(y.stats, NoEvent) by { NoEventChangesNothing(y.stats); }
    case TrimStep(clock, pruned) => TrimCanAct(y.stats, clock, pruned);
  }

  lemma NoEventChangesNothing(s: RunState)
    ensures CanAct(s, NoEvent) && Act(s, NoEvent) == s
  {
  }

  /** A run of the system is, for the statistics, a run of events and trims. */
  lemma StatsOfSystemRun(states: seq<SystemState>, steps: seq<SystemStep>, nets: seq<Net>)
      returns (stats: seq<RunState>, actions: seq<Action>)
    requires IsSystemRun(states, steps) && SystemStarts(states[0], nets)
    ensures |stats| == |states| && IsStatsRun(stats, actions) && JustCreated(stats[0])
    ensures forall i {:trigger stats[i]} {:trigger states[i]} :: 0 <= i < |states| ==> stats[i] == states[i].stats
    ensures |actions| == |steps|
    ensures forall i {:trigger actions[i]} :: 0 <= i < |steps| ==>
              SystemEnabled(states[i], steps[i]) && actions[i] == ActionOf(states[i], steps[i])
  {
    hide SystemInv, SystemEnabled, SystemApply, ActionOf, CanAct, Act, JustCreated;
    stats := seq(|states|, i requires 0 <= i < |states| => states[i].stats);
    actions := seq(|steps|, i requires 0 <= i < |steps| && SystemEnabled(states[i], steps[i]) => ActionOf(states[i], steps[i]));
    forall i {:trigger actions[i]} | 0 <= i < |actions|
      ensures CanAct(stats[i], actions[i]) && stats[i + 1] == Act(stats[i], actions[i])
    {
      SystemRunKeepsInv(states, steps, nets, i);
      StepIsAction(states[i], steps[i]);
      assert states[i + 1] == SystemApply(states[i], steps[i]);
    }
  }

  /** Moments `first` to `last` all have a record under the key. */
  ghost predicate PresentInSystem(states: seq<SystemState>, key: Key, first: nat, last: nat)
    requires last < |states|
  {
    forall j {:trigger states[j]} :: first <= j <= last ==> Lookup(states[j].stats.container, key).Some?
  }

  lemma InFlightIsDialing(states: seq<SystemState>, steps: seq<SystemStep>, nets: seq<Net>, i: nat)
    requires IsSystemRun(states, steps) && SystemStarts(states[0], nets) && i < |states|
    ensures states[i].stats.inFlight == Dialing(states[i].dials)
    ensures AllReturned(states[i]) ==> Dialing(states[i].dials) == multiset{}
  {
    hide RunInv, InProgress, Dialing, AllReturned, IsSystemRun, SystemStarts;
    SystemRunKeepsInv(states, steps, nets, i);
    if AllReturned(states[i]) {
      ReturnedNothingInFlight(states[i]);
    }
  }

  /** In every run of concurrent dials that share a manager, with trims at any time, a record that was created
      between moments `c` and `c + 1` has counted as started exactly the dials that have ended and those that
      the workers have in flight, less those that they had in flight at `c`. When all dials have returned, it
      is in balance exactly if there were none, and otherwise has more ended dials than started ones. */
  lemma SharedStatisticsAreBalanced(states: seq<SystemState>, steps: seq<SystemStep>, nets: seq<Net>, c: nat, i: nat, key: Key)
    requires IsSystemRun(states, steps) && SystemStarts(states[0], nets) && c < i < |states|
    requires Lookup(states[c].stats.container, key).None? && PresentInSystem(states, key, c + 1, i)
    ensures
      var r := Lookup(states[i].stats.container, key).value;
      var before, now := Dialing(states[c].dials)[key], Dialing(states[i].dials)[key];
      && r.countStarted + before == Ended(r) + now
      && (AllReturned(states[i]) ==>
            && (r.countStarted == Ended(r) <==> before == 0)
            && (r.countStarted < Ended(r) <==> before > 0))
  {
    hide Lookup, Dialing, SystemStarts, IsSystemRun, IsStatsRun, JustCreated, Ended, AllReturned;
    var stats, actions := StatsOfSystemRun(states, steps, nets);
    assert Present(stats, key, c + 1, i);
    StartedDialsAreAccountedFor(stats, actions, c, i, key);
    InFlightIsDialing(states, steps, nets, c);
    InFlightIsDialing(states, steps, nets, i);
  }

  /** A record that was loaded and is still there keeps what it was loaded with in excess. */
  lemma SharedLoadedRecordsAreBalanced(states: seq<SystemState>, steps: seq<SystemStep>, nets: seq<Net>, i: nat, key: Key)
    requires IsSystemRun(states, steps) && SystemStarts(states[0], nets) && i < |states|
    requires PresentInSystem(states, key, 0, i)
    ensures
      var loaded, r := Lookup(states[0].stats.container, key).value, Lookup(states[i].stats.container, key).value;
      && Excess(r) == Dialing(states[i].dials)[key] + Excess(loaded)
      && (AllReturned(states[i]) ==> Excess(r) == Excess(loaded))
  {
    hide Lookup, Dialing, SystemStarts, IsSystemRun, IsStatsRun, JustCreated, Excess, AllReturned;
    var stats, actions := StatsOfSystemRun(states, steps, nets);
    assert Present(stats, key, 0, i);
    LoadedRecordsAreBalanced(stats, actions, i, key);
    InFlightIsDialing(states, steps, nets, i);
  }
}
