/** Dials against the clock: the delays of tactics (pkg/enginenetx/httpsdialer.go). */
module DialClock {
  import opened Optional
  import opened Tactics
  import opened HappyEyeballs
  import opened Network
  import opened TacticNet
  import opened HttpsDialer
  import opened DialOrder
  import F = Filter

  /** A dial, the time, and the zero time that the workers share. A worker that waits is `sleeping` once it found
      that its tactic is not due and set a timer, and `due` once it need not wait any more. `announced` are the
      tactics whose dialing was announced, and when. */
  datatype TimedState = TimedState(
    dial: State,
    now: int,
    zero: Option<int>,
    sleeping: set<nat>,
    due: set<nat>,
    announced: seq<(Tactic, int)>)

  datatype TimedStep =
    | Tick(now: int)
    | GetZeroTime(w: nat)
    | LookAtClock(w: nat)
    | TimerFires(w: nat)
    | Interrupted(w: nat, error: string)
    | Announce(w: nat)
    | Other(step: Step)

  predicate IsWaiting(s: TimedState, w: nat) {
    w < |s.dial.workers| && s.dial.workers[w].Waiting?
  }

  function Deadline(s: TimedState, w: nat): int
    requires IsWaiting(s, w) && s.zero.Some?
  {
    s.zero.value + s.dial.workers[w].tactic.initialDelay
  }

  ghost predicate TimedEnabled(s: TimedState, a: TimedStep) {
    match a
    case Tick(now) => now > s.now
    case GetZeroTime(w) => IsWaiting(s, w) && s.zero.None?
    case LookAtClock(w) => IsWaiting(s, w) && s.zero.Some? && w !in s.sleeping && w !in s.due
    case TimerFires(w) => IsWaiting(s, w) && s.zero.Some? && w in s.sleeping && s.now >= Deadline(s, w)
    case Interrupted(w, error) => w in s.sleeping && Enabled(s.dial, GiveUpWaiting(w, error))
    case Announce(w) => w in s.due && Enabled(s.dial, Ready(w))
    case Other(step) => Enabled(s.dial, step) && !step.Ready? && !step.GiveUpWaiting?
  }

  /** The step of the dial that a timed step is, if it is one. */
  function DialStepOf(a: TimedStep): Option<Step> {
    match a
    case Interrupted(w, error) => Some(GiveUpWaiting(w, error))
    case Announce(w) => Some(Ready(w))
    case Other(step) => Some(step)
    case _ => None
  }

  ghost function TimedApply(s: TimedState, a: TimedStep): TimedState
    requires TimedEnabled(s, a)
  {
    match a
    case Tick(now) => s.(now := now)
    case GetZeroTime(_) => s.(zero := Some(s.now))
    case LookAtClock(w) => if s.now >= Deadline(s, w) then s.(due := s.due + {w}) else s.(sleeping := s.sleeping + {w})
    case TimerFires(w) => s.(sleeping := s.sleeping - {w}, due := s.due + {w})
    case Interrupted(w, error) => s.(dial := Apply(s.dial, GiveUpWaiting(w, error)), sleeping := s.sleeping - {w})
    case Announce(w) =>
      s.(dial := Apply(s.dial, Ready(w)), due := s.due - {w},
         announced := s.announced + [(s.dial.workers[w].tactic, s.now)])
    case Other(step) => s.(dial := Apply(s.dial, step))
  }

  function TimedInit(net: Net, now: int): TimedState {
    TimedState(Init(net), now, None, {}, {}, [])
  }

  ghost predicate IsTimedRun(states: seq<TimedState>, steps: seq<TimedStep>) {
    && |states| == |steps| + 1
    && forall i {:trigger steps[i]} :: 0 <= i < |steps| ==>
         TimedEnabled(states[i], steps[i]) && states[i + 1] == TimedApply(states[i], steps[i])
  }

  ghost predicate IsTimedDial(net: Net, states: seq<TimedState>, steps: seq<TimedStep>) {
    net.Filter? && Valid(net) && IsTimedRun(states, steps) && states[0] == TimedInit(net, states[0].now)
  }

  // ----- without the clock, a timed dial is a dial

  lemma TimedStepOfDial(s: TimedState, a: TimedStep)
    requires TimedEnabled(s, a)
    ensures match DialStepOf(a)
            case None => TimedApply(s, a).dial == s.dial
            case Some(step) => Enabled(s.dial, step) && TimedApply(s, a).dial == Apply(s.dial, step)
  {
    hide Enabled, Apply;
  }

  /** Every moment of a timed dial is the last one of a dial, so all that was proved of dials holds of timed ones. */
  lemma {:induction false} TimedDialIsDial(net: Net, timed: seq<TimedState>, timedSteps: seq<TimedStep>, i: nat)
      returns (states: seq<State>, steps: seq<Step>)
    requires IsTimedDial(net, timed, timedSteps) && i < |timed|
    ensures IsDial(net, states, steps) && states[|steps|] == timed[i].dial
    decreases i
  {
    hide Enabled, Apply, TimedEnabled, TimedApply, Valid;
    if i == 0 {
      states, steps := [Init(net)], [];
    } else {
      states, steps := TimedDialIsDial(net, timed, timedSteps, i - 1);
      var a := timedSteps[i - 1];
      TimedStepOfDial(timed[i - 1], a);
      if DialStepOf(a).Some? {
        var step := DialStepOf(a).value;
        states, steps := OneMoreStep(states, steps, step);
      }
    }
  }

  lemma OneMoreStep(states: seq<State>, steps: seq<Step>, step: Step) returns (states': seq<State>, steps': seq<Step>)
    requires HttpsDialer.IsRun(states, steps) && Enabled(states[|steps|], step)
    ensures HttpsDialer.IsRun(states', steps') && states'[0] == states[0]
    ensures |steps'| == |steps| + 1 && states'[|steps'|] == Apply(states[|steps|], step)
  {
    hide Enabled, Apply;
    states', steps' := states + [Apply(states[|steps|], step)], steps + [step];
    assert forall i {:trigger steps'[i]} :: 0 <= i < |steps| ==>
      steps'[i] == steps[i] && states'[i] == states[i] && states'[i + 1] == states[i + 1];
  }

  // ----- workers announce what is due

  /** Workers that sleep or are due are waiting, and those that are due have reached their deadlines. */
  ghost predicate WaitersOnTime(s: TimedState) {
    && s.sleeping !! s.due
    && (forall w {:trigger w in s.sleeping} :: w in s.sleeping ==> IsWaiting(s, w) && s.zero.Some?)
    && (forall w {:trigger w in s.due} :: w in s.due ==> IsWaiting(s, w) && s.zero.Some? && s.now >= Deadline(s, w))
  }

  /** No tactic was announced before its delay had passed. */
  ghost predicate AnnouncedOnTime(s: TimedState) {
    && (s.zero.Some? ==> s.zero.value <= s.now)
    && forall k {:trigger s.announced[k]} :: 0 <= k < |s.announced| ==> EntryOnTime(s.zero, s.now, s.announced[k])
  }

  predicate EntryOnTime(zero: Option<int>, now: int, entry: (Tactic, int)) {
    zero.Some? && zero.value + entry.0.initialDelay <= entry.1 <= now
  }

  /** Whether a step leaves the announcements alone or adds one that is on time; the zero time is set once. */
  ghost predicate AnnouncesOnTime(s: TimedState, s': TimedState) {
    && s'.now >= s.now
    && (s.zero.Some? ==> s'.zero == s.zero)
    && (s.zero.None? && s'.zero.Some? ==> s'.zero.value == s.now)
    && (|| s'.announced == s.announced
        || exists entry :: s'.announced == s.announced + [entry] && EntryOnTime(s'.zero, s'.now, entry))
  }

  lemma AnnouncedStaysOnTime(s: TimedState, s': TimedState)
    requires AnnouncedOnTime(s) && AnnouncesOnTime(s, s')
    ensures AnnouncedOnTime(s')
  {
    forall k {:trigger s'.announced[k]} | 0 <= k < |s'.announced|
      ensures EntryOnTime(s'.zero, s'.now, s'.announced[k])
    {
      if k < |s.announced| {
        assert EntryOnTime(s.zero, s.now, s.announced[k]);
      }
    }
  }

  ghost predicate OnTime(s: TimedState) {
    WaitersOnTime(s) && AnnouncedOnTime(s)
  }

  /** A step of the dial changes no worker but the one that takes it. */
  lemma OtherWorkersStay(s: State, step: Step, w: nat)
    requires Enabled(s, step) && w < |s.workers|
    requires s.workers[w].Waiting? && (step.Ready? || step.GiveUpWaiting? ==> step.w != w)
    ensures |Apply(s, step).workers| == |s.workers| && Apply(s, step).workers[w] == s.workers[w]
  {
    hide Internal, Take, Offer, Closed;
  }

  lemma ClockStepKeepsOnTime(s: TimedState, a: TimedStep)
    requires OnTime(s) && TimedEnabled(s, a) && DialStepOf(a).None?
    ensures WaitersOnTime(TimedApply(s, a))
    ensures AnnouncesOnTime(s, TimedApply(s, a))
  {
    hide Enabled, Apply, AnnouncedOnTime;
  }

  lemma DialStepKeepsOnTime(s: TimedState, a: TimedStep)
    requires OnTime(s) && TimedEnabled(s, a) && DialStepOf(a).Some?
    ensures WaitersOnTime(TimedApply(s, a))
    ensures AnnouncesOnTime(s, TimedApply(s, a))
  {
    hide Enabled, Apply, AnnouncedOnTime;
    TimedStepOfDial(s, a);
    var s', step := TimedApply(s, a), DialStepOf(a).value;
    forall w | w in s'.sleeping || w in s'.due
      ensures IsWaiting(s', w) && s'.dial.workers[w] == s.dial.workers[w]
    {
      OtherWorkersStay(s.dial, step, w);
    }
    if a.Announce? {
      assert s.now >= Deadline(s, a.w);
      assert s'.announced == s.announced + [(s.dial.workers[a.w].tactic, s.now)];
    }
  }

  lemma StepKeepsOnTime(s: TimedState, a: TimedStep)
    requires OnTime(s) && TimedEnabled(s, a)
    ensures OnTime(TimedApply(s, a))
  {
    hide WaitersOnTime, AnnouncedOnTime, AnnouncesOnTime, TimedApply, TimedEnabled;
    if DialStepOf(a).None? {
      ClockStepKeepsOnTime(s, a);
    } else {
      DialStepKeepsOnTime(s, a);
    }
    AnnouncedStaysOnTime(s, TimedApply(s, a));
  }

  lemma {:induction false} TimedDialKeepsOnTime(net: Net, states: seq<TimedState>, steps: seq<TimedStep>, i: nat)
    requires IsTimedDial(net, states, steps) && i < |states|
    ensures OnTime(states[i])
    decreases i
  {
    hide Valid, TimedEnabled, TimedApply;
    if i > 0 {
      hide OnTime;
      TimedDialKeepsOnTime(net, states, steps, i - 1);
      var a := steps[i - 1];
      StepKeepsOnTime(states[i - 1], a);
    }
  }

  // ----- every announcement is of a tactic that was taken

  /** The tactic of a worker that has not announced it. */
  function TacticWaiting(p: Phase): Option<Tactic> {
    if p.Waiting? then Some(p.tactic) else None
  }

  function WaitingTactic(p: Phase): multiset<Tactic> { Bag(TacticWaiting(p)) }

  /** Every tactic that waits or was announced was taken as often. */
  ghost predicate StartsAreTaken(s: State) {
    forall t {:trigger multiset(s.emitted)[t]} ::
      Gather(s.workers, WaitingTactic)[t] + Starts(s.events)[t] <= multiset(s.emitted)[t]
  }

  /** A worker waits with what it takes until it announces it or gives up. */
  lemma WaitingMove(p: Phase, step: Step, s: State)
    requires WorkerEnabled(p, step, s)
    ensures
      var m := WorkerMove(p, step, s);
      if m.takes.None? then TacticWaiting(m.phase).None? && (StartOf(m.event).None? || StartOf(m.event) == TacticWaiting(p))
      else TacticWaiting(p).None? && TacticWaiting(m.phase) == m.takes && StartOf(m.event).None?
  {
    hide Offer, Closed;
  }

  lemma WaitingHandOver(p: Phase, step: Step, s: State, t: Tactic)
    requires WorkerEnabled(p, step, s)
    ensures
      var m := WorkerMove(p, step, s);
      WaitingTactic(m.phase)[t] + Bag(StartOf(m.event))[t] <= WaitingTactic(p)[t] + Bag(m.takes)[t]
  {
    hide WorkerMove, WorkerEnabled, TacticWaiting, StartOf;
    WaitingMove(p, step, s);
  }

  lemma MoveKeepsStarts(s: State, step: Step, w: nat, net: Net)
    requires StartsAreTaken(s) && w < |s.workers| && WorkerEnabled(s.workers[w], step, s)
    ensures StartsAreTaken(Moved(s, w, net, WorkerMove(s.workers[w], step, s)))
  {
    hide Gather, WorkerMove, WorkerEnabled, Starts, WaitingTactic, Bag;
    var m := WorkerMove(s.workers[w], step, s);
    var s' := Moved(s, w, net, m);
    BagList(s.emitted, m.takes);
    EventsConcat(s.events, m.event);
    forall t {:trigger multiset(s'.emitted)[t]}
      ensures Gather(s'.workers, WaitingTactic)[t] + Starts(s'.events)[t] <= multiset(s'.emitted)[t]
    {
      StepGather(s, w, m, net, WaitingTactic, t);
      WaitingHandOver(s.workers[w], step, s, t);
      assert multiset(s.emitted)[t] >= Gather(s.workers, WaitingTactic)[t] + Starts(s.events)[t];
    }
  }

  lemma StepKeepsStarts(s: State, step: Step)
    requires StartsAreTaken(s) && Enabled(s, step)
    ensures StartsAreTaken(Apply(s, step))
  {
    if WorkerOf(step).Some? {
      var w := WorkerOf(step).value;
      hide StartsAreTaken, WorkerMove, Moved, WorkerEnabled, Internal, Take;
      MoveKeepsStarts(s, step, w, if step.TakeTactic? then Take(s.net) else s.net);
    } else {
      hide Gather, Starts, Internal;
      assert Apply(s, step).emitted == s.emitted;
    }
  }

  lemma InitialStarts(net: Net)
    ensures StartsAreTaken(Init(net))
  {
    hide Gather;
    GatherNothing(Init(net).workers, WaitingTactic);
  }

  lemma {:induction false} DialKeepsStarts(net: Net, states: seq<State>, steps: seq<Step>, i: nat)
    requires IsDial(net, states, steps) && i < |states|
    ensures StartsAreTaken(states[i])
    decreases i
  {
    hide StartsAreTaken, Enabled, Apply, Init, Valid;
    if i == 0 {
      InitialStarts(net);
    } else {
      DialKeepsStarts(net, states, steps, i - 1);
      var step := steps[i - 1];
      StepKeepsStarts(states[i - 1], step);
    }
  }

  /** The tactics announced until some time. */
  function AnnouncedBy(announced: seq<(Tactic, int)>, time: int): multiset<Tactic> {
    if announced == [] then multiset{}
    else
      var last := announced[|announced| - 1];
      AnnouncedBy(announced[..|announced| - 1], time) + (if last.1 <= time then multiset{last.0} else multiset{})
  }

  lemma AnnouncedAppend(announced: seq<(Tactic, int)>, t: Tactic, at: int, time: int)
    ensures AnnouncedBy(announced + [(t, at)], time)
            == AnnouncedBy(announced, time) + (if at <= time then multiset{t} else multiset{})
  {
    assert (announced + [(t, at)])[..|announced|] == announced;
  }

  lemma AnnounceIsStart(s: State, step: Step)
    requires Enabled(s, step)
    ensures step.Ready? ==>
              && step.w < |s.workers| && s.workers[step.w].Waiting?
              && Starts(Apply(s, step).events) == Starts(s.events) + multiset{s.workers[step.w].tactic}
    ensures forall t :: Starts(s.events)[t] <= Starts(Apply(s, step).events)[t]
  {
    hide Starts, Enabled, Apply, EventOf, WorkerMove;
    StepOfWorker(s, step);
    EventsConcat(s.events, EventOf(s, step));
    if step.Ready? {
      ReadyAnnounces(s.workers[step.w], step, s);
    }
  }

  lemma ReadyAnnounces(p: Phase, step: Step, s: State)
    requires step.Ready? && WorkerEnabled(p, step, s)
    ensures p.Waiting? && WorkerMove(p, step, s).event == Some(HttpsDialer.OnStarting(p.tactic))
  {
    hide Offer, Closed;
  }

  /** What was announced by some time are starts that the statistics were told of. */
  lemma {:induction false} AnnouncedAreStarts(net: Net, states: seq<TimedState>, steps: seq<TimedStep>, i: nat, time: int)
    requires IsTimedDial(net, states, steps) && i < |states|
    ensures AnnouncedBy(states[i].announced, time) <= Starts(states[i].dial.events)
    decreases i
  {
    hide Enabled, Apply, Valid, Starts;
    if i > 0 {
      hide AnnouncedBy;
      AnnouncedAreStarts(net, states, steps, i - 1, time);
      var s, a := states[i - 1], steps[i - 1];
      TimedStepOfDial(s, a);
      if DialStepOf(a).Some? {
        AnnounceIsStart(s.dial, DialStepOf(a).value);
      }
      if a.Announce? {
        AnnouncedAppend(s.announced, s.dial.workers[a.w].tactic, s.now, time);
      }
    } else {
      NothingAnnounced(time);
    }
  }

  lemma NothingAnnounced(time: int)
    ensures AnnouncedBy([], time) == multiset{}
  {
  }

  // ----- counting what is due

  /** How many of the tactics have a delay of at most `d`. */
  function DueCount(ts: seq<Tactic>, d: int): nat {
    if ts == [] then 0
    else DueCount(ts[..|ts| - 1], d) + (if ts[|ts| - 1].initialDelay <= d then 1 else 0)
  }

  lemma {:induction false} DueFits(m: multiset<Tactic>, ts: seq<Tactic>, d: int)
    requires m <= multiset(ts) && forall t :: t in m ==> t.initialDelay <= d
    ensures |m| <= DueCount(ts, d)
    decreases |ts|
  {
    if ts == [] {
      assert m == multiset{};
    } else {
      var n := |ts| - 1;
      var last := ts[n];
      assert ts == ts[..n] + [last];
      var rest := if last in m then m - multiset{last} else m;
      forall t
        ensures rest[t] <= multiset(ts[..n])[t]
      {
        assert m[t] <= multiset(ts)[t];
      }
      DueFits(rest, ts[..n], d);
    }
  }

  /** The delay of every tactic is that of its position. */
  predicate HasDelays(ts: seq<Tactic>) {
    forall k {:trigger ts[k]} :: 0 <= k < |ts| ==> ts[k].initialDelay == HappyEyeballsDelay(k)
  }

  lemma {:induction false} DueAreFirst(ts: seq<Tactic>, d: int, n: nat)
    requires HasDelays(ts) && |ts| <= LAST_EXACT_INDEX + 1 && n <= LAST_EXACT_INDEX && d < HappyEyeballsDelay(n)
    ensures DueCount(ts, d) <= n && DueCount(ts, d) <= |ts|
    decreases |ts|
  {
    hide HappyEyeballsDelay;
    if ts != [] {
      var last := |ts| - 1;
      DueAreFirst(ts[..last], d, n);
      if n < last {
        DelaysStrictlyIncrease(n, last);
      }
    }
  }

  lemma ScheduledHasDelays(p: Policy, w: World, domain: string, port: string)
    ensures HasDelays(Scheduled(p, w, domain, port))
  {
    hide Emit, F.Unique, F.NonNil, HappyEyeballsDelay;
  }

  // ----- the theorems

  /** The dial that the policies compose, in time. */
  ghost predicate IsPolicyDial(proxy: bool, user: Option<UserRoot>, w: World, domain: string, port: string,
                               states: seq<TimedState>, steps: seq<TimedStep>) {
    IsTimedDial(StartFiltered(NewHTTPSDialerPolicy(proxy, user), w, domain, port), states, steps)
  }

  /** What is taken is taken in order, so with the delays of the positions. */
  lemma TakenHaveDelays(proxy: bool, user: Option<UserRoot>, w: World, domain: string, port: string,
                        states: seq<TimedState>, steps: seq<TimedStep>, i: nat)
    requires IsPolicyDial(proxy, user, w, domain, port, states, steps) && i < |states|
    ensures HasDelays(states[i].dial.emitted)
  {
    hide IsTimedDial, IsDial, Scheduled, StartFiltered, HappyEyeballsDelay;
    var p := NewHTTPSDialerPolicy(proxy, user);
    var dials, dialSteps := TimedDialIsDial(StartFiltered(p, w, domain, port), states, steps, i);
    assert |dials| == |dialSteps| + 1 by { DialSizes(StartFiltered(p, w, domain, port), dials, dialSteps); }
    TacticsAreTakenInOrder(proxy, user, w, domain, port, dials, dialSteps, |dialSteps|);
    ScheduledHasDelays(p, w, domain, port);
    ScheduledHasDelays(p, WithoutAddrs(w), domain, port);
  }

  lemma DialSizes(net: Net, states: seq<State>, steps: seq<Step>)
    requires IsDial(net, states, steps)
    ensures |states| == |steps| + 1
  {
  }

  lemma AnnouncedAreTaken(net: Net, states: seq<TimedState>, steps: seq<TimedStep>, i: nat, time: int)
    requires IsTimedDial(net, states, steps) && i < |states|
    ensures AnnouncedBy(states[i].announced, time) <= multiset(states[i].dial.emitted)
  {
    hide IsTimedDial, IsDial, Starts, Gather, AnnouncedBy;
    AnnouncedAreStarts(net, states, steps, i, time);
    var dials, dialSteps := TimedDialIsDial(net, states, steps, i);
    DialSizes(net, dials, dialSteps);
    DialKeepsStarts(net, dials, dialSteps, |dialSteps|);
    var s := states[i].dial;
    forall t
      ensures AnnouncedBy(states[i].announced, time)[t] <= multiset(s.emitted)[t]
    {
      assert AnnouncedBy(states[i].announced, time)[t] <= Starts(s.events)[t];
    }
  }

  lemma {:induction false} AnnouncedMembers(announced: seq<(Tactic, int)>, time: int, t: Tactic)
    ensures t in AnnouncedBy(announced, time) <==> exists k {:trigger announced[k]} ::
              0 <= k < |announced| && announced[k].0 == t && announced[k].1 <= time
  {
    if announced != [] {
      var n := |announced| - 1;
      AnnouncedMembers(announced[..n], time, t);
      assert announced == announced[..n] + [announced[n]];
    }
  }

  /** Happy eyeballs in time: every announced dial is of a tactic that was taken as the k-th one, and was announced
      no earlier than the k-th delay after the zero time. */
  lemma DelaysAreHonoured(proxy: bool, user: Option<UserRoot>, w: World, domain: string, port: string,
                          states: seq<TimedState>, steps: seq<TimedStep>, i: nat, a: nat)
    requires IsPolicyDial(proxy, user, w, domain, port, states, steps) && i < |states| && a < |states[i].announced|
    ensures states[i].zero.Some?
    ensures exists k {:trigger states[i].dial.emitted[k]} ::
              0 <= k < |states[i].dial.emitted| && states[i].dial.emitted[k] == states[i].announced[a].0
              && states[i].announced[a].1 >= states[i].zero.value + HappyEyeballsDelay(k)
  {
    hide IsTimedDial, StartFiltered, AnnouncedBy, HappyEyeballsDelay;
    var net := StartFiltered(NewHTTPSDialerPolicy(proxy, user), w, domain, port);
    var s := states[i];
    TimedDialKeepsOnTime(net, states, steps, i);
    assert EntryOnTime(s.zero, s.now, s.announced[a]);
    TakenHaveDelays(proxy, user, w, domain, port, states, steps, i);
    AnnouncedAreTaken(net, states, steps, i, s.announced[a].1);
    AnnouncedMembers(s.announced, s.announced[a].1, s.announced[a].0);
    assert s.announced[a].0 in multiset(s.dial.emitted);
    var k :| 0 <= k < |s.dial.emitted| && s.dial.emitted[k] == s.announced[a].0;
  }

  /** Until `d` after the zero time, a dial announces at most as many tactics as were taken with delays up to `d`;
      so before the n-th delay at most `n`, unless so many tactics are taken that the delays overflow. */
  lemma FewAreAnnouncedEarly(proxy: bool, user: Option<UserRoot>, w: World, domain: string, port: string,
                             states: seq<TimedState>, steps: seq<TimedStep>, i: nat, d: int, n: nat)
    requires IsPolicyDial(proxy, user, w, domain, port, states, steps) && i < |states| && states[i].zero.Some?
    requires n <= LAST_EXACT_INDEX && d < HappyEyeballsDelay(n)
    ensures
      var early := |AnnouncedBy(states[i].announced, states[i].zero.value + d)|;
      && early <= DueCount(states[i].dial.emitted, d)
      && (|states[i].dial.emitted| <= LAST_EXACT_INDEX + 1 ==> early <= n)
  {
    hide IsTimedDial, StartFiltered, AnnouncedBy, DueCount, HappyEyeballsDelay;
    var net := StartFiltered(NewHTTPSDialerPolicy(proxy, user), w, domain, port);
    var s := states[i];
    var time := s.zero.value + d;
    TimedDialKeepsOnTime(net, states, steps, i);
    assert AnnouncedOnTime(s);
    AnnouncedAreTaken(net, states, steps, i, time);
    forall t | t in AnnouncedBy(s.announced, time)
      ensures t.initialDelay <= d
    {
      AnnouncedMembers(s.announced, time, t);
      var k :| 0 <= k < |s.announced| && s.announced[k].0 == t && s.announced[k].1 <= time;
      assert EntryOnTime(s.zero, s.now, s.announced[k]);
    }
    DueFits(AnnouncedBy(s.announced, time), s.dial.emitted, d);
    if |s.dial.emitted| <= LAST_EXACT_INDEX + 1 {
      TakenHaveDelays(proxy, user, w, domain, port, states, steps, i);
      DueAreFirst(s.dial.emitted, d, n);
    }
  }

  // ----- time never blocks a dial for good

  /** Until the call has returned some step is possible, and the caller's cancellation is not needed for that. Time
      has to pass only for a worker that sleeps. */
  lemma TimedDialNeverStuck(s: TimedState, total: seq<Msg>) returns (a: TimedStep)
    requires Inv(s.dial, total) && s.dial.outcome.None? && WaitersOnTime(s)
    ensures TimedEnabled(s, a) && a != Other(ExternalCancel) && (a.Tick? ==> s.sleeping != {})
  {
    hide Inv;
    var step := DialNeverStuck(s.dial, total);
    if step.Ready? || step.GiveUpWaiting? {
      var w := step.w;
      assert IsWaiting(s, w) by { WaitsToStart(s.dial, step); }
      if s.zero.None? {
        a := GetZeroTime(w);
      } else if w in s.due {
        a := Announce(w);
      } else if w !in s.sleeping {
        a := LookAtClock(w);
      } else if s.now >= Deadline(s, w) {
        a := TimerFires(w);
      } else {
        a := Tick(Deadline(s, w));
      }
    } else {
      a := Other(step);
    }
  }

  lemma WaitsToStart(s: State, step: Step)
    requires Enabled(s, step) && (step.Ready? || step.GiveUpWaiting?)
    ensures step.w < |s.workers| && s.workers[step.w].Waiting?
  {
  }

  /** A bound on the steps that are left, but for those of the clock. */
  function TimedMeasure(s: TimedState): int {
    3 * Measure(s.dial) + (if s.zero.None? then 1 else 0) - |s.sleeping| - 2 * |s.due|
  }

  lemma ClockStepDecreasesMeasure(s: TimedState, a: TimedStep)
    requires TimedEnabled(s, a) && DialStepOf(a).None? && s.sleeping !! s.due
    ensures if a.Tick? then TimedMeasure(TimedApply(s, a)) == TimedMeasure(s)
            else TimedMeasure(TimedApply(s, a)) < TimedMeasure(s)
  {
    hide Measure, Enabled, Apply, Deadline, IsWaiting;
    match a
    case TimerFires(w) =>
      SizeWith(s.due, w);
      SizeWith(s.sleeping - {w}, w);
      assert s.sleeping - {w} + {w} == s.sleeping;
    case LookAtClock(w) =>
      SizeWith(s.due, w);
      SizeWith(s.sleeping, w);
    case _ =>
  }

  lemma SizeWith(m: set<nat>, w: nat)
    requires w !in m
    ensures |m + {w}| == |m| + 1
  {
  }

  lemma DialStepDecreasesMeasure(s: TimedState, a: TimedStep)
    requires WorkersConsistent(s.dial) && TimedEnabled(s, a) && DialStepOf(a).Some?
    ensures TimedMeasure(TimedApply(s, a)) < TimedMeasure(s)
  {
    hide WorkersConsistent, Measure, Enabled, Apply;
    TimedStepOfDial(s, a);
    StepDecreasesMeasure(s.dial, DialStepOf(a).value);
    var s' := TimedApply(s, a);
    assert |s'.sleeping| >= |s.sleeping| - 1 && |s'.due| >= |s.due| - 1;
    assert s'.sleeping == s.sleeping || s'.due == s.due;
    assert s'.zero == s.zero;
  }

  lemma TimedStepDecreasesMeasure(s: TimedState, a: TimedStep)
    requires WorkersConsistent(s.dial) && TimedEnabled(s, a) && WaitersOnTime(s)
    ensures if a.Tick? then TimedMeasure(TimedApply(s, a)) == TimedMeasure(s)
            else TimedMeasure(TimedApply(s, a)) < TimedMeasure(s)
  {
    hide WorkersConsistent, TimedMeasure, TimedApply, TimedEnabled;
    if DialStepOf(a).None? {
      ClockStepDecreasesMeasure(s, a);
    } else {
      DialStepDecreasesMeasure(s, a);
    }
  }

  lemma {:induction false} FewBelow(m: set<nat>, n: nat)
    requires forall w :: w in m ==> w < n
    ensures |m| <= n
  {
    if n > 0 {
      FewBelow(m - {n - 1}, n - 1);
    } else {
      assert m == {};
    }
  }

  /** How many of the first `i` steps are not the clock's. */
  function StepsTaken(steps: seq<TimedStep>, i: nat): nat
    requires i <= |steps|
  {
    if i == 0 then 0 else StepsTaken(steps, i - 1) + (if steps[i - 1].Tick? then 0 else 1)
  }

  lemma {:induction false} StepsSoFar(net: Net, states: seq<TimedState>, steps: seq<TimedStep>, i: nat)
    requires IsTimedDial(net, states, steps) && i < |states|
    ensures StepsTaken(steps, i) + TimedMeasure(states[i]) <= 3 * (6 * Work(net) + 2 * PARALLELISM + 2) + 1
    decreases i
  {
    hide TimedEnabled, TimedApply, Valid, Measure, Work, Init, OnTime, WaitersOnTime;
    if i == 0 {
      InitialMeasure(net);
    } else {
      hide TimedMeasure;
      StepsSoFar(net, states, steps, i - 1);
      DialOfTimed(net, states, steps, i - 1);
      var a := steps[i - 1];
      TimedStepDecreasesMeasure(states[i - 1], a);
    }
  }

  lemma DialOfTimed(net: Net, states: seq<TimedState>, steps: seq<TimedStep>, i: nat)
    requires IsTimedDial(net, states, steps) && i < |states|
    ensures Inv(states[i].dial, Flow(net)) && WorkersConsistent(states[i].dial) && WaitersOnTime(states[i])
  {
    hide IsTimedDial, IsDial, WorkersConsistent, ParentConsistent, WaitersOnTime, AnnouncedOnTime, Flow;
    hide ConnectionsAccounted, TacticsAccounted, EventsAccounted, StreamAccounted;
    var dials, dialSteps := TimedDialIsDial(net, states, steps, i);
    DialSizes(net, dials, dialSteps);
    DialKeepsInv(net, dials, dialSteps, |dialSteps|);
    TimedDialKeepsOnTime(net, states, steps, i);
  }

  /** However long the waits, no dial takes more steps than a bound that is known when it starts. */
  lemma TimedDialEnds(net: Net, states: seq<TimedState>, steps: seq<TimedStep>, i: nat)
    requires IsTimedDial(net, states, steps) && i < |states|
    ensures StepsTaken(steps, i) <= 3 * (6 * Work(net) + 2 * PARALLELISM + 2) + 1 + 2 * PARALLELISM
  {
    hide IsTimedDial, Work, Measure, Inv;
    StepsSoFar(net, states, steps, i);
    DialOfTimed(net, states, steps, i);
    var s := states[i];
    assert |s.dial.workers| == PARALLELISM by { HasAllWorkers(s.dial); }
    FewBelow(s.sleeping + s.due, PARALLELISM);
    assert |s.sleeping + s.due| == |s.sleeping| + |s.due|;
  }

  lemma HasAllWorkers(s: State)
    requires WorkersConsistent(s)
    ensures |s.workers| == PARALLELISM
  {
  }
}
