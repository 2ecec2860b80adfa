/** What a dial returns, closes and reports, read off the steps of its run (pkg/enginenetx/httpsdialer.go). */
module DialResults {
  import opened Optional
  import opened Tactics
  import opened TacticNet
  import opened HttpsDialer

  // ----- what happened, step by step

  /** How a dial ends: waiting, connecting, handshaking and verifying may fail, and only verifying succeeds. */
  function VerdictOf(s: State, step: Step): Option<(Tactic, DialResult)>
    requires Enabled(s, step)
  {
    match step
    case GiveUpWaiting(w, error) => Some((s.workers[w].tactic, Failure(error)))
    case TcpFails(w, error) => Some((s.workers[w].tactic, Failure(error)))
    case HandshakeFails(w, error) => Some((s.workers[w].tactic, Failure(error)))
    case VerifyFails(w, error) => Some((s.workers[w].tactic, Failure(error)))
    case Verifies(w) => Some((s.workers[w].tactic, Success(s.workers[w].conn)))
    case _ => None
  }

  /** A failure after the connection was opened closes it. */
  function ClosedBy(s: State, step: Step): Option<int>
    requires Enabled(s, step)
  {
    match step
    case HandshakeFails(w, _) => Some(s.workers[w].conn)
    case VerifyFails(w, _) => Some(s.workers[w].conn)
    case _ => None
  }

  /** The callbacks; connect and handshake errors are interrupts when the context is done. */
  function CallbackOf(s: State, step: Step): Option<Event>
    requires Enabled(s, step)
  {
    match step
    case Ready(w) => Some(HttpsDialer.OnStarting(s.workers[w].tactic))
    case TcpFails(w, _) => Some(HttpsDialer.OnTCPConnectError(s.workers[w].tactic, s.cancelled))
    case HandshakeFails(w, _) => Some(HttpsDialer.OnTLSHandshakeError(s.workers[w].tactic, s.cancelled))
    case VerifyFails(w, _) => Some(HttpsDialer.OnTLSVerifyError(s.workers[w].tactic))
    case Verifies(w) => Some(HttpsDialer.OnSuccess(s.workers[w].tactic))
    case _ => None
  }

  ghost function Verdicts(states: seq<State>, steps: seq<Step>, i: nat): seq<(Tactic, DialResult)>
    requires HttpsDialer.IsRun(states, steps) && i <= |steps|
  {
    if i == 0 then [] else Verdicts(states, steps, i - 1) + List(VerdictOf(states[i - 1], steps[i - 1]))
  }

  ghost function ClosedOnFailure(states: seq<State>, steps: seq<Step>, i: nat): seq<int>
    requires HttpsDialer.IsRun(states, steps) && i <= |steps|
  {
    if i == 0 then [] else ClosedOnFailure(states, steps, i - 1) + List(ClosedBy(states[i - 1], steps[i - 1]))
  }

  ghost function Callbacks(states: seq<State>, steps: seq<Step>, i: nat): seq<Event>
    requires HttpsDialer.IsRun(states, steps) && i <= |steps|
  {
    if i == 0 then [] else Callbacks(states, steps, i - 1) + List(CallbackOf(states[i - 1], steps[i - 1]))
  }

  // ----- a step of one worker

  lemma MoveCameFrom(s: State, step: Step, w: nat)
    requires Enabled(s, step) && WorkerOf(step) == Some(w)
    ensures
      var p, p' := s.workers[w], WorkerMove(s.workers[w], step, s).phase;
      match p'
      case Waiting(t) => step == TakeTactic(w) && p.Idle? && Offer(s.net) != [] && Offer(s.net)[0] == Some(t)
      case Connecting(t) => step == Ready(w) && p == Waiting(t)
      case Handshaking(t, c) => step == TcpConnects(w) && p == Connecting(t) && c == s.nextConn
      case Verifying(t, c) => step == Handshakes(w) && p == Handshaking(t, c)
      case Posting(t, result) => VerdictOf(s, step) == Some((t, result)) && TacticHeld(p) == Some(t)
      case _ => VerdictOf(s, step).None?
  {
    hide Internal, Take, Closed;
  }

  /** From which phase, and by which step, a worker comes to a phase. */
  lemma CameFrom(s: State, step: Step, w: nat)
    requires Enabled(s, step) && w < |s.workers|
    ensures |Apply(s, step).workers| == |s.workers|
    ensures
      var p, p' := s.workers[w], Apply(s, step).workers[w];
      if WorkerOf(step) != Some(w) then p' == p
      else
        match p'
        case Waiting(t) => step == TakeTactic(w) && p.Idle? && Offer(s.net) != [] && Offer(s.net)[0] == Some(t)
        case Connecting(t) => step == Ready(w) && p == Waiting(t)
        case Handshaking(t, c) => step == TcpConnects(w) && p == Connecting(t) && c == s.nextConn
        case Verifying(t, c) => step == Handshakes(w) && p == Handshaking(t, c)
        case Posting(t, result) => VerdictOf(s, step) == Some((t, result)) && TacticHeld(p) == Some(t)
        case _ => VerdictOf(s, step).None?
  {
    StepOfCollector(s, step);
    if WorkerOf(step) == Some(w) {
      MoveCameFrom(s, step, w);
    }
    hide Enabled, Apply, VerdictOf, WorkerMove, WorkerEnabled, Offer;
  }

  /** The result that a worker is blocked sending. */
  function Posted(p: Phase): Option<(Tactic, DialResult)> {
    if p.Posting? then Some((p.tactic, p.result)) else None
  }

  function PostedResult(p: Phase): multiset<(Tactic, DialResult)> { Bag(Posted(p)) }

  /** What a worker's step comes to is posted, and stays so until it is collected as it is. */
  lemma WorkerPosts(s: State, step: Step, w: nat)
    requires Enabled(s, step) && WorkerOf(step) == Some(w)
    ensures
      var m := WorkerMove(s.workers[w], step, s);
      Handover(Posted(s.workers[w]), VerdictOf(s, step), Posted(m.phase), m.report)
  {
    hide Internal, Take, Offer, Closed;
  }

  lemma StepOfCollector(s: State, step: Step)
    requires Enabled(s, step)
    ensures match WorkerOf(step)
            case None => Apply(s, step).collected == s.collected && Apply(s, step).workers == s.workers
            case Some(w) =>
              && w < |s.workers| && WorkerEnabled(s.workers[w], step, s)
              && Apply(s, step).workers == s.workers[w := WorkerMove(s.workers[w], step, s).phase]
              && Apply(s, step).collected == s.collected + List(WorkerMove(s.workers[w], step, s).report)
  {
    hide Internal, Take, Offer, WorkerMove, WorkerEnabled;
  }

  lemma StepCollects(s: State, step: Step)
    requires Enabled(s, step)
    ensures
      Gather(Apply(s, step).workers, PostedResult) + multiset(Apply(s, step).collected)
      == Gather(s.workers, PostedResult) + multiset(s.collected) + Bag(VerdictOf(s, step))
  {
    StepOfCollector(s, step);
    if WorkerOf(step).Some? {
      var w := WorkerOf(step).value;
      WorkerPosts(s, step, w);
      hide Gather, Enabled, Apply, VerdictOf, WorkerMove, WorkerEnabled, Posted, Handover, Bag;
      var m := WorkerMove(s.workers[w], step, s);
      BagList(s.collected, m.report);
      GatherUpdate(s.workers, PostedResult, w, m.phase);
      var before, after := Gather(s.workers, PostedResult), Gather(Apply(s, step).workers, PostedResult);
      var was, now := PostedResult(s.workers[w]), PostedResult(m.phase);
      assert after + was == before + now;
      forall x: (Tactic, DialResult) {:trigger before[x]}
        ensures after[x] + (multiset(s.collected)[x] + Bag(m.report)[x])
                == before[x] + multiset(s.collected)[x] + Bag(VerdictOf(s, step))[x]
      {
        HandoverBalances(Posted(s.workers[w]), VerdictOf(s, step), Posted(m.phase), m.report, x);
        assert (after + was)[x] == (before + now)[x];
      }
      SumsAgree(before, multiset(s.collected), Bag(VerdictOf(s, step)), after, multiset(s.collected), Bag(m.report));
    } else {
      hide Gather, Enabled, Apply;
      NoWorkerStep(s, step);
    }
  }

  lemma SumsAgree<T>(a: multiset<T>, b: multiset<T>, c: multiset<T>, d: multiset<T>, e: multiset<T>, f: multiset<T>)
    requires forall x {:trigger a[x]} :: d[x] + (e[x] + f[x]) == a[x] + b[x] + c[x]
    ensures d + (e + f) == a + b + c
  {
  }

  lemma NoWorkerStep(s: State, step: Step)
    requires Enabled(s, step) && WorkerOf(step).None?
    ensures Apply(s, step).collected == s.collected && Apply(s, step).workers == s.workers
    ensures VerdictOf(s, step).None? && ClosedBy(s, step).None? && CallbackOf(s, step).None?
  {
    hide Internal;
  }

  lemma StepCloses(s: State, step: Step)
    requires Enabled(s, step)
    ensures !step.Return? ==> Apply(s, step).closed == s.closed + List(ClosedBy(s, step)) && Apply(s, step).outcome == s.outcome
    ensures step.Return? ==>
              && Apply(s, step).closed == s.closed + (if s.connv == [] then [] else s.connv[1..])
              && Apply(s, step).outcome.Some? && Apply(s, step).connv == s.connv
  {
    hide Internal, Take, Offer, Closed;
  }

  lemma StepCalls(s: State, step: Step)
    requires Enabled(s, step)
    ensures Apply(s, step).events == s.events + List(CallbackOf(s, step))
  {
    hide Internal, Take, Offer, Closed;
  }

  // ----- whole runs

  lemma {:induction false} VerdictsSoFar(states: seq<State>, steps: seq<Step>, i: nat)
    requires HttpsDialer.IsRun(states, steps) && i <= |steps| && states[0].collected == []
    requires Gather(states[0].workers, PostedResult) == multiset{}
    ensures Gather(states[i].workers, PostedResult) + multiset(states[i].collected) == multiset(Verdicts(states, steps, i))
    decreases i
  {
    hide Gather, Enabled, Apply, VerdictOf, PostedResult, Bag, List;
    if i > 0 {
      VerdictsSoFar(states, steps, i - 1);
      var step := steps[i - 1];
      StepCollects(states[i - 1], step);
      BagList(Verdicts(states, steps, i - 1), VerdictOf(states[i - 1], step));
    }
  }

  lemma {:induction false} CallbacksSoFar(states: seq<State>, steps: seq<Step>, i: nat)
    requires HttpsDialer.IsRun(states, steps) && i <= |steps| && states[0].events == []
    ensures states[i].events == Callbacks(states, steps, i)
    decreases i
  {
    hide Enabled, Apply, CallbackOf;
    if i > 0 {
      CallbacksSoFar(states, steps, i - 1);
      var step := steps[i - 1];
      StepCalls(states[i - 1], step);
    }
  }

  lemma {:induction false} ClosedSoFar(net: Net, states: seq<State>, steps: seq<Step>, i: nat)
    requires IsDial(net, states, steps) && i <= |steps|
    ensures states[i].closed == ClosedOnFailure(states, steps, i)
              + (if states[i].outcome.None? || states[i].connv == [] then [] else states[i].connv[1..])
    decreases i
  {
    hide Enabled, Apply, ClosedBy, Valid, Init, Flow, Inv;
    if i == 0 {
      InitClosed(net);
    } else {
      ClosedSoFar(net, states, steps, i - 1);
      DialKeepsInv(net, states, steps, i - 1);
      var s, step := states[i - 1], steps[i - 1];
      if s.outcome.Some? {
        NoStepAfterReturn(s, step, Flow(net));
      } else {
        StepCloses(s, step);
        if step.Return? {
          ReturnIsNoFailure(s, step);
        }
      }
    }
  }

  lemma InitClosed(net: Net)
    ensures Init(net).closed == [] && Init(net).outcome.None? && Init(net).collected == [] && Init(net).events == []
  {
  }

  lemma ReturnIsNoFailure(s: State, step: Step)
    requires Enabled(s, step) && step.Return?
    ensures ClosedBy(s, step).None?
  {
  }

  lemma NothingPosted(net: Net)
    ensures Gather(Init(net).workers, PostedResult) == multiset{}
  {
    hide Gather;
    GatherNothing(Init(net).workers, PostedResult);
  }

  /** When a dial returns, the results that its parent collected are those of the steps that ended dials, each once:
      a failure with the error of the step that failed, a success with the connection that was verified. */
  lemma ResultsAreVerdicts(net: Net, states: seq<State>, steps: seq<Step>, i: nat)
    requires IsDial(net, states, steps) && i < |states| && states[i].outcome.Some?
    ensures multiset(states[i].collected) == multiset(Verdicts(states, steps, i))
  {
    hide IsDial, Gather, Verdicts, Inv;
    StartsEmpty(net, states, steps);
    NetIsValid(net, states, steps);
    VerdictsSoFar(states, steps, i);
    DialKeepsInv(net, states, steps, i);
    AllPostedCollected(states[i], Flow(net));
  }

  lemma StartsEmpty(net: Net, states: seq<State>, steps: seq<Step>)
    requires IsDial(net, states, steps)
    ensures HttpsDialer.IsRun(states, steps) && |states| == |steps| + 1
    ensures Gather(states[0].workers, PostedResult) == multiset{} && states[0].collected == [] && states[0].events == []
  {
    hide Gather, Init, Enabled, Apply, Valid;
    NothingPosted(net);
    InitClosed(net);
  }

  lemma AllPostedCollected(s: State, total: seq<Msg>)
    requires Inv(s, total) && s.outcome.Some?
    ensures Gather(s.workers, PostedResult) == multiset{}
  {
    hide Gather, ConnectionsAccounted, TacticsAccounted, EventsAccounted, StreamAccounted, Valid, Closed;
    AllJoinedHoldNothing(s);
    GatherNothing(s.workers, PostedResult);
  }

  lemma {:induction false} VerdictsMember(states: seq<State>, steps: seq<Step>, i: nat, v: (Tactic, DialResult)) returns (j: nat)
    requires HttpsDialer.IsRun(states, steps) && i <= |steps| && v in Verdicts(states, steps, i)
    ensures j < i && Enabled(states[j], steps[j]) && VerdictOf(states[j], steps[j]) == Some(v)
    decreases i
  {
    hide Enabled, Apply, VerdictOf;
    j := i - 1;
    assert Enabled(states[j], steps[j]);
    if VerdictOf(states[j], steps[j]) != Some(v) {
      assert v in Verdicts(states, steps, i - 1);
      j := VerdictsMember(states, steps, i - 1, v);
    }
  }

  /** Worker `w` has been in its present phase since the moment after `j`, when it came to it. */
  ghost predicate SinceMove(states: seq<State>, steps: seq<Step>, w: nat, j: nat, i: nat) {
    && j < i < |states| && |states| == |steps| + 1
    && WorkerOf(steps[j]) == Some(w)
    && w < |states[j].workers| && w < |states[j + 1].workers| && w < |states[i].workers|
    && states[j + 1].workers[w] == states[i].workers[w]
  }

  lemma {:induction false} LastMove(net: Net, states: seq<State>, steps: seq<Step>, w: nat, i: nat) returns (j: nat)
    requires IsDial(net, states, steps) && i < |states| && w < |states[i].workers| && !states[i].workers[w].Idle?
    ensures SinceMove(states, steps, w, j, i)
    decreases i
  {
    hide Enabled, Apply, Valid, Inv, Flow, WorkerOf;
    if i == 0 {
      InitIdle(net);
      assert false;
    } else {
      DialKeepsInv(net, states, steps, i - 1);
      SixteenWorkers(states[i - 1], Flow(net));
      var step := steps[i - 1];
      WorkersStay(states[i - 1], step);
      if WorkerOf(step) == Some(w) {
        j := i - 1;
      } else {
        CameFrom(states[i - 1], step, w);
        j := LastMove(net, states, steps, w, i - 1);
      }
    }
  }

  lemma InitIdle(net: Net)
    ensures forall w {:trigger Init(net).workers[w]} :: 0 <= w < |Init(net).workers| ==> Init(net).workers[w].Idle?
  {
  }

  lemma NetIsValid(net: Net, states: seq<State>, steps: seq<Step>)
    requires IsDial(net, states, steps)
    ensures Valid(net)
  {
  }

  lemma SixteenWorkers(s: State, total: seq<Msg>)
    requires Inv(s, total)
    ensures |s.workers| == PARALLELISM
  {
  }

  lemma WorkersStay(s: State, step: Step)
    requires Enabled(s, step)
    ensures |Apply(s, step).workers| == |s.workers|
  {
    hide Internal, Take, Offer, Closed;
  }

  /** The moments at which a worker took a tactic, announced it, connected, shook hands and verified. */
  ghost predicate VerifiedAt(states: seq<State>, steps: seq<Step>, w: nat, t: Tactic, c: int,
                             taken: nat, announced: nat, connected: nat, shaken: nat, verified: nat)
    requires |states| == |steps| + 1
  {
    && taken < announced < connected < shaken < verified < |steps|
    && (forall k {:trigger states[k].workers} :: 0 <= k < |states| ==> w < |states[k].workers|)
    && steps[taken] == TakeTactic(w) && Offer(states[taken].net) != [] && Offer(states[taken].net)[0] == Some(t)
    && steps[announced] == Ready(w) && states[announced].workers[w] == Waiting(t)
    && steps[connected] == TcpConnects(w) && states[connected].workers[w] == Connecting(t) && states[connected].nextConn == c
    && steps[shaken] == Handshakes(w) && states[shaken].workers[w] == Handshaking(t, c)
    && steps[verified] == Verifies(w) && states[verified].workers[w] == Verifying(t, c)
  }

  /** A verified connection went through all stages of one tactic, with one worker and in their order. */
  lemma VerifiedAfterAllStages(net: Net, states: seq<State>, steps: seq<Step>, verified: nat, w: nat, t: Tactic, c: int)
      returns (taken: nat, announced: nat, connected: nat, shaken: nat)
    requires IsDial(net, states, steps) && verified < |steps| && steps[verified] == Verifies(w)
    requires w < |states[verified].workers| && states[verified].workers[w] == Verifying(t, c)
    ensures VerifiedAt(states, steps, w, t, c, taken, announced, connected, shaken, verified)
  {
    hide Enabled, Apply, Valid, Offer;
    shaken := LastMove(net, states, steps, w, verified);
    assert Enabled(states[shaken], steps[shaken]);
    CameFrom(states[shaken], steps[shaken], w);
    connected := LastMove(net, states, steps, w, shaken);
    assert Enabled(states[connected], steps[connected]);
    CameFrom(states[connected], steps[connected], w);
    announced := LastMove(net, states, steps, w, connected);
    assert Enabled(states[announced], steps[announced]);
    CameFrom(states[announced], steps[announced], w);
    taken := LastMove(net, states, steps, w, announced);
    assert Enabled(states[taken], steps[taken]);
    CameFrom(states[taken], steps[taken], w);
    forall k {:trigger states[k].workers} | 0 <= k < |states|
      ensures w < |states[k].workers|
    {
      WorkersAtAll(net, states, steps, k, w, verified);
    }
  }

  lemma WorkersAtAll(net: Net, states: seq<State>, steps: seq<Step>, k: nat, w: nat, i: nat)
    requires IsDial(net, states, steps) && k < |states| && i < |states| && w < |states[i].workers|
    ensures w < |states[k].workers|
  {
    hide IsDial, Inv;
    NetIsValid(net, states, steps);
    DialKeepsInv(net, states, steps, k);
    SixteenWorkers(states[k], Flow(net));
    DialKeepsInv(net, states, steps, i);
    SixteenWorkers(states[i], Flow(net));
  }

  /** A dial returns no connection but one that some worker opened, shook hands on and verified, all for one tactic. */
  lemma ReturnedConnectionIsVerified(net: Net, states: seq<State>, steps: seq<Step>, i: nat, c: int)
      returns (w: nat, t: Tactic, taken: nat, announced: nat, connected: nat, shaken: nat, verified: nat)
    requires IsDial(net, states, steps) && i < |states| && states[i].outcome == Some(Returned(c))
    ensures |states| == |steps| + 1 && verified < i
    ensures VerifiedAt(states, steps, w, t, c, taken, announced, connected, shaken, verified)
  {
    hide IsDial, Verdicts, Enabled, VerdictOf, VerifiedAt;
    ResultsAreVerdicts(net, states, steps, i);
    ResultIsFirstSuccess(net, states, steps, i);
    StartsEmpty(net, states, steps);
    var k :| 0 <= k < |states[i].collected| && states[i].collected[k].1 == Success(c);
    var v := states[i].collected[k];
    assert v in multiset(Verdicts(states, steps, i));
    verified := VerdictsMember(states, steps, i, v);
    t := v.0;
    w := VerdictIsSuccess(states[verified], steps[verified], c);
    SuccessIsVerified(states[verified], steps[verified], t, c, w);
    taken, announced, connected, shaken := VerifiedAfterAllStages(net, states, steps, verified, w, t, c);
  }

  lemma VerdictIsSuccess(s: State, step: Step, c: int) returns (w: nat)
    requires Enabled(s, step) && VerdictOf(s, step).Some? && VerdictOf(s, step).value.1 == Success(c)
    ensures step == Verifies(w)
  {
    w := step.w;
  }

  lemma SuccessIsVerified(s: State, step: Step, t: Tactic, c: int, w: nat)
    requires Enabled(s, step) && VerdictOf(s, step) == Some((t, Success(c))) && step == Verifies(w)
    ensures w < |s.workers| && s.workers[w] == Verifying(t, c)
  {
  }

  /** The connections that a dial closes are those of failed handshakes and verifications, when they fail, and all
      but the first of the verified ones, when it returns. */
  lemma ClosedAreFailedOrUnused(net: Net, states: seq<State>, steps: seq<Step>, i: nat)
    requires IsDial(net, states, steps) && i < |states| && states[i].outcome.Some?
    ensures
      var s := states[i];
      && |states| == |steps| + 1
      && s.closed == ClosedOnFailure(states, steps, i)
         + (if Conns(s.collected) == [] then [] else Conns(s.collected)[1..])
      && s.events == Callbacks(states, steps, i)
  {
    hide IsDial, ClosedOnFailure, Callbacks, Gather, Sum, Conns, Errors;
    StartsEmpty(net, states, steps);
    ClosedSoFar(net, states, steps, i);
    CallbacksSoFar(states, steps, i);
    DialKeepsInv(net, states, steps, i);
  }

  /** A step of a worker that fails comes to a result that is collected later, with the step's own error; meanwhile
      the worker does nothing else. */
  lemma FailuresAreCollected(net: Net, states: seq<State>, steps: seq<Step>, j: nat, i: nat, w: nat) returns (k: nat)
    requires IsDial(net, states, steps) && j < i < |states| && states[i].outcome.Some?
    requires VerdictOf(states[j], steps[j]).Some? && WorkerOf(steps[j]) == Some(w)
    ensures |states| == |steps| + 1 && j < k < i && steps[k] == Collect(w)
    ensures forall n {:trigger steps[n]} :: j < n < k ==> WorkerOf(steps[n]) != Some(w)
    ensures states[k + 1].collected == states[k].collected + [VerdictOf(states[j], steps[j]).value]
  {
    hide Enabled, Apply, Valid, VerdictOf, WorkerOf;
    assert Enabled(states[j], steps[j]);
    VerdictPosts(states[j], steps[j], w);
    k := NextMove(net, states, steps, w, j + 1, i);
    assert Enabled(states[k], steps[k]);
    PostedIsCollected(states[k], steps[k], w);
  }

  lemma VerdictPosts(s: State, step: Step, w: nat)
    requires Enabled(s, step) && VerdictOf(s, step).Some? && WorkerOf(step) == Some(w)
    ensures w < |Apply(s, step).workers|
    ensures Posted(Apply(s, step).workers[w]) == VerdictOf(s, step)
  {
    hide Internal, Take, Offer, Closed;
  }

  lemma PostedIsCollected(s: State, step: Step, w: nat)
    requires Enabled(s, step) && WorkerOf(step) == Some(w) && w < |s.workers| && s.workers[w].Posting?
    ensures step == Collect(w)
    ensures Apply(s, step).collected == s.collected + [(s.workers[w].tactic, s.workers[w].result)]
  {
    hide Internal, Take, Offer, Closed;
  }

  /** The next step of a worker that has not joined. */
  lemma {:induction false} NextMove(net: Net, states: seq<State>, steps: seq<Step>, w: nat, j: nat, i: nat) returns (k: nat)
    requires IsDial(net, states, steps) && j <= i < |states| && states[i].outcome.Some?
    requires w < |states[j].workers| && states[j].workers[w].Posting?
    ensures |states| == |steps| + 1 && j <= k < i && WorkerOf(steps[k]) == Some(w)
    ensures w < |states[k].workers| && states[k].workers[w] == states[j].workers[w]
    ensures forall n {:trigger steps[n]} :: j <= n < k ==> WorkerOf(steps[n]) != Some(w)
    decreases i - j
  {
    hide Enabled, Apply, Valid, Inv, Flow, WorkerOf;
    if i == j {
      DialKeepsInv(net, states, steps, i);
      SixteenWorkers(states[i], Flow(net));
      AllJoined(states[i], Flow(net));
      assert false;
    } else if WorkerOf(steps[j]) == Some(w) {
      k := j;
    } else {
      CameFrom(states[j], steps[j], w);
      k := NextMove(net, states, steps, w, j + 1, i);
    }
  }

  lemma AllJoined(s: State, total: seq<Msg>)
    requires Inv(s, total) && s.outcome.Some?
    ensures forall w :: 0 <= w < |s.workers| ==> s.workers[w].Joined?
  {
    hide Gather, ConnectionsAccounted, TacticsAccounted, EventsAccounted, StreamAccounted, Valid, Closed;
    AllJoinedHoldNothing(s);
  }

  // ----- giving up

  /** The context is done exactly when the caller canceled or a connection was collected. */
  lemma ContextIsDoneExactly(net: Net, states: seq<State>, steps: seq<Step>, i: nat)
    requires IsDial(net, states, steps) && i < |states| && states[i].outcome.None?
    ensures states[i].cancelled <==> states[i].external || Conns(states[i].collected) != []
  {
    hide Gather, Sum, Conns, Errors, Enabled, Apply, Flow, Valid, Init;
    DialKeepsInv(net, states, steps, i);
  }

  /** A dial gives up waiting, and reports an interrupt, only when the context is done. */
  lemma GivesUpOnlyWhenDone(net: Net, states: seq<State>, steps: seq<Step>, j: nat)
    requires IsDial(net, states, steps) && j < |steps| && steps[j].GiveUpWaiting?
    ensures states[j].external || Conns(states[j].collected) != []
  {
    hide Gather, Sum, Conns, Errors, Apply, Flow, Valid, Init, Inv;
    assert Enabled(states[j], steps[j]);
    assert states[j].cancelled by { GivesUpWhenCancelled(states[j], steps[j]); }
    DialKeepsInv(net, states, steps, j);
    if states[j].outcome.Some? {
      NoStepAfterReturn(states[j], steps[j], Flow(net));
    }
    ContextIsDoneExactly(net, states, steps, j);
  }

  lemma GivesUpWhenCancelled(s: State, step: Step)
    requires Enabled(s, step) && step.GiveUpWaiting?
    ensures s.cancelled
  {
  }

  function PostedTactic(p: Phase): multiset<Tactic> { Bag(TacticOf(Posted(p))) }

  /** But for giving up, a result is reported together with the callback that ends the dial. */
  lemma StepEnds(s: State, step: Step)
    requires Enabled(s, step) && !step.GiveUpWaiting?
    ensures TacticOf(VerdictOf(s, step)) == EndOf(CallbackOf(s, step))
  {
    hide Internal, Take, Offer, Closed;
  }

  lemma TacticsHandOver(before: Option<(Tactic, DialResult)>, gets: Option<(Tactic, DialResult)>,
                        after: Option<(Tactic, DialResult)>, gives: Option<(Tactic, DialResult)>, t: Tactic)
    requires Handover(before, gets, after, gives)
    ensures Bag(TacticOf(before))[t] + Bag(TacticOf(gets))[t] == Bag(TacticOf(after))[t] + Bag(TacticOf(gives))[t]
  {
    HandoverBalances(TacticOf(before), TacticOf(gets), TacticOf(after), TacticOf(gives), t);
  }

  lemma WorkerReports(s: State, step: Step, w: nat, t: Tactic)
    requires Enabled(s, step) && WorkerOf(step) == Some(w)
    ensures
      var m := WorkerMove(s.workers[w], step, s);
      Gather(s.workers[w := m.phase], PostedTactic)[t] + Bag(TacticOf(m.report))[t]
      == Gather(s.workers, PostedTactic)[t] + Bag(TacticOf(VerdictOf(s, step)))[t]
  {
    WorkerPosts(s, step, w);
    hide Gather, Enabled, VerdictOf, WorkerMove, WorkerEnabled, Posted, Bag, TacticOf, Handover;
    var m := WorkerMove(s.workers[w], step, s);
    GatherUpdate(s.workers, PostedTactic, w, m.phase);
    TacticsHandOver(Posted(s.workers[w]), VerdictOf(s, step), Posted(m.phase), m.report, t);
    assert (Gather(s.workers[w := m.phase], PostedTactic) + PostedTactic(s.workers[w]))[t]
           == (Gather(s.workers, PostedTactic) + PostedTactic(m.phase))[t];
  }

  lemma StepReports(s: State, step: Step)
    requires Enabled(s, step)
    ensures
      Gather(Apply(s, step).workers, PostedTactic) + Reported(Apply(s, step).collected)
      == Gather(s.workers, PostedTactic) + Reported(s.collected) + Bag(TacticOf(VerdictOf(s, step)))
  {
    StepOfCollector(s, step);
    if WorkerOf(step).Some? {
      var w := WorkerOf(step).value;
      hide Gather, Enabled, Apply, VerdictOf, WorkerMove, WorkerEnabled, PostedTactic, Bag, Reported, TacticOf;
      var m := WorkerMove(s.workers[w], step, s);
      var verdict := VerdictOf(s, step);
      CollectedConcat(s.collected, m.report);
      var before, after := Gather(s.workers, PostedTactic), Gather(Apply(s, step).workers, PostedTactic);
      forall t: Tactic {:trigger before[t]}
        ensures after[t] + (Reported(s.collected)[t] + Bag(TacticOf(m.report))[t])
                == before[t] + Reported(s.collected)[t] + Bag(TacticOf(verdict))[t]
      {
        WorkerReports(s, step, w, t);
      }
      SumsAgree(before, Reported(s.collected), Bag(TacticOf(verdict)), after, Reported(s.collected), Bag(TacticOf(m.report)));
    } else {
      hide Gather, Enabled, Apply;
      NoWorkerStep(s, step);
    }
  }

  lemma EndsStep(s: State, step: Step)
    requires Enabled(s, step) && !step.GiveUpWaiting?
    requires Gather(s.workers, PostedTactic) + Reported(s.collected) == Ends(s.events)
    ensures Gather(Apply(s, step).workers, PostedTactic) + Reported(Apply(s, step).collected) == Ends(Apply(s, step).events)
  {
    hide Gather, Enabled, Apply, VerdictOf, CallbackOf, PostedTactic, Ends, Reported, Bag, TacticOf, EndOf;
    StepReports(s, step);
    StepCalls(s, step);
    StepEnds(s, step);
    EventsConcat(s.events, CallbackOf(s, step));
  }

  lemma {:induction false} EndsSoFar(states: seq<State>, steps: seq<Step>, i: nat)
    requires HttpsDialer.IsRun(states, steps) && i <= |steps| && states[0].collected == [] && states[0].events == []
    requires Gather(states[0].workers, PostedTactic) == multiset{}
    requires forall j {:trigger steps[j]} :: 0 <= j < i ==> !steps[j].GiveUpWaiting?
    ensures Gather(states[i].workers, PostedTactic) + Reported(states[i].collected) == Ends(states[i].events)
    decreases i
  {
    if i > 0 {
      hide Gather, Enabled, Apply, PostedTactic, Ends, Reported;
      EndsSoFar(states, steps, i - 1);
      var step := steps[i - 1];
      EndsStep(states[i - 1], step);
    } else {
      hide Gather, Enabled, Apply;
    }
  }

  lemma NothingPostedTactic(net: Net)
    ensures Gather(Init(net).workers, PostedTactic) == multiset{}
  {
    hide Gather;
    GatherNothing(Init(net).workers, PostedTactic);
  }

  lemma AllReported(s: State, total: seq<Msg>)
    requires Inv(s, total) && s.outcome.Some?
    ensures Gather(s.workers, PostedTactic) == multiset{}
  {
    hide Gather, ConnectionsAccounted, TacticsAccounted, EventsAccounted, StreamAccounted, Valid, Closed;
    AllJoinedHoldNothing(s);
    GatherNothing(s.workers, PostedTactic);
  }

  /** Unless the caller cancels, a dial without a connection has announced every tactic that it took and seen it fail:
      none was given up. */
  lemma FailureMeansEverythingWasDialed(net: Net, states: seq<State>, steps: seq<Step>, i: nat)
    requires IsDial(net, states, steps) && i < |states| && states[i].outcome.Some?
    requires !states[i].external && !states[i].outcome.value.Returned?
    ensures Starts(states[i].events) == multiset(states[i].emitted)
  {
    hide Gather, Enabled, Apply, Inv, Starts, Ends, Reported, Valid, Flow, Conns, Errors, PostedTactic;
    forall j {:trigger steps[j]} | 0 <= j < i
      ensures !steps[j].GiveUpWaiting?
    {
      if steps[j].GiveUpWaiting? {
        GivesUpOnlyWhenDone(net, states, steps, j);
        OnlyGrows(net, states, steps, j, i);
        NoConnections(net, states, steps, i);
        assert false;
      }
    }
    NothingPostedTactic(net);
    InitClosed(net);
    EndsSoFar(states, steps, i);
    DialKeepsInv(net, states, steps, i);
    AllReported(states[i], Flow(net));
    EveryTacticIsReportedOnce(net, states, steps, i);
  }

  lemma NoConnections(net: Net, states: seq<State>, steps: seq<Step>, i: nat)
    requires IsDial(net, states, steps) && i < |states| && states[i].outcome.Some? && !states[i].outcome.value.Returned?
    ensures Conns(states[i].collected) == []
  {
    hide Gather, Sum, Conns, Errors, Enabled, Apply, Flow, Valid, Init;
    DialKeepsInv(net, states, steps, i);
  }

  lemma {:induction false} OnlyGrows(net: Net, states: seq<State>, steps: seq<Step>, j: nat, i: nat)
    requires IsDial(net, states, steps) && j <= i < |states|
    ensures states[j].external ==> states[i].external
    ensures Conns(states[j].collected) <= Conns(states[i].collected)
    decreases i
  {
    hide Enabled, Apply, Conns, Valid, Init;
    if j < i {
      OnlyGrows(net, states, steps, j, i - 1);
      var step := steps[i - 1];
      StepGrows(states[i - 1], step);
    }
  }

  lemma StepGrows(s: State, step: Step)
    requires Enabled(s, step)
    ensures s.external ==> Apply(s, step).external
    ensures Conns(s.collected) <= Conns(Apply(s, step).collected)
  {
    assert s.external ==> Apply(s, step).external by { hide Internal, Take, Offer, Closed, WorkerMove, WorkerEnabled; }
    StepOfCollector(s, step);
    hide *;
    if WorkerOf(step).Some? {
      CollectedConcat(s.collected, WorkerMove(s.workers[WorkerOf(step).value], step, s).report);
    }
  }
}
