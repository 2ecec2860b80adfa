/** DialTLSContext as a protocol (pkg/enginenetx/httpsdialer.go): the goroutines that emit tactics,
    sixteen workers that dial, and the parent that collects results and joins the workers. Channels
    are unbuffered, so a send and its reception are one step. Every step of every goroutine may
    interleave with those of the others. */
module HttpsDialer {
  import opened Optional
  import opened Tactics
  import opened Network
  import opened TacticNet

  const PARALLELISM: nat := 16

  datatype DialResult = Failure(error: string) | Success(conn: int)

  /** What a worker is doing. A worker that posts or joins is blocked until the parent receives. */
  datatype Phase =
    | Idle
    | Waiting(tactic: Tactic)
    | Connecting(tactic: Tactic)
    | Handshaking(tactic: Tactic, conn: int)
    | Verifying(tactic: Tactic, conn: int)
    | Posting(tactic: Tactic, result: DialResult)
    | Joining
    | Joined

  /** The callbacks of httpsDialerEventsHandler. `interrupted` is whether ctx.Err() was set. */
  datatype Event =
    | OnStarting(tactic: Tactic)
    | OnTCPConnectError(tactic: Tactic, interrupted: bool)
    | OnTLSHandshakeError(tactic: Tactic, interrupted: bool)
    | OnTLSVerifyError(tactic: Tactic)
    | OnSuccess(tactic: Tactic)

  datatype Outcome = Returned(conn: int) | JoinedErrors(errors: seq<string>) | DnsNoAnswer

  /** Connections are numbered in the order in which they are opened. `collected`, `closed`,
      `emitted` and `events` record what happened, in order. */
  datatype State = State(
    net: Net,
    cancelled: bool,
    external: bool,
    workers: seq<Phase>,
    connv: seq<int>,
    errorv: seq<string>,
    numJoined: nat,
    nextConn: nat,
    closed: seq<int>,
    emitted: seq<Tactic>,
    collected: seq<(Tactic, DialResult)>,
    events: seq<Event>,
    outcome: Option<Outcome>)

  datatype Step =
    | NetStep(net: Net)
    | ExternalCancel
    | TakeTactic(w: nat)
    | Exit(w: nat)
    | Ready(w: nat)
    | GiveUpWaiting(w: nat, error: string)
    | TcpFails(w: nat, error: string)
    | TcpConnects(w: nat)
    | HandshakeFails(w: nat, error: string)
    | Handshakes(w: nat)
    | VerifyFails(w: nat, error: string)
    | Verifies(w: nat)
    | Collect(w: nat)
    | Join(w: nat)
    | Return

  // ----- httpsDialerReduceResult

  function Reduce(connv: seq<int>, errorv: seq<string>): Outcome {
    if connv != [] then Returned(connv[0])
    else if errorv != [] then JoinedErrors(errorv)
    else DnsNoAnswer
  }

  /** Keeps the first connection and closes the others. */
  method HttpsDialerReduceResult(connv: seq<int>, errorv: seq<string>) returns (outcome: Outcome, closed: seq<int>)
    ensures outcome == Reduce(connv, errorv)
    ensures connv != [] ==> connv == [outcome.conn] + closed
    ensures connv == [] ==> closed == []
  {
    closed := [];
    if |connv| >= 1 {
      var i := 1;
      while i < |connv|
        invariant 1 <= i <= |connv|
        invariant closed == connv[1..i]
      {
        closed := closed + [connv[i]];
        i := i + 1;
      }
      return Returned(connv[0]), closed;
    }
    if |errorv| >= 1 {
      return JoinedErrors(errorv), closed;
    }
    return DnsNoAnswer, closed;
  }

  // ----- the steps

  function Init(net: Net): State {
    State(net, false, false, seq(PARALLELISM, _ => Idle), [], [], 0, 0, [], [], [], [], None)
  }

  /** The worker that takes a step, unless it is one of the policy goroutines, the parent alone
      or the outside world. */
  function WorkerOf(step: Step): Option<nat> {
    match step
    case NetStep(_) => None
    case ExternalCancel => None
    case Return => None
    case TakeTactic(w) => Some(w)
    case Exit(w) => Some(w)
    case Ready(w) => Some(w)
    case GiveUpWaiting(w, _) => Some(w)
    case TcpFails(w, _) => Some(w)
    case TcpConnects(w) => Some(w)
    case HandshakeFails(w, _) => Some(w)
    case Handshakes(w) => Some(w)
    case VerifyFails(w, _) => Some(w)
    case Verifies(w) => Some(w)
    case Collect(w) => Some(w)
    case Join(w) => Some(w)
  }

  /** Whether a worker in phase `p` can take the step. */
  predicate WorkerEnabled(p: Phase, step: Step, s: State) {
    match step
    case TakeTactic(_) => p.Idle? && Offer(s.net) != [] && Offer(s.net)[0].Some?
    case Exit(_) => p.Idle? && Closed(s.net)
    case Ready(_) => p.Waiting?
    case GiveUpWaiting(_, _) => p.Waiting? && s.cancelled
    case TcpFails(_, _) => p.Connecting?
    case TcpConnects(_) => p.Connecting?
    case HandshakeFails(_, _) => p.Handshaking?
    case Handshakes(_) => p.Handshaking?
    case VerifyFails(_, _) => p.Verifying?
    case Verifies(_) => p.Verifying?
    case Collect(_) => p.Posting? && s.numJoined < PARALLELISM
    case Join(_) => p.Joining? && s.numJoined < PARALLELISM
    case _ => false
  }

  ghost predicate Enabled(s: State, step: Step) {
    match step
    case NetStep(net) => Internal(s.net, net, s.cancelled)
    case ExternalCancel => !s.external && s.outcome.None?
    case Return => s.numJoined >= PARALLELISM && s.outcome.None?
    case _ =>
      var w := WorkerOf(step).value;
      w < |s.workers| && WorkerEnabled(s.workers[w], step, s)
  }

  /** What a worker's step does: its next phase, the tactic it takes, the connection it opens or
      closes, the callback it makes, the result it delivers and whether it joins. */
  datatype Move = Move(
    phase: Phase,
    takes: Option<Tactic>,
    opens: Option<int>,
    closes: Option<int>,
    event: Option<Event>,
    report: Option<(Tactic, DialResult)>,
    joins: nat)

  function Silent(phase: Phase): Move {
    Move(phase, None, None, None, None, None, 0)
  }

  function WorkerMove(p: Phase, step: Step, s: State): Move
    requires WorkerEnabled(p, step, s)
  {
    match step
    case TakeTactic(_) =>
      var tactic := Offer(s.net)[0].value;
      Silent(Waiting(tactic)).(takes := Some(tactic))
    case Exit(_) => Silent(Joining)
    case Ready(_) => Silent(Connecting(p.tactic)).(event := Some(OnStarting(p.tactic)))
    case GiveUpWaiting(_, error) => Silent(Posting(p.tactic, Failure(error)))
    case TcpFails(_, error) =>
      Silent(Posting(p.tactic, Failure(error))).(event := Some(OnTCPConnectError(p.tactic, s.cancelled)))
    case TcpConnects(_) => Silent(Handshaking(p.tactic, s.nextConn)).(opens := Some(s.nextConn))
    case HandshakeFails(_, error) =>
      Silent(Posting(p.tactic, Failure(error))).(
        event := Some(OnTLSHandshakeError(p.tactic, s.cancelled)), closes := Some(p.conn))
    case Handshakes(_) => Silent(Verifying(p.tactic, p.conn))
    case VerifyFails(_, error) =>
      Silent(Posting(p.tactic, Failure(error))).(event := Some(OnTLSVerifyError(p.tactic)), closes := Some(p.conn))
    case Verifies(_) => Silent(Posting(p.tactic, Success(p.conn))).(event := Some(OnSuccess(p.tactic)))
    case Collect(_) => Silent(Idle).(report := Some((p.tactic, p.result)))
    case Join(_) => Silent(Joined).(joins := 1)
  }

  /** A sequence of at most one element. */
  function List<T>(x: Option<T>): seq<T> {
    match x case None => [] case Some(v) => [v]
  }

  function ConnOf(report: Option<(Tactic, DialResult)>): Option<int> {
    if report.None? then None else ConnIn(report.value.1)
  }

  function ErrorOf(report: Option<(Tactic, DialResult)>): Option<string> {
    if report.Some? && report.value.1.Failure? then Some(report.value.1.error) else None
  }

  /** The state after a worker's move. The parent records the errors and connections it receives,
      and cancels the context at every connection. */
  function Moved(s: State, w: nat, net: Net, m: Move): State
    requires w < |s.workers|
  {
    s.(net := net,
       workers := s.workers[w := m.phase],
       emitted := s.emitted + List(m.takes),
       nextConn := s.nextConn + |List(m.opens)|,
       closed := s.closed + List(m.closes),
       events := s.events + List(m.event),
       collected := s.collected + List(m.report),
       connv := s.connv + List(ConnOf(m.report)),
       errorv := s.errorv + List(ErrorOf(m.report)),
       cancelled := s.cancelled || ConnOf(m.report).Some?,
       numJoined := s.numJoined + m.joins)
  }

  function Apply(s: State, step: Step): State
    requires Enabled(s, step)
  {
    match step
    case NetStep(net) => s.(net := net)
    case ExternalCancel => s.(cancelled := true, external := true)
    case Return =>
      s.(outcome := Some(Reduce(s.connv, s.errorv)),
         closed := s.closed + (if s.connv == [] then [] else s.connv[1..]),
         cancelled := true)
    case TakeTactic(w) => Moved(s, w, Take(s.net), WorkerMove(s.workers[w], step, s))
    case _ =>
      var w := WorkerOf(step).value;
      Moved(s, w, s.net, WorkerMove(s.workers[w], step, s))
  }

  /** The callback that a step of a dial makes. */
  ghost function EventOf(s: State, step: Step): Option<Event>
    requires Enabled(s, step)
  {
    match WorkerOf(step)
    case None => None
    case Some(w) => WorkerMove(s.workers[w], step, s).event
  }

  /** A step changes at most one worker, and logs its callback. */
  lemma StepOfWorker(s: State, step: Step)
    requires Enabled(s, step)
    ensures Apply(s, step).events == s.events + List(EventOf(s, step))
    ensures WorkerOf(step).None? ==> Apply(s, step).workers == s.workers && EventOf(s, step).None?
    ensures WorkerOf(step).Some? ==>
              var w := WorkerOf(step).value;
              && w < |s.workers| && WorkerEnabled(s.workers[w], step, s)
              && Apply(s, step).workers == s.workers[w := WorkerMove(s.workers[w], step, s).phase]
              && EventOf(s, step) == WorkerMove(s.workers[w], step, s).event
  {
    hide Internal, Take, Offer, WorkerMove;
    if EventOf(s, step).None? {
      assert s.events + [] == s.events;
    }
  }

  // ----- counting over the workers

  function Gather<T>(ws: seq<Phase>, f: Phase -> multiset<T>): multiset<T> {
    if ws == [] then multiset{} else Gather(ws[..|ws| - 1], f) + f(ws[|ws| - 1])
  }

  function Sum(ws: seq<Phase>, f: Phase -> nat): nat {
    if ws == [] then 0 else Sum(ws[..|ws| - 1], f) + f(ws[|ws| - 1])
  }

  lemma {:induction false} GatherUpdate<T>(ws: seq<Phase>, f: Phase -> multiset<T>, w: nat, p: Phase)
    requires w < |ws|
    ensures Gather(ws[w := p], f) + f(ws[w]) == Gather(ws, f) + f(p)
  {
    var n := |ws| - 1;
    if w < n {
      GatherUpdate(ws[..n], f, w, p);
      assert ws[w := p][..n] == ws[..n][w := p];
      var before, after, last := Gather(ws[..n], f), Gather(ws[..n][w := p], f), f(ws[n]);
      assert (after + last) + f(ws[w]) == (after + f(ws[w])) + last;
      assert (before + last) + f(p) == (before + f(p)) + last;
    } else {
      assert ws[w := p][..n] == ws[..n];
    }
  }

  lemma {:induction false} SumUpdate(ws: seq<Phase>, f: Phase -> nat, w: nat, p: Phase)
    requires w < |ws|
    ensures Sum(ws[w := p], f) + f(ws[w]) == Sum(ws, f) + f(p)
  {
    var n := |ws| - 1;
    if w < n {
      SumUpdate(ws[..n], f, w, p);
      assert ws[w := p][..n] == ws[..n][w := p];
    } else {
      assert ws[w := p][..n] == ws[..n];
    }
  }

  lemma {:induction false} GatherNothing<T>(ws: seq<Phase>, f: Phase -> multiset<T>)
    requires forall i :: 0 <= i < |ws| ==> f(ws[i]) == multiset{}
    ensures Gather(ws, f) == multiset{}
  {
    if ws != [] {
      GatherNothing(ws[..|ws| - 1], f);
    }
  }

  lemma {:induction false} SumOfFlags(ws: seq<Phase>, f: Phase -> nat)
    requires forall i {:trigger ws[i]} :: 0 <= i < |ws| ==> f(ws[i]) <= 1
    ensures Sum(ws, f) <= |ws|
    ensures Sum(ws, f) == |ws| ==> forall i {:trigger ws[i]} :: 0 <= i < |ws| ==> f(ws[i]) == 1
    ensures Sum(ws, f) < |ws| ==> exists i :: 0 <= i < |ws| && f(ws[i]) == 0
  {
    if ws != [] {
      var n := |ws| - 1;
      SumOfFlags(ws[..n], f);
      if Sum(ws[..n], f) < n {
        var i :| 0 <= i < n && f(ws[..n][i]) == 0;
        assert f(ws[i]) == 0;
      } else if f(ws[n]) == 0 {
        assert f(ws[n]) == 0;
      }
    }
  }

  function ConnIn(result: DialResult): Option<int> {
    if result.Success? then Some(result.conn) else None
  }

  /** The connection a worker is responsible for. */
  function ConnHeld(p: Phase): Option<int> {
    match p
    case Handshaking(_, conn) => Some(conn)
    case Verifying(_, conn) => Some(conn)
    case Posting(_, result) => ConnIn(result)
    case _ => None
  }

  /** The tactic a worker has received and not reported on yet. */
  function TacticHeld(p: Phase): Option<Tactic> {
    match p
    case Waiting(t) => Some(t)
    case Connecting(t) => Some(t)
    case Handshaking(t, _) => Some(t)
    case Verifying(t, _) => Some(t)
    case Posting(t, _) => Some(t)
    case _ => None
  }

  /** The tactic whose dialing was announced by OnStarting and has not ended yet. */
  function TacticInFlight(p: Phase): Option<Tactic> {
    match p
    case Connecting(t) => Some(t)
    case Handshaking(t, _) => Some(t)
    case Verifying(t, _) => Some(t)
    case _ => None
  }

  function Bag<T>(x: Option<T>): multiset<T> {
    match x case None => multiset{} case Some(v) => multiset{v}
  }

  function HeldConn(p: Phase): multiset<int> { Bag(ConnHeld(p)) }

  function HeldTactic(p: Phase): multiset<Tactic> { Bag(TacticHeld(p)) }

  function InFlight(p: Phase): multiset<Tactic> { Bag(TacticInFlight(p)) }

  function HasJoined(p: Phase): nat { if p.Joined? then 1 else 0 }

  /** How many steps a worker is away from having joined. */
  function Distance(p: Phase): nat {
    match p
    case Joined => 0
    case Joining => 1
    case Idle => 2
    case Posting(_, _) => 3
    case Verifying(_, _) => 4
    case Handshaking(_, _) => 5
    case Connecting(_) => 6
    case Waiting(_) => 7
  }

  // ----- reading the records

  /** All connections opened so far. */
  function Ids(n: nat): multiset<int> {
    if n == 0 then multiset{} else Ids(n - 1) + multiset{n - 1}
  }

  function Conns(collected: seq<(Tactic, DialResult)>): seq<int> {
    if collected == [] then []
    else
      var n := |collected| - 1;
      Conns(collected[..n]) + (if collected[n].1.Success? then [collected[n].1.conn] else [])
  }

  function Errors(collected: seq<(Tactic, DialResult)>): seq<string> {
    if collected == [] then []
    else
      var n := |collected| - 1;
      Errors(collected[..n]) + (if collected[n].1.Failure? then [collected[n].1.error] else [])
  }

  /** The tactics that results were collected for. */
  function Reported(collected: seq<(Tactic, DialResult)>): multiset<Tactic> {
    if collected == [] then multiset{}
    else Reported(collected[..|collected| - 1]) + multiset{collected[|collected| - 1].0}
  }

  function Starts(events: seq<Event>): multiset<Tactic> {
    if events == [] then multiset{}
    else
      var last := events[|events| - 1];
      Starts(events[..|events| - 1]) + (if last.OnStarting? then multiset{last.tactic} else multiset{})
  }

  function Ends(events: seq<Event>): multiset<Tactic> {
    if events == [] then multiset{}
    else
      var last := events[|events| - 1];
      Ends(events[..|events| - 1]) + (if last.OnStarting? then multiset{} else multiset{last.tactic})
  }

  lemma BagList<T>(s: seq<T>, x: Option<T>)
    ensures multiset(s + List(x)) == multiset(s) + Bag(x)
  {
    if x.None? {
      assert s + List(x) == s;
    }
  }

  function TacticOf(report: Option<(Tactic, DialResult)>): Option<Tactic> {
    if report.None? then None else Some(report.value.0)
  }

  function StartOf(event: Option<Event>): Option<Tactic> {
    if event.Some? && event.value.OnStarting? then Some(event.value.tactic) else None
  }

  function EndOf(event: Option<Event>): Option<Tactic> {
    if event.Some? && !event.value.OnStarting? then Some(event.value.tactic) else None
  }

  lemma CollectedConcat(c: seq<(Tactic, DialResult)>, d: Option<(Tactic, DialResult)>)
    ensures Conns(c + List(d)) == Conns(c) + List(ConnOf(d))
    ensures Errors(c + List(d)) == Errors(c) + List(ErrorOf(d))
    ensures Reported(c + List(d)) == Reported(c) + Bag(TacticOf(d))
  {
    if d.None? {
      assert c + List(d) == c;
    } else {
      assert (c + List(d))[..|c|] == c;
    }
  }

  lemma EventsConcat(c: seq<Event>, d: Option<Event>)
    ensures Starts(c + List(d)) == Starts(c) + Bag(StartOf(d))
    ensures Ends(c + List(d)) == Ends(c) + Bag(EndOf(d))
  {
    if d.None? {
      assert c + List(d) == c;
    } else {
      assert (c + List(d))[..|c|] == c;
    }
  }

  // ----- what holds in every reachable state

  /** The connections in the parent's hands: all collected ones, and after the reduction only the
      one that is returned. */
  function ParentHolds(s: State): multiset<int> {
    if s.outcome.None? then multiset(s.connv)
    else if s.connv == [] then multiset{}
    else multiset{s.connv[0]}
  }

  /** Every opened connection is in exactly one place: with one worker, with the parent, or closed. */
  ghost predicate ConnectionsAccounted(s: State) {
    Ids(s.nextConn) == Gather(s.workers, HeldConn) + ParentHolds(s) + multiset(s.closed)
  }

  /** Every emitted tactic is with one worker or was reported on once. */
  ghost predicate TacticsAccounted(s: State) {
    multiset(s.emitted) == Gather(s.workers, HeldTactic) + Reported(s.collected)
  }

  /** Every announced dial is in flight with one worker or has ended with one event. */
  ghost predicate EventsAccounted(s: State) {
    Starts(s.events) == Gather(s.workers, InFlight) + Ends(s.events)
  }

  /** What the parent knows and does. */
  ghost predicate ParentConsistent(s: State) {
    && s.connv == Conns(s.collected)
    && s.errorv == Errors(s.collected)
    && s.numJoined == Sum(s.workers, HasJoined)
    && (s.connv != [] || s.external ==> s.cancelled)
    && (s.outcome.Some? ==> s.numJoined == PARALLELISM && s.outcome.value == Reduce(s.connv, s.errorv))
  }

  ghost predicate WorkersConsistent(s: State) {
    && |s.workers| == PARALLELISM
    && s.net.Filter? && Valid(s.net)
    && forall i {:trigger s.workers[i]} :: 0 <= i < PARALLELISM ==>
         (s.workers[i].Joining? || s.workers[i].Joined? ==> Closed(s.net))
  }

  /** While the dialing was not canceled, the workers have received a prefix of the stream `total`,
      and an empty stream gives no tactic at all. */
  ghost predicate StreamAccounted(s: State, total: seq<Msg>)
    requires Valid(s.net)
  {
    && (!s.external && s.connv == [] ==>
          && (s.outcome.None? ==> !s.cancelled)
          && Pointers(s.emitted) + Flow(s.net) == total)
    && (!s.external && total == [] ==> s.emitted == [])
  }

  ghost predicate Inv(s: State, total: seq<Msg>) {
    && WorkersConsistent(s)
    && ParentConsistent(s)
    && ConnectionsAccounted(s)
    && TacticsAccounted(s)
    && EventsAccounted(s)
    && StreamAccounted(s, total)
  }

  lemma {:induction false} InitHolds(net: Net)
    requires net.Filter? && Valid(net)
    ensures Inv(Init(net), Flow(net))
  {
    hide Gather, Sum, Flow, Valid, Closed;
    var s := Init(net);
    InitAccounts(net);
    assert Pointers(s.emitted) + Flow(net) == Flow(net);
  }

  lemma InitAccounts(net: Net)
    ensures
      var s := Init(net);
      ConnectionsAccounted(s) && TacticsAccounted(s) && EventsAccounted(s) && Sum(s.workers, HasJoined) == 0
  {
    var s := Init(net);
    hide Gather, Sum;
    GatherNothing(s.workers, HeldConn);
    GatherNothing(s.workers, HeldTactic);
    GatherNothing(s.workers, InFlight);
    SumNothing(s.workers, HasJoined);
  }

  lemma {:induction false} SumNothing(ws: seq<Phase>, f: Phase -> nat)
    requires forall i :: 0 <= i < |ws| ==> f(ws[i]) == 0
    ensures Sum(ws, f) == 0
  {
    if ws != [] {
      SumNothing(ws[..|ws| - 1], f);
    }
  }

  // ----- one worker's move is balanced

  /** Whoever gets something holds it afterwards, whoever gives something held it before, and
      otherwise nothing changes hands. */
  predicate Handover<T(==)>(before: Option<T>, gets: Option<T>, after: Option<T>, gives: Option<T>) {
    || (gets == None && gives == None && before == after)
    || (gets.Some? && gives == None && before == None && after == gets)
    || (gets == None && gives.Some? && before == gives && after == None)
  }

  function Either<T>(x: Option<T>, y: Option<T>): Option<T> {
    if x.Some? then x else y
  }

  /** A worker opens, closes or delivers connections, takes and reports on tactics, starts and ends
      dials: one at a time and only what is its own. */
  lemma MovesHandOver(p: Phase, step: Step, s: State)
    requires WorkerEnabled(p, step, s)
    ensures
      var m := WorkerMove(p, step, s);
      && (m.closes == None || ConnOf(m.report) == None)
      && m.opens in {None, Some(s.nextConn)}
      && Handover(ConnHeld(p), m.opens, ConnHeld(m.phase), Either(m.closes, ConnOf(m.report)))
      && Handover(TacticHeld(p), m.takes, TacticHeld(m.phase), TacticOf(m.report))
      && Handover(TacticInFlight(p), StartOf(m.event), TacticInFlight(m.phase), EndOf(m.event))
  {
    hide Offer, Closed;
  }

  lemma HandoverBalances<T>(before: Option<T>, gets: Option<T>, after: Option<T>, gives: Option<T>, e: T)
    requires Handover(before, gets, after, gives)
    ensures Bag(before)[e] + Bag(gets)[e] == Bag(after)[e] + Bag(gives)[e]
  {
  }

  lemma MoveIsSmall(p: Phase, step: Step, s: State)
    requires WorkerEnabled(p, step, s)
    ensures
      var m := WorkerMove(p, step, s);
      && HasJoined(p) + m.joins == HasJoined(m.phase) && m.joins <= 1
      && (if step.TakeTactic? then Distance(m.phase) == Distance(p) + 5 else Distance(m.phase) < Distance(p))
  {
  }

  // ----- every step keeps the invariant, one part at a time

  lemma StepGather<T>(s: State, w: nat, m: Move, net: Net, f: Phase -> multiset<T>, e: T)
    requires w < |s.workers|
    ensures Gather(Moved(s, w, net, m).workers, f)[e] + f(s.workers[w])[e] == Gather(s.workers, f)[e] + f(m.phase)[e]
  {
    GatherUpdate(s.workers, f, w, m.phase);
    assert (Gather(s.workers[w := m.phase], f) + f(s.workers[w]))[e] == (Gather(s.workers, f) + f(m.phase))[e];
  }

  lemma MovedConnectionAt(s: State, step: Step, w: nat, net: Net, c: int)
    requires ConnectionsAccounted(s) && s.outcome.None?
    requires w < |s.workers| && WorkerEnabled(s.workers[w], step, s)
    ensures
      var m := WorkerMove(s.workers[w], step, s);
      Ids(s.nextConn)[c] + Bag(m.opens)[c]
      == Gather(Moved(s, w, net, m).workers, HeldConn)[c]
         + (multiset(s.connv)[c] + Bag(ConnOf(m.report))[c]) + (multiset(s.closed)[c] + Bag(m.closes)[c])
  {
    hide Gather, ConnHeld, WorkerMove, WorkerEnabled, Ids, Handover, Bag, Moved, Either;
    var m := WorkerMove(s.workers[w], step, s);
    var gives := Either(m.closes, ConnOf(m.report));
    MovesHandOver(s.workers[w], step, s);
    StepGather(s, w, m, net, HeldConn, c);
    HandoverBalances(ConnHeld(s.workers[w]), m.opens, ConnHeld(m.phase), gives, c);
    BagEither(m.closes, ConnOf(m.report), c);
    ConnectionAt(s, c);
  }

  lemma ConnectionAt(s: State, c: int)
    requires ConnectionsAccounted(s) && s.outcome.None?
    ensures Ids(s.nextConn)[c] == Gather(s.workers, HeldConn)[c] + multiset(s.connv)[c] + multiset(s.closed)[c]
  {
    hide Gather, Ids;
    assert Ids(s.nextConn)[c] == (Gather(s.workers, HeldConn) + ParentHolds(s) + multiset(s.closed))[c];
  }

  /** The bags of a state after a move. */
  lemma MovedBags(s: State, w: nat, net: Net, m: Move)
    requires w < |s.workers| && m.opens in {None, Some(s.nextConn)} && s.outcome.None?
    ensures
      var s' := Moved(s, w, net, m);
      && Ids(s'.nextConn) == Ids(s.nextConn) + Bag(m.opens)
      && ParentHolds(s') == multiset(s.connv) + Bag(ConnOf(m.report))
      && multiset(s'.closed) == multiset(s.closed) + Bag(m.closes)
  {
    hide Ids, Bag, ConnOf, List, ParentHolds;
    var s' := Moved(s, w, net, m);
    assert s'.nextConn == s.nextConn + |List(m.opens)| && s'.closed == s.closed + List(m.closes);
    assert s'.connv == s.connv + List(ConnOf(m.report)) && s'.outcome == s.outcome;
    hide Moved;
    HoldsCollected(s');
    BagList(s.connv, ConnOf(m.report));
    BagList(s.closed, m.closes);
    IdsStep(s.nextConn, m.opens);
  }

  lemma HoldsCollected(s: State)
    requires s.outcome.None?
    ensures ParentHolds(s) == multiset(s.connv)
  {
  }

  lemma MovedConnections(s: State, step: Step, w: nat, net: Net)
    requires ConnectionsAccounted(s) && s.outcome.None?
    requires w < |s.workers| && WorkerEnabled(s.workers[w], step, s)
    ensures ConnectionsAccounted(Moved(s, w, net, WorkerMove(s.workers[w], step, s)))
  {
    var m := WorkerMove(s.workers[w], step, s);
    assert m.opens in {None, Some(s.nextConn)} by { MovesHandOver(s.workers[w], step, s); }
    hide Gather, WorkerMove, WorkerEnabled, Ids, Bag, Moved, ParentHolds, ConnOf;
    var s' := Moved(s, w, net, m);
    MovedBags(s, w, net, m);
    var held := Gather(s'.workers, HeldConn);
    forall c: int {:trigger Ids(s.nextConn)[c]}
      ensures Ids(s.nextConn)[c] + Bag(m.opens)[c]
              == held[c] + (multiset(s.connv)[c] + Bag(ConnOf(m.report))[c]) + (multiset(s.closed)[c] + Bag(m.closes)[c])
    {
      MovedConnectionAt(s, step, w, net, c);
    }
    SumsAgree(Ids(s.nextConn), Bag(m.opens), held, multiset(s.connv), Bag(ConnOf(m.report)), multiset(s.closed), Bag(m.closes));
  }

  /** Bags with equal counts are equal. */
  lemma SumsAgree<T>(ids: multiset<T>, gained: multiset<T>, held: multiset<T>, conns: multiset<T>, delivered: multiset<T>,
                     closed: multiset<T>, more: multiset<T>)
    requires forall c {:trigger ids[c]} :: ids[c] + gained[c] == held[c] + (conns[c] + delivered[c]) + (closed[c] + more[c])
    ensures ids + gained == held + (conns + delivered) + (closed + more)
  {
  }

  lemma BagEither<T>(x: Option<T>, y: Option<T>, e: T)
    requires x == None || y == None
    ensures Bag(Either(x, y))[e] == Bag(x)[e] + Bag(y)[e]
  {
  }

  lemma IdsStep(n: nat, opens: Option<int>)
    requires opens in {None, Some(n)}
    ensures Ids(n + |List(opens)|) == Ids(n) + Bag(opens)
  {
  }

  lemma MovedTactics(s: State, step: Step, w: nat, net: Net)
    requires TacticsAccounted(s)
    requires w < |s.workers| && WorkerEnabled(s.workers[w], step, s)
    ensures TacticsAccounted(Moved(s, w, net, WorkerMove(s.workers[w], step, s)))
  {
    hide Gather, TacticHeld, WorkerMove, WorkerEnabled, Reported, Handover, Bag;
    var m := WorkerMove(s.workers[w], step, s);
    var s' := Moved(s, w, net, m);
    MovesHandOver(s.workers[w], step, s);
    BagList(s.emitted, m.takes);
    CollectedConcat(s.collected, m.report);
    forall t: Tactic
      ensures multiset(s'.emitted)[t] == (Gather(s'.workers, HeldTactic) + Reported(s'.collected))[t]
    {
      StepGather(s, w, m, net, HeldTactic, t);
      HandoverBalances(TacticHeld(s.workers[w]), m.takes, TacticHeld(m.phase), TacticOf(m.report), t);
    }
  }

  lemma MovedEvents(s: State, step: Step, w: nat, net: Net)
    requires EventsAccounted(s)
    requires w < |s.workers| && WorkerEnabled(s.workers[w], step, s)
    ensures EventsAccounted(Moved(s, w, net, WorkerMove(s.workers[w], step, s)))
  {
    hide Gather, TacticInFlight, WorkerMove, WorkerEnabled, Starts, Ends, Handover, Bag;
    var m := WorkerMove(s.workers[w], step, s);
    var s' := Moved(s, w, net, m);
    MovesHandOver(s.workers[w], step, s);
    EventsConcat(s.events, m.event);
    forall t: Tactic
      ensures Starts(s'.events)[t] == (Gather(s'.workers, InFlight) + Ends(s'.events))[t]
    {
      StepGather(s, w, m, net, InFlight, t);
      HandoverBalances(TacticInFlight(s.workers[w]), StartOf(m.event), TacticInFlight(m.phase), EndOf(m.event), t);
    }
  }

  lemma MovedParent(s: State, step: Step, w: nat, net: Net)
    requires ParentConsistent(s) && s.outcome.None?
    requires w < |s.workers| && WorkerEnabled(s.workers[w], step, s)
    ensures ParentConsistent(Moved(s, w, net, WorkerMove(s.workers[w], step, s)))
  {
    hide Sum, Conns, Errors, WorkerMove, WorkerEnabled, HasJoined;
    var m := WorkerMove(s.workers[w], step, s);
    MoveIsSmall(s.workers[w], step, s);
    SumUpdate(s.workers, HasJoined, w, m.phase);
    CollectedConcat(s.collected, m.report);
  }

  /** What a step does to the net. */
  lemma NetOfStep(s: State, step: Step)
    requires Valid(s.net) && s.net.Filter? && Enabled(s, step)
    ensures Apply(s, step).net.Filter? && Valid(Apply(s, step).net)
    ensures Closed(s.net) ==> Apply(s, step).net == s.net
    ensures !step.NetStep? && !step.TakeTactic? ==> Apply(s, step).net == s.net
  {
    match step
    case NetStep(net) =>
      if Closed(s.net) {
        ClosedNetHasStopped(s.net, net, s.cancelled);
      }
      InternalKeepsFlow(s.net, net, s.cancelled);
    case TakeTactic(_) => TakeGivesTheHead(s.net);
    case _ =>
  }

  lemma WorkersStep(s: State, step: Step)
    requires WorkersConsistent(s) && Enabled(s, step)
    ensures WorkersConsistent(Apply(s, step))
  {
    hide Valid, Internal, Take, Offer;
    NetOfStep(s, step);
  }

  /** Once DialTLSContext has returned, every worker has joined, every policy goroutine has
      returned, and nothing can happen any more: no goroutine is leaked. */
  lemma NothingRunsAfterReturn(s: State, step: Step)
    requires WorkersConsistent(s) && ParentConsistent(s) && s.outcome.Some?
    ensures !Enabled(s, step)
  {
    hide Offer, Closed, Internal;
    SumOfFlags(s.workers, HasJoined);
    assert s.workers[0].Joined?;
    if step.NetStep? {
      ClosedNetHasStopped(s.net, step.net, s.cancelled);
    }
  }

  lemma {:induction false} ReportedSize(c: seq<(Tactic, DialResult)>)
    ensures |Reported(c)| == |c|
  {
    if c != [] {
      ReportedSize(c[..|c| - 1]);
    }
  }

  lemma NoTacticNoConnection(s: State)
    requires TacticsAccounted(s) && ParentConsistent(s) && s.emitted == []
    ensures s.collected == [] && s.connv == [] && s.errorv == []
  {
    hide Gather;
    ReportedSize(s.collected);
    assert |multiset(s.emitted)| == |Gather(s.workers, HeldTactic)| + |Reported(s.collected)|;
  }

  /** Internal steps of the policies leave what is still to come as it is. */
  lemma NetStepStream(s: State, net: Net, total: seq<Msg>)
    requires WorkersConsistent(s) && StreamAccounted(s, total) && Enabled(s, NetStep(net))
    ensures Valid(net) && StreamAccounted(Apply(s, NetStep(net)), total)
    requires s.outcome.None?
  {
    hide Valid, Flow, Internal, Closed;
    InternalKeepsFlow(s.net, net, s.cancelled);
  }

  lemma TakeEffect(s: State, w: nat)
    requires |s.workers| == PARALLELISM && Valid(s.net) && s.net.Filter? && Enabled(s, TakeTactic(w))
    ensures
      var s' := Apply(s, TakeTactic(w));
      && Offer(s.net) != [] && Offer(s.net)[0].Some?
      && s'.net == Take(s.net) && s'.emitted == s.emitted + [Offer(s.net)[0].value]
      && s'.connv == s.connv && s'.cancelled == s.cancelled && s'.external == s.external && s'.outcome == s.outcome
  {
    hide Offer, Take, Closed, Internal;
  }

  /** A worker receives what was to come first. */
  lemma TakeStream(s: State, w: nat, total: seq<Msg>)
    requires WorkersConsistent(s) && ParentConsistent(s) && StreamAccounted(s, total) && TacticsAccounted(s)
    requires Enabled(s, TakeTactic(w)) && s.outcome.None?
    ensures Valid(Apply(s, TakeTactic(w)).net) && StreamAccounted(Apply(s, TakeTactic(w)), total)
  {
    hide Valid, Flow, Closed, Offer, Take, Pointers, Apply, Enabled, ParentConsistent, TacticsAccounted;
    TakeEffect(s, w);
    TakeGivesTheHead(s.net);
    var tactic := Offer(s.net)[0].value;
    var s' := Apply(s, TakeTactic(w));
    OnePointer(s.emitted, tactic);
    assert Pointers(s.emitted) + ([Some(tactic)] + Flow(s'.net)) == Pointers(s'.emitted) + Flow(s'.net);
    if s.emitted == [] {
      NoTacticNoConnection(s);
    }
  }

  lemma OnePointer(emitted: seq<Tactic>, tactic: Tactic)
    ensures Pointers(emitted + [tactic]) == Pointers(emitted) + [Some(tactic)]
  {
    PointersAppend(emitted, [tactic]);
    assert Pointers([tactic]) == [Some(tactic)];
  }

  /** Other steps receive nothing. */
  lemma OtherStepStream(s: State, step: Step, total: seq<Msg>)
    requires WorkersConsistent(s) && StreamAccounted(s, total)
    requires Enabled(s, step) && !step.NetStep? && !step.TakeTactic? && s.outcome.None?
    ensures Valid(Apply(s, step).net) && StreamAccounted(Apply(s, step), total)
  {
    hide Valid, Flow, Internal, Closed, Offer, Take, Pointers;
    var s' := Apply(s, step);
    assert s'.net == s.net && s'.emitted == s.emitted + [];
    assert s.emitted + [] == s.emitted;
    assert s.connv <= s'.connv && (s.external ==> s'.external);
  }

  lemma StreamStep(s: State, step: Step, total: seq<Msg>)
    requires WorkersConsistent(s) && ParentConsistent(s) && StreamAccounted(s, total)
    requires TacticsAccounted(s)
    requires Enabled(s, step)
    ensures WorkersConsistent(Apply(s, step)) && StreamAccounted(Apply(s, step), total)
  {
    WorkersStep(s, step);
    if s.outcome.Some? {
      hide *;
      NothingRunsAfterReturn(s, step);
    } else {
      hide *;
      match step
      case NetStep(net) => NetStepStream(s, net, total);
      case TakeTactic(w) => TakeStream(s, w, total);
      case _ => OtherStepStream(s, step, total);
    }
  }

  /** Every step keeps the whole invariant. */
  lemma StepKeepsInv(s: State, step: Step, total: seq<Msg>)
    requires Inv(s, total) && Enabled(s, step)
    ensures Inv(Apply(s, step), total)
  {
    hide ConnectionsAccounted, TacticsAccounted, EventsAccounted, StreamAccounted, Internal, WorkerMove, WorkerEnabled;
    if s.outcome.Some? {
      NothingRunsAfterReturn(s, step);
    }
    StreamStep(s, step, total);
    StepKeepsAccounts(s, step);
  }

  lemma NoStepAfterReturn(s: State, step: Step, total: seq<Msg>)
    requires Inv(s, total) && s.outcome.Some?
    ensures !Enabled(s, step)
  {
    hide ConnectionsAccounted, TacticsAccounted, EventsAccounted, StreamAccounted, Enabled;
    NothingRunsAfterReturn(s, step);
  }

  ghost predicate Accounts(s: State) {
    ParentConsistent(s) && ConnectionsAccounted(s) && TacticsAccounted(s) && EventsAccounted(s)
  }

  lemma FirstAndRest(connv: seq<int>, closed: seq<int>)
    requires connv != []
    ensures multiset(connv) + multiset(closed) == multiset{connv[0]} + multiset(closed + connv[1..])
  {
    assert connv == [connv[0]] + connv[1..];
  }

  lemma ReturnKeepsAccounts(s: State)
    requires WorkersConsistent(s) && Accounts(s) && Enabled(s, Return)
    ensures Accounts(Apply(s, Return))
  {
    hide Gather, Sum, Valid, Closed, Conns, Errors, Ids, Starts, Ends, Reported;
    SumOfFlags(s.workers, HasJoined);
    var s' := Apply(s, Return);
    assert ConnectionsAccounted(s') by {
      var held := Gather(s.workers, HeldConn);
      if s.connv != [] {
        FirstAndRest(s.connv, s.closed);
        assert held + multiset(s.connv) + multiset(s.closed) == held + (multiset(s.connv) + multiset(s.closed));
        assert held + multiset{s.connv[0]} + multiset(s'.closed) == held + (multiset{s.connv[0]} + multiset(s'.closed));
      } else {
        assert s'.closed == s.closed;
      }
    }
  }

  lemma StepKeepsAccounts(s: State, step: Step)
    requires WorkersConsistent(s) && Accounts(s) && s.outcome.None?
    requires Enabled(s, step)
    ensures Accounts(Apply(s, step))
  {
    if WorkerOf(step).Some? {
      var w := WorkerOf(step).value;
      var net := if step.TakeTactic? then Take(s.net) else s.net;
      MoveKeepsAccounts(s, step, w, net);
    } else if step.Return? {
      ReturnKeepsAccounts(s);
    }
  }

  lemma MoveKeepsAccounts(s: State, step: Step, w: nat, net: Net)
    requires Accounts(s) && s.outcome.None?
    requires w < |s.workers| && WorkerEnabled(s.workers[w], step, s)
    ensures Accounts(Moved(s, w, net, WorkerMove(s.workers[w], step, s)))
  {
    hide ConnectionsAccounted, TacticsAccounted, EventsAccounted, ParentConsistent, WorkerMove, WorkerEnabled, Moved;
    MovedConnections(s, step, w, net);
    MovedTactics(s, step, w, net);
    MovedEvents(s, step, w, net);
    MovedParent(s, step, w, net);
  }

  // ----- whole dials

  ghost predicate IsRun(states: seq<State>, steps: seq<Step>) {
    && |states| == |steps| + 1
    && forall i {:trigger steps[i]} :: 0 <= i < |steps| ==>
         Enabled(states[i], steps[i]) && states[i + 1] == Apply(states[i], steps[i])
  }

  /** A dial of the stream that `net` will emit: it starts with everyone idle. */
  ghost predicate IsDial(net: Net, states: seq<State>, steps: seq<Step>) {
    net.Filter? && Valid(net) && IsRun(states, steps) && states[0] == Init(net)
  }

  lemma {:induction false} DialKeepsInv(net: Net, states: seq<State>, steps: seq<Step>, i: nat)
    requires IsDial(net, states, steps) && i < |states|
    ensures Inv(states[i], Flow(net))
    decreases i
  {
    hide Inv, Enabled, Apply, Init, Valid, Flow;
    if i == 0 {
      InitHolds(net);
    } else {
      DialKeepsInv(net, states, steps, i - 1);
      var step := steps[i - 1];
      StepKeepsInv(states[i - 1], step, Flow(net));
    }
  }

  lemma AllJoinedHoldNothing(s: State)
    requires WorkersConsistent(s) && ParentConsistent(s) && s.outcome.Some?
    ensures Gather(s.workers, HeldConn) == multiset{} && Gather(s.workers, HeldTactic) == multiset{}
    ensures Gather(s.workers, InFlight) == multiset{}
    ensures Closed(s.net)
    ensures forall i :: 0 <= i < |s.workers| ==> s.workers[i].Joined?
  {
    hide Gather, Closed, Valid;
    SumOfFlags(s.workers, HasJoined);
    forall i | 0 <= i < |s.workers|
      ensures s.workers[i].Joined?
    {
      assert HasJoined(s.workers[i]) == 1;
    }
    GatherNothing(s.workers, HeldConn);
    GatherNothing(s.workers, HeldTactic);
    GatherNothing(s.workers, InFlight);
    assert s.workers[0].Joined?;
  }

  /** No connection is leaked or closed twice: when DialTLSContext returns, every connection that
      was ever opened has been closed exactly once, except the returned one, which is open. */
  lemma ConnectionsAreReturnedOrClosed(net: Net, states: seq<State>, steps: seq<Step>, i: nat)
    requires IsDial(net, states, steps) && i < |states| && states[i].outcome.Some?
    ensures
      var s := states[i];
      Ids(s.nextConn) ==
      multiset(s.closed) + (match s.outcome.value case Returned(c) => multiset{c} case _ => multiset{})
  {
    hide Ids, Gather, Sum, IsDial;
    DialKeepsInv(net, states, steps, i);
    AllJoinedHoldNothing(states[i]);
  }

  /** Every emitted tactic was reported on exactly once, and every dial that was announced to the
      statistics has ended with exactly one further callback. */
  lemma EveryTacticIsReportedOnce(net: Net, states: seq<State>, steps: seq<Step>, i: nat)
    requires IsDial(net, states, steps) && i < |states| && states[i].outcome.Some?
    ensures
      var s := states[i];
      && multiset(s.emitted) == Reported(s.collected)
      && Starts(s.events) == Ends(s.events)
      && |s.connv| + |s.errorv| == |s.emitted|
  {
    hide Reported, Gather, Sum, IsDial;
    var s := states[i];
    DialKeepsInv(net, states, steps, i);
    AllJoinedHoldNothing(s);
    ReportedSize(s.collected);
    CollectedSizes(s.collected);
    assert |multiset(s.emitted)| == |s.emitted|;
  }

  lemma {:induction false} CollectedSizes(c: seq<(Tactic, DialResult)>)
    ensures |Conns(c)| + |Errors(c)| == |c|
  {
    if c != [] {
      CollectedSizes(c[..|c| - 1]);
    }
  }

  /** The result is the first success that was collected; without one it is all errors in the order
      of collection; and the no-answer error stands for a dial that got no tactic to try. */
  lemma ResultIsFirstSuccess(net: Net, states: seq<State>, steps: seq<Step>, i: nat)
    requires IsDial(net, states, steps) && i < |states| && states[i].outcome.Some?
    ensures
      var s := states[i];
      match s.outcome.value
      case Returned(c) =>
        exists k :: 0 <= k < |s.collected| && s.collected[k].1 == Success(c)
                    && forall j :: 0 <= j < k ==> s.collected[j].1.Failure?
      case JoinedErrors(errors) =>
        s.emitted != [] && errors == Errors(s.collected) && forall j :: 0 <= j < |s.collected| ==> s.collected[j].1.Failure?
      case DnsNoAnswer => s.emitted == []
    ensures states[i].outcome.value.DnsNoAnswer? <==> states[i].emitted == []
  {
    hide Reported, Gather, Sum, IsDial, Conns, Errors;
    var s := states[i];
    DialKeepsInv(net, states, steps, i);
    EveryTacticIsReportedOnce(net, states, steps, i);
    FirstConn(s.collected);
  }

  lemma {:induction false} FirstConn(c: seq<(Tactic, DialResult)>)
    ensures Conns(c) == [] ==> forall j :: 0 <= j < |c| ==> c[j].1.Failure?
    ensures Conns(c) != [] ==>
              exists k :: 0 <= k < |c| && c[k].1 == Success(Conns(c)[0]) && forall j :: 0 <= j < k ==> c[j].1.Failure?
  {
    if c != [] {
      var n := |c| - 1;
      FirstConn(c[..n]);
      if Conns(c[..n]) != [] {
        var k :| 0 <= k < n && c[..n][k].1 == Success(Conns(c[..n])[0]) && forall j :: 0 <= j < k ==> c[..n][j].1.Failure?;
        assert c[k].1 == Success(Conns(c)[0]);
        assert forall j :: 0 <= j < k ==> c[..n][j] == c[j];
      } else {
        assert forall j :: 0 <= j < n ==> c[..n][j] == c[j];
      }
    }
  }

  /** Unless the caller cancels, a dial fails only after all of the stream was tried, in its order;
      and it gives the no-answer error exactly when the stream was empty. */
  lemma FailureMeansEverythingWasTried(net: Net, states: seq<State>, steps: seq<Step>, i: nat)
    requires IsDial(net, states, steps) && i < |states| && states[i].outcome.Some? && !states[i].external
    ensures
      var s := states[i];
      && (!s.outcome.value.Returned? ==> Pointers(s.emitted) == Flow(net))
      && (s.outcome.value.DnsNoAnswer? <==> Flow(net) == [])
  {
    hide Reported, Gather, Sum, IsDial, Conns, Errors, Flow;
    var s := states[i];
    DialKeepsInv(net, states, steps, i);
    AllJoinedHoldNothing(s);
    ClosedHasNothingToCome(s.net);
    if s.emitted == [] {
      NoTacticNoConnection(s);
    }
    ResultIsFirstSuccess(net, states, steps, i);
  }

  // ----- no deadlock, and every dial ends

  lemma WorkerNeverStuck(s: State, w: nat) returns (step: Step)
    requires WorkersConsistent(s) && s.numJoined < PARALLELISM
    requires w < |s.workers| && !s.workers[w].Joined?
    ensures Enabled(s, step) && !step.ExternalCancel?
  {
    hide Valid, Internal, Offer, Closed;
    match s.workers[w]
    case Idle =>
      if Closed(s.net) {
        step := Exit(w);
      } else if Offer(s.net) != [] {
        OfferedIsSome(s.net);
        step := TakeTactic(w);
      } else {
        var net := NetNeverStuck(s.net, s.cancelled);
        step := NetStep(net);
      }
    case Waiting(_) => step := Ready(w);
    case Connecting(_) => step := TcpConnects(w);
    case Handshaking(_, _) => step := Handshakes(w);
    case Verifying(_, _) => step := Verifies(w);
    case Posting(_, _) => step := Collect(w);
    case Joining => step := Join(w);
  }

  /** As long as DialTLSContext has not returned, some goroutine can take a step, assuming that
      network operations return. The caller's cancellation is not needed for that. */
  lemma DialNeverStuck(s: State, total: seq<Msg>) returns (step: Step)
    requires Inv(s, total) && s.outcome.None?
    ensures Enabled(s, step) && !step.ExternalCancel?
  {
    hide ConnectionsAccounted, TacticsAccounted, EventsAccounted, StreamAccounted, Sum, Valid, Closed;
    if s.numJoined >= PARALLELISM {
      step := Return;
    } else {
      SumOfFlags(s.workers, HasJoined);
      var w: nat :| w < |s.workers| && HasJoined(s.workers[w]) == 0;
      step := WorkerNeverStuck(s, w);
    }
  }

  lemma OfferedIsSome(net: Net)
    requires net.Filter? && Valid(net) && Offer(net) != []
    ensures Offer(net)[0].Some?
  {
  }

  /** An upper bound on the number of steps that are left. */
  function Measure(s: State): nat {
    6 * Work(s.net) + Sum(s.workers, Distance) + (if s.external then 0 else 1) + (if s.outcome.Some? then 0 else 1)
  }

  lemma MoveDecreasesMeasure(s: State, step: Step, w: nat)
    requires Valid(s.net) && w < |s.workers| && WorkerEnabled(s.workers[w], step, s)
    requires step.TakeTactic? ==> Offer(s.net) != []
    ensures Measure(Moved(s, w, if step.TakeTactic? then Take(s.net) else s.net, WorkerMove(s.workers[w], step, s)))
            < Measure(s)
  {
    hide Valid, Work, Sum, WorkerMove, WorkerEnabled, Take, Offer, Distance;
    var m := WorkerMove(s.workers[w], step, s);
    MoveIsSmall(s.workers[w], step, s);
    SumUpdate(s.workers, Distance, w, m.phase);
    if step.TakeTactic? {
      TakeDecreasesWork(s.net);
    }
  }

  /** Every step, of whatever goroutine, brings the dial closer to its end. */
  lemma StepDecreasesMeasure(s: State, step: Step)
    requires WorkersConsistent(s) && Enabled(s, step)
    ensures Measure(Apply(s, step)) < Measure(s)
  {
    hide Valid, Internal, Work, Sum, WorkerMove, Moved, Take, Closed;
    if step.NetStep? {
      InternalDecreasesWork(s.net, step.net, s.cancelled);
    } else if WorkerOf(step).Some? {
      MoveDecreasesMeasure(s, step, WorkerOf(step).value);
    }
  }

  /** No dial takes more steps than a bound that is known when it starts. */
  lemma {:induction false} DialEnds(net: Net, states: seq<State>, steps: seq<Step>, i: nat)
    requires IsDial(net, states, steps) && i < |states|
    ensures i + Measure(states[i]) <= 6 * Work(net) + 2 * PARALLELISM + 2
    decreases i
  {
    hide Measure, Enabled, Apply, Flow, Valid, Init, WorkersConsistent, ParentConsistent, Work;
    hide ConnectionsAccounted, TacticsAccounted, EventsAccounted, StreamAccounted;
    if i == 0 {
      InitialMeasure(net);
    } else {
      DialEnds(net, states, steps, i - 1);
      DialKeepsInv(net, states, steps, i - 1);
      var step := steps[i - 1];
      StepDecreasesMeasure(states[i - 1], step);
    }
  }

  lemma InitialMeasure(net: Net)
    ensures Measure(Init(net)) == 6 * Work(net) + 2 * PARALLELISM + 2
  {
    hide Work;
    SumConstant(Init(net).workers, Distance, 2);
  }

  lemma {:induction false} SumConstant(ws: seq<Phase>, f: Phase -> nat, k: nat)
    requires forall i :: 0 <= i < |ws| ==> f(ws[i]) == k
    ensures Sum(ws, f) == k * |ws|
  {
    if ws != [] {
      SumConstant(ws[..|ws| - 1], f, k);
    }
  }

  /** The dialer on top of the policies that newHTTPSDialerPolicy composes: if no connection is
      returned and the caller did not cancel, the tactics tried are exactly the scheduled ones. */
  lemma PolicyDial(proxy: bool, user: Option<UserRoot>, w: World, domain: string, port: string,
                   states: seq<State>, steps: seq<Step>, i: nat)
    requires
      var p := NewHTTPSDialerPolicy(proxy, user);
      IsDial(StartFiltered(p, w, domain, port), states, steps)
    requires i < |states| && states[i].outcome.Some? && !states[i].external
    ensures
      var scheduled := Scheduled(NewHTTPSDialerPolicy(proxy, user), w, domain, port);
      && (!states[i].outcome.value.Returned? ==> states[i].emitted == scheduled)
      && (states[i].outcome.value.DnsNoAnswer? <==> scheduled == [])
  {
    hide Scheduled, StartFiltered, IsDial, Flow;
    var p := NewHTTPSDialerPolicy(proxy, user);
    ComposedHelpersOnDns(proxy, user);
    FilteredFlow(p, w, domain, port);
    FailureMeansEverythingWasTried(StartFiltered(p, w, domain, port), states, steps, i);
    PointersInjective(states[i].emitted, Scheduled(p, w, domain, port));
  }

  lemma PointersInjective(a: seq<Tactic>, b: seq<Tactic>)
    ensures Pointers(a) == Pointers(b) ==> a == b
  {
    if Pointers(a) == Pointers(b) {
      assert |a| == |b|;
      forall k | 0 <= k < |a|
        ensures a[k] == b[k]
      {
        assert Pointers(a)[k] == Pointers(b)[k];
      }
    }
  }
}
