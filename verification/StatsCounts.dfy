/** What the counters of a record mean: the events since it came to be (pkg/enginenetx/statsmanager.go). */
module StatsCounts {
  import opened Optional
  import opened Tactics
  import opened TacticNet
  import opened HttpsDialer
  import opened StatsTactics
  import opened StatsManager
  import opened StatsRuns
  import DialResults

  datatype Counter = Started | TcpErrors | TcpInterrupts | TlsErrors | TlsInterrupts | VerifyErrors | Successes

  function ValueOf(r: StatsTactic, k: Counter): int {
    match k
    case Started => r.countStarted
    case TcpErrors => r.countTCPConnectError
    case TcpInterrupts => r.countTCPConnectInterrupt
    case TlsErrors => r.countTLSHandshakeError
    case TlsInterrupts => r.countTLSHandshakeInterrupt
    case VerifyErrors => r.countTLSVerificationError
    case Successes => r.countSuccess
  }

  /** The histogram of an error counter; the other counters have none. */
  function HistogramOf(r: StatsTactic, k: Counter): Histogram {
    match k
    case TcpErrors => r.histoTCPConnectError
    case TlsErrors => r.histoTLSHandshakeError
    case VerifyErrors => r.histoTLSVerificationError
    case _ => None
  }

  predicate HasHistogram(k: Counter) {
    k.TcpErrors? || k.TlsErrors? || k.VerifyErrors?
  }

  /** Which counter an event is for. An error of a dial whose context is done is an interrupt. */
  predicate IsFor(e: Event, k: Counter) {
    match k
    case Started => e.OnStarting?
    case TcpErrors => e.OnTCPConnectError? && !e.interrupted
    case TcpInterrupts => e.OnTCPConnectError? && e.interrupted
    case TlsErrors => e.OnTLSHandshakeError? && !e.interrupted
    case TlsInterrupts => e.OnTLSHandshakeError? && e.interrupted
    case VerifyErrors => e.OnTLSVerifyError?
    case Successes => e.OnSuccess?
  }

  predicate IsEventOf(a: Action, key: Key) {
    a.DialEvent? && KeyOf(a.event.tactic) == key
  }

  predicate IsCounted(a: Action, key: Key, k: Counter) {
    IsEventOf(a, key) && IsFor(a.event, k)
  }

  predicate HasText(a: Action, key: Key, k: Counter, text: string) {
    IsCounted(a, key, k) && a.error == text
  }

  /** How many of the actions from `c` on and before `i` the counter counts. */
  function CountSince(actions: seq<Action>, c: nat, i: nat, key: Key, k: Counter): nat
    requires i <= |actions|
    decreases i
  {
    if i <= c then 0 else CountSince(actions, c, i - 1, key, k) + (if IsCounted(actions[i - 1], key, k) then 1 else 0)
  }

  /** How many of them are errors with the text. */
  function TextsSince(actions: seq<Action>, c: nat, i: nat, key: Key, k: Counter, text: string): nat
    requires i <= |actions|
    decreases i
  {
    if i <= c then 0 else TextsSince(actions, c, i - 1, key, k, text) + (if HasText(actions[i - 1], key, k, text) then 1 else 0)
  }

  /** The time of the last event of the key among them. */
  function LastEventSince(actions: seq<Action>, c: nat, i: nat, key: Key): Option<int>
    requires i <= |actions|
    decreases i
  {
    if i <= c then None
    else if IsEventOf(actions[i - 1], key) then Some(actions[i - 1].now)
    else LastEventSince(actions, c, i - 1, key)
  }

  // ----- one action

  /** The record after an action, against the record before it or, when there was none, a blank one. */
  ghost predicate CountsOne(r: StatsTactic, r': StatsTactic, a: Action, key: Key) {
    && (forall k {:trigger ValueOf(r', k)} :: ValueOf(r', k) == ValueOf(r, k) + (if IsCounted(a, key, k) then 1 else 0))
    && (forall k, text {:trigger EntryOf(HistogramOf(r', k), text)} :: HasHistogram(k) ==>
          EntryOf(HistogramOf(r', k), text) == EntryOf(HistogramOf(r, k), text) + (if HasText(a, key, k, text) then 1 else 0))
    && r'.lastUpdated == (if IsEventOf(a, key) then a.now else r.lastUpdated)
    && r'.tactic == r.tactic
  }

  lemma IncrementEntry(h: Histogram, value: string, text: string)
    ensures EntryOf(Increment(h, value), text) == EntryOf(h, text) + (if text == value then 1 else 0)
  {
  }

  lemma CountedCountsOne(r: StatsTactic, e: Event, error: string, now: int)
    ensures CountsOne(r, Counted(r, e, error, now), DialEvent(e, error, now), KeyOf(e.tactic))
  {
    hide KeyOf, Increment, EntryOf;
    var r', a, key := Counted(r, e, error, now), DialEvent(e, error, now), KeyOf(e.tactic);
    forall k, text {:trigger EntryOf(HistogramOf(r', k), text)} | HasHistogram(k)
      ensures EntryOf(HistogramOf(r', k), text) == EntryOf(HistogramOf(r, k), text) + (if HasText(a, key, k, text) then 1 else 0)
    {
      IncrementEntry(HistogramOf(r, k), error, text);
    }
  }

  lemma OtherCountsNothing(r: StatsTactic, a: Action, key: Key)
    requires !IsEventOf(a, key)
    ensures CountsOne(r, r, a, key)
  {
    hide KeyOf, EntryOf;
    assert forall k :: !IsCounted(a, key, k);
    assert forall k, text :: !HasText(a, key, k, text);
  }

  lemma NewRecordIsBlank(t: Tactic)
    ensures forall k {:trigger ValueOf(NewRecord(t), k)} :: ValueOf(NewRecord(t), k) == 0
    ensures forall k, text {:trigger EntryOf(HistogramOf(NewRecord(t), k), text)} :: EntryOf(HistogramOf(NewRecord(t), k), text) == 0
  {
  }

  /** What an action makes of a record that is there after it. */
  lemma ActionCounts(s: RunState, a: Action, key: Key)
    requires RunInv(s) && CanAct(s, a) && Lookup(Act(s, a).container, key).Some?
    ensures
      var r' := Lookup(Act(s, a).container, key).value;
      match Lookup(s.container, key)
      case Some(r) => CountsOne(r, r', a, key)
      case None => IsCounted(a, key, Started) && CountsOne(NewRecord(a.event.tactic), r', a, key)
  {
    hide Handle, Lookup, Counted, KeyOf, WellFormed, PrunedContainer, CountsOne;
    match a
    case DialEvent(e, error, now) =>
      LookupAfterEvent(s.container, e, error, now, key);
      if key == KeyOf(e.tactic) {
        CountedCountsOne(Lookup(s.container, key).UnwrapOr(NewRecord(e.tactic)), e, error, now);
      } else {
        OtherCountsNothing(Lookup(s.container, key).value, a, key);
      }
    case Trim(clock, pruned) =>
      PruneKeepsOrRemoves(s.container, clock, pruned, key);
      OtherCountsNothing(Lookup(s.container, key).value, a, key);
    case NoEvent => OtherCountsNothing(Lookup(s.container, key).value, a, key);
  }

  // ----- runs

  /** The record `r'` has counted the actions from `c` on, on top of what `r` had. */
  ghost predicate CountedSince(r: StatsTactic, r': StatsTactic, actions: seq<Action>, c: nat, i: nat, key: Key)
    requires i <= |actions|
  {
    && (forall k {:trigger ValueOf(r', k)} :: ValueOf(r', k) == ValueOf(r, k) + CountSince(actions, c, i, key, k))
    && (forall k, text {:trigger EntryOf(HistogramOf(r', k), text)} :: HasHistogram(k) ==>
          EntryOf(HistogramOf(r', k), text) == EntryOf(HistogramOf(r, k), text) + TextsSince(actions, c, i, key, k, text))
    && r'.lastUpdated == LastEventSince(actions, c, i, key).UnwrapOr(r.lastUpdated)
    && r'.tactic == r.tactic
  }

  lemma CountedStep(r: StatsTactic, r1: StatsTactic, r2: StatsTactic, actions: seq<Action>, c: nat, i: nat, key: Key)
    requires c <= i < |actions| && CountedSince(r, r1, actions, c, i, key) && CountsOne(r1, r2, actions[i], key)
    ensures CountedSince(r, r2, actions, c, i + 1, key)
  {
    hide IsCounted, HasText, IsEventOf, EntryOf, ValueOf, HistogramOf;
    forall k {:trigger ValueOf(r2, k)}
      ensures ValueOf(r2, k) == ValueOf(r, k) + CountSince(actions, c, i + 1, key, k)
    {
      assert ValueOf(r1, k) == ValueOf(r, k) + CountSince(actions, c, i, key, k);
    }
    forall k, text {:trigger EntryOf(HistogramOf(r2, k), text)} | HasHistogram(k)
      ensures EntryOf(HistogramOf(r2, k), text) == EntryOf(HistogramOf(r, k), text) + TextsSince(actions, c, i + 1, key, k, text)
    {
      assert EntryOf(HistogramOf(r1, k), text) == EntryOf(HistogramOf(r, k), text) + TextsSince(actions, c, i, key, k, text);
    }
  }

  lemma CountedNothing(r: StatsTactic, actions: seq<Action>, i: nat, key: Key)
    requires i <= |actions|
    ensures CountedSince(r, r, actions, i, i, key)
  {
    hide ValueOf, EntryOf, HistogramOf;
    assert forall k {:trigger CountSince(actions, i, i, key, k)} :: CountSince(actions, i, i, key, k) == 0;
    assert forall k, text {:trigger TextsSince(actions, i, i, key, k, text)} :: TextsSince(actions, i, i, key, k, text) == 0;
    assert LastEventSince(actions, i, i, key) == None;
  }

  /** A record that is there from moment `c` to `i` has counted the events of its key between them. */
  lemma {:induction false} PresentCounts(states: seq<RunState>, actions: seq<Action>, c: nat, i: nat, key: Key)
    requires IsStatsRun(states, actions) && JustCreated(states[0]) && c <= i < |states| && Present(states, key, c, i)
    ensures CountedSince(Lookup(states[c].container, key).value, Lookup(states[i].container, key).value, actions, c, i, key)
    decreases i
  {
    hide Lookup, Act, CanAct, JustCreated, RunInv, CountedSince, CountsOne;
    if c == i {
      CountedNothing(Lookup(states[c].container, key).value, actions, c, key);
    } else {
      PresentCounts(states, actions, c, i - 1, key);
      RunKeepsInv(states, actions, i - 1);
      var a := actions[i - 1];
      assert states[i] == Act(states[i - 1], a);
      ActionCounts(states[i - 1], a, key);
      CountedStep(Lookup(states[c].container, key).value, Lookup(states[i - 1].container, key).value,
                  Lookup(states[i].container, key).value, actions, c, i - 1, key);
    }
  }

  /** What a record that was loaded shows: what it was loaded with and the events of its key. */
  lemma LoadedRecordsCountEvents(states: seq<RunState>, actions: seq<Action>, i: nat, key: Key, k: Counter, text: string)
    requires IsStatsRun(states, actions) && JustCreated(states[0]) && i < |states| && Present(states, key, 0, i)
    ensures
      var loaded, r := Lookup(states[0].container, key).value, Lookup(states[i].container, key).value;
      && ValueOf(r, k) == ValueOf(loaded, k) + CountSince(actions, 0, i, key, k)
      && (HasHistogram(k) ==>
            EntryOf(HistogramOf(r, k), text) == EntryOf(HistogramOf(loaded, k), text) + TextsSince(actions, 0, i, key, k, text))
      && r.lastUpdated == LastEventSince(actions, 0, i, key).UnwrapOr(loaded.lastUpdated)
      && r.tactic == loaded.tactic
  {
    hide Lookup, IsStatsRun, JustCreated, ValueOf, EntryOf, HistogramOf, CountSince, TextsSince, LastEventSince;
    PresentCounts(states, actions, 0, i, key);
  }

  /** What a record that was created by action `c` shows: each counter is the number of events of its kind and of the
      key since then, each entry of a histogram is the number of errors with that text, the time is that of the last
      event, and the tactic is the one whose start created the record. */
  lemma CountersCountEvents(states: seq<RunState>, actions: seq<Action>, c: nat, i: nat, key: Key, k: Counter, text: string)
    requires IsStatsRun(states, actions) && JustCreated(states[0]) && c < i < |states|
    requires Lookup(states[c].container, key).None? && Present(states, key, c + 1, i)
    ensures
      var r := Lookup(states[i].container, key).value;
      && IsCounted(actions[c], key, Started) && r.tactic == Some(actions[c].event.tactic)
      && ValueOf(r, k) == CountSince(actions, c, i, key, k)
      && (HasHistogram(k) ==> EntryOf(HistogramOf(r, k), text) == TextsSince(actions, c, i, key, k, text))
      && LastEventSince(actions, c, i, key) == Some(r.lastUpdated)
  {
    hide Lookup, Act, CanAct, JustCreated, RunInv, CountsOne, KeyOf;
    PresentCounts(states, actions, c + 1, i, key);
    RunKeepsInv(states, actions, c);
    var a := actions[c];
    assert states[c + 1] == Act(states[c], a);
    assert Lookup(states[c + 1].container, key).Some?;
    ActionCounts(states[c], a, key);
    var first, r := Lookup(states[c + 1].container, key).value, Lookup(states[i].container, key).value;
    FirstCount(a.event.tactic, first, r, actions, c, i, key, k, text);
  }

  lemma {:induction false} CountsFrom(actions: seq<Action>, c: nat, i: nat, key: Key, k: Counter, text: string)
    requires c < i <= |actions|
    ensures CountSince(actions, c, i, key, k) == CountSince(actions, c + 1, i, key, k) + (if IsCounted(actions[c], key, k) then 1 else 0)
    ensures TextsSince(actions, c, i, key, k, text)
            == TextsSince(actions, c + 1, i, key, k, text) + (if HasText(actions[c], key, k, text) then 1 else 0)
    ensures IsEventOf(actions[c], key) ==>
              LastEventSince(actions, c, i, key) == Some(LastEventSince(actions, c + 1, i, key).UnwrapOr(actions[c].now))
    decreases i
  {
    hide IsCounted, HasText, IsEventOf;
    if c + 1 < i {
      CountsFrom(actions, c, i - 1, key, k, text);
    }
  }

  lemma FirstCount(t: Tactic, first: StatsTactic, r: StatsTactic, actions: seq<Action>, c: nat, i: nat, key: Key,
                   k: Counter, text: string)
    requires c < i <= |actions| && IsCounted(actions[c], key, Started)
    requires CountsOne(NewRecord(t), first, actions[c], key) && CountedSince(first, r, actions, c + 1, i, key)
    ensures ValueOf(r, k) == CountSince(actions, c, i, key, k)
    ensures HasHistogram(k) ==> EntryOf(HistogramOf(r, k), text) == TextsSince(actions, c, i, key, k, text)
    ensures LastEventSince(actions, c, i, key) == Some(r.lastUpdated) && r.tactic == Some(t)
  {
    CountsFrom(actions, c, i, key, k, text);
    NewRecordIsBlank(t);
    hide ValueOf, EntryOf, HistogramOf, CountSince, TextsSince, LastEventSince, IsFor;
    assert ValueOf(first, k) == ValueOf(NewRecord(t), k) + (if IsCounted(actions[c], key, k) then 1 else 0);
    if HasHistogram(k) {
      assert EntryOf(HistogramOf(first, k), text)
             == EntryOf(HistogramOf(NewRecord(t), k), text) + (if HasText(actions[c], key, k, text) then 1 else 0);
    }
  }

  /** A record in which a success was counted since it was created makes the policy suggest a tactic with its key for
      the host name and the port of the tactic that succeeded. */
  lemma SuccessesAreSuggested(states: seq<RunState>, actions: seq<Action>, c: nat, i: nat, t: Tactic) returns (found: Tactic)
    requires IsStatsRun(states, actions) && JustCreated(states[0]) && c < i < |states|
    requires Lookup(states[c].container, KeyOf(t)).None? && Present(states, KeyOf(t), c + 1, i)
    requires exists j {:trigger actions[j]} :: c <= j < i && IsCounted(actions[j], KeyOf(t), Successes)
    ensures found.SummaryKey() == t.SummaryKey() && Suggests(states[i].container, t.verifyHostname, t.port, found)
  {
    hide Lookup, Act, CanAct, JustCreated, Present, Tactic.SummaryKey, JoinHostPort, Ended, SuccessUnder;
    var j :| c <= j < i && IsCounted(actions[j], KeyOf(t), Successes);
    CountIsPositive(actions, c, i, j, KeyOf(t), Successes);
    CountersCountEvents(states, actions, c, i, KeyOf(t), Successes, "");
    RunKeepsInv(states, actions, i);
    assert WellFormed(states[i].container);
    assert Lookup(states[i].container, KeyOf(t)).Some? by { PresentAt(states, KeyOf(t), c + 1, i); }
    var r := Lookup(states[i].container, KeyOf(t)).value;
    WellFormedRecord(states[i].container, KeyOf(t));
    found := r.tactic.value;
    assert SuccessUnder(states[i].container, Key(JoinHostPort(t.verifyHostname, t.port), t.SummaryKey()), r) by {
      IsSuccessUnder(states[i].container, t, r);
    }
  }

  lemma IsSuccessUnder(c: StatsContainer, t: Tactic, r: StatsTactic)
    requires Lookup(c, KeyOf(t)) == Some(r) && r.countSuccess > 0
    ensures SuccessUnder(c, Key(JoinHostPort(t.verifyHostname, t.port), t.SummaryKey()), r)
  {
  }

  lemma PresentAt(states: seq<RunState>, key: Key, first: nat, i: nat)
    requires first <= i < |states| && Present(states, key, first, i)
    ensures Lookup(states[i].container, key).Some?
  {
  }

  lemma {:induction false} CountIsPositive(actions: seq<Action>, c: nat, i: nat, j: nat, key: Key, k: Counter)
    requires c <= j < i <= |actions| && IsCounted(actions[j], key, k)
    ensures CountSince(actions, c, i, key, k) > 0
    decreases i
  {
    hide IsCounted;
    if j < i - 1 {
      CountIsPositive(actions, c, i - 1, j, key, k);
    }
  }

  // ----- dials that share a manager

  /** Whether a step of a dial is for the counter: an announcement, a failure of its kind, a verification. */
  ghost predicate StepIsFor(y: SystemState, a: SystemStep, key: Key, k: Counter)
    requires SystemEnabled(y, a)
  {
    match a
    case TrimStep(_, _) => false
    case DialStep(d, step, _, _) =>
      var s := y.dials[d];
      match step
      case Ready(w) => k.Started? && KeyOf(s.workers[w].tactic) == key
      case TcpFails(w, _) => (if s.cancelled then k.TcpInterrupts? else k.TcpErrors?) && KeyOf(s.workers[w].tactic) == key
      case HandshakeFails(w, _) => (if s.cancelled then k.TlsInterrupts? else k.TlsErrors?) && KeyOf(s.workers[w].tactic) == key
      case VerifyFails(w, _) => k.VerifyErrors? && KeyOf(s.workers[w].tactic) == key
      case Verifies(w) => k.Successes? && KeyOf(s.workers[w].tactic) == key
      case _ => false
  }

  ghost predicate StepHasText(y: SystemState, a: SystemStep, key: Key, k: Counter, text: string)
    requires SystemEnabled(y, a)
  {
    StepIsFor(y, a, key, k) && ErrorOfStep(a.step) == Some(text)
  }

  ghost function StepsSince(states: seq<SystemState>, steps: seq<SystemStep>, c: nat, i: nat, key: Key, k: Counter): nat
    requires IsSystemRun(states, steps) && i <= |steps|
    decreases i
  {
    if i <= c then 0
    else StepsSince(states, steps, c, i - 1, key, k) + (if StepIsFor(states[i - 1], steps[i - 1], key, k) then 1 else 0)
  }

  ghost function StepTextsSince(states: seq<SystemState>, steps: seq<SystemStep>, c: nat, i: nat, key: Key, k: Counter,
                                text: string): nat
    requires IsSystemRun(states, steps) && i <= |steps|
    decreases i
  {
    if i <= c then 0
    else
      StepTextsSince(states, steps, c, i - 1, key, k, text)
      + (if StepHasText(states[i - 1], steps[i - 1], key, k, text) then 1 else 0)
  }

  lemma EventIsCallback(s: HttpsDialer.State, step: Step)
    requires Enabled(s, step)
    ensures EventOf(s, step) == DialResults.CallbackOf(s, step)
  {
    hide Enabled, Apply, EventOf, DialResults.CallbackOf;
    StepOfWorker(s, step);
    DialResults.StepCalls(s, step);
    var e, f := List(EventOf(s, step)), List(DialResults.CallbackOf(s, step));
    assert (s.events + e)[|s.events|..] == e && (s.events + f)[|s.events|..] == f;
    SameList(EventOf(s, step), DialResults.CallbackOf(s, step));
  }

  lemma SameList<T>(x: Option<T>, y: Option<T>)
    ensures List(x) == List(y) ==> x == y
  {
    if x.Some? && y.Some? && List(x) == List(y) {
      assert List(x)[0] == List(y)[0];
    }
  }

  lemma StepIsCounted(y: SystemState, a: SystemStep, key: Key, k: Counter)
    requires SystemEnabled(y, a)
    ensures IsCounted(ActionOf(y, a), key, k) <==> StepIsFor(y, a, key, k)
    ensures StepIsFor(y, a, key, k) ==> a.DialStep? && ActionOf(y, a).error == a.error
  {
    hide KeyOf, EventOf, PrunedContainer, Internal, Offer, Take, Closed;
    if a.DialStep? {
      EventIsCallback(y.dials[a.d], a.step);
    }
  }

  lemma StepTextIsCounted(y: SystemState, a: SystemStep, key: Key, k: Counter, text: string)
    requires SystemEnabled(y, a) && HasHistogram(k)
    ensures HasText(ActionOf(y, a), key, k, text) <==> StepHasText(y, a, key, k, text)
  {
    StepIsCounted(y, a, key, k);
    if StepIsFor(y, a, key, k) {
      assert ErrorOfStep(a.step).Some? by { FailuresHaveErrors(y, a, key, k); }
    }
    hide KeyOf, EventOf, PrunedContainer, Enabled, StepIsFor, ActionOf, IsCounted;
  }

  lemma FailuresHaveErrors(y: SystemState, a: SystemStep, key: Key, k: Counter)
    requires SystemEnabled(y, a) && StepIsFor(y, a, key, k) && HasHistogram(k)
    ensures ErrorOfStep(a.step).Some?
  {
    hide KeyOf, Enabled, PrunedContainer;
  }

  lemma {:induction false} CountsAreSteps(states: seq<SystemState>, steps: seq<SystemStep>, actions: seq<Action>, c: nat, i: nat,
                                          key: Key, k: Counter, text: string)
    requires IsSystemRun(states, steps) && i <= |steps| == |actions|
    requires forall j {:trigger actions[j]} :: 0 <= j < |steps| ==>
               SystemEnabled(states[j], steps[j]) && actions[j] == ActionOf(states[j], steps[j])
    ensures CountSince(actions, c, i, key, k) == StepsSince(states, steps, c, i, key, k)
    ensures HasHistogram(k) ==> TextsSince(actions, c, i, key, k, text) == StepTextsSince(states, steps, c, i, key, k, text)
    decreases i
  {
    hide SystemEnabled, SystemApply, ActionOf, IsCounted, HasText, StepIsFor, StepHasText;
    if i > c {
      CountsAreSteps(states, steps, actions, c, i - 1, key, k, text);
      var a := actions[i - 1];
      StepIsCounted(states[i - 1], steps[i - 1], key, k);
      if HasHistogram(k) {
        StepTextIsCounted(states[i - 1], steps[i - 1], key, k, text);
      }
    }
  }

  /** In every run of dials that share a manager, a record that was created at moment `c` shows how many steps of each
      kind all dials have taken since then for tactics with its key, and with which errors. */
  lemma SharedCountersCountSteps(states: seq<SystemState>, steps: seq<SystemStep>, nets: seq<Net>, c: nat, i: nat, key: Key,
                                 k: Counter, text: string)
    requires IsSystemRun(states, steps) && SystemStarts(states[0], nets) && c < i < |states|
    requires Lookup(states[c].stats.container, key).None? && PresentInSystem(states, key, c + 1, i)
    ensures
      var r := Lookup(states[i].stats.container, key).value;
      && ValueOf(r, k) == StepsSince(states, steps, c, i, key, k)
      && (HasHistogram(k) ==> EntryOf(HistogramOf(r, k), text) == StepTextsSince(states, steps, c, i, key, k, text))
  {
    hide Lookup, SystemStarts, IsStatsRun, JustCreated, SystemEnabled, SystemApply, ActionOf, ValueOf, EntryOf, HistogramOf;
    hide CountSince, TextsSince, StepsSince, StepTextsSince, LastEventSince, IsCounted;
    var stats, actions := StatsOfSystemRun(states, steps, nets);
    assert Present(stats, key, c + 1, i);
    CountersCountEvents(stats, actions, c, i, key, k, text);
    CountsAreSteps(states, steps, actions, c, i, key, k, text);
  }
}
