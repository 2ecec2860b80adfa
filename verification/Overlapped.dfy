/** Overlapped HTTP calls to equivalent endpoints (pkg/httpclientx/overlapped.go). */
module Overlapped {
  import opened Optional

  type Error = string

  const GENERIC_FAILURE: Error := "overlapped: generic failure"

  /** What the call to one endpoint returns. */
  datatype Outcome<V> = Outcome(value: V, err: Option<Error>)

  datatype ErrorOr<V> = ErrorOr(err: Option<Error>, index: nat, value: V)

  /** What `Map` does: start a call under a context that may be canceled already, collect the result
      of a call, or wake up because the ticker ticked. */
  datatype Event =
    | Start(index: nat, canceled: bool)
    | Collect(index: nat)
    | Tick

  function Started(log: seq<Event>): seq<nat> {
    if log == [] then []
    else Started(log[..|log| - 1]) + (match log[|log| - 1] case Start(i, _) => [i] case _ => [])
  }

  function Collected(log: seq<Event>): seq<nat> {
    if log == [] then []
    else Collected(log[..|log| - 1]) + (match log[|log| - 1] case Collect(i) => [i] case _ => [])
  }

  /** Whether a successful call was collected. */
  predicate Canceled<V>(outcomes: seq<Outcome<V>>, log: seq<Event>) {
    exists k :: 0 <= k < |log| && log[k].Collect? && log[k].index < |outcomes| && outcomes[log[k].index].err.None?
  }

  function UpTo(n: nat): (r: seq<nat>)
    ensures |r| == n && forall i {:trigger r[i]} :: 0 <= i < n ==> r[i] == i
  {
    if n == 0 then [] else UpTo(n - 1) + [n - 1]
  }

  /** One event is allowed after `before`: calls start one at a time, the context is canceled once
      there was a success, and waiting happens only while some call is in flight. */
  predicate Allowed<V>(outcomes: seq<Outcome<V>>, before: seq<Event>, e: Event) {
    match e
    case Start(i, canceled) =>
      && (before != [] ==> !before[|before| - 1].Start?)
      && i == |Started(before)|
      && canceled == Canceled(outcomes, before)
    case Collect(i) => |Collected(before)| < |Started(before)| && i in Started(before) && i !in Collected(before)
    case Tick => |Collected(before)| < |Started(before)|
  }

  predicate Conforms<V>(outcomes: seq<Outcome<V>>, log: seq<Event>) {
    forall p {:trigger log[p]} :: 0 <= p < |log| ==> Allowed(outcomes, log[..p], log[p])
  }

  predicate ResultsOf<V(==)>(outcomes: seq<Outcome<V>>, collected: seq<nat>, results: seq<ErrorOr<V>>) {
    && |results| == |collected|
    && forall k {:trigger results[k]} {:trigger collected[k]} :: 0 <= k < |results| ==>
         && collected[k] < |outcomes|
         && results[k] == ResultOf(outcomes, collected[k])
  }

  function ResultOf<V>(outcomes: seq<Outcome<V>>, i: nat): ErrorOr<V>
    requires i < |outcomes|
  {
    ErrorOr(outcomes[i].err, i, outcomes[i].value)
  }

  /** Every index below `n` once, in any order. */
  predicate Permutation(n: nat, indices: seq<nat>) {
    && |indices| == n
    && (forall j, k :: 0 <= j < k < n ==> indices[j] != indices[k])
    && (forall i :: 0 <= i < n ==> i in indices)
  }

  /** What a schedule that conforms looks like: no two calls are started in a row; a call is started under a canceled
      context exactly when a successful call was collected before; a call is collected after it was started; and
      something is waited for only while more calls were started than collected. */
  lemma ConformsMeans<V>(outcomes: seq<Outcome<V>>, log: seq<Event>, p: nat)
    requires Conforms(outcomes, log) && p < |log|
    ensures log[p].Start? ==> p == 0 || !log[p - 1].Start?
    ensures log[p].Start? ==>
              (log[p].canceled <==>
               exists k {:trigger log[k]} :: 0 <= k < p && log[k].Collect? && log[k].index < |outcomes| && outcomes[log[k].index].err.None?)
    ensures log[p].Collect? ==> exists k {:trigger log[k]} :: 0 <= k < p && log[k].Start? && log[k].index == log[p].index
    ensures log[p].Collect? ==> forall k {:trigger log[k]} :: 0 <= k < p && log[k].Collect? ==> log[k].index != log[p].index
    ensures !log[p].Start? ==> |Collected(log[..p])| < |Started(log[..p])|
  {
    assert Allowed(outcomes, log[..p], log[p]);
    var before := log[..p];
    assert forall k {:trigger log[k]} {:trigger before[k]} :: 0 <= k < p ==> before[k] == log[k];
    hide Allowed, Conforms, Started, Collected;
    if log[p].Collect? {
      StartedMember(before, log[p].index);
      forall k {:trigger log[k]} | 0 <= k < p && log[k].Collect?
        ensures log[k].index != log[p].index
      {
        CollectedMember(before, k);
      }
    }
  }

  lemma {:induction false} StartedMember(log: seq<Event>, i: nat)
    ensures i in Started(log) <==> exists k {:trigger log[k]} :: 0 <= k < |log| && log[k].Start? && log[k].index == i
  {
    if log != [] {
      var n := |log| - 1;
      StartedMember(log[..n], i);
      assert forall k {:trigger log[k]} :: 0 <= k < n ==> log[..n][k] == log[k];
      if i in Started(log[..n]) {
        var k :| 0 <= k < n && log[..n][k].Start? && log[..n][k].index == i;
        assert log[k].Start?;
      }
    }
  }

  lemma {:induction false} CollectedMember(log: seq<Event>, k: nat)
    requires k < |log| && log[k].Collect?
    ensures log[k].index in Collected(log)
  {
    if k < |log| - 1 {
      CollectedMember(log[..|log| - 1], k);
    }
  }

  lemma LogGrows<V>(outcomes: seq<Outcome<V>>, log: seq<Event>, e: Event)
    requires Conforms(outcomes, log) && Allowed(outcomes, log, e)
    ensures Conforms(outcomes, log + [e])
    ensures Started(log + [e]) == if e.Start? then Started(log) + [e.index] else Started(log)
    ensures Collected(log + [e]) == if e.Collect? then Collected(log) + [e.index] else Collected(log)
  {
    hide Allowed;
    var log' := log + [e];
    assert log'[..|log|] == log && log'[|log|] == e;
    forall p {:trigger log'[p]} | 0 <= p < |log'|
      ensures Allowed(outcomes, log'[..p], log'[p])
    {
      if p < |log| {
        assert log'[..p] == log[..p] && log'[p] == log[p];
      }
    }
  }

  lemma CanceledGrows<V>(outcomes: seq<Outcome<V>>, log: seq<Event>, e: Event)
    ensures Canceled(outcomes, log + [e]) <==>
              Canceled(outcomes, log) || (e.Collect? && e.index < |outcomes| && outcomes[e.index].err.None?)
  {
    var log' := log + [e];
    assert log'[|log|] == e;
    assert forall p {:trigger log[p]} {:trigger log'[p]} :: 0 <= p < |log| ==> log'[p] == log[p];
  }

  /** The collector. `inFlight` are the goroutines that have not written their result yet; which of
      them writes next, and when the ticker ticks, is arbitrary. The ticker holds at most one
      tick, and it may hold one after it was stopped. */
  method Map<V(==)>(outcomes: seq<Outcome<V>>)
      returns (results: seq<ErrorOr<V>>, log: seq<Event>, inFlight: set<nat>)
    ensures Conforms(outcomes, log)
    ensures Started(log) == UpTo(|outcomes|)
    ensures Permutation(|outcomes|, Collected(log))
    ensures ResultsOf(outcomes, Collected(log), results)
    ensures inFlight == {}
  {
    hide Allowed, Conforms, Started, Collected, Canceled, UpTo, InFlight, ResultsOf, Permutation, Collecting;
    var n := |outcomes|;
    var running, ticked, canceled := true, false, false;
    var idx := 0;
    results, log, inFlight := [], [], {};
    InitiallyCollecting(outcomes);
    while |results| < n
      invariant |results| <= idx <= n
      invariant Collecting(outcomes, idx, canceled, results, log, inFlight)
      invariant idx > 0 ==> log != [] && !log[|log| - 1].Start?
      decreases n - idx, n - |results|, if running then 2 else if ticked then 1 else 0
    {
      var ticks: bool, wakes: bool := *, *;
      ticked := ticked || (running && ticks);
      if idx < n {
        StartStep(outcomes, idx, canceled, results, log, inFlight);
        log := log + [Start(idx, canceled)];
        inFlight := inFlight + {idx};
        idx := idx + 1;
      } else {
        running := false;
      }
      SomeInFlight(outcomes, idx, canceled, results, log, inFlight);
      if ticked && wakes {
        TickStep(outcomes, idx, canceled, results, log, inFlight);
        log := log + [Tick];
        ticked := false;
      } else {
        var i :| i in inFlight;
        CollectStep(outcomes, idx, canceled, results, log, inFlight, i);
        log := log + [Collect(i)];
        inFlight := inFlight - {i};
        results := results + [ResultOf(outcomes, i)];
        if outcomes[i].err.None? {
          running := false;
          canceled := true;
        }
      }
    }
    AllCollected(outcomes, canceled, results, log, inFlight);
  }

  /** The collector's invariant. */
  predicate Collecting<V(==)>(outcomes: seq<Outcome<V>>, idx: nat, canceled: bool, results: seq<ErrorOr<V>>,
                              log: seq<Event>, inFlight: set<nat>) {
    && idx <= |outcomes|
    && Conforms(outcomes, log)
    && (idx == 0 ==> log == [])
    && canceled == Canceled(outcomes, log)
    && Started(log) == UpTo(idx)
    && ResultsOf(outcomes, Collected(log), results)
    && InFlight(idx, Collected(log), inFlight)
  }

  lemma InitiallyCollecting<V>(outcomes: seq<Outcome<V>>)
    ensures Collecting(outcomes, 0, false, [], [], {})
  {
  }

  lemma StartStep<V>(outcomes: seq<Outcome<V>>, idx: nat, canceled: bool, results: seq<ErrorOr<V>>,
                     log: seq<Event>, inFlight: set<nat>)
    requires Collecting(outcomes, idx, canceled, results, log, inFlight) && idx < |outcomes|
    requires idx > 0 ==> log != [] && !log[|log| - 1].Start?
    ensures Collecting(outcomes, idx + 1, canceled, results, log + [Start(idx, canceled)], inFlight + {idx})
  {
    hide Allowed, Conforms, Started, Collected, Canceled, UpTo, ResultsOf, InFlight;
    StartIsAllowed(outcomes, log, idx, canceled);
    LogGrows(outcomes, log, Start(idx, canceled));
    CanceledGrows(outcomes, log, Start(idx, canceled));
    StartKeepsInFlight(idx, Collected(log), inFlight);
  }

  lemma SomeInFlight<V>(outcomes: seq<Outcome<V>>, idx: nat, canceled: bool, results: seq<ErrorOr<V>>,
                        log: seq<Event>, inFlight: set<nat>)
    requires Collecting(outcomes, idx, canceled, results, log, inFlight) && |results| < idx
    ensures inFlight != {}
  {
    hide Conforms, Started, Collected, Canceled;
    InFlightCount(idx, Collected(log), inFlight);
  }

  lemma TickStep<V>(outcomes: seq<Outcome<V>>, idx: nat, canceled: bool, results: seq<ErrorOr<V>>,
                    log: seq<Event>, inFlight: set<nat>)
    requires Collecting(outcomes, idx, canceled, results, log, inFlight) && |results| < idx
    ensures Collecting(outcomes, idx, canceled, results, log + [Tick], inFlight)
  {
    hide Allowed, Conforms, Started, Collected, Canceled, UpTo, InFlight;
    TickIsAllowed(outcomes, log, idx);
    LogGrows(outcomes, log, Tick);
    CanceledGrows(outcomes, log, Tick);
  }

  lemma CollectStep<V>(outcomes: seq<Outcome<V>>, idx: nat, canceled: bool, results: seq<ErrorOr<V>>,
                       log: seq<Event>, inFlight: set<nat>, i: nat)
    requires Collecting(outcomes, idx, canceled, results, log, inFlight) && |results| < idx && i in inFlight
    ensures i < |outcomes|
    ensures Collecting(outcomes, idx, canceled || outcomes[i].err.None?,
                       results + [ResultOf(outcomes, i)], log + [Collect(i)], inFlight - {i})
  {
    hide Allowed, Conforms, Started, Collected, Canceled, UpTo;
    CollectIsAllowed(outcomes, log, idx, i, inFlight);
    LogGrows(outcomes, log, Collect(i));
    CanceledGrows(outcomes, log, Collect(i));
    CollectKeepsInFlight(idx, Collected(log), inFlight, i);
    CollectKeepsResults(outcomes, Collected(log), results, i);
  }

  lemma AllCollected<V>(outcomes: seq<Outcome<V>>, canceled: bool, results: seq<ErrorOr<V>>,
                        log: seq<Event>, inFlight: set<nat>)
    requires Collecting(outcomes, |outcomes|, canceled, results, log, inFlight) && |results| == |outcomes|
    ensures Conforms(outcomes, log) && Started(log) == UpTo(|outcomes|) && ResultsOf(outcomes, Collected(log), results)
    ensures Permutation(|outcomes|, Collected(log)) && inFlight == {}
  {
    hide Conforms, Started, Collected, Canceled, UpTo;
    InFlightCount(|outcomes|, Collected(log), inFlight);
  }

  /** Of `idx` started calls each was either collected, once, or is in flight. */
  predicate InFlight(idx: nat, collected: seq<nat>, inFlight: set<nat>) {
    && (forall j, k :: 0 <= j < k < |collected| ==> collected[j] != collected[k])
    && (forall i :: i in inFlight ==> i < idx && i !in collected)
    && (forall k :: 0 <= k < |collected| ==> collected[k] < idx)
    && (forall i :: 0 <= i < idx ==> i in inFlight || i in collected)
  }

  lemma StartKeepsInFlight(idx: nat, collected: seq<nat>, inFlight: set<nat>)
    requires InFlight(idx, collected, inFlight)
    ensures InFlight(idx + 1, collected, inFlight + {idx})
  {
  }

  lemma CollectKeepsInFlight(idx: nat, collected: seq<nat>, inFlight: set<nat>, i: nat)
    requires InFlight(idx, collected, inFlight) && i in inFlight
    ensures InFlight(idx, collected + [i], inFlight - {i})
  {
  }

  lemma CollectKeepsResults<V>(outcomes: seq<Outcome<V>>, collected: seq<nat>, results: seq<ErrorOr<V>>, i: nat)
    requires ResultsOf(outcomes, collected, results) && i < |outcomes|
    ensures ResultsOf(outcomes, collected + [i], results + [ResultOf(outcomes, i)])
  {
    var r := ErrorOr(outcomes[i].err, i, outcomes[i].value);
    var collected', results' := collected + [i], results + [r];
    forall k {:trigger results'[k]} {:trigger collected'[k]} | 0 <= k < |results'|
      ensures collected'[k] < |outcomes| && results'[k] == ResultOf(outcomes, collected'[k])
    {
      if k < |results| {
        assert results'[k] == results[k] && collected'[k] == collected[k];
      }
    }
  }

  /** In flight are the started less the collected calls. */
  lemma {:induction false} InFlightCount(idx: nat, collected: seq<nat>, inFlight: set<nat>)
    requires InFlight(idx, collected, inFlight)
    ensures |inFlight| == idx - |collected|
    ensures inFlight == {} <==> |collected| == idx
  {
    if collected == [] {
      CountBelow(idx, inFlight);
    } else {
      var n := |collected| - 1;
      assert collected == collected[..n] + [collected[n]];
      assert InFlight(idx, collected[..n], inFlight + {collected[n]}) by {
        forall i | 0 <= i < idx
          ensures i in inFlight + {collected[n]} || i in collected[..n]
        {
        }
      }
      InFlightCount(idx, collected[..n], inFlight + {collected[n]});
    }
  }

  lemma {:induction false} CountBelow(n: nat, s: set<nat>)
    requires forall i: nat :: i in s <==> i < n
    ensures |s| == n
  {
    if n > 0 {
      CountBelow(n - 1, s - {n - 1});
    }
  }

  lemma StartIsAllowed<V>(outcomes: seq<Outcome<V>>, log: seq<Event>, idx: nat, canceled: bool)
    requires idx > 0 ==> log != [] && !log[|log| - 1].Start?
    requires idx == 0 ==> log == []
    requires canceled == Canceled(outcomes, log) && Started(log) == UpTo(idx)
    ensures Allowed(outcomes, log, Start(idx, canceled))
    ensures UpTo(idx + 1) == UpTo(idx) + [idx]
  {
  }

  lemma TickIsAllowed<V>(outcomes: seq<Outcome<V>>, log: seq<Event>, idx: nat)
    requires Started(log) == UpTo(idx) && |Collected(log)| < idx
    ensures Allowed(outcomes, log, Tick)
  {
  }

  lemma CollectIsAllowed<V>(outcomes: seq<Outcome<V>>, log: seq<Event>, idx: nat, i: nat, inFlight: set<nat>)
    requires Started(log) == UpTo(idx) && |Collected(log)| < idx
    requires InFlight(idx, Collected(log), inFlight) && i in inFlight
    ensures Allowed(outcomes, log, Collect(i))
  {
    assert UpTo(idx)[i] == i;
  }

  /** The first success by order of arrival, or all the errors in that order. */
  method OverlappedReduce<V>(results: seq<ErrorOr<V>>, zero: V) returns (value: V, index: nat, err: Option<seq<Error>>)
    ensures err.None? ==> exists k: nat :: FirstSuccess(results, k) && value == results[k].value && index == results[k].index
    ensures err.Some? ==>
      && (forall k :: 0 <= k < |results| ==> results[k].err.Some?)
      && value == zero && index == 0
      && (results == [] ==> err.value == [GENERIC_FAILURE])
      && (results != [] ==> |err.value| == |results| && forall k :: 0 <= k < |results| ==> results[k].err == Some(err.value[k]))
  {
    var errorv: seq<Error> := [];
    var k := 0;
    while k < |results|
      invariant 0 <= k == |errorv| <= |results|
      invariant forall j :: 0 <= j < k ==> results[j].err == Some(errorv[j])
    {
      if results[k].err.None? {
        assert FirstSuccess(results, k);
        return results[k].value, results[k].index, None;
      }
      errorv := errorv + [results[k].err.value];
      k := k + 1;
    }
    if |errorv| <= 0 {
      errorv := errorv + [GENERIC_FAILURE];
    }
    return zero, 0, Some(errorv);
  }

  predicate FirstSuccess<V>(results: seq<ErrorOr<V>>, k: nat) {
    k < |results| && results[k].err.None? && forall j :: 0 <= j < k ==> results[j].err.Some?
  }

  /** Running fails exactly when no endpoint succeeds; otherwise the value is the one of the success
      that arrived first, under its own index. Nothing is left running. */
  method Run<V(==)>(outcomes: seq<Outcome<V>>, zero: V)
      returns (value: V, index: nat, err: Option<seq<Error>>, log: seq<Event>, inFlight: set<nat>)
    ensures Conforms(outcomes, log) && Started(log) == UpTo(|outcomes|) && Permutation(|outcomes|, Collected(log))
    ensures inFlight == {}
    ensures err.Some? <==> forall i :: 0 <= i < |outcomes| ==> outcomes[i].err.Some?
    ensures err.None? ==>
      && index < |outcomes| && value == outcomes[index].value
      && exists k :: 0 <= k < |outcomes| && Collected(log)[k] == index && outcomes[index].err.None?
                     && forall j :: 0 <= j < k ==> Collected(log)[j] < |outcomes| && outcomes[Collected(log)[j]].err.Some?
    ensures err.Some? && outcomes == [] ==> err.value == [GENERIC_FAILURE]
    ensures err.Some? && outcomes != [] ==>
      && |err.value| == |outcomes|
      && forall k :: 0 <= k < |outcomes| ==>
           Collected(log)[k] < |outcomes| && outcomes[Collected(log)[k]].err == Some(err.value[k])
  {
    hide Conforms, Started, Collected, UpTo;
    var results;
    results, log, inFlight := Map(outcomes);
    value, index, err := OverlappedReduce(results, zero);
    ghost var order := Collected(log);
    if err.None? {
      var k: nat :| FirstSuccess(results, k) && value == results[k].value && index == results[k].index;
      assert order[k] == index;
      forall j | 0 <= j < k
        ensures order[j] < |outcomes| && outcomes[order[j]].err.Some?
      {
        assert results[j].err == outcomes[order[j]].err;
      }
    } else {
      forall i | 0 <= i < |outcomes|
        ensures outcomes[i].err.Some?
      {
        assert i in order;
        var k :| 0 <= k < |order| && order[k] == i;
        assert results[k].err.Some?;
      }
    }
  }
}
