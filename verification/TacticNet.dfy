/** The tree of goroutines that produces tactics: one goroutine per policy and per filter, joined by
    unbuffered channels. A goroutine runs until it is blocked on a channel, and any goroutine may
    take the next step. The theorems say that scheduling does not matter: whatever the order of
    steps, the reader receives the stream that `Network` and `Filter` define, every goroutine
    finishes, and there is always a step to take. */
module TacticNet {
  import opened Optional
  import opened Tactics
  import opened HappyEyeballs
  import opened MixPolicy
  import opened Network
  import F = Filter
  import H = TestHelpersPolicy

  type Msg = Option<Tactic>

  // ----- filters as machines that read one message at a time

  datatype Stage = DropNil | KeepUnique(seen: set<string>) | AssignDelays(index: nat)

  /** The filter after reading `x`, and what it sends because of it. */
  function StageStep(st: Stage, x: Msg): (r: (Stage, seq<Msg>))
    ensures |r.1| <= 1 && (r.1 != [] ==> r.1[0].Some?)
  {
    if x.None? then (st, [])
    else
      match st
      case DropNil => (st, [x])
      case KeepUnique(seen) =>
        var key := x.value.SummaryKey();
        if key in seen then (st, []) else (KeepUnique(seen + {key}), [x])
      case AssignDelays(index) =>
        (AssignDelays(index + 1), [Some(x.value.(initialDelay := HappyEyeballsDelay(index)))])
  }

  function RunStage(st: Stage, input: seq<Msg>): seq<Msg>
    decreases |input|
  {
    if input == [] then []
    else
      var step := StageStep(st, input[0]);
      step.1 + RunStage(step.0, input[1..])
  }

  // ----- the goroutines

  /** `slot` holds the message that a goroutine is blocked sending; `done` means that it has closed
      its channel and returned. */
  datatype Net =
    | Leaf(started: bool, watchesCtx: bool, items: seq<Msg>)
    | Filter(stage: Stage, slot: seq<Msg>, done: bool, up: Net)
    | Helpers(order: nat -> seq<string>, slot: seq<Msg>, todo: seq<Tactic>, drained: bool, queue: seq<Msg>,
              done: bool, child: Net)
    | Mix(n: nat, onPrimary: bool, taken: nat, pOpen: bool, fOpen: bool, slot: seq<Msg>, done: bool,
          primary: Net, fallback: Net)
    | Either(any: bool, onFallback: bool, slot: seq<Msg>, done: bool, primary: Net, fallback: Net)

  /** What can be received from the net's output channel now. */
  function Offer(a: Net): seq<Msg> {
    match a
    case Leaf(started, _, items) => if started && items != [] then [items[0]] else []
    case _ => a.slot
  }

  function Take(a: Net): Net
    requires Offer(a) != []
  {
    match a
    case Leaf(started, watchesCtx, items) => Leaf(started, watchesCtx, items[1..])
    case Filter(stage, _, done, up) => Filter(stage, [], done, up)
    case Helpers(order, _, todo, drained, queue, done, child) => Helpers(order, [], todo, drained, queue, done, child)
    case Mix(n, onPrimary, taken, pOpen, fOpen, _, done, primary, fallback) =>
      Mix(n, onPrimary, taken, pOpen, fOpen, [], done, primary, fallback)
    case Either(any, onFallback, _, done, primary, fallback) => Either(any, onFallback, [], done, primary, fallback)
  }

  /** Whether the output channel is closed. */
  predicate Closed(a: Net) {
    match a
    case Leaf(started, _, items) => started && items == []
    case _ => a.done
  }

  /** The next step of the topmost goroutine, if it is not blocked. */
  function OwnStep(a: Net): Option<Net> {
    match a
    case Leaf(_, _, _) => None
    case Filter(stage, slot, done, up) =>
      if done || slot != [] then None
      else if Closed(up) then Some(Filter(stage, [], true, up))
      else if Offer(up) != [] then
        var step := StageStep(stage, Offer(up)[0]);
        Some(Filter(step.0, step.1, false, Take(up)))
      else None
    case Helpers(order, slot, todo, drained, queue, done, child) =>
      if done || slot != [] then None
      else if drained then
        if queue == [] then Some(Helpers(order, [], todo, true, [], true, child))
        else Some(Helpers(order, [queue[0]], todo, true, queue[1..], false, child))
      else if Closed(child) then
        Some(Helpers(order, [], todo, true, Pointers(H.Extensions(todo, order)), false, child))
      else if Offer(child) != [] then
        var x := Offer(child)[0];
        Some(Helpers(order, [x], todo + H.ToExtend(F.NonNil([x])), false, queue, false, Take(child)))
      else None
    case Mix(n, onPrimary, taken, pOpen, fOpen, slot, done, primary, fallback) =>
      if done || slot != [] then None
      else if onPrimary then
        if taken == 0 && !pOpen && !fOpen then Some(Mix(n, true, 0, false, false, [], true, primary, fallback))
        else if !pOpen || taken == n then Some(Mix(n, false, 0, pOpen, fOpen, [], false, primary, fallback))
        else if Closed(primary) then Some(Mix(n, false, 0, false, fOpen, [], false, primary, fallback))
        else if Offer(primary) != [] then
          Some(Mix(n, true, taken + 1, pOpen, fOpen, [Offer(primary)[0]], false, Take(primary), fallback))
        else None
      else
        if !fOpen || taken == n then Some(Mix(n, true, 0, pOpen, fOpen, [], false, primary, fallback))
        else if Closed(fallback) then Some(Mix(n, true, 0, pOpen, false, [], false, primary, fallback))
        else if Offer(fallback) != [] then
          Some(Mix(n, false, taken + 1, pOpen, fOpen, [Offer(fallback)[0]], false, primary, Take(fallback)))
        else None
    case Either(any, onFallback, slot, done, primary, fallback) =>
      if done || slot != [] then None
      else if !onFallback then
        if Closed(primary) then
          Some(if any then Either(true, false, [], true, primary, fallback)
               else Either(false, true, [], false, primary, fallback))
        else if Offer(primary) != [] then
          Some(Either(true, false, [Offer(primary)[0]], false, Take(primary), fallback))
        else None
      else
        if Closed(fallback) then Some(Either(any, true, [], true, primary, fallback))
        else if Offer(fallback) != [] then
          Some(Either(any, true, [Offer(fallback)[0]], false, primary, Take(fallback)))
        else None
  }

  /** One step of some goroutine of the tree. The DNS policy looks at the context before it
      resolves, and its lookup fails when the context is canceled meanwhile. The fallback of an
      either-or runs only after its primary gave nothing. */
  ghost predicate Internal(a: Net, b: Net, cancelled: bool)
    decreases a
  {
    || OwnStep(a) == Some(b)
    || match a
       case Leaf(started, watchesCtx, items) =>
         && !started
         && (b == Leaf(true, watchesCtx, items) || (watchesCtx && cancelled && b == Leaf(true, watchesCtx, [])))
       case Filter(stage, slot, done, up) =>
         b.Filter? && b == Filter(stage, slot, done, b.up) && Internal(up, b.up, cancelled)
       case Helpers(order, slot, todo, drained, queue, done, child) =>
         && b.Helpers? && b == Helpers(order, slot, todo, drained, queue, done, b.child)
         && Internal(child, b.child, cancelled)
       case Mix(n, onPrimary, taken, pOpen, fOpen, slot, done, primary, fallback) =>
         && b.Mix? && b == Mix(n, onPrimary, taken, pOpen, fOpen, slot, done, b.primary, b.fallback)
         && (|| (b.fallback == fallback && Internal(primary, b.primary, cancelled))
             || (b.primary == primary && Internal(fallback, b.fallback, cancelled)))
       case Either(any, onFallback, slot, done, primary, fallback) =>
         && b.Either? && b == Either(any, onFallback, slot, done, b.primary, b.fallback)
         && (if onFallback then b.primary == primary && Internal(fallback, b.fallback, cancelled)
             else b.fallback == fallback && Internal(primary, b.primary, cancelled))
  }

  /** What holds in every state of the tree. */
  predicate Valid(a: Net)
    decreases a
  {
    match a
    case Leaf(_, _, _) => true
    case Filter(_, slot, done, up) =>
      && |slot| <= 1 && (slot != [] ==> slot[0].Some?)
      && (done ==> slot == [] && Closed(up)) && Valid(up)
    case Helpers(_, slot, _, drained, queue, done, child) =>
      && |slot| <= 1 && child.Leaf?
      && (drained ==> Closed(child))
      && (done ==> slot == [] && drained && queue == [])
    case Mix(n, onPrimary, taken, pOpen, fOpen, slot, done, primary, fallback) =>
      && n >= 1 && |slot| <= 1 && taken <= n
      && (!pOpen ==> Closed(primary)) && (!fOpen ==> Closed(fallback))
      && (done ==> slot == [] && !pOpen && !fOpen)
      && Valid(primary) && Valid(fallback)
    case Either(any, onFallback, slot, done, primary, fallback) =>
      && |slot| <= 1
      && (onFallback ==> !any && Closed(primary))
      && (!onFallback && slot != [] ==> any)
      && (done ==> slot == [] && Closed(primary) && (any || (onFallback && Closed(fallback))))
      && Valid(primary) && Valid(fallback)
  }

  // ----- the stream that is still to come

  /** The rest of an interleaving in the middle of a batch. */
  function MixRest(n: nat, onPrimary: bool, taken: nat, p: seq<Msg>, f: seq<Msg>): seq<Msg>
    requires n >= 1 && taken <= n
  {
    var left := n - taken;
    if onPrimary then
      var i, j := Min(left, |p|), Min(n, |f|);
      p[..i] + (f[..j] + Interleave(p[i..], f[j..], n))
    else
      var j := Min(left, |f|);
      f[..j] + Interleave(p, f[j..], n)
  }

  function HelpersRest(todo: seq<Tactic>, order: nat -> seq<string>, rest: seq<Msg>): seq<Msg> {
    rest + Pointers(H.Extensions(todo + H.ToExtend(F.NonNil(rest)), order))
  }

  function Flow(a: Net): seq<Msg>
    requires Valid(a)
    decreases a
  {
    match a
    case Leaf(_, _, items) => items
    case Filter(stage, slot, _, up) => slot + RunStage(stage, Flow(up))
    case Helpers(order, slot, todo, drained, queue, _, child) =>
      slot + (if drained then queue else HelpersRest(todo, order, child.items))
    case Mix(n, onPrimary, taken, _, _, slot, _, primary, fallback) =>
      slot + MixRest(n, onPrimary, taken, Flow(primary), Flow(fallback))
    case Either(any, onFallback, slot, _, primary, fallback) =>
      slot + (if onFallback then Flow(fallback)
              else if any then Flow(primary)
              else EitherOr(Flow(primary), Flow(fallback)))
  }

  // ----- receiving from a net

  lemma {:induction false} ClosedHasNothingToCome(a: Net)
    requires Valid(a) && Closed(a)
    ensures Flow(a) == []
    decreases a
  {
    match a
    case Leaf(_, _, _) =>
    case Filter(_, _, _, up) => ClosedHasNothingToCome(up);
    case Helpers(_, _, _, _, _, _, _) =>
    case Mix(n, onPrimary, taken, _, _, _, _, primary, fallback) =>
      ClosedHasNothingToCome(primary);
      ClosedHasNothingToCome(fallback);
    case Either(any, onFallback, _, _, primary, fallback) =>
      ClosedHasNothingToCome(primary);
      if onFallback {
        ClosedHasNothingToCome(fallback);
      }
  }

  /** Receiving gives the head of the stream to come. */
  lemma TakeGivesTheHead(a: Net)
    requires Valid(a) && Offer(a) != []
    ensures Valid(Take(a)) && Flow(a) == [Offer(a)[0]] + Flow(Take(a))
  {
    hide RunStage, MixRest, HelpersRest, EitherOr;
    match a
    case Leaf(_, _, items) => assert items == [items[0]] + items[1..];
    case Filter(_, slot, _, _) => assert slot == [slot[0]];
    case Helpers(_, slot, _, _, _, _, _) => assert slot == [slot[0]];
    case Mix(_, _, _, _, _, slot, _, _, _) => assert slot == [slot[0]];
    case Either(_, _, slot, _, _, _) => assert slot == [slot[0]];
  }

  // ----- a step of one goroutine leaves the stream to come unchanged

  lemma {:induction false} NonNilAppend(a: seq<Msg>, b: seq<Msg>)
    ensures F.NonNil(a + b) == F.NonNil(a) + F.NonNil(b)
    decreases |b|
  {
    if b == [] {
      assert a + b == a;
    } else {
      var n := |b| - 1;
      NonNilAppend(a, b[..n]);
      assert (a + b)[..|a + b| - 1] == a + b[..n];
    }
  }

  lemma {:induction false} ToExtendAppend(a: seq<Tactic>, b: seq<Tactic>)
    ensures H.ToExtend(a + b) == H.ToExtend(a) + H.ToExtend(b)
    decreases |b|
  {
    hide H.IsTestHelper;
    if b == [] {
      assert a + b == a;
    } else {
      var n := |b| - 1;
      ToExtendAppend(a, b[..n]);
      assert (a + b)[..|a + b| - 1] == a + b[..n];
    }
  }

  lemma HelpersRead(todo: seq<Tactic>, order: nat -> seq<string>, rest: seq<Msg>)
    requires rest != []
    ensures HelpersRest(todo, order, rest) ==
            [rest[0]] + HelpersRest(todo + H.ToExtend(F.NonNil([rest[0]])), order, rest[1..])
  {
    hide H.ToExtend, F.NonNil, H.Extensions;
    var x, rest' := [rest[0]], rest[1..];
    assert rest == x + rest';
    NonNilAppend(x, rest');
    ToExtendAppend(F.NonNil(x), F.NonNil(rest'));
    assert todo + H.ToExtend(F.NonNil(rest)) == todo + H.ToExtend(F.NonNil(x)) + H.ToExtend(F.NonNil(rest'));
  }

  lemma HelpersAtEnd(todo: seq<Tactic>, order: nat -> seq<string>)
    ensures HelpersRest(todo, order, []) == Pointers(H.Extensions(todo, order))
  {
    hide H.Extensions;
    assert todo + H.ToExtend(F.NonNil([])) == todo;
  }

  lemma MixReadPrimary(n: nat, taken: nat, p: seq<Msg>, f: seq<Msg>)
    requires n >= 1 && taken < n && p != []
    ensures MixRest(n, true, taken, p, f) == [p[0]] + MixRest(n, true, taken + 1, p[1..], f)
  {
    hide Interleave;
    var i, j := Min(n - taken, |p|), Min(n, |f|);
    assert Min(n - (taken + 1), |p[1..]|) == i - 1;
    assert p[..i] == [p[0]] + p[1..][..i - 1];
    assert p[i..] == p[1..][i - 1..];
    var rest := f[..j] + Interleave(p[i..], f[j..], n);
    assert p[..i] + rest == [p[0]] + (p[1..][..i - 1] + rest);
  }

  lemma MixReadFallback(n: nat, taken: nat, p: seq<Msg>, f: seq<Msg>)
    requires n >= 1 && taken < n && f != []
    ensures MixRest(n, false, taken, p, f) == [f[0]] + MixRest(n, false, taken + 1, p, f[1..])
  {
    hide Interleave;
    var j := Min(n - taken, |f|);
    assert Min(n - (taken + 1), |f[1..]|) == j - 1;
    assert f[..j] == [f[0]] + f[1..][..j - 1];
    assert f[j..] == f[1..][j - 1..];
    var rest := Interleave(p, f[j..], n);
    assert f[..j] + rest == [f[0]] + (f[1..][..j - 1] + rest);
  }

  lemma MixSwitch(n: nat, taken: nat, p: seq<Msg>, f: seq<Msg>)
    requires n >= 1 && taken <= n
    ensures taken == n || p == [] ==> MixRest(n, true, taken, p, f) == MixRest(n, false, 0, p, f)
    ensures taken == n || f == [] ==> MixRest(n, false, taken, p, f) == MixRest(n, true, 0, p, f)
  {
    hide Interleave;
    InterleaveUnfold(p, f, n);
    var i, j := Min(n, |p|), Min(n, |f|);
    var rest := Interleave(p[i..], f[j..], n);
    assert p[..0] == [] && f[..0] == [] && f[0..] == f && p[0..] == p;
    assert p[..i] + f[..j] + rest == p[..i] + (f[..j] + rest);
    assert MixRest(n, true, 0, p, f) == p[..i] + (f[..j] + rest);
    if taken == n || p == [] {
      assert [] + (f[..j] + Interleave(p, f[j..], n)) == f[..j] + Interleave(p, f[j..], n);
    }
    if taken == n || f == [] {
      assert [] + Interleave(p, f, n) == Interleave(p, f, n);
    }
  }

  lemma MixStart(n: nat, p: seq<Msg>, f: seq<Msg>)
    requires n >= 1
    ensures MixRest(n, true, 0, p, f) == Interleave(p, f, n)
  {
    hide Interleave;
    InterleaveUnfold(p, f, n);
  }

  lemma OwnStepOfFilter(a: Net)
    requires a.Filter? && Valid(a) && OwnStep(a).Some?
    ensures Valid(OwnStep(a).value) && Flow(OwnStep(a).value) == Flow(a)
  {
    hide StageStep;
    if Closed(a.up) {
    } else {
      TakeGivesTheHead(a.up);
      var x, rest := Offer(a.up)[0], Flow(Take(a.up));
      assert ([x] + rest)[1..] == rest;
      var step := StageStep(a.stage, x);
      assert RunStage(a.stage, [x] + rest) == step.1 + RunStage(step.0, rest);
    }
  }

  lemma OwnStepOfHelpers(a: Net)
    requires a.Helpers? && Valid(a) && OwnStep(a).Some?
    ensures Valid(OwnStep(a).value) && Flow(OwnStep(a).value) == Flow(a)
  {
    hide HelpersRest, H.Extensions, H.ToExtend, F.NonNil;
    if a.drained {
    } else if Closed(a.child) {
      HelpersAtEnd(a.todo, a.order);
    } else {
      HelpersRead(a.todo, a.order, a.child.items);
    }
  }

  lemma OwnStepOfMix(a: Net)
    requires a.Mix? && Valid(a) && OwnStep(a).Some?
    ensures Valid(OwnStep(a).value) && Flow(OwnStep(a).value) == Flow(a)
  {
    hide MixRest;
    var p, f := Flow(a.primary), Flow(a.fallback);
    MixSwitch(a.n, a.taken, p, f);
    if Closed(a.primary) {
      ClosedHasNothingToCome(a.primary);
    }
    if Closed(a.fallback) {
      ClosedHasNothingToCome(a.fallback);
    }
    if a.onPrimary && a.taken < a.n && Offer(a.primary) != [] {
      TakeGivesTheHead(a.primary);
      MixReadPrimary(a.n, a.taken, p, f);
    }
    if !a.onPrimary && a.taken < a.n && Offer(a.fallback) != [] {
      TakeGivesTheHead(a.fallback);
      MixReadFallback(a.n, a.taken, p, f);
    }
  }

  lemma OwnStepOfEither(a: Net)
    requires a.Either? && Valid(a) && OwnStep(a).Some?
    ensures Valid(OwnStep(a).value) && Flow(OwnStep(a).value) == Flow(a)
  {
    if !a.onFallback {
      if Closed(a.primary) {
        ClosedHasNothingToCome(a.primary);
      } else {
        TakeGivesTheHead(a.primary);
      }
    } else {
      if Closed(a.fallback) {
        ClosedHasNothingToCome(a.fallback);
      } else {
        TakeGivesTheHead(a.fallback);
      }
    }
  }

  lemma OwnStepKeepsFlow(a: Net)
    requires Valid(a) && OwnStep(a).Some?
    ensures Valid(OwnStep(a).value) && Flow(OwnStep(a).value) == Flow(a)
  {
    match a
    case Filter(_, _, _, _) => OwnStepOfFilter(a);
    case Helpers(_, _, _, _, _, _, _) => OwnStepOfHelpers(a);
    case Mix(_, _, _, _, _, _, _, _, _) => OwnStepOfMix(a);
    case Either(_, _, _, _, _, _) => OwnStepOfEither(a);
  }

  // ----- the theorems

  /** Once the output channel is closed, every goroutine of the tree has returned: none is left
      that could take a step. */
  lemma {:induction false} ClosedNetHasStopped(a: Net, b: Net, cancelled: bool)
    requires Valid(a) && Closed(a)
    ensures !Internal(a, b, cancelled)
    decreases a
  {
    match a
    case Leaf(_, _, _) =>
    case Filter(_, _, _, up) =>
      if b.Filter? { ClosedNetHasStopped(up, b.up, cancelled); }
    case Helpers(_, _, _, _, _, _, child) =>
      if b.Helpers? { ClosedNetHasStopped(child, b.child, cancelled); }
    case Mix(_, _, _, _, _, _, _, primary, fallback) =>
      if b.Mix? {
        ClosedNetHasStopped(primary, b.primary, cancelled);
        ClosedNetHasStopped(fallback, b.fallback, cancelled);
      }
    case Either(_, onFallback, _, _, primary, fallback) =>
      if b.Either? {
        ClosedNetHasStopped(primary, b.primary, cancelled);
        if onFallback { ClosedNetHasStopped(fallback, b.fallback, cancelled); }
      }
  }

  /** Every step keeps the tree valid and, unless the context is canceled, the stream to come. */
  lemma {:induction false} InternalKeepsFlow(a: Net, b: Net, cancelled: bool)
    requires Valid(a) && Internal(a, b, cancelled)
    ensures Valid(b)
    ensures !cancelled ==> Flow(b) == Flow(a)
    decreases a
  {
    if OwnStep(a) == Some(b) {
      OwnStepKeepsFlow(a);
    } else {
      hide OwnStep;
      match a
      case Leaf(_, _, _) =>
      case Filter(_, _, _, up) =>
        if Closed(up) { ClosedNetHasStopped(up, b.up, cancelled); }
        InternalKeepsFlow(up, b.up, cancelled);
      case Helpers(_, _, _, _, _, _, child) =>
        if Closed(child) { ClosedNetHasStopped(child, b.child, cancelled); }
        InternalKeepsFlow(child, b.child, cancelled);
      case Mix(_, _, _, _, _, _, _, primary, fallback) =>
        MixChildStep(a, b, cancelled);
      case Either(_, onFallback, _, _, primary, fallback) =>
        if onFallback {
          if Closed(fallback) { ClosedNetHasStopped(fallback, b.fallback, cancelled); }
          InternalKeepsFlow(fallback, b.fallback, cancelled);
        } else {
          if Closed(primary) { ClosedNetHasStopped(primary, b.primary, cancelled); }
          InternalKeepsFlow(primary, b.primary, cancelled);
        }
    }
  }

  lemma {:induction false} MixChildStep(a: Net, b: Net, cancelled: bool)
    requires a.Mix? && Valid(a) && Internal(a, b, cancelled) && OwnStep(a) != Some(b)
    ensures Valid(b)
    ensures !cancelled ==> Flow(b) == Flow(a)
    decreases a, 0
  {
    hide OwnStep, MixRest;
    if b.fallback == a.fallback && Internal(a.primary, b.primary, cancelled) {
      if Closed(a.primary) { ClosedNetHasStopped(a.primary, b.primary, cancelled); }
      InternalKeepsFlow(a.primary, b.primary, cancelled);
    } else {
      if Closed(a.fallback) { ClosedNetHasStopped(a.fallback, b.fallback, cancelled); }
      InternalKeepsFlow(a.fallback, b.fallback, cancelled);
    }
  }

  /** As long as nothing can be received and the output is not closed, some goroutine can run. */
  lemma {:induction false} NetNeverStuck(a: Net, cancelled: bool) returns (b: Net)
    requires Valid(a) && !Closed(a) && Offer(a) == []
    ensures Internal(a, b, cancelled)
    decreases a
  {
    match a
    case Leaf(started, watchesCtx, items) =>
      b := Leaf(true, watchesCtx, items);
    case Filter(stage, slot, done, up) =>
      if OwnStep(a).Some? {
        b := OwnStep(a).value;
      } else {
        var up' := NetNeverStuck(up, cancelled);
        b := Filter(stage, slot, done, up');
      }
    case Helpers(order, slot, todo, drained, queue, done, child) =>
      if OwnStep(a).Some? {
        b := OwnStep(a).value;
      } else {
        var child' := NetNeverStuck(child, cancelled);
        b := Helpers(order, slot, todo, drained, queue, done, child');
      }
    case Mix(n, onPrimary, taken, pOpen, fOpen, slot, done, primary, fallback) =>
      if OwnStep(a).Some? {
        b := OwnStep(a).value;
      } else if onPrimary {
        var primary' := NetNeverStuck(primary, cancelled);
        b := Mix(n, onPrimary, taken, pOpen, fOpen, slot, done, primary', fallback);
      } else {
        var fallback' := NetNeverStuck(fallback, cancelled);
        b := Mix(n, onPrimary, taken, pOpen, fOpen, slot, done, primary, fallback');
      }
    case Either(any, onFallback, slot, done, primary, fallback) =>
      if OwnStep(a).Some? {
        b := OwnStep(a).value;
      } else if onFallback {
        var fallback' := NetNeverStuck(fallback, cancelled);
        b := Either(any, onFallback, slot, done, primary, fallback');
      } else {
        var primary' := NetNeverStuck(primary, cancelled);
        b := Either(any, onFallback, slot, done, primary', fallback);
      }
  }

  /** How often a mixing goroutine can still change sides before it must read or finish. */
  function Switches(onPrimary: bool, taken: nat, pOpen: bool, fOpen: bool): nat {
    if taken > 0 then 2
    else if onPrimary then (if !pOpen && fOpen then 1 else 0)
    else (if fOpen then 0 else 1)
  }

  function Flag(b: bool): nat { if b then 1 else 0 }

  /** An upper bound on the number of steps and receptions that are left. */
  function Work(a: Net): nat
    decreases a
  {
    match a
    case Leaf(started, _, items) => Flag(!started) + |items|
    case Filter(_, slot, done, up) => |slot| + Flag(!done) + 2 * Work(up)
    case Helpers(order, slot, todo, drained, queue, done, child) =>
      |slot| + Flag(!done) +
      (if drained || !child.Leaf? then 2 * |queue|
       else 1 + 2 * |H.Extensions(todo + H.ToExtend(F.NonNil(child.items)), order)| + 2 * Work(child))
    case Mix(_, onPrimary, taken, pOpen, fOpen, slot, done, primary, fallback) =>
      |slot| + Flag(!done) + 4 * Flag(pOpen) + 4 * Flag(fOpen) + Switches(onPrimary, taken, pOpen, fOpen)
      + 4 * Work(primary) + 4 * Work(fallback)
    case Either(_, onFallback, slot, done, primary, fallback) =>
      |slot| + Flag(!done) + Flag(!onFallback) + 2 * Work(primary) + 2 * Work(fallback)
  }

  lemma {:induction false} ExtensionsPrefix(a: seq<Tactic>, b: seq<Tactic>, order: nat -> seq<string>)
    ensures |H.Extensions(a, order)| <= |H.Extensions(a + b, order)|
    decreases |b|
  {
    if b == [] {
      assert a + b == a;
    } else {
      ExtensionsPrefix(a, b[..|b| - 1], order);
      assert (a + b)[..|a + b| - 1] == a + b[..|b| - 1];
    }
  }

  lemma TakeDecreasesWork(a: Net)
    requires Valid(a) && Offer(a) != []
    ensures Work(Take(a)) < Work(a)
    ensures !a.Leaf? ==> Work(Take(a)) == Work(a) - 1
  {
  }

  lemma HelpersStepDecreasesWork(a: Net)
    requires a.Helpers? && Valid(a) && OwnStep(a).Some?
    ensures Work(OwnStep(a).value) < Work(a)
  {
    hide H.Extensions, H.ToExtend, F.NonNil;
    if a.drained {
    } else if Closed(a.child) {
      HelpersAtEnd(a.todo, a.order);
      assert a.todo + H.ToExtend(F.NonNil([])) == a.todo by {
        HelpersNothing();
      }
    } else {
      var items := a.child.items;
      var x, rest := [items[0]], items[1..];
      assert items == x + rest;
      NonNilAppend(x, rest);
      ToExtendAppend(F.NonNil(x), F.NonNil(rest));
      assert a.todo + H.ToExtend(F.NonNil(items)) == a.todo + H.ToExtend(F.NonNil(x)) + H.ToExtend(F.NonNil(rest));
    }
  }

  lemma HelpersNothing()
    ensures H.ToExtend(F.NonNil([])) == []
  {
  }

  lemma MixStepDecreasesWork(a: Net)
    requires a.Mix? && Valid(a) && OwnStep(a).Some?
    ensures Work(OwnStep(a).value) < Work(a)
  {
    if a.onPrimary {
      if Offer(a.primary) != [] { TakeDecreasesWork(a.primary); }
    } else {
      if Offer(a.fallback) != [] { TakeDecreasesWork(a.fallback); }
    }
  }

  lemma EitherStepDecreasesWork(a: Net)
    requires a.Either? && Valid(a) && OwnStep(a).Some?
    ensures Work(OwnStep(a).value) < Work(a)
  {
    if a.onFallback {
      if Offer(a.fallback) != [] { TakeDecreasesWork(a.fallback); }
    } else {
      if Offer(a.primary) != [] { TakeDecreasesWork(a.primary); }
    }
  }

  lemma OwnStepDecreasesWork(a: Net)
    requires Valid(a) && OwnStep(a).Some?
    ensures Work(OwnStep(a).value) < Work(a)
  {
    match a
    case Filter(_, _, _, up) =>
      if !Closed(up) { TakeDecreasesWork(up); }
    case Helpers(_, _, _, _, _, _, _) => HelpersStepDecreasesWork(a);
    case Mix(_, _, _, _, _, _, _, _, _) => MixStepDecreasesWork(a);
    case Either(_, _, _, _, _, _) => EitherStepDecreasesWork(a);
  }

  /** The child of a test helpers policy is the DNS policy: its one internal step is to start. */
  lemma HelpersChildDecreasesWork(a: Net, b: Net, cancelled: bool)
    requires a.Helpers? && b.Helpers? && Valid(a) && Internal(a.child, b.child, cancelled)
    requires b == Helpers(a.order, a.slot, a.todo, a.drained, a.queue, a.done, b.child)
    ensures Work(b) < Work(a)
  {
    hide H.Extensions, H.ToExtend, F.NonNil;
    assert !a.drained;
    ExtensionsPrefix(a.todo, H.ToExtend(F.NonNil(a.child.items)), a.order);
    assert a.todo + H.ToExtend(F.NonNil([])) == a.todo by { HelpersNothing(); }
  }

  /** Every step uses up work, so the goroutines terminate under every schedule. */
  lemma {:induction false} InternalDecreasesWork(a: Net, b: Net, cancelled: bool)
    requires Valid(a) && Internal(a, b, cancelled)
    ensures Work(b) < Work(a)
    decreases a
  {
    if OwnStep(a) == Some(b) {
      OwnStepDecreasesWork(a);
    } else {
      hide OwnStep;
      match a
      case Leaf(_, _, _) =>
      case Filter(_, _, _, up) => InternalDecreasesWork(up, b.up, cancelled);
      case Helpers(_, _, _, _, _, _, _) => HelpersChildDecreasesWork(a, b, cancelled);
      case Mix(_, _, _, _, _, _, _, primary, fallback) =>
        if b.fallback == fallback && Internal(primary, b.primary, cancelled) {
          InternalDecreasesWork(primary, b.primary, cancelled);
        } else {
          InternalDecreasesWork(fallback, b.fallback, cancelled);
        }
      case Either(_, onFallback, _, _, primary, fallback) =>
        if onFallback {
          InternalDecreasesWork(fallback, b.fallback, cancelled);
        } else {
          InternalDecreasesWork(primary, b.primary, cancelled);
        }
    }
  }

  // ----- whole runs

  /** A run with the messages that were received so far. Each moment is an internal step of some
      goroutine or a reception, in any order. */
  ghost predicate IsRun(nets: seq<Net>, received: seq<seq<Msg>>) {
    && |nets| == |received| > 0
    && received[0] == []
    && forall i :: 0 <= i < |nets| - 1 ==> Moment(nets[i], received[i], nets[i + 1], received[i + 1])
  }

  ghost predicate Moment(a: Net, got: seq<Msg>, b: Net, got': seq<Msg>) {
    || (Internal(a, b, false) && got' == got)
    || (Offer(a) != [] && b == Take(a) && got' == got + [Offer(a)[0]])
  }

  lemma {:induction false} RunKeepsFlow(nets: seq<Net>, received: seq<seq<Msg>>, i: nat)
    requires IsRun(nets, received) && Valid(nets[0]) && i < |nets|
    ensures Valid(nets[i]) && received[i] + Flow(nets[i]) == Flow(nets[0])
    ensures i + Work(nets[i]) <= Work(nets[0])
    decreases i
  {
    if i > 0 {
      hide Internal, Flow, Valid, Work, Take, Offer;
      RunKeepsFlow(nets, received, i - 1);
      var a, b := nets[i - 1], nets[i];
      assert Moment(a, received[i - 1], b, received[i]);
      if Internal(a, b, false) && received[i] == received[i - 1] {
        InternalKeepsFlow(a, b, false);
        InternalDecreasesWork(a, b, false);
      } else {
        TakeGivesTheHead(a);
        TakeDecreasesWork(a);
      }
    }
  }

  /** What the policies and filters emit does not depend on the schedule: in every run the reader
      has received a prefix of the initial stream, all of it once the channel is closed, and runs
      are not longer than the initial work. */
  lemma ScheduleDoesNotMatter(nets: seq<Net>, received: seq<seq<Msg>>)
    requires IsRun(nets, received) && Valid(nets[0])
    ensures
      var last := |nets| - 1;
      && received[last] <= Flow(nets[0])
      && (Closed(nets[last]) ==> received[last] == Flow(nets[0]))
      && last <= Work(nets[0])
  {
    RunKeepsFlow(nets, received, |nets| - 1);
    if Closed(nets[|nets| - 1]) {
      ClosedHasNothingToCome(nets[|nets| - 1]);
    }
  }

  // ----- the tree of a policy

  /** The goroutines that a policy starts, before their first step. */
  function Start(p: Policy, w: World, domain: string, port: string): Net {
    match p
    case DnsPolicy => Leaf(false, true, Pointers(Emit(p, w, domain, port)))
    case StatsPolicyV2 => Leaf(false, false, Pointers(Emit(p, w, domain, port)))
    case BridgesPolicyV2 => Leaf(false, false, Pointers(Emit(p, w, domain, port)))
    case UserPolicyV2(_) => Leaf(false, false, Pointers(Emit(p, w, domain, port)))
    case TestHelpersPolicy(child) => Helpers(w.order, [], [], false, [], false, Start(child, w, domain, port))
    case MixPolicyInterleave(primary, fallback, factor) =>
      Mix(Batch(factor), true, 0, true, true, [], false, Start(primary, w, domain, port), Start(fallback, w, domain, port))
    case MixPolicyEitherOr(primary, fallback) =>
      Either(false, false, [], false, Start(primary, w, domain, port), Start(fallback, w, domain, port))
  }

  /** httpsDialerFilterTactics on top of a policy. */
  function StartFiltered(p: Policy, w: World, domain: string, port: string): Net {
    Filter(AssignDelays(0), [], false,
           Filter(KeepUnique({}), [], false,
                  Filter(DropNil, [], false, Start(p, w, domain, port))))
  }

  /** The test helpers policy is only ever put on top of the DNS policy. */
  predicate HelpersOnDns(p: Policy) {
    match p
    case TestHelpersPolicy(child) => child.DnsPolicy?
    case MixPolicyInterleave(primary, fallback, _) => HelpersOnDns(primary) && HelpersOnDns(fallback)
    case MixPolicyEitherOr(primary, fallback) => HelpersOnDns(primary) && HelpersOnDns(fallback)
    case _ => true
  }

  lemma PointersAppend(a: seq<Tactic>, b: seq<Tactic>)
    ensures Pointers(a + b) == Pointers(a) + Pointers(b)
  {
  }

  lemma {:induction false} InterleavePointers(p: seq<Tactic>, f: seq<Tactic>, n: nat)
    requires n >= 1
    ensures Interleave(Pointers(p), Pointers(f), n) == Pointers(Interleave(p, f, n))
    decreases |p| + |f|
  {
    if p != [] || f != [] {
      var i, j := Min(n, |p|), Min(n, |f|);
      InterleavePointers(p[i..], f[j..], n);
      assert Pointers(p)[..i] == Pointers(p[..i]) && Pointers(p)[i..] == Pointers(p[i..]);
      assert Pointers(f)[..j] == Pointers(f[..j]) && Pointers(f)[j..] == Pointers(f[j..]);
      PointersAppend(p[..i] + f[..j], Interleave(p[i..], f[j..], n));
      PointersAppend(p[..i], f[..j]);
    }
  }

  /** A policy's goroutines emit what the policy is defined to emit. */
  lemma {:induction false} StartFlow(p: Policy, w: World, domain: string, port: string)
    requires HelpersOnDns(p)
    ensures Valid(Start(p, w, domain, port))
    ensures Flow(Start(p, w, domain, port)) == Pointers(Emit(p, w, domain, port))
    decreases p
  {
    hide Interleave, MixRest, H.Extensions, H.ToExtend;
    match p
    case TestHelpersPolicy(child) =>
      StartFlow(child, w, domain, port);
      var ts := Emit(child, w, domain, port);
      NonNilPointers(ts);
      assert [] + H.ToExtend(ts) == H.ToExtend(ts);
      PointersAppend(ts, H.Extensions(H.ToExtend(ts), w.order));
    case MixPolicyInterleave(primary, fallback, factor) =>
      StartFlow(primary, w, domain, port);
      StartFlow(fallback, w, domain, port);
      MixStart(Batch(factor), Flow(Start(primary, w, domain, port)), Flow(Start(fallback, w, domain, port)));
      InterleavePointers(Emit(primary, w, domain, port), Emit(fallback, w, domain, port), Batch(factor));
    case MixPolicyEitherOr(primary, fallback) =>
      StartFlow(primary, w, domain, port);
      StartFlow(fallback, w, domain, port);
    case _ =>
  }

  // ----- the filters as machines compute the filters as functions

  function StageAfter(st: Stage, input: seq<Msg>): Stage
    decreases |input|
  {
    if input == [] then st else StageAfter(StageStep(st, input[0]).0, input[1..])
  }

  lemma {:induction false} RunStageAppend(st: Stage, a: seq<Msg>, x: Msg)
    ensures RunStage(st, a + [x]) == RunStage(st, a) + StageStep(StageAfter(st, a), x).1
    ensures StageAfter(st, a + [x]) == StageStep(StageAfter(st, a), x).0
    decreases |a|
  {
    hide StageStep;
    if a == [] {
      assert a + [x] == [x];
    } else {
      RunStageAppend(StageStep(st, a[0]).0, a[1..], x);
      assert (a + [x])[1..] == a[1..] + [x];
    }
  }

  lemma {:induction false} DropNilIsNonNil(s: seq<Msg>)
    ensures RunStage(DropNil, s) == Pointers(F.NonNil(s)) && StageAfter(DropNil, s) == DropNil
  {
    if s != [] {
      var n := |s| - 1;
      DropNilIsNonNil(s[..n]);
      RunStageAppend(DropNil, s[..n], s[n]);
      assert s == s[..n] + [s[n]];
    }
  }

  lemma UniqueStep(ts: seq<Tactic>)
    requires ts != []
    ensures
      var n := |ts| - 1;
      F.Unique(ts) == F.Unique(ts[..n]) + (if ts[n].SummaryKey() in F.Keys(ts[..n]) then [] else [ts[n]])
  {
    hide Tactic.SummaryKey;
    var n := |ts| - 1;
    var keys := F.Keys(ts);
    F.FirstPositionsStep(keys, n);
    assert keys[..n] == F.Keys(ts[..n]) && keys[..n + 1] == keys;
    F.KeyAt(ts, n);
  }

  lemma {:induction false} KeepUniqueIsUnique(ts: seq<Tactic>)
    ensures RunStage(KeepUnique({}), Pointers(ts)) == Pointers(F.Unique(ts))
    ensures StageAfter(KeepUnique({}), Pointers(ts)) == KeepUnique(set k | k in F.Keys(ts))
  {
    hide Tactic.SummaryKey;
    if ts != [] {
      var n := |ts| - 1;
      KeepUniqueIsUnique(ts[..n]);
      RunStageAppend(KeepUnique({}), Pointers(ts[..n]), Some(ts[n]));
      assert Pointers(ts) == Pointers(ts[..n]) + [Some(ts[n])];
      UniqueStep(ts);
      PointersAppend(F.Unique(ts[..n]), [ts[n]]);
    }
  }

  lemma {:induction false} AssignDelaysIsAssignDelays(ts: seq<Tactic>)
    ensures RunStage(AssignDelays(0), Pointers(ts)) == Pointers(F.AssignDelays(ts))
    ensures StageAfter(AssignDelays(0), Pointers(ts)) == AssignDelays(|ts|)
  {
    hide HappyEyeballsDelay;
    if ts != [] {
      var n := |ts| - 1;
      AssignDelaysIsAssignDelays(ts[..n]);
      RunStageAppend(AssignDelays(0), Pointers(ts[..n]), Some(ts[n]));
      assert Pointers(ts) == Pointers(ts[..n]) + [Some(ts[n])];
      assert F.AssignDelays(ts) == F.AssignDelays(ts[..n]) + [ts[n].(initialDelay := HappyEyeballsDelay(n))];
    }
  }

  /** What the dialer's workers receive is the scheduled stream of the policy. */
  lemma FilteredFlow(p: Policy, w: World, domain: string, port: string)
    requires HelpersOnDns(p)
    ensures Valid(StartFiltered(p, w, domain, port))
    ensures Flow(StartFiltered(p, w, domain, port)) == Pointers(Scheduled(p, w, domain, port))
  {
    hide RunStage, F.Unique, F.AssignDelays, F.NonNil, Emit, Start;
    StartFlow(p, w, domain, port);
    var msgs := Pointers(Emit(p, w, domain, port));
    DropNilIsNonNil(msgs);
    var noNil := Filter(DropNil, [], false, Start(p, w, domain, port));
    assert Valid(noNil) && Flow(noNil) == Pointers(F.NonNil(msgs));
    KeepUniqueIsUnique(F.NonNil(msgs));
    var unique := Filter(KeepUnique({}), [], false, noNil);
    assert Valid(unique) && Flow(unique) == Pointers(F.Unique(F.NonNil(msgs)));
    AssignDelaysIsAssignDelays(F.Unique(F.NonNil(msgs)));
  }

  /** Without a cancellation, every schedule of the policy chain that newHTTPSDialerPolicy builds
      delivers the scheduled tactics in their order, and nothing else. */
  lemma PolicyChainDelivers(proxy: bool, user: Option<UserRoot>, w: World, domain: string, port: string,
                            nets: seq<Net>, received: seq<seq<Msg>>)
    requires IsRun(nets, received)
    requires nets[0] == StartFiltered(NewHTTPSDialerPolicy(proxy, user), w, domain, port)
    requires Closed(nets[|nets| - 1])
    ensures received[|nets| - 1] == Pointers(Scheduled(NewHTTPSDialerPolicy(proxy, user), w, domain, port))
  {
    hide StartFiltered, Scheduled, IsRun;
    var p := NewHTTPSDialerPolicy(proxy, user);
    assert HelpersOnDns(p) by { ComposedHelpersOnDns(proxy, user); }
    FilteredFlow(p, w, domain, port);
    ScheduleDoesNotMatter(nets, received);
  }

  lemma ComposedHelpersOnDns(proxy: bool, user: Option<UserRoot>)
    ensures HelpersOnDns(NewHTTPSDialerPolicy(proxy, user))
  {
    var statsOrBridges := MixPolicyInterleave(StatsPolicyV2, BridgesPolicyV2, 3);
    assert HelpersOnDns(MixPolicyInterleave(TestHelpersPolicy(DnsPolicy), statsOrBridges, 3));
  }
}
