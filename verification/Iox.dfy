/** Streaming a reader under a context (pkg/netxlite/iox.go). */
module Iox {
  import opened Optional

  type Byte = bv8

  datatype Error = Eof | ReadFailed(code: int) | ContextDone(code: int)

  /** What one Read returns: possibly no bytes, and possibly bytes together with an error. */
  datatype Read = Read(data: seq<Byte>, err: Option<Error>)

  type Reader = nat -> Read

  /** The background goroutine. */
  datatype Producer =
    | Reading
    | SendingData(data: seq<Byte>, err: Option<Error>)
    | SendingError(error: Error)
    | Exited

  /** The caller's loop. */
  datatype Consumer =
    | Looping
    | Returned(result: seq<Byte>, failure: Option<Error>)

  /** `next` counts the reads done; `parent` is the error of the caller's context once it is done. */
  datatype State = State(producer: Producer, consumer: Consumer, next: nat, buf: seq<Byte>, parent: Option<Error>)

  const START := State(Reading, Looping, 0, [], None)

  /** The inner context is done when the caller's is, and when the caller returned. */
  predicate CtxDone(s: State) {
    s.parent.Some? || s.consumer.Returned?
  }

  /** `ParentDone` is the caller's context ending; `ReadReturns` is the reader's Read returning; the
      two sends are rendezvous on unbuffered channels; the others react to the inner context. */
  datatype Step = ParentDone(error: Error) | ReadReturns | SendData | SendError | ConsumerQuits | ProducerQuits

  predicate Enabled(s: State, step: Step) {
    match step
    case ParentDone(e) => s.parent.None? && e.ContextDone?
    case ReadReturns => s.producer.Reading?
    case SendData => s.producer.SendingData? && s.consumer.Looping?
    case SendError => s.producer.SendingError? && s.consumer.Looping?
    case ConsumerQuits => s.consumer.Looping? && s.parent.Some?
    case ProducerQuits => (s.producer.SendingData? || s.producer.SendingError?) && CtxDone(s)
  }

  /** Where the goroutine goes once its data, if any, is out. */
  function AfterData(err: Option<Error>): Producer {
    match err
    case None => Reading
    case Some(e) => SendingError(e)
  }

  function Next(reader: Reader, s: State, step: Step): State
    requires Enabled(s, step)
  {
    match step
    case ParentDone(e) => s.(parent := Some(e))
    case ReadReturns =>
      var r := reader(s.next);
      s.(producer := if |r.data| > 0 then SendingData(r.data, r.err) else AfterData(r.err), next := s.next + 1)
    case SendData => s.(producer := AfterData(s.producer.err), buf := s.buf + s.producer.data)
    case SendError =>
      s.(producer := Exited, consumer := Returned(s.buf, if s.producer.error.Eof? then None else Some(s.producer.error)))
    case ConsumerQuits => s.(consumer := Returned(s.buf, s.parent))
    case ProducerQuits => s.(producer := Exited)
  }

  ghost predicate IsRun(reader: Reader, states: seq<State>, steps: seq<Step>) {
    && |states| == |steps| + 1
    && states[0] == START
    && forall i {:trigger steps[i]} :: 0 <= i < |steps| ==>
         Enabled(states[i], steps[i]) && states[i + 1] == Next(reader, states[i], steps[i])
  }

  // ----- what is returned

  /** The bytes of the first `n` reads. */
  function Bytes(reader: Reader, n: nat): seq<Byte> {
    if n == 0 then [] else Bytes(reader, n - 1) + reader(n - 1).data
  }

  /** The first `n` reads had no error. */
  ghost predicate NoErrorBefore(reader: Reader, n: int) {
    forall i: nat {:trigger reader(i)} :: i < n ==> reader(i).err.None?
  }

  /** What the goroutine is about to send was returned by the last read. */
  ghost predicate ProducerInv(reader: Reader, s: State) {
    match s.producer
    case Reading => s.buf == Bytes(reader, s.next) && NoErrorBefore(reader, s.next)
    case SendingData(data, err) =>
      s.next > 0 && Read(data, err) == reader(s.next - 1) && s.buf == Bytes(reader, s.next - 1)
      && NoErrorBefore(reader, s.next - 1)
    case SendingError(e) =>
      s.next > 0 && reader(s.next - 1).err == Some(e) && s.buf == Bytes(reader, s.next) && NoErrorBefore(reader, s.next - 1)
    case Exited => CtxDone(s) && NoErrorBefore(reader, s.next - 1)
  }

  /** `data` are the bytes of whole reads, all without an error but possibly the last. */
  ghost predicate ReadInOrder(reader: Reader, data: seq<Byte>, count: nat, next: nat) {
    count <= next && data == Bytes(reader, count) && NoErrorBefore(reader, count - 1)
  }

  ghost predicate ConsumerInv(reader: Reader, s: State) {
    && (s.consumer.Looping? ==> exists n: nat :: ReadInOrder(reader, s.buf, n, s.next))
    && (s.consumer.Returned? ==> GoodResult(reader, s.consumer.result, s.consumer.failure, s.parent, s.next))
  }

  /** `n` is the number of reads that ended in the reader's first error. */
  ghost predicate EndsWith(reader: Reader, n: nat, e: Error) {
    n > 0 && reader(n - 1).err == Some(e) && NoErrorBefore(reader, n - 1)
  }

  /** A nil error stands for everything up to end of file; a reader's error for everything up to and
      including what came with the error; and otherwise the caller's context was done, and the result
      is what was read in order until then. */
  ghost predicate GoodResult(reader: Reader, data: seq<Byte>, err: Option<Error>, parent: Option<Error>, next: nat) {
    && (exists n: nat :: ReadInOrder(reader, data, n, next))
    && match err
       case None => exists n: nat :: EndsWith(reader, n, Eof) && data == Bytes(reader, n)
       case Some(e) =>
         || (e != Eof && exists n: nat :: EndsWith(reader, n, e) && data == Bytes(reader, n))
         || parent == Some(e)
  }

  ghost predicate Inv(reader: Reader, s: State) {
    ProducerInv(reader, s) && ConsumerInv(reader, s)
  }

  lemma ProducerStep(reader: Reader, s: State, step: Step)
    requires Inv(reader, s) && Enabled(s, step)
    ensures ProducerInv(reader, Next(reader, s, step))
  {
    hide ConsumerInv;
    if step.ReadReturns? {
      assert s.next == s.next + 1 - 1;
    }
  }

  lemma ConsumerStep(reader: Reader, s: State, step: Step)
    requires Inv(reader, s) && Enabled(s, step)
    ensures ConsumerInv(reader, Next(reader, s, step))
  {
    hide Bytes, NoErrorBefore;
    var s' := Next(reader, s, step);
    if s.consumer.Looping? {
      var n: nat :| ReadInOrder(reader, s.buf, n, s.next);
      match step
      case SendData =>
        assert Bytes(reader, s.next) == s'.buf by { BytesGrow(reader, s.next); }
        assert ReadInOrder(reader, s'.buf, s.next, s'.next);
      case SendError =>
        assert EndsWith(reader, s.next, s.producer.error);
        assert ReadInOrder(reader, s.buf, s.next, s.next);
      case _ =>
        assert ReadInOrder(reader, s.buf, n, s'.next);
    } else {
      var n: nat :| ReadInOrder(reader, s.consumer.result, n, s.next);
      assert ReadInOrder(reader, s.consumer.result, n, s'.next);
    }
  }

  lemma BytesGrow(reader: Reader, n: nat)
    requires n > 0
    ensures Bytes(reader, n) == Bytes(reader, n - 1) + reader(n - 1).data
  {
  }

  lemma {:induction false} RunKeepsInv(reader: Reader, states: seq<State>, steps: seq<Step>, i: nat)
    requires IsRun(reader, states, steps) && i < |states|
    ensures Inv(reader, states[i])
    decreases i
  {
    if i == 0 {
      assert ReadInOrder(reader, [], 0, 0);
    } else {
      hide Inv, Next, Enabled;
      RunKeepsInv(reader, states, steps, i - 1);
      StepKeepsInv(reader, states[i - 1], steps[i - 1]);
    }
  }

  lemma StepKeepsInv(reader: Reader, s: State, step: Step)
    requires Inv(reader, s) && Enabled(s, step)
    ensures Inv(reader, Next(reader, s, step))
  {
    hide ProducerInv, ConsumerInv, Next;
    ProducerStep(reader, s, step);
    ConsumerStep(reader, s, step);
  }

  lemma {:induction false} BytesArePrefixes(reader: Reader, m: nat, n: nat)
    requires m <= n
    ensures Bytes(reader, m) <= Bytes(reader, n)
  {
    if m < n {
      BytesArePrefixes(reader, m, n - 1);
    }
  }

  /** In every run, what is returned is a prefix of what was read, and the error says which. */
  lemma StreamResult(reader: Reader, states: seq<State>, steps: seq<Step>, i: nat)
    requires IsRun(reader, states, steps) && i < |states| && states[i].consumer.Returned?
    ensures
      var s := states[i];
      && s.consumer.result <= Bytes(reader, s.next)
      && GoodResult(reader, s.consumer.result, s.consumer.failure, s.parent, s.next)
  {
    hide Bytes, IsRun;
    RunKeepsInv(reader, states, steps, i);
    var s := states[i];
    var n: nat :| ReadInOrder(reader, s.consumer.result, n, s.next);
    BytesArePrefixes(reader, n, s.next);
  }

  /** The caller has all that was read but possibly the last read. */
  ghost predicate HasAllButLast(reader: Reader, data: seq<Byte>, next: nat) {
    data == Bytes(reader, next) || (next > 0 && data == Bytes(reader, next - 1))
  }

  lemma StepKeepsBuffer(reader: Reader, s: State, step: Step)
    requires Inv(reader, s) && Enabled(s, step) && s.consumer.Looping? && HasAllButLast(reader, s.buf, s.next)
    ensures Next(reader, s, step).consumer.Looping? ==> HasAllButLast(reader, Next(reader, s, step).buf, Next(reader, s, step).next)
    ensures Next(reader, s, step).consumer.Returned? ==>
              Next(reader, s, step).consumer.result == s.buf && Next(reader, s, step).next == s.next
  {
    hide ConsumerInv, NoErrorBefore, Bytes;
    if step.SendData? {
      BytesGrow(reader, s.next);
    }
  }

  lemma {:induction false} BufferHasAllButLast(reader: Reader, states: seq<State>, steps: seq<Step>, i: nat)
    requires IsRun(reader, states, steps) && i < |states| && states[i].consumer.Looping?
    ensures HasAllButLast(reader, states[i].buf, states[i].next)
    decreases i
  {
    if i > 0 {
      hide Inv, Next, Enabled, HasAllButLast;
      var s, step := states[i - 1], steps[i - 1];
      RunKeepsInv(reader, states, steps, i - 1);
      if s.consumer.Looping? {
        BufferHasAllButLast(reader, states, steps, i - 1);
        StepKeepsBuffer(reader, s, step);
      } else {
        ReturnIsFinal(reader, s, step);
        assert false;
      }
    }
  }

  lemma ReturnIsFinal(reader: Reader, s: State, step: Step)
    requires Enabled(s, step) && s.consumer.Returned?
    ensures Next(reader, s, step).consumer == s.consumer
  {
  }

  /** Whenever the caller returns, also when its context is done, the result is everything that was read until then, but
      possibly the last read, which may not have been sent. */
  lemma ReturnsAllButLast(reader: Reader, states: seq<State>, steps: seq<Step>, i: nat)
    requires IsRun(reader, states, steps) && i < |steps|
    requires states[i].consumer.Looping? && states[i + 1].consumer.Returned?
    ensures HasAllButLast(reader, states[i + 1].consumer.result, states[i].next) && states[i + 1].next == states[i].next
  {
    hide Inv, Next, Enabled, HasAllButLast;
    var step := steps[i];
    BufferHasAllButLast(reader, states, steps, i);
    RunKeepsInv(reader, states, steps, i);
    StepKeepsBuffer(reader, states[i], step);
  }

  lemma FirstErrorIsUnique(reader: Reader, m: nat, e: Error, n: nat, f: Error)
    requires EndsWith(reader, m, e) && EndsWith(reader, n, f)
    ensures m == n && e == f
  {
    assert reader(m - 1).err == Some(e) && reader(n - 1).err == Some(f);
  }

  /** Without interruption the result does not depend on the schedule: it is all the bytes up to and
      including those of the first failing read, and end of file is no error. */
  lemma UninterruptedResult(reader: Reader, states: seq<State>, steps: seq<Step>, i: nat, n: nat, e: Error)
    requires IsRun(reader, states, steps) && i < |states| && states[i].consumer.Returned?
    requires states[i].parent.None? && EndsWith(reader, n, e)
    ensures states[i].consumer == Returned(Bytes(reader, n), if e.Eof? then None else Some(e))
  {
    hide Bytes, EndsWith;
    StreamResult(reader, states, steps, i);
    var s := states[i];
    match s.consumer.failure
    case None =>
      var m: nat :| EndsWith(reader, m, Eof) && s.consumer.result == Bytes(reader, m);
      FirstErrorIsUnique(reader, m, Eof, n, e);
    case Some(f) =>
      var m: nat :| EndsWith(reader, m, f) && s.consumer.result == Bytes(reader, m);
      FirstErrorIsUnique(reader, m, f, n, e);
  }

  // ----- progress and termination

  /** Until the caller returned and the goroutine exited, something other than the caller's context
      can happen. */
  lemma NeverStuck(reader: Reader, states: seq<State>, steps: seq<Step>, i: nat)
    requires IsRun(reader, states, steps) && i < |states|
    requires states[i].producer != Exited || states[i].consumer.Looping?
    ensures exists step: Step :: !step.ParentDone? && Enabled(states[i], step)
  {
    hide ConsumerInv, IsRun;
    RunKeepsInv(reader, states, steps, i);
    var s := states[i];
    assert Inv(reader, s);
    match s.producer
    case Reading => assert Enabled(s, ReadReturns);
    case SendingData(_, _) =>
      assert Enabled(s, if s.consumer.Looping? then SendData else ProducerQuits);
    case SendingError(_) =>
      assert Enabled(s, if s.consumer.Looping? then SendError else ProducerQuits);
    case Exited => assert Enabled(s, ConsumerQuits);
  }

  function ProducerRank(p: Producer): nat {
    match p
    case Exited => 0
    case Reading => 1
    case SendingError(_) => 2
    case SendingData(_, err) => if err.Some? then 3 else 2
  }

  /** A bound on the steps left when the reader's first error comes with read number `n`. */
  function StepsLeft(s: State, n: nat): int {
    4 * (n - s.next) + ProducerRank(s.producer)
    + (if s.consumer.Looping? then 1 else 0) + (if s.parent.None? then 1 else 0)
  }

  lemma StepsLeftDecrease(reader: Reader, s: State, step: Step, n: nat, e: Error)
    requires ProducerInv(reader, s) && Enabled(s, step) && EndsWith(reader, n, e)
    ensures 0 <= StepsLeft(Next(reader, s, step), n) < StepsLeft(s, n)
  {
    hide Bytes;
    assert NoErrorBefore(reader, s.next - 1);
    assert reader(n - 1).err == Some(e);
  }

  /** A reader that eventually fails or ends leads to runs of bounded length only. */
  lemma RunsEnd(reader: Reader, states: seq<State>, steps: seq<Step>, n: nat, e: Error)
    requires IsRun(reader, states, steps) && EndsWith(reader, n, e)
    ensures |steps| <= 4 * n + 3
  {
    hide EndsWith;
    LengthSoFar(reader, states, steps, n, e, |steps|);
  }

  lemma {:induction false} LengthSoFar(reader: Reader, states: seq<State>, steps: seq<Step>, n: nat, e: Error, i: nat)
    requires IsRun(reader, states, steps) && i < |states| && EndsWith(reader, n, e)
    ensures i + StepsLeft(states[i], n) <= 4 * n + 3
    ensures StepsLeft(states[i], n) >= 0
    decreases i
  {
    hide EndsWith, Next, Enabled, ConsumerInv, ProducerInv;
    if i > 0 {
      hide StepsLeft;
      LengthSoFar(reader, states, steps, n, e, i - 1);
      RunKeepsInv(reader, states, steps, i - 1);
      StepsLeftDecrease(reader, states[i - 1], steps[i - 1], n, e);
    }
  }

  // ----- after the caller returned

  /** A read that makes the goroutine neither send nor stop. */
  predicate Quiet(r: Read) {
    r.data == [] && r.err.None?
  }

  /** A bound on the steps left when read number `k` is the next one that is not quiet. */
  function StepsToRelease(s: State, k: nat): int {
    (match s.producer
     case Exited => 0
     case Reading => 2 + k - s.next
     case _ => 1)
    + (if s.parent.None? then 1 else 0)
  }

  ghost predicate NextLoudRead(reader: Reader, s: State, k: nat) {
    s.producer.Reading? ==>
      s.next <= k && !Quiet(reader(k)) && forall j: nat {:trigger reader(j)} :: s.next <= j < k ==> Quiet(reader(j))
  }

  lemma ReleaseStep(reader: Reader, s: State, step: Step, k: nat)
    requires s.consumer.Returned? && Enabled(s, step) && NextLoudRead(reader, s, k)
    ensures
      var s' := Next(reader, s, step);
      && s'.consumer == s.consumer
      && NextLoudRead(reader, s', k)
      && 0 <= StepsToRelease(s', k) < StepsToRelease(s, k)
  {
  }

  /** Once the caller returned, its result is final, and the goroutine takes a bounded number of steps:
      those of the reads up to the next one that has data or an error. */
  lemma {:induction false} GoroutineIsReleased(reader: Reader, states: seq<State>, steps: seq<Step>, i: nat, j: nat, k: nat)
    requires IsRun(reader, states, steps) && i <= j < |states|
    requires states[i].consumer.Returned? && NextLoudRead(reader, states[i], k)
    ensures states[j].consumer == states[i].consumer && NextLoudRead(reader, states[j], k)
    ensures j - i + StepsToRelease(states[j], k) <= StepsToRelease(states[i], k)
    ensures StepsToRelease(states[j], k) >= 0
    decreases j
  {
    if i < j {
      hide Next, Enabled, NextLoudRead, StepsToRelease;
      GoroutineIsReleased(reader, states, steps, i, j - 1, k);
      ReleaseStep(reader, states[j - 1], steps[j - 1], k);
    }
  }

  /** A reader that is quiet forever is read forever, although the caller returned: the context is
      not looked at between two quiet reads. */
  lemma {:induction false} QuietReaderIsNeverReleased(reader: Reader, m: nat) returns (states: seq<State>, steps: seq<Step>)
    requires forall i: nat {:trigger reader(i)} :: Quiet(reader(i))
    ensures IsRun(reader, states, steps) && |steps| == m + 2
    ensures states[m + 2].consumer.Returned? && states[m + 2].producer.Reading? && states[m + 2].next == m
  {
    if m == 0 {
      var e := ContextDone(0);
      var s1 := Next(reader, START, ParentDone(e));
      var s2 := Next(reader, s1, ConsumerQuits);
      states, steps := [START, s1, s2], [ParentDone(e), ConsumerQuits];
    } else {
      states, steps := QuietReaderIsNeverReleased(reader, m - 1);
      var last := states[m + 1];
      assert Quiet(reader(last.next));
      var s' := Next(reader, last, ReadReturns);
      var states', steps' := states + [s'], steps + [ReadReturns];
      assert forall i {:trigger steps'[i]} :: 0 <= i < |steps| ==>
        steps'[i] == steps[i] && states'[i] == states[i] && states'[i + 1] == states[i + 1];
      states, steps := states', steps';
    }
  }

  /** A run that goes on from some state. */
  ghost predicate Continues(reader: Reader, s: State, states: seq<State>, steps: seq<Step>) {
    && |states| == |steps| + 1
    && states[0] == s
    && forall i {:trigger steps[i]} :: 0 <= i < |steps| ==>
         Enabled(states[i], steps[i]) && states[i + 1] == Next(reader, states[i], steps[i])
  }

  ghost predicate QuietFrom(reader: Reader, n: nat) {
    forall k: nat {:trigger reader(k)} :: k >= n ==> Quiet(reader(k))
  }

  /** While reads stay quiet, the goroutine keeps reading, on every schedule. */
  lemma {:induction false} QuietReaderKeepsReading(reader: Reader, s: State, states: seq<State>, steps: seq<Step>, i: nat)
    requires Continues(reader, s, states, steps) && i < |states|
    requires s.consumer.Returned? && s.producer.Reading? && QuietFrom(reader, s.next)
    ensures states[i].consumer == s.consumer && states[i].producer.Reading? && states[i].next >= s.next
    decreases i
  {
    if i > 0 {
      QuietReaderKeepsReading(reader, s, states, steps, i - 1);
      assert steps[i - 1] == steps[i - 1];
      assert Quiet(reader(states[i - 1].next));
    }
  }

  lemma {:induction false} FirstLoudRead(reader: Reader, n: nat, k: nat) returns (first: nat)
    requires n <= k && !Quiet(reader(k))
    ensures n <= first && !Quiet(reader(first)) && forall j: nat {:trigger reader(j)} :: n <= j < first ==> Quiet(reader(j))
    decreases k - n
  {
    if !Quiet(reader(n)) {
      first := n;
    } else {
      first := FirstLoudRead(reader, n + 1, k);
    }
  }

  /** The schedule that lets the goroutine read up to the next read that is not quiet, and then quit. */
  lemma {:induction false} ReadsAndQuits(reader: Reader, s: State, k: nat) returns (states: seq<State>, steps: seq<Step>)
    requires s.consumer.Returned? && s.producer.Reading? && NextLoudRead(reader, s, k)
    ensures Continues(reader, s, states, steps) && states[|steps|].producer.Exited?
    decreases k - s.next
  {
    var s' := Next(reader, s, ReadReturns);
    if s.next == k {
      states, steps := [s, s', Next(reader, s', ProducerQuits)], [ReadReturns, ProducerQuits];
    } else {
      assert Quiet(reader(s.next));
      var more, moreSteps := ReadsAndQuits(reader, s', k);
      states, steps := [s] + more, [ReadReturns] + moreSteps;
      assert forall i {:trigger steps[i]} :: 0 < i < |steps| ==>
        steps[i] == moreSteps[i - 1] && states[i] == more[i - 1] && states[i + 1] == more[i];
    }
  }

  /** After the caller returned, a goroutine that is reading can still exit exactly when some later read has data
      or an error. */
  lemma ReadingGoroutineCanExitExactly(reader: Reader, s: State)
    requires s.consumer.Returned? && s.producer.Reading?
    ensures (exists states: seq<State>, steps: seq<Step> :: Continues(reader, s, states, steps) && states[|steps|].producer.Exited?)
            <==> !QuietFrom(reader, s.next)
  {
    if QuietFrom(reader, s.next) {
      forall states: seq<State>, steps: seq<Step> | Continues(reader, s, states, steps)
        ensures !states[|steps|].producer.Exited?
      {
        QuietReaderKeepsReading(reader, s, states, steps, |steps|);
      }
    } else {
      var k: nat :| k >= s.next && !Quiet(reader(k));
      var first := FirstLoudRead(reader, s.next, k);
      var states, steps := ReadsAndQuits(reader, s, first);
    }
  }
}
