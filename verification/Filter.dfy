/** The three stream filters in front of the dialing workers (pkg/enginenetx/filter.go).
    A channel that is written and then closed is the sequence of what was sent on it. */
module Filter {
  import opened Optional
  import opened Tactics
  import opened HappyEyeballs

  // ----- what the filters compute, on values

  function NonNil(s: seq<Option<Tactic>>): seq<Tactic> {
    if s == [] then []
    else NonNil(s[..|s| - 1]) + (if s[|s| - 1].Some? then [s[|s| - 1].value] else [])
  }

  function Keys(ts: seq<Tactic>): (keys: seq<string>)
    ensures |keys| == |ts|
  {
    if ts == [] then [] else Keys(ts[..|ts| - 1]) + [ts[|ts| - 1].SummaryKey()]
  }

  lemma {:induction false} KeyAt(ts: seq<Tactic>, i: nat)
    requires i < |ts|
    ensures Keys(ts)[i] == ts[i].SummaryKey()
  {
    if i < |ts| - 1 {
      KeyAt(ts[..|ts| - 1], i);
    }
  }

  /** The positions where a key shows up for the first time. */
  function FirstPositions(keys: seq<string>): (positions: seq<nat>)
    ensures forall k {:trigger positions[k]} :: 0 <= k < |positions| ==> positions[k] < |keys|
  {
    if keys == [] then []
    else
      var n := |keys| - 1;
      FirstPositions(keys[..n]) + (if keys[n] in keys[..n] then [] else [n])
  }

  function Pick<T>(s: seq<T>, positions: seq<nat>): (r: seq<T>)
    requires forall k :: 0 <= k < |positions| ==> positions[k] < |s|
    ensures |r| == |positions|
    ensures forall k {:trigger r[k]} :: 0 <= k < |positions| ==> r[k] == s[positions[k]]
  {
    seq(|positions|, k requires 0 <= k < |positions| => s[positions[k]])
  }

  function Unique(ts: seq<Tactic>): seq<Tactic> {
    Pick(ts, FirstPositions(Keys(ts)))
  }

  function AssignDelays(ts: seq<Tactic>): (r: seq<Tactic>)
    ensures |r| == |ts|
    ensures forall k {:trigger r[k]} :: 0 <= k < |ts| ==> r[k] == ts[k].(initialDelay := HappyEyeballsDelay(k))
  {
    seq(|ts|, k requires 0 <= k < |ts| => ts[k].(initialDelay := HappyEyeballsDelay(k)))
  }

  function FilterTactics(input: seq<Option<Tactic>>): seq<Tactic> {
    AssignDelays(Unique(NonNil(input)))
  }

  // ----- what that means

  predicate Increasing(positions: seq<nat>) {
    forall i, j :: 0 <= i < j < |positions| ==> positions[i] < positions[j]
  }

  predicate OccursFirstAt(keys: seq<string>, i: nat)
    requires i < |keys|
  {
    keys[i] !in keys[..i]
  }

  /** FirstPositions lists, in order, exactly the positions whose key did not occur before. */
  lemma {:induction false} FirstPositionsMeaning(keys: seq<string>)
    ensures Increasing(FirstPositions(keys))
    ensures forall i :: 0 <= i < |keys| ==> (i in FirstPositions(keys) <==> OccursFirstAt(keys, i))
  {
    if keys != [] {
      var n := |keys| - 1;
      var init := keys[..n];
      FirstPositionsMeaning(init);
      forall i | 0 <= i < |keys|
        ensures i in FirstPositions(keys) <==> OccursFirstAt(keys, i)
      {
        if i < n {
          assert init[..i] == keys[..i];
          assert OccursFirstAt(init, i) <==> OccursFirstAt(keys, i);
        }
      }
    }
  }

  /** FirstPositions grows with the stream. */
  lemma FirstPositionsStep(keys: seq<string>, i: nat)
    requires i < |keys|
    ensures FirstPositions(keys[..i + 1]) ==
            FirstPositions(keys[..i]) + (if OccursFirstAt(keys, i) then [i] else [])
  {
    assert keys[..i + 1][..i] == keys[..i];
  }

  /** A position at or before `i` is kept for the key at `i`; its rank is at most `i`. */
  lemma {:induction false} KeptAtOrBefore(keys: seq<string>, i: nat) returns (k: nat)
    requires i < |keys|
    ensures k < |FirstPositions(keys)| && k <= FirstPositions(keys)[k] <= i
    ensures keys[FirstPositions(keys)[k]] == keys[i]
    decreases i
  {
    FirstPositionsMeaning(keys);
    var ps := FirstPositions(keys);
    if !OccursFirstAt(keys, i) {
      var j :| 0 <= j < i && keys[j] == keys[i];
      k := KeptAtOrBefore(keys, j);
    } else {
      k :| 0 <= k < |ps| && ps[k] == i;
      RankAtMostPosition(ps, k);
    }
  }

  lemma {:induction false} RankAtMostPosition(positions: seq<nat>, k: nat)
    requires Increasing(positions) && k < |positions|
    ensures k <= positions[k]
    decreases k
  {
    if k > 0 {
      RankAtMostPosition(positions, k - 1);
    }
  }

  /** The filtered stream holds every key of the non-nil inputs exactly once, in the order of
      first occurrence, and the k-th tactic carries the k-th happy-eyeballs delay. */
  lemma FilterEmitsFirstOccurrences(input: seq<Option<Tactic>>)
    ensures
      var nonNil, output := NonNil(input), FilterTactics(input);
      var ps := FirstPositions(Keys(nonNil));
      && |output| == |ps| && Increasing(ps)
      && (forall k :: 0 <= k < |output| ==>
            output[k] == nonNil[ps[k]].(initialDelay := HappyEyeballsDelay(k)))
      && (forall i :: 0 <= i < |nonNil| ==>
            (i in ps <==> forall j :: 0 <= j < i ==> nonNil[j].SummaryKey() != nonNil[i].SummaryKey()))
  {
    hide Tactic.SummaryKey;
    var nonNil := NonNil(input);
    var keys := Keys(nonNil);
    FirstPositionsMeaning(keys);
    forall i | 0 <= i < |nonNil|
      ensures keys[i] == nonNil[i].SummaryKey()
    {
      KeyAt(nonNil, i);
    }
    forall i | 0 <= i < |nonNil|
      ensures OccursFirstAt(keys, i) <==> !exists j :: 0 <= j < i && nonNil[j].SummaryKey() == nonNil[i].SummaryKey()
    {
      if j :| 0 <= j < i && nonNil[j].SummaryKey() == nonNil[i].SummaryKey() {
        assert keys[..i][j] == keys[j];
      }
      if !OccursFirstAt(keys, i) {
        var j :| 0 <= j < i && keys[..i][j] == keys[i];
        assert nonNil[j].SummaryKey() == nonNil[i].SummaryKey();
      }
    }
  }

  lemma SameKey(t: Tactic, delay: int)
    ensures t.(initialDelay := delay).SummaryKey() == t.SummaryKey()
  {
  }

  lemma UniqueKeysAreDistinct(ts: seq<Tactic>, i: nat, j: nat)
    requires i < j < |Unique(ts)|
    ensures Unique(ts)[i].SummaryKey() != Unique(ts)[j].SummaryKey()
  {
    hide Tactic.SummaryKey;
    var keys := Keys(ts);
    var ps := FirstPositions(keys);
    FirstPositionsMeaning(keys);
    KeyAt(ts, ps[i]);
    KeyAt(ts, ps[j]);
    assert ps[j] in ps && OccursFirstAt(keys, ps[j]);
    assert keys[..ps[j]][ps[i]] == keys[ps[i]];
  }

  /** No two tactics of one run have the same key. */
  lemma FilteredKeysAreDistinct(input: seq<Option<Tactic>>, i: nat, j: nat)
    requires i < j < |FilterTactics(input)|
    ensures FilterTactics(input)[i].SummaryKey() != FilterTactics(input)[j].SummaryKey()
  {
    hide Tactic.SummaryKey;
    var unique := Unique(NonNil(input));
    UniqueKeysAreDistinct(NonNil(input), i, j);
    SameKey(unique[i], HappyEyeballsDelay(i));
    SameKey(unique[j], HappyEyeballsDelay(j));
  }

  /** Filtering never delays a tactic: the key of the i-th non-nil input is tried at or before
      position i, so with at most the i-th delay. */
  lemma FilterSchedulesAtOrBefore(input: seq<Option<Tactic>>, i: nat) returns (k: nat)
    requires i < |NonNil(input)|
    ensures k < |FilterTactics(input)| && k <= i
    ensures FilterTactics(input)[k].SummaryKey() == NonNil(input)[i].SummaryKey()
    ensures i <= LAST_EXACT_INDEX ==> FilterTactics(input)[k].initialDelay <= HappyEyeballsDelay(i)
  {
    hide Tactic.SummaryKey;
    k := KeptAtOrBefore(Keys(NonNil(input)), i);
    KeyAt(NonNil(input), i);
    KeyAt(NonNil(input), FirstPositions(Keys(NonNil(input)))[k]);
    SameKey(Unique(NonNil(input))[k], HappyEyeballsDelay(k));
    if k < i <= LAST_EXACT_INDEX {
      DelaysStrictlyIncrease(k, i);
    }
  }

  /** Reading a Go map of counters: an absent key counts zero. */
  function Count(m: map<string, int>, key: string): int {
    if key in m then m[key] else 0
  }

  // ----- the code, over tactics on the heap

  function NonNilRefs(s: seq<HttpsDialerTactic?>): seq<HttpsDialerTactic> {
    if s == [] then []
    else
      var last := s[|s| - 1];
      NonNilRefs(s[..|s| - 1]) + (if last != null then [last as HttpsDialerTactic] else [])
  }

  /** The tactics that a stream of possibly nil pointers carries. */
  function Values(s: seq<HttpsDialerTactic?>): (r: seq<Option<Tactic>>)
    reads s
    ensures |r| == |s|
    ensures forall i :: 0 <= i < |s| ==> r[i] == if s[i] == null then None else Some(s[i].fields)
  {
    seq(|s|, i requires 0 <= i < |s| reads s => if s[i] == null then None else Some(s[i].fields))
  }

  function Fields(s: seq<HttpsDialerTactic>): (r: seq<Tactic>)
    reads s
    ensures |r| == |s|
    ensures forall i {:trigger r[i]} :: 0 <= i < |s| ==> r[i] == s[i].fields
  {
    seq(|s|, i requires 0 <= i < |s| reads s => s[i].fields)
  }

  lemma {:induction false} NonNilRefsFields(s: seq<HttpsDialerTactic?>)
    ensures Fields(NonNilRefs(s)) == NonNil(Values(s))
  {
    if s != [] {
      var n := |s| - 1;
      NonNilRefsFields(s[..n]);
      assert Values(s)[..n] == Values(s[..n]);
      assert NonNil(Values(s)) == NonNil(Values(s[..n])) + (if s[n] == null then [] else [s[n].fields]);
    }
  }

  lemma {:induction false} NonNilRefsSubset(s: seq<HttpsDialerTactic?>, t: HttpsDialerTactic)
    requires t in NonNilRefs(s)
    ensures t in s
  {
    if s != [] {
      var n := |s| - 1;
      if t in NonNilRefs(s[..n]) {
        NonNilRefsSubset(s[..n], t);
      }
    }
  }

  method FilterOutNilTactics(input: seq<HttpsDialerTactic?>) returns (output: seq<HttpsDialerTactic>)
    ensures output == NonNilRefs(input)
  {
    output := [];
    var i := 0;
    while i < |input|
      invariant 0 <= i <= |input|
      invariant output == NonNilRefs(input[..i])
    {
      var tx := input[i];
      assert input[..i + 1][..i] == input[..i];
      if tx != null {
        output := output + [tx];
      }
      i := i + 1;
    }
    assert input[..i] == input;
  }

  /** What the deduplicating loop knows after reading `seen`. */
  ghost predicate Deduplicated<T>(input: seq<T>, seen: seq<string>, uniq: map<string, int>, output: seq<T>)
    requires |seen| <= |input|
  {
    && (forall k :: k in uniq ==> uniq[k] > 0)
    && uniq.Keys == (set k | k in seen)
    && output == Pick(input, FirstPositions(seen))
  }

  lemma DeduplicateStep<T>(input: seq<T>, seen: seq<string>, key: string, uniq: map<string, int>, output: seq<T>)
    requires |seen| < |input| && Deduplicated(input, seen, uniq, output)
    ensures key in uniq ==> Deduplicated(input, seen + [key], uniq, output)
    ensures key !in uniq ==> Deduplicated(input, seen + [key], uniq[key := 1], output + [input[|seen|]])
  {
    assert (seen + [key])[..|seen|] == seen;
  }

  method FilterOnlyKeepUniqueTactics(input: seq<HttpsDialerTactic>) returns (output: seq<HttpsDialerTactic>)
    ensures output == Pick(input, FirstPositions(Keys(Fields(input))))
  {
    hide Tactic.SummaryKey;
    output := [];
    var uniq: map<string, int> := map[];
    ghost var keys := Keys(Fields(input));
    ghost var seen: seq<string> := [];
    var i := 0;
    while i < |input|
      invariant 0 <= i <= |input|
      invariant seen == keys[..i]
      invariant Deduplicated(input, seen, uniq, output)
    {
      var tx := input[i];
      var key := tx.fields.SummaryKey();
      KeyAt(Fields(input), i);
      DeduplicateStep(input, seen, key, uniq, output);
      seen := seen + [key];
      i := i + 1;
      if Count(uniq, key) > 0 {
        continue;
      }
      uniq := uniq[key := Count(uniq, key) + 1];
      output := output + [tx];
    }
    assert seen == keys;
  }

  predicate Distinct<T(==)>(s: seq<T>) {
    forall i, j :: 0 <= i < j < |s| ==> s[i] != s[j]
  }

  /** The object at `k` does not come again before `n`. */
  predicate NotBetween(s: seq<HttpsDialerTactic>, k: nat, n: nat)
    requires k < |s| && n <= |s|
  {
    forall j :: k < j < n ==> s[j] != s[k]
  }

  /** Rewrites the delays in place. `sent` is what each tactic looked like when it was emitted;
      afterwards a tactic is as it was when it was emitted last. */
  method FilterAssignInitialDelays(input: seq<HttpsDialerTactic>) returns (output: seq<HttpsDialerTactic>, sent: seq<Tactic>)
    modifies input
    ensures output == input
    ensures sent == AssignDelays(old(Fields(input)))
    ensures forall k {:trigger sent[k]} :: 0 <= k < |input| && NotBetween(input, k, |input|) ==> input[k].fields == sent[k]
    ensures Distinct(input) ==> Fields(input) == sent
  {
    hide HappyEyeballsDelay;
    output, sent := [], [];
    var index := 0;
    ghost var before := Fields(input);
    while index < |input|
      invariant 0 <= index <= |input|
      invariant output == input[..index]
      invariant |sent| == index
      invariant forall k {:trigger before[k]} :: 0 <= k < |input| ==> input[k].fields.SameAs(before[k])
      invariant forall k {:trigger sent[k]} :: 0 <= k < index ==> sent[k] == before[k].(initialDelay := HappyEyeballsDelay(k))
      invariant forall k {:trigger sent[k]} :: 0 <= k < index && NotBetween(input, k, index) ==> input[k].fields == sent[k]
    {
      var tx := input[index];
      assert tx.fields.SameAs(before[index]);
      tx.fields := tx.fields.(initialDelay := HappyEyeballsDelay(index));
      output := output + [tx];
      sent := sent + [tx.fields];
      index := index + 1;
    }
  }

  /** The whole filter chain: it emits FilterTactics of its input and leaves every tactic it
      drops alone. */
  method HttpsDialerFilterTactics(input: seq<HttpsDialerTactic?>) returns (output: seq<HttpsDialerTactic>)
    modifies set t: HttpsDialerTactic | t in input
    ensures Fields(output) == FilterTactics(old(Values(input)))
    ensures forall t :: t in output ==> t in input
    ensures forall t: HttpsDialerTactic :: t in input && t !in output ==> t.fields == old(t.fields)
    ensures Distinct(output)
  {
    hide Tactic.SummaryKey;
    var nonNil := FilterOutNilTactics(input);
    NonNilRefsFields(input);
    var unique := FilterOnlyKeepUniqueTactics(nonNil);
    assert Fields(unique) == Unique(Fields(nonNil));
    forall i, j | 0 <= i < j < |unique|
      ensures unique[i] != unique[j]
    {
      UniqueKeysAreDistinct(Fields(nonNil), i, j);
    }
    forall t | t in unique
      ensures t in input
    {
      NonNilRefsSubset(input, t);
    }
    var sent;
    output, sent := FilterAssignInitialDelays(unique);
    assert Fields(output) == sent;
  }
}
