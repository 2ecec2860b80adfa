/** Mixing a primary and a fallback stream (pkg/enginenetx/mixpolicy.go). */
module MixPolicy {
  import opened Optional

  newtype uint8 = x: int | 0 <= x < 256

  function Min(a: int, b: int): int { if a <= b then a else b }

  /** How many elements are read from one side before moving to the other: a factor of zero counts as one. */
  function Batch(factor: uint8): (n: nat)
    ensures 1 <= n <= 255 && n >= factor as nat && (n == 1 || n == factor as nat)
  {
    if factor == 0 then 1 else factor as nat
  }

  // ----- what the policies emit

  function EitherOr<T>(primary: seq<T>, fallback: seq<T>): seq<T> {
    if primary == [] then fallback else primary
  }

  function Interleave<T>(primary: seq<T>, fallback: seq<T>, n: nat): seq<T>
    requires n >= 1
    decreases |primary| + |fallback|
  {
    if primary == [] && fallback == [] then []
    else
      var p, f := Min(n, |primary|), Min(n, |fallback|);
      primary[..p] + fallback[..f] + Interleave(primary[p..], fallback[f..], n)
  }

  // ----- where every element ends up

  /** The index that starts the batch of index `i`. */
  function BatchStart(i: nat, n: nat): nat
    requires n >= 1
  {
    if i < n then 0 else n + BatchStart(i - n, n)
  }

  /** The position of the i-th primary element when there are `others` fallback elements. */
  function PrimaryPosition(i: nat, others: nat, n: nat): nat
    requires n >= 1
  {
    i + Min(BatchStart(i, n), others)
  }

  /** The position of the j-th fallback element when there are `others` primary elements. */
  function FallbackPosition(j: nat, others: nat, n: nat): nat
    requires n >= 1
  {
    j + Min(BatchStart(j, n) + n, others)
  }

  lemma MulBounds(n: int, d: int)
    requires n > 0
    ensures d >= 1 ==> n * d >= n
    ensures d <= -1 ==> n * d <= -n
  {
  }

  lemma DivUnique(a: int, n: int, q: int, r: int)
    requires n > 0 && 0 <= r < n && a == n * q + r
    ensures a / n == q
  {
    var q', r' := a / n, a % n;
    assert n * (q - q') == r' - r;
    MulBounds(n, q - q');
  }

  lemma {:induction false} BatchStartIsRounding(i: nat, n: nat)
    requires n >= 1
    ensures BatchStart(i, n) == n * (i / n)
  {
    if i < n {
      DivUnique(i, n, 0, i);
    } else {
      BatchStartIsRounding(i - n, n);
      var q, r := (i - n) / n, (i - n) % n;
      assert n * (q + 1) == n * q + n;
      DivUnique(i, n, q + 1, r);
    }
  }

  lemma {:induction false} InterleaveLength<T>(primary: seq<T>, fallback: seq<T>, n: nat)
    requires n >= 1
    ensures |Interleave(primary, fallback, n)| == |primary| + |fallback|
    decreases |primary| + |fallback|
  {
    if primary != [] || fallback != [] {
      InterleaveLength(primary[Min(n, |primary|)..], fallback[Min(n, |fallback|)..], n);
    }
  }

  /** One round: a batch of each side. */
  function Round<T>(primary: seq<T>, fallback: seq<T>, n: nat): seq<T> {
    primary[..Min(n, |primary|)] + fallback[..Min(n, |fallback|)]
  }

  function AfterRound<T>(primary: seq<T>, fallback: seq<T>, n: nat): seq<T>
    requires n >= 1
  {
    Interleave(primary[Min(n, |primary|)..], fallback[Min(n, |fallback|)..], n)
  }

  lemma InterleaveUnfold<T>(primary: seq<T>, fallback: seq<T>, n: nat)
    requires n >= 1
    ensures Interleave(primary, fallback, n) == Round(primary, fallback, n) + AfterRound(primary, fallback, n)
  {
    if primary == [] && fallback == [] {
      assert Round(primary, fallback, n) == [];
    }
  }

  lemma RoundConserves<T>(primary: seq<T>, fallback: seq<T>, n: nat)
    ensures
      var p, f := primary[Min(n, |primary|)..], fallback[Min(n, |fallback|)..];
      multiset(primary) + multiset(fallback) == multiset(Round(primary, fallback, n)) + multiset(p) + multiset(f)
  {
    assert primary == primary[..Min(n, |primary|)] + primary[Min(n, |primary|)..];
    assert fallback == fallback[..Min(n, |fallback|)] + fallback[Min(n, |fallback|)..];
  }

  /** Nothing is lost or duplicated. */
  lemma {:induction false} InterleaveConserves<T>(primary: seq<T>, fallback: seq<T>, n: nat)
    requires n >= 1
    ensures multiset(Interleave(primary, fallback, n)) == multiset(primary) + multiset(fallback)
    decreases |primary| + |fallback|
  {
    if primary != [] || fallback != [] {
      hide Interleave, Round;
      InterleaveUnfold(primary, fallback, n);
      InterleaveConserves(primary[Min(n, |primary|)..], fallback[Min(n, |fallback|)..], n);
      RoundConserves(primary, fallback, n);
    }
  }

  lemma {:induction false} PrimaryPlacement<T>(primary: seq<T>, fallback: seq<T>, n: nat, i: nat)
    requires n >= 1 && i < |primary|
    ensures
      var k := PrimaryPosition(i, |fallback|, n);
      && k < |Interleave(primary, fallback, n)|
      && Interleave(primary, fallback, n)[k] == primary[i]
    decreases |primary| + |fallback|
  {
    hide Interleave;
    InterleaveUnfold(primary, fallback, n);
    var p, f := Min(n, |primary|), Min(n, |fallback|);
    if i < n {
      assert Round(primary, fallback, n)[i] == primary[i];
    } else {
      PrimaryPlacement(primary[p..], fallback[f..], n, i - n);
      assert PrimaryPosition(i, |fallback|, n) == p + f + PrimaryPosition(i - n, |fallback| - f, n);
    }
  }

  lemma {:induction false} FallbackPlacement<T>(primary: seq<T>, fallback: seq<T>, n: nat, j: nat)
    requires n >= 1 && j < |fallback|
    ensures
      var k := FallbackPosition(j, |primary|, n);
      && k < |Interleave(primary, fallback, n)|
      && Interleave(primary, fallback, n)[k] == fallback[j]
    decreases |primary| + |fallback|
  {
    hide Interleave;
    InterleaveUnfold(primary, fallback, n);
    var p, f := Min(n, |primary|), Min(n, |fallback|);
    if j < n {
      assert FallbackPosition(j, |primary|, n) == p + j;
      assert Round(primary, fallback, n)[p + j] == fallback[j];
    } else {
      FallbackPlacement(primary[p..], fallback[f..], n, j - n);
      assert FallbackPosition(j, |primary|, n) == p + f + FallbackPosition(j - n, |primary| - p, n);
    }
  }

  /** Where each element of an interleaved stream stands: primary element i comes after every
      full batch before it and as many fallback elements as there are up to that number. */
  lemma InterleavePlacement<T>(primary: seq<T>, fallback: seq<T>, n: nat, i: nat)
    requires n >= 1
    ensures |Interleave(primary, fallback, n)| == |primary| + |fallback|
    ensures PrimaryPosition(i, |fallback|, n) == i + Min(n * (i / n), |fallback|)
    ensures FallbackPosition(i, |primary|, n) == i + Min(n * (i / n) + n, |primary|)
    ensures i < |primary| ==>
              var k := PrimaryPosition(i, |fallback|, n);
              k < |Interleave(primary, fallback, n)| && Interleave(primary, fallback, n)[k] == primary[i]
    ensures i < |fallback| ==>
              var k := FallbackPosition(i, |primary|, n);
              k < |Interleave(primary, fallback, n)| && Interleave(primary, fallback, n)[k] == fallback[i]
  {
    hide Interleave;
    InterleaveLength(primary, fallback, n);
    BatchStartIsRounding(i, n);
    if i < |primary| {
      PrimaryPlacement(primary, fallback, n, i);
    }
    if i < |fallback| {
      FallbackPlacement(primary, fallback, n, i);
    }
  }

  // ----- the code

  /** Drains the primary channel, and the fallback one only when nothing came. */
  method MixPolicyEitherOrLookupTactics<T>(primary: seq<T>, fallback: seq<T>) returns (output: seq<T>)
    ensures output == EitherOr(primary, fallback)
  {
    output := [];
    var count := 0;
    while count < |primary|
      invariant 0 <= count <= |primary|
      invariant output == primary[..count]
    {
      output := output + [primary[count]];
      count := count + 1;
    }
    if count > 0 {
      return;
    }
    var i := 0;
    while i < |fallback|
      invariant 0 <= i <= |fallback|
      invariant output == fallback[..i]
    {
      output := output + [fallback[i]];
      i := i + 1;
    }
  }

  /** Takes up to a batch from a channel that was not seen at its end yet. Nothing comes back
      once reading has hit the end, even when the batch itself was complete. */
  method MaybeTakeN<T>(factor: uint8, input: Option<seq<T>>, output: seq<T>) returns (rest: Option<seq<T>>, sent: seq<T>)
    ensures input.None? ==> rest.None? && sent == output
    ensures input.Some? ==>
              var taken := Min(Batch(factor), |input.value|);
              && sent == output + input.value[..taken]
              && rest == if taken < Batch(factor) then None else Some(input.value[taken..])
  {
    sent := output;
    if input.Some? {
      var ch := input.value;
      var idx: uint8 := 0;
      var n: uint8 := if factor < 1 then 1 else factor;
      ghost var i := 0;
      while idx < n
        invariant idx <= n && i == idx as int <= |input.value|
        invariant ch == input.value[i..]
        invariant sent == output + input.value[..i]
      {
        if ch == [] {
          return None, sent;
        }
        sent := sent + [ch[0]];
        ch := ch[1..];
        idx := idx + 1;
        i := i + 1;
      }
      return Some(ch), sent;
    }
    return None, sent;
  }

  /** The remaining stream of a channel: nothing once its end was seen. */
  function Left<T>(ch: Option<seq<T>>): seq<T> {
    if ch.None? then [] else ch.value
  }

  function Weight<T>(ch: Option<seq<T>>): nat {
    if ch.None? then 0 else 1 + |ch.value|
  }

  lemma AfterRoundLeft<T>(p: seq<T>, f: seq<T>, n: nat, p': seq<T>, f': seq<T>)
    requires n >= 1
    requires p' == p[Min(n, |p|)..] && f' == f[Min(n, |f|)..]
    ensures AfterRound(p, f, n) == Interleave(p', f', n)
  {
  }

  lemma InterleaveRound<T>(before: seq<T>, p: seq<T>, f: seq<T>, n: nat)
    requires n >= 1
    ensures before + Interleave(p, f, n) == (before + Round(p, f, n)) + AfterRound(p, f, n)
    ensures p == [] && f == [] ==> before + Interleave(p, f, n) == before
  {
    InterleaveUnfold(p, f, n);
  }

  method MixPolicyInterleaveLookupTactics<T>(factor: uint8, p: seq<T>, f: seq<T>) returns (output: seq<T>)
    ensures output == Interleave(p, f, Batch(factor))
  {
    hide Interleave, AfterRound;
    output := [];
    var primary: Option<seq<T>> := Some(p);
    var fallback: Option<seq<T>> := Some(f);
    while primary.Some? || fallback.Some?
      invariant output + Interleave(Left(primary), Left(fallback), Batch(factor)) == Interleave(p, f, Batch(factor))
      decreases Weight(primary) + Weight(fallback)
    {
      ghost var before, lp, lf, n := output, Left(primary), Left(fallback), Batch(factor);
      InterleaveRound(before, lp, lf, n);
      primary, output := MaybeTakeN(factor, primary, output);
      fallback, output := MaybeTakeN(factor, fallback, output);
      assert output == before + Round(lp, lf, n);
      AfterRoundLeft(lp, lf, n, Left(primary), Left(fallback));
    }
    InterleaveRound(output, [], [], Batch(factor));
  }
}
