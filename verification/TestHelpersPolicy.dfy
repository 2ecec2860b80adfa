/** Trying further SNIs for the test helpers (pkg/enginenetx/testhelperspolicy.go). */
module TestHelpersPolicy {
  import opened Tactics

  const TEST_HELPERS_DOMAINS: seq<string> := [
    "0.th.ooni.org",
    "1.th.ooni.org",
    "2.th.ooni.org",
    "3.th.ooni.org",
    "d33d1gs9kpq1c5.cloudfront.net"
  ]

  predicate IsTestHelper(t: Tactic) {
    t.verifyHostname in TEST_HELPERS_DOMAINS
  }

  /** The tactics to extend, in the order in which the child emitted them. */
  function ToExtend(child: seq<Tactic>): seq<Tactic> {
    if child == [] then []
    else
      var last := child[|child| - 1];
      ToExtend(child[..|child| - 1]) + (if IsTestHelper(last) then [last] else [])
  }

  function WithSNI(t: Tactic, sni: string): Tactic {
    Tactic(t.address, 0, t.port, sni, t.verifyHostname)
  }

  function Extend(t: Tactic, snis: seq<string>): (r: seq<Tactic>)
    ensures |r| == |snis|
  {
    if snis == [] then [] else Extend(t, snis[..|snis| - 1]) + [WithSNI(t, snis[|snis| - 1])]
  }

  /** `order(k)` is the shuffled list of SNIs used for the k-th tactic to extend. */
  function Extensions(todo: seq<Tactic>, order: nat -> seq<string>): seq<Tactic> {
    if todo == [] then []
    else
      var n := |todo| - 1;
      Extensions(todo[..n], order) + Extend(todo[n], order(n))
  }

  function LookupTactics(child: seq<Tactic>, order: nat -> seq<string>): seq<Tactic> {
    child + Extensions(ToExtend(child), order)
  }

  // ----- what that means

  lemma {:induction false} ExtendMeaning(t: Tactic, snis: seq<string>, x: Tactic)
    ensures x in Extend(t, snis) <==> exists sni :: sni in snis && x == WithSNI(t, sni)
  {
    if snis != [] {
      var n := |snis| - 1;
      ExtendMeaning(t, snis[..n], x);
      assert snis == snis[..n] + [snis[n]];
    }
  }

  lemma {:induction false} ToExtendMeaning(child: seq<Tactic>, x: Tactic)
    ensures x in ToExtend(child) <==> x in child && IsTestHelper(x)
  {
    hide IsTestHelper;
    if child != [] {
      var n := |child| - 1;
      ToExtendMeaning(child[..n], x);
      assert child == child[..n] + [child[n]];
    }
  }

  lemma {:induction false} ExtensionsMeaning(todo: seq<Tactic>, order: nat -> seq<string>, snis: seq<string>, x: Tactic)
    requires forall k: nat :: multiset(order(k)) == multiset(snis)
    ensures x in Extensions(todo, order) <==> exists t, sni :: t in todo && sni in snis && x == WithSNI(t, sni)
  {
    if todo != [] {
      var n := |todo| - 1;
      ExtensionsMeaning(todo[..n], order, snis, x);
      ExtendMeaning(todo[n], order(n), x);
      assert todo == todo[..n] + [todo[n]];
      assert multiset(order(n)) == multiset(snis);
      assert forall sni :: sni in order(n) <==> sni in multiset(order(n));
      assert forall sni :: sni in snis <==> sni in multiset(snis);
    }
  }

  /** The original tactics come first and unchanged; what follows is every test helper tactic
      with every further SNI, whatever the shuffles were. */
  lemma LookupTacticsMeaning(child: seq<Tactic>, order: nat -> seq<string>, snis: seq<string>, x: Tactic)
    requires forall k: nat :: multiset(order(k)) == multiset(snis)
    ensures child <= LookupTactics(child, order)
    ensures x in LookupTactics(child, order)[|child|..] <==>
            exists t, sni :: t in child && IsTestHelper(t) && sni in snis && x == WithSNI(t, sni)
  {
    hide IsTestHelper;
    ExtensionsMeaning(ToExtend(child), order, snis, x);
    forall t {
      ToExtendMeaning(child, t);
    }
    assert LookupTactics(child, order)[|child|..] == Extensions(ToExtend(child), order);
  }

  // ----- the code

  method TestHelpersPolicyLookupTactics(child: seq<Tactic>, order: nat -> seq<string>) returns (out: seq<Tactic>)
    ensures out == LookupTactics(child, order)
  {
    hide IsTestHelper;
    out := [];
    var todo: seq<Tactic> := [];
    var i := 0;
    while i < |child|
      invariant 0 <= i <= |child|
      invariant out == child[..i]
      invariant todo == ToExtend(child[..i])
    {
      var tactic := child[i];
      assert child[..i + 1][..i] == child[..i];
      out := out + [tactic];
      i := i + 1;
      if !IsTestHelper(tactic) {
        continue;
      }
      todo := todo + [tactic];
    }
    assert child[..i] == child;
    var k := 0;
    while k < |todo|
      invariant 0 <= k <= |todo|
      invariant out == child + Extensions(todo[..k], order)
    {
      var snis := order(k);
      var j := 0;
      while j < |snis|
        invariant 0 <= j <= |snis|
        invariant out == child + Extensions(todo[..k], order) + Extend(todo[k], snis[..j])
      {
        assert snis[..j + 1][..j] == snis[..j];
        out := out + [WithSNI(todo[k], snis[j])];
        j := j + 1;
      }
      assert snis[..j] == snis;
      assert todo[..k + 1][..k] == todo[..k];
      k := k + 1;
    }
    assert todo[..k] == todo;
  }
}
