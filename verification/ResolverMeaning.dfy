/** What a lookup of the session resolver does to its list and answers, in plain terms (pkg/engineresolver). */
module ResolverMeaning {
  import opened Optional
  import opened Resolver
  import StableSort

  /** A proxy carries these resolvers only. */
  predicate CarriedByProxy(url: string) {
    "https:" <= url || "dot:" <= url || "tcp:" <= url
  }

  lemma {:induction false} SchemeIsPrefix(url: string, scheme: string)
    requires ':' !in scheme
    ensures ':' in url ==> (BeforeColon(url) == scheme <==> scheme + ":" <= url)
    ensures scheme + ":" <= url ==> ':' in url
  {
    if scheme + ":" <= url {
      assert url[|scheme|] == (scheme + ":")[|scheme|];
    }
    if ':' in url {
      if scheme == [] {
        assert scheme + ":" == ":";
      } else if url[0] != ':' {
        SchemeIsPrefix(url[1..], scheme[1..]);
        assert scheme + ":" == [scheme[0]] + (scheme[1..] + ":");
        assert url == [url[0]] + url[1..];
      }
    }
  }

  lemma SkippedUnlessCarried(url: string)
    ensures ShouldSkipWithProxy(url) <==> !CarriedByProxy(url)
  {
    SchemeIsPrefix(url, "https");
    SchemeIsPrefix(url, "dot");
    SchemeIsPrefix(url, "tcp");
    assert "https" + ":" == "https:" && "dot" + ":" == "dot:" && "tcp" + ":" == "tcp:";
  }

  predicate IsUsed(e: Entry, proxied: bool) {
    !proxied || CarriedByProxy(e.url)
  }

  /** The score of an entry that was looked at: a success moves it nine tenths of the way to one, a failure nine
      tenths of the way to zero, and a resolver that cannot be made has none. */
  predicate IsRescored(e: Entry, e': Entry, a: Attempt) {
    && e'.url == e.url
    && match a
       case ContextDone(_) => e'.score == e.score
       case NoChildResolver(_) => e'.score == 0.0
       case LookupFailed(_) => 10.0 * e'.score == e.score
       case LookupSucceeded(_) => 10.0 * e'.score == 9.0 + e.score
  }

  lemma AfterIsRescored(e: Entry, proxied: bool, a: Attempt)
    ensures IsUsed(e, proxied) ==> IsRescored(e, After(e, proxied, a), a)
    ensures !IsUsed(e, proxied) ==> After(e, proxied, a) == e
  {
    hide ShouldSkipWithProxy, CarriedByProxy;
    SkippedUnlessCarried(e.url);
  }

  /** `n` is the entry that gives the answer, or the length of the list. */
  ghost predicate AnswersAt(order: seq<Entry>, proxied: bool, world: World, n: nat) {
    && n <= |order|
    && (forall i: nat {:trigger order[i]} :: i < n ==> !(IsUsed(order[i], proxied) && world(i).LookupSucceeded?))
    && (n < |order| ==> IsUsed(order[n], proxied) && world(n).LookupSucceeded?)
  }

  lemma {:induction false} ErrorsMember(order: seq<Entry>, proxied: bool, world: World, n: nat, error: string, url: string)
    requires n <= |order| && forall i: nat {:trigger order[i]} :: i < n ==> !(IsUsed(order[i], proxied) && world(i).LookupSucceeded?)
    ensures ErrWrapper(error, url) in ErrorsOf(order, proxied, world, n) <==>
              exists i: nat {:trigger order[i]} :: i < n && IsUsed(order[i], proxied) && order[i].url == url && world(i).error == error
  {
    hide ShouldSkipWithProxy, CarriedByProxy;
    if n > 0 {
      SkippedUnlessCarried(order[n - 1].url);
      ErrorsMember(order, proxied, world, n - 1, error, url);
    }
  }

  /** A lookup tries the entries in order, up to the first one that is used and succeeds; rescores those that it tried;
      leaves all others as they are; and answers with the addresses of that success, or with the errors of all that
      were used. */
  lemma LookupMeans(order: seq<Entry>, proxied: bool, world: World, t: seq<Entry>,
                    addrs: seq<string>, errors: Option<seq<ErrWrapper>>) returns (n: nat)
    requires Updated(order, proxied, world, t) && Answer(order, proxied, world, addrs, errors)
    ensures AnswersAt(order, proxied, world, n)
    ensures |t| == |order|
    ensures forall i: nat {:trigger t[i]} :: i < |t| ==>
              if i <= n && IsUsed(order[i], proxied) then IsRescored(order[i], t[i], world(i)) else t[i] == order[i]
    ensures n < |order| ==> errors.None? && addrs == world(n).addrs
    ensures n == |order| ==>
              && errors.Some? && addrs == []
              && forall error, url :: ErrWrapper(error, url) in errors.value <==>
                   exists i: nat {:trigger order[i]} ::
                     i < |order| && IsUsed(order[i], proxied) && order[i].url == url && world(i).error == error
  {
    hide ShouldSkipWithProxy, CarriedByProxy, After, ErrorsOf;
    n := Stop(order, proxied, world, 0);
    forall i: nat {:trigger order[i]} | i < |order|
      ensures Skipped(order[i], proxied) <==> !IsUsed(order[i], proxied)
    {
      SkippedUnlessCarried(order[i].url);
    }
    forall i: nat {:trigger t[i]} | i < |t|
      ensures if i <= n && IsUsed(order[i], proxied) then IsRescored(order[i], t[i], world(i)) else t[i] == order[i]
    {
      AfterIsRescored(order[i], proxied, world(i));
    }
    if n == |order| {
      forall error, url
        ensures ErrWrapper(error, url) in errors.value <==>
                  exists i: nat {:trigger order[i]} ::
                    i < |order| && IsUsed(order[i], proxied) && order[i].url == url && world(i).error == error
      {
        ErrorsMember(order, proxied, world, n, error, url);
      }
    }
  }

  /** The list that is read has exactly the stored entries that are supported, as they were stored, and the built-in
      ones whose URL none of those has. */
  lemma StateDefaultMembers(makers: seq<Entry>, stored: Option<seq<Entry>>, e: Entry)
    requires ValidMakers(makers)
    ensures e in StateDefault(makers, stored) <==>
              || (e in stored.UnwrapOr([]) && e.url in MAKER_URLS)
              || (e in makers && forall s {:trigger s in stored.UnwrapOr([])} :: s in stored.UnwrapOr([]) && s.url in MAKER_URLS ==> s.url != e.url)
  {
    hide Prune, Missing, AtLeast, StableSort.Sort, HasUrl, Distinct, MAKER_URLS;
    var ri := Prune(stored.UnwrapOr([]));
    PruneMembers(stored.UnwrapOr([]));
    MakersAreDistinct(makers);
    MissingMembers(makers, ri);
    StableSort.SortKeepsElements(AtLeast, ri + Missing(makers, ri));
    HasUrlMembers(ri, e.url);
  }

  lemma HasUrlMembers(s: seq<Entry>, url: string)
    ensures HasUrl(s, url) <==> exists x :: x in s && x.url == url
  {
    if x :| x in s && x.url == url {
      var i :| 0 <= i < |s| && s[i] == x;
    }
  }
}
