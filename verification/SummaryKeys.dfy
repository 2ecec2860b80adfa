/** When two tactics have one summary key (pkg/enginenetx/httpsdialer.go). */
module SummaryKeys {
  import opened Tactics

  // ----- cutting strings

  predicate OccursAt(s: string, pat: string, i: nat) {
    i + |pat| <= |s| && s[i..i + |pat|] == pat
  }

  ghost predicate Contains(s: string, pat: string) {
    exists i: nat :: OccursAt(s, pat, i)
  }

  lemma Element(s: string, pat: string, i: nat, k: nat)
    requires OccursAt(s, pat, i) && k < |pat|
    ensures s[i + k] == pat[k]
  {
    assert s[i..i + |pat|][k] == s[i + k];
  }

  /** Two occurrences of the pattern cannot overlap. */
  predicate Unbordered(pat: string) {
    pat != [] && forall k :: 0 < k < |pat| ==> pat[k] != pat[0]
  }

  /** An occurrence is before the pattern, at it, or after it. */
  lemma NoStraddle(a: string, pat: string, b: string, i: nat)
    requires Unbordered(pat) && OccursAt(a + pat + b, pat, i)
    ensures i == |a| || OccursAt(a, pat, i) || (i >= |a| + |pat| && OccursAt(b, pat, i - |a| - |pat|))
  {
    var s := a + pat + b;
    Element(s, pat, i, 0);
    if i < |a| {
      if i + |pat| > |a| {
        Element(s, pat, i, |a| - i);
      } else {
        assert s[i..i + |pat|] == a[i..i + |pat|];
      }
    } else if i >= |a| + |pat| {
      var j := i - |a| - |pat|;
      assert s[i..i + |pat|] == b[j..j + |pat|];
    } else {
      assert s[i] == pat[i - |a|];
    }
  }

  /** Cutting at the first occurrence is unambiguous. */
  lemma FirstCut(a1: string, b1: string, a2: string, b2: string, pat: string)
    requires Unbordered(pat) && !Contains(a1, pat) && !Contains(a2, pat)
    requires a1 + pat + b1 == a2 + pat + b2
    ensures a1 == a2 && b1 == b2
  {
    SameCut(a1, b1, a2, b2, pat);
  }

  /** Cutting at the last occurrence is unambiguous. */
  lemma LastCut(a1: string, b1: string, a2: string, b2: string, pat: string)
    requires Unbordered(pat) && !Contains(b1, pat) && !Contains(b2, pat)
    requires a1 + pat + b1 == a2 + pat + b2
    ensures a1 == a2 && b1 == b2
  {
    SameCut(a1, b1, a2, b2, pat);
  }

  /** Of two cuts of one string, one is in a part of the other. */
  lemma SameCut(a1: string, b1: string, a2: string, b2: string, pat: string)
    requires Unbordered(pat) && a1 + pat + b1 == a2 + pat + b2
    ensures (a1 == a2 && b1 == b2) || (Contains(a2, pat) && Contains(b1, pat)) || (Contains(a1, pat) && Contains(b2, pat))
  {
    var s := a1 + pat + b1;
    assert s[|a1|..|a1| + |pat|] == pat && s[|a2|..|a2| + |pat|] == pat;
    assert OccursAt(a2 + pat + b2, pat, |a1|) && OccursAt(a1 + pat + b1, pat, |a2|);
    NoStraddle(a2, pat, b2, |a1|);
    NoStraddle(a1, pat, b1, |a2|);
    if |a1| == |a2| {
      assert a1 == s[..|a1|] && a2 == s[..|a2|] && b1 == s[|a1| + |pat|..] && b2 == s[|a2| + |pat|..];
    }
  }

  lemma {:induction false} CutFirstAt(s: string, pat: string, i: nat) returns (a: string, b: string)
    requires OccursAt(s, pat, i) && pat != []
    ensures s == a + pat + b && !Contains(a, pat)
    decreases i
  {
    a, b := s[..i], s[i + |pat|..];
    if j: nat :| OccursAt(a, pat, j) {
      assert s[j..j + |pat|] == a[j..j + |pat|];
      a, b := CutFirstAt(s, pat, j);
    } else {
      assert s == a + pat + b;
    }
  }

  lemma {:induction false} CutLastAt(s: string, pat: string, i: nat) returns (a: string, b: string)
    requires OccursAt(s, pat, i) && pat != []
    ensures s == a + pat + b && !Contains(b, pat)
    decreases |s| - i
  {
    a, b := s[..i], s[i + |pat|..];
    if j: nat :| OccursAt(b, pat, j) {
      var k := i + |pat| + j;
      assert s[k..k + |pat|] == b[j..j + |pat|];
      a, b := CutLastAt(s, pat, k);
    } else {
      assert s == a + pat + b;
    }
  }

  lemma CutFirst(s: string, pat: string) returns (a: string, b: string)
    requires Contains(s, pat) && pat != []
    ensures s == a + pat + b && !Contains(a, pat)
  {
    var i: nat :| OccursAt(s, pat, i);
    a, b := CutFirstAt(s, pat, i);
  }

  lemma CutLast(s: string, pat: string) returns (a: string, b: string)
    requires Contains(s, pat) && pat != []
    ensures s == a + pat + b && !Contains(b, pat)
  {
    var i: nat :| OccursAt(s, pat, i);
    a, b := CutLastAt(s, pat, i);
  }

  lemma PartContains(a: string, s: string, b: string, pat: string)
    requires Contains(s, pat)
    ensures Contains(a + s + b, pat)
  {
    var i: nat :| OccursAt(s, pat, i);
    assert (a + s + b)[|a| + i..|a| + i + |pat|] == s[i..i + |pat|];
    assert OccursAt(a + s + b, pat, |a| + i);
  }

  /** A character that is not in the pattern separates its occurrences. */
  lemma Separated(a: string, c: char, b: string, pat: string)
    requires Contains(a + [c] + b, pat) && c !in pat
    ensures Contains(a, pat) || Contains(b, pat)
  {
    var s := a + [c] + b;
    var i: nat :| OccursAt(s, pat, i);
    if i + |pat| <= |a| {
      assert s[i..i + |pat|] == a[i..i + |pat|];
      assert OccursAt(a, pat, i);
    } else if i > |a| {
      var j: nat := i - |a| - 1;
      assert s[i..i + |pat|] == b[j..j + |pat|];
      assert OccursAt(b, pat, j);
    } else {
      Element(s, pat, i, |a| - i);
    }
  }

  // ----- the first colon

  /** The characters before the first colon, all when there is none. */
  function BeforeColon(s: string): (r: string)
    ensures ':' !in r
  {
    if s == [] || s[0] == ':' then [] else [s[0]] + BeforeColon(s[1..])
  }

  /** The characters after the first colon, none when there is none. */
  function AfterColon(s: string): string {
    if s == [] then [] else if s[0] == ':' then s[1..] else AfterColon(s[1..])
  }

  lemma {:induction false} ColonSplits(s: string)
    ensures ':' in s ==> s == BeforeColon(s) + ":" + AfterColon(s)
    ensures ':' !in s ==> BeforeColon(s) == s && AfterColon(s) == []
  {
    if s != [] && s[0] != ':' {
      ColonSplits(s[1..]);
      assert s == [s[0]] + s[1..];
    }
  }

  lemma {:induction false} FirstColon(h: string, t: string)
    requires ':' !in h
    ensures BeforeColon(h + ":" + t) == h && AfterColon(h + ":" + t) == t
  {
    var s := h + ":" + t;
    if h == [] {
      assert s == ":" + t;
    } else {
      assert s[1..] == h[1..] + ":" + t;
      FirstColon(h[1..], t);
    }
  }

  // ----- endpoints

  const BRACKET := "]:"

  /** Splitting the joined string at its last bracket may give another host and port for hosts that are quoted,
      or look so. */
  ghost predicate SafeEndpoint(host: string, port: string) {
    ':' in host || (host != [] && host[0] == '[') ==> !Contains(port, BRACKET)
  }

  lemma QuotedAndPlain(h1: string, p1: string, h2: string, p2: string)
    requires ':' in h1 && ':' !in h2 && SafeEndpoint(h2, p2)
    ensures JoinHostPort(h1, p1) != JoinHostPort(h2, p2)
  {
    if JoinHostPort(h1, p1) == JoinHostPort(h2, p2) {
      var s := JoinHostPort(h1, p1);
      ColonSplits(h1);
      var b, a := BeforeColon(h1), AfterColon(h1);
      assert s == "[" + b + ":" + (a + BRACKET + p1);
      FirstColon("[" + b, a + BRACKET + p1);
      FirstColon(h2, p2);
      assert h2 == "[" + b && p2 == a + BRACKET + p1;
      assert h2[0] == '[';
      assert OccursAt(p2, BRACKET, |a|);
    }
  }

  /** For safe endpoints, host and port can be read back from the joined string. */
  lemma JoinHostPortInjective(h1: string, p1: string, h2: string, p2: string)
    requires SafeEndpoint(h1, p1) && SafeEndpoint(h2, p2)
    ensures JoinHostPort(h1, p1) == JoinHostPort(h2, p2) <==> h1 == h2 && p1 == p2
  {
    if JoinHostPort(h1, p1) == JoinHostPort(h2, p2) {
      if ':' in h1 && ':' in h2 {
        LastCut("[" + h1, p1, "[" + h2, p2, BRACKET);
        assert h1 == ("[" + h1)[1..] && h2 == ("[" + h2)[1..];
      } else if ':' in h1 {
        QuotedAndPlain(h1, p1, h2, p2);
      } else if ':' in h2 {
        QuotedAndPlain(h2, p2, h1, p1);
      } else {
        FirstColon(h1, p1);
        FirstColon(h2, p2);
      }
    }
  }

  /** Every joined string is that of one safe endpoint. */
  lemma SafeForm(h: string, t: string) returns (host: string, port: string)
    requires ':' !in h
    ensures SafeEndpoint(host, port) && JoinHostPort(host, port) == h + ":" + t
    ensures (host == h && port == t) || t == AfterColon(host) + BRACKET + port
  {
    if h != [] && h[0] == '[' && Contains(t, BRACKET) {
      var a, b := CutLast(t, BRACKET);
      host, port := h[1..] + ":" + a, b;
      FirstColon(h[1..], a);
      assert h == "[" + h[1..];
      assert "[" + host + BRACKET + port == h + ":" + (a + BRACKET + b);
    } else {
      host, port := h, t;
    }
  }

  lemma JoinedAtColon(host: string, port: string)
    ensures
      var s := JoinHostPort(host, port);
      && s == BeforeColon(s) + ":" + AfterColon(s)
      && AfterColon(s) == if ':' in host then AfterColon(host) + BRACKET + port else port
  {
    hide BeforeColon, AfterColon;
    if ':' in host {
      QuotedAtColon(host, port);
    } else {
      FirstColon(host, port);
    }
  }

  lemma QuotedAtColon(host: string, port: string)
    requires ':' in host
    ensures
      var s := "[" + host + BRACKET + port;
      s == BeforeColon(s) + ":" + AfterColon(s) && AfterColon(s) == AfterColon(host) + BRACKET + port
  {
    ColonSplits(host);
    hide BeforeColon, AfterColon;
    var b, a := BeforeColon(host), AfterColon(host);
    assert "[" + host + BRACKET + port == ("[" + b) + ":" + (a + BRACKET + port);
    FirstColon("[" + b, a + BRACKET + port);
  }

  /** Exactly the safe endpoints share their joined string with no other safe endpoint. */
  lemma EndpointIsSafeExactly(host: string, port: string)
    ensures SafeEndpoint(host, port) <==>
              forall h, p {:trigger SafeEndpoint(h, p)} ::
                SafeEndpoint(h, p) && JoinHostPort(h, p) == JoinHostPort(host, port) ==> h == host && p == port
  {
    hide SafeEndpoint;
    forall h, p {:trigger SafeEndpoint(h, p)} | SafeEndpoint(host, port) && SafeEndpoint(h, p)
      ensures JoinHostPort(h, p) == JoinHostPort(host, port) ==> h == host && p == port
    {
      JoinHostPortInjective(h, p, host, port);
    }
    var s := JoinHostPort(host, port);
    JoinedAtColon(host, port);
    var h, p := SafeForm(BeforeColon(s), AfterColon(s));
    assert SafeEndpoint(h, p);
  }

  /** Every port with a bracket and a colon is ambiguous for some host. */
  lemma PortWithBracketCollides(port: string) returns (h1: string, h2: string, p2: string)
    requires Contains(port, BRACKET)
    ensures h1 != h2 && !Contains(p2, BRACKET) && JoinHostPort(h1, port) == JoinHostPort(h2, p2)
  {
    var a, b := CutLast(port, BRACKET);
    h1, h2, p2 := "[", ":" + a, b;
    assert h1[0] == '[' && h2[0] == ':';
    assert "[" + ":" + (a + BRACKET + b) == "[" + (":" + a) + BRACKET + b;
  }

  // ----- summary keys

  const SNI := " sni="
  const VERIFY := " verify="

  /** What the summary key relies on. */
  ghost predicate KeySafe(t: Tactic) {
    && SafeEndpoint(t.address, t.port)
    && !Contains(AfterColon(t.address), SNI) && !Contains(t.port, SNI)
    && !Contains(t.sni, VERIFY)
  }

  /** Without spaces, and without a colon in the port, as for names and addresses and numbers. */
  lemma PlainFieldsAreSafe(t: Tactic)
    requires ' ' !in t.address && ' ' !in t.port && ' ' !in t.sni && ':' !in t.port
    ensures KeySafe(t)
  {
    NotIn(t.port, SNI, ' ');
    NotIn(t.sni, VERIFY, ' ');
    ColonSplits(t.address);
    NotIn(AfterColon(t.address), SNI, ' ');
    if Contains(t.port, BRACKET) {
      HasItsCharacters(t.port, BRACKET, 1);
    }
  }

  lemma HasItsCharacters(s: string, pat: string, k: nat)
    requires Contains(s, pat) && k < |pat|
    ensures pat[k] in s
  {
    var i: nat :| OccursAt(s, pat, i);
    Element(s, pat, i, k);
  }

  lemma NotIn(s: string, pat: string, c: char)
    requires c !in s && pat != [] && pat[0] == c
    ensures !Contains(s, pat)
  {
    if Contains(s, pat) {
      HasItsCharacters(s, pat, 0);
    }
  }

  lemma SeparatorsDoNotOverlap()
    ensures Unbordered(BRACKET) && Unbordered(SNI) && Unbordered(VERIFY)
  {
  }

  lemma MarkerNotAcrossBracket(a: string, port: string)
    requires !Contains(a, SNI) && !Contains(port, SNI)
    ensures !Contains(a + BRACKET + port, SNI)
  {
    hide Contains;
    var tail := [':'] + port;
    assert a + BRACKET + port == a + [']'] + tail;
    assert tail == [] + [':'] + port;
    if Contains(a + [']'] + tail, SNI) {
      Separated(a, ']', tail, SNI);
      Separated([], ':', port, SNI);
      NothingInEmpty();
    }
  }

  lemma NothingInEmpty()
    ensures !Contains("", SNI)
  {
  }

  /** No server name marker after the first colon of the endpoint. */
  lemma SafeTail(t: Tactic)
    requires KeySafe(t)
    ensures !Contains(AfterColon(JoinHostPort(t.address, t.port)), SNI)
  {
    hide JoinHostPort, BeforeColon, AfterColon, Contains, SafeEndpoint;
    JoinedAtColon(t.address, t.port);
    if ':' in t.address {
      MarkerNotAcrossBracket(AfterColon(t.address), t.port);
    }
  }

  /** Deduplication and the statistics never merge two different safe tactics: keys are equal exactly when
      address, port, SNI and verify hostname all are. */
  lemma SummaryKeyInjective(t1: Tactic, t2: Tactic)
    requires KeySafe(t1) && KeySafe(t2)
    ensures t1.SummaryKey() == t2.SummaryKey() <==> t1.SameAs(t2)
  {
    if t1.SummaryKey() == t2.SummaryKey() {
      SafeTail(t1);
      SafeTail(t2);
      SeparatorsDoNotOverlap();
      JoinedAtColon(t1.address, t1.port);
      JoinedAtColon(t2.address, t2.port);
      hide JoinHostPort, Contains, BeforeColon, AfterColon, Tactic.SummaryKey;
      var s1, s2 := JoinHostPort(t1.address, t1.port), JoinHostPort(t2.address, t2.port);
      var r1, r2 := t1.sni + VERIFY + t1.verifyHostname, t2.sni + VERIFY + t2.verifyHostname;
      KeyOfParts(t1, BeforeColon(s1), AfterColon(s1));
      KeyOfParts(t2, BeforeColon(s2), AfterColon(s2));
      FirstColon(BeforeColon(s1), AfterColon(s1) + SNI + r1);
      FirstColon(BeforeColon(s2), AfterColon(s2) + SNI + r2);
      FirstCut(AfterColon(s1), r1, AfterColon(s2), r2, SNI);
      FirstCut(t1.sni, t1.verifyHostname, t2.sni, t2.verifyHostname, VERIFY);
      JoinHostPortInjective(t1.address, t1.port, t2.address, t2.port);
    }
  }

  /** Cutting at the first markers. */
  lemma FirstMarkers(tail: string, sni: string, verify: string) returns (a: string, sni': string, verify': string)
    ensures tail + SNI + (sni + VERIFY + verify) == a + SNI + (sni' + VERIFY + verify')
    ensures !Contains(a, SNI) && !Contains(sni', VERIFY)
  {
    ContainsItself(tail, SNI, sni + VERIFY + verify);
    var b;
    a, b := CutFirst(tail + SNI + (sni + VERIFY + verify), SNI);
    RestHasVerify(tail, sni, verify, a, b);
    sni', verify' := CutFirst(b, VERIFY);
  }

  lemma KeyOfParts(t: Tactic, h: string, a: string)
    requires JoinHostPort(t.address, t.port) == h + ":" + a
    ensures t.SummaryKey() == h + ":" + (a + SNI + (t.sni + VERIFY + t.verifyHostname))
  {
    hide JoinHostPort;
    assert h + ":" + a + SNI + t.sni + VERIFY + t.verifyHostname == h + ":" + (a + SNI + (t.sni + VERIFY + t.verifyHostname));
  }

  /** The same key, read as a safe tactic: cut at the first markers and the last bracket. */
  lemma SafeTactic(t: Tactic) returns (r: Tactic)
    ensures KeySafe(r) && r.SummaryKey() == t.SummaryKey()
  {
    JoinedAtColon(t.address, t.port);
    hide JoinHostPort, KeySafe, Tactic.SummaryKey, AfterColon, SafeEndpoint;
    var s := JoinHostPort(t.address, t.port);
    var h := BeforeColon(s);
    KeyOfParts(t, h, AfterColon(s));
    var a, sni, verify := FirstMarkers(AfterColon(s), t.sni, t.verifyHostname);
    var host, port := SafeForm(h, a);
    r := Tactic(host, 0, port, sni, verify);
    SafeFormIsSafe(h, a, host, port, sni, verify);
    KeyOfParts(r, h, a);
  }

  lemma ContainsItself(a: string, pat: string, b: string)
    ensures Contains(a + pat + b, pat)
  {
    assert (a + pat + b)[|a|..|a| + |pat|] == pat;
    assert OccursAt(a + pat + b, pat, |a|);
  }

  /** What follows the first server name marker still has the other marker. */
  lemma RestHasVerify(tail: string, sni: string, verify: string, a: string, b: string)
    requires !Contains(a, SNI) && tail + SNI + (sni + VERIFY + verify) == a + SNI + b
    ensures Contains(b, VERIFY)
  {
    SeparatorsDoNotOverlap();
    var s := tail + SNI + (sni + VERIFY + verify);
    assert s[|a|..|a| + |SNI|] == SNI;
    assert OccursAt(s, SNI, |a|);
    NoStraddle(tail, SNI, sni + VERIFY + verify, |a|);
    ContainsItself(sni, VERIFY, verify);
    if |a| <= |tail| {
      var k := |tail| + |SNI| - |a| - |SNI|;
      assert b == s[|a| + |SNI|..];
      var y := sni + VERIFY + verify;
      assert y == s[|tail| + |SNI|..];
      assert b[k..] == y;
      assert b == b[..k] + y + [];
      PartContains(b[..k], y, [], VERIFY);
    } else {
      assert s[|tail|..|tail| + |SNI|] == SNI;
      assert s[|tail|..|tail| + |SNI|] == a[|tail|..|tail| + |SNI|];
      assert OccursAt(a, SNI, |tail|);
    }
  }

  lemma SafeFormIsSafe(h: string, a: string, host: string, port: string, sni: string, verify: string)
    requires SafeEndpoint(host, port) && ':' !in h
    requires (host == h && port == a) || a == AfterColon(host) + BRACKET + port
    requires !Contains(a, SNI) && !Contains(sni, VERIFY)
    ensures KeySafe(Tactic(host, 0, port, sni, verify))
  {
    hide SafeEndpoint;
    if host == h && port == a {
      ColonSplits(h);
      NotIn([], SNI, ' ');
    } else {
      var c := AfterColon(host);
      assert a == [] + c + (BRACKET + port) && a == (c + BRACKET) + port + [];
      if Contains(c, SNI) {
        PartContains([], c, BRACKET + port, SNI);
      } else if Contains(port, SNI) {
        PartContains(c + BRACKET, port, [], SNI);
      }
    }
  }

  /** Exactly the safe tactics share their key with no other safe tactic: for every tactic that is not safe
      there is a different one, which is safe, with the same key. */
  lemma KeyIsSafeExactly(t: Tactic)
    ensures KeySafe(t) <==>
              forall r {:trigger KeySafe(r)} :: KeySafe(r) && r.SummaryKey() == t.SummaryKey() ==> t.SameAs(r)
  {
    forall r {:trigger KeySafe(r)} | KeySafe(t) && KeySafe(r)
      ensures r.SummaryKey() == t.SummaryKey() ==> t.SameAs(r)
    {
      hide KeySafe, Tactic.SummaryKey;
      SummaryKeyInjective(t, r);
    }
    var r := SafeTactic(t);
    hide Tactic.SummaryKey, SafeEndpoint, Contains;
    assert KeySafe(r);
  }

  /** One collision for each field: a server name, a port and an address that hold a marker. */
  lemma KeysThatCollide()
    ensures Tactic("a", 0, "1", "x verify=y", "z").SummaryKey() == Tactic("a", 0, "1", "x", "y verify=z").SummaryKey()
    ensures Tactic("a", 0, "1 sni=x", "y", "z").SummaryKey() == Tactic("a", 0, "1", "x sni=y", "z").SummaryKey()
    ensures Tactic(":1 sni=x", 0, "2", "y", "z").SummaryKey() == Tactic("[", 0, "1", "x]:2 sni=y", "z").SummaryKey()
  {
    MarkerInServerName();
    MarkerInPort();
    MarkerInAddress();
  }

  lemma MarkerInServerName()
    ensures Tactic("a", 0, "1", "x verify=y", "z").SummaryKey() == Tactic("a", 0, "1", "x", "y verify=z").SummaryKey()
  {
    hide JoinHostPort;
    var e := JoinHostPort("a", "1") + SNI;
    assert e + ("x" + VERIFY + "y") + VERIFY + "z" == e + "x" + VERIFY + ("y" + VERIFY + "z");
    assert "x" + VERIFY + "y" == "x verify=y" && "y" + VERIFY + "z" == "y verify=z";
  }

  lemma MarkerInPort()
    ensures Tactic("a", 0, "1 sni=x", "y", "z").SummaryKey() == Tactic("a", 0, "1", "x sni=y", "z").SummaryKey()
  {
    var v := VERIFY + "z";
    assert "1 sni=x" == "1" + SNI + "x" && "x sni=y" == "x" + SNI + "y";
    assert "a" + ":" + ("1" + SNI + "x") + SNI + "y" + v == "a" + ":" + "1" + SNI + ("x" + SNI + "y") + v;
  }

  lemma MarkerInAddress()
    ensures Tactic(":1 sni=x", 0, "2", "y", "z").SummaryKey() == Tactic("[", 0, "1", "x]:2 sni=y", "z").SummaryKey()
  {
    var v := VERIFY + "z";
    assert ":1 sni=x"[0] == ':';
    assert ":1 sni=x" == ":1" + SNI + "x" && "x]:2 sni=y" == "x" + BRACKET + "2" + SNI + "y";
    assert "[" + (":1" + SNI + "x") + BRACKET + "2" + SNI + "y" + v
           == "[" + ":" + "1" + SNI + ("x" + BRACKET + "2" + SNI + "y") + v;
  }
}
