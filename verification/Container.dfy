/** The container that events are loaded into (pkg/minipipeline/observation.go). */
module Containers {
  import opened Optional
  import opened Observations
  import Sets

  /** An observation on the heap: ingestion updates it in place. */
  class WebObservation {
    var data: Observation

    constructor (data: Observation)
      ensures this.data == data
    {
      this.data := data;
    }
  }

  function DataOf(s: seq<WebObservation>): (r: seq<Observation>)
    reads s
    ensures |r| == |s| && forall i {:trigger r[i]} {:trigger s[i]} :: 0 <= i < |s| ==> r[i] == s[i].data
  {
    if s == [] then [] else DataOf(s[..|s| - 1]) + [s[|s| - 1].data]
  }

  function DataAt<K>(m: map<K, WebObservation>): (r: map<K, Observation>)
    reads m.Values
    ensures r.Keys == m.Keys && forall k {:trigger r[k]} {:trigger m[k]} :: k in m ==> r[k] == m[k].data
  {
    map k | k in m :: m[k].data
  }

  datatype ControlExpectations = ControlExpectations(dnsAddresses: set<string>, finalResponseFailure: Option<string>)

  /** What a container holds. */
  datatype View = View(failures: seq<Observation>, successes: seq<Observation>,
                       endpoints: map<TransactionID, Observation>, expectations: Option<ControlExpectations>)

  ghost predicate ValidView(v: View) {
    && (forall i {:trigger v.failures[i]} :: 0 <= i < |v.failures| ==> ValidLookup(v.failures[i]))
    && (forall i {:trigger v.successes[i]} :: 0 <= i < |v.successes| ==> ValidLookupSuccess(v.successes[i]))
    && (forall id {:trigger v.endpoints[id]} :: id in v.endpoints ==> ValidEndpoint(id, v.endpoints[id]))
  }

  // ----- what ingestion yields

  function FailuresOf(evs: seq<DnsEvent>): seq<Observation> {
    if evs == [] then []
    else
      var n := |evs| - 1;
      FailuresOf(evs[..n]) + (if evs[n].failure.Some? then [DnsFailure(evs[n])] else [])
  }

  /** The strings of a set in order; there is one way only, see `Sets.SortedKeysAreUnique`. */
  ghost function KeysOf(s: set<string>): seq<string> {
    if keys: seq<string> :| Sets.IsSortedKeys(Sets.StringLess, s, keys) then keys else []
  }

  function SuccessesAt(geo: Geo, ev: DnsEvent, ips: seq<string>): (r: seq<Observation>)
    ensures |r| == |ips|
  {
    if ips == [] then [] else SuccessesAt(geo, ev, ips[..|ips| - 1]) + [DnsSuccess(geo, ev, ips[|ips| - 1])]
  }

  ghost function SuccessesOf(geo: Geo, evs: seq<DnsEvent>): seq<Observation> {
    if evs == [] then []
    else
      var n := |evs| - 1;
      SuccessesOf(geo, evs[..n])
      + (if evs[n].failure.Some? then [] else SuccessesAt(geo, evs[n], KeysOf(ResolvedAddresses(evs[n].answers))))
  }

  /** The first lookup that resolved an address, or its stand-in. */
  function FirstWith(geo: Geo, successes: seq<Observation>, ip: string): Observation {
    if successes == [] then UnknownAddress(geo, ip)
    else if successes[0].ipAddress == Some(ip) then successes[0]
    else FirstWith(geo, successes[1..], ip)
  }

  function EndpointsOf(geo: Geo, successes: seq<Observation>, endpoints: map<TransactionID, Observation>, evs: seq<TcpEvent>)
      : map<TransactionID, Observation> {
    if evs == [] then endpoints
    else
      var ev := evs[|evs| - 1];
      EndpointsOf(geo, successes, endpoints, evs[..|evs| - 1])[ev.transactionID := Endpoint(FirstWith(geo, successes, ev.ip), ev)]
  }

  function TlsOf(endpoints: map<TransactionID, Observation>, evs: seq<TlsEvent>): (r: map<TransactionID, Observation>)
    ensures r.Keys == endpoints.Keys
  {
    if evs == [] then endpoints
    else
      var m, ev := TlsOf(endpoints, evs[..|evs| - 1]), evs[|evs| - 1];
      if ev.transactionID in m then m[ev.transactionID := WithTls(m[ev.transactionID], ev)] else m
  }

  function HttpOf(endpoints: map<TransactionID, Observation>, evs: seq<HttpEvent>): (r: map<TransactionID, Observation>)
    ensures r.Keys == endpoints.Keys
  {
    if evs == [] then endpoints
    else
      var m, ev := HttpOf(endpoints, evs[..|evs| - 1]), evs[|evs| - 1];
      if ev.transactionID in m then m[ev.transactionID := WithHttp(m[ev.transactionID], ev)] else m
  }

  /** The passes of the control over observations. */
  datatype Pass = DnsPass(domain: string) | MatchPass(domain: string) | TcpPass | TlsPass | ExpectationPass

  function Apply(pass: Pass, th: ThResponse, o: Observation): Observation {
    match pass
    case DnsPass(domain) => XrefDns(o, domain, th)
    case MatchPass(domain) => MatchDns(o, domain, th)
    case TcpPass => XrefTcp(o, th)
    case TlsPass => XrefTls(o, th)
    case ExpectationPass => WithExpectation(o, th)
  }

  function Mapped(pass: Pass, th: ThResponse, s: seq<Observation>): (r: seq<Observation>)
    ensures |r| == |s| && forall i {:trigger r[i]} :: 0 <= i < |s| ==> r[i] == Apply(pass, th, s[i])
  {
    if s == [] then [] else Mapped(pass, th, s[..|s| - 1]) + [Apply(pass, th, s[|s| - 1])]
  }

  function MappedAt(pass: Pass, th: ThResponse, m: map<TransactionID, Observation>): (r: map<TransactionID, Observation>)
    ensures r.Keys == m.Keys && forall k {:trigger r[k]} {:trigger m[k]} :: k in m ==> r[k] == Apply(pass, th, m[k])
  {
    map k | k in m :: Apply(pass, th, m[k])
  }

  /** What a pass makes of an observation. */
  predicate Passed(pass: Pass, th: ThResponse, o: Observation, o': Observation) {
    match pass
    case DnsPass(domain) => LookupIsCompared(o, o', domain, th)
    case MatchPass(domain) => EndpointIsMatched(o, o', domain, th)
    case TcpPass => ConnectIsCompared(o, o', th)
    case TlsPass => HandshakeIsCompared(o, o', th)
    case ExpectationPass => GetsExpectation(o, o', th)
  }

  /** The pass was over each of the list, and nothing else happened. */
  predicate AllPassed(pass: Pass, th: ThResponse, s: seq<Observation>, s': seq<Observation>) {
    |s'| == |s| && forall i {:trigger s'[i]} {:trigger s[i]} :: 0 <= i < |s| ==> Passed(pass, th, s[i], s'[i])
  }

  predicate AllPassedAt(pass: Pass, th: ThResponse, m: map<TransactionID, Observation>, m': map<TransactionID, Observation>) {
    m'.Keys == m.Keys && forall k {:trigger m'[k]} {:trigger m[k]} :: k in m ==> Passed(pass, th, m[k], m'[k])
  }

  lemma MappedIsPassed(pass: Pass, th: ThResponse, s: seq<Observation>)
    ensures AllPassed(pass, th, s, Mapped(pass, th, s))
  {
    hide Mapped, Passed, Apply;
    forall i {:trigger s[i]} | 0 <= i < |s|
      ensures Passed(pass, th, s[i], Mapped(pass, th, s)[i])
    {
      AppliedIsPassed(pass, th, s[i]);
    }
  }

  lemma MappedAtIsPassed(pass: Pass, th: ThResponse, m: map<TransactionID, Observation>)
    ensures AllPassedAt(pass, th, m, MappedAt(pass, th, m))
  {
    hide MappedAt, Passed, Apply;
    forall k {:trigger m[k]} | k in m
      ensures Passed(pass, th, m[k], MappedAt(pass, th, m)[k])
    {
      AppliedIsPassed(pass, th, m[k]);
    }
  }

  lemma AppliedIsPassed(pass: Pass, th: ThResponse, o: Observation)
    ensures Passed(pass, th, o, Apply(pass, th, o))
  {
    hide XrefDns, MatchDns, XrefTcp, XrefTls, WithExpectation;
    hide LookupIsCompared, EndpointIsMatched, ConnectIsCompared, HandshakeIsCompared, GetsExpectation;
    match pass
    case DnsPass(domain) => PassesAreExact(o, domain, th);
    case MatchPass(domain) => PassesAreExact(o, domain, th);
    case _ => PassesAreExact(o, "", th);
  }

  function Controlled(v: View, domain: string, th: ThResponse): View {
    View(Mapped(ExpectationPass, th, Mapped(DnsPass(domain), th, v.failures)),
         Mapped(ExpectationPass, th, Mapped(DnsPass(domain), th, v.successes)),
         MappedAt(ExpectationPass, th,
                  MappedAt(TlsPass, th, MappedAt(TcpPass, th, MappedAt(MatchPass(domain), th, v.endpoints)))),
         Some(ControlExpectations(th.dnsAddrs, Some(th.httpFailure.UnwrapOr("")))))
  }

  // ----- loops over observations

  /** No two places of the list hold the same object. */
  predicate Distinct(s: seq<WebObservation>) {
    forall i, j :: 0 <= i < j < |s| ==> s[i] != s[j]
  }

  predicate Apart(s: seq<WebObservation>, t: seq<WebObservation>) {
    forall i, j :: 0 <= i < |s| && 0 <= j < |t| ==> s[i] != t[j]
  }

  predicate Separate(s: seq<WebObservation>, m: map<TransactionID, WebObservation>) {
    forall i, k :: 0 <= i < |s| && k in m ==> s[i] != m[k]
  }

  lemma SeparateObjects(s: seq<WebObservation>, m: map<TransactionID, WebObservation>)
    requires Separate(s, m)
    ensures forall o :: o in s ==> o !in m.Values
  {
  }

  predicate Injective(m: map<TransactionID, WebObservation>) {
    forall j, k :: j in m && k in m && j != k ==> m[j] != m[k]
  }

  /** Every resolved address leads to the first lookup that resolved it. */
  ghost predicate Knows(known: map<string, WebObservation>, successes: seq<WebObservation>)
    reads successes
  {
    && (forall ip :: ip in known ==> exists i: nat :: LeadsTo(known, ip, successes, i))
    && (forall i {:trigger successes[i]} :: 0 <= i < |successes| ==>
          successes[i].data.ipAddress.Some? && successes[i].data.ipAddress.value in known)
  }

  ghost predicate LeadsTo(known: map<string, WebObservation>, ip: string, successes: seq<WebObservation>, i: nat)
    reads successes
  {
    && ip in known && i < |successes| && known[ip] == successes[i]
    && successes[i].data.ipAddress == Some(ip)
    && forall j {:trigger successes[j]} :: 0 <= j < i ==> successes[j].data.ipAddress != Some(ip)
  }

  /** These passes do not touch the address of a lookup. */
  lemma SameAddresses(pass: Pass, th: ThResponse, was: seq<Observation>, now: seq<Observation>)
    requires (pass.DnsPass? || pass.ExpectationPass?) && now == Mapped(pass, th, was)
    ensures forall i {:trigger now[i]} {:trigger was[i]} :: 0 <= i < |was| ==> now[i].ipAddress == was[i].ipAddress
  {
  }

  /** What `append` makes of a list: the old objects first, then new ones. */
  twostate predicate Extends(s: seq<WebObservation>, new r: seq<WebObservation>) {
    && |s| <= |r| && r[..|s|] == s
    && (forall i {:trigger r[i]} :: |s| <= i < |r| ==> fresh(r[i]))
    && (forall i, j :: |s| <= i < j < |r| ==> r[i] != r[j])
  }

  lemma DataOfAppend(s: seq<WebObservation>, obs: WebObservation)
    ensures DataOf(s + [obs]) == DataOf(s) + [obs.data]
  {
    assert (s + [obs])[..|s|] == s;
  }

  twostate predicate NewOrOld(s: seq<WebObservation>, new r: seq<WebObservation>) {
    forall i {:trigger r[i]} :: 0 <= i < |r| ==> fresh(r[i]) || r[i] in s
  }

  /** New objects are not among the old ones. */
  twostate lemma ExtendsKeepsDistinct(s: seq<WebObservation>, new r: seq<WebObservation>)
    requires Extends(s, r) && Distinct(s)
    ensures Distinct(r) && NewOrOld(s, r)
  {
    assert forall i {:trigger r[i]} :: 0 <= i < |s| ==> r[i] == r[..|s|][i] == s[i];
  }

  method AppendFailures(failures: seq<WebObservation>, evs: seq<DnsEvent>) returns (r: seq<WebObservation>)
    ensures Extends(failures, r)
    ensures DataOf(r) == old(DataOf(failures)) + FailuresOf(evs)
  {
    hide DnsFailure, DataOf;
    r := failures;
    var i := 0;
    while i < |evs|
      invariant 0 <= i <= |evs|
      invariant Extends(failures, r)
      invariant DataOf(r) == old(DataOf(failures)) + FailuresOf(evs[..i])
    {
      assert evs[..i + 1][..i] == evs[..i];
      if evs[i].failure.Some? {
        var obs := new WebObservation(DnsFailure(evs[i]));
        DataOfAppend(r, obs);
        r := r + [obs];
      }
      i := i + 1;
    }
    assert evs[..i] == evs;
  }

  /** A new lookup of an address that was resolved before changes nothing. */
  lemma KnowsOneMore(known: map<string, WebObservation>, successes: seq<WebObservation>, obs: WebObservation, ip: string)
    requires Knows(known, successes) && obs.data.ipAddress == Some(ip)
    ensures Knows(if ip in known then known else known[ip := obs], successes + [obs])
  {
    var known' := if ip in known then known else known[ip := obs];
    var successes' := successes + [obs];
    assert forall i {:trigger successes[i]} :: 0 <= i < |successes| ==> successes'[i] == successes[i];
    forall a | a in known'
      ensures exists i: nat :: LeadsTo(known', a, successes', i)
    {
      if a in known {
        var i: nat :| LeadsTo(known, a, successes, i);
        assert LeadsTo(known', a, successes', i) && successes'[i] == successes[i];
      } else {
        assert successes'[|successes|] == obs;
        assert LeadsTo(known', a, successes', |successes|);
      }
    }
  }

  /** The loop over the answers of one lookup. */
  method AppendAnswers(geo: Geo, ev: DnsEvent, ips: seq<string>, successes: seq<WebObservation>, known: map<string, WebObservation>)
      returns (r: seq<WebObservation>, known': map<string, WebObservation>)
    requires Knows(known, successes)
    ensures Extends(successes, r) && Knows(known', r)
    ensures DataOf(r) == old(DataOf(successes)) + SuccessesAt(geo, ev, ips)
  {
    hide DnsSuccess, Knows, ResolvedAddresses, DataOf;
    r, known' := successes, known;
    var i := 0;
    while i < |ips|
      invariant 0 <= i <= |ips|
      invariant Extends(successes, r) && Knows(known', r)
      invariant DataOf(r) == old(DataOf(successes)) + SuccessesAt(geo, ev, ips[..i])
    {
      assert ips[..i + 1][..i] == ips[..i];
      var obs := NewSuccess(geo, ev, ips[i]);
      KnowsOneMore(known', r, obs, ips[i]);
      DataOfAppend(r, obs);
      r := r + [obs];
      if ips[i] !in known' {
        known' := known'[ips[i] := obs];
      }
      i := i + 1;
    }
    assert ips[..i] == ips;
  }

  method NewSuccess(geo: Geo, ev: DnsEvent, ip: string) returns (obs: WebObservation)
    ensures fresh(obs) && obs.data == DnsSuccess(geo, ev, ip) && obs.data.ipAddress == Some(ip)
  {
    obs := new WebObservation(DnsSuccess(geo, ev, ip));
  }

  lemma KeysAreKeysOf(s: set<string>, keys: seq<string>)
    requires Sets.IsSortedKeys(Sets.StringLess, s, keys)
    ensures keys == KeysOf(s)
  {
    Sets.StringLessIsTotalOrder();
    Sets.SortedKeysAreUnique(Sets.StringLess, s, keys, KeysOf(s));
  }

  /** The addresses of one lookup, in order. */
  method SortedAddresses(ev: DnsEvent) returns (ips: seq<string>)
    ensures ips == KeysOf(ResolvedAddresses(ev.answers))
  {
    hide ResolvedAddresses;
    var addrs := new Sets.Set(Sets.StringLess, AddressList(ev.answers));
    AddressListMeaning(ev.answers);
    Sets.StringLessIsTotalOrder();
    ips := addrs.Keys();
    KeysAreKeysOf(addrs.Elements(), ips);
  }

  method AppendSuccesses(geo: Geo, evs: seq<DnsEvent>, successes: seq<WebObservation>, known: map<string, WebObservation>)
      returns (r: seq<WebObservation>, known': map<string, WebObservation>)
    requires Knows(known, successes)
    ensures Extends(successes, r) && Knows(known', r)
    ensures DataOf(r) == old(DataOf(successes)) + SuccessesOf(geo, evs)
  {
    hide Knows, SuccessesAt, ResolvedAddresses, KeysOf, DataOf;
    r, known' := successes, known;
    var i := 0;
    while i < |evs|
      invariant 0 <= i <= |evs|
      invariant Extends(successes, r) && Knows(known', r)
      invariant DataOf(r) == old(DataOf(successes)) + SuccessesOf(geo, evs[..i])
    {
      assert evs[..i + 1][..i] == evs[..i];
      if evs[i].failure.None? {
        var ips := SortedAddresses(evs[i]);
        ghost var before := r;
        r, known' := AppendAnswers(geo, evs[i], ips, r, known');
        assert forall k {:trigger r[k]} :: 0 <= k < |before| ==> r[k] == r[..|before|][k];
      }
      i := i + 1;
    }
    assert evs[..i] == evs;
  }

  lemma {:induction false} FirstWithAt(geo: Geo, successes: seq<Observation>, ip: string, i: nat)
    requires i < |successes| && successes[i].ipAddress == Some(ip)
    requires forall j :: 0 <= j < i ==> successes[j].ipAddress != Some(ip)
    ensures FirstWith(geo, successes, ip) == successes[i]
  {
    if i > 0 {
      FirstWithAt(geo, successes[1..], ip, i - 1);
    }
  }

  lemma {:induction false} FirstWithNone(geo: Geo, successes: seq<Observation>, ip: string)
    requires forall j :: 0 <= j < |successes| ==> successes[j].ipAddress != Some(ip)
    ensures FirstWith(geo, successes, ip) == UnknownAddress(geo, ip)
  {
    if successes != [] {
      FirstWithNone(geo, successes[1..], ip);
    }
  }

  lemma KnownIsFirst(geo: Geo, known: map<string, WebObservation>, successes: seq<WebObservation>, ip: string)
    requires Knows(known, successes)
    ensures ip in known ==> known[ip] in successes && known[ip].data == FirstWith(geo, DataOf(successes), ip)
    ensures ip !in known ==> UnknownAddress(geo, ip) == FirstWith(geo, DataOf(successes), ip)
  {
    hide UnknownAddress;
    if ip in known {
      var i: nat :| LeadsTo(known, ip, successes, i);
      FirstWithAt(geo, DataOf(successes), ip, i);
    } else {
      FirstWithNone(geo, DataOf(successes), ip);
    }
  }

  method NewEndpoint(geo: Geo, ev: TcpEvent, ghost successes: seq<WebObservation>, known: map<string, WebObservation>)
      returns (obs: WebObservation)
    requires Knows(known, successes)
    ensures fresh(obs) && obs.data == Endpoint(FirstWith(geo, DataOf(successes), ev.ip), ev)
  {
    hide Knows, DataOf, FirstWith, Endpoint, UnknownAddress;
    KnownIsFirst(geo, known, successes, ev.ip);
    var found := if ev.ip in known then known[ev.ip].data else UnknownAddress(geo, ev.ip);
    obs := new WebObservation(Endpoint(found, ev));
  }

  /** New endpoints are new objects, so updating them later leaves the lookups alone. */
  method AddEndpoints(geo: Geo, evs: seq<TcpEvent>, ghost successes: seq<WebObservation>, known: map<string, WebObservation>,
                      endpoints: map<TransactionID, WebObservation>) returns (r: map<TransactionID, WebObservation>)
    requires Knows(known, successes) && Injective(endpoints)
    ensures Injective(r) && NewOrOldAt(endpoints, r)
    ensures DataAt(r) == EndpointsOf(geo, DataOf(successes), old(DataAt(endpoints)), evs)
  {
    hide Knows, DataOf, FirstWith, Endpoint, UnknownAddress;
    r := endpoints;
    var i := 0;
    while i < |evs|
      invariant 0 <= i <= |evs|
      invariant Injective(r) && NewOrOldAt(endpoints, r)
      invariant DataAt(r) == EndpointsOf(geo, old(DataOf(successes)), old(DataAt(endpoints)), evs[..i])
    {
      assert evs[..i + 1][..i] == evs[..i];
      var obs := NewEndpoint(geo, evs[i], successes, known);
      r := r[evs[i].transactionID := obs];
      i := i + 1;
    }
    assert evs[..i] == evs;
  }

  /** Keys lead to the same object as before, or to a new one. */
  twostate predicate NewOrOldAt(m: map<TransactionID, WebObservation>, new r: map<TransactionID, WebObservation>) {
    forall k {:trigger r[k]} :: k in r ==> fresh(r[k]) || (k in m && r[k] == m[k])
  }

  /** New objects are not among those of another list or map. */
  twostate lemma NewLookupsAreApart(was: (seq<WebObservation>, seq<WebObservation>), new r: seq<WebObservation>)
    requires NewOrOld(was.0, r)
    ensures Apart(was.0, was.1) ==> Apart(r, was.1)
    ensures Apart(was.1, was.0) ==> Apart(was.1, r)
  {
  }

  twostate lemma NewLookupsAreSeparate(was: (seq<WebObservation>, map<TransactionID, WebObservation>), new r: seq<WebObservation>)
    requires Separate(was.0, was.1) && NewOrOld(was.0, r)
    ensures Separate(r, was.1)
  {
  }

  twostate lemma NewEndpointsAreSeparate(was: (seq<WebObservation>, map<TransactionID, WebObservation>),
                                         new r: map<TransactionID, WebObservation>)
    requires Separate(was.0, was.1) && NewOrOldAt(was.1, r)
    ensures Separate(was.0, r)
  {
  }

  method RecordHandshake(endpoints: map<TransactionID, WebObservation>, ev: TlsEvent)
    requires Injective(endpoints) && ev.transactionID in endpoints
    modifies endpoints[ev.transactionID]
    ensures DataAt(endpoints) == old(DataAt(endpoints))[ev.transactionID := WithTls(old(endpoints[ev.transactionID].data), ev)]
  {
    var obs := endpoints[ev.transactionID];
    var failure := Some(ev.failure.UnwrapOr(""));
    obs.data := obs.data.(kind := TLSHandshake, failure := failure, tlsHandshakeFailure := failure,
                          tlsServerName := Some(ev.serverName));
  }

  method UpdateTls(endpoints: map<TransactionID, WebObservation>, evs: seq<TlsEvent>)
    requires Injective(endpoints)
    modifies endpoints.Values
    ensures DataAt(endpoints) == TlsOf(old(DataAt(endpoints)), evs)
  {
    hide WithTls, Injective;
    var i := 0;
    while i < |evs|
      invariant 0 <= i <= |evs|
      invariant DataAt(endpoints) == TlsOf(old(DataAt(endpoints)), evs[..i])
    {
      assert evs[..i + 1][..i] == evs[..i];
      if evs[i].transactionID in endpoints {
        RecordHandshake(endpoints, evs[i]);
      }
      i := i + 1;
    }
    assert evs[..i] == evs;
  }

  method RecordRoundTrip(endpoints: map<TransactionID, WebObservation>, ev: HttpEvent)
    requires Injective(endpoints) && ev.transactionID in endpoints
    modifies endpoints[ev.transactionID]
    ensures DataAt(endpoints) == old(DataAt(endpoints))[ev.transactionID := WithHttp(old(endpoints[ev.transactionID].data), ev)]
  {
    hide ResponseIsFinal;
    var obs := endpoints[ev.transactionID];
    var failure := Some(ev.failure.UnwrapOr(""));
    obs.data := obs.data.(kind := HTTPRoundTrip, failure := failure, httpRequestURL := Some(ev.url), httpFailure := failure);
    if ev.failure.None? {
      obs.data := obs.data.(httpResponse :=
        HttpResponse(Some(ev.code), Some(ev.bodyLength), Some(ev.bodyIsTruncated), Some(ev.headersKeys),
                     ev.location, Some(ev.title), Some(ResponseIsFinal(ev.code))));
    }
  }

  method UpdateHttp(endpoints: map<TransactionID, WebObservation>, evs: seq<HttpEvent>)
    requires Injective(endpoints)
    modifies endpoints.Values
    ensures DataAt(endpoints) == HttpOf(old(DataAt(endpoints)), evs)
  {
    hide WithHttp, Injective;
    var i := 0;
    while i < |evs|
      invariant 0 <= i <= |evs|
      invariant DataAt(endpoints) == HttpOf(old(DataAt(endpoints)), evs[..i])
    {
      assert evs[..i + 1][..i] == evs[..i];
      if evs[i].transactionID in endpoints {
        RecordRoundTrip(endpoints, evs[i]);
      }
      i := i + 1;
    }
    assert evs[..i] == evs;
  }

  /** Each lookup knows its domain. */
  predicate HaveDomains(s: seq<Observation>) {
    forall i {:trigger s[i]} :: 0 <= i < |s| ==> s[i].dnsDomain.Some?
  }

  /** Unwrapping the domain is safe here. */
  method XrefLookups(observations: seq<WebObservation>, domain: string, th: ThResponse)
    requires Distinct(observations) && HaveDomains(DataOf(observations))
    modifies observations
    ensures DataOf(observations) == Mapped(DnsPass(domain), th, old(DataOf(observations)))
  {
    ghost var before := DataOf(observations);
    var i := 0;
    while i < |observations|
      invariant 0 <= i <= |observations|
      invariant forall j {:trigger observations[j]} :: 0 <= j < |observations| ==>
        observations[j].data == if j < i then XrefDns(before[j], domain, th) else before[j]
    {
      var obs := observations[i];
      i := i + 1;
      if obs.data.dnsDomain.value != domain {
        continue;
      }
      obs.data := obs.data.(control := obs.data.control.(dnsDomain := Some(domain),
                                                        dnsLookupFailure := Some(th.dnsFailure.UnwrapOr(""))));
      if th.dnsFailure.Some? {
        continue;
      }
      obs.data := obs.data.(control := obs.data.control.(dnsResolvedAddrs := Some(th.dnsAddrs)));
    }
  }

  /** In whatever order the map is iterated. The address is there, see `IngestedIsValid`. */
  method MatchLookupResults(endpoints: map<TransactionID, WebObservation>, domain: string, th: ThResponse)
    requires Injective(endpoints)
    requires forall k :: k in endpoints ==> endpoints[k].data.ipAddress.Some?
    modifies endpoints.Values
    ensures DataAt(endpoints) == MappedAt(MatchPass(domain), th, old(DataAt(endpoints)))
  {
    ghost var before := DataAt(endpoints);
    var left := endpoints.Keys;
    while left != {}
      invariant left <= endpoints.Keys
      invariant forall k {:trigger endpoints[k]} :: k in endpoints ==>
        endpoints[k].data == if k in left then before[k] else MatchDns(before[k], domain, th)
      decreases left
    {
      var k :| k in left;
      left := left - {k};
      var obs := endpoints[k];
      var own := obs.data.dnsDomain.UnwrapOr("");
      var addr := obs.data.ipAddress.value;
      if own == "" && addr in th.dnsAddrs {
        obs.data := obs.data.(ipAddressOrigin := Some(ORIGIN_TH),
                              control := obs.data.control.(dnsDomain := Some(domain),
                                                           dnsLookupFailure := Some(th.dnsFailure.UnwrapOr("")),
                                                           dnsResolvedAddrs := Some(th.dnsAddrs)));
        continue;
      }
      if own == "" || own != domain {
        continue;
      }
      obs.data := obs.data.(control := obs.data.control.(dnsDomain := Some(domain),
                                                        dnsLookupFailure := Some(th.dnsFailure.UnwrapOr(""))));
      if th.dnsFailure.Some? {
        continue;
      }
      obs.data := obs.data.(control := obs.data.control.(dnsResolvedAddrs := Some(th.dnsAddrs)));
    }
  }

  method XrefTcpFailures(endpoints: map<TransactionID, WebObservation>, th: ThResponse)
    requires Injective(endpoints)
    requires forall k :: k in endpoints ==> endpoints[k].data.endpointAddress.Some?
    modifies endpoints.Values
    ensures DataAt(endpoints) == MappedAt(TcpPass, th, old(DataAt(endpoints)))
  {
    ghost var before := DataAt(endpoints);
    var left := endpoints.Keys;
    while left != {}
      invariant left <= endpoints.Keys
      invariant forall k {:trigger endpoints[k]} :: k in endpoints ==>
        endpoints[k].data == if k in left then before[k] else XrefTcp(before[k], th)
      decreases left
    {
      var k :| k in left;
      left := left - {k};
      var obs := endpoints[k];
      var endpointAddress := obs.data.endpointAddress.value;
      if endpointAddress !in th.tcpConnect {
        continue;
      }
      obs.data := obs.data.(control := obs.data.control.(tcpConnectFailure := Some(th.tcpConnect[endpointAddress].UnwrapOr(""))));
    }
  }

  method XrefTlsFailures(endpoints: map<TransactionID, WebObservation>, th: ThResponse)
    requires Injective(endpoints)
    requires forall k :: k in endpoints ==> endpoints[k].data.endpointAddress.Some?
    modifies endpoints.Values
    ensures DataAt(endpoints) == MappedAt(TlsPass, th, old(DataAt(endpoints)))
  {
    ghost var before := DataAt(endpoints);
    var left := endpoints.Keys;
    while left != {}
      invariant left <= endpoints.Keys
      invariant forall k {:trigger endpoints[k]} :: k in endpoints ==>
        endpoints[k].data == if k in left then before[k] else XrefTls(before[k], th)
      decreases left
    {
      var k :| k in left;
      left := left - {k};
      var obs := endpoints[k];
      var endpointAddress := obs.data.endpointAddress.value;
      if obs.data.tlsServerName.None? {
        continue;
      }
      var serverName := obs.data.tlsServerName.value;
      if endpointAddress !in th.tlsHandshake {
        continue;
      }
      var tls := th.tlsHandshake[endpointAddress];
      if tls.serverName != serverName {
        continue;
      }
      obs.data := obs.data.(control := obs.data.control.(tlsHandshakeFailure := Some(tls.failure.UnwrapOr(""))));
    }
  }

  method SetExpectation(observations: seq<WebObservation>, th: ThResponse)
    requires Distinct(observations)
    modifies observations
    ensures DataOf(observations) == Mapped(ExpectationPass, th, old(DataOf(observations)))
  {
    ghost var before := DataOf(observations);
    var i := 0;
    while i < |observations|
      invariant 0 <= i <= |observations|
      invariant forall j {:trigger observations[j]} :: 0 <= j < |observations| ==>
        observations[j].data == if j < i then WithExpectation(before[j], th) else before[j]
    {
      var obs := observations[i];
      i := i + 1;
      obs.data := obs.data.(control := obs.data.control.(httpFailure := Some(th.httpFailure.UnwrapOr(""))));
      if th.httpFailure.Some? {
        continue;
      }
      obs.data := obs.data.(control := obs.data.control.(httpStatusCode := Some(th.httpStatusCode),
                                                        httpBodyLength := Some(th.httpBodyLength),
                                                        httpHeadersKeys := Some(th.httpHeadersKeys),
                                                        httpTitle := Some(th.httpTitle)));
    }
  }

  // ----- the container

  class WebObservationsContainer {
    var dnsLookupFailures: seq<WebObservation>
    var dnsLookupSuccesses: seq<WebObservation>
    var knownTCPEndpoints: map<TransactionID, WebObservation>
    var controlExpectations: Option<ControlExpectations>
    var knownIPAddresses: map<string, WebObservation>

    function Contents(): View
      reads this, dnsLookupFailures, dnsLookupSuccesses, knownTCPEndpoints.Values
    {
      View(DataOf(dnsLookupFailures), DataOf(dnsLookupSuccesses), DataAt(knownTCPEndpoints), controlExpectations)
    }

    /** No two places hold the same object. */
    ghost predicate NoAliases()
      reads this
    {
      && Distinct(dnsLookupFailures) && Distinct(dnsLookupSuccesses) && Injective(knownTCPEndpoints)
      && Apart(dnsLookupFailures, dnsLookupSuccesses)
      && Separate(dnsLookupFailures, knownTCPEndpoints) && Separate(dnsLookupSuccesses, knownTCPEndpoints)
    }

    ghost predicate KnowsAddresses()
      reads this, dnsLookupSuccesses
    {
      Knows(knownIPAddresses, dnsLookupSuccesses)
    }

    constructor ()
      ensures NoAliases() && KnowsAddresses()
      ensures dnsLookupFailures == [] && dnsLookupSuccesses == [] && knownTCPEndpoints == map[]
      ensures Contents() == View([], [], map[], None)
    {
      dnsLookupFailures, dnsLookupSuccesses, knownTCPEndpoints := [], [], map[];
      controlExpectations, knownIPAddresses := None, map[];
    }

    method IngestDNSLookupFailures(evs: seq<DnsEvent>)
      requires NoAliases() && KnowsAddresses()
      modifies this`dnsLookupFailures
      ensures NoAliases() && KnowsAddresses()
      ensures NewOrOld(old(dnsLookupFailures), dnsLookupFailures)
      ensures Contents() == old(Contents()).(failures := old(Contents()).failures + FailuresOf(evs))
    {
      hide Knows, DataOf, DataAt, FailuresOf, Injective, Distinct, Extends, Apart, Separate, NewOrOld;
      var failures := AppendFailures(dnsLookupFailures, evs);
      ExtendsKeepsDistinct(dnsLookupFailures, failures);
      NewLookupsAreApart((dnsLookupFailures, dnsLookupSuccesses), failures);
      NewLookupsAreSeparate((dnsLookupFailures, knownTCPEndpoints), failures);
      dnsLookupFailures := failures;
    }

    method IngestDNSLookupSuccesses(geo: Geo, evs: seq<DnsEvent>)
      requires NoAliases() && KnowsAddresses()
      modifies this`dnsLookupSuccesses, this`knownIPAddresses
      ensures NoAliases() && KnowsAddresses()
      ensures NewOrOld(old(dnsLookupSuccesses), dnsLookupSuccesses)
      ensures Contents() == old(Contents()).(successes := old(Contents()).successes + SuccessesOf(geo, evs))
    {
      hide Knows, DataOf, DataAt, SuccessesOf, Injective, Distinct, Extends, Apart, Separate, NewOrOld;
      var successes, known := AppendSuccesses(geo, evs, dnsLookupSuccesses, knownIPAddresses);
      ExtendsKeepsDistinct(dnsLookupSuccesses, successes);
      NewLookupsAreApart((dnsLookupSuccesses, dnsLookupFailures), successes);
      NewLookupsAreSeparate((dnsLookupSuccesses, knownTCPEndpoints), successes);
      dnsLookupSuccesses, knownIPAddresses := successes, known;
    }

    method IngestDNSLookupEvents(geo: Geo, evs: seq<DnsEvent>)
      requires NoAliases() && KnowsAddresses()
      modifies this
      ensures NoAliases() && KnowsAddresses() && unchanged(`knownTCPEndpoints, `controlExpectations)
      ensures NewOrOld(old(dnsLookupFailures), dnsLookupFailures) && NewOrOld(old(dnsLookupSuccesses), dnsLookupSuccesses)
      ensures var was := old(Contents());
              Contents() == was.(failures := was.failures + FailuresOf(evs), successes := was.successes + SuccessesOf(geo, evs))
    {
      hide NoAliases, KnowsAddresses, DataOf, DataAt, FailuresOf, SuccessesOf;
      IngestDNSLookupFailures(evs);
      IngestDNSLookupSuccesses(geo, evs);
    }

    method IngestTCPConnectEvents(geo: Geo, evs: seq<TcpEvent>)
      requires NoAliases() && KnowsAddresses()
      modifies this`knownTCPEndpoints
      ensures NoAliases() && KnowsAddresses()
      ensures NewOrOldAt(old(knownTCPEndpoints), knownTCPEndpoints)
      ensures var was := old(Contents());
              Contents() == was.(endpoints := EndpointsOf(geo, was.successes, was.endpoints, evs))
    {
      hide Knows, DataOf, DataAt, EndpointsOf, Injective, Distinct, Apart, Separate, NewOrOldAt;
      var endpoints := AddEndpoints(geo, evs, dnsLookupSuccesses, knownIPAddresses, knownTCPEndpoints);
      NewEndpointsAreSeparate((dnsLookupFailures, knownTCPEndpoints), endpoints);
      NewEndpointsAreSeparate((dnsLookupSuccesses, knownTCPEndpoints), endpoints);
      ghost var was := Contents();
      knownTCPEndpoints := endpoints;
      assert Contents() == View(was.failures, was.successes, DataAt(endpoints), was.expectations);
    }

    method IngestTLSHandshakeEvents(evs: seq<TlsEvent>)
      requires NoAliases() && KnowsAddresses()
      modifies knownTCPEndpoints.Values
      ensures NoAliases() && KnowsAddresses()
      ensures Contents() == old(Contents()).(endpoints := TlsOf(old(Contents()).endpoints, evs))
    {
      hide Knows, DataOf, DataAt, TlsOf, Injective, Distinct, Apart, Separate;
      SeparateObjects(dnsLookupFailures, knownTCPEndpoints);
      SeparateObjects(dnsLookupSuccesses, knownTCPEndpoints);
      UpdateTls(knownTCPEndpoints, evs);
    }

    method IngestHTTPRoundTripEvents(evs: seq<HttpEvent>)
      requires NoAliases() && KnowsAddresses()
      modifies knownTCPEndpoints.Values
      ensures NoAliases() && KnowsAddresses()
      ensures Contents() == old(Contents()).(endpoints := HttpOf(old(Contents()).endpoints, evs))
    {
      hide Knows, DataOf, DataAt, HttpOf, Injective, Distinct, Apart, Separate;
      SeparateObjects(dnsLookupFailures, knownTCPEndpoints);
      SeparateObjects(dnsLookupSuccesses, knownTCPEndpoints);
      UpdateHttp(knownTCPEndpoints, evs);
    }

    /** What is known survives while the lookups keep their addresses. */
    twostate lemma AddressesStayKnown()
      requires old(KnowsAddresses()) && unchanged(`dnsLookupSuccesses, `knownIPAddresses)
      requires forall i {:trigger dnsLookupSuccesses[i]} :: 0 <= i < |dnsLookupSuccesses| ==>
                 dnsLookupSuccesses[i].data.ipAddress == old(dnsLookupSuccesses[i].data.ipAddress)
      ensures KnowsAddresses()
    {
      forall ip | ip in knownIPAddresses
        ensures exists i: nat :: LeadsTo(knownIPAddresses, ip, dnsLookupSuccesses, i)
      {
        var i: nat :| old(LeadsTo(knownIPAddresses, ip, dnsLookupSuccesses, i));
        assert LeadsTo(knownIPAddresses, ip, dnsLookupSuccesses, i);
      }
    }

    method ControlXrefDNSQueries(domain: string, th: ThResponse)
      requires NoAliases() && KnowsAddresses()
      requires HaveDomains(DataOf(dnsLookupFailures)) && HaveDomains(DataOf(dnsLookupSuccesses))
      modifies dnsLookupFailures, dnsLookupSuccesses
      ensures NoAliases() && KnowsAddresses()
      ensures var was := old(Contents());
              Contents() == was.(failures := Mapped(DnsPass(domain), th, was.failures),
                                 successes := Mapped(DnsPass(domain), th, was.successes))
      ensures AllPassed(DnsPass(domain), th, old(Contents()).failures, Contents().failures)
      ensures AllPassed(DnsPass(domain), th, old(Contents()).successes, Contents().successes)
    {
      hide DataOf, DataAt, Mapped, Injective, Distinct, Apart, Separate, KnowsAddresses, HaveDomains, Passed, AllPassed, AllPassedAt;
      DistinctBoth(dnsLookupFailures, dnsLookupSuccesses);
      SeparateObjects(dnsLookupFailures, knownTCPEndpoints);
      SeparateObjects(dnsLookupSuccesses, knownTCPEndpoints);
      ghost var failures, successes := DataOf(dnsLookupFailures), DataOf(dnsLookupSuccesses);
      BothHaveDomains(dnsLookupFailures, dnsLookupSuccesses);
      XrefLookups(dnsLookupFailures + dnsLookupSuccesses, domain, th);
      MappedInParts(DnsPass(domain), th, dnsLookupFailures, dnsLookupSuccesses, failures, successes);
      SameAddresses(DnsPass(domain), th, successes, DataOf(dnsLookupSuccesses));
      AddressesStayKnown();
      MappedIsPassed(DnsPass(domain), th, failures);
      MappedIsPassed(DnsPass(domain), th, successes);
    }

    method ControlMatchDNSLookupResults(domain: string, th: ThResponse)
      requires NoAliases() && KnowsAddresses() && ValidEndpoints(DataAt(knownTCPEndpoints))
      modifies knownTCPEndpoints.Values
      ensures NoAliases() && KnowsAddresses()
      ensures Contents() == old(Contents()).(endpoints := MappedAt(MatchPass(domain), th, old(Contents()).endpoints))
      ensures AllPassedAt(MatchPass(domain), th, old(Contents()).endpoints, Contents().endpoints)
    {
      hide DataOf, DataAt, MappedAt, Injective, Distinct, Apart, Separate, KnowsAddresses, Passed, AllPassed, AllPassedAt;
      SeparateObjects(dnsLookupFailures, knownTCPEndpoints);
      SeparateObjects(dnsLookupSuccesses, knownTCPEndpoints);
      AddressesAreKnown(knownTCPEndpoints);
      MatchLookupResults(knownTCPEndpoints, domain, th);
      MappedAtIsPassed(MatchPass(domain), th, old(DataAt(knownTCPEndpoints)));
    }

    method ControlXrefTCPIPFailures(th: ThResponse)
      requires NoAliases() && KnowsAddresses() && ValidEndpoints(DataAt(knownTCPEndpoints))
      modifies knownTCPEndpoints.Values
      ensures NoAliases() && KnowsAddresses()
      ensures Contents() == old(Contents()).(endpoints := MappedAt(TcpPass, th, old(Contents()).endpoints))
      ensures AllPassedAt(TcpPass, th, old(Contents()).endpoints, Contents().endpoints)
    {
      hide DataOf, DataAt, MappedAt, Injective, Distinct, Apart, Separate, KnowsAddresses, Passed, AllPassed, AllPassedAt;
      SeparateObjects(dnsLookupFailures, knownTCPEndpoints);
      SeparateObjects(dnsLookupSuccesses, knownTCPEndpoints);
      AddressesAreKnown(knownTCPEndpoints);
      XrefTcpFailures(knownTCPEndpoints, th);
      MappedAtIsPassed(TcpPass, th, old(DataAt(knownTCPEndpoints)));
    }

    method ControlXrefTLSFailures(th: ThResponse)
      requires NoAliases() && KnowsAddresses() && ValidEndpoints(DataAt(knownTCPEndpoints))
      modifies knownTCPEndpoints.Values
      ensures NoAliases() && KnowsAddresses()
      ensures Contents() == old(Contents()).(endpoints := MappedAt(TlsPass, th, old(Contents()).endpoints))
      ensures AllPassedAt(TlsPass, th, old(Contents()).endpoints, Contents().endpoints)
    {
      hide DataOf, DataAt, MappedAt, Injective, Distinct, Apart, Separate, KnowsAddresses, Passed, AllPassed, AllPassedAt;
      SeparateObjects(dnsLookupFailures, knownTCPEndpoints);
      SeparateObjects(dnsLookupSuccesses, knownTCPEndpoints);
      AddressesAreKnown(knownTCPEndpoints);
      XrefTlsFailures(knownTCPEndpoints, th);
      MappedAtIsPassed(TlsPass, th, old(DataAt(knownTCPEndpoints)));
    }

    method SetLookupsExpectation(th: ThResponse)
      requires NoAliases() && KnowsAddresses()
      modifies dnsLookupFailures, dnsLookupSuccesses
      ensures NoAliases() && KnowsAddresses()
      ensures var was := old(Contents());
              Contents() == was.(failures := Mapped(ExpectationPass, th, was.failures),
                                 successes := Mapped(ExpectationPass, th, was.successes))
      ensures AllPassed(ExpectationPass, th, old(Contents()).failures, Contents().failures)
      ensures AllPassed(ExpectationPass, th, old(Contents()).successes, Contents().successes)
    {
      hide DataOf, DataAt, Mapped, Injective, Distinct, Apart, Separate, KnowsAddresses, Passed, AllPassed, AllPassedAt;
      DistinctBoth(dnsLookupFailures, dnsLookupSuccesses);
      SeparateObjects(dnsLookupFailures, knownTCPEndpoints);
      SeparateObjects(dnsLookupSuccesses, knownTCPEndpoints);
      ghost var failures, successes := DataOf(dnsLookupFailures), DataOf(dnsLookupSuccesses);
      SetExpectation(dnsLookupFailures + dnsLookupSuccesses, th);
      MappedInParts(ExpectationPass, th, dnsLookupFailures, dnsLookupSuccesses, failures, successes);
      SameAddresses(ExpectationPass, th, successes, DataOf(dnsLookupSuccesses));
      AddressesStayKnown();
      MappedIsPassed(ExpectationPass, th, failures);
      MappedIsPassed(ExpectationPass, th, successes);
    }

    method SetEndpointsExpectation(th: ThResponse)
      requires NoAliases() && KnowsAddresses()
      modifies knownTCPEndpoints.Values
      ensures NoAliases() && KnowsAddresses()
      ensures Contents() == old(Contents()).(endpoints := MappedAt(ExpectationPass, th, old(Contents()).endpoints))
      ensures AllPassedAt(ExpectationPass, th, old(Contents()).endpoints, Contents().endpoints)
    {
      hide DataOf, DataAt, MappedAt, Injective, Distinct, Apart, Separate, KnowsAddresses, Passed, AllPassed, AllPassedAt;
      SeparateObjects(dnsLookupFailures, knownTCPEndpoints);
      SeparateObjects(dnsLookupSuccesses, knownTCPEndpoints);
      SetExpectationAt(knownTCPEndpoints, th);
      MappedAtIsPassed(ExpectationPass, th, old(DataAt(knownTCPEndpoints)));
    }

    method ControlSetHTTPFinalResponseExpectation(th: ThResponse)
      requires NoAliases() && KnowsAddresses()
      modifies this`controlExpectations, dnsLookupFailures, dnsLookupSuccesses, knownTCPEndpoints.Values
      ensures NoAliases() && KnowsAddresses()
      ensures var was := old(Contents());
              Contents() == View(Mapped(ExpectationPass, th, was.failures), Mapped(ExpectationPass, th, was.successes),
                                 MappedAt(ExpectationPass, th, was.endpoints),
                                 Some(ControlExpectations(th.dnsAddrs, Some(th.httpFailure.UnwrapOr("")))))
      ensures AllPassed(ExpectationPass, th, old(Contents()).failures, Contents().failures)
      ensures AllPassed(ExpectationPass, th, old(Contents()).successes, Contents().successes)
      ensures AllPassedAt(ExpectationPass, th, old(Contents()).endpoints, Contents().endpoints)
      ensures controlExpectations == Some(ControlExpectations(th.dnsAddrs, TextOf(th.httpFailure)))
    {
      hide DataOf, DataAt, Mapped, MappedAt, NoAliases, KnowsAddresses, Passed, AllPassed, AllPassedAt;
      controlExpectations := Some(ControlExpectations(th.dnsAddrs, Some(th.httpFailure.UnwrapOr(""))));
      StillNoAliases();
      SetLookupsExpectation(th);
      SetEndpointsExpectation(th);
    }

    /** The expectations have nothing to do with aliases and addresses. */
    twostate lemma StillNoAliases()
      requires unchanged(`dnsLookupFailures, `dnsLookupSuccesses, `knownTCPEndpoints, `knownIPAddresses)
      requires old(NoAliases() && KnowsAddresses()) && unchanged(dnsLookupSuccesses)
      ensures NoAliases() && KnowsAddresses()
    {
      hide Injective, Distinct, Apart, Separate;
    }

    /** The three passes over the endpoints. */
    method ControlXrefEndpoints(domain: string, th: ThResponse)
      requires NoAliases() && KnowsAddresses() && ValidEndpoints(DataAt(knownTCPEndpoints))
      modifies knownTCPEndpoints.Values
      ensures NoAliases() && KnowsAddresses()
      ensures Contents() == old(Contents()).(endpoints :=
                MappedAt(TlsPass, th, MappedAt(TcpPass, th, MappedAt(MatchPass(domain), th, old(Contents()).endpoints))))
    {
      hide DataOf, DataAt, MappedAt, NoAliases, KnowsAddresses, ValidEndpoints;
      MappedAtIsValid(MatchPass(domain), th, DataAt(knownTCPEndpoints));
      ControlMatchDNSLookupResults(domain, th);
      MappedAtIsValid(TcpPass, th, DataAt(knownTCPEndpoints));
      ControlXrefTCPIPFailures(th);
      ControlXrefTLSFailures(th);
    }

    /** Unwrapping addresses is safe here: endpoints are valid. */
    method IngestControlMessages(domain: Option<string>, th: ThResponse) returns (ok: bool)
      requires NoAliases() && KnowsAddresses() && ValidView(Contents())
      modifies this`controlExpectations, dnsLookupFailures, dnsLookupSuccesses, knownTCPEndpoints.Values
      ensures NoAliases() && KnowsAddresses()
      ensures ok <==> domain.Some?
      ensures ok ==> Contents() == Controlled(old(Contents()), domain.value, th)
      ensures !ok ==> Contents() == old(Contents())
    {
      hide DataOf, DataAt, Mapped, MappedAt, NoAliases, KnowsAddresses, ValidEndpoints, ValidLookup, ValidLookupSuccess, HaveDomains;
      if domain.None? {
        return false;
      }
      ViewHasValidEndpoints(Contents());
      ViewHasDomains(Contents());
      ControlXrefDNSQueries(domain.value, th);
      ControlXrefEndpoints(domain.value, th);
      ControlSetHTTPFinalResponseExpectation(th);
      return true;
    }
  }

  /** The endpoints under the given keys, in that order. */
  ghost predicate Lists(endpoints: map<TransactionID, WebObservation>, keys: seq<TransactionID>, observations: seq<WebObservation>) {
    && |observations| == |keys|
    && (forall i {:trigger keys[i]} {:trigger observations[i]} :: 0 <= i < |keys| ==>
          keys[i] in endpoints && observations[i] == endpoints[keys[i]])
    && (forall i, j :: 0 <= i < j < |keys| ==> keys[i] != keys[j])
    && (forall k :: k in endpoints ==> k in keys)
  }

  method ListEndpoints(endpoints: map<TransactionID, WebObservation>)
      returns (observations: seq<WebObservation>, ghost keys: seq<TransactionID>)
    ensures Lists(endpoints, keys, observations)
  {
    observations, keys := [], [];
    var left := endpoints.Keys;
    while left != {}
      invariant left <= endpoints.Keys
      invariant |observations| == |keys|
      invariant forall i {:trigger keys[i]} {:trigger observations[i]} :: 0 <= i < |keys| ==>
        keys[i] in endpoints && keys[i] !in left && observations[i] == endpoints[keys[i]]
      invariant forall i, j :: 0 <= i < j < |keys| ==> keys[i] != keys[j]
      invariant forall k :: k in endpoints ==> k in left || k in keys
      decreases left
    {
      var k :| k in left;
      left := left - {k};
      observations := observations + [endpoints[k]];
      keys := keys + [k];
    }
  }

  lemma ListedIsDistinct(endpoints: map<TransactionID, WebObservation>, keys: seq<TransactionID>, observations: seq<WebObservation>)
    requires Injective(endpoints) && Lists(endpoints, keys, observations)
    ensures Distinct(observations) && forall i :: 0 <= i < |observations| ==> observations[i] in endpoints.Values
  {
    forall i, j | 0 <= i < j < |observations|
      ensures observations[i] != observations[j]
    {
      assert keys[i] != keys[j];
    }
    forall i | 0 <= i < |observations|
      ensures observations[i] in endpoints.Values
    {
      assert keys[i] in endpoints;
    }
  }

  lemma ListedData(endpoints: map<TransactionID, WebObservation>, keys: seq<TransactionID>, observations: seq<WebObservation>,
                   th: ThResponse, was: seq<Observation>, wasAt: map<TransactionID, Observation>)
    requires Lists(endpoints, keys, observations) && wasAt.Keys == endpoints.Keys
    requires |was| == |keys| && forall i {:trigger was[i]} :: 0 <= i < |keys| ==> was[i] == wasAt[keys[i]]
    requires DataOf(observations) == Mapped(ExpectationPass, th, was)
    ensures DataAt(endpoints) == MappedAt(ExpectationPass, th, wasAt)
  {
    hide Apply, DataOf, Mapped;
    forall k | k in endpoints
      ensures endpoints[k].data == Apply(ExpectationPass, th, wasAt[k])
    {
      assert k in keys;
      var i :| 0 <= i < |keys| && keys[i] == k;
      assert was[i] == wasAt[k];
      assert DataOf(observations)[i] == observations[i].data;
    }
  }

  /** The endpoints' part of the loop that sets expectations. */
  method SetExpectationAt(endpoints: map<TransactionID, WebObservation>, th: ThResponse)
    requires Injective(endpoints)
    modifies endpoints.Values
    ensures DataAt(endpoints) == MappedAt(ExpectationPass, th, old(DataAt(endpoints)))
  {
    hide Injective, Distinct, Mapped, MappedAt;
    var observations, keys := ListEndpoints(endpoints);
    ListedIsDistinct(endpoints, keys, observations);
    ghost var was, wasAt := DataOf(observations), DataAt(endpoints);
    assert forall i {:trigger was[i]} :: 0 <= i < |keys| ==> was[i] == wasAt[keys[i]];
    SetExpectation(observations, th);
    ListedData(endpoints, keys, observations, th, was, wasAt);
  }

  lemma AddressesAreKnown(endpoints: map<TransactionID, WebObservation>)
    requires ValidEndpoints(DataAt(endpoints))
    ensures forall k :: k in endpoints ==> endpoints[k].data.ipAddress.Some? && endpoints[k].data.endpointAddress.Some?
  {
    forall k | k in endpoints
      ensures endpoints[k].data.ipAddress.Some? && endpoints[k].data.endpointAddress.Some?
    {
      assert ValidEndpoint(k, DataAt(endpoints)[k]);
    }
  }

  lemma ViewHasValidEndpoints(v: View)
    requires ValidView(v)
    ensures ValidEndpoints(v.endpoints)
  {
    hide ValidEndpoint, ValidLookup, ValidLookupSuccess;
  }

  lemma ViewHasDomains(v: View)
    requires ValidView(v)
    ensures HaveDomains(v.failures) && HaveDomains(v.successes)
  {
    hide ValidEndpoint;
  }

  lemma BothHaveDomains(s: seq<WebObservation>, t: seq<WebObservation>)
    requires HaveDomains(DataOf(s)) && HaveDomains(DataOf(t))
    ensures HaveDomains(DataOf(s + t))
  {
    hide DataOf;
    forall i {:trigger DataOf(s + t)[i]} | 0 <= i < |s + t|
      ensures DataOf(s + t)[i].dnsDomain.Some?
    {
      if i < |s| {
        assert DataOf(s)[i] == s[i].data;
      } else {
        assert DataOf(t)[i - |s|] == t[i - |s|].data;
      }
    }
  }

  lemma DistinctBoth(s: seq<WebObservation>, t: seq<WebObservation>)
    requires Distinct(s) && Distinct(t) && Apart(s, t)
    ensures Distinct(s + t)
  {
  }

  lemma MappedInParts(pass: Pass, th: ThResponse, s: seq<WebObservation>, t: seq<WebObservation>,
                      a: seq<Observation>, b: seq<Observation>)
    requires |s| == |a| && |t| == |b|
    requires DataOf(s + t) == Mapped(pass, th, a + b)
    ensures DataOf(s) == Mapped(pass, th, a) && DataOf(t) == Mapped(pass, th, b)
  {
    hide DataOf, Mapped, Apply;
    forall i | 0 <= i < |s|
      ensures DataOf(s)[i] == Mapped(pass, th, a)[i]
    {
      assert DataOf(s + t)[i] == (s + t)[i].data && (a + b)[i] == a[i];
    }
    forall i | 0 <= i < |t|
      ensures DataOf(t)[i] == Mapped(pass, th, b)[i]
    {
      assert DataOf(s + t)[|s| + i] == (s + t)[|s| + i].data && (a + b)[|a| + i] == b[i];
    }
  }

  // ----- the whole of ingestion

  lemma {:induction false} FailuresAreValid(evs: seq<DnsEvent>)
    ensures forall i {:trigger FailuresOf(evs)[i]} :: 0 <= i < |FailuresOf(evs)| ==> ValidLookup(FailuresOf(evs)[i])
  {
    hide ValidLookup, DnsFailure;
    if evs != [] {
      FailuresAreValid(evs[..|evs| - 1]);
      FailureIsValid(evs[|evs| - 1]);
    }
  }

  lemma FailureIsValid(ev: DnsEvent)
    ensures ValidLookup(DnsFailure(ev))
  {
  }

  lemma {:induction false} SuccessesAtAreValid(geo: Geo, ev: DnsEvent, ips: seq<string>)
    requires forall i :: 0 <= i < |ips| ==> ips[i] in ResolvedAddresses(ev.answers)
    ensures forall i {:trigger SuccessesAt(geo, ev, ips)[i]} :: 0 <= i < |ips| ==> ValidLookupSuccess(SuccessesAt(geo, ev, ips)[i])
  {
    hide ValidLookupSuccess, DnsSuccess, ResolvedAddresses;
    if ips != [] {
      var n := |ips| - 1;
      SuccessesAtAreValid(geo, ev, ips[..n]);
      DnsObservationsAreValid(geo, ev, ips[n]);
    }
  }

  lemma {:induction false} SuccessesAreValid(geo: Geo, evs: seq<DnsEvent>)
    ensures forall i {:trigger SuccessesOf(geo, evs)[i]} :: 0 <= i < |SuccessesOf(geo, evs)| ==>
              ValidLookupSuccess(SuccessesOf(geo, evs)[i])
  {
    hide ValidLookupSuccess, DnsSuccess, ResolvedAddresses, SuccessesAt;
    if evs != [] {
      var n := |evs| - 1;
      SuccessesAreValid(geo, evs[..n]);
      KeysAreElements(ResolvedAddresses(evs[n].answers));
      SuccessesAtAreValid(geo, evs[n], KeysOf(ResolvedAddresses(evs[n].answers)));
    }
  }

  lemma KeysAreElements(s: set<string>)
    ensures forall i :: 0 <= i < |KeysOf(s)| ==> KeysOf(s)[i] in s
  {
  }

  lemma {:induction false} FirstWithHasAddress(geo: Geo, successes: seq<Observation>, ip: string)
    requires forall i {:trigger successes[i]} :: 0 <= i < |successes| ==> ValidLookupSuccess(successes[i])
    ensures FirstWith(geo, successes, ip).ipAddress == Some(ip) && FirstWith(geo, successes, ip).ipAddressBogon.Some?
  {
    if successes != [] && successes[0].ipAddress != Some(ip) {
      FirstWithHasAddress(geo, successes[1..], ip);
    }
  }

  ghost predicate ValidEndpoints(m: map<TransactionID, Observation>) {
    forall id {:trigger m[id]} :: id in m ==> ValidEndpoint(id, m[id])
  }

  lemma {:induction false} EndpointsAreValid(geo: Geo, successes: seq<Observation>,
                                             endpoints: map<TransactionID, Observation>, evs: seq<TcpEvent>)
    requires forall i {:trigger successes[i]} :: 0 <= i < |successes| ==> ValidLookupSuccess(successes[i])
    requires ValidEndpoints(endpoints)
    ensures ValidEndpoints(EndpointsOf(geo, successes, endpoints, evs))
  {
    hide ValidLookupSuccess, ValidEndpoint, Endpoint, FirstWith;
    if evs != [] {
      var n := |evs| - 1;
      EndpointsAreValid(geo, successes, endpoints, evs[..n]);
      FirstWithHasAddress(geo, successes, evs[n].ip);
      EndpointIsValid(geo, FirstWith(geo, successes, evs[n].ip), evs[n]);
    }
  }

  lemma {:induction false} TlsKeepsValid(m: map<TransactionID, Observation>, evs: seq<TlsEvent>)
    requires ValidEndpoints(m)
    ensures ValidEndpoints(TlsOf(m, evs))
  {
    hide ValidEndpoint, WithTls;
    if evs != [] {
      var n := |evs| - 1;
      TlsKeepsValid(m, evs[..n]);
      var m', id := TlsOf(m, evs[..n]), evs[n].transactionID;
      if id in m' {
        TlsEventKeepsValid(id, m'[id], evs[n]);
      }
    }
  }

  lemma TlsEventKeepsValid(id: TransactionID, o: Observation, ev: TlsEvent)
    requires ValidEndpoint(id, o)
    ensures ValidEndpoint(id, WithTls(o, ev))
  {
  }

  lemma {:induction false} HttpKeepsValid(m: map<TransactionID, Observation>, evs: seq<HttpEvent>)
    requires ValidEndpoints(m)
    ensures ValidEndpoints(HttpOf(m, evs))
  {
    hide ValidEndpoint, WithHttp;
    if evs != [] {
      var n := |evs| - 1;
      HttpKeepsValid(m, evs[..n]);
      var m', id := HttpOf(m, evs[..n]), evs[n].transactionID;
      if id in m' {
        HttpEventKeepsValid(id, m'[id], evs[n]);
      }
    }
  }

  lemma HttpEventKeepsValid(id: TransactionID, o: Observation, ev: HttpEvent)
    requires ValidEndpoint(id, o)
    ensures ValidEndpoint(id, WithHttp(o, ev))
  {
    hide ResponseIsFinal;
  }

  lemma PassKeepsValid(pass: Pass, th: ThResponse, id: TransactionID, o: Observation)
    ensures ValidEndpoint(id, o) ==> ValidEndpoint(id, Apply(pass, th, o))
    ensures ValidLookup(o) && !pass.MatchPass? ==> ValidLookup(Apply(pass, th, o))
    ensures ValidLookupSuccess(o) && !pass.MatchPass? ==> ValidLookupSuccess(Apply(pass, th, o))
  {
  }

  /** The calls that load events; `domain` is the host name of the control request, if its URL parses. */
  datatype Call =
    | DnsEvents(dns: seq<DnsEvent>)
    | TcpEvents(tcp: seq<TcpEvent>)
    | TlsEvents(tls: seq<TlsEvent>)
    | HttpEvents(http: seq<HttpEvent>)
    | ControlMessages(domain: Option<string>, th: ThResponse)

  ghost function After(geo: Geo, v: View, call: Call): View {
    match call
    case DnsEvents(evs) => v.(failures := v.failures + FailuresOf(evs), successes := v.successes + SuccessesOf(geo, evs))
    case TcpEvents(evs) => v.(endpoints := EndpointsOf(geo, v.successes, v.endpoints, evs))
    case TlsEvents(evs) => v.(endpoints := TlsOf(v.endpoints, evs))
    case HttpEvents(evs) => v.(endpoints := HttpOf(v.endpoints, evs))
    case ControlMessages(domain, th) => if domain.Some? then Controlled(v, domain.value, th) else v
  }

  ghost function AfterAll(geo: Geo, v: View, calls: seq<Call>): View {
    if calls == [] then v else After(geo, AfterAll(geo, v, calls[..|calls| - 1]), calls[|calls| - 1])
  }

  const EMPTY := View([], [], map[], None)

  lemma MappedIsValid(pass: Pass, th: ThResponse, s: seq<Observation>)
    requires !pass.MatchPass?
    ensures (forall i {:trigger s[i]} :: 0 <= i < |s| ==> ValidLookup(s[i])) ==>
              forall i {:trigger Mapped(pass, th, s)[i]} :: 0 <= i < |s| ==> ValidLookup(Mapped(pass, th, s)[i])
    ensures (forall i {:trigger s[i]} :: 0 <= i < |s| ==> ValidLookupSuccess(s[i])) ==>
              forall i {:trigger Mapped(pass, th, s)[i]} :: 0 <= i < |s| ==> ValidLookupSuccess(Mapped(pass, th, s)[i])
  {
    hide ValidLookup, ValidLookupSuccess, Apply, Mapped;
    forall i {:trigger Mapped(pass, th, s)[i]} | 0 <= i < |s|
      ensures ValidLookup(s[i]) ==> ValidLookup(Mapped(pass, th, s)[i])
      ensures ValidLookupSuccess(s[i]) ==> ValidLookupSuccess(Mapped(pass, th, s)[i])
    {
      PassKeepsValid(pass, th, 0, s[i]);
    }
  }

  lemma MappedAtIsValid(pass: Pass, th: ThResponse, m: map<TransactionID, Observation>)
    requires ValidEndpoints(m)
    ensures ValidEndpoints(MappedAt(pass, th, m))
  {
    hide ValidEndpoint, Apply;
    forall id | id in m
      ensures ValidEndpoint(id, MappedAt(pass, th, m)[id])
    {
      PassKeepsValid(pass, th, id, m[id]);
    }
  }

  lemma ControlledIsValid(v: View, domain: string, th: ThResponse)
    requires ValidView(v)
    ensures ValidView(Controlled(v, domain, th))
  {
    hide ValidLookup, ValidLookupSuccess, ValidEndpoint, Mapped, MappedAt;
    MappedIsValid(DnsPass(domain), th, v.failures);
    MappedIsValid(ExpectationPass, th, Mapped(DnsPass(domain), th, v.failures));
    MappedIsValid(DnsPass(domain), th, v.successes);
    MappedIsValid(ExpectationPass, th, Mapped(DnsPass(domain), th, v.successes));
    assert ValidEndpoints(v.endpoints);
    var matched := MappedAt(MatchPass(domain), th, v.endpoints);
    MappedAtIsValid(MatchPass(domain), th, v.endpoints);
    MappedAtIsValid(TcpPass, th, matched);
    MappedAtIsValid(TlsPass, th, MappedAt(TcpPass, th, matched));
    MappedAtIsValid(ExpectationPass, th, MappedAt(TlsPass, th, MappedAt(TcpPass, th, matched)));
  }

  lemma CallKeepsValid(geo: Geo, v: View, call: Call)
    requires ValidView(v)
    ensures ValidView(After(geo, v, call))
  {
    hide ValidLookup, ValidLookupSuccess, ValidEndpoint, FailuresOf, SuccessesOf, EndpointsOf, TlsOf, HttpOf, Controlled;
    match call
    case DnsEvents(evs) => FailuresAreValid(evs); SuccessesAreValid(geo, evs);
    case TcpEvents(evs) => EndpointsAreValid(geo, v.successes, v.endpoints, evs);
    case TlsEvents(evs) => TlsKeepsValid(v.endpoints, evs);
    case HttpEvents(evs) => HttpKeepsValid(v.endpoints, evs);
    case ControlMessages(domain, th) => if domain.Some? { ControlledIsValid(v, domain.value, th); }
  }

  /** Whatever events are loaded, and in whatever order: every endpoint is under its own transaction with
      its addresses, every failure is the one its type names, and every lookup has its fields. */
  lemma {:induction false} IngestedIsValid(geo: Geo, calls: seq<Call>)
    ensures ValidView(AfterAll(geo, EMPTY, calls))
  {
    hide ValidView, After;
    if calls == [] {
      EmptyIsValid();
    } else {
      IngestedIsValid(geo, calls[..|calls| - 1]);
      CallKeepsValid(geo, AfterAll(geo, EMPTY, calls[..|calls| - 1]), calls[|calls| - 1]);
    }
  }

  lemma EmptyIsValid()
    ensures ValidView(EMPTY)
  {
  }

  /** Endpoint events never change a lookup; the control never changes what the probe measured. */
  lemma LookupsAreNeverAltered(geo: Geo, v: View, call: Call)
    requires !call.DnsEvents?
    ensures !call.ControlMessages? ==> After(geo, v, call).failures == v.failures && After(geo, v, call).successes == v.successes
    ensures |After(geo, v, call).failures| == |v.failures| && |After(geo, v, call).successes| == |v.successes|
    ensures forall i {:trigger v.failures[i]} :: 0 <= i < |v.failures| ==>
              ProbePart(After(geo, v, call).failures[i]) == ProbePart(v.failures[i])
    ensures forall i {:trigger v.successes[i]} :: 0 <= i < |v.successes| ==>
              ProbePart(After(geo, v, call).successes[i]) == ProbePart(v.successes[i])
    ensures call.ControlMessages? ==>
              && After(geo, v, call).endpoints.Keys == v.endpoints.Keys
              && forall id {:trigger v.endpoints[id]} :: id in v.endpoints ==>
                   ProbePart(After(geo, v, call).endpoints[id]) == ProbePart(v.endpoints[id])
  {
    hide ProbePart, EndpointsOf, TlsOf, HttpOf, Apply, Mapped, MappedAt;
    match call
    case ControlMessages(domain, th) =>
      if domain.Some? {
        var d := domain.value;
        forall o: Observation, pass: Pass
          ensures ProbePart(Apply(pass, th, o)) == ProbePart(o)
        {
          PassKeepsProbePart(pass, th, o);
        }
      }
    case _ =>
  }

  lemma PassKeepsProbePart(pass: Pass, th: ThResponse, o: Observation)
    ensures ProbePart(Apply(pass, th, o)) == ProbePart(o)
  {
  }

  datatype TestKeys = TestKeys(queries: seq<DnsEvent>, tcpConnect: seq<TcpEvent>, tlsHandshakes: seq<TlsEvent>,
                               requests: seq<HttpEvent>, control: Option<(Option<string>, ThResponse)>)

  /** The calls that loading a measurement makes. */
  function CallsOf(tk: TestKeys): seq<Call> {
    [DnsEvents(tk.queries), TcpEvents(tk.tcpConnect), TlsEvents(tk.tlsHandshakes), HttpEvents(tk.requests)]
    + (if tk.control.Some? then [ControlMessages(tk.control.value.0, tk.control.value.1)] else [])
  }

  lemma AfterAllAppend(geo: Geo, v: View, calls: seq<Call>, call: Call)
    ensures AfterAll(geo, v, calls + [call]) == After(geo, AfterAll(geo, v, calls), call)
  {
    assert (calls + [call])[..|calls|] == calls;
  }

  /** The calls before the control's. */
  ghost function ProbeCalls(tk: TestKeys): seq<Call> {
    [DnsEvents(tk.queries), TcpEvents(tk.tcpConnect), TlsEvents(tk.tlsHandshakes), HttpEvents(tk.requests)]
  }

  lemma AfterProbeCalls(geo: Geo, tk: TestKeys)
    ensures AfterAll(geo, EMPTY, ProbeCalls(tk))
            == After(geo, After(geo, After(geo, After(geo, EMPTY, DnsEvents(tk.queries)), TcpEvents(tk.tcpConnect)),
                                TlsEvents(tk.tlsHandshakes)), HttpEvents(tk.requests))
  {
    hide After, AfterAll;
    var d, t, l, h := DnsEvents(tk.queries), TcpEvents(tk.tcpConnect), TlsEvents(tk.tlsHandshakes), HttpEvents(tk.requests);
    assert ProbeCalls(tk) == [] + [d] + [t] + [l] + [h];
    NoCalls(geo, EMPTY);
    AfterAllAppend(geo, EMPTY, [], d);
    AfterAllAppend(geo, EMPTY, [] + [d], t);
    AfterAllAppend(geo, EMPTY, [] + [d] + [t], l);
    AfterAllAppend(geo, EMPTY, [] + [d] + [t] + [l], h);
  }

  lemma NoCalls(geo: Geo, v: View)
    ensures AfterAll(geo, v, []) == v
  {
  }

  /** Lookups and connects create objects. */
  method IngestLookupsAndConnects(geo: Geo, tk: TestKeys) returns (c: WebObservationsContainer)
    ensures fresh(c) && fresh(c.dnsLookupFailures) && fresh(c.dnsLookupSuccesses) && fresh(c.knownTCPEndpoints.Values)
    ensures c.NoAliases() && c.KnowsAddresses()
    ensures c.Contents() == After(geo, After(geo, EMPTY, DnsEvents(tk.queries)), TcpEvents(tk.tcpConnect))
  {
    hide FailuresOf, SuccessesOf, EndpointsOf, DataOf, DataAt;
    hide WebObservationsContainer.NoAliases, WebObservationsContainer.KnowsAddresses;
    c := new WebObservationsContainer();
    c.IngestDNSLookupEvents(geo, tk.queries);
    c.IngestTCPConnectEvents(geo, tk.tcpConnect);
  }

  /** Handshakes and round trips update the objects of their endpoints. */
  method IngestHandshakesAndRoundTrips(ghost geo: Geo, tk: TestKeys, c: WebObservationsContainer)
    requires c.NoAliases() && c.KnowsAddresses()
    modifies c.knownTCPEndpoints.Values
    ensures c.NoAliases() && c.KnowsAddresses()
    ensures c.Contents() == After(geo, After(geo, old(c.Contents()), TlsEvents(tk.tlsHandshakes)), HttpEvents(tk.requests))
  {
    hide TlsOf, HttpOf, DataOf, DataAt;
    hide WebObservationsContainer.NoAliases, WebObservationsContainer.KnowsAddresses;
    c.IngestTLSHandshakeEvents(tk.tlsHandshakes);
    c.IngestHTTPRoundTripEvents(tk.requests);
  }

  method IngestProbeEvents(geo: Geo, tk: TestKeys) returns (c: WebObservationsContainer)
    ensures fresh(c) && fresh(c.dnsLookupFailures) && fresh(c.dnsLookupSuccesses) && fresh(c.knownTCPEndpoints.Values)
    ensures c.NoAliases() && c.KnowsAddresses() && c.Contents() == AfterAll(geo, EMPTY, ProbeCalls(tk))
  {
    hide After, DataOf, DataAt, ProbeCalls, AfterAll;
    hide WebObservationsContainer.NoAliases, WebObservationsContainer.KnowsAddresses;
    c := IngestLookupsAndConnects(geo, tk);
    IngestHandshakesAndRoundTrips(geo, tk, c);
    AfterProbeCalls(geo, tk);
  }

  /** Fails exactly when there are no test keys or the control request's URL does not parse. */
  method IngestWebMeasurement(geo: Geo, testKeys: Option<TestKeys>) returns (container: WebObservationsContainer?)
    ensures container == null <==>
              testKeys.None? || (testKeys.value.control.Some? && testKeys.value.control.value.0.None?)
    ensures container != null ==>
              fresh(container) && ValidView(container.Contents())
              && container.Contents() == AfterAll(geo, EMPTY, CallsOf(testKeys.value))
  {
    hide ValidView, Controlled, ProbeCalls, AfterAll, DataOf, DataAt;
    hide WebObservationsContainer.NoAliases, WebObservationsContainer.KnowsAddresses;
    if testKeys.None? {
      return null;
    }
    var tk := testKeys.value;
    var c := IngestProbeEvents(geo, tk);
    IngestedIsValid(geo, ProbeCalls(tk));
    CallsInOrder(geo, tk);
    if tk.control.Some? {
      var ok := c.IngestControlMessages(tk.control.value.0, tk.control.value.1);
      if !ok {
        return null;
      }
    }
    IngestedIsValid(geo, CallsOf(tk));
    container := c;
  }

  lemma CallsInOrder(geo: Geo, tk: TestKeys)
    ensures tk.control.None? ==> CallsOf(tk) == ProbeCalls(tk)
    ensures tk.control.Some? ==>
              AfterAll(geo, EMPTY, CallsOf(tk))
              == After(geo, AfterAll(geo, EMPTY, ProbeCalls(tk)), ControlMessages(tk.control.value.0, tk.control.value.1))
  {
    hide After, AfterAll;
    if tk.control.Some? {
      AfterAllAppend(geo, EMPTY, ProbeCalls(tk), ControlMessages(tk.control.value.0, tk.control.value.1));
    }
  }
}
