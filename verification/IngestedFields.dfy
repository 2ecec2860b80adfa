/** What a loaded measurement shows, field by field, in terms of its events (pkg/minipipeline/observation.go). */
module IngestedFields {
  import opened Optional
  import opened Tactics
  import opened Observations
  import opened Containers
  import DnsDiff
  import Sets

  // ----- the events that count

  predicate Answers(ev: DnsEvent, ip: string) {
    ev.failure.None? && (A(ip) in ev.answers || AAAA(ip) in ev.answers)
  }

  /** The first lookup that resolved the address. */
  function FirstAnswer(evs: seq<DnsEvent>, ip: string): Option<DnsEvent> {
    if evs == [] then None
    else
      var first := FirstAnswer(evs[..|evs| - 1], ip);
      if first.Some? then first else if Answers(evs[|evs| - 1], ip) then Some(evs[|evs| - 1]) else None
  }

  function LastConnect(evs: seq<TcpEvent>, id: TransactionID): Option<TcpEvent> {
    if evs == [] then None
    else if evs[|evs| - 1].transactionID == id then Some(evs[|evs| - 1])
    else LastConnect(evs[..|evs| - 1], id)
  }

  function LastHandshake(evs: seq<TlsEvent>, id: TransactionID): Option<TlsEvent> {
    if evs == [] then None
    else if evs[|evs| - 1].transactionID == id then Some(evs[|evs| - 1])
    else LastHandshake(evs[..|evs| - 1], id)
  }

  function LastRoundTrip(evs: seq<HttpEvent>, id: TransactionID): Option<HttpEvent> {
    if evs == [] then None
    else if evs[|evs| - 1].transactionID == id then Some(evs[|evs| - 1])
    else LastRoundTrip(evs[..|evs| - 1], id)
  }

  /** The last round trip that had a response. */
  function LastResponse(evs: seq<HttpEvent>, id: TransactionID): Option<HttpEvent> {
    if evs == [] then None
    else if evs[|evs| - 1].transactionID == id && evs[|evs| - 1].failure.None? then Some(evs[|evs| - 1])
    else LastResponse(evs[..|evs| - 1], id)
  }

  // ----- what observations show of them

  predicate ShowsLookup(o: Observation, ev: DnsEvent) {
    && o.kind.DNSLookup? && o.transactionID == ev.transactionID && o.dnsTransactionID == Some(ev.transactionID)
    && o.dnsDomain == Some(ev.hostname) && o.dnsQueryType == Some(ev.queryType) && o.dnsEngine == Some(ev.engine)
    && o.tagDepth == ev.depth
    && o.failure == TextOf(ev.failure) && o.dnsLookupFailure == TextOf(ev.failure)
  }

  predicate ShowsAnswer(geo: Geo, o: Observation, ev: DnsEvent, ip: string) {
    && ShowsLookup(o, ev) && ShowsAddresses(o, ev)
    && o.ipAddressOrigin == Some("dns") && ShowsAddress(geo, o, ip)
  }

  predicate ShowsAddresses(o: Observation, ev: DnsEvent) {
    && o.dnsResolvedAddrs.Some?
    && (forall a {:trigger a in ev.answers} :: a in ev.answers && a.A? ==> a.ipv4 in o.dnsResolvedAddrs.value)
    && (forall a {:trigger a in ev.answers} :: a in ev.answers && a.AAAA? ==> a.ipv6 in o.dnsResolvedAddrs.value)
    && (forall ip {:trigger ip in o.dnsResolvedAddrs.value} :: ip in o.dnsResolvedAddrs.value ==>
          A(ip) in ev.answers || AAAA(ip) in ev.answers)
  }

  /** The system number is shown only when it is positive. */
  predicate ShowsAddress(geo: Geo, o: Observation, ip: string) {
    && o.ipAddress == Some(ip) && o.ipAddressBogon == Some(geo.bogon(ip))
    && (match geo.asn(ip)
        case None => o.ipAddressASN == None
        case Some(asn) => o.ipAddressASN == if asn > 0 then Some(asn) else None)
  }

  predicate ShowsNoLookup(o: Observation) {
    && o.dnsTransactionID == None && o.dnsDomain == None && o.dnsLookupFailure == None && o.dnsResolvedAddrs == None
    && o.ipAddressOrigin == None
  }

  predicate ShowsConnect(geo: Geo, o: Observation, ev: TcpEvent) {
    && o.transactionID == ev.transactionID && o.endpointTransactionID == Some(ev.transactionID)
    && ShowsAddress(geo, o, ev.ip)
    && o.endpointProto == Some("tcp") && o.endpointPort == Some(ev.port)
    && o.endpointAddress == Some(JoinHostPort(ev.ip, ev.port))
    && o.tcpConnectFailure == TextOf(ev.failure)
    && o.tagDepth == ev.depth && o.tagFetchBody == ev.fetchBody
    && o.dnsQueryType == None && o.dnsEngine == None
  }

  predicate ShowsResolver(o: Observation, dns: Option<DnsEvent>) {
    match dns
    case None => ShowsNoLookup(o)
    case Some(ev) =>
      && o.dnsTransactionID == Some(ev.transactionID) && o.dnsDomain == Some(ev.hostname)
      && o.dnsLookupFailure == Some("") && ShowsAddresses(o, ev)
      && o.ipAddressOrigin == Some("dns")
  }

  predicate ShowsHandshake(o: Observation, tls: Option<TlsEvent>) {
    match tls
    case None => o.tlsHandshakeFailure == None && o.tlsServerName == None
    case Some(ev) => o.tlsHandshakeFailure == TextOf(ev.failure) && o.tlsServerName == Some(ev.serverName)
  }

  predicate ShowsRoundTrip(o: Observation, http: Option<HttpEvent>) {
    match http
    case None => o.httpFailure == None && o.httpRequestURL == None
    case Some(ev) => o.httpFailure == TextOf(ev.failure) && o.httpRequestURL == Some(ev.url)
  }

  /** A response is final when its code is from 200 to 299 or from 400 to 599. */
  predicate ShowsResponse(o: Observation, http: Option<HttpEvent>) {
    match http
    case None => o.httpResponse == NO_RESPONSE
    case Some(ev) =>
      && o.httpResponse.statusCode == Some(ev.code) && o.httpResponse.bodyLength == Some(ev.bodyLength)
      && o.httpResponse.bodyIsTruncated == Some(ev.bodyIsTruncated) && o.httpResponse.headersKeys == Some(ev.headersKeys)
      && o.httpResponse.location == ev.location && o.httpResponse.title == Some(ev.title)
      && o.httpResponse.isFinal == Some(200 <= ev.code < 300 || 400 <= ev.code < 600)
  }

  /** The type and the failure are those of the furthest operation. */
  predicate ShowsFurthest(o: Observation, ev: TcpEvent, tls: Option<TlsEvent>, http: Option<HttpEvent>) {
    if http.Some? then o.kind.HTTPRoundTrip? && o.failure == TextOf(http.value.failure)
    else if tls.Some? then o.kind.TLSHandshake? && o.failure == TextOf(tls.value.failure)
    else o.kind.TCPConnect? && o.failure == TextOf(ev.failure)
  }

  // ----- one event

  lemma ResolvedMeansAnswered(answers: seq<Answer>, ip: string)
    ensures ip in ResolvedAddresses(answers) <==> A(ip) in answers || AAAA(ip) in answers
  {
  }

  lemma FailureShows(ev: DnsEvent)
    requires ev.failure.Some?
    ensures ShowsLookup(DnsFailure(ev), ev)
  {
  }

  lemma SuccessShows(geo: Geo, ev: DnsEvent, ip: string)
    requires ev.failure.None?
    ensures ShowsAnswer(geo, DnsSuccess(geo, ev, ip), ev, ip)
  {
    hide ResolvedAddresses;
    forall a
      ensures a in ResolvedAddresses(ev.answers) <==> A(a) in ev.answers || AAAA(a) in ev.answers
    {
      ResolvedMeansAnswered(ev.answers, a);
    }
  }

  lemma UnknownShows(geo: Geo, ip: string)
    ensures ShowsNoLookup(UnknownAddress(geo, ip)) && ShowsAddress(geo, UnknownAddress(geo, ip), ip)
  {
  }

  lemma EndpointShows(geo: Geo, found: Observation, dns: Option<DnsEvent>, ev: TcpEvent)
    requires ShowsAddress(geo, found, ev.ip) && ShowsResolver(found, dns)
    ensures
      var o := Endpoint(found, ev);
      && ShowsConnect(geo, o, ev) && ShowsResolver(o, dns)
      && ShowsHandshake(o, None) && ShowsRoundTrip(o, None) && ShowsResponse(o, None) && ShowsFurthest(o, ev, None, None)
  {
    hide DnsDiff.ASNOf;
  }

  // ----- lookups

  /** The events that failed, in order. */
  function FailedOf(evs: seq<DnsEvent>): seq<DnsEvent> {
    if evs == [] then []
    else FailedOf(evs[..|evs| - 1]) + (if evs[|evs| - 1].failure.Some? then [evs[|evs| - 1]] else [])
  }

  /** The lookups show the events, one by one. */
  predicate ShowFailures(lookups: seq<Observation>, evs: seq<DnsEvent>) {
    && |lookups| == |evs|
    && forall i {:trigger lookups[i]} {:trigger evs[i]} :: 0 <= i < |evs| ==> evs[i].failure.Some? && ShowsLookup(lookups[i], evs[i])
  }

  lemma OneMoreFailure(lookups: seq<Observation>, evs: seq<DnsEvent>, o: Observation, ev: DnsEvent)
    requires ShowFailures(lookups, evs) && ev.failure.Some? && ShowsLookup(o, ev)
    ensures ShowFailures(lookups + [o], evs + [ev])
  {
    hide ShowsLookup;
  }

  /** One failed lookup for each event that failed, in order. */
  lemma {:induction false} FailuresShow(evs: seq<DnsEvent>)
    ensures ShowFailures(FailuresOf(evs), FailedOf(evs))
  {
    hide DnsFailure, ShowsLookup;
    if evs != [] {
      var n := |evs| - 1;
      FailuresShow(evs[..n]);
      var f, e := FailuresOf(evs[..n]), FailedOf(evs[..n]);
      hide ShowFailures;
      if evs[n].failure.Some? {
        FailureShows(evs[n]);
        assert FailuresOf(evs) == f + [DnsFailure(evs[n])] && FailedOf(evs) == e + [evs[n]];
        OneMoreFailure(f, e, DnsFailure(evs[n]), evs[n]);
      } else {
        assert FailuresOf(evs) == f && FailedOf(evs) == e;
      }
    }
  }

  /** The lookup is one that yielded the address. */
  ghost predicate IsAnswer(geo: Geo, evs: seq<DnsEvent>, o: Observation) {
    exists ev :: ev in evs && IsAnswerOf(geo, ev, o)
  }

  ghost predicate IsAnswerOf(geo: Geo, ev: DnsEvent, o: Observation) {
    exists ip :: Answers(ev, ip) && ShowsAnswer(geo, o, ev, ip)
  }

  lemma {:induction false} SuccessesAtShow(geo: Geo, ev: DnsEvent, ips: seq<string>)
    requires ev.failure.None?
    ensures forall i {:trigger SuccessesAt(geo, ev, ips)[i]} :: 0 <= i < |ips| ==>
              SuccessesAt(geo, ev, ips)[i] == DnsSuccess(geo, ev, ips[i])
              && ShowsAnswer(geo, SuccessesAt(geo, ev, ips)[i], ev, ips[i])
  {
    hide DnsSuccess, ShowsAnswer;
    if ips != [] {
      SuccessesAtShow(geo, ev, ips[..|ips| - 1]);
      SuccessShows(geo, ev, ips[|ips| - 1]);
    }
  }

  /** Every successful lookup is one answer of one event; every answer has such a lookup. */
  lemma {:induction false} SuccessesShow(geo: Geo, evs: seq<DnsEvent>)
    ensures forall i {:trigger SuccessesOf(geo, evs)[i]} :: 0 <= i < |SuccessesOf(geo, evs)| ==>
              IsAnswer(geo, evs, SuccessesOf(geo, evs)[i])
    ensures forall ev, ip {:trigger Answers(ev, ip)} :: ev in evs && Answers(ev, ip) ==> DnsSuccess(geo, ev, ip) in SuccessesOf(geo, evs)
  {
    hide DnsSuccess, ShowsAnswer, ResolvedAddresses, SuccessesAt, KeysOf;
    if evs != [] {
      var n := |evs| - 1;
      SuccessesShow(geo, evs[..n]);
      assert evs == evs[..n] + [evs[n]];
      if evs[n].failure.None? {
        AnswersShow(geo, evs[n]);
      }
      LastAnswersShow(geo, evs);
    }
  }

  lemma AnswersShow(geo: Geo, ev: DnsEvent)
    requires ev.failure.None?
    ensures
      var s := SuccessesAt(geo, ev, KeysOf(ResolvedAddresses(ev.answers)));
      && (forall i {:trigger s[i]} :: 0 <= i < |s| ==> IsAnswerOf(geo, ev, s[i]))
      && (forall ip {:trigger Answers(ev, ip)} :: Answers(ev, ip) ==> DnsSuccess(geo, ev, ip) in s)
  {
    hide DnsSuccess, ShowsAnswer, ResolvedAddresses, SuccessesAt, KeysOf;
    var ips := KeysOf(ResolvedAddresses(ev.answers));
    var s := SuccessesAt(geo, ev, ips);
    SuccessesAtShow(geo, ev, ips);
    KeysAre(ResolvedAddresses(ev.answers));
    forall i {:trigger s[i]} | 0 <= i < |s|
      ensures IsAnswerOf(geo, ev, s[i])
    {
      ResolvedMeansAnswered(ev.answers, ips[i]);
      assert ips[i] in ips;
      assert Answers(ev, ips[i]) && ShowsAnswer(geo, s[i], ev, ips[i]);
    }
    forall ip {:trigger Answers(ev, ip)} | Answers(ev, ip)
      ensures DnsSuccess(geo, ev, ip) in s
    {
      ResolvedMeansAnswered(ev.answers, ip);
      assert ip in ips;
      var i :| 0 <= i < |ips| && ips[i] == ip;
      assert s[i] == DnsSuccess(geo, ev, ip);
    }
  }

  lemma LastAnswersShow(geo: Geo, evs: seq<DnsEvent>)
    requires evs != []
    ensures
      var n := |evs| - 1;
      SuccessesOf(geo, evs) == SuccessesOf(geo, evs[..n])
      + (if evs[n].failure.Some? then [] else SuccessesAt(geo, evs[n], KeysOf(ResolvedAddresses(evs[n].answers))))
  {
  }

  lemma KeysAre(s: set<string>)
    ensures forall ip {:trigger ip in KeysOf(s)} :: ip in KeysOf(s) <==> ip in s
  {
    Sets.StringLessIsTotalOrder();
    Sets.SortedKeysExist(Sets.StringLess, s);
  }

  ghost predicate HasAddress(s: seq<Observation>, ip: string) {
    exists i {:trigger s[i]} :: 0 <= i < |s| && s[i].ipAddress == Some(ip)
  }

  lemma {:induction false} FirstWithAppend(geo: Geo, a: seq<Observation>, b: seq<Observation>, ip: string)
    ensures FirstWith(geo, a + b, ip)
            == if HasAddress(a, ip) then FirstWith(geo, a, ip) else FirstWith(geo, b, ip)
    decreases |a|
  {
    if a == [] {
      assert a + b == b;
    } else {
      assert (a + b)[1..] == a[1..] + b;
      FirstWithAppend(geo, a[1..], b, ip);
      assert forall i {:trigger a[i]} :: 1 <= i < |a| ==> a[1..][i - 1] == a[i];
      if i :| 0 <= i < |a[1..]| && a[1..][i].ipAddress == Some(ip) {
        assert a[i + 1].ipAddress == Some(ip);
      }
    }
  }

  /** The observation kept for an address is that of the first lookup that resolved it. */
  lemma {:induction false} FirstWithIsFirstAnswer(geo: Geo, evs: seq<DnsEvent>, ip: string)
    ensures FirstWith(geo, SuccessesOf(geo, evs), ip)
            == match FirstAnswer(evs, ip) case None => UnknownAddress(geo, ip) case Some(ev) => DnsSuccess(geo, ev, ip)
    ensures FirstAnswer(evs, ip).Some? <==> HasAddress(SuccessesOf(geo, evs), ip)
  {
    hide ShowsAnswer, ResolvedAddresses, SuccessesAt, KeysOf, Answers, FirstWith, DnsSuccess;
    if evs == [] {
      assert FirstWith(geo, [], ip) == UnknownAddress(geo, ip) by { FirstWithNone(geo, [], ip); }
    } else {
      var n := |evs| - 1;
      FirstWithIsFirstAnswer(geo, evs[..n], ip);
      LastAnswersShow(geo, evs);
      var front := SuccessesOf(geo, evs[..n]);
      if evs[n].failure.Some? {
        assert SuccessesOf(geo, evs) == front;
        assert !Answers(evs[n], ip) by { FailedAnswersNothing(evs[n], ip); }
      } else {
        var last := SuccessesAt(geo, evs[n], KeysOf(ResolvedAddresses(evs[n].answers)));
        FirstWithAppend(geo, front, last, ip);
        FirstOfAnswers(geo, evs[n], ip);
        HasInEither(front, last, ip);
      }
    }
  }

  lemma FailedAnswersNothing(ev: DnsEvent, ip: string)
    requires ev.failure.Some?
    ensures !Answers(ev, ip)
  {
  }

  lemma HasInEither(a: seq<Observation>, b: seq<Observation>, ip: string)
    ensures HasAddress(a + b, ip) <==> HasAddress(a, ip) || HasAddress(b, ip)
  {
    if i :| 0 <= i < |b| && b[i].ipAddress == Some(ip) {
      assert (a + b)[|a| + i] == b[i];
    }
    if i :| 0 <= i < |a| && a[i].ipAddress == Some(ip) {
      assert (a + b)[i] == a[i];
    }
  }

  lemma FirstOfAnswers(geo: Geo, ev: DnsEvent, ip: string)
    requires ev.failure.None?
    ensures
      var s := SuccessesAt(geo, ev, KeysOf(ResolvedAddresses(ev.answers)));
      Answers(ev, ip) <==> HasAddress(s, ip)
    ensures
      var s := SuccessesAt(geo, ev, KeysOf(ResolvedAddresses(ev.answers)));
      FirstWith(geo, s, ip) == if Answers(ev, ip) then DnsSuccess(geo, ev, ip) else UnknownAddress(geo, ip)
  {
    hide DnsSuccess, ResolvedAddresses, SuccessesAt, KeysOf, FirstWith, ShowsAnswer, Answers;
    var ips := KeysOf(ResolvedAddresses(ev.answers));
    var s := SuccessesAt(geo, ev, ips);
    SuccessesAtShow(geo, ev, ips);
    KeysAre(ResolvedAddresses(ev.answers));
    ResolvedMeansAnswered(ev.answers, ip);
    assert Answers(ev, ip) <==> ip in ips by { AnswersAre(ev, ip); }
    forall i {:trigger s[i]} | 0 <= i < |s|
      ensures s[i].ipAddress == Some(ips[i])
    {
      AddressOfSuccess(geo, ev, ips[i]);
    }
    if ip in ips {
      var i := FirstIndex(ips, ip);
      assert s[i].ipAddress == Some(ip);
      FirstWithAt(geo, s, ip, i);
      assert s[i] == DnsSuccess(geo, ev, ip);
    } else {
      forall i {:trigger s[i]} | 0 <= i < |s|
        ensures s[i].ipAddress != Some(ip)
      {
        assert ips[i] in ips && s[i].ipAddress == Some(ips[i]);
      }
      FirstWithNone(geo, s, ip);
    }
  }

  lemma AnswersAre(ev: DnsEvent, ip: string)
    requires ev.failure.None?
    ensures Answers(ev, ip) <==> A(ip) in ev.answers || AAAA(ip) in ev.answers
  {
  }

  lemma AddressOfSuccess(geo: Geo, ev: DnsEvent, ip: string)
    ensures DnsSuccess(geo, ev, ip).ipAddress == Some(ip)
  {
  }

  lemma {:induction false} FirstIndex(ips: seq<string>, ip: string) returns (i: nat)
    requires ip in ips
    ensures i < |ips| && ips[i] == ip && forall j :: 0 <= j < i ==> ips[j] != ip
  {
    if ips[0] == ip {
      i := 0;
    } else {
      var k := FirstIndex(ips[1..], ip);
      i := k + 1;
      forall j | 0 <= j < i
        ensures ips[j] != ip
      {
        assert j > 0 ==> ips[1..][j - 1] == ips[j];
      }
    }
  }

  /** What the observation kept for an address shows. */
  lemma FirstWithShows(geo: Geo, evs: seq<DnsEvent>, ip: string)
    ensures
      var found := FirstWith(geo, SuccessesOf(geo, evs), ip);
      ShowsAddress(geo, found, ip) && ShowsResolver(found, FirstAnswer(evs, ip))
  {
    hide FirstWith, DnsSuccess, UnknownAddress, ShowsAddress, ShowsAddresses, Answers;
    FirstWithIsFirstAnswer(geo, evs, ip);
    match FirstAnswer(evs, ip)
    case None => UnknownShows(geo, ip);
    case Some(ev) =>
      FirstAnswerAnswers(evs, ip);
      SuccessShows(geo, ev, ip);
  }

  lemma {:induction false} FirstAnswerAnswers(evs: seq<DnsEvent>, ip: string)
    ensures FirstAnswer(evs, ip).Some? ==> Answers(FirstAnswer(evs, ip).value, ip) && FirstAnswer(evs, ip).value.failure.None?
  {
    if evs != [] {
      FirstAnswerAnswers(evs[..|evs| - 1], ip);
    }
  }

  // ----- endpoints

  lemma {:induction false} ConnectsShow(geo: Geo, dns: seq<DnsEvent>, evs: seq<TcpEvent>, id: TransactionID)
    ensures
      var m := EndpointsOf(geo, SuccessesOf(geo, dns), map[], evs);
      && (id in m <==> LastConnect(evs, id).Some?)
      && (id in m ==>
            var ev := LastConnect(evs, id).value;
            m[id] == Endpoint(FirstWith(geo, SuccessesOf(geo, dns), ev.ip), ev))
  {
    hide Endpoint, FirstWith;
    if evs != [] {
      ConnectsShow(geo, dns, evs[..|evs| - 1], id);
    }
  }

  lemma {:induction false} HandshakesShow(m: map<TransactionID, Observation>, evs: seq<TlsEvent>, id: TransactionID)
    requires id in m
    ensures TlsOf(m, evs)[id] == match LastHandshake(evs, id) case None => m[id] case Some(ev) => WithTls(m[id], ev)
  {
    hide WithTls;
    if evs != [] {
      var n := |evs| - 1;
      HandshakesShow(m, evs[..n], id);
      if evs[n].transactionID == id && LastHandshake(evs[..n], id).Some? {
        LaterHandshake(m[id], LastHandshake(evs[..n], id).value, evs[n]);
      }
    }
  }

  lemma LaterHandshake(o: Observation, ev: TlsEvent, later: TlsEvent)
    ensures WithTls(WithTls(o, ev), later) == WithTls(o, later)
  {
  }

  /** What the round trips of a transaction make of an endpoint. */
  ghost predicate HasRoundTrips(o: Observation, o': Observation, http: Option<HttpEvent>, response: Option<HttpEvent>) {
    && o' == o.(kind := o'.kind, failure := o'.failure, httpRequestURL := o'.httpRequestURL, httpFailure := o'.httpFailure,
                httpResponse := o'.httpResponse)
    && (http.None? ==> o' == o)
    && (http.Some? ==>
          && o'.kind.HTTPRoundTrip? && o'.failure == TextOf(http.value.failure)
          && ShowsRoundTrip(o', http))
    && (if response.Some? then ShowsResponse(o', response) else o'.httpResponse == o.httpResponse)
  }

  lemma OneRoundTrip(o: Observation, o': Observation, http: Option<HttpEvent>, response: Option<HttpEvent>, ev: HttpEvent)
    requires HasRoundTrips(o, o', http, response)
    ensures HasRoundTrips(o, WithHttp(o', ev), Some(ev), if ev.failure.None? then Some(ev) else response)
  {
  }

  lemma NoRoundTrip(o: Observation)
    ensures HasRoundTrips(o, o, None, None)
  {
  }

  lemma {:induction false} RoundTripsShow(m: map<TransactionID, Observation>, evs: seq<HttpEvent>, id: TransactionID)
    requires id in m
    ensures HasRoundTrips(m[id], HttpOf(m, evs)[id], LastRoundTrip(evs, id), LastResponse(evs, id))
  {
    hide WithHttp, HasRoundTrips;
    if evs == [] {
      NoRoundTrip(m[id]);
    } else {
      var n := |evs| - 1;
      RoundTripsShow(m, evs[..n], id);
      if evs[n].transactionID == id {
        OneRoundTrip(m[id], HttpOf(m, evs[..n])[id], LastRoundTrip(evs[..n], id), LastResponse(evs[..n], id), evs[n]);
      }
    }
  }

  /** All that an endpoint shows of a measurement. */
  ghost predicate ShowsAll(geo: Geo, o: Observation, tk: TestKeys, id: TransactionID)
    requires LastConnect(tk.tcpConnect, id).Some?
  {
    var ev := LastConnect(tk.tcpConnect, id).value;
    && ShowsConnect(geo, o, ev) && ShowsResolver(o, FirstAnswer(tk.queries, ev.ip))
    && ShowsHandshake(o, LastHandshake(tk.tlsHandshakes, id))
    && ShowsRoundTrip(o, LastRoundTrip(tk.requests, id)) && ShowsResponse(o, LastResponse(tk.requests, id))
    && ShowsFurthest(o, ev, LastHandshake(tk.tlsHandshakes, id), LastRoundTrip(tk.requests, id))
    && o.control == NO_CONTROL
  }

  lemma LaterOperations(geo: Geo, o: Observation, o1: Observation, o2: Observation, dns: Option<DnsEvent>, ev: TcpEvent,
                        tls: Option<TlsEvent>, http: Option<HttpEvent>, response: Option<HttpEvent>)
    requires ShowsConnect(geo, o, ev) && ShowsResolver(o, dns) && ShowsHandshake(o, None) && ShowsRoundTrip(o, None)
    requires ShowsResponse(o, None) && ShowsFurthest(o, ev, None, None) && o.control == NO_CONTROL
    requires o1 == match tls case None => o case Some(t) => WithTls(o, t)
    requires HasRoundTrips(o1, o2, http, response)
    ensures ShowsConnect(geo, o2, ev) && ShowsResolver(o2, dns) && ShowsHandshake(o2, tls) && ShowsRoundTrip(o2, http)
    ensures ShowsResponse(o2, response) && ShowsFurthest(o2, ev, tls, http) && o2.control == NO_CONTROL
  {
  }

  lemma NewEndpointHasNoControl(found: Observation, ev: TcpEvent)
    ensures Endpoint(found, ev).control == NO_CONTROL
  {
  }

  /** After the probe's events are loaded, there is an endpoint for each transaction that connected, and it shows the
      last connect, handshake, round trip and response of its transaction and the first lookup of its address. */
  lemma EndpointsShowEvents(geo: Geo, tk: TestKeys, id: TransactionID)
    ensures
      var v := AfterAll(geo, EMPTY, ProbeCalls(tk));
      && (id in v.endpoints <==> LastConnect(tk.tcpConnect, id).Some?)
      && (id in v.endpoints ==> ShowsAll(geo, v.endpoints[id], tk, id))
  {
    hide Endpoint, FirstWith, WithTls, HasRoundTrips, ShowsConnect, ShowsResolver, ShowsHandshake, ShowsRoundTrip;
    hide ShowsResponse, ShowsFurthest, ShowsAddress, ProbeCalls, AfterAll;
    AfterProbeCalls(geo, tk);
    var successes := SuccessesOf(geo, tk.queries);
    assert EMPTY.successes + successes == successes;
    var m := EndpointsOf(geo, successes, map[], tk.tcpConnect);
    var m1 := TlsOf(m, tk.tlsHandshakes);
    var m2 := HttpOf(m1, tk.requests);
    assert AfterAll(geo, EMPTY, ProbeCalls(tk)).endpoints == m2;
    ConnectsShow(geo, tk.queries, tk.tcpConnect, id);
    if id in m {
      var ev := LastConnect(tk.tcpConnect, id).value;
      var found := FirstWith(geo, successes, ev.ip);
      FirstWithShows(geo, tk.queries, ev.ip);
      EndpointShows(geo, found, FirstAnswer(tk.queries, ev.ip), ev);
      NewEndpointHasNoControl(found, ev);
      HandshakesShow(m, tk.tlsHandshakes, id);
      RoundTripsShow(m1, tk.requests, id);
      LaterOperations(geo, m[id], m1[id], m2[id], FirstAnswer(tk.queries, ev.ip), ev, LastHandshake(tk.tlsHandshakes, id),
                      LastRoundTrip(tk.requests, id), LastResponse(tk.requests, id));
    }
  }

  /** And the lookups show the events, one for each failed one and one for each answer of the others. */
  lemma LookupsShowEvents(geo: Geo, tk: TestKeys)
    ensures
      var v := AfterAll(geo, EMPTY, ProbeCalls(tk));
      && ShowFailures(v.failures, FailedOf(tk.queries))
      && (forall i {:trigger v.successes[i]} :: 0 <= i < |v.successes| ==> IsAnswer(geo, tk.queries, v.successes[i]))
      && (forall ev, ip {:trigger Answers(ev, ip)} :: ev in tk.queries && Answers(ev, ip) ==> DnsSuccess(geo, ev, ip) in v.successes)
  {
    hide ShowFailures, IsAnswer, ProbeCalls, AfterAll, DnsSuccess, Answers;
    AfterProbeCalls(geo, tk);
    FailuresShow(tk.queries);
    SuccessesShow(geo, tk.queries);
    assert EMPTY.successes + SuccessesOf(geo, tk.queries) == SuccessesOf(geo, tk.queries);
    assert EMPTY.failures + FailuresOf(tk.queries) == FailuresOf(tk.queries);
  }

  // ----- the control

  /** A lookup before and after the control's messages. */
  predicate LookupIsControlled(o: Observation, o': Observation, domain: string, th: ThResponse) {
    && o' == o.(control := o'.control)
    && (o.dnsDomain == Some(domain) ==>
          o'.control.dnsDomain == Some(domain) && o'.control.dnsLookupFailure == TextOf(th.dnsFailure))
    && (o.dnsDomain != Some(domain) ==>
          o'.control.dnsDomain == o.control.dnsDomain && o'.control.dnsLookupFailure == o.control.dnsLookupFailure)
    && o'.control.dnsResolvedAddrs
       == (if o.dnsDomain == Some(domain) && th.dnsFailure.None? then Some(th.dnsAddrs) else o.control.dnsResolvedAddrs)
    && o'.control.tcpConnectFailure == o.control.tcpConnectFailure
    && o'.control.tlsHandshakeFailure == o.control.tlsHandshakeFailure
    && HasExpectation(o, o', th)
  }

  predicate HasExpectation(o: Observation, o': Observation, th: ThResponse) {
    && o'.control.httpFailure == TextOf(th.httpFailure)
    && (th.httpFailure.None? ==>
          && o'.control.httpStatusCode == Some(th.httpStatusCode) && o'.control.httpBodyLength == Some(th.httpBodyLength)
          && o'.control.httpHeadersKeys == Some(th.httpHeadersKeys) && o'.control.httpTitle == Some(th.httpTitle))
    && (th.httpFailure.Some? ==>
          && o'.control.httpStatusCode == o.control.httpStatusCode && o'.control.httpBodyLength == o.control.httpBodyLength
          && o'.control.httpHeadersKeys == o.control.httpHeadersKeys && o'.control.httpTitle == o.control.httpTitle)
  }

  /** The endpoint has no domain of its own, and the control resolved its address. */
  predicate IsFromControl(o: Observation, th: ThResponse) {
    (o.dnsDomain.None? || o.dnsDomain == Some("")) && o.ipAddress.Some? && o.ipAddress.value in th.dnsAddrs
  }

  predicate IsOfDomain(o: Observation, domain: string) {
    domain != "" && o.dnsDomain == Some(domain)
  }

  /** An endpoint before and after the control's messages. */
  predicate EndpointIsControlled(o: Observation, o': Observation, domain: string, th: ThResponse) {
    && o' == o.(ipAddressOrigin := o'.ipAddressOrigin, control := o'.control)
    && o'.ipAddressOrigin == (if IsFromControl(o, th) then Some("th") else o.ipAddressOrigin)
    && (IsFromControl(o, th) || IsOfDomain(o, domain) ==>
          o'.control.dnsDomain == Some(domain) && o'.control.dnsLookupFailure == TextOf(th.dnsFailure))
    && (!IsFromControl(o, th) && !IsOfDomain(o, domain) ==>
          o'.control.dnsDomain == o.control.dnsDomain && o'.control.dnsLookupFailure == o.control.dnsLookupFailure)
    && o'.control.dnsResolvedAddrs
       == (if IsFromControl(o, th) || (IsOfDomain(o, domain) && th.dnsFailure.None?) then Some(th.dnsAddrs)
           else o.control.dnsResolvedAddrs)
    && o'.control.tcpConnectFailure
       == (if o.endpointAddress.Some? && o.endpointAddress.value in th.tcpConnect
           then TextOf(th.tcpConnect[o.endpointAddress.value]) else o.control.tcpConnectFailure)
    && o'.control.tlsHandshakeFailure
       == (if o.endpointAddress.Some? && o.endpointAddress.value in th.tlsHandshake
              && o.tlsServerName == Some(th.tlsHandshake[o.endpointAddress.value].serverName)
           then TextOf(th.tlsHandshake[o.endpointAddress.value].failure) else o.control.tlsHandshakeFailure)
    && HasExpectation(o, o', th)
  }

  lemma LookupPasses(o: Observation, o1: Observation, o2: Observation, domain: string, th: ThResponse)
    requires LookupIsCompared(o, o1, domain, th) && GetsExpectation(o1, o2, th)
    ensures LookupIsControlled(o, o2, domain, th)
  {
  }

  lemma EndpointPasses(o: Observation, o1: Observation, o2: Observation, o3: Observation, o4: Observation, domain: string, th: ThResponse)
    requires EndpointIsMatched(o, o1, domain, th) && ConnectIsCompared(o1, o2, th)
    requires HandshakeIsCompared(o2, o3, th) && GetsExpectation(o3, o4, th)
    ensures EndpointIsControlled(o, o4, domain, th)
  {
  }

  /** What the control's messages change: of each lookup and each endpoint exactly these fields, and nothing else. */
  lemma ControlIsCompared(v: View, domain: string, th: ThResponse)
    ensures
      var v' := Controlled(v, domain, th);
      && |v'.failures| == |v.failures| && |v'.successes| == |v.successes| && v'.endpoints.Keys == v.endpoints.Keys
      && (forall i {:trigger v'.failures[i]} :: 0 <= i < |v.failures| ==>
            LookupIsControlled(v.failures[i], v'.failures[i], domain, th))
      && (forall i {:trigger v'.successes[i]} :: 0 <= i < |v.successes| ==>
            LookupIsControlled(v.successes[i], v'.successes[i], domain, th))
      && (forall id {:trigger v'.endpoints[id]} :: id in v.endpoints ==>
            EndpointIsControlled(v.endpoints[id], v'.endpoints[id], domain, th))
      && v'.expectations == Some(ControlExpectations(th.dnsAddrs, TextOf(th.httpFailure)))
  {
    hide Mapped, MappedAt, LookupIsCompared, EndpointIsMatched, ConnectIsCompared, HandshakeIsCompared, GetsExpectation;
    hide LookupIsControlled, EndpointIsControlled;
    LookupsAreControlled(v.failures, domain, th);
    LookupsAreControlled(v.successes, domain, th);
    var m1 := MappedAt(MatchPass(domain), th, v.endpoints);
    var m2 := MappedAt(TcpPass, th, m1);
    var m3 := MappedAt(TlsPass, th, m2);
    var m4 := MappedAt(ExpectationPass, th, m3);
    MappedAtIsPassed(MatchPass(domain), th, v.endpoints);
    MappedAtIsPassed(TcpPass, th, m1);
    MappedAtIsPassed(TlsPass, th, m2);
    MappedAtIsPassed(ExpectationPass, th, m3);
    forall id {:trigger m4[id]} | id in v.endpoints
      ensures EndpointIsControlled(v.endpoints[id], m4[id], domain, th)
    {
      assert Passed(MatchPass(domain), th, v.endpoints[id], m1[id]) && Passed(TcpPass, th, m1[id], m2[id]);
      assert Passed(TlsPass, th, m2[id], m3[id]) && Passed(ExpectationPass, th, m3[id], m4[id]);
      EndpointPasses(v.endpoints[id], m1[id], m2[id], m3[id], m4[id], domain, th);
    }
  }

  lemma LookupsAreControlled(s: seq<Observation>, domain: string, th: ThResponse)
    ensures
      var s' := Mapped(ExpectationPass, th, Mapped(DnsPass(domain), th, s));
      |s'| == |s| && forall i {:trigger s'[i]} :: 0 <= i < |s| ==> LookupIsControlled(s[i], s'[i], domain, th)
  {
    hide Mapped, LookupIsCompared, GetsExpectation, LookupIsControlled;
    var s1 := Mapped(DnsPass(domain), th, s);
    var s2 := Mapped(ExpectationPass, th, s1);
    MappedIsPassed(DnsPass(domain), th, s);
    MappedIsPassed(ExpectationPass, th, s1);
    forall i {:trigger s2[i]} | 0 <= i < |s|
      ensures LookupIsControlled(s[i], s2[i], domain, th)
    {
      assert Passed(DnsPass(domain), th, s[i], s1[i]) && Passed(ExpectationPass, th, s1[i], s2[i]);
      LookupPasses(s[i], s1[i], s2[i], domain, th);
    }
  }
}
