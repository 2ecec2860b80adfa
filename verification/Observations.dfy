/** Observations, and what each kind of event contributes to them (pkg/minipipeline/observation.go). */
module Observations {
  import opened Optional
  import opened Tactics
  import DnsDiff

  datatype ObservationType = DNSLookup | TCPConnect | TLSHandshake | HTTPRoundTrip {

    /** The number that stands for the type. */
    function Rank(): nat {
      match this
      case DNSLookup => 0
      case TCPConnect => 1
      case TLSHandshake => 2
      case HTTPRoundTrip => 3
    }
  }

  /** Transaction IDs are 64-bit numbers. */
  type TransactionID = x: int | -0x8000_0000_0000_0000 <= x < 0x8000_0000_0000_0000

  const ORIGIN_DNS := "dns"
  const ORIGIN_TH := "th"

  datatype Observation = Observation(
    tagDepth: Option<int>,
    kind: ObservationType,
    failure: Option<string>,
    transactionID: TransactionID,
    tagFetchBody: Option<bool>,
    dnsTransactionID: Option<TransactionID>,
    dnsDomain: Option<string>,
    dnsLookupFailure: Option<string>,
    dnsQueryType: Option<string>,
    dnsEngine: Option<string>,
    dnsResolvedAddrs: Option<set<string>>,
    ipAddressOrigin: Option<string>,
    ipAddress: Option<string>,
    ipAddressASN: Option<int>,
    ipAddressBogon: Option<bool>,
    endpointTransactionID: Option<TransactionID>,
    endpointProto: Option<string>,
    endpointPort: Option<string>,
    endpointAddress: Option<string>,
    tcpConnectFailure: Option<string>,
    tlsHandshakeFailure: Option<string>,
    tlsServerName: Option<string>,
    httpRequestURL: Option<string>,
    httpFailure: Option<string>,
    httpResponse: HttpResponse,
    control: Control)

  /** The fields about the HTTP response. */
  datatype HttpResponse = HttpResponse(
    statusCode: Option<int>,
    bodyLength: Option<int>,
    bodyIsTruncated: Option<bool>,
    headersKeys: Option<set<string>>,
    location: Option<string>,
    title: Option<string>,
    isFinal: Option<bool>)

  /** The fields that come from the control, that is, the test helper. */
  datatype Control = Control(
    dnsDomain: Option<string>,
    dnsLookupFailure: Option<string>,
    dnsResolvedAddrs: Option<set<string>>,
    tcpConnectFailure: Option<string>,
    tlsHandshakeFailure: Option<string>,
    httpFailure: Option<string>,
    httpStatusCode: Option<int>,
    httpBodyLength: Option<int>,
    httpHeadersKeys: Option<set<string>>,
    httpTitle: Option<string>)

  const NO_RESPONSE := HttpResponse(None, None, None, None, None, None, None)

  const NO_CONTROL := Control(None, None, None, None, None, None, None, None, None, None)

  /** The zero value. */
  const NO_OBSERVATION := Observation(None, DNSLookup, None, 0, None,
                                      None, None, None, None, None, None,
                                      None, None, None, None,
                                      None, None, None, None, None, None, None, None, None,
                                      NO_RESPONSE, NO_CONTROL)

  // ----- events; tags, titles and header names are given already parsed

  datatype Answer = A(ipv4: string) | AAAA(ipv6: string) | OtherAnswer

  datatype DnsEvent = DnsEvent(failure: Option<string>, transactionID: TransactionID, hostname: string, queryType: string,
                               engine: string, answers: seq<Answer>, depth: Option<int>)

  datatype TcpEvent = TcpEvent(failure: Option<string>, transactionID: TransactionID, ip: string, port: string,
                               depth: Option<int>, fetchBody: Option<bool>)

  datatype TlsEvent = TlsEvent(failure: Option<string>, transactionID: TransactionID, serverName: string)

  datatype HttpEvent = HttpEvent(failure: Option<string>, transactionID: TransactionID, url: string, code: int, bodyLength: nat,
                                 bodyIsTruncated: bool, headersKeys: set<string>, location: Option<string>, title: string)

  datatype ThTls = ThTls(serverName: string, failure: Option<string>)

  /** What the test helper answers. */
  datatype ThResponse = ThResponse(dnsFailure: Option<string>, dnsAddrs: set<string>,
                                   tcpConnect: map<string, Option<string>>, tlsHandshake: map<string, ThTls>,
                                   httpFailure: Option<string>, httpStatusCode: int, httpBodyLength: int,
                                   httpHeadersKeys: set<string>, httpTitle: string)

  /** Facts about addresses: the autonomous system, and whether the address is a bogon. */
  datatype Geo = Geo(asn: DnsDiff.Lookup, bogon: string -> bool)

  // ----- what events contribute

  function ResolvedAddresses(answers: seq<Answer>): set<string> {
    (set a | a in answers && a.A? :: a.ipv4) + (set a | a in answers && a.AAAA? :: a.ipv6)
  }

  /** The addresses in the order of the answers. */
  function AddressList(answers: seq<Answer>): (ips: seq<string>) {
    if answers == [] then []
    else
      var n := |answers| - 1;
      AddressList(answers[..n])
      + (match answers[n]
         case A(ipv4) => [ipv4]
         case AAAA(ipv6) => [ipv6]
         case _ => [])
  }

  lemma {:induction false} AddressListMeaning(answers: seq<Answer>)
    ensures (set ip | ip in AddressList(answers)) == ResolvedAddresses(answers)
  {
    if answers != [] {
      var n := |answers| - 1;
      AddressListMeaning(answers[..n]);
      assert answers == answers[..n] + [answers[n]];
      assert forall ip :: ip in AddressList(answers[..n]) <==> ip in ResolvedAddresses(answers[..n]);
    }
  }

  function DnsFailure(ev: DnsEvent): Observation {
    var failure := Some(ev.failure.UnwrapOr(""));
    NO_OBSERVATION.(kind := DNSLookup, failure := failure, transactionID := ev.transactionID,
                    dnsTransactionID := Some(ev.transactionID), dnsDomain := Some(ev.hostname),
                    dnsLookupFailure := failure, dnsQueryType := Some(ev.queryType),
                    dnsEngine := Some(ev.engine), tagDepth := ev.depth)
  }

  function DnsSuccess(geo: Geo, ev: DnsEvent, ip: string): Observation {
    NO_OBSERVATION.(kind := DNSLookup, failure := Some(""), transactionID := ev.transactionID,
                    dnsTransactionID := Some(ev.transactionID), dnsDomain := Some(ev.hostname),
                    dnsLookupFailure := Some(""), dnsQueryType := Some(ev.queryType),
                    dnsEngine := Some(ev.engine), dnsResolvedAddrs := Some(ResolvedAddresses(ev.answers)),
                    ipAddressOrigin := Some(ORIGIN_DNS), ipAddress := Some(ip), ipAddressASN := DnsDiff.ASNOf(geo.asn, ip),
                    ipAddressBogon := Some(geo.bogon(ip)), tagDepth := ev.depth)
  }

  /** What is known about an address that no lookup resolved. */
  function UnknownAddress(geo: Geo, ip: string): Observation {
    NO_OBSERVATION.(ipAddress := Some(ip), ipAddressASN := DnsDiff.ASNOf(geo.asn, ip),
                    ipAddressBogon := Some(geo.bogon(ip)))
  }

  /** `found` is the lookup that resolved the address, or its stand-in. */
  function Endpoint(found: Observation, ev: TcpEvent): Observation {
    var failure := Some(ev.failure.UnwrapOr(""));
    NO_OBSERVATION.(kind := TCPConnect, failure := failure, transactionID := ev.transactionID,
                    dnsTransactionID := found.dnsTransactionID, dnsDomain := found.dnsDomain,
                    dnsLookupFailure := found.dnsLookupFailure, dnsResolvedAddrs := found.dnsResolvedAddrs,
                    ipAddressOrigin := found.ipAddressOrigin, ipAddress := found.ipAddress,
                    ipAddressASN := found.ipAddressASN, ipAddressBogon := found.ipAddressBogon,
                    endpointTransactionID := Some(ev.transactionID), endpointProto := Some("tcp"),
                    endpointPort := Some(ev.port), endpointAddress := Some(JoinHostPort(ev.ip, ev.port)),
                    tcpConnectFailure := failure, tagDepth := ev.depth, tagFetchBody := ev.fetchBody)
  }

  function WithTls(o: Observation, ev: TlsEvent): Observation {
    var failure := Some(ev.failure.UnwrapOr(""));
    o.(kind := TLSHandshake, failure := failure, tlsHandshakeFailure := failure, tlsServerName := Some(ev.serverName))
  }

  predicate ResponseIsFinal(code: int) {
    code / 100 in {2, 4, 5}
  }

  /** A response is looked at only in case of success. */
  function WithHttp(o: Observation, ev: HttpEvent): Observation {
    var failure := Some(ev.failure.UnwrapOr(""));
    var o := o.(kind := HTTPRoundTrip, failure := failure, httpRequestURL := Some(ev.url), httpFailure := failure);
    if ev.failure.Some? then o
    else o.(httpResponse := HttpResponse(Some(ev.code), Some(ev.bodyLength), Some(ev.bodyIsTruncated), Some(ev.headersKeys),
                                         ev.location, Some(ev.title), Some(ResponseIsFinal(ev.code))))
  }

  /** The control's lookup, for observations of the domain it resolved too. */
  function WithControlLookup(o: Observation, domain: string, th: ThResponse): Observation {
    var c := o.control.(dnsDomain := Some(domain), dnsLookupFailure := Some(th.dnsFailure.UnwrapOr("")));
    o.(control := if th.dnsFailure.Some? then c else c.(dnsResolvedAddrs := Some(th.dnsAddrs)))
  }

  function XrefDns(o: Observation, domain: string, th: ThResponse): Observation {
    if o.dnsDomain == Some(domain) then WithControlLookup(o, domain, th) else o
  }

  /** An endpoint whose address no lookup of the probe resolved may stem from the control. */
  function MatchDns(o: Observation, domain: string, th: ThResponse): Observation {
    var own := o.dnsDomain.UnwrapOr("");
    if own == "" && o.ipAddress.Some? && o.ipAddress.value in th.dnsAddrs then
      o.(ipAddressOrigin := Some(ORIGIN_TH),
         control := o.control.(dnsDomain := Some(domain), dnsLookupFailure := Some(th.dnsFailure.UnwrapOr("")),
                               dnsResolvedAddrs := Some(th.dnsAddrs)))
    else if own == "" || own != domain then o
    else WithControlLookup(o, domain, th)
  }

  function XrefTcp(o: Observation, th: ThResponse): Observation {
    if o.endpointAddress.Some? && o.endpointAddress.value in th.tcpConnect then
      o.(control := o.control.(tcpConnectFailure := Some(th.tcpConnect[o.endpointAddress.value].UnwrapOr(""))))
    else o
  }

  function XrefTls(o: Observation, th: ThResponse): Observation {
    if o.tlsServerName.Some? && o.endpointAddress.Some? && o.endpointAddress.value in th.tlsHandshake
       && th.tlsHandshake[o.endpointAddress.value].serverName == o.tlsServerName.value then
      o.(control := o.control.(tlsHandshakeFailure := Some(th.tlsHandshake[o.endpointAddress.value].failure.UnwrapOr(""))))
    else o
  }

  function WithExpectation(o: Observation, th: ThResponse): Observation {
    var c := o.control.(httpFailure := Some(th.httpFailure.UnwrapOr("")));
    o.(control := if th.httpFailure.Some? then c
                  else c.(httpStatusCode := Some(th.httpStatusCode), httpBodyLength := Some(th.httpBodyLength),
                          httpHeadersKeys := Some(th.httpHeadersKeys), httpTitle := Some(th.httpTitle)))
  }

  /** All that the control says about an endpoint. */
  function ControlledEndpoint(o: Observation, domain: string, th: ThResponse): Observation {
    WithExpectation(XrefTls(XrefTcp(MatchDns(o, domain, th), th), th), th)
  }

  /** All that the control says about a lookup. */
  function ControlledLookup(o: Observation, domain: string, th: ThResponse): Observation {
    WithExpectation(XrefDns(o, domain, th), th)
  }

  // ----- what the passes of the control do, field by field

  /** Some text, empty when there is none. */
  function TextOf(failure: Option<string>): Option<string> {
    match failure case None => Some("") case Some(text) => Some(text)
  }

  /** `o'` is `o` with another origin and another control part. */
  predicate OnlyControlDiffers(o: Observation, o': Observation) {
    o' == o.(ipAddressOrigin := o'.ipAddressOrigin, control := o'.control)
  }

  /** A lookup of the control's domain gets the failure of the control's lookup and, iff that succeeded, its
      addresses; a lookup of another domain stays as it is. */
  predicate LookupIsCompared(o: Observation, o': Observation, domain: string, th: ThResponse) {
    if o.dnsDomain != Some(domain) then o' == o
    else
      && OnlyControlDiffers(o, o') && o'.ipAddressOrigin == o.ipAddressOrigin
      && o'.control.dnsDomain == Some(domain)
      && o'.control.dnsLookupFailure == TextOf(th.dnsFailure)
      && (th.dnsFailure.None? ==> o'.control.dnsResolvedAddrs == Some(th.dnsAddrs))
      && (th.dnsFailure.Some? ==> o'.control.dnsResolvedAddrs == o.control.dnsResolvedAddrs)
      && o'.control == o.control.(dnsDomain := o'.control.dnsDomain, dnsLookupFailure := o'.control.dnsLookupFailure,
                                  dnsResolvedAddrs := o'.control.dnsResolvedAddrs)
  }

  /** An endpoint without a domain whose address the control resolved has its address from the control, and all of the
      control's lookup; one of the control's domain is treated like a lookup; others stay as they are. */
  predicate EndpointIsMatched(o: Observation, o': Observation, domain: string, th: ThResponse) {
    if (o.dnsDomain.None? || o.dnsDomain == Some("")) && o.ipAddress.Some? && o.ipAddress.value in th.dnsAddrs then
      && OnlyControlDiffers(o, o') && o'.ipAddressOrigin == Some("th")
      && o'.control == o.control.(dnsDomain := Some(domain), dnsLookupFailure := TextOf(th.dnsFailure),
                                  dnsResolvedAddrs := Some(th.dnsAddrs))
    else if o.dnsDomain.None? || o.dnsDomain == Some("") then o' == o
    else LookupIsCompared(o, o', domain, th)
  }

  /** An endpoint that the control connected to gets the control's failure, empty for a success. */
  predicate ConnectIsCompared(o: Observation, o': Observation, th: ThResponse) {
    if o.endpointAddress.Some? && o.endpointAddress.value in th.tcpConnect then
      && OnlyControlDiffers(o, o') && o'.ipAddressOrigin == o.ipAddressOrigin
      && o'.control == o.control.(tcpConnectFailure := TextOf(th.tcpConnect[o.endpointAddress.value]))
    else o' == o
  }

  /** A handshake that the control did too, with the same server name, gets the control's failure. */
  predicate HandshakeIsCompared(o: Observation, o': Observation, th: ThResponse) {
    if o.endpointAddress.Some? && o.endpointAddress.value in th.tlsHandshake
       && o.tlsServerName == Some(th.tlsHandshake[o.endpointAddress.value].serverName) then
      && OnlyControlDiffers(o, o') && o'.ipAddressOrigin == o.ipAddressOrigin
      && o'.control == o.control.(tlsHandshakeFailure := TextOf(th.tlsHandshake[o.endpointAddress.value].failure))
    else o' == o
  }

  /** Everything gets the failure of the control's final response and, iff there is none, what the response was. */
  predicate GetsExpectation(o: Observation, o': Observation, th: ThResponse) {
    && OnlyControlDiffers(o, o') && o'.ipAddressOrigin == o.ipAddressOrigin
    && o'.control.httpFailure == TextOf(th.httpFailure)
    && (if th.httpFailure.Some? then o'.control == o.control.(httpFailure := o'.control.httpFailure)
        else o'.control == o.control.(httpFailure := Some(""), httpStatusCode := Some(th.httpStatusCode),
                                      httpBodyLength := Some(th.httpBodyLength),
                                      httpHeadersKeys := Some(th.httpHeadersKeys), httpTitle := Some(th.httpTitle)))
  }

  lemma PassesAreExact(o: Observation, domain: string, th: ThResponse)
    ensures LookupIsCompared(o, XrefDns(o, domain, th), domain, th)
    ensures EndpointIsMatched(o, MatchDns(o, domain, th), domain, th)
    ensures ConnectIsCompared(o, XrefTcp(o, th), th)
    ensures HandshakeIsCompared(o, XrefTls(o, th), th)
    ensures GetsExpectation(o, WithExpectation(o, th), th)
  {
  }

  // ----- what always holds of an observation

  /** The failure field that the type names. */
  function FailureOfKind(o: Observation): Option<string> {
    match o.kind
    case DNSLookup => o.dnsLookupFailure
    case TCPConnect => o.tcpConnectFailure
    case TLSHandshake => o.tlsHandshakeFailure
    case HTTPRoundTrip => o.httpFailure
  }

  predicate ValidFailure(o: Observation) {
    o.failure.Some? && o.failure == FailureOfKind(o)
  }

  /** Where a lookup yields the addresses of the control, the probe's addresses are known too. */
  predicate ValidLookup(o: Observation) {
    && o.kind.DNSLookup? && ValidFailure(o)
    && o.dnsTransactionID == Some(o.transactionID)
    && o.dnsDomain.Some?
    && o.endpointTransactionID.None?
  }

  predicate ValidLookupSuccess(o: Observation) {
    && ValidLookup(o) && o.failure == Some("")
    && o.dnsResolvedAddrs.Some? && o.ipAddress.Some? && o.ipAddress.value in o.dnsResolvedAddrs.value
    && o.ipAddressBogon.Some?
  }

  /** An endpoint under its transaction. */
  predicate ValidEndpoint(id: TransactionID, o: Observation) {
    && !o.kind.DNSLookup? && ValidFailure(o)
    && o.transactionID == id && o.endpointTransactionID == Some(id)
    && o.ipAddress.Some? && o.ipAddressBogon.Some?
    && o.endpointAddress.Some? && o.endpointProto.Some? && o.endpointPort.Some?
    && o.endpointAddress.value == JoinHostPort(o.ipAddress.value, o.endpointPort.value)
    && o.tcpConnectFailure.Some?
    && (o.tlsServerName.Some? <==> o.tlsHandshakeFailure.Some?)
    && (o.httpResponse.isFinal.Some? ==> o.httpFailure.Some?)
  }

  lemma DnsObservationsAreValid(geo: Geo, ev: DnsEvent, ip: string)
    ensures ip in ResolvedAddresses(ev.answers) ==> ValidLookupSuccess(DnsSuccess(geo, ev, ip))
  {
  }

  lemma EndpointIsValid(geo: Geo, found: Observation, ev: TcpEvent)
    requires found.ipAddress == Some(ev.ip) && found.ipAddressBogon.Some?
    ensures ValidEndpoint(ev.transactionID, Endpoint(found, ev))
  {
  }

  /** An observation without what the control contributes. */
  function ProbePart(o: Observation): Observation {
    o.(control := NO_CONTROL, ipAddressOrigin := None)
  }

  /** The control changes nothing that the probe measured. */
  lemma ControlKeepsProbePart(o: Observation, domain: string, th: ThResponse)
    ensures ProbePart(ControlledEndpoint(o, domain, th)) == ProbePart(o)
    ensures ProbePart(ControlledLookup(o, domain, th)) == ProbePart(o)
    ensures ControlledLookup(o, domain, th).ipAddressOrigin == o.ipAddressOrigin
  {
  }
}
