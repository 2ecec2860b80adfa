/** Classifying observations (pkg/minipipeline/analysis.go). */
module Analysis {
  import opened Optional
  import opened Observations
  import opened Containers
  import DnsDiff
  import Linear
  import Sets

  const NO_ANSWER := "dns_no_answer"
  const HOST_UNREACHABLE := "host_unreachable"
  const NETWORK_UNREACHABLE := "network_unreachable"

  /** Go's `<` on transactions. */
  predicate Before(a: TransactionID, b: TransactionID) {
    a < b
  }

  /** Functions that are given: facts about addresses, and the comparison of two HTTP responses. */
  datatype Env = Env(
    lookup: DnsDiff.Lookup,
    isIPv6: string -> bool,
    proportion: (int, int) -> real,
    statusCodeMatch: (int, int) -> Option<bool>,
    commonHeaders: (set<string>, set<string>) -> set<string>,
    differentWords: (string, string) -> set<string>)

  // ----- what the sets mean

  /** The operation belongs to the initial request, before any redirect. */
  predicate AtStart(o: Observation) {
    o.tagDepth.Some? && o.tagDepth.value == 0
  }

  predicate Failed(f: Option<string>) {
    f.Some? && f.value != ""
  }

  predicate Succeeded(f: Option<string>) {
    f.Some? && f.value == ""
  }

  /** The probe and the control share an address or an autonomous system. */
  ghost predicate Consistent(env: Env, measurement: set<string>, control: set<string>) {
    || measurement * control - {""} != {}
    || DnsDiff.ASNs(env.lookup, measurement) * DnsDiff.ASNs(env.lookup, control) != {}
  }

  ghost predicate Compared(env: Env, o: Observation, consistent: bool) {
    && AtStart(o) && o.control.dnsResolvedAddrs.Some? && o.dnsResolvedAddrs.Some?
    && Consistent(env, o.dnsResolvedAddrs.value, o.control.dnsResolvedAddrs.value) == consistent
  }

  /** DNS over HTTPS tells about the DoH server, and a missing AAAA record is no failure. */
  predicate Relevant(o: Observation) {
    && o.dnsEngine.UnwrapOr("") != "doh"
    && !(o.dnsQueryType.UnwrapOr("") == "AAAA" && o.dnsLookupFailure.UnwrapOr("") == NO_ANSWER)
  }

  /** The control has no addresses, which is how it reports no answer. */
  predicate BothNoAnswer(o: Observation) {
    && o.dnsLookupFailure.Some? && o.dnsLookupFailure.value == NO_ANSWER
    && o.control.dnsResolvedAddrs.Some? && o.control.dnsResolvedAddrs.value == {}
  }

  datatype DnsMetric = Success | Bogon | Valid | Invalid | Unexplained | Expected | Unexpected | ExpectedSuccess

  ghost predicate DnsIs(metric: DnsMetric, env: Env, o: Observation) {
    match metric
    case Success => AtStart(o)
    case Bogon => AtStart(o) && o.ipAddressBogon.Some? && o.ipAddressBogon.value
    case Valid => Compared(env, o, true)
    case Invalid => Compared(env, o, false)
    case Unexplained => Relevant(o) && !AtStart(o) && Failed(o.dnsLookupFailure)
    case Expected =>
      && Relevant(o) && AtStart(o) && Failed(o.dnsLookupFailure)
      && (Failed(o.control.dnsLookupFailure) || (Succeeded(o.control.dnsLookupFailure) && BothNoAnswer(o)))
    case Unexpected =>
      && Relevant(o) && AtStart(o) && Failed(o.dnsLookupFailure)
      && Succeeded(o.control.dnsLookupFailure) && !BothNoAnswer(o)
    case ExpectedSuccess =>
      Relevant(o) && AtStart(o) && !Failed(o.dnsLookupFailure) && Succeeded(o.control.dnsLookupFailure)
  }

  function Ids(s: seq<Observation>): (r: set<TransactionID>)
    ensures forall i {:trigger s[i]} :: 0 <= i < |s| ==> s[i].transactionID in r
    ensures forall id :: id in r ==> exists i :: 0 <= i < |s| && s[i].transactionID == id
  {
    set o | o in s :: o.transactionID
  }

  /** The transactions whose first lookup is of the given kind: only the first one counts. */
  ghost function Dns(metric: DnsMetric, env: Env, s: seq<Observation>): set<TransactionID> {
    if s == [] then {}
    else
      var n := |s| - 1;
      Dns(metric, env, s[..n])
      + (if s[n].transactionID !in Ids(s[..n]) && DnsIs(metric, env, s[n]) then {s[n].transactionID} else {})
  }

  lemma {:induction false} DnsMembers(metric: DnsMetric, env: Env, s: seq<Observation>, id: TransactionID)
    ensures id in Dns(metric, env, s) <==>
              exists i {:trigger s[i]} :: 0 <= i < |s| && s[i].transactionID == id && DnsIs(metric, env, s[i])
                                          && forall j {:trigger s[j]} :: 0 <= j < i ==> s[j].transactionID != id
  {
    hide DnsIs;
    if s != [] {
      hide Dns;
      var n := |s| - 1;
      var front := s[..n];
      DnsMembers(metric, env, front, id);
      DnsOneMore(metric, env, s);
      if id in Dns(metric, env, front) {
        var i :| 0 <= i < n && front[i].transactionID == id && DnsIs(metric, env, front[i])
                 && forall j {:trigger front[j]} :: 0 <= j < i ==> front[j].transactionID != id;
        assert s[i] == front[i] && forall j {:trigger s[j]} :: 0 <= j < i ==> s[j] == front[j];
      }
      assert forall i {:trigger s[i]} :: 0 <= i < n ==> front[i] == s[i];
    }
  }

  lemma DnsOneMore(metric: DnsMetric, env: Env, s: seq<Observation>)
    requires s != []
    ensures
      var n := |s| - 1;
      Dns(metric, env, s)
      == Dns(metric, env, s[..n])
         + (if s[n].transactionID !in Ids(s[..n]) && DnsIs(metric, env, s[n]) then {s[n].transactionID} else {})
  {
    hide DnsIs;
  }

  /** Metrics that exclude each other give disjoint sets. */
  lemma {:induction false} DnsDisjoint(m1: DnsMetric, m2: DnsMetric, env: Env, s: seq<Observation>)
    requires forall o :: !(DnsIs(m1, env, o) && DnsIs(m2, env, o))
    ensures Dns(m1, env, s) !! Dns(m2, env, s)
  {
    hide DnsIs;
    if s != [] {
      var n := |s| - 1;
      DnsDisjoint(m1, m2, env, s[..n]);
      DnsAreIds(m1, env, s[..n]);
      DnsAreIds(m2, env, s[..n]);
    }
  }

  lemma {:induction false} DnsAreIds(metric: DnsMetric, env: Env, s: seq<Observation>)
    ensures Dns(metric, env, s) <= Ids(s)
  {
    hide DnsIs;
    if s != [] {
      var n := |s| - 1;
      DnsAreIds(metric, env, s[..n]);
      assert s == s[..n] + [s[n]];
    }
  }

  /** The DNS transactions of endpoints with a successful TLS handshake. */
  ghost function TlsConfirmed(m: map<TransactionID, Observation>): set<TransactionID> {
    set k | k in m && Confirms(m[k]) :: m[k].dnsTransactionID.value
  }

  predicate Confirms(o: Observation) {
    Succeeded(o.tlsHandshakeFailure) && o.dnsTransactionID.Some? && o.dnsTransactionID.value > 0
  }

  /** The failure of the first lookup that counts for the initial request. */
  ghost function ExperimentFailure(env: Env, s: seq<Observation>): Option<string> {
    if s == [] then None
    else
      var n := |s| - 1;
      if ExperimentFailure(env, s[..n]).Some? then ExperimentFailure(env, s[..n])
      else if s[n].transactionID !in Ids(s[..n]) && Relevant(s[n]) && AtStart(s[n]) && Failed(s[n].dnsLookupFailure)
      then s[n].dnsLookupFailure
      else None
  }

  /** Lack of IPv6 looks like an unreachable address. */
  predicate SeemsMisconfiguredIPv6(env: Env, o: Observation) {
    && o.tcpConnectFailure.UnwrapOr("") in {NETWORK_UNREACHABLE, HOST_UNREACHABLE}
    && env.isIPv6(o.ipAddress.UnwrapOr(""))
  }

  datatype Tag = AnyTag | WebFetch | ConnectivityCheck

  predicate Tagged(tag: Tag, o: Observation) {
    match tag
    case AnyTag => true
    case WebFetch => o.tagFetchBody.Some? && o.tagFetchBody.value
    case ConnectivityCheck => o.tagFetchBody.Some? && !o.tagFetchBody.value
  }

  /** The metrics of endpoints. */
  datatype Metric =
    | TcpExpected | TcpUnexpected(tag: Tag) | TcpUnexplained(tag: Tag)
    | TlsExpected | TlsUnexpected(tag: Tag) | TlsUnexplained(tag: Tag)
    | HttpUnexpected | HttpUnexplained

  predicate Is(metric: Metric, env: Env, o: Observation) {
    match metric
    case TcpExpected => Failed(o.tcpConnectFailure) && AtStart(o) && Failed(o.control.tcpConnectFailure)
    case TcpUnexpected(tag) =>
      && Failed(o.tcpConnectFailure) && AtStart(o) && Succeeded(o.control.tcpConnectFailure)
      && !SeemsMisconfiguredIPv6(env, o) && Tagged(tag, o)
    case TcpUnexplained(tag) =>
      Failed(o.tcpConnectFailure) && !AtStart(o) && !SeemsMisconfiguredIPv6(env, o) && Tagged(tag, o)
    case TlsExpected => Failed(o.tlsHandshakeFailure) && AtStart(o) && Failed(o.control.tlsHandshakeFailure)
    case TlsUnexpected(tag) =>
      Failed(o.tlsHandshakeFailure) && AtStart(o) && Succeeded(o.control.tlsHandshakeFailure) && Tagged(tag, o)
    case TlsUnexplained(tag) => Failed(o.tlsHandshakeFailure) && !AtStart(o) && Tagged(tag, o)
    case HttpUnexpected => Failed(o.httpFailure) && Succeeded(o.control.httpFailure)
    case HttpUnexplained => Failed(o.httpFailure) && o.control.httpFailure.None?
  }

  /** The endpoints of a kind; `left` are not looked at yet. */
  function Endpoints(metric: Metric, env: Env, m: map<TransactionID, Observation>, left: set<TransactionID>): set<TransactionID> {
    set k | k in m && k !in left && Is(metric, env, m[k])
  }

  /** Looking at one more endpoint. */
  lemma OneMore(metric: Metric, env: Env, m: map<TransactionID, Observation>, left: set<TransactionID>, k: TransactionID,
                base: set<TransactionID>)
    requires k in m && k in left
    ensures base + Endpoints(metric, env, m, left - {k})
            == base + Endpoints(metric, env, m, left) + (if Is(metric, env, m[k]) then {k} else {})
  {
    hide Is;
  }

  // ----- relations between the sets

  /** The failures of one operation exclude each other: a failure is expected, unexpected, unexplained or
      none of these. */
  lemma FailureSetsAreDisjoint(env: Env, v: View, t1: Tag, t2: Tag)
    ensures Dns(Expected, env, v.failures) !! Dns(Unexpected, env, v.failures) !! Dns(Unexplained, env, v.failures)
    ensures
      var m := v.endpoints;
      && Endpoints(TcpExpected, env, m, {}) !! Endpoints(TcpUnexpected(t1), env, m, {}) !! Endpoints(TcpUnexplained(t2), env, m, {})
      && Endpoints(TlsExpected, env, m, {}) !! Endpoints(TlsUnexpected(t1), env, m, {}) !! Endpoints(TlsUnexplained(t2), env, m, {})
      && Endpoints(HttpUnexpected, env, m, {}) !! Endpoints(HttpUnexplained, env, m, {})
  {
    DnsFailuresAreDisjoint(env, v.failures);
    hide Dns;
  }

  lemma DnsFailuresAreDisjoint(env: Env, s: seq<Observation>)
    ensures Dns(Expected, env, s) !! Dns(Unexpected, env, s) !! Dns(Unexplained, env, s)
  {
    DnsDisjoint(Expected, Unexpected, env, s);
    DnsDisjoint(Expected, Unexplained, env, s);
    DnsDisjoint(Unexpected, Unexplained, env, s);
  }

  /** The same metric for another tag. */
  function WithTag(metric: Metric, tag: Tag): Metric {
    match metric
    case TcpUnexpected(_) => TcpUnexpected(tag)
    case TcpUnexplained(_) => TcpUnexplained(tag)
    case TlsUnexpected(_) => TlsUnexpected(tag)
    case TlsUnexplained(_) => TlsUnexplained(tag)
    case _ => metric
  }

  predicate HasTag(metric: Metric) {
    metric.TcpUnexpected? || metric.TcpUnexplained? || metric.TlsUnexpected? || metric.TlsUnexplained?
  }

  /** Failures during a web fetch and during a connectivity check are disjoint parts of all failures, and
      make up all failures exactly when each of them has a tag. */
  lemma TagsSplitFailures(metric: Metric, env: Env, m: map<TransactionID, Observation>)
    requires HasTag(metric)
    ensures
      var all := Endpoints(WithTag(metric, AnyTag), env, m, {});
      var fetch := Endpoints(WithTag(metric, WebFetch), env, m, {});
      var check := Endpoints(WithTag(metric, ConnectivityCheck), env, m, {});
      && fetch !! check && fetch <= all && check <= all
      && (fetch + check == all <==> forall id :: id in all ==> m[id].tagFetchBody.Some?)
  {
    hide SeemsMisconfiguredIPv6;
  }

  // ----- the final response

  predicate IsFinal(o: Observation) {
    o.httpResponse.isFinal.Some? && o.httpResponse.isFinal.value
  }

  datatype FinalResponse = FinalResponse(
    successTLSWithoutControl: Option<TransactionID>,
    successTLSWithControl: Option<TransactionID>,
    successTCPWithoutControl: Option<TransactionID>,
    successTCPWithControl: Option<TransactionID>,
    bodyProportionFactor: Option<real>,
    statusCodeMatch: Option<bool>,
    uncommonHeadersIntersection: Option<set<string>>,
    titleDifferentLongWords: Option<set<string>>)

  const NO_FINAL_RESPONSE := FinalResponse(None, None, None, None, None, None, None, None)

  /** The assertion about a final response with control: its TLS handshake, if any, succeeded. */
  predicate AssertionHolds(o: Observation) {
    o.control.httpFailure.Some? ==> o.tlsHandshakeFailure.None? || o.tlsHandshakeFailure.value == ""
  }

  /** What a final response is recorded as, from nothing recorded before. */
  function Recorded(env: Env, o: Observation): FinalResponse {
    var id := o.endpointTransactionID;
    if o.control.httpFailure.None? then
      if Succeeded(o.tlsHandshakeFailure) then NO_FINAL_RESPONSE.(successTLSWithoutControl := id)
      else NO_FINAL_RESPONSE.(successTCPWithoutControl := id)
    else
      FinalResponse(None, if o.tlsHandshakeFailure.Some? then id else None,
                    None, if o.tlsHandshakeFailure.None? then id else None,
                    BodyProportion(env, o), StatusMatch(env, o), HeadersIntersection(env, o), TitleWords(env, o))
  }

  function BodyProportion(env: Env, o: Observation): Option<real> {
    var measurement, control := o.httpResponse.bodyLength.UnwrapOr(0), o.control.httpBodyLength.UnwrapOr(0);
    if measurement > 0 && !o.httpResponse.bodyIsTruncated.UnwrapOr(true) && control > 0
    then Some(env.proportion(measurement, control)) else None
  }

  function StatusMatch(env: Env, o: Observation): Option<bool> {
    var measurement, control := o.httpResponse.statusCode.UnwrapOr(0), o.control.httpStatusCode.UnwrapOr(0);
    if measurement > 0 && control > 0 then env.statusCodeMatch(measurement, control) else None
  }

  function HeadersIntersection(env: Env, o: Observation): Option<set<string>> {
    if o.control.httpStatusCode.UnwrapOr(0) > 0
    then Some(env.commonHeaders(o.httpResponse.headersKeys.UnwrapOr({}), o.control.httpHeadersKeys.UnwrapOr({}))) else None
  }

  function TitleWords(env: Env, o: Observation): Option<set<string>> {
    if o.control.httpStatusCode.UnwrapOr(0) > 0
    then Some(env.differentWords(o.httpResponse.title.UnwrapOr(""), o.control.httpTitle.UnwrapOr(""))) else None
  }

  /** No final response that has a control is on an endpoint whose TLS handshake failed. */
  predicate NeverPanics(m: map<TransactionID, Observation>) {
    forall k {:trigger m[k]} :: k in m && IsFinal(m[k]) && m[k].control.httpFailure.Some? ==> !Failed(m[k].tlsHandshakeFailure)
  }

  /** The first final response that an iteration order meets. */
  function FirstFinal(m: map<TransactionID, Observation>, order: seq<TransactionID>): (r: Option<TransactionID>)
    requires forall i :: 0 <= i < |order| ==> order[i] in m
    ensures r.Some? ==> r.value in m && IsFinal(m[r.value])
  {
    if order == [] then None
    else if IsFinal(m[order[0]]) then Some(order[0])
    else FirstFinal(m, order[1..])
  }

  lemma {:induction false} FirstFinalAt(m: map<TransactionID, Observation>, order: seq<TransactionID>, i: nat)
    requires forall i :: 0 <= i < |order| ==> order[i] in m
    requires i <= |order| && forall j :: 0 <= j < i ==> !IsFinal(m[order[j]])
    requires i < |order| ==> IsFinal(m[order[i]])
    ensures FirstFinal(m, order) == if i < |order| then Some(order[i]) else None
  {
    hide IsFinal;
    if i > 0 {
      FirstFinalAt(m, order[1..], i - 1);
    }
  }

  /** What the analysis comes to: it meets no final response, records the first one, or panics at it. */
  datatype FinalOutcome = NothingFinal | RecordedFinal(response: FinalResponse) | Panic

  ghost function Outcome(env: Env, m: map<TransactionID, Observation>, order: seq<TransactionID>): FinalOutcome
    requires Linear.IterationOrder(m, order)
  {
    match FirstFinal(m, order)
    case None => NothingFinal
    case Some(k) => if AssertionHolds(m[k]) then RecordedFinal(Recorded(env, m[k])) else Panic
  }

  lemma {:induction false} ListOf(keys: set<TransactionID>) returns (order: seq<TransactionID>)
    ensures forall k :: k in order <==> k in keys
    ensures forall i :: 0 <= i < |order| ==> order[i] in keys
    ensures forall i, j :: 0 <= i < j < |order| ==> order[i] != order[j]
    decreases |keys|
  {
    if keys == {} {
      order := [];
    } else {
      var last :| last in keys;
      var front := ListOf(keys - {last});
      order := front + [last];
    }
  }

  /** An order that begins with some keys can be completed. */
  lemma Completed(m: map<TransactionID, Observation>, front: seq<TransactionID>) returns (order: seq<TransactionID>)
    requires forall i :: 0 <= i < |front| ==> front[i] in m
    requires forall i, j :: 0 <= i < j < |front| ==> front[i] != front[j]
    ensures Linear.IterationOrder(m, order) && front <= order
  {
    var rest := ListOf(m.Keys - (set k | k in front));
    order := front + rest;
    forall i | 0 <= i < |order|
      ensures order[i] in m
    {
      assert i >= |front| ==> order[i] == rest[i - |front|];
    }
    forall i, j | 0 <= i < j < |order|
      ensures order[i] != order[j]
    {
      if i < |front| <= j {
        assert order[j] == rest[j - |front|] && order[i] == front[i] && front[i] in front;
      }
    }
  }

  /** Any final response may be the first one. */
  lemma MayBeFirst(env: Env, m: map<TransactionID, Observation>, k: TransactionID) returns (order: seq<TransactionID>)
    requires k in m && IsFinal(m[k])
    ensures Linear.IterationOrder(m, order) && FirstFinal(m, order) == Some(k)
    ensures Outcome(env, m, order) == if AssertionHolds(m[k]) then RecordedFinal(Recorded(env, m[k])) else Panic
  {
    hide AssertionHolds, Recorded, IsFinal;
    order := Completed(m, [k]);
    assert order[0] == k;
    FirstFinalAt(m, order, 0);
  }

  /** Some iteration order panics exactly when that condition fails. */
  lemma PanicsExactly(env: Env, m: map<TransactionID, Observation>)
    ensures NeverPanics(m) <==>
              forall order {:trigger Linear.IterationOrder(m, order)} ::
                Linear.IterationOrder(m, order) ==> Outcome(env, m, order) != Panic
  {
    hide IsFinal, Recorded;
    if !NeverPanics(m) {
      var k {:trigger m[k]} :| k in m && IsFinal(m[k]) && m[k].control.httpFailure.Some? && Failed(m[k].tlsHandshakeFailure);
      var order := MayBeFirst(env, m, k);
      assert Linear.IterationOrder(m, order) && Outcome(env, m, order) == Panic;
    }
  }

  predicate AtMostOneFinal(m: map<TransactionID, Observation>) {
    forall j, k {:trigger m[j], m[k]} :: j in m && k in m && IsFinal(m[j]) && IsFinal(m[k]) ==> j == k
  }

  predicate EachFinalPanics(m: map<TransactionID, Observation>) {
    forall k {:trigger m[k]} :: k in m && IsFinal(m[k]) ==> !AssertionHolds(m[k])
  }

  ghost predicate SameOutcome(env: Env, m: map<TransactionID, Observation>) {
    forall o1, o2 {:trigger Outcome(env, m, o1), Outcome(env, m, o2)} ::
      Linear.IterationOrder(m, o1) && Linear.IterationOrder(m, o2) ==> Outcome(env, m, o1) == Outcome(env, m, o2)
  }

  /** The first final response of two orders, when there is at most one. */
  lemma SameFirstFinal(m: map<TransactionID, Observation>, o1: seq<TransactionID>, o2: seq<TransactionID>)
    requires Linear.IterationOrder(m, o1) && Linear.IterationOrder(m, o2)
    ensures FirstFinal(m, o1).Some? <==> FirstFinal(m, o2).Some?
    ensures AtMostOneFinal(m) ==> FirstFinal(m, o1) == FirstFinal(m, o2)
  {
    hide IsFinal;
    FoundIfThere(m, o1);
    FoundIfThere(m, o2);
  }

  lemma {:induction false} FoundIfThere(m: map<TransactionID, Observation>, order: seq<TransactionID>)
    requires forall i :: 0 <= i < |order| ==> order[i] in m
    ensures FirstFinal(m, order).None? ==> forall k {:trigger m[k]} :: k in order ==> !IsFinal(m[k])
  {
    hide IsFinal;
    if order != [] && !IsFinal(m[order[0]]) {
      FoundIfThere(m, order[1..]);
      assert order == [order[0]] + order[1..];
    }
  }

  /** What the analysis comes to is the same in every iteration order exactly when there is at most one final
      response, or it panics at each of them. */
  lemma FinalOutcomeIsDeterministic(env: Env, m: map<TransactionID, Observation>)
    requires forall k {:trigger m[k]} :: k in m ==> ValidEndpoint(k, m[k])
    ensures SameOutcome(env, m) <==> AtMostOneFinal(m) || EachFinalPanics(m)
  {
    hide IsFinal, AssertionHolds, Recorded, Outcome, FirstFinal, Linear.IterationOrder;
    if AtMostOneFinal(m) || EachFinalPanics(m) {
      forall o1, o2 | Linear.IterationOrder(m, o1) && Linear.IterationOrder(m, o2)
        ensures Outcome(env, m, o1) == Outcome(env, m, o2)
      {
        SameOutcomeIf(env, m, o1, o2);
      }
    } else {
      var k {:trigger m[k]} :| k in m && IsFinal(m[k]) && AssertionHolds(m[k]);
      var j :| j in m && IsFinal(m[j]) && j != k;
      var o1 := MayBeFirst(env, m, j);
      var o2 := MayBeFirst(env, m, k);
      DifferentEndpoints(env, m, j, k);
      assert Outcome(env, m, o1) != Outcome(env, m, o2);
    }
  }

  lemma SameOutcomeIf(env: Env, m: map<TransactionID, Observation>, o1: seq<TransactionID>, o2: seq<TransactionID>)
    requires Linear.IterationOrder(m, o1) && Linear.IterationOrder(m, o2)
    requires AtMostOneFinal(m) || EachFinalPanics(m)
    ensures Outcome(env, m, o1) == Outcome(env, m, o2)
  {
    hide IsFinal, AssertionHolds, Recorded, FirstFinal;
    SameFirstFinal(m, o1, o2);
  }

  lemma DifferentEndpoints(env: Env, m: map<TransactionID, Observation>, j: TransactionID, k: TransactionID)
    requires j in m && k in m && j != k && ValidEndpoint(j, m[j]) && ValidEndpoint(k, m[k])
    ensures Recorded(env, m[j]) != Recorded(env, m[k])
  {
    hide Recorded;
    RecordedTellsTransaction(env, m[j], m[k]);
  }

  lemma RecordedTellsTransaction(env: Env, a: Observation, b: Observation)
    requires a.endpointTransactionID.Some? && b.endpointTransactionID.Some?
    requires a.endpointTransactionID != b.endpointTransactionID
    ensures Recorded(env, a) != Recorded(env, b)
  {
    hide BodyProportion, StatusMatch, HeadersIntersection, TitleWords;
  }

  // ----- the code

  method HaveCommonAddressOrASN(env: Env, measurement: set<string>, control: set<string>) returns (r: bool)
    ensures r <==> Consistent(env, measurement, control)
  {
    hide DnsDiff.ASNs;
    var common := DnsDiff.FindCommonIPAddressIntersection(measurement, control);
    if |common| > 0 {
      return true;
    }
    var asns := DnsDiff.FindCommonASNsIntersection(env.lookup, measurement, control);
    r := |asns| > 0;
  }

  lemma IdsOneMore(s: seq<Observation>, i: nat)
    requires i < |s|
    ensures Ids(s[..i + 1]) == Ids(s[..i]) + {s[i].transactionID}
  {
    assert s[..i + 1] == s[..i] + [s[i]];
  }

  lemma DnsUpTo(metric: DnsMetric, env: Env, s: seq<Observation>, i: nat)
    requires i < |s|
    ensures Dns(metric, env, s[..i + 1])
            == Dns(metric, env, s[..i])
               + (if s[i].transactionID !in Ids(s[..i]) && DnsIs(metric, env, s[i]) then {s[i].transactionID} else {})
  {
    hide DnsIs;
    assert s[..i + 1][..i] == s[..i];
  }

  /** Whether the transaction was met before; from now on it was. */
  method Met(already: Sets.Set<TransactionID>, id: TransactionID) returns (met: bool)
    modifies already
    ensures met <==> id in old(already.Elements())
    ensures already.Elements() == old(already.Elements()) + {id}
  {
    met := already.Contains(id);
    if !met {
      already.Add([id]);
    }
  }

  class WebAnalysis {
    var controlExpectations: Option<ControlExpectations>
    var dnsLookupSuccess: set<TransactionID>
    var dnsLookupSuccessWithInvalidAddresses: set<TransactionID>
    var dnsLookupSuccessWithValidAddress: set<TransactionID>
    var dnsLookupSuccessWithBogonAddresses: set<TransactionID>
    var dnsLookupSuccessWithInvalidAddressesClassic: set<TransactionID>
    var dnsLookupSuccessWithValidAddressClassic: set<TransactionID>
    var dnsLookupUnexpectedFailure: set<TransactionID>
    var dnsLookupUnexplainedFailure: set<TransactionID>
    var dnsLookupExpectedFailure: set<TransactionID>
    var dnsLookupExpectedSuccess: set<TransactionID>
    var tcpConnectExpectedFailure: set<TransactionID>
    var tcpConnectUnexpectedFailure: set<TransactionID>
    var tcpConnectUnexpectedFailureDuringWebFetch: set<TransactionID>
    var tcpConnectUnexpectedFailureDuringConnectivityCheck: set<TransactionID>
    var tcpConnectUnexplainedFailure: set<TransactionID>
    var tcpConnectUnexplainedFailureDuringWebFetch: set<TransactionID>
    var tcpConnectUnexplainedFailureDuringConnectivityCheck: set<TransactionID>
    var tlsHandshakeExpectedFailure: set<TransactionID>
    var tlsHandshakeUnexpectedFailure: set<TransactionID>
    var tlsHandshakeUnexpectedFailureDuringWebFetch: set<TransactionID>
    var tlsHandshakeUnexpectedFailureDuringConnectivityCheck: set<TransactionID>
    var tlsHandshakeUnexplainedFailure: set<TransactionID>
    var tlsHandshakeUnexplainedFailureDuringWebFetch: set<TransactionID>
    var tlsHandshakeUnexplainedFailureDuringConnectivityCheck: set<TransactionID>
    var httpRoundTripUnexpectedFailure: set<TransactionID>
    var httpRoundTripUnexplainedFailure: set<TransactionID>
    var dnsExperimentFailure: Option<string>
    var finalResponse: FinalResponse
    var linear: seq<Observation>

    /** The zero value. */
    constructor (expectations: Option<ControlExpectations>)
      ensures controlExpectations == expectations && dnsExperimentFailure == None && finalResponse == NO_FINAL_RESPONSE
      ensures linear == [] && IsZero()
    {
      controlExpectations := expectations;
      dnsLookupSuccess := {};
      dnsLookupSuccessWithInvalidAddresses := {};
      dnsLookupSuccessWithValidAddress := {};
      dnsLookupSuccessWithBogonAddresses := {};
      dnsLookupSuccessWithInvalidAddressesClassic := {};
      dnsLookupSuccessWithValidAddressClassic := {};
      dnsLookupUnexpectedFailure := {};
      dnsLookupUnexplainedFailure := {};
      dnsLookupExpectedFailure := {};
      dnsLookupExpectedSuccess := {};
      tcpConnectExpectedFailure := {};
      tcpConnectUnexpectedFailure := {};
      tcpConnectUnexpectedFailureDuringWebFetch := {};
      tcpConnectUnexpectedFailureDuringConnectivityCheck := {};
      tcpConnectUnexplainedFailure := {};
      tcpConnectUnexplainedFailureDuringWebFetch := {};
      tcpConnectUnexplainedFailureDuringConnectivityCheck := {};
      tlsHandshakeExpectedFailure := {};
      tlsHandshakeUnexpectedFailure := {};
      tlsHandshakeUnexpectedFailureDuringWebFetch := {};
      tlsHandshakeUnexpectedFailureDuringConnectivityCheck := {};
      tlsHandshakeUnexplainedFailure := {};
      tlsHandshakeUnexplainedFailureDuringWebFetch := {};
      tlsHandshakeUnexplainedFailureDuringConnectivityCheck := {};
      httpRoundTripUnexpectedFailure := {};
      httpRoundTripUnexplainedFailure := {};
      dnsExperimentFailure, finalResponse, linear := None, NO_FINAL_RESPONSE, [];
    }

    /** Successful TLS handshakes turn invalid addresses into valid ones. */
    method DnsComputeSuccessMetrics(env: Env, v: View)
      requires ValidView(v)
      modifies this`dnsLookupSuccess, this`dnsLookupSuccessWithBogonAddresses,
               this`dnsLookupSuccessWithValidAddress, this`dnsLookupSuccessWithInvalidAddresses
      ensures dnsLookupSuccess == old(dnsLookupSuccess) + Dns(Success, env, v.successes)
      ensures dnsLookupSuccessWithBogonAddresses ==
        old(dnsLookupSuccessWithBogonAddresses) + Dns(Bogon, env, v.successes)
      ensures dnsLookupSuccessWithValidAddress
              == old(dnsLookupSuccessWithValidAddress) + Dns(Valid, env, v.successes) + TlsConfirmed(v.endpoints)
      ensures dnsLookupSuccessWithInvalidAddresses
              == old(dnsLookupSuccessWithInvalidAddresses) + Dns(Invalid, env, v.successes) - TlsConfirmed(v.endpoints)
    {
      DnsFillSuccessMetrics(env, v);
      DnsUndoUsingTls(v);
    }

    method DnsFillSuccessMetrics(env: Env, v: View)
      requires ValidView(v)
      modifies this`dnsLookupSuccess, this`dnsLookupSuccessWithBogonAddresses,
               this`dnsLookupSuccessWithValidAddress, this`dnsLookupSuccessWithInvalidAddresses
      ensures dnsLookupSuccess == old(dnsLookupSuccess) + Dns(Success, env, v.successes)
      ensures dnsLookupSuccessWithBogonAddresses ==
        old(dnsLookupSuccessWithBogonAddresses) + Dns(Bogon, env, v.successes)
      ensures dnsLookupSuccessWithValidAddress == old(dnsLookupSuccessWithValidAddress) + Dns(Valid, env, v.successes)
      ensures dnsLookupSuccessWithInvalidAddresses ==
        old(dnsLookupSuccessWithInvalidAddresses) + Dns(Invalid, env, v.successes)
    {
      hide Ids, Dns, DnsIs, ValidView;
      var s := v.successes;
      var already := new Sets.Set<TransactionID>(Before, []);
      var i := 0;
      NothingYet(env);
      while i < |s|
        invariant 0 <= i <= |s|
        invariant fresh(already) && already.Elements() == Ids(s[..i])
        invariant dnsLookupSuccess == old(dnsLookupSuccess) + Dns(Success, env, s[..i])
        invariant dnsLookupSuccessWithBogonAddresses ==
          old(dnsLookupSuccessWithBogonAddresses) + Dns(Bogon, env, s[..i])
        invariant dnsLookupSuccessWithValidAddress == old(dnsLookupSuccessWithValidAddress) + Dns(Valid, env, s[..i])
        invariant dnsLookupSuccessWithInvalidAddresses ==
          old(dnsLookupSuccessWithInvalidAddresses) + Dns(Invalid, env, s[..i])
      {
        var obs := s[i];
        SuccessHasItsFields(v, i);
        IdsOneMore(s, i);
        DnsUpTo(Success, env, s, i);
        DnsUpTo(Bogon, env, s, i);
        DnsUpTo(Valid, env, s, i);
        DnsUpTo(Invalid, env, s, i);
        i := i + 1;
        var id := obs.dnsTransactionID.value;
        var met := Met(already, id);
        if met {
          continue;
        }
        DnsClassifySuccess(env, obs);
      }
      assert s[..i] == s;
    }

    /** The loop body for a lookup that counts. */
    method DnsClassifySuccess(env: Env, obs: Observation)
      requires obs.dnsTransactionID.Some? && obs.dnsResolvedAddrs.Some?
      modifies this`dnsLookupSuccess, this`dnsLookupSuccessWithBogonAddresses,
               this`dnsLookupSuccessWithValidAddress, this`dnsLookupSuccessWithInvalidAddresses
      ensures dnsLookupSuccess == old(dnsLookupSuccess) + (if DnsIs(Success, env, obs) then {obs.dnsTransactionID.value} else {})
      ensures dnsLookupSuccessWithBogonAddresses
              == old(dnsLookupSuccessWithBogonAddresses) + (if DnsIs(Bogon, env, obs) then {obs.dnsTransactionID.value} else {})
      ensures dnsLookupSuccessWithValidAddress
              == old(dnsLookupSuccessWithValidAddress) + (if DnsIs(Valid, env, obs) then {obs.dnsTransactionID.value} else {})
      ensures dnsLookupSuccessWithInvalidAddresses
              == old(dnsLookupSuccessWithInvalidAddresses) + (if DnsIs(Invalid, env, obs) then {obs.dnsTransactionID.value} else {})
    {
      hide Consistent;
      var id := obs.dnsTransactionID.value;
      if obs.tagDepth.None? || obs.tagDepth.value != 0 {
        return;
      }
      dnsLookupSuccess := dnsLookupSuccess + {id};
      if obs.ipAddressBogon.Some? && obs.ipAddressBogon.value {
        dnsLookupSuccessWithBogonAddresses := dnsLookupSuccessWithBogonAddresses + {id};
      }
      if obs.control.dnsResolvedAddrs.None? {
        return;
      }
      var good := HaveCommonAddressOrASN(env, obs.dnsResolvedAddrs.value, obs.control.dnsResolvedAddrs.value);
      if good {
        dnsLookupSuccessWithValidAddress := dnsLookupSuccessWithValidAddress + {id};
      } else {
        dnsLookupSuccessWithInvalidAddresses := dnsLookupSuccessWithInvalidAddresses + {id};
      }
    }

    method DnsUndoUsingTls(v: View)
      modifies this`dnsLookupSuccessWithValidAddress, this`dnsLookupSuccessWithInvalidAddresses
      ensures dnsLookupSuccessWithValidAddress == old(dnsLookupSuccessWithValidAddress) + TlsConfirmed(v.endpoints)
      ensures dnsLookupSuccessWithInvalidAddresses == old(dnsLookupSuccessWithInvalidAddresses) - TlsConfirmed(v.endpoints)
    {
      var m := v.endpoints;
      var left := m.Keys;
      ghost var confirmed: set<TransactionID> := {};
      while left != {}
        invariant left <= m.Keys
        invariant forall id :: id in confirmed <==>
          exists k {:trigger m[k]} :: k in m && k !in left && Confirms(m[k]) && m[k].dnsTransactionID.value == id
        invariant dnsLookupSuccessWithValidAddress == old(dnsLookupSuccessWithValidAddress) + confirmed
        invariant dnsLookupSuccessWithInvalidAddresses == old(dnsLookupSuccessWithInvalidAddresses) - confirmed
        decreases left
      {
        var k :| k in left;
        left := left - {k};
        var obs := m[k];
        if obs.tlsHandshakeFailure.None? || obs.tlsHandshakeFailure.value != "" {
          continue;
        }
        var txid := obs.dnsTransactionID.UnwrapOr(0);
        if txid <= 0 {
          continue;
        }
        dnsLookupSuccessWithInvalidAddresses := dnsLookupSuccessWithInvalidAddresses - {txid};
        dnsLookupSuccessWithValidAddress := dnsLookupSuccessWithValidAddress + {txid};
        confirmed := confirmed + {txid};
      }
      assert confirmed == TlsConfirmed(m);
    }

    method DnsComputeFailureMetrics(env: Env, v: View)
      requires ValidView(v)
      modifies this`dnsLookupUnexplainedFailure, this`dnsLookupExpectedFailure, this`dnsLookupUnexpectedFailure,
               this`dnsLookupExpectedSuccess, this`dnsExperimentFailure
      ensures dnsLookupUnexplainedFailure == old(dnsLookupUnexplainedFailure) + Dns(Unexplained, env, v.failures)
      ensures dnsLookupExpectedFailure == old(dnsLookupExpectedFailure) + Dns(Expected, env, v.failures)
      ensures dnsLookupUnexpectedFailure == old(dnsLookupUnexpectedFailure) + Dns(Unexpected, env, v.failures)
      ensures dnsLookupExpectedSuccess == old(dnsLookupExpectedSuccess) + Dns(ExpectedSuccess, env, v.failures)
      ensures dnsExperimentFailure
              == if old(dnsExperimentFailure).Some? then old(dnsExperimentFailure) else ExperimentFailure(env, v.failures)
    {
      hide Ids, Dns, DnsIs, ExperimentFailure, ValidView;
      var s := v.failures;
      var already := new Sets.Set<TransactionID>(Before, []);
      var i := 0;
      NothingYet(env);
      while i < |s|
        invariant 0 <= i <= |s|
        invariant fresh(already) && already.Elements() == Ids(s[..i])
        invariant dnsLookupUnexplainedFailure == old(dnsLookupUnexplainedFailure) + Dns(Unexplained, env, s[..i])
        invariant dnsLookupExpectedFailure == old(dnsLookupExpectedFailure) + Dns(Expected, env, s[..i])
        invariant dnsLookupUnexpectedFailure == old(dnsLookupUnexpectedFailure) + Dns(Unexpected, env, s[..i])
        invariant dnsLookupExpectedSuccess == old(dnsLookupExpectedSuccess) + Dns(ExpectedSuccess, env, s[..i])
        invariant dnsExperimentFailure
                  == if old(dnsExperimentFailure).Some? then old(dnsExperimentFailure) else ExperimentFailure(env, s[..i])
      {
        var obs := s[i];
        LookupHasItsFields(v, i);
        IdsOneMore(s, i);
        DnsUpTo(Unexplained, env, s, i);
        DnsUpTo(Expected, env, s, i);
        DnsUpTo(Unexpected, env, s, i);
        DnsUpTo(ExpectedSuccess, env, s, i);
        ExperimentFailureUpTo(env, s, i);
        i := i + 1;
        var id := obs.dnsTransactionID.value;
        var met := Met(already, id);
        if met {
          continue;
        }
        DnsClassifyFailure(env, obs);
      }
      assert s[..i] == s;
    }

    /** The loop body for a lookup that counts. */
    method DnsClassifyFailure(env: Env, obs: Observation)
      requires obs.dnsTransactionID.Some? && obs.dnsLookupFailure.Some?
      modifies this`dnsLookupUnexplainedFailure, this`dnsLookupExpectedFailure, this`dnsLookupUnexpectedFailure,
               this`dnsLookupExpectedSuccess, this`dnsExperimentFailure
      ensures dnsLookupUnexplainedFailure
              == old(dnsLookupUnexplainedFailure) + (if DnsIs(Unexplained, env, obs) then {obs.dnsTransactionID.value} else {})
      ensures dnsLookupExpectedFailure
              == old(dnsLookupExpectedFailure) + (if DnsIs(Expected, env, obs) then {obs.dnsTransactionID.value} else {})
      ensures dnsLookupUnexpectedFailure
              == old(dnsLookupUnexpectedFailure) + (if DnsIs(Unexpected, env, obs) then {obs.dnsTransactionID.value} else {})
      ensures dnsLookupExpectedSuccess
              == old(dnsLookupExpectedSuccess) + (if DnsIs(ExpectedSuccess, env, obs) then {obs.dnsTransactionID.value} else {})
      ensures dnsExperimentFailure
              == if old(dnsExperimentFailure).None? && Relevant(obs) && AtStart(obs) && Failed(obs.dnsLookupFailure)
                 then obs.dnsLookupFailure else old(dnsExperimentFailure)
    {
      var id := obs.dnsTransactionID.value;
      if obs.dnsEngine.UnwrapOr("") == "doh" {
        return;
      }
      if obs.dnsQueryType.UnwrapOr("") == "AAAA" && obs.dnsLookupFailure.UnwrapOr("") == NO_ANSWER {
        return;
      }
      if obs.tagDepth.None? || obs.tagDepth.value != 0 {
        if obs.dnsLookupFailure.value != "" {
          dnsLookupUnexplainedFailure := dnsLookupUnexplainedFailure + {id};
        }
        return;
      }
      if obs.dnsLookupFailure.value != "" && dnsExperimentFailure.None? {
        dnsExperimentFailure := obs.dnsLookupFailure;
      }
      if obs.control.dnsLookupFailure.None? {
        return;
      }
      if obs.dnsLookupFailure.value != "" && obs.control.dnsLookupFailure.value != "" {
        dnsLookupExpectedFailure := dnsLookupExpectedFailure + {id};
        return;
      }
      if obs.control.dnsLookupFailure.value != "" {
        return;
      }
      var failure := obs.dnsLookupFailure.value;
      if failure != "" {
        if failure == NO_ANSWER {
          if obs.control.dnsResolvedAddrs.Some? && |obs.control.dnsResolvedAddrs.value| <= 0 {
            dnsLookupExpectedFailure := dnsLookupExpectedFailure + {id};
            return;
          }
        }
        dnsLookupUnexpectedFailure := dnsLookupUnexpectedFailure + {id};
        return;
      }
      dnsLookupExpectedSuccess := dnsLookupExpectedSuccess + {id};
    }

    method DnsComputeSuccessMetricsClassic(env: Env, v: View)
      requires ValidView(v)
      modifies this`dnsLookupSuccessWithValidAddressClassic, this`dnsLookupSuccessWithInvalidAddressesClassic
      ensures dnsLookupSuccessWithValidAddressClassic
              == old(dnsLookupSuccessWithValidAddressClassic) + Dns(Valid, env, v.successes)
      ensures dnsLookupSuccessWithInvalidAddressesClassic
              == old(dnsLookupSuccessWithInvalidAddressesClassic) + Dns(Invalid, env, v.successes)
    {
      hide Consistent, Ids, Dns, ValidView;
      var s := v.successes;
      var already := new Sets.Set<TransactionID>(Before, []);
      var i := 0;
      NothingYet(env);
      while i < |s|
        invariant 0 <= i <= |s|
        invariant fresh(already) && already.Elements() == Ids(s[..i])
        invariant dnsLookupSuccessWithValidAddressClassic
                  == old(dnsLookupSuccessWithValidAddressClassic) + Dns(Valid, env, s[..i])
        invariant dnsLookupSuccessWithInvalidAddressesClassic
                  == old(dnsLookupSuccessWithInvalidAddressesClassic) + Dns(Invalid, env, s[..i])
      {
        var obs := s[i];
        SuccessHasItsFields(v, i);
        IdsOneMore(s, i);
        DnsUpTo(Valid, env, s, i);
        DnsUpTo(Invalid, env, s, i);
        i := i + 1;
        var id := obs.dnsTransactionID.value;
        var met := Met(already, id);
        if met {
          continue;
        }
        if obs.tagDepth.None? || obs.tagDepth.value != 0 {
          continue;
        }
        if obs.control.dnsResolvedAddrs.None? {
          continue;
        }
        var good := HaveCommonAddressOrASN(env, obs.dnsResolvedAddrs.value, obs.control.dnsResolvedAddrs.value);
        if good {
          dnsLookupSuccessWithValidAddressClassic := dnsLookupSuccessWithValidAddressClassic + {id};
        } else {
          dnsLookupSuccessWithInvalidAddressesClassic := dnsLookupSuccessWithInvalidAddressesClassic + {id};
        }
      }
      assert s[..i] == s;
    }

    /** The loop body for one endpoint. */
    method TcpComputeOne(env: Env, obs: Observation)
      requires obs.endpointTransactionID.Some?
      modifies this`tcpConnectExpectedFailure,
               this`tcpConnectUnexpectedFailure,
               this`tcpConnectUnexpectedFailureDuringWebFetch,
               this`tcpConnectUnexpectedFailureDuringConnectivityCheck,
               this`tcpConnectUnexplainedFailure,
               this`tcpConnectUnexplainedFailureDuringWebFetch,
               this`tcpConnectUnexplainedFailureDuringConnectivityCheck
      ensures tcpConnectExpectedFailure ==
        old(tcpConnectExpectedFailure) + (if Is(TcpExpected, env, obs) then {obs.endpointTransactionID.value} else {})
      ensures tcpConnectUnexpectedFailure ==
        old(tcpConnectUnexpectedFailure) +
        (if Is(TcpUnexpected(AnyTag), env, obs) then {obs.endpointTransactionID.value} else {})
      ensures tcpConnectUnexpectedFailureDuringWebFetch ==
        old(tcpConnectUnexpectedFailureDuringWebFetch) +
        (if Is(TcpUnexpected(WebFetch), env, obs) then {obs.endpointTransactionID.value} else {})
      ensures tcpConnectUnexpectedFailureDuringConnectivityCheck ==
        old(tcpConnectUnexpectedFailureDuringConnectivityCheck) +
        (if Is(TcpUnexpected(ConnectivityCheck), env, obs) then {obs.endpointTransactionID.value} else {})
      ensures tcpConnectUnexplainedFailure ==
        old(tcpConnectUnexplainedFailure) +
        (if Is(TcpUnexplained(AnyTag), env, obs) then {obs.endpointTransactionID.value} else {})
      ensures tcpConnectUnexplainedFailureDuringWebFetch ==
        old(tcpConnectUnexplainedFailureDuringWebFetch) +
        (if Is(TcpUnexplained(WebFetch), env, obs) then {obs.endpointTransactionID.value} else {})
      ensures tcpConnectUnexplainedFailureDuringConnectivityCheck ==
        old(tcpConnectUnexplainedFailureDuringConnectivityCheck) +
        (if Is(TcpUnexplained(ConnectivityCheck), env, obs) then {obs.endpointTransactionID.value} else {})
    {
      hide SeemsMisconfiguredIPv6;
      var id := obs.endpointTransactionID.value;
      if obs.tcpConnectFailure.None? {
        return;
      }
      if obs.tagDepth.None? || obs.tagDepth.value != 0 {
        if SeemsMisconfiguredIPv6(env, obs) {
          return;
        }
        if obs.tcpConnectFailure.value != "" {
          if obs.tagFetchBody.Some? && obs.tagFetchBody.value {
            tcpConnectUnexplainedFailureDuringWebFetch := tcpConnectUnexplainedFailureDuringWebFetch + {id};
          } else if obs.tagFetchBody.Some? {
            tcpConnectUnexplainedFailureDuringConnectivityCheck :=
              tcpConnectUnexplainedFailureDuringConnectivityCheck + {id};
          }
          tcpConnectUnexplainedFailure := tcpConnectUnexplainedFailure + {id};
        }
        return;
      }
      if obs.control.tcpConnectFailure.None? {
        return;
      }
      if obs.tcpConnectFailure.value != "" && obs.control.tcpConnectFailure.value != "" {
        tcpConnectExpectedFailure := tcpConnectExpectedFailure + {id};
        return;
      }
      if obs.control.tcpConnectFailure.value != "" {
        return;
      }
      if obs.tcpConnectFailure.value != "" {
        if SeemsMisconfiguredIPv6(env, obs) {
          return;
        }
        if obs.tagFetchBody.Some? && obs.tagFetchBody.value {
          tcpConnectUnexpectedFailureDuringWebFetch := tcpConnectUnexpectedFailureDuringWebFetch + {id};
        } else if obs.tagFetchBody.Some? {
          tcpConnectUnexpectedFailureDuringConnectivityCheck :=
            tcpConnectUnexpectedFailureDuringConnectivityCheck + {id};
        }
        tcpConnectUnexpectedFailure := tcpConnectUnexpectedFailure + {id};
      }
    }

    /** In whatever order the map is iterated. */
    method TcpComputeMetrics(env: Env, v: View)
      requires ValidView(v)
      modifies this`tcpConnectExpectedFailure,
               this`tcpConnectUnexpectedFailure,
               this`tcpConnectUnexpectedFailureDuringWebFetch,
               this`tcpConnectUnexpectedFailureDuringConnectivityCheck,
               this`tcpConnectUnexplainedFailure,
               this`tcpConnectUnexplainedFailureDuringWebFetch,
               this`tcpConnectUnexplainedFailureDuringConnectivityCheck
      ensures tcpConnectExpectedFailure == old(tcpConnectExpectedFailure) + Endpoints(TcpExpected, env, v.endpoints, {})
      ensures tcpConnectUnexpectedFailure ==
        old(tcpConnectUnexpectedFailure) + Endpoints(TcpUnexpected(AnyTag), env, v.endpoints, {})
      ensures tcpConnectUnexpectedFailureDuringWebFetch ==
        old(tcpConnectUnexpectedFailureDuringWebFetch) + Endpoints(TcpUnexpected(WebFetch), env, v.endpoints, {})
      ensures tcpConnectUnexpectedFailureDuringConnectivityCheck ==
        old(tcpConnectUnexpectedFailureDuringConnectivityCheck) + Endpoints(TcpUnexpected(ConnectivityCheck), env, v.endpoints, {})
      ensures tcpConnectUnexplainedFailure ==
        old(tcpConnectUnexplainedFailure) + Endpoints(TcpUnexplained(AnyTag), env, v.endpoints, {})
      ensures tcpConnectUnexplainedFailureDuringWebFetch ==
        old(tcpConnectUnexplainedFailureDuringWebFetch) + Endpoints(TcpUnexplained(WebFetch), env, v.endpoints, {})
      ensures tcpConnectUnexplainedFailureDuringConnectivityCheck ==
        old(tcpConnectUnexplainedFailureDuringConnectivityCheck) + Endpoints(TcpUnexplained(ConnectivityCheck), env, v.endpoints, {})
    {
      hide Is, Endpoints, ValidEndpoint;
      var m := v.endpoints;
      var left := m.Keys;
      NoEndpointYet(env, m);
      while left != {}
        invariant left <= m.Keys
        invariant tcpConnectExpectedFailure == old(tcpConnectExpectedFailure) + Endpoints(TcpExpected, env, m, left)
        invariant tcpConnectUnexpectedFailure ==
          old(tcpConnectUnexpectedFailure) + Endpoints(TcpUnexpected(AnyTag), env, m, left)
        invariant tcpConnectUnexpectedFailureDuringWebFetch ==
          old(tcpConnectUnexpectedFailureDuringWebFetch) + Endpoints(TcpUnexpected(WebFetch), env, m, left)
        invariant tcpConnectUnexpectedFailureDuringConnectivityCheck ==
          old(tcpConnectUnexpectedFailureDuringConnectivityCheck) + Endpoints(TcpUnexpected(ConnectivityCheck), env, m, left)
        invariant tcpConnectUnexplainedFailure ==
          old(tcpConnectUnexplainedFailure) + Endpoints(TcpUnexplained(AnyTag), env, m, left)
        invariant tcpConnectUnexplainedFailureDuringWebFetch ==
          old(tcpConnectUnexplainedFailureDuringWebFetch) + Endpoints(TcpUnexplained(WebFetch), env, m, left)
        invariant tcpConnectUnexplainedFailureDuringConnectivityCheck ==
          old(tcpConnectUnexplainedFailureDuringConnectivityCheck) + Endpoints(TcpUnexplained(ConnectivityCheck), env, m, left)
        decreases left
      {
        var k :| k in left;
        OneMore(TcpExpected, env, m, left, k, old(tcpConnectExpectedFailure));
        OneMore(TcpUnexpected(AnyTag), env, m, left, k, old(tcpConnectUnexpectedFailure));
        OneMore(TcpUnexpected(WebFetch), env, m, left, k, old(tcpConnectUnexpectedFailureDuringWebFetch));
        OneMore(TcpUnexpected(ConnectivityCheck), env, m, left, k, old(tcpConnectUnexpectedFailureDuringConnectivityCheck));
        OneMore(TcpUnexplained(AnyTag), env, m, left, k, old(tcpConnectUnexplainedFailure));
        OneMore(TcpUnexplained(WebFetch), env, m, left, k, old(tcpConnectUnexplainedFailureDuringWebFetch));
        OneMore(TcpUnexplained(ConnectivityCheck), env, m, left, k, old(tcpConnectUnexplainedFailureDuringConnectivityCheck));
        left := left - {k};
        EndpointIsUnderItsID(v, k);
        TcpComputeOne(env, m[k]);
      }
    }

    /** The loop body for one endpoint. */
    method TlsComputeOne(env: Env, obs: Observation)
      requires obs.endpointTransactionID.Some?
      modifies this`tlsHandshakeExpectedFailure,
               this`tlsHandshakeUnexpectedFailure,
               this`tlsHandshakeUnexpectedFailureDuringWebFetch,
               this`tlsHandshakeUnexpectedFailureDuringConnectivityCheck,
               this`tlsHandshakeUnexplainedFailure,
               this`tlsHandshakeUnexplainedFailureDuringWebFetch,
               this`tlsHandshakeUnexplainedFailureDuringConnectivityCheck
      ensures tlsHandshakeExpectedFailure ==
        old(tlsHandshakeExpectedFailure) + (if Is(TlsExpected, env, obs) then {obs.endpointTransactionID.value} else {})
      ensures tlsHandshakeUnexpectedFailure ==
        old(tlsHandshakeUnexpectedFailure) +
        (if Is(TlsUnexpected(AnyTag), env, obs) then {obs.endpointTransactionID.value} else {})
      ensures tlsHandshakeUnexpectedFailureDuringWebFetch ==
        old(tlsHandshakeUnexpectedFailureDuringWebFetch) +
        (if Is(TlsUnexpected(WebFetch), env, obs) then {obs.endpointTransactionID.value} else {})
      ensures tlsHandshakeUnexpectedFailureDuringConnectivityCheck ==
        old(tlsHandshakeUnexpectedFailureDuringConnectivityCheck) +
        (if Is(TlsUnexpected(ConnectivityCheck), env, obs) then {obs.endpointTransactionID.value} else {})
      ensures tlsHandshakeUnexplainedFailure ==
        old(tlsHandshakeUnexplainedFailure) +
        (if Is(TlsUnexplained(AnyTag), env, obs) then {obs.endpointTransactionID.value} else {})
      ensures tlsHandshakeUnexplainedFailureDuringWebFetch ==
        old(tlsHandshakeUnexplainedFailureDuringWebFetch) +
        (if Is(TlsUnexplained(WebFetch), env, obs) then {obs.endpointTransactionID.value} else {})
      ensures tlsHandshakeUnexplainedFailureDuringConnectivityCheck ==
        old(tlsHandshakeUnexplainedFailureDuringConnectivityCheck) +
        (if Is(TlsUnexplained(ConnectivityCheck), env, obs) then {obs.endpointTransactionID.value} else {})
    {
      hide SeemsMisconfiguredIPv6;
      var id := obs.endpointTransactionID.value;
      if obs.tlsHandshakeFailure.None? {
        return;
      }
      if obs.tagDepth.None? || obs.tagDepth.value != 0 {
        if obs.tlsHandshakeFailure.value != "" {
          if obs.tagFetchBody.Some? && obs.tagFetchBody.value {
            tlsHandshakeUnexplainedFailureDuringWebFetch := tlsHandshakeUnexplainedFailureDuringWebFetch + {id};
          } else if obs.tagFetchBody.Some? {
            tlsHandshakeUnexplainedFailureDuringConnectivityCheck :=
              tlsHandshakeUnexplainedFailureDuringConnectivityCheck + {id};
          }
          tlsHandshakeUnexplainedFailure := tlsHandshakeUnexplainedFailure + {id};
        }
        return;
      }
      if obs.control.tlsHandshakeFailure.None? {
        return;
      }
      if obs.tlsHandshakeFailure.value != "" && obs.control.tlsHandshakeFailure.value != "" {
        tlsHandshakeExpectedFailure := tlsHandshakeExpectedFailure + {id};
        return;
      }
      if obs.control.tlsHandshakeFailure.value != "" {
        return;
      }
      if obs.tlsHandshakeFailure.value != "" {
        if obs.tagFetchBody.Some? && obs.tagFetchBody.value {
          tlsHandshakeUnexpectedFailureDuringWebFetch := tlsHandshakeUnexpectedFailureDuringWebFetch + {id};
        } else if obs.tagFetchBody.Some? {
          tlsHandshakeUnexpectedFailureDuringConnectivityCheck :=
            tlsHandshakeUnexpectedFailureDuringConnectivityCheck + {id};
        }
        tlsHandshakeUnexpectedFailure := tlsHandshakeUnexpectedFailure + {id};
      }
    }

    /** In whatever order the map is iterated. */
    method TlsComputeMetrics(env: Env, v: View)
      requires ValidView(v)
      modifies this`tlsHandshakeExpectedFailure,
               this`tlsHandshakeUnexpectedFailure,
               this`tlsHandshakeUnexpectedFailureDuringWebFetch,
               this`tlsHandshakeUnexpectedFailureDuringConnectivityCheck,
               this`tlsHandshakeUnexplainedFailure,
               this`tlsHandshakeUnexplainedFailureDuringWebFetch,
               this`tlsHandshakeUnexplainedFailureDuringConnectivityCheck
      ensures tlsHandshakeExpectedFailure ==
        old(tlsHandshakeExpectedFailure) + Endpoints(TlsExpected, env, v.endpoints, {})
      ensures tlsHandshakeUnexpectedFailure ==
        old(tlsHandshakeUnexpectedFailure) + Endpoints(TlsUnexpected(AnyTag), env, v.endpoints, {})
      ensures tlsHandshakeUnexpectedFailureDuringWebFetch ==
        old(tlsHandshakeUnexpectedFailureDuringWebFetch) + Endpoints(TlsUnexpected(WebFetch), env, v.endpoints, {})
      ensures tlsHandshakeUnexpectedFailureDuringConnectivityCheck ==
        old(tlsHandshakeUnexpectedFailureDuringConnectivityCheck) + Endpoints(TlsUnexpected(ConnectivityCheck), env, v.endpoints, {})
      ensures tlsHandshakeUnexplainedFailure ==
        old(tlsHandshakeUnexplainedFailure) + Endpoints(TlsUnexplained(AnyTag), env, v.endpoints, {})
      ensures tlsHandshakeUnexplainedFailureDuringWebFetch ==
        old(tlsHandshakeUnexplainedFailureDuringWebFetch) + Endpoints(TlsUnexplained(WebFetch), env, v.endpoints, {})
      ensures tlsHandshakeUnexplainedFailureDuringConnectivityCheck ==
        old(tlsHandshakeUnexplainedFailureDuringConnectivityCheck) + Endpoints(TlsUnexplained(ConnectivityCheck), env, v.endpoints, {})
    {
      hide Is, Endpoints, ValidEndpoint;
      var m := v.endpoints;
      var left := m.Keys;
      NoEndpointYet(env, m);
      while left != {}
        invariant left <= m.Keys
        invariant tlsHandshakeExpectedFailure == old(tlsHandshakeExpectedFailure) + Endpoints(TlsExpected, env, m, left)
        invariant tlsHandshakeUnexpectedFailure ==
          old(tlsHandshakeUnexpectedFailure) + Endpoints(TlsUnexpected(AnyTag), env, m, left)
        invariant tlsHandshakeUnexpectedFailureDuringWebFetch ==
          old(tlsHandshakeUnexpectedFailureDuringWebFetch) + Endpoints(TlsUnexpected(WebFetch), env, m, left)
        invariant tlsHandshakeUnexpectedFailureDuringConnectivityCheck ==
          old(tlsHandshakeUnexpectedFailureDuringConnectivityCheck) + Endpoints(TlsUnexpected(ConnectivityCheck), env, m, left)
        invariant tlsHandshakeUnexplainedFailure ==
          old(tlsHandshakeUnexplainedFailure) + Endpoints(TlsUnexplained(AnyTag), env, m, left)
        invariant tlsHandshakeUnexplainedFailureDuringWebFetch ==
          old(tlsHandshakeUnexplainedFailureDuringWebFetch) + Endpoints(TlsUnexplained(WebFetch), env, m, left)
        invariant tlsHandshakeUnexplainedFailureDuringConnectivityCheck ==
          old(tlsHandshakeUnexplainedFailureDuringConnectivityCheck) + Endpoints(TlsUnexplained(ConnectivityCheck), env, m, left)
        decreases left
      {
        var k :| k in left;
        OneMore(TlsExpected, env, m, left, k, old(tlsHandshakeExpectedFailure));
        OneMore(TlsUnexpected(AnyTag), env, m, left, k, old(tlsHandshakeUnexpectedFailure));
        OneMore(TlsUnexpected(WebFetch), env, m, left, k, old(tlsHandshakeUnexpectedFailureDuringWebFetch));
        OneMore(TlsUnexpected(ConnectivityCheck), env, m, left, k, old(tlsHandshakeUnexpectedFailureDuringConnectivityCheck));
        OneMore(TlsUnexplained(AnyTag), env, m, left, k, old(tlsHandshakeUnexplainedFailure));
        OneMore(TlsUnexplained(WebFetch), env, m, left, k, old(tlsHandshakeUnexplainedFailureDuringWebFetch));
        OneMore(TlsUnexplained(ConnectivityCheck), env, m, left, k, old(tlsHandshakeUnexplainedFailureDuringConnectivityCheck));
        left := left - {k};
        EndpointIsUnderItsID(v, k);
        TlsComputeOne(env, m[k]);
      }
    }

    /** The loop body for one endpoint. The control is about the final response, so the depth does not
        matter. */
    method HttpComputeOne(env: Env, obs: Observation)
      requires obs.endpointTransactionID.Some?
      modifies this`httpRoundTripUnexpectedFailure, this`httpRoundTripUnexplainedFailure
      ensures httpRoundTripUnexpectedFailure ==
        old(httpRoundTripUnexpectedFailure) +
        (if Is(HttpUnexpected, env, obs) then {obs.endpointTransactionID.value} else {})
      ensures httpRoundTripUnexplainedFailure ==
        old(httpRoundTripUnexplainedFailure) +
        (if Is(HttpUnexplained, env, obs) then {obs.endpointTransactionID.value} else {})
    {
      var id := obs.endpointTransactionID.value;
      if obs.httpFailure.None? {
        return;
      }
      if obs.control.httpFailure.None? {
        if obs.httpFailure.value != "" {
          httpRoundTripUnexplainedFailure := httpRoundTripUnexplainedFailure + {id};
        }
        return;
      }
      if obs.httpFailure.value != "" && obs.control.httpFailure.value != "" {
        return;
      }
      if obs.control.httpFailure.value != "" {
        return;
      }
      if obs.httpFailure.value != "" {
        httpRoundTripUnexpectedFailure := httpRoundTripUnexpectedFailure + {id};
      }
    }

    method HttpComputeFailureMetrics(env: Env, v: View)
      requires ValidView(v)
      modifies this`httpRoundTripUnexpectedFailure, this`httpRoundTripUnexplainedFailure
      ensures httpRoundTripUnexpectedFailure ==
        old(httpRoundTripUnexpectedFailure) + Endpoints(HttpUnexpected, env, v.endpoints, {})
      ensures httpRoundTripUnexplainedFailure ==
        old(httpRoundTripUnexplainedFailure) + Endpoints(HttpUnexplained, env, v.endpoints, {})
    {
      hide Is, Endpoints, ValidEndpoint;
      var m := v.endpoints;
      var left := m.Keys;
      NoEndpointYet(env, m);
      while left != {}
        invariant left <= m.Keys
        invariant httpRoundTripUnexpectedFailure ==
          old(httpRoundTripUnexpectedFailure) + Endpoints(HttpUnexpected, env, m, left)
        invariant httpRoundTripUnexplainedFailure ==
          old(httpRoundTripUnexplainedFailure) + Endpoints(HttpUnexplained, env, m, left)
        decreases left
      {
        var k :| k in left;
        OneMore(HttpUnexpected, env, m, left, k, old(httpRoundTripUnexpectedFailure));
        OneMore(HttpUnexplained, env, m, left, k, old(httpRoundTripUnexplainedFailure));
        left := left - {k};
        EndpointIsUnderItsID(v, k);
        HttpComputeOne(env, m[k]);
      }
    }

    /** Recording a final response panics when the assertion fails. */
    method HttpHandleFinalResponse(env: Env, obs: Observation)
      requires obs.endpointTransactionID.Some? && IsFinal(obs) && AssertionHolds(obs)
      requires finalResponse == NO_FINAL_RESPONSE
      modifies this`finalResponse
      ensures finalResponse == Recorded(env, obs)
    {
      if obs.control.httpFailure.None? {
        if obs.tlsHandshakeFailure.Some? && obs.tlsHandshakeFailure.value == "" {
          finalResponse := finalResponse.(successTLSWithoutControl := obs.endpointTransactionID);
          return;
        }
        finalResponse := finalResponse.(successTCPWithoutControl := obs.endpointTransactionID);
        return;
      }
      if obs.tlsHandshakeFailure.Some? {
        assert obs.tlsHandshakeFailure.value == "";
        finalResponse := finalResponse.(successTLSWithControl := obs.endpointTransactionID);
      } else {
        finalResponse := finalResponse.(successTCPWithControl := obs.endpointTransactionID);
      }
      finalResponse := finalResponse.(bodyProportionFactor := BodyProportion(env, obs));
      finalResponse := finalResponse.(statusCodeMatch := StatusMatch(env, obs));
      finalResponse := finalResponse.(uncommonHeadersIntersection := HeadersIntersection(env, obs));
      finalResponse := finalResponse.(titleDifferentLongWords := TitleWords(env, obs));
    }

    /** Stops at the first final response that the iteration meets; `order` is the rest of the iteration too. */
    method HttpComputeFinalResponseMetrics(env: Env, v: View) returns (panics: bool, ghost order: seq<TransactionID>)
      requires ValidView(v) && finalResponse == NO_FINAL_RESPONSE
      modifies this`finalResponse
      ensures Linear.IterationOrder(v.endpoints, order)
      ensures CameTo(Outcome(env, v.endpoints, order), panics)
    {
      hide ValidView, Recorded, AssertionHolds, Linear.IterationOrder, FirstFinal;
      var m := v.endpoints;
      var left := m.Keys;
      ghost var met: seq<TransactionID> := [];
      while left != {}
        invariant left <= m.Keys && finalResponse == NO_FINAL_RESPONSE
        invariant forall k :: k in met <==> k in m && k !in left
        invariant forall i {:trigger met[i]} :: 0 <= i < |met| ==> met[i] in m && met[i] !in left && !IsFinal(m[met[i]])
        invariant forall i, j :: 0 <= i < j < |met| ==> met[i] != met[j]
        decreases left
      {
        var k :| k in left;
        left := left - {k};
        var obs := m[k];
        if obs.httpResponse.isFinal.None? || !obs.httpResponse.isFinal.value {
          met := met + [k];
          continue;
        }
        EndpointIsUnderItsID(v, k);
        order := OutcomeAt(env, m, met, k);
        if !AssertionHolds(obs) {
          return true, order;
        }
        HttpHandleFinalResponse(env, obs);
        return false, order;
      }
      order := met;
      NoOutcome(env, m, met);
      return false, order;
    }

    /** What is recorded, and whether there was a panic. */
    predicate CameTo(outcome: FinalOutcome, panics: bool)
      reads this`finalResponse
    {
      match outcome
      case NothingFinal => !panics && finalResponse == NO_FINAL_RESPONSE
      case RecordedFinal(response) => !panics && finalResponse == response
      case Panic => panics
    }

    method DnsCompute(env: Env, v: View)
      requires ValidView(v) && IsZeroLookups()
      modifies this`dnsLookupSuccess, this`dnsLookupSuccessWithBogonAddresses,
               this`dnsLookupSuccessWithValidAddress, this`dnsLookupSuccessWithInvalidAddresses,
               this`dnsLookupSuccessWithValidAddressClassic,
               this`dnsLookupSuccessWithInvalidAddressesClassic, this`dnsLookupExpectedFailure,
               this`dnsLookupUnexpectedFailure, this`dnsLookupUnexplainedFailure,
               this`dnsLookupExpectedSuccess, this`dnsExperimentFailure
      ensures ClassifiesLookups(env, v)
    {
      hide ValidView, Dns, TlsConfirmed, ExperimentFailure;
      DnsComputeSuccessMetrics(env, v);
      DnsComputeSuccessMetricsClassic(env, v);
      DnsComputeFailureMetrics(env, v);
    }

    method TcpCompute(env: Env, v: View)
      requires ValidView(v) && IsZeroTcp()
      modifies this`tcpConnectExpectedFailure, this`tcpConnectUnexpectedFailure,
               this`tcpConnectUnexpectedFailureDuringWebFetch,
               this`tcpConnectUnexpectedFailureDuringConnectivityCheck, this`tcpConnectUnexplainedFailure,
               this`tcpConnectUnexplainedFailureDuringWebFetch,
               this`tcpConnectUnexplainedFailureDuringConnectivityCheck
      ensures ClassifiesTcp(env, v)
    {
      hide ValidView, Endpoints;
      TcpComputeMetrics(env, v);
    }

    method TlsCompute(env: Env, v: View)
      requires ValidView(v) && IsZeroTls()
      modifies this`tlsHandshakeExpectedFailure, this`tlsHandshakeUnexpectedFailure,
               this`tlsHandshakeUnexpectedFailureDuringWebFetch,
               this`tlsHandshakeUnexpectedFailureDuringConnectivityCheck,
               this`tlsHandshakeUnexplainedFailure, this`tlsHandshakeUnexplainedFailureDuringWebFetch,
               this`tlsHandshakeUnexplainedFailureDuringConnectivityCheck
      ensures ClassifiesTls(env, v)
    {
      hide ValidView, Endpoints;
      TlsComputeMetrics(env, v);
    }

    method HttpCompute(env: Env, v: View)
      requires ValidView(v) && IsZeroHttp()
      modifies this`httpRoundTripUnexpectedFailure, this`httpRoundTripUnexplainedFailure
      ensures ClassifiesHttp(env, v)
    {
      hide ValidView, Endpoints;
      HttpComputeFailureMetrics(env, v);
    }

    /** The whole analysis without the linear one. Its result does not depend on the order in which the
        endpoints are iterated, but for the final response, see `FinalOutcomeIsDeterministic`. */
    method Analyze(env: Env, v: View) returns (panics: bool, ghost order: seq<TransactionID>)
      requires ValidView(v) && IsZero()
      modifies this
      ensures controlExpectations == old(controlExpectations) && linear == old(linear)
      ensures ClassifiesLookups(env, v) && ClassifiesTcp(env, v) && ClassifiesTls(env, v) && ClassifiesHttp(env, v)
      ensures Linear.IterationOrder(v.endpoints, order) && CameTo(Outcome(env, v.endpoints, order), panics)
    {
      hide ValidView, CameTo, Outcome, Linear.IterationOrder, ClassifiesLookups, ClassifiesTcp, ClassifiesTls, ClassifiesHttp;
      hide IsZeroLookups, IsZeroTcp, IsZeroTls, IsZeroHttp;
      DnsCompute(env, v);
      TcpCompute(env, v);
      TlsCompute(env, v);
      HttpCompute(env, v);
      panics, order := HttpComputeFinalResponseMetrics(env, v);
    }

    predicate IsZeroLookups()
      reads this`dnsLookupSuccess, this`dnsLookupSuccessWithBogonAddresses,
            this`dnsLookupSuccessWithValidAddress, this`dnsLookupSuccessWithInvalidAddresses,
            this`dnsLookupSuccessWithValidAddressClassic,
            this`dnsLookupSuccessWithInvalidAddressesClassic, this`dnsLookupExpectedFailure,
            this`dnsLookupUnexpectedFailure, this`dnsLookupUnexplainedFailure,
            this`dnsLookupExpectedSuccess, this`dnsExperimentFailure
    {
      && dnsLookupSuccess == {}
      && dnsLookupSuccessWithBogonAddresses == {}
      && dnsLookupSuccessWithValidAddress == {}
      && dnsLookupSuccessWithInvalidAddresses == {}
      && dnsLookupSuccessWithValidAddressClassic == {}
      && dnsLookupSuccessWithInvalidAddressesClassic == {}
      && dnsLookupExpectedFailure == {}
      && dnsLookupUnexpectedFailure == {}
      && dnsLookupUnexplainedFailure == {}
      && dnsLookupExpectedSuccess == {}
      && dnsExperimentFailure.None?
    }

    predicate IsZeroTcp()
      reads this`tcpConnectExpectedFailure, this`tcpConnectUnexpectedFailure,
            this`tcpConnectUnexpectedFailureDuringWebFetch,
            this`tcpConnectUnexpectedFailureDuringConnectivityCheck, this`tcpConnectUnexplainedFailure,
            this`tcpConnectUnexplainedFailureDuringWebFetch,
            this`tcpConnectUnexplainedFailureDuringConnectivityCheck
    {
      && tcpConnectExpectedFailure == {}
      && tcpConnectUnexpectedFailure == {}
      && tcpConnectUnexpectedFailureDuringWebFetch == {}
      && tcpConnectUnexpectedFailureDuringConnectivityCheck == {}
      && tcpConnectUnexplainedFailure == {}
      && tcpConnectUnexplainedFailureDuringWebFetch == {}
      && tcpConnectUnexplainedFailureDuringConnectivityCheck == {}
    }

    predicate IsZeroTls()
      reads this`tlsHandshakeExpectedFailure, this`tlsHandshakeUnexpectedFailure,
            this`tlsHandshakeUnexpectedFailureDuringWebFetch,
            this`tlsHandshakeUnexpectedFailureDuringConnectivityCheck,
            this`tlsHandshakeUnexplainedFailure, this`tlsHandshakeUnexplainedFailureDuringWebFetch,
            this`tlsHandshakeUnexplainedFailureDuringConnectivityCheck
    {
      && tlsHandshakeExpectedFailure == {}
      && tlsHandshakeUnexpectedFailure == {}
      && tlsHandshakeUnexpectedFailureDuringWebFetch == {}
      && tlsHandshakeUnexpectedFailureDuringConnectivityCheck == {}
      && tlsHandshakeUnexplainedFailure == {}
      && tlsHandshakeUnexplainedFailureDuringWebFetch == {}
      && tlsHandshakeUnexplainedFailureDuringConnectivityCheck == {}
    }

    predicate IsZeroHttp()
      reads this`httpRoundTripUnexpectedFailure, this`httpRoundTripUnexplainedFailure
    {
      && httpRoundTripUnexpectedFailure == {}
      && httpRoundTripUnexplainedFailure == {}
    }

    predicate IsZero()
      reads this
    {
      IsZeroLookups() && IsZeroTcp() && IsZeroTls() && IsZeroHttp() && finalResponse == NO_FINAL_RESPONSE
    }

    /** Every set about lookups is what it means. */
    ghost predicate ClassifiesLookups(env: Env, v: View)
      reads this`dnsLookupSuccess, this`dnsLookupSuccessWithBogonAddresses,
            this`dnsLookupSuccessWithValidAddress, this`dnsLookupSuccessWithInvalidAddresses,
            this`dnsLookupSuccessWithValidAddressClassic,
            this`dnsLookupSuccessWithInvalidAddressesClassic, this`dnsLookupExpectedFailure,
            this`dnsLookupUnexpectedFailure, this`dnsLookupUnexplainedFailure,
            this`dnsLookupExpectedSuccess, this`dnsExperimentFailure
    {
      && dnsLookupSuccess == Dns(Success, env, v.successes)
      && dnsLookupSuccessWithBogonAddresses == Dns(Bogon, env, v.successes)
      && dnsLookupSuccessWithValidAddress == Dns(Valid, env, v.successes) + TlsConfirmed(v.endpoints)
      && dnsLookupSuccessWithInvalidAddresses == Dns(Invalid, env, v.successes) - TlsConfirmed(v.endpoints)
      && dnsLookupSuccessWithValidAddressClassic == Dns(Valid, env, v.successes)
      && dnsLookupSuccessWithInvalidAddressesClassic == Dns(Invalid, env, v.successes)
      && dnsLookupExpectedFailure == Dns(Expected, env, v.failures)
      && dnsLookupUnexpectedFailure == Dns(Unexpected, env, v.failures)
      && dnsLookupUnexplainedFailure == Dns(Unexplained, env, v.failures)
      && dnsLookupExpectedSuccess == Dns(ExpectedSuccess, env, v.failures)
      && dnsExperimentFailure == ExperimentFailure(env, v.failures)
    }

    ghost predicate ClassifiesTcp(env: Env, v: View)
      reads this`tcpConnectExpectedFailure, this`tcpConnectUnexpectedFailure,
            this`tcpConnectUnexpectedFailureDuringWebFetch,
            this`tcpConnectUnexpectedFailureDuringConnectivityCheck, this`tcpConnectUnexplainedFailure,
            this`tcpConnectUnexplainedFailureDuringWebFetch,
            this`tcpConnectUnexplainedFailureDuringConnectivityCheck
    {
      && tcpConnectExpectedFailure == Endpoints(TcpExpected, env, v.endpoints, {})
      && tcpConnectUnexpectedFailure == Endpoints(TcpUnexpected(AnyTag), env, v.endpoints, {})
      && tcpConnectUnexpectedFailureDuringWebFetch == Endpoints(TcpUnexpected(WebFetch), env, v.endpoints, {})
      && tcpConnectUnexpectedFailureDuringConnectivityCheck ==
         Endpoints(TcpUnexpected(ConnectivityCheck), env, v.endpoints, {})
      && tcpConnectUnexplainedFailure == Endpoints(TcpUnexplained(AnyTag), env, v.endpoints, {})
      && tcpConnectUnexplainedFailureDuringWebFetch == Endpoints(TcpUnexplained(WebFetch), env, v.endpoints, {})
      && tcpConnectUnexplainedFailureDuringConnectivityCheck ==
         Endpoints(TcpUnexplained(ConnectivityCheck), env, v.endpoints, {})
    }

    ghost predicate ClassifiesTls(env: Env, v: View)
      reads this`tlsHandshakeExpectedFailure, this`tlsHandshakeUnexpectedFailure,
            this`tlsHandshakeUnexpectedFailureDuringWebFetch,
            this`tlsHandshakeUnexpectedFailureDuringConnectivityCheck,
            this`tlsHandshakeUnexplainedFailure, this`tlsHandshakeUnexplainedFailureDuringWebFetch,
            this`tlsHandshakeUnexplainedFailureDuringConnectivityCheck
    {
      && tlsHandshakeExpectedFailure == Endpoints(TlsExpected, env, v.endpoints, {})
      && tlsHandshakeUnexpectedFailure == Endpoints(TlsUnexpected(AnyTag), env, v.endpoints, {})
      && tlsHandshakeUnexpectedFailureDuringWebFetch == Endpoints(TlsUnexpected(WebFetch), env, v.endpoints, {})
      && tlsHandshakeUnexpectedFailureDuringConnectivityCheck ==
         Endpoints(TlsUnexpected(ConnectivityCheck), env, v.endpoints, {})
      && tlsHandshakeUnexplainedFailure == Endpoints(TlsUnexplained(AnyTag), env, v.endpoints, {})
      && tlsHandshakeUnexplainedFailureDuringWebFetch == Endpoints(TlsUnexplained(WebFetch), env, v.endpoints, {})
      && tlsHandshakeUnexplainedFailureDuringConnectivityCheck ==
         Endpoints(TlsUnexplained(ConnectivityCheck), env, v.endpoints, {})
    }

    ghost predicate ClassifiesHttp(env: Env, v: View)
      reads this`httpRoundTripUnexpectedFailure, this`httpRoundTripUnexplainedFailure
    {
      && httpRoundTripUnexpectedFailure == Endpoints(HttpUnexpected, env, v.endpoints, {})
      && httpRoundTripUnexplainedFailure == Endpoints(HttpUnexplained, env, v.endpoints, {})
    }

    /** The strict DNS verdicts refine the classic ones by the TLS handshakes that succeeded. */
    lemma StrictRefinesClassic(env: Env, v: View)
      requires ClassifiesLookups(env, v)
      ensures dnsLookupSuccessWithValidAddress == dnsLookupSuccessWithValidAddressClassic + TlsConfirmed(v.endpoints)
      ensures dnsLookupSuccessWithInvalidAddresses == dnsLookupSuccessWithInvalidAddressesClassic - TlsConfirmed(v.endpoints)
      ensures dnsLookupSuccessWithValidAddressClassic !! dnsLookupSuccessWithInvalidAddressesClassic
      ensures dnsLookupSuccessWithValidAddress !! dnsLookupSuccessWithInvalidAddresses
      ensures dnsLookupSuccessWithInvalidAddressesClassic <= dnsLookupSuccess
    {
      hide Dns, Endpoints, TlsConfirmed, ExperimentFailure;
      ValidOrInvalid(env, v.successes);
      InvalidIsSuccess(env, v.successes);
    }
  }

  lemma ValidOrInvalid(env: Env, s: seq<Observation>)
    ensures Dns(Valid, env, s) !! Dns(Invalid, env, s)
  {
    hide Consistent;
    DnsDisjoint(Valid, Invalid, env, s);
  }

  lemma {:induction false} InvalidIsSuccess(env: Env, s: seq<Observation>)
    ensures Dns(Invalid, env, s) <= Dns(Success, env, s)
  {
    hide Consistent, Ids;
    if s != [] {
      InvalidIsSuccess(env, s[..|s| - 1]);
    }
  }

  /** The analysis of a container, with the linear one. */
  method AnalyzeWebObservationsWithLinearAnalysis(env: Env, v: View)
      returns (analysis: WebAnalysis, panics: bool, ghost order: seq<TransactionID>)
    requires ValidView(v)
    ensures fresh(analysis)
    ensures Linear.IterationOrder(v.endpoints, order) && analysis.CameTo(Outcome(env, v.endpoints, order), panics)
    ensures !panics ==>
      && analysis.controlExpectations == v.expectations
      && analysis.ClassifiesLookups(env, v) && analysis.ClassifiesTcp(env, v)
      && analysis.ClassifiesTls(env, v) && analysis.ClassifiesHttp(env, v)
      && forall order :: Linear.IterationOrder(v.endpoints, order) ==> analysis.linear == Linear.Linearized(v, order)
    ensures NeverPanics(v.endpoints) ==> !panics
  {
    hide ValidView, Outcome, NeverPanics, Linear.Linearized, Linear.IterationOrder;
    hide WebAnalysis.ClassifiesLookups, WebAnalysis.ClassifiesTcp, WebAnalysis.ClassifiesTls, WebAnalysis.ClassifiesHttp;
    hide WebAnalysis.IsZero;
    PanicsExactly(env, v.endpoints);
    analysis := new WebAnalysis(v.expectations);
    panics, order := analysis.Analyze(env, v);
    if panics {
      return;
    }
    analysis.linear := Linear.NewLinearWebAnalysis(v);
  }

  /** The iteration that met `k` after responses that are not final. */
  lemma OutcomeAt(env: Env, m: map<TransactionID, Observation>, met: seq<TransactionID>, k: TransactionID)
      returns (order: seq<TransactionID>)
    requires k in m && k !in met && IsFinal(m[k])
    requires forall i {:trigger met[i]} :: 0 <= i < |met| ==> met[i] in m && !IsFinal(m[met[i]])
    requires forall i, j :: 0 <= i < j < |met| ==> met[i] != met[j]
    ensures Linear.IterationOrder(m, order)
    ensures Outcome(env, m, order) == if AssertionHolds(m[k]) then RecordedFinal(Recorded(env, m[k])) else Panic
  {
    hide IsFinal, AssertionHolds, Recorded;
    order := Completed(m, met + [k]);
    forall j | 0 <= j < |met|
      ensures order[j] == met[j]
    {
      assert order[j] == (met + [k])[j];
    }
    assert order[|met|] == (met + [k])[|met|] == k;
    FirstFinalAt(m, order, |met|);
  }

  lemma NoOutcome(env: Env, m: map<TransactionID, Observation>, met: seq<TransactionID>)
    requires forall k :: k in met <==> k in m
    requires forall i {:trigger met[i]} :: 0 <= i < |met| ==> met[i] in m && !IsFinal(m[met[i]])
    requires forall i, j :: 0 <= i < j < |met| ==> met[i] != met[j]
    ensures Linear.IterationOrder(m, met) && Outcome(env, m, met) == NothingFinal
  {
    hide IsFinal, AssertionHolds, Recorded;
    FirstFinalAt(m, met, |met|);
  }

  lemma EndpointIsUnderItsID(v: View, k: TransactionID)
    requires ValidView(v) && k in v.endpoints
    ensures v.endpoints[k].endpointTransactionID.Some? && v.endpoints[k].endpointTransactionID.value == k
  {
    hide ValidLookup, ValidLookupSuccess;
    assert ValidEndpoint(k, v.endpoints[k]);
  }

  lemma SuccessHasItsFields(v: View, i: nat)
    requires ValidView(v) && i < |v.successes|
    ensures
      var o := v.successes[i];
      o.dnsTransactionID.Some? && o.dnsTransactionID.value == o.transactionID && o.dnsResolvedAddrs.Some?
  {
    hide ValidEndpoint;
    assert ValidLookupSuccess(v.successes[i]);
  }

  lemma LookupHasItsFields(v: View, i: nat)
    requires ValidView(v) && i < |v.failures|
    ensures
      var o := v.failures[i];
      o.dnsTransactionID.Some? && o.dnsTransactionID.value == o.transactionID && o.dnsLookupFailure.Some?
  {
    hide ValidLookupSuccess, ValidEndpoint;
    assert ValidLookup(v.failures[i]);
  }

  lemma ExperimentFailureUpTo(env: Env, s: seq<Observation>, i: nat)
    requires i < |s|
    ensures
      var before := ExperimentFailure(env, s[..i]);
      ExperimentFailure(env, s[..i + 1])
      == if before.Some? then before
         else if s[i].transactionID !in Ids(s[..i]) && Relevant(s[i]) && AtStart(s[i]) && Failed(s[i].dnsLookupFailure)
         then s[i].dnsLookupFailure
         else None
  {
    hide Relevant, AtStart, Failed, Ids;
    assert s[..i + 1][..i] == s[..i];
  }

  lemma NothingYet(env: Env)
    ensures Ids([]) == {} && ExperimentFailure(env, []) == None && forall metric :: Dns(metric, env, []) == {}
  {
  }

  lemma NoEndpointYet(env: Env, m: map<TransactionID, Observation>)
    ensures forall metric {:trigger Endpoints(metric, env, m, m.Keys)} :: Endpoints(metric, env, m, m.Keys) == {}
  {
    hide Is;
  }

  // ----- a failed handshake with a final response

  /** Ingestion does not rule it out: when a failed handshake and a final response share a transaction and
      there is a control, some iteration order leads to a panic. */
  lemma FailedHandshakeThenFinalResponse(geo: Geo, tcp: TcpEvent, tls: TlsEvent, http: HttpEvent, domain: string, th: ThResponse)
    requires tcp.transactionID == tls.transactionID == http.transactionID
    requires Failed(tls.failure) && http.failure.None? && ResponseIsFinal(http.code)
    ensures !NeverPanics(AfterAll(geo, EMPTY, [TcpEvents([tcp]), TlsEvents([tls]), HttpEvents([http]),
                                               ControlMessages(Some(domain), th)]).endpoints)
  {
    hide AfterAll, Endpoint, WithTls, WithHttp, UnknownAddress, IsFinal, Failed;
    var calls := [TcpEvents([tcp]), TlsEvents([tls]), HttpEvents([http])];
    var control := ControlMessages(Some(domain), th);
    var o := Endpoint(UnknownAddress(geo, tcp.ip), tcp);
    OneOfEach(geo, tcp, tls, http, o);
    AfterAllAppend(geo, EMPTY, calls, control);
    assert calls + [control] == [TcpEvents([tcp]), TlsEvents([tls]), HttpEvents([http]), control];
    var v := AfterAll(geo, EMPTY, calls);
    var id := tcp.transactionID;
    var m := After(geo, v, control).endpoints;
    ControlledAt(v, domain, th, id);
    FinalAfterFailure(o, tls, http, domain, th);
    assert id in m && m[id] == ControlledEndpoint(v.endpoints[id], domain, th);
  }

  lemma ControlledAt(v: View, domain: string, th: ThResponse, id: TransactionID)
    requires id in v.endpoints
    ensures id in Controlled(v, domain, th).endpoints
    ensures Controlled(v, domain, th).endpoints[id] == ControlledEndpoint(v.endpoints[id], domain, th)
  {
    hide XrefTcp, XrefTls, MatchDns, WithExpectation;
  }

  lemma FinalAfterFailure(o: Observation, tls: TlsEvent, http: HttpEvent, domain: string, th: ThResponse)
    requires Failed(tls.failure) && http.failure.None? && ResponseIsFinal(http.code)
    ensures
      var c := ControlledEndpoint(WithHttp(WithTls(o, tls), http), domain, th);
      IsFinal(c) && c.control.httpFailure.Some? && Failed(c.tlsHandshakeFailure)
  {
    var measured := WithHttp(WithTls(o, tls), http);
    assert IsFinal(measured) && Failed(measured.tlsHandshakeFailure);
    hide WithHttp, WithTls;
    ControlKeepsProbePart(measured, domain, th);
    assert ProbePart(measured).tlsHandshakeFailure == measured.tlsHandshakeFailure;
  }

  lemma OneOfEach(geo: Geo, tcp: TcpEvent, tls: TlsEvent, http: HttpEvent, o: Observation)
    requires tcp.transactionID == tls.transactionID == http.transactionID && o == Endpoint(UnknownAddress(geo, tcp.ip), tcp)
    ensures AfterAll(geo, EMPTY, [TcpEvents([tcp]), TlsEvents([tls]), HttpEvents([http])]).endpoints
            == map[tcp.transactionID := WithHttp(WithTls(o, tls), http)]
  {
    hide WithTls, WithHttp, Endpoint, UnknownAddress, AfterAll;
    var c1, c2, c3 := TcpEvents([tcp]), TlsEvents([tls]), HttpEvents([http]);
    NoCalls(geo, EMPTY);
    AfterAllAppend(geo, EMPTY, [], c1);
    AfterAllAppend(geo, EMPTY, [] + [c1], c2);
    AfterAllAppend(geo, EMPTY, [] + [c1] + [c2], c3);
    assert [c1, c2, c3] == [] + [c1] + [c2] + [c3];
    assert [tcp][..0] == [] && [tls][..0] == [] && [http][..0] == [];
    assert EndpointsOf(geo, [], map[], [tcp]) == map[tcp.transactionID := o];
    var m1 := map[tcp.transactionID := o];
    assert TlsOf(m1, [tls]) == map[tcp.transactionID := WithTls(o, tls)];
    var m2 := map[tcp.transactionID := WithTls(o, tls)];
    assert HttpOf(m2, [http]) == map[tcp.transactionID := WithHttp(WithTls(o, tls), http)];
  }

  // ----- expected successes of lookups

  /** The set of expected successes is filled from the failed lookups only. After any loading calls, a
      transaction is in it exactly when its first failed lookup counts, belongs to the initial request, failed
      with an empty failure, and the control's lookup succeeded. */
  lemma ExpectedSuccessMembers(geo: Geo, env: Env, calls: seq<Call>, id: TransactionID)
    ensures
      var s := AfterAll(geo, EMPTY, calls).failures;
      id in Dns(ExpectedSuccess, env, s) <==>
        exists i {:trigger s[i]} :: 0 <= i < |s| && s[i].transactionID == id
          && (forall j {:trigger s[j]} :: 0 <= j < i ==> s[j].transactionID != id)
          && Relevant(s[i]) && AtStart(s[i])
          && s[i].dnsLookupFailure.Some? && s[i].dnsLookupFailure.value == ""
          && Succeeded(s[i].control.dnsLookupFailure)
  {
    hide Dns, AfterAll, Relevant, AtStart, Succeeded;
    var v := AfterAll(geo, EMPTY, calls);
    IngestedIsValid(geo, calls);
    DnsMembers(ExpectedSuccess, env, v.failures, id);
    forall i {:trigger v.failures[i]} | 0 <= i < |v.failures|
      ensures v.failures[i].dnsLookupFailure.Some?
    {
      LookupHasItsFields(v, i);
    }
  }

  /** No event reports a failure without a text. */
  predicate FailuresHaveText(calls: seq<Call>) {
    forall c, i :: 0 <= c < |calls| && calls[c].DnsEvents? && 0 <= i < |calls[c].dns| ==> calls[c].dns[i].failure != Some("")
  }

  ghost predicate AllFailed(s: seq<Observation>) {
    forall i {:trigger s[i]} :: 0 <= i < |s| ==> Failed(s[i].dnsLookupFailure)
  }

  lemma {:induction false} FailuresOfFail(evs: seq<DnsEvent>)
    requires forall i :: 0 <= i < |evs| ==> evs[i].failure != Some("")
    ensures AllFailed(FailuresOf(evs))
  {
    if evs != [] {
      FailuresOfFail(evs[..|evs| - 1]);
    }
  }

  lemma PassKeepsAllFailed(pass: Pass, th: ThResponse, s: seq<Observation>)
    requires AllFailed(s)
    ensures AllFailed(Mapped(pass, th, s))
  {
    hide Apply, Mapped, Failed;
    var r := Mapped(pass, th, s);
    forall i {:trigger r[i]} | 0 <= i < |r|
      ensures Failed(r[i].dnsLookupFailure)
    {
      assert r[i] == Apply(pass, th, s[i]);
      PassKeepsProbePart(pass, th, s[i]);
      assert ProbePart(r[i]).dnsLookupFailure == r[i].dnsLookupFailure;
      assert ProbePart(s[i]).dnsLookupFailure == s[i].dnsLookupFailure;
    }
  }

  lemma {:induction false} LoadedFailuresFail(geo: Geo, calls: seq<Call>)
    requires FailuresHaveText(calls)
    ensures AllFailed(AfterAll(geo, EMPTY, calls).failures)
  {
    hide Failed, Mapped, MappedAt, FailuresOf, SuccessesOf, EndpointsOf, TlsOf, HttpOf;
    if calls != [] {
      var front, last := calls[..|calls| - 1], calls[|calls| - 1];
      LoadedFailuresFail(geo, front);
      var v := AfterAll(geo, EMPTY, front);
      hide AfterAll;
      AfterAllAppend(geo, EMPTY, front, last);
      assert calls == front + [last];
      match last
      case DnsEvents(evs) => FailuresOfFail(evs);
      case ControlMessages(domain, th) =>
        if domain.Some? {
          PassKeepsAllFailed(DnsPass(domain.value), th, v.failures);
          PassKeepsAllFailed(ExpectationPass, th, Mapped(DnsPass(domain.value), th, v.failures));
        }
      case _ =>
    }
  }

  /** Hence the set stays empty, whatever the control says, unless some event reports a failure without a text. */
  lemma ExpectedSuccessNeedsEmptyFailure(geo: Geo, env: Env, calls: seq<Call>)
    requires FailuresHaveText(calls)
    ensures Dns(ExpectedSuccess, env, AfterAll(geo, EMPTY, calls).failures) == {}
  {
    hide Dns, AfterAll;
    LoadedFailuresFail(geo, calls);
    forall id: TransactionID
      ensures id !in Dns(ExpectedSuccess, env, AfterAll(geo, EMPTY, calls).failures)
    {
      ExpectedSuccessMembers(geo, env, calls, id);
    }
  }
}
