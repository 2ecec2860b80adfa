/** What the sets of the analysis contain, in terms of the fields of observations (pkg/minipipeline/analysis.go). */
module AnalysisMeaning {
  import opened Optional
  import opened Observations
  import opened Containers
  import opened Analysis
  import DnsDiff
  import Linear

  // ----- lookups

  /** Some address, not the empty one, is in both sets. */
  ghost predicate ShareAddress(measurement: set<string>, control: set<string>) {
    exists ip :: ip != "" && ip in measurement && ip in control
  }

  /** An address of each set is in one autonomous system, whose number is positive. */
  ghost predicate ShareSystem(lookup: DnsDiff.Lookup, measurement: set<string>, control: set<string>) {
    exists x, y :: x in measurement && y in control && SameSystem(lookup, x, y)
  }

  predicate SameSystem(lookup: DnsDiff.Lookup, x: string, y: string) {
    lookup(x).Some? && lookup(y).Some? && lookup(x).value == lookup(y).value && lookup(x).value > 0
  }

  lemma CommonAddress(a: set<string>, b: set<string>)
    ensures a * b - {""} != {} <==> ShareAddress(a, b)
  {
    if ip :| ip != "" && ip in a && ip in b {
      assert ip in a * b - {""};
    }
    if a * b - {""} != {} {
      var ip :| ip in a * b - {""};
    }
  }

  lemma SystemsMember(lookup: DnsDiff.Lookup, s: set<string>, asn: int)
    ensures asn in DnsDiff.ASNs(lookup, s) <==> exists x :: x in s && lookup(x).Some? && lookup(x).value == asn && asn > 0
  {
  }

  lemma Element<T>(s: set<T>) returns (x: T)
    requires s != {}
    ensures x in s
  {
    x :| x in s;
  }

  lemma CommonSystem(lookup: DnsDiff.Lookup, a: set<string>, b: set<string>)
    ensures DnsDiff.ASNs(lookup, a) * DnsDiff.ASNs(lookup, b) != {} <==> ShareSystem(lookup, a, b)
  {
    hide DnsDiff.ASNs;
    if ShareSystem(lookup, a, b) {
      var x, y :| x in a && y in b && SameSystem(lookup, x, y);
      SystemsMember(lookup, a, lookup(x).value);
      SystemsMember(lookup, b, lookup(x).value);
      assert lookup(x).value in DnsDiff.ASNs(lookup, a) * DnsDiff.ASNs(lookup, b);
    }
    if DnsDiff.ASNs(lookup, a) * DnsDiff.ASNs(lookup, b) != {} {
      var asn := Element(DnsDiff.ASNs(lookup, a) * DnsDiff.ASNs(lookup, b));
      SystemsMember(lookup, a, asn);
      SystemsMember(lookup, b, asn);
      var x :| x in a && lookup(x).Some? && lookup(x).value == asn && asn > 0;
      var y :| y in b && lookup(y).Some? && lookup(y).value == asn && asn > 0;
      assert SameSystem(lookup, x, y);
    }
  }

  /** The first lookup of a transaction. */
  predicate IsFirstOf(s: seq<Observation>, i: nat, id: TransactionID) {
    i < |s| && s[i].transactionID == id && forall j {:trigger s[j]} :: 0 <= j < i ==> s[j].transactionID != id
  }

  lemma DecidedByFirst(metric: DnsMetric, env: Env, s: seq<Observation>, i: nat, id: TransactionID)
    requires IsFirstOf(s, i, id)
    ensures id in Dns(metric, env, s) <==> DnsIs(metric, env, s[i])
  {
    hide DnsIs, Dns;
    DnsMembers(metric, env, s, id);
    if id in Dns(metric, env, s) {
      var k {:trigger s[k]} :| 0 <= k < |s| && s[k].transactionID == id && DnsIs(metric, env, s[k])
                               && forall j {:trigger s[j]} :: 0 <= j < k ==> s[j].transactionID != id;
      assert k == i;
    }
  }

  /** The sets of lookups are decided by the first lookup of a transaction: it counts when it belongs to the initial
      request; it is a bogon when its address is; it is valid or invalid when the control has addresses, valid when one
      is in both sets or two are in one system, and invalid otherwise. */
  lemma SuccessSetsMean(env: Env, s: seq<Observation>, i: nat, id: TransactionID)
    requires IsFirstOf(s, i, id)
    ensures
      var o := s[i];
      var atStart := o.tagDepth.Some? && o.tagDepth.value == 0;
      var compared := atStart && o.dnsResolvedAddrs.Some? && o.control.dnsResolvedAddrs.Some?;
      && (id in Dns(Success, env, s) <==> atStart)
      && (id in Dns(Bogon, env, s) <==> atStart && o.ipAddressBogon.Some? && o.ipAddressBogon.value)
      && (id in Dns(Valid, env, s) <==>
            compared && (|| ShareAddress(o.dnsResolvedAddrs.value, o.control.dnsResolvedAddrs.value)
                         || ShareSystem(env.lookup, o.dnsResolvedAddrs.value, o.control.dnsResolvedAddrs.value)))
      && (id in Dns(Invalid, env, s) <==>
            compared && !ShareAddress(o.dnsResolvedAddrs.value, o.control.dnsResolvedAddrs.value)
            && !ShareSystem(env.lookup, o.dnsResolvedAddrs.value, o.control.dnsResolvedAddrs.value))
  {
    hide Dns, ShareAddress, ShareSystem, DnsDiff.ASNs;
    DecidedByFirst(Success, env, s, i, id);
    DecidedByFirst(Bogon, env, s, i, id);
    DecidedByFirst(Valid, env, s, i, id);
    DecidedByFirst(Invalid, env, s, i, id);
    var o := s[i];
    if o.dnsResolvedAddrs.Some? && o.control.dnsResolvedAddrs.Some? {
      CommonAddress(o.dnsResolvedAddrs.value, o.control.dnsResolvedAddrs.value);
      CommonSystem(env.lookup, o.dnsResolvedAddrs.value, o.control.dnsResolvedAddrs.value);
    }
  }

  /** A failed lookup that says nothing: it is about the server of DNS over HTTPS, or only an AAAA record is missing. */
  predicate SaysNothing(o: Observation) {
    || (o.dnsEngine.Some? && o.dnsEngine.value == "doh")
    || (&& o.dnsQueryType.Some? && o.dnsQueryType.value == "AAAA"
        && o.dnsLookupFailure.Some? && o.dnsLookupFailure.value == "dns_no_answer")
  }

  predicate HasText(f: Option<string>, text: string) {
    f.Some? && f.value == text
  }

  /** No answer on both sides: the control reports it by having no addresses. */
  predicate NeitherHasAnswer(o: Observation) {
    HasText(o.dnsLookupFailure, "dns_no_answer") && o.control.dnsResolvedAddrs.Some? && o.control.dnsResolvedAddrs.value == {}
  }

  /** A failed lookup of the initial request is expected when the control's failed too, or neither has an answer, and
      unexpected when the control's succeeded otherwise; a failed lookup of a redirect is unexplained. */
  lemma FailureSetsMean(env: Env, s: seq<Observation>, i: nat, id: TransactionID)
    requires IsFirstOf(s, i, id) && s[i].dnsLookupFailure.Some?
    ensures
      var o := s[i];
      var atStart := o.tagDepth.Some? && o.tagDepth.value == 0;
      var failed := o.dnsLookupFailure.value != "" && !SaysNothing(o);
      var control := o.control.dnsLookupFailure;
      && (id in Dns(Unexplained, env, s) <==> failed && !atStart)
      && (id in Dns(Expected, env, s) <==>
            failed && atStart && control.Some? && (control.value != "" || NeitherHasAnswer(o)))
      && (id in Dns(Unexpected, env, s) <==>
            failed && atStart && control.Some? && control.value == "" && !NeitherHasAnswer(o))
      && (id in Dns(ExpectedSuccess, env, s) <==>
            o.dnsLookupFailure.value == "" && !SaysNothing(o) && atStart && control.Some? && control.value == "")
  {
    hide Dns;
    DecidedByFirst(Unexplained, env, s, i, id);
    DecidedByFirst(Expected, env, s, i, id);
    DecidedByFirst(Unexpected, env, s, i, id);
    DecidedByFirst(ExpectedSuccess, env, s, i, id);
  }

  /** A transaction without lookups is in none of the sets. */
  lemma WithoutLookups(metric: DnsMetric, env: Env, s: seq<Observation>, id: TransactionID)
    requires forall i {:trigger s[i]} :: 0 <= i < |s| ==> s[i].transactionID != id
    ensures id !in Dns(metric, env, s)
  {
    hide Dns, DnsIs;
    DnsMembers(metric, env, s, id);
  }

  /** The lookups that a successful handshake confirms. */
  lemma ConfirmedMeans(m: map<TransactionID, Observation>, id: TransactionID)
    ensures id in TlsConfirmed(m) <==>
              id > 0 && exists k {:trigger m[k]} :: k in m && HasText(m[k].tlsHandshakeFailure, "")
                                                   && m[k].dnsTransactionID.Some? && m[k].dnsTransactionID.value == id
  {
  }

  /** A first lookup of its transaction that failed, says something and belongs to the initial request. */
  predicate IsFirstFailure(s: seq<Observation>, i: nat) {
    && i < |s| && IsFirstOf(s, i, s[i].transactionID)
    && s[i].dnsLookupFailure.Some? && s[i].dnsLookupFailure.value != "" && !SaysNothing(s[i])
    && s[i].tagDepth.Some? && s[i].tagDepth.value == 0
  }

  /** The failure of the experiment is that of the first such lookup, if there is one. */
  lemma {:induction false} ExperimentFailureMeans(env: Env, s: seq<Observation>, i: nat)
    ensures (forall j {:trigger IsFirstFailure(s, j)} :: !IsFirstFailure(s, j)) <==> ExperimentFailure(env, s) == None
    ensures IsFirstFailure(s, i) && (forall j {:trigger IsFirstFailure(s, j)} :: IsFirstFailure(s, j) ==> i <= j) ==>
              ExperimentFailure(env, s) == s[i].dnsLookupFailure
    decreases |s|
  {
    if s != [] {
      var n := |s| - 1;
      FirstFailureOfFront(s);
      LastIsFirstFailure(s);
      hide IsFirstFailure, IsFirstOf;
      hide SaysNothing;
      ExperimentFailureMeans(env, s[..n], i);
      assert forall j: nat {:trigger IsFirstFailure(s, j)} :: IsFirstFailure(s, j) ==> IsFirstFailure(s[..n], j) || j == n;
    }
  }

  lemma FirstFailureOfFront(s: seq<Observation>)
    requires s != []
    ensures forall j: nat {:trigger IsFirstFailure(s, j)} {:trigger IsFirstFailure(s[..|s| - 1], j)} ::
              IsFirstFailure(s[..|s| - 1], j) <==> IsFirstFailure(s, j) && j < |s| - 1
    ensures forall j: nat {:trigger IsFirstFailure(s, j)} :: IsFirstFailure(s, j) ==> j <= |s| - 1
  {
    var front := s[..|s| - 1];
    assert forall k {:trigger s[k]} {:trigger front[k]} :: 0 <= k < |front| ==> front[k] == s[k];
  }

  lemma LastIsFirstFailure(s: seq<Observation>)
    requires s != []
    ensures
      var n := |s| - 1;
      IsFirstFailure(s, n) <==>
        s[n].transactionID !in Ids(s[..n]) && Relevant(s[n]) && AtStart(s[n]) && Failed(s[n].dnsLookupFailure)
  {
    var n := |s| - 1;
    var front := s[..n];
    assert forall k {:trigger s[k]} {:trigger front[k]} :: 0 <= k < n ==> front[k] == s[k];
  }

  // ----- endpoints

  predicate LacksIPv6(env: Env, o: Observation) {
    && (HasText(o.tcpConnectFailure, "network_unreachable") || HasText(o.tcpConnectFailure, "host_unreachable"))
    && env.isIPv6(o.ipAddress.UnwrapOr(""))
  }

  predicate DidFail(f: Option<string>) {
    f.Some? && f.value != ""
  }

  /** Whether an endpoint has the tag; `None` stands for any. */
  predicate HasTag(o: Observation, fetchBody: Option<bool>) {
    fetchBody.None? || (o.tagFetchBody.Some? && o.tagFetchBody.value == fetchBody.value)
  }

  function TagOf(fetchBody: Option<bool>): Tag {
    if fetchBody.None? then AnyTag else if fetchBody.value then WebFetch else ConnectivityCheck
  }

  /** An endpoint whose connect or handshake failed is counted as expected, unexpected or unexplained by whether it
      belongs to the initial request and what the control saw; connects that only lack IPv6 are left out. */
  lemma EndpointSetsMean(env: Env, m: map<TransactionID, Observation>, id: TransactionID, fetchBody: Option<bool>)
    requires id in m
    ensures
      var o, tag := m[id], TagOf(fetchBody);
      var atStart := o.tagDepth.Some? && o.tagDepth.value == 0;
      && (id in Endpoints(TcpExpected, env, m, {}) <==>
            DidFail(o.tcpConnectFailure) && atStart && DidFail(o.control.tcpConnectFailure))
      && (id in Endpoints(TcpUnexpected(tag), env, m, {}) <==>
            DidFail(o.tcpConnectFailure) && atStart && HasText(o.control.tcpConnectFailure, "") && !LacksIPv6(env, o) && HasTag(o, fetchBody))
      && (id in Endpoints(TcpUnexplained(tag), env, m, {}) <==>
            DidFail(o.tcpConnectFailure) && !atStart && !LacksIPv6(env, o) && HasTag(o, fetchBody))
      && (id in Endpoints(TlsExpected, env, m, {}) <==>
            DidFail(o.tlsHandshakeFailure) && atStart && DidFail(o.control.tlsHandshakeFailure))
      && (id in Endpoints(TlsUnexpected(tag), env, m, {}) <==>
            DidFail(o.tlsHandshakeFailure) && atStart && HasText(o.control.tlsHandshakeFailure, "") && HasTag(o, fetchBody))
      && (id in Endpoints(TlsUnexplained(tag), env, m, {}) <==>
            DidFail(o.tlsHandshakeFailure) && !atStart && HasTag(o, fetchBody))
      && (id in Endpoints(HttpUnexpected, env, m, {}) <==> DidFail(o.httpFailure) && HasText(o.control.httpFailure, ""))
      && (id in Endpoints(HttpUnexplained, env, m, {}) <==> DidFail(o.httpFailure) && o.control.httpFailure.None?)
  {
  }

  lemma OnlyEndpoints(metric: Metric, env: Env, m: map<TransactionID, Observation>)
    ensures Endpoints(metric, env, m, {}) <= m.Keys
  {
    hide Is;
  }

  // ----- the final response

  /** A final response is recorded with its transaction in one of four places: over TLS or TCP, with or without the
      control's response; only with it is anything compared. */
  lemma RecordedMeans(env: Env, id: TransactionID, o: Observation)
    requires ValidEndpoint(id, o) && AssertionHolds(o)
    ensures
      var r := Recorded(env, o);
      var tls, control := o.tlsHandshakeFailure.Some?, o.control.httpFailure.Some?;
      var tlsSucceeded := HasText(o.tlsHandshakeFailure, "");
      && r.successTLSWithControl == (if control && tls then Some(id) else None)
      && r.successTCPWithControl == (if control && !tls then Some(id) else None)
      && r.successTLSWithoutControl == (if !control && tlsSucceeded then Some(id) else None)
      && r.successTCPWithoutControl == (if !control && !tlsSucceeded then Some(id) else None)
      && (!control ==> r.bodyProportionFactor == None && r.statusCodeMatch == None
                       && r.uncommonHeadersIntersection == None && r.titleDifferentLongWords == None)
      && (control ==> IsComparedBody(env, o, r.bodyProportionFactor) && IsComparedHead(env, o, r))
  {
  }

  predicate IsPositive(n: Option<int>) {
    n.Some? && n.value > 0
  }

  /** The lengths of the bodies are compared when both are positive and the probe's body is known to be whole. */
  predicate IsComparedBody(env: Env, o: Observation, proportion: Option<real>) {
    if IsPositive(o.httpResponse.bodyLength) && IsPositive(o.control.httpBodyLength)
       && o.httpResponse.bodyIsTruncated.Some? && !o.httpResponse.bodyIsTruncated.value
    then proportion == Some(env.proportion(o.httpResponse.bodyLength.value, o.control.httpBodyLength.value))
    else proportion == None
  }

  /** Status codes are compared when there are both; headers and titles when the control has a status code. */
  predicate IsComparedHead(env: Env, o: Observation, r: FinalResponse) {
    && r.statusCodeMatch == (if IsPositive(o.httpResponse.statusCode) && IsPositive(o.control.httpStatusCode)
                             then env.statusCodeMatch(o.httpResponse.statusCode.value, o.control.httpStatusCode.value) else None)
    && (!IsPositive(o.control.httpStatusCode) ==> r.uncommonHeadersIntersection == None && r.titleDifferentLongWords == None)
    && (IsPositive(o.control.httpStatusCode) ==>
          && r.uncommonHeadersIntersection
             == Some(env.commonHeaders(o.httpResponse.headersKeys.UnwrapOr({}), o.control.httpHeadersKeys.UnwrapOr({})))
          && r.titleDifferentLongWords
             == Some(env.differentWords(o.httpResponse.title.UnwrapOr(""), o.control.httpTitle.UnwrapOr(""))))
  }

  predicate HasFinalResponse(o: Observation) {
    o.httpResponse.isFinal.Some? && o.httpResponse.isFinal.value
  }

  /** An iteration of the endpoints comes to its first final response: it is recorded, unless the control has a response
      and the handshake failed, which panics. */
  lemma OutcomeMeans(env: Env, m: map<TransactionID, Observation>, order: seq<TransactionID>, i: nat)
    requires Linear.IterationOrder(m, order)
    ensures (forall k {:trigger m[k]} :: k in m ==> !HasFinalResponse(m[k])) <==> Outcome(env, m, order) == NothingFinal
    ensures i < |order| && HasFinalResponse(m[order[i]]) && (forall j :: 0 <= j < i ==> !HasFinalResponse(m[order[j]])) ==>
              var o := m[order[i]];
              Outcome(env, m, order)
              == if o.control.httpFailure.Some? && DidFail(o.tlsHandshakeFailure) then Panic else RecordedFinal(Recorded(env, o))
  {
    hide Recorded;
    var n := FirstFinalIndex(m, order);
    FirstFinalAt(m, order, n);
    if forall k {:trigger m[k]} :: k in m ==> !HasFinalResponse(m[k]) {
      assert n == |order|;
    }
    if n == |order| {
      forall k {:trigger m[k]} | k in m
        ensures !HasFinalResponse(m[k])
      {
        var j :| 0 <= j < |order| && order[j] == k;
      }
    }
  }

  lemma FirstFinalIndex(m: map<TransactionID, Observation>, order: seq<TransactionID>) returns (n: nat)
    requires forall i :: 0 <= i < |order| ==> order[i] in m
    ensures n <= |order| && forall j :: 0 <= j < n ==> !HasFinalResponse(m[order[j]])
    ensures n < |order| ==> HasFinalResponse(m[order[n]])
  {
    n := 0;
    while n < |order| && !HasFinalResponse(m[order[n]])
      invariant n <= |order| && forall j :: 0 <= j < n ==> !HasFinalResponse(m[order[j]])
    {
      n := n + 1;
    }
  }
}
