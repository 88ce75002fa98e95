/**
 * The reconciliation client (src/cf.rs): find the A record of a domain,
 * and update it to the desired address unless it already holds it.
 * Each HTTP exchange is an input: what the transport and the provider
 * answered to the request the client sent.
 */
module Cf {
  import opened Wrappers
  import opened CfBase
  import Provider

  /** `StatusCode::is_success`: a 2xx status. */
  predicate IsSuccess(status: int) {
    200 <= status <= 299
  }

  /**
   * The errors `update_dns` can return: an address that does not parse,
   * "no record found", a transport or body-decoding failure, the provider's
   * structured error, and the generic "api error".
   */
  datatype Error =
    | InvalidAddress
    | RecordNotFound
    | Transport(detail: string)
    | Api(apiError: ApiError)
    | ApiGeneric

  /** The detail this model gives any reply body that cannot be read or decoded. */
  const BODY_DECODE_FAILURE := "error decoding response body"

  /** The endpoint a request targets, with its typed parameters. */
  datatype Call =
    | ListRecords(zoneId: string, query: ListDnsRecordsParams)
    | UpdateRecord(zoneId: string, recordId: string, body: UpdateDnsRecordParams)

  /** A request as handed to the transport. */
  datatype Request = Request(call: Call, headers: seq<Header>)

  /**
   * What came back for a request: no reply at all (building or sending
   * failed), or a status with what the body decodes to as a success
   * envelope and as an error set (None when it does not decode as that).
   */
  datatype Exchange<T> =
    | NoReply(detail: string)
    | Reply(status: int, asSuccess: Option<ApiSuccess<T>>, asErrors: Option<ApiErrors>)

  // ---------------------------------------------------------------------
  // do_request

  /** How `do_request` turns a reply into a result. */
  function ReplyOutcome<T>(ex: Exchange<T>): (r: Result<ApiSuccess<T>, Error>)
    ensures r.Ok? <==> ex.Reply? && IsSuccess(ex.status) && ex.asSuccess.Some?
    ensures r.Ok? ==> r.value == ex.asSuccess.value
    ensures r.Err? && r.error.Api? <==>
      ex.Reply? && !IsSuccess(ex.status) && ex.asErrors.Some? && ex.asErrors.value.errors != []
    ensures r.Err? && r.error.Api? ==>
      var errors := ex.asErrors.value.errors; r.error.apiError == errors[|errors| - 1]
    ensures r == Err(ApiGeneric) <==>
      ex.Reply? && !IsSuccess(ex.status) && ex.asErrors.Some? && ex.asErrors.value.errors == []
    ensures ex.NoReply? ==> r == Err(Transport(ex.detail))
    ensures ex.Reply? && (if IsSuccess(ex.status) then ex.asSuccess.None? else ex.asErrors.None?) ==>
      r == Err(Transport(BODY_DECODE_FAILURE))
  {
    match ex
    case NoReply(detail) => Err(Transport(detail))
    case Reply(status, asSuccess, asErrors) =>
      if IsSuccess(status) then
        match asSuccess
        case Some(envelope) => Ok(envelope)
        case None => Err(Transport(BODY_DECODE_FAILURE))
      else
        match asErrors
        case None => Err(Transport(BODY_DECODE_FAILURE))
        case Some(errorSet) =>
          if errorSet.errors != [] then Err(Api(errorSet.errors[|errorSet.errors| - 1])) else Err(ApiGeneric)
  }

  /**
   * Error sets that are equal under `PartialEq for ApiErrors` surface
   * errors that are equal under `PartialEq for ApiError`.
   */
  lemma ReplyOutcomeRespectsErrorsEq<T>(status: int, s1: Option<ApiSuccess<T>>, s2: Option<ApiSuccess<T>>, e1: ApiErrors, e2: ApiErrors)
    requires !IsSuccess(status) && ApiErrorsEq(e1, e2)
    ensures var r1, r2 := ReplyOutcome(Reply(status, s1, Some(e1))), ReplyOutcome(Reply(status, s2, Some(e2)));
      && (r1 == Err(ApiGeneric) <==> r2 == Err(ApiGeneric))
      && (r1.Err? && r1.error.Api? ==> r2.Err? && r2.error.Api? && ApiErrorEq(r1.error.apiError, r2.error.apiError))
  {
    ErrorListEqPointwise(e1.errors, e2.errors);
  }

  /**
   * Attaches the credential headers one by one, hands the request over,
   * and reads the reply as `ReplyOutcome` does.
   */
  method DoRequest<T>(creds: Credentials, call: Call, ex: Exchange<T>) returns (sent: Request, r: Result<ApiSuccess<T>, Error>)
    ensures sent == Request(call, Headers(creds))
    ensures r == ReplyOutcome(ex)
  {
    var req := Request(call, []);
    var headers := Headers(creds);
    for i := 0 to |headers|
      invariant req == Request(call, headers[..i])
    {
      req := req.(headers := req.headers + [headers[i]]);
    }
    sent := req;
    r := ReplyOutcome(ex);
  }

  // ---------------------------------------------------------------------
  // get_any_a_record

  /** An A record whose name is exactly `domain`. */
  predicate IsARecordFor(r: DnsRecord, domain: string) {
    r.name == domain && r.content.A?
  }

  /** What a scan from the tail returns: the last A record named `domain`. */
  function LastARecord(records: seq<DnsRecord>, domain: string): (r: Option<DnsRecord>)
    ensures r.Some? ==> r.value in records && IsARecordFor(r.value, domain)
  {
    if records == [] then None
    else if IsARecordFor(records[|records| - 1], domain) then Some(records[|records| - 1])
    else LastARecord(records[..|records| - 1], domain)
  }

  /** Nothing is found exactly when no record is an A record named `domain`. */
  lemma {:induction false} LastARecordNone(records: seq<DnsRecord>, domain: string)
    ensures LastARecord(records, domain).None? <==> forall i :: 0 <= i < |records| ==> !IsARecordFor(records[i], domain)
  {
    if records != [] {
      var prefix := records[..|records| - 1];
      LastARecordNone(prefix, domain);
      assert forall i :: 0 <= i < |prefix| ==> prefix[i] == records[i];
    }
  }

  /** When something is found, it is the matching record nearest the tail. */
  lemma {:induction false} LastARecordIsLastMatch(records: seq<DnsRecord>, domain: string, i: nat)
    requires i < |records| && IsARecordFor(records[i], domain)
    requires forall j :: i < j < |records| ==> !IsARecordFor(records[j], domain)
    ensures LastARecord(records, domain) == Some(records[i])
  {
    if i < |records| - 1 {
      var prefix := records[..|records| - 1];
      assert forall j :: i < j < |prefix| ==> prefix[j] == records[j];
      LastARecordIsLastMatch(prefix, domain, i);
    }
  }

  /** The list query: this name, match mode "any", nothing else. */
  function ListQuery(domain: string): (q: ListDnsRecordsParams)
    ensures SerializeList(q) == map["name" := Text(domain), "match" := Text("any")]
  {
    var q := DefaultListParams().(name := Some(domain), searchMatch := Some(Any));
    SerializeListValues(q);
    q
  }

  function ListRequest(creds: Credentials, zoneId: string, domain: string): Request {
    Request(ListRecords(zoneId, ListQuery(domain)), Headers(creds))
  }

  /** The lookup's result for a given reply to the list request. */
  function Lookup(domain: string, ex: Exchange<seq<DnsRecord>>): (r: Result<Option<DnsRecord>, Error>)
    ensures r.Err? <==> ReplyOutcome(ex).Err?
    ensures r.Err? ==> r.error == ReplyOutcome(ex).error
    ensures r.Ok? ==> ex.Reply? && IsSuccess(ex.status) && ex.asSuccess.Some?
    ensures r.Ok? ==> var records := ex.asSuccess.value.result;
      && (r.value.None? <==> forall i :: 0 <= i < |records| ==> !IsARecordFor(records[i], domain))
      && (r.value.Some? ==> r.value.value in records && IsARecordFor(r.value.value, domain))
  {
    match ReplyOutcome(ex)
    case Err(e) => Err(e)
    case Ok(envelope) =>
      LastARecordNone(envelope.result, domain);
      Ok(LastARecord(envelope.result, domain))
  }

  /**
   * Lists the zone's records for `domain`, then pops records off the tail
   * of the result until one is an A record named exactly `domain`.
   */
  method GetAnyARecord(creds: Credentials, zoneId: string, domain: string, ex: Exchange<seq<DnsRecord>>)
    returns (sent: Request, r: Result<Option<DnsRecord>, Error>)
    ensures sent == ListRequest(creds, zoneId, domain)
    ensures r == Lookup(domain, ex)
  {
    var listParam := DefaultListParams().(name := Some(domain), searchMatch := Some(Any));
    var resp;
    sent, resp := DoRequest(creds, ListRecords(zoneId, listParam), ex);
    if resp.Err? {
      return sent, Err(resp.error);
    }
    var result := resp.value.result;
    while result != []
      invariant LastARecord(result, domain) == LastARecord(resp.value.result, domain)
      decreases |result|
    {
      var record := result[|result| - 1];
      result := result[..|result| - 1];
      if IsARecordFor(record, domain) {
        return sent, Ok(Some(record));
      }
    }
    return sent, Ok(None);
  }

  // ---------------------------------------------------------------------
  // update_a_record and update_dns

  /** The fixed ttl of an update. */
  const UPDATE_TTL: U32 := 60

  /** The update body: same name, content A(ip), ttl 60, proxied left unset. */
  function UpdateParamsFor(record: DnsRecord, ip: Ipv4Addr): (p: UpdateDnsRecordParams)
    ensures SerializeUpdate(p) ==
      map["name" := Text(record.name), "type" := Text("A"), "content" := Text(Ipv4Text(ip)), "ttl" := Number(60)]
  {
    var p := UpdateDnsRecordParams(Some(UPDATE_TTL), None, record.name, A(ip));
    SerializeUpdateValues(p);
    p
  }

  function UpdateRequest(creds: Credentials, zoneId: string, record: DnsRecord, ip: Ipv4Addr): Request {
    Request(UpdateRecord(zoneId, record.id, UpdateParamsFor(record, ip)), Headers(creds))
  }

  /** One request and what came of it. */
  datatype Step<T> = Step(sent: Request, result: Result<T, Error>)

  /** Updates `record` to content A(ip) and returns the record the provider echoes. */
  function UpdateARecord(creds: Credentials, zoneId: string, record: DnsRecord, ip: Ipv4Addr, ex: Exchange<DnsRecord>): (s: Step<DnsRecord>)
    ensures s.sent == UpdateRequest(creds, zoneId, record, ip)
    ensures s.sent.call.UpdateRecord? && s.sent.call.recordId == record.id
    ensures s.sent.call.body.ttl == Some(60) && s.sent.call.body.proxied == None
    ensures s.sent.call.body.name == record.name && s.sent.call.body.content == A(ip)
    ensures s.result.Ok? <==> ReplyOutcome(ex).Ok?
    ensures s.result.Ok? ==> s.result.value == ex.asSuccess.value.result
    ensures s.result.Err? ==> s.result.error == ReplyOutcome(ex).error
  {
    Step(UpdateRequest(creds, zoneId, record, ip),
         match ReplyOutcome(ex)
         case Ok(envelope) => Ok(envelope.result)
         case Err(e) => Err(e))
  }

  /** The requests one `update_dns` call sent, in order, and its result. */
  datatype Run = Run(requests: seq<Request>, result: Result<(), Error>)

  /**
   * `update_dns`: parse the address, look the record up, and update it
   * unless it already holds the address. `parse` is IPv4 address parsing;
   * `list` and `update` are the replies to the two requests.
   */
  function UpdateDns(creds: Credentials, zoneId: string, domain: string, ip: string, parse: string -> Option<Ipv4Addr>,
                     list: Exchange<seq<DnsRecord>>, update: Exchange<DnsRecord>): (run: Run)
    ensures parse(ip).None? ==> run == Run([], Err(InvalidAddress))
    ensures |run.requests| <= 2
    ensures forall i :: 0 <= i < |run.requests| ==> run.requests[i].headers == Headers(creds)
    ensures parse(ip).Some? ==> 1 <= |run.requests| && run.requests[0] == ListRequest(creds, zoneId, domain)
    ensures parse(ip).Some? && Lookup(domain, list) == Ok(None) ==>
      run == Run([ListRequest(creds, zoneId, domain)], Err(RecordNotFound))
    ensures parse(ip).Some? && Lookup(domain, list).Err? ==>
      run == Run([ListRequest(creds, zoneId, domain)], Err(Lookup(domain, list).error))
    ensures parse(ip).Some? && Lookup(domain, list).Ok? && Lookup(domain, list).value.Some? ==>
      var record, ipv4 := Lookup(domain, list).value.value, parse(ip).value;
      (if record.content == A(ipv4) then run == Run([ListRequest(creds, zoneId, domain)], Ok(()))
       else (run.requests == [ListRequest(creds, zoneId, domain), UpdateRequest(creds, zoneId, record, ipv4)]
             && run.result == (match ReplyOutcome(update) case Ok(_) => Ok(()) case Err(e) => Err(e))))
  {
    match parse(ip)
    case None => Run([], Err(InvalidAddress))
    case Some(ipv4) =>
      var listSent := ListRequest(creds, zoneId, domain);
      match Lookup(domain, list)
      case Err(e) => Run([listSent], Err(e))
      case Ok(None) => Run([listSent], Err(RecordNotFound))
      case Ok(Some(record)) =>
        if record.content == A(ipv4) then Run([listSent], Ok(()))
        else
          var step := UpdateARecord(creds, zoneId, record, ipv4, update);
          Run([listSent, step.sent],
              match step.result
              case Ok(_) => Ok(())
              case Err(e) => Err(e))
  }

  // ---------------------------------------------------------------------
  // Idempotence

  /** A successful reply to the list request that carries `zone`. */
  predicate Lists(ex: Exchange<seq<DnsRecord>>, zone: seq<DnsRecord>) {
    ex.Reply? && IsSuccess(ex.status) && ex.asSuccess.Some? && ex.asSuccess.value.result == zone
  }

  /** After the provider applies the update, the last match holds the new content. */
  lemma {:induction false} LastARecordAfterUpdate(zone: seq<DnsRecord>, domain: string, record: DnsRecord, p: UpdateDnsRecordParams)
    requires LastARecord(zone, domain) == Some(record)
    requires p.name == domain && p.content.A?
    ensures var after := LastARecord(Provider.ApplyUpdate(zone, record.id, p), domain);
      after.Some? && after.value.content == p.content
  {
    var n := |zone|;
    var updated := Provider.ApplyUpdate(zone, record.id, p);
    assert updated[n - 1] == if zone[n - 1].id == record.id then Provider.Patch(zone[n - 1], p) else zone[n - 1];
    if zone[n - 1].id != record.id {
      assert updated[..n - 1] == Provider.ApplyUpdate(zone[..n - 1], record.id, p);
      LastARecordAfterUpdate(zone[..n - 1], domain, record, p);
    }
  }

  /** At most one A record carries the name. */
  predicate AtMostOneMatch(records: seq<DnsRecord>, domain: string) {
    forall i, j :: 0 <= i < |records| && 0 <= j < |records| && IsARecordFor(records[i], domain) && IsARecordFor(records[j], domain) ==> i == j
  }

  /**
   * When `record` is the only A record named `domain`, applying an update
   * for its id that keeps the name and sets A content leaves exactly the
   * updated record as the zone's match, holding the new content.
   */
  lemma UpdatedZoneMatches(zone: seq<DnsRecord>, domain: string, record: DnsRecord, p: UpdateDnsRecordParams)
    requires AtMostOneMatch(zone, domain)
    requires record in zone && IsARecordFor(record, domain)
    requires p.name == domain && p.content.A?
    ensures var after := Provider.ApplyUpdate(zone, record.id, p);
      && (exists k :: 0 <= k < |after| && IsARecordFor(after[k], domain))
      && (forall j :: 0 <= j < |after| && IsARecordFor(after[j], domain) ==> after[j].content == p.content)
  {
    var after := Provider.ApplyUpdate(zone, record.id, p);
    var k :| 0 <= k < |zone| && zone[k] == record;
    assert IsARecordFor(after[k], domain);
    forall j | 0 <= j < |after| && IsARecordFor(after[j], domain)
      ensures after[j].content == p.content
    {
      var original := zone[j];
      assert after[j] == if original.id == record.id then Provider.Patch(original, p) else original;
      assert original.id == record.id || IsARecordFor(original, domain);
      assert original.id == record.id;
    }
  }

  /**
   * Idempotence, for a repeat listing that comes back in the same order:
   * once the provider has applied the update a call issued, the same call
   * sends no update and succeeds.
   */
  lemma UpdateDnsIdempotent(creds: Credentials, zoneId: string, domain: string, ip: string, parse: string -> Option<Ipv4Addr>,
                            status1: int, page1: ApiSuccess<seq<DnsRecord>>, update1: Exchange<DnsRecord>,
                            status2: int, page2: ApiSuccess<seq<DnsRecord>>, update2: Exchange<DnsRecord>)
    requires IsSuccess(status1) && IsSuccess(status2)
    requires |UpdateDns(creds, zoneId, domain, ip, parse, Reply(status1, Some(page1), None), update1).requests| == 2
    ensures var call := UpdateDns(creds, zoneId, domain, ip, parse, Reply(status1, Some(page1), None), update1).requests[1].call;
      var after := page2.(result := Provider.ApplyUpdate(page1.result, call.recordId, call.body));
      UpdateDns(creds, zoneId, domain, ip, parse, Reply(status2, Some(after), None), update2)
        == Run([ListRequest(creds, zoneId, domain)], Ok(()))
  {
    var zone := page1.result;
    var record := LastARecord(zone, domain).value;
    var ipv4 := parse(ip).value;
    LastARecordAfterUpdate(zone, domain, record, UpdateParamsFor(record, ipv4));
  }

  /**
   * Idempotence in any listing order: when at most one A record carries
   * the name, a repeat listing holding the updated zone's records in any
   * order makes the same call send no update and succeed.
   */
  lemma UpdateDnsIdempotentAnyOrder(creds: Credentials, zoneId: string, domain: string, ip: string, parse: string -> Option<Ipv4Addr>,
                                    status1: int, page1: ApiSuccess<seq<DnsRecord>>, update1: Exchange<DnsRecord>,
                                    status2: int, page2: ApiSuccess<seq<DnsRecord>>, update2: Exchange<DnsRecord>)
    requires IsSuccess(status1) && IsSuccess(status2)
    requires AtMostOneMatch(page1.result, domain)
    requires |UpdateDns(creds, zoneId, domain, ip, parse, Reply(status1, Some(page1), None), update1).requests| == 2
    requires var call := UpdateDns(creds, zoneId, domain, ip, parse, Reply(status1, Some(page1), None), update1).requests[1].call;
      multiset(page2.result) == multiset(Provider.ApplyUpdate(page1.result, call.recordId, call.body))
    ensures UpdateDns(creds, zoneId, domain, ip, parse, Reply(status2, Some(page2), None), update2)
         == Run([ListRequest(creds, zoneId, domain)], Ok(()))
  {
    var zone := page1.result;
    var record := LastARecord(zone, domain).value;
    var p := UpdateParamsFor(record, parse(ip).value);
    var after := Provider.ApplyUpdate(zone, record.id, p);
    UpdatedZoneMatches(zone, domain, record, p);
    var k :| 0 <= k < |after| && IsARecordFor(after[k], domain);
    assert after[k] in multiset(page2.result);
    LastARecordNone(page2.result, domain);
    var found := LastARecord(page2.result, domain).value;
    assert found in multiset(after);
  }

  // ---------------------------------------------------------------------
  // Scenarios

  /** An update is needed: the record is updated to the new address with ttl 60. */
  lemma ScenarioUpdateNeeded(creds: Credentials, parse: string -> Option<Ipv4Addr>, update: Exchange<DnsRecord>)
    requires parse("5.6.7.8") == Some(Ipv4Addr(5, 6, 7, 8))
    requires ReplyOutcome(update).Ok?
    ensures var record := DnsRecord("a.example.com", 300, true, A(Ipv4Addr(1, 2, 3, 4)), "r1", false);
      var run := UpdateDns(creds, "Z1", "a.example.com", "5.6.7.8", parse,
                           Reply(200, Some(ApiSuccess([record], None, Json("[]"), [])), None), update);
      && run.result == Ok(())
      && |run.requests| == 2
      && run.requests[1].call == UpdateRecord("Z1", "r1", UpdateDnsRecordParams(Some(60), None, "a.example.com", A(Ipv4Addr(5, 6, 7, 8))))
  {
  }

  /** The provider's error for the update is surfaced with its code and message. */
  lemma ScenarioProviderError(creds: Credentials, parse: string -> Option<Ipv4Addr>)
    requires parse("5.6.7.8") == Some(Ipv4Addr(5, 6, 7, 8))
    ensures var record := DnsRecord("a.example.com", 300, true, A(Ipv4Addr(1, 2, 3, 4)), "r1", false);
      var failure := ApiError(9003, "Invalid zone", map[]);
      var run := UpdateDns(creds, "Z1", "a.example.com", "5.6.7.8", parse,
                           Reply(200, Some(ApiSuccess([record], None, Json("[]"), [])), None),
                           Reply(400, None, Some(ApiErrors(map[], [failure]))));
      run.result == Err(Api(failure))
  {
  }

  /** The surfaced error displays its code and message. */
  lemma ScenarioProviderErrorText()
    ensures Display(ApiError(9003, "Invalid zone", map[])) == "Error 9003: Invalid zone"
  {
    assert Decimal.Decimal(9) == "9";
    assert Decimal.Decimal(90) == "90";
    assert Decimal.Decimal(900) == "900";
    assert Decimal.Decimal(9003) == "9003";
    assert "Error " + "9003" + ": " + "Invalid zone" == "Error 9003: Invalid zone";
  }
}
