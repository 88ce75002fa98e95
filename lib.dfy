/**
 * The worker's handler `set_record` (src/lib.rs): a chain of early-return
 * guards over the route parameters, the environment variables and the
 * request, then the reconcile step, which selects the record head-first
 * where the client of src/cf.rs scans tail-first.
 */
module Lib {
  import opened Wrappers
  import opened CfBase
  import Cf
  import Provider

  const MAX_DOMAIN_LEN := 64

  /** A response with its status code and body text. */
  datatype Response = Response(status: int, body: string)

  /**
   * The request as the handler reads it: route parameters, headers, and
   * the country the edge attributes the request to.
   */
  datatype WorkerRequest = WorkerRequest(params: map<string, string>, headers: map<string, string>, country: Option<string>)

  /** Environment variables by name. */
  type Vars = map<string, string>

  /** What the handler has gathered once every guard has passed. */
  datatype Reconcile = Reconcile(zoneId: string, email: string, key: string, domain: string, ip: string)

  /** Either an early response or the reconcile step to run. */
  datatype Guarded = Respond(response: Response) | Proceed(action: Reconcile)

  function Get(m: map<string, string>, k: string): Option<string> {
    if k in m then Some(m[k]) else None
  }

  /** `is_ascii_alphanumeric` or '.' */
  predicate IsDomainChar(c: char) {
    'a' <= c <= 'z' || 'A' <= c <= 'Z' || '0' <= c <= '9' || c == '.'
  }

  predicate ValidDomainChars(domain: string) {
    forall i :: 0 <= i < |domain| ==> IsDomainChar(domain[i])
  }

  /** The variable holding the token for `domain`. */
  function TokenVar(domain: string): string {
    "TOKEN_" + domain
  }

  function TokenRejected(domain: string): Response {
    Response(403, "Token not found or invalid for domain " + domain)
  }

  /**
   * The country restriction applies only when COUNTRY is set and not
   * empty and the request has a country.
   */
  predicate CountryRejects(req: WorkerRequest, vars: Vars) {
    "COUNTRY" in vars && req.country.Some? && vars["COUNTRY"] != "" && vars["COUNTRY"] != req.country.value
  }

  /** The address to update to: "force-ip", else (country permitting) "cf-connecting-ip". */
  function SelectIp(req: WorkerRequest, vars: Vars): (r: Result<string, Response>)
    ensures "force-ip" in req.headers ==> r == Ok(req.headers["force-ip"])
    ensures r.Err? && r.error.status == 403 <==> "force-ip" !in req.headers && CountryRejects(req, vars)
    ensures "force-ip" !in req.headers && CountryRejects(req, vars) ==>
      r == Err(Response(403, "Only available in " + vars["COUNTRY"] + ", your country is " + req.country.value))
    ensures "force-ip" !in req.headers && !CountryRejects(req, vars) ==>
      r == (if "cf-connecting-ip" in req.headers then Ok(req.headers["cf-connecting-ip"])
            else Err(Response(500, "Missing cf-connecting-ip")))
  {
    match Get(req.headers, "force-ip")
    case Some(ip) => Ok(ip)
    case None =>
      if CountryRejects(req, vars) then
        Err(Response(403, "Only available in " + vars["COUNTRY"] + ", your country is " + req.country.value))
      else
        match Get(req.headers, "cf-connecting-ip")
        case Some(ip) => Ok(ip)
        case None => Err(Response(500, "Missing cf-connecting-ip"))
  }

  /** The route parameters pass: a valid domain and the token configured for it. */
  predicate Authorized(req: WorkerRequest, vars: Vars) {
    && "token" in req.params && "domain" in req.params
    && var token, domain := req.params["token"], req.params["domain"];
    && ValidDomainChars(domain) && |domain| <= MAX_DOMAIN_LEN
    && TokenVar(domain) in vars && vars[TokenVar(domain)] == token
  }

  /** Everything the guards require, stated as one condition. */
  predicate Admits(req: WorkerRequest, vars: Vars) {
    && Authorized(req, vars)
    && "ZONE_ID" in vars && "EMAIL" in vars && "KEY" in vars
    && ("force-ip" in req.headers || (!CountryRejects(req, vars) && "cf-connecting-ip" in req.headers))
  }

  /** The guards of `set_record`, in the order the handler checks them. */
  function SetRecordGuards(req: WorkerRequest, vars: Vars): (g: Guarded)
    ensures "token" !in req.params ==> g == Respond(Response(403, "No token found"))
    ensures "token" in req.params && "domain" !in req.params ==> g == Respond(Response(400, "No domain found"))
    ensures "token" in req.params && "domain" in req.params ==>
      var token, domain := req.params["token"], req.params["domain"];
      && (!ValidDomainChars(domain) ==> g == Respond(Response(400, "Domain contains invalid characters")))
      && (ValidDomainChars(domain) && |domain| > MAX_DOMAIN_LEN ==> g == Respond(Response(400, "Domain is too long")))
      && ((ValidDomainChars(domain) && |domain| <= MAX_DOMAIN_LEN && (TokenVar(domain) !in vars || vars[TokenVar(domain)] != token))
          ==> g == Respond(TokenRejected(domain)))
    ensures Authorized(req, vars) && "ZONE_ID" !in vars ==> g == Respond(Response(500, "missing ZONE_ID"))
    ensures Authorized(req, vars) && "ZONE_ID" in vars && "EMAIL" !in vars ==> g == Respond(Response(500, "missing EMAIL"))
    ensures Authorized(req, vars) && "ZONE_ID" in vars && "EMAIL" in vars && "KEY" !in vars ==>
      g == Respond(Response(500, "missing KEY"))
    ensures Authorized(req, vars) && "ZONE_ID" in vars && "EMAIL" in vars && "KEY" in vars ==>
      g == (match SelectIp(req, vars)
            case Err(response) => Respond(response)
            case Ok(ip) => Proceed(Reconcile(vars["ZONE_ID"], vars["EMAIL"], vars["KEY"], req.params["domain"], ip)))
    ensures g.Proceed? <==> Admits(req, vars)
    ensures g.Proceed? ==>
      g.action == Reconcile(vars["ZONE_ID"], vars["EMAIL"], vars["KEY"], req.params["domain"],
                            if "force-ip" in req.headers then req.headers["force-ip"] else req.headers["cf-connecting-ip"])
  {
    if "token" !in req.params then Respond(Response(403, "No token found"))
    else if "domain" !in req.params then Respond(Response(400, "No domain found"))
    else
      var token, domain := req.params["token"], req.params["domain"];
      if !ValidDomainChars(domain) then Respond(Response(400, "Domain contains invalid characters"))
      else if |domain| > MAX_DOMAIN_LEN then Respond(Response(400, "Domain is too long"))
      else if TokenVar(domain) !in vars then Respond(TokenRejected(domain))
      else if vars[TokenVar(domain)] != token then Respond(TokenRejected(domain))
      else if "ZONE_ID" !in vars then Respond(Response(500, "missing ZONE_ID"))
      else if "EMAIL" !in vars then Respond(Response(500, "missing EMAIL"))
      else if "KEY" !in vars then Respond(Response(500, "missing KEY"))
      else
        match SelectIp(req, vars)
        case Err(response) => Respond(response)
        case Ok(ip) => Proceed(Reconcile(vars["ZONE_ID"], vars["EMAIL"], vars["KEY"], domain, ip))
  }

  /** A forced address skips the country restriction: COUNTRY and the request's country do not matter. */
  lemma ForceIpBypassesCountry(req: WorkerRequest, vars: Vars, country: Option<string>, restriction: string)
    requires "force-ip" in req.headers
    ensures SetRecordGuards(req, vars) == SetRecordGuards(req.(country := country), vars["COUNTRY" := restriction])
  {
    if "domain" in req.params {
      var domain := req.params["domain"];
      assert TokenVar(domain)[0] == 'T';
    }
  }

  /**
   * Without a forced address, a rejected country is the handler's answer
   * once the token and variables check out, whether or not the connecting
   * address is present.
   */
  lemma CountryCheckedFirst(req: WorkerRequest, vars: Vars)
    requires Authorized(req, vars) && "ZONE_ID" in vars && "EMAIL" in vars && "KEY" in vars
    requires "force-ip" !in req.headers && CountryRejects(req, vars)
    ensures SetRecordGuards(req, vars) ==
      Respond(Response(403, "Only available in " + vars["COUNTRY"] + ", your country is " + req.country.value))
    ensures SetRecordGuards(req, vars) == SetRecordGuards(req.(headers := req.headers - {"cf-connecting-ip"}), vars)
  {
  }

  /** A domain of exactly the maximal length passes the length check. */
  lemma MaxLengthPasses(req: WorkerRequest, vars: Vars)
    requires "token" in req.params && "domain" in req.params
    requires ValidDomainChars(req.params["domain"]) && |req.params["domain"]| == MAX_DOMAIN_LEN
    ensures SetRecordGuards(req, vars) != Respond(Response(400, "Domain is too long"))
  {
  }

  // ---------------------------------------------------------------------
  // Record selection

  /** `.into_iter().find(...)`: the first A record named exactly `domain`. */
  function FirstARecord(records: seq<DnsRecord>, domain: string): (r: Option<DnsRecord>)
    ensures r.Some? ==> r.value in records && Cf.IsARecordFor(r.value, domain)
  {
    if records == [] then None
    else if Cf.IsARecordFor(records[0], domain) then Some(records[0])
    else FirstARecord(records[1..], domain)
  }

  /** Nothing is found exactly when no record is an A record named `domain`. */
  lemma {:induction false} FirstARecordNone(records: seq<DnsRecord>, domain: string)
    ensures FirstARecord(records, domain).None? <==> forall i :: 0 <= i < |records| ==> !Cf.IsARecordFor(records[i], domain)
  {
    if records != [] {
      FirstARecordNone(records[1..], domain);
      assert forall i :: 1 <= i < |records| ==> records[1..][i - 1] == records[i];
    }
  }

  /** When something is found, it is the matching record nearest the head. */
  lemma {:induction false} FirstARecordIsFirstMatch(records: seq<DnsRecord>, domain: string, i: nat)
    requires i < |records| && Cf.IsARecordFor(records[i], domain)
    requires forall j :: 0 <= j < i ==> !Cf.IsARecordFor(records[j], domain)
    ensures FirstARecord(records, domain) == Some(records[i])
  {
    if i > 0 {
      var rest := records[1..];
      assert forall j :: 0 <= j < i - 1 ==> rest[j] == records[j + 1];
      FirstARecordIsFirstMatch(rest, domain, i - 1);
    }
  }

  /** Head-first and tail-first selection agree when at most one record matches. */
  lemma SelectionsAgreeOnUniqueMatch(records: seq<DnsRecord>, domain: string)
    requires Cf.AtMostOneMatch(records, domain)
    ensures FirstARecord(records, domain) == Cf.LastARecord(records, domain)
  {
    FirstARecordNone(records, domain);
    Cf.LastARecordNone(records, domain);
    if i :| 0 <= i < |records| && Cf.IsARecordFor(records[i], domain) {
      FirstARecordIsFirstMatch(records, domain, i);
      Cf.LastARecordIsLastMatch(records, domain, i);
    }
  }

  /** With two matching records the two selections part ways. */
  lemma SelectionsDifferOnDuplicates()
    ensures var first := DnsRecord("a.example.com", 60, true, A(Ipv4Addr(1, 1, 1, 1)), "r1", false);
      var second := DnsRecord("a.example.com", 60, true, A(Ipv4Addr(2, 2, 2, 2)), "r2", false);
      && FirstARecord([first, second], "a.example.com") == Some(first)
      && Cf.LastARecord([first, second], "a.example.com") == Some(second)
  {
    var first := DnsRecord("a.example.com", 60, true, A(Ipv4Addr(1, 1, 1, 1)), "r1", false);
    var second := DnsRecord("a.example.com", 60, true, A(Ipv4Addr(2, 2, 2, 2)), "r2", false);
    assert [first, second][..1] == [first];
  }

  // ---------------------------------------------------------------------
  // The reconcile step of set_record

  /** The calls the handler sent, in order, and what it returned (`Err` for a propagated error). */
  datatype Finish = Finish(calls: seq<Cf.Call>, outcome: Result<Response, string>)

  /** The text of an address that does not parse. */
  const INVALID_ADDRESS := "invalid IPv4 address syntax"

  const UPDATE_SUCCESS := Response(200, "Update success")

  /**
   * The handler after its guards: build the client, parse the address,
   * list the records, pick the first A record named `domain`, and update
   * it unless it already holds the address. `clientFailure` is the error
   * of building the client, if any; `list` and `update` are the provider's
   * answers to the two calls.
   */
  function ReconcileRecord(a: Reconcile, clientFailure: Option<string>, parse: string -> Option<Ipv4Addr>,
                           list: Result<seq<DnsRecord>, string>, update: Result<DnsRecord, string>): (f: Finish)
    ensures |f.calls| <= 2
    ensures clientFailure.Some? ==> f == Finish([], Err(clientFailure.value))
    ensures clientFailure.None? && parse(a.ip).None? ==> f == Finish([], Err(INVALID_ADDRESS))
    ensures clientFailure.None? && parse(a.ip).Some? ==> 1 <= |f.calls| && f.calls[0] == Cf.ListRecords(a.zoneId, Cf.ListQuery(a.domain))
    ensures clientFailure.None? && parse(a.ip).Some? && list.Err? ==>
      f == Finish([Cf.ListRecords(a.zoneId, Cf.ListQuery(a.domain))], Err(list.error))
    ensures clientFailure.None? && parse(a.ip).Some? && list.Ok? && FirstARecord(list.value, a.domain).None? ==>
      f == Finish([Cf.ListRecords(a.zoneId, Cf.ListQuery(a.domain))], Err("no record found"))
    ensures clientFailure.None? && parse(a.ip).Some? && list.Ok? && FirstARecord(list.value, a.domain).Some? ==>
      var record, ipv4 := FirstARecord(list.value, a.domain).value, parse(a.ip).value;
      (if record.content == A(ipv4) then f == Finish([Cf.ListRecords(a.zoneId, Cf.ListQuery(a.domain))], Ok(UPDATE_SUCCESS))
       else (|f.calls| == 2 && f.calls[1] == Cf.UpdateRecord(a.zoneId, record.id, Cf.UpdateParamsFor(record, ipv4))
             && f.outcome == (if update.Ok? then Ok(UPDATE_SUCCESS) else Err(update.error))))
    ensures f.outcome.Ok? ==> f.outcome.value == UPDATE_SUCCESS
  {
    match clientFailure
    case Some(e) => Finish([], Err(e))
    case None =>
      match parse(a.ip)
      case None => Finish([], Err(INVALID_ADDRESS))
      case Some(ipv4) =>
        var listCall := Cf.ListRecords(a.zoneId, Cf.ListQuery(a.domain));
        match list
        case Err(e) => Finish([listCall], Err(e))
        case Ok(records) =>
          match FirstARecord(records, a.domain)
          case None => Finish([listCall], Err("no record found"))
          case Some(record) =>
            if record.content == A(ipv4) then Finish([listCall], Ok(UPDATE_SUCCESS))
            else
              var updateCall := Cf.UpdateRecord(a.zoneId, record.id, Cf.UpdateParamsFor(record, ipv4));
              match update
              case Err(e) => Finish([listCall, updateCall], Err(e))
              case Ok(_) => Finish([listCall, updateCall], Ok(UPDATE_SUCCESS))
  }

  /** The calls of a client run. */
  function Calls(requests: seq<Cf.Request>): seq<Cf.Call> {
    seq(|requests|, i requires 0 <= i < |requests| => requests[i].call)
  }

  /**
   * When the zone holds at most one A record for the name, the handler
   * sends the same calls as the client's `update_dns` with the same
   * credentials.
   */
  lemma HandlerMatchesClient(a: Reconcile, parse: string -> Option<Ipv4Addr>, records: seq<DnsRecord>,
                             update: Result<DnsRecord, string>, list: Cf.Exchange<seq<DnsRecord>>, ex: Cf.Exchange<DnsRecord>)
    requires Cf.Lists(list, records) && Cf.AtMostOneMatch(records, a.domain)
    ensures ReconcileRecord(a, None, parse, Ok(records), update).calls
         == Calls(Cf.UpdateDns(UserAuthKey(a.email, a.key), a.zoneId, a.domain, a.ip, parse, list, ex).requests)
  {
    SelectionsAgreeOnUniqueMatch(records, a.domain);
  }

  /** After the provider applies the update, the first match holds the new content. */
  lemma {:induction false} FirstARecordAfterUpdate(zone: seq<DnsRecord>, domain: string, record: DnsRecord, p: UpdateDnsRecordParams)
    requires FirstARecord(zone, domain) == Some(record)
    requires p.name == domain && p.content.A?
    ensures var after := FirstARecord(Provider.ApplyUpdate(zone, record.id, p), domain);
      after.Some? && after.value.content == p.content
  {
    var updated := Provider.ApplyUpdate(zone, record.id, p);
    assert updated[0] == if zone[0].id == record.id then Provider.Patch(zone[0], p) else zone[0];
    if zone[0].id != record.id {
      assert updated[1..] == Provider.ApplyUpdate(zone[1..], record.id, p);
      FirstARecordAfterUpdate(zone[1..], domain, record, p);
    }
  }

  /**
   * Idempotence of the handler, for a repeat listing in the same order:
   * once its update is applied, a repeat sends no update.
   */
  lemma ReconcileIdempotent(a: Reconcile, parse: string -> Option<Ipv4Addr>, zone: seq<DnsRecord>,
                            update1: Result<DnsRecord, string>, update2: Result<DnsRecord, string>)
    requires |ReconcileRecord(a, None, parse, Ok(zone), update1).calls| == 2
    ensures var call := ReconcileRecord(a, None, parse, Ok(zone), update1).calls[1];
      ReconcileRecord(a, None, parse, Ok(Provider.ApplyUpdate(zone, call.recordId, call.body)), update2)
        == Finish([Cf.ListRecords(a.zoneId, Cf.ListQuery(a.domain))], Ok(UPDATE_SUCCESS))
  {
    var record := FirstARecord(zone, a.domain).value;
    FirstARecordAfterUpdate(zone, a.domain, record, Cf.UpdateParamsFor(record, parse(a.ip).value));
  }

  /**
   * Idempotence of the handler in any listing order: when at most one A
   * record carries the name, a repeat listing holding the updated zone's
   * records in any order sends no update and answers "Update success".
   */
  lemma ReconcileIdempotentAnyOrder(a: Reconcile, parse: string -> Option<Ipv4Addr>, zone: seq<DnsRecord>, zone2: seq<DnsRecord>,
                                    update1: Result<DnsRecord, string>, update2: Result<DnsRecord, string>)
    requires Cf.AtMostOneMatch(zone, a.domain)
    requires |ReconcileRecord(a, None, parse, Ok(zone), update1).calls| == 2
    requires var call := ReconcileRecord(a, None, parse, Ok(zone), update1).calls[1];
      multiset(zone2) == multiset(Provider.ApplyUpdate(zone, call.recordId, call.body))
    ensures ReconcileRecord(a, None, parse, Ok(zone2), update2)
         == Finish([Cf.ListRecords(a.zoneId, Cf.ListQuery(a.domain))], Ok(UPDATE_SUCCESS))
  {
    var record := FirstARecord(zone, a.domain).value;
    var p := Cf.UpdateParamsFor(record, parse(a.ip).value);
    var after := Provider.ApplyUpdate(zone, record.id, p);
    Cf.UpdatedZoneMatches(zone, a.domain, record, p);
    var k :| 0 <= k < |after| && Cf.IsARecordFor(after[k], a.domain);
    assert after[k] in multiset(zone2);
    FirstARecordNone(zone2, a.domain);
    var found := FirstARecord(zone2, a.domain).value;
    assert found in multiset(after);
  }
}
