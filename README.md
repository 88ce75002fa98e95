# ddns-worker: a verified model of the DNS reconciliation core

This project models the core of a Cloudflare dynamic-DNS worker. Given a
domain and an IPv4 address, the worker makes the zone's A record for that
domain hold the address, through the provider's DNS API. Three parts are modelled:

- `cf_base.dfy` (module `CfBase`, from `src/cf_base.rs`) holds the provider's data model:
  - record content as a union tagged by `"type"`, and records;
  - the list and update parameters, with their serialisation rules: absent fields are omitted, `search_match` is sent as `"match"`, enums are lower-case or `asc`/`desc`, and content is flattened next to its discriminant;
  - the headers each credential variant sends;
  - the error payloads, whose equality compares only code and message, and whose display is `Error <code>: <message>`.
- `cf.dfy` (module `Cf`, from `src/cf.rs`) is the reconciliation client:
  - `DoRequest` attaches the headers in a loop and reads the reply. A non-success reply surfaces the *last* error of the error set, or the generic error when the set is empty.
  - `GetAnyARecord` pops records off the tail of the list result until it finds an A record named exactly after the domain.
  - `UpdateDns` is the four-way decision: the address does not parse; no record is found; the record is already correct, so nothing is sent; or an update is sent with ttl 60 and proxied left unset.
  - Each HTTP exchange is an input (`Exchange`). `Run` records the requests a call sent and its result.
  - Idempotence is proved: once the provider has applied the update a call sent, a repeat call sends no update. One form assumes the repeat listing is the patched first listing in the same order. The other form allows any order, provided at most one A record carries the name.
- `lib.dfy` (module `Lib`, from `src/lib.rs`) is the handler `set_record`:
  - `SetRecordGuards` is its chain of early returns. It answers with a status and message, or proceeds to the reconcile step with the gathered zone, credentials, domain and address.
  - `ReconcileRecord` is that step. It selects the record head-first (`find`), whereas the client scans tail-first.
  - The two selections agree when at most one A record carries the name, and a two-record zone shows them disagreeing.
  - Under that condition, the handler sends the same calls as the client.

Support modules:

- `wrappers.dfy` holds `Option` and `Result`.
- `decimal.dfy` is the `{}` formatting of an unsigned integer, with its inverse.
- `provider.dfy` models how the remote side applies an update to a zone. It is the environment of the idempotence lemmas and is not part of the repository's code.

`src/lib.rs` declares only `mod utils;` (line 13), so `cf.rs` and `cf_base.rs` are not compiled into the worker. The handler uses the external `cloudflare` crate instead. Its record, content and parameter types have the shape of `cf_base.rs`, and the model reuses them. The crate's own transport and error types are not part of this model. Their errors are opaque strings here.

## Model

| member | source | states |
|---|---|---|
| Decimal.Decimal | src/cf_base.rs:189 | an unsigned code is written as a non-empty string of digits that starts with '0' only for zero |
| Decimal.DecimalRoundTrip | src/cf_base.rs:189 | reading the written digits back gives the number |
| CfBase.ContentFields | src/cf_base.rs:14-38 | content serialises as a "type" discriminant plus its own fields at the same level; "priority" appears only for MX |
| CfBase.ContentRoundTrip | src/cf_base.rs:27-38 | every content variant deserialises back to itself from its flattened fields, given that IPv4 text parses back |
| CfBase.ContentFromFields | src/cf_base.rs:27-38 | reading content back needs "type" and "content"; the variant named by "type" is rebuilt from "content" (parsed as an address for A), and MX also needs "priority" |
| CfBase.RenamesInjective | src/cf_base.rs:66-93 | the lower-case order names, "asc"/"desc" and "all"/"any" each name exactly one variant |
| CfBase.SerializeList | src/cf_base.rs:95-107 | a query key is present exactly when its field is Some; the flattened "type" and "content" appear exactly when `record_type` is Some, and "priority" only for MX; `search_match` appears as "match"; no other keys exist |
| CfBase.SerializeListValues | src/cf_base.rs:95-107 | each present field is sent with its rendered value: "match" as "all"/"any", order lower-case, direction "asc"/"desc", content flattened |
| CfBase.DefaultListIsEmpty | src/cf_base.rs:95-107 | the default parameters serialise to no keys at all |
| CfBase.SerializeUpdate | src/cf_base.rs:109-123 | the update body always has "name" and the content fields; it has "ttl" and "proxied" exactly when they are Some |
| CfBase.SerializeUpdateValues | src/cf_base.rs:109-123 | the body carries the name, the content fields, and the given ttl and proxied values |
| CfBase.Headers | src/cf_base.rs:132-149 | every variant yields one or two headers with distinct names, all from the four authentication header names |
| CfBase.HeadersOfEachVariant | src/cf_base.rs:135-147 | key pair: exactly X-Auth-Email then X-Auth-Key; token: exactly Authorization "Bearer <token>"; service: exactly X-Auth-User-Service-Key |
| CfBase.HeadersRoundTrip | src/cf_base.rs:133-149 | a receiver can recover the credentials from the headers they produce |
| CfBase.HeadersInjective | src/cf_base.rs:133-149 | two credentials send the same headers exactly when they are equal |
| CfBase.ApiErrorEqIgnoresOther | src/cf_base.rs:177-181 | two errors are equal exactly when they agree on everything except `other` |
| CfBase.ApiErrorEqIsEquivalence | src/cf_base.rs:177-183 | error equality is reflexive, symmetric and transitive |
| CfBase.ErrorListEqPointwise | src/cf_base.rs:171-175 | error sets are equal exactly when their lists have one length and are equal position by position |
| CfBase.ApiErrorsEqIsEquivalence | src/cf_base.rs:171-184 | error-set equality is an equivalence and ignores the top-level `other` |
| CfBase.Display | src/cf_base.rs:187-191 | the text starts with "Error " and ends with the message |
| CfBase.DisplayAfterPrefix | src/cf_base.rs:189 | after "Error " come the code's decimal digits, ": ", and the message |
| CfBase.DisplayDeterminesError | src/cf_base.rs:187-191 | two errors display the same text exactly when they are equal (same code and message) |
| Cf.ReplyOutcome | src/cf.rs:102-114 | success status with a decodable envelope gives the envelope; otherwise the last error of a non-empty set, "api error" for an empty set; no reply gives the transport error, and a body that does not decode gives the decoding error |
| Cf.ReplyOutcomeRespectsErrorsEq | src/cf.rs:108-113 | error sets that compare equal surface errors that compare equal |
| Cf.DoRequest | src/cf.rs:95-115 | the request is sent with exactly the credential headers in order, and the result is the reply's outcome |
| Cf.LastARecord | src/cf.rs:63-69 | a record the tail-first scan returns is in the list and is an A record named exactly the domain |
| Cf.LastARecordNone | src/cf.rs:63-69 | the scan finds nothing exactly when no record is an A record named exactly the domain |
| Cf.LastARecordIsLastMatch | src/cf.rs:63-68 | the scan returns the matching record nearest the tail |
| Cf.ListQuery | src/cf.rs:53-57 | the list query serialises to exactly name = domain and match = "any" |
| Cf.Lookup | src/cf.rs:58-70 | a failed list request passes its error on; after a successful one, nothing is found exactly when no listed record is an A record named the domain, and a found record is such a listed record |
| Cf.GetAnyARecord | src/cf.rs:48-70 | sends the list request, and popping from the tail yields the last matching record or nothing; request errors propagate |
| Cf.UpdateParamsFor | src/cf.rs:78-83 | the update body is exactly name, type "A", the new address and ttl 60, with no proxied key |
| Cf.UpdateARecord | src/cf.rs:72-93 | one update request to the zone for the record's id, carrying the credential headers, the record's name, content A(ip), ttl 60 and proxied unset; returns the echoed record on success and the reply's error unchanged otherwise |
| Cf.UpdateDns | src/cf.rs:34-46 | a bad address sends nothing; otherwise the list request comes first; no record gives "no record found"; an already-correct record sends no update; otherwise exactly one update follows, and its result is success or the update's error unchanged; every request carries the credential headers |
| Cf.LastARecordAfterUpdate | src/cf.rs:63-68 | after the provider applies the update, the last match holds the new content |
| Cf.UpdateDnsIdempotent | src/cf.rs:40-44 | once the update a call sent is applied and the zone is listed again in the same order, the same call sends no update and succeeds |
| Cf.UpdatedZoneMatches | src/cf.rs:40-44 | with one A record for the name, updating it leaves a match, and every match holds the new content |
| Cf.UpdateDnsIdempotentAnyOrder | src/cf.rs:36-44 | with at most one A record for the name, a repeat listing of the updated zone in any order makes the same call send no update and succeed |
| Cf.ScenarioUpdateNeeded | src/cf.rs:34-46 | record r1 at 1.2.3.4 and desired 5.6.7.8: one update for r1 with A(5.6.7.8), ttl 60, success |
| Cf.ScenarioProviderError | src/cf.rs:104-114 | a 400 reply to the update with error 9003 "Invalid zone" is returned as that error |
| Cf.ScenarioProviderErrorText | src/cf_base.rs:187-191 | that error displays as "Error 9003: Invalid zone" |
| Lib.SelectIp | src/lib.rs:62-86 | a force-ip header is used as is; without it, a rejecting country gives the 403 and is the only 403; otherwise cf-connecting-ip is used, and its absence gives 500 "Missing cf-connecting-ip" |
| Lib.SetRecordGuards | src/lib.rs:17-86 | missing token gives 403 before a missing domain gives 400; bad characters give 400 before length > 64 gives 400; a missing or unequal token gives one 403; then a missing ZONE_ID, EMAIL or KEY gives its 500, in that order; after that the answer is the address selection's error or the reconcile step; the handler proceeds exactly when every guard passes, with the forced address if given, else the connecting one |
| Lib.ForceIpBypassesCountry | src/lib.rs:63-64 | with a force-ip header, neither COUNTRY nor the request's country changes the outcome |
| Lib.CountryCheckedFirst | src/lib.rs:67-85 | once token and variables pass and no address is forced, a set, non-empty COUNTRY that differs from a present request country is the handler's 403 answer, whether or not cf-connecting-ip is present |
| Lib.MaxLengthPasses | src/lib.rs:35-37 | a domain of exactly 64 valid characters is not rejected as too long |
| Lib.FirstARecord | src/lib.rs:107-113 | a record the head-first `find` returns is in the list and is an A record named exactly the domain |
| Lib.FirstARecordNone | src/lib.rs:107-113 | the selection finds nothing exactly when no record is an A record named the domain |
| Lib.FirstARecordIsFirstMatch | src/lib.rs:107-112 | the selection returns the matching record nearest the head |
| Lib.SelectionsAgreeOnUniqueMatch | src/lib.rs:107-113 | head-first and tail-first selection agree when at most one record matches |
| Lib.SelectionsDifferOnDuplicates | src/lib.rs:107-113 | with two matching records, head-first picks the first and tail-first the second |
| Lib.ReconcileRecord | src/lib.rs:88-134 | a client-build failure or an unparseable address returns its error with no call sent; otherwise the list call comes first, and its failure is returned; no record gives "no record found"; a record already at the address gives "Update success" with no update; otherwise one update with ttl 60 and proxied unset, answered "Update success" or the update's error; the only success is "Update success" |
| Lib.HandlerMatchesClient | src/lib.rs:94-134 | with at most one matching record, the handler sends the same calls as the client's update_dns |
| Lib.FirstARecordAfterUpdate | src/lib.rs:115-134 | after the provider applies the update, the first match holds the new content |
| Lib.ReconcileIdempotent | src/lib.rs:115-134 | once the handler's update is applied and the zone is listed again in the same order, a repeat sends no update and answers "Update success" |
| Lib.ReconcileIdempotentAnyOrder | src/lib.rs:107-134 | with at most one A record for the name, a repeat listing of the updated zone in any order sends no update and answers "Update success" |

## Left out

- `src/utils.rs`: request logging and the panic hook are I/O and runtime setup, with no behaviour to state.
- The router and entry point `main` (src/lib.rs:137-149): routing is the worker runtime's concern.
- HTTP transport: building and executing requests, URL formatting, and suspension at `.await`. Each exchange is an input value. A failure to build or send becomes `NoReply`.
- JSON and query-string (de)serialisation mechanics. Serialisation is an abstract map from key to scalar value. The order in which serde emits keys is not modelled.
- The `other`, `messages` and `result_info` payloads are carried as uninterpreted JSON text. `ApiSuccess`'s derived equality is not modelled.
- Record timestamps (`modified_on`, `created_on`), which are chrono values, are dropped from `DnsRecord`.
- IPv4 parsing is a function parameter, an abstract partial function. IPv6 addresses are kept by their text; their grammar and formatting are not modelled.
- The constant-time property of the token comparison, a timing side channel. The check is plain string equality.
- Environment variables, route parameters and headers are finite maps. HTTP's case-insensitive header names are not modelled.
- The domain length check counts bytes in the source. The model counts characters. The two agree because the ASCII-only check runs first.
- The client constructors `Client::new` and `new_with_token` only choose a credential variant. The model takes the `Credentials` value directly.
- The `cloudflare` crate used by `src/lib.rs`, including its request execution, authentication headers and error types, is not part of this model. Its answers to the two calls are `Result` inputs with error text, and failing to build its client is an optional error input.
- How the worker runtime renders an `Err` returned by the handler is not modelled.
- Cf.UpdateDnsIdempotent and Lib.ReconcileIdempotent assume the repeat listing is the patched first listing, in the same order. Both selections depend on list position, so with two A records for the name, a reordered listing can lead to a second update. The `AnyOrder` forms drop the order assumption, provided at most one A record carries the name.
- The record content type appears twice in the source, as `DnsContent` and `DnsContentOwned`. They differ only in borrowing their strings, so the model uses one datatype.
