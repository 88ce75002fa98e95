/**
 * The provider's data model (src/cf_base.rs): record content and records,
 * the parameters of the list and update calls with their serialisation
 * rules, credential headers, and the error payloads with their equality
 * and display.
 */
module CfBase {
  import opened Wrappers
  import Decimal

  /** Rust's unsigned widths used on the wire. */
  type U16 = n: int | 0 <= n < 0x1_0000
  type U32 = n: int | 0 <= n < 0x1_0000_0000
  type Octet = n: int | 0 <= n < 0x100

  datatype Ipv4Addr = Ipv4Addr(a: Octet, b: Octet, c: Octet, d: Octet)

  /** An IPv6 address, kept by its textual form (its grammar is not modelled). */
  datatype Ipv6Addr = Ipv6Addr(text: string)

  /** Dotted-decimal form, as `Ipv4Addr` displays and serialises. */
  function Ipv4Text(ip: Ipv4Addr): string {
    Decimal.Decimal(ip.a) + "." + Decimal.Decimal(ip.b) + "." + Decimal.Decimal(ip.c) + "." + Decimal.Decimal(ip.d)
  }

  /** A JSON value the model carries but never looks into. */
  datatype Json = Json(text: string)

  /**
   * Record content, a union tagged by the record type. `DnsContent` and
   * `DnsContentOwned` differ only in borrowing their strings, so one
   * datatype stands for both.
   */
  datatype DnsContent =
    | A(ipv4: Ipv4Addr)
    | AAAA(ipv6: Ipv6Addr)
    | CNAME(content: string)
    | NS(content: string)
    | MX(content: string, priority: U16)
    | TXT(content: string)
    | SRV(content: string)

  /** A record as the provider returns it (timestamps left out). */
  datatype DnsRecord = DnsRecord(
    name: string,
    ttl: U32,
    proxiable: bool,
    content: DnsContent,
    id: string,
    proxied: bool)

  /** A scalar of the serialised form: a string, a number or a boolean. */
  datatype Value = Text(s: string) | Number(n: int) | Flag(b: bool)

  type Fields = map<string, Value>

  // ---------------------------------------------------------------------
  // Tagged content: the "type" discriminant beside the variant's fields

  function TypeName(c: DnsContent): string {
    match c
    case A(_) => "A"
    case AAAA(_) => "AAAA"
    case CNAME(_) => "CNAME"
    case NS(_) => "NS"
    case MX(_, _) => "MX"
    case TXT(_) => "TXT"
    case SRV(_) => "SRV"
  }

  function ContentText(c: DnsContent): string {
    match c
    case A(ip) => Ipv4Text(ip)
    case AAAA(ip) => ip.text
    case CNAME(s) => s
    case NS(s) => s
    case MX(s, _) => s
    case TXT(s) => s
    case SRV(s) => s
  }

  /** The content's fields, flattened next to its "type" discriminant. */
  function ContentFields(c: DnsContent): (m: Fields)
    ensures m.Keys == {"type", "content"} + (if c.MX? then {"priority"} else {})
    ensures m["type"] == Text(TypeName(c)) && m["content"] == Text(ContentText(c))
    ensures c.MX? ==> m["priority"] == Number(c.priority)
  {
    var m := map["type" := Text(TypeName(c)), "content" := Text(ContentText(c))];
    if c.MX? then m["priority" := Number(c.priority)] else m
  }

  /**
   * Reads content back from flattened fields; other keys are ignored.
   * `parse` is IPv4 address parsing, a partial function on strings.
   */
  function ContentFromFields(m: Fields, parse: string -> Option<Ipv4Addr>): (r: Option<DnsContent>)
    ensures "type" !in m || "content" !in m ==> r.None?
    ensures r.Some? ==> "type" in m && m["type"] == Text(TypeName(r.value)) && "content" in m && m["content"].Text?
    ensures r.Some? && !r.value.A? ==> m["content"] == Text(ContentText(r.value))
    ensures r.Some? && r.value.A? ==> parse(m["content"].s) == Some(r.value.ipv4)
    ensures r.Some? && r.value.MX? ==> "priority" in m && m["priority"] == Number(r.value.priority)
  {
    if "type" !in m || "content" !in m || !m["type"].Text? || !m["content"].Text? then None
    else
      var t, s := m["type"].s, m["content"].s;
      if t == "A" then
        match parse(s)
        case Some(ip) => Some(A(ip))
        case None => None
      else if t == "AAAA" then Some(AAAA(Ipv6Addr(s)))
      else if t == "CNAME" then Some(CNAME(s))
      else if t == "NS" then Some(NS(s))
      else if t == "MX" then
        if "priority" in m && m["priority"].Number? && 0 <= m["priority"].n < 0x1_0000
        then Some(MX(s, m["priority"].n))
        else None
      else if t == "TXT" then Some(TXT(s))
      else if t == "SRV" then Some(SRV(s))
      else None
  }

  /** Every content variant survives serialisation, given that IPv4 text parses back. */
  lemma ContentRoundTrip(c: DnsContent, parse: string -> Option<Ipv4Addr>)
    requires c.A? ==> parse(Ipv4Text(c.ipv4)) == Some(c.ipv4)
    ensures ContentFromFields(ContentFields(c), parse) == Some(c)
  {
  }

  // ---------------------------------------------------------------------
  // Query and update parameters

  datatype ListDnsRecordsOrder = Type | Name | Content | Ttl | Proxied
  datatype OrderDirection = Ascending | Descending
  datatype SearchMatch = All | Any

  /** `rename_all = "lowercase"` */
  function OrderName(o: ListDnsRecordsOrder): string {
    match o
    case Type => "type"
    case Name => "name"
    case Content => "content"
    case Ttl => "ttl"
    case Proxied => "proxied"
  }

  /** `rename = "asc"` and `rename = "desc"` */
  function DirectionName(d: OrderDirection): string {
    match d
    case Ascending => "asc"
    case Descending => "desc"
  }

  /** `rename_all = "lowercase"` */
  function MatchName(m: SearchMatch): string {
    match m
    case All => "all"
    case Any => "any"
  }

  /** The renamed enum values tell their variants apart. */
  lemma RenamesInjective(o1: ListDnsRecordsOrder, o2: ListDnsRecordsOrder, d1: OrderDirection, d2: OrderDirection, m1: SearchMatch, m2: SearchMatch)
    ensures OrderName(o1) == OrderName(o2) <==> o1 == o2
    ensures DirectionName(d1) == DirectionName(d2) <==> d1 == d2
    ensures MatchName(m1) == MatchName(m2) <==> m1 == m2
  {
  }

  datatype ListDnsRecordsParams = ListDnsRecordsParams(
    recordType: Option<DnsContent>,
    name: Option<string>,
    page: Option<U32>,
    perPage: Option<U32>,
    order: Option<ListDnsRecordsOrder>,
    direction: Option<OrderDirection>,
    searchMatch: Option<SearchMatch>)

  /** `#[derive(Default)]`: every field absent. */
  function DefaultListParams(): ListDnsRecordsParams {
    ListDnsRecordsParams(None, None, None, None, None, None, None)
  }

  datatype UpdateDnsRecordParams = UpdateDnsRecordParams(
    ttl: Option<U32>,
    proxied: Option<bool>,
    name: string,
    content: DnsContent)

  const LIST_KEYS: set<string> := {"type", "content", "priority", "name", "page", "per_page", "order", "direction", "match"}

  /** The value the query sends under `key`, if any. */
  function ListValue(p: ListDnsRecordsParams, key: string): Option<Value> {
    if key == "name" then (if p.name.Some? then Some(Text(p.name.value)) else None)
    else if key == "page" then (if p.page.Some? then Some(Number(p.page.value)) else None)
    else if key == "per_page" then (if p.perPage.Some? then Some(Number(p.perPage.value)) else None)
    else if key == "order" then (if p.order.Some? then Some(Text(OrderName(p.order.value))) else None)
    else if key == "direction" then (if p.direction.Some? then Some(Text(DirectionName(p.direction.value))) else None)
    else if key == "match" then (if p.searchMatch.Some? then Some(Text(MatchName(p.searchMatch.value))) else None)
    else if p.recordType.Some? && key in ContentFields(p.recordType.value) then Some(ContentFields(p.recordType.value)[key])
    else None
  }

  /** The list query: absent fields omitted, `search_match` under "match". */
  function SerializeList(p: ListDnsRecordsParams): (m: Fields)
    ensures forall k :: k in m ==> k in LIST_KEYS
    ensures "type" in m <==> p.recordType.Some?
    ensures "content" in m <==> p.recordType.Some?
    ensures "priority" in m <==> p.recordType.Some? && p.recordType.value.MX?
    ensures "name" in m <==> p.name.Some?
    ensures "page" in m <==> p.page.Some?
    ensures "per_page" in m <==> p.perPage.Some?
    ensures "order" in m <==> p.order.Some?
    ensures "direction" in m <==> p.direction.Some?
    ensures "match" in m <==> p.searchMatch.Some?
  {
    map k | k in LIST_KEYS && ListValue(p, k).Some? :: ListValue(p, k).value
  }

  /** Each present field is sent with its rendered value. */
  lemma SerializeListValues(p: ListDnsRecordsParams)
    ensures var m := SerializeList(p);
      && (p.recordType.Some? ==> forall k :: k in ContentFields(p.recordType.value) ==> m[k] == ContentFields(p.recordType.value)[k])
      && (p.name.Some? ==> m["name"] == Text(p.name.value))
      && (p.page.Some? ==> m["page"] == Number(p.page.value))
      && (p.perPage.Some? ==> m["per_page"] == Number(p.perPage.value))
      && (p.order.Some? ==> m["order"] == Text(OrderName(p.order.value)))
      && (p.direction.Some? ==> m["direction"] == Text(DirectionName(p.direction.value)))
      && (p.searchMatch.Some? ==> m["match"] == Text(MatchName(p.searchMatch.value)))
  {
  }

  /** The default query sends no parameter at all. */
  lemma DefaultListIsEmpty()
    ensures SerializeList(DefaultListParams()) == map[]
  {
    var m := SerializeList(DefaultListParams());
    assert m.Keys == {};
  }

  /** The value the update body sends under `key`, if any. */
  function UpdateValue(p: UpdateDnsRecordParams, key: string): Option<Value> {
    if key == "ttl" then (if p.ttl.Some? then Some(Number(p.ttl.value)) else None)
    else if key == "proxied" then (if p.proxied.Some? then Some(Flag(p.proxied.value)) else None)
    else if key == "name" then Some(Text(p.name))
    else if key in ContentFields(p.content) then Some(ContentFields(p.content)[key])
    else None
  }

  const UPDATE_KEYS: set<string> := {"ttl", "proxied", "name", "type", "content", "priority"}

  /** The update body: name and content always, ttl and proxied only when set. */
  function SerializeUpdate(p: UpdateDnsRecordParams): (m: Fields)
    ensures forall k :: k in m <==> k == "name" || k in ContentFields(p.content) || (k == "ttl" && p.ttl.Some?) || (k == "proxied" && p.proxied.Some?)
  {
    map k | k in UPDATE_KEYS && UpdateValue(p, k).Some? :: UpdateValue(p, k).value
  }

  /** The body carries the name, the content fields, and ttl and proxied as set. */
  lemma SerializeUpdateValues(p: UpdateDnsRecordParams)
    ensures var m := SerializeUpdate(p);
      && m["name"] == Text(p.name)
      && (forall k :: k in ContentFields(p.content) ==> m[k] == ContentFields(p.content)[k])
      && (p.ttl.Some? ==> m["ttl"] == Number(p.ttl.value))
      && (p.proxied.Some? ==> m["proxied"] == Flag(p.proxied.value))
  {
  }

  // ---------------------------------------------------------------------
  // Credentials

  datatype Credentials =
    | UserAuthKey(email: string, key: string)
    | UserAuthToken(token: string)
    | Service(key: string)

  type Header = (string, string)

  const AUTH_HEADER_NAMES: set<string> := {"X-Auth-Email", "X-Auth-Key", "Authorization", "X-Auth-User-Service-Key"}

  /** The headers every request carries, in order. */
  function Headers(c: Credentials): (h: seq<Header>)
    ensures 1 <= |h| <= 2
    ensures forall i, j :: 0 <= i < j < |h| ==> h[i].0 != h[j].0
    ensures forall i :: 0 <= i < |h| ==> h[i].0 in AUTH_HEADER_NAMES
  {
    match c
    case UserAuthKey(email, key) => [("X-Auth-Email", email), ("X-Auth-Key", key)]
    case UserAuthToken(token) => [("Authorization", "Bearer " + token)]
    case Service(key) => [("X-Auth-User-Service-Key", key)]
  }

  /** The exact header list of each variant. */
  lemma HeadersOfEachVariant(c: Credentials)
    ensures c.UserAuthKey? ==> Headers(c) == [("X-Auth-Email", c.email), ("X-Auth-Key", c.key)]
    ensures c.UserAuthToken? ==> Headers(c) == [("Authorization", "Bearer " + c.token)]
    ensures c.Service? ==> Headers(c) == [("X-Auth-User-Service-Key", c.key)]
  {
  }

  /** What a receiver reads the credentials back as. */
  function CredentialsFromHeaders(h: seq<Header>): Option<Credentials> {
    if |h| == 2 && h[0].0 == "X-Auth-Email" && h[1].0 == "X-Auth-Key" then
      Some(UserAuthKey(h[0].1, h[1].1))
    else if |h| == 1 && h[0].0 == "Authorization" && |h[0].1| >= 7 && h[0].1[..7] == "Bearer " then
      Some(UserAuthToken(h[0].1[7..]))
    else if |h| == 1 && h[0].0 == "X-Auth-User-Service-Key" then
      Some(Service(h[0].1))
    else
      None
  }

  /** The headers determine the credentials they were made from. */
  lemma HeadersRoundTrip(c: Credentials)
    ensures CredentialsFromHeaders(Headers(c)) == Some(c)
  {
    if c.UserAuthToken? {
      var v := "Bearer " + c.token;
      assert v[..7] == "Bearer " && v[7..] == c.token;
    }
  }

  /** Distinct credentials never send the same headers. */
  lemma HeadersInjective(c1: Credentials, c2: Credentials)
    ensures Headers(c1) == Headers(c2) <==> c1 == c2
  {
    if Headers(c1) == Headers(c2) {
      HeadersRoundTrip(c1);
      HeadersRoundTrip(c2);
    }
  }

  // ---------------------------------------------------------------------
  // Error payloads

  /** `other` holds the payload's remaining fields; equality ignores it. */
  datatype ApiError = ApiError(code: U16, message: string, other: map<string, Json>)

  datatype ApiErrors = ApiErrors(other: map<string, Json>, errors: seq<ApiError>)

  /** The generic success envelope. */
  datatype ApiSuccess<T> = ApiSuccess(result: T, resultInfo: Option<Json>, messages: Json, errors: seq<ApiError>)

  /** `PartialEq for ApiError`: code and message only. */
  predicate ApiErrorEq(x: ApiError, y: ApiError) {
    x.code == y.code && x.message == y.message
  }

  /** Slice equality under `ApiErrorEq`, walking both lists in step. */
  predicate ErrorListEq(xs: seq<ApiError>, ys: seq<ApiError>) {
    if xs == [] || ys == [] then xs == [] && ys == []
    else ApiErrorEq(xs[0], ys[0]) && ErrorListEq(xs[1..], ys[1..])
  }

  /** `PartialEq for ApiErrors`: the error lists only. */
  predicate ApiErrorsEq(x: ApiErrors, y: ApiErrors) {
    ErrorListEq(x.errors, y.errors)
  }

  /** Two errors are equal exactly when they differ at most in `other`. */
  lemma ApiErrorEqIgnoresOther(x: ApiError, y: ApiError)
    ensures ApiErrorEq(x, y) <==> x.(other := y.other) == y
  {
  }

  /** `ApiErrorEq` is an equivalence relation (it backs `impl Eq`). */
  lemma ApiErrorEqIsEquivalence(x: ApiError, y: ApiError, z: ApiError)
    ensures ApiErrorEq(x, x)
    ensures ApiErrorEq(x, y) ==> ApiErrorEq(y, x)
    ensures ApiErrorEq(x, y) && ApiErrorEq(y, z) ==> ApiErrorEq(x, z)
  {
  }

  /** Error lists are equal when of one length and equal position by position. */
  lemma {:induction false} ErrorListEqPointwise(xs: seq<ApiError>, ys: seq<ApiError>)
    ensures ErrorListEq(xs, ys) <==> |xs| == |ys| && forall i :: 0 <= i < |xs| ==> ApiErrorEq(xs[i], ys[i])
  {
    if xs != [] && ys != [] {
      ErrorListEqPointwise(xs[1..], ys[1..]);
      if |xs| == |ys| && forall i :: 0 <= i < |xs| ==> ApiErrorEq(xs[i], ys[i]) {
        forall i | 0 <= i < |xs| - 1
          ensures ApiErrorEq(xs[1..][i], ys[1..][i])
        {
          assert xs[1..][i] == xs[i + 1] && ys[1..][i] == ys[i + 1];
        }
      }
      if ErrorListEq(xs, ys) {
        forall i | 0 <= i < |xs|
          ensures ApiErrorEq(xs[i], ys[i])
        {
          if i > 0 {
            assert xs[1..][i - 1] == xs[i] && ys[1..][i - 1] == ys[i];
          }
        }
      }
    }
  }

  /** `ApiErrorsEq` is an equivalence relation that ignores the top-level `other`. */
  lemma ApiErrorsEqIsEquivalence(x: ApiErrors, y: ApiErrors, z: ApiErrors)
    ensures ApiErrorsEq(x, x)
    ensures ApiErrorsEq(x, y) ==> ApiErrorsEq(y, x)
    ensures ApiErrorsEq(x, y) && ApiErrorsEq(y, z) ==> ApiErrorsEq(x, z)
    ensures ApiErrorsEq(x, y) <==> ApiErrorsEq(x.(other := y.other), y)
  {
    ErrorListEqPointwise(x.errors, x.errors);
    ErrorListEqPointwise(x.errors, y.errors);
    ErrorListEqPointwise(y.errors, x.errors);
    ErrorListEqPointwise(y.errors, z.errors);
    ErrorListEqPointwise(x.errors, z.errors);
  }

  /** The number of leading decimal digits of `t`. */
  function LeadingDigits(t: string): nat {
    if t != [] && Decimal.IsDigit(t[0]) then 1 + LeadingDigits(t[1..]) else 0
  }

  lemma {:induction false} LeadingDigitsOfDecimal(d: string, rest: string)
    requires Decimal.AllDigits(d)
    requires rest != [] && !Decimal.IsDigit(rest[0])
    ensures LeadingDigits(d + rest) == |d|
  {
    if d != [] {
      assert (d + rest)[1..] == d[1..] + rest;
      LeadingDigitsOfDecimal(d[1..], rest);
    } else {
      assert d + rest == rest;
    }
  }

  /** A digit string followed by ": " ends where the first colon is. */
  lemma SplitAtColon(d1: string, m1: string, d2: string, m2: string)
    requires Decimal.AllDigits(d1) && Decimal.AllDigits(d2)
    requires d1 + ": " + m1 == d2 + ": " + m2
    ensures d1 == d2 && m1 == m2
  {
    var t1, t2 := d1 + ": " + m1, d2 + ": " + m2;
    assert t1 == d1 + (": " + m1) && t2 == d2 + (": " + m2);
    LeadingDigitsOfDecimal(d1, ": " + m1);
    LeadingDigitsOfDecimal(d2, ": " + m2);
    assert d1 == t1[..|d1|] && d2 == t2[..|d2|];
    assert m1 == t1[|d1| + 2..] && m2 == t2[|d2| + 2..];
  }

  /** `Display for ApiError`: "Error <code>: <message>". */
  function Display(e: ApiError): (s: string)
    ensures |s| >= 9 + |e.message| && s[..6] == "Error " && s[|s| - |e.message|..] == e.message
  {
    "Error " + Decimal.Decimal(e.code) + ": " + e.message
  }

  /** What follows the fixed "Error " prefix of the displayed text. */
  lemma DisplayAfterPrefix(e: ApiError)
    ensures Display(e)[6..] == Decimal.Decimal(e.code) + ": " + e.message
  {
    var t := Decimal.Decimal(e.code) + ": " + e.message;
    assert Display(e) == "Error " + t;
  }

  /** The displayed text tells errors apart exactly as far as `ApiErrorEq` does. */
  lemma DisplayDeterminesError(x: ApiError, y: ApiError)
    ensures Display(x) == Display(y) <==> ApiErrorEq(x, y)
  {
    if Display(x) == Display(y) {
      var dx, dy := Decimal.Decimal(x.code), Decimal.Decimal(y.code);
      DisplayAfterPrefix(x);
      DisplayAfterPrefix(y);
      SplitAtColon(dx, x.message, dy, y.message);
      Decimal.DecimalInjective(x.code, y.code);
    }
  }
}
