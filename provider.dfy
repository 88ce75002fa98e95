/**
 * The remote side of the update call, as far as reconciliation relies on
 * it: an update replaces the name and content of every record carrying the
 * given identifier, and changes ttl and proxied only when they are given.
 * `ApplyUpdate` keeps the zone's order. Idempotence lemmas that feed the
 * repeat call `ApplyUpdate` of the first listing assume the provider lists
 * the patched zone in that same order; the lemmas stated "in any order"
 * instead take any permutation of it, under at most one A record per name.
 */
module Provider {
  import opened Wrappers
  import opened CfBase

  function Patch(r: DnsRecord, p: UpdateDnsRecordParams): DnsRecord {
    r.(name := p.name, content := p.content, ttl := p.ttl.GetOr(r.ttl), proxied := p.proxied.GetOr(r.proxied))
  }

  /** The zone after the provider has applied an update to record `id`. */
  function ApplyUpdate(zone: seq<DnsRecord>, id: string, p: UpdateDnsRecordParams): seq<DnsRecord> {
    seq(|zone|, i requires 0 <= i < |zone| => if zone[i].id == id then Patch(zone[i], p) else zone[i])
  }
}
