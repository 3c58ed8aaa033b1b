/** The DNS provider the reconciler talks to, as an in-memory object instead of
    an HTTP API: its zones, its records, the update calls it has received and
    which of those calls it rejects. */
module HetznerDns {
  import opened Wrappers
  import opened Seqs

  /** A zone of the provider; only the fields the reconciler reads. */
  datatype Zone = Zone(id: string, name: string)

  /** A DNS record as the provider returns it. `ttl` may be missing. */
  datatype Record = Record(id: string, name: string, typ: string, value: string, ttl: Option<nat>, zoneId: string)

  /** The body of an update call: a full replacement of the record's mutable
      fields, with a TTL that is always present. */
  datatype UpdateRecordData = UpdateRecordData(name: string, ttl: nat, typ: string, value: string, zoneId: string)

  /** One update call: the id of the record it targets and the body it sends. */
  datatype Update = Update(recordId: string, data: UpdateRecordData)

  /** What the provider holds for the account, in the order it lists it. */
  datatype Store = Store(zones: seq<Zone>, records: seq<Record>)

  /** Zone listing with a name filter: the zones whose name is exactly `name`,
      in listing order. */
  function ZonesNamed(store: Store, name: string): (r: seq<Zone>)
  {
    Filter(NameIs(name), store.zones)
  }

  /** Whether a zone's name is exactly `name`. */
  function NameIs(name: string): Zone -> bool
  {
    (z: Zone) => z.name == name
  }

  /** Record listing for one zone: the records whose zone id is `zoneId`, in
      listing order. */
  function RecordsOfZone(store: Store, zoneId: string): (r: seq<Record>)
  {
    Filter(InZone(zoneId), store.records)
  }

  /** Whether a record belongs to the zone with id `zoneId`. */
  function InZone(zoneId: string): Record -> bool
  {
    (rec: Record) => rec.zoneId == zoneId
  }

  /** The provider's records after it accepts update call `u`: the record
      with `u`'s id takes all its fields from the call's body, and no other
      record changes. */
  function ApplyUpdate(records: seq<Record>, u: Update): (r: seq<Record>)
    ensures |r| == |records|
    ensures forall k :: 0 <= k < |records| && records[k].id != u.recordId ==> r[k] == records[k]
    ensures forall k :: 0 <= k < |records| && records[k].id == u.recordId ==>
              r[k] == Record(u.recordId, u.data.name, u.data.typ, u.data.value, Some(u.data.ttl), u.data.zoneId)
  {
    seq(|records|, k requires 0 <= k < |records| =>
      if records[k].id == u.recordId
      then Record(u.recordId, u.data.name, u.data.typ, u.data.value, Some(u.data.ttl), u.data.zoneId)
      else records[k])
  }

  /** `recs'` is `recs` with at most the value and the TTL of each record changed. */
  predicate SameButContent(recs: seq<Record>, recs': seq<Record>)
  {
    |recs'| == |recs| &&
    forall k :: 0 <= k < |recs| ==> recs'[k] == recs[k].(value := recs'[k].value, ttl := recs'[k].ttl)
  }

  /** A filter that does not look at value or TTL keeps the same positions of
      both listings, so its results again differ in value and TTL only. */
  lemma {:induction false} FilterKeepsSameButContent(p: Record -> bool, recs: seq<Record>, recs': seq<Record>)
    requires SameButContent(recs, recs')
    requires forall k :: 0 <= k < |recs| ==> p(recs'[k]) == p(recs[k])
    ensures SameButContent(Filter(p, recs), Filter(p, recs'))
  {
    if recs != [] {
      assert recs'[0] == recs[0].(value := recs'[0].value, ttl := recs'[0].ttl);
      FilterKeepsSameButContent(p, recs[1..], recs'[1..]);
    }
  }

  /** The provider as one client sees it. Zones and records do not change during
      a run; every update call is appended to `log`, and `fails` says which
      calls the provider rejects. */
  class Client {
    const store: Store
    const fails: Update -> bool
    var log: seq<Update>

    constructor (store: Store, fails: Update -> bool)
      ensures this.store == store && this.fails == fails && log == []
    {
      this.store := store;
      this.fails := fails;
      log := [];
    }

    /** Sends one update call. The call is recorded whether or not the
        provider accepts it; `ok` is false when the provider rejects it. */
    method UpdateRecord(recordId: string, data: UpdateRecordData) returns (ok: bool)
      modifies this
      ensures log == old(log) + [Update(recordId, data)]
      ensures ok <==> !fails(Update(recordId, data))
    {
      log := log + [Update(recordId, data)];
      ok := !fails(Update(recordId, data));
    }
  }
}
