/** One concrete run of both reconcilers: target `home` in zone
    `example.com`, a host with IPv4 only, and a zone holding an A, an AAAA and
    a CNAME record named `home` plus an A record named `sub.home`. */
module Scenario {
  import opened Wrappers
  import opened HetznerDns
  import opened Outcomes
  import opened Seqs
  import Ddns
  import DdnsPy

  const zoneId := "z1"
  const target := Ddns.Target("example.com", "home")

  const recA := Record("r1", "home", "A", "192.0.2.1", Some(300), zoneId)
  const recAAAA := Record("r2", "home", "AAAA", "2001:db8::1", None, zoneId)
  const recCname := Record("r3", "home", "CNAME", "example.net", Some(300), zoneId)
  const recOther := Record("r4", "sub.home", "A", "192.0.2.9", Some(300), zoneId)

  const store := Store([Zone("z0", "example.org"), Zone(zoneId, "example.com")], [recCname, recA, recOther, recAAAA])

  /** The zone lookup returns the second zone only. */
  lemma LookupFindsTheZone()
    ensures ZonesNamed(store, "example.com") == [Zone(zoneId, "example.com")]
  {
    var zs := store.zones;
    FilterStep(NameIs("example.com"), zs, 0);
    FilterStep(NameIs("example.com"), zs, 1);
    assert zs[2..] == [] && zs[0..] == zs;
  }

  /** Every record of the store lies in the zone. */
  lemma ListingHasAllRecords()
    ensures RecordsOfZone(store, zoneId) == store.records
  {
    FilterKeepsAll(InZone(zoneId), store.records);
  }

  /** The name filter drops `sub.home`, whose name only contains the target name. */
  lemma NameFilterDropsSubName()
    ensures Filter(Ddns.NamedAs("home"), [recA, recOther, recAAAA]) == [recA, recAAAA]
  {
    var p, rs := Ddns.NamedAs("home"), [recA, recOther, recAAAA];
    FilterStep(p, rs, 2);
    assert rs[3..] == [];
    assert Filter(p, rs[2..]) == [recAAAA];
    FilterStep(p, rs, 1);
    assert Filter(p, rs[1..]) == [recAAAA];
    FilterStep(p, rs, 0);
    assert rs[0..] == rs;
  }

  /** The name filter keeps the three records named `home`, in listing order. */
  lemma NameFilterKeepsHome()
    ensures Filter(Ddns.NamedAs("home"), store.records) == [recCname, recA, recAAAA]
  {
    var p, rs := Ddns.NamedAs("home"), store.records;
    NameFilterDropsSubName();
    assert rs[1..] == [recA, recOther, recAAAA];
    FilterStep(p, rs, 0);
    assert rs[0..] == rs;
  }

  /** The type filter drops the CNAME record. */
  lemma TypeFilterDropsCname()
    ensures Filter(Ddns.IsAddressRecord, [recCname, recA, recAAAA]) == [recA, recAAAA]
  {
    var p, rs := Ddns.IsAddressRecord, [recCname, recA, recAAAA];
    FilterStep(p, rs, 2);
    assert rs[3..] == [];
    assert Filter(p, rs[2..]) == [recAAAA];
    FilterStep(p, rs, 1);
    assert Filter(p, rs[1..]) == [recA, recAAAA];
    FilterStep(p, rs, 0);
    assert rs[0..] == rs;
  }

  /** `find_records` selects the A and the AAAA record, in listing order. */
  lemma RustSelectsAddressRecords()
    ensures Ddns.FindRecords(store, target) == Success([recA, recAAAA])
  {
    LookupFindsTheZone();
    ListingHasAllRecords();
    NameFilterKeepsHome();
    TypeFilterDropsCname();
    assert ZonesNamed(store, target.zoneName)[0].id == zoneId;
  }

  /** The Rust program on this zone with IPv4 `ip` only and a provider that
      accepts everything: the A record is set to the address text with TTL 60,
      the AAAA record is skipped, the CNAME and `sub.home` records are never
      considered, and the target completes. */
  lemma RustUpdatesOnlyTheARecord(ip: Ddns.Ipv4, text: Ddns.AddrText)
    ensures Ddns.ZoneOutcome(store, (u: Update) => false, target, Ddns.OwnAddrs(Some(ip), None), text)
            == Outcome([Update("r1", UpdateRecordData("home", 60, "A", text.v4(ip), zoneId))], Completed)
  {
    var addrs := Ddns.OwnAddrs(Some(ip), None);
    RustSelectsAddressRecords();
    assert [recA, recAAAA][..1] == [recA];
    assert [recA][..0] == [];
    assert Ddns.Step(recAAAA, addrs, text) == [];
    assert Ddns.Plan([recA], addrs, text) == Ddns.Step(recA, addrs, text);
  }

  /** The Python script on the same zone, with the IPv4 fetch answering `v4`
      and the IPv6 fetch raising: the A record is updated, then the script
      raises at the AAAA record and the run stops. */
  lemma PythonRaisesAtTheAaaaRecord(v4: string)
    ensures DdnsPy.TargetOutcome(store, (u: Update) => false, target, DdnsPy.Discovery(Some(v4), None))
            == Outcome([Update("r1", UpdateRecordData("home", 60, "A", v4, zoneId))], Aborted(DiscoveryFailed("AAAA")))
  {
    var d := DdnsPy.Discovery(Some(v4), None);
    LookupFindsTheZone();
    ListingHasAllRecords();
    NameFilterKeepsHome();
    assert DdnsPy.Candidates(store, target) == Success([recCname, recA, recAAAA]);
    assert [recCname, recA, recAAAA][..2] == [recCname, recA];
    assert [recCname, recA][..1] == [recCname];
    assert [recCname][..0] == [];
    assert DdnsPy.Scripted([recCname], d) == DdnsPy.Script([], None);
    assert DdnsPy.Scripted([recCname, recA], d) == DdnsPy.Script([Update("r1", UpdateRecordData("home", 60, "A", v4, zoneId))], None);
    assert DdnsPy.Scripted([recCname, recA, recAAAA], d)
           == DdnsPy.Script([Update("r1", UpdateRecordData("home", 60, "A", v4, zoneId))], Some(DiscoveryFailed("AAAA")));
  }
}
