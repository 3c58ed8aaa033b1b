/** The reconciliation step of the Rust program: find a target's address
    records, then send one update per record whose address family the host
    has, stopping the whole run at the first error. */
module Ddns {
  import opened Wrappers
  import opened Seqs
  import opened HetznerDns
  import opened Outcomes

  /** One configured target: a zone name and a record name inside it. */
  datatype Target = Target(zoneName: string, recordName: string)

  newtype Ipv4 = x: int | 0 <= x < 0x1_0000_0000
  newtype Ipv6 = x: int | 0 <= x < 0x1_0000_0000_0000_0000_0000_0000_0000_0000

  /** The textual form of an address (`to_string`), left abstract. */
  datatype AddrText = AddrText(v4: Ipv4 -> string, v6: Ipv6 -> string)

  /** The host's public addresses, at most one per family. */
  datatype OwnAddrs = OwnAddrs(v4: Option<Ipv4>, v6: Option<Ipv6>)

  /** The record types the reconciler keeps current. */
  predicate IsAddressType(typ: string)
  {
    typ == "A" || typ == "AAAA"
  }

  predicate AllAddressTyped(recs: seq<Record>)
  {
    forall k :: 0 <= k < |recs| ==> IsAddressType(recs[k].typ)
  }

  /** The final check of `get_own_ips`: having no address at all is an error,
      any other pair is passed on unchanged. */
  function CheckOwnIps(v4: Option<Ipv4>, v6: Option<Ipv6>): (r: Result<OwnAddrs, RunError>)
    ensures r.Failure? <==> v4.None? && v6.None?
    ensures r.Failure? ==> r.error == NoAddress
    ensures r.Success? ==> r.value.v4 == v4 && r.value.v6 == v6
  {
    match (v4, v6)
    case (None, None) => Failure(NoAddress)
    case _ => Success(OwnAddrs(v4, v6))
  }

  /** The records `find_records` selects in the zone with id `zoneId`. */
  predicate Wanted(rec: Record, zoneId: string, recordName: string)
  {
    rec.zoneId == zoneId && rec.name == recordName && IsAddressType(rec.typ)
  }

  /** `Wanted` as a filter predicate. */
  function WantedIn(zoneId: string, recordName: string): Record -> bool
  {
    (rec: Record) => Wanted(rec, zoneId, recordName)
  }

  /** The first filter of `find_records`: the record's name is `recordName`. */
  function NamedAs(recordName: string): Record -> bool
  {
    (rec: Record) => rec.name == recordName
  }

  /** The second filter of `find_records`: the record is of type A or AAAA. */
  predicate IsAddressRecord(rec: Record)
  {
    IsAddressType(rec.typ)
  }

  /** `find_records`: take the first zone the name lookup returns (an empty
      lookup is fatal), list its records, keep those named exactly like the
      target's record and of type A or AAAA. */
  function FindRecords(store: Store, target: Target): (r: Result<seq<Record>, RunError>)
    ensures r.Failure? <==> ZonesNamed(store, target.zoneName) == []
    ensures r.Failure? ==> r.error == ZoneMissing(target.zoneName)
    ensures r.Success? ==> AllAddressTyped(r.value)
  {
    var zones := ZonesNamed(store, target.zoneName);
    if zones == [] then Failure(ZoneMissing(target.zoneName))
    else
      var selected := Filter(IsAddressRecord, Filter(NamedAs(target.recordName), RecordsOfZone(store, zones[0].id)));
      assert forall k | 0 <= k < |selected| :: selected[k] in selected;
      Success(selected)
  }

  /** The zone listing followed by the two filters of `find_records` is one
      filter of all the provider's records by `Wanted`. */
  lemma FindRecordsIsOneFilter(store: Store, target: Target)
    requires FindRecords(store, target).Success?
    ensures FindRecords(store, target).value ==
            Filter(WantedIn(ZonesNamed(store, target.zoneName)[0].id, target.recordName), store.records)
  {
    var zoneId := ZonesNamed(store, target.zoneName)[0].id;
    var both := (rec: Record) => rec.zoneId == zoneId && rec.name == target.recordName;
    FilterFuse(InZone(zoneId), NamedAs(target.recordName), both, store.records);
    FilterFuse(both, IsAddressRecord, WantedIn(zoneId, target.recordName), store.records);
  }

  /** The selected records are exactly the wanted records of the first zone
      named like the target. */
  lemma FindRecordsSelectsWanted(store: Store, target: Target)
    requires FindRecords(store, target).Success?
    ensures forall rec :: rec in FindRecords(store, target).value <==>
              rec in store.records && Wanted(rec, ZonesNamed(store, target.zoneName)[0].id, target.recordName)
  {
    FindRecordsIsOneFilter(store, target);
  }

  /** The selected records are the wanted records of the first zone named like
      the target, each once, in the order the provider lists them. */
  lemma FindRecordsInProviderOrder(store: Store, target: Target)
    requires FindRecords(store, target).Success?
    ensures exists idx ::
              && Embeds(FindRecords(store, target).value, store.records, idx)
              && forall i :: 0 <= i < |store.records| ==>
                   (i in idx <==> Wanted(store.records[i], ZonesNamed(store, target.zoneName)[0].id, target.recordName))
  {
    var wanted := WantedIn(ZonesNamed(store, target.zoneName)[0].id, target.recordName);
    FindRecordsIsOneFilter(store, target);
    FilterKeepsOrder(wanted, store.records);
  }

  /** Whether the host has an address of the record's family. */
  predicate HasAddress(rec: Record, addrs: OwnAddrs)
  {
    (rec.typ == "A" && addrs.v4.Some?) || (rec.typ == "AAAA" && addrs.v6.Some?)
  }

  /** The text of the host's address of the record's family. */
  function ValueFor(rec: Record, addrs: OwnAddrs, text: AddrText): string
    requires HasAddress(rec, addrs)
  {
    if rec.typ == "A" then text.v4(addrs.v4.value) else text.v6(addrs.v6.value)
  }

  /** The update call for `rec`: keyed by its id, name, type and zone copied,
      TTL set to 60 seconds, `value` as the new content. */
  function UpdateFor(rec: Record, value: string): Update
  {
    Update(rec.id, UpdateRecordData(rec.name, 60, rec.typ, value, rec.zoneId))
  }

  /** The `match` at the top of `update_zone`'s loop: the text of the host's
      address of the record's family, or nothing when the host has none (the
      loop then skips the record). Other record types cannot reach it. */
  function NewValue(rec: Record, addrs: OwnAddrs, text: AddrText): Option<string>
    requires IsAddressType(rec.typ)
  {
    if rec.typ == "A" then
      match addrs.v4
      case Some(ip) => Some(text.v4(ip))
      case None => None
    else
      match addrs.v6
      case Some(ip) => Some(text.v6(ip))
      case None => None
  }

  /** What one iteration of `update_zone`'s loop sends for `rec`. */
  function Step(rec: Record, addrs: OwnAddrs, text: AddrText): seq<Update>
    requires IsAddressType(rec.typ)
  {
    match NewValue(rec, addrs, text)
    case Some(value) => [UpdateFor(rec, value)]
    case None => []
  }

  /** The calls `update_zone` sends for `recs` when the provider accepts all of them. */
  function Plan(recs: seq<Record>, addrs: OwnAddrs, text: AddrText): seq<Update>
    requires AllAddressTyped(recs)
  {
    if recs == [] then []
    else Plan(recs[..|recs| - 1], addrs, text) + Step(recs[|recs| - 1], addrs, text)
  }

  /** One more record extends the plan by that record's step. */
  lemma PlanSnoc(recs: seq<Record>, i: nat, addrs: OwnAddrs, text: AddrText)
    requires AllAddressTyped(recs) && i < |recs|
    ensures Plan(recs[..i + 1], addrs, text) == Plan(recs[..i], addrs, text) + Step(recs[i], addrs, text)
  {
    assert recs[..i + 1][..i] == recs[..i];
  }

  /** Each record is handled on its own: the plan for two runs of records is
      the plan of the first followed by the plan of the second. */
  lemma {:induction false} PlanAppend(a: seq<Record>, b: seq<Record>, addrs: OwnAddrs, text: AddrText)
    requires AllAddressTyped(a) && AllAddressTyped(b)
    ensures AllAddressTyped(a + b)
    ensures Plan(a + b, addrs, text) == Plan(a, addrs, text) + Plan(b, addrs, text)
  {
    if b == [] {
      assert a + b == a;
    } else {
      var b' := b[..|b| - 1];
      assert (a + b)[..|a + b| - 1] == a + b';
      PlanAppend(a, b', addrs, text);
    }
  }

  /** Exactly the records whose family address the host has get one call each,
      in order; each call is keyed by the record's id, copies its name, type
      and zone id, sets the TTL to 60 and carries the address text. */
  lemma {:induction false} PlanUpdatesEachRecordWithAddress(recs: seq<Record>, addrs: OwnAddrs, text: AddrText)
    requires AllAddressTyped(recs)
    ensures var ready := Filter((rec: Record) => HasAddress(rec, addrs), recs);
            && |Plan(recs, addrs, text)| == |ready|
            && forall k :: 0 <= k < |ready| ==>
                 && HasAddress(ready[k], addrs)
                 && Plan(recs, addrs, text)[k] ==
                 Update(ready[k].id, UpdateRecordData(ready[k].name, 60, ready[k].typ, ValueFor(ready[k], addrs, text), ready[k].zoneId))
  {
    var p := (rec: Record) => HasAddress(rec, addrs);
    if recs != [] {
      var init, last := recs[..|recs| - 1], recs[|recs| - 1];
      PlanUpdatesEachRecordWithAddress(init, addrs, text);
      assert recs == init + [last];
      FilterAppend(p, init, [last]);
      var kept := Filter(p, init);
      assert Plan(recs, addrs, text) == Plan(init, addrs, text) + Step(last, addrs, text);
      if HasAddress(last, addrs) {
        assert Filter(p, recs) == kept + [last];
        assert Step(last, addrs, text) ==
               [Update(last.id, UpdateRecordData(last.name, 60, last.typ, ValueFor(last, addrs, text), last.zoneId))];
      } else {
        assert Filter(p, recs) == kept;
        assert Step(last, addrs, text) == [];
      }
    }
  }

  /** No no-op detection: the calls do not depend on the records' current
      values or TTLs, so a record already holding the right value is updated all
      the same. */
  lemma {:induction false} PlanIgnoresCurrentContent(recs: seq<Record>, recs': seq<Record>, addrs: OwnAddrs, text: AddrText)
    requires AllAddressTyped(recs)
    requires SameButContent(recs, recs')
    ensures AllAddressTyped(recs')
    ensures Plan(recs', addrs, text) == Plan(recs, addrs, text)
  {
    if recs != [] {
      PlanIgnoresCurrentContent(recs[..|recs| - 1], recs'[..|recs| - 1], addrs, text);
    }
  }

  /** An update call built for a record of the listing, once the provider
      applies it, changes only that record's value and TTL: the call copies
      the record's name, type and zone id. Record ids are unique. */
  lemma PlannedUpdateChangesOnlyContent(records: seq<Record>, rec: Record, value: string)
    requires rec in records
    requires forall i, j :: 0 <= i < j < |records| ==> records[i].id != records[j].id
    ensures SameButContent(records, ApplyUpdate(records, UpdateFor(rec, value)))
  {
    var after := ApplyUpdate(records, UpdateFor(rec, value));
    forall k | 0 <= k < |records|
      ensures after[k] == records[k].(value := after[k].value, ttl := after[k].ttl)
    {
      if records[k].id == rec.id {
        var i :| 0 <= i < |records| && records[i] == rec;
        assert i == k;
      }
    }
  }

  /** `update_zone` for one target, when the provider's answers are `store`
      and `fails`. */
  function ZoneOutcome(store: Store, fails: Update -> bool, target: Target, addrs: OwnAddrs, text: AddrText): (o: Outcome)
  {
    match FindRecords(store, target)
    case Failure(e) => Outcome([], Aborted(e))
    case Success(recs) => Attempt(Plan(recs, addrs, text), fails)
  }

  /** A target whose zone lookup is empty issues no update call and aborts;
      otherwise the calls issued are a prefix of the target's plan, all
      accepted when the target completes. */
  lemma ZoneOutcomeIsPrefixOfPlan(store: Store, fails: Update -> bool, target: Target, addrs: OwnAddrs, text: AddrText)
    ensures FindRecords(store, target).Failure? ==>
              ZoneOutcome(store, fails, target, addrs, text) == Outcome([], Aborted(ZoneMissing(target.zoneName)))
    ensures FindRecords(store, target).Success? ==>
              var o, plan := ZoneOutcome(store, fails, target, addrs, text), Plan(FindRecords(store, target).value, addrs, text);
              && o.issued <= plan
              && (o.status.Completed? <==> o.issued == plan && forall u :: u in o.issued ==> !fails(u))
  {
  }

  /** Records that differ only in value and TTL give a target the same
      outcome: each target lists its zone afresh, so a later target may see
      what earlier updates wrote, and this is why that does not matter. */
  lemma ContentChangeKeepsZoneOutcome(store: Store, store': Store, fails: Update -> bool, target: Target,
                                      addrs: OwnAddrs, text: AddrText)
    requires store'.zones == store.zones
    requires SameButContent(store.records, store'.records)
    ensures ZoneOutcome(store', fails, target, addrs, text) == ZoneOutcome(store, fails, target, addrs, text)
  {
    if FindRecords(store, target).Success? {
      var zoneId := ZonesNamed(store, target.zoneName)[0].id;
      var wanted := WantedIn(zoneId, target.recordName);
      FindRecordsIsOneFilter(store, target);
      FindRecordsIsOneFilter(store', target);
      forall k | 0 <= k < |store.records|
        ensures wanted(store'.records[k]) == wanted(store.records[k])
      {
        assert store'.records[k] == store.records[k].(value := store'.records[k].value, ttl := store'.records[k].ttl);
      }
      FilterKeepsSameButContent(wanted, store.records, store'.records);
      PlanIgnoresCurrentContent(FindRecords(store, target).value, FindRecords(store', target).value, addrs, text);
    }
  }

  /** What each target of the configuration yields, in configuration order. */
  function TargetOutcomes(store: Store, fails: Update -> bool, targets: seq<Target>, addrs: OwnAddrs, text: AddrText): (os: seq<Outcome>)
    ensures |os| == |targets|
  {
    if targets == [] then []
    else TargetOutcomes(store, fails, targets[..|targets| - 1], addrs, text)
         + [ZoneOutcome(store, fails, targets[|targets| - 1], addrs, text)]
  }

  /** The outcome for the `k`-th target is that target's own `update_zone`. */
  lemma {:induction false} TargetOutcomesAt(store: Store, fails: Update -> bool, targets: seq<Target>, addrs: OwnAddrs, text: AddrText, k: nat)
    requires k < |targets|
    ensures TargetOutcomes(store, fails, targets, addrs, text)[k] == ZoneOutcome(store, fails, targets[k], addrs, text)
  {
    if k < |targets| - 1 {
      assert targets[..|targets| - 1][k] == targets[k];
      TargetOutcomesAt(store, fails, targets[..|targets| - 1], addrs, text, k);
    }
  }

  /** The reconciliation part of `main`: check the discovered addresses, then
      reconcile the targets in order, stopping at the first error. */
  function RunOutcome(store: Store, fails: Update -> bool, targets: seq<Target>,
                      v4: Option<Ipv4>, v6: Option<Ipv6>, text: AddrText): (o: Outcome)
  {
    match CheckOwnIps(v4, v6)
    case Failure(e) => Outcome([], Aborted(e))
    case Success(addrs) => Chain(TargetOutcomes(store, fails, targets, addrs, text))
  }

  /** With neither address family the run stops before any target is looked at. */
  lemma RunWithoutAddressIssuesNothing(store: Store, fails: Update -> bool, targets: seq<Target>, text: AddrText)
    ensures RunOutcome(store, fails, targets, None, None, text) == Outcome([], Aborted(NoAddress))
  {
  }

  /** A run that completes resolved every target and sent, target after
      target, every call of every target's plan, all accepted. */
  lemma RunCompletedSendsEveryPlan(store: Store, fails: Update -> bool, targets: seq<Target>,
                                   v4: Option<Ipv4>, v6: Option<Ipv6>, text: AddrText)
    requires RunOutcome(store, fails, targets, v4, v6, text).status.Completed?
    ensures v4.Some? || v6.Some?
    ensures var os := TargetOutcomes(store, fails, targets, OwnAddrs(v4, v6), text);
            && RunOutcome(store, fails, targets, v4, v6, text).issued == Flatten(os)
            && forall k :: 0 <= k < |targets| ==>
                 && FindRecords(store, targets[k]).Success?
                 && os[k].issued == Plan(FindRecords(store, targets[k]).value, OwnAddrs(v4, v6), text)
                 && forall u :: u in os[k].issued ==> !fails(u)
  {
    var os := TargetOutcomes(store, fails, targets, OwnAddrs(v4, v6), text);
    forall k | 0 <= k < |targets|
      ensures FindRecords(store, targets[k]).Success?
      ensures os[k].issued == Plan(FindRecords(store, targets[k]).value, OwnAddrs(v4, v6), text)
      ensures forall u :: u in os[k].issued ==> !fails(u)
    {
      TargetOutcomesAt(store, fails, targets, OwnAddrs(v4, v6), text, k);
      assert os[k].status.Completed?;
    }
  }

  /** The first target that fails ends the run: later targets are not looked
      at, and the calls already sent stay sent. */
  lemma RunStopsAtFirstFailingTarget(store: Store, fails: Update -> bool, targets: seq<Target>,
                                     v4: Option<Ipv4>, v6: Option<Ipv6>, text: AddrText, j: nat)
    requires v4.Some? || v6.Some?
    requires var os := TargetOutcomes(store, fails, targets, OwnAddrs(v4, v6), text);
             j < |targets| && os[j].status.Aborted? && forall k :: 0 <= k < j ==> os[k].status.Completed?
    ensures var os := TargetOutcomes(store, fails, targets, OwnAddrs(v4, v6), text);
            RunOutcome(store, fails, targets, v4, v6, text) == Outcome(Flatten(os[..j]) + os[j].issued, os[j].status)
  {
    ChainStopsAtFirstAbort(TargetOutcomes(store, fails, targets, OwnAddrs(v4, v6), text), j);
  }

  /** When the call for record `i` is the first one rejected, sending the
      plan for all of `recs` stops right after that call. */
  lemma FailingStepEndsZone(recs: seq<Record>, i: nat, addrs: OwnAddrs, text: AddrText, fails: Update -> bool, u: Update)
    requires AllAddressTyped(recs) && i < |recs|
    requires forall v :: v in Plan(recs[..i], addrs, text) ==> !fails(v)
    requires Step(recs[i], addrs, text) == [u] && fails(u)
    ensures Attempt(Plan(recs, addrs, text), fails) == Outcome(Plan(recs[..i], addrs, text) + [u], Aborted(UpdateFailed(u.recordId)))
  {
    PlanSnoc(recs, i, addrs, text);
    assert recs == recs[..i + 1] + recs[i + 1..];
    PlanAppend(recs[..i + 1], recs[i + 1..], addrs, text);
    AttemptStopsAtFirstFailure(Plan(recs, addrs, text), fails, Plan(recs[..i], addrs, text), u);
  }

  /** The loop of `update_zone` over the selected records: for each one either
      skip it (no address of its family) or send its update, returning at the
      first rejected call. */
  method SendUpdates(client: Client, records: seq<Record>, addrs: OwnAddrs, text: AddrText) returns (status: Status)
    requires AllAddressTyped(records)
    modifies client
    ensures var o := Attempt(Plan(records, addrs, text), client.fails);
            client.log == old(client.log) + o.issued && status == o.status
  {
    ghost var sent: seq<Update> := [];
    for i := 0 to |records|
      invariant sent == Plan(records[..i], addrs, text)
      invariant client.log == old(client.log) + sent
      invariant forall u :: u in sent ==> !client.fails(u)
    {
      var rec := records[i];
      PlanSnoc(records, i, addrs, text);
      var value := NewValue(rec, addrs, text);
      if value.None? {
        continue;
      }
      var data := UpdateRecordData(rec.name, 60, rec.typ, value.value, rec.zoneId);
      ghost var u := Update(rec.id, data);
      assert Step(rec, addrs, text) == [u];
      var ok := client.UpdateRecord(rec.id, data);
      AppendAssoc(old(client.log), sent, [u]);
      if !ok {
        FailingStepEndsZone(records, i, addrs, text, client.fails, u);
        return Aborted(UpdateFailed(rec.id));
      }
      sent := sent + [u];
    }
    assert records[..|records|] == records;
    return Completed;
  }

  /** `update_zone`: select the target's records, then send their updates. */
  method UpdateZone(client: Client, target: Target, addrs: OwnAddrs, text: AddrText) returns (status: Status)
    modifies client
    ensures var o := ZoneOutcome(client.store, client.fails, target, addrs, text);
            client.log == old(client.log) + o.issued && status == o.status
  {
    var found := FindRecords(client.store, target);
    if found.Failure? {
      return Aborted(found.error);
    }
    status := SendUpdates(client, found.value, addrs, text);
  }

  /** The target loop of `main`: reconcile every target in order and stop at
      the first error. */
  method RunTargets(client: Client, targets: seq<Target>, addrs: OwnAddrs, text: AddrText) returns (status: Status)
    modifies client
    ensures var o := Chain(TargetOutcomes(client.store, client.fails, targets, addrs, text));
            client.log == old(client.log) + o.issued && status == o.status
  {
    ghost var os := TargetOutcomes(client.store, client.fails, targets, addrs, text);
    for i := 0 to |targets|
      invariant client.log == old(client.log) + Flatten(os[..i])
      invariant i <= FirstAborted(os)
    {
      TargetOutcomesAt(client.store, client.fails, targets, addrs, text, i);
      var s := UpdateZone(client, targets[i], addrs, text);
      assert s == os[i].status;
      FlattenSnoc(os, i);
      AppendAssoc(old(client.log), Flatten(os[..i]), os[i].issued);
      if s.Aborted? {
        ChainStopsAtFirstAbort(os, i);
        return s;
      }
      FirstAbortedPast(os, i);
    }
    assert os[..|targets|] == os;
    return Completed;
  }

  /** The reconciliation part of `main`, after address discovery: give up when
      no address was found, otherwise reconcile the targets. */
  method Run(client: Client, targets: seq<Target>, v4: Option<Ipv4>, v6: Option<Ipv6>, text: AddrText) returns (status: Status)
    modifies client
    ensures var o := RunOutcome(client.store, client.fails, targets, v4, v6, text);
            client.log == old(client.log) + o.issued && status == o.status
  {
    var ips := CheckOwnIps(v4, v6);
    if ips.Failure? {
      return Aborted(ips.error);
    }
    status := RunTargets(client, targets, ips.value, text);
  }
}
