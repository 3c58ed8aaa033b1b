/** The reconciliation step of the older Python script: the same provider
    and the same update payload as the Rust program, but the record loop itself
    skips other record types, and the address of a family is fetched only when
    a record of that family needs it, a failed fetch ending the run. */
module DdnsPy {
  import opened Wrappers
  import opened Seqs
  import opened HetznerDns
  import opened Outcomes
  import Ddns

  /** What fetching each address family yields during a run: the response text,
      or `None` when the fetch raises. Successful fetches are cached, so a run
      sees one answer per family. */
  datatype Discovery = Discovery(v4: Option<string>, v6: Option<string>)

  /** What the loop body of `process_target` does with one record. */
  datatype Action = Skip | Send(value: string) | Raise(error: RunError)

  /** The `match` on the record's type: A takes the IPv4 text, AAAA the IPv6
      text (raising when that fetch fails), anything else is skipped. */
  function ActionFor(rec: Record, d: Discovery): (a: Action)
    ensures a.Skip? <==> !Ddns.IsAddressType(rec.typ)
    ensures a.Send? ==> (rec.typ == "A" && d.v4 == Some(a.value)) || (rec.typ == "AAAA" && d.v6 == Some(a.value))
    ensures a.Raise? <==> Missing(rec, d)
    ensures a.Raise? ==> a.error == DiscoveryFailed(rec.typ)
  {
    if rec.typ == "A" then
      match d.v4
      case Some(v) => Send(v)
      case None => Raise(DiscoveryFailed("A"))
    else if rec.typ == "AAAA" then
      match d.v6
      case Some(v) => Send(v)
      case None => Raise(DiscoveryFailed("AAAA"))
    else Skip
  }

  /** The record needs an address whose fetch fails. */
  predicate Missing(rec: Record, d: Discovery)
  {
    (rec.typ == "A" && d.v4.None?) || (rec.typ == "AAAA" && d.v6.None?)
  }

  /** The update calls the loop makes when the provider accepts them all, and
      the error raised by a fetch, if one was raised (the loop stops there). */
  datatype Script = Script(calls: seq<Update>, raised: Option<RunError>)

  /** What the loop does with one more record after script `prev`. */
  function Next(prev: Script, rec: Record, d: Discovery): Script
  {
    if prev.raised.Some? then prev
    else match ActionFor(rec, d)
      case Skip => prev
      case Raise(e) => Script(prev.calls, Some(e))
      case Send(v) => Script(prev.calls + [Ddns.UpdateFor(rec, v)], None)
  }

  /** The script of `process_target`'s loop over `recs`. */
  function Scripted(recs: seq<Record>, d: Discovery): Script
  {
    if recs == [] then Script([], None)
    else Next(Scripted(recs[..|recs| - 1], d), recs[|recs| - 1], d)
  }

  /** One more record extends the script by what the loop does with it. */
  lemma ScriptedSnoc(recs: seq<Record>, rec: Record, d: Discovery)
    ensures Scripted(recs + [rec], d) == Next(Scripted(recs, d), rec, d)
  {
    assert (recs + [rec])[..|recs|] == recs;
  }

  /** Once a fetch has raised, later records change nothing. */
  lemma {:induction false} ScriptedStopsAtRaise(recs: seq<Record>, j: nat, d: Discovery)
    requires j <= |recs| && Scripted(recs[..j], d).raised.Some?
    ensures Scripted(recs, d) == Scripted(recs[..j], d)
  {
    if j < |recs| {
      var init := recs[..|recs| - 1];
      assert init[..j] == recs[..j];
      ScriptedStopsAtRaise(init, j, d);
    } else {
      assert recs[..j] == recs;
    }
  }

  /** The calls scripted for a prefix of the records are a prefix of the
      calls scripted for all of them. */
  lemma {:induction false} ScriptedPrefix(recs: seq<Record>, j: nat, d: Discovery)
    requires j <= |recs|
    ensures Scripted(recs[..j], d).calls <= Scripted(recs, d).calls
  {
    if j < |recs| {
      var init := recs[..|recs| - 1];
      assert init[..j] == recs[..j];
      ScriptedPrefix(init, j, d);
    } else {
      assert recs[..j] == recs;
    }
  }

  /** A fetch raises exactly when some record needs a family whose fetch
      fails; then it is the first such record's type that is reported. */
  lemma {:induction false} ScriptedRaisesIffMissing(recs: seq<Record>, d: Discovery)
    ensures Scripted(recs, d).raised.None? <==> forall k :: 0 <= k < |recs| ==> !Missing(recs[k], d)
    ensures Scripted(recs, d).raised.Some? ==>
              exists k :: 0 <= k < |recs| && Missing(recs[k], d)
                && (forall l :: 0 <= l < k ==> !Missing(recs[l], d))
                && Scripted(recs, d).raised == Some(DiscoveryFailed(recs[k].typ))
  {
    if recs != [] {
      var init := recs[..|recs| - 1];
      ScriptedRaisesIffMissing(init, d);
      if Scripted(init, d).raised.Some? {
        var k :| 0 <= k < |init| && Missing(init[k], d)
                 && (forall l :: 0 <= l < k ==> !Missing(init[l], d))
                 && Scripted(init, d).raised == Some(DiscoveryFailed(init[k].typ));
        assert recs[k] == init[k];
        assert forall l :: 0 <= l < k ==> recs[l] == init[l];
      } else {
        assert forall l :: 0 <= l < |init| ==> recs[l] == init[l];
      }
    }
  }

  /** Records of other types are skipped without a call and without an error:
      the script is that of the A and AAAA records alone. */
  lemma {:induction false} ScriptedIgnoresOtherTypes(recs: seq<Record>, d: Discovery)
    ensures Scripted(recs, d) == Scripted(Filter(Ddns.IsAddressRecord, recs), d)
  {
    if recs != [] {
      var init, last := recs[..|recs| - 1], recs[|recs| - 1];
      ScriptedIgnoresOtherTypes(init, d);
      assert recs == init + [last];
      FilterAppend(Ddns.IsAddressRecord, init, [last]);
      var kept := Filter(Ddns.IsAddressRecord, init);
      ScriptedSnoc(init, last, d);
      if Ddns.IsAddressRecord(last) {
        assert Filter(Ddns.IsAddressRecord, recs) == kept + [last];
        ScriptedSnoc(kept, last, d);
      } else {
        assert Filter(Ddns.IsAddressRecord, recs) == kept;
      }
    }
  }

  /** Without a failing fetch, exactly the A and AAAA records get one call
      each, in order; each call is keyed by the record's id, copies its name,
      type and zone id, sets the TTL to 60 and carries the fetched text. */
  lemma {:induction false} ScriptedUpdatesEachAddressRecord(recs: seq<Record>, d: Discovery)
    requires Scripted(recs, d).raised.None?
    ensures var ready := Filter(Ddns.IsAddressRecord, recs);
            var calls := Scripted(recs, d).calls;
            && |calls| == |ready|
            && forall k :: 0 <= k < |ready| ==>
                 && ActionFor(ready[k], d).Send?
                 && calls[k] == Update(ready[k].id, UpdateRecordData(ready[k].name, 60, ready[k].typ,
                                                                     ActionFor(ready[k], d).value, ready[k].zoneId))
  {
    if recs != [] {
      var init, last := recs[..|recs| - 1], recs[|recs| - 1];
      assert recs == init + [last];
      ScriptedSnoc(init, last, d);
      ScriptedUpdatesEachAddressRecord(init, d);
      FilterAppend(Ddns.IsAddressRecord, init, [last]);
      var kept := Filter(Ddns.IsAddressRecord, init);
      if Ddns.IsAddressRecord(last) {
        assert Filter(Ddns.IsAddressRecord, recs) == kept + [last];
      } else {
        assert Filter(Ddns.IsAddressRecord, recs) == kept;
      }
    }
  }

  /** On A and AAAA records alone, with both fetches yielding the texts the
      Rust program would write, the script is the Rust program's plan. */
  lemma {:induction false} ScriptedMatchesPlan(recs: seq<Record>, d: Discovery, addrs: Ddns.OwnAddrs, text: Ddns.AddrText)
    requires Ddns.AllAddressTyped(recs)
    requires addrs.v4.Some? && d.v4 == Some(text.v4(addrs.v4.value))
    requires addrs.v6.Some? && d.v6 == Some(text.v6(addrs.v6.value))
    ensures Scripted(recs, d) == Script(Ddns.Plan(recs, addrs, text), None)
  {
    if recs != [] {
      var init, last := recs[..|recs| - 1], recs[|recs| - 1];
      ScriptedMatchesPlan(init, d, addrs, text);
      assert recs == init + [last];
      ScriptedSnoc(init, last, d);
    }
  }

  /** When both fetches succeed and yield the texts the Rust program would
      write, the Python loop issues the same calls as the Rust program's plan
      for the A and AAAA records. */
  lemma ScriptedAgreesWithRust(recs: seq<Record>, d: Discovery, addrs: Ddns.OwnAddrs, text: Ddns.AddrText)
    requires addrs.v4.Some? && d.v4 == Some(text.v4(addrs.v4.value))
    requires addrs.v6.Some? && d.v6 == Some(text.v6(addrs.v6.value))
    ensures Ddns.AllAddressTyped(Filter(Ddns.IsAddressRecord, recs))
    ensures Scripted(recs, d) == Script(Ddns.Plan(Filter(Ddns.IsAddressRecord, recs), addrs, text), None)
  {
    var ready := Filter(Ddns.IsAddressRecord, recs);
    assert forall k | 0 <= k < |ready| :: ready[k] in ready;
    ScriptedIgnoresOtherTypes(recs, d);
    ScriptedMatchesPlan(ready, d, addrs, text);
  }

  /** The outcome of the script when the provider rejects the calls `fails`
      says: the calls are sent until one is rejected; a raised fetch ends the
      loop after the calls before it. */
  function Perform(s: Script, fails: Update -> bool): (o: Outcome)
    ensures o.issued <= s.calls
    ensures o.status.Completed? <==> s.raised.None? && forall u :: u in s.calls ==> !fails(u)
    ensures o.status.Completed? ==> o.issued == s.calls
    ensures s.raised.Some? && (forall u :: u in s.calls ==> !fails(u)) ==>
              o == Outcome(s.calls, Aborted(s.raised.value))
    ensures (exists u :: u in s.calls && fails(u)) ==> o == Attempt(s.calls, fails)
  {
    var o := Attempt(s.calls, fails);
    if o.status.Completed? && s.raised.Some? then Outcome(o.issued, Aborted(s.raised.value)) else o
  }

  /** `get_zone` followed by the generator of `process_target`: the records
      of the first zone the name lookup returns (an empty lookup raises) whose
      name is exactly the target's record name, whatever their type. */
  function Candidates(store: Store, target: Ddns.Target): (r: Result<seq<Record>, RunError>)
    ensures r.Failure? <==> ZonesNamed(store, target.zoneName) == []
    ensures r.Failure? ==> r.error == ZoneMissing(target.zoneName)
  {
    var zones := ZonesNamed(store, target.zoneName);
    if zones == [] then Failure(ZoneMissing(target.zoneName))
    else Success(Filter(Ddns.NamedAs(target.recordName), RecordsOfZone(store, zones[0].id)))
  }

  /** The candidates are the records of the first zone named like the target
      whose name is the target's record name, each once, in provider order. */
  lemma CandidatesSelectNamed(store: Store, target: Ddns.Target)
    requires Candidates(store, target).Success?
    ensures var zoneId := ZonesNamed(store, target.zoneName)[0].id;
            forall rec :: rec in Candidates(store, target).value <==>
              rec in store.records && rec.zoneId == zoneId && rec.name == target.recordName
    ensures var zoneId := ZonesNamed(store, target.zoneName)[0].id;
            exists idx ::
              && Embeds(Candidates(store, target).value, store.records, idx)
              && forall i :: 0 <= i < |store.records| ==>
                   (i in idx <==> store.records[i].zoneId == zoneId && store.records[i].name == target.recordName)
  {
    var zoneId := ZonesNamed(store, target.zoneName)[0].id;
    var both := (rec: Record) => rec.zoneId == zoneId && rec.name == target.recordName;
    FilterFuse(InZone(zoneId), Ddns.NamedAs(target.recordName), both, store.records);
    FilterKeepsOrder(both, store.records);
  }

  /** The Rust selection is the Python candidates with the other types left out. */
  lemma CandidatesThenTypes(store: Store, target: Ddns.Target)
    ensures Candidates(store, target).Failure? <==> Ddns.FindRecords(store, target).Failure?
    ensures Candidates(store, target).Success? ==>
              Ddns.FindRecords(store, target).value == Filter(Ddns.IsAddressRecord, Candidates(store, target).value)
  {
  }

  /** `process_target` for one target, when the provider's answers are
      `store` and `fails` and the fetches yield `d`. */
  function TargetOutcome(store: Store, fails: Update -> bool, target: Ddns.Target, d: Discovery): (o: Outcome)
  {
    match Candidates(store, target)
    case Failure(e) => Outcome([], Aborted(e))
    case Success(recs) => Perform(Scripted(recs, d), fails)
  }

  /** When both fetches succeed with the texts the Rust program would write,
      a target ends the same way in both programs and issues the same calls. */
  lemma TargetAgreesWithRust(store: Store, fails: Update -> bool, target: Ddns.Target,
                             d: Discovery, addrs: Ddns.OwnAddrs, text: Ddns.AddrText)
    requires addrs.v4.Some? && d.v4 == Some(text.v4(addrs.v4.value))
    requires addrs.v6.Some? && d.v6 == Some(text.v6(addrs.v6.value))
    ensures TargetOutcome(store, fails, target, d) == Ddns.ZoneOutcome(store, fails, target, addrs, text)
  {
    CandidatesThenTypes(store, target);
    if Candidates(store, target).Success? {
      ScriptedAgreesWithRust(Candidates(store, target).value, d, addrs, text);
    }
  }

  /** Where the programs part: a host without IPv6 whose zone holds an AAAA
      record named like the target. The Rust program skips that record and the
      target completes; the Python script raises at that record. */
  lemma MissingFamilyDiverges(rec: Record, d: Discovery, addrs: Ddns.OwnAddrs, text: Ddns.AddrText, fails: Update -> bool)
    requires rec.typ == "AAAA" && d.v6.None? && addrs.v6.None?
    ensures Ddns.Plan([rec], addrs, text) == []
    ensures Attempt(Ddns.Plan([rec], addrs, text), fails) == Outcome([], Completed)
    ensures Perform(Scripted([rec], d), fails) == Outcome([], Aborted(DiscoveryFailed("AAAA")))
  {
    assert [rec][..0] == [];
  }

  /** The loop never reads a record's value or TTL. */
  lemma {:induction false} ScriptedIgnoresCurrentContent(recs: seq<Record>, recs': seq<Record>, d: Discovery)
    requires SameButContent(recs, recs')
    ensures Scripted(recs', d) == Scripted(recs, d)
  {
    if recs != [] {
      var n := |recs| - 1;
      assert recs'[n] == recs[n].(value := recs'[n].value, ttl := recs'[n].ttl);
      ScriptedIgnoresCurrentContent(recs[..n], recs'[..n], d);
    }
  }

  /** Records that differ only in value and TTL give a target the same
      outcome, so what earlier targets wrote does not change a later one. */
  lemma ContentChangeKeepsTargetOutcome(store: Store, store': Store, fails: Update -> bool, target: Ddns.Target, d: Discovery)
    requires store'.zones == store.zones
    requires SameButContent(store.records, store'.records)
    ensures TargetOutcome(store', fails, target, d) == TargetOutcome(store, fails, target, d)
  {
    if Candidates(store, target).Success? {
      var zoneId := ZonesNamed(store, target.zoneName)[0].id;
      var named := Ddns.NamedAs(target.recordName);
      var rs, rs' := store.records, store'.records;
      forall k | 0 <= k < |rs|
        ensures InZone(zoneId)(rs'[k]) == InZone(zoneId)(rs[k])
      {
        assert rs'[k] == rs[k].(value := rs'[k].value, ttl := rs'[k].ttl);
      }
      FilterKeepsSameButContent(InZone(zoneId), rs, rs');
      var zs, zs' := RecordsOfZone(store, zoneId), RecordsOfZone(store', zoneId);
      forall k | 0 <= k < |zs|
        ensures named(zs'[k]) == named(zs[k])
      {
        assert zs'[k] == zs[k].(value := zs'[k].value, ttl := zs'[k].ttl);
      }
      FilterKeepsSameButContent(named, zs, zs');
      ScriptedIgnoresCurrentContent(Candidates(store, target).value, Candidates(store', target).value, d);
    }
  }

  /** What each target of the configuration yields, in configuration order. */
  function TargetOutcomes(store: Store, fails: Update -> bool, targets: seq<Ddns.Target>, d: Discovery): (os: seq<Outcome>)
    ensures |os| == |targets|
  {
    if targets == [] then []
    else TargetOutcomes(store, fails, targets[..|targets| - 1], d)
         + [TargetOutcome(store, fails, targets[|targets| - 1], d)]
  }

  /** The outcome for the `k`-th target is that target's own `process_target`. */
  lemma {:induction false} TargetOutcomesAt(store: Store, fails: Update -> bool, targets: seq<Ddns.Target>, d: Discovery, k: nat)
    requires k < |targets|
    ensures TargetOutcomes(store, fails, targets, d)[k] == TargetOutcome(store, fails, targets[k], d)
  {
    if k < |targets| - 1 {
      assert targets[..|targets| - 1][k] == targets[k];
      TargetOutcomesAt(store, fails, targets[..|targets| - 1], d, k);
    }
  }

  /** When the record for index `i` gets a call the provider rejects, the
      target stops right after that call. */
  lemma FailingCallEndsTarget(recs: seq<Record>, i: nat, d: Discovery, fails: Update -> bool, sent: seq<Update>, u: Update)
    requires i < |recs|
    requires Scripted(recs[..i], d) == Script(sent, None)
    requires forall v :: v in sent ==> !fails(v)
    requires Scripted(recs[..i + 1], d) == Script(sent + [u], None) && fails(u)
    ensures Perform(Scripted(recs, d), fails) == Outcome(sent + [u], Aborted(UpdateFailed(u.recordId)))
  {
    ScriptedPrefix(recs, i + 1, d);
    AttemptStopsAtFirstFailure(Scripted(recs, d).calls, fails, sent, u);
  }

  /** The loop of `process_target` over the candidate records: skip other
      types, raise when the needed fetch fails, otherwise send the update,
      stopping at the first rejected call. */
  method ProcessRecords(client: Client, records: seq<Record>, d: Discovery) returns (status: Status)
    modifies client
    ensures var o := Perform(Scripted(records, d), client.fails);
            client.log == old(client.log) + o.issued && status == o.status
  {
    ghost var sent: seq<Update> := [];
    for i := 0 to |records|
      invariant Scripted(records[..i], d) == Script(sent, None)
      invariant client.log == old(client.log) + sent
      invariant forall u :: u in sent ==> !client.fails(u)
    {
      var rec := records[i];
      assert records[..i + 1] == records[..i] + [rec];
      ScriptedSnoc(records[..i], rec, d);
      var newValue: string;
      if rec.typ == "A" {
        if d.v4.None? {
          ScriptedStopsAtRaise(records, i + 1, d);
          return Aborted(DiscoveryFailed("A"));
        }
        newValue := d.v4.value;
      } else if rec.typ == "AAAA" {
        if d.v6.None? {
          ScriptedStopsAtRaise(records, i + 1, d);
          return Aborted(DiscoveryFailed("AAAA"));
        }
        newValue := d.v6.value;
      } else {
        continue;
      }
      var data := UpdateRecordData(rec.name, 60, rec.typ, newValue, rec.zoneId);
      ghost var u := Update(rec.id, data);
      assert Scripted(records[..i + 1], d) == Script(sent + [u], None);
      var ok := client.UpdateRecord(rec.id, data);
      AppendAssoc(old(client.log), sent, [u]);
      if !ok {
        FailingCallEndsTarget(records, i, d, client.fails, sent, u);
        return Aborted(UpdateFailed(rec.id));
      }
      sent := sent + [u];
    }
    assert records[..|records|] == records;
    return Completed;
  }

  /** `process_target`: look the zone up, then run the loop over its records
      named like the target. */
  method ProcessTarget(client: Client, target: Ddns.Target, d: Discovery) returns (status: Status)
    modifies client
    ensures var o := TargetOutcome(client.store, client.fails, target, d);
            client.log == old(client.log) + o.issued && status == o.status
  {
    var zones := ZonesNamed(client.store, target.zoneName);
    if zones == [] {
      return Aborted(ZoneMissing(target.zoneName));
    }
    var records := Filter(Ddns.NamedAs(target.recordName), RecordsOfZone(client.store, zones[0].id));
    status := ProcessRecords(client, records, d);
  }

  /** The target loop of `main`: process every target in order; an exception
      in one ends the run. */
  method RunTargets(client: Client, targets: seq<Ddns.Target>, d: Discovery) returns (status: Status)
    modifies client
    ensures var o := Chain(TargetOutcomes(client.store, client.fails, targets, d));
            client.log == old(client.log) + o.issued && status == o.status
  {
    ghost var os := TargetOutcomes(client.store, client.fails, targets, d);
    for i := 0 to |targets|
      invariant client.log == old(client.log) + Flatten(os[..i])
      invariant i <= FirstAborted(os)
    {
      TargetOutcomesAt(client.store, client.fails, targets, d, i);
      var s := ProcessTarget(client, targets[i], d);
      assert s == os[i].status;
      FlattenSnoc(os, i);
      AppendAssoc(old(client.log), Flatten(os[..i]), os[i].issued);
      if s.Aborted? {
        ChainStopsAtFirstAbort(os, i);
        return s;
      }
      FirstAbortedPast(os, i);
    }
    assert os[..|targets|] == os;
    return Completed;
  }
}
