# hetzner-ddns reconciliation, modelled in Dafny

hetzner-ddns keeps DNS records at the Hetzner DNS provider pointed at the
host's current public addresses. A configuration lists targets. Each target
is a zone name plus a record name. For each target the program does four things:

1. It looks up the zone by name and takes the first zone returned.
2. It lists that zone's records.
3. It keeps the records named exactly like the target that are of type A or AAAA.
4. It sends one update per kept record.

Each update replaces the record's value with the host's address of the
record's family and sets the TTL to 60 seconds. The repository holds two
programs that do this:

- The Rust program, in `src/main.rs`:
  - It discovers both address families first.
  - It gives up if there is neither.
  - It skips records whose family the host lacks.
  - It stops the whole run at the first error.
- The older Python script, in `src/hetzner_ddns/main.py`:
  - It filters by name only.
  - It skips other record types inside its loop.
  - It fetches an address family only when a record needs it.
  - An exception, such as a failed fetch or a rejected update, ends the run.

The project models this reconciliation step in both programs. It proves:

- which records are selected;
- which update calls are sent, and in what order;
- which calls carry which payload;
- how a run ends;
- where the two programs agree and where they differ.

Files (one module each):

- `wrappers.dfy`: `Option` and `Result`.
- `seqs.dfy`: `Filter`, the model of an iterator `filter`/`collect` chain. Its lemmas cover order preservation (`Embeds`), concatenation and fusing two filters into one.
- `hetzner_dns.dfy`: the provider as an in-memory object.
  - `Store` holds the zones and records, in listing order.
  - `ZonesNamed` and `RecordsOfZone` are the two listing calls, with their server-side filters.
  - The `Client` class has a constant `store`, a constant predicate `fails` that says which update calls the provider rejects, and a `log` of the update calls issued.
- `outcomes.dfy`:
  - `Attempt` sends a list of calls and stops after the first rejected one.
  - `Chain` runs targets in order and stops after the first one that aborts. This is `?` in Rust and an uncaught exception in Python.
- `ddns.dfy`: the Rust program.
  - Pure parts are functions: `CheckOwnIps`, `FindRecords` and the per-record `Step`/`Plan`.
  - The loops are methods over a `Client`: `SendUpdates`, `UpdateZone`, `RunTargets` and `Run`. Each is proved against a specification function (`Attempt(Plan(..))`, `ZoneOutcome`, `Chain(TargetOutcomes(..))`, `RunOutcome`).
- `ddns_py.dfy`: the Python script.
  - `ActionFor` is the `match` on the record type.
  - `Scripted` is the loop's calls and raised error.
  - `Perform` adds the provider's rejections.
  - The methods `ProcessRecords`, `ProcessTarget` and `RunTargets` are proved against those functions.
- `scenario.dfy`: one concrete zone, run through both programs.

Addresses are values of `Ipv4`/`Ipv6` (integers of 32 and 128 bits). Their
text form (`to_string`) is the abstract parameter `AddrText`. In the Python
script, the address fetches are modelled as a `Discovery` value: for each
family, the fetched text, or `None` when the fetch raises.

## Model

| member | source | states |
|---|---|---|
| HetznerDns.Client.constructor | src/hetzner_dns.rs:93-111 | a fresh client starts with an empty update log; its store and rejection predicate are the ones given |
| HetznerDns.Client.UpdateRecord | src/hetzner_dns.rs:153-166 | the call is appended to the log whether or not it succeeds; it succeeds exactly when the provider does not reject it |
| Seqs.Filter | src/main.rs:155-162 | the filtered sequence is no longer than the input and holds exactly the input elements that satisfy the predicate |
| Seqs.FilterKeepsOrder | src/main.rs:159-162 | filtering keeps a subsequence of the input, in input order, at exactly the positions whose element satisfies the predicate |
| Seqs.FilterFuse | src/main.rs:160-161 | two filters in a row keep the same elements as one filter on the conjunction |
| Seqs.FilterAppend | src/main.rs:159-162 | filtering a concatenation is the concatenation of the filtered parts |
| Outcomes.FirstRejected | src/main.rs:123-134 | the position of the first rejected call: all calls before it are accepted, the one at it is rejected |
| Outcomes.Attempt | src/main.rs:123-134 | the issued calls are a prefix of the plan; completed iff every planned call is accepted, and then all were issued; an abort ends with the one rejected call and reports its record id |
| Outcomes.AttemptStopsAtFirstFailure | src/main.rs:123-134 | when `u` is the first rejected call, exactly the calls up to and including `u` are issued |
| Outcomes.FirstAborted | src/main.rs:78-80 | the first target that aborted: every earlier target completed |
| Outcomes.Chain | src/main.rs:78-80 | a run completes iff every target completes, and then it issued every target's calls in target order; otherwise what it issued is a prefix of that |
| Outcomes.ChainStopsAtFirstAbort | src/main.rs:78-80 | the first aborting target ends the run with its error; later targets issue nothing; earlier calls stay issued |
| Outcomes.FlattenSnoc | src/main.rs:78-80 | the calls of one more target are appended after those of the earlier targets |
| Ddns.CheckOwnIps | src/main.rs:186-205 | fails with `NoAddress` iff both families are absent; otherwise passes the pair on unchanged |
| Ddns.FindRecords | src/main.rs:140-166 | fails with `ZoneMissing` iff the zone lookup is empty; every selected record is of type A or AAAA |
| Ddns.FindRecordsIsOneFilter | src/main.rs:145-162 | the selection is one filter of the provider's records: in the first zone named like the target, exact record name, type A or AAAA |
| Ddns.FindRecordsSelectsWanted | src/main.rs:155-162 | a record is selected iff it is in the first matching zone, its name equals the target's record name exactly, and its type is A or AAAA |
| Ddns.FindRecordsInProviderOrder | src/main.rs:155-162 | the selection is a subsequence of the provider's listing, in listing order, at exactly the positions of the wanted records |
| Ddns.PlanAppend | src/main.rs:97-135 | records are handled independently: the calls for two runs of records are the calls of the first, then those of the second |
| Ddns.PlanUpdatesEachRecordWithAddress | src/main.rs:97-133 | exactly the records whose family address the host has get one call each, in order; the call is keyed by the record id, copies name, type and zone id, sets TTL 60, and carries the address text of the record's family |
| Ddns.PlanIgnoresCurrentContent | src/main.rs:97-135 | the calls do not depend on the records' current value or TTL, so there is no no-op detection |
| Ddns.PlannedUpdateChangesOnlyContent | src/main.rs:123-133 | when the provider applies the update call for a listed record (record ids unique), only that record's value and TTL change, because the call copies its id, name, type and zone id |
| Ddns.ContentChangeKeepsZoneOutcome | src/main.rs:95-166 | records that differ only in value and TTL give `update_zone` the same outcome: the same selection, the same calls and the same status |
| Ddns.ZoneOutcomeIsPrefixOfPlan | src/main.rs:95-138 | an empty zone lookup issues nothing and aborts; otherwise the issued calls are a prefix of the plan, and the target completes iff all of the plan is issued and accepted |
| Ddns.FailingStepEndsZone | src/main.rs:123-134 | when a record's call is the first one rejected, the target stops right after that call |
| Ddns.TargetOutcomesAt | src/main.rs:78-80 | the outcome for the k-th target is that target's own `update_zone` |
| Ddns.RunWithoutAddressIssuesNothing | src/main.rs:70 | with neither address family, the run aborts with `NoAddress` before any target is looked up |
| Ddns.RunCompletedSendsEveryPlan | src/main.rs:70-80 | a completed run had an address; every target's zone was found and every target's plan was sent, all accepted, target after target |
| Ddns.RunStopsAtFirstFailingTarget | src/main.rs:78-80 | the first target that fails ends the run with its error; earlier calls stay sent and later targets send nothing |
| Ddns.SendUpdates | src/main.rs:97-135 | the loop appends to the provider log exactly what `Attempt` on the plan issues, and returns its status |
| Ddns.UpdateZone | src/main.rs:95-138 | `update_zone` appends exactly the issued calls of `ZoneOutcome` to the log and returns its status |
| Ddns.RunTargets | src/main.rs:78-80 | the target loop appends exactly what `Chain` over the targets' outcomes issues, and returns its status |
| Ddns.Run | src/main.rs:70-80 | the address check followed by the target loop appends exactly what `RunOutcome` issues, and returns its status |
| DdnsPy.ActionFor | src/hetzner_ddns/main.py:31-37 | other types are skipped; A takes the IPv4 text and AAAA the IPv6 text; it raises iff the needed fetch fails, reporting the record's type |
| DdnsPy.ScriptedStopsAtRaise | src/hetzner_ddns/main.py:33-35 | once a fetch has raised, later records change nothing |
| DdnsPy.ScriptedPrefix | src/hetzner_ddns/main.py:30-49 | the calls for a prefix of the records are a prefix of the calls for all of them |
| DdnsPy.ScriptedRaisesIffMissing | src/hetzner_ddns/main.py:30-37 | the loop raises iff some record needs a family whose fetch fails; the error names the first such record's type |
| DdnsPy.ScriptedIgnoresOtherTypes | src/hetzner_ddns/main.py:36-37 | records of other types change nothing: the script equals the script of the A and AAAA records alone |
| DdnsPy.ScriptedUpdatesEachAddressRecord | src/hetzner_ddns/main.py:30-49 | without a failing fetch, each A and AAAA record gets exactly one call, in order; the call is keyed by the record id, copies name, type and zone id, sets TTL 60, and carries the fetched text |
| DdnsPy.ScriptedIgnoresCurrentContent | src/hetzner_ddns/main.py:30-49 | the loop's calls and raised error do not depend on the records' current value or TTL |
| DdnsPy.ContentChangeKeepsTargetOutcome | src/hetzner_ddns/main.py:26-49 | records that differ only in value and TTL give `process_target` the same outcome |
| DdnsPy.ScriptedMatchesPlan | src/hetzner_ddns/main.py:30-49 | on A and AAAA records, with fetches yielding the Rust program's texts, the script is the Rust plan |
| DdnsPy.ScriptedAgreesWithRust | src/hetzner_ddns/main.py:30-49 | with both fetches succeeding, the Python loop issues the Rust plan for the records of type A and AAAA |
| DdnsPy.Perform | src/hetzner_ddns/main.py:40-49 | when some call of the script is rejected, the outcome is that of sending the calls until the first rejection (`Attempt`); otherwise the run completes iff nothing raised, and a raised fetch aborts with that error after all the calls; the calls issued are always a prefix of the script's |
| DdnsPy.Candidates | src/hetzner_ddns/main.py:28-29 | fails with `ZoneMissing` iff the zone lookup is empty; otherwise the records of the first zone filtered by name |
| DdnsPy.CandidatesSelectNamed | src/hetzner_ddns/main.py:28-29 | a record is a candidate iff it is in the first matching zone and its name equals the target's record name, whatever its type; the candidates are a subsequence of the listing, in listing order, at exactly those positions |
| DdnsPy.CandidatesThenTypes | src/hetzner_ddns/hetzner_api.py:23-26 | both programs find or miss the zone alike; the Rust selection is the Python candidates restricted to A and AAAA |
| DdnsPy.TargetAgreesWithRust | src/hetzner_ddns/main.py:26-49 | with both fetches succeeding and yielding the Rust program's texts, a target issues the same calls and ends the same way in both programs |
| DdnsPy.MissingFamilyDiverges | src/hetzner_ddns/main.py:34-35 | with no IPv6, an AAAA record is skipped by the Rust program (the target completes) but makes the Python script raise |
| DdnsPy.TargetOutcomesAt | src/hetzner_ddns/main.py:17-18 | the outcome for the k-th target is that target's own `process_target` |
| DdnsPy.FailingCallEndsTarget | src/hetzner_ddns/hetzner_api.py:33-36 | a rejected update call ends the target right after that call |
| DdnsPy.ProcessRecords | src/hetzner_ddns/main.py:30-49 | the loop appends to the log exactly what `Perform` of the script issues, and returns its status |
| DdnsPy.ProcessTarget | src/hetzner_ddns/main.py:26-49 | `process_target` appends exactly what `TargetOutcome` issues, and returns its status |
| DdnsPy.RunTargets | src/hetzner_ddns/main.py:17-18 | the target loop appends exactly what `Chain` over the targets' outcomes issues, and returns its status |
| Scenario.LookupFindsTheZone | src/main.rs:145-153 | on the example store the lookup of `example.com` returns only that zone, although another zone is listed first |
| Scenario.ListingHasAllRecords | src/main.rs:155-158 | every record of the example store belongs to the zone |
| Scenario.NameFilterDropsSubName | src/main.rs:160 | `sub.home` is dropped for target record name `home` |
| Scenario.NameFilterKeepsHome | src/main.rs:160 | the name filter keeps the CNAME, A and AAAA records named `home`, in listing order |
| Scenario.TypeFilterDropsCname | src/main.rs:161 | the type filter drops the CNAME record |
| Scenario.RustSelectsAddressRecords | src/main.rs:140-166 | `find_records` selects the A and then the AAAA record |
| Scenario.RustUpdatesOnlyTheARecord | src/main.rs:95-138 | with IPv4 only, the A record gets one call (TTL 60, the address text); the AAAA record is skipped; the target completes |
| Scenario.PythonRaisesAtTheAaaaRecord | src/hetzner_ddns/main.py:26-49 | with a failing IPv6 fetch, the script updates the A record and then raises at the AAAA record |

## Left out

- HTTP: client construction, the authentication header, URL joining, status checks and JSON decoding. The provider is the in-memory `Client`. An update call fails exactly when `fails` says so.
- Listing failures: the zone and record listing calls always answer in the model. An HTTP error on a listing, which ends the run through `?` or an exception, is not modelled.
- Pagination: the code never asks for a page beyond the first of either listing (src/hetzner_dns.rs:122-151). `Store` is that first page, and zones or records on later pages are not modelled.
- Several zones with the same name: the code takes the first one the lookup returns and raises no error (src/main.rs:151, src/hetzner_ddns/hetzner_api.py:26). The model does the same.
- Per-record results: the code keeps no list of updated, skipped or failed records, and a rejected update ends the whole run (src/main.rs:134 and 79). Skipped records are only logged, so the model has just the update log and one status.
- Errors per target: a missing zone or a rejected update in one target ends the run, and later targets are not processed (`Outcomes.Chain`).
- Address discovery: the two fetches and the text parsing in `get_own_ips` (src/main.rs:168-184) and the Python fetch module (src/hetzner_ddns/kritzl_dev.py). For Rust, the discovered pair is an input to `Ddns.Run`, and `to_string` is the abstract `AddrText`. For Python, each family's answer is a `Discovery` value. `@cache` means a run sees one answer per family. A failed fetch is not cached, but it ends the run.
- The API-key probe (src/main.rs:72-76): an extra zone listing whose only effect is an error on an HTTP failure, and listing failures are not modelled.
- Configuration and CLI parsing, logging and `print`: I/O and formatting only.
- async/tokio: the programs run sequentially, so the model is sequential.
- Fields not read by the reconciler: zone fields beyond id and name; record creation and modification times.
- The provider's records after an update: the `Client` keeps one `store` for the whole run and only logs the update calls. Every target lists its zone again (src/main.rs:155-157, src/hetzner_ddns/main.py:29), so a later target can read records that earlier calls rewrote. Two facts show this makes no difference, so the model leaves the store unchanged. First, a call the provider applies changes only the value and the TTL of the record it targets (`Ddns.PlannedUpdateChangesOnlyContent`, with record ids unique). Second, records that differ only in value and TTL give every target the same outcome in both programs (`Ddns.ContentChangeKeepsZoneOutcome`, `DdnsPy.ContentChangeKeepsTargetOutcome`).
- TTL width: the TTL is modelled as `nat` instead of a 64-bit integer. The only TTL ever written is 60.
- `Ddns.FindRecords`: the panic from `unwrap` on an empty zone lookup (src/main.rs:151-152), and the Python `IndexError` for the same case, are modelled as an `Aborted(ZoneMissing)` outcome. Like them, it ends the run.
