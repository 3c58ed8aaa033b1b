/** How a run ends and which update calls it issued. Both programs stop at the
    first error: Rust through `?`, Python through an uncaught exception. */
module Outcomes {
  import opened HetznerDns

  /** Why a run stopped early. */
  datatype RunError =
    | NoAddress                         // address discovery found neither IPv4 nor IPv6
    | ZoneMissing(zoneName: string)     // the zone lookup returned no zone
    | DiscoveryFailed(recordType: string) // an address fetch failed (Python only)
    | UpdateFailed(recordId: string)    // the provider rejected an update call

  datatype Status = Completed | Aborted(error: RunError)

  /** The update calls issued, in order, and how the work ended. */
  datatype Outcome = Outcome(issued: seq<Update>, status: Status)

  /** The position of the first call of `plan` the provider rejects, or
      `|plan|` when it accepts them all. */
  function FirstRejected(plan: seq<Update>, fails: Update -> bool): (k: nat)
    ensures k <= |plan|
    ensures forall j :: 0 <= j < k ==> !fails(plan[j])
    ensures k < |plan| ==> fails(plan[k])
  {
    if plan == [] || fails(plan[0]) then 0
    else 1 + FirstRejected(plan[1..], fails)
  }

  /** Sends the calls of `plan` one at a time and stops right after the first
      call the provider rejects. */
  function Attempt(plan: seq<Update>, fails: Update -> bool): (o: Outcome)
    ensures o.issued <= plan
    ensures o.status.Completed? <==> forall u :: u in plan ==> !fails(u)
    ensures o.status.Completed? ==> o.issued == plan
    ensures forall k :: 0 <= k < |o.issued| - 1 ==> !fails(o.issued[k])
    ensures o.status.Aborted? ==>
              && o.issued != []
              && fails(o.issued[|o.issued| - 1])
              && o.status.error == UpdateFailed(o.issued[|o.issued| - 1].recordId)
  {
    var k := FirstRejected(plan, fails);
    if k == |plan| then Outcome(plan, Completed)
    else Outcome(plan[..k + 1], Aborted(UpdateFailed(plan[k].recordId)))
  }

  /** When `u` is the first rejected call of `plan`, exactly the calls up to and
      including `u` are issued, and the run stops with `u`'s record id. */
  lemma {:induction false} AttemptStopsAtFirstFailure(plan: seq<Update>, fails: Update -> bool, done: seq<Update>, u: Update)
    requires done + [u] <= plan
    requires forall k :: 0 <= k < |done| ==> !fails(done[k])
    requires fails(u)
    ensures Attempt(plan, fails) == Outcome(done + [u], Aborted(UpdateFailed(u.recordId)))
  {
    var k := FirstRejected(plan, fails);
    assert plan[|done|] == u;
    assert forall j :: 0 <= j < |done| ==> plan[j] == done[j];
    assert k == |done|;
    assert plan[..k + 1] == done + [u];
  }

  /** The calls issued by each piece of work, one after another. */
  function Flatten(os: seq<Outcome>): seq<Update>
  {
    if os == [] then [] else os[0].issued + Flatten(os[1..])
  }

  /** Flattening distributes over concatenation. */
  lemma {:induction false} FlattenAppend(a: seq<Outcome>, b: seq<Outcome>)
    ensures Flatten(a + b) == Flatten(a) + Flatten(b)
  {
    if a == [] {
      assert a + b == b;
    } else {
      assert (a + b)[1..] == a[1..] + b;
      FlattenAppend(a[1..], b);
    }
  }

  /** Flattening one more piece of work appends what it issued. */
  lemma FlattenSnoc(os: seq<Outcome>, i: nat)
    requires i < |os|
    ensures Flatten(os[..i + 1]) == Flatten(os[..i]) + os[i].issued
  {
    assert os[..i + 1] == os[..i] + [os[i]];
    FlattenAppend(os[..i], [os[i]]);
    assert Flatten([os[i]]) == os[i].issued;
  }

  /** The position of the first piece of work that aborted, or `|os|` when all
      of them completed. */
  function FirstAborted(os: seq<Outcome>): (k: nat)
    ensures k <= |os|
    ensures forall j :: 0 <= j < k ==> os[j].status.Completed?
    ensures k < |os| ==> os[k].status.Aborted?
  {
    if os == [] || os[0].status.Aborted? then 0
    else 1 + FirstAborted(os[1..])
  }

  /** Runs pieces of work in order and stops after the first one that aborts. */
  function Chain(os: seq<Outcome>): (o: Outcome)
    ensures o.status.Completed? <==> forall k :: 0 <= k < |os| ==> os[k].status.Completed?
    ensures o.status.Completed? ==> o.issued == Flatten(os)
    ensures o.issued <= Flatten(os)
  {
    var k := FirstAborted(os);
    FlattenAppend(os[..k], os[k..]);
    assert os == os[..k] + os[k..];
    if k == |os| then Outcome(Flatten(os), Completed)
    else Outcome(Flatten(os[..k]) + os[k].issued, os[k].status)
  }

  /** A completed piece of work right at the bound moves the bound on. */
  lemma FirstAbortedPast(os: seq<Outcome>, i: nat)
    requires i <= FirstAborted(os) && i < |os| && os[i].status.Completed?
    ensures i + 1 <= FirstAborted(os)
  {
  }

  /** The first piece of work that aborts ends the run: what it issued is the
      last thing issued, and its error is the run's error. */
  lemma ChainStopsAtFirstAbort(os: seq<Outcome>, j: nat)
    requires j < |os| && os[j].status.Aborted?
    requires forall k :: 0 <= k < j ==> os[k].status.Completed?
    ensures Chain(os) == Outcome(Flatten(os[..j]) + os[j].issued, os[j].status)
  {
    assert FirstAborted(os) == j;
  }
}
