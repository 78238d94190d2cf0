/**
 One session as the daemon can affect it: its durable record and topology file,
 and the network, containers and disks outside the daemon.

 The daemon keeps nothing between calls that is not in `State`, so a stop of the
 daemon between two effects leaves exactly a `State` behind and the next daemon
 continues from it. A run with stops anywhere is therefore a `Run`, and what is
 proved of every `Run` holds of every such run.
 */
module Host {
  import opened Records

  datatype DiskId = DiskId(node: string, name: string)
  type Plan = string

  datatype State = State(
    record: Option<Record>,      // session.json, absent before creation and after deletion
    deleted: bool,
    topology: Option<Topology>,  // the canonical topology file
    runtime: set<string>,        // nodes that may have a container, running or stopped
    up: set<Endpoint>,           // endpoints that are administratively up
    base: set<Endpoint>,         // the same, as last left by a deployment
    impaired: set<Endpoint>,     // endpoints carrying a netem impairment
    wipes: multiset<DiskId>,     // how often each disk file was truncated
    boots: map<string, string>)  // bootstrap file of each node

  /** Before a session is created there is nothing. */
  function Initial(): State {
    State(None, false, None, {}, {}, {}, {}, multiset{}, map[])
  }

  /** What is checked, without being changed. */
  datatype Check = FileIsValid | LabIsIsolated | PeersReattached | NodeRuns(node: string)

  /** Effects, and the observations that something depends on. */
  datatype Step =
    | Create(created: Record)
    | Save(saved: Record)
    | Delete
    | WriteTopology(file: Topology)
    | WriteBootstrap(bootNode: string, data: string)
    | WipeDisk(disk: DiskId)
    | SetLink(link: Endpoint, isUp: bool)
    | Netem(target: Endpoint)
    | ResetNetem(cleared: Endpoint)
    | Deploy
    | Destroy
    | RemoveNode(removed: string)
    | Lifecycle(touched: string, action: NodeAction)
    | OwnershipChecked
    | Examined(check: Check, passed: bool)
    | Planned(planFile: Topology, plan: Plan)

  /** What an effect may do to the state, succeeding, failing or failing half way. */
  ghost predicate Effect(a: State, step: Step, b: State) {
    match step
    case Create(r) => b == a || b == a.(record := Some(r))
    case Save(r) => b == a || b == a.(record := Some(r))
    case Delete => b == a || b == a.(record := None, deleted := true, topology := None,
                                     up := {}, base := {}, impaired := {})
    case WriteTopology(t) => b == a || b == a.(topology := Some(t))
    case WriteBootstrap(n, data) => b == a || b == a.(boots := a.boots[n := data])
    case WipeDisk(d) => b == a || b == a.(wipes := a.wipes + multiset{d})
    case SetLink(e, v) => b == a || b == a.(up := if v then a.up + {e} else a.up - {e})
    case Netem(e) => b == a || b == a.(impaired := a.impaired + {e})
    case ResetNetem(e) => b == a || b == a.(impaired := a.impaired - {e})
    case Deploy =>
      && a.topology.Some?
      && b == a.(runtime := b.runtime, up := b.up, base := b.up)
      && b.runtime <= a.runtime + a.topology.value.nodes
    case Destroy => b == a.(runtime := b.runtime) && b.runtime <= a.runtime
    case RemoveNode(n) =>
      b == a.(runtime := b.runtime) && a.runtime - {n} <= b.runtime <= a.runtime
    case Lifecycle(n, _) =>
      b == a.(runtime := b.runtime) && a.runtime - {n} <= b.runtime <= a.runtime
    case OwnershipChecked => b == a
    case Examined(_, _) => b == a
    case Planned(_, _) => b == a
  }

  /** A new fault is recorded with the link state found on an endpoint no other active fault holds. */
  ghost predicate Opens(a: State, before: Record, after: Record, f: Fault) {
    && f.active
    && f.node in after.nodes
    && (f.kind == NETEM
        || (f.kind == LINK_STATE
            && f.restoreUp == (f.At() in a.up)
            && forall i :: !Holds(before, i, LINK_STATE, f.At())))
  }

  /** A fault is closed only when the network already is as its record asks. */
  ghost predicate Settles(a: State, f: Fault, f': Fault) {
    && f.active
    && f' == f.(active := false)
    && (f.kind == LINK_STATE ==> f.restoreUp == (f.At() in a.up))
    && (f.kind == NETEM ==> f.At() !in a.impaired)
  }

  ghost predicate LegalSave(a: State, before: Record, after: Record) {
    && before.faults.Keys <= after.faults.Keys
    && (forall i :: i in before.faults ==>
          after.faults[i] == before.faults[i] || Settles(a, before.faults[i], after.faults[i]))
    && (forall i :: i in after.faults && i !in before.faults ==> Opens(a, before, after, after.faults[i]))
    && (forall i, j :: i in after.faults && j in after.faults && i !in before.faults && j !in before.faults ==> i == j)
    && (before.nodes.Keys <= after.nodes.Keys
        || (NoneActive(before) && NoneActive(after) && a.runtime <= after.nodes.Keys))
  }

  /** The discipline every effect of the daemon is proved to keep. */
  ghost predicate Guard(a: State, step: Step) {
    match step
    case Create(r) => a.record.None? && !a.deleted && r.faults == map[]
    case Save(r) => a.record.Some? && LegalSave(a, a.record.value, r)
    case Delete => a.record.Some? && a.runtime == {}
    case SetLink(e, _) => a.record.Some? && exists i :: Holds(a.record.value, i, LINK_STATE, e)
    case Netem(e) => a.record.Some? && exists i :: Holds(a.record.value, i, NETEM, e)
    case Deploy =>
      && a.record.Some? && a.topology.Some?
      && NoneActive(a.record.value)
      && a.topology.value.nodes <= a.record.value.nodes.Keys
    case WipeDisk(d) => d.node !in a.runtime
    case WriteTopology(_) => a.record.Some?
    case WriteBootstrap(n, _) => a.record.Some? && n !in a.runtime
    case _ => true
  }

  ghost predicate Allowed(a: State, step: Step, b: State) {
    Guard(a, step) && Effect(a, step, b)
  }

  datatype Event = Event(step: Step, after: State)

  /** The state reached after the first `k` events of a run. */
  ghost function At(log: seq<Event>, k: nat): State
    requires k <= |log|
  {
    if k == 0 then Initial() else log[k - 1].after
  }

  ghost predicate EventAllowed(log: seq<Event>, k: nat)
    requires k < |log|
  {
    Allowed(At(log, k), log[k].step, log[k].after)
  }

  /** A run from before the session's creation: every event is an effect made under its guard. */
  ghost predicate Run(log: seq<Event>) {
    forall k :: 0 <= k < |log| ==> EventAllowed(log, k)
  }

  /** Every deviation of the network has an active record that knows the baseline. */
  ghost predicate Covered(r: Record, up: set<Endpoint>, base: set<Endpoint>, impaired: set<Endpoint>) {
    && (forall e :: (e in up) != (e in base) ==> exists i :: Holds(r, i, LINK_STATE, e))
    && (forall e :: e in impaired ==> exists i :: Holds(r, i, NETEM, e))
    && (forall i, e :: Holds(r, i, LINK_STATE, e) ==> r.faults[i].restoreUp == (e in base))
    && (forall i, j, e :: Holds(r, i, LINK_STATE, e) && Holds(r, j, LINK_STATE, e) ==> i == j)
  }

  /** Every active fault is of a kind that revertFault handles, on a node that still exists. */
  ghost predicate Revertible(r: Record) {
    forall i :: i in r.faults && r.faults[i].active ==>
      (r.faults[i].kind == NETEM || r.faults[i].kind == LINK_STATE) && r.faults[i].node in r.nodes
  }

  ghost predicate Inv(a: State) {
    match a.record
    case None => a.runtime == {} && a.up == a.base && a.impaired == {}
    case Some(r) =>
      && !a.deleted
      && a.runtime <= r.nodes.Keys
      && Covered(r, a.up, a.base, a.impaired)
      && Revertible(r)
  }

  // ---------- one event ----------

  lemma SaveKeepsInv(a: State, r: Record)
    requires Inv(a) && Guard(a, Save(r))
    ensures Inv(a.(record := Some(r)))
  {
    var r0 := a.record.value;
    forall i, e | Holds(r, i, LINK_STATE, e)
      ensures r.faults[i].restoreUp == (e in a.base)
    {
      if i in r0.faults {
        assert Holds(r0, i, LINK_STATE, e);
      } else {
        assert forall j :: !Holds(r0, j, LINK_STATE, e);
      }
    }
    forall i, j, e | Holds(r, i, LINK_STATE, e) && Holds(r, j, LINK_STATE, e)
      ensures i == j
    {
      if i in r0.faults { assert Holds(r0, i, LINK_STATE, e); }
      if j in r0.faults { assert Holds(r0, j, LINK_STATE, e); }
    }
    forall e | (e in a.up) != (e in a.base)
      ensures exists i :: Holds(r, i, LINK_STATE, e)
    {
      var i :| Holds(r0, i, LINK_STATE, e);
      assert r0.faults[i].restoreUp == (e in a.base);
      assert Holds(r, i, LINK_STATE, e);
    }
    forall e | e in a.impaired
      ensures exists i :: Holds(r, i, NETEM, e)
    {
      var i :| Holds(r0, i, NETEM, e);
      assert Holds(r, i, NETEM, e);
    }
  }

  lemma EventKeepsInv(log: seq<Event>, k: nat)
    requires Run(log) && k < |log| && Inv(At(log, k))
    ensures Inv(At(log, k + 1))
  {
    var a, b := At(log, k), At(log, k + 1);
    assert EventAllowed(log, k);
    match log[k].step {
      case Save(r) =>
        SaveKeepsInv(a, r);
      case SetLink(e, v) =>
        assert forall e' :: e' != e ==> (e' in b.up <==> e' in a.up);
      case Deploy =>
        assert forall i, kind, e :: !Holds(a.record.value, i, kind, e);
      case _ =>
    }
  }

  // ---------- whole runs ----------

  /** In every run, at every point, the ledger covers the network and the record names every container. */
  lemma {:induction false} RunKeepsInv(log: seq<Event>, k: nat)
    requires Run(log) && k <= |log|
    ensures Inv(At(log, k))
  {
    if k > 0 {
      RunKeepsInv(log, k - 1);
      EventKeepsInv(log, k - 1);
    }
  }

  /**
   At any point of any run, an endpoint whose state differs from the baseline has exactly one
   active link-state record, which would put it back, and an impaired endpoint has an active netem record.
   */
  lemma WriteAheadCoverage(log: seq<Event>, k: nat, e: Endpoint)
    requires Run(log) && k <= |log|
    ensures var a := At(log, k);
      (e in a.up) != (e in a.base) ==>
      && a.record.Some?
      && (exists i :: Holds(a.record.value, i, LINK_STATE, e))
      && (forall i :: Holds(a.record.value, i, LINK_STATE, e) ==>
            && a.record.value.faults[i].restoreUp == (e in a.base)
            && forall j :: Holds(a.record.value, j, LINK_STATE, e) ==> j == i)
    ensures var a := At(log, k);
      e in a.impaired ==> a.record.Some? && exists i :: Holds(a.record.value, i, NETEM, e)
  {
    RunKeepsInv(log, k);
  }

  /** No stored fault can lead revertFault into its "node no longer exists" or "unknown kind" branch. */
  lemma StoredFaultsAreRevertible(log: seq<Event>, k: nat, id: string)
    requires Run(log) && k <= |log|
    requires At(log, k).record.Some? && id in At(log, k).record.value.faults
    requires At(log, k).record.value.faults[id].active
    ensures var r := At(log, k).record.value;
      (r.faults[id].kind == NETEM || r.faults[id].kind == LINK_STATE) && r.faults[id].node in r.nodes
  {
    RunKeepsInv(log, k);
  }

  /** Every node that may have a container is named by the persisted record, in every run. */
  lemma RuntimeStaysAddressable(log: seq<Event>, k: nat, n: string)
    requires Run(log) && k <= |log| && n in At(log, k).runtime
    ensures At(log, k).record.Some? && n in At(log, k).record.value.nodes
  {
    RunKeepsInv(log, k);
  }

  /** Fault `id` has been reverted, or its whole session is gone. */
  ghost predicate Settled(a: State, id: string) {
    a.deleted || (a.record.Some? && id in a.record.value.faults && !a.record.value.faults[id].active)
  }

  lemma EventKeepsSettled(log: seq<Event>, k: nat, id: string)
    requires Run(log) && k < |log| && Inv(At(log, k)) && Settled(At(log, k), id)
    ensures Settled(At(log, k + 1), id)
  {
    assert EventAllowed(log, k);
  }

  /** A fault that was reverted once never becomes active again. */
  lemma {:induction false} SettledForever(log: seq<Event>, i: nat, j: nat, id: string)
    requires Run(log) && i <= j <= |log|
    requires Settled(At(log, i), id)
    ensures Settled(At(log, j), id)
  {
    if i < j {
      SettledForever(log, i, j - 1, id);
      RunKeepsInv(log, j - 1);
      EventKeepsSettled(log, j - 1, id);
    }
  }

  /** The record has had a fault of that id, or its whole session is gone. */
  ghost predicate Known(a: State, id: string) {
    a.deleted || (a.record.Some? && id in a.record.value.faults)
  }

  lemma EventKeepsKnown(log: seq<Event>, k: nat, id: string)
    requires Run(log) && k < |log| && Inv(At(log, k)) && Known(At(log, k), id)
    ensures Known(At(log, k + 1), id)
  {
    assert EventAllowed(log, k);
  }

  /** An id that was used once is never unused again. */
  lemma {:induction false} KnownForever(log: seq<Event>, i: nat, j: nat, id: string)
    requires Run(log) && i <= j <= |log|
    requires Known(At(log, i), id)
    ensures Known(At(log, j), id)
  {
    if i < j {
      KnownForever(log, i, j - 1, id);
      RunKeepsInv(log, j - 1);
      EventKeepsKnown(log, j - 1, id);
    }
  }

  /** Only a deployment or the end of the session moves the baseline. */
  ghost predicate MovesBaseline(step: Step) { step.Deploy? || step.Delete? }

  ghost predicate Quiet(log: seq<Event>, from: nat) {
    forall k :: from <= k < |log| ==> !MovesBaseline(log[k].step)
  }

  lemma EventKeepsBase(log: seq<Event>, k: nat)
    requires Run(log) && k < |log| && !MovesBaseline(log[k].step)
    ensures At(log, k + 1).base == At(log, k).base
  {
    assert EventAllowed(log, k);
  }

  lemma {:induction false} BaselineStands(log: seq<Event>, i: nat, j: nat)
    requires Run(log) && i <= j <= |log|
    requires forall k :: i <= k < j ==> !MovesBaseline(log[k].step)
    ensures At(log, j).base == At(log, i).base
  {
    if i < j {
      BaselineStands(log, i, j - 1);
      EventKeepsBase(log, j - 1);
    }
  }

  /**
   However reverts are ordered, retried or interrupted: once each fault known at `i` has been
   reverted successfully at some point, and no other was introduced, the network is back at its baseline.
   */
  lemma RevertingAllRestores(log: seq<Event>, i: nat, j: nat)
    requires Run(log) && i <= j <= |log|
    requires forall k :: i <= k < j ==> !MovesBaseline(log[k].step)
    requires At(log, i).record.Some? && At(log, j).record.Some?
    requires At(log, j).record.value.faults.Keys <= At(log, i).record.value.faults.Keys
    requires forall id :: id in At(log, i).record.value.faults ==>
               exists k :: i <= k <= j && Settled(At(log, k), id)
    ensures At(log, j).up == At(log, i).base && At(log, j).impaired == {}
  {
    BaselineStands(log, i, j);
    RunKeepsInv(log, j);
    var b := At(log, j);
    forall id | id in b.record.value.faults ensures !b.record.value.faults[id].active {
      var k: nat :| i <= k <= j && Settled(At(log, k), id);
      SettledForever(log, k, j, id);
    }
    assert forall id, kind, e :: !Holds(b.record.value, id, kind, e);
    assert forall e :: e in b.up <==> e in b.base;
  }

  lemma EventKeepsHeldDisk(log: seq<Event>, k: nat, d: DiskId)
    requires Run(log) && k < |log| && d.node in At(log, k).runtime
    ensures At(log, k + 1).wipes[d] == At(log, k).wipes[d]
  {
    assert EventAllowed(log, k);
  }

  /** While a node keeps a container, running or stopped, none of its disk files is truncated. */
  lemma {:induction false} HeldDisksSurvive(log: seq<Event>, i: nat, j: nat, d: DiskId)
    requires Run(log) && i <= j <= |log|
    requires forall k :: i <= k <= j ==> d.node in At(log, k).runtime
    ensures At(log, j).wipes[d] == At(log, i).wipes[d]
  {
    if i < j {
      HeldDisksSurvive(log, i, j - 1, d);
      EventKeepsHeldDisk(log, j - 1, d);
    }
  }

  // ---------- the daemon's hands ----------

  /** The store, the topology file and the runtime of one session, with every effect on them on record. */
  class SessionHost {
    const layout: Layout
    const planOf: (Topology, set<string>) -> Plan      // the native dry run of a file against the nodes there are
    const faulty: bool                                 // if not, every command, write and observation succeeds
    const addBind: (string, string, string) -> string  // AddNodeBind on the text of a topology: text, node, bind
    var record: Option<Record>
    var deleted: bool
    var topology: Option<Topology>
    var runtime: set<string>
    var up: set<Endpoint>
    var impaired: set<Endpoint>
    var wipes: multiset<DiskId>
    var boots: map<string, string>
    ghost var base: set<Endpoint>
    ghost var log: seq<Event>

    ghost function Now(): State
      reads this
    {
      State(record, deleted, topology, runtime, up, base, impaired, wipes, boots)
    }

    ghost predicate Valid()
      reads this
    {
      Run(log) && At(log, |log|) == Now()
    }

    /** What holds of every run holds now. */
    lemma Sound()
      requires Valid()
      ensures Inv(Now())
    {
      RunKeepsInv(log, |log|);
    }

    constructor (layout: Layout, addBind: (string, string, string) -> string, planOf: (Topology, set<string>) -> Plan,
                 faulty: bool)
      ensures Valid() && log == [] && Now() == Initial()
      ensures this.layout == layout && this.addBind == addBind && this.planOf == planOf && this.faulty == faulty
    {
      this.layout, this.addBind, this.planOf, this.faulty := layout, addBind, planOf, faulty;
      record, topology, deleted, runtime := None, None, false, {};
      up, base, impaired, wipes, boots := {}, {}, {}, multiset{}, map[];
      log := [];
    }

    ghost method Log(step: Step)
      requires Run(log) && Allowed(At(log, |log|), step, Now())
      modifies this`log
      ensures Valid()
      ensures log == old(log) + [Event(step, Now())]
    {
      log := log + [Event(step, Now())];
      forall k | 0 <= k < |log| ensures EventAllowed(log, k) {
        if k < |old(log)| { assert EventAllowed(old(log), k); }
      }
    }

    /** Something outside this model goes well: a command, a guest's answer, a file written as evidence. */
    method Succeeds() returns (ok: bool)
      ensures !faulty ==> ok
    {
      ok := *;
      ok := ok || !faulty;
    }

    /** Reads the record back from the store; reading can fail. */
    method Load() returns (r: Option<Record>)
      ensures r.Some? ==> record == r
      ensures !faulty ==> r == record
    {
      var readable := Succeeds();
      r := if readable then record else None;
    }

    method CreateRecord(r: Record) returns (ok: bool)
      requires Valid() && record.None? && !deleted && r.faults == map[]
      modifies this
      ensures Valid() && log == old(log) + [Event(Create(r), Now())]
      ensures Now() == old(Now()) || Now() == old(Now()).(record := Some(r))
      ensures ok ==> record == Some(r)
      ensures !faulty ==> ok
    {
      var landed: bool := *;
      ok := Succeeds();
      if ok || landed { record := Some(r); }
      Log(Create(r));
    }

    /** Replaces session.json. An error may be reported for a write that did land. */
    method SaveRecord(r: Record) returns (ok: bool)
      requires Valid() && record.Some? && LegalSave(Now(), record.value, r)
      modifies this
      ensures Valid() && log == old(log) + [Event(Save(r), Now())]
      ensures Now() == old(Now()) || Now() == old(Now()).(record := Some(r))
      ensures ok ==> record == Some(r)
      ensures !faulty ==> ok
    {
      var landed: bool := *;
      ok := Succeeds();
      if ok || landed { record := Some(r); }
      Log(Save(r));
    }

    method DeleteRecord() returns (ok: bool)
      requires Valid() && record.Some? && runtime == {}
      modifies this
      ensures Valid() && log == old(log) + [Event(Delete, Now())]
      ensures Now() == if !ok then old(Now()) else old(Now()).(
                record := None, deleted := true, topology := None, up := {}, base := {}, impaired := {})
      ensures !faulty ==> ok
    {
      ok := Succeeds();
      if ok {
        record, deleted, topology := None, true, None;
        up, base, impaired := {}, {}, {};
      }
      Log(Delete);
    }

    method ReadTopology() returns (t: Option<Topology>)
      ensures t.Some? ==> topology == t
      ensures !faulty ==> t == topology
    {
      var readable := Succeeds();
      t := if readable then topology else None;
    }

    /** Writes a temporary file and renames it over the topology, so a failure changes nothing. */
    method WriteTopologyFile(t: Topology) returns (ok: bool)
      requires Valid() && record.Some?
      modifies this
      ensures Valid() && log == old(log) + [Event(WriteTopology(t), Now())]
      ensures Now() == if ok then old(Now()).(topology := Some(t)) else old(Now())
      ensures !faulty ==> ok
    {
      ok := Succeeds();
      if ok { topology := Some(t); }
      Log(WriteTopology(t));
    }

    method WriteBootstrapFile(n: string, data: string) returns (ok: bool)
      requires Valid() && record.Some? && n !in runtime
      modifies this
      ensures Valid() && log == old(log) + [Event(WriteBootstrap(n, data), Now())]
      ensures Now() == old(Now()) || Now() == old(Now()).(boots := old(boots)[n := data])
      ensures ok ==> Now() == old(Now()).(boots := old(boots)[n := data])
      ensures !faulty ==> ok
    {
      var landed: bool := *;
      ok := Succeeds();
      if ok || landed { boots := boots[n := data]; }
      Log(WriteBootstrap(n, data));
    }

    method TruncateDisk(d: DiskId) returns (ok: bool)
      requires Valid() && d.node !in runtime
      modifies this
      ensures Valid() && log == old(log) + [Event(WipeDisk(d), Now())]
      ensures Now() == old(Now()) || Now() == old(Now()).(wipes := old(wipes) + multiset{d})
      ensures ok ==> wipes == old(wipes) + multiset{d}
      ensures !faulty ==> ok
    {
      var landed: bool := *;
      ok := Succeeds();
      if ok || landed { wipes := wipes + multiset{d}; }
      Log(WipeDisk(d));
    }

    /** The administrative state of an endpoint; observing can fail. */
    method LinkUp(e: Endpoint) returns (seen: Option<bool>)
      ensures seen.Some? ==> seen.value == (e in up)
      ensures !faulty ==> seen.Some?
    {
      var observed := Succeeds();
      seen := if observed then Some(e in up) else None;
    }

    method SetLinkState(e: Endpoint, v: bool) returns (ok: bool)
      requires Valid() && record.Some? && exists i :: Holds(record.value, i, LINK_STATE, e)
      modifies this
      ensures Valid() && log == old(log) + [Event(SetLink(e, v), Now())]
      ensures var done := old(Now()).(up := if v then old(up) + {e} else old(up) - {e});
        (Now() == done || Now() == old(Now())) && (ok ==> Now() == done)
      ensures !faulty ==> ok
    {
      var landed: bool := *;
      ok := Succeeds();
      if ok || landed { up := if v then up + {e} else up - {e}; }
      Log(SetLink(e, v));
    }

    method ImpairEndpoint(e: Endpoint) returns (ok: bool)
      requires Valid() && record.Some? && exists i :: Holds(record.value, i, NETEM, e)
      modifies this
      ensures Valid() && log == old(log) + [Event(Netem(e), Now())]
      ensures var done := old(Now()).(impaired := old(impaired) + {e});
        (Now() == done || Now() == old(Now())) && (ok ==> Now() == done)
      ensures !faulty ==> ok
    {
      var landed: bool := *;
      ok := Succeeds();
      if ok || landed { impaired := impaired + {e}; }
      Log(Netem(e));
    }

    method ClearEndpoint(e: Endpoint) returns (ok: bool)
      requires Valid()
      modifies this
      ensures Valid() && log == old(log) + [Event(ResetNetem(e), Now())]
      ensures var done := old(Now()).(impaired := old(impaired) - {e});
        (Now() == done || Now() == old(Now())) && (ok ==> Now() == done)
      ensures !faulty ==> ok
    {
      var landed: bool := *;
      ok := Succeeds();
      if ok || landed { impaired := impaired - {e}; }
      Log(ResetNetem(e));
    }

    /** Native deployment: any part of it may have happened when it fails; success converges. */
    method DeployTopology() returns (ok: bool)
      requires Valid() && record.Some? && topology.Some?
      requires NoneActive(record.value) && topology.value.nodes <= record.value.nodes.Keys
      modifies this
      ensures Valid() && log == old(log) + [Event(Deploy, Now())]
      ensures Now() == old(Now()).(runtime := runtime, up := up, base := up)
      ensures runtime <= old(runtime) + topology.value.nodes
      ensures ok ==> runtime <= topology.value.nodes
      ensures !faulty ==> ok
    {
      ok := Succeeds();
      var reached: set<string> := *;
      runtime := (if ok then topology.value.nodes else runtime + topology.value.nodes) * reached;
      up := *;
      base := up;
      Log(Deploy);
    }

    /** Succeeds only when no container of the session is left (Containerlab.Destroy). */
    method DestroyRuntime() returns (ok: bool)
      requires Valid()
      modifies this
      ensures Valid() && log == old(log) + [Event(Destroy, Now())]
      ensures Now() == old(Now()).(runtime := runtime) && runtime <= old(runtime)
      ensures ok ==> runtime == {}
      ensures !faulty ==> ok
    {
      ok := Succeeds();
      var left: set<string> := *;
      runtime := if ok then {} else runtime * left;
      Log(Destroy);
    }

    /** Succeeds only when no container of the node is left (Containerlab.RemoveNode). */
    method RemoveRuntimeNode(n: string) returns (ok: bool)
      requires Valid()
      modifies this
      ensures Valid() && log == old(log) + [Event(RemoveNode(n), Now())]
      ensures Now() == old(Now()).(runtime := runtime) && old(runtime) - {n} <= runtime <= old(runtime)
      ensures ok ==> n !in runtime
      ensures !faulty ==> ok
    {
      var gone: bool := *;
      ok := Succeeds();
      if ok || gone { runtime := runtime - {n}; }
      Log(RemoveNode(n));
    }

    /** Crash, stop, start or restart of one node; an auto-removed container may vanish. */
    method NodeLifecycle(n: string, action: NodeAction) returns (ok: bool)
      requires Valid()
      modifies this
      ensures Valid() && log == old(log) + [Event(Lifecycle(n, action), Now())]
      ensures Now() == old(Now()).(runtime := runtime) && old(runtime) - {n} <= runtime <= old(runtime)
      ensures !faulty ==> ok
    {
      var gone: bool := *;
      ok := Succeeds();
      if gone { runtime := runtime - {n}; }
      Log(Lifecycle(n, action));
    }

    method Examine(check: Check) returns (ok: bool)
      requires Valid()
      modifies this`log
      ensures Valid() && Now() == old(Now())
      ensures log == old(log) + [Event(Examined(check, ok), Now())]
      ensures !faulty ==> ok
    {
      ok := Succeeds();
      Log(Examined(check, ok));
    }

    method CheckOwnership() returns (ok: bool)
      requires Valid()
      modifies this`log
      ensures Valid() && Now() == old(Now())
      ensures ok ==> log == old(log) + [Event(OwnershipChecked, Now())]
      ensures !ok ==> log == old(log)
      ensures !faulty ==> ok
    {
      ok := Succeeds();
      if ok { Log(OwnershipChecked); }
    }

    /** The native dry run on the topology file as it is now. */
    method PlanTopology() returns (plan: Option<Plan>)
      requires Valid() && topology.Some?
      modifies this`log
      ensures Valid() && Now() == old(Now())
      ensures plan.Some? ==> log == old(log) + [Event(Planned(topology.value, plan.value), Now())]
      ensures plan.None? ==> log == old(log)
      ensures !faulty ==> plan == Some(planOf(topology.value, runtime))
    {
      var p: Plan := *;
      var ok := Succeeds();
      if !faulty { p := planOf(topology.value, runtime); }
      plan := if ok then Some(p) else None;
      if ok { Log(Planned(topology.value, p)); }
    }
  }
}
