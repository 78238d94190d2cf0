/**
 Creating, reconciling, replacing and destroying the runtime of a session
 (internal/server/apply.go and the lifecycle calls of internal/server/server.go).
 */
module Reconcile {
  import opened Records
  import opened Host

  // ---------- disks ----------

  /** The files behind a node's disks, in order. */
  function DiskIds(n: string, disks: seq<Disk>): (ids: seq<DiskId>)
    ensures |ids| == |disks|
  {
    seq(|disks|, i requires 0 <= i < |disks| => DiskId(n, disks[i].name))
  }

  lemma TakeOneMore(ids: seq<DiskId>, i: nat)
    requires i < |ids|
    ensures multiset(ids[..i + 1]) == multiset(ids[..i]) + multiset{ids[i]}
  {
    assert ids[..i + 1] == ids[..i] + [ids[i]];
  }

  /** The events from `from` on truncate the first of these disks, in order. */
  ghost predicate WipesIn(log: seq<Event>, from: nat, ids: seq<DiskId>) {
    from <= |log| <= from + |ids| && forall k :: from <= k < |log| ==> log[k].step == WipeDisk(ids[k - from])
  }

  lemma NoWipeYet(log: seq<Event>, ids: seq<DiskId>)
    ensures WipesIn(log, |log|, ids)
  {
  }

  lemma OneMoreWipe(before: seq<Event>, log: seq<Event>, from: nat, ids: seq<DiskId>)
    requires WipesIn(before, from, ids) && |before| - from < |ids|
    requires |log| == |before| + 1 && before <= log && log[|before|].step == WipeDisk(ids[|before| - from])
    ensures WipesIn(log, from, ids)
  {
  }

  /** Truncates the disks in order up to the first failure; `m` of them were reached. */
  method ResetDisks(h: SessionHost, n: string, disks: seq<Disk>) returns (ok: bool, ghost m: nat)
    requires h.Valid() && n !in h.runtime
    modifies h
    ensures h.Valid() && old(h.log) <= h.log && Quiet(h.log, |old(h.log)|)
    ensures h.Now() == old(h.Now()).(wipes := h.wipes)
    ensures WipesIn(h.log, |old(h.log)|, DiskIds(n, disks))
    ensures m <= |disks| && h.wipes == old(h.wipes) + multiset(DiskIds(n, disks)[..m])
    ensures ok ==> m == |disks| && |h.log| == |old(h.log)| + |disks|
    ensures !h.faulty ==> ok
  {
    hide Run, At, Guard, Effect, EventAllowed, SessionHost.Valid, WipesIn;
    var ids := DiskIds(n, disks);
    NoWipeYet(h.log, ids);
    m := 0;
    for i := 0 to |disks|
      invariant h.Valid() && old(h.log) <= h.log && Quiet(h.log, |old(h.log)|)
      invariant h.Now() == old(h.Now()).(wipes := h.wipes)
      invariant |h.log| == |old(h.log)| + i && WipesIn(h.log, |old(h.log)|, ids)
      invariant m == i && h.wipes == old(h.wipes) + multiset(ids[..i])
    {
      TakeOneMore(ids, i);
      ghost var before := h.log;
      var done := h.TruncateDisk(ids[i]);
      OneMoreWipe(before, h.log, |old(h.log)|, ids);
      m := if h.wipes == old(h.wipes) + multiset(ids[..i]) then i else i + 1;
      if !done { return false, m; }
    }
    ok := true;
  }

  // ---------- creation ----------

  /** Each of the node's disk files was truncated in between. */
  ghost predicate FreshDisks(before: multiset<DiskId>, after: multiset<DiskId>, n: string, disks: seq<Disk>) {
    forall i :: 0 <= i < |disks| ==> before[DiskId(n, disks[i].name)] < after[DiskId(n, disks[i].name)]
  }

  lemma AllTruncated(before: multiset<DiskId>, after: multiset<DiskId>, n: string, disks: seq<Disk>)
    requires after == before + multiset(DiskIds(n, disks))
    ensures FreshDisks(before, after, n, disks)
  {
    forall i | 0 <= i < |disks| ensures DiskId(n, disks[i].name) in multiset(DiskIds(n, disks)) {
      assert DiskIds(n, disks)[i] in DiskIds(n, disks);
    }
  }

  /** Everything that a request asks for is on disk: fresh disk files, and the boot data. */
  ghost predicate LaidOut(before: State, after: State, ext: map<string, Extension>) {
    forall n :: n in ext ==>
      && FreshDisks(before.wipes, after.wipes, n, ext[n].disks)
      && (ext[n].data != "" ==> n in after.boots && after.boots[n] == ext[n].data)
  }

  function NewRecord(t: Topology, ext: map<string, Extension>): Record {
    Record("provisioning", NewNodes(ext, t.nodes), map[])
  }

  /** A session record with exactly the nodes `names`, as the request `ext` wants them, and no faults. */
  predicate Registered(s: Record, names: set<string>, ext: map<string, Extension>, state: string) {
    && s.nodes.Keys == names && s.faults == map[]
    && forall n :: n in names ==>
         var node := s.nodes[n];
         && node.state == state
         && node.control == (if n in ext && ext[n].control != "" then ext[n].control else "container")
         && (n in ext ==> node.disks == ext[n].disks && node.bootstrapFormat == ext[n].format && node.bootstrapPath == ext[n].path)
         && (n !in ext ==> node.disks == [] && node.bootstrapFormat == "" && node.bootstrapPath == "")
  }

  lemma NewIsRegistered(t: Topology, ext: map<string, Extension>)
    ensures Registered(NewRecord(t, ext), t.nodes, ext, "created")
    ensures Registered(NewRecord(t, ext).(state := "failed"), t.nodes, ext, "created")
    ensures Registered(Running(NewRecord(t, ext)), t.nodes, ext, "running")
    ensures NewRecord(t, ext).state == "provisioning" && NewRecord(t, ext).nodes.Keys == t.nodes && NewRecord(t, ext).faults == map[]
    ensures Running(NewRecord(t, ext)).state == "running"
  {
  }

  function Running(r: Record): (r': Record)
    ensures r'.nodes.Keys == r.nodes.Keys && r'.faults == r.faults
  {
    r.(state := "running", nodes := map n | n in r.nodes :: r.nodes[n].(state := "running"))
  }

  datatype Creation = Created | NotCreated

  /** The durable and runtime part of CreateSession, for an already prepared topology. */
  method CreateSession(h: SessionHost, prepared: Topology, ext: map<string, Extension>) returns (res: Creation)
    requires h.Valid() && h.record.None? && !h.deleted
    modifies h
    ensures h.Valid() && old(h.log) <= h.log
    // The record comes before every other effect.
    ensures |old(h.log)| < |h.log| ==>
      var first := h.log[|old(h.log)|].step;
      first.Create? && Registered(first.created, prepared.nodes, ext, "created") && first.created.state == "provisioning"
    // What is stored is what the request wants, running exactly if the session does.
    ensures h.record.Some? ==>
      || (Registered(h.record.value, prepared.nodes, ext, "created") && h.record.value.state in {"provisioning", "failed"})
      || (Registered(h.record.value, prepared.nodes, ext, "running") && h.record.value.state == "running")
    ensures res.Created? ==>
      && h.record.Some? && h.record.value.state == "running" && Registered(h.record.value, prepared.nodes, ext, "running")
      && h.topology == Some(prepared)
      && LaidOut(old(h.Now()), h.Now(), ext)
      && exists k :: |old(h.log)| <= k && Accepted(h.log, k)
    // A deployment that is not accepted is taken down again, unless only the last store was reported as failed.
    ensures res.NotCreated? ==> forall k :: |old(h.log)| <= k < |h.log| && h.log[k].step.Deploy? ==>
      var last := h.log[|h.log| - 1].step;
      last.Destroy? || (last.Save? && last.saved.state == "running")
    // Disk files are all laid out before the first deployment.
    ensures forall k :: |old(h.log)| <= k < |h.log| && h.log[k].step.Deploy? ==>
      forall l :: k <= l < |h.log| ==> !h.log[l].step.WipeDisk?
    ensures !(ext.Keys <= prepared.nodes) ==> h.Now() == old(h.Now())
    ensures !h.faulty && ext.Keys <= prepared.nodes ==> res.Created?
  {
    hide Registered, Running, NewRecord, LegalSave;
    res := NotCreated;
    NewIsRegistered(prepared, ext);
    if !(ext.Keys <= prepared.nodes) { return; }
    h.Sound();
    var r := NewRecord(prepared, ext);
    var stored := h.CreateRecord(r);
    if !stored { return; }
    var provisioned := Provision(h, prepared, ext);
    if !provisioned { return; }
    ghost var k := |h.log|;
    var launched := Launch(h, r, Running(r));
    if launched {
      assert Accepted(h.log, k);
      res := Created;
    }
  }

  /** Lays out disks, bootstrap data and the topology file of a session that has no container yet. */
  method Provision(h: SessionHost, prepared: Topology, ext: map<string, Extension>) returns (ok: bool)
    requires h.Valid() && h.record.Some? && h.runtime == {}
    modifies h
    ensures h.Valid() && old(h.log) <= h.log
    ensures h.Now() == old(h.Now()).(wipes := h.wipes, boots := h.boots, topology := h.topology)
    ensures Quiet(h.log, |old(h.log)|)
    ensures ok ==> h.topology == Some(prepared) && LaidOut(old(h.Now()), h.Now(), ext)
    ensures !h.faulty ==> ok
  {
    hide Run, At, Guard, Effect, EventAllowed, LegalSave, SessionHost.Valid;
    ok := LayOutDisks(h, ext);
    if ok { ok := WriteBootstraps(h, ext); }
    if ok { ok := h.WriteTopologyFile(prepared); }
  }

  /** From `k` on: the file was found valid, deployed, and the lab found isolated, before the last store. */
  ghost predicate Accepted(log: seq<Event>, k: nat) {
    && |log| == k + 4 && log[k].step == Examined(FileIsValid, true) && log[k + 1].step.Deploy?
    && log[k + 2].step == Examined(LabIsIsolated, true) && log[k + 3].step.Save?
  }

  /** Deploys the topology, puts cables back if there can be any, and proves the isolation. */
  method Roll(h: SessionHost, reattach: bool) returns (ok: bool)
    requires h.Valid() && h.record.Some? && h.topology.Some?
    requires NoneActive(h.record.value) && h.topology.value.nodes <= h.record.value.nodes.Keys
    modifies h
    ensures h.Valid() && old(h.log) < h.log && h.log[|old(h.log)|].step.Deploy?
    ensures forall k :: |old(h.log)| < k < |h.log| ==> h.log[k].step.Examined?
    ensures h.Now() == old(h.Now()).(runtime := h.runtime, up := h.up, base := h.base)
    ensures ok ==>
      && h.runtime <= h.topology.value.nodes && |h.log| == |old(h.log)| + (if reattach then 3 else 2)
      && (reattach ==> h.log[|old(h.log)| + 1].step == Examined(PeersReattached, true))
      && h.log[|h.log| - 1].step == Examined(LabIsIsolated, true)
    ensures !h.faulty ==> ok
  {
    hide Run, At, Guard, Effect, EventAllowed, LegalSave, SessionHost.Valid, NoneActive;
    ok := h.DeployTopology();
    if ok && reattach { ok := h.Examine(PeersReattached); }
    if ok { ok := h.Examine(LabIsIsolated); }
  }

  /** Validates and deploys a provisioned session, and proves its isolation. */
  method Launch(h: SessionHost, r: Record, running: Record) returns (ok: bool)
    requires h.Valid() && h.record == Some(r) && r.faults == running.faults == map[]
    requires h.topology.Some? && h.topology.value.nodes == r.nodes.Keys == running.nodes.Keys
    modifies h
    ensures h.Valid() && old(h.log) <= h.log
    ensures h.Now() == old(h.Now()).(record := h.record, runtime := h.runtime, up := h.up, base := h.base)
    ensures forall k :: |old(h.log)| <= k < |h.log| ==> !h.log[k].step.WipeDisk?
    ensures h.record == Some(r) || h.record == Some(r.(state := "failed")) || h.record == Some(running)
    ensures ok ==> h.record == Some(running)
    ensures !h.faulty ==> ok
    ensures ok ==> Accepted(h.log, |old(h.log)|)
    ensures !ok ==> forall k :: |old(h.log)| <= k < |h.log| && h.log[k].step.Deploy? ==>
      h.log[|h.log| - 1].step.Destroy? || h.log[|h.log| - 1].step == Save(running)
  {
    hide Run, At, Guard, Effect, EventAllowed, SessionHost.Valid;
    var valid := h.Examine(FileIsValid);
    if !valid {
      var noted := h.SaveRecord(r.(state := "failed"));
      return false;
    }
    var good := Roll(h, false);
    if !good {
      var noted := h.SaveRecord(r.(state := "failed"));
      var destroyed := h.DestroyRuntime();
      return false;
    }
    ok := h.SaveRecord(running);
  }

  method LayOutDisks(h: SessionHost, ext: map<string, Extension>) returns (ok: bool)
    requires h.Valid() && h.runtime == {}
    modifies h
    ensures h.Valid() && old(h.log) <= h.log
    ensures h.Now() == old(h.Now()).(wipes := h.wipes)
    ensures Quiet(h.log, |old(h.log)|)
    ensures ok ==> forall n :: n in ext ==> FreshDisks(old(h.wipes), h.wipes, n, ext[n].disks)
    ensures !h.faulty ==> ok
  {
    hide Run, At, Guard, Effect, EventAllowed, LegalSave, SessionHost.Valid, DiskIds;
    var rest := ext.Keys;
    while rest != {}
      invariant h.Valid() && old(h.log) <= h.log
      invariant h.Now() == old(h.Now()).(wipes := h.wipes)
      invariant Quiet(h.log, |old(h.log)|)
      invariant rest <= ext.Keys && old(h.wipes) <= h.wipes
      invariant forall n :: n in ext.Keys - rest ==> FreshDisks(old(h.wipes), h.wipes, n, ext[n].disks)
      decreases rest
    {
      var n :| n in rest;
      rest := rest - {n};
      ghost var before := h.wipes;
      var reset, m := ResetDisks(h, n, ext[n].disks);
      if !reset { return false; }
      assert DiskIds(n, ext[n].disks)[..m] == DiskIds(n, ext[n].disks);
      AllTruncated(before, h.wipes, n, ext[n].disks);
    }
    ok := true;
  }

  method WriteBootstraps(h: SessionHost, ext: map<string, Extension>) returns (ok: bool)
    requires h.Valid() && h.record.Some? && h.runtime == {}
    modifies h
    ensures h.Valid() && old(h.log) <= h.log
    ensures h.Now() == old(h.Now()).(boots := h.boots)
    ensures Quiet(h.log, |old(h.log)|)
    ensures ok ==> forall n :: n in ext && ext[n].data != "" ==> n in h.boots && h.boots[n] == ext[n].data
    ensures !h.faulty ==> ok
  {
    var rest := ext.Keys;
    while rest != {}
      invariant h.Valid() && old(h.log) <= h.log
      invariant h.Now() == old(h.Now()).(boots := h.boots)
      invariant Quiet(h.log, |old(h.log)|)
      invariant rest <= ext.Keys
      invariant forall n :: n in ext.Keys - rest && ext[n].data != "" ==> n in h.boots && h.boots[n] == ext[n].data
      decreases rest
    {
      var n :| n in rest;
      rest := rest - {n};
      if ext[n].data != "" {
        var done := h.WriteBootstrapFile(n, ext[n].data);
        if !done { return false; }
      }
    }
    ok := true;
  }

  // ---------- reconciliation ----------

  datatype Change = Change(control: string, dynamic: bool)

  /**
   Node `n` of the desired topology: a retained node keeps its disks and boot data, a new one is a container without
   any, and either has the control that the request names, if it names one.
   */
  predicate Carried(was: map<string, Node>, now: Node, n: string, changes: map<string, Change>) {
    && (n in was ==>
          && now.disks == was[n].disks
          && now.bootstrapFormat == was[n].bootstrapFormat && now.bootstrapPath == was[n].bootstrapPath)
    && (n !in was ==> now.disks == [] && now.bootstrapFormat == "" && now.bootstrapPath == "")
    && now.control == (if n in changes && changes[n].control != "" then changes[n].control
                       else if n in was then was[n].control else "container")
  }

  /** The state of a node before the deployment: a retained node keeps its own. */
  predicate Pending(was: map<string, Node>, now: Node, n: string) {
    now.state == (if n in was then was[n].state else "created")
  }

  /** The record after convergence on nodes `names`: exactly these, all running. */
  predicate ConvergedTo(r: Record, s: Record, names: set<string>, changes: map<string, Change>) {
    && s.state == "running" && s.faults == r.faults && s.nodes.Keys == names
    && forall n :: n in names ==> Carried(r.nodes, s.nodes[n], n, changes) && s.nodes[n].state == "running"
  }

  /** The record from the start of the deployment on: the desired nodes besides those that are about to go. */
  predicate UnionOf(r: Record, s: Record, names: set<string>, changes: map<string, Change>) {
    && s.faults == r.faults && s.nodes.Keys == r.nodes.Keys + names
    && (forall n :: n in names ==> Carried(r.nodes, s.nodes[n], n, changes) && Pending(r.nodes, s.nodes[n], n))
    && (forall n :: n in r.nodes && n !in names ==> s.nodes[n] == r.nodes[n])
  }

  /** What is stored in the end: the old record, the union of the nodes, or the desired ones. */
  predicate Reached(r: Record, s: Record, names: set<string>, changes: map<string, Change>, res: Reconciled) {
    match res
    case Rejected => s == r
    case Restored => s == r
    case Unmarked => s == r || (UnionOf(r, s, names, changes) && s.state == "reconciling")
    case Unrestored => s == r || (UnionOf(r, s, names, changes) && s.state == "reconciling")
    case Partial => UnionOf(r, s, names, changes) && s.state in {"reconciling", "reconcile-failed"}
    case Unconfirmed => ConvergedTo(r, s, names, changes) || (UnionOf(r, s, names, changes) && s.state == "reconciling")
    case Converged => ConvergedTo(r, s, names, changes)
  }

  predicate ChangeAccepted(t: Topology, n: string, c: Change) {
    n in t.nodes && !c.dynamic && (c.control == "" || c.control == "container" || c.control == "qga")
  }

  /** Every change is of a desired node, adds no disks or boot data, and names a control that there is. */
  predicate ChangesAccepted(t: Topology, changes: map<string, Change>) {
    forall n :: n in changes ==> ChangeAccepted(t, n, changes[n])
  }

  /** The metadata of the desired nodes before any change. */
  method KeptNodes(was: map<string, Node>, names: set<string>) returns (nodes: map<string, Node>)
    ensures nodes.Keys == names
    ensures forall n :: n in names ==> Carried(was, nodes[n], n, map[]) && Pending(was, nodes[n], n)
  {
    nodes := map[];
    var rest := names;
    while rest != {}
      invariant rest <= names && nodes.Keys == names - rest
      invariant forall n :: n in nodes ==> Carried(was, nodes[n], n, map[]) && Pending(was, nodes[n], n)
      decreases rest
    {
      var n :| n in rest;
      rest := rest - {n};
      nodes := nodes[n := if n in was then was[n] else Node(CONTAINER, "created", [], "", "")];
    }
  }

  lemma ChangedNode(was: map<string, Node>, node: Node, n: string, changes: map<string, Change>, now: Node)
    requires Carried(was, node, n, map[]) && Pending(was, node, n) && n in changes
    requires now == if changes[n].control == "" then node else node.(control := changes[n].control)
    ensures Carried(was, now, n, changes) && Pending(was, now, n)
  {
  }

  lemma UnchangedNode(was: map<string, Node>, node: Node, n: string, changes: map<string, Change>)
    requires n !in changes
    ensures Carried(was, node, n, map[]) == Carried(was, node, n, changes)
  {
  }

  /** The node metadata of the desired topology, unless a change is refused. */
  method DesiredNodes(was: map<string, Node>, t: Topology, changes: map<string, Change>)
    returns (ok: bool, nodes: map<string, Node>)
    ensures ok <==> ChangesAccepted(t, changes)
    ensures ok ==> nodes.Keys == t.nodes
    ensures ok ==> forall n :: n in t.nodes ==> Carried(was, nodes[n], n, changes) && Pending(was, nodes[n], n)
  {
    hide Carried, Pending;
    nodes := KeptNodes(was, t.nodes);
    forall n | n in t.nodes && n !in changes ensures Carried(was, nodes[n], n, changes) { UnchangedNode(was, nodes[n], n, changes); }
    var rest := changes.Keys;
    while rest != {}
      invariant rest <= changes.Keys && nodes.Keys == t.nodes
      invariant forall n :: n in changes && n !in rest ==> ChangeAccepted(t, n, changes[n])
      invariant forall n :: n in nodes ==> Pending(was, nodes[n], n)
      invariant forall n :: n in nodes && n !in rest ==> Carried(was, nodes[n], n, changes)
      invariant forall n :: n in rest && n in nodes ==> Carried(was, nodes[n], n, map[])
      decreases rest
    {
      var n :| n in rest;
      rest := rest - {n};
      var c := changes[n];
      if n !in nodes || c.dynamic || (c.control != "" && c.control != CONTAINER && c.control != QGA) { return false, nodes; }
      ghost var node := nodes[n];
      if c.control != "" { nodes := nodes[n := nodes[n].(control := c.control)]; }
      ChangedNode(was, node, n, changes, nodes[n]);
    }
    ok := true;
  }

  datatype Reconciled =
    | Rejected     // nothing was written
    | Restored     // the draft was written and taken back before any runtime change
    | Unmarked     // the same, after an error while storing the union of the nodes
    | Unrestored   // taking the draft back failed
    | Partial      // the runtime may be anywhere between the old and the new topology
    | Unconfirmed  // converged, but storing the final record was reported as failed
    | Converged

  /** The record that names the nodes of both topologies while a deployment is under way. */
  function Union(r: Record, nodes: map<string, Node>, state: string): (r': Record)
    ensures r'.faults == r.faults && r'.nodes == r.nodes + nodes && r'.state == state
  {
    r.(nodes := r.nodes + nodes, state := state)
  }

  /** The deployment at `k` was planned on the very file it deploys, approved, owned and free of faults. */
  ghost predicate GatedAt(log: seq<Event>, from: nat, k: nat, approved: Plan)
    requires k < |log|
  {
    && At(log, k).topology.Some? && At(log, k).record.Some?
    && NoneActive(At(log, k).record.value)
    && (exists c :: from <= c < k && log[c].step.OwnershipChecked?)
    && (exists v :: from <= v < k && log[v].step == Examined(FileIsValid, true) && forall w :: v < w < k ==> !log[w].step.WriteTopology?)
    && PlannedAt(log, from, k, approved)
  }

  /** The last plan before `k` is of the file as it is at `k`, and it is the approved one. */
  ghost predicate PlannedAt(log: seq<Event>, from: nat, k: nat, approved: Plan)
    requires k < |log|
  {
    && At(log, k).topology.Some?
    && exists p :: from <= p < k
         && log[p].step == Planned(At(log, k).topology.value, approved)
         && forall w :: p < w < k ==> !log[w].step.WriteTopology? && !log[w].step.Planned?
  }

  /** A step of a reconciliation: it stores no other faults than there are. */
  predicate ReconcileStep(step: Step, faults: map<string, Fault>) {
    step.OwnershipChecked? || step.Examined? || step.WriteTopology? || step.Planned? || step.Deploy? || (step.Save? && step.saved.faults == faults)
  }

  ghost predicate OnlyReconciles(log: seq<Event>, from: nat, faults: map<string, Fault>) {
    forall k :: from <= k < |log| ==> ReconcileStep(log[k].step, faults)
  }

  lemma NothingReconciled(log: seq<Event>)
    ensures forall faults :: OnlyReconciles(log, |log|, faults)
  {
  }

  lemma ReconcilesOn(before: seq<Event>, log: seq<Event>, from: nat, faults: map<string, Fault>)
    requires from <= |before| && before <= log
    requires OnlyReconciles(before, from, faults) && OnlyReconciles(log, |before|, faults)
    ensures OnlyReconciles(log, from, faults)
  {
  }

  lemma DeployThenSave(before: seq<Event>, log: seq<Event>, faults: map<string, Fault>)
    requires |log| >= |before| + 2 && before <= log && log[|before|].step.Deploy?
    requires forall k :: |before| < k < |log| - 1 ==> log[k].step.Examined?
    requires log[|log| - 1].step.Save? && log[|log| - 1].step.saved.faults == faults
    ensures OnlyReconciles(log, |before|, faults)
  {
  }

  lemma RunningIsLegal(a: State, r: Record)
    requires a.record.Some? && a.record.value.faults == r.faults && NoneActive(r) && a.runtime <= r.nodes.Keys
    ensures LegalSave(a, a.record.value, Running(r))
  {
  }

  /** Validation, a fresh plan that equals the approved one, and the evidence files. */
  method StillApproved(h: SessionHost, approved: Plan) returns (ok: bool)
    requires h.Valid() && h.topology.Some?
    modifies h`log
    ensures h.Valid() && h.Now() == old(h.Now())
    ensures old(h.log) <= h.log
    ensures forall k :: |old(h.log)| <= k < |h.log| ==> h.log[k].step.Planned? || h.log[k].step.Examined?
    ensures ok ==>
      && |h.log| == |old(h.log)| + 2 && h.log[|old(h.log)|].step == Examined(FileIsValid, true)
      && h.log[|old(h.log)| + 1].step == Planned(h.topology.value, approved)
    ensures !h.faulty && approved == h.planOf(h.topology.value, h.runtime) ==> ok
  {
    var valid := h.Examine(FileIsValid);
    if !valid { return false; }
    var plan := h.PlanTopology();
    if plan != Some(approved) { return false; }
    ok := h.Succeeds();
  }

  /** Event `k` is a deployment that was found good: its cables are back, and the lab is isolated. */
  ghost predicate Approved(log: seq<Event>, k: nat) {
    && |log| == k + 4 && log[k].step.Deploy?
    && log[k + 1].step == Examined(PeersReattached, true) && log[k + 2].step == Examined(LabIsIsolated, true)
    && log[k + 3].step.Save?
  }

  /** From the start of the deployment on: errors keep the union, success stores exactly the new nodes. */
  method Converge(h: SessionHost, r: Record, nodes: map<string, Node>) returns (res: Reconciled)
    requires h.Valid() && h.record == Some(Union(r, nodes, "reconciling")) && NoneActive(r)
    requires h.topology.Some? && h.topology.value.nodes == nodes.Keys
    modifies h
    ensures h.Valid() && old(h.log) <= h.log
    ensures |h.log| > |old(h.log)| && h.log[|old(h.log)|].step == Deploy
    ensures OnlyReconciles(h.log, |old(h.log)|, r.faults)
    ensures forall k :: |old(h.log)| < k < |h.log| ==> !h.log[k].step.Deploy?
    ensures h.Now() == old(h.Now()).(runtime := h.runtime, up := h.up, base := h.base, record := h.record)
    ensures res.Partial? || res.Unconfirmed? || res.Converged?
    ensures res.Partial? ==> h.record == Some(Union(r, nodes, "reconciling")) || h.record == Some(Union(r, nodes, "reconcile-failed"))
    ensures !h.faulty ==> res.Converged?
    ensures !res.Partial? ==> h.runtime <= nodes.Keys && Approved(h.log, |old(h.log)|)
    ensures res.Unconfirmed? ==>
      h.record == old(h.record) || h.record == Some(Running(r.(nodes := nodes)))
    ensures res.Converged? ==> h.record == Some(Running(r.(nodes := nodes)))
  {
    hide Run, At, Guard, Effect, EventAllowed, SessionHost.Valid, LegalSave, OnlyReconciles;
    ghost var start := h.log;
    var good := Roll(h, true);
    if !good {
      UnionIsLegal(h.Now(), r, nodes, "reconcile-failed");
      var failed := h.SaveRecord(Union(r, nodes, "reconcile-failed"));
      DeployThenSave(start, h.log, r.faults);
      return Partial;
    }
    RunningIsLegal(h.Now(), r.(nodes := nodes));
    var saved := h.SaveRecord(Running(r.(nodes := nodes)));
    DeployThenSave(start, h.log, r.faults);
    res := if saved then Converged else Unconfirmed;
  }

  /** What is stored for nodes as DesiredNodes makes them. */
  lemma DesiredReached(r: Record, nodes: map<string, Node>, names: set<string>, changes: map<string, Change>,
                       stored: Option<Record>,
                       res: Reconciled)
    requires nodes.Keys == names
    requires forall n :: n in names ==> Carried(r.nodes, nodes[n], n, changes) && Pending(r.nodes, nodes[n], n)
    requires match res
      case Rejected => stored == Some(r)
      case Restored => stored == Some(r)
      case Unmarked => stored == Some(r) || stored == Some(Union(r, nodes, "reconciling"))
      case Unrestored => stored == Some(r) || stored == Some(Union(r, nodes, "reconciling"))
      case Partial => stored == Some(Union(r, nodes, "reconciling")) || stored == Some(Union(r, nodes, "reconcile-failed"))
      case Unconfirmed => stored == Some(Union(r, nodes, "reconciling")) || stored == Some(Running(r.(nodes := nodes)))
      case Converged => stored == Some(Running(r.(nodes := nodes)))
    ensures stored.Some? && Reached(r, stored.value, names, changes, res)
  {
    assert forall state :: UnionOf(r, Union(r, nodes, state), names, changes);
    assert ConvergedTo(r, Running(r.(nodes := nodes)), names, changes);
  }

  lemma DeployIsGated(before: seq<Event>, log: seq<Event>, from: nat, c: nat, approved: Plan, a: State)
    requires before <= log && |before| < |log| && Run(log) && log[|before|].step.Deploy?
    requires At(before, |before|) == a && a.topology.Some?
    requires from <= c < |before| - 3 && before[c].step.OwnershipChecked? && before[|before| - 1].step.Save?
    requires before[|before| - 3].step == Examined(FileIsValid, true)
    requires before[|before| - 2].step == Planned(a.topology.value, approved)
    ensures GatedAt(log, from, |before|, approved)
  {
    var k := |before|;
    assert At(log, k) == a;
    assert EventAllowed(log, k);
    assert log[c].step.OwnershipChecked? && log[k - 3].step == Examined(FileIsValid, true);
    assert log[k - 2].step == Planned(a.topology.value, approved);
  }

  lemma RejectedKeeps(r: Option<Record>, draft: Option<Topology>, changes: map<string, Change>)
    ensures r.Some? && draft.Some? ==> Reached(r.value, r.value, draft.value.nodes, changes, Rejected)
  {
  }

  /** The checks that come before anything is written, and the nodes that the draft asks for. */
  method Admit(h: SessionHost, draft: Option<Topology>, changes: map<string, Change>)
    returns (p: Option<(Record, map<string, Node>)>)
    requires h.Valid()
    modifies h`log
    ensures h.Valid() && h.Now() == old(h.Now())
    ensures old(h.log) <= h.log
    ensures forall k :: |old(h.log)| <= k < |h.log| ==> h.log[k].step.OwnershipChecked?
    ensures forall faults :: OnlyReconciles(h.log, |old(h.log)|, faults)
    ensures p.Some? ==>
      && h.record == Some(p.value.0) && NoneActive(p.value.0) && draft.Some? && |h.log| > |old(h.log)|
      && ChangesAccepted(draft.value, changes) && p.value.1.Keys == draft.value.nodes
      && forall n :: n in draft.value.nodes ==>
           Carried(p.value.0.nodes, p.value.1[n], n, changes) && Pending(p.value.0.nodes, p.value.1[n], n)
    ensures !h.faulty && h.record.Some? && draft.Some? ==>
      NoneActive(h.record.value) && ChangesAccepted(draft.value, changes) ==> p.Some?
  {
    hide Carried, Pending, ChangesAccepted, Run, At, Guard, Effect, EventAllowed;
    var r := h.Load();
    if r.None? { return None; }
    if exists id :: id in r.value.faults && r.value.faults[id].active { return None; }
    var owned := h.CheckOwnership();
    if !owned || draft.None? { return None; }
    var ok, nodes := DesiredNodes(r.value.nodes, draft.value, changes);
    p := if ok then Some((r.value, nodes)) else None;
  }

  /**
   ApplyTopology. `draft` is what prepareDraft made of the request (None when it refused it),
   and `approved` the dry-run plan the caller accepted.
   */
  method ApplyTopology(h: SessionHost, approved: Option<Plan>, draft: Option<Topology>, changes: map<string, Change>)
    returns (res: Reconciled)
    requires h.Valid()
    modifies h
    ensures h.Valid() && old(h.log) <= h.log
    ensures OnlyReconciles(h.log, |old(h.log)|, if old(h.record).Some? then old(h.record).value.faults else map[])
    ensures forall k :: |old(h.log)| <= k < |h.log| && h.log[k].step.Deploy? ==>
      approved.Some? && GatedAt(h.log, |old(h.log)|, k, approved.value)
    ensures h.wipes == old(h.wipes) && h.boots == old(h.boots) && h.impaired == old(h.impaired)
    ensures !res.Rejected? ==>
      && old(h.record).Some? && draft.Some? && NoneActive(old(h.record).value) && ChangesAccepted(draft.value, changes)
    ensures h.Now() == old(h.Now()).(record := h.record, topology := h.topology, runtime := h.runtime, up := h.up, base := h.base)
    ensures old(h.record).Some? && draft.Some? ==>
      h.record.Some? && Reached(old(h.record).value, h.record.value, draft.value.nodes, changes, res)
    ensures res.Rejected? || res.Restored? ==> h.Now() == old(h.Now())
    ensures res.Unmarked? ==> h.Now() == old(h.Now()).(record := h.record)
    ensures res.Unrestored? ==> h.Now() == old(h.Now()).(record := h.record, topology := draft)
    ensures res.Partial? || res.Unconfirmed? || res.Converged? ==> h.topology == draft
    ensures res.Unconfirmed? || res.Converged? ==> exists k :: |old(h.log)| <= k && Approved(h.log, k)
    ensures res.Converged? ==> h.runtime <= draft.value.nodes
    // It goes through if nothing outside fails and the approved plan is the one that a fresh dry run gives.
    ensures
      && !h.faulty && old(h.record).Some? && old(h.topology).Some? && draft.Some?
      && NoneActive(old(h.record).value) && ChangesAccepted(draft.value, changes)
      && approved == Some(h.planOf(draft.value, old(h.runtime)))
      ==> res.Converged?
  {
    hide OnlyReconciles, LegalSave, Guard, Effect, Carried, Pending, ChangesAccepted, Union, Running, GatedAt, EventAllowed, Approved,
      Reached, Run, At, SessionHost.Valid;
    RejectedKeeps(h.record, draft, changes);
    NothingReconciled(h.log);
    if approved.None? { return Rejected; }
    var admitted := Admit(h, draft, changes);
    if admitted.None? { return Rejected; }
    var (r, nodes) := admitted.value;
    ghost var before := h.log;
    res := Proceed(h, approved.value, r, nodes, draft.value, |old(h.log)|, |h.log| - 1);
    DesiredReached(r, nodes, draft.value.nodes, changes, h.record, res);
    ReconcilesOn(before, h.log, |old(h.log)|, r.faults);
  }

  /** Marks the draft and, if that went well, deploys it. The ownership was checked at event `c`. */
  method Proceed(h: SessionHost, approved: Plan, r: Record, nodes: map<string, Node>, draft: Topology,
                 ghost from: nat, ghost c: nat)
    returns (res: Reconciled)
    requires h.Valid() && h.record == Some(r) && NoneActive(r) && draft.nodes == nodes.Keys
    requires from <= c < |h.log| && h.log[c].step.OwnershipChecked?
    modifies h
    ensures h.Valid() && old(h.log) <= h.log && OnlyReconciles(h.log, |old(h.log)|, r.faults)
    ensures forall k :: |old(h.log)| <= k < |h.log| && h.log[k].step.Deploy? ==> GatedAt(h.log, from, k, approved)
    ensures h.Now() == old(h.Now()).(record := h.record, topology := h.topology, runtime := h.runtime, up := h.up, base := h.base)
    ensures res.Rejected? || res.Restored? ==> h.Now() == old(h.Now())
    ensures res.Unmarked? ==> h.Now() == old(h.Now()).(record := h.record)
    ensures res.Unrestored? ==> h.Now() == old(h.Now()).(record := h.record, topology := Some(draft))
    ensures res.Unmarked? || res.Unrestored? ==> h.record == Some(r) || h.record == Some(Union(r, nodes, "reconciling"))
    ensures res.Partial? || res.Unconfirmed? || res.Converged? ==> h.topology == Some(draft)
    ensures res.Partial? ==> h.record == Some(Union(r, nodes, "reconciling")) || h.record == Some(Union(r, nodes, "reconcile-failed"))
    ensures res.Unconfirmed? ==> h.record == Some(Union(r, nodes, "reconciling")) || h.record == Some(Running(r.(nodes := nodes)))
    ensures res.Converged? ==> h.record == Some(Running(r.(nodes := nodes))) && h.runtime <= nodes.Keys
    ensures res.Unconfirmed? || res.Converged? ==> exists k :: |old(h.log)| <= k && Approved(h.log, k)
    ensures !h.faulty && old(h.topology).Some? && approved == h.planOf(draft, old(h.runtime)) ==> res.Converged?
  {
    hide OnlyReconciles, LegalSave, Guard, Effect, Union, Running, GatedAt, EventAllowed, Approved;
    res := Mark(h, approved, r, nodes, draft);
    if res.Unconfirmed? {
      ghost var before, a := h.log, h.Now();
      assert At(before, |before|) == a;
      res := Converge(h, r, nodes);
      ReconcilesOn(before, h.log, |old(h.log)|, r.faults);
      DeployIsGated(before, h.log, from, c, approved, a);
    }
  }

  /**
   Puts the draft in place, has the plan confirmed and stores the union of the nodes, or takes the draft back.
   Unconfirmed means that the deployment may start.
   */
  method Mark(h: SessionHost, approved: Plan, r: Record, nodes: map<string, Node>,
              draft: Topology) returns (res: Reconciled)
    requires h.Valid() && h.record == Some(r) && NoneActive(r)
    requires draft.nodes == nodes.Keys
    modifies h
    ensures h.Valid() && old(h.log) <= h.log && Quiet(h.log, |old(h.log)|)
    ensures OnlyReconciles(h.log, |old(h.log)|, r.faults)
    ensures res.Rejected? || res.Restored? || res.Unmarked? || res.Unrestored? || res.Unconfirmed?
    ensures h.Now() == old(h.Now()).(record := h.record, topology := h.topology)
    ensures res.Rejected? || res.Restored? ==> h.Now() == old(h.Now())
    ensures res.Unmarked? ==> h.topology == old(h.topology)
    ensures res.Unrestored? || res.Unconfirmed? ==> h.topology == Some(draft)
    ensures h.record == Some(r) || h.record == Some(Union(r, nodes, "reconciling"))
    ensures res.Unconfirmed? ==>
      && h.record == Some(Union(r, nodes, "reconciling"))
      && |h.log| >= |old(h.log)| + 3 && h.log[|h.log| - 3].step == Examined(FileIsValid, true)
      && h.log[|h.log| - 2].step == Planned(draft, approved) && h.log[|h.log| - 1].step.Save?
    ensures !h.faulty && old(h.topology).Some? && approved == h.planOf(draft, h.runtime) ==> res.Unconfirmed?
  {
    hide Run, At, SessionHost.Valid, LegalSave, Guard, Effect, EventAllowed, Union;
    var before := h.ReadTopology();
    if before.None? { return Rejected; }
    var written := h.WriteTopologyFile(draft);
    if !written { return Rejected; }
    var agreed := StillApproved(h, approved);
    var saved := false;
    if agreed {
      UnionIsLegal(h.Now(), r, nodes, "reconciling");
      saved := h.SaveRecord(Union(r, nodes, "reconciling"));
    }
    if saved { return Unconfirmed; }
    var back := h.WriteTopologyFile(before.value);
    res := if !back then Unrestored else if agreed then Unmarked else Restored;
  }

  lemma UnionIsLegal(a: State, r: Record, nodes: map<string, Node>, state: string)
    requires a.record.Some? && a.record.value.faults == r.faults
    requires a.record.value.nodes.Keys <= r.nodes.Keys + nodes.Keys
    ensures LegalSave(a, a.record.value, Union(r, nodes, state))
  {
  }
}
