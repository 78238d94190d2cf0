/** Node lifecycle, replacement and session destruction (internal/server/server.go). */
module Lifecycles {
  import opened Records
  import opened Host
  import opened Reconcile

  /** First-boot data of a replacement; empty data means none was given. */
  datatype Boot = Boot(format: string, data: string)

  datatype Outcome =
    | Refused         // nothing was touched
    | Failed          // the runtime operation failed; the node is in an unknown state
    | RemovalFailed   // a replacement stopped before its disks and boot data
    | Incomplete      // a replacement removed the node but did not finish
    | Unsaved         // done, but storing the record was reported as failed
    | Done

  // ---------- what an operation leaves in the record ----------

  /** From `r` to `s` only node `n` has changed, and it kept its control and its disks. */
  predicate OthersKept(r: Record, s: Record, n: string) {
    && s.state == r.state && s.faults == r.faults
    && n in r.nodes && s.nodes.Keys == r.nodes.Keys
    && (forall m :: m in r.nodes && m != n ==> s.nodes[m] == r.nodes[m])
    && s.nodes[n].control == r.nodes[n].control && s.nodes[n].disks == r.nodes[n].disks
  }

  /** Besides the state of node `n` nothing has changed. */
  predicate Restated(r: Record, s: Record, n: string, state: string) {
    && OthersKept(r, s, n) && s.nodes[n].state == state
    && s.nodes[n].bootstrapFormat == r.nodes[n].bootstrapFormat && s.nodes[n].bootstrapPath == r.nodes[n].bootstrapPath
  }

  /** Besides its state node `n` has got new boot data, under the path that it had or else under `place`. */
  predicate Rebooted(place: string, r: Record, s: Record, n: string, state: string, boot: Boot) {
    && OthersKept(r, s, n) && s.nodes[n].state == state
    && s.nodes[n].bootstrapFormat == boot.format
    && s.nodes[n].bootstrapPath == (if r.nodes[n].bootstrapPath == "" then place else r.nodes[n].bootstrapPath)
  }

  /** The record `s` that a completed operation on node `n` of `r` stores. */
  predicate Completed(place: string, r: Record, s: Record, n: string, action: NodeAction, boot: Boot) {
    match action
    case Crash => Restated(r, s, n, "stopped")
    case PowerOff => Restated(r, s, n, "stopped")
    case Start => Restated(r, s, n, "running")
    case Restart => Restated(r, s, n, "running")
    case Replace =>
      if boot.data == "" then Restated(r, s, n, "replacement-pending")
      else Rebooted(place, r, s, n, "replacement-pending", boot)
    case NoAction => false
  }

  /** The record `s` after an operation on node `n` of `r` that ended with `res`. */
  predicate Recorded(place: string, r: Record, s: Record, n: string, action: NodeAction, boot: Boot, res: Outcome) {
    match res
    case Refused => s == r
    case Failed => !action.Replace? && (s == r || Restated(r, s, n, "unknown"))
    case RemovalFailed => action.Replace? && (s == r || Restated(r, s, n, "unknown"))
    case Incomplete => action.Replace? && (s == r || Restated(r, s, n, "replacement-pending"))
    case Unsaved =>
      || (!action.Replace? && s == r)
      || (action.Replace? && Restated(r, s, n, "replacement-pending"))
      || Completed(place, r, s, n, action, boot)
    case Done => Completed(place, r, s, n, action, boot)
  }

  // ---------- what an operation leaves in the log ----------

  /** The effects that an operation on node `n` of `r` may have. */
  predicate ActsOn(step: Step, r: Record, n: string, action: NodeAction) {
    match step
    case Lifecycle(m, a) => m == n && a == action && !action.Replace?
    case RemoveNode(m) => m == n && action.Replace?
    case WipeDisk(d) => d.node == n && action.Replace?
    case WriteBootstrap(m, _) => m == n && action.Replace?
    case WriteTopology(_) => action.Replace?
    case Save(s) => OthersKept(r, s, n)
    case OwnershipChecked => action.Replace?
    case Examined(check, _) => if action.Replace? then check == FileIsValid else check == NodeRuns(n)
    case _ => false
  }

  /** Everything that happened from `from` on was done to node `n`. */
  ghost predicate OnlyOn(log: seq<Event>, from: nat, r: Record, n: string, action: NodeAction) {
    forall k :: from <= k < |log| ==> ActsOn(log[k].step, r, n, action)
  }

  /** Events `b` to `e` are those of an operation on node `n` of `r`, which completed if `ok`. */
  ghost predicate Handled(place: string, log: seq<Event>, b: nat, e: nat, r: Record, n: string, action: NodeAction,
                          boot: Boot,
                          ok: bool)
  {
    && b <= e <= |log| && n in r.nodes
    && (forall k :: b <= k < e ==> ActsOn(log[k].step, r, n, action))
    && (e > b && !action.Replace? ==> b + 2 <= e <= b + 3 && log[b].step == Step.Lifecycle(n, action) && log[e - 1].step.Save?)
    // No node is called running that was not seen to run.
    && (ok && (action.Start? || action.Restart?) ==> e == b + 3 && log[b + 1].step == Examined(NodeRuns(n), true))
    && (e > b && action.Replace? ==> log[b].step.OwnershipChecked? && (e > b + 1 ==> log[b + 1].step == RemoveNode(n)))
    && (ok && !action.Replace? ==> e > b && Completed(place, r, log[e - 1].step.saved, n, action, boot))
    && (ok && action.Replace? ==> e > b + 2 && Refitted(place, log, b + 2, e, r, n, boot))
  }

  /** After its removal node `n` got its new boot data, if there is any, then all of its disks anew, then its final record. */
  ghost predicate Refitted(place: string, log: seq<Event>, b: nat, e: nat, r: Record, n: string, boot: Boot)
    requires n in r.nodes
  {
    var disks := r.nodes[n].disks;
    && b + 2 + |disks| <= e <= |log| && log[b].step.Save?
    && WipesIn(log[..e - 1], e - 1 - |disks|, DiskIds(n, disks))
    && (boot.data != "" ==>
          && b + 4 + |disks| <= e && log[b + 1].step == WriteBootstrap(n, boot.data)
          && log[e - 2 - |disks|].step == Examined(FileIsValid, true))
    && log[e - 1].step.Save? && Completed(place, r, log[e - 1].step.saved, n, Replace, boot)
  }

  lemma RefitDone(place: string, marked: seq<Event>, ready: seq<Event>, log: seq<Event>, r: Record, s: Record,
                  n: string, boot: Boot)
    requires n in r.nodes && 0 < |marked| && marked <= ready && ready <= log && marked[|marked| - 1].step.Save?
    requires boot.data != "" ==>
      && |marked| + 1 < |ready| && ready[|marked|].step == WriteBootstrap(n, boot.data)
      && ready[|ready| - 1].step == Examined(FileIsValid, true)
    requires |log| == |ready| + |r.nodes[n].disks| + 1 && log[|log| - 1].step == Save(s)
    requires WipesIn(log[..|log| - 1], |ready|, DiskIds(n, r.nodes[n].disks))
    requires Completed(place, r, s, n, Replace, boot)
    ensures Refitted(place, log, |marked| - 1, |log|, r, n, boot)
  {
    hide Completed, WipesIn;
    assert log[..|ready|] == ready;
  }

  lemma OnlyOnMore(before: seq<Event>, log: seq<Event>, from: nat, r: Record, n: string, action: NodeAction)
    requires from <= |before| && before <= log
    requires OnlyOn(before, from, r, n, action) && OnlyOn(log, |before|, r, n, action)
    ensures OnlyOn(log, from, r, n, action)
  {
  }

  lemma WipesAreOn(log: seq<Event>, from: nat, r: Record, n: string, disks: seq<Disk>)
    requires WipesIn(log, from, DiskIds(n, disks))
    ensures OnlyOn(log, from, r, n, Replace)
  {
  }

  lemma OnlyOnIsQuiet(log: seq<Event>, from: nat, r: Record, n: string, action: NodeAction)
    requires OnlyOn(log, from, r, n, action)
    ensures Quiet(log, from)
  {
  }

  lemma CommandHandled(place: string, before: seq<Event>, log: seq<Event>, r: Record, s: Record, n: string,
                       action: NodeAction,
                       boot: Boot, ok: bool)
    requires |before| + 2 <= |log| <= |before| + 3 && before <= log && !action.Replace?
    requires log[|before|].step == Step.Lifecycle(n, action) && log[|log| - 1].step == Save(s)
    requires |log| == |before| + 3 ==> log[|before| + 1].step.Examined? && log[|before| + 1].step.check == NodeRuns(n)
    requires ok && (action.Start? || action.Restart?) ==> |log| == |before| + 3 && log[|before| + 1].step.passed
    requires OthersKept(r, s, n) && (ok ==> Completed(place, r, s, n, action, boot))
    ensures OnlyOn(log, |before|, r, n, action) && Handled(place, log, |before|, |log|, r, n, action, boot, ok)
  {
  }

  lemma ReplaceHandled(place: string, before: seq<Event>, log: seq<Event>, r: Record, n: string, boot: Boot, ok: bool)
    requires before <= log && n in r.nodes && OnlyOn(log, |before|, r, n, Replace)
    requires |log| > |before| ==> log[|before|].step.OwnershipChecked?
    requires |log| > |before| + 1 ==> log[|before| + 1].step == RemoveNode(n)
    requires ok ==> |log| > |before| + 2 && Refitted(place, log, |before| + 2, |log|, r, n, boot)
    ensures Handled(place, log, |before|, |log|, r, n, Replace, boot, ok)
  {
    hide Completed, Refitted, ActsOn;
  }

  lemma NothingYet(place: string, before: seq<Event>, log: seq<Event>, r: Record, n: string, boot: Boot)
    requires log == before || (|log| == |before| + 1 && before <= log && log[|before|].step.OwnershipChecked?)
    requires n in r.nodes
    ensures OnlyOn(log, |before|, r, n, Replace) && Handled(place, log, |before|, |log|, r, n, Replace, boot, false)
  {
  }

  lemma OnlyRemoved(before: seq<Event>, log: seq<Event>, r: Record, n: string)
    requires |log| == |before| + 2 && before <= log
    requires log[|before|].step.OwnershipChecked? && log[|before| + 1].step == RemoveNode(n)
    ensures OnlyOn(log, |before|, r, n, Replace)
  {
  }

  /** A longer log says the same about its beginning. */
  lemma HandledStays(place: string, before: seq<Event>, after: seq<Event>, b: nat, e: nat, r: Record, n: string,
                     action: NodeAction,
                     boot: Boot, ok: bool)
    requires before <= after && Handled(place, before, b, e, r, n, action, boot, ok)
    ensures Handled(place, after, b, e, r, n, action, boot, ok)
  {
    hide ActsOn, Completed;
    assert after[..e] == before[..e];
    if e > 0 { assert after[..e - 1] == before[..e - 1]; }
  }

  // ---------- the operations ----------

  /** The record with the state of node `n` changed, or with new boot data besides. */
  lemma NodeChanges(place: string, r: Record, n: string, state: string, boot: Boot)
    requires n in r.nodes
    ensures Restated(r, WithNode(r, n, r.nodes[n].(state := state)), n, state)
    ensures Rebooted(place, r, WithNode(r, n, WithBoot(place, r.nodes[n].(state := state), boot)), n, state, boot)
  {
  }

  /** The records that a replacement may leave, by its outcome. */
  lemma ReplacementRecords(place: string, r: Record, n: string, boot: Boot)
    requires n in r.nodes
    ensures var node := r.nodes[n].(state := "replacement-pending");
      var fitted := if boot.data == "" then node else WithBoot(place, node, boot);
      && OthersKept(r, WithNode(r, n, node), n) && OthersKept(r, WithNode(r, n, fitted), n)
      && Recorded(place, r, r, n, Replace, boot, Incomplete)
      && Recorded(place, r, WithNode(r, n, node), n, Replace, boot, Incomplete)
      && Recorded(place, r, WithNode(r, n, node), n, Replace, boot, Unsaved)
      && Recorded(place, r, WithNode(r, n, fitted), n, Replace, boot, Unsaved)
      && Recorded(place, r, WithNode(r, n, fitted), n, Replace, boot, Done)
      && Completed(place, r, WithNode(r, n, fitted), n, Replace, boot)
  {
    hide OthersKept, WithNode, WithBoot;
    NodeChanges(place, r, n, "replacement-pending", boot);
  }

  function WithBoot(place: string, node: Node, boot: Boot): Node {
    node.(bootstrapFormat := boot.format, bootstrapPath := if node.bootstrapPath == "" then place else node.bootstrapPath)
  }

  function WithNode(r: Record, n: string, node: Node): (s: Record)
    ensures s.faults == r.faults && s.nodes.Keys == r.nodes.Keys + {n}
  {
    r.(nodes := r.nodes[n := node])
  }

  /** Stores a node's new metadata. */
  method SaveNode(h: SessionHost, r: Record, n: string, node: Node, ghost action: NodeAction) returns (ok: bool)
    requires h.Valid() && h.record.Some? && h.record.value.faults == r.faults && h.record.value.nodes.Keys == r.nodes.Keys
    requires n in r.nodes && OthersKept(r, WithNode(r, n, node), n)
    modifies h
    ensures h.Valid() && OnlyOn(h.log, |old(h.log)|, r, n, action)
    ensures h.log == old(h.log) + [Event(Save(WithNode(r, n, node)), h.Now())]
    ensures h.Now() == old(h.Now()).(record := h.record)
    ensures h.record == Some(WithNode(r, n, node)) || (!ok && h.record == old(h.record))
    ensures !h.faulty ==> ok
  {
    NodeChangeIsLegal(h.Now(), r, n, node);
    ok := h.SaveRecord(WithNode(r, n, node));
  }

  lemma NodeChangeIsLegal(a: State, r: Record, n: string, node: Node)
    requires a.record.Some? && a.record.value.faults == r.faults && a.record.value.nodes.Keys == r.nodes.Keys
    requires n in r.nodes
    ensures LegalSave(a, a.record.value, WithNode(r, n, node))
  {
  }

  /** A replacement with an active fault, or with boot data that is none or that the node cannot take. */
  predicate MustRefuse(r: Record, n: string, boot: Boot)
    requires n in r.nodes
  {
    || !NoneActive(r)
    || (boot.data != "" && (
          || Blank(boot.data) || Target(boot.format).None?
          || r.nodes[n].control != QGA
          || (r.nodes[n].bootstrapFormat != "" && r.nodes[n].bootstrapFormat != boot.format)))
  }

  /** What makes an operation go through when nothing outside fails. */
  predicate Feasible(a: State, n: string, action: NodeAction, boot: Boot) {
    && a.record.Some? && n in a.record.value.nodes && !action.NoAction?
    && (action.Replace? ==>
          && !MustRefuse(a.record.value, n, boot)
          && Bindable(a.topology, n, a.record.value.nodes[n], boot))
  }

  /** The bind of a node's first boot data has a place in the topology file. */
  predicate Bindable(topology: Option<Topology>, n: string, node: Node, boot: Boot) {
    boot.data != "" && node.bootstrapFormat == "" ==> topology.Some? && n in topology.value.nodes
  }

  /**
   The first boot data of a node, and nothing else, changes the topology file: its text becomes itself with the bind of
   that data on the node, always if the data was published.
   */
  predicate Rebound(h: SessionHost, was: Option<Topology>, now: Option<Topology>, n: string, node: Node, boot: Boot,
                    published: bool) {
    var first := boot.data != "" && node.bootstrapFormat == "";
    || (now == was && !(published && first))
    || (first && Target(boot.format).Some? && was.Some?
        && var path := if node.bootstrapPath == "" then h.layout.boot(n) else node.bootstrapPath;
           now == Some(Topology(was.value.nodes, h.addBind(was.value.text, n, path + ":" + Target(boot.format).value + ":ro"))))
  }

  method Lifecycle(h: SessionHost, n: string, action: NodeAction, boot: Boot) returns (res: Outcome)
    requires h.Valid()
    modifies h
    ensures h.Valid() && old(h.log) <= h.log && Quiet(h.log, |old(h.log)|)
    ensures h.up == old(h.up) && h.impaired == old(h.impaired) && h.base == old(h.base) && h.deleted == old(h.deleted)
    // It completes exactly when it may, unless something outside fails.
    ensures res.Done? ==> Feasible(old(h.Now()), n, action, boot)
    ensures !h.faulty && Feasible(old(h.Now()), n, action, boot) ==> res.Done?
    ensures res.Refused? ==> h.Now() == old(h.Now())
    ensures !res.Refused? ==> old(h.record).Some?
    ensures old(h.record).Some? && n in old(h.record).value.nodes && action.Replace? ==>
      (MustRefuse(old(h.record).value, n, boot) ==> res.Refused?)
    ensures old(h.record).Some? ==>
      && h.record.Some?
      && h.record.value.nodes.Keys == old(h.record).value.nodes.Keys && h.record.value.faults == old(h.record).value.faults
    // Of the record only this node changes, as the outcome says.
    ensures old(h.record).Some? ==> h.record.Some? && Recorded(h.layout.boot(n), old(h.record).value, h.record.value, n, action, boot, res)
    // The events are those of the requested action, on this node.
    ensures h.log != old(h.log) ==>
      && old(h.record).Some?
      && Handled(h.layout.boot(n), h.log, |old(h.log)|, |h.log|, old(h.record).value, n, action, boot, res.Done?)
    ensures res.Done? ==> h.log != old(h.log)
    // Only a replacement that removed the node touches files, and only those of that node.
    ensures !action.Replace? || res.RemovalFailed? ==>
      h.wipes == old(h.wipes) && h.boots == old(h.boots) && h.topology == old(h.topology)
    ensures h.wipes != old(h.wipes) || h.boots != old(h.boots) || h.topology != old(h.topology) ==>
      n !in h.runtime && NoneActive(old(h.record).value)
    ensures h.boots == old(h.boots) || h.boots == old(h.boots)[n := boot.data]
    ensures old(h.record).Some? && n in old(h.record).value.nodes && action.Replace? ==>
      Rebound(h, old(h.topology), h.topology, n, old(h.record).value.nodes[n], boot, res.Done?)
    ensures action.Replace? && res.Done? ==>
      && n !in h.runtime
      && h.wipes == old(h.wipes) + multiset(DiskIds(n, old(h.record).value.nodes[n].disks))
      && (boot.data != "" ==> n in h.boots && h.boots[n] == boot.data)
  {
    hide Run, At, Guard, Effect, EventAllowed, LegalSave, SessionHost.Valid, Handled;
    var loaded := h.Load();
    if loaded.None? || n !in loaded.value.nodes || action.NoAction? { return Refused; }
    var r := loaded.value;
    if action.Replace? {
      res := ReplaceNode(h, r, n, boot);
      OnlyOnIsQuiet(h.log, |old(h.log)|, r, n, action);
      return;
    }
    res := Command(h, r, n, action, boot);
    OnlyOnIsQuiet(h.log, |old(h.log)|, r, n, action);
  }

  /** The native command; a start counts only when the node is then seen to run. */
  method Act(h: SessionHost, n: string, action: NodeAction) returns (ok: bool)
    requires h.Valid()
    modifies h
    ensures h.Valid() && old(h.log) < h.log && h.log[|old(h.log)|].step == Step.Lifecycle(n, action)
    ensures |h.log| == |old(h.log)| + 1
      || (|h.log| == |old(h.log)| + 2 && h.log[|old(h.log)| + 1].step == Examined(NodeRuns(n), ok))
    ensures ok && (action.Start? || action.Restart?) ==> |h.log| == |old(h.log)| + 2
    ensures h.Now() == old(h.Now()).(runtime := h.runtime)
    ensures !h.faulty ==> ok
  {
    hide Run, At, Guard, Effect, EventAllowed, LegalSave, SessionHost.Valid;
    ok := h.NodeLifecycle(n, action);
    // A native start may report success for a container that vanished.
    if ok && (action.Start? || action.Restart?) { ok := h.Examine(NodeRuns(n)); }
  }

  /** Everything but a replacement. */
  method Command(h: SessionHost, r: Record, n: string, action: NodeAction, ghost boot: Boot) returns (res: Outcome)
    requires h.Valid() && h.record == Some(r) && n in r.nodes && !action.Replace? && !action.NoAction?
    modifies h
    ensures h.Valid() && old(h.log) < h.log
    ensures OnlyOn(h.log, |old(h.log)|, r, n, action)
    ensures h.Now() == old(h.Now()).(record := h.record, runtime := h.runtime)
    ensures res.Failed? || res.Unsaved? || res.Done?
    ensures h.record.Some? && Recorded(h.layout.boot(n), r, h.record.value, n, action, boot, res)
    ensures Handled(h.layout.boot(n), h.log, |old(h.log)|, |h.log|, r, n, action, boot, res.Done?)
    ensures !h.faulty ==> res.Done?
  {
    hide Run, At, Guard, Effect, EventAllowed, LegalSave, SessionHost.Valid, OthersKept, OnlyOn, Handled, WithNode, Rebooted;
    ghost var before := h.log;
    var ok := Act(h, n, action);
    if !ok {
      NodeChanges(h.layout.boot(n), r, n, "unknown", boot);
      var noted := SaveNode(h, r, n, r.nodes[n].(state := "unknown"), action);
      CommandHandled(h.layout.boot(n), before, h.log, r, WithNode(r, n, r.nodes[n].(state := "unknown")), n, action, boot, false);
      return Failed;
    }
    var state := if action.Crash? || action.PowerOff? then "stopped" else "running";
    NodeChanges(h.layout.boot(n), r, n, state, boot);
    var saved := SaveNode(h, r, n, r.nodes[n].(state := state), action);
    CommandHandled(h.layout.boot(n), before, h.log, r, WithNode(r, n, r.nodes[n].(state := state)), n, action, boot, saved);
    res := if saved then Done else Unsaved;
  }

  /** The checks of a replacement that come before anything is stopped. */
  method Admitted(h: SessionHost, r: Record, n: string, boot: Boot) returns (ok: bool)
    requires h.Valid() && n in r.nodes
    modifies h`log
    ensures h.Valid() && h.Now() == old(h.Now())
    ensures h.log == old(h.log) || h.log == old(h.log) + [Event(OwnershipChecked, h.Now())]
    ensures ok ==> h.log != old(h.log) && !MustRefuse(r, n, boot)
    ensures ok ==> NoneActive(r) && (boot.data != "" ==> Target(boot.format).Some?)
    ensures !h.faulty && !MustRefuse(r, n, boot) ==> ok
  {
    hide Run, At, Guard, Effect, EventAllowed, LegalSave, SessionHost.Valid, Blank, Target;
    if exists id :: id in r.faults && r.faults[id].active { return false; }
    var owned := h.CheckOwnership();
    if !owned { return false; }
    var node := r.nodes[n];
    if boot.data != "" {
      if Blank(boot.data) || Target(boot.format).None? || node.control != QGA { return false; }
      if node.bootstrapFormat != "" && node.bootstrapFormat != boot.format { return false; }
    }
    ok := true;
  }

  method ReplaceNode(h: SessionHost, r: Record, n: string, boot: Boot) returns (res: Outcome)
    requires h.Valid() && h.record == Some(r) && n in r.nodes
    modifies h
    ensures h.Valid() && old(h.log) <= h.log && (res.Done? ==> old(h.log) < h.log)
    ensures h.up == old(h.up) && h.impaired == old(h.impaired) && h.base == old(h.base) && h.deleted == old(h.deleted)
    ensures OnlyOn(h.log, |old(h.log)|, r, n, Replace)
    ensures Handled(h.layout.boot(n), h.log, |old(h.log)|, |h.log|, r, n, Replace, boot, res.Done?)
    ensures res.Done? ==> Feasible(old(h.Now()), n, Replace, boot)
    ensures !h.faulty && Feasible(old(h.Now()), n, Replace, boot) ==> res.Done?
    ensures MustRefuse(r, n, boot) ==> res.Refused?
    ensures res.Refused? ==> h.Now() == old(h.Now())
    ensures h.record.Some? && Recorded(h.layout.boot(n), r, h.record.value, n, Replace, boot, res)
    ensures res.RemovalFailed? ==> h.Now() == old(h.Now()).(runtime := h.runtime, record := h.record)
    ensures h.wipes != old(h.wipes) || h.boots != old(h.boots) || h.topology != old(h.topology) ==>
      n !in h.runtime && NoneActive(r)
    ensures h.boots == old(h.boots) || h.boots == old(h.boots)[n := boot.data]
    ensures Rebound(h, old(h.topology), h.topology, n, r.nodes[n], boot, res.Done?)
    ensures res.Done? ==>
      && n !in h.runtime
      && h.wipes == old(h.wipes) + multiset(DiskIds(n, r.nodes[n].disks))
      && (boot.data != "" ==> n in h.boots && h.boots[n] == boot.data)
  {
    hide Run, At, Guard, Effect, EventAllowed, LegalSave, Quiet, SessionHost.Valid, OthersKept, OnlyOn, Handled, WithNode, Rebooted;
    hide Refitted, Completed, MustRefuse;
    ghost var start := h.log;
    var admitted := Admitted(h, r, n, boot);
    NothingYet(h.layout.boot(n), start, h.log, r, n, boot);
    if !admitted { return Refused; }
    var removed := h.RemoveRuntimeNode(n);
    OnlyRemoved(start, h.log, r, n);
    ghost var before := h.log;
    if !removed {
      NodeChanges(h.layout.boot(n), r, n, "unknown", boot);
      var noted := SaveNode(h, r, n, r.nodes[n].(state := "unknown"), Replace);
      res := RemovalFailed;
    } else {
      res := Refit(h, r, n, boot);
    }
    OnlyOnMore(before, h.log, |start|, r, n, Replace);
    ReplaceHandled(h.layout.boot(n), start, h.log, r, n, boot, res.Done?);
  }

  /** After the removal: new boot data, then fresh disks, then the final record. */
  method Refit(h: SessionHost, r: Record, n: string, boot: Boot) returns (res: Outcome)
    requires h.Valid() && h.record == Some(r) && n in r.nodes && n !in h.runtime
    modifies h
    ensures h.Valid() && old(h.log) < h.log
    ensures OnlyOn(h.log, |old(h.log)|, r, n, Replace)
    ensures h.Now() == old(h.Now()).(record := h.record, boots := h.boots, topology := h.topology, wipes := h.wipes)
    ensures res.Incomplete? || res.Unsaved? || res.Done?
    ensures h.record.Some? && Recorded(h.layout.boot(n), r, h.record.value, n, Replace, boot, res)
    ensures h.boots == old(h.boots) || h.boots == old(h.boots)[n := boot.data]
    ensures Rebound(h, old(h.topology), h.topology, n, r.nodes[n], boot, res.Done?)
    ensures res.Done? ==> Bindable(old(h.topology), n, r.nodes[n], boot)
    ensures !h.faulty && Bindable(old(h.topology), n, r.nodes[n], boot) && (boot.data != "" ==> Target(boot.format).Some?) ==> res.Done?
    ensures res.Done? ==>
      && h.wipes == old(h.wipes) + multiset(DiskIds(n, r.nodes[n].disks))
      && (boot.data != "" ==> n in h.boots && h.boots[n] == boot.data)
      && Refitted(h.layout.boot(n), h.log, |old(h.log)|, |h.log|, r, n, boot)
  {
    hide Run, At, Guard, Effect, EventAllowed, LegalSave, Quiet, SessionHost.Valid, DiskIds;
    hide OnlyOn, OthersKept, WithNode, Refitted, WipesIn, ActsOn, Recorded, Completed, Target;
    ghost var from := |h.log|;
    var node := r.nodes[n].(state := "replacement-pending");
    ReplacementRecords(h.layout.boot(n), r, n, boot);
    var marked := SaveNode(h, r, n, node, Replace);
    if !marked { return Incomplete; }
    ghost var before := h.log;
    var published, fitted := PublishBoot(h, r, n, node, boot);
    OnlyOnMore(before, h.log, from, r, n, Replace);
    if !published { return Incomplete; }
    ghost var ready := h.log;
    res := Renew(h, r, n, fitted);
    OnlyOnMore(ready, h.log, from, r, n, Replace);
    if res.Done? { RefitDone(h.layout.boot(n), before, ready, h.log, r, WithNode(r, n, fitted), n, boot); }
  }

  /** Truncates the disks of a node that has no container and then stores its new metadata. */
  method Renew(h: SessionHost, r: Record, n: string, node: Node) returns (res: Outcome)
    requires h.Valid() && h.record.Some? && h.record.value.faults == r.faults && h.record.value.nodes.Keys == r.nodes.Keys
    requires n in r.nodes && n !in h.runtime && OthersKept(r, WithNode(r, n, node), n)
    modifies h
    ensures h.Valid() && old(h.log) <= h.log
    ensures OnlyOn(h.log, |old(h.log)|, r, n, Replace)
    ensures h.Now() == old(h.Now()).(record := h.record, wipes := h.wipes)
    ensures res.Incomplete? || res.Unsaved? || res.Done?
    ensures h.record == old(h.record) || (!res.Incomplete? && h.record == Some(WithNode(r, n, node)))
    ensures res.Done? ==>
      && h.wipes == old(h.wipes) + multiset(DiskIds(n, node.disks)) && h.record == Some(WithNode(r, n, node))
      && |h.log| == |old(h.log)| + |node.disks| + 1 && h.log[|h.log| - 1].step == Save(WithNode(r, n, node))
      && WipesIn(h.log[..|h.log| - 1], |old(h.log)|, DiskIds(n, node.disks))
    ensures !h.faulty ==> res.Done?
  {
    hide Run, At, Guard, Effect, EventAllowed, LegalSave, Quiet, SessionHost.Valid, DiskIds, OnlyOn, OthersKept, WithNode, WipesIn;
    ghost var from := |h.log|;
    var reset, m := ResetDisks(h, n, node.disks);
    WipesAreOn(h.log, from, r, n, node.disks);
    if !reset { return Incomplete; }
    assert DiskIds(n, node.disks)[..m] == DiskIds(n, node.disks);
    ghost var before := h.log;
    var saved := SaveNode(h, r, n, node, Replace);
    OnlyOnMore(before, h.log, from, r, n, Replace);
    assert h.log[..|h.log| - 1] == before;
    res := if saved then Done else Unsaved;
  }

  /** Gives the node its new boot data, if there is any, and has the topology validated. */
  method PublishBoot(h: SessionHost, ghost r: Record, n: string, node: Node, boot: Boot) returns (ok: bool,
                     fitted: Node)
    requires h.Valid() && h.record.Some? && n !in h.runtime
    modifies h
    ensures h.Valid() && old(h.log) <= h.log
    ensures OnlyOn(h.log, |old(h.log)|, r, n, Replace)
    ensures h.Now() == old(h.Now()).(boots := h.boots, topology := h.topology)
    ensures h.boots == old(h.boots) || h.boots == old(h.boots)[n := boot.data]
    ensures fitted.state == node.state && fitted.disks == node.disks && fitted.control == node.control
    ensures boot.data == "" ==> ok && fitted == node && h.boots == old(h.boots) && h.topology == old(h.topology) && h.log == old(h.log)
    ensures ok && boot.data != "" ==>
      && n in h.boots && h.boots[n] == boot.data && fitted.bootstrapFormat == boot.format
      && fitted.bootstrapPath == (if node.bootstrapPath == "" then h.layout.boot(n) else node.bootstrapPath)
      && |h.log| > |old(h.log)| + 1 && h.log[|old(h.log)|].step == WriteBootstrap(n, boot.data)
      && h.log[|h.log| - 1].step == Examined(FileIsValid, true)
    ensures Rebound(h, old(h.topology), h.topology, n, node, boot, ok)
    ensures ok ==> Bindable(old(h.topology), n, node, boot)
    ensures !h.faulty && Bindable(old(h.topology), n, node, boot) && Target(boot.format).Some? ==> ok
  {
    fitted := node;
    if boot.data == "" { return true, node; }
    ok := ConfigureBootstrap(h, r, n, node, boot);
    if !ok { return; }
    ok := h.Examine(FileIsValid);
    fitted := node.(bootstrapFormat := boot.format,
                    bootstrapPath := if node.bootstrapPath == "" then h.layout.boot(n) else node.bootstrapPath);
  }

  /** Publishes boot data; the first time, its bind is added to the topology file. */
  method ConfigureBootstrap(h: SessionHost, ghost r: Record, n: string, node: Node, boot: Boot) returns (ok: bool)
    requires h.Valid() && h.record.Some? && n !in h.runtime
    modifies h
    ensures h.Valid() && old(h.log) <= h.log
    ensures OnlyOn(h.log, |old(h.log)|, r, n, Replace)
    ensures h.Now() == old(h.Now()).(boots := h.boots, topology := h.topology)
    ensures h.boots == old(h.boots) || h.boots == old(h.boots)[n := boot.data]
    ensures ok ==>
      && n in h.boots && h.boots[n] == boot.data
      && |h.log| > |old(h.log)| && h.log[|old(h.log)|].step == WriteBootstrap(n, boot.data)
    ensures ok ==> Bindable(old(h.topology), n, node, boot)
    ensures !h.faulty && boot.data != "" && Bindable(old(h.topology), n, node, boot) && Target(boot.format).Some? ==> ok
    ensures boot.data != "" ==> Rebound(h, old(h.topology), h.topology, n, node, boot, ok)
  {
    hide Run, At, Guard, Effect, EventAllowed, LegalSave, Quiet, SessionHost.Valid;
    var target := Target(boot.format);
    if target.None? { return false; }
    var path := if node.bootstrapPath == "" then h.layout.boot(n) else node.bootstrapPath;
    ok := h.WriteBootstrapFile(n, boot.data);
    if !ok || node.bootstrapFormat != "" { return; }
    var t := h.ReadTopology();
    if t.None? || n !in t.value.nodes { return false; }
    ok := h.WriteTopologyFile(t.value.(text := h.addBind(t.value.text, n, path + ":" + target.value + ":ro")));
  }

  /** The runtime goes first; the record only when nothing of the runtime is left. */
  method DestroySession(h: SessionHost) returns (ok: bool)
    requires h.Valid()
    modifies h
    ensures h.Valid() && old(h.log) <= h.log
    ensures forall k :: |old(h.log)| <= k < |h.log| ==> h.log[k].step.Destroy? || h.log[k].step.Delete?
    ensures ok ==> h.deleted && h.record == None && h.runtime == {} && old(h.record).Some?
    ensures !ok ==> h.record == old(h.record) && h.runtime <= old(h.runtime)
    ensures h.wipes == old(h.wipes)
    ensures !h.faulty && old(h.record).Some? ==> ok
  {
    var loaded := h.Load();
    if loaded.None? { return false; }
    var destroyed := h.DestroyRuntime();
    if !destroyed { return false; }
    ok := h.DeleteRecord();
  }
}
