/** Network faults: a rollback record is stored before the network is touched (internal/server/server.go). */
module Faults {
  import opened Records
  import opened Host

  datatype Request =
    | NetemRequest(node: string, iface: string)
    | LinkRequest(node: string, iface: string, up: bool)
    | PartitionRequest
    | NoRequest

  datatype Applied =
    | Done(id: string)       // the fault is in force
    | Refused                // nothing was stored and nothing was touched
    | Unsaved(id: string)    // storing the record failed: the network was not touched
    | Ambiguous(id: string)  // the backend failed: the record stays active for RevertFault

  /** What a successful request asks of the network. */
  ghost predicate InForce(h: SessionHost, q: Request)
    reads h
  {
    match q
    case NetemRequest(n, i) => Endpoint(n, i) in h.impaired
    case LinkRequest(n, i, v) => v == (Endpoint(n, i) in h.up)
    case _ => false
  }

  function KindOf(q: Request): string {
    if q.NetemRequest? then NETEM else LINK_STATE
  }

  /** What makes a request go through when nothing outside fails. */
  ghost predicate Feasible(a: State, q: Request) {
    && a.record.Some?
    && match q
       case NetemRequest(n, i) => n != "" && i != "" && n in a.record.value.nodes
       case LinkRequest(n, i, _) =>
         i != "" && n in a.record.value.nodes && forall id :: !Holds(a.record.value, id, LINK_STATE, Endpoint(n, i))
       case PartitionRequest => false
       case NoRequest => false
  }

  /** The record that a request leaves behind. */
  function RecordOf(q: Request, priorUp: bool): (f: Fault)
    requires q.NetemRequest? || q.LinkRequest?
  {
    match q
    case NetemRequest(n, i) => Fault(NETEM, n, i, true, false)
    case LinkRequest(n, i, _) => Fault(LINK_STATE, n, i, true, priorUp)
  }

  /** The backend call of a request. */
  function NetStep(q: Request): Step
    requires q.NetemRequest? || q.LinkRequest?
  {
    match q
    case NetemRequest(n, i) => Netem(Endpoint(n, i))
    case LinkRequest(n, i, v) => SetLink(Endpoint(n, i), v)
  }

  /** Event `b` stores a new fault for the request, under an id that the record did not have. */
  ghost predicate Opened(log: seq<Event>, b: nat, q: Request, id: string) {
    && b < |log| && (q.NetemRequest? || q.LinkRequest?) && At(log, b).record.Some?
    && var r := At(log, b).record.value;
    && id !in r.faults
    && log[b].step == Save(r.(faults := r.faults[id := RecordOf(q, Endpoint(q.node, q.iface) in At(log, b).up)]))
  }

  /** What an application leaves in the log from `b` to `e`: at most the store of one new fault, then its backend call. */
  ghost predicate Applying(log: seq<Event>, b: nat, e: nat, q: Request, res: Applied) {
    match res
    case Refused => e == b
    case Unsaved(id) => e == b + 1 && Opened(log, b, q, id)
    case Done(id) => e == b + 2 <= |log| && Opened(log, b, q, id) && Stored(log, b) && log[b + 1].step == NetStep(q)
    case Ambiguous(id) => e == b + 2 <= |log| && Opened(log, b, q, id) && Stored(log, b) && log[b + 1].step == NetStep(q)
  }

  /** The store at `b` took effect. */
  ghost predicate Stored(log: seq<Event>, b: nat) {
    b < |log| && log[b].step.Save? && log[b].after.record == Some(log[b].step.saved)
  }

  /** The backend call that undoes a fault. */
  function UndoStep(f: Fault): Step {
    if f.kind == NETEM then ResetNetem(f.At()) else SetLink(f.At(), f.restoreUp)
  }

  /** The record with fault `id` closed. */
  function Closed(r: Record, id: string): Record
    requires id in r.faults
  {
    r.(faults := r.faults[id := r.faults[id].(active := false)])
  }

  ghost predicate IsActive(a: State, id: string) {
    a.record.Some? && id in a.record.value.faults && a.record.value.faults[id].active
  }

  /**
   What a revert leaves in the log from `b` to `e`: nothing for a fault that is not active, and otherwise the call
   that undoes it and then the store of the closed record, as far as it got.
   */
  ghost predicate Reverting(log: seq<Event>, b: nat, e: nat, id: string, ok: bool) {
    && b <= e <= |log|
    && (!IsActive(At(log, b), id) ==> e == b && (ok ==> Settled(At(log, b), id)))
    && (IsActive(At(log, b), id) ==>
          var r := At(log, b).record.value;
          && e <= b + 2 && (ok ==> e == b + 2 && Stored(log, b + 1))
          && (e > b ==> log[b].step == UndoStep(r.faults[id]))
          && (e == b + 2 ==> log[b + 1].step == Save(Closed(r, id))))
  }

  /** Some active link-state fault of the record is on the endpoint. */
  method LinkFaultOn(r: Record, e: Endpoint) returns (found: bool)
    ensures found <==> exists i :: Holds(r, i, LINK_STATE, e)
  {
    var rest := r.faults.Keys;
    while rest != {}
      invariant rest <= r.faults.Keys
      invariant forall i :: i in r.faults.Keys - rest ==> !Holds(r, i, LINK_STATE, e)
      decreases rest
    {
      var i :| i in rest;
      var f := r.faults[i];
      if f.active && f.kind == LINK_STATE && f.node == e.node && f.iface == e.iface {
        assert Holds(r, i, LINK_STATE, e);
        return true;
      }
      rest := rest - {i};
    }
    return false;
  }

  /** Storing a new fault as the code builds it is a legal change of the ledger. */
  lemma OpeningIsLegal(a: State, r: Record, id: string, f: Fault)
    requires a.record == Some(r) && id !in r.faults
    requires Opens(a, r, r, f)
    ensures LegalSave(a, r, r.(faults := r.faults[id := f]))
  {
  }

  /** Validates a request, resolves its target and observes the prior link state; nothing is changed. */
  method Prepare(h: SessionHost, q: Request) returns (p: Option<(Record, string, Fault)>)
    requires h.Valid()
    ensures p.Some? ==>
      && (q.NetemRequest? || q.LinkRequest?)
      && var (r, id, f) := p.value;
         && h.record == Some(r) && id !in r.faults
         && f == RecordOf(q, Endpoint(q.node, q.iface) in h.up)
         && Opens(h.Now(), r, r, f)
    ensures p.Some? ==> Feasible(h.Now(), q)
    ensures !h.faulty && Feasible(h.Now(), q) ==> p.Some?
  {
    var loaded := h.Load();
    if loaded.None? { return None; }
    var r := loaded.value;
    var id := FreshFaultId(r);
    match q {
      case NetemRequest(node, iface) =>
        if node == "" || iface == "" || node !in r.nodes { return None; }
        var resolved := h.Succeeds();
        p := if resolved then Some((r, id, Fault(NETEM, node, iface, true, false))) else None;
      case LinkRequest(node, iface, _) =>
        if node !in r.nodes || iface == "" { return None; }
        var taken := LinkFaultOn(r, Endpoint(node, iface));
        if taken { return None; }
        var seen := h.LinkUp(Endpoint(node, iface));
        p := if seen.Some? then Some((r, id, Fault(LINK_STATE, node, iface, true, seen.value))) else None;
      case PartitionRequest => p := None;
      case NoRequest => p := None;
    }
  }

  /** The backend call of a prepared request; it may take effect even when it reports failure. */
  method Perform(h: SessionHost, q: Request) returns (ok: bool)
    requires h.Valid() && h.record.Some?
    requires q.NetemRequest? || q.LinkRequest?
    requires exists i :: Holds(h.record.value, i, KindOf(q), Endpoint(q.node, q.iface))
    modifies h
    ensures h.Valid() && h.log == old(h.log) + [Event(NetStep(q), h.Now())]
    ensures Quiet(h.log, |old(h.log)|)
    ensures h.Now() == old(h.Now()).(up := h.up, impaired := h.impaired)
    ensures forall e :: !(q.LinkRequest? && e == Endpoint(q.node, q.iface)) ==> (e in h.up) == (e in old(h.up))
    ensures forall e :: !(q.NetemRequest? && e == Endpoint(q.node, q.iface)) ==> (e in h.impaired) == (e in old(h.impaired))
    ensures ok ==> InForce(h, q)
    ensures !h.faulty ==> ok
  {
    match q {
      case NetemRequest(node, iface) => ok := h.ImpairEndpoint(Endpoint(node, iface));
      case LinkRequest(node, iface, up) => ok := h.SetLinkState(Endpoint(node, iface), up);
    }
  }

  method ApplyFault(h: SessionHost, q: Request) returns (res: Applied)
    requires h.Valid()
    modifies h
    ensures h.Valid() && old(h.log) <= h.log
    ensures h.runtime == old(h.runtime) && h.base == old(h.base) && h.topology == old(h.topology)
    ensures Quiet(h.log, |old(h.log)|)
    ensures !res.Refused? ==> Feasible(old(h.Now()), q)
    ensures !h.faulty && Feasible(old(h.Now()), q) ==> res.Done?
    ensures res.Refused? ==> h.Now() == old(h.Now()) && h.log == old(h.log)
    ensures Applying(h.log, |old(h.log)|, |h.log|, q, res)
    // A new record exists only under a fresh id, for the requested endpoint.
    ensures !res.Refused? ==>
      && old(h.record).Some? && res.id !in old(h.record).value.faults
      && (q.NetemRequest? || q.LinkRequest?)
      && var r := old(h.record).value;
         var f := RecordOf(q, Endpoint(q.node, q.iface) in old(h.up));
         var stored := r.(faults := r.faults[res.id := f]);
         && (h.record == Some(stored) || (res.Unsaved? && h.record == Some(r)))
         && (q.LinkRequest? ==> forall i :: !Holds(r, i, LINK_STATE, Endpoint(q.node, q.iface)))
    ensures res.Unsaved? ==> h.up == old(h.up) && h.impaired == old(h.impaired)
    // Whatever else happens, only the requested endpoint can change.
    ensures forall e :: !(q.LinkRequest? && e == Endpoint(q.node, q.iface)) ==> (e in h.up) == (e in old(h.up))
    ensures forall e :: !(q.NetemRequest? && e == Endpoint(q.node, q.iface)) ==> (e in h.impaired) == (e in old(h.impaired))
    ensures res.Done? ==> InForce(h, q)
  {
    var prepared := Prepare(h, q);
    if prepared.None? { return Refused; }
    var (r, id, f) := prepared.value;
    OpeningIsLegal(h.Now(), r, id, f);
    var r' := r.(faults := r.faults[id := f]);
    var saved := h.SaveRecord(r');
    if !saved { return Unsaved(id); }
    assert Holds(r', id, KindOf(q), Endpoint(q.node, q.iface));
    var done := Perform(h, q);
    res := if done then Done(id) else Ambiguous(id);
  }

  /** A random identifier, assumed not to collide with those of the record. */
  method FreshFaultId(r: Record) returns (id: string)
    ensures id !in r.faults
  {
    ghost var unused := FreshId(r.faults.Keys);
    id :| id !in r.faults;
  }

  /** Storing a fault as inactive is legal once the network is as the fault asks. */
  lemma ClosingIsLegal(a: State, r: Record, id: string)
    requires a.record == Some(r) && id in r.faults
    requires Settles(a, r.faults[id], r.faults[id].(active := false))
    ensures LegalSave(a, r, Closed(r, id))
  {
  }

  /** The backend call that undoes an active fault, by its stored kind. */
  method Restore(h: SessionHost, r: Record, id: string) returns (ok: bool)
    requires h.Valid() && h.record == Some(r) && id in r.faults && r.faults[id].active
    modifies h
    ensures h.Valid()
    ensures h.log == old(h.log) || h.log == old(h.log) + [Event(UndoStep(r.faults[id]), h.Now())]
    ensures ok ==> h.log != old(h.log)
    ensures Quiet(h.log, |old(h.log)|)
    ensures h.Now() == old(h.Now()).(up := h.up, impaired := h.impaired)
    ensures ok ==> Settles(h.Now(), r.faults[id], r.faults[id].(active := false))
    ensures forall e :: (e in h.up) != (e in old(h.up)) ==> Holds(r, id, LINK_STATE, e)
    ensures h.impaired <= old(h.impaired)
    ensures !h.faulty ==> ok
  {
    var f := r.faults[id];
    h.Sound();
    assert Holds(r, id, f.kind, f.At());
    if f.kind == NETEM {
      var resolved := h.Succeeds();
      if !resolved { return false; }
      ok := h.ClearEndpoint(f.At());
    } else if f.kind == LINK_STATE {
      // The store never holds an active fault whose node has gone.
      assert f.node in r.nodes;
      ok := h.SetLinkState(f.At(), f.restoreUp);
    } else {
      assert false;
    }
  }

  method RevertFault(h: SessionHost, id: string) returns (ok: bool)
    requires h.Valid()
    modifies h
    ensures h.Valid() && old(h.log) <= h.log
    ensures h.runtime == old(h.runtime) && h.base == old(h.base) && h.topology == old(h.topology)
    ensures Quiet(h.log, |old(h.log)|)
    ensures ok ==> Settled(h.Now(), id) && old(h.record).Some? && id in old(h.record).value.faults
    ensures !h.faulty && old(h.record).Some? && id in old(h.record).value.faults ==> ok
    ensures Reverting(h.log, |old(h.log)|, |h.log|, id, ok)
    // The record is only ever changed by closing this one fault, once the network is as the fault asks.
    ensures h.record == old(h.record) || (
      && IsActive(old(h.Now()), id)
      && var r := old(h.record).value;
         var f := r.faults[id];
         && h.record == Some(Closed(r, id))
         && (f.kind == LINK_STATE ==> (f.At() in h.up) == f.restoreUp) && (f.kind == NETEM ==> f.At() !in h.impaired))
    ensures ok && IsActive(old(h.Now()), id) ==> h.record == Some(Closed(old(h.record).value, id))
    ensures old(h.record).Some? && id in old(h.record).value.faults && !old(h.record).value.faults[id].active ==>
      h.Now() == old(h.Now())
    ensures forall e :: (e in h.up) != (e in old(h.up)) ==>
      old(h.record).Some? && Holds(old(h.record).value, id, LINK_STATE, e)
    ensures h.impaired <= old(h.impaired)
  {
    var loaded := h.Load();
    if loaded.None? { return false; }
    var r := loaded.value;
    if id !in r.faults { return false; }
    var f := r.faults[id];
    if !f.active { return true; }
    var restored := Restore(h, r, id);
    if !restored { return false; }
    ClosingIsLegal(h.Now(), r, id);
    ok := h.SaveRecord(Closed(r, id));
  }
}
