/** Timelines: ordered actions, undone in reverse when one of them fails (internal/server/server.go). */
module Timeline {
  import opened Records
  import opened Host
  import opened Faults
  import Reconcile
  import Lifecycles

  datatype Action =
    | LifecycleAction(node: string, what: NodeAction, boot: Lifecycles.Boot)
    | FaultAction(q: Request)
    | RevertAction(id: string)
    | ExecAction
    | WaitAction
    | MissingAction

  datatype Result =
    | Completed
    | Canceled(before: nat)  // the caller gave up while waiting for this action's time
    | Aborted(at: nat)       // this action failed

  // ---------- what a timeline leaves in the log ----------

  /** The events of one call: those from `begin` up to `end`. */
  datatype Span = Span(begin: nat, end: nat)

  /** An attempted action: its events, the fault it created, and the fault whose own application failed. */
  datatype Attempt = Attempt(span: Span, ok: bool, made: Option<string>, suspect: Option<string>)

  /** A revert made by the rollback. */
  datatype Undo = Undo(span: Span, id: string, ok: bool)

  /** What ApplyFault answered, as the attempt remembers it. */
  function AppliedBy(t: Attempt): Applied {
    if t.made.Some? then Done(t.made.value)
    else if t.suspect.None? then Refused
    else if t.span.end == t.span.begin + 1 then Unsaved(t.suspect.value)
    else Ambiguous(t.suspect.value)
  }

  /** What makes an action succeed when nothing outside fails. */
  ghost predicate Able(a: State, action: Action) {
    match action
    case LifecycleAction(n, what, boot) => Lifecycles.Feasible(a, n, what, boot)
    case FaultAction(q) => Faults.Feasible(a, q)
    case RevertAction(id) => a.record.Some? && id in a.record.value.faults
    case ExecAction => true
    case WaitAction => true
    case MissingAction => false
  }

  /** The events of the attempt are those of that action. */
  ghost predicate Did(log: seq<Event>, action: Action, t: Attempt) {
    var b, e := t.span.begin, t.span.end;
    && b <= e <= |log|
    && (t.ok ==> Able(At(log, b), action))
    && (!action.FaultAction? ==> t.made.None? && t.suspect.None?)
    && match action
       case FaultAction(q) => t.ok == t.made.Some? && (t.ok ==> t.suspect.None?) && Applying(log, b, e, q, AppliedBy(t))
       case RevertAction(id) => Reverting(log, b, e, id, t.ok)
       case LifecycleAction(n, what, boot) =>
         t.ok || e > b ==>
           At(log, b).record.Some? && exists place :: Lifecycles.Handled(place, log, b, e, At(log, b).record.value, n, what, boot, t.ok)
       case MissingAction => e == b && !t.ok
       case _ => e == b
  }

  /** A call that somebody else makes on the session. */
  datatype Call =
    | Act(action: Action)
    | Reconciliation(approved: Option<Plan>, draft: Option<Topology>, changes: map<string, Reconcile.Change>)
    | Destruction

  /**
   The calls of others, before each action and before each revert of the rollback, and whether the caller gives up
   while the time of an action has not come.
   */
  datatype Company = Company(before: nat -> seq<Call>, undoing: nat -> seq<Call>, givesUp: nat -> bool)

  /** The events from `b` to `e` are those of that call. */
  ghost predicate DidCall(log: seq<Event>, b: nat, e: nat, call: Call) {
    && b <= e <= |log|
    && match call
       case Act(action) => exists t: Attempt :: t.span == Span(b, e) && Did(log, action, t)
       case Reconciliation(_, _, _) =>
         forall k :: b <= k < e ==> Reconcile.ReconcileStep(log[k].step, FaultsAt(log, b))
       case Destruction => forall k :: b <= k < e ==> log[k].step.Destroy? || log[k].step.Delete?
  }

  ghost function FaultsAt(log: seq<Event>, b: nat): map<string, Fault>
    requires b <= |log|
  {
    if At(log, b).record.Some? then At(log, b).record.value.faults else map[]
  }

  /** The events from `b` to `e` are those of these calls, one after the other, and no others. */
  ghost predicate Filled(log: seq<Event>, b: nat, e: nat, calls: seq<Call>)
    decreases |calls|, 0
  {
    if calls == [] then b == e else exists m: nat :: FilledAt(log, b, m, e, calls)
  }

  /** The last of the calls begins at `m`. */
  ghost predicate FilledAt(log: seq<Event>, b: nat, m: nat, e: nat, calls: seq<Call>)
    requires calls != []
    decreases |calls| - 1, 1
  {
    b <= m <= e && Filled(log, b, m, calls[..|calls| - 1]) && DidCall(log, m, e, calls[|calls| - 1])
  }

  /** Calls that leave links, impairments and faults alone. */
  predicate Idle(call: Call) {
    call.Act? && (call.action.LifecycleAction? || call.action.ExecAction? || call.action.WaitAction? || call.action.MissingAction?)
  }

  /** Calls that write no link: these, and impairments. */
  predicate NoLink(call: Call) {
    Idle(call) || (call.Act? && call.action.FaultAction? && !call.action.q.LinkRequest?)
  }

  ghost predicate AllIdle(company: Company) {
    forall k: nat :: (forall c :: c in company.before(k) ==> Idle(c)) && (forall c :: c in company.undoing(k) ==> Idle(c))
  }

  /** Nobody else writes a link. */
  ghost predicate SoleWriter(company: Company) {
    forall k: nat :: (forall c :: c in company.before(k) ==> NoLink(c)) && (forall c :: c in company.undoing(k) ==> NoLink(c))
  }

  /** The attempt failed for a reason of its own: something outside failed, or the action could not succeed then. */
  ghost predicate Excused(h: SessionHost, action: Action, t: Attempt)
    reads h
  {
    h.faulty || (t.span.begin <= |h.log| && !Able(At(h.log, t.span.begin), action))
  }

  /** Each revert that failed did so for a reason of its own, too. */
  ghost predicate AllExcused(faulty: bool, log: seq<Event>, us: seq<Undo>) {
    forall u :: u in us && !u.ok ==> faulty || (u.span.begin <= |log| && !Able(At(log, u.span.begin), RevertAction(u.id)))
  }

  lemma OneMoreExcused(faulty: bool, before: seq<Event>, log: seq<Event>, us: seq<Undo>, u: Undo)
    requires before <= log && AllExcused(faulty, before, us)
    requires u.ok || faulty || (u.span.begin <= |log| && !Able(At(log, u.span.begin), RevertAction(u.id)))
    ensures AllExcused(faulty, log, us + [u])
  {
    hide Able;
    forall v | v in us + [u] && !v.ok ensures faulty || (v.span.begin <= |log| && !Able(At(log, v.span.begin), RevertAction(v.id))) {
      if v != u && !faulty { AtStays(before, log, v.span.begin); }
    }
  }

  /** The caller did not give up before any of the first `n` actions. */
  predicate Patient(company: Company, n: nat) {
    forall k: nat :: k < n ==> !company.givesUp(k)
  }

  function EndOf(from: nat, ts: seq<Attempt>): nat {
    if ts == [] then from else ts[|ts| - 1].span.end
  }

  /** The attempts are those of the first actions, in declaration order, with the calls of others before each. */
  ghost predicate InOrder(log: seq<Event>, from: nat, actions: seq<Action>, ts: seq<Attempt>, company: Company) {
    |ts| <= |actions| && forall k :: 0 <= k < |ts| ==> InPlace(log, from, actions, ts, company, k)
  }

  ghost predicate InPlace(log: seq<Event>, from: nat, actions: seq<Action>, ts: seq<Attempt>, company: Company, k: nat)
    requires k < |ts| <= |actions|
  {
    Filled(log, EndOf(from, ts[..k]), ts[k].span.begin, company.before(k)) && Did(log, actions[k], ts[k])
  }

  ghost predicate AllOk(ts: seq<Attempt>) {
    forall k :: 0 <= k < |ts| ==> ts[k].ok
  }

  /** The faults that the attempts created, in order. */
  function Made(ts: seq<Attempt>): seq<string> {
    if ts == [] then []
    else
      var last := ts[|ts| - 1];
      Made(ts[..|ts| - 1]) + (if last.made.Some? then [last.made.value] else [])
  }

  function UndoneTo(from: nat, us: seq<Undo>): nat {
    if us == [] then from else us[|us| - 1].span.end
  }

  /** The reverts are those of the created faults, the last one first, with the calls of others before each. */
  ghost predicate InReverse(log: seq<Event>, from: nat, created: seq<string>, us: seq<Undo>, company: Company) {
    |us| <= |created| && forall j :: 0 <= j < |us| ==> InPlaceBack(log, from, created, us, company, j)
  }

  ghost predicate InPlaceBack(log: seq<Event>, from: nat, created: seq<string>, us: seq<Undo>, company: Company, j: nat)
    requires j < |us| <= |created|
  {
    && us[j].id == created[|created| - 1 - j]
    && Filled(log, UndoneTo(from, us[..j]), us[j].span.begin, company.undoing(j))
    && Reverting(log, us[j].span.begin, us[j].span.end, us[j].id, us[j].ok)
  }

  /** The faults whose revert failed. */
  function Failures(us: seq<Undo>): set<string> {
    set u | u in us && !u.ok :: u.id
  }

  // ---------- a longer log says the same about its beginning ----------

  lemma AtStays(before: seq<Event>, after: seq<Event>, k: nat)
    requires before <= after && k <= |before|
    ensures At(after, k) == At(before, k)
  {
  }

  lemma LifecycleDid(h: SessionHost, before: seq<Event>, a: State, n: string, what: NodeAction, boot: Lifecycles.Boot,
                     ok: bool)
    requires before <= h.log && At(before, |before|) == a
    requires ok ==> h.log != before && Lifecycles.Feasible(a, n, what, boot)
    requires h.log != before ==>
      && a.record.Some?
      && Lifecycles.Handled(h.layout.boot(n), h.log, |before|, |h.log|, a.record.value, n, what, boot, ok)
    ensures Did(h.log, LifecycleAction(n, what, boot), Attempt(Span(|before|, |h.log|), ok, None, None))
  {
    hide Lifecycles.Handled, Lifecycles.Feasible;
    AtStays(before, h.log, |before|);
  }

  lemma DidStays(before: seq<Event>, after: seq<Event>, action: Action, t: Attempt)
    requires before <= after && Did(before, action, t)
    ensures Did(after, action, t)
  {
    hide Lifecycles.Handled, Able;
    AtStays(before, after, t.span.begin);
    assert forall k :: 0 <= k < |before| ==> after[k] == before[k];
    match action {
      case LifecycleAction(n, what, boot) =>
        var b, e := t.span.begin, t.span.end;
        if t.ok || e > b {
          var r := At(before, b).record.value;
          var place :| Lifecycles.Handled(place, before, b, e, r, n, what, boot, t.ok);
          Lifecycles.HandledStays(place, before, after, b, e, r, n, what, boot, t.ok);
        }
      case _ =>
    }
  }

  lemma DidCallStays(before: seq<Event>, after: seq<Event>, b: nat, e: nat, call: Call)
    requires before <= after && DidCall(before, b, e, call)
    ensures DidCall(after, b, e, call)
  {
    hide Did;
    match call {
      case Act(action) =>
        var t: Attempt :| t.span == Span(b, e) && Did(before, action, t);
        DidStays(before, after, action, t);
      case _ => AtStays(before, after, b);
    }
  }

  lemma {:induction false} FilledStays(before: seq<Event>, after: seq<Event>, b: nat, e: nat, calls: seq<Call>)
    requires before <= after && Filled(before, b, e, calls)
    ensures Filled(after, b, e, calls)
    decreases |calls|
  {
    hide DidCall;
    if calls != [] {
      var m: nat :| FilledAt(before, b, m, e, calls);
      FilledStays(before, after, b, m, calls[..|calls| - 1]);
      DidCallStays(before, after, m, e, calls[|calls| - 1]);
      assert FilledAt(after, b, m, e, calls);
    }
  }

  lemma OneMoreCall(before: seq<Event>, log: seq<Event>, b: nat, m: nat, e: nat, calls: seq<Call>, call: Call)
    requires before <= log && Filled(before, b, m, calls) && b <= m <= e && DidCall(log, m, e, call)
    ensures Filled(log, b, e, calls + [call])
  {
    hide DidCall;
    FilledStays(before, log, b, m, calls);
    assert (calls + [call])[..|calls|] == calls;
    assert FilledAt(log, b, m, e, calls + [call]);
  }

  lemma InOrderStays(before: seq<Event>, after: seq<Event>, from: nat, actions: seq<Action>, ts: seq<Attempt>,
                     company: Company)
    requires before <= after && InOrder(before, from, actions, ts, company)
    ensures InOrder(after, from, actions, ts, company)
  {
    hide Did, Filled;
    forall k | 0 <= k < |ts| ensures InPlace(after, from, actions, ts, company, k) {
      assert InPlace(before, from, actions, ts, company, k);
      FilledStays(before, after, EndOf(from, ts[..k]), ts[k].span.begin, company.before(k));
      DidStays(before, after, actions[k], ts[k]);
    }
  }

  lemma OneMoreInOrder(log: seq<Event>, from: nat, actions: seq<Action>, ts: seq<Attempt>, company: Company, t: Attempt)
    requires InOrder(log, from, actions, ts, company) && |ts| < |actions| && Did(log, actions[|ts|], t)
    requires Filled(log, EndOf(from, ts), t.span.begin, company.before(|ts|))
    ensures InOrder(log, from, actions, ts + [t], company)
    ensures Made(ts + [t]) == Made(ts) + (if t.made.Some? then [t.made.value] else [])
  {
    hide Did, Filled;
    var more := ts + [t];
    forall k | 0 <= k < |more| ensures InPlace(log, from, actions, more, company, k) {
      if k < |ts| {
        assert InPlace(log, from, actions, ts, company, k);
        assert more[..k] == ts[..k];
      } else {
        assert more[..k] == ts;
      }
    }
    assert more[..|more| - 1] == ts;
  }

  lemma RevertingStays(before: seq<Event>, after: seq<Event>, b: nat, e: nat, id: string, ok: bool)
    requires before <= after && Reverting(before, b, e, id, ok)
    ensures Reverting(after, b, e, id, ok)
  {
    AtStays(before, after, b);
    assert forall k :: 0 <= k < |before| ==> after[k] == before[k];
  }

  lemma OneMoreBack(before: seq<Event>, log: seq<Event>, from: nat, created: seq<string>, us: seq<Undo>,
                    company: Company, u: Undo)
    requires before <= log && InReverse(before, from, created, us, company) && |us| < |created|
    requires u.id == created[|created| - 1 - |us|] && Reverting(log, u.span.begin, u.span.end, u.id, u.ok)
    requires Filled(log, UndoneTo(from, us), u.span.begin, company.undoing(|us|))
    ensures InReverse(log, from, created, us + [u], company)
    ensures Failures(us + [u]) == Failures(us) + (if u.ok then {} else {u.id})
  {
    hide Reverting, Filled;
    var more := us + [u];
    forall j | 0 <= j < |more| ensures InPlaceBack(log, from, created, more, company, j) {
      if j < |us| {
        assert InPlaceBack(before, from, created, us, company, j);
        FilledStays(before, log, UndoneTo(from, us[..j]), us[j].span.begin, company.undoing(j));
        RevertingStays(before, log, us[j].span.begin, us[j].span.end, us[j].id, us[j].ok);
        assert more[..j] == us[..j];
      } else {
        assert more[..j] == us;
      }
    }
  }

  /** What is settled, or known, at the end of a run prefix is so at the end of the run. */
  lemma SettledAcross(before: seq<Event>, after: seq<Event>)
    requires Run(after) && before <= after
    ensures forall id :: Settled(At(before, |before|), id) ==> Settled(At(after, |after|), id)
    ensures forall id :: Known(At(before, |before|), id) ==> Known(At(after, |after|), id)
  {
    AtStays(before, after, |before|);
    forall id | Settled(At(before, |before|), id) ensures Settled(At(after, |after|), id) {
      SettledForever(after, |before|, |after|, id);
    }
    forall id | Known(At(before, |before|), id) ensures Known(At(after, |after|), id) {
      KnownForever(after, |before|, |after|, id);
    }
  }

  // ---------- what a timeline has done so far ----------

  ghost function IdsOf(a: State): set<string> {
    if a.record.Some? then a.record.value.faults.Keys else {}
  }

  ghost predicate HoldsKind(a: State, id: string, kind: string, e: Endpoint) {
    a.record.Some? && Holds(a.record.value, id, kind, e)
  }

  /** The faults `ids` remember where their links were at `start`. */
  ghost predicate Remember(start: State, a: State, ids: set<string>) {
    forall id, e :: id in ids && HoldsKind(a, id, LINK_STATE, e) ==> a.record.value.faults[id].restoreUp == (e in start.up)
  }

  /** Every link that moved since `start` is held by one of the faults `ids`. */
  ghost predicate LinksHeld(start: State, a: State, ids: set<string>) {
    forall e :: (e in a.up) != (e in start.up) ==> exists id :: id in ids && HoldsKind(a, id, LINK_STATE, e)
  }

  /** Every impairment that came since `start` is held by one of the faults `ids`. */
  ghost predicate ImpairedHeld(start: State, a: State, ids: set<string>) {
    forall e :: e in a.impaired && e !in start.impaired ==> exists id :: id in ids && HoldsKind(a, id, NETEM, e)
  }

  /** The faults of `start` are as they were. */
  ghost predicate Earlier(start: State, a: State) {
    start.record.Some? ==>
      && a.record.Some?
      && forall id :: id in start.record.value.faults ==>
           id in a.record.value.faults && a.record.value.faults[id] == start.record.value.faults[id]
  }

  /** Links are kept track of, with further faults that hold links without being counted on to return them. */
  ghost predicate LinksTracked(start: State, a: State, ids: set<string>, extra: set<string>) {
    Remember(start, a, ids) && LinksHeld(start, a, ids + extra)
  }

  /** The same of impairments and of the earlier faults. */
  ghost predicate RestTracked(start: State, a: State, ids: set<string>, extra: set<string>) {
    ImpairedHeld(start, a, ids + extra) && Earlier(start, a) && ids !! IdsOf(start)
  }

  ghost predicate Plain(actions: seq<Action>) {
    forall k :: 0 <= k < |actions| ==> !actions[k].RevertAction?
  }

  function Opt(id: Option<string>): set<string> {
    if id.Some? then {id.value} else {}
  }

  /** What ApplyFault may do to the state. */
  ghost predicate Changes(a: State, b: State, q: Request, id: string, saved: bool) {
    && a.record.Some? && id !in a.record.value.faults && (q.NetemRequest? || q.LinkRequest?)
    && var r := a.record.value;
       var e0 := Endpoint(q.node, q.iface);
       var stored := r.(faults := r.faults[id := RecordOf(q, e0 in a.up)]);
    && (b.record == Some(stored) || (!saved && b.record == Some(r)))
    && (!saved ==> b.up == a.up && b.impaired == a.impaired)
    && (q.LinkRequest? ==> forall i :: !Holds(r, i, LINK_STATE, e0))
    && (forall e :: !(q.LinkRequest? && e == e0) ==> (e in b.up) == (e in a.up))
    && (forall e :: !(q.NetemRequest? && e == e0) ==> (e in b.impaired) == (e in a.impaired))
  }

  /** Links, impairments and faults are as they were. */
  ghost predicate Still(a: State, b: State) {
    && b.up == a.up && b.impaired == a.impaired && a.record.Some? == b.record.Some?
    && (a.record.Some? ==> b.record.value.faults == a.record.value.faults)
  }

  /** Links, and the faults that hold them, are as they were. */
  ghost predicate LinksStill(a: State, b: State) {
    && b.up == a.up
    && (forall i, e :: HoldsKind(a, i, LINK_STATE, e) ==> HoldsKind(b, i, LINK_STATE, e))
    && (forall i, e :: HoldsKind(b, i, LINK_STATE, e) ==>
          HoldsKind(a, i, LINK_STATE, e) && b.record.value.faults[i].restoreUp == a.record.value.faults[i].restoreUp)
  }

  /** What an action may do to the state. */
  ghost predicate Moves(a: State, b: State, action: Action, made: Option<string>, suspect: Option<string>) {
    match action
    case FaultAction(q) =>
      || (made.None? && suspect.None? && b == a)
      || (made.Some? && suspect.None? && Changes(a, b, q, made.value, true))
      || (made.None? && suspect.Some? && (Changes(a, b, q, suspect.value, true) || Changes(a, b, q, suspect.value, false)))
    case RevertAction(_) => made.None? && suspect.None? && IdsOf(b) == IdsOf(a)
    case _ => made.None? && suspect.None? && Still(a, b)
  }

  lemma NewFaultIsTracked(start: State, a: State, b: State, q: Request, id: string, saved: bool, ids: set<string>)
    requires Changes(a, b, q, id, saved) && LinksTracked(start, a, ids, {})
    ensures LinksTracked(start, b, ids, {id})
    ensures saved ==> LinksTracked(start, b, ids + {id}, {})
  {
    var e0 := Endpoint(q.node, q.iface);
    assert ids + {} == ids && (ids + {id}) + {} == ids + {id};
    assert forall i, k, e :: HoldsKind(a, i, k, e) ==> HoldsKind(b, i, k, e);
    assert forall i, k, e :: HoldsKind(b, i, k, e) && i != id ==> HoldsKind(a, i, k, e);
    assert saved ==> HoldsKind(b, id, KindOf(q), e0);
    assert q.LinkRequest? ==> (e0 in a.up) == (e0 in start.up);
  }

  lemma NewFaultKeepsRest(start: State, a: State, b: State, q: Request, id: string, saved: bool, ids: set<string>)
    requires Changes(a, b, q, id, saved) && RestTracked(start, a, ids, {})
    ensures RestTracked(start, b, ids, {id})
    ensures saved ==> RestTracked(start, b, ids + {id}, {})
  {
    var e0 := Endpoint(q.node, q.iface);
    assert ids + {} == ids && (ids + {id}) + {} == ids + {id};
    assert forall i, k, e :: HoldsKind(a, i, k, e) ==> HoldsKind(b, i, k, e);
    assert saved ==> HoldsKind(b, id, KindOf(q), e0);
    assert id !in IdsOf(start);
  }

  /** An action of the timeline, other than a revert, keeps track of what it does. */
  lemma OwnStep(start: State, a: State, b: State, action: Action, made: Option<string>, suspect: Option<string>,
                ids: set<string>)
    requires Moves(a, b, action, made, suspect) && !action.RevertAction?
    ensures LinksTracked(start, a, ids, {}) ==> LinksTracked(start, b, ids + Opt(made), Opt(suspect))
    ensures RestTracked(start, a, ids, {}) ==> RestTracked(start, b, ids + Opt(made), Opt(suspect))
  {
    hide LinksTracked, RestTracked, Changes, Still;
    assert ids + {} == ids;
    match action {
      case FaultAction(q) =>
        if made.Some? || suspect.Some? {
          var id := if made.Some? then made.value else suspect.value;
          var saved := Changes(a, b, q, id, true);
          if LinksTracked(start, a, ids, {}) { NewFaultIsTracked(start, a, b, q, id, saved, ids); }
          if RestTracked(start, a, ids, {}) { NewFaultKeepsRest(start, a, b, q, id, saved, ids); }
        }
      case _ => OtherStep(start, a, b, ids, {});
    }
  }

  /** What others do keeps track as long as they leave things alone. */
  lemma OtherStep(start: State, a: State, b: State, ids: set<string>, extra: set<string>)
    ensures LinksStill(a, b) && LinksTracked(start, a, ids, extra) ==> LinksTracked(start, b, ids, extra)
    ensures Still(a, b) ==> LinksStill(a, b)
    ensures Still(a, b) && RestTracked(start, a, ids, extra) ==> RestTracked(start, b, ids, extra)
  {
    if Still(a, b) { assert forall i, k, e :: HoldsKind(b, i, k, e) == HoldsKind(a, i, k, e); }
  }

  /** A fault that is no link fault leaves links alone. */
  lemma NetemLeavesLinks(a: State, b: State, action: Action, made: Option<string>, suspect: Option<string>)
    requires Moves(a, b, action, made, suspect) && NoLink(Act(action))
    ensures LinksStill(a, b)
    ensures Idle(Act(action)) ==> Still(a, b)
  {
    assert a.record.Some? && b.record.Some? ==> forall i, e :: i in b.record.value.faults && i !in a.record.value.faults ==>
      !HoldsKind(b, i, LINK_STATE, e);
  }

  /** A successful revert of a fault that remembers the start takes its endpoint off the list of changed ones. */
  lemma RevertShrinks(start: State, a: State, b: State, id: string, rest: set<string>, extra: set<string>)
    requires id !in rest && IsActive(a, id)
    requires forall e :: (e in b.up) != (e in a.up) ==> HoldsKind(a, id, LINK_STATE, e)
    requires b.impaired <= a.impaired
    requires b.record == Some(Closed(a.record.value, id))
    requires var f := a.record.value.faults[id];
      (f.kind == LINK_STATE ==> (f.At() in b.up) == f.restoreUp) && (f.kind == NETEM ==> f.At() !in b.impaired)
    ensures LinksTracked(start, a, rest + {id}, extra) ==> LinksTracked(start, b, rest, extra)
    ensures RestTracked(start, a, rest + {id}, extra) ==> RestTracked(start, b, rest, extra)
  {
    var ids := rest + {id} + extra;
    assert forall i, k, e :: HoldsKind(b, i, k, e) ==> HoldsKind(a, i, k, e);
    assert forall i, k, e :: HoldsKind(a, i, k, e) && i != id ==> HoldsKind(b, i, k, e);
    if LinksTracked(start, a, rest + {id}, extra) {
      forall e | (e in b.up) != (e in start.up) ensures exists i :: i in rest + extra && HoldsKind(b, i, LINK_STATE, e) {
        assert !HoldsKind(a, id, LINK_STATE, e);
        var i :| i in ids && HoldsKind(a, i, LINK_STATE, e);
        assert HoldsKind(b, i, LINK_STATE, e);
      }
    }
    if RestTracked(start, a, rest + {id}, extra) {
      forall e | e in b.impaired && e !in start.impaired ensures exists i :: i in rest + extra && HoldsKind(b, i, NETEM, e) {
        assert !HoldsKind(a, id, NETEM, e);
        var i :| i in ids && HoldsKind(a, i, NETEM, e);
        assert HoldsKind(b, i, NETEM, e);
      }
    }
  }

  /** A fault that is not active holds nothing. */
  lemma InactiveDrops(start: State, a: State, id: string, rest: set<string>, extra: set<string>)
    requires !IsActive(a, id)
    ensures LinksTracked(start, a, rest + {id}, extra) ==> LinksTracked(start, a, rest, extra)
    ensures RestTracked(start, a, rest + {id}, extra) ==> RestTracked(start, a, rest, extra)
  {
    assert forall k, e :: !HoldsKind(a, id, k, e);
    assert forall i :: i in rest + {id} + extra ==> i == id || i in rest + extra;
  }

  // ---------- one action ----------

  method PerformFault(h: SessionHost, q: Request) returns (made: Option<string>, suspect: Option<string>)
    requires h.Valid()
    modifies h
    ensures h.Valid() && old(h.log) <= h.log
    ensures made.None? || suspect.None?
    ensures !h.faulty && Faults.Feasible(old(h.Now()), q) ==> made.Some?
    ensures Did(h.log, FaultAction(q), Attempt(Span(|old(h.log)|, |h.log|), made.Some?, made, suspect))
    ensures Moves(old(h.Now()), h.Now(), FaultAction(q), made, suspect)
    ensures forall id :: id in Opt(made) + Opt(suspect) ==> !Known(old(h.Now()), id)
    ensures made.Some? ==> Known(h.Now(), made.value)
  {
    hide Run, At, Guard, Effect, EventAllowed, SessionHost.Valid, Opened, Stored;
    made, suspect := None, None;
    h.Sound();
    IsNow(h);
    ghost var before := h.log;
    var res := ApplyFault(h, q);
    AtStays(before, h.log, |before|);
    if res.Done? { made := Some(res.id); } else if !res.Refused? { suspect := Some(res.id); }
  }

  /** One action. `made` is the fault it created, `suspect` the fault whose own application failed. */
  method Perform(h: SessionHost, action: Action) returns (ok: bool, made: Option<string>, suspect: Option<string>)
    requires h.Valid()
    modifies h
    ensures h.Valid() && old(h.log) <= h.log
    ensures Did(h.log, action, Attempt(Span(|old(h.log)|, |h.log|), ok, made, suspect))
    ensures Moves(old(h.Now()), h.Now(), action, made, suspect)
    ensures !h.faulty && Able(old(h.Now()), action) ==> ok
    ensures (made.Some? ==> ok) && (suspect.Some? ==> !ok)
    ensures forall id :: id in Opt(made) + Opt(suspect) ==> !Known(old(h.Now()), id)
    ensures made.Some? ==> Known(h.Now(), made.value)
  {
    hide Run, At, Guard, Effect, EventAllowed, SessionHost.Valid, Applying, Reverting, Changes,
      Lifecycles.Handled, Lifecycles.Feasible, Lifecycles.Recorded, Faults.Feasible;
    ok, made, suspect := false, None, None;
    ghost var before, a := h.log, h.Now();
    IsNow(h);
    match action {
      case LifecycleAction(n, what, boot) =>
        var res := Lifecycles.Lifecycle(h, n, what, boot);
        ok := res.Done?;
        LifecycleDid(h, before, a, n, what, boot, ok);
      case FaultAction(q) =>
        made, suspect := PerformFault(h, q);
        ok := made.Some?;
      case RevertAction(id) =>
        ok := RevertFault(h, id);
        AtStays(before, h.log, |before|);
      case ExecAction => ok := h.Succeeds();
      case WaitAction => ok := h.Succeeds();
      case MissingAction =>
    }
  }

  // ---------- the calls of others ----------

  method Serve(h: SessionHost, call: Call)
    requires h.Valid()
    modifies h
    ensures h.Valid() && old(h.log) <= h.log
    ensures DidCall(h.log, |old(h.log)|, |h.log|, call)
    ensures NoLink(call) ==> LinksStill(old(h.Now()), h.Now())
    ensures Idle(call) ==> Still(old(h.Now()), h.Now())
  {
    hide Run, Guard, Effect, EventAllowed, Did, Moves, LinksStill, Still;
    ghost var a, b := h.Now(), |h.log|;
    match call {
      case Act(action) =>
        var ok, made, suspect := Perform(h, action);
        ghost var t := Attempt(Span(b, |h.log|), ok, made, suspect);
        assert t.span == Span(b, |h.log|) && Did(h.log, action, t);
        if NoLink(call) { NetemLeavesLinks(a, h.Now(), action, made, suspect); }
      case Reconciliation(approved, draft, changes) =>
        ghost var before := h.log;
        var _ := Reconcile.ApplyTopology(h, approved, draft, changes);
        AtStays(before, h.log, b);
      case Destruction => var _ := Lifecycles.DestroySession(h);
    }
  }

  /** The calls of others between two steps of a timeline. */
  method Gap(h: SessionHost, calls: seq<Call>)
    requires h.Valid()
    modifies h
    ensures h.Valid() && old(h.log) <= h.log
    ensures Filled(h.log, |old(h.log)|, |h.log|, calls)
    ensures forall id :: Settled(old(h.Now()), id) ==> Settled(h.Now(), id)
    ensures forall id :: Known(old(h.Now()), id) ==> Known(h.Now(), id)
    ensures (forall c :: c in calls ==> NoLink(c)) ==> LinksStill(old(h.Now()), h.Now())
    ensures (forall c :: c in calls ==> Idle(c)) ==> Still(old(h.Now()), h.Now())
  {
    hide DidCall, LinksStill, Still, Filled, NoLink, Idle, Guard, Effect, Settled, Known;
    ghost var start, a := h.log, h.Now();
    StillRefl(a);
    NoCalls(h.log);
    for i := 0 to |calls|
      invariant h.Valid() && start <= h.log
      invariant Filled(h.log, |start|, |h.log|, calls[..i])
      invariant (forall c :: c in calls ==> NoLink(c)) ==> LinksStill(a, h.Now())
      invariant (forall c :: c in calls ==> Idle(c)) ==> Still(a, h.Now())
    {
      ghost var before, b := h.log, h.Now();
      Serve(h, calls[i]);
      OneMoreCall(before, h.log, |start|, |before|, |h.log|, calls[..i], calls[i]);
      assert calls[..i + 1] == calls[..i] + [calls[i]] && calls[i] in calls;
      StillTrans(a, b, h.Now());
    }
    assert calls[..|calls|] == calls;
    SettledAcross(start, h.log);
  }

  lemma NoCalls(log: seq<Event>)
    ensures Filled(log, |log|, |log|, [])
  {
  }

  lemma StillRefl(a: State)
    ensures Still(a, a) && LinksStill(a, a)
  {
  }

  lemma StillTrans(a: State, b: State, c: State)
    ensures Still(a, b) && Still(b, c) ==> Still(a, c)
    ensures LinksStill(a, b) && LinksStill(b, c) ==> LinksStill(a, c)
  {
  }

  // ---------- the rollback ----------

  function SetOf(ids: seq<string>): set<string> {
    set id | id in ids
  }

  predicate Distinct(ids: seq<string>) {
    forall i, j :: 0 <= i < j < |ids| ==> ids[i] != ids[j]
  }

  lemma FrontOf(ids: seq<string>, n: nat)
    requires n < |ids|
    ensures SetOf(ids[..n + 1]) == SetOf(ids[..n]) + {ids[n]}
    ensures Distinct(ids) ==> ids[n] !in SetOf(ids[..n])
  {
    assert ids[..n + 1] == ids[..n] + [ids[n]];
  }

  /** One revert of the rollback; its error, if any, is thrown away. */
  method UndoOne(h: SessionHost, id: string, ghost start: State, ghost rest: set<string>, ghost extra: set<string>)
    returns (ok: bool)
    requires h.Valid() && id !in rest
    modifies h
    ensures h.Valid() && old(h.log) <= h.log
    ensures Reverting(h.log, |old(h.log)|, |h.log|, id, ok)
    ensures forall i :: Settled(old(h.Now()), i) ==> Settled(h.Now(), i)
    ensures ok ==> Settled(h.Now(), id)
    ensures !ok ==> h.faulty || !Able(old(h.Now()), RevertAction(id))
    ensures IdsOf(h.Now()) == IdsOf(old(h.Now()))
    ensures ok && LinksTracked(start, old(h.Now()), rest + {id}, extra) ==> LinksTracked(start, h.Now(), rest, extra)
    ensures ok && RestTracked(start, old(h.Now()), rest + {id}, extra) ==> RestTracked(start, h.Now(), rest, extra)
  {
    hide Guard, Effect, EventAllowed, Reverting, LinksTracked, RestTracked;
    ghost var a, before := h.Now(), h.log;
    ok := RevertFault(h, id);
    SettledAcross(before, h.log);
    if ok {
      if IsActive(a, id) {
        RevertShrinks(start, a, h.Now(), id, rest, extra);
      } else {
        InactiveDrops(start, a, id, rest, extra);
      }
    }
  }

  /** Reverts what the timeline created, last first. */
  method Rollback(h: SessionHost, created: seq<string>, company: Company, ghost start: State, ghost extra: set<string>)
    returns (discarded: set<string>, ghost us: seq<Undo>)
    requires h.Valid() && Distinct(created)
    modifies h
    ensures h.Valid() && old(h.log) <= h.log
    ensures |us| == |created| && InReverse(h.log, |old(h.log)|, created, us, company) && discarded == Failures(us)
    ensures |h.log| == UndoneTo(|old(h.log)|, us) && AllExcused(h.faulty, h.log, us)
    ensures forall id :: id in created ==> id in discarded || Settled(h.Now(), id)
    ensures AllIdle(company) ==> IdsOf(h.Now()) == IdsOf(old(h.Now()))
    ensures SoleWriter(company) && discarded == {} && LinksTracked(start, old(h.Now()), SetOf(created), extra) ==>
      LinksTracked(start, h.Now(), {}, extra)
    ensures AllIdle(company) && discarded == {} && RestTracked(start, old(h.Now()), SetOf(created), extra) ==>
      RestTracked(start, h.Now(), {}, extra)
  {
    hide Run, At, SessionHost.Valid, Reverting, LinksTracked, RestTracked, InReverse, Failures, Settled, Filled, Still, LinksStill,
      Idle, NoLink, Able;
    discarded, us := {}, [];
    ghost var from := |h.log|;
    ghost var links := LinksTracked(start, h.Now(), SetOf(created), extra);
    ghost var others := RestTracked(start, h.Now(), SetOf(created), extra);
    var i := |created|;
    assert created[..i] == created;
    NoneBack(h.log, from, created, company);
    assert AllExcused(h.faulty, h.log, us);
    hide AllExcused;
    while 0 < i
      invariant 0 <= i <= |created|
      invariant h.Valid() && old(h.log) <= h.log
      invariant |us| == |created| - i && InReverse(h.log, from, created, us, company) && discarded == Failures(us)
      invariant |h.log| == UndoneTo(from, us) && AllExcused(h.faulty, h.log, us)
      invariant forall k :: i <= k < |created| ==> created[k] in discarded || Settled(h.Now(), created[k])
      invariant AllIdle(company) ==> IdsOf(h.Now()) == IdsOf(old(h.Now()))
      invariant SoleWriter(company) && discarded == {} && links ==> LinksTracked(start, h.Now(), SetOf(created[..i]), extra)
      invariant AllIdle(company) && discarded == {} && others ==> RestTracked(start, h.Now(), SetOf(created[..i]), extra)
    {
      ghost var before, a := h.log, h.Now();
      Gap(h, company.undoing(|created| - i));
      OtherStep(start, a, h.Now(), SetOf(created[..i]), extra);
      SameIds(a, h.Now());
      i := i - 1;
      FrontOf(created, i);
      ghost var paused := h.log;
      IsNow(h);
      var ok := UndoOne(h, created[i], start, SetOf(created[..i]), extra);
      ghost var u := Undo(Span(|paused|, |h.log|), created[i], ok);
      FilledStays(paused, h.log, |before|, |paused|, company.undoing(|us|));
      OneMoreBack(before, h.log, from, created, us, company, u);
      AtStays(paused, h.log, |paused|);
      OneMoreExcused(h.faulty, before, h.log, us, u);
      us := us + [u];
      if !ok { discarded := discarded + {created[i]}; }
    }
    assert SetOf(created[..0]) == {};
  }

  lemma SameIds(a: State, b: State)
    ensures Still(a, b) ==> IdsOf(b) == IdsOf(a)
  {
  }

  lemma NoneBack(log: seq<Event>, from: nat, created: seq<string>, company: Company)
    ensures InReverse(log, from, created, [], company) && Failures([]) == {}
  {
  }

  // ---------- the timeline ----------

  /** What holds between two actions of a timeline that began at `start`, `from` events into the log. */
  ghost predicate Under(h: SessionHost, start: State, from: nat, actions: seq<Action>, ts: seq<Attempt>,
                        created: seq<string>, company: Company)
    reads h
  {
    && InOrder(h.log, from, actions, ts, company) && AllOk(ts) && created == Made(ts) && EndOf(from, ts) == |h.log|
    && Distinct(created)
    && (forall id :: id in created ==> Known(h.Now(), id) && !Known(start, id))
    && (forall id :: Known(start, id) ==> Known(h.Now(), id))
    && Accounted(start, h.Now(), actions, SetOf(created), {}, company)
  }

  /** What is known of the state, depending on what others do. */
  ghost predicate Accounted(start: State, a: State, actions: seq<Action>, created: set<string>, extra: set<string>,
                            company: Company) {
    && (AllIdle(company) ==> IdsOf(start) <= IdsOf(a) <= IdsOf(start) + created + extra)
    && (SoleWriter(company) && Plain(actions) ==> LinksTracked(start, a, created, extra))
    && (AllIdle(company) && Plain(actions) ==> RestTracked(start, a, created, extra))
  }

  lemma GapAccounted(start: State, a: State, b: State, actions: seq<Action>, created: set<string>, company: Company,
                     i: nat)
    requires Accounted(start, a, actions, created, {}, company)
    requires (forall c :: c in company.before(i) ==> NoLink(c)) ==> LinksStill(a, b)
    requires (forall c :: c in company.before(i) ==> Idle(c)) ==> Still(a, b)
    ensures Accounted(start, b, actions, created, {}, company)
  {
    hide LinksTracked, RestTracked, LinksStill, Still, NoLink, Idle;
    OtherStep(start, a, b, created, {});
    SameIds(a, b);
  }

  lemma ActionAccounted(start: State, a: State, b: State, actions: seq<Action>, i: nat, created: set<string>,
                        made: Option<string>, suspect: Option<string>, company: Company)
    requires Accounted(start, a, actions, created, {}, company) && i < |actions|
    requires Moves(a, b, actions[i], made, suspect)
    ensures Accounted(start, b, actions, created + Opt(made), Opt(suspect), company)
  {
    hide LinksTracked, RestTracked, SoleWriter, AllIdle;
    assert IdsOf(a) <= IdsOf(b) <= IdsOf(a) + Opt(made) + Opt(suspect);
    if !actions[i].RevertAction? { OwnStep(start, a, b, actions[i], made, suspect, created); }
  }

  /** The next action, after the calls of others before it, unless the caller gives up meanwhile. */
  method Next(h: SessionHost, actions: seq<Action>, i: nat, company: Company, created: seq<string>,
              ghost start: State, ghost from: nat, ghost ts: seq<Attempt>)
    returns (givenUp: bool, ok: bool, made: Option<string>, suspect: Option<string>, ghost t: Attempt)
    requires h.Valid() && Under(h, start, from, actions, ts, created, company) && |ts| == i < |actions|
    modifies h
    ensures h.Valid() && old(h.log) <= h.log
    ensures givenUp ==>
      && InOrder(h.log, from, actions, ts, company) && Filled(h.log, EndOf(from, ts), |h.log|, company.before(i))
      && Accounted(start, h.Now(), actions, SetOf(created), {}, company)
    ensures !givenUp ==>
      && InOrder(h.log, from, actions, ts + [t], company) && t.ok == ok && t.made == made && t.suspect == suspect
      && (suspect.Some? ==> !ok && !Known(start, suspect.value)) && (made.Some? ==> ok)
      && t.span.end == |h.log|
      && Made(ts + [t]) == created + (if made.Some? then [made.value] else [])
      && Accounted(start, h.Now(), actions, SetOf(Made(ts + [t])), Opt(suspect), company)
    ensures givenUp == company.givesUp(i)
    ensures !givenUp && !ok ==> Excused(h, actions[i], t)
    ensures !givenUp && ok ==> Under(h, start, from, actions, ts + [t], Made(ts + [t]), company)
  {
    hide Run, At, SessionHost.Valid, Did, InOrder, Known, Made, Filled, Accounted, Still, LinksStill, Moves, NoLink, Idle, Able;
    ghost var before, was := h.log, h.Now();
    Gap(h, company.before(i));
    InOrderStays(before, h.log, from, actions, ts, company);
    GapAccounted(start, was, h.Now(), actions, SetOf(created), company, i);
    givenUp := company.givesUp(i);
    ok, made, suspect, t := false, None, None, Attempt(Span(0, 0), false, None, None);
    if givenUp { return; }
    ghost var paused, a := h.log, h.Now();
    IsNow(h);
    ok, made, suspect := Perform(h, actions[i]);
    AtStays(paused, h.log, |paused|);
    t := Attempt(Span(|paused|, |h.log|), ok, made, suspect);
    InOrderStays(paused, h.log, from, actions, ts, company);
    FilledStays(paused, h.log, |before|, |paused|, company.before(i));
    OneMoreInOrder(h.log, from, actions, ts, company, t);
    KnownAcross(h, paused, a);
    ActionAccounted(start, a, h.Now(), actions, i, SetOf(created), made, suspect, company);
    if made.Some? { CreatedGrows(created, made.value); }
    assert created + [] == created && SetOf(created) + {} == SetOf(created);
  }

  lemma IsNow(h: SessionHost)
    requires h.Valid()
    ensures At(h.log, |h.log|) == h.Now()
  {
  }

  lemma KnownAcross(h: SessionHost, before: seq<Event>, a: State)
    requires h.Valid() && before <= h.log && At(before, |before|) == a
    ensures forall id :: Known(a, id) ==> Known(h.Now(), id)
  {
    SettledAcross(before, h.log);
  }

  lemma CreatedGrows(created: seq<string>, id: string)
    ensures SetOf(created + [id]) == SetOf(created) + {id}
    ensures Distinct(created) && id !in created ==> Distinct(created + [id])
  {
  }

  /** The actions in declaration order, up to the first that fails or to the caller giving up. */
  method Advance(h: SessionHost, actions: seq<Action>, company: Company)
    returns (res: Result, created: seq<string>, suspect: Option<string>, ghost ts: seq<Attempt>)
    requires h.Valid()
    modifies h
    ensures h.Valid() && old(h.log) <= h.log
    ensures InOrder(h.log, |old(h.log)|, actions, ts, company)
    ensures match res
      case Completed => |ts| == |actions| && AllOk(ts) && EndOf(|old(h.log)|, ts) == |h.log|
      case Canceled(i) =>
        |ts| == i < |actions| && AllOk(ts) && company.givesUp(i) && Filled(h.log, EndOf(|old(h.log)|, ts), |h.log|, company.before(i))
      case Aborted(i) =>
        && |ts| == i + 1 <= |actions| && AllOk(ts[..i]) && !ts[i].ok && Excused(h, actions[i], ts[i])
        && EndOf(|old(h.log)|, ts) == |h.log|
    ensures Patient(company, |ts|)
    ensures created == Made(ts) && Distinct(created)
    ensures forall id :: id in created ==> !Known(old(h.Now()), id)
    ensures suspect == if res.Aborted? then ts[|ts| - 1].suspect else None
    ensures suspect.Some? ==> !Known(old(h.Now()), suspect.value)
    ensures Accounted(old(h.Now()), h.Now(), actions, SetOf(created), Opt(suspect), company)
  {
    hide Run, At, SessionHost.Valid, Known, InOrder, Accounted, Made, Did, Filled, Excused;
    created, suspect, ts, res := [], None, [], Completed;
    ghost var start, from := h.Now(), |h.log|;
    NothingDone(h, actions, company);
    for i := 0 to |actions|
      invariant h.Valid() && old(h.log) <= h.log && |ts| == i
      invariant Under(h, start, from, actions, ts, created, company) && Patient(company, i)
    {
      var givenUp, ok, made;
      ghost var t;
      givenUp, ok, made, suspect, t := Next(h, actions, i, company, created, start, from, ts);
      if givenUp { return Canceled(i), created, None, ts; }
      assert (ts + [t])[..i] == ts;
      ts := ts + [t];
      if made.Some? { created := created + [made.value]; }
      assert created + [] == created;
      if !ok { return Aborted(i), created, suspect, ts; }
    }
    suspect := None;
  }

  lemma NothingDone(h: SessionHost, actions: seq<Action>, company: Company)
    requires h.Valid()
    ensures Under(h, h.Now(), |h.log|, actions, [], [], company)
  {
    h.Sound();
    assert SetOf([]) == {} && {} + {} == SetOf([]);
  }

  /**
   RunTimeline. `company` says which calls others make in between; `suspect` is the fault named by a failed application
   and `discarded` the created faults whose revert failed. Every event of the log is accounted for: it is of an
   attempt `ts`, of a revert `us`, which begin at `turn`, or of one of the calls of others.
   */
  method RunTimeline(h: SessionHost, actions: seq<Action>, company: Company)
    returns (res: Result, created: seq<string>, suspect: Option<string>, discarded: set<string>,
             ghost ts: seq<Attempt>, ghost turn: nat, ghost us: seq<Undo>)
    requires h.Valid()
    modifies h
    ensures h.Valid() && old(h.log) <= h.log
    // Declaration order, and nothing after the action that failed.
    ensures InOrder(h.log, |old(h.log)|, actions, ts, company)
    ensures match res
      case Completed => |ts| == |actions| && AllOk(ts)
      case Canceled(i) => |ts| == i < |actions| && AllOk(ts) && company.givesUp(i)
      case Aborted(i) => |ts| == i + 1 <= |actions| && AllOk(ts[..i]) && !ts[i].ok && Excused(h, actions[i], ts[i])
    ensures Patient(company, |ts|)
    // What was created is exactly what the fault actions that succeeded stored, each under a new id.
    ensures created == Made(ts) && Distinct(created)
    ensures forall id :: id in created ==> !Known(old(h.Now()), id)
    ensures suspect == if res.Aborted? then ts[|ts| - 1].suspect else None
    ensures suspect.Some? ==> !Known(old(h.Now()), suspect.value)
    // Short of completion everything created is reverted, last first, after the last attempt.
    ensures Filled(h.log, EndOf(|old(h.log)|, ts), turn, if res.Canceled? then company.before(|ts|) else [])
    ensures res.Completed? ==> us == []
    ensures !res.Completed? ==> |us| == |created| && InReverse(h.log, turn, created, us, company)
    ensures |h.log| == UndoneTo(turn, us) && discarded == Failures(us) && AllExcused(h.faulty, h.log, us)
    // At most one fault that it introduced is then still active, except for those whose revert failed.
    ensures !res.Completed? ==> forall id :: id in created ==> id in discarded || Settled(h.Now(), id)
    ensures !res.Completed? ==> forall id ::
      (id in created || suspect == Some(id)) && IsActive(h.Now(), id) && id !in discarded ==> suspect == Some(id)
    ensures AllIdle(company) ==>
      IdsOf(old(h.Now())) <= IdsOf(h.Now()) <= IdsOf(old(h.Now())) + SetOf(created) + Opt(suspect)
    // As the only writer of links and without revert actions, it leaves every link as it was, except for the endpoint
    // whose own fault failed to apply; and next to idle callers, impairments and earlier faults as well.
    ensures SoleWriter(company) && !res.Completed? && discarded == {} && Plain(actions) ==>
      forall e :: (e in h.up) != (e in old(h.up)) ==> suspect.Some? && HoldsKind(h.Now(), suspect.value, LINK_STATE, e)
    ensures AllIdle(company) && !res.Completed? && discarded == {} && Plain(actions) ==>
      && Earlier(old(h.Now()), h.Now())
      && forall e :: e in h.impaired && e !in old(h.impaired) ==> suspect.Some? && HoldsKind(h.Now(), suspect.value, NETEM, e)
  {
    hide Run, At, SessionHost.Valid, Known, InOrder, InReverse, LinksTracked, RestTracked, Made, Did, Failures, Filled, SoleWriter,
      AllIdle, Plain, Able;
    ghost var start, from := h.Now(), |h.log|;
    us, discarded := [], {};
    NoneBack(h.log, from, [], company);
    res, created, suspect, ts := Advance(h, actions, company);
    turn := |h.log|;
    NoCalls(h.log);
    if res.Completed? { return; }
    ghost var before := h.log;
    discarded, us := Rollback(h, created, company, start, Opt(suspect));
    InOrderStays(before, h.log, from, actions, ts, company);
    if res.Aborted? && ts[res.at].span.begin <= |before| { AtStays(before, h.log, ts[res.at].span.begin); }
    FilledStays(before, h.log, EndOf(from, ts), turn, if res.Canceled? then company.before(|ts|) else []);
    OnlySuspectLeft(start, h.Now(), suspect);
    SettledIsInactive(h);
  }

  lemma SettledIsInactive(h: SessionHost)
    requires h.Valid()
    ensures forall id :: Settled(h.Now(), id) ==> !IsActive(h.Now(), id)
  {
    h.Sound();
  }

  lemma OnlySuspectLeft(start: State, a: State, suspect: Option<string>)
    ensures LinksTracked(start, a, {}, Opt(suspect)) ==>
      forall e :: (e in a.up) != (e in start.up) ==> suspect.Some? && HoldsKind(a, suspect.value, LINK_STATE, e)
    ensures RestTracked(start, a, {}, Opt(suspect)) ==>
      && Earlier(start, a)
      && forall e :: e in a.impaired && e !in start.impaired ==> suspect.Some? && HoldsKind(a, suspect.value, NETEM, e)
  {
    assert {} + Opt(suspect) == Opt(suspect);
  }
}
