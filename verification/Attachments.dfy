/**
 Bridge memberships of switch ports across node outages (internal/engine/attachments.go and the
 lifecycle operations of internal/engine/containerlab.go).

 An outage of a node takes down the cables that end at it, and with them the bridge membership of
 the switch ports at their other end. Each node has a journal that is captured before its outage,
 kept while it is pending and removed only after everything in it is attached again.
 */
module Attachments {
  import opened Records

  datatype Port = Port(container: string, iface: string)
  datatype Entry = Entry(port: Port, master: string)

  /**
   The cabling of a lab: the bridge each switch port belongs to, the node whose cable ends at it,
   and the node that each running Linux container of the session is.
   */
  datatype Lab = Lab(bridge: map<Port, string>, cable: map<Port, string>, home: map<string, string>) {
    /** Every port is in a running container, and its cable leads to another node. */
    ghost predicate Wired() {
      && cable.Keys == bridge.Keys
      && forall p :: p in bridge ==> p.container in home && home[p.container] != cable[p]
    }
  }

  datatype State = State(
    member: map<Port, string>,           // ports that are attached, with their bridge
    plugged: set<Port>,                  // ports whose interface exists
    journal: map<string, seq<Entry>>)    // pending journals by node

  datatype Step =
    | Capture(node: string, saved: seq<Entry>)
    | Outage(down: string)
    | PlugIn(started: string)
    | Attach(entry: Entry)
    | Settle(restored: string)

  datatype Event = Event(step: Step, after: State)

  /** The memberships that node `n`'s peers hold: what a capture records. */
  ghost predicate Snapshot(lab: Lab, member: map<Port, string>, n: string, saved: seq<Entry>) {
    forall e :: e in saved <==>
      && e.port in member && member[e.port] == e.master
      && e.port.container in lab.home && lab.home[e.port.container] != n
  }

  ghost predicate AllAttached(member: map<Port, string>, saved: seq<Entry>) {
    forall e :: e in saved ==> e.port in member && member[e.port] == e.master
  }

  ghost predicate Guard(lab: Lab, a: State, step: Step) {
    match step
    case Capture(n, saved) => n !in a.journal && Snapshot(lab, a.member, n, saved)
    case Outage(n) => n in a.journal || Snapshot(lab, a.member, n, [])
    case PlugIn(_) => true
    case Attach(e) => exists n :: n in a.journal && e in a.journal[n]
    case Settle(n) => n in a.journal && AllAttached(a.member, a.journal[n])
  }

  ghost predicate Effect(lab: Lab, a: State, step: Step, b: State) {
    match step
    case Capture(n, saved) => b == a || b == a.(journal := a.journal[n := saved])
    case Outage(n) =>
      && b.journal == a.journal
      && b.member.Keys <= b.plugged
      && (forall p :: p in b.member ==> p in a.member && b.member[p] == a.member[p])
      && (forall p :: p in a.member && p !in b.member ==> p in lab.cable && lab.cable[p] == n)
      && (forall p :: (p in a.plugged) != (p in b.plugged) ==> p in lab.cable && lab.cable[p] == n)
    case PlugIn(n) =>
      && b == a.(plugged := b.plugged)
      && a.plugged <= b.plugged
      && (forall p :: p in b.plugged - a.plugged ==> p in lab.cable && lab.cable[p] == n)
    case Attach(e) => b == a || (e.port in a.plugged && b == a.(member := a.member[e.port := e.master]))
    case Settle(n) => b == a || b == a.(journal := a.journal - {n})
  }

  function Initial(lab: Lab): State {
    State(lab.bridge, lab.bridge.Keys, map[])
  }

  ghost function At(lab: Lab, log: seq<Event>, k: nat): State
    requires k <= |log|
  {
    if k == 0 then Initial(lab) else log[k - 1].after
  }

  ghost predicate EventAllowed(lab: Lab, log: seq<Event>, k: nat)
    requires k < |log|
  {
    Guard(lab, At(lab, log, k), log[k].step) && Effect(lab, At(lab, log, k), log[k].step, log[k].after)
  }

  /** A run: any interleaving of outages and recoveries, with stops of the daemon between any two effects. */
  ghost predicate Run(lab: Lab, log: seq<Event>) {
    forall k :: 0 <= k < |log| ==> EventAllowed(lab, log, k)
  }

  /** All of a node's ports are attached as originally. */
  ghost predicate Connected(lab: Lab, member: map<Port, string>, n: string) {
    forall p :: p in lab.cable && lab.cable[p] == n ==> p in member && p in lab.bridge && member[p] == lab.bridge[p]
  }

  /** The journal lists all of the node's ports with their original bridges. */
  ghost predicate Remembers(lab: Lab, saved: seq<Entry>, n: string) {
    forall p :: p in lab.cable && lab.cable[p] == n ==> p in lab.bridge && Entry(p, lab.bridge[p]) in saved
  }

  /** What is attached is attached as originally, and what is remembered is true and leads away from the node. */
  ghost predicate Sane(lab: Lab, a: State) {
    && a.member.Keys <= a.plugged * lab.bridge.Keys
    && (forall p :: p in a.member ==> a.member[p] == lab.bridge[p])
    && (forall n, e :: n in a.journal && e in a.journal[n] ==> e.port in lab.bridge && e.master == lab.bridge[e.port])
    && (forall n, e :: n in a.journal && e in a.journal[n] ==>
          e.port.container in lab.home && lab.home[e.port.container] != n)
  }

  ghost predicate Inv(lab: Lab, a: State) {
    && Sane(lab, a)
    && (forall n :: n in a.journal ==> Remembers(lab, a.journal[n], n))
    && (forall n :: n in a.journal || Connected(lab, a.member, n))
  }

  lemma CaptureRemembers(lab: Lab, a: State, n: string, saved: seq<Entry>)
    requires lab.Wired() && Inv(lab, a) && n !in a.journal && Snapshot(lab, a.member, n, saved)
    ensures Remembers(lab, saved, n)
  {
    assert Connected(lab, a.member, n);
    forall p | p in lab.cable && lab.cable[p] == n ensures Entry(p, lab.bridge[p]) in saved {
    }
  }

  lemma EventKeepsSane(lab: Lab, log: seq<Event>, k: nat)
    requires Run(lab, log) && k < |log| && Sane(lab, At(lab, log, k))
    ensures Sane(lab, At(lab, log, k + 1))
  {
    assert EventAllowed(lab, log, k);
  }

  lemma EventKeepsInv(lab: Lab, log: seq<Event>, k: nat)
    requires lab.Wired() && Run(lab, log) && k < |log| && Inv(lab, At(lab, log, k))
    ensures Inv(lab, At(lab, log, k + 1))
  {
    var a, b := At(lab, log, k), At(lab, log, k + 1);
    assert EventAllowed(lab, log, k);
    EventKeepsSane(lab, log, k);
    match log[k].step {
      case Capture(n, saved) => if n !in a.journal { CaptureRemembers(lab, a, n, saved); }
      case Outage(n) => if n !in a.journal { CaptureRemembers(lab, a, n, []); }
      case _ =>
    }
    forall n | n in b.journal ensures Remembers(lab, b.journal[n], n) {
      hide Remembers, Connected, Snapshot, AllAttached, Sane;
      assert n in a.journal ==> Remembers(lab, a.journal[n], n);
    }
    forall n | n !in b.journal ensures Connected(lab, b.member, n) {
      StaysConnected(lab, a, log[k].step, b, n);
    }
  }

  /** A node without a journal after a step is connected: it was before, or its journal was just settled. */
  lemma StaysConnected(lab: Lab, a: State, step: Step, b: State, n: string)
    requires Inv(lab, a) && Sane(lab, b) && Guard(lab, a, step) && Effect(lab, a, step, b) && n !in b.journal
    requires step.Outage? && step.down !in a.journal ==> Remembers(lab, [], step.down)
    ensures Connected(lab, b.member, n)
  {
    assert n in a.journal ==> Remembers(lab, a.journal[n], n);
    assert n in a.journal || Connected(lab, a.member, n);
  }

  /** In every run, each node is either connected as originally or remembered in full by its journal. */
  lemma {:induction false} RunKeepsInv(lab: Lab, log: seq<Event>, k: nat)
    requires lab.Wired() && Run(lab, log) && k <= |log|
    ensures Inv(lab, At(lab, log, k))
  {
    if k > 0 {
      RunKeepsInv(lab, log, k - 1);
      EventKeepsInv(lab, log, k - 1);
    }
  }

  /** When no journal is pending, every port is attached exactly as it was before the first outage. */
  lemma NoJournalMeansOriginal(lab: Lab, log: seq<Event>, k: nat)
    requires lab.Wired() && Run(lab, log) && k <= |log|
    requires At(lab, log, k).journal == map[]
    ensures At(lab, log, k).member == lab.bridge
  {
    RunKeepsInv(lab, log, k);
    var a := At(lab, log, k);
    forall p | p in lab.bridge ensures p in a.member && a.member[p] == lab.bridge[p] {
      assert Connected(lab, a.member, lab.cable[p]);
    }
  }

  /** A journal that is not captured again stays as it is until it is settled, and then stays away. */
  lemma {:induction false} SettledStays(lab: Lab, log: seq<Event>, i: nat, j: nat, n: string)
    requires Run(lab, log) && i <= j <= |log|
    requires n !in At(lab, log, i).journal
    requires forall k :: i <= k < j ==> !log[k].step.Capture?
    ensures n !in At(lab, log, j).journal
  {
    if i < j {
      SettledStays(lab, log, i, j - 1, n);
      assert EventAllowed(lab, log, j - 1);
    }
  }

  /**
   However restores are ordered, interleaved and retried: once every journal pending at `i` has been
   settled at some point, without a new capture, the original memberships are back.
   */
  lemma SettlingAllRestores(lab: Lab, log: seq<Event>, i: nat, j: nat)
    requires lab.Wired() && Run(lab, log) && i <= j <= |log|
    requires forall k :: i <= k < j ==> !log[k].step.Capture?
    requires forall n :: n in At(lab, log, i).journal ==> exists k :: i <= k <= j && n !in At(lab, log, k).journal
    ensures At(lab, log, j).member == lab.bridge && At(lab, log, j).journal == map[]
  {
    forall n ensures n !in At(lab, log, j).journal {
      if n in At(lab, log, i).journal {
        var k: nat :| i <= k <= j && n !in At(lab, log, k).journal;
        SettledStays(lab, log, k, j, n);
      } else {
        SettledStays(lab, log, i, j, n);
      }
    }
    assert At(lab, log, j).journal == map[];
    NoJournalMeansOriginal(lab, log, j);
  }

  // ---------- the engine ----------

  /** The step is on node `n`, and takes it `down` or brings it `up`. */
  predicate Touches(step: Step, n: string, down: bool, up: bool) {
    match step
    case Capture(m, _) => m == n && down
    case Outage(m) => m == n && down
    case PlugIn(m) => m == n && up
    case Attach(_) => up
    case Settle(m) => m == n && up
  }

  ghost predicate OnlyTouches(log: seq<Event>, from: nat, n: string, down: bool, up: bool) {
    forall k :: from <= k < |log| ==> Touches(log[k].step, n, down, up)
  }

  /** Since `from` node `n` was taken down, or brought up. */
  ghost predicate WentDown(log: seq<Event>, from: nat, n: string) {
    exists k :: from <= k < |log| && log[k].step == Outage(n)
  }

  ghost predicate CameUp(log: seq<Event>, from: nat, n: string) {
    exists k :: from <= k < |log| && log[k].step == PlugIn(n)
  }

  datatype Action = Crash | Stop | Start | Restart

  /** The engine of one session. Commands fail at will while `faulty`, and otherwise only for cause. */
  class Engine {
    const lab: Lab
    var faulty: bool
    var member: map<Port, string>
    var plugged: set<Port>
    var journal: map<string, seq<Entry>>
    var containers: set<string>  // nodes that have a container, running or stopped
    ghost var log: seq<Event>

    ghost function Now(): State
      reads this
    {
      State(member, plugged, journal)
    }

    ghost predicate Valid()
      reads this
    {
      lab.Wired() && Run(lab, log) && At(lab, log, |log|) == Now()
    }

    lemma Sound()
      requires Valid()
      ensures Inv(lab, Now())
    {
      RunKeepsInv(lab, log, |log|);
    }

    constructor (lab: Lab, containers: set<string>)
      requires lab.Wired()
      ensures Valid() && this.lab == lab && log == [] && Now() == Initial(lab)
    {
      this.lab, this.containers, faulty := lab, containers, true;
      member, plugged, journal, log := lab.bridge, lab.bridge.Keys, map[], [];
    }

    ghost method Log(step: Step)
      requires lab.Wired() && Run(lab, log)
      requires Guard(lab, At(lab, log, |log|), step) && Effect(lab, At(lab, log, |log|), step, Now())
      modifies this`log
      ensures Valid() && log == old(log) + [Event(step, Now())]
    {
      log := log + [Event(step, Now())];
      forall k | 0 <= k < |log| ensures EventAllowed(lab, log, k) {
        if k < |old(log)| { assert EventAllowed(lab, old(log), k); }
      }
    }

    /** Whether a command that could work does. */
    method Command() returns (ok: bool)
      ensures !faulty ==> ok
    {
      var luck: bool := *;
      ok := !faulty || luck;
    }

    // ----- the runtime -----

    /** The running Linux containers of the session, other than node `n`'s. */
    method LinuxPeers(n: string) returns (peers: Option<set<string>>)
      ensures peers.Some? ==> forall c :: c in peers.value <==> c in lab.home && lab.home[c] != n
      ensures !faulty ==> peers.Some?
    {
      var listed := Command();
      if !listed { return None; }
      var rest, found := lab.home.Keys, {};
      while rest != {}
        invariant rest <= lab.home.Keys
        invariant forall c :: c in found <==> c in lab.home.Keys - rest && lab.home[c] != n
        decreases rest
      {
        var c :| c in rest;
        rest := rest - {c};
        if lab.home[c] != n { found := found + {c}; }
      }
      peers := Some(found);
    }

    /** The ports of a container that are attached to a bridge, as it reports them. */
    method ListMembers(c: string) returns (lines: Option<seq<Entry>>)
      ensures lines.Some? ==>
        forall e: Entry :: e in lines.value <==> e.port in member && member[e.port] == e.master && e.port.container == c
      ensures !faulty ==> lines.Some?
    {
      var listed := Command();
      if !listed { return None; }
      var rest, found := member.Keys, [];
      while rest != {}
        invariant rest <= member.Keys
        invariant forall e: Entry :: e in found <==>
          e.port in member.Keys - rest && member[e.port] == e.master && e.port.container == c
        decreases rest
      {
        var p :| p in rest;
        rest := rest - {p};
        if p.container == c { found := found + [Entry(p, member[p])]; }
      }
      lines := Some(found);
    }

    /** Attaches a port; impossible while its interface does not exist. */
    method SetMaster(e: Entry) returns (ok: bool)
      requires Valid() && exists n :: n in journal && e in journal[n]
      modifies this`member, this`log
      ensures Valid() && log == old(log) + [Event(Attach(e), Now())]
      ensures Now() == old(Now()).(member := member)
      ensures member == old(member) || member == old(member)[e.port := e.master]
      ensures ok ==> e.port in member && member[e.port] == e.master
      ensures !faulty && e.port in plugged ==> ok
    {
      var works := Command();
      ok := works && e.port in plugged;
      if ok { member := member[e.port := e.master]; }
      Log(Attach(e));
    }

    /** Any part of the node's cables, and the memberships at their far ends, may be lost. */
    method TakeDown(n: string)
      requires Valid() && (n in journal || Snapshot(lab, member, n, []))
      modifies this`member, this`plugged, this`log
      ensures Valid() && log == old(log) + [Event(Outage(n), Now())] && journal == old(journal)
    {
      Sound();
      var lost: set<Port> := *;
      var gone := set p | p in lost && p in lab.cable && lab.cable[p] == n;
      var unplugged: set<Port> := *;
      member := member - gone;
      plugged := plugged - (gone * unplugged);
      Log(Outage(n));
    }

    /** A native start puts cables of the node back, unattached. */
    method BringUp(n: string)
      requires Valid()
      modifies this`plugged, this`log
      ensures Valid() && log == old(log) + [Event(PlugIn(n), Now())] && Now() == old(Now()).(plugged := plugged)
      ensures old(plugged) <= plugged
    {
      var back: set<Port> := *;
      plugged := plugged + set p | p in back && p in lab.cable && lab.cable[p] == n;
      Log(PlugIn(n));
    }

    // ----- the journal -----

    /** The memberships of all peers, container by container; a failed inspection fails the whole. */
    method InspectPeers(n: string) returns (saved: Option<seq<Entry>>)
      ensures saved.Some? ==> Snapshot(lab, member, n, saved.value)
      ensures !faulty ==> saved.Some?
    {
      var peers := LinuxPeers(n);
      if peers.None? { return None; }
      var rest, found := peers.value, [];
      while rest != {}
        invariant rest <= peers.value
        invariant forall e: Entry :: e in found <==>
          e.port in member && member[e.port] == e.master && e.port.container in peers.value - rest
        decreases rest
      {
        var c :| c in rest;
        rest := rest - {c};
        var lines := ListMembers(c);
        if lines.None? { return None; }
        found := found + lines.value;
      }
      saved := Some(found);
    }

    method SaveAttachments(n: string) returns (ok: bool)
      requires Valid()
      modifies this`journal, this`log
      ensures Valid() && old(log) <= log && member == old(member) && plugged == old(plugged)
      ensures ok ==> n in journal || Snapshot(lab, member, n, [])
      ensures !faulty ==> ok
      ensures OnlyTouches(log, |old(log)|, n, true, false)
      // A pending journal is never replaced, and no other node's is touched.
      ensures forall m :: m in old(journal) ==> m in journal && journal[m] == old(journal)[m]
      ensures forall m :: m in journal && m !in old(journal) ==> m == n && Snapshot(lab, member, n, journal[n])
    {
      if n in journal { return true; }
      var saved := InspectPeers(n);
      if saved.None? { return false; }
      if saved.value == [] { return true; }
      ok := Command();
      if ok { journal := journal[n := saved.value]; }
      Log(Capture(n, saved.value));
    }

    /** Attaches everything in the node's journal, up to the first entry that fails. */
    method Reattach(n: string, peers: set<string>) returns (ok: bool)
      requires Valid() && n in journal
      requires forall c :: c in lab.home && lab.home[c] != n ==> c in peers
      modifies this`member, this`log
      ensures Valid() && old(log) <= log && Now() == old(Now()).(member := member)
      ensures ok ==> AllAttached(member, journal[n])
      ensures forall p :: p in old(member) ==> p in member
      ensures OnlyTouches(log, |old(log)|, n, false, true)
      ensures !faulty && lab.bridge.Keys <= plugged ==> ok
    {
      var saved := journal[n];
      for i := 0 to |saved|
        invariant Valid() && old(log) <= log && Now() == old(Now()).(member := member)
        invariant OnlyTouches(log, |old(log)|, n, false, true)
        invariant AllAttached(member, saved[..i])
        invariant forall p :: p in old(member) ==> p in member
      {
        assert saved[i] in journal[n];
        Sound();
        if saved[i].port.container !in peers { return false; }
        ghost var before := member;
        var attached := SetMaster(saved[i]);
        if !attached { return false; }
        StillAttached(before, saved, i);
      }
      assert saved[..|saved|] == saved;
      ok := true;
    }

    /** Attaching one more recorded port keeps the ones before it, for no port is recorded with two bridges. */
    lemma StillAttached(before: map<Port, string>, saved: seq<Entry>, i: nat)
      requires Valid() && i < |saved| && (exists n :: n in journal && saved == journal[n])
      requires AllAttached(before, saved[..i])
      requires member == before || member == before[saved[i].port := saved[i].master]
      requires saved[i].port in member && member[saved[i].port] == saved[i].master
      ensures AllAttached(member, saved[..i + 1])
    {
      Sound();
      forall e | e in saved[..i + 1] ensures e.port in member && member[e.port] == e.master {
        assert e in saved;
        assert e in saved[..i] || e == saved[i];
        assert saved[i] in saved;
      }
    }

    method RestoreAttachments(n: string) returns (ok: bool)
      requires Valid()
      modifies this`member, this`journal, this`log
      ensures Valid() && old(log) <= log && plugged == old(plugged)
      ensures journal == if ok then old(journal) - {n} else old(journal)
      ensures ok ==> Connected(lab, member, n)
      ensures forall p :: p in old(member) ==> p in member
      ensures OnlyTouches(log, |old(log)|, n, false, true)
      ensures !faulty && lab.bridge.Keys <= plugged ==> ok
    {
      Sound();
      if n !in journal {
        assert journal - {n} == journal;
        return true;
      }
      var peers := LinuxPeers(n);
      if peers.None? { return false; }
      var attached := Reattach(n, peers.value);
      if !attached { return false; }
      ok := Command();
      if ok { journal := journal - {n}; }
      Log(Settle(n));
      Sound();
    }

    /** The restores that follow a deployment; the first failure ends them. */
    method RestoreEach(names: seq<string>) returns (ok: bool)
      requires Valid()
      modifies this`member, this`journal, this`log
      ensures Valid() && old(log) <= log && plugged == old(plugged)
      ensures journal.Keys <= old(journal.Keys)
      ensures ok ==> forall n :: n in names ==> n !in journal
      // With every cable present, any order that covers the pending journals brings all memberships back.
      ensures !faulty && lab.bridge.Keys <= plugged ==> ok
      ensures ok && (forall n :: n in old(journal) ==> n in names) ==> journal == map[] && member == lab.bridge
    {
      for i := 0 to |names|
        invariant Valid() && old(log) <= log && plugged == old(plugged)
        invariant journal.Keys <= old(journal.Keys)
        invariant forall k :: 0 <= k < i ==> names[k] !in journal
      {
        var restored := RestoreAttachments(names[i]);
        if !restored { return false; }
      }
      ok := true;
      if forall n :: n in old(journal) ==> n in names {
        assert journal == map[];
        NoJournalMeansOriginal(lab, log, |log|);
      }
    }

    // ----- lifecycle -----

    /** Crash, stop, start or restart of a node. */
    method Lifecycle(n: string, action: Action) returns (ok: bool)
      requires Valid()
      modifies this`member, this`plugged, this`journal, this`log
      ensures Valid() && old(log) <= log
      ensures (action.Start? || action.Restart?) && ok ==> n !in journal && Connected(lab, member, n)
      // Exactly the steps that the action asks for, on this node.
      ensures OnlyTouches(log, |old(log)|, n, !action.Start?, action.Start? || action.Restart?)
      ensures ok && !action.Start? ==> WentDown(log, |old(log)|, n)
      ensures ok && (action.Start? || action.Restart?) ==> CameUp(log, |old(log)|, n)
      ensures !faulty && (action.Crash? || action.Stop? || lab.bridge.Keys <= plugged) ==> ok
      ensures action.Start? ==> old(plugged) <= plugged && forall p :: p in old(member) ==> p in member
      ensures !action.Start? ==> forall m :: m != n && m in old(journal) ==> m in journal && journal[m] == old(journal)[m]
    {
      hide Run, At, Guard, Effect, EventAllowed, Connected, Snapshot;
      ghost var down, up := |log|, |log|;
      if !action.Start? {
        var saved := SaveAttachments(n);
        if !saved { return false; }
        down := |log|;
        TakeDown(n);
      }
      if action.Start? || action.Restart? {
        up := |log|;
        BringUp(n);
      }
      var native := Command();
      if native && (action.Start? || action.Restart?) {
        ok := RestoreAttachments(n);
      } else {
        ok := native;
      }
      assert !action.Start? ==> log[down].step == Outage(n);
      assert action.Start? || action.Restart? ==> log[up].step == PlugIn(n);
    }

    /**
     Removes one node from the runtime. Success is not taken from the command's exit status: it means that
     no container of the node, running or stopped, is left to hold its disks.
     */
    method RemoveNode(n: string) returns (ok: bool)
      requires Valid()
      modifies this`member, this`plugged, this`journal, this`log, this`containers
      ensures Valid() && old(log) <= log
      ensures ok ==> n !in containers && WentDown(log, |old(log)|, n)
      // Whatever it did to the node, what its peers held is safe.
      ensures ok ==> n in journal || Snapshot(lab, old(member), n, [])
      ensures OnlyTouches(log, |old(log)|, n, true, false)
      ensures !faulty && n !in containers ==> ok
      ensures old(containers) - {n} <= containers <= old(containers)
      ensures forall m :: m in old(journal) ==> m in journal && journal[m] == old(journal)[m]
    {
      hide Run, At, Guard, Effect, EventAllowed, Connected, Snapshot;
      var saved := SaveAttachments(n);
      if !saved { return false; }
      ghost var down := |log|;
      TakeDown(n);
      assert log[down].step == Outage(n);
      var gone: bool := *;
      if gone { containers := containers - {n}; }
      var native := Command();
      if !native { return false; }
      var listed := Command();
      ok := listed && n !in containers;
    }

    /** Ends the lab. A destroy that reports success but leaves containers behind is finished by force. */
    method Destroy() returns (ok: bool)
      modifies this`containers
      ensures containers <= old(containers)
      ensures ok ==> containers == {}
      ensures !faulty ==> ok
    {
      var left: set<string> := *;
      containers := containers * left;
      var native := Command();
      var listed := Command();
      if listed && containers != {} {
        var removed := Command();
        if !removed { return false; }
        containers := {};
      } else if !listed {
        return false;
      }
      ok := native;
    }
  }
}
