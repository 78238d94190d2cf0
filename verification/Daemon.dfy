/**
 Who owns the sessions of a host: leases, keeps, clean-up and the daemon's own exit
 (internal/server/server.go and cmd/labd/main.go).

 Calls that change a session run one at a time. A CreateSession that has been accepted but has not stored its
 record yet is in flight. The daemon's exit check lists the store without waiting for such calls, and the server
 goes on accepting them until it is told to stop, which comes after the check.
 */
module Daemon {
  /** What of a session record decides how long it lives. */
  datatype Lease = Lease(kept: bool, expires: int)

  /** `Leaving`: the exit check found no record, and the server has not been told to stop yet. */
  datatype Phase = Serving | Leaving | Draining | Exited

  datatype State = State(
    store: map<string, Lease>,  // session records
    live: set<string>,          // sessions that may have a runtime
    inflight: set<string>,      // accepted CreateSession calls without a record yet
    detached: bool,             // the owner is gone
    phase: Phase,
    clock: int)                 // the time

  datatype Reason =
    | Explicit(preserveKept: bool)  // DestroySession
    | Expired                       // Scavenge
    | OwnerGone                     // CleanupUnkept

  datatype Step =
    | Pass(to: int)                  // time passes
    | Accept(id: string)
    | GiveUp(id: string)             // a CreateSession that fails before storing a record
    | Store(id: string, lease: Lease)
    | Deploy(id: string)
    | Destroy(id: string)
    | Delete(id: string, reason: Reason)
    | Keep(id: string, until: int)
    | Sweep(why: Reason, listed: bool, now: int)  // Scavenge or CleanupUnkept lists the store
    | Detach
    | Check                          // the exit check finds no record
    | Drain                          // the server stops accepting
    | Leave                          // every accepted call has returned
    | Quit                           // a second signal, or the server failed

  ghost predicate Guard(a: State, step: Step) {
    a.phase != Exited &&
    match step
    case Pass(to) => a.clock <= to
    case Accept(id) => (a.phase.Serving? || a.phase.Leaving?) && id !in a.store && id !in a.inflight
    case GiveUp(id) => id in a.inflight
    case Store(id, lease) => id in a.inflight && id !in a.store && !lease.kept
    case Deploy(id) => id in a.store
    case Destroy(id) => id in a.store
    case Delete(id, reason) => id in a.store && id !in a.live && MayDelete(a.store[id], reason, a.clock)
    case Keep(id, _) => id in a.store
    case Sweep(_, _, now) => now <= a.clock
    case Detach => true
    case Check => a.phase.Serving? && a.detached && a.store == map[]
    case Drain => a.phase.Leaving?
    case Leave => a.phase.Draining? && a.inflight == {}
    case Quit => true
  }

  predicate MayDelete(lease: Lease, reason: Reason, clock: int) {
    match reason
    case Explicit(preserveKept) => !(preserveKept && lease.kept)
    case Expired => lease.expires <= clock
    case OwnerGone => !lease.kept
  }

  ghost predicate Effect(a: State, step: Step, b: State) {
    match step
    case Pass(to) => b == a.(clock := to)
    case Accept(id) => b == a.(inflight := a.inflight + {id})
    case GiveUp(id) => b == a.(inflight := a.inflight - {id})
    case Store(id, lease) => b == a.(store := a.store[id := lease], inflight := a.inflight - {id})
    case Deploy(id) => b == a || b == a.(live := a.live + {id})
    case Destroy(id) => b == a || b == a.(live := a.live - {id})
    case Delete(id, _) => b == a || b == a.(store := a.store - {id})
    case Keep(id, until) => b == a || b == a.(store := a.store[id := Lease(true, until)])
    case Sweep(_, _, _) => b == a
    case Detach => b == a.(detached := true)
    case Check => b == a.(phase := Leaving)
    case Drain => b == a.(phase := Draining)
    case Leave => b == a.(phase := Exited)
    case Quit => b == a.(phase := Exited)
  }

  datatype Event = Event(step: Step, after: State)

  ghost function At(start: State, log: seq<Event>, k: nat): State
    requires k <= |log|
  {
    if k == 0 then start else log[k - 1].after
  }

  ghost predicate EventAllowed(start: State, log: seq<Event>, k: nat)
    requires k < |log|
  {
    Guard(At(start, log, k), log[k].step) && Effect(At(start, log, k), log[k].step, log[k].after)
  }

  /** A run of one daemon, from the state an earlier one left behind. */
  ghost predicate Run(start: State, log: seq<Event>) {
    forall k :: 0 <= k < |log| ==> EventAllowed(start, log, k)
  }

  /** A session that may have a runtime has a record. */
  ghost predicate Owned(a: State) { a.live <= a.store.Keys }

  /** In every run, at every point, no runtime is without a record that leads to it. */
  lemma {:induction false} RuntimeIsOwned(start: State, log: seq<Event>, k: nat)
    requires Run(start, log) && Owned(start) && k <= |log|
    ensures Owned(At(start, log, k))
  {
    if k > 0 {
      RuntimeIsOwned(start, log, k - 1);
      assert EventAllowed(start, log, k - 1);
    }
  }

  /** Event `k` takes away a kept record: on request without PreserveKept, or at the end of its lease. */
  ghost predicate EndsKept(start: State, log: seq<Event>, k: nat, id: string)
    requires k < |log|
  {
    && id in At(start, log, k).store && At(start, log, k).store[id].kept
    && log[k].step.Delete? && log[k].step.id == id
    && match log[k].step.reason
       case Explicit(preserveKept) => !preserveKept
       case Expired => At(start, log, k).store[id].expires <= At(start, log, k).clock
       case OwnerGone => false
  }

  /** The clock never goes back. */
  lemma {:induction false} TimePasses(start: State, log: seq<Event>, i: nat, j: nat)
    requires Run(start, log) && i <= j <= |log|
    ensures At(start, log, i).clock <= At(start, log, j).clock
  {
    if i < j {
      TimePasses(start, log, i, j - 1);
      assert EventAllowed(start, log, j - 1);
    }
  }

  /** A kept session stays kept until one of the two things happens that may end it. */
  lemma {:induction false} KeptUntilEnded(start: State, log: seq<Event>, i: nat, j: nat, id: string)
    requires Run(start, log) && i <= j <= |log|
    requires id in At(start, log, i).store && At(start, log, i).store[id].kept
    requires forall k :: i <= k < j ==> !EndsKept(start, log, k, id)
    ensures id in At(start, log, j).store && At(start, log, j).store[id].kept
  {
    if i < j {
      KeptUntilEnded(start, log, i, j - 1, id);
      assert EventAllowed(start, log, j - 1);
      assert !EndsKept(start, log, j - 1, id);
    }
  }

  // ---------- the exit ----------

  ghost predicate Unforced(log: seq<Event>) {
    forall k :: 0 <= k < |log| ==> !log[k].step.Quit?
  }

  /** A run that begins with `first` and ends with the exit, in which nothing forces the daemon out. */
  ghost predicate Exits(a: State, log: seq<Event>, first: Step) {
    && Run(a, log) && Unforced(log)
    && |log| > 0 && log[0].step == first
    && At(a, log, |log|).phase == Exited
  }

  ghost predicate Empty(a: State) { a.store == map[] && a.live == {} }

  /** From the moment the server stops accepting, what is neither stored nor in flight does not come. */
  lemma {:induction false} DrainStaysEmpty(a: State, log: seq<Event>, k: nat)
    requires Exits(a, log, Drain) && a.inflight == {} && Empty(a) && 1 <= k <= |log|
    ensures var b := At(a, log, k); Empty(b) && b.inflight == {} && (b.phase.Draining? || b.phase.Exited?)
  {
    assert EventAllowed(a, log, k - 1);
    if k > 1 { DrainStaysEmpty(a, log, k - 1); }
  }

  /** From a draining daemon: every call in flight gives up, and the daemon leaves. */
  lemma {:induction false} AllGiveUp(a: State) returns (log: seq<Event>)
    requires a.phase == Draining
    ensures Run(a, log) && Unforced(log)
    ensures At(a, log, |log|) == a.(phase := Exited, inflight := {})
    decreases |a.inflight|
  {
    if a.inflight == {} {
      log := [Event(Leave, a.(phase := Exited))];
      assert a.(phase := Exited) == a.(phase := Exited, inflight := {});
      assert EventAllowed(a, log, 0);
    } else {
      var id :| id in a.inflight;
      var b := a.(inflight := a.inflight - {id});
      var rest := AllGiveUp(b);
      log := Prefixed(a, GiveUp(id), b, rest);
    }
  }

  /** One step and then a run is a run. */
  lemma Prefixed(a: State, step: Step, b: State, rest: seq<Event>) returns (log: seq<Event>)
    requires Guard(a, step) && Effect(a, step, b) && Run(b, rest)
    ensures log == [Event(step, b)] + rest && Run(a, log)
    ensures At(a, log, |log|) == At(b, rest, |rest|)
    ensures Unforced(rest) && !step.Quit? ==> Unforced(log)
  {
    log := [Event(step, b)] + rest;
    forall k | 0 <= k < |log| ensures EventAllowed(a, log, k) {
      if k > 0 {
        assert EventAllowed(b, rest, k - 1);
        assert At(a, log, k) == At(b, rest, k - 1);
      }
    }
  }

  /** One creation in flight is enough: it stores its record and deploys after the server stopped accepting. */
  lemma InFlightOutlivesExit(a: State, id: string) returns (log: seq<Event>)
    requires a.phase == Leaving && id in a.inflight && id !in a.store
    ensures Exits(a, log, Drain)
    ensures var z := At(a, log, |log|); id in z.store && id in z.live
  {
    var b := a.(phase := Draining);
    var c := b.(store := b.store[id := Lease(false, 7200)], inflight := b.inflight - {id});
    var d := c.(live := c.live + {id});
    log := AllGiveUp(d);
    log := Prefixed(c, Deploy(id), d, log);
    log := Prefixed(b, Store(id, Lease(false, 7200)), c, log);
    log := Prefixed(a, Drain, b, log);
  }

  /** A record that is there when the server stops accepting can stay behind as well. */
  lemma StoredOutlivesExit(a: State) returns (log: seq<Event>)
    requires a.phase == Leaving
    ensures Exits(a, log, Drain) && At(a, log, |log|).store == a.store
  {
    var b := a.(phase := Draining);
    log := AllGiveUp(b);
    log := Prefixed(a, Drain, b, log);
  }

  /**
   However its remaining calls end, a daemon leaves nothing behind exactly when, at the moment its server stops
   accepting, no record is stored and no CreateSession is in flight.
   */
  lemma ExitLeavesNothingIff(a: State)
    requires a.phase == Leaving && Owned(a)
    ensures a.store == map[] && a.inflight == {} <==>
      forall log :: Exits(a, log, Drain) ==> Empty(At(a, log, |log|))
  {
    if a.store != map[] {
      var log := StoredOutlivesExit(a);
    } else if a.inflight == {} {
      forall log | Exits(a, log, Drain) ensures Empty(At(a, log, |log|)) { DrainStaysEmpty(a, log, |log|); }
    } else {
      var id :| id in a.inflight;
      var log := InFlightOutlivesExit(a, id);
    }
  }

  /**
   No state at the exit check is enough: even with nothing in flight, a creation accepted between the check and the
   stop leaves a session and its runtime behind.
   */
  lemma CheckNeverSuffices(a: State, id: string) returns (log: seq<Event>)
    requires Guard(a, Check)
    ensures Exits(a, log, Check)
    ensures var z := At(a, log, |log|); id in z.store && id in z.live
  {
    var b := a.(phase := Leaving);
    if id in a.inflight {
      log := InFlightOutlivesExit(b, id);
    } else {
      var c := b.(inflight := b.inflight + {id});
      log := InFlightOutlivesExit(c, id);
      log := Prefixed(b, Accept(id), c, log);
    }
    log := Prefixed(a, Check, b, log);
  }

  /** A daemon that was just started, without sessions. */
  function Fresh(): State { State(map[], {}, {}, false, Serving, 0) }

  /**
   Both ways to leave a session behind happen to a daemon that was just started: the creation is accepted before the
   exit check, or (`late`) after it, when nothing was in flight at the check. `c` is the check.
   */
  lemma AbandonedSessionExists(id: string, late: bool) returns (log: seq<Event>, c: nat)
    ensures Run(Fresh(), log) && Unforced(log) && c < |log| && log[c].step.Check?
    ensures At(Fresh(), log, c).inflight == if late then {} else {id}
    ensures var z := At(Fresh(), log, |log|); z.phase == Exited && id in z.store && id in z.live
  {
    var a := Fresh().(detached := true);
    if late {
      log := CheckNeverSuffices(a, id);
      c := 1;
    } else {
      var b := a.(inflight := {id});
      log := CheckNeverSuffices(b, id);
      c := 2;
      log := Prefixed(a, Accept(id), b, log);
    }
    log := Prefixed(Fresh(), Detach, a, log);
  }

  // ---------- sweeps ----------

  /** What a sweep is after: leases that were over at `now`, or whatever was not kept. */
  predicate Due(lease: Lease, why: Reason, now: int) {
    match why
    case Expired => lease.expires <= now
    case OwnerGone => !lease.kept
    case Explicit(_) => false
  }

  ghost predicate Destroyed(log: seq<Event>, from: nat, e: nat, id: string) {
    e <= |log| && exists j :: from < j < e && log[j].step == Destroy(id)
  }

  /** Event `s` is a sweep, and before event `e` every session that was stored then and due has a Destroy. */
  ghost predicate SweptAt(start: State, log: seq<Event>, s: nat, e: nat, why: Reason) {
    && s < e <= |log|
    && log[s].step.Sweep? && log[s].step.why == why
    && (log[s].step.listed ==>
          forall id :: id in At(start, log, s).store && Due(At(start, log, s).store[id], why, log[s].step.now) ==>
            Destroyed(log, s, e, id))
  }

  /** Between `b` and `e` the owner clean-up was made if the owner just went, and the lease clean-up in any case. */
  ghost predicate Housekept(start: State, log: seq<Event>, b: nat, e: nat, gone: bool) {
    && b < e <= |log|
    && (gone <==> log[b].step.Detach?) && (forall k :: b < k < e ==> !log[k].step.Detach?)
    && (gone ==> exists s :: b < s < e && SweptAt(start, log, s, e, OwnerGone))
    && (exists s :: b <= s < e && SweptAt(start, log, s, e, Expired))
  }

  /** From event `b` on there is nothing but what calls do. */
  ghost predicate OnlyCalls(log: seq<Event>, b: nat) {
    forall k :: b <= k < |log| ==> !log[k].step.Detach? && !log[k].step.Sweep?
  }

  /** The signal takes the daemon off its owner: the first interrupt, or the owner's exit while it is still watched. */
  predicate TakesOff(signal: Signal, detached: bool) {
    !detached && (signal.Interrupt? || signal.OwnerLeft?)
  }

  /** The signal ends the daemon at once. */
  predicate Ends(signal: Signal, detached: bool) {
    signal.ServerFailed? || (signal.Interrupt? && detached)
  }

  /** The same as Housekept, from some event after `m`. */
  ghost predicate HousekeptFrom(start: State, log: seq<Event>, m: nat, e: nat, gone: bool) {
    exists b :: m <= b && Housekept(start, log, b, e, gone)
  }

  /** The daemon is not detached, or there is a record. */
  ghost predicate StaysAt(start: State, log: seq<Event>, k: nat) {
    k <= |log| && (!At(start, log, k).detached || At(start, log, k).store != map[])
  }

  /** The loop's first sweep, and then turn after turn, which the signals and the state before it determine. */
  ghost predicate Turns(start: State, log: seq<Event>, from: nat, marks: seq<nat>, signals: seq<Signal>) {
    && 0 < |marks| <= |signals| + 1 && (forall i :: 0 <= i < |marks| ==> marks[i] <= |log|)
    && (exists s :: from <= s && SweptAt(start, log, s, marks[0], Expired))
    && forall i :: 0 <= i < |marks| - 1 ==> TurnDone(start, log, marks[i], marks[i + 1], signals[i])
  }

  ghost predicate TurnDone(start: State, log: seq<Event>, m: nat, e: nat, signal: Signal) {
    && m <= e <= |log|
    && var detached := At(start, log, m).detached;
       !Ends(signal, detached) && HousekeptFrom(start, log, m, e, TakesOff(signal, detached))
  }

  lemma NoTurnYet(start: State, log: seq<Event>, from: nat, s: nat, signals: seq<Signal>)
    requires from <= s && SweptAt(start, log, s, |log|, Expired)
    ensures Turns(start, log, from, [|log|], signals)
  {
    hide SweptAt;
    assert [|log|][0] == |log|;
  }

  lemma TurnsStay(start: State, before: seq<Event>, after: seq<Event>, from: nat, marks: seq<nat>, signals: seq<Signal>)
    requires before <= after && Turns(start, before, from, marks, signals)
    ensures Turns(start, after, from, marks, signals)
    ensures forall i :: 0 <= i < |marks| ==> StaysAt(start, before, marks[i]) == StaysAt(start, after, marks[i])
    ensures forall b, e :: Listed(before, b, e) ==> Listed(after, b, e)
  {
    hide SweptAt, Housekept;
    forall i | 0 <= i < |marks| ensures At(start, after, marks[i]) == At(start, before, marks[i]) { }
    var s :| from <= s && SweptAt(start, before, s, marks[0], Expired);
    SweptStays(start, before, after, s, marks[0], marks[0], Expired);
    forall i | 0 <= i < |marks| - 1 ensures TurnDone(start, after, marks[i], marks[i + 1], signals[i]) {
      assert TurnDone(start, before, marks[i], marks[i + 1], signals[i]);
      var gone := TakesOff(signals[i], At(start, before, marks[i]).detached);
      var b :| marks[i] <= b && Housekept(start, before, b, marks[i + 1], gone);
      HousekeptStays(start, before, after, b, marks[i + 1], gone);
      assert At(start, after, marks[i]) == At(start, before, marks[i]);
    }
  }

  lemma OneMoreTurn(start: State, before: seq<Event>, log: seq<Event>, from: nat, marks: seq<nat>, signals: seq<Signal>)
    requires before <= log && Turns(start, before, from, marks, signals) && |marks| <= |signals| && marks[|marks| - 1] == |before|
    requires TurnDone(start, log, |before|, |log|, signals[|marks| - 1])
    ensures Turns(start, log, from, marks + [|log|], signals)
    ensures forall i :: 0 <= i < |marks| ==> StaysAt(start, before, marks[i]) == StaysAt(start, log, marks[i])
    ensures forall b, e :: Listed(before, b, e) ==> Listed(log, b, e)
  {
    hide TurnDone, SweptAt, StaysAt, Listed;
    TurnsStay(start, before, log, from, marks, signals);
    var more := marks + [|log|];
    assert more[0] == marks[0];
    forall i | 0 <= i < |more| - 1 ensures TurnDone(start, log, more[i], more[i + 1], signals[i]) {
      if i < |marks| - 1 { assert TurnDone(start, log, marks[i], marks[i + 1], signals[i]); }
    }
  }

  /** Every sweep could list the store. */
  ghost predicate Listed(log: seq<Event>, b: nat, e: nat) {
    e <= |log| && forall k :: b <= k < e && log[k].step.Sweep? ==> log[k].step.listed
  }

  lemma DestroyedStays(before: seq<Event>, after: seq<Event>, from: nat, e: nat)
    requires before <= after
    ensures forall id :: Destroyed(before, from, |before|, id) ==> Destroyed(after, from, |after|, id)
    ensures e <= |before| ==> forall id :: Destroyed(before, from, e, id) ==> Destroyed(after, from, e, id)
  {
  }

  /** A sweep of `store` that began at event `s` and has yet to look at `rest`. */
  ghost predicate Sweeping(log: seq<Event>, s: nat, why: Reason, now: int, store: map<string, Lease>,
                           rest: set<string>) {
    && s < |log| && log[s].step == Sweep(why, true, now)
    && (forall k :: s < k < |log| ==> log[k].step.Destroy? || log[k].step.Delete?)
    && (forall id :: id in store && id !in rest && Due(store[id], why, now) ==> Destroyed(log, s, |log|, id))
  }

  lemma SweepBegins(log: seq<Event>, s: nat, why: Reason, now: int, store: map<string, Lease>)
    requires |log| == s + 1 && log[s].step == Sweep(why, true, now)
    ensures Sweeping(log, s, why, now, store, store.Keys)
  {
  }

  lemma OneMoreSwept(before: seq<Event>, log: seq<Event>, s: nat, why: Reason, now: int, store: map<string, Lease>,
                     rest: set<string>, id: string)
    requires Sweeping(before, s, why, now, store, rest + {id})
    requires before <= log && |before| < |log| && log[|before|].step == Destroy(id)
    requires forall k :: |before| < k < |log| ==> log[k].step.Delete?
    ensures Sweeping(log, s, why, now, store, rest)
  {
    DestroyedStays(before, log, s, |before|);
    assert Destroyed(log, s, |log|, id);
  }

  lemma OneMoreSpared(log: seq<Event>, s: nat, why: Reason, now: int, store: map<string, Lease>, rest: set<string>,
                      id: string)
    requires Sweeping(log, s, why, now, store, rest + {id}) && id in store && !Due(store[id], why, now)
    ensures Sweeping(log, s, why, now, store, rest)
  {
  }

  lemma SweepEnds(start: State, log: seq<Event>, s: nat, why: Reason, now: int, store: map<string, Lease>)
    requires Sweeping(log, s, why, now, store, {}) && At(start, log, s).store == store
    ensures SweptAt(start, log, s, |log|, why)
    ensures log[s].step == Sweep(why, true, now) && forall k :: s < k < |log| ==> log[k].step.Destroy? || log[k].step.Delete?
  {
  }

  lemma SweptStays(start: State, before: seq<Event>, after: seq<Event>, s: nat, e: nat, e': nat, why: Reason)
    requires before <= after && SweptAt(start, before, s, e, why) && e <= e' <= |after|
    ensures SweptAt(start, after, s, e', why)
  {
    assert At(start, after, s) == At(start, before, s);
    forall id | Destroyed(before, s, e, id) ensures Destroyed(after, s, e', id) {
      var j :| s < j < e && before[j].step == Destroy(id);
      assert after[j].step == Destroy(id);
    }
  }

  lemma HousekeptStays(start: State, before: seq<Event>, after: seq<Event>, b: nat, e: nat, gone: bool)
    requires before <= after && Housekept(start, before, b, e, gone)
    ensures Housekept(start, after, b, e, gone)
  {
    hide SweptAt;
    if gone {
      var s :| b < s < e && SweptAt(start, before, s, e, OwnerGone);
      SweptStays(start, before, after, s, e, e, OwnerGone);
    }
    var s :| b <= s < e && SweptAt(start, before, s, e, Expired);
    SweptStays(start, before, after, s, e, e, Expired);
  }

  // ---------- the daemon ----------

  /** What wakes the daemon's loop. */
  datatype Signal = Tick | Interrupt | OwnerLeft | ServerFailed

  datatype Exit =
    | ServeFailed
    | Signaled  // a second signal
    | Drained   // detached, and no record was found
    | Running   // the events under consideration are over

  class Labd {
    var store: map<string, Lease>
    var live: set<string>
    var inflight: set<string>
    var detached: bool
    var phase: Phase
    var clock: int
    const faulty: bool  // if not, every listing, command and write succeeds
    ghost const start: State
    ghost var log: seq<Event>

    ghost function Now(): State
      reads this
    {
      State(store, live, inflight, detached, phase, clock)
    }

    ghost predicate Valid()
      reads this
    {
      Owned(start) && Run(start, log) && At(start, log, |log|) == Now()
    }

    lemma Sound()
      requires Valid()
      ensures Owned(Now())
    {
      RuntimeIsOwned(start, log, |log|);
    }

    /** A daemon that takes over the records and runtimes of an earlier one. */
    constructor (store: map<string, Lease>, live: set<string>, clock: int, faulty: bool)
      requires live <= store.Keys
      ensures Valid() && phase == Serving && !detached && inflight == {}
      ensures this.store == store && this.live == live && this.clock == clock && this.faulty == faulty
    {
      this.faulty := faulty;
      this.store, this.live, this.clock, inflight, detached, phase := store, live, clock, {}, false, Serving;
      start, log := State(store, live, {}, false, Serving, clock), [];
    }

    ghost method Log(step: Step)
      requires Owned(start) && Run(start, log)
      requires Guard(At(start, log, |log|), step) && Effect(At(start, log, |log|), step, Now())
      modifies this`log
      ensures Valid() && log == old(log) + [Event(step, Now())]
    {
      log := log + [Event(step, Now())];
      forall k | 0 <= k < |log| ensures EventAllowed(start, log, k) {
        if k < |old(log)| { assert EventAllowed(start, old(log), k); }
      }
    }

    method Succeeds() returns (ok: bool)
      ensures !faulty ==> ok
    {
      ok := *;
      ok := ok || !faulty;
    }

    /** Destroys a session's runtime and, only if that succeeded, its record. */
    method Discard(id: string, reason: Reason) returns (ok: bool)
      requires Valid() && phase != Exited && id in store && MayDelete(store[id], reason, clock)
      modifies this`store, this`live, this`log
      ensures Valid() && old(log) <= log
      ensures store == if ok then old(store) - {id} else old(store)
      ensures live <= old(live) && (ok ==> id !in live)
      ensures |log| > |old(log)| && log[|old(log)|].step == Destroy(id)
      ensures forall k :: |old(log)| < k < |log| ==> log[k].step.Delete?
      ensures !faulty ==> ok
    {
      ok := Succeeds();
      if ok { live := live - {id}; }
      Log(Destroy(id));
      if !ok { return; }
      ok := Succeeds();
      if ok { store := store - {id}; }
      Log(Delete(id, reason));
    }

    method DestroySession(id: string, preserveKept: bool, tokenOk: bool) returns (ok: bool)
      requires Valid() && phase != Exited
      modifies this`store, this`live, this`log
      ensures Valid() && old(log) <= log && live <= old(live)
      ensures !ok ==> store == old(store)
      ensures ok ==> id in old(store) && tokenOk
      ensures ok ==> store == if preserveKept && old(store)[id].kept then old(store) else old(store) - {id}
      ensures ok && store != old(store) ==> id !in live
      ensures !faulty && id in old(store) && tokenOk ==> ok
      ensures forall k :: |old(log)| <= k < |log| ==> log[k].step.Destroy? || log[k].step.Delete?
    {
      if id !in store || !tokenOk { return false; }
      if preserveKept && store[id].kept { return true; }
      ok := Discard(id, Explicit(preserveKept));
    }

    method KeepSession(id: string, ttl: int) returns (ok: bool)
      requires Valid() && phase != Exited
      modifies this`store, this`log
      ensures Valid() && old(log) <= log
      ensures ok ==> id in old(store)
                     && store == old(store)[id := Lease(true, clock + if ttl <= 0 then 86400 else ttl)]
      ensures !ok ==> store == old(store)
      ensures !faulty && id in old(store) ==> ok
      ensures forall k :: |old(log)| <= k < |log| ==> log[k].step.Keep?
    {
      if id !in store { return false; }
      var until := clock + if ttl <= 0 then 86400 else ttl;
      ok := Succeeds();
      if ok { store := store[id := Lease(true, until)]; }
      Log(Keep(id, until));
    }

    /** Destroys every session whose lease was over at `now`, when the call was made; one failure does not spare the others. */
    method Scavenge(now: int) returns (errors: nat)
      requires Valid() && phase != Exited && now <= clock
      modifies this`store, this`live, this`log
      ensures Valid() && old(log) <= log && live <= old(live)
      ensures forall id :: id in store ==> id in old(store) && store[id] == old(store)[id]
      ensures forall id :: id in old(store) && now < old(store)[id].expires ==> id in store
      ensures errors == 0 ==> forall id :: id in store ==> now < store[id].expires
      ensures |log| > |old(log)| && log[|old(log)|].step.Sweep? && log[|old(log)|].step.now == now
      ensures SweptAt(start, log, |old(log)|, |log|, Expired)
      ensures forall k :: |old(log)| < k < |log| ==> log[k].step.Destroy? || log[k].step.Delete?
      ensures !faulty ==> errors == 0 && log[|old(log)|].step.listed
    {
      errors := 0;
      var listed := Succeeds();
      Log(Sweep(Expired, listed, now));
      if !listed { return 1; }
      ghost var s := |old(log)|;
      hide Sweeping, Run, Guard, Effect, EventAllowed;
      SweepBegins(log, s, Expired, now, store);
      var rest := store.Keys;
      while rest != {}
        invariant Valid() && phase != Exited && old(log) <= log && live <= old(live)
        invariant Sweeping(log, s, Expired, now, old(store), rest)
        invariant !faulty ==> errors == 0
        invariant rest <= store.Keys
        invariant forall id :: id in store ==> id in old(store) && store[id] == old(store)[id]
        invariant forall id :: id in old(store) && now < old(store)[id].expires ==> id in store
        invariant errors == 0 ==> forall id :: id in store && id !in rest ==> now < store[id].expires
        decreases rest
      {
        var id :| id in rest;
        assert rest == (rest - {id}) + {id};
        rest := rest - {id};
        if !(now < store[id].expires) {
          ghost var before := log;
          var done := Discard(id, Expired);
          OneMoreSwept(before, log, s, Expired, now, old(store), rest, id);
          if !done { errors := errors + 1; }
        } else {
          OneMoreSpared(log, s, Expired, now, old(store), rest, id);
        }
      }
      SweepEnds(start, log, s, Expired, now, old(store));
    }

    /** Destroys every session that was not kept. */
    method CleanupUnkept() returns (errors: nat)
      requires Valid() && phase != Exited
      modifies this`store, this`live, this`log
      ensures Valid() && old(log) <= log && live <= old(live)
      ensures forall id :: id in store ==> id in old(store) && store[id] == old(store)[id]
      ensures forall id :: id in old(store) && old(store)[id].kept ==> id in store
      ensures errors == 0 ==> forall id :: id in store ==> store[id].kept
      ensures |log| > |old(log)| && SweptAt(start, log, |old(log)|, |log|, OwnerGone)
      ensures forall k :: |old(log)| < k < |log| ==> log[k].step.Destroy? || log[k].step.Delete?
      ensures !faulty ==> errors == 0 && log[|old(log)|].step.listed
    {
      errors := 0;
      var listed := Succeeds();
      Log(Sweep(OwnerGone, listed, clock));
      if !listed { return 1; }
      ghost var s := |old(log)|;
      hide Sweeping, Run, Guard, Effect, EventAllowed;
      SweepBegins(log, s, OwnerGone, clock, store);
      var rest := store.Keys;
      while rest != {}
        invariant Valid() && phase != Exited && old(log) <= log && live <= old(live)
        invariant Sweeping(log, s, OwnerGone, clock, old(store), rest)
        invariant !faulty ==> errors == 0
        invariant rest <= store.Keys
        invariant forall id :: id in store ==> id in old(store) && store[id] == old(store)[id]
        invariant forall id :: id in old(store) && old(store)[id].kept ==> id in store
        invariant errors == 0 ==> forall id :: id in store && id !in rest ==> store[id].kept
        decreases rest
      {
        var id :| id in rest;
        assert rest == (rest - {id}) + {id};
        rest := rest - {id};
        if !store[id].kept {
          ghost var before := log;
          var done := Discard(id, OwnerGone);
          OneMoreSwept(before, log, s, OwnerGone, clock, old(store), rest, id);
          if !done { errors := errors + 1; }
        } else {
          OneMoreSpared(log, s, OwnerGone, clock, old(store), rest, id);
        }
      }
      SweepEnds(start, log, s, OwnerGone, clock, old(store));
    }

    /** One thing that a call in progress, or a new one, may do between two steps of the daemon's loop. */
    method ClientStep()
      requires Valid() && phase != Exited
      modifies this`store, this`live, this`inflight, this`clock, this`log
      ensures Valid() && old(log) <= log && old(clock) <= clock
      ensures OnlyCalls(log, |old(log)|)
      ensures phase.Draining? ==> inflight <= old(inflight)
    {
      var id: string := *;
      var which: int := *;
      var t: int := *;
      if which == -1 && clock <= t {
        clock := t;
        Log(Pass(t));
      } else if which == 0 && (phase.Serving? || phase.Leaving?) && id !in store && id !in inflight {
        inflight := inflight + {id};
        Log(Accept(id));
      } else if which == 1 && id in inflight {
        inflight := inflight - {id};
        Log(GiveUp(id));
      } else if which == 2 && id in inflight && id !in store {
        store, inflight := store[id := Lease(false, t)], inflight - {id};
        Log(Store(id, Lease(false, t)));
      } else if which == 3 && id in store {
        // Also a later reconciliation of the session.
        live := live + {id};
        Log(Deploy(id));
      } else if which == 4 {
        var preserveKept: bool := *;
        var tokenOk: bool := *;
        var _ := DestroySession(id, preserveKept, tokenOk);
      } else if which == 5 {
        var _ := KeepSession(id, 3600);
      }
    }

    method ClientSteps()
      requires Valid() && phase != Exited
      modifies this`store, this`live, this`inflight, this`clock, this`log
      ensures Valid() && old(log) <= log && old(clock) <= clock
      ensures OnlyCalls(log, |old(log)|)
    {
      var n: int := *;
      while 0 < n
        invariant Valid() && old(log) <= log && old(clock) <= clock
        invariant OnlyCalls(log, |old(log)|)
      {
        ClientStep();
        n := n - 1;
      }
    }

    /** GracefulStop: accepts nothing more and waits for the calls in progress. */
    method GracefulStop(patience: nat) returns (stopped: bool)
      requires Valid() && phase.Leaving?
      modifies this`store, this`live, this`inflight, this`phase, this`clock, this`log
      ensures Valid() && old(log) <= log
      ensures |log| > |old(log)| && log[|old(log)|].step.Drain?
      ensures stopped ==> phase.Exited?
      ensures !stopped ==> phase.Draining?
      ensures stopped && old(store) == map[] && old(inflight) == {} ==> store == map[] && live == {}
    {
      Sound();
      phase := Draining;
      Log(Drain);
      ghost var stopping := log;
      if inflight != {} {
        var left := patience;
        while inflight != {} && left > 0
          invariant Valid() && stopping <= log && phase.Draining?
        {
          ClientStep();
          left := left - 1;
        }
        if inflight != {} { return false; }
      }
      phase := Exited;
      Log(Leave);
      stopped := true;
    }

    /** The daemon is told to stop at once, or its server failed. */
    method Abandon()
      requires Valid() && phase.Serving?
      modifies this`phase, this`log
      ensures Valid() && phase.Exited? && log == old(log) + [Event(Quit, Now())]
    {
      phase := Exited;
      Log(Quit);
    }

    /** What follows every event: owner clean-up when the owner just went, then leases; other calls in between. */
    method Housekeep(ownerGone: bool)
      requires Valid() && phase.Serving?
      modifies this`store, this`live, this`inflight, this`detached, this`clock, this`log
      ensures Valid() && old(log) < log && old(clock) <= clock
      ensures detached == (old(detached) || ownerGone)
      ensures Housekept(start, log, |old(log)|, |log|, ownerGone)
      ensures !faulty ==> Listed(log, |old(log)|, |log|)
    {
      hide Run, Guard, Effect, EventAllowed, SweptAt;
      ghost var b, s := |log|, |log|;
      ghost var was := log;
      if ownerGone {
        detached := true;
        Log(Detach);
        ClientSteps();
        s := |log|;
        var _ := CleanupUnkept();
        was := log;
      }
      ghost var e := |log|;
      var now := clock;
      ClientSteps();
      ghost var l, swept := |log|, log;
      var _ := Scavenge(now);
      swept := log;
      ClientSteps();
      if ownerGone { SweptStays(start, was, log, s, e, |log|, OwnerGone); }
      SweptStays(start, swept, log, l, |swept|, |log|, Expired);
    }

    /** One turn of the loop, unless the signal ends the daemon. */
    method Turn(signal: Signal) returns (ended: bool)
      requires Valid() && phase.Serving?
      modifies this
      ensures Valid() && old(log) < log
      ensures ended == Ends(signal, old(detached))
      ensures ended ==> phase.Exited? && detached == old(detached) && log[|log| - 1].step.Quit?
      ensures !ended ==>
        && phase.Serving? && detached == (old(detached) || TakesOff(signal, old(detached)))
        && HousekeptFrom(start, log, |old(log)|, |log|, TakesOff(signal, old(detached)))
      ensures !faulty ==> Listed(log, |old(log)|, |log|)
    {
      hide Run, Guard, Effect, EventAllowed, Housekept;
      ClientSteps();
      ended := Ends(signal, detached);
      if ended {
        Abandon();
      } else {
        ghost var b := |log|;
        Housekeep(TakesOff(signal, detached));
        assert Housekept(start, log, b, |log|, TakesOff(signal, old(detached)));
      }
    }

    /**
     The daemon's loop over what wakes it. Between the check that found no record and the stop, calls are still
     accepted; `busy` says whether a record or a CreateSession was there when the server stopped accepting. `marks`
     divides the log into turns of the loop, each with its clean-ups.
     */
    method Loop(signals: seq<Signal>, patience: nat) returns (exit: Exit, busy: bool, ghost marks: seq<nat>)
      requires Valid() && phase.Serving?
      modifies this
      ensures Valid() && old(log) <= log
      // Leases are cleaned up once at the start, and then in every turn; unkept sessions when the owner goes.
      ensures 0 < |marks| <= |signals| + 1 && Turns(start, log, |old(log)|, marks, signals)
      ensures !faulty ==> Listed(log, |old(log)|, marks[|marks| - 1])
      // It goes on until it is told to end, or is detached and finds no record.
      ensures exit.Running? && phase.Serving? ==> |marks| == |signals| + 1
      ensures forall i :: 0 < i < |marks| - 1 ==> faulty || StaysAt(start, log, marks[i])
      ensures exit.Running? && phase.Serving? && |marks| > 1 ==> faulty || StaysAt(start, log, marks[|marks| - 1])
      ensures exit.ServeFailed? || exit.Signaled? ==>
        && phase.Exited? && log[|log| - 1].step.Quit?
        && |marks| <= |signals| && Ends(signals[|marks| - 1], detached)
        && (exit.ServeFailed? <==> signals[|marks| - 1].ServerFailed?)
      ensures exit.Drained? ==> detached && phase.Exited?
      ensures exit.Drained? && !busy ==> store == map[] && live == {}
      ensures exit.Drained? ==> exists k :: |old(log)| <= k < |log| && StopsAt(k, busy)
      ensures exit.Running? ==> phase.Serving? || phase.Draining?
    {
      hide Run, Guard, Effect, EventAllowed, SweptAt, HousekeptFrom, Turns, StaysAt;
      exit, busy := Running, false;
      var now := clock;
      ClientSteps();
      ghost var s := |log|;
      var _ := Scavenge(now);
      marks := [|log|];
      NoTurnYet(start, log, |old(log)|, s, signals);
      for i := 0 to |signals|
        invariant Valid() && old(log) <= log && phase.Serving?
        invariant |marks| == i + 1 && marks[i] == |log| && Turns(start, log, |old(log)|, marks, signals)
        invariant !faulty ==> Listed(log, |old(log)|, |log|)
        invariant forall k :: 0 < k <= i ==> faulty || StaysAt(start, log, marks[k])
      {
        ghost var before, so := log, marks;
        var ended := Turn(signals[i]);
        if ended {
          exit := if signals[i].ServerFailed? then ServeFailed else Signaled;
          TurnsStay(start, before, log, |old(log)|, marks, signals);
          return;
        }
        marks := marks + [|log|];
        OneMoreTurn(start, before, log, |old(log)|, so, signals);
        var listed := Succeeds();
        if detached && listed && store == map[] {
          before := log;
          exit, busy := StopServing(patience);
          TurnsStay(start, before, log, |old(log)|, marks, signals);
          return;
        }
        StaysNow();
      }
    }

    lemma StaysNow()
      requires Valid()
      ensures StaysAt(start, log, |log|) == (!detached || store != map[])
    {
    }

    /** At event `k` the server stops accepting, and `busy` says whether a record or a CreateSession is there. */
    ghost predicate StopsAt(k: nat, busy: bool)
      requires k < |log|
      reads this
    {
      log[k].step.Drain? && busy == (At(start, log, k).store != map[] || At(start, log, k).inflight != {})
    }

    /** No record was found: the daemon stops its server and leaves. */
    method StopServing(patience: nat) returns (exit: Exit, busy: bool)
      requires Valid() && phase.Serving? && detached && store == map[]
      modifies this`store, this`live, this`inflight, this`phase, this`clock, this`log
      ensures Valid() && old(log) <= log
      ensures exit == if phase.Exited? then Drained else Running
      ensures phase.Exited? || phase.Draining?
      ensures exit.Drained? && !busy ==> store == map[] && live == {}
      ensures exists k :: |old(log)| <= k < |log| && StopsAt(k, busy)
    {
      phase := Leaving;
      Log(Check);
      ClientSteps();
      busy := store != map[] || inflight != {};
      ghost var k := |log|;
      ghost var before := log;
      var stopped := GracefulStop(patience);
      assert At(start, log, k) == At(start, before, k);
      assert StopsAt(k, busy);
      exit := if stopped then Drained else Running;
    }
  }
}
