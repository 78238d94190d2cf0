/**
 Commands run through the guest agent (pkg/guestagent/guestagent.go).

 The agent keeps a record of every process it started until a status reply reports its exit. It finds
 records by process ID, oldest first, and the guest reuses process IDs, so a record left behind makes a
 later command receive an earlier command's result.
 */
module GuestExec {
  import opened Records

  /** The agent's record of process number `proc`; numbers are never reused, process IDs are. */
  datatype Rec = Rec(pid: int, proc: nat, exited: bool)

  /** The record that a status request for `pid` is about: the oldest one, or |rs| when there is none. */
  function Find(rs: seq<Rec>, pid: int): (i: nat)
    ensures i <= |rs|
    ensures i < |rs| ==> rs[i].pid == pid
    ensures forall k :: 0 <= k < i ==> rs[k].pid != pid
  {
    if rs == [] then 0
    else if rs[0].pid == pid then 0
    else
      assert forall k :: 1 <= k < |rs| ==> rs[k] == rs[1..][k - 1];
      1 + Find(rs[1..], pid)
  }

  /** How often `p` occurs in `s`. */
  ghost function Occ(s: seq<int>, p: int): nat {
    if s == [] then 0 else Occ(s[..|s| - 1], p) + (if s[|s| - 1] == p then 1 else 0)
  }

  lemma OccAppend(s: seq<int>, x: int)
    ensures forall p :: Occ(s + [x], p) == Occ(s, p) + (if x == p then 1 else 0)
  {
    assert (s + [x])[..|s|] == s;
  }

  lemma OccTake(s: seq<int>, i: nat)
    requires i < |s|
    ensures forall p :: Occ(s[..i + 1], p) == Occ(s[..i], p) + (if s[i] == p then 1 else 0)
  {
    assert s[..i + 1] == s[..i] + [s[i]];
    OccAppend(s[..i], s[i]);
  }

  /** How many records have process ID `p`. */
  ghost function Count(rs: seq<Rec>, p: int): nat {
    if rs == [] then 0 else Count(rs[..|rs| - 1], p) + (if rs[|rs| - 1].pid == p then 1 else 0)
  }

  function Without(rs: seq<Rec>, i: nat): seq<Rec>
    requires i < |rs|
  {
    rs[..i] + rs[i + 1..]
  }

  lemma AppendAddsOne(rs: seq<Rec>, r: Rec)
    ensures forall p :: Count(rs + [r], p) == Count(rs, p) + (if r.pid == p then 1 else 0)
  {
    assert (rs + [r])[..|rs|] == rs;
  }

  /** Consuming a record takes exactly its process ID away. */
  lemma {:induction false} WithoutTakesOne(rs: seq<Rec>, i: nat)
    requires i < |rs|
    ensures OneLess(rs, Without(rs, i), rs[i].pid)
  {
    var m := |rs| - 1;
    AppendAddsOne(rs[..m], rs[m]);
    assert rs == rs[..m] + [rs[m]];
    if i < m {
      WithoutTakesOne(rs[..m], i);
      AppendAddsOne(Without(rs[..m], i), rs[m]);
      assert Without(rs, i) == Without(rs[..m], i) + [rs[m]];
    } else {
      assert Without(rs, i) == rs[..m];
    }
  }

  lemma NoneLeft(rs: seq<Rec>)
    requires forall p :: Count(rs, p) == 0
    ensures rs == []
  {
    assert rs != [] ==> Count(rs, rs[|rs| - 1].pid) > 0;
  }

  /** No record is found exactly when none is counted. */
  lemma {:induction false} FoundIffCounted(rs: seq<Rec>, pid: int)
    ensures Count(rs, pid) == 0 <==> Find(rs, pid) == |rs|
  {
    if rs != [] {
      var m := |rs| - 1;
      FoundIffCounted(rs[..m], pid);
      var i, j := Find(rs, pid), Find(rs[..m], pid);
      assert forall k :: 0 <= k < m ==> rs[..m][k] == rs[k];
      assert j < m ==> rs[j].pid == pid;
      assert i < m ==> rs[..m][i].pid == pid;
    }
  }

  /** A command's own record is the one found for its process ID exactly when no older record has that ID. */
  lemma OwnRecordIff(older: seq<Rec>, own: Rec)
    requires forall r :: r in older ==> r.proc != own.proc
    ensures var rs := older + [own];
      Find(rs, own.pid) < |rs| && (rs[Find(rs, own.pid)].proc == own.proc <==> Count(older, own.pid) == 0)
  {
    var rs := older + [own];
    var i, j := Find(rs, own.pid), Find(older, own.pid);
    FoundIffCounted(older, own.pid);
    assert rs[|older|] == own;
    assert forall k :: 0 <= k < |older| ==> rs[k] == older[k];
    assert j < |older| ==> rs[j].pid == own.pid;
    assert i < |older| ==> older[i].pid == own.pid && older[i] in older;
  }

  /** What time does to the records: processes exit. */
  ghost predicate Aged(rs: seq<Rec>, rs': seq<Rec>) {
    && |rs'| == |rs|
    && forall i :: 0 <= i < |rs| ==>
         rs'[i].pid == rs[i].pid && rs'[i].proc == rs[i].proc && (rs[i].exited ==> rs'[i].exited)
  }

  lemma {:induction false} AgedCounts(rs: seq<Rec>, rs': seq<Rec>)
    requires Aged(rs, rs')
    ensures SameCounts(rs, rs')
  {
    if rs != [] { AgedCounts(rs[..|rs| - 1], rs'[..|rs| - 1]); }
  }

  /** `after` has, of each process ID, as many records as `before`, less one of `pid`. */
  ghost predicate OneLess(before: seq<Rec>, after: seq<Rec>, pid: int) {
    forall p :: Count(before, p) == Count(after, p) + (if p == pid then 1 else 0)
  }

  ghost predicate SameCounts(before: seq<Rec>, after: seq<Rec>) {
    forall p :: Count(before, p) == Count(after, p)
  }

  /** `after` is `before` less the processes `reaped`. */
  ghost predicate Less(before: seq<Rec>, after: seq<Rec>, reaped: seq<int>) {
    forall p :: Count(before, p) == Count(after, p) + Occ(reaped, p)
  }

  /** A status report; that of an exit says whose output it carries and whether that was truncated. */
  datatype Poll = Running | Exited(proc: nat, truncated: bool)

  /**
   guest-exec, from the records `rs` and the process number `n` on: processes may exit first; then the call is not
   executed, or it starts process `n`, under any process ID, and its reply may still be lost.
   */
  ghost predicate SpawnAllowed(rs: seq<Rec>, n: nat, older: seq<Rec>, own: Rec, reply: Option<int>, rs': seq<Rec>,
                               n': nat) {
    && Aged(rs, older) && own.proc == n
    && ((rs' == older && n' == n && reply == None)
        || (rs' == older + [own] && n' == n + 1 && (reply == None || reply == Some(own.pid))))
  }

  /** guest-exec-status: the oldest record of the process ID is reported, and consumed when its process has exited. */
  ghost predicate StatusAllowed(rs: seq<Rec>, pid: int, aged: seq<Rec>, reply: Option<Poll>, rs': seq<Rec>) {
    && Aged(rs, aged)
    && var i := Find(aged, pid);
       || (rs' == aged && reply == None)
       || (i < |aged| && !aged[i].exited && rs' == aged && reply == Some(Running))
       || (i < |aged| && aged[i].exited && rs' == Without(aged, i)
           && (reply == None || reply == Some(Exited(aged[i].proc, false)) || reply == Some(Exited(aged[i].proc, true))))
  }

  /** What a guest-exec is for: a command, or a helper that kills a process, as the guest's system does that. */
  datatype Purpose = Command | Kill(target: int, windows: bool)

  /** A process of the guest's history. */
  datatype Started = Started(pid: int, what: Purpose)

  /** The calls to the guest's agent, with what came back. */
  datatype Call =
    | ExecCall(what: Purpose, started: Option<int>)
    | StatusCall(pid: int, reply: Option<Poll>)
    | OsCall(answered: bool)

  /** By the name that guest-get-osinfo gives, in lower case. */
  predicate IsWindows(system: string) {
    system == "windows" || system == "mswindows" || "win" <= system
  }

  // ---------- what a command asks of the agent ----------

  /** The calls from `b` on poll the processes `ids`, one after the other, and each was answered. */
  ghost predicate PolledOnce(calls: seq<Call>, b: nat, ids: seq<int>) {
    && b + |ids| <= |calls|
    && forall i :: b <= i < b + |ids| ==> calls[i].StatusCall? && calls[i].pid == ids[i - b] && calls[i].reply.Some?
  }

  /** Those of them that were reported as running, in order. */
  ghost function StillRunning(calls: seq<Call>, b: nat, ids: seq<int>): seq<int>
    requires PolledOnce(calls, b, ids)
    decreases |ids|
  {
    if ids == [] then []
    else
      var last := |ids| - 1;
      StillRunning(calls, b, ids[..last]) + (if calls[b + last].reply == Some(Running) then [ids[last]] else [])
  }

  lemma {:induction false} RoundStays(before: seq<Call>, after: seq<Call>, b: nat, ids: seq<int>)
    requires before <= after && PolledOnce(before, b, ids)
    ensures PolledOnce(after, b, ids) && StillRunning(after, b, ids) == StillRunning(before, b, ids)
    decreases |ids|
  {
    if ids != [] { RoundStays(before, after, b, ids[..|ids| - 1]); }
  }

  /**
   Calls `b` to `e` poll the processes `ids` in rounds, each time those that were still running, and stop at the first
   call that fails, when none is left, or after `patience` more rounds.
   */
  ghost predicate Polled(calls: seq<Call>, b: nat, e: nat, ids: seq<int>, patience: nat, ok: bool)
    decreases patience
  {
    if ids == [] then e == b && ok
    else
      || (!ok && b < e <= b + |ids| && e <= |calls| && PolledOnce(calls, b, ids[..e - b - 1])
          && calls[e - 1] == StatusCall(ids[e - b - 1], None))
      || (PolledOnce(calls, b, ids)
          && var left := StillRunning(calls, b, ids);
             if left == [] then ok && e == b + |ids|
             else if patience == 0 then !ok && e == b + |ids|
             else Polled(calls, b + |ids|, e, left, patience - 1, ok))
  }

  /** What polls the processes `ids` from the calls `now` on makes, with the calls since `start`, polls of `all`. */
  ghost predicate Continues(start: seq<Call>, now: seq<Call>, all: seq<int>, patience: nat, ids: seq<int>,
                            rounds: nat) {
    forall calls: seq<Call>, e: nat, ok: bool {:trigger Polled(calls, |start|, e, all, patience, ok)} ::
      now <= calls && Polled(calls, |now|, e, ids, rounds, ok) ==> Polled(calls, |start|, e, all, patience, ok)
  }

  lemma OneMoreRound(start: seq<Call>, before: seq<Call>, now: seq<Call>, all: seq<int>, patience: nat, ids: seq<int>,
                     left: seq<int>,
                     rounds: nat)
    requires Continues(start, before, all, patience, ids, rounds) && 0 < rounds
    requires before <= now && |now| == |before| + |ids| && PolledOnce(now, |before|, ids)
    requires left != [] && left == StillRunning(now, |before|, ids)
    ensures Continues(start, now, all, patience, left, rounds - 1)
  {
    hide Polled, PolledOnce, StillRunning;
    forall calls: seq<Call>, e: nat, ok: bool | now <= calls && Polled(calls, |now|, e, left, rounds - 1, ok)
      ensures Polled(calls, |start|, e, all, patience, ok)
    {
      WithOneMore(start, before, now, all, patience, ids, left, rounds, calls, e, ok);
    }
  }

  lemma WithOneMore(start: seq<Call>, before: seq<Call>, now: seq<Call>, all: seq<int>, patience: nat, ids: seq<int>,
                    left: seq<int>,
                    rounds: nat, calls: seq<Call>, e: nat, ok: bool)
    requires Continues(start, before, all, patience, ids, rounds) && 0 < rounds
    requires before <= now && |now| == |before| + |ids| && PolledOnce(now, |before|, ids)
    requires left != [] && left == StillRunning(now, |before|, ids)
    requires now <= calls && Polled(calls, |now|, e, left, rounds - 1, ok)
    ensures Polled(calls, |start|, e, all, patience, ok)
  {
    hide Polled, PolledOnce, StillRunning;
    assert PolledOnce(calls, |before|, ids) && StillRunning(calls, |before|, ids) == left by { RoundStays(now, calls, |before|, ids); }
    assert Polled(calls, |before|, e, ids, rounds, ok) by { RoundFirst(calls, |before|, e, ids, left, rounds, ok); }
  }

  lemma RoundFirst(calls: seq<Call>, b: nat, e: nat, ids: seq<int>, left: seq<int>, rounds: nat, ok: bool)
    requires PolledOnce(calls, b, ids) && left == StillRunning(calls, b, ids) != [] && 0 < rounds
    requires Polled(calls, b + |ids|, e, left, rounds - 1, ok)
    ensures Polled(calls, b, e, ids, rounds, ok)
  {
    hide PolledOnce;
    assert ids != [];
  }

  /** Calls `b` to `m` poll the process until it exits; `report` is that report, unless a call failed or time was up. */
  ghost predicate Awaited(calls: seq<Call>, b: nat, m: nat, pid: int, patience: nat, report: Option<Poll>) {
    && b < m <= |calls|
    && (forall k :: b <= k < m - 1 ==> calls[k] == StatusCall(pid, Some(Running)))
    && calls[m - 1].StatusCall? && calls[m - 1].pid == pid
    && (report.Some? ==> report.value.Exited? && calls[m - 1].reply == report)
    && (report.None? ==> calls[m - 1].reply.None? || (calls[m - 1].reply == Some(Running) && m - b == patience + 1))
  }

  /**
   Calls `b` to `e` are those of a clean-up: a poll of the process; only if that reports it as running, the guest's
   system unless it is known, a helper that kills this very process, and polls of the two.
   */
  ghost predicate CleanedUp(calls: seq<Call>, b: nat, e: nat, system: string, pid: int, patience: nat, ok: bool) {
    && b < e <= |calls|
    && calls[b].StatusCall? && calls[b].pid == pid
    && match calls[b].reply
       case None => e == b + 1 && !ok
       case Some(Exited(_, _)) => e == b + 1 && ok
       case Some(Running) =>
         if system != "" && OsCall(true) in calls[..b] then HelpedAt(calls, b + 1, e, system, pid, patience, ok)
         else
           && b + 1 < e && calls[b + 1].OsCall?
           && if calls[b + 1].answered then HelpedAt(calls, b + 2, e, system, pid, patience, ok) else e == b + 2 && !ok
  }

  /** Call `s` starts the helper; the calls from there to `e` poll both. */
  ghost predicate HelpedAt(calls: seq<Call>, s: nat, e: nat, system: string, pid: int, patience: nat, ok: bool) {
    && s < e <= |calls|
    && calls[s].ExecCall? && calls[s].what == Kill(pid, IsWindows(system))
    && var helper := calls[s].started;
       if helper.None? || helper.value <= 0 then e == s + 1 && !ok
       else Polled(calls, s + 1, e, [pid, helper.value], patience, ok)
  }

  /** The call brought no reply. */
  predicate Unanswered(call: Call) {
    match call
    case ExecCall(_, started) => started.None?
    case StatusCall(_, reply) => reply.None?
    case OsCall(answered) => !answered
  }

  lemma {:induction false} PolledOut(calls: seq<Call>, b: nat, e: nat, ids: seq<int>, patience: nat)
    requires Polled(calls, b, e, ids, patience, false)
    ensures b < e <= |calls| && (Unanswered(calls[e - 1]) || e - b > patience)
    decreases patience
  {
    hide StillRunning;
    if PolledOnce(calls, b, ids) {
      var left := StillRunning(calls, b, ids);
      if left != [] && patience != 0 && Polled(calls, b + |ids|, e, left, patience - 1, false) {
        PolledOut(calls, b + |ids|, e, left, patience - 1);
      }
    }
  }

  /**
   A clean-up fails only if its last call brought no reply, or that call started a helper without a process ID, or
   the helper that kills the process was started and as many rounds of polls as there was time for were made.
   */
  lemma CleanupFailsOnly(calls: seq<Call>, b: nat, e: nat, system: string, pid: int, patience: nat)
    requires CleanedUp(calls, b, e, system, pid, patience, false)
    ensures
      || Unanswered(calls[e - 1])
      || (calls[e - 1].ExecCall? && calls[e - 1].what == Kill(pid, IsWindows(system)) && calls[e - 1].started.value <= 0)
      || exists s :: b < s < e && e - s > patience + 1
           && calls[s].ExecCall? && calls[s].what == Kill(pid, IsWindows(system)) && calls[s].started.Some? && 0 < calls[s].started.value
  {
    hide IsWindows, Polled;
    if calls[b].reply == Some(Running) {
      var s := if system != "" && OsCall(true) in calls[..b] then b + 1 else b + 2;
      if HelpedAt(calls, s, e, system, pid, patience, false) && calls[s].started.Some? && 0 < calls[s].started.value {
        PolledOut(calls, s + 1, e, [pid, calls[s].started.value], patience);
      }
    }
  }

  /** Calls `b` to `e` are those of a command that ended with `res`. */
  ghost predicate Executed(calls: seq<Call>, b: nat, e: nat, system: string, patience: nat, cleanupPatience: nat,
                           res: Result) {
    && b < e <= |calls|
    && calls[b].ExecCall? && calls[b].what == Command
    && var reply := calls[b].started;
       if reply.None? then e == b + 1 && res == Lost
       else if reply.value <= 0 then e == b + 1 && res == NoPid
       else exists m: nat :: FollowedTo(calls, b, m, e, system, reply.value, patience, cleanupPatience, res)
  }

  /** After its start at `b` the process is polled until call `m`, and if that was in vain there is a clean-up until call `e`. */
  ghost predicate FollowedTo(calls: seq<Call>, b: nat, m: nat, e: nat, system: string, pid: int, patience: nat,
                             cleanupPatience: nat, res: Result)
  {
    match res
    case Finished(proc) => m == e && Awaited(calls, b + 1, m, pid, patience, Some(Exited(proc, false)))
    case Truncated(proc) => m == e && Awaited(calls, b + 1, m, pid, patience, Some(Exited(proc, true)))
    case Abandoned(clean) =>
      Awaited(calls, b + 1, m, pid, patience, None) && CleanedUp(calls, m, e, system, pid, cleanupPatience, clean)
    case _ => false
  }

  datatype Result =
    | Finished(proc: nat)     // the output and exit code of process `proc`
    | Truncated(proc: nat)    // the same, but the output was cut short and is not handed out
    | Lost                    // no reply to guest-exec: whether a process was started is not known
    | NoPid                   // the reply carried no process ID
    | Abandoned(clean: bool)  // an error or a cancellation; `clean` unless a cleanup failure is reported

  // ---------- the commands of a history ----------

  /** The numbers of the commands in a history from `from` on, in the order they were started. */
  ghost function Commands(started: seq<Started>, from: nat): seq<nat>
    requires from <= |started|
    decreases |started| - from
  {
    if |started| == from then []
    else
      var last := |started| - 1;
      Commands(started[..last], from) + (if started[last].what.Kill? then [] else [last])
  }

  lemma {:induction false} HelpersAreNoCommands(before: seq<Started>, after: seq<Started>, from: nat)
    requires from <= |before| && before <= after
    requires forall i :: |before| <= i < |after| ==> after[i].what.Kill?
    ensures Commands(after, from) == Commands(before, from)
    decreases |after|
  {
    if |after| == |before| {
      assert after == before;
    } else {
      HelpersAreNoCommands(before, after[..|after| - 1], from);
    }
  }

  /** One command, and whatever helpers it needed. */
  lemma OneCommand(before: seq<Started>, after: seq<Started>, from: nat)
    requires from <= |before| < |after| && before <= after && after[|before|].what.Command?
    requires forall i :: |before| < i < |after| ==> after[i].what.Kill?
    ensures Commands(after, from) == Commands(before, from) + [|before|]
  {
    var one := after[..|before| + 1];
    assert one[..|before|] == before;
    HelpersAreNoCommands(one, after, from);
  }

  /** The guest, as calls to its agent affect it. A call that fails may or may not have been executed. */
  class Guest {
    const system: string       // what guest-get-osinfo answers
    var records: seq<Rec>
    var started: seq<Started>  // process number i is the i-th; only guest-exec adds to it
    var os: string             // the system, once it was asked for
    ghost var calls: seq<Call> // every call that was made

    /** A record is of a process that was started under its process ID. */
    ghost predicate Valid()
      reads this
    {
      && (forall r :: r in records ==> r.proc < |started| && started[r.proc].pid == r.pid)
      && os == (if OsCall(true) in calls then system else "")
    }

    constructor (system: string)
      ensures Valid() && records == [] && started == [] && calls == [] && this.system == system
    {
      this.system := system;
      records, started, os, calls := [], [], "", [];
    }

    /** Processes exit whenever they like. */
    method Tick()
      requires Valid()
      modifies this`records
      ensures Valid() && Aged(old(records), records)
    {
      var before := records;
      for i := 0 to |before|
        invariant Aged(before, records)
      {
        var exits: bool := *;
        if exits { records := records[i := records[i].(exited := true)]; }
      }
      forall r | r in records ensures r.proc < |started| && started[r.proc].pid == r.pid {
        var i :| 0 <= i < |records| && records[i] == r;
        assert before[i] in before;
      }
    }

    /** guest-exec: starts the next process under any process ID, even one that a record still has. */
    method Spawn(what: Purpose) returns (reply: Option<int>, ghost older: seq<Rec>, ghost own: Rec)
      requires Valid()
      modifies this
      ensures Valid() && os == old(os) && calls == old(calls) + [ExecCall(what, reply)]
      ensures SpawnAllowed(old(records), |old(started)|, older, own, reply, records, |started|)
      ensures started == old(started) || started == old(started) + [Started(own.pid, what)]
      ensures Aged(old(records), older) && own.proc == |old(started)|
      ensures forall r :: r in older ==> r.proc != own.proc
      ensures reply.Some? ==>
        records == older + [own] && own.pid == reply.value && started == old(started) + [Started(own.pid, what)]
    {
      Tick();
      older, own := records, Rec(0, |started|, false);
      var executed: bool := *;
      if executed {
        var pid: int := *;
        var exited: bool := *;
        own := Rec(pid, |started|, exited);
        records := records + [Rec(pid, |started|, exited)];
        started := started + [Started(pid, what)];
        var delivered: bool := *;
        reply := if delivered then Some(pid) else None;
      } else {
        reply := None;
      }
      calls := calls + [ExecCall(what, reply)];
    }

    /** guest-exec-status: a report of exit consumes the record. An unknown process ID is an error. */
    method Status(pid: int) returns (reply: Option<Poll>, ghost aged: seq<Rec>)
      requires Valid()
      modifies this`records, this`calls
      ensures Valid() && calls == old(calls) + [StatusCall(pid, reply)]
      ensures StatusAllowed(old(records), pid, aged, reply, records)
      ensures reply == Some(Running) ==> Aged(old(records), records)
      ensures reply.Some? && reply.value.Exited? ==>
        OneLess(old(records), records, pid)
        && var i := Find(old(records), pid);
           i < |old(records)| && reply.value.proc == old(records)[i].proc
      ensures reply.None? ==>
        SameCounts(old(records), records) || OneLess(old(records), records, pid)
    {
      reply, aged := Asked(pid);
      calls := calls + [StatusCall(pid, reply)];
    }

    method Asked(pid: int) returns (reply: Option<Poll>, ghost aged: seq<Rec>)
      requires Valid()
      modifies this`records
      ensures Valid()
      ensures StatusAllowed(old(records), pid, aged, reply, records)
      ensures reply == Some(Running) ==> Aged(old(records), records)
      ensures reply.Some? && reply.value.Exited? ==>
        OneLess(old(records), records, pid)
        && var i := Find(old(records), pid);
           i < |old(records)| && reply.value.proc == old(records)[i].proc
      ensures reply.None? ==>
        SameCounts(old(records), records) || OneLess(old(records), records, pid)
    {
      Tick();
      aged := records;
      AgedCounts(old(records), records);
      var executed: bool := *;
      var delivered: bool := *;
      var truncated: bool := *;
      var i := Find(records, pid);
      if !executed || i == |records| { return None, aged; }
      FindAged(old(records), records, pid);
      var r := records[i];
      if r.exited {
        WithoutTakesOne(records, i);
        records := Without(records, i);
      }
      if !delivered { return None, aged; }
      reply := Some(if r.exited then Exited(r.proc, truncated) else Running);
    }

    /** The guest's system, asked for until it is known (Agent.OS). */
    method Os() returns (answer: Option<string>)
      requires Valid()
      modifies this`os, this`calls
      ensures Valid()
      ensures answer.Some? ==> answer.value == system
      ensures old(os) != "" ==> answer.Some? && calls == old(calls)
      ensures old(os) == "" ==> calls == old(calls) + [OsCall(answer.Some?)]
    {
      if os != "" { return Some(os); }
      var answered: bool := *;
      calls := calls + [OsCall(answered)];
      if !answered { return None; }
      os := system;
      answer := Some(os);
    }
  }

  lemma FindAged(rs: seq<Rec>, rs': seq<Rec>, pid: int)
    requires Aged(rs, rs')
    ensures Find(rs', pid) == Find(rs, pid)
  {
  }

  /**
   A reply to guest-exec that is lost misleads the next command that is given the same process ID: on a clean guest,
   process 0 is started and its reply lost; process 1 gets the same ID; and the report of exit that comes for this ID
   is that of process 0, while the record of process 1 stays.
   */
  lemma LostReplyMisleads(pid: int)
    ensures var first, second := Rec(pid, 0, true), Rec(pid, 1, true);
      && SpawnAllowed([], 0, [], first, None, [first], 1)
      && SpawnAllowed([first], 1, [first], second, Some(pid), [first, second], 2)
      && StatusAllowed([first, second], pid, [first, second], Some(Exited(first.proc, false)), [second])
      && first.proc != second.proc
  {
    var first, second := Rec(pid, 0, true), Rec(pid, 1, true);
    assert [] + [first] == [first] && [first] + [second] == [first, second];
    assert Without([first, second], 0) == [second];
  }

  // ---------- commands ----------

  /** Five seconds of cleanup, one poll every 100 milliseconds. */
  const CLEANUP_POLLS := 50

  /**
   reapExec: polls each process until the agent reports its exit. The pending IDs are filtered in place, in the
   buffer they are read from. `patience` is how many more rounds the context leaves time for, and `reaped` lists
   the reports of exit in the order they came.
   */
  method ReapExec(g: Guest, buf: array<int>, patience: nat) returns (ok: bool, ghost reaped: seq<int>)
    requires g.Valid()
    modifies g`records, g`calls, buf
    ensures g.Valid() && old(g.calls) <= g.calls
    ensures Polled(g.calls, |old(g.calls)|, |g.calls|, old(buf[..]), patience, ok)
    ensures ok ==> forall p :: Occ(reaped, p) == Occ(old(buf[..]), p)
    ensures ok ==> Less(old(g.records), g.records, reaped)
  {
    hide Less, Continues, PolledOnce, StillRunning;
    var n, rounds := buf.Length, patience;
    reaped := [];
    ghost var all, start := buf[..], g.calls;
    assert buf[..n] == all;
    NothingReaped(start, g.records, all, patience);
    while n != 0
      invariant g.Valid() && start <= g.calls && 0 <= n <= buf.Length
      invariant Continues(start, g.calls, all, patience, buf[..n], rounds)
      invariant forall p :: Occ(reaped, p) + Occ(buf[..n], p) == Occ(all, p)
      invariant Less(old(g.records), g.records, reaped)
      invariant n == 0 ==> all == [] && g.calls == start
      decreases rounds + (if n != 0 then 1 else 0)
    {
      ghost var before, ids := g.calls, buf[..n];
      var passed;
      passed, n, reaped := ReapRound(g, buf, n, reaped, old(g.records));
      if passed && n != 0 && rounds != 0 {
        OneMoreRound(start, before, g.calls, all, patience, ids, buf[..n], rounds);
      } else {
        assert Polled(g.calls, |before|, |g.calls|, ids, rounds, passed && n == 0);
        Concludes(start, before, g.calls, all, patience, ids, rounds, passed && n == 0);
      }
      if !passed { return false, reaped; }
      if n == 0 {
        return true, reaped;
      }
      if rounds == 0 { return false, reaped; }
      rounds := rounds - 1;
    }
    ok := true;
  }

  lemma NothingReaped(calls: seq<Call>, rs: seq<Rec>, ids: seq<int>, patience: nat)
    ensures Continues(calls, calls, ids, patience, ids, patience) && Less(rs, rs, [])
  {
  }

  lemma Concludes(start: seq<Call>, before: seq<Call>, calls: seq<Call>, all: seq<int>, patience: nat, ids: seq<int>,
                  rounds: nat, ok: bool)
    requires Continues(start, before, all, patience, ids, rounds) && before <= calls
    requires Polled(calls, |before|, |calls|, ids, rounds, ok)
    ensures Polled(calls, |start|, |calls|, all, patience, ok)
  {
  }

  /** One pass over the `n` pending IDs; those still running are kept, in order, at the front of the buffer. */
  method ReapRound(g: Guest, buf: array<int>, n: nat, ghost already: seq<int>, ghost start: seq<Rec>)
    returns (ok: bool, left: nat, ghost reaped: seq<int>)
    requires g.Valid() && n <= buf.Length && Less(start, g.records, already)
    modifies g`records, g`calls, buf
    ensures g.Valid() && left <= n && old(g.calls) <= g.calls
    ensures ok ==>
      && |g.calls| == |old(g.calls)| + n && PolledOnce(g.calls, |old(g.calls)|, old(buf[..n]))
      && buf[..left] == StillRunning(g.calls, |old(g.calls)|, old(buf[..n]))
    ensures !ok ==>
      var e, ids := |g.calls| - |old(g.calls)|, old(buf[..n]);
      && 0 < e <= n && PolledOnce(g.calls, |old(g.calls)|, ids[..e - 1]) && g.calls[|g.calls| - 1] == StatusCall(ids[e - 1], None)
    ensures ok ==> forall p :: Occ(reaped, p) + Occ(buf[..left], p) == Occ(already, p) + Occ(old(buf[..n]), p)
    ensures ok ==> Less(start, g.records, reaped)
  {
    hide Occ, Count, Find, Aged, StatusAllowed, PolledOnce, StillRunning, Guest.Valid;
    ghost var ids, before := buf[..n], g.calls;
    ghost var kept: seq<int> := [];
    reaped := already;
    left := 0;
    NoPollYet(before);
    for i := 0 to n
      invariant g.Valid() && left <= i && |kept| == left
      invariant before <= g.calls && |g.calls| == |before| + i && PolledOnce(g.calls, |before|, ids[..i])
      invariant kept == StillRunning(g.calls, |before|, ids[..i])
      invariant forall k :: i <= k < n ==> buf[k] == ids[k]
      invariant forall k :: 0 <= k < left ==> buf[k] == kept[k]
      invariant forall p :: Occ(reaped, p) + Occ(kept, p) == Occ(already, p) + Occ(ids[..i], p)
      invariant Less(start, g.records, reaped)
    {
      var pid := buf[i];
      OccTake(ids, i);
      ghost var paused, was := g.records, g.calls;
      var reply, _ := g.Status(pid);
      if reply.None? {
        RoundStays(was, g.calls, |before|, ids[..i]);
        return false, left, reaped;
      }
      OneMorePoll(was, g.calls, |before|, ids, i);
      if reply.value.Running? {
        AgedCounts(paused, g.records);
        OccAppend(kept, pid);
        buf[left] := pid;
        left, kept := left + 1, kept + [pid];
      } else {
        OccAppend(reaped, pid);
        reaped := reaped + [pid];
      }
    }
    assert ids[..n] == ids && buf[..left] == kept;
    ok := true;
  }

  lemma NoPollYet(calls: seq<Call>)
    ensures PolledOnce(calls, |calls|, []) && StillRunning(calls, |calls|, []) == []
  {
  }

  lemma OneMorePoll(before: seq<Call>, after: seq<Call>, b: nat, ids: seq<int>, i: nat)
    requires i < |ids| && b + i == |before| && before <= after && |after| == |before| + 1 && PolledOnce(before, b, ids[..i])
    requires after[|before|].StatusCall? && after[|before|].pid == ids[i] && after[|before|].reply.Some?
    ensures PolledOnce(after, b, ids[..i + 1])
    ensures StillRunning(after, b, ids[..i + 1])
      == StillRunning(before, b, ids[..i]) + (if after[|before|].reply == Some(Running) then [ids[i]] else [])
  {
    RoundStays(before, after, b, ids[..i]);
    assert ids[..i + 1][..i] == ids[..i];
  }

  /** Since then nothing was started, or one helper that kills process `pid`. */
  ghost predicate OnlyHelper(before: seq<Started>, after: seq<Started>, pid: int, windows: bool) {
    before <= after && |after| <= |before| + 1 && (|after| > |before| ==> after[|before|].what == Kill(pid, windows))
  }

  /** Reaps an abandoned command, killing it first unless it has already exited. */
  method CleanupExec(g: Guest, pid: int, patience: nat) returns (ok: bool)
    requires g.Valid()
    modifies g
    ensures g.Valid() && old(g.calls) < g.calls
    ensures CleanedUp(g.calls, |old(g.calls)|, |g.calls|, g.system, pid, patience, ok)
    ensures OnlyHelper(old(g.started), g.started, pid, IsWindows(g.system))
    // A process that was running when the clean-up began is reaped only after a helper was started to kill it.
    ensures ok && g.calls[|old(g.calls)|].reply == Some(Running) ==> |g.started| == |old(g.started)| + 1
    ensures ok ==> OneLess(old(g.records), g.records, pid)
  {
    hide StatusAllowed, SpawnAllowed, Find, Without, IsWindows, Polled, Occ, Count, Less;
    ghost var start := g.calls;
    var reply, _ := g.Status(pid);
    if reply.None? { return false; }
    if reply.value.Exited? { return true; }
    AgedCounts(old(g.records), g.records);
    assert OsCall(true) in g.calls <==> OsCall(true) in start;
    var os := g.Os();
    if os.None? { return false; }
    ok := KillAndReap(g, pid, IsWindows(os.value), patience);
  }

  /** Starts the helper that the guest's system needs and reaps both. */
  method KillAndReap(g: Guest, pid: int, windows: bool, patience: nat) returns (ok: bool)
    requires g.Valid() && windows == IsWindows(g.system)
    modifies g
    ensures g.Valid() && old(g.calls) < g.calls
    ensures HelpedAt(g.calls, |old(g.calls)|, |g.calls|, g.system, pid, patience, ok)
    ensures OnlyHelper(old(g.started), g.started, pid, windows) && (ok ==> |g.started| == |old(g.started)| + 1)
    ensures ok ==> OneLess(old(g.records), g.records, pid)
  {
    hide StatusAllowed, SpawnAllowed, Find, Without, IsWindows, Polled;
    var helper;
    ghost var older, own;
    helper, older, own := g.Spawn(Kill(pid, windows));
    if helper.None? || helper.value <= 0 { return false; }
    AppendAddsOne(older, own);
    AgedCounts(old(g.records), older);
    // The target is polled first; the two may share a process ID.
    var buf := new int[2];
    buf[0], buf[1] := pid, helper.value;
    assert buf[..] == [pid, helper.value];
    ghost var reaped;
    ok, reaped := ReapExec(g, buf, patience);
    OccAppend([], pid);
    OccAppend([pid], helper.value);
    assert [] + [pid] == [pid] && [pid] + [helper.value] == [pid, helper.value];
  }

  /** The process whose result a report for `pid` gives, with the records `older` and a new one of process `own`. */
  function Reported(older: seq<Rec>, own: Rec): nat {
    var i := Find(older, own.pid);
    if i < |older| then older[i].proc else own.proc
  }

  /**
   Execute. Two more numbers stand for the contexts: how many polls the caller and the cleanup have time for. The
   first thing it does is start the command, as the next process of the guest's history; nothing else that it starts
   is a command. When the reply to guest-exec arrived and no cleanup failure is reported, no record is left behind:
   each process ID has as many records as before, or the command's ID one less, which takes an older record of it.
   */
  method Execute(g: Guest, patience: nat, cleanupPatience: nat) returns (res: Result, ghost own: Rec)
    requires g.Valid()
    modifies g
    ensures g.Valid() && own.proc == |old(g.started)| && old(g.calls) < g.calls
    ensures Executed(g.calls, |old(g.calls)|, |g.calls|, g.system, patience, cleanupPatience, res)
    ensures old(g.started) <= g.started
    ensures |g.started| > own.proc ==>
      && g.started[own.proc] == Started(own.pid, Command)
      && OnlyHelper(g.started[..own.proc + 1], g.started, own.pid, IsWindows(g.system))
    ensures !res.Lost? ==> |g.started| > own.proc && g.calls[|old(g.calls)|].started == Some(own.pid)
    ensures res.Finished? || res.Truncated? || res.Abandoned? ==> 0 < own.pid
    ensures res.NoPid? ==> own.pid <= 0
    // A kill helper is started only for a command that is given up.
    ensures |g.started| > own.proc + 1 ==> res.Abandoned?
    // A command that is given up has exited by the clean-up's first poll, or a helper was started to kill it.
    ensures res == Abandoned(true) ==>
      || |g.started| == own.proc + 2
      || (g.calls[|g.calls| - 1].StatusCall? && g.calls[|g.calls| - 1].pid == own.pid
          && g.calls[|g.calls| - 1].reply.Some? && g.calls[|g.calls| - 1].reply.value.Exited?)
    ensures res.Finished? || res.Truncated? ==> SameCounts(old(g.records), g.records)
    ensures res == Abandoned(true) ==>
      || SameCounts(old(g.records), g.records)
      || (Count(old(g.records), own.pid) > 0 && OneLess(old(g.records), g.records, own.pid))
    // The result is that of the oldest record of the process ID: the command's own exactly when there was no other.
    ensures res.Finished? || res.Truncated? ==> res.proc == Reported(old(g.records), own)
    ensures res.Finished? || res.Truncated? ==> (res.proc == own.proc <==> Count(old(g.records), own.pid) == 0)
  {
    hide Commands, Find, StatusAllowed, SpawnAllowed, Without, Awaited, CleanedUp, IsWindows, Guest.Valid, Count;
    var reply;
    ghost var older;
    ghost var start, was := |g.calls|, g.started;
    reply, older, own := g.Spawn(Command);
    if reply.None? {
      return Lost, own;
    }
    var pid := reply.value;
    assert g.started[..own.proc + 1] == g.started;
    if pid <= 0 { return NoPid, own; }
    AppendAddsOne(older, own);
    AgedCounts(old(g.records), older);
    OwnRecordIff(older, own);
    ReportedIs(old(g.records), older, own);
    ghost var asked := g.calls;
    var outcome := Await(g, pid, patience);
    ghost var m := |g.calls|;
    if outcome.Some? {
      res := if outcome.value.truncated then Truncated(outcome.value.proc) else Finished(outcome.value.proc);
      assert FollowedTo(g.calls, start, m, m, g.system, pid, patience, cleanupPatience, res);
      return;
    }
    ghost var began, polled := g.started, g.calls;
    var cleaned := CleanupExec(g, pid, cleanupPatience);
    assert g.started[..own.proc + 1] == began;
    res := Abandoned(cleaned);
    AwaitedStays(polled, g.calls, start + 1, m, pid, patience);
    assert FollowedTo(g.calls, start, m, |g.calls|, g.system, pid, patience, cleanupPatience, res);
    if cleaned { FirstPoll(g.calls, m, |g.calls|, g.system, pid, cleanupPatience); }
  }

  lemma AwaitedStays(before: seq<Call>, after: seq<Call>, b: nat, m: nat, pid: int, patience: nat)
    requires before <= after && Awaited(before, b, m, pid, patience, None)
    ensures Awaited(after, b, m, pid, patience, None)
  {
  }

  lemma FirstPoll(calls: seq<Call>, m: nat, e: nat, system: string, pid: int, patience: nat)
    requires CleanedUp(calls, m, e, system, pid, patience, true)
    ensures m < e <= |calls| && calls[m].StatusCall? && calls[m].pid == pid && calls[m].reply.Some?
    ensures calls[m].reply.value.Exited? ==> e == m + 1
  {
    hide HelpedAt;
  }

  /** What a report for the new process ID is about, whatever exited in between. */
  lemma ReportedIs(rs: seq<Rec>, older: seq<Rec>, own: Rec)
    requires Aged(rs, older)
    ensures var with := older + [own];
      Find(with, own.pid) < |with| && with[Find(with, own.pid)].proc == Reported(rs, own)
    ensures SameCounts(rs, older)
  {
    AgedCounts(rs, older);
    FindAged(rs, older, own.pid);
    var with := older + [own];
    var i, j := Find(with, own.pid), Find(older, own.pid);
    assert with[|older|] == own;
    assert forall k :: 0 <= k < |older| ==> with[k] == older[k];
    assert i <= |older|;
    assert i < |older| ==> older[i].pid == own.pid;
    assert j < |older| ==> with[j].pid == own.pid;
    assert i == j;
  }

  /** Polls a process to its exit; None on an error or when the caller's context ends. */
  method Await(g: Guest, pid: int, patience: nat) returns (report: Option<Poll>)
    requires g.Valid()
    modifies g`records, g`calls
    ensures g.Valid() && old(g.calls) < g.calls
    ensures Awaited(g.calls, |old(g.calls)|, |g.calls|, pid, patience, report)
    ensures report.Some? ==>
      && report.value.Exited?
      && OneLess(old(g.records), g.records, pid)
      && var i := Find(old(g.records), pid);
         i < |old(g.records)| && report.value.proc == old(g.records)[i].proc
    ensures report.None? ==> SameCounts(old(g.records), g.records) || OneLess(old(g.records), g.records, pid)
  {
    hide Guest.Valid, StatusAllowed;
    var left := patience;
    while true
      invariant g.Valid() && Aged(old(g.records), g.records) && old(g.calls) <= g.calls
      invariant |g.calls| == |old(g.calls)| + (patience - left) && 0 <= left <= patience
      invariant forall k :: |old(g.calls)| <= k < |g.calls| ==> g.calls[k] == StatusCall(pid, Some(Running))
      decreases left
    {
      AgedCounts(old(g.records), g.records);
      FindAged(old(g.records), g.records, pid);
      var state, _ := g.Status(pid);
      if state.None? { return None; }
      if state.value.Exited? { return state; }
      if left == 0 {
        AgedCounts(old(g.records), g.records);
        return None;
      }
      left := left - 1;
    }
  }

  /**
   Commands one after the other on a guest without left-over records, up to the first that loses track of its
   process. `marks` are the calls at which they begin and end, and `procs` are the numbers of these commands in the
   guest's history: they are the commands that were started here, in this order, except that a last one whose reply
   was lost may not have been. Each that finished was given the result of its own process, and nothing is left behind.
   */
  method RunCommands(g: Guest, patience: seq<nat>)
    returns (results: seq<Result>, ghost procs: seq<nat>, ghost marks: seq<nat>)
    requires g.Valid() && g.records == []
    modifies g
    ensures g.Valid() && |procs| == |results| <= |patience|
    ensures old(g.started) <= g.started && old(g.calls) <= g.calls
    // The calls to the agent are those of these commands, one after the other.
    ensures |marks| == |results| + 1 && marks[0] == |old(g.calls)| && marks[|results|] == |g.calls|
    ensures forall k :: 0 <= k < |results| ==> ExecutedAt(g.calls, marks, k, g.system, patience[k], results[k])
    ensures var commands := Commands(g.started, |old(g.started)|);
      commands == procs
      || (results != [] && results[|results| - 1].Lost? && commands == procs[..|procs| - 1])
    ensures forall k :: 0 <= k < |results| && Ended(results[k]) ==> results[k].proc == procs[k]
    ensures forall k :: 0 <= k < |results| - 1 ==> NothingLeft(results[k])
    ensures |results| < |patience| ==> results != [] && !NothingLeft(results[|results| - 1])
    ensures (forall k :: 0 <= k < |results| ==> NothingLeft(results[k])) ==> g.records == []
  {
    hide Commands, OnlyHelper, Executed, Guest.Valid, IsWindows;
    results, procs, marks := [], [], [|g.calls|];
    NoCommandsYet(g.started);
    for i := 0 to |patience|
      invariant g.Valid() && g.records == [] && |procs| == |results| == i
      invariant old(g.started) <= g.started && old(g.calls) <= g.calls
      invariant |marks| == i + 1 && marks[0] == |old(g.calls)| && marks[i] == |g.calls|
      invariant forall k :: 0 <= k < i ==> ExecutedAt(g.calls, marks, k, g.system, patience[k], results[k])
      invariant Commands(g.started, |old(g.started)|) == procs
      invariant forall k :: 0 <= k < i ==> NothingLeft(results[k])
      invariant forall k :: 0 <= k < i && Ended(results[k]) ==> results[k].proc == procs[k]
    {
      ghost var own;
      ghost var before, calls, so := g.started, g.calls, marks;
      var res;
      res, own := Execute(g, patience[i], CLEANUP_POLLS);
      results := results + [res];
      marks := marks + [|g.calls|];
      forall k | 0 <= k <= i ensures ExecutedAt(g.calls, marks, k, g.system, patience[k], results[k]) {
        if k < i {
          assert ExecutedAt(calls, so, k, g.system, patience[k], results[k]);
          ExecutedStays(calls, g.calls, so[k], so[k + 1], g.system, patience[k], CLEANUP_POLLS, results[k]);
        }
      }
      ghost var earlier := procs;
      procs := procs + [own.proc];
      CommandOf(before, g.started, |old(g.started)|, own.pid, IsWindows(g.system));
      assert procs[..|procs| - 1] == earlier && results[i] == res;
      if res.Lost? || res.NoPid? || res == Abandoned(false) { return; }
      assert Count([], own.pid) == 0;
      NoneLeft(g.records);
    }
  }

  /** Command `k` is what happened between its marks. */
  ghost predicate ExecutedAt(calls: seq<Call>, marks: seq<nat>, k: nat, system: string, patience: nat, res: Result) {
    k + 1 < |marks| && Executed(calls, marks[k], marks[k + 1], system, patience, CLEANUP_POLLS, res)
  }

  predicate Ended(res: Result) { res.Finished? || res.Truncated? }

  /** No record can be left behind. */
  predicate NothingLeft(res: Result) { Ended(res) || res == Abandoned(true) }

  /** A longer list of calls says the same about its beginning. */
  lemma ExecutedStays(before: seq<Call>, after: seq<Call>, b: nat, e: nat, system: string, patience: nat,
                      cleanupPatience: nat, res: Result)
    requires before <= after && Executed(before, b, e, system, patience, cleanupPatience, res)
    ensures Executed(after, b, e, system, patience, cleanupPatience, res)
  {
    hide CleanedUp, IsWindows;
    var reply := before[b].started;
    if reply.Some? && 0 < reply.value {
      var m: nat :| FollowedTo(before, b, m, e, system, reply.value, patience, cleanupPatience, res);
      if res.Abandoned? { CleanedUpStays(before, after, m, e, system, reply.value, cleanupPatience, res.clean); }
      assert FollowedTo(after, b, m, e, system, reply.value, patience, cleanupPatience, res);
    }
  }

  lemma CleanedUpStays(before: seq<Call>, after: seq<Call>, b: nat, e: nat, system: string, pid: int, patience: nat,
                       ok: bool)
    requires before <= after && CleanedUp(before, b, e, system, pid, patience, ok)
    ensures CleanedUp(after, b, e, system, pid, patience, ok)
  {
    hide HelpedAt;
    assert after[..b] == before[..b];
    if before[b].reply == Some(Running) {
      var s := if system != "" && OsCall(true) in before[..b] then b + 1 else b + 2;
      if HelpedAt(before, s, e, system, pid, patience, ok) { HelpedStays(before, after, s, e, system, pid, patience, ok); }
    }
  }

  lemma HelpedStays(before: seq<Call>, after: seq<Call>, s: nat, e: nat, system: string, pid: int, patience: nat,
                    ok: bool)
    requires before <= after && HelpedAt(before, s, e, system, pid, patience, ok)
    ensures HelpedAt(after, s, e, system, pid, patience, ok)
  {
    hide IsWindows, Polled;
    var helper := before[s].started;
    if helper.Some? && 0 < helper.value { PolledStays(before, after, s + 1, e, [pid, helper.value], patience, ok); }
  }

  lemma {:induction false} PolledStays(before: seq<Call>, after: seq<Call>, b: nat, e: nat, ids: seq<int>,
                                       patience: nat, ok: bool)
    requires before <= after && Polled(before, b, e, ids, patience, ok)
    ensures Polled(after, b, e, ids, patience, ok)
    decreases patience
  {
    hide StillRunning;
    if PolledOnce(before, b, ids) {
      RoundStays(before, after, b, ids);
      var left := StillRunning(before, b, ids);
      if ids != [] && left != [] && patience != 0 && Polled(before, b + |ids|, e, left, patience - 1, ok) {
        PolledStays(before, after, b + |ids|, e, left, patience - 1, ok);
      }
    }
  }

  lemma NoCommandsYet(started: seq<Started>)
    ensures Commands(started, |started|) == []
  {
  }

  /** What one command adds to the history. */
  lemma CommandOf(before: seq<Started>, after: seq<Started>, from: nat, pid: int, windows: bool)
    requires from <= |before| && before <= after
    requires |after| > |before| ==> after[|before|].what.Command? && OnlyHelper(after[..|before| + 1], after, pid, windows)
    ensures Commands(after, from) == Commands(before, from) + (if |after| > |before| then [|before|] else [])
  {
    if |after| > |before| {
      OneCommand(before, after, from);
    } else {
      assert after == before;
    }
  }
}
