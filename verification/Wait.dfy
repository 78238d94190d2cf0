/** Polling within a budget (pkg/wait/wait.go, and waitExec of internal/server/server.go). Times are nanoseconds. */
module Wait {
  import opened Records

  const SECOND := 1_000_000_000
  const INTERVAL := 5 * SECOND
  const ATTEMPT_SHARE := 4

  datatype Outcome = Succeeded | NotYet | Hopeless  // a failure marked Fatal

  /**
   What waiting meets, by the number of the attempt: its outcome and how long it took; whether the caller's context is
   over when it returns; and how far into the pause after it the context ends, if it does.
   */
  datatype World = World(outcome: nat -> Outcome, took: nat -> nat, over: nat -> bool, woken: nat -> Option<nat>)

  datatype Verdict = Done | Stopped | Cancelled | TimedOut

  function Max(a: int, b: int): int { if a < b then b else a }
  function Min(a: int, b: int): int { if a < b then a else b }

  /** How long one attempt may take. */
  function PerAttempt(within: int): int {
    Max(within / ATTEMPT_SHARE, SECOND)
  }

  /** When attempt `i` begins and ends, if every one before it just failed and every pause was whole. */
  function Begin(w: World, start: int, i: nat): int
    decreases i, 0
  {
    if i == 0 then start else End(w, start, i - 1) + INTERVAL
  }

  function End(w: World, start: int, i: nat): int
    decreases i, 1
  {
    Begin(w, start, i) + w.took(i)
  }

  /** Attempt `i` is followed by another one. */
  predicate GoesOn(w: World, start: int, within: int, i: nat) {
    w.outcome(i).NotYet? && !w.over(i) && End(w, start, i) <= start + within && w.woken(i).None?
  }

  /** What the wait answers when attempt `i` is its last. */
  function Answer(w: World, start: int, within: int, i: nat): Verdict {
    match w.outcome(i)
    case Succeeded => Done
    case Hopeless => Stopped
    case NotYet => if !w.over(i) && End(w, start, i) > start + within then TimedOut else Cancelled
  }

  /** Attempts give up when their own context ends. */
  ghost predicate Honoured(w: World, within: int) {
    forall i :: w.took(i) <= PerAttempt(within)
  }

  /** Each attempt begins at least that many intervals after the first. */
  lemma {:induction false} BeginsLate(w: World, start: int, i: nat)
    ensures start + i * INTERVAL <= Begin(w, start, i)
  {
    if i > 0 { BeginsLate(w, start, i - 1); }
  }

  /** When attempt `n` was begun no later than `budget` after the start, at most budget / interval came before it. */
  lemma CountBound(n: nat, budget: int, interval: int)
    requires interval > 0 && n * interval <= budget
    ensures n <= budget / interval
  {
    var q := budget / interval;
    assert budget < (q + 1) * interval;
    assert n >= q + 1 ==> n * interval >= (q + 1) * interval;
  }

  /** At most budget / interval + 2 attempts fit in, and the last one begins at most an interval after the deadline. */
  lemma AttemptsFit(w: World, start: int, within: int, n: nat)
    requires n > 0 && forall i :: 0 <= i < n - 1 ==> GoesOn(w, start, within, i)
    ensures within >= 0 ==> n <= within / INTERVAL + 2
    ensures within < 0 ==> n == 1
    ensures Begin(w, start, n - 1) <= start + Max(0, within + INTERVAL)
  {
    if n > 1 {
      assert GoesOn(w, start, within, n - 2);
      BeginsLate(w, start, n - 2);
      CountBound(n - 2, within, INTERVAL);
    } else {
      assert within >= 0 ==> within / INTERVAL >= 0;
    }
  }

  /**
   Makes the attempts 0, 1, … of the world up to the first after which the wait does not go on, `n` in all, and
   answers by that one: success for the first success only, and the end at the first hopeless failure. The wait makes
   at most budget / interval + 2 attempts and ends within the budget, one interval and one attempt.
   */
  method Until(start: int, within: int, w: World) returns (verdict: Verdict, n: nat, end: int)
    ensures n > 0 && (forall i :: 0 <= i < n - 1 ==> GoesOn(w, start, within, i)) && !GoesOn(w, start, within, n - 1)
    ensures verdict == Answer(w, start, within, n - 1)
    ensures End(w, start, n - 1) <= end <= End(w, start, n - 1) + (if verdict.Cancelled? && !w.over(n - 1) then INTERVAL else 0)
    ensures within >= 0 ==> n <= within / INTERVAL + 2
    ensures within < 0 ==> n == 1
    ensures Honoured(w, within) ==> end <= start + Max(0, within + INTERVAL) + PerAttempt(within)
    ensures verdict.TimedOut? ==> start + within < end
  {
    var now, deadline := start, start + within;
    n := 0;
    while true
      invariant now == Begin(w, start, n)
      invariant forall i :: 0 <= i < n ==> GoesOn(w, start, within, i)
      invariant n > 0 ==> now <= deadline + INTERVAL
      decreases deadline + INTERVAL - now
    {
      AttemptsFit(w, start, within, n + 1);
      var outcome := w.outcome(n);
      now := now + w.took(n);
      n := n + 1;
      if outcome.Succeeded? { return Done, n, now; }
      if outcome.Hopeless? { return Stopped, n, now; }
      if w.over(n - 1) { return Cancelled, n, now; }
      if now > deadline { return TimedOut, n, now; }
      match w.woken(n - 1) {
        case Some(after) => return Cancelled, n, now + Min(after, INTERVAL);
        case None => now := now + INTERVAL;
      }
    }
  }

  // ---------- waiting for a guest command's result ----------

  const LONGEST := 600_000_000_000

  predicate Contains(s: string, part: string) {
    exists i :: 0 <= i <= |s| - |part| && PartAt(s, part, i)
  }

  predicate PartAt(s: string, part: string, i: nat)
    requires i <= |s| - |part|
  {
    s[i..i + |part|] == part
  }

  datatype Result = Result(exit: int, stdout: string, stderr: string)

  predicate Matches(r: Result, want: Result) {
    r.exit == want.exit && Contains(r.stdout, want.stdout) && Contains(r.stderr, want.stderr)
  }

  /** What the guest answers to each run of the command, how long that takes, and when the caller's context ends. */
  datatype Guest = Guest(answer: nat -> Option<Result>, took: nat -> nat, over: nat -> bool, woken: nat -> Option<nat>)

  datatype ExecVerdict = Matched | Invalid | DeadlineExceeded

  /** A tenth of a second unless something longer than nothing is asked for. */
  function Retry(millis: int): int { if millis <= 0 then 100_000_000 else millis * 1_000_000 }

  /** Half a minute, likewise. */
  function Timeout(millis: int): int { if millis <= 0 then 30_000_000_000 else millis * 1_000_000 }

  /** When run `i` begins, if none before it matched; each returns by the deadline at the latest. */
  function RunBegin(g: Guest, start: int, retry: int, deadline: int, i: nat): int
    decreases i, 0
  {
    if i == 0 then start else RunEnd(g, start, retry, deadline, i - 1) + retry
  }

  function RunEnd(g: Guest, start: int, retry: int, deadline: int, i: nat): int
    decreases i, 1
  {
    Min(RunBegin(g, start, retry, deadline, i) + g.took(i), deadline)
  }

  /** The answer to run `i` came before the deadline. */
  predicate InTime(g: Guest, start: int, retry: int, deadline: int, i: nat) {
    RunEnd(g, start, retry, deadline, i) < deadline && !g.over(i)
  }

  predicate Fulfils(answer: Option<Result>, want: Result) {
    answer.Some? && Matches(answer.value, want)
  }

  /** Run `i` is followed by another one. */
  predicate RunsOn(g: Guest, start: int, retry: int, deadline: int, want: Result, i: nat) {
    && InTime(g, start, retry, deadline, i) && !Fulfils(g.answer(i), want)
    && g.woken(i).None? && RunEnd(g, start, retry, deadline, i) + retry <= deadline
  }

  lemma {:induction false} RunsLate(g: Guest, start: int, retry: int, deadline: int, want: Result, i: nat)
    requires forall j :: 0 <= j < i ==> RunsOn(g, start, retry, deadline, want, j)
    requires retry > 0 && start <= deadline
    ensures start + i * retry <= RunBegin(g, start, retry, deadline, i) <= deadline
  {
    hide Matches;
    if i > 0 {
      RunsLate(g, start, retry, deadline, want, i - 1);
      assert RunsOn(g, start, retry, deadline, want, i - 1);
      assert i * retry == (i - 1) * retry + retry;
    }
  }

  method Includes(s: string, part: string) returns (found: bool)
    ensures found <==> Contains(s, part)
  {
    for i := 0 to |s| + 1
      invariant forall j :: 0 <= j < i && j <= |s| - |part| ==> !PartAt(s, part, j)
    {
      if i + |part| <= |s| && s[i..i + |part|] == part {
        assert PartAt(s, part, i);
        return true;
      }
    }
    found := false;
  }

  /** The comparison of one run's result with the expected one. */
  method Expected(answer: Option<Result>, want: Result) returns (ok: bool)
    ensures ok <==> Fulfils(answer, want)
  {
    if answer.None? { return false; }
    var out := Includes(answer.value.stdout, want.stdout);
    var err := Includes(answer.value.stderr, want.stderr);
    ok := answer.value.exit == want.exit && out && err;
  }

  /**
   Runs the command 0, 1, … up to the first run after which the wait does not go on, `n` in all. It succeeds exactly
   when that run was answered in time with the expected result; a result that comes with the deadline is not looked at.
   */
  method WaitExec(start: int, retryMillis: int, timeoutMillis: int, want: Result, g: Guest)
    returns (verdict: ExecVerdict, n: nat, end: int)
    ensures verdict.Invalid? <==> Timeout(timeoutMillis) > LONGEST
    ensures verdict.Invalid? ==> n == 0 && end == start
    ensures var retry, deadline := Retry(retryMillis), start + Timeout(timeoutMillis);
      !verdict.Invalid? ==>
        && n > 0 && (forall i :: 0 <= i < n - 1 ==> RunsOn(g, start, retry, deadline, want, i))
        && !RunsOn(g, start, retry, deadline, want, n - 1)
        && (verdict.Matched? <==> InTime(g, start, retry, deadline, n - 1) && Fulfils(g.answer(n - 1), want))
        && RunEnd(g, start, retry, deadline, n - 1) <= end <= deadline
        && (verdict.Matched? ==> end < deadline)
    ensures n <= Timeout(timeoutMillis) / Retry(retryMillis) + 1
  {
    hide Fulfils;
    var retry, timeout := retryMillis * 1_000_000, timeoutMillis * 1_000_000;
    if retry <= 0 { retry := SECOND / 10; }
    if timeout <= 0 { timeout := 30 * SECOND; }
    var now, deadline := start, start + timeout;
    n := 0;
    CountBound(0, timeout, retry);
    if timeout > 10 * 60 * SECOND { return Invalid, 0, start; }
    while true
      invariant now == RunBegin(g, start, retry, deadline, n) && start <= now <= deadline
      invariant forall i :: 0 <= i < n ==> RunsOn(g, start, retry, deadline, want, i)
      decreases deadline - now
    {
      RunsLate(g, start, retry, deadline, want, n);
      CountBound(n, timeout, retry);
      var answer := g.answer(n);
      now := Min(now + g.took(n), deadline);
      n := n + 1;
      if now == deadline || g.over(n - 1) { return DeadlineExceeded, n, now; }
      var expected := Expected(answer, want);
      if expected { return Matched, n, now; }
      match g.woken(n - 1) {
        case Some(after) => return DeadlineExceeded, n, Min(now + Min(after, retry), deadline);
        case None =>
      }
      if now + retry > deadline { return DeadlineExceeded, n, deadline; }
      now := now + retry;
    }
  }
}
