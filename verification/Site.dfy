/** The order in which a k0s site is built (pkg/kubernetes/k0s/site.go). */
module Site {

  const CONTROLLER := "controller"
  const WORKER := "worker"

  datatype Member = Member(role: string, config: bool)

  /** A k0s unit file on a member's disk. */
  datatype Unit = Unit(member: nat, role: string)

  datatype Step =
    | Carry(member: nat, done: bool)                 // the binary is put in place
    | Verify(member: nat, exact: bool)               // a version was reported: exactly the one that was carried, or not
    | Probe(member: nat, role: string, found: bool, there: bool)  // asked for a unit file: the answer and the truth
    | Mint(member: nat, role: string)                // a join token for the member, on the first controller
    | Token(member: nat)                             // the token was put in place
    | Install(member: nat)
    | Start(member: nat)
    | Serve(member: nat)                             // a readiness probe succeeded

  /** Controller `c` served after the last start: of itself, or with `any`, of any member. */
  ghost predicate Serving(past: seq<Step>, c: nat, any: bool) {
    past != [] &&
    var last := past[|past| - 1];
    last == Serve(c) || (!(last.Start? && (any || last.member == c)) && Serving(past[..|past| - 1], c, any))
  }

  /** What Serving means: some readiness probe succeeded, and no such start came after it. */
  lemma {:induction false} ServingIff(past: seq<Step>, c: nat, any: bool)
    ensures Serving(past, c, any) <==>
      exists j :: 0 <= j < |past| && past[j] == Serve(c) &&
        forall k :: j < k < |past| ==> !(past[k].Start? && (any || past[k].member == c))
  {
    if past != [] {
      var front, last := past[..|past| - 1], past[|past| - 1];
      ServingIff(front, c, any);
      if last == Serve(c) {
        assert past[|past| - 1] == Serve(c);
      } else if Serving(past, c, any) {
        var j :| 0 <= j < |front| && front[j] == Serve(c) &&
          forall k :: j < k < |front| ==> !(front[k].Start? && (any || front[k].member == c));
        assert past[j] == Serve(c);
        forall k | j < k < |past| ensures !(past[k].Start? && (any || past[k].member == c)) {
          if k < |front| { assert past[k] == front[k]; }
        }
      }
    }
  }

  /** Every member carries the binary and reported the version. */
  ghost predicate AllVerified(members: seq<Member>, past: seq<Step>) {
    forall m :: 0 <= m < |members| ==> Carry(m, true) in past && Verify(m, true) in past
  }

  /** Member `m` may be touched: the site is verified, and the earlier members are started, their controllers serving. */
  ghost predicate MayTouch(members: seq<Member>, past: seq<Step>, m: nat) {
    && m < |members| && AllVerified(members, past)
    && forall c :: 0 <= c < m ==> Start(c) in past && (members[c].role == CONTROLLER ==> Serving(past, c, false))
  }

  /** The last two steps asked the member for its unit files, and both answers were no, or did not come. */
  ghost predicate Denied(past: seq<Step>, m: nat) {
    var n := |past|;
    n >= 2 && IsDenial(past[n - 2], m, CONTROLLER) && IsDenial(past[n - 1], m, WORKER)
  }

  predicate IsDenial(step: Step, m: nat, role: string) {
    step.Probe? && step.member == m && step.role == role && !step.found
  }

  /** Every answer about a unit file was true. */
  ghost predicate Truthful(log: seq<Step>) {
    forall s :: s in log && s.Probe? ==> s.found == s.there
  }

  ghost predicate Allowed(members: seq<Member>, past: seq<Step>, step: Step) {
    match step
    case Carry(m, _) => m < |members| && members[m].config == (members[m].role == CONTROLLER)
    case Verify(_, exact) => exact && forall i :: 0 <= i < |members| ==> Carry(i, true) in past
    case Probe(m, _, _, _) => MayTouch(members, past, m)
    case Mint(m, role) =>
      && MayTouch(members, past, m) && m > 0 && role == members[m].role && Serving(past, 0, true)
      && past != [] && past[|past| - 1] == Serve(0) && Denied(past[..|past| - 1], m)
    case Token(m) =>
      MayTouch(members, past, m) && past != [] && past[|past| - 1] == Mint(m, members[m].role)
    case Install(m) =>
      && MayTouch(members, past, m) && Denied(past, m)
      && (m > 0 ==> |past| >= 3 && past[|past| - 3] == Token(m))
    case Start(m) => MayTouch(members, past, m)
    case Serve(m) => Start(m) in past
  }

  /** Every step of the log was allowed by the steps before it. */
  ghost predicate Orderly(members: seq<Member>, log: seq<Step>) {
    forall k :: 0 <= k < |log| ==> AllowedAt(members, log, k)
  }

  ghost predicate AllowedAt(members: seq<Member>, log: seq<Step>, k: nat)
    requires k < |log|
  {
    Allowed(members, log[..k], log[k])
  }

  lemma OneMore(members: seq<Member>, log: seq<Step>, step: Step)
    requires Orderly(members, log) && Allowed(members, log, step)
    ensures Orderly(members, log + [step])
  {
    hide Allowed;
    var more := log + [step];
    forall k | 0 <= k < |more| ensures AllowedAt(members, more, k) {
      if k < |log| {
        assert AllowedAt(members, log, k);
        assert more[..k] == log[..k];
      } else {
        assert more[..k] == log;
      }
    }
  }

  /** What was seen stays seen; a start takes away only what it says. */
  lemma StillTrue(members: seq<Member>, log: seq<Step>, step: Step)
    ensures forall s :: s in log ==> s in log + [step]
    ensures step in log + [step]
    ensures AllVerified(members, log) ==> AllVerified(members, log + [step])
    ensures forall m :: MayTouch(members, log, m) && (step.Start? ==> step.member >= m) ==> MayTouch(members, log + [step], m)
    ensures forall c, any :: Serving(log, c, any) && !step.Start? ==> Serving(log + [step], c, any)
    ensures forall c, any :: step == Serve(c) ==> Serving(log + [step], c, any)
    ensures forall c :: Serving(log, c, false) && step.Start? && step.member != c ==> Serving(log + [step], c, false)
  {
    assert (log + [step])[..|log|] == log;
  }

  // ---------- what an orderly build promises ----------

  predicate Touches(step: Step, m: nat) {
    (step.Probe? || step.Mint? || step.Token? || step.Install? || step.Start?) && step.member == m
  }

  /** Nothing is asked, installed or started anywhere before the whole site carried and verified the binary. */
  lemma NothingBeforeVerified(members: seq<Member>, log: seq<Step>, k: nat, m: nat)
    requires Orderly(members, log) && k < |log| && Touches(log[k], m)
    ensures forall i :: 0 <= i < |members| ==> Carry(i, true) in log[..k] && Verify(i, true) in log[..k]
  {
    hide Serving;
    assert AllowedAt(members, log, k);
  }

  /** A join token is minted only while the first controller is known to serve since the latest start anywhere. */
  lemma TokensAreFresh(members: seq<Member>, log: seq<Step>, k: nat)
    requires Orderly(members, log) && k < |log| && log[k].Mint?
    ensures exists j :: 0 <= j < k && log[j] == Serve(0) && forall i :: j < i < k ==> !log[i].Start?
  {
    assert AllowedAt(members, log, k);
    ServingIff(log[..k], 0, true);
    var j :| 0 <= j < k && log[..k][j] == Serve(0) && forall i :: j < i < k ==> !log[..k][i].Start?;
    assert log[j] == Serve(0);
    forall i | j < i < k ensures !log[i].Start? { assert log[..k][i] == log[i]; }
  }

  /** Before a later member is touched, every earlier controller served after its own latest start. */
  lemma JoinsAreSerial(members: seq<Member>, log: seq<Step>, k: nat, c: nat, m: nat)
    requires Orderly(members, log) && k < |log| && Touches(log[k], m) && c < m
    ensures m < |members| && Start(c) in log[..k]
    ensures members[c].role == CONTROLLER ==>
      exists j :: 0 <= j < k && log[j] == Serve(c) && forall i :: j < i < k ==> log[i] != Start(c)
  {
    assert AllowedAt(members, log, k);
    if members[c].role == CONTROLLER {
      ServingIff(log[..k], c, false);
      var j :| 0 <= j < k && log[..k][j] == Serve(c) &&
        forall i :: j < i < k ==> !(log[..k][i].Start? && log[..k][i].member == c);
      assert log[j] == Serve(c);
      forall i | j < i < k ensures log[i] != Start(c) { assert log[..k][i] == log[i]; }
    }
  }

  /**
   Whatever is installed was denied right before, and a joiner also right before its token was minted: each check of
   the member was answered no for both files. A file that was there all along was denied untruthfully.
   */
  lemma InstalledWasDenied(members: seq<Member>, log: seq<Step>, k: nat, m: nat, role: string)
    requires Orderly(members, log) && k < |log| && log[k] == Install(m) && role in {CONTROLLER, WORKER}
    ensures Denied(log[..k], m)
    ensures m > 0 ==>
      && m < |members| && k >= 5 && Denied(log[..k - 5], m)
      && log[k - 4] == Mint(m, members[m].role) && log[k - 3] == Token(m)
    ensures (forall s :: s in log[..k] && s.Probe? && s.member == m && s.role == role ==> s.there) ==> !Truthful(log)
  {
    hide Serving;
    assert AllowedAt(members, log, k);
    if m > 0 {
      assert log[..k][k - 3] == log[k - 3] == Token(m);
      assert AllowedAt(members, log, k - 3);
      assert log[..k - 3][k - 4] == log[k - 4];
      assert AllowedAt(members, log, k - 4);
      assert log[..k - 4][..k - 5] == log[..k - 5];
    }
    var denial := log[if role == WORKER then k - 1 else k - 2];
    assert IsDenial(denial, m, role) && denial in log[..k] && denial in log;
  }

  // ---------- the build ----------

  /**
   What the members answer when asked for a unit file: by member, role, and whether it is the check right before the
   installation or the one that a joiner is asked before its token. A question that is not answered counts as no.
   */
  type Answers = (nat, string, bool) -> bool

  /** Every check of the member is answered no for both files. */
  predicate Denies(answers: Answers, m: nat) {
    && !answers(m, CONTROLLER, true) && !answers(m, WORKER, true)
    && (m > 0 ==> !answers(m, CONTROLLER, false) && !answers(m, WORKER, false))
  }

  /** The check that a member is asked first is answered no for both files. */
  predicate DeniedFirst(answers: Answers, m: nat) {
    !answers(m, CONTROLLER, m == 0) && !answers(m, WORKER, m == 0)
  }

  /** What is answered about the files of the first `n` members is so. */
  predicate Honest(answers: Answers, units: set<Unit>, n: nat) {
    forall m: nat, last :: m < n ==>
      && answers(m, CONTROLLER, last) == (Unit(m, CONTROLLER) in units)
      && answers(m, WORKER, last) == (Unit(m, WORKER) in units)
  }

  /** At some point of the log the member had just been denied both files. */
  ghost predicate WasDenied(log: seq<Step>, m: nat) {
    exists k :: 0 <= k <= |log| && Denied(log[..k], m)
  }

  predicate WellFormed(members: seq<Member>) {
    && members != [] && members[0].role == CONTROLLER
    && forall m :: 0 <= m < |members| ==> members[m].config == (members[m].role == CONTROLLER)
  }

  predicate Owns(units: set<Unit>, m: nat) {
    Unit(m, CONTROLLER) in units || Unit(m, WORKER) in units
  }

  /** What the log of a build of a site with the unit files `was` says, at any point. */
  ghost predicate Explained(log: seq<Step>, answers: Answers, was: set<Unit>) {
    && (forall m: nat :: Install(m) in log ==> Denies(answers, m))
    && (forall s :: s in log && s.Probe? ==> IsProbe(s, s.member, was, answers))
    && (Truthful(log) ==> forall m: nat :: Install(m) in log ==> !Owns(was, m))
  }

  /** The first `n` members are built, and the others are as they were. */
  ghost predicate JoinedIn(members: seq<Member>, log: seq<Step>, units: set<Unit>, n: nat, answers: Answers,
                           was: set<Unit>) {
    && n <= |members| && AllVerified(members, log)
    && (forall i: nat :: Install(i) in log ==> i < n)
    && (forall i: nat :: i < n ==> (Install(i) in log <==> Denies(answers, i)))
    && (forall i: nat, role :: n <= i ==> (Unit(i, role) in units <==> Unit(i, role) in was))
    && (forall i: nat :: i < n ==> Start(i) in log && (members[i].role == CONTROLLER ==> Serving(log, i, false)))
    && (Truthful(log) && KnownRoles(members) ==> forall i: nat :: i < n ==> Owns(units, i))
    && (forall i: nat :: i < n && DeniedFirst(answers, i) ==> WasDenied(log, i))
  }

  /** A probe of the member: its answer is one of the given ones, and what it says about the file is so. */
  predicate IsProbe(s: Step, m: nat, units: set<Unit>, answers: Answers) {
    && s.Probe? && s.member == m && s.role in {CONTROLLER, WORKER}
    && s.there == (Unit(m, s.role) in units)
    && (s.found == answers(m, s.role, false) || s.found == answers(m, s.role, true))
  }

  lemma StaysDenied(before: seq<Step>, log: seq<Step>, m: nat)
    requires before <= log && WasDenied(before, m)
    ensures WasDenied(log, m)
  {
    var k :| 0 <= k <= |before| && Denied(before[..k], m);
    assert log[..k] == before[..k];
  }

  lemma DeniedNow(log: seq<Step>, m: nat)
    requires Denied(log, m)
    ensures WasDenied(log, m)
  {
    assert log[..|log|] == log;
  }

  /** Honest answers make a truthful log. */
  lemma HonestIsTruthful(members: seq<Member>, log: seq<Step>, answers: Answers, was: set<Unit>)
    requires Orderly(members, log) && Explained(log, answers, was) && Honest(answers, was, |members|)
    ensures Truthful(log)
  {
    hide Serving, Denies;
    forall s | s in log && s.Probe? ensures s.found == s.there {
      var k :| 0 <= k < |log| && log[k] == s;
      assert AllowedAt(members, log, k);
      assert IsProbe(s, s.member, was, answers);
    }
  }

  /** What building a member adds to the log besides its probes. */
  predicate JoinStep(s: Step, m: nat) {
    s == Serve(0) || (s.Mint? && s.member == m) || s == Token(m) || s == Install(m) || s == Start(m)
  }

  /** Every step that is new in the log belongs to joining the member. */
  ghost predicate OnlyJoins(before: seq<Step>, log: seq<Step>, m: nat, had: set<Unit>, answers: Answers) {
    forall s :: s in log ==> s in before || JoinStep(s, m) || IsProbe(s, m, had, answers)
  }

  ghost predicate OnlyProbes(before: seq<Step>, log: seq<Step>, m: nat, had: set<Unit>, answers: Answers) {
    forall s :: s in log ==> s in before || IsProbe(s, m, had, answers)
  }

  ghost predicate OnlyInstalls(before: seq<Step>, log: seq<Step>, m: nat, had: set<Unit>, answers: Answers) {
    forall s :: s in log ==> s in before || s == Start(m) || s == Install(m) || IsProbe(s, m, had, answers)
  }

  ghost predicate OnlyMints(before: seq<Step>, log: seq<Step>, m: nat, role: string) {
    forall s :: s in log ==> s in before || s == Mint(m, role) || s == Token(m)
  }

  lemma PartsJoin(before: seq<Step>, log: seq<Step>, m: nat, role: string, had: set<Unit>, answers: Answers)
    ensures OnlyProbes(before, log, m, had, answers) ==> OnlyJoins(before, log, m, had, answers)
    ensures OnlyInstalls(before, log, m, had, answers) ==> OnlyJoins(before, log, m, had, answers)
    ensures OnlyMints(before, log, m, role) ==> OnlyJoins(before, log, m, had, answers)
    ensures log == before || log == before + [Serve(0)] || log == before + [Start(m)] ==> OnlyJoins(before, log, m, had, answers)
  {
    hide IsProbe;
  }

  lemma OnlyJoinsOn(a: seq<Step>, b: seq<Step>, c: seq<Step>, m: nat, had: set<Unit>, answers: Answers)
    requires OnlyJoins(a, b, m, had, answers) && OnlyJoins(b, c, m, had, answers)
    ensures OnlyJoins(a, c, m, had, answers)
  {
  }

  /** What building member `m` does to the log and the unit files. */
  ghost predicate Added(members: seq<Member>, before: seq<Step>, had: set<Unit>, log: seq<Step>, units: set<Unit>,
                        m: nat, answers: Answers)
  {
    && m < |members| && before <= log && OnlyJoins(before, log, m, had, answers)
    && had <= units <= had + {Unit(m, members[m].role)}
    && (Install(m) in log && Install(m) !in before ==> Denies(answers, m) && (Truthful(log) ==> !Owns(had, m)))
    && (forall c :: c != m && Serving(before, c, false) ==> Serving(log, c, false))
  }

  lemma TruthfulBefore(before: seq<Step>, log: seq<Step>)
    requires before <= log && Truthful(log)
    ensures Truthful(before)
  {
    forall s | s in before ensures s in log { }
  }

  lemma NoneJoined(members: seq<Member>, log: seq<Step>, units: set<Unit>, answers: Answers)
    requires forall s :: s in log ==> s.Carry? || s.Verify?
    ensures Explained(log, answers, units)
    ensures AllVerified(members, log) ==> JoinedIn(members, log, units, 0, answers, units)
  {
  }

  lemma AddedExplains(members: seq<Member>, before: seq<Step>, had: set<Unit>, log: seq<Step>, units: set<Unit>,
                      m: nat, answers: Answers, was: set<Unit>)
    requires Added(members, before, had, log, units, m, answers) && Explained(before, answers, was)
    requires forall role :: Unit(m, role) in had <==> Unit(m, role) in was
    ensures Explained(log, answers, was) && had <= units
  {
    hide Denies, Serving;
    if Truthful(log) { TruthfulBefore(before, log); }
  }

  lemma ServedExplains(before: seq<Step>, log: seq<Step>, c: nat, answers: Answers, was: set<Unit>)
    requires Explained(before, answers, was) && (log == before || log == before + [Serve(c)])
    ensures Explained(log, answers, was)
  {
    hide Denies;
    if Truthful(log) { TruthfulBefore(before, log); }
  }

  /** Built, and serving if it is a controller: one more member is joined. */
  lemma AddedJoins(members: seq<Member>, before: seq<Step>, had: set<Unit>, added: seq<Step>, units: set<Unit>,
                   log: seq<Step>,
                   m: nat, answers: Answers, was: set<Unit>)
    requires JoinedIn(members, before, had, m, answers, was) && Added(members, before, had, added, units, m, answers)
    requires log == added || log == added + [Serve(m)]
    requires Denies(answers, m) ==> Install(m) in added
    requires Start(m) in added
    requires members[m].role == CONTROLLER ==> Serving(log, m, false)
    requires forall c :: Serving(added, c, false) ==> Serving(log, c, false)
    requires Truthful(added) && members[m].role in {CONTROLLER, WORKER} ==> Owns(units, m)
    requires DeniedFirst(answers, m) ==> WasDenied(added, m)
    ensures JoinedIn(members, log, units, m + 1, answers, was)
  {
    hide Denies, Serving;
    forall s | s in added ensures s in log { }
    forall s | s in before ensures s in log { }
    assert AllVerified(members, log);
    hide WasDenied, DeniedFirst;
    forall i: nat | i < m + 1 && DeniedFirst(answers, i) ensures WasDenied(log, i) {
      if i < m { StaysDenied(before, log, i); } else { StaysDenied(added, log, i); }
    }
    if Truthful(log) && KnownRoles(members) {
      TruthfulBefore(added, log);
      TruthfulBefore(before, log);
      forall i: nat | i < m + 1 ensures Owns(units, i) {
        if i < m { assert Owns(had, i); } else { assert members[i].role in {CONTROLLER, WORKER}; }
      }
    }
  }

  /** One site. Commands fail at will while `faulty`, apart from the answers about unit files. */
  class Build {
    const members: seq<Member>
    const version: string
    const faulty: bool
    var units: set<Unit>
    ghost var log: seq<Step>

    constructor (members: seq<Member>, version: string, faulty: bool, units: set<Unit>)
      ensures this.members == members && this.version == version && this.faulty == faulty
      ensures this.units == units && log == []
    {
      this.members, this.version, this.faulty, this.units, log := members, version, faulty, units, [];
    }

    ghost predicate HasUnit(m: nat)
      reads `units
    {
      Owns(units, m)
    }

    ghost method Note(step: Step)
      requires Orderly(members, log) && Allowed(members, log, step)
      modifies this`log
      ensures log == old(log) + [step] && Orderly(members, log)
    {
      OneMore(members, log, step);
      log := log + [step];
    }

    method Command() returns (ok: bool)
      ensures !faulty ==> ok
    {
      var luck: bool := *;
      ok := !faulty || luck;
    }

    /**
     Builds the site. The log keeps the order that Orderly demands. A member is installed only when each of its
     checks was answered no for both files, whatever files it has, and in a build that succeeds exactly then.
     */
    method Run(answers: Answers) returns (ok: bool)
      modifies this
      ensures Orderly(members, log)
      ensures forall m: nat :: Install(m) in log ==> Denies(answers, m)
      ensures ok ==> forall m: nat :: m < |members| ==> (Install(m) in log <==> Denies(answers, m))
      ensures !faulty && WellFormed(members) ==> ok
      // What the log says about the files is so: they are as they were before the build.
      ensures forall s :: s in log && s.Probe? ==> IsProbe(s, s.member, old(units), answers)
      ensures Honest(answers, old(units), |members|) ==> Truthful(log)
      ensures ok ==> forall m: nat :: m < |members| && DeniedFirst(answers, m) ==> WasDenied(log, m)
      ensures old(units) <= units
      ensures Truthful(log) ==> forall m: nat :: Install(m) in log ==> !old(HasUnit(m))
      ensures ok ==> members != [] && members[0].role == CONTROLLER
      ensures ok ==> forall m :: 0 <= m < |members| ==>
        && Carry(m, true) in log && Verify(m, true) in log && Start(m) in log
        && (members[m].role == CONTROLLER ==> Serving(log, m, false))
      ensures ok && Truthful(log) && KnownRoles(members) ==> forall m :: 0 <= m < |members| ==> HasUnit(m)
    {
      hide Joined, Denies;
      log := [];
      ghost var was := units;
      NothingYet(answers, was);
      Told(answers, was);
      if members == [] || members[0].role != CONTROLLER { return false; }
      ok := BuildFirst(answers, was);
      Told(answers, was);
      if !ok { return; }
      for m := 1 to |members|
        invariant Sofar(answers, was) && Joined(m, answers, was)
        invariant Honest(answers, was, |members|) ==> Truthful(log)
      {
        ok := JoinNext(m, answers, was);
        Told(answers, was);
        if !ok { return; }
      }
      ok := true;
      AllJoined(answers, was);
    }

    ghost predicate Sofar(answers: Answers, was: set<Unit>)
      reads this
    {
      Orderly(members, log) && was <= units && Explained(log, answers, was)
    }

    ghost predicate Joined(n: nat, answers: Answers, was: set<Unit>)
      reads this
    {
      JoinedIn(members, log, units, n, answers, was)
    }

    lemma NothingYet(answers: Answers, was: set<Unit>)
      requires log == [] && units == was
      ensures Sofar(answers, was)
    {
    }

    lemma Told(answers: Answers, was: set<Unit>)
      requires Sofar(answers, was)
      ensures Honest(answers, was, |members|) ==> Truthful(log)
    {
      if Honest(answers, was, |members|) { HonestIsTruthful(members, log, answers, was); }
    }

    lemma AllJoined(answers: Answers, was: set<Unit>)
      requires Joined(|members|, answers, was)
      ensures forall m: nat :: m < |members| ==> (Install(m) in log <==> Denies(answers, m))
      ensures forall m :: 0 <= m < |members| ==>
        && Carry(m, true) in log && Verify(m, true) in log && Start(m) in log
        && (members[m].role == CONTROLLER ==> Serving(log, m, false))
      ensures Truthful(log) && KnownRoles(members) ==> forall m :: 0 <= m < |members| ==> HasUnit(m)
      ensures forall m: nat :: m < |members| && DeniedFirst(answers, m) ==> WasDenied(log, m)
    {
      hide Serving, Denies, WasDenied, DeniedFirst;
    }

    /** The first controller, up to serving. */
    method BuildFirst(answers: Answers, ghost was: set<Unit>) returns (ok: bool)
      requires log == [] && units == was && members != [] && members[0].role == CONTROLLER
      modifies this
      ensures Sofar(answers, was)
      ensures ok ==> Joined(1, answers, was)
      ensures !faulty && WellFormed(members) ==> ok
    {
      hide Allowed, Serving, Denies, WellFormed, Explained, JoinedIn;
      DeniesFirst(answers);
      ok := CarryAndVerify();
      ghost var verified := log;
      NoneJoined(members, log, units, answers);
      if !ok { return; }
      ok := InstallMember(0, answers);
      ghost var added := log;
      AddedExplains(members, verified, was, log, units, 0, answers, was);
      if !ok { return; }
      ok := WaitReady(0);
      ServedExplains(added, log, 0, answers, was);
      if ok { AddedJoins(members, verified, was, added, units, log, 0, answers, was); }
    }

    /** The next member, and its own readiness when it is a controller. */
    method JoinNext(m: nat, answers: Answers, ghost was: set<Unit>) returns (ok: bool)
      requires Sofar(answers, was) && Joined(m, answers, was) && 0 < m < |members|
      modifies this
      ensures Sofar(answers, was)
      ensures ok ==> Joined(m + 1, answers, was)
      ensures !faulty ==> ok
    {
      hide Allowed, Serving, Denies, Explained, Added;
      ghost var before, had := log, units;
      ok := Join(m, answers);
      ghost var added := log;
      AddedExplains(members, before, had, log, units, m, answers, was);
      if !ok { return; }
      if members[m].role == CONTROLLER { ok := WaitReady(m); }
      ServedExplains(added, log, m, answers, was);
      if ok { AddedJoins(members, before, had, added, units, log, m, answers, was); }
    }

    lemma DeniesFirst(answers: Answers)
      ensures Denies(answers, 0) <==> !answers(0, CONTROLLER, true) && !answers(0, WORKER, true)
    {
    }

    method CarryAndVerify() returns (ok: bool)
      requires log == []
      modifies this`log
      ensures Orderly(members, log)
      ensures forall s :: s in log ==> s.Carry? || s.Verify?
      ensures ok ==> AllVerified(members, log)
      ensures !faulty && WellFormed(members) ==> ok
    {
      for m := 0 to |members|
        invariant Orderly(members, log) && forall s :: s in log ==> s.Carry?
        invariant forall i :: 0 <= i < m ==> Carry(i, true) in log
      {
        if (members[m].role == CONTROLLER) != members[m].config { return false; }
        var carried := Command();
        Note(Carry(m, carried));
        if !carried { return false; }
      }
      for m := 0 to |members|
        invariant Orderly(members, log) && forall s :: s in log ==> s.Carry? || s.Verify?
        invariant forall i :: 0 <= i < |members| ==> Carry(i, true) in log
        invariant forall i :: 0 <= i < m ==> Verify(i, true) in log
      {
        var reported := ReportVersion();
        if reported != version { return false; }
        Note(Verify(m, reported == version));
      }
      ok := true;
    }

    /** What `k0s version` prints; without faults, the version that was carried. */
    method ReportVersion() returns (reported: string)
      ensures !faulty ==> reported == version
    {
      reported := *;
      if !faulty { reported := version; }
    }

    /** Asks for both unit files, the worker's only when there is no controller's. */
    method Installed(m: nat, last: bool, answers: Answers) returns (found: bool)
      requires Orderly(members, log) && MayTouch(members, log, m)
      modifies this`log
      ensures Orderly(members, log) && MayTouch(members, log, m) && old(log) <= log
      ensures OnlyProbes(old(log), log, m, units, answers)
      ensures forall c, any :: old(Serving(log, c, any)) ==> Serving(log, c, any)
      ensures found == (answers(m, CONTROLLER, last) || answers(m, WORKER, last))
      ensures Truthful(log) ==> Truthful(old(log)) && found == HasUnit(m)
      ensures !found ==> Denied(log, m) && |log| == |old(log)| + 2 && log[..|log| - 2] == old(log)
    {
      hide Serving;
      found := answers(m, CONTROLLER, last);
      ghost var asked := Probe(m, CONTROLLER, found, Unit(m, CONTROLLER) in units);
      StillTrue(members, log, asked);
      Note(asked);
      if found { return; }
      found := answers(m, WORKER, last);
      asked := Probe(m, WORKER, found, Unit(m, WORKER) in units);
      StillTrue(members, log, asked);
      Note(asked);
    }

    /** Any number of readiness probes, up to the first that succeeds. */
    method WaitReady(c: nat) returns (ok: bool)
      requires Orderly(members, log) && Start(c) in log
      modifies this`log
      ensures Orderly(members, log)
      ensures log == if ok then old(log) + [Serve(c)] else old(log)
      ensures AllVerified(members, old(log)) ==> AllVerified(members, log)
      ensures forall m :: MayTouch(members, old(log), m) ==> MayTouch(members, log, m)
      ensures forall b, any :: old(Serving(log, b, any)) ==> Serving(log, b, any)
      ensures ok ==> forall any :: Serving(log, c, any)
      ensures !faulty ==> ok
    {
      hide Serving;
      ok := Command();
      if ok {
        StillTrue(members, log, Serve(c));
        Note(Serve(c));
      }
    }

    method StartMember(m: nat) returns (ok: bool)
      requires Orderly(members, log) && MayTouch(members, log, m)
      modifies this`log
      ensures Orderly(members, log) && MayTouch(members, log, m) && log == old(log) + [Start(m)]
      ensures forall c :: c != m && old(Serving(log, c, false)) ==> Serving(log, c, false)
      ensures !faulty ==> ok
    {
      hide Serving;
      ok := Command();
      // Whether or not it reports success, the member may have been started.
      StillTrue(members, log, Start(m));
      Note(Start(m));
    }

    /** Installs the service unless it exists, and starts it. A joiner comes here with its token. */
    method InstallMember(m: nat, answers: Answers) returns (ok: bool)
      requires Orderly(members, log) && MayTouch(members, log, m)
      requires m > 0 ==> log != [] && log[|log| - 1] == Token(m)
      modifies this
      ensures Orderly(members, log) && MayTouch(members, log, m) && old(log) <= log
      ensures OnlyInstalls(old(log), log, m, old(units), answers)
      ensures forall c :: c != m && old(Serving(log, c, false)) ==> Serving(log, c, false)
      ensures old(units) <= units <= old(units) + {Unit(m, members[m].role)}
      ensures var denied := !answers(m, CONTROLLER, true) && !answers(m, WORKER, true);
        && (Install(m) in log && Install(m) !in old(log) ==> denied && (Truthful(log) ==> !old(HasUnit(m))))
        && (ok && denied ==> Install(m) in log)
        && (ok && denied ==> WasDenied(log, m))
      ensures ok ==> Start(m) in log
      ensures ok && Truthful(log) && members[m].role in {CONTROLLER, WORKER} ==> HasUnit(m)
      ensures !faulty ==> ok
    {
      hide Serving, Denied, MayTouch, Allowed;
      ghost var before := log;
      var found := Installed(m, true, answers);
      ghost var checked := log;
      assert OnlyInstalls(before, checked, m, units, answers);
      if !found {
        DeniedNow(checked, m);
        assert m > 0 ==> checked[|checked| - 3] == before[|before| - 1];
        ok := PutService(m);
        if !ok { return; }
      }
      ok := StartMember(m);
      if !found { StaysDenied(checked, log, m); }
    }

    /** Writes the configuration and installs the service; a failed installation may have written the unit file. */
    method PutService(m: nat) returns (ok: bool)
      requires Orderly(members, log) && MayTouch(members, log, m) && Denied(log, m)
      requires m > 0 ==> |log| >= 3 && log[|log| - 3] == Token(m)
      modifies this
      ensures Orderly(members, log) && MayTouch(members, log, m)
      ensures log == old(log) || log == old(log) + [Install(m)]
      ensures forall c :: old(Serving(log, c, false)) ==> Serving(log, c, false)
      ensures old(units) <= units <= old(units) + {Unit(m, members[m].role)}
      ensures ok ==> log != old(log) && Unit(m, members[m].role) in units
      ensures !faulty ==> ok
    {
      hide Serving, Denied;
      var configured := Command();
      if members[m].config && !configured { return false; }
      StillTrue(members, log, Install(m));
      Note(Install(m));
      ok := Command();
      var written: bool := *;
      if ok || written { units := units + {Unit(m, members[m].role)}; }
    }

    /** Starts an installed member; otherwise mints a token where the site is still serving, and installs it. */
    method Join(m: nat, answers: Answers) returns (ok: bool)
      requires Orderly(members, log) && MayTouch(members, log, m) && m > 0
      modifies this
      ensures Orderly(members, log) && MayTouch(members, log, m)
      ensures Added(members, old(log), old(units), log, units, m, answers)
      ensures ok && Denies(answers, m) ==> Install(m) in log
      ensures DeniedFirst(answers, m) ==> WasDenied(log, m)
      ensures ok ==> Start(m) in log
      ensures ok && Truthful(log) && members[m].role in {CONTROLLER, WORKER} ==> HasUnit(m)
      ensures !faulty ==> ok
    {
      assert Start(0) in log && m < |members|;
      hide Serving, Allowed, MayTouch, Orderly, Denied, WasDenied, OnlyJoins, OnlyProbes, OnlyInstalls, OnlyMints, IsProbe;
      ghost var before, had, role := log, units, members[m].role;
      var found := Installed(m, false, answers);
      ghost var checked := log;
      PartsJoin(before, checked, m, role, had, answers);
      if found {
        ok := StartMember(m);
        PartsJoin(checked, log, m, role, had, answers);
        OnlyJoinsOn(before, checked, log, m, had, answers);
        return;
      }
      DeniedNow(checked, m);
      ok := AdmitMember(m);
      ghost var ready := log;
      PartsJoin(checked, ready, m, role, had, answers);
      OnlyJoinsOn(before, checked, ready, m, had, answers);
      if ok {
        ok := InstallMember(m, answers);
        PartsJoin(ready, log, m, role, had, answers);
        OnlyJoinsOn(before, ready, log, m, had, answers);
      }
      StaysDenied(checked, log, m);
    }

    /** The first controller, once it is seen to serve, mints a token for the member, which gets it. */
    method AdmitMember(m: nat) returns (ok: bool)
      requires Orderly(members, log) && MayTouch(members, log, m) && m > 0 && Denied(log, m)
      modifies this`log
      ensures Orderly(members, log) && MayTouch(members, log, m) && old(log) <= log
      ensures forall s :: s in log ==> s in old(log) || s == Serve(0) || s == Mint(m, members[m].role) || s == Token(m)
      ensures forall answers :: OnlyJoins(old(log), log, m, units, answers)
      ensures forall c :: old(Serving(log, c, false)) ==> Serving(log, c, false)
      ensures ok ==> log[|log| - 1] == Token(m)
      ensures !faulty ==> ok
    {
      hide Serving, Denied, IsProbe;
      ok := WaitReady(0);
      if !ok { return; }
      assert log[..|log| - 1] == old(log);
      ok := MintToken(m);
    }

    method MintToken(m: nat) returns (ok: bool)
      requires Orderly(members, log) && MayTouch(members, log, m) && m > 0
      requires Serving(log, 0, true) && log != [] && log[|log| - 1] == Serve(0) && Denied(log[..|log| - 1], m)
      modifies this`log
      ensures Orderly(members, log) && MayTouch(members, log, m) && old(log) <= log
      ensures OnlyMints(old(log), log, m, members[m].role)
      ensures forall c :: old(Serving(log, c, false)) ==> Serving(log, c, false)
      ensures ok ==> log[|log| - 1] == Token(m)
      ensures !faulty ==> ok
    {
      hide Serving;
      StillTrue(members, log, Mint(m, members[m].role));
      Note(Mint(m, members[m].role));
      var minted := Command();
      var empty: bool := *;
      if !minted || (faulty && empty) { return false; }
      ok := Command();
      if ok {
        StillTrue(members, log, Token(m));
        Note(Token(m));
      }
    }

    /**
     A site is built, and built again. When the answers were true, the second time nothing is installed, and yet every
     member is started and every controller serves.
     */
    method Rebuild(first: Answers, second: Answers) returns (built: bool, rebuilt: bool)
      requires KnownRoles(members)
      modifies this
      ensures Orderly(members, log) && old(units) <= units
      ensures built && Honest(first, old(units), |members|) && Honest(second, units, |members|) ==>
        && (forall m: nat :: m < |members| ==> HasUnit(m))
        && (forall m: nat :: m < |members| ==> Install(m) !in log)
      ensures rebuilt ==> built && forall m :: 0 <= m < |members| ==>
        Start(m) in log && (members[m].role == CONTROLLER ==> Serving(log, m, false))
      ensures !faulty && WellFormed(members) ==> built && rebuilt
    {
      hide Serving, Orderly, WasDenied, DeniedFirst, Truthful;
      ghost var was := units;
      rebuilt := false;
      built := Run(first);
      if !built { return; }
      ghost var between := units;
      forall m: nat | m < |members| && Honest(first, was, |members|) ensures Owns(between, m) { assert HasUnit(m); }
      rebuilt := Run(second);
      forall m: nat | m < |members| && Owns(between, m) && Honest(second, units, |members|)
        ensures HasUnit(m) && !Denies(second, m)
      {
        assert Owns(units, m);
      }
    }
  }

  /**
   In any site, any member, whatever unit files it has, is installed when its own questions are not answered: the
   first member's one check, a joiner's two. All other answers are true, and no command fails.
   */
  method DenialReinstalls(members: seq<Member>, version: string, units: set<Unit>, m: nat) returns (b: Build)
    requires WellFormed(members) && m < |members|
    ensures fresh(b) && b.members == members && Orderly(members, b.log)
    ensures Install(m) in b.log && Start(m) in b.log && WasDenied(b.log, m)
    ensures forall s :: s in b.log && s.Probe? ==>
      s.there == (Unit(s.member, s.role) in units) && (s.member != m ==> s.found == s.there)
  {
    hide Serving, Orderly;
    b := new Build(members, version, false, units);
    var answers := (i: nat, role: string, last: bool) => i != m && Unit(i, role) in units;
    var ok := b.Run(answers);
    assert Denies(answers, m) && DeniedFirst(answers, m);
  }

  /** A joiner that is denied only once is not installed: its second check finds the file, and it is started. */
  method OneDenialIsNotEnough(members: seq<Member>, version: string, units: set<Unit>, m: nat) returns (b: Build)
    requires WellFormed(members) && 0 < m < |members| && Owns(units, m)
    ensures fresh(b) && b.members == members && Orderly(members, b.log)
    ensures WasDenied(b.log, m) && Start(m) in b.log && Install(m) !in b.log
    ensures forall s :: s in b.log && s.Probe? && s.member != m ==> s.found == s.there == (Unit(s.member, s.role) in units)
  {
    hide Serving, Orderly;
    b := new Build(members, version, false, units);
    var answers := (i: nat, role: string, last: bool) => (i != m || last) && Unit(i, role) in units;
    var ok := b.Run(answers);
    assert !Denies(answers, m) && DeniedFirst(answers, m);
  }

  predicate KnownRoles(members: seq<Member>) {
    forall m :: 0 <= m < |members| ==> members[m].role in {CONTROLLER, WORKER}
  }
}
