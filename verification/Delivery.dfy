/**
 * One delivery attempt: registering a worktree, running the implementer in it, tearing its process
 * group down, validating, cleaning up, and publishing the candidate with one create-only ref write.
 * Every Git call, signal and wait may succeed, fail or raise; the log records what was observed.
 */
module Delivery {
  import opened Bytes
  import Budget
  import Stream
  import Validation

  /** The exit status by which the implementer says its live output was dropped partway. */
  const FORWARD_LOST := 15

  type Commit = nat

  /** A call that completed, or raised something its caller does not handle. */
  datatype Outcome<+T> = Done(value: T) | Raised {
    predicate IsFailure() { Raised? }

    function PropagateFailure<U>(): Outcome<U>
      requires IsFailure()
    {
      Raised
    }

    function Extract(): T
      requires !IsFailure()
    {
      value
    }
  }

  datatype Registration = AbsentConfirmed | MayExist | PresentConfirmed

  datatype Gate = Open | Closed

  datatype GroupState = Gone | Present | Unknown

  datatype Signal = Term | Kill | Probe

  datatype Teardown = Teardown(group: GroupState, childReaped: bool) {
    predicate CleanupSafe() { group.Gone? && childReaped }
  }

  /** How the watch over the implementer ended. */
  datatype Watch = Watch(exhausted: Option<Budget.State>, timedOut: bool, status: int) {
    predicate LeftAlone() { exhausted.None? && !timedOut }

    function EffectiveStatus(): int { if status == FORWARD_LOST then 0 else status }

    predicate Succeeded() { LeftAlone() && EffectiveStatus() == 0 }

    /** The run may leave a candidate: it succeeded, or only its budget ended it. */
    predicate Keeps() { !timedOut && (exhausted.Some? || Succeeded()) }
  }

  datatype Code =
    | Ok | TestsFailed | BudgetExhausted
    | CandidateExists | CommandUnavailable | CommandTimeout | CommandFailed | CommandChangedHead | NoChanges
    | GitFailed | CleanupFailed

  /** The codes whose outcome is `candidate-created`. */
  predicate Creates(code: Code) {
    code.Ok? || code.TestsFailed? || code.BudgetExhausted?
  }

  datatype Receipt = Receipt(code: Code, commit: Option<Commit>)

  /** What an attempt starts, each in a process group of its own. */
  datatype Command = Implementer | Test

  /** What an attempt did to the world, with what it was told. */
  datatype Event =
    | Adding                                          // `git worktree add` is about to run
    | Listed(registered: Option<bool>)                // what `git worktree list` says of the worktree
    | Spawning(who: Command)                          // a command is about to be started
    | SpawnRefused(who: Command)                      // it was not
    | Watched(watch: Watch)                           // how the implementer's run ended
    | TestExited                                      // a test command ended by itself, in time
    | Signalled(who: Command, signal: Signal, seen: GroupState)
    | Reaped(who: Command, ok: bool)                  // waiting for the direct child
    | HeadSeen(attached: bool)                        // HEAD of the worktree after the run
    | Compared(differs: bool)                         // its tree against the base tree
    | Committed(commit: Commit)                       // the candidate commit exists, unreferenced
    | Validated(verdict: Validation.Verdict)
    | Removing                                        // `git worktree remove --force` is about to run
    | ParentDeleted                                   // the temporary directory is gone
    | RefWrite(commit: Commit, created: bool)         // the create-only `git update-ref`
    | Diagnosed                                       // a failed last cleanup was reported

  // ---------------------------------------------------------------- what the log establishes

  /**
   * What is known of a command from the signals and waits alone. Of one that exited by itself only the
   * direct child is known to be gone: its group is not looked at.
   */
  datatype Liveness = NeverStarted | Refused | Running | ChildReaped | ExitedAlone | SeenGone

  /** `process` is the implementer, `test` the test command that was started last. */
  datatype Facts = Facts(
    process: Liveness, test: Liveness, watch: Option<Watch>, unregistered: bool, parent: bool,
    attached: Option<bool>, differs: Option<bool>, made: Option<Commit>, verdict: Option<Validation.Verdict>,
    wrote: bool, published: Option<Commit>, diagnosed: bool)
  {
    function Of(who: Command): Liveness { if who.Implementer? then process else test }

    function With(who: Command, p: Liveness): Facts {
      if who.Implementer? then this.(process := p) else this.(test := p)
    }
  }

  const NOTHING := Facts(NeverStarted, NeverStarted, None, true, true, None, None, None, None, false, None, false)

  /** The worktree was just added and listed. */
  const REGISTERED := NOTHING.(unregistered := false)

  /** There is nothing to wait for: no start, an exit of the child's own, or a group seen gone. */
  predicate Settled(p: Liveness) {
    !p.Running? && !p.ChildReaped?
  }

  /** The cleanup waits for the implementer alone. */
  predicate Quiet(f: Facts) {
    Settled(f.process)
  }

  /**
   * Nothing the cleanup knows of is left: nothing it would wait for, no registration, no directory. It
   * does not know of a descendant that outlived a child which exited by itself, nor of a test group.
   */
  predicate Clean(f: Facts) {
    Quiet(f) && f.unregistered && !f.parent
  }

  function AfterReap(p: Liveness, ok: bool): Liveness {
    if ok && p.Running? then ChildReaped else p
  }

  /** Only a group seen gone after its own child was reaped is gone. */
  function AfterSignal(p: Liveness, seen: GroupState): Liveness {
    if seen.Gone? && p.ChildReaped? then SeenGone else p
  }

  /** The event is the end of that command by itself. */
  predicate EndsAlone(who: Command, e: Event) {
    match who
    case Implementer => e.Watched? && e.watch.LeftAlone()
    case Test => e.TestExited?
  }

  function LearnProcess(p: Liveness, who: Command, e: Event): Liveness {
    match e
    case Spawning(w) => if w == who then Running else p
    case SpawnRefused(w) => if w == who then Refused else p
    case Reaped(w, ok) => if w == who then AfterReap(p, ok) else p
    case Signalled(w, _, seen) => if w == who then AfterSignal(p, seen) else p
    case _ => if EndsAlone(who, e) then ExitedAlone else p
  }

  function Learn(f: Facts, e: Event): Facts {
    match e
    case Adding => f.(unregistered := false)
    case Listed(registered) => f.(unregistered := registered == Some(false))
    case Watched(w) => f.(watch := Some(w), process := LearnProcess(f.process, Implementer, e))
    case HeadSeen(attached) => f.(attached := Some(attached))
    case Compared(differs) => f.(differs := Some(differs))
    case Committed(c) => f.(made := Some(c))
    case Validated(v) => f.(verdict := Some(v))
    case ParentDeleted => f.(parent := false)
    case RefWrite(c, created) => f.(wrote := true, published := if created then Some(c) else f.published)
    case Diagnosed => f.(diagnosed := true)
    case _ =>
      f.(process := LearnProcess(f.process, Implementer, e), test := LearnProcess(f.test, Test, e))
  }

  function Known(log: seq<Event>): Facts {
    if log == [] then NOTHING else Learn(Known(log[..|log| - 1]), log[|log| - 1])
  }

  predicate MayStart(f: Facts) {
    f.process.NeverStarted? && f.watch.None?
  }

  /** A candidate exists, and the runs before this one ended by themselves. */
  predicate MayTest(f: Facts) {
    f.made.Some? && f.verdict.None? && (f.test.NeverStarted? || f.test.ExitedAlone?)
  }

  /** What must be known before an event may happen. */
  predicate Lawful(f: Facts, e: Event) {
    match e
    case Adding => f == NOTHING
    case Listed(_) => f.parent
    case Spawning(who) => f.parent && !f.unregistered && (if who.Test? then MayTest(f) else MayStart(f))
    case SpawnRefused(who) => f.Of(who).Running? && (who.Implementer? ==> f.watch.None?)
    case Watched(_) => f.process.Running? && f.watch.None?
    case TestExited => f.test.Running?
    case Signalled(who, _, _) => f.Of(who).Running? || f.Of(who).ChildReaped?
    case Reaped(who, _) => f.Of(who).Running?
    case Removing => Quiet(f) && !f.unregistered
    case ParentDeleted => Quiet(f) && f.unregistered
    case Committed(_) =>
      && f.watch.Some? && f.watch.value.Keeps() && f.attached == Some(false) && f.differs == Some(true)
      && f.made.None? && !f.wrote
    case RefWrite(c, _) => Clean(f) && !f.wrote && f.made == Some(c)
    case HeadSeen(_) => f.watch.Some? && f.attached.None?
    case Compared(_) => f.attached == Some(false) && f.differs.None?
    case Validated(_) => f.made.Some? && f.verdict.None?
    case Diagnosed => !f.diagnosed
  }

  ghost predicate Safe(log: seq<Event>) {
    forall i :: 0 <= i < |log| ==> Lawful(Known(log[..i]), log[i])
  }

  lemma KnownSnoc(log: seq<Event>, e: Event)
    ensures Known(log + [e]) == Learn(Known(log), e)
    ensures Safe(log) && Lawful(Known(log), e) ==> Safe(log + [e])
  {
    hide Learn, Lawful;
    var next := log + [e];
    assert next[..|log|] == log;
    if Safe(log) && Lawful(Known(log), e) {
      forall i | 0 <= i < |next|
        ensures Lawful(Known(next[..i]), next[i])
      {
        assert i < |log| ==> next[..i] == log[..i];
      }
    }
  }

  // ---------------------------------------------------------------- what a safe log rules out

  /** `m`: the direct child was reaped after the start at `s`. */
  predicate ReapedSince(log: seq<Event>, s: nat, who: Command) {
    exists m :: s < m < |log| && log[m] == Reaped(who, true)
  }

  /** How a start can be known to be over. */
  datatype Evidence = StartRefused | ChildExited | GroupGone

  /** Event `k` is that evidence: a refused start, an exit of its own, or the group seen gone after a reap. */
  predicate Shows(log: seq<Event>, s: nat, who: Command, k: nat, evidence: Evidence)
    requires k < |log|
  {
    match evidence
    case StartRefused => log[k] == SpawnRefused(who)
    case ChildExited => EndsAlone(who, log[k])
    case GroupGone => log[k].Signalled? && log[k].who == who && log[k].seen.Gone? && ReapedSince(log[..k], s, who)
  }

  predicate Since(log: seq<Event>, s: nat, who: Command, evidence: Evidence) {
    exists k :: s < k < |log| && Shows(log, s, who, k, evidence)
  }

  lemma SinceSnoc(log: seq<Event>, s: nat, who: Command, evidence: Evidence)
    requires s < |log| - 1
    ensures var n := |log| - 1;
            && (Since(log, s, who, evidence) <==> Since(log[..n], s, who, evidence) || Shows(log, s, who, n, evidence))
            && (ReapedSince(log, s, who) <==> ReapedSince(log[..n], s, who) || log[n] == Reaped(who, true))
  {
    hide EndsAlone;
    var n := |log| - 1;
    assert log[..n][..n] == log[..n];
    forall k | s < k < n
      ensures Shows(log, s, who, k, evidence) <==> Shows(log[..n], s, who, k, evidence)
    {
      assert log[..n][..k] == log[..k];
    }
    if Since(log[..n], s, who, evidence) {
      var k :| s < k < n && Shows(log[..n], s, who, k, evidence);
      assert Shows(log, s, who, k, evidence);
    }
    if ReapedSince(log[..n], s, who) {
      var m :| s < m < n && log[..n][m] == Reaped(who, true);
      assert log[m] == Reaped(who, true);
    }
  }

  lemma NothingSince(log: seq<Event>, s: nat, who: Command, evidence: Evidence)
    requires |log| <= s + 1
    ensures !Since(log, s, who, evidence) && !ReapedSince(log, s, who)
  {
  }

  /** In a safe log what is known of a command is exactly the evidence there is since its start. */
  predicate Evident(log: seq<Event>, s: nat, who: Command, f: Facts) {
    var p := f.Of(who);
    && !p.NeverStarted?
    && (p.Refused? <==> Since(log, s, who, StartRefused))
    && (p.ExitedAlone? <==> Since(log, s, who, ChildExited))
    && (p.SeenGone? <==> Since(log, s, who, GroupGone))
    && (p.ChildReaped? ==> ReapedSince(log, s, who))
    && (p.Running? ==> !ReapedSince(log, s, who))
    && (who.Implementer? ==> WatchAgrees(f))
  }

  predicate WatchAgrees(f: Facts) {
    && (f.process.ExitedAlone? <==> f.watch.Some? && f.watch.value.LeftAlone())
    && (f.process.Refused? ==> f.watch.None?)
  }

  /** A start of the implementer is the only one; of the tests it is the last that is meant. */
  predicate IsStart(log: seq<Event>, s: nat, who: Command) {
    && s < |log| && log[s] == Spawning(who)
    && (who.Test? ==> forall k :: s < k < |log| ==> log[k] != Spawning(who))
  }

  lemma {:induction false} ProcessIsEvident(log: seq<Event>, s: nat, who: Command)
    requires Safe(log) && IsStart(log, s, who)
    ensures Evident(log, s, who, Known(log))
  {
    hide Known, Learn, Lawful, Since, ReapedSince, Shows, Evident;
    var n := |log| - 1;
    KnownLast(log);
    if s < n {
      ProcessIsEvident(log[..n], s, who);
      forall evidence
        ensures Since(log, s, who, evidence) <==> Since(log[..n], s, who, evidence) || Shows(log, s, who, n, evidence)
        ensures ReapedSince(log, s, who) <==> ReapedSince(log[..n], s, who) || log[n] == Reaped(who, true)
      {
        SinceSnoc(log, s, who, evidence);
      }
      SinceSnoc(log, s, who, GroupGone);
      EvidenceMoves(log, s, who, Known(log[..n]), log[n]);
    } else {
      forall evidence
        ensures !Since(log, s, who, evidence)
      {
        NothingSince(log, s, who, evidence);
      }
      NothingSince(log, s, who, GroupGone);
      SpawnIsEvident(log, who, Known(log[..n]));
    }
  }

  lemma KnownLast(log: seq<Event>)
    requires Safe(log) && log != []
    ensures var n := |log| - 1;
            Safe(log[..n]) && Lawful(Known(log[..n]), log[n]) && Known(log) == Learn(Known(log[..n]), log[n])
  {
    hide Learn, Lawful;
    var n := |log| - 1;
    forall i | 0 <= i < n
      ensures Lawful(Known(log[..n][..i]), log[..n][i])
    {
      assert log[..n][..i] == log[..i];
    }
  }

  lemma SpawnIsEvident(log: seq<Event>, who: Command, f: Facts)
    requires log != [] && Lawful(f, Spawning(who))
    requires var s := |log| - 1;
             !ReapedSince(log, s, who) && forall evidence :: !Since(log, s, who, evidence)
    ensures Evident(log, |log| - 1, who, Learn(f, Spawning(who)))
  {
    hide Since, ReapedSince;
  }

  lemma EvidenceMoves(log: seq<Event>, s: nat, who: Command, f: Facts, e: Event)
    requires s < |log| - 1 && e == log[|log| - 1] && Lawful(f, e) && Evident(log[..|log| - 1], s, who, f)
    requires e == Spawning(who) ==> who.Implementer?
    requires var n := |log| - 1;
             && (forall evidence :: Since(log, s, who, evidence) <==>
                   Since(log[..n], s, who, evidence) || Shows(log, s, who, n, evidence))
             && (ReapedSince(log, s, who) <==> ReapedSince(log[..n], s, who) || e == Reaped(who, true))
    ensures Evident(log, s, who, Learn(f, e))
  {
    hide Since, ReapedSince;
  }

  /** The gate's condition is earned: after every start there is one kind of evidence that it is over. */
  lemma QuietHasEvidence(log: seq<Event>, s: nat)
    requires Safe(log) && s < |log| && log[s] == Spawning(Implementer)
    ensures Quiet(Known(log)) <==> exists evidence :: Since(log, s, Implementer, evidence)
  {
    hide Known, Since;
    ProcessIsEvident(log, s, Implementer);
    if evidence :| Since(log, s, Implementer, evidence) {
      match evidence
      case StartRefused =>
      case ChildExited =>
      case GroupGone =>
    }
  }

  /**
   * In every safe log, behind each forced removal, deletion and publication there is, for every start
   * of the implementer, evidence that it is over. The group was seen gone after a reap if and only if
   * the start was not refused and the child did not exit by itself; of a run that was watched to its
   * end, if and only if the clock or a limit ended it.
   */
  lemma RemovalHasEvidence(log: seq<Event>, s: nat, i: nat)
    requires Safe(log) && s < i < |log| && log[s] == Spawning(Implementer)
    requires log[i].Removing? || log[i].ParentDeleted? || log[i].RefWrite?
    ensures exists evidence :: Since(log[..i], s, Implementer, evidence)
    ensures Since(log[..i], s, Implementer, GroupGone) <==>
            !Since(log[..i], s, Implementer, StartRefused) && !Since(log[..i], s, Implementer, ChildExited)
    ensures var watch := Known(log[..i]).watch;
            watch.Some? ==> (Since(log[..i], s, Implementer, GroupGone) <==>
                               watch.value.timedOut || watch.value.exhausted.Some?)
  {
    hide Known, Since;
    assert Lawful(Known(log[..i]), log[i]);
    SafePrefix(log, i);
    ProcessIsEvident(log[..i], s, Implementer);
    QuietHasEvidence(log[..i], s);
  }

  /** After any start, a command that ends by itself: its worktree may go without a look at its group. */
  lemma RemovalWithoutALook(log: seq<Event>, watch: Watch)
    requires Safe(log) && log != [] && log[|log| - 1] == Spawning(Implementer) && watch.LeftAlone()
    ensures Safe(log + [Watched(watch)] + [Removing])
    ensures !Since(log + [Watched(watch)], |log| - 1, Implementer, GroupGone)
  {
    hide *;
    var watched, s := log + [Watched(watch)], |log| - 1;
    KnownLast(log);
    AloneMayBeRemoved(Known(log[..s]), watch);
    KnownSnoc(log, Watched(watch));
    KnownSnoc(watched, Removing);
    assert watched[..|log|] == log;
    SinceSnoc(watched, s, Implementer, GroupGone);
    NothingSince(log, s, Implementer, GroupGone);
    WatchedIsNoLook(watched, s);
  }

  lemma AloneMayBeRemoved(f: Facts, watch: Watch)
    requires Lawful(f, Spawning(Implementer)) && watch.LeftAlone()
    ensures Lawful(Learn(f, Spawning(Implementer)), Watched(watch))
    ensures Lawful(Learn(Learn(f, Spawning(Implementer)), Watched(watch)), Removing)
  {
  }

  lemma WatchedIsNoLook(log: seq<Event>, s: nat)
    requires log != [] && log[|log| - 1].Watched?
    ensures !Shows(log, s, Implementer, |log| - 1, GroupGone)
  {
  }

  /** The log of an attempt whose implementer was just started. */
  const STARTED: seq<Event> := [Adding] + [Listed(Some(true))] + [Spawning(Implementer)]

  lemma StartedIsSafe()
    ensures Safe(STARTED) && Known(STARTED) == REGISTERED.(process := Running)
  {
    assert Safe([]) && Known([]) == NOTHING && [] + [Adding] == [Adding];
    hide Safe, Known;
    KnownSnoc([], Adding);
    KnownSnoc([Adding], Listed(Some(true)));
    KnownSnoc([Adding] + [Listed(Some(true))], Spawning(Implementer));
  }

  /** Such a log exists: the shortest one, for any command that ends by itself. */
  lemma RemovalWithoutALookHappens(watch: Watch)
    requires watch.LeftAlone()
    ensures var log := STARTED + [Watched(watch)];
            Safe(log) && Safe(log + [Removing]) && !Since(log, 2, Implementer, GroupGone)
  {
    hide *;
    var log := STARTED + [Watched(watch)];
    StartedIsSafe();
    StartedStarts();
    RemovalWithoutALook(STARTED, watch);
    assert (log + [Removing])[..|log|] == log;
    SafePrefix(log + [Removing], |log|);
  }

  lemma StartedStarts()
    ensures |STARTED| == 3 && STARTED[2] == Spawning(Implementer)
  {
  }

  // ---------------------------------------------------------------- the test commands

  /** Where the next test run is started, or the end of the log. */
  function NextTest(log: seq<Event>, s: nat): (t: nat)
    requires s < |log|
    ensures s < t <= |log| && (t < |log| ==> log[t] == Spawning(Test))
    ensures forall k :: s < k < t ==> log[k] != Spawning(Test)
    decreases |log| - s
  {
    if s + 1 == |log| || log[s + 1] == Spawning(Test) then s + 1 else NextTest(log, s + 1)
  }

  /** What was seen of the test run started at `s`, before the next one. */
  predicate TestShows(log: seq<Event>, s: nat, evidence: Evidence)
    requires s < |log|
  {
    Since(log[..NextTest(log, s)], s, Test, evidence)
  }

  /** Of every test run that was not refused, the group was seen gone. */
  predicate TestGroupsSeenGone(log: seq<Event>) {
    forall s :: 0 <= s < |log| && log[s] == Spawning(Test) ==>
      TestShows(log, s, StartRefused) || TestShows(log, s, GroupGone)
  }

  /** A test run has at most one end, and every one but the last ended by itself. */
  lemma TestRunIsEvident(log: seq<Event>, s: nat)
    requires Safe(log) && s < |log| && log[s] == Spawning(Test)
    ensures TestShows(log, s, ChildExited) ==> !TestShows(log, s, StartRefused) && !TestShows(log, s, GroupGone)
    ensures NextTest(log, s) < |log| ==> TestShows(log, s, ChildExited)
    ensures var p := Known(log).test;
            NextTest(log, s) == |log| ==>
              && !p.NeverStarted? && (p.ExitedAlone? <==> TestShows(log, s, ChildExited))
              && (p.Refused? <==> TestShows(log, s, StartRefused))
              && (p.SeenGone? <==> TestShows(log, s, GroupGone))
  {
    hide Known, Since, Learn, NextTest;
    var t := NextTest(log, s);
    SafePrefix(log, t);
    ProcessIsEvident(log[..t], s, Test);
    if t < |log| {
      assert Lawful(Known(log[..t]), log[t]);
    } else {
      assert log[..t] == log;
    }
  }

  /** A test run that is known of was started, and none since. */
  lemma {:induction false} LastTestStart(log: seq<Event>) returns (s: nat)
    requires Safe(log) && !Known(log).test.NeverStarted?
    ensures s < |log| && log[s] == Spawning(Test) && NextTest(log, s) == |log|
  {
    hide Learn, Lawful, Safe, NextTest;
    var n := |log| - 1;
    KnownLast(log);
    if log[n] == Spawning(Test) {
      s := n;
    } else {
      TestIsStarted(Known(log[..n]), log[n]);
      s := LastTestStart(log[..n]);
    }
  }

  lemma TestIsStarted(f: Facts, e: Event)
    requires Lawful(f, e) && e != Spawning(Test) && !Learn(f, e).test.NeverStarted?
    ensures !f.test.NeverStarted?
  {
  }

  /** The exit of a test command is that of a run that was started before it. */
  lemma ExitIsShown(log: seq<Event>, k: nat) returns (s: nat)
    requires Safe(log) && k < |log| && log[k] == TestExited
    ensures s < k && log[s] == Spawning(Test) && TestShows(log, s, ChildExited)
  {
    hide Known, NextTest;
    SafePrefix(log, k);
    assert Lawful(Known(log[..k]), log[k]);
    s := LastTestStart(log[..k]);
    var t := NextTest(log, s);
    forall j | s < j < k
      ensures log[j] != Spawning(Test)
    {
      assert log[..k][j] == log[j];
    }
    assert Shows(log[..t], s, Test, k, ChildExited);
  }

  /**
   * Of every test run that was not refused the group was seen gone, if and only if none of them
   * ended by itself and the one that overran, if any, was torn down safely.
   */
  lemma TestGroupsSeenGoneIff(log: seq<Event>)
    requires Safe(log)
    ensures TestGroupsSeenGone(log) <==> TestExited !in log && Settled(Known(log).test)
  {
    hide Known, Safe, Since, TestShows, NextTest;
    if TestExited in log {
      var k :| 0 <= k < |log| && log[k] == TestExited;
      var s := ExitIsShown(log, k);
      TestRunIsEvident(log, s);
    } else {
      if !Known(log).test.NeverStarted? {
        var s := LastTestStart(log);
        TestRunIsEvident(log, s);
      }
      forall s | 0 <= s < |log| && log[s] == Spawning(Test)
        ensures TestGroupsSeenGone(log) || !Settled(Known(log).test)
                || TestShows(log, s, StartRefused) || TestShows(log, s, GroupGone)
      {
        TestRunIsEvident(log, s);
        NoExitNotShown(log, s);
      }
    }
  }

  lemma NoExitNotShown(log: seq<Event>, s: nat)
    requires s < |log| && TestExited !in log
    ensures !TestShows(log, s, ChildExited)
  {
    hide NextTest;
  }

  lemma Then(log: seq<Event>, e: Event) returns (next: seq<Event>)
    requires Safe(log) && Lawful(Known(log), e)
    ensures next == log + [e] && Safe(next) && Known(next) == Learn(Known(log), e)
  {
    KnownSnoc(log, e);
    next := log + [e];
  }

  /** The candidate of an undisturbed run is made, and its test command started. */
  lemma TestStarted(c: Commit) returns (log: seq<Event>)
    ensures Safe(log)
    ensures Known(log) == Ran(ExitedAlone, Watch(None, false, 0)).(
              attached := Some(false), differs := Some(true), made := Some(c), test := Running)
  {
    hide Safe, Known;
    StartedIsSafe();
    log := Then(STARTED, Watched(Watch(None, false, 0)));
    log := Then(log, HeadSeen(false));
    log := Then(log, Compared(true));
    log := Then(log, Committed(c));
    log := Then(log, Spawning(Test));
  }

  /** It overran, TERM and KILL did not end its group, and the teardown's result was dropped. */
  lemma TestOverran(c: Commit) returns (log: seq<Event>)
    ensures Safe(log)
    ensures Known(log) == Ran(ExitedAlone, Watch(None, false, 0)).(attached := Some(false), differs := Some(true),
              made := Some(c), test := Running, verdict := Some(Validation.Overran))
  {
    hide Safe, Known;
    log := TestStarted(c);
    log := Then(log, Signalled(Test, Term, Present));
    log := Then(log, Signalled(Test, Kill, Present));
    log := Then(log, Reaped(Test, false));
    log := Then(log, Signalled(Test, Probe, Present));
    log := Then(log, Validated(Validation.Overran));
  }

  /**
   * A candidate can be published, its worktree removed, while the group of a test command that overran
   * was last seen present.
   */
  lemma PublishedBesideATestGroup(c: Commit) returns (log: seq<Event>)
    ensures Safe(log) && log != [] && log[|log| - 1] == RefWrite(c, true) && Removing in log
    ensures Known(log).test.Running? && !TestGroupsSeenGone(log)
  {
    hide Safe, Known, TestGroupsSeenGone;
    log := TestOverran(c);
    log := Then(log, Removing);
    log := Then(log, Listed(Some(false)));
    log := Then(log, ParentDeleted);
    log := Then(log, RefWrite(c, true));
    TestGroupsSeenGoneIff(log);
  }

  lemma SafePrefix(log: seq<Event>, i: nat)
    requires Safe(log) && i <= |log|
    ensures Safe(log[..i])
  {
    hide Known, Lawful;
    forall j | 0 <= j < i
      ensures Lawful(Known(log[..i][..j]), log[..i][j])
    {
      assert log[..i][..j] == log[..j];
    }
  }

  /** What one step of a safe log may rely on, and what it makes known. */
  lemma AtStep(log: seq<Event>, i: nat)
    requires Safe(log) && i < |log|
    ensures Safe(log[..i]) && Lawful(Known(log[..i]), log[i])
    ensures Known(log[..i + 1]) == Learn(Known(log[..i]), log[i])
  {
    hide Lawful, Learn;
    SafePrefix(log, i + 1);
    KnownLast(log[..i + 1]);
    assert log[..i + 1][..i] == log[..i];
  }

  lemma CleanStays(f: Facts, e: Event)
    requires Clean(f) && Lawful(f, e)
    ensures Clean(Learn(f, e))
    ensures f.wrote ==> Learn(f, e).wrote && Learn(f, e).made == f.made
  {
  }

  lemma {:induction false} StaysClean(log: seq<Event>, i: nat)
    requires Safe(log) && i <= |log| && Clean(Known(log[..i]))
    ensures Clean(Known(log))
    ensures Known(log[..i]).wrote ==> Known(log).wrote && Known(log).made == Known(log[..i]).made
  {
    hide Safe, Known, Clean, Learn, Lawful;
    var n := |log| - 1;
    if i == |log| {
      assert log[..i] == log;
    } else {
      KnownLast(log);
      assert log[..n][..i] == log[..i];
      StaysClean(log[..n], i);
      CleanStays(Known(log[..n]), log[n]);
    }
  }

  /**
   * The ref is written at most once, for the commit that was made, when nothing of the attempt is
   * left; and afterwards nothing is listed, started, removed, committed or written again.
   */
  lemma PublishedAlone(log: seq<Event>, i: nat)
    requires Safe(log) && i < |log| && log[i].RefWrite?
    ensures Clean(Known(log[..i])) && Known(log[..i]).made == Some(log[i].commit)
    ensures forall j :: i < j < |log| ==> !StartsOver(log[j])
  {
    hide Safe, Known, Learn, Lawful, Clean, StartsOver;
    AtStep(log, i);
    WriteIsKnown(Known(log[..i]), log[i]);
    CleanStays(Known(log[..i]), log[i]);
    forall j | i < j < |log|
      ensures !StartsOver(log[j])
    {
      AtStep(log, j);
      assert log[..j][..i + 1] == log[..i + 1];
      StaysClean(log[..j], i + 1);
      NothingStartsOver(Known(log[..j]), log[j]);
    }
  }

  predicate StartsOver(e: Event) {
    e.Listed? || e.Spawning? || e.Removing? || e.Committed? || e.RefWrite?
  }

  lemma NothingStartsOver(f: Facts, e: Event)
    requires Clean(f) && f.wrote && Lawful(f, e)
    ensures !StartsOver(e)
  {
  }

  lemma WriteIsKnown(f: Facts, e: Event)
    requires e.RefWrite? && Lawful(f, e)
    ensures Clean(f) && f.made == Some(e.commit) && Learn(f, e).wrote
  {
  }

  // ---------------------------------------------------------------- many deliveries, one repository

  type Ref = string

  /** A step of some delivery, or a ref created by anyone else. */
  datatype Step = Ours(who: nat, event: Event) | Outside(ref: Ref, commit: Commit)

  function Own(history: seq<Step>, who: nat): seq<Event> {
    if history == [] then []
    else
      var last := history[|history| - 1];
      Own(history[..|history| - 1], who) + (if last.Ours? && last.who == who then [last.event] else [])
  }

  function Wrote(step: Step, target: nat -> Ref): Option<(Ref, Commit)> {
    if step.Outside? then Some((step.ref, step.commit))
    else if step.event.RefWrite? && step.event.created then Some((target(step.who), step.event.commit))
    else None
  }

  function RefsAfter(history: seq<Step>, target: nat -> Ref, refs: map<Ref, Commit>): map<Ref, Commit> {
    if history == [] then refs
    else
      RefsWith(RefsAfter(history[..|history| - 1], target, refs), Wrote(history[|history| - 1], target))
  }

  function RefsWith(before: map<Ref, Commit>, wrote: Option<(Ref, Commit)>): map<Ref, Commit> {
    match wrote
    case None => before
    case Some(entry) => before[entry.0 := entry.1]
  }

  /** The last step of a history creates, at most, a ref that was not there. */
  lemma LastCreates(history: seq<Step>, target: nat -> Ref, refs: map<Ref, Commit>)
    requires CreateOnly(history, target, refs) && history != []
    ensures var m := |history| - 1;
            var before, wrote := RefsAfter(history[..m], target, refs), Wrote(history[m], target);
            && RefsAfter(history, target, refs) == RefsWith(before, wrote)
            && (wrote.Some? ==> wrote.value.0 !in before)
            && CreateOnly(history[..m], target, refs)
  {
    hide Wrote, RefsWith;
    CreateOnlyPrefix(history, target, refs, |history| - 1);
  }

  /** Git's compare-and-create: a ref is only ever created where there was none. */
  ghost predicate CreateOnly(history: seq<Step>, target: nat -> Ref, refs: map<Ref, Commit>) {
    forall i :: 0 <= i < |history| && Wrote(history[i], target).Some? ==>
      Wrote(history[i], target).value.0 !in RefsAfter(history[..i], target, refs)
  }

  lemma CreateOnlyPrefix(history: seq<Step>, target: nat -> Ref, refs: map<Ref, Commit>, n: nat)
    requires CreateOnly(history, target, refs) && n <= |history|
    ensures CreateOnly(history[..n], target, refs)
  {
    forall i | 0 <= i < n && Wrote(history[..n][i], target).Some?
      ensures Wrote(history[..n][i], target).value.0 !in RefsAfter(history[..n][..i], target, refs)
    {
      assert history[..n][..i] == history[..i];
    }
  }

  lemma {:induction false} RefsStay(history: seq<Step>, target: nat -> Ref, refs: map<Ref, Commit>, n: nat, ref: Ref)
    requires CreateOnly(history, target, refs) && n <= |history|
    requires ref in RefsAfter(history[..n], target, refs)
    ensures ref in RefsAfter(history, target, refs)
    ensures RefsAfter(history, target, refs)[ref] == RefsAfter(history[..n], target, refs)[ref]
    decreases |history|
  {
    hide Wrote, RefsAfter, CreateOnly;
    if n == |history| {
      assert history[..n] == history;
    } else {
      var m := |history| - 1;
      LastCreates(history, target, refs);
      assert history[..m][..n] == history[..n];
      RefsStay(history[..m], target, refs, n, ref);
    }
  }

  lemma PublishedByWrite(f: Facts, e: Event)
    requires Learn(f, e).published.Some?
    ensures f.published == Learn(f, e).published || e == RefWrite(Learn(f, e).published.value, true)
  {
  }

  /** A published commit was written by that delivery at some step of the history. */
  lemma {:induction false} PublishedAt(history: seq<Step>, who: nat) returns (i: nat)
    requires Known(Own(history, who)).published.Some?
    ensures i < |history|
    ensures history[i] == Ours(who, RefWrite(Known(Own(history, who)).published.value, true))
  {
    var m := |history| - 1;
    var last := history[m];
    var before := Own(history[..m], who);
    if last.Ours? && last.who == who {
      hide Known, Learn;
      KnownSnoc(before, last.event);
      PublishedByWrite(Known(before), last.event);
      if Known(before).published != Learn(Known(before), last.event).published {
        return m;
      }
    } else {
      assert Own(history, who) == before;
    }
    i := PublishedAt(history[..m], who);
    assert history[..m][i] == history[i];
  }

  lemma CreatedAt(history: seq<Step>, target: nat -> Ref, refs: map<Ref, Commit>, i: nat)
    requires CreateOnly(history, target, refs) && i < |history| && Wrote(history[i], target).Some?
    ensures var (ref, commit) := Wrote(history[i], target).value;
            && ref !in RefsAfter(history[..i], target, refs)
            && ref in RefsAfter(history[..i + 1], target, refs)
            && RefsAfter(history[..i + 1], target, refs)[ref] == commit
  {
    assert history[..i + 1][..i] == history[..i];
    assert history[..i + 1][i] == history[i];
  }

  /**
   * Over any interleaving of any number of deliveries and outside ref creations, two deliveries for
   * one ref do not both end candidate-created, and the ref ends at the winner's commit.
   */
  lemma RaceHasOneWinner(history: seq<Step>, target: nat -> Ref, refs: map<Ref, Commit>,
                         a: nat, b: nat, ra: Receipt, rb: Receipt)
    requires CreateOnly(history, target, refs) && target(a) == target(b)
    requires Concluded(Own(history, a), Done(ra)) && Concluded(Own(history, b), Done(rb))
    requires Creates(ra.code) && Creates(rb.code)
    ensures a == b
    ensures var after := RefsAfter(history, target, refs);
            target(a) !in refs && target(a) in after && ra.commit == Some(after[target(a)])
  {
    hide *;
    PublishedReceipt(history, a, ra);
    PublishedReceipt(history, b, rb);
    var i := PublishedAt(history, a);
    var j := PublishedAt(history, b);
    WroteIs(history[i], target, a, ra.commit.value);
    WroteIs(history[j], target, b, rb.commit.value);
    OneWriter(history, target, refs, i, j);
    Winner(history, target, refs, i);
  }

  lemma PublishedReceipt(history: seq<Step>, who: nat, r: Receipt)
    requires Concluded(Own(history, who), Done(r)) && Creates(r.code)
    ensures r.commit.Some? && Known(Own(history, who)).published == r.commit
  {
  }

  lemma WroteIs(step: Step, target: nat -> Ref, who: nat, commit: Commit)
    requires step == Ours(who, RefWrite(commit, true))
    ensures Wrote(step, target) == Some((target(who), commit))
  {
  }

  /** No two steps of a history create the same ref. */
  lemma OneWriter(history: seq<Step>, target: nat -> Ref, refs: map<Ref, Commit>, i: nat, j: nat)
    requires CreateOnly(history, target, refs) && i < |history| && j < |history|
    requires Wrote(history[i], target).Some? && Wrote(history[j], target).Some?
    requires Wrote(history[i], target).value.0 == Wrote(history[j], target).value.0
    ensures i == j
    decreases if i <= j then 0 else 1
  {
    hide Wrote, RefsAfter;
    if i < j {
      CreatedAt(history, target, refs, i);
      CreateOnlyPrefix(history, target, refs, j);
      assert history[..j][..i + 1] == history[..i + 1];
      RefsStay(history[..j], target, refs, i + 1, Wrote(history[i], target).value.0);
      assert false;
    } else if j < i {
      OneWriter(history, target, refs, j, i);
    }
  }

  /** The ref a step created was absent at the start and keeps that commit to the end. */
  lemma Winner(history: seq<Step>, target: nat -> Ref, refs: map<Ref, Commit>, i: nat)
    requires CreateOnly(history, target, refs) && i < |history| && Wrote(history[i], target).Some?
    ensures var (ref, commit) := Wrote(history[i], target).value;
            var after := RefsAfter(history, target, refs);
            ref !in refs && ref in after && after[ref] == commit
  {
    CreatedAt(history, target, refs, i);
    var ref := Wrote(history[i], target).value.0;
    RefsStay(history, target, refs, i + 1, ref);
    if ref in refs {
      CreateOnlyPrefix(history, target, refs, i);
      assert history[..i][..0] == [];
      RefsStay(history[..i], target, refs, 0, ref);
      assert false;
    }
  }

  // ---------------------------------------------------------------- the attempt

  function Probes(who: Command, polls: seq<GroupState>): seq<Event> {
    if polls == [] then []
    else Probes(who, polls[..|polls| - 1]) + [Signalled(who, Probe, polls[|polls| - 1])]
  }

  /** Polling goes on while the group is seen present, and stops at the first other answer. */
  predicate Polled(polls: seq<GroupState>, last: GroupState) {
    && (forall i :: 0 <= i < |polls| - 1 ==> polls[i].Present?)
    && (if polls == [] then last.Present? else last == polls[|polls| - 1])
  }

  /** What was seen of the group by TERM and by the polls that followed it, and what KILL met. */
  datatype Sightings = Sightings(term: GroupState, polls: seq<GroupState>, kill: Option<GroupState>) {
    function AtLast(): GroupState { if polls == [] then term else polls[|polls| - 1] }

    /** Polls follow only a group seen present; KILL follows unless the group was last seen gone. */
    predicate InOrder() {
      && (if term.Present? then Polled(polls, AtLast()) else polls == [])
      && (kill.Some? <==> !AtLast().Gone?)
    }

    /** The log after the signals that were to stop the group, in order. */
    function SentAfter(log: seq<Event>, who: Command): seq<Event> {
      var polled := log + [Signalled(who, Term, term)] + Probes(who, polls);
      if kill.Some? then polled + [Signalled(who, Kill, kill.value)] else polled
    }
  }

  lemma NoProbes(log: seq<Event>, who: Command)
    ensures log + Probes(who, []) == log
  {
  }

  lemma ProbesSnoc(log: seq<Event>, who: Command, polls: seq<GroupState>, seen: GroupState)
    ensures log + Probes(who, polls + [seen]) == log + Probes(who, polls) + [Signalled(who, Probe, seen)]
  {
    assert (polls + [seen])[..|polls|] == polls;
  }

  /** Until the child is reaped no look at the group changes what is known. */
  lemma SightingsKeep(f: Facts, who: Command)
    requires f.Of(who).Running?
    ensures forall seen :: f.With(who, AfterSignal(f.Of(who), seen)) == f
    ensures !Settled(f.Of(who))
  {
  }

  lemma PolledAgain(polls: seq<GroupState>, seen: GroupState)
    requires Polled(polls, Present)
    ensures Polled(polls + [seen], seen) && |polls + [seen]| == |polls| + 1
  {
  }

  lemma Unkilled(log: seq<Event>, who: Command, seen: Sightings)
    requires seen.kill.None?
    ensures seen.SentAfter(log, who) == log + [Signalled(who, Term, seen.term)] + Probes(who, seen.polls)
  {
  }

  lemma LastSeen(seen: Sightings, last: GroupState)
    requires if seen.term.Present? then Polled(seen.polls, last) else seen.polls == [] && last == seen.term
    ensures last == seen.AtLast()
  {
  }

  /** All that is known after a watched run. */
  function Ran(p: Liveness, watch: Watch): Facts {
    REGISTERED.(process := p, watch := Some(watch))
  }

  predicate Unpublished(f: Facts) {
    !f.wrote && f.published.None? && !f.diagnosed
  }

  /** The code against what was seen; among the creating codes it leaves no choice. */
  predicate CodeFits(f: Facts, code: Code) {
    && (code.TestsFailed? ==> f.watch.Some? && f.watch.value.Succeeded() && f.verdict.Some? && f.verdict.value.Failed?)
    && (code.Ok? ==> f.watch.Some? && f.watch.value.Succeeded() && (f.verdict.Some? ==> !f.verdict.value.Failed?))
    && (code.BudgetExhausted? ==> f.watch.Some? && f.watch.value.exhausted.Some?)
    && (code.CommandTimeout? <==> f.watch.Some? && f.watch.value.timedOut)
    && (code.CommandFailed? <==> f.watch.Some? && f.watch.value.LeftAlone() && !f.watch.value.Succeeded())
    && (code.CommandChangedHead? <==> f.attached == Some(true))
    && (code.NoChanges? <==> f.differs == Some(false))
    && (code.CommandUnavailable? ==> f.watch.None?)
  }

  /** What the receipt says before cleanup and publication. */
  predicate Pending(f: Facts, r: Receipt) {
    CodeFits(f, r.code) && (Creates(r.code) ==> r.commit.Some?) && r.commit == f.made
    && !r.code.CleanupFailed? && !r.code.CandidateExists?
  }

  lemma NothingPending(f: Facts)
    requires f.watch.None? && f.attached.None? && f.differs.None? && f.made.None?
    ensures Pending(f, Receipt(GitFailed, None))
  {
  }

  /** What a receipt says about the whole attempt. */
  predicate Reported(f: Facts, r: Receipt) {
    && (Creates(r.code) <==> f.published.Some?)
    && r.commit == f.made
    && (f.published.Some? ==> r.commit == f.published)
    && (r.code.CleanupFailed? <==> !Clean(f))
    && (r.code.CleanupFailed? || CodeFits(f, r.code))
    && (r.code.CandidateExists? ==> f.made.Some?)
  }

  /** What the result of a whole attempt says about its log. */
  ghost predicate Concluded(log: seq<Event>, r: Outcome<Receipt>) {
    var f := Known(log);
    Safe(log) && if r.Raised? then Clean(f) <==> !f.diagnosed else Reported(f, r.value) && !f.diagnosed
  }

  /** The codes that say that something outside did not work. */
  predicate IsTrouble(code: Code) {
    code.GitFailed? || code.CandidateExists? || code.CommandUnavailable?
  }

  /** An outside call: its exit status is zero or not, or it raises. */
  method Ask() returns (r: Outcome<bool>) {
    r := *;
  }

  /** How long a run took: never more than it was allowed. */
  method AskSeconds(most: real) returns (took: real)
    requires most >= 0.0
    ensures 0.0 <= took <= most
  {
    took := *;
    if took < 0.0 || took > most {
      took := most;
    }
  }

  /** What the runs so far say of the test command that was started last. */
  predicate Tells(outcomes: seq<Validation.RunOutcome>, test: Liveness) {
    if outcomes == [] then test.NeverStarted?
    else
      var last := outcomes[|outcomes| - 1];
      && (last.Exited? <==> test.ExitedAlone?) && (last.Unavailable? <==> test.Refused?)
      && Validation.StopAt(outcomes) >= |outcomes| - 1
  }

  /** The log of so many test runs that ended by themselves. */
  function Exits(runs: nat): seq<Event> {
    if runs == 0 then [] else Exits(runs - 1) + [Spawning(Test)] + [TestExited]
  }

  lemma NoExits(log: seq<Event>)
    ensures log + Exits(0) == log
  {
  }

  lemma OneMoreExit(log: seq<Event>, runs: nat)
    ensures log + Exits(runs) + [Spawning(Test)] + [TestExited] == log + Exits(runs + 1)
  {
  }

  /** What an attempt is given: the budget, the time-out, how a line is read, and how many test runs there are. */
  datatype Job = Job(limits: Budget.Limits, timeout: real, parse: Stream.Parser, runs: nat)

  /** What the implementer writes, in the chunks that the reads will see. */
  method AskChunks() returns (chunks: seq<ByteString>)
    ensures [] !in chunks
  {
    chunks := *;
    if [] in chunks {
      chunks := [];
    }
  }

  /** The budget-enforced run; a line that raises is not caught here. */
  method StreamOutput(job: Job) returns (r: Outcome<Stream.StreamOutcome>)
    ensures r.Done? ==> !(r.value.timedOut && r.value.halt.Some?) && r.value.halt != Some(Stream.Raised)
  {
    hide Stream.Streamed;
    var chunks := AskChunks();
    var pipe := new Stream.Pipe(chunks);
    var spool := new Stream.Spool();
    var counter := new Budget.TurnCounter();
    var ticks: seq<Stream.Tick> := *;
    var endSeconds: real := *;
    var waitTimesOut: bool := *;
    var raised :- Ask();
    var outcome, _, _ := Stream.StreamImplementer(pipe, spool, counter, job.limits, job.timeout, ticks, endSeconds,
                                               waitTimesOut, job.parse);
    Stream.EndsOneWay(chunks, pipe.unread, spool.data, counter.Snapshot(), outcome, job.limits, job.parse);
    r := if outcome.halt == Some(Stream.Raised) then Raised else Done(outcome);
  }

  /** The stream loop or the plain wait: a time-out and an exhausted budget exclude each other. */
  method WatchImplementer(job: Job) returns (r: Outcome<Watch>)
    ensures r.Done? ==> !(r.value.timedOut && r.value.exhausted.Some?)
    ensures r.Done? && !job.limits.Declared() ==> r.value.exhausted.None?
  {
    var status: int := *;
    if job.limits.Declared() {
      var stream :- StreamOutput(job);
      var exhausted := if stream.halt.Some? then Some(stream.halt.value.state) else None;
      return Done(Watch(exhausted, stream.timedOut, status));
    }
    var timedOut :- Ask();
    r := Done(Watch(None, timedOut, status));
  }

  /** Without a declared budget the spool is counted after the run, and a line of it may raise. */
  method CountOutput(job: Job) returns (r: Outcome<()>)
    ensures job.limits.Declared() ==> r.Done?
  {
    if job.limits.Declared() {
      return Done(());
    }
    var spool := new Stream.Spool();
    var data: ByteString := *;
    spool.Write(data);
    var _, raised := Stream.CountSpool(spool, job.parse);
    r := if raised then Raised else Done(());
  }

  class Attempt {
    var registration: Registration
    var parentExists: bool
    var gate: Gate
    ghost var log: seq<Event>
    ghost var troubled: bool     // a call did not come to what the attempt needs of it

    /** The three flags say exactly what the log establishes. */
    ghost predicate Valid()
      reads this
    {
      var f := Known(log);
      && Safe(log)
      && (gate.Open? <==> Quiet(f))
      && (registration.AbsentConfirmed? <==> f.unregistered)
      && parentExists == f.parent
      && (!parentExists ==> Clean(f))
    }

    constructor ()
      ensures Valid() && log == [] && parentExists && registration.AbsentConfirmed? && !troubled
    {
      registration, parentExists, gate, log, troubled := AbsentConfirmed, true, Open, [], false;
    }

    /** An outside call that has to succeed. */
    method Need() returns (r: Outcome<bool>)
      modifies `troubled
      ensures troubled <==> old(troubled) || r != Done(true)
    {
      r := Ask();
      troubled := troubled || r != Done(true);
    }

    /** An outside question that has to be answered. */
    method NeedAnswer<T(0)>() returns (r: Outcome<Option<T>>)
      modifies `troubled
      ensures troubled <==> old(troubled) || !r.Done? || r.value.None?
    {
      r := *;
      troubled := troubled || !r.Done? || r.value.None?;
    }

    ghost method Blame(trouble: bool)
      modifies `troubled
      ensures troubled <==> old(troubled) || trouble
    {
      troubled := troubled || trouble;
    }

    ghost method Note(e: Event)
      requires Safe(log) && Lawful(Known(log), e)
      modifies this`log
      ensures log == old(log) + [e] && Safe(log) && Known(log) == Learn(old(Known(log)), e)
    {
      KnownSnoc(log, e);
      log := log + [e];
    }

    predicate NeedsCleanup()
      reads this
    {
      !registration.AbsentConfirmed? || parentExists
    }

    method WorktreeRegistered() returns (r: Outcome<Option<bool>>)
      requires Safe(log) && Known(log).parent
      modifies this`log
      ensures Safe(log)
      ensures r.Raised? ==> log == old(log)
      ensures r.Done? ==> Known(log) == old(Known(log)).(unregistered := r.value == Some(false))
    {
      r := *;
      if r.Done? {
        Note(Listed(r.value));
      }
    }

    method ObserveRegistration(registered: Option<bool>)
      modifies this`registration
      ensures registration.AbsentConfirmed? <==> registered == Some(false)
      ensures registration.PresentConfirmed? <==> registered == Some(true)
    {
      registration := if registered == Some(true) then PresentConfirmed
                      else if registered == Some(false) then AbsentConfirmed else MayExist;
    }

    method SignalProcessGroup(who: Command, signal: Signal) returns (r: Outcome<GroupState>)
      requires Safe(log) && !Settled(Known(log).Of(who))
      modifies this`log
      ensures Safe(log)
      ensures r.Raised? ==> log == old(log)
      ensures r.Done? ==> log == old(log) + [Signalled(who, signal, r.value)]
      ensures r.Done? ==> Known(log) == old(Known(log)).With(who, AfterSignal(old(Known(log)).Of(who), r.value))
    {
      hide Safe, Known;
      r := *;
      if r.Done? {
        Note(Signalled(who, signal, r.value));
      }
    }

    method ReapDirectChild(who: Command) returns (r: Outcome<bool>)
      requires Safe(log) && Known(log).Of(who).Running?
      modifies this`log
      ensures Safe(log)
      ensures r.Raised? ==> log == old(log)
      ensures r.Done? ==> log == old(log) + [Reaped(who, r.value)]
      ensures r.Done? ==> Known(log) == old(Known(log)).With(who, AfterReap(old(Known(log)).Of(who), r.value))
    {
      hide Safe, Known;
      r := *;
      if r.Done? {
        Note(Reaped(who, r.value));
      }
    }

    /** One more look at a group that was last seen present. */
    method LookAgain(who: Command, ghost before: seq<Event>, ghost polls: seq<GroupState>)
      returns (r: Outcome<GroupState>, ghost looks: seq<GroupState>)
      requires Safe(log) && Known(log).Of(who).Running?
      requires log == before + Probes(who, polls) && Polled(polls, Present)
      modifies this`log
      ensures Safe(log) && Known(log) == old(Known(log)) && log == before + Probes(who, looks)
      ensures r.Raised? ==> looks == polls
      ensures r.Done? ==> |looks| == |polls| + 1 && Polled(looks, r.value)
    {
      SightingsKeep(Known(log), who);
      hide *;
      looks := polls;
      r := SignalProcessGroup(who, Probe);
      if r.Done? {
        ProbesSnoc(before, who, polls, r.value);
        PolledAgain(polls, r.value);
        looks := polls + [r.value];
      }
    }

    /** Look at the group every twentieth of a second or slower, for five seconds at most. */
    method PollGroup(who: Command)
      returns (r: Outcome<GroupState>, ghost polls: seq<GroupState>, ghost waited: int)
      requires Safe(log) && Known(log).Of(who).Running?
      modifies this`log
      ensures Safe(log) && Known(log) == old(Known(log))
      ensures log == old(log) + Probes(who, polls)
      ensures r.Done? ==> Polled(polls, r.value)
      ensures |polls| <= 100 && (r.Done? && r.value.Present? ==> waited >= 5000)
    {
      assert Polled([], Present);
      NoProbes(log, who);
      hide *;
      var now: int := 0;
      r, polls, waited := Done(Present), [], 0;
      while r == Done(Present) && now < 5000
        invariant Safe(log) && Known(log) == old(Known(log)) && log == old(log) + Probes(who, polls)
        invariant r.Done? ==> Polled(polls, r.value)
        invariant |polls| <= 100 && (r.Done? ==> 50 * |polls| <= now)
        decreases if r == Done(Present) then 1 else 0, 5000 - now
      {
        r, polls := LookAgain(who, old(log), polls);
        var late: int := *;
        now := now + 50;
        if late > 0 {
          now := now + late;
        }
      }
      waited := now;
    }

    /** TERM, then poll while the group is present. */
    method AskToStop(who: Command) returns (r: Outcome<GroupState>, ghost seen: Sightings)
      requires Safe(log) && Known(log).Of(who).Running?
      modifies this`log
      ensures Safe(log) && Known(log) == old(Known(log))
      ensures r.Done? ==> seen.kill.None? && r.value == seen.AtLast()
      ensures r.Done? ==> (if seen.term.Present? then Polled(seen.polls, r.value) else seen.polls == [])
      ensures r.Done? ==> log == seen.SentAfter(old(log), who)
    {
      SightingsKeep(Known(log), who);
      hide *;
      seen := Sightings(Gone, [], None);
      r := SignalProcessGroup(who, Term);
      if r.Raised? {
        return;
      }
      ghost var term, polls, waited := r.value, [], 0;
      if r.value.Present? {
        r, polls, waited := PollGroup(who);
      } else {
        NoProbes(log, who);
      }
      seen := Sightings(term, polls, None);
      if r.Done? {
        LastSeen(seen, r.value);
        assert log == old(log) + [Signalled(who, Term, term)] + Probes(who, polls);
        Unkilled(old(log), who, seen);
      }
    }

    /** Ask the group to stop, and KILL it unless it was last seen gone. */
    method StopGroup(who: Command) returns (r: Outcome<GroupState>, ghost seen: Sightings)
      requires Safe(log) && Known(log).Of(who).Running?
      modifies this`log
      ensures Safe(log) && Known(log) == old(Known(log))
      ensures r.Done? ==> seen.InOrder() && log == seen.SentAfter(old(log), who)
    {
      SightingsKeep(Known(log), who);
      hide Safe, Known, Polled, Probes, Learn, Lawful, AfterSignal, Facts.With, Facts.Of;
      r, seen := AskToStop(who);
      if r.Done? && !r.value.Gone? {
        r := SignalProcessGroup(who, Kill);
        if r.Done? {
          seen := seen.(kill := Some(r.value));
        }
      }
    }

    /** Stop the group, reap the child, and look once more: only that last look tells. */
    method TeardownProcessGroup(who: Command) returns (r: Outcome<Teardown>, ghost seen: Sightings)
      requires Safe(log) && Known(log).Of(who).Running?
      modifies this`log
      ensures Safe(log)
      ensures Known(log) == old(Known(log)).With(who, Known(log).Of(who))
      ensures Settled(Known(log).Of(who)) <==> r.Done? && r.value.CleanupSafe()
      ensures !Known(log).Of(who).ExitedAlone? && !Known(log).Of(who).Refused?
      ensures r.Done? ==> seen.InOrder()
      ensures r.Done? ==>
        log == seen.SentAfter(old(log), who) + [Reaped(who, r.value.childReaped)]
               + [Signalled(who, Probe, r.value.group)]
    {
      hide Safe, Known, Polled, Probes, Learn, Lawful, Sightings.InOrder, Sightings.SentAfter;
      var group, seen' := StopGroup(who);
      seen := seen';
      if group.Raised? {
        return Raised, seen;
      }
      var childReaped :- ReapDirectChild(who);
      var last :- SignalProcessGroup(who, Probe);
      r := Done(Teardown(last, childReaped));
    }

    method ApplyTeardown(t: Teardown)
      modifies this`gate
      ensures gate.Open? <==> t.CleanupSafe()
    {
      gate := if t.CleanupSafe() then Open else Closed;
    }

    /** Tear the group down and let the gate follow; a teardown that raises leaves it closed. */
    method TeardownAndApply() returns (r: Outcome<()>)
      requires Valid() && gate.Closed? && parentExists && Known(log).process.Running?
      modifies this`gate, this`log, this`troubled
      ensures old(troubled) ==> troubled
      ensures r.Raised? ==> troubled
      ensures Valid()
      ensures Known(log) == old(Known(log)).(process := Known(log).process)
    {
      hide Safe, Known, Learn, Lawful, Sightings.InOrder, Sightings.SentAfter;
      var teardown, _ := TeardownProcessGroup(Implementer);
      if teardown.Raised? {
        Blame(true);
        return Raised;
      }
      ApplyTeardown(teardown.value);
      r := Done(());
    }

    /** Start the implementer and watch it to its end; `None` when it could not be started. */
    method RunImplementer(job: Job) returns (r: Outcome<Option<Watch>>)
      requires Valid() && Known(log) == REGISTERED && parentExists && gate.Open? && !registration.AbsentConfirmed?
      modifies this`gate, this`log, this`troubled
      ensures old(troubled) ==> troubled
      ensures r.Raised? ==> troubled
      ensures r == Done(None) ==> troubled
      ensures Valid()
      ensures Known(log) == REGISTERED.(process := Known(log).process, watch := Known(log).watch)
      ensures r.Done? ==> Known(log).watch == r.value
      ensures r.Done? && r.value.Some? ==> !(r.value.value.timedOut && r.value.value.exhausted.Some?)
      ensures r.Done? && r.value.Some? && !job.limits.Declared() ==> r.value.value.exhausted.None?
      ensures r.Done? && (r.value.None? || r.value.value.LeftAlone()) ==> gate.Open?
    {
      hide Safe, Known;
      var spool :- Need();
      if !spool {
        return Done(None);
      }
      gate := Closed;
      Note(Spawning(Implementer));
      var started :- Need();
      if !started {
        Note(SpawnRefused(Implementer));
        gate := Open;
        return Done(None);
      }
      var watched := WatchImplementer(job);
      if watched.Raised? {
        Blame(true);
        var _ := TeardownAndApply();
        return Raised;
      }
      Note(Watched(watched.value));
      if watched.value.LeftAlone() {
        gate := Open;
      } else {
        var _ :- TeardownAndApply();
      }
      var counted := CountOutput(job);
      if counted.Raised? {
        Blame(true);
        return Raised;
      }
      r := Done(Some(watched.value));
    }

    /** HEAD, stage, compare, commit: what a run that was not discarded comes to. */
    method CommitCandidate(watch: Watch) returns (r: Outcome<Receipt>)
      requires Valid() && Known(log) == Ran(Known(log).process, watch) && watch.Keeps()
      modifies this`log, this`troubled
      ensures old(troubled) ==> troubled
      ensures r.Raised? ==> troubled
      ensures r.Done? && IsTrouble(r.value.code) ==> troubled
      ensures Valid()
      ensures var f := Known(log);
              f == Ran(f.process, watch).(attached := f.attached, differs := f.differs, made := f.made)
      ensures r.Done? ==> Pending(Known(log), r.value) && !r.value.code.TestsFailed?
    {
      hide Safe, Known;
      var head :- Need();
      if !head {
        return Done(Receipt(GitFailed, None));
      }
      var attached: Option<bool> :- NeedAnswer();
      if attached.None? {
        return Done(Receipt(GitFailed, None));
      }
      Note(HeadSeen(attached.value));
      if attached.value {
        return Done(Receipt(CommandChangedHead, None));
      }
      r := CommitDetached(watch);
    }

    method CommitDetached(watch: Watch) returns (r: Outcome<Receipt>)
      requires Valid() && Known(log) == Ran(Known(log).process, watch).(attached := Some(false)) && watch.Keeps()
      modifies this`log, this`troubled
      ensures old(troubled) ==> troubled
      ensures r.Raised? ==> troubled
      ensures r.Done? && IsTrouble(r.value.code) ==> troubled
      ensures Valid()
      ensures var f := Known(log);
              f == Ran(f.process, watch).(attached := Some(false), differs := f.differs, made := f.made)
      ensures r.Done? ==> Pending(Known(log), r.value) && !r.value.code.TestsFailed?
    {
      hide Safe, Known;
      var staged :- Need();
      if !staged {
        return Done(Receipt(GitFailed, None));
      }
      var differs: Option<bool> :- NeedAnswer();
      if differs.None? {
        return Done(Receipt(GitFailed, None));
      }
      Note(Compared(differs.value));
      if !differs.value {
        return Done(Receipt(NoChanges, None));
      }
      r := CommitTree(watch);
    }

    method CommitTree(watch: Watch) returns (r: Outcome<Receipt>)
      requires Valid() && watch.Keeps()
      requires Known(log) == Ran(Known(log).process, watch).(attached := Some(false), differs := Some(true))
      modifies this`log, this`troubled
      ensures old(troubled) ==> troubled
      ensures r.Raised? ==> troubled
      ensures r.Done? && IsTrouble(r.value.code) ==> troubled
      ensures Valid()
      ensures var f := Known(log);
              f == Ran(f.process, watch).(attached := Some(false), differs := Some(true), made := f.made)
      ensures r.Done? ==> Pending(Known(log), r.value) && !r.value.code.TestsFailed?
    {
      hide Safe, Known;
      var commit: Option<Commit> :- NeedAnswer();
      if commit.None? {
        return Done(Receipt(GitFailed, None));
      }
      Note(Committed(commit.value));
      var readable :- Need();
      if !readable {
        return Done(Receipt(GitFailed, commit));
      }
      r := Done(Receipt(if watch.exhausted.Some? then BudgetExhausted else Ok, commit));
    }

    method RunAndCommit(job: Job) returns (r: Outcome<Receipt>)
      requires Valid() && Known(log) == REGISTERED && parentExists && gate.Open? && !registration.AbsentConfirmed?
      modifies this`gate, this`log, this`troubled
      ensures old(troubled) ==> troubled
      ensures r.Raised? ==> troubled
      ensures r.Done? && IsTrouble(r.value.code) ==> troubled
      ensures Valid()
      ensures Unpublished(Known(log)) && Known(log).verdict.None? && Known(log).test.NeverStarted?
      ensures Known(log).parent && !Known(log).unregistered
      ensures r.Done? ==> Pending(Known(log), r.value) && !r.value.code.TestsFailed?
    {
      hide Safe, Known, Learn, Lawful;
      var watch :- RunImplementer(job);
      if watch.None? {
        return Done(Receipt(CommandUnavailable, None));
      }
      if watch.value.timedOut {
        return Done(Receipt(CommandTimeout, None));
      }
      if watch.value.exhausted.None? && watch.value.EffectiveStatus() != 0 {
        return Done(Receipt(CommandFailed, None));
      }
      r := CommitCandidate(watch.value);
    }

    /** Run the test command once. Of one that overruns, the teardown's result is dropped. */
    method RunTestCommand() returns (r: Outcome<Validation.RunOutcome>)
      requires Safe(log) && Lawful(Known(log), Spawning(Test))
      modifies this`log, this`troubled
      ensures old(troubled) ==> troubled
      ensures r.Raised? ==> troubled
      ensures Safe(log) && Known(log) == old(Known(log)).(test := Known(log).test)
      ensures r.Done? ==> (r.value.Exited? <==> Known(log).test.ExitedAlone?)
      ensures r.Done? ==> (r.value.Unavailable? <==> Known(log).test.Refused?)
      ensures r.Done? && r.value.Exited? ==> log == old(log) + [Spawning(Test)] + [TestExited]
    {
      hide Safe, Known;
      Note(Spawning(Test));
      var started :- Need();
      if !started {
        Note(SpawnRefused(Test));
        return Done(Validation.Unavailable);
      }
      var inTime := Ask();
      if inTime == Done(true) {
        Note(TestExited);
        var code: int := *;
        return Done(Validation.Exited(code));
      }
      var teardown, _ := TeardownProcessGroup(Test);
      if inTime.Raised? || teardown.Raised? {
        Blame(true);
        return Raised;
      }
      var drained :- Need();
      r := Done(Validation.TimedOut);
    }

    /** Run the list until a run does not complete; each is held to what is left of the time-out. */
    method RunTests(job: Job) returns (r: Outcome<Validation.Verdict>)
      requires Safe(log) && Lawful(Known(log), Spawning(Test)) && Known(log).test.NeverStarted?
      modifies this`log, this`troubled
      ensures old(troubled) ==> troubled
      ensures r.Raised? ==> troubled
      ensures Safe(log) && Known(log) == old(Known(log)).(test := Known(log).test)
      ensures r.Done? ==> (r.value.CouldNotRun? <==> Known(log).test.Refused?)
      ensures r.Done? && r.value.Passed? ==> log == old(log) + Exits(job.runs)
      ensures r.Done? && r.value.Passed? && job.runs > 0 ==> Known(log).test.ExitedAlone?
      ensures r.Done? && r.value.Overran? ==> !Known(log).test.ExitedAlone? && !Known(log).test.Refused?
    {
      hide Safe, Known, Exits;
      var outcomes: seq<Validation.RunOutcome>, seconds: seq<real> := [], [];
      NoExits(log);
      while |outcomes| < job.runs && Validation.StopAt(outcomes) == |outcomes|
        invariant Safe(log) && Known(log) == old(Known(log)).(test := Known(log).test)
        invariant |seconds| == |outcomes| && Validation.WithinAllotments(job.timeout, seconds)
        invariant Validation.StopAt(outcomes) == |outcomes| ==> Lawful(Known(log), Spawning(Test))
        invariant |outcomes| <= job.runs && Tells(outcomes, Known(log).test) && (old(troubled) ==> troubled)
        invariant Validation.StopAt(outcomes) == |outcomes| ==> log == old(log) + Exits(|outcomes|)
        decreases job.runs - |outcomes|
      {
        OneMoreExit(old(log), |outcomes|);
        var outcome :- RunTestCommand();
        var took := AskSeconds(Validation.Allotment(job.timeout, Validation.Elapsed(seconds)));
        Validation.OneMoreRun(outcomes, outcome, job.timeout, seconds, took);
        outcomes, seconds := outcomes + [outcome], seconds + [took];
      }
      var verdict, _ := Validation.ValidateCandidate(outcomes, job.timeout, seconds);
      r := Done(verdict);
    }

    /**
     * Check the candidate out, restore the carried tests, run. Only a failed verdict changes the code,
     * and only when the budget was not what ended the run.
     */
    method ValidateCandidate(job: Job, pending: Receipt) returns (r: Outcome<Receipt>)
      requires Valid() && (pending.code.Ok? || pending.code.BudgetExhausted?)
      requires var f := Known(log); MayTest(f) && f.test.NeverStarted? && f.parent && !f.unregistered
      modifies this`log, this`troubled
      ensures old(troubled) ==> troubled
      ensures r.Raised? ==> troubled
      ensures Valid()
      ensures Known(log) == old(Known(log)).(verdict := Known(log).verdict, test := Known(log).test)
      ensures r.Done? ==> r.value.commit == pending.commit
      ensures r.Done? ==> (pending.code.BudgetExhausted? <==> r.value.code.BudgetExhausted?)
      ensures r.Done? && r.value.code != BudgetExhausted ==>
                r.value.code == if Known(log).verdict.Some? && Known(log).verdict.value.Failed? then TestsFailed else Ok
    {
      hide Safe, Known;
      if job.runs == 0 {
        return Done(pending);
      }
      var ready :- Need();
      if ready {
        ready :- Need();
      }
      var verdict := Validation.CouldNotRun;
      if ready {
        verdict :- RunTests(job);
      }
      Note(Validated(verdict));
      r := Done(if verdict.Failed? && pending.code.Ok? then pending.(code := TestsFailed) else pending);
    }

    method RemoveWorktree() returns (r: Outcome<bool>)
      requires Valid() && gate.Open? && !registration.AbsentConfirmed? && parentExists
      modifies this`log, this`troubled
      ensures old(troubled) ==> troubled
      ensures r != Done(true) ==> troubled
      ensures Safe(log) && !Known(log).unregistered == (r != Done(true))
      ensures Known(log) == old(Known(log)).(unregistered := Known(log).unregistered)
    {
      hide Safe, Known;
      Note(Removing);
      var removed :- Need();
      var listed := WorktreeRegistered();
      Blame(listed != Done(Some(false)));
      if listed.Raised? {
        return Raised;
      }
      r := Done(listed.value == Some(false));
    }

    /** Nothing is removed behind a closed gate; the result says whether anything is left. */
    method CleanupAttempt() returns (r: Outcome<bool>)
      requires Valid()
      modifies this`registration, this`parentExists, this`log, this`troubled
      ensures old(troubled) ==> troubled
      ensures r != Done(true) ==> troubled || old(gate).Closed?
      ensures Valid()
      ensures var f := Known(log); f == old(Known(log)).(unregistered := f.unregistered, parent := f.parent)
      ensures r == Done(true) <==> Clean(Known(log))
      ensures old(gate).Closed? ==> r == Done(false) && log == old(log)
    {
      hide Safe, Known;
      if gate.Closed? {
        return Done(false);
      }
      if !registration.AbsentConfirmed? {
        var removed :- RemoveWorktree();
        if !removed {
          return Done(false);
        }
        registration := AbsentConfirmed;
      }
      if parentExists {
        var deleted :- Need();
        if !deleted {
          return Done(false);
        }
        Note(ParentDeleted);
        parentExists := false;
      }
      r := Done(true);
    }

    /** One create-only ref write; the receipt stands only if it succeeded. */
    method Publish(pending: Receipt) returns (r: Outcome<Receipt>)
      requires Valid() && Clean(Known(log)) && !Known(log).wrote && Known(log).published.None?
      requires Creates(pending.code) && pending.commit.Some? && pending.commit == Known(log).made
      modifies this`log, this`troubled
      ensures old(troubled) ==> troubled
      ensures r.Raised? ==> troubled
      ensures r.Done? && IsTrouble(r.value.code) ==> troubled
      ensures Valid()
      ensures var f := Known(log); f == old(Known(log)).(wrote := f.wrote, published := f.published)
      ensures r.Done? && Known(log).published.Some? ==> r.value == pending && pending.commit == Known(log).published
      ensures r.Done? && Known(log).published.None? ==>
                r.value.code in {CandidateExists, GitFailed} && r.value.commit == pending.commit
    {
      hide Safe, Known;
      var written: bool := *;
      var created: bool := *;
      if written {
        Note(RefWrite(pending.commit.value, created));
      }
      var returned: bool := *;
      Blame(!returned || !written || !created);
      if !returned {
        return Raised;
      }
      if written && created {
        return Done(pending);
      }
      var exists': Option<bool> :- NeedAnswer();
      r := Done(Receipt(if exists' == Some(true) then CandidateExists else GitFailed, pending.commit));
    }

    /** Run, commit and validate in a worktree that Git confirmed. */
    method Produce(job: Job) returns (r: Outcome<Receipt>)
      requires Valid() && Known(log) == REGISTERED && parentExists && gate.Open? && !registration.AbsentConfirmed?
      modifies this`gate, this`log, this`troubled
      ensures old(troubled) ==> troubled
      ensures r.Raised? ==> troubled
      ensures r.Done? && IsTrouble(r.value.code) ==> troubled
      ensures Valid() && Unpublished(Known(log))
      ensures r.Done? ==> Pending(Known(log), r.value)
    {
      hide Safe, Known, Learn, Lawful;
      var pending :- RunAndCommit(job);
      if pending.code.Ok? || pending.code.BudgetExhausted? {
        pending :- ValidateCandidate(job, pending);
      }
      r := Done(pending);
    }

    /** Add the worktree and look whether Git lists it; the answer says that both were confirmed. */
    method Register() returns (r: Outcome<bool>)
      requires Valid() && log == [] && parentExists && registration.AbsentConfirmed?
      modifies this
      ensures old(troubled) ==> troubled
      ensures r != Done(true) ==> troubled
      ensures Valid() && parentExists && gate.Open?
      ensures Known(log) == NOTHING.(unregistered := Known(log).unregistered)
      ensures r == Done(true) ==> Known(log) == REGISTERED && !registration.AbsentConfirmed?
    {
      hide Safe, Known, Learn, Lawful;
      BeginAdding();
      var added :- Need();
      var listed := WorktreeRegistered();
      Blame(listed != Done(Some(true)));
      if listed.Raised? {
        return Raised;
      }
      ObserveRegistration(listed.value);
      r := Done(added && listed.value == Some(true));
    }

    /** From here on the worktree may be registered. */
    method BeginAdding()
      requires Valid() && log == []
      modifies `registration, `log
      ensures Valid() && Known(log) == REGISTERED && registration.MayExist?
    {
      assert Known([]) == NOTHING;
      hide Safe, Known;
      registration := MayExist;
      Note(Adding);
    }

    /** Without a confirmed registration nothing is run. */
    method RegisterAndProduce(job: Job) returns (r: Outcome<Receipt>)
      requires Valid() && log == [] && parentExists && registration.AbsentConfirmed?
      modifies this
      ensures old(troubled) ==> troubled
      ensures r.Raised? ==> troubled
      ensures r.Done? && IsTrouble(r.value.code) ==> troubled
      ensures Valid() && Unpublished(Known(log))
      ensures r.Done? ==> Pending(Known(log), r.value)
    {
      hide Safe, Known, Pending;
      var registered :- Register();
      if registered {
        r := Produce(job);
      } else {
        r := Done(Receipt(GitFailed, None));
        NothingPending(Known(log));
      }
    }

    /** The body under `finally`; `retain` says that what is left is kept on purpose. */
    method TryAttempt(job: Job) returns (r: Outcome<Receipt>, retain: bool)
      requires Valid() && log == [] && parentExists && registration.AbsentConfirmed?
      modifies this
      ensures old(troubled) ==> troubled
      ensures r.Raised? ==> troubled
      ensures r.Done? && IsTrouble(r.value.code) ==> troubled
      ensures r.Done? && r.value.code.CleanupFailed? ==> troubled || !Quiet(Known(log))
      ensures Valid() && !Known(log).diagnosed
      ensures r.Done? ==> Reported(Known(log), r.value) && (retain <==> !Clean(Known(log)))
      ensures retain ==> r.Done?
    {
      hide Safe, Known, Learn, Lawful;
      retain := false;
      var pending :- RegisterAndProduce(job);
      var clean :- CleanupAttempt();
      if !clean {
        return Done(Receipt(CleanupFailed, pending.commit)), true;
      }
      if !Creates(pending.code) {
        return Done(pending), false;
      }
      r := Publish(pending);
    }

    /** The whole attempt: whatever raised, what is left is cleaned up or reported. */
    method Run(job: Job) returns (r: Outcome<Receipt>)
      requires Valid() && log == [] && parentExists && registration.AbsentConfirmed?
      modifies this
      ensures old(troubled) ==> troubled
      ensures r.Raised? ==> troubled
      ensures r.Done? && IsTrouble(r.value.code) ==> troubled
      ensures r.Done? && r.value.code.CleanupFailed? ==> troubled || !Quiet(Known(log))
      ensures Valid() && Concluded(log, r)
    {
      hide Safe, Known;
      var retain;
      r, retain := TryAttempt(job);
      if !retain && NeedsCleanup() {
        var clean := CleanupAttempt();
        if clean != Done(true) {
          Note(Diagnosed);
        }
      }
    }
  }
}
