/** What a receipt says of an attempt, told from the events of its log alone. */
module Receipts {
  import opened Bytes
  import opened Delivery
  import Validation

  // One predicate a fact: it is known exactly when it was logged.

  ghost predicate WatchIsLogged(known: Option<Watch>, log: seq<Event>) {
    forall w: Watch :: known == Some(w) <==> Watched(w) in log
  }

  ghost predicate HeadIsLogged(known: Option<bool>, log: seq<Event>) {
    forall b: bool :: known == Some(b) <==> HeadSeen(b) in log
  }

  ghost predicate TreeIsLogged(known: Option<bool>, log: seq<Event>) {
    forall b: bool :: known == Some(b) <==> Compared(b) in log
  }

  ghost predicate CommitIsLogged(known: Option<Commit>, log: seq<Event>) {
    forall c: Commit :: known == Some(c) <==> Committed(c) in log
  }

  ghost predicate VerdictIsLogged(known: Option<Validation.Verdict>, log: seq<Event>) {
    forall v: Validation.Verdict :: known == Some(v) <==> Validated(v) in log
  }

  ghost predicate RefIsLogged(published: Option<Commit>, wrote: bool, log: seq<Event>) {
    && (forall c: Commit :: published == Some(c) <==> RefWrite(c, true) in log)
    && (published.Some? ==> wrote)
  }

  /** Every fact a receipt speaks of was logged. */
  ghost predicate IsLogged(f: Facts, log: seq<Event>) {
    && WatchIsLogged(f.watch, log) && HeadIsLogged(f.attached, log) && TreeIsLogged(f.differs, log)
    && CommitIsLogged(f.made, log) && VerdictIsLogged(f.verdict, log) && RefIsLogged(f.published, f.wrote, log)
    && (f.parent <==> ParentDeleted !in log) && (f.diagnosed <==> Diagnosed in log)
  }

  lemma WatchStep(f: Facts, log: seq<Event>, e: Event)
    requires WatchIsLogged(f.watch, log) && Lawful(f, e)
    ensures WatchIsLogged(Learn(f, e).watch, log + [e])
  {
    assert forall w: Watch :: Watched(w) in log + [e] <==> Watched(w) in log || e == Watched(w);
    hide Quiet, Clean, Settled, MayTest, MayStart;
  }

  lemma HeadStep(f: Facts, log: seq<Event>, e: Event)
    requires HeadIsLogged(f.attached, log) && Lawful(f, e)
    ensures HeadIsLogged(Learn(f, e).attached, log + [e])
  {
    assert forall b: bool :: HeadSeen(b) in log + [e] <==> HeadSeen(b) in log || e == HeadSeen(b);
    hide Quiet, Clean, Settled, MayTest, MayStart;
  }

  lemma TreeStep(f: Facts, log: seq<Event>, e: Event)
    requires TreeIsLogged(f.differs, log) && Lawful(f, e)
    ensures TreeIsLogged(Learn(f, e).differs, log + [e])
  {
    assert forall b: bool :: Compared(b) in log + [e] <==> Compared(b) in log || e == Compared(b);
    hide Quiet, Clean, Settled, MayTest, MayStart;
  }

  lemma CommitStep(f: Facts, log: seq<Event>, e: Event)
    requires CommitIsLogged(f.made, log) && Lawful(f, e)
    ensures CommitIsLogged(Learn(f, e).made, log + [e])
  {
    assert forall c: Commit :: Committed(c) in log + [e] <==> Committed(c) in log || e == Committed(c);
    hide Quiet, Clean, Settled, MayTest, MayStart;
  }

  lemma VerdictStep(f: Facts, log: seq<Event>, e: Event)
    requires VerdictIsLogged(f.verdict, log) && Lawful(f, e)
    ensures VerdictIsLogged(Learn(f, e).verdict, log + [e])
  {
    assert forall v: Validation.Verdict :: Validated(v) in log + [e] <==> Validated(v) in log || e == Validated(v);
    hide Quiet, Clean, Settled, MayTest, MayStart;
  }

  lemma RefStep(f: Facts, log: seq<Event>, e: Event)
    requires RefIsLogged(f.published, f.wrote, log) && Lawful(f, e)
    ensures RefIsLogged(Learn(f, e).published, Learn(f, e).wrote, log + [e])
  {
    assert forall c: Commit :: RefWrite(c, true) in log + [e] <==> RefWrite(c, true) in log || e == RefWrite(c, true);
    hide Quiet, Clean, Settled, MayTest, MayStart;
  }

  lemma FlagStep(f: Facts, log: seq<Event>, e: Event)
    requires (f.parent <==> ParentDeleted !in log) && (f.diagnosed <==> Diagnosed in log)
    ensures Learn(f, e).parent <==> ParentDeleted !in log + [e]
    ensures Learn(f, e).diagnosed <==> Diagnosed in log + [e]
  {
  }

  lemma FactsStep(f: Facts, log: seq<Event>, e: Event)
    requires IsLogged(f, log) && Lawful(f, e)
    ensures IsLogged(Learn(f, e), log + [e])
  {
    hide Learn, Lawful, WatchIsLogged, HeadIsLogged, TreeIsLogged, CommitIsLogged, VerdictIsLogged, RefIsLogged;
    WatchStep(f, log, e);
    HeadStep(f, log, e);
    TreeStep(f, log, e);
    CommitStep(f, log, e);
    VerdictStep(f, log, e);
    RefStep(f, log, e);
    FlagStep(f, log, e);
  }

  lemma {:induction false} FactsAreLogged(log: seq<Event>)
    requires Safe(log)
    ensures IsLogged(Known(log), log)
  {
    if log == [] {
    } else {
      hide *;
      var n := |log| - 1;
      assert log == log[..n] + [log[n]];
      KnownLast(log);
      FactsAreLogged(log[..n]);
      FactsStep(Known(log[..n]), log[..n], log[n]);
    }
  }

  /** The run that was watched may leave a candidate: a limit ended it, or it exited with 0 or 15 in time. */
  predicate Earned(w: Watch) {
    !w.timedOut && (w.exhausted.Some? || w.status == 0 || w.status == 15)
  }

  /** A candidate commit is made only after such a run, on a detached HEAD, of a tree that differs. */
  lemma CommitIsEarned(log: seq<Event>, i: nat)
    requires Safe(log) && i < |log| && log[i].Committed?
    ensures exists w :: Watched(w) in log[..i] && Earned(w)
    ensures HeadSeen(false) in log[..i] && HeadSeen(true) !in log[..i] && Compared(true) in log[..i]
    ensures forall c: Commit :: Committed(c) !in log[..i]
  {
    hide Known, Safe;
    AtStep(log, i);
    FactsAreLogged(log[..i]);
    var w := Known(log[..i]).watch.value;
    assert Watched(w) in log[..i] && Earned(w);
  }

  /** A test command is started only with a candidate commit made, and before there is a verdict on it. */
  lemma TestsFollowTheCommit(log: seq<Event>, i: nat)
    requires Safe(log) && i < |log| && (log[i] == Spawning(Test) || log[i].Validated?)
    ensures exists c: Commit :: Committed(c) in log[..i]
    ensures forall v :: Validated(v) !in log[..i]
  {
    hide Known, Safe;
    AtStep(log, i);
    FactsAreLogged(log[..i]);
    var c := Known(log[..i]).made.value;
    assert Committed(c) in log[..i];
  }

  lemma {:induction false} ProbesAre(who: Command, polls: seq<GroupState>)
    ensures |Probes(who, polls)| == |polls|
    ensures forall k :: 0 <= k < |polls| ==> Probes(who, polls)[k] == Signalled(who, Probe, polls[k])
  {
    if polls != [] {
      ProbesAre(who, polls[..|polls| - 1]);
    }
  }

  /**
   * The signals that stop a group, as they stand in the log: TERM first and once; a look only at a group just
   * seen present; KILL last, and only at one not just seen gone. They end with KILL or with a group seen gone.
   */
  lemma StopsInOrder(log: seq<Event>, who: Command, seen: Sightings)
    requires seen.InOrder()
    ensures var sent, n := seen.SentAfter(log, who), |log|;
            && n < |sent| && sent[..n] == log
            && (forall i :: n <= i < |sent| ==> sent[i].Signalled? && sent[i].who == who)
            && (forall i :: n <= i < |sent| ==> (sent[i].signal.Term? <==> i == n))
            && (forall i :: n < i < |sent| && sent[i].signal.Probe? ==> sent[i - 1].seen.Present?)
            && (forall i :: n < i < |sent| && sent[i].signal.Kill? ==> i == |sent| - 1 && !sent[i - 1].seen.Gone?)
            && (sent[|sent| - 1].signal.Kill? || sent[|sent| - 1].seen.Gone?)
  {
    ProbesAre(who, seen.polls);
  }

  /** `own` is what stands at `places`, in their order, and no other place of the history is that delivery's. */
  predicate Selects(history: seq<Step>, who: nat, places: seq<nat>, own: seq<Event>) {
    && |places| == |own|
    && (forall k :: 0 <= k < |places| ==> places[k] < |history| && history[places[k]] == Ours(who, own[k]))
    && (forall j, k :: 0 <= j < k < |places| ==> places[j] < places[k])
    && (forall i :: 0 <= i < |history| && history[i].Ours? && history[i].who == who ==> i in places)
  }

  lemma SelectsOneMore(history: seq<Step>, who: nat, places: seq<nat>, own: seq<Event>, e: Event)
    requires Selects(history, who, places, own)
    ensures Selects(history + [Ours(who, e)], who, places + [|history|], own + [e])
  {
    var now := places + [|history|];
    assert now[|places|] == |history|;
    assert forall i :: i in places ==> i in now;
  }

  lemma SelectsNoMore(history: seq<Step>, who: nat, places: seq<nat>, own: seq<Event>, step: Step)
    requires Selects(history, who, places, own) && !(step.Ours? && step.who == who)
    ensures Selects(history + [step], who, places, own)
  {
  }

  /** The log of one delivery among many: exactly its own steps, in their order. */
  lemma {:induction false} OwnIsInOrder(history: seq<Step>, who: nat) returns (places: seq<nat>)
    ensures Selects(history, who, places, Own(history, who))
  {
    if history == [] {
      places := [];
    } else {
      hide Selects;
      var last := |history| - 1;
      var own := Own(history[..last], who);
      places := OwnIsInOrder(history[..last], who);
      assert history == history[..last] + [history[last]];
      if history[last].Ours? && history[last].who == who {
        SelectsOneMore(history[..last], who, places, own, history[last].event);
        places := places + [last];
      } else {
        SelectsNoMore(history[..last], who, places, own, history[last]);
        assert own + [] == own;
      }
    }
  }

  /** The directory goes only after Git was last heard to list nothing, or was never asked to add anything. */
  lemma DeletedOnceUnlisted(log: seq<Event>, i: nat)
    requires Safe(log) && i < |log| && log[i].ParentDeleted?
    ensures Adding in log[..i] ==> exists j :: 0 <= j < i && log[j] == Listed(Some(false)) && NoListing(log[j + 1..i])
  {
    hide Known, Safe;
    AtStep(log, i);
    if Adding in log[..i] {
      var j := LastListing(log[..i]);
      assert log[..i][j] == log[j] && log[..i][j + 1..] == log[j + 1..i];
    }
  }

  /** Git was not asked again, to add or to list. */
  predicate NoListing(log: seq<Event>) {
    forall k :: 0 <= k < |log| ==> !log[k].Listed? && !log[k].Adding?
  }

  lemma {:induction false} LastListing(log: seq<Event>) returns (j: nat)
    requires Safe(log) && Known(log).unregistered && exists k :: 0 <= k < |log| && (log[k].Adding? || log[k].Listed?)
    ensures j < |log| && log[j] == Listed(Some(false)) && NoListing(log[j + 1..])
  {
    hide Safe;
    var n := |log| - 1;
    KnownLast(log);
    if log[n].Listed? {
      j := n;
    } else {
      var k :| 0 <= k < |log| && (log[k].Adding? || log[k].Listed?);
      assert log[..n][k] == log[k];
      j := LastListing(log[..n]);
      assert log[..n][j] == log[j] && log[j + 1..] == log[..n][j + 1..] + [log[n]];
    }
  }

  /** An implementer that ended by itself, in time and within its budget, with none of the good statuses. */
  predicate ExitedBadly(w: Watch) {
    !w.timedOut && w.exhausted.None? && w.status != 0 && w.status != 15
  }

  predicate ExitedWell(w: Watch) {
    !w.timedOut && w.exhausted.None? && (w.status == 0 || w.status == 15)
  }

  /** Each code of a receipt means that something was logged. */
  ghost predicate CodeIsLogged(log: seq<Event>, code: Code) {
    && (code.CommandFailed? <==> exists w :: Watched(w) in log && ExitedBadly(w))
    && (code.CommandTimeout? <==> exists w :: Watched(w) in log && w.timedOut)
    && (code.CommandChangedHead? <==> HeadSeen(true) in log)
    && (code.NoChanges? <==> Compared(false) in log)
    && (code.CommandUnavailable? ==> forall w :: Watched(w) !in log)
    && (code.BudgetExhausted? ==> exists w :: Watched(w) in log && w.exhausted.Some?)
    && (code.Ok? || code.TestsFailed? ==> exists w :: Watched(w) in log && ExitedWell(w))
    && (code.TestsFailed? ==> exists n :: Validated(Validation.Failed(n)) in log)
    && (code.Ok? ==> forall n :: Validated(Validation.Failed(n)) !in log)
  }

  lemma FitsIsLogged(f: Facts, log: seq<Event>, code: Code)
    requires IsLogged(f, log) && CodeFits(f, code)
    ensures CodeIsLogged(log, code)
  {
    if f.watch.Some? {
      assert Watched(f.watch.value) in log;
    }
    if code.TestsFailed? {
      assert Validated(Validation.Failed(f.verdict.value.code)) in log;
    }
  }

  /**
   * The receipt of a whole attempt, against its log: a candidate was created exactly when the ref was; it
   * names the commit that was made; cleanup failed exactly when the directory is still there; and short
   * of that the code says how the implementer ended, with which status, and what became of its tree.
   */
  lemma ReceiptIsLogged(log: seq<Event>, r: Receipt)
    requires Concluded(log, Done(r))
    ensures r.code.Ok? || r.code.TestsFailed? || r.code.BudgetExhausted? <==>
            exists c: Commit :: RefWrite(c, true) in log
    ensures forall c: Commit :: r.commit == Some(c) <==> Committed(c) in log
    ensures r.code.CleanupFailed? <==> ParentDeleted !in log
    ensures r.code.CleanupFailed? || CodeIsLogged(log, r.code)
  {
    hide Safe, Known, CodeFits, CodeIsLogged, Clean;
    var f := Known(log);
    FactsAreLogged(log);
    CleanIsDeleted(log);
    if f.published.Some? {
      assert RefWrite(f.published.value, true) in log;
    }
    if !r.code.CleanupFailed? {
      FitsIsLogged(f, log, r.code);
    }
  }

  /** The code that a watched run comes to when nothing outside the attempt fails. */
  ghost function CodeOf(log: seq<Event>, w: Watch): Code {
    if w.timedOut then CommandTimeout
    else if ExitedBadly(w) then CommandFailed
    else if HeadSeen(true) in log then CommandChangedHead
    else if Compared(false) in log then NoChanges
    else if w.exhausted.Some? then BudgetExhausted
    else if exists n :: Validated(Validation.Failed(n)) in log then TestsFailed
    else Ok
  }

  /** Unless a call failed or something was left behind, how the run ended leaves no choice of code. */
  lemma CodeIsDetermined(log: seq<Event>, r: Receipt, w: Watch)
    requires Concluded(log, Done(r)) && !IsTrouble(r.code) && !r.code.CleanupFailed? && Watched(w) in log
    ensures r.code == CodeOf(log, w)
  {
    hide Safe, Known;
    ReceiptIsLogged(log, r);
    FactsAreLogged(log);
    assert forall x :: Watched(x) in log ==> x == w;
  }

  /** Nothing of the attempt is left exactly when its directory was deleted. */
  lemma CleanIsDeleted(log: seq<Event>)
    requires Safe(log)
    ensures Clean(Known(log)) <==> ParentDeleted in log
  {
    hide Safe, Known, Learn, Lawful;
    FactsAreLogged(log);
    if ParentDeleted in log {
      var i :| 0 <= i < |log| && log[i] == ParentDeleted;
      AtStep(log, i);
      DeletedIsClean(Known(log[..i]));
      StaysClean(log, i + 1);
    }
  }

  lemma DeletedIsClean(f: Facts)
    requires Lawful(f, ParentDeleted)
    ensures Clean(Learn(f, ParentDeleted))
  {
  }
}
