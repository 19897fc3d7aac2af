/** What a session's listeners do, told from what happened and was sent, without their variables. */
module SessionHistory {
  import opened Bytes
  import opened SessionRunner

  /** The mutations that landed on source paths. */
  function SourceMutations(events: seq<Event>): nat {
    if events == [] then 0
    else SourceMutations(events[..|events| - 1]) + (if events[|events| - 1] == Landed(true) then 1 else 0)
  }

  predicate Ran(x: Exchange) {
    x.outcome.Completed?
  }

  predicate FoundRed(o: Outcome) {
    o.Completed? && (o.exitCode != 0 || o.timedOut)
  }

  /** The generation last tested: by a run that completed, or by a gate whatever came back. */
  function LastChecked(finished: seq<Exchange>): Option<nat> {
    if finished == [] then None
    else
      var last := finished[|finished| - 1];
      if Ran(last) || last.caller != InTurn then Some(last.at) else LastChecked(finished[..|finished| - 1])
  }

  /** The generation of the last run that completed. */
  function LastRunAt(finished: seq<Exchange>): Option<nat> {
    if finished == [] then None
    else
      var last := finished[|finished| - 1];
      if Ran(last) then Some(last.at) else LastRunAt(finished[..|finished| - 1])
  }

  /** Whether that run was green; forgotten at a later refusal, unless it was the enforced gate's. */
  function LastVerdict(finished: seq<Exchange>): Option<bool> {
    if finished == [] then None
    else
      var last := finished[|finished| - 1];
      if Ran(last) then Some(!FoundRed(last.outcome))
      else if last.caller == Enforcing then LastVerdict(finished[..|finished| - 1])
      else None
  }

  /** The generation the red-stop gate last looked at, or the enforced gate last found red. */
  function LastTold(finished: seq<Exchange>): Option<nat> {
    if finished == [] then None
    else
      var last := finished[|finished| - 1];
      if last.caller == RedStopping || (last.caller == Enforcing && FoundRed(last.outcome)) then Some(last.at)
      else LastTold(finished[..|finished| - 1])
  }

  function LastSteer(sent: seq<Message>): Option<nat> {
    if sent == [] then None
    else
      var last := sent[|sent| - 1];
      if last.Steer? then Some(last.source) else LastSteer(sent[..|sent| - 1])
  }

  lemma HistorySnoc(finished: seq<Exchange>, x: Exchange)
    ensures LastChecked(finished + [x]) == if Ran(x) || x.caller != InTurn then Some(x.at) else LastChecked(finished)
    ensures LastRunAt(finished + [x]) == if Ran(x) then Some(x.at) else LastRunAt(finished)
    ensures LastVerdict(finished + [x]) ==
            if Ran(x) then Some(!FoundRed(x.outcome)) else if x.caller == Enforcing then LastVerdict(finished) else None
    ensures LastTold(finished + [x]) ==
            if x.caller == RedStopping || (x.caller == Enforcing && FoundRed(x.outcome)) then Some(x.at)
            else LastTold(finished)
  {
    assert (finished + [x])[..|finished|] == finished;
  }

  lemma SentSnoc(sent: seq<Message>, m: Message)
    ensures LastSteer(sent + [m]) == if m.Steer? then Some(m.source) else LastSteer(sent)
    ensures ResumeCount(sent + [m]) == ResumeCount(sent) + (if m.Resume? then 1 else 0)
  {
    assert (sent + [m])[..|sent|] == sent;
  }

  /** What a listener's variable holds is a function of the exchanges and the messages. */
  predicate Recalls(s: Session) {
    && s.checked == LastChecked(s.finished) && s.lastAt == LastRunAt(s.finished)
    && s.lastPassed == LastVerdict(s.finished) && s.redStopped == LastTold(s.finished)
    && s.nudged == LastSteer(s.sent) && s.resumes == ResumeCount(s.sent)
  }

  lemma GatesRecall(s: Session, turn: Turn, answer: Outcome)
    requires Recalls(s)
    ensures Recalls(RunGates(s, turn, answer))
  {
    hide LastChecked, LastRunAt, LastVerdict, LastTold, LastSteer, ResumeCount;
    HistorySnoc(s.finished, Exchange(s.generation, answer, Enforcing));
    HistorySnoc(s.finished, Exchange(s.generation, answer, RedStopping));
    SentSnoc(s.sent, Enforced(s.generation));
    SentSnoc(s.sent, RedStop(s.generation));
  }

  lemma EndRecalls(s: Session, id: Id, outcome: Outcome)
    requires Recalls(s) && id in s.inflight
    ensures Recalls(Next(s, End(id, outcome)))
  {
    hide LastChecked, LastRunAt, LastVerdict, LastTold, LastSteer, ResumeCount;
    HistorySnoc(s.finished, Exchange(s.inflight[id], outcome, InTurn));
  }

  lemma TurnRecalls(s: Session, turn: Turn, answer: Outcome)
    requires Recalls(s)
    ensures Recalls(Next(s, TurnEnd(turn, answer)))
  {
    hide LastChecked, LastRunAt, LastVerdict, LastTold, LastSteer, ResumeCount, RunGates;
    GatesRecall(s, turn, answer);
    SentSnoc(RunGates(s, turn, answer).sent, Resume);
  }

  lemma SteerRecalls(s: Session, k: nat)
    requires Recalls(s)
    ensures Recalls(Next(s, TestResult(k)))
  {
    hide LastChecked, LastRunAt, LastVerdict, LastTold, LastSteer, ResumeCount, RunGates;
    SentSnoc(s.sent, Steer(s.sourceGeneration));
  }

  lemma StepRecalls(s: Session, e: Event)
    requires Recalls(s)
    ensures Recalls(Next(s, e))
  {
    hide LastChecked, LastRunAt, LastVerdict, LastTold, LastSteer, ResumeCount, RunGates;
    match e
    case End(id, outcome) =>
      if id in s.inflight {
        EndRecalls(s, id, outcome);
      }
    case TestResult(k) => SteerRecalls(s, k);
    case TurnEnd(turn, answer) => TurnRecalls(s, turn, answer);
    case _ =>
  }

  lemma SourceStep(s: Session, e: Event)
    ensures Next(s, e).sourceGeneration == s.sourceGeneration + (if e == Landed(true) then 1 else 0)
  {
  }

  /** In every session each variable of the listeners is what the history says. */
  lemma {:induction false} VariablesAreHistory(events: seq<Event>)
    ensures var s := After(events);
            && s.generation == Mutations(events) && s.sourceGeneration == SourceMutations(events)
            && Recalls(s)
  {
    hide Next, Recalls;
    if events == [] {
      assert Recalls(START) by { StartRecalls(); }
    } else {
      var last := |events| - 1;
      VariablesAreHistory(events[..last]);
      StepRecalls(After(events[..last]), events[last]);
      SourceStep(After(events[..last]), events[last]);
      GenerationStep(After(events[..last]), events[last]);
    }
  }

  lemma StartRecalls()
    ensures Recalls(START)
  {
  }

  // ---------------------------------------------------------------- exactly which messages are sent

  /** The assistant stopped of its own accord: no error, no abort, and no tool call. */
  predicate Stops(turn: Turn) {
    turn.assistant && turn.stop != Errored && turn.stop != Aborted && !turn.toolCall
  }

  /** A stop over a generation that was not tested since it landed. */
  predicate Unchecked(finished: seq<Exchange>, generation: nat, turn: Turn) {
    Stops(turn) && LastChecked(finished) != Some(generation)
  }

  /** A stop over a generation that was tested and found red, and not told of. */
  predicate Untold(finished: seq<Exchange>, generation: nat, turn: Turn) {
    && Stops(turn) && LastChecked(finished) == Some(generation)
    && LastVerdict(finished) == Some(false) && LastRunAt(finished) == Some(generation)
    && LastTold(finished) != Some(generation)
  }

  /** Cut by the output cap without a tool call, and fewer than two resumes came before. */
  predicate Resumable(sent: seq<Message>, turn: Turn) {
    turn.assistant && turn.stop == CutByLength && !turn.toolCall && ResumeCount(sent) < 2
  }

  function TurnEndMessages(s: Session, generation: nat, turn: Turn, answer: Outcome): seq<Message> {
    if Unchecked(s.finished, generation, turn) && FoundRed(answer) then [Enforced(generation)]
    else if Untold(s.finished, generation, turn) && FoundRed(answer) then [RedStop(generation)]
    else if Resumable(s.sent, turn) then [Resume]
    else []
  }

  /**
   * In every session, what the end of a turn runs and sends: a self-test if the model stops over a tree not
   * tested since the last mutation, or found red and not told of; a red message exactly if that fails; and
   * otherwise a resume exactly if the turn was cut by length without a tool call and fewer than two came
   * before.
   */
  lemma TurnEndSends(events: seq<Event>, turn: Turn, answer: Outcome)
    ensures var s, t, g := After(events), After(events + [TurnEnd(turn, answer)]), Mutations(events);
            && t.sent == s.sent + TurnEndMessages(s, g, turn, answer)
            && t.finished == s.finished +
                 (if Unchecked(s.finished, g, turn) then [Exchange(g, answer, Enforcing)]
                  else if Untold(s.finished, g, turn) then [Exchange(g, answer, RedStopping)]
                  else [])
  {
    hide After, Recalls;
    var e := TurnEnd(turn, answer);
    VariablesAreHistory(events);
    AfterSnoc(events, e);
    EndOfTurn(After(events), turn, answer);
  }

  lemma AfterSnoc(events: seq<Event>, e: Event)
    ensures After(events + [e]) == Next(After(events), e)
  {
    hide Next;
    assert (events + [e])[..|events|] == events;
  }

  /** A self-test at a stop, and the red message it may send. */
  lemma GatesOfTurn(s: Session, turn: Turn, answer: Outcome)
    requires Recalls(s)
    ensures var t, g := RunGates(s, turn, answer), s.generation;
            && t.resumes == s.resumes
            && t.sent == s.sent + (if Unchecked(s.finished, g, turn) && FoundRed(answer) then [Enforced(g)]
                                   else if Untold(s.finished, g, turn) && FoundRed(answer) then [RedStop(g)]
                                   else [])
            && t.finished == s.finished +
                 (if Unchecked(s.finished, g, turn) then [Exchange(g, answer, Enforcing)]
                  else if Untold(s.finished, g, turn) then [Exchange(g, answer, RedStopping)]
                  else [])
  {
    hide LastChecked, LastRunAt, LastVerdict, LastTold, LastSteer, ResumeCount;
    assert WantsEnforced(s, turn) == Unchecked(s.finished, s.generation, turn);
    assert WantsRedStop(s, turn) && s.checked == Some(s.generation) <==> Untold(s.finished, s.generation, turn);
    assert s.sent + [] == s.sent && s.finished + [] == s.finished;
  }

  lemma EndOfTurn(s: Session, turn: Turn, answer: Outcome)
    requires Recalls(s)
    ensures var t, g := Next(s, TurnEnd(turn, answer)), s.generation;
            && t.sent == s.sent + TurnEndMessages(s, g, turn, answer)
            && t.finished == s.finished +
                 (if Unchecked(s.finished, g, turn) then [Exchange(g, answer, Enforcing)]
                  else if Untold(s.finished, g, turn) then [Exchange(g, answer, RedStopping)]
                  else [])
  {
    hide LastChecked, LastRunAt, LastVerdict, LastTold, LastSteer, ResumeCount, RunGates, Unchecked, Untold;
    GatesOfTurn(s, turn, answer);
    assert s.sent + [] == s.sent;
  }

  /**
   * In every legal session, the result of a finished exchange sends a steer exactly if it was a run that exited
   * with 0 in time, some source path was changed, and no steer was sent since the last such change.
   */
  lemma ResultSendsSteer(events: seq<Event>, k: nat, overlap: bool)
    requires Legal(events, overlap) && Allowed(After(events), TestResult(k), overlap)
    ensures var s, n := After(events), SourceMutations(events);
            After(events + [TestResult(k)]).sent == s.sent +
              (if s.finished[k].outcome == Completed(0, false) && n > 0 && Steer(n) !in s.sent then [Steer(n)] else [])
  {
    hide After, Legal, Recalls, Counted;
    var s := After(events);
    VariablesAreHistory(events);
    AfterSnoc(events, TestResult(k));
    RunCounts(events, overlap);
    SteeredIsMarked(s);
    assert s.sent + [] == s.sent;
  }

  lemma SteeredIsMarked(s: Session)
    requires Recalls(s) && Counted(s)
    ensures s.nudged == Some(s.sourceGeneration) <==> Steer(s.sourceGeneration) in s.sent
  {
    hide RedLog, ResumeCount, LastChecked, LastRunAt, LastVerdict, LastTold;
    LastSteerIsSent(s.sent);
    SteersAreLogged(s.sent, s.sourceGeneration);
  }

  lemma {:induction false} LastSteerIsSent(sent: seq<Message>)
    ensures LastSteer(sent).Some? ==> Steer(LastSteer(sent).value) in sent
  {
    if sent != [] {
      LastSteerIsSent(sent[..|sent| - 1]);
    }
  }

  lemma {:induction false} SteersAreLogged(sent: seq<Message>, n: nat)
    ensures Steer(n) in sent <==> n in SteerLog(sent)
  {
    if sent != [] {
      var last := |sent| - 1;
      SteersAreLogged(sent[..last], n);
      assert sent == sent[..last] + [sent[last]];
    }
  }

  /** A call, or a shell result with a summary after a mutation that was not tested since. */
  predicate Starts(finished: seq<Exchange>, generation: nat, e: Event) {
    e.Begin? || (e.Bash? && e.summary && generation > 0 && LastChecked(finished) != Some(generation))
  }

  /**
   * In every session, what the other events do: a call starts an exchange at the generation of that moment, and
   * so does a shell result with a summary, if a mutation landed that was not tested since; an exchange
   * that returns is finished as it was started; and none of this sends anything.
   */
  lemma OtherEventsSendNothing(events: seq<Event>, e: Event)
    requires !e.TestResult? && !e.TurnEnd?
    ensures var s, t, g := After(events), After(events + [e]), Mutations(events);
            && t.sent == s.sent
            && t.inflight == (if Starts(s.finished, g, e) then s.inflight[e.id := g]
                              else if e.End? then s.inflight - {e.id} else s.inflight)
            && t.finished == (if e.End? && e.id in s.inflight
                              then s.finished + [Exchange(s.inflight[e.id], e.outcome, InTurn)] else s.finished)
  {
    hide After, LastRunAt, LastVerdict, LastTold, LastSteer, ResumeCount, LastChecked;
    VariablesAreHistory(events);
    AfterSnoc(events, e);
    if Starts(After(events).finished, Mutations(events), e) {
    } else if e.End? && e.id !in After(events).inflight {
      assert After(events).inflight - {e.id} == After(events).inflight;
    }
  }
}
