/**
 * The self-test gates of a session: detection, the finish steer, the enforced gate, the red-stop
 * gate and the runaway resume, as listeners over one set of variables.
 */
module SessionRunner {
  import opened Bytes

  const MAX_RESUMES := 2

  type Id = nat

  /** One self-test exchange: a completed run, or a refusal that ran nothing. */
  datatype Outcome = Completed(exitCode: int, timedOut: bool) | Refused

  predicate Green(o: Outcome) {
    o.Completed? && o.exitCode == 0 && !o.timedOut
  }

  /** A model's call, or a shell result that was detected as one, runs inside a turn; a gate at its end. */
  datatype Caller = InTurn | Enforcing | RedStopping

  /** A finished exchange, the mutation generation it was started at, and who asked for it. */
  datatype Exchange = Exchange(at: nat, outcome: Outcome, caller: Caller)

  datatype Message = Steer(source: nat) | Enforced(generation: nat) | RedStop(generation: nat) | Resume

  datatype StopReason = CutByLength | Errored | Aborted | OtherStop

  /** The message that ends a turn, as far as the gates look at it. */
  datatype Turn = Turn(assistant: bool, stop: StopReason, toolCall: bool)

  /** It ends the agent loop: no tool call, and not an error or an abort. */
  predicate IsFinalTurn(turn: Turn) {
    turn.assistant && turn.stop != Errored && turn.stop != Aborted && !turn.toolCall
  }

  predicate IsLengthCut(turn: Turn) {
    turn.assistant && turn.stop == CutByLength && !turn.toolCall
  }

  datatype Event =
    | Begin(id: Id)                         // `self_test` is called
    | Bash(id: Id, summary: bool)           // a shell result, with or without a test summary
    | End(id: Id, outcome: Outcome)         // an exchange returns
    | TestResult(k: nat)                    // the result of finished exchange `k` reaches the listener
    | Landed(source: bool)                  // an edit or write landed, on a source path or not
    | TurnEnd(turn: Turn, answer: Outcome)  // `answer` is what a gate's own exchange would return

  /**
   * The listeners' variables, the exchanges in flight and finished, and the messages sent; from
   * `turnStart` on the finished exchanges are those of the present turn.
   */
  datatype Session = Session(
    generation: nat, checked: Option<nat>, lastPassed: Option<bool>, lastAt: Option<nat>,
    redStopped: Option<nat>, sourceGeneration: nat, nudged: Option<nat>, resumes: nat,
    inflight: map<Id, nat>, finished: seq<Exchange>, turnStart: nat, sent: seq<Message>)

  const START := Session(0, None, None, None, None, 0, None, 0, map[], [], 0, [])

  /** The host's order: an exchange and its result never straddle a turn end. */
  predicate Allowed(s: Session, e: Event, overlap: bool) {
    match e
    case Begin(id) => id !in s.inflight
    case Bash(id, _) => id !in s.inflight
    case End(id, _) => id in s.inflight
    case TestResult(k) => s.turnStart <= k < |s.finished|
    case Landed(_) => overlap || s.inflight == map[]
    case TurnEnd(_, _) => s.inflight == map[]
  }

  predicate WantsEnforced(s: Session, turn: Turn) {
    IsFinalTurn(turn) && s.checked != Some(s.generation)
  }

  predicate WantsRedStop(s: Session, turn: Turn) {
    && IsFinalTurn(turn) && s.lastPassed == Some(false)
    && s.lastAt == Some(s.generation) && s.redStopped != Some(s.generation)
  }

  function RunEnforced(s: Session, answer: Outcome): Session {
    var t := s.(checked := Some(s.generation), finished := s.finished + [Exchange(s.generation, answer, Enforcing)]);
    if answer.Refused? then t
    else if Green(answer) then t.(lastPassed := Some(true), lastAt := Some(s.generation))
    else t.(lastPassed := Some(false), lastAt := Some(s.generation), redStopped := Some(s.generation),
            sent := s.sent + [Enforced(s.generation)])
  }

  function RunRedStop(s: Session, answer: Outcome): Session {
    var t := s.(checked := Some(s.generation), redStopped := Some(s.generation),
                finished := s.finished + [Exchange(s.generation, answer, RedStopping)]);
    if answer.Refused? then t.(lastPassed := None)
    else if Green(answer) then t.(lastPassed := Some(true), lastAt := Some(s.generation))
    else t.(lastPassed := Some(false), lastAt := Some(s.generation), sent := s.sent + [RedStop(s.generation)])
  }

  /** The next turn begins. */
  function Closed(s: Session): Session {
    s.(turnStart := |s.finished|)
  }

  function RunGates(s: Session, turn: Turn, answer: Outcome): Session {
    if WantsEnforced(s, turn) then RunEnforced(s, answer)
    else if WantsRedStop(s, turn) then RunRedStop(s, answer)
    else s
  }

  function Next(s: Session, e: Event): Session {
    match e
    case Begin(id) => s.(inflight := s.inflight[id := s.generation])
    case Bash(id, summary) =>
      if s.generation == 0 || s.checked == Some(s.generation) || !summary then s
      else s.(inflight := s.inflight[id := s.generation])
    case End(id, outcome) =>
      if id !in s.inflight then s
      else
        var at := s.inflight[id];
        var t := s.(inflight := s.inflight - {id}, finished := s.finished + [Exchange(at, outcome, InTurn)]);
        if outcome.Refused? then t.(lastPassed := None)
        else t.(checked := Some(at), lastPassed := Some(Green(outcome)), lastAt := Some(at))
    case TestResult(k) =>
      if k >= |s.finished| || !Green(s.finished[k].outcome) then s
      else if s.sourceGeneration == 0 || s.nudged == Some(s.sourceGeneration) then s
      else s.(nudged := Some(s.sourceGeneration), sent := s.sent + [Steer(s.sourceGeneration)])
    case Landed(source) =>
      s.(generation := s.generation + 1, sourceGeneration := s.sourceGeneration + (if source then 1 else 0))
    case TurnEnd(turn, answer) =>
      var t := RunGates(s, turn, answer);
      if t.sent != s.sent || !IsLengthCut(turn) || t.resumes >= MAX_RESUMES then Closed(t)
      else Closed(t.(resumes := t.resumes + 1, sent := t.sent + [Resume]))
  }

  // ---------------------------------------------------------------- the listeners

  class Runner {
    var generation: nat
    var checked: Option<nat>
    var lastPassed: Option<bool>
    var lastAt: Option<nat>
    var redStopped: Option<nat>
    var sourceGeneration: nat
    var nudged: Option<nat>
    var resumes: nat
    var inflight: map<Id, nat>
    var finished: seq<Exchange>
    var turnStart: nat
    var sent: seq<Message>

    function State(): Session
      reads this
    {
      Session(generation, checked, lastPassed, lastAt, redStopped, sourceGeneration, nudged, resumes, inflight,
              finished, turnStart, sent)
    }

    constructor ()
      ensures State() == START
    {
      generation, checked, lastPassed, lastAt := 0, None, None, None;
      redStopped, sourceGeneration, nudged, resumes := None, 0, None, 0;
      inflight, finished, turnStart, sent := map[], [], 0, [];
    }

    /** `run`, up to its await: the generation is captured. */
    method BeginTest(id: Id)
      modifies this
      ensures State() == Next(old(State()), Begin(id))
    {
      inflight := inflight[id := generation];
    }

    /** `run`, after its await. */
    method EndTest(id: Id, outcome: Outcome)
      requires id in inflight
      modifies this
      ensures State() == Next(old(State()), End(id, outcome))
    {
      var at := inflight[id];
      inflight := inflight - {id};
      finished := finished + [Exchange(at, outcome, InTurn)];
      if outcome.Completed? {
        checked := Some(at);
        lastPassed := Some(outcome.exitCode == 0 && !outcome.timedOut);
        lastAt := Some(at);
      } else {
        lastPassed := None;
      }
    }

    method OnBashResult(id: Id, summary: bool)
      modifies this
      ensures State() == Next(old(State()), Bash(id, summary))
    {
      if generation == 0 || checked == Some(generation) || !summary {
        return;
      }
      BeginTest(id);
    }

    /** `maybeSteer`, once the result of a finished exchange reaches the listener. */
    method OnTestResult(k: nat)
      requires k < |finished|
      modifies this
      ensures State() == Next(old(State()), TestResult(k))
    {
      if !Green(finished[k].outcome) {
        return;
      }
      if sourceGeneration == 0 || nudged == Some(sourceGeneration) {
        return;
      }
      nudged := Some(sourceGeneration);
      sent := sent + [Steer(sourceGeneration)];
    }

    method OnLanded(source: bool)
      modifies this
      ensures State() == Next(old(State()), Landed(source))
    {
      generation := generation + 1;
      if source {
        sourceGeneration := sourceGeneration + 1;
      }
    }

    /** The enforced gate: the generation counts as checked whatever comes back. */
    method RunEnforcedGate(answer: Outcome) returns (gated: bool)
      modifies this
      ensures State() == RunEnforced(old(State()), answer)
      ensures gated <==> answer.Completed? && !Green(answer)
    {
      checked := Some(generation);
      finished := finished + [Exchange(generation, answer, Enforcing)];
      gated := answer.Completed? && !Green(answer);
      if answer.Completed? {
        lastPassed, lastAt := Some(Green(answer)), Some(generation);
        if gated {
          redStopped := Some(generation);
          sent := sent + [Enforced(generation)];
        }
      }
    }

    /** The red-stop gate: at most once a generation, even when the exchange is refused. */
    method RunRedStopGate(answer: Outcome) returns (gated: bool)
      modifies this
      ensures State() == RunRedStop(old(State()), answer)
      ensures gated <==> answer.Completed? && !Green(answer)
    {
      checked := Some(generation);
      finished := finished + [Exchange(generation, answer, RedStopping)];
      if answer.Completed? {
        lastPassed, lastAt := Some(Green(answer)), Some(generation);
      } else {
        lastPassed := None;
      }
      redStopped := Some(generation);
      gated := answer.Completed? && !Green(answer);
      if gated {
        sent := sent + [RedStop(generation)];
      }
    }

    method OnTurnEnd(turn: Turn, answer: Outcome)
      modifies this
      ensures State() == Next(old(State()), TurnEnd(turn, answer))
    {
      hide RunEnforced, RunRedStop, Closed;
      ghost var s := State();
      GatedMeansSent(s, answer);
      var gated := false;
      if IsFinalTurn(turn) && checked != Some(generation) {
        gated := RunEnforcedGate(answer);
      } else if IsFinalTurn(turn) && lastPassed == Some(false) && lastAt == Some(generation)
         && redStopped != Some(generation)
      {
        gated := RunRedStopGate(answer);
      }
      if !gated && IsLengthCut(turn) && resumes < MAX_RESUMES {
        SendResume();
      }
      CloseTurn();
    }

    method SendResume()
      modifies `resumes, `sent
      ensures State() == old(State()).(resumes := old(resumes) + 1, sent := old(sent) + [Resume])
    {
      resumes := resumes + 1;
      sent := sent + [Resume];
    }

    /** Only the history moves: the exchanges of the next turn come after these. */
    method CloseTurn()
      modifies `turnStart
      ensures State() == Closed(old(State()))
    {
      turnStart := |finished|;
    }
  }

  lemma GatedMeansSent(s: Session, answer: Outcome)
    ensures RunEnforced(s, answer).sent != s.sent <==> answer.Completed? && !Green(answer)
    ensures RunRedStop(s, answer).sent != s.sent <==> answer.Completed? && !Green(answer)
  {
  }

  // ---------------------------------------------------------------- runs

  predicate Legal(events: seq<Event>, overlap: bool) {
    events == [] ||
    (var last := |events| - 1;
     Legal(events[..last], overlap) && Allowed(After(events[..last]), events[last], overlap))
  }

  function After(events: seq<Event>): Session {
    if events == [] then START else Next(After(events[..|events| - 1]), events[|events| - 1])
  }

  function Mutations(events: seq<Event>): nat {
    if events == [] then 0
    else Mutations(events[..|events| - 1]) + (if events[|events| - 1].Landed? then 1 else 0)
  }

  // ---------------------------------------------------------------- how many messages

  predicate IsRed(m: Message) {
    m.Enforced? || m.RedStop?
  }

  /** The generations of the red messages, in the order they were sent. */
  function RedLog(sent: seq<Message>): seq<nat> {
    if sent == [] then []
    else
      var last := sent[|sent| - 1];
      RedLog(sent[..|sent| - 1]) + (if IsRed(last) then [last.generation] else [])
  }

  function SteerLog(sent: seq<Message>): seq<nat> {
    if sent == [] then []
    else
      var last := sent[|sent| - 1];
      SteerLog(sent[..|sent| - 1]) + (if last.Steer? then [last.source] else [])
  }

  function ResumeCount(sent: seq<Message>): nat {
    if sent == [] then 0
    else ResumeCount(sent[..|sent| - 1]) + (if sent[|sent| - 1].Resume? then 1 else 0)
  }

  lemma LogsSnoc(sent: seq<Message>, m: Message)
    ensures RedLog(sent + [m]) == RedLog(sent) + (if IsRed(m) then [m.generation] else [])
    ensures SteerLog(sent + [m]) == SteerLog(sent) + (if m.Steer? then [m.source] else [])
    ensures ResumeCount(sent + [m]) == ResumeCount(sent) + (if m.Resume? then 1 else 0)
  {
    assert (sent + [m])[..|sent|] == sent;
  }

  /** Follow-ups are every message but the steer. */
  lemma {:induction false} MessagesAddUp(sent: seq<Message>)
    ensures |sent| == |RedLog(sent)| + |SteerLog(sent)| + ResumeCount(sent)
  {
    if sent != [] {
      MessagesAddUp(sent[..|sent| - 1]);
    }
  }

  predicate Increasing(log: seq<nat>) {
    forall i, j :: 0 <= i < j < |log| ==> log[i] < log[j]
  }

  predicate AtMost(log: seq<nat>, limit: nat) {
    forall i :: 0 <= i < |log| ==> log[i] <= limit
  }

  /** A log told in increasing order; the latest entry may be the current one only if it is marked. */
  predicate ToldOnce(log: seq<nat>, current: nat, marked: bool) {
    Increasing(log) && AtMost(log, current) && (current in log ==> marked)
  }

  predicate MarkedRed(s: Session) {
    && s.checked == Some(s.generation) && s.redStopped == Some(s.generation)
    && forall id :: id in s.inflight ==> s.inflight[id] == s.generation
  }

  predicate Counted(s: Session) {
    && s.sourceGeneration <= s.generation
    && s.resumes == ResumeCount(s.sent) && s.resumes <= MAX_RESUMES
    && ToldOnce(RedLog(s.sent), s.generation, MarkedRed(s))
    && ToldOnce(SteerLog(s.sent), s.sourceGeneration, s.nudged == Some(s.sourceGeneration))
    && 0 !in SteerLog(s.sent)
  }

  lemma TellOnce(log: seq<nat>, current: nat)
    requires ToldOnce(log, current, false)
    ensures ToldOnce(log + [current], current, true)
  {
    var more := log + [current];
    forall i | 0 <= i < |log|
      ensures log[i] < current
    {
      assert log[i] in log;
    }
  }

  lemma MoveOn(log: seq<nat>, current: nat, marked: bool)
    requires ToldOnce(log, current, marked)
    ensures ToldOnce(log, current + 1, false)
  {
  }

  lemma TurnEndCounts(s: Session, turn: Turn, answer: Outcome)
    requires Counted(s) && s.inflight == map[]
    ensures Counted(Next(s, TurnEnd(turn, answer)))
  {
    hide RedLog, SteerLog, ResumeCount, RunGates, Counted;
    var t := RunGates(s, turn, answer);
    GatesCount(s, turn, answer);
    ResumeCounts(t, IsLengthCut(turn) && t.sent == s.sent && t.resumes < MAX_RESUMES);
  }

  lemma GatesCount(s: Session, turn: Turn, answer: Outcome)
    requires Counted(s) && s.inflight == map[]
    ensures Counted(RunGates(s, turn, answer))
  {
    hide RedLog, SteerLog, ResumeCount;
    var t := RunGates(s, turn, answer);
    if t.sent != s.sent {
      LogsSnoc(s.sent, t.sent[|s.sent|]);
      TellOnce(RedLog(s.sent), s.generation);
    }
  }

  lemma ResumeCounts(t: Session, resume: bool)
    requires Counted(t) && (resume ==> t.resumes < MAX_RESUMES)
    ensures Counted(Closed(if resume then t.(resumes := t.resumes + 1, sent := t.sent + [Resume]) else t))
  {
    hide RedLog, SteerLog, ResumeCount;
    LogsSnoc(t.sent, Resume);
  }

  lemma StepCounts(s: Session, e: Event, overlap: bool)
    requires Counted(s) && Allowed(s, e, overlap)
    ensures Counted(Next(s, e))
  {
    hide RedLog, SteerLog, ResumeCount, ToldOnce;
    match e
    case TurnEnd(turn, answer) => TurnEndCounts(s, turn, answer);
    case Landed(source) =>
      MoveOn(RedLog(s.sent), s.generation, MarkedRed(s));
      Unmarked(RedLog(s.sent), s.generation + 1, MarkedRed(Next(s, e)));
      if source {
        MoveOn(SteerLog(s.sent), s.sourceGeneration, s.nudged == Some(s.sourceGeneration));
        Unmarked(SteerLog(s.sent), s.sourceGeneration + 1, s.nudged == Some(s.sourceGeneration + 1));
      }
    case TestResult(k) =>
      if Next(s, e) != s {
        LogsSnoc(s.sent, Steer(s.sourceGeneration));
        TellOnce(SteerLog(s.sent), s.sourceGeneration);
        assert RedLog(Next(s, e).sent) == RedLog(s.sent);
        Remark(RedLog(s.sent), s.generation, MarkedRed(s), MarkedRed(Next(s, e)));
      }
    case _ => Remark(RedLog(s.sent), s.generation, MarkedRed(s), MarkedRed(Next(s, e)));
  }

  lemma Unmarked(log: seq<nat>, current: nat, marked: bool)
    requires ToldOnce(log, current, false)
    ensures ToldOnce(log, current, marked)
  {
  }

  lemma Remark(log: seq<nat>, current: nat, marked: bool, after: bool)
    requires ToldOnce(log, current, marked) && (marked ==> after)
    ensures ToldOnce(log, current, after)
  {
  }

  lemma {:induction false} RunCounts(events: seq<Event>, overlap: bool)
    requires Legal(events, overlap)
    ensures Counted(After(events)) && After(events).generation == Mutations(events)
  {
    hide Next, Allowed;
    if events != [] {
      hide Counted;
      var last := |events| - 1;
      RunCounts(events[..last], overlap);
      StepCounts(After(events[..last]), events[last], overlap);
      GenerationStep(After(events[..last]), events[last]);
    }
  }

  lemma GenerationStep(s: Session, e: Event)
    ensures Next(s, e).generation == s.generation + (if e.Landed? then 1 else 0)
  {
    hide RunGates;
    GatesKeepGeneration(s, e);
  }

  lemma GatesKeepGeneration(s: Session, e: Event)
    ensures e.TurnEnd? ==> RunGates(s, e.turn, e.answer).generation == s.generation
  {
  }

  lemma {:induction false} IncreasingIsShort(log: seq<nat>, limit: nat)
    requires Increasing(log) && AtMost(log, limit)
    ensures |log| <= limit + 1
  {
    if |log| > 1 {
      var last := |log| - 1;
      assert log[0] < log[last];
      assert forall i :: 0 <= i < last ==> log[..last][i] < log[last];
      IncreasingIsShort(log[..last], log[last] - 1);
    }
  }

  /**
   * Whatever the order of events, a session with G landed mutations sends at most G + 3 follow-ups:
   * at most one red message per generation and two resumes; and at most one steer per source generation.
   */
  lemma MessagesAreBounded(events: seq<Event>, overlap: bool)
    requires Legal(events, overlap)
    ensures var sent := After(events).sent;
            && Increasing(RedLog(sent)) && Increasing(SteerLog(sent))
            && ResumeCount(sent) <= MAX_RESUMES
            && |RedLog(sent)| + ResumeCount(sent) <= Mutations(events) + 3
            && |SteerLog(sent)| <= After(events).sourceGeneration <= Mutations(events)
            && |sent| - |SteerLog(sent)| <= Mutations(events) + 3 && |sent| <= 2 * Mutations(events) + 3
  {
    MessagesAddUp(After(events).sent);
    hide Legal, After, Next, RedLog, SteerLog, ResumeCount, Mutations;
    RunCounts(events, overlap);
    var s := After(events);
    IncreasingIsShort(RedLog(s.sent), s.generation);
    PositiveIsShort(SteerLog(s.sent), s.sourceGeneration);
  }

  lemma PositiveIsShort(log: seq<nat>, limit: nat)
    requires Increasing(log) && AtMost(log, limit) && 0 !in log
    ensures |log| <= limit
  {
    if log != [] {
      assert log[0] in log;
      assert forall i :: 0 <= i < |log| ==> log[i] > 0;
      var less: seq<nat> := seq(|log|, i requires 0 <= i < |log| => log[i] - 1);
      IncreasingIsShort(less, limit - 1);
    }
  }

  /** An event sends at most one message: a red one or a resume at a turn end, a steer on a green result. */
  lemma OneMessagePerEvent(s: Session, e: Event)
    ensures var sent := Next(s, e).sent;
            || sent == s.sent
            || (&& |sent| == |s.sent| + 1 && sent[..|s.sent|] == s.sent
                && (if sent[|s.sent|].Steer?
                    then e.TestResult? && e.k < |s.finished| && Green(s.finished[e.k].outcome)
                         && sent[|s.sent|] == Steer(s.sourceGeneration)
                    else e.TurnEnd? && (IsRed(sent[|s.sent|]) ==> IsFinalTurn(e.turn))))
  {
  }

  // ---------------------------------------------------------------- what a steer follows

  predicate StartsTest(e: Event, id: Id) {
    e == Begin(id) || e == Bash(id, true)
  }

  /**
   * An exchange of one turn: it was started at `b`, at the generation of that moment, by a model's call
   * or a detected shell result; it ended at `j`; and its result reached the listener at `i`.
   */
  predicate Spans(events: seq<Event>, b: nat, j: nat, i: nat) {
    && b < j < i < |events|
    && events[j].End? && StartsTest(events[b], events[j].id)
    && events[i] == TestResult(|After(events[..j]).finished|)
    && events[i].k < |After(events[..i]).finished|
    && After(events[..i]).finished[events[i].k]
       == Exchange(After(events[..b]).generation, events[j].outcome, InTurn)
    && forall c :: b < c < i ==> !events[c].TurnEnd?
  }

  /** The listener sends message `m`, a steer, on the result of such an exchange, and it was green. */
  predicate SteeredBy(events: seq<Event>, m: nat, b: nat, j: nat, i: nat) {
    && Spans(events, b, j, i) && Green(events[j].outcome)
    && |After(events[..i]).sent| == m
    && After(events[..i + 1]).sent == After(events[..i]).sent + [Steer(After(events[..i]).sourceGeneration)]
  }

  /** The event that sent a steer. */
  lemma {:induction false} SteerIsSent(events: seq<Event>, overlap: bool, m: nat) returns (i: nat)
    requires Legal(events, overlap) && m < |After(events).sent| && After(events).sent[m].Steer?
    ensures i < |events| && Legal(events[..i], overlap) && Allowed(After(events[..i]), events[i], overlap)
    ensures events[i].TestResult? && events[i].k < |After(events[..i]).finished|
    ensures Green(After(events[..i]).finished[events[i].k].outcome) && |After(events[..i]).sent| == m
    ensures After(events[..i + 1]).sent == After(events[..i]).sent + [Steer(After(events[..i]).sourceGeneration)]
  {
    hide Next, Allowed;
    if events != [] {
      var last := |events| - 1;
      var before := After(events[..last]);
      OneMessagePerEvent(before, events[last]);
      if m < |before.sent| {
        i := SteerIsSent(events[..last], overlap, m);
        assert events[..last][..i] == events[..i] && events[..last][..i + 1] == events[..i + 1];
      } else {
        i := last;
        assert events[..last + 1] == events;
        assert After(events).sent == before.sent + [After(events).sent[m]];
      }
    }
  }

  lemma FinishedGrows(s: Session, e: Event)
    ensures var t := Next(s, e);
            if e.End? && e.id in s.inflight
            then && t.finished == s.finished + [Exchange(s.inflight[e.id], e.outcome, InTurn)]
                 && t.turnStart == s.turnStart
            else if e.TurnEnd? then t.turnStart == |t.finished|
            else t.finished == s.finished && t.turnStart == s.turnStart
  {
  }

  /** An exchange of the present turn was ended by an event of the present turn. */
  lemma {:induction false} FinishedInTurn(events: seq<Event>, overlap: bool, k: nat) returns (j: nat)
    requires Legal(events, overlap) && After(events).turnStart <= k < |After(events).finished|
    ensures j < |events| && events[j].End? && Legal(events[..j], overlap)
    ensures var s := After(events[..j]);
            && |s.finished| == k && events[j].id in s.inflight
            && After(events).finished[k] == Exchange(s.inflight[events[j].id], events[j].outcome, InTurn)
    ensures forall c :: j < c < |events| ==> !events[c].TurnEnd?
  {
    hide Next, Allowed;
    if events == [] {
      assert false;
    } else {
      var last := |events| - 1;
      var before := After(events[..last]);
      FinishedGrows(before, events[last]);
      if k < |before.finished| {
        j := FinishedInTurn(events[..last], overlap, k);
        assert events[..last][..j] == events[..j];
      } else {
        j := last;
      }
    }
  }

  lemma InflightStays(s: Session, e: Event, id: Id, overlap: bool)
    requires Allowed(s, e, overlap) && id in Next(s, e).inflight
    ensures !e.TurnEnd?
    ensures if id in s.inflight then Next(s, e).inflight[id] == s.inflight[id]
            else StartsTest(e, id) && Next(s, e).inflight[id] == s.generation
  {
    hide RunEnforced, RunRedStop;
    if e.TurnEnd? {
      GatesKeepInflight(s, e.turn, e.answer);
      assert false;
    }
  }

  lemma GatesKeepInflight(s: Session, turn: Turn, answer: Outcome)
    ensures RunGates(s, turn, answer).inflight == s.inflight
  {
  }

  /** An exchange in flight was started in the present turn, at the generation it carries. */
  lemma {:induction false} StartedInTurn(events: seq<Event>, overlap: bool, id: Id) returns (b: nat)
    requires Legal(events, overlap) && id in After(events).inflight
    ensures b < |events| && StartsTest(events[b], id)
    ensures After(events).inflight[id] == After(events[..b]).generation
    ensures forall c :: b < c < |events| ==> !events[c].TurnEnd?
  {
    hide Next, Allowed;
    if events == [] {
      assert false;
    } else {
      var last := |events| - 1;
      var before := After(events[..last]);
      InflightStays(before, events[last], id, overlap);
      if id in before.inflight {
        b := StartedInTurn(events[..last], overlap, id);
        assert events[..last][..b] == events[..b];
      } else {
        b := last;
      }
    }
  }

  /**
   * Over any session, every steer follows a green exchange that was called or detected in the same
   * turn, start, end and result: never one that a gate ran.
   */
  lemma EverySteerFollowsGreen(events: seq<Event>, overlap: bool, m: nat) returns (b: nat, j: nat, i: nat)
    requires Legal(events, overlap) && m < |After(events).sent| && After(events).sent[m].Steer?
    ensures SteeredBy(events, m, b, j, i)
  {
    hide *;
    i := SteerIsSent(events, overlap, m);
    InTheTurn(After(events[..i]), events[i], overlap);
    j := FinishedInTurn(events[..i], overlap, events[i].k);
    assert events[..i][j] == events[j] && events[..i][..j] == events[..j];
    b := StartedInTurn(events[..j], overlap, events[j].id);
    assert events[..j][b] == events[b] && events[..j][..b] == events[..b];
    StaysInTurn(events, b, j, i);
    SpansAre(events, b, j, i);
    SteeredIs(events, m, b, j, i);
  }

  lemma InTheTurn(s: Session, e: Event, overlap: bool)
    requires Allowed(s, e, overlap) && e.TestResult?
    ensures s.turnStart <= e.k < |s.finished|
  {
  }

  lemma StaysInTurn(events: seq<Event>, b: nat, j: nat, i: nat)
    requires b < j < i <= |events| && !events[j].TurnEnd?
    requires forall c :: b < c < j ==> !events[..j][c].TurnEnd?
    requires forall c :: j < c < i ==> !events[..i][c].TurnEnd?
    ensures forall c :: b < c < i ==> !events[c].TurnEnd?
  {
    assert forall c :: b < c < j ==> events[..j][c] == events[c];
    assert forall c :: j < c < i ==> events[..i][c] == events[c];
  }

  lemma SpansAre(events: seq<Event>, b: nat, j: nat, i: nat)
    requires b < j < i < |events| && events[j].End? && StartsTest(events[b], events[j].id)
    requires events[i].TestResult? && events[i].k == |After(events[..j]).finished| < |After(events[..i]).finished|
    requires events[j].id in After(events[..j]).inflight
    requires After(events[..j]).inflight[events[j].id] == After(events[..b]).generation
    requires After(events[..i]).finished[events[i].k]
             == Exchange(After(events[..j]).inflight[events[j].id], events[j].outcome, InTurn)
    requires forall c :: b < c < i ==> !events[c].TurnEnd?
    ensures Spans(events, b, j, i)
  {
    hide After, StartsTest;
  }

  lemma SteeredIs(events: seq<Event>, m: nat, b: nat, j: nat, i: nat)
    requires Spans(events, b, j, i) && Green(After(events[..i]).finished[events[i].k].outcome)
    requires |After(events[..i]).sent| == m
    requires After(events[..i + 1]).sent == After(events[..i]).sent + [Steer(After(events[..i]).sourceGeneration)]
    ensures SteeredBy(events, m, b, j, i)
  {
    hide After, Green;
  }

  /** The generation counts what landed in between. */
  lemma {:induction false} GenerationSince(events: seq<Event>, b: nat, i: nat)
    requires b <= i <= |events|
    ensures After(events[..b]).generation <= After(events[..i]).generation
    ensures After(events[..b]).generation == After(events[..i]).generation <==>
            forall c :: b <= c < i ==> !events[c].Landed?
  {
    hide Next;
    if b < i {
      GenerationSince(events, b, i - 1);
      assert events[..i][..i - 1] == events[..i - 1];
      GenerationStep(After(events[..i - 1]), events[i - 1]);
    }
  }

  /** The exchange whose result arrives at `i` was started at the generation of that moment. */
  predicate IsCurrent(events: seq<Event>, i: nat) {
    i < |events| && events[i].TestResult?
    && var s := After(events[..i]);
       events[i].k < |s.finished| && s.finished[events[i].k].at == s.generation
  }

  /** The green is of the generation current at the steer exactly when nothing landed under the exchange. */
  lemma SteerIsCurrentIffNothingLanded(events: seq<Event>, m: nat, b: nat, j: nat, i: nat)
    requires SteeredBy(events, m, b, j, i)
    ensures IsCurrent(events, i) <==> forall c :: b < c < i ==> !events[c].Landed?
  {
    hide After;
    GenerationSince(events, b, i);
  }

  /** No mutation of the run lands between the start of a test and the arrival of its result. */
  ghost predicate NothingLandsUnderATest(events: seq<Event>) {
    forall b, j, i, c :: Spans(events, b, j, i) && b < c < i ==> !events[c].Landed?
  }

  /** Every steer of every run of the host is about the tree as it is then. */
  ghost predicate SteersAreCurrent(late: bool) {
    forall events: seq<Event>, m: nat, b: nat, j: nat, i: nat ::
      Legal(events, true) && (late || NothingLandsUnderATest(events)) && SteeredBy(events, m, b, j, i)
      ==> IsCurrent(events, i)
  }

  /** After one mutation a test is green, and another lands before its result is looked at. */
  function LateRun(): seq<Event> {
    [Landed(true), Begin(0), End(0, Completed(0, false)), Landed(true), TestResult(0)]
  }

  /** The session after the first `n` events of that run. */
  function Late(n: nat): Session
    requires n <= 5
  {
    var green := Exchange(1, Completed(0, false), InTurn);
    if n == 0 then START
    else if n == 1 then START.(generation := 1, sourceGeneration := 1)
    else if n == 2 then START.(generation := 1, sourceGeneration := 1, inflight := map[0 := 1])
    else
      var tested := START.(generation := 1, sourceGeneration := 1, finished := [green], checked := Some(1),
                           lastPassed := Some(true), lastAt := Some(1));
      if n == 3 then tested
      else if n == 4 then tested.(generation := 2, sourceGeneration := 2)
      else tested.(generation := 2, sourceGeneration := 2, nudged := Some(2), sent := [Steer(2)])
  }

  lemma LateStep(n: nat)
    requires n < 5
    ensures Allowed(Late(n), LateRun()[n], false) && Next(Late(n), LateRun()[n]) == Late(n + 1)
  {
    if n == 2 {
      assert Late(2).inflight - {0} == map[];
    }
  }

  lemma {:induction false} LateRuns(n: nat)
    requires n <= 5
    ensures Legal(LateRun()[..n], false) && After(LateRun()[..n]) == Late(n)
  {
    if n > 0 {
      LateRuns(n - 1);
      hide Next, Allowed, Late;
      LateStep(n - 1);
      assert LateRun()[..n] == LateRun()[..n - 1] + [LateRun()[n - 1]];
      LegalSnoc(LateRun()[..n - 1], LateRun()[n - 1], false);
    }
  }

  /** Even where nothing lands while a test is in flight, it can land before its result arrives. */
  lemma LateSteerIsStale()
    ensures Legal(LateRun(), false) && SteeredBy(LateRun(), 0, 1, 2, 4)
    ensures !IsCurrent(LateRun(), 4)
  {
    hide After, Legal, Next, Allowed, SteeredBy, IsCurrent;
    LateRuns(5);
    assert LateRun()[..5] == LateRun();
    LateIsSteered();
    LateIsStale();
  }

  lemma LateIsSteered()
    ensures SteeredBy(LateRun(), 0, 1, 2, 4)
  {
    LateRuns(1);
    LateRuns(2);
    LateRuns(4);
    LateRuns(5);
    hide After, Legal, Next, Allowed;
  }

  lemma LateIsStale()
    ensures !IsCurrent(LateRun(), 4)
  {
    LateRuns(4);
    hide After, Legal, Next, Allowed;
  }

  /** What may run overlapping may run when overlapping is allowed. */
  lemma {:induction false} LegalAnyhow(events: seq<Event>)
    requires Legal(events, false)
    ensures Legal(events, true)
  {
    hide After;
    if events != [] {
      LegalAnyhow(events[..|events| - 1]);
    }
  }

  lemma CurrentUnlessLanded(events: seq<Event>, m: nat, b: nat, j: nat, i: nat)
    requires NothingLandsUnderATest(events) && SteeredBy(events, m, b, j, i)
    ensures IsCurrent(events, i)
  {
    hide After;
    SteerIsCurrentIffNothingLanded(events, m, b, j, i);
  }

  /** Steers are always current exactly when no mutation lands between a test's start and its result. */
  lemma SteersAreCurrentIffNothingLands(late: bool)
    ensures SteersAreCurrent(late) <==> !late
  {
    hide Legal, After, SteeredBy;
    if late {
      LateSteerIsStale();
      LegalAnyhow(LateRun());
      assert LateRun()[4] == TestResult(0);
    } else {
      forall events: seq<Event>, m: nat, b: nat, j: nat, i: nat | Legal(events, true) && NothingLandsUnderATest(events)
                                  && SteeredBy(events, m, b, j, i)
        ensures IsCurrent(events, i)
      {
        CurrentUnlessLanded(events, m, b, j, i);
      }
    }
  }

  // ---------------------------------------------------------------- what silence means

  /** The last exchange that completed, at any generation. */
  function LastCompleted(finished: seq<Exchange>): Option<Exchange> {
    if finished == [] then None
    else if finished[|finished| - 1].outcome.Completed? then Some(finished[|finished| - 1])
    else LastCompleted(finished[..|finished| - 1])
  }

  /** The last exchange that completed at one generation. */
  function LatestAt(finished: seq<Exchange>, g: nat): Option<Exchange> {
    if finished == [] then None
    else
      var last := finished[|finished| - 1];
      if last.outcome.Completed? && last.at == g then Some(last) else LatestAt(finished[..|finished| - 1], g)
  }

  predicate IsRefusal(x: Exchange, g: nat) {
    x.at == g && x.outcome.Refused?
  }

  predicate RefusedAt(finished: seq<Exchange>, g: nat) {
    exists k :: 0 <= k < |finished| && IsRefusal(finished[k], g)
  }

  /** The latest completed self-test here passed, or one was refused here, or the model has been told. */
  predicate Excused(s: Session) {
    || (var latest := LatestAt(s.finished, s.generation); latest.Some? && Green(latest.value.outcome))
    || RefusedAt(s.finished, s.generation)
    || s.redStopped == Some(s.generation)
  }

  /** A final turn that is left without a follow-up. */
  predicate Silent(s: Session, e: Event) {
    e.TurnEnd? && IsFinalTurn(e.turn) && Next(s, e).sent == s.sent
  }

  /** A remembered verdict is that of the last completed run, which never ran at a later generation. */
  predicate Remembered(s: Session) {
    && (forall k :: 0 <= k < |s.finished| ==> s.finished[k].at <= s.generation)
    && (forall id :: id in s.inflight ==> s.inflight[id] <= s.generation)
    && (s.lastAt.Some? ==> s.lastAt.value <= s.generation)
    && var last := LastCompleted(s.finished);
       && (s.lastAt.Some? <==> last.Some?)
       && (last.Some? ==> s.lastAt == Some(last.value.at))
       && (s.lastPassed.Some? ==> last.Some? && s.lastPassed.value == Green(last.value.outcome))
  }

  lemma FinishedSnoc(finished: seq<Exchange>, x: Exchange, g: nat)
    ensures LastCompleted(finished + [x]) == if x.outcome.Completed? then Some(x) else LastCompleted(finished)
    ensures LatestAt(finished + [x], g) == if x.outcome.Completed? && x.at == g then Some(x) else LatestAt(finished, g)
    ensures RefusedAt(finished + [x], g) <==> RefusedAt(finished, g) || IsRefusal(x, g)
  {
    var more := finished + [x];
    assert more[..|finished|] == finished;
    if RefusedAt(finished, g) {
      var k :| 0 <= k < |finished| && IsRefusal(finished[k], g);
      assert IsRefusal(more[k], g);
    }
    if IsRefusal(x, g) {
      assert more[|finished|] == x;
    }
  }

  lemma StepRemembers(s: Session, e: Event, overlap: bool)
    requires Remembered(s) && Allowed(s, e, overlap)
    ensures Remembered(Next(s, e))
  {
    hide LastCompleted, LatestAt, RefusedAt, RunGates, Remembered;
    match e
    case Begin(id) => BeginRemembers(s, id);
    case Bash(id, _) => BeginRemembers(s, id);
    case End(id, outcome) => EndRemembers(s, id, outcome);
    case TestResult(_) => NoticeRemembers(s, e);
    case Landed(_) => NoticeRemembers(s, e);
    case TurnEnd(turn, answer) =>
      GatesRemember(s, turn, answer);
      TurnEndRemembers(s, turn, answer);
  }

  lemma BeginRemembers(s: Session, id: Id)
    requires Remembered(s)
    ensures Remembered(s.(inflight := s.inflight[id := s.generation]))
  {
    hide LastCompleted;
  }

  lemma EndRemembers(s: Session, id: Id, outcome: Outcome)
    requires Remembered(s) && id in s.inflight
    ensures Remembered(Next(s, End(id, outcome)))
  {
    hide LastCompleted, LatestAt, RefusedAt;
    FinishedSnoc(s.finished, Exchange(s.inflight[id], outcome, InTurn), 0);
  }

  lemma NoticeRemembers(s: Session, e: Event)
    requires Remembered(s) && (e.TestResult? || e.Landed?)
    ensures Remembered(Next(s, e))
  {
    hide LastCompleted;
  }

  lemma TurnEndRemembers(s: Session, turn: Turn, answer: Outcome)
    requires Remembered(RunGates(s, turn, answer))
    ensures Remembered(Next(s, TurnEnd(turn, answer)))
  {
    hide LastCompleted, RunGates;
  }

  lemma GatesRemember(s: Session, turn: Turn, answer: Outcome)
    requires Remembered(s)
    ensures Remembered(RunGates(s, turn, answer))
  {
    hide LastCompleted, LatestAt, RefusedAt;
    FinishedSnoc(s.finished, Exchange(s.generation, answer, Enforcing), 0);
    FinishedSnoc(s.finished, Exchange(s.generation, answer, RedStopping), 0);
  }

  lemma {:induction false} LastPassedIsVerdictOfLastRun(events: seq<Event>, overlap: bool)
    requires Legal(events, overlap)
    ensures Remembered(After(events))
  {
    if events != [] {
      LastPassedIsVerdictOfLastRun(events[..|events| - 1], overlap);
      StepRemembers(After(events[..|events| - 1]), events[|events| - 1], overlap);
    }
  }

  /** An exchange that is refused is refused at the generation it was started at. */
  predicate Timely(s: Session, e: Event) {
    e.End? && e.outcome.Refused? && e.id in s.inflight ==> s.inflight[e.id] == s.generation
  }

  /** No exchange of the run was refused after a mutation had landed under it. */
  predicate TimelyRun(events: seq<Event>) {
    events == [] ||
    (var last := |events| - 1;
     TimelyRun(events[..last]) && Timely(After(events[..last]), events[last]))
  }

  /** Everything known about this generation was learned at it. */
  predicate Settled(s: Session) {
    && (s.checked == Some(s.generation) ==>
          s.lastAt == Some(s.generation) || RefusedAt(s.finished, s.generation))
    && (s.lastAt == Some(s.generation) && s.lastPassed == None ==> RefusedAt(s.finished, s.generation))
    && (s.checked.Some? ==> s.checked.value <= s.generation)
    && (s.lastAt == Some(s.generation) ==> LatestAt(s.finished, s.generation) == LastCompleted(s.finished))
  }

  lemma EndSettles(s: Session, id: Id, outcome: Outcome)
    requires Remembered(s) && Settled(s) && Timely(s, End(id, outcome)) && id in s.inflight
    ensures Settled(Next(s, End(id, outcome)))
  {
    hide LastCompleted, LatestAt, RefusedAt;
    FinishedSnoc(s.finished, Exchange(s.inflight[id], outcome, InTurn), s.generation);
  }

  lemma GatesSettle(s: Session, turn: Turn, answer: Outcome)
    requires Remembered(s) && Settled(s)
    ensures Settled(RunGates(s, turn, answer))
  {
    hide LastCompleted, LatestAt, RefusedAt;
    FinishedSnoc(s.finished, Exchange(s.generation, answer, Enforcing), s.generation);
    FinishedSnoc(s.finished, Exchange(s.generation, answer, RedStopping), s.generation);
  }

  lemma StepSettles(s: Session, e: Event)
    requires Remembered(s) && Settled(s) && Timely(s, e)
    ensures Settled(Next(s, e))
  {
    hide LastCompleted, LatestAt, RefusedAt, RunGates;
    match e
    case End(id, outcome) =>
      if id in s.inflight {
        EndSettles(s, id, outcome);
      }
    case TurnEnd(turn, answer) => GatesSettle(s, turn, answer);
    case _ =>
  }

  lemma {:induction false} TimelyRunSettles(events: seq<Event>, overlap: bool)
    requires Legal(events, overlap) && TimelyRun(events)
    ensures Remembered(After(events)) && Settled(After(events))
  {
    hide Next, Settled, Remembered, Timely, Allowed;
    if events == [] {
      assert Remembered(START) && Settled(START) by { StartIsSettled(); }
    } else {
      var last := |events| - 1;
      TimelyRunSettles(events[..last], overlap);
      StepRemembers(After(events[..last]), events[last], overlap);
      StepSettles(After(events[..last]), events[last]);
    }
  }

  lemma StartIsSettled()
    ensures Remembered(START) && Settled(START)
  {
  }

  /**
   * Overlapping or not, in every legal run in which no exchange was refused after a mutation had
   * landed under it, a final turn without a follow-up is excused.
   */
  lemma TimelySilenceIsExcused(events: seq<Event>, e: Event, overlap: bool)
    requires Legal(events, overlap) && TimelyRun(events)
    requires Allowed(After(events), e, overlap) && Silent(After(events), e)
    ensures Excused(Next(After(events), e))
  {
    TimelyRunSettles(events, overlap);
    SettledSilenceIsExcused(After(events), e);
  }

  lemma SettledSilenceIsExcused(s: Session, e: Event)
    requires Remembered(s) && Settled(s) && Silent(s, e)
    ensures Excused(Next(s, e))
  {
    hide LastCompleted, LatestAt, RefusedAt;
    FinishedSnoc(s.finished, Exchange(s.generation, e.answer, Enforcing), s.generation);
    FinishedSnoc(s.finished, Exchange(s.generation, e.answer, RedStopping), s.generation);
  }

  /** Where no mutation lands under an exchange, every refusal is timely. */
  lemma {:induction false} SerialRunIsTimely(events: seq<Event>)
    requires Legal(events, false)
    ensures TimelyRun(events)
    ensures forall id :: id in After(events).inflight ==> After(events).inflight[id] == After(events).generation
  {
    if events != [] {
      SerialRunIsTimely(events[..|events| - 1]);
      GenerationStep(After(events[..|events| - 1]), events[|events| - 1]);
    }
  }

  /** Every silent final turn of every run of the host is excused. */
  ghost predicate SilenceIsAlwaysExcused(overlap: bool) {
    forall events, e :: Legal(events, overlap) && Allowed(After(events), e, overlap) && Silent(After(events), e)
      ==> Excused(Next(After(events), e))
  }

  /** A test at generation 0 is refused after one at generation 1 has already failed. */
  function OverlappingRun(): seq<Event> {
    [Begin(0), Landed(true), Begin(1), End(1, Completed(1, false)), End(0, Refused)]
  }

  /** The session after the first `n` events of that run. */
  function Overlapped(n: nat): Session
    requires n <= 5
  {
    var red, late := Exchange(1, Completed(1, false), InTurn), Exchange(0, Refused, InTurn);
    if n == 0 then START
    else if n == 1 then START.(inflight := map[0 := 0])
    else if n == 2 then START.(inflight := map[0 := 0], generation := 1, sourceGeneration := 1)
    else if n == 3 then START.(inflight := map[0 := 0, 1 := 1], generation := 1, sourceGeneration := 1)
    else if n == 4 then START.(inflight := map[0 := 0], generation := 1, sourceGeneration := 1, finished := [red],
                               checked := Some(1), lastPassed := Some(false), lastAt := Some(1))
    else START.(generation := 1, sourceGeneration := 1, finished := [red, late], checked := Some(1), lastAt := Some(1))
  }

  lemma OverlapStep(n: nat)
    requires n < 5
    ensures Allowed(Overlapped(n), OverlappingRun()[n], true)
    ensures Next(Overlapped(n), OverlappingRun()[n]) == Overlapped(n + 1)
  {
    if n == 3 {
      assert Overlapped(3).inflight - {1} == map[0 := 0];
    } else if n == 4 {
      assert Overlapped(4).inflight - {0} == map[];
    }
  }

  lemma {:induction false} OverlapRuns(n: nat)
    requires n <= 5
    ensures Legal(OverlappingRun()[..n], true) && After(OverlappingRun()[..n]) == Overlapped(n)
  {
    if n > 0 {
      OverlapRuns(n - 1);
      hide Next, Allowed, Overlapped;
      OverlapStep(n - 1);
      assert OverlappingRun()[..n] == OverlappingRun()[..n - 1] + [OverlappingRun()[n - 1]];
      LegalSnoc(OverlappingRun()[..n - 1], OverlappingRun()[n - 1], true);
    }
  }

  lemma LegalSnoc(events: seq<Event>, e: Event, overlap: bool)
    requires Legal(events, overlap) && Allowed(After(events), e, overlap)
    ensures Legal(events + [e], overlap) && After(events + [e]) == Next(After(events), e)
  {
    hide Next, Allowed;
    assert (events + [e])[..|events|] == events;
  }

  /** At its end the model is let go over a red tree that it was never told of. */
  lemma OverlapEndsUnexcused()
    ensures var s, e := Overlapped(5), TurnEnd(Turn(true, OtherStop, false), Refused);
            Allowed(s, e, true) && Silent(s, e) && !Excused(Next(s, e))
  {
    var red, late := Exchange(1, Completed(1, false), InTurn), Exchange(0, Refused, InTurn);
    FinishedSnoc([], red, 1);
    FinishedSnoc([red], late, 1);
    assert [] + [red] == [red] && [red] + [late] == [red, late];
    hide LatestAt, RefusedAt;
    assert !RefusedAt([red, late], 1) && LatestAt([red, late], 1) == Some(red) by {
      NoneFinished(1);
    }
  }

  lemma NoneFinished(g: nat)
    ensures LatestAt([], g) == None && !RefusedAt([], g)
  {
  }

  lemma OverlappingRunIsUnexcused()
    ensures var e := TurnEnd(Turn(true, OtherStop, false), Refused);
            && Legal(OverlappingRun(), true) && Allowed(After(OverlappingRun()), e, true)
            && Silent(After(OverlappingRun()), e) && !Excused(Next(After(OverlappingRun()), e))
  {
    OverlapRuns(5);
    assert OverlappingRun()[..5] == OverlappingRun();
    hide *;
    OverlapEndsUnexcused();
  }

  /**
   * A session left without a follow-up is always excused exactly when the host lets no mutation
   * land while a self-test is in flight.
   */
  lemma SilenceIsExcusedIffSerial(overlap: bool)
    ensures SilenceIsAlwaysExcused(overlap) <==> !overlap
  {
    if overlap {
      OverlappingRunIsUnexcused();
    } else {
      forall events, e | Legal(events, false) && Allowed(After(events), e, false) && Silent(After(events), e)
        ensures Excused(Next(After(events), e))
      {
        SerialRunIsTimely(events);
        TimelySilenceIsExcused(events, e, false);
      }
    }
  }
}
