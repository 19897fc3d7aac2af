/**
 * The supervisor of the delivery child: one event machine over spawn, error, close, data, stream
 * errors and timers, in any order, with further events possible inside any signal it sends.
 */
module Supervisor {
  import opened Bytes

  const MAX_RECEIPT_BYTES := 65536

  datatype Refusal = Timeout | StartFailed | StreamFailed | DiagnosticFailed | Oversized | Crashed | Malformed

  datatype Mode = PosixGroup | DirectChild

  datatype Observation = Present | Gone | Unknown

  /** A signal that was sent, and what came back. */
  datatype Sent = Term(seen: Observation) | Probe(seen: Observation) | Kill

  datatype Settlement = Rejected(why: Refusal) | Resolved(receipt: ByteString)

  datatype Kind =
    | Spawned
    | Failed
    | Closed(exitZero: bool)
    | Data(chunk: ByteString)
    | Broken(why: Refusal)
    | DeadlineFired
    | GraceFired
    | PollFired

  /** What a signal sent while handling an event observes, and the events delivered during it. */
  datatype Signal = Signal(seen: Observation, during: seq<Event>)

  datatype Event = Event(kind: Kind, onTerm: Signal, onProbe: Signal)

  datatype Group = Group(gone: bool, signaling: bool)

  /** The closure's variables, and the trace of what it did and was asked. */
  datatype Delivery = Delivery(
    mode: Mode, addressable: bool,
    stdout: ByteString, oversized: bool, settled: bool, pending: Option<Refusal>,
    deadlineArmed: bool, graceArmed: bool, pollArmed: bool,
    childClosed: bool, spawnObserved: bool, spawnFailed: bool, terminationStarted: bool, group: Option<Group>,
    outcomes: seq<Settlement>, sent: seq<Sent>, requested: seq<Refusal>, received: seq<ByteString>)

  function Start(mode: Mode, addressable: bool): Delivery {
    Delivery(mode, addressable, [], false, false, None, true, false, false, false, false, false, false, None,
             [], [], [], [])
  }

  type Parser = ByteString -> bool

  function TermCount(sent: seq<Sent>): nat {
    if sent == [] then 0 else TermCount(sent[..|sent| - 1]) + (if sent[|sent| - 1].Term? then 1 else 0)
  }

  lemma TermSnoc(sent: seq<Sent>, s: Sent)
    ensures TermCount(sent + [s]) == TermCount(sent) + (if s.Term? then 1 else 0)
  {
    assert (sent + [s])[..|sent|] == sent;
  }

  function KillCount(sent: seq<Sent>): nat {
    if sent == [] then 0 else KillCount(sent[..|sent| - 1]) + (if sent[|sent| - 1].Kill? then 1 else 0)
  }

  lemma KillSnoc(sent: seq<Sent>, s: Sent)
    ensures KillCount(sent + [s]) == KillCount(sent) + (if s.Kill? then 1 else 0)
  {
    assert (sent + [s])[..|sent|] == sent;
  }

  predicate SawGone(sent: seq<Sent>) {
    exists i :: 0 <= i < |sent| && (sent[i] == Term(Gone) || sent[i] == Probe(Gone))
  }

  // ---------------------------------------------------------------- what is kept

  /** The child is closed (or never spawned) and, in group mode, its group was observed gone. */
  predicate MayReject(d: Delivery) {
    && d.childClosed
    && (d.mode.PosixGroup? ==> if d.group.None? then d.spawnFailed else d.group.value.gone)
  }

  predicate SettledWell(d: Delivery) {
    && |d.outcomes| == 1
    && match d.outcomes[0]
       case Rejected(why) => d.requested != [] && why == d.requested[0] && MayReject(d)
       case Resolved(receipt) =>
         && d.pending == None && d.childClosed && |receipt| <= MAX_RECEIPT_BYTES
         && receipt == Flatten(d.received)
  }

  predicate Kept(d: Delivery) {
    && (if d.settled then SettledWell(d) else d.outcomes == [])
    && (if d.pending.None? then d.requested == [] && !d.terminationStarted
        else d.requested != [] && d.pending.value == d.requested[0])
    && |d.stdout| <= MAX_RECEIPT_BYTES
    && (!d.settled && !d.oversized ==> d.stdout == Flatten(d.received))
    && TermCount(d.sent) == (if d.terminationStarted && HasTarget(d) then 1 else 0)
    && (d.group.Some? ==> d.terminationStarted && (d.group.value.gone ==> SawGone(d.sent)))
    && (d.spawnFailed ==> d.childClosed)
    && (d.terminationStarted ==> d.spawnObserved || d.spawnFailed)
    && (d.terminationStarted && d.mode.PosixGroup? && d.addressable ==> d.group.Some?)
    && Grouped(d) && Timed(d)
  }

  /** The deadline runs until something is decided; the grace period is spent by the one KILL. */
  predicate Timed(d: Delivery) {
    && (d.settled || d.pending.Some? ==> !d.deadlineArmed)
    && (d.settled ==> !d.graceArmed)
    && KillCount(d.sent) + (if d.graceArmed then 1 else 0) <= (if d.terminationStarted then 1 else 0)
    && (d.mode.PosixGroup? ==> KillCount(d.sent) == 0)
  }

  /** There is something to signal: a group with a usable pid, or a child that was spawned. */
  predicate HasTarget(d: Delivery) {
    if d.mode.PosixGroup? then d.addressable else !d.spawnFailed
  }

  /** Only an addressable group is signalled and polled; only a direct child is given a grace period. */
  predicate Grouped(d: Delivery) {
    && (d.group.Some? ==> d.mode.PosixGroup? && d.addressable)
    && (d.pollArmed ==> d.group.Some?)
    && (d.graceArmed ==> d.mode.DirectChild? && d.terminationStarted)
  }

  /** Termination has begun as soon as it can, and nothing is waited for without a timer. */
  predicate NeverStuck(d: Delivery) {
    d.settled || d.pending.None? || (d.group.Some? && d.group.value.signaling)
    || (&& (d.spawnObserved || d.spawnFailed ==> d.terminationStarted)
        && (d.terminationStarted && d.childClosed ==>
              (d.pollArmed && d.group.Some? && !d.group.value.gone)
              || (d.mode.PosixGroup? && d.group.None? && !d.addressable && !d.spawnFailed))
        && HasGrace(d))
  }

  /** Nothing that was settled, requested or signalled is undone. */
  predicate Extends(d: Delivery, e: Delivery) {
    && d.outcomes <= e.outcomes && d.sent <= e.sent && d.requested <= e.requested
    && (d.settled ==> e.settled) && (d.childClosed ==> e.childClosed)
    && (d.terminationStarted ==> e.terminationStarted && e.group.Some? == d.group.Some?)
    && (d.pending.Some? ==> e.pending == d.pending)
    && (d.spawnObserved ==> e.spawnObserved && e.spawnFailed == d.spawnFailed)
    && e.mode == d.mode && e.addressable == d.addressable
    && (d.terminationStarted && !d.graceArmed ==> !e.graceArmed && KillCount(e.sent) == KillCount(d.sent))
  }

  /** While a signal is being sent to the group, no event inside it can touch the group or settle. */
  predicate Signalling(d: Delivery) {
    d.group.Some? && d.group.value.signaling
  }

  // ---------------------------------------------------------------- the handlers

  function Asked(d: Delivery, s: Sent): Delivery {
    d.(group := Some(Group(false, true)), sent := d.sent + [s])
  }

  function Begun(d: Delivery): Delivery {
    d.(terminationStarted := true)
  }

  function Answered(d: Delivery, seen: Observation): Delivery {
    d.(group := Some(Group(seen.Gone?, false)))
  }

  function Reject(d: Delivery, why: Refusal): Delivery {
    d.(settled := true, deadlineArmed := false, graceArmed := false, outcomes := d.outcomes + [Rejected(why)])
  }

  function Finish(d: Delivery, e: Event, parse: Parser): Delivery
    decreases e, 0
  {
    if d.settled || d.pending.None? || !d.childClosed then d
    else if d.mode.PosixGroup? && d.group.None? && !d.spawnFailed then d
    else if Signalling(d) then d
    else if d.group.Some? && !d.group.value.gone then
      var heard := HandleAll(Asked(d, Probe(e.onProbe.seen)), e.onProbe.during, parse);
      var answered := Answered(heard, e.onProbe.seen);
      if e.onProbe.seen.Gone? then Reject(answered, d.pending.value) else answered.(pollArmed := true)
    else Reject(d, d.pending.value)
  }

  function Begin(d: Delivery, e: Event, parse: Parser): Delivery
    decreases e, 1
  {
    if d.settled || d.pending.None? || d.terminationStarted then d
    else if !d.spawnObserved && !d.spawnFailed then d
    else if d.mode.PosixGroup? && d.addressable then
      var heard := HandleAll(Asked(Begun(d), Term(e.onTerm.seen)), e.onTerm.during, parse);
      Finish(Answered(heard, e.onTerm.seen), e, parse)
    else if d.mode.DirectChild? && !d.spawnFailed then
      var heard := HandleAll(Killing(d, e.onTerm.seen), e.onTerm.during, parse);
      if heard.settled then heard else Finish(Graced(heard), e, parse)
    else Finish(Begun(d), e, parse)
  }

  function Killed(d: Delivery): Delivery {
    d.(graceArmed := false, sent := d.sent + [Kill])
  }

  /** The direct child has its grace period. */
  function Graced(d: Delivery): Delivery {
    d.(graceArmed := true)
  }

  function Killing(d: Delivery, seen: Observation): Delivery {
    d.(terminationStarted := true, sent := d.sent + [Term(seen)])
  }

  function Request(d: Delivery, why: Refusal, e: Event, parse: Parser): Delivery
    decreases e, 2
  {
    if d.settled then d
    else if d.pending.Some? then d.(requested := d.requested + [why])
    else Begin(d.(pending := Some(why), requested := d.requested + [why], deadlineArmed := false), e, parse)
  }

  function ChildClosed(d: Delivery): Delivery {
    d.(childClosed := true, deadlineArmed := false)
  }

  function Resolve(d: Delivery): Delivery {
    d.(settled := true, graceArmed := false, outcomes := d.outcomes + [Resolved(d.stdout)])
  }

  function OnClose(d: Delivery, exitZero: bool, e: Event, parse: Parser): Delivery
    decreases e, 3
  {
    if d.settled then d
    else
      var closed := ChildClosed(d);
      if closed.pending.Some? then Finish(closed, e, parse)
      else if closed.oversized then Request(closed, Oversized, e, parse)
      else if parse(closed.stdout) then Resolve(closed)
      else Request(closed, if exitZero then Malformed else Crashed, e, parse)
  }

  function Received(d: Delivery, chunk: ByteString): Delivery {
    if d.settled then d else d.(received := d.received + [chunk])
  }

  lemma ReceivedStdout(d: Delivery, chunk: ByteString)
    ensures Received(d, chunk).stdout == d.stdout && Received(d, chunk).oversized == d.oversized
  {
  }

  predicate Overflows(d: Delivery, chunk: ByteString) {
    |d.stdout| + |chunk| > MAX_RECEIPT_BYTES
  }

  /** A chunk that would pass the cap is dropped, for good marked as such; every other is kept. */
  function OnData(d: Delivery, chunk: ByteString): Delivery {
    Took(Received(d, chunk), if Overflows(d, chunk) then d.stdout else d.stdout + chunk,
         d.oversized || Overflows(d, chunk))
  }

  function Took(d: Delivery, stdout: ByteString, oversized: bool): Delivery {
    d.(stdout := stdout, oversized := oversized)
  }

  function NoteFailure(d: Delivery): Delivery {
    if d.spawnObserved then d else d.(spawnFailed := true, childClosed := true)
  }

  function Handle(d: Delivery, e: Event, parse: Parser): Delivery
    decreases e, 4
  {
    match e.kind
    case Spawned => if d.settled then d else Begin(d.(spawnObserved := true), e, parse)
    case Failed => Begin(Request(NoteFailure(d), StartFailed, e, parse), e, parse)
    case Closed(exitZero) => OnClose(d, exitZero, e, parse)
    case Data(chunk) => OnData(d, chunk)
    case Broken(why) => Request(d, why, e, parse)
    case DeadlineFired => if d.deadlineArmed then Request(d.(deadlineArmed := false), Timeout, e, parse) else d
    case GraceFired =>
      if d.graceArmed then HandleAll(Killed(d), e.onTerm.during, parse) else d
    case PollFired => if d.pollArmed then Finish(d.(pollArmed := false), e, parse) else d
  }

  function HandleAll(d: Delivery, events: seq<Event>, parse: Parser): Delivery
    decreases events
  {
    if events == [] then d else HandleAll(Handle(d, events[0], parse), events[1..], parse)
  }

  // ---------------------------------------------------------------- every handler keeps the invariant

  /** What every handler guarantees of the state it is given and the state it leaves. */
  predicate Step(d: Delivery, t: Delivery) {
    && Kept(t) && Extends(d, t)
    && (Signalling(d) && !d.settled && d.pending.Some? ==> t.group == d.group && !t.settled)
    && (NeverStuck(d) ==> NeverStuck(t))
  }

  lemma StepChain(d: Delivery, e: Delivery, f: Delivery)
    requires Step(d, e) && Step(e, f)
    ensures Step(d, f)
  {
    hide Kept, NeverStuck;
  }

  /** A signal to the group, with whatever happened during it, keeps everything. */
  lemma AskKeeps(d: Delivery, s: Sent)
    requires Kept(d) && !d.settled && d.pending.Some? && (d.spawnObserved || d.spawnFailed)
    requires if d.terminationStarted then s.Probe? && d.group.Some?
             else s.Term? && d.mode.PosixGroup? && d.addressable
    ensures Kept(Asked(Begun(d), s)) && Extends(d, Asked(Begun(d), s))
  {
    hide SettledWell, SawGone;
    TermSnoc(d.sent, s);
    KillSnoc(d.sent, s);
  }

  lemma AnswerKeeps(d: Delivery, s: Sent, heard: Delivery, seen: Observation)
    requires Kept(d) && !d.settled && d.pending.Some? && (d.spawnObserved || d.spawnFailed)
    requires if d.terminationStarted then s == Probe(seen) && d.group.Some?
             else s == Term(seen) && d.mode.PosixGroup? && d.addressable
    requires Step(Asked(Begun(d), s), heard)
    ensures Kept(Answered(heard, seen)) && Extends(d, Answered(heard, seen))
    ensures !Answered(heard, seen).settled && Answered(heard, seen).terminationStarted
    ensures Answered(heard, seen).group == Some(Group(seen.Gone?, false)) && HasGrace(Answered(heard, seen))
  {
    hide SettledWell, NeverStuck;
    assert Asked(Begun(d), s).sent[|d.sent|] == s;
    assert seen.Gone? ==> SawGone(heard.sent) by {
      assert heard.sent[|d.sent|] == s;
    }
  }

  lemma RejectKeeps(d: Delivery)
    requires Kept(d) && !d.settled && d.pending.Some? && MayReject(d)
    ensures Kept(Reject(d, d.pending.value)) && Extends(d, Reject(d, d.pending.value))
    ensures NeverStuck(Reject(d, d.pending.value))
  {
  }

  /** Ready to be finished: termination has begun if it could, and a direct child has its grace. */
  predicate Ready(d: Delivery) {
    (d.spawnObserved || d.spawnFailed ==> d.terminationStarted) && HasGrace(d)
  }

  /** A direct child that was told to stop has its grace period or was killed. */
  predicate HasGrace(d: Delivery) {
    d.terminationStarted && d.mode.DirectChild? && !d.spawnFailed ==> d.graceArmed || KillCount(d.sent) == 1
  }

  lemma {:induction false} FinishKeeps(d: Delivery, e: Event, parse: Parser)
    requires Kept(d)
    ensures Step(d, Finish(d, e, parse))
    ensures Ready(d) ==> NeverStuck(Finish(d, e, parse))
    decreases e, 1, 0
  {
    hide SettledWell, SawGone, HandleAll;
    if d.settled || d.pending.None? || !d.childClosed {
    } else if d.mode.PosixGroup? && d.group.None? && !d.spawnFailed {
    } else if Signalling(d) {
    } else if d.group.Some? && !d.group.value.gone {
      ProbeKeeps(d, e, parse);
    } else {
      RejectKeeps(d);
    }
  }

  lemma {:induction false} ProbeKeeps(d: Delivery, e: Event, parse: Parser)
    requires Kept(d) && !d.settled && d.pending.Some? && d.childClosed && !Signalling(d)
    requires d.group.Some? && !d.group.value.gone
    ensures Step(d, Finish(d, e, parse)) && NeverStuck(Finish(d, e, parse))
    decreases e, 0
  {
    hide *;
    var s := Probe(e.onProbe.seen);
    var asked := Asked(Begun(d), s);
    AlreadyBegun(d);
    AskKeeps(d, s);
    HandleAllKeeps(asked, e.onProbe.during, parse);
    var heard := HandleAll(asked, e.onProbe.during, parse);
    AnswerKeeps(d, s, heard, e.onProbe.seen);
    FinishProbes(d, e, parse);
    AfterProbe(d, Answered(heard, e.onProbe.seen), e.onProbe.seen);
  }

  lemma AlreadyBegun(d: Delivery)
    requires Kept(d) && d.group.Some?
    ensures d.terminationStarted && Begun(d) == d && (d.spawnObserved || d.spawnFailed)
  {
    hide SettledWell, TermCount, KillCount, SawGone, Flatten;
  }

  function AfterAnswer(d: Delivery, answered: Delivery, seen: Observation): Delivery
    requires d.pending.Some?
  {
    if seen.Gone? then Reject(answered, d.pending.value) else answered.(pollArmed := true)
  }

  /** The branches of `Finish` that send no signal. */
  lemma FinishCases(d: Delivery, e: Event, parse: Parser)
    ensures d.settled || d.pending.None? || !d.childClosed || Signalling(d) ==> Finish(d, e, parse) == d
    ensures d.mode.PosixGroup? && d.group.None? && !d.spawnFailed ==> Finish(d, e, parse) == d
    ensures !d.settled && d.pending.Some? && d.childClosed && !Signalling(d)
            && (if d.group.None? then d.mode.DirectChild? || d.spawnFailed else d.group.value.gone)
            ==> Finish(d, e, parse) == Reject(d, d.pending.value)
  {
    hide HandleAll;
  }

  /** Termination can begin, and has not. */
  predicate Starting(d: Delivery) {
    !d.settled && d.pending.Some? && !d.terminationStarted && (d.spawnObserved || d.spawnFailed)
  }

  /** The branches of `Begin`, one by one. */
  lemma BeginStays(d: Delivery, e: Event, parse: Parser)
    requires !Starting(d)
    ensures Begin(d, e, parse) == d
  {
    hide HandleAll, Finish;
  }

  lemma BeginKills(d: Delivery, e: Event, parse: Parser)
    requires Starting(d) && d.mode.DirectChild? && !d.spawnFailed
    ensures var heard := HandleAll(Killing(d, e.onTerm.seen), e.onTerm.during, parse);
            Begin(d, e, parse) == if heard.settled then heard else Finish(Graced(heard), e, parse)
  {
    hide HandleAll, Finish, Killing, Graced;
  }

  lemma BeginFinishes(d: Delivery, e: Event, parse: Parser)
    requires Starting(d) && !(d.mode.PosixGroup? && d.addressable) && !(d.mode.DirectChild? && !d.spawnFailed)
    ensures Begin(d, e, parse) == Finish(Begun(d), e, parse)
  {
    hide HandleAll, Finish, Begun;
  }

  lemma FinishProbes(d: Delivery, e: Event, parse: Parser)
    requires !d.settled && d.pending.Some? && d.childClosed && !Signalling(d)
    requires d.group.Some? && !d.group.value.gone
    ensures var heard := HandleAll(Asked(d, Probe(e.onProbe.seen)), e.onProbe.during, parse);
            Finish(d, e, parse) == AfterAnswer(d, Answered(heard, e.onProbe.seen), e.onProbe.seen)
  {
    hide HandleAll;
  }

  lemma AfterProbe(d: Delivery, answered: Delivery, seen: Observation)
    requires d.pending.Some? && !Signalling(d) && d.childClosed
    requires Kept(answered) && Extends(d, answered) && !answered.settled && answered.terminationStarted
    requires answered.group == Some(Group(seen.Gone?, false))
    ensures Step(d, AfterAnswer(d, answered, seen)) && NeverStuck(AfterAnswer(d, answered, seen))
  {
    hide SettledWell, SawGone, TermCount, KillCount, Flatten;
    if seen.Gone? {
      RejectKeeps(answered);
    }
  }

  lemma {:induction false} BeginKeeps(d: Delivery, e: Event, parse: Parser)
    requires Kept(d)
    ensures Step(d, Begin(d, e, parse))
    ensures (d.terminationStarted ==> NeverStuck(d)) ==> NeverStuck(Begin(d, e, parse))
    decreases e, 2
  {
    hide SettledWell, SawGone, HandleAll, Finish;
    if d.settled || d.pending.None? || d.terminationStarted {
    } else if !d.spawnObserved && !d.spawnFailed {
    } else if d.mode.PosixGroup? && d.addressable {
      BeginGroup(d, e, parse);
    } else if d.mode.DirectChild? && !d.spawnFailed {
      BeginDirect(d, e, parse);
    } else {
      FinishKeeps(Begun(d), e, parse);
    }
  }

  lemma {:induction false} BeginGroup(d: Delivery, e: Event, parse: Parser)
    requires Kept(d) && !d.settled && d.pending.Some? && !d.terminationStarted && (d.spawnObserved || d.spawnFailed)
    requires d.mode.PosixGroup? && d.addressable
    ensures Step(d, Begin(d, e, parse)) && NeverStuck(Begin(d, e, parse))
    decreases e, 1, 1
  {
    hide *;
    var s := Term(e.onTerm.seen);
    var asked := Asked(Begun(d), s);
    AskKeeps(d, s);
    HandleAllKeeps(asked, e.onTerm.during, parse);
    var heard := HandleAll(asked, e.onTerm.during, parse);
    AnswerKeeps(d, s, heard, e.onTerm.seen);
    var answered := Answered(heard, e.onTerm.seen);
    FinishKeeps(answered, e, parse);
    BeginAsks(d, e, parse);
    AfterTerm(d, answered, Finish(answered, e, parse));
  }

  lemma BeginAsks(d: Delivery, e: Event, parse: Parser)
    requires !d.settled && d.pending.Some? && !d.terminationStarted && (d.spawnObserved || d.spawnFailed)
    requires d.mode.PosixGroup? && d.addressable
    ensures var heard := HandleAll(Asked(Begun(d), Term(e.onTerm.seen)), e.onTerm.during, parse);
            Begin(d, e, parse) == Finish(Answered(heard, e.onTerm.seen), e, parse)
  {
    hide HandleAll, Finish;
  }

  lemma AfterTerm(d: Delivery, answered: Delivery, t: Delivery)
    requires Kept(d) && !d.terminationStarted && Extends(d, answered) && answered.terminationStarted
    requires Step(answered, t) && (Ready(answered) ==> NeverStuck(t)) && (HasGrace(answered) || NeverStuck(t))
    ensures Step(d, t) && NeverStuck(t)
  {
    hide SettledWell, SawGone, TermCount, KillCount, Flatten;
  }

  predicate NotYetKilled(d: Delivery) {
    !d.graceArmed && KillCount(d.sent) == 0
  }

  lemma KillingKeeps(d: Delivery, seen: Observation)
    requires Kept(d) && Starting(d) && d.mode.DirectChild? && !d.spawnFailed
    ensures Kept(Killing(d, seen)) && Extends(d, Killing(d, seen)) && Killing(d, seen).terminationStarted
    ensures NotYetKilled(Killing(d, seen))
  {
    hide SettledWell, SawGone, Flatten;
    TermSnoc(d.sent, Term(seen));
    KillSnoc(d.sent, Term(seen));
  }

  lemma ExtendsFurther(d: Delivery, k: Delivery, heard: Delivery)
    requires Extends(d, k) && Step(k, heard) && k.terminationStarted && NotYetKilled(k)
    ensures Extends(d, heard) && Kept(heard) && heard.terminationStarted && NotYetKilled(heard)
  {
    hide Kept, NeverStuck;
  }

  lemma GraceKeeps(d: Delivery, heard: Delivery)
    requires Kept(heard) && !heard.settled && heard.terminationStarted && heard.mode.DirectChild? && NotYetKilled(heard)
    requires Extends(d, heard) && !d.terminationStarted
    ensures Kept(Graced(heard)) && Extends(d, Graced(heard))
    ensures Graced(heard).terminationStarted && HasGrace(Graced(heard))
  {
    hide SettledWell, SawGone, TermCount, KillCount, Flatten;
  }

  lemma SettledIsNeverStuck(d: Delivery)
    requires Kept(d) && d.settled
    ensures Step(d, d) && NeverStuck(d)
  {
    StepStays(d);
  }

  lemma {:induction false} BeginDirect(d: Delivery, e: Event, parse: Parser)
    requires Kept(d) && Starting(d) && d.mode.DirectChild? && !d.spawnFailed
    ensures Step(d, Begin(d, e, parse)) && NeverStuck(Begin(d, e, parse))
    decreases e, 1, 1
  {
    var killing := Killing(d, e.onTerm.seen);
    var heard := HandleAll(killing, e.onTerm.during, parse);
    assert !d.terminationStarted;
    hide *;
    BeginKills(d, e, parse);
    KillingKeeps(d, e.onTerm.seen);
    HandleAllKeeps(killing, e.onTerm.during, parse);
    ExtendsFurther(d, killing, heard);
    if heard.settled {
      SettledIsNeverStuck(heard);
      AfterTerm(d, heard, heard);
    } else {
      SameMode(d, heard);
      GraceKeeps(d, heard);
      FinishKeeps(Graced(heard), e, parse);
      AfterTerm(d, Graced(heard), Finish(Graced(heard), e, parse));
    }
  }

  lemma SameMode(d: Delivery, e: Delivery)
    requires Extends(d, e)
    ensures e.mode == d.mode
  {
  }

  lemma {:induction false} RequestKeeps(d: Delivery, why: Refusal, e: Event, parse: Parser)
    requires Kept(d)
    ensures Step(d, Request(d, why, e, parse))
    decreases e, 3
  {
    hide SettledWell, SawGone, Begin;
    if !d.settled && d.pending.None? {
      BeginKeeps(d.(pending := Some(why), requested := d.requested + [why], deadlineArmed := false), e, parse);
    }
  }

  lemma {:induction false} CloseKeeps(d: Delivery, exitZero: bool, e: Event, parse: Parser)
    requires Kept(d)
    ensures Step(d, OnClose(d, exitZero, e, parse))
    decreases e, 4
  {
    hide SawGone, TermCount, KillCount, SettledWell, Request, Finish;
    if !d.settled {
      var closed := ChildClosed(d);
      if closed.pending.Some? {
        FinishKeeps(closed, e, parse);
      } else if closed.oversized {
        RequestKeeps(closed, Oversized, e, parse);
      } else if !parse(closed.stdout) {
        RequestKeeps(closed, if exitZero then Malformed else Crashed, e, parse);
      } else {
        ResolveKeeps(d);
      }
    }
  }

  lemma ResolveKeeps(d: Delivery)
    requires Kept(d) && !d.settled && d.pending.None? && !d.oversized
    ensures Step(d, Resolve(ChildClosed(d)))
  {
    hide SawGone, TermCount, KillCount;
  }

  lemma DataKeeps(d: Delivery, chunk: ByteString)
    requires Kept(d)
    ensures Step(d, OnData(d, chunk))
  {
    hide Kept, Step, Overflows;
    if d.settled {
      KeptBound(d);
      assert |OnData(d, chunk).stdout| <= MAX_RECEIPT_BYTES by { StdoutFits(d, chunk); }
      LateDataKeeps(d, OnData(d, chunk).stdout, OnData(d, chunk).oversized);
    } else {
      LiveDataKeeps(d, chunk);
    }
  }

  lemma StdoutFits(d: Delivery, chunk: ByteString)
    requires |d.stdout| <= MAX_RECEIPT_BYTES
    ensures |OnData(d, chunk).stdout| <= MAX_RECEIPT_BYTES
  {
  }

  lemma KeptBound(d: Delivery)
    requires Kept(d)
    ensures |d.stdout| <= MAX_RECEIPT_BYTES
  {
  }

  lemma LateDataKeeps(d: Delivery, stdout: ByteString, oversized: bool)
    requires Kept(d) && d.settled && |stdout| <= MAX_RECEIPT_BYTES
    ensures Step(d, d.(stdout := stdout, oversized := oversized))
  {
    hide TermCount, KillCount, SawGone, Flatten;
  }

  lemma LiveDataKeeps(d: Delivery, chunk: ByteString)
    requires Kept(d) && !d.settled
    ensures Step(d, OnData(d, chunk))
  {
    hide *;
    KeptStdout(d);
    FlattenSnoc(d.received, chunk);
    if Overflows(d, chunk) {
      ReceivedKeeps(d, d.received + [chunk], d.stdout, true);
      OverflowIs(d, chunk);
    } else {
      FitIs(d, chunk);
      ReceivedKeeps(d, d.received + [chunk], d.stdout + chunk, d.oversized);
    }
  }

  lemma OverflowIs(d: Delivery, chunk: ByteString)
    requires !d.settled && Overflows(d, chunk)
    ensures OnData(d, chunk) == d.(received := d.received + [chunk], stdout := d.stdout, oversized := true)
  {
  }

  lemma FitIs(d: Delivery, chunk: ByteString)
    requires !d.settled && !Overflows(d, chunk)
    ensures OnData(d, chunk) == d.(received := d.received + [chunk], stdout := d.stdout + chunk)
    ensures |d.stdout + chunk| <= MAX_RECEIPT_BYTES
  {
  }

  lemma KeptStdout(d: Delivery)
    requires Kept(d) && !d.settled
    ensures |d.stdout| <= MAX_RECEIPT_BYTES && (!d.oversized ==> d.stdout == Flatten(d.received))
  {
  }

  lemma ReceivedKeeps(d: Delivery, received: seq<ByteString>, stdout: ByteString, oversized: bool)
    requires Kept(d) && !d.settled && |stdout| <= MAX_RECEIPT_BYTES && (!oversized ==> stdout == Flatten(received))
    ensures Step(d, d.(received := received, stdout := stdout, oversized := oversized))
  {
    hide TermCount, KillCount, SawGone, Flatten, SettledWell;
  }

  lemma {:induction false} FailureKeeps(d: Delivery, e: Event, parse: Parser)
    requires Kept(d)
    ensures Step(d, Begin(Request(NoteFailure(d), StartFailed, e, parse), e, parse))
    decreases e, 4
  {
    hide Kept, NeverStuck, Extends, Signalling, NoteFailure, Request, Begin;
    var noted := NoteFailure(d);
    var requested := Request(noted, StartFailed, e, parse);
    var begun := Begin(requested, e, parse);
    NotedKeeps(d);
    RequestKeeps(noted, StartFailed, e, parse);
    BeginKeeps(requested, e, parse);
    StepChain(noted, requested, begun);
    if d.settled || d.pending.Some? {
      RequestWaits(noted, StartFailed, e, parse);
      RequestIsNotStuck(d, StartFailed);
    }
    FromNoted(d, begun);
  }

  lemma NotedKeeps(d: Delivery)
    requires Kept(d)
    ensures var noted := NoteFailure(d);
            && Kept(noted) && noted.settled == d.settled && noted.pending == d.pending
            && (!d.settled && d.pending.None? ==> NeverStuck(noted))
  {
    hide SawGone, TermCount, KillCount, Flatten;
  }

  /** Behind a refusal that is pending already, the failure changes nothing once termination has begun. */
  lemma RequestIsNotStuck(d: Delivery, why: Refusal)
    requires Kept(d)
    ensures var noted := NoteFailure(d);
            var requested := if d.settled then noted else noted.(requested := noted.requested + [why]);
            NeverStuck(d) && requested.terminationStarted ==> NeverStuck(requested)
  {
    hide SawGone, TermCount, KillCount, Flatten, SettledWell;
  }

  lemma FromNoted(d: Delivery, t: Delivery)
    requires Step(NoteFailure(d), t) && (NeverStuck(d) ==> NeverStuck(t))
    ensures Step(d, t)
  {
    hide Kept, NeverStuck;
  }

  /** With a refusal already pending, a request only leaves its mark. */
  lemma RequestWaits(d: Delivery, why: Refusal, e: Event, parse: Parser)
    requires d.settled || d.pending.Some?
    ensures Request(d, why, e, parse) == if d.settled then d else d.(requested := d.requested + [why])
  {
  }

  lemma {:induction false} HandleKeeps(d: Delivery, e: Event, parse: Parser)
    requires Kept(d)
    ensures Step(d, Handle(d, e, parse))
    decreases e, 5
  {
    hide Step, Kept, HandleAll, Finish, Begin, Request, OnClose, OnData;
    StepStays(d);
    match e.kind
    case Spawned =>
      if !d.settled {
        SpawnedKeeps(d, e, parse);
      }
    case Failed => FailureKeeps(d, e, parse);
    case Closed(exitZero) => CloseKeeps(d, exitZero, e, parse);
    case Data(chunk) => DataKeeps(d, chunk);
    case Broken(why) => RequestKeeps(d, why, e, parse);
    case DeadlineFired =>
      if d.deadlineArmed {
        TimerKeeps(d);
        RequestKeeps(d.(deadlineArmed := false), Timeout, e, parse);
        StepChain(d, d.(deadlineArmed := false), Request(d.(deadlineArmed := false), Timeout, e, parse));
      }
    case GraceFired =>
      if d.graceArmed {
        KillKeeps(d);
        HandleAllKeeps(Killed(d), e.onTerm.during, parse);
        StepChain(d, Killed(d), HandleAll(Killed(d), e.onTerm.during, parse));
      }
    case PollFired =>
      if d.pollArmed {
        PollKeeps(d, e, parse);
      }
  }

  lemma StepStays(d: Delivery)
    requires Kept(d)
    ensures Step(d, d)
  {
    hide Kept;
  }

  lemma TimerKeeps(d: Delivery)
    requires Kept(d)
    ensures Kept(d.(deadlineArmed := false)) && Step(d, d.(deadlineArmed := false))
  {
    hide TermCount, KillCount, SawGone, Flatten;
  }

  lemma {:induction false} SpawnedKeeps(d: Delivery, e: Event, parse: Parser)
    requires Kept(d) && !d.settled
    ensures Step(d, Begin(d.(spawnObserved := true), e, parse))
    decreases e, 4
  {
    hide TermCount, KillCount, SawGone, Flatten, Begin;
    SpawnKeeps(d);
    BeginKeeps(d.(spawnObserved := true), e, parse);
  }

  lemma {:induction false} PollKeeps(d: Delivery, e: Event, parse: Parser)
    requires Kept(d)
    ensures Step(d, Finish(d.(pollArmed := false), e, parse))
    decreases e, 4
  {
    hide TermCount, KillCount, SawGone, Flatten, Finish;
    var fired := d.(pollArmed := false);
    UnarmedKeeps(d);
    FinishKeeps(fired, e, parse);
  }

  lemma SpawnKeeps(d: Delivery)
    requires Kept(d) && !d.settled
    ensures Kept(d.(spawnObserved := true))
    ensures d.terminationStarted && NeverStuck(d) ==> NeverStuck(d.(spawnObserved := true))
  {
  }

  lemma KillKeeps(d: Delivery)
    requires Kept(d) && d.graceArmed
    ensures Kept(Killed(d)) && Step(d, Killed(d))
  {
    hide SettledWell, Flatten;
    TermSnoc(d.sent, Kill);
    KillSnoc(d.sent, Kill);
    if SawGone(d.sent) {
      var i :| 0 <= i < |d.sent| && (d.sent[i] == Term(Gone) || d.sent[i] == Probe(Gone));
      assert Killed(d).sent[i] == d.sent[i];
    }
  }

  lemma UnarmedKeeps(d: Delivery)
    requires Kept(d)
    ensures Kept(d.(pollArmed := false))
    ensures NeverStuck(d) && !Signalling(d) && !d.settled && d.pending.Some? ==> Ready(d)
  {
    hide TermCount, KillCount, SawGone, Flatten;
  }

  lemma {:induction false} HandleAllKeeps(d: Delivery, events: seq<Event>, parse: Parser)
    requires Kept(d)
    ensures Step(d, HandleAll(d, events, parse))
    decreases events
  {
    hide Kept, Handle;
    if events != [] {
      var next := Handle(d, events[0], parse);
      HandleKeeps(d, events[0], parse);
      HandleAllKeeps(next, events[1..], parse);
      StepChain(d, next, HandleAll(next, events[1..], parse));
    }
  }

  // ---------------------------------------------------------------- every run

  function Run(mode: Mode, addressable: bool, events: seq<Event>, parse: Parser): Delivery {
    HandleAll(Start(mode, addressable), events, parse)
  }

  lemma RunKeeps(mode: Mode, addressable: bool, events: seq<Event>, parse: Parser)
    ensures Kept(Run(mode, addressable, events, parse)) && NeverStuck(Run(mode, addressable, events, parse))
  {
    hide HandleAll;
    HandleAllKeeps(Start(mode, addressable), events, parse);
  }

  /**
   * For every order of events, with any events during any signal: the delivery settles at most
   * once; a rejection reports the first refusal requested, after the child closed or never spawned
   * and, in group mode, after the group was seen gone; TERM is sent at most once; a resolution has
   * no refusal pending and is exactly the bytes received, at most 65536 of them.
   */
  lemma SettlesOnceAndNeverEarly(mode: Mode, addressable: bool, events: seq<Event>, parse: Parser)
    ensures var d := Run(mode, addressable, events, parse);
            && |d.outcomes| <= 1 && (d.settled <==> |d.outcomes| == 1)
            && TermCount(d.sent) <= 1
            && (d.settled && d.outcomes[0].Rejected? ==>
                  && d.requested != [] && d.outcomes[0].why == d.requested[0] && d.childClosed
                  && (d.mode.PosixGroup? ==> (d.group.None? && d.spawnFailed) || SawGone(d.sent)))
            && (d.settled && d.outcomes[0].Resolved? ==>
                  && d.pending == None && d.requested == [] && d.childClosed
                  && |d.outcomes[0].receipt| <= MAX_RECEIPT_BYTES && d.outcomes[0].receipt == Flatten(d.received))
  {
    hide Run;
    RunKeeps(mode, addressable, events, parse);
  }

  /** Once settled, no later event settles again or takes the settlement back. */
  lemma SettlementIsFinal(mode: Mode, addressable: bool, events: seq<Event>, more: seq<Event>, parse: Parser)
    ensures var d := Run(mode, addressable, events, parse);
            d.settled ==> HandleAll(d, more, parse).outcomes == d.outcomes
  {
    hide Run, HandleAll;
    RunKeeps(mode, addressable, events, parse);
    HandleAllKeeps(Run(mode, addressable, events, parse), more, parse);
  }

  /** Refused, its child closed, and still not settled, with no signal being sent. */
  predicate Waiting(d: Delivery) {
    !d.settled && d.pending.Some? && d.childClosed && !Signalling(d)
  }

  /** A poll is what such a delivery waits for: its group could be signalled and its start is decided. */
  predicate Polls(d: Delivery) {
    (d.spawnObserved || d.spawnFailed) && d.mode.PosixGroup? && d.addressable
  }

  /**
   * In every run, a refused delivery whose child has closed has its poll armed, and settles at a poll
   * that sees the group gone, exactly when it is in group mode with a usable pid and its start was
   * observed or failed.
   */
  lemma PollSettles(mode: Mode, addressable: bool, events: seq<Event>, parse: Parser, onTerm: Signal,
                    during: seq<Event>)
    ensures var d := Run(mode, addressable, events, parse);
            Waiting(d) ==>
              && (d.pollArmed <==> Polls(d)) && (d.group.Some? <==> Polls(d))
              && (Handle(d, Event(PollFired, onTerm, Signal(Gone, during)), parse).settled <==> Polls(d))
  {
    hide Run, HandleAll;
    RunKeeps(mode, addressable, events, parse);
  }

  /** In group mode a spawned child without a usable pid: once refused, it is never settled. */
  predicate Forgotten(d: Delivery) {
    && d.mode.PosixGroup? && !d.addressable && d.group.None? && d.spawnObserved && !d.spawnFailed
    && d.pending.Some? && !d.settled && !d.graceArmed
  }

  /** Neither spawned nor failed: nothing was signalled and no timer but the deadline is armed. */
  predicate Unstarted(d: Delivery) {
    && !d.spawnObserved && !d.spawnFailed && !d.terminationStarted && d.group.None?
    && d.pending.Some? && !d.settled && !d.graceArmed && !d.pollArmed
  }

  /** There is no fourth case. */
  lemma WaitingIsOneOfThree(mode: Mode, addressable: bool, events: seq<Event>, parse: Parser)
    ensures var d := Run(mode, addressable, events, parse);
            Waiting(d) ==>
              && (Unstarted(d) <==> !d.spawnObserved && !d.spawnFailed)
              && (Forgotten(d) <==> d.mode.PosixGroup? && !d.addressable && d.spawnObserved)
              && (Polls(d) || Forgotten(d) || Unstarted(d))
  {
    hide Run, HandleAll;
    RunKeeps(mode, addressable, events, parse);
  }

  ghost predicate CanSettle(d: Delivery, parse: Parser) {
    exists more :: HandleAll(d, more, parse).settled
  }

  /**
   * After every run, a refused delivery whose child has closed can still be settled by some further
   * events exactly when it is not a group whose child was spawned without a usable pid.
   */
  lemma WaitingCanSettleIff(mode: Mode, addressable: bool, events: seq<Event>, parse: Parser)
    ensures var d := Run(mode, addressable, events, parse);
            Waiting(d) ==> (CanSettle(d, parse) <==> !(mode.PosixGroup? && !addressable && d.spawnObserved))
  {
    hide Run, HandleAll, Handle, Kept;
    var d := Run(mode, addressable, events, parse);
    RunKeepsMode(mode, addressable, events, parse);
    if Waiting(d) {
      var gone := Signal(Gone, []);
      WaitingIsOneOfThree(mode, addressable, events, parse);
      if Polls(d) {
        PollSettles(mode, addressable, events, parse, gone, []);
        OneEvent(d, Event(PollFired, gone, gone), parse);
      } else if Unstarted(d) {
        FailureSettles(d, parse);
        OneEvent(d, Event(Failed, gone, gone), parse);
      } else {
        forall more
          ensures !HandleAll(d, more, parse).settled
        {
          WithoutPidARefusalNeverSettles(d, more, parse);
        }
      }
    }
  }

  lemma OneEvent(d: Delivery, e: Event, parse: Parser)
    ensures HandleAll(d, [e], parse) == Handle(d, e, parse)
  {
    assert [e][1..] == [];
  }

  lemma RunKeepsMode(mode: Mode, addressable: bool, events: seq<Event>, parse: Parser)
    ensures Run(mode, addressable, events, parse).mode == mode
    ensures Run(mode, addressable, events, parse).addressable == addressable
  {
    hide HandleAll;
    HandleAllKeeps(Start(mode, addressable), events, parse);
  }

  /** An error in place of the spawn settles what was waiting for it, if a group is gone by then. */
  lemma FailureSettles(d: Delivery, parse: Parser)
    requires Unstarted(d) && d.childClosed
    ensures Handle(d, Event(Failed, Signal(Gone, []), Signal(Gone, [])), parse).settled
  {
    var e := Event(Failed, Signal(Gone, []), Signal(Gone, []));
    var noted := NoteFailure(d);
    var asked := Request(noted, StartFailed, e, parse);
    RequestWaits(noted, StartFailed, e, parse);
    if d.mode.PosixGroup? && d.addressable {
      BeginAsks(asked, e, parse);
      var answered := Answered(Asked(Begun(asked), Term(Gone)), Gone);
      FinishCases(answered, e, parse);
      assert Begin(asked, e, parse) == Finish(answered, e, parse);
    } else {
      BeginFinishes(asked, e, parse);
      FinishCases(Begun(asked), e, parse);
    }
  }

  /** Runs that end in each of the two states no poll can settle. */
  lemma UnpolledRunsExist(parse: Parser)
    requires !parse([])
    ensures var quiet := Signal(Gone, []);
            var spawnedLate := Run(PosixGroup, false, [Event(Spawned, quiet, quiet), Event(DeadlineFired, quiet, quiet),
                                                       Event(Closed(false), quiet, quiet)], parse);
            var closedFirst := Run(DirectChild, true, [Event(Closed(false), quiet, quiet)], parse);
            && Waiting(spawnedLate) && Forgotten(spawnedLate)
            && Waiting(closedFirst) && Unstarted(closedFirst) && !closedFirst.deadlineArmed
  {
    var quiet := Signal(Gone, []);
    var spawned, deadline := Event(Spawned, quiet, quiet), Event(DeadlineFired, quiet, quiet);
    var closed := Event(Closed(false), quiet, quiet);
    var s0 := Start(PosixGroup, false);
    var s1 := Handle(s0, spawned, parse);
    var s2 := Handle(s1, deadline, parse);
    var s3 := Handle(s2, closed, parse);
    ThreeEvents(s0, spawned, deadline, closed, parse);
    assert s1 == s0.(spawnObserved := true);
    assert Forgotten(s2) && !s2.childClosed;
    ForgottenFinish(ChildClosed(s2), closed, parse);
    OneEvent(Start(DirectChild, true), closed, parse);
  }

  lemma ThreeEvents(d: Delivery, e: Event, f: Event, g: Event, parse: Parser)
    ensures HandleAll(d, [e, f, g], parse) == Handle(Handle(Handle(d, e, parse), f, parse), g, parse)
  {
    hide Handle;
    var one := Handle(d, e, parse);
    var two := Handle(one, f, parse);
    assert [e, f, g][1..] == [f, g] && [f, g][1..] == [g];
    assert HandleAll(d, [e, f, g], parse) == HandleAll(one, [f, g], parse);
    assert HandleAll(one, [f, g], parse) == HandleAll(two, [g], parse);
    OneEvent(two, g, parse);
  }

  lemma {:induction false} WithoutPidARefusalNeverSettles(d: Delivery, events: seq<Event>, parse: Parser)
    requires Forgotten(d)
    ensures Forgotten(HandleAll(d, events, parse))
    decreases events
  {
    if events != [] {
      ForgottenStep(d, events[0], parse);
      WithoutPidARefusalNeverSettles(Handle(d, events[0], parse), events[1..], parse);
    }
  }

  lemma ForgottenStep(d: Delivery, e: Event, parse: Parser)
    requires Forgotten(d)
    ensures Forgotten(Handle(d, e, parse))
  {
    hide HandleAll, Begin, Finish, Request, OnClose, OnData, Killed;
    match e.kind
    case Spawned => ForgottenBegin(d.(spawnObserved := true), e, parse);
    case Failed => ForgottenFailure(d, e, parse);
    case Closed(exitZero) => ForgottenClose(d, exitZero, e, parse);
    case Broken(why) => ForgottenRequest(d, why, e, parse);
    case DeadlineFired => ForgottenRequest(d.(deadlineArmed := false), Timeout, e, parse);
    case PollFired => ForgottenFinish(d.(pollArmed := false), e, parse);
    case Data(chunk) => ForgottenData(d, chunk);
    case GraceFired =>
  }

  lemma ForgottenRequest(d: Delivery, why: Refusal, e: Event, parse: Parser)
    requires Forgotten(d)
    ensures Forgotten(Request(d, why, e, parse))
  {
    hide Request;
    RequestWaits(d, why, e, parse);
  }

  lemma ForgottenData(d: Delivery, chunk: ByteString)
    requires Forgotten(d)
    ensures Forgotten(OnData(d, chunk))
  {
    hide Overflows;
  }

  lemma ForgottenFailure(d: Delivery, e: Event, parse: Parser)
    requires Forgotten(d)
    ensures Forgotten(Begin(Request(NoteFailure(d), StartFailed, e, parse), e, parse))
  {
    hide Begin, Request;
    RequestWaits(d, StartFailed, e, parse);
    ForgottenBegin(Request(d, StartFailed, e, parse), e, parse);
  }

  lemma ForgottenClose(d: Delivery, exitZero: bool, e: Event, parse: Parser)
    requires Forgotten(d)
    ensures Forgotten(OnClose(d, exitZero, e, parse))
  {
    hide Finish, Request;
    ForgottenFinish(ChildClosed(d), e, parse);
  }

  lemma ForgottenFinish(d: Delivery, e: Event, parse: Parser)
    requires Forgotten(d)
    ensures Finish(d, e, parse) == d
  {
  }

  lemma ForgottenBegin(d: Delivery, e: Event, parse: Parser)
    requires Forgotten(d)
    ensures Forgotten(Begin(d, e, parse))
  {
    hide Finish, HandleAll;
    ForgottenFinish(Begun(d), e, parse);
  }

  // ---------------------------------------------------------------- the closure

  class Supervisor {
    const mode: Mode
    const addressable: bool
    const parse: Parser
    var stdout: ByteString
    var oversized: bool
    var settled: bool
    var pending: Option<Refusal>
    var deadlineArmed: bool
    var graceArmed: bool
    var pollArmed: bool
    var childClosed: bool
    var spawnObserved: bool
    var spawnFailed: bool
    var terminationStarted: bool
    var group: Option<Group>
    var outcomes: seq<Settlement>
    var sent: seq<Sent>
    var requested: seq<Refusal>
    var received: seq<ByteString>

    function State(): Delivery
      reads this
    {
      Delivery(mode, addressable, stdout, oversized, settled, pending, deadlineArmed, graceArmed, pollArmed,
               childClosed, spawnObserved, spawnFailed, terminationStarted, group, outcomes, sent, requested, received)
    }

    constructor (mode: Mode, addressable: bool, parse: Parser)
      ensures State() == Start(mode, addressable) && this.parse == parse
    {
      this.mode, this.addressable, this.parse := mode, addressable, parse;
      stdout, oversized, settled, pending := [], false, false, None;
      deadlineArmed, graceArmed, pollArmed := true, false, false;
      childClosed, spawnObserved, spawnFailed, terminationStarted, group := false, false, false, false, None;
      outcomes, sent, requested, received := [], [], [], [];
    }

    method Ask(s: Sent)
      modifies this
      ensures State() == Asked(old(State()), s)
    {
      group := Some(Group(false, true));
      sent := sent + [s];
    }

    method Answer(seen: Observation)
      modifies this
      ensures State() == Answered(old(State()), seen)
    {
      group := Some(Group(seen.Gone?, false));
    }

    /** Signal the group; whatever is delivered meanwhile is handled before the answer is noted. */
    method AskGroup(s: Sent, signal: Signal)
      modifies this
      ensures State() == Answered(HandleAll(Asked(old(State()), s), signal.during, parse), signal.seen)
      decreases signal
    {
      hide HandleAll;
      Ask(s);
      Deliver(signal.during);
      Answer(signal.seen);
    }

    method FinishPendingRefusal(e: Event)
      modifies this
      ensures State() == Finish(old(State()), e, parse)
      decreases e, 0, 0
    {
      hide Finish, HandleAll, Asked, Answered, Reject;
      ghost var d := State();
      FinishCases(d, e, parse);
      if settled || pending.None? || !childClosed {
        return;
      }
      if mode.PosixGroup? && group.None? && !spawnFailed {
        return;
      }
      if group.Some? && group.value.signaling {
        return;
      }
      var refusal := pending.value;
      if group.Some? && !group.value.gone {
        FinishProbes(d, e, parse);
        AskGroup(Probe(e.onProbe.seen), e.onProbe);
        if !e.onProbe.seen.Gone? {
          pollArmed := true;
          return;
        }
      }
      RejectNow(refusal);
    }

    method RejectNow(why: Refusal)
      modifies `settled, `deadlineArmed, `graceArmed, `outcomes
      ensures State() == Reject(old(State()), why)
    {
      settled, deadlineArmed, graceArmed, outcomes := true, false, false, outcomes + [Rejected(why)];
    }

    method MarkBegun()
      modifies `terminationStarted
      ensures State() == Begun(old(State()))
    {
      terminationStarted := true;
    }

    method BeginTermination(e: Event)
      modifies this
      ensures State() == Begin(old(State()), e, parse)
      decreases e, 1
    {
      hide Begin, Finish, HandleAll, Asked, Answered, Begun;
      if settled || pending.None? || terminationStarted || (!spawnObserved && !spawnFailed) {
        BeginStays(State(), e, parse);
      } else if mode.PosixGroup? && addressable {
        TerminateGroup(e);
      } else if mode.DirectChild? && !spawnFailed {
        TerminateChild(e);
      } else {
        FinishUnstarted(e);
      }
    }

    /** There is nothing to signal. */
    method FinishUnstarted(e: Event)
      requires Starting(State()) && !(mode.PosixGroup? && addressable) && !(mode.DirectChild? && !spawnFailed)
      modifies this
      ensures State() == Begin(old(State()), e, parse)
      decreases e, 0, 1
    {
      hide Begin, Finish, HandleAll, Begun;
      BeginFinishes(State(), e, parse);
      MarkBegun();
      FinishPendingRefusal(e);
    }

    /** TERM to the whole group. */
    method TerminateGroup(e: Event)
      requires !settled && pending.Some? && !terminationStarted && (spawnObserved || spawnFailed)
      requires mode.PosixGroup? && addressable
      modifies this
      ensures State() == Begin(old(State()), e, parse)
      decreases e, 0, 1
    {
      hide Begin, Finish, HandleAll, Asked, Answered;
      BeginAsks(State(), e, parse);
      MarkBegun();
      AskGroup(Term(e.onTerm.seen), e.onTerm);
      FinishPendingRefusal(e);
    }

    /** TERM to the direct child; its close may arrive at once, otherwise KILL is scheduled. */
    method TerminateChild(e: Event)
      requires Starting(State()) && mode.DirectChild? && !spawnFailed
      modifies this
      ensures State() == Begin(old(State()), e, parse)
      decreases e, 0, 1
    {
      hide Begin, Finish, HandleAll, Killing, Graced;
      BeginKills(State(), e, parse);
      SendTerm(e.onTerm.seen);
      Deliver(e.onTerm.during);
      if settled {
        return;
      }
      Grace();
      FinishPendingRefusal(e);
    }

    method SendTerm(seen: Observation)
      modifies `terminationStarted, `sent
      ensures State() == Killing(old(State()), seen)
    {
      terminationStarted := true;
      sent := sent + [Term(seen)];
    }

    method Grace()
      modifies `graceArmed
      ensures State() == Graced(old(State()))
    {
      graceArmed := true;
    }

    method NoteRequest(why: Refusal)
      modifies `requested
      ensures State() == old(State()).(requested := old(requested) + [why])
    {
      requested := requested + [why];
    }

    method Refuse(why: Refusal)
      modifies `pending, `deadlineArmed
      ensures State() == old(State()).(pending := Some(why), deadlineArmed := false)
    {
      pending := Some(why);
      deadlineArmed := false;
    }

    method RequestTermination(why: Refusal, e: Event)
      modifies this
      ensures State() == Request(old(State()), why, e, parse)
      decreases e, 2
    {
      if settled {
        return;
      }
      NoteRequest(why);
      if pending.Some? {
        return;
      }
      Refuse(why);
      BeginTermination(e);
    }

    method NoteClosed()
      modifies `childClosed, `deadlineArmed
      ensures State() == ChildClosed(old(State()))
    {
      childClosed := true;
      deadlineArmed := false;
    }

    method ResolveNow()
      modifies `settled, `graceArmed, `outcomes
      ensures State() == Resolve(old(State()))
    {
      settled, graceArmed := true, false;
      outcomes := outcomes + [Resolved(stdout)];
    }

    method CloseHandler(exitZero: bool, e: Event)
      modifies this
      ensures State() == OnClose(old(State()), exitZero, e, parse)
      decreases e, 3
    {
      hide Finish, Request, ChildClosed, Resolve;
      if settled {
        return;
      }
      NoteClosed();
      if pending.Some? {
        FinishPendingRefusal(e);
      } else if oversized {
        RequestTermination(Oversized, e);
      } else if parse(stdout) {
        ResolveNow();
      } else {
        RequestTermination(if exitZero then Malformed else Crashed, e);
      }
    }

    method SpawnHandler(e: Event)
      requires e.kind.Spawned?
      modifies this
      ensures State() == Handle(old(State()), e, parse)
      decreases e, 3
    {
      hide Begin;
      if !settled {
        spawnObserved := true;
        BeginTermination(e);
      }
    }

    method ErrorHandler(e: Event)
      requires e.kind.Failed?
      modifies this
      ensures State() == Handle(old(State()), e, parse)
      decreases e, 3
    {
      hide Begin, Request;
      if !spawnObserved {
        spawnFailed := true;
        childClosed := true;
      }
      RequestTermination(StartFailed, e);
      BeginTermination(e);
    }

    method Take(chunk: ByteString, over: bool)
      modifies `stdout, `oversized
      ensures State() == Took(old(State()), if over then old(stdout) else old(stdout) + chunk, old(oversized) || over)
    {
      if over {
        oversized := true;
      } else {
        stdout := stdout + chunk;
      }
    }

    /** The trace alone: what arrived before the delivery settled. */
    method NoteReceived(chunk: ByteString)
      modifies `received
      ensures State() == Received(old(State()), chunk)
    {
      received := if settled then received else received + [chunk];
    }

    method DataHandler(chunk: ByteString)
      modifies this
      ensures State() == OnData(old(State()), chunk)
    {
      hide Received, Took;
      ReceivedStdout(State(), chunk);
      NoteReceived(chunk);
      Take(chunk, |stdout| + |chunk| > MAX_RECEIPT_BYTES);
    }

    method UnarmDeadline()
      modifies `deadlineArmed
      ensures State() == old(State()).(deadlineArmed := false)
    {
      deadlineArmed := false;
    }

    method UnarmPoll()
      modifies `pollArmed
      ensures State() == old(State()).(pollArmed := false)
    {
      pollArmed := false;
    }

    method KillNow()
      modifies `graceArmed, `sent
      ensures State() == Killed(old(State()))
    {
      graceArmed := false;
      sent := sent + [Kill];
    }

    method TimerHandler(e: Event)
      requires e.kind.DeadlineFired? || e.kind.GraceFired? || e.kind.PollFired?
      modifies this
      ensures State() == Handle(old(State()), e, parse)
      decreases e, 3
    {
      hide Finish, Request, HandleAll;
      if e.kind.DeadlineFired? && deadlineArmed {
        UnarmDeadline();
        RequestTermination(Timeout, e);
      } else if e.kind.GraceFired? && graceArmed {
        KillNow();
        Deliver(e.onTerm.during);
      } else if e.kind.PollFired? && pollArmed {
        UnarmPoll();
        FinishPendingRefusal(e);
      }
    }

    method OnEvent(e: Event)
      modifies this
      ensures State() == Handle(old(State()), e, parse)
      decreases e, 4
    {
      hide Finish, Request, Begin, OnClose, OnData, HandleAll;
      match e.kind
      case Spawned => SpawnHandler(e);
      case Failed => ErrorHandler(e);
      case Closed(exitZero) => CloseHandler(exitZero, e);
      case Data(chunk) => DataHandler(chunk);
      case Broken(why) => RequestTermination(why, e);
      case _ => TimerHandler(e);
    }

    method Deliver(events: seq<Event>)
      modifies this
      ensures State() == HandleAll(old(State()), events, parse)
      decreases events
    {
      if events != [] {
        OnEvent(events[0]);
        Deliver(events[1..]);
      }
    }
  }
}
