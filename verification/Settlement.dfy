/** What becomes of a supervised delivery, told from the events alone. */
module Settlement {
  import opened Bytes
  import opened Supervisor

  /** What the first event that decides a run makes of it. */
  datatype Verdict = Undecided | Accepted(receipt: ByteString) | Refused(why: Refusal)

  /** The start, output, and the two timers of a termination decide nothing by themselves. */
  predicate LeavesOpen(k: Kind) {
    k.Spawned? || k.Data? || k.GraceFired? || k.PollFired?
  }

  function FirstDecisive(events: seq<Event>): (k: nat)
    ensures k <= |events| && forall i :: 0 <= i < k ==> LeavesOpen(events[i].kind)
    ensures k < |events| ==> !LeavesOpen(events[k].kind)
  {
    if events == [] || !LeavesOpen(events[0].kind) then 0 else 1 + FirstDecisive(events[1..])
  }

  /** The output that arrives, chunk by chunk. */
  function Chunks(events: seq<Event>): seq<ByteString> {
    if events == [] then []
    else (if events[0].kind.Data? then [events[0].kind.chunk] else []) + Chunks(events[1..])
  }

  /** The receipt alone decides at a close; the exit status only picks the refusal. */
  function VerdictOf(kind: Kind, receipt: ByteString, parse: Parser): Verdict {
    match kind
    case Closed(exitZero) =>
      if |receipt| > 65536 then Refused(Oversized)
      else if parse(receipt) then Accepted(receipt)
      else Refused(if exitZero then Malformed else Crashed)
    case Failed => Refused(StartFailed)
    case Broken(why) => Refused(why)
    case DeadlineFired => Refused(Timeout)
    case _ => Undecided
  }

  function Decided(events: seq<Event>, parse: Parser): Verdict {
    var k := FirstDecisive(events);
    if k == |events| then Undecided else VerdictOf(events[k].kind, Flatten(Chunks(events[..k])), parse)
  }

  // ---------------------------------------------------------------- up to the first decisive event

  /** Nothing has been decided, so nothing but output was taken in. */
  predicate Open(d: Delivery) {
    && !d.settled && d.pending.None? && d.deadlineArmed && !d.graceArmed && !d.pollArmed
    && !d.childClosed && !d.spawnFailed && !d.terminationStarted && d.group.None?
    && d.outcomes == [] && d.sent == [] && d.requested == []
  }

  /** A chunk was dropped exactly when more than 65536 bytes arrived; otherwise all of them were kept. */
  predicate Measured(d: Delivery) {
    && |d.stdout| <= |Flatten(d.received)|
    && (d.oversized <==> |Flatten(d.received)| > 65536)
    && (!d.oversized ==> d.stdout == Flatten(d.received))
  }

  lemma OpenStays(d: Delivery, e: Event, parse: Parser)
    requires Open(d) && Measured(d) && LeavesOpen(e.kind)
    ensures var t := Handle(d, e, parse);
            && Open(t) && Measured(t) && t.received == d.received + Chunks([e])
            && t.spawnObserved == (d.spawnObserved || e.kind.Spawned?)
  {
    assert [e][1..] == [];
    if e.kind.Data? {
      hide Flatten;
      FlattenSnoc(d.received, e.kind.chunk);
    } else {
      assert d.received + [] == d.received;
    }
  }

  lemma {:induction false} OpenRun(d: Delivery, events: seq<Event>, parse: Parser)
    requires Open(d) && Measured(d) && FirstDecisive(events) == |events|
    ensures var t := HandleAll(d, events, parse);
            && Open(t) && Measured(t) && t.received == d.received + Chunks(events)
            && (t.spawnObserved <==> d.spawnObserved || exists i :: 0 <= i < |events| && events[i].kind.Spawned?)
    decreases |events|
  {
    hide Handle, Open, Measured, LeavesOpen;
    if events == [] {
      assert d.received + [] == d.received;
    } else {
      var next := Handle(d, events[0], parse);
      FirstOpen(events);
      hide Chunks, FirstDecisive;
      OpenStays(d, events[0], parse);
      OpenRun(next, events[1..], parse);
      SpawnedFirst(events);
      ConcatAssociates(d.received, Chunks([events[0]]), Chunks(events[1..]));
    }
  }

  lemma FirstOpen(events: seq<Event>)
    requires events != [] && FirstDecisive(events) == |events|
    ensures LeavesOpen(events[0].kind) && FirstDecisive(events[1..]) == |events[1..]|
    ensures Chunks(events) == Chunks([events[0]]) + Chunks(events[1..])
  {
    assert [events[0]][1..] == [];
  }

  lemma SpawnedFirst(events: seq<Event>)
    requires events != []
    ensures (exists i :: 0 <= i < |events| && events[i].kind.Spawned?) <==>
            events[0].kind.Spawned? || exists i :: 0 <= i < |events[1..]| && events[1..][i].kind.Spawned?
  {
    if i :| 0 <= i < |events| && events[i].kind.Spawned? {
      assert i > 0 ==> events[1..][i - 1].kind.Spawned?;
    }
    if i :| 0 <= i < |events[1..]| && events[1..][i].kind.Spawned? {
      assert events[i + 1].kind.Spawned?;
    }
  }

  lemma {:induction false} HandleAllConcat(d: Delivery, a: seq<Event>, b: seq<Event>, parse: Parser)
    ensures HandleAll(d, a + b, parse) == HandleAll(HandleAll(d, a, parse), b, parse)
    decreases |a|
  {
    hide Handle;
    if a == [] {
      assert a + b == b;
    } else {
      assert (a + b)[1..] == a[1..] + b;
      HandleAllConcat(Handle(d, a[0], parse), a[1..], b, parse);
    }
  }

  // ---------------------------------------------------------------- what it decides

  /** A request made of an open delivery is what is pending from then on. */
  lemma RequestIsPending(d: Delivery, why: Refusal, e: Event, parse: Parser)
    requires Kept(d) && !d.settled && d.pending.None?
    ensures var t := Request(d, why, e, parse);
            Kept(t) && t.pending == Some(why) && t.requested != [] && t.requested[0] == why
  {
    RequestKeeps(d, why, e, parse);
    AskedFor(d, why);
    var asked := d.(pending := Some(why), requested := d.requested + [why], deadlineArmed := false);
    BeginKeeps(asked, e, parse);
    hide Begin, SettledWell, SawGone, TermCount, KillCount, Flatten;
  }

  lemma AskedFor(d: Delivery, why: Refusal)
    requires Kept(d) && !d.settled && d.pending.None?
    ensures d.requested == []
    ensures Kept(d.(pending := Some(why), requested := d.requested + [why], deadlineArmed := false))
  {
    hide SettledWell, SawGone, TermCount, KillCount, Flatten;
  }

  predicate Follows(t: Delivery, verdict: Verdict) {
    match verdict
    case Undecided => Open(t)
    case Accepted(receipt) => t.settled && t.outcomes == [Resolved(receipt)]
    case Refused(why) => t.pending == Some(why) && t.requested != [] && t.requested[0] == why
  }

  lemma Decides(d: Delivery, e: Event, parse: Parser)
    requires Kept(d) && Open(d) && Measured(d) && !LeavesOpen(e.kind)
    ensures Follows(Handle(d, e, parse), VerdictOf(e.kind, Flatten(d.received), parse))
  {
    hide Kept, Begin, Request, Flatten;
    match e.kind
    case Closed(exitZero) => CloseDecides(d, exitZero, e, parse);
    case Failed => FailureDecides(d, e, parse);
    case Broken(why) => RequestIsPending(d, why, e, parse);
    case DeadlineFired =>
      TimerKeeps(d);
      RequestIsPending(d.(deadlineArmed := false), Timeout, e, parse);
  }

  lemma CloseDecides(d: Delivery, exitZero: bool, e: Event, parse: Parser)
    requires Kept(d) && Open(d) && Measured(d)
    ensures Follows(OnClose(d, exitZero, e, parse), VerdictOf(Closed(exitZero), Flatten(d.received), parse))
  {
    hide Kept, Finish, Request, Flatten;
    var closed := ChildClosed(d);
    ClosedKeeps(d);
    if d.oversized {
      RequestIsPending(closed, Oversized, e, parse);
    } else if !parse(d.stdout) {
      RequestIsPending(closed, if exitZero then Malformed else Crashed, e, parse);
    }
  }

  lemma ClosedKeeps(d: Delivery)
    requires Kept(d) && Open(d)
    ensures Kept(ChildClosed(d))
  {
    hide SettledWell, SawGone, TermCount, KillCount, Flatten;
  }

  lemma FailureDecides(d: Delivery, e: Event, parse: Parser)
    requires Kept(d) && Open(d)
    ensures Follows(Begin(Request(NoteFailure(d), StartFailed, e, parse), e, parse), Refused(StartFailed))
  {
    hide Kept, Begin, Request, NoteFailure, NeverStuck, HasGrace;
    NotedKeeps(d);
    var requested := Request(NoteFailure(d), StartFailed, e, parse);
    RequestIsPending(NoteFailure(d), StartFailed, e, parse);
    BeginKeeps(requested, e, parse);
  }

  /** What is decided stays decided, and a refusal can only end in a rejection with its reason. */
  lemma DecisionStands(d: Delivery, events: seq<Event>, parse: Parser)
    requires Kept(d)
    ensures var t := HandleAll(d, events, parse);
            && (d.settled ==> t.outcomes == d.outcomes)
            && (d.pending.Some? ==>
                  t.pending == d.pending && (t.outcomes == [] || t.outcomes == [Rejected(d.pending.value)]))
  {
    hide HandleAll, SawGone, TermCount, KillCount, Flatten;
    HandleAllKeeps(d, events, parse);
  }

  /**
   * In every run the first decisive event settles what becomes of the delivery. A close accepts exactly
   * the bytes that arrived if they are at most 65536 and parse, whatever the exit status; then they are
   * what it resolves with, at once and for good. Otherwise the close refuses, as does any other decisive
   * event, for its own reason; then it is never resolved, and only that reason can reject it.
   */
  lemma FirstDecisiveEventDecides(mode: Mode, addressable: bool, events: seq<Event>, parse: Parser)
    ensures var d := Run(mode, addressable, events, parse);
            match Decided(events, parse)
            case Undecided => Open(d) && d.received == Chunks(events)
            case Accepted(receipt) => d.outcomes == [Resolved(receipt)]
            case Refused(why) => d.pending == Some(why) && (d.outcomes == [] || d.outcomes == [Rejected(why)])
  {
    hide HandleAll, Handle, Kept, NeverStuck, VerdictOf, Chunks, Flatten;
    var k := FirstDecisive(events);
    var d := Run(mode, addressable, events[..k], parse);
    OpenPrefix(mode, addressable, events, parse);
    assert events == events[..k] + events[k..];
    HandleAllConcat(Start(mode, addressable), events[..k], events[k..], parse);
    if k == |events| {
      assert events[..k] == events;
    } else {
      RunKeeps(mode, addressable, events[..k], parse);
      var next := Handle(d, events[k], parse);
      Decides(d, events[k], parse);
      HandleKeeps(d, events[k], parse);
      HandleAllFirst(d, events[k..], parse);
      DecisionStands(next, events[k..][1..], parse);
      NotUndecided(events[k].kind, Flatten(Chunks(events[..k])), parse);
    }
  }

  lemma NotUndecided(kind: Kind, receipt: ByteString, parse: Parser)
    requires !LeavesOpen(kind)
    ensures !VerdictOf(kind, receipt, parse).Undecided?
  {
  }

  lemma HandleAllFirst(d: Delivery, events: seq<Event>, parse: Parser)
    requires events != []
    ensures HandleAll(d, events, parse) == HandleAll(Handle(d, events[0], parse), events[1..], parse)
  {
  }

  /** Before the first decisive event the delivery has only listened. */
  lemma OpenPrefix(mode: Mode, addressable: bool, events: seq<Event>, parse: Parser)
    ensures var k := FirstDecisive(events);
            var d := Run(mode, addressable, events[..k], parse);
            && Open(d) && Measured(d) && d.received == Chunks(events[..k])
            && (d.spawnObserved <==> exists i :: 0 <= i < k && events[i].kind.Spawned?)
  {
    hide HandleAll;
    var k := FirstDecisive(events);
    AllOpen(events[..k]);
    OpenRun(Start(mode, addressable), events[..k], parse);
    assert [] + Chunks(events[..k]) == Chunks(events[..k]);
    assert forall i :: 0 <= i < k ==> events[..k][i] == events[i];
  }

  lemma AllOpen(events: seq<Event>)
    requires forall i :: 0 <= i < |events| ==> LeavesOpen(events[i].kind)
    ensures FirstDecisive(events) == |events|
  {
  }

  // ---------------------------------------------------------------- what a settlement and a KILL need

  datatype Sort = IsClose | IsFailure | IsGrace {
    predicate Of(k: Kind) {
      match this
      case IsClose => k.Closed?
      case IsFailure => k.Failed?
      case IsGrace => k.GraceFired?
    }
  }

  /** Such an event is among these, or among those delivered during a signal sent for one of them. */
  predicate Anywhere(events: seq<Event>, sort: Sort)
    decreases events
  {
    exists i :: 0 <= i < |events| && Within(events[i], sort)
  }

  predicate Within(e: Event, sort: Sort)
    decreases e
  {
    sort.Of(e.kind) || Anywhere(e.onTerm.during, sort) || Anywhere(e.onProbe.during, sort)
  }

  lemma AnywhereCons(events: seq<Event>, sort: Sort)
    requires events != []
    ensures Anywhere(events, sort) <==> Within(events[0], sort) || Anywhere(events[1..], sort)
  {
    hide Within;
    if Anywhere(events, sort) && !Within(events[0], sort) {
      var i :| 0 <= i < |events| && Within(events[i], sort);
      assert events[1..][i - 1] == events[i];
    }
    if Anywhere(events[1..], sort) {
      var i :| 0 <= i < |events[1..]| && Within(events[1..][i], sort);
      assert events[i + 1] == events[1..][i];
    }
  }

  lemma WithinIs(e: Event, sort: Sort)
    ensures Within(e, sort) <==> sort.Of(e.kind) || Anywhere(e.onTerm.during, sort) || Anywhere(e.onProbe.during, sort)
  {
  }

  /** The child counts as closed only by a close or a failed start, and is killed only by the grace timer. */
  predicate Explained(d: Delivery, t: Delivery, closes: bool, fails: bool, kills: bool) {
    && (t.childClosed ==> d.childClosed || t.spawnFailed || closes)
    && (t.spawnFailed ==> d.spawnFailed || fails) && (d.spawnFailed ==> t.spawnFailed)
    && (KillCount(t.sent) > KillCount(d.sent) ==> kills)
  }

  predicate ExplainedBy(d: Delivery, t: Delivery, e: Event) {
    Explained(d, t, Within(e, IsClose), Within(e, IsFailure), Within(e, IsGrace))
  }

  predicate ExplainedByAll(d: Delivery, t: Delivery, events: seq<Event>) {
    Explained(d, t, Anywhere(events, IsClose), Anywhere(events, IsFailure), Anywhere(events, IsGrace))
  }

  lemma ExplainedChain(d: Delivery, m: Delivery, t: Delivery, e: Event)
    requires ExplainedBy(d, m, e) && ExplainedBy(m, t, e)
    ensures ExplainedBy(d, t, e)
  {
    hide Within;
  }

  /** What is explained by the events of a signal is explained by the event it was sent for. */
  lemma ExplainedInside(d: Delivery, t: Delivery, e: Event)
    requires ExplainedByAll(d, t, e.onTerm.during) || ExplainedByAll(d, t, e.onProbe.during)
    ensures ExplainedBy(d, t, e)
  {
    WithinIs(e, IsClose);
    WithinIs(e, IsFailure);
    WithinIs(e, IsGrace);
    hide Anywhere, Within;
  }

  lemma {:induction false} FinishExplained(d: Delivery, e: Event, parse: Parser)
    ensures ExplainedBy(d, Finish(d, e, parse), e)
    decreases e, 0, 1
  {
    hide *;
    SameIsExplained(d, e);
    if Probing(d) {
      ProbeExplained(d, e, parse);
    } else {
      FinishSends(d, e, parse);
      SameExplains(d, Finish(d, e, parse), e);
    }
  }

  /** The last look at a group before its delivery is rejected. */
  predicate Probing(d: Delivery) {
    !d.settled && d.pending.Some? && d.childClosed && !Signalling(d) && d.group.Some? && !d.group.value.gone
  }

  lemma FinishSends(d: Delivery, e: Event, parse: Parser)
    requires !Probing(d)
    ensures var t := Finish(d, e, parse);
            t.sent == d.sent && t.childClosed == d.childClosed && t.spawnFailed == d.spawnFailed
  {
    hide HandleAll;
    FinishCases(d, e, parse);
    if Finish(d, e, parse) == d {
    } else {
    }
  }

  lemma SameExplains(d: Delivery, t: Delivery, e: Event)
    requires t.sent == d.sent && t.childClosed == d.childClosed && t.spawnFailed == d.spawnFailed
    ensures ExplainedBy(d, t, e)
  {
    hide Within;
  }

  lemma {:induction false} ProbeExplained(d: Delivery, e: Event, parse: Parser)
    requires Probing(d)
    ensures ExplainedBy(d, Finish(d, e, parse), e)
    decreases e, 0, 0
  {
    hide Finish, Reject, Answered, Within, Anywhere, HandleAll, AfterAnswer;
    var asked := Asked(d, Probe(e.onProbe.seen));
    var heard := HandleAll(asked, e.onProbe.during, parse);
    HandleAllExplained(asked, e.onProbe.during, parse);
    ExplainedInside(asked, heard, e);
    KillSnoc(d.sent, Probe(e.onProbe.seen));
    FinishProbes(d, e, parse);
    AfterAnswerSends(d, heard, e.onProbe.seen);
  }

  lemma AfterAnswerSends(d: Delivery, heard: Delivery, seen: Observation)
    requires d.pending.Some?
    ensures AfterAnswer(d, Answered(heard, seen), seen).sent == heard.sent
    ensures AfterAnswer(d, Answered(heard, seen), seen).childClosed == heard.childClosed
    ensures AfterAnswer(d, Answered(heard, seen), seen).spawnFailed == heard.spawnFailed
  {
    if seen.Gone? {
    } else {
    }
  }

  lemma {:induction false} BeginExplained(d: Delivery, e: Event, parse: Parser)
    ensures ExplainedBy(d, Begin(d, e, parse), e)
    decreases e, 1, 1
  {
    hide HandleAll, Finish, Begin, ExplainedBy;
    if !Starting(d) {
      BeginStays(d, e, parse);
      SameIsExplained(d, e);
    } else if d.mode.PosixGroup? && d.addressable {
      GroupExplained(d, e, parse);
    } else if d.mode.DirectChild? && !d.spawnFailed {
      DirectExplained(d, e, parse);
    } else {
      BeginFinishes(d, e, parse);
      FinishExplained(Begun(d), e, parse);
      FromSame(d, Begun(d), Begin(d, e, parse), e);
    }
  }

  lemma {:induction false} GroupExplained(d: Delivery, e: Event, parse: Parser)
    requires Starting(d) && d.mode.PosixGroup? && d.addressable
    ensures ExplainedBy(d, Begin(d, e, parse), e)
    decreases e, 1, 0
  {
    hide HandleAll, Finish, Begin, ExplainedBy, ExplainedByAll;
    var asked := Asked(Begun(d), Term(e.onTerm.seen));
    var heard := HandleAll(asked, e.onTerm.during, parse);
    var answered := Answered(heard, e.onTerm.seen);
    BeginAsks(d, e, parse);
    TermExplained(d, asked, e);
    HandleAllExplained(asked, e.onTerm.during, parse);
    ExplainedInside(asked, heard, e);
    FinishExplained(answered, e, parse);
    FromSame(heard, answered, Finish(answered, e, parse), e);
    ExplainedChain(d, asked, heard, e);
    ExplainedChain(d, heard, Finish(answered, e, parse), e);
  }

  lemma TermExplained(d: Delivery, t: Delivery, e: Event)
    requires t.sent == d.sent + [Term(e.onTerm.seen)]
    requires t.childClosed == d.childClosed && t.spawnFailed == d.spawnFailed
    ensures ExplainedBy(d, t, e)
  {
    hide Within;
    KillSnoc(d.sent, Term(e.onTerm.seen));
  }

  lemma {:induction false} DirectExplained(d: Delivery, e: Event, parse: Parser)
    requires Starting(d) && d.mode.DirectChild? && !d.spawnFailed
    ensures ExplainedBy(d, Begin(d, e, parse), e)
    decreases e, 1, 0
  {
    hide HandleAll, Finish, Begin, ExplainedBy, ExplainedByAll;
    var killing := Killing(d, e.onTerm.seen);
    var heard := HandleAll(killing, e.onTerm.during, parse);
    BeginKills(d, e, parse);
    TermExplained(d, killing, e);
    HandleAllExplained(killing, e.onTerm.during, parse);
    ExplainedInside(killing, heard, e);
    ExplainedChain(d, killing, heard, e);
    if !heard.settled {
      FinishExplained(Graced(heard), e, parse);
      FromSame(heard, Graced(heard), Finish(Graced(heard), e, parse), e);
      ExplainedChain(d, heard, Finish(Graced(heard), e, parse), e);
    }
  }

  lemma {:induction false} RequestExplained(d: Delivery, why: Refusal, e: Event, parse: Parser)
    ensures ExplainedBy(d, Request(d, why, e, parse), e)
    decreases e, 2
  {
    hide Within, Begin;
    if !d.settled && d.pending.None? {
      BeginExplained(d.(pending := Some(why), requested := d.requested + [why], deadlineArmed := false), e, parse);
    }
  }

  lemma {:induction false} CloseExplained(d: Delivery, e: Event, parse: Parser)
    requires e.kind.Closed?
    ensures ExplainedBy(d, OnClose(d, e.kind.exitZero, e, parse), e)
    decreases e, 3
  {
    var closed := ChildClosed(d);
    hide Finish, Request, Resolve, ChildClosed, ExplainedBy;
    ClosingExplained(d, e);
    if d.settled {
      SameIsExplained(d, e);
    } else {
      ClosedIs(d);
      FinishExplained(closed, e, parse);
      ExplainedChain(d, closed, Finish(closed, e, parse), e);
      RequestExplained(closed, Oversized, e, parse);
      ExplainedChain(d, closed, Request(closed, Oversized, e, parse), e);
      var why := if e.kind.exitZero then Malformed else Crashed;
      RequestExplained(closed, why, e, parse);
      ExplainedChain(d, closed, Request(closed, why, e, parse), e);
    }
  }

  lemma ClosedIs(d: Delivery)
    ensures ChildClosed(d).pending == d.pending && ChildClosed(d).oversized == d.oversized
    ensures ChildClosed(d).stdout == d.stdout && ChildClosed(d).settled == d.settled
  {
  }

  lemma ClosingExplained(d: Delivery, e: Event)
    requires e.kind.Closed?
    ensures ExplainedBy(d, ChildClosed(d), e) && ExplainedBy(d, Resolve(ChildClosed(d)), e)
  {
    WithinIs(e, IsClose);
    hide Within;
  }

  lemma {:induction false} FailureExplained(d: Delivery, e: Event, parse: Parser)
    requires e.kind.Failed?
    ensures ExplainedBy(d, Begin(Request(NoteFailure(d), StartFailed, e, parse), e, parse), e)
    decreases e, 3
  {
    WithinIs(e, IsFailure);
    hide Begin, Request, Anywhere, Within;
    var requested := Request(NoteFailure(d), StartFailed, e, parse);
    RequestExplained(NoteFailure(d), StartFailed, e, parse);
    BeginExplained(requested, e, parse);
  }

  lemma FromSame(d: Delivery, m: Delivery, t: Delivery, e: Event)
    requires ExplainedBy(m, t, e)
    requires m.childClosed == d.childClosed && m.spawnFailed == d.spawnFailed && m.sent == d.sent
    ensures ExplainedBy(d, t, e) && ExplainedBy(d, d, e)
  {
    hide Within;
  }

  lemma {:induction false} HandleExplained(d: Delivery, e: Event, parse: Parser)
    ensures ExplainedBy(d, Handle(d, e, parse), e)
    decreases e, 4
  {
    hide *;
    var t := Handle(d, e, parse);
    HandleIs(d, e, parse);
    SameIsExplained(d, e);
    if t != d {
      match e.kind
      case Spawned =>
        BeginExplained(d.(spawnObserved := true), e, parse);
        FromSame(d, d.(spawnObserved := true), t, e);
      case Failed => FailureExplained(d, e, parse);
      case Closed(_) => CloseExplained(d, e, parse);
      case Data(chunk) => DataExplained(d, e);
      case Broken(why) => RequestExplained(d, why, e, parse);
      case DeadlineFired =>
        RequestExplained(d.(deadlineArmed := false), Timeout, e, parse);
        FromSame(d, d.(deadlineArmed := false), t, e);
      case GraceFired => GraceExplained(d, e, parse);
      case PollFired =>
        FinishExplained(d.(pollArmed := false), e, parse);
        FromSame(d, d.(pollArmed := false), t, e);
    }
  }

  lemma SameIsExplained(d: Delivery, e: Event)
    ensures ExplainedBy(d, d, e)
  {
    hide Within;
  }

  /** An event is handled by its handler, or changes nothing. */
  lemma HandleIs(d: Delivery, e: Event, parse: Parser)
    ensures var t, k := Handle(d, e, parse), e.kind;
            || t == d
            || (k.Spawned? && t == Begin(d.(spawnObserved := true), e, parse))
            || (k.Failed? && t == Begin(Request(NoteFailure(d), StartFailed, e, parse), e, parse))
            || (k.Closed? && t == OnClose(d, k.exitZero, e, parse))
            || (k.Data? && t == OnData(d, k.chunk))
            || (k.Broken? && t == Request(d, k.why, e, parse))
            || (k.DeadlineFired? && t == Request(d.(deadlineArmed := false), Timeout, e, parse))
            || (k.GraceFired? && t == HandleAll(Killed(d), e.onTerm.during, parse))
            || (k.PollFired? && t == Finish(d.(pollArmed := false), e, parse))
  {
    hide Begin, Request, Finish, OnClose, OnData, HandleAll, NoteFailure, Killed;
  }

  lemma {:induction false} GraceExplained(d: Delivery, e: Event, parse: Parser)
    requires e.kind.GraceFired?
    ensures ExplainedBy(d, HandleAll(Killed(d), e.onTerm.during, parse), e)
    decreases e, 3
  {
    WithinIs(e, IsGrace);
    KillSnoc(d.sent, Kill);
    hide HandleAll, Anywhere, Within;
    HandleAllExplained(Killed(d), e.onTerm.during, parse);
    ExplainedInside(Killed(d), HandleAll(Killed(d), e.onTerm.during, parse), e);
  }

  lemma DataExplained(d: Delivery, e: Event)
    requires e.kind.Data?
    ensures ExplainedBy(d, OnData(d, e.kind.chunk), e)
  {
    hide Overflows, Within;
  }

  lemma {:induction false} HandleAllExplained(d: Delivery, events: seq<Event>, parse: Parser)
    ensures ExplainedByAll(d, HandleAll(d, events, parse), events)
    decreases events
  {
    hide Handle, Anywhere, Within;
    if events != [] {
      var next := Handle(d, events[0], parse);
      HandleExplained(d, events[0], parse);
      HandleAllExplained(next, events[1..], parse);
      AnywhereCons(events, IsClose);
      AnywhereCons(events, IsFailure);
      AnywhereCons(events, IsGrace);
    }
  }

  /** A run settles only after the child's close, or after an error in place of its start. */
  lemma SettlesOnlyAfterTheEnd(mode: Mode, addressable: bool, events: seq<Event>, parse: Parser)
    ensures var d := Run(mode, addressable, events, parse);
            d.settled ==>
              || Anywhere(events, IsClose)
              || (Anywhere(events, IsFailure)
                  && forall i :: 0 <= i < FirstDecisive(events) ==> !events[i].kind.Spawned?)
  {
    hide HandleAll, Anywhere, Kept, NeverStuck;
    RunKeeps(mode, addressable, events, parse);
    HandleAllExplained(Start(mode, addressable), events, parse);
    SpawnedNeverFails(mode, addressable, events, parse);
    if Run(mode, addressable, events, parse).settled {
      SettledIsClosed(Run(mode, addressable, events, parse));
    }
  }

  lemma SettledIsClosed(d: Delivery)
    requires Kept(d) && d.settled
    ensures d.childClosed
  {
  }

  /** A child whose spawn was seen first did not fail to start, whatever error comes later. */
  lemma SpawnedNeverFails(mode: Mode, addressable: bool, events: seq<Event>, parse: Parser)
    ensures (exists i :: 0 <= i < FirstDecisive(events) && events[i].kind.Spawned?) ==>
              !Run(mode, addressable, events, parse).spawnFailed
  {
    hide HandleAll, Kept, NeverStuck;
    var k := FirstDecisive(events);
    var d := Run(mode, addressable, events[..k], parse);
    OpenPrefix(mode, addressable, events, parse);
    RunKeeps(mode, addressable, events[..k], parse);
    assert events == events[..k] + events[k..];
    HandleAllConcat(Start(mode, addressable), events[..k], events[k..], parse);
    HandleAllKeeps(d, events[k..], parse);
  }

  /**
   * In every run: TERM is sent once termination has begun and there is a target, and never again; termination
   * begins as soon as a refused delivery has started or failed to; a direct child that was told to stop
   * and is still waited for was killed or has its grace period, never both; only the grace timer kills, at
   * most once, and never a group.
   */
  lemma SignalsAreSent(mode: Mode, addressable: bool, events: seq<Event>, parse: Parser)
    ensures var d := Run(mode, addressable, events, parse);
            var target := if mode.PosixGroup? then addressable else !d.spawnFailed;
            && TermCount(d.sent) == (if d.terminationStarted && target then 1 else 0)
            && (d.pending.Some? && !d.settled && !Signalling(d) && (d.spawnObserved || d.spawnFailed) ==>
                  d.terminationStarted)
            && (d.pending.Some? && !d.settled && d.terminationStarted && mode.DirectChild? && !d.spawnFailed ==>
                  (d.graceArmed <==> KillCount(d.sent) == 0))
            && KillCount(d.sent) <= 1
            && (KillCount(d.sent) > 0 ==> mode.DirectChild? && Anywhere(events, IsGrace))
  {
    hide HandleAll, Anywhere, TermCount, KillCount;
    var d := Run(mode, addressable, events, parse);
    RunKeeps(mode, addressable, events, parse);
    RunKeepsMode(mode, addressable, events, parse);
    HandleAllExplained(Start(mode, addressable), events, parse);
    NoneKilled();
    assert d.mode.DirectChild? ==> d.group.None?;
  }

  lemma NoneKilled()
    ensures KillCount([]) == 0
  {
  }

  /** After any run, the end of a grace period sends the KILL; without one it does nothing. */
  lemma GraceEndsInKill(mode: Mode, addressable: bool, events: seq<Event>, e: Event, parse: Parser)
    requires e.kind.GraceFired?
    ensures var d := Run(mode, addressable, events, parse);
            var t := Run(mode, addressable, events + [e], parse);
            if d.graceArmed then d.sent + [Kill] <= t.sent && !t.graceArmed else t == d
  {
    hide HandleAll, Handle, Kept, NeverStuck;
    var d := Run(mode, addressable, events, parse);
    RunKeeps(mode, addressable, events, parse);
    HandleAllConcat(Start(mode, addressable), events, [e], parse);
    OneEvent(d, e, parse);
    GraceIs(d, e, parse);
    if d.graceArmed {
      KillKeeps(d);
      HandleAllKeeps(Killed(d), e.onTerm.during, parse);
      GraceWasBegun(d);
    }
  }

  lemma GraceIs(d: Delivery, e: Event, parse: Parser)
    requires e.kind.GraceFired?
    ensures Handle(d, e, parse) == if d.graceArmed then HandleAll(Killed(d), e.onTerm.during, parse) else d
  {
    hide HandleAll, Killed;
  }

  lemma GraceWasBegun(d: Delivery)
    requires Kept(d) && d.graceArmed
    ensures d.terminationStarted
  {
  }

  /** In every run the deadline is armed exactly until something is decided. */
  lemma DeadlineRunsUntilDecided(mode: Mode, addressable: bool, events: seq<Event>, parse: Parser)
    ensures Run(mode, addressable, events, parse).deadlineArmed <==> Decided(events, parse).Undecided?
  {
    hide HandleAll, Decided, Kept, NeverStuck;
    var d := Run(mode, addressable, events, parse);
    FirstDecisiveEventDecides(mode, addressable, events, parse);
    RunKeeps(mode, addressable, events, parse);
    DeadlineIsOff(d);
  }

  lemma DeadlineIsOff(d: Delivery)
    requires Kept(d)
    ensures d.settled || d.pending.Some? ==> !d.deadlineArmed
    ensures d.outcomes != [] ==> d.settled
  {
  }

  /** A group that was seen gone is not waited for. */
  lemma GoneIsNotWaitedFor(mode: Mode, addressable: bool, events: seq<Event>, parse: Parser)
    ensures var d := Run(mode, addressable, events, parse);
            Waiting(d) && d.group.Some? ==> !d.group.value.gone
  {
    hide HandleAll;
    RunKeeps(mode, addressable, events, parse);
  }
}
