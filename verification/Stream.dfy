/** Streaming the implementer's output in chunks while counting it line by line. */
module Stream {
  import opened Bytes
  import opened Budget
  import opened Lines

  type Parser = ByteString -> Reading

  /** What stops the count: a limit that is named, or an error raised on a line. */
  datatype Halt = Limit(state: State) | Raised

  /** No limit: only an error stops the count. */
  const UNLIMITED := Limits(None, None, None)

  function LiveHalt(limits: Limits, c: Counts): Option<Halt> {
    if LiveCheck(limits, c).Some? then Some(Limit(LiveCheck(limits, c).value)) else None
  }

  /** One line counted, and what that comes to. */
  function FedLine(c: Counts, line: ByteString, limits: Limits, parse: Parser): (Counts, Option<Halt>) {
    match parse(line)
    case Raises => (c, Some(Raised))
    case Read(event) => (Fed(c, event), LiveHalt(limits, Fed(c, event)))
  }

  /** Counting stopped at the first line that crosses a limit or raises: the reference for every counter. */
  function FoldUntil(lines: seq<ByteString>, c: Counts, limits: Limits, parse: Parser): (Counts, Option<Halt>) {
    if lines == [] then (c, None)
    else
      var (next, halt) := FedLine(c, lines[0], limits, parse);
      if halt.Some? then (next, halt) else FoldUntil(lines[1..], next, limits, parse)
  }

  /** A count that no limit stopped is the count without limits. */
  lemma {:induction false} UntrippedFoldIsWhole(lines: seq<ByteString>, c: Counts, limits: Limits, parse: Parser)
    requires var halt := FoldUntil(lines, c, limits, parse).1; halt.Some? ==> halt.value.Raised?
    ensures FoldUntil(lines, c, UNLIMITED, parse) == FoldUntil(lines, c, limits, parse)
  {
    if lines != [] {
      var (next, halt) := FedLine(c, lines[0], limits, parse);
      assert FedLine(c, lines[0], UNLIMITED, parse) == (next, halt);
      if halt.None? {
        UntrippedFoldIsWhole(lines[1..], next, limits, parse);
      }
    }
  }

  /** A trip names the state that `evaluate` gives for the counted spend. */
  ghost predicate IsEvaluated(limits: Limits, after: Counts, halt: Option<Halt>, seconds: real) {
    if halt.Some? && halt.value.Limit? then
      && halt.value.state == Evaluate(limits, after.turns, seconds, after.tokensOut)
      && (halt.value.state == TurnExhausted ==> limits.turnLimit.Some? && after.turns == limits.turnLimit.value + 1)
    else LiveCheck(limits, after) == None
  }

  lemma LineIsEvaluated(c: Counts, line: ByteString, limits: Limits, parse: Parser, seconds: real)
    requires LiveCheck(limits, c) == None
    ensures var (next, halt) := FedLine(c, line, limits, parse); IsEvaluated(limits, next, halt, seconds)
  {
    hide Fed, Evaluate;
    if parse(line).Read? && LiveCheck(limits, Fed(c, parse(line).event)).Some? {
      OneEventTripsOneLimit(limits, c, parse(line).event, seconds);
    }
  }

  lemma {:induction false} TripIsEvaluated(lines: seq<ByteString>, c: Counts, limits: Limits, parse: Parser,
                                           seconds: real)
    requires LiveCheck(limits, c) == None
    ensures var (after, halt) := FoldUntil(lines, c, limits, parse); IsEvaluated(limits, after, halt, seconds)
  {
    hide FedLine, Evaluate, LiveCheck;
    if lines != [] {
      var (next, halt) := FedLine(c, lines[0], limits, parse);
      LineIsEvaluated(c, lines[0], limits, parse, seconds);
      if halt.None? {
        TripIsEvaluated(lines[1..], next, limits, parse, seconds);
      }
    }
  }

  // ---------------------------------------------------------------- the buffered scan

  datatype Scan = Scan(pending: ByteString, counts: Counts, halt: Option<Halt>)

  /** Feed the complete lines of `buffer`, stopping at a halt; the rest stays pending. */
  function Drain(buffer: ByteString, c: Counts, limits: Limits, parse: Parser): Scan
    decreases |buffer|
  {
    var i := FirstNewline(buffer);
    if i == |buffer| then Scan(buffer, c, None)
    else
      var (next, halt) := FedLine(c, buffer[..i], limits, parse);
      if halt.Some? then Scan(buffer[i + 1..], next, halt) else Drain(buffer[i + 1..], next, limits, parse)
  }

  lemma NoDeadlineHalts(limits: Limits, c: Counts, line: ByteString, parse: Parser)
    ensures FedLine(c, line, limits, parse).1 != Some(Limit(DeadlineExhausted))
  {
  }

  /** The scan never names the clock. */
  lemma {:induction false} DrainNamesNoDeadline(buffer: ByteString, c: Counts, limits: Limits, parse: Parser)
    ensures Drain(buffer, c, limits, parse).halt != Some(Limit(DeadlineExhausted))
    decreases |buffer|
  {
    hide FedLine;
    var i := FirstNewline(buffer);
    if i < |buffer| {
      NoDeadlineHalts(limits, c, buffer[..i], parse);
      if FedLine(c, buffer[..i], limits, parse).1.None? {
        DrainNamesNoDeadline(buffer[i + 1..], FedLine(c, buffer[..i], limits, parse).0, limits, parse);
      }
    }
  }

  lemma {:induction false} FirstNewlineAppend(s: ByteString, t: ByteString)
    requires FirstNewline(s) < |s|
    ensures FirstNewline(s + t) == FirstNewline(s)
  {
    if s[0] != NEWLINE {
      FirstNewlineAppend(s[1..], t);
      assert (s + t)[1..] == s[1..] + t;
    }
  }

  /** The first line of a buffer, and what is behind it, when more bytes are appended. */
  lemma FirstLineAppend(s: ByteString, t: ByteString, i: nat)
    requires i == FirstNewline(s) < |s|
    ensures FirstNewline(s + t) == i < |s + t|
    ensures (s + t)[..i] == s[..i] && (s + t)[i + 1..] == s[i + 1..] + t
  {
    FirstNewlineAppend(s, t);
    hide FirstNewline;
    SliceAppend(s, t, i);
  }

  lemma SliceAppend(s: ByteString, t: ByteString, i: nat)
    requires i < |s|
    ensures (s + t)[..i] == s[..i] && (s + t)[i + 1..] == s[i + 1..] + t
  {
  }

  /** One step of the scan. */
  lemma DrainStep(s: ByteString, i: nat, c: Counts, limits: Limits, parse: Parser)
    requires i == FirstNewline(s) < |s|
    ensures var (next, halt) := FedLine(c, s[..i], limits, parse);
            Drain(s, c, limits, parse) ==
            if halt.Some? then Scan(s[i + 1..], next, halt) else Drain(s[i + 1..], next, limits, parse)
  {
    hide FedLine, FirstNewline;
  }

  /** Bytes that arrive later do not change what the scan did with the bytes before them. */
  lemma {:induction false} DrainAppend(s: ByteString, t: ByteString, c: Counts, limits: Limits, parse: Parser)
    ensures var scan := Drain(s, c, limits, parse);
            Drain(s + t, c, limits, parse) ==
            if scan.halt.Some? then scan.(pending := scan.pending + t)
            else Drain(scan.pending + t, scan.counts, limits, parse)
    decreases |s|
  {
    var i := FirstNewline(s);
    if i < |s| {
      hide Drain, FedLine, FirstNewline;
      DrainStep(s, i, c, limits, parse);
      FirstLineAppend(s, t, i);
      DrainStep(s + t, i, c, limits, parse);
      var (next, halt) := FedLine(c, s[..i], limits, parse);
      if halt.None? {
        DrainAppend(s[i + 1..], t, next, limits, parse);
      }
    }
  }

  /** A line ahead of others, if it is not the last without its newline. */
  lemma LinesAhead(s: ByteString, i: nat)
    requires i == FirstNewline(s) < |s|
    ensures LinesOf(s) != [] && LinesOf(s)[0] == s[..i] && LinesOf(s)[1..] == LinesOf(s[i + 1..])
  {
    hide LinesOf, FirstNewline;
    LinesFirst(s, i);
  }

  lemma LinesFirst(s: ByteString, i: nat)
    requires i == FirstNewline(s)
    ensures LinesOf(s) == if i < |s| then [s[..i]] + LinesOf(s[i + 1..]) else if s == [] then [] else [s]
  {
    hide SplitOn, FirstNewline;
    SplitFirst(s, i);
    if i < |s| {
      LastOfMore(s[..i], SplitOn(s[i + 1..], NEWLINE));
    } else {
      assert s[..i] == s;
    }
  }

  lemma LastOfMore(first: ByteString, rest: seq<ByteString>)
    requires rest != []
    ensures var parts := [first] + rest;
            && parts[|parts| - 1] == rest[|rest| - 1]
            && parts[..|parts| - 1] == [first] + rest[..|rest| - 1]
  {
  }

  /** One step of the fold over the lines of a text. */
  lemma FoldStep(s: ByteString, i: nat, c: Counts, limits: Limits, parse: Parser)
    requires i == FirstNewline(s) < |s|
    ensures var (next, halt) := FedLine(c, s[..i], limits, parse);
            FoldUntil(LinesOf(s), c, limits, parse) ==
            if halt.Some? then (next, halt) else FoldUntil(LinesOf(s[i + 1..]), next, limits, parse)
  {
    hide LinesOf, FedLine, FirstNewline;
    LinesAhead(s, i);
  }

  /** A scan that halts has counted exactly the fold of the whole stream, whatever follows. */
  lemma {:induction false} TripIsFinal(s: ByteString, t: ByteString, c: Counts, limits: Limits, parse: Parser)
    requires Drain(s, c, limits, parse).halt.Some?
    ensures var scan := Drain(s, c, limits, parse);
            FoldUntil(LinesOf(s + t), c, limits, parse) == (scan.counts, scan.halt)
    decreases |s|
  {
    var i := FirstNewline(s);
    assert i < |s|;
    hide Drain, FedLine, FirstNewline, FoldUntil, LinesOf;
    DrainStep(s, i, c, limits, parse);
    FirstLineAppend(s, t, i);
    FoldStep(s + t, i, c, limits, parse);
    var (next, halt) := FedLine(c, s[..i], limits, parse);
    if halt.None? {
      TripIsFinal(s[i + 1..], t, next, limits, parse);
    }
  }

  /** What feeding the unterminated tail at the end of the stream gives. */
  function Finish(scan: Scan, limits: Limits, parse: Parser): (Counts, Option<Halt>) {
    if scan.pending == [] then (scan.counts, None) else FedLine(scan.counts, scan.pending, limits, parse)
  }

  /** The fold of a text that is one unterminated line, or nothing. */
  lemma FoldLast(s: ByteString, c: Counts, limits: Limits, parse: Parser)
    requires FirstNewline(s) == |s|
    ensures FoldUntil(LinesOf(s), c, limits, parse) == Finish(Scan(s, c, None), limits, parse)
  {
    hide FedLine, LinesOf, FirstNewline;
    LinesFirst(s, |s|);
    if s != [] {
      assert LinesOf(s)[1..] == [];
    }
  }

  /** A scan that does not halt, finished with its tail, is the fold of all the lines. */
  lemma {:induction false} FinishIsFold(s: ByteString, c: Counts, limits: Limits, parse: Parser)
    requires Drain(s, c, limits, parse).halt.None?
    ensures Finish(Drain(s, c, limits, parse), limits, parse) == FoldUntil(LinesOf(s), c, limits, parse)
    decreases |s|
  {
    var i := FirstNewline(s);
    if i < |s| {
      hide Drain, FedLine, FirstNewline, FoldUntil, LinesOf, Finish;
      DrainStep(s, i, c, limits, parse);
      FoldStep(s, i, c, limits, parse);
      FinishIsFold(s[i + 1..], FedLine(c, s[..i], limits, parse).0, limits, parse);
    } else {
      hide FedLine, LinesOf, FoldUntil;
      FoldLast(s, c, limits, parse);
    }
  }

  // ---------------------------------------------------------------- the live loop

  /** Where every byte read is kept. */
  class Spool {
    var data: ByteString

    constructor ()
      ensures data == []
    {
      data := [];
    }

    method Write(chunk: ByteString)
      modifies this
      ensures data == old(data) + chunk
    {
      data := data + chunk;
    }
  }

  /** The captured pipe: the chunks the child will have written, in the sizes reads will see them. */
  class Pipe {
    var unread: seq<ByteString>

    constructor (chunks: seq<ByteString>)
      ensures unread == chunks
    {
      unread := chunks;
    }

    /** `read1`: one chunk, or nothing at end of file. */
    method Read() returns (chunk: ByteString)
      modifies this
      ensures if old(unread) == [] then chunk == [] && unread == []
              else chunk == old(unread)[0] && unread == old(unread)[1..]
    {
      if unread == [] {
        return [];
      }
      chunk := unread[0];
      unread := unread[1..];
    }
  }

  /** Feed one line, and look at both limits. */
  method FeedLine(counter: TurnCounter, line: ByteString, limits: Limits, parse: Parser) returns (halt: Option<Halt>)
    modifies counter
    ensures (counter.Snapshot(), halt) == FedLine(old(counter.Snapshot()), line, limits, parse)
  {
    var raised := counter.Feed(line, parse);
    if raised {
      return Some(Raised);
    }
    if limits.turnLimit.Some? && counter.turns > limits.turnLimit.value {
      return Some(Limit(TurnExhausted));
    }
    if limits.tokenLimit.Some? && counter.tokensOut > limits.tokenLimit.value {
      return Some(Limit(TokenExhausted));
    }
    return None;
  }

  /** The chunk is in the spool before any of its lines is looked at. */
  method ConsumeChunk(chunk: ByteString, spool: Spool, pending0: ByteString, counter: TurnCounter, limits: Limits,
                      parse: Parser)
    returns (pending: ByteString, halt: Option<Halt>)
    modifies spool, counter
    ensures spool.data == old(spool.data) + chunk
    ensures Scan(pending, counter.Snapshot(), halt)
            == Drain(pending0 + chunk, old(counter.Snapshot()), limits, parse)
  {
    hide FedLine, FirstNewline, Drain;
    spool.Write(chunk);
    pending, halt := pending0 + chunk, None;
    var newline := FirstNewline(pending);
    while newline < |pending|
      invariant newline == FirstNewline(pending)
      invariant spool.data == old(spool.data) + chunk && halt == None
      invariant Drain(pending, counter.Snapshot(), limits, parse)
                == Drain(pending0 + chunk, old(counter.Snapshot()), limits, parse)
      decreases |pending|
    {
      DrainStep(pending, newline, counter.Snapshot(), limits, parse);
      var line := pending[..newline];
      pending := pending[newline + 1..];
      halt := FeedLine(counter, line, limits, parse);
      if halt.Some? {
        return;
      }
      newline := FirstNewline(pending);
    }
    DrainNothing(pending, counter.Snapshot(), limits, parse);
  }

  lemma DrainNothing(s: ByteString, c: Counts, limits: Limits, parse: Parser)
    requires FirstNewline(s) == |s|
    ensures Drain(s, c, limits, parse) == Scan(s, c, None)
  {
  }

  /** A declared deadline beyond the time-out moves the time-out, so that the deadline can fire. */
  function CommandDeadline(limits: Limits, timeout: real): (deadline: real)
    ensures deadline >= timeout
    ensures limits.deadlineSeconds.Some? ==> deadline >= limits.deadlineSeconds.value
    ensures deadline == timeout || limits.deadlineSeconds == Some(deadline)
  {
    if limits.deadlineSeconds.Some? && limits.deadlineSeconds.value > timeout then limits.deadlineSeconds.value
    else timeout
  }

  /** One pass of the loop: the clock, whether the child has exited, whether the pipe is readable. */
  datatype Tick = Tick(elapsed: real, exited: bool, readable: bool)

  /** Neither the declared deadline nor the command's own has passed. */
  predicate BeforeClocks(limits: Limits, timeout: real, tick: Tick) {
    && (limits.deadlineSeconds.Some? ==> tick.elapsed <= limits.deadlineSeconds.value)
    && (tick.elapsed < timeout || (limits.deadlineSeconds.Some? && tick.elapsed < limits.deadlineSeconds.value))
  }

  /**
   * The last pass: past its deadline a child that still runs is stopped for it, and one that has exited
   * is read to the end; past the command's deadline it times out.
   */
  predicate LastPass(limits: Limits, timeout: real, tick: Tick, outcome: StreamOutcome, seconds: real, drained: bool) {
    if limits.deadlineSeconds.Some? && tick.elapsed > limits.deadlineSeconds.value then
      if tick.exited then outcome.halt != DEADLINE && (outcome.halt == None ==> drained)
      else outcome == StreamOutcome(DEADLINE, false) && seconds == tick.elapsed
    else BeforeClocks(limits, timeout, tick) || (outcome == StreamOutcome(None, true) && seconds == tick.elapsed)
  }

  /** What ended the stream: a halt, the time-out, or the end of the file. */
  datatype StreamOutcome = StreamOutcome(halt: Option<Halt>, timedOut: bool)

  const DEADLINE := Some(Limit(DeadlineExhausted))

  /** The run was ended by the clock rather than by the child or by a counted limit. */
  predicate EndedByClock(outcome: StreamOutcome) {
    outcome.timedOut || outcome.halt == DEADLINE
  }

  /** The bytes of the chunks that were read: the difference between two states of the pipe. */
  function BytesRead(all: seq<ByteString>, unread: seq<ByteString>): ByteString
    requires |unread| <= |all|
  {
    Flatten(all[..|all| - |unread|])
  }

  predicate Suffix(unread: seq<ByteString>, all: seq<ByteString>) {
    |unread| <= |all| && all[|all| - |unread|..] == unread
  }

  /** Reading one more chunk adds exactly its bytes. */
  lemma ReadOneMore(all: seq<ByteString>, unread: seq<ByteString>)
    requires Suffix(unread, all) && unread != []
    ensures Suffix(unread[1..], all)
    ensures BytesRead(all, unread[1..]) == BytesRead(all, unread) + unread[0]
  {
    var n := |all| - |unread|;
    assert all[..n + 1] == all[..n] + [unread[0]] by {
      assert all[n..][0] == all[n];
    }
    FlattenSnoc(all[..n], unread[0]);
    assert all[n + 1..] == all[n..][1..];
  }

  /** The live scan is in step with the bytes read so far. */
  ghost predicate InStep(all: seq<ByteString>, unread: seq<ByteString>, spool: ByteString, scan: Scan, limits: Limits,
                         parse: Parser)
  {
    && Suffix(unread, all)
    && spool == BytesRead(all, unread)
    && scan == Drain(spool, ZERO, limits, parse)
  }

  lemma StepInStep(all: seq<ByteString>, unread: seq<ByteString>, spool: ByteString, scan: Scan, limits: Limits,
                   parse: Parser)
    requires InStep(all, unread, spool, scan, limits, parse) && scan.halt == None && unread != []
    ensures InStep(all, unread[1..], spool + unread[0], Drain(scan.pending + unread[0], scan.counts, limits, parse),
                   limits, parse)
  {
    ReadOneMore(all, unread);
    DrainAppend(spool, unread[0], ZERO, limits, parse);
  }

  /** What the stream loop promises about what it counted. */
  ghost predicate Streamed(all: seq<ByteString>, unread: seq<ByteString>, spool: ByteString, counts: Counts,
                           outcome: StreamOutcome, limits: Limits, parse: Parser)
  {
    && Suffix(unread, all) && spool == BytesRead(all, unread)
    && var scan := Drain(spool, ZERO, limits, parse);
       if outcome.halt == DEADLINE
       then !outcome.timedOut && scan.halt == None && counts == scan.counts
       else if outcome.timedOut
       then && outcome.halt == None && scan.halt == None
            && (counts == scan.counts || (counts, None) == Finish(scan, limits, parse))
       else if scan.halt.Some? then counts == scan.counts && outcome.halt == scan.halt
       else (counts, outcome.halt) == Finish(scan, limits, parse)
  }

  /** Read one chunk and count it; nothing is read at the end of the file. */
  method ReadAndConsume(pipe: Pipe, spool: Spool, pending0: ByteString, counter: TurnCounter, limits: Limits,
                        parse: Parser, ghost all: seq<ByteString>)
    returns (pending: ByteString, halt: Option<Halt>, eof: bool)
    requires [] !in pipe.unread
    requires InStep(all, pipe.unread, spool.data, Scan(pending0, counter.Snapshot(), None), limits, parse)
    modifies pipe, spool, counter
    ensures InStep(all, pipe.unread, spool.data, Scan(pending, counter.Snapshot(), halt), limits, parse)
    ensures [] !in pipe.unread && eof == (old(pipe.unread) == [])
    ensures eof ==> halt == None && pipe.unread == []
    ensures !eof ==> |pipe.unread| < |old(pipe.unread)|
  {
    if pipe.unread != [] {
      StepInStep(all, pipe.unread, spool.data, Scan(pending0, counter.Snapshot(), None), limits, parse);
    }
    var chunk := pipe.Read();
    eof := chunk == [];
    pending, halt := pending0, None;
    if !eof {
      pending, halt := ConsumeChunk(chunk, spool, pending, counter, limits, parse);
    }
  }

  /**
   * The loop of the budget-enforced run. `ticks` is what each pass observes; past its end the pipe
   * stays readable and no clock fires, so the end of the file is reached. `endSeconds` is the clock
   * when the loop is left.
   */
  method StreamImplementer(pipe: Pipe, spool: Spool, counter: TurnCounter, limits: Limits, timeout: real,
                           ticks: seq<Tick>, endSeconds: real, waitTimesOut: bool, parse: Parser)
    returns (outcome: StreamOutcome, secondsUsed: real, ghost passes: nat)
    requires spool.data == [] && counter.Snapshot() == ZERO && [] !in pipe.unread
    modifies pipe, spool, counter
    ensures Streamed(old(pipe.unread), pipe.unread, spool.data, counter.Snapshot(), outcome, limits, parse)
    ensures outcome.halt == DEADLINE ==> OverDeadline(limits, secondsUsed)
    ensures outcome.timedOut ==> waitTimesOut || secondsUsed >= CommandDeadline(limits, timeout)
    ensures passes <= |ticks| && forall i :: 0 <= i < passes - 1 ==> BeforeClocks(limits, timeout, ticks[i])
    ensures passes > 0 ==>
      LastPass(limits, timeout, ticks[passes - 1], outcome, secondsUsed, pipe.unread == [])
  {
    ghost var all := pipe.unread;
    assert all[..0] == [];
    var pending, ended;
    outcome, secondsUsed, pending, ended, passes :=
      StreamLoop(pipe, spool, counter, limits, timeout, ticks, endSeconds, parse);
    if !ended {
      return;
    }
    DrainNamesNoDeadline(spool.data, ZERO, limits, parse);
    if pending != [] {
      NoDeadlineHalts(limits, counter.Snapshot(), pending, parse);
      var halt := FeedLine(counter, pending, limits, parse);
      if halt.Some? {
        return StreamOutcome(halt, false), endSeconds, passes;
      }
    }
    return StreamOutcome(None, waitTimesOut), endSeconds, passes;
  }

  /** The `while True` loop; `ended` when it was left by a break rather than a return. */
  method StreamLoop(pipe: Pipe, spool: Spool, counter: TurnCounter, limits: Limits, timeout: real,
                    ticks: seq<Tick>, endSeconds: real, parse: Parser)
    returns (outcome: StreamOutcome, seconds: real, pending: ByteString, ended: bool, ghost passes: nat)
    requires spool.data == [] && counter.Snapshot() == ZERO && [] !in pipe.unread
    requires InStep(pipe.unread, pipe.unread, spool.data, Scan([], ZERO, None), limits, parse)
    modifies pipe, spool, counter
    ensures ended ==> InStep(old(pipe.unread), pipe.unread, spool.data, Scan(pending, counter.Snapshot(), None),
                             limits, parse)
    ensures !ended ==>
      && Streamed(old(pipe.unread), pipe.unread, spool.data, counter.Snapshot(), outcome, limits, parse)
      && (outcome.halt == DEADLINE ==> OverDeadline(limits, seconds))
      && (outcome.timedOut ==> seconds >= CommandDeadline(limits, timeout))
    ensures ended ==> outcome == StreamOutcome(None, false)
    ensures passes <= |ticks| && forall i :: 0 <= i < passes - 1 ==> BeforeClocks(limits, timeout, ticks[i])
    ensures passes > 0 ==> LastPass(limits, timeout, ticks[passes - 1], outcome, seconds, pipe.unread == [])
  {
    ghost var all := pipe.unread;
    var commandDeadline := CommandDeadline(limits, timeout);
    outcome, seconds, pending, ended := StreamOutcome(None, false), endSeconds, [], true;
    var t := 0;
    while true
      invariant t <= |ticks| && [] !in pipe.unread && outcome == StreamOutcome(None, false)
      invariant forall i :: 0 <= i < t ==> BeforeClocks(limits, timeout, ticks[i])
      invariant InStep(all, pipe.unread, spool.data, Scan(pending, counter.Snapshot(), None), limits, parse)
      decreases |pipe.unread| + |ticks| - t, |ticks| - t
    {
      var tick := if t < |ticks| then ticks[t] else Tick(0.0, false, true);
      var scripted := t < |ticks|;
      t := if scripted then t + 1 else t;
      passes := t;
      var halt, eof;
      if scripted && OverDeadline(limits, tick.elapsed) {
        if !tick.exited {
          return StreamOutcome(DEADLINE, false), tick.elapsed, pending, false, t;
        }
        pending, halt := DrainRemaining(pipe, spool, pending, counter, limits, parse, all);
        if halt.Some? {
          DrainNamesNoDeadline(spool.data, ZERO, limits, parse);
          return StreamOutcome(halt, false), endSeconds, pending, false, t;
        }
        return outcome, endSeconds, pending, true, t;
      }
      if scripted && tick.elapsed >= commandDeadline {
        return StreamOutcome(None, true), tick.elapsed, pending, false, t;
      }
      if !tick.readable {
        if tick.exited {
          return outcome, endSeconds, pending, true, t;
        }
        continue;
      }
      pending, halt, eof := ReadAndConsume(pipe, spool, pending, counter, limits, parse, all);
      if eof {
        return outcome, endSeconds, pending, true, t;
      }
      if halt.Some? {
        DrainNamesNoDeadline(spool.data, ZERO, limits, parse);
        return StreamOutcome(halt, false), endSeconds, pending, false, t;
      }
    }
  }

  /** The child has exited: read its pipe to the end, still stopping at a trip. */
  method DrainRemaining(pipe: Pipe, spool: Spool, pending0: ByteString, counter: TurnCounter, limits: Limits,
                        parse: Parser, ghost all: seq<ByteString>)
    returns (pending: ByteString, halt: Option<Halt>)
    requires [] !in pipe.unread
    requires InStep(all, pipe.unread, spool.data, Scan(pending0, counter.Snapshot(), None), limits, parse)
    modifies pipe, spool, counter
    ensures InStep(all, pipe.unread, spool.data, Scan(pending, counter.Snapshot(), halt), limits, parse)
    ensures [] !in pipe.unread && (halt == None ==> pipe.unread == [])
  {
    pending, halt := pending0, None;
    var eof := false;
    while !eof && halt == None
      invariant [] !in pipe.unread && (eof ==> halt == None && pipe.unread == [])
      invariant InStep(all, pipe.unread, spool.data, Scan(pending, counter.Snapshot(), halt), limits, parse)
      decreases |pipe.unread|, !eof
    {
      pending, halt, eof := ReadAndConsume(pipe, spool, pending, counter, limits, parse, all);
    }
  }

  /** Read a finished spool back through the same counter. */
  method CountSpool(spool: Spool, parse: Parser) returns (counter: TurnCounter, raised: bool)
    ensures fresh(counter)
    ensures (counter.Snapshot(), if raised then Some(Raised) else None)
            == FoldUntil(LinesOf(spool.data), ZERO, UNLIMITED, parse)
  {
    hide FedLine, LinesOf;
    counter := new TurnCounter();
    raised := false;
    var lines := LinesOf(spool.data);
    for n := 0 to |lines|
      invariant fresh(counter) && !raised
      invariant FoldUntil(lines[n..], counter.Snapshot(), UNLIMITED, parse)
                == FoldUntil(lines, ZERO, UNLIMITED, parse)
    {
      assert lines[n..][0] == lines[n] && lines[n..][1..] == lines[n + 1..];
      UnlimitedHalts(counter.Snapshot(), lines[n], parse);
      raised := counter.Feed(lines[n], parse);
      if raised {
        return;
      }
    }
  }

  lemma UnlimitedHalts(c: Counts, line: ByteString, parse: Parser)
    ensures FedLine(c, line, UNLIMITED, parse) ==
            if parse(line).Raises? then (c, Some(Raised)) else (Fed(c, parse(line).event), None)
  {
  }

  /**
   * For any split into chunks, a run not ended by the clock has counted exactly the fold of the
   * bytes it read, stopped at the first line that crosses a limit or raises; a limit that is named is
   * `evaluate` of the counted spend, a turn trip is at one over it; and a counter that no limit stopped
   * equals the count of the spool.
   */
  lemma LiveCountIsFold(all: seq<ByteString>, unread: seq<ByteString>, spool: ByteString, counts: Counts,
                        outcome: StreamOutcome, limits: Limits, parse: Parser, seconds: real)
    requires Streamed(all, unread, spool, counts, outcome, limits, parse) && !EndedByClock(outcome)
    ensures (counts, outcome.halt) == FoldUntil(LinesOf(spool), ZERO, limits, parse)
    ensures IsEvaluated(limits, counts, outcome.halt, seconds)
    ensures outcome.halt == None || outcome.halt == Some(Raised) ==>
              (counts, outcome.halt) == FoldUntil(LinesOf(spool), ZERO, UNLIMITED, parse)
  {
    hide FoldUntil, LinesOf, Drain, FedLine, IsEvaluated, BytesRead;
    if Drain(spool, ZERO, limits, parse).halt.Some? {
      TripIsFinal(spool, [], ZERO, limits, parse);
      assert spool + [] == spool;
    } else {
      FinishIsFold(spool, ZERO, limits, parse);
    }
    TripIsEvaluated(LinesOf(spool), ZERO, limits, parse, seconds);
    if outcome.halt == None || outcome.halt == Some(Raised) {
      UntrippedFoldIsWhole(LinesOf(spool), ZERO, limits, parse);
    }
  }

  /** When a complete line trips, or everything was read, the same holds of the whole stream. */
  lemma LiveCountIsFoldOfWholeStream(all: seq<ByteString>, unread: seq<ByteString>, spool: ByteString, counts: Counts,
                                     outcome: StreamOutcome, limits: Limits, parse: Parser)
    requires Streamed(all, unread, spool, counts, outcome, limits, parse) && !EndedByClock(outcome)
    requires unread == [] || Drain(spool, ZERO, limits, parse).halt.Some?
    ensures (counts, outcome.halt) == FoldUntil(LinesOf(Flatten(all)), ZERO, limits, parse)
  {
    var n := |all| - |unread|;
    assert all == all[..n] + all[n..];
    FlattenAppend(all[..n], all[n..]);
    if unread == [] {
      assert Flatten(all[n..]) == [] && Flatten(all) == spool;
      LiveCountIsFold(all, unread, spool, counts, outcome, limits, parse, 0.0);
    } else {
      TripIsFinal(spool, Flatten(all[n..]), ZERO, limits, parse);
    }
  }

  /** At a deadline the named state is also `evaluate` of what had been counted. */
  lemma DeadlineIsEvaluated(all: seq<ByteString>, unread: seq<ByteString>, spool: ByteString, counts: Counts,
                            outcome: StreamOutcome, limits: Limits, parse: Parser, seconds: real)
    requires Streamed(all, unread, spool, counts, outcome, limits, parse)
    requires outcome.halt == DEADLINE && OverDeadline(limits, seconds)
    ensures Evaluate(limits, counts.turns, seconds, counts.tokensOut) == DeadlineExhausted
  {
    DrainStaysWithin(spool, ZERO, limits, parse);
  }

  lemma {:induction false} DrainStaysWithin(s: ByteString, c: Counts, limits: Limits, parse: Parser)
    requires LiveCheck(limits, c) == None && Drain(s, c, limits, parse).halt == None
    ensures LiveCheck(limits, Drain(s, c, limits, parse).counts) == None
    decreases |s|
  {
    var i := FirstNewline(s);
    if i < |s| {
      hide FirstNewline, Drain, FedLine, LiveCheck;
      DrainStep(s, i, c, limits, parse);
      LineIsEvaluated(c, s[..i], limits, parse, 0.0);
      DrainStaysWithin(s[i + 1..], FedLine(c, s[..i], limits, parse).0, limits, parse);
    }
  }

  /** A time-out and an exhausted budget exclude each other. */
  lemma EndsOneWay(all: seq<ByteString>, unread: seq<ByteString>, spool: ByteString, counts: Counts,
                   outcome: StreamOutcome, limits: Limits, parse: Parser)
    requires Streamed(all, unread, spool, counts, outcome, limits, parse)
    ensures !(outcome.timedOut && outcome.halt.Some?)
  {
    hide Drain, Finish, BytesRead;
  }

  /**
   * A line that raises ends the stream: the spool holds every chunk read, the last one whole, and the
   * counter the fold of the lines before that line.
   */
  lemma RaisedHoldsWhatWasRead(all: seq<ByteString>, unread: seq<ByteString>, spool: ByteString, counts: Counts,
                               outcome: StreamOutcome, limits: Limits, parse: Parser)
    returns (k: nat)
    requires Streamed(all, unread, spool, counts, outcome, limits, parse) && outcome.halt == Some(Raised)
    ensures Suffix(unread, all) && spool == BytesRead(all, unread)
    ensures var lines := LinesOf(spool);
            && k < |lines| && parse(lines[k]).Raises?
            && (counts, None) == FoldUntil(lines[..k], ZERO, UNLIMITED, parse)
  {
    hide FoldUntil, LinesOf, Drain, FedLine, BytesRead, IsEvaluated, Finish;
    RaisesOnce(all, unread, spool, counts, outcome, limits, parse);
    LiveCountIsFold(all, unread, spool, counts, outcome, limits, parse, 0.0);
    k := RaisedAt(LinesOf(spool), ZERO, parse);
  }

  lemma RaisesOnce(all: seq<ByteString>, unread: seq<ByteString>, spool: ByteString, counts: Counts,
                   outcome: StreamOutcome, limits: Limits, parse: Parser)
    requires Streamed(all, unread, spool, counts, outcome, limits, parse) && outcome.halt == Some(Raised)
    ensures !EndedByClock(outcome)
  {
    hide Drain, Finish, BytesRead;
  }

  lemma {:induction false} RaisedAt(lines: seq<ByteString>, c: Counts, parse: Parser) returns (k: nat)
    requires FoldUntil(lines, c, UNLIMITED, parse).1 == Some(Raised)
    ensures k < |lines| && parse(lines[k]).Raises?
    ensures FoldUntil(lines[..k], c, UNLIMITED, parse) == (FoldUntil(lines, c, UNLIMITED, parse).0, None)
  {
    UnlimitedHalts(c, lines[0], parse);
    if parse(lines[0]).Raises? {
      k := 0;
    } else {
      hide FedLine;
      var next := Fed(c, parse(lines[0]).event);
      k := RaisedAt(lines[1..], next, parse);
      k := k + 1;
      assert lines[..k][0] == lines[0] && lines[..k][1..] == lines[1..][..k - 1];
    }
  }
}
