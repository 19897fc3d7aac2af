/**
 * The pump: Pi's standard output, line by line, into a transcript and a live tee, with short writes
 * and would-block errors retried up to a deadline and a sink that fails for good dropped alone.
 */
module Pump {
  import opened Bytes
  import opened Records

  const WRITE_BOUND := 30

  datatype WriteAnswer = Accepted(count: nat) | WouldBlock(count: nat) | Refused

  datatype FlushAnswer = Flushed | NotYet | Lost

  /** What one retried operation came to: everything done, the bound passed, or the sink broke. */
  datatype Ending = Complete | Expired | Broken

  class Clock {
    var now: int
    ghost var waits: seq<int>    // when each wait began

    constructor ()
      ensures waits == []
    {
      waits := [];
    }

    /** Every wait takes at least one tick. */
    method Tick()
      modifies this
      ensures now > old(now) && waits == old(waits) + [old(now)]
    {
      var late: int := *;
      waits := waits + [now];
      now := now + 1 + Max(late, 0);
    }
  }

  /** A buffered sink: what reached the reader, and what the buffer still holds. */
  class Sink {
    var delivered: ByteString
    var buffer: ByteString
    ghost var broken: bool     // it has raised something that is not worth a retry
    ghost var dropped: bool    // it is never to be used again

    constructor ()
      ensures Content() == [] && buffer == [] && !broken && !dropped
    {
      delivered, buffer, broken, dropped := [], [], false, false;
    }

    function Content(): ByteString
      reads this
    {
      delivered + buffer
    }

    /** Any amount of the buffer may reach the reader at any time. */
    method Spill()
      modifies `delivered, `buffer
      ensures Content() == old(Content())
    {
      var n: int := *;
      var k := Max(0, Min(n, |buffer|));
      assert buffer == buffer[..k] + buffer[k..];
      delivered, buffer := delivered + buffer[..k], buffer[k..];
    }

    /** Takes any prefix; even an error may have taken one, of unreported length. */
    method Write(data: ByteString) returns (a: WriteAnswer, ghost taken: nat)
      requires !dropped
      modifies `delivered, `buffer, `broken
      ensures taken <= |data| && Content() == old(Content()) + data[..taken]
      ensures !a.Refused? ==> a.count == taken
      ensures broken == (old(broken) || a.Refused?)
    {
      var n: int := *;
      var k := Max(0, Min(n, |data|));
      buffer := buffer + data[..k];
      Spill();
      taken := k;
      var blocked: bool := *;
      var refused: bool := *;
      broken := broken || refused;
      a := if refused then Refused else if blocked then WouldBlock(k) else Accepted(k);
    }

    /** Keeps in the buffer whatever it could not deliver. */
    method Flush() returns (a: FlushAnswer)
      requires !dropped
      modifies `delivered, `buffer, `broken
      ensures Content() == old(Content())
      ensures a.Flushed? ==> buffer == []
      ensures broken == (old(broken) || a.Lost?)
    {
      a := *;
      if a == Flushed {
        delivered, buffer := delivered + buffer, [];
      } else {
        Spill();
        a := if a == Lost then Lost else NotYet;
        broken := broken || a.Lost?;
      }
    }

    ghost method Drop()
      modifies this`dropped
      ensures dropped
    {
      dropped := true;
    }
  }

  /** No wait began at the deadline or later, since there were `n`. */
  predicate WaitsBefore(waits: seq<int>, n: nat, deadline: int) {
    n <= |waits| && forall k :: n <= k < |waits| ==> waits[k] < deadline
  }

  /** Write all of `data`, retrying what was not taken, until the deadline. */
  method WriteRetrying(sink: Sink, clock: Clock, data: ByteString, deadline: int) returns (r: Ending, ghost taken: nat)
    requires !sink.dropped && !sink.broken
    modifies sink, clock
    ensures !sink.dropped && clock.now >= old(clock.now)
    ensures r.Broken? <==> sink.broken
    ensures taken <= |data| && sink.Content() == old(sink.Content()) + data[..taken]
    ensures r.Complete? ==> taken == |data|
    ensures r.Expired? ==> clock.now >= deadline && taken < |data|
    ensures WaitsBefore(clock.waits, |old(clock.waits)|, deadline) && old(clock.waits) <= clock.waits
  {
    var remaining := data;
    taken := 0;
    r := Complete;
    while remaining != []
      invariant !sink.dropped && !sink.broken && taken <= |data| && remaining == data[taken..]
      invariant sink.Content() == old(sink.Content()) + data[..taken]
      invariant clock.now >= old(clock.now) && r.Complete?
      invariant WaitsBefore(clock.waits, |old(clock.waits)|, deadline) && old(clock.waits) <= clock.waits
      decreases if remaining == [] then 0 else 1, deadline - clock.now
    {
      ghost var before := taken;
      var a, more := sink.Write(remaining);
      taken := taken + more;
      assert data[..taken] == data[..before] + remaining[..more];
      if a.Refused? {
        return Broken, taken;
      }
      remaining := remaining[a.count..];
      if remaining == [] {
        return Complete, taken;
      }
      if clock.now >= deadline {
        return Expired, taken;
      }
      clock.Tick();
    }
  }

  /** Flush again, never write again, until the buffer is empty or the deadline has passed. */
  method FlushRetrying(sink: Sink, clock: Clock, deadline: int) returns (r: Ending)
    requires !sink.dropped && !sink.broken
    modifies sink, clock
    ensures !sink.dropped && clock.now >= old(clock.now)
    ensures r.Broken? <==> sink.broken
    ensures sink.Content() == old(sink.Content())
    ensures r.Complete? ==> sink.buffer == []
    ensures r.Expired? ==> clock.now >= deadline
    ensures WaitsBefore(clock.waits, |old(clock.waits)|, deadline) && old(clock.waits) <= clock.waits
  {
    while true
      invariant !sink.dropped && !sink.broken && sink.Content() == old(sink.Content()) && clock.now >= old(clock.now)
      invariant WaitsBefore(clock.waits, |old(clock.waits)|, deadline) && old(clock.waits) <= clock.waits
      decreases deadline - clock.now
    {
      var a := sink.Flush();
      if a.Flushed? {
        return Complete;
      }
      if a.Lost? {
        return Broken;
      }
      if clock.now >= deadline {
        return Expired;
      }
      clock.Tick();
    }
  }

  /** How far a sink got: everything, or `line` whole lines and `taken` bytes of the next. */
  datatype Progress = Alive | Failed(line: nat, taken: nat)

  function Written(lines: seq<ByteString>, n: nat, p: Progress): ByteString
    requires n <= |lines| && (p.Failed? ==> p.line < n && p.taken <= |lines[p.line]|)
  {
    if p.Alive? then Flatten(lines[..n]) else Flatten(lines[..p.line]) + lines[p.line][..p.taken]
  }

  /** After `n` lines: a live sink has them all and nothing waiting, a failed one a prefix for good. */
  ghost predicate Holds(sink: Sink, lines: seq<ByteString>, n: nat, p: Progress)
    reads sink
  {
    && n <= |lines|
    && (p.Failed? ==> p.line < n && p.taken <= |lines[p.line]|)
    && sink.Content() == Written(lines, n, p)
    && (sink.dropped <==> p.Failed?)
    && (sink.broken ==> p.Failed?)
    && (p.Alive? ==> sink.buffer == [])
  }

  /** One line to one sink: both steps share one deadline, and a failure drops the sink. */
  method Deliver(sink: Sink, clock: Clock, ghost lines: seq<ByteString>, ghost n: nat, line: ByteString,
                 ghost p: Progress, alive: bool) returns (ok: bool, ghost p': Progress)
    requires n < |lines| && line == lines[n] && Holds(sink, lines, n, p) && (alive <==> p.Alive?)
    modifies sink, clock
    ensures Holds(sink, lines, n + 1, p') && (ok <==> p'.Alive?)
    ensures p.Failed? ==> p' == p && sink.delivered == old(sink.delivered) && sink.buffer == old(sink.buffer)
    ensures p.Failed? ==> sink.broken == old(sink.broken)
    ensures p.Alive? && p'.Failed? ==> p'.line == n
    ensures p.Alive? && p'.Failed? ==> sink.broken || clock.now >= old(clock.now) + 30
    ensures WaitsBefore(clock.waits, |old(clock.waits)|, old(clock.now) + 30) && old(clock.waits) <= clock.waits
    ensures clock.now >= old(clock.now)
  {
    if !alive {
      return false, p;
    }
    var deadline := clock.now + WRITE_BOUND;
    ghost var taken;
    var r;
    r, taken := WriteRetrying(sink, clock, line, deadline);
    if r.Complete? {
      r := FlushRetrying(sink, clock, deadline);
    }
    ok := r.Complete?;
    assert lines[..n + 1] == lines[..n] + [line];
    FlattenSnoc(lines[..n], line);
    if ok {
      p' := Alive;
    } else {
      sink.Drop();
      p' := Failed(n, taken);
    }
  }

  /**
   * Every line to each sink that has not failed. Whatever the other sink does, one that never fails
   * ends with exactly the stream; one that fails holds a prefix and is not touched again.
   */
  method PumpAll(stdout: ByteString, transcript: Sink, forward: Sink, clock: Clock)
    returns (transcriptOk: bool, forwardOk: bool, ghost t: Progress, ghost f: Progress)
    requires transcript != forward
    requires transcript.Content() == [] && !transcript.dropped && !transcript.broken && transcript.buffer == []
    requires forward.Content() == [] && !forward.dropped && !forward.broken && forward.buffer == []
    modifies transcript, forward, clock
    ensures var lines := RecordsOf(stdout);
            Holds(transcript, lines, |lines|, t) && Holds(forward, lines, |lines|, f)
    ensures transcriptOk <==> t.Alive?
    ensures forwardOk <==> f.Alive?
    ensures transcriptOk ==> transcript.delivered == stdout
    ensures forwardOk ==> forward.delivered == stdout
    ensures transcript.Content() <= stdout && forward.Content() <= stdout
    ensures !transcriptOk ==> transcript.broken || clock.now >= old(clock.now) + 30
    ensures !forwardOk ==> forward.broken || clock.now >= old(clock.now) + 30
  {
    var lines := RecordsOf(stdout);
    StartsEmpty(transcript, lines);
    StartsEmpty(forward, lines);
    hide Written, RecordsOf;
    transcriptOk, forwardOk, t, f := true, true, Alive, Alive;
    for n := 0 to |lines|
      invariant Holds(transcript, lines, n, t) && Holds(forward, lines, n, f)
      invariant (transcriptOk <==> t.Alive?) && (forwardOk <==> f.Alive?) && clock.now >= old(clock.now)
      invariant !transcriptOk ==> transcript.broken || clock.now >= old(clock.now) + WRITE_BOUND
      invariant !forwardOk ==> forward.broken || clock.now >= old(clock.now) + WRITE_BOUND
    {
      transcriptOk, t := Deliver(transcript, clock, lines, n, lines[n], t, transcriptOk);
      forwardOk, f := Deliver(forward, clock, lines, n, lines[n], f, forwardOk);
    }
    Pumped(transcript, stdout, t);
    Pumped(forward, stdout, f);
  }

  lemma StartsEmpty(sink: Sink, lines: seq<ByteString>)
    requires sink.Content() == [] && !sink.dropped && !sink.broken && sink.buffer == []
    ensures Holds(sink, lines, 0, Alive)
  {
  }

  lemma Pumped(sink: Sink, stdout: ByteString, p: Progress)
    requires Holds(sink, RecordsOf(stdout), |RecordsOf(stdout)|, p)
    ensures sink.Content() <= stdout
    ensures p.Alive? ==> sink.delivered == stdout
  {
    var lines := RecordsOf(stdout);
    assert lines[..|lines|] == lines;
    RecordsRebuild(stdout);
    WrittenIsPrefix(lines, p);
  }

  lemma WrittenIsPrefix(lines: seq<ByteString>, p: Progress)
    requires p.Failed? ==> p.line < |lines| && p.taken <= |lines[p.line]|
    ensures Written(lines, |lines|, p) <= Flatten(lines)
  {
    assert lines[..|lines|] == lines;
    if p.Failed? {
      var i := p.line;
      assert lines == lines[..i] + [lines[i]] + lines[i + 1..];
      FlattenAppend(lines[..i] + [lines[i]], lines[i + 1..]);
      FlattenSnoc(lines[..i], lines[i]);
      assert lines[i] == lines[i][..p.taken] + lines[i][p.taken..];
    }
  }

  /** How the attempt learns of Pi's run once it has exited. */
  datatype PiResult = PiExited(status: int) | PipeFailed | TranscriptFailed | ForwardFailed(status: int)

  /** The first error in order of weight; only a lost tee still carries Pi's own exit status. */
  function Surfaced(status: int, pipeOk: bool, transcriptOk: bool, forwardOk: bool): (r: PiResult)
    ensures r.PiExited? || r.ForwardFailed? <==> pipeOk && transcriptOk
    ensures r.PiExited? ==> r.status == status && forwardOk
    ensures r.ForwardFailed? ==> r.status == status && !forwardOk
  {
    if !pipeOk then PipeFailed
    else if !transcriptOk then TranscriptFailed
    else if !forwardOk then ForwardFailed(status)
    else PiExited(status)
  }

  /**
   * `stdout` is what could be read of Pi's output, all of it unless `pipeOk` is false. An attempt that
   * is judged by Pi's exit status always has the whole output in its transcript.
   */
  method RunPi(stdout: ByteString, pipeOk: bool, status: int, transcript: Sink, forward: Sink, clock: Clock)
    returns (r: PiResult)
    requires transcript != forward
    requires transcript.Content() == [] && !transcript.dropped && !transcript.broken && transcript.buffer == []
    requires forward.Content() == [] && !forward.dropped && !forward.broken && forward.buffer == []
    modifies transcript, forward, clock
    ensures r.PiExited? || r.ForwardFailed? ==> pipeOk && r.status == status && transcript.delivered == stdout
    ensures r.PiExited? ==> forward.delivered == stdout
    ensures r.ForwardFailed? ==> forward.dropped && forward.Content() <= stdout
    ensures r.PipeFailed? <==> !pipeOk
    ensures r.TranscriptFailed? <==> pipeOk && transcript.dropped
  {
    var transcriptOk, forwardOk, _, _ := PumpAll(stdout, transcript, forward, clock);
    r := Surfaced(status, pipeOk, transcriptOk, forwardOk);
  }
}
