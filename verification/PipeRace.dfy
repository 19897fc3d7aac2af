/**
 * Two threads, one pipe, one lock: the pump forwards Pi's output lines and the drain relays Pi's
 * diagnostics. Every interleaving of their steps is a run; short writes and retries are steps too.
 */
module PipeRace {
  import opened Bytes
  import Lines
  import opened Records

  /** The most the drain hands to a single write. */
  const PIPE_BUF := 4096

  datatype Thread = Pump | Drain

  /** `done` whole records; of the next, `accepted` bytes left the thread and `pushed` are in the pipe. */
  datatype Worker = Worker(records: seq<ByteString>, done: nat, accepted: nat, pushed: nat, stopped: bool) {
    predicate InRange() {
      done <= |records| && pushed <= accepted && (accepted > 0 || stopped ==> done < |records|)
      && (done < |records| ==> accepted <= |records[done]|)
    }

    function Current(): ByteString
      requires done < |records|
    {
      records[done]
    }

    /** Everything of this thread that the pipe was given to completion, a torn record last. */
    function Sent(): seq<ByteString>
      requires InRange()
    {
      records[..done] + (if stopped then [Current()[..pushed]] else [])
    }
  }

  /** `written` is the history of what was put into the pipe under one lock hold each. */
  datatype State = State(
    pipe: ByteString, lock: Option<Thread>, pump: Worker, drain: Worker, written: seq<ByteString>)
  {
    function Of(t: Thread): Worker {
      if t.Pump? then pump else drain
    }

    function With(t: Thread, w: Worker): State {
      if t.Pump? then this.(pump := w) else this.(drain := w)
    }

    /** What the lock holder has put into the pipe of its current record. */
    function Partial(): ByteString
      requires lock.Some? ==> Of(lock.value).InRange() && Of(lock.value).done < |Of(lock.value).records|
    {
      if lock.None? then [] else Of(lock.value).Current()[..Of(lock.value).pushed]
    }
  }

  datatype Step =
    | Acquire(t: Thread)
    | Write(t: Thread, n: nat)     // the writer takes the next `n` bytes of the record
    | Flush(t: Thread, n: nat)     // `n` buffered bytes reach the pipe, in one write or by spilling
    | Release(t: Thread)           // only with the record written and the buffer flushed
    | Stop(t: Thread)              // the sink failed for good: this thread writes no more

  function Start(stdout: ByteString, stderr: ByteString): State {
    State([], None, Worker(RecordsOf(stdout), 0, 0, 0, false), Worker(RecordsOf(stderr), 0, 0, 0, false), [])
  }

  predicate Enabled(s: State, e: Step) {
    var w := s.Of(e.t);
    && w.InRange()
    && match e
       case Acquire(_) => s.lock.None? && !w.stopped && w.done < |w.records|
       case Write(t, n) =>
         && s.lock == Some(t) && w.done < |w.records| && w.accepted + n <= |w.Current()|
         && (t.Drain? ==> n <= PIPE_BUF && w.accepted == w.pushed)
       case Flush(t, n) => s.lock == Some(t) && w.done < |w.records| && w.pushed + n <= w.accepted
       case Release(t) => s.lock == Some(t) && w.done < |w.records| && w.pushed == |w.Current()|
       case Stop(t) => s.lock == Some(t) && w.done < |w.records|
  }

  function Next(s: State, e: Step): State
    requires Enabled(s, e)
  {
    var w := s.Of(e.t);
    match e
    case Acquire(t) => s.(lock := Some(t))
    case Write(t, n) => s.With(t, w.(accepted := w.accepted + n))
    case Flush(t, n) =>
      s.With(t, w.(pushed := w.pushed + n)).(pipe := s.pipe + w.Current()[w.pushed..w.pushed + n])
    case Release(t) =>
      s.With(t, w.(done := w.done + 1, accepted := 0, pushed := 0)).(lock := None, written := s.written + [w.Current()])
    case Stop(t) =>
      s.With(t, w.(stopped := true)).(lock := None, written := s.written + [w.Current()[..w.pushed]])
  }

  /** A run: every step enabled in the state it is taken in. */
  predicate Runs(s: State, steps: seq<Step>, end: State)
    decreases |steps|
  {
    if steps == [] then end == s
    else Enabled(s, steps[0]) && Runs(Next(s, steps[0]), steps[1..], end)
  }

  /** `all` holds the elements of `a` and of `b`, each in its own order, and nothing else. */
  predicate Interleaves<T(==)>(all: seq<T>, a: seq<T>, b: seq<T>)
    decreases |all|
  {
    if all == [] then a == [] && b == []
    else
      var n := |all| - 1;
      || (a != [] && a[|a| - 1] == all[n] && Interleaves(all[..n], a[..|a| - 1], b))
      || (b != [] && b[|b| - 1] == all[n] && Interleaves(all[..n], a, b[..|b| - 1]))
  }

  lemma InterleavesSnoc<T>(all: seq<T>, a: seq<T>, b: seq<T>, x: T)
    requires Interleaves(all, a, b)
    ensures Interleaves(all + [x], a + [x], b) && Interleaves(all + [x], a, b + [x])
  {
    assert (all + [x])[..|all|] == all && (a + [x])[..|a|] == a && (b + [x])[..|b|] == b;
  }

  // ---------------------------------------------------------------- every reachable state

  ghost predicate Idle(w: Worker) {
    w.stopped || w.accepted == 0
  }

  ghost predicate Inv(s: State) {
    && s.pump.InRange() && s.drain.InRange()
    && (s.lock != Some(Pump) ==> Idle(s.pump))
    && (s.lock != Some(Drain) ==> Idle(s.drain))
    && (s.lock.Some? ==> !s.Of(s.lock.value).stopped && s.Of(s.lock.value).done < |s.Of(s.lock.value).records|)
    && Interleaves(s.written, s.pump.Sent(), s.drain.Sent())
    && s.pipe == Flatten(s.written) + s.Partial()
  }

  /** A lock hold ends: what it sent joins its thread's row and the history alike. */
  lemma Finished(s: State, t: Thread, w: Worker, bytes: ByteString)
    requires Inv(s) && s.lock == Some(t) && s.Partial() == bytes && w.InRange() && Idle(w)
    requires w.Sent() == s.Of(t).Sent() + [bytes]
    ensures Inv(s.With(t, w).(lock := None, written := s.written + [bytes]))
  {
    InterleavesSnoc(s.written, s.pump.Sent(), s.drain.Sent(), bytes);
    FlattenSnoc(s.written, bytes);
    hide Interleaves, Flatten;
  }

  lemma MoveKeeps(s: State, e: Step)
    requires Inv(s) && Enabled(s, e) && (e.Acquire? || e.Write?)
    ensures Inv(Next(s, e))
  {
    hide Interleaves, Flatten;
  }

  lemma FlushKeeps(s: State, t: Thread, n: nat)
    requires Inv(s) && Enabled(s, Flush(t, n))
    ensures Inv(Next(s, Flush(t, n)))
  {
    hide Interleaves, Flatten;
    var w := s.Of(t);
    OnePiece(Flatten(s.written), w.Current(), w.pushed, w.pushed + n);
  }

  lemma OnePiece(pipe: ByteString, record: ByteString, j: nat, k: nat)
    requires j <= k <= |record|
    ensures pipe + record[..j] + record[j..k] == pipe + record[..k]
  {
  }

  lemma StepKeeps(s: State, e: Step)
    requires Inv(s) && Enabled(s, e)
    ensures Inv(Next(s, e))
    ensures Next(s, e).pump.records == s.pump.records && Next(s, e).drain.records == s.drain.records
  {
    hide Interleaves, Flatten, Inv;
    var w := s.Of(e.t);
    match e
    case Acquire(_) => MoveKeeps(s, e);
    case Write(_, _) => MoveKeeps(s, e);
    case Flush(t, n) => FlushKeeps(s, t, n);
    case Release(t) =>
      var done := w.(done := w.done + 1, accepted := 0, pushed := 0);
      assert w.Current()[..w.pushed] == w.Current();
      assert !w.stopped by { HolderRuns(s, t); }
      assert done.Sent() == w.Sent() + [w.Current()];
      Finished(s, t, done, w.Current());
    case Stop(t) =>
      var stopped := w.(stopped := true);
      assert !w.stopped by { HolderRuns(s, t); }
      assert stopped.Sent() == w.Sent() + [w.Current()[..w.pushed]];
      Finished(s, t, stopped, w.Current()[..w.pushed]);
  }

  lemma HolderRuns(s: State, t: Thread)
    requires Inv(s) && s.lock == Some(t)
    ensures !s.Of(t).stopped
  {
  }

  lemma {:induction false} RunKeeps(s: State, steps: seq<Step>, end: State)
    requires Inv(s) && Runs(s, steps, end)
    ensures Inv(end)
    ensures end.pump.records == s.pump.records && end.drain.records == s.drain.records
    decreases |steps|
  {
    hide Inv, Enabled, Next;
    if steps != [] {
      StepKeeps(s, steps[0]);
      RunKeeps(Next(s, steps[0]), steps[1..], end);
    }
  }

  /**
   * In every run, whatever the order of steps, short writes and failures: the pipe is an interleaving
   * of the two threads' records, each contiguous and in its thread's own order, followed by the part
   * of one record whose thread holds the lock. A record is torn only as the last one of its thread,
   * and only if that thread stopped.
   */
  lemma PipeInterleavesRecords(stdout: ByteString, stderr: ByteString, steps: seq<Step>, end: State)
    requires Runs(Start(stdout, stderr), steps, end)
    ensures end.pump.records == RecordsOf(stdout) && end.drain.records == RecordsOf(stderr)
    ensures end.pump.InRange() && end.drain.InRange()
    ensures Interleaves(end.written, end.pump.Sent(), end.drain.Sent())
    ensures end.lock.Some? ==> end.Of(end.lock.value).done < |end.Of(end.lock.value).records|
    ensures end.pipe == Flatten(end.written) + end.Partial()
  {
    hide Runs;
    RunKeeps(Start(stdout, stderr), steps, end);
  }

  lemma {:induction false} InterleavedFrom<T>(all: seq<T>, a: seq<T>, b: seq<T>)
    requires Interleaves(all, a, b)
    ensures |all| == |a| + |b| && multiset(all) == multiset(a) + multiset(b)
    decreases |all|
  {
    if all != [] {
      var n := |all| - 1;
      CountLast(all);
      if a != [] && a[|a| - 1] == all[n] && Interleaves(all[..n], a[..|a| - 1], b) {
        hide Interleaves;
        InterleavedFrom(all[..n], a[..|a| - 1], b);
        CountLast(a);
      } else {
        InterleavedFrom(all[..n], a, b[..|b| - 1]);
        hide Interleaves;
        CountLast(b);
      }
    }
  }

  lemma CountLast<T>(s: seq<T>)
    requires s != []
    ensures multiset(s) == multiset(s[..|s| - 1]) + multiset{s[|s| - 1]}
  {
    assert s == s[..|s| - 1] + [s[|s| - 1]];
  }

  lemma ComesFrom<T>(all: seq<T>, a: seq<T>, b: seq<T>)
    requires Interleaves(all, a, b)
    ensures forall x :: x in all <==> x in a || x in b
  {
    InterleavedFrom(all, a, b);
    hide Interleaves;
    assert forall x :: x in all <==> x in multiset(all);
    assert forall x :: x in a <==> x in multiset(a);
    assert forall x :: x in b <==> x in multiset(b);
  }

  /**
   * With no sink failed and no lock held, the reader of the pipe gets back exactly the records that
   * were written, if and only if none but the last written is unterminated: only an unterminated end
   * of one stream can run into a line of the other.
   */
  lemma ReaderSeesWholeLines(stdout: ByteString, stderr: ByteString, steps: seq<Step>, end: State)
    requires Runs(Start(stdout, stderr), steps, end)
    requires end.lock.None? && !end.pump.stopped && !end.drain.stopped
    ensures RecordsOf(end.pipe) == end.written <==> AllButLastTerminated(end.written)
    ensures end.pump.done == |end.pump.records| && end.drain.done == |end.drain.records| ==>
              multiset(end.written) == multiset(RecordsOf(stdout)) + multiset(RecordsOf(stderr))
  {
    PipeInterleavesRecords(stdout, stderr, steps, end);
    hide *;
    SentWhole(end.pump, stdout);
    SentWhole(end.drain, stderr);
    InterleavedFrom(end.written, end.pump.Sent(), end.drain.Sent());
    ComesFrom(end.written, end.pump.Sent(), end.drain.Sent());
    assert forall r :: r in end.written ==> IsRecord(r);
    NoPartial(end);
    ReadBackIffTerminated(end.written);
  }

  lemma SentWhole(w: Worker, stream: ByteString)
    requires w.InRange() && !w.stopped && w.records == RecordsOf(stream)
    ensures forall r :: r in w.Sent() ==> IsRecord(r)
    ensures w.done == |w.records| ==> w.Sent() == RecordsOf(stream)
  {
    hide RecordsOf, IsRecord;
    assert w.Sent() == w.records[..w.done];
    forall r | r in w.Sent()
      ensures IsRecord(r)
    {
      assert r in w.records;
    }
  }

  lemma NoPartial(s: State)
    requires s.lock.None?
    ensures Flatten(s.written) + s.Partial() == Flatten(s.written)
  {
  }

  // ---------------------------------------------------------------- which streams are always read back

  /** The stream ends in the middle of a line. */
  predicate LooseEnd(stream: ByteString) {
    stream != [] && stream[|stream| - 1] != NEWLINE
  }

  lemma {:induction false} LooseEndIsLastRecord(stream: ByteString)
    requires stream != []
    ensures var records := RecordsOf(stream);
            records != [] && (LooseEnd(stream) <==> !Terminated(records[|records| - 1]))
    decreases |stream|
  {
    var i := Lines.FirstNewline(stream);
    RecordsStep(stream, i);
    hide Lines.FirstNewline, RecordsOf, LooseEnd, Terminated;
    if i < |stream| {
      var rest := stream[i + 1..];
      if rest != [] {
        LooseEndIsLastRecord(rest);
        SameEnd(stream, i + 1);
        SameLast(stream[..i + 1], RecordsOf(rest));
      } else {
        RecordsOfNothing();
        assert stream[..i + 1] == stream;
      }
    }
  }

  lemma SameEnd(stream: ByteString, n: nat)
    requires n < |stream|
    ensures LooseEnd(stream) <==> LooseEnd(stream[n..])
  {
  }

  lemma SameLast(first: ByteString, rest: seq<ByteString>)
    requires rest != []
    ensures var all := [first] + rest; all[|all| - 1] == rest[|rest| - 1]
  {
  }

  lemma RecordsStep(s: ByteString, i: nat)
    requires s != [] && i == Lines.FirstNewline(s)
    ensures i < |s| ==> s[i] == NEWLINE && RecordsOf(s) == [s[..i + 1]] + RecordsOf(s[i + 1..])
    ensures i == |s| ==> NEWLINE !in s && RecordsOf(s) == [s]
  {
    hide Lines.FirstNewline;
  }

  lemma RecordsOfNothing()
    ensures RecordsOf([]) == []
  {
  }

  /** Whatever the steps, a run in which nothing failed is read back as it was written. */
  ghost predicate AlwaysReadBack(stdout: ByteString, stderr: ByteString) {
    forall steps, end :: Runs(Start(stdout, stderr), steps, end) && Undisturbed(end) ==>
      RecordsOf(end.pipe) == end.written
  }

  predicate Undisturbed(end: State) {
    end.lock.None? && !end.pump.stopped && !end.drain.stopped
  }

  /** One stream ends in the middle of a line while there is something on the other. */
  predicate CanMerge(stdout: ByteString, stderr: ByteString) {
    (LooseEnd(stdout) && stderr != []) || (LooseEnd(stderr) && stdout != [])
  }

  /** The reader always gets back the lines written exactly when neither stream's loose end can be run into. */
  lemma AlwaysReadBackIffCannotMerge(stdout: ByteString, stderr: ByteString)
    ensures AlwaysReadBack(stdout, stderr) <==> !CanMerge(stdout, stderr)
  {
    hide Runs, RecordsOf, AllButLastTerminated;
    if CanMerge(stdout, stderr) {
      var steps, end := MergingRun(stdout, stderr, if LooseEnd(stdout) && stderr != [] then Pump else Drain);
      ReaderSeesWholeLines(stdout, stderr, steps, end);
      assert !AlwaysReadBack(stdout, stderr);
    } else {
      forall steps, end | Runs(Start(stdout, stderr), steps, end) && Undisturbed(end)
        ensures RecordsOf(end.pipe) == end.written
      {
        NothingMerges(stdout, stderr, steps, end);
        ReaderSeesWholeLines(stdout, stderr, steps, end);
      }
    }
  }

  lemma NothingMerges(stdout: ByteString, stderr: ByteString, steps: seq<Step>, end: State)
    requires Runs(Start(stdout, stderr), steps, end) && Undisturbed(end) && !CanMerge(stdout, stderr)
    ensures AllButLastTerminated(end.written)
  {
    hide Runs, RecordsOf, Interleaves;
    PipeInterleavesRecords(stdout, stderr, steps, end);
    var a, b := end.pump.Sent(), end.drain.Sent();
    SentIsPrefix(end.pump, stdout);
    SentIsPrefix(end.drain, stderr);
    if LooseEnd(stdout) {
      InterleavesAlone(end.written, a, b);
    } else if LooseEnd(stderr) {
      InterleavesAlone(end.written, a, b);
    } else {
      ComesFrom(end.written, a, b);
      assert forall i :: 0 <= i < |end.written| ==> end.written[i] in a || end.written[i] in b;
    }
  }

  /** What a thread has sent of its stream: terminated records, save perhaps a last one. */
  lemma SentIsPrefix(w: Worker, stream: ByteString)
    requires w.InRange() && !w.stopped && w.records == RecordsOf(stream)
    ensures AllButLastTerminated(w.Sent())
    ensures stream == [] ==> w.Sent() == []
    ensures !LooseEnd(stream) ==> forall r :: r in w.Sent() ==> Terminated(r)
  {
    RecordsAreTerminated(stream);
    if stream != [] {
      LooseEndIsLastRecord(stream);
    }
    hide RecordsOf;
    assert w.Sent() == w.records[..w.done];
  }

  lemma {:induction false} InterleavesAlone<T>(all: seq<T>, a: seq<T>, b: seq<T>)
    requires Interleaves(all, a, b) && (a == [] || b == [])
    ensures all == a + b
    decreases |all|
  {
    if all != [] {
      var n := |all| - 1;
      assert all == all[..n] + [all[n]];
      if b == [] {
        InterleavesAlone(all[..n], a[..|a| - 1], b);
        assert a == a[..|a| - 1] + [all[n]];
      } else {
        InterleavesAlone(all[..n], a, b[..|b| - 1]);
        assert b == b[..|b| - 1] + [all[n]];
      }
    }
  }

  // ---------------------------------------------------------------- runs that write whole records

  function Other(t: Thread): Thread {
    if t.Pump? then Drain else Pump
  }

  /** Between two records: the thread may take the lock for its next one. */
  predicate Ready(s: State, t: Thread) {
    var w := s.Of(t);
    s.lock.None? && w.InRange() && !w.stopped && w.accepted == 0
  }

  predicate Writing(s: State, t: Thread) {
    var w := s.Of(t);
    s.lock == Some(t) && w.InRange() && !w.stopped && w.done < |w.records| && w.accepted == w.pushed
  }

  /** The rest of the record is in the pipe. */
  function Pushed(s: State, t: Thread): State
    requires Writing(s, t)
  {
    var w := s.Of(t);
    s.With(t, w.(accepted := |w.Current()|, pushed := |w.Current()|)).(pipe := s.pipe + w.Current()[w.pushed..])
  }

  /** The record is written and the lock is free. */
  function Recorded(s: State, t: Thread): State
    requires Ready(s, t) && s.Of(t).done < |s.Of(t).records|
  {
    var w := s.Of(t);
    s.With(t, w.(done := w.done + 1)).(pipe := s.pipe + w.Current(), written := s.written + [w.Current()])
  }

  /** Piece by piece, each at most what one write may carry. */
  lemma {:induction false} PiecesRun(s: State, t: Thread) returns (steps: seq<Step>)
    requires Writing(s, t)
    ensures Runs(s, steps, Pushed(s, t))
    decreases |s.Of(t).Current()| - s.Of(t).pushed
  {
    var w := s.Of(t);
    var left := |w.Current()| - w.pushed;
    if left == 0 {
      assert w.Current()[w.pushed..] == [];
      steps := [];
    } else {
      var n := Min(PIPE_BUF, left);
      var a := Next(s, Write(t, n));
      var b := Next(a, Flush(t, n));
      PieceMoves(s, t, n);
      var rest := PiecesRun(b, t);
      steps := [Write(t, n)] + ([Flush(t, n)] + rest);
      RunsCons(a, Flush(t, n), rest, Pushed(s, t));
      RunsCons(s, Write(t, n), [Flush(t, n)] + rest, Pushed(s, t));
    }
  }

  lemma PieceMoves(s: State, t: Thread, n: nat)
    requires Writing(s, t) && 0 < n <= PIPE_BUF && s.Of(t).pushed + n <= |s.Of(t).Current()|
    ensures Enabled(s, Write(t, n)) && Enabled(Next(s, Write(t, n)), Flush(t, n))
    ensures var b := Next(Next(s, Write(t, n)), Flush(t, n));
            Writing(b, t) && b.Of(t) == s.Of(t).(accepted := s.Of(t).accepted + n, pushed := s.Of(t).pushed + n)
            && Pushed(b, t) == Pushed(s, t)
  {
    var w := s.Of(t);
    TwoPieces(s.pipe, w.Current(), w.pushed, w.pushed + n);
    PieceTaken(s, t, n);
    hide Enabled, Next;
  }

  /** One write and the flush of the same bytes. */
  lemma PieceTaken(s: State, t: Thread, n: nat)
    requires Writing(s, t) && 0 < n <= PIPE_BUF && s.Of(t).pushed + n <= |s.Of(t).Current()|
    ensures Enabled(s, Write(t, n)) && Enabled(Next(s, Write(t, n)), Flush(t, n))
    ensures var w, k := s.Of(t), s.Of(t).pushed + n;
            Next(Next(s, Write(t, n)), Flush(t, n))
            == s.With(t, w.(accepted := k, pushed := k)).(pipe := s.pipe + w.Current()[w.pushed..k])
  {
    var w := s.Of(t);
    if t.Pump? {
      assert Next(s, Write(t, n)) == s.(pump := w.(accepted := w.pushed + n));
    } else {
      assert Next(s, Write(t, n)) == s.(drain := w.(accepted := w.pushed + n));
    }
  }

  lemma TwoPieces(pipe: ByteString, record: ByteString, j: nat, k: nat)
    requires j <= k <= |record|
    ensures pipe + record[j..k] + record[k..] == pipe + record[j..]
  {
  }

  lemma RunsCons(s: State, e: Step, rest: seq<Step>, end: State)
    requires Enabled(s, e) && Runs(Next(s, e), rest, end)
    ensures Runs(s, [e] + rest, end)
  {
    assert ([e] + rest)[1..] == rest;
  }

  /** One record under one lock hold. */
  lemma RecordRun(s: State, t: Thread) returns (steps: seq<Step>)
    requires Ready(s, t) && s.Of(t).done < |s.Of(t).records|
    ensures Runs(s, steps, Recorded(s, t))
  {
    hide Runs;
    var held := Next(s, Acquire(t));
    var pieces := PiecesRun(held, t);
    var full := Pushed(held, t);
    var w := s.Of(t);
    assert w.Current()[0..] == w.Current();
    assert Enabled(full, Release(t)) && Next(full, Release(t)) == Recorded(s, t);
    RunsNil(Recorded(s, t));
    RunsCons(full, Release(t), [], Recorded(s, t));
    RunsAppend(held, pieces, full, [Release(t)] + [], Recorded(s, t));
    RunsCons(s, Acquire(t), pieces + ([Release(t)] + []), Recorded(s, t));
    steps := [Acquire(t)] + (pieces + ([Release(t)] + []));
  }

  lemma RunsNil(s: State)
    ensures Runs(s, [], s)
  {
  }

  /** All the records of one thread that are left. */
  lemma {:induction false} RecordsRun(s: State, t: Thread) returns (steps: seq<Step>, end: State)
    requires Ready(s, t)
    ensures Runs(s, steps, end) && Ready(end, t) && end.Of(Other(t)) == s.Of(Other(t))
    ensures end.written == s.written + s.Of(t).records[s.Of(t).done..]
    decreases |s.Of(t).records| - s.Of(t).done
  {
    hide Runs;
    var w := s.Of(t);
    if w.done == |w.records| {
      RunsNil(s);
      steps, end := [], s;
    } else {
      var one := RecordRun(s, t);
      var rest;
      rest, end := RecordsRun(Recorded(s, t), t);
      RunsAppend(s, one, Recorded(s, t), rest, end);
      steps := one + rest;
      assert w.records[w.done..] == [w.Current()] + w.records[w.done + 1..];
    }
  }

  /** All of one stream, loose end and all, and then the first record of the other. */
  lemma MergingRun(stdout: ByteString, stderr: ByteString, t: Thread) returns (steps: seq<Step>, end: State)
    requires LooseEnd(if t.Pump? then stdout else stderr) && (if t.Pump? then stderr else stdout) != []
    ensures Runs(Start(stdout, stderr), steps, end) && Undisturbed(end)
    ensures !AllButLastTerminated(end.written)
  {
    var s := Start(stdout, stderr);
    LooseEndIsLastRecord(if t.Pump? then stdout else stderr);
    LooseEndIsLastRecord(if t.Pump? then stderr else stdout);
    hide Runs, RecordsOf;
    var first, middle := RecordsRun(s, t);
    var last := RecordRun(middle, Other(t));
    end := Recorded(middle, Other(t));
    RunsAppend(s, first, middle, last, end);
    steps := first + last;
    var n := |s.Of(t).records| - 1;
    assert end.written[n] == s.Of(t).records[n];
  }

  /** Pi's last line without a newline, and then a diagnostic: the reader gets one line, not two. */
  lemma UnterminatedLineMerges()
    ensures CanMerge([65], [66, NEWLINE])
    ensures exists steps, end ::
              && Runs(Start([65], [66, NEWLINE]), steps, end)
              && |end.written| == 2 && RecordsOf(end.pipe) == [[65, 66, NEWLINE]]
  {
    OneRecord([65]);
    OneRecord([66, NEWLINE]);
    OneRecord([65, 66, NEWLINE]);
    hide RecordsOf, Runs, IsRecord, Start;
    var steps, end := TwoRecordsRun([65], [66, NEWLINE]);
    assert [65] + [66, NEWLINE] == [65, 66, NEWLINE];
  }

  /** A stream of one record each: the pump writes its own first. */
  lemma TwoRecordsRun(a: ByteString, b: ByteString) returns (steps: seq<Step>, end: State)
    requires RecordsOf(a) == [a] && RecordsOf(b) == [b]
    ensures Runs(Start(a, b), steps, end) && end.written == [a] + [b] && end.pipe == a + b
  {
    hide RecordsOf, Runs;
    var s0 := Start(a, b);
    var s1 := Recorded(s0, Pump);
    end := Recorded(s1, Drain);
    var one := RecordRun(s0, Pump);
    var two := RecordRun(s1, Drain);
    RunsAppend(s0, one, s1, two, end);
    steps := one + two;
  }

  lemma {:induction false} RunsAppend(s: State, first: seq<Step>, middle: State, rest: seq<Step>, end: State)
    requires Runs(s, first, middle) && Runs(middle, rest, end)
    ensures Runs(s, first + rest, end)
    decreases |first|
  {
    hide Enabled, Next;
    if first == [] {
      assert first + rest == rest;
    } else {
      RunsAppend(Next(s, first[0]), first[1..], middle, rest, end);
      assert (first + rest)[1..] == first[1..] + rest;
    }
  }
}
