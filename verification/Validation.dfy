/**
 * The session's self-test and the delivery's final validation: the run lists they build, the
 * verdicts they reach over the same outcomes, and the time they may take.
 */
module Validation {
  import opened Bytes

  /** One run of the declared command; an unavailable one could not be started. */
  datatype RunOutcome = Exited(code: int) | TimedOut | Unavailable

  datatype SelfTest = Ran(exitCode: int, timedOut: bool) | NotRun

  datatype Verdict = Passed | Failed(code: int) | Overran | CouldNotRun

  /** The first run that did not complete, or the number of runs. */
  function StopAt(outcomes: seq<RunOutcome>): (n: nat)
    ensures n <= |outcomes| && forall i :: 0 <= i < n ==> outcomes[i].Exited?
    ensures n < |outcomes| ==> !outcomes[n].Exited?
  {
    if outcomes == [] || !outcomes[0].Exited? then 0 else 1 + StopAt(outcomes[1..])
  }

  /** `code` is the first non-zero exit among the first `n` runs. */
  predicate FirstFailure(outcomes: seq<RunOutcome>, n: nat, code: int)
    requires n <= |outcomes|
  {
    code != 0 && exists k :: 0 <= k < n && outcomes[k] == Exited(code) && AllPass(outcomes, k)
  }

  predicate AllPass(outcomes: seq<RunOutcome>, n: nat)
    requires n <= |outcomes|
  {
    forall i :: 0 <= i < n ==> outcomes[i] == Exited(0)
  }

  /** What the runs that completed add up to. */
  predicate Recorded(outcomes: seq<RunOutcome>, n: nat, exit: Option<int>)
    requires n <= |outcomes|
  {
    match exit
    case None => AllPass(outcomes, n)
    case Some(code) => FirstFailure(outcomes, n, code)
  }

  function Note(exit: Option<int>, code: int): Option<int> {
    if exit.None? && code != 0 then Some(code) else exit
  }

  lemma NoteRecords(outcomes: seq<RunOutcome>, n: nat, exit: Option<int>)
    requires n < |outcomes| && outcomes[n].Exited? && Recorded(outcomes, n, exit)
    ensures Recorded(outcomes, n + 1, Note(exit, outcomes[n].code))
  {
    if exit.Some? {
      var k :| 0 <= k < n && outcomes[k] == Exited(exit.value) && AllPass(outcomes, k);
      assert FirstFailure(outcomes, n + 1, exit.value);
    } else if outcomes[n].code != 0 {
      assert outcomes[n] == Exited(outcomes[n].code) && AllPass(outcomes, n);
    }
  }

  lemma RecordedOnce(outcomes: seq<RunOutcome>, n: nat, a: Option<int>, b: Option<int>)
    requires n <= |outcomes| && Recorded(outcomes, n, a) && Recorded(outcomes, n, b)
    ensures a == b
  {
  }

  lemma StopAtIs(outcomes: seq<RunOutcome>, n: nat)
    requires n <= |outcomes| && (forall i :: 0 <= i < n ==> outcomes[i].Exited?)
    requires n < |outcomes| ==> !outcomes[n].Exited?
    ensures StopAt(outcomes) == n
  {
  }

  /** What the self-test reports: a timed-out run counts as exit -1. */
  predicate SelfTestReports(outcomes: seq<RunOutcome>, r: SelfTest) {
    var n := StopAt(outcomes);
    if n < |outcomes| && outcomes[n].Unavailable? then r == NotRun
    else r.Ran? && r.timedOut == (n < |outcomes|) && Recorded(outcomes, n, ExitOf(outcomes, r))
  }

  /** The exit a report stands for: none, if nothing failed and it shows what it shows then. */
  function ExitOf(outcomes: seq<RunOutcome>, r: SelfTest): Option<int>
    requires r.Ran?
  {
    if r.exitCode == (if r.timedOut then -1 else 0) && AllPass(outcomes, StopAt(outcomes)) then None
    else Some(r.exitCode)
  }

  /** What final validation concludes: an earlier failure outlives a later timeout. */
  predicate ValidationConcludes(outcomes: seq<RunOutcome>, v: Verdict) {
    var n := StopAt(outcomes);
    if n < |outcomes| && outcomes[n].Unavailable? then v == CouldNotRun
    else if AllPass(outcomes, n) then v == (if n < |outcomes| then Overran else Passed)
    else v.Failed? && FirstFailure(outcomes, n, v.code)
  }

  /** The outcomes leave no choice of report and none of verdict. */
  lemma ResultsAreFixed(outcomes: seq<RunOutcome>, r: SelfTest, r': SelfTest, v: Verdict, v': Verdict)
    ensures SelfTestReports(outcomes, r) && SelfTestReports(outcomes, r') ==> r == r'
    ensures ValidationConcludes(outcomes, v) && ValidationConcludes(outcomes, v') ==> v == v'
  {
    hide Recorded, FirstFailure;
    var n := StopAt(outcomes);
    if SelfTestReports(outcomes, r) && SelfTestReports(outcomes, r') && r.Ran? && r'.Ran? {
      RecordedOnce(outcomes, n, ExitOf(outcomes, r), ExitOf(outcomes, r'));
    }
    if v.Failed? && v'.Failed? && FirstFailure(outcomes, n, v.code) && FirstFailure(outcomes, n, v'.code) {
      FailureIsRecorded(outcomes, n, v.code);
      FailureIsRecorded(outcomes, n, v'.code);
      RecordedOnce(outcomes, n, Some(v.code), Some(v'.code));
    }
  }

  lemma FailureIsRecorded(outcomes: seq<RunOutcome>, n: nat, code: int)
    requires n <= |outcomes| && FirstFailure(outcomes, n, code)
    ensures Recorded(outcomes, n, Some(code))
  {
  }

  /** A list that ended at `n` is reported by what its completed runs recorded. */
  lemma Reports(outcomes: seq<RunOutcome>, n: nat, exit: Option<int>, timedOut: bool)
    requires n <= |outcomes| && (forall i :: 0 <= i < n ==> outcomes[i].Exited?) && Recorded(outcomes, n, exit)
    requires if n == |outcomes| then !timedOut else timedOut && outcomes[n].TimedOut?
    ensures SelfTestReports(outcomes,
              Ran(if exit.Some? then exit.value else if timedOut then -1 else 0, timedOut))
  {
    StopAtIs(outcomes, n);
  }

  lemma Concludes(outcomes: seq<RunOutcome>, n: nat, exit: Option<int>)
    requires n <= |outcomes| && (forall i :: 0 <= i < n ==> outcomes[i].Exited?) && Recorded(outcomes, n, exit)
    requires n < |outcomes| ==> outcomes[n].TimedOut?
    ensures ValidationConcludes(outcomes,
              if exit.Some? then Failed(exit.value) else if n < |outcomes| then Overran else Passed)
  {
    StopAtIs(outcomes, n);
  }

  lemma CannotRun(outcomes: seq<RunOutcome>, n: nat)
    requires n < |outcomes| && (forall i :: 0 <= i < n ==> outcomes[i].Exited?) && outcomes[n].Unavailable?
    ensures SelfTestReports(outcomes, NotRun) && ValidationConcludes(outcomes, CouldNotRun)
  {
    StopAtIs(outcomes, n);
  }

  /** `seconds[i]` is how long run `i` takes; each is held to what is left, but at least a tenth. */
  method RunSelfTest(outcomes: seq<RunOutcome>, timeout: real, seconds: seq<real>) returns (r: SelfTest, elapsed: real)
    requires |seconds| == |outcomes| && WithinAllotments(timeout, seconds)
    ensures SelfTestReports(outcomes, r)
    ensures outcomes != [] ==> elapsed <= TimeBound(timeout, |outcomes|)
  {
    NothingElapsed(seconds);
    assert Recorded(outcomes, 0, None);
    hide *;
    var exit: Option<int> := None;
    elapsed := 0.0;
    for n := 0 to |outcomes|
      invariant forall i :: 0 <= i < n ==> outcomes[i].Exited?
      invariant Recorded(outcomes, n, exit)
      invariant elapsed == Elapsed(seconds[..n]) && (n > 0 ==> elapsed <= TimeBound(timeout, n))
    {
      Tick(timeout, seconds, n);
      elapsed := elapsed + seconds[n];
      match outcomes[n] {
        case Unavailable =>
          CannotRun(outcomes, n);
          BoundGrows(timeout, n + 1, |outcomes|);
          return NotRun, elapsed;
        case TimedOut =>
          Reports(outcomes, n, exit, true);
          BoundGrows(timeout, n + 1, |outcomes|);
          return Ran(if exit.Some? then exit.value else -1, true), elapsed;
        case Exited(code) =>
          NoteRecords(outcomes, n, exit);
          exit := Note(exit, code);
      }
    }
    Reports(outcomes, |outcomes|, exit, false);
    r := Ran(if exit.Some? then exit.value else 0, false);
  }

  method ValidateCandidate(outcomes: seq<RunOutcome>, timeout: real, seconds: seq<real>)
    returns (v: Verdict, elapsed: real)
    requires |seconds| == |outcomes| && WithinAllotments(timeout, seconds)
    ensures ValidationConcludes(outcomes, v)
    ensures outcomes != [] ==> elapsed <= TimeBound(timeout, |outcomes|)
  {
    NothingElapsed(seconds);
    assert Recorded(outcomes, 0, None);
    hide *;
    var exit: Option<int> := None;
    elapsed := 0.0;
    for n := 0 to |outcomes|
      invariant forall i :: 0 <= i < n ==> outcomes[i].Exited?
      invariant Recorded(outcomes, n, exit)
      invariant elapsed == Elapsed(seconds[..n]) && (n > 0 ==> elapsed <= TimeBound(timeout, n))
    {
      Tick(timeout, seconds, n);
      elapsed := elapsed + seconds[n];
      match outcomes[n] {
        case Unavailable =>
          CannotRun(outcomes, n);
          BoundGrows(timeout, n + 1, |outcomes|);
          return CouldNotRun, elapsed;
        case TimedOut =>
          Concludes(outcomes, n, exit);
          BoundGrows(timeout, n + 1, |outcomes|);
          return if exit.Some? then Failed(exit.value) else Overran, elapsed;
        case Exited(code) =>
          NoteRecords(outcomes, n, exit);
          exit := Note(exit, code);
      }
    }
    Concludes(outcomes, |outcomes|, exit);
    v := if exit.Some? then Failed(exit.value) else Passed;
  }

  /**
   * Over the same outcomes, validation passes exactly when the self-test reports exit 0 in time, and
   * fails with a code exactly when that is the first non-zero exit of a completed run and no run
   * was unavailable before the list stopped, even if a later one timed out.
   */
  lemma VerdictsAgree(outcomes: seq<RunOutcome>, r: SelfTest, v: Verdict)
    requires SelfTestReports(outcomes, r) && ValidationConcludes(outcomes, v)
    ensures v == Passed <==> r == Ran(0, false)
    ensures v == Passed <==> AllPass(outcomes, |outcomes|)
    ensures var n := StopAt(outcomes);
            forall code :: v == Failed(code) <==>
              FirstFailure(outcomes, n, code) && (n == |outcomes| || outcomes[n].TimedOut?)
    ensures v.Failed? ==> r == Ran(v.code, r.timedOut)
    ensures r.Ran? && !r.timedOut && r.exitCode != 0 ==> v == Failed(r.exitCode)
    ensures r == NotRun <==> v == CouldNotRun
  {
    var n := StopAt(outcomes);
    assert n == |outcomes| ==> AllPass(outcomes, n) == AllPass(outcomes, |outcomes|);
  }

  /** A run that cannot be started hides a failure that was already known. */
  lemma UnavailableHidesFailure()
    ensures var outcomes := [Exited(1), Unavailable];
            FirstFailure(outcomes, 1, 1) && forall v :: ValidationConcludes(outcomes, v) <==> v == CouldNotRun
  {
    var outcomes := [Exited(1), Unavailable];
    StopAtIs(outcomes, 1);
    assert outcomes[0] == Exited(1) && AllPass(outcomes, 0);
  }

  // ---------------------------------------------------------------- one shared deadline

  function Elapsed(seconds: seq<real>): real {
    if seconds == [] then 0.0 else Elapsed(seconds[..|seconds| - 1]) + seconds[|seconds| - 1]
  }

  /** What is left of the time-out, but never less than a tenth of a second. */
  function Allotment(timeout: real, elapsed: real): (most: real)
    ensures most >= timeout - elapsed && most >= 0.1
    ensures most == timeout - elapsed || most == 0.1
  {
    if timeout - elapsed > 0.1 then timeout - elapsed else 0.1
  }

  predicate WithinAllotments(timeout: real, seconds: seq<real>) {
    forall i :: 0 <= i < |seconds| ==> 0.0 <= seconds[i] <= Allotment(timeout, Elapsed(seconds[..i]))
  }

  /** One more run, held to its allotment. */
  lemma OneMoreRun(outcomes: seq<RunOutcome>, outcome: RunOutcome, timeout: real, seconds: seq<real>, took: real)
    requires StopAt(outcomes) == |outcomes| && WithinAllotments(timeout, seconds)
    requires 0.0 <= took <= Allotment(timeout, Elapsed(seconds))
    ensures StopAt(outcomes + [outcome]) == |outcomes| + (if outcome.Exited? then 1 else 0)
    ensures WithinAllotments(timeout, seconds + [took])
  {
    StopAtIs(outcomes + [outcome], if outcome.Exited? then |outcomes| + 1 else |outcomes|);
    var next := seconds + [took];
    forall i | 0 <= i < |next|
      ensures 0.0 <= next[i] <= Allotment(timeout, Elapsed(next[..i]))
    {
      assert next[..i] == seconds[..i];
      assert seconds[..|seconds|] == seconds;
    }
  }

  /** k runs under one timeout T take at most max(T, 0.1) + 0.1 (k - 1). */
  function TimeBound(timeout: real, k: nat): real {
    (if timeout > 0.1 then timeout else 0.1) + 0.1 * (k as real - 1.0)
  }

  lemma Tick(timeout: real, seconds: seq<real>, n: nat)
    requires n < |seconds| && WithinAllotments(timeout, seconds)
    requires n > 0 ==> Elapsed(seconds[..n]) <= TimeBound(timeout, n)
    ensures Elapsed(seconds[..n + 1]) == Elapsed(seconds[..n]) + seconds[n] <= TimeBound(timeout, n + 1)
  {
    assert seconds[..n + 1][..n] == seconds[..n];
  }

  lemma NothingElapsed(seconds: seq<real>)
    ensures Elapsed(seconds[..0]) == 0.0
  {
  }

  lemma BoundGrows(timeout: real, j: nat, k: nat)
    requires j <= k
    ensures TimeBound(timeout, j) <= TimeBound(timeout, k)
  {
  }

  // ---------------------------------------------------------------- the run lists

  type Paths = seq<string>

  function Filter(paths: Paths, keep: set<string>): Paths {
    if paths == [] then []
    else (if paths[0] in keep then [paths[0]] else []) + Filter(paths[1..], keep)
  }

  function Members(paths: Paths): set<string> {
    set p | p in paths
  }

  /** First occurrences only, leaving out what was already seen (`dict.fromkeys`). */
  function Unseen(paths: Paths, seen: set<string>): Paths {
    if paths == [] then []
    else if paths[0] in seen then Unseen(paths[1..], seen)
    else [paths[0]] + Unseen(paths[1..], seen + {paths[0]})
  }

  /** The carried set: declared paths in order, then `extra`, once each and only if tracked. */
  function SelectCarried(preserve: Paths, checks: Paths, extra: Paths, tracked: set<string>): Paths {
    Filter(Unseen(preserve + checks + extra, {}), tracked)
  }

  function RunList(command: Paths, preserve: Paths, checks: Paths): seq<Paths> {
    [command]
    + (if preserve == [] then [] else [command + preserve])
    + (if checks == [] then [] else [command + checks])
  }

  /** The self-test runs the declared paths that were restored, as declared. */
  function SelfTestRuns(command: Paths, preserve: Paths, checks: Paths, extra: Paths, tracked: set<string>)
    : seq<Paths>
  {
    var restored := Members(SelectCarried(preserve, checks, extra, tracked));
    RunList(command, Filter(preserve, restored), Filter(checks, restored))
  }

  /** Validation sorts the carried set itself into preserved paths and the other checks. */
  function ValidationRuns(command: Paths, preserve: Paths, checks: Paths, extra: Paths, tracked: set<string>)
    : seq<Paths>
  {
    var carried := SelectCarried(preserve, checks, extra, tracked);
    RunList(command, Filter(carried, Members(preserve)), Filter(carried, Members(checks) - Members(preserve)))
  }

  /** The bare command first, then once with the one part and once with the other, where there is any. */
  lemma RunsAre(command: Paths, p: Paths, c: Paths)
    ensures var runs := RunList(command, p, c);
            && |runs| == 1 + (if p == [] then 0 else 1) + (if c == [] then 0 else 1)
            && runs[0] == command
            && (p != [] ==> runs[1] == command + p) && (c != [] ==> runs[|runs| - 1] == command + c)
  {
  }

  /** Both judges run the bare declared command first, and then whatever tracked paths were declared. */
  lemma BareCommandFirst(command: Paths, preserve: Paths, checks: Paths, extra: Paths, tracked: set<string>)
    ensures var runs := SelfTestRuns(command, preserve, checks, extra, tracked);
            var p, c := Filter(preserve, tracked), Filter(checks, tracked);
            && runs[0] == command && |runs| == 1 + (if p == [] then 0 else 1) + (if c == [] then 0 else 1)
            && (p != [] ==> runs[1] == command + p) && (c != [] ==> runs[|runs| - 1] == command + c)
    ensures var runs := ValidationRuns(command, preserve, checks, extra, tracked);
            var p, c := Unseen(Filter(preserve, tracked), {}), Unseen(Filter(checks, tracked - Members(preserve)), {});
            && runs[0] == command && |runs| == 1 + (if p == [] then 0 else 1) + (if c == [] then 0 else 1)
            && (p != [] ==> runs[1] == command + p) && (c != [] ==> runs[|runs| - 1] == command + c)
  {
    RestoredIsTracked(preserve, checks, extra, tracked);
    CarriedParts(preserve, checks, extra, tracked);
    hide Unseen, Filter, SelectCarried, RunList;
    RunsAre(command, Filter(preserve, tracked), Filter(checks, tracked));
    RunsAre(command, Unseen(Filter(preserve, tracked), {}), Unseen(Filter(checks, tracked - Members(preserve)), {}));
  }

  predicate NoRepeats(paths: Paths) {
    forall i, j :: 0 <= i < j < |paths| ==> paths[i] != paths[j]
  }

  lemma {:induction false} FilterMembers(paths: Paths, keep: set<string>)
    ensures Members(Filter(paths, keep)) == Members(paths) * keep
  {
    if paths != [] {
      FilterMembers(paths[1..], keep);
      assert Members(paths) == {paths[0]} + Members(paths[1..]);
      var head := if paths[0] in keep then [paths[0]] else [];
      assert Members(head + Filter(paths[1..], keep)) == Members(head) + Members(Filter(paths[1..], keep));
    }
  }

  lemma {:induction false} UnseenMembers(paths: Paths, seen: set<string>)
    ensures Members(Unseen(paths, seen)) == Members(paths) - seen
  {
    if paths != [] {
      assert Members(paths) == {paths[0]} + Members(paths[1..]);
      if paths[0] in seen {
        UnseenMembers(paths[1..], seen);
      } else {
        UnseenMembers(paths[1..], seen + {paths[0]});
        var rest := Unseen(paths[1..], seen + {paths[0]});
        assert Members([paths[0]] + rest) == {paths[0]} + Members(rest);
      }
    }
  }

  lemma {:induction false} UnseenConcat(left: Paths, right: Paths, seen: set<string>)
    ensures Unseen(left + right, seen) == Unseen(left, seen) + Unseen(right, seen + Members(left))
  {
    if left == [] {
      assert left + right == right && seen + Members(left) == seen;
    } else {
      assert (left + right)[1..] == left[1..] + right;
      assert Members(left) == {left[0]} + Members(left[1..]);
      if left[0] in seen {
        UnseenConcat(left[1..], right, seen);
        assert seen + Members(left[1..]) == seen + Members(left);
      } else {
        UnseenConcat(left[1..], right, seen + {left[0]});
        assert seen + {left[0]} + Members(left[1..]) == seen + Members(left);
      }
    }
  }

  lemma {:induction false} FilterConcat(left: Paths, right: Paths, keep: set<string>)
    ensures Filter(left + right, keep) == Filter(left, keep) + Filter(right, keep)
  {
    if left == [] {
      assert left + right == right;
    } else {
      FilterConcat(left[1..], right, keep);
      FirstAndRest(left);
      FilterCons(left[0], left[1..], keep);
      FilterCons(left[0], left[1..] + right, keep);
      hide Filter;
      ConcatAssociates([left[0]], left[1..], right);
      ConcatAssociates(if left[0] in keep then [left[0]] else [], Filter(left[1..], keep), Filter(right, keep));
    }
  }

  lemma FilterCons(path: string, rest: Paths, keep: set<string>)
    ensures Filter([path] + rest, keep) == (if path in keep then [path] else []) + Filter(rest, keep)
  {
    assert ([path] + rest)[1..] == rest;
  }

  lemma {:induction false} FilterTwice(paths: Paths, keep: set<string>, keep': set<string>)
    ensures Filter(Filter(paths, keep), keep') == Filter(paths, keep * keep')
  {
    if paths != [] {
      FilterTwice(paths[1..], keep, keep');
      FilterConcat(if paths[0] in keep then [paths[0]] else [], Filter(paths[1..], keep), keep');
    }
  }

  lemma {:induction false} FilterNone(paths: Paths, keep: set<string>)
    requires Members(paths) * keep == {}
    ensures Filter(paths, keep) == []
  {
    if paths != [] {
      var p := paths[0];
      assert p in Members(paths);
      assert forall q :: q in Members(paths) ==> q !in Members(paths) * keep;
      assert p !in keep;
      assert Members(paths[1..]) * keep <= Members(paths) * keep;
      FilterNone(paths[1..], keep);
    }
  }

  lemma UnseenSkips(p: string, rest: Paths, seen: set<string>)
    requires p in seen
    ensures Unseen([p] + rest, seen) == Unseen(rest, seen)
  {
    assert ([p] + rest)[1..] == rest;
  }

  lemma UnseenKeeps(p: string, rest: Paths, seen: set<string>)
    requires p !in seen
    ensures Unseen([p] + rest, seen) == [p] + Unseen(rest, seen + {p})
  {
    assert ([p] + rest)[1..] == rest;
  }

  /** Filtering and dropping repeats commute, whatever was seen among the paths not kept. */
  lemma {:induction false} FilterUnseen(paths: Paths, keep: set<string>, seen: set<string>, seen': set<string>)
    requires seen * keep == seen' * keep
    ensures Filter(Unseen(paths, seen), keep) == Unseen(Filter(paths, keep), seen')
  {
    if paths != [] {
      var p := paths[0];
      if p in seen {
        FilterUnseen(paths[1..], keep, seen, seen');
        if p in keep {
          assert p in seen * keep;
          assert p in seen';
          UnseenSkips(p, Filter(paths[1..], keep), seen');
          assert Filter(paths, keep) == [p] + Filter(paths[1..], keep);
        } else {
          assert Filter(paths, keep) == Filter(paths[1..], keep);
        }
        assert Unseen(paths, seen) == Unseen(paths[1..], seen);
      } else {
        FilterConcat([p], Unseen(paths[1..], seen + {p}), keep);
        if p in keep {
          assert p !in seen' by {
            assert p in seen' ==> p in seen' * keep;
          }
          assert (seen + {p}) * keep == seen * keep + {p} == (seen' + {p}) * keep;
          FilterUnseen(paths[1..], keep, seen + {p}, seen' + {p});
          UnseenKeeps(p, Filter(paths[1..], keep), seen');
        } else {
          assert (seen + {p}) * keep == seen * keep;
          FilterUnseen(paths[1..], keep, seen + {p}, seen');
          assert Filter([p], keep) == [] && Filter(paths, keep) == Filter(paths[1..], keep);
          assert Unseen(paths, seen) == [p] + Unseen(paths[1..], seen + {p});
        }
      }
    }
  }

  /** The two parts of the carried set that validation picks out. */
  lemma CarriedParts(preserve: Paths, checks: Paths, extra: Paths, tracked: set<string>)
    ensures var carried := SelectCarried(preserve, checks, extra, tracked);
            && Filter(carried, Members(preserve)) == Unseen(Filter(preserve, tracked), {})
            && Filter(carried, Members(checks) - Members(preserve))
               == Unseen(Filter(checks, tracked - Members(preserve)), {})
  {
    var p, c := Members(preserve), Members(checks);
    var all := Unseen(preserve + checks + extra, {});
    var u, v, w := Unseen(preserve, {}), Unseen(checks, p), Unseen(extra, Members(preserve + checks));
    UnseenConcat(preserve + checks, extra, {});
    UnseenConcat(preserve, checks, {});
    assert {} + p == p && {} + Members(preserve + checks) == Members(preserve + checks);
    assert Members(preserve + checks) == p + c;
    assert all == u + v + w;
    UnseenMembers(preserve, {});
    UnseenMembers(checks, p);
    UnseenMembers(extra, p + c);
    PickPart(u, v, w, tracked, p);
    PickPart(u, v, w, tracked, c - p);
    assert Members(v) * (tracked * p) == {} && Members(w) * (tracked * p) == {};
    FilterNone(v, tracked * p);
    FilterNone(w, tracked * p);
    assert Members(u) * (tracked * (c - p)) == {} && Members(w) * (tracked * (c - p)) == {};
    FilterNone(u, tracked * (c - p));
    FilterNone(w, tracked * (c - p));
    FilterUnseen(preserve, tracked * p, {}, {});
    FilterSame(preserve, tracked * p, tracked);
    assert p * (tracked * (c - p)) == {} * (tracked * (c - p));
    FilterUnseen(checks, tracked * (c - p), p, {});
    FilterSame(checks, tracked * (c - p), tracked - p);
  }

  lemma PickPart(u: Paths, v: Paths, w: Paths, tracked: set<string>, part: set<string>)
    ensures Filter(Filter(u + v + w, tracked), part)
            == Filter(u, tracked * part) + Filter(v, tracked * part) + Filter(w, tracked * part)
  {
    FilterTwice(u + v + w, tracked, part);
    FilterConcat(u + v, w, tracked * part);
    FilterConcat(u, v, tracked * part);
  }

  lemma {:induction false} FilterSame(paths: Paths, keep: set<string>, keep': set<string>)
    requires forall p :: p in paths ==> (p in keep <==> p in keep')
    ensures Filter(paths, keep) == Filter(paths, keep')
  {
    if paths != [] {
      FilterSame(paths[1..], keep, keep');
    }
  }

  lemma {:induction false} UnseenIsSameIffNew(paths: Paths, seen: set<string>)
    ensures Unseen(paths, seen) == paths <==> NoRepeats(paths) && Members(paths) !! seen
    ensures |Unseen(paths, seen)| <= |paths|
  {
    if paths != [] {
      var rest := paths[1..];
      assert Members(paths) == {paths[0]} + Members(rest);
      if paths[0] in seen {
        UnseenIsSameIffNew(rest, seen);
      } else {
        UnseenIsSameIffNew(rest, seen + {paths[0]});
        assert paths == [paths[0]] + rest;
        NoRepeatsCons(paths);
      }
    }
  }

  lemma NoRepeatsCons(paths: Paths)
    requires paths != []
    ensures NoRepeats(paths) <==> NoRepeats(paths[1..]) && paths[0] !in Members(paths[1..])
  {
    if NoRepeats(paths[1..]) && paths[0] !in Members(paths[1..]) {
      forall i, j | 0 <= i < j < |paths|
        ensures paths[i] != paths[j]
      {
        assert paths[j] == paths[1..][j - 1];
        assert i > 0 ==> paths[i] == paths[1..][i - 1];
      }
    }
    if NoRepeats(paths) {
      assert forall j :: 0 <= j < |paths| - 1 ==> paths[1..][j] == paths[j + 1];
    }
  }

  /**
   * The session's self-test and the final validation run the same lists exactly when no tracked
   * declared path is repeated: not within `preserve`, not within `checks`, and not in both.
   */
  lemma SameRunsIffNoRepeats(command: Paths, preserve: Paths, checks: Paths, extra: Paths, tracked: set<string>)
    ensures (SelfTestRuns(command, preserve, checks, extra, tracked)
             == ValidationRuns(command, preserve, checks, extra, tracked))
            <==> NoRepeats(Filter(preserve, tracked) + Filter(checks, tracked))
  {
    var p, c := Filter(preserve, tracked), Filter(checks, tracked);
    var c' := Filter(checks, tracked - Members(preserve));
    RestoredIsTracked(preserve, checks, extra, tracked);
    CarriedParts(preserve, checks, extra, tracked);
    SameLists(command, p, c, Unseen(p, {}), Unseen(c', {}));
    UnseenIsSameIffNew(p, {});
    UnseenIsSameIffNew(c, {});
    ChecksPart(preserve, checks, tracked);
    NoRepeatsConcat(p, c);
  }

  /** One path declared twice is run once by the validation and twice by the self-test. */
  lemma RepeatedPathRunsDiffer()
    ensures SelfTestRuns(["t"], ["a", "a"], [], [], {"a"}) != ValidationRuns(["t"], ["a", "a"], [], [], {"a"})
  {
    var preserve: Paths := ["a", "a"];
    var kept, none := Filter(preserve, {"a"}), Filter([], {"a"});
    assert preserve[1..] == ["a"] && ["a"][1..] == [];
    assert kept == ["a", "a"] && none == [];
    assert (kept + none)[0] == (kept + none)[1];
    SameRunsIffNoRepeats(["t"], preserve, [], [], {"a"});
  }

  lemma RestoredIsTracked(preserve: Paths, checks: Paths, extra: Paths, tracked: set<string>)
    ensures var restored := Members(SelectCarried(preserve, checks, extra, tracked));
            && Filter(preserve, restored) == Filter(preserve, tracked)
            && Filter(checks, restored) == Filter(checks, tracked)
  {
    var all := preserve + checks + extra;
    UnseenMembers(all, {});
    FilterMembers(Unseen(all, {}), tracked);
    var restored := Members(SelectCarried(preserve, checks, extra, tracked));
    assert restored == Members(all) * tracked;
    FilterSame(preserve, restored, tracked);
    FilterSame(checks, restored, tracked);
  }

  /** Dropping repeats among the checks not preserved changes nothing exactly when there were none. */
  lemma ChecksPart(preserve: Paths, checks: Paths, tracked: set<string>)
    ensures var p, c := Filter(preserve, tracked), Filter(checks, tracked);
            (Unseen(Filter(checks, tracked - Members(preserve)), {}) == c)
            <==> (NoRepeats(c) && Members(p) !! Members(c))
  {
    var p, c := Filter(preserve, tracked), Filter(checks, tracked);
    var c' := Filter(checks, tracked - Members(preserve));
    FilterMembers(preserve, tracked);
    FilterMembers(checks, tracked);
    FilterMembers(checks, tracked - Members(preserve));
    UnseenMembers(c', {});
    UnseenIsSameIffNew(c', {});
    if Members(p) !! Members(c) {
      FilterDisjoint(checks, tracked, Members(preserve));
    } else {
      assert Members(c') != Members(c);
    }
  }

  lemma FilterDisjoint(checks: Paths, tracked: set<string>, preserved: set<string>)
    requires (preserved * tracked) !! Members(Filter(checks, tracked))
    ensures Filter(checks, tracked - preserved) == Filter(checks, tracked)
  {
    FilterMembers(checks, tracked);
    forall q | q in checks
      ensures q in tracked - preserved <==> q in tracked
    {
      assert q in Members(checks);
      assert q in tracked ==> q in Members(Filter(checks, tracked));
    }
    FilterSame(checks, tracked - preserved, tracked);
  }

  lemma SameLists(command: Paths, p: Paths, c: Paths, p': Paths, c': Paths)
    requires p' == [] <==> p == []
    ensures RunList(command, p, c) == RunList(command, p', c') <==> p == p' && c == c'
  {
    var left, right := RunList(command, p, c), RunList(command, p', c');
    if left == right {
      assert p != [] ==> left[1] == command + p && right[1] == command + p';
      assert p != [] ==> left[1][|command|..] == p && right[1][|command|..] == p';
      var k := if p == [] then 1 else 2;
      assert c != [] ==> left[k] == command + c;
      assert c' != [] ==> right[k] == command + c';
      assert c != [] ==> left[k][|command|..] == c;
      assert c' != [] ==> right[k][|command|..] == c';
    }
  }

  lemma NoRepeatsConcat(p: Paths, c: Paths)
    ensures NoRepeats(p + c) <==> NoRepeats(p) && NoRepeats(c) && Members(p) !! Members(c)
  {
    var all := p + c;
    if NoRepeats(all) {
      assert forall i :: 0 <= i < |p| ==> all[i] == p[i];
      assert forall j :: 0 <= j < |c| ==> all[|p| + j] == c[j];
      forall q | q in Members(p)
        ensures q !in Members(c)
      {
        var i :| 0 <= i < |p| && p[i] == q;
        assert all[i] == q;
      }
    } else {
      var i, j :| 0 <= i < j < |all| && all[i] == all[j];
      if i < |p| <= j {
        assert all[i] in Members(p) && all[j] in Members(c);
      }
    }
  }
}
