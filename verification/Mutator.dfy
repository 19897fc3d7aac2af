/**
 * The session's revision cache in front of the replacement engine: what it sends, what it
 * remembers, and when it stops for good.
 */
module Mutator {
  import opened Bytes
  import opened Mutation
  import Acceptance
  import Lines
  import Region
  import Replacement

  /** From the path a tool call names to the path the cache keys it by; none outside the repository. */
  type Resolver = string -> Option<string>

  function KeyFor(path: string, resolve: Resolver): string {
    match resolve(path)
    case Some(key) => key
    case None => path
  }

  /**
   * How one exchange with the engine goes: it answers, or its outcome is indeterminate because it
   * broke off or named another path, after the engine did or did not do its work.
   */
  datatype Exchange = Answers(declared: bool, readable: bool, writes: bool) | Indeterminate(worked: bool)

  datatype Event =
    | Edit(path: string, changes: seq<Replacement.Change>, acceptable: bool, exchange: Exchange)
    | NativeWrite(path: string, content: ByteString)

  datatype Request = Request(path: string, expected: Option<Digest>)

  datatype Cache = Cache(revisions: map<string, Digest>, poisoned: bool, files: Files, requests: seq<Request>,
                         receipts: seq<Receipt>)

  function TargetOf(path: string, exchange: Exchange): Target {
    match exchange
    case Answers(declared, readable, writes) => Target(path, declared, readable, writes)
    case Indeterminate(_) => Target(path, true, true, true)
  }

  function Lookup(revisions: map<string, Digest>, key: string): Option<Digest> {
    if key in revisions then Some(revisions[key]) else None
  }

  function Next(c: Cache, e: Event, resolve: Resolver): Cache {
    match e
    case Edit(path, changes, acceptable, exchange) =>
      if c.poisoned || !acceptable then c
      else
        var key := KeyFor(path, resolve);
        var expected := Lookup(c.revisions, key);
        var asked := c.(requests := c.requests + [Request(path, expected)]);
        var (files, receipt) := ReplaceManyResult(c.files, TargetOf(path, exchange), expected, changes);
        if exchange.Indeterminate? then
          asked.(poisoned := true, files := if exchange.worked then files else c.files)
        else if receipt.Refused? then asked.(receipts := c.receipts + [receipt])
        else asked.(files := files, receipts := c.receipts + [receipt], revisions := c.revisions[key := receipt.sha256])
    case NativeWrite(path, content) =>
      match resolve(path)
      case None => c
      case Some(key) => c.(files := c.files[key := content], revisions := c.revisions[key := Sha256(content)])
  }

  function After(c: Cache, events: seq<Event>, resolve: Resolver): Cache
    decreases events
  {
    if events == [] then c else After(Next(c, events[0], resolve), events[1..], resolve)
  }

  // ---------------------------------------------------------------- the object

  class Mutator {
    const resolve: Resolver
    const disk: Disk
    var revisions: map<string, Digest>
    var poisoned: bool
    var requests: seq<Request>
    var receipts: seq<Receipt>

    function State(): Cache
      reads this, disk
    {
      Cache(revisions, poisoned, disk.files, requests, receipts)
    }

    constructor (resolve: Resolver, disk: Disk, revisions: map<string, Digest>)
      ensures State() == Cache(revisions, false, disk.files, [], [])
      ensures this.resolve == resolve && this.disk == disk
    {
      this.resolve, this.disk, this.revisions, poisoned := resolve, disk, revisions, false;
      requests, receipts := [], [];
    }

    /** `execute`; the answer is none when the context refuses or the outcome is indeterminate. */
    method Execute(path: string, changes: seq<Replacement.Change>, acceptable: bool, exchange: Exchange)
      returns (answer: Option<Receipt>)
      modifies this, disk
      ensures State() == Next(old(State()), Edit(path, changes, acceptable, exchange), resolve)
      ensures answer.Some? <==> !old(poisoned) && acceptable && exchange.Answers?
      ensures answer.Some? ==> receipts == old(receipts) + [answer.value]
    {
      hide ReplaceManyResult;
      answer := None;
      if poisoned || !acceptable {
        return;
      }
      var key := KeyFor(path, resolve);
      var expected := Lookup(revisions, key);
      requests := requests + [Request(path, expected)];
      if exchange == Indeterminate(false) {
        poisoned := true;
        return;
      }
      var receipt, view := disk.ReplaceMany(TargetOf(path, exchange), expected, changes);
      if exchange.Indeterminate? {
        poisoned := true;
        return;
      }
      receipts := receipts + [receipt];
      if receipt.Ok? {
        revisions := revisions[key := receipt.sha256];
      }
      answer := Some(receipt);
    }

    /** `noteWrite`, after Pi's own write of a path inside the repository has landed. */
    method NoteWrite(path: string, content: ByteString)
      modifies this, disk
      ensures State() == Next(old(State()), NativeWrite(path, content), resolve)
    {
      match resolve(path)
      case None =>
      case Some(key) =>
        disk.files := disk.files[key := content];
        revisions := revisions[key := Sha256(content)];
    }
  }

  // ---------------------------------------------------------------- the cache agrees with the disk

  /** Each tracked digest is the digest of the bytes on disk. */
  predicate Agrees(c: Cache) {
    forall key :: key in c.revisions ==> key in c.files && c.revisions[key] == Sha256(c.files[key])
  }

  predicate NeverStale(receipts: seq<Receipt>) {
    forall i :: 0 <= i < |receipts| ==> !(receipts[i].Refused? && receipts[i].why.RevisionStale?)
  }

  /** The engine opens the very path the cache looks up. */
  predicate KeyIsPath(path: string, resolve: Resolver) {
    KeyFor(path, resolve) == path
  }

  predicate Determinate(e: Event) {
    e.Edit? ==> e.exchange.Answers?
  }

  /** What a well-keyed edit can do to the file and to the receipt. */
  lemma ManyAgainstTracked(files: Files, target: Target, expected: Option<Digest>, changes: seq<Replacement.Change>)
    requires expected.Some? ==> target.path in files && expected.value == Sha256(files[target.path])
    ensures var (after, receipt) := ReplaceManyResult(files, target, expected, changes);
            && (receipt.Refused? ==> after == files && !receipt.why.RevisionStale?)
            && (receipt.Ok? ==>
                  after == files[target.path := receipt.sha256.preimage] && SafeRelative(target.path) && expected.Some?)
  {
    RefusalIsAboutText(files, target, expected, changes);
  }

  lemma RefusalIsAboutText(files: Files, target: Target, expected: Option<Digest>, changes: seq<Replacement.Change>)
    requires expected.Some? ==> target.path in files && expected.value == Sha256(files[target.path])
    ensures var receipt := ReplaceManyResult(files, target, expected, changes).1;
            receipt.Refused? ==> !receipt.why.RevisionStale?
  {
    if target.path in files {
      ListNeverStale(files[target.path], changes);
    }
  }

  lemma {:induction false} ListNeverStale(before: ByteString, changes: seq<Replacement.Change>)
    ensures var out := Replacement.ApplyAll(before, changes);
            out.FailedAt? ==> !out.why.RevisionStale?
  {
    if changes != [] {
      ListNeverStale(before, changes[..|changes| - 1]);
    }
  }

  lemma StepAgrees(c: Cache, e: Event, resolve: Resolver)
    requires Agrees(c) && NeverStale(c.receipts) && Determinate(e)
    requires e.Edit? && SafeRelative(e.path) ==> KeyIsPath(e.path, resolve)
    ensures Agrees(Next(c, e, resolve)) && NeverStale(Next(c, e, resolve).receipts)
  {
    hide ReplaceManyResult, SafeRelative;
    if e.Edit? {
      var target, expected := TargetOf(e.path, e.exchange), Lookup(c.revisions, KeyFor(e.path, resolve));
      if SafeRelative(e.path) {
        ManyAgainstTracked(c.files, target, expected, e.changes);
        var receipt := ReplaceManyResult(c.files, target, expected, e.changes).1;
        if receipt.Ok? {
          assert receipt.sha256 == Sha256(receipt.sha256.preimage);
          assert target.path == e.path == KeyFor(e.path, resolve);
        }
      } else {
        UnsafePathChangesNothing(c.files, target, expected, e.changes);
      }
    }
  }

  lemma UnsafePathChangesNothing(files: Files, target: Target, expected: Option<Digest>,
                                 changes: seq<Replacement.Change>)
    requires !SafeRelative(target.path)
    ensures ReplaceManyResult(files, target, expected, changes) == (files, Refused(Replacement.MutationFailed, None))
  {
  }

  /**
   * In any sequential run of edits and native writes with no indeterminate outcome, every tracked
   * digest stays that of the bytes on disk and no edit is refused as stale, provided the engine
   * opens the paths the cache keys.
   */
  lemma {:induction false} CacheAgreesWithDisk(c: Cache, events: seq<Event>, resolve: Resolver)
    requires Agrees(c) && NeverStale(c.receipts)
    requires forall i :: 0 <= i < |events| ==> Determinate(events[i])
    requires forall i :: 0 <= i < |events| && events[i].Edit? && SafeRelative(events[i].path) ==>
                           KeyIsPath(events[i].path, resolve)
    ensures Agrees(After(c, events, resolve)) && NeverStale(After(c, events, resolve).receipts)
    decreases events
  {
    hide Next, Agrees, NeverStale, SafeRelative;
    if events != [] {
      StepAgrees(c, events[0], resolve);
      CacheAgreesWithDisk(Next(c, events[0], resolve), events[1..], resolve);
    }
  }

  /** No event makes the cache forget a key. */
  lemma {:induction false} NothingIsForgotten(c: Cache, events: seq<Event>, resolve: Resolver)
    ensures c.revisions.Keys <= After(c, events, resolve).revisions.Keys
    decreases events
  {
    hide ReplaceManyResult;
    if events != [] {
      NothingIsForgotten(Next(c, events[0], resolve), events[1..], resolve);
    }
  }

  /** A path that was edited with success, or written natively, has its key tracked. */
  lemma ChangeIsTracked(c: Cache, e: Event, resolve: Resolver)
    ensures var t := Next(c, e, resolve);
            && (e.Edit? && |t.receipts| > |c.receipts| && t.receipts[|c.receipts|].Ok? ==>
                  KeyFor(e.path, resolve) in t.revisions
                  && t.revisions[KeyFor(e.path, resolve)] == t.receipts[|c.receipts|].sha256)
            && (e.NativeWrite? && resolve(e.path).Some? ==>
                  resolve(e.path).value in t.revisions && t.revisions[resolve(e.path).value] == Sha256(e.content))
  {
    hide ReplaceManyResult;
  }

  /**
   * After any such run the next edit is sent, with the digest of the bytes on disk if its path was ever
   * captured, edited with success or written, and without one otherwise.
   */
  lemma NextEditIsSentCurrent(c: Cache, events: seq<Event>, e: Event, resolve: Resolver)
    requires Agrees(c) && NeverStale(c.receipts) && e.Edit? && e.acceptable
    requires forall i :: 0 <= i < |events| ==> Determinate(events[i])
    requires forall i :: 0 <= i < |events| && events[i].Edit? && SafeRelative(events[i].path) ==>
                           KeyIsPath(events[i].path, resolve)
    ensures var now, key := After(c, events, resolve), KeyFor(e.path, resolve);
            !now.poisoned ==>
              && (key in now.revisions ==> key in now.files)
              && Next(now, e, resolve).requests == now.requests +
                   [Request(e.path, if key in now.revisions then Some(Sha256(now.files[key])) else None)]
  {
    hide ReplaceManyResult, SafeRelative, After;
    CacheAgreesWithDisk(c, events, resolve);
  }

  /**
   * And what comes of it: one receipt, a success exactly if its path was ever captured and the engine can
   * open the file, apply every change and write; then the file holds the result. It is never stale.
   */
  lemma NextEditSucceedsIff(c: Cache, events: seq<Event>, e: Event, resolve: Resolver)
    requires Agrees(c) && NeverStale(c.receipts) && e.Edit? && e.acceptable && Determinate(e)
    requires forall i :: 0 <= i < |events| ==> Determinate(events[i])
    requires forall i :: 0 <= i < |events| && events[i].Edit? && SafeRelative(events[i].path) ==>
                           KeyIsPath(events[i].path, resolve)
    requires KeyIsPath(e.path, resolve)
    ensures var now := After(c, events, resolve);
            var next, target := Next(now, e, resolve), TargetOf(e.path, e.exchange);
            !now.poisoned ==>
              && |next.receipts| == |now.receipts| + 1 && next.receipts[..|now.receipts|] == now.receipts
              && (next.receipts[|now.receipts|].Ok? <==>
                    && e.path in now.revisions && Acceptance.Readable(now.files, target)
                    && 1 <= |e.changes| <= 16 && Replacement.ApplyAll(now.files[e.path], e.changes).All?
                    && target.writes)
              && (if next.receipts[|now.receipts|].Ok?
                  then next.files == now.files[e.path := Replacement.ApplyAll(now.files[e.path], e.changes).final]
                  else next.files == now.files)
  {
    hide ReplaceManyResult, SafeRelative, After, Replacement.ApplyAll, TargetOf;
    var now := After(c, events, resolve);
    CacheAgreesWithDisk(c, events, resolve);
    OneTarget(e.path, e.exchange);
    Acceptance.ManySucceedIff(now.files, TargetOf(e.path, e.exchange), Lookup(now.revisions, e.path), e.changes);
    hide Acceptance.Readable;
  }

  lemma OneTarget(path: string, exchange: Exchange)
    ensures TargetOf(path, exchange).path == path
  {
  }

  /** In every run a path that was written natively stays tracked. */
  lemma {:induction false} WrittenStaysTracked(c: Cache, events: seq<Event>, i: nat, resolve: Resolver)
    requires i < |events| && events[i].NativeWrite? && resolve(events[i].path).Some?
    ensures resolve(events[i].path).value in After(c, events, resolve).revisions
    decreases events
  {
    hide ReplaceManyResult;
    var next := Next(c, events[0], resolve);
    if i == 0 {
      ChangeIsTracked(c, events[0], resolve);
      NothingIsForgotten(next, events[1..], resolve);
    } else {
      WrittenStaysTracked(next, events[1..], i - 1, resolve);
    }
  }

  /** Only an indeterminate outcome poisons. */
  lemma {:induction false} DeterminateRunIsSound(c: Cache, events: seq<Event>, resolve: Resolver)
    requires !c.poisoned && forall i :: 0 <= i < |events| ==> Determinate(events[i])
    ensures !After(c, events, resolve).poisoned
    decreases events
  {
    hide ReplaceManyResult;
    if events != [] {
      DeterminateRunIsSound(Next(c, events[0], resolve), events[1..], resolve);
    }
  }

  /** After an indeterminate outcome no later edit sends anything, whatever follows. */
  lemma {:induction false} PoisonIsFinal(c: Cache, events: seq<Event>, resolve: Resolver)
    requires c.poisoned
    ensures After(c, events, resolve).poisoned && After(c, events, resolve).requests == c.requests
    ensures After(c, events, resolve).receipts == c.receipts
    decreases events
  {
    hide ReplaceManyResult;
    if events != [] {
      PoisonIsFinal(Next(c, events[0], resolve), events[1..], resolve);
    }
  }

  lemma IndeterminatePoisons(c: Cache, e: Event, resolve: Resolver)
    requires e.Edit? && e.acceptable && !Determinate(e)
    ensures Next(c, e, resolve).poisoned
  {
    hide ReplaceManyResult;
  }

  /** From every agreeing cache, every determinate edit of `path` keeps agreement and is not stale. */
  ghost predicate EditsStayCurrent(path: string, resolve: Resolver) {
    forall c, changes, declared, readable, writes :: Agrees(c) && NeverStale(c.receipts) ==>
      var after := Next(c, Edit(path, changes, true, Answers(declared, readable, writes)), resolve);
      Agrees(after) && NeverStale(after.receipts)
  }

  /**
   * For a path the engine accepts, edits stay current exactly when the cache keys it by the path the
   * engine opens. A leading "@", which the session strips and the engine does not, breaks this.
   */
  lemma EditsStayCurrentIffKeyIsPath(path: string, resolve: Resolver)
    requires SafeRelative(path)
    ensures EditsStayCurrent(path, resolve) <==> KeyIsPath(path, resolve)
  {
    if KeyIsPath(path, resolve) {
      forall c, changes, declared, readable, writes | Agrees(c) && NeverStale(c.receipts)
        ensures var after := Next(c, Edit(path, changes, true, Answers(declared, readable, writes)), resolve);
                Agrees(after) && NeverStale(after.receipts)
      {
        StepAgrees(c, Edit(path, changes, true, Answers(declared, readable, writes)), resolve);
      }
    } else {
      var key := KeyFor(path, resolve);
      var c := Cache(map[key := Sha256([])], false, map[key := [], path := [97]], [], []);
      var change := Replacement.Change([97], []);
      var after := Next(c, Edit(path, [change], true, Answers(true, true, true)), resolve);
      StaleAnswer(c.files, path, change);
      assert after.receipts == [Refused(Replacement.RevisionStale(Sha256([97])), None)];
      assert !NeverStale(after.receipts) by {
        assert after.receipts[0].Refused?;
      }
    }
  }

  lemma StaleAnswer(files: Files, path: string, change: Replacement.Change)
    requires SafeRelative(path) && path in files && files[path] == [97]
    ensures ReplaceManyResult(files, Target(path, true, true, true), Some(Sha256([])), [change])
            == (files, Refused(Replacement.RevisionStale(Sha256([97])), None))
  {
    Region.AsciiIsValid([97]);
  }

  lemma AtPathIsNotCurrent(resolve: Resolver)
    requires resolve("@a") == Some("a")
    ensures SafeRelative("@a") && !EditsStayCurrent("@a", resolve)
  {
    assert "@a"[1..] == "a" && "a"[1..] == "";
    var none := Lines.SplitOn("", '/');
    assert none == [""];
    var one := Lines.SplitOn("a", '/');
    assert ['a'] + none[0] == "a" && one == [['a'] + none[0]] + none[1..];
    assert |one| == 1 && one[0] == "a";
    assert ['@'] + one[0] == "@a" && Lines.SplitOn("@a", '/') == [['@'] + one[0]] + one[1..];
    EditsStayCurrentIffKeyIsPath("@a", resolve);
  }
}
