/** Contract-bounded, revision-checked replacement of one file, and what a list of replacements means. */
module Mutation {
  import opened Bytes
  import opened Replacement
  import Lines
  import Region
  import Utf8

  const MAX_REPLACEMENTS := 16

  type Files = map<string, ByteString>

  /** One addressed file: what the contract and the operating system answer for this exchange. */
  datatype Target = Target(path: string, declared: bool, readable: bool, writes: bool)

  datatype Receipt = Ok(sha256: Digest) | Refused(why: Refusal, index: Option<nat>)

  datatype Prepared = Ready(before: ByteString) | NotReady(why: Refusal)

  /** `normalize_relative_path`: the paths that pass unchanged; every other one is an error. */
  predicate SafeRelative(path: string) {
    && path != "" && '\0' !in path && '\\' !in path && path[0] != '/'
    && forall part :: part in Lines.SplitOn(path, '/') ==> part != "" && part != "." && part != ".."
  }

  /** Everything checked before any text is looked at. */
  function Prepare(files: Files, target: Target, expected: Option<Digest>): Prepared {
    if !SafeRelative(target.path) then NotReady(MutationFailed)
    else if !target.declared then NotReady(PathUndeclared)
    else if target.path !in files || !target.readable || !Utf8.Valid(files[target.path]) then NotReady(MutationFailed)
    else match expected
      case None => NotReady(RevisionUnavailable)
      case Some(digest) =>
        var before := files[target.path];
        if Sha256(before) != digest then NotReady(RevisionStale(Sha256(before))) else Ready(before)
  }

  /** The files and the receipt after one replacement. */
  function ReplaceOnceResult(files: Files, target: Target, expected: Option<Digest>, change: Change): (Files, Receipt) {
    match Prepare(files, target, expected)
    case NotReady(why) => (files, Refused(why, None))
    case Ready(before) =>
      match Locate(before, change)
      case Rejected(why) => (files, Refused(why, None))
      case Applied(e) =>
        if !target.writes then (files, Refused(MutationFailed, None))
        else (files[target.path := Apply(before, e)], Ok(Sha256(Apply(before, e))))
  }

  /** The files and the receipt after a list of replacements; a failing one is named 1-based. */
  function ReplaceManyResult(files: Files, target: Target, expected: Option<Digest>, changes: seq<Change>)
    : (Files, Receipt)
  {
    if changes == [] || |changes| > MAX_REPLACEMENTS then (files, Refused(MutationFailed, None))
    else match Prepare(files, target, expected)
      case NotReady(why) => (files, Refused(why, None))
      case Ready(before) =>
        match ApplyAll(before, changes)
        case FailedAt(index, why) => (files, Refused(why, Some(index + 1)))
        case All(final, _) =>
          if !target.writes then (files, Refused(MutationFailed, None))
          else (files[target.path := final], Ok(Sha256(final)))
  }

  /** The files of one repository, changed only by an atomic replacement of one entry. */
  class Disk {
    var files: Files

    constructor (files: Files)
      ensures this.files == files
    {
      this.files := files;
    }

    method AtomicReplace(target: Target, content: ByteString) returns (ok: bool)
      modifies this
      ensures ok == target.writes
      ensures files == if ok then old(files)[target.path := content] else old(files)
    {
      ok := target.writes;
      if ok {
        files := files[target.path := content];
      }
    }

    method ReplaceOnce(target: Target, expected: Option<Digest>, change: Change)
      returns (receipt: Receipt, region: Region.Region)
      modifies this
      ensures (files, receipt) == ReplaceOnceResult(old(files), target, expected, change)
      ensures receipt.Ok? ==>
        var e := Locate(old(files)[target.path], change).edit;
        Region.ShowsEdit(files[target.path], Mark(e.offset, e.text), region)
      ensures receipt.Refused? ==> files == old(files)
    {
      region := Region.Nothing;
      hide Region.ShowsEdit, SafeRelative;
      match Prepare(files, target, expected)
      case NotReady(why) => receipt := Refused(why, None);
      case Ready(before) =>
        match Locate(before, change)
        case Rejected(why) => receipt := Refused(why, None);
        case Applied(e) =>
          var after := Apply(before, e);
          LocatedEditKeepsUtf8(before, change);
          var ok := AtomicReplace(target, after);
          if !ok {
            receipt := Refused(MutationFailed, None);
          } else {
            receipt := Ok(Sha256(after));
            region := Region.PostEditRegion(before, after, Mark(e.offset, e.text));
          }
    }

    method ReplaceMany(target: Target, expected: Option<Digest>, changes: seq<Change>)
      returns (receipt: Receipt, view: Region.View)
      modifies this
      ensures (files, receipt) == ReplaceManyResult(old(files), target, expected, changes)
      ensures receipt.Ok? ==>
        var log := ApplyAll(old(files)[target.path], changes).log;
        Region.ShowsEdits(files[target.path], Recorded(log), view)
      ensures receipt.Refused? ==> files == old(files)
    {
      view := Region.NoLines;
      hide ApplyAll, Recorded, Region.ShowsEdits, Utf8.Valid, SafeRelative;
      if changes == [] || |changes| > MAX_REPLACEMENTS {
        return Refused(MutationFailed, None), view;
      }
      match Prepare(files, target, expected)
      case NotReady(why) => receipt := Refused(why, None);
      case Ready(before) =>
        ReadyMeans(files, target, expected);
        var failure, current, applied := ApplyInOrder(before, changes);
        match failure {
          case Some(at) => receipt := Refused(at.1, Some(at.0));
          case None =>
            var ok := AtomicReplace(target, current);
            if !ok {
              receipt := Refused(MutationFailed, None);
            } else {
              receipt := Ok(Sha256(current));
              ApplyAllKeepsUtf8(before, changes);
              if |changes| == 1 {
                SingleMark(before, changes);
              }
              view := Region.PostEditRegions(before, current, applied);
            }
        }
    }
  }

  /** The in-memory loop: thread the buffer and re-base every earlier mark on each length change. */
  method ApplyInOrder(before: ByteString, changes: seq<Change>)
    returns (failure: Option<(nat, Refusal)>, current: ByteString, applied: seq<Mark>)
    ensures match ApplyAll(before, changes)
            case FailedAt(index, why) => failure == Some((index + 1, why))
            case All(final, log) => failure == None && current == final && applied == Recorded(log)
  {
    failure, current, applied := None, before, [];
    NothingApplied(before, changes);
    hide ApplyAll, Recorded, Locate, Apply, ShiftAll;
    for n := 0 to |changes|
      invariant failure == None
      invariant var out := ApplyAll(before, changes[..n]);
                out.All? && out.final == current && Recorded(out.log) == applied
    {
      OneMoreChange(before, changes, n);
      match Locate(current, changes[n]) {
        case Rejected(why) =>
          FailureIsFinal(before, changes, n + 1);
          return Some((n + 1, why)), current, applied;
        case Applied(e) =>
          OneMoreMark(ApplyAll(before, changes[..n]).log, e);
          applied := ShiftAll(applied, e) + [Mark(e.offset, e.text)];
          current := Apply(current, e);
      }
    }
    assert changes[..|changes|] == changes;
  }

  lemma NothingApplied(before: ByteString, changes: seq<Change>)
    ensures ApplyAll(before, changes[..0]) == All(before, []) && Recorded([]) == []
  {
  }

  lemma OneMoreChange(before: ByteString, changes: seq<Change>, n: nat)
    requires n < |changes| && ApplyAll(before, changes[..n]).All?
    ensures var out := ApplyAll(before, changes[..n]);
            ApplyAll(before, changes[..n + 1]) ==
            match Locate(out.final, changes[n])
            case Rejected(why) => FailedAt(n, why)
            case Applied(e) => All(Apply(out.final, e), out.log + [e])
  {
    hide Locate, Apply;
    assert changes[..n + 1][..n] == changes[..n];
  }

  lemma OneMoreMark(log: seq<Edit>, e: Edit)
    ensures Recorded(log + [e]) == ShiftAll(Recorded(log), e) + [Mark(e.offset, e.text)]
  {
    hide ShiftAll;
    assert (log + [e])[..|log|] == log;
  }

  /** With one change the mark is where the anchor was, and everything before it is untouched. */
  lemma SingleMark(before: ByteString, changes: seq<Change>)
    requires |changes| == 1 && ApplyAll(before, changes).All?
    ensures var out := ApplyAll(before, changes);
            && |out.log| == 1 && |Recorded(out.log)| == 1
            && var at := Recorded(out.log)[0].start;
               at <= |before| && at <= |out.final| && before[..at] == out.final[..at]
  {
    assert changes[..0] == [];
    var e := Locate(before, changes[0]).edit;
    var log := ApplyAll(before, changes).log;
    assert log == [e] && log[..0] == [];
  }

  // ---------------------------------------------------------------- a chain of single replacements

  datatype Chained = Done(files: Files, revision: Option<Digest>) | Stopped(index: nat, why: Refusal)

  /** One `replace_once` after another, each fed the digest the previous one returned. */
  function Chain(files: Files, target: Target, expected: Option<Digest>, changes: seq<Change>): Chained {
    if changes == [] then Done(files, expected)
    else
      var last := |changes| - 1;
      match Chain(files, target, expected, changes[..last])
      case Stopped(index, why) => Stopped(index, why)
      case Done(now, revision) =>
        var (after, receipt) := ReplaceOnceResult(now, target, revision, changes[last]);
        match receipt
        case Ok(sha256) => Done(after, Some(sha256))
        case Refused(why, _) => Stopped(last + 1, why)
  }

  /** A chain against a prepared file follows the in-memory list step by step. */
  lemma {:induction false} ChainFollowsList(files: Files, target: Target, expected: Option<Digest>,
                                            changes: seq<Change>)
    requires target.writes && Prepare(files, target, expected).Ready?
    ensures target.path in files
    ensures var before := files[target.path];
            Chain(files, target, expected, changes) ==
            match ApplyAll(before, changes)
            case All(final, _) => Done(files[target.path := final], Some(Sha256(final)))
            case FailedAt(index, why) => Stopped(index + 1, why)
  {
    var before := files[target.path];
    if changes == [] {
      assert files[target.path := before] == files;
    } else {
      hide Utf8.Valid, Locate, Apply, ReplaceOnceResult, Prepare, SafeRelative;
      var last := |changes| - 1;
      ChainFollowsList(files, target, expected, changes[..last]);
      var prefix := ApplyAll(before, changes[..last]);
      if prefix.All? {
        ReadyMeans(files, target, expected);
        ApplyAllKeepsUtf8(before, changes[..last]);
        OnceOnTracked(files, target, prefix.final, changes[last]);
      }
    }
  }

  lemma ReadyMeans(files: Files, target: Target, expected: Option<Digest>)
    requires Prepare(files, target, expected).Ready?
    ensures target.declared && target.readable && SafeRelative(target.path)
    ensures target.path in files && Utf8.Valid(files[target.path])
    ensures expected == Some(Sha256(files[target.path]))
  {
  }

  /** A single replacement against the file it has just been told the digest of. */
  lemma OnceOnTracked(files: Files, target: Target, current: ByteString, change: Change)
    requires target.writes && target.declared && target.readable && SafeRelative(target.path)
    requires Utf8.Valid(current)
    ensures var now, step := files[target.path := current], Locate(current, change);
            ReplaceOnceResult(now, target, Some(Sha256(current)), change) ==
            if step.Rejected? then (now, Refused(step.why, None))
            else (files[target.path := Apply(current, step.edit)], Ok(Sha256(Apply(current, step.edit))))
  {
    hide Utf8.Valid, Locate, Apply;
    var now, step := files[target.path := current], Locate(current, change);
    assert Prepare(now, target, Some(Sha256(current))) == Ready(current);
    if step.Applied? {
      var after := Apply(current, step.edit);
      assert now[target.path := after] == files[target.path := after];
    }
  }

  /**
   * One exchange of 1 to 16 replacements does exactly what the chain of single exchanges would:
   * it succeeds when the whole chain would, with the same bytes and digest, and otherwise names
   * the same failing replacement and changes nothing.
   */
  lemma ManyIsAllOrNothingChain(files: Files, target: Target, expected: Option<Digest>, changes: seq<Change>)
    requires target.writes && 1 <= |changes| <= MAX_REPLACEMENTS
    ensures var (after, receipt) := ReplaceManyResult(files, target, expected, changes);
            match Chain(files, target, expected, changes)
            case Done(chained, revision) => receipt.Ok? && after == chained && revision == Some(receipt.sha256)
            case Stopped(index, why) =>
              && after == files && receipt.Refused? && receipt.why == why
              && index == (match receipt.index case Some(i) => i case None => 1)
  {
    match Prepare(files, target, expected)
    case Ready(_) => ChainFollowsList(files, target, expected, changes);
    case NotReady(why) => ChainStopsAtOnce(files, target, expected, changes, why);
  }

  lemma {:induction false} ChainStopsAtOnce(files: Files, target: Target, expected: Option<Digest>,
                                            changes: seq<Change>, why: Refusal)
    requires changes != [] && Prepare(files, target, expected) == NotReady(why)
    ensures Chain(files, target, expected, changes) == Stopped(1, why)
  {
    var last := |changes| - 1;
    if last == 0 {
      assert changes[..0] == [];
    } else {
      ChainStopsAtOnce(files, target, expected, changes[..last], why);
    }
  }
}
