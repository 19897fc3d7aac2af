/** Exactly when an exchange with the replacement engine succeeds, and what each refusal says. */
module Acceptance {
  import opened Bytes
  import opened Mutation
  import opened Replacement
  import Lines
  import Utf8

  // ---------------------------------------------------------------- paths

  /** Walking down from the root, component by component, as a file system would. */
  function Walk(parts: seq<string>, at: seq<string>): seq<string> {
    if parts == [] then at else Walk(parts[1..], Enter(parts[0], at))
  }

  function Enter(part: string, at: seq<string>): seq<string> {
    if part == "" || part == "." then at
    else if part == ".." then if at == [] then [] else at[..|at| - 1]
    else at + [part]
  }

  predicate Plain(part: string) {
    part != "" && part != "." && part != ".."
  }

  lemma EnterIsShort(part: string, at: seq<string>)
    ensures |Enter(part, at)| <= |at| + 1
    ensures |Enter(part, at)| == |at| + 1 <==> Plain(part)
    ensures Plain(part) ==> Enter(part, at) == at + [part]
  {
  }

  lemma {:induction false} WalkIsShort(parts: seq<string>, at: seq<string>)
    ensures |Walk(parts, at)| <= |at| + |parts|
    ensures |Walk(parts, at)| == |at| + |parts| <==> forall part :: part in parts ==> Plain(part)
    ensures (forall part :: part in parts ==> Plain(part)) ==> Walk(parts, at) == at + parts
  {
    hide Plain, Enter;
    if parts == [] {
      assert at + parts == at;
    } else {
      EnterIsShort(parts[0], at);
      WalkIsShort(parts[1..], Enter(parts[0], at));
      FirstOrLater(parts);
      assert at + [parts[0]] + parts[1..] == at + parts;
    }
  }

  lemma FirstOrLater(parts: seq<string>)
    requires parts != []
    ensures (forall part :: part in parts ==> Plain(part)) <==>
            Plain(parts[0]) && forall part :: part in parts[1..] ==> Plain(part)
  {
    hide Plain;
    assert forall part :: part in parts <==> part == parts[0] || part in parts[1..] by {
      assert parts == [parts[0]] + parts[1..];
    }
  }

  /**
   * The paths that pass are those that name, component for component, the place a walk from the root comes
   * to, with no NUL and no backslash in them: they neither leave the root nor turn back below it.
   */
  lemma SafeIffItsOwnWalk(path: string)
    ensures SafeRelative(path) <==>
            '\0' !in path && '\\' !in path && Walk(Lines.SplitOn(path, '/'), []) == Lines.SplitOn(path, '/')
  {
    var parts := Lines.SplitOn(path, '/');
    WalkIsShort(parts, []);
    assert [] + parts == parts;
    FirstPart(path);
    if SafeRelative(path) {
      assert forall part :: part in parts ==> Plain(part);
    }
    if Walk(parts, []) == parts {
      assert parts[0] in parts;
    }
  }

  lemma FirstPart(path: string)
    ensures path == "" || path[0] == '/' ==> Lines.SplitOn(path, '/')[0] == ""
  {
  }

  // ---------------------------------------------------------------- what an exchange needs

  /** The file can be looked at: a safe declared path of a readable file that is text. */
  predicate Readable(files: Files, target: Target) {
    && SafeRelative(target.path) && target.declared
    && target.path in files && target.readable && Utf8.Valid(files[target.path])
  }

  /** And it is the revision that was captured. */
  predicate Current(files: Files, target: Target, expected: Option<Digest>) {
    Readable(files, target) && expected == Some(Sha256(files[target.path]))
  }

  /** Everything checked before any text is looked at, and what each refusal there says. */
  lemma PreparedIffCurrent(files: Files, target: Target, expected: Option<Digest>)
    ensures Prepare(files, target, expected).Ready? <==> Current(files, target, expected)
    ensures Current(files, target, expected) ==> Prepare(files, target, expected) == Ready(files[target.path])
    ensures Prepare(files, target, expected) == NotReady(PathUndeclared) <==>
              SafeRelative(target.path) && !target.declared
    ensures Prepare(files, target, expected) == NotReady(RevisionUnavailable) <==>
              Readable(files, target) && expected.None?
    ensures forall actual :: Prepare(files, target, expected) == NotReady(RevisionStale(actual)) <==>
              Readable(files, target) && expected.Some? && expected.value != actual == Sha256(files[target.path])
    ensures Prepare(files, target, expected) == NotReady(MutationFailed) <==>
              !SafeRelative(target.path) || (target.declared && !Readable(files, target))
  {
    hide SafeRelative, Utf8.Valid;
  }

  /** What replacing one range of the file comes to. */
  predicate Replaces(before: ByteString, e: Edit, after: ByteString) {
    && e.offset + e.oldLength <= |before|
    && after == before[..e.offset] + e.text + before[e.offset + e.oldLength..]
  }

  /**
   * One replacement succeeds exactly on the captured revision, with an anchor counted once, if the write
   * does; then the file holds its bytes with that one range replaced, and the receipt their digest.
   */
  lemma OnceSucceedsIff(files: Files, target: Target, expected: Option<Digest>, change: Change)
    ensures var (after, receipt) := ReplaceOnceResult(files, target, expected, change);
            && (receipt.Ok? <==> Current(files, target, expected)
                                 && Locate(files[target.path], change).Applied? && target.writes)
            && (receipt.Ok? ==>
                  var e, content := Locate(files[target.path], change).edit, receipt.sha256.preimage;
                  after == files[target.path := content] && Replaces(files[target.path], e, content))
            && (receipt.Refused? ==> after == files)
  {
    hide SafeRelative, Utf8.Valid, Locate;
    PreparedIffCurrent(files, target, expected);
    hide Prepare, Readable;
  }

  /** A list of one to sixteen succeeds exactly on the captured revision, if all of it applies and the write does. */
  lemma ManySucceedIff(files: Files, target: Target, expected: Option<Digest>, changes: seq<Change>)
    ensures var (after, receipt) := ReplaceManyResult(files, target, expected, changes);
            && (receipt.Ok? <==> 1 <= |changes| <= 16 && Current(files, target, expected)
                                 && ApplyAll(files[target.path], changes).All? && target.writes)
            && (receipt.Ok? ==>
                  var final := ApplyAll(files[target.path], changes).final;
                  after == files[target.path := final] && receipt.sha256 == Sha256(final))
            && (receipt.Refused? ==> after == files)
  {
    hide SafeRelative, Utf8.Valid, ApplyAll;
    PreparedIffCurrent(files, target, expected);
    hide Prepare, Readable;
  }
}
