/**
 * The pure half of the replacement engine: one replacement against a buffer, an ordered
 * all-or-nothing list of them, and where each inserted text ends up.
 */
module Replacement {
  import opened Bytes
  import opened Search
  import Utf8
  import Lines

  datatype Change = Change(oldText: Utf8.Text, newText: Utf8.Text)

  datatype Refusal =
    | PathUndeclared
    | RevisionUnavailable
    | RevisionStale(actual: Digest)
    | NoChangeRequested
    | AnchorMissing
    | AnchorAlreadyApplied(line: nat)
    | AnchorAmbiguous(count: nat)
    | MutationFailed

  /** One applied replacement: `oldLength` bytes at `offset` became `text`. */
  datatype Edit = Edit(offset: nat, oldLength: nat, text: ByteString)

  datatype Step = Applied(edit: Edit) | Rejected(why: Refusal)

  predicate Fits(s: ByteString, e: Edit) {
    e.offset + e.oldLength <= |s|
  }

  function Splice<T>(s: seq<T>, e: Edit, inserted: seq<T>): seq<T>
    requires e.offset + e.oldLength <= |s|
  {
    s[..e.offset] + inserted + s[e.offset + e.oldLength..]
  }

  function Apply(s: ByteString, e: Edit): ByteString
    requires Fits(s, e)
  {
    Splice(s, e, e.text)
  }

  /** Validate one replacement and locate its anchor; no refusal changes anything. */
  function Locate(current: ByteString, change: Change): (step: Step)
    ensures step.Applied? ==>
      && Fits(current, step.edit)
      && Utf8.Encode(change.oldText) == Some(current[step.edit.offset..step.edit.offset + step.edit.oldLength])
      && Utf8.Encode(change.newText) == Some(step.edit.text)
    ensures step.Applied? ==>
      forall i :: 0 <= i < step.edit.offset ==> !MatchAt(current, Utf8.Encode(change.oldText).value, i)
  {
    match (Utf8.Encode(change.oldText), Utf8.Encode(change.newText))
    case (Some(old_), Some(new_)) =>
      if old_ == new_ then Rejected(NoChangeRequested)
      else
        var count := Count(current, old_);
        if count == 0 then
          var present := FindFrom(current, new_, 0);
          if new_ != [] && present.Some?
          then Rejected(AnchorAlreadyApplied(Lines.LineOf(current, present.value)))
          else Rejected(AnchorMissing)
        else if count == 1 then
          CountOne(current, old_);
          Applied(Edit(FindFrom(current, old_, 0).value, |old_|, new_))
        else Rejected(AnchorAmbiguous(count))
    case _ => Rejected(MutationFailed)
  }

  ghost predicate FirstMatch(hay: ByteString, needle: ByteString, i: nat) {
    MatchAt(hay, needle, i) && forall j :: 0 <= j < i ==> !MatchAt(hay, needle, j)
  }

  /** A text that UTF-8 cannot carry is refused whatever the buffer. */
  lemma SurrogateIsRefused(current: ByteString, change: Change)
    ensures Locate(current, change) == Rejected(MutationFailed) <==>
            (exists k :: 0 <= k < |change.oldText| && !Utf8.Scalar(change.oldText[k]))
            || exists k :: 0 <= k < |change.newText| && !Utf8.Scalar(change.newText[k])
  {
    hide FindFrom, Count;
    Utf8.EncodeFailsOnSurrogate(change.oldText);
    Utf8.EncodeFailsOnSurrogate(change.newText);
  }

  /** The refusal codes mean what they say about the buffer. */
  lemma RefusalsAreTrue(current: ByteString, change: Change, old_: ByteString, new_: ByteString)
    requires Utf8.Encode(change.oldText) == Some(old_) && Utf8.Encode(change.newText) == Some(new_)
    ensures var step := Locate(current, change);
            && (step == Rejected(NoChangeRequested) <==> old_ == new_)
            && (step.Applied? <==> old_ != new_ && Count(current, old_) == 1)
            && (step.Rejected? && (step.why.AnchorMissing? || step.why.AnchorAlreadyApplied?) <==>
                  old_ != new_ && forall i :: !MatchAt(current, old_, i))
            && (step.Rejected? && step.why.AnchorAlreadyApplied? ==>
                  && new_ != []
                  && exists i: nat :: FirstMatch(current, new_, i) && step.why.line == Lines.LineOf(current, i))
            && (step.Rejected? && step.why.AnchorAmbiguous? <==> old_ != new_ && Count(current, old_) >= 2)
            && (step.Rejected? && step.why.AnchorAmbiguous? ==> step.why.count == Count(current, old_))
            && (step == Rejected(AnchorMissing) && new_ != [] ==> forall i :: !MatchAt(current, new_, i))
            && (old_ != new_ && old_ != [] && (exists i :: UniqueMatch(current, old_, i)) ==> step.Applied?)
  {
    CountZero(current, old_);
    assert FindFrom(current, new_, 0).Some? ==> FirstMatch(current, new_, FindFrom(current, new_, 0).value);
    if old_ != [] && exists i :: UniqueMatch(current, old_, i) {
      var i :| UniqueMatch(current, old_, i);
      UniqueCounts(current, old_, i);
    }
  }

  /** Either every change applied, in order, or the first one that cannot is named. */
  datatype Outcome = All(final: ByteString, log: seq<Edit>) | FailedAt(index: nat, why: Refusal)

  function ApplyAll(before: ByteString, changes: seq<Change>): (out: Outcome)
    ensures out.FailedAt? ==> out.index < |changes|
    ensures out.All? ==> |out.log| == |changes|
  {
    if changes == [] then All(before, [])
    else
      var last := |changes| - 1;
      var prefix := ApplyAll(before, changes[..last]);
      if prefix.FailedAt? then prefix
      else match Locate(prefix.final, changes[last])
        case Rejected(why) => FailedAt(last, why)
        case Applied(e) => All(Apply(prefix.final, e), prefix.log + [e])
  }

  /** The failing index is the first that cannot apply: everything before it does. */
  lemma {:induction false} FailedAtIsFirst(before: ByteString, changes: seq<Change>)
    requires ApplyAll(before, changes).FailedAt?
    ensures var out := ApplyAll(before, changes);
            && ApplyAll(before, changes[..out.index]).All?
            && Locate(ApplyAll(before, changes[..out.index]).final, changes[out.index]) == Rejected(out.why)
  {
    var last := |changes| - 1;
    if ApplyAll(before, changes[..last]).FailedAt? {
      FailedAtIsFirst(before, changes[..last]);
      var i := ApplyAll(before, changes).index;
      assert changes[..last][..i] == changes[..i];
    }
  }

  /** Once a prefix fails, every longer list fails at the same place: later changes are never looked at. */
  lemma {:induction false} FailureIsFinal(before: ByteString, changes: seq<Change>, n: nat)
    requires n <= |changes| && ApplyAll(before, changes[..n]).FailedAt?
    ensures ApplyAll(before, changes) == ApplyAll(before, changes[..n])
    decreases |changes|
  {
    hide Locate, Apply;
    if n == |changes| {
      assert changes[..n] == changes;
    } else {
      var last := |changes| - 1;
      assert changes[..last][..n] == changes[..n];
      FailureIsFinal(before, changes[..last], n);
    }
  }

  // ---------------------------------------------------------------- UTF-8 is kept

  lemma EditKeepsUtf8(current: ByteString, e: Edit, old_: Utf8.Text, new_: Utf8.Text)
    requires Utf8.Valid(current) && Fits(current, e) && (e.oldLength > 0 || current == [])
    requires Utf8.Encode(old_) == Some(current[e.offset..e.offset + e.oldLength])
    requires Utf8.Encode(new_) == Some(e.text)
    ensures Utf8.Boundary(current, e.offset) && Utf8.Boundary(current, e.offset + e.oldLength)
    ensures Utf8.Valid(Apply(current, e))
  {
    hide Utf8.Valid, Utf8.Encode;
    var anchor := current[e.offset..e.offset + e.oldLength];
    EncodedIsValid(old_, anchor);
    EncodedIsValid(new_, e.text);
    Utf8.ReplacementStaysValid(current, e.offset, anchor, e.text);
  }

  lemma EncodedIsValid(text: Utf8.Text, bytes: ByteString)
    requires Utf8.Encode(text) == Some(bytes)
    ensures Utf8.Valid(bytes)
  {
    Utf8.EncodeThenDecode(text);
  }

  /** A match of any anchor falls on character boundaries, so the buffer stays valid UTF-8. */
  lemma LocatedEditKeepsUtf8(current: ByteString, change: Change)
    requires Utf8.Valid(current) && Locate(current, change).Applied?
    ensures var e := Locate(current, change).edit;
            && Utf8.Boundary(current, e.offset) && Utf8.Boundary(current, e.offset + e.oldLength)
            && Utf8.Valid(Apply(current, e))
  {
    LocatedIsNotEmpty(current, change);
    hide *;
    EditKeepsUtf8(current, Locate(current, change).edit, change.oldText, change.newText);
  }

  /** The empty anchor matches once only in an empty buffer. */
  lemma LocatedIsNotEmpty(current: ByteString, change: Change)
    requires Locate(current, change).Applied?
    ensures Locate(current, change).edit.oldLength > 0 || current == []
  {
    hide Utf8.Encode, FindFrom;
  }

  /** Whatever the list of changes, a valid file becomes a valid file: no later decode can fail. */
  lemma {:induction false} ApplyAllKeepsUtf8(before: ByteString, changes: seq<Change>)
    requires Utf8.Valid(before) && ApplyAll(before, changes).All?
    ensures Utf8.Valid(ApplyAll(before, changes).final)
  {
    if changes != [] {
      var last := |changes| - 1;
      ApplyAllKeepsUtf8(before, changes[..last]);
      LocatedEditKeepsUtf8(ApplyAll(before, changes[..last]).final, changes[last]);
    }
  }

  // ---------------------------------------------------------------- where the edits end up

  /** A recorded position: `text` is expected at `start`. */
  datatype Mark = Mark(start: nat, text: ByteString)

  /** The shift rule: a mark at or after the changed span moves by the length delta. */
  function Shift(m: Mark, e: Edit): Mark {
    if m.start >= e.offset + e.oldLength then Mark(m.start + |e.text| - e.oldLength, m.text) else m
  }

  function ShiftAll(marks: seq<Mark>, e: Edit): (shifted: seq<Mark>)
    ensures |shifted| == |marks|
  {
    seq(|marks|, i requires 0 <= i < |marks| => Shift(marks[i], e))
  }

  /** The marks after a whole log of edits, each in the coordinates of the last buffer. */
  function Recorded(log: seq<Edit>): (marks: seq<Mark>)
    ensures |marks| == |log|
  {
    if log == [] then []
    else
      var e := log[|log| - 1];
      ShiftAll(Recorded(log[..|log| - 1]), e) + [Mark(e.offset, e.text)]
  }

  /** How far the later edits that begin behind it have moved a mark, one after another. */
  function Moved(log: seq<Edit>, i: nat): int
    requires i < |log|
  {
    var last := |log| - 1;
    if i == last then 0
    else
      var e, at := log[last], Recorded(log[..last])[i].start;
      Moved(log[..last], i) + (if at >= e.offset + e.oldLength then |e.text| - e.oldLength else 0)
  }

  /** A recorded offset, stale or not, is where the edit was made, moved by the length of what changed before it. */
  lemma {:induction false} OffsetIsMoved(log: seq<Edit>, i: nat)
    requires i < |log|
    ensures Recorded(log)[i].start == log[i].offset + Moved(log, i)
    decreases |log|
  {
    var last := |log| - 1;
    if i < last {
      OffsetIsMoved(log[..last], i);
      assert log[..last][i] == log[i];
    }
  }

  /** Every edit of the log fits the buffer it was applied to. */
  predicate LogFits(s: ByteString, log: seq<Edit>)
    decreases |log|, 0
  {
    log == [] || (LogFits(s, log[..|log| - 1])
                  && Fits(Replay(s, log[..|log| - 1]), log[|log| - 1]))
  }

  function Replay(s: ByteString, log: seq<Edit>): ByteString
    requires LogFits(s, log)
    decreases |log|, 1
  {
    if log == [] then s else Apply(Replay(s, log[..|log| - 1]), log[|log| - 1])
  }

  lemma {:induction false} ApplyAllReplays(before: ByteString, changes: seq<Change>)
    requires ApplyAll(before, changes).All?
    ensures var out := ApplyAll(before, changes);
            LogFits(before, out.log) && Replay(before, out.log) == out.final
  {
    if changes != [] {
      var last := |changes| - 1;
      ApplyAllReplays(before, changes[..last]);
      var prefix := ApplyAll(before, changes[..last]);
      var log := ApplyAll(before, changes).log;
      assert log[..|log| - 1] == prefix.log;
    }
  }

  /** Where a byte of the final buffer came from. */
  datatype Origin = Original(at: nat) | Inserted(edit: nat, at: nat)

  function Fresh(edit: nat, length: nat): seq<Origin> {
    seq(length, k requires 0 <= k < length => Inserted(edit, k))
  }

  /** The origin of every byte of the final buffer. */
  function Origins(s: ByteString, log: seq<Edit>): (origins: seq<Origin>)
    requires LogFits(s, log)
    ensures |origins| == |Replay(s, log)|
  {
    if log == [] then seq(|s|, k requires 0 <= k < |s| => Original(k))
    else
      var last := |log| - 1;
      Splice(Origins(s, log[..last]), log[last], Fresh(last, |log[last].text|))
  }

  predicate OriginExists(s: ByteString, log: seq<Edit>, o: Origin) {
    match o
    case Original(at) => at < |s|
    case Inserted(i, at) => i < |log| && at < |log[i].text|
  }

  function ByteAt(s: ByteString, log: seq<Edit>, o: Origin): Byte
    requires OriginExists(s, log, o)
  {
    match o
    case Original(at) => s[at]
    case Inserted(i, at) => log[i].text[at]
  }

  /** Final byte `p` is the byte that its origin names. */
  predicate TrueAt(s: ByteString, log: seq<Edit>, bytes: ByteString, origins: seq<Origin>, p: nat)
    requires p < |bytes| && p < |origins|
  {
    OriginExists(s, log, origins[p]) && ByteAt(s, log, origins[p]) == bytes[p]
  }

  /** Nothing is invented: each final byte is the byte its origin names. */
  lemma {:induction false} OriginsAreTrue(s: ByteString, log: seq<Edit>, p: nat)
    requires LogFits(s, log) && p < |Replay(s, log)|
    ensures TrueAt(s, log, Replay(s, log), Origins(s, log), p)
  {
    if log != [] {
      var last := |log| - 1;
      var e := log[last];
      var bytes, origins := Replay(s, log[..last]), Origins(s, log[..last]);
      SpliceIs(bytes, e, e.text, p);
      SpliceIs(origins, e, Fresh(last, |e.text|), p);
      if !(e.offset <= p < e.offset + |e.text|) {
        var q := if p < e.offset then p else p - |e.text| + e.oldLength;
        OriginsAreTrue(s, log[..last], q);
        OriginKept(s, log, origins[q]);
      }
      hide Splice, OriginExists, ByteAt;
    }
  }

  /** What is outside the replaced range is kept, where it was or moved by the difference in length. */
  lemma SpliceIs<T>(s: seq<T>, e: Edit, inserted: seq<T>, p: nat)
    requires e.offset + e.oldLength <= |s| && p < |Splice(s, e, inserted)|
    ensures Splice(s, e, inserted)[p] ==
            if p < e.offset then s[p]
            else if p < e.offset + |inserted| then inserted[p - e.offset]
            else s[p - |inserted| + e.oldLength]
    ensures |Splice(s, e, inserted)| == |s| - e.oldLength + |inserted|
  {
  }

  /** A later edit does not change what an origin names. */
  lemma OriginKept(s: ByteString, log: seq<Edit>, o: Origin)
    requires log != [] && OriginExists(s, log[..|log| - 1], o)
    ensures OriginExists(s, log, o) && ByteAt(s, log, o) == ByteAt(s, log[..|log| - 1], o)
  {
  }

  /** The mark's own bytes and the replaced span do not overlap. */
  predicate Clear(m: Mark, e: Edit) {
    e.offset + e.oldLength <= m.start || m.start + |m.text| <= e.offset
  }

  /** No later replaced range overlapped the text that edit `i` inserted. */
  predicate Survives(log: seq<Edit>, i: nat)
    requires i < |log|
  {
    forall j :: i < j < |log| ==> Clear(Recorded(log[..j])[i], log[j])
  }

  /** The mark stands on exactly the bytes edit `i` inserted. */
  predicate StandsOn(origins: seq<Origin>, m: Mark, i: nat) {
    && m.start + |m.text| <= |origins|
    && forall k :: 0 <= k < |m.text| ==> origins[m.start + k] == Inserted(i, k)
  }

  lemma ShiftFollows(origins: seq<Origin>, m: Mark, i: nat, e: Edit, written: seq<Origin>)
    requires e.offset + e.oldLength <= |origins| && |written| == |e.text|
    requires StandsOn(origins, m, i) && Clear(m, e)
    ensures StandsOn(Splice(origins, e, written), Shift(m, e), i)
  {
    var after := Splice(origins, e, written);
    var moved := Shift(m, e);
    forall k | 0 <= k < |m.text|
      ensures after[moved.start + k] == Inserted(i, k)
    {
      assert after[moved.start + k] == origins[m.start + k];
    }
  }

  /** The shift rule keeps every surviving edit in final coordinates, on the very bytes it wrote. */
  lemma {:induction false} SurvivorsStand(s: ByteString, log: seq<Edit>, i: nat)
    requires LogFits(s, log) && i < |log| && Survives(log, i)
    ensures Recorded(log)[i].text == log[i].text
    ensures StandsOn(Origins(s, log), Recorded(log)[i], i)
    decreases |log|
  {
    hide Clear, Survives, Apply, StandsOn, Splice;
    var last := |log| - 1;
    if i < last {
      SurvivesEarlier(log, i);
      SurvivorsStand(s, log[..last], i);
      assert log[..last][i] == log[i];
      ShiftFollows(Origins(s, log[..last]), Recorded(log[..last])[i], i, log[last],
                   Fresh(last, |log[last].text|));
    } else {
      LastStands(Origins(s, log[..last]), log[last], last);
    }
  }

  /** What was just written stands where it was written. */
  lemma LastStands(origins: seq<Origin>, e: Edit, i: nat)
    requires e.offset + e.oldLength <= |origins|
    ensures StandsOn(Splice(origins, e, Fresh(i, |e.text|)), Mark(e.offset, e.text), i)
  {
  }

  lemma SurvivesEarlier(log: seq<Edit>, i: nat)
    requires i < |log| - 1 && Survives(log, i)
    ensures Survives(log[..|log| - 1], i)
    ensures Clear(Recorded(log[..|log| - 1])[i], log[|log| - 1])
  {
    hide Clear, Recorded;
    var last := |log| - 1;
    assert forall j :: i < j < last ==> log[..last][..j] == log[..j];
  }

  /** The recorded pair of a surviving edit marks exactly its text in the final buffer. */
  lemma SurvivorsAreMarked(s: ByteString, log: seq<Edit>, i: nat)
    requires LogFits(s, log) && i < |log| && Survives(log, i)
    ensures var m, final := Recorded(log)[i], Replay(s, log);
            m.start + |m.text| <= |final| && final[m.start..m.start + |m.text|] == log[i].text == m.text
  {
    hide *;
    SurvivorsStand(s, log, i);
    var m, final := Recorded(log)[i], Replay(s, log);
    StandsWithin(Origins(s, log), m, i);
    MarkedBytes(s, log, final, Origins(s, log), m, i);
  }

  lemma StandsWithin(origins: seq<Origin>, m: Mark, i: nat)
    requires StandsOn(origins, m, i)
    ensures m.start + |m.text| <= |origins|
  {
  }

  lemma MarkedBytes(s: ByteString, log: seq<Edit>, final: ByteString, origins: seq<Origin>, m: Mark, i: nat)
    requires LogFits(s, log) && final == Replay(s, log) && origins == Origins(s, log)
    requires i < |log| && m.text == log[i].text && StandsOn(origins, m, i)
    ensures final[m.start..m.start + |m.text|] == m.text
  {
    forall k | 0 <= k < |m.text|
      ensures final[m.start + k] == m.text[k]
    {
      assert origins[m.start + k] == Inserted(i, k);
      OriginsAreTrue(s, log, m.start + k);
    }
  }

  /** An overwritten edit keeps a stale offset, which can lie past the end of the final buffer. */
  lemma StaleOffsetCanPassTheEnd()
    ensures var s: ByteString := [120, 121, 122];
            var log := [Edit(2, 1, [90]), Edit(0, 3, [])];
            LogFits(s, log) && Replay(s, log) == [] && Recorded(log)[0].start == 2
  {
    var s: ByteString := [120, 121, 122];
    var log := [Edit(2, 1, [90]), Edit(0, 3, [])];
    assert log[..1] == [Edit(2, 1, [90])] && log[..1][..0] == [];
    assert Recorded(log[..1]) == [Mark(2, [90])];
  }
}
