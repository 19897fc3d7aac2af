# Verified model of the bounded code-edit engine

This project models the stateful core of satyrn-engine in Dafny and proves what its components keep
over whole runs. `dafny verify dfyconfig.toml` checks it.

| module | what it models |
|---|---|
| `Bytes`, `Utf8`, `Search`, `Lines`, `Records` | byte strings, UTF-8 (sections 3 and 4 of RFC 3629), `bytes.find`/`bytes.count`, lines and records |
| `Replacement`, `Region`, `ListMarker`, `Mutation` | the exact-replacement engine: one edit, a list of edits, the rendered view and its marker, the revision-checked file |
| `EditLines`, `EditText`, `Acceptance` | what that engine comes to: which lines a view shows, by the places of newlines; which text and marker; exactly when an exchange succeeds |
| `Budget`, `Counting`, `Stream` | the turn and token counter, its numbers as sums over the lines, and the chunked stream that must agree with a line-by-line count |
| `Delivery` | one attempt: registration, cleanup gate, teardown, validation, cleanup, create-only publication; and many attempts racing for a ref |
| `Receipts` | what a commit, a deletion and a receipt say of the log of the attempt, with the exit statuses and codes spelled out |
| `Pump`, `PipeRace` | Pi's output into two sinks with retries; and the two threads that share one pipe under a lock |
| `Validation` | the self-test, the final validation, and the run lists they build |
| `CanonicalJson`, `LoopBreaker`, `SessionRunner`, `Mutator` | the session's listeners: call keys and sliding window, self-test gates, revision cache |
| `SessionHistory` | exactly which messages a session sends, told from its history without the listeners' variables |
| `Supervisor`, `Settlement` | `runDelivery`: one event machine over spawn, error, close, data and timers; and what becomes of a delivery, told from the events alone |

Each object that the source updates in place is a class whose methods are proved equal to a transition
function on values, or to a log of events; the theorems over runs are about those functions and logs.
Text is a sequence of bytes, and SHA-256 is an injective function. What Git, the operating system, the
clock and the host answer is an argument, an event, or an arbitrary choice of a method, so the theorems
hold for every pattern of answers. Event order is arbitrary too: in `Supervisor` further events may even
arrive inside a signal being sent, and in `PipeRace` a run is any interleaving of the two threads' steps.

## Where the code does not do what is said of it

Each of these keeps the code as it is, names an input, and proves exactly when the promise holds.

- The anchor "must be unique" (`src/satyrn_engine/mutation.py:415`), but it is counted without overlaps: an
  anchor that overlaps itself can pass while matching twice. `count == 1` means a unique match in every
  buffer if and only if the anchor has no border.
- The clip of a view never splits a character, but it is not always the longest that fits: it drops one
  whole character too many exactly when the cut ends a multi-byte character.
- The marker under a clipped list of edits says that the change above is shown in full
  (`src/satyrn_engine/mutation.py:526-527`). Every changed line is there whole if and only if the text through
  the last changed line is shorter than 4000 bytes, or exactly as long and not ending in a multi-byte character.
- A final turn without a follow-up is meant to be excused by a pass, a refusal or an earlier message. That
  holds in every session if and only if no mutation lands while a self-test is in flight; otherwise the refusal
  of an older exchange can forget the failure of a newer one. It holds of every run without such a refusal.
- A steer tells the model that its self-test passes on the current tree (`packages/engine/runner.ts:335-336`). The
  green it follows is of that tree if and only if no mutation lands between the start of that self-test and the
  arrival of its result; it holds of every session if and only if none ever may.
- The session keys a path without its leading `@` and sends it with it, so such an edit is compared with the
  digest of another file. Edits stay current if and only if the key is the path the engine opens.
- In final validation a run that cannot be started hides a failure an earlier run already showed
  (`src/satyrn_engine/delivery.py:1639-1645`), although a later time-out does not.
- The self-test runs declared paths as declared and validation runs them once each: the two lists are equal
  if and only if no tracked declared path is repeated.
- The cleanup gate is meant to withhold a forced removal while the group lives. Behind a removal the group was
  seen gone if and only if the clock or a limit ended the watched run: of a command that exited by itself only
  the direct child is known to be gone (`src/satyrn_engine/delivery.py:914-920`). It does not ask about test commands:
  their groups were all seen gone if and only if none ended by itself and the one that overran was torn down safely,
  a result the code drops (`src/satyrn_engine/delivery.py:1485-1488`).
- A refused delivery is meant to be settled once its child has closed. A poll can settle it if and only if it is
  in group mode with a usable pid and the start was observed or failed. One whose close came before its start
  waits, with no timer armed, for the start or its error; a spawned group without a usable pid is never settled.
- The lines written to the shared pipe are read back one for one in every run if and only if neither stream ends
  in the middle of a line while the other holds anything.

## Model

| member | source | states |
|---|---|---|
| `Utf8.BoundarySplits` | src/satyrn_engine/mutation.py:131-140 | in valid text a byte position is a character boundary if and only if both halves are valid text |
| `Utf8.ReplacementStaysValid` | src/satyrn_engine/mutation.py:388-419 | a non-empty valid anchor can only match valid text on character boundaries, and replacing the match by valid text leaves valid text |
| `Utf8.EncodeThenDecode` | src/satyrn_engine/mutation.py:372-376 | whatever text encodes, the bytes are valid UTF-8 and decode to that text |
| `Utf8.DecodeThenEncode` | src/satyrn_engine/mutation.py:328 | valid bytes decode to a text that encodes to exactly those bytes |
| `Utf8.EncodeFailsOnSurrogate` | src/satyrn_engine/mutation.py:372-376 | a text fails to encode exactly when it holds a surrogate |
| `Utf8.ClipToBytes` | src/satyrn_engine/mutation.py:131-140 | the clip is a valid prefix within the limit, loses at most four bytes of it, and is exactly the longest one, or the longest below the limit when the cut falls just after a multi-byte character |
| `Utf8.ClippedToIsUnique` | src/satyrn_engine/mutation.py:131-140 | that fixes the clip |
| `Utf8.ClipReaches` | src/satyrn_engine/mutation.py:131-140 | a clip reaches a boundary below the limit, and one at the limit if and only if it does not end a multi-byte character |
| `Utf8.ClipCanDropWholeChar` | src/satyrn_engine/mutation.py:131-140 | the input that loses a character that fits |
| `Search.CountZero` | src/satyrn_engine/mutation.py:389-409 | the non-overlapping count is zero exactly when the anchor occurs nowhere |
| `Search.CountOne` | src/satyrn_engine/mutation.py:388-411 | a count of one makes the first match exist, and every other match overlaps it |
| `Search.CountIsMost` | src/satyrn_engine/mutation.py:389-416 | the count is the largest number of places with the anchor that do not overlap |
| `Search.CountOneIsUniqueIffUnbordered` | src/satyrn_engine/mutation.py:389-416 | `count == 1` promises a unique match in every buffer if and only if the anchor does not overlap itself |
| `Search.AcceptedAnchorCanMatchTwice` | src/satyrn_engine/mutation.py:389-416 | the input that breaks the promise: `aa` is accepted in `aaa`, where it matches twice |
| `Lines.LineCount` | src/satyrn_engine/mutation.py:207-210 | the number of shown lines is the number of newlines plus one for an unterminated end |
| `Lines.LinesRebuildText` | src/satyrn_engine/mutation.py:207-209 | splitting on newline alone, with the last empty part dropped, loses nothing of the text |
| `Lines.ByteIsOnItsLine` | src/satyrn_engine/mutation.py:126-128 | the line number computed for an offset is the index of the split part that holds that byte |
| `Replacement.Locate` | src/satyrn_engine/mutation.py:359-419 | an applied change names the first span of the buffer that is exactly the encoded old text, and carries the encoded new text |
| `Replacement.RefusalsAreTrue` | src/satyrn_engine/mutation.py:378-416 | exactly when each code is given: no change requested if and only if the texts are equal; applied if and only if they differ and the anchor is counted once; missing or already applied if and only if it is nowhere; ambiguous if and only if counted at least twice, with that count; an already applied text is named by the line of its first place |
| `Replacement.SurrogateIsRefused` | src/satyrn_engine/mutation.py:372-376 | a text that UTF-8 cannot carry is refused, whatever the buffer, and nothing else is refused so |
| `Replacement.SpliceIs` | src/satyrn_engine/mutation.py:418-419 | byte for byte, what is outside the replaced range is kept, moved by the difference in length |
| `Replacement.FailedAtIsFirst` | src/satyrn_engine/mutation.py:574-577 | the reported failing change is the first that cannot apply: all before it do |
| `Replacement.FailureIsFinal` | src/satyrn_engine/mutation.py:574-577 | nothing after the failing change is looked at |
| `Replacement.LocatedEditKeepsUtf8` | src/satyrn_engine/mutation.py:388-419 | an accepted edit starts and ends on character boundaries and leaves valid UTF-8 |
| `Replacement.ApplyAllKeepsUtf8` | src/satyrn_engine/mutation.py:565-587 | for any list of changes a valid file becomes a valid file, so the later decodes cannot fail |
| `Replacement.ApplyAllReplays` | src/satyrn_engine/mutation.py:565-587 | the log of applied edits fits the buffers it was applied to and replays to the final bytes |
| `Replacement.OriginsAreTrue` | src/satyrn_engine/mutation.py:418-419 | every byte of the final buffer is the byte its recorded origin names, in the original or in one inserted text |
| `Replacement.SurvivorsStand` | src/satyrn_engine/mutation.py:580-586 | the re-based offset of an edit no later range overlapped stands on the very bytes that edit wrote |
| `Replacement.OffsetIsMoved` | src/satyrn_engine/mutation.py:580-586 | every recorded offset, of an overwritten edit too, is where the edit was made, moved by the lengths of what later changed before it |
| `Replacement.SurvivorsAreMarked` | src/satyrn_engine/mutation.py:565-587 | after any sequence of edits every such (offset, text) pair marks exactly its text in the final buffer |
| `Replacement.StaleOffsetCanPassTheEnd` | src/satyrn_engine/mutation.py:507-511 | an overwritten edit keeps an offset that can lie past the end of the final buffer |
| `Region.BalancedIsUnique` | src/satyrn_engine/mutation.py:143-180 | at most one split of a given number of context lines is balanced |
| `Region.BalancedIsHalves` | src/satyrn_engine/mutation.py:143-180 | it gives each side half, the odd line before the change, unless one side wants less and the other has the rest |
| `Region.BalancedGrow` | src/satyrn_engine/mutation.py:143-161 | the split is the balanced one and uses the whole budget that is wanted |
| `Region.BalancedShrink` | src/satyrn_engine/mutation.py:164-180 | what is left is balanced against what was held, and exactly the excess is gone |
| `Region.TrimToBytes` | src/satyrn_engine/mutation.py:265-274 | the byte loop ends within the cap, stays balanced, and gives back no line that still fitted |
| `Region.WindowAround` | src/satyrn_engine/mutation.py:240-278 | a change that fits is shown whole, at most 40 lines and 4000 bytes; the context marker is there exactly when a side has fewer than its up to three lines, and only because one more line breaks a cap |
| `Region.PostEditRegion` | src/satyrn_engine/mutation.py:183-278 | the view of one edit: nothing for an empty file, the window of a change that fits, otherwise the clip of the change under the change marker |
| `Region.InsertedBytesAreShown` | src/satyrn_engine/mutation.py:183-278 | unless the change marker is there, the line of every inserted byte is shown whole under its true number |
| `Region.DigitsReadBack` | src/satyrn_engine/mutation.py:223-224 | the rendered line number can be read back |
| `Region.MergeWindows` | src/satyrn_engine/mutation.py:514-520 | the in-place loop computes the merge; the blocks are in order, inside the file, at least one hidden line apart, and cover exactly the union of the windows |
| `Region.PostEditRegions` | src/satyrn_engine/mutation.py:467-528 | the view of a list: separated blocks covering exactly the windows of all edits, even at stale offsets, and of the text over 4000 bytes exactly its clip |
| `Region.EachLineOnce` | src/satyrn_engine/mutation.py:514-525 | the line numbers shown strictly increase: no line is rendered twice |
| `Region.ViewIsBounded` | src/satyrn_engine/mutation.py:482-492 | whatever the edits, the text shown is at most 4000 bytes, one newline and one marker |
| `Region.SurvivorsAreShown` | src/satyrn_engine/mutation.py:494-528 | every byte a surviving edit wrote lies on a line of some block of the view |
| `Region.ListViewIsFixed` | src/satyrn_engine/mutation.py:498-528 | of several edits exactly one view satisfies the contract: the blocks and every byte of the body are determined |
| `EditLines.SpanIsByNewlines` | src/satyrn_engine/mutation.py:199-221 | the changed lines start one line below as many newlines as lie before the mark, end as many lines later as the text has newlines, and both ends are clamped to the lines there are |
| `EditLines.EditIsShown` | src/satyrn_engine/mutation.py:183-278 | one edit, a deletion too: from at most three lines before to at most three lines after its changed lines, at most 40 lines and 4000 bytes; without a marker all of these, under the change marker the first 40 changed lines |
| `EditLines.NearLinesAreShown` | src/satyrn_engine/mutation.py:507-525 | of several edits a line is in a block if and only if it is changed by one of them or at most three lines away, deletions included |
| `EditText.MarkerTells` | src/satyrn_engine/mutation.py:240-278 | the change marker is there if and only if the changed lines are more than 40 or render to more than 4000 bytes; no marker is there if and only if they fit together with all of their context |
| `EditText.EditTextLines` | src/satyrn_engine/mutation.py:223-278 | split at newlines, the text of one edit is the numbered lines of the file and then its marker on a line of its own |
| `EditText.ListTextLines` | src/satyrn_engine/mutation.py:521-528 | split at newlines, the text of several edits is exactly the rows of their blocks if that fits 4000 bytes; otherwise a beginning of them and then the marker |
| `ListMarker.RowShowsLine` | src/satyrn_engine/mutation.py:522-525 | the row of a covered line is that line, whole and under its true number |
| `ListMarker.TextEndsWithLine` | src/satyrn_engine/mutation.py:522-525 | the text through a shown line begins the whole text, ends with that line, and ends on a character boundary |
| `ListMarker.LastChangedIsLast` | src/satyrn_engine/mutation.py:507-511 | the last changed line is one that some edit changed, and no later one is |
| `ListMarker.MarkerIsTrueIffCapReaches` | src/satyrn_engine/mutation.py:526-528 | in a clipped view every changed line lies whole in the body, as the marker says, if and only if the text through the last changed line is shorter than the cap, or as long and not ending there in a multi-byte character |
| `ListMarker.ClippedListOverclaims` | src/satyrn_engine/mutation.py:526-528 | the input that breaks it: two changes that apply and survive, and a marker over a body that cuts them |
| `Mutation.Disk.AtomicReplace` | src/satyrn_engine/mutation.py:624-647 | the file is replaced by exactly the content, or nothing changed |
| `Mutation.Disk.ReplaceOnce` | src/satyrn_engine/mutation.py:422-456 | the files and the receipt are those of the specification, a refusal changes no byte, and a success returns the view of its own edit |
| `Mutation.Disk.ReplaceMany` | src/satyrn_engine/mutation.py:531-603 | the same for a list, written once |
| `Mutation.ApplyInOrder` | src/satyrn_engine/mutation.py:564-587 | the loop computes the final bytes and every re-based mark, or stops at the first change that fails and names it 1-based |
| `Mutation.ChainFollowsList` | src/satyrn_engine/mutation.py:422-456 | a chain of single replacements, each fed the previous digest, follows the in-memory list step by step |
| `Mutation.ManyIsAllOrNothingChain` | src/satyrn_engine/mutation.py:531-603 | one exchange of 1 to 16 replacements succeeds exactly when the chain would, with the same files and digest; otherwise it names the same failing change and changes nothing |
| `Acceptance.SafeIffItsOwnWalk` | src/satyrn_engine/mutation.py:106-118 | a path passes if and only if it names, component for component, the place that walking it from the root comes to |
| `Acceptance.PreparedIffCurrent` | src/satyrn_engine/mutation.py:291-358 | a file is opened for change if and only if it is the captured revision of a declared, readable text file; and exactly when each refusal before that is given |
| `Acceptance.OnceSucceedsIff` | src/satyrn_engine/mutation.py:422-456 | one replacement succeeds if and only if the revision is current, the anchor is counted once and the write succeeds; the file then holds the replaced bytes and the receipt their digest; a refusal changes nothing |
| `Acceptance.ManySucceedIff` | src/satyrn_engine/mutation.py:531-603 | a list succeeds if and only if it has 1 to 16 changes, the revision is current, all of them apply and the write succeeds |
| `Budget.TurnCounter.Feed` | src/satyrn_engine/budget.py:105-135 | one line moves the counter by exactly the event it carries; an error is raised before anything is counted |
| `Budget.OneEventTripsOneLimit` | src/satyrn_engine/budget.py:146-173 | from a spend within limits the live check and `evaluate`, which look in different orders, agree after any one event, and a turn trip is at exactly limit + 1 |
| `Counting.CountsAreSums` | src/satyrn_engine/budget.py:105-135 | over lines that do not raise, tokens out are the sum of the non-negative integer `output` fields of the assistant's usage and tokens in of its `input` fields; turns, tool calls and each guard's firings are the number of lines with that event |
| `Counting.StopsAtFirstExcess` | src/satyrn_engine/delivery.py:1249-1258 | the live count stops behind the first line with which these numbers exceed a limit, names that limit, and without one counts everything |
| `Counting.VerdictIsOfTheNumbers` | src/satyrn_engine/budget.py:146-173 | exactly when `evaluate` gives each verdict: tokens over the limit weigh more than turns, turns more than time |
| `Stream.ConsumeChunk` | src/satyrn_engine/delivery.py:1234-1258 | the chunk is spooled whole and its complete lines are counted as the buffered scan says |
| `Stream.DrainAppend` | src/satyrn_engine/delivery.py:1249-1258 | bytes that arrive later do not change what was counted before them |
| `Stream.TripIsFinal` | src/satyrn_engine/delivery.py:1254-1257 | a scan that trips has counted the fold of the whole stream up to the tripping line, whatever follows |
| `Stream.StreamLoop` | src/satyrn_engine/delivery.py:1298-1342 | at every exit the spool is the concatenation of the chunks read and the counter is in step with it; every pass but the last was before both clocks, and the last one says which of exit, deadline, time-out or limit ended the loop |
| `Stream.StreamImplementer` | src/satyrn_engine/delivery.py:1261-1368 | the outcome, the spool and the counter are those of the scan of the bytes read, stopped at the first line that crosses a limit or raises; a deadline or a time-out is named exactly at the first pass whose clock is past it; a run that exits before either has been read to the end unless a limit stopped it |
| `Stream.CountSpool` | src/satyrn_engine/delivery.py:312-320 | reading the spool back counts every line of it up to the first that raises |
| `Stream.LiveCountIsFold` | src/satyrn_engine/delivery.py:1298-1359 | for any chunking, a run not ended by the clock has counted the line fold of the bytes read, stopped at the first line that crosses a limit or raises; a limit that is named is `evaluate` of the spend; untripped, the counter equals the count of the spool |
| `Stream.LiveCountIsFoldOfWholeStream` | src/satyrn_engine/delivery.py:1298-1359 | if a complete line ended the scan, or everything was read, the same holds of the whole stream |
| `Stream.RaisedHoldsWhatWasRead` | src/satyrn_engine/budget.py:125-135 | a line that raises, unterminated or not, ends the run: the spool holds every chunk that was read, the last one whole, and the counter is the fold of exactly the lines before that one |
| `Stream.EndsOneWay` | src/satyrn_engine/delivery.py:1298-1359 | a run ends one way: a time-out and an exhausted budget exclude each other |
| `Stream.DeadlineIsEvaluated` | src/satyrn_engine/delivery.py:1301-1320 | at a deadline the named state is `evaluate` of what had been counted |
| `Delivery.Attempt.PollGroup` | src/satyrn_engine/delivery.py:1859-1868 | the polls go on only while the group is seen present, and stop at the first other answer; there are at most 100, and a group left as present was waited for 5 seconds |
| `Delivery.Attempt.StopGroup` | src/satyrn_engine/delivery.py:1854-1872 | TERM first, then the polls, then KILL at most once and exactly when the group was not last seen gone |
| `Receipts.StopsInOrder` | src/satyrn_engine/delivery.py:1854-1872 | those signals in the log: TERM first and once, a look only at a group just seen present, KILL last and only at one not just seen gone, and they end with KILL or with a group seen gone |
| `Delivery.Attempt.TeardownProcessGroup` | src/satyrn_engine/delivery.py:1854-1882 | after every pattern of answers and raises the group, of the implementer or of a test command, is known to have ended if and only if the result is cleanup-safe |
| `Delivery.Attempt.ApplyTeardown` | src/satyrn_engine/delivery.py:1885-1889 | the gate opens exactly for a cleanup-safe result |
| `Delivery.Attempt.ObserveRegistration` | src/satyrn_engine/delivery.py:235-242 | absence is recorded only when Git said so |
| `Delivery.WatchImplementer` | src/satyrn_engine/delivery.py:898-912 | what the watch over the implementer can report: a time-out and an exhausted budget exclude each other, and without a declared budget there is only a time-out |
| `Delivery.Attempt.RunImplementer` | src/satyrn_engine/delivery.py:858-932 | at every exit, a raise included, the gate says exactly what the signals establish; it is open if nothing was started or the command ended alone |
| `Delivery.Attempt.RunAndCommit` | src/satyrn_engine/delivery.py:858-1221 | a candidate commit is made only from a kept run, a detached HEAD and a changed tree, and the code names what was seen |
| `Delivery.Attempt.RunTestCommand` | src/satyrn_engine/delivery.py:1444-1494 | one test run: it could not be started, its child ended by itself, or it overran and was torn down, and then what the teardown saw moves nothing but what is known of that group |
| `Delivery.Attempt.RunTests` | src/satyrn_engine/delivery.py:1633-1678 | the runs stop at the first that does not complete; the verdict is unavailable exactly if that one could not be started; a pass means that every run of the list was started and exited by itself |
| `Delivery.Attempt.ValidateCandidate` | src/satyrn_engine/delivery.py:1539-1678 | validation changes the code only from OK to TESTS_FAILED, exactly on a failed verdict, and never touches the commit |
| `Delivery.Attempt.RemoveWorktree` | src/satyrn_engine/delivery.py:1681-1690 | success is reported exactly when Git no longer lists the worktree, whatever the removal itself returned |
| `Delivery.Attempt.CleanupAttempt` | src/satyrn_engine/delivery.py:1693-1710 | behind a closed gate nothing is done; otherwise success means nothing of the attempt is left |
| `Delivery.Attempt.Publish` | src/satyrn_engine/delivery.py:1370-1426 | the pending receipt is returned exactly when the create-only write succeeded |
| `Delivery.Attempt.TryAttempt` | src/satyrn_engine/delivery.py:756-826 | the body under `finally`: what is retained on purpose is exactly what a failed cleanup left |
| `Delivery.Attempt.Run` | src/satyrn_engine/delivery.py:756-839 | for every pattern of failures: the log is safe, a receipt is candidate-created exactly when the ref was written, CLEANUP_FAILED exactly when something is left, and a raise leaves nothing behind unless it was diagnosed; a code that blames Git, the command or the ref is given only if such a call failed, and so is a raise |
| `Receipts.CommitIsEarned` | src/satyrn_engine/delivery.py:945-977 | in every safe log a commit is preceded by a run in time that its budget ended or that exited with 0 or 15, by a detached HEAD and by a tree that differs; it is the only one |
| `Receipts.TestsFollowTheCommit` | src/satyrn_engine/delivery.py:1539-1678 | a test command is started, and a verdict given, only with the candidate commit made and before there is a verdict |
| `Receipts.DeletedOnceUnlisted` | src/satyrn_engine/delivery.py:1693-1710 | the directory is deleted only after Git, last asked, no longer listed the worktree, or was never asked to add one |
| `Receipts.ReceiptIsLogged` | src/satyrn_engine/delivery.py:756-1221 | the receipt against the log: candidate-created if and only if the ref was written, the commit if and only if it was made, CLEANUP_FAILED if and only if the directory is still there, and otherwise a code that says how the run ended, COMMAND_FAILED exactly for a run left alone with a status other than 0 and 15 |
| `Receipts.CodeIsDetermined` | src/satyrn_engine/delivery.py:933-1221 | unless a call failed or something was left behind, the logged run, its tree and the verdict leave one code |
| `Receipts.CleanIsDeleted` | src/satyrn_engine/delivery.py:1693-1710 | nothing of the attempt is left if and only if its directory was deleted |
| `Delivery.KnownSnoc` | src/satyrn_engine/delivery.py:873-929 | one more lawful event keeps the log safe and adds exactly its own fact |
| `Delivery.ProcessIsEvident` | src/satyrn_engine/delivery.py:873-929 | in a safe log what is known of the process is exactly the evidence since its start: a refused start, an exit of the child's own, or the group seen gone after a reap |
| `Delivery.QuietHasEvidence` | src/satyrn_engine/delivery.py:914-929 | the gate's condition holds if and only if there is one of the three since the start |
| `Delivery.RemovalHasEvidence` | src/satyrn_engine/delivery.py:1693-1710 | in every safe log each forced removal, deletion and publication has that evidence for every start before it; the group itself was seen gone if and only if the start was not refused and the child did not exit by itself, which for a watched run means that the clock or a limit ended it |
| `Delivery.RemovalWithoutALook` | src/satyrn_engine/delivery.py:914-920 | after any safe log up to the start, a command that ends by itself: its worktree is removed without its group having been seen gone |
| `Delivery.RemovalWithoutALookHappens` | src/satyrn_engine/delivery.py:914-920 | the shortest such log |
| `Delivery.TestRunIsEvident` | src/satyrn_engine/delivery.py:1444-1494 | a test run ends at most one way, what is known of the last is its evidence, and every run before it ended by itself |
| `Delivery.TestGroupsSeenGoneIff` | src/satyrn_engine/delivery.py:1483-1494 | in every safe log: of every test run that was not refused the group was seen gone, if and only if no test command ended by itself and the teardown of the one that overran, if any, was cleanup-safe |
| `Delivery.PublishedBesideATestGroup` | src/satyrn_engine/delivery.py:1485-1488 | the log of a published candidate whose worktree is removed while the group of a test command that overran was last seen present |
| `Delivery.PublishedAlone` | src/satyrn_engine/delivery.py:792-826 | the ref is written at most once, for the commit made, with nothing of the attempt left; nothing is listed, started, removed, committed or written afterwards |
| `Delivery.OneWriter` | src/satyrn_engine/delivery.py:1370-1380 | no two steps of any history create the same ref |
| `Delivery.RaceHasOneWinner` | src/satyrn_engine/delivery.py:1370-1426 | over any interleaving of any number of deliveries and outside ref creations, at most one delivery for a ref ends candidate-created, and the ref ends at its commit |
| `Receipts.OwnIsInOrder` | src/satyrn_engine/delivery.py:756-839 | among many deliveries the log of one is exactly its own steps, in their order |
| `Pump.WriteRetrying` | src/satyrn_engine/attempt.py:309-359 | the sink takes exactly a prefix of the data, all of it on success; giving up means the deadline has passed |
| `Pump.FlushRetrying` | src/satyrn_engine/attempt.py:362-392 | retrying the flush never writes a byte twice; success empties the buffer, giving up means the deadline has passed |
| `Pump.Deliver` | src/satyrn_engine/attempt.py:614-637 | one line: a live sink gains exactly it, a failing one a prefix of it, a failed one is not touched; a sink fails only if it broke or 30 seconds passed, and no wait for it begins after those |
| `Pump.PumpAll` | src/satyrn_engine/attempt.py:576-639 | whatever the other sink does, a sink that never fails ends with exactly Pi's bytes in order and nothing buffered; a failed one holds a prefix, and it failed by an error of its own or after the time bound |
| `Pump.Surfaced` | src/satyrn_engine/attempt.py:666-673 | Pi's exit status is reported only with the pipe and the transcript sound |
| `Pump.RunPi` | src/satyrn_engine/attempt.py:480-673 | an attempt judged by Pi's exit status always has Pi's whole output in its transcript |
| `Records.RecordsRebuild` | src/satyrn_engine/attempt.py:548-575 | the records of a stream laid end to end are the stream |
| `Records.DrainRecords` | src/satyrn_engine/attempt.py:559-575 | the drain relays the same records however the bytes arrive in chunks |
| `Records.ReadBackIffTerminated` | src/satyrn_engine/attempt.py:548-556 | records written one after another are read back as written if and only if all but the last end in a newline |
| `PipeRace.StepKeeps` | src/satyrn_engine/attempt.py:533-558 | every step of either thread keeps the pipe an interleaving of whole records plus the lock holder's part |
| `PipeRace.PipeInterleavesRecords` | src/satyrn_engine/attempt.py:513-639 | in every run the pipe is an interleaving of the two threads' records, each contiguous and in order, and then part of the lock holder's; a record is torn only as the last of a thread that stopped |
| `PipeRace.ReaderSeesWholeLines` | src/satyrn_engine/attempt.py:513-639 | with no sink failed the reader gets back exactly the lines written if and only if none but the last written is unterminated |
| `PipeRace.AlwaysReadBackIffCannotMerge` | src/satyrn_engine/attempt.py:513-639 | every undisturbed run over two streams is read back as written if and only if neither stream ends in the middle of a line while the other holds anything |
| `PipeRace.MergingRun` | src/satyrn_engine/attempt.py:574-575 | where one does, the run that merges: all of that stream, in as many pieces as it takes, and then a record of the other |
| `PipeRace.UnterminatedLineMerges` | src/satyrn_engine/attempt.py:574-575 | the run that breaks it: an unterminated last line of one stream and a line of the other are read as one |
| `Validation.RunSelfTest` | src/satyrn_engine/runner.py:347-381 | the self-test reports the first non-zero exit of the completed runs and whether one timed out, within the time bound |
| `Validation.ValidateCandidate` | src/satyrn_engine/delivery.py:1620-1678 | the verdict: the first failure, even if a later run times out; unavailable if a run cannot start; within T + 0.1 (k - 1) seconds |
| `Validation.ResultsAreFixed` | src/satyrn_engine/runner.py:347-381 | the outcomes leave exactly one report and one verdict |
| `Validation.VerdictsAgree` | src/satyrn_engine/delivery.py:1608-1678 | over the same outcomes validation passes exactly when the self-test reports exit 0 in time, and fails with a code exactly when that is the first non-zero exit and the list was not stopped by an unavailable run |
| `Validation.UnavailableHidesFailure` | src/satyrn_engine/delivery.py:1639-1645 | a run that cannot be started hides a failure already known |
| `Validation.CarriedParts` | src/satyrn_engine/delivery.py:338-341 | the two parts validation picks from the carried set are the tracked declared paths without repeats |
| `Validation.BareCommandFirst` | src/satyrn_engine/delivery.py:1608-1613 | both judges run the bare declared command first, then once with each carried part that is not empty |
| `Validation.SameRunsIffNoRepeats` | src/satyrn_engine/runner.py:212-229 | self-test and validation run the same lists if and only if no tracked declared path is repeated |
| `Validation.RepeatedPathRunsDiffer` | src/satyrn_engine/runner.py:338-345 | the input that breaks it: one preserved path declared twice |
| `CanonicalJson.CanonicalMeans` | packages/engine/engine.ts:54-97 | the canonical form is the same value with every object's entries in the order of their keys |
| `CanonicalJson.NormalIsUnique` | packages/engine/engine.ts:83-93 | a value in canonical form is determined by what it means |
| `CanonicalJson.CanonicalIffSameMeaning` | packages/engine/engine.ts:54-97 | two inputs have one canonical form if and only if they are equal up to key order |
| `CanonicalJson.CanonicalIffSerializable` | packages/engine/engine.ts:54-97 | there is no canonical form exactly when something in the input is not JSON |
| `LoopBreaker.SameKeyIffSameCall` | packages/engine/engine.ts:126-134 | before one workspace two calls share a key if and only if tool and input are the same up to key order |
| `LoopBreaker.ChangeMovesKeys` | packages/engine/engine.ts:99-134 | a landed edit moves a call's key if and only if the call names no path or that one, and the revision is a new one |
| `LoopBreaker.Breaker.Inspect` | packages/engine/engine.ts:145-182 | the call is refused exactly when its key is five times in the window; the reported count is the refusals since the key was last absent from it |
| `LoopBreaker.CountIsSinceAbsence` | packages/engine/engine.ts:145-182 | that count is the number of refusals of the key from the last moment on at which the window did not hold it |
| `LoopBreaker.Breaker.OnToolCall` | packages/engine/engine.ts:301-323 | refused calls end the turn exactly from the third refusal in a row on |
| `LoopBreaker.TrailingAreLast` | packages/engine/engine.ts:301-323 | which is to say, exactly if the last three calls were refused |
| `LoopBreaker.Breaker.NoteChange` | packages/engine/engine.ts:184-241 | only the revision map changes; the window and the counts stand |
| `LoopBreaker.AnyWindowHoldsAtMostFive` | packages/engine/engine.ts:154-181 | in every run any 21 consecutive admitted calls hold at most five with one key |
| `LoopBreaker.AdmittedIffSeenFewerThanFive` | packages/engine/engine.ts:154-181 | a call is admitted if and only if fewer than five of the last twenty admitted calls had its key |
| `LoopBreaker.PathIsEntry` | packages/engine/engine.ts:99-125 | the path a key is bound to is the text under `path`, wherever it stands in the input |
| `LoopBreaker.AdmittedSharePerKey` | packages/engine/engine.ts:154-181 | so at most 5 times ceiling(n / 21) among the n calls a run admitted |
| `LoopBreaker.FewKeysRunDry` | packages/engine/engine.ts:154-181 | a run over d of at most four keys admits at most 5 d calls ever |
| `SessionRunner.Runner.EndTest` | packages/engine/runner.ts:426-439 | the end of an exchange moves the variables as the transition does; a refusal forgets the verdict |
| `SessionRunner.Runner.OnBashResult` | packages/engine/runner.ts:478-484 | a shell result is tested only after a mutation, at an unchecked generation, with a summary |
| `SessionRunner.Runner.OnTestResult` | packages/engine/runner.ts:464-476 | one steer per source generation, only on green |
| `SessionRunner.Runner.RunEnforcedGate` | packages/engine/runner.ts:521-556 | the enforced gate as a transition, told-mark included |
| `SessionRunner.Runner.RunRedStopGate` | packages/engine/runner.ts:568-603 | the red-stop gate as a transition; a refusal marks the generation and forgets the verdict |
| `SessionRunner.Runner.OnTurnEnd` | packages/engine/runner.ts:510-618 | the gates in order, then the resume, which a message of a gate suppresses; when it is sent is `SessionHistory.TurnEndSends` |
| `SessionRunner.MessagesAreBounded` | packages/engine/runner.ts:467-618 | over any session with G landed mutations at most G + 3 of the messages sent are not steers: one red message per generation and two resumes; at most one steer per source generation; at most 2 G + 3 messages in all |
| `SessionRunner.OneMessagePerEvent` | packages/engine/runner.ts:467-618 | an event sends at most one message, and none is withdrawn; a steer is sent only on the green result of a finished exchange and names the source generation; a red message only at a final turn |
| `SessionHistory.VariablesAreHistory` | packages/engine/runner.ts:399-618 | in every session each variable of the listeners is a function of the exchanges finished and the messages sent |
| `SessionHistory.TurnEndSends` | packages/engine/runner.ts:510-618 | what a turn end runs and sends, exactly: an enforced self-test if the model stops over a generation not tested since, a red-stop one over a generation found red and not told of, a red message if and only if that fails, and otherwise a resume if and only if the turn was cut by length without a tool call and fewer than two came before |
| `SessionHistory.ResultSendsSteer` | packages/engine/runner.ts:464-509 | a result sends a steer if and only if it is of a green run, a source path was changed, and no steer was sent since the last such change |
| `SessionHistory.OtherEventsSendNothing` | packages/engine/runner.ts:399-509 | the other events send nothing; a call or a summary over an untested mutation starts an exchange at the generation of that moment, and its end finishes it as started |
| `SessionRunner.EverySteerFollowsGreen` | packages/engine/runner.ts:464-509 | over any session every steer follows a green exchange that a model's call or a shell result started in the same turn, start, end and result alike: never a gate's own |
| `SessionRunner.SteerIsCurrentIffNothingLanded` | packages/engine/runner.ts:464-509 | that green is of the generation current at the steer if and only if no mutation landed between the start of the exchange and its result |
| `SessionRunner.SteersAreCurrentIffNothingLands` | packages/engine/runner.ts:464-509 | every steer of every session is about the tree as it is then if and only if no mutation may land between the start of a self-test and its result |
| `SessionRunner.LateSteerIsStale` | packages/engine/runner.ts:467-476 | the run that breaks it: a mutation lands after a green self-test ended and before its result is looked at |
| `SessionRunner.LastPassedIsVerdictOfLastRun` | packages/engine/runner.ts:399-411 | a remembered verdict is that of the last completed run, at `lastAt`, which never exceeds the generation |
| `SessionRunner.SilenceIsExcusedIffSerial` | packages/engine/runner.ts:521-603 | a final turn without a follow-up is always excused (the latest self-test here passed, one here was refused, or the model was told) if and only if no mutation may land while a self-test is in flight |
| `SessionRunner.TimelySilenceIsExcused` | packages/engine/runner.ts:521-603 | overlapping or not, it is excused in every run in which no exchange is refused after a mutation landed under it |
| `SessionRunner.OverlappingRunIsUnexcused` | packages/engine/runner.ts:426-439 | the run that breaks it: an older self-test is refused after a newer one failed |
| `Mutator.Mutator.Execute` | packages/engine/mutator.ts:395-442 | the cache, the disk and the requests move as the transition does; a poisoned context answers nothing |
| `Mutator.Mutator.NoteWrite` | packages/engine/mutator.ts:443-446 | a native write inside the repository is tracked under its key |
| `Mutator.CacheAgreesWithDisk` | packages/engine/mutator.ts:386-447 | in any sequential run of edits and native writes with no indeterminate outcome each tracked digest is that of the bytes on disk, and no edit is refused as stale, for paths keyed as the engine opens them |
| `Mutator.NothingIsForgotten` | packages/engine/mutator.ts:395-446 | no event makes the cache forget a key |
| `Mutator.ChangeIsTracked` | packages/engine/mutator.ts:433-446 | an edit that succeeded and a native write leave the digest of the new bytes under their key |
| `Mutator.NextEditIsSentCurrent` | packages/engine/mutator.ts:395-442 | after any such run the next edit is sent with the digest of the bytes on disk if its key was ever captured, edited or written, and without one otherwise |
| `Mutator.NextEditSucceedsIff` | packages/engine/mutator.ts:395-442 | it gets one receipt, a success if and only if its key is tracked, the file can be opened, all of 1 to 16 changes apply and the write succeeds; then the file holds exactly the result, and otherwise nothing changed |
| `Mutator.WrittenStaysTracked` | packages/engine/mutator.ts:443-446 | in every run a path that was written natively stays tracked |
| `Mutator.PoisonIsFinal` | packages/engine/mutator.ts:393-401 | after an indeterminate outcome no later edit sends a request, whatever follows |
| `Mutator.IndeterminatePoisons` | packages/engine/mutator.ts:420-432 | a broken exchange or a foreign path poisons the context |
| `Mutator.EditsStayCurrentIffKeyIsPath` | packages/engine/mutator.ts:417-433 | for an accepted path edits stay current if and only if the cache keys it by the path the engine opens |
| `Mutator.AtPathIsNotCurrent` | packages/engine/paths.ts:7 | the path that breaks it: a leading `@`, which the key loses and the engine keeps |
| `Supervisor.Supervisor.FinishPendingRefusal` | packages/engine/orchestrator.ts:697-720 | the method moves the closure as the specified transition does, with any events delivered during the signal |
| `Supervisor.Supervisor.BeginTermination` | packages/engine/orchestrator.ts:722-753 | the same for the start of termination in both modes |
| `Supervisor.Supervisor.OnEvent` | packages/engine/orchestrator.ts:768-845 | the same for every event |
| `Supervisor.SettlesOnceAndNeverEarly` | packages/engine/orchestrator.ts:671-846 | for every order of events, also inside signals: at most one settlement; a rejection names the first refusal, after the child closed or never spawned and, in group mode, the group was seen gone; TERM at most once; a resolution has no refusal pending and is the bytes received, at most 65536 |
| `Supervisor.SettlementIsFinal` | packages/engine/orchestrator.ts:697-720 | no later event settles again or undoes it |
| `Settlement.FirstDecisiveEventDecides` | packages/engine/orchestrator.ts:671-846 | in every run the first event that is not a start, output or a timer of the termination decides: a close accepts if and only if at most 65536 bytes came and they parse, whatever the exit status, and then exactly they are the result; a close that does not is refused as oversized, malformed or crashed, and any other event for its own reason, the only one the delivery can be rejected with |
| `Settlement.SettlesOnlyAfterTheEnd` | packages/engine/orchestrator.ts:697-801 | a delivery is settled only after a close, or after an error with no start before it |
| `Settlement.SpawnedNeverFails` | packages/engine/orchestrator.ts:768-779 | a child that was started before anything was decided does not count as failed to start, whatever error comes later |
| `Settlement.SignalsAreSent` | packages/engine/orchestrator.ts:697-753 | TERM is sent as soon as a refused delivery has started, if there is a target, and once; a direct child that was told to stop is killed or has its grace period, never both; only the grace timer kills, at most once, and never a group |
| `Settlement.GraceEndsInKill` | packages/engine/orchestrator.ts:741-748 | after any run the end of a grace period sends the KILL, and without one it does nothing |
| `Settlement.DeadlineRunsUntilDecided` | packages/engine/orchestrator.ts:755-766 | in every run the deadline is armed if and only if nothing was decided |
| `Settlement.GoneIsNotWaitedFor` | packages/engine/orchestrator.ts:697-720 | a delivery that is waited for has no group that was seen gone |
| `Supervisor.PollSettles` | packages/engine/orchestrator.ts:707-715 | in every run, a refused delivery whose child closed has its poll armed, and settles at a poll that sees the group gone, if and only if it is in group mode with a usable pid and its start was observed or failed |
| `Supervisor.WaitingIsOneOfThree` | packages/engine/orchestrator.ts:697-753 | such a delivery either polls, or was never started, or is a spawned group without a usable pid |
| `Supervisor.WaitingCanSettleIff` | packages/engine/orchestrator.ts:697-753 | some further events settle it if and only if it is not the last of these |
| `Supervisor.WithoutPidARefusalNeverSettles` | packages/engine/orchestrator.ts:697-731 | in group mode a spawned child without a usable pid is never settled once refused, whatever follows |
| `Supervisor.UnpolledRunsExist` | packages/engine/orchestrator.ts:722-753 | runs that reach the two states no poll can settle |

## Left out

- Delivery.Attempt.Run: the cleanup gate speaks of the implementer's process group alone, as in the code, so a receipt promises nothing of test processes; how long a run takes is bounded by what is left of the time-out, without the teardown of one that overran.
- Delivery.Attempt.Publish: a `git update-ref` that returns is taken to have created the ref exactly when it returns 0; one that raises may have created it or not.
- Delivery.Attempt.RunImplementer: calls may raise where the code calls out; an interrupt between two statements is not modelled, nor is the reuse of a process id.
- Delivery.RaceHasOneWinner: refs are created by deliveries and by anyone else, but not deleted while the deliveries run.
- Stream.StreamImplementer: JSON decoding of a line is a parameter, which answers or raises; nothing is claimed of bytes that were never read because the exit or the clock was seen first.
- Validation.RunSelfTest: only exit codes, time-outs and start failures are followed; compaction and truncation of the output are not.
- Validation.SameRunsIffNoRepeats: the tracked set and the infrastructure paths are arguments.
- Pump.PumpAll: both sinks start empty, and each wait advances the clock by at least one tick.
- PipeRace.PipeInterleavesRecords: what a dropped buffered writer still flushes when the process exits is not part of the run.
- LoopBreaker.SameKeyIffSameCall: the JSON text of a key is taken to be injective on canonical values, and a number is a real, so 0 and -0 are one value as they are in JSON text.
- CanonicalJson.CanonicalMeans: the order of the entries is the model's; the rebuilt object of the source lists keys that look like array indices first, in numeric order (`packages/engine/engine.ts:93`). The form is still determined by the key set.
- CanonicalJson.CanonicalIffSerializable: an input is a finite tree; a value met again inside itself is one of the things JSON cannot hold.
- SessionRunner.MessagesAreBounded: an exchange is a start and a finish that never straddle a turn end; the text of the messages, the telemetry entries and the summary detector are left out.
- Mutator.CacheAgreesWithDisk: path resolution is an arbitrary function and the symbol check is one boolean; distinct keys are distinct files, so symbolic links and names that differ only by case on some hosts are left out; edits and writes do not overlap in time and nobody else writes the files.
- Mutation.Disk.ReplaceOnce: whether the contract declares the path, whether the file can be opened as a regular file, and whether the write succeeds are arguments of each exchange; file modes and descriptors are left out.
- Supervisor.SettlesOnceAndNeverEarly: the receipt parser is a parameter and chunks are counted in bytes; a spawner that throws before there is a child is left out.
- Allocation of the temporary directory, identity and environment checks before an attempt, and the reading of the contract: checks without state.
- The command line, receipt rendering and the tables from codes to exit statuses.
- Request and response parsers, `derive`, `size_refusal`, `compact_output`, scope and bounds rules: shape checks and text heuristics.
- Prompt building, process arguments, artifact paths and Pi's own behaviour beyond the order of events.
