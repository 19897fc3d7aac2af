/**
 * The marker under the clipped view of several edits. It says that the change above is shown in
 * full; this module says exactly when it is.
 */
module ListMarker {
  import opened Bytes
  import opened Lines
  import opened Region
  import opened Replacement
  import Search
  import Utf8

  // ---------------------------------------------------------------- the view as rows

  const DOTS: ByteString := [46, 46, 46]

  /** The rows of the view: the numbered lines of each block, and a row of dots between two blocks. */
  function Rows(lines: seq<ByteString>, blocks: seq<Window>): (rows: seq<ByteString>)
    requires Separated(blocks, |lines|)
    ensures blocks != [] ==> rows != []
  {
    if blocks == [] then []
    else
      var block := Numbered(lines, blocks[0].first, blocks[0].last);
      TailSeparated(blocks, |lines|);
      if |blocks| == 1 then block else block + [DOTS] + Rows(lines, blocks[1..])
  }

  lemma TailSeparated(blocks: seq<Window>, total: nat)
    requires Separated(blocks, total) && blocks != []
    ensures Separated(blocks[1..], total)
  {
  }

  lemma {:induction false} JoinConcat(a: seq<ByteString>, b: seq<ByteString>, separator: ByteString)
    requires a != [] && b != []
    ensures JoinWith(a + b, separator) == JoinWith(a, separator) + separator + JoinWith(b, separator)
  {
    if |a| == 1 {
      assert (a + b)[1..] == b;
    } else {
      assert (a + b)[1..] == a[1..] + b;
      JoinConcat(a[1..], b, separator);
    }
  }

  /** The blocks joined by gaps are the rows joined by newlines. */
  lemma {:induction false} RowsAreTheView(lines: seq<ByteString>, blocks: seq<Window>)
    requires Separated(blocks, |lines|)
    ensures JoinWith(Rendered(lines, blocks), GAP) == JoinWith(Rows(lines, blocks), [NEWLINE])
  {
    if blocks != [] {
      var block := Numbered(lines, blocks[0].first, blocks[0].last);
      assert Rendered(lines, blocks)[0] == JoinWith(block, [NEWLINE]);
      if |blocks| > 1 {
        var rest := Rows(lines, blocks[1..]);
        TailSeparated(blocks, |lines|);
        RowsAreTheView(lines, blocks[1..]);
        assert Rendered(lines, blocks)[1..] == Rendered(lines, blocks[1..]);
        DotsBetween(block, rest);
      }
    }
  }

  lemma DotsBetween(block: seq<ByteString>, rest: seq<ByteString>)
    requires block != [] && rest != []
    ensures JoinWith(block + [DOTS] + rest, [NEWLINE]) == JoinWith(block, [NEWLINE]) + GAP + JoinWith(rest, [NEWLINE])
  {
    JoinConcat(block + [DOTS], rest, [NEWLINE]);
    JoinConcat(block, [DOTS], [NEWLINE]);
    assert JoinWith([DOTS], [NEWLINE]) == DOTS;
    assert [NEWLINE] + DOTS + [NEWLINE] == GAP;
  }

  /** The row that shows a line. */
  function RowOf(blocks: seq<Window>, line: nat): nat
    requires AnyCovers(blocks, line) && Ordered(blocks)
  {
    if line <= blocks[0].last then line - blocks[0].first
    else
      LaterBlock(blocks, line);
      blocks[0].last - blocks[0].first + 2 + RowOf(blocks[1..], line)
  }

  predicate Ordered(blocks: seq<Window>) {
    && (forall i :: 0 <= i < |blocks| ==> blocks[i].first <= blocks[i].last)
    && (forall i, j :: 0 <= i < j < |blocks| ==> blocks[i].last < blocks[j].first)
  }

  lemma LaterBlock(blocks: seq<Window>, line: nat)
    requires AnyCovers(blocks, line) && Ordered(blocks) && blocks[0].last < line
    ensures AnyCovers(blocks[1..], line) && Ordered(blocks[1..])
  {
    var i :| 0 <= i < |blocks| && Covers(blocks[i], line);
    assert blocks[1..][i - 1] == blocks[i];
  }

  /** That row is the line, whole and under its true number. */
  lemma {:induction false} RowShowsLine(lines: seq<ByteString>, blocks: seq<Window>, line: nat)
    requires Separated(blocks, |lines|) && AnyCovers(blocks, line)
    ensures Ordered(blocks) && 1 <= line <= |lines| && RowOf(blocks, line) < |Rows(lines, blocks)|
    ensures Rows(lines, blocks)[RowOf(blocks, line)] == Digits(line) + [58, 32] + lines[line - 1]
    decreases |blocks|
  {
    OrderedLines(blocks, |lines|, line);
    if line > blocks[0].last {
      hide Numbered, AnyCovers;
      LaterBlock(blocks, line);
      TailSeparated(blocks, |lines|);
      RowShowsLine(lines, blocks[1..], line);
    } else {
      FirstBlockShows(lines, blocks, line);
    }
  }

  lemma FirstBlockShows(lines: seq<ByteString>, blocks: seq<Window>, line: nat)
    requires Separated(blocks, |lines|) && blocks != [] && blocks[0].first <= line <= blocks[0].last
    ensures var row := line - blocks[0].first;
            row < |Rows(lines, blocks)| && Rows(lines, blocks)[row] == Digits(line) + [58, 32] + lines[line - 1]
  {
    hide Digits;
    var block := Numbered(lines, blocks[0].first, blocks[0].last);
    assert block[line - blocks[0].first] == Digits(line) + [58, 32] + lines[line - 1];
  }

  lemma OrderedLines(blocks: seq<Window>, total: nat, line: nat)
    requires Separated(blocks, total) && AnyCovers(blocks, line)
    ensures Ordered(blocks) && 1 <= blocks[0].first <= line <= total
  {
    var i :| 0 <= i < |blocks| && Covers(blocks[i], line);
    assert !(blocks[0].first > blocks[i].first);
  }

  lemma {:induction false} RowsFollowLines(blocks: seq<Window>, line: nat, later: nat)
    requires Ordered(blocks) && AnyCovers(blocks, line) && AnyCovers(blocks, later) && line <= later
    ensures RowOf(blocks, line) <= RowOf(blocks, later)
    decreases |blocks|
  {
    if line > blocks[0].last {
      LaterBlock(blocks, line);
      LaterBlock(blocks, later);
      RowsFollowLines(blocks[1..], line, later);
    }
  }

  // ---------------------------------------------------------------- how far a text reaches

  /** The text through row `k`. */
  function Through(rows: seq<ByteString>, k: nat): ByteString
    requires k < |rows|
  {
    JoinWith(rows[..k + 1], [NEWLINE])
  }

  /** It is a beginning of the whole text, and ends there or before a newline. */
  lemma ThroughIsPrefix(rows: seq<ByteString>, k: nat)
    requires k < |rows|
    ensures var full, part := JoinWith(rows, [NEWLINE]), Through(rows, k);
            part <= full && (|part| < |full| ==> full[|part|] == NEWLINE) && Utf8.Boundary(full, |part|)
  {
    if k + 1 == |rows| {
      assert rows[..k + 1] == rows;
    } else {
      assert rows == rows[..k + 1] + rows[k + 1..];
      JoinConcat(rows[..k + 1], rows[k + 1..], [NEWLINE]);
    }
  }

  lemma ThroughGrows(rows: seq<ByteString>, j: nat, k: nat)
    requires j <= k < |rows|
    ensures |Through(rows, j)| <= |Through(rows, k)|
  {
    assert rows[..k + 1][..j + 1] == rows[..j + 1];
    ThroughIsPrefix(rows[..k + 1], j);
  }

  // ---------------------------------------------------------------- the changed lines

  predicate Changed(after: ByteString, marks: seq<Mark>, line: nat)
    requires LinesOf(after) != []
  {
    exists i :: 0 <= i < |marks| && Covers(ChangedSpan(after, marks[i], |LinesOf(after)|), line)
  }

  /** The last line that any of the edits changed. */
  function LastChanged(after: ByteString, marks: seq<Mark>): nat
    requires LinesOf(after) != [] && marks != []
  {
    var last := |marks| - 1;
    var own := ChangedSpan(after, marks[last], |LinesOf(after)|).last;
    if last == 0 then own else Max(LastChanged(after, marks[..last]), own)
  }

  lemma {:induction false} LastChangedIsLast(after: ByteString, marks: seq<Mark>)
    requires LinesOf(after) != [] && marks != []
    ensures Changed(after, marks, LastChanged(after, marks))
    ensures forall n: nat :: Changed(after, marks, n) ==> n <= LastChanged(after, marks)
  {
    hide LinesOf, Changed;
    var last := |marks| - 1;
    var own := ChangedSpan(after, marks[last], |LinesOf(after)|);
    assert Covers(own, own.last);
    ChangedSnoc(after, marks);
    if last == 0 {
      NoneChanged(after);
      assert marks[..0] == [];
    } else {
      LastChangedIsLast(after, marks[..last]);
    }
  }

  lemma NoneChanged(after: ByteString)
    requires LinesOf(after) != []
    ensures forall n: nat :: !Changed(after, [], n)
  {
  }

  lemma ChangedSnoc(after: ByteString, marks: seq<Mark>)
    requires LinesOf(after) != [] && marks != []
    ensures var last := |marks| - 1;
            forall n: nat :: Changed(after, marks, n) <==>
              Changed(after, marks[..last], n) || Covers(ChangedSpan(after, marks[last], |LinesOf(after)|), n)
  {
    hide LinesOf, ChangedSpan, Covers;
    var last := |marks| - 1;
    forall n: nat
      ensures Changed(after, marks, n) <==>
              Changed(after, marks[..last], n) || Covers(ChangedSpan(after, marks[last], |LinesOf(after)|), n)
    {
      assert forall i :: 0 <= i < last ==> marks[..last][i] == marks[i];
    }
  }

  /** Changed lines are shown: their windows hold them. */
  lemma ChangedIsCovered(after: ByteString, marks: seq<Mark>, line: nat)
    requires LinesOf(after) != [] && Changed(after, marks, line)
    ensures AnyCovers(BlocksOf(after, marks), line)
  {
    hide LinesOf, MergeAll, Sort;
    var total := |LinesOf(after)|;
    var i :| 0 <= i < |marks| && Covers(ChangedSpan(after, marks[i], total), line);
    assert Covers(WindowsOf(after, marks, total)[i], line);
    SortedIsMerged(WindowsOf(after, marks, total), total);
  }

  /** The whole text of the list, before the cap. */
  function FullText(after: ByteString, marks: seq<Mark>): ByteString
    requires LinesOf(after) != []
  {
    JoinWith(Rendered(LinesOf(after), BlocksOf(after, marks)), GAP)
  }

  /** That text through one of the lines it shows. */
  function TextThrough(after: ByteString, marks: seq<Mark>, line: nat): ByteString
    requires LinesOf(after) != [] && AnyCovers(BlocksOf(after, marks), line)
  {
    var lines, blocks := LinesOf(after), BlocksOf(after, marks);
    RowShowsLine(lines, blocks, line);
    Through(Rows(lines, blocks), RowOf(blocks, line))
  }

  /** It begins the whole text, and it ends with the line, whole and numbered. */
  lemma TextEndsWithLine(after: ByteString, marks: seq<Mark>, line: nat)
    requires LinesOf(after) != [] && AnyCovers(BlocksOf(after, marks), line)
    ensures var text, full := TextThrough(after, marks, line), FullText(after, marks);
            && text <= full && Utf8.Boundary(full, |text|)
            && 1 <= line <= |LinesOf(after)|
            && var row := Digits(line) + [58, 32] + LinesOf(after)[line - 1];
               |row| <= |text| && text[|text| - |row|..] == row
  {
    hide LinesOf, BlocksOf, AnyCovers, Separated, RowOf, Digits;
    var lines, blocks := LinesOf(after), BlocksOf(after, marks);
    RowsAreTheView(lines, blocks);
    RowShowsLine(lines, blocks, line);
    ThroughIsPrefix(Rows(lines, blocks), RowOf(blocks, line));
    LastRow(Rows(lines, blocks), RowOf(blocks, line));
  }

  lemma LastRow(rows: seq<ByteString>, k: nat)
    requires k < |rows|
    ensures |rows[k]| <= |Through(rows, k)|
    ensures Through(rows, k)[|Through(rows, k)| - |rows[k]|..] == rows[k]
  {
    if k == 0 {
      assert rows[..1] == [rows[0]];
    } else {
      assert rows[..k + 1] == rows[..k] + [rows[k]];
      JoinConcat(rows[..k], [rows[k]], [NEWLINE]);
    }
  }

  lemma TextGrows(after: ByteString, marks: seq<Mark>, line: nat, later: nat)
    requires LinesOf(after) != [] && line <= later
    requires AnyCovers(BlocksOf(after, marks), line) && AnyCovers(BlocksOf(after, marks), later)
    ensures |TextThrough(after, marks, line)| <= |TextThrough(after, marks, later)|
  {
    hide LinesOf, BlocksOf, AnyCovers, Separated, RowOf, Through;
    var lines, blocks := LinesOf(after), BlocksOf(after, marks);
    RowShowsLine(lines, blocks, line);
    RowShowsLine(lines, blocks, later);
    RowsFollowLines(blocks, line, later);
    ThroughGrows(Rows(lines, blocks), RowOf(blocks, line), RowOf(blocks, later));
  }

  // ---------------------------------------------------------------- when the marker is true

  /** What the marker says: every changed line lies whole in the body that is shown. */
  ghost predicate ChangeIsShown(after: ByteString, marks: seq<Mark>, view: View)
    requires LinesOf(after) != [] && view.Blocks?
  {
    forall line: nat :: Changed(after, marks, line) ==>
      AnyCovers(BlocksOf(after, marks), line) && TextThrough(after, marks, line) <= view.body
  }

  /** How many bytes it takes to show every changed line. */
  function BytesNeeded(after: ByteString, marks: seq<Mark>): nat
    requires LinesOf(after) != [] && marks != []
  {
    LastChangedIsLast(after, marks);
    ChangedIsCovered(after, marks, LastChanged(after, marks));
    |TextThrough(after, marks, LastChanged(after, marks))|
  }

  /** The cap reaches so far, unless it is met exactly by the end of a multi-byte character. */
  predicate CapReaches(after: ByteString, marks: seq<Mark>)
    requires LinesOf(after) != [] && marks != []
  {
    var full, needed := FullText(after, marks), BytesNeeded(after, marks);
    needed < MAX_BYTES || (needed == MAX_BYTES <= |full| && !Utf8.Tail(full[MAX_BYTES - 1]))
  }

  /** In a clipped view the marker tells the truth if and only if the cap reaches the last changed line. */
  lemma MarkerIsTrueIffCapReaches(after: ByteString, marks: seq<Mark>, view: View)
    requires |marks| > 1 && ShowsEdits(after, marks, view) && view.Blocks? && view.clipped
    ensures LinesOf(after) != []
    ensures ChangeIsShown(after, marks, view) <==> CapReaches(after, marks)
  {
    hide LinesOf, BlocksOf, AnyCovers, Separated, TextThrough, Changed, LastChanged;
    var full, last := FullText(after, marks), LastChanged(after, marks);
    LastChangedIsLast(after, marks);
    ChangedIsCovered(after, marks, last);
    TextEndsWithLine(after, marks, last);
    Utf8.ClipReaches(full, MAX_BYTES, view.body, BytesNeeded(after, marks));
    if BytesNeeded(after, marks) <= |view.body| {
      forall line: nat | Changed(after, marks, line)
        ensures AnyCovers(BlocksOf(after, marks), line) && TextThrough(after, marks, line) <= view.body
      {
        ChangedIsCovered(after, marks, line);
        TextEndsWithLine(after, marks, line);
        TextGrows(after, marks, line, last);
      }
    }
  }

  // ---------------------------------------------------------------- an input that breaks it

  /** A run of the letter "a". */
  function Run(n: nat): (s: ByteString)
    ensures |s| == n && NEWLINE !in s
  {
    seq(n, i => 97)
  }

  lemma {:induction false} AsciiEncodes(s: ByteString)
    requires forall i :: 0 <= i < |s| ==> s[i] < 0x80
    ensures Utf8.Encode(s) == Some(s)
  {
    if s != [] {
      AsciiEncodes(s[1..]);
      assert s == [s[0]] + s[1..];
    }
  }

  /** In "bc", "b" becomes "a" and "c" becomes 5000 letters. */
  function LongChanges(): seq<Change> {
    [Change([98], [97]), Change([99], Run(5000))]
  }

  /** A byte that occurs once is found there and counted once. */
  lemma FindsByte(current: ByteString, at: nat, old_: Byte)
    requires at < |current| && (forall i :: 0 <= i < |current| ==> (current[i] == old_ <==> i == at))
    ensures Search.FindFrom(current, [old_], 0) == Some(at) && Search.Count(current, [old_]) == 1
  {
    hide Search.Count, Search.CountFrom;
    var needle := [old_];
    assert current[at..at + 1] == needle;
    forall i | Search.MatchAt(current, needle, i)
      ensures i == at
    {
      assert current[i] == current[i..i + 1][0];
    }
    assert Search.UniqueMatch(current, needle, at);
    Search.UniqueCounts(current, needle, at);
  }

  lemma LocatesByte(current: ByteString, at: nat, old_: Byte, text: ByteString)
    requires old_ < 0x80 && (forall i :: 0 <= i < |text| ==> text[i] < 0x80) && text != [old_]
    requires at < |current| && (forall i :: 0 <= i < |current| ==> (current[i] == old_ <==> i == at))
    ensures Locate(current, Change([old_], text)) == Applied(Edit(at, 1, text))
  {
    hide Search.Count, Utf8.Encode;
    FindsByte(current, at, old_);
    AsciiEncodes([old_]);
    AsciiEncodes(text);
  }

  lemma LongChangesApply()
    ensures ApplyAll([98, 99], LongChanges()) == All([97] + Run(5000), LongLog())
  {
    hide *;
    LongChangesAre();
    SecondApplies(Run(5000));
  }

  lemma LongChangesAre()
    ensures LongChanges() == [Change([98], [97])] + [Change([99], Run(5000))]
    ensures LongLog() == [Edit(0, 1, [97])] + [Edit(1, 1, Run(5000))]
    ensures |Run(5000)| == 5000 && forall i :: 0 <= i < 5000 ==> Run(5000)[i] < 0x80
  {
  }

  lemma FirstApplies()
    ensures ApplyAll([98, 99], [Change([98], [97])]) == All([97, 99], [Edit(0, 1, [97])])
  {
    var change, e := Change([98], [97]), Edit(0, 1, [97]);
    LocatesByte([98, 99], 0, 98, [97]);
    hide Locate;
    assert Apply([98, 99], e) == [97, 99];
    ApplyOne([98, 99], [], change, [98, 99], [], e, [97, 99]);
    assert [] + [change] == [change] && [] + [e] == [e];
  }

  lemma SecondApplies(text: ByteString)
    requires |text| > 1 && forall i :: 0 <= i < |text| ==> text[i] < 0x80
    ensures ApplyAll([98, 99], [Change([98], [97])] + [Change([99], text)])
            == All([97] + text, [Edit(0, 1, [97])] + [Edit(1, 1, text)])
  {
    hide Locate, ApplyAll;
    FirstApplies();
    LocatesByte([97, 99], 1, 99, text);
    assert Apply([97, 99], Edit(1, 1, text)) == [97] + text;
    ApplyOne([98, 99], [Change([98], [97])], Change([99], text), [97, 99], [Edit(0, 1, [97])], Edit(1, 1, text),
             [97] + text);
  }

  /** One more change on top of a list that applied. */
  lemma ApplyOne(before: ByteString, done: seq<Change>, change: Change, current: ByteString, log: seq<Edit>, e: Edit,
                 after: ByteString)
    requires ApplyAll(before, done) == All(current, log) && Locate(current, change) == Applied(e)
    requires after == Apply(current, e)
    ensures ApplyAll(before, done + [change]) == All(after, log + [e])
  {
    hide Locate, Apply;
    assert (done + [change])[..|done|] == done;
  }

  function LongLog(): seq<Edit> {
    [Edit(0, 1, [97]), Edit(1, 1, Run(5000))]
  }

  lemma LongLogMarks()
    ensures Recorded(LongLog()) == [Mark(0, [97]), Mark(1, Run(5000))]
    ensures Survives(LongLog(), 0) && Survives(LongLog(), 1)
  {
    var one := [Edit(0, 1, [97])];
    assert one[..0] == [] && LongLog()[..1] == one;
    assert Recorded([]) == [] && Recorded(one) == [Mark(0, [97])];
  }

  lemma OneLine(s: ByteString)
    requires s != [] && NEWLINE !in s
    ensures LinesOf(s) == [s]
  {
    SplitFirst(s, |s|);
    assert s[..|s|] == s;
    assert SplitOn(s, NEWLINE) == [s];
  }

  /** A one-line text that does not fit the cap is never shown through its line. */
  lemma LongLineIsCut(s: ByteString, marks: seq<Mark>, view: View)
    requires |s| > MAX_BYTES && LinesOf(s) == [s] && |marks| > 1 && ShowsEdits(s, marks, view)
    ensures view.Blocks? && view.clipped && !CapReaches(s, marks)
  {
    hide LinesOf, BlocksOf, AnyCovers, Separated, TextThrough, Changed, LastChanged;
    var last := LastChanged(s, marks);
    LastChangedIsLast(s, marks);
    ChangedIsCovered(s, marks, last);
    TextEndsWithLine(s, marks, last);
    assert LinesOf(s)[last - 1] == s;
  }

  /**
   * Two real changes that both stand in the final file, and a view that says they are shown in full
   * when they are not.
   */
  lemma ClippedListOverclaims()
    ensures var out := ApplyAll([98, 99], LongChanges());
            && out.All? && out.log == LongLog() && Survives(out.log, 0) && Survives(out.log, 1)
            && forall view :: ShowsEdits(out.final, Recorded(out.log), view) ==>
                 LinesOf(out.final) != [] && view.Blocks? && view.clipped
                 && !ChangeIsShown(out.final, Recorded(out.log), view)
  {
    hide ApplyAll, Recorded, Survives, ShowsEdits, ChangeIsShown, CapReaches, LongChanges, LongLog;
    LongChangesApply();
    LongLogMarks();
    var final, marks := [97] + Run(5000), Recorded(LongLog());
    OneLine(final);
    forall view | ShowsEdits(final, marks, view)
      ensures view.Blocks? && view.clipped && !ChangeIsShown(final, marks, view)
    {
      LongLineIsCut(final, marks, view);
      MarkerIsTrueIffCapReaches(final, marks, view);
    }
  }
}
