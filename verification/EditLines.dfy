/** Which lines a view shows, told by the places of newlines. */
module EditLines {
  import opened Bytes
  import opened Lines
  import opened Replacement
  import opened Region

  /** Where the newlines below position `n` are. */
  function NewlinesBelow(s: ByteString, n: nat): set<int> {
    set i | 0 <= i < n && i < |s| && s[i] == NEWLINE
  }

  lemma {:induction false} NewlinesArePlaces(s: ByteString)
    ensures Newlines(s) == |NewlinesBelow(s, |s|)|
  {
    if s == [] {
      assert NewlinesBelow(s, 0) == {};
    } else {
      var n := |s| - 1;
      var all, below := NewlinesBelow(s, |s|), NewlinesBelow(s[..n], n);
      NewlinesArePlaces(s[..n]);
      assert s == s[..n] + [s[n]];
      NewlinesConcat(s[..n], [s[n]]);
      assert Newlines([s[n]]) == (if s[n] == NEWLINE then 1 else 0) + Newlines([s[n]][1..]);
      assert all == if s[n] == NEWLINE then below + {n} else below;
    }
  }

  /** The line of an edit's mark: one more than the newlines below it. */
  function FirstLine(s: ByteString, m: Mark): (line: nat)
    ensures line >= 1
  {
    |NewlinesBelow(s, m.start)| + 1
  }

  /** The last line of its text: as many lines later as the text has newlines. */
  function LastLine(s: ByteString, m: Mark): nat {
    FirstLine(s, m) + |NewlinesBelow(m.text, |m.text|)|
  }

  function Clamped(line: nat, total: nat): nat {
    if line <= total then line else total
  }

  lemma LineOfIsPlaces(s: ByteString, at: nat)
    ensures LineOf(s, at) == |NewlinesBelow(s, at)| + 1
  {
    var n := Min(at, |s|);
    NewlinesArePlaces(s[..n]);
    assert NewlinesBelow(s[..n], n) == NewlinesBelow(s, at);
  }

  /** The changed lines run from the mark's line to the last line of its text, both clamped to what is there. */
  lemma SpanIsByNewlines(s: ByteString, m: Mark, total: nat)
    requires total > 0
    ensures ChangedSpan(s, m, total) == Window(Clamped(FirstLine(s, m), total), Clamped(LastLine(s, m), total))
  {
    LineOfIsPlaces(s, m.start);
    NewlinesArePlaces(m.text);
  }

  /**
   * The view of one edit, with or without text: the changed lines, and up to three lines on each side; all
   * of those if there is no marker; at most 40 lines and 4000 bytes; and under the change marker the first
   * of the changed lines.
   */
  lemma EditIsShown(after: ByteString, m: Mark, r: Region)
    requires ShowsEdit(after, m, r) && LinesOf(after) != []
    ensures var total := |LinesOf(after)|;
            var first, last := Clamped(FirstLine(after, m), total), Clamped(LastLine(after, m), total);
            && r.Shown? && r.last - r.first + 1 <= 40 && |r.body| <= 4000
            && first - 3 <= r.first <= first && r.last <= last + 3
            && (r.marker.ChangeTruncated? ==>
                  r.first == first && r.last == if last < first + 39 then last else first + 39)
            && (!r.marker.ChangeTruncated? ==> last <= r.last && r.body == Render(LinesOf(after), r.first, r.last))
            && (r.marker.NoMarker? ==>
                  && r.first == (if first > 3 then first - 3 else 1)
                  && r.last == (if last + 3 <= total then last + 3 else total))
  {
    hide LinesOf, Render, FirstLine, LastLine, NoRoomForMore;
    SpanIsByNewlines(after, m, |LinesOf(after)|);
    hide ChangedSpan;
  }

  /** The line is changed by the edit, or at most three lines away from a changed one. */
  predicate Near(after: ByteString, m: Mark, total: nat, line: nat) {
    && 1 <= line <= total
    && Clamped(FirstLine(after, m), total) - 3 <= line <= Clamped(LastLine(after, m), total) + 3
  }

  /** The blocks of several edits hold exactly the lines near one of them, deletions included. */
  lemma NearLinesAreShown(after: ByteString, marks: seq<Mark>, view: View, line: nat)
    requires |marks| > 1 && ShowsEdits(after, marks, view) && LinesOf(after) != []
    ensures view.Blocks?
    ensures AnyCovers(view.windows, line) <==>
            exists i :: 0 <= i < |marks| && Near(after, marks[i], |LinesOf(after)|, line)
  {
    hide LinesOf, Rendered, BlocksOf, Near, AnyCovers, ChangedSpan;
    var total := |LinesOf(after)|;
    var windows := WindowsOf(after, marks, total);
    CoversIsNear(after, marks, total, line);
    assert AnyCovers(view.windows, line) <==> AnyCovers(windows, line);
  }

  lemma CoversIsNear(after: ByteString, marks: seq<Mark>, total: nat, line: nat)
    requires total > 0
    ensures AnyCovers(WindowsOf(after, marks, total), line) <==>
            exists i :: 0 <= i < |marks| && Near(after, marks[i], total, line)
  {
    hide FirstLine, LastLine, Near;
    var windows := WindowsOf(after, marks, total);
    forall i | 0 <= i < |marks|
      ensures Covers(windows[i], line) <==> Near(after, marks[i], total, line)
    {
      OneWindow(after, marks[i], total, line);
    }
  }

  lemma OneWindow(after: ByteString, m: Mark, total: nat, line: nat)
    requires total > 0
    ensures Covers(WindowOf(after, m, total), line) <==> Near(after, m, total, line)
  {
    SpanIsByNewlines(after, m, total);
    hide ChangedSpan, FirstLine, LastLine;
  }
}
