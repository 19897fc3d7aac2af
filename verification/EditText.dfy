/** The text the model sees of an edit: its rows, and which marker ends it, and when. */
module EditText {
  import opened Bytes
  import opened EditLines
  import opened Lines
  import opened ListMarker
  import opened Region
  import opened Replacement
  import Utf8

  // ---------------------------------------------------------------- the lines of a text

  /** The parts of a text with one more byte in front. */
  function Prepended(b: Byte, parts: seq<ByteString>): seq<ByteString>
    requires parts != []
  {
    if b == NEWLINE then [[]] + parts else [[b] + parts[0]] + parts[1..]
  }

  lemma PrependConcat(b: Byte, parts: seq<ByteString>, more: seq<ByteString>)
    requires parts != []
    ensures Prepended(b, parts + more) == Prepended(b, parts) + more
  {
    assert (parts + more)[1..] == parts[1..] + more && (parts + more)[0] == parts[0];
    var first := if b == NEWLINE then [[]] + [parts[0]] else [[b] + parts[0]];
    assert parts == [parts[0]] + parts[1..];
    assert first + (parts[1..] + more) == first + parts[1..] + more;
  }

  lemma SplitCons(b: Byte, s: ByteString)
    ensures SplitOn([b] + s, NEWLINE) == Prepended(b, SplitOn(s, NEWLINE))
  {
    assert ([b] + s)[1..] == s;
  }

  lemma SplitEmpty()
    ensures SplitOn<Byte>([], NEWLINE) == [[]]
  {
  }

  lemma {:induction false} SplitConcat(s: ByteString, t: ByteString)
    ensures SplitOn(s + [NEWLINE] + t, NEWLINE) == SplitOn(s, NEWLINE) + SplitOn(t, NEWLINE)
  {
    hide SplitOn;
    SplitEmpty();
    if s == [] {
      assert s + [NEWLINE] + t == [NEWLINE] + t;
      SplitCons(NEWLINE, t);
    } else {
      hide Prepended;
      var b, rest := s[0], s[1..];
      assert s == [b] + rest && s + [NEWLINE] + t == [b] + (rest + [NEWLINE] + t);
      SplitConcat(rest, t);
      SplitCons(b, rest);
      SplitCons(b, rest + [NEWLINE] + t);
      PrependConcat(b, SplitOn(rest, NEWLINE), SplitOn(t, NEWLINE));
    }
  }

  lemma SplitOne(s: ByteString)
    requires NEWLINE !in s
    ensures SplitOn(s, NEWLINE) == [s]
  {
    hide SplitOn;
    SplitFirst(s, |s|);
    assert s[..|s|] == s;
  }

  lemma {:induction false} SplitUndoesJoin(parts: seq<ByteString>)
    requires parts != [] && forall i :: 0 <= i < |parts| ==> NEWLINE !in parts[i]
    ensures SplitOn(JoinWith(parts, [NEWLINE]), NEWLINE) == parts
  {
    hide SplitOn;
    SplitOne(parts[0]);
    if |parts| > 1 {
      SplitConcat(parts[0], JoinWith(parts[1..], [NEWLINE]));
      SplitUndoesJoin(parts[1..]);
    }
  }

  lemma {:induction false} DigitsAreOneLine(n: nat)
    ensures NEWLINE !in Digits(n)
  {
    if n >= 10 {
      DigitsAreOneLine(n / 10);
    }
  }

  lemma NumberedAreOneLine(s: ByteString, first: nat, last: nat)
    requires 1 <= first && last <= |LinesOf(s)|
    ensures var parts := Numbered(LinesOf(s), first, last);
            forall i :: 0 <= i < |parts| ==> NEWLINE !in parts[i]
  {
    hide SplitOn, Digits;
    SplitParts(s);
    forall i | 0 <= i < |Numbered(LinesOf(s), first, last)|
      ensures NEWLINE !in Numbered(LinesOf(s), first, last)[i]
    {
      DigitsAreOneLine(first + i);
    }
  }

  lemma {:induction false} RowsAreOneLine(s: ByteString, blocks: seq<Window>)
    requires Separated(blocks, |LinesOf(s)|)
    ensures forall i :: 0 <= i < |Rows(LinesOf(s), blocks)| ==> NEWLINE !in Rows(LinesOf(s), blocks)[i]
  {
    if blocks != [] {
      TailSeparated(blocks, |LinesOf(s)|);
      NumberedAreOneLine(s, blocks[0].first, blocks[0].last);
      RowsAreOneLine(s, blocks[1..]);
      hide LinesOf, Numbered;
    }
  }

  /**
   * The lines of the text of one edit: the numbered lines of the file, or the beginning of a change that is
   * too long, and behind them the line of its marker, if it has one.
   */
  lemma EditTextLines(after: ByteString, m: Mark, r: Region)
    requires ShowsEdit(after, m, r) && LinesOf(after) != []
    ensures r.Shown?
    ensures !r.marker.ChangeTruncated? ==> SplitOn(r.body, NEWLINE) == Numbered(LinesOf(after), r.first, r.last)
    ensures SplitOn(RegionText(r), NEWLINE) == SplitOn(r.body, NEWLINE) +
              (if r.marker.NoMarker? then []
               else SplitOn(Ascii(if r.marker.ContextTrimmed? then CONTEXT_MARKER else CHANGE_MARKER), NEWLINE))
  {
    hide SplitOn, LinesOf, Numbered, NoRoomForMore, ChangedSpan, Balanced;
    SplitConcat(r.body, Ascii(CONTEXT_MARKER));
    SplitConcat(r.body, Ascii(CHANGE_MARKER));
    if !r.marker.ChangeTruncated? {
      NumberedAreOneLine(after, r.first, r.last);
      SplitUndoesJoin(Numbered(LinesOf(after), r.first, r.last));
    }
  }

  /**
   * The lines of the text of several edits: exactly the rows of their blocks if these fit 4000 bytes;
   * otherwise a beginning of them, and behind it the line of the marker.
   */
  lemma ListTextLines(after: ByteString, marks: seq<Mark>, view: View)
    requires |marks| > 1 && ShowsEdits(after, marks, view) && LinesOf(after) != []
    ensures view.Blocks? && Separated(view.windows, |LinesOf(after)|)
    ensures var full := JoinWith(Rows(LinesOf(after), view.windows), [NEWLINE]);
            if |full| <= 4000 then SplitOn(ViewText(view), NEWLINE) == Rows(LinesOf(after), view.windows)
            else view.body <= full && SplitOn(ViewText(view), NEWLINE) ==
                   SplitOn(view.body, NEWLINE) + SplitOn(Ascii(CONTEXT_MARKER), NEWLINE)
  {
    hide SplitOn, LinesOf, Rows, AnyCovers, Utf8.Valid;
    var lines := LinesOf(after);
    RowsAreTheView(lines, view.windows);
    RowsAreOneLine(after, view.windows);
    SplitConcat(view.body, Ascii(CONTEXT_MARKER));
    if |JoinWith(Rows(lines, view.windows), [NEWLINE])| <= 4000 {
      assert view.windows != [];
      SplitUndoesJoin(Rows(lines, view.windows));
    }
  }

  // ---------------------------------------------------------------- when a marker is there

  lemma JoinGrows(front: seq<ByteString>, parts: seq<ByteString>, back: seq<ByteString>)
    ensures |JoinWith(parts, [NEWLINE])| <= |JoinWith(front + parts + back, [NEWLINE])|
  {
    hide JoinWith;
    if front == [] {
      assert front + parts == parts;
    } else if parts == [] {
      EmptyJoin(parts);
    } else {
      JoinConcat(front, parts, [NEWLINE]);
    }
    if back == [] {
      assert front + parts + back == front + parts;
    } else if front + parts == [] {
      EmptyJoin(parts);
    } else {
      JoinConcat(front + parts, back, [NEWLINE]);
    }
  }

  lemma EmptyJoin(parts: seq<ByteString>)
    requires parts == []
    ensures JoinWith(parts, [NEWLINE]) == []
  {
  }

  /** More lines never render to fewer bytes. */
  lemma RenderGrows(lines: seq<ByteString>, from: nat, first: nat, last: nat, to: nat)
    requires 1 <= from <= first <= last <= to <= |lines|
    ensures |Render(lines, first, last)| <= |Render(lines, from, to)|
  {
    hide Digits, JoinWith;
    var front, parts := Numbered(lines, from, first - 1), Numbered(lines, first, last);
    var back := Numbered(lines, last + 1, to);
    assert Numbered(lines, from, to) == front + parts + back;
    JoinGrows(front, parts, back);
  }

  /**
   * When the view of one edit has which marker: the change marker exactly if the changed lines alone are
   * more than 40 or render to more than 4000 bytes; none exactly if they fit with all of their context, up
   * to three lines on each side; and so the context marker in the cases between.
   */
  lemma MarkerTells(after: ByteString, m: Mark, r: Region)
    requires ShowsEdit(after, m, r) && LinesOf(after) != []
    ensures var lines, total := LinesOf(after), |LinesOf(after)|;
            var first, last := Clamped(FirstLine(after, m), total), Clamped(LastLine(after, m), total);
            var from, to := if first > 3 then first - 3 else 1, if last + 3 <= total then last + 3 else total;
            && r.Shown?
            && (r.marker.ChangeTruncated? <==> last - first + 1 > 40 || |Render(lines, first, last)| > 4000)
            && (r.marker.NoMarker? <==> to - from + 1 <= 40 && |Render(lines, from, to)| <= 4000)
  {
    hide LinesOf, Render, FirstLine, LastLine, NoRoomForMore;
    var lines, total := LinesOf(after), |LinesOf(after)|;
    SpanIsByNewlines(after, m, total);
    var span := ChangedSpan(after, m, total);
    hide ChangedSpan;
    RenderGrows(lines, span.first - WantBefore(span), span.first, span.last, span.last + WantAfter(span, total));
    if r.marker.ContextTrimmed? {
      ContextDoesNotFit(lines, span, span.first - r.first, r.last - span.last);
    }
  }

  /** If there is no room for a next line of context, there is none for all of it. */
  lemma ContextDoesNotFit(lines: seq<ByteString>, span: Window, before: nat, after: nat)
    requires 1 <= span.first <= span.last <= |lines| && NoRoomForMore(lines, span, before, after)
    requires before + after < WantBefore(span) + WantAfter(span, |lines|)
    ensures var from, to := span.first - WantBefore(span), span.last + WantAfter(span, |lines|);
            to - from + 1 > 40 || |Render(lines, from, to)| > 4000
  {
    hide Render;
    var wantBefore, wantAfter := WantBefore(span), WantAfter(span, |lines|);
    if before + after + (span.last - span.first + 1) != MAX_LINES {
      var b: nat, a: nat :| Wider(lines, span, before, after, b, a);
      RenderGrows(lines, span.first - wantBefore, span.first - b, span.last + a, span.last + wantAfter);
    }
  }
}
