/**
 * The numbered, capped view of an edit: the changed lines first, then balanced context, and
 * for several edits a list of merged windows.
 */
module Region {
  import opened Bytes
  import opened Lines
  import opened Replacement
  import Utf8

  const CONTEXT_LINES := 3
  const MAX_LINES := 40
  const MAX_BYTES := 4_000

  datatype Marker = NoMarker | ContextTrimmed | ChangeTruncated

  /** What one edit shows: lines `first..last`, rendered, and at most one marker. */
  datatype Region = Nothing | Shown(first: nat, last: nat, body: ByteString, marker: Marker)

  function Digits(n: nat): ByteString {
    if n < 10 then [48 + n] else Digits(n / 10) + [48 + n % 10]
  }

  function NumberOf(digits: ByteString): int {
    if digits == [] then 0 else NumberOf(digits[..|digits| - 1]) * 10 + (digits[|digits| - 1] as int - 48)
  }

  /** A line number can be read back from its rendering. */
  lemma {:induction false} DigitsReadBack(n: nat)
    ensures NumberOf(Digits(n)) == n
    ensures forall i :: 0 <= i < |Digits(n)| ==> 48 <= Digits(n)[i] <= 57
  {
    if n < 10 {
      assert [48 + n][..0] == [];
    } else {
      DigitsReadBack(n / 10);
      var d := Digits(n / 10) + [48 + n % 10];
      assert d[..|d| - 1] == Digits(n / 10);
    }
  }

  /** `"{number}: {line}"` for each line of `first..last`. */
  function Numbered(lines: seq<ByteString>, first: nat, last: nat): (parts: seq<ByteString>)
    requires 1 <= first && last <= |lines|
    ensures |parts| == Max(0, last - first + 1)
  {
    seq(Max(0, last - first + 1), i requires 0 <= i < Max(0, last - first + 1) =>
      Digits(first + i) + [58, 32] + lines[first + i - 1])
  }

  function Render(lines: seq<ByteString>, first: nat, last: nat): ByteString
    requires 1 <= first && last <= |lines|
  {
    JoinWith(Numbered(lines, first, last), [NEWLINE])
  }

  datatype Window = Window(first: nat, last: nat)

  /** The lines an edit changed, clamped to the lines the text still has. */
  function ChangedSpan(s: ByteString, m: Mark, total: nat): (span: Window)
    requires total > 0
    ensures 1 <= span.first <= span.last <= total
  {
    var start := LineOf(s, m.start);
    var end := Min(start + Newlines(m.text), total);
    Window(Min(start, end), end)
  }

  // ---------------------------------------------------------------- balanced context

  /** Neither side is short while the other holds more than its fair share; ties favour `before`. */
  predicate Balanced(before: nat, after: nat, wantBefore: nat, wantAfter: nat) {
    && before <= wantBefore && after <= wantAfter
    && (before < wantBefore ==> after <= before)
    && (after < wantAfter ==> before <= after + 1)
  }

  /** A balanced split of a given total is the only one. */
  lemma BalancedIsUnique(b1: nat, a1: nat, b2: nat, a2: nat, wantBefore: nat, wantAfter: nat)
    requires Balanced(b1, a1, wantBefore, wantAfter) && Balanced(b2, a2, wantBefore, wantAfter)
    requires b1 + a1 == b2 + a2
    ensures b1 == b2 && a1 == a2
  {
  }

  /** Each side has half, the odd line before the change, unless a side wants less: then the other has the rest. */
  lemma BalancedIsHalves(before: nat, after: nat, wantBefore: nat, wantAfter: nat)
    ensures var n := before + after;
            Balanced(before, after, wantBefore, wantAfter) <==>
            && before <= wantBefore && after <= wantAfter
            && before == if n / 2 > wantAfter then n - wantAfter
                         else if (n + 1) / 2 > wantBefore then wantBefore else (n + 1) / 2
  {
  }

  method BalancedGrow(budget: nat, wantBefore: nat, wantAfter: nat) returns (before: nat, after: nat)
    ensures Balanced(before, after, wantBefore, wantAfter)
    ensures before + after == Min(budget, wantBefore + wantAfter)
  {
    before, after := 0, 0;
    var remaining := budget;
    while remaining > 0 && (before < wantBefore || after < wantAfter)
      invariant Balanced(before, after, wantBefore, wantAfter)
      invariant before + after + remaining == budget
    {
      if before < wantBefore && before <= after {
        before := before + 1;
      } else if after < wantAfter {
        after := after + 1;
      } else {
        before := before + 1;
      }
      remaining := remaining - 1;
    }
  }

  method BalancedShrink(heldBefore: nat, heldAfter: nat, excess: nat) returns (before: nat, after: nat)
    ensures Balanced(before, after, heldBefore, heldAfter)
    ensures before + after == Max(0, heldBefore + heldAfter - excess)
  {
    before, after := heldBefore, heldAfter;
    var remaining := excess;
    while remaining > 0 && (before > 0 || after > 0)
      invariant Balanced(before, after, heldBefore, heldAfter)
      invariant before + after + excess == heldBefore + heldAfter + remaining
    {
      if after >= before && after > 0 {
        after := after - 1;
      } else if before > 0 {
        before := before - 1;
      } else {
        break;
      }
      remaining := remaining - 1;
    }
  }

  /** Shrinking a balanced window by one line leaves it balanced against the same wishes. */
  lemma ShrinkKeepsBalance(b: nat, a: nat, b': nat, a': nat, wantBefore: nat, wantAfter: nat)
    requires Balanced(b, a, wantBefore, wantAfter) && Balanced(b', a', b, a) && b' + a' + 1 == b + a
    ensures Balanced(b', a', wantBefore, wantAfter)
  {
  }

  // ---------------------------------------------------------------- rendering facts

  lemma {:induction false} AsciiIsValid(s: ByteString)
    requires forall i :: 0 <= i < |s| ==> s[i] < 0x80
    ensures Utf8.Valid(s)
  {
    if s != [] {
      AsciiIsValid(s[1..]);
      assert Utf8.CharLen(s) == 1;
    }
  }

  lemma {:induction false} JoinIsValid(parts: seq<ByteString>, separator: ByteString)
    requires Utf8.Valid(separator) && forall i :: 0 <= i < |parts| ==> Utf8.Valid(parts[i])
    ensures Utf8.Valid(JoinWith(parts, separator))
  {
    if |parts| > 1 {
      JoinIsValid(parts[1..], separator);
      Utf8.ThreePieces(parts[0], separator, JoinWith(parts[1..], separator));
    }
  }

  lemma AfterNewline(s: ByteString)
    requires Utf8.Valid(s) && s != [] && s[0] == NEWLINE
    ensures Utf8.Valid(s[1..])
  {
    assert Utf8.CharLen(s) == 1;
  }

  /** Cutting valid text at newlines cuts no character. */
  lemma {:induction false} PartsAreValid(s: ByteString, i: nat)
    requires Utf8.Valid(s) && i <= |s| && NEWLINE !in s[..i] && (i == |s| || s[i] == NEWLINE)
    ensures forall k :: 0 <= k < |SplitOn(s, NEWLINE)| ==> Utf8.Valid(SplitOn(s, NEWLINE)[k])
    decreases |s| - i
  {
    SplitFirst(s, i);
    Utf8.CutAtBoundary(s, i);
    if i < |s| {
      AfterNewline(s[i..]);
      var rest := s[i + 1..];
      assert s[i..][1..] == rest;
      var j := FirstNewline(rest);
      PartsAreValid(rest, j);
    }
  }

  lemma LinesAreValid(s: ByteString)
    requires Utf8.Valid(s)
    ensures forall k :: 0 <= k < |LinesOf(s)| ==> Utf8.Valid(LinesOf(s)[k])
  {
    PartsAreValid(s, FirstNewline(s));
  }

  lemma NumberedIsValid(lines: seq<ByteString>, first: nat, last: nat)
    requires 1 <= first && last <= |lines|
    requires forall k :: 0 <= k < |lines| ==> Utf8.Valid(lines[k])
    ensures forall i :: 0 <= i < |Numbered(lines, first, last)| ==> Utf8.Valid(Numbered(lines, first, last)[i])
  {
    forall i | 0 <= i < |Numbered(lines, first, last)|
      ensures Utf8.Valid(Numbered(lines, first, last)[i])
    {
      DigitsReadBack(first + i);
      AsciiIsValid(Digits(first + i) + [58, 32]);
      Utf8.ValidConcat(Digits(first + i) + [58, 32], lines[first + i - 1]);
    }
  }

  lemma RenderIsValid(lines: seq<ByteString>, first: nat, last: nat)
    requires 1 <= first && last <= |lines|
    requires forall k :: 0 <= k < |lines| ==> Utf8.Valid(lines[k])
    ensures Utf8.Valid(Render(lines, first, last))
  {
    NumberedIsValid(lines, first, last);
    AsciiIsValid([NEWLINE]);
    JoinIsValid(Numbered(lines, first, last), [NEWLINE]);
  }

  // ---------------------------------------------------------------- one edit

  function WantBefore(span: Window): nat
    requires 1 <= span.first
  {
    Min(CONTEXT_LINES, span.first - 1)
  }

  function WantAfter(span: Window, total: nat): nat
    requires span.last <= total
  {
    Min(CONTEXT_LINES, total - span.last)
  }

  predicate SpanFits(lines: seq<ByteString>, span: Window)
    requires 1 <= span.first <= span.last <= |lines|
  {
    span.last - span.first + 1 <= MAX_LINES && |Render(lines, span.first, span.last)| <= MAX_BYTES
  }

  /** The window with one more context line, granted to the side whose turn it is, breaks a cap. */
  ghost predicate NoRoomForMore(lines: seq<ByteString>, span: Window, before: nat, after: nat)
    requires 1 <= span.first <= span.last <= |lines|
  {
    || before + after + (span.last - span.first + 1) == MAX_LINES
    || exists b: nat, a: nat :: Wider(lines, span, before, after, b, a)
  }

  predicate Wider(lines: seq<ByteString>, span: Window, before: nat, after: nat, b: nat, a: nat)
    requires 1 <= span.first <= span.last <= |lines|
  {
    && Balanced(b, a, WantBefore(span), WantAfter(span, |lines|)) && b + a == before + after + 1
    && |Render(lines, span.first - b, span.last + a)| > MAX_BYTES
  }

  /** The window around a change that fits: whole, within both caps, balanced, and trimmed only at need. */
  ghost predicate GoodWindow(lines: seq<ByteString>, span: Window, r: Region)
    requires 1 <= span.first <= span.last <= |lines|
  {
    && r.Shown? && 1 <= r.first <= span.first && span.last <= r.last <= |lines|
    && r.last - r.first + 1 <= MAX_LINES
    && r.body == Render(lines, r.first, r.last) && |r.body| <= MAX_BYTES
    && Balanced(span.first - r.first, r.last - span.last, WantBefore(span), WantAfter(span, |lines|))
    && r.marker == (if span.first - r.first < WantBefore(span) || r.last - span.last < WantAfter(span, |lines|)
                    then ContextTrimmed else NoMarker)
    && (r.marker.ContextTrimmed? ==> NoRoomForMore(lines, span, span.first - r.first, r.last - span.last))
  }

  /** The head of a change that does not fit, cut between characters. */
  ghost predicate CutChange(lines: seq<ByteString>, span: Window, r: Region)
    requires 1 <= span.first <= span.last <= |lines|
  {
    && r.Shown? && r.marker.ChangeTruncated?
    && r.first == span.first && r.last == Min(span.last, span.first + MAX_LINES - 1)
    && Utf8.ClippedTo(Render(lines, r.first, r.last), MAX_BYTES, r.body) && Utf8.Valid(r.body)
    && (if |Render(lines, r.first, r.last)| <= MAX_BYTES then r.body == Render(lines, r.first, r.last)
        else MAX_BYTES - 4 <= |r.body| <= MAX_BYTES)
  }

  /** What the view of one edit promises. */
  ghost predicate ShowsEdit(after: ByteString, m: Mark, r: Region) {
    var lines := LinesOf(after);
    if lines == [] then r == Nothing
    else
      var span := ChangedSpan(after, m, |lines|);
      if SpanFits(lines, span) then GoodWindow(lines, span, r) else CutChange(lines, span, r)
  }

  method PostEditRegion(before: ByteString, after: ByteString, m: Mark) returns (r: Region)
    requires Utf8.Valid(after)
    requires m.start <= |before| && m.start <= |after| && before[..m.start] == after[..m.start]
    ensures ShowsEdit(after, m, r)
  {
    var lines := LinesOf(after);
    var total := |lines|;
    if total == 0 {
      return Nothing;
    }
    var span := ChangedSpan(before, m, total);
    assert span == ChangedSpan(after, m, total);
    var count := span.last - span.first + 1;
    var changed := Render(lines, span.first, Min(span.last, span.first + MAX_LINES - 1));
    if count > MAX_LINES || |changed| > MAX_BYTES {
      LinesAreValid(after);
      RenderIsValid(lines, span.first, Min(span.last, span.first + MAX_LINES - 1));
      var head := Utf8.ClipToBytes(changed, MAX_BYTES);
      return Shown(span.first, Min(span.last, span.first + MAX_LINES - 1), head, ChangeTruncated);
    }
    r := WindowAround(lines, span);
  }

  /** Spend the line budget on context, then give lines back until the bytes fit. */
  method WindowAround(lines: seq<ByteString>, span: Window) returns (r: Region)
    requires 1 <= span.first <= span.last <= |lines| && SpanFits(lines, span)
    ensures GoodWindow(lines, span, r)
  {
    var wantBefore, wantAfter := WantBefore(span), WantAfter(span, |lines|);
    var budget := MAX_LINES - (span.last - span.first + 1);
    var trimmed := wantBefore + wantAfter > budget;
    var before: nat, after: nat := wantBefore, wantAfter;
    if trimmed {
      before, after := BalancedGrow(budget, wantBefore, wantAfter);
    }
    StartsTrimmed(lines, span, budget, before, after);
    var body, shrunk;
    before, after, body, shrunk := TrimToBytes(lines, span, before, after);
    trimmed := trimmed || shrunk;
    TrimmedIsGood(lines, span, before, after, body, trimmed);
    hide *;
    r := Shown(span.first - before, span.last + after, body, if trimmed then ContextTrimmed else NoMarker);
  }

  ghost predicate Trimmed(lines: seq<ByteString>, span: Window, before: nat, after: nat)
    requires 1 <= span.first <= span.last <= |lines|
  {
    && Balanced(before, after, WantBefore(span), WantAfter(span, |lines|))
    && before + after + (span.last - span.first + 1) <= MAX_LINES
    && (before + after < WantBefore(span) + WantAfter(span, |lines|) ==> NoRoomForMore(lines, span, before, after))
  }

  lemma StartsTrimmed(lines: seq<ByteString>, span: Window, budget: nat, before: nat, after: nat)
    requires 1 <= span.first <= span.last <= |lines| && budget + (span.last - span.first + 1) == MAX_LINES
    requires Balanced(before, after, WantBefore(span), WantAfter(span, |lines|))
    requires before + after == Min(budget, WantBefore(span) + WantAfter(span, |lines|))
    ensures Trimmed(lines, span, before, after)
  {
    hide Render, Balanced;
  }

  lemma TrimmedIsGood(lines: seq<ByteString>, span: Window, before: nat, after: nat, body: ByteString, trimmed: bool)
    requires 1 <= span.first <= span.last <= |lines| && Trimmed(lines, span, before, after)
    requires body == Render(lines, span.first - before, span.last + after) && |body| <= MAX_BYTES
    requires trimmed <==> before + after < WantBefore(span) + WantAfter(span, |lines|)
    ensures GoodWindow(lines, span, Shown(span.first - before, span.last + after, body,
                                          if trimmed then ContextTrimmed else NoMarker))
  {
    hide Render, NoRoomForMore;
  }

  method TrimToBytes(lines: seq<ByteString>, span: Window, before0: nat, after0: nat)
    returns (before: nat, after: nat, body: ByteString, shrunk: bool)
    requires 1 <= span.first <= span.last <= |lines| && SpanFits(lines, span)
    requires Trimmed(lines, span, before0, after0)
    ensures Trimmed(lines, span, before, after)
    ensures before <= before0 && after <= after0 && (shrunk <==> before + after < before0 + after0)
    ensures body == Render(lines, span.first - before, span.last + after) && |body| <= MAX_BYTES
  {
    hide NoRoomForMore, Numbered;
    before, after, shrunk := before0, after0, false;
    body := Render(lines, span.first - before, span.last + after);
    while |body| > MAX_BYTES && (before > 0 || after > 0)
      invariant Trimmed(lines, span, before, after)
      invariant before <= before0 && after <= after0 && (shrunk <==> before + after < before0 + after0)
      invariant body == Render(lines, span.first - before, span.last + after)
      decreases before + after
    {
      shrunk := true;
      var b, a := BalancedShrink(before, after, 1);
      TrimStep(lines, span, before, after, b, a);
      before, after := b, a;
      body := Render(lines, span.first - before, span.last + after);
    }
  }

  lemma TrimStep(lines: seq<ByteString>, span: Window, before: nat, after: nat, b: nat, a: nat)
    requires 1 <= span.first <= span.last <= |lines|
    requires Trimmed(lines, span, before, after)
    requires |Render(lines, span.first - before, span.last + after)| > MAX_BYTES
    requires Balanced(b, a, before, after) && b + a + 1 == before + after
    ensures Trimmed(lines, span, b, a)
  {
    ShrinkKeepsBalance(before, after, b, a, WantBefore(span), WantAfter(span, |lines|));
    assert Wider(lines, span, b, a, before, after);
  }

  /**
   * Every line that carries an inserted byte is shown whole, under its true number, unless the
   * change-truncated marker is there.
   */
  lemma InsertedBytesAreShown(after: ByteString, m: Mark, r: Region, k: nat)
    requires m.start + |m.text| <= |after| && after[m.start..m.start + |m.text|] == m.text
    requires m.start <= k < m.start + |m.text|
    requires ShowsEdit(after, m, r)
    ensures r.Shown? && 1 <= r.first <= r.last <= |LinesOf(after)|
    ensures r.last - r.first + 1 <= MAX_LINES && |r.body| <= MAX_BYTES
    ensures !r.marker.ChangeTruncated? ==>
      r.first <= LineOf(after, k) <= r.last && r.body == Render(LinesOf(after), r.first, r.last)
  {
    LineOfInRange(after, k);
    InsertedLines(after, m.start, m.text, k);
  }

  // ---------------------------------------------------------------- several edits

  /** One edit's lines and up to three lines of context on each side. */
  function WindowOf(after: ByteString, m: Mark, total: nat): (w: Window)
    requires total > 0
    ensures 1 <= w.first <= w.last <= total
  {
    var span := ChangedSpan(after, m, total);
    Window(Max(1, span.first - CONTEXT_LINES), Min(total, span.last + CONTEXT_LINES))
  }

  predicate Covers(w: Window, line: nat) {
    w.first <= line <= w.last
  }

  predicate AnyCovers(windows: seq<Window>, line: nat) {
    exists i :: 0 <= i < |windows| && Covers(windows[i], line)
  }

  predicate Before(v: Window, w: Window) {
    v.first < w.first || (v.first == w.first && v.last <= w.last)
  }

  predicate Sorted(windows: seq<Window>) {
    forall i, j :: 0 <= i < j < |windows| ==> Before(windows[i], windows[j])
  }

  function Insert(w: Window, sorted: seq<Window>): (r: seq<Window>)
    requires Sorted(sorted)
    ensures Sorted(r) && |r| == |sorted| + 1
    ensures forall v :: v in r <==> v == w || v in sorted
  {
    if sorted == [] then [w]
    else if Before(w, sorted[0]) then [w] + sorted
    else
      var rest := Insert(w, sorted[1..]);
      assert forall v :: v in sorted <==> v == sorted[0] || v in sorted[1..];
      assert forall v :: v in sorted[1..] ==> Before(sorted[0], v);
      assert forall v :: v in rest ==> Before(sorted[0], v);
      [sorted[0]] + rest
  }

  /** `windows.sort()`. */
  function Sort(windows: seq<Window>): (r: seq<Window>)
    ensures Sorted(r) && |r| == |windows|
    ensures forall v :: v in r <==> v in windows
  {
    if windows == [] then [] else Insert(windows[0], Sort(windows[1..]))
  }

  /** Separate blocks, in order, with at least one hidden line between any two. */
  predicate Separated(blocks: seq<Window>, total: nat) {
    && (forall i :: 0 <= i < |blocks| ==> 1 <= blocks[i].first <= blocks[i].last <= total)
    && (forall i, j :: 0 <= i < j < |blocks| ==> blocks[i].last + 1 < blocks[j].first)
  }

  function WindowsOf(after: ByteString, marks: seq<Mark>, total: nat): (windows: seq<Window>)
    requires total > 0
    ensures |windows| == |marks|
  {
    seq(|marks|, i requires 0 <= i < |marks| => WindowOf(after, marks[i], total))
  }

  /** The window overlaps or touches the last block. */
  predicate Touches(blocks: seq<Window>, w: Window) {
    blocks != [] && w.first <= blocks[|blocks| - 1].last + 1
  }

  function Widen(blocks: seq<Window>, w: Window): seq<Window>
    requires blocks != []
  {
    var last := |blocks| - 1;
    blocks[last := Window(blocks[last].first, Max(blocks[last].last, w.last))]
  }

  /** One more window in order of starts: the last block is widened or a new one begun. */
  function Merge(blocks: seq<Window>, w: Window): seq<Window> {
    if Touches(blocks, w) then Widen(blocks, w) else blocks + [w]
  }

  function MergeAll(sorted: seq<Window>): seq<Window> {
    if sorted == [] then [] else Merge(MergeAll(sorted[..|sorted| - 1]), sorted[|sorted| - 1])
  }

  predicate Inside(windows: seq<Window>, total: nat) {
    forall i :: 0 <= i < |windows| ==> 1 <= windows[i].first <= windows[i].last <= total
  }

  /** What merging comes to: separate blocks that cover what the windows cover. */
  lemma {:induction false} MergeAllSeparates(sorted: seq<Window>, total: nat)
    requires Sorted(sorted) && Inside(sorted, total)
    ensures Separated(MergeAll(sorted), total)
    ensures sorted != [] ==> MergeAll(sorted) != []
    ensures sorted != [] ==> MergeAll(sorted)[|MergeAll(sorted)| - 1].first <= sorted[|sorted| - 1].first
    ensures forall line: nat :: AnyCovers(MergeAll(sorted), line) <==> AnyCovers(sorted, line)
  {
    hide AnyCovers, Separated, Merge, Sorted, Inside, Before;
    if sorted == [] {
      NoBlocks(total);
    } else {
      var last := |sorted| - 1;
      SortedInit(sorted, total);
      MergeAllSeparates(sorted[..last], total);
      MergeStep(MergeAll(sorted[..last]), sorted[..last], sorted[last], total);
      assert sorted == sorted[..last] + [sorted[last]];
    }
  }

  lemma SortedInit(sorted: seq<Window>, total: nat)
    requires Sorted(sorted) && Inside(sorted, total) && sorted != []
    ensures var last := |sorted| - 1;
            && Sorted(sorted[..last]) && Inside(sorted[..last], total)
            && 1 <= sorted[last].first <= sorted[last].last <= total
            && (last > 0 ==> sorted[..last][last - 1].first <= sorted[last].first)
  {
    assert |sorted| > 1 ==> Before(sorted[|sorted| - 2], sorted[|sorted| - 1]);
  }

  lemma NoBlocks(total: nat)
    ensures Separated([], total)
  {
  }

  /** Merge overlapping or adjacent windows in place. */
  method MergeWindows(windows: seq<Window>, total: nat) returns (merged: seq<Window>)
    requires Inside(windows, total)
    ensures merged == MergeAll(Sort(windows)) && Separated(merged, total)
    ensures forall line: nat :: AnyCovers(merged, line) <==> AnyCovers(windows, line)
  {
    hide AnyCovers, Separated;
    var sorted := Sort(windows);
    merged := [];
    for n := 0 to |sorted|
      invariant merged == MergeAll(sorted[..n])
    {
      var w := sorted[n];
      assert sorted[..n + 1][..n] == sorted[..n];
      if merged != [] && w.first <= merged[|merged| - 1].last + 1 {
        var last := |merged| - 1;
        merged := merged[last := Window(merged[last].first, Max(merged[last].last, w.last))];
      } else {
        merged := merged + [w];
      }
    }
    assert sorted[..|sorted|] == sorted;
    SortedIsMerged(windows, total);
  }

  lemma SortedIsMerged(windows: seq<Window>, total: nat)
    requires Inside(windows, total)
    ensures Separated(MergeAll(Sort(windows)), total)
    ensures forall line: nat :: AnyCovers(MergeAll(Sort(windows)), line) <==> AnyCovers(windows, line)
  {
    hide MergeAll, AnyCovers, Separated;
    var sorted := Sort(windows);
    forall i | 0 <= i < |sorted|
      ensures 1 <= sorted[i].first <= sorted[i].last <= total
    {
      assert sorted[i] in windows;
    }
    MergeAllSeparates(sorted, total);
    SameCover(windows, sorted);
  }

  /** The blocks that a list of edits shows. */
  function BlocksOf(after: ByteString, marks: seq<Mark>): (blocks: seq<Window>)
    requires LinesOf(after) != []
    ensures Separated(blocks, |LinesOf(after)|)
  {
    var total := |LinesOf(after)|;
    SortedIsMerged(WindowsOf(after, marks, total), total);
    MergeAll(Sort(WindowsOf(after, marks, total)))
  }

  lemma MergeStep(was: seq<Window>, done: seq<Window>, w: Window, total: nat)
    requires forall line: nat :: AnyCovers(was, line) <==> AnyCovers(done, line)
    requires Separated(was, total) && 1 <= w.first <= w.last <= total
    requires was != [] ==> was[|was| - 1].first <= w.first
    ensures var merged := Merge(was, w);
            && Separated(merged, total) && merged != [] && merged[|merged| - 1].first <= w.first
            && forall line: nat :: AnyCovers(merged, line) <==> AnyCovers(done + [w], line)
  {
    var merged := Merge(was, w);
    forall line: nat
      ensures AnyCovers(merged, line) <==> AnyCovers(done + [w], line)
    {
      CoverSnoc(done, w, line);
      if Touches(was, w) {
        WidenCovers(was, w, line);
      } else {
        CoverSnoc(was, w, line);
      }
    }
  }

  lemma WidenCovers(was: seq<Window>, w: Window, line: nat)
    requires was != [] && was[|was| - 1].first <= w.first <= w.last && Touches(was, w)
    requires was[|was| - 1].first <= was[|was| - 1].last
    ensures AnyCovers(Widen(was, w), line) <==> AnyCovers(was, line) || Covers(w, line)
  {
    var last := |was| - 1;
    var top := Window(was[last].first, Max(was[last].last, w.last));
    assert Widen(was, w) == was[..last] + [top] && was == was[..last] + [was[last]];
    CoverSnoc(was[..last], top, line);
    CoverSnoc(was[..last], was[last], line);
  }

  lemma CoverSnoc(windows: seq<Window>, w: Window, line: nat)
    ensures AnyCovers(windows + [w], line) <==> AnyCovers(windows, line) || Covers(w, line)
  {
    var all := windows + [w];
    if AnyCovers(windows, line) {
      var i :| 0 <= i < |windows| && Covers(windows[i], line);
      assert all[i] == windows[i];
    }
    if Covers(w, line) {
      assert all[|windows|] == w;
    }
  }

  lemma SameCover(v: seq<Window>, w: seq<Window>)
    requires forall x :: x in v <==> x in w
    ensures forall line: nat :: AnyCovers(v, line) <==> AnyCovers(w, line)
  {
    forall line: nat
      ensures AnyCovers(v, line) <==> AnyCovers(w, line)
    {
      assert forall i :: 0 <= i < |v| ==> v[i] in w;
      assert forall i :: 0 <= i < |w| ==> w[i] in v;
    }
  }

  /** What several edits show; `clipped` says that the context marker follows the body. */
  datatype View = One(region: Region) | NoLines | Blocks(windows: seq<Window>, body: ByteString, clipped: bool)

  function Rendered(lines: seq<ByteString>, windows: seq<Window>): (parts: seq<ByteString>)
    requires Separated(windows, |lines|)
    ensures |parts| == |windows|
  {
    seq(|windows|, i requires 0 <= i < |windows| => Render(lines, windows[i].first, windows[i].last))
  }

  const GAP: ByteString := [NEWLINE, 46, 46, 46, NEWLINE]

  ghost predicate ShowsEdits(after: ByteString, marks: seq<Mark>, view: View) {
    var lines := LinesOf(after);
    if |marks| == 1 then view.One? && ShowsEdit(after, marks[0], view.region)
    else if lines == [] then view == NoLines
    else
      && view.Blocks? && view.windows == BlocksOf(after, marks)
      && (forall line: nat :: AnyCovers(view.windows, line) <==> AnyCovers(WindowsOf(after, marks, |lines|), line))
      && var full := JoinWith(Rendered(lines, view.windows), GAP);
         && view.clipped == (|full| > MAX_BYTES)
         && (if view.clipped
             then Utf8.ClippedTo(full, MAX_BYTES, view.body) && Utf8.Valid(view.body)
                  && MAX_BYTES - 4 <= |view.body| <= MAX_BYTES
             else view.body == full)
  }

  /** Of several edits there is only one view to show. */
  lemma ListViewIsFixed(after: ByteString, marks: seq<Mark>, view: View, other: View)
    requires |marks| != 1 && ShowsEdits(after, marks, view) && ShowsEdits(after, marks, other)
    ensures view == other
  {
    hide LinesOf, BlocksOf, Rendered, Utf8.ClippedTo;
    if LinesOf(after) != [] && view.clipped {
      var full := JoinWith(Rendered(LinesOf(after), view.windows), GAP);
      Utf8.ClippedToIsUnique(full, MAX_BYTES, view.body, other.body);
    }
  }

  method PostEditRegions(before: ByteString, after: ByteString, marks: seq<Mark>) returns (view: View)
    requires Utf8.Valid(after) && marks != []
    requires |marks| == 1 ==>
      var at := marks[0].start; at <= |before| && at <= |after| && before[..at] == after[..at]
    ensures ShowsEdits(after, marks, view)
  {
    if |marks| == 1 {
      var region := PostEditRegion(before, after, marks[0]);
      return One(region);
    }
    var lines := LinesOf(after);
    if |lines| == 0 {
      return NoLines;
    }
    var merged := MergeWindows(WindowsOf(after, marks, |lines|), |lines|);
    var full := JoinWith(Rendered(lines, merged), GAP);
    if |full| > MAX_BYTES {
      BlocksAreValid(after, merged);
      var body := Utf8.ClipToBytes(full, MAX_BYTES);
      return Blocks(merged, body, true);
    }
    return Blocks(merged, full, false);
  }

  lemma BlocksAreValid(after: ByteString, windows: seq<Window>)
    requires Utf8.Valid(after) && Separated(windows, |LinesOf(after)|)
    ensures Utf8.Valid(JoinWith(Rendered(LinesOf(after), windows), GAP))
  {
    LinesAreValid(after);
    forall i | 0 <= i < |windows|
      ensures Utf8.Valid(Rendered(LinesOf(after), windows)[i])
    {
      RenderIsValid(LinesOf(after), windows[i].first, windows[i].last);
    }
    AsciiIsValid(GAP);
    JoinIsValid(Rendered(LinesOf(after), windows), GAP);
  }

  // ---------------------------------------------------------------- the text the model sees

  const CONTEXT_MARKER: string :=
    "...[region context trimmed to fit cap: 40 lines / 4000 bytes; the change above is shown in full]...\n"

  const CHANGE_MARKER: string :=
    "...[region truncated: the change itself exceeds 40 lines / 4000 bytes with no context]...\n"

  function RegionText(r: Region): ByteString {
    match r
    case Nothing => []
    case Shown(_, _, body, NoMarker) => body
    case Shown(_, _, body, ContextTrimmed) => body + [NEWLINE] + Ascii(CONTEXT_MARKER)
    case Shown(_, _, body, ChangeTruncated) => body + [NEWLINE] + Ascii(CHANGE_MARKER)
  }

  function ViewText(view: View): ByteString {
    match view
    case One(region) => RegionText(region)
    case NoLines => []
    case Blocks(_, body, clipped) => if clipped then body + [NEWLINE] + Ascii(CONTEXT_MARKER) else body
  }

  /** Whatever the edits, the view is at most the byte cap, one newline and one marker. */
  lemma ViewIsBounded(after: ByteString, marks: seq<Mark>, view: View)
    requires marks != [] && ShowsEdits(after, marks, view)
    ensures |ViewText(view)| <= MAX_BYTES + 1 + |CONTEXT_MARKER|
  {
    assert |CHANGE_MARKER| <= |CONTEXT_MARKER|;
    hide LinesOf, Render, Rendered, JoinWith, BlocksOf, WindowsOf, AnyCovers, ChangedSpan, Balanced, NoRoomForMore;
    hide Utf8.ClippedTo, Utf8.Valid;
  }

  function Range(w: Window): (numbers: seq<int>)
    requires w.first <= w.last
    ensures forall i :: 0 <= i < |numbers| ==> w.first <= numbers[i] == w.first + i <= w.last
  {
    seq(w.last - w.first + 1, i => w.first + i)
  }

  /** The numbers of the lines shown, in the order they are rendered. */
  function LineNumbers(windows: seq<Window>): seq<int>
    requires forall i :: 0 <= i < |windows| ==> windows[i].first <= windows[i].last
  {
    if windows == [] then [] else Range(windows[0]) + LineNumbers(windows[1..])
  }

  /** No line is rendered twice, and the order of the text is kept. */
  lemma {:induction false} EachLineOnce(windows: seq<Window>, total: nat)
    requires Separated(windows, total)
    ensures forall i :: 0 <= i < |LineNumbers(windows)| ==> windows != [] && windows[0].first <= LineNumbers(windows)[i]
    ensures forall i, j :: 0 <= i < j < |LineNumbers(windows)| ==> LineNumbers(windows)[i] < LineNumbers(windows)[j]
  {
    if windows != [] {
      var rest := LineNumbers(windows[1..]);
      EachLineOnce(windows[1..], total);
      forall i | 0 <= i < |rest|
        ensures windows[0].last < rest[i]
      {
        assert windows[1..][0] == windows[1];
      }
      assert LineNumbers(windows) == Range(windows[0]) + rest;
    } else {
      assert LineNumbers(windows) == [];
    }
  }

  /** A surviving edit of a list is shown: every byte it wrote lies on a line of some block. */
  lemma SurvivorsAreShown(s: ByteString, log: seq<Edit>, i: nat, view: View, k: nat)
    requires |log| > 1 && LogFits(s, log) && i < |log| && Survives(log, i)
    requires ShowsEdits(Replay(s, log), Recorded(log), view)
    requires Recorded(log)[i].start <= k < Recorded(log)[i].start + |log[i].text|
    ensures view.Blocks? && k < |Replay(s, log)| && Origins(s, log)[k] == Inserted(i, k - Recorded(log)[i].start)
    ensures AnyCovers(view.windows, LineOf(Replay(s, log), k))
  {
    hide *;
    var final, marks := Replay(s, log), Recorded(log);
    SurvivorsStand(s, log, i);
    SurvivorsAreMarked(s, log, i);
    StoodOn(Origins(s, log), marks[i], i, k);
    MarkedBytesAreShown(final, marks, i, view, k);
  }

  lemma StoodOn(origins: seq<Origin>, m: Mark, i: nat, k: nat)
    requires StandsOn(origins, m, i) && m.start <= k < m.start + |m.text|
    ensures k < |origins| && origins[k] == Inserted(i, k - m.start)
  {
    assert origins[m.start + (k - m.start)] == Inserted(i, k - m.start);
  }

  lemma MarkedBytesAreShown(final: ByteString, marks: seq<Mark>, i: nat, view: View, k: nat)
    requires |marks| > 1 && i < |marks| && marks[i].start + |marks[i].text| <= |final|
    requires final[marks[i].start..marks[i].start + |marks[i].text|] == marks[i].text
    requires marks[i].start <= k < marks[i].start + |marks[i].text|
    requires ShowsEdits(final, marks, view)
    ensures view.Blocks? && AnyCovers(view.windows, LineOf(final, k))
  {
    hide LinesOf, LineOf, Newlines, Rendered;
    LineOfInRange(final, k);
    assert LinesOf(final) != [];
    InsertedLines(final, marks[i].start, marks[i].text, k);
    assert Covers(WindowsOf(final, marks, |LinesOf(final)|)[i], LineOf(final, k));
  }
}
