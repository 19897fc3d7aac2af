/** Newline counting and splitting, which the edit views rely on for true line numbers. */
module Lines {
  import opened Bytes

  /** `s.count(b"\n")`. */
  function Newlines(s: ByteString): nat {
    if s == [] then 0 else (if s[0] == NEWLINE then 1 else 0) + Newlines(s[1..])
  }

  /** The 1-based line that holds byte `offset`; an offset past the end counts as the end. */
  function LineOf(s: ByteString, offset: nat): (line: nat)
    ensures line >= 1
  {
    Newlines(s[..Min(offset, |s|)]) + 1
  }

  /** `s.split(separator)`. */
  function SplitOn<T(==)>(s: seq<T>, separator: T): (parts: seq<seq<T>>)
    ensures parts != []
  {
    if s == [] then [[]]
    else
      var rest := SplitOn(s[1..], separator);
      if s[0] == separator then [[]] + rest else [[s[0]] + rest[0]] + rest[1..]
  }

  /** The lines of a text: a trailing newline ends the last line, it does not add one. */
  function LinesOf(s: ByteString): seq<ByteString> {
    var parts := SplitOn(s, NEWLINE);
    if parts[|parts| - 1] == [] then parts[..|parts| - 1] else parts
  }

  /** `separator.join(parts)`. */
  function JoinWith<T>(parts: seq<seq<T>>, separator: seq<T>): seq<T> {
    if parts == [] then []
    else if |parts| == 1 then parts[0]
    else parts[0] + separator + JoinWith(parts[1..], separator)
  }

  lemma {:induction false} NewlinesConcat(s: ByteString, t: ByteString)
    ensures Newlines(s + t) == Newlines(s) + Newlines(t)
  {
    if s == [] {
      assert s + t == t;
    } else {
      assert (s + t)[1..] == s[1..] + t;
      NewlinesConcat(s[1..], t);
    }
  }

  lemma {:induction false} JoinUndoesSplit<T>(s: seq<T>, separator: T)
    ensures JoinWith(SplitOn(s, separator), [separator]) == s
  {
    if s != [] {
      var rest := SplitOn(s[1..], separator);
      JoinUndoesSplit(s[1..], separator);
      assert s == [s[0]] + s[1..];
      if s[0] == separator {
        assert ([[]] + rest)[1..] == rest;
      } else {
        var parts := [[s[0]] + rest[0]] + rest[1..];
        assert parts[1..] == rest[1..];
      }
    }
  }

  lemma {:induction false} SplitParts(s: ByteString)
    ensures |SplitOn(s, NEWLINE)| == Newlines(s) + 1
    ensures forall i :: 0 <= i < |SplitOn(s, NEWLINE)| ==> NEWLINE !in SplitOn(s, NEWLINE)[i]
  {
    if s != [] {
      SplitParts(s[1..]);
    }
  }

  /** The last part is empty exactly when the text is empty or ends in a newline. */
  lemma {:induction false} LastPart(s: ByteString)
    ensures var parts := SplitOn(s, NEWLINE);
            parts[|parts| - 1] == [] <==> s == [] || s[|s| - 1] == NEWLINE
  {
    if s != [] {
      LastPart(s[1..]);
      assert |s| > 1 ==> s[1..][|s| - 2] == s[|s| - 1];
    }
  }

  function FirstNewline(s: ByteString): (i: nat)
    ensures i <= |s| && NEWLINE !in s[..i] && (i == |s| || s[i] == NEWLINE)
  {
    if s == [] || s[0] == NEWLINE then 0 else 1 + FirstNewline(s[1..])
  }

  lemma {:induction false} SplitFirst(s: ByteString, i: nat)
    requires i <= |s| && NEWLINE !in s[..i] && (i == |s| || s[i] == NEWLINE)
    ensures SplitOn(s, NEWLINE) == [s[..i]] + (if i == |s| then [] else SplitOn(s[i + 1..], NEWLINE))
  {
    if i > 0 {
      assert s[..i] == [s[0]] + s[1..i];
      assert s[1..][..i - 1] == s[1..i];
      SplitFirst(s[1..], i - 1);
      assert i < |s| ==> s[1..][i..] == s[i + 1..];
    }
  }

  lemma LineCount(s: ByteString)
    ensures |LinesOf(s)| == Newlines(s) + (if s == [] || s[|s| - 1] == NEWLINE then 0 else 1)
  {
    SplitParts(s);
    LastPart(s);
  }

  /** The lines, each closed by a newline except perhaps the last, are the text itself. */
  lemma LinesRebuildText(s: ByteString)
    ensures JoinWith(LinesOf(s), [NEWLINE]) + (if s != [] && s[|s| - 1] == NEWLINE then [NEWLINE] else []) == s
  {
    hide Newlines, SplitOn;
    var parts := SplitOn(s, NEWLINE);
    JoinUndoesSplit(s, NEWLINE);
    LastPart(s);
    if s != [] && s[|s| - 1] == NEWLINE {
      TwoParts(s);
      JoinInit(parts, [NEWLINE]);
    }
  }

  lemma TwoParts(s: ByteString)
    requires s != [] && s[|s| - 1] == NEWLINE
    ensures |SplitOn(s, NEWLINE)| > 1
  {
    hide SplitOn;
    SplitParts(s);
    NewlinesConcat(s[..|s| - 1], [NEWLINE]);
    assert s == s[..|s| - 1] + [NEWLINE];
    assert Newlines([NEWLINE]) == 1 + Newlines([]);
  }

  lemma {:induction false} JoinInit<T>(parts: seq<seq<T>>, separator: seq<T>)
    requires |parts| > 1
    ensures JoinWith(parts, separator) == JoinWith(parts[..|parts| - 1], separator) + separator + parts[|parts| - 1]
  {
    var init := parts[..|parts| - 1];
    if |parts| == 2 {
      assert parts[1..] == [parts[1]] && init == [parts[0]];
    } else {
      JoinInit(parts[1..], separator);
      assert parts[1..][..|parts| - 2] == init[1..];
    }
  }

  // ---------------------------------------------------------------- bytes and their lines

  /** How far byte `k` is into its line. */
  function Column(s: ByteString, k: nat): nat
    requires k <= |s|
  {
    if k == 0 || s[k - 1] == NEWLINE then 0 else Column(s, k - 1) + 1
  }

  lemma {:induction false} ColumnDrop(s: ByteString, k: nat)
    requires 0 < k <= |s|
    ensures Column(s, k) == Column(s[1..], k - 1)
              + (if s[0] != NEWLINE && Newlines(s[1..k]) == 0 then 1 else 0)
  {
    if k == 1 {
      assert s[1..1] == [];
    } else {
      assert s[1..][k - 2] == s[k - 1];
      assert s[1..k] == s[1..k - 1] + [s[k - 1]];
      NewlinesConcat(s[1..k - 1], [s[k - 1]]);
      if s[k - 1] != NEWLINE {
        ColumnDrop(s, k - 1);
      }
    }
  }

  /** Numbering is true: byte `k` of the text is byte `Column` of line number `LineOf`. */
  lemma {:induction false} ByteIsOnItsLine(s: ByteString, k: nat)
    requires k < |s| && s[k] != NEWLINE
    ensures var parts := SplitOn(s, NEWLINE);
            && LineOf(s, k) <= |parts|
            && Column(s, k) < |parts[LineOf(s, k) - 1]|
            && parts[LineOf(s, k) - 1][Column(s, k)] == s[k]
  {
    if k == 0 {
      assert s[..0] == [];
    } else {
      ByteIsOnItsLine(s[1..], k - 1);
      LineOfDrop(s, k);
      ColumnDrop(s, k);
      hide LineOf, Newlines, Column;
    }
  }

  lemma LineOfDrop(s: ByteString, k: nat)
    requires 0 < k <= |s|
    ensures LineOf(s, k) == LineOf(s[1..], k - 1) + (if s[0] == NEWLINE then 1 else 0)
    ensures Newlines(s[1..k]) == LineOf(s[1..], k - 1) - 1
  {
    assert s[..k] == [s[0]] + s[1..k] && s[1..][..k - 1] == s[1..k];
    assert s[..k][1..] == s[1..k];
  }

  lemma LineOfMonotone(s: ByteString, i: nat, j: nat)
    requires i <= j
    ensures LineOf(s, i) <= LineOf(s, j)
  {
    var a, b := Min(i, |s|), Min(j, |s|);
    assert s[..b] == s[..a] + s[a..b];
    NewlinesConcat(s[..a], s[a..b]);
  }

  /** Every byte lies on a line that the text has. */
  lemma LineOfInRange(s: ByteString, k: nat)
    requires k < |s|
    ensures LineOf(s, k) <= |LinesOf(s)|
  {
    hide SplitOn, LinesOf;
    LineCount(s);
    assert s == s[..k] + s[k..];
    NewlinesConcat(s[..k], s[k..]);
    var last := |s| - 1;
    assert s[k..] == s[k..last] + [s[last]];
    NewlinesConcat(s[k..last], [s[last]]);
    assert Newlines([s[last]]) == (if s[last] == NEWLINE then 1 else 0) + Newlines([]);
  }

  /** The bytes of an inserted text lie between its first line and the line after its last newline. */
  lemma InsertedLines(s: ByteString, o: nat, text: ByteString, k: nat)
    requires o + |text| <= |s| && s[o..o + |text|] == text
    requires o <= k < o + |text|
    ensures LineOf(s, o) <= LineOf(s, k) <= LineOf(s, o) + Newlines(text)
  {
    LineOfMonotone(s, o, k);
    LineOfMonotone(s, k, o + |text|);
    assert s[..o + |text|] == s[..o] + text;
    NewlinesConcat(s[..o], text);
  }
}
