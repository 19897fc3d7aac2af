/** UTF-8 as RFC 3629 defines it (sections 3 and 4), and the engine's byte-limited clip. */
module Utf8 {
  import opened Bytes

  /** A byte that only ever continues a character: the source tests `(b & 0xC0) == 0x80`. */
  predicate Tail(b: Byte) {
    0x80 <= b < 0xC0
  }

  /** The second byte allowed after each lead byte of a three-byte character. */
  predicate ThreeByteHead(lead: Byte, second: Byte) {
    || (lead == 0xE0 && 0xA0 <= second <= 0xBF)
    || ((0xE1 <= lead <= 0xEC || 0xEE <= lead <= 0xEF) && Tail(second))
    || (lead == 0xED && 0x80 <= second <= 0x9F)
  }

  /** The second byte allowed after each lead byte of a four-byte character. */
  predicate FourByteHead(lead: Byte, second: Byte) {
    || (lead == 0xF0 && 0x90 <= second <= 0xBF)
    || (0xF1 <= lead <= 0xF3 && Tail(second))
    || (lead == 0xF4 && 0x80 <= second <= 0x8F)
  }

  /** The length of the well-formed character at the front of `s`; 0 when there is none. */
  function CharLen(s: ByteString): (n: nat)
    ensures n <= 4 && n <= |s|
  {
    if |s| == 0 then 0
    else if s[0] < 0x80 then 1
    else if |s| >= 2 && 0xC2 <= s[0] <= 0xDF && Tail(s[1]) then 2
    else if |s| >= 3 && ThreeByteHead(s[0], s[1]) && Tail(s[2]) then 3
    else if |s| >= 4 && FourByteHead(s[0], s[1]) && Tail(s[2]) && Tail(s[3]) then 4
    else 0
  }

  predicate Valid(s: ByteString) {
    s == [] || (CharLen(s) > 0 && Valid(s[CharLen(s)..]))
  }

  /** A place where a character starts, or the end of the text. */
  predicate Boundary(s: ByteString, i: nat)
    requires i <= |s|
  {
    i == |s| || !Tail(s[i])
  }

  /** Bytes that follow a character do not change it. */
  lemma CharLenAppend(s: ByteString, t: ByteString)
    requires CharLen(s) > 0
    ensures CharLen(s + t) == CharLen(s) && (s + t)[CharLen(s)..] == s[CharLen(s)..] + t
  {
    assert forall i :: 0 <= i < |s| ==> (s + t)[i] == s[i];
  }

  lemma {:induction false} ValidConcat(s: ByteString, t: ByteString)
    requires Valid(s) && Valid(t)
    ensures Valid(s + t)
  {
    hide CharLen;
    if s == [] {
      assert s + t == t;
    } else {
      CharLenAppend(s, t);
      ValidConcat(s[CharLen(s)..], t);
    }
  }

  /** A valid text in front of another can be taken off: characters are self-delimiting. */
  lemma {:induction false} ValidDrop(s: ByteString, t: ByteString)
    requires Valid(s) && Valid(s + t)
    ensures Valid(t)
  {
    hide CharLen;
    if s == [] {
      assert s + t == t;
    } else {
      CharLenAppend(s, t);
      ValidDrop(s[CharLen(s)..], t);
    }
  }

  /** Only the first byte of a character is not a tail byte. */
  lemma CharShape(s: ByteString)
    requires CharLen(s) > 0
    ensures !Tail(s[0]) && forall k :: 0 < k < CharLen(s) ==> Tail(s[k])
  {
  }

  lemma BoundaryDrop(s: ByteString, n: nat, i: nat)
    requires n <= i <= |s|
    ensures Boundary(s, i) <==> Boundary(s[n..], i - n)
  {
  }

  /** A cut at a boundary leaves valid text on both sides. */
  lemma {:induction false} CutAtBoundary(s: ByteString, i: nat)
    requires Valid(s) && i <= |s| && Boundary(s, i)
    ensures Valid(s[..i]) && Valid(s[i..])
  {
    hide CharLen;
    if i == 0 {
      assert s[..0] == [] && s[0..] == s;
    } else {
      var n := CharLen(s);
      CharShape(s);
      BoundaryDrop(s, n, i);
      CutAtBoundary(s[n..], i - n);
      assert s[n..][i - n..] == s[i..];
      assert s[..i] == s[..n] + s[n..][..i - n];
      FirstChar(s);
      ValidConcat(s[..n], s[n..][..i - n]);
    }
  }

  /** The first character on its own is valid text. */
  lemma FirstChar(s: ByteString)
    requires CharLen(s) > 0
    ensures CharLen(s[..CharLen(s)]) == CharLen(s) && Valid(s[..CharLen(s)])
  {
    var c := s[..CharLen(s)];
    assert CharLen(c) == CharLen(s);
    assert c[CharLen(c)..] == [];
  }

  /** In valid text the byte test for a boundary is exact: both halves are valid text. */
  lemma BoundarySplits(s: ByteString, i: nat)
    requires Valid(s) && i <= |s|
    ensures Boundary(s, i) <==> Valid(s[..i]) && Valid(s[i..])
  {
    if Boundary(s, i) {
      CutAtBoundary(s, i);
    } else if Valid(s[i..]) {
      CharShape(s[i..]);
    }
  }

  /**
   * A non-empty valid anchor can only match valid text on character boundaries, so
   * replacing the match by valid text leaves valid text.
   */
  lemma ReplacementStaysValid(s: ByteString, o: nat, anchor: ByteString, new_: ByteString)
    requires Valid(s) && Valid(anchor) && Valid(new_)
    requires o + |anchor| <= |s| && s[o..o + |anchor|] == anchor
    requires anchor != [] || s == []
    ensures Boundary(s, o) && Boundary(s, o + |anchor|)
    ensures Valid(s[..o] + new_ + s[o + |anchor|..])
  {
    hide *;
    MatchOnBoundaries(s, o, anchor);
    OuterPieces(s, o, o + |anchor|);
    ThreePieces(s[..o], new_, s[o + |anchor|..]);
  }

  lemma OuterPieces(s: ByteString, from: nat, to: nat)
    requires Valid(s) && from <= to <= |s| && Boundary(s, from) && Boundary(s, to)
    ensures Valid(s[..from]) && Valid(s[to..])
  {
    hide *;
    CutAtBoundary(s, from);
    CutAtBoundary(s, to);
  }

  lemma ThreePieces(s: ByteString, t: ByteString, u: ByteString)
    requires Valid(s) && Valid(t) && Valid(u)
    ensures Valid(s + t + u)
  {
    hide *;
    ValidConcat(s, t);
    ValidConcat(s + t, u);
  }

  lemma MatchOnBoundaries(s: ByteString, o: nat, anchor: ByteString)
    requires Valid(s) && Valid(anchor)
    requires o + |anchor| <= |s| && s[o..o + |anchor|] == anchor
    requires anchor != [] || s == []
    ensures Boundary(s, o) && Boundary(s, o + |anchor|)
  {
    hide CharLen, Valid;
    var end := o + |anchor|;
    if anchor != [] {
      BehindMatch(s, o, anchor);
      StartsValid(anchor);
      CutAtBoundary(s, o);
      ValidDrop(anchor, s[end..]);
      StartsValid(s[end..]);
    }
  }

  lemma BehindMatch(s: ByteString, o: nat, anchor: ByteString)
    requires o + |anchor| <= |s| && s[o..o + |anchor|] == anchor != []
    ensures s[o] == anchor[0] && s[o..] == anchor + s[o + |anchor|..]
  {
  }

  lemma StartsValid(s: ByteString)
    requires Valid(s)
    ensures Boundary(s, 0)
  {
    if s != [] {
      CharShape(s);
    }
  }

  // ---------------------------------------------------------------- code points

  type CodePoint = c: int | 0 <= c <= 0x10FFFF

  type Text = seq<CodePoint>

  /** A surrogate is a code point that UTF-8 cannot carry. */
  predicate Scalar(c: CodePoint) {
    !(0xD800 <= c <= 0xDFFF)
  }

  function EncodeChar(c: CodePoint): (bytes: ByteString)
    requires Scalar(c)
  {
    if c < 0x80 then [c]
    else if c < 0x800 then [0xC0 + c / 64, 0x80 + c % 64]
    else if c < 0x10000 then [0xE0 + c / 64 / 64, 0x80 + c / 64 % 64, 0x80 + c % 64]
    else [0xF0 + c / 64 / 64 / 64, 0x80 + c / 64 / 64 % 64, 0x80 + c / 64 % 64, 0x80 + c % 64]
  }

  /** `str.encode("utf-8")`: a surrogate anywhere is an encoding error. */
  function Encode(text: Text): Option<ByteString> {
    if text == [] then Some([])
    else if !Scalar(text[0]) then None
    else match Encode(text[1..])
      case None => None
      case Some(rest) => Some(EncodeChar(text[0]) + rest)
  }

  /** The payload bits of `n` bytes, most significant first. */
  function DecodeChar(s: ByteString): (c: int)
    requires CharLen(s) > 0
  {
    var n := CharLen(s);
    var b0: int, b1: int := s[0], if n > 1 then s[1] - 0x80 else 0;
    if n == 1 then b0
    else if n == 2 then Join(b0 - 0xC0, b1)
    else if n == 3 then Join(Join(b0 - 0xE0, b1), s[2] - 0x80)
    else Join(Join(Join(b0 - 0xF0, b1), s[2] - 0x80), s[3] - 0x80)
  }

  function Join(high: int, low: int): int {
    high * 64 + low
  }

  lemma JoinSplits(c: int)
    requires c >= 0
    ensures Join(c / 64, c % 64) == c
  {
  }

  lemma SplitJoins(high: nat, low: nat)
    requires low < 64
    ensures Join(high, low) / 64 == high && Join(high, low) % 64 == low
  {
  }

  lemma DecodedIsScalar(s: ByteString)
    requires CharLen(s) > 0
    ensures 0 <= DecodeChar(s) <= 0x10FFFF && Scalar(DecodeChar(s))
  {
  }

  function Decode(s: ByteString): Text
    requires Valid(s)
  {
    if s == [] then []
    else
      DecodedIsScalar(s);
      [DecodeChar(s)] + Decode(s[CharLen(s)..])
  }

  lemma EncodeCharRoundTrip(c: CodePoint, rest: ByteString)
    requires Scalar(c)
    ensures CharLen(EncodeChar(c) + rest) == |EncodeChar(c)|
    ensures DecodeChar(EncodeChar(c) + rest) == c
  {
    hide *;
    EncodedIsChar(c);
    CharLenAppend(EncodeChar(c), rest);
    DecodeCharAppend(EncodeChar(c), rest);
  }

  lemma EncodedIsChar(c: CodePoint)
    requires Scalar(c)
    ensures CharLen(EncodeChar(c)) == |EncodeChar(c)| > 0
    ensures DecodeChar(EncodeChar(c)) == c
  {
    hide Join;
    if c >= 0x80 {
      JoinSplits(c);
      JoinSplits(c / 64);
      JoinSplits(c / 64 / 64);
    }
  }

  lemma DecodeCharAppend(s: ByteString, t: ByteString)
    requires CharLen(s) > 0
    ensures CharLen(s + t) == CharLen(s) && DecodeChar(s + t) == DecodeChar(s)
  {
    CharLenAppend(s, t);
    hide CharLen, Join;
    assert forall i :: 0 <= i < CharLen(s) ==> (s + t)[i] == s[i];
  }

  lemma DecodeCharRoundTrip(s: ByteString)
    requires CharLen(s) > 0
    ensures 0 <= DecodeChar(s) <= 0x10FFFF && Scalar(DecodeChar(s))
    ensures EncodeChar(DecodeChar(s)) == s[..CharLen(s)]
  {
    DecodedIsScalar(s);
    match CharLen(s)
    case 1 => assert s[..1] == [s[0]];
    case 2 => Rebuild2(s);
    case 3 => Rebuild3(s);
    case 4 => Rebuild4(s);
  }

  lemma Rebuild2(s: ByteString)
    requires CharLen(s) == 2
    ensures 0x80 <= DecodeChar(s) < 0x800 && EncodeChar(DecodeChar(s)) == s[..2]
  {
    SplitJoins(s[0] - 0xC0, s[1] - 0x80);
    assert s[..2] == [s[0], s[1]];
  }

  lemma Rebuild3(s: ByteString)
    requires CharLen(s) == 3
    ensures 0x800 <= DecodeChar(s) < 0x10000 && Scalar(DecodeChar(s)) && EncodeChar(DecodeChar(s)) == s[..3]
  {
    DecodedIsScalar(s);
    var high := Join(s[0] - 0xE0, s[1] - 0x80);
    SplitJoins(s[0] - 0xE0, s[1] - 0x80);
    SplitJoins(high, s[2] - 0x80);
    assert s[..3] == [s[0], s[1], s[2]];
  }

  lemma Rebuild4(s: ByteString)
    requires CharLen(s) == 4
    ensures 0x10000 <= DecodeChar(s) <= 0x10FFFF && EncodeChar(DecodeChar(s)) == s[..4]
  {
    var top := Join(s[0] - 0xF0, s[1] - 0x80);
    var high := Join(top, s[2] - 0x80);
    SplitJoins(s[0] - 0xF0, s[1] - 0x80);
    SplitJoins(top, s[2] - 0x80);
    SplitJoins(high, s[3] - 0x80);
    assert s[..4] == [s[0], s[1], s[2], s[3]];
  }

  /** Encoding always produces valid UTF-8, and decoding gives the text back. */
  lemma {:induction false} EncodeThenDecode(text: Text)
    requires Encode(text).Some?
    ensures Valid(Encode(text).value) && Decode(Encode(text).value) == text
  {
    hide CharLen, DecodeChar;
    if text != [] {
      var rest := Encode(text[1..]).value;
      EncodeThenDecode(text[1..]);
      EncodeCharRoundTrip(text[0], rest);
      assert (EncodeChar(text[0]) + rest)[|EncodeChar(text[0])|..] == rest;
    }
  }

  /** Valid bytes are exactly the encodings of texts: decoding and encoding gives them back. */
  lemma {:induction false} DecodeThenEncode(s: ByteString)
    requires Valid(s)
    ensures Encode(Decode(s)) == Some(s)
  {
    hide CharLen, DecodeChar, EncodeChar;
    if s != [] {
      var n := CharLen(s);
      DecodeThenEncode(s[n..]);
      DecodeCharRoundTrip(s);
      assert s == s[..n] + s[n..];
      assert Decode(s)[1..] == Decode(s[n..]);
    }
  }

  /** A text encodes exactly when it holds no surrogate. */
  lemma {:induction false} EncodeFailsOnSurrogate(text: Text)
    ensures Encode(text).Some? <==> forall i :: 0 <= i < |text| ==> Scalar(text[i])
  {
    if text != [] {
      EncodeFailsOnSurrogate(text[1..]);
      assert forall i :: 0 < i < |text| ==> text[i] == text[1..][i - 1];
    }
  }

  // ---------------------------------------------------------------- clipping

  /** `decode("utf-8", errors="ignore")`, re-encoded: bytes that start no character are dropped. */
  function DropInvalid(s: ByteString): ByteString {
    if s == [] then []
    else if CharLen(s) > 0 then s[..CharLen(s)] + DropInvalid(s[CharLen(s)..])
    else DropInvalid(s[1..])
  }

  /** Valid text followed by one lead byte decodes to the valid text alone. */
  lemma {:induction false} DropInvalidTail(s: ByteString, tail: ByteString)
    requires Valid(s) && |tail| <= 1 && (tail != [] ==> CharLen(tail) == 0)
    ensures DropInvalid(s + tail) == s
  {
    hide CharLen;
    if s == [] {
      assert s + tail == tail;
      assert tail != [] ==> tail[1..] == [];
    } else {
      var n := CharLen(s);
      CharLenAppend(s, tail);
      assert (s + tail)[..n] == s[..n];
      DropInvalidTail(s[n..], tail);
    }
  }

  /** The longest prefix of `s` that fits in `limit` bytes and splits no character. */
  predicate LongestFit(s: ByteString, limit: nat, r: ByteString) {
    && r <= s && |r| <= limit && Boundary(s, |r|)
    && forall q :: |r| < q <= limit && q <= |s| ==> !Boundary(s, q)
  }

  /** The clip fits exactly at a boundary that follows a multi-byte character. */
  predicate DropsWholeChar(s: ByteString, limit: nat) {
    0 < limit < |s| && Boundary(s, limit) && Tail(s[limit - 1])
  }

  /** Exactly what the clip keeps: the longest fit, or one byte short of it the whole last character. */
  predicate ClippedTo(s: ByteString, limit: nat, r: ByteString) {
    LongestFit(s, if DropsWholeChar(s, limit) then limit - 1 else limit, r)
  }

  lemma ClippedToIsUnique(s: ByteString, limit: nat, r: ByteString, q: ByteString)
    requires ClippedTo(s, limit, r) && ClippedTo(s, limit, q)
    ensures r == q
  {
    assert r == s[..|r|] && q == s[..|q|];
  }

  /** A clip reaches a boundary below the limit, and one at the limit unless it ends a multi-byte character. */
  lemma ClipReaches(s: ByteString, limit: nat, r: ByteString, at: nat)
    requires ClippedTo(s, limit, r) && 0 < limit < |s| && at <= |s| && Boundary(s, at)
    ensures at <= |r| <==> at < limit || (at == limit && !Tail(s[limit - 1]))
  {
  }

  /** A two-byte character and "a", clipped at two bytes: nothing is kept, although the character fits. */
  lemma ClipCanDropWholeChar()
    ensures var s: ByteString := [0xC3, 0xA9, 0x61];
            Valid(s) && DropsWholeChar(s, 2) && LongestFit(s, 2, s[..2]) && ClippedTo(s, 2, [])
  {
    var s: ByteString := [0xC3, 0xA9, 0x61];
    assert CharLen(s) == 2 && s[2..] == [0x61] && CharLen([0x61]) == 1;
    assert Valid([0x61]) && Valid(s);
  }

  /**
   * Never splits a character and never loses more than four bytes of the limit; the result
   * is the longest one exactly when the cut does not end a multi-byte character.
   */
  method ClipToBytes(s: ByteString, limit: nat) returns (r: ByteString)
    requires Valid(s)
    ensures r <= s && |r| <= limit && Valid(r)
    ensures |s| <= limit ==> r == s
    ensures |s| > limit ==> limit - 4 <= |r|
    ensures ClippedTo(s, limit, r)
    ensures LongestFit(s, limit, r) <==> !DropsWholeChar(s, limit)
  {
    if |s| <= limit {
      return s;
    }
    var cut := s[..limit];
    while cut != [] && Tail(cut[|cut| - 1])
      invariant cut <= s && |cut| <= limit
      invariant forall k :: |cut| <= k < limit ==> Tail(s[k])
    {
      cut := cut[..|cut| - 1];
    }
    r := DropInvalid(cut);
    ClipShape(s, limit, cut, r);
  }

  /** What the loop of `ClipToBytes` leaves, decoded leniently. */
  lemma ClipShape(s: ByteString, limit: nat, cut: ByteString, r: ByteString)
    requires Valid(s) && limit < |s|
    requires cut <= s && |cut| <= limit && (cut == [] || !Tail(cut[|cut| - 1]))
    requires forall k :: |cut| <= k < limit ==> Tail(s[k])
    requires r == DropInvalid(cut)
    ensures r <= s && |r| <= limit && Valid(r) && limit - 4 <= |r|
    ensures ClippedTo(s, limit, r)
    ensures LongestFit(s, limit, r) <==> !DropsWholeChar(s, limit)
  {
    hide CharLen, Valid, DropInvalid;
    if cut == [] {
      NoHead(s, limit);
    } else {
      hide ClippedTo, LongestFit, DropsWholeChar;
      var p := |cut| - 1;
      var n := LastChar(s, p, limit);
      KeptPart(s, cut, n);
      ClipLength(s, limit, p, n, if n == 1 then p + 1 else p, r);
    }
  }

  /** The last byte of the cut is kept if it is a character, and dropped if it only starts one. */
  lemma KeptPart(s: ByteString, cut: ByteString, n: nat)
    requires Valid(s) && cut != [] && cut <= s
    requires var p := |cut| - 1;
             && Boundary(s, p) && p + n <= |s| && Boundary(s, p + n)
             && (n == 1 <==> s[p] < 0x80) && (n > 1 ==> CharLen([s[p]]) == 0) && n >= 1
    ensures var kept := if n == 1 then |cut| else |cut| - 1;
            DropInvalid(cut) == s[..kept] && Valid(s[..kept])
  {
    hide CharLen, Valid, DropInvalid;
    var p := |cut| - 1;
    var kept := if n == 1 then |cut| else p;
    CutAtBoundary(s, kept);
    var dropped := if n == 1 then [] else [s[p]];
    assert cut == s[..kept] + dropped;
    DropInvalidTail(s[..kept], dropped);
  }

  /** A limit with nothing but tail bytes below it is zero. */
  lemma NoHead(s: ByteString, limit: nat)
    requires Valid(s) && limit < |s| && forall k :: 0 <= k < limit ==> Tail(s[k])
    ensures limit == 0 && Boundary(s, 0) && DropInvalid([]) == [] && Valid([])
  {
    CharShape(s);
  }

  lemma ClipLength(s: ByteString, limit: nat, p: nat, n: nat, kept: nat, r: ByteString)
    requires p < limit < |s| && limit <= p + n <= |s| && 1 <= n <= 4
    requires Boundary(s, p) && Boundary(s, p + n) && forall k :: p < k < p + n ==> Tail(s[k])
    requires kept == (if n == 1 then p + 1 else p) && r == s[..kept]
    ensures limit - 4 <= |r| <= limit
    ensures ClippedTo(s, limit, r)
    ensures LongestFit(s, limit, r) <==> !DropsWholeChar(s, limit)
  {
  }

  /** The character that starts at the last start before the limit. */
  lemma LastChar(s: ByteString, p: nat, limit: nat) returns (n: nat)
    requires Valid(s) && p < limit < |s| && Boundary(s, p)
    requires forall k :: p < k < limit ==> Tail(s[k])
    ensures 1 <= n <= 4 && limit <= p + n <= |s| && Boundary(s, p + n)
    ensures forall k :: p < k < p + n ==> Tail(s[k])
    ensures n == 1 <==> s[p] < 0x80
    ensures n > 1 ==> CharLen([s[p]]) == 0
  {
    var rest := s[p..];
    CutAtBoundary(s, p);
    n := CharLen(rest);
    CharShape(rest);
    assert forall k :: 0 <= k < |rest| ==> rest[k] == s[p + k];
    if p + n < |s| {
      CharShape(rest[n..]);
      assert rest[n..][0] == s[p + n];
    }
  }
}
