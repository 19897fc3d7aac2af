/** `bytes.find` and `bytes.count` as the replacement engine uses them. */
module Search {
  import opened Bytes

  predicate MatchAt(hay: ByteString, needle: ByteString, i: int) {
    0 <= i && i + |needle| <= |hay| && hay[i..i + |needle|] == needle
  }

  /** `hay.find(needle, from)`: the first match at or after `from`. */
  function FindFrom(hay: ByteString, needle: ByteString, from: nat): (found: Option<nat>)
    ensures found.Some? ==> from <= found.value && MatchAt(hay, needle, found.value)
    ensures found.Some? ==> found.value + |needle| <= |hay|
    ensures found.Some? ==> forall i :: from <= i < found.value ==> !MatchAt(hay, needle, i)
    ensures found.None? ==> forall i :: from <= i ==> !MatchAt(hay, needle, i)
    decreases |hay| - from
  {
    if from + |needle| > |hay| then None
    else if MatchAt(hay, needle, from) then Some(from)
    else FindFrom(hay, needle, from + 1)
  }

  /** `hay.count(needle)` from `from` on: matches taken greedily from the left, never overlapping. */
  function CountFrom(hay: ByteString, needle: ByteString, from: nat): nat
    requires from <= |hay|
    decreases |hay| - from
  {
    if needle == [] then |hay| - from + 1
    else match FindFrom(hay, needle, from)
      case None => 0
      case Some(i) => 1 + CountFrom(hay, needle, i + |needle|)
  }

  function Count(hay: ByteString, needle: ByteString): nat {
    CountFrom(hay, needle, 0)
  }

  /** `needle` starts at exactly one place. */
  ghost predicate UniqueMatch(hay: ByteString, needle: ByteString, i: int) {
    MatchAt(hay, needle, i) && forall j :: MatchAt(hay, needle, j) ==> j == i
  }

  /** No proper overlap of the needle with itself. */
  ghost predicate Unbordered(needle: ByteString) {
    forall k {:trigger needle[k..]} :: 0 < k < |needle| ==> needle[k..] != needle[..|needle| - k]
  }

  /** A count of one names a first match that no later, disjoint match follows. */
  lemma CountOne(hay: ByteString, needle: ByteString)
    requires Count(hay, needle) == 1
    ensures FindFrom(hay, needle, 0).Some?
    ensures var i := FindFrom(hay, needle, 0).value;
            MatchAt(hay, needle, i) && forall j :: MatchAt(hay, needle, j) ==> j == i || i < j < i + |needle|
  {
    if needle == [] {
      assert |hay| == 0 && hay[0..0] == needle;
      assert MatchAt(hay, needle, 0);
    } else {
      var i := FindFrom(hay, needle, 0).value;
      assert CountFrom(hay, needle, i + |needle|) == 0;
    }
  }

  lemma CountZero(hay: ByteString, needle: ByteString)
    ensures Count(hay, needle) == 0 <==> forall i :: !MatchAt(hay, needle, i)
  {
    if needle == [] {
      assert MatchAt(hay, needle, 0);
    }
  }

  lemma {:induction false} UniqueCounts(hay: ByteString, needle: ByteString, i: nat)
    requires needle != [] && UniqueMatch(hay, needle, i)
    ensures Count(hay, needle) == 1
  {
    assert FindFrom(hay, needle, 0) == Some(i);
    assert FindFrom(hay, needle, i + |needle|) == None;
    assert CountFrom(hay, needle, i + |needle|) == 0;
  }

  /** Places where the needle is, each behind the end of the one before. */
  predicate Disjoint(hay: ByteString, needle: ByteString, places: seq<nat>) {
    && (forall k :: 0 <= k < |places| ==> MatchAt(hay, needle, places[k]))
    && (forall k :: 0 < k < |places| ==> places[k - 1] + |needle| <= places[k])
  }

  /** Putting a match before places that start behind it. */
  lemma DisjointFront(hay: ByteString, needle: ByteString, i: nat, rest: seq<nat>)
    requires MatchAt(hay, needle, i) && Disjoint(hay, needle, rest)
    requires rest != [] ==> i + |needle| <= rest[0]
    ensures Disjoint(hay, needle, [i] + rest)
  {
    hide MatchAt;
    var places := [i] + rest;
    assert forall k :: 0 < k < |places| ==> places[k] == rest[k - 1];
  }

  lemma {:induction false} CountedPlaces(hay: ByteString, needle: ByteString, from: nat) returns (places: seq<nat>)
    requires needle != [] && from <= |hay|
    ensures Disjoint(hay, needle, places) && |places| == CountFrom(hay, needle, from)
    ensures places != [] ==> from <= places[0]
    decreases |hay| - from
  {
    hide MatchAt, FindFrom;
    if FindFrom(hay, needle, from).None? {
      places := [];
    } else {
      var i := FindFrom(hay, needle, from).value;
      var rest := CountedPlaces(hay, needle, i + |needle|);
      hide Disjoint;
      DisjointFront(hay, needle, i, rest);
      places := [i] + rest;
    }
  }

  lemma {:induction false} DisjointBehind(hay: ByteString, needle: ByteString, places: seq<nat>)
    requires Disjoint(hay, needle, places) && places != []
    ensures Disjoint(hay, needle, places[1..])
    ensures forall k :: 0 <= k < |places| - 1 ==> places[0] + |needle| <= places[1..][k]
  {
    hide MatchAt;
    assert forall k :: 0 <= k < |places| - 1 ==> places[1..][k] == places[k + 1];
    if |places| > 1 {
      var init := places[..|places| - 1];
      assert forall k :: 0 <= k < |init| ==> init[k] == places[k];
      DisjointBehind(hay, needle, init);
      assert places[|places| - 2] + |needle| <= places[|places| - 1];
    }
  }

  lemma {:induction false} NoMorePlaces(hay: ByteString, needle: ByteString, from: nat, places: seq<nat>)
    requires needle != [] && from <= |hay| && Disjoint(hay, needle, places)
    requires forall k :: 0 <= k < |places| ==> from <= places[k]
    ensures |places| <= CountFrom(hay, needle, from)
    decreases |hay| - from
  {
    hide MatchAt, FindFrom;
    if places != [] {
      assert MatchAt(hay, needle, places[0]);
      DisjointBehind(hay, needle, places);
      hide Disjoint;
      var i := FindFrom(hay, needle, from).value;
      assert i <= places[0];
      NoMorePlaces(hay, needle, i + |needle|, places[1..]);
    }
  }

  /** The count is the largest number of places that do not overlap; the empty needle is everywhere. */
  lemma CountIsMost(hay: ByteString, needle: ByteString) returns (places: seq<nat>)
    ensures needle == [] ==> Count(hay, needle) == |hay| + 1
    ensures needle != [] ==> Disjoint(hay, needle, places) && |places| == Count(hay, needle)
    ensures needle != [] ==> forall other :: Disjoint(hay, needle, other) ==> |other| <= Count(hay, needle)
  {
    places := [];
    if needle != [] {
      places := CountedPlaces(hay, needle, 0);
      forall other | Disjoint(hay, needle, other)
        ensures |other| <= Count(hay, needle)
      {
        NoMorePlaces(hay, needle, 0, other);
      }
    }
  }

  /** Two overlapping matches expose a border of the needle. */
  lemma OverlapIsBorder(hay: ByteString, needle: ByteString, i: nat, j: nat)
    requires MatchAt(hay, needle, i) && MatchAt(hay, needle, j) && i < j < i + |needle|
    ensures !Unbordered(needle)
  {
    var k := j - i;
    assert needle[k..] == hay[j..i + |needle|];
    assert needle[..|needle| - k] == hay[j..j + |needle|][..|needle| - k];
    assert hay[j..j + |needle|][..|needle| - k] == hay[j..i + |needle|];
  }

  /** `needle` overlapped with itself by `|needle| - k` bytes. */
  function Stutter(needle: ByteString, k: nat): ByteString
    requires k <= |needle|
  {
    needle[..k] + needle
  }

  lemma StutterCountsOnce(needle: ByteString, k: nat)
    requires 0 < k < |needle| && needle[k..] == needle[..|needle| - k]
    ensures Count(Stutter(needle, k), needle) == 1
    ensures MatchAt(Stutter(needle, k), needle, 0) && MatchAt(Stutter(needle, k), needle, k)
  {
    var hay := Stutter(needle, k);
    assert hay[k..k + |needle|] == needle;
    assert hay[..|needle|] == needle by {
      assert hay[..|needle|] == needle[..k] + needle[..|needle| - k];
      assert needle == needle[..k] + needle[k..];
    }
    assert hay[0..0 + |needle|] == hay[..|needle|];
    assert FindFrom(hay, needle, 0) == Some(0);
    assert |hay| < |needle| + |needle|;
    assert FindFrom(hay, needle, |needle|) == None;
    assert CountFrom(hay, needle, |needle|) == 0;
  }

  /**
   * A count of one promises a unique match in every buffer exactly when the anchor has no
   * border: `count` skips overlapping matches, so a bordered anchor can pass while matching twice.
   */
  lemma CountOneIsUniqueIffUnbordered(needle: ByteString)
    requires needle != []
    ensures (forall hay :: Count(hay, needle) == 1 ==> exists i :: UniqueMatch(hay, needle, i)) <==> Unbordered(needle)
  {
    if Unbordered(needle) {
      forall hay | Count(hay, needle) == 1
        ensures exists i :: UniqueMatch(hay, needle, i)
      {
        CountOne(hay, needle);
        var i := FindFrom(hay, needle, 0).value;
        forall j | MatchAt(hay, needle, j)
          ensures j == i
        {
          if i < j < i + |needle| {
            OverlapIsBorder(hay, needle, i, j);
          }
        }
        assert UniqueMatch(hay, needle, i);
      }
    } else {
      var k :| 0 < k < |needle| && needle[k..] == needle[..|needle| - k];
      StutterCountsOnce(needle, k);
      assert !exists i :: UniqueMatch(Stutter(needle, k), needle, i);
    }
  }

  /** The two-byte anchor "aa" is accepted in "aaa", where it matches at 0 and at 1. */
  lemma AcceptedAnchorCanMatchTwice()
    ensures Count([97, 97, 97], [97, 97]) == 1
    ensures MatchAt([97, 97, 97], [97, 97], 0) && MatchAt([97, 97, 97], [97, 97], 1)
  {
    var needle: ByteString := [97, 97];
    assert needle[1..] == needle[..1];
    StutterCountsOnce(needle, 1);
    assert Stutter(needle, 1) == [97, 97, 97];
  }
}
