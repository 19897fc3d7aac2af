/** Byte strings, optional values and the revision digest shared by every component. */
module Bytes {
  type Byte = b: int | 0 <= b < 256

  type ByteString = seq<Byte>

  const NEWLINE: Byte := 0x0A

  datatype Option<+T> = None | Some(value: T)

  /** SHA-256 as an injective function: two digests are equal exactly when their preimages are. */
  datatype Digest = Sha256(preimage: ByteString)

  /** The bytes of an ASCII literal. */
  function Ascii(text: string): (bytes: ByteString)
    ensures |bytes| == |text|
  {
    seq(|text|, i requires 0 <= i < |text| => text[i] as int % 128)
  }

  function Min(a: int, b: int): int {
    if a <= b then a else b
  }

  function Max(a: int, b: int): int {
    if a <= b then b else a
  }

  /** All parts laid end to end. */
  function Flatten<T>(parts: seq<seq<T>>): seq<T> {
    if parts == [] then [] else parts[0] + Flatten(parts[1..])
  }

  lemma FlattenCons<T>(first: seq<T>, rest: seq<seq<T>>)
    ensures Flatten([first] + rest) == first + Flatten(rest)
  {
    assert ([first] + rest)[1..] == rest;
  }

  lemma ConcatAssociates<T>(a: seq<T>, b: seq<T>, c: seq<T>)
    ensures (a + b) + c == a + (b + c)
  {
  }

  lemma FirstAndRest<T>(s: seq<T>)
    requires s != []
    ensures s == [s[0]] + s[1..]
  {
  }

  lemma {:induction false} FlattenAppend<T>(left: seq<seq<T>>, right: seq<seq<T>>)
    ensures Flatten(left + right) == Flatten(left) + Flatten(right)
  {
    if left == [] {
      assert left + right == right;
    } else {
      hide Flatten;
      FirstAndRest(left);
      ConcatAssociates([left[0]], left[1..], right);
      FlattenCons(left[0], left[1..] + right);
      FlattenCons(left[0], left[1..]);
      FlattenAppend(left[1..], right);
      ConcatAssociates(left[0], Flatten(left[1..]), Flatten(right));
    }
  }

  lemma FlattenSnoc<T>(left: seq<seq<T>>, last: seq<T>)
    ensures Flatten(left + [last]) == Flatten(left) + last
  {
    FlattenAppend(left, [last]);
    assert Flatten([last]) == last + Flatten([]);
  }
}
