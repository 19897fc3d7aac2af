/** Tool-call inputs in canonical form: the same JSON value, with every object's keys sorted. */
module CanonicalJson {
  import opened Bytes

  /**
   * A tool call's input as the host hands it over. `Other` is whatever JSON cannot hold: a function,
   * `undefined`, a number that is not finite, an object of a foreign class, or a cycle.
   */
  datatype Json =
    | Null
    | Boolean(flag: bool)
    | Number(value: real)
    | Text(text: string)
    | Array(items: seq<Json>)
    | Object(entries: seq<Entry>)
    | Other

  datatype Entry = Entry(key: string, value: Json)

  // ---------------------------------------------------------------- key order

  /** Lexicographic order, unit by unit. */
  predicate Before(a: string, b: string) {
    b != [] && (a == [] || a[0] < b[0] || (a[0] == b[0] && Before(a[1..], b[1..])))
  }

  lemma {:induction false} BeforeIsTotal(a: string, b: string)
    ensures Before(a, b) || a == b || Before(b, a)
    ensures !(Before(a, b) && (a == b || Before(b, a)))
  {
    if a != [] && b != [] {
      BeforeIsTotal(a[1..], b[1..]);
      assert a == [a[0]] + a[1..] && b == [b[0]] + b[1..];
    }
  }

  lemma {:induction false} BeforeChains(a: string, b: string, c: string)
    requires Before(a, b) && Before(b, c)
    ensures Before(a, c)
  {
    if a != [] && a[0] == b[0] && b[0] == c[0] {
      BeforeChains(a[1..], b[1..], c[1..]);
    }
  }

  /** Put an entry in its place among sorted ones. */
  function Insert(e: Entry, sorted: seq<Entry>): seq<Entry> {
    if sorted == [] || Before(e.key, sorted[0].key) then [e] + sorted
    else [sorted[0]] + Insert(e, sorted[1..])
  }

  /** Every key comes before all later ones. */
  predicate Ascending(entries: seq<Entry>) {
    entries == [] || (&& (forall i :: 1 <= i < |entries| ==> Before(entries[0].key, entries[i].key))
                      && Ascending(entries[1..]))
  }

  // ---------------------------------------------------------------- the canonical form

  function Canonical(j: Json): Option<Json>
    decreases j, 0
  {
    match j
    case Array(items) =>
      var rest := CanonicalItems(items);
      if rest.None? then None else Some(Array(rest.value))
    case Object(entries) =>
      var rest := CanonicalEntries(entries);
      if rest.None? then None else Some(Object(rest.value))
    case Other => None
    case _ => Some(j)
  }

  function CanonicalItems(items: seq<Json>): Option<seq<Json>>
    decreases items, |items|
  {
    if items == [] then Some([])
    else
      var first, rest := Canonical(items[0]), CanonicalItems(items[1..]);
      if first.None? || rest.None? then None else Some([first.value] + rest.value)
  }

  /** Which entry is visited first cannot be observed: one that has no canonical form refuses them all. */
  function CanonicalEntries(entries: seq<Entry>): Option<seq<Entry>>
    decreases entries, |entries|
  {
    if entries == [] then Some([])
    else
      var first, rest := Canonical(entries[0].value), CanonicalEntries(entries[1..]);
      if first.None? || rest.None? then None else Some(Insert(Entry(entries[0].key, first.value), rest.value))
  }

  // ---------------------------------------------------------------- what a value means

  /** The value without the order its keys were written in. */
  datatype Meaning =
    | Atom(atom: Json)
    | List(elements: seq<Meaning>)
    | Record(fields: map<string, Meaning>)

  function MeaningOf(j: Json): Meaning
    decreases j, 0
  {
    match j
    case Array(items) => List(ItemsMean(items))
    case Object(entries) => Record(EntriesMean(entries))
    case _ => Atom(j)
  }

  function ItemsMean(items: seq<Json>): (m: seq<Meaning>)
    decreases items, |items|
  {
    if items == [] then [] else [MeaningOf(items[0])] + ItemsMean(items[1..])
  }

  function EntriesMean(entries: seq<Entry>): map<string, Meaning>
    decreases entries, |entries|
  {
    if entries == [] then map[]
    else EntriesMean(entries[1..])[entries[0].key := MeaningOf(entries[0].value)]
  }

  predicate HasKey(entries: seq<Entry>, key: string) {
    exists i :: 0 <= i < |entries| && entries[i].key == key
  }

  /** No object has a key twice, as in every value of the language. */
  predicate Proper(j: Json)
    decreases j, 0
  {
    match j
    case Array(items) => forall k :: k in items ==> Proper(k)
    case Object(entries) => ProperEntries(entries)
    case _ => true
  }

  predicate ProperEntries(entries: seq<Entry>)
    decreases entries, |entries|
  {
    entries == [] ||
    (!HasKey(entries[1..], entries[0].key) && Proper(entries[0].value) && ProperEntries(entries[1..]))
  }

  /** In canonical form already: every object's keys ascend. */
  predicate Normal(j: Json)
    decreases j, 0
  {
    match j
    case Array(items) => NormalItems(items)
    case Object(entries) => Ascending(entries) && NormalEntries(entries)
    case Other => false
    case _ => true
  }

  predicate NormalItems(items: seq<Json>)
    decreases items, |items|
  {
    items == [] || (Normal(items[0]) && NormalItems(items[1..]))
  }

  predicate NormalEntries(entries: seq<Entry>)
    decreases entries, |entries|
  {
    entries == [] || (Normal(entries[0].value) && NormalEntries(entries[1..]))
  }

  // ---------------------------------------------------------------- sorting keeps the meaning

  lemma {:induction false} KeysMean(entries: seq<Entry>, key: string)
    ensures HasKey(entries, key) <==> key in EntriesMean(entries)
  {
    if entries != [] {
      KeysMean(entries[1..], key);
      assert HasKey(entries, key) <==> entries[0].key == key || HasKey(entries[1..], key) by {
        if HasKey(entries[1..], key) {
          var i :| 0 <= i < |entries[1..]| && entries[1..][i].key == key;
          assert entries[i + 1].key == key;
        }
        if HasKey(entries, key) && entries[0].key != key {
          var i :| 0 <= i < |entries| && entries[i].key == key;
          assert entries[1..][i - 1].key == key;
        }
      }
    }
  }

  lemma {:induction false} InsertMeans(e: Entry, sorted: seq<Entry>)
    requires e.key !in EntriesMean(sorted)
    ensures EntriesMean(Insert(e, sorted)) == EntriesMean(sorted)[e.key := MeaningOf(e.value)]
  {
    if sorted == [] || Before(e.key, sorted[0].key) {
      assert ([e] + sorted)[1..] == sorted;
    } else {
      var rest := Insert(e, sorted[1..]);
      InsertMeans(e, sorted[1..]);
      assert ([sorted[0]] + rest)[1..] == rest;
      UpdatesCommute(EntriesMean(sorted[1..]), e.key, MeaningOf(e.value), sorted[0].key, MeaningOf(sorted[0].value));
      hide MeaningOf, Before;
    }
  }

  lemma UpdatesCommute<V>(m: map<string, V>, a: string, x: V, b: string, y: V)
    requires a != b
    ensures m[a := x][b := y] == m[b := y][a := x]
  {
  }

  lemma {:induction false} InsertAscends(e: Entry, sorted: seq<Entry>)
    requires Ascending(sorted) && !HasKey(sorted, e.key) && NormalEntries(sorted) && Normal(e.value)
    ensures Ascending(Insert(e, sorted)) && NormalEntries(Insert(e, sorted))
    ensures forall f :: f in Insert(e, sorted) <==> f == e || f in sorted
  {
    if sorted == [] || Before(e.key, sorted[0].key) {
      assert ([e] + sorted)[1..] == sorted;
      forall i | 0 <= i < |sorted|
        ensures Before(e.key, sorted[i].key)
      {
        if i > 0 {
          BeforeChains(e.key, sorted[0].key, sorted[i].key);
        }
      }
    } else {
      var rest := Insert(e, sorted[1..]);
      assert !HasKey(sorted[1..], e.key) by {
        assert forall i :: 0 <= i < |sorted| - 1 ==> sorted[1..][i] == sorted[i + 1];
      }
      InsertAscends(e, sorted[1..]);
      BeforeIsTotal(e.key, sorted[0].key);
      assert Before(sorted[0].key, e.key);
      forall i | 0 <= i < |rest|
        ensures Before(sorted[0].key, rest[i].key)
      {
        assert rest[i] in rest;
        assert rest[i] == e || rest[i] in sorted[1..];
      }
      assert ([sorted[0]] + rest)[1..] == rest;
    }
  }

  // ---------------------------------------------------------------- the canonical form is one

  /** What has a canonical form means the same in it, and the form is normal. */
  lemma {:induction false} CanonicalMeans(j: Json)
    requires Proper(j) && Canonical(j).Some?
    ensures Normal(Canonical(j).value) && MeaningOf(Canonical(j).value) == MeaningOf(j)
    decreases j, 0
  {
    match j
    case Array(items) => CanonicalItemsMean(items);
    case Object(entries) => CanonicalEntriesMean(entries);
    case _ =>
  }

  lemma {:induction false} CanonicalItemsMean(items: seq<Json>)
    requires (forall k :: k in items ==> Proper(k)) && CanonicalItems(items).Some?
    ensures var c := CanonicalItems(items).value; NormalItems(c) && ItemsMean(c) == ItemsMean(items)
    decreases items, |items|
  {
    if items != [] {
      CanonicalMeans(items[0]);
      CanonicalItemsMean(items[1..]);
      var rest := CanonicalItems(items[1..]).value;
      assert ([Canonical(items[0]).value] + rest)[1..] == rest;
    }
  }

  lemma {:induction false} CanonicalEntriesMean(entries: seq<Entry>)
    requires ProperEntries(entries) && CanonicalEntries(entries).Some?
    ensures var c := CanonicalEntries(entries).value;
            Ascending(c) && NormalEntries(c) && EntriesMean(c) == EntriesMean(entries)
    decreases entries, |entries|
  {
    if entries != [] {
      var e := Entry(entries[0].key, Canonical(entries[0].value).value);
      var rest := CanonicalEntries(entries[1..]).value;
      CanonicalMeans(entries[0].value);
      CanonicalEntriesMean(entries[1..]);
      KeysMean(entries[1..], e.key);
      KeysMean(rest, e.key);
      InsertMeans(e, rest);
      InsertAscends(e, rest);
    }
  }

  /** A value in normal form is determined by what it means. */
  lemma {:induction false} NormalIsUnique(a: Json, b: Json)
    requires Normal(a) && Normal(b) && MeaningOf(a) == MeaningOf(b)
    ensures a == b
    decreases a, 0
  {
    match a
    case Array(items) => NormalItemsUnique(items, b.items);
    case Object(entries) => NormalEntriesUnique(entries, b.entries);
    case _ =>
  }

  lemma {:induction false} NormalItemsUnique(a: seq<Json>, b: seq<Json>)
    requires NormalItems(a) && NormalItems(b) && ItemsMean(a) == ItemsMean(b)
    ensures a == b
    decreases a, |a|
  {
    if a != [] && b != [] {
      assert ItemsMean(a)[0] == ItemsMean(b)[0] && ItemsMean(a)[1..] == ItemsMean(b)[1..];
      assert ItemsMean(a)[1..] == ItemsMean(a[1..]) && ItemsMean(b)[1..] == ItemsMean(b[1..]);
      NormalIsUnique(a[0], b[0]);
      NormalItemsUnique(a[1..], b[1..]);
      assert a == [a[0]] + a[1..] && b == [b[0]] + b[1..];
    }
  }

  /** The first of ascending entries has the least of their keys, and no later entry has it. */
  lemma FirstIsLeast(entries: seq<Entry>, key: string)
    requires Ascending(entries) && entries != [] && key in EntriesMean(entries)
    ensures key == entries[0].key || Before(entries[0].key, key)
    ensures entries[0].key !in EntriesMean(entries[1..])
  {
    KeysMean(entries, key);
    KeysMean(entries[1..], entries[0].key);
    BeforeIsTotal(entries[0].key, entries[0].key);
  }

  lemma {:induction false} NormalEntriesUnique(a: seq<Entry>, b: seq<Entry>)
    requires Ascending(a) && Ascending(b) && NormalEntries(a) && NormalEntries(b)
    requires EntriesMean(a) == EntriesMean(b)
    ensures a == b
    decreases a, |a|
  {
    assert forall key :: key in EntriesMean(a) <==> key in EntriesMean(b);
    if a != [] {
      assert a[0].key in EntriesMean(a);
    }
    if b != [] {
      assert b[0].key in EntriesMean(b);
    }
    if a != [] && b != [] {
      var key := a[0].key;
      FirstIsLeast(a, b[0].key);
      FirstIsLeast(b, key);
      BeforeIsTotal(key, b[0].key);
      assert EntriesMean(a)[key] == EntriesMean(b)[key];
      assert EntriesMean(a[1..]) == EntriesMean(a) - {key} == EntriesMean(b) - {key} == EntriesMean(b[1..]);
      NormalIsUnique(a[0].value, b[0].value);
      NormalEntriesUnique(a[1..], b[1..]);
      assert a == [a[0]] + a[1..] && b == [b[0]] + b[1..];
    }
  }

  /** Two inputs have one canonical form exactly when they are the same value up to key order. */
  lemma CanonicalIffSameMeaning(a: Json, b: Json)
    requires Proper(a) && Proper(b) && Canonical(a).Some? && Canonical(b).Some?
    ensures Canonical(a) == Canonical(b) <==> MeaningOf(a) == MeaningOf(b)
  {
    CanonicalMeans(a);
    CanonicalMeans(b);
    if MeaningOf(a) == MeaningOf(b) {
      NormalIsUnique(Canonical(a).value, Canonical(b).value);
    }
  }

  // ---------------------------------------------------------------- what has none

  predicate Serializable(m: Meaning) {
    match m
    case Atom(j) => j != Other
    case List(elements) => forall e :: e in elements ==> Serializable(e)
    case Record(fields) => forall key :: key in fields ==> Serializable(fields[key])
  }

  predicate AllSerializable(fields: map<string, Meaning>) {
    forall key :: key in fields ==> Serializable(fields[key])
  }

  lemma OneMoreField(fields: map<string, Meaning>, key: string, m: Meaning)
    requires key !in fields
    ensures AllSerializable(fields[key := m]) <==> AllSerializable(fields) && Serializable(m)
  {
    var more := fields[key := m];
    assert key in more && more[key] == m;
    assert forall k :: k in fields ==> k in more && more[k] == fields[k];
  }

  /** There is no canonical form exactly when something in the input is not JSON. */
  lemma {:induction false} CanonicalIffSerializable(j: Json)
    requires Proper(j)
    ensures Canonical(j).Some? <==> Serializable(MeaningOf(j))
    decreases j, 0
  {
    match j
    case Array(items) => ItemsSerializable(items);
    case Object(entries) =>
      EntriesSerializable(entries);
      assert AllSerializable(EntriesMean(entries)) <==> Serializable(Record(EntriesMean(entries)));
    case _ =>
  }

  lemma {:induction false} ItemsSerializable(items: seq<Json>)
    requires forall k :: k in items ==> Proper(k)
    ensures CanonicalItems(items).Some? <==> forall e :: e in ItemsMean(items) ==> Serializable(e)
    decreases items, |items|
  {
    if items != [] {
      CanonicalIffSerializable(items[0]);
      ItemsSerializable(items[1..]);
      assert MeaningOf(items[0]) in ItemsMean(items);
      assert forall e :: e in ItemsMean(items[1..]) ==> e in ItemsMean(items);
    }
  }

  lemma {:induction false} EntriesSerializable(entries: seq<Entry>)
    requires ProperEntries(entries)
    ensures CanonicalEntries(entries).Some? <==> AllSerializable(EntriesMean(entries))
    decreases entries, |entries|
  {
    if entries != [] {
      var key := entries[0].key;
      CanonicalIffSerializable(entries[0].value);
      EntriesSerializable(entries[1..]);
      KeysMean(entries[1..], key);
      OneMoreField(EntriesMean(entries[1..]), key, MeaningOf(entries[0].value));
    }
  }
}
