/** The sliding-window loop breaker of a session and the listener that counts consecutive refusals. */
module LoopBreaker {
  import opened Bytes
  import opened CanonicalJson

  const WINDOW := 20
  const THRESHOLD := 5
  const CONSECUTIVE_BLOCK_LIMIT := 3

  datatype Call = Call(tool: string, input: Json)

  /** The part of the workspace a call can depend on: one path's revision, or all of them. */
  datatype Part = OnePath(revision: Option<Digest>) | WholeTree(revisions: map<string, Digest>)

  datatype Key = Key(tool: string, json: Json, part: Part)

  type Resolver = string -> string

  function Field(entries: seq<Entry>, key: string): Option<Json> {
    if entries == [] then None
    else if entries[0].key == key then Some(entries[0].value)
    else Field(entries[1..], key)
  }

  /** The path a call names, if its input is an object that gives one as text. */
  function PathOf(json: Json): Option<string> {
    if !json.Object? then None
    else
      var path := Field(json.entries, "path");
      if path.Some? && path.value.Text? then Some(path.value.text) else None
  }

  function WorkspacePart(json: Json, revisions: map<string, Digest>, resolve: Resolver): Part {
    match PathOf(json)
    case None => WholeTree(revisions)
    case Some(p) =>
      if resolve(p) in revisions then OnePath(Some(revisions[resolve(p)])) else OnePath(None)
  }

  function CallKey(call: Call, revisions: map<string, Digest>, resolve: Resolver): Option<Key> {
    match Canonical(call.input)
    case None => None
    case Some(json) => Some(Key(call.tool, json, WorkspacePart(json, revisions, resolve)))
  }

  /** Before the same workspace, two calls share a key exactly when they are one call up to key order. */
  lemma SameKeyIffSameCall(a: Call, b: Call, revisions: map<string, Digest>, resolve: Resolver)
    requires Proper(a.input) && Proper(b.input)
    ensures CallKey(a, revisions, resolve).Some? <==> Serializable(MeaningOf(a.input))
    ensures CallKey(a, revisions, resolve).Some? && CallKey(b, revisions, resolve).Some? ==>
              (CallKey(a, revisions, resolve) == CallKey(b, revisions, resolve) <==>
               a.tool == b.tool && MeaningOf(a.input) == MeaningOf(b.input))
  {
    hide WorkspacePart, Canonical, MeaningOf, Proper, Serializable;
    CanonicalIffSerializable(a.input);
    if Canonical(a.input).Some? && Canonical(b.input).Some? {
      CanonicalIffSameMeaning(a.input, b.input);
    }
  }

  /**
   * A landed edit of one path moves the key of a call exactly when the call names no path or names
   * that one, and the revision really is a different one.
   */
  lemma ChangeMovesKeys(call: Call, revisions: map<string, Digest>, resolve: Resolver, path: string, sha256: Digest)
    requires Canonical(call.input).Some?
    ensures var named := PathOf(Canonical(call.input).value);
            CallKey(call, revisions[path := sha256], resolve) != CallKey(call, revisions, resolve) <==>
            && (named.None? || resolve(named.value) == path)
            && (path in revisions ==> revisions[path] != sha256)
  {
    hide Canonical, PathOf;
    var now := revisions[path := sha256];
    if path in revisions && revisions[path] == sha256 {
      assert now == revisions;
    } else {
      assert path in now && now[path] == sha256 && now != revisions;
    }
  }

  function Occurrences(keys: seq<Key>, key: Key): nat {
    if keys == [] then 0 else Occurrences(keys[..|keys| - 1], key) + (if keys[|keys| - 1] == key then 1 else 0)
  }

  /** What one tool call led to. */
  datatype Item = Admitted(key: Key) | Refused(key: Key) | PassedBy

  /** Every key ever admitted, in order. */
  function AdmittedKeys(history: seq<Item>): seq<Key> {
    if history == [] then []
    else
      var last := history[|history| - 1];
      AdmittedKeys(history[..|history| - 1]) + (if last.Admitted? then [last.key] else [])
  }

  function LastOf(keys: seq<Key>, n: nat): (tail: seq<Key>)
    ensures |tail| == Min(n, |keys|)
  {
    keys[Max(0, |keys| - n)..]
  }

  function Window(history: seq<Item>): seq<Key> {
    LastOf(AdmittedKeys(history), WINDOW)
  }

  /** Refusals of `key` since it was last absent from the window. */
  function RefusalsSinceAbsent(history: seq<Item>, key: Key): nat {
    if history == [] || key !in Window(history) then 0
    else
      var last := |history| - 1;
      RefusalsSinceAbsent(history[..last], key) + (if history[last] == Refused(key) then 1 else 0)
  }

  /** How many refusals in a row the history ends with. */
  function TrailingRefusals(history: seq<Item>): nat {
    if history == [] || !history[|history| - 1].Refused? then 0
    else TrailingRefusals(history[..|history| - 1]) + 1
  }

  /** What the breaker does with a call, as a rule about the whole history. */
  function Verdict(history: seq<Item>, key: Option<Key>): Item {
    match key
    case None => PassedBy
    case Some(k) => if Occurrences(Window(history), k) >= THRESHOLD then Refused(k) else Admitted(k)
  }

  /** Where, among the last twenty admitted calls, the key is. */
  function RecentPlaces(keys: seq<Key>, key: Key): set<int> {
    Places(if |keys| <= 20 then keys else keys[|keys| - 20..], key)
  }

  function Places(keys: seq<Key>, key: Key): set<int> {
    set i | 0 <= i < |keys| && keys[i] == key
  }

  lemma {:induction false} OccurrencesArePlaces(keys: seq<Key>, key: Key)
    ensures Occurrences(keys, key) == |Places(keys, key)|
  {
    if keys == [] {
      assert Places(keys, key) == {};
    } else {
      var last := |keys| - 1;
      var before := Places(keys[..last], key);
      OccurrencesArePlaces(keys[..last], key);
      assert Places(keys, key) == if keys[last] == key then before + {last} else before;
    }
  }

  lemma RecentIsWindow(history: seq<Item>, key: Key)
    ensures Occurrences(Window(history), key) == |RecentPlaces(AdmittedKeys(history), key)|
  {
    hide AdmittedKeys, Occurrences, Places;
    OccurrencesArePlaces(Window(history), key);
  }

  /** A call is admitted exactly when fewer than five of the last twenty admitted had its key; without one it passes. */
  lemma AdmittedIffSeenFewerThanFive(history: seq<Item>, key: Key)
    ensures Verdict(history, Some(key)) == Admitted(key) <==> |RecentPlaces(AdmittedKeys(history), key)| < 5
    ensures Verdict(history, Some(key)) == Refused(key) <==> |RecentPlaces(AdmittedKeys(history), key)| >= 5
    ensures Verdict(history, None) == PassedBy
  {
    hide Window, RecentPlaces;
    RecentIsWindow(history, key);
  }

  /** A history ends with at least `n` refusals in a row exactly when its last `n` items are refusals. */
  lemma {:induction false} TrailingAreLast(history: seq<Item>, n: nat)
    ensures TrailingRefusals(history) >= n <==>
            n <= |history| && forall i :: |history| - n <= i < |history| ==> history[i].Refused?
  {
    if n > 0 && history != [] {
      var last := |history| - 1;
      TrailingAreLast(history[..last], n - 1);
      assert forall i :: 0 <= i < last ==> history[..last][i] == history[i];
    }
  }

  function RefusalsBetween(history: seq<Item>, key: Key, from: nat): set<int> {
    set i | from <= i < |history| && history[i] == Refused(key)
  }

  /**
   * The count a refusal reports: if the key was last absent from the window before item `from`, it is the
   * number of refusals of that key from there on.
   */
  lemma {:induction false} CountIsSinceAbsence(history: seq<Item>, key: Key, from: nat)
    requires from <= |history| && key !in Window(history[..from])
    requires forall n :: from < n <= |history| ==> key in Window(history[..n])
    ensures RefusalsSinceAbsent(history, key) == |RefusalsBetween(history, key, from)|
  {
    hide Window;
    assert history[..|history|] == history;
    if from == |history| {
      assert RefusalsBetween(history, key, from) == {};
    } else {
      var last := |history| - 1;
      var before := RefusalsBetween(history[..last], key, from);
      assert forall n :: 0 <= n <= last ==> history[..last][..n] == history[..n];
      CountIsSinceAbsence(history[..last], key, from);
      assert RefusalsBetween(history, key, from) == if history[last] == Refused(key) then before + {last} else before;
    }
  }

  /** The path of a call is the text of its `path` entry, wherever that stands. */
  lemma PathIsEntry(entries: seq<Entry>, path: string)
    requires ProperEntries(entries)
    ensures PathOf(Object(entries)) == Some(path) <==> Entry("path", Text(path)) in entries
  {
    hide Proper;
    FieldIsEntry(entries, "path", Text(path));
  }

  lemma {:induction false} FieldIsEntry(entries: seq<Entry>, key: string, value: Json)
    requires ProperEntries(entries)
    ensures Field(entries, key) == Some(value) <==> Entry(key, value) in entries
    decreases |entries|
  {
    if entries != [] {
      FieldIsEntry(entries[1..], key, value);
      assert entries == [entries[0]] + entries[1..];
      assert Entry(key, value) in entries[1..] ==> HasKey(entries[1..], key) by {
        if Entry(key, value) in entries[1..] {
          var i :| 0 <= i < |entries[1..]| && entries[1..][i] == Entry(key, value);
          assert entries[1..][i].key == key;
        }
      }
    }
  }

  /** A history the breaker can have produced. */
  predicate Lawful(history: seq<Item>) {
    history == [] ||
    (var last := |history| - 1;
     && Lawful(history[..last])
     && history[last] == Verdict(history[..last], if history[last].PassedBy? then None else Some(history[last].key)))
  }

  // ---------------------------------------------------------------- the state the session keeps

  function BlockedCount(blocked: map<Key, nat>, key: Key): nat {
    if key in blocked then blocked[key] else 0
  }

  /** The window and the refusal counts are exactly what the history says they should be. */
  ghost predicate Tracks(history: seq<Item>, admitted: seq<Key>, blocked: map<Key, nat>) {
    && Lawful(history)
    && admitted == Window(history)
    && (forall k :: k in blocked ==> k in admitted)
    && (forall k :: BlockedCount(blocked, k) == RefusalsSinceAbsent(history, k))
  }

  class Breaker {
    var admitted: seq<Key>
    var blockedByKey: map<Key, nat>
    var revisions: map<string, Digest>
    var consecutiveBlocks: nat
    const resolve: Resolver
    ghost var history: seq<Item>

    ghost predicate Valid()
      reads this
    {
      Tracks(history, admitted, blockedByKey) && consecutiveBlocks == TrailingRefusals(history)
    }

    constructor (resolve: Resolver)
      ensures Valid() && history == [] && revisions == map[]
    {
      admitted, blockedByKey, revisions, consecutiveBlocks := [], map[], map[], 0;
      this.resolve := resolve;
      history := [];
    }

    /** The window test alone: a refusal with its running count, or admission into the window. */
    method Inspect(call: Call) returns (refused: Option<nat>, repeats: nat)
      requires Tracks(history, admitted, blockedByKey)
      modifies `admitted, `blockedByKey, `history
      ensures Tracks(history, admitted, blockedByKey)
      ensures history == old(history) + [Verdict(old(history), CallKey(call, revisions, resolve))]
      ensures refused.Some? <==> Verdict(old(history), CallKey(call, revisions, resolve)).Refused?
      ensures CallKey(call, revisions, resolve).Some? ==>
                repeats == Occurrences(old(admitted), CallKey(call, revisions, resolve).value)
      ensures refused.Some? ==> refused.value == RefusalsSinceAbsent(history, CallKey(call, revisions, resolve).value)
    {
      hide Lawful, Window, RefusalsSinceAbsent, AdmittedKeys, Occurrences;
      ghost var was := history;
      repeats := 0;
      match CallKey(call, revisions, resolve)
      case None =>
        TrackPass(was, admitted, blockedByKey);
        history := history + [PassedBy];
        return None, 0;
      case Some(key) =>
        repeats := CountKey(admitted, key);
        assert admitted == Window(was);
        if repeats >= THRESHOLD {
          TrackRefuse(was, admitted, blockedByKey, key);
          var blockedSoFar := BlockedCount(blockedByKey, key) + 1;
          blockedByKey := blockedByKey[key := blockedSoFar];
          history := history + [Refused(key)];
          return Some(blockedSoFar), repeats;
        }
        TrackAdmit(was, admitted, blockedByKey, key);
        admitted := admitted + [key];
        if |admitted| > WINDOW {
          var evicted := admitted[0];
          admitted := admitted[1..];
          if evicted !in admitted {
            blockedByKey := blockedByKey - {evicted};
          }
        }
        history := history + [Admitted(key)];
        refused := None;
    }

    /** The `tool_call` listener: a refusal from the third in a row on also ends the turn. */
    method OnToolCall(call: Call) returns (block: bool, terminate: bool)
      requires Valid()
      modifies this
      ensures Valid() && revisions == old(revisions)
      ensures history == old(history) + [Verdict(old(history), CallKey(call, revisions, resolve))]
      ensures block <==> history[|history| - 1].Refused?
      ensures terminate <==> TrailingRefusals(history) >= 3
    {
      ghost var was := history;
      var refused, repeats := Inspect(call);
      assert history[..|history| - 1] == was;
      if refused.None? {
        consecutiveBlocks := 0;
        return false, false;
      }
      consecutiveBlocks := consecutiveBlocks + 1;
      return true, consecutiveBlocks >= CONSECUTIVE_BLOCK_LIMIT;
    }

    /** A landed change moves keys; it forgets nothing. */
    method NoteChange(path: string, sha256: Digest)
      requires Valid()
      modifies `revisions
      ensures Valid() && revisions == old(revisions)[path := sha256]
    {
      revisions := revisions[path := sha256];
    }
  }

  method CountKey(keys: seq<Key>, key: Key) returns (count: nat)
    ensures count == Occurrences(keys, key)
  {
    count := 0;
    for n := 0 to |keys|
      invariant count == Occurrences(keys[..n], key)
    {
      assert keys[..n + 1][..n] == keys[..n];
      if keys[n] == key {
        count := count + 1;
      }
    }
    assert keys[..|keys|] == keys;
  }

  /** One more item: what it admits, and how each refusal count moves. */
  lemma Snoc(was: seq<Item>, item: Item)
    ensures var now := was + [item];
            AdmittedKeys(now) == AdmittedKeys(was) + (if item.Admitted? then [item.key] else [])
  {
    assert (was + [item])[..|was|] == was;
  }

  lemma RefusalsSnoc(was: seq<Item>, item: Item, k: Key)
    ensures var now := was + [item];
            RefusalsSinceAbsent(now, k) ==
            if k in Window(now) then RefusalsSinceAbsent(was, k) + (if item == Refused(k) then 1 else 0) else 0
  {
    hide Window;
    assert (was + [item])[..|was|] == was;
  }

  lemma LawfulSnoc(was: seq<Item>, key: Option<Key>)
    requires Lawful(was)
    ensures Lawful(was + [Verdict(was, key)])
  {
    assert (was + [Verdict(was, key)])[..|was|] == was;
  }

  lemma TrackPass(was: seq<Item>, admitted: seq<Key>, blocked: map<Key, nat>)
    requires Tracks(was, admitted, blocked)
    ensures Tracks(was + [PassedBy], admitted, blocked)
  {
    hide Occurrences;
    var now := was + [PassedBy];
    LawfulSnoc(was, None);
    Snoc(was, PassedBy);
    assert Window(now) == Window(was);
    forall k
      ensures BlockedCount(blocked, k) == RefusalsSinceAbsent(now, k)
    {
      RefusalsSnoc(was, PassedBy, k);
    }
  }

  lemma TrackRefuse(was: seq<Item>, admitted: seq<Key>, blocked: map<Key, nat>, key: Key)
    requires Tracks(was, admitted, blocked) && Occurrences(admitted, key) >= THRESHOLD
    ensures var blockedSoFar := BlockedCount(blocked, key) + 1;
            && blockedSoFar == RefusalsSinceAbsent(was + [Refused(key)], key)
            && Tracks(was + [Refused(key)], admitted, blocked[key := blockedSoFar])
  {
    hide Lawful, AdmittedKeys, RefusalsSinceAbsent, Occurrences;
    var now := was + [Refused(key)];
    LawfulSnoc(was, Some(key));
    Snoc(was, Refused(key));
    assert Window(now) == Window(was);
    OccursIn(admitted, key);
    var after := blocked[key := BlockedCount(blocked, key) + 1];
    forall k
      ensures BlockedCount(after, k) == RefusalsSinceAbsent(now, k)
    {
      RefusalsSnoc(was, Refused(key), k);
    }
  }

  lemma TrackAdmit(was: seq<Item>, admitted: seq<Key>, blocked: map<Key, nat>, key: Key)
    requires Tracks(was, admitted, blocked) && Occurrences(admitted, key) < THRESHOLD
    ensures var pushed := admitted + [key];
            if |pushed| <= WINDOW then Tracks(was + [Admitted(key)], pushed, blocked)
            else
              var kept := pushed[1..];
              Tracks(was + [Admitted(key)], kept, if pushed[0] !in kept then blocked - {pushed[0]} else blocked)
  {
    hide Lawful, AdmittedKeys, RefusalsSinceAbsent, Occurrences;
    var now, pushed := was + [Admitted(key)], admitted + [key];
    LawfulSnoc(was, Some(key));
    Snoc(was, Admitted(key));
    var kept := if |pushed| <= WINDOW then pushed else pushed[1..];
    assert Window(now) == kept;
    var after := if |pushed| > WINDOW && pushed[0] !in kept then blocked - {pushed[0]} else blocked;
    forall k
      ensures BlockedCount(after, k) == RefusalsSinceAbsent(now, k)
      ensures k in after ==> k in kept
    {
      RefusalsSnoc(was, Admitted(key), k);
      assert k in blocked ==> k in admitted && k in pushed;
      if |pushed| > WINDOW {
        assert pushed == [pushed[0]] + kept;
        assert k in pushed <==> k == pushed[0] || k in kept;
      }
      assert k in after ==> k in kept;
    }
  }

  lemma {:induction false} OccursIn(keys: seq<Key>, key: Key)
    ensures Occurrences(keys, key) > 0 <==> key in keys
  {
    if keys != [] {
      var last := |keys| - 1;
      OccursIn(keys[..last], key);
      assert keys == keys[..last] + [keys[last]];
    }
  }

  // ---------------------------------------------------------------- what the window bounds

  lemma {:induction false} OccurrencesConcat(s: seq<Key>, t: seq<Key>, key: Key)
    ensures Occurrences(s + t, key) == Occurrences(s, key) + Occurrences(t, key)
  {
    if t == [] {
      assert s + t == s;
    } else {
      var last := |t| - 1;
      OccurrencesConcat(s, t[..last], key);
      assert (s + t)[..|s + t| - 1] == s + t[..last];
    }
  }

  /** The window and one more: the last admission was allowed because its key was rare before it. */
  ghost predicate Bounded(keys: seq<Key>) {
    forall i, j, k :: 0 <= i <= j <= |keys| && j - i <= WINDOW + 1 ==> Occurrences(keys[i..j], k) <= THRESHOLD
  }

  lemma {:induction false} LawfulIsBounded(history: seq<Item>)
    requires Lawful(history)
    ensures Bounded(AdmittedKeys(history))
  {
    hide Occurrences, Bounded;
    if history == [] {
      NoneIsBounded();
    } else {
      var last := |history| - 1;
      LawfulIsBounded(history[..last]);
      if history[last].Admitted? {
        BoundedSnoc(AdmittedKeys(history[..last]), history[last].key);
      } else {
        assert AdmittedKeys(history) == AdmittedKeys(history[..last]);
      }
    }
  }

  lemma NoneIsBounded()
    ensures Bounded([])
  {
  }

  lemma BoundedSnoc(keys: seq<Key>, key: Key)
    requires Bounded(keys) && Occurrences(LastOf(keys, WINDOW), key) < THRESHOLD
    ensures Bounded(keys + [key])
  {
    hide Occurrences;
    var more := keys + [key];
    forall i, j, k | 0 <= i <= j <= |more| && j - i <= WINDOW + 1
      ensures Occurrences(more[i..j], k) <= THRESHOLD
    {
      if j <= |keys| {
        assert more[i..j] == keys[i..j];
      } else if i < j {
        LastStretch(keys, key, i, k);
      } else {
        assert more[i..j] == keys[0..0];
      }
    }
  }

  lemma LastStretch(keys: seq<Key>, key: Key, i: nat, k: Key)
    requires Bounded(keys) && Occurrences(LastOf(keys, WINDOW), key) < THRESHOLD
    requires i <= |keys| <= i + WINDOW
    ensures Occurrences((keys + [key])[i..|keys| + 1], k) <= THRESHOLD
  {
    var tail := keys[i..];
    assert tail == keys[i..|keys|];
    assert (keys + [key])[i..|keys| + 1] == tail + [key];
    assert (tail + [key])[..|tail|] == tail;
    if k == key {
      TailIsInWindow(keys, i, key);
    }
  }

  lemma TailIsInWindow(keys: seq<Key>, i: nat, key: Key)
    requires i <= |keys| && |keys| - i <= WINDOW
    ensures Occurrences(keys[i..], key) <= Occurrences(LastOf(keys, WINDOW), key)
  {
    var from := Max(0, |keys| - WINDOW);
    assert keys[from..] == keys[from..i] + keys[i..];
    OccurrencesConcat(keys[from..i], keys[i..], key);
  }

  /** Any 21 consecutive admitted calls hold at most five with the same key. */
  lemma AnyWindowHoldsAtMostFive(history: seq<Item>, from: nat, to: nat, key: Key)
    requires Lawful(history) && from <= to <= |AdmittedKeys(history)| && to - from <= 21
    ensures Occurrences(AdmittedKeys(history)[from..to], key) <= 5
  {
    LawfulIsBounded(history);
  }

  /** Among n admitted calls of any run at most 5 times ceiling(n / 21) share a key. */
  lemma AdmittedSharePerKey(history: seq<Item>, key: Key)
    requires Lawful(history)
    ensures var keys := AdmittedKeys(history);
            Occurrences(keys, key) <= 5 * ((|keys| + 20) / 21)
  {
    hide Lawful, AdmittedKeys, Occurrences, Bounded;
    LawfulIsBounded(history);
    BoundedShare(AdmittedKeys(history), key);
  }

  lemma {:induction false} BoundedShare(keys: seq<Key>, key: Key)
    requires Bounded(keys)
    ensures Occurrences(keys, key) <= THRESHOLD * ((|keys| + WINDOW) / (WINDOW + 1))
    decreases |keys|
  {
    hide Occurrences, Bounded;
    var n := |keys| - (WINDOW + 1);
    Shares(|keys|);
    if n <= 0 {
      BoundedSlice(keys, 0, |keys|, key);
      assert keys[0..|keys|] == keys;
      if keys == [] {
        assert Occurrences(keys, key) == 0 by { OccurrencesOfNone(key); }
      }
    } else {
      BoundedPrefix(keys, n);
      BoundedShare(keys[..n], key);
      BoundedSlice(keys, n, |keys|, key);
      assert keys == keys[..n] + keys[n..|keys|];
      OccurrencesConcat(keys[..n], keys[n..|keys|], key);
    }
  }

  lemma Shares(n: nat)
    ensures n > WINDOW + 1 ==> (n + WINDOW) / (WINDOW + 1) == (n - (WINDOW + 1) + WINDOW) / (WINDOW + 1) + 1
    ensures 0 < n <= WINDOW + 1 ==> (n + WINDOW) / (WINDOW + 1) == 1
  {
  }

  lemma OccurrencesOfNone(key: Key)
    ensures Occurrences([], key) == 0
  {
  }

  lemma BoundedSlice(keys: seq<Key>, i: nat, j: nat, key: Key)
    requires Bounded(keys) && i <= j <= |keys| && j - i <= WINDOW + 1
    ensures Occurrences(keys[i..j], key) <= THRESHOLD
  {
  }

  lemma BoundedPrefix(keys: seq<Key>, n: nat)
    requires Bounded(keys) && n <= |keys|
    ensures Bounded(keys[..n])
  {
    hide Occurrences;
    assert forall i, j :: 0 <= i <= j <= n ==> keys[..n][i..j] == keys[i..j];
  }

  /** Occurrences summed over a set of keys. */
  function Total(keys: seq<Key>, among: set<Key>): nat {
    if keys == [] then 0 else Total(keys[..|keys| - 1], among) + (if keys[|keys| - 1] in among then 1 else 0)
  }

  lemma {:induction false} TotalIsLength(keys: seq<Key>, among: set<Key>)
    requires forall k :: k in keys ==> k in among
    ensures Total(keys, among) == |keys|
  {
    if keys != [] {
      TotalIsLength(keys[..|keys| - 1], among);
    }
  }

  lemma {:induction false} TotalSplits(keys: seq<Key>, among: set<Key>, key: Key)
    requires key in among
    ensures Total(keys, among) == Total(keys, among - {key}) + Occurrences(keys, key)
  {
    if keys != [] {
      TotalSplits(keys[..|keys| - 1], among, key);
    }
  }

  lemma {:induction false} TotalAtMost(keys: seq<Key>, among: set<Key>, each: nat)
    requires forall k :: k in among ==> Occurrences(keys, k) <= each
    ensures Total(keys, among) <= each * |among|
    decreases among
  {
    if among == {} {
      TotalOfNone(keys);
    } else {
      var key :| key in among;
      TotalAtMost(keys, among - {key}, each);
      TotalSplits(keys, among, key);
      assert |among - {key}| == |among| - 1;
      assert each * |among| == each * (|among| - 1) + each;
    }
  }

  lemma {:induction false} TotalOfNone(keys: seq<Key>)
    ensures Total(keys, {}) == 0
  {
    if keys != [] {
      TotalOfNone(keys[..|keys| - 1]);
    }
  }

  /** With at most four distinct keys, five of each is all that is ever admitted. */
  lemma {:induction false} FewKeysRunDry(history: seq<Item>, among: set<Key>)
    requires Lawful(history) && |among| <= 4
    requires forall k :: k in AdmittedKeys(history) ==> k in among
    ensures forall k :: Occurrences(AdmittedKeys(history), k) <= 5
    ensures |AdmittedKeys(history)| <= 5 * |among|
  {
    hide Occurrences, Total;
    var keys := AdmittedKeys(history);
    if history == [] {
      NoneIsBounded();
      assert forall k :: Occurrences(keys[0..0], k) <= THRESHOLD;
      assert keys[0..0] == keys;
    } else {
      var last := |history| - 1;
      var before := AdmittedKeys(history[..last]);
      assert before <= keys;
      FewKeysRunDry(history[..last], among);
      assert LastOf(before, WINDOW) == before;
      if history[last].Admitted? {
        forall k
          ensures Occurrences(keys, k) <= THRESHOLD
        {
          OccurrencesSnoc(before, history[last].key, k);
        }
      } else {
        assert keys == before;
      }
    }
    TotalIsLength(keys, among);
    TotalAtMost(keys, among, THRESHOLD);
  }

  lemma OccurrencesSnoc(keys: seq<Key>, key: Key, k: Key)
    ensures Occurrences(keys + [key], k) == Occurrences(keys, k) + (if k == key then 1 else 0)
  {
    assert (keys + [key])[..|keys|] == keys;
  }
}
