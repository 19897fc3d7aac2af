/** Byte streams as records: each line with its newline, and an unterminated rest if there is one. */
module Records {
  import opened Bytes
  import opened Lines

  function RecordsOf(s: ByteString): (records: seq<ByteString>)
    ensures forall r :: r in records ==> IsRecord(r)
    decreases |s|
  {
    var i := FirstNewline(s);
    if s == [] then [] else if i == |s| then [s] else [s[..i + 1]] + RecordsOf(s[i + 1..])
  }

  /** Not empty, and a newline at most at the end. */
  predicate IsRecord(r: ByteString) {
    r != [] && NEWLINE !in r[..|r| - 1]
  }

  predicate Terminated(r: ByteString) {
    r != [] && r[|r| - 1] == NEWLINE
  }

  lemma {:induction false} RecordsRebuild(s: ByteString)
    ensures Flatten(RecordsOf(s)) == s
    decreases |s|
  {
    var i := FirstNewline(s);
    if s != [] && i < |s| {
      RecordsRebuild(s[i + 1..]);
      assert s == s[..i + 1] + s[i + 1..];
    }
  }

  lemma {:induction false} FirstOfTerminated(r: ByteString, rest: ByteString)
    requires IsRecord(r) && Terminated(r)
    ensures FirstNewline(r + rest) == |r| - 1
  {
    if |r| > 1 {
      assert r[0] in r[..|r| - 1];
      var r' := r[1..];
      assert r'[..|r'| - 1] == r[..|r| - 1][1..];
      FirstOfTerminated(r', rest);
      assert (r + rest)[1..] == r' + rest;
    }
  }

  lemma TerminatedFirst(r: ByteString, rest: ByteString)
    requires IsRecord(r) && Terminated(r)
    ensures RecordsOf(r + rest) == [r] + RecordsOf(rest)
  {
    FirstOfTerminated(r, rest);
    assert (r + rest)[..|r|] == r && (r + rest)[|r|..] == rest;
  }

  lemma {:induction false} NoNewline(s: ByteString)
    requires NEWLINE !in s
    ensures FirstNewline(s) == |s|
  {
    if s != [] {
      NoNewline(s[1..]);
    }
  }

  predicate AllButLastTerminated(records: seq<ByteString>) {
    forall i :: 0 <= i < |records| - 1 ==> Terminated(records[i])
  }

  lemma {:induction false} RecordsAreTerminated(s: ByteString)
    ensures AllButLastTerminated(RecordsOf(s))
    decreases |s|
  {
    var i := FirstNewline(s);
    if s != [] && i < |s| {
      RecordsAreTerminated(s[i + 1..]);
      assert s[..i + 1][i] == NEWLINE;
    }
  }

  /**
   * Laid end to end and read back, records come out as they went in exactly when every one but the
   * last is terminated: an unterminated record runs into whatever follows it.
   */
  lemma {:induction false} ReadBackIffTerminated(records: seq<ByteString>)
    requires forall r :: r in records ==> IsRecord(r)
    ensures RecordsOf(Flatten(records)) == records <==> AllButLastTerminated(records)
  {
    if AllButLastTerminated(records) && records != [] {
      var r, rest := records[0], records[1..];
      assert AllButLastTerminated(rest);
      assert r in records && IsRecord(r);
      ReadBackIffTerminated(rest);
      if Terminated(r) {
        TerminatedFirst(r, Flatten(rest));
      } else {
        assert rest == [] && records == [r];
        assert r[..|r| - 1] + [r[|r| - 1]] == r;
        NoNewline(r);
        assert Flatten(records) == r;
      }
    }
    RecordsAreTerminated(Flatten(records));
  }

  lemma OneRecord(r: ByteString)
    requires IsRecord(r)
    ensures RecordsOf(r) == [r]
  {
    ReadBackIffTerminated([r]);
    assert Flatten([r]) == r;
  }

  predicate AllTerminated(records: seq<ByteString>) {
    forall r :: r in records ==> IsRecord(r) && Terminated(r)
  }

  /** The complete lines of what is pending, and the rest. */
  method SplitPending(pending: ByteString) returns (complete: seq<ByteString>, rest: ByteString)
    ensures AllTerminated(complete) && NEWLINE !in rest
    ensures Flatten(complete) + rest == pending
  {
    complete, rest := [], pending;
    var n := FirstNewline(rest);
    while n < |rest|
      invariant n == FirstNewline(rest)
      invariant AllTerminated(complete) && Flatten(complete) + rest == pending
      decreases |rest|
    {
      CompleteLine(complete, rest, n);
      complete, rest := complete + [rest[..n + 1]], rest[n + 1..];
      n := FirstNewline(rest);
    }
  }

  lemma CompleteLine(complete: seq<ByteString>, rest: ByteString, n: nat)
    requires AllTerminated(complete) && n == FirstNewline(rest) < |rest|
    ensures AllTerminated(complete + [rest[..n + 1]])
    ensures Flatten(complete + [rest[..n + 1]]) + rest[n + 1..] == Flatten(complete) + rest
  {
    hide Flatten, AllTerminated, FirstNewline;
    LineIsRecord(rest, n);
    OneMoreTerminated(complete, rest[..n + 1]);
    FlattenSnoc(complete, rest[..n + 1]);
    Rejoined(Flatten(complete), rest, n + 1);
  }

  lemma LineIsRecord(rest: ByteString, n: nat)
    requires n < |rest| && NEWLINE !in rest[..n] && rest[n] == NEWLINE
    ensures IsRecord(rest[..n + 1]) && Terminated(rest[..n + 1])
  {
    assert rest[..n + 1][..n] == rest[..n];
  }

  lemma OneMoreTerminated(records: seq<ByteString>, r: ByteString)
    requires AllTerminated(records) && IsRecord(r) && Terminated(r)
    ensures AllTerminated(records + [r])
  {
    hide IsRecord, Terminated;
  }

  lemma Rejoined(front: ByteString, s: ByteString, n: nat)
    requires n <= |s|
    ensures front + s[..n] + s[n..] == front + s
  {
  }

  /** The drain's loop: complete lines as chunks arrive, and the rest at the end. */
  method DrainRecords(chunks: seq<ByteString>) returns (relayed: seq<ByteString>)
    ensures relayed == RecordsOf(Flatten(chunks))
  {
    hide RecordsOf, Flatten, AllTerminated;
    relayed := [];
    var pending: ByteString := [];
    NothingDrained(chunks);
    for i := 0 to |chunks|
      invariant AllTerminated(relayed) && NEWLINE !in pending
      invariant Flatten(relayed) + pending == Flatten(chunks[..i])
    {
      var complete, rest := SplitPending(pending + chunks[i]);
      OneMoreChunk(chunks, i, relayed, pending, complete, rest);
      relayed, pending := relayed + complete, rest;
    }
    assert chunks[..|chunks|] == chunks;
    AllAreTerminated(relayed);
    AfterTerminated(relayed, pending);
    LooseRecord(pending);
    if pending != [] {
      relayed := relayed + [pending];
    } else {
      assert relayed + [] == relayed;
    }
  }

  lemma NothingDrained(chunks: seq<ByteString>)
    ensures AllTerminated([]) && Flatten([]) + [] == Flatten(chunks[..0])
  {
  }

  lemma AllAreTerminated(records: seq<ByteString>)
    requires AllTerminated(records)
    ensures forall r :: r in records ==> IsRecord(r) && Terminated(r)
  {
  }

  /** What is left over is one record, if it is anything. */
  lemma LooseRecord(pending: ByteString)
    requires NEWLINE !in pending
    ensures RecordsOf(pending) == if pending == [] then [] else [pending]
  {
    NoNewline(pending);
  }

  lemma OneMoreChunk(chunks: seq<ByteString>, i: nat, relayed: seq<ByteString>, pending: ByteString,
                     complete: seq<ByteString>, rest: ByteString)
    requires i < |chunks| && AllTerminated(relayed) && AllTerminated(complete)
    requires Flatten(relayed) + pending == Flatten(chunks[..i]) && Flatten(complete) + rest == pending + chunks[i]
    ensures AllTerminated(relayed + complete)
    ensures Flatten(relayed + complete) + rest == Flatten(chunks[..i + 1])
  {
    hide Flatten;
    assert chunks[..i + 1] == chunks[..i] + [chunks[i]];
    FlattenSnoc(chunks[..i], chunks[i]);
    FlattenAppend(relayed, complete);
    assert Flatten(relayed) + Flatten(complete) + rest == Flatten(relayed) + (Flatten(complete) + rest);
    assert Flatten(relayed) + pending + chunks[i] == Flatten(relayed) + (pending + chunks[i]);
  }

  lemma {:induction false} AfterTerminated(records: seq<ByteString>, rest: ByteString)
    requires forall r :: r in records ==> IsRecord(r) && Terminated(r)
    ensures RecordsOf(Flatten(records) + rest) == records + RecordsOf(rest)
  {
    hide RecordsOf, IsRecord, Terminated;
    if records == [] {
      assert Flatten(records) + rest == rest;
    } else {
      var tail := Flatten(records[1..]) + rest;
      AfterTerminated(records[1..], rest);
      TerminatedFirst(records[0], tail);
      assert Flatten(records) + rest == records[0] + tail;
      assert [records[0]] + (records[1..] + RecordsOf(rest)) == records + RecordsOf(rest);
    }
  }
}
