/** What the counter counts, told from the lines alone, and where a limit stops it. */
module Counting {
  import opened Bytes
  import opened Budget
  import opened Stream

  /** What a usage field adds: a whole number that is not negative, or nothing. */
  function Amount(field: JsonValue): nat {
    match field
    case Int(value) => if value < 0 then 0 else value
    case NotAnInt => 0
  }

  /** What a line adds to the input and to the output of the assistant. */
  function InputOf(line: ByteString, parse: Parser): nat {
    match parse(line)
    case Read(AssistantUsage(input, _)) => Amount(input)
    case _ => 0
  }

  function OutputOf(line: ByteString, parse: Parser): nat {
    match parse(line)
    case Read(AssistantUsage(_, output)) => Amount(output)
    case _ => 0
  }

  function InputSum(lines: seq<ByteString>, parse: Parser): nat {
    if lines == [] then 0 else InputOf(lines[0], parse) + InputSum(lines[1..], parse)
  }

  function OutputSum(lines: seq<ByteString>, parse: Parser): nat {
    if lines == [] then 0 else OutputOf(lines[0], parse) + OutputSum(lines[1..], parse)
  }

  /** How many of the lines carry exactly that event. */
  function Times(lines: seq<ByteString>, event: Event, parse: Parser): nat {
    if lines == [] then 0 else (if parse(lines[0]) == Read(event) then 1 else 0) + Times(lines[1..], event, parse)
  }

  predicate NoneRaises(lines: seq<ByteString>, parse: Parser) {
    forall i :: 0 <= i < |lines| ==> parse(lines[i]).Read?
  }

  /** From one snapshot to another exactly what these lines carry was counted. */
  ghost predicate CountedOver(c: Counts, d: Counts, lines: seq<ByteString>, parse: Parser) {
    && d.tokensIn == c.tokensIn + InputSum(lines, parse)
    && d.tokensOut == c.tokensOut + OutputSum(lines, parse)
    && d.turns == c.turns + Times(lines, TurnStart, parse)
    && d.toolCalls == c.toolCalls + Times(lines, ToolStart, parse)
    && d.guards.Keys == c.guards.Keys
    && forall kind :: kind in c.guards ==> d.guards[kind] == c.guards[kind] + Times(lines, Custom(kind), parse)
  }

  lemma NothingCounted(c: Counts, parse: Parser)
    ensures CountedOver(c, c, [], parse)
  {
  }

  lemma OneLineCounted(c: Counts, line: ByteString, parse: Parser)
    requires parse(line).Read?
    ensures CountedOver(c, Fed(c, parse(line).event), [line], parse)
  {
    var rest: seq<ByteString> := [line][1..];
    assert rest == [];
    assert InputSum(rest, parse) == 0 && OutputSum(rest, parse) == 0;
    assert forall e :: Times(rest, e, parse) == 0;
  }

  lemma {:induction false} SumsConcat(a: seq<ByteString>, b: seq<ByteString>, parse: Parser)
    ensures InputSum(a + b, parse) == InputSum(a, parse) + InputSum(b, parse)
    ensures OutputSum(a + b, parse) == OutputSum(a, parse) + OutputSum(b, parse)
    ensures forall e :: Times(a + b, e, parse) == Times(a, e, parse) + Times(b, e, parse)
  {
    hide InputOf, OutputOf;
    if a == [] {
      assert a + b == b;
    } else {
      SumsConcat(a[1..], b, parse);
      assert (a + b)[1..] == a[1..] + b;
    }
  }

  lemma CountedChain(c: Counts, d: Counts, e: Counts, a: seq<ByteString>, b: seq<ByteString>, parse: Parser)
    requires CountedOver(c, d, a, parse) && CountedOver(d, e, b, parse)
    ensures CountedOver(c, e, a + b, parse)
  {
    hide InputSum, OutputSum, Times;
    SumsConcat(a, b, parse);
  }

  /** Over lines that do not raise, the fold without limits counts all of them, from any snapshot. */
  lemma {:induction false} FoldCounts(lines: seq<ByteString>, c: Counts, parse: Parser)
    requires NoneRaises(lines, parse)
    ensures var (d, halt) := FoldUntil(lines, c, UNLIMITED, parse);
            halt == None && CountedOver(c, d, lines, parse)
  {
    if lines == [] {
      NothingCounted(c, parse);
    } else {
      hide CountedOver, Fed, FedLine;
      var next := Fed(c, parse(lines[0]).event);
      UnlimitedHalts(c, lines[0], parse);
      OneLineCounted(c, lines[0], parse);
      FoldCounts(lines[1..], next, parse);
      CountedChain(c, next, FoldUntil(lines[1..], next, UNLIMITED, parse).0, [lines[0]], lines[1..], parse);
      assert [lines[0]] + lines[1..] == lines;
    }
  }

  /**
   * Over lines that do not raise: the tokens out are the sum of the whole, non-negative `output` fields of
   * the assistant's usage, the tokens in that of its `input` fields; the turns, the tool calls and each
   * guard's firings are the number of lines that carry that event.
   */
  lemma CountsAreSums(lines: seq<ByteString>, parse: Parser)
    requires NoneRaises(lines, parse)
    ensures var c := FoldUntil(lines, ZERO, UNLIMITED, parse).0;
            && c.tokensIn == InputSum(lines, parse) && c.tokensOut == OutputSum(lines, parse)
            && c.turns == Times(lines, TurnStart, parse) && c.toolCalls == Times(lines, ToolStart, parse)
            && c.guards.Keys == GUARD_KINDS
            && forall kind :: kind in GUARD_KINDS ==> c.guards[kind] == Times(lines, Custom(kind), parse)
  {
    hide FoldUntil, InputSum, OutputSum, Times;
    FoldCounts(lines, ZERO, parse);
  }

  // ---------------------------------------------------------------- where a limit stops it

  /** Not more turns were started and not more tokens put out than allowed. */
  predicate WithinLimits(lines: seq<ByteString>, limits: Limits, parse: Parser) {
    && (limits.turnLimit.Some? ==> Times(lines, TurnStart, parse) <= limits.turnLimit.value)
    && (limits.tokenLimit.Some? ==> OutputSum(lines, parse) <= limits.tokenLimit.value)
  }

  /** The limit that the counted lines crossed. */
  predicate Crosses(lines: seq<ByteString>, limits: Limits, state: State, parse: Parser) {
    || (state == TurnExhausted && limits.turnLimit.Some? && Times(lines, TurnStart, parse) > limits.turnLimit.value)
    || (state == TokenExhausted && limits.tokenLimit.Some? && OutputSum(lines, parse) > limits.tokenLimit.value)
  }

  lemma LiveCheckIs(limits: Limits, c: Counts, lines: seq<ByteString>, parse: Parser)
    requires c.turns == Times(lines, TurnStart, parse) && c.tokensOut == OutputSum(lines, parse)
    ensures LiveCheck(limits, c) == None <==> WithinLimits(lines, limits, parse)
    ensures LiveCheck(limits, c).Some? ==> Crosses(lines, limits, LiveCheck(limits, c).value, parse)
  {
  }

  /** The counting goes on from a prefix that was within the limits. */
  lemma {:induction false} StopsFrom(lines: seq<ByteString>, n: nat, c: Counts, limits: Limits, parse: Parser)
    returns (k: nat)
    requires n <= |lines| && NoneRaises(lines, parse) && CountedOver(ZERO, c, lines[..n], parse)
    ensures n <= k <= |lines| && CountedOver(ZERO, FoldUntil(lines[n..], c, limits, parse).0, lines[..k], parse)
    ensures forall j :: n < j < k ==> WithinLimits(lines[..j], limits, parse)
    ensures var halt := FoldUntil(lines[n..], c, limits, parse).1;
            if halt == None then k == |lines| && (n < k ==> WithinLimits(lines, limits, parse))
            else n < k && halt.value.Limit? && Crosses(lines[..k], limits, halt.value.state, parse)
    decreases |lines| - n
  {
    if n == |lines| {
      k := n;
    } else {
      var next := Fed(c, parse(lines[n]).event);
      assert lines[n..][0] == lines[n] && lines[n..][1..] == lines[n + 1..];
      OneLineCounted(c, lines[n], parse);
      assert lines[..n + 1] == lines[..n] + [lines[n]];
      hide Fed, LiveCheck, WithinLimits, Crosses;
      CountedChain(ZERO, c, next, lines[..n], [lines[n]], parse);
      LiveCheckIs(limits, next, lines[..n + 1], parse) by { hide InputSum, OutputSum, Times; }
      if LiveCheck(limits, next).Some? {
        k := n + 1;
      } else {
        hide CountedOver;
        k := StopsFrom(lines, n + 1, next, limits, parse);
        assert k == n + 1 ==> lines[..n + 1] == lines[..k];
        assert lines[..|lines|] == lines;
      }
    }
  }

  /**
   * Over lines that do not raise, the count stops behind the first line with which the turns started or the
   * tokens put out exceed their limit, and names it; if no line does, everything is counted.
   */
  lemma StopsAtFirstExcess(lines: seq<ByteString>, limits: Limits, parse: Parser) returns (k: nat)
    requires NoneRaises(lines, parse)
    ensures k <= |lines| && forall j :: 0 < j < k ==> WithinLimits(lines[..j], limits, parse)
    ensures var (c, halt) := FoldUntil(lines, ZERO, limits, parse);
            && c.turns == Times(lines[..k], TurnStart, parse) && c.tokensOut == OutputSum(lines[..k], parse)
            && if halt == None then k == |lines| && WithinLimits(lines, limits, parse)
               else 0 < k && halt.value.Limit? && Crosses(lines[..k], limits, halt.value.state, parse)
  {
    assert lines[..0] == [] && lines[0..] == lines;
    NothingCounted(ZERO, parse);
    k := StopsFrom(lines, 0, ZERO, limits, parse);
    if lines == [] {
      assert WithinLimits([], limits, parse);
    }
    hide FoldUntil, InputSum, OutputSum, Times, WithinLimits, Crosses;
  }

  /** The verdict on a measured spend, in terms of the numbers: tokens weigh more than turns, turns than time. */
  lemma VerdictIsOfTheNumbers(limits: Limits, turns: nat, seconds: real, tokens: nat)
    ensures var overTokens := limits.tokenLimit.Some? && tokens > limits.tokenLimit.value;
            var overTurns := limits.turnLimit.Some? && turns > limits.turnLimit.value;
            var overTime := limits.deadlineSeconds.Some? && seconds > limits.deadlineSeconds.value;
            var verdict := Evaluate(limits, turns, seconds, tokens);
            && (verdict == TokenExhausted <==> overTokens)
            && (verdict == TurnExhausted <==> overTurns && !overTokens)
            && (verdict == DeadlineExhausted <==> overTime && !overTokens && !overTurns)
            && (verdict == NotDeclared <==>
                  limits.tokenLimit.None? && limits.turnLimit.None? && limits.deadlineSeconds.None?)
  {
  }
}
