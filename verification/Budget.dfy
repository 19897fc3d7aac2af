/** The turn and token counter over the implementer's stream, and the budget verdict. */
module Budget {
  import opened Bytes

  const GUARD_KINDS: set<string> := {
    "loop_broken", "scope_refused", "symbol_preserved", "command_bounded", "command_timed_out",
    "self_test_detected", "self_test_enforced", "self_test_red_stop", "finish_nudged", "runaway_resumed"
  }

  /** A field of a usage record; booleans and fractions are not counts. */
  datatype JsonValue = Int(value: int) | NotAnInt

  /** What one transcript line carries, once parsed; prose and malformed JSON are `Uncounted`. */
  datatype Event =
    | TurnStart
    | ToolStart
    | AssistantUsage(input: JsonValue, output: JsonValue)
    | Custom(kind: string)
    | Uncounted

  /** What reading a line comes to: an event, or an error that is not caught. */
  datatype Reading = Read(event: Event) | Raises

  function CountOf(value: JsonValue): nat {
    if value.Int? && value.value >= 0 then value.value else 0
  }

  datatype Counts = Counts(turns: nat, tokensIn: nat, tokensOut: nat, toolCalls: nat, guards: map<string, nat>)

  const ZERO := Counts(0, 0, 0, 0, map kind | kind in GUARD_KINDS :: 0)

  function Fed(c: Counts, e: Event): Counts {
    match e
    case TurnStart => c.(turns := c.turns + 1)
    case ToolStart => c.(toolCalls := c.toolCalls + 1)
    case AssistantUsage(input, output) =>
      c.(tokensIn := c.tokensIn + CountOf(input), tokensOut := c.tokensOut + CountOf(output))
    case Custom(kind) =>
      if kind in c.guards then c.(guards := c.guards[kind := c.guards[kind] + 1]) else c
    case Uncounted => c
  }

  /** The one counter over the stream; `parse` stands for JSON decoding of one line. */
  class TurnCounter {
    var turns: nat
    var tokensIn: nat
    var tokensOut: nat
    var toolCalls: nat
    var guardFirings: map<string, nat>

    function Snapshot(): Counts
      reads this
    {
      Counts(turns, tokensIn, tokensOut, toolCalls, guardFirings)
    }

    constructor ()
      ensures Snapshot() == ZERO
    {
      turns, tokensIn, tokensOut, toolCalls := 0, 0, 0, 0;
      guardFirings := map kind | kind in GUARD_KINDS :: 0;
    }

    /** An error is raised before anything is counted. */
    method Feed(line: ByteString, parse: ByteString -> Reading) returns (raised: bool)
      modifies this
      ensures raised <==> parse(line).Raises?
      ensures Snapshot() == if raised then old(Snapshot()) else Fed(old(Snapshot()), parse(line).event)
    {
      raised := parse(line).Raises?;
      if !raised {
        Note(parse(line).event);
      }
    }

    method Note(event: Event)
      modifies this
      ensures Snapshot() == Fed(old(Snapshot()), event)
    {
      match event
      case TurnStart => turns := turns + 1;
      case ToolStart => toolCalls := toolCalls + 1;
      case AssistantUsage(input, output) =>
        tokensIn := tokensIn + CountOf(input);
        tokensOut := tokensOut + CountOf(output);
      case Custom(kind) =>
        if kind in guardFirings {
          guardFirings := guardFirings[kind := guardFirings[kind] + 1];
        }
      case Uncounted =>
    }
  }

  datatype Limits = Limits(turnLimit: Option<nat>, deadlineSeconds: Option<real>, tokenLimit: Option<nat>) {
    predicate Declared() {
      turnLimit.Some? || deadlineSeconds.Some? || tokenLimit.Some?
    }
  }

  datatype State = Within | TurnExhausted | TokenExhausted | DeadlineExhausted | NotDeclared

  predicate OverTurns(limits: Limits, turns: nat) {
    limits.turnLimit.Some? && turns > limits.turnLimit.value
  }

  predicate OverTokens(limits: Limits, tokens: nat) {
    limits.tokenLimit.Some? && tokens > limits.tokenLimit.value
  }

  predicate OverDeadline(limits: Limits, seconds: real) {
    limits.deadlineSeconds.Some? && seconds > limits.deadlineSeconds.value
  }

  /** The verdict on a measured spend: tokens first, then turns, then the deadline. */
  function Evaluate(limits: Limits, turns: nat, seconds: real, tokens: nat): State {
    if OverTokens(limits, tokens) then TokenExhausted
    else if OverTurns(limits, turns) then TurnExhausted
    else if OverDeadline(limits, seconds) then DeadlineExhausted
    else if !limits.Declared() then NotDeclared
    else Within
  }

  /** The live check after each line: turns first, then tokens. */
  function LiveCheck(limits: Limits, c: Counts): Option<State> {
    if OverTurns(limits, c.turns) then Some(TurnExhausted)
    else if OverTokens(limits, c.tokensOut) then Some(TokenExhausted)
    else None
  }

  /**
   * From a spend within both limits, the two orders of checking agree after any one event,
   * because no event adds both a turn and tokens; a turn trip is at exactly one over the limit.
   */
  lemma OneEventTripsOneLimit(limits: Limits, c: Counts, e: Event, seconds: real)
    requires LiveCheck(limits, c) == None && LiveCheck(limits, Fed(c, e)).Some?
    ensures var after := Fed(c, e);
            && LiveCheck(limits, after) == Some(Evaluate(limits, after.turns, seconds, after.tokensOut))
            && (LiveCheck(limits, after) == Some(TurnExhausted) ==> after.turns == limits.turnLimit.value + 1)
            && (LiveCheck(limits, after) == Some(TokenExhausted) ==> c.tokensOut <= limits.tokenLimit.value)
  {
  }
}
