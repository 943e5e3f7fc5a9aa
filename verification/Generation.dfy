/** The one-shot parser of finished generations, and the shape in which a
    streamed generation is returned. */
module Generation {
  import opened Wrappers
  import opened Text
  import opened StreamDecoder

  const THINK_START := "<think>"

  datatype FinishReason = FinishStop | FinishToolCalls | FinishLength

  datatype GeneratedOutput = GeneratedOutput(text: string, toolCalls: seq<GeneratedToolCall>,
    finishReason: FinishReason)

  datatype ProtocolError = UnterminatedToolCall | InvalidToolCall

  /** Reasoning stays private: visible text starts after `</think>`. */
  function VisibleAfterThinking(text: string): string {
    match Find(text, THINK_END)
    case Some(end) => TrimLeadingNewlines(text[end + |THINK_END|..])
    case None => if THINK_START <= text then TrimLeadingNewlines(text[|THINK_START|..]) else text
  }

  /** Splits `remaining` into plain text and complete tool calls, after `plain`
      and `calls` have been split off already. */
  function SplitToolCalls(parse: ToolParser, remaining: string, plain: string, calls: seq<GeneratedToolCall>)
      : Result<(string, seq<GeneratedToolCall>), ProtocolError>
    decreases |remaining|
  {
    match Find(remaining, TOOL_CALL_START)
    case None => Success((plain + remaining, calls))
    case Some(start) =>
      var afterStart := remaining[start + |TOOL_CALL_START|..];
      match Find(afterStart, TOOL_CALL_END)
      case None => Failure(UnterminatedToolCall)
      case Some(end) =>
        match parse(Trim(afterStart[..end]), |calls|)
        case None => Failure(InvalidToolCall)
        case Some(call) =>
          SplitToolCalls(parse, afterStart[end + |TOOL_CALL_END|..], plain + remaining[..start], calls + [call])
  }

  function ModelText(parse: ToolParser, text: string): Result<GeneratedOutput, ProtocolError> {
    match SplitToolCalls(parse, VisibleAfterThinking(text), "", [])
    case Failure(e) => Failure(e)
    case Success((plain, calls)) =>
      Success(GeneratedOutput(plain, calls, if calls == [] then FinishStop else FinishToolCalls))
  }

  /** A continuation of a prompt that already opened `<think>`. */
  function QwenContinuation(parse: ToolParser, text: string): Result<GeneratedOutput, ProtocolError> {
    if Find(text, THINK_END).None? then ModelText(parse, "") else ModelText(parse, text)
  }

  method FromModelText(parse: ToolParser, text: string) returns (r: Result<GeneratedOutput, ProtocolError>)
    ensures r == ModelText(parse, text)
  {
    var remaining := VisibleAfterThinking(text);
    var plain := "";
    var calls: seq<GeneratedToolCall> := [];
    var start := Find(remaining, TOOL_CALL_START);
    while start.Some?
      invariant start == Find(remaining, TOOL_CALL_START)
      invariant SplitToolCalls(parse, remaining, plain, calls)
             == SplitToolCalls(parse, VisibleAfterThinking(text), "", [])
      decreases |remaining|
    {
      var afterStart := remaining[start.value + |TOOL_CALL_START|..];
      var end := Find(afterStart, TOOL_CALL_END);
      if end.None? {
        return Failure(UnterminatedToolCall);
      }
      var call := parse(Trim(afterStart[..end.value]), |calls|);
      if call.None? {
        return Failure(InvalidToolCall);
      }
      plain := plain + remaining[..start.value];
      calls := calls + [call.value];
      remaining := afterStart[end.value + |TOOL_CALL_END|..];
      start := Find(remaining, TOOL_CALL_START);
    }
    plain := plain + remaining;
    return Success(GeneratedOutput(plain, calls, if calls == [] then FinishStop else FinishToolCalls));
  }

  // ------------------------------------------------------------------------
  // One decode loop's events, shaped into an output

  datatype DecodeRun = DecodeRun(events: seq<StreamEvent>, finish: StreamFinish, reachedEos: bool, stopped: bool,
                                 clientGone: bool)

  function ShownText(events: seq<StreamEvent>): string {
    if events == [] then ""
    else (if events[0].TextDelta? then events[0].text else "") + ShownText(events[1..])
  }

  function CallsIn(events: seq<StreamEvent>): seq<GeneratedToolCall> {
    if events == [] then []
    else (if events[0].ToolCall? then [events[0].call] else []) + CallsIn(events[1..])
  }

  /** An answer that ran into the token budget is reported as cut off. */
  function ReasonOf(run: DecodeRun): FinishReason {
    match run.finish
    case ToolCalls => FinishToolCalls
    case Length => FinishLength
    case Stop => if !run.reachedEos && !run.stopped && !run.clientGone then FinishLength else FinishStop
  }

  method IntoOutput(run: DecodeRun) returns (output: GeneratedOutput)
    ensures output == GeneratedOutput(ShownText(run.events), CallsIn(run.events), ReasonOf(run))
  {
    hide ShownText, CallsIn, ReasonOf;
    var text := "";
    var toolCalls: seq<GeneratedToolCall> := [];
    for i := 0 to |run.events|
      invariant text + ShownText(run.events[i..]) == ShownText(run.events)
      invariant toolCalls + CallsIn(run.events[i..]) == CallsIn(run.events)
    {
      NextEvent(run.events, i, text, toolCalls);
      match run.events[i] {
        case Reasoning(_) =>
        case TextDelta(delta) => text := text + delta;
        case ToolCall(call) => toolCalls := toolCalls + [call];
      }
    }
    NoEvents();
    assert run.events[|run.events|..] == [];
    return GeneratedOutput(text, toolCalls, ReasonOf(run));
  }

  lemma NoEvents()
    ensures ShownText([]) == "" && CallsIn([]) == []
  {
  }

  /** What the event at `i` adds to what was collected before it. */
  lemma NextEvent(events: seq<StreamEvent>, i: nat, text: string, calls: seq<GeneratedToolCall>)
    requires i < |events|
    ensures (if events[i].TextDelta? then text + events[i].text else text) + ShownText(events[i + 1..])
         == text + ShownText(events[i..])
    ensures (if events[i].ToolCall? then calls + [events[i].call] else calls) + CallsIn(events[i + 1..])
         == calls + CallsIn(events[i..])
  {
    assert events[i..][0] == events[i] && events[i..][1..] == events[i + 1..];
    var shown := if events[i].TextDelta? then events[i].text else "";
    var found := if events[i].ToolCall? then [events[i].call] else [];
    assert ShownText(events[i..]) == shown + ShownText(events[i + 1..]);
    assert CallsIn(events[i..]) == found + CallsIn(events[i + 1..]);
    hide ShownText, CallsIn;
    ConcatAssoc(text, shown, ShownText(events[i + 1..]));
    ConcatAssoc(calls, found, CallsIn(events[i + 1..]));
  }

}
