/** The incremental output decoder: turns decoded model text, arriving in
    arbitrary chunks, into client-visible events without ever retracting one.
    Text is a sequence of Unicode scalar values. */
module StreamDecoder {
  import opened Wrappers
  import opened Text

  const THINK_END := "</think>"
  const TOOL_CALL_START := "<tool_call>"
  const TOOL_CALL_END := "</tool_call>"

  datatype GeneratedToolCall = GeneratedToolCall(id: string, name: string, argumentsJson: string)

  /** The tool-call parser: a partial function of the trimmed block body and
      the index of the call. `None` is a protocol error. */
  type ToolParser = (string, nat) -> Option<GeneratedToolCall>

  datatype StreamEvent =
    | Reasoning(text: string)
    | TextDelta(text: string)
    | ToolCall(call: GeneratedToolCall)

  datatype StreamFinish = Stop | ToolCalls | Length

  // ------------------------------------------------------------------------
  // Trimming

  predicate IsNewline(c: char) {
    c == '\r' || c == '\n'
  }

  /** The Unicode White_Space property. */
  predicate IsWhitespace(c: char) {
    || '\U{9}' <= c <= '\U{D}'
    || c in {'\U{20}', '\U{85}', '\U{A0}', '\U{1680}', '\U{2028}', '\U{2029}', '\U{202F}', '\U{205F}', '\U{3000}'}
    || '\U{2000}' <= c <= '\U{200A}'
  }

  function TrimLeadingNewlines(t: string): string {
    if t != "" && IsNewline(t[0]) then TrimLeadingNewlines(t[1..]) else t
  }

  function TrimStart(t: string): string {
    if t != "" && IsWhitespace(t[0]) then TrimStart(t[1..]) else t
  }

  function TrimEnd(t: string): string {
    if t != "" && IsWhitespace(t[|t| - 1]) then TrimEnd(t[..|t| - 1]) else t
  }

  function Trim(t: string): string {
    TrimEnd(TrimStart(t))
  }

  lemma TrimShrinks(t: string)
    ensures |TrimLeadingNewlines(t)| <= |t|
  {
  }

  // ------------------------------------------------------------------------
  // The decoder as a transition function

  /** The decoder's mutable fields. */
  datatype DecoderState = DecoderState(
    thinking: bool,
    pending: string,
    inToolCall: bool,
    toolBuffer: string,
    toolCallCount: nat,
    stopped: bool,
    trimming: bool)
  {
    function Append(text: string): DecoderState {
      this.(pending := pending + text)
    }
  }

  function Start(thinking: bool): DecoderState {
    DecoderState(thinking, "", false, "", 0, false, false)
  }

  /** What one drain produces: a new state and the events that became safe to
      emit, or a protocol error from a tool call that does not parse. */
  datatype DrainResult =
    | Drained(state: DecoderState, events: seq<StreamEvent>)
    | Rejected(state: DecoderState)

  function After(events: seq<StreamEvent>, r: DrainResult): DrainResult {
    match r
    case Drained(s, more) => Drained(s, events + more)
    case Rejected(_) => r
  }

  function ReasoningEvents(t: string): seq<StreamEvent> {
    if t == "" then [] else [Reasoning(t)]
  }

  function TextEvents(t: string): seq<StreamEvent> {
    if t == "" then [] else [TextDelta(t)]
  }

  /** Empty stop sequences are dropped on construction. */
  function KeepNonEmpty(stops: seq<string>): (kept: seq<string>)
    ensures forall w :: w in kept <==> w in stops && w != ""
  {
    if stops == [] then []
    else (if stops[0] == "" then [] else [stops[0]]) + KeepNonEmpty(stops[1..])
  }

  /** Every string whose beginning must be held back in text mode. */
  function Watched(stops: seq<string>): seq<string> {
    [TOOL_CALL_START] + stops
  }

  predicate StopComesFirst(stopAt: Option<nat>, toolAt: Option<nat>) {
    stopAt.Some? && (toolAt.None? || stopAt.value < toolAt.value)
  }

  /** Which delimiter wins in text mode, and where: whichever of a stop sequence
      and a tool-call opener appears first; a tie goes to the opener. */
  datatype Winner = NoMatch | StopAt(at: nat) | ToolAt(at: nat)

  function WinnerIn(t: string, stops: seq<string>): (r: Winner)
    ensures !r.NoMatch? ==> r.at <= |t|
    ensures r.ToolAt? ==> r.at + |TOOL_CALL_START| <= |t|
  {
    var stopAt := FindAny(t, stops);
    var toolAt := Find(t, TOOL_CALL_START);
    if StopComesFirst(stopAt, toolAt) then StopAt(stopAt.value)
    else if toolAt.Some? then ToolAt(toolAt.value)
    else NoMatch
  }

  /** Length of what a drain may release of `t`: all of it on the last flush,
      otherwise everything but the tail that could still grow. */
  function Releasable(t: string, watched: seq<string>, final: bool): (n: nat)
    ensures n <= |t|
  {
    if final then |t| else |t| - Hold(t, watched)
  }

  /** One turn of the drain loop: go round again, stop, or reject a tool call. */
  datatype Turn =
    | Again(state: DecoderState, events: seq<StreamEvent>)
    | Halt(state: DecoderState, events: seq<StreamEvent>)
    | Reject(state: DecoderState)

  function ThinkingTurn(s: DecoderState, final: bool): Turn {
    match Find(s.pending, THINK_END) {
      case Some(at) =>
        var rest := s.pending[at + |THINK_END|..];
        Again(s.(pending := rest, thinking := false, trimming := true), ReasoningEvents(s.pending[..at]))
      case None =>
        var cut := Releasable(s.pending, [THINK_END], final);
        Halt(s.(pending := s.pending[cut..]), ReasoningEvents(s.pending[..cut]))
    }
  }

  function ToolTurn(parse: ToolParser, s: DecoderState): Turn {
    var buffer := s.toolBuffer + s.pending;
    match Find(buffer, TOOL_CALL_END) {
      case Some(at) =>
        match parse(Trim(buffer[..at]), s.toolCallCount) {
          case None => Reject(s.(toolBuffer := buffer, pending := ""))
          case Some(call) =>
            var rest := buffer[at + |TOOL_CALL_END|..];
            Again(s.(pending := rest, toolBuffer := "", inToolCall := false, toolCallCount := s.toolCallCount + 1),
                  [ToolCall(call)])
        }
      case None => Halt(s.(toolBuffer := buffer, pending := ""), [])
    }
  }

  /** Text mode: emit up to the winning delimiter, or all that cannot grow into one. */
  function TextTurn(stops: seq<string>, s: DecoderState, final: bool): Turn {
    var t := s.pending;
    match WinnerIn(t, stops) {
      case StopAt(at) =>
        Halt(s.(pending := "", stopped := true), TextEvents(t[..at]))
      case ToolAt(at) =>
        Again(s.(pending := "", toolBuffer := t[at + |TOOL_CALL_START|..], inToolCall := true), TextEvents(t[..at]))
      case NoMatch =>
        var cut := Releasable(t, Watched(stops), final);
        Halt(s.(pending := t[cut..]), TextEvents(t[..cut]))
    }
  }

  /** The run of newlines after the reasoning block is dropped, and has ended
      only once another character proves it. */
  function Trimmed(s: DecoderState): DecoderState {
    if s.trimming then
      var t := TrimLeadingNewlines(s.pending);
      s.(pending := t, trimming := t == "")
    else s
  }

  function TurnOf(parse: ToolParser, stops: seq<string>, s: DecoderState, final: bool): Turn {
    if s.stopped then Halt(s.(pending := ""), [])
    else if s.thinking then ThinkingTurn(s, final)
    else if s.inToolCall then ToolTurn(parse, s)
    else if Trimmed(s).trimming && !final then Halt(Trimmed(s), [])
    else TextTurn(stops, Trimmed(s), final)
  }

  lemma TurnShrinks(parse: ToolParser, stops: seq<string>, s: DecoderState, final: bool)
    requires TurnOf(parse, stops, s, final).Again?
    ensures var s' := TurnOf(parse, stops, s, final).state;
      |s'.pending| + |s'.toolBuffer| < |s.pending| + |s.toolBuffer|
  {
    TrimShrinks(s.pending);
  }

  function Drain(parse: ToolParser, stops: seq<string>, s: DecoderState, final: bool): DrainResult
    decreases |s.pending| + |s.toolBuffer|
  {
    match TurnOf(parse, stops, s, final)
    case Again(s', events) =>
      TurnShrinks(parse, stops, s, final);
      After(events, Drain(parse, stops, s', final))
    case Halt(s', events) => Drained(s', events)
    case Reject(s') => Rejected(s')
  }

  function Push(parse: ToolParser, stops: seq<string>, s: DecoderState, text: string): DrainResult {
    if s.stopped || text == "" then Drained(s, []) else Drain(parse, stops, s.Append(text), false)
  }

  function Flush(parse: ToolParser, stops: seq<string>, s: DecoderState): DrainResult {
    if s.stopped then Drained(s, []) else Drain(parse, stops, s, true)
  }

  function FinishOf(s: DecoderState): StreamFinish {
    if s.inToolCall then Length
    else if s.toolCallCount > 0 then ToolCalls
    else Stop
  }

  // ------------------------------------------------------------------------
  // The decoder as the source writes it

  class IncrementalOutputDecoder {
    const parse: ToolParser
    const stopSequences: seq<string>

    var thinking: bool
    var pending: string
    var inToolCall: bool
    var toolBuffer: string
    var toolCallCount: nat
    var stopped: bool
    var trimmingLeadingNewlines: bool

    ghost function State(): DecoderState
      reads this
    {
      DecoderState(thinking, pending, inToolCall, toolBuffer, toolCallCount, stopped, trimmingLeadingNewlines)
    }

    constructor (parse: ToolParser, stopSequences: seq<string>, thinking: bool)
      ensures this.parse == parse && this.stopSequences == KeepNonEmpty(stopSequences)
      ensures State() == Start(thinking)
    {
      this.parse := parse;
      this.stopSequences := KeepNonEmpty(stopSequences);
      this.thinking := thinking;
      pending, inToolCall, toolBuffer, toolCallCount := "", false, "", 0;
      stopped, trimmingLeadingNewlines := false, false;
    }

    /** Feeds newly decoded text and returns whatever became safe to emit. */
    method PushText(text: string) returns (r: Result<seq<StreamEvent>, ()>)
      modifies this
      ensures Agrees(r, Push(parse, stopSequences, old(State()), text))
    {
      if stopped || text == "" {
        return Success([]);
      }
      pending := pending + text;
      r := DrainInto(false);
    }

    /** Flushes whatever is still held back and says why the generation ended. */
    method Finish() returns (r: Result<(seq<StreamEvent>, StreamFinish), ()>)
      modifies this
      ensures var spec := Flush(parse, stopSequences, old(State()));
        && State() == spec.state
        && r == if spec.Rejected? then Failure(()) else Success((spec.events, FinishOf(spec.state)))
    {
      var events := [];
      if !stopped {
        var flushed := DrainInto(true);
        if flushed.Failure? {
          return Failure(());
        }
        events := flushed.value;
      }
      var finish := if inToolCall then Length else if toolCallCount > 0 then ToolCalls else Stop;
      return Success((events, finish));
    }

    ghost predicate Agrees(r: Result<seq<StreamEvent>, ()>, spec: DrainResult)
      reads this
    {
      && State() == spec.state
      && r == if spec.Rejected? then Failure(()) else Success(spec.events)
    }

    /** `finalFlush` releases text that was held only in case it grew into a delimiter. */
    method DrainInto(finalFlush: bool) returns (r: Result<seq<StreamEvent>, ()>)
      modifies this
      ensures Agrees(r, Drain(parse, stopSequences, old(State()), finalFlush))
    {
      var events: seq<StreamEvent> := [];
      ghost var goal := Drain(parse, stopSequences, State(), finalFlush);
      while true
        invariant After(events, Drain(parse, stopSequences, State(), finalFlush)) == goal
        decreases |pending| + |toolBuffer|
      {
        ghost var before := State();
        var again, emitted;
        if stopped {
          pending := "";
          again, emitted := false, [];
        } else if thinking {
          again, emitted := DrainThinking(finalFlush);
        } else if inToolCall {
          var turn := DrainToolCall();
          if turn.Failure? {
            return Failure(());
          }
          again, emitted := turn.value.0, turn.value.1;
        } else {
          TrimPending();
          if trimmingLeadingNewlines && !finalFlush {
            again, emitted := false, [];
          } else {
            again, emitted := DrainText(finalFlush);
          }
        }
        if again {
          TurnShrinks(parse, stopSequences, before, finalFlush);
          AfterAfter(events, emitted, Drain(parse, stopSequences, State(), finalFlush));
        }
        events := events + emitted;
        if !again {
          return Success(events);
        }
      }
    }

    /** Before `</think>` everything is reasoning. */
    method DrainThinking(finalFlush: bool) returns (again: bool, events: seq<StreamEvent>)
      modifies this
      ensures var turn := ThinkingTurn(old(State()), finalFlush);
        turn == if again then Again(State(), events) else Halt(State(), events)
    {
      events := [];
      var at := Find(pending, THINK_END);
      if at.Some? {
        var reasoning := pending[..at.value];
        if reasoning != "" {
          events := [Reasoning(reasoning)];
        }
        pending := pending[at.value + |THINK_END|..];
        thinking := false;
        trimmingLeadingNewlines := true;
        return true, events;
      }
      var hold := SuffixThatCouldGrowInto(pending, [THINK_END]);
      var emit := TakePrefix(|pending| - hold, finalFlush);
      if emit != "" {
        events := [Reasoning(emit)];
      }
      return false, events;
    }

    /** A partial block is held whole; a complete one becomes one parsed event. */
    method DrainToolCall() returns (r: Result<(bool, seq<StreamEvent>), ()>)
      modifies this
      ensures ToolTurn(parse, old(State())) ==
        match r
        case Failure(_) => Reject(State())
        case Success((again, events)) => if again then Again(State(), events) else Halt(State(), events)
    {
      var at := ToolBufferEnd();
      if at.None? {
        toolBuffer := toolBuffer + pending;
        pending := "";
        return Success((false, []));
      }
      var body := Trim(toolBuffer[..at.value]);
      var call := parse(body, toolCallCount);
      if call.None? {
        return Failure(());
      }
      toolCallCount := toolCallCount + 1;
      pending := toolBuffer[at.value + |TOOL_CALL_END|..];
      toolBuffer := "";
      inToolCall := false;
      return Success((true, [ToolCall(call.value)]));
    }

    /** Trimming stops only once a non-newline character proves the run ended. */
    method TrimPending()
      modifies this`pending, this`trimmingLeadingNewlines
      ensures State() == Trimmed(old(State()))
    {
      if trimmingLeadingNewlines {
        var trimmed := TrimLeadingNewlines(pending);
        TrimSame(pending);
        if |trimmed| != |pending| {
          pending := trimmed;
        }
        if pending != "" {
          trimmingLeadingNewlines := false;
        }
      }
    }

    method DrainText(finalFlush: bool) returns (again: bool, events: seq<StreamEvent>)
      modifies this
      ensures var turn := TextTurn(stopSequences, old(State()), finalFlush);
        turn == if again then Again(State(), events) else Halt(State(), events)
    {
      hide Find, FindAny, Hold;
      events := [];
      var stopAt := FirstStopMatch();
      var toolAt := Find(pending, TOOL_CALL_START);
      if stopAt.Some? && (toolAt.None? || stopAt.value < toolAt.value) {
        var emit := pending[..stopAt.value];
        if emit != "" {
          events := [TextDelta(emit)];
        }
        pending := "";
        stopped := true;
        return false, events;
      }
      if toolAt.Some? {
        var emit := pending[..toolAt.value];
        if emit != "" {
          events := [TextDelta(emit)];
        }
        toolBuffer := pending[toolAt.value + |TOOL_CALL_START|..];
        pending := "";
        inToolCall := true;
        return true, events;
      }
      var hold := SuffixThatCouldGrowInto(pending, [TOOL_CALL_START] + stopSequences);
      var emit := TakePrefix(|pending| - hold, finalFlush);
      if emit != "" {
        events := [TextDelta(emit)];
      }
      return false, events;
    }

    /** Removes and returns `pending[..upto]`, or everything on the last flush. */
    method TakePrefix(upto: nat, finalFlush: bool) returns (head: string)
      requires upto <= |pending|
      modifies this`pending
      ensures var cut := if finalFlush then |old(pending)| else upto;
        head == old(pending)[..cut] && pending == old(pending)[cut..]
    {
      var boundary := if finalFlush then |pending| else upto;
      if boundary == 0 {
        return "";
      }
      head := pending[..boundary];
      pending := pending[boundary..];
    }

    /** Moves `pending` behind the tool buffer and looks for the closing tag there. */
    method ToolBufferEnd() returns (at: Option<nat>)
      modifies this`toolBuffer, this`pending
      ensures pending == "" && toolBuffer == old(toolBuffer) + old(pending)
      ensures at == Find(toolBuffer, TOOL_CALL_END)
    {
      toolBuffer := toolBuffer + pending;
      pending := "";
      at := Find(toolBuffer, TOOL_CALL_END);
    }

    /** Earliest completed stop-sequence match in `pending`. */
    method FirstStopMatch() returns (at: Option<nat>)
      ensures at == FindAny(pending, stopSequences)
    {
      at := None;
      for i := 0 to |stopSequences|
        invariant at == FindAny(pending, stopSequences[..i])
      {
        var here := Find(pending, stopSequences[i]);
        FindAnySnoc(pending, stopSequences, i);
        if here.Some? && (at.None? || here.value < at.value) {
          at := here;
        }
      }
      assert stopSequences[..|stopSequences|] == stopSequences;
    }
  }

  lemma AfterAfter(a: seq<StreamEvent>, b: seq<StreamEvent>, r: DrainResult)
    ensures After(a, After(b, r)) == After(a + b, r)
  {
    if r.Drained? {
      assert a + (b + r.events) == (a + b) + r.events;
    }
  }

  lemma TrimSame(t: string)
    ensures |TrimLeadingNewlines(t)| == |t| ==> TrimLeadingNewlines(t) == t
  {
    if t != "" && IsNewline(t[0]) {
      TrimShrinks(t[1..]);
    }
  }

  /** How much must be held back so that no partial delimiter or stop sequence
      is ever emitted: exactly the longest suffix of `text` that is a proper
      prefix of a watched string. */
  method SuffixThatCouldGrowInto(text: string, watched: seq<string>) returns (longest: nat)
    ensures longest == Hold(text, watched)
  {
    longest := 0;
    for i := 0 to |watched|
      invariant IsHold(text, watched[..i], longest)
    {
      var candidate := watched[i];
      var max := if |candidate| == 0 then 0 else |candidate| - 1;
      if |text| < max {
        max := |text|;
      }
      var length := max;
      ghost var before := longest;
      while 1 <= length && longest < length
        invariant before == longest && 0 <= length <= max
        invariant forall k :: length < k <= max ==> candidate[..k] != text[|text| - k..]
      {
        if candidate[..length] == text[|text| - length..] {
          longest := length;
          break;
        }
        length := length - 1;
      }
      HoldExtends(text, watched, i, before, longest, max);
    }
    assert watched[..|watched|] == watched;
    HoldUnique(text, watched, longest);
  }

  lemma HoldExtends(text: string, watched: seq<string>, i: nat, before: nat, longest: nat, max: nat)
    requires i < |watched| && IsHold(text, watched[..i], before)
    requires max == if |watched[i]| == 0 then 0 else if |text| < |watched[i]| - 1 then |text| else |watched[i]| - 1
    requires before <= longest <= |text|
    requires before < longest ==> longest <= max && watched[i][..longest] == text[|text| - longest..]
    requires forall k :: longest < k <= max ==> watched[i][..k] != text[|text| - k..]
    ensures IsHold(text, watched[..i + 1], longest)
  {
    var old_, new_ := watched[..i], watched[..i + 1];
    assert new_ == old_ + [watched[i]];
    forall k: nat | 0 < k <= |text|
      ensures TailGrows(text, new_, k)
         <==> TailGrows(text, old_, k) || (k <= max && watched[i][..k] == text[|text| - k..])
    {
      var u := text[|text| - k..];
      if k <= max && watched[i][..k] == u {
        assert |u| < |new_[i]| && new_[i][..|u|] == u;
      }
      if TailGrows(text, old_, k) {
        var m :| 0 <= m < |old_| && |u| < |old_[m]| && old_[m][..|u|] == u;
        assert new_[m] == old_[m];
      }
    }
  }
}
