/** Streaming and one-shot parsing agree, for every text and every chunking. */
module StreamAgreement {
  import opened Wrappers
  import opened Text
  import opened StreamDecoder
  import opened ChunkIndependence
  import opened Generation

  // ------------------------------------------------------------------------
  // What the atoms of a run say

  function ThoughtIn(a: Atom): string {
    if a.Thought? then [a.c] else ""
  }

  function ThoughtsOf(atoms: seq<Atom>): string {
    if atoms == [] then "" else ThoughtIn(atoms[0]) + ThoughtsOf(atoms[1..])
  }

  function ShownIn(a: Atom): string {
    if a.Shown? then [a.c] else ""
  }

  function ShownOf(atoms: seq<Atom>): string {
    if atoms == [] then "" else ShownIn(atoms[0]) + ShownOf(atoms[1..])
  }

  function CallIn(a: Atom): seq<GeneratedToolCall> {
    if a.Called? then [a.call] else []
  }

  function CallsOf(atoms: seq<Atom>): seq<GeneratedToolCall> {
    if atoms == [] then [] else CallIn(atoms[0]) + CallsOf(atoms[1..])
  }

  lemma {:induction false} ThoughtsAppend(a: seq<Atom>, b: seq<Atom>)
    ensures ThoughtsOf(a + b) == ThoughtsOf(a) + ThoughtsOf(b)
  {
    if a == [] {
      assert a + b == b;
    } else {
      assert (a + b)[0] == a[0] && (a + b)[1..] == a[1..] + b;
      ThoughtsAppend(a[1..], b);
      ConcatAssoc(ThoughtIn(a[0]), ThoughtsOf(a[1..]), ThoughtsOf(b));
    }
  }

  lemma {:induction false} ShownAppend(a: seq<Atom>, b: seq<Atom>)
    ensures ShownOf(a + b) == ShownOf(a) + ShownOf(b)
  {
    if a == [] {
      assert a + b == b;
    } else {
      assert (a + b)[0] == a[0] && (a + b)[1..] == a[1..] + b;
      ShownAppend(a[1..], b);
      ConcatAssoc(ShownIn(a[0]), ShownOf(a[1..]), ShownOf(b));
    }
  }

  lemma {:induction false} CallsAppend(a: seq<Atom>, b: seq<Atom>)
    ensures CallsOf(a + b) == CallsOf(a) + CallsOf(b)
  {
    if a == [] {
      assert a + b == b;
    } else {
      assert (a + b)[0] == a[0] && (a + b)[1..] == a[1..] + b;
      CallsAppend(a[1..], b);
      ConcatAssoc(CallIn(a[0]), CallsOf(a[1..]), CallsOf(b));
    }
  }

  lemma {:induction false} TextProjections(t: string)
    ensures ThoughtsOf(ShownAtoms(t)) == "" && ShownOf(ShownAtoms(t)) == t && CallsOf(ShownAtoms(t)) == []
    ensures ThoughtsOf(ThoughtAtoms(t)) == t && ShownOf(ThoughtAtoms(t)) == "" && CallsOf(ThoughtAtoms(t)) == []
  {
    if t != "" {
      assert ShownAtoms(t)[1..] == ShownAtoms(t[1..]);
      assert ThoughtAtoms(t)[1..] == ThoughtAtoms(t[1..]);
      TextProjections(t[1..]);
    }
  }

  /** Reading text and calls off the events is reading them off the atoms. */
  lemma {:induction false} EventsProject(events: seq<StreamEvent>)
    ensures ShownText(events) == ShownOf(Atoms(events))
    ensures CallsIn(events) == CallsOf(Atoms(events))
  {
    if events != [] {
      EventsProject(events[1..]);
      ShownAppend(AtomsOf(events[0]), Atoms(events[1..]));
      CallsAppend(AtomsOf(events[0]), Atoms(events[1..]));
      match events[0] {
        case Reasoning(t) => TextProjections(t);
        case TextDelta(t) => TextProjections(t);
        case ToolCall(call) => assert CallsOf([Called(call)]) == [call];
      }
    }
  }

  // ------------------------------------------------------------------------
  // The last drain is the batch parser's loop

  /** The drain `r` found what the batch parser's split `b` found, after `plain`
      and `calls`. */
  ghost predicate SameSplit(r: DrainResult, plain: string, calls: seq<GeneratedToolCall>,
                            b: Result<(string, seq<GeneratedToolCall>), ProtocolError>)
  {
    match b
    case Failure(InvalidToolCall) => r.Rejected?
    case Failure(UnterminatedToolCall) => r.Drained? && r.state.inToolCall && !r.state.stopped
    case Success((text, found)) =>
      && r.Drained? && !r.state.inToolCall && !r.state.stopped
      && r.state.toolCallCount == |found|
      && text == plain + ShownOf(Atoms(r.events))
      && found == calls + CallsOf(Atoms(r.events))
  }

  lemma WinnerWithoutStops(t: string)
    ensures WinnerIn(t, []) == match Find(t, TOOL_CALL_START) case None => NoMatch case Some(at) => ToolAt(at)
  {
  }

  lemma {:induction false} TextDrainSplits(parse: ToolParser, s: DecoderState, plain: string,
                                           calls: seq<GeneratedToolCall>)
    requires !s.stopped && !s.thinking && !s.inToolCall && !s.trimming && |calls| == s.toolCallCount
    ensures SameSplit(Drain(parse, [], s, true), plain, calls, SplitToolCalls(parse, s.pending, plain, calls))
    decreases |s.pending|
  {
    hide Drain, Find, Trim, ShownOf, CallsOf, Atoms;
    var t := s.pending;
    match Find(t, TOOL_CALL_START) {
      case None =>
        LastTextDrain(parse, s);
        NothingMore(parse, s, plain, calls);
      case Some(start) =>
        OpenerDrain(parse, s);
        var rest := t[start + |TOOL_CALL_START|..];
        var open := s.(pending := "", toolBuffer := rest, inToolCall := true);
        BlockDrain(parse, open);
        if Find(rest, TOOL_CALL_END).Some? && ToolTurn(parse, open).Again? {
          var closed := ToolTurn(parse, open).state;
          var call := ToolTurn(parse, open).events[0].call;
          TextDrainSplits(parse, closed, plain + t[..start], calls + [call]);
          SplitExtends(t[..start], call, Drain(parse, [], closed, true), plain, calls,
                       SplitToolCalls(parse, closed.pending, plain + t[..start], calls + [call]));
        }
    }
  }

  lemma NothingMore(parse: ToolParser, s: DecoderState, plain: string, calls: seq<GeneratedToolCall>)
    requires !s.stopped && !s.inToolCall && |calls| == s.toolCallCount
    requires Find(s.pending, TOOL_CALL_START).None?
    requires ShownOf(Atoms(TextEvents(s.pending))) == s.pending && CallsOf(Atoms(TextEvents(s.pending))) == []
    ensures SameSplit(Drained(s.(pending := ""), TextEvents(s.pending)), plain, calls,
                      SplitToolCalls(parse, s.pending, plain, calls))
  {
    hide ShownOf, CallsOf, Atoms, Find, TextEvents;
    assert calls + [] == calls;
  }

  lemma LastTextDrain(parse: ToolParser, s: DecoderState)
    requires !s.stopped && !s.thinking && !s.inToolCall && !s.trimming && Find(s.pending, TOOL_CALL_START).None?
    ensures Drain(parse, [], s, true) == Drained(s.(pending := ""), TextEvents(s.pending))
    ensures ShownOf(Atoms(TextEvents(s.pending))) == s.pending && CallsOf(Atoms(TextEvents(s.pending))) == []
  {
    WinnerWithoutStops(s.pending);
    assert s.pending[..|s.pending|] == s.pending;
    TextAtoms(s.pending);
    TextProjections(s.pending);
  }

  lemma OpenerDrain(parse: ToolParser, s: DecoderState)
    requires !s.stopped && !s.thinking && !s.inToolCall && !s.trimming && Find(s.pending, TOOL_CALL_START).Some?
    ensures var start := Find(s.pending, TOOL_CALL_START).value;
      var open := s.(pending := "", toolBuffer := s.pending[start + |TOOL_CALL_START|..], inToolCall := true);
      Drain(parse, [], s, true) == After(TextEvents(s.pending[..start]), Drain(parse, [], open, true))
  {
    WinnerWithoutStops(s.pending);
  }

  /** An open block drains as the batch parser reads it. */
  lemma BlockDrain(parse: ToolParser, open: DecoderState)
    requires !open.stopped && !open.thinking && open.inToolCall && open.pending == ""
    ensures var d, end := Drain(parse, [], open, true), Find(open.toolBuffer, TOOL_CALL_END);
      if end.None? then d == Drained(open, [])
      else
        var call := parse(Trim(open.toolBuffer[..end.value]), open.toolCallCount);
        if call.None? then d.Rejected? && ToolTurn(parse, open).Reject?
        else
          var closed := open.(pending := open.toolBuffer[end.value + |TOOL_CALL_END|..], toolBuffer := "",
                              inToolCall := false, toolCallCount := open.toolCallCount + 1);
          ToolTurn(parse, open) == Again(closed, [ToolCall(call.value)])
          && d == After([ToolCall(call.value)], Drain(parse, [], closed, true))
  {
    assert open.toolBuffer + "" == open.toolBuffer;
  }

  lemma SplitExtends(shown: string, call: GeneratedToolCall, r: DrainResult, plain: string,
                     calls: seq<GeneratedToolCall>, b: Result<(string, seq<GeneratedToolCall>), ProtocolError>)
    requires SameSplit(r, plain + shown, calls + [call], b)
    ensures SameSplit(After(TextEvents(shown), After([ToolCall(call)], r)), plain, calls, b)
  {
    if b.Success? {
      var atoms := Atoms(r.events);
      BlockAtoms(shown, call, r.events);
      BlockShown(shown, call, atoms);
      BlockCalls(shown, call, atoms);
      ConcatAssoc(plain, shown, ShownOf(atoms));
      ConcatAssoc(calls, [call], CallsOf(atoms));
    }
  }

  lemma BlockAtoms(shown: string, call: GeneratedToolCall, events: seq<StreamEvent>)
    ensures Atoms(TextEvents(shown) + ([ToolCall(call)] + events))
         == ShownAtoms(shown) + ([Called(call)] + Atoms(events))
  {
    AtomsAppend(TextEvents(shown), [ToolCall(call)] + events);
    AtomsAppend([ToolCall(call)], events);
    TextAtoms(shown);
    assert Atoms([ToolCall(call)]) == [Called(call)];
  }

  lemma BlockShown(shown: string, call: GeneratedToolCall, atoms: seq<Atom>)
    ensures ShownOf(ShownAtoms(shown) + ([Called(call)] + atoms)) == shown + ShownOf(atoms)
  {
    TextProjections(shown);
    ShownAppend(ShownAtoms(shown), [Called(call)] + atoms);
    assert ([Called(call)] + atoms)[1..] == atoms;
    assert "" + ShownOf(atoms) == ShownOf(atoms);
  }

  lemma BlockCalls(shown: string, call: GeneratedToolCall, atoms: seq<Atom>)
    ensures CallsOf(ShownAtoms(shown) + ([Called(call)] + atoms)) == [call] + CallsOf(atoms)
  {
    CallsAppend(ShownAtoms(shown), [Called(call)] + atoms);
    CallsAppend([Called(call)], atoms);
    TextProjections(shown);
    assert CallsOf([Called(call)]) == [call];
  }

  // ------------------------------------------------------------------------
  // Whole generations

  function ReasoningOf(text: string): string {
    match Find(text, THINK_END)
    case Some(at) => text[..at]
    case None => text
  }

  lemma NoStopsNoConflict()
    ensures !Conflict([])
  {
    assert forall w :: w in Watched([]) ==> |w| == |TOOL_CALL_START|;
  }

  /** The last drain of a continuation reasons up to `</think>`, then trims and splits. */
  lemma ContinuationDrain(parse: ToolParser, text: string)
    requires Find(text, THINK_END).Some?
    ensures var s := DecoderState(false, VisibleAfterThinking(text), false, "", 0, false,
                                   VisibleAfterThinking(text) == "");
      Drain(parse, [], Start(true).Append(text), true)
      == After(ReasoningEvents(ReasoningOf(text)),
               match TextTurn([], s, true)
               case Again(s', events) => After(events, Drain(parse, [], s', true))
               case Halt(s', events) => Drained(s', events)
               case Reject(s') => Rejected(s'))
  {
    hide Find, TrimLeadingNewlines, WinnerIn, ToolTurn, TextTurn;
    assert Start(true).Append(text).pending == text;
    var at := Find(text, THINK_END).value;
    var rest := text[at + |THINK_END|..];
    var s1 := DecoderState(false, rest, false, "", 0, false, true);
    TurnShrinks(parse, [], Start(true).Append(text), true);
    assert Drain(parse, [], Start(true).Append(text), true)
      == After(ReasoningEvents(text[..at]), Drain(parse, [], s1, true));
  }

  /** `trimming` no longer matters once nothing is left to trim. */
  lemma TrimmedDrain(parse: ToolParser, text: string)
    requires Find(text, THINK_END).Some?
    ensures var visible := VisibleAfterThinking(text);
      var s := DecoderState(false, visible, false, "", 0, false, false);
      var r := Drain(parse, [], Start(true).Append(text), true);
      var d := After(ReasoningEvents(ReasoningOf(text)), Drain(parse, [], s, true));
      if visible == "" then r.Drained? && d.Drained? && r.events == d.events && r.state == d.state.(trimming := true)
      else r == d
  {
    ContinuationDrain(parse, text);
    var visible := VisibleAfterThinking(text);
    var s := DecoderState(false, visible, false, "", 0, false, false);
    if visible == "" {
      WinnerWithoutStops("");
      FindIs("", TOOL_CALL_START);
    }
    assert TurnOf(parse, [], s, true) == TextTurn([], s, true);
  }

  /** The run of a streamed continuation, in the batch parser's words. */
  ghost predicate AgreesWithBatch(run: RunOutcome, text: string, batch: Result<GeneratedOutput, ProtocolError>) {
    match batch
    case Failure(InvalidToolCall) => run == Failed
    case Failure(UnterminatedToolCall) =>
      run != Failed && run.finish == Length && !run.stopped && ThoughtsOf(run.atoms) == ReasoningOf(text)
    case Success(output) =>
      && run != Failed && !run.stopped
      && ThoughtsOf(run.atoms) == ReasoningOf(text)
      && ShownOf(run.atoms) == output.text
      && CallsOf(run.atoms) == output.toolCalls
      && run.finish == (if output.finishReason == FinishToolCalls then ToolCalls else Stop)
  }

  /** Main result: however a continuation is cut into chunks, with no stop
      sequences the stream shows the batch parser's text and calls in order and
      ends for the same reason; it fails exactly when a complete block does not
      parse, and reports `Length` exactly where the batch parser finds an
      unterminated block. */
  lemma StreamMatchesBatch(parse: ToolParser, chunks: seq<string>)
    ensures AgreesWithBatch(Run(parse, [], true, chunks), Flatten(chunks), QwenContinuation(parse, Flatten(chunks)))
  {
    var text := Flatten(chunks);
    NoStopsNoConflict();
    RunIsOneShot(parse, [], true, chunks);
    if Find(text, THINK_END).None? {
      OnlyReasoning(parse, text);
    } else {
      var visible := VisibleAfterThinking(text);
      var s := DecoderState(false, visible, false, "", 0, false, false);
      TextDrainSplits(parse, s, "", []);
      TrimmedDrain(parse, text);
      TextThoughts(parse, s);
      var d := Drain(parse, [], s, true);
      if d.Drained? {
        AfterReasoning(ReasoningOf(text), d.events);
      }
    }
  }

  lemma OnlyReasoning(parse: ToolParser, text: string)
    requires Find(text, THINK_END).None?
    ensures OneShot(parse, [], true, text) == Completed(ThoughtAtoms(text), Stop, false)
    ensures QwenContinuation(parse, text) == Success(GeneratedOutput("", [], FinishStop))
    ensures ThoughtsOf(ThoughtAtoms(text)) == text && ShownOf(ThoughtAtoms(text)) == ""
      && CallsOf(ThoughtAtoms(text)) == []
  {
    assert Start(true).Append(text).pending == text;
    assert text[..|text|] == text;
    ReasoningAtoms(text);
    TextProjections(text);
    FindIs("", THINK_END);
    FindIs("", TOOL_CALL_START);
  }

  /** Reasoning first, then what the rest of the drain shows. */
  lemma AfterReasoning(reasoning: string, events: seq<StreamEvent>)
    requires ThoughtsOf(Atoms(events)) == ""
    ensures var atoms := Atoms(ReasoningEvents(reasoning) + events);
      && ThoughtsOf(atoms) == reasoning
      && ShownOf(atoms) == ShownOf(Atoms(events))
      && CallsOf(atoms) == CallsOf(Atoms(events))
  {
    var atoms := Atoms(events);
    AtomsAppend(ReasoningEvents(reasoning), events);
    ReasoningAtoms(reasoning);
    TextProjections(reasoning);
    ThoughtsAppend(ThoughtAtoms(reasoning), atoms);
    ShownAppend(ThoughtAtoms(reasoning), atoms);
    CallsAppend(ThoughtAtoms(reasoning), atoms);
    assert "" + ShownOf(atoms) == ShownOf(atoms) && [] + CallsOf(atoms) == CallsOf(atoms);
    assert reasoning + "" == reasoning;
  }

  /** After `</think>` nothing is reported as reasoning. */
  lemma {:induction false} TextThoughts(parse: ToolParser, s: DecoderState)
    requires !s.thinking
    ensures var d := Drain(parse, [], s, true);
      d.Drained? ==> ThoughtsOf(Atoms(d.events)) == ""
    decreases |s.pending| + |s.toolBuffer|
  {
    var turn := TurnOf(parse, [], s, true);
    if !turn.Reject? {
      TurnShowsNoThoughts(parse, s);
      if turn.Again? {
        TurnShrinks(parse, [], s, true);
        TextThoughts(parse, turn.state);
        var d := Drain(parse, [], turn.state, true);
        if d.Drained? {
          AtomsAppend(turn.events, d.events);
          ThoughtsAppend(Atoms(turn.events), Atoms(d.events));
        }
      }
    }
  }

  lemma TurnShowsNoThoughts(parse: ToolParser, s: DecoderState)
    requires !s.thinking && !TurnOf(parse, [], s, true).Reject?
    ensures var turn := TurnOf(parse, [], s, true);
      ThoughtsOf(Atoms(turn.events)) == "" && !turn.state.thinking
  {
    forall t ensures ThoughtsOf(Atoms(TextEvents(t))) == "" {
      TextAtoms(t);
      TextProjections(t);
    }
    forall call ensures ThoughtsOf(Atoms([ToolCall(call)])) == "" {
      assert Atoms([ToolCall(call)]) == [Called(call)];
    }
  }

  lemma BatchFinish(parse: ToolParser, text: string)
    ensures var batch := QwenContinuation(parse, text);
      batch.Success? ==> batch.value.finishReason == if batch.value.toolCalls == [] then FinishStop else FinishToolCalls
  {
  }
}
