/** The decode loop of a generation: sampled tokens become text, text becomes
    events, and events are collected and sent to a client who may hang up. */
module DecodeLoop {
  import opened Wrappers
  import opened Text
  import opened StreamDecoder
  import opened ChunkIndependence
  import opened Generation
  import opened StreamAgreement

  /** What the model samples next: the end of stream, or a token and the text
      that became decodable with it, if any. */
  datatype Sampled = EndOfStream | Token(text: Option<string>)

  function TextOf(text: Option<string>): string {
    if text.Some? then text.value else ""
  }

  // ------------------------------------------------------------------------
  // Sending to a client: `None` when nobody listens, otherwise the number of
  // sends that still succeed

  predicate HangsUp(events: seq<StreamEvent>, client: Option<nat>) {
    client.Some? && client.value < |events|
  }

  /** An event is collected before it is sent, so the one whose send fails is kept. */
  function Kept(events: seq<StreamEvent>, client: Option<nat>): (n: nat)
    ensures n <= |events|
  {
    if HangsUp(events, client) then client.value + 1 else |events|
  }

  function Patience(events: seq<StreamEvent>, client: Option<nat>): Option<nat> {
    if client.None? then None else Some(SaturatingSub(client.value, |events|))
  }

  /** Collects and sends events one by one, up to the first send that fails. */
  method Deliver(events: seq<StreamEvent>, client: Option<nat>)
      returns (collected: seq<StreamEvent>, left: Option<nat>, gone: bool)
    ensures collected == events[..Kept(events, client)]
    ensures left == Patience(events, client) && gone == HangsUp(events, client)
    ensures !gone ==> collected == events
  {
    collected, left, gone := [], client, false;
    for i := 0 to |events|
      invariant collected == events[..i]
      invariant left.None? <==> client.None?
      invariant left.Some? ==> left.value + i == client.value
    {
      collected := collected + [events[i]];
      if left.Some? {
        if left.value == 0 {
          return collected, left, true;
        }
        left := Some(left.value - 1);
      }
    }
  }

  // ------------------------------------------------------------------------
  // The loop as a function

  /** What the loop leaves behind: the texts pushed, and unless a push failed the
      decoder's state, the events collected, those of the last push that were
      dropped, and the client. */
  datatype LoopEnd =
    | Broken(pushed: seq<string>)
    | Ended(pushed: seq<string>, state: DecoderState, collected: seq<StreamEvent>, dropped: seq<StreamEvent>,
            client: Option<nat>, reachedEos: bool, clientGone: bool)

  function Continued(pushed: seq<string>, collected: seq<StreamEvent>, rest: LoopEnd): LoopEnd {
    match rest
    case Broken(more) => Broken(pushed + more)
    case Ended(more, _, events, _, _, _, _) => rest.(pushed := pushed + more, collected := collected + events)
  }

  /** One turn per sampled token, as many as the token budget allows. */
  function Loop(parse: ToolParser, stops: seq<string>, s: DecoderState, sampled: seq<Sampled>, client: Option<nat>)
      : LoopEnd
    decreases |sampled|
  {
    if sampled == [] then Ended([], s, [], [], client, false, false)
    else
      match sampled[0]
      case EndOfStream => Ended([], s, [], [], client, true, false)
      case Token(text) =>
        match Push(parse, stops, s, TextOf(text))
        case Rejected(_) => Broken([TextOf(text)])
        case Drained(s', events) =>
          if HangsUp(events, client) || s'.stopped then
            var kept := Kept(events, client);
            Ended([TextOf(text)], s', events[..kept], events[kept..], Patience(events, client), false,
                  HangsUp(events, client))
          else
            Continued([TextOf(text)], events, Loop(parse, stops, s', sampled[1..], Patience(events, client)))
  }

  /** The flush goes to the client too, even to one who has left. */
  function Concluded(parse: ToolParser, stops: seq<string>, end: LoopEnd): Result<DecodeRun, ()> {
    match end
    case Broken(_) => Failure(())
    case Ended(_, s, collected, _, client, reachedEos, clientGone) =>
      match Flush(parse, stops, s)
      case Rejected(_) => Failure(())
      case Drained(s', tail) =>
        Success(DecodeRun(collected + tail[..Kept(tail, client)], FinishOf(s'), reachedEos, s'.stopped,
                          clientGone || HangsUp(tail, client)))
  }

  /** The loop of a request whose prompt has already opened `<think>`. */
  function WholeLoop(parse: ToolParser, stops: seq<string>, sampled: seq<Sampled>, client: Option<nat>): LoopEnd {
    Loop(parse, KeepNonEmpty(stops), Start(true), sampled, client)
  }

  function Decoded(parse: ToolParser, stops: seq<string>, sampled: seq<Sampled>, client: Option<nat>)
      : Result<DecodeRun, ()>
  {
    Concluded(parse, KeepNonEmpty(stops), WholeLoop(parse, stops, sampled, client))
  }

  /** Events the decoder emitted that are in no output: those after a failed
      send, of the last push and of the flush. */
  function Lost(parse: ToolParser, stops: seq<string>, end: LoopEnd): seq<StreamEvent> {
    if end.Broken? then []
    else
      match Flush(parse, KeepNonEmpty(stops), end.state)
      case Rejected(_) => end.dropped
      case Drained(_, tail) => end.dropped + tail[Kept(tail, end.client)..]
  }

  /** What a loop that was not broken off by a protocol error returns. */
  datatype LoopRun = LoopRun(collected: seq<StreamEvent>, client: Option<nat>, reachedEos: bool, clientGone: bool)

  ghost predicate RunsTo(r: Result<LoopRun, ()>, s: DecoderState, end: LoopEnd) {
    match end
    case Broken(_) => r.Failure?
    case Ended(_, state, collected, _, client, reachedEos, clientGone) =>
      r == Success(LoopRun(collected, client, reachedEos, clientGone)) && s == state
  }

  /** The loop over the sampled tokens, on the decoder object. */
  method DecodeTokens(decoder: IncrementalOutputDecoder, sampled: seq<Sampled>, client: Option<nat>)
      returns (r: Result<LoopRun, ()>)
    modifies decoder
    ensures RunsTo(r, decoder.State(),
                   Loop(decoder.parse, decoder.stopSequences, old(decoder.State()), sampled, client))
  {
    hide Push, Kept, HangsUp, Patience;
    var collected: seq<StreamEvent> := [];
    var left := client;
    ghost var parse, stops, pushed := decoder.parse, decoder.stopSequences, [];
    ghost var goal := Loop(parse, stops, decoder.State(), sampled, client);
    for i := 0 to |sampled|
      invariant goal == Continued(pushed, collected, Loop(parse, stops, decoder.State(), sampled[i..], left))
    {
      assert sampled[i..][0] == sampled[i] && sampled[i..][1..] == sampled[i + 1..];
      if sampled[i].EndOfStream? {
        assert collected + [] == collected;
        return Success(LoopRun(collected, left, true, false));
      }
      var emitted := PushToken(decoder, sampled[i].text);
      if emitted.Failure? {
        return Failure(());
      }
      var events := emitted.value;
      ghost var rest := Loop(parse, stops, decoder.State(), sampled[i + 1..], Patience(events, left));
      ContinuedTwice(pushed, collected, [TextOf(sampled[i].text)], events, rest);
      var delivered, after, gone := Deliver(events, left);
      collected, left, pushed := collected + delivered, after, pushed + [TextOf(sampled[i].text)];
      if gone || decoder.stopped {
        return Success(LoopRun(collected, left, false, gone));
      }
    }
    assert collected + [] == collected;
    return Success(LoopRun(collected, left, false, false));
  }

  /** A token whose text is not decodable yet is not pushed. */
  method PushToken(decoder: IncrementalOutputDecoder, text: Option<string>) returns (r: Result<seq<StreamEvent>, ()>)
    modifies decoder
    ensures decoder.Agrees(r, Push(decoder.parse, decoder.stopSequences, old(decoder.State()), TextOf(text)))
  {
    r := Success([]);
    if text.Some? {
      r := decoder.PushText(text.value);
    }
  }

  method Decode(parse: ToolParser, stops: seq<string>, sampled: seq<Sampled>, client: Option<nat>)
      returns (r: Result<DecodeRun, ()>)
    ensures r == Decoded(parse, stops, sampled, client)
  {
    hide Loop, Flush, KeepNonEmpty, Kept, HangsUp, Patience;
    var decoder := new IncrementalOutputDecoder(parse, stops, true);
    var tokens := DecodeTokens(decoder, sampled, client);
    if tokens.Failure? {
      return Failure(());
    }
    var LoopRun(collected, left, reachedEos, clientGone) := tokens.value;
    var last := decoder.Finish();
    if last.Failure? {
      return Failure(());
    }
    var delivered, _, gone := Deliver(last.value.0, left);
    return Success(DecodeRun(collected + delivered, last.value.1, reachedEos, decoder.stopped, clientGone || gone));
  }



  lemma ContinuedTwice(pushed: seq<string>, collected: seq<StreamEvent>, pushed': seq<string>,
                       collected': seq<StreamEvent>, rest: LoopEnd)
    ensures Continued(pushed, collected, Continued(pushed', collected', rest))
         == Continued(pushed + pushed', collected + collected', rest)
  {
    assert pushed + (pushed' + rest.pushed) == (pushed + pushed') + rest.pushed;
    if rest.Ended? {
      assert collected + (collected' + rest.collected) == (collected + collected') + rest.collected;
    }
  }

  // ------------------------------------------------------------------------
  // What the loop reads and what it delivers

  /** The texts of the tokens before the end of stream. */
  function TextsBeforeEnd(sampled: seq<Sampled>): seq<string> {
    if sampled == [] || sampled[0].EndOfStream? then [] else [TextOf(sampled[0].text)] + TextsBeforeEnd(sampled[1..])
  }

  /** Nothing but a protocol error, a stop sequence or the client cuts the loop
      short of the end of stream or of the token budget. */
  lemma {:induction false} LoopReads(parse: ToolParser, stops: seq<string>, s: DecoderState, sampled: seq<Sampled>,
      client: Option<nat>)
    requires !s.stopped
    ensures var end := Loop(parse, stops, s, sampled, client);
      && end.pushed <= TextsBeforeEnd(sampled)
      && (end.Ended? && !end.state.stopped && !end.clientGone ==>
            end.pushed == TextsBeforeEnd(sampled) && (end.reachedEos <==> EndOfStream in sampled))
      && (end.Ended? && end.reachedEos ==> !end.state.stopped && !end.clientGone)
    decreases |sampled|
  {
    hide Push, Kept, HangsUp, Patience;
    if sampled != [] && sampled[0].Token? {
      var turn := Push(parse, stops, s, TextOf(sampled[0].text));
      assert sampled == [sampled[0]] + sampled[1..];
      if turn.Drained? && !turn.state.stopped && !HangsUp(turn.events, client) {
        LoopReads(parse, stops, turn.state, sampled[1..], Patience(turn.events, client));
      }
    }
  }

  /** What was pushed went through the decoder, and came out collected or dropped. */
  lemma {:induction false} LoopPushesAll(parse: ToolParser, stops: seq<string>, s: DecoderState, sampled: seq<Sampled>,
      client: Option<nat>)
    ensures var end := Loop(parse, stops, s, sampled, client);
      var all := PushAll(parse, stops, s, end.pushed);
      if end.Broken? then all.Rejected? else all == Drained(end.state, end.collected + end.dropped)
    decreases |sampled|
  {
    hide Push, Kept, HangsUp, Patience;
    if sampled != [] && sampled[0].Token? {
      var text := TextOf(sampled[0].text);
      var turn := Push(parse, stops, s, text);
      if turn.Rejected? {
      } else if turn.state.stopped || HangsUp(turn.events, client) {
        assert turn.events[..Kept(turn.events, client)] + turn.events[Kept(turn.events, client)..] == turn.events + [];
      } else {
        var rest := Loop(parse, stops, turn.state, sampled[1..], Patience(turn.events, client));
        LoopPushesAll(parse, stops, turn.state, sampled[1..], Patience(turn.events, client));
        assert ([text] + rest.pushed)[1..] == rest.pushed;
        if rest.Ended? {
          assert turn.events + (rest.collected + rest.dropped) == (turn.events + rest.collected) + rest.dropped;
        }
      }
    }
  }

  /** A client who stays gets everything; one who leaves got as many events as
      sends succeeded, and one more is collected. */
  lemma {:induction false} LoopDelivers(parse: ToolParser, stops: seq<string>, s: DecoderState, sampled: seq<Sampled>,
      client: Option<nat>)
    ensures var end := Loop(parse, stops, s, sampled, client);
      end.Ended? ==>
        if end.clientGone then client.Some? && |end.collected| == client.value + 1 && end.client == Some(0)
        else end.dropped == [] && !HangsUp(end.collected, client) && end.client == Patience(end.collected, client)
    decreases |sampled|
  {
    hide Push;
    if sampled != [] && sampled[0].Token? {
      var turn := Push(parse, stops, s, TextOf(sampled[0].text));
      if turn.Drained? && !turn.state.stopped && !HangsUp(turn.events, client) {
        LoopDelivers(parse, stops, turn.state, sampled[1..], Patience(turn.events, client));
      }
    }
  }

  // ------------------------------------------------------------------------
  // The output against the batch parser's

  lemma ShownConcat(a: seq<StreamEvent>, b: seq<StreamEvent>)
    ensures ShownText(a + b) == ShownText(a) + ShownText(b) && CallsIn(a + b) == CallsIn(a) + CallsIn(b)
  {
    AtomsAppend(a, b);
    EventsProject(a);
    EventsProject(b);
    EventsProject(a + b);
    ShownAppend(Atoms(a), Atoms(b));
    CallsAppend(Atoms(a), Atoms(b));
  }

  lemma Interleaved<T>(a: seq<T>, b: seq<T>, c: seq<T>, d: seq<T>)
    ensures (a + b) + (c + d) == a + c <==> b + d == []
  {
    if b + d == [] {
      assert |b| == 0 && |d| == 0;
      assert a + b == a && c + d == c;
    } else {
      assert |(a + b) + (c + d)| == |a + c| + |b + d|;
    }
  }

  /** No shown text and no tool call among `events`. */
  predicate SaysNothing(events: seq<StreamEvent>) {
    ShownText(events) == "" && CallsIn(events) == []
  }

  /** Leaving `b` and `d` out of the events changes what they say unless those say nothing. */
  lemma DroppingIsHeard(a: seq<StreamEvent>, b: seq<StreamEvent>, c: seq<StreamEvent>, d: seq<StreamEvent>)
    ensures ShownText((a + b) + (c + d)) == ShownText(a + c) && CallsIn((a + b) + (c + d)) == CallsIn(a + c)
       <==> SaysNothing(b + d)
  {
    hide ShownText, CallsIn;
    ShownConcat(a + b, c + d);
    ShownConcat(a, b);
    ShownConcat(c, d);
    ShownConcat(a, c);
    ShownConcat(b, d);
    Interleaved(ShownText(a), ShownText(b), ShownText(c), ShownText(d));
    Interleaved(CallsIn(a), CallsIn(b), CallsIn(c), CallsIn(d));
  }

  function OutputOf(run: DecodeRun): GeneratedOutput {
    GeneratedOutput(ShownText(run.events), CallsIn(run.events), ReasonOf(run))
  }

  /** The run was not cut off: it ended with a tool call, at the end of stream,
      or because the client left. */
  predicate EndedOfItself(run: DecodeRun) {
    run.finish == ToolCalls || (run.finish == Stop && (run.reachedEos || run.clientGone))
  }

  /** What the loop's caller gets back, against the batch parser's answer for the text pushed. */
  ghost predicate ComparesWithBatch(r: Result<DecodeRun, ()>, lost: seq<StreamEvent>,
                                    batch: Result<GeneratedOutput, ProtocolError>)
  {
    match r
    case Failure(_) => batch == Failure(InvalidToolCall)
    case Success(run) =>
      && (batch == Success(OutputOf(run)) <==> EndedOfItself(run) && SaysNothing(lost))
      && (run.finish == Length <==> batch == Failure(UnterminatedToolCall))
      && (run.finish != Length && !EndedOfItself(run) ==>
            batch == Success(OutputOf(run).(finishReason := FinishStop)) && ReasonOf(run) == FinishLength)
      && (!run.clientGone ==> lost == [])
      && batch != Failure(InvalidToolCall)
  }

  /** Main result: however the tokens' texts cut the answer and whenever the
      client leaves, what comes back is the batch parser's output for the text
      that was pushed if and only if the run was not cut off and no shown text or
      tool call came after a failed send. */
  lemma StreamedOutputMatchesBatch(parse: ToolParser, sampled: seq<Sampled>, client: Option<nat>)
    ensures var end := WholeLoop(parse, [], sampled, client);
      ComparesWithBatch(Decoded(parse, [], sampled, client), Lost(parse, [], end),
                        QwenContinuation(parse, Flatten(end.pushed)))
  {
    hide Loop, PushAll, Flush, Flatten, QwenContinuation, ShownText, CallsIn, Atoms, ShownOf, CallsOf, ThoughtsOf;
    var end := WholeLoop(parse, [], sampled, client);
    var text := Flatten(end.pushed);
    LoopPushesAll(parse, [], Start(true), sampled, client);
    LoopDelivers(parse, [], Start(true), sampled, client);
    StreamMatchesBatch(parse, end.pushed);
    BatchFinish(parse, text);
    if end.Ended? && Flush(parse, [], end.state).Drained? {
      var tail := Flush(parse, [], end.state).events;
      var kept := Kept(tail, end.client);
      assert tail[..kept] + tail[kept..] == tail;
      EventsProject((end.collected + end.dropped) + tail);
      DroppingIsHeard(end.collected, end.dropped, tail[..kept], tail[kept..]);
      NoEvents();
      assert Lost(parse, [], end) == end.dropped + tail[kept..];
      assert !end.clientGone && !HangsUp(tail, end.client) ==> end.dropped + tail[kept..] == [];
    }
  }

  /** The client has left exactly when more events were emitted than sends
      succeed, and at most two more are collected: the one whose send failed, and
      the first of the flush. */
  lemma GoneWhenSendsRunOut(parse: ToolParser, stops: seq<string>, sampled: seq<Sampled>, client: Option<nat>)
    ensures var r := Decoded(parse, stops, sampled, client);
      var lost := Lost(parse, stops, WholeLoop(parse, stops, sampled, client));
      r.Success? ==>
        && (r.value.clientGone <==> client.Some? && client.value < |r.value.events| + |lost|)
        && (r.value.clientGone ==> client.value < |r.value.events| <= client.value + 2)
  {
    hide Loop, Flush, KeepNonEmpty;
    LoopDelivers(parse, KeepNonEmpty(stops), Start(true), sampled, client);
    var end := WholeLoop(parse, stops, sampled, client);
    if end.Ended? {
      match Flush(parse, KeepNonEmpty(stops), end.state) {
        case Rejected(_) =>
        case Drained(_, tail) =>
          var kept := Kept(tail, end.client);
          assert Lost(parse, stops, end) == end.dropped + tail[kept..];
      }
    }
  }

  // ------------------------------------------------------------------------
  // A client who leaves in the middle of a push

  const LAST_WORDS := "A</think>B"

  const SAID := DecoderState(false, "", false, "", 0, false, false)

  lemma LastWordsFound()
    ensures Find(LAST_WORDS, THINK_END) == Some(1)
    ensures LAST_WORDS[..1] == "A" && LAST_WORDS[1 + |THINK_END|..] == "B"
    ensures Find("B", TOOL_CALL_START) == None && Hold("B", Watched([])) == 0
  {
    hide Find, Hold;
    assert OccursAt(LAST_WORDS, THINK_END, 1);
    assert !OccursAt(LAST_WORDS, THINK_END, 0) by {
      assert LAST_WORDS[..|THINK_END|][0] == 'A';
    }
    FindUnique(LAST_WORDS, THINK_END, Some(1));
    FindIs("B", TOOL_CALL_START);
    NothingHeld();
  }

  lemma NothingHeld()
    ensures Hold("B", Watched([])) == 0
  {
    hide Hold;
    assert !Growable("B", Watched([])) by {
      assert Watched([]) == [TOOL_CALL_START] && TOOL_CALL_START[..1][0] == '<';
    }
    assert "B"[0..] == "B";
    HoldUnique("B", Watched([]), 0);
  }

  lemma LastWordsPushed(parse: ToolParser)
    ensures Push(parse, [], Start(true), LAST_WORDS) == Drained(SAID, [Reasoning("A"), TextDelta("B")])
  {
    hide Find, Hold;
    LastWordsFound();
    var s := Start(true).Append(LAST_WORDS);
    assert s.pending == LAST_WORDS;
    var thought := DecoderState(false, "B", false, "", 0, false, true);
    assert TurnOf(parse, [], s, false) == Again(thought, [Reasoning("A")]);
    assert TrimLeadingNewlines("B") == "B";
    WinnerWithoutStops("B");
    assert "B"[..1] == "B" && "B"[1..] == "";
    assert TurnOf(parse, [], thought, false) == Halt(SAID, [TextDelta("B")]);
    assert Drain(parse, [], s, false) == After([Reasoning("A")], Drain(parse, [], thought, false));
  }

  lemma NothingToFlush(parse: ToolParser)
    ensures Flush(parse, [], SAID) == Drained(SAID, [])
  {
    FindIs("", TOOL_CALL_START);
    WinnerWithoutStops("");
  }

  lemma LastWordsWhole(parse: ToolParser)
    ensures QwenContinuation(parse, LAST_WORDS) == Success(GeneratedOutput("B", [], FinishStop))
  {
    hide Find;
    LastWordsFound();
    assert TrimLeadingNewlines("B") == "B";
    assert VisibleAfterThinking(LAST_WORDS) == "B";
    assert "" + "B" == "B";
    assert SplitToolCalls(parse, "B", "", []) == Success(("B", []));
  }

  /** The first send fails: the reasoning is collected, and the answer after it is not. */
  lemma HangUpLosesText(parse: ToolParser)
    ensures var sampled, client := [Token(Some(LAST_WORDS))], Some(0);
      && Decoded(parse, [], sampled, client) == Success(DecodeRun([Reasoning("A")], Stop, false, false, true))
      && Lost(parse, [], WholeLoop(parse, [], sampled, client)) == [TextDelta("B")]
      && QwenContinuation(parse, LAST_WORDS) == Success(GeneratedOutput("B", [], FinishStop))
  {
    hide Push, Flush, QwenContinuation;
    LastWordsPushed(parse);
    LastWordsWhole(parse);
    NothingToFlush(parse);
    var sampled, events := [Token(Some(LAST_WORDS))], [Reasoning("A"), TextDelta("B")];
    assert events[..1] == [Reasoning("A")] && events[1..] == [TextDelta("B")];
    var end := WholeLoop(parse, [], sampled, Some(0));
    assert KeepNonEmpty([]) == [];
    assert end == Ended([LAST_WORDS], SAID, [Reasoning("A")], [TextDelta("B")], Some(0), false, true);
    assert [Reasoning("A")] + [] == [Reasoning("A")] && [TextDelta("B")] + [] == [TextDelta("B")];
  }
}
