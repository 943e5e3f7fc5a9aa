/** The text a model writes for an answer, and what is read back from it: the
    decoder and the batch parser against the written form itself. */
module Rendering {
  import opened Wrappers
  import opened Text
  import opened StreamDecoder
  import opened ChunkIndependence
  import opened Generation
  import opened StreamAgreement

  // ------------------------------------------------------------------------
  // Writing

  /** Visible text, and after it one tool call: a body between blanks. */
  datatype Block = Block(text: string, before: string, body: string, after: string)

  /** Reasoning, newlines, any number of blocks, and the last of the text, after
      which a tool call may be left open. */
  datatype Answer = Answer(reasoning: string, newlines: string, blocks: seq<Block>, last: string, open: Option<string>)

  function Inner(b: Block): string {
    b.before + b.body + b.after
  }

  function Tail(a: Answer): string {
    a.last + if a.open.Some? then "<tool_call>" + a.open.value else ""
  }

  function Written(blocks: seq<Block>, ending: string): string {
    if blocks == [] then ending
    else blocks[0].text + "<tool_call>" + (Inner(blocks[0]) + "</tool_call>" + Written(blocks[1..], ending))
  }

  function Visible(a: Answer): string {
    Written(a.blocks, Tail(a))
  }

  function WrittenAnswer(a: Answer): string {
    a.reasoning + "</think>" + (a.newlines + Visible(a))
  }

  // ------------------------------------------------------------------------
  // What can be written so that it can be read

  ghost predicate Contains(t: string, w: string) {
    exists i :: OccursAt(t, w, i)
  }

  /** The characters with the Unicode White_Space property. */
  const BLANKS: string :=
    "\U{9}\U{A}\U{B}\U{C}\U{D}\U{20}\U{85}\U{A0}\U{1680}\U{2000}\U{2001}\U{2002}\U{2003}"
    + "\U{2004}\U{2005}\U{2006}\U{2007}\U{2008}\U{2009}\U{200A}\U{2028}\U{2029}\U{202F}\U{205F}\U{3000}"

  predicate Blank(c: char) {
    c in BLANKS
  }

  predicate AllBlank(t: string) {
    forall i :: 0 <= i < |t| ==> Blank(t[i])
  }

  /** Nothing would be trimmed off `t`. */
  predicate Tight(t: string) {
    t == "" || (!Blank(t[0]) && !Blank(t[|t| - 1]))
  }

  ghost predicate WellFormed(b: Block) {
    !Contains(b.text, "<tool_call>") && !Contains(Inner(b), "</tool_call>") && AllBlank(b.before)
    && AllBlank(b.after) && Tight(b.body)
  }

  predicate Newlines(t: string) {
    forall i :: 0 <= i < |t| ==> t[i] == '\r' || t[i] == '\n'
  }

  ghost predicate Readable(a: Answer) {
    && !Contains(a.reasoning, "</think>")
    && Newlines(a.newlines) && (Visible(a) == "" || (Visible(a)[0] != '\r' && Visible(a)[0] != '\n'))
    && (forall i :: 0 <= i < |a.blocks| ==> WellFormed(a.blocks[i]))
    && !Contains(a.last, "<tool_call>") && (a.open.Some? ==> !Contains(a.open.value, "</tool_call>"))
  }

  // ------------------------------------------------------------------------
  // What was meant

  function Said(blocks: seq<Block>): string {
    if blocks == [] then "" else blocks[0].text + Said(blocks[1..])
  }

  /** The calls asked for, the first of them number `n`, if each can be parsed. */
  function Asked(parse: ToolParser, blocks: seq<Block>, n: nat): Option<seq<GeneratedToolCall>> {
    if blocks == [] then Some([])
    else
      match parse(blocks[0].body, n)
      case None => None
      case Some(call) =>
        match Asked(parse, blocks[1..], n + 1)
        case None => None
        case Some(rest) => Some([call] + rest)
  }

  /** What reading the answer must give. */
  function Meant(parse: ToolParser, a: Answer): Result<GeneratedOutput, ProtocolError> {
    match Asked(parse, a.blocks, 0)
    case None => Failure(InvalidToolCall)
    case Some(calls) =>
      if a.open.Some? then Failure(UnterminatedToolCall)
      else Success(GeneratedOutput(Said(a.blocks) + a.last, calls, if a.blocks == []
        then FinishStop else FinishToolCalls))
  }

  // ------------------------------------------------------------------------
  // Tags

  /** A tag has its only `<` in front, so the first one found is the first one written. */
  lemma TagFound(t: string, tag: string, rest: string)
    requires tag != "" && tag[0] == '<' && (forall k :: 0 < k < |tag| ==> tag[k] != '<') && !Contains(t, tag)
    ensures Find(t + tag + rest, tag) == Some(|t|)
  {
    var whole := t + tag + rest;
    assert whole[|t|..|t| + |tag|] == tag;
    forall i: nat | i < |t| ensures !OccursAt(whole, tag, i) {
      if i + |tag| <= |t| {
        assert whole[i..i + |tag|] == t[i..i + |tag|];
        assert !OccursAt(t, tag, i);
      } else {
        assert whole[|t|] == '<' != tag[|t| - i];
        assert i + |tag| <= |whole| ==> whole[i..i + |tag|][|t| - i] == whole[|t|];
      }
    }
    FindUnique(whole, tag, Some(|t|));
  }

  lemma NoTagFound(t: string, tag: string)
    requires !Contains(t, tag)
    ensures Find(t, tag) == None
  {
    FindIs(t, tag);
  }

  lemma TagParts(t: string, tag: string, rest: string)
    ensures (t + tag + rest)[..|t|] == t && (t + tag + rest)[|t| + |tag|..] == rest
  {
  }

  // ------------------------------------------------------------------------
  // Trimming

  lemma {:induction false} NewlinesTrimmed(newlines: string, rest: string)
    requires Newlines(newlines) && (rest == "" || (rest[0] != '\r' && rest[0] != '\n'))
    ensures TrimLeadingNewlines(newlines + rest) == rest
  {
    if newlines == "" {
      assert newlines + rest == rest;
    } else {
      assert (newlines + rest)[1..] == newlines[1..] + rest;
      NewlinesTrimmed(newlines[1..], rest);
    }
  }

  lemma BlanksAreWhitespace(c: char)
    ensures Blank(c) <==> IsWhitespace(c)
  {
  }

  lemma {:induction false} StartTrimmed(before: string, rest: string)
    requires AllBlank(before) && (rest == "" || !Blank(rest[0]))
    ensures TrimStart(before + rest) == rest
  {
    hide IsWhitespace, Blank;
    if before == "" {
      assert before + rest == rest;
      if rest != "" {
        BlanksAreWhitespace(rest[0]);
      }
    } else {
      BlanksAreWhitespace(before[0]);
      assert (before + rest)[1..] == before[1..] + rest;
      StartTrimmed(before[1..], rest);
    }
  }

  lemma {:induction false} EndTrimmed(rest: string, after: string)
    requires AllBlank(after) && (rest == "" || !Blank(rest[|rest| - 1]))
    ensures TrimEnd(rest + after) == rest
  {
    hide IsWhitespace, Blank;
    if after == "" {
      assert rest + after == rest;
      if rest != "" {
        BlanksAreWhitespace(rest[|rest| - 1]);
      }
    } else {
      LastTrimmed(rest, after);
      EndTrimmed(rest, after[..|after| - 1]);
    }
  }

  lemma TrimEndStep(t: string)
    requires t != "" && IsWhitespace(t[|t| - 1])
    ensures TrimEnd(t) == TrimEnd(t[..|t| - 1])
  {
    hide IsWhitespace;
  }

  lemma LastTrimmed(rest: string, after: string)
    requires AllBlank(after) && after != ""
    ensures AllBlank(after[..|after| - 1]) && TrimEnd(rest + after) == TrimEnd(rest + after[..|after| - 1])
  {
    hide IsWhitespace, Blank, TrimEnd;
    var t, n := rest + after, |after| - 1;
    BlanksAreWhitespace(after[n]);
    assert t[|t| - 1] == after[n];
    TrimEndStep(t);
    assert t[..|t| - 1] == rest + after[..n];
  }

  /** Trimming takes the blanks off both ends, and nothing else. */
  lemma BodyTrimmed(before: string, body: string, after: string)
    requires AllBlank(before) && AllBlank(after) && Tight(body)
    ensures Trim(before + body + after) == body
  {
    hide TrimStart, TrimEnd, Blank;
    if body == "" {
      assert before + body + after == (before + after) + "";
      forall i | 0 <= i < |before + after| ensures Blank((before + after)[i]) {
      }
      StartTrimmed(before + after, "");
      EndTrimmed("", "");
      assert "" + "" == "";
    } else {
      assert before + body + after == before + (body + after);
      StartTrimmed(before, body + after);
      EndTrimmed(body, after);
    }
  }

  // ------------------------------------------------------------------------
  // Reading

  lemma {:induction false} BlocksAreRead(parse: ToolParser, blocks: seq<Block>, last: string, open: Option<string>,
                                         plain: string, calls: seq<GeneratedToolCall>)
    requires forall i :: 0 <= i < |blocks| ==> WellFormed(blocks[i])
    requires !Contains(last, "<tool_call>") && (open.Some? ==> !Contains(open.value, "</tool_call>"))
    ensures var ending := last + if open.Some? then "<tool_call>" + open.value else "";
      SplitToolCalls(parse, Written(blocks, ending), plain, calls) ==
        match Asked(parse, blocks, |calls|)
        case None => Failure(InvalidToolCall)
        case Some(more) =>
          if open.Some? then Failure(UnterminatedToolCall) else Success((plain + (Said(blocks) + last), calls + more))
    decreases |blocks|
  {
    hide Find, Contains, Trim, WellFormed;
    var ending := last + if open.Some? then "<tool_call>" + open.value else "";
    if blocks == [] {
      EndingIsRead(parse, last, open, plain, calls);
    } else {
      var b, rest := blocks[0], Written(blocks[1..], ending);
      BlockIsRead(parse, b, rest, plain, calls);
      match parse(b.body, |calls|) {
        case None =>
        case Some(call) =>
          BlocksAreRead(parse, blocks[1..], last, open, plain + b.text, calls + [call]);
          JoinRead(plain, b.text, Said(blocks[1..]), last);
          var more := Asked(parse, blocks[1..], |calls| + 1);
          if more.Some? {
            ConcatAssoc(calls, [call], more.value);
          }
      }
    }
  }

  lemma JoinRead(plain: string, text: string, said: string, last: string)
    ensures (plain + text) + (said + last) == plain + ((text + said) + last)
  {
  }

  lemma LastIsRead(parse: ToolParser, last: string, plain: string, calls: seq<GeneratedToolCall>)
    requires !Contains(last, "<tool_call>")
    ensures SplitToolCalls(parse, last, plain, calls) == Success((plain + last, calls))
  {
    hide Find, Contains;
    NoTagFound(last, "<tool_call>");
  }

  lemma OpenIsRead(parse: ToolParser, last: string, open: string, plain: string, calls: seq<GeneratedToolCall>)
    requires !Contains(last, "<tool_call>") && !Contains(open, "</tool_call>")
    ensures SplitToolCalls(parse, last + "<tool_call>" + open, plain, calls) == Failure(UnterminatedToolCall)
  {
    hide Find, Contains;
    TagFound(last, "<tool_call>", open);
    TagParts(last, "<tool_call>", open);
    NoTagFound(open, "</tool_call>");
  }

  lemma EndingIsRead(parse: ToolParser, last: string, open: Option<string>, plain: string,
                     calls: seq<GeneratedToolCall>)
    requires !Contains(last, "<tool_call>") && (open.Some? ==> !Contains(open.value, "</tool_call>"))
    ensures SplitToolCalls(parse, last + if open.Some? then "<tool_call>" + open.value else "", plain, calls)
         == if open.Some? then Failure(UnterminatedToolCall) else Success((plain + ("" + last), calls + []))
  {
    hide SplitToolCalls, Contains;
    assert "" + last == last && calls + [] == calls;
    if open.Some? {
      ConcatAssoc(last, "<tool_call>", open.value);
      OpenIsRead(parse, last, open.value, plain, calls);
    } else {
      assert last + "" == last;
      LastIsRead(parse, last, plain, calls);
    }
  }

  lemma BlockIsRead(parse: ToolParser, b: Block, rest: string, plain: string, calls: seq<GeneratedToolCall>)
    requires WellFormed(b)
    ensures SplitToolCalls(parse, b.text + "<tool_call>" + (Inner(b) + "</tool_call>" + rest), plain, calls) ==
      match parse(b.body, |calls|)
      case None => Failure(InvalidToolCall)
      case Some(call) => SplitToolCalls(parse, rest, plain + b.text, calls + [call])
  {
    hide Find, Contains, Trim;
    var inner := Inner(b) + "</tool_call>" + rest;
    TagFound(b.text, "<tool_call>", inner);
    TagParts(b.text, "<tool_call>", inner);
    TagFound(Inner(b), "</tool_call>", rest);
    TagParts(Inner(b), "</tool_call>", rest);
    BodyTrimmed(b.before, b.body, b.after);
  }

  /** What a model writes is what the batch parser reads. */
  lemma WrittenIsParsed(parse: ToolParser, a: Answer)
    requires Readable(a)
    ensures QwenContinuation(parse, WrittenAnswer(a)) == Meant(parse, a)
    ensures ReasoningOf(WrittenAnswer(a)) == a.reasoning
  {
    hide Find, Contains, Written, WellFormed, SplitToolCalls, TrimLeadingNewlines, Meant;
    TagFound(a.reasoning, "</think>", a.newlines + Visible(a));
    TagParts(a.reasoning, "</think>", a.newlines + Visible(a));
    NewlinesTrimmed(a.newlines, Visible(a));
    assert VisibleAfterThinking(WrittenAnswer(a)) == Visible(a);
    VisibleIsParsed(parse, a);
  }

  /** An answer with its reasoning left out, from an opening `<think>` on or without one. */
  function Unreasoned(a: Answer, begun: bool): string {
    if begun then "<think>" + (a.newlines + Visible(a)) else Visible(a)
  }

  /** A text in which no reasoning ends is visible from its start, or from behind
      an opening `<think>` and the newlines after it. */
  lemma UnreasonedIsParsed(parse: ToolParser, a: Answer, begun: bool)
    requires Readable(a) && !Contains(Unreasoned(a, begun), "</think>")
    requires begun || !("<think>" <= Visible(a))
    ensures ModelText(parse, Unreasoned(a, begun)) == Meant(parse, a)
  {
    hide Find, Contains, Written, WellFormed, SplitToolCalls, TrimLeadingNewlines, Meant;
    var t := Unreasoned(a, begun);
    NoTagFound(t, "</think>");
    NewlinesTrimmed(a.newlines, Visible(a));
    if begun {
      assert t[|"<think>"|..] == a.newlines + Visible(a);
    }
    assert VisibleAfterThinking(t) == Visible(a);
    VisibleIsParsed(parse, a);
  }

  lemma VisibleIsParsed(parse: ToolParser, a: Answer)
    requires Readable(a)
    ensures Meant(parse, a) ==
      match SplitToolCalls(parse, Visible(a), "", [])
      case Failure(e) => Failure(e)
      case Success((plain, calls)) =>
        Success(GeneratedOutput(plain, calls, if calls == [] then FinishStop else FinishToolCalls))
  {
    hide Find, Contains, Written, WellFormed, SplitToolCalls, Asked, Said;
    BlocksAreRead(parse, a.blocks, a.last, a.open, "", []);
    AskedLength(parse, a.blocks, 0);
    assert "" + (Said(a.blocks) + a.last) == Said(a.blocks) + a.last;
    var calls := Asked(parse, a.blocks, 0);
    if calls.Some? {
      assert [] + calls.value == calls.value;
    }
  }

  lemma {:induction false} AskedLength(parse: ToolParser, blocks: seq<Block>, n: nat)
    ensures Asked(parse, blocks, n).Some? ==> |Asked(parse, blocks, n).value| == |blocks|
  {
    if blocks != [] {
      AskedLength(parse, blocks[1..], n + 1);
    }
  }

  /** Main result: however the written answer is cut into chunks, the stream shows
      its reasoning, its text and its calls, each as it was meant: nothing of the
      tags, the newlines after the reasoning or the blanks around a body is left,
      and nothing else is lost. A body that does not parse fails the run, and an
      open call ends it as cut off. */
  lemma WrittenIsShown(parse: ToolParser, a: Answer, chunks: seq<string>)
    requires Readable(a) && Flatten(chunks) == WrittenAnswer(a)
    ensures var run, calls := Run(parse, [], true, chunks), Asked(parse, a.blocks, 0);
      if calls.None? then run == Failed
      else
        && run.Completed? && !run.stopped && ThoughtsOf(run.atoms) == a.reasoning
        && (a.open.Some? <==> run.finish == Length)
        && (a.open.None? ==>
              && ShownOf(run.atoms) == Said(a.blocks) + a.last && CallsOf(run.atoms) == calls.value
              && run.finish == if a.blocks == [] then Stop else ToolCalls)
  {
    hide Run, QwenContinuation, WrittenAnswer, Readable, ThoughtsOf, ShownOf, CallsOf, Asked, Said;
    WrittenIsParsed(parse, a);
    StreamMatchesBatch(parse, chunks);
  }

  // ------------------------------------------------------------------------
  // Stop sequences

  /** `w` is the first stop sequence to occur in `text + w + rest`, with no tool
      call opened up to it. */
  ghost predicate StopsAt(text: string, w: string, rest: string, stops: seq<string>) {
    var t := text + w + rest;
    && w in stops && w != ""
    && (forall i, v :: 0 <= i < |text| && v in stops && v != "" ==> !OccursAt(t, v, i))
    && (forall i :: 0 <= i <= |text| ==> !OccursAt(t, "<tool_call>", i))
  }

  /** Where stop sequences do not interfere, the first one ends the answer: the
      stream shows the text before it, and nothing of it or of what follows. */
  lemma StopEndsTheText(parse: ToolParser, stops: seq<string>, reasoning: string, newlines: string, text: string,
                        w: string, rest: string, chunks: seq<string>)
    requires !Conflict(KeepNonEmpty(stops)) && StopsAt(text, w, rest, stops)
    requires !Contains(reasoning, "</think>") && Newlines(newlines)
    requires var t := text + w + rest; t[0] != '\r' && t[0] != '\n'
    requires Flatten(chunks) == reasoning + "</think>" + (newlines + (text + w + rest))
    ensures Run(parse, stops, true, chunks) == Completed(ThoughtAtoms(reasoning) + ShownAtoms(text), Stop, true)
  {
    hide Run, OneShot, Conflict, StopsAt, Contains, Find, WinnerIn, ThoughtAtoms, ShownAtoms, Newlines;
    var t := text + w + rest;
    RunIsOneShot(parse, stops, true, chunks);
    TagFound(reasoning, "</think>", newlines + t);
    NewlinesTrimmed(newlines, t);
    StopWins(text, w, rest, stops);
    StoppedDrain(parse, KeepNonEmpty(stops), reasoning, newlines, text, t);
    StoppedOutcome(parse, stops, reasoning, text, Flatten(chunks));
  }

  lemma StoppedOutcome(parse: ToolParser, stops: seq<string>, reasoning: string, text: string, whole: string)
    requires Drain(parse, KeepNonEmpty(stops), Start(true).Append(whole), true)
          == Drained(DecoderState(false, "", false, "", 0, true, false), ReasoningEvents(reasoning) + TextEvents(text))
    ensures OneShot(parse, stops, true, whole) == Completed(ThoughtAtoms(reasoning) + ShownAtoms(text), Stop, true)
  {
    hide Drain, Atoms, ReasoningEvents, TextEvents, ThoughtAtoms, ShownAtoms;
    AtomsAppend(ReasoningEvents(reasoning), TextEvents(text));
    ReasoningAtoms(reasoning);
    TextAtoms(text);
  }

  lemma StopWins(text: string, w: string, rest: string, stops: seq<string>)
    requires StopsAt(text, w, rest, stops)
    ensures WinnerIn(text + w + rest, KeepNonEmpty(stops)) == StopAt(|text|)
    ensures text + w + rest != "" && (text + w + rest)[..|text|] == text
  {
    hide Find, FindAny;
    var t, kept := text + w + rest, KeepNonEmpty(stops);
    assert t[|text|..|text| + |w|] == w;
    assert AnyOccursAt(t, kept, |text|) by {
      assert w in kept && OccursAt(t, w, |text|);
    }
    FindAnyUnique(t, kept, Some(|text|));
    FindIs(t, "<tool_call>");
  }

  lemma StoppedDrain(parse: ToolParser, kept: seq<string>, reasoning: string, newlines: string, text: string, t: string)
    requires var whole := reasoning + "</think>" + (newlines + t);
      Find(whole, THINK_END) == Some(|reasoning|)
    requires TrimLeadingNewlines(newlines + t) == t != "" && |text| <= |t| && t[..|text|] == text
    requires WinnerIn(t, kept) == StopAt(|text|)
    ensures var whole := reasoning + "</think>" + (newlines + t);
      Drain(parse, kept, Start(true).Append(whole), true)
      == Drained(DecoderState(false, "", false, "", 0, true, false), ReasoningEvents(reasoning) + TextEvents(text))
  {
    hide Find, WinnerIn, TrimLeadingNewlines;
    var whole := reasoning + "</think>" + (newlines + t);
    var s := Start(true).Append(whole);
    assert s.pending == whole;
    TagParts(reasoning, "</think>", newlines + t);
    var thought := DecoderState(false, newlines + t, false, "", 0, false, true);
    assert TurnOf(parse, kept, s, true) == Again(thought, ReasoningEvents(reasoning));
    assert TurnOf(parse, kept, thought, true)
      == Halt(DecoderState(false, "", false, "", 0, true, false), TextEvents(text));
    assert Drain(parse, kept, s, true) == After(ReasoningEvents(reasoning), Drain(parse, kept, thought, true));
  }
}
