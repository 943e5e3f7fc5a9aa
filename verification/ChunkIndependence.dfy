/** How the stream depends on where the text was cut into chunks: not at all,
    exactly when no watched string can be completed strictly inside another. */
module ChunkIndependence {
  import opened Wrappers
  import opened Text
  import opened StreamDecoder

  // ------------------------------------------------------------------------
  // What a client has seen

  /** The indivisible units a client receives, in order. Two event lists with
      the same atoms differ only in how runs of text were split into deltas. */
  datatype Atom = Thought(c: char) | Shown(c: char) | Called(call: GeneratedToolCall)

  function ThoughtAtoms(t: string): seq<Atom> {
    seq(|t|, i requires 0 <= i < |t| => Thought(t[i]))
  }

  function ShownAtoms(t: string): seq<Atom> {
    seq(|t|, i requires 0 <= i < |t| => Shown(t[i]))
  }

  function AtomsOf(e: StreamEvent): seq<Atom> {
    match e
    case Reasoning(t) => ThoughtAtoms(t)
    case TextDelta(t) => ShownAtoms(t)
    case ToolCall(call) => [Called(call)]
  }

  function Atoms(events: seq<StreamEvent>): seq<Atom> {
    if events == [] then [] else AtomsOf(events[0]) + Atoms(events[1..])
  }

  lemma {:induction false} AtomsAppend(a: seq<StreamEvent>, b: seq<StreamEvent>)
    ensures Atoms(a + b) == Atoms(a) + Atoms(b)
  {
    if a == [] {
      assert a + b == b;
    } else {
      assert (a + b)[1..] == a[1..] + b;
      AtomsAppend(a[1..], b);
    }
  }

  lemma ReasoningAtoms(t: string)
    ensures Atoms(ReasoningEvents(t)) == ThoughtAtoms(t)
  {
  }

  lemma TextAtoms(t: string)
    ensures Atoms(TextEvents(t)) == ShownAtoms(t)
  {
  }

  // ------------------------------------------------------------------------
  // A whole run

  datatype RunOutcome = Failed | Completed(atoms: seq<Atom>, finish: StreamFinish, stopped: bool)

  function PushAll(parse: ToolParser, stops: seq<string>, s: DecoderState, chunks: seq<string>): DrainResult
    decreases |chunks|
  {
    if chunks == [] then Drained(s, [])
    else
      var first := Push(parse, stops, s, chunks[0]);
      match first
      case Rejected(_) => first
      case Drained(s', events) => After(events, PushAll(parse, stops, s', chunks[1..]))
  }

  function Ending(parse: ToolParser, stops: seq<string>, pushed: DrainResult): RunOutcome {
    match pushed
    case Rejected(_) => Failed
    case Drained(s, events) =>
      match Flush(parse, stops, s)
      case Rejected(_) => Failed
      case Drained(s', tail) => Completed(Atoms(events + tail), FinishOf(s'), s'.stopped)
  }

  /** Push every chunk, then finish; a protocol error ends the run. */
  function Run(parse: ToolParser, stops: seq<string>, thinking: bool, chunks: seq<string>): RunOutcome {
    var kept := KeepNonEmpty(stops);
    Ending(parse, kept, PushAll(parse, kept, Start(thinking), chunks))
  }

  /** The text drained in one piece, as if it had arrived whole and last. */
  function OneShot(parse: ToolParser, stops: seq<string>, thinking: bool, text: string): RunOutcome {
    match Drain(parse, KeepNonEmpty(stops), Start(thinking).Append(text), true)
    case Rejected(_) => Failed
    case Drained(s, events) => Completed(Atoms(events), FinishOf(s), s.stopped)
  }

  /** The run of the decoder object, as its caller drives it. */
  method RunDecoder(parse: ToolParser, stops: seq<string>, thinking: bool, chunks: seq<string>)
      returns (outcome: RunOutcome, ghost events: seq<StreamEvent>)
    ensures outcome == Run(parse, stops, thinking, chunks)
  {
    var decoder := new IncrementalOutputDecoder(parse, stops, thinking);
    var collected: seq<StreamEvent> := [];
    events := [];
    ghost var kept := KeepNonEmpty(stops);
    for i := 0 to |chunks|
      invariant decoder.parse == parse && decoder.stopSequences == kept
      invariant After(collected, PushAll(parse, kept, decoder.State(), chunks[i..]))
             == PushAll(parse, kept, Start(thinking), chunks)
    {
      ghost var before := decoder.State();
      assert chunks[i..][0] == chunks[i] && chunks[i..][1..] == chunks[i + 1..];
      var r := decoder.PushText(chunks[i]);
      if r.Failure? {
        return Failed, [];
      }
      AfterAfter(collected, r.value, PushAll(parse, kept, decoder.State(), chunks[i + 1..]));
      collected := collected + r.value;
    }
    assert chunks[|chunks|..] == [];
    assert PushAll(parse, kept, Start(thinking), chunks) == Drained(decoder.State(), collected + []);
    assert collected + [] == collected;
    var last := decoder.Finish();
    if last.Failure? {
      return Failed, [];
    }
    events := collected + last.value.0;
    return Completed(Atoms(collected + last.value.0), last.value.1, decoder.stopped), events;
  }

  // ------------------------------------------------------------------------
  // When two watched strings get in each other's way

  /** `w` occurs inside `outer`, neither at its beginning nor at its end. */
  ghost predicate InsideAt(w: string, outer: string, o: int) {
    0 < o && o + |w| < |outer| && OccursAt(outer, w, o)
  }

  predicate ProperPrefix(w: string, outer: string) {
    |w| < |outer| && outer[..|w|] == w
  }

  /** No watched string is a proper prefix of `w`; a string that is not live
      can never be the first match. */
  ghost predicate Live(w: string, watched: seq<string>) {
    forall v :: v in watched ==> !ProperPrefix(v, w)
  }

  /** The stop sequences (already without empty ones) interfere: one of them
      begins the tool-call opener, or a watched string can be completed
      strictly inside a live watched string. */
  ghost predicate Conflict(stops: seq<string>) {
    || (exists w :: w in stops && ProperPrefix(w, TOOL_CALL_START))
    || (exists w, outer, o ::
          w in Watched(stops) && outer in Watched(stops) && Live(outer, Watched(stops)) && InsideAt(w, outer, o))
  }

  lemma LivePrefix(w: string, watched: seq<string>) returns (v: string)
    requires w in watched
    ensures v in watched && |v| <= |w| && w[..|v|] == v && Live(v, watched)
    decreases |w|
  {
    if Live(w, watched) {
      return w;
    }
    var u :| u in watched && ProperPrefix(u, w);
    v := LivePrefix(u, watched);
    assert w[..|v|] == u[..|v|];
  }

  /** If more text completes a match that starts before the first match, the
      stop sequences interfere. */
  lemma EarlierMatchConflicts(t: string, b: string, stops: seq<string>, i: nat, j: nat)
    requires IsFirst(t, Watched(stops), i) && j < i
    requires AnyOccursAt(t + b, Watched(stops), j)
    ensures Conflict(stops)
  {
    hide Conflict, Watched, Live, OccursAt, InsideAt;
    var watched := Watched(stops);
    var long :| long in watched && OccursAt(t + b, long, j);
    var v := LivePrefix(long, watched);
    PrefixOccurs(t + b, long, v, j);
    OccursAppend(t, b, v, j);
    assert !AnyOccursAt(t, watched, j);
    var w :| w in watched && OccursAt(t, w, i);
    MatchLiesInside(t, b, v, w, i, j);
    InsideConflicts(stops, w, v, i - j);
  }

  lemma PrefixOccurs(t: string, long: string, v: string, j: nat)
    requires OccursAt(t, long, j) && |v| <= |long| && long[..|v|] == v
    ensures OccursAt(t, v, j)
  {
    assert t[j..j + |v|] == t[j..j + |long|][..|v|];
  }

  /** A match in `t` lies inside one that begins before it and ends past `t`. */
  lemma MatchLiesInside(t: string, b: string, v: string, w: string, i: nat, j: nat)
    requires j < i && OccursAt(t, w, i) && OccursAt(t + b, v, j) && !OccursAt(t, v, j)
    ensures InsideAt(w, v, i - j)
  {
    OccursAppend(t, b, v, j);
    SliceOfSlice(t + b, j, j + |v|, i - j, i - j + |w|);
    assert (t + b)[i..i + |w|] == t[i..i + |w|];
  }

  lemma InsideConflicts(stops: seq<string>, w: string, outer: string, o: int)
    requires w in Watched(stops) && outer in Watched(stops) && Live(outer, Watched(stops)) && InsideAt(w, outer, o)
    ensures Conflict(stops)
  {
  }

  /** If an opener is completed where a stop already matched, the stop sequences interfere. */
  lemma LateOpenerConflicts(t: string, b: string, stops: seq<string>, w: string, i: nat)
    requires w in stops && OccursAt(t, w, i) && !OccursAt(t, TOOL_CALL_START, i)
    requires OccursAt(t + b, TOOL_CALL_START, i)
    ensures Conflict(stops)
  {
    OccursAppend(t, b, TOOL_CALL_START, i);
    assert TOOL_CALL_START[..|w|] == (t + b)[i..i + |w|] == w;
    assert ProperPrefix(w, TOOL_CALL_START);
  }

  /** What it means to win: no watched string occurs earlier, and an opener
      beats a stop at the same place. */
  ghost predicate IsWinner(t: string, stops: seq<string>, r: Winner) {
    match r
    case NoMatch => Absent(t, Watched(stops))
    case StopAt(at) =>
      IsFirst(t, Watched(stops), at) && AnyOccursAt(t, stops, at) && !OccursAt(t, TOOL_CALL_START, at)
    case ToolAt(at) =>
      IsFirst(t, Watched(stops), at) && OccursAt(t, TOOL_CALL_START, at)
  }

  lemma WatchedOccurs(t: string, stops: seq<string>)
    ensures forall j :: AnyOccursAt(t, Watched(stops), j)
              <==> OccursAt(t, TOOL_CALL_START, j) || AnyOccursAt(t, stops, j)
  {
    assert TOOL_CALL_START == Watched(stops)[0];
    forall w ensures w in Watched(stops) <==> w == TOOL_CALL_START || w in stops {
    }
  }

  lemma WinnerIs(t: string, stops: seq<string>)
    ensures IsWinner(t, stops, WinnerIn(t, stops))
  {
    FindAnyIs(t, stops);
    FindIs(t, TOOL_CALL_START);
    WatchedOccurs(t, stops);
  }

  lemma WinnerUnique(t: string, stops: seq<string>, r: Winner)
    requires IsWinner(t, stops, r)
    ensures WinnerIn(t, stops) == r
  {
    WinnerIs(t, stops);
    WatchedOccurs(t, stops);
  }

  /** Once a delimiter has won, more text does not change that. */
  lemma WinnerAppend(t: string, b: string, stops: seq<string>)
    requires !Conflict(stops) && !WinnerIn(t, stops).NoMatch?
    ensures WinnerIn(t + b, stops) == WinnerIn(t, stops)
  {
    WinnerIs(t, stops);
    var r := WinnerIn(t, stops);
    var w :| w in Watched(stops) && OccursAt(t, w, r.at);
    OccursAppend(t, b, w, r.at);
    forall j | j < r.at ensures !AnyOccursAt(t + b, Watched(stops), j) {
      if 0 <= j && AnyOccursAt(t + b, Watched(stops), j) {
        EarlierMatchConflicts(t, b, stops, r.at, j);
      }
    }
    OccursAppend(t, b, TOOL_CALL_START, r.at);
    if r.StopAt? {
      assert AnyOccursAt(t + b, stops, r.at) by {
        var v :| v in stops && OccursAt(t, v, r.at);
        OccursAppend(t, b, v, r.at);
      }
      var stop :| stop in stops && OccursAt(t, stop, r.at);
      if OccursAt(t + b, TOOL_CALL_START, r.at) {
        LateOpenerConflicts(t, b, stops, stop, r.at);
      }
    }
    WinnerUnique(t + b, stops, r);
  }

  function Shifted(r: Winner, k: nat): Winner {
    match r
    case NoMatch => NoMatch
    case StopAt(at) => StopAt(k + at)
    case ToolAt(at) => ToolAt(k + at)
  }

  lemma NoMatchMeansNone(t: string, stops: seq<string>)
    ensures WinnerIn(t, stops).NoMatch? <==> FindAny(t, Watched(stops)).None?
  {
    assert Watched(stops)[0] == TOOL_CALL_START && Watched(stops)[1..] == stops;
  }

  /** With no delimiter in `t`, what follows decides from the held suffix alone. */
  lemma WinnerAfterHold(t: string, b: string, stops: seq<string>, k: nat)
    requires WinnerIn(t, stops).NoMatch? && k == |t| - Hold(t, Watched(stops))
    ensures WinnerIn(t + b, stops) == Shifted(WinnerIn(t[k..] + b, stops), k)
  {
    NoMatchMeansNone(t, stops);
    assert Watched(stops)[0] == TOOL_CALL_START;
    FindAfterHold(t, b, Watched(stops), TOOL_CALL_START, k);
    FindAnyAfterHold(t, b, Watched(stops), stops, k);
  }

  // ------------------------------------------------------------------------
  // Draining in two pieces

  predicate SameResult(a: DrainResult, b: DrainResult) {
    match (a, b)
    case (Rejected(_), Rejected(_)) => true
    case (Drained(s, x), Drained(s', y)) => s == s' && Atoms(x) == Atoms(y)
    case _ => false
  }

  /** Drain what is there, then take `b` and drain again. */
  function DrainTwice(parse: ToolParser, stops: seq<string>, s: DecoderState, b: string, final: bool): DrainResult {
    match Drain(parse, stops, s, false)
    case Rejected(s') => Rejected(s')
    case Drained(s', events) => After(events, Drain(parse, stops, s'.Append(b), final))
  }

  /** After emitting `e`, the turn `x` does what the turn `y` does at once. */
  predicate Resumes(e: seq<StreamEvent>, x: Turn, y: Turn) {
    match (x, y)
    case (Again(s, f), Again(s', g)) => s == s' && Atoms(e + f) == Atoms(g)
    case (Halt(s, f), Halt(s', g)) => s == s' && Atoms(e + f) == Atoms(g)
    case (Reject(_), Reject(_)) => true
    case _ => false
  }

  /** `x` and `y` have the same shape and state; only their events may differ. */
  predicate SameStep(x: Turn, y: Turn) {
    match (x, y)
    case (Again(s, _), Again(s', _)) => s == s'
    case (Halt(s, _), Halt(s', _)) => s == s'
    case _ => false
  }

  lemma ThinkingResumes(s: DecoderState, b: string, final: bool)
    requires ThinkingTurn(s, false).Halt?
    ensures var halt := ThinkingTurn(s, false);
      Resumes(halt.events, ThinkingTurn(halt.state.Append(b), final), ThinkingTurn(s.Append(b), final))
  {
    hide Atoms, Hold, Find, ThoughtAtoms, ReasoningEvents;
    var t, watched := s.pending, [THINK_END];
    var k := |t| - Hold(t, watched);
    assert t[k..] + b == (t + b)[k..] && t[..k] == (t + b)[..k];
    FindAfterHold(t, b, watched, THINK_END, k);
    HoldOfHold(t, b, watched);
    var n := ThinkingTurnsAgree(s, t + b, k, final);
    SplitReasoning(t + b, k, k + n, (t + b)[k..]);
  }

  lemma ThinkingTurnsAgree(s: DecoderState, long: string, k: nat, final: bool) returns (n: nat)
    requires k <= |long| - Hold(long, [THINK_END])
    requires Hold(long[k..], [THINK_END]) == Hold(long, [THINK_END])
    requires var found := Find(long[k..], THINK_END);
      Find(long, THINK_END) == if found.None? then None else Some(k + found.value)
    ensures var x, y := ThinkingTurn(s.(pending := long[k..]), final), ThinkingTurn(s.(pending := long), final);
      && SameStep(x, y) && k + n <= |long|
      && x.events == ReasoningEvents(long[k..][..n]) && y.events == ReasoningEvents(long[..k + n])
  {
    hide Hold, Find, ReasoningEvents;
    var short := long[k..];
    var found := Find(short, THINK_END);
    n := if found.None? then Releasable(short, [THINK_END], final) else found.value;
    DropTwice(long, k, if found.Some? then n + |THINK_END| else n);
  }

  lemma SplitReasoning(long: string, k: nat, n: nat, short: string)
    requires k <= n <= |long| && short == long[k..]
    ensures Atoms(ReasoningEvents(long[..k]) + ReasoningEvents(short[..n - k])) == Atoms(ReasoningEvents(long[..n]))
    ensures short[..n - k] == long[k..n]
  {
    hide Atoms, ReasoningEvents;
    assert long[..n] == long[..k] + short[..n - k];
    AtomsAppend(ReasoningEvents(long[..k]), ReasoningEvents(short[..n - k]));
    ReasoningAtoms(long[..k]);
    ReasoningAtoms(short[..n - k]);
    ReasoningAtoms(long[..n]);
    ThoughtAtomsSplit(long[..k], short[..n - k]);
  }

  lemma ThoughtAtomsSplit(a: string, b: string)
    ensures ThoughtAtoms(a + b) == ThoughtAtoms(a) + ThoughtAtoms(b)
  {
  }

  lemma SplitText(long: string, k: nat, n: nat, short: string)
    requires k <= n <= |long| && short == long[k..]
    ensures Atoms(TextEvents(long[..k]) + TextEvents(short[..n - k])) == Atoms(TextEvents(long[..n]))
  {
    hide Atoms, TextEvents;
    assert long[..n] == long[..k] + short[..n - k];
    AtomsAppend(TextEvents(long[..k]), TextEvents(short[..n - k]));
    TextAtoms(long[..k]);
    TextAtoms(short[..n - k]);
    TextAtoms(long[..n]);
    ShownAtomsSplit(long[..k], short[..n - k]);
  }

  lemma ShownAtomsSplit(a: string, b: string)
    ensures ShownAtoms(a + b) == ShownAtoms(a) + ShownAtoms(b)
  {
  }

  lemma TextResumes(stops: seq<string>, s: DecoderState, b: string, final: bool)
    requires WinnerIn(s.pending, stops).NoMatch?
    ensures var halt := TextTurn(stops, s, false);
      Resumes(halt.events, TextTurn(stops, halt.state.Append(b), final), TextTurn(stops, s.Append(b), final))
  {
    hide Atoms, Hold, Find, FindAny, ShownAtoms, WinnerIn, TextEvents, Watched;
    var t, watched := s.pending, Watched(stops);
    var k := |t| - Hold(t, watched);
    assert t[k..] + b == (t + b)[k..] && t[..k] == (t + b)[..k];
    WinnerAfterHold(t, b, stops, k);
    HoldOfHold(t, b, watched);
    var n := TextTurnsAgree(stops, s, t + b, k, final);
    SplitText(t + b, k, k + n, (t + b)[k..]);
  }

  lemma TextTurnsAgree(stops: seq<string>, s: DecoderState, long: string, k: nat, final: bool) returns (n: nat)
    requires k <= |long| - Hold(long, Watched(stops))
    requires Hold(long[k..], Watched(stops)) == Hold(long, Watched(stops))
    requires WinnerIn(long, stops) == Shifted(WinnerIn(long[k..], stops), k)
    ensures var x, y := TextTurn(stops, s.(pending := long[k..]), final), TextTurn(stops, s.(pending := long), final);
      && SameStep(x, y) && k + n <= |long|
      && x.events == TextEvents(long[k..][..n]) && y.events == TextEvents(long[..k + n])
  {
    hide Hold, WinnerIn, TextEvents, Watched, Releasable, TextTurn, SameStep;
    var winner := WinnerIn(long[k..], stops);
    if winner.NoMatch? {
      ReleasableLater(long, k, Watched(stops), final);
      n := Releasable(long[k..], Watched(stops), final);
      NoMatchTurnsAgree(stops, s, long, k, n, final);
    } else {
      n := winner.at;
      MatchTurnsAgree(stops, s, long, k, final);
    }
  }

  lemma NoMatchTurnsAgree(stops: seq<string>, s: DecoderState, long: string, k: nat, n: nat, final: bool)
    requires k + n <= |long| && n == Releasable(long[k..], Watched(stops), final)
    requires k + n == Releasable(long, Watched(stops), final)
    requires WinnerIn(long[k..], stops).NoMatch? && WinnerIn(long, stops).NoMatch?
    ensures var x, y := TextTurn(stops, s.(pending := long[k..]), final), TextTurn(stops, s.(pending := long), final);
      && SameStep(x, y)
      && x.events == TextEvents(long[k..][..n]) && y.events == TextEvents(long[..k + n])
  {
    hide WinnerIn, TextEvents, Watched, Releasable, TextTurn;
    DropTwice(long, k, n);
    NoMatchTurn(stops, s.(pending := long[k..]), final);
    NoMatchTurn(stops, s.(pending := long), final);
  }

  lemma MatchTurnsAgree(stops: seq<string>, s: DecoderState, long: string, k: nat, final: bool)
    requires k <= |long| && !WinnerIn(long[k..], stops).NoMatch?
    requires WinnerIn(long, stops) == Shifted(WinnerIn(long[k..], stops), k)
    ensures var x, y := TextTurn(stops, s.(pending := long[k..]), final), TextTurn(stops, s.(pending := long), final);
      var n := WinnerIn(long[k..], stops).at;
      && SameStep(x, y) && k + n <= |long|
      && x.events == TextEvents(long[k..][..n]) && y.events == TextEvents(long[..k + n])
  {
    hide WinnerIn, TextEvents, TextTurn;
    var winner := WinnerIn(long[k..], stops);
    if winner.ToolAt? {
      DropTwice(long, k, winner.at + |TOOL_CALL_START|);
    }
    MatchTurn(stops, s.(pending := long[k..]), final);
    MatchTurn(stops, s.(pending := long), final);
  }

  lemma NoMatchTurn(stops: seq<string>, s: DecoderState, final: bool)
    requires WinnerIn(s.pending, stops).NoMatch?
    ensures var cut := Releasable(s.pending, Watched(stops), final);
      TextTurn(stops, s, final) == Halt(s.(pending := s.pending[cut..]), TextEvents(s.pending[..cut]))
  {
  }

  lemma MatchTurn(stops: seq<string>, s: DecoderState, final: bool)
    requires !WinnerIn(s.pending, stops).NoMatch?
    ensures var winner := WinnerIn(s.pending, stops);
      var events := TextEvents(s.pending[..winner.at]);
      TextTurn(stops, s, final) ==
      if winner.StopAt? then Halt(s.(pending := "", stopped := true), events)
      else
        Again(s.(pending := "", toolBuffer := s.pending[winner.at + |TOOL_CALL_START|..], inToolCall := true), events)
  {
    hide WinnerIn, TextEvents;
  }

  lemma ReleasableLater(long: string, k: nat, watched: seq<string>, final: bool)
    requires k <= |long| && Hold(long[k..], watched) == Hold(long, watched)
    ensures k + Releasable(long[k..], watched, final) == Releasable(long, watched, final)
  {
    hide Hold;
  }

  lemma DropTwice<T>(long: seq<T>, k: nat, n: nat)
    requires k + n <= |long|
    ensures long[k..][n..] == long[k + n..]
  {
  }

  lemma ResumesGivesSame(parse: ToolParser, stops: seq<string>, s: DecoderState, b: string, final: bool)
    requires TurnOf(parse, stops, s, false).Halt?
    requires var halt := TurnOf(parse, stops, s, false);
      Resumes(halt.events, TurnOf(parse, stops, halt.state.Append(b), final), TurnOf(parse, stops, s.Append(b), final))
    ensures SameResult(DrainTwice(parse, stops, s, b, final), Drain(parse, stops, s.Append(b), final))
  {
    var halt := TurnOf(parse, stops, s, false);
    var e, s1 := halt.events, halt.state;
    var x, y := TurnOf(parse, stops, s1.Append(b), final), TurnOf(parse, stops, s.Append(b), final);
    if x.Again? {
      TurnShrinks(parse, stops, s1.Append(b), final);
      AfterAfter(e, x.events, Drain(parse, stops, x.state, final));
      match Drain(parse, stops, x.state, final) {
        case Rejected(_) =>
        case Drained(_, more) =>
          AtomsAppend(e + x.events, more);
          AtomsAppend(y.events, more);
      }
    }
  }

  /** In tool mode only the buffer and what follows it, together, matter. */
  lemma ToolModeMerges(parse: ToolParser, stops: seq<string>, s: DecoderState, b: string, final: bool)
    requires !s.stopped && !s.thinking && s.inToolCall && s.pending == ""
    ensures Drain(parse, stops, s.(toolBuffer := s.toolBuffer + b), final) == Drain(parse, stops, s.Append(b), final)
  {
    assert s.toolBuffer + b + "" == s.toolBuffer + ("" + b);
    assert ToolTurn(parse, s.(toolBuffer := s.toolBuffer + b)) == ToolTurn(parse, s.Append(b));
  }

  // ------------------------------------------------------------------------
  // Composition: draining twice is draining once

  lemma TextHalts(parse: ToolParser, stops: seq<string>, s: DecoderState, b: string, final: bool)
    requires !Conflict(stops) && !s.stopped && !s.thinking && !s.inToolCall && !s.trimming
    requires TextTurn(stops, s, false).Halt?
    ensures SameResult(DrainTwice(parse, stops, s, b, final), Drain(parse, stops, s.Append(b), final))
  {
    match WinnerIn(s.pending, stops) {
      case NoMatch =>
        TextResumes(stops, s, b, final);
        ResumesGivesSame(parse, stops, s, b, final);
      case StopAt(at) =>
        WinnerAppend(s.pending, b, stops);
        assert (s.pending + b)[..at] == s.pending[..at];
        assert TurnOf(parse, stops, s.Append(b), final) == TurnOf(parse, stops, s, false);
        var events := TextEvents(s.pending[..at]);
        assert events + [] == events;
    }
  }

  /** One step of the induction: both drains take the same turn and go round again. */
  lemma AgainComposes(parse: ToolParser, stops: seq<string>, s: DecoderState, b: string, final: bool)
    requires TurnOf(parse, stops, s, false).Again?
    requires var x, y := TurnOf(parse, stops, s, false), TurnOf(parse, stops, s.Append(b), final);
      && y.Again? && x.events == y.events
      && Drain(parse, stops, y.state, final) == Drain(parse, stops, x.state.Append(b), final)
      && SameResult(DrainTwice(parse, stops, x.state, b, final), Drain(parse, stops, x.state.Append(b), final))
    ensures SameResult(DrainTwice(parse, stops, s, b, final), Drain(parse, stops, s.Append(b), final))
  {
    var x := TurnOf(parse, stops, s, false);
    var first := Drain(parse, stops, x.state, false);
    var whole := Drain(parse, stops, x.state.Append(b), final);
    if first.Drained? {
      var second := Drain(parse, stops, first.state.Append(b), final);
      AfterAfter(x.events, first.events, second);
      if second.Drained? {
        AtomsAppend(x.events, first.events + second.events);
        AtomsAppend(x.events, whole.events);
      }
    }
  }

  lemma {:induction false} TrimAppend(t: string, b: string)
    ensures TrimLeadingNewlines(t + b) ==
            if TrimLeadingNewlines(t) == "" then TrimLeadingNewlines(b) else TrimLeadingNewlines(t) + b
  {
    if t == "" {
      assert t + b == b;
    } else if IsNewline(t[0]) {
      assert (t + b)[1..] == t[1..] + b;
      TrimAppend(t[1..], b);
    }
  }

  /** Draining what has arrived and then the rest gives the same final state and
      the same atoms as draining everything at once. */
  lemma {:induction false} DrainComposes(parse: ToolParser, stops: seq<string>, s: DecoderState, b: string, final: bool)
    requires !Conflict(stops)
    ensures SameResult(DrainTwice(parse, stops, s, b, final), Drain(parse, stops, s.Append(b), final))
    decreases |s.pending| + |s.toolBuffer|, s.trimming
  {
    if s.stopped {
    } else if s.thinking {
      ThinkingComposes(parse, stops, s, b, final);
    } else if s.inToolCall {
      ToolComposes(parse, stops, s, b, final);
    } else if s.trimming {
      TrimmingComposes(parse, stops, s, b, final);
    } else {
      TextComposes(parse, stops, s, b, final);
    }
  }

  lemma ThinkingComposes(parse: ToolParser, stops: seq<string>, s: DecoderState, b: string, final: bool)
    requires !Conflict(stops) && !s.stopped && s.thinking
    ensures SameResult(DrainTwice(parse, stops, s, b, final), Drain(parse, stops, s.Append(b), final))
    decreases |s.pending| + |s.toolBuffer|, s.trimming, 0
  {
    if ThinkingTurn(s, false).Halt? {
      ThinkingResumes(s, b, final);
      ResumesGivesSame(parse, stops, s, b, final);
    } else {
      FindAppend(s.pending, b, THINK_END);
      var at := Find(s.pending, THINK_END).value;
      assert (s.pending + b)[..at] == s.pending[..at];
      assert (s.pending + b)[at + |THINK_END|..] == s.pending[at + |THINK_END|..] + b;
      TurnShrinks(parse, stops, s, false);
      DrainComposes(parse, stops, ThinkingTurn(s, false).state, b, final);
      AgainComposes(parse, stops, s, b, final);
    }
  }

  lemma ToolComposes(parse: ToolParser, stops: seq<string>, s: DecoderState, b: string, final: bool)
    requires !Conflict(stops) && !s.stopped && !s.thinking && s.inToolCall
    ensures SameResult(DrainTwice(parse, stops, s, b, final), Drain(parse, stops, s.Append(b), final))
    decreases |s.pending| + |s.toolBuffer|, s.trimming, 0
  {
    var buffer := s.toolBuffer + s.pending;
    if Find(buffer, TOOL_CALL_END).None? {
      OpenToolComposes(parse, stops, s, b, final);
    } else {
      ClosedToolTurn(parse, s, b);
      if ToolTurn(parse, s).Again? {
        TurnShrinks(parse, stops, s, false);
        DrainComposes(parse, stops, ToolTurn(parse, s).state, b, final);
        AgainComposes(parse, stops, s, b, final);
      }
    }
  }

  lemma OpenToolComposes(parse: ToolParser, stops: seq<string>, s: DecoderState, b: string, final: bool)
    requires !s.stopped && !s.thinking && s.inToolCall && Find(s.toolBuffer + s.pending, TOOL_CALL_END).None?
    ensures SameResult(DrainTwice(parse, stops, s, b, final), Drain(parse, stops, s.Append(b), final))
  {
    hide Find, Trim, Atoms, WinnerIn;
    var s1 := s.(toolBuffer := s.toolBuffer + s.pending, pending := "");
    assert s.toolBuffer + (s.pending + b) == s.toolBuffer + s.pending + ("" + b);
    assert TurnOf(parse, stops, s.Append(b), final) == TurnOf(parse, stops, s1.Append(b), final);
    PrependNothing(Drain(parse, stops, s1.Append(b), final));
  }

  lemma ClosedToolTurn(parse: ToolParser, s: DecoderState, b: string)
    requires Find(s.toolBuffer + s.pending, TOOL_CALL_END).Some?
    ensures var x, y := ToolTurn(parse, s), ToolTurn(parse, s.Append(b));
      if x.Again? then y.Again? && y.events == x.events && y.state == x.state.Append(b) else x.Reject? && y.Reject?
  {
    var buffer := s.toolBuffer + s.pending;
    var at := Find(buffer, TOOL_CALL_END).value;
    assert s.toolBuffer + (s.pending + b) == buffer + b;
    FindAppend(buffer, b, TOOL_CALL_END);
    assert (buffer + b)[..at] == buffer[..at];
    assert (buffer + b)[at + |TOOL_CALL_END|..] == buffer[at + |TOOL_CALL_END|..] + b;
  }

  lemma PrependNothing(r: DrainResult)
    ensures After([], r) == r
  {
    if r.Drained? {
      assert [] + r.events == r.events;
    }
  }

  lemma TrimmingComposes(parse: ToolParser, stops: seq<string>, s: DecoderState, b: string, final: bool)
    requires !Conflict(stops) && !s.stopped && !s.thinking && !s.inToolCall && s.trimming
    ensures SameResult(DrainTwice(parse, stops, s, b, final), Drain(parse, stops, s.Append(b), final))
    decreases |s.pending| + |s.toolBuffer|, s.trimming, 0
  {
    TrimAppend(s.pending, b);
    TrimShrinks(s.pending);
    var s1 := Trimmed(s);
    if s1.trimming {
      assert "" + b == b;
      assert TurnOf(parse, stops, s1.Append(b), final) == TurnOf(parse, stops, s.Append(b), final);
      PrependNothing(Drain(parse, stops, s1.Append(b), final));
    } else {
      assert TurnOf(parse, stops, s1.Append(b), final) == TurnOf(parse, stops, s.Append(b), final);
      assert TurnOf(parse, stops, s1, false) == TurnOf(parse, stops, s, false);
      DrainComposes(parse, stops, s1, b, final);
    }
  }

  lemma TextComposes(parse: ToolParser, stops: seq<string>, s: DecoderState, b: string, final: bool)
    requires !Conflict(stops) && !s.stopped && !s.thinking && !s.inToolCall && !s.trimming
    ensures SameResult(DrainTwice(parse, stops, s, b, final), Drain(parse, stops, s.Append(b), final))
    decreases |s.pending| + |s.toolBuffer|, s.trimming, 0
  {
    if TextTurn(stops, s, false).Halt? {
      TextHalts(parse, stops, s, b, final);
    } else {
      WinnerAppend(s.pending, b, stops);
      var at := WinnerIn(s.pending, stops).at;
      assert (s.pending + b)[..at] == s.pending[..at];
      assert (s.pending + b)[at + |TOOL_CALL_START|..] == s.pending[at + |TOOL_CALL_START|..] + b;
      var s1 := TextTurn(stops, s, false).state;
      ToolModeMerges(parse, stops, s1, b, final);
      TurnShrinks(parse, stops, s, false);
      DrainComposes(parse, stops, s1, b, final);
      AgainComposes(parse, stops, s, b, final);
    }
  }

  // ------------------------------------------------------------------------
  // Whole runs

  /** Pushing chunk by chunk is draining the concatenation, from any state a
      drain can leave behind. */
  lemma {:induction false} PushAllIsOneDrain(parse: ToolParser, stops: seq<string>, s: DecoderState,
                                             chunks: seq<string>)
    requires !Conflict(stops) && SameResult(Drain(parse, stops, s, false), Drained(s, []))
    ensures SameResult(PushAll(parse, stops, s, chunks), Drain(parse, stops, s.Append(Flatten(chunks)), false))
    decreases |chunks|
  {
    if chunks == [] {
      assert s.pending + "" == s.pending;
    } else {
      var first := Push(parse, stops, s, chunks[0]);
      if first.Drained? {
        SettledAfterPush(parse, stops, s, chunks[0]);
        PushAllIsOneDrain(parse, stops, first.state, chunks[1..]);
      }
      PushThenRest(parse, stops, s, chunks[0], Flatten(chunks[1..]),
                   if first.Drained? then PushAll(parse, stops, first.state, chunks[1..]) else first);
    }
  }

  lemma SettledAfterPush(parse: ToolParser, stops: seq<string>, s: DecoderState, c: string)
    requires !Conflict(stops) && SameResult(Drain(parse, stops, s, false), Drained(s, []))
    ensures var r := Push(parse, stops, s, c);
      r.Drained? ==> SameResult(Drain(parse, stops, r.state, false), Drained(r.state, []))
  {
    PushIsDrain(parse, stops, s, c);
    SettledAfterDrain(parse, stops, s.Append(c));
  }

  lemma PushThenRest(parse: ToolParser, stops: seq<string>, s: DecoderState, c: string, rest: string, tail: DrainResult)
    requires !Conflict(stops) && SameResult(Drain(parse, stops, s, false), Drained(s, []))
    requires var first := Push(parse, stops, s, c);
      first.Drained? ==> SameResult(tail, Drain(parse, stops, first.state.Append(rest), false))
    ensures var first := Push(parse, stops, s, c);
      SameResult(if first.Drained? then After(first.events, tail) else first,
                 Drain(parse, stops, s.Append(c + rest), false))
  {
    PushIsDrain(parse, stops, s, c);
    DrainComposes(parse, stops, s.Append(c), rest, false);
    assert (s.pending + c) + rest == s.pending + (c + rest);
    var first, drained := Push(parse, stops, s, c), Drain(parse, stops, s.Append(c), false);
    if first.Drained? {
      SameAfter(first.events, drained.events, tail, Drain(parse, stops, first.state.Append(rest), false));
    }
  }

  lemma SameAfter(a: seq<StreamEvent>, b: seq<StreamEvent>, x: DrainResult, y: DrainResult)
    requires Atoms(a) == Atoms(b) && SameResult(x, y)
    ensures SameResult(After(a, x), After(b, y))
  {
    if x.Drained? {
      AtomsAppend(a, x.events);
      AtomsAppend(b, y.events);
    }
  }

  /** An early return from `push` is what a drain would have done. */
  lemma PushIsDrain(parse: ToolParser, stops: seq<string>, s: DecoderState, c: string)
    requires SameResult(Drain(parse, stops, s, false), Drained(s, []))
    ensures SameResult(Push(parse, stops, s, c), Drain(parse, stops, s.Append(c), false))
  {
    assert s.pending + "" == s.pending;
  }

  /** A drain leaves nothing more to release. */
  lemma SettledAfterDrain(parse: ToolParser, stops: seq<string>, s: DecoderState)
    requires !Conflict(stops)
    ensures var r := Drain(parse, stops, s, false);
      r.Drained? ==> SameResult(Drain(parse, stops, r.state, false), Drained(r.state, []))
  {
    DrainComposes(parse, stops, s, "", false);
    assert s.pending + "" == s.pending;
    var r := Drain(parse, stops, s, false);
    if r.Drained? {
      assert r.state.pending + "" == r.state.pending;
      var again := Drain(parse, stops, r.state, false);
      if again.Drained? {
        AtomsAppend(r.events, again.events);
      }
    }
  }

  lemma StartIsSettled(parse: ToolParser, stops: seq<string>, thinking: bool)
    requires "" !in stops
    ensures Drain(parse, stops, Start(thinking), false) == Drained(Start(thinking), [])
  {
    FindIs("", THINK_END);
    WinnerIs("", stops);
    WatchedOccurs("", stops);
    assert forall w, j :: w in Watched(stops) ==> !OccursAt("", w, j);
  }

  /** Finishing after the drains is finishing after one drain of everything. */
  lemma EndingIsFinalDrain(parse: ToolParser, stops: seq<string>, s: DecoderState, pushed: DrainResult)
    requires !Conflict(stops) && SameResult(pushed, Drain(parse, stops, s, false))
    ensures Ending(parse, stops, pushed) ==
      match Drain(parse, stops, s, true)
      case Rejected(_) => Failed
      case Drained(s', events) => Completed(Atoms(events), FinishOf(s'), s'.stopped)
  {
    hide Conflict, Atoms;
    DrainComposes(parse, stops, s, "", true);
    assert s.pending + "" == s.pending;
    if pushed.Drained? {
      assert pushed.state.pending + "" == pushed.state.pending;
      StoppedIsEmpty(parse, stops, s);
      var drained := Drain(parse, stops, s, false);
      var tail := Flush(parse, stops, pushed.state);
      assert SameResult(tail, Drain(parse, stops, pushed.state, true));
      SameAfter(pushed.events, drained.events, tail, Drain(parse, stops, pushed.state, true));
    }
  }

  lemma {:induction false} StoppedIsEmpty(parse: ToolParser, stops: seq<string>, s: DecoderState)
    ensures var r := Drain(parse, stops, s, false);
      r.Drained? && r.state.stopped ==> r.state.pending == ""
    decreases |s.pending| + |s.toolBuffer|
  {
    if TurnOf(parse, stops, s, false).Again? {
      TurnShrinks(parse, stops, s, false);
      StoppedIsEmpty(parse, stops, TurnOf(parse, stops, s, false).state);
    }
  }

  /** Main result: without interference among the watched strings, every way of
      cutting the text gives what the uncut text gives. */
  lemma RunIsOneShot(parse: ToolParser, stops: seq<string>, thinking: bool, chunks: seq<string>)
    requires !Conflict(KeepNonEmpty(stops))
    ensures Run(parse, stops, thinking, chunks) == OneShot(parse, stops, thinking, Flatten(chunks))
  {
    var kept := KeepNonEmpty(stops);
    StartIsSettled(parse, kept, thinking);
    PushAllIsOneDrain(parse, kept, Start(thinking), chunks);
    EndingIsFinalDrain(parse, kept, Start(thinking).Append(Flatten(chunks)),
                       PushAll(parse, kept, Start(thinking), chunks));
  }

  /** Any two ways of cutting the same text give the same run. */
  ghost predicate IgnoresCuts(run: (bool, seq<string>) -> RunOutcome) {
    forall thinking, chunks, chunks' ::
      Flatten(chunks) == Flatten(chunks') ==> run(thinking, chunks) == run(thinking, chunks')
  }

  function Runs(parse: ToolParser, stops: seq<string>): (bool, seq<string>) -> RunOutcome {
    (thinking, chunks) => Run(parse, stops, thinking, chunks)
  }

  ghost predicate ChunkIndependent(parse: ToolParser, stops: seq<string>) {
    IgnoresCuts(Runs(parse, stops))
  }

  // ------------------------------------------------------------------------
  // The condition is necessary

  lemma FlattenTwo(a: string, b: string)
    ensures Flatten([a]) == a && Flatten([a, b]) == a + b
  {
    assert [a, b][1..] == [b];
    assert a + "" == a && b + "" == b;
    assert Flatten([b]) == b;
  }

  lemma PushAllOne(parse: ToolParser, stops: seq<string>, s: DecoderState, a: string)
    ensures PushAll(parse, stops, s, [a]) == Push(parse, stops, s, a)
  {
    var first := Push(parse, stops, s, a);
    if first.Drained? {
      assert first.events + [] == first.events;
    }
  }

  lemma PushAllTwo(parse: ToolParser, stops: seq<string>, s: DecoderState, a: string, b: string)
    ensures PushAll(parse, stops, s, [a, b]) ==
      var first := Push(parse, stops, s, a);
      if first.Rejected? then first else After(first.events, Push(parse, stops, first.state, b))
  {
    assert [a, b][1..] == [b];
    var first := Push(parse, stops, s, a);
    if first.Drained? {
      PushAllOne(parse, stops, first.state, b);
    }
  }

  /** Text that is itself the opener leaves an open, empty tool call. */
  lemma OpenerAlone(parse: ToolParser, stops: seq<string>)
    ensures Ending(parse, stops, PushAll(parse, stops, Start(false), [TOOL_CALL_START])) == Completed([], Length, false)
  {
    var s := Start(false).Append(TOOL_CALL_START);
    assert s.pending == TOOL_CALL_START;
    WinnerIs(TOOL_CALL_START, stops);
    WatchedOccurs(TOOL_CALL_START, stops);
    assert OccursAt(TOOL_CALL_START, TOOL_CALL_START, 0);
    WinnerUnique(TOOL_CALL_START, stops, ToolAt(0));
    var open := Start(false).(inToolCall := true);
    FindIs("", TOOL_CALL_END);
    assert TurnOf(parse, stops, s, false) == Again(open, []);
    PushAllOne(parse, stops, Start(false), TOOL_CALL_START);
  }

  /** Text that begins with a stop sequence ends at once, with nothing shown. */
  lemma StopAlone(parse: ToolParser, stops: seq<string>, w: string)
    requires w in stops && w != "" && !OccursAt(w, TOOL_CALL_START, 0)
    ensures Push(parse, stops, Start(false), w) == Drained(Start(false).(stopped := true), [])
  {
    var s := Start(false).Append(w);
    assert s.pending == w;
    WatchedOccurs(w, stops);
    assert OccursAt(w, w, 0);
    WinnerUnique(w, stops, StopAt(0));
  }

  /** A first match past the beginning shows the text before it, whatever follows. */
  lemma EarlyMatchShows(parse: ToolParser, stops: seq<string>, x: string, y: string)
    requires !AnyOccursAt(x, Watched(stops), 0) && !WinnerIn(x, stops).NoMatch?
    ensures !ShowsNothing(Ending(parse, stops, PushAll(parse, stops, Start(false), [x, y])))
  {
    WinnerIs(x, stops);
    var at := WinnerIn(x, stops).at;
    var s := Start(false).Append(x);
    assert s.pending == x;
    var shown := TextEvents(x[..at]);
    assert shown == [TextDelta(x[..at])];
    assert TurnOf(parse, stops, s, false).events == shown;
    PushAllTwo(parse, stops, Start(false), x, y);
    var pushed := PushAll(parse, stops, Start(false), [x, y]);
    if pushed.Drained? {
      assert pushed.events[0] == shown[0];
    }
  }

  /** Two different runs of one text, whole and cut in two. */
  ghost predicate Separates(run: (bool, seq<string>) -> RunOutcome, text: string, n: nat) {
    n <= |text| && run(false, [text]) != run(false, [text[..n], text[n..]])
  }

  ghost predicate ShowsNothing(r: RunOutcome) {
    r != Failed && r.atoms == []
  }

  lemma DifferentRuns(run: (bool, seq<string>) -> RunOutcome, text: string, n: nat)
    requires n <= |text| && ShowsNothing(run(false, [text])) && !ShowsNothing(run(false, [text[..n], text[n..]]))
    ensures Separates(run, text, n)
  {
  }

  lemma SeparatedIsDependent(run: (bool, seq<string>) -> RunOutcome, text: string, n: nat)
    requires Separates(run, text, n)
    ensures !IgnoresCuts(run)
  {
    FlattenTwo(text, "");
    FlattenTwo(text[..n], text[n..]);
    assert text[..n] + text[n..] == text;
  }

  lemma PrefixSeparates(parse: ToolParser, stops: seq<string>, w: string)
    requires w in KeepNonEmpty(stops) && ProperPrefix(w, TOOL_CALL_START)
    ensures Separates(Runs(parse, stops), TOOL_CALL_START, |w|)
  {
    var kept := KeepNonEmpty(stops);
    hide Drain, Flush;
    OpenerAlone(parse, kept);
    StopThenAnything(parse, kept, w, TOOL_CALL_START[|w|..]);
  }

  lemma InnerSeparates(parse: ToolParser, stops: seq<string>, w: string, outer: string, o: nat)
    requires var watched := Watched(KeepNonEmpty(stops));
      w in watched && outer in watched && Live(outer, watched) && InsideAt(w, outer, o)
    ensures Separates(Runs(parse, stops), outer, o + |w|)
  {
    hide Runs, Live, Watched, KeepNonEmpty;
    var n: nat := o + |w|;
    CutRun(parse, stops, w, outer, o, n);
    WholeRun(parse, stops, outer);
    DifferentRuns(Runs(parse, stops), outer, n);
  }

  lemma WholeRun(parse: ToolParser, stops: seq<string>, outer: string)
    requires outer in Watched(KeepNonEmpty(stops)) && Live(outer, Watched(KeepNonEmpty(stops)))
    ensures ShowsNothing(Runs(parse, stops)(false, [outer]))
  {
    WholeShowsNothing(parse, KeepNonEmpty(stops), outer);
  }

  lemma CutRun(parse: ToolParser, stops: seq<string>, w: string, outer: string, o: nat, n: nat)
    requires var watched := Watched(KeepNonEmpty(stops));
      w in watched && Live(outer, watched) && InsideAt(w, outer, o) && n == o + |w|
    ensures !ShowsNothing(Runs(parse, stops)(false, [outer[..n], outer[n..]]))
  {
    CutShows(parse, KeepNonEmpty(stops), w, outer, o);
  }

  /** Interfering watched strings are told apart by one text, whole and cut in two. */
  lemma ConflictIsDependent(parse: ToolParser, stops: seq<string>)
    requires Conflict(KeepNonEmpty(stops))
    ensures exists text, n: nat :: Separates(Runs(parse, stops), text, n)
  {
    var kept := KeepNonEmpty(stops);
    if w :| w in kept && ProperPrefix(w, TOOL_CALL_START) {
      PrefixSeparates(parse, stops, w);
    } else {
      var w, outer, o :| w in Watched(kept) && outer in Watched(kept) && Live(outer, Watched(kept))
        && InsideAt(w, outer, o);
      InnerSeparates(parse, stops, w, outer, o);
    }
  }

  lemma StopThenAnything(parse: ToolParser, stops: seq<string>, w: string, y: string)
    requires w in stops && w != "" && !OccursAt(w, TOOL_CALL_START, 0)
    ensures Ending(parse, stops, PushAll(parse, stops, Start(false), [w, y])) == Completed([], Stop, true)
  {
    StopAlone(parse, stops, w);
    PushAllTwo(parse, stops, Start(false), w, y);
  }

  lemma WholeShowsNothing(parse: ToolParser, stops: seq<string>, outer: string)
    requires outer in Watched(stops) && outer != "" && Live(outer, Watched(stops))
    ensures ShowsNothing(Ending(parse, stops, PushAll(parse, stops, Start(false), [outer])))
  {
    if outer == TOOL_CALL_START {
      OpenerAlone(parse, stops);
    } else {
      assert outer in stops;
      if OccursAt(outer, TOOL_CALL_START, 0) && |TOOL_CALL_START| < |outer| {
        assert TOOL_CALL_START == Watched(stops)[0];
        assert ProperPrefix(TOOL_CALL_START, outer);
      }
      assert outer[..|outer|] == outer;
      StopAlone(parse, stops, outer);
      PushAllOne(parse, stops, Start(false), outer);
    }
  }

  lemma CutStartIsNotLive(watched: seq<string>, outer: string, n: nat)
    requires n < |outer| && AnyOccursAt(outer[..n], watched, 0)
    ensures !Live(outer, watched)
  {
    var v :| v in watched && OccursAt(outer[..n], v, 0);
    assert outer[..|v|] == outer[..n][0..|v|];
    assert ProperPrefix(v, outer);
  }

  lemma CutShows(parse: ToolParser, stops: seq<string>, w: string, outer: string, o: nat)
    requires w in Watched(stops) && Live(outer, Watched(stops)) && InsideAt(w, outer, o)
    ensures !ShowsNothing(Ending(parse, stops, PushAll(parse, stops, Start(false),
      [outer[..o + |w|], outer[o + |w|..]])))
  {
    hide Ending, PushAll, ShowsNothing, Watched, Live, WinnerIn, AnyOccursAt;
    CutWins(stops, w, outer, o);
    EarlyMatchShows(parse, stops, outer[..o + |w|], outer[o + |w|..]);
  }

  /** Cut off after the inner match, the text has its first match past the beginning. */
  lemma CutWins(stops: seq<string>, w: string, outer: string, o: nat)
    requires w in Watched(stops) && Live(outer, Watched(stops)) && InsideAt(w, outer, o)
    ensures var x := outer[..o + |w|]; !AnyOccursAt(x, Watched(stops), 0) && !WinnerIn(x, stops).NoMatch?
  {
    hide Watched, Live, WinnerIn;
    var x := outer[..o + |w|];
    CutOccurs(w, outer, o);
    WinnerIs(x, stops);
    if AnyOccursAt(x, Watched(stops), 0) {
      CutStartIsNotLive(Watched(stops), outer, o + |w|);
    }
    assert AnyOccursAt(x, Watched(stops), o);
  }

  lemma CutOccurs(w: string, outer: string, o: nat)
    requires OccursAt(outer, w, o)
    ensures OccursAt(outer[..o + |w|], w, o)
  {
  }

  /** Exactly when the stream does not depend on how its text was cut. */
  lemma ChunkIndependentIffNoConflict(parse: ToolParser, stops: seq<string>)
    ensures ChunkIndependent(parse, stops) <==> !Conflict(KeepNonEmpty(stops))
  {
    if Conflict(KeepNonEmpty(stops)) {
      ConflictIsDependent(parse, stops);
      var run := Runs(parse, stops);
      var text, n: nat :| Separates(run, text, n);
      SeparatedIsDependent(run, text, n);
    } else {
      NoConflictIsIndependent(parse, stops);
    }
  }

  lemma NoConflictIsIndependent(parse: ToolParser, stops: seq<string>)
    requires !Conflict(KeepNonEmpty(stops))
    ensures ChunkIndependent(parse, stops)
  {
    forall thinking, chunks, chunks' | Flatten(chunks) == Flatten(chunks')
      ensures Runs(parse, stops)(thinking, chunks) == Runs(parse, stops)(thinking, chunks')
    {
      RunIsOneShot(parse, stops, thinking, chunks);
      RunIsOneShot(parse, stops, thinking, chunks');
    }
  }

  /** The smallest instance: stops "abc" and "b". */
  lemma NestedStopsDependOnChunks(parse: ToolParser)
    ensures !ChunkIndependent(parse, ["abc", "b"])
  {
    var stops := ["abc", "b"];
    assert KeepNonEmpty(stops) == stops by {
      assert stops[1..] == ["b"] && ["b"][1..] == [];
      assert KeepNonEmpty(["b"]) == ["b"];
    }
    assert Watched(stops)[1] == "abc" && Watched(stops)[2] == "b";
    assert Watched(stops) == [TOOL_CALL_START, "abc", "b"];
    assert OccursAt("abc", "b", 1);
    assert InsideAt("b", "abc", 1);
    assert Live("abc", Watched(stops)) by {
      assert "abc"[..|"b"|][0] == 'a';
    }
    ChunkIndependentIffNoConflict(parse, stops);
  }

  // ------------------------------------------------------------------------
  // What is held back

  predicate Ends(t: string, whole: string) {
    |t| <= |whole| && whole[|whole| - |t|..] == t
  }

  lemma EndsTwice(t: string, part: string, whole: string)
    requires Ends(t, part) && Ends(part, whole)
    ensures Ends(t, whole)
  {
    assert whole[|whole| - |t|..] == whole[|whole| - |part|..][|part| - |t|..];
  }

  /** The text the last turn of a drain looks at: all there is since the last
      delimiter, without the newlines dropped after `</think>`. */
  function LastText(parse: ToolParser, stops: seq<string>, s: DecoderState): string
    decreases |s.pending| + |s.toolBuffer|
  {
    match TurnOf(parse, stops, s, false)
    case Again(s', _) =>
      TurnShrinks(parse, stops, s, false);
      LastText(parse, stops, s')
    case Halt(_, _) => if s.thinking then s.pending else Trimmed(s).pending
    case Reject(_) => ""
  }

  function WatchedIn(stops: seq<string>, s: DecoderState): seq<string> {
    if s.thinking then [THINK_END] else Watched(stops)
  }

  /** A buffered tool call is kept only while inside one. */
  predicate Tidy(s: DecoderState) {
    s.toolBuffer == "" || (s.inToolCall && !s.thinking)
  }

  function Released(s: DecoderState, t: string): seq<StreamEvent> {
    if s.thinking then ReasoningEvents(t) else TextEvents(t)
  }

  ghost predicate EndWith(events: seq<StreamEvent>, last: seq<StreamEvent>) {
    exists front :: events == front + last
  }

  lemma EndWithLast(front: seq<StreamEvent>, last: seq<StreamEvent>)
    ensures EndWith(front + last, last)
  {
  }

  lemma EndWithItself(events: seq<StreamEvent>)
    ensures EndWith(events, events)
  {
    assert events == [] + events;
    EndWithLast([], events);
  }

  /** All of `t` but its longest suffix that may still grow into a delimiter has
      been released, and that suffix, no more and no less, is pending. */
  ghost predicate HeldExactly(stops: seq<string>, s: DecoderState, events: seq<StreamEvent>, t: string) {
    var cut := |t| - Hold(t, WatchedIn(stops, s));
    && (t == "" || FindAny(t, WatchedIn(stops, s)).None?)
    && s.pending == t[cut..]
    && EndWith(events, Released(s, t[..cut]))
  }

  /** How a drain may leave the text it looked at last. */
  ghost predicate LeavesTheHold(stops: seq<string>, s: DecoderState, events: seq<StreamEvent>, t: string) {
    if s.stopped || (s.inToolCall && !s.thinking) then s.pending == "" else HeldExactly(stops, s, events, t)
  }

  /** After every drain that leaves the decoder thinking or showing text, exactly
      the hold of the text since the last delimiter is pending, and the rest of it
      has been released. That text is the end of what the drain was given. */
  lemma {:induction false} PendingIsExactlyTheHold(parse: ToolParser, stops: seq<string>, s: DecoderState)
    ensures var r := Drain(parse, stops, s, false);
      r.Drained? ==> LeavesTheHold(stops, r.state, r.events, LastText(parse, stops, s))
    ensures Tidy(s) ==> Ends(LastText(parse, stops, s), s.toolBuffer + s.pending)
    decreases |s.pending| + |s.toolBuffer|
  {
    hide LeavesTheHold, HeldExactly, Tidy, Ends, Hold, FindAny, Find, WinnerIn, Trimmed, ThinkingTurn, ToolTurn,
         TextTurn;
    match TurnOf(parse, stops, s, false)
    case Again(s', events) =>
      TurnShrinks(parse, stops, s, false);
      PendingIsExactlyTheHold(parse, stops, s');
      var r := Drain(parse, stops, s', false);
      if r.Drained? {
        HeldAfter(stops, r.state, events, r.events, LastText(parse, stops, s'));
      }
      if Tidy(s) {
        RestEnds(parse, stops, s);
        EndsTwice(LastText(parse, stops, s'), s'.toolBuffer + s'.pending, s.toolBuffer + s.pending);
      }
    case Reject(_) =>
      EmptyEnds(s.toolBuffer + s.pending);
    case Halt(s', events) =>
      HaltHolds(parse, stops, s);
      HaltEnds(parse, stops, s);
  }

  lemma EmptyEnds(whole: string)
    ensures Ends("", whole)
  {
  }

  lemma SuffixEnds(whole: string, from: nat)
    requires from <= |whole|
    ensures Ends(whole[from..], whole)
  {
  }

  lemma PartEnds(front: string, part: string, t: string)
    requires Ends(t, part)
    ensures Ends(t, front + part)
  {
    SuffixEnds(front + part, |front|);
    assert (front + part)[|front|..] == part;
    EndsTwice(t, part, front + part);
  }

  lemma TrimmedEnds(s: DecoderState)
    ensures Ends(Trimmed(s).pending, s.pending)
  {
    hide Ends;
    TrimEnds(s.pending);
    SuffixEnds(s.pending, 0);
  }

  lemma TrimEnds(t: string)
    ensures Ends(TrimLeadingNewlines(t), t)
  {
    if TrimLeadingNewlines(t) != t {
      TrimEnds(t[1..]);
      EndsTwice(TrimLeadingNewlines(t), t[1..], t);
    }
  }

  /** What a turn leaves to the next is the end of what it was given. */
  lemma RestEnds(parse: ToolParser, stops: seq<string>, s: DecoderState)
    requires Tidy(s) && TurnOf(parse, stops, s, false).Again?
    ensures var s' := TurnOf(parse, stops, s, false).state;
      Tidy(s') && Ends(s'.toolBuffer + s'.pending, s.toolBuffer + s.pending)
  {
    hide Hold, FindAny, Find, TrimLeadingNewlines, Trim, Ends;
    var s' := TurnOf(parse, stops, s, false).state;
    var whole := s.toolBuffer + s.pending;
    if s.thinking {
      var at := Find(s.pending, THINK_END).value;
      SuffixEnds(s.pending, at + |THINK_END|);
      assert whole == s.pending && s'.toolBuffer + s'.pending == s.pending[at + |THINK_END|..];
    } else if s.inToolCall {
      var at := Find(whole, TOOL_CALL_END).value;
      SuffixEnds(whole, at + |TOOL_CALL_END|);
      assert s'.toolBuffer + s'.pending == whole[at + |TOOL_CALL_END|..];
    } else {
      TrimmedEnds(s);
      var t := Trimmed(s).pending;
      var from := WinnerIn(t, stops).at + |TOOL_CALL_START|;
      SuffixEnds(t, from);
      assert s'.toolBuffer + s'.pending == t[from..] && whole == s.pending;
      EndsTwice(t[from..], t, whole);
    }
  }

  lemma HaltEnds(parse: ToolParser, stops: seq<string>, s: DecoderState)
    requires TurnOf(parse, stops, s, false).Halt?
    ensures Ends(LastText(parse, stops, s), s.toolBuffer + s.pending)
  {
    hide Ends, Trimmed, ThinkingTurn, ToolTurn,
         TextTurn;
    TrimmedEnds(s);
    SuffixEnds(s.pending, 0);
    assert s.pending[0..] == s.pending;
    PartEnds(s.toolBuffer, s.pending, LastText(parse, stops, s));
  }

  lemma HeldAfter(stops: seq<string>, s: DecoderState, earlier: seq<StreamEvent>, events: seq<StreamEvent>, t: string)
    requires LeavesTheHold(stops, s, events, t)
    ensures LeavesTheHold(stops, s, earlier + events, t)
  {
    hide Hold, FindAny;
    if HeldExactly(stops, s, events, t) {
      var last := Released(s, t[..|t| - Hold(t, WatchedIn(stops, s))]);
      var front :| events == front + last;
      assert earlier + events == (earlier + front) + last;
      EndWithLast(earlier + front, last);
    }
  }

  lemma HaltHolds(parse: ToolParser, stops: seq<string>, s: DecoderState)
    requires TurnOf(parse, stops, s, false).Halt?
    ensures var turn := TurnOf(parse, stops, s, false);
      LeavesTheHold(stops, turn.state, turn.events, LastText(parse, stops, s))
  {
    hide Hold, FindAny, Find, WinnerIn, TrimLeadingNewlines, HeldExactly, WatchedIn, Released;
    if s.stopped {
    } else if s.thinking {
      ThinkingHolds(stops, s);
    } else if !s.inToolCall {
      TextHolds(stops, Trimmed(s));
    }
  }

  lemma ThinkingHolds(stops: seq<string>, s: DecoderState)
    requires s.thinking && ThinkingTurn(s, false).Halt?
    ensures var turn := ThinkingTurn(s, false); HeldExactly(stops, turn.state, turn.events, s.pending)
  {
    hide Hold, FindAny, Find, EndWith;
    OneWatched(s.pending, THINK_END);
    EndWithItself(ThinkingTurn(s, false).events);
  }

  lemma TextHolds(stops: seq<string>, s: DecoderState)
    requires !s.thinking
    ensures s.pending == "" ==> HeldExactly(stops, s, [], s.pending)
    ensures var turn := TextTurn(stops, s, false);
      turn.Halt? && !turn.state.stopped ==> HeldExactly(stops, turn.state, turn.events, s.pending)
  {
    hide Hold, FindAny, Find, WinnerIn, EndWith;
    NoMatchMeansNone(s.pending, stops);
    HoldOfNothing(Watched(stops));
    EndWithItself([]);
    if TextTurn(stops, s, false).Halt? {
      EndWithItself(TextTurn(stops, s, false).events);
    }
  }

  lemma OneWatched(t: string, w: string)
    ensures FindAny(t, [w]) == Find(t, w)
  {
    assert [w][1..] == [];
  }

  lemma HoldOfNothing(watched: seq<string>)
    ensures Hold("", watched) == 0
  {
  }

  /** What a client has been sent is never retracted: whatever text follows, the
      atoms delivered so far begin the atoms of the whole. */
  lemma NothingIsRetracted(parse: ToolParser, stops: seq<string>, s: DecoderState, b: string, final: bool)
    requires !Conflict(stops)
    ensures var sent, whole := Drain(parse, stops, s, false), Drain(parse, stops, s.Append(b), final);
      whole.Drained? ==> sent.Drained? && Atoms(sent.events) <= Atoms(whole.events)
  {
    DrainComposes(parse, stops, s, b, final);
    var sent := Drain(parse, stops, s, false);
    if sent.Drained? {
      var rest := Drain(parse, stops, sent.state.Append(b), final);
      if rest.Drained? {
        AtomsAppend(sent.events, rest.events);
      }
    }
  }
}
