/** Splitting text into lexical tokens, and identifiers into their parts. */
module Tokens {
  import opened Wrappers

  /** The character classes the splitter asks about; ASCII digits are fixed. */
  datatype CharTables = CharTables(upper: char -> bool, lower: char -> bool, alphanumeric: char -> bool)

  predicate AsciiDigit(c: char) {
    '0' <= c <= '9'
  }

  function AsciiLower(c: char): char {
    if 'A' <= c <= 'Z' then (c as int + 32) as char else c
  }

  function Lowercase(s: string): (r: string)
    ensures |r| == |s|
  {
    seq(|s|, i requires 0 <= i < |s| => AsciiLower(s[i]))
  }

  function Concat(parts: seq<string>): string {
    if parts == [] then "" else Concat(parts[..|parts| - 1]) + parts[|parts| - 1]
  }

  function Keep(s: string, p: char -> bool): string {
    if s == "" then "" else Keep(s[..|s| - 1], p) + if p(s[|s| - 1]) then [s[|s| - 1]] else ""
  }

  /** Finished parts, and the part being built. */
  datatype Parts = Parts(parts: seq<string>, current: string)
  {
    function Flush(): Parts {
      if current == "" then this else Parts(parts + [current], "")
    }

    function Push(c: char): Parts {
      Parts(parts, current + [c])
    }
  }

  /** Everything collected so far. */
  function Whole(p: Parts): string {
    Concat(p.parts) + p.current
  }

  ghost predicate AllFull(parts: seq<string>) {
    forall i :: 0 <= i < |parts| ==> parts[i] != ""
  }

  lemma FlushKeeps(p: Parts)
    ensures Whole(p.Flush()) == Whole(p) && p.Flush().current == ""
    ensures AllFull(p.parts) ==> AllFull(p.Flush().parts)
    ensures Concat(p.Flush().parts) == Whole(p)
  {
    if p.current != "" {
      assert (p.parts + [p.current])[..|p.parts|] == p.parts;
    }
  }

  lemma PushAdds(p: Parts, c: char)
    ensures Whole(p.Push(c)) == Whole(p) + [c]
  {
    hide Concat;
  }

  // ------------------------------------------------------------------------
  // Runs of characters

  /** Which positions of a text belong to a run at all, and which continue the run
      of the character before. */
  datatype Runs = Runs(inside: int -> bool, joined: int -> bool)

  /** Only positions inside are joined, and only to positions inside. */
  ghost predicate Sound(s: string, r: Runs) {
    forall k :: 0 < k < |s| && r.joined(k) ==> r.inside(k - 1) && r.inside(k)
  }

  /** `token` stands at `from` and is a whole run: joined throughout, and at neither end. */
  ghost predicate RunAt(s: string, r: Runs, token: string, from: nat) {
    var to := from + |token|;
    && from < to <= |s| && s[from..to] == token
    && (forall k :: from <= k < to ==> r.inside(k))
    && (forall k :: from < k < to ==> r.joined(k))
    && !(0 < from && r.joined(from)) && !(to < |s| && r.joined(to))
  }

  /** Each token is a whole run of `s`, one after the other. */
  ghost predicate AreRuns(s: string, r: Runs, tokens: seq<string>, starts: seq<nat>) {
    && |starts| == |tokens|
    && (forall i :: 0 <= i < |tokens| ==> RunAt(s, r, tokens[i], starts[i]))
    && (forall i, j :: 0 <= i < j < |tokens| ==> starts[i] + |tokens[i]| <= starts[j])
  }

  /** The part being built is what came last of `s[..n]`, and may still go on. */
  ghost predicate OpenRun(s: string, n: nat, r: Runs, current: string) {
    && |current| <= n <= |s| && s[n - |current|..n] == current
    && (forall k :: n - |current| <= k < n ==> r.inside(k))
    && (forall k :: n - |current| < k < n ==> r.joined(k))
    && !(0 < n - |current| < |s| && r.joined(n - |current|))
  }

  /** `p` is what has been collected of `s[..n]`. */
  ghost predicate Collected(s: string, n: nat, r: Runs, p: Parts, starts: seq<nat>) {
    && AreRuns(s, r, p.parts, starts)
    && OpenRun(s, n, r, p.current)
    && forall i :: 0 <= i < |starts| ==> starts[i] + |p.parts[i]| <= n - |p.current|
  }

  /** Where the parts start once the one being built is finished. */
  function Starts(starts: seq<nat>, n: nat, p: Parts): seq<nat>
    requires |p.current| <= n
  {
    if p.current == "" then starts else starts + [n - |p.current|]
  }

  lemma OneMoreRun(s: string, r: Runs, tokens: seq<string>, starts: seq<nat>, token: string, from: nat)
    requires AreRuns(s, r, tokens, starts) && RunAt(s, r, token, from)
    requires forall i :: 0 <= i < |tokens| ==> starts[i] + |tokens[i]| <= from
    ensures AreRuns(s, r, tokens + [token], starts + [from])
  {
    hide RunAt;
  }

  lemma OpenRunEnds(s: string, n: nat, r: Runs, current: string)
    requires OpenRun(s, n, r, current) && current != "" && !(0 < n < |s| && r.joined(n))
    ensures RunAt(s, r, current, n - |current|)
  {
  }

  lemma FlushCollects(s: string, n: nat, r: Runs, p: Parts, starts: seq<nat>)
    requires Collected(s, n, r, p, starts) && !(0 < n < |s| && r.joined(n))
    ensures Collected(s, n, r, p.Flush(), Starts(starts, n, p))
  {
    hide RunAt;
    if p.current != "" {
      OpenRunEnds(s, n, r, p.current);
      OneMoreRun(s, r, p.parts, starts, p.current, n - |p.current|);
    }
  }

  lemma OpenRunGrows(s: string, n: nat, r: Runs, current: string)
    requires n < |s| && OpenRun(s, n, r, current) && r.inside(n) && (current == "" || r.joined(n))
    ensures OpenRun(s, n + 1, r, current + [s[n]])
  {
    var from := n - |current|;
    assert s[from..n + 1] == s[from..n] + [s[n]];
    forall k | from <= k < n + 1 ensures r.inside(k) && (from < k ==> r.joined(k)) {
      if k == n {
        assert from < k ==> current != "";
      }
    }
  }

  lemma PushCollects(s: string, n: nat, r: Runs, p: Parts, starts: seq<nat>)
    requires n < |s| && Collected(s, n, r, p, starts) && r.inside(n) && (p.current == "" || r.joined(n))
    ensures Collected(s, n + 1, r, p.Push(s[n]), starts)
  {
    hide AreRuns, OpenRun;
    OpenRunGrows(s, n, r, p.current);
  }

  lemma SkipCollects(s: string, n: nat, r: Runs, p: Parts, starts: seq<nat>)
    requires n < |s| && Sound(s, r) && Collected(s, n, r, p, starts) && !r.inside(n)
    ensures Collected(s, n + 1, r, p.Flush(), Starts(starts, n, p))
  {
    FlushCollects(s, n, r, p, starts);
  }

  lemma NoneCollected(s: string, r: Runs)
    ensures Collected(s, 0, r, Parts([], ""), [])
  {
  }

  // ------------------------------------------------------------------------
  // Raw tokens

  predicate WordChar(t: CharTables, c: char) {
    t.alphanumeric(c) || c == '_'
  }

  function RawParts(t: CharTables, text: string): Parts {
    if text == "" then Parts([], "")
    else
      var before := RawParts(t, text[..|text| - 1]);
      var c := text[|text| - 1];
      if WordChar(t, c) then before.Push(c) else before.Flush()
  }

  /** Splits on everything that is neither alphanumeric nor an underscore. */
  function SplitRawTokens(t: CharTables, text: string): seq<string> {
    RawParts(t, text).Flush().parts
  }

  ghost predicate Words(t: CharTables, tokens: seq<string>) {
    forall i :: 0 <= i < |tokens| ==> tokens[i] != "" && forall j :: 0 <= j < |tokens[i]| ==> WordChar(t, tokens[i][j])
  }

  ghost predicate WordsAndPart(t: CharTables, p: Parts) {
    Words(t, p.parts) && forall j :: 0 <= j < |p.current| ==> WordChar(t, p.current[j])
  }

  lemma {:induction false} RawPartsAre(t: CharTables, text: string)
    ensures var p := RawParts(t, text);
      WordsAndPart(t, p) && Whole(p) == Keep(text, c => WordChar(t, c))
  {
    hide Whole, WordsAndPart, WordChar, Parts.Flush, Parts.Push;
    if text == "" {
      NothingCollected(t);
    } else {
      RawPartsAre(t, text[..|text| - 1]);
      var before := RawParts(t, text[..|text| - 1]);
      FlushKeeps(before);
      PushAdds(before, text[|text| - 1]);
      WordsGrow(t, before, text[|text| - 1]);
    }
  }

  lemma NothingCollected(t: CharTables)
    ensures Whole(Parts([], "")) == "" && WordsAndPart(t, Parts([], ""))
  {
  }

  lemma WordsGrow(t: CharTables, p: Parts, c: char)
    requires WordsAndPart(t, p)
    ensures WordsAndPart(t, p.Flush()) && (WordChar(t, c) ==> WordsAndPart(t, p.Push(c)))
  {
    hide WordChar;
  }

  /** Tokens are non-empty words, and together they are the text's word
      characters in order. */
  function WordRuns(t: CharTables, text: string): Runs {
    Runs(k => 0 <= k < |text| && (t.alphanumeric(text[k]) || text[k] == '_'),
         k => 0 < k < |text| && (t.alphanumeric(text[k - 1]) || text[k - 1] == '_')
              && (t.alphanumeric(text[k]) || text[k] == '_'))
  }

  lemma {:induction false} RawPartsCollect(t: CharTables, text: string, n: nat) returns (starts: seq<nat>)
    requires n <= |text|
    ensures Collected(text, n, WordRuns(t, text), RawParts(t, text[..n]), starts)
  {
    hide Collected;
    var r := WordRuns(t, text);
    starts := [];
    if n == 0 {
      NoneCollected(text, r);
    } else {
      assert text[..n][..n - 1] == text[..n - 1];
      starts := RawPartsCollect(t, text, n - 1);
      var before := RawParts(t, text[..n - 1]);
      OpenRunIs(text, n - 1, r, before, starts);
      if WordChar(t, text[n - 1]) {
        PushCollects(text, n - 1, r, before, starts);
      } else {
        SkipCollects(text, n - 1, r, before, starts);
        starts := Starts(starts, n - 1, before);
      }
    }
  }

  lemma OpenRunIs(s: string, n: nat, r: Runs, p: Parts, starts: seq<nat>)
    requires Collected(s, n, r, p, starts)
    ensures |p.current| <= n <= |s|
    ensures p.current != "" ==> n > 0 && r.inside(n - 1) && p.current[|p.current| - 1] == s[n - 1]
  {
    hide AreRuns;
    if p.current != "" {
      assert s[n - |p.current|..n][|p.current| - 1] == s[n - 1];
    }
  }

  lemma LastFlush(s: string, r: Runs, p: Parts, starts: seq<nat>)
    requires Collected(s, |s|, r, p, starts)
    ensures |p.current| <= |s| && AreRuns(s, r, p.Flush().parts, Starts(starts, |s|, p))
  {
    FlushCollects(s, |s|, r, p, starts);
  }

  /** Main result: the tokens are the text's words, each a run of word characters
      between characters that are none, in order, and together they are all of its
      word characters. */
  lemma RawTokensAreTheWords(t: CharTables, text: string) returns (starts: seq<nat>)
    ensures Words(t, SplitRawTokens(t, text))
    ensures Concat(SplitRawTokens(t, text)) == Keep(text, c => WordChar(t, c))
    ensures AreRuns(text, WordRuns(t, text), SplitRawTokens(t, text), starts)
  {
    hide Keep, Concat, RawParts, Whole, WordChar, Words, AreRuns, Collected;
    RawPartsAre(t, text);
    FlushKeeps(RawParts(t, text));
    WordsGrow(t, RawParts(t, text), ' ');
    assert text[..|text|] == text;
    starts := RawPartsCollect(t, text, |text|);
    LastFlush(text, WordRuns(t, text), RawParts(t, text), starts);
    starts := Starts(starts, |text|, RawParts(t, text));
  }

  // ------------------------------------------------------------------------
  // Identifier parts

  /** The last byte of a character's UTF-8 form, read back as a character
      (section 3 of RFC 3629). */
  function LastByte(c: char): char {
    if c as int < 0x80 then c else (0x80 + c as int % 64) as char
  }

  /** Whether a part ends before `c`, given the character before and after. */
  predicate Boundary(t: CharTables, before: char, c: char, after: Option<char>) {
    var prev := LastByte(before);
    || ((t.lower(prev) || AsciiDigit(prev)) && t.upper(c))
    || (t.upper(prev) && t.upper(c) && after.Some? && t.lower(after.value))
    || AsciiDigit(prev) != AsciiDigit(c)
  }

  /** The parts of the first `n` characters; `raw` is there for the lookahead. */
  function IdentifierParts(t: CharTables, raw: string, n: nat): Parts
    requires n <= |raw|
  {
    if n == 0 then Parts([], "") else IdentifierStep(t, raw, n - 1, IdentifierParts(t, raw, n - 1))
  }

  function IdentifierStep(t: CharTables, raw: string, i: nat, p: Parts): Parts
    requires i < |raw|
  {
    var c := raw[i];
    if c == '_' then p.Flush()
    else if p.current != ""
            && Boundary(t, p.current[|p.current| - 1], c, if i + 1 < |raw| then Some(raw[i + 1]) else None)
    then p.Flush().Push(c)
    else p.Push(c)
  }

  method SplitIdentifier(t: CharTables, raw: string) returns (parts: seq<string>)
    ensures parts == IdentifierParts(t, raw, |raw|).Flush().parts
  {
    parts := [];
    var current := "";
    for i := 0 to |raw|
      invariant Parts(parts, current) == IdentifierParts(t, raw, i)
    {
      var c := raw[i];
      if c == '_' {
        if current != "" {
          parts, current := parts + [current], "";
        }
      } else {
        var boundary := current != ""
          && Boundary(t, current[|current| - 1], c, if i + 1 < |raw| then Some(raw[i + 1]) else None);
        if boundary {
          parts, current := parts + [current], "";
        }
        current := current + [c];
      }
    }
    if current != "" {
      parts := parts + [current];
    }
  }

  /** Splitting an identifier loses nothing but its underscores. */
  lemma {:induction false} IdentifierPartsAre(t: CharTables, raw: string, n: nat)
    requires n <= |raw|
    ensures var p := IdentifierParts(t, raw, n);
      AllFull(p.parts) && Whole(p) == Keep(raw[..n], c => c != '_')
  {
    hide Whole, Boundary, AllFull, Parts.Flush, Concat;
    if n == 0 {
      NothingCollected(t);
      NoPartsAreFull();
    } else {
      IdentifierPartsAre(t, raw, n - 1);
      var p := IdentifierParts(t, raw, n - 1);
      FlushKeeps(p);
      PushAdds(p, raw[n - 1]);
      PushAdds(p.Flush(), raw[n - 1]);
      assert raw[..n][..n - 1] == raw[..n - 1];
    }
  }

  lemma NoPartsAreFull()
    ensures AllFull([])
  {
  }

  lemma SplittingLosesOnlyUnderscores(t: CharTables, raw: string)
    ensures var parts := IdentifierParts(t, raw, |raw|).Flush().parts;
      Concat(parts) == Keep(raw, c => c != '_') && forall i :: 0 <= i < |parts| ==> parts[i] != ""
  {
    hide Keep, Concat, IdentifierParts, Whole, Parts.Flush;
    IdentifierPartsAre(t, raw, |raw|);
    assert raw[..|raw|] == raw;
    FlushKeeps(IdentifierParts(t, raw, |raw|));
  }

  /** A part of an identifier goes on where there is neither an underscore nor a boundary. */
  function PartRuns(t: CharTables, raw: string): Runs {
    Runs(k => 0 <= k < |raw| && raw[k] != '_',
         k => 0 < k < |raw| && raw[k - 1] != '_' && raw[k] != '_'
              && !Boundary(t, raw[k - 1], raw[k], if k + 1 < |raw| then Some(raw[k + 1]) else None))
  }

  lemma {:induction false} IdentifierPartsCollect(t: CharTables, raw: string, n: nat) returns (starts: seq<nat>)
    requires n <= |raw|
    ensures Collected(raw, n, PartRuns(t, raw), IdentifierParts(t, raw, n), starts)
  {
    hide Collected, Boundary, Parts.Flush, Parts.Push;
    var r := PartRuns(t, raw);
    starts := [];
    if n == 0 {
      NoneCollected(raw, r);
    } else {
      starts := IdentifierPartsCollect(t, raw, n - 1);
      var before := IdentifierParts(t, raw, n - 1);
      OpenRunIs(raw, n - 1, r, before, starts);
      if raw[n - 1] == '_' {
        SkipCollects(raw, n - 1, r, before, starts);
        starts := Starts(starts, n - 1, before);
      } else if before.current != "" && !r.joined(n - 1) {
        FlushCollects(raw, n - 1, r, before, starts);
        starts := Starts(starts, n - 1, before);
        FlushKeeps(before);
        PushCollects(raw, n - 1, r, before.Flush(), starts);
      } else {
        PushCollects(raw, n - 1, r, before, starts);
      }
    }
  }

  /** Main result: an identifier is cut exactly at its underscores and its
      boundaries: no part contains one, and every part ends at one on each side. */
  lemma IdentifierCuts(t: CharTables, raw: string) returns (starts: seq<nat>)
    ensures AreRuns(raw, PartRuns(t, raw), IdentifierParts(t, raw, |raw|).Flush().parts, starts)
  {
    hide IdentifierParts, Boundary, AreRuns, Collected;
    starts := IdentifierPartsCollect(t, raw, |raw|);
    LastFlush(raw, PartRuns(t, raw), IdentifierParts(t, raw, |raw|), starts);
    starts := Starts(starts, |raw|, IdentifierParts(t, raw, |raw|));
  }

  predicate MaySplit(t: CharTables, raw: string) {
    exists i :: 0 <= i < |raw| && (raw[i] == '_' || t.upper(raw[i]) || AsciiDigit(raw[i]))
  }

  /** Without an underscore, an uppercase character or a digit there is no boundary. */
  lemma {:induction false} OnePart(t: CharTables, raw: string, n: nat)
    requires n <= |raw| && !MaySplit(t, raw)
    ensures IdentifierParts(t, raw, n) == Parts([], raw[..n])
  {
    if n != 0 {
      OnePart(t, raw, n - 1);
      assert raw[n - 1] != '_' && !t.upper(raw[n - 1]) && !AsciiDigit(raw[n - 1]);
      if n > 1 {
        assert !AsciiDigit(raw[n - 2]);
      }
      assert raw[..n] == raw[..n - 1] + [raw[n - 1]];
    }
  }

  // ------------------------------------------------------------------------
  // The token stream

  function LowerAll(parts: seq<string>): (r: seq<string>)
    ensures |r| == |parts|
  {
    seq(|parts|, i requires 0 <= i < |parts| => Lowercase(parts[i]))
  }

  /** The tokens of one raw token, always splitting it. */
  function TokensOfOne(t: CharTables, raw: string): seq<string> {
    if raw == "" then []
    else
      var parts := IdentifierParts(t, raw, |raw|).Flush().parts;
      [Lowercase(raw)] + if |parts| > 1 then LowerAll(parts) else []
  }

  function TokensOf(t: CharTables, raws: seq<string>): seq<string> {
    if raws == [] then [] else TokensOf(t, raws[..|raws| - 1]) + TokensOfOne(t, raws[|raws| - 1])
  }

  function Tokenize(t: CharTables, text: string): seq<string> {
    TokensOf(t, SplitRawTokens(t, text))
  }

  lemma TokensSnoc(t: CharTables, raws: seq<string>, i: nat)
    requires i < |raws|
    ensures TokensOf(t, raws[..i + 1]) == TokensOf(t, raws[..i]) + TokensOfOne(t, raws[i])
  {
    hide TokensOfOne;
    assert raws[..i + 1][..i] == raws[..i];
  }

  /** The tokens of one raw token, splitting it only if it may split. */
  method AppendRaw(t: CharTables, before: seq<string>, raw: string) returns (tokens: seq<string>)
    ensures tokens == before + TokensOfOne(t, raw)
  {
    hide IdentifierParts, MaySplit, Lowercase, LowerAll;
    tokens := before;
    if raw != "" {
      tokens := tokens + [Lowercase(raw)];
      if !MaySplit(t, raw) {
        OnePart(t, raw, |raw|);
      } else {
        var parts := SplitIdentifier(t, raw);
        if |parts| > 1 {
          tokens := AppendLowered(tokens, parts);
        }
      }
    }
  }

  /** Passing over tokens that cannot split changes no token stream. */
  method TokenizeRaw(t: CharTables, raws: seq<string>) returns (tokens: seq<string>)
    ensures tokens == TokensOf(t, raws)
  {
    hide TokensOfOne;
    tokens := [];
    for i := 0 to |raws|
      invariant tokens == TokensOf(t, raws[..i])
    {
      TokensSnoc(t, raws, i);
      tokens := AppendRaw(t, tokens, raws[i]);
    }
    assert raws[..|raws|] == raws;
  }

  method AppendLowered(tokens: seq<string>, parts: seq<string>) returns (r: seq<string>)
    ensures r == tokens + LowerAll(parts)
  {
    r := tokens;
    for i := 0 to |parts|
      invariant r == tokens + LowerAll(parts)[..i]
    {
      r := r + [Lowercase(parts[i])];
    }
  }
}
