/** Identifiers as they are written, in snake, camel, Pascal and screaming case with
    acronyms and numbers, against what the splitter makes of them; and what terms
    an index keeps of a text. */
module Naming {
  import opened Wrappers
  import opened Tokens

  // ------------------------------------------------------------------------
  // Letters

  const CAPITALS := "ABCDEFGHIJKLMNOPQRSTUVWXYZ"
  const SMALLS := "abcdefghijklmnopqrstuvwxyz"
  const DIGITS := "0123456789"

  predicate IsCapital(c: char) {
    c in CAPITALS
  }

  predicate IsSmall(c: char) {
    c in SMALLS
  }

  predicate IsDigit(c: char) {
    c in DIGITS
  }

  lemma InRow(letters: string, first: char, c: char)
    requires forall k :: 0 <= k < |letters| ==> letters[k] as int == first as int + k
    ensures c in letters <==> first as int <= c as int < first as int + |letters|
  {
    if first as int <= c as int < first as int + |letters| {
      assert letters[c as int - first as int] == c;
    }
  }

  lemma CapitalIs(c: char)
    ensures IsCapital(c) <==> 'A' <= c <= 'Z'
  {
    var letters := CAPITALS;
    InRow(letters, 'A', c);
  }

  lemma SmallIs(c: char)
    ensures IsSmall(c) <==> 'a' <= c <= 'z'
  {
    var letters := SMALLS;
    InRow(letters, 'a', c);
  }

  lemma DigitIs(c: char)
    ensures IsDigit(c) <==> '0' <= c <= '9'
  {
    var letters := DIGITS;
    InRow(letters, '0', c);
  }

  lemma LettersAre(c: char)
    ensures IsCapital(c) <==> 'A' <= c <= 'Z'
    ensures IsSmall(c) <==> 'a' <= c <= 'z'
    ensures IsDigit(c) <==> '0' <= c <= '9'
  {
    hide IsCapital, IsSmall, IsDigit;
    CapitalIs(c);
    SmallIs(c);
    DigitIs(c);
  }

  /** Lowering turns each capital into its small letter and leaves all else alone. */
  lemma LoweringIs(c: char)
    ensures forall k :: 0 <= k < 26 && c == CAPITALS[k] ==> AsciiLower(c) == SMALLS[k]
    ensures c !in CAPITALS ==> AsciiLower(c) == c
  {
    forall k | 0 <= k < 26 && c == CAPITALS[k] ensures AsciiLower(c) == SMALLS[k] {
      NthLetters(k);
    }
    if 'A' <= c <= 'Z' {
      NthLetters(c as int - 'A' as int);
    }
  }

  lemma NthLetters(k: nat)
    requires k < 26
    ensures CAPITALS[k] as int == 'A' as int + k && SMALLS[k] as int == 'a' as int + k
  {
  }

  /** The bytes of a character in UTF-8 (section 3 of RFC 3629). */
  function Utf8(c: char): (bytes: seq<nat>)
    ensures bytes != []
  {
    var n := c as int;
    if n < 0x80 then [n]
    else if n < 0x800 then [0xC0 + n / 0x40, 0x80 + n % 0x40]
    else if n < 0x10000 then [0xE0 + n / 0x1000, 0x80 + n / 0x40 % 0x40, 0x80 + n % 0x40]
    else [0xF0 + n / 0x40000, 0x80 + n / 0x1000 % 0x40, 0x80 + n / 0x40 % 0x40, 0x80 + n % 0x40]
  }

  /** What the splitter looks at of the character before is its last byte. */
  lemma LastByteIs(c: char)
    ensures LastByte(c) as int == Utf8(c)[|Utf8(c)| - 1]
  {
  }

  // ------------------------------------------------------------------------
  // Words

  /** `abc`, `Abc`, `ABC`, `123`. */
  datatype Sort = Small | Capital | Shout | Number

  /** A word, and how many underscores stand before it. */
  datatype Item = Item(gap: nat, word: string, sort: Sort)

  datatype Class = Upper | Lower | Digit | Mark

  function ClassOf(c: char): Class {
    if IsCapital(c) then Upper else if IsSmall(c) then Lower else if IsDigit(c) then Digit else Mark
  }

  predicate All(s: string, class_: Class) {
    forall i :: 0 <= i < |s| ==> ClassOf(s[i]) == class_
  }

  predicate IsWord(s: string, sort: Sort) {
    s != ""
    && match sort
       case Small => All(s, Lower)
       case Capital => |s| > 1 && ClassOf(s[0]) == Upper && All(s[1..], Lower)
       case Shout => All(s, Upper)
       case Number => All(s, Digit)
  }

  /** Where one word ends and the next begins can be seen without an underscore. */
  predicate Parted(a: Sort, b: Sort) {
    (b.Small? ==> a.Number?) && !(a.Shout? && b.Shout?) && !(a.Number? && b.Number?)
  }

  predicate WellSpelt(items: seq<Item>) {
    && (forall i :: 0 <= i < |items| ==> IsWord(items[i].word, items[i].sort))
    && forall i :: 0 < i < |items| && items[i].gap == 0 ==> Parted(items[i - 1].sort, items[i].sort)
  }

  function Underscores(n: nat): (s: string)
    ensures |s| == n
  {
    seq(n, _ => '_')
  }

  /** The identifier as written, with `trailing` underscores at its end. */
  function Spelt(items: seq<Item>, trailing: nat): string {
    if items == [] then Underscores(trailing)
    else Underscores(items[0].gap) + items[0].word + Spelt(items[1..], trailing)
  }

  function WordsOf(items: seq<Item>): seq<string> {
    if items == [] then [] else [items[0].word] + WordsOf(items[1..])
  }

  /** What the tables say of ASCII. */
  ghost predicate KnowsAscii(t: CharTables) {
    forall c :: c as int < 0x80 ==> (t.upper(c) <==> IsCapital(c)) && (t.lower(c) <==> IsSmall(c))
  }

  // ------------------------------------------------------------------------
  // Scanning

  /** Where a part ends, for ASCII: small before capital, before the last capital of
      a run that a small letter follows, and wherever digits begin or end. */
  lemma BoundaryIs(t: CharTables, a: char, b: char, next: Option<char>)
    requires KnowsAscii(t) && !ClassOf(a).Mark? && !ClassOf(b).Mark? && (next.Some? ==> next.value as int < 0x80)
    ensures Boundary(t, a, b, next) <==>
      match (ClassOf(a), ClassOf(b))
      case (Upper, Upper) => next.Some? && ClassOf(next.value).Lower?
      case (Upper, Lower) => false
      case (Lower, Lower) => false
      case (Digit, Digit) => false
      case (_, _) => true
  {
    hide IsCapital, IsSmall, IsDigit;
    LettersAre(a);
    LettersAre(b);
    if next.Some? {
      LettersAre(next.value);
    }
  }

  function NextOf(raw: string, i: nat): Option<char> {
    if i + 1 < |raw| then Some(raw[i + 1]) else None
  }

  predicate IsAscii(s: string) {
    forall i :: 0 <= i < |s| ==> s[i] as int < 0x80
  }

  /** Inside a word there is no boundary. */
  lemma InsideWord(t: CharTables, raw: string, pos: nat, w: string, sort: Sort, j: nat)
    requires KnowsAscii(t) && IsAscii(raw) && pos + |w| <= |raw| && raw[pos..pos + |w|] == w
    requires IsWord(w, sort) && 0 < j < |w|
    requires sort.Shout? && pos + |w| < |raw| ==> !ClassOf(raw[pos + |w|]).Lower?
    ensures !Boundary(t, w[j - 1], w[j], NextOf(raw, pos + j))
  {
    hide ClassOf, Boundary, IsAscii;
    assert sort.Capital? ==> w[1..][j - 1] == w[j] && (j > 1 ==> w[1..][j - 2] == w[j - 1]);
    assert j + 1 < |w| ==> raw[pos + j + 1] == w[j + 1];
    if pos + j + 1 < |raw| {
      AsciiAt(raw, pos + j + 1);
    }
    BoundaryIs(t, w[j - 1], w[j], NextOf(raw, pos + j));
  }

  lemma AsciiAt(s: string, i: nat)
    requires IsAscii(s) && i < |s|
    ensures s[i] as int < 0x80
  {
  }

  /** Between words that are told apart there is one. */
  lemma BetweenWords(t: CharTables, raw: string, a: string, before: Sort, pos: nat, w: string, sort: Sort)
    requires KnowsAscii(t) && IsAscii(raw) && pos + |w| <= |raw| && raw[pos..pos + |w|] == w
    requires IsWord(a, before) && IsWord(w, sort) && Parted(before, sort)
    ensures Boundary(t, a[|a| - 1], w[0], NextOf(raw, pos))
  {
    hide ClassOf, Boundary, IsAscii;
    assert before.Capital? ==> a[1..][|a| - 2] == a[|a| - 1];
    assert sort.Capital? ==> w[1..][0] == w[1] == raw[pos + 1];
    if pos + 1 < |raw| {
      AsciiAt(raw, pos + 1);
    }
    BoundaryIs(t, a[|a| - 1], w[0], NextOf(raw, pos));
  }

  lemma NotAMark(w: string, sort: Sort, j: nat)
    requires IsWord(w, sort) && j < |w|
    ensures w[j] != '_'
  {
    hide IsCapital, IsSmall, IsDigit;
    LettersAre('_');
    assert sort.Capital? && j > 0 ==> w[1..][j - 1] == w[j];
  }

  /** Scanning a word that begins a part. */
  lemma {:induction false} WordScanned(t: CharTables, raw: string, pos: nat, w: string, sort: Sort, p: Parts, j: nat)
    requires KnowsAscii(t) && IsAscii(raw) && pos + |w| <= |raw| && raw[pos..pos + |w|] == w
    requires IsWord(w, sort) && 0 < j <= |w| && IdentifierParts(t, raw, pos) == p
    requires p.current == "" || Boundary(t, p.current[|p.current| - 1], w[0], NextOf(raw, pos))
    requires sort.Shout? && pos + |w| < |raw| ==> !ClassOf(raw[pos + |w|]).Lower?
    ensures IdentifierParts(t, raw, pos + j) == Parts(p.Flush().parts, w[..j])
  {
    hide Boundary, IsWord, KnowsAscii, IsAscii, ClassOf, IdentifierStep;
    NotAMark(w, sort, j - 1);
    if j == 1 {
      FirstOfPart(t, raw, pos, w, p);
    } else {
      WordScanned(t, raw, pos, w, sort, p, j - 1);
      InsideWord(t, raw, pos, w, sort, j - 1);
      NextOfPart(t, raw, pos, w, p.Flush().parts, j);
    }
  }

  lemma FirstOfPart(t: CharTables, raw: string, pos: nat, w: string, p: Parts)
    requires w != "" && pos + |w| <= |raw| && raw[pos..pos + |w|] == w && w[0] != '_'
    requires p.current == "" || Boundary(t, p.current[|p.current| - 1], w[0], NextOf(raw, pos))
    ensures IdentifierStep(t, raw, pos, p) == Parts(p.Flush().parts, w[..1])
  {
    hide Boundary;
    assert raw[pos] == w[0] && w[..1] == [w[0]];
  }

  lemma NextOfPart(t: CharTables, raw: string, pos: nat, w: string, parts: seq<string>, j: nat)
    requires pos + |w| <= |raw| && raw[pos..pos + |w|] == w && 1 < j <= |w| && w[j - 1] != '_'
    requires !Boundary(t, w[j - 2], w[j - 1], NextOf(raw, pos + j - 1))
    ensures IdentifierStep(t, raw, pos + j - 1, Parts(parts, w[..j - 1])) == Parts(parts, w[..j])
  {
    hide Boundary;
    assert raw[pos + j - 1] == w[j - 1] && w[..j] == w[..j - 1] + [w[j - 1]];
    assert w[..j - 1][j - 2] == w[j - 2];
  }

  lemma {:induction false} GapScanned(t: CharTables, raw: string, pos: nat, gap: nat)
    requires pos + gap <= |raw| && raw[pos..pos + gap] == Underscores(gap)
    ensures IdentifierParts(t, raw, pos + gap)
         == if gap == 0 then IdentifierParts(t, raw, pos) else IdentifierParts(t, raw, pos).Flush()
  {
    if gap > 0 {
      assert raw[pos..pos + gap - 1] == Underscores(gap)[..gap - 1] == Underscores(gap - 1);
      assert raw[pos + gap - 1] == Underscores(gap)[gap - 1];
      GapScanned(t, raw, pos, gap - 1);
    }
  }

  /** The words from `pos` on, after the parts in `done` and a last word being built. */
  lemma {:induction false} ItemsScanned(t: CharTables, raw: string, pos: nat, p: Parts, before: Sort, items: seq<Item>,
                                        trailing: nat)
    requires KnowsAscii(t) && IsAscii(raw) && pos <= |raw| && raw[pos..] == Spelt(items, trailing)
    requires IdentifierParts(t, raw, pos) == p && (p.current == "" || IsWord(p.current, before)) && WellSpelt(items)
    requires items != [] && items[0].gap == 0 && p.current != "" ==> Parted(before, items[0].sort)
    ensures IdentifierParts(t, raw, |raw|).Flush().parts == p.Flush().parts + WordsOf(items)
    decreases |items|
  {
    hide IsWord, KnowsAscii, IsAscii, Parted, IdentifierParts, WellSpelt;
    if items == [] {
      assert raw[pos..pos + trailing] == raw[pos..] == Underscores(trailing);
      GapScanned(t, raw, pos, trailing);
    } else {
      var w, sort, at := items[0].word, items[0].sort, pos + items[0].gap + |items[0].word|;
      WordsRest(items);
      HeadScanned(t, raw, pos, p, before, items, trailing);
      var parts := p.Flush().parts;
      ItemsScanned(t, raw, at, Parts(parts, w), sort, items[1..], trailing);
      assert Parts(parts, w).Flush().parts == parts + [w];
      ConcatAssoc(parts, [w], WordsOf(items[1..]));
    }
  }

  /** The next word: whatever was being built is finished, and the word is built. */
  lemma HeadScanned(t: CharTables, raw: string, pos: nat, p: Parts, before: Sort, items: seq<Item>, trailing: nat)
    requires KnowsAscii(t) && IsAscii(raw) && pos <= |raw| && items != [] && raw[pos..] == Spelt(items, trailing)
    requires IdentifierParts(t, raw, pos) == p && (p.current == "" || IsWord(p.current, before)) && WellSpelt(items)
    requires items[0].gap == 0 && p.current != "" ==> Parted(before, items[0].sort)
    ensures var at := pos + items[0].gap + |items[0].word|;
      && at <= |raw| && raw[at..] == Spelt(items[1..], trailing)
      && IdentifierParts(t, raw, at) == Parts(p.Flush().parts, items[0].word)
  {
    hide Boundary, IsWord, KnowsAscii, IsAscii, ClassOf, Parted, IdentifierParts, WellSpelt;
    var gap, w, sort := items[0].gap, items[0].word, items[0].sort;
    HeadSpelt(raw, pos, gap, w, Spelt(items[1..], trailing));
    WordsRest(items);
    GapScanned(t, raw, pos, gap);
    var q := IdentifierParts(t, raw, pos + gap);
    if q.current != "" {
      BetweenWords(t, raw, q.current, before, pos + gap, w, sort);
    }
    AfterShout(items, trailing, raw, pos + gap + |w|);
    WordScanned(t, raw, pos + gap, w, sort, q, |w|);
    assert w[..|w|] == w;
  }

  lemma HeadSpelt(raw: string, pos: nat, gap: nat, w: string, rest: string)
    requires pos <= |raw| && raw[pos..] == Underscores(gap) + w + rest
    ensures pos + gap + |w| <= |raw| && raw[pos..pos + gap] == Underscores(gap)
    ensures raw[pos + gap..pos + gap + |w|] == w && raw[pos + gap + |w|..] == rest
  {
    var t := raw[pos..];
    assert raw[pos..pos + gap] == t[..gap];
    assert raw[pos + gap..pos + gap + |w|] == t[gap..gap + |w|];
    assert raw[pos + gap + |w|..] == t[gap + |w|..];
  }

  lemma WordsRest(items: seq<Item>)
    requires items != [] && WellSpelt(items)
    ensures WellSpelt(items[1..]) && items[0].word != "" && IsWord(items[0].word, items[0].sort)
    ensures |items| > 1 && items[1].gap == 0 ==> Parted(items[0].sort, items[1].sort)
  {
    hide ClassOf, Parted;
    var rest := items[1..];
    forall i | 0 <= i < |rest| ensures rest[i] == items[i + 1] {
    }
  }

  /** No small letter follows a word in capitals. */
  lemma AfterShout(items: seq<Item>, trailing: nat, raw: string, at: nat)
    requires items != [] && WellSpelt(items) && at <= |raw| && raw[at..] == Spelt(items[1..], trailing)
    ensures items[0].sort.Shout? && at < |raw| ==> !ClassOf(raw[at]).Lower?
  {
    hide ClassOf;
    var rest := items[1..];
    UnderscoreIsNoLetter();
    if items[0].sort.Shout? && at < |raw| {
      assert raw[at] == raw[at..][0];
      if rest == [] || rest[0].gap > 0 {
        assert raw[at..][0] == '_';
      } else {
        assert rest[0] == items[1];
        assert raw[at..][0] == rest[0].word[0];
      }
    }
  }

  lemma UnderscoreIsNoLetter()
    ensures ClassOf('_').Mark?
  {
    hide IsCapital, IsSmall, IsDigit;
    LettersAre('_');
  }

  /** Main result: an identifier spelt out of words, in any mixture of cases,
      acronyms and numbers in which the words can be told apart, is split into
      exactly those words. */
  lemma SpeltIsSplit(t: CharTables, items: seq<Item>, trailing: nat)
    requires KnowsAscii(t) && WellSpelt(items)
    ensures IdentifierParts(t, Spelt(items, trailing), |Spelt(items, trailing)|).Flush().parts == WordsOf(items)
  {
    hide WellSpelt, IsAscii, KnowsAscii;
    var raw := Spelt(items, trailing);
    SpeltIsAscii(items, trailing);
    assert raw[0..] == raw;
    ItemsScanned(t, raw, 0, Parts([], ""), Small, items, trailing);
    assert [] + WordsOf(items) == WordsOf(items);
  }

  lemma {:induction false} SpeltIsAscii(items: seq<Item>, trailing: nat)
    requires WellSpelt(items)
    ensures IsAscii(Spelt(items, trailing))
  {
    hide IsWord, Parted;
    if items != [] {
      WordsRest(items);
      WordIsAscii(items[0].word, items[0].sort);
      SpeltIsAscii(items[1..], trailing);
    }
  }

  lemma WordIsAscii(w: string, sort: Sort)
    requires IsWord(w, sort)
    ensures IsAscii(w)
  {
    hide IsCapital, IsSmall, IsDigit;
    forall i | 0 <= i < |w| ensures w[i] as int < 0x80 {
      LettersAre(w[i]);
      assert sort.Capital? && i > 0 ==> w[1..][i - 1] == w[i];
    }
  }

  // ------------------------------------------------------------------------
  // Terms

  /** A raw token gives its own lowered form and, if it has several parts, theirs. */
  ghost predicate IsTermOf(t: CharTables, raw: string, term: string) {
    var parts := IdentifierParts(t, raw, |raw|).Flush().parts;
    term == Lowercase(raw) || (|parts| > 1 && exists part :: part in parts && term == Lowercase(part))
  }

  /** Main result: the terms of a text are the lowered forms of its words and of
      their parts, and nothing else. */
  lemma TermsAre(t: CharTables, text: string, term: string)
    ensures term in Tokenize(t, text) <==> exists raw :: raw in SplitRawTokens(t, text) && IsTermOf(t, raw, term)
  {
    hide SplitRawTokens, IsTermOf, AreRuns;
    var _ := RawTokensAreTheWords(t, text);
    TermsOfRaws(t, SplitRawTokens(t, text), term);
  }

  lemma {:induction false} TermsOfRaws(t: CharTables, raws: seq<string>, term: string)
    requires forall i :: 0 <= i < |raws| ==> raws[i] != ""
    ensures term in TokensOf(t, raws) <==> exists raw :: raw in raws && IsTermOf(t, raw, term)
  {
    hide IsTermOf, TokensOfOne;
    if raws != [] {
      var front, last := raws[..|raws| - 1], raws[|raws| - 1];
      TermsOfRaws(t, front, term);
      assert raws == front + [last];
      TermsOfOne(t, last, term);
    }
  }

  lemma TermsOfOne(t: CharTables, raw: string, term: string)
    requires raw != ""
    ensures term in TokensOfOne(t, raw) <==> IsTermOf(t, raw, term)
  {
    hide Lowercase, IdentifierParts;
    var parts := IdentifierParts(t, raw, |raw|).Flush().parts;
    assert forall i :: 0 <= i < |parts| ==> LowerAll(parts)[i] == Lowercase(parts[i]);
    if term in LowerAll(parts) {
      var i :| 0 <= i < |parts| && LowerAll(parts)[i] == term;
      assert parts[i] in parts;
    }
  }
}
