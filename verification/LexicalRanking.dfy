/** What the search score rewards: rare terms, frequent terms and short documents,
    and what that does to the order of the results. */
module LexicalRanking {
  import opened Wrappers
  import opened Tokens
  import opened LexicalIndex
  import opened LexicalSearch

  /** All that is used of the natural logarithm. */
  ghost predicate LikeLn(ln: real -> real) {
    ln(1.0) == 0.0 && forall x, y :: 0.0 < x < y ==> ln(x) < ln(y)
  }

  ghost predicate Sensible(p: Params) {
    LikeLn(p.ln) && 0.0 < p.k1 && 0.0 < p.b <= 1.0
  }

  // ------------------------------------------------------------------------
  // Quotients

  lemma QuotientGrows(a: real, b: real, c: real, d: real)
    requires 0.0 < b && 0.0 < d && a * d < c * b
    ensures a / b < c / d
  {
    var x, y := a / b, c / d;
    assert x * b == a && y * d == c;
    assert (y - x) * (b * d) == c * b - a * d;
    if y <= x {
      Signs(x - y, b * d);
    }
  }

  lemma Signs(a: real, b: real)
    ensures 0.0 <= a && 0.0 <= b ==> 0.0 <= a * b
    ensures 0.0 < a && 0.0 < b ==> 0.0 < a * b
  {
  }

  lemma Scaled(a: real, b: real, c: real)
    requires a < b && 0.0 < c
    ensures a * c < b * c
  {
    Signs(b - a, c);
  }

  // ------------------------------------------------------------------------
  // The parts of a term's score

  function Saturation(p: Params, tf: nat, damping: real): real
    requires tf as real + damping > 0.0
  {
    tf as real * (p.k1 + 1.0) / (tf as real + damping)
  }

  lemma FractionsCross(n: real, x: real, y: real)
    requires 0.0 <= x < y <= n
    ensures (n - y + 0.5) * (x + 0.5) < (n - x + 0.5) * (y + 0.5)
  {
    Scaled(x, y, n + 1.0);
    assert (n - x + 0.5) * (y + 0.5) - (n - y + 0.5) * (x + 0.5) == (y - x) * (n + 1.0);
  }

  /** A rarer term weighs more, and every term something. */
  lemma RarityFalls(p: Params, n: nat, df: nat, more: nat)
    requires Sensible(p) && df < more <= n
    ensures Rarity(p, n, more) < Rarity(p, n, df)
  {
    var x := (n as real - df as real + 0.5) / (df as real + 0.5);
    var y := (n as real - more as real + 0.5) / (more as real + 0.5);
    FractionsCross(n as real, df as real, more as real);
    QuotientGrows(n as real - more as real + 0.5, more as real + 0.5, n as real - df as real + 0.5, df as real + 0.5);
    QuotientIsPositive(n as real - more as real + 0.5, more as real + 0.5);
    var ln := p.ln;
    assert ln(y + 1.0) < ln(x + 1.0);
  }

  lemma QuotientIsPositive(a: real, b: real)
    requires 0.0 < a && 0.0 < b
    ensures 0.0 < a / b
  {
  }

  lemma RarityIsPositive(p: Params, n: nat, df: nat)
    requires Sensible(p) && df <= n
    ensures 0.0 < Rarity(p, n, df)
  {
    QuotientIsPositive(n as real - df as real + 0.5, df as real + 0.5);
    var ln := p.ln;
    assert ln(1.0) < ln((n as real - df as real + 0.5) / (df as real + 0.5) + 1.0);
  }

  lemma DampingGrows(p: Params, docLen: nat, longer: nat, avgDocLen: real)
    requires Sensible(p) && docLen <= longer
    ensures 0.0 <= Damping(p, docLen, avgDocLen) <= Damping(p, longer, avgDocLen)
    ensures docLen < longer ==> Damping(p, docLen, avgDocLen) < Damping(p, longer, avgDocLen)
  {
    var m := Max(avgDocLen, 1.0);
    Shares(p.b, docLen as real, longer as real, m);
    Damped(p.k1, p.b, p.b * docLen as real / m, p.b * longer as real / m);
  }

  lemma Damped(k: real, b: real, x: real, y: real)
    requires 0.0 < k && b <= 1.0 && 0.0 <= x <= y
    ensures 0.0 <= k * (1.0 - b + x) <= k * (1.0 - b + y) && (x < y ==> k * (1.0 - b + x) < k * (1.0 - b + y))
  {
    Signs(k, 1.0 - b + x);
    if x < y {
      Scaled(1.0 - b + x, 1.0 - b + y, k);
    }
  }

  lemma Shares(b: real, x: real, y: real, m: real)
    requires 0.0 < b && 0.0 <= x <= y && 1.0 <= m
    ensures 0.0 <= b * x / m <= b * y / m && (x < y ==> b * x / m < b * y / m)
  {
    Signs(b, x);
    assert 0.0 <= b * x / m;
    if x < y {
      Scaled(x, y, b);
      Scaled(b * x, b * y, m);
      QuotientGrows(b * x, m, b * y, m);
    }
  }

  lemma SaturationGrows(p: Params, tf: nat, more: nat, damping: real)
    requires Sensible(p) && 1 <= tf < more && 0.0 < damping
    ensures Saturation(p, tf, damping) < Saturation(p, more, damping)
  {
    var k, x, y := p.k1 + 1.0, tf as real, more as real;
    Scaled(x, y, k);
    Scaled(x * k, y * k, damping);
    assert x * k * (y + damping) == x * k * y + x * k * damping;
    assert y * k * (x + damping) == x * k * y + y * k * damping;
    QuotientGrows(x * k, x + damping, y * k, y + damping);
  }

  lemma SaturationFalls(p: Params, tf: nat, damping: real, more: real)
    requires Sensible(p) && 1 <= tf && 0.0 <= damping < more
    ensures Saturation(p, tf, more) < Saturation(p, tf, damping)
  {
    var a, x := tf as real * (p.k1 + 1.0), tf as real;
    Signs(x, p.k1 + 1.0);
    Scaled(x + damping, x + more, a);
    QuotientGrows(a, x + more, a, x + damping);
  }

  lemma SaturationIsPositive(p: Params, tf: nat, damping: real)
    requires Sensible(p) && 1 <= tf && 0.0 <= damping
    ensures 0.0 < Saturation(p, tf, damping)
  {
    Signs(tf as real, p.k1 + 1.0);
    QuotientIsPositive(tf as real * (p.k1 + 1.0), tf as real + damping);
  }

  lemma ScoreParts(p: Params, n: nat, df: nat, tf: nat, docLen: nat, avgDocLen: real)
    requires Sensible(p) && 1 <= tf
    ensures 0.0 <= Damping(p, docLen, avgDocLen)
    ensures TermScore(p, n, df, tf, docLen, avgDocLen)
         == Rarity(p, n, df) * Saturation(p, tf, Damping(p, docLen, avgDocLen))
  {
    DampingGrows(p, docLen, docLen, avgDocLen);
    hide Damping, Rarity;
    ProductOverSum(Rarity(p, n, df), tf as real * (p.k1 + 1.0), tf as real + Damping(p, docLen, avgDocLen));
  }

  lemma ProductOverSum(a: real, b: real, c: real)
    requires c != 0.0
    ensures a * b / c == a * (b / c)
  {
  }

  // ------------------------------------------------------------------------
  // What a score rewards

  /** A term that occurs scores something. */
  lemma ScoreIsPositive(p: Params, n: nat, df: nat, tf: nat, docLen: nat, avgDocLen: real)
    requires Sensible(p) && df <= n && 1 <= tf
    ensures 0.0 < TermScore(p, n, df, tf, docLen, avgDocLen)
  {
    hide TermScore, Rarity, Damping, Saturation, Sensible;
    ScoreParts(p, n, df, tf, docLen, avgDocLen);
    RarityIsPositive(p, n, df);
    SaturationIsPositive(p, tf, Damping(p, docLen, avgDocLen));
    Signs(Rarity(p, n, df), Saturation(p, tf, Damping(p, docLen, avgDocLen)));
  }

  /** The rarer the term, the more. */
  lemma RarerScoresMore(p: Params, n: nat, df: nat, more: nat, tf: nat, docLen: nat, avgDocLen: real)
    requires Sensible(p) && df < more <= n && 1 <= tf
    ensures TermScore(p, n, more, tf, docLen, avgDocLen) < TermScore(p, n, df, tf, docLen, avgDocLen)
  {
    hide TermScore, Rarity, Damping, Saturation, Sensible;
    ScoreParts(p, n, df, tf, docLen, avgDocLen);
    ScoreParts(p, n, more, tf, docLen, avgDocLen);
    RarityFalls(p, n, df, more);
    SaturationIsPositive(p, tf, Damping(p, docLen, avgDocLen));
    Scaled(Rarity(p, n, more), Rarity(p, n, df), Saturation(p, tf, Damping(p, docLen, avgDocLen)));
  }

  /** The more often it occurs, the more. */
  lemma OftenerScoresMore(p: Params, n: nat, df: nat, tf: nat, more: nat, docLen: nat, avgDocLen: real)
    requires Sensible(p) && df <= n && 1 <= tf < more && 0 < docLen
    ensures TermScore(p, n, df, tf, docLen, avgDocLen) < TermScore(p, n, df, more, docLen, avgDocLen)
  {
    hide TermScore, Rarity, Damping, Saturation, Sensible;
    ScoreParts(p, n, df, tf, docLen, avgDocLen);
    ScoreParts(p, n, df, more, docLen, avgDocLen);
    DampingGrows(p, 0, docLen, avgDocLen);
    SaturationGrows(p, tf, more, Damping(p, docLen, avgDocLen));
    RarityIsPositive(p, n, df);
    Scaled(Saturation(p, tf, Damping(p, docLen, avgDocLen)), Saturation(p, more, Damping(p, docLen, avgDocLen)),
      Rarity(p, n, df));
  }

  /** The longer the document, the less. */
  lemma LongerScoresLess(p: Params, n: nat, df: nat, tf: nat, docLen: nat, longer: nat, avgDocLen: real)
    requires Sensible(p) && df <= n && 1 <= tf && docLen < longer
    ensures TermScore(p, n, df, tf, longer, avgDocLen) < TermScore(p, n, df, tf, docLen, avgDocLen)
  {
    hide TermScore, Rarity, Damping, Saturation, Sensible;
    ScoreParts(p, n, df, tf, docLen, avgDocLen);
    ScoreParts(p, n, df, tf, longer, avgDocLen);
    DampingGrows(p, docLen, longer, avgDocLen);
    SaturationFalls(p, tf, Damping(p, docLen, avgDocLen), Damping(p, longer, avgDocLen));
    RarityIsPositive(p, n, df);
    Scaled(Saturation(p, tf, Damping(p, longer, avgDocLen)), Saturation(p, tf, Damping(p, docLen, avgDocLen)),
      Rarity(p, n, df));
  }

  /** A document of average length scores as if there were no lengths. */
  lemma AverageLengthIsNeutral(p: Params, n: nat, df: nat, tf: nat, docLen: nat)
    requires Sensible(p) && df <= n && 1 <= tf && 1 <= docLen
    ensures TermScore(p, n, df, tf, docLen, docLen as real)
         == (p.ln)((n as real - df as real + 0.5) / (df as real + 0.5) + 1.0)
            * (tf as real * (p.k1 + 1.0) / (tf as real + p.k1))
  {
    hide TermScore, Damping;
    ScoreParts(p, n, df, tf, docLen, docLen as real);
    AverageDamping(p, docLen);
  }

  lemma AverageDamping(p: Params, docLen: nat)
    requires 1 <= docLen
    ensures Damping(p, docLen, docLen as real) == p.k1
  {
    Cancel(p.b, docLen as real);
    assert 1.0 - p.b + p.b == 1.0;
  }

  lemma Cancel(b: real, x: real)
    requires x != 0.0
    ensures b * x / x == b
  {
  }

  /** The average length times the number of documents is all their tokens. */
  lemma AverageTimesCount(t: CharTables, documents: seq<Document>)
    requires documents != []
    ensures AverageLength(ChunksFor(t, documents)) * |documents| as real == TotalTokens(ChunksFor(t, documents)) as real
  {
    hide TotalTokens;
  }

  // ------------------------------------------------------------------------
  // The order of the results

  /** Of the query's terms only `term` occurs in document `c`. */
  ghost predicate MatchesOnly(t: CharTables, documents: seq<Document>, c: nat, terms: seq<string>, term: string) {
    && Occurs(t, documents, c, term)
    && forall other :: other in terms && Occurs(t, documents, c, other) ==> other == term
  }

  lemma {:induction false} OneTermScores(p: Params, t: CharTables, documents: seq<Document>, c: nat,
                                         terms: seq<string>, term: string)
    requires c < |documents| && MatchesOnly(t, documents, c, terms, term)
    ensures QueryScore(p, t, documents, c, terms) == Repeated(multiset(terms)[term],
      DocumentScore(p, t, documents, c, term))
  {
    hide Occurs, DocumentScore, Repeated;
    if terms == [] {
      OneMoreTime(0, DocumentScore(p, t, documents, c, term));
    } else {
      var rest, last := terms[..|terms| - 1], terms[|terms| - 1];
      OneTermScores(p, t, documents, c, rest, term);
      assert terms == rest + [last];
      OneMoreTime(multiset(rest)[term], DocumentScore(p, t, documents, c, term));
    }
  }

  function Repeated(n: nat, x: real): real {
    n as real * x
  }

  lemma OneMoreTime(n: nat, x: real)
    ensures Repeated(n + 1, x) == Repeated(n, x) + x && Repeated(0, x) == 0.0
  {
  }

  lemma RepeatedGrows(n: nat, x: real, y: real)
    requires 0 < n && x < y
    ensures Repeated(n, x) < Repeated(n, y)
  {
    Scaled(x, y, n as real);
  }

  /** What scores more stands first. */
  lemma HigherScoreFirst(p: Params, t: CharTables, documents: seq<Document>, terms: seq<string>, topK: nat,
                         hits: seq<Hit>, ranked: seq<nat>, better: nat, worse: nat, j: nat)
    requires IsAnswer(p, t, documents, terms, topK, hits, ranked)
    requires better < |documents| && worse < |documents| && Matches(t, documents, better, terms)
    requires QueryScore(p, t, documents, better, terms) > QueryScore(p, t, documents, worse, terms)
    requires j < |ranked| && ranked[j] == worse
    ensures exists i :: 0 <= i < j && ranked[i] == better && (i < |hits| ==> hits[i].path == documents[better].path)
  {
    hide IsAnswer, QueryScore, Matches;
    var i := RankOf(p, t, documents, terms, topK, hits, ranked, better);
    if j < i {
      InOrder(p, t, documents, terms, topK, hits, ranked, j, i);
    }
  }

  lemma RankOf(p: Params, t: CharTables, documents: seq<Document>, terms: seq<string>, topK: nat, hits: seq<Hit>,
               ranked: seq<nat>, c: nat) returns (i: nat)
    requires IsAnswer(p, t, documents, terms, topK, hits, ranked) && c < |documents| && Matches(t, documents, c, terms)
    ensures i < |ranked| && ranked[i] == c && (i < |hits| ==> hits[i].path == documents[c].path)
  {
    hide QueryScore, Matches;
    assert c in ranked;
    i :| 0 <= i < |ranked| && ranked[i] == c;
  }

  lemma InOrder(p: Params, t: CharTables, documents: seq<Document>, terms: seq<string>, topK: nat, hits: seq<Hit>,
                ranked: seq<nat>, i: nat, j: nat)
    requires IsAnswer(p, t, documents, terms, topK, hits, ranked) && i < j < |ranked|
    requires ranked[i] < |documents| && ranked[j] < |documents|
    ensures QueryScore(p, t, documents, ranked[i], terms) >= QueryScore(p, t, documents, ranked[j], terms)
  {
    hide QueryScore, Matches;
  }

  lemma {:induction false} FrequencyInRange(t: CharTables, documents: seq<Document>, term: string)
    ensures DocumentFrequency(t, documents, term) <= |documents|
  {
    hide TermFrequency;
    if documents != [] {
      FrequencyInRange(t, documents[..|documents| - 1], term);
    }
  }

  lemma OftenEnough(terms: seq<string>, term: string)
    requires term in terms
    ensures multiset(terms)[term] > 0
  {
    assert term in multiset(terms);
  }

  lemma TokensThere(t: CharTables, document: Document, term: string)
    requires TermFrequency(t, document, term) > 0
    ensures |Tokenize(t, document.content)| > 0
  {
    hide Tokenize;
  }

  /** The order in which two documents that match one query term each are to come:
      all else being equal the rarer term first, the more frequent, or the shorter
      document. */
  ghost predicate ComesFirst(t: CharTables, documents: seq<Document>, better: nat, x: string, worse: nat, y: string)
    requires better < |documents| && worse < |documents|
  {
    var df, df' := DocumentFrequency(t, documents, x), DocumentFrequency(t, documents, y);
    var tf, tf' := TermFrequency(t, documents[better], x), TermFrequency(t, documents[worse], y);
    var length, length' := |Tokenize(t, documents[better].content)|, |Tokenize(t, documents[worse].content)|;
    df <= df' && tf >= tf' && length <= length' && (df < df' || tf > tf' || length < length')
  }

  /** Main result: of two documents that match one query term each, asked for
      equally often, the one with the rarer term, the more occurrences or the fewer
      tokens stands first in every answer, if neither of the others speaks against it. */
  lemma RarerOftenerShorterFirst(p: Params, t: CharTables, documents: seq<Document>, terms: seq<string>, topK: nat,
                                 hits: seq<Hit>, ranked: seq<nat>, better: nat, x: string, worse: nat, y: string,
                                 j: nat)
    requires Sensible(p) && IsAnswer(p, t, documents, terms, topK, hits, ranked)
    requires better < |documents| && worse < |documents| && x in terms && y in terms
    requires MatchesOnly(t, documents, better, terms, x) && MatchesOnly(t, documents, worse, terms, y)
    requires multiset(terms)[x] == multiset(terms)[y] && ComesFirst(t, documents, better, x, worse, y)
    requires j < |ranked| && ranked[j] == worse
    ensures exists i :: 0 <= i < j && ranked[i] == better && (i < |hits| ==> hits[i].path == documents[better].path)
  {
    hide IsAnswer, QueryScore, DocumentScore, Sensible, ComesFirst, Repeated, Occurs;
    OneTermScores(p, t, documents, better, terms, x);
    OneTermScores(p, t, documents, worse, terms, y);
    OftenEnough(terms, x);
    ComesFirstScores(p, t, documents, better, x, worse, y);
    RepeatedGrows(multiset(terms)[x], DocumentScore(p, t, documents, worse, y),
      DocumentScore(p, t, documents, better, x));
    assert Matches(t, documents, better, terms);
    HigherScoreFirst(p, t, documents, terms, topK, hits, ranked, better, worse, j);
  }

  lemma ComesFirstScores(p: Params, t: CharTables, documents: seq<Document>, better: nat, x: string, worse: nat,
                         y: string)
    requires Sensible(p) && better < |documents| && worse < |documents|
    requires Occurs(t, documents, better, x) && Occurs(t, documents, worse, y)
    requires ComesFirst(t, documents, better, x, worse, y)
    ensures DocumentScore(p, t, documents, worse, y) < DocumentScore(p, t, documents, better, x)
  {
    hide TermScore, Sensible, TermFrequency, Tokenize, DocumentFrequency, AverageLength;
    FrequencyInRange(t, documents, y);
    TokensThere(t, documents[better], x);
    AllElseEqual(p, |documents|, DocumentFrequency(t, documents, x), DocumentFrequency(t, documents, y),
                 TermFrequency(t, documents[better], x), TermFrequency(t, documents[worse], y),
                 |Tokenize(t, documents[better].content)|, |Tokenize(t, documents[worse].content)|,
                 AverageLength(ChunksFor(t, documents)));
  }

  /** From the worse score to the better in three steps, one part at a time. */
  lemma AllElseEqual(p: Params, n: nat, df: nat, df': nat, tf: nat, tf': nat, docLen: nat, docLen': nat, avg: real)
    requires Sensible(p) && df <= df' <= n && 1 <= tf' <= tf && 0 < docLen <= docLen'
    ensures TermScore(p, n, df', tf', docLen', avg) <= TermScore(p, n, df, tf, docLen, avg)
    ensures df < df' || tf > tf' || docLen < docLen' ==>
              TermScore(p, n, df', tf', docLen', avg) < TermScore(p, n, df, tf, docLen, avg)
  {
    hide TermScore, Sensible;
    if df < df' { RarerScoresMore(p, n, df, df', tf', docLen', avg); }
    if tf' < tf { OftenerScoresMore(p, n, df, tf', tf, docLen', avg); }
    if docLen < docLen' { LongerScoresLess(p, n, df, tf, docLen, docLen', avg); }
  }
}
