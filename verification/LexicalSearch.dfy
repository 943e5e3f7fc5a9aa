/** BM25 search over the lexical index, against the scores the documents
    themselves give. */
module LexicalSearch {
  import opened Wrappers
  import opened Tokens
  import opened LexicalIndex

  /** Scoring parameters; `ln` stands for the natural logarithm. */
  datatype Params = Params(k1: real, b: real, ln: real -> real)

  function Max(x: real, y: real): real {
    if x < y then y else x
  }

  /** One term's score in one chunk (the Okapi BM25 formula). */
  function TermScore(p: Params, n: nat, df: nat, tf: nat, docLen: nat, avgDocLen: real): real {
    Rarity(p, n, df) * (tf as real * (p.k1 + 1.0)) / Max(tf as real + Damping(p, docLen, avgDocLen), 0.000001)
  }

  /** The inverse document frequency. */
  function Rarity(p: Params, n: nat, df: nat): real {
    (p.ln)((n as real - df as real + 0.5) / (df as real + 0.5) + 1.0)
  }

  /** What document length adds to the divisor. */
  function Damping(p: Params, docLen: nat, avgDocLen: real): real {
    p.k1 * (1.0 - p.b + p.b * docLen as real / Max(avgDocLen, 1.0))
  }

  // ------------------------------------------------------------------------
  // What the documents score

  /** How many documents a term occurs in. */
  function DocumentFrequency(t: CharTables, documents: seq<Document>, term: string): nat {
    if documents == [] then 0
    else
      DocumentFrequency(t, documents[..|documents| - 1], term)
      + if TermFrequency(t, documents[|documents| - 1], term) > 0 then 1 else 0
  }

  ghost predicate Occurs(t: CharTables, documents: seq<Document>, c: nat, term: string) {
    c < |documents| && TermFrequency(t, documents[c], term) > 0
  }

  /** A term's score in document `c`, from the documents alone. */
  ghost function DocumentScore(p: Params, t: CharTables, documents: seq<Document>, c: nat, term: string): real
    requires c < |documents|
  {
    TermScore(p, |documents|, DocumentFrequency(t, documents, term), TermFrequency(t, documents[c], term),
              |Tokenize(t, documents[c].content)|, AverageLength(ChunksFor(t, documents)))
  }

  /** A query's score in document `c`: each occurrence of a term in the query counts. */
  ghost function QueryScore(p: Params, t: CharTables, documents: seq<Document>, c: nat, terms: seq<string>): real
    requires c < |documents|
  {
    if terms == [] then 0.0
    else
      var term := terms[|terms| - 1];
      QueryScore(p, t, documents, c, terms[..|terms| - 1])
      + if Occurs(t, documents, c, term) then DocumentScore(p, t, documents, c, term) else 0.0
  }

  ghost predicate Matches(t: CharTables, documents: seq<Document>, c: nat, terms: seq<string>) {
    exists term :: term in terms && Occurs(t, documents, c, term)
  }

  lemma {:induction false} FrequencyIsListLength(t: CharTables, documents: seq<Document>, term: string)
    ensures |PostingsFor(t, documents, term)| == DocumentFrequency(t, documents, term)
  {
    hide TermFrequency;
    if documents != [] {
      FrequencyIsListLength(t, documents[..|documents| - 1], term);
    }
  }

  // ------------------------------------------------------------------------
  // Scoring through the index

  function ScoreOf(scores: map<nat, real>, c: nat): real {
    if c in scores then scores[c] else 0.0
  }

  /** What one term adds to chunk `c`. */
  ghost function Added(p: Params, t: CharTables, documents: seq<Document>, c: nat, term: string): real {
    if Occurs(t, documents, c, term) then DocumentScore(p, t, documents, c, term) else 0.0
  }

  ghost predicate TermAdded(p: Params, t: CharTables, documents: seq<Document>, term: string, before: map<nat, real>,
                            after: map<nat, real>, c: nat)
  {
    && (c in after <==> c in before || Occurs(t, documents, c, term))
    && ScoreOf(after, c) == ScoreOf(before, c) + Added(p, t, documents, c, term)
  }

  /** A postings entry carries just what scoring its document needs. */
  lemma PostingScores(p: Params, ix: LexicalIndex, t: CharTables, documents: seq<Document>, term: string, j: nat)
    requires Indexes(ix, t, documents) && term in ix.postings && j < |ix.postings[term]|
    ensures var posting := ix.postings[term][j];
      && posting.chunk < |ix.chunks| == |documents| && Occurs(t, documents, posting.chunk, term)
      && TermScore(p, |ix.chunks|, |ix.postings[term]|, posting.frequency, ix.chunks[posting.chunk].tokenCount,
         ix.avgDocLen)
         == DocumentScore(p, t, documents, posting.chunk, term)
  {
    hide TermScore, Tokenize, AverageLength, PostingsFor;
    var list := ix.postings[term];
    assert Lookup(ix.postings, term) == PostingsOf(t, documents)(term);
    PostingsAreSorted(t, documents, term);
    FrequencyIsListLength(t, documents, term);
    assert Truthful(t, documents, term, list[j]);
  }

  /** Where chunk `c` is in the list, if the term occurs in it. */
  lemma PostingExists(ix: LexicalIndex, t: CharTables, documents: seq<Document>, term: string, c: nat)
    requires Indexes(ix, t, documents) && Occurs(t, documents, c, term)
    ensures term in ix.postings && exists j :: 0 <= j < |ix.postings[term]| && ix.postings[term][j].chunk == c
  {
    hide Tokenize, AverageLength, PostingsFor;
    assert Lookup(ix.postings, term) == PostingsOf(t, documents)(term);
    PostingsAreComplete(t, documents, term, c);
    var posting := Posting(c, TermFrequency(t, documents[c], term));
    var j :| 0 <= j < |Lookup(ix.postings, term)| && Lookup(ix.postings, term)[j] == posting;
    assert ix.postings[term][j].chunk == c;
  }

  ghost predicate Listed(list: seq<Posting>, n: nat, c: nat) {
    exists j :: 0 <= j < n && j < |list| && list[j].chunk == c
  }

  /** Adds one query term's scores. */
  method AddTerm(p: Params, ix: LexicalIndex, term: string, scores: map<nat, real>,
                 ghost t: CharTables, ghost documents: seq<Document>)
      returns (r: map<nat, real>)
    requires Indexes(ix, t, documents)
    ensures forall c: nat :: TermAdded(p, t, documents, term, scores, r, c)
  {
    hide Indexes, DocumentScore, TermScore, TermFrequency;
    r := scores;
    if term !in ix.postings {
      NothingAdded(p, ix, t, documents, term, scores);
      return;
    }
    var list := ix.postings[term];
    for j := 0 to |list|
      invariant forall c: nat :: c in r <==> c in scores || Listed(list, j, c)
      invariant forall c: nat :: ScoreOf(r, c) == ScoreOf(scores, c)
                                   + if Listed(list, j, c) then Added(p, t, documents, c, term) else 0.0
    {
      var c := list[j].chunk;
      PostingScores(p, ix, t, documents, term, j);
      NotListedYet(ix, t, documents, term, j);
      ListedSnoc(list, j);
      var score := TermScore(p, |ix.chunks|, |list|, list[j].frequency, ix.chunks[c].tokenCount, ix.avgDocLen);
      r := r[c := ScoreOf(r, c) + score];
    }
    forall c: nat ensures TermAdded(p, t, documents, term, scores, r, c) {
      ListedAll(ix, t, documents, term, c);
    }
  }

  lemma ListedSnoc(list: seq<Posting>, j: nat)
    requires j < |list|
    ensures forall c: nat :: Listed(list, j + 1, c) <==> Listed(list, j, c) || c == list[j].chunk
  {
    forall c: nat ensures Listed(list, j + 1, c) <==> Listed(list, j, c) || c == list[j].chunk {
      if c == list[j].chunk {
        assert list[j].chunk == c;
      }
    }
  }

  lemma NotListedYet(ix: LexicalIndex, t: CharTables, documents: seq<Document>, term: string, j: nat)
    requires Indexes(ix, t, documents) && term in ix.postings && j < |ix.postings[term]|
    ensures !Listed(ix.postings[term], j, ix.postings[term][j].chunk)
  {
    hide Tokenize, AverageLength, PostingsFor;
    assert Lookup(ix.postings, term) == PostingsOf(t, documents)(term);
    PostingsAreSorted(t, documents, term);
  }

  lemma ListedAll(ix: LexicalIndex, t: CharTables, documents: seq<Document>, term: string, c: nat)
    requires Indexes(ix, t, documents) && term in ix.postings
    ensures Listed(ix.postings[term], |ix.postings[term]|, c) <==> Occurs(t, documents, c, term)
  {
    hide Tokenize, AverageLength, PostingsFor, TermFrequency;
    assert Lookup(ix.postings, term) == PostingsOf(t, documents)(term);
    PostingsAreSorted(t, documents, term);
    if Occurs(t, documents, c, term) {
      PostingExists(ix, t, documents, term, c);
    }
  }

  lemma NothingAdded(p: Params, ix: LexicalIndex, t: CharTables, documents: seq<Document>, term: string,
                     scores: map<nat, real>)
    requires Indexes(ix, t, documents) && term !in ix.postings
    ensures forall c: nat :: TermAdded(p, t, documents, term, scores, scores, c)
  {
    hide Indexes, DocumentScore;
    forall c: nat ensures !Occurs(t, documents, c, term) {
      if Occurs(t, documents, c, term) {
        PostingExists(ix, t, documents, term, c);
      }
    }
  }

  ghost predicate Scored(p: Params, t: CharTables, documents: seq<Document>, terms: seq<string>,
                         scores: map<nat, real>, c: nat)
  {
    && (c in scores <==> Matches(t, documents, c, terms))
    && (c < |documents| ==> ScoreOf(scores, c) == QueryScore(p, t, documents, c, terms))
  }

  lemma ScoredSnoc(p: Params, t: CharTables, documents: seq<Document>, terms: seq<string>, i: nat,
                   before: map<nat, real>, after: map<nat, real>, c: nat)
    requires i < |terms| && Scored(p, t, documents, terms[..i], before, c)
    requires TermAdded(p, t, documents, terms[i], before, after, c)
    ensures Scored(p, t, documents, terms[..i + 1], after, c)
  {
    hide DocumentScore, Occurs;
    var next := terms[..i + 1];
    assert next[..i] == terms[..i];
    if Matches(t, documents, c, terms[..i]) {
      var term :| term in terms[..i] && Occurs(t, documents, c, term);
      assert term in next;
    }
    assert terms[i] in next;
    assert forall term :: term in next ==> term in terms[..i] || term == terms[i];
  }

  /** Main result: the scores accumulated through the index are, for every chunk
      and only for chunks that match, the BM25 sums over the documents. */
  method ScoreAll(p: Params, ix: LexicalIndex, terms: seq<string>, ghost t: CharTables, ghost documents: seq<Document>)
      returns (scores: map<nat, real>)
    requires Indexes(ix, t, documents)
    ensures forall c: nat :: c in scores <==> c < |documents| && Matches(t, documents, c, terms)
    ensures forall c: nat :: c in scores ==> c < |documents| && scores[c] == QueryScore(p, t, documents, c, terms)
  {
    hide Indexes, QueryScore, DocumentScore, Matches, Occurs;
    scores := map[];
    NothingScored(p, t, documents, terms);
    for i := 0 to |terms|
      invariant forall c: nat :: Scored(p, t, documents, terms[..i], scores, c)
    {
      var next := AddTerm(p, ix, terms[i], scores, t, documents);
      ghost var sofar := terms[..i + 1];
      forall c: nat ensures Scored(p, t, documents, sofar, next, c) {
        assert Scored(p, t, documents, terms[..i], scores, c);
        assert TermAdded(p, t, documents, terms[i], scores, next, c);
        ScoredSnoc(p, t, documents, terms, i, scores, next, c);
      }
      scores := next;
    }
    assert terms[..|terms|] == terms;
    forall c: nat ensures c in scores <==> c < |documents| && Matches(t, documents, c, terms) {
      assert Scored(p, t, documents, terms, scores, c);
      MatchesInRange(t, documents, c, terms);
    }
    forall c: nat | c in scores ensures c < |documents| && scores[c] == QueryScore(p, t, documents, c, terms) {
      assert Scored(p, t, documents, terms, scores, c);
    }
  }

  lemma NothingScored(p: Params, t: CharTables, documents: seq<Document>, terms: seq<string>)
    ensures forall c: nat :: Scored(p, t, documents, terms[..0], map[], c)
  {
  }

  lemma MatchesInRange(t: CharTables, documents: seq<Document>, c: nat, terms: seq<string>)
    ensures Matches(t, documents, c, terms) ==> c < |documents|
  {
  }

  // ------------------------------------------------------------------------
  // Ranking

  ghost predicate Descending(ranked: seq<nat>, scores: map<nat, real>)
    requires forall i :: 0 <= i < |ranked| ==> ranked[i] in scores
  {
    forall i, j :: 0 <= i < j < |ranked| ==> scores[ranked[i]] >= scores[ranked[j]]
  }

  /** All scored chunks, best first. Ties may fall either way. */
  ghost predicate IsRanking(ranked: seq<nat>, scores: map<nat, real>) {
    && (forall i :: 0 <= i < |ranked| ==> ranked[i] in scores)
    && (forall c :: c in scores ==> c in ranked)
    && Distinct(ranked)
    && Descending(ranked, scores)
  }

  method Best(rest: set<nat>, scores: map<nat, real>) returns (best: nat)
    requires rest != {} && rest <= scores.Keys
    ensures best in rest && forall c :: c in rest ==> scores[best] >= scores[c]
  {
    best :| best in rest;
    var left := rest - {best};
    while left != {}
      invariant left <= rest && best in rest
      invariant forall c :: c in rest && c !in left ==> scores[best] >= scores[c]
      decreases |left|
    {
      var c :| c in left;
      left := left - {c};
      if scores[c] > scores[best] {
        best := c;
      }
    }
  }

  method Rank(scores: map<nat, real>) returns (ranked: seq<nat>)
    ensures IsRanking(ranked, scores)
  {
    ranked := [];
    var rest := scores.Keys;
    while rest != {}
      invariant rest <= scores.Keys
      invariant forall i :: 0 <= i < |ranked| ==> ranked[i] in scores && ranked[i] !in rest
      invariant forall c :: c in scores && c !in rest ==> c in ranked
      invariant forall i, c :: 0 <= i < |ranked| && c in rest ==> scores[ranked[i]] >= scores[c]
      invariant Distinct(ranked) && Descending(ranked, scores)
      decreases |rest|
    {
      var best := Best(rest, scores);
      ranked := ranked + [best];
      rest := rest - {best};
    }
  }

  datatype Hit = Hit(path: string, score: real)

  /** `hits` are the best `topK` of the documents that match. */
  ghost predicate IsAnswer(p: Params, t: CharTables, documents: seq<Document>, terms: seq<string>, topK: nat,
                           hits: seq<Hit>, ranked: seq<nat>)
  {
    && |hits| == (if |ranked| < topK then |ranked| else topK)
    && Distinct(ranked)
    && (forall c: nat :: c in ranked <==> c < |documents| && Matches(t, documents, c, terms))
    && (forall i :: 0 <= i < |hits| ==>
          ranked[i] < |documents|
            && hits[i] == Hit(documents[ranked[i]].path, QueryScore(p, t, documents, ranked[i], terms)))
    && (forall i, j :: 0 <= i < j < |ranked| && ranked[i] < |documents| && ranked[j] < |documents| ==>
          QueryScore(p, t, documents, ranked[i], terms) >= QueryScore(p, t, documents, ranked[j], terms))
  }

  ghost predicate Answers(p: Params, t: CharTables, documents: seq<Document>, terms: seq<string>, topK: nat,
                          hits: seq<Hit>)
  {
    exists ranked :: IsAnswer(p, t, documents, terms, topK, hits, ranked)
  }

  /** BM25 search: the matching documents with the highest query scores, best
      first, with their scores. */
  method SearchWithParams(p: Params, ix: LexicalIndex, t: CharTables, query: string, topK: nat,
                          ghost documents: seq<Document>)
      returns (hits: seq<Hit>)
    requires Indexes(ix, t, documents)
    ensures Answers(p, t, documents, Tokenize(t, query), topK, hits)
  {
    hide QueryScore, Matches, Tokenize, ListsMatch, TokensOf, SplitRawTokens;
    var terms := TokenizeRaw(t, SplitRawTokens(t, query));
    assert terms == Tokenize(t, query) by {
      TokenizeIs(t, query);
    }
    hits := [];
    if |ix.chunks| == 0 {
      assert IsAnswer(p, t, documents, terms, topK, hits, []);
      return;
    }
    var scores := ScoreAll(p, ix, terms, t, documents);
    var ranked := Rank(scores);
    var n := if |ranked| < topK then |ranked| else topK;
    for i := 0 to n
      invariant |hits| == i
      invariant forall j :: 0 <= j < i ==>
        ranked[j] < |documents|
          && hits[j] == Hit(documents[ranked[j]].path, QueryScore(p, t, documents, ranked[j], terms))
    {
      hits := hits + [Hit(ix.chunks[ranked[i]].path, scores[ranked[i]])];
    }
    assert IsAnswer(p, t, documents, terms, topK, hits, ranked);
  }

  lemma TokenizeIs(t: CharTables, text: string)
    ensures Tokenize(t, text) == TokensOf(t, SplitRawTokens(t, text))
  {
  }
}
