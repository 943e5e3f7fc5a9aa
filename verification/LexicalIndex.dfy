/** The in-memory lexical index: BM25 postings and the exact-identifier lane. */
module LexicalIndex {
  import opened Wrappers
  import opened Tokens

  datatype Document = Document(path: string, content: string)

  datatype ChunkEntry = ChunkEntry(path: string, tokenCount: nat)

  datatype Posting = Posting(chunk: nat, frequency: nat)

  datatype LexicalIndex = LexicalIndex(
    postings: map<string, seq<Posting>>,
    chunks: seq<ChunkEntry>,
    avgDocLen: real,
    exact: map<string, seq<nat>>)

  function Lookup<T>(lists: map<string, seq<T>>, key: string): seq<T> {
    if key in lists then lists[key] else []
  }

  // ------------------------------------------------------------------------
  // What the documents say

  function TermFrequency(t: CharTables, document: Document, term: string): nat {
    multiset(Tokenize(t, document.content))[term]
  }

  function HasRaw(t: CharTables, document: Document, raw: string): bool {
    raw in SplitRawTokens(t, document.content)
  }

  /** The documents a term occurs in, in order, and how often in each. */
  function PostingsFor(t: CharTables, documents: seq<Document>, term: string): seq<Posting> {
    if documents == [] then []
    else
      var n := |documents| - 1;
      var f := TermFrequency(t, documents[n], term);
      PostingsFor(t, documents[..n], term) + if f > 0 then [Posting(n, f)] else []
  }

  function ExactFor(t: CharTables, documents: seq<Document>, raw: string): seq<nat> {
    if documents == [] then []
    else
      var n := |documents| - 1;
      ExactFor(t, documents[..n], raw) + if HasRaw(t, documents[n], raw) then [n] else []
  }

  function ChunksFor(t: CharTables, documents: seq<Document>): (r: seq<ChunkEntry>)
    ensures |r| == |documents|
  {
    seq(|documents|, i requires 0 <= i < |documents| =>
      ChunkEntry(documents[i].path, |Tokenize(t, documents[i].content)|))
  }

  function TotalTokens(chunks: seq<ChunkEntry>): nat {
    if chunks == [] then 0 else TotalTokens(chunks[..|chunks| - 1]) + chunks[|chunks| - 1].tokenCount
  }

  function AverageLength(chunks: seq<ChunkEntry>): real {
    if chunks == [] then 0.0 else TotalTokens(chunks) as real / |chunks| as real
  }

  ghost predicate ListsMatch<T>(lists: map<string, seq<T>>, wanted: string -> seq<T>) {
    && (forall key: string :: Lookup(lists, key) == wanted(key))
    && (forall key :: key in lists ==> lists[key] != [])
  }

  ghost function PostingsOf(t: CharTables, documents: seq<Document>): string -> seq<Posting> {
    term => PostingsFor(t, documents, term)
  }

  ghost function ExactOf(t: CharTables, documents: seq<Document>): string -> seq<nat> {
    raw => ExactFor(t, documents, raw)
  }

  /** The index says exactly what the documents say. */
  ghost predicate Indexes(ix: LexicalIndex, t: CharTables, documents: seq<Document>) {
    && ix.chunks == ChunksFor(t, documents)
    && ix.avgDocLen == AverageLength(ix.chunks)
    && ListsMatch(ix.postings, PostingsOf(t, documents))
    && ListsMatch(ix.exact, ExactOf(t, documents))
  }

  // ------------------------------------------------------------------------
  // Properties of the lists

  function ChunkOf(p: Posting): nat {
    p.chunk
  }

  function Itself(n: nat): nat {
    n
  }

  ghost predicate Increasing<T>(list: seq<T>, key: T -> nat) {
    forall i, j :: 0 <= i < j < |list| ==> key(list[i]) < key(list[j])
  }

  ghost predicate AllTruthful(t: CharTables, documents: seq<Document>, term: string, list: seq<Posting>) {
    forall i :: 0 <= i < |list| ==> Truthful(t, documents, term, list[i])
  }

  ghost predicate Truthful(t: CharTables, documents: seq<Document>, term: string, p: Posting) {
    p.chunk < |documents| && p.frequency == TermFrequency(t, documents[p.chunk], term) && p.frequency > 0
  }

  /** A postings list is strictly increasing by chunk, and each entry holds the
      number of times the term occurs in its chunk. */
  lemma {:induction false} PostingsAreSorted(t: CharTables, documents: seq<Document>, term: string)
    ensures AllTruthful(t, documents, term, PostingsFor(t, documents, term))
    ensures Increasing(PostingsFor(t, documents, term), ChunkOf)
  {
    hide Tokenize;
    if documents != [] {
      var n := |documents| - 1;
      PostingsAreSorted(t, documents[..n], term);
      var before := PostingsFor(t, documents[..n], term);
      forall i | 0 <= i < |before| ensures Truthful(t, documents, term, before[i]) && before[i].chunk < n {
        assert Truthful(t, documents[..n], term, before[i]);
      }
    }
  }

  lemma {:induction false} PostingsAreComplete(t: CharTables, documents: seq<Document>, term: string, c: nat)
    requires c < |documents| && TermFrequency(t, documents[c], term) > 0
    ensures Posting(c, TermFrequency(t, documents[c], term)) in PostingsFor(t, documents, term)
  {
    hide TermFrequency;
    if c < |documents| - 1 {
      PostingsAreComplete(t, documents[..|documents| - 1], term, c);
    }
  }

  ghost predicate Holds(t: CharTables, documents: seq<Document>, raw: string, c: nat) {
    c < |documents| && HasRaw(t, documents[c], raw)
  }

  /** The exact lane lists a chunk exactly when the raw token occurs in it, in order. */
  lemma {:induction false} ExactListsOccurrences(t: CharTables, documents: seq<Document>, raw: string)
    ensures forall c: nat :: c in ExactFor(t, documents, raw) <==> Holds(t, documents, raw, c)
    ensures Increasing(ExactFor(t, documents, raw), Itself)
  {
    hide HasRaw;
    if documents != [] {
      var n := |documents| - 1;
      ExactListsOccurrences(t, documents[..n], raw);
      var before := ExactFor(t, documents[..n], raw);
      forall c: nat ensures c in before <==> Holds(t, documents, raw, c) && c < n {
        assert c in before <==> Holds(t, documents[..n], raw, c);
      }
      forall i | 0 <= i < |before| ensures before[i] < n {
        assert before[i] in before;
      }
    }
  }

  function SumOver(counts: multiset<string>, terms: seq<string>): nat {
    if terms == [] then 0 else SumOver(counts, terms[..|terms| - 1]) + counts[terms[|terms| - 1]]
  }

  /** The counts of a document's terms sum to its token count. */
  lemma {:induction false} CountsSumToLength(tokens: seq<string>, terms: seq<string>)
    requires Distinct(terms) && forall x :: x in tokens ==> x in terms
    ensures SumOver(multiset(tokens), terms) == |tokens|
  {
    if tokens == [] {
      SumOfNothing(terms);
    } else {
      var rest, last := tokens[..|tokens| - 1], tokens[|tokens| - 1];
      CountsSumToLength(rest, terms);
      assert tokens == rest + [last];
      SumOneMore(multiset(rest), terms, last);
    }
  }

  lemma {:induction false} SumOfNothing(terms: seq<string>)
    ensures SumOver(multiset{}, terms) == 0
  {
    if terms != [] {
      SumOfNothing(terms[..|terms| - 1]);
    }
  }

  lemma {:induction false} SumOneMore(counts: multiset<string>, terms: seq<string>, x: string)
    requires Distinct(terms)
    ensures SumOver(counts + multiset{x}, terms) == SumOver(counts, terms) + if x in terms then 1 else 0
  {
    if terms != [] {
      SumOneMore(counts, terms[..|terms| - 1], x);
    }
  }

  // ------------------------------------------------------------------------
  // Building

  method Tally(tokens: seq<string>) returns (counts: map<string, nat>)
    ensures forall term: string :: term in counts <==> term in tokens
    ensures forall term :: term in counts ==> counts[term] == multiset(tokens)[term]
  {
    counts := map[];
    for i := 0 to |tokens|
      invariant forall term: string :: term in counts <==> term in tokens[..i]
      invariant forall term :: term in counts ==> counts[term] == multiset(tokens[..i])[term]
    {
      assert tokens[..i + 1] == tokens[..i] + [tokens[i]];
      counts := counts[tokens[i] := (if tokens[i] in counts then counts[tokens[i]] else 0) + 1];
    }
    assert tokens[..|tokens|] == tokens;
  }

  ghost predicate NoneEmpty<T>(lists: map<string, seq<T>>) {
    forall key :: key in lists ==> lists[key] != []
  }

  /** `after` is `lists` with `x(key)` behind the list of every key that is `added`. */
  ghost predicate Extended<T>(lists: map<string, seq<T>>, after: map<string, seq<T>>, added: string -> bool,
                              x: string -> T)
  {
    && (forall key: string :: Lookup(after, key) == Lookup(lists, key) + if added(key) then [x(key)] else [])
    && (NoneEmpty(lists) ==> NoneEmpty(after))
  }

  lemma ExtendOne<T>(lists: map<string, seq<T>>, after: map<string, seq<T>>, added: string -> bool,
                     more: string -> bool, x: string -> T, key: string)
    requires Extended(lists, after, added, x) && !added(key)
    requires forall k: string :: more(k) <==> added(k) || k == key
    ensures Extended(lists, after[key := Lookup(after, key) + [x(key)]], more, x)
  {
    var next := after[key := Lookup(after, key) + [x(key)]];
    forall k: string ensures Lookup(next, k) == Lookup(lists, k) + if more(k) then [x(k)] else [] {
      assert more(k) <==> added(k) || k == key;
      assert Lookup(after, k) == Lookup(lists, k) + if added(k) then [x(k)] else [];
    }
  }

  function PostingAt(counts: map<string, nat>, chunk: nat): string -> Posting {
    term => Posting(chunk, if term in counts then counts[term] else 0)
  }

  function CountedBut(counts: map<string, nat>, rest: set<string>): string -> bool {
    term => term in counts && term !in rest
  }

  /** Appends one chunk's counts, in whatever order the tally yields them. */
  method AddPostings(postings: map<string, seq<Posting>>, counts: map<string, nat>, chunk: nat)
      returns (r: map<string, seq<Posting>>)
    ensures Extended(postings, r, CountedBut(counts, {}), PostingAt(counts, chunk))
  {
    hide Extended, Lookup;
    r := postings;
    var rest := counts.Keys;
    NothingExtended(postings, CountedBut(counts, rest), PostingAt(counts, chunk));
    while rest != {}
      invariant rest <= counts.Keys
      invariant Extended(postings, r, CountedBut(counts, rest), PostingAt(counts, chunk))
      decreases |rest|
    {
      var term :| term in rest;
      ExtendOne(postings, r, CountedBut(counts, rest), CountedBut(counts, rest - {term}), PostingAt(counts, chunk),
        term);
      rest := rest - {term};
      r := r[term := Lookup(r, term) + [Posting(chunk, counts[term])]];
    }
  }

  lemma NothingExtended<T>(lists: map<string, seq<T>>, added: string -> bool, x: string -> T)
    requires forall key: string :: !added(key)
    ensures Extended(lists, lists, added, x)
  {
  }

  predicate Below(list: seq<nat>, n: nat) {
    forall i :: 0 <= i < |list| ==> list[i] < n
  }

  /** The exact lane of the first `n` chunks: no list is empty, or names a later chunk. */
  ghost predicate LaneOf(exact: map<string, seq<nat>>, n: nat) {
    forall raw :: raw in exact ==> exact[raw] != [] && Below(exact[raw], n)
  }

  function NamedIn(raws: seq<string>): string -> bool {
    raw => raw in raws
  }

  function Constantly(chunk: nat): string -> nat {
    _ => chunk
  }

  /** Records the chunk once for each raw token in it. */
  method AddExact(exact: map<string, seq<nat>>, raws: seq<string>, chunk: nat) returns (r: map<string, seq<nat>>)
    requires LaneOf(exact, chunk)
    ensures Extended(exact, r, NamedIn(raws), Constantly(chunk)) && LaneOf(r, chunk + 1)
  {
    hide Extended, Lookup, LaneOf, NamedIn;
    r := exact;
    NoneNamed();
    NothingExtended(exact, NamedIn(raws[..0]), Constantly(chunk));
    for i := 0 to |raws|
      invariant Extended(exact, r, NamedIn(raws[..i]), Constantly(chunk))
    {
      var raw := raws[i];
      LastNamesChunk(exact, r, raws[..i], chunk, raw);
      NameOneMore(exact, r, raws, i, chunk);
      if raw in r {
        if r[raw][|r[raw]| - 1] != chunk {
          r := r[raw := r[raw] + [chunk]];
        }
      } else {
        r := r[raw := [chunk]];
      }
    }
    assert raws[..|raws|] == raws;
    ExtendedIsLane(exact, r, raws, chunk);
  }

  lemma NoneNamed()
    ensures forall raw: string :: !NamedIn([])(raw)
  {
  }

  /** A raw token's list ends with the chunk exactly when it has been recorded for it. */
  lemma LastNamesChunk(exact: map<string, seq<nat>>, r: map<string, seq<nat>>, named: seq<string>, chunk: nat,
                       raw: string)
    requires LaneOf(exact, chunk) && Extended(exact, r, NamedIn(named), Constantly(chunk))
    ensures raw in r ==> r[raw] != [] && (r[raw][|r[raw]| - 1] == chunk <==> raw in named)
    ensures raw !in r ==> raw !in named && Lookup(r, raw) + [chunk] == [chunk]
    ensures raw in r ==> Lookup(r, raw) == r[raw]
  {
    assert Lookup(r, raw) == Lookup(exact, raw) + if NamedIn(named)(raw) then [chunk] else [];
  }

  lemma NameOneMore(exact: map<string, seq<nat>>, r: map<string, seq<nat>>, raws: seq<string>, i: nat, chunk: nat)
    requires i < |raws| && Extended(exact, r, NamedIn(raws[..i]), Constantly(chunk))
    ensures var next := if raws[i] in raws[..i] then r else r[raws[i] := Lookup(r, raws[i]) + [chunk]];
      Extended(exact, next, NamedIn(raws[..i + 1]), Constantly(chunk))
  {
    hide Lookup, NoneEmpty;
    assert raws[..i + 1] == raws[..i] + [raws[i]];
    if raws[i] !in raws[..i] {
      ExtendOne(exact, r, NamedIn(raws[..i]), NamedIn(raws[..i + 1]), Constantly(chunk), raws[i]);
    } else {
      forall raw: string ensures NamedIn(raws[..i + 1])(raw) <==> NamedIn(raws[..i])(raw) {
      }
    }
  }

  lemma ExtendedIsLane(exact: map<string, seq<nat>>, r: map<string, seq<nat>>, raws: seq<string>, chunk: nat)
    requires LaneOf(exact, chunk) && Extended(exact, r, NamedIn(raws), Constantly(chunk))
    ensures LaneOf(r, chunk + 1)
  {
    forall raw | raw in r ensures r[raw] != [] && Below(r[raw], chunk + 1) {
      assert Lookup(r, raw) == Lookup(exact, raw) + if NamedIn(raws)(raw) then [chunk] else [];
    }
  }

  lemma ChunksSnoc(t: CharTables, documents: seq<Document>, i: nat)
    requires i < |documents|
    ensures ChunksFor(t, documents[..i + 1])
         == ChunksFor(t, documents[..i]) + [ChunkEntry(documents[i].path, |Tokenize(t, documents[i].content)|)]
    ensures TotalTokens(ChunksFor(t, documents[..i + 1]))
         == TotalTokens(ChunksFor(t, documents[..i])) + |Tokenize(t, documents[i].content)|
  {
    hide Tokenize;
    var before := ChunksFor(t, documents[..i]);
    var after := ChunksFor(t, documents[..i + 1]);
    assert after == before + [ChunkEntry(documents[i].path, |Tokenize(t, documents[i].content)|)];
    assert after[..|after| - 1] == before;
  }

  lemma PostingsSnoc(t: CharTables, documents: seq<Document>, i: nat, postings: map<string, seq<Posting>>,
                     counts: map<string, nat>, after: map<string, seq<Posting>>)
    requires i < |documents| && ListsMatch(postings, PostingsOf(t, documents[..i]))
    requires forall term: string :: term in counts <==> term in Tokenize(t, documents[i].content)
    requires forall term :: term in counts ==> counts[term] == TermFrequency(t, documents[i], term)
    requires Extended(postings, after, CountedBut(counts, {}), PostingAt(counts, i))
    ensures ListsMatch(after, PostingsOf(t, documents[..i + 1]))
  {
    hide Tokenize, Lookup;
    assert documents[..i + 1][..i] == documents[..i];
    forall term: string ensures Lookup(after, term) == PostingsOf(t, documents[..i + 1])(term) {
      assert Lookup(postings, term) == PostingsOf(t, documents[..i])(term);
      assert term in counts <==> TermFrequency(t, documents[i], term) > 0;
      assert CountedBut(counts, {})(term) <==> term in counts;
    }
  }

  lemma ExactSnoc(t: CharTables, documents: seq<Document>, i: nat, exact: map<string, seq<nat>>,
                  raws: seq<string>, after: map<string, seq<nat>>)
    requires i < |documents| && ListsMatch(exact, ExactOf(t, documents[..i]))
    requires raws == SplitRawTokens(t, documents[i].content)
    requires Extended(exact, after, NamedIn(raws), Constantly(i))
    ensures ListsMatch(after, ExactOf(t, documents[..i + 1]))
  {
    hide SplitRawTokens, Lookup;
    assert documents[..i + 1][..i] == documents[..i];
    forall raw: string ensures Lookup(after, raw) == ExactOf(t, documents[..i + 1])(raw) {
      assert Lookup(exact, raw) == ExactOf(t, documents[..i])(raw);
    }
  }

  /** Main result: the built index says exactly what the documents say. */
  method Build(t: CharTables, documents: seq<Document>) returns (ix: LexicalIndex)
    ensures Indexes(ix, t, documents)
  {
    hide Tokenize, SplitRawTokens, PostingsFor, ExactFor, TotalTokens, ListsMatch, ChunksFor, TokensOf;
    var postings: map<string, seq<Posting>> := map[];
    var exact: map<string, seq<nat>> := map[];
    var chunks: seq<ChunkEntry> := [];
    var totalTokens := 0;
    NoDocuments(t, documents);
    for i := 0 to |documents|
      invariant chunks == ChunksFor(t, documents[..i]) && totalTokens == TotalTokens(chunks)
      invariant ListsMatch(postings, PostingsOf(t, documents[..i]))
      invariant ListsMatch(exact, ExactOf(t, documents[..i]))
      invariant LaneOf(exact, i)
    {
      ChunksSnoc(t, documents, i);
      var chunk;
      chunk, postings, exact := IndexDocument(t, documents, i, postings, exact);
      totalTokens := totalTokens + chunk.tokenCount;
      chunks := chunks + [chunk];
    }
    assert documents[..|documents|] == documents;
    var avgDocLen := if |chunks| == 0 then 0.0 else totalTokens as real / |chunks| as real;
    ix := LexicalIndex(postings, chunks, avgDocLen, exact);
  }

  lemma NoDocuments(t: CharTables, documents: seq<Document>)
    ensures ChunksFor(t, documents[..0]) == [] && TotalTokens([]) == 0
    ensures ListsMatch(map[], PostingsOf(t, documents[..0])) && ListsMatch(map[], ExactOf(t, documents[..0]))
  {
  }

  /** One document into both lanes. */
  method IndexDocument(t: CharTables, documents: seq<Document>, i: nat,
                       postings: map<string, seq<Posting>>, exact: map<string, seq<nat>>)
      returns (chunk: ChunkEntry, postings': map<string, seq<Posting>>, exact': map<string, seq<nat>>)
    requires i < |documents|
    requires ListsMatch(postings, PostingsOf(t, documents[..i]))
    requires ListsMatch(exact, ExactOf(t, documents[..i]))
    requires LaneOf(exact, i)
    ensures chunk == ChunkEntry(documents[i].path, |Tokenize(t, documents[i].content)|)
    ensures ListsMatch(postings', PostingsOf(t, documents[..i + 1]))
    ensures ListsMatch(exact', ExactOf(t, documents[..i + 1]))
    ensures LaneOf(exact', i + 1)
  {
    hide SplitRawTokens, PostingsFor, ExactFor, LaneOf, TokensOf, Extended, Lookup;
    var rawTokens := SplitRawTokens(t, documents[i].content);
    var tokens := TokenizeRaw(t, rawTokens);
    chunk := ChunkEntry(documents[i].path, |tokens|);
    var counts := Tally(tokens);
    postings' := AddPostings(postings, counts, i);
    PostingsSnoc(t, documents, i, postings, counts, postings');
    exact' := AddExact(exact, rawTokens, i);
    ExactSnoc(t, documents, i, exact, rawTokens, exact');
  }

  // ------------------------------------------------------------------------
  // Persisting

  datatype PersistedLexical = PersistedLexical(
    postings: map<string, seq<Posting>>, exact: map<string, seq<nat>>, lengths: seq<nat>, paths: seq<string>)

  /** Stable insertion by key. */
  function InsertBy<T>(list: seq<T>, x: T, key: T -> nat): seq<T> {
    if list == [] || key(list[|list| - 1]) <= key(x) then list + [x]
    else InsertBy(list[..|list| - 1], x, key) + [list[|list| - 1]]
  }

  function SortBy<T>(list: seq<T>, key: T -> nat): seq<T> {
    if list == [] then [] else InsertBy(SortBy(list[..|list| - 1], key), list[|list| - 1], key)
  }

  lemma {:induction false} SortOfSorted<T>(list: seq<T>, key: T -> nat)
    requires Increasing(list, key)
    ensures SortBy(list, key) == list
  {
    if list != [] {
      SortOfSorted(list[..|list| - 1], key);
    }
  }

  function Export(ix: LexicalIndex): PersistedLexical {
    PersistedLexical(
      map term | term in ix.postings :: SortBy(ix.postings[term], ChunkOf),
      map raw | raw in ix.exact :: SortBy(ix.exact[raw], Itself),
      seq(|ix.chunks|, i requires 0 <= i < |ix.chunks| => ix.chunks[i].tokenCount),
      seq(|ix.chunks|, i requires 0 <= i < |ix.chunks| => ix.chunks[i].path))
  }

  /** Pairs paths with lengths, as far as both go. */
  function FromParts(p: PersistedLexical): LexicalIndex {
    var n := if |p.paths| <= |p.lengths| then |p.paths| else |p.lengths|;
    var chunks := seq(n, i requires 0 <= i < n => ChunkEntry(p.paths[i], p.lengths[i]));
    LexicalIndex(p.postings, chunks, AverageLength(chunks), p.exact)
  }

  /** A built index survives being exported and rebuilt unchanged. */
  lemma ExportRoundTrips(ix: LexicalIndex, t: CharTables, documents: seq<Document>)
    requires Indexes(ix, t, documents)
    ensures FromParts(Export(ix)) == ix
  {
    hide PostingsFor, ExactFor, ChunksFor, SortBy, TotalTokens, Tokenize;
    forall term | term in ix.postings ensures SortBy(ix.postings[term], ChunkOf) == ix.postings[term] {
      assert Lookup(ix.postings, term) == PostingsOf(t, documents)(term);
      PostingsAreSorted(t, documents, term);
      SortOfSorted(ix.postings[term], ChunkOf);
    }
    forall raw | raw in ix.exact ensures SortBy(ix.exact[raw], Itself) == ix.exact[raw] {
      assert Lookup(ix.exact, raw) == ExactOf(t, documents)(raw);
      ExactListsOccurrences(t, documents, raw);
      SortOfSorted(ix.exact[raw], Itself);
    }
    var back := FromParts(Export(ix));
    assert back.postings == ix.postings && back.exact == ix.exact;
    assert back.chunks == ix.chunks;
  }

  function ExactLookup(ix: LexicalIndex, identifier: string): seq<string>
    requires Below(Lookup(ix.exact, identifier), |ix.chunks|)
  {
    var ids := Lookup(ix.exact, identifier);
    seq(|ids|, i requires 0 <= i < |ids| => ix.chunks[ids[i]].path)
  }

  /** Exact lookup names, in order, the documents the identifier occurs in whole. */
  lemma ExactLookupIs(ix: LexicalIndex, t: CharTables, documents: seq<Document>, identifier: string)
    requires Indexes(ix, t, documents)
    ensures var ids := ExactFor(t, documents, identifier);
      && Below(Lookup(ix.exact, identifier), |ix.chunks|)
      && |ExactLookup(ix, identifier)| == |ids|
      && (forall c: nat :: c in ids <==> Holds(t, documents, identifier, c))
      && Increasing(ids, Itself)
      && (forall i :: 0 <= i < |ids| ==>
           ids[i] < |documents| && ExactLookup(ix, identifier)[i] == documents[ids[i]].path)
  {
    hide PostingsFor, ExactFor, HasRaw, Tokenize, TotalTokens;
    var ids := ExactFor(t, documents, identifier);
    assert Lookup(ix.exact, identifier) == ExactOf(t, documents)(identifier);
    ExactListsOccurrences(t, documents, identifier);
    forall i | 0 <= i < |ids| ensures ids[i] < |documents| {
      assert ids[i] in ids;
      assert Holds(t, documents, identifier, ids[i]);
    }
  }
}
