/** Fanning independent fetches out over worker threads: whatever the number of
    workers and however they are interleaved, the answer is the serial one. */
module FetchAll {
  import opened Wrappers

  datatype ReadFanout = Serial | Parallel(workers: nat)

  /** All values in order, or the first error in order. */
  function Collect<T, E>(results: seq<Result<T, E>>): Result<seq<T>, E> {
    if results == [] then Success([])
    else
      match results[0]
      case Failure(e) => Failure(e)
      case Success(v) =>
        match Collect(results[1..])
        case Failure(e) => Failure(e)
        case Success(vs) => Success([v] + vs)
  }

  function FetchEach<I, T, E>(items: seq<I>, fetch: I -> Result<T, E>): (r: seq<Result<T, E>>)
    ensures |r| == |items|
  {
    seq(|items|, i requires 0 <= i < |items| => fetch(items[i]))
  }

  function Min(a: nat, b: nat): nat {
    if a < b then a else b
  }

  function DivCeil(a: nat, b: nat): nat
    requires 0 < b
  {
    (a + b - 1) / b
  }

  /** Consecutive pieces of `size` items, the last one possibly shorter. */
  function Chunks<I>(items: seq<I>, size: nat): seq<seq<I>>
    requires 0 < size
  {
    if items == [] then []
    else [items[..Min(size, |items|)]] + Chunks(items[Min(size, |items|)..], size)
  }

  /** What is left after the first chunk. */
  function Rest<I>(items: seq<I>, size: nat): seq<I> {
    items[Min(size, |items|)..]
  }

  lemma {:induction false} ChunkIs<I>(items: seq<I>, size: nat, w: nat)
    requires 0 < size && w < |Chunks(items, size)|
    ensures w * size < |items|
    ensures Chunks(items, size)[w] == items[w * size..Min(w * size + size, |items|)]
  {
    if w != 0 {
      ChunkIs(Rest(items, size), size, w - 1);
      LaterChunk(items, size, w);
    }
  }

  /** A chunk of the rest is the next chunk of the whole. */
  lemma LaterChunk<I>(items: seq<I>, size: nat, w: nat)
    requires 0 < size && 0 < w && (w - 1) * size < |Rest(items, size)|
    ensures w * size < |items|
    ensures var at := (w - 1) * size;
      Rest(items, size)[at..Min(at + size, |Rest(items, size)|)] == items[w * size..Min(w * size + size, |items|)]
  {
    TimesNext(w - 1, size);
    Shifted(items, size, (w - 1) * size);
  }

  lemma TimesNext(w: nat, size: nat)
    ensures (w + 1) * size == w * size + size
  {
  }

  lemma Shifted<I>(items: seq<I>, size: nat, at: nat)
    requires at < |Rest(items, size)|
    ensures at + size < |items|
    ensures Rest(items, size)[at..Min(at + size, |Rest(items, size)|)]
      == items[at + size..Min(at + size + size, |items|)]
  {
  }

  /** The chunks join up to the items; none is empty, and only the last can be
      shorter than `size`. */
  lemma {:induction false} ChunksCover<I>(items: seq<I>, size: nat)
    requires 0 < size
    ensures Flatten(Chunks(items, size)) == items
    ensures |items| <= |Chunks(items, size)| * size
    ensures forall w :: 0 <= w < |Chunks(items, size)| ==>
      0 < |Chunks(items, size)[w]| <= size && (w + 1 < |Chunks(items, size)| ==> |Chunks(items, size)[w]| == size)
  {
    if items != [] {
      var rest := Rest(items, size);
      ChunksCover(rest, size);
      TimesNext(|Chunks(rest, size)|, size);
      assert items == items[..Min(size, |items|)] + rest;
    }
  }

  /** The worker threads: what each has fetched of its own chunk so far. */
  ghost predicate InProgress<I, T, E>(chunks: seq<seq<I>>, done: seq<seq<Result<T, E>>>, fetch: I -> Result<T, E>) {
    && |done| == |chunks|
    && forall w :: 0 <= w < |chunks| ==> done[w] <= FetchEach(chunks[w], fetch)
  }

  lemma OneMore<I, T, E>(chunk: seq<I>, fetched: seq<Result<T, E>>, fetch: I -> Result<T, E>)
    requires fetched <= FetchEach(chunk, fetch) && |fetched| < |chunk|
    ensures fetched + [fetch(chunk[|fetched|])] <= FetchEach(chunk, fetch)
  {
    assert FetchEach(chunk, fetch)[|fetched|] == fetch(chunk[|fetched|]);
  }

  /** How often the scheduler picked thread `w`. */
  function Turns(schedule: seq<nat>, w: nat): nat {
    if schedule == [] then 0
    else
      var n := |schedule| - 1;
      Turns(schedule[..n], w) + if schedule[n] == w then 1 else 0
  }

  /** Each thread has fetched one item of its chunk, in order, every time it was
      picked, until it was done. */
  ghost predicate AfterTurns<I, T, E>(chunks: seq<seq<I>>, done: seq<seq<Result<T, E>>>, schedule: seq<nat>) {
    && |done| == |chunks|
    && forall w :: 0 <= w < |chunks| ==> |done[w]| == Min(Turns(schedule, w), |chunks[w]|)
  }

  /** The threads run for a while, in the order the scheduler picks them. */
  method RunWorkers<I, T, E>(chunks: seq<seq<I>>, fetch: I -> Result<T, E>, schedule: seq<nat>)
      returns (done: seq<seq<Result<T, E>>>)
    ensures InProgress(chunks, done, fetch)
    ensures AfterTurns(chunks, done, schedule)
  {
    done := seq(|chunks|, _ => []);
    for s := 0 to |schedule|
      invariant InProgress(chunks, done, fetch)
      invariant AfterTurns(chunks, done, schedule[..s])
    {
      assert schedule[..s + 1] == schedule[..s] + [schedule[s]];
      var w := schedule[s];
      if w < |chunks| && |done[w]| < |chunks[w]| {
        OneMore(chunks[w], done[w], fetch);
        done := done[w := done[w] + [fetch(chunks[w][|done[w]|])]];
      }
    }
    assert schedule[..|schedule|] == schedule;
  }

  /** Waits for one thread to get through its chunk. */
  method Join<I, T, E>(chunk: seq<I>, fetched: seq<Result<T, E>>, fetch: I -> Result<T, E>)
      returns (all: seq<Result<T, E>>)
    requires fetched <= FetchEach(chunk, fetch)
    ensures all == FetchEach(chunk, fetch)
  {
    all := fetched;
    while |all| < |chunk|
      invariant all <= FetchEach(chunk, fetch)
    {
      OneMore(chunk, all, fetch);
      all := all + [fetch(chunk[|all|])];
    }
  }

  /** The first `n` slots hold their items' results, and the others are empty. */
  ghost predicate FilledUpTo<I, T, E>(slots: seq<Option<Result<T, E>>>, items: seq<I>, fetch: I -> Result<T, E>,
                                      n: nat)
  {
    && |slots| == |items|
    && forall j :: 0 <= j < |items| ==> slots[j] == if j < n then Some(fetch(items[j])) else None
  }

  /** Moves one thread's results into its slots, each of which is still empty. */
  method FillSlots<I, T, E>(before: seq<Option<Result<T, E>>>, start: nat, fetched: seq<Result<T, E>>,
                            ghost items: seq<I>, ghost fetch: I -> Result<T, E>)
      returns (slots: seq<Option<Result<T, E>>>)
    requires FilledUpTo(before, items, fetch, start)
    requires start + |fetched| <= |items| && fetched == FetchEach(items[start..start + |fetched|], fetch)
    ensures FilledUpTo(slots, items, fetch, start + |fetched|)
  {
    slots := before;
    for offset := 0 to |fetched|
      invariant FilledUpTo(slots, items, fetch, start + offset)
    {
      assert slots[start + offset].None?;
      assert items[start..start + |fetched|][offset] == items[start + offset];
      slots := slots[start + offset := Some(fetched[offset])];
    }
  }

  /** The size is the least for which `workers` chunks are enough. */
  lemma SmallestSize(n: nat, workers: nat)
    requires 0 < n && 0 < workers
    ensures 0 < DivCeil(n, workers)
    ensures (DivCeil(n, workers) - 1) * workers < n <= DivCeil(n, workers) * workers
  {
    var m := n + workers - 1;
    assert m == workers * (m / workers) + m % workers;
    SizePositive(n, workers);
  }

  /** There are no more chunks than workers asked for, and no smaller chunks would do. */
  lemma NoMoreThanWorkers<I>(items: seq<I>, workers: nat)
    requires 0 < workers && items != []
    ensures 0 < DivCeil(|items|, workers) && |Chunks(items, DivCeil(|items|, workers))| <= workers
    ensures (DivCeil(|items|, workers) - 1) * workers < |items|
  {
    hide Chunks, DivCeil;
    SmallestSize(|items|, workers);
    var size := DivCeil(|items|, workers);
    var n := |Chunks(items, size)|;
    if workers < n {
      ChunkIs(items, size, n - 1);
      Product(workers, n - 1, size);
    }
  }

  lemma Product(a: nat, b: nat, size: nat)
    requires a <= b
    ensures a * size <= b * size
  {
  }

  /** Main result: for every fan-out and every schedule the result is that of
      fetching serially, every slot is filled exactly once, and no more threads are
      started than asked for. */
  method FetchAll<I, T, E>(fanout: ReadFanout, items: seq<I>, fetch: I -> Result<T, E>, schedule: seq<nat>)
      returns (r: Result<seq<T>, E>, ghost threads: nat)
    ensures r == Collect(FetchEach(items, fetch))
    ensures threads <= |items| && threads <= (match fanout case Serial => 0 case Parallel(n) => n)
  {
    hide Chunks;
    threads := 0;
    if items == [] {
      return Success([]), 0;
    }
    hide Collect;
    var workers := match fanout case Serial => 1 case Parallel(n) => Min(if n == 0 then 1 else n, |items|);
    if workers <= 1 {
      return Collect(FetchEach(items, fetch)), 0;
    }
    var size := DivCeil(|items|, workers);
    SizePositive(|items|, workers);
    hide DivCeil, FetchEach;
    var chunks := Chunks(items, size);
    NoMoreThanWorkers(items, workers);
    threads := |chunks|;
    var done := RunWorkers(chunks, fetch, schedule);
    var results: seq<Option<Result<T, E>>> := seq(|items|, _ => None);
    for w := 0 to |chunks|
      invariant FilledUpTo(results, items, fetch, Min(w * size, |items|))
    {
      ChunkIs(items, size, w);
      TimesNext(w, size);
      var fetched := Join(chunks[w], done[w], fetch);
      results := FillSlots(results, w * size, fetched, items, fetch);
    }
    ChunksCover(items, size);
    var slots: seq<Result<T, E>> := seq(|items|, i requires 0 <= i < |results| && results[i].Some? => results[i].value);
    SlotsAreAll(results, slots, items, fetch);
    return Collect(slots), threads;
  }

  lemma SlotsAreAll<I, T, E>(results: seq<Option<Result<T, E>>>, slots: seq<Result<T, E>>, items: seq<I>,
                             fetch: I -> Result<T, E>)
    requires FilledUpTo(results, items, fetch, |items|)
    requires |slots| == |items| && forall i :: 0 <= i < |items| ==> results[i] == Some(slots[i])
    ensures slots == FetchEach(items, fetch)
  {
  }

  lemma SizePositive(n: nat, workers: nat)
    requires 0 < n && 0 < workers
    ensures 0 < DivCeil(n, workers)
  {
    assert n + workers - 1 >= workers;
  }

  /** What the serial answer is: every value in item order, or the error of the
      earliest item that failed. */
  lemma {:induction false} CollectIs<T, E>(results: seq<Result<T, E>>)
    ensures match Collect(results)
            case Success(vs) =>
              |vs| == |results| && forall i :: 0 <= i < |vs| ==> results[i] == Success(vs[i])
            case Failure(e) =>
              exists i :: 0 <= i < |results| && results[i] == Failure(e)
                && forall j :: 0 <= j < i ==> results[j].Success?
  {
    if results != [] && results[0].Success? {
      CollectIs(results[1..]);
      match Collect(results[1..]) {
        case Success(vs) =>
          forall i | 0 <= i < |results| ensures results[i] == Success(([results[0].value] + vs)[i]) {
            if 0 < i {
              assert results[1..][i - 1] == results[i];
            }
          }
        case Failure(e) =>
          var i :| 0 <= i < |results[1..]| && results[1..][i] == Failure(e)
                   && forall j :: 0 <= j < i ==> results[1..][j].Success?;
          forall j | 0 <= j < i + 1 ensures results[j].Success? {
            if 0 < j {
              assert results[1..][j - 1] == results[j];
            }
          }
          assert results[i + 1] == Failure(e);
      }
    }
  }
}
