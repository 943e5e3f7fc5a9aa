/** Substring search over decoded text: the string library calls the output
    decoder and the batch parser are written in terms of, each with the
    contract its callers rely on. */
module Text {
  import opened Wrappers

  /** The word `w` occurs in `t` at position `i`. */
  ghost predicate OccursAt(t: string, w: string, i: int) {
    0 <= i && i + |w| <= |t| && t[i..i + |w|] == w
  }

  /** Some word of `watched` occurs in `t` at position `i`. */
  ghost predicate AnyOccursAt(t: string, watched: seq<string>, i: int) {
    exists w :: w in watched && OccursAt(t, w, i)
  }

  /** `i` is the first position at which a word of `watched` occurs in `t`. */
  ghost predicate IsFirst(t: string, watched: seq<string>, i: int) {
    AnyOccursAt(t, watched, i) && forall j :: j < i ==> !AnyOccursAt(t, watched, j)
  }

  /** No word of `watched` occurs in `t`. */
  ghost predicate Absent(t: string, watched: seq<string>) {
    forall j :: !AnyOccursAt(t, watched, j)
  }

  // The contract of each search is a lemma of its own, so that proofs about
  // which search is made need not carry what every search found.

  /** `r` is the answer to looking for `w` in `t` from `from` on. */
  ghost predicate IsFindFrom(t: string, w: string, from: nat, r: Option<nat>) {
    match r
    case Some(i) => from <= i && OccursAt(t, w, i) && forall j :: from <= j < i ==> !OccursAt(t, w, j)
    case None => forall j :: from <= j ==> !OccursAt(t, w, j)
  }

  /** `r` is the first position at which `w` occurs in `t`. */
  ghost predicate IsFind(t: string, w: string, r: Option<nat>) {
    IsFindFrom(t, w, 0, r)
  }

  /** `r` is the first position at which a word of `watched` occurs in `t`. */
  ghost predicate IsFindAny(t: string, watched: seq<string>, r: Option<nat>) {
    match r
    case Some(i) => IsFirst(t, watched, i)
    case None => Absent(t, watched)
  }

  function FindFrom(t: string, w: string, from: nat): (r: Option<nat>)
    ensures r.Some? ==> from <= r.value && r.value + |w| <= |t|
    decreases |t| - from
  {
    if from + |w| > |t| then None
    else if t[from..from + |w|] == w then Some(from)
    else FindFrom(t, w, from + 1)
  }

  /** First occurrence of `w` in `t`. */
  function Find(t: string, w: string): (r: Option<nat>)
    ensures r.Some? ==> r.value + |w| <= |t|
  {
    FindFrom(t, w, 0)
  }

  /** First occurrence of any word of `watched` in `t`. */
  function FindAny(t: string, watched: seq<string>): (r: Option<nat>)
    ensures r.Some? ==> r.value <= |t|
  {
    if watched == [] then None
    else
      var rest := FindAny(t, watched[1..]);
      var here := Find(t, watched[0]);
      if here.None? then rest
      else if rest.None? || here.value <= rest.value then here
      else rest
  }

  lemma {:induction false} FindFromIs(t: string, w: string, from: nat)
    ensures IsFindFrom(t, w, from, FindFrom(t, w, from))
    decreases |t| - from
  {
    if from + |w| <= |t| && t[from..from + |w|] != w {
      FindFromIs(t, w, from + 1);
    }
  }

  lemma FindIs(t: string, w: string)
    ensures IsFind(t, w, Find(t, w))
  {
    FindFromIs(t, w, 0);
  }

  lemma {:induction false} FindAnyIs(t: string, watched: seq<string>)
    ensures IsFindAny(t, watched, FindAny(t, watched))
  {
    if watched != [] {
      FindAnyIs(t, watched[1..]);
      FindIs(t, watched[0]);
      assert watched == [watched[0]] + watched[1..];
      assert forall j :: AnyOccursAt(t, watched, j)
                <==> OccursAt(t, watched[0], j) || AnyOccursAt(t, watched[1..], j);
    }
  }

  lemma FindUnique(t: string, w: string, r: Option<nat>)
    requires IsFind(t, w, r)
    ensures Find(t, w) == r
  {
    FindIs(t, w);
  }

  lemma FindAnyUnique(t: string, watched: seq<string>, r: Option<nat>)
    requires IsFindAny(t, watched, r)
    ensures FindAny(t, watched) == r
  {
    FindAnyIs(t, watched);
  }

  /** Looking for one more word: the earlier of the two matches. */
  lemma FindAnySnoc(t: string, watched: seq<string>, i: nat)
    requires i < |watched|
    ensures var before, here := FindAny(t, watched[..i]), Find(t, watched[i]);
      FindAny(t, watched[..i + 1]) ==
      if here.Some? && (before.None? || here.value < before.value) then here else before
  {
    var old_, new_ := watched[..i], watched[..i + 1];
    assert new_ == old_ + [watched[i]];
    forall j ensures AnyOccursAt(t, new_, j) <==> AnyOccursAt(t, old_, j) || OccursAt(t, watched[i], j) {
      if OccursAt(t, watched[i], j) {
        assert watched[i] in new_;
      }
    }
    FindAnyIs(t, old_);
    FindIs(t, watched[i]);
    var before, here := FindAny(t, old_), Find(t, watched[i]);
    FindAnyUnique(t, new_, if here.Some? && (before.None? || here.value < before.value) then here else before);
  }

  // ------------------------------------------------------------------------
  // Held-back suffixes

  /** `u` is a non-empty proper prefix of a watched word. */
  predicate Growable(u: string, watched: seq<string>) {
    0 < |u| && exists k :: 0 <= k < |watched| && |u| < |watched[k]| && watched[k][..|u|] == u
  }

  /** The last `k` characters of `t` could still grow into a watched word. */
  predicate TailGrows(t: string, watched: seq<string>, k: int) {
    0 <= k <= |t| && Growable(t[|t| - k..], watched)
  }

  /** `h` is the length of the longest suffix of `t` that is a proper prefix of
      a watched word. */
  ghost predicate IsHold(t: string, watched: seq<string>, h: int) {
    && 0 <= h <= |t|
    && (0 < h ==> TailGrows(t, watched, h))
    && forall k :: h < k ==> !TailGrows(t, watched, k)
  }

  function HoldFrom(t: string, watched: seq<string>, limit: nat): (h: nat)
    requires limit <= |t|
    ensures h <= limit
  {
    if limit == 0 then 0
    else if TailGrows(t, watched, limit) then limit
    else HoldFrom(t, watched, limit - 1)
  }

  /** Length of the longest suffix of `t` that could still grow into a watched word. */
  function Hold(t: string, watched: seq<string>): (h: nat)
    ensures h <= |t|
  {
    HoldFrom(t, watched, |t|)
  }

  lemma {:induction false} HoldFromIs(t: string, watched: seq<string>, limit: nat)
    requires limit <= |t|
    ensures var h := HoldFrom(t, watched, limit);
      && (0 < h ==> TailGrows(t, watched, h))
      && forall k :: h < k <= limit ==> !TailGrows(t, watched, k)
  {
    if limit != 0 && !TailGrows(t, watched, limit) {
      HoldFromIs(t, watched, limit - 1);
    }
  }

  lemma HoldIs(t: string, watched: seq<string>)
    ensures IsHold(t, watched, Hold(t, watched))
  {
    HoldFromIs(t, watched, |t|);
  }

  lemma HoldUnique(t: string, watched: seq<string>, h: nat)
    requires IsHold(t, watched, h)
    ensures Hold(t, watched) == h
  {
    HoldIs(t, watched);
    var g := Hold(t, watched);
    assert h < g ==> !TailGrows(t, watched, g);
    assert g < h ==> !TailGrows(t, watched, h);
  }

  // ------------------------------------------------------------------------
  // What more text can change

  /** An occurrence inside `t` survives any continuation, and an occurrence in
      the continued text that ends inside `t` was already there. */
  lemma OccursAppend(t: string, b: string, w: string, i: nat)
    ensures OccursAt(t, w, i) ==> OccursAt(t + b, w, i)
    ensures OccursAt(t + b, w, i) && i + |w| <= |t| ==> OccursAt(t, w, i)
  {
    if i + |w| <= |t| {
      assert (t + b)[i..i + |w|] == t[i..i + |w|];
    }
  }

  lemma SliceOfSlice(t: string, a: nat, b: nat, c: nat, d: nat)
    requires a <= b <= |t| && c <= d <= b - a
    ensures t[a..b][c..d] == t[a + c..a + d]
  {
    assert forall i :: 0 <= i < d - c ==> t[a..b][c..d][i] == t[a + c..a + d][i];
  }

  lemma FindAppend(t: string, b: string, w: string)
    requires Find(t, w).Some?
    ensures Find(t + b, w) == Find(t, w)
  {
    FindIs(t, w);
    var i := Find(t, w).value;
    OccursAppend(t, b, w, i);
    forall j: nat | j < i ensures !OccursAt(t + b, w, j) {
      OccursAppend(t, b, w, j);
    }
    FindUnique(t + b, w, Some(i));
  }

  /** Occurrences of a word in `t[k..]` are those of `t` at or after `k`. */
  lemma OccursShift(t: string, w: string, k: nat, i: nat)
    requires k <= |t|
    ensures OccursAt(t[k..], w, i) <==> OccursAt(t, w, k + i)
  {
    if k + i + |w| <= |t| {
      assert t[k..][i..i + |w|] == t[k + i..k + i + |w|];
    }
  }

  /** Hold-back is safe: when no watched word occurs in `t`, every occurrence
      that a continuation can complete starts inside the held suffix. */
  lemma HoldIsSafe(t: string, b: string, watched: seq<string>, w: string, i: nat)
    requires FindAny(t, watched).None? && w in watched
    requires OccursAt(t + b, w, i)
    ensures |t| - Hold(t, watched) <= i
  {
    OccursAppend(t, b, w, i);
    NotFound(t, watched, w, i);
    if i < |t| {
      var u := t[i..];
      SliceOfSlice(t + b, i, i + |w|, 0, |u|);
      assert u == (t + b)[i..i + |u|] == w[..|u|];
      var k :| 0 <= k < |watched| && watched[k] == w;
      assert TailGrows(t, watched, |u|);
      HoldIs(t, watched);
    }
  }

  lemma NotFound(t: string, watched: seq<string>, w: string, i: nat)
    requires FindAny(t, watched).None? && w in watched
    ensures !OccursAt(t, w, i)
  {
    FindAnyIs(t, watched);
    assert !AnyOccursAt(t, watched, i);
  }

  /** Hold-back is exact: a non-empty held suffix can be completed to a watched
      word, so nothing of it may be released. */
  lemma HoldIsNeeded(t: string, watched: seq<string>) returns (b: string)
    requires Hold(t, watched) > 0
    ensures AnyOccursAt(t + b, watched, |t| - Hold(t, watched))
  {
    HoldIs(t, watched);
    var h := Hold(t, watched);
    var u := t[|t| - h..];
    var k :| 0 <= k < |watched| && |u| < |watched[k]| && watched[k][..|u|] == u;
    var w := watched[k];
    b := w[|u|..];
    assert t + b == t[..|t| - h] + w;
    assert (t + b)[|t| - h..|t| - h + |w|] == w;
    assert w in watched && OccursAt(t + b, w, |t| - h);
  }

  /** Dropping everything but the held suffix moves every match by the dropped
      length and changes nothing else. */
  lemma HoldKeepsMatches(t: string, b: string, watched: seq<string>, k: nat, w: string, i: nat)
    requires k == |t| - Hold(t, watched)
    ensures OccursAt(t[k..] + b, w, i) <==> OccursAt(t + b, w, k + i)
  {
    assert t[k..] + b == (t + b)[k..];
    OccursShift(t + b, w, k, i);
  }

  /** `r`, found in a text of which the first `k` characters were dropped. */
  function Shift(r: Option<nat>, k: nat): Option<nat> {
    match r
    case None => None
    case Some(i) => Some(k + i)
  }

  /** With no watched word in `t`, the first occurrence of one in a continuation
      is found from the held suffix alone. */
  lemma FindAfterHold(t: string, b: string, watched: seq<string>, w: string, k: nat)
    requires FindAny(t, watched).None? && w in watched && k == |t| - Hold(t, watched)
    ensures Find(t + b, w) == Shift(Find(t[k..] + b, w), k)
  {
    hide Find, FindAny, Hold;
    FindIs(t[k..] + b, w);
    forall j: int ensures OccursAt(t + b, w, j) <==> k <= j && OccursAt(t[k..] + b, w, j - k) {
      if k <= j {
        HoldKeepsMatches(t, b, watched, k, w, j - k);
      } else if OccursAt(t + b, w, j) {
        HoldIsSafe(t, b, watched, w, j);
      }
    }
    FindUnique(t + b, w, Shift(Find(t[k..] + b, w), k));
  }

  lemma {:induction false} FindAnyAfterHold(t: string, b: string, watched: seq<string>, words: seq<string>, k: nat)
    requires FindAny(t, watched).None? && k == |t| - Hold(t, watched)
    requires forall w :: w in words ==> w in watched
    ensures FindAny(t + b, words) == Shift(FindAny(t[k..] + b, words), k)
  {
    if words != [] {
      FindAfterHold(t, b, watched, words[0], k);
      FindAnyAfterHold(t, b, watched, words[1..], k);
    }
  }

  /** The next held suffix depends on the current held suffix only. */
  lemma HoldOfHold(t: string, b: string, watched: seq<string>)
    ensures Hold(t[|t| - Hold(t, watched)..] + b, watched) == Hold(t + b, watched)
  {
    HoldIs(t, watched);
    HoldIs(t + b, watched);
    var kept := t[|t| - Hold(t, watched)..];
    var h := Hold(t + b, watched);
    if |kept| + |b| < h {
      TailGrowsPrefix(t, b, watched, h);
    }
    forall n: nat | n <= |kept| + |b|
      ensures TailGrows(kept + b, watched, n) <==> TailGrows(t + b, watched, n)
    {
      TailOfTail(t, b, watched, |kept|, n);
    }
    HoldUnique(kept + b, watched, h);
  }

  lemma TailOfTail(t: string, b: string, watched: seq<string>, k: nat, n: nat)
    requires k <= |t| && n <= k + |b|
    ensures TailGrows(t[|t| - k..] + b, watched, n) <==> TailGrows(t + b, watched, n)
  {
    assert (t[|t| - k..] + b)[k + |b| - n..] == (t + b)[|t| + |b| - n..];
  }

  lemma TailGrowsPrefix(t: string, b: string, watched: seq<string>, h: nat)
    requires |b| < h && TailGrows(t + b, watched, h)
    ensures TailGrows(t, watched, h - |b|)
  {
    var u := (t + b)[|t| + |b| - h..];
    var m :| 0 <= m < |watched| && |u| < |watched[m]| && watched[m][..|u|] == u;
    var v := t[|t| - (h - |b|)..];
    assert v == u[..|v|] == watched[m][..|v|];
  }
}
