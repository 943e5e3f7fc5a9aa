/** Counting every marker of a language fingerprint in one overlapping scan. */
module MarkerScan {
  import opened Wrappers
  import opened Text

  /** One reported occurrence. */
  datatype Match = Match(pattern: nat, start: nat, end: nat)

  /** What an overlapping automaton search reports: every occurrence of every
      pattern, by nondecreasing end. */
  ghost predicate ReportsAll(text: string, patterns: seq<string>, matches: seq<Match>) {
    && (forall j :: 0 <= j < |matches| ==> IsMatch(text, patterns, matches[j]))
    && (forall j, k :: 0 <= j < k < |matches| ==> matches[j].end <= matches[k].end)
    && (forall id, start: nat :: 0 <= id < |patterns| && OccursAt(text, patterns[id], start) ==>
          Reported(matches, id, start, 0))
  }

  ghost predicate IsMatch(text: string, patterns: seq<string>, m: Match) {
    && m.pattern < |patterns|
    && OccursAt(text, patterns[m.pattern], m.start)
    && m.end == m.start + |patterns[m.pattern]|
  }

  ghost predicate Reported(matches: seq<Match>, id: nat, start: nat, from: nat) {
    exists j :: from <= j < |matches| && matches[j].pattern == id && matches[j].start == start
  }

  // ------------------------------------------------------------------------
  // A separate rescan for each pattern

  /** The leftmost, non-overlapping occurrences from `from` on. */
  function Rescan(text: string, pattern: string, from: nat): seq<nat>
    requires pattern != ""
    decreases |text| - from
  {
    match FindFrom(text, pattern, from)
    case None => []
    case Some(s) => [s] + Rescan(text, pattern, s + |pattern|)
  }

  lemma FindFromUnique(text: string, pattern: string, from: nat, s: nat)
    requires from <= s && OccursAt(text, pattern, s)
    requires forall j: nat :: from <= j && OccursAt(text, pattern, j) ==> s <= j
    ensures FindFrom(text, pattern, from) == Some(s)
  {
    hide FindFrom, OccursAt;
    FindFromIs(text, pattern, from);
    var r := FindFrom(text, pattern, from);
    assert r.Some? ==> OccursAt(text, pattern, r.value);
  }

  /** Occurrences in order that do not overlap. */
  ghost predicate Disjoint(text: string, pattern: string, from: nat, starts: seq<nat>) {
    && (forall i :: 0 <= i < |starts| ==> from <= starts[i] && OccursAt(text, pattern, starts[i]))
    && (forall i, j :: 0 <= i < j < |starts| ==> starts[i] + |pattern| <= starts[j])
  }

  lemma {:induction false} RescanIsDisjoint(text: string, pattern: string, from: nat)
    requires pattern != ""
    ensures Disjoint(text, pattern, from, Rescan(text, pattern, from))
    decreases |text| - from
  {
    hide OccursAt, FindFrom;
    FindFromIs(text, pattern, from);
    match FindFrom(text, pattern, from)
    case None =>
    case Some(s) => RescanIsDisjoint(text, pattern, s + |pattern|);
  }

  /** Taking the leftmost each time loses nothing: no choice of occurrences that
      do not overlap is larger. */
  lemma {:induction false} RescanIsMost(text: string, pattern: string, from: nat, starts: seq<nat>)
    requires pattern != "" && Disjoint(text, pattern, from, starts)
    ensures |starts| <= |Rescan(text, pattern, from)|
    decreases |starts|
  {
    hide OccursAt, FindFrom;
    FindFromIs(text, pattern, from);
    if starts != [] {
      assert OccursAt(text, pattern, starts[0]);
      var s := FindFrom(text, pattern, from).value;
      DisjointRest(text, pattern, from, s, starts);
      RescanIsMost(text, pattern, s + |pattern|, starts[1..]);
    }
  }

  lemma DisjointRest(text: string, pattern: string, from: nat, s: nat, starts: seq<nat>)
    requires starts != [] && Disjoint(text, pattern, from, starts) && s <= starts[0]
    ensures Disjoint(text, pattern, s + |pattern|, starts[1..])
  {
    hide OccursAt;
  }

  // ------------------------------------------------------------------------
  // One scan for all patterns

  /** Where one pattern's count stands once `done` matches have been read. */
  ghost predicate Follows(text: string, pattern: string, id: nat, matches: seq<Match>, done: nat, count: nat,
                          cursor: nat)
    requires pattern != ""
  {
    && count + |Rescan(text, pattern, cursor)| == |Rescan(text, pattern, 0)|
    && forall s: nat :: cursor <= s && OccursAt(text, pattern, s) ==> Reported(matches, id, s, done)
  }

  /** A match of another pattern, or one behind the cursor, changes nothing. */
  lemma PassedOver(text: string, patterns: seq<string>, id: nat, matches: seq<Match>, done: nat, count: nat,
                   cursor: nat)
    requires id < |patterns| && patterns[id] != "" && done < |matches|
    requires Follows(text, patterns[id], id, matches, done, count, cursor)
    requires matches[done].pattern != id || matches[done].start < cursor
    ensures Follows(text, patterns[id], id, matches, done + 1, count, cursor)
  {
    hide Rescan, OccursAt;
    var pattern := patterns[id];
    forall s: nat | cursor <= s && OccursAt(text, pattern, s) ensures Reported(matches, id, s, done + 1) {
      assert Reported(matches, id, s, done);
    }
  }

  lemma MatchAt(text: string, patterns: seq<string>, matches: seq<Match>, j: nat)
    requires ReportsAll(text, patterns, matches) && j < |matches|
    ensures IsMatch(text, patterns, matches[j])
  {
  }

  lemma LaterMatch(text: string, patterns: seq<string>, matches: seq<Match>, j: nat, k: nat)
    requires ReportsAll(text, patterns, matches) && j <= k < |matches|
    ensures matches[j].end <= matches[k].end
  {
  }

  /** A match at or after the cursor is the next one a rescan would find. */
  lemma Counted(text: string, patterns: seq<string>, id: nat, matches: seq<Match>, done: nat, count: nat, cursor: nat)
    requires id < |patterns| && patterns[id] != "" && done < |matches| && ReportsAll(text, patterns, matches)
    requires Follows(text, patterns[id], id, matches, done, count, cursor)
    requires matches[done].pattern == id && cursor <= matches[done].start
    ensures Follows(text, patterns[id], id, matches, done + 1, count + 1, matches[done].end)
  {
    hide OccursAt, FindFrom, ReportsAll;
    var pattern := patterns[id];
    var m := matches[done];
    MatchAt(text, patterns, matches, done);
    assert IsMatch(text, patterns, m);
    forall s: nat | cursor <= s && OccursAt(text, pattern, s) ensures m.start <= s {
      assert Reported(matches, id, s, done);
      var j :| done <= j < |matches| && matches[j].pattern == id && matches[j].start == s;
      MatchAt(text, patterns, matches, j);
      LaterMatch(text, patterns, matches, done, j);
    }
    FindFromUnique(text, pattern, cursor, m.start);
    assert Rescan(text, pattern, cursor) == [m.start] + Rescan(text, pattern, m.end);
    forall s: nat | m.end <= s && OccursAt(text, pattern, s) ensures Reported(matches, id, s, done + 1) {
      assert Reported(matches, id, s, done);
    }
  }

  lemma NothingLeft(text: string, pattern: string, id: nat, matches: seq<Match>, count: nat, cursor: nat)
    requires pattern != "" && Follows(text, pattern, id, matches, |matches|, count, cursor)
    ensures count == |Rescan(text, pattern, 0)|
  {
    hide OccursAt, FindFrom;
    FindFromIs(text, pattern, cursor);
    assert FindFrom(text, pattern, cursor).None? ==> Rescan(text, pattern, cursor) == [];
    assert forall s: nat :: cursor <= s ==> !OccursAt(text, pattern, s) by {
      forall s: nat | cursor <= s ensures !OccursAt(text, pattern, s) {
        assert !Reported(matches, id, s, |matches|);
      }
    }
  }

  ghost predicate AllFollow(text: string, patterns: seq<string>, matches: seq<Match>, done: nat, counts: seq<nat>,
                            lastEnd: seq<nat>)
  {
    && |counts| == |lastEnd| == |patterns|
    && (forall id :: 0 <= id < |patterns| ==> patterns[id] != "")
    && (forall id :: 0 <= id < |patterns| ==> Follows(text, patterns[id], id, matches, done, counts[id], lastEnd[id]))
  }

  lemma ScanStarts(text: string, patterns: seq<string>, matches: seq<Match>, zeros: seq<nat>)
    requires ReportsAll(text, patterns, matches) && forall id :: 0 <= id < |patterns| ==> patterns[id] != ""
    requires |zeros| == |patterns| && forall id :: 0 <= id < |zeros| ==> zeros[id] == 0
    ensures AllFollow(text, patterns, matches, 0, zeros, zeros)
  {
    hide Rescan, OccursAt;
  }

  lemma ScanSkips(text: string, patterns: seq<string>, matches: seq<Match>, done: nat, counts: seq<nat>,
                  lastEnd: seq<nat>)
    requires AllFollow(text, patterns, matches, done, counts, lastEnd)
    requires done < |matches| && matches[done].pattern < |patterns|
      && matches[done].start < lastEnd[matches[done].pattern]
    ensures AllFollow(text, patterns, matches, done + 1, counts, lastEnd)
  {
    hide Follows;
    forall id | 0 <= id < |patterns|
      ensures Follows(text, patterns[id], id, matches, done + 1, counts[id], lastEnd[id])
    {
      PassedOver(text, patterns, id, matches, done, counts[id], lastEnd[id]);
    }
  }

  lemma ScanCounts(text: string, patterns: seq<string>, matches: seq<Match>, done: nat, counts: seq<nat>,
                   lastEnd: seq<nat>)
    requires AllFollow(text, patterns, matches, done, counts, lastEnd) && ReportsAll(text, patterns, matches)
    requires done < |matches| && matches[done].pattern < |patterns|
      && lastEnd[matches[done].pattern] <= matches[done].start
    ensures var p := matches[done].pattern;
      AllFollow(text, patterns, matches, done + 1, counts[p := counts[p] + 1], lastEnd[p := matches[done].end])
  {
    hide Follows, ReportsAll;
    var p := matches[done].pattern;
    var counts', lastEnd' := counts[p := counts[p] + 1], lastEnd[p := matches[done].end];
    forall id | 0 <= id < |patterns|
      ensures Follows(text, patterns[id], id, matches, done + 1, counts'[id], lastEnd'[id])
    {
      if id == p {
        Counted(text, patterns, id, matches, done, counts[id], lastEnd[id]);
      } else {
        PassedOver(text, patterns, id, matches, done, counts[id], lastEnd[id]);
      }
    }
  }

  /** Main result: a single overlapping scan with one cursor per pattern counts,
      for every pattern, what rescanning for it alone would count. */
  method CountMarkers(text: string, patterns: seq<string>, matches: seq<Match>) returns (result: seq<nat>)
    requires forall id :: 0 <= id < |patterns| ==> patterns[id] != ""
    requires ReportsAll(text, patterns, matches)
    ensures |result| == |patterns|
    ensures forall id :: 0 <= id < |patterns| ==> result[id] == |Rescan(text, patterns[id], 0)|
  {
    hide AllFollow, Rescan, Follows, OccursAt, ReportsAll;
    var counts := new nat[|patterns|](_ => 0);
    var lastEnd := new nat[|patterns|](_ => 0);
    var started := new bool[|patterns|](_ => false);
    assert counts[..] == lastEnd[..];
    ScanStarts(text, patterns, matches, counts[..]);
    for j := 0 to |matches|
      invariant AllFollow(text, patterns, matches, j, counts[..], lastEnd[..])
      invariant forall id :: 0 <= id < |patterns| && !started[id] ==> lastEnd[id] == 0
    {
      var m := matches[j];
      MatchAt(text, patterns, matches, j);
      var id := m.pattern;
      if !started[id] || m.start >= lastEnd[id] {
        ScanCounts(text, patterns, matches, j, counts[..], lastEnd[..]);
        counts[id] := counts[id] + 1;
        lastEnd[id] := m.end;
        started[id] := true;
      } else {
        ScanSkips(text, patterns, matches, j, counts[..], lastEnd[..]);
      }
    }
    result := counts[..];
    ScanEnds(text, patterns, matches, counts[..], lastEnd[..]);
  }

  lemma ScanEnds(text: string, patterns: seq<string>, matches: seq<Match>, counts: seq<nat>, lastEnd: seq<nat>)
    requires AllFollow(text, patterns, matches, |matches|, counts, lastEnd)
    ensures forall id :: 0 <= id < |patterns| ==> patterns[id] != "" && counts[id] == |Rescan(text, patterns[id], 0)|
  {
    hide Rescan, Follows;
    forall id | 0 <= id < |patterns| ensures counts[id] == |Rescan(text, patterns[id], 0)| {
      NothingLeft(text, patterns[id], id, matches, counts[id], lastEnd[id]);
    }
  }
}
