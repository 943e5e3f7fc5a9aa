/** Incremental sync: a full walk diffed against the file table, the lexical lane
    committed at once, and the semantic lane filled in later, within a budget. */
module SyncEngine {
  import opened Wrappers
  import opened Tokens
  import opened LexicalIndex

  /** One scanned file; `text` is absent when it cannot be read. */
  datatype ScannedFile = ScannedFile(path: string, isRust: bool, text: Option<string>)

  datatype FileRecord = FileRecord(contentHash: Hash, generation: nat)

  datatype SyncPlan = SyncPlan(added: seq<string>, changed: seq<string>, deleted: seq<string>, same: seq<string>)

  type Contents = map<string, string>

  type Vector = seq<real>

  /** A content hash: bytes, compared for equality only. */
  type Hash = seq<bv8>

  // ------------------------------------------------------------------------
  // The walk

  ghost predicate DistinctPaths(files: seq<ScannedFile>) {
    forall i, j :: 0 <= i < j < |files| ==> files[i].path != files[j].path
  }

  /** The files sync sees: the readable Rust ones. */
  function Live(files: seq<ScannedFile>): Contents {
    if files == [] then map[]
    else
      var file := files[|files| - 1];
      var before := Live(files[..|files| - 1]);
      if file.isRust && file.text.Some? then before[file.path := file.text.value] else before
  }

  lemma {:induction false} LiveIsScanned(files: seq<ScannedFile>, path: string)
    requires path in Live(files)
    ensures exists i :: 0 <= i < |files| && files[i].path == path
  {
    if files[|files| - 1].path != path {
      LiveIsScanned(files[..|files| - 1], path);
    }
  }

  /** Sync sees a path exactly if it is a readable Rust file's, with that file's text. */
  lemma {:induction false} LiveIs(files: seq<ScannedFile>, i: nat)
    requires DistinctPaths(files) && i < |files|
    ensures files[i].path in Live(files) <==> files[i].isRust && files[i].text.Some?
    ensures files[i].path in Live(files) ==> Live(files)[files[i].path] == files[i].text.value
  {
    var n := |files| - 1;
    if i < n {
      LiveIs(files[..n], i);
    } else if files[i].path in Live(files[..n]) {
      LiveIsScanned(files[..n], files[i].path);
    }
  }

  datatype Standing = Added | Changed | Same | Deleted | Unknown

  /** What a path is to a table and to the contents walked since. */
  function StandingOf(table: map<string, FileRecord>, contents: Contents, hash: string -> Hash, path: string)
    : Standing
  {
    if path !in contents then if path in table then Deleted else Unknown
    else if path !in table then Added
    else if table[path].contentHash != hash(contents[path]) then Changed
    else Same
  }

  ghost predicate Lists(s: seq<string>, table: map<string, FileRecord>, contents: Contents,
                              hash: string -> Hash, standing: Standing)
  {
    Distinct(s) && forall path :: path in s <==> StandingOf(table, contents, hash, path) == standing
  }

  /** The lists of live paths. */
  ghost predicate LivePlan(table: map<string, FileRecord>, contents: Contents, hash: string -> Hash, plan: SyncPlan) {
    && Lists(plan.added, table, contents, hash, Added)
    && Lists(plan.changed, table, contents, hash, Changed)
    && Lists(plan.same, table, contents, hash, Same)
  }

  /** The plan sorts every path by its standing, naming each once. */
  ghost predicate PlanFor(table: map<string, FileRecord>, contents: Contents, hash: string -> Hash, plan: SyncPlan) {
    LivePlan(table, contents, hash, plan) && Lists(plan.deleted, table, contents, hash, Deleted)
  }

  method FullCorrectnessWalk(files: seq<ScannedFile>, table: map<string, FileRecord>, hash: string -> Hash)
      returns (plan: SyncPlan, contents: Contents)
    requires DistinctPaths(files)
    ensures contents == Live(files)
    ensures PlanFor(table, contents, hash, plan)
  {
    var seen: set<string> := {};
    plan := SyncPlan([], [], [], []);
    contents := map[];
    for i := 0 to |files|
      invariant contents == Live(files[..i]) && seen == contents.Keys
      invariant LivePlan(table, contents, hash, plan)
    {
      assert files[..i + 1][..i] == files[..i];
      var file := files[i];
      NotYetLive(files, i);
      if file.isRust && file.text.Some? {
        ghost var before := plan;
        var text := file.text.value;
        seen := seen + {file.path};
        if file.path !in table {
          plan := plan.(added := plan.added + [file.path]);
        } else if table[file.path].contentHash != hash(text) {
          plan := plan.(changed := plan.changed + [file.path]);
        } else {
          plan := plan.(same := plan.same + [file.path]);
        }
        PlanGrows(table, contents, hash, before, file.path, text);
        contents := contents[file.path := text];
      }
    }
    assert files[..|files|] == files;
    var deleted := MissingFrom(table.Keys, seen);
    assert forall path :: path in deleted <==> StandingOf(table, contents, hash, path) == Deleted;
    plan := plan.(deleted := deleted);
  }

  lemma NotYetLive(files: seq<ScannedFile>, i: nat)
    requires i < |files| && DistinctPaths(files)
    ensures files[i].path !in Live(files[..i])
  {
    if files[i].path in Live(files[..i]) {
      LiveIsScanned(files[..i], files[i].path);
    }
  }

  /** The table's paths not seen, in whatever order the table yields them. */
  method MissingFrom(keys: set<string>, seen: set<string>) returns (missing: seq<string>)
    ensures Distinct(missing) && forall path :: path in missing <==> path in keys && path !in seen
  {
    missing := [];
    var rest := keys;
    while rest != {}
      invariant rest <= keys
      invariant Distinct(missing)
      invariant forall path :: path in missing <==> path in keys && path !in rest && path !in seen
      decreases |rest|
    {
      var path :| path in rest;
      rest := rest - {path};
      if path !in seen {
        missing := missing + [path];
      }
    }
  }

  lemma PlanGrows(table: map<string, FileRecord>, contents: Contents, hash: string -> Hash, plan: SyncPlan,
                        path: string, text: string)
    requires path !in contents && LivePlan(table, contents, hash, plan)
    ensures var after := contents[path := text];
      var plan' := if path !in table then plan.(added := plan.added + [path])
                   else if table[path].contentHash != hash(text) then plan.(changed := plan.changed + [path])
                   else plan.(same := plan.same + [path]);
      LivePlan(table, after, hash, plan')
  {
    var after := contents[path := text];
    forall other | other != path
      ensures StandingOf(table, after, hash, other) == StandingOf(table, contents, hash, other)
    {
    }
    assert path !in plan.added && path !in plan.changed && path !in plan.same;
  }

  // ------------------------------------------------------------------------
  // The engine's state

  /** What the engine keeps, with the text each vector was made from and the
      contents last applied. */
  datatype State = State(
    table: map<string, FileRecord>, pending: set<string>, vectors: map<string, Vector>,
    madeFrom: map<string, string>, walked: Contents)

  /** The table records exactly the walked files and their hashes; only they are
      pending or have vectors; and each is pending or has the vector of a text
      with its recorded hash. */
  ghost predicate Current(s: State, hash: string -> Hash, vectorise: string -> Option<Vector>) {
    && s.table.Keys == s.walked.Keys
    && s.pending <= s.table.Keys
    && s.madeFrom.Keys == s.vectors.Keys <= s.table.Keys
    && forall path :: path in s.table ==> UpToDate(s, hash, vectorise, path)
  }

  ghost predicate UpToDate(s: State, hash: string -> Hash, vectorise: string -> Option<Vector>, path: string) {
    && path in s.table && path in s.walked && s.table[path].contentHash == hash(s.walked[path])
    && (path in s.vectors ==> path in s.madeFrom && vectorise(s.madeFrom[path]) == Some(s.vectors[path]))
    && (path !in s.pending ==>
          path in s.madeFrom && path in s.vectors && hash(s.madeFrom[path]) == s.table[path].contentHash)
  }

  function Members(s: seq<string>): set<string> {
    set path | path in s
  }

  function Recorded(contents: Contents, paths: seq<string>, hash: string -> Hash, generation: nat)
    : map<string, FileRecord>
  {
    map path | path in paths && path in contents :: FileRecord(hash(contents[path]), generation)
  }

  /** The state after committing a plan. */
  ghost function Applied(s: State, plan: SyncPlan, contents: Contents, hash: string -> Hash, generation: nat)
    : State
  {
    var updated, gone := plan.added + plan.changed, Members(plan.deleted);
    State((s.table + Recorded(contents, updated, hash, generation)) - gone,
          (s.pending + Members(updated)) - gone,
          s.vectors - gone,
          s.madeFrom - gone,
          contents)
  }

  /** Committing the plan of a walk keeps the engine current, now with what
      was walked. */
  lemma ApplyKeepsCurrent(s: State, plan: SyncPlan, contents: Contents, hash: string -> Hash,
                         vectorise: string -> Option<Vector>, generation: nat)
    requires Current(s, hash, vectorise) && PlanFor(s.table, contents, hash, plan)
    ensures Current(Applied(s, plan, contents, hash, generation), hash, vectorise)
  {
    hide PlanFor, UpToDate, Applied, Recorded;
    var after := Applied(s, plan, contents, hash, generation);
    assert after.walked == contents
      && after.madeFrom.Keys == after.vectors.Keys by { AppliedParts(s, plan, contents, hash, generation); }
    forall path
      ensures path in after.table <==> path in contents
      ensures path in after.pending || path in after.vectors ==> path in after.table
      ensures path in after.table ==> UpToDate(after, hash, vectorise, path)
    {
      assert path in s.table ==> UpToDate(s, hash, vectorise, path);
      AppliedAt(s, plan, contents, hash, vectorise, generation, path);
    }
  }

  lemma AppliedParts(s: State, plan: SyncPlan, contents: Contents, hash: string -> Hash, generation: nat)
    ensures var after := Applied(s, plan, contents, hash, generation);
      after.walked == contents && (s.madeFrom.Keys == s.vectors.Keys ==> after.madeFrom.Keys == after.vectors.Keys)
  {
  }

  /** What applying a plan makes of one path. */
  lemma AppliedAt(s: State, plan: SyncPlan, contents: Contents, hash: string -> Hash,
                        vectorise: string -> Option<Vector>, generation: nat, path: string)
    requires PlanFor(s.table, contents, hash, plan)
    requires path in s.pending || path in s.vectors ==> path in s.table
    requires path in s.table ==> UpToDate(s, hash, vectorise, path)
    ensures var after := Applied(s, plan, contents, hash, generation);
      && (path in after.table <==> path in contents)
      && (path in after.pending || path in after.vectors ==> path in after.table)
      && (path in after.table ==> UpToDate(after, hash, vectorise, path))
  {
    hide PlanFor;
    StandingIs(s, plan, contents, hash, path);
  }

  lemma StandingIs(s: State, plan: SyncPlan, contents: Contents, hash: string -> Hash, path: string)
    requires PlanFor(s.table, contents, hash, plan)
    ensures path in plan.added + plan.changed <==>
              (path in contents && (path !in s.table || s.table[path].contentHash != hash(contents[path])))
    ensures path in plan.deleted <==> path in s.table && path !in contents
  {
    hide Distinct;
    var standing := StandingOf(s.table, contents, hash, path);
    assert path in plan.added <==> standing == Added;
    assert path in plan.changed <==> standing == Changed;
    assert path in plan.deleted <==> standing == Deleted;
  }

  /** Walking again at once reports every path as unchanged, and nothing else. */
  lemma RewalkReportsOnlySame(s: State, hash: string -> Hash, vectorise: string -> Option<Vector>, plan: SyncPlan)
    requires Current(s, hash, vectorise) && PlanFor(s.table, s.walked, hash, plan)
    ensures plan.added == [] && plan.changed == [] && plan.deleted == []
    ensures forall path :: path in plan.same <==> path in s.walked
  {
    forall path ensures StandingOf(s.table, s.walked, hash, path) == if path in s.walked then Same else Unknown {
      assert path in s.table ==> UpToDate(s, hash, vectorise, path);
    }
    assert forall path :: path !in plan.added && path !in plan.changed && path !in plan.deleted;
    NoMembers(plan.added);
    NoMembers(plan.changed);
    NoMembers(plan.deleted);
  }

  lemma NoMembers(s: seq<string>)
    requires forall x :: x !in s
    ensures s == []
  {
    if s != [] {
      HasMember(s);
    }
  }

  lemma HasMember(s: seq<string>)
    requires s != []
    ensures exists x :: x in s
  {
    assert s[0] in s;
  }

  /** The state after one pending path has been processed. */
  ghost function Processed(s: State, contents: Contents, path: string, vectorise: string -> Option<Vector>): State {
    var rest := s.(pending := s.pending - {path});
    if path in contents && vectorise(contents[path]).Some? then
      rest.(vectors := s.vectors[path := vectorise(contents[path]).value],
        madeFrom := s.madeFrom[path := contents[path]])
    else rest
  }

  ghost function ProcessedAll(s: State, contents: Contents, paths: seq<string>, vectorise: string -> Option<Vector>)
    : State
  {
    if paths == [] then s
    else Processed(ProcessedAll(s, contents, paths[..|paths| - 1], vectorise), contents, paths[|paths| - 1], vectorise)
  }

  predicate Embeddable(contents: Contents, path: string, vectorise: string -> Option<Vector>) {
    path in contents ==> vectorise(contents[path]).Some?
  }

  lemma ProcessKeepsCurrent(s: State, hash: string -> Hash, vectorise: string -> Option<Vector>, path: string)
    requires Current(s, hash, vectorise) && path in s.pending && Embeddable(s.walked, path, vectorise)
    ensures Current(Processed(s, s.walked, path, vectorise), hash, vectorise)
  {
    var after := Processed(s, s.walked, path, vectorise);
    forall other | other in after.table ensures UpToDate(after, hash, vectorise, other) {
      assert UpToDate(s, hash, vectorise, other);
    }
  }

  ghost predicate Batch(s: State, contents: Contents, paths: seq<string>, vectorise: string -> Option<Vector>) {
    && Distinct(paths) && Members(paths) <= s.pending
    && forall path :: path in paths ==> Embeddable(contents, path, vectorise)
  }

  /** Processing a batch takes exactly it off the backlog, and gives each of its
      files that has contents the vector of those contents. */
  lemma {:induction false} BatchIs(s: State, contents: Contents, paths: seq<string>,
                                         vectorise: string -> Option<Vector>)
    requires Batch(s, contents, paths, vectorise)
    ensures var after := ProcessedAll(s, contents, paths, vectorise);
      && after.pending == s.pending - Members(paths) && |after.pending| == |s.pending| - |paths|
      && after.table == s.table && after.walked == s.walked
      && after.vectors == s.vectors + Embedded(contents, paths, vectorise)
  {
    hide Batch, Members, Embedded, Embeddable, Processed;
    if paths == [] {
      NothingEmbedded(contents, vectorise);
    } else {
      var rest := paths[..|paths| - 1];
      BatchSnoc(s, contents, paths, vectorise);
      BatchIs(s, contents, rest, vectorise);
      var t := ProcessedAll(s, contents, rest, vectorise);
      assert ProcessedAll(s, contents, paths, vectorise) == Processed(t, contents, paths[|rest|], vectorise);
      hide ProcessedAll;
      BatchStep(s, t, contents, paths, vectorise);
    }
  }

  lemma BatchStep(s: State, t: State, contents: Contents, paths: seq<string>, vectorise: string -> Option<Vector>)
    requires paths != [] && Batch(s, contents, paths, vectorise)
    requires var rest := paths[..|paths| - 1];
      && t.pending == s.pending - Members(rest) && |t.pending| == |s.pending| - |rest|
      && t.table == s.table && t.walked == s.walked && t.vectors == s.vectors + Embedded(contents, rest, vectorise)
    ensures var after := Processed(t, contents, paths[|paths| - 1], vectorise);
      && after.pending == s.pending - Members(paths) && |after.pending| == |s.pending| - |paths|
      && after.table == s.table && after.walked == s.walked
      && after.vectors == s.vectors + Embedded(contents, paths, vectorise)
  {
    hide Batch, Members, Embedded, Embeddable, Processed;
    var rest, last := paths[..|paths| - 1], paths[|paths| - 1];
    BatchSnoc(s, contents, paths, vectorise);
    EmbeddedSnoc(contents, paths, vectorise);
    OneOff(s.pending, Members(rest), last);
    ProcessedIs(s, t, contents, rest, last, vectorise);
  }

  lemma ProcessedIs(s: State, t: State, contents: Contents, rest: seq<string>, last: string,
                          vectorise: string -> Option<Vector>)
    requires t.vectors == s.vectors + Embedded(contents, rest, vectorise)
    ensures var after := Processed(t, contents, last, vectorise); var e := Embedded(contents, rest, vectorise);
      && after.pending == t.pending - {last} && after.table == t.table && after.walked == t.walked
      && after.vectors == s.vectors + if last in contents && vectorise(contents[last]).Some?
                                      then e[last := vectorise(contents[last]).value] else e
  {
    hide Embedded;
  }

  lemma NothingEmbedded(contents: Contents, vectorise: string -> Option<Vector>)
    ensures Members([]) == {} && Embedded(contents, [], vectorise) == map[]
  {
  }

  lemma OneOff(from: set<string>, taken: set<string>, path: string)
    requires path in from - taken
    ensures from - (taken + {path}) == from - taken - {path}
    ensures |from - taken - {path}| == |from - taken| - 1
  {
  }

  lemma EmbeddedSnoc(contents: Contents, paths: seq<string>, vectorise: string -> Option<Vector>)
    requires paths != []
    ensures var rest, last := paths[..|paths| - 1], paths[|paths| - 1];
      Embedded(contents, paths, vectorise)
      == if last in contents && vectorise(contents[last]).Some?
         then Embedded(contents, rest, vectorise)[last := vectorise(contents[last]).value]
         else Embedded(contents, rest, vectorise)
  {
  }

  function Embedded(contents: Contents, paths: seq<string>, vectorise: string -> Option<Vector>): map<string, Vector> {
    map path | path in paths && path in contents && vectorise(contents[path]).Some? :: vectorise(contents[path]).value
  }

  lemma BatchSnoc(s: State, contents: Contents, paths: seq<string>, vectorise: string -> Option<Vector>)
    requires Batch(s, contents, paths, vectorise) && paths != []
    ensures var rest := paths[..|paths| - 1];
      && Batch(s, contents, rest, vectorise)
      && Members(paths) == Members(rest) + {paths[|paths| - 1]}
      && paths[|paths| - 1] in s.pending - Members(rest)
      && Embeddable(contents, paths[|paths| - 1], vectorise)
  {
    assert paths[|paths| - 1] in paths;
  }

  lemma {:induction false} BatchKeepsCurrent(s: State, paths: seq<string>, hash: string -> Hash,
                                                   vectorise: string -> Option<Vector>)
    requires Current(s, hash, vectorise) && Batch(s, s.walked, paths, vectorise)
    ensures Current(ProcessedAll(s, s.walked, paths, vectorise), hash, vectorise)
  {
    hide Current, Batch, Processed, Embedded;
    if paths != [] {
      var rest := paths[..|paths| - 1];
      BatchSnoc(s, s.walked, paths, vectorise);
      BatchIs(s, s.walked, rest, vectorise);
      BatchKeepsCurrent(s, rest, hash, vectorise);
      ProcessKeepsCurrent(ProcessedAll(s, s.walked, rest, vectorise), hash, vectorise, paths[|paths| - 1]);
    }
  }

  // ------------------------------------------------------------------------
  // The engine

  /** The documents of some paths that have contents. */
  function DocumentsOf(contents: Contents, paths: seq<string>): seq<Document> {
    if paths == [] then []
    else
      var path := paths[|paths| - 1];
      DocumentsOf(contents, paths[..|paths| - 1]) + if path in contents then [Document(path, contents[path])] else []
  }

  lemma {:induction false} DocumentsHave(contents: Contents, paths: seq<string>)
    requires Distinct(paths)
    ensures var documents := DocumentsOf(contents, paths);
      && (forall d :: d in documents <==> d.path in paths && d.path in contents && contents[d.path] == d.content)
      && Distinct(documents)
  {
    if paths != [] {
      var rest := paths[..|paths| - 1];
      DocumentsHave(contents, rest);
      assert paths[|paths| - 1] !in rest;
      assert paths == rest + [paths[|paths| - 1]];
    }
  }

  lemma DistinctJoin(a: seq<string>, b: seq<string>)
    requires Distinct(a) && Distinct(b) && forall x :: x in a ==> x !in b
    ensures Distinct(a + b)
  {
    forall i, j | 0 <= i < j < |a + b| ensures (a + b)[i] != (a + b)[j] {
      if i < |a| <= j {
        assert a[i] in a && b[j - |a|] in b;
      }
    }
  }

  /** The lexical lane is rebuilt over every live file, each once, whatever order
      the plan lists them in. */
  lemma DocumentsAreTheLiveFiles(table: map<string, FileRecord>, contents: Contents, hash: string -> Hash,
                                 plan: SyncPlan)
    requires PlanFor(table, contents, hash, plan)
    ensures var documents := DocumentsOf(contents, plan.added + plan.changed + plan.same);
      Distinct(documents) && forall d :: d in documents <==> d.path in contents && contents[d.path] == d.content
  {
    hide DocumentsOf;
    DistinctJoin(plan.added, plan.changed);
    DistinctJoin(plan.added + plan.changed, plan.same);
    DocumentsHave(contents, plan.added + plan.changed + plan.same);
    forall path | path in contents ensures path in plan.added + plan.changed + plan.same {
      var standing := StandingOf(table, contents, hash, path);
      assert path in plan.added <==> standing == Added;
      assert path in plan.changed <==> standing == Changed;
      assert path in plan.same <==> standing == Same;
    }
  }

  class SyncEngine {
    const characters: CharTables
    const hash: string -> Hash
    /** Embedding and normalising a text; it can fail. */
    const vectorise: string -> Option<Vector>

    var table: map<string, FileRecord>
    var generation: nat
    var lexical: LexicalIndex
    var pending: set<string>
    var vectors: map<string, Vector>
    ghost var madeFrom: map<string, string>
    ghost var walked: Contents

    ghost function Snapshot(): State
      reads this
    {
      State(table, pending, vectors, madeFrom, walked)
    }

    constructor (characters: CharTables, hash: string -> Hash, vectorise: string -> Option<Vector>)
      ensures this.characters == characters && this.hash == hash && this.vectorise == vectorise
      ensures Snapshot() == State(map[], {}, map[], map[], map[]) && generation == 0
      ensures Indexes(lexical, characters, [])
    {
      this.characters := characters;
      this.hash := hash;
      this.vectorise := vectorise;
      table, generation, pending, vectors, madeFrom, walked := map[], 0, {}, map[], map[], map[];
      var empty := Build(characters, []);
      lexical := empty;
    }

    /** Commits a plan: the lexical lane at once, the semantic lane by marking. */
    method ApplyStructuralLexical(plan: SyncPlan, contents: Contents)
      modifies this
      ensures generation == old(generation) + 1
      ensures Snapshot() == Applied(old(Snapshot()), plan, contents, hash, generation) && walked == contents
      ensures Indexes(lexical, characters, DocumentsOf(contents, plan.added + plan.changed + plan.same))
    {
      hide Indexes;
      var documents := CollectDocuments(contents, plan.added + plan.changed + plan.same);
      lexical := Build(characters, documents);
      generation := generation + 1;
      RecordFresh(plan.added + plan.changed, contents);
      DropDeleted(plan.deleted);
      walked := contents;
    }

    method RecordFresh(updated: seq<string>, contents: Contents)
      modifies `table, `pending
      ensures table == old(table) + Recorded(contents, updated, hash, generation)
      ensures pending == old(pending) + Members(updated)
    {
      hide Recorded, Members;
      NothingRecorded(contents, updated);
      for i := 0 to |updated|
        invariant table == old(table) + Recorded(contents, updated[..i], hash, generation)
        invariant pending == old(pending) + Members(updated[..i])
      {
        RecordedSnoc(contents, updated, i);
        if updated[i] in contents {
          table := table[updated[i] := FileRecord(hash(contents[updated[i]]), generation)];
        }
        pending := pending + {updated[i]};
      }
      assert updated[..|updated|] == updated;
    }

    lemma NothingRecorded(contents: Contents, paths: seq<string>)
      ensures Recorded(contents, paths[..0], hash, generation) == map[] && Members(paths[..0]) == {}
    {
    }

    lemma RecordedSnoc(contents: Contents, paths: seq<string>, i: nat)
      requires i < |paths|
      ensures Members(paths[..i + 1]) == Members(paths[..i]) + {paths[i]}
      ensures Recorded(contents, paths[..i + 1], hash, generation)
           == if paths[i] in contents
              then Recorded(contents, paths[..i], hash,
                generation)[paths[i] := FileRecord(hash(contents[paths[i]]), generation)]
              else Recorded(contents, paths[..i], hash, generation)
    {
      assert paths[..i + 1] == paths[..i] + [paths[i]];
    }

    method DropDeleted(deleted: seq<string>)
      modifies `table, `pending, `vectors, `madeFrom
      ensures table == old(table) - Members(deleted) && pending == old(pending) - Members(deleted)
      ensures vectors == old(vectors) - Members(deleted) && madeFrom == old(madeFrom) - Members(deleted)
    {
      for i := 0 to |deleted|
        invariant table == old(table) - Members(deleted[..i]) && pending == old(pending) - Members(deleted[..i])
        invariant vectors == old(vectors) - Members(deleted[..i]) && madeFrom == old(madeFrom) - Members(deleted[..i])
      {
        assert Members(deleted[..i + 1]) == Members(deleted[..i]) + {deleted[i]} by {
          assert deleted[..i + 1] == deleted[..i] + [deleted[i]];
        }
        table := table - {deleted[i]};
        pending := pending - {deleted[i]};
        vectors := vectors - {deleted[i]};
        madeFrom := madeFrom - {deleted[i]};
      }
      assert deleted[..|deleted|] == deleted;
    }

    /** One pending path; `ok` unless it has contents that cannot be embedded. */
    method ProcessOne(contents: Contents, path: string) returns (ok: bool)
      requires path in pending
      modifies `pending, `vectors, `madeFrom
      ensures ok == Embeddable(contents, path, vectorise)
      ensures Snapshot() == if ok then Processed(old(Snapshot()), contents, path, vectorise) else old(Snapshot())
    {
      if path !in contents {
        pending := pending - {path};
        return true;
      }
      var vector := vectorise(contents[path]);
      if vector.None? {
        return false;
      }
      vectors := vectors[path := vector.value];
      madeFrom := madeFrom[path := contents[path]];
      pending := pending - {path};
      ok := true;
    }

    /** Embeds at most `budget` pending paths, in no particular order, and stops
        at the first that cannot be embedded; `done` are those processed. */
    method ProcessPendingSemantic(contents: Contents, budget: nat)
        returns (r: Result<nat, string>, ghost done: seq<string>)
      modifies `pending, `vectors, `madeFrom
      ensures Batch(old(Snapshot()), contents, done, vectorise)
      ensures Snapshot() == ProcessedAll(old(Snapshot()), contents, done, vectorise)
      ensures r.Success? ==> r.value == |done| == (if budget < |old(pending)| then budget else |old(pending)|)
      ensures r.Failure? ==> r.error in pending && !Embeddable(contents, r.error, vectorise)
    {
      hide Processed, Embeddable;
      var toProcess := TakeSome(pending, budget);
      ghost var start := Snapshot();
      EmptyBatch(start, contents);
      assert toProcess[..0] == [];
      for i := 0 to |toProcess|
        invariant Batch(start, contents, toProcess[..i], vectorise)
        invariant Snapshot() == ProcessedAll(start, contents, toProcess[..i], vectorise)
      {
        var path := toProcess[i];
        done := toProcess[..i];
        assert toProcess[..i + 1] == done + [path] && toProcess[..i + 1][..i] == done;
        StillPending(start, contents, toProcess, i);
        var ok := ProcessOne(contents, path);
        if !ok {
          return Failure(path), done;
        }
        BatchGrows(start, contents, toProcess, i);
      }
      done := toProcess;
      assert toProcess[..|toProcess|] == toProcess;
      r := Success(|toProcess|);
    }

    lemma EmptyBatch(s: State, contents: Contents)
      ensures Batch(s, contents, [], vectorise) && ProcessedAll(s, contents, [], vectorise) == s
    {
    }

    lemma StillPending(s: State, contents: Contents, paths: seq<string>, i: nat)
      requires i < |paths| && Distinct(paths) && Members(paths) <= s.pending
      requires Batch(s, contents, paths[..i], vectorise)
      ensures paths[i] in ProcessedAll(s, contents, paths[..i], vectorise).pending
    {
      hide ProcessedAll, Embeddable;
      BatchIs(s, contents, paths[..i], vectorise);
      assert paths[i] in Members(paths) && paths[i] !in paths[..i];
    }

    lemma BatchGrows(s: State, contents: Contents, paths: seq<string>, i: nat)
      requires i < |paths| && Distinct(paths) && Members(paths) <= s.pending
      requires Batch(s, contents, paths[..i], vectorise) && Embeddable(contents, paths[i], vectorise)
      ensures Batch(s, contents, paths[..i + 1], vectorise)
    {
      hide Embeddable;
      var next := paths[..i + 1];
      assert next == paths[..i] + [paths[i]];
      forall path | path in Members(next) ensures path in s.pending {
        assert path in Members(paths);
      }
    }

    /** Repeated processing with any positive budget empties the backlog: then
        every walked file has a vector made from a text with its hash. It stops
        short only at a file that cannot be embedded, and the engine stays
        current either way. */
    method DrainBacklog(contents: Contents, budget: nat) returns (r: Result<(), string>)
      requires 0 < budget && Current(Snapshot(), hash, vectorise) && contents == walked
      modifies `pending, `vectors, `madeFrom
      ensures Current(Snapshot(), hash, vectorise)
      ensures r.Success? ==>
        (&& pending == {} && vectors.Keys == walked.Keys
         && forall path :: path in walked ==> path in madeFrom && hash(madeFrom[path]) == hash(walked[path]))
      ensures r.Failure? ==> !Embeddable(walked, r.error, vectorise)
    {
      hide Current, Batch, ProcessedAll, Embedded, Embeddable;
      while pending != {}
        invariant Current(Snapshot(), hash, vectorise)
        decreases |pending|
      {
        ghost var before := Snapshot();
        var processed, done := ProcessPendingSemantic(contents, budget);
        BatchIs(before, contents, done, vectorise);
        BatchKeepsCurrent(before, done, hash, vectorise);
        match processed
        case Failure(path) => return Failure(path);
        case Success(_) =>
      }
      AllEmbedded(Snapshot());
      r := Success(());
    }

    lemma AllEmbedded(s: State)
      requires Current(s, hash, vectorise) && s.pending == {}
      ensures s.vectors.Keys == s.walked.Keys
      ensures forall path :: path in s.walked ==> path in s.madeFrom && hash(s.madeFrom[path]) == hash(s.walked[path])
    {
      forall path | path in s.walked ensures path in s.vectors && path in s.madeFrom
        && hash(s.madeFrom[path]) == hash(s.walked[path]) {
        assert UpToDate(s, hash, vectorise, path);
      }
    }

    /** A whole sync: walk, then commit. */
    method Sync(files: seq<ScannedFile>) returns (plan: SyncPlan, contents: Contents)
      requires DistinctPaths(files) && Current(Snapshot(), hash, vectorise)
      modifies this
      ensures contents == walked == Live(files) && PlanFor(old(table), contents, hash, plan)
      ensures Current(Snapshot(), hash, vectorise)
      ensures Indexes(lexical, characters, DocumentsOf(contents, plan.added + plan.changed + plan.same))
    {
      hide Current, PlanFor, Indexes, Applied, DocumentsOf, Live, DistinctPaths;
      plan, contents := FullCorrectnessWalk(files, table, hash);
      ApplyKeepsCurrent(Snapshot(), plan, contents, hash, vectorise, generation + 1);
      ApplyStructuralLexical(plan, contents);
    }
  }

  method CollectDocuments(contents: Contents, paths: seq<string>) returns (documents: seq<Document>)
    ensures documents == DocumentsOf(contents, paths)
  {
    documents := [];
    for i := 0 to |paths|
      invariant documents == DocumentsOf(contents, paths[..i])
    {
      assert paths[..i + 1][..i] == paths[..i];
      if paths[i] in contents {
        documents := documents + [Document(paths[i], contents[paths[i]])];
      }
    }
    assert paths[..|paths|] == paths;
  }

  method TakeSome(from: set<string>, budget: nat) returns (taken: seq<string>)
    ensures Distinct(taken) && Members(taken) <= from
    ensures |taken| == if budget < |from| then budget else |from|
  {
    taken := [];
    var rest := from;
    while |taken| < budget && rest != {}
      invariant rest <= from && |rest| == |from| - |taken| && |taken| <= budget
      invariant Distinct(taken) && forall path :: path in taken ==> path in from && path !in rest
      decreases |rest|
    {
      var path :| path in rest;
      rest := rest - {path};
      taken := taken + [path];
    }
  }
}
