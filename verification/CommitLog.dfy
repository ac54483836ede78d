/** The transaction log: an append-only sequence of commits, and what it says is live. */
module CommitLog {

  type Path = string

  /** What one version adds and removes; a version is an index into the log. */
  datatype Commit = Commit(adds: set<Path>, removes: set<Path>)
  type Log = seq<Commit>

  /** The files a replay of the log leaves in the table. */
  function Live(log: Log): set<Path> {
    if log == [] then {}
    else
      var last := log[|log| - 1];
      (Live(log[..|log| - 1]) - last.removes) + last.adds
  }

  /** Whether version `v` adds any of the files `ps`. */
  predicate Touches(log: Log, v: nat, ps: set<Path>)
    requires v < |log|
  {
    log[v].adds * ps != {}
  }

  predicate Untouched(log: Log, ps: set<Path>) {
    forall v :: 0 <= v < |log| ==> !Touches(log, v, ps)
  }

  /** Every file that any version of the log adds. */
  function FilesIn(log: Log): set<Path> {
    set v, p | 0 <= v < |log| && p in log[v].adds :: p
  }

  // ------------------------------------------------------- one raw committer

  /** The `_delta_log` directory: a file per version. */
  class Store {
    var files: map<nat, Commit>

    constructor (first: Commit)
      ensures files == map[0 := first]
    {
      files := map[0 := first];
    }

    /** The versions present are 0..n, with no gap. */
    ghost predicate Contiguous()
      reads this
    {
      IsPrefix(files, |files|)
    }

    ghost function Log(): (log: Log)
      reads this
      requires Contiguous()
      ensures |log| == |files| && forall v :: 0 <= v < |log| ==> log[v] == files[v]
    {
      seq(|files|, v requires 0 <= v < |files| && Contiguous() reads this => files[v])
    }

    method PutIfAbsent(version: nat, c: Commit) returns (ok: bool)
      modifies this
      ensures ok == (version !in old(files))
      ensures files == if ok then old(files)[version := c] else old(files)
    {
      ok := version !in files;
      if ok {
        files := files[version := c];
      }
    }

    /** The put of the next version makes it the log's last. */
    method PutNext(version: nat, c: Commit) returns (ok: bool)
      requires Contiguous() && version <= |Log()|
      modifies this
      ensures Contiguous() && ok == (version == |old(Log())|)
      ensures Log() == if ok then old(Log()) + [c] else old(Log())
    {
      ghost var n := |files|;
      ok := PutIfAbsent(version, c);
      if ok {
        assert IsPrefix(files, n + 1);
        PrefixSize(files, n + 1);
      }
    }

    /** Other writers' commits, each taking the next version. */
    method Others(cs: Log)
      requires Contiguous()
      modifies this
      ensures Contiguous() && Log() == old(Log()) + cs
    {
      for i := 0 to |cs|
        invariant Contiguous() && Log() == old(Log()) + cs[..i]
      {
        var ok := PutNext(|files|, cs[i]);
        assert cs[..i + 1] == cs[..i] + [cs[i]];
      }
      assert cs[..|cs|] == cs;
    }

    /**
     * `commit_raw`: the predecessor must exist, and the put creates or fails. Other
     * writers may commit between the two. No version is replaced, and none is skipped.
     */
    method CommitRaw(version: nat, c: Commit, between: Log) returns (ok: bool)
      requires Contiguous()
      modifies this
      ensures Contiguous()
      ensures ok <==> version <= |old(Log())| && version == |old(Log()) + between|
      ensures version <= |old(Log())| ==> Log() == if ok then old(Log()) + between + [c] else old(Log()) + between
      ensures version > |old(Log())| ==> Log() == old(Log())
    {
      if version > 0 && version - 1 !in files {
        return false;
      }
      Others(between);
      ok := PutNext(version, c);
    }
  }

  ghost predicate IsPrefix(files: map<nat, Commit>, n: nat) {
    forall v: nat :: v in files <==> v < n
  }

  lemma {:induction false} PrefixSize(files: map<nat, Commit>, n: nat)
    requires IsPrefix(files, n)
    ensures |files| == n
    decreases n
  {
    if n > 0 {
      var rest := files - {n - 1};
      PrefixSize(rest, n - 1);
      assert files == rest[n - 1 := files[n - 1]];
    } else {
      assert files.Keys == {};
    }
  }

  // ------------------------------------------------------------ fragments

  function PathsOf(fragments: seq<seq<Path>>): set<Path> {
    if fragments == [] then {} else (set p | p in fragments[0]) + PathsOf(fragments[1..])
  }

  function Flat(fragments: seq<seq<Path>>): seq<Path> {
    if fragments == [] then [] else fragments[0] + Flat(fragments[1..])
  }

  predicate Distinct(ps: seq<Path>) {
    forall i, j :: 0 <= i < j < |ps| ==> ps[i] != ps[j]
  }

  /** `refuse_duplicate_paths` over one batch: `seen` grows by its paths, or the batch is refused. */
  method RefuseDuplicatePaths(batch: seq<Path>, seen: set<Path>, ghost before: seq<Path>)
    returns (ok: bool, grown: set<Path>)
    requires Distinct(before) && seen == set p | p in before
    ensures ok == Distinct(before + batch)
    ensures ok ==> grown == set p | p in before + batch
  {
    grown := seen;
    var i := 0;
    while i < |batch|
      invariant 0 <= i <= |batch|
      invariant Distinct(before + batch[..i])
      invariant grown == set p | p in before + batch[..i]
    {
      ghost var so := before + batch[..i];
      if batch[i] in grown {
        ghost var k :| 0 <= k < |so| && so[k] == batch[i];
        assert (before + batch)[k] == (before + batch)[|before| + i];
        return false, grown;
      }
      assert before + batch[..i + 1] == so + [batch[i]];
      grown := grown + {batch[i]};
      i := i + 1;
    }
    assert batch[..i] == batch;
    ok := true;
  }

  /** The checks `commit_files` makes before it adds anything. */
  method CheckFragments(fragments: seq<seq<Path>>) returns (ok: bool, seen: set<Path>)
    ensures ok == Distinct(Flat(fragments))
    ensures ok ==> seen == PathsOf(fragments)
  {
    seen := {};
    var i := 0;
    assert fragments[0..] == fragments;
    while i < |fragments|
      invariant 0 <= i <= |fragments|
      invariant Distinct(Flat(fragments[..i]))
      invariant seen == set p | p in Flat(fragments[..i])
    {
      FlatSnoc(fragments, i);
      var grown: set<Path>;
      ok, grown := RefuseDuplicatePaths(fragments[i], seen, Flat(fragments[..i]));
      if !ok {
        DistinctPrefix(fragments, i + 1);
        return false, seen;
      }
      seen := grown;
      i := i + 1;
    }
    assert fragments[..i] == fragments;
    PathsAreFlat(fragments);
    ok := true;
  }

  lemma {:induction false} FlatConcat(a: seq<seq<Path>>, b: seq<seq<Path>>)
    ensures Flat(a + b) == Flat(a) + Flat(b)
  {
    if a == [] {
      assert a + b == b;
    } else {
      assert (a + b)[1..] == a[1..] + b;
      FlatConcat(a[1..], b);
    }
  }

  lemma FlatSnoc(fragments: seq<seq<Path>>, i: nat)
    requires i < |fragments|
    ensures Flat(fragments[..i + 1]) == Flat(fragments[..i]) + fragments[i]
  {
    assert fragments[..i + 1] == fragments[..i] + [fragments[i]];
    FlatConcat(fragments[..i], [fragments[i]]);
    assert Flat([fragments[i]]) == fragments[i] + Flat([]);
  }

  lemma DistinctPrefix(fragments: seq<seq<Path>>, i: nat)
    requires i <= |fragments| && !Distinct(Flat(fragments[..i]))
    ensures !Distinct(Flat(fragments))
  {
    FlatConcat(fragments[..i], fragments[i..]);
    assert fragments[..i] + fragments[i..] == fragments;
    var flat := Flat(fragments[..i]);
    var j, k :| 0 <= j < k < |flat| && flat[j] == flat[k];
    assert Flat(fragments)[j] == Flat(fragments)[k];
  }

  lemma {:induction false} PathsAreFlat(fragments: seq<seq<Path>>)
    ensures PathsOf(fragments) == set p | p in Flat(fragments)
  {
    if fragments != [] {
      PathsAreFlat(fragments[1..]);
    }
  }

  // ------------------------------------------------------------------ replay

  /** One action of a commit, as a reader meets it. */
  datatype Step = AddFile(p: Path) | RemoveFile(p: Path)

  function Replay(live: set<Path>, steps: seq<Step>): set<Path>
    decreases |steps|
  {
    if steps == [] then live
    else Replay(if steps[0].AddFile? then live + {steps[0].p} else live - {steps[0].p}, steps[1..])
  }

  /** The steps are the commit's actions, in some order. */
  predicate Spells(steps: seq<Step>, c: Commit) {
    && (forall i :: 0 <= i < |steps| ==> if steps[i].AddFile? then steps[i].p in c.adds else steps[i].p in c.removes)
    && (forall p :: p in c.adds ==> AddFile(p) in steps)
    && (forall p :: p in c.removes ==> RemoveFile(p) in steps)
  }

  /** Whatever order a commit's actions come in, replaying them gives the same live files. */
  lemma ReplayIsOrderFree(live: set<Path>, c: Commit, steps: seq<Step>)
    requires c.adds !! c.removes && Spells(steps, c)
    ensures Replay(live, steps) == (live - c.removes) + c.adds
  {
    ReplayMembers(live, steps, c);
  }

  lemma {:induction false} ReplayMembers(live: set<Path>, steps: seq<Step>, c: Commit)
    requires c.adds !! c.removes
    requires forall i :: 0 <= i < |steps| ==> if steps[i].AddFile? then steps[i].p in c.adds else steps[i].p in c.removes
    ensures forall p :: p in Replay(live, steps) <==> AddFile(p) in steps || (p in live && RemoveFile(p) !in steps)
    decreases |steps|
  {
    if steps != [] {
      var next := if steps[0].AddFile? then live + {steps[0].p} else live - {steps[0].p};
      assert steps == [steps[0]] + steps[1..];
      ReplayMembers(next, steps[1..], c);
    }
  }
}
