/**
 * `abort` and the cleanup after a failed commit, of a write into a table that exists: no file a
 * version references is ever deleted.
 */
module CommitCleanup {
  import opened Wrappers
  import opened CommitLog
  import opened CommitProtocol
  import opened CommitSafety

  /** What one cleanup meets: other writers, a failed check, files that will not go. */
  datatype Cleanup<O> = Cleanup(others: O, broken: bool, undeletable: set<Path>)

  type LogCleanup = Cleanup<Log>

  /** `abort`: the log it leaves and the files it deleted. */
  function Abort(plan: Plan, log: Log, ps: set<Path>, after: nat, c: LogCleanup): (Log, set<Path>) {
    if ps == {} || Blind(plan) then (log, {})
    else
      var log1 := log + c.others;
      if c.broken || Landed(log1, after, ps) != NotLanded then (log1, {}) else (log1, ps - c.undeletable)
  }

  /** `commit`: the attempts, and the cleanup after a certain failure. */
  function CommitOrAbort(log: Log, r: LogRequest, abortOnFailure: bool, c: LogCleanup): (Log, Outcome, set<Path>)
    requires |log| > 0
  {
    var (log1, o) := RunCommit(log, r);
    if o == CertainFailure && abortOnFailure then
      var (log2, deleted) := Abort(r.plan, log1, PathsOf(r.fragments), After(r.plan, r.writtenAt), c);
      (log2, o, deleted)
    else (log1, o, {})
  }

  /** The table's storage: its log, and the data files deleted from it. */
  class Storage {
    var table: Table
    var gone: set<Path>

    constructor (table: Table)
      ensures this.table == table && gone == {}
    {
      this.table := table;
      gone := {};
    }

    method AbortOn(plan: Plan, ps: set<Path>, after: nat, c: LogCleanup) returns (deleted: set<Path>)
      modifies this`gone, table
      ensures (table.log, deleted) == Abort(plan, old(table.log), ps, after, c)
      ensures gone == old(gone) + deleted
    {
      deleted := {};
      if ps == {} || Blind(plan) {
        return;
      }
      table.Others(c.others);
      if c.broken {
        return;
      }
      var landing := LandedOn(table.log, after, ps);
      if landing == NotLanded {
        deleted := ps - c.undeletable;
        gone := gone + deleted;
      }
    }
  }

  predicate Unreferenced(log: Log, files: set<Path>) {
    forall v :: 0 <= v < |log| ==> log[v].adds !! files
  }

  lemma UntouchedIsUnreferenced(log: Log, ps: set<Path>, files: set<Path>)
    requires Untouched(log, ps) && files <= ps
    ensures Unreferenced(log, files)
  {
    forall v | 0 <= v < |log| ensures log[v].adds !! files {
      assert !Touches(log, v, ps);
      assert forall p :: p in files ==> p in ps;
      assert forall p :: p in log[v].adds && p in ps ==> p in log[v].adds * ps;
    }
  }

  lemma AbortIsSafe(plan: Plan, log: Log, ps: set<Path>, after: nat, base: nat, c: LogCleanup)
    requires Inv(log, base, ps) && after <= base && Untouched(c.others, ps)
    ensures var (log', deleted) := Abort(plan, log, ps, after, c);
            && Inv(log', base, ps) && log <= log' && Unreferenced(log', deleted)
            && (deleted != {} ==> Untouched(log', ps))
  {
    var log1 := log + c.others;
    ForeignGrows(log, c.others, ps);
    OthersKeep(log, log1, base, ps);
    if ps != {} {
      LandedIsExact(log1, log1, after, base, ps);
      if Untouched(log1, ps) {
        UntouchedIsUnreferenced(log1, ps, ps - c.undeletable);
      }
    }
  }

  /** A commit call, failed or not, deletes no file any version of the log references. */
  lemma CommitDeletesOnlyUncommitted(log: Log, r: LogRequest, abortOnFailure: bool, c: LogCleanup, base: nat, ps: set<Path>)
    requires Inv(log, base, ps) && Sound(r, log, base, ps) && Untouched(c.others, ps)
    ensures var (log', o, deleted) := CommitOrAbort(log, r, abortOnFailure, c);
            && Inv(log', base, ps) && log <= log' && Unreferenced(log', deleted)
            && (deleted != {} ==> o == CertainFailure && Untouched(log', ps))
  {
    CommitKeeps(log, r, base, ps);
    var (log1, o) := RunCommit(log, r);
    AbortIsSafe(r.plan, log1, ps, After(r.plan, r.writtenAt), base, c);
  }

  // --------------------------------------------------------------------- runs

  datatype Action =
    | OthersCommit(cs: Log)
    | Commit_(r: LogRequest, abortOnFailure: bool, c: LogCleanup)
    | Abort_(plan: Plan, writtenAt: Option<nat>, c: LogCleanup)

  datatype World = World(log: Log, gone: set<Path>)

  function Act(w: World, a: Action, ps: set<Path>): World {
    match a
    case OthersCommit(cs) => World(w.log + cs, w.gone)
    case Commit_(r, abort, c) =>
      if |w.log| == 0 then w
      else
        var (log, _, deleted) := CommitOrAbort(w.log, r, abort, c);
        World(log, w.gone + deleted)
    case Abort_(plan, at, c) =>
      var (log, deleted) := Abort(plan, w.log, ps, After(plan, at), c);
      World(log, w.gone + deleted)
  }

  /** Files once deleted are not committed again: the driver's side of the bargain. */
  ghost predicate SoundAction(a: Action, w: World, base: nat, ps: set<Path>) {
    match a
    case OthersCommit(cs) => Untouched(cs, ps)
    case Commit_(r, _, c) => Sound(r, w.log, base, ps) && Untouched(c.others, ps) && w.gone == {}
    case Abort_(plan, at, c) => After(plan, at) <= base && Untouched(c.others, ps)
  }

  function ActAll(w: World, actions: seq<Action>, ps: set<Path>): World
    decreases |actions|
  {
    if actions == [] then w else ActAll(Act(w, actions[0], ps), actions[1..], ps)
  }

  ghost predicate SoundActions(w: World, actions: seq<Action>, base: nat, ps: set<Path>)
    decreases |actions|
  {
    actions == [] ||
    (SoundAction(actions[0], w, base, ps) && SoundActions(Act(w, actions[0], ps), actions[1..], base, ps))
  }

  ghost predicate Intact(w: World, base: nat, ps: set<Path>) {
    && Inv(w.log, base, ps) && w.gone <= ps && Unreferenced(w.log, w.gone)
    && (w.gone != {} ==> Untouched(w.log, ps))
  }

  /** In every run of commits, failures and aborts, what a version references is still there. */
  lemma {:induction false} NoCommittedFileIsDeleted(w: World, actions: seq<Action>, base: nat, ps: set<Path>)
    requires Intact(w, base, ps) && SoundActions(w, actions, base, ps)
    ensures Intact(ActAll(w, actions, ps), base, ps)
    decreases |actions|
  {
    if actions != [] {
      match actions[0] {
        case OthersCommit(cs) =>
          ForeignGrows(w.log, cs, ps);
          OthersKeep(w.log, w.log + cs, base, ps);
        case Commit_(r, abort, c) =>
          CommitDeletesOnlyUncommitted(w.log, r, abort, c, base, ps);
        case Abort_(plan, at, c) =>
          AbortIsSafe(plan, w.log, ps, After(plan, at), base, c);
          AbortKeepsUntouched(plan, w.log, ps, After(plan, at), base, c);
      }
      var w' := Act(w, actions[0], ps);
      if w'.gone != {} {
        UntouchedIsUnreferenced(w'.log, ps, w'.gone);
      }
      NoCommittedFileIsDeleted(w', actions[1..], base, ps);
    }
  }

  lemma AbortKeepsUntouched(plan: Plan, log: Log, ps: set<Path>, after: nat, base: nat, c: LogCleanup)
    requires Inv(log, base, ps) && Untouched(c.others, ps)
    ensures Untouched(log, ps) ==> Untouched(Abort(plan, log, ps, after, c).0, ps)
    ensures Abort(plan, log, ps, after, c).1 <= ps
  {
    ForeignGrows(log, c.others, ps);
    OthersKeep(log, log + c.others, base, ps);
  }
}
