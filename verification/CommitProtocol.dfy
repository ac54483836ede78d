/**
 * `WritePlan.commit`: optimistic commits of a distributed write against a log that
 * other writers append to, with unknown outcomes, retries and cleanup.
 */
module CommitProtocol {
  import opened Wrappers
  import opened CommitLog

  /**
   * A planned write. `managed` without `catalog` is a catalog-managed table whose commit
   * tail was captured when it was resolved: its first `captured` versions are what it sees.
   */
  datatype Plan = Plan(
    version: Option<nat>, overwrite: bool, txn: bool, managed: bool, catalog: bool, captured: nat)

  /** What the store or the catalog answers to one attempt to put a commit. */
  datatype Reply =
    | Answered
    | Silent(landed: bool)         // a timeout or 5xx: reported as transient, landed or not
    | LayoutChanged
    | BackfillDemanded
    | Broken(landed: bool)         // any other error

  /** One call of `commit_files`, and what other writers commit around it. */
  datatype Try = Try(beforeSnapshot: Log, beforePut: Log, reply: Reply)

  /** One attempt of the retry loop; a captured tail shows `seen` versions throughout. */
  datatype Attempt = Attempt(
    beforeCheck: Log, seen: nat, checkBroken: bool,
    beforeGuard: Log, guardBlind: bool,
    first: Try, publishFails: bool, second: Try)

  datatype Result =
    | Committed(version: nat)
    | Conflict
    | Transient
    | MetadataChanged
    | BackfillRequired
    | Failure

  datatype Landing = NotLanded | LandedAt(version: nat) | Partly

  datatype Outcome =
    | Returned(version: nat)
    | CertainFailure
    | UnknownOutcome
    | Raised

  predicate Blind(plan: Plan) {
    plan.managed && !plan.catalog
  }

  function Min(a: nat, b: nat): nat {
    if a < b then a else b
  }

  /** The log as the plan can see it: all of it, or at least the captured tail. */
  function View(plan: Plan, log: Log, seen: nat): (view: Log)
    ensures view <= log
  {
    if Blind(plan) then log[..Min(|log|, if seen < plan.captured then plan.captured else seen)] else log
  }

  // --------------------------------------------------------- the landed check

  /** `commits_adding`: each version from `from` on that adds any of `ps`, and how many. */
  function CommitsAdding(log: Log, from: nat, ps: set<Path>): seq<(nat, nat)>
    decreases |log| - from
  {
    if from >= |log| then []
    else
      (if Touches(log, from, ps) then [(from, |log[from].adds * ps|)] else []) + CommitsAdding(log, from + 1, ps)
  }

  /** `_landed_version`. */
  function Landed(view: Log, after: nat, ps: set<Path>): Landing {
    if ps == {} then NotLanded
    else
      var found := CommitsAdding(view, after + 1, ps);
      if found == [] then NotLanded
      else if |found| == 1 && found[0].1 == |ps| then LandedAt(found[0].0)
      else Partly
  }

  /** Where the check starts: the version the files were written at, or planned at. */
  function After(plan: Plan, writtenAt: Option<nat>): nat {
    match (plan.version, writtenAt)
    case (Some(v), Some(w)) => Min(v, w)
    case (Some(v), None) => v
    case (None, Some(w)) => w
    case (None, None) => 0
  }

  // -------------------------------------------------------------- one commit

  /** The commit a snapshot leads to, or None where `commit_files` refuses the fragments. */
  function Staged(plan: Plan, view: Log, fragments: seq<seq<Path>>): Option<Commit> {
    var ps := PathsOf(fragments);
    if !Distinct(Flat(fragments)) then None
    else if plan.overwrite then (if Live(view) * ps != {} then None else Some(Commit(ps, Live(view))))
    else Some(Commit(ps, {}))
  }

  function Snapshot(plan: Plan, log: Log, pinned: Option<nat>, seen: nat): (view: Log)
    ensures view <= log
  {
    if pinned.Some? then log[..Min(|log|, pinned.value + 1)] else View(plan, log, seen)
  }

  /** The put of a commit as `version`, and the answer to it. */
  function Put(at: Log, version: nat, c: Commit, reply: Reply): (res: (Log, Result))
    ensures |res.0| >= |at|
  {
    var put := if |at| == version then at + [c] else at;
    match reply
    case Answered => (put, if |at| == version then Committed(version) else Conflict)
    case Silent(landed) => (if landed then put else at, Transient)
    case Broken(landed) => (if landed then put else at, Failure)
    case BackfillDemanded => (at, BackfillRequired)
    case LayoutChanged => (at, MetadataChanged)
  }

  /** `commit_files`: stage on a snapshot, then put the next version if it is still free. */
  function CommitFiles(plan: Plan, log: Log, fragments: seq<seq<Path>>, pinned: Option<nat>, seen: nat, t: Try): (res: (Log, Result))
    ensures |res.0| >= |log|
  {
    var before := log + t.beforeSnapshot;
    var view := Snapshot(plan, before, pinned, seen);
    if t.reply.LayoutChanged? then (before, MetadataChanged)
    else
      match Staged(plan, view, fragments)
      case None => (before, Failure)
      case Some(c) => Put(before + t.beforePut, |view|, c, t.reply)
  }

  /** `_backfilled`: on a catalog's demand, publish and commit once more. */
  function Backfilled(plan: Plan, log: Log, fragments: seq<seq<Path>>, pinned: Option<nat>, a: Attempt): (res: (Log, Result))
    ensures |res.0| >= |log|
  {
    var (log1, r) := CommitFiles(plan, log, fragments, pinned, a.seen, a.first);
    if r != BackfillRequired then (log1, r)
    else if !plan.managed || !plan.catalog || a.publishFails then (log1, Failure)
    else
      var (log2, r2) := CommitFiles(plan, log1, fragments, pinned, a.seen, a.second);
      (log2, if r2 == BackfillRequired then Failure else r2)
  }

  // ----------------------------------------------------------- the retry loop

  predicate Moved(plan: Plan, view: Log) {
    plan.version.Some? && |view| != plan.version.value + 1
  }

  function Pinned(plan: Plan, guarded: bool): Option<nat> {
    if guarded then plan.version else None
  }

  /** What one attempt decides: an outcome, or another attempt after `transient` or a conflict. */
  datatype Verdict = Done(outcome: Outcome) | Again(transient: bool)

  /** What follows from the answer; `last`: there is no other attempt to make. */
  function Decided(r: Result, last: bool): Verdict {
    match r
    case Committed(v) => Done(Returned(v))
    case MetadataChanged => Done(CertainFailure)
    case Transient => if last then Done(UnknownOutcome) else Again(true)
    case Conflict => if last then Done(CertainFailure) else Again(false)
    case BackfillRequired => Done(Raised)
    case Failure => Done(Raised)
  }

  function OneAttempt(plan: Plan, log: Log, fragments: seq<seq<Path>>, after: nat, guarded: bool, only: bool, a: Attempt): (res: (Log, Verdict))
    ensures |res.0| >= |log|
  {
    var ps := PathsOf(fragments);
    var log1 := log + a.beforeCheck;
    if ps != {} && a.checkBroken then (log1, Done(Raised))
    else
      match Landed(View(plan, log1, a.seen), after, ps)
      case LandedAt(v) => (log1, Done(Returned(v)))
      case Partly => (log1, Done(Raised))
      case NotLanded =>
        var log2 := log1 + a.beforeGuard;
        if guarded && !a.guardBlind && Moved(plan, View(plan, log2, a.seen)) then (log2, Done(CertainFailure))
        else
          var (log3, r) := Backfilled(plan, log2, fragments, Pinned(plan, guarded), a);
          (log3, Decided(r, only || Blind(plan)))
  }

  /** The attempts from the first of `script` on; `transient` is how the one before ended. */
  function Attempts(plan: Plan, log: Log, fragments: seq<seq<Path>>, after: nat, guarded: bool, only: bool, script: seq<Attempt>, transient: bool): (res: (Log, Outcome))
    ensures |res.0| >= |log|
    decreases |script|
  {
    if script == [] then (log, if transient then UnknownOutcome else CertainFailure)
    else
      var (log1, verdict) := OneAttempt(plan, log, fragments, after, guarded, only, script[0]);
      match verdict
      case Done(outcome) => (log1, outcome)
      case Again(t) => Attempts(plan, log1, fragments, after, guarded, only, script[1..], t)
  }

  /** One `commit` call: its arguments, and one attempt `A` of the script per try it has. */
  datatype Request<A> = Request(
    plan: Plan, fragments: seq<seq<Path>>, writtenAt: Option<nat>,
    allowConcurrent: bool, allowEmpty: bool, script: seq<A>)

  type LogRequest = Request<Attempt>

  predicate Guarded<A>(r: Request<A>) {
    r.plan.overwrite && !r.allowConcurrent
  }

  predicate NothingToCommit<A>(r: Request<A>) {
    PathsOf(r.fragments) == {} && !r.plan.overwrite && !r.plan.txn
  }

  predicate EmptiesTable<A>(r: Request<A>) {
    PathsOf(r.fragments) == {} && r.plan.overwrite && !r.allowEmpty
  }

  /** `_commit`. */
  function RunCommit(log: Log, r: LogRequest): (res: (Log, Outcome))
    requires |log| > 0
    ensures |res.0| >= |log|
  {
    if EmptiesTable(r) then (log, Raised)
    else if NothingToCommit(r) then (log, Returned(|View(r.plan, log, 1)| - 1))
    else
      Attempts(r.plan, log, r.fragments, After(r.plan, r.writtenAt), Guarded(r), |r.script| == 1, r.script, false)
  }

  // ------------------------------------------------------ the imperative form

  /** The table in storage: the log every writer appends to. */
  class Table {
    var log: Log

    constructor (log: Log)
      ensures this.log == log
    {
      this.log := log;
    }

    method Others(cs: Log)
      modifies this
      ensures log == old(log) + cs
    {
      log := log + cs;
    }

    method PutIfAbsent(version: nat, c: Commit) returns (ok: bool)
      modifies this
      ensures ok == (|old(log)| == version)
      ensures log == if ok then old(log) + [c] else old(log)
    {
      ok := |log| == version;
      if ok {
        log := log + [c];
      }
    }

    method PutOn(version: nat, c: Commit, reply: Reply) returns (r: Result)
      modifies this
      ensures (log, r) == Put(old(log), version, c, reply)
    {
      match reply {
        case Answered =>
          var ok := PutIfAbsent(version, c);
          r := if ok then Committed(version) else Conflict;
        case Silent(landed) =>
          if landed {
            var _ := PutIfAbsent(version, c);
          }
          r := Transient;
        case Broken(landed) =>
          if landed {
            var _ := PutIfAbsent(version, c);
          }
          r := Failure;
        case BackfillDemanded => r := BackfillRequired;
        case LayoutChanged => r := MetadataChanged;
      }
    }
  }

  /** `commits_adding`'s scan of the commits since `after`. */
  method ScanCommits(view: Log, after: nat, ps: set<Path>) returns (found: seq<(nat, nat)>)
    ensures found == CommitsAdding(view, after + 1, ps)
  {
    found := [];
    var v := after + 1;
    while v < |view|
      invariant CommitsAdding(view, after + 1, ps) == found + CommitsAdding(view, v, ps)
      decreases |view| - v
    {
      ghost var rest := CommitsAdding(view, v + 1, ps);
      if Touches(view, v, ps) {
        var entry := (v, |view[v].adds * ps|);
        assert found + ([entry] + rest) == (found + [entry]) + rest;
        found := found + [entry];
      } else {
        assert CommitsAdding(view, v, ps) == rest;
      }
      v := v + 1;
    }
    assert CommitsAdding(view, v, ps) == [];
  }

  method CommitFilesOn(table: Table, plan: Plan, fragments: seq<seq<Path>>, pinned: Option<nat>, seen: nat, t: Try) returns (r: Result)
    modifies table
    ensures (table.log, r) == CommitFiles(plan, old(table.log), fragments, pinned, seen, t)
  {
    table.Others(t.beforeSnapshot);
    var view := Snapshot(plan, table.log, pinned, seen);
    if t.reply.LayoutChanged? {
      return MetadataChanged;
    }
    var distinct, ps := CheckFragments(fragments);
    var removes := if plan.overwrite then Live(view) else {};
    if !distinct || removes * ps != {} {
      return Failure;
    }
    table.Others(t.beforePut);
    r := table.PutOn(|view|, Commit(ps, removes), t.reply);
  }

  /** `_landed_version`. */
  method LandedOn(view: Log, after: nat, ps: set<Path>) returns (landing: Landing)
    ensures landing == Landed(view, after, ps)
  {
    if ps == {} {
      return NotLanded;
    }
    var found := ScanCommits(view, after, ps);
    if found == [] {
      return NotLanded;
    }
    return if |found| == 1 && found[0].1 == |ps| then LandedAt(found[0].0) else Partly;
  }

  /** `_backfilled`. */
  method BackfilledOn(table: Table, plan: Plan, fragments: seq<seq<Path>>, pinned: Option<nat>, a: Attempt) returns (r: Result)
    modifies table
    ensures (table.log, r) == Backfilled(plan, old(table.log), fragments, pinned, a)
  {
    r := CommitFilesOn(table, plan, fragments, pinned, a.seen, a.first);
    if r == BackfillRequired {
      if !plan.managed || !plan.catalog || a.publishFails {
        return Failure;
      }
      r := CommitFilesOn(table, plan, fragments, pinned, a.seen, a.second);
      if r == BackfillRequired {
        r := Failure;
      }
    }
  }

  /** One turn of the retry loop. */
  method AttemptOn(table: Table, plan: Plan, fragments: seq<seq<Path>>, after: nat, guarded: bool, only: bool, a: Attempt)
    returns (verdict: Verdict)
    modifies table
    ensures (table.log, verdict) == OneAttempt(plan, old(table.log), fragments, after, guarded, only, a)
  {
    var ps := PathsOf(fragments);
    table.Others(a.beforeCheck);
    if ps != {} && a.checkBroken {
      return Done(Raised);
    }
    var landing := LandedOn(View(plan, table.log, a.seen), after, ps);
    match landing {
      case LandedAt(v) => return Done(Returned(v));
      case Partly => return Done(Raised);
      case NotLanded =>
    }
    table.Others(a.beforeGuard);
    if guarded && !a.guardBlind && Moved(plan, View(plan, table.log, a.seen)) {
      return Done(CertainFailure);
    }
    var r := BackfilledOn(table, plan, fragments, Pinned(plan, guarded), a);
    verdict := Decided(r, only || Blind(plan));
  }

  /** The retry loop of `_commit`: the script says what each attempt meets. */
  method CommitLoop(table: Table, plan: Plan, fragments: seq<seq<Path>>, after: nat, guarded: bool, script: seq<Attempt>)
    returns (outcome: Outcome)
    modifies table
    ensures (table.log, outcome) ==
            Attempts(plan, old(table.log), fragments, after, guarded, |script| == 1, script, false)
  {
    var only := |script| == 1;
    var transient := false;
    var i := 0;
    while i < |script|
      invariant 0 <= i <= |script|
      invariant Attempts(plan, table.log, fragments, after, guarded, only, script[i..], transient) ==
                Attempts(plan, old(table.log), fragments, after, guarded, only, script, false)
    {
      assert script[i..][0] == script[i] && script[i..][1..] == script[i + 1..];
      var verdict := AttemptOn(table, plan, fragments, after, guarded, only, script[i]);
      match verdict {
        case Done(result) => return result;
        case Again(t) => transient := t;
      }
      i := i + 1;
    }
    outcome := if transient then UnknownOutcome else CertainFailure;
  }

  /** `_commit`: the refusals before any attempt, then the attempts. */
  method CommitOn(table: Table, r: LogRequest) returns (outcome: Outcome)
    requires |table.log| > 0
    modifies table
    ensures (table.log, outcome) == RunCommit(old(table.log), r)
  {
    if EmptiesTable(r) {
      return Raised;
    }
    if NothingToCommit(r) {
      return Returned(|View(r.plan, table.log, 1)| - 1);
    }
    outcome := CommitLoop(table, r.plan, r.fragments, After(r.plan, r.writtenAt), Guarded(r), r.script);
  }
}
