/** What holds of every run of the commit protocol, whatever other writers do. */
module CommitSafety {
  import opened Wrappers
  import opened CommitLog
  import opened CommitProtocol

  // ---------------------------------------------------------------- statements

  /** At most one version adds any of the files, and it adds all of them. */
  ghost predicate Once(log: Log, ps: set<Path>) {
    && (forall v, w :: 0 <= v < |log| && 0 <= w < |log| && Touches(log, v, ps) && Touches(log, w, ps) ==> v == w)
    && (forall v :: 0 <= v < |log| && Touches(log, v, ps) ==> ps <= log[v].adds)
  }

  /** The files were written when the log ended at `base`, so no version up to it adds them. */
  ghost predicate WrittenAfter(log: Log, base: nat, ps: set<Path>) {
    base < |log| && forall v :: 0 <= v <= base ==> !Touches(log, v, ps)
  }

  /** Other writers never add this write's files: their names are its own. */
  predicate ForeignTry(t: Try, ps: set<Path>) {
    Untouched(t.beforeSnapshot, ps) && Untouched(t.beforePut, ps)
  }

  predicate ForeignAttempt(a: Attempt, ps: set<Path>) {
    && Untouched(a.beforeCheck, ps) && Untouched(a.beforeGuard, ps)
    && ForeignTry(a.first, ps) && ForeignTry(a.second, ps)
  }

  predicate ForeignScript(script: seq<Attempt>, ps: set<Path>) {
    forall i :: 0 <= i < |script| ==> ForeignAttempt(script[i], ps)
  }

  /** A captured tail holds the version the write was planned at. */
  predicate SeesItsVersion(plan: Plan) {
    Blind(plan) && plan.version.Some? ==> plan.version.value < plan.captured
  }

  /** A call the claims are about: foreign neighbours, and a check that starts early enough. */
  ghost predicate Sound(r: LogRequest, log: Log, base: nat, ps: set<Path>) {
    && PathsOf(r.fragments) == ps && ForeignScript(r.script, ps) && r.script != []
    && SeesItsVersion(r.plan) && After(r.plan, r.writtenAt) <= base
    && (r.plan.version.Some? ==> r.plan.version.value < |log|)
  }

  // ---------------------------------------------------------- the landed check

  lemma {:induction false} NothingFound(log: Log, from: nat, ps: set<Path>)
    ensures CommitsAdding(log, from, ps) == [] <==> forall v :: from <= v < |log| ==> !Touches(log, v, ps)
    decreases |log| - from
  {
    if from < |log| {
      NothingFound(log, from + 1, ps);
    }
  }

  lemma {:induction false} OneFound(log: Log, from: nat, v: nat, ps: set<Path>)
    requires from <= v < |log| && Touches(log, v, ps)
    requires forall w :: from <= w < |log| && w != v ==> !Touches(log, w, ps)
    ensures CommitsAdding(log, from, ps) == [(v, |log[v].adds * ps|)]
    decreases |log| - from
  {
    if from == v {
      NothingFound(log, from + 1, ps);
    } else {
      OneFound(log, from + 1, v, ps);
    }
  }

  /** The check finds the version the files landed at, and nothing when they did not land. */
  lemma LandedIsExact(log: Log, view: Log, after: nat, base: nat, ps: set<Path>)
    requires Once(log, ps) && WrittenAfter(log, base, ps) && view <= log && after <= base && ps != {}
    ensures Landed(view, after, ps) == NotLanded <==> Untouched(view, ps)
    ensures Landed(view, after, ps).LandedAt? ==>
              var v := Landed(view, after, ps).version; v < |log| && Touches(log, v, ps) && ps <= log[v].adds
    ensures !Landed(view, after, ps).Partly?
  {
    assert forall v :: 0 <= v < |view| ==> view[v] == log[v] && Touches(view, v, ps) == Touches(log, v, ps);
    NothingFound(view, after + 1, ps);
    if v :| after < v < |view| && Touches(view, v, ps) {
      OneFound(view, after + 1, v, ps);
      assert view[v].adds * ps == ps;
    }
  }

  /** A fragments commit adds no path twice and none it removes, so it replays the same in any order. */
  lemma StagedIsOrderFree(plan: Plan, view: Log, fragments: seq<seq<Path>>, steps: seq<Step>)
    requires Staged(plan, view, fragments).Some? && Spells(steps, Staged(plan, view, fragments).value)
    ensures var c := Staged(plan, view, fragments).value;
            Distinct(Flat(fragments)) && c.adds !! c.removes && Replay(Live(view), steps) == Live(view + [c])
  {
    var c := Staged(plan, view, fragments).value;
    assert forall p :: p in c.adds && p in c.removes ==> p in Live(view) * PathsOf(fragments);
    ReplayIsOrderFree(Live(view), c, steps);
    assert (view + [c])[..|view|] == view;
  }

  // ------------------------------------------------------- what an attempt does

  /** Only other writers' commits came between. */
  ghost predicate OnlyOthers(before: Log, after: Log, ps: set<Path>) {
    before <= after && forall v :: |before| <= v < |after| ==> !Touches(after, v, ps)
  }

  /** The write's commit is the last one, built on exactly what precedes it. */
  ghost predicate Lands(plan: Plan, before: Log, after: Log, pinned: Option<nat>, ps: set<Path>) {
    && |after| > |before|
    && var v := |after| - 1;
       && OnlyOthers(before, after[..v], ps)
       && after[v] == Commit(ps, if plan.overwrite then Live(after[..v]) else {})
       && (pinned.Some? ==> v == pinned.value + 1)
  }

  /** Nothing but other writers' commits, or those and this write's last. */
  ghost predicate Effect(plan: Plan, before: Log, after: Log, pinned: Option<nat>, ps: set<Path>, r: Result) {
    match r
    case Committed(v) => Lands(plan, before, after, pinned, ps) && v == |after| - 1
    case Conflict => OnlyOthers(before, after, ps)
    case MetadataChanged => OnlyOthers(before, after, ps)
    case BackfillRequired => OnlyOthers(before, after, ps)
    case Transient => OnlyOthers(before, after, ps) || Lands(plan, before, after, pinned, ps)
    case Failure => OnlyOthers(before, after, ps) || Lands(plan, before, after, pinned, ps)
  }

  lemma PutEffect(plan: Plan, log: Log, at: Log, view: Log, c: Commit, pinned: Option<nat>, ps: set<Path>, reply: Reply)
    requires OnlyOthers(log, at, ps) && view <= at && c == Commit(ps, if plan.overwrite then Live(view) else {})
    requires pinned.Some? && |at| == |view| ==> |at| == pinned.value + 1
    ensures var (after, r) := Put(at, |view|, c, reply);
            Effect(plan, log, after, pinned, ps, r) && (!OnlyOthers(log, after, ps) ==> after[..|after| - 1] == view)
  {
    if |at| == |view| {
      assert view == at;
      PutLands(plan, log, at, pinned, ps, c);
    }
  }

  /** The put of a commit built on the whole log. */
  lemma PutLands(plan: Plan, log: Log, at: Log, pinned: Option<nat>, ps: set<Path>, c: Commit)
    requires OnlyOthers(log, at, ps) && c == Commit(ps, if plan.overwrite then Live(at) else {})
    requires pinned.Some? ==> |at| == pinned.value + 1
    ensures Lands(plan, log, at + [c], pinned, ps) && (at + [c])[..|at| + 1 - 1] == at
  {
    PutIsLast(at, c);
  }

  lemma CommitFilesEffect(plan: Plan, log: Log, fragments: seq<seq<Path>>, pinned: Option<nat>, seen: nat, t: Try)
    requires ForeignTry(t, PathsOf(fragments)) && (pinned.Some? ==> pinned.value < |log|)
    ensures var (after, r) := CommitFiles(plan, log, fragments, pinned, seen, t); var ps := PathsOf(fragments);
            && Effect(plan, log, after, pinned, ps, r)
            && (!OnlyOthers(log, after, ps) ==>
                  after[..|after| - 1] == Snapshot(plan, log + t.beforeSnapshot, pinned, seen))
  {
    var ps := PathsOf(fragments);
    var before := log + t.beforeSnapshot;
    ForeignGrows(log, t.beforeSnapshot, ps);
    var view := Snapshot(plan, before, pinned, seen);
    var c := Staged(plan, view, fragments);
    if c.Some? {
      var at := before + t.beforePut;
      ForeignGrows(before, t.beforePut, ps);
      OthersCompose(log, before, at, ps);
      PutEffect(plan, log, at, view, c.value, pinned, ps, t.reply);
    }
  }

  lemma PutIsLast(at: Log, c: Commit)
    ensures (at + [c])[..|at|] == at && (at + [c])[|at|] == c && |at + [c]| - 1 == |at|
  {
  }

  lemma OthersCompose(a: Log, b: Log, c: Log, ps: set<Path>)
    requires OnlyOthers(a, b, ps) && OnlyOthers(b, c, ps)
    ensures OnlyOthers(a, c, ps)
  {
    forall v | |a| <= v < |c| ensures !Touches(c, v, ps) {
      if v < |b| {
        assert c[v] == b[v] && !Touches(b, v, ps);
      }
    }
  }

  lemma ForeignGrows(log: Log, cs: Log, ps: set<Path>)
    requires Untouched(cs, ps)
    ensures OnlyOthers(log, log + cs, ps)
  {
    forall v | |log| <= v < |log + cs| ensures !Touches(log + cs, v, ps) {
      assert (log + cs)[v] == cs[v - |log|];
      assert !Touches(cs, v - |log|, ps);
    }
  }

  lemma BothUntouched(a: Log, b: Log, ps: set<Path>)
    requires Untouched(a, ps) && Untouched(b, ps)
    ensures Untouched(a + b, ps)
  {
    var both := a + b;
    forall v | 0 <= v < |both| ensures !Touches(both, v, ps) {
      if v < |a| {
        assert both[v] == a[v] && !Touches(a, v, ps);
      } else {
        assert both[v] == b[v - |a|] && !Touches(b, v - |a|, ps);
      }
    }
  }

  /** How far a captured tail lets an attempt see. */
  function Reach(plan: Plan, seen: nat): nat {
    if seen < plan.captured then plan.captured else seen
  }

  /** A put after a refused one, seen from before both. */
  lemma EffectComposes(plan: Plan, log: Log, log1: Log, log2: Log, pinned: Option<nat>, ps: set<Path>, r: Result)
    requires OnlyOthers(log, log1, ps) && Effect(plan, log1, log2, pinned, ps, r)
    ensures Effect(plan, log, log2, pinned, ps, r)
    ensures Effect(plan, log, log2, pinned, ps, Failure)
    ensures !OnlyOthers(log, log2, ps) ==> !OnlyOthers(log1, log2, ps)
  {
    if OnlyOthers(log1, log2, ps) {
      OthersCompose(log, log1, log2, ps);
    }
    if Lands(plan, log1, log2, pinned, ps) {
      OthersCompose(log, log1, log2[..|log2| - 1], ps);
    }
  }

  lemma BackfilledEffect(plan: Plan, log: Log, fragments: seq<seq<Path>>, pinned: Option<nat>, a: Attempt)
    requires ForeignAttempt(a, PathsOf(fragments)) && (pinned.Some? ==> pinned.value < |log|)
    ensures var (after, r) := Backfilled(plan, log, fragments, pinned, a); var ps := PathsOf(fragments);
            && Effect(plan, log, after, pinned, ps, r)
            && (Blind(plan) && pinned.None? && !OnlyOthers(log, after, ps) ==> |after| - 1 <= Reach(plan, a.seen))
  {
    var ps := PathsOf(fragments);
    CommitFilesEffect(plan, log, fragments, pinned, a.seen, a.first);
    var (log1, r) := CommitFiles(plan, log, fragments, pinned, a.seen, a.first);
    if r == BackfillRequired && plan.managed && plan.catalog && !a.publishFails {
      CommitFilesEffect(plan, log1, fragments, pinned, a.seen, a.second);
      var (log2, r2) := CommitFiles(plan, log1, fragments, pinned, a.seen, a.second);
      EffectComposes(plan, log, log1, log2, pinned, ps, r2);
    }
  }

  // ------------------------------------------------------------ what is kept

  ghost predicate Inv(log: Log, base: nat, ps: set<Path>) {
    WrittenAfter(log, base, ps) && Once(log, ps)
  }

  /** What a version that adds the files looks like: an append removes nothing, an overwrite all. */
  predicate Lawful(plan: Plan, guarded: bool, log: Log, v: nat, ps: set<Path>)
    requires v < |log|
  {
    && log[v] == Commit(ps, if plan.overwrite then Live(log[..v]) else {})
    && (guarded && plan.version.Some? ==> v == plan.version.value + 1)
  }

  /** From `before` on, only lawful versions add the files. */
  ghost predicate LawfulSince(plan: Plan, guarded: bool, before: Log, after: Log, ps: set<Path>) {
    && before <= after
    && forall v :: |before| <= v < |after| && Touches(after, v, ps) ==> Lawful(plan, guarded, after, v, ps)
  }

  lemma OthersKeep(before: Log, after: Log, base: nat, ps: set<Path>)
    requires Inv(before, base, ps) && OnlyOthers(before, after, ps)
    ensures Inv(after, base, ps)
    ensures Untouched(before, ps) ==> Untouched(after, ps)
  {
    assert forall v :: 0 <= v < |before| ==> after[v] == before[v] && Touches(after, v, ps) == Touches(before, v, ps);
  }

  lemma LandsKeeps(plan: Plan, before: Log, after: Log, pinned: Option<nat>, base: nat, ps: set<Path>)
    requires Inv(before, base, ps) && Lands(plan, before, after, pinned, ps)
    requires Untouched(after[..|after| - 1], ps)
    ensures Inv(after, base, ps)
  {
    var at := after[..|after| - 1];
    assert forall v :: 0 <= v < |at| ==> after[v] == at[v] && Touches(after, v, ps) == Touches(at, v, ps);
  }

  /** Where the check found nothing, a commit that lands does so on an untouched log. */
  lemma NothingBefore(plan: Plan, log1: Log, log2: Log, log3: Log, guarded: bool, a: Attempt, ps: set<Path>)
    requires Untouched(View(plan, log1, a.seen), ps) && OnlyOthers(log1, log2, ps) && SeesItsVersion(plan)
    requires Lands(plan, log2, log3, Pinned(plan, guarded), ps)
    requires Blind(plan) && Pinned(plan, guarded).None? && !OnlyOthers(log2, log3, ps) ==> |log3| - 1 <= Reach(plan, a.seen)
    requires !OnlyOthers(log2, log3, ps)
    ensures Untouched(log3[..|log3| - 1], ps)
  {
    var at := log3[..|log3| - 1];
    assert |log1| <= |log2| <= |at|;
    assert View(plan, log1, a.seen) == log1;
    OthersCompose(log1, log2, at, ps);
    forall v | 0 <= v < |at| ensures !Touches(at, v, ps) {
      if v < |log1| {
        assert at[v] == log1[v] && !Touches(log1, v, ps);
      }
    }
  }

  /** What one attempt decides, and what it leaves behind. */
  ghost predicate AttemptHolds(plan: Plan, guarded: bool, before: Log, after: Log, base: nat, ps: set<Path>, v: Verdict) {
    && Inv(after, base, ps) && LawfulSince(plan, guarded, before, after, ps)
    && match v
       case Done(Returned(n)) => ps != {} ==> n < |after| && Touches(after, n, ps) && ps <= after[n].adds
       case Done(CertainFailure) => !Blind(plan) || Untouched(before, ps) ==> Untouched(after, ps)
       case Again(transient) => !Blind(plan) && (!transient ==> Untouched(after, ps))
       case _ => true
  }

  lemma AttemptKeeps(plan: Plan, log: Log, fragments: seq<seq<Path>>, after: nat, guarded: bool, only: bool, a: Attempt, base: nat)
    requires Inv(log, base, PathsOf(fragments)) && ForeignAttempt(a, PathsOf(fragments))
    requires SeesItsVersion(plan) && after <= base && (plan.version.Some? ==> plan.version.value < |log|)
    ensures var (log', v) := OneAttempt(plan, log, fragments, after, guarded, only, a);
            AttemptHolds(plan, guarded, log, log', base, PathsOf(fragments), v)
  {
    var ps := PathsOf(fragments);
    var log1 := log + a.beforeCheck;
    ForeignGrows(log, a.beforeCheck, ps);
    OthersKeep(log, log1, base, ps);
    var view := View(plan, log1, a.seen);
    if ps != {} {
      LandedIsExact(log1, view, after, base, ps);
    }
    if !(ps != {} && a.checkBroken) && Landed(view, after, ps) == NotLanded {
      var log2 := log1 + a.beforeGuard;
      ForeignGrows(log1, a.beforeGuard, ps);
      OthersKeep(log1, log2, base, ps);
      OthersCompose(log, log1, log2, ps);
      CommittingKeeps(plan, log, log1, log2, fragments, guarded, a, base);
    }
  }

  lemma CommittingKeeps(plan: Plan, log: Log, log1: Log, log2: Log, fragments: seq<seq<Path>>, guarded: bool, a: Attempt, base: nat)
    requires var ps := PathsOf(fragments);
             && Inv(log, base, ps) && Inv(log1, base, ps) && Inv(log2, base, ps)
             && OnlyOthers(log, log2, ps) && OnlyOthers(log1, log2, ps)
             && Untouched(View(plan, log1, a.seen), ps) && ForeignAttempt(a, ps)
             && SeesItsVersion(plan) && (plan.version.Some? ==> plan.version.value < |log|)
    ensures var (log3, r) := Backfilled(plan, log2, fragments, Pinned(plan, guarded), a); var ps := PathsOf(fragments);
            && Inv(log3, base, ps) && LawfulSince(plan, guarded, log, log3, ps)
            && (r.Committed? ==> r.version == |log3| - 1 && log3[r.version].adds == ps)
            && (r.MetadataChanged? || r.Conflict? ==> !Blind(plan) || Untouched(log, ps) ==> Untouched(log3, ps))
  {
    var ps := PathsOf(fragments);
    var pinned := Pinned(plan, guarded);
    var (log3, r) := Backfilled(plan, log2, fragments, pinned, a);
    BackfilledEffect(plan, log2, fragments, pinned, a);
    CommittedKeeps(plan, log, log1, log2, log3, r, guarded, a, base, ps);
  }

  lemma CommittedKeeps(plan: Plan, log: Log, log1: Log, log2: Log, log3: Log, r: Result, guarded: bool, a: Attempt, base: nat, ps: set<Path>)
    requires Inv(log, base, ps) && Inv(log1, base, ps) && Inv(log2, base, ps)
    requires OnlyOthers(log, log2, ps) && OnlyOthers(log1, log2, ps) && Untouched(View(plan, log1, a.seen), ps) && SeesItsVersion(plan)
    requires Effect(plan, log2, log3, Pinned(plan, guarded), ps, r)
    requires Blind(plan) && Pinned(plan, guarded).None? && !OnlyOthers(log2, log3, ps) ==> |log3| - 1 <= Reach(plan, a.seen)
    ensures Inv(log3, base, ps) && LawfulSince(plan, guarded, log, log3, ps)
    ensures r.Committed? ==> r.version == |log3| - 1 && log3[r.version].adds == ps
    ensures r.MetadataChanged? || r.Conflict? ==> !Blind(plan) || Untouched(log, ps) ==> Untouched(log3, ps)
  {
    if OnlyOthers(log2, log3, ps) {
      NothingPutKeeps(plan, guarded, log, log1, log2, log3, a.seen, base, ps);
    } else {
      NothingBefore(plan, log1, log2, log3, guarded, a, ps);
      LandsKeeps(plan, log2, log3, Pinned(plan, guarded), base, ps);
      LandedLawfully(plan, guarded, log, log2, log3, ps);
    }
  }

  lemma NothingPutKeeps(plan: Plan, guarded: bool, log: Log, log1: Log, log2: Log, log3: Log, seen: nat, base: nat, ps: set<Path>)
    requires Inv(log, base, ps) && Inv(log1, base, ps) && Inv(log2, base, ps)
    requires OnlyOthers(log, log2, ps) && OnlyOthers(log1, log2, ps) && OnlyOthers(log2, log3, ps)
    requires Untouched(View(plan, log1, seen), ps)
    ensures Inv(log3, base, ps) && LawfulSince(plan, guarded, log, log3, ps)
    ensures !Blind(plan) || Untouched(log, ps) ==> Untouched(log3, ps)
  {
    OthersKeep(log2, log3, base, ps);
    OthersCompose(log, log2, log3, ps);
    OthersKeep(log, log3, base, ps);
    OthersKeep(log1, log2, base, ps);
  }

  lemma LandedLawfully(plan: Plan, guarded: bool, log: Log, log2: Log, log3: Log, ps: set<Path>)
    requires OnlyOthers(log, log2, ps) && Lands(plan, log2, log3, Pinned(plan, guarded), ps)
    ensures LawfulSince(plan, guarded, log, log3, ps)
  {
    var at := log3[..|log3| - 1];
    OthersCompose(log, log2, at, ps);
    assert forall v :: |log| <= v < |at| ==> at[v] == log3[v] && Touches(log3, v, ps) == Touches(at, v, ps);
  }

  // --------------------------------------------------------------- one commit

  lemma {:induction false} AttemptsKeep(plan: Plan, log: Log, fragments: seq<seq<Path>>, after: nat, guarded: bool, only: bool, script: seq<Attempt>, transient: bool, base: nat)
    requires var ps := PathsOf(fragments); Inv(log, base, ps) && ForeignScript(script, ps)
    requires SeesItsVersion(plan) && after <= base && (plan.version.Some? ==> plan.version.value < |log|)
    requires script == [] ==> !Blind(plan) && (!transient ==> Untouched(log, PathsOf(fragments)))
    ensures var (log', o) := Attempts(plan, log, fragments, after, guarded, only, script, transient);
            AttemptHolds(plan, guarded, log, log', base, PathsOf(fragments), Done(o))
    decreases |script|
  {
    var ps := PathsOf(fragments);
    if script != [] {
      assert ForeignAttempt(script[0], ps);
      AttemptKeeps(plan, log, fragments, after, guarded, only, script[0], base);
      var (log1, v) := OneAttempt(plan, log, fragments, after, guarded, only, script[0]);
      if v.Again? {
        AttemptsKeep(plan, log1, fragments, after, guarded, only, script[1..], v.transient, base);
        var (log2, o) := Attempts(plan, log1, fragments, after, guarded, only, script[1..], v.transient);
        LawfulComposes(plan, guarded, log, log1, log2, ps);
      }
    }
  }

  lemma LawfulComposes(plan: Plan, guarded: bool, a: Log, b: Log, c: Log, ps: set<Path>)
    requires LawfulSince(plan, guarded, a, b, ps) && LawfulSince(plan, guarded, b, c, ps)
    ensures LawfulSince(plan, guarded, a, c, ps)
  {
    forall v | |a| <= v < |c| && Touches(c, v, ps) ensures Lawful(plan, guarded, c, v, ps) {
      if v < |b| {
        assert c[v] == b[v] && c[..v] == b[..v] && Touches(b, v, ps);
      }
    }
  }

  /**
   * One `commit` call: the files stay in at most one version, a returned version adds all of
   * them, a certain failure means no version does, and a version that adds them is lawful.
   */
  lemma CommitKeeps(log: Log, r: LogRequest, base: nat, ps: set<Path>)
    requires Inv(log, base, ps) && Sound(r, log, base, ps)
    ensures var (log', o) := RunCommit(log, r);
            AttemptHolds(r.plan, Guarded(r), log, log', base, ps, Done(o))
  {
    if !EmptiesTable(r) && !NothingToCommit(r) {
      AttemptsKeep(r.plan, log, r.fragments, After(r.plan, r.writtenAt), Guarded(r), |r.script| == 1, r.script, false, base);
    }
  }

  /**
   * An overwrite planned at version n, without the concurrent flag, lands at n + 1 removing
   * exactly the files live at n, or nothing of it lands: no other writer's version is lost.
   */
  lemma GuardedOverwriteLosesNoWriter(log: Log, r: LogRequest, base: nat, ps: set<Path>)
    requires Inv(log, base, ps) && Sound(r, log, base, ps) && Untouched(log, ps)
    requires Guarded(r) && r.plan.version.Some?
    ensures var (log', o) := RunCommit(log, r); var n := r.plan.version.value;
            && log <= log'
            && (Untouched(log', ps) || (|log'| > n + 1 && log'[n + 1] == Commit(ps, Live(log'[..n + 1]))
                                         && forall v :: 0 <= v < |log'| && v != n + 1 ==> !Touches(log', v, ps)))
            && (o.Returned? && ps != {} ==> o.version == n + 1)
  {
    CommitKeeps(log, r, base, ps);
    var (log', o) := RunCommit(log, r);
    var n := r.plan.version.value;
    assert forall v :: 0 <= v < |log| ==> log'[v] == log[v] && Touches(log', v, ps) == Touches(log, v, ps);
    if v :| 0 <= v < |log'| && Touches(log', v, ps) {
      assert Lawful(r.plan, true, log', v, ps);
    }
  }

  // ------------------------------------------------------------------- runs

  /** What happens to the table, in order: other writers, and calls to commit these files. */
  datatype Event = Others(cs: Log) | Call(r: LogRequest)

  function Run(log: Log, events: seq<Event>): (Log, seq<Outcome>)
    requires |log| > 0
    decreases |events|
  {
    if events == [] then (log, [])
    else
      match events[0]
      case Others(cs) => Run(log + cs, events[1..])
      case Call(r) =>
        var (log1, o) := RunCommit(log, r);
        var (log2, os) := Run(log1, events[1..]);
        (log2, [o] + os)
  }

  ghost predicate SoundEvent(e: Event, log: Log, base: nat, ps: set<Path>) {
    match e
    case Others(cs) => Untouched(cs, ps)
    case Call(r) => Sound(r, log, base, ps)
  }

  ghost predicate SoundRun(log: Log, events: seq<Event>, base: nat, ps: set<Path>)
    decreases |events|
  {
    events == [] ||
    (SoundEvent(events[0], log, base, ps) &&
     match events[0]
     case Others(cs) => SoundRun(log + cs, events[1..], base, ps)
     case Call(r) => SoundRun(if |log| > 0 then RunCommit(log, r).0 else log, events[1..], base, ps))
  }

  /**
   * Over any sequence of commits of the same files (retries, unknown outcomes that landed or
   * did not, a restarted driver, a later plan), between any other writers' commits, at most
   * one version adds them, and every version returned is that one.
   */
  lemma {:induction false} ExactlyOnce(log: Log, events: seq<Event>, base: nat, ps: set<Path>)
    requires |log| > 0 && Inv(log, base, ps) && SoundRun(log, events, base, ps)
    ensures var (log', os) := Run(log, events);
            && log <= log' && Inv(log', base, ps)
            && forall i :: 0 <= i < |os| && os[i].Returned? && ps != {} ==>
                 os[i].version < |log'| && ps <= log'[os[i].version].adds
    decreases |events|
  {
    if events != [] {
      match events[0]
      case Others(cs) =>
        ForeignGrows(log, cs, ps);
        OthersKeep(log, log + cs, base, ps);
        ExactlyOnce(log + cs, events[1..], base, ps);
      case Call(r) =>
        CommitKeeps(log, r, base, ps);
        var (log1, o) := RunCommit(log, r);
        ExactlyOnce(log1, events[1..], base, ps);
        var (log2, os) := Run(log1, events[1..]);
        assert o.Returned? && ps != {} ==> log2[o.version] == log1[o.version];
    }
  }

  /** Every call is a guarded overwrite of the one plan. */
  predicate GuardedCalls(events: seq<Event>, plan: Plan) {
    forall i :: 0 <= i < |events| && events[i].Call? ==> events[i].r.plan == plan && Guarded(events[i].r)
  }

  lemma OthersAreLawful(plan: Plan, log: Log, after: Log, ps: set<Path>)
    requires OnlyOthers(log, after, ps)
    ensures LawfulSince(plan, true, log, after, ps)
  {
  }

  lemma {:induction false} GuardedRunIsLawful(log: Log, events: seq<Event>, base: nat, ps: set<Path>, plan: Plan)
    requires |log| > 0 && Inv(log, base, ps) && SoundRun(log, events, base, ps) && GuardedCalls(events, plan)
    ensures LawfulSince(plan, true, log, Run(log, events).0, ps)
    decreases |events|
  {
    if events != [] {
      var next := match events[0] case Others(cs) => log + cs case Call(r) => RunCommit(log, r).0;
      assert GuardedCalls(events[1..], plan);
      match events[0] {
        case Others(cs) =>
          ForeignGrows(log, cs, ps);
          OthersKeep(log, next, base, ps);
          OthersAreLawful(plan, log, next, ps);
        case Call(r) => CommitKeeps(log, r, base, ps);
      }
      GuardedRunIsLawful(next, events[1..], base, ps, plan);
      LawfulComposes(plan, true, log, next, Run(log, events).0, ps);
    }
  }

  /** An overwrite of version n landed at n + 1, removing exactly what was live at n, and nowhere else. */
  ghost predicate Replaces(log: Log, n: nat, ps: set<Path>) {
    && |log| > n + 1 && log[n + 1] == Commit(ps, Live(log[..n + 1]))
    && forall v :: 0 <= v < |log| && v != n + 1 ==> !Touches(log, v, ps)
  }

  /**
   * Over any sequence of guarded overwrites of one plan (retries, unknown outcomes, a restarted
   * driver), between any other writers' commits: the one version that adds the files is n + 1, it
   * removes exactly what was live at n, and it is the version every call returns.
   */
  lemma GuardedOverwritesLoseNoWriter(log: Log, events: seq<Event>, base: nat, ps: set<Path>, plan: Plan)
    requires |log| > 0 && Inv(log, base, ps) && SoundRun(log, events, base, ps) && Untouched(log, ps)
    requires GuardedCalls(events, plan) && plan.overwrite && plan.version.Some?
    ensures var (log', os) := Run(log, events); var n := plan.version.value;
            && log <= log' && (Untouched(log', ps) || Replaces(log', n, ps))
            && forall i :: 0 <= i < |os| && os[i].Returned? && ps != {} ==> os[i].version == n + 1 && Replaces(log', n, ps)
  {
    ExactlyOnce(log, events, base, ps);
    GuardedRunIsLawful(log, events, base, ps, plan);
    var (log', os) := Run(log, events);
    forall v | 0 <= v < |log'| && Touches(log', v, ps) ensures v == plan.version.value + 1 && Replaces(log', v - 1, ps) {
      LawfulAfter(plan, log, log', v, ps);
    }
    forall i | 0 <= i < |os| && os[i].Returned? && ps != {} ensures Touches(log', os[i].version, ps) {
      var p :| p in ps;
      assert p in log'[os[i].version].adds * ps;
    }
  }

  lemma LawfulAfter(plan: Plan, log: Log, log': Log, v: nat, ps: set<Path>)
    requires Untouched(log, ps) && LawfulSince(plan, true, log, log', ps) && Once(log', ps) && v < |log'| && Touches(log', v, ps)
    requires plan.overwrite && plan.version.Some?
    ensures v == plan.version.value + 1 && Replaces(log', v - 1, ps)
  {
    assert forall k :: 0 <= k < |log| ==> log'[k] == log[k] && Touches(log', k, ps) == Touches(log, k, ps);
  }

  // ------------------------------------------------ where the promises stop

  const EMPTY := Commit({}, {})
  const OURS := Commit({"f"}, {})
  const CALM := Try([], [], Answered)

  /** One attempt that meets no other writer, through a view of `seen` versions of a captured tail. */
  function Calm(seen: nat): Attempt {
    Attempt([], seen, false, [], false, CALM, false, CALM)
  }

  /** An append whose first attempt meets no other writer. */
  predicate CalmAppend(r: LogRequest, seen: nat) {
    && !r.plan.overwrite && PathsOf(r.fragments) != {} && Distinct(Flat(r.fragments))
    && r.script != [] && r.script[0] == Calm(seen)
  }

  lemma CalmAppendRuns(log: Log, r: LogRequest, seen: nat)
    requires log != [] && CalmAppend(r, seen) && View(r.plan, log, seen) == log
    ensures var ps := PathsOf(r.fragments);
            RunCommit(log, r) ==
            match Landed(log, After(r.plan, r.writtenAt), ps)
            case NotLanded => (log + [Commit(ps, {})], Returned(|log|))
            case LandedAt(v) => (log, Returned(v))
            case Partly => (log, Raised)
  {
    assert log + [] == log;
    assert Staged(r.plan, log, r.fragments) == Some(Commit(PathsOf(r.fragments), {}));
    assert CommitFiles(r.plan, log, r.fragments, None, seen, CALM) == (log + [Commit(PathsOf(r.fragments), {})], Committed(|log|));
  }

  lemma LandedPast(log: Log, after: nat, v: nat, ps: set<Path>)
    requires ps != {} && Once(log, ps) && v < |log| && Touches(log, v, ps)
    ensures Landed(log, after, ps) == if after >= v then NotLanded else LandedAt(v)
  {
    if after >= v {
      NothingFound(log, after + 1, ps);
    } else {
      OneFound(log, after + 1, v, ps);
      assert log[v].adds * ps == ps;
    }
  }

  /**
   * Files that version v adds, appended again through a plan that sees the whole log and meets no
   * other writer, land a second time if and only if the check starts at v or later, that is, if
   * neither the fragments nor the plan is from before v; otherwise v is returned.
   */
  lemma LandsAgainExactlyWhen(log: Log, v: nat, r: LogRequest, seen: nat)
    requires var ps := PathsOf(r.fragments); v < |log| && Touches(log, v, ps) && Once(log, ps)
    requires CalmAppend(r, seen) && View(r.plan, log, seen) == log
    ensures var ps := PathsOf(r.fragments); var (log', o) := RunCommit(log, r);
            && (!Once(log', ps) <==> After(r.plan, r.writtenAt) >= v)
            && (log', o) == if After(r.plan, r.writtenAt) >= v then (log + [Commit(ps, {})], Returned(|log|)) else (log, Returned(v))
  {
    var ps := PathsOf(r.fragments);
    LandedPast(log, After(r.plan, r.writtenAt), v, ps);
    CalmAppendRuns(log, r, seen);
    var twice := log + [Commit(ps, {})];
    assert twice[v] == log[v] && Touches(twice, v, ps) && Touches(twice, |log|, ps);
  }

  /**
   * Fragments that do not record when they were written are committed twice through a plan
   * made after they landed: the check starts past the version that adds them.
   */
  lemma UnrecordedFragmentsLandTwice()
    ensures var later := Plan(Some(1), false, false, false, false, 0);
            RunCommit([EMPTY, OURS], Request(later, [["f"]], None, false, false, [Calm(0)])) == ([EMPTY, OURS, OURS], Returned(2))
  {
    var later := Plan(Some(1), false, false, false, false, 0);
    assert Flat([["f"]]) == ["f"] && PathsOf([["f"]]) == {"f"};
    assert [EMPTY, OURS][1] == OURS && Touches([EMPTY, OURS], 1, {"f"});
    LandsAgainExactlyWhen([EMPTY, OURS], 1, Request(later, [["f"]], None, false, false, [Calm(0)]), 0);
    assert [EMPTY, OURS] + [OURS] == [EMPTY, OURS, OURS];
  }

  /** Whether every certain failure the plan can report, on any log and in any company, is one. */
  ghost predicate FailuresAreCertain(plan: Plan) {
    forall log, r, base, ps :: FailsCertainly(plan, log, r, base, ps) ==> Untouched(RunCommit(log, r).0, ps)
  }

  ghost predicate FailsCertainly(plan: Plan, log: Log, r: LogRequest, base: nat, ps: set<Path>) {
    && r.plan == plan && log != [] && Inv(log, base, ps) && Sound(r, log, base, ps)
    && RunCommit(log, r).1 == CertainFailure
  }

  function Empties(n: nat): (log: Log)
    ensures |log| == n
  {
    seq(n, _ => EMPTY)
  }

  /** What a captured tail does not show: the files, landed in the version after it. */
  lemma HiddenLanding(n: nat)
    requires n > 0
    ensures var log := Empties(n) + [OURS]; Inv(log, n - 1, {"f"}) && Touches(log, n, {"f"}) && log[..n] == Empties(n)
  {
    var log := Empties(n) + [OURS];
    forall v | 0 <= v < n ensures !Touches(log, v, {"f"}) {
      assert log[v] == EMPTY;
    }
    assert log[n] == OURS && "f" in OURS.adds * {"f"};
    assert log[..n] == Empties(n);
  }

  lemma BlindAppendFailsFalsely(plan: Plan)
    requires Blind(plan) && !plan.overwrite && SeesItsVersion(plan)
    ensures !FailuresAreCertain(plan)
  {
    var n := if plan.captured > 0 then plan.captured else 1;
    var log := Empties(n) + [OURS];
    var r := Request(plan, [["f"]], Some(0), false, false, [Calm(n)]);
    HiddenLanding(n);
    assert Flat([["f"]]) == ["f"] && PathsOf([["f"]]) == {"f"};
    assert log + [] == log && View(plan, log, n) == Empties(n);
    NothingFound(Empties(n), After(plan, Some(0)) + 1, {"f"});
    assert Staged(plan, Empties(n), [["f"]]) == Some(OURS);
    assert CommitFiles(plan, log, [["f"]], None, n, CALM) == (log, Conflict);
    assert RunCommit(log, r) == (log, CertainFailure);
    assert FailsCertainly(plan, log, r, n - 1, {"f"});
  }

  /**
   * What an append plan calls a certain failure is one, on every log and in any company, if and
   * only if the plan is not blind: not of a catalog-managed table without its catalog.
   */
  lemma FailuresAreCertainExactlyWhen(plan: Plan)
    requires !plan.overwrite && SeesItsVersion(plan)
    ensures FailuresAreCertain(plan) <==> !Blind(plan)
  {
    if Blind(plan) {
      BlindAppendFailsFalsely(plan);
    } else {
      forall log, r, base, ps | FailsCertainly(plan, log, r, base, ps) ensures Untouched(RunCommit(log, r).0, ps) {
        CommitKeeps(log, r, base, ps);
      }
    }
  }
}
