/**
 * What holds of commits and aborts at a location in every interleaving, what more holds where nobody
 * undoes the table, and that there they are the commits of the plain protocol.
 */
module SiteSafety {
  import opened Wrappers
  import opened CommitLog
  import opened CommitProtocol
  import opened CommitSafety
  import opened CommitCleanup
  import opened SiteCommits

  // -------------------------------------------------------- what others can do

  /** Another writer never adds these files, creates tables with ids of its own, and undoes only its own. */
  predicate ForeignEvent(id: nat, e: SiteEvent, ps: set<Path>) {
    match e
    case Commits(cs) => Untouched(cs, ps)
    case Lates(cs) => Untouched(cs, ps)
    case Creates(first) => first.id != id && first.commit.adds * ps == {}
    case Looks(other) => other != id
    case Deletes => true
  }

  predicate Foreign(id: nat, es: seq<SiteEvent>, ps: set<Path>) {
    forall i :: 0 <= i < |es| ==> ForeignEvent(id, es[i], ps)
  }

  predicate ForeignTurn(id: nat, t: Turn, ps: set<Path>) {
    Foreign(id, t.beforeCheck, ps) && Foreign(id, t.beforeGuard, ps) && Foreign(id, t.beforeSnapshot, ps) && Foreign(id, t.beforePut, ps)
  }

  predicate ForeignTurns(id: nat, script: seq<Turn>, ps: set<Path>) {
    forall i :: 0 <= i < |script| ==> ForeignTurn(id, script[i], ps)
  }

  /** The table of id `id` is this plan's own: its version 0 adds nothing, and nobody else undoes it. */
  ghost predicate SiteInv(id: nat, site: Site, ps: set<Path>) {
    && Once(site.rest, ps)
    && (site.first.Some? ==> site.first.value.commit.adds * ps == {})
    && (Owned(site, id) ==> site.first.value.commit == EMPTY)
    && (site.looked ==> site.first.Some? && !Owned(site, id))
  }

  /** A version that adds the files is a table's, and nobody is about to delete the version 0 under it. */
  ghost predicate Grounded(site: Site, ps: set<Path>) {
    !Untouched(site.rest, ps) ==> site.first.Some? && !site.looked
  }

  predicate NoLooks(es: seq<SiteEvent>) {
    forall i :: 0 <= i < |es| ==> !es[i].Looks?
  }

  predicate NoLooksIn(t: Turn) {
    NoLooks(t.beforeCheck) && NoLooks(t.beforeGuard) && NoLooks(t.beforeSnapshot) && NoLooks(t.beforePut)
  }

  /** What other writers leave as it is, whatever they do. */
  ghost predicate Grows(id: nat, site: Site, site': Site, ps: set<Path>) {
    && SiteInv(id, site', ps) && site.rest <= site'.rest
    && (Untouched(site.rest, ps) ==> Untouched(site'.rest, ps))
    && (Owned(site, id) ==> site'.first == site.first)
    && (Grounded(site, ps) ==> Grounded(site', ps))
  }

  lemma RestGrows(rest: Log, cs: Log, ps: set<Path>)
    requires Once(rest, ps) && Untouched(cs, ps)
    ensures Once(rest + cs, ps) && (Untouched(rest, ps) <==> Untouched(rest + cs, ps))
  {
    var grown := rest + cs;
    assert forall v :: 0 <= v < |rest| ==> grown[v] == rest[v] && Touches(grown, v, ps) == Touches(rest, v, ps);
    forall v | |rest| <= v < |grown| ensures !Touches(grown, v, ps) {
      assert grown[v] == cs[v - |rest|] && !Touches(cs, v - |rest|, ps);
    }
  }

  lemma EventGrows(id: nat, site: Site, e: SiteEvent, ps: set<Path>)
    requires SiteInv(id, site, ps) && ForeignEvent(id, e, ps)
    ensures Grows(id, site, Happen(site, e), ps)
  {
    if e.Commits? || e.Lates? {
      RestGrows(site.rest, e.cs, ps);
    }
  }

  lemma GrowsComposes(id: nat, a: Site, b: Site, c: Site, ps: set<Path>)
    requires Grows(id, a, b, ps) && Grows(id, b, c, ps)
    ensures Grows(id, a, c, ps)
  {
  }

  lemma {:induction false} OthersGrow(id: nat, site: Site, es: seq<SiteEvent>, ps: set<Path>)
    requires SiteInv(id, site, ps) && Foreign(id, es, ps)
    ensures Grows(id, site, HappenAll(site, es), ps)
    decreases |es|
  {
    if es != [] {
      assert ForeignEvent(id, es[0], ps);
      EventGrows(id, site, es[0], ps);
      OthersGrow(id, Happen(site, es[0]), es[1..], ps);
      GrowsComposes(id, site, Happen(site, es[0]), HappenAll(site, es), ps);
    }
  }

  /** While no undo looks, version 0 stays. */
  lemma {:induction false} NoLooksKeeps(site: Site, es: seq<SiteEvent>)
    requires NoLooks(es) && !site.looked
    ensures var site' := HappenAll(site, es); !site'.looked && (site.first.Some? ==> site'.first == site.first)
    decreases |es|
  {
    if es != [] {
      NoLooksKeeps(Happen(site, es[0]), es[1..]);
    }
  }

  // -------------------------------------------------- what this plan's calls do

  /** Version `v` at the location adds the files. */
  predicate Lies(site: Site, v: nat, ps: set<Path>) {
    0 < v <= |site.rest| && ps <= site.rest[v - 1].adds
  }

  lemma TableIsWritten(site: Site, ps: set<Path>, id: nat)
    requires SiteInv(id, site, ps) && site.first.Some?
    ensures Inv(TableLog(site), 0, ps) && (Untouched(TableLog(site), ps) <==> Untouched(site.rest, ps))
  {
    var log := TableLog(site);
    assert forall v :: 0 < v < |log| ==> log[v] == site.rest[v - 1] && Touches(log, v, ps) == Touches(site.rest, v - 1, ps);
    assert forall v :: 0 <= v < |site.rest| ==> log[v + 1] == site.rest[v] && Touches(log, v + 1, ps) == Touches(site.rest, v, ps);
  }

  /** The landed check on a table: exact, in every company. */
  lemma CheckIsExact(site: Site, ps: set<Path>, id: nat)
    requires SiteInv(id, site, ps) && site.first.Some? && ps != {}
    ensures Landed(TableLog(site), 0, ps) == NotLanded <==> Untouched(site.rest, ps)
    ensures !Landed(TableLog(site), 0, ps).Partly?
    ensures Landed(TableLog(site), 0, ps).LandedAt? ==> Lies(site, Landed(TableLog(site), 0, ps).version, ps)
  {
    TableIsWritten(site, ps, id);
    LandedIsExact(TableLog(site), TableLog(site), 0, 0, ps);
  }

  /** What an attempt decides, whoever undoes what in the middle of it. */
  ghost predicate TurnHolds(id: nat, site: Site, site': Site, v: Verdict, ps: set<Path>) {
    && SiteInv(id, site', ps) && site.rest <= site'.rest
    && (Owned(site, id) ==> site'.first == site.first)
    && match v
       case Done(Returned(n)) => ps != {} ==> Lies(site', n, ps)
       case Done(CertainFailure) => Untouched(site'.rest, ps)
       case Again(transient) => !transient ==> Untouched(site'.rest, ps)
       case _ => true
  }

  /** This plan's put: the files were in no version, and are now in one. */
  lemma PutKeeps(id: nat, at: Site, version: nat, c: Commit, reply: Reply, only: bool, ps: set<Path>)
    requires SiteInv(id, at, ps) && Untouched(at.rest, ps) && c.adds == ps
    ensures var (site', r) := SitePut(at, version, c, reply); TurnHolds(id, at, site', Decided(r, only), ps)
  {
    var rest := at.rest + [c];
    assert forall v :: 0 <= v < |at.rest| ==> rest[v] == at.rest[v] && Touches(rest, v, ps) == Touches(at.rest, v, ps);
  }

  lemma FilesKeep(id: nat, plan: Plan, table: nat, site: Site, fragments: seq<seq<Path>>, pinned: Option<nat>, only: bool, t: Turn)
    requires var ps := PathsOf(fragments); SiteInv(id, site, ps) && ForeignTurn(id, t, ps) && Untouched(site.rest, ps)
    ensures var (site', r) := SiteFiles(plan, table, site, fragments, pinned, t);
            TurnHolds(id, site, site', Decided(r, only), PathsOf(fragments))
  {
    var ps := PathsOf(fragments);
    var s := HappenAll(site, t.beforeSnapshot);
    OthersGrow(id, site, t.beforeSnapshot, ps);
    var log := TableLog(s);
    if Owned(s, table) && (pinned.Some? ==> pinned.value < |log|) {
      var c := Staged(plan, Snapshot(plan, log, pinned, 0), fragments);
      if c.Some? {
        var at := HappenAll(s, t.beforePut);
        OthersGrow(id, s, t.beforePut, ps);
        GrowsComposes(id, site, s, at, ps);
        PutKeeps(id, at, |Snapshot(plan, log, pinned, 0)|, c.value, t.reply, only, ps);
      }
    }
  }

  lemma TurnKeeps(id: nat, plan: Plan, table: nat, site: Site, fragments: seq<seq<Path>>, guarded: bool, only: bool, t: Turn)
    requires var ps := PathsOf(fragments); SiteInv(id, site, ps) && ForeignTurn(id, t, ps)
    ensures var (site', v) := SiteTurn(plan, table, site, fragments, 0, guarded, only, t);
            TurnHolds(id, site, site', v, PathsOf(fragments))
  {
    var ps := PathsOf(fragments);
    var s := HappenAll(site, t.beforeCheck);
    OthersGrow(id, site, t.beforeCheck, ps);
    if ps != {} && s.first.Some? {
      CheckIsExact(s, ps, id);
    }
    if ps == {} || (s.first.Some? && Landed(TableLog(s), 0, ps) == NotLanded) {
      var g := HappenAll(s, t.beforeGuard);
      OthersGrow(id, s, t.beforeGuard, ps);
      GrowsComposes(id, site, s, g, ps);
      FilesKeep(id, plan, table, g, fragments, Pinned(plan, guarded), only, t);
    }
  }

  lemma {:induction false} TurnsKeep(id: nat, plan: Plan, table: nat, site: Site, fragments: seq<seq<Path>>, guarded: bool, only: bool, script: seq<Turn>, transient: bool)
    requires var ps := PathsOf(fragments); SiteInv(id, site, ps) && ForeignTurns(id, script, ps)
    requires script == [] && !transient ==> Untouched(site.rest, PathsOf(fragments))
    ensures var (site', o) := SiteTurns(plan, table, site, fragments, 0, guarded, only, script, transient);
            TurnHolds(id, site, site', Done(o), PathsOf(fragments))
    decreases |script|
  {
    if script != [] {
      assert ForeignTurn(id, script[0], PathsOf(fragments));
      TurnKeeps(id, plan, table, site, fragments, guarded, only, script[0]);
      var (s, v) := SiteTurn(plan, table, site, fragments, 0, guarded, only, script[0]);
      if v.Again? {
        TurnsKeep(id, plan, table, s, fragments, guarded, only, script[1..], v.transient);
      }
    }
  }

  /**
   * A commit at a location, whatever others create and undo in the middle of it: at most one version
   * adds the files, a version returned does, and a certain failure means that none does.
   */
  lemma SiteCommitKeeps(id: nat, site: Site, table: nat, r: SiteRequest)
    requires var ps := PathsOf(r.fragments); SiteInv(id, site, ps) && ForeignTurns(id, r.script, ps)
    requires After(r.plan, r.writtenAt) == 0 && r.script != []
    ensures var (site', o) := SiteCommit(site, table, r); TurnHolds(id, site, site', Done(o), PathsOf(r.fragments))
  {
    if !EmptiesTable(r) && !NothingToCommit(r) {
      TurnsKeep(id, r.plan, table, site, r.fragments, Guarded(r), |r.script| == 1, r.script, false);
    }
  }

  // ---------------------------------------------------------------- shelter

  /** Nobody undoes the table a call commits into: it is this plan's own, or no undo is under way. */
  predicate Sheltered(id: nat, table: nat, site: Site, script: seq<Turn>) {
    table == id || (!site.looked && forall i :: 0 <= i < |script| ==> NoLooksIn(script[i]))
  }

  lemma FilesAreGrounded(id: nat, plan: Plan, table: nat, site: Site, fragments: seq<seq<Path>>, pinned: Option<nat>, t: Turn)
    requires var ps := PathsOf(fragments); SiteInv(id, site, ps) && ForeignTurn(id, t, ps) && Grounded(site, ps)
    requires table == id || (!site.looked && NoLooksIn(t))
    ensures var site' := SiteFiles(plan, table, site, fragments, pinned, t).0;
            Grounded(site', PathsOf(fragments)) && (!site.looked && NoLooksIn(t) ==> !site'.looked)
  {
    var ps := PathsOf(fragments);
    var s := HappenAll(site, t.beforeSnapshot);
    OthersGrow(id, site, t.beforeSnapshot, ps);
    if !site.looked && NoLooksIn(t) {
      NoLooksKeeps(site, t.beforeSnapshot);
    }
    var log := TableLog(s);
    if Owned(s, table) && (pinned.Some? ==> pinned.value < |log|) {
      var view := Snapshot(plan, log, pinned, 0);
      var c := Staged(plan, view, fragments);
      if c.Some? {
        PutIsGrounded(id, table, s, |view|, c.value, ps, t);
      }
    }
  }

  /** Where a put of this plan's comes, the table of its snapshot is still there, and stays. */
  lemma PutIsGrounded(id: nat, table: nat, s: Site, version: nat, c: Commit, ps: set<Path>, t: Turn)
    requires SiteInv(id, s, ps) && Foreign(id, t.beforePut, ps) && Owned(s, table)
    requires table == id || (!s.looked && NoLooks(t.beforePut))
    ensures var put := SitePut(HappenAll(s, t.beforePut), version, c, t.reply).0; put.first.Some? && !put.looked
  {
    OthersGrow(id, s, t.beforePut, ps);
    if table != id {
      NoLooksKeeps(s, t.beforePut);
    }
  }

  lemma TurnIsGrounded(id: nat, plan: Plan, table: nat, site: Site, fragments: seq<seq<Path>>, guarded: bool, only: bool, t: Turn)
    requires var ps := PathsOf(fragments); SiteInv(id, site, ps) && ForeignTurn(id, t, ps) && Grounded(site, ps)
    requires table == id || (!site.looked && NoLooksIn(t))
    ensures var site' := SiteTurn(plan, table, site, fragments, 0, guarded, only, t).0;
            Grounded(site', PathsOf(fragments)) && (!site.looked && NoLooksIn(t) ==> !site'.looked)
  {
    var ps := PathsOf(fragments);
    var s := HappenAll(site, t.beforeCheck);
    OthersGrow(id, site, t.beforeCheck, ps);
    var g := HappenAll(s, t.beforeGuard);
    OthersGrow(id, s, t.beforeGuard, ps);
    if !site.looked && NoLooksIn(t) {
      NoLooksKeeps(site, t.beforeCheck);
      NoLooksKeeps(s, t.beforeGuard);
    }
    FilesAreGrounded(id, plan, table, g, fragments, Pinned(plan, guarded), t);
  }

  lemma {:induction false} TurnsAreGrounded(id: nat, plan: Plan, table: nat, site: Site, fragments: seq<seq<Path>>, guarded: bool, only: bool, script: seq<Turn>, transient: bool)
    requires var ps := PathsOf(fragments); SiteInv(id, site, ps) && ForeignTurns(id, script, ps) && Grounded(site, ps)
    requires Sheltered(id, table, site, script)
    ensures Grounded(SiteTurns(plan, table, site, fragments, 0, guarded, only, script, transient).0, PathsOf(fragments))
    decreases |script|
  {
    if script != [] {
      assert ForeignTurn(id, script[0], PathsOf(fragments));
      TurnKeeps(id, plan, table, site, fragments, guarded, only, script[0]);
      TurnIsGrounded(id, plan, table, site, fragments, guarded, only, script[0]);
      var (s, v) := SiteTurn(plan, table, site, fragments, 0, guarded, only, script[0]);
      if v.Again? {
        TurnsAreGrounded(id, plan, table, s, fragments, guarded, only, script[1..], v.transient);
      }
    }
  }

  /** A sheltered commit leaves its files in a table that stays. */
  lemma SiteCommitIsGrounded(id: nat, site: Site, table: nat, r: SiteRequest)
    requires var ps := PathsOf(r.fragments); SiteInv(id, site, ps) && ForeignTurns(id, r.script, ps) && Grounded(site, ps)
    requires After(r.plan, r.writtenAt) == 0 && Sheltered(id, table, site, r.script)
    ensures Grounded(SiteCommit(site, table, r).0, PathsOf(r.fragments))
  {
    if !EmptiesTable(r) && !NothingToCommit(r) {
      TurnsAreGrounded(id, r.plan, table, site, r.fragments, Guarded(r), |r.script| == 1, r.script, false);
    }
  }

  /** An abort with a table there deletes only what no version adds. */
  lemma SiteAbortKeeps(id: nat, site: Site, ps: set<Path>, c: SiteCleanup)
    requires SiteInv(id, site, ps) && Foreign(id, c.others, ps)
    ensures var (site', files) := SiteAbort(site, ps, 0, c);
            && Grows(id, site, site', ps) && Deleted(files) <= ps
            && (files.Some? ==> Untouched(site'.rest, ps))
  {
    OthersGrow(id, site, c.others, ps);
    var s := HappenAll(site, c.others);
    if ps != {} && s.first.Some? {
      CheckIsExact(s, ps, id);
    }
  }

  // ------------------------------------------- while version 0 stays: a plain log

  function AddedBy(e: SiteEvent): Log {
    match e
    case Commits(cs) => cs
    case Lates(cs) => cs
    case _ => []
  }

  /** What others add to a table whose version 0 stays. */
  function Added(es: seq<SiteEvent>): Log
    decreases |es|
  {
    if es == [] then []
    else AddedBy(es[0]) + Added(es[1..])
  }

  /** None of the undos that look is of the table with this id. */
  predicate NoneUndoes(id: nat, es: seq<SiteEvent>) {
    forall i :: 0 <= i < |es| && es[i].Looks? ==> es[i].id != id
  }

  predicate NoneUndoesIn(id: nat, t: Turn) {
    NoneUndoes(id, t.beforeCheck) && NoneUndoes(id, t.beforeGuard) && NoneUndoes(id, t.beforeSnapshot) && NoneUndoes(id, t.beforePut)
  }

  lemma {:induction false} OthersAdd(site: Site, es: seq<SiteEvent>)
    requires site.first.Some? && !site.looked && NoneUndoes(site.first.value.id, es)
    ensures HappenAll(site, es) == site.(rest := site.rest + Added(es))
    decreases |es|
  {
    if es == [] {
      assert site.rest + [] == site.rest;
    } else {
      var cs := AddedBy(es[0]);
      assert site.rest + [] == site.rest;
      OthersAdd(Happen(site, es[0]), es[1..]);
      Associates(site.rest, cs, Added(es[1..]));
    }
  }

  /** The attempt of the plain protocol that meets the same. */
  function AsAttempt(t: Turn): Attempt {
    Attempt(Added(t.beforeCheck), 0, t.checkBroken, Added(t.beforeGuard), t.guardBlind,
            Try(Added(t.beforeSnapshot), Added(t.beforePut), t.reply), false, CALM)
  }

  function AsAttempts(script: seq<Turn>): (attempts: seq<Attempt>)
    ensures |attempts| == |script|
  {
    if script == [] then [] else [AsAttempt(script[0])] + AsAttempts(script[1..])
  }

  function AsLog(r: SiteRequest): LogRequest {
    Request(r.plan, r.fragments, r.writtenAt, r.allowConcurrent, r.allowEmpty, AsAttempts(r.script))
  }

  /** The same table, with this log. */
  predicate Logs(site: Site, site': Site, log: Log) {
    site' == site.(rest := site'.rest) && TableLog(site') == log
  }

  lemma GrownLogs(site: Site, cs: Log)
    requires site.first.Some?
    ensures Logs(site, site.(rest := site.rest + cs), TableLog(site) + cs)
  {
    assert [site.first.value.commit] + (site.rest + cs) == TableLog(site) + cs;
  }

  lemma OthersLog(site: Site, es: seq<SiteEvent>)
    requires site.first.Some? && !site.looked && NoneUndoes(site.first.value.id, es)
    ensures Logs(site, HappenAll(site, es), TableLog(site) + Added(es))
  {
    OthersAdd(site, es);
    GrownLogs(site, Added(es));
  }

  lemma PutIsLogged(at: Site, version: nat, c: Commit, reply: Reply)
    requires at.first.Some?
    ensures var (site', r) := SitePut(at, version, c, reply); var (log, r') := Put(TableLog(at), version, c, reply);
            Logs(at, site', log) && (r' == r || (r' == BackfillRequired && r == Failure))
  {
    GrownLogs(at, [c]);
  }

  lemma FilesAreLogged(plan: Plan, site: Site, fragments: seq<seq<Path>>, pinned: Option<nat>, t: Turn)
    requires site.first.Some? && !site.looked && NoneUndoesIn(site.first.value.id, t) && !plan.managed
    requires pinned.Some? ==> pinned.value < |TableLog(site)|
    ensures var (site', r) := SiteFiles(plan, site.first.value.id, site, fragments, pinned, t);
            var (log, r') := CommitFiles(plan, TableLog(site), fragments, pinned, 0, AsAttempt(t).first);
            Logs(site, site', log) && (r' == r || (r' == BackfillRequired && r == Failure))
  {
    var s := HappenAll(site, t.beforeSnapshot);
    OthersLog(site, t.beforeSnapshot);
    var view := Snapshot(plan, TableLog(s), pinned, 0);
    var c := Staged(plan, view, fragments);
    if c.Some? {
      var at := HappenAll(s, t.beforePut);
      OthersLog(s, t.beforePut);
      PutIsLogged(at, |view|, c.value, t.reply);
    }
  }

  lemma FilesNeedNoBackfill(plan: Plan, site: Site, fragments: seq<seq<Path>>, pinned: Option<nat>, t: Turn)
    requires site.first.Some? && !site.looked && NoneUndoesIn(site.first.value.id, t) && !plan.managed
    requires pinned.Some? ==> pinned.value < |TableLog(site)|
    ensures var (site', r) := SiteFiles(plan, site.first.value.id, site, fragments, pinned, t);
            var (log, r') := Backfilled(plan, TableLog(site), fragments, pinned, AsAttempt(t));
            Logs(site, site', log) && r == r'
  {
    FilesAreLogged(plan, site, fragments, pinned, t);
    var r := SiteFiles(plan, site.first.value.id, site, fragments, pinned, t).1;
    assert r != BackfillRequired;
  }

  lemma TurnIsAttempt(plan: Plan, site: Site, fragments: seq<seq<Path>>, after: nat, guarded: bool, only: bool, t: Turn)
    requires site.first.Some? && !site.looked && NoneUndoesIn(site.first.value.id, t) && !plan.managed
    requires plan.version.Some? ==> plan.version.value < |TableLog(site)|
    ensures var (site', v) := SiteTurn(plan, site.first.value.id, site, fragments, after, guarded, only, t);
            var (log, v') := OneAttempt(plan, TableLog(site), fragments, after, guarded, only, AsAttempt(t));
            Logs(site, site', log) && v == v'
  {
    var s := HappenAll(site, t.beforeCheck);
    OthersLog(site, t.beforeCheck);
    var g := HappenAll(s, t.beforeGuard);
    OthersLog(s, t.beforeGuard);
    FilesNeedNoBackfill(plan, g, fragments, Pinned(plan, guarded), t);
  }

  lemma {:induction false} TurnsAreAttempts(plan: Plan, site: Site, fragments: seq<seq<Path>>, after: nat, guarded: bool, only: bool, script: seq<Turn>, transient: bool)
    requires site.first.Some? && !site.looked && !plan.managed && (plan.version.Some? ==> plan.version.value < |TableLog(site)|)
    requires forall i :: 0 <= i < |script| ==> NoneUndoesIn(site.first.value.id, script[i])
    ensures var (site', o) := SiteTurns(plan, site.first.value.id, site, fragments, after, guarded, only, script, transient);
            var (log, o') := Attempts(plan, TableLog(site), fragments, after, guarded, only, AsAttempts(script), transient);
            Logs(site, site', log) && o == o'
    decreases |script|
  {
    if script != [] {
      TurnIsAttempt(plan, site, fragments, after, guarded, only, script[0]);
      var (s, v) := SiteTurn(plan, site.first.value.id, site, fragments, after, guarded, only, script[0]);
      if v.Again? {
        TurnsAreAttempts(plan, s, fragments, after, guarded, only, script[1..], v.transient);
      }
    }
  }

  /** While nobody undoes the table, a commit at the location is a commit of the plain protocol. */
  lemma CommitIsPlain(site: Site, r: SiteRequest)
    requires site.first.Some? && !site.looked && !r.plan.managed && (r.plan.version.Some? ==> r.plan.version.value < |TableLog(site)|)
    requires forall i :: 0 <= i < |r.script| ==> NoneUndoesIn(site.first.value.id, r.script[i])
    ensures var (site', o) := SiteCommit(site, site.first.value.id, r);
            var (log, o') := RunCommit(TableLog(site), AsLog(r));
            Logs(site, site', log) && o == o'
  {
    TurnsAreAttempts(r.plan, site, r.fragments, After(r.plan, r.writtenAt), Guarded(r), |r.script| == 1, r.script, false);
  }
}
