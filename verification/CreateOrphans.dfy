/**
 * Undoing a create looks for a version 1 and then deletes version 0. What other writers put between
 * the two, or after, on a snapshot they hold, lies at the location with no version 0 under it.
 */
module CreateOrphans {
  import opened Wrappers
  import opened CommitLog
  import opened CommitProtocol
  import opened CommitSafety
  import opened CertainFailures
  import opened SiteCommits
  import opened SiteSafety
  import opened CreateProtocol
  import opened CreateRun

  // --------------------------------------------------------- what one call does

  /** The table a commit opens is this plan's, with version 0 alone. */
  predicate OpensAlone(cr: Creator, site: Site, m: Meeting) {
    Owned(Opened(cr, site, m), cr.id) && Opened(cr, site, m).rest == []
  }

  /** Whether a commit deletes version 0 again, as it can be told before the call. */
  predicate UndoesCommit(cr: Creator, site: Site, fragments: seq<seq<Path>>, m: Meeting) {
    && m.abortOnFailure && PathsOf(fragments) != {} && OpensAlone(cr, site, m)
    && FailsQuietly(Retargeted(Opened(cr, site, m)), Distinct(Flat(fragments)), AsAttempts(m.script), |m.script| == 1)
    && Added(m.cleanup.others) == [] && Added(m.beforeUndo) == []
  }

  /** Nobody else undoes a create while the call runs. */
  predicate NobodyUndoes(site: Site, m: Meeting) {
    !site.looked && NoLooksInMeeting(m) && NoLooks(m.cleanup.others) && NoLooks(m.beforeUndo)
  }

  lemma ForeignUndoesNone(id: nat, es: seq<SiteEvent>, ps: set<Path>)
    requires Foreign(id, es, ps)
    ensures NoneUndoes(id, es)
  {
    forall i | 0 <= i < |es| && es[i].Looks? ensures es[i].id != id {
      assert ForeignEvent(id, es[i], ps);
    }
  }

  lemma ForeignTurnsUndoNone(id: nat, script: seq<Turn>, ps: set<Path>)
    requires ForeignTurns(id, script, ps)
    ensures forall i :: 0 <= i < |script| ==> NoneUndoesIn(id, script[i])
  {
    forall i | 0 <= i < |script| ensures NoneUndoesIn(id, script[i]) {
      assert ForeignTurn(id, script[i], ps);
      ForeignUndoesNone(id, script[i].beforeCheck, ps);
      ForeignUndoesNone(id, script[i].beforeGuard, ps);
      ForeignUndoesNone(id, script[i].beforeSnapshot, ps);
      ForeignUndoesNone(id, script[i].beforePut, ps);
    }
  }

  lemma {:induction false} ForeignAdds(id: nat, es: seq<SiteEvent>, ps: set<Path>)
    requires Foreign(id, es, ps)
    ensures Untouched(Added(es), ps)
    decreases |es|
  {
    if es != [] {
      assert ForeignEvent(id, es[0], ps);
      ForeignAdds(id, es[1..], ps);
      BothUntouched(AddedBy(es[0]), Added(es[1..]), ps);
    }
  }

  lemma {:induction false} ForeignScripts(id: nat, script: seq<Turn>, ps: set<Path>)
    requires ForeignTurns(id, script, ps)
    ensures ForeignScript(AsAttempts(script), ps)
    decreases |script|
  {
    if script != [] {
      assert ForeignTurn(id, script[0], ps);
      ForeignAdds(id, script[0].beforeCheck, ps);
      ForeignAdds(id, script[0].beforeGuard, ps);
      ForeignAdds(id, script[0].beforeSnapshot, ps);
      ForeignAdds(id, script[0].beforePut, ps);
      ForeignScripts(id, script[1..], ps);
    }
  }

  /** Into this plan's own table of version 0 alone: a certain failure, and still version 0 alone. */
  lemma CommitFailsQuietly(cr: Creator, site: Site, fragments: seq<seq<Path>>, m: Meeting)
    requires var ps := PathsOf(fragments); SiteInv(cr.id, site, ps) && SoundMeeting(cr, m, ps) && ps != {} && Owned(site, cr.id)
    ensures var (s, o) := SiteCommit(site, cr.id, DataRequest(Retargeted(site), fragments, m));
            && s.first == site.first && !s.looked && site.rest <= s.rest
            && (o == CertainFailure && s.rest == [] <==>
                  site.rest == [] && FailsQuietly(Retargeted(site), Distinct(Flat(fragments)), AsAttempts(m.script), |m.script| == 1))
  {
    var ps := PathsOf(fragments);
    var r := DataRequest(Retargeted(site), fragments, m);
    SiteCommitKeeps(cr.id, site, cr.id, r);
    if site.rest == [] {
      ForeignTurnsUndoNone(cr.id, m.script, ps);
      CommitIsPlain(site, r);
      ForeignScripts(cr.id, m.script, ps);
      assert TableLog(site) == [EMPTY];
      QuietFailureExactlyWhen(r.plan, [EMPTY], fragments, 0, |m.script| == 1, AsAttempts(m.script), false);
    }
  }

  /** From an untouched table of its own to the look: nothing was added, and the cleanup did not refuse. */
  lemma LooksAlone(cr: Creator, site: Site, ps: set<Path>, m: Meeting)
    requires SiteInv(cr.id, site, ps) && SoundMeeting(cr, m, ps) && Owned(site, cr.id)
    ensures var (s, files) := SiteAbort(site, ps, 0, m.cleanup); var left := HappenAll(s, m.beforeUndo);
            && s.first == site.first && left.first == site.first && site.rest <= left.rest
            && (left.rest == [] <==> site.rest == [] && Added(m.beforeUndo) == [] && (ps == {} || Added(m.cleanup.others) == []))
            && (site.rest == [] && Added(m.cleanup.others) == [] ==> (files.Some? <==> ps == {} || !m.cleanup.broken))
  {
    ForeignUndoesNone(cr.id, m.cleanup.others, ps);
    ForeignUndoesNone(cr.id, m.beforeUndo, ps);
    OthersAdd(site, m.cleanup.others);
    var s := SiteAbort(site, ps, 0, m.cleanup).0;
    OthersAdd(s, m.beforeUndo);
    if ps != {} && s.rest == [] {
      OthersGrow(cr.id, site, m.cleanup.others, ps);
      CheckIsExact(s, ps, cr.id);
    }
  }

  /** What the undo of version 0 alone leaves: what others commit between its look and its delete. */
  lemma UndoLeaves(cr: Creator, site: Site, between: seq<SiteEvent>, ps: set<Path>)
    requires SiteInv(cr.id, site, ps) && Foreign(cr.id, between, ps) && Owned(site, cr.id)
    ensures var (site', undid) := Undo(cr.id, site, between);
            && (undid <==> site.rest == [])
            && site' == (if undid then Site(None, Added(between), true, false) else site.(rest := site.rest + Added(between)))
  {
    ForeignUndoesNone(cr.id, between, ps);
    OthersAdd(site, between);
    assert [] + Added(between) == Added(between);
  }

  lemma CommitDataOrphans(cr: Creator, site: Site, fragments: seq<seq<Path>>, m: Meeting)
    requires var ps := PathsOf(fragments); SiteInv(cr.id, site, ps) && SoundMeeting(cr, m, ps) && Owned(site, cr.id)
    ensures var (site', _, _, undid) := CommitData(cr, site, cr.id, Retargeted(site), fragments, m);
            && (undid <==> m.abortOnFailure && PathsOf(fragments) != {} && site.rest == []
                           && FailsQuietly(Retargeted(site), Distinct(Flat(fragments)), AsAttempts(m.script), |m.script| == 1)
                           && Added(m.cleanup.others) == [] && Added(m.beforeUndo) == [])
            && (undid ==> site' == Site(None, Added(m.betweenUndo), true, false))
            && (!undid ==> site'.first == site.first)
  {
    var ps := PathsOf(fragments);
    var r := DataRequest(Retargeted(site), fragments, m);
    SiteCommitKeeps(cr.id, site, cr.id, r);
    var (s, o) := SiteCommit(site, cr.id, r);
    if ps != {} {
      CommitFailsQuietly(cr, site, fragments, m);
    }
    if o == CertainFailure && m.abortOnFailure {
      LooksAlone(cr, s, ps, m);
      var s' := SiteAbort(s, ps, 0, m.cleanup).0;
      SiteAbortKeeps(cr.id, s, ps, m.cleanup);
      OthersGrow(cr.id, s', m.beforeUndo, ps);
      UndoLeaves(cr, HappenAll(s', m.beforeUndo), m.betweenUndo, ps);
    }
  }

  lemma CalmFilesKeep(plan: Plan, table: nat, site: Site, fragments: seq<seq<Path>>, pinned: Option<nat>, t: Turn)
    requires !site.looked && NoLooksIn(t)
    ensures var s := SiteFiles(plan, table, site, fragments, pinned, t).0; !s.looked && (site.first.Some? ==> s.first == site.first)
  {
    NoLooksKeeps(site, t.beforeSnapshot);
    NoLooksKeeps(HappenAll(site, t.beforeSnapshot), t.beforePut);
  }

  lemma {:induction false} CalmTurnsKeep(plan: Plan, table: nat, site: Site, fragments: seq<seq<Path>>, after: nat, guarded: bool, only: bool, script: seq<Turn>, transient: bool)
    requires !site.looked && forall i :: 0 <= i < |script| ==> NoLooksIn(script[i])
    ensures var s := SiteTurns(plan, table, site, fragments, after, guarded, only, script, transient).0;
            !s.looked && (site.first.Some? ==> s.first == site.first)
    decreases |script|
  {
    if script != [] {
      var checked := HappenAll(site, script[0].beforeCheck);
      NoLooksKeeps(site, script[0].beforeCheck);
      NoLooksKeeps(checked, script[0].beforeGuard);
      CalmFilesKeep(plan, table, HappenAll(checked, script[0].beforeGuard), fragments, Pinned(plan, guarded), script[0]);
      var (s, v) := SiteTurn(plan, table, site, fragments, after, guarded, only, script[0]);
      if v.Again? {
        CalmTurnsKeep(plan, table, s, fragments, after, guarded, only, script[1..], v.transient);
      }
    }
  }

  lemma CalmCommitKeeps(site: Site, table: nat, r: SiteRequest)
    requires !site.looked && forall i :: 0 <= i < |r.script| ==> NoLooksIn(r.script[i])
    ensures var s := SiteCommit(site, table, r).0; !s.looked && (site.first.Some? ==> s.first == site.first)
  {
    if !EmptiesTable(r) && !NothingToCommit(r) {
      CalmTurnsKeep(r.plan, table, site, r.fragments, After(r.plan, r.writtenAt), Guarded(r), |r.script| == 1, r.script, false);
    }
  }

  /** While nobody undoes it, the table a commit joins is there when it returns. */
  lemma JoinedStays(cr: Creator, site: Site, fragments: seq<seq<Path>>, m: Meeting)
    requires NobodyUndoes(site, m) && !Owned(Opened(cr, site, m), cr.id)
    ensures var (site', _, _, undid) := CreateCommit(cr, site, fragments, m); site'.first.Some? && !undid
  {
    var found := Opened(cr, site, m);
    OpenedIsCalm(cr, site, m);
    NoLooksKeeps(site, m.before);
    NoLooksKeeps(Created(HappenAll(site, m.before), First(cr.id, EMPTY)), m.beforeOpen);
    var met := HappenAll(found, m.beforeFit);
    NoLooksKeeps(found, m.beforeFit);
    NoLooksKeeps(met, m.cleanup.others);
    var r := DataRequest(Retargeted(found), fragments, m);
    CalmCommitKeeps(met, found.first.value.id, r);
    var s := SiteCommit(met, found.first.value.id, r).0;
    NoLooksKeeps(s, m.cleanup.others);
    NoLooksKeeps(SiteAbort(s, PathsOf(fragments), 0, m.cleanup).0, m.beforeUndo);
  }

  /**
   * A creating commit undoes its create if and only if it fails quietly on version 0 alone; it then
   * leaves without a version 0 exactly what others commit between its look and its delete. It leaves
   * no other version so, on its own table in every interleaving, on another's where nobody undoes that.
   */
  lemma CommitOrphansExactlyWhen(cr: Creator, site: Site, fragments: seq<seq<Path>>, m: Meeting)
    requires var ps := PathsOf(fragments); SiteInv(cr.id, site, ps) && SoundMeeting(cr, m, ps)
    ensures var (site', _, _, undid) := CreateCommit(cr, site, fragments, m);
            && (undid <==> UndoesCommit(cr, site, fragments, m))
            && (undid ==> site' == Site(None, Added(m.betweenUndo), true, false))
            && (Owned(Opened(cr, site, m), cr.id) || NobodyUndoes(site, m) ==>
                  && (site'.first.None? <==> undid)
                  && Orphans(site') == (if UndoesCommit(cr, site, fragments, m) then Added(m.betweenUndo) else []))
  {
    var ps := PathsOf(fragments);
    var found := Opened(cr, site, m);
    OpenedGrows(cr, site, m, ps);
    if Owned(found, cr.id) {
      CommitDataOrphans(cr, found, fragments, m);
    } else if NobodyUndoes(site, m) {
      JoinedStays(cr, site, fragments, m);
    }
  }

  /** Whether an abort deletes version 0, as it can be told before the call. */
  predicate UndoesAbort(cr: Creator, site: Site, ps: set<Path>, m: Meeting) {
    && Owned(AbortFinds(site, m), cr.id) && AbortFinds(site, m).rest == [] && Added(m.beforeUndo) == []
    && (ps == {} || (!m.cleanup.broken && Added(m.cleanup.others) == []))
  }

  lemma AbortFoundOrphans(cr: Creator, found: Site, ps: set<Path>, m: Meeting)
    requires SiteInv(cr.id, found, ps) && SoundMeeting(cr, m, ps) && Owned(found, cr.id)
    ensures var (site', _, undid) := AbortFound(cr, found, ps, m);
            && (undid <==> found.rest == [] && Added(m.beforeUndo) == []
                           && (ps == {} || (!m.cleanup.broken && Added(m.cleanup.others) == [])))
            && site'.first == (if undid then None else found.first)
            && (undid ==> site' == Site(None, Added(m.betweenUndo), true, false))
  {
    var s := SiteAbort(found, ps, 0, m.cleanup).0;
    SiteAbortKeeps(cr.id, found, ps, m.cleanup);
    OthersGrow(cr.id, s, m.beforeUndo, ps);
    LooksAlone(cr, found, ps, m);
    UndoLeaves(cr, HappenAll(s, m.beforeUndo), m.betweenUndo, ps);
  }

  lemma AbortFoundStays(cr: Creator, found: Site, ps: set<Path>, m: Meeting)
    requires !found.looked && NoLooks(m.cleanup.others) && NoLooks(m.beforeUndo) && found.first.Some? && !Owned(found, cr.id)
    ensures var (site', _, undid) := AbortFound(cr, found, ps, m); !undid && site'.first == found.first
  {
    NoLooksKeeps(found, m.cleanup.others);
    NoLooksKeeps(SiteAbort(found, ps, 0, m.cleanup).0, m.beforeUndo);
  }

  /** The same of an abort; where there is no table, what lies there stays. */
  lemma AbortOrphansExactlyWhen(cr: Creator, site: Site, ps: set<Path>, m: Meeting)
    requires SiteInv(cr.id, site, ps) && SoundMeeting(cr, m, ps)
    ensures var (site', _, undid) := CreateAbort(cr, site, ps, m); var found := AbortFinds(site, m);
            && (undid <==> UndoesAbort(cr, site, ps, m))
            && (undid ==> site' == Site(None, Added(m.betweenUndo), true, false))
            && (found.first.None? ==> site' == found)
            && (found.first.Some? && (Owned(found, cr.id) || NobodyUndoes(site, m)) ==>
                  && (site'.first.None? <==> undid)
                  && Orphans(site') == (if UndoesAbort(cr, site, ps, m) then Added(m.betweenUndo) else []))
  {
    var found := AbortFinds(site, m);
    AbortFindsGrows(cr, site, ps, m);
    if Owned(found, cr.id) {
      AbortFoundOrphans(cr, found, ps, m);
    } else if NobodyUndoes(site, m) && found.first.Some? {
      NoLooksKeeps(site, m.before);
      NoLooksKeeps(HappenAll(site, m.before), m.beforeOpen);
      AbortFoundStays(cr, found, ps, m);
    }
  }

  /**
   * A create takes in what lies there: versions that other writers built on a table that is gone
   * become versions 1 and on of the table created, and its undo cannot remove it any more.
   */
  lemma CreateTakesOrphansIn(cr: Creator, site: Site, fragments: seq<seq<Path>>, m: Meeting)
    requires var ps := PathsOf(fragments); SiteInv(cr.id, site, ps) && SoundMeeting(cr, m, ps)
    requires site.first.None? && site.rest != []
    ensures var (site', _, _, undid) := CreateCommit(cr, site, fragments, m); var found := Opened(cr, site, m);
            && !undid && site.rest <= site'.rest
            && (Owned(found, cr.id) || NobodyUndoes(site, m) ==>
                  site'.first.Some? && [site'.first.value.commit] + site.rest <= TableLog(site') && Orphans(site') == [])
  {
    OpenedGrows(cr, site, m, PathsOf(fragments));
    CommitOrphansExactlyWhen(cr, site, fragments, m);
    CreateKeeps(cr, site, fragments, m);
  }

  const THEIR_COMMIT := Commit({"theirs"}, {})

  /** An input: a writer that opened the empty table commits "theirs" once version 0 is gone. */
  lemma LateWriterIsOrphaned(cr: Creator)
    ensures var w := SiteWorld(Site(Some(First(cr.id, EMPTY)), [], false, false), {});
            Steps(cr, w, [ABORTS, OthersDo(Lates([THEIR_COMMIT]))], {"f"}).0 == SiteWorld(Site(None, [THEIR_COMMIT], true, false), {"f"})
  {
    var site := Site(Some(First(cr.id, EMPTY)), [], false, false);
    var files := {"f"};
    assert files - {} == files && {} + files == files && [] + [THEIR_COMMIT] == [THEIR_COMMIT];
    NothingFound([EMPTY], 1, files);
    assert TableLog(site) == [EMPTY];
    assert SiteAbort(site, files, 0, ABORTS.m.cleanup) == (site, Some(files));
    assert CreateAbort(cr, site, files, ABORTS.m) == (Site(None, [], true, false), files, true);
    var acts := [ABORTS, OthersDo(Lates([THEIR_COMMIT]))];
    assert acts[1..] == [OthersDo(Lates([THEIR_COMMIT]))] && acts[1..][1..] == [];
    var gone := SiteWorld(Site(None, [], true, false), files);
    assert CreateRun.Step(cr, SiteWorld(site, {}), ABORTS, files) == (gone, None);
    assert Steps(cr, gone, acts[1..], files).0 == SiteWorld(Site(None, [THEIR_COMMIT], true, false), files);
  }

  // ------------------------------------------------------------------- in a run

  predicate NoCreates(es: seq<SiteEvent>) {
    forall i :: 0 <= i < |es| ==> !es[i].Creates?
  }

  predicate NoCreatesIn(t: Turn) {
    NoCreates(t.beforeCheck) && NoCreates(t.beforeGuard) && NoCreates(t.beforeSnapshot) && NoCreates(t.beforePut)
  }

  /** A plain write meets its own table, or a table nobody undoes meanwhile, or none throughout. */
  predicate PlainApart(cr: Creator, site: Site, script: seq<Turn>, c: SiteCleanup) {
    if site.first.None? then (forall i :: 0 <= i < |script| ==> NoCreatesIn(script[i])) && NoCreates(c.others)
    else Owned(site, cr.id) || (!site.looked && (forall i :: 0 <= i < |script| ==> NoLooksIn(script[i])) && NoLooks(c.others))
  }

  /** Other writers' creates are undone between this plan's calls, or while those are on its own table. */
  predicate Apart(cr: Creator, site: Site, a: Act) {
    match a
    case OthersDo(_) => true
    case Creating(_, m) => Owned(Opened(cr, site, m), cr.id) || NobodyUndoes(site, m)
    case AbortCreating(m) => Owned(AbortFinds(site, m), cr.id) || NobodyUndoes(site, m)
    case Plain(_, r, _, c) => PlainApart(cr, site, r.script, c)
    case AbortPlain(_, _, c) => PlainApart(cr, site, [], c)
  }

  ghost predicate ApartActs(cr: Creator, w: SiteWorld, acts: seq<Act>, ps: set<Path>)
    decreases |acts|
  {
    acts != [] ==> Apart(cr, w.site, acts[0]) && ApartActs(cr, CreateRun.Step(cr, w, acts[0], ps).0, acts[1..], ps)
  }

  /** A step that leaves no version 0, as it can be told before it. */
  predicate Empties(cr: Creator, site: Site, a: Act, ps: set<Path>) {
    match a
    case OthersDo(e) => e.Deletes? && site.looked
    case Creating(fragments, m) => UndoesCommit(cr, site, fragments, m)
    case AbortCreating(m) => UndoesAbort(cr, site, ps, m)
    case _ => false
  }

  /** A step that creates a table, with whatever lies there as its versions 1 and on. */
  predicate Fills(site: Site, a: Act) {
    match a
    case OthersDo(e) => e.Creates?
    case Creating(_, _) => true
    case AbortCreating(m) => AbortFinds(site, m).first.Some?
    case _ => false
  }

  lemma {:induction false} NoneStays(site: Site, es: seq<SiteEvent>)
    requires site.first.None? && NoCreates(es)
    ensures HappenAll(site, es).first.None?
    decreases |es|
  {
    if es != [] {
      NoneStays(Happen(site, es[0]), es[1..]);
    }
  }

  lemma {:induction false} NoneCommits(plan: Plan, table: nat, site: Site, fragments: seq<seq<Path>>, after: nat, guarded: bool, only: bool, script: seq<Turn>, transient: bool)
    requires site.first.None? && forall i :: 0 <= i < |script| ==> NoCreatesIn(script[i])
    ensures SiteTurns(plan, table, site, fragments, after, guarded, only, script, transient).0.first.None?
    decreases |script|
  {
    if script != [] {
      var checked := HappenAll(site, script[0].beforeCheck);
      var looked := HappenAll(checked, script[0].beforeGuard);
      NoneStays(site, script[0].beforeCheck);
      NoneStays(checked, script[0].beforeGuard);
      NoneStays(looked, script[0].beforeSnapshot);
      var (s, v) := SiteTurn(plan, table, site, fragments, after, guarded, only, script[0]);
      if v.Again? {
        NoneCommits(plan, table, s, fragments, after, guarded, only, script[1..], v.transient);
      }
    }
  }

  lemma PlainKeepsTable(cr: Creator, w: SiteWorld, table: nat, r: SiteRequest, abort: bool, c: SiteCleanup, ps: set<Path>)
    requires SiteInv(cr.id, w.site, ps) && SoundAct(cr, Plain(table, r, abort, c), w, ps) && PlainApart(cr, w.site, r.script, c)
    ensures PlainCommit(w.site, table, r, abort, c).0.first.None? <==> w.site.first.None?
  {
    SiteCommitKeeps(cr.id, w.site, table, r);
    var s := SiteCommit(w.site, table, r).0;
    SiteAbortKeeps(cr.id, s, ps, c);
    if w.site.first.None? {
      NoneCommits(r.plan, table, w.site, r.fragments, After(r.plan, r.writtenAt), Guarded(r), |r.script| == 1, r.script, false);
      NoneStays(s, c.others);
    } else if !Owned(w.site, cr.id) {
      CalmCommitKeeps(w.site, table, r);
      NoLooksKeeps(s, c.others);
    }
  }

  lemma AbortPlainKeepsTable(cr: Creator, site: Site, ps: set<Path>, c: SiteCleanup)
    requires SiteInv(cr.id, site, ps) && Foreign(cr.id, c.others, ps) && PlainApart(cr, site, [], c)
    ensures SiteAbort(site, ps, 0, c).0.first.None? <==> site.first.None?
  {
    SiteAbortKeeps(cr.id, site, ps, c);
    if site.first.None? {
      NoneStays(site, c.others);
    } else if !Owned(site, cr.id) {
      NoLooksKeeps(site, c.others);
    }
  }

  /** Each step: whether it leaves a version 0. */
  lemma StepOrphans(cr: Creator, w: SiteWorld, a: Act, ps: set<Path>)
    requires SiteInv(cr.id, w.site, ps) && SoundAct(cr, a, w, ps) && Apart(cr, w.site, a)
    ensures CreateRun.Step(cr, w, a, ps).0.site.first.None? <==>
            Empties(cr, w.site, a, ps) || (w.site.first.None? && !Fills(w.site, a))
  {
    match a
    case OthersDo(_) =>
    case Creating(fragments, m) => CommitOrphansExactlyWhen(cr, w.site, fragments, m);
    case AbortCreating(m) =>
      AbortOrphansExactlyWhen(cr, w.site, ps, m);
      AbortFindsTable(cr, w.site, ps, m);
    case Plain(table, r, abort, c) => PlainKeepsTable(cr, w, table, r, abort, c, ps);
    case AbortPlain(_, _, c) => AbortPlainKeepsTable(cr, w.site, ps, c);
  }

  lemma AbortFindsTable(cr: Creator, site: Site, ps: set<Path>, m: Meeting)
    requires SiteInv(cr.id, site, ps) && SoundMeeting(cr, m, ps) && (Owned(AbortFinds(site, m), cr.id) || NobodyUndoes(site, m))
    ensures site.first.Some? ==> AbortFinds(site, m).first.Some?
  {
    if NobodyUndoes(site, m) {
      NoLooksKeeps(site, m.before);
      NoLooksKeeps(HappenAll(site, m.before), m.beforeOpen);
    }
  }

  /** The location before act `i`. */
  function SiteAt(cr: Creator, w: SiteWorld, acts: seq<Act>, ps: set<Path>, i: nat): Site
    requires i <= |acts|
    decreases i
  {
    if i == 0 then w.site else SiteAt(cr, CreateRun.Step(cr, w, acts[0], ps).0, acts[1..], ps, i - 1)
  }

  predicate EmptiesAt(cr: Creator, w: SiteWorld, acts: seq<Act>, ps: set<Path>, i: nat)
    requires i < |acts|
  {
    Empties(cr, SiteAt(cr, w, acts, ps, i), acts[i], ps)
  }

  predicate FillsAt(cr: Creator, w: SiteWorld, acts: seq<Act>, ps: set<Path>, i: nat)
    requires i < |acts|
  {
    Fills(SiteAt(cr, w, acts, ps, i), acts[i])
  }

  /** No act from `i` on creates a table. */
  ghost predicate NoneFills(cr: Creator, w: SiteWorld, acts: seq<Act>, ps: set<Path>, i: nat) {
    forall j :: i <= j < |acts| ==> !FillsAt(cr, w, acts, ps, j)
  }

  ghost predicate EmptiedToTheEnd(cr: Creator, w: SiteWorld, acts: seq<Act>, ps: set<Path>) {
    exists i: nat :: i < |acts| && EmptiesAt(cr, w, acts, ps, i) && NoneFills(cr, w, acts, ps, i + 1)
  }

  lemma NoneFillsShifts(cr: Creator, w: SiteWorld, acts: seq<Act>, ps: set<Path>, i: nat)
    requires acts != []
    ensures NoneFills(cr, CreateRun.Step(cr, w, acts[0], ps).0, acts[1..], ps, i) <==> NoneFills(cr, w, acts, ps, i + 1)
  {
    var w1 := CreateRun.Step(cr, w, acts[0], ps).0;
    forall j | 0 <= j < |acts[1..]| ensures FillsAt(cr, w1, acts[1..], ps, j) == FillsAt(cr, w, acts, ps, j + 1) {
    }
    if NoneFills(cr, w1, acts[1..], ps, i) {
      forall j | i + 1 <= j < |acts| ensures !FillsAt(cr, w, acts, ps, j) {
        assert !FillsAt(cr, w1, acts[1..], ps, j - 1);
      }
    }
  }

  lemma EmptiedShifts(cr: Creator, w: SiteWorld, acts: seq<Act>, ps: set<Path>)
    requires acts != []
    ensures var w1 := CreateRun.Step(cr, w, acts[0], ps).0;
            EmptiedToTheEnd(cr, w, acts, ps) <==>
            || EmptiedToTheEnd(cr, w1, acts[1..], ps)
            || (EmptiesAt(cr, w, acts, ps, 0) && NoneFills(cr, w1, acts[1..], ps, 0))
  {
    var w1 := CreateRun.Step(cr, w, acts[0], ps).0;
    NoneFillsShifts(cr, w, acts, ps, 0);
    if EmptiedToTheEnd(cr, w1, acts[1..], ps) {
      var i: nat :| i < |acts[1..]| && EmptiesAt(cr, w1, acts[1..], ps, i) && NoneFills(cr, w1, acts[1..], ps, i + 1);
      NoneFillsShifts(cr, w, acts, ps, i + 1);
      assert EmptiesAt(cr, w, acts, ps, i + 1);
    }
    if EmptiedToTheEnd(cr, w, acts, ps) {
      var i: nat :| i < |acts| && EmptiesAt(cr, w, acts, ps, i) && NoneFills(cr, w, acts, ps, i + 1);
      if i > 0 {
        NoneFillsShifts(cr, w, acts, ps, i);
        assert EmptiesAt(cr, w1, acts[1..], ps, i - 1);
      }
    }
  }

  /**
   * At the end of a run every version from 1 on that anyone put lies without a version 0 if and only
   * if some step deleted version 0 and none created a table after it, or there was none from the
   * start and none was created; else none does.
   */
  lemma {:induction false} RunOrphansExactlyWhen(cr: Creator, w: SiteWorld, acts: seq<Act>, ps: set<Path>)
    requires SiteInv(cr.id, w.site, ps) && SoundActs(cr, w, acts, ps) && ApartActs(cr, w, acts, ps)
    ensures var site := Steps(cr, w, acts, ps).0.site;
            && w.site.rest <= site.rest
            && Orphans(site) == (if EmptiedToTheEnd(cr, w, acts, ps) || (w.site.first.None? && NoneFills(cr, w, acts, ps, 0)) then site.rest else [])
            && (site.first.None? <==> EmptiedToTheEnd(cr, w, acts, ps) || (w.site.first.None? && NoneFills(cr, w, acts, ps, 0)))
    decreases |acts|
  {
    if acts != [] {
      var w1 := CreateRun.Step(cr, w, acts[0], ps).0;
      StepLands(cr, w, acts[0], ps);
      StepOrphans(cr, w, acts[0], ps);
      RunOrphansExactlyWhen(cr, w1, acts[1..], ps);
      EmptiedShifts(cr, w, acts, ps);
      NoneFillsShifts(cr, w, acts, ps, 0);
      assert NoneFills(cr, w, acts, ps, 0) <==> !FillsAt(cr, w, acts, ps, 0) && NoneFills(cr, w, acts, ps, 1);
    }
  }
}
