/** `_Creator` on a path or an external table: the table is created at commit, and undone on failure. */
module CreateProtocol {
  import opened Wrappers
  import opened CommitLog
  import opened CommitProtocol
  import opened CommitSafety
  import opened CommitCleanup
  import opened SiteCommits
  import opened SiteSafety

  datatype Mode = AppendMode | IgnoreMode | ErrorMode

  /** What planned the create: the id its version 0 carries, and the mode. */
  datatype Creator = Creator(id: nat, mode: Mode)

  /** What one `commit` or `abort` of a creating write meets. */
  datatype Meeting = Meeting(
    before: seq<SiteEvent>, beforeOpen: seq<SiteEvent>, beforeFit: seq<SiteEvent>, fits: bool,
    abortOnFailure: bool, script: seq<Turn>, cleanup: SiteCleanup,
    beforeUndo: seq<SiteEvent>, betweenUndo: seq<SiteEvent>)

  /** Files written against the template are recorded as written at version 0. */
  const TEMPLATE_VERSION: Option<nat> := Some(0)

  /** `_published` and `_opened`: version 0 is put, and whichever is there then is read. */
  function Opened(cr: Creator, site: Site, m: Meeting): Site {
    HappenAll(Created(HappenAll(site, m.before), First(cr.id, EMPTY)), m.beforeOpen)
  }

  /** The plan against the table opened. */
  function Retargeted(site: Site): Plan {
    Plan(Some(|site.rest|), false, false, false, false, 0)
  }

  function DataRequest(target: Plan, fragments: seq<seq<Path>>, m: Meeting): SiteRequest {
    Request(target, fragments, TEMPLATE_VERSION, false, false, m.script)
  }

  /**
   * `rollback_create`: where there is no version 1 and version 0 is this plan's, version 0 is deleted,
   * after what others do `between` the two. Also, whether it was.
   */
  function Undo(id: nat, site: Site, between: seq<SiteEvent>): (Site, bool) {
    var alone := site.rest == [] && Owned(site, id);
    var after := HappenAll(site, between);
    (if alone then Removed(after) else after, alone)
  }

  /** `_commit_data`: what it leaves, reports and deletes, and whether it undid the create. */
  function CommitData(cr: Creator, site: Site, table: nat, target: Plan, fragments: seq<seq<Path>>, m: Meeting): (Site, Outcome, set<Path>, bool) {
    var (s, o) := SiteCommit(site, table, DataRequest(target, fragments, m));
    if o == CertainFailure && m.abortOnFailure then
      var (s', files) := SiteAbort(s, PathsOf(fragments), 0, m.cleanup);
      var left := HappenAll(s', m.beforeUndo);
      var (site', undid) := if table == cr.id then Undo(cr.id, left, m.betweenUndo) else (left, false);
      (site', o, Deleted(files), undid)
    else (s, o, {}, false)
  }

  /** `_joined`: another writer's table, which the files are added to, or left alone. */
  function JoinOrLeave(cr: Creator, found: Site, table: nat, fragments: seq<seq<Path>>, m: Meeting): (Site, Outcome, set<Path>, bool) {
    var met := HappenAll(found, m.beforeFit);
    if met.first.None? then (met, Raised, {}, false)
    else if cr.mode == AppendMode && m.fits then CommitData(cr, met, table, Retargeted(found), fragments, m)
    else
      var (s, files) :=
        if m.abortOnFailure || cr.mode == IgnoreMode then SiteAbort(met, PathsOf(fragments), 0, m.cleanup) else (met, None);
      (s, if cr.mode == IgnoreMode then Returned(|found.rest|) else Raised, Deleted(files), false)
  }

  /** `_Creator.commit` of a path or external table. */
  function CreateCommit(cr: Creator, site: Site, fragments: seq<seq<Path>>, m: Meeting): (Site, Outcome, set<Path>, bool) {
    var found := Opened(cr, site, m);
    if found.first.None? then (found, Raised, {}, false)
    else if Owned(found, cr.id) then CommitData(cr, found, cr.id, Retargeted(found), fragments, m)
    else JoinOrLeave(cr, found, found.first.value.id, fragments, m)
  }

  /** An abort through the check of the table found; `_undo` follows where it does not refuse. */
  function AbortFound(cr: Creator, found: Site, ps: set<Path>, m: Meeting): (Site, set<Path>, bool) {
    var (s, files) := SiteAbort(found, ps, 0, m.cleanup);
    if files.None? then (s, {}, false)
    else
      var left := HappenAll(s, m.beforeUndo);
      var (site', undid) := if Owned(found, cr.id) then Undo(cr.id, left, m.betweenUndo) else (left, false);
      (site', files.value, undid)
  }

  /** The table an abort finds: none, where there was none when it looked. */
  function AbortFinds(site: Site, m: Meeting): Site {
    var current := HappenAll(site, m.before);
    if current.first.None? then current else HappenAll(current, m.beforeOpen)
  }

  /** `_Creator.abort`: unchecked where there is no version 0, else through the table's own check. */
  function CreateAbort(cr: Creator, site: Site, ps: set<Path>, m: Meeting): (Site, set<Path>, bool) {
    var found := AbortFinds(site, m);
    if HappenAll(site, m.before).first.None? then (found, ps - m.cleanup.undeletable, false)
    else if found.first.None? then (found, {}, false)
    else AbortFound(cr, found, ps, m)
  }

  // ------------------------------------------------------ the imperative form

  /** `_undo` of a path or external table: look, and then delete. */
  method Rollback(location: Location, id: nat, between: seq<SiteEvent>) returns (undid: bool)
    modifies location
    ensures (location.Current(), undid) == Undo(id, old(location.Current()), between) && location.gone == old(location.gone)
  {
    undid := location.rest == [] && location.first.Some? && location.first.value.id == id;
    location.Others(between);
    if undid {
      location.DeleteFirst();
    }
  }

  method CommitDataOn(location: Location, cr: Creator, table: nat, target: Plan, fragments: seq<seq<Path>>, m: Meeting)
    returns (outcome: Outcome, deleted: set<Path>, undid: bool)
    modifies location
    ensures (location.Current(), outcome, deleted, undid) == CommitData(cr, old(location.Current()), table, target, fragments, m)
    ensures location.gone == old(location.gone) + deleted
  {
    deleted, undid := {}, false;
    outcome := location.CommitAt(table, DataRequest(target, fragments, m));
    if outcome == CertainFailure && m.abortOnFailure {
      var files := location.AbortAt(PathsOf(fragments), 0, m.cleanup);
      deleted := Deleted(files);
      location.Others(m.beforeUndo);
      if table == cr.id {
        undid := Rollback(location, cr.id, m.betweenUndo);
      }
    }
  }

  method JoinOrLeaveOn(location: Location, cr: Creator, table: nat, fragments: seq<seq<Path>>, m: Meeting)
    returns (outcome: Outcome, deleted: set<Path>, undid: bool)
    modifies location
    ensures (location.Current(), outcome, deleted, undid) == JoinOrLeave(cr, old(location.Current()), table, fragments, m)
    ensures location.gone == old(location.gone) + deleted
  {
    deleted, undid := {}, false;
    var target := Retargeted(location.Current());
    var openedAt := |location.rest|;
    location.Others(m.beforeFit);
    if location.first.None? {
      return Raised, deleted, undid;
    }
    if cr.mode == AppendMode && m.fits {
      outcome, deleted, undid := CommitDataOn(location, cr, table, target, fragments, m);
    } else {
      if m.abortOnFailure || cr.mode == IgnoreMode {
        var files := location.AbortAt(PathsOf(fragments), 0, m.cleanup);
        deleted := Deleted(files);
      }
      outcome := if cr.mode == IgnoreMode then Returned(openedAt) else Raised;
    }
  }

  /** `_published` and `_joined`, then `_commit_data`. */
  method CreateOn(location: Location, cr: Creator, fragments: seq<seq<Path>>, m: Meeting)
    returns (outcome: Outcome, deleted: set<Path>, undid: bool)
    modifies location
    ensures (location.Current(), outcome, deleted, undid) == CreateCommit(cr, old(location.Current()), fragments, m)
    ensures location.gone == old(location.gone) + deleted
  {
    deleted, undid := {}, false;
    location.Others(m.before);
    location.PutFirst(First(cr.id, EMPTY));
    location.Others(m.beforeOpen);
    if location.first.None? {
      return Raised, deleted, undid;
    }
    if location.first.value.id == cr.id {
      outcome, deleted, undid := CommitDataOn(location, cr, cr.id, Retargeted(location.Current()), fragments, m);
    } else {
      outcome, deleted, undid := JoinOrLeaveOn(location, cr, location.first.value.id, fragments, m);
    }
  }

  method AbortFoundOn(location: Location, cr: Creator, ps: set<Path>, m: Meeting) returns (deleted: set<Path>, undid: bool)
    requires location.first.Some?
    modifies location
    ensures (location.Current(), deleted, undid) == AbortFound(cr, old(location.Current()), ps, m)
    ensures location.gone == old(location.gone) + deleted
  {
    deleted, undid := {}, false;
    var owned := location.first.value.id == cr.id;
    var files := location.AbortAt(ps, 0, m.cleanup);
    if files.Some? {
      deleted := files.value;
      location.Others(m.beforeUndo);
      if owned {
        undid := Rollback(location, cr.id, m.betweenUndo);
      }
    }
  }

  /** `abort`. */
  method AbortCreateOn(location: Location, cr: Creator, ps: set<Path>, m: Meeting) returns (deleted: set<Path>, undid: bool)
    modifies location
    ensures (location.Current(), deleted, undid) == CreateAbort(cr, old(location.Current()), ps, m)
    ensures location.gone == old(location.gone) + deleted
  {
    deleted, undid := {}, false;
    location.Others(m.before);
    if location.first.None? {
      deleted := ps - m.cleanup.undeletable;
      location.gone := location.gone + deleted;
      return;
    }
    location.Others(m.beforeOpen);
    if location.first.Some? {
      deleted, undid := AbortFoundOn(location, cr, ps, m);
    }
  }

  // ---------------------------------------------------- in every interleaving

  ghost predicate SoundMeeting(cr: Creator, m: Meeting, ps: set<Path>) {
    && Foreign(cr.id, m.before, ps) && Foreign(cr.id, m.beforeOpen, ps) && Foreign(cr.id, m.beforeFit, ps)
    && Foreign(cr.id, m.beforeUndo, ps) && Foreign(cr.id, m.betweenUndo, ps)
    && Foreign(cr.id, m.cleanup.others, ps) && ForeignTurns(cr.id, m.script, ps) && m.script != []
  }

  lemma CreatedGrows(cr: Creator, site: Site, ps: set<Path>)
    requires SiteInv(cr.id, site, ps)
    ensures Grows(cr.id, site, Created(site, First(cr.id, EMPTY)), ps)
  {
  }

  lemma OpenedGrows(cr: Creator, site: Site, m: Meeting, ps: set<Path>)
    requires SiteInv(cr.id, site, ps) && SoundMeeting(cr, m, ps)
    ensures Grows(cr.id, site, Opened(cr, site, m), ps)
  {
    var met := HappenAll(site, m.before);
    var published := Created(met, First(cr.id, EMPTY));
    OthersGrow(cr.id, site, m.before, ps);
    CreatedGrows(cr, met, ps);
    OthersGrow(cr.id, published, m.beforeOpen, ps);
    GrowsComposes(cr.id, site, met, published, ps);
    GrowsComposes(cr.id, site, published, Opened(cr, site, m), ps);
  }

  /** What one call keeps, whoever undoes what in the middle of it. */
  ghost predicate CallKeeps(cr: Creator, site: Site, site': Site, deleted: set<Path>, ps: set<Path>) {
    SiteInv(cr.id, site', ps) && site.rest <= site'.rest && deleted <= ps
  }

  /** What the call reports: a certain failure means no version adds the files, a version that it does. */
  ghost predicate Reports(site: Site, o: Outcome, joined: bool, ps: set<Path>) {
    match o
    case CertainFailure => Untouched(site.rest, ps)
    case Returned(v) => joined && ps != {} ==> Lies(site, v, ps)
    case _ => true
  }

  /** Whether a version returned is of these files: not where the write left another's table alone. */
  predicate Joined(cr: Creator, site: Site, m: Meeting) {
    cr.mode != IgnoreMode || Owned(Opened(cr, site, m), cr.id)
  }

  /** Deleting version 0 deletes nothing else. */
  lemma UndoKeeps(cr: Creator, site: Site, between: seq<SiteEvent>, ps: set<Path>)
    requires SiteInv(cr.id, site, ps) && Foreign(cr.id, between, ps)
    ensures var site' := Undo(cr.id, site, between).0;
            && SiteInv(cr.id, site', ps) && site.rest <= site'.rest && (Untouched(site.rest, ps) ==> Untouched(site'.rest, ps))
            && (Grounded(site, ps) ==> Grounded(site', ps))
  {
    OthersGrow(cr.id, site, between, ps);
  }

  lemma CommitDataKeeps(cr: Creator, site: Site, table: nat, target: Plan, fragments: seq<seq<Path>>, m: Meeting)
    requires var ps := PathsOf(fragments); SiteInv(cr.id, site, ps) && SoundMeeting(cr, m, ps)
    ensures var ps := PathsOf(fragments); var (site', o, deleted, _) := CommitData(cr, site, table, target, fragments, m);
            && CallKeeps(cr, site, site', deleted, ps) && Reports(site', o, true, ps)
            && (deleted != {} ==> Untouched(site'.rest, ps))
  {
    var ps := PathsOf(fragments);
    var r := DataRequest(target, fragments, m);
    SiteCommitKeeps(cr.id, site, table, r);
    var (s, o) := SiteCommit(site, table, r);
    SiteAbortKeeps(cr.id, s, ps, m.cleanup);
    var s' := SiteAbort(s, ps, 0, m.cleanup).0;
    OthersGrow(cr.id, s', m.beforeUndo, ps);
    UndoKeeps(cr, HappenAll(s', m.beforeUndo), m.betweenUndo, ps);
  }

  lemma JoinOrLeaveKeeps(cr: Creator, found: Site, table: nat, fragments: seq<seq<Path>>, m: Meeting)
    requires var ps := PathsOf(fragments); SiteInv(cr.id, found, ps) && SoundMeeting(cr, m, ps)
    ensures var ps := PathsOf(fragments); var (site', o, deleted, _) := JoinOrLeave(cr, found, table, fragments, m);
            && CallKeeps(cr, found, site', deleted, ps) && Reports(site', o, cr.mode != IgnoreMode, ps)
            && (deleted != {} ==> Untouched(site'.rest, ps))
  {
    var ps := PathsOf(fragments);
    var met := HappenAll(found, m.beforeFit);
    OthersGrow(cr.id, found, m.beforeFit, ps);
    CommitDataKeeps(cr, met, table, Retargeted(found), fragments, m);
    SiteAbortKeeps(cr.id, met, ps, m.cleanup);
  }

  /**
   * A creating write, in every interleaving: its files land in at most one version of the location, a
   * certain failure means in none, a version returned adds all of them, and what it deletes none adds.
   */
  lemma CreateKeeps(cr: Creator, site: Site, fragments: seq<seq<Path>>, m: Meeting)
    requires var ps := PathsOf(fragments); SiteInv(cr.id, site, ps) && SoundMeeting(cr, m, ps)
    ensures var ps := PathsOf(fragments); var (site', o, deleted, _) := CreateCommit(cr, site, fragments, m);
            && CallKeeps(cr, site, site', deleted, ps) && Reports(site', o, Joined(cr, site, m), ps)
            && (deleted != {} ==> Untouched(site'.rest, ps))
  {
    var found := Opened(cr, site, m);
    OpenedGrows(cr, site, m, PathsOf(fragments));
    if Owned(found, cr.id) {
      CommitDataKeeps(cr, found, cr.id, Retargeted(found), fragments, m);
    } else if found.first.Some? {
      JoinOrLeaveKeeps(cr, found, found.first.value.id, fragments, m);
    }
  }

  lemma AbortFoundKeeps(cr: Creator, found: Site, ps: set<Path>, m: Meeting)
    requires SiteInv(cr.id, found, ps) && SoundMeeting(cr, m, ps)
    ensures var (site', deleted, _) := AbortFound(cr, found, ps, m);
            && CallKeeps(cr, found, site', deleted, ps)
            && (Untouched(found.rest, ps) ==> Untouched(site'.rest, ps))
            && (deleted != {} ==> Untouched(site'.rest, ps))
            && (Grounded(found, ps) ==> Grounded(site', ps))
  {
    SiteAbortKeeps(cr.id, found, ps, m.cleanup);
    var s := SiteAbort(found, ps, 0, m.cleanup).0;
    OthersGrow(cr.id, s, m.beforeUndo, ps);
    UndoKeeps(cr, HappenAll(s, m.beforeUndo), m.betweenUndo, ps);
  }

  lemma AbortFindsGrows(cr: Creator, site: Site, ps: set<Path>, m: Meeting)
    requires SiteInv(cr.id, site, ps) && SoundMeeting(cr, m, ps)
    ensures Grows(cr.id, site, AbortFinds(site, m), ps)
  {
    var current := HappenAll(site, m.before);
    OthersGrow(cr.id, site, m.before, ps);
    OthersGrow(cr.id, current, m.beforeOpen, ps);
    GrowsComposes(cr.id, site, current, HappenAll(current, m.beforeOpen), ps);
  }

  /** Aborting one: what it deletes no version adds, but for what it deletes where there is no version 0. */
  lemma CreateAbortKeeps(cr: Creator, site: Site, ps: set<Path>, m: Meeting)
    requires SiteInv(cr.id, site, ps) && SoundMeeting(cr, m, ps)
    ensures var (site', deleted, _) := CreateAbort(cr, site, ps, m);
            && CallKeeps(cr, site, site', deleted, ps)
            && (Untouched(site.rest, ps) ==> Untouched(site'.rest, ps))
            && (deleted != {} ==> Untouched(site'.rest, ps) || HappenAll(site, m.before).first.None?)
            && (Grounded(site, ps) ==> Grounded(site', ps) && (deleted != {} ==> Untouched(site'.rest, ps)))
  {
    AbortFindsGrows(cr, site, ps, m);
    AbortFoundKeeps(cr, AbortFinds(site, m), ps, m);
  }

  // -------------------------------------------------------- and where sheltered

  predicate NoLooksInMeeting(m: Meeting) {
    && NoLooks(m.before) && NoLooks(m.beforeOpen) && NoLooks(m.beforeFit)
    && forall i :: 0 <= i < |m.script| ==> NoLooksIn(m.script[i])
  }

  /** Nobody undoes the table a create joins: it joins none, or no undo is under way. */
  predicate ShelteredCreate(cr: Creator, site: Site, m: Meeting) {
    cr.mode != AppendMode || Owned(Opened(cr, site, m), cr.id) || (!site.looked && NoLooksInMeeting(m))
  }

  lemma OpenedIsCalm(cr: Creator, site: Site, m: Meeting)
    requires !site.looked && NoLooks(m.before) && NoLooks(m.beforeOpen) && NoLooks(m.beforeFit)
    ensures !Opened(cr, site, m).looked && !HappenAll(Opened(cr, site, m), m.beforeFit).looked
  {
    NoLooksKeeps(site, m.before);
    NoLooksKeeps(Created(HappenAll(site, m.before), First(cr.id, EMPTY)), m.beforeOpen);
    NoLooksKeeps(Opened(cr, site, m), m.beforeFit);
  }

  lemma CommitDataIsGrounded(cr: Creator, site: Site, table: nat, target: Plan, fragments: seq<seq<Path>>, m: Meeting)
    requires var ps := PathsOf(fragments); SiteInv(cr.id, site, ps) && SoundMeeting(cr, m, ps) && Grounded(site, ps)
    requires Sheltered(cr.id, table, site, m.script)
    ensures Grounded(CommitData(cr, site, table, target, fragments, m).0, PathsOf(fragments))
  {
    var ps := PathsOf(fragments);
    var r := DataRequest(target, fragments, m);
    SiteCommitKeeps(cr.id, site, table, r);
    SiteCommitIsGrounded(cr.id, site, table, r);
    var (s, o) := SiteCommit(site, table, r);
    SiteAbortKeeps(cr.id, s, ps, m.cleanup);
    var s' := SiteAbort(s, ps, 0, m.cleanup).0;
    OthersGrow(cr.id, s', m.beforeUndo, ps);
    UndoKeeps(cr, HappenAll(s', m.beforeUndo), m.betweenUndo, ps);
  }

  /** A sheltered create leaves its files in a table that stays. */
  lemma CreateIsGrounded(cr: Creator, site: Site, fragments: seq<seq<Path>>, m: Meeting)
    requires var ps := PathsOf(fragments); SiteInv(cr.id, site, ps) && SoundMeeting(cr, m, ps) && Grounded(site, ps)
    requires ShelteredCreate(cr, site, m)
    ensures Grounded(CreateCommit(cr, site, fragments, m).0, PathsOf(fragments))
  {
    var ps := PathsOf(fragments);
    var found := Opened(cr, site, m);
    OpenedGrows(cr, site, m, ps);
    if Owned(found, cr.id) {
      CommitDataIsGrounded(cr, found, cr.id, Retargeted(found), fragments, m);
    } else if found.first.Some? {
      var met := HappenAll(found, m.beforeFit);
      OthersGrow(cr.id, found, m.beforeFit, ps);
      SiteAbortKeeps(cr.id, met, ps, m.cleanup);
      if cr.mode == AppendMode {
        OpenedIsCalm(cr, site, m);
        CommitDataIsGrounded(cr, met, found.first.value.id, Retargeted(found), fragments, m);
      }
    }
  }
}
