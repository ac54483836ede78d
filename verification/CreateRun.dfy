/** Runs of creating, plain and aborted writes of the same files, in every interleaving with other writers. */
module CreateRun {
  import opened Wrappers
  import opened CommitLog
  import opened CommitProtocol
  import opened CommitSafety
  import opened CommitCleanup
  import opened SiteCommits
  import opened SiteSafety
  import opened CreateProtocol

  /** The location, and the data files deleted from it so far. */
  datatype SiteWorld = SiteWorld(site: Site, gone: set<Path>)

  datatype Act =
    | OthersDo(e: SiteEvent)
    | Creating(fragments: seq<seq<Path>>, m: Meeting)
    | AbortCreating(m: Meeting)
    | Plain(table: nat, r: SiteRequest, abortOnFailure: bool, c: SiteCleanup)   // a write planned into `table`
    | AbortPlain(plan: Plan, writtenAt: Option<nat>, c: SiteCleanup)

  /** What a commit reported, and the location it left. */
  datatype Report = Report(outcome: Outcome, site: Site, joined: bool)

  /** `commit` of a plain write: the attempts, and the cleanup after a certain failure. */
  function PlainCommit(site: Site, table: nat, r: SiteRequest, abortOnFailure: bool, c: SiteCleanup): (Site, Outcome, set<Path>) {
    var (s, o) := SiteCommit(site, table, r);
    if o == CertainFailure && abortOnFailure then
      var (s', files) := SiteAbort(s, PathsOf(r.fragments), After(r.plan, r.writtenAt), c);
      (s', o, Deleted(files))
    else (s, o, {})
  }

  function Step(cr: Creator, w: SiteWorld, a: Act, ps: set<Path>): (SiteWorld, Option<Report>) {
    match a
    case OthersDo(e) => (SiteWorld(Happen(w.site, e), w.gone), None)
    case Creating(fragments, m) =>
      var (site, o, deleted, _) := CreateCommit(cr, w.site, fragments, m);
      (SiteWorld(site, w.gone + deleted), Some(Report(o, site, Joined(cr, w.site, m))))
    case AbortCreating(m) =>
      var (site, deleted, _) := CreateAbort(cr, w.site, ps, m);
      (SiteWorld(site, w.gone + deleted), None)
    case Plain(table, r, abort, c) =>
      var (site, o, deleted) := PlainCommit(w.site, table, r, abort, c);
      (SiteWorld(site, w.gone + deleted), Some(Report(o, site, true)))
    case AbortPlain(plan, at, c) =>
      var (site, files) := SiteAbort(w.site, ps, After(plan, at), c);
      (SiteWorld(site, w.gone + Deleted(files)), None)
  }

  function Steps(cr: Creator, w: SiteWorld, acts: seq<Act>, ps: set<Path>): (SiteWorld, seq<Report>)
    decreases |acts|
  {
    if acts == [] then (w, [])
    else
      var (w1, report) := Step(cr, w, acts[0], ps);
      var (w2, reports) := Steps(cr, w1, acts[1..], ps);
      (w2, (if report.Some? then [report.value] else []) + reports)
  }

  /**
   * Other writers never add these files, and files once deleted are not committed again. A plain
   * write's check starts at version 0, and its table is not catalog-managed.
   */
  ghost predicate SoundAct(cr: Creator, a: Act, w: SiteWorld, ps: set<Path>) {
    match a
    case OthersDo(e) => ForeignEvent(cr.id, e, ps)
    case Creating(fragments, m) => PathsOf(fragments) == ps && SoundMeeting(cr, m, ps) && w.gone == {}
    case AbortCreating(m) => SoundMeeting(cr, m, ps)
    case Plain(_, r, _, c) =>
      && !r.plan.managed && PathsOf(r.fragments) == ps && ForeignTurns(cr.id, r.script, ps) && r.script != []
      && After(r.plan, r.writtenAt) == 0 && Foreign(cr.id, c.others, ps) && w.gone == {}
    case AbortPlain(plan, at, c) => After(plan, at) == 0 && Foreign(cr.id, c.others, ps)
  }

  ghost predicate SoundActs(cr: Creator, w: SiteWorld, acts: seq<Act>, ps: set<Path>)
    decreases |acts|
  {
    acts != [] ==> SoundAct(cr, acts[0], w, ps) && SoundActs(cr, Step(cr, w, acts[0], ps).0, acts[1..], ps)
  }

  // ---------------------------------------------------- in every interleaving

  lemma PlainKeeps(cr: Creator, w: SiteWorld, table: nat, r: SiteRequest, abort: bool, c: SiteCleanup, ps: set<Path>)
    requires SiteInv(cr.id, w.site, ps) && SoundAct(cr, Plain(table, r, abort, c), w, ps)
    ensures var (site', o, deleted) := PlainCommit(w.site, table, r, abort, c);
            && CallKeeps(cr, w.site, site', deleted, ps) && Reports(site', o, true, ps)
            && (deleted != {} ==> Untouched(site'.rest, ps))
  {
    SiteCommitKeeps(cr.id, w.site, table, r);
    SiteAbortKeeps(cr.id, SiteCommit(w.site, table, r).0, ps, c);
  }

  /** Each step, whoever undoes what in the middle of it. */
  lemma StepLands(cr: Creator, w: SiteWorld, a: Act, ps: set<Path>)
    requires SiteInv(cr.id, w.site, ps) && SoundAct(cr, a, w, ps)
    ensures var (w', report) := Step(cr, w, a, ps);
            && SiteInv(cr.id, w'.site, ps) && w.site.rest <= w'.site.rest
            && (report.Some? ==> report.value.site == w'.site && Reports(w'.site, report.value.outcome, report.value.joined, ps))
  {
    match a
    case OthersDo(e) => EventGrows(cr.id, w.site, e, ps);
    case Creating(fragments, m) => CreateKeeps(cr, w.site, fragments, m);
    case AbortCreating(m) => CreateAbortKeeps(cr, w.site, ps, m);
    case Plain(table, r, abort, c) => PlainKeeps(cr, w, table, r, abort, c, ps);
    case AbortPlain(_, _, c) => SiteAbortKeeps(cr.id, w.site, ps, c);
  }

  /**
   * Every run, whoever undoes what in the middle of which call: the files land in at most one version
   * of the location; a certain failure means that none added them when it was reported; and the
   * version returned adds all of them to the end, with a version 0 under it or without.
   */
  lemma {:induction false} CreatingRunLandsOnce(cr: Creator, w: SiteWorld, acts: seq<Act>, ps: set<Path>)
    requires SiteInv(cr.id, w.site, ps) && SoundActs(cr, w, acts, ps)
    ensures var (w', reports) := Steps(cr, w, acts, ps);
            && SiteInv(cr.id, w'.site, ps) && w.site.rest <= w'.site.rest && Once(w'.site.rest, ps)
            && forall i :: 0 <= i < |reports| ==>
                 && (reports[i].outcome == CertainFailure ==> Untouched(reports[i].site.rest, ps))
                 && (reports[i].outcome.Returned? && reports[i].joined && ps != {} ==> Lies(w'.site, reports[i].outcome.version, ps))
    decreases |acts|
  {
    if acts != [] {
      StepLands(cr, w, acts[0], ps);
      CreatingRunLandsOnce(cr, Step(cr, w, acts[0], ps).0, acts[1..], ps);
    }
  }

  // ------------------------------------------------------------ and where sheltered

  /** Nobody undoes a table that this plan's call commits into without having created it. */
  predicate ShelteredAct(cr: Creator, a: Act, w: SiteWorld) {
    match a
    case Creating(_, m) => ShelteredCreate(cr, w.site, m)
    case Plain(table, r, _, _) => Sheltered(cr.id, table, w.site, r.script)
    case _ => true
  }

  ghost predicate ShelteredActs(cr: Creator, w: SiteWorld, acts: seq<Act>, ps: set<Path>)
    decreases |acts|
  {
    acts != [] ==> ShelteredAct(cr, acts[0], w) && ShelteredActs(cr, Step(cr, w, acts[0], ps).0, acts[1..], ps)
  }

  /** The files are in at most one version, which is a table's, and nothing deleted is in any. */
  ghost predicate SiteIntact(cr: Creator, w: SiteWorld, ps: set<Path>) {
    && SiteInv(cr.id, w.site, ps) && Grounded(w.site, ps)
    && w.gone <= ps && (w.gone != {} ==> Untouched(w.site.rest, ps))
  }

  lemma PlainIsGrounded(cr: Creator, w: SiteWorld, table: nat, r: SiteRequest, abort: bool, c: SiteCleanup, ps: set<Path>)
    requires SiteIntact(cr, w, ps) && SoundAct(cr, Plain(table, r, abort, c), w, ps) && Sheltered(cr.id, table, w.site, r.script)
    ensures Grounded(PlainCommit(w.site, table, r, abort, c).0, ps)
  {
    SiteCommitKeeps(cr.id, w.site, table, r);
    SiteCommitIsGrounded(cr.id, w.site, table, r);
    SiteAbortKeeps(cr.id, SiteCommit(w.site, table, r).0, ps, c);
  }

  lemma StepKeeps(cr: Creator, w: SiteWorld, a: Act, ps: set<Path>)
    requires SiteIntact(cr, w, ps) && SoundAct(cr, a, w, ps) && ShelteredAct(cr, a, w)
    ensures SiteIntact(cr, Step(cr, w, a, ps).0, ps)
  {
    match a
    case OthersDo(e) => EventGrows(cr.id, w.site, e, ps);
    case Creating(fragments, m) =>
      CreateKeeps(cr, w.site, fragments, m);
      CreateIsGrounded(cr, w.site, fragments, m);
    case AbortCreating(m) => CreateAbortKeeps(cr, w.site, ps, m);
    case Plain(table, r, abort, c) =>
      PlainKeeps(cr, w, table, r, abort, c, ps);
      PlainIsGrounded(cr, w, table, r, abort, c, ps);
    case AbortPlain(_, _, c) => SiteAbortKeeps(cr.id, w.site, ps, c);
  }

  /** Nothing deleted is in a version at the location, and every version returned is a table's. */
  ghost predicate Kept(w: SiteWorld, reports: seq<Report>, ps: set<Path>) {
    && Unreferenced(Versions(w.site), w.gone)
    && forall i :: 0 <= i < |reports| && reports[i].outcome.Returned? && reports[i].joined && ps != {} ==>
         Lies(w.site, reports[i].outcome.version, ps) && w.site.first.Some?
  }

  lemma DeletedIsUnreferenced(cr: Creator, w: SiteWorld, ps: set<Path>)
    requires SiteIntact(cr, w, ps)
    ensures Unreferenced(Versions(w.site), w.gone)
  {
    if w.gone != {} {
      if w.site.first.Some? {
        TableIsWritten(w.site, ps, cr.id);
      }
      assert TableLog(w.site) + [] == TableLog(w.site) && [] + w.site.rest == w.site.rest;
      UntouchedIsUnreferenced(Versions(w.site), ps, w.gone);
    }
  }

  lemma LyingIsTouching(site: Site, v: nat, ps: set<Path>)
    requires Lies(site, v, ps) && ps != {}
    ensures !Untouched(site.rest, ps)
  {
    var p :| p in ps;
    assert p in site.rest[v - 1].adds * ps;
    assert Touches(site.rest, v - 1, ps);
  }

  /**
   * Every run in which nobody undoes a table that one of this plan's calls is joining: what any
   * version references is still there, after failed commits, undone creates and aborts; and every
   * version returned is one of the table there, to the end.
   */
  lemma {:induction false} CreatingRunIsSafe(cr: Creator, w: SiteWorld, acts: seq<Act>, ps: set<Path>)
    requires SiteIntact(cr, w, ps) && SoundActs(cr, w, acts, ps) && ShelteredActs(cr, w, acts, ps)
    ensures var (w', reports) := Steps(cr, w, acts, ps);
            SiteIntact(cr, w', ps) && Kept(w', reports, ps)
    decreases |acts|
  {
    CreatingRunLandsOnce(cr, w, acts, ps);
    if acts == [] {
      DeletedIsUnreferenced(cr, w, ps);
    } else {
      StepKeeps(cr, w, acts[0], ps);
      CreatingRunIsSafe(cr, Step(cr, w, acts[0], ps).0, acts[1..], ps);
      var (w', reports) := Steps(cr, w, acts, ps);
      forall i | 0 <= i < |reports| && reports[i].outcome.Returned? && reports[i].joined && ps != {} ensures w'.site.first.Some? {
        LyingIsTouching(w'.site, reports[i].outcome.version, ps);
      }
    }
  }

  /** Where planning leaves off, there is no table and nothing is deleted. */
  lemma RunsStartIntact(cr: Creator, ps: set<Path>)
    ensures SiteIntact(cr, SiteWorld(NOTHING, {}), ps)
  {
  }

  // ------------------------------------------------------- when every run is safe

  /** The run's plain writes are into `tables`. */
  predicate PlainInto(acts: seq<Act>, tables: set<nat>) {
    forall i :: 0 <= i < |acts| && acts[i].Plain? ==> acts[i].table in tables
  }

  ghost predicate RunOf(cr: Creator, tables: set<nat>, acts: seq<Act>, ps: set<Path>) {
    SoundActs(cr, SiteWorld(NOTHING, {}), acts, ps) && PlainInto(acts, tables)
  }

  /** In every interleaving, nothing deleted is in a version at the location. */
  ghost predicate DeletesNoCommitted(cr: Creator, tables: set<nat>) {
    forall acts, ps :: RunOf(cr, tables, acts, ps) ==>
      var w := Steps(cr, SiteWorld(NOTHING, {}), acts, ps).0; Unreferenced(Versions(w.site), w.gone)
  }

  /** In every interleaving, what is returned stays in a table. */
  ghost predicate KeepsReturned(cr: Creator, tables: set<nat>) {
    forall acts, ps :: RunOf(cr, tables, acts, ps) ==>
      var (w, reports) := Steps(cr, SiteWorld(NOTHING, {}), acts, ps);
      forall i :: 0 <= i < |reports| && reports[i].outcome.Returned? && reports[i].joined && ps != {} ==>
        Lies(w.site, reports[i].outcome.version, ps) && w.site.first.Some?
  }

  /** The plan can add its files to no table but its own. */
  predicate JoinsNone(cr: Creator, tables: set<nat>) {
    cr.mode != AppendMode && tables <= {cr.id}
  }

  lemma {:induction false} JoiningNoneIsSheltered(cr: Creator, w: SiteWorld, acts: seq<Act>, ps: set<Path>, tables: set<nat>)
    requires JoinsNone(cr, tables) && PlainInto(acts, tables)
    ensures ShelteredActs(cr, w, acts, ps)
    decreases |acts|
  {
    if acts != [] {
      assert PlainInto(acts[1..], tables);
      JoiningNoneIsSheltered(cr, Step(cr, w, acts[0], ps).0, acts[1..], ps, tables);
    }
  }

  lemma JoiningNoneIsSafe(cr: Creator, tables: set<nat>)
    requires JoinsNone(cr, tables)
    ensures DeletesNoCommitted(cr, tables) && KeepsReturned(cr, tables)
  {
    forall acts, ps | RunOf(cr, tables, acts, ps)
      ensures var (w, reports) := Steps(cr, SiteWorld(NOTHING, {}), acts, ps); Kept(w, reports, ps)
    {
      RunsStartIntact(cr, ps);
      JoiningNoneIsSheltered(cr, SiteWorld(NOTHING, {}), acts, ps, tables);
      CreatingRunIsSafe(cr, SiteWorld(NOTHING, {}), acts, ps);
    }
  }

  const FILES: seq<seq<Path>> := [["f"]]

  /** A table that another writer has just created, and what is left where this write joined it too late. */
  function Theirs(id: nat): Site {
    Site(Some(First(id, EMPTY)), [], false, false)
  }

  const STRANDED := Site(None, [OURS], true, false)

  /** An attempt whose put comes after its snapshot's table was undone. */
  function TooLate(id: nat, reply: Reply): Turn {
    Turn([], false, [], false, [], [Looks(id), Deletes], reply)
  }

  function Quiet(script: seq<Turn>): Meeting {
    Meeting([], [], [], true, false, script, Cleanup([], false, {}), [], [])
  }

  /** A write of "f" into that table: the plan joins it, or, where it joins none, a plain write of the same file. */
  function JoinsTooLate(cr: Creator, id: nat, reply: Reply): Act {
    var script := [TooLate(id, reply)];
    if cr.mode == AppendMode then Creating(FILES, Quiet(script))
    else Plain(id, DataRequest(Retargeted(Theirs(id)), FILES, Quiet(script)), false, Cleanup([], false, {}))
  }

  function Answer(reply: Reply): Outcome {
    if reply.Answered? then Returned(1) else UnknownOutcome
  }

  /** The put lands: nothing in it looks at version 0. */
  lemma PutAfterDelete(id: nat, reply: Reply)
    requires reply == Answered || reply == Silent(true)
    ensures SiteCommit(Theirs(id), id, DataRequest(Retargeted(Theirs(id)), FILES, Quiet([TooLate(id, reply)]))) == (STRANDED, Answer(reply))
  {
    assert Flat(FILES) == ["f"] && PathsOf(FILES) == {"f"};
    var log := TableLog(Theirs(id));
    assert log == [EMPTY];
    NothingFound(log, 1, {"f"});
    var t := TooLate(id, reply);
    assert HappenAll(Theirs(id), []) == Theirs(id);
    assert HappenAll(Theirs(id), t.beforePut) == Site(None, [], true, false) by {
      assert t.beforePut[1..] == [Deletes] && [Deletes][1..] == [];
    }
    var plan := Retargeted(Theirs(id));
    assert Staged(plan, log, FILES) == Some(OURS);
    assert [] + [OURS] == [OURS];
    assert SiteFiles(plan, id, Theirs(id), FILES, None, t) == SitePut(Site(None, [], true, false), 1, OURS, reply);
  }

  lemma JoinedTooLate(cr: Creator, id: nat, reply: Reply)
    requires id != cr.id && (reply == Answered || reply == Silent(true))
    ensures SoundAct(cr, JoinsTooLate(cr, id, reply), SiteWorld(Theirs(id), {}), {"f"})
    ensures Step(cr, SiteWorld(Theirs(id), {}), JoinsTooLate(cr, id, reply), {"f"}) ==
            (SiteWorld(STRANDED, {}), Some(Report(Answer(reply), STRANDED, true)))
  {
    PutAfterDelete(id, reply);
    assert PathsOf(FILES) == {"f"};
    assert ForeignTurn(cr.id, TooLate(id, reply), {"f"});
    var none: set<Path> := {};
    assert none + {} == none;
    if cr.mode == AppendMode {
      var m := Quiet([TooLate(id, reply)]);
      assert Opened(cr, Theirs(id), m) == Theirs(id);
      assert CreateCommit(cr, Theirs(id), FILES, m) == (STRANDED, Answer(reply), {}, false);
    }
  }

  /** The driver had no answer, and aborts: there is no version 0 for the abort to be checked against. */
  const ABORTS := AbortCreating(Quiet([NOBODY]))

  const NOBODY := Turn([], false, [], false, [], [], Answered)

  function Joining(cr: Creator, id: nat, reply: Reply): seq<Act> {
    [OthersDo(Creates(First(id, EMPTY))), JoinsTooLate(cr, id, reply)]
  }

  lemma TooLateRuns(cr: Creator, id: nat, reply: Reply, tables: set<nat>)
    requires id != cr.id && (reply == Answered || reply == Silent(true)) && (cr.mode == AppendMode || id in tables)
    ensures var acts := Joining(cr, id, reply);
            && RunOf(cr, tables, acts, {"f"})
            && Steps(cr, SiteWorld(NOTHING, {}), acts, {"f"}) == (SiteWorld(STRANDED, {}), [Report(Answer(reply), STRANDED, true)])
  {
    var acts := Joining(cr, id, reply);
    var w := SiteWorld(Theirs(id), {});
    assert Step(cr, SiteWorld(NOTHING, {}), acts[0], {"f"}) == (w, None);
    JoinedTooLate(cr, id, reply);
    assert acts[1..] == [JoinsTooLate(cr, id, reply)] && acts[1..][1..] == [];
    assert SoundActs(cr, w, acts[1..], {"f"});
    var report := Report(Answer(reply), STRANDED, true);
    assert Steps(cr, SiteWorld(STRANDED, {}), [], {"f"}) == (SiteWorld(STRANDED, {}), []);
    assert [report] + [] == [report] && [] + [report] == [report];
    assert Steps(cr, w, acts[1..], {"f"}) == (SiteWorld(STRANDED, {}), [report]);
  }

  lemma AbortsUnchecked(cr: Creator)
    ensures SoundAct(cr, ABORTS, SiteWorld(STRANDED, {}), {"f"})
    ensures Step(cr, SiteWorld(STRANDED, {}), ABORTS, {"f"}) == (SiteWorld(STRANDED, {"f"}), None)
  {
    var files := {"f"};
    assert files - {} == files && {} + files == files;
  }

  lemma {:induction false} StepsCompose(cr: Creator, w: SiteWorld, acts: seq<Act>, last: Act, ps: set<Path>)
    requires SoundActs(cr, w, acts, ps) && SoundAct(cr, last, Steps(cr, w, acts, ps).0, ps)
    ensures SoundActs(cr, w, acts + [last], ps)
    ensures Steps(cr, w, acts + [last], ps).0 == Step(cr, Steps(cr, w, acts, ps).0, last, ps).0
    decreases |acts|
  {
    if acts == [] {
      assert acts + [last] == [last] && [last][1..] == [];
    } else {
      assert (acts + [last])[1..] == acts[1..] + [last];
      StepsCompose(cr, Step(cr, w, acts[0], ps).0, acts[1..], last, ps);
    }
  }

  /** A version that was returned lies without a version 0. */
  lemma ReturnedIsStranded(cr: Creator, id: nat, tables: set<nat>)
    requires id != cr.id && (cr.mode == AppendMode || id in tables)
    ensures !KeepsReturned(cr, tables)
  {
    TooLateRuns(cr, id, Answered, tables);
    var acts := Joining(cr, id, Answered);
    var (w, reports) := Steps(cr, SiteWorld(NOTHING, {}), acts, {"f"});
    assert reports[0].outcome.Returned? && reports[0].joined && w.site.first.None?;
  }

  lemma AbortedRuns(cr: Creator, id: nat, tables: set<nat>)
    requires id != cr.id && (cr.mode == AppendMode || id in tables)
    ensures var acts := Joining(cr, id, Silent(true)) + [ABORTS];
            RunOf(cr, tables, acts, {"f"}) && Steps(cr, SiteWorld(NOTHING, {}), acts, {"f"}).0 == SiteWorld(STRANDED, {"f"})
  {
    TooLateRuns(cr, id, Silent(true), tables);
    AbortsUnchecked(cr);
    StepsCompose(cr, SiteWorld(NOTHING, {}), Joining(cr, id, Silent(true)), ABORTS, {"f"});
  }

  lemma CommittedIsDeleted(cr: Creator, id: nat, tables: set<nat>)
    requires id != cr.id && (cr.mode == AppendMode || id in tables)
    ensures !DeletesNoCommitted(cr, tables)
  {
    AbortedRuns(cr, id, tables);
    var acts := Joining(cr, id, Silent(true)) + [ABORTS];
    var w := SiteWorld(STRANDED, {"f"});
    assert Versions(STRANDED)[0] == OURS && "f" in OURS.adds && "f" in w.gone;
    assert !Unreferenced(Versions(w.site), w.gone);
    assert w == Steps(cr, SiteWorld(NOTHING, {}), acts, {"f"}).0;
  }

  /** A table whose version 1 references a deleted file: the next create takes the stranded version in. */
  lemma NextCreateTakesItIn(cr: Creator, id: nat, tables: set<nat>)
    requires id != cr.id && (cr.mode == AppendMode || id in tables)
    ensures var acts := Joining(cr, id, Silent(true)) + [ABORTS] + [OthersDo(Creates(First(id, EMPTY)))];
            var w := Steps(cr, SiteWorld(NOTHING, {}), acts, {"f"}).0;
            SoundActs(cr, SiteWorld(NOTHING, {}), acts, {"f"}) && w.gone == {"f"} && TableLog(w.site) == [EMPTY, OURS]
  {
    AbortedRuns(cr, id, tables);
    StepsCompose(cr, SiteWorld(NOTHING, {}), Joining(cr, id, Silent(true)) + [ABORTS], OthersDo(Creates(First(id, EMPTY))), {"f"});
    assert [EMPTY] + [OURS] == [EMPTY, OURS];
  }

  /**
   * Every run, in every interleaving, deletes nothing that a version references, if and only if the
   * plan does not join another writer's table (its mode is not append) and its files are committed
   * by plain writes into no table but its own; and every version returned stays a table's under the
   * same condition.
   */
  lemma RunsAreSafeExactlyWhen(cr: Creator, tables: set<nat>)
    ensures DeletesNoCommitted(cr, tables) <==> cr.mode != AppendMode && tables <= {cr.id}
    ensures KeepsReturned(cr, tables) <==> cr.mode != AppendMode && tables <= {cr.id}
  {
    if JoinsNone(cr, tables) {
      JoiningNoneIsSafe(cr, tables);
    } else {
      var id: nat := cr.id + 1;
      if cr.mode != AppendMode {
        assert forall i :: i in tables ==> i == cr.id || i in tables - {cr.id};
        id :| id in tables - {cr.id};
      }
      CommittedIsDeleted(cr, id, tables);
      ReturnedIsStranded(cr, id, tables);
    }
  }
}
