/**
 * Commits and aborts at a location whose version 0 may go. The undo of a create looks for a version 1
 * and then deletes version 0; other writers commit, create and undo at any point of any call.
 */
module SiteCommits {
  import opened Wrappers
  import opened CommitLog
  import opened CommitProtocol
  import opened CommitSafety
  import opened CommitCleanup

  /** A version 0: the id its metaData carries, and what it adds. */
  datatype First = First(id: nat, commit: Commit)

  /**
   * A table location: version 0, if there is one, and versions 1 and on (`rest[v - 1]` is version v),
   * which nothing removes. `undone` says that a version 0 was deleted there, so that writers may hold
   * snapshots of a table that is gone; `looked`, that the undo of the create of the table there has
   * found version 0 alone, and is about to delete it.
   */
  datatype Site = Site(first: Option<First>, rest: Log, undone: bool, looked: bool)

  /** Where planning a create leaves off. */
  const NOTHING := Site(None, [], false, false)

  /** The table's log: none without a version 0. */
  function TableLog(site: Site): Log {
    if site.first.Some? then [site.first.value.commit] + site.rest else []
  }

  /** What lies without a version 0. */
  function Orphans(site: Site): Log {
    if site.first.Some? then [] else site.rest
  }

  /** Every version at the location. */
  function Versions(site: Site): Log {
    TableLog(site) + Orphans(site)
  }

  predicate Owned(site: Site, id: nat) {
    site.first.Some? && site.first.value.id == id
  }

  /** Put version 0, unless there is one: what lies there becomes the new table's versions 1 and on. */
  function Created(site: Site, first: First): Site {
    if site.first.Some? then site else Site(Some(first), site.rest, site.undone, false)
  }

  function Removed(site: Site): Site {
    if site.first.Some? then Site(None, site.rest, true, false) else site
  }

  /** What other writers do at a location, one step at a time. */
  datatype SiteEvent =
    | Commits(cs: Log)         // into the table there is
    | Lates(cs: Log)           // on snapshots of a table that is gone: they find the next version free
    | Creates(first: First)
    | Looks(id: nat)           // the undo of a create finds no version 1, and its own version 0
    | Deletes                  // and deletes version 0

  function Happen(site: Site, e: SiteEvent): Site {
    match e
    case Commits(cs) => if site.first.Some? then site.(rest := site.rest + cs) else site
    case Lates(cs) => if site.first.Some? || site.undone then site.(rest := site.rest + cs) else site
    case Creates(first) => Created(site, first)
    case Looks(id) => if site.rest == [] && Owned(site, id) then site.(looked := true) else site
    case Deletes => if site.looked then Removed(site) else site
  }

  function HappenAll(site: Site, es: seq<SiteEvent>): Site
    decreases |es|
  {
    if es == [] then site else HappenAll(Happen(site, es[0]), es[1..])
  }

  // ---------------------------------------------------------------- one commit

  /** One attempt of a commit, and what other writers do before each thing it does. */
  datatype Turn = Turn(
    beforeCheck: seq<SiteEvent>, checkBroken: bool, beforeGuard: seq<SiteEvent>, guardBlind: bool,
    beforeSnapshot: seq<SiteEvent>, beforePut: seq<SiteEvent>, reply: Reply)

  type SiteRequest = Request<Turn>
  type SiteCleanup = Cleanup<seq<SiteEvent>>

  /** The put of a commit as `version`, and the answer to it. */
  function SitePut(at: Site, version: nat, c: Commit, reply: Reply): (Site, Result) {
    var free := version == |at.rest| + 1;
    var put := if free then at.(rest := at.rest + [c]) else at;
    match reply
    case Answered => (put, if free then Committed(version) else Conflict)
    case Silent(landed) => (if landed then put else at, Transient)
    case Broken(landed) => (if landed then put else at, Failure)
    case BackfillDemanded => (at, Failure)
    case LayoutChanged => (at, MetadataChanged)
  }

  /**
   * `commit_files` into `table`: the snapshot must be of that table, but the put asks only whether
   * the next version is free, and not whether version 0 is still there.
   */
  function SiteFiles(plan: Plan, table: nat, site: Site, fragments: seq<seq<Path>>, pinned: Option<nat>, t: Turn): (Site, Result) {
    var s := HappenAll(site, t.beforeSnapshot);
    var log := TableLog(s);
    if !Owned(s, table) || (pinned.Some? && pinned.value >= |log|) then (s, Failure)
    else if t.reply.LayoutChanged? then (s, MetadataChanged)
    else
      var view := Snapshot(plan, log, pinned, 0);
      match Staged(plan, view, fragments)
      case None => (s, Failure)
      case Some(c) => SitePut(HappenAll(s, t.beforePut), |view|, c, t.reply)
  }

  /** One turn of the retry loop: without a version 0 the landed check cannot be made. */
  function SiteTurn(plan: Plan, table: nat, site: Site, fragments: seq<seq<Path>>, after: nat, guarded: bool, only: bool, t: Turn): (Site, Verdict) {
    var ps := PathsOf(fragments);
    var s := HappenAll(site, t.beforeCheck);
    if ps != {} && (t.checkBroken || s.first.None?) then (s, Done(Raised))
    else
      match Landed(TableLog(s), after, ps)
      case LandedAt(v) => (s, Done(Returned(v)))
      case Partly => (s, Done(Raised))
      case NotLanded =>
        var g := HappenAll(s, t.beforeGuard);
        if guarded && !t.guardBlind && g.first.Some? && Moved(plan, TableLog(g)) then (g, Done(CertainFailure))
        else
          var (s', r) := SiteFiles(plan, table, g, fragments, Pinned(plan, guarded), t);
          (s', Decided(r, only))
  }

  function SiteTurns(plan: Plan, table: nat, site: Site, fragments: seq<seq<Path>>, after: nat, guarded: bool, only: bool, script: seq<Turn>, transient: bool): (Site, Outcome)
    decreases |script|
  {
    if script == [] then (site, if transient then UnknownOutcome else CertainFailure)
    else
      var (s, verdict) := SiteTurn(plan, table, site, fragments, after, guarded, only, script[0]);
      match verdict
      case Done(outcome) => (s, outcome)
      case Again(t) => SiteTurns(plan, table, s, fragments, after, guarded, only, script[1..], t)
  }

  /** `_commit` of a plan of `table`, which is not catalog-managed. */
  function SiteCommit(site: Site, table: nat, r: SiteRequest): (Site, Outcome) {
    if EmptiesTable(r) then (site, Raised)
    else if NothingToCommit(r) then (site, if site.first.Some? then Returned(|site.rest|) else Raised)
    else
      SiteTurns(r.plan, table, site, r.fragments, After(r.plan, r.writtenAt), Guarded(r), |r.script| == 1, r.script, false)
  }

  /** `abort`: the files it deleted, or None where it refuses, as it does without a version 0. */
  function SiteAbort(site: Site, ps: set<Path>, after: nat, c: SiteCleanup): (Site, Option<set<Path>>) {
    if ps == {} then (site, Some({}))
    else
      var s := HappenAll(site, c.others);
      if c.broken || s.first.None? || Landed(TableLog(s), after, ps) != NotLanded then (s, None)
      else (s, Some(ps - c.undeletable))
  }

  function Deleted(files: Option<set<Path>>): set<Path> {
    if files.Some? then files.value else {}
  }

  // ------------------------------------------------------ the imperative form

  /** The location in storage, and the data files deleted from it. */
  class Location {
    var first: Option<First>
    var rest: Log
    var undone: bool
    var looked: bool
    var gone: set<Path>

    constructor ()
      ensures Current() == NOTHING && gone == {}
    {
      first, rest, undone, looked, gone := None, [], false, false, {};
    }

    function Current(): Site
      reads this
    {
      Site(first, rest, undone, looked)
    }

    method PutFirst(v0: First)
      modifies this
      ensures Current() == Created(old(Current()), v0) && gone == old(gone)
    {
      if first.None? {
        first, looked := Some(v0), false;
      }
    }

    method DeleteFirst()
      modifies this
      ensures Current() == Removed(old(Current())) && gone == old(gone)
    {
      if first.Some? {
        first, undone, looked := None, true, false;
      }
    }

    /** Put-if-absent of a version from 1 on. */
    method PutNext(version: nat, c: Commit) returns (ok: bool)
      modifies this
      ensures ok == (version == |old(rest)| + 1) && gone == old(gone)
      ensures Current() == old(Current()).(rest := if ok then old(rest) + [c] else old(rest))
    {
      ok := version == |rest| + 1;
      if ok {
        rest := rest + [c];
      }
    }

    method PutOn(version: nat, c: Commit, reply: Reply) returns (r: Result)
      modifies this
      ensures (Current(), r) == SitePut(old(Current()), version, c, reply) && gone == old(gone)
    {
      match reply {
        case Answered =>
          var ok := PutNext(version, c);
          r := if ok then Committed(version) else Conflict;
        case Silent(landed) =>
          if landed {
            var _ := PutNext(version, c);
          }
          r := Transient;
        case Broken(landed) =>
          if landed {
            var _ := PutNext(version, c);
          }
          r := Failure;
        case BackfillDemanded => r := Failure;
        case LayoutChanged => r := MetadataChanged;
      }
    }

    method OthersAct(e: SiteEvent)
      modifies this
      ensures Current() == Happen(old(Current()), e) && gone == old(gone)
    {
      match e {
        case Commits(cs) =>
          if first.Some? {
            rest := rest + cs;
          }
        case Lates(cs) =>
          if first.Some? || undone {
            rest := rest + cs;
          }
        case Creates(v0) => PutFirst(v0);
        case Looks(id) =>
          if rest == [] && first.Some? && first.value.id == id {
            looked := true;
          }
        case Deletes =>
          if looked {
            DeleteFirst();
          }
      }
    }

    method Others(es: seq<SiteEvent>)
      modifies this
      ensures Current() == HappenAll(old(Current()), es) && gone == old(gone)
    {
      var i := 0;
      while i < |es|
        invariant 0 <= i <= |es| && gone == old(gone)
        invariant HappenAll(Current(), es[i..]) == HappenAll(old(Current()), es)
      {
        assert es[i..][0] == es[i] && es[i..][1..] == es[i + 1..];
        OthersAct(es[i]);
        i := i + 1;
      }
    }

    method FilesOn(plan: Plan, table: nat, fragments: seq<seq<Path>>, pinned: Option<nat>, t: Turn) returns (r: Result)
      modifies this
      ensures (Current(), r) == SiteFiles(plan, table, old(Current()), fragments, pinned, t) && gone == old(gone)
    {
      Others(t.beforeSnapshot);
      var log := TableLog(Current());
      if first.None? || first.value.id != table || (pinned.Some? && pinned.value >= |log|) {
        return Failure;
      }
      if t.reply.LayoutChanged? {
        return MetadataChanged;
      }
      var view := Snapshot(plan, log, pinned, 0);
      var distinct, ps := CheckFragments(fragments);
      var removes := if plan.overwrite then Live(view) else {};
      if !distinct || removes * ps != {} {
        return Failure;
      }
      Others(t.beforePut);
      r := PutOn(|view|, Commit(ps, removes), t.reply);
    }

    method TurnOn(plan: Plan, table: nat, fragments: seq<seq<Path>>, after: nat, guarded: bool, only: bool, t: Turn) returns (verdict: Verdict)
      modifies this
      ensures (Current(), verdict) == SiteTurn(plan, table, old(Current()), fragments, after, guarded, only, t) && gone == old(gone)
    {
      var ps := PathsOf(fragments);
      Others(t.beforeCheck);
      if ps != {} && (t.checkBroken || first.None?) {
        return Done(Raised);
      }
      var landing := LandedOn(TableLog(Current()), after, ps);
      match landing {
        case LandedAt(v) => return Done(Returned(v));
        case Partly => return Done(Raised);
        case NotLanded =>
      }
      Others(t.beforeGuard);
      if guarded && !t.guardBlind && first.Some? && Moved(plan, TableLog(Current())) {
        return Done(CertainFailure);
      }
      var r := FilesOn(plan, table, fragments, Pinned(plan, guarded), t);
      verdict := Decided(r, only);
    }

    method LoopOn(plan: Plan, table: nat, fragments: seq<seq<Path>>, after: nat, guarded: bool, script: seq<Turn>) returns (outcome: Outcome)
      modifies this
      ensures (Current(), outcome) == SiteTurns(plan, table, old(Current()), fragments, after, guarded, |script| == 1, script, false)
      ensures gone == old(gone)
    {
      var only := |script| == 1;
      var transient := false;
      var i := 0;
      while i < |script|
        invariant 0 <= i <= |script| && gone == old(gone)
        invariant SiteTurns(plan, table, Current(), fragments, after, guarded, only, script[i..], transient) ==
                  SiteTurns(plan, table, old(Current()), fragments, after, guarded, only, script, false)
      {
        assert script[i..][0] == script[i] && script[i..][1..] == script[i + 1..];
        var verdict := TurnOn(plan, table, fragments, after, guarded, only, script[i]);
        match verdict {
          case Done(result) => return result;
          case Again(t) => transient := t;
        }
        i := i + 1;
      }
      outcome := if transient then UnknownOutcome else CertainFailure;
    }

    method CommitAt(table: nat, r: SiteRequest) returns (outcome: Outcome)
      modifies this
      ensures (Current(), outcome) == SiteCommit(old(Current()), table, r) && gone == old(gone)
    {
      if EmptiesTable(r) {
        return Raised;
      }
      if NothingToCommit(r) {
        return if first.Some? then Returned(|rest|) else Raised;
      }
      outcome := LoopOn(r.plan, table, r.fragments, After(r.plan, r.writtenAt), Guarded(r), r.script);
    }

    method AbortAt(ps: set<Path>, after: nat, c: SiteCleanup) returns (files: Option<set<Path>>)
      modifies this
      ensures (Current(), files) == SiteAbort(old(Current()), ps, after, c)
      ensures gone == old(gone) + Deleted(files)
    {
      if ps == {} {
        return Some({});
      }
      Others(c.others);
      if c.broken || first.None? {
        return None;
      }
      var landing := LandedOn(TableLog(Current()), after, ps);
      if landing != NotLanded {
        return None;
      }
      files := Some(ps - c.undeletable);
      gone := gone + files.value;
    }
  }
}
