/** `_Creator` on a catalog-managed table: registered at commit, and dropped when undone. */
module ManagedCreate {
  import opened Wrappers
  import opened CommitLog
  import opened CommitProtocol
  import opened CommitSafety
  import opened CommitCleanup
  import opened CertainFailures
  import CreateProtocol

  /** Whose table the catalog has under the name. */
  datatype Name = Nobody | Ours | Theirs(log: Log)

  /** The name, and the log in this plan's own staging location, whose version 0 planning writes. */
  datatype Registry = Registry(name: Name, own: Log)

  /** What one `commit` or `abort` of a managed create meets, apart from the registration and the undo. */
  datatype Encounter = Encounter(
    beforeOpen: Log, abortOnFailure: bool, script: seq<Attempt>, cleanup: LogCleanup, beforeUndo: Log)

  /** What one registration meets at the catalog. */
  datatype Registration = Registration(
    rival: Option<Log>,         // who takes the name first, if anyone
    accepted: bool,             // the catalog confirms the registration
    recorded: bool,             // it took effect all the same when it was not confirmed
    existsAnswers: bool,        // whether the catalog can say the name is taken
    absentAnswers: bool)        // whether it can say the name is free

  function Register(reg: Registry, g: Registration): Registry {
    if !reg.name.Nobody? then reg
    else if g.rival.Some? then Registry(Theirs(g.rival.value), reg.own)
    else if g.accepted || g.recorded then Registry(Ours, reg.own)
    else reg
  }

  /** Whether the write takes the name as registered, by itself or by another. */
  predicate Registered(reg: Registry, g: Registration, after: Registry) {
    (reg.name.Nobody? && g.rival.None? && g.accepted) || (g.existsAnswers && !after.name.Nobody?)
  }

  /** The plan against the registered table: version 0, through the catalog. */
  const MANAGED_TARGET: Plan := Plan(Some(0), false, false, true, true, 0)

  /** Other writers' commits to the table under the name. */
  function Receive(reg: Registry, cs: Log): Registry {
    match reg.name
    case Nobody => reg
    case Ours => Registry(Ours, reg.own + cs)
    case Theirs(log) => Registry(Theirs(log + cs), reg.own)
  }

  /** What others do to the name and its table. */
  datatype NameEvent = Commits(cs: Log) | Drops | Registers(log: Log)

  function Happen(reg: Registry, e: NameEvent): Registry {
    match e
    case Commits(cs) => Receive(reg, cs)
    case Drops => Registry(Nobody, reg.own)
    case Registers(log) => if reg.name.Nobody? then Registry(Theirs(log), reg.own) else reg
  }

  function HappenAll(reg: Registry, es: seq<NameEvent>): Registry
    decreases |es|
  {
    if es == [] then reg else HappenAll(Happen(reg, es[0]), es[1..])
  }

  /**
   * What an undo meets: how many versions the newest commit tail of the table shows that this process
   * has read, and what others do from its look at the version to its drop of the name.
   */
  datatype Undoing = Undoing(known: nat, meantime: seq<NameEvent>)

  /**
   * `detail` reads the table as it was resolved, of `resolved` versions, or at a newer tail this
   * process has read since; it reads none itself.
   */
  function Shown(resolved: nat, known: nat, log: Log): nat {
    var newest := Min(known, |log|);
    if resolved < newest then newest else resolved
  }

  /** What other writers have in the table under the name: all but this plan's own version 0. */
  function TheirVersions(reg: Registry): Log {
    match reg.name
    case Nobody => []
    case Ours => if reg.own == [] then [] else reg.own[1..]
    case Theirs(log) => log
  }

  /** `_undo`: where version 0 was seen, whatever is under the name by then is dropped. */
  function UndoManaged(reg: Registry, empty: bool, meantime: seq<NameEvent>): (Registry, Log) {
    var after := HappenAll(reg, meantime);
    if empty then (Registry(Nobody, after.own), TheirVersions(after)) else (after, [])
  }

  function DataRequest(fragments: seq<seq<Path>>, m: Encounter): LogRequest {
    Request(MANAGED_TARGET, fragments, CreateProtocol.TEMPLATE_VERSION, false, false, m.script)
  }

  /** `_Creator.commit` by `_finalized`, `_lost_managed` and `_commit_data`; last, what others lose. */
  function ManagedCommit(cr: CreateProtocol.Creator, reg: Registry, fragments: seq<seq<Path>>, g: Registration, m: Encounter, u: Undoing): (Registry, Outcome, set<Path>, Log)
    requires reg.own != []
  {
    var ps := PathsOf(fragments);
    var r1 := Register(reg, g);
    if !Registered(reg, g, r1) then
      (r1, Raised, if m.abortOnFailure && g.absentAnswers && r1.name.Nobody? then ps - m.cleanup.undeletable else {}, [])
    else
      var r2 := Receive(r1, m.beforeOpen);
      match r2.name
      case Nobody => (r2, Raised, {}, [])
      case Theirs(log) =>
        (r2, if cr.mode.IgnoreMode? && log != [] then Returned(|log| - 1) else Raised,
         if m.abortOnFailure || cr.mode.IgnoreMode? then ps - m.cleanup.undeletable else {}, [])
      case Ours =>
        var (log, o) := RunCommit(r2.own, DataRequest(fragments, m));
        if o == CertainFailure && m.abortOnFailure then
          var (log', deleted) := Abort(MANAGED_TARGET, log, ps, 0, m.cleanup);
          var left := Registry(Ours, log' + m.beforeUndo);
          var (r3, lost) := UndoManaged(left, Shown(|r2.own|, u.known, left.own) == 1, u.meantime);
          (r3, o, deleted, lost)
        else (Registry(Ours, log), o, {}, [])
  }

  /** Whether `abort` refuses: the files landed, or it cannot be told. */
  predicate Refuses(log: Log, ps: set<Path>, after: nat, c: LogCleanup) {
    ps != {} && (c.broken || Landed(log + c.others, after, ps) != NotLanded)
  }

  /**
   * `_Creator.abort` of a managed table. Where the name is not this plan's, the files are deleted
   * unchecked, and `_undo` reads version 0 off the template (`template`: it can still be read) and
   * then drops the name all the same.
   */
  function ManagedAbort(reg: Registry, ps: set<Path>, m: Encounter, template: bool, u: Undoing): (Registry, set<Path>, Log)
    requires reg.own != []
  {
    if reg.name.Ours? then
      var (log, deleted) := Abort(MANAGED_TARGET, reg.own, ps, 0, m.cleanup);
      var left := Registry(Ours, log + m.beforeUndo);
      if Refuses(reg.own, ps, 0, m.cleanup) then (left, deleted, [])
      else
        var (r, lost) := UndoManaged(left, Shown(|reg.own|, u.known, left.own) == 1, u.meantime);
        (r, deleted, lost)
    else
      var (r, lost) := UndoManaged(reg, template, u.meantime);
      (r, ps - m.cleanup.undeletable, lost)
  }

  // ------------------------------------------------------ the imperative form

  /** The catalog's entry for the name, and this plan's staging location. */
  class Entry {
    const storage: Storage
    var name: Name

    constructor (storage: Storage)
      ensures this.storage == storage && name == Nobody
    {
      this.storage := storage;
      name := Nobody;
    }

    function Current(): Registry
      reads this, storage, storage.table
    {
      Registry(name, storage.table.log)
    }

    method Finalize(g: Registration)
      modifies this
      ensures Current() == Register(old(Current()), g)
    {
      if name.Nobody? {
        if g.rival.Some? {
          name := Theirs(g.rival.value);
        } else if g.accepted || g.recorded {
          name := Ours;
        }
      }
    }

    method Others(cs: Log)
      modifies this, storage.table
      ensures Current() == Receive(old(Current()), cs) && storage.table == old(storage.table)
    {
      match name {
        case Nobody =>
        case Ours => storage.table.Others(cs);
        case Theirs(log) => name := Theirs(log + cs);
      }
    }

    method OthersAct(e: NameEvent)
      modifies this, storage.table
      ensures Current() == Happen(old(Current()), e) && storage.table == old(storage.table)
    {
      match e {
        case Commits(cs) => Others(cs);
        case Drops => name := Nobody;
        case Registers(log) =>
          if name.Nobody? {
            name := Theirs(log);
          }
      }
    }

    method OthersActAll(es: seq<NameEvent>)
      modifies this, storage.table
      ensures Current() == HappenAll(old(Current()), es) && storage.table == old(storage.table)
    {
      var i := 0;
      while i < |es|
        invariant 0 <= i <= |es| && storage.table == old(storage.table)
        invariant HappenAll(Current(), es[i..]) == HappenAll(old(Current()), es)
      {
        assert es[i..][0] == es[i] && es[i..][1..] == es[i + 1..];
        OthersAct(es[i]);
        i := i + 1;
      }
    }

    /** `_undo`: the version was looked at; the name is dropped after what others do in the meantime. */
    method DropIf(empty: bool, meantime: seq<NameEvent>) returns (lost: Log)
      modifies this, storage.table
      ensures storage.table == old(storage.table)
      ensures (Current(), lost) == UndoManaged(old(Current()), empty, meantime)
    {
      lost := [];
      OthersActAll(meantime);
      if empty {
        lost := TheirVersions(Current());
        name := Nobody;
      }
    }

    method CommitManagedOn(cr: CreateProtocol.Creator, fragments: seq<seq<Path>>, g: Registration, m: Encounter, u: Undoing)
      returns (outcome: Outcome, deleted: set<Path>, lost: Log)
      requires storage.table.log != []
      modifies this, storage, storage.table
      ensures storage.table == old(storage.table)
      ensures (Current(), outcome, deleted, lost) == ManagedCommit(cr, old(Current()), fragments, g, m, u)
      ensures storage.gone == old(storage.gone) + deleted
    {
      deleted, lost := {}, [];
      var ps := PathsOf(fragments);
      var accepted := name.Nobody? && g.rival.None? && g.accepted;
      Finalize(g);
      if !accepted && !(g.existsAnswers && !name.Nobody?) {
        if m.abortOnFailure && g.absentAnswers && name.Nobody? {
          deleted := ps - m.cleanup.undeletable;
          storage.gone := storage.gone + deleted;
        }
        return Raised, deleted, lost;
      }
      Others(m.beforeOpen);
      var resolved := |storage.table.log|;
      match name {
        case Nobody => return Raised, deleted, lost;
        case Theirs(log) =>
          if m.abortOnFailure || cr.mode.IgnoreMode? {
            deleted := ps - m.cleanup.undeletable;
            storage.gone := storage.gone + deleted;
          }
          return if cr.mode.IgnoreMode? && log != [] then Returned(|log| - 1) else Raised, deleted, lost;
        case Ours =>
          outcome := CommitOn(storage.table, DataRequest(fragments, m));
          if outcome == CertainFailure && m.abortOnFailure {
            deleted := storage.AbortOn(MANAGED_TARGET, ps, 0, m.cleanup);
            storage.table.Others(m.beforeUndo);
            lost := DropIf(Shown(resolved, u.known, storage.table.log) == 1, u.meantime);
          }
      }
    }

    method AbortManagedOn(ps: set<Path>, m: Encounter, template: bool, u: Undoing) returns (deleted: set<Path>, lost: Log)
      requires storage.table.log != []
      modifies this, storage, storage.table
      ensures storage.table == old(storage.table)
      ensures (Current(), deleted, lost) == ManagedAbort(old(Current()), ps, m, template, u)
      ensures storage.gone == old(storage.gone) + deleted
    {
      lost := [];
      var empty := template;
      if name.Ours? {
        var resolved := |storage.table.log|;
        var refused := Refuses(storage.table.log, ps, 0, m.cleanup);
        deleted := storage.AbortOn(MANAGED_TARGET, ps, 0, m.cleanup);
        storage.table.Others(m.beforeUndo);
        if refused {
          return;
        }
        empty := Shown(resolved, u.known, storage.table.log) == 1;
      } else {
        deleted := ps - m.cleanup.undeletable;
        storage.gone := storage.gone + deleted;
      }
      lost := DropIf(empty, u.meantime);
    }
  }

  // ------------------------------------------------------------------- safety

  /** The files are in at most one version of this plan's own log, and in no other table's. */
  ghost predicate RegistryInv(reg: Registry, ps: set<Path>) {
    && Inv(reg.own, 0, ps) && reg.own[0] == EMPTY
    && (reg.name.Theirs? ==> Untouched(reg.name.log, ps))
  }

  ghost predicate SoundEncounter(m: Encounter, ps: set<Path>) {
    && Untouched(m.beforeOpen, ps) && Untouched(m.beforeUndo, ps) && Untouched(m.cleanup.others, ps)
    && ForeignScript(m.script, ps) && m.script != []
  }

  predicate SoundRegistration(g: Registration, ps: set<Path>) {
    g.rival.Some? ==> Untouched(g.rival.value, ps)
  }

  /** Commits of other writers grow the log, and change nothing about these files. */
  ghost predicate Steady(reg: Registry, reg': Registry, ps: set<Path>) {
    && RegistryInv(reg', ps) && reg.own <= reg'.own
    && (Untouched(reg.own, ps) ==> Untouched(reg'.own, ps))
  }

  lemma ReceiveIsSteady(reg: Registry, cs: Log, ps: set<Path>)
    requires RegistryInv(reg, ps) && Untouched(cs, ps)
    ensures Steady(reg, Receive(reg, cs), ps)
  {
    match reg.name
    case Nobody =>
    case Ours =>
      ForeignGrows(reg.own, cs, ps);
      OthersKeep(reg.own, reg.own + cs, 0, ps);
    case Theirs(log) => BothUntouched(log, cs, ps);
  }

  lemma TailUntouched(log: Log, ps: set<Path>)
    requires log != [] && Untouched(log, ps)
    ensures Untouched(log[1..], ps)
  {
    forall v | 0 <= v < |log[1..]| ensures !Touches(log[1..], v, ps) {
      assert log[1..][v] == log[v + 1] && !Touches(log, v + 1, ps);
    }
  }

  predicate SoundEvents(es: seq<NameEvent>, ps: set<Path>) {
    forall i :: 0 <= i < |es| ==>
      match es[i]
      case Commits(cs) => Untouched(cs, ps)
      case Drops => true
      case Registers(log) => Untouched(log, ps)
  }

  lemma {:induction false} HappenAllIsSteady(reg: Registry, es: seq<NameEvent>, ps: set<Path>)
    requires RegistryInv(reg, ps) && SoundEvents(es, ps)
    ensures Steady(reg, HappenAll(reg, es), ps) && (HappenAll(reg, es).name.Ours? ==> reg.name.Ours?)
    ensures !reg.name.Ours? ==> HappenAll(reg, es).own == reg.own
    decreases |es|
  {
    if es != [] {
      var next := Happen(reg, es[0]);
      if es[0].Commits? {
        ReceiveIsSteady(reg, es[0].cs, ps);
      }
      HappenAllIsSteady(next, es[1..], ps);
    }
  }

  lemma UndoIsSteady(reg: Registry, empty: bool, meantime: seq<NameEvent>, ps: set<Path>)
    requires RegistryInv(reg, ps) && SoundEvents(meantime, ps)
    requires empty && reg.name.Ours? ==> Untouched(reg.own, ps)
    ensures var (reg', lost) := UndoManaged(reg, empty, meantime);
            && Steady(reg, reg', ps) && Untouched(lost, ps)
            && (reg'.name.Ours? ==> reg.name.Ours? && !empty)
            && (!reg.name.Ours? ==> reg'.own == reg.own)
  {
    HappenAllIsSteady(reg, meantime, ps);
    var after := HappenAll(reg, meantime);
    if empty && after.name.Ours? {
      TailUntouched(after.own, ps);
    }
  }

  lemma ManagedFilesAreSafe(log: Log, fragments: seq<seq<Path>>, m: Encounter)
    requires var ps := PathsOf(fragments); Inv(log, 0, ps) && log[0] == EMPTY && SoundEncounter(m, ps)
    ensures var ps := PathsOf(fragments);
            var (log1, o) := RunCommit(log, DataRequest(fragments, m));
            && Inv(log1, 0, ps) && log <= log1
            && (o == CertainFailure ==> Untouched(log1, ps))
            && (o.Returned? && ps != {} ==> o.version < |log1| && ps <= log1[o.version].adds)
  {
    CommitKeeps(log, DataRequest(fragments, m), 0, PathsOf(fragments));
  }

  lemma ManagedAbortedAreSafe(log: Log, ps: set<Path>, m: Encounter)
    requires Inv(log, 0, ps) && log[0] == EMPTY && SoundEncounter(m, ps)
    ensures var (log1, deleted) := Abort(MANAGED_TARGET, log, ps, 0, m.cleanup); var left := log1 + m.beforeUndo;
            && Inv(left, 0, ps) && log <= log1 <= left && left[0] == EMPTY && deleted <= ps
            && (deleted != {} || !Refuses(log, ps, 0, m.cleanup) ==> Untouched(left, ps)) && (Untouched(log, ps) ==> Untouched(left, ps))
  {
    if ps != {} {
      ForeignGrows(log, m.cleanup.others, ps);
      OthersKeep(log, log + m.cleanup.others, 0, ps);
      LandedIsExact(log + m.cleanup.others, log + m.cleanup.others, 0, 0, ps);
    }
    AbortIsSafe(MANAGED_TARGET, log, ps, 0, 0, m.cleanup);
    AbortKeepsUntouched(MANAGED_TARGET, log, ps, 0, 0, m.cleanup);
    var (log1, deleted) := Abort(MANAGED_TARGET, log, ps, 0, m.cleanup);
    ForeignGrows(log1, m.beforeUndo, ps);
    OthersKeep(log1, log1 + m.beforeUndo, 0, ps);
  }

  /** What one call does to the name, the log, the files and other writers' versions. */
  ghost predicate ManagedKeeps(reg: Registry, reg': Registry, deleted: set<Path>, lost: Log, ps: set<Path>) {
    && RegistryInv(reg', ps) && reg.own <= reg'.own
    && deleted <= ps && Untouched(lost, ps)
    && (deleted != {} && reg'.name.Ours? ==> Untouched(reg'.own, ps))
    && (!Untouched(reg'.own, ps) ==> reg'.name.Ours? || (reg'.own == reg.own && !reg.name.Ours?))
    && (deleted != {} && (reg.name.Ours? || Untouched(reg.own, ps)) ==> Untouched(reg'.own, ps))
  }

  ghost predicate ManagedReports(reg: Registry, o: Outcome, ps: set<Path>) {
    match o
    case CertainFailure => Untouched(reg.own, ps)
    case Returned(v) => reg.name.Ours? && ps != {} ==> v < |reg.own| && ps <= reg.own[v].adds
    case _ => true
  }

  lemma ManagedDataKeeps(reg: Registry, fragments: seq<seq<Path>>, m: Encounter, u: Undoing)
    requires var ps := PathsOf(fragments);
             reg.name.Ours? && RegistryInv(reg, ps) && SoundEncounter(m, ps) && SoundEvents(u.meantime, ps)
    ensures var ps := PathsOf(fragments);
            var (log, o) := RunCommit(reg.own, DataRequest(fragments, m));
            var (log', deleted) := Abort(MANAGED_TARGET, log, ps, 0, m.cleanup);
            var left := Registry(Ours, log' + m.beforeUndo);
            && (o != CertainFailure || !m.abortOnFailure ==>
                  ManagedKeeps(reg, Registry(Ours, log), {}, [], ps) && ManagedReports(Registry(Ours, log), o, ps))
            && (o == CertainFailure ==>
                  var (reg', lost) := UndoManaged(left, Shown(|reg.own|, u.known, left.own) == 1, u.meantime);
                  ManagedKeeps(reg, reg', deleted, lost, ps) && ManagedReports(reg', o, ps))
  {
    var ps := PathsOf(fragments);
    ManagedFilesAreSafe(reg.own, fragments, m);
    var (log, o) := RunCommit(reg.own, DataRequest(fragments, m));
    ManagedAbortedAreSafe(log, ps, m);
    var left := Registry(Ours, Abort(MANAGED_TARGET, log, ps, 0, m.cleanup).0 + m.beforeUndo);
    if o == CertainFailure {
      UndoIsSteady(left, Shown(|reg.own|, u.known, left.own) == 1, u.meantime, ps);
    }
  }

  lemma RegisterIsSteady(reg: Registry, g: Registration, m: Encounter, ps: set<Path>)
    requires RegistryInv(reg, ps) && SoundRegistration(g, ps) && SoundEncounter(m, ps)
    ensures var r1 := Register(reg, g); var r2 := Receive(r1, m.beforeOpen);
            && RegistryInv(r1, ps) && r1.own == reg.own && Steady(r1, r2, ps)
            && (reg.name.Ours? ==> r1.name.Ours?) && (r2.name.Ours? <==> r1.name.Ours?)
            && (!r2.name.Ours? ==> r2.own == reg.own)
  {
    ReceiveIsSteady(Register(reg, g), m.beforeOpen, ps);
  }

  /**
   * A managed create: the files land in at most one version of the plan's own log, a certain failure
   * means in none, and a file is deleted unchecked only where the name is free or another table's.
   */
  lemma ManagedCreateKeeps(cr: CreateProtocol.Creator, reg: Registry, fragments: seq<seq<Path>>, g: Registration, m: Encounter, u: Undoing)
    requires var ps := PathsOf(fragments);
             RegistryInv(reg, ps) && SoundEncounter(m, ps) && SoundRegistration(g, ps) && SoundEvents(u.meantime, ps)
    ensures var ps := PathsOf(fragments); var (reg', o, deleted, lost) := ManagedCommit(cr, reg, fragments, g, m, u);
            ManagedKeeps(reg, reg', deleted, lost, ps) && ManagedReports(reg', o, ps)
  {
    var ps := PathsOf(fragments);
    RegisterIsSteady(reg, g, m, ps);
    var r2 := Receive(Register(reg, g), m.beforeOpen);
    if r2.name.Ours? {
      ManagedDataKeeps(r2, fragments, m, u);
    }
  }

  lemma ManagedAbortIsSafe(reg: Registry, ps: set<Path>, m: Encounter, template: bool, u: Undoing)
    requires RegistryInv(reg, ps) && SoundEncounter(m, ps) && SoundEvents(u.meantime, ps)
    ensures var (reg', deleted, lost) := ManagedAbort(reg, ps, m, template, u);
            && ManagedKeeps(reg, reg', deleted, lost, ps)
            && (Untouched(reg.own, ps) ==> Untouched(reg'.own, ps)) && (reg'.name.Ours? ==> reg.name.Ours?)
  {
    if reg.name.Ours? {
      ManagedAbortedAreSafe(reg.own, ps, m);
      var left := Registry(Ours, Abort(MANAGED_TARGET, reg.own, ps, 0, m.cleanup).0 + m.beforeUndo);
      if !Refuses(reg.own, ps, 0, m.cleanup) {
        UndoIsSteady(left, Shown(|reg.own|, u.known, left.own) == 1, u.meantime, ps);
      }
    } else {
      UndoIsSteady(reg, template, u.meantime, ps);
    }
  }

  // ---------------------------------------------------------- what others lose

  /** The table as a commit finds it where it is resolved. */
  function AtResolve(reg: Registry, g: Registration, m: Encounter): Registry {
    Receive(Register(reg, g), m.beforeOpen)
  }

  /** The log when a failed commit looks at the version: what others committed since it resolved the table. */
  function AtLook(own: Log, fragments: seq<seq<Path>>, m: Encounter): Log {
    own + OthersPut(MANAGED_TARGET, Distinct(Flat(fragments)), m.script, |m.script| == 1) + m.cleanup.others + m.beforeUndo
  }

  /** Where the log was version 0 alone at the resolve, and no newer tail was read that shows more. */
  predicate LooksEmpty(resolved: Log, known: nat, log: Log) {
    |resolved| == 1 && (known <= 1 || |log| == 1)
  }

  lemma ShownExactlyWhen(resolved: Log, known: nat, log: Log)
    requires resolved != [] && log != []
    ensures Shown(|resolved|, known, log) == 1 <==> LooksEmpty(resolved, known, log)
  {
  }

  /** Whether a commit drops the name, as it can be told before it: its table, taken for empty, and a script that fails. */
  predicate CommitDrops(reg: Registry, fragments: seq<seq<Path>>, g: Registration, m: Encounter, u: Undoing) {
    var own := AtResolve(reg, g, m).own;
    && Registered(reg, g, Register(reg, g)) && AtResolve(reg, g, m).name.Ours? && m.abortOnFailure && PathsOf(fragments) != {}
    && FailsForCertain(MANAGED_TARGET, Distinct(Flat(fragments)), m.script, |m.script| == 1)
    && LooksEmpty(own, u.known, AtLook(own, fragments, m))
  }

  /** On version 0 alone: the data is refused for certain exactly on such scripts, and this is the log then. */
  lemma DataFailsExactlyWhen(own: Log, fragments: seq<seq<Path>>, m: Encounter)
    requires var ps := PathsOf(fragments); SoundEncounter(m, ps) && ps != {} && own == [EMPTY]
    ensures var (log, o) := RunCommit(own, DataRequest(fragments, m));
            && (o == CertainFailure <==> FailsForCertain(MANAGED_TARGET, Distinct(Flat(fragments)), m.script, |m.script| == 1))
            && (o == CertainFailure ==> Abort(MANAGED_TARGET, log, PathsOf(fragments), 0, m.cleanup).0 + m.beforeUndo == AtLook(own, fragments, m))
  {
    FailureExactlyWhen(MANAGED_TARGET, own, fragments, 0, |m.script| == 1, m.script, false);
  }

  predicate OnlyCommits(es: seq<NameEvent>) {
    forall i :: 0 <= i < |es| ==> es[i].Commits?
  }

  lemma {:induction false} CommitsGrow(reg: Registry, es: seq<NameEvent>)
    requires OnlyCommits(es)
    ensures var reg' := HappenAll(reg, es);
            && reg.own <= reg'.own && (reg.name.Ours? <==> reg'.name.Ours?) && (reg.name.Nobody? <==> reg'.name.Nobody?)
            && (reg.name.Theirs? ==> reg'.name.Theirs? && reg.name.log <= reg'.name.log)
    decreases |es|
  {
    if es != [] {
      CommitsGrow(Happen(reg, es[0]), es[1..]);
    }
  }

  /** When a commit's look takes the table for empty, and the log it then drops. */
  lemma LookedAt(own: Log, fragments: seq<seq<Path>>, m: Encounter, known: nat)
    requires var ps := PathsOf(fragments); Inv(own, 0, ps) && own[0] == EMPTY && SoundEncounter(m, ps)
    ensures var ps := PathsOf(fragments); var (log, o) := RunCommit(own, DataRequest(fragments, m));
            var left := Abort(MANAGED_TARGET, log, ps, 0, m.cleanup).0 + m.beforeUndo; var look := AtLook(own, fragments, m);
            && (o == CertainFailure && Shown(|own|, known, left) == 1 <==>
                  && ps != {} && FailsForCertain(MANAGED_TARGET, Distinct(Flat(fragments)), m.script, |m.script| == 1)
                  && LooksEmpty(own, known, look))
            && (o == CertainFailure && Shown(|own|, known, left) == 1 ==> left == look)
  {
    var ps := PathsOf(fragments);
    if |own| == 1 && ps != {} {
      assert own == [EMPTY];
      DataFailsExactlyWhen(own, fragments, m);
      if RunCommit(own, DataRequest(fragments, m)).1 == CertainFailure {
        ShownExactlyWhen(own, known, AtLook(own, fragments, m));
      }
    }
  }

  /**
   * What a managed commit loses for others. It drops the name where it undoes its create and the
   * table it resolved held version 0 alone, whatever others have committed since. They lose whatever
   * they have under the name by then: while it stays this plan's, every version from the resolve to
   * the drop, so none if and only if nobody commits in all that time.
   */
  lemma ManagedCommitLosesExactly(cr: CreateProtocol.Creator, reg: Registry, fragments: seq<seq<Path>>, g: Registration, m: Encounter, u: Undoing)
    requires var ps := PathsOf(fragments);
             RegistryInv(reg, ps) && SoundEncounter(m, ps) && SoundRegistration(g, ps) && SoundEvents(u.meantime, ps)
    ensures var (reg', _, _, lost) := ManagedCommit(cr, reg, fragments, g, m, u); var own := AtResolve(reg, g, m).own;
            var drops := CommitDrops(reg, fragments, g, m, u);
            var last := HappenAll(Registry(Ours, AtLook(own, fragments, m)), u.meantime);
            && (lost != [] <==> drops && TheirVersions(last) != [])
            && (drops ==> lost == TheirVersions(last) && reg'.name.Nobody?)
            && FilesIn(lost) == (if drops then FilesIn(TheirVersions(last)) else {})
            && (drops && OnlyCommits(u.meantime) ==> own <= reg'.own && lost == reg'.own[|own|..])
  {
    var r2 := AtResolve(reg, g, m);
    RegisterIsSteady(reg, g, m, PathsOf(fragments));
    if Registered(reg, g, Register(reg, g)) && r2.name.Ours? {
      LookedAt(r2.own, fragments, m, u.known);
      if OnlyCommits(u.meantime) {
        CommitsGrow(Registry(Ours, AtLook(r2.own, fragments, m)), u.meantime);
      }
    }
  }

  /** The name and the log when an abort looks. */
  function AtAbortLook(reg: Registry, ps: set<Path>, m: Encounter): Registry {
    if reg.name.Ours? then Registry(Ours, Abort(MANAGED_TARGET, reg.own, ps, 0, m.cleanup).0 + m.beforeUndo) else reg
  }

  /** Whether an abort drops the name: its own table taken for empty, or, unguarded, anything else. */
  predicate AbortDrops(reg: Registry, ps: set<Path>, m: Encounter, template: bool, u: Undoing) {
    if reg.name.Ours? then !Refuses(reg.own, ps, 0, m.cleanup) && LooksEmpty(reg.own, u.known, AtAbortLook(reg, ps, m).own)
    else template
  }

  /**
   * What an abort loses for others. Where the name is not this plan's, the look at the template
   * guards nothing: a table that has the name already, or takes it while it is free, is dropped whole.
   */
  lemma ManagedAbortLosesExactly(reg: Registry, ps: set<Path>, m: Encounter, template: bool, u: Undoing)
    requires RegistryInv(reg, ps) && SoundEncounter(m, ps)
    ensures var (reg', _, lost) := ManagedAbort(reg, ps, m, template, u); var drops := AbortDrops(reg, ps, m, template, u);
            var last := HappenAll(AtAbortLook(reg, ps, m), u.meantime);
            && (lost != [] <==> drops && TheirVersions(last) != [])
            && (drops ==> lost == TheirVersions(last) && reg'.name.Nobody?)
            && FilesIn(lost) == (if drops then FilesIn(TheirVersions(last)) else {})
            && (drops && OnlyCommits(u.meantime) ==>
                  match reg.name
                  case Nobody => lost == []
                  case Ours => reg.own <= reg'.own && lost == reg'.own[|reg.own|..]
                  case Theirs(log) => log <= lost)
  {
    if OnlyCommits(u.meantime) {
      CommitsGrow(AtAbortLook(reg, ps, m), u.meantime);
    }
    if reg.name.Ours? {
      ManagedAbortedAreSafe(reg.own, ps, m);
      ShownExactlyWhen(reg.own, u.known, AtAbortLook(reg, ps, m).own);
    }
  }

  const THEIRS := Commit({"theirs"}, {})

  /** A meeting with no other writer but those in the script. */
  function Meets(script: seq<Attempt>): Encounter {
    Encounter([], true, script, Cleanup([], false, {}), [])
  }

  /** A lost race: the commit fails, the stale look shows version 0, and the winner's version is dropped. */
  lemma LostRaceDropsTheWinner(cr: CreateProtocol.Creator)
    ensures var race := Try([], [THEIRS], Answered);
            var m := Meets([Attempt([], 0, false, [], false, race, false, race)]);
            ManagedCommit(cr, Registry(Nobody, [EMPTY]), [["f"]], Registration(None, true, true, true, true), m, Undoing(0, [])) ==
            (Registry(Nobody, [EMPTY, THEIRS]), CertainFailure, {"f"}, [THEIRS])
  {
    var race := Try([], [THEIRS], Answered);
    var m := Meets([Attempt([], 0, false, [], false, race, false, race)]);
    assert Flat([["f"]]) == ["f"] && PathsOf([["f"]]) == {"f"};
    assert [EMPTY] + [] == [EMPTY] && [EMPTY] + [THEIRS] == [EMPTY, THEIRS] && [EMPTY, THEIRS] + [] == [EMPTY, THEIRS];
    NothingFound([EMPTY], 1, {"f"});
    assert !Touches([EMPTY, THEIRS], 1, {"f"});
    NothingFound([EMPTY, THEIRS], 1, {"f"});
    assert Staged(MANAGED_TARGET, [EMPTY], [["f"]]) == Some(Commit({"f"}, {}));
    assert CommitFiles(MANAGED_TARGET, [EMPTY], [["f"]], None, 0, race) == ([EMPTY, THEIRS], Conflict);
    assert RunCommit([EMPTY], DataRequest([["f"]], m)) == ([EMPTY, THEIRS], CertainFailure);
    assert {"f"} - {} == {"f"} && [EMPTY, THEIRS][1..] == [THEIRS];
  }

  /** A writer that took the name first loses its table to this plan's abort. */
  lemma AbortDropsAnothersTable()
    ensures ManagedAbort(Registry(Theirs([EMPTY, THEIRS]), [EMPTY]), {"f"}, Meets([]), true, Undoing(0, [])) ==
            (Registry(Nobody, [EMPTY]), {"f"}, [EMPTY, THEIRS])
  {
    assert {"f"} - {} == {"f"};
  }

  /** And so does one that registers while the abort is on its way to drop a free name. */
  lemma AbortDropsANewcomer()
    ensures ManagedAbort(Registry(Nobody, [EMPTY]), {"f"}, Meets([]), true, Undoing(0, [Registers([EMPTY, THEIRS])])) ==
            (Registry(Nobody, [EMPTY]), {"f"}, [EMPTY, THEIRS])
  {
    assert {"f"} - {} == {"f"};
    assert HappenAll(Registry(Nobody, [EMPTY]), [Registers([EMPTY, THEIRS])]) == Registry(Theirs([EMPTY, THEIRS]), [EMPTY]);
  }

  // --------------------------------------------------------------------- runs

  /** The catalog and the files; `lost` is what others had in the tables dropped; `taken` says they dropped this plan's. */
  datatype ManagedWorld = ManagedWorld(reg: Registry, gone: set<Path>, lost: Log, taken: bool)

  datatype ManagedAct =
    | OthersDo(e: NameEvent)
    | Committing(fragments: seq<seq<Path>>, g: Registration, m: Encounter, u: Undoing)
    | Aborting(m: Encounter, template: bool, u: Undoing)

  datatype ManagedReport = ManagedReport(outcome: Outcome, reg: Registry)

  function ManagedStep(cr: CreateProtocol.Creator, w: ManagedWorld, a: ManagedAct, ps: set<Path>): (ManagedWorld, Option<ManagedReport>)
    requires w.reg.own != []
  {
    match a
    case OthersDo(e) => (w.(reg := Happen(w.reg, e), taken := w.taken || (w.reg.name.Ours? && e.Drops?)), None)
    case Committing(fragments, g, m, u) =>
      var (reg, o, deleted, lost) := ManagedCommit(cr, w.reg, fragments, g, m, u);
      (ManagedWorld(reg, w.gone + deleted, w.lost + lost, w.taken), Some(ManagedReport(o, reg)))
    case Aborting(m, template, u) =>
      var (reg, deleted, lost) := ManagedAbort(w.reg, ps, m, template, u);
      (ManagedWorld(reg, w.gone + deleted, w.lost + lost, w.taken), None)
  }

  ghost predicate SoundManagedAct(a: ManagedAct, w: ManagedWorld, ps: set<Path>) {
    match a
    case OthersDo(e) => SoundEvents([e], ps)
    case Committing(fragments, g, m, u) =>
      && PathsOf(fragments) == ps && SoundRegistration(g, ps) && SoundEncounter(m, ps) && w.gone == {}
      && SoundEvents(u.meantime, ps)
    case Aborting(m, _, u) => SoundEncounter(m, ps) && SoundEvents(u.meantime, ps)
  }

  /**
   * No file deleted is in a version of the table under the name, nor, unless others dropped this
   * plan's table, in any version of the plan's own log.
   */
  ghost predicate ManagedIntact(w: ManagedWorld, ps: set<Path>) {
    && RegistryInv(w.reg, ps) && w.gone <= ps && Untouched(w.lost, ps)
    && (w.gone != {} && (w.reg.name.Ours? || !w.taken) ==> Untouched(w.reg.own, ps))
    && (!w.taken && !Untouched(w.reg.own, ps) ==> w.reg.name.Ours?)
  }

  lemma ManagedStepKeeps(cr: CreateProtocol.Creator, w: ManagedWorld, a: ManagedAct, ps: set<Path>)
    requires ManagedIntact(w, ps) && SoundManagedAct(a, w, ps)
    ensures var (w', report) := ManagedStep(cr, w, a, ps);
            && ManagedIntact(w', ps) && w.reg.own <= w'.reg.own
            && (report.Some? ==> report.value.reg == w'.reg && ManagedReports(w'.reg, report.value.outcome, ps))
  {
    match a
    case OthersDo(e) =>
      HappenAllIsSteady(w.reg, [e], ps);
      assert HappenAll(w.reg, [e]) == Happen(w.reg, e);
    case Committing(fragments, g, m, u) =>
      ManagedCreateKeeps(cr, w.reg, fragments, g, m, u);
      BothUntouched(w.lost, ManagedCommit(cr, w.reg, fragments, g, m, u).3, ps);
    case Aborting(m, template, u) =>
      ManagedAbortIsSafe(w.reg, ps, m, template, u);
      BothUntouched(w.lost, ManagedAbort(w.reg, ps, m, template, u).2, ps);
  }

  function ManagedSteps(cr: CreateProtocol.Creator, w: ManagedWorld, acts: seq<ManagedAct>, ps: set<Path>): (ManagedWorld, seq<ManagedReport>)
    decreases |acts|
  {
    if acts == [] || w.reg.own == [] then (w, [])
    else
      var (w1, report) := ManagedStep(cr, w, acts[0], ps);
      var (w2, reports) := ManagedSteps(cr, w1, acts[1..], ps);
      (w2, (if report.Some? then [report.value] else []) + reports)
  }

  ghost predicate SoundManagedActs(cr: CreateProtocol.Creator, w: ManagedWorld, acts: seq<ManagedAct>, ps: set<Path>)
    decreases |acts|
  {
    acts != [] && w.reg.own != [] ==>
      SoundManagedAct(acts[0], w, ps) && SoundManagedActs(cr, ManagedStep(cr, w, acts[0], ps).0, acts[1..], ps)
  }

  /** The log of the table under the name. */
  function Table(reg: Registry): Log {
    match reg.name
    case Nobody => []
    case Ours => reg.own
    case Theirs(log) => log
  }

  lemma DeletedIsUnreferenced(w: ManagedWorld, ps: set<Path>)
    requires ManagedIntact(w, ps)
    ensures Unreferenced(Table(w.reg), w.gone) && (!w.taken ==> Unreferenced(w.reg.own, w.gone))
  {
    if w.gone != {} {
      if w.reg.name.Theirs? {
        UntouchedIsUnreferenced(w.reg.name.log, ps, w.gone);
      }
      if w.reg.name.Ours? || !w.taken {
        UntouchedIsUnreferenced(w.reg.own, ps, w.gone);
      }
    }
  }

  /**
   * Every run: the files land in at most one version of the plan's own log, and stay in it; nothing
   * deleted is in a version of the table under the name, or of any table this plan dropped; no
   * table it dropped held these files; a certain failure means that no version added them.
   */
  lemma {:induction false} ManagedRunIsSafe(cr: CreateProtocol.Creator, w: ManagedWorld, acts: seq<ManagedAct>, ps: set<Path>)
    requires ManagedIntact(w, ps) && SoundManagedActs(cr, w, acts, ps)
    ensures var (w', reports) := ManagedSteps(cr, w, acts, ps);
            && ManagedIntact(w', ps) && w.reg.own <= w'.reg.own && Once(w'.reg.own, ps)
            && Unreferenced(Table(w'.reg), w'.gone) && (!w'.taken ==> Unreferenced(w'.reg.own, w'.gone))
            && forall i :: 0 <= i < |reports| ==>
                 && (reports[i].outcome == CertainFailure ==> Untouched(reports[i].reg.own, ps))
                 && (reports[i].outcome.Returned? && reports[i].reg.name.Ours? && ps != {} ==>
                       var v := reports[i].outcome.version; v < |w'.reg.own| && ps <= w'.reg.own[v].adds)
    decreases |acts|
  {
    if acts == [] {
      DeletedIsUnreferenced(w, ps);
    } else {
      ManagedStepKeeps(cr, w, acts[0], ps);
      var (w1, report) := ManagedStep(cr, w, acts[0], ps);
      ManagedRunIsSafe(cr, w1, acts[1..], ps);
      var (w2, reports) := ManagedSteps(cr, w1, acts[1..], ps);
      assert forall v :: 0 <= v < |w1.reg.own| ==> w2.reg.own[v] == w1.reg.own[v];
    }
  }

  /** Where planning leaves off, the name is free and version 0 adds nothing. */
  lemma ManagedRunsStartIntact(ps: set<Path>)
    ensures ManagedIntact(ManagedWorld(Registry(Nobody, [EMPTY]), {}, [], false), ps)
  {
  }
}
