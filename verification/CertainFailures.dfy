/** On which scripts an append that sees the whole log fails for certain, and when the log stays as it was. */
module CertainFailures {
  import opened Wrappers
  import opened CommitLog
  import opened CommitProtocol
  import opened CommitSafety

  /** How a try ends whose files no version adds: lost races and lost answers can be tried again. */
  datatype Ending = Refused | Race | Unheard | Demanded | Over

  function TryEnding(distinct: bool, t: Try): Ending {
    if t.reply.LayoutChanged? then Refused
    else if !distinct then Over
    else
      match t.reply
      case Answered => if t.beforePut == [] then Over else Race
      case Silent(landed) => if landed && t.beforePut == [] then Over else Unheard
      case BackfillDemanded => Demanded
      case _ => Over
  }

  /** Whether an attempt commits a second time, once the tail is published. */
  predicate Backfills(plan: Plan, distinct: bool, a: Attempt) {
    TryEnding(distinct, a.first) == Demanded && plan.managed && plan.catalog && !a.publishFails
  }

  function AttemptEnding(plan: Plan, distinct: bool, a: Attempt): Ending {
    if a.checkBroken then Over
    else
      var e := TryEnding(distinct, if Backfills(plan, distinct, a) then a.second else a.first);
      if e == Demanded then Over else e
  }

  /** Every attempt is lost to another writer or unheard and not landed, until one is refused or the last loses its race. */
  predicate FailsForCertain(plan: Plan, distinct: bool, script: seq<Attempt>, only: bool)
    decreases |script|
  {
    && script != []
    && match AttemptEnding(plan, distinct, script[0])
       case Refused => true
       case Race => only || |script| == 1 || FailsForCertain(plan, distinct, script[1..], only)
       case Unheard => !only && FailsForCertain(plan, distinct, script[1..], only)
       case _ => false
  }

  function TryPut(t: Try): Log {
    t.beforeSnapshot + if t.reply.LayoutChanged? then [] else t.beforePut
  }

  function TriesPut(plan: Plan, distinct: bool, a: Attempt): Log {
    TryPut(a.first) + if Backfills(plan, distinct, a) then TryPut(a.second) else []
  }

  function AttemptPut(plan: Plan, distinct: bool, a: Attempt): Log {
    a.beforeCheck + (a.beforeGuard + TriesPut(plan, distinct, a))
  }

  /** What other writers commit while such a script is run. */
  function OthersPut(plan: Plan, distinct: bool, script: seq<Attempt>, only: bool): Log
    decreases |script|
  {
    if script == [] then []
    else
      AttemptPut(plan, distinct, script[0]) +
      if AttemptEnding(plan, distinct, script[0]) in {Race, Unheard} && !only then OthersPut(plan, distinct, script[1..], only) else []
  }

  /** The same, with nobody committing meanwhile: no race is lost, and the last attempt is refused. */
  predicate FailsQuietly(plan: Plan, distinct: bool, script: seq<Attempt>, only: bool) {
    FailsForCertain(plan, distinct, script, only) && OthersPut(plan, distinct, script, only) == []
  }

  /** An append that sees the whole log. */
  predicate Appends(plan: Plan) {
    !plan.overwrite && !Blind(plan)
  }

  /** The log's last version adds the files, and no other does. */
  ghost predicate LandedLast(log: Log, ps: set<Path>) {
    log != [] && log[|log| - 1].adds == ps && Untouched(log[..|log| - 1], ps)
  }

  lemma TryDecides(plan: Plan, log: Log, fragments: seq<seq<Path>>, seen: nat, t: Try)
    requires Appends(plan) && Untouched(log, PathsOf(fragments)) && ForeignTry(t, PathsOf(fragments))
    ensures var (log', r) := CommitFiles(plan, log, fragments, None, seen, t); var ps := PathsOf(fragments);
            match TryEnding(Distinct(Flat(fragments)), t)
            case Refused => r == MetadataChanged && log' == log + TryPut(t)
            case Race => r == Conflict && log' == log + TryPut(t) && Untouched(log', ps)
            case Unheard => r == Transient && log' == log + TryPut(t) && Untouched(log', ps)
            case Demanded => r == BackfillRequired && log' == log + TryPut(t) && Untouched(log', ps)
            case Over => r.Committed? || r == Failure || (r == Transient && LandedLast(log', ps))
  {
    var ps := PathsOf(fragments);
    var before := log + t.beforeSnapshot;
    BothUntouched(log, t.beforeSnapshot, ps);
    BothUntouched(before, t.beforePut, ps);
    var at := before + t.beforePut;
    assert before + [] == before;
    Associates(log, t.beforeSnapshot, t.beforePut);
    PutIsLast(at, Commit(ps, {}));
  }

  lemma BackfilledDecides(plan: Plan, log: Log, fragments: seq<seq<Path>>, a: Attempt)
    requires var ps := PathsOf(fragments); Appends(plan) && Untouched(log, ps) && ForeignAttempt(a, ps) && !a.checkBroken
    ensures var (log', r) := Backfilled(plan, log, fragments, None, a); var ps := PathsOf(fragments);
            var put := log + TriesPut(plan, Distinct(Flat(fragments)), a);
            match AttemptEnding(plan, Distinct(Flat(fragments)), a)
            case Refused => r == MetadataChanged && log' == put
            case Race => r == Conflict && log' == put && Untouched(log', ps)
            case Unheard => r == Transient && log' == put && Untouched(log', ps)
            case _ => r.Committed? || r == Failure || (r == Transient && LandedLast(log', ps))
  {
    TryDecides(plan, log, fragments, a.seen, a.first);
    var log1 := CommitFiles(plan, log, fragments, None, a.seen, a.first).0;
    if Backfills(plan, Distinct(Flat(fragments)), a) {
      TryDecides(plan, log1, fragments, a.seen, a.second);
      Associates(log, TryPut(a.first), TryPut(a.second));
    } else {
      assert TryPut(a.first) + [] == TryPut(a.first);
    }
  }

  /** What an attempt decides, by how it ends. */
  lemma AttemptDecides(plan: Plan, log: Log, fragments: seq<seq<Path>>, after: nat, only: bool, a: Attempt)
    requires var ps := PathsOf(fragments); Appends(plan) && Untouched(log, ps) && ForeignAttempt(a, ps) && ps != {}
    ensures var (log', v) := OneAttempt(plan, log, fragments, after, false, only, a); var ps := PathsOf(fragments);
            match AttemptEnding(plan, Distinct(Flat(fragments)), a)
            case Refused => v == Done(CertainFailure) && log' == log + AttemptPut(plan, Distinct(Flat(fragments)), a)
            case Race =>
              && v == (if only then Done(CertainFailure) else Again(false))
              && log' == log + AttemptPut(plan, Distinct(Flat(fragments)), a) && Untouched(log', ps)
            case Unheard =>
              && v == (if only then Done(UnknownOutcome) else Again(true))
              && log' == log + AttemptPut(plan, Distinct(Flat(fragments)), a) && Untouched(log', ps)
            case _ => v != Done(CertainFailure) && (v.Again? ==> v == Again(true) && LandedLast(log', ps))
  {
    var ps := PathsOf(fragments);
    var log1 := log + a.beforeCheck;
    BothUntouched(log, a.beforeCheck, ps);
    NothingFound(log1, after + 1, ps);
    var log2 := log1 + a.beforeGuard;
    BothUntouched(log1, a.beforeGuard, ps);
    if !a.checkBroken {
      var tries := TriesPut(plan, Distinct(Flat(fragments)), a);
      BackfilledDecides(plan, log2, fragments, a);
      Associates(log1, a.beforeGuard, tries);
      Associates(log, a.beforeCheck, a.beforeGuard + tries);
    }
  }

  lemma FoundLast(log: Log, cs: Log, after: nat, ps: set<Path>)
    requires LandedLast(log, ps) && Untouched(cs, ps) && ps != {} && after < |log| - 1
    ensures Landed(log + cs, after, ps) == LandedAt(|log| - 1)
  {
    var v := |log| - 1;
    var grown := log + cs;
    assert grown[v] == log[v] && grown[v].adds * ps == ps;
    ForeignGrows(log, cs, ps);
    forall w | 0 <= w < |grown| && w != v ensures !Touches(grown, w, ps) {
      if w < v {
        assert grown[w] == log[..v][w] && !Touches(log[..v], w, ps);
      }
    }
    OneFound(grown, after + 1, v, ps);
  }

  /** Once the files landed, the next check finds them: no failure is certain any more. */
  lemma LandedNeverFails(plan: Plan, log: Log, fragments: seq<seq<Path>>, after: nat, only: bool, script: seq<Attempt>)
    requires var ps := PathsOf(fragments); Appends(plan) && LandedLast(log, ps) && ForeignScript(script, ps) && ps != {} && after < |log| - 1
    ensures Attempts(plan, log, fragments, after, false, only, script, true).1 != CertainFailure
  {
    if script != [] {
      assert ForeignAttempt(script[0], PathsOf(fragments));
      FoundLast(log, script[0].beforeCheck, after, PathsOf(fragments));
    }
  }

  lemma OverNeverFails(plan: Plan, log: Log, fragments: seq<seq<Path>>, after: nat, only: bool, script: seq<Attempt>, transient: bool)
    requires var ps := PathsOf(fragments); Appends(plan) && Untouched(log, ps) && ForeignScript(script, ps) && ps != {} && after < |log|
    requires script != [] && AttemptEnding(plan, Distinct(Flat(fragments)), script[0]) in {Demanded, Over}
    ensures Attempts(plan, log, fragments, after, false, only, script, transient).1 != CertainFailure
  {
    assert ForeignAttempt(script[0], PathsOf(fragments));
    AttemptDecides(plan, log, fragments, after, only, script[0]);
    var (log1, v) := OneAttempt(plan, log, fragments, after, false, only, script[0]);
    if v.Again? {
      LandedNeverFails(plan, log1, fragments, after, only, script[1..]);
    }
  }

  /** By the script alone: when an append of files that no version adds yet fails for certain, and on what log. */
  lemma {:induction false} FailureExactlyWhen(plan: Plan, log: Log, fragments: seq<seq<Path>>, after: nat, only: bool, script: seq<Attempt>, transient: bool)
    requires var ps := PathsOf(fragments); Appends(plan) && Untouched(log, ps) && ForeignScript(script, ps) && ps != {} && after < |log|
    requires script != []
    ensures var (log', o) := Attempts(plan, log, fragments, after, false, only, script, transient); var distinct := Distinct(Flat(fragments));
            && (o == CertainFailure <==> FailsForCertain(plan, distinct, script, only))
            && (o == CertainFailure ==> log' == log + OthersPut(plan, distinct, script, only))
    decreases |script|
  {
    var distinct := Distinct(Flat(fragments));
    if AttemptEnding(plan, distinct, script[0]) in {Demanded, Over} {
      OverNeverFails(plan, log, fragments, after, only, script, transient);
    } else {
      assert ForeignAttempt(script[0], PathsOf(fragments));
      AttemptDecides(plan, log, fragments, after, only, script[0]);
      var (log1, v) := OneAttempt(plan, log, fragments, after, false, only, script[0]);
      assert AttemptPut(plan, distinct, script[0]) + [] == AttemptPut(plan, distinct, script[0]);
      if v.Again? && |script| > 1 {
        FailureExactlyWhen(plan, log1, fragments, after, only, script[1..], v.transient);
        Associates(log, AttemptPut(plan, distinct, script[0]), OthersPut(plan, distinct, script[1..], only));
      }
    }
  }

  /** And when it does so and leaves the log as it was. */
  lemma QuietFailureExactlyWhen(plan: Plan, log: Log, fragments: seq<seq<Path>>, after: nat, only: bool, script: seq<Attempt>, transient: bool)
    requires var ps := PathsOf(fragments); Appends(plan) && Untouched(log, ps) && ForeignScript(script, ps) && ps != {} && after < |log|
    requires script != []
    ensures var (log', o) := Attempts(plan, log, fragments, after, false, only, script, transient);
            o == CertainFailure && |log'| == |log| <==> FailsQuietly(plan, Distinct(Flat(fragments)), script, only)
  {
    FailureExactlyWhen(plan, log, fragments, after, only, script, transient);
  }
}
