/** Pipelined staging of data files, and what a failed commit may delete. */
module Staging {
  import opened Wrappers
  import opened CommitLog

  const WRITE_FILES: nat := 16
  const WRITE_BYTES: nat := 0x1000_0000

  /** One output file being written: the bytes it holds, and the paths of its metadata, or None if it fails. */
  datatype Write = Write(bytes: nat, wrote: Option<seq<Path>>)

  /** What the stream gives next: a group to write, or an error of its own. */
  datatype Event = Group(write: Write) | StreamError

  function Bytes(queue: seq<Write>): nat {
    if queue == [] then 0 else queue[0].bytes + Bytes(queue[1..])
  }

  lemma {:induction false} BytesAppend(queue: seq<Write>, w: Write)
    ensures Bytes(queue + [w]) == Bytes(queue) + w.bytes
  {
    if queue != [] {
      assert (queue + [w])[1..] == queue[1..] + [w];
      BytesAppend(queue[1..], w);
    }
  }

  function FilesOf(w: Write): seq<seq<Path>> {
    if w.wrote.Some? then [w.wrote.value] else []
  }

  /** What the writes that succeeded hand to the transaction, in order. */
  function Files(writes: seq<Write>): seq<seq<Path>> {
    if writes == [] then [] else FilesOf(writes[0]) + Files(writes[1..])
  }

  lemma {:induction false} FilesAppend(writes: seq<Write>, w: Write)
    ensures Files(writes + [w]) == Files(writes) + FilesOf(w)
  {
    if writes == [] {
      assert writes + [w] == [w] && Files([w]) == FilesOf(w) + Files([]);
    } else {
      assert (writes + [w])[1..] == writes[1..] + [w];
      FilesAppend(writes[1..], w);
    }
  }

  function Writes(events: seq<Event>): seq<Write> {
    if events == [] then []
    else Writes(events[..|events| - 1]) + if events[|events| - 1].Group? then [events[|events| - 1].write] else []
  }

  predicate AllWrote(writes: seq<Write>) {
    forall i :: 0 <= i < |writes| ==> writes[i].wrote.Some?
  }

  predicate NoStreamError(events: seq<Event>) {
    forall i :: 0 <= i < |events| ==> events[i].Group?
  }

  /** Few enough writes in flight, and few enough bytes unless there is a single write. */
  predicate WithinBounds(queue: seq<Write>) {
    |queue| <= WRITE_FILES && (Bytes(queue) <= WRITE_BYTES || |queue| == 1)
  }

  /** The room a group of `bytes` needs before it is spawned. */
  predicate HasRoom(queue: seq<Write>, bytes: nat) {
    queue == [] || (|queue| < WRITE_FILES && Bytes(queue) + bytes <= WRITE_BYTES)
  }

  /** The files of the writes that are done are added to the transaction and recorded for removal. */
  ghost predicate RecordedAs(done: seq<Write>, added: seq<seq<Path>>, written: seq<Path>) {
    added == Files(done) && written == Flat(added)
  }

  lemma WriteIsDone(done: seq<Write>, added: seq<seq<Path>>, written: seq<Path>, w: Write)
    requires RecordedAs(done, added, written)
    ensures w.wrote.None? ==> RecordedAs(done + [w], added, written)
    ensures w.wrote.Some? ==> RecordedAs(done + [w], added + [w.wrote.value], written + w.wrote.value)
  {
    FilesAppend(done, w);
    if w.wrote.Some? {
      FlatConcat(added, [w.wrote.value]);
      assert Flat([w.wrote.value]) == w.wrote.value + Flat([]);
    }
  }

  class Stager {
    var inflight: seq<Write>
    var inflightBytes: int
    var added: seq<seq<Path>>
    var written: seq<Path>
    ghost var done: seq<Write>

    constructor ()
      ensures Fresh()
    {
      inflight, inflightBytes, added, written, done := [], 0, [], [], [];
    }

    ghost predicate Fresh()
      reads this
    {
      inflight == [] && inflightBytes == 0 && added == [] && written == [] && done == []
    }

    /** Every write spawned, in order: those done, and those in flight. */
    ghost function Spawned(): seq<Write>
      reads this
    {
      done + inflight
    }

    ghost predicate Recorded()
      reads this
    {
      RecordedAs(done, added, written)
    }

    /** While staging goes well. */
    ghost predicate Valid()
      reads this
    {
      Recorded() && AllWrote(done) && inflightBytes == Bytes(inflight) && WithinBounds(inflight)
    }

    /** Wait for the oldest write and add its files. */
    method FinishOldest() returns (ok: bool)
      requires Valid() && inflight != []
      modifies this
      ensures inflight == old(inflight)[1..] && done == old(done) + [old(inflight)[0]]
      ensures Spawned() == old(Spawned()) && ok == old(inflight)[0].wrote.Some?
      ensures Recorded() && (ok ==> Valid())
    {
      var w := inflight[0];
      WriteIsDone(done, added, written, w);
      assert done + inflight == (done + [w]) + inflight[1..];
      inflight := inflight[1..];
      inflightBytes := inflightBytes - w.bytes;
      done := done + [w];
      if w.wrote.None? {
        return false;
      }
      added := added + [w.wrote.value];
      written := written + w.wrote.value;
      return true;
    }

    method MakeRoom(bytes: nat) returns (ok: bool)
      requires Valid()
      modifies this
      ensures Spawned() == old(Spawned())
      ensures Recorded() && (ok ==> Valid() && HasRoom(inflight, bytes))
      ensures ok || !AllWrote(old(Spawned()))
    {
      while inflight != [] && (|inflight| >= WRITE_FILES || inflightBytes + bytes > WRITE_BYTES)
        invariant Valid() && Spawned() == old(Spawned())
        decreases |inflight|
      {
        assert Spawned()[|done|] == inflight[0];
        var finished := FinishOldest();
        if !finished {
          return false;
        }
      }
      return true;
    }

    method Spawn(w: Write)
      requires Valid() && HasRoom(inflight, w.bytes)
      modifies this`inflight, this`inflightBytes
      ensures Valid() && inflight == old(inflight) + [w] && Spawned() == old(Spawned()) + [w]
    {
      BytesAppend(inflight, w);
      assert done + (inflight + [w]) == (done + inflight) + [w];
      inflight := inflight + [w];
      inflightBytes := inflightBytes + w.bytes;
    }

    method Admit(w: Write) returns (ok: bool)
      requires Valid()
      modifies this
      ensures Recorded() && (ok ==> Valid())
      ensures Spawned() == old(Spawned()) + if ok then [w] else []
      ensures ok || !AllWrote(old(Spawned()))
    {
      ok := MakeRoom(w.bytes);
      if ok {
        Spawn(w);
      }
    }

    method DrainQueue() returns (ok: bool)
      requires Valid()
      modifies this
      ensures Recorded() && Spawned() == old(Spawned())
      ensures ok ==> inflight == [] && AllWrote(Spawned())
      ensures ok || !AllWrote(old(Spawned()))
    {
      while inflight != []
        invariant Valid() && Spawned() == old(Spawned())
        decreases |inflight|
      {
        assert Spawned()[|done|] == inflight[0];
        var finished := FinishOldest();
        if !finished {
          return false;
        }
      }
      assert Spawned() == done;
      return true;
    }

    /** `stage_stream_into`: files are added in the order of the stream. */
    method StageInto(events: seq<Event>) returns (ok: bool)
      requires Fresh()
      modifies this
      ensures Recorded() && Spawned() <= Writes(events)
      ensures ok ==> inflight == [] && Spawned() == Writes(events)
      ensures ok <==> NoStreamError(events) && AllWrote(Writes(events))
    {
      for i := 0 to |events|
        invariant Valid() && Follows(events, i, Spawned())
      {
        NextEvent(events, i, Spawned());
        if events[i].StreamError? {
          return false;
        }
        var admitted := Admit(events[i].write);
        if !admitted {
          return false;
        }
      }
      assert events[..|events|] == events;
      ok := DrainQueue();
    }

    /** The writes left are waited for, and the files of those that succeed recorded. */
    method RecordTheRest()
      requires Recorded()
      modifies this
      ensures inflight == [] && Spawned() == old(Spawned()) && written == Flat(Files(Spawned()))
    {
      ghost var files := added;
      while inflight != []
        invariant Spawned() == old(Spawned()) && RecordedAs(done, files, written)
        decreases |inflight|
      {
        var w := inflight[0];
        WriteIsDone(done, files, written, w);
        assert done + inflight == (done + [w]) + inflight[1..];
        if w.wrote.Some? {
          written := written + w.wrote.value;
          files := files + [w.wrote.value];
        }
        inflight := inflight[1..];
        done := done + [w];
      }
      assert Spawned() == done;
    }

    /** `stage_stream`: on an error the writes still running are waited for and recorded too. */
    method StageStream(events: seq<Event>) returns (ok: bool)
      requires Fresh()
      modifies this
      ensures ok <==> NoStreamError(events) && AllWrote(Writes(events))
      ensures ok ==> added == Files(Writes(events)) && written == Flat(added)
      ensures !ok ==> Spawned() <= Writes(events) && written == Flat(Files(Spawned()))
    {
      ok := StageInto(events);
      if ok {
        assert Spawned() == done;
      } else {
        RecordTheRest();
      }
    }
  }

  /** The writes spawned are those of the first `i` events, which are all groups. */
  ghost predicate Follows(events: seq<Event>, i: nat, spawned: seq<Write>) {
    i <= |events| && spawned == Writes(events[..i]) && NoStreamError(events[..i])
  }

  lemma NextEvent(events: seq<Event>, i: nat, spawned: seq<Write>)
    requires Follows(events, i, spawned) && i < |events|
    ensures spawned <= Writes(events) && (AllWrote(Writes(events)) ==> AllWrote(spawned))
    ensures if events[i].StreamError? then !NoStreamError(events) else Follows(events, i + 1, spawned + [events[i].write])
  {
    assert events[..i + 1][..i] == events[..i];
    WritesPrefix(events, i);
    if events[i].Group? {
      assert events[..i + 1] == events[..i] + [events[i]];
    }
  }

  lemma {:induction false} WritesPrefix(events: seq<Event>, i: nat)
    requires i <= |events|
    ensures Writes(events[..i]) <= Writes(events)
    decreases |events|
  {
    if i == |events| {
      assert events[..i] == events;
    } else {
      var front := events[..|events| - 1];
      WritesPrefix(front, i);
      assert front[..i] == events[..i];
    }
  }

  /** Every path of a write that produced metadata is among those recorded. */
  lemma {:induction false} EveryFileIsRecorded(writes: seq<Write>, i: nat, p: Path)
    requires i < |writes| && writes[i].wrote.Some? && p in writes[i].wrote.value
    ensures p in Flat(Files(writes))
  {
    FlatConcat(FilesOf(writes[0]), Files(writes[1..]));
    if i == 0 {
      assert Flat([writes[0].wrote.value]) == writes[0].wrote.value + Flat([]);
    } else {
      EveryFileIsRecorded(writes[1..], i - 1, p);
    }
  }

  // --------------------------------------------------------- the commit's answer

  /** What the commit call answers. */
  datatype Reply =
    | Confirmed(version: nat)
    | LostRace
    | TableUnchanged        // the kernel's retryable transaction
    | PreconditionFailed    // a put-if-absent refused as a 412
    | StoreError
    | Status(code: nat)     // the catalog's HTTP status
    | AuthenticationFailed
    | TableNotFound
    | TooManyUnpublished
    | TimedOut
    | ConflictWords
    | OtherError

  datatype Error =
    | CommitConflict
    | Retryable
    | BackfillRequired
    | CatalogPermission
    | CatalogNotFound
    | CatalogRejected
    | KernelError
    | Invalid

  /** `finish_commit_as` and `classify_kernel_commit_error`. */
  function Classified(reply: Reply): Option<Error> {
    match reply
    case Confirmed(_) => None
    case LostRace => Some(CommitConflict)
    case TableUnchanged => Some(Retryable)
    case PreconditionFailed => Some(CommitConflict)
    case StoreError => Some(KernelError)
    case Status(code) =>
      Some(if code == 429 then BackfillRequired
           else if code == 409 then CommitConflict
           else if code == 401 || code == 403 then CatalogPermission
           else if code == 404 then CatalogNotFound
           else if ServerError(code) then Retryable
           else CatalogRejected)
    case AuthenticationFailed => Some(CatalogPermission)
    case TableNotFound => Some(CatalogNotFound)
    case TooManyUnpublished => Some(BackfillRequired)
    case TimedOut => Some(Retryable)
    case ConflictWords => Some(CommitConflict)
    case OtherError => Some(Invalid)
  }

  predicate ServerError(code: nat) {
    500 <= code <= 599
  }

  predicate NeverCommitted(e: Error) {
    e.CommitConflict? || e.Retryable? || e.BackfillRequired? || e.CatalogPermission? || e.CatalogNotFound?
  }

  /**
   * What becomes of the request: refused before anything is put, put and answered (with this
   * reply if the version is taken), or put or not with the answer lost.
   */
  datatype Fate =
    | Refused(reply: Reply)
    | Answered(conflict: Reply)
    | AnswerLost(executed: bool, reply: Reply)

  /** Which replies each fate can bring. */
  predicate Possible(fate: Fate) {
    match fate
    case Refused(r) =>
      || r.TableUnchanged? || r.AuthenticationFailed? || r.TableNotFound? || r.TooManyUnpublished?
      || (r.Status? && r.code != 409 && !ServerError(r.code))
    case Answered(r) => r.LostRace? || r.PreconditionFailed? || r.ConflictWords? || r == Status(409)
    case AnswerLost(_, r) => r.StoreError? || r.TimedOut? || r.OtherError? || (r.Status? && ServerError(r.code))
  }

  predicate Executed(fate: Fate) {
    fate.Answered? || (fate.AnswerLost? && fate.executed)
  }

  /** The log after the request, and what it answers. */
  function Requested(log: Log, version: nat, c: Commit, fate: Fate): (Log, Reply) {
    var landed := Executed(fate) && |log| == version;
    (if landed then log + [c] else log,
     if fate.Answered? then (if landed then Confirmed(version) else fate.conflict) else fate.reply)
  }

  /** `stage_and_commit`: what is deleted. */
  function Deleted(staged: bool, written: seq<Path>, reply: Reply): seq<Path> {
    if !staged then written
    else
      match Classified(reply)
      case Some(e) => if NeverCommitted(e) then written else []
      case None => []
  }

  function Names(paths: seq<Path>): set<Path> {
    set p | p in paths
  }

  /** The commit of a transaction built on the version before: other writers' commits may come first. */
  method Request(store: Store, version: nat, c: Commit, between: Log, fate: Fate) returns (reply: Reply)
    requires store.Contiguous() && 0 < version <= |store.Log()|
    modifies store
    ensures store.Contiguous() && (store.Log(), reply) == Requested(old(store.Log()) + between, version, c, fate)
  {
    match fate {
      case Refused(r) =>
        store.Others(between);
        reply := r;
      case Answered(conflict) =>
        var ok := store.CommitRaw(version, c, between);
        reply := if ok then Confirmed(version) else conflict;
      case AnswerLost(executed, r) =>
        if executed {
          var _ := store.CommitRaw(version, c, between);
        } else {
          store.Others(between);
        }
        reply := r;
    }
  }

  method StageAndCommit(stager: Stager, store: Store, events: seq<Event>, version: nat, removes: set<Path>, between: Log, fate: Fate)
    returns (error: Option<Error>, staged: bool, deleted: seq<Path>)
    requires stager.Fresh() && store.Contiguous() && 0 < version <= |store.Log()|
    modifies stager, store
    ensures staged <==> NoStreamError(events) && AllWrote(Writes(events))
    ensures store.Contiguous() && stager.written == Flat(Files(if staged then Writes(events) else stager.Spawned()))
    ensures !staged ==> store.Log() == old(store.Log()) && deleted == stager.written
    ensures staged ==>
              var (log, reply) := Requested(old(store.Log()) + between, version, Commit(Names(stager.written), removes), fate);
              store.Log() == log && error == Classified(reply) && deleted == Deleted(true, stager.written, reply)
  {
    deleted := [];
    staged := stager.StageStream(events);
    if !staged {
      return Some(KernelError), staged, stager.written;
    }
    var reply := Request(store, version, Commit(Names(stager.written), removes), between, fate);
    error := Classified(reply);
    if error.Some? && NeverCommitted(error.value) {
      deleted := stager.written;
    }
  }

  lemma NamesLand(log: Log, c: Commit, written: seq<Path>)
    requires Untouched(log, Names(written)) && c.adds == Names(written)
    ensures Untouched(log + [c], Names(written)) <==> written == []
  {
    var both := log + [c];
    forall v | 0 <= v < |log| ensures !Touches(both, v, Names(written)) {
      assert both[v] == log[v] && !Touches(log, v, Names(written));
    }
    if written != [] {
      assert written[0] in both[|log|].adds * Names(written) && Touches(both, |log|, Names(written));
    }
  }

  /**
   * Files a version references are deleted if and only if the request was carried out on a free
   * version and its answer, lost to a timeout or a server error, was taken for a certain failure.
   */
  lemma DeletesCommittedExactlyWhen(log: Log, version: nat, removes: set<Path>, written: seq<Path>, fate: Fate)
    requires Possible(fate) && Untouched(log, Names(written))
    ensures var (after, reply) := Requested(log, version, Commit(Names(written), removes), fate);
            var deleted := Deleted(true, written, reply);
            !Untouched(after, Names(deleted)) <==>
            && written != [] && |log| == version && fate.AnswerLost? && fate.executed
            && (fate.reply.TimedOut? || fate.reply.Status?)
  {
    NamesLand(log, Commit(Names(written), removes), written);
    assert Names([]) == {};
  }

  /** Some fate of the request brings this reply, and the cleanup after it deletes a file that a version references. */
  ghost predicate CanDeleteCommitted(reply: Reply) {
    exists log, version, removes, written, fate :: DeletesCommitted(log, version, removes, written, fate, reply)
  }

  ghost predicate DeletesCommitted(log: Log, version: nat, removes: set<Path>, written: seq<Path>, fate: Fate, reply: Reply) {
    && Possible(fate) && Untouched(log, Names(written))
    && var (after, answer) := Requested(log, version, Commit(Names(written), removes), fate);
       answer == reply && !Untouched(after, Names(Deleted(true, written, answer)))
  }

  /**
   * What can be told from the answer: the cleanup after it can delete a committed file if and only
   * if it is a timeout or a server error.
   */
  lemma AnswerCanDeleteCommittedExactlyWhen(reply: Reply)
    ensures CanDeleteCommitted(reply) <==> reply.TimedOut? || (reply.Status? && ServerError(reply.code))
  {
    if reply.TimedOut? || (reply.Status? && ServerError(reply.code)) {
      var fate := AnswerLost(true, reply);
      DeletesCommittedExactlyWhen([], 0, {}, ["part-0"], fate);
      assert DeletesCommitted([], 0, {}, ["part-0"], fate, reply);
    }
    forall log, version, removes, written, fate | DeletesCommitted(log, version, removes, written, fate, reply)
      ensures reply.TimedOut? || (reply.Status? && ServerError(reply.code))
    {
      DeletesCommittedExactlyWhen(log, version, removes, written, fate);
    }
  }

  /**
   * Where the answer is known, the cleanup is exact: the files are deleted if and only if no
   * version references them, except that a refusal with an unlisted status keeps them.
   */
  lemma CleanupIsExactWhenAnswered(log: Log, version: nat, removes: set<Path>, written: seq<Path>, fate: Fate)
    requires Possible(fate) && !fate.AnswerLost? && Untouched(log, Names(written)) && written != []
    ensures var (after, reply) := Requested(log, version, Commit(Names(written), removes), fate);
            var deleted := Deleted(true, written, reply);
            && (Classified(reply) != Some(CatalogRejected) ==> (deleted == written <==> Untouched(after, Names(written))))
            && (Classified(reply) == Some(CatalogRejected) ==> deleted == [] && after == log)
            && (deleted == written || deleted == [])
  {
    NamesLand(log, Commit(Names(written), removes), written);
  }

  /** A timeout that landed: the files the new version references are deleted. */
  lemma TimeoutDeletesCommitted()
    ensures var (after, reply) := Requested([Commit({}, {})], 1, Commit({"part-0"}, {}), AnswerLost(true, TimedOut));
            Deleted(true, ["part-0"], reply) == ["part-0"] && Live(after) == {"part-0"}
  {
    var first, second := Commit({}, {}), Commit({"part-0"}, {});
    assert [first] + [second] == [first, second] && [first, second][..1] == [first];
    assert [first][..0] == [] && Live([first]) == ({} - {}) + {};
    assert Live([first, second]) == (Live([first]) - second.removes) + second.adds;
  }
}
