/** Version checksums: a summary of the table, advanced over one commit at a time. */
module Checksum {
  import opened Wrappers

  /** A file is its path and its deletion vector: another vector is another logical file. */
  datatype FileKey = FileKey(path: string, vector: Option<string>)

  datatype Meta = Meta(content: string, ictEnabled: bool)
  datatype Domain = Domain(name: string, config: string, removed: bool)
  datatype Txn = Txn(app: string, version: int)

  datatype Action =
    | Add(key: FileKey, size: Option<int>)
    | Remove(key: FileKey, size: Option<int>)
    | Cdc
    | MetaData(meta: Meta)
    | Protocol(protocol: string)
    | DomainMetadata(domain: Domain)
    | SetTransaction(txn: Txn)
    | CommitInfo(operation: Option<string>, ict: Option<int>)

  /** A histogram, none, or one whose fields are not of the shape it should have. */
  datatype Histogram = NoBins | BadBins | Bins(bounds: seq<int>, counts: seq<int>, sizes: seq<int>)

  /** The fields of a `.crc` file; an absent field is None. */
  datatype Summary = Summary(
    numFiles: Option<int>, tableSizeBytes: Option<int>, histogram: Histogram,
    metadata: Option<Meta>, protocol: Option<string>,
    domains: Option<seq<Domain>>, txns: Option<seq<Txn>>, ict: Option<int>,
    vectors: Option<int>, allFiles: Option<map<FileKey, int>>, txnId: Option<string>)

  const INCREMENTAL_SAFE_OPS: set<string> := {
    "WRITE", "STREAMING UPDATE", "MERGE", "UPDATE", "DELETE", "OPTIMIZE", "CREATE TABLE", "REPLACE TABLE",
    "CREATE TABLE AS SELECT", "REPLACE TABLE AS SELECT", "CREATE OR REPLACE TABLE AS SELECT" }

  // ---------------------------------------------------------------- counting

  datatype Counter = Counter(files: int, bytes: int, histogram: Histogram, vectorsChanged: bool)

  predicate IsFileAction(a: Action) {
    a.Add? || a.Remove?
  }

  function Sign(a: Action): int {
    if a.Add? then 1 else -1
  }

  /** A histogram `count_files` can keep, or none at all. */
  predicate Keepable(h: Histogram) {
    match h
    case NoBins => true
    case BadBins => false
    case Bins(bounds, counts, sizes) => |bounds| > 0 && bounds[0] == 0 && |counts| == |bounds| && |sizes| == |bounds|
  }

  /** The last bin that starts at or below `size`. */
  function Bin(bounds: seq<int>, size: int): (bin: nat)
    requires |bounds| > 0
    ensures bin < |bounds|
  {
    if |bounds| == 1 then 0
    else if bounds[|bounds| - 1] <= size then |bounds| - 1
    else Bin(bounds[..|bounds| - 1], size)
  }

  function CountInto(h: Histogram, size: int, sign: int): (r: Histogram)
    requires Keepable(h)
    ensures Keepable(r)
  {
    match h
    case NoBins => NoBins
    case Bins(bounds, counts, sizes) =>
      var bin := Bin(bounds, size);
      Bins(bounds, counts[bin := counts[bin] + sign], sizes[bin := sizes[bin] + sign * size])
  }

  function CountOne(c: Counter, a: Action): (r: Option<Counter>)
    requires Keepable(c.histogram)
    ensures r.Some? ==> Keepable(r.value.histogram)
  {
    if !IsFileAction(a) then Some(c)
    else if a.size.None? || a.size.value < 0 then None
    else
      var size := a.size.value;
      Some(Counter(c.files + Sign(a), c.bytes + Sign(a) * size, CountInto(c.histogram, size, Sign(a)),
                   c.vectorsChanged || a.key.vector.Some?))
  }

  function CountAll(c: Counter, actions: seq<Action>): (r: Option<Counter>)
    requires Keepable(c.histogram)
    ensures r.Some? ==> Keepable(r.value.histogram)
    decreases |actions|
  {
    if actions == [] then Some(c)
    else
      match CountOne(c, actions[0])
      case Some(next) => CountAll(next, actions[1..])
      case None => None
  }

  function Operation(actions: seq<Action>): Option<string> {
    if actions == [] then None
    else if actions[0].CommitInfo? then actions[0].operation
    else Operation(actions[1..])
  }

  predicate SafeOperation(actions: seq<Action>) {
    Operation(actions).Some? && Operation(actions).value in INCREMENTAL_SAFE_OPS
  }

  predicate Negative(h: Histogram) {
    h.Bins? && ((exists i :: 0 <= i < |h.counts| && h.counts[i] < 0) || (exists i :: 0 <= i < |h.sizes| && h.sizes[i] < 0))
  }

  /** `count_files`; None where it returns false. */
  function CountFiles(s: Summary, actions: seq<Action>): Option<Summary> {
    if !SafeOperation(actions) || s.numFiles.None? || s.tableSizeBytes.None? || !Keepable(s.histogram) then None
    else
      match CountAll(Counter(s.numFiles.value, s.tableSizeBytes.value, s.histogram, false), actions)
      case None => None
      case Some(c) =>
        if c.files < 0 || c.bytes < 0 || Negative(c.histogram) then None
        else
          Some(s.(numFiles := Some(c.files), tableSizeBytes := Some(c.bytes), histogram := c.histogram,
                  allFiles := None, vectors := if c.vectorsChanged then None else s.vectors))
  }

  // ------------------------------------------------------------- other fields

  /** The items whose key is not `id`. */
  function Retain<T, K(==)>(items: seq<T>, key: T -> K, id: K): seq<T> {
    if items == [] then []
    else (if key(items[0]) != id then [items[0]] else []) + Retain(items[1..], key, id)
  }

  /** `upsert`: replace, or drop, the entry of `entry`'s key; an absent list stays absent. */
  function Upsert<T, K(==)>(items: Option<seq<T>>, key: T -> K, entry: T, removed: bool): Option<seq<T>> {
    match items
    case None => None
    case Some(list) => Some(Retain(list, key, key(entry)) + if removed then [] else [entry])
  }

  function DomainName(): Domain -> string {
    (d: Domain) => d.name
  }

  function TxnApp(): Txn -> string {
    (t: Txn) => t.app
  }

  function AdvanceOne(s: Summary, a: Action): Summary {
    match a
    case MetaData(meta) => s.(metadata := Some(meta))
    case Protocol(p) => s.(protocol := Some(p))
    case CommitInfo(_, ict) => s.(ict := ict)
    case DomainMetadata(d) => s.(domains := Upsert(s.domains, DomainName(), d, d.removed))
    case SetTransaction(t) => s.(txns := Upsert(s.txns, TxnApp(), t, false))
    case _ => s
  }

  function AdvanceAll(s: Summary, actions: seq<Action>): Summary
    decreases |actions|
  {
    if actions == [] then s else AdvanceAll(AdvanceOne(s, actions[0]), actions[1..])
  }

  predicate FilesChanged(actions: seq<Action>) {
    exists i :: 0 <= i < |actions| && IsFileAction(actions[i])
  }

  predicate IctEnabled(s: Summary) {
    s.metadata.Some? && s.metadata.value.ictEnabled
  }

  /** `carry_forward`: the next version's summary, or None where none is written. */
  function CarryForward(s: Summary, actions: seq<Action>): Option<Summary> {
    var counted := if FilesChanged(actions) then CountFiles(s, actions) else Some(s);
    match counted
    case None => None
    case Some(c) =>
      var r := AdvanceAll(c.(txnId := None, ict := None), actions);
      if r.ict.None? && IctEnabled(r) then None else Some(r)
  }

  /** What `first_commit` collects of one line. */
  function FirstOne(s: Summary, a: Action): Option<Summary>
    requires s.numFiles.Some? && s.tableSizeBytes.Some? && s.domains.Some? && s.txns.Some?
  {
    match a
    case Add(_, size) =>
      if size.None? || size.value < 0 then None
      else Some(s.(numFiles := Some(s.numFiles.value + 1), tableSizeBytes := Some(s.tableSizeBytes.value + size.value)))
    case Remove(_, _) => None
    case Cdc => None
    case MetaData(meta) => Some(s.(metadata := Some(meta)))
    case Protocol(p) => Some(s.(protocol := Some(p)))
    case DomainMetadata(d) => Some(if d.removed then s else s.(domains := Some(s.domains.value + [d])))
    case SetTransaction(t) => Some(s.(txns := Some(s.txns.value + [t])))
    case CommitInfo(_, ict) => Some(s.(ict := ict))
  }

  function FirstAll(s: Summary, actions: seq<Action>): (r: Option<Summary>)
    requires s.numFiles.Some? && s.tableSizeBytes.Some? && s.domains.Some? && s.txns.Some?
    decreases |actions|
  {
    if actions == [] then Some(s)
    else
      match FirstOne(s, actions[0])
      case Some(next) => FirstAll(next, actions[1..])
      case None => None
  }

  const NOTHING: Summary :=
    Summary(Some(0), Some(0), NoBins, None, None, Some([]), Some([]), None, None, None, None)

  /** `first_commit`. */
  function FirstCommit(actions: seq<Action>): Option<Summary> {
    match FirstAll(NOTHING, actions)
    case None => None
    case Some(r) =>
      if r.metadata.None? || r.protocol.None? || (r.ict.None? && IctEnabled(r)) then None else Some(r)
  }

  // -------------------------------------------------------- the imperative form

  /** The checksum's JSON object, updated in place. */
  class Crc {
    var numFiles: Option<int>
    var tableSizeBytes: Option<int>
    var histogram: Histogram
    var metadata: Option<Meta>
    var protocol: Option<string>
    var domains: Option<seq<Domain>>
    var txns: Option<seq<Txn>>
    var ict: Option<int>
    var vectors: Option<int>
    var allFiles: Option<map<FileKey, int>>
    var txnId: Option<string>

    constructor (s: Summary)
      ensures Contents() == s
    {
      numFiles, tableSizeBytes, histogram := s.numFiles, s.tableSizeBytes, s.histogram;
      metadata, protocol, domains, txns := s.metadata, s.protocol, s.domains, s.txns;
      ict, vectors, allFiles, txnId := s.ict, s.vectors, s.allFiles, s.txnId;
    }

    function Contents(): Summary
      reads this
    {
      Summary(numFiles, tableSizeBytes, histogram, metadata, protocol, domains, txns, ict, vectors, allFiles, txnId)
    }

    method CountFilesOf(actions: seq<Action>) returns (ok: bool)
      modifies this
      ensures ok == CountFiles(old(Contents()), actions).Some?
      ensures Contents() == if ok then CountFiles(old(Contents()), actions).value else old(Contents())
    {
      if !SafeOperation(actions) || numFiles.None? || tableSizeBytes.None? || !Keepable(histogram) {
        return false;
      }
      var files, bytes, bins, vectorsChanged := numFiles.value, tableSizeBytes.value, histogram, false;
      var i := 0;
      while i < |actions|
        invariant 0 <= i <= |actions| && Keepable(bins)
        invariant CountAll(Counter(files, bytes, bins, vectorsChanged), actions[i..])
               == CountAll(Counter(numFiles.value, tableSizeBytes.value, histogram, false), actions)
      {
        var a := actions[i];
        assert actions[i..][0] == a && actions[i..][1..] == actions[i + 1..];
        if IsFileAction(a) {
          if a.size.None? || a.size.value < 0 {
            return false;
          }
          var size := a.size.value;
          files := files + Sign(a);
          bytes := bytes + Sign(a) * size;
          bins := CountInto(bins, size, Sign(a));
          vectorsChanged := vectorsChanged || a.key.vector.Some?;
        }
        i := i + 1;
      }
      if files < 0 || bytes < 0 || Negative(bins) {
        return false;
      }
      numFiles, tableSizeBytes, histogram, allFiles := Some(files), Some(bytes), bins, None;
      if vectorsChanged {
        vectors := None;
      }
      return true;
    }

    method UpsertDomain(d: Domain)
      modifies this
      ensures Contents() == old(Contents()).(domains := Upsert(old(domains), DomainName(), d, d.removed))
    {
      if domains.Some? {
        var kept := RetainLoop(domains.value, DomainName(), d.name);
        domains := Some(kept + if d.removed then [] else [d]);
      }
    }

    method UpsertTxn(t: Txn)
      modifies this
      ensures Contents() == old(Contents()).(txns := Upsert(old(txns), TxnApp(), t, false))
    {
      if txns.Some? {
        var kept := RetainLoop(txns.value, TxnApp(), t.app);
        txns := Some(kept + [t]);
      }
    }

    /** The checksum is this one's successor when `ok`; otherwise nothing is written. */
    method CarryForwardOver(actions: seq<Action>) returns (ok: bool)
      modifies this
      ensures ok == CarryForward(old(Contents()), actions).Some?
      ensures ok ==> Contents() == CarryForward(old(Contents()), actions).value
    {
      if FilesChanged(actions) {
        var counted := CountFilesOf(actions);
        if !counted {
          return false;
        }
      }
      txnId, ict := None, None;
      ghost var start := Contents();
      var i := 0;
      while i < |actions|
        invariant 0 <= i <= |actions|
        invariant AdvanceAll(Contents(), actions[i..]) == AdvanceAll(start, actions)
      {
        assert actions[i..][0] == actions[i] && actions[i..][1..] == actions[i + 1..];
        ghost var before := Contents();
        match actions[i] {
          case MetaData(meta) => metadata := Some(meta);
          case Protocol(p) => protocol := Some(p);
          case CommitInfo(_, timestamp) => ict := timestamp;
          case DomainMetadata(d) => UpsertDomain(d);
          case SetTransaction(t) => UpsertTxn(t);
          case _ =>
        }
        assert Contents() == AdvanceOne(before, actions[i]);
        i := i + 1;
      }
      return !(ict.None? && metadata.Some? && metadata.value.ictEnabled);
    }
  }

  method RetainLoop<T, K(==)>(items: seq<T>, key: T -> K, id: K) returns (kept: seq<T>)
    ensures kept == Retain(items, key, id)
  {
    kept := [];
    var i := 0;
    while i < |items|
      invariant 0 <= i <= |items|
      invariant kept + Retain(items[i..], key, id) == Retain(items, key, id)
    {
      assert items[i..][0] == items[i] && items[i..][1..] == items[i + 1..];
      if key(items[i]) != id {
        Associates(kept, [items[i]], Retain(items[i + 1..], key, id));
        kept := kept + [items[i]];
      } else {
        assert [] + Retain(items[i + 1..], key, id) == Retain(items[i + 1..], key, id);
      }
      i := i + 1;
    }
  }

  /** `first_commit`'s pass over version 0. */
  method FirstCommitOf(actions: seq<Action>) returns (s: Option<Summary>)
    ensures s == FirstCommit(actions)
  {
    var r := NOTHING;
    var i := 0;
    while i < |actions|
      invariant 0 <= i <= |actions|
      invariant r.numFiles.Some? && r.tableSizeBytes.Some? && r.domains.Some? && r.txns.Some?
      invariant FirstAll(r, actions[i..]) == FirstAll(NOTHING, actions)
    {
      assert actions[i..][0] == actions[i] && actions[i..][1..] == actions[i + 1..];
      match FirstOne(r, actions[i]) {
        case Some(next) => r := next;
        case None => return None;
      }
      i := i + 1;
    }
    if r.metadata.None? || r.protocol.None? || (r.ict.None? && IctEnabled(r)) {
      return None;
    }
    return Some(r);
  }
}
