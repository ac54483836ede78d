/** The incremental checksum is what a replay of the whole log would give. */
module ChecksumReplay {
  import opened Wrappers
  import opened Checksum

  type Files = map<FileKey, int>

  /** The table a replay reconstructs (Delta Transaction Log Protocol, "Action Reconciliation"). */
  datatype State = State(
    live: Files, metadata: Option<Meta>, protocol: Option<string>,
    domains: map<string, Domain>, txns: map<string, Txn>)

  const EMPTY_STATE: State := State(map[], None, None, map[], map[])

  function SizeOf(a: Action): int
    requires IsFileAction(a)
  {
    if a.size.Some? then a.size.value else 0
  }

  function ReplayOne(st: State, a: Action): State {
    match a
    case Add(key, _) => st.(live := st.live[key := SizeOf(a)])
    case Remove(key, _) => st.(live := st.live - {key})
    case MetaData(meta) => st.(metadata := Some(meta))
    case Protocol(p) => st.(protocol := Some(p))
    case DomainMetadata(d) => st.(domains := if d.removed then st.domains - {d.name} else st.domains[d.name := d])
    case SetTransaction(t) => st.(txns := st.txns[t.app := t])
    case Cdc => st
    case CommitInfo(_, _) => st
  }

  function ReplayAll(st: State, actions: seq<Action>): State
    decreases |actions|
  {
    if actions == [] then st else ReplayAll(ReplayOne(st, actions[0]), actions[1..])
  }

  function Replay(log: seq<seq<Action>>): State {
    if log == [] then EMPTY_STATE else ReplayAll(Replay(log[..|log| - 1]), log[|log| - 1])
  }

  // ------------------------------------------------------------------ sums

  /** The sum of `w` over the live files. */
  ghost function Sum(m: Files, w: (FileKey, int) -> int): int {
    if m == map[] then 0
    else
      var k :| k in m;
      w(k, m[k]) + Sum(m - {k}, w)
  }

  lemma {:induction false} SumWithout(m: Files, k: FileKey, w: (FileKey, int) -> int)
    requires k in m
    ensures Sum(m, w) == w(k, m[k]) + Sum(m - {k}, w)
    decreases |m|
  {
    var j :| j in m && Sum(m, w) == w(j, m[j]) + Sum(m - {j}, w);
    if j != k {
      SumWithout(m - {j}, k, w);
      SumWithout(m - {k}, j, w);
      assert m - {j} - {k} == m - {k} - {j};
    }
  }

  lemma SumWith(m: Files, k: FileKey, size: int, w: (FileKey, int) -> int)
    requires k !in m
    ensures Sum(m[k := size], w) == Sum(m, w) + w(k, size)
  {
    SumWithout(m[k := size], k, w);
    assert m[k := size] - {k} == m;
  }

  lemma {:induction false} SumIsNatural(m: Files, w: (FileKey, int) -> int)
    requires forall k :: k in m ==> w(k, m[k]) >= 0
    ensures Sum(m, w) >= 0
    decreases |m|
  {
    if m != map[] {
      var k :| k in m && Sum(m, w) == w(k, m[k]) + Sum(m - {k}, w);
      SumIsNatural(m - {k}, w);
    }
  }

  function One(): (FileKey, int) -> int {
    (_, _) => 1
  }

  function Size(): (FileKey, int) -> int {
    (_, size) => size
  }

  function Vector(): (FileKey, int) -> int {
    (k: FileKey, _) => if k.vector.Some? then 1 else 0
  }

  /** Bin `i` holds the sizes from its boundary up to the next. */
  predicate InBin(bounds: seq<int>, i: nat, size: int)
    requires i < |bounds|
  {
    bounds[i] <= size && (i + 1 < |bounds| ==> size < bounds[i + 1])
  }

  function BinCount(bounds: seq<int>, i: nat): (FileKey, int) -> int {
    (_, size) => if i < |bounds| && InBin(bounds, i, size) then 1 else 0
  }

  function BinSize(bounds: seq<int>, i: nat): (FileKey, int) -> int {
    (_, size) => if i < |bounds| && InBin(bounds, i, size) then size else 0
  }

  // ------------------------------------------------------------ a true summary

  ghost predicate Sorted(bounds: seq<int>) {
    forall i, j :: 0 <= i < j < |bounds| ==> bounds[i] < bounds[j]
  }

  /** Every bin holds exactly the live files of its sizes. */
  ghost predicate BinsTrue(h: Histogram, live: Files) {
    && Keepable(h)
    && (h.Bins? ==>
          && Sorted(h.bounds)
          && (forall i :: 0 <= i < |h.counts| ==> h.counts[i] == Sum(live, BinCount(h.bounds, i)))
          && (forall i :: 0 <= i < |h.sizes| ==> h.sizes[i] == Sum(live, BinSize(h.bounds, i))))
  }

  /** The list holds one entry per key of the map, and the map's own. */
  ghost predicate Lists<T, K>(items: seq<T>, key: T -> K, m: map<K, T>) {
    && (forall i :: 0 <= i < |items| ==> key(items[i]) in m && m[key(items[i])] == items[i])
    && (forall k :: k in m ==> exists i :: 0 <= i < |items| && key(items[i]) == k)
    && (forall i, j :: 0 <= i < j < |items| ==> key(items[i]) != key(items[j]))
  }

  ghost predicate Sized(live: Files) {
    forall k :: k in live ==> live[k] >= 0
  }

  /** What the summary says of the table is so; an optional field may be left out. */
  ghost predicate True(s: Summary, st: State) {
    && Sized(st.live)
    && s.numFiles == Some(Sum(st.live, One()))
    && s.tableSizeBytes == Some(Sum(st.live, Size()))
    && BinsTrue(s.histogram, st.live)
    && s.metadata == st.metadata && s.protocol == st.protocol
    && (s.domains.Some? ==> Lists(s.domains.value, DomainName(), st.domains))
    && (s.txns.Some? ==> Lists(s.txns.value, TxnApp(), st.txns))
    && (s.vectors.Some? ==> s.vectors.value == Sum(st.live, Vector()))
    && (s.allFiles.Some? ==> s.allFiles.value == st.live)
  }

  /** An action a well-formed commit may hold next: it adds no live file and removes one as it is. */
  predicate WellFormedOne(st: State, a: Action) {
    match a
    case Add(key, size) => key !in st.live && (size.Some? ==> size.value >= 0)
    case Remove(key, size) => key in st.live && (size.Some? ==> size.value == st.live[key])
    case _ => true
  }

  predicate WellFormed(st: State, actions: seq<Action>)
    decreases |actions|
  {
    actions != [] ==> WellFormedOne(st, actions[0]) && WellFormed(ReplayOne(st, actions[0]), actions[1..])
  }

  // ---------------------------------------------------------------- counting

  ghost predicate CounterTrue(c: Counter, live: Files, vectors: int) {
    && Sized(live) && c.files == Sum(live, One()) && c.bytes == Sum(live, Size())
    && BinsTrue(c.histogram, live)
    && (!c.vectorsChanged ==> Sum(live, Vector()) == vectors)
  }

  lemma {:induction false} BinIsItsRange(bounds: seq<int>, size: int, i: nat)
    requires Sorted(bounds) && |bounds| > 0 && bounds[0] <= size && i < |bounds|
    ensures Bin(bounds, size) == i <==> InBin(bounds, i, size)
    decreases |bounds|
  {
    var last := |bounds| - 1;
    if last > 0 && size < bounds[last] {
      var front := bounds[..last];
      assert Bin(bounds, size) == Bin(front, size);
      if i < last {
        BinIsItsRange(front, size, i);
      }
    }
  }

  /** A file coming or going moves every sum by its own weight. */
  lemma SumMoves(live: Files, a: Action, w: (FileKey, int) -> int)
    requires IsFileAction(a) && a.size.Some?
    requires WellFormedOne(State(live, None, None, map[], map[]), a)
    ensures var after := if a.Add? then live[a.key := a.size.value] else live - {a.key};
            Sum(after, w) == Sum(live, w) + Sign(a) * w(a.key, a.size.value)
  {
    if a.Add? {
      SumWith(live, a.key, a.size.value, w);
    } else {
      SumWithout(live, a.key, w);
    }
  }

  function After(live: Files, a: Action): Files
    requires IsFileAction(a) && a.size.Some?
  {
    if a.Add? then live[a.key := a.size.value] else live - {a.key}
  }

  lemma BinsMove(h: Histogram, live: Files, a: Action)
    requires IsFileAction(a) && a.size.Some? && a.size.value >= 0 && BinsTrue(h, live)
    requires WellFormedOne(State(live, None, None, map[], map[]), a)
    ensures BinsTrue(CountInto(h, a.size.value, Sign(a)), After(live, a))
  {
    if h.Bins? {
      var size := a.size.value;
      var bin := Bin(h.bounds, size);
      var r := CountInto(h, size, Sign(a));
      forall i | 0 <= i < |h.bounds|
        ensures r.counts[i] == Sum(After(live, a), BinCount(h.bounds, i))
        ensures r.sizes[i] == Sum(After(live, a), BinSize(h.bounds, i))
      {
        BinIsItsRange(h.bounds, size, i);
        SumMoves(live, a, BinCount(h.bounds, i));
        SumMoves(live, a, BinSize(h.bounds, i));
      }
    }
  }

  lemma CountOneKeeps(c: Counter, st: State, a: Action, vectors: int)
    requires CounterTrue(c, st.live, vectors) && WellFormedOne(st, a) && CountOne(c, a).Some?
    ensures CounterTrue(CountOne(c, a).value, ReplayOne(st, a).live, vectors)
  {
    if IsFileAction(a) {
      BinsMove(c.histogram, st.live, a);
      SumMoves(st.live, a, One());
      SumMoves(st.live, a, Size());
      SumMoves(st.live, a, Vector());
    }
  }

  lemma {:induction false} CountAllKeeps(c: Counter, st: State, actions: seq<Action>, vectors: int)
    requires CounterTrue(c, st.live, vectors) && WellFormed(st, actions) && CountAll(c, actions).Some?
    ensures CounterTrue(CountAll(c, actions).value, ReplayAll(st, actions).live, vectors)
    decreases |actions|
  {
    if actions != [] {
      CountOneKeeps(c, st, actions[0], vectors);
      CountAllKeeps(CountOne(c, actions[0]).value, ReplayOne(st, actions[0]), actions[1..], vectors);
    }
  }

  lemma {:induction false} NoFilesNoChange(st: State, actions: seq<Action>)
    requires !FilesChanged(actions)
    ensures ReplayAll(st, actions).live == st.live
    decreases |actions|
  {
    if actions != [] {
      assert !IsFileAction(actions[0]);
      assert forall i :: 0 <= i < |actions[1..]| ==> actions[1..][i] == actions[i + 1];
      NoFilesNoChange(ReplayOne(st, actions[0]), actions[1..]);
    }
  }

  // ------------------------------------------------------------- other fields

  lemma {:induction false} RetainHas<T, K>(items: seq<T>, key: T -> K, id: K, x: T)
    ensures x in Retain(items, key, id) <==> x in items && key(x) != id
  {
    if items != [] {
      RetainHas(items[1..], key, id, x);
      assert items == [items[0]] + items[1..];
    }
  }

  /** What is kept: every entry of another key, and no other. */
  lemma RetainKeeps<T, K>(items: seq<T>, key: T -> K, id: K)
    ensures var r := Retain(items, key, id);
            && (forall j :: 0 <= j < |r| ==> key(r[j]) != id && r[j] in items)
            && (forall i :: 0 <= i < |items| && key(items[i]) != id ==> items[i] in r)
  {
    var r := Retain(items, key, id);
    forall j | 0 <= j < |r| ensures key(r[j]) != id && r[j] in items {
      RetainHas(items, key, id, r[j]);
    }
    forall i | 0 <= i < |items| && key(items[i]) != id ensures items[i] in r {
      RetainHas(items, key, id, items[i]);
    }
  }

  lemma {:induction false} RetainKeepsOnce<T, K>(items: seq<T>, key: T -> K, id: K)
    requires forall i, j :: 0 <= i < j < |items| ==> key(items[i]) != key(items[j])
    ensures var r := Retain(items, key, id);
            forall i, j :: 0 <= i < j < |r| ==> key(r[i]) != key(r[j])
  {
    if items != [] {
      var rest := items[1..];
      assert forall i :: 0 <= i < |rest| ==> rest[i] == items[i + 1];
      var kept := Retain(rest, key, id);
      RetainKeeps(rest, key, id);
      forall j | 0 <= j < |kept| ensures key(items[0]) != key(kept[j]) {
        var i :| 0 <= i < |rest| && rest[i] == kept[j];
        assert items[i + 1] == kept[j];
      }
      RetainKeepsOnce(rest, key, id);
    }
  }

  lemma RetainLists<T, K>(items: seq<T>, key: T -> K, m: map<K, T>, id: K)
    requires Lists(items, key, m)
    ensures Lists(Retain(items, key, id), key, m - {id})
  {
    RetainKeeps(items, key, id);
    RetainKeepsOnce(items, key, id);
    var kept := Retain(items, key, id);
    forall j | 0 <= j < |kept| ensures key(kept[j]) in m - {id} && (m - {id})[key(kept[j])] == kept[j] {
      var i :| 0 <= i < |items| && items[i] == kept[j];
    }
    forall k | k in m - {id} ensures exists j :: 0 <= j < |kept| && key(kept[j]) == k {
      var i :| 0 <= i < |items| && key(items[i]) == k;
      var j :| 0 <= j < |kept| && kept[j] == items[i];
    }
  }

  lemma ListsGrows<T, K>(items: seq<T>, key: T -> K, m: map<K, T>, entry: T)
    requires Lists(items, key, m) && key(entry) !in m
    ensures Lists(items + [entry], key, m[key(entry) := entry])
  {
    var r, m' := items + [entry], m[key(entry) := entry];
    forall k | k in m' ensures exists i :: 0 <= i < |r| && key(r[i]) == k {
      if k == key(entry) {
        assert key(r[|items|]) == k;
      } else {
        var i :| 0 <= i < |items| && key(items[i]) == k;
        assert key(r[i]) == k;
      }
    }
  }

  lemma UpsertLists<T, K>(items: seq<T>, key: T -> K, m: map<K, T>, entry: T, removed: bool)
    requires Lists(items, key, m)
    ensures Lists(Upsert(Some(items), key, entry, removed).value, key,
                  if removed then m - {key(entry)} else m[key(entry) := entry])
  {
    var id := key(entry);
    RetainLists(items, key, m, id);
    var kept := Retain(items, key, id);
    if removed {
      assert kept + [] == kept;
    } else {
      ListsGrows(kept, key, m - {id}, entry);
      assert (m - {id})[id := entry] == m[id := entry];
    }
  }

  /** The fields the checksum takes from the other actions are those of the table. */
  ghost predicate FieldsTrue(s: Summary, st: State) {
    && s.metadata == st.metadata && s.protocol == st.protocol
    && (s.domains.Some? ==> Lists(s.domains.value, DomainName(), st.domains))
    && (s.txns.Some? ==> Lists(s.txns.value, TxnApp(), st.txns))
  }

  ghost predicate SameFiles(s: Summary, t: Summary) {
    && s.numFiles == t.numFiles && s.tableSizeBytes == t.tableSizeBytes && s.histogram == t.histogram
    && s.vectors == t.vectors && s.allFiles == t.allFiles
  }

  lemma AdvanceOneKeeps(s: Summary, st: State, a: Action)
    requires FieldsTrue(s, st)
    ensures FieldsTrue(AdvanceOne(s, a), ReplayOne(st, a)) && SameFiles(s, AdvanceOne(s, a))
  {
    match a
    case DomainMetadata(d) =>
      if s.domains.Some? {
        UpsertLists(s.domains.value, DomainName(), st.domains, d, d.removed);
      }
    case SetTransaction(t) =>
      if s.txns.Some? {
        UpsertLists(s.txns.value, TxnApp(), st.txns, t, false);
      }
    case _ =>
  }

  lemma {:induction false} AdvanceAllKeeps(s: Summary, st: State, actions: seq<Action>)
    requires FieldsTrue(s, st)
    ensures FieldsTrue(AdvanceAll(s, actions), ReplayAll(st, actions)) && SameFiles(s, AdvanceAll(s, actions))
    decreases |actions|
  {
    if actions != [] {
      AdvanceOneKeeps(s, st, actions[0]);
      AdvanceAllKeeps(AdvanceOne(s, actions[0]), ReplayOne(st, actions[0]), actions[1..]);
    }
  }

  // ------------------------------------------------------------- main results

  lemma CountFilesKeeps(s: Summary, st: State, actions: seq<Action>)
    requires True(s, st) && WellFormed(st, actions) && CountFiles(s, actions).Some?
    ensures var r, live := CountFiles(s, actions).value, ReplayAll(st, actions).live;
            && Sized(live) && r.numFiles == Some(Sum(live, One())) && r.tableSizeBytes == Some(Sum(live, Size()))
            && BinsTrue(r.histogram, live) && r.allFiles == None
            && (r.vectors.Some? ==> r.vectors.value == Sum(live, Vector()))
    ensures FieldsTrue(CountFiles(s, actions).value, st)
  {
    CountAllKeeps(Counter(s.numFiles.value, s.tableSizeBytes.value, s.histogram, false), st, actions, Sum(st.live, Vector()));
  }

  /** One commit on: a true checksum is carried to a true one, or none is written. */
  lemma CarryForwardKeeps(s: Summary, st: State, actions: seq<Action>)
    requires True(s, st) && (SafeOperation(actions) ==> WellFormed(st, actions))
    requires CarryForward(s, actions).Some?
    ensures True(CarryForward(s, actions).value, ReplayAll(st, actions))
    ensures CarryForward(s, actions).value.txnId == None
  {
    if FilesChanged(actions) {
      CountFilesKeeps(s, st, actions);
    } else {
      NoFilesNoChange(st, actions);
    }
    var counted := if FilesChanged(actions) then CountFiles(s, actions).value else s;
    AdvanceAllKeeps(counted.(txnId := None, ict := None), st, actions);
    TxnIdStaysOut(counted.(txnId := None, ict := None), actions);
  }

  lemma {:induction false} TxnIdStaysOut(s: Summary, actions: seq<Action>)
    ensures AdvanceAll(s, actions).txnId == s.txnId
    decreases |actions|
  {
    if actions != [] {
      TxnIdStaysOut(AdvanceOne(s, actions[0]), actions[1..]);
    }
  }

  /** In version 0 each domain and each application comes once. */
  predicate FirstWellFormedOne(st: State, a: Action) {
    match a
    case DomainMetadata(d) => d.name !in st.domains
    case SetTransaction(t) => t.app !in st.txns
    case _ => WellFormedOne(st, a)
  }

  predicate FirstWellFormed(st: State, actions: seq<Action>)
    decreases |actions|
  {
    actions != [] ==> FirstWellFormedOne(st, actions[0]) && FirstWellFormed(ReplayOne(st, actions[0]), actions[1..])
  }

  lemma FirstOneKeeps(s: Summary, st: State, a: Action)
    requires s.domains.Some? && s.txns.Some? && s.vectors.None? && s.allFiles.None? && s.histogram.NoBins?
    requires True(s, st) && FirstWellFormedOne(st, a) && FirstOne(s, a).Some?
    ensures True(FirstOne(s, a).value, ReplayOne(st, a))
  {
    match a
    case Add(_, _) =>
      SumMoves(st.live, a, One());
      SumMoves(st.live, a, Size());
    case DomainMetadata(d) =>
      if d.removed {
        assert st.domains - {d.name} == st.domains;
      } else {
        ListsGrows(s.domains.value, DomainName(), st.domains, d);
      }
    case SetTransaction(t) => ListsGrows(s.txns.value, TxnApp(), st.txns, t);
    case _ =>
  }

  lemma {:induction false} FirstAllKeeps(s: Summary, st: State, actions: seq<Action>)
    requires s.domains.Some? && s.txns.Some? && s.vectors.None? && s.allFiles.None? && s.histogram.NoBins?
    requires True(s, st) && FirstWellFormed(st, actions) && FirstAll(s, actions).Some?
    ensures True(FirstAll(s, actions).value, ReplayAll(st, actions))
    decreases |actions|
  {
    if actions != [] {
      FirstOneKeeps(s, st, actions[0]);
      FirstAllKeeps(FirstOne(s, actions[0]).value, ReplayOne(st, actions[0]), actions[1..]);
    }
  }

  /** The checksums of a log: version 0's own, then each carried from the one before. */
  function Chain(log: seq<seq<Action>>): Option<Summary>
    requires |log| > 0
  {
    if |log| == 1 then FirstCommit(log[0])
    else
      match Chain(log[..|log| - 1])
      case Some(s) => CarryForward(s, log[|log| - 1])
      case None => None
  }

  /** A log whose counted commits only add files that are not live and remove files that are. */
  predicate WellFormedLog(log: seq<seq<Action>>)
    requires |log| > 0
  {
    if |log| == 1 then FirstWellFormed(EMPTY_STATE, log[0])
    else
      && WellFormedLog(log[..|log| - 1])
      && (SafeOperation(log[|log| - 1]) ==> WellFormed(Replay(log[..|log| - 1]), log[|log| - 1]))
  }

  /** However many commits it was carried over, the checksum says what a full replay would. */
  lemma {:induction false} ChecksumEqualsReplay(log: seq<seq<Action>>)
    requires |log| > 0 && WellFormedLog(log) && Chain(log).Some?
    ensures True(Chain(log).value, Replay(log))
  {
    if |log| == 1 {
      assert log[..0] == [];
      assert Replay(log) == ReplayAll(EMPTY_STATE, log[0]);
      FirstAllKeeps(NOTHING, EMPTY_STATE, log[0]);
    } else {
      ChecksumEqualsReplay(log[..|log| - 1]);
      CarryForwardKeeps(Chain(log[..|log| - 1]).value, Replay(log[..|log| - 1]), log[|log| - 1]);
    }
  }

  // -------------------------------------------------------- bins sum to totals

  function Total(ns: seq<int>): int {
    if ns == [] then 0 else Total(ns[..|ns| - 1]) + ns[|ns| - 1]
  }

  /** What the bins up to `n` hold of one file: all of it if its bin is one of them. */
  lemma {:induction false} SumSplits(live: Files, w: (FileKey, int) -> int, ws: nat -> (FileKey, int) -> int, ns: seq<int>, n: nat)
    requires |ns| == n && forall i :: 0 <= i < n ==> ns[i] == Sum(live, ws(i))
    requires forall k :: k in live ==> Total(seq(n, i requires 0 <= i < n => ws(i)(k, live[k]))) == w(k, live[k])
    ensures Total(ns) == Sum(live, w)
    decreases |live|
  {
    if live == map[] {
      AllZero(ns);
    } else {
      var k :| k in live && Sum(live, w) == w(k, live[k]) + Sum(live - {k}, w);
      var own := seq(n, i requires 0 <= i < n => ws(i)(k, live[k]));
      var rest := seq(n, i requires 0 <= i < n => Sum(live - {k}, ws(i)));
      forall i | 0 <= i < n ensures ns[i] == own[i] + rest[i] {
        SumWithout(live, k, ws(i));
      }
      SumSplits(live - {k}, w, ws, rest, n);
      TotalAdds(ns, own, rest);
    }
  }

  lemma {:induction false} AllZero(ns: seq<int>)
    requires forall i :: 0 <= i < |ns| ==> ns[i] == 0
    ensures Total(ns) == 0
  {
    if ns != [] {
      AllZero(ns[..|ns| - 1]);
    }
  }

  lemma {:induction false} TotalAdds(ns: seq<int>, a: seq<int>, b: seq<int>)
    requires |ns| == |a| == |b| && forall i :: 0 <= i < |ns| ==> ns[i] == a[i] + b[i]
    ensures Total(ns) == Total(a) + Total(b)
  {
    if ns != [] {
      TotalAdds(ns[..|ns| - 1], a[..|a| - 1], b[..|b| - 1]);
    }
  }

  lemma {:induction false} OnlyOneBin(ns: seq<int>, bin: nat, x: int)
    requires bin < |ns| && forall i :: 0 <= i < |ns| ==> ns[i] == if i == bin then x else 0
    ensures Total(ns) == x
  {
    var front := ns[..|ns| - 1];
    if bin == |ns| - 1 {
      AllZero(front);
    } else {
      OnlyOneBin(front, bin, x);
    }
  }

  /** The bins of a true histogram add up to the file count and the byte total. */
  lemma BinsSumToTotals(s: Summary, st: State)
    requires True(s, st) && s.histogram.Bins?
    ensures s.numFiles == Some(Total(s.histogram.counts)) && s.tableSizeBytes == Some(Total(s.histogram.sizes))
  {
    var bounds, n := s.histogram.bounds, |s.histogram.bounds|;
    var counts: nat -> (FileKey, int) -> int := i => BinCount(bounds, i);
    var sizes: nat -> (FileKey, int) -> int := i => BinSize(bounds, i);
    forall k | k in st.live
      ensures Total(seq(n, i requires 0 <= i < n => counts(i)(k, st.live[k]))) == One()(k, st.live[k])
      ensures Total(seq(n, i requires 0 <= i < n => sizes(i)(k, st.live[k]))) == Size()(k, st.live[k])
    {
      var bin := Bin(bounds, st.live[k]);
      forall i | 0 <= i < n ensures InBin(bounds, i, st.live[k]) <==> i == bin {
        BinIsItsRange(bounds, st.live[k], i);
      }
      OnlyOneBin(seq(n, i requires 0 <= i < n => counts(i)(k, st.live[k])), bin, 1);
      OnlyOneBin(seq(n, i requires 0 <= i < n => sizes(i)(k, st.live[k])), bin, st.live[k]);
    }
    SumSplits(st.live, One(), counts, s.histogram.counts, n);
    SumSplits(st.live, Size(), sizes, s.histogram.sizes, n);
  }

  // ------------------------------------------------------- when it is written

  predicate AllSized(actions: seq<Action>) {
    forall i :: 0 <= i < |actions| && IsFileAction(actions[i]) ==> actions[i].size.Some? && actions[i].size.value >= 0
  }

  lemma {:induction false} CountAllSucceeds(c: Counter, actions: seq<Action>)
    requires Keepable(c.histogram)
    ensures CountAll(c, actions).Some? <==> AllSized(actions)
    decreases |actions|
  {
    if actions != [] {
      if CountOne(c, actions[0]).Some? {
        CountAllSucceeds(CountOne(c, actions[0]).value, actions[1..]);
        assert forall i :: 0 <= i < |actions[1..]| ==> actions[1..][i] == actions[i + 1];
      }
    }
  }

  /** On a well-formed log no count goes negative: files are counted exactly when it can be known how. */
  lemma CountFilesSucceeds(s: Summary, st: State, actions: seq<Action>)
    requires True(s, st) && WellFormed(st, actions)
    ensures CountFiles(s, actions).Some? <==> SafeOperation(actions) && AllSized(actions)
  {
    var c := Counter(s.numFiles.value, s.tableSizeBytes.value, s.histogram, false);
    CountAllSucceeds(c, actions);
    if AllSized(actions) {
      CountAllKeeps(c, st, actions, Sum(st.live, Vector()));
      var r, live := CountAll(c, actions).value, ReplayAll(st, actions).live;
      SumIsNatural(live, One());
      SumIsNatural(live, Size());
      if r.histogram.Bins? {
        forall i | 0 <= i < |r.histogram.counts| ensures r.histogram.counts[i] >= 0 && r.histogram.sizes[i] >= 0 {
          SumIsNatural(live, BinCount(r.histogram.bounds, i));
          SumIsNatural(live, BinSize(r.histogram.bounds, i));
        }
      }
    }
  }

  /** The in-commit timestamp of the last commitInfo, or `before` if there is none. */
  function LastIct(before: Option<int>, actions: seq<Action>): Option<int>
    decreases |actions|
  {
    if actions == [] then before
    else LastIct(if actions[0].CommitInfo? then actions[0].ict else before, actions[1..])
  }

  lemma {:induction false} AdvancedIct(s: Summary, actions: seq<Action>)
    ensures AdvanceAll(s, actions).ict == LastIct(s.ict, actions)
    decreases |actions|
  {
    if actions != [] {
      AdvancedIct(AdvanceOne(s, actions[0]), actions[1..]);
    }
  }

  /** The chain goes on exactly when the commit's files can be counted and its timestamp is known if needed. */
  lemma CarryForwardSucceeds(s: Summary, st: State, actions: seq<Action>)
    requires True(s, st) && (SafeOperation(actions) ==> WellFormed(st, actions))
    ensures var metadata := ReplayAll(st, actions).metadata;
            CarryForward(s, actions).Some? <==>
            && (FilesChanged(actions) ==> SafeOperation(actions) && AllSized(actions))
            && (metadata.Some? && metadata.value.ictEnabled ==> LastIct(None, actions).Some?)
    ensures CarryForward(s, actions).Some? ==> CarryForward(s, actions).value.ict == LastIct(None, actions)
  {
    if FilesChanged(actions) && SafeOperation(actions) {
      CountFilesSucceeds(s, st, actions);
    }
    var counted := if FilesChanged(actions) then CountFiles(s, actions) else Some(s);
    if counted.Some? {
      var start := counted.value.(txnId := None, ict := None);
      AdvanceAllKeeps(start, st, actions);
      AdvancedIct(start, actions);
    }
  }
}
