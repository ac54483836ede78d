/** Commit timestamps: file times made monotonic, and the commits a timestamp names. */
module CommitTime {
  import opened Wrappers

  const I64_MAX: int := 0x7FFF_FFFF_FFFF_FFFF
  const I64_MIN: int := -0x8000_0000_0000_0000

  /** A commit and its time in milliseconds. */
  type Timed = (nat, int)

  /** One entry of the log's listing; only commit files are dated. */
  datatype Entry = OtherFile | CommitFile(version: nat, modified: int)

  datatype Bound = AtOrBefore | AtOrAfter

  /** Where in-commit timestamps apply. */
  datatype Ict = Off | FromCreation | Since(version: nat, timestamp: int)

  // ---------------------------------------------------------- listed commits

  /** The commit files up to `last`, stopping at the first beyond it. */
  function UpTo(entries: seq<Entry>, last: nat): seq<Timed> {
    if entries == [] then []
    else
      match entries[0]
      case OtherFile => UpTo(entries[1..], last)
      case CommitFile(v, t) => if v > last then [] else [(v, t)] + UpTo(entries[1..], last)
  }

  /** Where the unbroken run that ends `commits` begins. */
  function RunStart(commits: seq<Timed>, start: nat): (r: nat)
    requires start <= |commits|
    ensures r <= start
  {
    if start > 0 && (start == |commits| || commits[start - 1].0 + 1 == commits[start].0) then RunStart(commits, start - 1)
    else start
  }

  function Run(commits: seq<Timed>): seq<Timed> {
    commits[RunStart(commits, |commits|)..]
  }

  /** What is listed from `i` on completes `commits`. */
  ghost predicate Completes(entries: seq<Entry>, last: nat, i: nat, commits: seq<Timed>) {
    i <= |entries| && UpTo(entries, last) == commits + UpTo(entries[i..], last)
  }

  lemma EntryListed(entries: seq<Entry>, last: nat, i: nat, commits: seq<Timed>)
    requires Completes(entries, last, i, commits) && i < |entries|
    ensures match entries[i]
            case OtherFile => Completes(entries, last, i + 1, commits)
            case CommitFile(v, t) =>
              if v > last then UpTo(entries, last) == commits else Completes(entries, last, i + 1, commits + [(v, t)])
  {
    assert entries[i..][0] == entries[i] && entries[i..][1..] == entries[i + 1..];
    if entries[i].CommitFile? {
      var c, rest := (entries[i].version, entries[i].modified), UpTo(entries[i + 1..], last);
      assert commits + ([c] + rest) == commits + [c] + rest && commits + [] == commits;
    }
  }

  method CommitFiles(entries: seq<Entry>, last: nat) returns (commits: seq<Timed>)
    ensures commits == UpTo(entries, last)
  {
    commits := [];
    var i := 0;
    assert entries[0..] == entries && commits + UpTo(entries, last) == UpTo(entries, last);
    while i < |entries|
      invariant Completes(entries, last, i, commits)
    {
      EntryListed(entries, last, i, commits);
      match entries[i] {
        case OtherFile =>
        case CommitFile(v, t) =>
          if v > last {
            return;
          }
          commits := commits + [(v, t)];
      }
      i := i + 1;
    }
    assert commits + [] == commits;
  }

  /** The order of pairs: by version, then by time. */
  predicate NoLater(a: Timed, b: Timed) {
    a.0 < b.0 || (a.0 == b.0 && a.1 <= b.1)
  }

  function InsertTimed(c: Timed, sorted: seq<Timed>): (r: seq<Timed>)
    ensures multiset(r) == multiset(sorted) + multiset{c}
  {
    if sorted == [] || NoLater(c, sorted[0]) then [c] + sorted
    else
      assert sorted == [sorted[0]] + sorted[1..];
      [sorted[0]] + InsertTimed(c, sorted[1..])
  }

  /** `sort_unstable`. */
  function SortTimed(commits: seq<Timed>): (r: seq<Timed>)
    ensures multiset(r) == multiset(commits)
  {
    if commits == [] then []
    else
      assert commits == [commits[0]] + commits[1..];
      InsertTimed(commits[0], SortTimed(commits[1..]))
  }

  ghost predicate SortedTimed(s: seq<Timed>) {
    s != [] ==> (forall c :: c in s[1..] ==> NoLater(s[0], c)) && SortedTimed(s[1..])
  }

  lemma {:induction false} InsertKeepsSorted(c: Timed, s: seq<Timed>)
    requires SortedTimed(s)
    ensures SortedTimed(InsertTimed(c, s))
  {
    var r := InsertTimed(c, s);
    if s == [] || NoLater(c, s[0]) {
      assert r[1..] == s;
      assert s != [] ==> forall d :: d in s ==> d == s[0] || d in s[1..];
    } else {
      InsertKeepsSorted(c, s[1..]);
      assert r[1..] == InsertTimed(c, s[1..]);
      forall d | d in r[1..] ensures NoLater(s[0], d) {
        assert d in multiset(r[1..]);
        assert d == c || d in s[1..];
      }
    }
  }

  lemma {:induction false} SortSorts(commits: seq<Timed>)
    ensures SortedTimed(SortTimed(commits))
  {
    if commits != [] {
      SortSorts(commits[1..]);
      InsertKeepsSorted(commits[0], SortTimed(commits[1..]));
    }
  }

  lemma {:induction false} SortedIsUnique(a: seq<Timed>, b: seq<Timed>)
    requires SortedTimed(a) && SortedTimed(b) && multiset(a) == multiset(b)
    ensures a == b
  {
    assert |a| == |multiset(a)| && |b| == |multiset(b)|;
    if a != [] {
      HeadIsLeast(a, b);
      HeadIsLeast(b, a);
      TailCounts(a);
      TailCounts(b);
      SortedIsUnique(a[1..], b[1..]);
    }
  }

  lemma HeadIsLeast(a: seq<Timed>, b: seq<Timed>)
    requires a != [] && b != [] && SortedTimed(a) && multiset(a) == multiset(b)
    ensures NoLater(a[0], b[0])
  {
    assert b[0] in multiset(a);
    assert a == [a[0]] + a[1..];
  }

  lemma TailCounts(a: seq<Timed>)
    requires a != []
    ensures multiset(a[1..]) == multiset(a) - multiset{a[0]}
  {
    assert a == [a[0]] + a[1..];
  }

  lemma {:induction false} UpToCounts(entries: seq<Entry>, last: nat, c: Timed)
    requires forall i :: 0 <= i < |entries| && entries[i].CommitFile? ==> entries[i].version <= last
    ensures multiset(UpTo(entries, last))[c] == multiset(entries)[CommitFile(c.0, c.1)]
  {
    if entries != [] {
      HeadCounts(entries, CommitFile(c.0, c.1));
      UpToCounts(entries[1..], last, c);
      if entries[0].CommitFile? {
        var head := (entries[0].version, entries[0].modified);
        HeadCounts([head] + UpTo(entries[1..], last), c);
        assert ([head] + UpTo(entries[1..], last))[1..] == UpTo(entries[1..], last);
      }
    }
  }

  lemma HeadCounts<T>(s: seq<T>, x: T)
    requires s != []
    ensures multiset(s)[x] == (if s[0] == x then 1 else 0) + multiset(s[1..])[x]
  {
    assert s == [s[0]] + s[1..];
  }

  /** The order of the listing makes no difference where no commit is beyond the last. */
  lemma ListingOrderIsIrrelevant(a: seq<Entry>, b: seq<Entry>, last: nat)
    requires multiset(a) == multiset(b)
    requires forall e :: e in multiset(a) && e.CommitFile? ==> e.version <= last
    ensures Run(SortTimed(UpTo(a, last))) == Run(SortTimed(UpTo(b, last)))
  {
    forall i | 0 <= i < |a| && a[i].CommitFile? ensures a[i].version <= last {
      assert a[i] in multiset(a);
    }
    forall i | 0 <= i < |b| && b[i].CommitFile? ensures b[i].version <= last {
      assert b[i] in multiset(b);
    }
    forall c: Timed ensures multiset(UpTo(a, last))[c] == multiset(UpTo(b, last))[c] {
      UpToCounts(a, last, c);
      UpToCounts(b, last, c);
    }
    assert multiset(UpTo(a, last)) == multiset(UpTo(b, last));
    SortSorts(UpTo(a, last));
    SortSorts(UpTo(b, last));
    SortedIsUnique(SortTimed(UpTo(a, last)), SortTimed(UpTo(b, last)));
  }

  /** In a listing by name, stopping at the first commit beyond `last` leaves out no other. */
  lemma {:induction false} StoppingLosesNone(entries: seq<Entry>, last: nat, c: Timed)
    requires forall i, j :: 0 <= i < j < |entries| && entries[i].CommitFile? && entries[j].CommitFile? ==> entries[i].version <= entries[j].version
    ensures c in UpTo(entries, last) <==> c.0 <= last && CommitFile(c.0, c.1) in entries
  {
    if entries != [] {
      assert entries == [entries[0]] + entries[1..];
      StoppingLosesNone(entries[1..], last, c);
    }
  }

  /** `listed_commits`. */
  method ListedCommits(entries: seq<Entry>, last: nat) returns (run: seq<Timed>)
    ensures run == Run(SortTimed(UpTo(entries, last)))
  {
    var listed := CommitFiles(entries, last);
    var commits := SortTimed(listed);
    var start := |commits|;
    while start > 0 && (start == |commits| || commits[start - 1].0 + 1 == commits[start].0)
      invariant 0 <= start <= |commits|
      invariant RunStart(commits, start) == RunStart(commits, |commits|)
    {
      start := start - 1;
    }
    run := commits[start..];
  }

  // ---------------------------------------------------------------- monotonic

  function Max(a: int, b: int): int {
    if a > b then a else b
  }

  function SaturatingNext(t: int): int {
    if t >= I64_MAX then I64_MAX else t + 1
  }

  /** `monotonize`, after a commit timed `previous`. */
  function Monotonize(commits: seq<Timed>, previous: int): (r: seq<Timed>)
    ensures |r| == |commits|
  {
    if commits == [] then []
    else
      var time := Max(commits[0].1, SaturatingNext(previous));
      [(commits[0].0, time)] + Monotonize(commits[1..], time)
  }

  method MonotonizeLoop(commits: seq<Timed>) returns (times: seq<Timed>)
    ensures times == Monotonize(commits, I64_MIN)
  {
    times := [];
    var previous := I64_MIN;
    for i := 0 to |commits|
      invariant Monotonize(commits, I64_MIN) == times + Monotonize(commits[i..], previous)
    {
      assert commits[i..][0] == commits[i] && commits[i..][1..] == commits[i + 1..];
      var time := Max(commits[i].1, SaturatingNext(previous));
      ghost var rest := Monotonize(commits[i + 1..], time);
      assert times + ([(commits[i].0, time)] + rest) == (times + [(commits[i].0, time)]) + rest;
      times := times + [(commits[i].0, time)];
      previous := time;
    }
  }

  /** The commits timed by their files. */
  function FileTimes(listed: seq<Timed>, ict: Ict): seq<Timed> {
    match ict
    case FromCreation => []
    case Since(version, _) => Monotonize(Before(listed, version), I64_MIN)
    case Off => Monotonize(listed, I64_MIN)
  }

  function Before(listed: seq<Timed>, version: nat): seq<Timed> {
    if listed == [] then []
    else (if listed[0].0 < version then [listed[0]] else []) + Before(listed[1..], version)
  }

  // ------------------------------------------------------------------- lookup

  /** `take_while(t <= timestamp).last()`. */
  function LastAtOrBefore(times: seq<Timed>, timestamp: int): Option<Timed> {
    if times == [] || times[0].1 > timestamp then None
    else
      match LastAtOrBefore(times[1..], timestamp)
      case Some(later) => Some(later)
      case None => Some(times[0])
  }

  /** `find(t >= timestamp)`. */
  function FirstAtOrAfter(times: seq<Timed>, timestamp: int): Option<Timed> {
    if times == [] then None
    else if times[0].1 >= timestamp then Some(times[0])
    else FirstAtOrAfter(times[1..], timestamp)
  }

  function Search(times: seq<Timed>, timestamp: int, bound: Bound): Option<Timed> {
    if bound.AtOrBefore? then LastAtOrBefore(times, timestamp) else FirstAtOrAfter(times, timestamp)
  }

  /** The kernel's search of the commits that carry in-commit timestamps. */
  type Kernel = (int, Bound) -> Option<Timed>

  predicate InIctRegion(ict: Ict, timestamp: int) {
    match ict
    case FromCreation => true
    case Since(_, t) => timestamp >= t
    case Off => false
  }

  /** `lookup`; `earliest` is the first version that can be rebuilt, None for any published commit. */
  function Lookup(listed: seq<Timed>, ict: Ict, kernel: Kernel, earliest: Option<nat>, timestamp: int, bound: Bound): Option<Timed> {
    if InIctRegion(ict, timestamp) then kernel(timestamp, bound)
    else
      var times := FileTimes(listed, ict);
      var first := if earliest.Some? then earliest.value else if times == [] then 0 else times[0].0;
      match Search(times, timestamp, bound)
      case Some(found) => if bound.AtOrBefore? && found.0 < first then None else Some(found)
      case None =>
        match (bound, ict)
        case (AtOrAfter, Since(version, t)) => Some((version, t))
        case (AtOrAfter, Off) => None
        case (AtOrAfter, FromCreation) => None
        case (AtOrBefore, _) => None
  }

  // --------------------------------------------------------------- feed range

  datatype Range = Range(startVersion: Option<nat>, endVersion: Option<nat>, startTime: Option<int>, endTime: Option<int>)

  datatype Resolved =
    | Versions(start: nat, end: Option<nat>)
    | Ambiguous
    | AfterLatest
    | NoCommit
    | EmptyRange

  /** `resolve_range`: `search` is the lookup of published commits, `latest` the latest commit's time. */
  function ResolveRange(r: Range, search: Kernel, latest: int): Resolved {
    if r.startVersion.Some? && r.startTime.Some? then Ambiguous
    else if r.endVersion.Some? && r.endTime.Some? then Ambiguous
    else if r.startTime.None? && r.endTime.None? then
      Versions(if r.startVersion.Some? then r.startVersion.value else 0, r.endVersion)
    else if r.startTime.Some? && r.startTime.value > latest then AfterLatest
    else if r.startTime.Some? && search(r.startTime.value, AtOrAfter).None? then NoCommit
    else
      var start :=
        if r.startTime.Some? then search(r.startTime.value, AtOrAfter).value.0
        else if r.startVersion.Some? then r.startVersion.value else 0;
      if r.endTime.Some? && r.endTime.value > latest then AfterLatest
      else if r.endTime.Some? && search(r.endTime.value, AtOrBefore).None? then NoCommit
      else
        var end := if r.endTime.Some? then Some(search(r.endTime.value, AtOrBefore).value.0) else r.endVersion;
        if end.Some? && end.value < start then EmptyRange else Versions(start, end)
  }

  // --------------------------------------------------------------- properties

  ghost predicate Consecutive(commits: seq<Timed>) {
    forall i :: 0 <= i < |commits| - 1 ==> commits[i].0 + 1 == commits[i + 1].0
  }

  ghost predicate Increasing(times: seq<Timed>) {
    forall i, j :: 0 <= i < j < |times| ==> times[i].1 < times[j].1
  }

  /** What `listed_commits` keeps: an unbroken run up to the last, which the commit before it would break. */
  lemma {:induction false} RunIsUnbroken(commits: seq<Timed>, start: nat)
    requires start <= |commits| && Consecutive(commits[start..])
    ensures var s := RunStart(commits, start);
            && Consecutive(commits[s..])
            && (0 < s < |commits| ==> commits[s - 1].0 + 1 != commits[s].0)
            && (commits != [] && start == |commits| ==> s < |commits|)
  {
    if start > 0 && (start == |commits| || commits[start - 1].0 + 1 == commits[start].0) {
      RunGrows(commits, start);
      RunIsUnbroken(commits, start - 1);
      StartsNoLater(commits, start - 1);
    }
  }

  lemma RunGrows(commits: seq<Timed>, start: nat)
    requires 0 < start <= |commits| && Consecutive(commits[start..])
    requires start == |commits| || commits[start - 1].0 + 1 == commits[start].0
    ensures Consecutive(commits[start - 1..])
  {
    var from := commits[start - 1..];
    forall i | 0 <= i < |from| - 1 ensures from[i].0 + 1 == from[i + 1].0 {
      if i > 0 {
        assert from[i] == commits[start..][i - 1] && from[i + 1] == commits[start..][i];
      }
    }
  }

  lemma StartsNoLater(commits: seq<Timed>, start: nat)
    requires start <= |commits|
    ensures RunStart(commits, start) <= start
  {
  }

  /** The times one would have without a largest one: the least strictly increasing times above `previous`. */
  function Unbounded(commits: seq<Timed>, previous: int): (r: seq<Timed>)
    ensures |r| == |commits|
  {
    if commits == [] then []
    else
      var time := Max(commits[0].1, previous + 1);
      [(commits[0].0, time)] + Unbounded(commits[1..], time)
  }

  /** `times` are strictly increasing, above `previous`, and none is below its file's. */
  ghost predicate Above(times: seq<Timed>, commits: seq<Timed>, previous: int) {
    && |times| == |commits|
    && Increasing(times)
    && forall i :: 0 <= i < |times| ==> times[i].0 == commits[i].0 && times[i].1 >= commits[i].1 && times[i].1 > previous
  }

  lemma {:induction false} UnboundedIsAbove(commits: seq<Timed>, previous: int)
    ensures Above(Unbounded(commits, previous), commits, previous)
  {
    if commits != [] {
      UnboundedIsAbove(commits[1..], Max(commits[0].1, previous + 1));
    }
  }

  lemma {:induction false} UnboundedIsLeast(commits: seq<Timed>, previous: int, other: seq<Timed>, i: nat)
    requires Above(other, commits, previous) && i < |commits|
    ensures Unbounded(commits, previous)[i].1 <= other[i].1
  {
    if i > 0 {
      var time := Max(commits[0].1, previous + 1);
      forall j | 0 <= j < |other[1..]| ensures other[1..][j].1 > time {
        assert other[0].1 < other[j + 1].1;
      }
      UnboundedIsLeast(commits[1..], time, other[1..], i - 1);
    }
  }

  lemma {:induction false} MonotonizeSaturates(commits: seq<Timed>, previous: int, bounded: int, i: nat)
    requires i < |commits| && (forall k :: 0 <= k < |commits| ==> commits[k].1 <= I64_MAX)
    requires bounded == if previous > I64_MAX then I64_MAX else previous
    ensures Monotonize(commits, bounded)[i].0 == Unbounded(commits, previous)[i].0
    ensures Monotonize(commits, bounded)[i].1
         == if Unbounded(commits, previous)[i].1 > I64_MAX then I64_MAX else Unbounded(commits, previous)[i].1
  {
    if i > 0 {
      var time := Max(commits[0].1, previous + 1);
      MonotonizeSaturates(commits[1..], time, if time > I64_MAX then I64_MAX else time, i - 1);
    }
  }

  lemma {:induction false} UnboundedSteps(commits: seq<Timed>, previous: int, i: nat)
    requires 0 < i < |commits|
    ensures Unbounded(commits, previous)[i].1 == Max(commits[i].1, Unbounded(commits, previous)[i - 1].1 + 1)
  {
    if i > 1 {
      UnboundedSteps(commits[1..], Max(commits[0].1, previous + 1), i - 1);
    }
  }

  /** Every time but the last leaves room for the ones after it. */
  ghost predicate Headroom(commits: seq<Timed>) {
    forall i :: 0 <= i < |commits| ==> Unbounded(commits, I64_MIN)[i].1 <= I64_MAX
  }

  lemma NothingSaturates(commits: seq<Timed>)
    requires Headroom(commits) && forall i :: 0 <= i < |commits| ==> commits[i].1 <= I64_MAX
    ensures Monotonize(commits, I64_MIN) == Unbounded(commits, I64_MIN)
  {
    forall i | 0 <= i < |commits| ensures Monotonize(commits, I64_MIN)[i] == Unbounded(commits, I64_MIN)[i] {
      MonotonizeSaturates(commits, I64_MIN, I64_MIN, i);
    }
  }

  /** With headroom, `monotonize` gives the least strictly increasing times at or above the files'. */
  lemma MonotonizeIsLeast(commits: seq<Timed>)
    requires Headroom(commits) && forall i :: 0 <= i < |commits| ==> commits[i].1 <= I64_MAX
    ensures Above(Monotonize(commits, I64_MIN), commits, I64_MIN)
    ensures forall other: seq<Timed>, i :: Above(other, commits, I64_MIN) && 0 <= i < |commits| ==>
              Monotonize(commits, I64_MIN)[i].1 <= other[i].1
  {
    UnboundedIsAbove(commits, I64_MIN);
    NothingSaturates(commits);
    forall other: seq<Timed>, i | Above(other, commits, I64_MIN) && 0 <= i < |commits|
      ensures Monotonize(commits, I64_MIN)[i].1 <= other[i].1
    {
      UnboundedIsLeast(commits, I64_MIN, other, i);
    }
  }

  /** Headroom is exactly what it takes: without it, two commits share the largest time. */
  lemma MonotonizeIncreasesIffHeadroom(commits: seq<Timed>)
    requires forall i :: 0 <= i < |commits| ==> commits[i].1 <= I64_MAX
    ensures Increasing(Monotonize(commits, I64_MIN)) <==> Headroom(commits)
  {
    if Headroom(commits) {
      MonotonizeIsLeast(commits);
    } else {
      var i: nat :| i < |commits| && Unbounded(commits, I64_MIN)[i].1 > I64_MAX;
      SaturatedTies(commits, I64_MIN, i);
    }
  }

  lemma SaturatedTies(commits: seq<Timed>, previous: int, i: nat)
    requires i < |commits| && previous < I64_MAX && Unbounded(commits, previous)[i].1 > I64_MAX
    requires forall k :: 0 <= k < |commits| ==> commits[k].1 <= I64_MAX
    ensures i > 0 && Monotonize(commits, previous)[i].1 == Monotonize(commits, previous)[i - 1].1
  {
    if i > 0 {
      UnboundedSteps(commits, previous, i);
      assert Unbounded(commits, previous)[i - 1].1 >= I64_MAX;
      MonotonizeSaturates(commits, previous, previous, i - 1);
      MonotonizeSaturates(commits, previous, previous, i);
    }
  }

  // --------------------------------------------------- what a timestamp names

  /** The greatest commit timed at or before `timestamp`, and none only if there is none. */
  lemma {:induction false} AtOrBeforeIsGreatest(times: seq<Timed>, timestamp: int)
    requires Increasing(times)
    ensures match LastAtOrBefore(times, timestamp)
            case None => forall c :: c in times ==> c.1 > timestamp
            case Some(found) =>
              found in times && found.1 <= timestamp && forall c :: c in times && c.1 <= timestamp ==> c.1 <= found.1
  {
    if times != [] {
      assert forall c :: c in times <==> c == times[0] || c in times[1..];
      AtOrBeforeIsGreatest(times[1..], timestamp);
      assert forall c :: c in times[1..] ==> times[0].1 < c.1;
    }
  }

  lemma {:induction false} AtOrAfterIsLeast(times: seq<Timed>, timestamp: int)
    requires Increasing(times)
    ensures match FirstAtOrAfter(times, timestamp)
            case None => forall c :: c in times ==> c.1 < timestamp
            case Some(found) =>
              found in times && found.1 >= timestamp && forall c :: c in times && c.1 >= timestamp ==> found.1 <= c.1
  {
    if times != [] {
      assert forall c :: c in times <==> c == times[0] || c in times[1..];
      AtOrAfterIsLeast(times[1..], timestamp);
      assert forall c :: c in times[1..] ==> times[0].1 < c.1;
    }
  }

  /** A commit's own time names that commit, either way. */
  lemma OwnTimeNamesIt(times: seq<Timed>, i: nat)
    requires Increasing(times) && i < |times|
    ensures Search(times, times[i].1, AtOrBefore) == Some(times[i])
    ensures Search(times, times[i].1, AtOrAfter) == Some(times[i])
  {
    AtOrBeforeIsGreatest(times, times[i].1);
    AtOrAfterIsLeast(times, times[i].1);
    assert times[i] in times;
  }

  /** Nothing falls between the last commit at or before t and the first at or after t + 1. */
  lemma NeighboursAreAdjacent(times: seq<Timed>, timestamp: int)
    requires Increasing(times) && Consecutive(times)
    requires Search(times, timestamp, AtOrBefore).Some? && Search(times, timestamp + 1, AtOrAfter).Some?
    ensures Search(times, timestamp, AtOrBefore).value.0 + 1 == Search(times, timestamp + 1, AtOrAfter).value.0
  {
    AtOrBeforeIsGreatest(times, timestamp);
    AtOrAfterIsLeast(times, timestamp + 1);
    var a, b := Search(times, timestamp, AtOrBefore).value, Search(times, timestamp + 1, AtOrAfter).value;
    var i :| 0 <= i < |times| && times[i] == a;
    var j :| 0 <= j < |times| && times[j] == b;
    assert i < j;
    assert times[i + 1] in times && times[i].1 < times[i + 1].1;
    assert times[j].1 <= times[i + 1].1;
    assert j == i + 1;
  }

  // -------------------------------------------------------- the whole timeline

  lemma {:induction false} LastOfBoth(a: seq<Timed>, b: seq<Timed>, timestamp: int)
    requires Increasing(a + b)
    ensures LastAtOrBefore(a + b, timestamp) ==
            if LastAtOrBefore(b, timestamp).Some? then LastAtOrBefore(b, timestamp) else LastAtOrBefore(a, timestamp)
  {
    if a == [] {
      assert a + b == b;
    } else {
      assert (a + b)[1..] == a[1..] + b && (a + b)[0] == a[0];
      LastOfBoth(a[1..], b, timestamp);
      if b != [] {
        assert (a + b)[|a|] == b[0];
      }
    }
  }

  lemma {:induction false} FirstOfBoth(a: seq<Timed>, b: seq<Timed>, timestamp: int)
    ensures FirstAtOrAfter(a + b, timestamp) ==
            if FirstAtOrAfter(a, timestamp).Some? then FirstAtOrAfter(a, timestamp) else FirstAtOrAfter(b, timestamp)
  {
    if a == [] {
      assert a + b == b;
    } else {
      assert (a + b)[1..] == a[1..] + b && (a + b)[0] == a[0];
      FirstOfBoth(a[1..], b, timestamp);
    }
  }

  /** The commits with in-commit timestamps, and what the kernel's search of them gives. */
  ghost predicate KernelContract(kernel: Kernel, own: seq<Timed>) {
    forall t, b :: kernel(t, b) == Search(own, t, b)
  }

  /** In-commit timestamps start where they were enabled, after every file-timed commit. */
  ghost predicate OwnTimes(ict: Ict, own: seq<Timed>) {
    match ict
    case Off => own == []
    case FromCreation => true
    case Since(version, timestamp) => own != [] && own[0] == (version, timestamp)
  }

  function Timeline(listed: seq<Timed>, ict: Ict, own: seq<Timed>): seq<Timed> {
    FileTimes(listed, ict) + own
  }

  /** Where the file times end and the commits' own begin, the lookup is one search of one timeline. */
  lemma LookupSearchesTimeline(listed: seq<Timed>, ict: Ict, kernel: Kernel, own: seq<Timed>, timestamp: int, bound: Bound)
    requires KernelContract(kernel, own) && OwnTimes(ict, own) && Increasing(Timeline(listed, ict, own)) && Increasing(own)
    requires forall i, j :: 0 <= i < j < |FileTimes(listed, ict)| ==> FileTimes(listed, ict)[i].0 < FileTimes(listed, ict)[j].0
    ensures Lookup(listed, ict, kernel, None, timestamp, bound) == Search(Timeline(listed, ict, own), timestamp, bound)
  {
    var times := FileTimes(listed, ict);
    assert kernel(timestamp, bound) == Search(own, timestamp, bound);
    FilesBeforeOwn(times, own);
    if bound.AtOrBefore? {
      LastOfBoth(times, own, timestamp);
      AtOrBeforeIsGreatest(times, timestamp);
      AtOrBeforeIsGreatest(own, timestamp);
    } else {
      FirstOfBoth(times, own, timestamp);
      AtOrAfterIsLeast(times, timestamp);
    }
    if times != [] {
      assert times[0] in times;
    }
  }

  lemma FilesBeforeOwn(times: seq<Timed>, own: seq<Timed>)
    requires Increasing(times + own)
    ensures Increasing(times)
    ensures own != [] ==> forall c :: c in times ==> c.1 < own[0].1
  {
    var all := times + own;
    forall i, j | 0 <= i < j < |times| ensures times[i].1 < times[j].1 {
      assert all[i] == times[i] && all[j] == times[j];
    }
    if own != [] {
      forall i | 0 <= i < |times| ensures times[i].1 < own[0].1 {
        assert all[i] == times[i] && all[|times|] == own[0];
      }
    }
  }

  /** A version that cannot be rebuilt any more is refused for time travel, and only that changes. */
  lemma RecreatableRefuses(listed: seq<Timed>, ict: Ict, kernel: Kernel, earliest: nat, timestamp: int, bound: Bound)
    requires !InIctRegion(ict, timestamp)
    requires forall i, j :: 0 <= i < j < |FileTimes(listed, ict)| ==> FileTimes(listed, ict)[i].0 < FileTimes(listed, ict)[j].0
    requires Increasing(FileTimes(listed, ict))
    ensures var published := Lookup(listed, ict, kernel, None, timestamp, bound);
            Lookup(listed, ict, kernel, Some(earliest), timestamp, bound) ==
            if bound.AtOrBefore? && published.Some? && published.value.0 < earliest then None else published
  {
    var times := FileTimes(listed, ict);
    AtOrBeforeIsGreatest(times, timestamp);
    if times != [] {
      assert forall c :: c in times ==> times[0].0 <= c.0;
    }
  }

  // ----------------------------------------------------- the feed's own range

  /** The lookup of published commits that `resolve_range` makes. */
  function PublishedSearch(listed: seq<Timed>, ict: Ict, kernel: Kernel): Kernel {
    (t: int, b: Bound) => Lookup(listed, ict, kernel, None, t, b)
  }

  /** The commits a request means, whichever way its ends are given. */
  predicate Inside(r: Range, c: Timed) {
    && (r.startVersion.Some? ==> r.startVersion.value <= c.0)
    && (r.startTime.Some? ==> r.startTime.value <= c.1)
    && (r.endVersion.Some? ==> c.0 <= r.endVersion.value)
    && (r.endTime.Some? ==> c.1 <= r.endTime.value)
  }

  ghost predicate Covers(times: seq<Timed>, start: nat, end: Option<nat>, r: Range) {
    forall c :: c in times ==> (start <= c.0 && (end.Some? ==> c.0 <= end.value) <==> Inside(r, c))
  }

  predicate AmbiguousRange(r: Range) {
    (r.startVersion.Some? && r.startTime.Some?) || (r.endVersion.Some? && r.endTime.Some?)
  }

  predicate IsAfter(t: Option<int>, latest: int) {
    t.Some? && t.value > latest
  }

  /** The search, over the whole timeline, that the feed makes. */
  ghost predicate FeedSearch(times: seq<Timed>, search: Kernel) {
    times != [] && Increasing(times) && Consecutive(times) && KernelContract(search, times)
  }

  /** Where the search puts a start time. */
  lemma StartCovers(times: seq<Timed>, search: Kernel, from: int)
    requires FeedSearch(times, search) && from <= times[|times| - 1].1
    ensures var s := search(from, AtOrAfter);
            s.Some? && s.value in times && forall c :: c in times ==> (s.value.0 <= c.0 <==> from <= c.1)
  {
    assert search(from, AtOrAfter) == Search(times, from, AtOrAfter);
    AtOrAfterIsLeast(times, from);
    assert times[|times| - 1] in times;
    VersionsFollowTimes(times);
  }

  lemma EndCovers(times: seq<Timed>, search: Kernel, to: int)
    requires FeedSearch(times, search)
    ensures var e := search(to, AtOrBefore);
            match e
            case None => forall c :: c in times ==> c.1 > to
            case Some(found) => found in times && forall c :: c in times ==> (c.0 <= found.0 <==> c.1 <= to)
  {
    assert search(to, AtOrBefore) == Search(times, to, AtOrBefore);
    AtOrBeforeIsGreatest(times, to);
    VersionsFollowTimes(times);
  }

  lemma RangeCoversItsCommits(times: seq<Timed>, search: Kernel, r: Range)
    requires FeedSearch(times, search)
    ensures var latest := times[|times| - 1].1; var found := ResolveRange(r, search, latest);
            && (found.Ambiguous? <==> AmbiguousRange(r))
            && (found.AfterLatest? <==> !AmbiguousRange(r) && (IsAfter(r.startTime, latest) || IsAfter(r.endTime, latest)))
            && (found.Versions? ==> Covers(times, found.start, found.end, r))
            && (found.Versions? && (r.startTime.Some? || r.endTime.Some?) ==> exists c :: c in times && Inside(r, c))
            && (found.NoCommit? || found.EmptyRange? ==> forall c :: c in times ==> !Inside(r, c))
  {
    var latest := times[|times| - 1].1;
    if !AmbiguousRange(r) && !IsAfter(r.startTime, latest) && !IsAfter(r.endTime, latest) {
      if r.startTime.Some? {
        StartCovers(times, search, r.startTime.value);
      }
      if r.endTime.Some? {
        EndCovers(times, search, r.endTime.value);
      }
      var found := ResolveRange(r, search, latest);
      if found.Versions? && r.startTime.Some? {
        assert Inside(r, search(r.startTime.value, AtOrAfter).value);
      } else if found.Versions? && r.endTime.Some? {
        assert Inside(r, search(r.endTime.value, AtOrBefore).value);
      }
    } else if !AmbiguousRange(r) && r.startTime.Some? && !IsAfter(r.startTime, latest) {
      StartCovers(times, search, r.startTime.value);
    }
  }

  /**
   * The feed's range, by versions or times or open, over the code's own lookup: it covers exactly
   * the commits the request means; a request with a time is refused if and only if it means none
   * or names a time after the latest commit.
   */
  lemma FeedCoversItsRange(listed: seq<Timed>, ict: Ict, kernel: Kernel, own: seq<Timed>, r: Range)
    requires KernelContract(kernel, own) && OwnTimes(ict, own)
    requires var times := Timeline(listed, ict, own); times != [] && Increasing(times) && Consecutive(times)
    ensures var times := Timeline(listed, ict, own); var latest := times[|times| - 1].1;
            var found := ResolveRange(r, PublishedSearch(listed, ict, kernel), latest);
            && (found.Ambiguous? <==> AmbiguousRange(r))
            && (found.AfterLatest? <==> !AmbiguousRange(r) && (IsAfter(r.startTime, latest) || IsAfter(r.endTime, latest)))
            && (found.Versions? ==> Covers(times, found.start, found.end, r))
            && (found.Versions? && (r.startTime.Some? || r.endTime.Some?) ==> exists c :: c in times && Inside(r, c))
            && (found.NoCommit? || found.EmptyRange? ==> forall c :: c in times ==> !Inside(r, c))
  {
    PublishedSearchContract(listed, ict, kernel, own);
    RangeCoversItsCommits(Timeline(listed, ict, own), PublishedSearch(listed, ict, kernel), r);
  }

  lemma PublishedSearchContract(listed: seq<Timed>, ict: Ict, kernel: Kernel, own: seq<Timed>)
    requires KernelContract(kernel, own) && OwnTimes(ict, own)
    requires Increasing(Timeline(listed, ict, own)) && Consecutive(Timeline(listed, ict, own))
    ensures KernelContract(PublishedSearch(listed, ict, kernel), Timeline(listed, ict, own))
  {
    var times := Timeline(listed, ict, own);
    var files := FileTimes(listed, ict);
    forall i, j | 0 <= i < j < |own| ensures own[i].1 < own[j].1 {
      assert times[|files| + i] == own[i] && times[|files| + j] == own[j];
    }
    forall i, j | 0 <= i < j < |files| ensures files[i].0 < files[j].0 {
      VersionsAscend(times, i, j);
      assert times[i] == files[i] && times[j] == files[j];
    }
    forall t: int, b: Bound ensures PublishedSearch(listed, ict, kernel)(t, b) == Search(times, t, b) {
      LookupSearchesTimeline(listed, ict, kernel, own, t, b);
    }
  }

  lemma {:induction false} VersionsAscend(times: seq<Timed>, i: nat, j: nat)
    requires Consecutive(times) && i <= j < |times|
    ensures times[j].0 == times[i].0 + (j - i)
    decreases j - i
  {
    if i < j {
      VersionsAscend(times, i, j - 1);
      assert times[j - 1].0 + 1 == times[j - 1 + 1].0;
    }
  }

  lemma VersionsFollowTimes(times: seq<Timed>)
    requires Consecutive(times) && Increasing(times)
    ensures forall c, d :: c in times && d in times ==> (c.0 <= d.0 <==> c.1 <= d.1)
  {
    forall c, d | c in times && d in times ensures c.0 <= d.0 <==> c.1 <= d.1 {
      var i :| 0 <= i < |times| && times[i] == c;
      var j :| 0 <= j < |times| && times[j] == d;
      if i <= j {
        VersionsAscend(times, i, j);
      } else {
        VersionsAscend(times, j, i);
      }
    }
  }
}
