/** `balance`: splits to groups of roughly equal bytes, each to the lightest group so far. */
module Balance {
  import opened Values

  /** A split's path and size; `rest` is what else it carries. */
  datatype Split = Split(path: string, size: nat, rest: string)

  // ------------------------------------------------------------------ sorting

  /** Largest first, then by path. */
  predicate Precedes(a: Split, b: Split) {
    a.size > b.size || (a.size == b.size && TextOrder(a.path, b.path) <= 0)
  }

  function Insert(x: Split, sorted: seq<Split>): (r: seq<Split>)
    ensures multiset(r) == multiset(sorted) + multiset{x}
  {
    if sorted == [] then [x]
    else if Precedes(x, sorted[0]) then [x] + sorted
    else
      assert sorted == [sorted[0]] + sorted[1..];
      [sorted[0]] + Insert(x, sorted[1..])
  }

  /** `sorted(splits, key=lambda s: (-s.size, s.path))`, stable. */
  function Sort(splits: seq<Split>): (r: seq<Split>)
    ensures multiset(r) == multiset(splits)
  {
    if splits == [] then []
    else
      assert splits == [splits[0]] + splits[1..];
      Insert(splits[0], Sort(splits[1..]))
  }

  // ------------------------------------------------------------------- groups

  function Load(bin: seq<Split>): nat {
    if bin == [] then 0 else Load(bin[..|bin| - 1]) + bin[|bin| - 1].size
  }

  function Empties(m: nat): (bins: seq<seq<Split>>)
    ensures |bins| == m && forall i :: 0 <= i < m ==> bins[i] == []
  {
    seq(m, _ => [])
  }

  function Place(bins: seq<seq<Split>>, target: nat, x: Split): (r: seq<seq<Split>>)
    requires target < |bins|
    ensures |r| == |bins|
  {
    bins[target := bins[target] + [x]]
  }

  /** No bin is lighter than `t`, and none before it is as light. */
  ghost predicate IsLightest(bins: seq<seq<Split>>, t: nat) {
    && t < |bins|
    && (forall i :: 0 <= i < |bins| ==> Load(bins[t]) <= Load(bins[i]))
    && (forall i :: 0 <= i < t ==> Load(bins[t]) < Load(bins[i]))
  }

  function Lightest(bins: seq<seq<Split>>): (t: nat)
    requires bins != []
    ensures IsLightest(bins, t)
  {
    if |bins| == 1 then 0
    else
      var last := |bins| - 1;
      var t := Lightest(bins[..last]);
      assert forall i :: 0 <= i < last ==> bins[..last][i] == bins[i];
      if Load(bins[last]) < Load(bins[t]) then last else t
  }

  /** `items`, in order, each placed in the lightest of `m` bins. */
  function Greedy(m: nat, items: seq<Split>): (bins: seq<seq<Split>>)
    requires m > 0
    ensures |bins| == m
  {
    if items == [] then Empties(m)
    else
      var before := Greedy(m, items[..|items| - 1]);
      Place(before, Lightest(before), items[|items| - 1])
  }

  function NonEmpty(bins: seq<seq<Split>>): seq<seq<Split>> {
    if bins == [] then []
    else NonEmpty(bins[..|bins| - 1]) + if bins[|bins| - 1] == [] then [] else [bins[|bins| - 1]]
  }

  function Count(splits: seq<Split>, n: int): (m: nat)
    ensures m > 0
  {
    if n < 1 || splits == [] then 1 else if n < |splits| then n else |splits|
  }

  function Bins(splits: seq<Split>, n: int): seq<seq<Split>> {
    Greedy(Count(splits, n), Sort(splits))
  }

  function Balanced(splits: seq<Split>, n: int): seq<seq<Split>> {
    if splits == [] then [] else NonEmpty(Bins(splits, n))
  }

  // -------------------------------------------------------- the imperative form

  /** The heap's order: by load, then by index. */
  predicate HeapOrder(a: (nat, nat), b: (nat, nat)) {
    a.0 < b.0 || (a.0 == b.0 && a.1 <= b.1)
  }

  /** The heap holds each bin's load with its index. */
  ghost predicate HeapOf(heap: set<(nat, nat)>, bins: seq<seq<Split>>) {
    heap == set i: nat | i < |bins| :: (Load(bins[i]), i)
  }

  lemma {:induction false} HasTop(heap: set<(nat, nat)>)
    requires heap != {}
    ensures exists top :: top in heap && forall e :: e in heap ==> HeapOrder(top, e)
    decreases |heap|
  {
    var e :| e in heap;
    var rest := heap - {e};
    if rest == {} {
      assert heap == {e};
      assert forall f :: f in heap ==> HeapOrder(e, f);
    } else {
      HasTop(rest);
      var top :| top in rest && forall f :: f in rest ==> HeapOrder(top, f);
      var best := if HeapOrder(top, e) then top else e;
      assert forall f :: f in heap ==> f == e || f in rest;
      assert forall f :: f in heap ==> HeapOrder(best, f);
    }
  }

  /** `heappop`: the least entry, which leads to the lightest bin of lowest index. */
  method PopLightest(heap: set<(nat, nat)>, bins: seq<seq<Split>>) returns (top: (nat, nat), rest: set<(nat, nat)>)
    requires bins != [] && HeapOf(heap, bins)
    ensures top.1 == Lightest(bins) && top.0 == Load(bins[top.1]) && rest == heap - {top}
  {
    assert (Load(bins[0]), 0) in heap;
    HasTop(heap);
    top :| top in heap && forall e :: e in heap ==> HeapOrder(top, e);
    rest := heap - {top};
    assert forall i :: 0 <= i < |bins| ==> (Load(bins[i]), i) in heap;
    var t := Lightest(bins);
    assert HeapOrder(top, (Load(bins[t]), t));
    assert IsLightest(bins, t);
  }

  method FillBins(items: seq<Split>, count: nat) returns (bins: seq<seq<Split>>)
    requires count > 0
    ensures bins == Greedy(count, items)
  {
    bins := Empties(count);
    var heap: set<(nat, nat)> := set i: nat | i < count :: (0, i);
    HeapStart(count);
    for i := 0 to |items|
      invariant bins == Greedy(count, items[..i]) && HeapOf(heap, bins)
    {
      var top, rest := PopLightest(heap, bins);
      assert items[..i + 1][..i] == items[..i];
      HeapAfter(heap, bins, top, items[i]);
      bins := Place(bins, top.1, items[i]);
      heap := rest + {(top.0 + items[i].size, top.1)};
    }
    assert items[..|items|] == items;
  }

  method KeepNonEmpty(bins: seq<seq<Split>>) returns (groups: seq<seq<Split>>)
    ensures groups == NonEmpty(bins)
  {
    groups := [];
    for i := 0 to |bins|
      invariant groups == NonEmpty(bins[..i])
    {
      assert bins[..i + 1][..i] == bins[..i];
      if bins[i] != [] {
        groups := groups + [bins[i]];
      }
    }
    assert bins[..|bins|] == bins;
  }

  method BalanceSplits(splits: seq<Split>, n: int) returns (groups: seq<seq<Split>>)
    ensures groups == Balanced(splits, n)
  {
    var items := Sort(splits);
    assert |multiset(items)| == |multiset(splits)|;
    if items == [] {
      return [];
    }
    var count := if n < 1 then 1 else if n < |items| then n else |items|;
    var bins := FillBins(items, count);
    groups := KeepNonEmpty(bins);
  }

  lemma HeapStart(count: nat)
    ensures HeapOf(set i: nat | i < count :: (0, i), Empties(count))
  {
    var heap: set<(nat, nat)> := set i: nat | i < count :: (0, i);
    var bins := Empties(count);
    assert forall i: nat :: i < count ==> (Load(bins[i]), i) == (0, i);
  }

  lemma HeapAfter(heap: set<(nat, nat)>, bins: seq<seq<Split>>, top: (nat, nat), x: Split)
    requires top.1 < |bins| && top.0 == Load(bins[top.1]) && HeapOf(heap, bins)
    ensures HeapOf(heap - {top} + {(top.0 + x.size, top.1)}, Place(bins, top.1, x))
  {
    var after := Place(bins, top.1, x);
    assert (bins[top.1] + [x])[..|bins[top.1]|] == bins[top.1];
    assert Load(after[top.1]) == top.0 + x.size;
    assert forall i :: 0 <= i < |bins| && i != top.1 ==> after[i] == bins[i];
  }
}
