/** How good the greedy assignment is: the partition it makes and how far from the best it can be. */
module BalanceBounds {
  import opened Values
  import opened Balance

  // ---------------------------------------------------------------- partition

  function Flat(bins: seq<seq<Split>>): seq<Split> {
    if bins == [] then [] else Flat(bins[..|bins| - 1]) + bins[|bins| - 1]
  }

  lemma {:induction false} FlatPlace(bins: seq<seq<Split>>, t: nat, x: Split)
    requires t < |bins|
    ensures multiset(Flat(Place(bins, t, x))) == multiset(Flat(bins)) + multiset{x}
  {
    var last := |bins| - 1;
    var after := Place(bins, t, x);
    if t == last {
      assert after[..last] == bins[..last];
    } else {
      assert after[..last] == Place(bins[..last], t, x);
      FlatPlace(bins[..last], t, x);
    }
  }

  lemma {:induction false} FlatEmpties(m: nat)
    ensures Flat(Empties(m)) == []
  {
    if m > 0 {
      assert Empties(m)[..m - 1] == Empties(m - 1);
      FlatEmpties(m - 1);
    }
  }

  lemma {:induction false} FlatNonEmpty(bins: seq<seq<Split>>)
    ensures Flat(NonEmpty(bins)) == Flat(bins) && |NonEmpty(bins)| <= |bins|
    ensures forall g :: g in NonEmpty(bins) <==> g in bins && g != []
  {
    if bins != [] {
      var last := |bins| - 1;
      FlatNonEmpty(bins[..last]);
      assert bins == bins[..last] + [bins[last]];
      if bins[last] == [] {
        assert NonEmpty(bins) == NonEmpty(bins[..last]) && Flat(bins) == Flat(bins[..last]);
      } else {
        assert NonEmpty(bins)[..|NonEmpty(bins)| - 1] == NonEmpty(bins[..last]);
      }
    }
  }

  lemma LastCounts(items: seq<Split>)
    requires items != []
    ensures multiset(items) == multiset(items[..|items| - 1]) + multiset{items[|items| - 1]}
  {
    assert items == items[..|items| - 1] + [items[|items| - 1]];
  }

  lemma {:induction false} GreedyPartitions(m: nat, items: seq<Split>)
    requires m > 0
    ensures multiset(Flat(Greedy(m, items))) == multiset(items)
  {
    if items == [] {
      FlatEmpties(m);
    } else {
      var last := |items| - 1;
      var before := Greedy(m, items[..last]);
      GreedyPartitions(m, items[..last]);
      FlatPlace(before, Lightest(before), items[last]);
      LastCounts(items);
    }
  }

  /** Every split is in exactly one group; no group is empty; there are at most `n`. */
  lemma BalancePartitions(splits: seq<Split>, n: int)
    ensures multiset(Flat(Balanced(splits, n))) == multiset(splits)
    ensures [] !in Balanced(splits, n)
    ensures |Balanced(splits, n)| <= if n < 1 then 1 else n
  {
    if splits != [] {
      GreedyPartitions(Count(splits, n), Sort(splits));
      FlatNonEmpty(Bins(splits, n));
    }
  }

  // ------------------------------------------------------------------- spread

  lemma LoadPlace(bins: seq<seq<Split>>, t: nat, x: Split)
    requires t < |bins|
    ensures Load(Place(bins, t, x)[t]) == Load(bins[t]) + x.size
  {
    assert (bins[t] + [x])[..|bins[t]|] == bins[t];
  }

  /** Any two bins, the empty ones too, differ by at most the largest split. */
  lemma {:induction false} SpreadIsSmall(m: nat, items: seq<Split>, largest: nat, i: nat, j: nat)
    requires m > 0 && i < m && j < m && forall k :: 0 <= k < |items| ==> items[k].size <= largest
    ensures Load(Greedy(m, items)[i]) <= Load(Greedy(m, items)[j]) + largest
  {
    if items != [] {
      var last := |items| - 1;
      var before := Greedy(m, items[..last]);
      var t := Lightest(before);
      SpreadIsSmall(m, items[..last], largest, i, j);
      LoadPlace(before, t, items[last]);
      assert Load(before[t]) <= Load(before[j]);
    }
  }

  // ------------------------------------------------- any other way to group them

  /** `items`, in order, each placed where `to` says. */
  function Grouped(m: nat, items: seq<Split>, to: seq<nat>): (bins: seq<seq<Split>>)
    requires |to| == |items| && forall k :: 0 <= k < |to| ==> to[k] < m
    ensures |bins| == m
  {
    if items == [] then Empties(m)
    else
      var last := |items| - 1;
      Place(Grouped(m, items[..last], to[..last]), to[last], items[last])
  }

  function Targets(m: nat, items: seq<Split>): (to: seq<nat>)
    requires m > 0
    ensures |to| == |items| && forall k :: 0 <= k < |to| ==> to[k] < m
  {
    if items == [] then []
    else
      var last := |items| - 1;
      Targets(m, items[..last]) + [Lightest(Greedy(m, items[..last]))]
  }

  lemma {:induction false} GreedyIsGrouped(m: nat, items: seq<Split>)
    requires m > 0
    ensures Greedy(m, items) == Grouped(m, items, Targets(m, items))
  {
    if items != [] {
      var last := |items| - 1;
      GreedyIsGrouped(m, items[..last]);
      assert Targets(m, items)[..last] == Targets(m, items[..last]);
    }
  }

  /** The weight of a bin under `w`. */
  function Weigh(w: Split -> nat, bin: seq<Split>): nat {
    if bin == [] then 0 else Weigh(w, bin[..|bin| - 1]) + w(bin[|bin| - 1])
  }

  function WeighAll(w: Split -> nat, bins: seq<seq<Split>>): nat {
    if bins == [] then 0 else WeighAll(w, bins[..|bins| - 1]) + Weigh(w, bins[|bins| - 1])
  }

  function BySize(): Split -> nat {
    (x: Split) => x.size
  }

  /** Two for a split too big to share a bin of `limit` with one of size `p`, one for the others. */
  function ByShare(p: nat, limit: nat): Split -> nat {
    (x: Split) => if x.size + p > limit then 2 else 1
  }

  lemma {:induction false} LoadIsWeight(bin: seq<Split>)
    ensures Load(bin) == Weigh(BySize(), bin)
  {
    if bin != [] {
      LoadIsWeight(bin[..|bin| - 1]);
    }
  }

  lemma {:induction false} WeighPlace(w: Split -> nat, bins: seq<seq<Split>>, t: nat, x: Split)
    requires t < |bins|
    ensures WeighAll(w, Place(bins, t, x)) == WeighAll(w, bins) + w(x)
  {
    var last := |bins| - 1;
    var after := Place(bins, t, x);
    if t == last {
      assert after[..last] == bins[..last];
      assert (bins[t] + [x])[..|bins[t]|] == bins[t];
    } else {
      assert after[..last] == Place(bins[..last], t, x);
      WeighPlace(w, bins[..last], t, x);
    }
  }

  lemma {:induction false} WeighEmpties(w: Split -> nat, m: nat)
    ensures WeighAll(w, Empties(m)) == 0
  {
    if m > 0 {
      assert Empties(m)[..m - 1] == Empties(m - 1);
      WeighEmpties(w, m - 1);
    }
  }

  /** However they are grouped, the splits weigh the same. */
  lemma {:induction false} GroupingKeepsWeight(w: Split -> nat, m: nat, items: seq<Split>, to: seq<nat>)
    requires |to| == |items| && forall k :: 0 <= k < |to| ==> to[k] < m
    ensures WeighAll(w, Grouped(m, items, to)) == Weigh(w, items)
  {
    if items == [] {
      WeighEmpties(w, m);
    } else {
      var last := |items| - 1;
      GroupingKeepsWeight(w, m, items[..last], to[..last]);
      WeighPlace(w, Grouped(m, items[..last], to[..last]), to[last], items[last]);
    }
  }

  lemma {:induction false} GroupedFrom(m: nat, items: seq<Split>, to: seq<nat>, i: nat, x: Split)
    requires |to| == |items| && (forall k :: 0 <= k < |to| ==> to[k] < m) && i < m
    requires x in Grouped(m, items, to)[i]
    ensures x in items
  {
    if items != [] {
      var last := |items| - 1;
      if x != items[last] {
        GroupedFrom(m, items[..last], to[..last], i, x);
      }
    }
  }

  /** n times x, as repeated addition. */
  function Times(n: nat, x: nat): nat {
    if n == 0 then 0 else x + Times(n - 1, x)
  }

  lemma {:induction false} TimesIsProduct(n: nat, x: nat)
    ensures Times(n, x) == n * x
  {
    if n > 0 {
      TimesIsProduct(n - 1, x);
      assert n * x == x + (n - 1) * x;
    }
  }

  lemma {:induction false} TimesOfSum(n: nat, x: nat, y: nat)
    ensures Times(n, x + y) == Times(n, x) + Times(n, y)
  {
    if n > 0 {
      TimesOfSum(n - 1, x, y);
    }
  }

  lemma {:induction false} SumOfTimes(a: nat, b: nat, x: nat)
    ensures Times(a + b, x) == Times(a, x) + Times(b, x)
  {
    if a > 0 {
      SumOfTimes(a - 1, b, x);
    }
  }

  lemma {:induction false} TimesGrows(n: nat, x: nat, y: nat)
    requires x <= y
    ensures Times(n, x) <= Times(n, y)
  {
    if n > 0 {
      TimesGrows(n - 1, x, y);
    }
  }

  lemma {:induction false} WeighAtMost(w: Split -> nat, bins: seq<seq<Split>>, each: nat)
    requires forall i :: 0 <= i < |bins| ==> Weigh(w, bins[i]) <= each
    ensures WeighAll(w, bins) <= Times(|bins|, each)
  {
    if bins != [] {
      WeighAtMost(w, bins[..|bins| - 1], each);
    }
  }

  lemma {:induction false} WeighAtLeast(w: Split -> nat, bins: seq<seq<Split>>, each: nat)
    requires forall i :: 0 <= i < |bins| ==> Weigh(w, bins[i]) >= each
    ensures WeighAll(w, bins) >= Times(|bins|, each)
  {
    if bins != [] {
      WeighAtLeast(w, bins[..|bins| - 1], each);
    }
  }

  /** No bin of this grouping holds more than `limit`. */
  ghost predicate Within(m: nat, items: seq<Split>, to: seq<nat>, limit: nat) {
    && |to| == |items| && (forall k :: 0 <= k < |to| ==> to[k] < m)
    && forall i :: 0 <= i < m ==> Load(Grouped(m, items, to)[i]) <= limit
  }

  lemma LoadPlaceEach(bins: seq<seq<Split>>, t: nat, x: Split)
    requires t < |bins|
    ensures forall i :: 0 <= i < |bins| ==>
              Load(Place(bins, t, x)[i]) == Load(bins[i]) + if i == t then x.size else 0
  {
    LoadPlace(bins, t, x);
  }

  lemma WithinPrefix(m: nat, items: seq<Split>, to: seq<nat>, limit: nat)
    requires items != [] && Within(m, items, to, limit)
    ensures Within(m, items[..|items| - 1], to[..|items| - 1], limit)
    ensures items[|items| - 1].size <= limit
  {
    var last := |items| - 1;
    var before := Grouped(m, items[..last], to[..last]);
    var after := Place(before, to[last], items[last]);
    LoadPlaceEach(before, to[last], items[last]);
    assert Grouped(m, items, to) == after;
    forall i | 0 <= i < m ensures Load(before[i]) <= limit {
      assert Load(after[i]) <= limit;
    }
    assert Load(after[to[last]]) <= limit;
  }

  // ------------------------------------------------------------ how far from best

  /** What the lightest bin holds. */
  function LeastLoad(m: nat, items: seq<Split>): nat
    requires m > 0
  {
    Load(Greedy(m, items)[Lightest(Greedy(m, items))])
  }

  /** The lightest bin holds no more than its share of what is placed. */
  lemma LightestBelowAverage(m: nat, items: seq<Split>)
    requires m > 0
    ensures Times(m, LeastLoad(m, items)) <= Weigh(BySize(), items)
  {
    var bins := Greedy(m, items);
    var l := Load(bins[Lightest(bins)]);
    forall i | 0 <= i < m ensures Weigh(BySize(), bins[i]) >= l {
      LoadIsWeight(bins[i]);
    }
    WeighAtLeast(BySize(), bins, l);
    GreedyIsGrouped(m, items);
    GroupingKeepsWeight(BySize(), m, items, Targets(m, items));
  }

  lemma TotalWithin(m: nat, items: seq<Split>, to: seq<nat>, limit: nat)
    requires Within(m, items, to, limit)
    ensures Weigh(BySize(), items) <= Times(m, limit)
  {
    var best := Grouped(m, items, to);
    forall i | 0 <= i < m ensures Weigh(BySize(), best[i]) <= limit {
      LoadIsWeight(best[i]);
    }
    WeighAtMost(BySize(), best, limit);
    GroupingKeepsWeight(BySize(), m, items, to);
  }

  /** No split is larger than the one before it. */
  predicate LargestFirst(items: seq<Split>) {
    |items| < 2 || (items[|items| - 2].size >= items[|items| - 1].size && LargestFirst(items[..|items| - 1]))
  }

  lemma {:induction false} LastIsSmallest(items: seq<Split>, k: nat)
    requires k < |items| && LargestFirst(items)
    ensures items[k].size >= items[|items| - 1].size
  {
    if k < |items| - 1 {
      LastIsSmallest(items[..|items| - 1], k);
    }
  }

  lemma {:induction false} LoadAtLeast(bin: seq<Split>, p: nat)
    requires forall x :: x in bin ==> x.size >= p
    ensures |bin| >= 1 ==> Load(bin) >= p
    ensures |bin| >= 3 ==> Load(bin) >= 3 * p
  {
    if bin != [] {
      var a := bin[..|bin| - 1];
      assert bin[|bin| - 1] in bin;
      LoadAtLeast(a, p);
      if |bin| >= 3 {
        LoadAtLeast(a[..|a| - 1], p);
        assert a[|a| - 1] == bin[|bin| - 2] && bin[|bin| - 2] in bin;
      }
    }
  }

  /** In a bin that holds no more than `limit`, splits of more than a third of it weigh two at most. */
  lemma RoomForTwo(bin: seq<Split>, p: nat, limit: nat)
    requires (forall x :: x in bin ==> x.size >= p) && 3 * p > limit && Load(bin) <= limit
    ensures Weigh(ByShare(p, limit), bin) <= 2
  {
    LoadAtLeast(bin, p);
    assert |bin| <= 2;
    if |bin| == 1 {
      assert bin[..0] == [];
    } else if |bin| == 2 {
      var w := ByShare(p, limit);
      assert bin[0] in bin && bin[1] in bin;
      assert bin[..1][..0] == [] && |bin[..1]| == 1;
      assert Load(bin[..1]) == bin[0].size && Weigh(w, bin[..1]) == w(bin[0]);
      assert Load(bin) == bin[0].size + bin[1].size && Weigh(w, bin) == w(bin[0]) + w(bin[1]);
    }
  }

  /** A bin the split of size `p` would fill beyond `limit` weighs two at least. */
  lemma FilledByTwo(bin: seq<Split>, p: nat, limit: nat)
    requires Load(bin) + p > limit && p <= limit
    ensures Weigh(ByShare(p, limit), bin) >= 2
  {
    if |bin| >= 1 {
      var a := bin[..|bin| - 1];
      if |bin| >= 2 {
        assert a != [];
      } else {
        assert a == [];
      }
    }
  }

  /** A split of more than a third of the limit goes where it fits. */
  lemma RoomyBins(m: nat, items: seq<Split>, to: seq<nat>, p: nat, limit: nat)
    requires Within(m, items, to, limit) && 3 * p > limit && forall k :: 0 <= k < |items| ==> items[k].size >= p
    ensures Weigh(ByShare(p, limit), items) <= Times(m, 2)
  {
    var best := Grouped(m, items, to);
    forall i | 0 <= i < m ensures Weigh(ByShare(p, limit), best[i]) <= 2 {
      forall x: Split | x in best[i] ensures x.size >= p {
        GroupedFrom(m, items, to, i, x);
      }
      RoomForTwo(best[i], p, limit);
    }
    WeighAtMost(ByShare(p, limit), best, 2);
    GroupingKeepsWeight(ByShare(p, limit), m, items, to);
  }

  // ------------------------------------------------------- the last split's bin

  /** What any grouping within `limit` says of the splits placed so far, the last of them the smallest. */
  predicate Feasible(m: nat, items: seq<Split>, limit: nat) {
    && items != []
    && var p := items[|items| - 1].size;
       && p <= limit && Weigh(BySize(), items) <= Times(m, limit)
       && (3 * p > limit ==> Weigh(ByShare(p, limit), items) <= Times(m, 2))
  }

  lemma GroupingIsFeasible(m: nat, items: seq<Split>, to: seq<nat>, limit: nat)
    requires items != [] && Within(m, items, to, limit) && LargestFirst(items)
    ensures Feasible(m, items, limit)
  {
    var p := items[|items| - 1].size;
    WithinPrefix(m, items, to, limit);
    TotalWithin(m, items, to, limit);
    if 3 * p > limit {
      forall k | 0 <= k < |items| ensures items[k].size >= p {
        LastIsSmallest(items, k);
      }
      RoomyBins(m, items, to, p, limit);
    }
  }

  lemma {:induction false} FeasibleUpTo(m: nat, items: seq<Split>, to: seq<nat>, limit: nat, k: nat)
    requires Within(m, items, to, limit) && LargestFirst(items) && k < |items|
    ensures Feasible(m, items[..k + 1], limit)
    decreases |items|
  {
    if k + 1 == |items| {
      assert items[..k + 1] == items;
      GroupingIsFeasible(m, items, to, limit);
    } else {
      var last := |items| - 1;
      WithinPrefix(m, items, to, limit);
      FeasibleUpTo(m, items[..last], to[..last], limit, k);
      assert items[..last][..k + 1] == items[..k + 1];
    }
  }

  lemma LastWeighs(w: Split -> nat, items: seq<Split>)
    requires items != []
    ensures Weigh(w, items) == Weigh(w, items[..|items| - 1]) + w(items[|items| - 1])
  {
  }

  lemma FilledBins(m: nat, items: seq<Split>, p: nat, limit: nat)
    requires m > 0 && p <= limit && LeastLoad(m, items) + p > limit
    ensures Times(m, 2) <= Weigh(ByShare(p, limit), items)
  {
    var bins := Greedy(m, items);
    forall i | 0 <= i < m ensures Weigh(ByShare(p, limit), bins[i]) >= 2 {
      FilledByTwo(bins[i], p, limit);
    }
    WeighAtLeast(ByShare(p, limit), bins, 2);
    GreedyIsGrouped(m, items);
    GroupingKeepsWeight(ByShare(p, limit), m, items, Targets(m, items));
  }

  /** Within 2 - 1/m of `limit`, m times over. */
  predicate WithinTwo(m: nat, load: nat, limit: nat)
    requires m > 0
  {
    Times(m, load) <= Times(m, limit) + Times(m - 1, limit)
  }

  /** Within 4/3 - 1/(3m) of `limit`, 3m times over. */
  predicate WithinFour(m: nat, load: nat, limit: nat)
    requires m > 0
  {
    3 * Times(m, load) <= 3 * Times(m, limit) + Times(m - 1, limit)
  }

  /** Within 2 - 1/m, and within 4/3 - 1/(3m), of `limit`. */
  predicate NearBest(m: nat, load: nat, limit: nat)
    requires m > 0
  {
    WithinTwo(m, load, limit) && WithinFour(m, load, limit)
  }

  lemma {:induction false} TimesNothing(n: nat)
    ensures Times(n, 0) == 0
  {
    if n > 0 {
      TimesNothing(n - 1);
    }
  }

  lemma FromAverage(m: nat, load: nat, limit: nat, p: nat)
    requires m > 0 && Times(m, load) <= Times(m, limit) + Times(m - 1, p) && p <= limit
    ensures WithinTwo(m, load, limit)
  {
    TimesGrows(m - 1, p, limit);
  }

  lemma ThreeTimes(n: nat, p: nat)
    ensures Times(n, 3 * p) == 3 * Times(n, p)
  {
    assert 3 * p == p + p + p;
    TimesOfSum(n, p, p);
    TimesOfSum(n, p + p, p);
  }

  lemma FromAverageOfThree(m: nat, load: nat, limit: nat, p: nat)
    requires m > 0 && Times(m, load) <= Times(m, limit) + Times(m - 1, p) && 3 * p <= limit
    ensures WithinFour(m, load, limit)
  {
    ThreeTimes(m - 1, p);
    TimesGrows(m - 1, 3 * p, limit);
  }

  lemma FromFit(m: nat, load: nat, limit: nat)
    requires m > 0 && load <= limit
    ensures WithinFour(m, load, limit)
  {
    TimesGrows(m, load, limit);
  }

  lemma NothingIsWithin(m: nat, limit: nat)
    requires m > 0
    ensures WithinTwo(m, 0, limit) && WithinFour(m, 0, limit)
  {
    TimesNothing(m);
  }

  /** The bin the last split goes to holds, m times over, no more than all the splits and its size m - 1 times more. */
  lemma AverageBound(m: nat, items: seq<Split>, x: Split, limit: nat)
    requires m > 0 && Feasible(m, items + [x], limit)
    ensures Times(m, LeastLoad(m, items) + x.size) <= Times(m, limit) + Times(m - 1, x.size)
  {
    LightestBelowAverage(m, items);
    assert (items + [x])[..|items|] == items;
    LastWeighs(BySize(), items + [x]);
    TimesOfSum(m, LeastLoad(m, items), x.size);
  }

  /** A split of more than a third of the limit goes where it fits. */
  lemma BigSplitFits(m: nat, items: seq<Split>, x: Split, limit: nat)
    requires m > 0 && Feasible(m, items + [x], limit) && 3 * x.size > limit
    ensures LeastLoad(m, items) + x.size <= limit
  {
    assert (items + [x])[..|items|] == items;
    LastWeighs(ByShare(x.size, limit), items + [x]);
    if LeastLoad(m, items) + x.size > limit {
      FilledBins(m, items, x.size, limit);
    }
  }

  lemma LastSplitIsNear(m: nat, items: seq<Split>, x: Split, limit: nat)
    requires m > 0 && Feasible(m, items + [x], limit)
    ensures NearBest(m, LeastLoad(m, items) + x.size, limit)
  {
    AverageBound(m, items, x, limit);
    FromAverage(m, LeastLoad(m, items) + x.size, limit, x.size);
    if 3 * x.size <= limit {
      FromAverageOfThree(m, LeastLoad(m, items) + x.size, limit, x.size);
    } else {
      BigSplitFits(m, items, x, limit);
      FromFit(m, LeastLoad(m, items) + x.size, limit);
    }
  }

  /** Where the last split went, and that the other bins are as they were. */
  lemma GreedyLast(m: nat, items: seq<Split>, i: nat)
    requires m > 0 && i < m && items != []
    ensures var last := |items| - 1; var before := Greedy(m, items[..last]);
            Load(Greedy(m, items)[i]) == Load(before[i]) + if i == Lightest(before) then items[last].size else 0
  {
    var last := |items| - 1;
    var before := Greedy(m, items[..last]);
    LoadPlaceEach(before, Lightest(before), items[last]);
  }

  /** The split a bin took last, and how light the bin was then. */
  lemma {:induction false} LastPlaced(m: nat, items: seq<Split>, i: nat) returns (k: int)
    requires m > 0 && i < m
    ensures -1 <= k < |items|
    ensures k < 0 ==> Load(Greedy(m, items)[i]) == 0
    ensures k >= 0 ==> Load(Greedy(m, items)[i]) == LeastLoad(m, items[..k]) + items[k].size
    decreases |items|
  {
    if items == [] {
      k := -1;
    } else {
      var last := |items| - 1;
      GreedyLast(m, items, i);
      if i == Lightest(Greedy(m, items[..last])) {
        k := last;
      } else {
        k := LastPlaced(m, items[..last], i);
        if k >= 0 {
          assert items[..last][..k] == items[..k];
        }
      }
    }
  }

  /**
   * Every bin, against every other way to group the same splits into m bins: list scheduling's
   * 2 - 1/m, and 4/3 - 1/(3m) as the largest go first.
   */
  lemma EachIsNearBest(m: nat, items: seq<Split>, to: seq<nat>, limit: nat, i: nat)
    requires m > 0 && i < m && Within(m, items, to, limit) && LargestFirst(items)
    ensures NearBest(m, Load(Greedy(m, items)[i]), limit)
  {
    var k := LastPlaced(m, items, i);
    NothingIsWithin(m, limit);
    if k >= 0 {
      FeasibleUpTo(m, items, to, limit, k);
      assert items[..k + 1] == items[..k] + [items[k]];
      LastSplitIsNear(m, items[..k], items[k], limit);
    }
  }

  // ---------------------------------------------- every other grouping, as groups

  /** Take `x` out of the bin it is in. */
  lemma TakeOut(bins: seq<seq<Split>>, x: Split) returns (t: nat, rest: seq<seq<Split>>)
    requires x in Flat(bins)
    ensures t < |bins| == |rest| && multiset(Flat(rest)) + multiset{x} == multiset(Flat(bins))
    ensures forall i :: 0 <= i < |bins| ==> Load(bins[i]) == Load(rest[i]) + if i == t then x.size else 0
  {
    var i :| 0 <= i < |bins| && x in bins[i] by { InSome(bins, x); }
    t := i;
    var j :| 0 <= j < |bins[t]| && bins[t][j] == x;
    var less := bins[t][..j] + bins[t][j + 1..];
    rest := bins[t := less];
    LoadWithout(bins[t], j);
    FlatReplace(bins, t, less, x, j);
  }

  lemma {:induction false} InSome(bins: seq<seq<Split>>, x: Split)
    requires x in Flat(bins)
    ensures exists i :: 0 <= i < |bins| && x in bins[i]
  {
    var last := |bins| - 1;
    if x in bins[last] {
    } else {
      InSome(bins[..last], x);
      var i :| 0 <= i < last && x in bins[..last][i];
      assert x in bins[i];
    }
  }

  lemma {:induction false} LoadOfBoth(a: seq<Split>, b: seq<Split>)
    ensures Load(a + b) == Load(a) + Load(b)
  {
    if b == [] {
      assert a + b == a;
    } else {
      LoadOfBoth(a, b[..|b| - 1]);
      assert (a + b)[..|a + b| - 1] == a + b[..|b| - 1];
    }
  }

  lemma LoadWithout(bin: seq<Split>, j: nat)
    requires j < |bin|
    ensures Load(bin) == Load(bin[..j] + bin[j + 1..]) + bin[j].size
    ensures multiset(bin) == multiset(bin[..j] + bin[j + 1..]) + multiset{bin[j]}
  {
    var a, x, b := bin[..j], [bin[j]], bin[j + 1..];
    assert bin == a + (x + b);
    LoadOfBoth(a, x + b);
    LoadOfBoth(x, b);
    LoadOfBoth(a, b);
    assert x[..0] == [];
  }

  lemma {:induction false} FlatReplace(bins: seq<seq<Split>>, t: nat, less: seq<Split>, x: Split, j: nat)
    requires t < |bins| && multiset(bins[t]) == multiset(less) + multiset{x}
    ensures multiset(Flat(bins[t := less])) + multiset{x} == multiset(Flat(bins))
  {
    var last := |bins| - 1;
    var after := bins[t := less];
    if t == last {
      assert after[..last] == bins[..last];
    } else {
      assert after[..last] == bins[..last][t := less];
      FlatReplace(bins[..last], t, less, x, j);
    }
  }

  lemma CancelLast(items: seq<Split>, rest: multiset<Split>)
    requires items != [] && rest + multiset{items[|items| - 1]} == multiset(items)
    ensures rest == multiset(items[..|items| - 1])
  {
    assert items == items[..|items| - 1] + [items[|items| - 1]];
    assert rest == multiset(items) - multiset{items[|items| - 1]};
  }

  lemma CancelFirst(a: seq<Split>, b: seq<Split>)
    requires a != [] && b != [] && a[0] == b[0] && multiset(a) == multiset(b)
    ensures multiset(a[1..]) == multiset(b[1..]) <= multiset(a)
  {
    assert a == [a[0]] + a[1..] && b == [b[0]] + b[1..];
    assert multiset(a[1..]) == multiset(a) - multiset{a[0]};
    assert multiset(b[1..]) == multiset(b) - multiset{b[0]};
  }

  /** Any partition of the splits into m groups is one that places them one by one. */
  lemma {:induction false} AsPlacement(m: nat, items: seq<Split>, groups: seq<seq<Split>>) returns (to: seq<nat>)
    requires |groups| == m && multiset(Flat(groups)) == multiset(items)
    ensures |to| == |items| && forall k :: 0 <= k < |to| ==> to[k] < m
    ensures forall i :: 0 <= i < m ==> Load(Grouped(m, items, to)[i]) == Load(groups[i])
    decreases |items|
  {
    if items == [] {
      to := [];
      assert |multiset(Flat(groups))| == 0;
      NothingLoads(groups);
    } else {
      var last := |items| - 1;
      var x := items[last];
      assert x in multiset(Flat(groups));
      var t, rest := TakeOut(groups, x);
      CancelLast(items, multiset(Flat(rest)));
      var front := AsPlacement(m, items[..last], rest);
      to := front + [t];
      assert to[..last] == front;
      LoadPlaceEach(Grouped(m, items[..last], front), t, x);
    }
  }

  lemma {:induction false} NothingLoads(groups: seq<seq<Split>>)
    requires |Flat(groups)| == 0
    ensures forall i :: 0 <= i < |groups| ==> groups[i] == []
  {
    if groups != [] {
      NothingLoads(groups[..|groups| - 1]);
      assert forall i :: 0 <= i < |groups| - 1 ==> groups[i] == groups[..|groups| - 1][i];
    }
  }

  // ------------------------------------------------------------------- sorting

  ghost predicate InOrder(items: seq<Split>) {
    forall i, j :: 0 <= i < j < |items| ==> Precedes(items[i], items[j])
  }

  lemma PrecedesIsTransitive(a: Split, b: Split, c: Split)
    requires Precedes(a, b) && Precedes(b, c)
    ensures Precedes(a, c)
  {
    if a.size == b.size == c.size {
      TextOrderTransitive(a.path, b.path, c.path);
    }
  }

  lemma PrecedesIsTotal(a: Split, b: Split)
    ensures Precedes(a, b) || Precedes(b, a)
    ensures Precedes(a, b) && Precedes(b, a) ==> a.path == b.path
  {
    TextOrderAntisymmetric(a.path, b.path);
    TextOrderEqual(a.path, b.path);
  }

  lemma {:induction false} InsertKeepsOrder(x: Split, items: seq<Split>)
    requires InOrder(items)
    ensures InOrder(Insert(x, items))
  {
    if items != [] {
      PrecedesIsTotal(x, items[0]);
      if Precedes(x, items[0]) {
        forall j | 0 <= j < |items| ensures Precedes(x, items[j]) {
          if j > 0 {
            PrecedesIsTransitive(x, items[0], items[j]);
          }
        }
      } else {
        var rest := Insert(x, items[1..]);
        InsertKeepsOrder(x, items[1..]);
        forall j | 0 <= j < |rest| ensures Precedes(items[0], rest[j]) {
          assert rest[j] in multiset(rest);
          assert rest[j] == x || rest[j] in items[1..];
        }
      }
    }
  }

  lemma {:induction false} OrderIsLargestFirst(items: seq<Split>)
    requires InOrder(items)
    ensures LargestFirst(items)
  {
    if |items| >= 2 {
      assert Precedes(items[|items| - 2], items[|items| - 1]);
      OrderIsLargestFirst(items[..|items| - 1]);
    }
  }

  lemma {:induction false} SortInOrder(splits: seq<Split>)
    ensures InOrder(Sort(splits))
  {
    if splits != [] {
      SortInOrder(splits[1..]);
      InsertKeepsOrder(splits[0], Sort(splits[1..]));
    }
  }

  lemma SortOrders(splits: seq<Split>)
    ensures InOrder(Sort(splits)) && LargestFirst(Sort(splits))
  {
    SortInOrder(splits);
    OrderIsLargestFirst(Sort(splits));
  }

  ghost predicate DistinctPaths(items: seq<Split>) {
    forall i, j :: 0 <= i < j < |items| ==> items[i].path != items[j].path
  }

  ghost predicate PathsTell(items: multiset<Split>) {
    forall x, y :: x in items && y in items && x.path == y.path ==> x == y
  }

  lemma FirstIsSame(a: seq<Split>, b: seq<Split>)
    requires a != [] && b != [] && InOrder(a) && InOrder(b)
    requires b[0] in a && a[0] in b && (b[0].path == a[0].path ==> b[0] == a[0])
    ensures a[0] == b[0]
  {
    var i :| 0 <= i < |b| && b[i] == a[0];
    var j :| 0 <= j < |a| && a[j] == b[0];
    if i > 0 && j > 0 {
      PrecedesIsTotal(a[0], b[0]);
    }
  }

  lemma {:induction false} OrderIsUnique(a: seq<Split>, b: seq<Split>)
    requires InOrder(a) && InOrder(b) && multiset(a) == multiset(b) && PathsTell(multiset(a))
    ensures a == b
  {
    assert |multiset(a)| == |a| && |multiset(b)| == |b|;
    if a != [] {
      assert a[0] in multiset(b) && b[0] in multiset(a);
      FirstIsSame(a, b);
      CancelFirst(a, b);
      OrderIsUnique(a[1..], b[1..]);
    }
  }

  lemma DistinctPathsTell(items: seq<Split>)
    requires DistinctPaths(items)
    ensures PathsTell(multiset(items))
  {
    forall x, y | x in multiset(items) && y in multiset(items) && x.path == y.path ensures x == y {
      var i :| 0 <= i < |items| && items[i] == x;
      var j :| 0 <= j < |items| && items[j] == y;
    }
  }

  /** With distinct paths, a retried task reads the same files whatever order the splits come in. */
  lemma BalanceIsDeterministic(a: seq<Split>, b: seq<Split>, n: int)
    requires DistinctPaths(a) && multiset(a) == multiset(b)
    ensures Balanced(a, n) == Balanced(b, n)
  {
    SortOrders(a);
    SortOrders(b);
    DistinctPathsTell(a);
    OrderIsUnique(Sort(a), Sort(b));
    assert |multiset(a)| == |multiset(b)|;
  }

  // ------------------------------------------------------------- main results

  lemma GroupIsNearBest(splits: seq<Split>, n: int, groups: seq<seq<Split>>, limit: nat, g: seq<Split>)
    requires |groups| == Count(splits, n) && multiset(Flat(groups)) == multiset(splits)
    requires forall i :: 0 <= i < |groups| ==> Load(groups[i]) <= limit
    requires g in Balanced(splits, n)
    ensures Count(splits, n) > 0 && NearBest(Count(splits, n), Load(g), limit)
  {
    var i := BinOfGroup(splits, n, g);
    var to := PlacementWithin(Count(splits, n), Sort(splits), groups, limit);
    SortOrders(splits);
    EachIsNearBest(Count(splits, n), Sort(splits), to, limit, i);
  }

  /**
   * Every group, the heaviest too, against every partition of the same splits into as many groups
   * that keeps each within `limit`: within 2 - 1/m of it, and within 4/3 - 1/(3m).
   */
  lemma BalanceIsNearBest(splits: seq<Split>, n: int, groups: seq<seq<Split>>, limit: nat, g: seq<Split>, m: nat, load: nat)
    requires |groups| == m == Count(splits, n) && multiset(Flat(groups)) == multiset(splits)
    requires forall i :: 0 <= i < m ==> Load(groups[i]) <= limit
    requires g in Balanced(splits, n) && load == Load(g)
    ensures m * load <= (2 * m - 1) * limit && 3 * (m * load) <= (4 * m - 1) * limit
  {
    GroupIsNearBest(splits, n, groups, limit, g);
    NearBestInProducts(m, load, limit, 2 * m - 1, 4 * m - 1);
  }

  /** In products: m times the load is at most 2m - 1 times the limit, and 3m times it at most 4m - 1 times. */
  lemma NearBestInProducts(m: nat, load: nat, limit: nat, two: nat, four: nat)
    requires m > 0 && two == 2 * m - 1 && four == 4 * m - 1
    ensures NearBest(m, load, limit) <==> m * load <= two * limit && 3 * (m * load) <= four * limit
  {
    TimesIsProduct(m, load);
    TimesIsProduct(m, limit);
    TimesIsProduct(m - 1, limit);
    Spread(m, limit, two, four);
  }

  lemma Spread(m: nat, limit: nat, two: nat, four: nat)
    requires m > 0 && two == 2 * m - 1 && four == 4 * m - 1
    ensures two * limit == m * limit + (m - 1) * limit
    ensures four * limit == 3 * (m * limit) + (m - 1) * limit
  {
    TimesIsProduct(two, limit);
    TimesIsProduct(four, limit);
    TimesIsProduct(m, limit);
    TimesIsProduct(m - 1, limit);
    SumOfTimes(m, m - 1, limit);
    SumOfTimes(m, m, limit);
    SumOfTimes(m + m, m, limit);
    SumOfTimes(m + m + m, m - 1, limit);
  }

  lemma PlacementWithin(m: nat, items: seq<Split>, groups: seq<seq<Split>>, limit: nat) returns (to: seq<nat>)
    requires |groups| == m && multiset(Flat(groups)) == multiset(items)
    requires forall i :: 0 <= i < |groups| ==> Load(groups[i]) <= limit
    ensures Within(m, items, to, limit)
  {
    to := AsPlacement(m, items, groups);
  }

  lemma BinOfGroup(splits: seq<Split>, n: int, g: seq<Split>) returns (i: nat)
    requires g in Balanced(splits, n)
    ensures i < Count(splits, n) && Greedy(Count(splits, n), Sort(splits))[i] == g
  {
    FlatNonEmpty(Bins(splits, n));
    var j :| 0 <= j < |Bins(splits, n)| && Bins(splits, n)[j] == g;
    i := j;
  }
}
