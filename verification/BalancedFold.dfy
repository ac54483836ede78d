/** `_balanced`: folding a list pairwise into a tree of logarithmic depth. */
module BalancedFold {
  import opened Kleene
  import opened Values

  /** One level: neighbours combined, a last odd one carried over. */
  function PairUp<T>(items: seq<T>, combine: (T, T) -> T): (r: seq<T>)
    ensures |r| == (|items| + 1) / 2
  {
    if |items| < 2 then items
    else [combine(items[0], items[1])] + PairUp(items[2..], combine)
  }

  function Fold<T>(items: seq<T>, combine: (T, T) -> T): T
    requires items != []
    decreases |items|
  {
    if |items| == 1 then items[0] else Fold(PairUp(items, combine), combine)
  }

  /** One pass of `_balanced`'s loop. */
  method Paired<T>(items: seq<T>, combine: (T, T) -> T) returns (paired: seq<T>)
    ensures paired == PairUp(items, combine)
  {
    paired := [];
    var i := 0;
    while i + 1 < |items|
      invariant 0 <= i <= |items| && i % 2 == 0
      invariant PairUp(items, combine) == paired + PairUp(items[i..], combine)
    {
      var rest := items[i..];
      assert rest[2..] == items[i + 2..];
      paired := paired + [combine(items[i], items[i + 1])];
      i := i + 2;
    }
    assert items[i..] == if |items| > i then [items[|items| - 1]] else [];
    if |items| % 2 == 1 {
      paired := paired + [items[|items| - 1]];
    }
  }

  /** `_balanced`. */
  method Balanced<T>(items: seq<T>, combine: (T, T) -> T) returns (r: T)
    requires items != []
    ensures r == Fold(items, combine)
  {
    var level := items;
    while |level| > 1
      invariant level != [] && Fold(level, combine) == Fold(items, combine)
      decreases |level|
    {
      level := Paired(level, combine);
    }
    r := level[0];
  }

  function Concat<T, X>(items: seq<T>, leaves: T -> seq<X>): seq<X> {
    if items == [] then [] else leaves(items[0]) + Concat(items[1..], leaves)
  }

  /** Read from left to right, the leaves of the tree are the items in their order. */
  lemma {:induction false} FoldKeepsOrder<T(!new), X>(items: seq<T>, combine: (T, T) -> T, leaves: T -> seq<X>)
    requires items != []
    requires forall x, y {:trigger combine(x, y)} :: leaves(combine(x, y)) == leaves(x) + leaves(y)
    ensures leaves(Fold(items, combine)) == Concat(items, leaves)
    decreases |items|
  {
    if |items| == 1 {
      assert Concat(items, leaves) == leaves(items[0]) + [];
    } else {
      PairUpKeepsOrder(items, combine, leaves);
      FoldKeepsOrder(PairUp(items, combine), combine, leaves);
    }
  }

  lemma {:induction false} PairUpKeepsOrder<T(!new), X>(items: seq<T>, combine: (T, T) -> T, leaves: T -> seq<X>)
    requires forall x, y {:trigger combine(x, y)} :: leaves(combine(x, y)) == leaves(x) + leaves(y)
    ensures Concat(PairUp(items, combine), leaves) == Concat(items, leaves)
  {
    if |items| >= 2 {
      PairUpKeepsOrder(items[2..], combine, leaves);
      assert items[1..][1..] == items[2..];
      var head := combine(items[0], items[1]);
      assert ([head] + PairUp(items[2..], combine))[1..] == PairUp(items[2..], combine);
    }
  }

  /** The least k with n <= 2^k. */
  function CeilLog2(n: nat): (k: nat)
    ensures n <= Pow2(k)
    ensures n > 1 ==> k > 0 && Pow2(k - 1) < n
  {
    if n <= 1 then 0 else 1 + CeilLog2((n + 1) / 2)
  }

  /** The tree is at most ceil(log2 n) deeper than its deepest leaf. */
  lemma {:induction false} FoldIsShallow<T(!new)>(items: seq<T>, combine: (T, T) -> T, depth: T -> nat, k: nat)
    requires items != []
    requires forall x, y {:trigger combine(x, y)} :: depth(combine(x, y)) <= 1 + if depth(x) < depth(y) then depth(y) else depth(x)
    requires forall i :: 0 <= i < |items| ==> depth(items[i]) <= k
    ensures depth(Fold(items, combine)) <= k + CeilLog2(|items|)
    decreases |items|
  {
    if |items| > 1 {
      PairUpDeepensByOne(items, combine, depth, k);
      FoldIsShallow(PairUp(items, combine), combine, depth, k + 1);
    }
  }

  lemma {:induction false} PairUpDeepensByOne<T(!new)>(items: seq<T>, combine: (T, T) -> T, depth: T -> nat, k: nat)
    requires forall x, y {:trigger combine(x, y)} :: depth(combine(x, y)) <= 1 + if depth(x) < depth(y) then depth(y) else depth(x)
    requires forall i :: 0 <= i < |items| ==> depth(items[i]) <= k
    ensures forall i :: 0 <= i < |PairUp(items, combine)| ==> depth(PairUp(items, combine)[i]) <= k + 1
  {
    if |items| >= 2 {
      PairUpDeepensByOne(items[2..], combine, depth, k);
    }
  }

  // ---------------------------------------------------- folding truth values

  function Mapped<T>(items: seq<T>, truth: T -> Truth): (ts: seq<Truth>)
    ensures |ts| == |items|
    ensures forall i :: 0 <= i < |items| ==> ts[i] == truth(items[i])
  {
    seq(|items|, i requires 0 <= i < |items| => truth(items[i]))
  }

  lemma AllAnyOfConcat(a: seq<Truth>, b: seq<Truth>)
    ensures All(a + b) == And(All(a), All(b)) && Any(a + b) == Or(Any(a), Any(b))
  {
    var ab := a + b;
    assert forall i :: 0 <= i < |a| ==> ab[i] == a[i];
    assert forall i :: 0 <= i < |b| ==> ab[|a| + i] == b[i];
  }

  lemma AllAnyOfOne(ts: seq<Truth>)
    requires |ts| == 1
    ensures All(ts) == ts[0] && Any(ts) == ts[0]
  {
  }

  /** A balanced chain of ORs, or of ANDs, has the truth value of the whole list. */
  lemma {:induction false} FoldTruth<T(!new)>(items: seq<T>, combine: (T, T) -> T, truth: T -> Truth, conjoin: bool)
    requires items != []
    requires forall x, y {:trigger combine(x, y)} :: truth(combine(x, y)) == if conjoin then And(truth(x), truth(y)) else Or(truth(x), truth(y))
    ensures truth(Fold(items, combine)) == if conjoin then All(Mapped(items, truth)) else Any(Mapped(items, truth))
    decreases |items|
  {
    if |items| == 1 {
      AllAnyOfOne(Mapped(items, truth));
    } else {
      PairUpTruth(items, combine, truth, conjoin);
      FoldTruth(PairUp(items, combine), combine, truth, conjoin);
    }
  }

  /** A pair and its combination count alike in any list. */
  lemma PairTruth(a: Truth, b: Truth, rest: seq<Truth>, paired: seq<Truth>)
    ensures All(rest) == All(paired) ==> All([a] + ([b] + rest)) == All([And(a, b)] + paired)
    ensures Any(rest) == Any(paired) ==> Any([a] + ([b] + rest)) == Any([Or(a, b)] + paired)
  {
    AllAnyOfConcat([a], [b] + rest);
    AllAnyOfConcat([b], rest);
    AllAnyOfConcat([And(a, b)], paired);
    AllAnyOfConcat([Or(a, b)], paired);
    AllAnyOfOne([a]);
    AllAnyOfOne([b]);
    AllAnyOfOne([And(a, b)]);
    AllAnyOfOne([Or(a, b)]);
  }

  lemma {:induction false} PairUpTruth<T(!new)>(items: seq<T>, combine: (T, T) -> T, truth: T -> Truth, conjoin: bool)
    requires forall x, y {:trigger combine(x, y)} :: truth(combine(x, y)) == if conjoin then And(truth(x), truth(y)) else Or(truth(x), truth(y))
    ensures var paired, all := Mapped(PairUp(items, combine), truth), Mapped(items, truth);
            if conjoin then All(paired) == All(all) else Any(paired) == Any(all)
  {
    if |items| >= 2 {
      PairUpTruth(items[2..], combine, truth, conjoin);
      var a, b := truth(items[0]), truth(items[1]);
      var rest, paired := Mapped(items[2..], truth), Mapped(PairUp(items[2..], combine), truth);
      assert Mapped(PairUp(items, combine), truth) == [truth(combine(items[0], items[1]))] + paired;
      assert Mapped(items, truth) == [a] + ([b] + rest);
      PairTruth(a, b, rest, paired);
    }
  }
}
