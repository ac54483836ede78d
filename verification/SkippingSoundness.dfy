/** Why skipping loses no row: each step of the pipeline weakens, or keeps, the predicate. */
module SkippingSoundness {
  import opened Wrappers
  import opened Kleene
  import opened Values
  import opened Predicates
  import opened LiteralAlignment
  import opened LikeRange
  import opened Skipping

  /** `b` is no stronger than `a`; exactly as strong when `exact`. */
  predicate Weakens(exact: bool, a: Truth, b: Truth) {
    && (a == True ==> b == True)
    && (exact ==> a == b)
  }

  // ------------------------------------------------------------ preparation

  lemma AlignComparisonKeeps(env: Engine, schema: Schema, op: CmpOp, l: Operand, r: Operand, row: Row)
    requires TypedRow(schema, row)
    ensures Eval(env, schema, AlignComparison(env, schema, op, l, r), row) == CompareOperands(env, schema, op, l, r, row)
  {
    var flipped := l.Lit? && r.Col?;
    var (column, other) := if flipped then (r, l) else (l, r);
    var wanted := if flipped then Flip(op) else op;
    var target := ColumnType(schema, column);
    if target.Some? && other.Lit? && SkipLiteral(env, other.lit, target.value, wanted).Some? {
      AlignmentMovesNoBoundary(env, other.lit, target.value, wanted, row[column.path]);
    }
  }

  lemma AlignItemKeeps(env: Engine, schema: Schema, t: Operand, item: Operand, want: CmpOp, row: Row)
    requires TypedRow(schema, row)
    requires ColumnType(schema, t).Some? && want in {Eq, Ge, Le}
    ensures var aligned := AlignItem(env, ColumnType(schema, t).value, item, want);
            CompareOperands(env, schema, want, t, aligned, row) == CompareOperands(env, schema, want, t, item, row)
  {
    var type_ := ColumnType(schema, t).value;
    if item.Lit? && SkipLiteral(env, item.lit, type_, want).Some? {
      AlignmentMovesNoBoundary(env, item.lit, type_, want, row[t.path]);
    }
  }

  lemma LikeAsRangeWeakens(env: Engine, schema: Schema, t: Operand, pattern: string, row: Row)
    requires TypedRow(schema, row)
    requires ColumnType(schema, t) == Some(TextType)
    ensures var node := Like(t, pattern, false, false);
            Weakens(false, Eval(env, schema, node, row), Eval(env, schema, LikeAsRange(t, pattern, node), row))
  {
    var v := row[t.path];
    if v.TextV? && PrefixOf(pattern).Some? && Matches(pattern, v.s) {
      LikeImpliesRange(pattern, v.s);
      var (prefix, whole) := PrefixOf(pattern).value;
      if !whole && UpperBound(prefix).Some? {
        TextRangeHolds(env, schema, t, prefix, UpperBound(prefix).value, row);
      }
    }
  }

  /** A text between two others, as the AND of two comparisons. */
  lemma TextRangeHolds(env: Engine, schema: Schema, t: Operand, low: string, high: string, row: Row)
    requires TypedRow(schema, row) && ColumnType(schema, t) == Some(TextType) && row[t.path].TextV?
    requires TextOrder(row[t.path].s, low) >= 0 && TextOrder(row[t.path].s, high) < 0
    ensures Eval(env, schema, AndN([Cmp(Ge, t, Lit(StrL(low))), Cmp(Lt, t, Lit(StrL(high)))]), row) == True
  {
    var args := [Cmp(Ge, t, Lit(StrL(low))), Cmp(Lt, t, Lit(StrL(high)))];
    var ts := Truths(env, schema, args, row);
    assert ts[0] == True && ts[1] == True;
  }

  lemma {:induction false} PrepareWeakens(env: Engine, schema: Schema, node: Node, exact: bool, row: Row)
    requires TypedRow(schema, row)
    ensures Weakens(exact, Eval(env, schema, node, row), Eval(env, schema, Prepare(env, schema, node, exact), row))
  {
    match node
    case AndN(args) => PrepareAllWeakens(env, schema, args, exact, row);
    case OrN(args) => PrepareAllWeakens(env, schema, args, exact, row);
    case NotN(arg) => PrepareWeakens(env, schema, arg, true, row);
    case Cmp(op, l, r) => AlignComparisonKeeps(env, schema, op, l, r, row);
    case In(t, items, negated) =>
      if ColumnType(schema, t).Some? {
        forall i | 0 <= i < |items| {
          AlignItemKeeps(env, schema, t, items[i], Eq, row);
        }
        var aligned := Prepare(env, schema, node, exact).items;
        assert Equalities(env, schema, t, aligned, row) == Equalities(env, schema, t, items, row);
      }
    case Between(t, low, high, negated) =>
      if ColumnType(schema, t).Some? {
        AlignItemKeeps(env, schema, t, low, Ge, row);
        AlignItemKeeps(env, schema, t, high, Le, row);
      }
    case Like(t, pattern, insensitive, negated) =>
      if !insensitive && !negated && !exact && ColumnType(schema, t) == Some(TextType) {
        LikeAsRangeWeakens(env, schema, t, pattern, row);
      }
    case _ =>
  }

  lemma PrepareAllWeakens(env: Engine, schema: Schema, args: seq<Node>, exact: bool, row: Row)
    requires TypedRow(schema, row)
    ensures var prepared := seq(|args|, i requires 0 <= i < |args| => Prepare(env, schema, args[i], exact));
            && Weakens(exact, All(Truths(env, schema, args, row)), All(Truths(env, schema, prepared, row)))
            && Weakens(exact, Any(Truths(env, schema, args, row)), Any(Truths(env, schema, prepared, row)))
  {
    var prepared := seq(|args|, i requires 0 <= i < |args| => Prepare(env, schema, args[i], exact));
    forall i | 0 <= i < |args| {
      PrepareWeakens(env, schema, args[i], exact, row);
    }
    PointwiseWeakens(exact, Truths(env, schema, args, row), Truths(env, schema, prepared, row));
  }

  lemma PointwiseWeakens(exact: bool, as_: seq<Truth>, bs: seq<Truth>)
    requires |as_| == |bs|
    requires forall i :: 0 <= i < |as_| ==> Weakens(exact, as_[i], bs[i])
    ensures Weakens(exact, All(as_), All(bs)) && Weakens(exact, Any(as_), Any(bs))
  {
    if exact {
      assert as_ == bs;
    }
  }

  // ------------------------------------------------------------------ _skip

  /** What `Kept` keeps is what was there, in order; all of it when nothing is dropped. */
  lemma {:induction false} KeptIsThere<T>(os: seq<Option<T>>)
    ensures |Kept(os)| <= |os|
    ensures forall k :: 0 <= k < |Kept(os)| ==> Some(Kept(os)[k]) in os
    ensures |Kept(os)| == |os| ==> forall i :: 0 <= i < |os| ==> os[i] == Some(Kept(os)[i])
  {
    if os != [] {
      KeptIsThere(os[1..]);
    }
  }

  lemma {:induction false} SkipWeakens(env: Engine, schema: Schema, node: Node, exact: bool, row: Row)
    requires Skip(schema, node, exact).Some?
    ensures Weakens(exact, Eval(env, schema, node, row), JEval(env, schema, Skip(schema, node, exact).value, row))
  {
    match node
    case AndN(args) => SkipJunctionWeakens(env, schema, args, exact, row);
    case OrN(args) => SkipJunctionWeakens(env, schema, args, exact, row);
    case NotN(arg) => SkipWeakens(env, schema, arg, true, row);
    case _ => SkipLeafKeeps(env, schema, node, row);
  }

  lemma SkipJunctionWeakens(env: Engine, schema: Schema, args: seq<Node>, exact: bool, row: Row)
    ensures var parts := Kept(Skips(schema, args, exact)); var ts := Truths(env, schema, args, row);
            var js := JTruths(env, schema, parts, row);
            && (!exact || |parts| == |args| ==> Weakens(exact, All(ts), All(js)))
            && (|parts| == |args| ==> Weakens(exact, Any(ts), Any(js)))
            && (|parts| == 1 ==> All(js) == js[0])
  {
    var os := Skips(schema, args, exact);
    var truth := (j: Json) => JEval(env, schema, j, row);
    forall i | 0 <= i < |args| && os[i].Some?
      ensures Weakens(exact, Truths(env, schema, args, row)[i], truth(os[i].value))
    {
      SkipWeakens(env, schema, args[i], exact, row);
    }
    JunctionWeakens(exact, Truths(env, schema, args, row), os, truth, JTruths(env, schema, Kept(os), row));
  }

  /** Dropping some of the parts, the others being no stronger. */
  lemma JunctionWeakens<T>(exact: bool, ts: seq<Truth>, os: seq<Option<T>>, truth: T -> Truth, js: seq<Truth>)
    requires |os| == |ts| && |js| == |Kept(os)| && forall k :: 0 <= k < |js| ==> js[k] == truth(Kept(os)[k])
    requires forall i :: 0 <= i < |os| && os[i].Some? ==> Weakens(exact, ts[i], truth(os[i].value))
    ensures !exact || |js| == |ts| ==> Weakens(exact, All(ts), All(js))
    ensures |js| == |ts| ==> Weakens(exact, Any(ts), Any(js))
    ensures |js| == 1 ==> All(js) == js[0]
  {
    KeptIsThere(os);
    if |js| == |ts| {
      PointwiseWeakens(exact, ts, js);
    } else if All(ts) == True {
      forall k | 0 <= k < |js| ensures js[k] == True {
        var i :| 0 <= i < |os| && os[i] == Some(Kept(os)[k]);
        assert ts[i] == True;
      }
    }
  }

  lemma SkipLeafKeeps(env: Engine, schema: Schema, node: Node, row: Row)
    requires !node.AndN? && !node.OrN? && !node.NotN?
    requires SkipLeaf(node).Some?
    ensures JEval(env, schema, SkipLeaf(node).value, row) == Eval(env, schema, node, row)
  {
    match node
    case In(t, items, negated) =>
      var eqs := seq(|items|, i requires 0 <= i < |items| => JCmp(Eq, t, items[i]));
      assert JTruths(env, schema, eqs, row) == Equalities(env, schema, t, items, row);
    case Between(t, low, high, negated) =>
      var ts := JTruths(env, schema, [JCmp(Ge, t, low), JCmp(Le, t, high)], row);
      assert All(ts) == And(ts[0], ts[1]);
    case _ =>
  }

  // ---------------------------------------------- which statistics may decide

  /** `BETWEEN` on a float column: two bounds that NaN satisfies only one of. */
  predicate NanRange(args: seq<Json>) {
    && |args| == 2 && args[0].JCmp? && args[1].JCmp?
    && args[0].op == Ge && args[1].op == Le && args[0].left == args[1].left
    && args[0].left.Col? && NanFree(args[0].right) && NanFree(args[1].right)
  }

  /** No comparison here is one that NaN, or a lossy bound, would decide wrongly. */
  predicate Decidable(schema: Schema, j: Json, exact: bool) {
    match j
    case JAnd(args) =>
      || (forall i :: 0 <= i < |args| ==> Decidable(schema, args[i], exact))
      || (!exact && NanRange(args) && WideDecimal !in Kinds(schema, [args[0].left]))
    case JOr(args) => forall i :: 0 <= i < |args| ==> Decidable(schema, args[i], exact)
    case JNot(arg) => Decidable(schema, arg, true)
    case JCmp(op, l, r) =>
      var kinds := Kinds(schema, [l, r]);
      kinds == {} || (!exact && WideDecimal !in kinds && NanSide(op, l, r))
    case _ => true
  }

  predicate AllDecidable(schema: Schema, js: seq<Json>, exact: bool) {
    forall i :: 0 <= i < |js| ==> Decidable(schema, js[i], exact)
  }

  lemma {:induction false} SkipIsDecidable(schema: Schema, node: Node, exact: bool)
    requires Skip(schema, node, exact).Some?
    ensures Decidable(schema, Skip(schema, node, exact).value, exact)
  {
    match node
    case AndN(args) =>
      SkipJunctionIsDecidable(schema, args, exact);
      var parts := Kept(Skips(schema, args, exact));
      assert |parts| == 1 ==> Decidable(schema, parts[0], exact);
      assert Decidable(schema, JAnd(parts), exact);
    case OrN(args) =>
      SkipJunctionIsDecidable(schema, args, exact);
      assert Decidable(schema, JOr(Kept(Skips(schema, args, exact))), exact);
    case NotN(arg) => SkipIsDecidable(schema, arg, true);
    case _ => LeafIsDecidable(schema, node, exact);
  }

  lemma SkipJunctionIsDecidable(schema: Schema, args: seq<Node>, exact: bool)
    ensures AllDecidable(schema, Kept(Skips(schema, args, exact)), exact)
  {
    var os := Skips(schema, args, exact);
    KeptIsThere(os);
    forall i | 0 <= i < |args| && os[i].Some?
      ensures Decidable(schema, os[i].value, exact)
    {
      SkipIsDecidable(schema, args[i], exact);
    }
  }

  lemma LeafIsDecidable(schema: Schema, node: Node, exact: bool)
    requires !node.AndN? && !node.OrN? && !node.NotN?
    requires StatsCanDecide(schema, node, exact) && SkipLeaf(node).Some?
    ensures Decidable(schema, SkipLeaf(node).value, exact)
  {
    match node
    case In(t, items, negated) =>
      forall i | 0 <= i < |items| {
        KindsOfPart(schema, [t] + items, [t, items[i]]);
      }
    case Between(t, low, high, negated) =>
      KindsOfPart(schema, [t, low, high], [t, low]);
      KindsOfPart(schema, [t, low, high], [t, high]);
      KindsOfPart(schema, [t, low, high], [t]);
    case _ =>
  }

  lemma KindsOfPart(schema: Schema, whole: seq<Operand>, part: seq<Operand>)
    requires forall o :: o in part ==> o in whole
    ensures Kinds(schema, part) <= Kinds(schema, whole)
  {
    assert ColumnsIn(part) <= ColumnsIn(whole);
  }

  lemma KindOfOperand(schema: Schema, os: seq<Operand>, o: Operand)
    requires o in os && o.Col? && o.path in schema
    ensures UnsafeKind(schema[o.path]).Some? ==> UnsafeKind(schema[o.path]).value in Kinds(schema, os)
  {
    assert o.path in ColumnsIn(os);
  }

  // -------------------------------------------------------- native conversion

  /** `w` may stand in for `v` wherever statistics decide: equal, but for NaN and lossy decimals. */
  predicate ShadowOf(t: Type, v: Value, w: Value) {
    && Typed(w, t) && !IsNaN(w)
    && (w.Null? <==> v.Null?)
    && (UnsafeKind(t).None? ==> w == v)
    && (v.FloatV? && w.FloatV? && !IsNaN(v) ==> FloatOrder(v.f, w.f) == 0)
  }

  ghost predicate Shadows(schema: Schema, row: Row, shadow: Row) {
    forall c :: c in schema ==> c in shadow && ShadowOf(schema[c], Lookup(row, c), shadow[c])
  }

  /** Where the two sides parse text, they agree on what it says. */
  ghost predicate TextAgrees(env: Engine, n: Native) {
    forall l, t :: n.otherLiteral(l, t).Some? ==>
      && Typed(n.otherLiteral(l, t).value, t) && !n.otherLiteral(l, t).value.Null?
      && env.otherCoerce(l, t) == Some(Coerced(None, n.otherLiteral(l, t).value, t))
  }

  /** Doubles tell decimals of at most 15 digits apart, and round them in order. */
  ghost predicate DoublesDecide(env: Engine, n: Native) {
    && (forall r :: !env.toDouble(r).NaN?)
    && (forall p, s, f, d :: p <= 15 && InDecimal(d, p, s) && InDecimal(n.shortest(f), p, s) && Band(f) == 0 ==>
          SameSide(FloatOrder(env.toDouble(d), f), Sign(d - n.shortest(f))))
  }

  predicate SameSide(a: int, b: int) {
    (a < 0 <==> b < 0) && (a == 0 <==> b == 0)
  }

  lemma NativeLiteralAgrees(env: Engine, n: Native, op: CmpOp, t: Type, v: Value, w: Value, l: Literal)
    requires TextAgrees(env, n) && DoublesDecide(env, n)
    requires Typed(v, t) && !IsNaN(v) && ShadowOf(t, v, w) && UnsafeKind(t) != Some(WideDecimal)
    requires Skippable(NativeLiteral(n, l, t)).Some?
    ensures TotalCompare(op, w, Skippable(NativeLiteral(n, l, t)).value) == CompareLiteral(env, op, v, t, l)
  {
    if !v.Null? {
      match t
      case IntType(_) => NativeIntegerAgrees(env, n, op, t, v, l);
      case FloatType(_) => NativeFloatAgrees(env, n, op, t, v, w, l);
      case DecimalType(_, _) => NativeDecimalAgrees(env, n, op, t, v, l);
      case _ =>
    }
  }

  lemma NativeIntegerAgrees(env: Engine, n: Native, op: CmpOp, t: Type, v: Value, l: Literal)
    requires TextAgrees(env, n) && t.IntType? && v.IntV?
    requires NativeLiteral(n, l, t).Some?
    ensures Compare(op, v, NativeLiteral(n, l, t).value) == CompareLiteral(env, op, v, t, l)
    ensures !NativeLiteral(n, l, t).value.FloatV? && !NativeLiteral(n, l, t).value.Null?
  {
  }

  lemma NativeFloatAgrees(env: Engine, n: Native, op: CmpOp, t: Type, v: Value, w: Value, l: Literal)
    requires t.FloatType? && v.FloatV? && w.FloatV? && FloatOrder(v.f, w.f) == 0 && !v.f.NaN?
    requires Skippable(NativeLiteral(n, l, t)).Some?
    ensures TotalCompare(op, w, Skippable(NativeLiteral(n, l, t)).value) == CompareLiteral(env, op, v, t, l)
  {
    var s := NativeLiteral(n, l, t).value;
    assert s.FloatV? && Band(s.f) == 0 && Finite(s.f) != 0.0;
    assert TotalOrder(w, s) == FloatOrder(v.f, s.f);
    assert CompareLiteral(env, op, v, t, l) == Compare(op, v, s);
  }

  lemma NativeDecimalAgrees(env: Engine, n: Native, op: CmpOp, t: Type, v: Value, l: Literal)
    requires TextAgrees(env, n) && DoublesDecide(env, n)
    requires t.DecimalType? && t.precision <= 15 && v.DecV? && Typed(v, t)
    requires NativeLiteral(n, l, t).Some?
    ensures Compare(op, v, NativeLiteral(n, l, t).value) == CompareLiteral(env, op, v, t, l)
    ensures !NativeLiteral(n, l, t).value.FloatV? && !NativeLiteral(n, l, t).value.Null?
  {
    match l
    case DblL(f) =>
      assert SameSide(FloatOrder(env.toDouble(v.r), f), Sign(v.r - n.shortest(f)));
      assert CompareLiteral(env, op, v, t, l) == Compare(op, FloatV(env.toDouble(v.r)), FloatV(f));
    case LongL(i) =>
      assert CompareLiteral(env, op, v, t, l) == Compare(op, v, DecV(i as real));
    case DecL(r) =>
      assert CompareLiteral(env, op, v, t, l) == Compare(op, v, DecV(r));
    case _ =>
  }

  lemma TotalOrderAntisymmetric(a: Value, b: Value)
    ensures TotalOrder(a, b) < 0 <==> TotalOrder(b, a) > 0
    ensures TotalOrder(a, b) == 0 <==> TotalOrder(b, a) == 0
  {
    OrderAntisymmetric(a, b);
  }

  predicate NoNaN(schema: Schema, os: seq<Operand>, row: Row) {
    forall o :: o in os && o.Col? && o.path in schema ==> !IsNaN(Lookup(row, o.path))
  }

  lemma LiteralComparisonAgrees(env: Engine, n: Native, schema: Schema, op: CmpOp, c: Column, lit: Literal, row: Row, shadow: Row)
    requires TextAgrees(env, n) && DoublesDecide(env, n) && c in schema && TypedRow(schema, row) && Shadows(schema, row, shadow)
    requires !IsNaN(Lookup(row, c)) && UnsafeKind(schema[c]) != Some(WideDecimal)
    requires Skippable(NativeLiteral(n, lit, schema[c])).Some?
    ensures var s := Skippable(NativeLiteral(n, lit, schema[c])).value;
            && TotalCompare(op, shadow[c], s) == CompareLiteral(env, op, Lookup(row, c), schema[c], lit)
            && TotalCompare(op, s, shadow[c]) == CompareLiteral(env, Flip(op), Lookup(row, c), schema[c], lit)
  {
    var s := Skippable(NativeLiteral(n, lit, schema[c])).value;
    NativeLiteralAgrees(env, n, op, schema[c], Lookup(row, c), shadow[c], lit);
    NativeLiteralAgrees(env, n, Flip(op), schema[c], Lookup(row, c), shadow[c], lit);
    TotalOrderAntisymmetric(s, shadow[c]);
  }

  /** Where no operand is NaN, the converted comparison is the filter's, whatever the operator. */
  lemma ComparisonAgrees(env: Engine, n: Native, schema: Schema, op: CmpOp, l: Operand, r: Operand, row: Row, shadow: Row)
    requires TextAgrees(env, n) && DoublesDecide(env, n)
    requires TypedRow(schema, row) && Shadows(schema, row, shadow) && NoNaN(schema, [l, r], row)
    requires WideDecimal !in Kinds(schema, [l, r])
    requires l.Col? && r.Col? ==> Kinds(schema, [l, r]) == {}
    requires ConvertComparison(n, schema, op, l, r).Some?
    ensures KEval(ConvertComparison(n, schema, op, l, r).value, shadow) == CompareOperands(env, schema, op, l, r, row)
  {
    if l.Col? && l.path in schema {
      KindOfOperand(schema, [l, r], l);
    }
    if r.Col? && r.path in schema {
      KindOfOperand(schema, [l, r], r);
    }
    match ConvertComparison(n, schema, op, l, r).value
    case KLiteral(_, c, s) => LiteralComparisonAgrees(env, n, schema, op, c, r.lit, row, shadow);
    case KFlipped(_, s, c) => LiteralComparisonAgrees(env, n, schema, op, c, l.lit, row, shadow);
    case KColumns(_, a, b) =>
      assert Lookup(shadow, a) == Lookup(row, a) && Lookup(shadow, b) == Lookup(row, b);
  }

  /** A comparison NaN is on the wrong side of never holds of NaN. */
  lemma NanDoesNotHold(env: Engine, n: Native, schema: Schema, op: CmpOp, l: Operand, r: Operand, row: Row)
    requires DoublesDecide(env, n) && TypedRow(schema, row)
    requires NanSide(op, l, r) && !NoNaN(schema, [l, r], row)
    ensures CompareOperands(env, schema, op, l, r, row) != True
  {
    var c := if l.Col? then l.path else r.path;
    assert c in schema && IsNaN(Lookup(row, c)) && schema[c].FloatType?;
  }

  lemma LeafWeakens(env: Engine, n: Native, schema: Schema, op: CmpOp, l: Operand, r: Operand, exact: bool, row: Row, shadow: Row)
    requires TextAgrees(env, n) && DoublesDecide(env, n)
    requires TypedRow(schema, row) && Shadows(schema, row, shadow)
    requires Decidable(schema, JCmp(op, l, r), exact)
    requires ConvertComparison(n, schema, op, l, r).Some?
    ensures Weakens(exact, CompareOperands(env, schema, op, l, r, row),
                    KEval(ConvertComparison(n, schema, op, l, r).value, shadow))
  {
    if NoNaN(schema, [l, r], row) {
      ComparisonAgrees(env, n, schema, op, l, r, row, shadow);
    } else {
      var o :| o in [l, r] && o.Col? && o.path in schema && IsNaN(Lookup(row, o.path));
      KindOfOperand(schema, [l, r], o);
      NanDoesNotHold(env, n, schema, op, l, r, row);
    }
  }

  lemma {:induction false} ConvertWeakens(env: Engine, n: Native, schema: Schema, j: Json, exact: bool, row: Row, shadow: Row)
    requires TextAgrees(env, n) && DoublesDecide(env, n)
    requires TypedRow(schema, row) && Shadows(schema, row, shadow)
    requires Decidable(schema, j, exact) && Convert(n, schema, j, exact).Some?
    ensures Weakens(exact, JEval(env, schema, j, row), KEval(Convert(n, schema, j, exact).value, shadow))
  {
    match j
    case JAnd(args) =>
      if forall i :: 0 <= i < |args| ==> Decidable(schema, args[i], exact) {
        ConvertJunctionWeakens(env, n, schema, args, exact, row, shadow);
      } else {
        NanRangeWeakens(env, n, schema, args, row, shadow);
      }
    case JOr(args) => ConvertJunctionWeakens(env, n, schema, args, exact, row, shadow);
    case JNot(arg) => ConvertWeakens(env, n, schema, arg, true, row, shadow);
    case JCmp(op, l, r) => LeafWeakens(env, n, schema, op, l, r, exact, row, shadow);
    case _ =>
  }

  lemma ConvertJunctionWeakens(env: Engine, n: Native, schema: Schema, args: seq<Json>, exact: bool, row: Row, shadow: Row)
    requires TextAgrees(env, n) && DoublesDecide(env, n)
    requires TypedRow(schema, row) && Shadows(schema, row, shadow)
    requires forall i :: 0 <= i < |args| ==> Decidable(schema, args[i], exact)
    ensures var kept := Kept(Converts(n, schema, args, exact)); var js := JTruths(env, schema, args, row);
            var ks := KTruths(kept, shadow);
            && (!exact || |kept| == |args| ==> Weakens(exact, All(js), All(ks)))
            && (|kept| == |args| ==> Weakens(exact, Any(js), Any(ks)))
            && (|kept| == 1 ==> All(ks) == ks[0] && Any(ks) == ks[0])
  {
    var os := Converts(n, schema, args, exact);
    var js := JTruths(env, schema, args, row);
    forall i | 0 <= i < |args| && os[i].Some?
      ensures Weakens(exact, js[i], KEval(os[i].value, shadow))
    {
      ConvertWeakens(env, n, schema, args[i], exact, row, shadow);
    }
    KeptWeakens(exact, js, os, shadow);
  }

  lemma KeptWeakens(exact: bool, js: seq<Truth>, os: seq<Option<Kernel>>, shadow: Row)
    requires |js| == |os|
    requires forall i :: 0 <= i < |os| && os[i].Some? ==> Weakens(exact, js[i], KEval(os[i].value, shadow))
    ensures var ks := KTruths(Kept(os), shadow);
            && (!exact || |ks| == |js| ==> Weakens(exact, All(js), All(ks)))
            && (|ks| == |js| ==> Weakens(exact, Any(js), Any(ks)))
            && (|ks| == 1 ==> All(ks) == ks[0] && Any(ks) == ks[0])
  {
    var truth := (k: Kernel) => KEval(k, shadow);
    JunctionWeakens(exact, js, os, truth, KTruths(Kept(os), shadow));
  }

  lemma AndConverts(n: Native, schema: Schema, args: seq<Json>, shadow: Row)
    requires Convert(n, schema, JAnd(args), false).Some?
    ensures KEval(Convert(n, schema, JAnd(args), false).value, shadow) == All(KTruths(Kept(Converts(n, schema, args, false)), shadow))
  {
    var ks := KTruths(Kept(Converts(n, schema, args, false)), shadow);
    assert |ks| == 1 ==> All(ks) == ks[0];
  }

  lemma NanRangeWeakens(env: Engine, n: Native, schema: Schema, args: seq<Json>, row: Row, shadow: Row)
    requires TextAgrees(env, n) && DoublesDecide(env, n)
    requires TypedRow(schema, row) && Shadows(schema, row, shadow)
    requires NanRange(args) && WideDecimal !in Kinds(schema, [args[0].left])
    requires Convert(n, schema, JAnd(args), false).Some?
    ensures Weakens(false, JEval(env, schema, JAnd(args), row), KEval(Convert(n, schema, JAnd(args), false).value, shadow))
  {
    var js := JTruths(env, schema, args, row);
    if All(js) == True {
      NanRangeLeaves(env, n, schema, args, row, shadow);
      NanRangeHolds(js, Converts(n, schema, args, false), shadow);
      AndConverts(n, schema, args, shadow);
    }
  }

  lemma NanRangeLeaves(env: Engine, n: Native, schema: Schema, args: seq<Json>, row: Row, shadow: Row)
    requires TextAgrees(env, n) && DoublesDecide(env, n)
    requires TypedRow(schema, row) && Shadows(schema, row, shadow)
    requires NanRange(args) && WideDecimal !in Kinds(schema, [args[0].left]) && All(JTruths(env, schema, args, row)) == True
    ensures var os := Converts(n, schema, args, false);
            |args| == 2 && forall i :: 0 <= i < 2 && os[i].Some? ==> KEval(os[i].value, shadow) == JTruths(env, schema, args, row)[i]
  {
    var os, js := Converts(n, schema, args, false), JTruths(env, schema, args, row);
    LastHolds(js);
    forall i | 0 <= i < 2 && os[i].Some? ensures KEval(os[i].value, shadow) == js[i] {
      NanRangeLeaf(env, n, schema, args, i, row, shadow);
    }
  }

  lemma LastHolds(ts: seq<Truth>)
    requires ts != [] && All(ts) == True
    ensures ts[|ts| - 1] == True
  {
  }

  lemma NanRangeHolds(js: seq<Truth>, os: seq<Option<Kernel>>, shadow: Row)
    requires |js| == |os| == 2 && All(js) == True
    requires forall i :: 0 <= i < 2 && os[i].Some? ==> KEval(os[i].value, shadow) == js[i]
    ensures All(KTruths(Kept(os), shadow)) == True
  {
    KeptWeakens(false, js, os, shadow);
  }

  lemma NanRangeLeaf(env: Engine, n: Native, schema: Schema, args: seq<Json>, i: nat, row: Row, shadow: Row)
    requires TextAgrees(env, n) && DoublesDecide(env, n)
    requires TypedRow(schema, row) && Shadows(schema, row, shadow)
    requires NanRange(args) && WideDecimal !in Kinds(schema, [args[0].left]) && i < 2
    requires JEval(env, schema, args[1], row) == True
    ensures Convert(n, schema, args[i], false).Some? ==>
              KEval(Convert(n, schema, args[i], false).value, shadow) == JEval(env, schema, args[i], row)
  {
    var column := args[0].left;
    assert NoNaN(schema, [column, args[1].right], row) by {
      if !NoNaN(schema, [column, args[1].right], row) {
        NanDoesNotHold(env, n, schema, Le, column, args[1].right, row);
      }
    }
    assert ColumnsIn([column, args[i].right]) <= ColumnsIn([column]);
    assert Kinds(schema, [column, args[i].right]) <= Kinds(schema, [column]);
    if Convert(n, schema, args[i], false).Some? {
      ComparisonAgrees(env, n, schema, args[i].op, column, args[i].right, row, shadow);
    }
  }
}
