/** The SQL rendered for DataFusion means what the naive reading and the Arrow filter mean. */
module DataFusionSoundness {
  import opened Wrappers
  import opened Kleene
  import opened Values
  import opened Predicates
  import opened BalancedFold
  import opened DataFusionBackend
  import ArrowBackend
  import ArrowSoundness

  /** Reading text, only the spellings of NaN give NaN; no conversion makes a NaN or a -0.0 of a number. */
  ghost predicate SpellerAgrees(env: Engine, sp: Speller) {
    && (forall l, t :: env.otherCoerce(l, t).Some? ==>
          (IsNaN(env.otherCoerce(l, t).value.scalar) <==> LiteralIsNan(sp, Lit(l))))
    && (forall r :: !env.toDouble(r).NaN? && !env.toDouble(r).NegZero?)
    && (forall v, t :: env.otherCast(v, t) != FloatV(NegZero))
  }

  function SqlTruth(env: Engine, e: Sql, row: Row): Truth {
    ToTruth(Run(env, e, row))
  }

  function SqlTruths(env: Engine, es: seq<Sql>, row: Row): (ts: seq<Truth>)
    ensures |ts| == |es|
    ensures forall i :: 0 <= i < |es| ==> ts[i] == SqlTruth(env, es[i], row)
  {
    seq(|es|, i requires 0 <= i < |es| => SqlTruth(env, es[i], row))
  }

  lemma ColumnReads(env: Engine, schema: Schema, c: Column, row: Row)
    requires c in schema && TypedRow(schema, row)
    ensures Run(env, ColumnSql(schema, c).value.0, row) == WithoutNegativeZero(row[c])
  {
    assert Run(env, RoundTrip(ColumnRef(c)), row) == row[c];
    assert Run(env, PlusZero(RoundTrip(ColumnRef(c))), row) == WithoutNegativeZero(row[c]);
  }

  /** With -0.0 read as 0.0, DataFusion's total order is SQL's order. */
  lemma TotalOrderWithoutNegativeZero(op: CmpOp, a: Value, b: Value)
    requires a.Null? || b.Null? || (a.FloatV? <==> b.FloatV?)
    ensures TotalCompare(op, WithoutNegativeZero(a), WithoutNegativeZero(b)) == Compare(op, a, b)
  {
  }

  /** One column against one literal, as each side spells it. */
  lemma AgainstAgrees(env: Engine, sp: Speller, schema: Schema, c: Column, l: Literal, row: Row)
    requires ArrowSoundness.LibraryTypes(env) && SpellerAgrees(env, sp) && TypedRow(schema, row) && !l.NullL?
    requires Against(env, sp, schema, c, l).Some?
    ensures var (x, s, t) := Against(env, sp, schema, c, l).value; var k := Coerce(env, l, schema[c]).value;
            && Run(env, x, row) == WithoutNegativeZero(MaybeCast(env, row[c], k.cast))
            && Run(env, s, row) == WithoutNegativeZero(k.scalar)
            && t == (if k.cast.Some? then k.cast.value else schema[c])
  {
    ColumnReads(env, schema, c, row);
    var k := Coerce(env, l, schema[c]).value;
    if k.cast.Some? {
      CoerceOfFloat(env, l, schema[c]);
      CastKeepsZero(env, sp, row[c], schema[c], k.cast.value);
    }
  }

  lemma CoerceOfFloat(env: Engine, l: Literal, t: Type)
    requires ArrowSoundness.LibraryTypes(env) && Coerce(env, l, t).Some?
    ensures t.FloatType? ==> Coerce(env, l, t).value.cast.None? || Coerce(env, l, t).value.cast == Some(DOUBLE)
  {
  }

  lemma CastKeepsZero(env: Engine, sp: Speller, v: Value, t: Type, u: Type)
    requires SpellerAgrees(env, sp) && Typed(v, t) && (t.FloatType? ==> u == DOUBLE)
    ensures Cast(env, WithoutNegativeZero(v), u) == WithoutNegativeZero(Cast(env, v, u))
  {
  }

  /** The literal spelled NaN is the one whose typed scalar is NaN. */
  lemma NanIsSpelled(env: Engine, sp: Speller, t: Type, l: Literal)
    requires SpellerAgrees(env, sp) && Coerce(env, l, t).Some? && !l.NullL?
    requires t.FloatType? || Coerce(env, l, t).value.cast == Some(DOUBLE)
    ensures IsNaN(Coerce(env, l, t).value.scalar) <==> LiteralIsNan(sp, Lit(l))
  {
  }

  lemma NanRuns(env: Engine, column: Sql, w: Value, row: Row)
    requires Run(env, column, row) == WithoutNegativeZero(w)
    ensures var nan := IsNanSql(column); var truth := if w.Null? then Unknown else Of(IsNaN(w));
            SqlTruth(env, nan, row) == truth && SqlTruth(env, NotSql(nan), row) == Not(truth)
  {
    var nan := IsNanSql(column);
    assert Run(env, nan, row) == if w.Null? then Null else BoolV(IsNaN(w));
    assert SqlTruth(env, NotSql(nan), row) == Not(SqlTruth(env, nan, row));
  }

  lemma JunctionsRun(env: Engine, a: Sql, b: Sql, row: Row)
    ensures SqlTruth(env, OrSql(a, b), row) == Or(SqlTruth(env, a, row), SqlTruth(env, b, row))
    ensures SqlTruth(env, AndSql(a, b), row) == And(SqlTruth(env, a, row), SqlTruth(env, b, row))
  {
  }

  /** The CASE and isnan() forms, on a column already read as a number. */
  lemma FormsMeanCompare(env: Engine, op: CmpOp, column: Sql, w: Value, s: Value, row: Row)
    requires Run(env, column, row) == WithoutNegativeZero(w) && (w.Null? || w.FloatV?) && Numeric(s)
    ensures IsNaN(s) ==> SqlTruth(env, NanLiteralForm(IsNanSql(column), op), row) == Compare(op, w, s)
    ensures !w.Null? && IsNaN(w) && !IsNaN(s) ==> Of(AboveAll(op)) == Compare(op, w, s)
  {
    var nan := IsNanSql(column);
    NanRuns(env, column, w, row);
    JunctionsRun(env, nan, NotSql(nan), row);
  }

  lemma AgainstIsExact(env: Engine, sp: Speller, schema: Schema, first: Column, op: CmpOp, left: Operand, right: Operand, row: Row)
    requires ArrowSoundness.LibraryTypes(env) && SpellerAgrees(env, sp) && TypedRow(schema, row)
    requires (left.Col? && right.Lit? && !right.lit.NullL?) || (left.Lit? && right.Col? && !left.lit.NullL?)
    requires CompareSql(env, sp, schema, first, op, left, right).Some?
    ensures SqlTruth(env, CompareSql(env, sp, schema, first, op, left, right).value, row) ==
            CompareOperands(env, schema, op, left, right, row)
  {
    var c, l := if left.Col? then left.path else right.path, if left.Col? then right.lit else left.lit;
    var (x, y, t) := Against(env, sp, schema, c, l).value;
    var k := Coerce(env, l, schema[c]).value;
    var w := MaybeCast(env, row[c], k.cast);
    AgainstAgrees(env, sp, schema, c, l, row);
    ComparedKinds(env, l, schema[c], row[c]);
    PlainMeansCompare(env, op, x, y, left.Col?, w, k.scalar, row);
    if t.FloatType? {
      NanIsSpelled(env, sp, schema[c], l);
      FloatFormMeansCompare(env, op, x, y, left.Col?, w, k.scalar, row);
    }
  }

  function PlainForm(op: CmpOp, column: Sql, other: Sql, columnFirst: bool): Sql {
    if columnFirst then Comparison(op, column, other) else Comparison(op, other, column)
  }

  lemma PlainMeansCompare(env: Engine, op: CmpOp, column: Sql, other: Sql, columnFirst: bool, w: Value, s: Value, row: Row)
    requires Run(env, column, row) == WithoutNegativeZero(w) && Run(env, other, row) == WithoutNegativeZero(s)
    requires w.Null? || (w.FloatV? <==> s.FloatV?)
    ensures SqlTruth(env, PlainForm(op, column, other, columnFirst), row) ==
            Compare(if columnFirst then op else Flip(op), w, s)
  {
    if columnFirst {
      ComparisonRuns(env, op, column, other, row);
      TotalOrderWithoutNegativeZero(op, w, s);
    } else {
      ComparisonRuns(env, op, other, column, row);
      TotalOrderWithoutNegativeZero(op, s, w);
      FlipHolds(op, s, w);
    }
  }

  lemma ComparisonRuns(env: Engine, op: CmpOp, a: Sql, b: Sql, row: Row)
    ensures SqlTruth(env, Comparison(op, a, b), row) == SqlCompare(env, op, Run(env, a, row), Run(env, b, row))
  {
    assert Run(env, Comparison(op, a, b), row) == FromTruth(SqlCompare(env, op, Run(env, a, row), Run(env, b, row)));
  }

  lemma CaseRuns(env: Engine, c: Sql, a: Sql, b: Sql, row: Row)
    ensures SqlTruth(env, Case(c, a, b), row) ==
            if SqlTruth(env, c, row) == True then SqlTruth(env, a, row) else SqlTruth(env, b, row)
  {
    assert Run(env, Case(c, a, b), row) == if ToTruth(Run(env, c, row)) == True then Run(env, a, row) else Run(env, b, row);
  }

  lemma FloatFormMeansCompare(env: Engine, op: CmpOp, column: Sql, other: Sql, columnFirst: bool, w: Value, s: Value, row: Row)
    requires Run(env, column, row) == WithoutNegativeZero(w) && Run(env, other, row) == WithoutNegativeZero(s)
    requires (w.Null? || w.FloatV?) && s.FloatV?
    ensures var mirrored := if columnFirst then op else Flip(op); var nan := IsNanSql(column);
            var e := if IsNaN(s) then NanLiteralForm(nan, mirrored)
                     else Case(nan, Spelled(BoolV(AboveAll(mirrored))), PlainForm(op, column, other, columnFirst));
            SqlTruth(env, e, row) == Compare(mirrored, w, s)
  {
    var mirrored := if columnFirst then op else Flip(op);
    var nan := IsNanSql(column);
    var plain := PlainForm(op, column, other, columnFirst);
    FormsMeanCompare(env, mirrored, column, w, s, row);
    if !IsNaN(s) {
      PlainMeansCompare(env, op, column, other, columnFirst, w, s, row);
      assert Run(env, nan, row) == if w.Null? then Null else BoolV(IsNaN(w));
      CaseRuns(env, nan, Spelled(BoolV(AboveAll(mirrored))), plain, row);
      assert SqlTruth(env, Spelled(BoolV(AboveAll(mirrored))), row) == Of(AboveAll(mirrored));
    }
  }

  /** A comparison is between two floats exactly where its type says so. */
  lemma ComparedKinds(env: Engine, l: Literal, t: Type, v: Value)
    requires ArrowSoundness.LibraryTypes(env) && Typed(v, t) && !l.NullL? && Coerce(env, l, t).Some?
    ensures var k := Coerce(env, l, t).value; var u := if k.cast.Some? then k.cast.value else t;
            var w := MaybeCast(env, v, k.cast);
            && !k.scalar.Null?
            && (k.scalar.FloatV? <==> u.FloatType?)
            && (w.Null? || (w.FloatV? <==> u.FloatType?))
            && (u.FloatType? ==> t.FloatType? || k.cast == Some(DOUBLE))
  {
    var k := Coerce(env, l, t).value;
    if k.cast.Some? {
      ArrowSoundness.CastNulls(env, v, k.cast.value);
    }
  }

  lemma ColumnsAreExact(env: Engine, sp: Speller, schema: Schema, op: CmpOp, a: Column, b: Column, row: Row)
    requires ArrowSoundness.LibraryTypes(env) && SpellerAgrees(env, sp) && TypedRow(schema, row)
    requires a in schema && b in schema && ArrowBackend.TypesCompare(schema[a], schema[b])
    ensures SqlTruth(env, Comparison(op, ColumnSql(schema, a).value.0, ColumnSql(schema, b).value.0), row) ==
            CompareOperands(env, schema, op, Col(a), Col(b), row)
  {
    ColumnReads(env, schema, a, row);
    ColumnReads(env, schema, b, row);
    var v, w := row[a], row[b];
    if MeetAsDouble(schema[a], schema[b]) {
      TotalOrderWithoutNegativeZero(op, Cast(env, v, DOUBLE), Cast(env, w, DOUBLE));
      CastKeepsZero(env, sp, v, schema[a], DOUBLE);
      CastKeepsZero(env, sp, w, schema[b], DOUBLE);
    }
  }

  lemma CompareSqlIsExact(env: Engine, sp: Speller, schema: Schema, first: Column, op: CmpOp, left: Operand, right: Operand, row: Row)
    requires ArrowSoundness.LibraryTypes(env) && SpellerAgrees(env, sp) && TypedRow(schema, row)
    requires ArrowBackend.Pair(env, schema, left, right).Some?
    requires CompareSql(env, sp, schema, first, op, left, right).Some?
    ensures SqlTruth(env, CompareSql(env, sp, schema, first, op, left, right).value, row) ==
            CompareOperands(env, schema, op, left, right, row)
  {
    if IsNullLiteral(left) || IsNullLiteral(right) {
      NullSqlIsNull(env, Near(schema, first, [left, right]), row);
    } else {
      match (left, right)
      case (Col(a), Col(b)) => ColumnsAreExact(env, sp, schema, op, a, b, row);
      case (Lit(a), Lit(b)) =>
        TotalOrderWithoutNegativeZero(op, Bare(a), Bare(b));
        var x, y := Spelled(WithoutNegativeZero(Bare(a))), Spelled(WithoutNegativeZero(Bare(b)));
        ComparisonRuns(env, op, x, y, row);
      case (_, _) => AgainstIsExact(env, sp, schema, first, op, left, right, row);
    }
  }

  lemma NullSqlIsNull(env: Engine, text: Sql, row: Row)
    ensures Run(env, NullSql(text), row) == Null
  {
  }

  // ------------------------------------------- what validating with Arrow ensures

  /** The Arrow filter accepts every comparison of the predicate. */
  predicate Accepted(env: Engine, schema: Schema, node: Node) {
    match node
    case AndN(args) => forall i :: 0 <= i < |args| ==> Accepted(env, schema, args[i])
    case OrN(args) => forall i :: 0 <= i < |args| ==> Accepted(env, schema, args[i])
    case NotN(arg) => Accepted(env, schema, arg)
    case Cmp(_, l, r) => ArrowBackend.Pair(env, schema, l, r).Some?
    case NullSafe(l, r) => ArrowBackend.Pair(env, schema, l, r).Some?
    case In(t, items, _) => forall i :: 0 <= i < |items| ==> ArrowBackend.Pair(env, schema, t, items[i]).Some?
    case Between(t, low, high, _) =>
      ArrowBackend.Pair(env, schema, t, low).Some? && ArrowBackend.Pair(env, schema, t, high).Some?
    case BoolColumn(c) => c in schema && schema[c].BoolType?
    case _ => true
  }

  lemma {:induction false} CompareFormsAccept(env: Engine, schema: Schema, t: Operand, items: seq<Operand>, i: nat)
    requires i < |items| && ArrowBackend.CompareForms(env, schema, t, items).Some?
    ensures ArrowBackend.Pair(env, schema, t, items[i]).Some?
  {
    if i > 0 {
      CompareFormsAccept(env, schema, t, items[1..], i - 1);
    }
  }

  lemma {:induction false} SharedScalarsAccept(env: Engine, t: Type, items: seq<Operand>, i: nat)
    requires i < |items| && ArrowBackend.SharedScalars(env, t, items).Some?
    ensures items[i].Lit? && Coerce(env, items[i].lit, t).Some?
  {
    if i > 0 {
      SharedScalarsAccept(env, t, items[1..], i - 1);
    }
  }

  lemma MembershipAccepts(env: Engine, schema: Schema, t: Operand, items: seq<Operand>, i: nat)
    requires i < |items|
    requires ArrowBackend.Membership(env, schema, t, items).Some? || ArrowBackend.CompareForms(env, schema, t, items).Some?
    ensures ArrowBackend.Pair(env, schema, t, items[i]).Some?
  {
    if ArrowBackend.Membership(env, schema, t, items).Some? {
      SharedScalarsAccept(env, schema[t.path], items, i);
    } else {
      CompareFormsAccept(env, schema, t, items, i);
    }
  }

  lemma {:induction false} GroupsAccept(env: Engine, schema: Schema, args: seq<Node>, order: seq<Column>, c: Column)
    requires c in order && ArrowBackend.AllGroups(env, schema, args, order).Some?
    ensures ArrowBackend.GroupForms(env, schema, c, ArrowBackend.LiteralsOf(args, c)).Some?
  {
    if c != order[0] {
      GroupsAccept(env, schema, args, order[1..], c);
    }
  }

  lemma GroupedIsAccepted(env: Engine, schema: Schema, args: seq<Node>, i: nat)
    requires i < |args| && ArrowBackend.Grouped(args[i]).Some?
    requires ArrowBackend.AllGroups(env, schema, args, ArrowBackend.GroupOrder(args)).Some?
    ensures Accepted(env, schema, args[i])
  {
    var (c, l) := ArrowBackend.Grouped(args[i]).value;
    var literals := ArrowBackend.LiteralsOf(args, c);
    ArrowSoundness.GroupedColumnIsListed(args, i);
    GroupsAccept(env, schema, args, ArrowBackend.GroupOrder(args), c);
    ArrowSoundness.GroupHoldsLiterals(args, c, Lit(l));
    var k :| 0 <= k < |literals| && literals[k] == Lit(l);
    MembershipAccepts(env, schema, Col(c), literals, k);
  }

  lemma {:induction false} BuildAccepts(env: Engine, schema: Schema, node: Node)
    requires ArrowBackend.Build(env, schema, node).Some?
    ensures Accepted(env, schema, node)
    decreases node, 1
  {
    match node
    case AndN(args) =>
      forall i | 0 <= i < |args| ensures Accepted(env, schema, args[i]) {
        BuildAllAccepts(env, schema, args, i);
      }
    case OrN(args) =>
      forall i | 0 <= i < |args| ensures Accepted(env, schema, args[i]) {
        if ArrowBackend.Grouped(args[i]).Some? {
          GroupedIsAccepted(env, schema, args, i);
        } else {
          BuildRestAccepts(env, schema, args, i);
        }
      }
    case NotN(arg) => BuildAccepts(env, schema, arg);
    case In(t, items, _) =>
      forall i | 0 <= i < |items| ensures ArrowBackend.Pair(env, schema, t, items[i]).Some? {
        MembershipAccepts(env, schema, t, items, i);
      }
    case _ =>
  }

  lemma {:induction false} BuildAllAccepts(env: Engine, schema: Schema, nodes: seq<Node>, i: nat)
    requires i < |nodes| && ArrowBackend.BuildAll(env, schema, nodes).Some?
    ensures Accepted(env, schema, nodes[i])
    decreases nodes, 0
  {
    if i == 0 {
      BuildAccepts(env, schema, nodes[0]);
    } else {
      BuildAllAccepts(env, schema, nodes[1..], i - 1);
    }
  }

  lemma {:induction false} BuildRestAccepts(env: Engine, schema: Schema, nodes: seq<Node>, i: nat)
    requires i < |nodes| && ArrowBackend.BuildRest(env, schema, nodes).Some? && ArrowBackend.Grouped(nodes[i]).None?
    ensures Accepted(env, schema, nodes[i])
    decreases nodes, 0
  {
    if i == 0 {
      BuildAccepts(env, schema, nodes[0]);
    } else {
      BuildRestAccepts(env, schema, nodes[1..], i - 1);
    }
  }

  // ------------------------------------------------------------------- render

  /** The pattern tells the texts of -0.0 and 0.0 alike. */
  predicate SameOnZeros(env: Engine, pattern: string, insensitive: bool) {
    LikeTruth(env, pattern, insensitive, env.asText(FloatV(NegZero))) ==
    LikeTruth(env, pattern, insensitive, env.asText(FloatV(Fin(0.0))))
  }

  /** No LIKE on a floating column tells -0.0, which the renderer's `+ 0.0` reads as 0.0, from 0.0. */
  predicate LikesAgreeOnZeros(env: Engine, schema: Schema, node: Node) {
    match node
    case AndN(args) => forall i :: 0 <= i < |args| ==> LikesAgreeOnZeros(env, schema, args[i])
    case OrN(args) => forall i :: 0 <= i < |args| ==> LikesAgreeOnZeros(env, schema, args[i])
    case NotN(arg) => LikesAgreeOnZeros(env, schema, arg)
    case Like(t, pattern, insensitive, _) =>
      t.Col? && t.path in schema && schema[t.path].FloatType? ==> SameOnZeros(env, pattern, insensitive)
    case _ => true
  }

  lemma {:induction false} CompareAllIsExact(env: Engine, sp: Speller, schema: Schema, first: Column, t: Operand, items: seq<Operand>, row: Row)
    requires ArrowSoundness.LibraryTypes(env) && SpellerAgrees(env, sp) && TypedRow(schema, row)
    requires forall i :: 0 <= i < |items| ==> ArrowBackend.Pair(env, schema, t, items[i]).Some?
    requires CompareAll(env, sp, schema, first, t, items).Some?
    ensures SqlTruths(env, CompareAll(env, sp, schema, first, t, items).value, row) == Equalities(env, schema, t, items, row)
  {
    if items != [] {
      CompareAllIsExact(env, sp, schema, first, t, items[1..], row);
      CompareSqlIsExact(env, sp, schema, first, Eq, t, items[0], row);
    }
  }

  /** Dropping the NULLs of a list, and then reading FALSE as NULL, keeps its truth value. */
  lemma {:induction false} PresentAny(env: Engine, schema: Schema, t: Operand, items: seq<Operand>, row: Row)
    requires forall i :: 0 <= i < |items| ==> ArrowBackend.Pair(env, schema, t, items[i]).Some?
    ensures |Present(items)| <= |items|
    ensures forall i :: 0 <= i < |Present(items)| ==> ArrowBackend.Pair(env, schema, t, Present(items)[i]).Some?
    ensures var all, some := Any(Equalities(env, schema, t, items, row)), Any(Equalities(env, schema, t, Present(items), row));
            all == if |Present(items)| == |items| || some != False then some else Unknown
  {
    if items != [] {
      PresentAny(env, schema, t, items[1..], row);
      ArrowSoundness.AnyEqualityCons(env, schema, t, items, row);
      if IsNullLiteral(items[0]) {
        NullNeverEqual(env, schema, t, items[0], row);
        assert Present(items) == Present(items[1..]);
      } else {
        var kept := Present(items);
        assert kept[1..] == Present(items[1..]);
        ArrowSoundness.AnyEqualityCons(env, schema, t, kept, row);
      }
    }
  }

  lemma NullNeverEqual(env: Engine, schema: Schema, t: Operand, o: Operand, row: Row)
    requires IsNullLiteral(o)
    ensures CompareOperands(env, schema, Eq, t, o, row) == Unknown
  {
  }

  lemma FoldIsExact(env: Engine, es: seq<Sql>, row: Row)
    requires es != []
    ensures SqlTruth(env, Fold(es, CombineAnd), row) == All(SqlTruths(env, es, row))
    ensures SqlTruth(env, Fold(es, CombineOr), row) == Any(SqlTruths(env, es, row))
  {
    var truth := (e: Sql) => SqlTruth(env, e, row);
    assert Mapped(es, truth) == SqlTruths(env, es, row);
    FoldTruth(es, CombineAnd, truth, true);
    FoldTruth(es, CombineOr, truth, false);
  }

  lemma RenderInIsExact(env: Engine, sp: Speller, schema: Schema, first: Column, t: Operand, items: seq<Operand>, row: Row)
    requires ArrowSoundness.LibraryTypes(env) && SpellerAgrees(env, sp) && TypedRow(schema, row) && items != []
    requires forall i :: 0 <= i < |items| ==> ArrowBackend.Pair(env, schema, t, items[i]).Some?
    requires RenderIn(env, sp, schema, first, t, items).Some?
    ensures SqlTruth(env, RenderIn(env, sp, schema, first, t, items).value, row) == Any(Equalities(env, schema, t, items, row))
  {
    var present := Present(items);
    PresentAny(env, schema, t, items, row);
    if present == [] {
      NullSqlIsNull(env, Near(schema, first, [t]), row);
      assert Equalities(env, schema, t, present, row) == [];
    } else {
      CompareAllIsExact(env, sp, schema, first, t, present, row);
      var es := CompareAll(env, sp, schema, first, t, present).value;
      FoldIsExact(env, es, row);
      NullIfFalse(env, Fold(es, CombineOr), row);
    }
  }

  lemma NullIfFalse(env: Engine, e: Sql, row: Row)
    ensures SqlTruth(env, NullIf(e, Spelled(BoolV(false))), row) ==
            if SqlTruth(env, e, row) == False then Unknown else SqlTruth(env, e, row)
  {
    assert Run(env, Spelled(BoolV(false)), row) == BoolV(false);
  }

  lemma RenderNullSafeIsExact(env: Engine, sp: Speller, schema: Schema, first: Column, l: Operand, r: Operand, row: Row)
    requires ArrowSoundness.LibraryTypes(env) && SpellerAgrees(env, sp) && TypedRow(schema, row)
    requires ArrowBackend.Pair(env, schema, l, r).Some? && RenderNullSafe(env, sp, schema, first, l, r).Some?
    ensures SqlTruth(env, RenderNullSafe(env, sp, schema, first, l, r).value, row) == Eval(env, schema, NullSafe(l, r), row)
  {
    if IsNullLiteral(l) || IsNullLiteral(r) {
      var this_ := if IsNullLiteral(r) then l else r;
      if this_.Col? {
        ColumnReads(env, schema, this_.path, row);
      }
    } else {
      var (a, b, _) := Operands(env, sp, schema, l, r).value;
      CompareSqlIsExact(env, sp, schema, first, Eq, l, r, row);
      OperandsNulls(env, sp, schema, l, r, row);
      NullSafeForm(env, a, b, CompareSql(env, sp, schema, first, Eq, l, r).value, row);
    }
  }

  lemma NullSafeForm(env: Engine, a: Sql, b: Sql, equal: Sql, row: Row)
    ensures var e := Case(AndSql(IsNullSql(a), IsNullSql(b)), Spelled(BoolV(true)),
                          Case(OrSql(IsNullSql(a), IsNullSql(b)), Spelled(BoolV(false)), equal));
            var n, m := Run(env, a, row).Null?, Run(env, b, row).Null?;
            SqlTruth(env, e, row) == if n && m then True else if n || m then False else SqlTruth(env, equal, row)
  {
    var both, either := AndSql(IsNullSql(a), IsNullSql(b)), OrSql(IsNullSql(a), IsNullSql(b));
    var n, m := Run(env, a, row).Null?, Run(env, b, row).Null?;
    assert Run(env, IsNullSql(a), row) == BoolV(n) && Run(env, IsNullSql(b), row) == BoolV(m);
    assert SqlTruth(env, both, row) == Of(n && m) && SqlTruth(env, either, row) == Of(n || m);
    var inner := Case(either, Spelled(BoolV(false)), equal);
    CaseRuns(env, both, Spelled(BoolV(true)), inner, row);
    CaseRuns(env, either, Spelled(BoolV(false)), equal, row);
  }

  lemma OperandsNulls(env: Engine, sp: Speller, schema: Schema, l: Operand, r: Operand, row: Row)
    requires ArrowSoundness.LibraryTypes(env) && SpellerAgrees(env, sp) && TypedRow(schema, row)
    requires !IsNullLiteral(l) && !IsNullLiteral(r) && Operands(env, sp, schema, l, r).Some?
    ensures var (a, b, _) := Operands(env, sp, schema, l, r).value;
            && (Run(env, a, row).Null? <==> NullAt(l, row)) && (Run(env, b, row).Null? <==> NullAt(r, row))
  {
    match (l, r)
    case (Col(a), Col(b)) =>
      ColumnReads(env, schema, a, row);
      ColumnReads(env, schema, b, row);
    case (Lit(_), Lit(_)) =>
    case (Col(c), Lit(x)) => AgainstNulls(env, sp, schema, c, x, row);
    case (Lit(x), Col(c)) => AgainstNulls(env, sp, schema, c, x, row);
  }

  lemma AgainstNulls(env: Engine, sp: Speller, schema: Schema, c: Column, x: Literal, row: Row)
    requires ArrowSoundness.LibraryTypes(env) && SpellerAgrees(env, sp) && TypedRow(schema, row) && !x.NullL?
    requires Against(env, sp, schema, c, x).Some?
    ensures var (a, b, _) := Against(env, sp, schema, c, x).value;
            (Run(env, a, row).Null? <==> row[c].Null?) && !Run(env, b, row).Null?
  {
    AgainstAgrees(env, sp, schema, c, x, row);
    ComparedKinds(env, x, schema[c], row[c]);
    var k := Coerce(env, x, schema[c]).value;
    if k.cast.Some? {
      ArrowSoundness.CastNulls(env, row[c], k.cast.value);
    }
  }

  lemma {:induction false} RenderIsExact(env: Engine, sp: Speller, schema: Schema, first: Column, node: Node, row: Row)
    requires ArrowSoundness.LibraryTypes(env) && SpellerAgrees(env, sp) && TypedRow(schema, row)
    requires Accepted(env, schema, node) && ArrowSoundness.Parsed(node) && LikesAgreeOnZeros(env, schema, node)
    requires Render(env, sp, schema, first, node).Some?
    ensures SqlTruth(env, Render(env, sp, schema, first, node).value, row) == Eval(env, schema, node, row)
    decreases node, 1
  {
    match node
    case AndN(args) =>
      RenderAllIsExact(env, sp, schema, first, args, row);
      FoldIsExact(env, RenderAll(env, sp, schema, first, args).value, row);
    case OrN(args) =>
      RenderAllIsExact(env, sp, schema, first, args, row);
      FoldIsExact(env, RenderAll(env, sp, schema, first, args).value, row);
    case NotN(arg) => RenderIsExact(env, sp, schema, first, arg, row);
    case Cmp(op, l, r) => CompareSqlIsExact(env, sp, schema, first, op, l, r, row);
    case NullSafe(l, r) => RenderNullSafeIsExact(env, sp, schema, first, l, r, row);
    case In(t, items, negated) => RenderInIsExact(env, sp, schema, first, t, items, row);
    case Between(t, low, high, negated) => BetweenIsExact(env, sp, schema, first, t, low, high, negated, row);
    case Like(t, pattern, insensitive, negated) => LikeIsExact(env, sp, schema, first, t, pattern, insensitive, negated, row);
    case IsNull(o) => SingleReads(env, sp, schema, o, row);
    case IsNotNull(o) => SingleReads(env, sp, schema, o, row);
    case BoolColumn(c) => ColumnReads(env, schema, c, row);
    case Constant(_) =>
  }

  lemma BetweenIsExact(env: Engine, sp: Speller, schema: Schema, first: Column, t: Operand, low: Operand, high: Operand, negated: bool, row: Row)
    requires ArrowSoundness.LibraryTypes(env) && SpellerAgrees(env, sp) && TypedRow(schema, row)
    requires Accepted(env, schema, Between(t, low, high, negated))
    requires Render(env, sp, schema, first, Between(t, low, high, negated)).Some?
    ensures SqlTruth(env, Render(env, sp, schema, first, Between(t, low, high, negated)).value, row) ==
            Eval(env, schema, Between(t, low, high, negated), row)
  {
    CompareSqlIsExact(env, sp, schema, first, Ge, t, low, row);
    CompareSqlIsExact(env, sp, schema, first, Le, t, high, row);
    var a := CompareSql(env, sp, schema, first, Ge, t, low).value;
    var b := CompareSql(env, sp, schema, first, Le, t, high).value;
    JunctionsRun(env, a, b, row);
    NegatedRuns(env, negated, AndSql(a, b), row);
  }

  lemma NegatedRuns(env: Engine, negated: bool, e: Sql, row: Row)
    ensures SqlTruth(env, Negated(negated, e), row) == Predicates.Signed(negated, SqlTruth(env, e, row))
  {
  }

  lemma SingleReads(env: Engine, sp: Speller, schema: Schema, o: Operand, row: Row)
    requires TypedRow(schema, row) && SingleSql(sp, schema, o).Some?
    ensures var v := Run(env, SingleSql(sp, schema, o).value, row);
            && (v.Null? <==> NullAt(o, row))
            && v == WithoutNegativeZero(if o.Col? then Lookup(row, o.path) else Bare(o.lit))
  {
    if o.Col? {
      ColumnReads(env, schema, o.path, row);
    }
  }

  /** The text the rendered LIKE sees. */
  function SqlSubject(env: Engine, schema: Schema, t: Operand, row: Row): Value {
    match t
    case Col(c) =>
      var v := WithoutNegativeZero(Lookup(row, c));
      if c in schema && schema[c].TextType? then v else env.asText(v)
    case Lit(l) => WithoutNegativeZero(Bare(l))
  }

  lemma LikeReads(env: Engine, sp: Speller, schema: Schema, first: Column, t: Operand, pattern: string, insensitive: bool, negated: bool, row: Row)
    requires TypedRow(schema, row) && Render(env, sp, schema, first, Like(t, pattern, insensitive, negated)).Some?
    ensures SqlTruth(env, Render(env, sp, schema, first, Like(t, pattern, insensitive, negated)).value, row) ==
            Predicates.Signed(negated, LikeTruth(env, pattern, insensitive, SqlSubject(env, schema, t, row)))
  {
    SingleReads(env, sp, schema, t, row);
    var e := Render(env, sp, schema, first, Like(t, pattern, insensitive, negated)).value;
    var inner := if negated then e.arg else e;
    assert Run(env, inner.arg, row) == SqlSubject(env, schema, t, row);
    assert SqlTruth(env, inner, row) == LikeTruth(env, pattern, insensitive, SqlSubject(env, schema, t, row));
  }

  lemma LikeIsExact(env: Engine, sp: Speller, schema: Schema, first: Column, t: Operand, pattern: string, insensitive: bool, negated: bool, row: Row)
    requires TypedRow(schema, row) && LikesAgreeOnZeros(env, schema, Like(t, pattern, insensitive, negated))
    requires Render(env, sp, schema, first, Like(t, pattern, insensitive, negated)).Some?
    ensures SqlTruth(env, Render(env, sp, schema, first, Like(t, pattern, insensitive, negated)).value, row) ==
            Eval(env, schema, Like(t, pattern, insensitive, negated), row)
  {
    LikeReads(env, sp, schema, first, t, pattern, insensitive, negated, row);
  }

  lemma ArrowLikeReads(env: Engine, schema: Schema, c: Column, pattern: string, insensitive: bool, negated: bool, row: Row)
    requires c in schema
    ensures var node := Like(Col(c), pattern, insensitive, negated);
            ArrowBackend.Build(env, schema, node).Some? &&
            ArrowSoundness.TruthOf(env, ArrowBackend.Build(env, schema, node).value, row) == Eval(env, schema, node, row)
  {
    var node := Like(Col(c), pattern, insensitive, negated);
    var e := ArrowBackend.Build(env, schema, node).value;
    var inner := if negated then e.arg else e;
    assert ArrowBackend.Run(env, inner.arg, row) == Subject(env, schema, Col(c), row);
    assert ArrowSoundness.TruthOf(env, inner, row) == LikeTruth(env, pattern, insensitive, Subject(env, schema, Col(c), row));
  }

  /** The row whose only value is a -0.0. */
  function NegativeZeroRow(schema: Schema, c: Column): Row {
    map d | d in schema :: if d == c then FloatV(NegZero) else Null
  }

  /** What the two back ends make of one LIKE, on one row. */
  ghost predicate LikeFormsAgree(env: Engine, sp: Speller, schema: Schema, first: Column, node: Node, row: Row) {
    && Render(env, sp, schema, first, node).Some? && ArrowBackend.Build(env, schema, node).Some?
    && SqlTruth(env, Render(env, sp, schema, first, node).value, row) ==
       ArrowSoundness.TruthOf(env, ArrowBackend.Build(env, schema, node).value, row)
  }

  /**
   * On a floating column the two LIKE forms agree on every row if and only if the pattern gives
   * one answer for the texts of -0.0 and 0.0.
   */
  lemma LikeFormsAgreeExactlyWhen(env: Engine, sp: Speller, schema: Schema, first: Column, c: Column, pattern: string, insensitive: bool, negated: bool)
    requires c in schema && schema[c].FloatType?
    ensures (forall row :: TypedRow(schema, row) ==>
              LikeFormsAgree(env, sp, schema, first, Like(Col(c), pattern, insensitive, negated), row))
            <==> SameOnZeros(env, pattern, insensitive)
  {
    var node := Like(Col(c), pattern, insensitive, negated);
    var worst := NegativeZeroRow(schema, c);
    assert TypedRow(schema, worst);
    LikeReads(env, sp, schema, first, Col(c), pattern, insensitive, negated, worst);
    ArrowLikeReads(env, schema, c, pattern, insensitive, negated, worst);
    if SameOnZeros(env, pattern, insensitive) {
      forall row | TypedRow(schema, row) ensures LikeFormsAgree(env, sp, schema, first, node, row) {
        LikeIsExact(env, sp, schema, first, Col(c), pattern, insensitive, negated, row);
        ArrowLikeReads(env, schema, c, pattern, insensitive, negated, row);
      }
    }
  }

  lemma {:induction false} RenderAllIsExact(env: Engine, sp: Speller, schema: Schema, first: Column, nodes: seq<Node>, row: Row)
    requires ArrowSoundness.LibraryTypes(env) && SpellerAgrees(env, sp) && TypedRow(schema, row)
    requires forall i :: 0 <= i < |nodes| ==>
      Accepted(env, schema, nodes[i]) && ArrowSoundness.Parsed(nodes[i]) && LikesAgreeOnZeros(env, schema, nodes[i])
    requires RenderAll(env, sp, schema, first, nodes).Some?
    ensures SqlTruths(env, RenderAll(env, sp, schema, first, nodes).value, row) == Truths(env, schema, nodes, row)
    decreases nodes, 0
  {
    if nodes != [] {
      RenderIsExact(env, sp, schema, first, nodes[0], row);
      RenderAllIsExact(env, sp, schema, first, nodes[1..], row);
    }
  }

  /** delta-rs and the kernel path keep the same rows: the ones the predicate is TRUE of. */
  lemma BackendsAgree(env: Engine, sp: Speller, schema: Schema, first: Column, node: Node, row: Row)
    requires ArrowSoundness.LibraryTypes(env) && SpellerAgrees(env, sp) && TypedRow(schema, row)
    requires ArrowSoundness.Parsed(node) && LikesAgreeOnZeros(env, schema, node)
    requires ArrowBackend.Build(env, schema, node).Some? && Render(env, sp, schema, first, node).Some?
    ensures ArrowSoundness.TruthOf(env, ArrowBackend.Build(env, schema, node).value, row) == Eval(env, schema, node, row)
    ensures SqlTruth(env, Render(env, sp, schema, first, node).value, row) == Eval(env, schema, node, row)
  {
    ArrowSoundness.BuildIsExact(env, schema, node, row);
    BuildAccepts(env, schema, node);
    RenderIsExact(env, sp, schema, first, node, row);
  }

  /** The guard can fail: a pattern that tells "-0.0" from "0.0". */
  lemma LikeOnNegativeZeroDiffers(env: Engine)
    requires env.asText(FloatV(NegZero)) == TextV("-0.0") && env.asText(FloatV(Fin(0.0))) == TextV("0.0")
    ensures !SameOnZeros(env, "-%", false)
  {
    assert Matches("%", "") && Matches("%", "0") && Matches("%", ".0") && Matches("%", "0.0");
    assert "-%"[1..] == "%" && "-0.0"[1..] == "0.0";
    assert Matches("-%", "-0.0") && !Matches("-%", "0.0");
  }
}
