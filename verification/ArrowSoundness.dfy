/** The compiled Arrow expression has the truth value of the naive reading, row by row. */
module ArrowSoundness {
  import opened Wrappers
  import opened Kleene
  import opened Values
  import opened Predicates
  import opened BalancedFold
  import opened ArrowBackend

  /** Every type but an integer of no bits. */
  predicate Inhabited(t: Type) {
    t.IntType? ==> t.bits > 0
  }

  /** What the library's conversions give: a value of the type they say, NULL only for NULL. */
  ghost predicate LibraryTypes(env: Engine) {
    && (forall l, t :: env.otherCoerce(l, t).Some? ==>
          var k := env.otherCoerce(l, t).value;
          && Typed(k.scalar, k.scalarType) && !k.scalar.Null?
          && (t.FloatType? || k.scalarType.FloatType? || k.cast == Some(DOUBLE) ==> k.scalar.FloatV?)
          && (k.cast.Some? && k.cast.value.FloatType? ==> k.cast == Some(DOUBLE))
          && (k.scalarType.FloatType? ==> k.cast == Some(DOUBLE) || (k.cast.None? && t.FloatType?))
          && (t.FloatType? ==> k.cast.None? || k.cast == Some(DOUBLE))
          && (k.cast.Some? ==> Inhabited(k.cast.value)))
    && (forall v, t :: Inhabited(t) ==> Typed(env.otherCast(v, t), t) && (env.otherCast(v, t).Null? <==> v.Null?))
  }

  /** Every IN list of the predicate has an item, as the grammar demands. */
  predicate Parsed(node: Node) {
    match node
    case AndN(args) => forall i :: 0 <= i < |args| ==> Parsed(args[i])
    case OrN(args) => forall i :: 0 <= i < |args| ==> Parsed(args[i])
    case NotN(arg) => Parsed(arg)
    case In(_, items, _) => items != []
    case _ => true
  }

  function TruthOf(env: Engine, e: Arrow, row: Row): Truth {
    ToTruth(Run(env, e, row))
  }

  function TruthsOf(env: Engine, es: seq<Arrow>, row: Row): (ts: seq<Truth>)
    ensures |ts| == |es|
    ensures forall i :: 0 <= i < |es| ==> ts[i] == TruthOf(env, es[i], row)
  {
    seq(|es|, i requires 0 <= i < |es| => TruthOf(env, es[i], row))
  }

  // ------------------------------------------------------------- comparisons

  predicate NumberOrNull(v: Value) {
    v.Null? || Numeric(v)
  }

  lemma CastNulls(env: Engine, v: Value, t: Type)
    requires LibraryTypes(env) && Inhabited(t)
    ensures Cast(env, v, t).Null? <==> v.Null?
    ensures !t.FloatType? ==> !Cast(env, v, t).FloatV?
    ensures t == DOUBLE && NumberOrNull(v) ==> NumberOrNull(Cast(env, v, t))
    ensures t.FloatType? ==> NumberOrNull(Cast(env, v, t))
  {
    match (t, v)
    case (FloatType(64), FloatV(_)) =>
    case (_, _) =>
  }

  /** A literal and a column, as the builder pairs them. */
  lemma LiteralPairAgrees(env: Engine, op: CmpOp, v: Value, t: Type, l: Literal)
    requires LibraryTypes(env) && Typed(v, t) && Coerce(env, l, t).Some?
    ensures var k := Coerce(env, l, t).value; var w := MaybeCast(env, v, k.cast);
            && CompareLiteral(env, op, v, t, l) == Compare(op, w, k.scalar)
            && (w.Null? <==> v.Null?) && (k.scalar.Null? <==> l.NullL?)
  {
    var k := Coerce(env, l, t).value;
    if k.cast.Some? {
      CastNulls(env, v, k.cast.value);
    }
  }

  lemma ColumnPairAgrees(env: Engine, schema: Schema, op: CmpOp, a: Column, b: Column, row: Row)
    requires LibraryTypes(env) && TypedRow(schema, row) && Pair(env, schema, Col(a), Col(b)).Some?
    ensures var (x, y) := Pair(env, schema, Col(a), Col(b)).value; var v, w := Run(env, x, row), Run(env, y, row);
            && CompareOperands(env, schema, op, Col(a), Col(b), row) == Compare(op, v, w)
            && (v.Null? <==> row[a].Null?) && (w.Null? <==> row[b].Null?)
  {
    CastNulls(env, row[a], DOUBLE);
    CastNulls(env, row[b], DOUBLE);
  }

  /** The operands the builder compares are the ones the naive reading compares. */
  lemma PairAgrees(env: Engine, schema: Schema, op: CmpOp, left: Operand, right: Operand, row: Row)
    requires LibraryTypes(env) && TypedRow(schema, row) && Pair(env, schema, left, right).Some?
    ensures var (a, b) := Pair(env, schema, left, right).value; var va, vb := Run(env, a, row), Run(env, b, row);
            && CompareOperands(env, schema, op, left, right, row) == Compare(op, va, vb)
            && (va.Null? <==> NullAt(left, row)) && (vb.Null? <==> NullAt(right, row))
  {
    match (left, right)
    case (Col(a), Col(b)) => ColumnPairAgrees(env, schema, op, a, b, row);
    case (Col(c), Lit(l)) => LiteralPairAgrees(env, op, row[c], schema[c], l);
    case (Lit(l), Col(c)) =>
      LiteralPairAgrees(env, Flip(op), row[c], schema[c], l);
      var k := Coerce(env, l, schema[c]).value;
      FlipHolds(op, k.scalar, MaybeCast(env, row[c], k.cast));
    case (Lit(_), Lit(_)) =>
  }

  /** `_floating` is true wherever a NaN can meet the comparison, and then both sides are numbers. */
  lemma FloatingCoversNaN(env: Engine, schema: Schema, left: Operand, right: Operand, row: Row)
    requires LibraryTypes(env) && TypedRow(schema, row) && Pair(env, schema, left, right).Some?
    ensures var (a, b) := Pair(env, schema, left, right).value; var va, vb := Run(env, a, row), Run(env, b, row);
            if Floating(env, schema, left, right) then va.Null? || vb.Null? || (Numeric(va) && Numeric(vb))
            else !IsNaN(va) && !IsNaN(vb)
  {
    match (left, right)
    case (Col(a), Col(b)) =>
      CastNulls(env, row[a], DOUBLE);
      CastNulls(env, row[b], DOUBLE);
    case (Col(c), Lit(l)) => LiteralCoversNaN(env, l, schema[c], row[c]);
    case (Lit(l), Col(c)) => LiteralCoversNaN(env, l, schema[c], row[c]);
    case (Lit(_), Lit(_)) =>
  }

  lemma LiteralCoversNaN(env: Engine, l: Literal, t: Type, v: Value)
    requires LibraryTypes(env) && Typed(v, t) && Coerce(env, l, t).Some?
    ensures var k := Coerce(env, l, t).value; var w := MaybeCast(env, v, k.cast);
            if LiteralMeetsFloat(env, t, l) then w.Null? || k.scalar.Null? || (Numeric(w) && Numeric(k.scalar))
            else !IsNaN(w) && !IsNaN(k.scalar)
  {
    var k := Coerce(env, l, t).value;
    if k.cast.Some? {
      CastNulls(env, v, k.cast.value);
    }
  }

  /** The IEEE forms, on two numbers, are Spark's comparisons with NaN on top. */
  lemma FormsMeanCompare(env: Engine, op: CmpOp, a: Arrow, b: Arrow, row: Row)
    requires var va, vb := Run(env, a, row), Run(env, b, row);
             va.Null? || vb.Null? || (Numeric(va) && Numeric(vb))
    ensures TruthOf(env, EqForm(a, b), row) == Compare(Eq, Run(env, a, row), Run(env, b, row))
    ensures TruthOf(env, LtForm(a, b), row) == Compare(Lt, Run(env, a, row), Run(env, b, row))
    ensures TruthOf(env, LtForm(b, a), row) == Compare(Gt, Run(env, a, row), Run(env, b, row))
  {
    var va, vb := Run(env, a, row), Run(env, b, row);
    OrderAntisymmetric(va, vb);
    NanTest(env, a, row);
    NanTest(env, b, row);
    assert TruthOf(env, AndKleene(IsNan(a), IsNan(b)), row) == And(NanTruth(va), NanTruth(vb));
    assert TruthOf(env, ArrowCmp(Eq, a, b), row) == IeeeCompare(Eq, va, vb);
    LtFormUnfolds(env, a, b, row);
    LtFormUnfolds(env, b, a, row);
  }

  function NanTruth(v: Value): Truth {
    if v.Null? then Unknown else Of(IsNaN(v))
  }

  lemma InvertRuns(env: Engine, e: Arrow, row: Row)
    ensures TruthOf(env, Invert(e), row) == Not(TruthOf(env, e, row))
  {
    assert Run(env, Invert(e), row) == FromTruth(Not(ToTruth(Run(env, e, row))));
  }

  lemma IfElseRuns(env: Engine, c: Arrow, a: Arrow, b: Arrow, row: Row)
    requires TruthOf(env, c, row) != Unknown
    ensures TruthOf(env, IfElse(c, a, b), row) == if TruthOf(env, c, row) == True then TruthOf(env, a, row) else TruthOf(env, b, row)
  {
    assert Run(env, IfElse(c, a, b), row) == if TruthOf(env, c, row) == True then Run(env, a, row) else Run(env, b, row);
  }

  lemma IsNanRuns(env: Engine, a: Arrow, row: Row)
    ensures TruthOf(env, IsNan(a), row) == NanTruth(Run(env, a, row))
  {
    assert Run(env, IsNan(a), row) == var v := Run(env, a, row); if v.Null? then Null else BoolV(IsNaN(v));
  }

  lemma NanTest(env: Engine, a: Arrow, row: Row)
    ensures TruthOf(env, IsNan(a), row) == NanTruth(Run(env, a, row))
    ensures TruthOf(env, Invert(IsNan(a)), row) == Not(NanTruth(Run(env, a, row)))
  {
    IsNanRuns(env, a, row);
    InvertRuns(env, IsNan(a), row);
  }

  lemma LtFormUnfolds(env: Engine, a: Arrow, b: Arrow, row: Row)
    ensures var va, vb := Run(env, a, row), Run(env, b, row);
            TruthOf(env, LtForm(a, b), row) == Or(IeeeCompare(Lt, va, vb), And(NanTruth(vb), Not(NanTruth(va))))
  {
    NanTest(env, a, row);
    NanTest(env, b, row);
    assert TruthOf(env, AndKleene(IsNan(b), Invert(IsNan(a))), row) ==
           And(TruthOf(env, IsNan(b), row), TruthOf(env, Invert(IsNan(a)), row));
    assert TruthOf(env, ArrowCmp(Lt, a, b), row) == IeeeCompare(Lt, Run(env, a, row), Run(env, b, row));
  }

  lemma CompareFormIsExact(env: Engine, schema: Schema, op: CmpOp, left: Operand, right: Operand, row: Row)
    requires LibraryTypes(env) && TypedRow(schema, row) && CompareForm(env, schema, op, left, right).Some?
    ensures TruthOf(env, CompareForm(env, schema, op, left, right).value, row) ==
            CompareOperands(env, schema, op, left, right, row)
  {
    var (a, b) := Pair(env, schema, left, right).value;
    PairAgrees(env, schema, op, left, right, row);
    FloatingCoversNaN(env, schema, left, right, row);
    if Floating(env, schema, left, right) {
      FormsMeanCompare(env, op, a, b, row);
      PairAgrees(env, schema, Eq, left, right, row);
      PairAgrees(env, schema, Lt, left, right, row);
      PairAgrees(env, schema, Gt, left, right, row);
    }
  }

  // ------------------------------------------------------------------- folds

  lemma TruthsOfConcat(env: Engine, a: seq<Arrow>, b: seq<Arrow>, row: Row)
    ensures Any(TruthsOf(env, a + b, row)) == Or(Any(TruthsOf(env, a, row)), Any(TruthsOf(env, b, row)))
  {
    assert TruthsOf(env, a + b, row) == TruthsOf(env, a, row) + TruthsOf(env, b, row);
    AllAnyOfConcat(TruthsOf(env, a, row), TruthsOf(env, b, row));
  }

  lemma FoldIsExact(env: Engine, es: seq<Arrow>, row: Row)
    requires es != []
    ensures TruthOf(env, FoldAnd(es), row) == All(TruthsOf(env, es, row))
    ensures TruthOf(env, FoldOr(es), row) == Any(TruthsOf(env, es, row))
  {
    var truth := (e: Arrow) => TruthOf(env, e, row);
    assert Mapped(es, truth) == TruthsOf(env, es, row);
    FoldTruth(es, CombineAnd, truth, true);
    FoldTruth(es, CombineOr, truth, false);
  }

  // -------------------------------------------------------------- membership

  /** Two values of one column type are SQL-equal when they are the same, or both zero. */
  lemma EqualIsSame(v: Value, w: Value, t: Type)
    requires Typed(v, t) && Typed(w, t) && !v.Null? && !w.Null?
    ensures Order(v, w) == 0 <==> v == w || (IsZero(v) && IsZero(w))
  {
    if v.TextV? {
      TextOrderEqual(v.s, w.s);
    }
  }

  predicate HasNull(items: seq<Operand>) {
    exists i :: i in items && i.Lit? && i.lit.NullL?
  }

  predicate Finds(scalars: seq<Value>, v: Value) {
    exists s :: s in scalars && Order(v, s) == 0
  }

  lemma {:induction false} SharedScalarsAreTyped(env: Engine, t: Type, items: seq<Operand>)
    requires LibraryTypes(env) && SharedScalars(env, t, items).Some?
    ensures forall s :: s in SharedScalars(env, t, items).value ==> Typed(s, t) && !s.Null?
  {
    if items != [] {
      SharedScalarsAreTyped(env, t, items[1..]);
    }
  }

  lemma SharedScalarIsEquality(env: Engine, schema: Schema, c: Column, l: Literal, row: Row)
    requires LibraryTypes(env) && c in schema && c in row && !row[c].Null? && !l.NullL?
    requires Coerce(env, l, schema[c]).Some? && Coerce(env, l, schema[c]).value.cast.None?
    ensures var s := Coerce(env, l, schema[c]).value.scalar;
            CompareOperands(env, schema, Eq, Col(c), Lit(l), row) == Of(Order(row[c], s) == 0)
  {
  }

  predicate NullIn(items: seq<Operand>) {
    items != [] && ((items[0].Lit? && items[0].lit.NullL?) || NullIn(items[1..]))
  }

  lemma {:induction false} NullInIsHasNull(items: seq<Operand>)
    ensures NullIn(items) <==> HasNull(items)
  {
    if items != [] {
      NullInIsHasNull(items[1..]);
      assert items == [items[0]] + items[1..];
    }
  }

  /** The equalities of an IN list, read off its typed scalars. */
  lemma {:induction false} SharedScalarsAny(env: Engine, schema: Schema, c: Column, items: seq<Operand>, row: Row)
    requires LibraryTypes(env) && c in schema && c in row && !row[c].Null?
    requires SharedScalars(env, schema[c], items).Some?
    ensures Any(Equalities(env, schema, Col(c), items, row)) ==
            if Finds(SharedScalars(env, schema[c], items).value, row[c]) then True
            else if NullIn(items) then Unknown else False
  {
    if items != [] {
      SharedScalarsAny(env, schema, c, items[1..], row);
      AnyEqualityCons(env, schema, Col(c), items, row);
      var l := items[0].lit;
      if !l.NullL? {
        SharedScalarIsEquality(env, schema, c, l, row);
        FindsCons(Coerce(env, l, schema[c]).value.scalar, SharedScalars(env, schema[c], items[1..]).value, row[c]);
      }
    }
  }

  lemma AnyEqualityCons(env: Engine, schema: Schema, t: Operand, items: seq<Operand>, row: Row)
    requires items != []
    ensures Any(Equalities(env, schema, t, items, row)) ==
            Or(CompareOperands(env, schema, Eq, t, items[0], row), Any(Equalities(env, schema, t, items[1..], row)))
  {
    var eqs := Equalities(env, schema, t, items, row);
    assert eqs == [eqs[0]] + Equalities(env, schema, t, items[1..], row);
    AllAnyOfConcat([eqs[0]], Equalities(env, schema, t, items[1..], row));
    AllAnyOfOne([eqs[0]]);
  }

  lemma FindsCons(s: Value, rest: seq<Value>, v: Value)
    ensures Finds([s] + rest, v) <==> Order(v, s) == 0 || Finds(rest, v)
  {
    if Order(v, s) == 0 {
      assert ([s] + rest)[0] == s;
    }
    forall w | w in rest ensures w in [s] + rest {
      var i :| 0 <= i < |rest| && rest[i] == w;
      assert ([s] + rest)[i + 1] == w;
    }
  }

  /** The zeros added to the lookup make up for its telling -0.0 from 0.0. */
  lemma LookupFinds(t: Type, scalars: seq<Value>, v: Value)
    requires Typed(v, t) && !v.Null?
    requires forall s :: s in scalars ==> Typed(s, t) && !s.Null? && (Order(v, s) == 0 <==> v == s || (IsZero(v) && IsZero(s)))
    ensures var zeros := if t.FloatType? && exists s :: s in scalars && IsZero(s)
                         then [FloatV(Fin(0.0)), FloatV(NegZero)] else [];
            Finds(scalars, v) <==> v in scalars + zeros
  {
    if IsZero(v) {
      assert v == FloatV(Fin(0.0)) || v == FloatV(NegZero);
    }
  }

  lemma NullIsInNoList(env: Engine, schema: Schema, c: Column, items: seq<Operand>, row: Row)
    requires c in schema && c in row && row[c].Null? && items != [] && SharedScalars(env, schema[c], items).Some?
    ensures Any(Equalities(env, schema, Col(c), items, row)) == Unknown
  {
    var eqs := Equalities(env, schema, Col(c), items, row);
    forall i | 0 <= i < |eqs| ensures eqs[i] == Unknown {
      SharedScalarsLiterals(env, schema[c], items, i);
    }
    assert eqs[0] == Unknown;
  }

  /** The lookup on a value that is not NULL, with its answer for a value that is in no list. */
  lemma LookupRuns(env: Engine, c: Column, listed: seq<Value>, miss: Arrow, row: Row)
    requires c in row && !row[c].Null?
    ensures TruthOf(env, IfElse(IsValid(Field(c)), IfElse(IsIn(Field(c), listed), Scalar(BoolV(true)), miss), NULL_BOOL), row) ==
            if row[c] in listed then True else TruthOf(env, miss, row)
  {
    var found := IsIn(Field(c), listed);
    assert Run(env, Field(c), row) == row[c];
    assert Run(env, IsValid(Field(c)), row) == BoolV(true) && Run(env, found, row) == BoolV(row[c] in listed);
    IfElseRuns(env, found, Scalar(BoolV(true)), miss, row);
    IfElseRuns(env, IsValid(Field(c)), IfElse(found, Scalar(BoolV(true)), miss), NULL_BOOL, row);
    assert Run(env, Scalar(BoolV(true)), row) == BoolV(true);
  }

  lemma PresentMembership(env: Engine, schema: Schema, target: Operand, items: seq<Operand>, row: Row)
    requires LibraryTypes(env) && TypedRow(schema, row) && items != []
    requires Membership(env, schema, target, items).Some? && !row[target.path].Null?
    ensures TruthOf(env, Membership(env, schema, target, items).value, row) ==
            Any(Equalities(env, schema, target, items, row))
  {
    var c := target.path;
    var t, v := schema[c], row[c];
    var scalars := SharedScalars(env, t, items).value;
    SharedScalarsAny(env, schema, c, items, row);
    NullInIsHasNull(items);
    var e := Membership(env, schema, target, items).value;
    if scalars == [] {
      NoScalarsHasNull(env, t, items);
      assert Run(env, IsValid(Field(c)), row) == BoolV(true);
      assert Run(env, e, row) == Null;
    } else {
      ScalarsAreFound(env, t, items, v);
      LookupRuns(env, c, e.yes.cond.values, e.yes.no, row);
    }
  }

  lemma ScalarsAreFound(env: Engine, t: Type, items: seq<Operand>, v: Value)
    requires LibraryTypes(env) && SharedScalars(env, t, items).Some? && Typed(v, t) && !v.Null?
    ensures var scalars := SharedScalars(env, t, items).value;
            var zeros := if t.FloatType? && exists s :: s in scalars && IsZero(s)
                         then [FloatV(Fin(0.0)), FloatV(NegZero)] else [];
            Finds(scalars, v) <==> v in scalars + zeros
  {
    var scalars := SharedScalars(env, t, items).value;
    SharedScalarsAreTyped(env, t, items);
    forall s | s in scalars ensures Order(v, s) == 0 <==> v == s || (IsZero(v) && IsZero(s)) {
      EqualIsSame(v, s, t);
    }
    LookupFinds(t, scalars, v);
  }

  lemma MembershipIsExact(env: Engine, schema: Schema, target: Operand, items: seq<Operand>, row: Row)
    requires LibraryTypes(env) && TypedRow(schema, row) && items != []
    requires Membership(env, schema, target, items).Some?
    ensures TruthOf(env, Membership(env, schema, target, items).value, row) ==
            Any(Equalities(env, schema, target, items, row))
  {
    var c := target.path;
    var t, v := schema[c], row[c];
    var scalars := SharedScalars(env, t, items).value;
    assert Run(env, IsValid(Field(c)), row) == BoolV(!v.Null?);
    if v.Null? {
      NullIsInNoList(env, schema, c, items, row);
      var e := Membership(env, schema, target, items).value;
      assert e.cond == IsValid(Field(c)) && e.no == NULL_BOOL;
      assert Run(env, e, row) == Null;
    } else {
      PresentMembership(env, schema, target, items, row);
    }
  }

  lemma {:induction false} SharedScalarsLiterals(env: Engine, t: Type, items: seq<Operand>, i: nat)
    requires SharedScalars(env, t, items).Some? && i < |items|
    ensures items[i].Lit?
  {
    if i > 0 {
      SharedScalarsLiterals(env, t, items[1..], i - 1);
    }
  }

  lemma {:induction false} NoScalarsHasNull(env: Engine, t: Type, items: seq<Operand>)
    requires SharedScalars(env, t, items) == Some([]) && items != []
    ensures HasNull(items)
  {
    assert items[0] in items;
  }

  // --------------------------------------------------------------- disjuncts

  lemma {:induction false} CompareFormsAreExact(env: Engine, schema: Schema, target: Operand, items: seq<Operand>, row: Row)
    requires LibraryTypes(env) && TypedRow(schema, row) && CompareForms(env, schema, target, items).Some?
    ensures TruthsOf(env, CompareForms(env, schema, target, items).value, row) == Equalities(env, schema, target, items, row)
  {
    if items != [] {
      CompareFormsAreExact(env, schema, target, items[1..], row);
      CompareFormIsExact(env, schema, Eq, target, items[0], row);
    }
  }

  lemma GroupFormsAreExact(env: Engine, schema: Schema, c: Column, literals: seq<Operand>, row: Row)
    requires LibraryTypes(env) && TypedRow(schema, row) && GroupForms(env, schema, c, literals).Some?
    ensures Any(TruthsOf(env, GroupForms(env, schema, c, literals).value, row)) ==
            Any(Equalities(env, schema, Col(c), literals, row))
  {
    var lookup := if |literals| > 1 then Membership(env, schema, Col(c), literals) else None;
    if lookup.Some? {
      MembershipIsExact(env, schema, Col(c), literals, row);
      AllAnyOfOne(TruthsOf(env, [lookup.value], row));
    } else {
      CompareFormsAreExact(env, schema, Col(c), literals, row);
    }
  }

  /** The equalities `disjuncts` grouped, column by column. */
  function AnyGroups(env: Engine, schema: Schema, args: seq<Node>, order: seq<Column>, row: Row): Truth {
    if order == [] then False
    else Or(Any(Equalities(env, schema, Col(order[0]), LiteralsOf(args, order[0]), row)),
            AnyGroups(env, schema, args, order[1..], row))
  }

  lemma {:induction false} AllGroupsAreExact(env: Engine, schema: Schema, args: seq<Node>, order: seq<Column>, row: Row)
    requires LibraryTypes(env) && TypedRow(schema, row) && AllGroups(env, schema, args, order).Some?
    ensures Any(TruthsOf(env, AllGroups(env, schema, args, order).value, row)) == AnyGroups(env, schema, args, order, row)
  {
    if order != [] {
      GroupFormsAreExact(env, schema, order[0], LiteralsOf(args, order[0]), row);
      AllGroupsAreExact(env, schema, args, order[1..], row);
      TruthsOfConcat(env, GroupForms(env, schema, order[0], LiteralsOf(args, order[0])).value,
                     AllGroups(env, schema, args, order[1..]).value, row);
    }
  }

  predicate InGroups(env: Engine, schema: Schema, args: seq<Node>, order: seq<Column>, row: Row, t: Truth) {
    exists c :: c in order && t in Equalities(env, schema, Col(c), LiteralsOf(args, c), row)
  }

  lemma {:induction false} AnyGroupsMeans(env: Engine, schema: Schema, args: seq<Node>, order: seq<Column>, row: Row)
    ensures AnyGroups(env, schema, args, order, row) ==
            if InGroups(env, schema, args, order, row, True) then True
            else if InGroups(env, schema, args, order, row, Unknown) then Unknown else False
  {
    if order != [] {
      AnyGroupsMeans(env, schema, args, order[1..], row);
      AnyByMembers(Equalities(env, schema, Col(order[0]), LiteralsOf(args, order[0]), row));
      InGroupsCons(env, schema, args, order, row, True);
      InGroupsCons(env, schema, args, order, row, Unknown);
    }
  }

  lemma InGroupsCons(env: Engine, schema: Schema, args: seq<Node>, order: seq<Column>, row: Row, t: Truth)
    requires order != []
    ensures InGroups(env, schema, args, order, row, t) <==>
              || t in Equalities(env, schema, Col(order[0]), LiteralsOf(args, order[0]), row)
              || InGroups(env, schema, args, order[1..], row, t)
  {
    assert order == [order[0]] + order[1..];
  }

  lemma {:induction false} RestIsUngrouped(args: seq<Node>, node: Node)
    ensures node in Rest(args) <==> node in args && Grouped(node).None?
  {
    if args != [] {
      RestIsUngrouped(args[1..], node);
      assert args == [args[0]] + args[1..];
    }
  }

  lemma {:induction false} GroupHoldsLiterals(args: seq<Node>, c: Column, o: Operand)
    ensures o in LiteralsOf(args, c) <==> o.Lit? && exists i :: 0 <= i < |args| && Grouped(args[i]) == Some((c, o.lit))
  {
    if args != [] {
      GroupHoldsLiterals(args[1..], c, o);
      assert forall i :: 1 <= i < |args| ==> args[i] == args[1..][i - 1];
      if o in LiteralsOf(args[1..], c) {
        var i :| 0 <= i < |args[1..]| && Grouped(args[1..][i]) == Some((c, o.lit));
        assert args[i + 1] == args[1..][i];
      }
    }
  }

  lemma {:induction false} GroupedColumnIsListed(args: seq<Node>, i: nat)
    requires i < |args| && Grouped(args[i]).Some?
    ensures Grouped(args[i]).value.0 in GroupOrder(args)
    decreases |args|
  {
    var before := args[..|args| - 1];
    if i < |args| - 1 {
      assert before[i] == args[i];
      GroupedColumnIsListed(before, i);
    }
  }

  lemma TruthGoesToItsGroup(env: Engine, schema: Schema, args: seq<Node>, row: Row, i: nat)
    requires i < |args|
    ensures var t := Eval(env, schema, args[i], row);
            || t in Truths(env, schema, Rest(args), row)
            || InGroups(env, schema, args, GroupOrder(args), row, t)
  {
    var rest := Rest(args);
    RestIsUngrouped(args, args[i]);
    match Grouped(args[i]) {
      case None =>
        var k :| 0 <= k < |rest| && rest[k] == args[i];
        assert Truths(env, schema, rest, row)[k] == Eval(env, schema, args[i], row);
      case Some((c, l)) =>
        GroupedColumnIsListed(args, i);
        GroupHoldsLiterals(args, c, Lit(l));
        var literals := LiteralsOf(args, c);
        var k :| 0 <= k < |literals| && literals[k] == Lit(l);
        assert Equalities(env, schema, Col(c), literals, row)[k] == Eval(env, schema, args[i], row);
    }
  }

  lemma GroupedEval(env: Engine, schema: Schema, node: Node, row: Row, c: Column, l: Literal)
    requires Grouped(node) == Some((c, l))
    ensures Eval(env, schema, node, row) == CompareOperands(env, schema, Eq, Col(c), Lit(l), row)
  {
  }

  lemma GroupTruthIsThere(env: Engine, schema: Schema, args: seq<Node>, row: Row, c: Column, k: nat)
    requires k < |LiteralsOf(args, c)|
    ensures Equalities(env, schema, Col(c), LiteralsOf(args, c), row)[k] in Truths(env, schema, args, row)
  {
    var o := LiteralsOf(args, c)[k];
    GroupHoldsLiterals(args, c, o);
    var i :| 0 <= i < |args| && Grouped(args[i]) == Some((c, o.lit));
    GroupedEval(env, schema, args[i], row, c, o.lit);
    var ts := Truths(env, schema, args, row);
    assert ts[i] in ts;
  }

  lemma RestTruthIsThere(env: Engine, schema: Schema, args: seq<Node>, row: Row, k: nat)
    requires k < |Rest(args)|
    ensures Truths(env, schema, Rest(args), row)[k] in Truths(env, schema, args, row)
  {
    RestIsUngrouped(args, Rest(args)[k]);
    var i :| 0 <= i < |args| && args[i] == Rest(args)[k];
    assert Truths(env, schema, args, row)[i] == Truths(env, schema, Rest(args), row)[k];
  }

  lemma TruthIsInSomeGroup(env: Engine, schema: Schema, args: seq<Node>, row: Row, t: Truth)
    ensures t in Truths(env, schema, args, row) <==>
              || t in Truths(env, schema, Rest(args), row)
              || InGroups(env, schema, args, GroupOrder(args), row, t)
  {
    var ts, rest := Truths(env, schema, args, row), Truths(env, schema, Rest(args), row);
    if t in ts {
      var i :| 0 <= i < |ts| && ts[i] == t;
      TruthGoesToItsGroup(env, schema, args, row, i);
    }
    if t in rest {
      var k :| 0 <= k < |rest| && rest[k] == t;
      RestTruthIsThere(env, schema, args, row, k);
    }
    if InGroups(env, schema, args, GroupOrder(args), row, t) {
      var c :| c in GroupOrder(args) && t in Equalities(env, schema, Col(c), LiteralsOf(args, c), row);
      var group := Equalities(env, schema, Col(c), LiteralsOf(args, c), row);
      var k :| 0 <= k < |group| && group[k] == t;
      GroupTruthIsThere(env, schema, args, row, c, k);
    }
  }

  /** Regrouping the disjuncts by column changes no truth value. */
  lemma GroupingKeepsTruth(env: Engine, schema: Schema, args: seq<Node>, row: Row)
    ensures Any(Truths(env, schema, args, row)) ==
            Or(Any(Truths(env, schema, Rest(args), row)), AnyGroups(env, schema, args, GroupOrder(args), row))
  {
    AnyGroupsMeans(env, schema, args, GroupOrder(args), row);
    TruthIsInSomeGroup(env, schema, args, row, True);
    TruthIsInSomeGroup(env, schema, args, row, Unknown);
    AnyByMembers(Truths(env, schema, args, row));
    AnyByMembers(Truths(env, schema, Rest(args), row));
  }

  lemma AnyByMembers(ts: seq<Truth>)
    ensures Any(ts) == if True in ts then True else if Unknown in ts then Unknown else False
  {
  }

  // -------------------------------------------------------------------- build

  lemma {:induction false} BuildIsExact(env: Engine, schema: Schema, node: Node, row: Row)
    requires LibraryTypes(env) && TypedRow(schema, row) && Parsed(node) && Build(env, schema, node).Some?
    ensures TruthOf(env, Build(env, schema, node).value, row) == Eval(env, schema, node, row)
    decreases node, 1
  {
    match node
    case AndN(args) =>
      BuildAllIsExact(env, schema, args, row);
      FoldIsExact(env, BuildAll(env, schema, args).value, row);
    case OrN(args) =>
      BuildRestIsExact(env, schema, args, row);
      DisjunctsAreExact(env, schema, args, row);
    case NotN(arg) => BuildIsExact(env, schema, arg, row);
    case Cmp(op, l, r) => CompareFormIsExact(env, schema, op, l, r, row);
    case NullSafe(l, r) => NullSafeIsExact(env, schema, l, r, row);
    case In(t, items, negated) => InIsExact(env, schema, t, items, negated, row);
    case Between(t, low, high, negated) => BetweenIsExact(env, schema, t, low, high, negated, row);
    case Like(t, pattern, insensitive, negated) => LikeIsExact(env, schema, t, pattern, insensitive, negated, row);
    case IsNull(o) => SingleIsExact(env, schema, o, row);
    case IsNotNull(o) => SingleIsExact(env, schema, o, row);
    case BoolColumn(c) => assert Typed(row[c], BoolType);
    case Constant(_) =>
  }

  lemma DisjunctsAreExact(env: Engine, schema: Schema, args: seq<Node>, row: Row)
    requires LibraryTypes(env) && TypedRow(schema, row) && Build(env, schema, OrN(args)).Some?
    requires BuildRest(env, schema, args).Some?
    requires TruthsOf(env, BuildRest(env, schema, args).value, row) == Truths(env, schema, Rest(args), row)
    ensures TruthOf(env, Build(env, schema, OrN(args)).value, row) == Any(Truths(env, schema, args, row))
  {
    var order := GroupOrder(args);
    AllGroupsAreExact(env, schema, args, order, row);
    TruthsOfConcat(env, BuildRest(env, schema, args).value, AllGroups(env, schema, args, order).value, row);
    GroupingKeepsTruth(env, schema, args, row);
    FoldIsExact(env, Disjuncts(env, schema, args).value, row);
  }

  lemma NegatedRuns(env: Engine, negated: bool, e: Arrow, row: Row)
    ensures TruthOf(env, Negated(negated, e), row) == Signed(negated, TruthOf(env, e, row))
  {
    if negated {
      InvertRuns(env, e, row);
    }
  }

  lemma BetweenIsExact(env: Engine, schema: Schema, t: Operand, low: Operand, high: Operand, negated: bool, row: Row)
    requires LibraryTypes(env) && TypedRow(schema, row) && Build(env, schema, Between(t, low, high, negated)).Some?
    ensures TruthOf(env, Build(env, schema, Between(t, low, high, negated)).value, row) ==
            Eval(env, schema, Between(t, low, high, negated), row)
  {
    CompareFormIsExact(env, schema, Ge, t, low, row);
    CompareFormIsExact(env, schema, Le, t, high, row);
    var a, b := CompareForm(env, schema, Ge, t, low).value, CompareForm(env, schema, Le, t, high).value;
    NegatedRuns(env, negated, AndKleene(a, b), row);
    assert TruthOf(env, AndKleene(a, b), row) == And(TruthOf(env, a, row), TruthOf(env, b, row));
  }

  lemma LikeIsExact(env: Engine, schema: Schema, t: Operand, pattern: string, insensitive: bool, negated: bool, row: Row)
    requires Build(env, schema, Like(t, pattern, insensitive, negated)).Some?
    ensures TruthOf(env, Build(env, schema, Like(t, pattern, insensitive, negated)).value, row) ==
            Eval(env, schema, Like(t, pattern, insensitive, negated), row)
  {
    var e := Build(env, schema, Like(t, pattern, insensitive, negated)).value;
    var inner := if negated then e.arg else e;
    NegatedRuns(env, negated, inner, row);
    assert Run(env, inner.arg, row) == Subject(env, schema, t, row);
    assert TruthOf(env, inner, row) == LikeTruth(env, pattern, insensitive, Subject(env, schema, t, row));
  }

  lemma SingleIsExact(env: Engine, schema: Schema, o: Operand, row: Row)
    requires Single(schema, o).Some?
    ensures Run(env, Single(schema, o).value, row).Null? <==> NullAt(o, row)
  {
  }

  lemma NullTestRuns(env: Engine, a: Arrow, row: Row)
    ensures TruthOf(env, IsNullOf(a), row) == Of(Run(env, a, row).Null?)
  {
    assert Run(env, IsNullOf(a), row) == BoolV(Run(env, a, row).Null?);
  }

  lemma AndKleeneRuns(env: Engine, a: Arrow, b: Arrow, row: Row)
    ensures TruthOf(env, AndKleene(a, b), row) == And(TruthOf(env, a, row), TruthOf(env, b, row))
  {
    assert Run(env, AndKleene(a, b), row) == FromTruth(And(TruthOf(env, a, row), TruthOf(env, b, row)));
  }

  lemma BothNullRuns(env: Engine, a: Arrow, b: Arrow, row: Row)
    ensures TruthOf(env, AndKleene(IsNullOf(a), IsNullOf(b)), row) == Of(Run(env, a, row).Null? && Run(env, b, row).Null?)
  {
    NullTestRuns(env, a, row);
    NullTestRuns(env, b, row);
    AndKleeneRuns(env, IsNullOf(a), IsNullOf(b), row);
  }

  /** UNKNOWN becomes FALSE. */
  lemma CoalesceRuns(env: Engine, e: Arrow, row: Row)
    requires var v := Run(env, e, row); v.Null? || v.BoolV?
    ensures TruthOf(env, Coalesce(e, Scalar(BoolV(false))), row) == if Run(env, e, row) == BoolV(true) then True else False
  {
    var v := Run(env, e, row);
    assert Run(env, Scalar(BoolV(false)), row) == BoolV(false);
    assert Run(env, Coalesce(e, Scalar(BoolV(false))), row) == if v.Null? then BoolV(false) else v;
  }

  /** The form of a null-safe equality, over any two expressions and their comparison. */
  lemma NullSafeRuns(env: Engine, a: Arrow, b: Arrow, equal: Arrow, row: Row)
    requires var v := Run(env, equal, row); v.Null? || v.BoolV?
    ensures TruthOf(env, IfElse(AndKleene(IsNullOf(a), IsNullOf(b)), Scalar(BoolV(true)), Coalesce(equal, Scalar(BoolV(false)))), row) ==
            if Run(env, a, row).Null? && Run(env, b, row).Null? then True
            else if Run(env, equal, row) == BoolV(true) then True else False
  {
    BothNullRuns(env, a, b, row);
    CoalesceRuns(env, equal, row);
    IfElseRuns(env, AndKleene(IsNullOf(a), IsNullOf(b)), Scalar(BoolV(true)), Coalesce(equal, Scalar(BoolV(false))), row);
    assert Run(env, Scalar(BoolV(true)), row) == BoolV(true);
  }

  lemma NullSafeIsExact(env: Engine, schema: Schema, l: Operand, r: Operand, row: Row)
    requires LibraryTypes(env) && TypedRow(schema, row) && Build(env, schema, NullSafe(l, r)).Some?
    ensures TruthOf(env, Build(env, schema, NullSafe(l, r)).value, row) == Eval(env, schema, NullSafe(l, r), row)
  {
    PairAgrees(env, schema, Eq, l, r, row);
    CompareFormIsExact(env, schema, Eq, l, r, row);
    CompareFormIsBoolean(env, schema, Eq, l, r, row);
    var (a, b) := Pair(env, schema, l, r).value;
    NullSafeRuns(env, a, b, CompareForm(env, schema, Eq, l, r).value, row);
  }

  lemma CompareFormIsBoolean(env: Engine, schema: Schema, op: CmpOp, left: Operand, right: Operand, row: Row)
    requires CompareForm(env, schema, op, left, right).Some?
    ensures var v := Run(env, CompareForm(env, schema, op, left, right).value, row); v.Null? || v.BoolV?
  {
  }

  lemma InIsExact(env: Engine, schema: Schema, t: Operand, items: seq<Operand>, negated: bool, row: Row)
    requires LibraryTypes(env) && TypedRow(schema, row) && items != [] && Build(env, schema, In(t, items, negated)).Some?
    ensures TruthOf(env, Build(env, schema, In(t, items, negated)).value, row) == Eval(env, schema, In(t, items, negated), row)
  {
    if Membership(env, schema, t, items).Some? {
      MembershipIsExact(env, schema, t, items, row);
      NegatedRuns(env, negated, Membership(env, schema, t, items).value, row);
    } else {
      var es := CompareForms(env, schema, t, items).value;
      CompareFormsAreExact(env, schema, t, items, row);
      FoldIsExact(env, es, row);
      NegatedRuns(env, negated, FoldOr(es), row);
    }
  }

  lemma TruthsCons(env: Engine, schema: Schema, node: Node, nodes: seq<Node>, row: Row)
    ensures Truths(env, schema, [node] + nodes, row) == [Eval(env, schema, node, row)] + Truths(env, schema, nodes, row)
  {
  }

  lemma TruthsOfCons(env: Engine, e: Arrow, es: seq<Arrow>, row: Row)
    ensures TruthsOf(env, [e] + es, row) == [TruthOf(env, e, row)] + TruthsOf(env, es, row)
  {
  }

  lemma {:induction false} BuildAllIsExact(env: Engine, schema: Schema, nodes: seq<Node>, row: Row)
    requires LibraryTypes(env) && TypedRow(schema, row) && BuildAll(env, schema, nodes).Some?
    requires forall i :: 0 <= i < |nodes| ==> Parsed(nodes[i])
    ensures TruthsOf(env, BuildAll(env, schema, nodes).value, row) == Truths(env, schema, nodes, row)
    decreases nodes, 0
  {
    if nodes != [] {
      BuildIsExact(env, schema, nodes[0], row);
      BuildAllIsExact(env, schema, nodes[1..], row);
    }
  }

  lemma {:induction false} BuildRestIsExact(env: Engine, schema: Schema, nodes: seq<Node>, row: Row)
    requires LibraryTypes(env) && TypedRow(schema, row) && BuildRest(env, schema, nodes).Some?
    requires forall i :: 0 <= i < |nodes| ==> Parsed(nodes[i])
    ensures TruthsOf(env, BuildRest(env, schema, nodes).value, row) == Truths(env, schema, Rest(nodes), row)
    decreases nodes, 0
  {
    if nodes != [] {
      BuildRestIsExact(env, schema, nodes[1..], row);
      if Grouped(nodes[0]).None? {
        BuildIsExact(env, schema, nodes[0], row);
        TruthsCons(env, schema, nodes[0], Rest(nodes[1..]), row);
        TruthsOfCons(env, Build(env, schema, nodes[0]).value, BuildRest(env, schema, nodes[1..]).value, row);
      }
    }
  }
}
