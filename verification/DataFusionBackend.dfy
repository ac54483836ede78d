/** `_DataFusionRenderer`: the same predicate as SQL for delta-rs. */
module DataFusionBackend {
  import opened Wrappers
  import opened Kleene
  import opened Values
  import opened Predicates
  import opened BalancedFold

  datatype Sql =
    | ColumnRef(path: Column)
    | RoundTrip(arg: Sql)            // arrow_cast(CAST(x AS VARCHAR), ...)
    | PlusZero(arg: Sql)             // (x + 0.0)
    | ArrowCast(arg: Sql, type_: Type)
    | Spelled(value: Value)
    | Comparison(op: CmpOp, left: Sql, right: Sql)
    | AndSql(left: Sql, right: Sql)
    | OrSql(left: Sql, right: Sql)
    | NotSql(arg: Sql)
    | IsNullSql(arg: Sql)
    | IsNotNullSql(arg: Sql)
    | IsNanSql(arg: Sql)
    | Case(cond: Sql, yes: Sql, no: Sql)
    | NullIf(left: Sql, right: Sql)
    | AsVarchar(arg: Sql)
    | LikeSql(arg: Sql, pattern: string, insensitive: bool)

  /** Which scalars have a spelling, and which text reads as NaN. */
  datatype Speller = Speller(spells: Type -> bool, nanText: string -> bool)

  // ------------------------------------------------- what DataFusion computes

  /** A float meeting another kind of number is compared as DOUBLE; floats by total order. */
  function SqlCompare(env: Engine, op: CmpOp, a: Value, b: Value): Truth {
    if a.FloatV? && !b.FloatV? && Numeric(b) then TotalCompare(op, a, Cast(env, b, DOUBLE))
    else if b.FloatV? && !a.FloatV? && Numeric(a) then TotalCompare(op, Cast(env, a, DOUBLE), b)
    else TotalCompare(op, a, b)
  }

  function Run(env: Engine, e: Sql, row: Row): Value {
    match e
    case ColumnRef(c) => Lookup(row, c)
    case RoundTrip(a) => Run(env, a, row)
    case PlusZero(a) =>
      var v := Run(env, a, row);
      if v == FloatV(NegZero) then FloatV(Fin(0.0)) else v
    case ArrowCast(a, t) => Cast(env, Run(env, a, row), t)
    case Spelled(v) => v
    case Comparison(op, a, b) => FromTruth(SqlCompare(env, op, Run(env, a, row), Run(env, b, row)))
    case AndSql(a, b) => FromTruth(And(ToTruth(Run(env, a, row)), ToTruth(Run(env, b, row))))
    case OrSql(a, b) => FromTruth(Or(ToTruth(Run(env, a, row)), ToTruth(Run(env, b, row))))
    case NotSql(a) => FromTruth(Not(ToTruth(Run(env, a, row))))
    case IsNullSql(a) => BoolV(Run(env, a, row).Null?)
    case IsNotNullSql(a) => BoolV(!Run(env, a, row).Null?)
    case IsNanSql(a) =>
      var v := Run(env, a, row);
      if v.Null? then Null else BoolV(IsNaN(v))
    case Case(c, a, b) => if ToTruth(Run(env, c, row)) == True then Run(env, a, row) else Run(env, b, row)
    case NullIf(a, b) =>
      var v := Run(env, a, row);
      if v == Run(env, b, row) then Null else v
    case AsVarchar(a) => env.asText(Run(env, a, row))
    case LikeSql(a, pattern, insensitive) =>
      FromTruth(LikeTruth(env, pattern, insensitive, Run(env, a, row)))
  }

  // ------------------------------------------------------------- the renderer

  function WithoutNegativeZero(v: Value): Value {
    if v == FloatV(NegZero) then FloatV(Fin(0.0)) else v
  }

  /** `column`: floats and wide decimals read past their statistics, -0.0 as 0.0. */
  function ColumnSql(schema: Schema, c: Column): Option<(Sql, Type)> {
    if c !in schema then None
    else
      var t := schema[c];
      var text := ColumnRef(c);
      Some((match t
            case FloatType(_) => PlusZero(RoundTrip(text))
            case DecimalType(p, _) => if p > 15 then RoundTrip(text) else text
            case _ => text, t))
  }

  function ScalarSql(sp: Speller, v: Value, t: Type): Option<Sql> {
    if v.Null? || sp.spells(t) then Some(Spelled(WithoutNegativeZero(v))) else None
  }

  function LiteralSql(sp: Speller, l: Literal): Option<Sql> {
    ScalarSql(sp, Bare(l), BareType(l))
  }

  /** One column against one literal: the two sides and the type they are compared in. */
  function Against(env: Engine, sp: Speller, schema: Schema, c: Column, l: Literal): Option<(Sql, Sql, Type)> {
    match ColumnSql(schema, c)
    case None => None
    case Some((text, t)) =>
      match Coerce(env, l, t)
      case None => None
      case Some(k) =>
        match ScalarSql(sp, k.scalar, k.scalarType)
        case None => None
        case Some(s) =>
          if k.cast.Some? then Some((ArrowCast(text, k.cast.value), s, k.cast.value)) else Some((text, s, t))
  }

  /** `operands`: both sides, and the comparison type (None without one column and one literal). */
  function Operands(env: Engine, sp: Speller, schema: Schema, left: Operand, right: Operand): Option<(Sql, Sql, Option<Type>)> {
    match (left, right)
    case (Col(a), Col(b)) =>
      (match (ColumnSql(schema, a), ColumnSql(schema, b))
       case (Some((x, _)), Some((y, _))) => Some((x, y, None))
       case (_, _) => None)
    case (Col(c), Lit(l)) =>
      (match Against(env, sp, schema, c, l)
       case None => None
       case Some((x, y, t)) => Some((x, y, Some(t))))
    case (Lit(l), Col(c)) =>
      (match Against(env, sp, schema, c, l)
       case None => None
       case Some((x, y, t)) => Some((y, x, Some(t))))
    case (Lit(a), Lit(b)) =>
      (match (LiteralSql(sp, a), LiteralSql(sp, b))
       case (Some(x), Some(y)) => Some((x, y, None))
       case (_, _) => None)
  }

  /** `null`: a boolean that is NULL for every row but is not folded to a constant. */
  function NullSql(text: Sql): Sql {
    NullIf(IsNullSql(text), IsNullSql(text))
  }

  /** The column `null` tests: one of the operands where there is one, else the schema's first. */
  function Near(schema: Schema, first: Column, operands: seq<Operand>): Sql {
    if operands == [] then ColumnRef(first)
    else if operands[0].Col? then
      (if operands[0].path in schema then ColumnSql(schema, operands[0].path).value.0 else ColumnRef(first))
    else Near(schema, first, operands[1..])
  }

  predicate LiteralIsNan(sp: Speller, o: Operand) {
    o.Lit? && ((o.lit.DblL? && o.lit.f.NaN?) || (o.lit.StrL? && sp.nanText(o.lit.s)))
  }

  function IsNullLiteral(o: Operand): bool {
    o.Lit? && o.lit.NullL?
  }

  /** What `column <op> NaN` is where the column is NaN, and where it is not. */
  function AtNan(op: CmpOp): bool {
    op == Eq || op == Le || op == Ge
  }

  function BelowNan(op: CmpOp): bool {
    op == Ne || op == Lt || op == Le
  }

  /** What `NaN <op> number` is. */
  function AboveAll(op: CmpOp): bool {
    op == Ne || op == Gt || op == Ge
  }

  function NanLiteralForm(nan: Sql, op: CmpOp): Sql {
    match (AtNan(op), BelowNan(op))
    case (true, true) => OrSql(nan, NotSql(nan))
    case (false, false) => AndSql(nan, NotSql(nan))
    case (true, false) => nan
    case (false, true) => NotSql(nan)
  }

  /** `compare`. */
  function CompareSql(env: Engine, sp: Speller, schema: Schema, first: Column, op: CmpOp, left: Operand, right: Operand): Option<Sql> {
    if IsNullLiteral(left) || IsNullLiteral(right) then Some(NullSql(Near(schema, first, [left, right])))
    else
      match Operands(env, sp, schema, left, right)
      case None => None
      case Some((a, b, t)) =>
        var plain := Comparison(op, a, b);
        if t.None? || !t.value.FloatType? then Some(plain)
        else
          var column := if left.Col? then a else b;
          var other := if left.Col? then right else left;
          var mirrored := if left.Col? then op else Flip(op);
          if LiteralIsNan(sp, other) then Some(NanLiteralForm(IsNanSql(column), mirrored))
          else Some(Case(IsNanSql(column), Spelled(BoolV(AboveAll(mirrored))), plain))
  }

  function CombineAnd(a: Sql, b: Sql): Sql {
    AndSql(a, b)
  }

  function CombineOr(a: Sql, b: Sql): Sql {
    OrSql(a, b)
  }

  function Negated(negated: bool, e: Sql): Sql {
    if negated then NotSql(e) else e
  }

  function Present(items: seq<Operand>): seq<Operand> {
    if items == [] then []
    else (if IsNullLiteral(items[0]) then [] else [items[0]]) + Present(items[1..])
  }

  function CompareAll(env: Engine, sp: Speller, schema: Schema, first: Column, target: Operand, items: seq<Operand>): Option<seq<Sql>> {
    if items == [] then Some([])
    else
      match (CompareSql(env, sp, schema, first, Eq, target, items[0]), CompareAll(env, sp, schema, first, target, items[1..]))
      case (Some(e), Some(es)) => Some([e] + es)
      case (_, _) => None
  }

  function RenderNullSafe(env: Engine, sp: Speller, schema: Schema, first: Column, l: Operand, r: Operand): Option<Sql> {
    if IsNullLiteral(l) || IsNullLiteral(r) then
      var this_ := if IsNullLiteral(r) then l else r;
      match this_
      case Lit(x) => Some(Spelled(BoolV(x.NullL?)))
      case Col(c) => if c in schema then Some(IsNullSql(ColumnSql(schema, c).value.0)) else None
    else
      match (Operands(env, sp, schema, l, r), CompareSql(env, sp, schema, first, Eq, l, r))
      case (Some((a, b, _)), Some(equal)) =>
        Some(Case(AndSql(IsNullSql(a), IsNullSql(b)), Spelled(BoolV(true)),
                  Case(OrSql(IsNullSql(a), IsNullSql(b)), Spelled(BoolV(false)), equal)))
      case (_, _) => None
  }

  function RenderIn(env: Engine, sp: Speller, schema: Schema, first: Column, t: Operand, items: seq<Operand>): Option<Sql> {
    var present := Present(items);
    if present == [] then Some(NullSql(Near(schema, first, [t])))
    else
      match CompareAll(env, sp, schema, first, t, present)
      case None => None
      case Some(es) =>
        var out := Fold(es, CombineOr);
        Some(if |present| != |items| then NullIf(out, Spelled(BoolV(false))) else out)
  }

  function RenderAll(env: Engine, sp: Speller, schema: Schema, first: Column, nodes: seq<Node>): Option<seq<Sql>> {
    if nodes == [] then Some([])
    else
      match (Render(env, sp, schema, first, nodes[0]), RenderAll(env, sp, schema, first, nodes[1..]))
      case (Some(e), Some(es)) => Some([e] + es)
      case (_, _) => None
  }

  /** One operand alone, as IS NULL and LIKE take it. */
  function SingleSql(sp: Speller, schema: Schema, o: Operand): Option<Sql> {
    match o
    case Col(c) => if c in schema then Some(ColumnSql(schema, c).value.0) else None
    case Lit(l) => LiteralSql(sp, l)
  }

  /** `render`; None where it raises or a type has no spelling. */
  function Render(env: Engine, sp: Speller, schema: Schema, first: Column, node: Node): Option<Sql> {
    match node
    case AndN(args) =>
      (match RenderAll(env, sp, schema, first, args)
       case None => None
       case Some(es) => if es == [] then None else Some(Fold(es, CombineAnd)))
    case OrN(args) =>
      (match RenderAll(env, sp, schema, first, args)
       case None => None
       case Some(es) => if es == [] then None else Some(Fold(es, CombineOr)))
    case NotN(arg) =>
      (match Render(env, sp, schema, first, arg)
       case None => None
       case Some(e) => Some(NotSql(e)))
    case Constant(b) => Some(Spelled(BoolV(b)))
    case BoolColumn(c) => SingleSql(sp, schema, Col(c))
    case Cmp(op, l, r) => CompareSql(env, sp, schema, first, op, l, r)
    case NullSafe(l, r) => RenderNullSafe(env, sp, schema, first, l, r)
    case IsNull(o) =>
      (match SingleSql(sp, schema, o)
       case None => None
       case Some(e) => Some(IsNullSql(e)))
    case IsNotNull(o) =>
      (match SingleSql(sp, schema, o)
       case None => None
       case Some(e) => Some(IsNotNullSql(e)))
    case In(t, items, negated) =>
      (match RenderIn(env, sp, schema, first, t, items)
       case None => None
       case Some(e) => Some(Negated(negated, e)))
    case Between(t, low, high, negated) =>
      (match (CompareSql(env, sp, schema, first, Ge, t, low), CompareSql(env, sp, schema, first, Le, t, high))
       case (Some(a), Some(b)) => Some(Negated(negated, AndSql(a, b)))
       case (_, _) => None)
    case Like(t, pattern, insensitive, negated) =>
      (match SingleSql(sp, schema, t)
       case None => None
       case Some(e) =>
         var subject := if t.Col? && !schema[t.path].TextType? then AsVarchar(e) else e;
         Some(Negated(negated, LikeSql(subject, pattern, insensitive))))
  }
}
