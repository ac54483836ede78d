/**
 * File skipping: `_prepare_skipping` and `_skip` weaken a predicate, the native
 * extension converts what is left, and the kernel skips a file whose statistics
 * refute the result.
 */
module Skipping {
  import opened Wrappers
  import opened Kleene
  import opened Values
  import opened Predicates
  import opened LiteralAlignment
  import opened LikeRange

  // ------------------------------------------------------- _prepare_skipping

  function ColumnType(schema: Schema, o: Operand): Option<Type> {
    if o.Col? && o.path in schema then Some(schema[o.path]) else None
  }

  function AlignComparison(env: Engine, schema: Schema, op: CmpOp, left: Operand, right: Operand): Node {
    var flipped := left.Lit? && right.Col?;
    var (column, other) := if flipped then (right, left) else (left, right);
    var wanted := if flipped then Flip(op) else op;
    var target := ColumnType(schema, column);
    if target.Some? && other.Lit? && SkipLiteral(env, other.lit, target.value, wanted).Some? then
      var (lit, newOp) := SkipLiteral(env, other.lit, target.value, wanted).value;
      Cmp(newOp, column, Lit(lit))
    else Cmp(op, left, right)
  }

  /** One item of an IN list or one bound of a BETWEEN, retyped. */
  function AlignItem(env: Engine, t: Type, item: Operand, want: CmpOp): Operand {
    if item.Lit? && SkipLiteral(env, item.lit, t, want).Some?
    then Lit(SkipLiteral(env, item.lit, t, want).value.0)
    else item
  }

  function LikeAsRange(target: Operand, pattern: string, node: Node): Node {
    match PrefixOf(pattern)
    case None => node
    case Some((prefix, whole)) =>
      if whole then Cmp(Eq, target, Lit(StrL(prefix)))
      else
        var low := Cmp(Ge, target, Lit(StrL(prefix)));
        match UpperBound(prefix)
        case None => low
        case Some(upper) => AndN([low, Cmp(Lt, target, Lit(StrL(upper)))])
  }

  function Prepare(env: Engine, schema: Schema, node: Node, exact: bool): Node {
    match node
    case AndN(args) =>
      AndN(seq(|args|, i requires 0 <= i < |args| => Prepare(env, schema, args[i], exact)))
    case OrN(args) =>
      OrN(seq(|args|, i requires 0 <= i < |args| => Prepare(env, schema, args[i], exact)))
    case NotN(arg) => NotN(Prepare(env, schema, arg, true))
    case Cmp(op, l, r) => AlignComparison(env, schema, op, l, r)
    case In(t, items, negated) =>
      var type_ := ColumnType(schema, t);
      if type_.None? then node
      else In(t, seq(|items|, i requires 0 <= i < |items| => AlignItem(env, type_.value, items[i], Eq)), negated)
    case Between(t, low, high, negated) =>
      var type_ := ColumnType(schema, t);
      if type_.None? then node
      else Between(t, AlignItem(env, type_.value, low, Ge), AlignItem(env, type_.value, high, Le), negated)
    case Like(t, pattern, insensitive, negated) =>
      if insensitive || negated || exact || ColumnType(schema, t) != Some(TextType) then node
      else LikeAsRange(t, pattern, node)
    case _ => node
  }

  // ------------------------------------------------------- _stats_can_decide

  datatype Unsafe = FloatKind | WideDecimal

  /** `_unsafe_columns`: why a type's min/max statistics cannot decide every comparison. */
  function UnsafeKind(t: Type): Option<Unsafe> {
    match t
    case FloatType(_) => Some(FloatKind)
    case DecimalType(p, _) => if p > 15 then Some(WideDecimal) else None
    case _ => None
  }

  function ColumnsIn(os: seq<Operand>): set<Column> {
    set o | o in os && o.Col? :: o.path
  }

  function LeafOperands(node: Node): seq<Operand> {
    match node
    case Cmp(_, l, r) => [l, r]
    case NullSafe(l, r) => [l, r]
    case IsNull(t) => [t]
    case IsNotNull(t) => [t]
    case In(t, items, _) => [t] + items
    case Between(t, low, high, _) => [t, low, high]
    case Like(t, _, _, _) => [t]
    case BoolColumn(c) => [Col(c)]
    case _ => []
  }

  function Kinds(schema: Schema, os: seq<Operand>): set<Unsafe> {
    set c | c in ColumnsIn(os) && c in schema && UnsafeKind(schema[c]).Some? :: UnsafeKind(schema[c]).value
  }

  predicate NanFree(o: Operand) {
    o.Lit? && match o.lit
              case NullL => true
              case LongL(_) => true
              case DecL(_) => true
              case DblL(f) => !f.NaN?
              case _ => false
  }

  predicate NanSide(op: CmpOp, l: Operand, r: Operand) {
    match op
    case Eq => l.Col? != r.Col? && (l.Lit? ==> NanFree(l)) && (r.Lit? ==> NanFree(r))
    case Lt => l.Col? && NanFree(r)
    case Le => l.Col? && NanFree(r)
    case Gt => r.Col? && NanFree(l)
    case Ge => r.Col? && NanFree(l)
    case Ne => false
  }

  predicate StatsCanDecide(schema: Schema, node: Node, exact: bool) {
    var kinds := Kinds(schema, LeafOperands(node));
    if kinds == {} || node.IsNull? || node.IsNotNull? then true
    else if WideDecimal in kinds || exact then false
    else match node
      case Cmp(op, l, r) => NanSide(op, l, r)
      case In(t, items, negated) => !negated && t.Col? && forall i :: 0 <= i < |items| ==> NanFree(items[i])
      case Between(t, low, high, negated) => !negated && t.Col? && NanFree(low) && NanFree(high)
      case _ => false
  }

  // ------------------------------------------------------------------ _skip

  /** The JSON predicate handed to the native extension. */
  datatype Json =
    | JAnd(args: seq<Json>)
    | JOr(args: seq<Json>)
    | JNot(arg: Json)
    | JCmp(op: CmpOp, left: Operand, right: Operand)
    | JIsNull(path: Column)
    | JIsNotNull(path: Column)

  /** Whether an operand has a JSON form: infinity and NaN have none. */
  predicate Renderable(o: Operand) {
    o.Lit? && o.lit.DblL? ==> o.lit.f.Fin? || o.lit.f.NegZero?
  }

  predicate NullLiteral(o: Operand) {
    o.Lit? && o.lit.NullL?
  }

  /** `_skip_leaf`. */
  function SkipLeaf(node: Node): Option<Json> {
    if !(forall o :: o in LeafOperands(node) ==> Renderable(o)) then None
    else match node
      case Cmp(op, l, r) =>
        if NullLiteral(l) || NullLiteral(r) then None else Some(JCmp(op, l, r))
      case IsNull(t) => if t.Col? then Some(JIsNull(t.path)) else None
      case IsNotNull(t) => if t.Col? then Some(JIsNotNull(t.path)) else None
      case In(t, items, negated) =>
        if !t.Col? || exists i :: 0 <= i < |items| && (!items[i].Lit? || items[i].lit.NullL?) then None
        else
          var any := JOr(seq(|items|, i requires 0 <= i < |items| => JCmp(Eq, t, items[i])));
          Some(if negated then JNot(any) else any)
      case Between(t, low, high, negated) =>
        var range := JAnd([JCmp(Ge, t, low), JCmp(Le, t, high)]);
        Some(if negated then JNot(range) else range)
      case _ => None
  }

  function Kept<T>(os: seq<Option<T>>): seq<T> {
    if os == [] then []
    else if os[0].Some? then [os[0].value] + Kept(os[1..])
    else Kept(os[1..])
  }

  function Skips(schema: Schema, args: seq<Node>, exact: bool): (os: seq<Option<Json>>)
    ensures |os| == |args|
    ensures forall i :: 0 <= i < |args| ==> os[i] == Skip(schema, args[i], exact)
  {
    seq(|args|, i requires 0 <= i < |args| => Skip(schema, args[i], exact))
  }

  /** `_skip`: the kernel form of a predicate, or None where skipping must not be attempted. */
  function Skip(schema: Schema, node: Node, exact: bool): Option<Json> {
    match node
    case AndN(args) =>
      var rendered := Skips(schema, args, exact);
      var parts := Kept(rendered);
      if exact && |parts| != |rendered| then None
      else if parts == [] then None
      else if |parts| == 1 then Some(parts[0])
      else Some(JAnd(parts))
    case OrN(args) =>
      var rendered := Skips(schema, args, exact);
      var parts := Kept(rendered);
      if |parts| != |rendered| then None else Some(JOr(parts))
    case NotN(arg) =>
      (match Skip(schema, arg, true)
       case None => None
       case Some(inner) => Some(JNot(inner)))
    case _ => if StatsCanDecide(schema, node, exact) then SkipLeaf(node) else None
  }

  // ------------------------------------------------- the native conversion

  datatype Kernel =
    | KAnd(args: seq<Kernel>)
    | KOr(args: seq<Kernel>)
    | KNot(arg: Kernel)
    | KLiteral(op: CmpOp, path: Column, scalar: Value)
    | KFlipped(op: CmpOp, scalar: Value, path: Column)
    | KColumns(op: CmpOp, a: Column, b: Column)
    | KIsNull(path: Column)
    | KIsNotNull(path: Column)

  /** The extension's text parsing: what it accepts at all, and what text becomes. */
  datatype Native = Native(
    accepts: (Literal, Type) -> bool,
    shortest: Float -> real,
    otherLiteral: (Literal, Type) -> Option<Value>)

  /** `coerce_literal`: the literal as exactly the column's type, or give up. */
  function NativeLiteral(n: Native, l: Literal, t: Type): Option<Value> {
    if !n.accepts(l, t) then None
    else match (t, l)
      case (_, NullL) => None
      case (IntType(bits), LongL(i)) => if Fits(i, bits) then Some(IntV(i)) else None
      case (IntType(bits), DecL(r)) =>
        if Integral(r) && Fits(r.Floor, bits) then Some(IntV(r.Floor)) else None
      case (IntType(_), DblL(_)) => None
      case (FloatType(_), LongL(i)) =>
        if RoundToDouble(i) == i then Some(FloatV(Fin(i as real))) else None
      case (FloatType(_), DblL(f)) => if Band(f) == 0 then Some(FloatV(f)) else None
      case (FloatType(_), _) => None
      case (DecimalType(p, s), LongL(i)) => if InDecimal(i as real, p, s) then Some(DecV(i as real)) else None
      case (DecimalType(p, s), DecL(r)) => if InDecimal(r, p, s) then Some(DecV(r)) else None
      case (DecimalType(p, s), DblL(f)) =>
        if Band(f) == 0 && InDecimal(n.shortest(f), p, s) then Some(DecV(n.shortest(f))) else None
      case (TextType, StrL(s)) => Some(TextV(s))
      case (TextType, _) => None
      case (BoolType, BoolL(b)) => Some(BoolV(b))
      case (DateType, DateL(d)) => Some(TimeV(d))
      case (TimestampType(z), TimestampL(zoned, m)) =>
        if z == zoned then Some(TimeV(m)) else n.otherLiteral(l, t)
      case (OtherType, _) => None
      case (_, _) => n.otherLiteral(l, t)
  }

  /** `skippable`: a float zero is refused, since the kernel orders -0.0 below 0.0. */
  function Skippable(v: Option<Value>): Option<Value> {
    if v.Some? && IsZero(v.value) then None else v
  }

  function ConvertComparison(n: Native, schema: Schema, op: CmpOp, left: Operand, right: Operand): Option<Kernel> {
    match (ColumnType(schema, left), ColumnType(schema, right))
    case (Some(t), Some(u)) =>
      if t == u && !t.OtherType? then Some(KColumns(op, left.path, right.path)) else None
    case (Some(t), None) =>
      if !right.Lit? then None
      else (match Skippable(NativeLiteral(n, right.lit, t))
            case None => None
            case Some(s) => Some(KLiteral(op, left.path, s)))
    case (None, Some(t)) =>
      if !left.Lit? then None
      else (match Skippable(NativeLiteral(n, left.lit, t))
            case None => None
            case Some(s) => Some(KFlipped(op, s, right.path)))
    case (None, None) => None
  }

  function Converts(n: Native, schema: Schema, args: seq<Json>, exact: bool): (os: seq<Option<Kernel>>)
    ensures |os| == |args|
    ensures forall i :: 0 <= i < |args| ==> os[i] == Convert(n, schema, args[i], exact)
  {
    seq(|args|, i requires 0 <= i < |args| => Convert(n, schema, args[i], exact))
  }

  /** `convert`: equivalent when `exact`, otherwise possibly weaker, never stronger. */
  function Convert(n: Native, schema: Schema, j: Json, exact: bool): Option<Kernel> {
    match j
    case JAnd(args) =>
      var converted := Converts(n, schema, args, exact);
      var kept := Kept(converted);
      if exact && |kept| != |converted| then None
      else if kept == [] then None
      else if |kept| == 1 then Some(kept[0])
      else Some(KAnd(kept))
    case JOr(args) =>
      var converted := Converts(n, schema, args, exact);
      var kept := Kept(converted);
      if |kept| != |converted| || kept == [] then None
      else if |kept| == 1 then Some(kept[0])
      else Some(KOr(kept))
    case JNot(arg) =>
      (match Convert(n, schema, arg, true)
       case None => None
       case Some(k) => Some(KNot(k)))
    case JCmp(op, l, r) => ConvertComparison(n, schema, op, l, r)
    case JIsNull(c) => if c in schema && !schema[c].OtherType? then Some(KIsNull(c)) else None
    case JIsNotNull(c) => if c in schema && !schema[c].OtherType? then Some(KIsNotNull(c)) else None
  }

  // ---------------------------------------------------------- what each means

  function JTruths(env: Engine, schema: Schema, args: seq<Json>, row: Row): (ts: seq<Truth>)
    ensures |ts| == |args|
    ensures forall i :: 0 <= i < |args| ==> ts[i] == JEval(env, schema, args[i], row)
  {
    seq(|args|, i requires 0 <= i < |args| => JEval(env, schema, args[i], row))
  }

  /** A JSON predicate read as the row filter reads the same comparisons. */
  function JEval(env: Engine, schema: Schema, j: Json, row: Row): Truth {
    match j
    case JAnd(args) => All(JTruths(env, schema, args, row))
    case JOr(args) => Any(JTruths(env, schema, args, row))
    case JNot(arg) => Not(JEval(env, schema, arg, row))
    case JCmp(op, l, r) => CompareOperands(env, schema, op, l, r, row)
    case JIsNull(c) => Of(Lookup(row, c).Null?)
    case JIsNotNull(c) => Of(!Lookup(row, c).Null?)
  }

  function KTruths(args: seq<Kernel>, row: Row): (ts: seq<Truth>)
    ensures |ts| == |args|
    ensures forall i :: 0 <= i < |args| ==> ts[i] == KEval(args[i], row)
  {
    seq(|args|, i requires 0 <= i < |args| => KEval(args[i], row))
  }

  function KEval(k: Kernel, row: Row): Truth {
    match k
    case KAnd(args) => All(KTruths(args, row))
    case KOr(args) => Any(KTruths(args, row))
    case KNot(arg) => Not(KEval(arg, row))
    case KLiteral(op, c, s) => TotalCompare(op, Lookup(row, c), s)
    case KFlipped(op, s, c) => TotalCompare(op, s, Lookup(row, c))
    case KColumns(op, a, b) => TotalCompare(op, Lookup(row, a), Lookup(row, b))
    case KIsNull(c) => Of(Lookup(row, c).Null?)
    case KIsNotNull(c) => Of(!Lookup(row, c).Null?)
  }
}
