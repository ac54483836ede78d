/** The predicate AST and its naive reading: three-valued logic with NaN on top. */
module Predicates {
  import opened Wrappers
  import opened Kleene
  import opened Values

  datatype Operand = Col(path: Column) | Lit(lit: Literal)

  datatype Node =
    | AndN(args: seq<Node>)
    | OrN(args: seq<Node>)
    | NotN(arg: Node)
    | Cmp(op: CmpOp, left: Operand, right: Operand)
    | NullSafe(left: Operand, right: Operand)
    | IsNull(target: Operand)
    | IsNotNull(target: Operand)
    | In(target: Operand, items: seq<Operand>, negated: bool)
    | Between(target: Operand, low: Operand, high: Operand, negated: bool)
    | Like(target: Operand, pattern: string, insensitive: bool, negated: bool)
    | Constant(b: bool)
    | BoolColumn(path: Column)

  /** How a literal meets a column: the cast of the column, if any, and the typed scalar. */
  datatype Coerced = Coerced(cast: Option<Type>, scalar: Value, scalarType: Type)

  /** Arrow and the standard library, as far as no rule of the repository decides. */
  datatype Engine = Engine(
    toDouble: real -> Float,
    otherCoerce: (Literal, Type) -> Option<Coerced>,
    otherCast: (Value, Type) -> Value,
    asText: Value -> Value,
    ilike: (string, string) -> bool)

  /** A decimal type wide enough for both sides; its exact digits decide no comparison. */
  const WIDE_DECIMAL := DecimalType(76, 0)
  const DOUBLE := FloatType(64)

  // ------------------------------------------------------------ rounding

  const EXACT_DOUBLE_INT: int := 0x20_0000_0000_0000

  /** The spacing of doubles at `n`: 2^s where 2^(52+s) <= n < 2^(53+s). */
  function Spacing(n: nat): (u: nat)
    ensures u > 0
    ensures n >= EXACT_DOUBLE_INT ==> u >= 2 && u * (EXACT_DOUBLE_INT / 2) <= n
  {
    if n < EXACT_DOUBLE_INT then 1 else 2 * Spacing(n / 2)
  }

  function RoundMagnitude(n: nat): (r: int)
    ensures r >= 0
  {
    var u := Spacing(n);
    var q, rest := n / u, n % u;
    if 2 * rest < u || (2 * rest == u && q % 2 == 0) then q * u else (q + 1) * u
  }

  /** `i` as the nearest double, ties to even: the cast of BIGINT to DOUBLE. */
  function RoundToDouble(i: int): int {
    if i < 0 then -RoundMagnitude(-i) else RoundMagnitude(i)
  }

  // ------------------------------------------------------------ coercion

  /** `_coerce`: the literal typed for a column of type `t`; None where it raises. */
  function Coerce(env: Engine, l: Literal, t: Type): Option<Coerced> {
    match (t, l)
    case (_, NullL) => Some(Coerced(None, Null, t))
    case (IntType(bits), LongL(i)) =>
      if Fits(i, bits) then Some(Coerced(None, IntV(i), t))
      else Some(Coerced(Some(IntType(64)), IntV(i), IntType(64)))
    case (IntType(bits), DecL(r)) =>
      if Integral(r) && Fits(r.Floor, bits) then Some(Coerced(None, IntV(r.Floor), t))
      else Some(Coerced(Some(WIDE_DECIMAL), DecV(r), WIDE_DECIMAL))
    case (IntType(_), DblL(f)) => Some(Coerced(Some(DOUBLE), FloatV(f), DOUBLE))
    case (DecimalType(p, s), LongL(i)) =>
      if InDecimal(i as real, p, s) then Some(Coerced(None, DecV(i as real), t))
      else Some(Coerced(Some(WIDE_DECIMAL), DecV(i as real), WIDE_DECIMAL))
    case (DecimalType(p, s), DecL(r)) =>
      if InDecimal(r, p, s) then Some(Coerced(None, DecV(r), t))
      else Some(Coerced(Some(WIDE_DECIMAL), DecV(r), WIDE_DECIMAL))
    case (DecimalType(_, _), DblL(f)) => Some(Coerced(Some(DOUBLE), FloatV(f), DOUBLE))
    case (FloatType(w), LongL(i)) =>
      if w != 64 then Some(Coerced(Some(DOUBLE), FloatV(Fin(RoundToDouble(i) as real)), DOUBLE))
      else if RoundToDouble(i) == i then Some(Coerced(None, FloatV(Fin(i as real)), t))
      else None // Arrow refuses to compare a double with an integer it would have to round
    case (FloatType(w), DecL(r)) =>
      if w != 64 then Some(Coerced(Some(DOUBLE), FloatV(env.toDouble(r)), DOUBLE))
      else Some(Coerced(None, FloatV(env.toDouble(r)), t))
    case (FloatType(w), DblL(f)) =>
      if w != 64 then Some(Coerced(Some(DOUBLE), FloatV(f), DOUBLE))
      else Some(Coerced(None, FloatV(f), t))
    case (TextType, StrL(s)) => Some(Coerced(None, TextV(s), t))
    case (BoolType, BoolL(b)) => Some(Coerced(None, BoolV(b), t))
    case (DateType, DateL(d)) => Some(Coerced(None, TimeV(d), t))
    case (TimestampType(z), TimestampL(zoned, m)) =>
      if z == zoned then Some(Coerced(None, TimeV(m), t)) else env.otherCoerce(l, t)
    case (_, _) => env.otherCoerce(l, t)
  }

  function Cast(env: Engine, v: Value, t: Type): Value {
    match (t, v)
    case (_, Null) => Null
    case (FloatType(64), IntV(i)) => FloatV(Fin(RoundToDouble(i) as real))
    case (FloatType(64), DecV(r)) => FloatV(env.toDouble(r))
    case (FloatType(64), FloatV(f)) => v
    case (DecimalType(_, _), IntV(i)) => DecV(i as real)
    case (DecimalType(_, _), DecV(_)) => v
    case (IntType(_), IntV(_)) => v
    case (_, _) => env.otherCast(v, t)
  }

  function MaybeCast(env: Engine, v: Value, t: Option<Type>): Value {
    if t.Some? then Cast(env, v, t.value) else v
  }

  /** A column's value against a literal, as the row filter compares them. */
  function CompareLiteral(env: Engine, op: CmpOp, v: Value, t: Type, l: Literal): Truth {
    match Coerce(env, l, t)
    case None => Unknown
    case Some(c) => Compare(op, MaybeCast(env, v, c.cast), c.scalar)
  }

  // -------------------------------------------------------------- reading

  ghost predicate TypedRow(schema: Schema, row: Row) {
    forall c :: c in schema ==> c in row && Typed(row[c], schema[c])
  }

  function Lookup(row: Row, c: Column): Value {
    if c in row then row[c] else Null
  }

  /** A literal on its own, with no column to type it for. */
  function Bare(l: Literal): Value {
    match l
    case NullL => Null
    case BoolL(b) => BoolV(b)
    case LongL(i) => IntV(i)
    case DecL(r) => DecV(r)
    case DblL(f) => FloatV(f)
    case StrL(s) => TextV(s)
    case DateL(d) => TimeV(d)
    case TimestampL(_, m) => TimeV(m)
  }

  function BareType(l: Literal): Type {
    match l
    case NullL => OtherType
    case BoolL(_) => BoolType
    case LongL(_) => IntType(64)
    case DecL(_) => WIDE_DECIMAL
    case DblL(_) => DOUBLE
    case StrL(_) => TextType
    case DateL(_) => DateType
    case TimestampL(z, _) => TimestampType(z)
  }

  function ToTruth(v: Value): Truth {
    if v.BoolV? then Of(v.b) else Unknown
  }

  function FromTruth(t: Truth): Value {
    if t == Unknown then Null else BoolV(t == True)
  }

  predicate NumericType(t: Type) {
    t.IntType? || t.FloatType? || t.DecimalType?
  }

  predicate MeetAsDouble(a: Type, b: Type) {
    (a.FloatType? || b.FloatType?) && NumericType(a) && NumericType(b)
  }

  function CompareColumns(env: Engine, op: CmpOp, a: Value, ta: Type, b: Value, tb: Type): Truth {
    if MeetAsDouble(ta, tb) then Compare(op, Cast(env, a, DOUBLE), Cast(env, b, DOUBLE))
    else Compare(op, a, b)
  }

  /** `left <op> right` on one row; UNKNOWN where the filter refuses the predicate. */
  function CompareOperands(env: Engine, schema: Schema, op: CmpOp, left: Operand, right: Operand, row: Row): Truth {
    match (left, right)
    case (Lit(a), Lit(b)) => Compare(op, Bare(a), Bare(b))
    case (Col(c), Lit(l)) =>
      if c in schema then CompareLiteral(env, op, Lookup(row, c), schema[c], l) else Unknown
    case (Lit(l), Col(c)) =>
      if c in schema then CompareLiteral(env, Flip(op), Lookup(row, c), schema[c], l) else Unknown
    case (Col(a), Col(b)) =>
      if a in schema && b in schema
      then CompareColumns(env, op, Lookup(row, a), schema[a], Lookup(row, b), schema[b])
      else Unknown
  }

  predicate NullAt(o: Operand, row: Row) {
    match o
    case Col(c) => Lookup(row, c).Null?
    case Lit(l) => l.NullL?
  }

  /** Whether `s` matches a LIKE pattern in the backslash-escaped form the parser stores. */
  predicate Matches(pattern: string, s: string)
    decreases |pattern|, |s|
  {
    if pattern == [] then s == []
    else if pattern[0] == '\\' && |pattern| > 1 then
      s != [] && s[0] == pattern[1] && Matches(pattern[2..], s[1..])
    else if pattern[0] == '%' then
      Matches(pattern[1..], s) || (s != [] && Matches(pattern, s[1..]))
    else if pattern[0] == '_' then
      s != [] && Matches(pattern[1..], s[1..])
    else
      s != [] && s[0] == pattern[0] && Matches(pattern[1..], s[1..])
  }

  /** The text LIKE sees: a string column as it is, anything else cast to text. */
  function Subject(env: Engine, schema: Schema, o: Operand, row: Row): Value {
    match o
    case Col(c) =>
      if c in schema && schema[c].TextType? then Lookup(row, c) else env.asText(Lookup(row, c))
    case Lit(l) => Bare(l)
  }

  function LikeTruth(env: Engine, pattern: string, insensitive: bool, subject: Value): Truth {
    if !subject.TextV? then Unknown
    else if insensitive then Of(env.ilike(pattern, subject.s))
    else Of(Matches(pattern, subject.s))
  }

  function Signed(negated: bool, t: Truth): Truth {
    if negated then Not(t) else t
  }

  function Truths(env: Engine, schema: Schema, args: seq<Node>, row: Row): (ts: seq<Truth>)
    ensures |ts| == |args|
    ensures forall i :: 0 <= i < |args| ==> ts[i] == Eval(env, schema, args[i], row)
  {
    seq(|args|, i requires 0 <= i < |args| => Eval(env, schema, args[i], row))
  }

  function Equalities(env: Engine, schema: Schema, target: Operand, items: seq<Operand>, row: Row): (ts: seq<Truth>)
    ensures |ts| == |items|
    ensures forall i :: 0 <= i < |items| ==> ts[i] == CompareOperands(env, schema, Eq, target, items[i], row)
  {
    seq(|items|, i requires 0 <= i < |items| => CompareOperands(env, schema, Eq, target, items[i], row))
  }

  /** The truth value of a predicate on one row. */
  function Eval(env: Engine, schema: Schema, node: Node, row: Row): Truth {
    match node
    case AndN(args) => All(Truths(env, schema, args, row))
    case OrN(args) => Any(Truths(env, schema, args, row))
    case NotN(arg) => Not(Eval(env, schema, arg, row))
    case Cmp(op, l, r) => CompareOperands(env, schema, op, l, r, row)
    case NullSafe(l, r) =>
      if NullAt(l, row) && NullAt(r, row) then True
      else if NullAt(l, row) || NullAt(r, row) then False
      else CompareOperands(env, schema, Eq, l, r, row)
    case IsNull(o) => Of(NullAt(o, row))
    case IsNotNull(o) => Of(!NullAt(o, row))
    case In(t, items, negated) => Signed(negated, Any(Equalities(env, schema, t, items, row)))
    case Between(t, low, high, negated) =>
      Signed(negated, And(CompareOperands(env, schema, Ge, t, low, row),
                          CompareOperands(env, schema, Le, t, high, row)))
    case Like(t, pattern, insensitive, negated) =>
      Signed(negated, LikeTruth(env, pattern, insensitive, Subject(env, schema, t, row)))
    case Constant(b) => Of(b)
    case BoolColumn(c) =>
      var v := Lookup(row, c);
      if v.BoolV? then Of(v.b) else Unknown
  }
}
