/** Column types, values, literals and the order SQL compares them in. */
module Values {
  import opened Wrappers
  import opened Kleene

  /** A path of field names, already resolved against the schema. */
  type Column = seq<string>

  /** Floating point: -0.0 is a value of its own, NaN is the largest. */
  datatype Float = NegInf | Fin(x: real) | NegZero | PosInf | NaN

  datatype Type =
    | IntType(bits: nat)
    | FloatType(width: nat)
    | DecimalType(precision: nat, scale: nat)
    | TextType
    | BoolType
    | DateType
    | TimestampType(zoned: bool)
    | OtherType

  datatype Value =
    | Null
    | IntV(i: int)
    | FloatV(f: Float)
    | DecV(r: real)
    | TextV(s: string)
    | BoolV(b: bool)
    | TimeV(t: int)
    | OpaqueV(id: int)

  /** The literals `predicate.py` produces, each with its SQL type. */
  datatype Literal =
    | NullL
    | BoolL(b: bool)
    | LongL(i: int)
    | DecL(r: real)
    | DblL(f: Float)
    | StrL(s: string)
    | DateL(days: int)
    | TimestampL(zoned: bool, micros: int)

  type Schema = map<Column, Type>
  type Row = map<Column, Value>

  datatype CmpOp = Eq | Ne | Lt | Le | Gt | Ge

  function Flip(op: CmpOp): CmpOp {
    match op
    case Eq => Eq
    case Ne => Ne
    case Lt => Gt
    case Le => Ge
    case Gt => Lt
    case Ge => Le
  }

  /** Whether `op` holds of two operands whose order is the sign of `c`. */
  predicate Holds(op: CmpOp, c: int) {
    match op
    case Eq => c == 0
    case Ne => c != 0
    case Lt => c < 0
    case Le => c <= 0
    case Gt => c > 0
    case Ge => c >= 0
  }

  function Sign(r: real): int {
    if r < 0.0 then -1 else if r > 0.0 then 1 else 0
  }

  /** Where a number stands among all numbers: below them, finite, above, or NaN. */
  function Band(f: Float): int {
    match f
    case NegInf => -1
    case Fin(_) => 0
    case NegZero => 0
    case PosInf => 1
    case NaN => 2
  }

  function Finite(f: Float): real {
    if f.Fin? then f.x else 0.0
  }

  /** Spark's order of doubles: -0.0 equals 0.0, NaN equals NaN and tops everything. */
  function FloatOrder(a: Float, b: Float): int {
    if Band(a) != Band(b) then Band(a) - Band(b)
    else Sign(Finite(a) - Finite(b))
  }

  /** Strings by code point, which is the order of their UTF-8 bytes. */
  function TextOrder(a: string, b: string): int {
    if a == [] && b == [] then 0
    else if a == [] then -1
    else if b == [] then 1
    else if a[0] != b[0] then (if a[0] < b[0] then -1 else 1)
    else TextOrder(a[1..], b[1..])
  }

  predicate IsNaN(v: Value) {
    v.FloatV? && v.f.NaN?
  }

  /** 0.0 or -0.0. */
  predicate IsZero(v: Value) {
    v.FloatV? && Band(v.f) == 0 && Finite(v.f) == 0.0
  }

  predicate Numeric(v: Value) {
    v.IntV? || v.DecV? || v.FloatV?
  }

  function AsFloat(v: Value): Float
    requires Numeric(v)
  {
    match v
    case IntV(i) => Fin(i as real)
    case DecV(r) => Fin(r)
    case FloatV(f) => f
  }

  function Kind(v: Value): int {
    match v
    case Null => 0
    case BoolV(_) => 1
    case IntV(_) => 2
    case DecV(_) => 2
    case FloatV(_) => 2
    case TextV(_) => 3
    case TimeV(_) => 4
    case OpaqueV(_) => 5
  }

  /** The order of two values: of one kind, SQL's; of two, an arbitrary fixed one. */
  function Order(a: Value, b: Value): int {
    if Kind(a) != Kind(b) then Kind(a) - Kind(b)
    else match (a, b)
      case (Null, Null) => 0
      case (BoolV(p), BoolV(q)) => (if p then 1 else 0) - (if q then 1 else 0)
      case (TextV(p), TextV(q)) => TextOrder(p, q)
      case (TimeV(p), TimeV(q)) => p - q
      case (OpaqueV(p), OpaqueV(q)) => p - q
      case (IntV(p), IntV(q)) => p - q
      case (_, _) => if Numeric(a) && Numeric(b) then FloatOrder(AsFloat(a), AsFloat(b)) else 0
  }

  /** `a <op> b` as SQL has it: UNKNOWN when either side is NULL. */
  function Compare(op: CmpOp, a: Value, b: Value): Truth {
    if a.Null? || b.Null? then Unknown else Of(Holds(op, Order(a, b)))
  }

  /** IEEE total order, which the kernel and DataFusion compare by: -0.0 lies below 0.0. */
  function TotalOrder(a: Value, b: Value): int {
    if a.FloatV? && b.FloatV? && FloatOrder(a.f, b.f) == 0
    then (if a.f.NegZero? then 0 else 1) - (if b.f.NegZero? then 0 else 1)
    else Order(a, b)
  }

  function TotalCompare(op: CmpOp, a: Value, b: Value): Truth {
    if a.Null? || b.Null? then Unknown else Of(Holds(op, TotalOrder(a, b)))
  }

  /** What a column of type `t` may hold. */
  predicate Typed(v: Value, t: Type) {
    match v
    case Null => true
    case IntV(i) => t.IntType? && Fits(i, t.bits)
    case FloatV(_) => t.FloatType?
    case DecV(r) => t.DecimalType? && InDecimal(r, t.precision, t.scale)
    case TextV(_) => t.TextType?
    case BoolV(_) => t.BoolType?
    case TimeV(_) => t.DateType? || t.TimestampType?
    case OpaqueV(_) => t.OtherType?
  }

  function Pow2(n: nat): (p: int)
    ensures p > 0
  {
    if n == 0 then 1 else 2 * Pow2(n - 1)
  }

  predicate Fits(i: int, bits: nat) {
    bits > 0 && -Pow2(bits - 1) <= i < Pow2(bits - 1)
  }

  function Pow10(n: nat): (p: int)
    ensures p > 0
  {
    if n == 0 then 1 else 10 * Pow10(n - 1)
  }

  predicate Integral(r: real) {
    r == r.Floor as real
  }

  /** Whether DECIMAL(precision, scale) holds `r` exactly. */
  predicate InDecimal(r: real, precision: nat, scale: nat) {
    var unscaled := r * Pow10(scale) as real;
    Integral(unscaled) && -Pow10(precision) < unscaled.Floor < Pow10(precision)
  }

  const LONG_MIN: int := -0x8000_0000_0000_0000
  const LONG_MAX: int := 0x7fff_ffff_ffff_ffff

  lemma FlipHolds(op: CmpOp, a: Value, b: Value)
    ensures Compare(op, a, b) == Compare(Flip(op), b, a)
  {
    OrderAntisymmetric(a, b);
  }

  lemma OrderAntisymmetric(a: Value, b: Value)
    ensures Order(a, b) < 0 <==> Order(b, a) > 0
    ensures Order(a, b) == 0 <==> Order(b, a) == 0
  {
    if a.TextV? && b.TextV? {
      TextOrderAntisymmetric(a.s, b.s);
    }
  }

  lemma {:induction false} TextOrderAntisymmetric(a: string, b: string)
    ensures TextOrder(a, b) == -TextOrder(b, a)
  {
    if a != [] && b != [] && a[0] == b[0] {
      TextOrderAntisymmetric(a[1..], b[1..]);
    }
  }

  lemma {:induction false} TextOrderTransitive(a: string, b: string, c: string)
    requires TextOrder(a, b) <= 0 && TextOrder(b, c) <= 0
    ensures TextOrder(a, c) <= 0
    ensures TextOrder(a, b) < 0 || TextOrder(b, c) < 0 ==> TextOrder(a, c) < 0
  {
    if a != [] && b != [] && c != [] && a[0] == b[0] == c[0] {
      TextOrderTransitive(a[1..], b[1..], c[1..]);
    }
  }

  lemma {:induction false} TextOrderEqual(a: string, b: string)
    ensures TextOrder(a, b) == 0 <==> a == b
  {
    if a != [] && b != [] && a[0] == b[0] {
      TextOrderEqual(a[1..], b[1..]);
      assert a == [a[0]] + a[1..] && b == [b[0]] + b[1..];
    }
  }
}
