/** `_lazy.py`: a pyarrow filter expression as SQL text no stronger than it. */
module LazyFilter {
  import opened Wrappers
  import opened Kleene
  import opened Values
  import opened Predicates
  import opened SqlLexer
  import JavaNumber

  /** A typed scalar of an expression; `Untranslatable` is a float, a binary, a NULL and the like. */
  datatype Constant =
    | IntC(i: int)
    | StrC(s: string)
    | BoolC(b: bool)
    | DateC(days: int)
    | DecC(negative: bool, digits: seq<JavaNumber.Digit>, exponent: int)
    | Untranslatable(id: nat)

  /** A decoded expression. */
  datatype Expr =
    | FieldE(name: string)
    | LitE(c: Constant)
    | AndE(kleene: bool, args: seq<Expr>)
    | OrE(kleene: bool, args: seq<Expr>)
    | CompareE(op: CmpOp, left: Expr, right: Expr)
    | IsNullE(arg: Expr, nanIsNull: bool)
    | IsValidE(arg: Expr)
    | IsInE(arg: Expr, items: seq<Constant>)
    | OtherE(id: nat)

  // ------------------------------------------------------------------ printing

  /** The text, piece by piece: a token's own text, or a space. */
  datatype Piece = T(tok: Tok) | Space

  function Spell(pieces: seq<Piece>): string {
    if pieces == [] then []
    else (if pieces[0].T? then pieces[0].tok.text else [' ']) + Spell(pieces[1..])
  }

  function Toks(pieces: seq<Piece>): seq<Tok> {
    if pieces == [] then []
    else (if pieces[0].T? then [pieces[0].tok] else []) + Toks(pieces[1..])
  }

  const OPEN: Piece := T(Op("("))
  const CLOSE: Piece := T(Op(")"))
  const COMMA: Piece := T(Op(","))

  function WordP(w: string): Piece {
    T(Word(w))
  }

  /** `_IDENT`. */
  predicate IsIdent(name: string) {
    name != [] && !IsDigit(name[0]) && forall i :: 0 <= i < |name| ==> IsWord(name[i])
  }

  function NameP(name: string): Piece {
    T(Quoted(['`'] + name + ['`']))
  }

  function StringP(s: string): Piece {
    T(Str([QUOTE] + Escaped(s) + [QUOTE]))
  }

  /** `_kind` of a column's type and of a literal. */
  datatype Family = IntF | StrF | BoolF | DateF | DecF | NoFamily

  function FamilyOf(t: Type): Family {
    match t
    case IntType(_) => IntF
    case TextType => StrF
    case BoolType => BoolF
    case DateType => DateF
    case DecimalType(_, _) => DecF
    case _ => NoFamily
  }

  function ConstantFamily(c: Constant): Family {
    match c
    case IntC(_) => IntF
    case StrC(_) => StrF
    case BoolC(_) => BoolF
    case DateC(_) => DateF
    case DecC(_, _, _) => DecF
    case Untranslatable(_) => NoFamily
  }

  /** The digits before the point of a decimal in positional notation. */
  function WholePart(digits: seq<JavaNumber.Digit>, exponent: int): (w: seq<JavaNumber.Digit>)
    requires digits != []
    ensures w != []
  {
    if exponent >= 0 then digits + JavaNumber.Zeros(exponent)
    else if |digits| + exponent > 0 then digits[..|digits| + exponent]
    else [0]
  }

  /** Those after it, of one with a negative exponent. */
  function FractionPart(digits: seq<JavaNumber.Digit>, exponent: int): (f: seq<JavaNumber.Digit>)
    requires digits != [] && exponent < 0
    ensures f != []
  {
    var point := |digits| + exponent;
    if point > 0 then digits[point..] else JavaNumber.Zeros(0 - point) + digits
  }

  /** `format(value, "f")`. */
  function DecimalText(negative: bool, digits: seq<JavaNumber.Digit>, exponent: int): string
    requires digits != []
  {
    (if negative then ['-'] else []) +
    if exponent >= 0 then JavaNumber.Text(WholePart(digits, exponent))
    else JavaNumber.Pointed(WholePart(digits, exponent), FractionPart(digits, exponent))
  }

  /** `isoformat()` of a date. */
  type Dates = int -> string

  /** Whether `_render` gives the literal for a column of type `t`: one of its own family, that fits. */
  predicate Renders(t: Type, c: Constant) {
    && ConstantFamily(c) != NoFamily && FamilyOf(t) == ConstantFamily(c)
    && (c.IntC? ==> t.IntType? && Fits(c.i, t.bits))
    && (c.DecC? ==> c.digits != [])
  }

  /** `_render`'s text. */
  function ConstantPieces(iso: Dates, c: Constant): seq<Piece> {
    match c
    case IntC(i) => [T(Number(JavaNumber.IntText(i)))]
    case StrC(s) => [StringP(s)]
    case BoolC(b) => [WordP(if b then "TRUE" else "FALSE")]
    case DateC(d) => [WordP("DATE"), Space, T(Str([QUOTE] + iso(d) + [QUOTE]))]
    case DecC(negative, digits, exponent) => if digits == [] then [] else [T(Number(DecimalText(negative, digits, exponent)))]
    case Untranslatable(_) => []
  }

  function OpText(op: CmpOp): string {
    match op
    case Eq => "="
    case Ne => "<>"
    case Lt => "<"
    case Le => "<="
    case Gt => ">"
    case Ge => ">="
  }

  predicate IsColumn(schema: Schema, name: string) {
    IsIdent(name) && [name] in schema
  }

  /** The SQL an expression translates to, before it is spelled. */
  datatype Sql =
    | NameS(name: string)
    | CompareS(name: string, op: CmpOp, c: Constant)
    | NullS(name: string, negated: bool)
    | InS(name: string, items: seq<Constant>)
    | AllS(parts: seq<Sql>)
    | AnyS(parts: seq<Sql>)

  /** `_comparison`. */
  function Comparison(schema: Schema, name: string, op: CmpOp, c: Constant): Option<Sql> {
    if IsColumn(schema, name) && Renders(schema[[name]], c) then Some(CompareS(name, op, c)) else None
  }

  /** `_conjoin`: dropping a conjunct only weakens. */
  function Conjoin(parts: seq<Sql>): Option<Sql> {
    if parts == [] then None else if |parts| == 1 then Some(parts[0]) else Some(AllS(parts))
  }

  /** `_arrow_sql`; None where the expression is unsupported. */
  function Translate(schema: Schema, e: Expr): Option<Sql>
    decreases e, 1
  {
    match e
    case FieldE(name) => if IsColumn(schema, name) && schema[[name]].BoolType? then Some(NameS(name)) else None
    case LitE(_) => None
    case AndE(_, args) => Conjoin(TranslateSome(schema, args))
    case OrE(_, args) =>
      (match TranslateAll(schema, args)
       case Some(parts) => if parts == [] then None else Some(AnyS(parts))
       case None => None)
    case CompareE(op, left, right) =>
      if left.FieldE? && right.LitE? then Comparison(schema, left.name, op, right.c)
      else if left.LitE? && right.FieldE? then Comparison(schema, right.name, Flip(op), left.c)
      else None
    case IsValidE(arg) => if arg.FieldE? && IsColumn(schema, arg.name) then Some(NullS(arg.name, true)) else None
    case IsNullE(arg, nanIsNull) =>
      if arg.FieldE? && IsColumn(schema, arg.name) && !(nanIsNull && FamilyOf(schema[[arg.name]]) == NoFamily)
      then Some(NullS(arg.name, false)) else None
    case IsInE(arg, items) =>
      if arg.FieldE? && IsColumn(schema, arg.name) && items != []
         && (forall i :: 0 <= i < |items| ==> Renders(schema[[arg.name]], items[i]))
      then Some(InS(arg.name, items)) else None
    case OtherE(_) => None
  }

  /** The conjuncts that translate; the others are dropped. */
  function TranslateSome(schema: Schema, args: seq<Expr>): seq<Sql>
    decreases args, 0
  {
    if args == [] then []
    else
      match Translate(schema, args[0])
      case Some(p) => [p] + TranslateSome(schema, args[1..])
      case None => TranslateSome(schema, args[1..])
  }

  function TranslateAll(schema: Schema, args: seq<Expr>): Option<seq<Sql>>
    decreases args, 0
  {
    if args == [] then Some([])
    else
      match (Translate(schema, args[0]), TranslateAll(schema, args[1..]))
      case (Some(p), Some(ps)) => Some([p] + ps)
      case (Some(_), None) => None
      case (None, _) => None
  }

  function Separated(iso: Dates, parts: seq<Sql>, word: string): seq<Piece>
    requires parts != []
    decreases parts, 0
  {
    if |parts| == 1 then Pieces(iso, parts[0])
    else Pieces(iso, parts[0]) + [Space, WordP(word), Space] + Separated(iso, parts[1..], word)
  }

  function Listed(iso: Dates, items: seq<Constant>): seq<Piece>
    requires items != []
  {
    if |items| == 1 then ConstantPieces(iso, items[0])
    else ConstantPieces(iso, items[0]) + [COMMA, Space] + Listed(iso, items[1..])
  }

  /** The text, as `_lazy.py` puts it together. */
  function Pieces(iso: Dates, q: Sql): seq<Piece>
    decreases q, 1
  {
    match q
    case NameS(name) => [NameP(name)]
    case CompareS(name, op, c) => [OPEN, NameP(name), Space, T(Op(OpText(op))), Space] + ConstantPieces(iso, c) + [CLOSE]
    case NullS(name, negated) =>
      if negated then [OPEN, NameP(name), Space, WordP("IS"), Space, WordP("NOT"), Space, WordP("NULL"), CLOSE]
      else [OPEN, NameP(name), Space, WordP("IS"), Space, WordP("NULL"), CLOSE]
    case InS(name, items) =>
      if items == [] then []
      else [OPEN, NameP(name), Space, WordP("IN"), Space, OPEN] + Listed(iso, items) + [CLOSE, CLOSE]
    case AllS(parts) => if parts == [] then [] else [OPEN] + Separated(iso, parts, "AND") + [CLOSE]
    case AnyS(parts) => if parts == [] then [] else [OPEN] + Separated(iso, parts, "OR") + [CLOSE]
  }

  /** `expression_to_sql`: the text pushed down. */
  function SqlText(iso: Dates, schema: Schema, e: Expr): Option<string> {
    match Translate(schema, e)
    case Some(q) => Some(Spell(Pieces(iso, q)))
    case None => None
  }

  /** What `Translate` gives: columns of the schema, literals of their families, no empty list. */
  predicate Fit(schema: Schema, q: Sql) {
    match q
    case NameS(name) => IsColumn(schema, name) && schema[[name]].BoolType?
    case CompareS(name, _, c) => IsColumn(schema, name) && Renders(schema[[name]], c)
    case NullS(name, _) => IsColumn(schema, name)
    case InS(name, items) =>
      IsColumn(schema, name) && items != [] && forall i :: 0 <= i < |items| ==> Renders(schema[[name]], items[i])
    case AllS(parts) => parts != [] && forall i :: 0 <= i < |parts| ==> Fit(schema, parts[i])
    case AnyS(parts) => parts != [] && forall i :: 0 <= i < |parts| ==> Fit(schema, parts[i])
  }

  // ------------------------------------------------------------- what it keeps

  /** A constant's own value. */
  function ConstantValue(c: Constant): Value {
    match c
    case IntC(i) => IntV(i)
    case StrC(s) => TextV(s)
    case BoolC(b) => BoolV(b)
    case DateC(d) => TimeV(d)
    case DecC(negative, digits, exponent) => DecV(JavaNumber.ValueOf(negative, digits, exponent))
    case Untranslatable(id) => OpaqueV(id)
  }

  /** Arrow on the expressions no rule here decides. */
  type Arrow = (Expr, Row) -> Truth

  predicate Translates(schema: Schema, name: string, c: Constant) {
    [name] in schema && ConstantFamily(c) != NoFamily && FamilyOf(schema[[name]]) == ConstantFamily(c)
  }

  /** The truth of a decoded expression on one row, as Arrow has it. */
  function Truths(arrow: Arrow, schema: Schema, args: seq<Expr>, row: Row): (ts: seq<Truth>)
    ensures |ts| == |args| && forall i :: 0 <= i < |args| ==> ts[i] == TruthOf(arrow, schema, args[i], row)
  {
    seq(|args|, i requires 0 <= i < |args| => TruthOf(arrow, schema, args[i], row))
  }

  function TruthOf(arrow: Arrow, schema: Schema, e: Expr, row: Row): Truth {
    match e
    case FieldE(name) => ToTruth(Lookup(row, [name]))
    case AndE(kleene, args) =>
      var ts := Truths(arrow, schema, args, row);
      if !kleene && Unknown in ts then Unknown else All(ts)
    case OrE(kleene, args) =>
      var ts := Truths(arrow, schema, args, row);
      if !kleene && Unknown in ts then Unknown else Any(ts)
    case CompareE(op, left, right) =>
      if left.FieldE? && right.LitE? && Translates(schema, left.name, right.c) then
        Compare(op, Lookup(row, [left.name]), ConstantValue(right.c))
      else if left.LitE? && right.FieldE? && Translates(schema, right.name, left.c) then
        Compare(op, ConstantValue(left.c), Lookup(row, [right.name]))
      else arrow(e, row)
    case IsValidE(arg) => if arg.FieldE? then Of(!Lookup(row, [arg.name]).Null?) else arrow(e, row)
    case IsNullE(arg, nanIsNull) =>
      if arg.FieldE? then Of(Lookup(row, [arg.name]).Null? || (nanIsNull && IsNaN(Lookup(row, [arg.name])))) else arrow(e, row)
    case IsInE(arg, items) =>
      if arg.FieldE? && (forall i :: 0 <= i < |items| ==> Translates(schema, arg.name, items[i])) then
        Of(exists i :: 0 <= i < |items| && Compare(Eq, Lookup(row, [arg.name]), ConstantValue(items[i])) == True)
      else arrow(e, row)
    case LitE(_) => arrow(e, row)
    case OtherE(_) => arrow(e, row)
  }
}
