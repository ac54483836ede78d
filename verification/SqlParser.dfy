/** `predicate.py`'s parser: tokens to the predicate AST. */
module SqlParser {
  import opened Wrappers
  import opened Values
  import opened Predicates
  import opened SqlLexer
  import JavaNumber

  /** The standard library's readings of float, date and timestamp text. */
  datatype Reader = Reader(
    floatOf: string -> Float,
    roundedTo: real -> Float,
    dateOf: string -> Option<int>,
    timestampOf: (string, string) -> Option<Literal>)

  // ------------------------------------------------------------------- literals

  predicate HasChar(t: string, c: char) {
    exists i :: 0 <= i < |t| && t[i] == c
  }

  predicate HasExponent(t: string) {
    HasChar(t, 'e') || HasChar(t, 'E')
  }

  function Upper(c: char): char {
    if 'a' <= c <= 'z' then (c as int - 32) as char else c
  }

  function Uppered(t: string): string {
    seq(|t|, i requires 0 <= i < |t| => Upper(t[i]))
  }

  function Unsigned(t: string): string {
    if t != [] && (t[0] == '+' || t[0] == '-') then t[1..] else t
  }

  predicate Negative(t: string) {
    t != [] && t[0] == '-'
  }

  /** `int(text)` of an optional sign and digits. */
  function WholeOf(t: string): int {
    var u := Unsigned(t);
    if !JavaNumber.AllDigits(u) then 0
    else
      var n := JavaNumber.NatOf(JavaNumber.DigitsOf(u));
      if Negative(t) then 0 - n else n
  }

  /** `Decimal(text)` of digits with a point. */
  function DecimalOf(t: string): real {
    var u := Unsigned(t);
    var d := JavaNumber.IndexOf(u, '.');
    if d == |u| || !JavaNumber.AllDigits(u[..d]) || !JavaNumber.AllDigits(u[d + 1..]) then 0.0
    else
      var r := JavaNumber.NatOf(JavaNumber.DigitsOf(u[..d])) as real + JavaNumber.Frac(JavaNumber.DigitsOf(u[d + 1..]));
      if Negative(t) then 0.0 - r else r
  }

  function IntegerLiteral(i: int): Literal {
    if LONG_MIN <= i <= LONG_MAX then LongL(i) else DecL(i as real)
  }

  /** `_number`; None for a BIGINT literal that is none. */
  function NumberLiteral(rd: Reader, t: string): Option<Literal>
    requires t != []
  {
    var last := Upper(t[|t| - 1]);
    var suffixed := last == 'L' || last == 'D' || last == 'F';
    var body := if suffixed then t[..|t| - 1] else t;
    var pointed := HasChar(body, '.');
    if suffixed && last == 'L' then
      if pointed || HasExponent(body) then None
      else if LONG_MIN <= WholeOf(body) <= LONG_MAX then Some(LongL(WholeOf(body))) else None
    else if suffixed || pointed || HasExponent(body) then
      Some(if !suffixed && !HasExponent(body) then DecL(DecimalOf(body)) else DblL(rd.floatOf(body)))
    else Some(IntegerLiteral(WholeOf(body)))
  }

  const KEYWORDS: set<string> :=
    {"AND", "OR", "NOT", "IS", "NULL", "IN", "BETWEEN", "LIKE", "ILIKE", "TRUE", "FALSE"}
  const TYPED_LITERALS: set<string> := {"DATE", "TIMESTAMP", "TIMESTAMP_NTZ", "TIMESTAMP_LTZ"}

  /** The value of a quoted string token. */
  function TextOf(t: string): Option<string> {
    if |t| < 2 then None else Unescape(t[1..|t| - 1])
  }

  function NameOf(t: string): string {
    if |t| < 2 then [] else Undoubled(t[1..|t| - 1])
  }

  /** `.replace("``", "`")`. */
  function Undoubled(t: string): string {
    if t == [] then []
    else if |t| > 1 && t[0] == '`' && t[1] == '`' then ['`'] + Undoubled(t[2..])
    else [t[0]] + Undoubled(t[1..])
  }

  // --------------------------------------------------------------------- looking

  predicate Keyword(ts: seq<Tok>, i: nat, w: string) {
    i < |ts| && ts[i].Word? && Uppered(ts[i].text) == w
  }

  predicate Symbol(ts: seq<Tok>, i: nat, s: string) {
    i < |ts| && ts[i] == Op(s)
  }

  predicate IsString(ts: seq<Tok>, i: nat) {
    i < |ts| && (ts[i].Str? || ts[i].DStr?)
  }

  function Comparison(s: string): Option<CmpOp> {
    if s == "=" || s == "==" then Some(Eq)
    else if s == "!=" || s == "<>" then Some(Ne)
    else if s == "<" then Some(Lt)
    else if s == "<=" then Some(Le)
    else if s == ">" then Some(Gt)
    else if s == ">=" then Some(Ge)
    else None
  }

  predicate IsComparison(ts: seq<Tok>, i: nat) {
    i < |ts| && ts[i].Op? && (Comparison(ts[i].text).Some? || ts[i].text == "<=>")
  }

  predicate OpensList(ts: seq<Tok>, i: nat) {
    Keyword(ts, i, "IN") || Keyword(ts, i, "BETWEEN") || Keyword(ts, i, "LIKE") || Keyword(ts, i, "ILIKE")
  }

  /** `_continues_comparison`: whether what precedes token `at` is a value. */
  predicate ContinuesComparison(ts: seq<Tok>, at: nat) {
    IsComparison(ts, at) || Keyword(ts, at, "IS") || OpensList(ts, at)
    || (Keyword(ts, at, "NOT") && OpensList(ts, at + 1))
  }

  /** The `)` that brings `depth` back to nothing, or the end. */
  function Closing(ts: seq<Tok>, j: nat, depth: nat): (at: nat)
    requires j <= |ts| && depth > 0
    ensures j <= at <= |ts|
    decreases |ts| - j
  {
    if j == |ts| then |ts|
    else if ts[j] == Op("(") then Closing(ts, j + 1, depth + 1)
    else if ts[j] == Op(")") then (if depth == 1 then j else Closing(ts, j + 1, depth - 1))
    else Closing(ts, j + 1, depth)
  }

  /** `_matching_paren`, at an opening parenthesis. */
  function MatchingParen(ts: seq<Tok>, i: nat): (at: nat)
    requires Symbol(ts, i, "(")
    ensures i < at <= |ts|
  {
    Closing(ts, i + 1, 1)
  }

  // --------------------------------------------------------------------- values

  type Parsed<T> = Option<(T, nat)>

  function Strings(ts: seq<Tok>, i: nat, text: string): (r: Parsed<Operand>)
    requires i <= |ts|
    ensures r.Some? ==> i <= r.value.1 <= |ts|
    decreases |ts| - i
  {
    if !IsString(ts, i) then Some((Lit(StrL(text)), i))
    else
      match TextOf(ts[i].text)
      case Some(more) => Strings(ts, i + 1, text + more)
      case None => None
  }

  function Path(ts: seq<Tok>, i: nat, path: seq<string>): (r: Parsed<Operand>)
    requires i <= |ts|
    ensures r.Some? ==> i <= r.value.1 <= |ts|
    decreases |ts| - i
  {
    if !Symbol(ts, i, ".") then Some((Col(path), i))
    else if i + 1 >= |ts| then None
    else
      match ts[i + 1]
      case Word(w) => Path(ts, i + 2, path + [w])
      case Quoted(q) => Path(ts, i + 2, path + [NameOf(q)])
      case _ => None
  }

  function TypedLiteral(rd: Reader, kind: string, raw: string): Option<Literal> {
    if kind == "DATE" then
      match rd.dateOf(raw)
      case Some(d) => Some(DateL(d))
      case None => None
    else rd.timestampOf(kind, raw)
  }

  /** `value`. */
  function ReadValue(rd: Reader, ts: seq<Tok>, i: nat): (r: Parsed<Operand>)
    requires i <= |ts|
    ensures r.Some? ==> i < r.value.1 <= |ts|
    decreases |ts| - i
  {
    if i == |ts| then None
    else
      match ts[i]
      case Number(t) =>
        (if t == [] then None
         else
           match NumberLiteral(rd, t)
           case Some(l) => Some((Lit(l), i + 1))
           case None => None)
      case Str(t) =>
        (match TextOf(t)
         case Some(text) => Strings(ts, i + 1, text)
         case None => None)
      case DStr(t) =>
        (match TextOf(t)
         case Some(text) => Strings(ts, i + 1, text)
         case None => None)
      case Op(s) =>
        if s != "(" then None
        else
          (match ReadValue(rd, ts, i + 1)
           case Some((inner, j)) => if Symbol(ts, j, ")") then Some((inner, j + 1)) else None
           case None => None)
      case Quoted(q) => if Symbol(ts, i + 1, "(") then None else Path(ts, i + 1, [NameOf(q)])
      case Word(w) =>
        var upper := Uppered(w);
        if upper == "TRUE" || upper == "FALSE" then Some((Lit(BoolL(upper == "TRUE")), i + 1))
        else if upper == "NULL" then Some((Lit(NullL), i + 1))
        else if upper in TYPED_LITERALS && IsString(ts, i + 1) then
          (match TextOf(ts[i + 1].text)
           case None => None
           case Some(raw) =>
             match TypedLiteral(rd, upper, raw)
             case Some(l) => Some((Lit(l), i + 2))
             case None => None)
        else if upper in KEYWORDS || Symbol(ts, i + 1, "(") then None
        else Path(ts, i + 1, [w])
  }

  function Items(rd: Reader, ts: seq<Tok>, i: nat, items: seq<Operand>): (r: Parsed<seq<Operand>>)
    requires i <= |ts|
    ensures r.Some? ==> i <= r.value.1 <= |ts|
    decreases |ts| - i
  {
    if !Symbol(ts, i, ",") then Some((items, i))
    else
      match ReadValue(rd, ts, i + 1)
      case Some((item, j)) => Items(rd, ts, j, items + [item])
      case None => None
  }

  predicate IsDouble(o: Operand) {
    o.Lit? && o.lit.DblL?
  }

  function AsDouble(rd: Reader, o: Operand): Operand {
    if o.Lit? && o.lit.LongL? then Lit(DblL(rd.roundedTo(o.lit.i as real)))
    else if o.Lit? && o.lit.DecL? then Lit(DblL(rd.roundedTo(o.lit.r)))
    else o
  }

  /** One DOUBLE in an IN list makes its numbers doubles. */
  function CommonType(rd: Reader, items: seq<Operand>): seq<Operand> {
    if exists i :: 0 <= i < |items| && IsDouble(items[i])
    then seq(|items|, i requires 0 <= i < |items| => AsDouble(rd, items[i]))
    else items
  }

  // ------------------------------------------------------------------ predicates

  /** `_backslash_escaped`. */
  function BackslashEscaped(pattern: string, escape: char): string {
    if escape == '\\' || pattern == [] then pattern
    else if pattern[0] == escape && |pattern| > 1 then ['\\', pattern[1]] + BackslashEscaped(pattern[2..], escape)
    else (if pattern[0] == '\\' then ['\\', '\\'] else [pattern[0]]) + BackslashEscaped(pattern[1..], escape)
  }

  function AfterIs(rd: Reader, ts: seq<Tok>, i: nat, left: Operand): (r: Parsed<Node>)
    requires i <= |ts|
    ensures r.Some? ==> i < r.value.1 <= |ts|
  {
    var negated := Keyword(ts, i, "NOT");
    var j := if negated then i + 1 else i;
    if Keyword(ts, j, "DISTINCT") then
      if !Keyword(ts, j + 1, "FROM") then None
      else
        match ReadValue(rd, ts, j + 2)
        case Some((right, k)) =>
          Some((if negated then NullSafe(left, right) else NotN(NullSafe(left, right)), k))
        case None => None
    else if Keyword(ts, j, "TRUE") || Keyword(ts, j, "FALSE") then
      var same := NullSafe(left, Lit(BoolL(Keyword(ts, j, "TRUE"))));
      Some((if negated then NotN(same) else same, j + 1))
    else if Keyword(ts, j, "NULL") then Some((if negated then IsNotNull(left) else IsNull(left), j + 1))
    else None
  }

  function AfterIn(rd: Reader, ts: seq<Tok>, i: nat, left: Operand, negated: bool): (r: Parsed<Node>)
    requires i <= |ts|
    ensures r.Some? ==> i < r.value.1 <= |ts|
  {
    if !Symbol(ts, i, "(") then None
    else
      match ReadValue(rd, ts, i + 1)
      case None => None
      case Some((first, j)) =>
        match Items(rd, ts, j, [first])
        case None => None
        case Some((items, k)) =>
          if Symbol(ts, k, ")") then Some((In(left, CommonType(rd, items), negated), k + 1)) else None
  }

  function AfterBetween(rd: Reader, ts: seq<Tok>, i: nat, left: Operand, negated: bool): (r: Parsed<Node>)
    requires i <= |ts|
    ensures r.Some? ==> i < r.value.1 <= |ts|
  {
    match ReadValue(rd, ts, i)
    case None => None
    case Some((low, j)) =>
      if !Keyword(ts, j, "AND") then None
      else
        match ReadValue(rd, ts, j + 1)
        case Some((high, k)) => Some((Between(left, low, high, negated), k))
        case None => None
  }

  function AfterLike(rd: Reader, ts: seq<Tok>, i: nat, left: Operand, insensitive: bool, negated: bool): (r: Parsed<Node>)
    requires i <= |ts|
    ensures r.Some? ==> i < r.value.1 <= |ts|
  {
    match ReadValue(rd, ts, i)
    case None => None
    case Some((pattern, j)) =>
      if !(pattern.Lit? && pattern.lit.StrL?) then None
      else if !Keyword(ts, j, "ESCAPE") then Some((Like(left, pattern.lit.s, insensitive, negated), j))
      else
        match ReadValue(rd, ts, j + 1)
        case None => None
        case Some((escape, k)) =>
          if escape.Lit? && escape.lit.StrL? && |escape.lit.s| == 1
          then Some((Like(left, BackslashEscaped(pattern.lit.s, escape.lit.s[0]), insensitive, negated), k))
          else None
  }

  /** What follows the left operand. */
  function AfterValue(rd: Reader, ts: seq<Tok>, i: nat, left: Operand): (r: Parsed<Node>)
    requires i <= |ts|
    ensures r.Some? ==> i <= r.value.1 <= |ts|
  {
    if Keyword(ts, i, "IS") then AfterIs(rd, ts, i + 1, left)
    else
      var negated := Keyword(ts, i, "NOT") && OpensList(ts, i + 1);
      var j := if negated then i + 1 else i;
      if Keyword(ts, j, "IN") then AfterIn(rd, ts, j + 1, left, negated)
      else if Keyword(ts, j, "BETWEEN") then AfterBetween(rd, ts, j + 1, left, negated)
      else if Keyword(ts, j, "LIKE") || Keyword(ts, j, "ILIKE") then
        AfterLike(rd, ts, j + 1, left, Keyword(ts, j, "ILIKE"), negated)
      else if IsComparison(ts, i) then
        match ReadValue(rd, ts, i + 1)
        case None => None
        case Some((right, k)) =>
          Some((if ts[i].text == "<=>" then NullSafe(left, right) else Cmp(Comparison(ts[i].text).value, left, right), k))
      else if left.Col? then Some((BoolColumn(left.path), i))
      else if left.lit.BoolL? then Some((Constant(left.lit.b), i))
      else None
  }

  /** `_flatten`, one level. */
  function FlattenAnd(parts: seq<Node>): seq<Node> {
    if parts == [] then []
    else FlattenAnd(parts[..|parts| - 1])
         + if parts[|parts| - 1].AndN? then parts[|parts| - 1].args else [parts[|parts| - 1]]
  }

  function FlattenOr(parts: seq<Node>): seq<Node> {
    if parts == [] then []
    else FlattenOr(parts[..|parts| - 1])
         + if parts[|parts| - 1].OrN? then parts[|parts| - 1].args else [parts[|parts| - 1]]
  }

  function Conjoined(parts: seq<Node>): Node
    requires parts != []
  {
    if |parts| == 1 then parts[0] else AndN(FlattenAnd(parts))
  }

  function Disjoined(parts: seq<Node>): Node
    requires parts != []
  {
    if |parts| == 1 then parts[0] else OrN(FlattenOr(parts))
  }

  function OrExpr(rd: Reader, ts: seq<Tok>, i: nat): (r: Parsed<Node>)
    requires i <= |ts|
    ensures r.Some? ==> i < r.value.1 <= |ts|
    decreases |ts| - i, 5
  {
    match AndExpr(rd, ts, i)
    case Some((part, j)) => OrRest(rd, ts, j, [part])
    case None => None
  }

  function OrRest(rd: Reader, ts: seq<Tok>, i: nat, parts: seq<Node>): (r: Parsed<Node>)
    requires i <= |ts| && parts != []
    ensures r.Some? ==> i <= r.value.1 <= |ts|
    decreases |ts| - i, 6
  {
    if !Keyword(ts, i, "OR") then Some((Disjoined(parts), i))
    else
      match AndExpr(rd, ts, i + 1)
      case Some((part, j)) => OrRest(rd, ts, j, parts + [part])
      case None => None
  }

  function AndExpr(rd: Reader, ts: seq<Tok>, i: nat): (r: Parsed<Node>)
    requires i <= |ts|
    ensures r.Some? ==> i < r.value.1 <= |ts|
    decreases |ts| - i, 4
  {
    match NotExpr(rd, ts, i)
    case Some((part, j)) => AndRest(rd, ts, j, [part])
    case None => None
  }

  function AndRest(rd: Reader, ts: seq<Tok>, i: nat, parts: seq<Node>): (r: Parsed<Node>)
    requires i <= |ts| && parts != []
    ensures r.Some? ==> i <= r.value.1 <= |ts|
    decreases |ts| - i, 6
  {
    if !Keyword(ts, i, "AND") then Some((Conjoined(parts), i))
    else
      match NotExpr(rd, ts, i + 1)
      case Some((part, j)) => AndRest(rd, ts, j, parts + [part])
      case None => None
  }

  function NotExpr(rd: Reader, ts: seq<Tok>, i: nat): (r: Parsed<Node>)
    requires i <= |ts|
    ensures r.Some? ==> i < r.value.1 <= |ts|
    decreases |ts| - i, 3
  {
    if Keyword(ts, i, "NOT") then
      match NotExpr(rd, ts, i + 1)
      case Some((inner, j)) => Some((NotN(inner), j))
      case None => None
    else Predicate(rd, ts, i)
  }

  /** A parenthesised predicate, unless the parentheses hold a value that is compared. */
  function Predicate(rd: Reader, ts: seq<Tok>, i: nat): (r: Parsed<Node>)
    requires i <= |ts|
    ensures r.Some? ==> i < r.value.1 <= |ts|
    decreases |ts| - i, 2
  {
    if Symbol(ts, i, "(") && !ContinuesComparison(ts, MatchingParen(ts, i) + 1) then
      match OrExpr(rd, ts, i + 1)
      case Some((inner, j)) => if Symbol(ts, j, ")") then Some((inner, j + 1)) else None
      case None => None
    else
      match ReadValue(rd, ts, i)
      case Some((left, j)) => AfterValue(rd, ts, j, left)
      case None => None
  }

  /** `parse`. */
  function Parse(rd: Reader, text: string): Option<Node> {
    match Lex(text)
    case None => None
    case Some(ts) =>
      match OrExpr(rd, ts, 0)
      case Some((node, j)) => if j == |ts| then Some(node) else None
      case None => None
  }

  // ------------------------------------------------------- the imperative form

  /** `_Parser`: a cursor over the tokens. None where the source raises. */
  class Parser {
    const rd: Reader
    const tokens: seq<Tok>
    var i: nat

    constructor (rd: Reader, tokens: seq<Tok>)
      ensures this.rd == rd && this.tokens == tokens && i == 0
    {
      this.rd, this.tokens, i := rd, tokens, 0;
    }

    /** The result of a grammar function, with the cursor where it left it. */
    ghost predicate Agrees<T>(r: Option<T>, spec: Parsed<T>)
      reads this
    {
      match spec
      case Some((node, j)) => r == Some(node) && i == j
      case None => r == None
    }

    method ReadOr() returns (r: Option<Node>)
      requires i <= |tokens|
      modifies this`i
      ensures Agrees(r, OrExpr(rd, tokens, old(i))) && (r.Some? ==> i <= |tokens|)
      decreases |tokens| - i, 5
    {
      ghost var start := i;
      var part := ReadAnd();
      if part.None? {
        return None;
      }
      var parts := [part.value];
      while Keyword(tokens, i, "OR")
        invariant start < i <= |tokens| && parts != []
        invariant OrExpr(rd, tokens, start) == OrRest(rd, tokens, i, parts)
        decreases |tokens| - i
      {
        i := i + 1;
        part := ReadAnd();
        if part.None? {
          return None;
        }
        parts := parts + [part.value];
      }
      return Some(Disjoined(parts));
    }

    method ReadAnd() returns (r: Option<Node>)
      requires i <= |tokens|
      modifies this`i
      ensures Agrees(r, AndExpr(rd, tokens, old(i))) && (r.Some? ==> i <= |tokens|)
      decreases |tokens| - i, 4
    {
      ghost var start := i;
      var part := ReadNot();
      if part.None? {
        return None;
      }
      var parts := [part.value];
      while Keyword(tokens, i, "AND")
        invariant start < i <= |tokens| && parts != []
        invariant AndExpr(rd, tokens, start) == AndRest(rd, tokens, i, parts)
        decreases |tokens| - i
      {
        i := i + 1;
        part := ReadNot();
        if part.None? {
          return None;
        }
        parts := parts + [part.value];
      }
      return Some(Conjoined(parts));
    }

    method ReadNot() returns (r: Option<Node>)
      requires i <= |tokens|
      modifies this`i
      ensures Agrees(r, NotExpr(rd, tokens, old(i))) && (r.Some? ==> i <= |tokens|)
      decreases |tokens| - i, 3
    {
      if Keyword(tokens, i, "NOT") {
        i := i + 1;
        var inner := ReadNot();
        return if inner.Some? then Some(NotN(inner.value)) else None;
      }
      r := ReadPredicate();
    }

    method ReadPredicate() returns (r: Option<Node>)
      requires i <= |tokens|
      modifies this`i
      ensures Agrees(r, Predicate(rd, tokens, old(i))) && (r.Some? ==> i <= |tokens|)
      decreases |tokens| - i, 2
    {
      if Symbol(tokens, i, "(") {
        var close := FindClosing();
        if !ContinuesComparison(tokens, close + 1) {
          i := i + 1;
          var inner := ReadOr();
          if inner.None? || !Symbol(tokens, i, ")") {
            return None;
          }
          i := i + 1;
          return inner;
        }
      }
      match ReadValue(rd, tokens, i) {
        case None => return None;
        case Some((left, j)) =>
          match AfterValue(rd, tokens, j, left) {
            case None => return None;
            case Some((node, k)) =>
              i := k;
              return Some(node);
          }
      }
    }

    /** `_matching_paren`'s scan. */
    method FindClosing() returns (at: nat)
      requires Symbol(tokens, i, "(")
      ensures at == MatchingParen(tokens, i)
    {
      var depth := 1;
      at := i + 1;
      while at < |tokens|
        invariant i < at <= |tokens| && depth > 0
        invariant Closing(tokens, at, depth) == MatchingParen(tokens, i)
      {
        if tokens[at] == Op("(") {
          depth := depth + 1;
        } else if tokens[at] == Op(")") {
          if depth == 1 {
            return;
          }
          depth := depth - 1;
        }
        at := at + 1;
      }
    }
  }

  method ParseText(rd: Reader, text: string) returns (node: Option<Node>)
    ensures node == Parse(rd, text)
  {
    var tokens := Tokenize(text);
    if tokens.None? {
      return None;
    }
    var parser := new Parser(rd, tokens.value);
    node := parser.ReadOr();
    if node.Some? && parser.i != |tokens.value| {
      return None;
    }
  }
}
