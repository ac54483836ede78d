/** The printed text parses to the AST expected, which is TRUE of every row the expression keeps. */
module PrintMeaning {
  import opened Wrappers
  import opened Kleene
  import opened Values
  import opened Predicates
  import opened SqlLexer
  import P = SqlParser
  import opened LazyFilter
  import opened PrintLex
  import opened PrintParse
  import JavaNumber

  // ------------------------------------------------------------- reading tokens

  /** `part` stands at `i`. */
  predicate At(ts: seq<Tok>, i: nat, part: seq<Tok>) {
    i + |part| <= |ts| && forall k :: 0 <= k < |part| ==> ts[i + k] == part[k]
  }

  lemma AtBoth(ts: seq<Tok>, i: nat, a: seq<Tok>, b: seq<Tok>)
    requires At(ts, i, a + b)
    ensures At(ts, i, a) && At(ts, i + |a|, b)
  {
    forall k | 0 <= k < |a| ensures ts[i + k] == a[k] {
      assert (a + b)[k] == a[k];
    }
    forall k | 0 <= k < |b| ensures ts[i + |a| + k] == b[k] {
      assert (a + b)[|a| + k] == b[k];
    }
  }

  lemma AtFirst(ts: seq<Tok>, i: nat, tok: Tok, rest: seq<Tok>)
    requires At(ts, i, [tok] + rest)
    ensures i < |ts| && ts[i] == tok && At(ts, i + 1, rest)
  {
    AtBoth(ts, i, [tok], rest);
    assert ts[i + 0] == [tok][0];
  }

  /** What follows a printed predicate: the end, a closing parenthesis, AND or OR. */
  predicate Follows(ts: seq<Tok>, i: nat) {
    i <= |ts| && (i == |ts| || ts[i] == RP || ts[i] == Word("AND") || ts[i] == Word("OR"))
  }

  /** What follows a printed value: no string, and no dot or opening parenthesis. */
  predicate AfterOperand(ts: seq<Tok>, i: nat) {
    !P.IsString(ts, i) && !P.Symbol(ts, i, ".") && !P.Symbol(ts, i, "(")
  }

  lemma Spellings()
    ensures P.Uppered("AND") == "AND" && P.Uppered("OR") == "OR" && P.Uppered("IS") == "IS"
    ensures P.Uppered("NOT") == "NOT" && P.Uppered("NULL") == "NULL" && P.Uppered("IN") == "IN"
    ensures P.Uppered("TRUE") == "TRUE" && P.Uppered("FALSE") == "FALSE" && P.Uppered("DATE") == "DATE"
  {
  }

  lemma FollowsEnds(ts: seq<Tok>, i: nat)
    requires Follows(ts, i)
    ensures AfterOperand(ts, i) && !P.ContinuesComparison(ts, i) && !P.IsComparison(ts, i)
    ensures !P.Keyword(ts, i, "IS") && !P.Keyword(ts, i, "NOT") && !P.OpensList(ts, i) && !P.Symbol(ts, i, ",")
    ensures P.Keyword(ts, i, "AND") <==> i < |ts| && ts[i] == Word("AND")
    ensures P.Keyword(ts, i, "OR") <==> i < |ts| && ts[i] == Word("OR")
  {
    Spellings();
  }

  // ------------------------------------------------------------------- constants

  /** The reader reads dates as they are written. */
  ghost predicate ReadsDates(rd: P.Reader, iso: Dates) {
    PlainDates(iso) && forall d :: rd.dateOf(iso(d)) == Some(d)
  }

  lemma StringTokenReads(s: string)
    ensures P.TextOf([QUOTE] + Escaped(s) + [QUOTE]) == Some(s)
  {
    var t := [QUOTE] + Escaped(s) + [QUOTE];
    assert t[1..|t| - 1] == Escaped(s);
    UnescapeRestores(s);
  }

  lemma NumberParses(rd: P.Reader, t: string, l: Literal, ts: seq<Tok>, i: nat)
    requires i < |ts| && ts[i] == Number(t) && t != [] && P.NumberLiteral(rd, t) == Some(l)
    ensures P.ReadValue(rd, ts, i) == Some((Lit(l), i + 1))
  {
  }

  lemma StringParses(rd: P.Reader, s: string, ts: seq<Tok>, i: nat)
    requires i < |ts| && ts[i] == StringP(s).tok && !P.IsString(ts, i + 1)
    ensures P.ReadValue(rd, ts, i) == Some((Lit(StrL(s)), i + 1))
  {
    StringTokenReads(s);
  }

  lemma BoolParses(rd: P.Reader, b: bool, ts: seq<Tok>, i: nat)
    requires i < |ts| && ts[i] == Word(if b then "TRUE" else "FALSE")
    ensures P.ReadValue(rd, ts, i) == Some((Lit(BoolL(b)), i + 1))
  {
    Spellings();
  }

  lemma DateParses(rd: P.Reader, iso: Dates, d: int, ts: seq<Tok>, i: nat)
    requires ReadsDates(rd, iso) && i + 1 < |ts| && ts[i] == Word("DATE") && ts[i + 1] == StringP(iso(d)).tok
    ensures P.ReadValue(rd, ts, i) == Some((Lit(DateL(d)), i + 2))
  {
    Spellings();
    StringTokenReads(iso(d));
    assert P.TypedLiteral(rd, "DATE", iso(d)) == Some(DateL(d));
  }

  lemma AtOne(ts: seq<Tok>, i: nat, tok: Tok)
    requires At(ts, i, [tok])
    ensures i < |ts| && ts[i] == tok
  {
    assert ts[i + 0] == [tok][0];
  }

  lemma NumberTextIsThere(c: Constant)
    requires c.IntC? || (c.DecC? && c.digits != [])
    ensures c.IntC? ==> JavaNumber.IntText(c.i) != []
    ensures c.DecC? ==> DecimalText(c.negative, c.digits, c.exponent) != []
  {
  }

  lemma ConstantParses(rd: P.Reader, iso: Dates, t: Type, c: Constant, ts: seq<Tok>, i: nat)
    requires ReadsDates(rd, iso) && Renders(t, c)
    requires At(ts, i, LitToks(iso, c)) && AfterOperand(ts, i + |LitToks(iso, c)|)
    ensures P.ReadValue(rd, ts, i) == Some((Lit(LitOf(c)), i + |LitToks(iso, c)|))
  {
    match c
    case IntC(x) => IntParses(rd, x, ts, i);
    case StrC(s) => TextConstantParses(rd, s, ts, i);
    case BoolC(b) => BoolConstantParses(rd, b, ts, i);
    case DateC(d) =>
      DateTokens(iso, d, ts, i);
      DateParses(rd, iso, d, ts, i);
    case DecC(negative, digits, exponent) => DecimalParses(rd, negative, digits, exponent, ts, i);
  }

  lemma TextConstantParses(rd: P.Reader, s: string, ts: seq<Tok>, i: nat)
    requires At(ts, i, [StringP(s).tok]) && AfterOperand(ts, i + 1)
    ensures P.ReadValue(rd, ts, i) == Some((Lit(StrL(s)), i + 1))
  {
    AtOne(ts, i, StringP(s).tok);
    StringParses(rd, s, ts, i);
  }

  lemma BoolConstantParses(rd: P.Reader, b: bool, ts: seq<Tok>, i: nat)
    requires At(ts, i, [Word(if b then "TRUE" else "FALSE")])
    ensures P.ReadValue(rd, ts, i) == Some((Lit(BoolL(b)), i + 1))
  {
    AtOne(ts, i, Word(if b then "TRUE" else "FALSE"));
    BoolParses(rd, b, ts, i);
  }

  lemma IntParses(rd: P.Reader, x: int, ts: seq<Tok>, i: nat)
    requires At(ts, i, [Number(JavaNumber.IntText(x))])
    ensures P.ReadValue(rd, ts, i) == Some((Lit(P.IntegerLiteral(x)), i + 1))
  {
    AtOne(ts, i, Number(JavaNumber.IntText(x)));
    NumberTextIsThere(IntC(x));
    IntReads(rd, x);
    NumberParses(rd, JavaNumber.IntText(x), P.IntegerLiteral(x), ts, i);
  }

  lemma DateTokens(iso: Dates, d: int, ts: seq<Tok>, i: nat)
    requires PlainDates(iso) && At(ts, i, LitToks(iso, DateC(d)))
    ensures i + 1 < |ts| && ts[i] == Word("DATE") && ts[i + 1] == StringP(iso(d)).tok
  {
    var str := Str([QUOTE] + iso(d) + [QUOTE]);
    PlainIsNotEscaped(iso(d));
    assert LitToks(iso, DateC(d)) == [Word("DATE")] + [str];
    AtFirst(ts, i, Word("DATE"), [str]);
    AtOne(ts, i + 1, str);
  }

  lemma DecimalParses(rd: P.Reader, negative: bool, digits: seq<JavaNumber.Digit>, exponent: int, ts: seq<Tok>, i: nat)
    requires digits != [] && At(ts, i, [Number(DecimalText(negative, digits, exponent))])
    ensures P.ReadValue(rd, ts, i) == Some((Lit(DecimalLiteral(negative, digits, exponent)), i + 1))
  {
    AtOne(ts, i, Number(DecimalText(negative, digits, exponent)));
    NumberTextIsThere(DecC(negative, digits, exponent));
    DecimalConstantReads(rd, negative, digits, exponent);
    NumberParses(rd, DecimalText(negative, digits, exponent), DecimalLiteral(negative, digits, exponent), ts, i);
  }

  lemma {:induction false} NoDoubling(name: string)
    requires forall i :: 0 <= i < |name| ==> name[i] != '`'
    ensures P.Undoubled(name) == name
  {
    if name != [] {
      NoDoubling(name[1..]);
    }
  }

  lemma NameParses(rd: P.Reader, name: string, ts: seq<Tok>, i: nat)
    requires IsIdent(name) && i < |ts| && ts[i] == NameTok(name) && AfterOperand(ts, i + 1)
    ensures P.ReadValue(rd, ts, i) == Some((Col([name]), i + 1))
  {
    var q := ['`'] + name + ['`'];
    assert q[1..|q| - 1] == name;
    NoDoubling(name);
    assert P.NameOf(q) == name;
  }

  // ----------------------------------------------------------------- parentheses

  lemma {:induction false} ClosingSkips(ts: seq<Tok>, i: nat, part: seq<Tok>, d: nat)
    requires d > 0 && At(ts, i, part) && Depth(part, d).Some?
    ensures P.Closing(ts, i, d) == P.Closing(ts, i + |part|, Depth(part, d).value)
    decreases |part|
  {
    if part != [] {
      assert part == [part[0]] + part[1..];
      AtFirst(ts, i, part[0], part[1..]);
      ClosingSkips(ts, i + 1, part[1..], if part[0] == Op("(") then d + 1 else if part[0] == Op(")") then d - 1 else d);
    }
  }

  lemma Opened(ts: seq<Tok>, i: nat, inner: seq<Tok>)
    requires Even(inner) && At(ts, i, Bracketed(inner))
    ensures P.Symbol(ts, i, "(") && P.MatchingParen(ts, i) == i + 1 + |inner| && P.Symbol(ts, i + 1 + |inner|, ")")
    ensures At(ts, i + 1, inner)
  {
    AtFirst(ts, i, LP, inner + [RP]);
    AtBoth(ts, i + 1, inner, [RP]);
    assert ts[i + 1 + |inner| + 0] == [RP][0];
    ClosingSkips(ts, i + 1, inner, 1);
  }

  /** A predicate that ends at a closing parenthesis is the whole of what the parentheses hold. */
  lemma OnlyPredicate(rd: P.Reader, ts: seq<Tok>, i: nat, node: Node, j: nat)
    requires i <= |ts| && P.Predicate(rd, ts, i) == Some((node, j)) && !P.Keyword(ts, i, "NOT") && P.Symbol(ts, j, ")")
    ensures P.OrExpr(rd, ts, i) == Some((node, j))
  {
    FollowsEnds(ts, j);
    assert P.NotExpr(rd, ts, i) == Some((node, j));
    assert P.AndRest(rd, ts, j, [node]) == Some((node, j));
    assert P.OrRest(rd, ts, j, [node]) == Some((node, j));
  }

  lemma ParenthesisReads(rd: P.Reader, ts: seq<Tok>, i: nat, j: nat, node: Node)
    requires P.Symbol(ts, i, "(") && P.MatchingParen(ts, i) == j && P.Symbol(ts, j, ")") && !P.ContinuesComparison(ts, j + 1)
    requires P.OrExpr(rd, ts, i + 1) == Some((node, j))
    ensures P.Predicate(rd, ts, i) == Some((node, j + 1))
  {
  }

  lemma NotContinued(ts: seq<Tok>, i: nat)
    requires Follows(ts, i)
    ensures !P.ContinuesComparison(ts, i)
  {
    FollowsEnds(ts, i);
  }

  lemma NotAtParenthesis(ts: seq<Tok>, i: nat)
    requires P.Symbol(ts, i, "(")
    ensures !P.Keyword(ts, i, "NOT")
  {
  }

  /** A leaf between parentheses that match. */
  lemma LeafBetween(rd: P.Reader, ts: seq<Tok>, i: nat, j: nat, node: Node)
    requires P.Symbol(ts, i, "(") && P.MatchingParen(ts, i) == j && P.Symbol(ts, j, ")") && Follows(ts, j + 1)
    requires P.Predicate(rd, ts, i + 1) == Some((node, j)) && !P.Keyword(ts, i + 1, "NOT")
    ensures P.Predicate(rd, ts, i) == Some((node, j + 1)) && !P.Keyword(ts, i, "NOT")
  {
    NotContinued(ts, j + 1);
    NotAtParenthesis(ts, i);
    OnlyPredicate(rd, ts, i + 1, node, j);
    ParenthesisReads(rd, ts, i, j, node);
  }

  // ------------------------------------------------------------------- the leaves

  /** A predicate that begins with a column. */
  lemma NameThen(rd: P.Reader, name: string, ts: seq<Tok>, i: nat)
    requires IsIdent(name) && i < |ts| && ts[i] == NameTok(name) && AfterOperand(ts, i + 1)
    ensures P.Predicate(rd, ts, i) == P.AfterValue(rd, ts, i + 1, Col([name])) && !P.Keyword(ts, i, "NOT")
  {
    NameParses(rd, name, ts, i);
  }

  lemma CompareAfter(rd: P.Reader, ts: seq<Tok>, i: nat, left: Operand, op: CmpOp, right: Operand, k: nat)
    requires i < |ts| && ts[i] == Op(OpText(op)) && P.ReadValue(rd, ts, i + 1) == Some((right, k))
    ensures P.AfterValue(rd, ts, i, left) == Some((Cmp(op, left, right), k)) && AfterOperand(ts, i)
  {
    assert P.Comparison(OpText(op)) == Some(op) && OpText(op) != "<=>";
  }

  lemma CompareReads(rd: P.Reader, name: string, op: CmpOp, right: Operand, ts: seq<Tok>, i: nat, k: nat)
    requires IsIdent(name) && i + 1 < |ts| && ts[i] == NameTok(name) && ts[i + 1] == Op(OpText(op))
    requires P.ReadValue(rd, ts, i + 2) == Some((right, k))
    ensures P.Predicate(rd, ts, i) == Some((Cmp(op, Col([name]), right), k)) && !P.Keyword(ts, i, "NOT")
  {
    CompareAfter(rd, ts, i + 1, Col([name]), op, right, k);
    NameThen(rd, name, ts, i);
  }

  lemma CompareHead(name: string, op: CmpOp, lit: seq<Tok>, ts: seq<Tok>, i: nat)
    requires At(ts, i, CompareInner(name, op, lit))
    ensures i + 1 < |ts| && ts[i] == NameTok(name) && ts[i + 1] == Op(OpText(op)) && At(ts, i + 2, lit)
  {
    AtFirst(ts, i, NameTok(name), [Op(OpText(op))] + lit);
    AtFirst(ts, i + 1, Op(OpText(op)), lit);
  }

  lemma NullAfter(rd: P.Reader, ts: seq<Tok>, i: nat, left: Operand, negated: bool)
    requires At(ts, i, [Word("IS")] + if negated then [Word("NOT")] + [Word("NULL")] else [Word("NULL")])
    ensures P.AfterValue(rd, ts, i, left) == Some((if negated then IsNotNull(left) else IsNull(left), i + if negated then 3 else 2))
    ensures AfterOperand(ts, i)
  {
    Spellings();
    AtFirst(ts, i, Word("IS"), if negated then [Word("NOT")] + [Word("NULL")] else [Word("NULL")]);
    if negated {
      AtFirst(ts, i + 1, Word("NOT"), [Word("NULL")]);
      assert ts[i + 2 + 0] == [Word("NULL")][0];
    } else {
      assert ts[i + 1 + 0] == [Word("NULL")][0];
    }
  }

  lemma NullReads(rd: P.Reader, name: string, negated: bool, ts: seq<Tok>, i: nat)
    requires IsIdent(name) && At(ts, i, NullInner(name, negated))
    ensures var left := Col([name]);
            P.Predicate(rd, ts, i) == Some((if negated then IsNotNull(left) else IsNull(left), i + |NullInner(name, negated)|))
            && !P.Keyword(ts, i, "NOT")
  {
    var left := Col([name]);
    AtFirst(ts, i, NameTok(name), [Word("IS")] + if negated then [Word("NOT")] + [Word("NULL")] else [Word("NULL")]);
    NullAfter(rd, ts, i + 1, left, negated);
    NameThen(rd, name, ts, i);
  }

  // --------------------------------------------------------------------- IN lists

  function ItemsFrom(rd: P.Reader, ts: seq<Tok>, i: nat, acc: seq<Operand>): P.Parsed<seq<Operand>>
    requires i <= |ts|
  {
    match P.ReadValue(rd, ts, i)
    case Some((item, j)) => P.Items(rd, ts, j, acc + [item])
    case None => None
  }

  lemma ItemsMore(rd: P.Reader, ts: seq<Tok>, i: nat, item: Operand, j: nat, acc: seq<Operand>)
    requires i <= |ts| && P.ReadValue(rd, ts, i) == Some((item, j)) && P.Symbol(ts, j, ",")
    ensures ItemsFrom(rd, ts, i, acc) == ItemsFrom(rd, ts, j + 1, acc + [item])
  {
  }

  lemma ItemsLast(rd: P.Reader, ts: seq<Tok>, i: nat, item: Operand, j: nat, acc: seq<Operand>)
    requires i <= |ts| && P.ReadValue(rd, ts, i) == Some((item, j)) && P.Symbol(ts, j, ")")
    ensures ItemsFrom(rd, ts, i, acc) == Some((acc + [item], j))
  {
  }

  lemma ItemThenRest(iso: Dates, items: seq<Constant>, ts: seq<Tok>, i: nat)
    requires |items| > 1 && At(ts, i, ListToks(iso, items))
    ensures var j := i + |LitToks(iso, items[0])|;
            && At(ts, i, LitToks(iso, items[0])) && P.Symbol(ts, j, ",") && At(ts, j + 1, ListToks(iso, items[1..]))
            && i + |ListToks(iso, items)| == j + 1 + |ListToks(iso, items[1..])|
  {
    AtThree(ts, i, LitToks(iso, items[0]), Op(","), ListToks(iso, items[1..]));
  }

  lemma LitsFirst(items: seq<Constant>)
    requires items != []
    ensures LitsOf(items) == [Lit(LitOf(items[0]))] + LitsOf(items[1..])
  {
  }

  lemma FirstOfMore(rd: P.Reader, iso: Dates, t: Type, c: Constant, ts: seq<Tok>, i: nat)
    requires ReadsDates(rd, iso) && Renders(t, c) && At(ts, i, LitToks(iso, c)) && P.Symbol(ts, i + |LitToks(iso, c)|, ",")
    ensures P.ReadValue(rd, ts, i) == Some((Lit(LitOf(c)), i + |LitToks(iso, c)|))
  {
    ConstantParses(rd, iso, t, c, ts, i);
  }

  lemma FirstItemReads(rd: P.Reader, iso: Dates, t: Type, c: Constant, ts: seq<Tok>, i: nat, j: nat, acc: seq<Operand>)
    requires ReadsDates(rd, iso) && Renders(t, c) && At(ts, i, LitToks(iso, c)) && j == i + |LitToks(iso, c)| && P.Symbol(ts, j, ",")
    ensures ItemsFrom(rd, ts, i, acc) == ItemsFrom(rd, ts, j + 1, acc + [Lit(LitOf(c))])
  {
    FirstOfMore(rd, iso, t, c, ts, i);
    ItemsMore(rd, ts, i, Lit(LitOf(c)), j, acc);
  }

  lemma LastItemReads(rd: P.Reader, iso: Dates, t: Type, c: Constant, ts: seq<Tok>, i: nat, acc: seq<Operand>)
    requires ReadsDates(rd, iso) && Renders(t, c) && At(ts, i, LitToks(iso, c)) && P.Symbol(ts, i + |LitToks(iso, c)|, ")")
    ensures ItemsFrom(rd, ts, i, acc) == Some((acc + [Lit(LitOf(c))], i + |LitToks(iso, c)|))
  {
    ConstantParses(rd, iso, t, c, ts, i);
    ItemsLast(rd, ts, i, Lit(LitOf(c)), i + |LitToks(iso, c)|, acc);
  }

  /** The list from `items` on reads, after those in `acc`, up to `k`. */
  predicate ListEndsAt(rd: P.Reader, ts: seq<Tok>, i: nat, acc: seq<Operand>, items: seq<Operand>, k: nat)
    requires i <= |ts|
  {
    ItemsFrom(rd, ts, i, acc) == Some((acc + items, k))
  }

  lemma ListGrows(rd: P.Reader, ts: seq<Tok>, i: nat, j: nat, acc: seq<Operand>, lit: Operand, rest: seq<Operand>, k: nat)
    requires i <= |ts| && j <= |ts| && ItemsFrom(rd, ts, i, acc) == ItemsFrom(rd, ts, j, acc + [lit])
    requires ListEndsAt(rd, ts, j, acc + [lit], rest, k)
    ensures ListEndsAt(rd, ts, i, acc, [lit] + rest, k)
  {
    Regroup(acc, lit, rest, [lit] + rest);
  }

  lemma ListOfOne(rd: P.Reader, iso: Dates, t: Type, c: Constant, ts: seq<Tok>, i: nat, acc: seq<Operand>)
    requires ReadsDates(rd, iso) && Renders(t, c) && At(ts, i, LitToks(iso, c)) && P.Symbol(ts, i + |LitToks(iso, c)|, ")")
    ensures ListEndsAt(rd, ts, i, acc, [Lit(LitOf(c))], i + |LitToks(iso, c)|)
  {
    LastItemReads(rd, iso, t, c, ts, i, acc);
  }

  lemma RestFits(t: Type, items: seq<Constant>)
    requires items != [] && RenderAll(t, items)
    ensures Renders(t, items[0]) && RenderAll(t, items[1..])
  {
  }

  lemma ListOfMore(rd: P.Reader, iso: Dates, t: Type, items: seq<Constant>, ts: seq<Tok>, i: nat, acc: seq<Operand>, k: nat)
    requires ReadsDates(rd, iso) && |items| > 1 && Renders(t, items[0]) && At(ts, i, ListToks(iso, items))
    requires var j := i + |LitToks(iso, items[0])| + 1;
             j <= |ts| && ListEndsAt(rd, ts, j, acc + [Lit(LitOf(items[0]))], LitsOf(items[1..]), k)
    ensures ListEndsAt(rd, ts, i, acc, LitsOf(items), k)
  {
    ItemThenRest(iso, items, ts, i);
    FirstItemReads(rd, iso, t, items[0], ts, i, i + |LitToks(iso, items[0])|, acc);
    ListGrows(rd, ts, i, i + |LitToks(iso, items[0])| + 1, acc, Lit(LitOf(items[0])), LitsOf(items[1..]), k);
    LitsFirst(items);
  }

  lemma {:induction false} ListReads(rd: P.Reader, iso: Dates, t: Type, items: seq<Constant>, ts: seq<Tok>, i: nat, acc: seq<Operand>, k: nat)
    requires ReadsDates(rd, iso) && items != [] && RenderAll(t, items) && k == i + |ListToks(iso, items)|
    requires At(ts, i, ListToks(iso, items)) && P.Symbol(ts, k, ")")
    ensures ListEndsAt(rd, ts, i, acc, LitsOf(items), k)
    decreases |items|
  {
    RestFits(t, items);
    if |items| == 1 {
      ListOfOne(rd, iso, t, items[0], ts, i, acc);
      LitsFirst(items);
      assert LitsOf(items) == [Lit(LitOf(items[0]))];
    } else {
      ItemThenRest(iso, items, ts, i);
      ListReads(rd, iso, t, items[1..], ts, i + |LitToks(iso, items[0])| + 1, acc + [Lit(LitOf(items[0]))], k);
      ListOfMore(rd, iso, t, items, ts, i, acc, k);
    }
  }

  lemma NoDoubles(rd: P.Reader, items: seq<Constant>)
    ensures P.CommonType(rd, LitsOf(items)) == LitsOf(items)
  {
    forall i | 0 <= i < |items| ensures !P.IsDouble(LitsOf(items)[i]) {
      var c := items[i];
    }
  }

  lemma InAfter(rd: P.Reader, ts: seq<Tok>, i: nat, left: Operand, items: seq<Operand>, j: nat)
    requires i + 1 < |ts| && ts[i] == Word("IN") && P.Symbol(ts, i + 1, "(") && P.CommonType(rd, items) == items
    requires ListEndsAt(rd, ts, i + 2, [], items, j) && P.Symbol(ts, j, ")")
    ensures P.AfterValue(rd, ts, i, left) == Some((In(left, items, false), j + 1)) && AfterOperand(ts, i)
  {
    Spellings();
    var first := P.ReadValue(rd, ts, i + 2).value.0;
    assert [] + [first] == [first] && [] + items == items;
    assert P.AfterIn(rd, ts, i + 1, left, false) == Some((In(left, items, false), j + 1));
  }

  lemma InReads(rd: P.Reader, name: string, items: seq<Operand>, ts: seq<Tok>, i: nat, j: nat)
    requires IsIdent(name) && i + 2 < |ts| && ts[i] == NameTok(name) && ts[i + 1] == Word("IN") && P.Symbol(ts, i + 2, "(")
    requires ListEndsAt(rd, ts, i + 3, [], items, j) && P.Symbol(ts, j, ")") && P.CommonType(rd, items) == items
    ensures P.Predicate(rd, ts, i) == Some((In(Col([name]), items, false), j + 1)) && !P.Keyword(ts, i, "NOT")
  {
    InAfter(rd, ts, i + 1, Col([name]), items, j);
    NameThen(rd, name, ts, i);
  }

  predicate RenderAll(t: Type, items: seq<Constant>) {
    forall k :: 0 <= k < |items| ==> Renders(t, items[k])
  }

  lemma InHead(name: string, list: seq<Tok>, ts: seq<Tok>, i: nat)
    requires At(ts, i, InInner(name, list))
    ensures i + 1 < |ts| && ts[i] == NameTok(name) && ts[i + 1] == Word("IN") && At(ts, i + 2, Bracketed(list))
  {
    AtFirst(ts, i, NameTok(name), [Word("IN")] + Bracketed(list));
    AtFirst(ts, i + 1, Word("IN"), Bracketed(list));
  }

  lemma ListOpens(iso: Dates, items: seq<Constant>, ts: seq<Tok>, i: nat, j: nat)
    requires items != [] && At(ts, i, Bracketed(ListToks(iso, items))) && j == i + 1 + |ListToks(iso, items)|
    ensures P.Symbol(ts, i, "(") && P.Symbol(ts, j, ")") && At(ts, i + 1, ListToks(iso, items))
  {
    AtFirst(ts, i, LP, ListToks(iso, items) + [RP]);
    AtBoth(ts, i + 1, ListToks(iso, items), [RP]);
    AtOne(ts, j, RP);
  }

  // ---------------------------------------------------------- conjuncts, disjuncts

  function AndFrom(rd: P.Reader, ts: seq<Tok>, i: nat, acc: seq<Node>): P.Parsed<Node>
    requires i <= |ts|
  {
    match P.NotExpr(rd, ts, i)
    case Some((part, j)) => P.AndRest(rd, ts, j, acc + [part])
    case None => None
  }

  function OrFrom(rd: P.Reader, ts: seq<Tok>, i: nat, acc: seq<Node>): P.Parsed<Node>
    requires i <= |ts|
  {
    match P.AndExpr(rd, ts, i)
    case Some((part, j)) => P.OrRest(rd, ts, j, acc + [part])
    case None => None
  }

  lemma Starts(rd: P.Reader, ts: seq<Tok>, i: nat)
    requires i <= |ts|
    ensures P.OrExpr(rd, ts, i) == OrFrom(rd, ts, i, [])
    ensures P.AndExpr(rd, ts, i) == AndFrom(rd, ts, i, [])
  {
    assert forall part: Node :: [] + [part] == [part];
  }

  lemma AndOne(rd: P.Reader, ts: seq<Tok>, i: nat, node: Node, j: nat)
    requires i <= |ts| && j <= |ts| && P.Predicate(rd, ts, i) == Some((node, j)) && !P.Keyword(ts, i, "NOT")
    requires !P.Keyword(ts, j, "AND")
    ensures P.AndExpr(rd, ts, i) == Some((node, j))
  {
    assert P.AndRest(rd, ts, j, [node]) == Some((node, j));
  }

  lemma AndMore(rd: P.Reader, ts: seq<Tok>, i: nat, node: Node, j: nat, acc: seq<Node>)
    requires i <= |ts| && P.Predicate(rd, ts, i) == Some((node, j)) && !P.Keyword(ts, i, "NOT") && P.Keyword(ts, j, "AND")
    ensures AndFrom(rd, ts, i, acc) == AndFrom(rd, ts, j + 1, acc + [node])
  {
  }

  lemma AndLast(rd: P.Reader, ts: seq<Tok>, i: nat, node: Node, j: nat, acc: seq<Node>)
    requires i <= |ts| && j <= |ts| && P.Predicate(rd, ts, i) == Some((node, j)) && !P.Keyword(ts, i, "NOT") && !P.Keyword(ts, j, "AND")
    ensures AndFrom(rd, ts, i, acc) == Some((P.Conjoined(acc + [node]), j))
  {
  }

  lemma OrMore(rd: P.Reader, ts: seq<Tok>, i: nat, node: Node, j: nat, acc: seq<Node>)
    requires i <= |ts| && P.AndExpr(rd, ts, i) == Some((node, j)) && P.Keyword(ts, j, "OR")
    ensures OrFrom(rd, ts, i, acc) == OrFrom(rd, ts, j + 1, acc + [node])
  {
  }

  lemma OrLast(rd: P.Reader, ts: seq<Tok>, i: nat, node: Node, j: nat, acc: seq<Node>)
    requires i <= |ts| && j <= |ts| && P.AndExpr(rd, ts, i) == Some((node, j)) && !P.Keyword(ts, j, "OR")
    ensures OrFrom(rd, ts, i, acc) == Some((P.Disjoined(acc + [node]), j))
  {
  }

  lemma OrNext(rd: P.Reader, ts: seq<Tok>, i: nat, node: Node, j: nat, acc: seq<Node>)
    requires i <= |ts| && P.Predicate(rd, ts, i) == Some((node, j)) && !P.Keyword(ts, i, "NOT")
    requires j < |ts| && ts[j] == Word("OR")
    ensures OrFrom(rd, ts, i, acc) == OrFrom(rd, ts, j + 1, acc + [node])
  {
    FollowsEnds(ts, j);
    AndOne(rd, ts, i, node, j);
    OrMore(rd, ts, i, node, j, acc);
  }

  lemma OrEnd(rd: P.Reader, ts: seq<Tok>, i: nat, node: Node, j: nat, acc: seq<Node>)
    requires i <= |ts| && P.Predicate(rd, ts, i) == Some((node, j)) && !P.Keyword(ts, i, "NOT") && P.Symbol(ts, j, ")")
    ensures OrEndsAt(rd, ts, i, acc, [node], j)
  {
    FollowsEnds(ts, j);
    AndOne(rd, ts, i, node, j);
    OrLast(rd, ts, i, node, j, acc);
  }

  /** The first part, and what comes after it. */
  lemma PartIsFirst(iso: Dates, parts: seq<Sql>, word: string, ts: seq<Tok>, i: nat, k: nat)
    requires parts != [] && (word == "AND" || word == "OR") && k == i + |Joined(iso, parts, word)|
    requires At(ts, i, Joined(iso, parts, word)) && P.Symbol(ts, k, ")")
    ensures var j := i + |SqlToks(iso, parts[0])|;
            && At(ts, i, SqlToks(iso, parts[0])) && Follows(ts, j)
            && if |parts| == 1 then j == k
               else && j < |ts| && ts[j] == Word(word) && At(ts, j + 1, Joined(iso, parts[1..], word))
                    && k == j + 1 + |Joined(iso, parts[1..], word)|
  {
    if |parts| > 1 {
      var first, rest := SqlToks(iso, parts[0]), Joined(iso, parts[1..], word);
      JoinedOf(iso, parts, word);
      AtThree(ts, i, first, Word(word), rest);
    }
  }

  lemma JoinedOf(iso: Dates, parts: seq<Sql>, word: string)
    requires |parts| > 1
    ensures var first, rest := SqlToks(iso, parts[0]), Joined(iso, parts[1..], word); var all := Joined(iso, parts, word);
            all == first + ([Word(word)] + rest) && |all| == |first| + 1 + |rest|
  {
  }

  lemma AtThree(ts: seq<Tok>, i: nat, first: seq<Tok>, tok: Tok, rest: seq<Tok>)
    requires At(ts, i, first + ([tok] + rest))
    ensures At(ts, i, first) && i + |first| < |ts| && ts[i + |first|] == tok && At(ts, i + |first| + 1, rest)
  {
    AtBoth(ts, i, first, [tok] + rest);
    AtFirst(ts, i + |first|, tok, rest);
  }

  lemma AndNext(rd: P.Reader, ts: seq<Tok>, i: nat, node: Node, j: nat, acc: seq<Node>)
    requires i <= |ts| && P.Predicate(rd, ts, i) == Some((node, j)) && !P.Keyword(ts, i, "NOT")
    requires j < |ts| && ts[j] == Word("AND")
    ensures AndFrom(rd, ts, i, acc) == AndFrom(rd, ts, j + 1, acc + [node])
  {
    FollowsEnds(ts, j);
    AndMore(rd, ts, i, node, j, acc);
  }

  lemma AndEnd(rd: P.Reader, ts: seq<Tok>, i: nat, node: Node, j: nat, acc: seq<Node>)
    requires i <= |ts| && P.Predicate(rd, ts, i) == Some((node, j)) && !P.Keyword(ts, i, "NOT") && P.Symbol(ts, j, ")")
    ensures AndEndsAt(rd, ts, i, acc, [node], j)
  {
    FollowsEnds(ts, j);
    AndLast(rd, ts, i, node, j, acc);
  }

  predicate AllFit(schema: Schema, parts: seq<Sql>) {
    forall k :: 0 <= k < |parts| ==> Fit(schema, parts[k])
  }

  lemma FitHead(schema: Schema, parts: seq<Sql>)
    requires parts != [] && AllFit(schema, parts)
    ensures Fit(schema, parts[0]) && AllFit(schema, parts[1..])
  {
  }

  lemma AstsHead(parts: seq<Sql>)
    requires parts != []
    ensures Asts(parts) == [Ast(parts[0])] + Asts(parts[1..])
  {
  }

  lemma Regroup<T>(acc: seq<T>, first: T, rest: seq<T>, all: seq<T>)
    requires all == [first] + rest
    ensures acc + all == acc + [first] + rest
    ensures rest == [] ==> acc + all == acc + [first]
  {
  }

  /** From `i` on, the conjuncts `nodes` are read after those in `acc`, up to `k`. */
  predicate AndEndsAt(rd: P.Reader, ts: seq<Tok>, i: nat, acc: seq<Node>, nodes: seq<Node>, k: nat)
    requires i <= |ts|
  {
    acc + nodes != [] && AndFrom(rd, ts, i, acc) == Some((P.Conjoined(acc + nodes), k))
  }

  predicate OrEndsAt(rd: P.Reader, ts: seq<Tok>, i: nat, acc: seq<Node>, nodes: seq<Node>, k: nat)
    requires i <= |ts|
  {
    acc + nodes != [] && OrFrom(rd, ts, i, acc) == Some((P.Disjoined(acc + nodes), k))
  }

  lemma AndGrows(rd: P.Reader, ts: seq<Tok>, i: nat, j: nat, acc: seq<Node>, node: Node, rest: seq<Node>, all: seq<Node>, k: nat)
    requires i <= |ts| && P.Predicate(rd, ts, i) == Some((node, j)) && !P.Keyword(ts, i, "NOT") && j < |ts| && ts[j] == Word("AND")
    requires AndEndsAt(rd, ts, j + 1, acc + [node], rest, k) && all == [node] + rest
    ensures AndEndsAt(rd, ts, i, acc, all, k)
  {
    AndNext(rd, ts, i, node, j, acc);
    Regroup(acc, node, rest, all);
  }

  lemma OrGrows(rd: P.Reader, ts: seq<Tok>, i: nat, j: nat, acc: seq<Node>, node: Node, rest: seq<Node>, all: seq<Node>, k: nat)
    requires i <= |ts| && P.Predicate(rd, ts, i) == Some((node, j)) && !P.Keyword(ts, i, "NOT") && j < |ts| && ts[j] == Word("OR")
    requires OrEndsAt(rd, ts, j + 1, acc + [node], rest, k) && all == [node] + rest
    ensures OrEndsAt(rd, ts, i, acc, all, k)
  {
    OrNext(rd, ts, i, node, j, acc);
    Regroup(acc, node, rest, all);
  }

  ghost predicate ReadsTo(rd: P.Reader, ts: seq<Tok>, i: nat, node: Node, j: nat) {
    i <= |ts| && P.Predicate(rd, ts, i) == Some((node, j)) && !P.Keyword(ts, i, "NOT")
  }

  /** The first of the predicates is read up to `j`, and the word follows unless it is the last. */
  ghost predicate FirstRead(rd: P.Reader, ts: seq<Tok>, i: nat, nodes: seq<Node>, word: string, k: nat, j: nat)
    requires nodes != []
  {
    ReadsTo(rd, ts, i, nodes[0], j) && if |nodes| == 1 then j == k else j < |ts| && ts[j] == Word(word)
  }

  /** From `i` on, up to `k`, the predicates are read one after another, with the word between them. */
  ghost predicate ReadInTurn(rd: P.Reader, ts: seq<Tok>, i: nat, nodes: seq<Node>, word: string, k: nat)
    decreases |nodes|
  {
    && nodes != []
    && (exists j: nat ::
          FirstRead(rd, ts, i, nodes, word, k, j) && (|nodes| > 1 ==> ReadInTurn(rd, ts, j + 1, nodes[1..], word, k)))
  }

  lemma TurnGrows(rd: P.Reader, ts: seq<Tok>, i: nat, j: nat, node: Node, rest: seq<Node>, all: seq<Node>, word: string, k: nat)
    requires ReadsTo(rd, ts, i, node, j) && all == [node] + rest
    requires if rest == [] then j == k else j < |ts| && ts[j] == Word(word) && ReadInTurn(rd, ts, j + 1, rest, word, k)
    ensures ReadInTurn(rd, ts, i, all, word, k)
  {
    assert all[1..] == rest;
    assert FirstRead(rd, ts, i, all, word, k, j);
  }

  lemma LastConjunct(rd: P.Reader, ts: seq<Tok>, i: nat, acc: seq<Node>, nodes: seq<Node>, k: nat, j: nat)
    requires |nodes| == 1 && FirstRead(rd, ts, i, nodes, "AND", k, j) && P.Symbol(ts, k, ")")
    ensures AndEndsAt(rd, ts, i, acc, nodes, k)
  {
    assert nodes == [nodes[0]];
    AndEnd(rd, ts, i, nodes[0], j, acc);
  }

  lemma NextConjunct(rd: P.Reader, ts: seq<Tok>, i: nat, acc: seq<Node>, nodes: seq<Node>, k: nat, j: nat)
    requires |nodes| > 1 && FirstRead(rd, ts, i, nodes, "AND", k, j) && AndEndsAt(rd, ts, j + 1, acc + [nodes[0]], nodes[1..], k)
    ensures AndEndsAt(rd, ts, i, acc, nodes, k)
  {
    AndGrows(rd, ts, i, j, acc, nodes[0], nodes[1..], nodes, k);
  }

  lemma {:induction false} ConjunctsEnd(rd: P.Reader, ts: seq<Tok>, i: nat, acc: seq<Node>, nodes: seq<Node>, k: nat)
    requires i <= |ts| && ReadInTurn(rd, ts, i, nodes, "AND", k) && P.Symbol(ts, k, ")")
    ensures AndEndsAt(rd, ts, i, acc, nodes, k)
    decreases |nodes|
  {
    var j: nat :| FirstRead(rd, ts, i, nodes, "AND", k, j) && (|nodes| > 1 ==> ReadInTurn(rd, ts, j + 1, nodes[1..], "AND", k));
    if |nodes| == 1 {
      LastConjunct(rd, ts, i, acc, nodes, k, j);
    } else {
      ConjunctsEnd(rd, ts, j + 1, acc + [nodes[0]], nodes[1..], k);
      NextConjunct(rd, ts, i, acc, nodes, k, j);
    }
  }

  lemma LastDisjunct(rd: P.Reader, ts: seq<Tok>, i: nat, acc: seq<Node>, nodes: seq<Node>, k: nat, j: nat)
    requires |nodes| == 1 && FirstRead(rd, ts, i, nodes, "OR", k, j) && P.Symbol(ts, k, ")")
    ensures OrEndsAt(rd, ts, i, acc, nodes, k)
  {
    assert nodes == [nodes[0]];
    OrEnd(rd, ts, i, nodes[0], j, acc);
  }

  lemma NextDisjunct(rd: P.Reader, ts: seq<Tok>, i: nat, acc: seq<Node>, nodes: seq<Node>, k: nat, j: nat)
    requires |nodes| > 1 && FirstRead(rd, ts, i, nodes, "OR", k, j) && OrEndsAt(rd, ts, j + 1, acc + [nodes[0]], nodes[1..], k)
    ensures OrEndsAt(rd, ts, i, acc, nodes, k)
  {
    OrGrows(rd, ts, i, j, acc, nodes[0], nodes[1..], nodes, k);
  }

  lemma {:induction false} DisjunctsEnd(rd: P.Reader, ts: seq<Tok>, i: nat, acc: seq<Node>, nodes: seq<Node>, k: nat)
    requires i <= |ts| && ReadInTurn(rd, ts, i, nodes, "OR", k) && P.Symbol(ts, k, ")")
    ensures OrEndsAt(rd, ts, i, acc, nodes, k)
    decreases |nodes|
  {
    var j: nat :| FirstRead(rd, ts, i, nodes, "OR", k, j) && (|nodes| > 1 ==> ReadInTurn(rd, ts, j + 1, nodes[1..], "OR", k));
    if |nodes| == 1 {
      LastDisjunct(rd, ts, i, acc, nodes, k, j);
    } else {
      DisjunctsEnd(rd, ts, j + 1, acc + [nodes[0]], nodes[1..], k);
      NextDisjunct(rd, ts, i, acc, nodes, k, j);
    }
  }

  /** The parts of a conjunction or disjunction are read one after another. */
  lemma {:induction false} PartsRead(rd: P.Reader, iso: Dates, schema: Schema, parts: seq<Sql>, word: string, ts: seq<Tok>, i: nat, k: nat)
    requires ReadsDates(rd, iso) && parts != [] && AllFit(schema, parts) && k == i + |Joined(iso, parts, word)|
    requires (word == "AND" || word == "OR") && At(ts, i, Joined(iso, parts, word)) && P.Symbol(ts, k, ")")
    ensures ReadInTurn(rd, ts, i, Asts(parts), word, k)
    decreases parts, 0
  {
    var j := i + |SqlToks(iso, parts[0])|;
    FitHead(schema, parts);
    PartIsFirst(iso, parts, word, ts, i, k);
    SqlReads(rd, iso, schema, parts[0], ts, i);
    AstsHead(parts);
    if |parts| > 1 {
      PartsRead(rd, iso, schema, parts[1..], word, ts, j + 1, k);
    }
    TurnGrows(rd, ts, i, j, Ast(parts[0]), Asts(parts[1..]), Asts(parts), word, k);
  }

  lemma AndListIsOr(rd: P.Reader, ts: seq<Tok>, i: nat, node: Node, j: nat)
    requires i <= |ts| && AndFrom(rd, ts, i, []) == Some((node, j)) && P.Symbol(ts, j, ")")
    ensures P.OrExpr(rd, ts, i) == Some((node, j))
  {
    Starts(rd, ts, i);
    FollowsEnds(ts, j);
    OrLast(rd, ts, i, node, j, []);
    assert [] + [node] == [node];
  }

  lemma GroupOpens(iso: Dates, parts: seq<Sql>, word: string, ts: seq<Tok>, i: nat, k: nat)
    requires parts != [] && At(ts, i, Bracketed(Joined(iso, parts, word))) && k == i + 1 + |Joined(iso, parts, word)|
    ensures P.Symbol(ts, i, "(") && P.MatchingParen(ts, i) == k && P.Symbol(ts, k, ")") && At(ts, i + 1, Joined(iso, parts, word))
  {
    JoinedIsEven(iso, parts, word);
    Opened(ts, i, Joined(iso, parts, word));
  }

  lemma AllBetween(rd: P.Reader, ts: seq<Tok>, i: nat, k: nat, nodes: seq<Node>)
    requires P.Symbol(ts, i, "(") && P.MatchingParen(ts, i) == k && P.Symbol(ts, k, ")") && Follows(ts, k + 1)
    requires nodes != [] && AndEndsAt(rd, ts, i + 1, [], nodes, k)
    ensures P.Predicate(rd, ts, i) == Some((P.Conjoined(nodes), k + 1)) && !P.Keyword(ts, i, "NOT")
  {
    assert [] + nodes == nodes;
    AndListIsOr(rd, ts, i + 1, P.Conjoined(nodes), k);
    FollowsEnds(ts, k + 1);
    ParenthesisReads(rd, ts, i, k, P.Conjoined(nodes));
  }

  lemma AnyBetween(rd: P.Reader, ts: seq<Tok>, i: nat, k: nat, nodes: seq<Node>)
    requires P.Symbol(ts, i, "(") && P.MatchingParen(ts, i) == k && P.Symbol(ts, k, ")") && Follows(ts, k + 1)
    requires nodes != [] && OrEndsAt(rd, ts, i + 1, [], nodes, k)
    ensures P.Predicate(rd, ts, i) == Some((P.Disjoined(nodes), k + 1)) && !P.Keyword(ts, i, "NOT")
  {
    assert [] + nodes == nodes;
    Starts(rd, ts, i + 1);
    FollowsEnds(ts, k + 1);
    ParenthesisReads(rd, ts, i, k, P.Disjoined(nodes));
  }

  lemma {:induction false} AllReads(rd: P.Reader, iso: Dates, schema: Schema, parts: seq<Sql>, ts: seq<Tok>, i: nat, k: nat)
    requires ReadsDates(rd, iso) && parts != [] && AllFit(schema, parts) && k == i + 1 + |Joined(iso, parts, "AND")|
    requires At(ts, i, Bracketed(Joined(iso, parts, "AND"))) && Follows(ts, k + 1)
    ensures P.Predicate(rd, ts, i) == Some((P.Conjoined(Asts(parts)), k + 1)) && !P.Keyword(ts, i, "NOT")
    decreases parts, 1
  {
    GroupOpens(iso, parts, "AND", ts, i, k);
    PartsRead(rd, iso, schema, parts, "AND", ts, i + 1, k);
    ConjunctsEnd(rd, ts, i + 1, [], Asts(parts), k);
    AllBetween(rd, ts, i, k, Asts(parts));
  }

  lemma {:induction false} AnyReads(rd: P.Reader, iso: Dates, schema: Schema, parts: seq<Sql>, ts: seq<Tok>, i: nat, k: nat)
    requires ReadsDates(rd, iso) && parts != [] && AllFit(schema, parts) && k == i + 1 + |Joined(iso, parts, "OR")|
    requires At(ts, i, Bracketed(Joined(iso, parts, "OR"))) && Follows(ts, k + 1)
    ensures P.Predicate(rd, ts, i) == Some((P.Disjoined(Asts(parts)), k + 1)) && !P.Keyword(ts, i, "NOT")
    decreases parts, 1
  {
    GroupOpens(iso, parts, "OR", ts, i, k);
    PartsRead(rd, iso, schema, parts, "OR", ts, i + 1, k);
    DisjunctsEnd(rd, ts, i + 1, [], Asts(parts), k);
    AnyBetween(rd, ts, i, k, Asts(parts));
  }

  /** Through the parenthesis lookahead, printed SQL is read as its AST. */
  lemma {:induction false} SqlReads(rd: P.Reader, iso: Dates, schema: Schema, q: Sql, ts: seq<Tok>, i: nat)
    requires ReadsDates(rd, iso) && Fit(schema, q) && At(ts, i, SqlToks(iso, q)) && Follows(ts, i + |SqlToks(iso, q)|)
    ensures P.Predicate(rd, ts, i) == Some((Ast(q), i + |SqlToks(iso, q)|)) && !P.Keyword(ts, i, "NOT")
    decreases q, 2
  {
    match q
    case AllS(_) => AllSqlReads(rd, iso, schema, q, ts, i);
    case AnyS(_) => AnySqlReads(rd, iso, schema, q, ts, i);
    case NameS(_) => NameSqlReads(rd, iso, schema, q, ts, i);
    case CompareS(_, _, _) => CompareSqlReads(rd, iso, schema, q, ts, i);
    case NullS(_, _) => NullSqlReads(rd, iso, schema, q, ts, i);
    case InS(_, _) => InSqlReads(rd, iso, schema, q, ts, i);
  }

  lemma {:induction false} AllSqlReads(rd: P.Reader, iso: Dates, schema: Schema, q: Sql, ts: seq<Tok>, i: nat)
    requires q.AllS? && ReadsDates(rd, iso) && Fit(schema, q) && At(ts, i, SqlToks(iso, q)) && Follows(ts, i + |SqlToks(iso, q)|)
    ensures P.Predicate(rd, ts, i) == Some((Ast(q), i + |SqlToks(iso, q)|)) && !P.Keyword(ts, i, "NOT")
    decreases q, 1
  {
    AllReads(rd, iso, schema, q.parts, ts, i, i + 1 + |Joined(iso, q.parts, "AND")|);
  }

  lemma {:induction false} AnySqlReads(rd: P.Reader, iso: Dates, schema: Schema, q: Sql, ts: seq<Tok>, i: nat)
    requires q.AnyS? && ReadsDates(rd, iso) && Fit(schema, q) && At(ts, i, SqlToks(iso, q)) && Follows(ts, i + |SqlToks(iso, q)|)
    ensures P.Predicate(rd, ts, i) == Some((Ast(q), i + |SqlToks(iso, q)|)) && !P.Keyword(ts, i, "NOT")
    decreases q, 1
  {
    AnyReads(rd, iso, schema, q.parts, ts, i, i + 1 + |Joined(iso, q.parts, "OR")|);
  }

  lemma NameSqlReads(rd: P.Reader, iso: Dates, schema: Schema, q: Sql, ts: seq<Tok>, i: nat)
    requires q.NameS? && Fit(schema, q) && At(ts, i, SqlToks(iso, q)) && Follows(ts, i + |SqlToks(iso, q)|)
    ensures P.Predicate(rd, ts, i) == Some((Ast(q), i + |SqlToks(iso, q)|)) && !P.Keyword(ts, i, "NOT")
  {
    AtOne(ts, i, NameTok(q.name));
    FollowsEnds(ts, i + 1);
    NameThen(rd, q.name, ts, i);
  }

  lemma CompareSqlReads(rd: P.Reader, iso: Dates, schema: Schema, q: Sql, ts: seq<Tok>, i: nat)
    requires q.CompareS? && ReadsDates(rd, iso) && Fit(schema, q) && At(ts, i, SqlToks(iso, q)) && Follows(ts, i + |SqlToks(iso, q)|)
    ensures P.Predicate(rd, ts, i) == Some((Ast(q), i + |SqlToks(iso, q)|)) && !P.Keyword(ts, i, "NOT")
  {
    CompareWhole(rd, iso, schema[[q.name]], q.name, q.op, q.c, ts, i, i + 3 + |LitToks(iso, q.c)|);
  }

  lemma CompareFacts(name: string, op: CmpOp, lit: seq<Tok>, ts: seq<Tok>, i: nat, j: nat)
    requires At(ts, i, Bracketed(CompareInner(name, op, lit))) && Even(CompareInner(name, op, lit)) && j == i + 3 + |lit|
    ensures P.Symbol(ts, i, "(") && P.MatchingParen(ts, i) == j && P.Symbol(ts, j, ")")
    ensures i + 2 < |ts| && ts[i + 1] == NameTok(name) && ts[i + 2] == Op(OpText(op)) && At(ts, i + 3, lit)
  {
    Opened(ts, i, CompareInner(name, op, lit));
    CompareHead(name, op, lit, ts, i + 1);
  }

  lemma CompareWhole(rd: P.Reader, iso: Dates, t: Type, name: string, op: CmpOp, c: Constant, ts: seq<Tok>, i: nat, j: nat)
    requires ReadsDates(rd, iso) && IsIdent(name) && Renders(t, c) && j == i + 3 + |LitToks(iso, c)|
    requires At(ts, i, Bracketed(CompareInner(name, op, LitToks(iso, c)))) && Follows(ts, j + 1)
    ensures P.Predicate(rd, ts, i) == Some((Cmp(op, Col([name]), Lit(LitOf(c))), j + 1)) && !P.Keyword(ts, i, "NOT")
  {
    EvenFlat(CompareInner(name, op, LitToks(iso, c)));
    CompareFacts(name, op, LitToks(iso, c), ts, i, j);
    ConstantParses(rd, iso, t, c, ts, i + 3);
    CompareBetween(rd, name, op, Lit(LitOf(c)), ts, i, j);
  }

  lemma CompareBetween(rd: P.Reader, name: string, op: CmpOp, right: Operand, ts: seq<Tok>, i: nat, j: nat)
    requires P.Symbol(ts, i, "(") && P.MatchingParen(ts, i) == j && P.Symbol(ts, j, ")") && Follows(ts, j + 1)
    requires IsIdent(name) && i + 2 < |ts| && ts[i + 1] == NameTok(name) && ts[i + 2] == Op(OpText(op))
    requires P.ReadValue(rd, ts, i + 3) == Some((right, j))
    ensures P.Predicate(rd, ts, i) == Some((Cmp(op, Col([name]), right), j + 1)) && !P.Keyword(ts, i, "NOT")
  {
    CompareReads(rd, name, op, right, ts, i + 1, j);
    LeafBetween(rd, ts, i, j, Cmp(op, Col([name]), right));
  }

  lemma NullSqlReads(rd: P.Reader, iso: Dates, schema: Schema, q: Sql, ts: seq<Tok>, i: nat)
    requires q.NullS? && Fit(schema, q) && At(ts, i, SqlToks(iso, q)) && Follows(ts, i + |SqlToks(iso, q)|)
    ensures P.Predicate(rd, ts, i) == Some((Ast(q), i + |SqlToks(iso, q)|)) && !P.Keyword(ts, i, "NOT")
  {
    NullBetween(rd, q.name, q.negated, ts, i);
  }

  lemma NullBetween(rd: P.Reader, name: string, negated: bool, ts: seq<Tok>, i: nat)
    requires IsIdent(name) && At(ts, i, Bracketed(NullInner(name, negated))) && Follows(ts, i + 2 + |NullInner(name, negated)|)
    ensures var left := Col([name]);
            P.Predicate(rd, ts, i) == Some((if negated then IsNotNull(left) else IsNull(left), i + 2 + |NullInner(name, negated)|))
            && !P.Keyword(ts, i, "NOT")
  {
    var inner := NullInner(name, negated);
    EvenFlat(inner);
    Opened(ts, i, inner);
    NullReads(rd, name, negated, ts, i + 1);
    LeafBetween(rd, ts, i, i + 1 + |inner|, if negated then IsNotNull(Col([name])) else IsNull(Col([name])));
  }

  /** What an IN's tokens say, before they are read. */
  lemma InFacts(iso: Dates, name: string, items: seq<Constant>, ts: seq<Tok>, i: nat, j: nat)
    requires items != [] && j == i + 4 + |ListToks(iso, items)|
    requires At(ts, i, Bracketed(InInner(name, ListToks(iso, items))))
    ensures j + 1 < |ts| && P.Symbol(ts, i, "(") && P.MatchingParen(ts, i) == j + 1 && P.Symbol(ts, j + 1, ")")
    ensures ts[i + 1] == NameTok(name) && ts[i + 2] == Word("IN") && P.Symbol(ts, i + 3, "(") && P.Symbol(ts, j, ")")
    ensures At(ts, i + 4, ListToks(iso, items))
  {
    var list := ListToks(iso, items);
    InInnerIsEven(iso, name, items);
    Opened(ts, i, InInner(name, list));
    InHead(name, list, ts, i + 1);
    ListOpens(iso, items, ts, i + 3, j);
  }

  lemma InSqlReads(rd: P.Reader, iso: Dates, schema: Schema, q: Sql, ts: seq<Tok>, i: nat)
    requires q.InS? && ReadsDates(rd, iso) && Fit(schema, q) && At(ts, i, SqlToks(iso, q)) && Follows(ts, i + |SqlToks(iso, q)|)
    ensures P.Predicate(rd, ts, i) == Some((Ast(q), i + |SqlToks(iso, q)|)) && !P.Keyword(ts, i, "NOT")
  {
    InWhole(rd, iso, schema[[q.name]], q.name, q.items, ts, i, i + 4 + |ListToks(iso, q.items)|);
  }

  lemma InWhole(rd: P.Reader, iso: Dates, t: Type, name: string, items: seq<Constant>, ts: seq<Tok>, i: nat, j: nat)
    requires ReadsDates(rd, iso) && IsIdent(name) && items != [] && RenderAll(t, items) && j == i + 4 + |ListToks(iso, items)|
    requires At(ts, i, Bracketed(InInner(name, ListToks(iso, items)))) && Follows(ts, j + 2)
    ensures P.Predicate(rd, ts, i) == Some((In(Col([name]), LitsOf(items), false), j + 2)) && !P.Keyword(ts, i, "NOT")
  {
    InFacts(iso, name, items, ts, i, j);
    ListReads(rd, iso, t, items, ts, i + 4, [], j);
    NoDoubles(rd, items);
    InBetween(rd, name, LitsOf(items), ts, i, j);
  }

  lemma InBetween(rd: P.Reader, name: string, items: seq<Operand>, ts: seq<Tok>, i: nat, j: nat)
    requires P.Symbol(ts, i, "(") && P.MatchingParen(ts, i) == j + 1 && P.Symbol(ts, j + 1, ")") && Follows(ts, j + 2)
    requires IsIdent(name) && i + 3 < |ts| && ts[i + 1] == NameTok(name) && ts[i + 2] == Word("IN") && P.Symbol(ts, i + 3, "(")
    requires ListEndsAt(rd, ts, i + 4, [], items, j) && P.Symbol(ts, j, ")") && P.CommonType(rd, items) == items
    ensures P.Predicate(rd, ts, i) == Some((In(Col([name]), items, false), j + 2)) && !P.Keyword(ts, i, "NOT")
  {
    InReads(rd, name, items, ts, i + 1, j);
    LeafBetween(rd, ts, i, j + 1, In(Col([name]), items, false));
  }

  /** The text pushed down is a predicate this library's parser reads. */
  lemma PrintThenParse(rd: P.Reader, iso: Dates, schema: Schema, e: Expr)
    requires ReadsDates(rd, iso) && Translate(schema, e).Some?
    ensures P.Parse(rd, SqlText(iso, schema, e).value) == Some(Ast(Translate(schema, e).value))
  {
    var q := Translate(schema, e).value;
    var ts := SqlToks(iso, q);
    PrintedTextLexes(iso, schema, e);
    PiecesToks(iso, q);
    TranslationIsFit(schema, e);
    SqlReads(rd, iso, schema, q, ts, 0);
    FollowsEnds(ts, |ts|);
    AndOne(rd, ts, 0, Ast(q), |ts|);
    Starts(rd, ts, 0);
    OrLast(rd, ts, 0, Ast(q), |ts|, []);
    assert [] + [Ast(q)] == [Ast(q)];
  }

  // --------------------------------------------------------------------- meaning

  /** A column compared with the literal read compares as with the constant itself. */
  lemma LiteralIsConstant(env: Engine, op: CmpOp, v: Value, t: Type, c: Constant)
    requires Renders(t, c) && Typed(v, t)
    ensures CompareLiteral(env, op, v, t, LitOf(c)) == Compare(op, v, ConstantValue(c))
  {
    match c
    case IntC(i) => IntegerIsConstant(env, op, v, t, i);
    case DecC(negative, digits, exponent) => DecimalIsConstant(env, op, v, t, negative, digits, exponent);
    case _ =>
  }

  lemma IntegerIsConstant(env: Engine, op: CmpOp, v: Value, t: Type, i: int)
    requires t.IntType? && Fits(i, t.bits) && Typed(v, t)
    ensures CompareLiteral(env, op, v, t, P.IntegerLiteral(i)) == Compare(op, v, IntV(i))
  {
    assert (i as real).Floor == i;
  }

  lemma DecimalLiteralValue(env: Engine, op: CmpOp, v: Value, t: Type, r: real, l: Literal)
    requires t.DecimalType? && Typed(v, t) && (l == DecL(r) || (l.LongL? && l.i as real == r))
    ensures CompareLiteral(env, op, v, t, l) == Compare(op, v, DecV(r))
  {
  }

  lemma DecimalIsConstant(env: Engine, op: CmpOp, v: Value, t: Type, negative: bool, digits: seq<JavaNumber.Digit>, exponent: int)
    requires t.DecimalType? && Typed(v, t) && digits != []
    ensures CompareLiteral(env, op, v, t, DecimalLiteral(negative, digits, exponent))
         == Compare(op, v, DecV(JavaNumber.ValueOf(negative, digits, exponent)))
  {
    if exponent >= 0 {
      ZerosOnTheRight(digits, exponent);
    }
    DecimalLiteralValue(env, op, v, t, JavaNumber.ValueOf(negative, digits, exponent), DecimalLiteral(negative, digits, exponent));
  }

  lemma ZerosOnTheRight(digits: seq<JavaNumber.Digit>, n: nat)
    requires digits != []
    ensures JavaNumber.NatOf(WholePart(digits, n)) as real == JavaNumber.Shift(JavaNumber.NatOf(digits) as real, n)
  {
    var zeros := JavaNumber.Zeros(n);
    JavaNumber.NatIsShiftedFrac(digits + zeros);
    JavaNumber.NatIsShiftedFrac(digits);
    JavaNumber.FracOfBoth(digits, zeros);
    JavaNumber.FracOfZeros(n);
    JavaNumber.ShiftZero(0 - |digits|);
    JavaNumber.ShiftAdds(JavaNumber.Frac(digits), |digits|, n);
  }

  lemma {:induction false} FlattenedAnd(env: Engine, schema: Schema, parts: seq<Node>, row: Row)
    requires forall i :: 0 <= i < |parts| ==> Eval(env, schema, parts[i], row) == True
    ensures forall i :: 0 <= i < |P.FlattenAnd(parts)| ==> Eval(env, schema, P.FlattenAnd(parts)[i], row) == True
  {
    if parts != [] {
      var last := parts[|parts| - 1];
      FlattenedAnd(env, schema, parts[..|parts| - 1], row);
      if last.AndN? {
        assert Eval(env, schema, last, row) == All(Predicates.Truths(env, schema, last.args, row)) == True;
      }
    }
  }

  predicate AllTrue(env: Engine, schema: Schema, nodes: seq<Node>, row: Row) {
    forall i :: 0 <= i < |nodes| ==> Eval(env, schema, nodes[i], row) == True
  }

  lemma ConjoinedIsTrue(env: Engine, schema: Schema, parts: seq<Node>, row: Row)
    requires parts != [] && AllTrue(env, schema, parts, row)
    ensures Eval(env, schema, P.Conjoined(parts), row) == True
  {
    FlattenedAnd(env, schema, parts, row);
  }

  lemma {:induction false} FlattenedOr(env: Engine, schema: Schema, parts: seq<Node>, row: Row, k: nat)
    requires k < |parts| && Eval(env, schema, parts[k], row) == True
    ensures exists i :: 0 <= i < |P.FlattenOr(parts)| && Eval(env, schema, P.FlattenOr(parts)[i], row) == True
  {
    var front := parts[..|parts| - 1];
    var last := parts[|parts| - 1];
    var n := |P.FlattenOr(front)|;
    if k < |parts| - 1 {
      FlattenedOr(env, schema, front, row, k);
      var i :| 0 <= i < n && Eval(env, schema, P.FlattenOr(front)[i], row) == True;
      assert P.FlattenOr(parts)[i] == P.FlattenOr(front)[i];
    } else if last.OrN? {
      var ts := Predicates.Truths(env, schema, last.args, row);
      assert Any(ts) == True && True in ts;
      var i :| 0 <= i < |ts| && ts[i] == True;
      assert P.FlattenOr(parts)[n + i] == last.args[i];
    } else {
      assert P.FlattenOr(parts)[n] == last;
    }
  }

  lemma DisjoinedIsTrue(env: Engine, schema: Schema, parts: seq<Node>, row: Row, k: nat)
    requires k < |parts| && Eval(env, schema, parts[k], row) == True
    ensures Eval(env, schema, P.Disjoined(parts), row) == True
  {
    if |parts| > 1 {
      FlattenedOr(env, schema, parts, row, k);
      var flat := P.FlattenOr(parts);
      var i :| 0 <= i < |flat| && Eval(env, schema, flat[i], row) == True;
      assert Predicates.Truths(env, schema, flat, row)[i] == True;
    }
  }

  /** What holds of every conjunct that translates, where all conjuncts are kept. */
  lemma {:induction false} ConjunctsHold(env: Engine, arrow: Arrow, schema: Schema, args: seq<Expr>, row: Row)
    requires TypedRow(schema, row) && forall i :: 0 <= i < |args| ==> TruthOf(arrow, schema, args[i], row) == True
    ensures AllTrue(env, schema, Asts(TranslateSome(schema, args)), row)
    decreases args, 0
  {
    if args != [] {
      var rest := TranslateSome(schema, args[1..]);
      ConjunctsHold(env, arrow, schema, args[1..], row);
      if Translate(schema, args[0]).Some? {
        KeepsWhatItKeeps(env, arrow, schema, args[0], row);
        var parts := TranslateSome(schema, args);
        assert parts[1..] == rest && Asts(parts) == [Ast(parts[0])] + Asts(rest);
      }
    }
  }

  /** The disjunct that is TRUE is among those printed. */
  lemma {:induction false} SomeDisjunctHolds(env: Engine, arrow: Arrow, schema: Schema, args: seq<Expr>, row: Row, k: nat)
    requires TypedRow(schema, row) && TranslateAll(schema, args).Some? && k < |args| && TruthOf(arrow, schema, args[k], row) == True
    ensures |TranslateAll(schema, args).value| == |args| && Eval(env, schema, Asts(TranslateAll(schema, args).value)[k], row) == True
    decreases args, 0
  {
    AllTranslate(schema, args);
    if k == 0 {
      KeepsWhatItKeeps(env, arrow, schema, args[0], row);
    } else {
      SomeDisjunctHolds(env, arrow, schema, args[1..], row, k - 1);
    }
  }

  lemma {:induction false} AllTranslate(schema: Schema, args: seq<Expr>)
    requires TranslateAll(schema, args).Some?
    ensures |TranslateAll(schema, args).value| == |args|
    decreases |args|
  {
    if args != [] {
      AllTranslate(schema, args[1..]);
    }
  }

  lemma CompareHolds(env: Engine, schema: Schema, name: string, op: CmpOp, c: Constant, row: Row)
    requires TypedRow(schema, row) && IsColumn(schema, name) && Renders(schema[[name]], c)
    ensures Eval(env, schema, Ast(CompareS(name, op, c)), row) == Compare(op, Lookup(row, [name]), ConstantValue(c))
  {
    LiteralIsConstant(env, op, row[[name]], schema[[name]], c);
  }

  lemma InHolds(env: Engine, schema: Schema, name: string, items: seq<Constant>, row: Row, k: nat)
    requires TypedRow(schema, row) && IsColumn(schema, name) && k < |items| && Renders(schema[[name]], items[k])
    requires Compare(Eq, Lookup(row, [name]), ConstantValue(items[k])) == True
    ensures Eval(env, schema, In(Col([name]), LitsOf(items), false), row) == True
  {
    LiteralIsConstant(env, Eq, row[[name]], schema[[name]], items[k]);
    assert Equalities(env, schema, Col([name]), LitsOf(items), row)[k] == True;
  }

  /**
   * No stronger than the expression: on every row it keeps, NULLs and NaN included, the
   * predicate that its text is read as is TRUE.
   */
  lemma {:induction false} KeepsWhatItKeeps(env: Engine, arrow: Arrow, schema: Schema, e: Expr, row: Row)
    requires TypedRow(schema, row) && Translate(schema, e).Some? && TruthOf(arrow, schema, e, row) == True
    ensures Eval(env, schema, Ast(Translate(schema, e).value), row) == True
    decreases e, 1
  {
    match e
    case FieldE(name) =>
    case AndE(kleene, args) => AndHolds(env, arrow, schema, args, row);
    case OrE(kleene, args) => OrHolds(env, arrow, schema, args, row);
    case CompareE(op, left, right) =>
      if left.FieldE? && right.LitE? {
        CompareHolds(env, schema, left.name, op, right.c, row);
      } else {
        CompareHolds(env, schema, right.name, Flip(op), left.c, row);
        FlipHolds(op, ConstantValue(left.c), Lookup(row, [right.name]));
      }
    case IsValidE(arg) =>
    case IsNullE(arg, nanIsNull) =>
      assert Typed(row[[arg.name]], schema[[arg.name]]);
    case IsInE(arg, items) =>
      var k :| 0 <= k < |items| && Compare(Eq, Lookup(row, [arg.name]), ConstantValue(items[k])) == True;
      InHolds(env, schema, arg.name, items, row, k);
  }

  lemma {:induction false} AndHolds(env: Engine, arrow: Arrow, schema: Schema, args: seq<Expr>, row: Row)
    requires TypedRow(schema, row) && Conjoin(TranslateSome(schema, args)).Some?
    requires All(LazyFilter.Truths(arrow, schema, args, row)) == True
    ensures Eval(env, schema, Ast(Conjoin(TranslateSome(schema, args)).value), row) == True
    decreases args, 1
  {
    AllKept(arrow, schema, args, row);
    ConjunctsHold(env, arrow, schema, args, row);
    var parts := TranslateSome(schema, args);
    assert Asts(parts)[0] == Ast(parts[0]);
    ConjoinedIsTrue(env, schema, Asts(parts), row);
  }

  lemma {:induction false} OrHolds(env: Engine, arrow: Arrow, schema: Schema, args: seq<Expr>, row: Row)
    requires TypedRow(schema, row) && TranslateAll(schema, args).Some?
    requires Any(LazyFilter.Truths(arrow, schema, args, row)) == True
    ensures TranslateAll(schema, args).value != []
    ensures Eval(env, schema, Ast(AnyS(TranslateAll(schema, args).value)), row) == True
    decreases args, 1
  {
    var k := OneKept(arrow, schema, args, row);
    SomeDisjunctHolds(env, arrow, schema, args, row, k);
    DisjoinedIsTrue(env, schema, Asts(TranslateAll(schema, args).value), row, k);
  }

  lemma AllKept(arrow: Arrow, schema: Schema, args: seq<Expr>, row: Row)
    requires All(LazyFilter.Truths(arrow, schema, args, row)) == True
    ensures forall i :: 0 <= i < |args| ==> TruthOf(arrow, schema, args[i], row) == True
  {
  }

  lemma OneKept(arrow: Arrow, schema: Schema, args: seq<Expr>, row: Row) returns (k: nat)
    requires Any(LazyFilter.Truths(arrow, schema, args, row)) == True
    ensures k < |args| && TruthOf(arrow, schema, args[k], row) == True
  {
    var ts := LazyFilter.Truths(arrow, schema, args, row);
    assert True in ts;
    var i :| 0 <= i < |ts| && ts[i] == True;
    k := i;
  }

  /** The whole path: printed, parsed and evaluated, the filter keeps every row the expression keeps. */
  lemma PushedFilterLosesNoRow(rd: P.Reader, iso: Dates, env: Engine, arrow: Arrow, schema: Schema, e: Expr, row: Row)
    requires ReadsDates(rd, iso) && TypedRow(schema, row) && SqlText(iso, schema, e).Some?
    requires TruthOf(arrow, schema, e, row) == True
    ensures var node := P.Parse(rd, SqlText(iso, schema, e).value);
            node.Some? && Eval(env, schema, node.value, row) == True
  {
    PrintThenParse(rd, iso, schema, e);
    KeepsWhatItKeeps(env, arrow, schema, e, row);
  }
}
