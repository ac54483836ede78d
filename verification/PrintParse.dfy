/** The tokens of the printed text, and the predicate the parser is to read from them. */
module PrintParse {
  import opened Wrappers
  import opened Kleene
  import opened Values
  import opened Predicates
  import opened SqlLexer
  import P = SqlParser
  import opened LazyFilter
  import opened PrintLex
  import JavaNumber

  // --------------------------------------------------------------- the AST read

  /** The literal a constant is read back as. */
  function LitOf(c: Constant): Literal {
    match c
    case IntC(i) => P.IntegerLiteral(i)
    case StrC(s) => StrL(s)
    case BoolC(b) => BoolL(b)
    case DateC(d) => DateL(d)
    case DecC(negative, digits, exponent) => if digits == [] then NullL else DecimalLiteral(negative, digits, exponent)
    case Untranslatable(_) => NullL
  }

  function DecimalLiteral(negative: bool, digits: seq<JavaNumber.Digit>, exponent: int): Literal
    requires digits != []
  {
    if exponent >= 0 then P.IntegerLiteral(SignedNat(negative, WholePart(digits, exponent)))
    else DecL(JavaNumber.ValueOf(negative, digits, exponent))
  }

  function SignedNat(negative: bool, ds: seq<JavaNumber.Digit>): int {
    if negative then 0 - JavaNumber.NatOf(ds) else JavaNumber.NatOf(ds)
  }

  function LitsOf(items: seq<Constant>): (os: seq<Operand>)
    ensures |os| == |items| && forall i :: 0 <= i < |items| ==> os[i] == Lit(LitOf(items[i]))
  {
    if items == [] then [] else [Lit(LitOf(items[0]))] + LitsOf(items[1..])
  }

  function Asts(parts: seq<Sql>): (nodes: seq<Node>)
    ensures |nodes| == |parts|
    decreases parts, 0
  {
    if parts == [] then [] else [Ast(parts[0])] + Asts(parts[1..])
  }

  /** The predicate read from the text. */
  function Ast(q: Sql): Node
    decreases q, 1
  {
    match q
    case NameS(name) => BoolColumn([name])
    case CompareS(name, op, c) => Cmp(op, Col([name]), Lit(LitOf(c)))
    case NullS(name, negated) => if negated then IsNotNull(Col([name])) else IsNull(Col([name]))
    case InS(name, items) => In(Col([name]), LitsOf(items), false)
    case AllS(parts) => if parts == [] then Constant(true) else P.Conjoined(Asts(parts))
    case AnyS(parts) => if parts == [] then Constant(false) else P.Disjoined(Asts(parts))
  }

  // ------------------------------------------------------------------- its tokens

  const LP: Tok := Op("(")
  const RP: Tok := Op(")")

  function LitToks(iso: Dates, c: Constant): seq<Tok> {
    match c
    case IntC(i) => [Number(JavaNumber.IntText(i))]
    case StrC(s) => [StringP(s).tok]
    case BoolC(b) => [Word(if b then "TRUE" else "FALSE")]
    case DateC(d) => [Word("DATE"), Str([QUOTE] + iso(d) + [QUOTE])]
    case DecC(negative, digits, exponent) => if digits == [] then [] else [Number(DecimalText(negative, digits, exponent))]
    case Untranslatable(_) => []
  }

  function ListToks(iso: Dates, items: seq<Constant>): seq<Tok>
    requires items != []
  {
    if |items| == 1 then LitToks(iso, items[0])
    else LitToks(iso, items[0]) + ([Op(",")] + ListToks(iso, items[1..]))
  }

  function Joined(iso: Dates, parts: seq<Sql>, word: string): seq<Tok>
    requires parts != []
    decreases parts, 0
  {
    if |parts| == 1 then SqlToks(iso, parts[0])
    else SqlToks(iso, parts[0]) + ([Word(word)] + Joined(iso, parts[1..], word))
  }

  function NameTok(name: string): Tok {
    Quoted(['`'] + name + ['`'])
  }

  function NullInner(name: string, negated: bool): seq<Tok> {
    [NameTok(name)] + ([Word("IS")] + if negated then [Word("NOT")] + [Word("NULL")] else [Word("NULL")])
  }

  function CompareInner(name: string, op: CmpOp, lit: seq<Tok>): seq<Tok> {
    [NameTok(name)] + ([Op(OpText(op))] + lit)
  }

  function InInner(name: string, list: seq<Tok>): seq<Tok> {
    [NameTok(name)] + ([Word("IN")] + Bracketed(list))
  }

  function Bracketed(inner: seq<Tok>): (toks: seq<Tok>)
    ensures |toks| == |inner| + 2
  {
    [LP] + (inner + [RP])
  }

  function SqlToks(iso: Dates, q: Sql): seq<Tok>
    decreases q, 1
  {
    match q
    case NameS(name) => [NameTok(name)]
    case CompareS(name, op, c) => Bracketed(CompareInner(name, op, LitToks(iso, c)))
    case NullS(name, negated) => Bracketed(NullInner(name, negated))
    case InS(name, items) => if items == [] then [] else Bracketed(InInner(name, ListToks(iso, items)))
    case AllS(parts) => if parts == [] then [] else Bracketed(Joined(iso, parts, "AND"))
    case AnyS(parts) => if parts == [] then [] else Bracketed(Joined(iso, parts, "OR"))
  }

  // ------------------------------------------------------- pieces to their tokens

  lemma NoToks(ps: seq<Piece>)
    ensures Toks([Space] + ps) == Toks(ps)
  {
    ToksCons(Space, ps);
    assert [] + Toks(ps) == Toks(ps);
  }

  lemma Inside(inner: seq<Piece>)
    ensures Toks([OPEN] + inner + [CLOSE]) == Bracketed(Toks(inner))
  {
    assert [OPEN] + inner + [CLOSE] == [OPEN] + (inner + [CLOSE]);
    ToksCons(OPEN, inner + [CLOSE]);
    SpellBoth(inner, [CLOSE]);
    assert [CLOSE][1..] == [];
    assert Toks([CLOSE]) == [RP];
  }

  lemma ConstantToks(iso: Dates, c: Constant)
    ensures Toks(ConstantPieces(iso, c)) == LitToks(iso, c)
  {
    var ps := ConstantPieces(iso, c);
    if c.DateC? {
      var str := [ps[2]];
      assert ps == [ps[0]] + ([Space] + str);
      ToksCons(ps[0], [Space] + str);
      NoToks(str);
      assert str[1..] == [];
      assert Toks(str) == [ps[2].tok];
    } else if ps != [] {
      assert ps[1..] == [];
    }
  }

  /** Five pieces' worth of what `p, Space, q, Space, rest` spells. */
  lemma SpacedToks(p: Piece, q: Piece, rest: seq<Piece>)
    requires p.T? && q.T?
    ensures Toks([p] + ([Space] + ([q] + ([Space] + rest)))) == [p.tok] + ([q.tok] + Toks(rest))
  {
    ToksCons(p, [Space] + ([q] + ([Space] + rest)));
    NoToks([q] + ([Space] + rest));
    ToksCons(q, [Space] + rest);
    NoToks(rest);
  }

  lemma WordThen(word: string, rest: seq<Piece>)
    ensures Toks([Space] + ([WordP(word)] + ([Space] + rest))) == [Word(word)] + Toks(rest)
  {
    NoToks([WordP(word)] + ([Space] + rest));
    ToksCons(WordP(word), [Space] + rest);
    NoToks(rest);
  }

  lemma CommaThen(rest: seq<Piece>)
    ensures Toks([COMMA] + ([Space] + rest)) == [Op(",")] + Toks(rest)
  {
    ToksCons(COMMA, [Space] + rest);
    NoToks(rest);
  }

  lemma Nested<T>(a: seq<T>, x: T, y: T, z: T, b: seq<T>)
    ensures a + [x, y, z] + b == a + ([x] + ([y] + ([z] + b)))
    ensures a + [x, y] + b == a + ([x] + ([y] + b))
  {
  }

  lemma Framed<T>(o: T, p: T, s: T, q: T, rest: seq<T>, c: T)
    ensures [o, p, s, q, s] + rest + [c] == [o] + ([p] + ([s] + ([q] + ([s] + rest)))) + [c]
  {
  }

  lemma CompareToks(iso: Dates, name: string, op: CmpOp, c: Constant)
    ensures Toks(Pieces(iso, CompareS(name, op, c))) == SqlToks(iso, CompareS(name, op, c))
  {
    var lit := ConstantPieces(iso, c);
    Framed(OPEN, NameP(name), Space, T(Op(OpText(op))), lit, CLOSE);
    Inside([NameP(name)] + ([Space] + ([T(Op(OpText(op)))] + ([Space] + lit))));
    SpacedToks(NameP(name), T(Op(OpText(op))), lit);
    ConstantToks(iso, c);
  }

  lemma NullToks(iso: Dates, name: string, negated: bool)
    ensures Toks(Pieces(iso, NullS(name, negated))) == SqlToks(iso, NullS(name, negated))
  {
    var last := [WordP("NULL")];
    assert last[1..] == [];
    assert Toks(last) == [Word("NULL")];
    var b := if negated then [WordP("NOT")] + ([Space] + last) else last;
    if negated {
      ToksCons(WordP("NOT"), [Space] + last);
      NoToks(last);
    }
    var inner := [NameP(name)] + ([Space] + ([WordP("IS")] + ([Space] + b)));
    assert Pieces(iso, NullS(name, negated)) == [OPEN] + inner + [CLOSE];
    Inside(inner);
    ToksCons(NameP(name), [Space] + ([WordP("IS")] + ([Space] + b)));
    NoToks([WordP("IS")] + ([Space] + b));
    ToksCons(WordP("IS"), [Space] + b);
    NoToks(b);
  }

  lemma {:induction false} ListedToks(iso: Dates, items: seq<Constant>)
    requires items != []
    ensures Toks(Listed(iso, items)) == ListToks(iso, items)
  {
    ConstantToks(iso, items[0]);
    if |items| > 1 {
      ListedToks(iso, items[1..]);
      MoreListedToks(ConstantPieces(iso, items[0]), Listed(iso, items[1..]));
    }
  }

  lemma MoreListedToks(first: seq<Piece>, rest: seq<Piece>)
    ensures Toks(first + [COMMA, Space] + rest) == Toks(first) + ([Op(",")] + Toks(rest))
  {
    Nested(first, COMMA, Space, Space, rest);
    SpellBoth(first, [COMMA] + ([Space] + rest));
    CommaThen(rest);
  }

  lemma MoreJoinedToks(first: seq<Piece>, word: string, rest: seq<Piece>)
    ensures Toks(first + [Space, WordP(word), Space] + rest) == Toks(first) + ([Word(word)] + Toks(rest))
  {
    Nested(first, Space, WordP(word), Space, rest);
    SpellBoth(first, [Space] + ([WordP(word)] + ([Space] + rest)));
    WordThen(word, rest);
  }

  lemma InFramed(name: string, list: seq<Piece>)
    ensures [OPEN, NameP(name), Space, WordP("IN"), Space, OPEN] + list + [CLOSE, CLOSE]
         == [OPEN] + ([NameP(name)] + ([Space] + ([WordP("IN")] + ([Space] + ([OPEN] + list + [CLOSE]))))) + [CLOSE]
  {
  }

  lemma InToks(iso: Dates, name: string, items: seq<Constant>)
    requires items != []
    ensures Toks(Pieces(iso, InS(name, items))) == SqlToks(iso, InS(name, items))
  {
    var inside := [OPEN] + Listed(iso, items) + [CLOSE];
    InFramed(name, Listed(iso, items));
    Inside([NameP(name)] + ([Space] + ([WordP("IN")] + ([Space] + inside))));
    SpacedToks(NameP(name), WordP("IN"), inside);
    Inside(Listed(iso, items));
    ListedToks(iso, items);
  }

  lemma {:induction false} JoinedToks(iso: Dates, parts: seq<Sql>, word: string)
    requires parts != []
    ensures Toks(Separated(iso, parts, word)) == Joined(iso, parts, word)
    decreases parts, 0
  {
    PiecesToks(iso, parts[0]);
    if |parts| > 1 {
      JoinedToks(iso, parts[1..], word);
      MoreJoinedToks(Pieces(iso, parts[0]), word, Separated(iso, parts[1..], word));
    }
  }

  /** The tokens of the pieces spelled. */
  lemma {:induction false} PiecesToks(iso: Dates, q: Sql)
    ensures Toks(Pieces(iso, q)) == SqlToks(iso, q)
    decreases q, 1
  {
    match q
    case NameS(name) => assert [NameP(name)][1..] == [];
    case CompareS(name, op, c) => CompareToks(iso, name, op, c);
    case NullS(name, negated) => NullToks(iso, name, negated);
    case InS(name, items) =>
      if items != [] {
        InToks(iso, name, items);
      }
    case AllS(parts) =>
      if parts != [] {
        JoinedToks(iso, parts, "AND");
        Inside(Separated(iso, parts, "AND"));
      }
    case AnyS(parts) =>
      if parts != [] {
        JoinedToks(iso, parts, "OR");
        Inside(Separated(iso, parts, "OR"));
      }
  }

  // -------------------------------------------------------------------- numbers

  predicate NumberChar(c: char) {
    c == '-' || c == '.' || IsDigit(c)
  }

  lemma PlainNumber(rd: P.Reader, t: string)
    requires t != [] && IsDigit(t[|t| - 1]) && forall i :: 0 <= i < |t| ==> NumberChar(t[i])
    ensures P.NumberLiteral(rd, t) == Some(if P.HasChar(t, '.') then DecL(P.DecimalOf(t)) else P.IntegerLiteral(P.WholeOf(t)))
  {
    assert !P.HasExponent(t);
  }

  lemma SignOff(negative: bool, body: string)
    requires body != [] && IsDigit(body[0])
    ensures var t := (if negative then ['-'] else []) + body; P.Unsigned(t) == body && P.Negative(t) == negative
  {
    if negative {
      assert (['-'] + body)[1..] == body;
    } else {
      assert [] + body == body;
    }
  }

  lemma WholeShape(negative: bool, ds: seq<JavaNumber.Digit>)
    requires ds != []
    ensures var t := (if negative then ['-'] else []) + JavaNumber.Text(ds);
            t != [] && IsDigit(t[|t| - 1]) && (forall i :: 0 <= i < |t| ==> NumberChar(t[i])) && !P.HasChar(t, '.')
    ensures IsDigit(JavaNumber.Text(ds)[0])
  {
    var t := (if negative then ['-'] else []) + JavaNumber.Text(ds);
    assert t[|t| - 1] == JavaNumber.Text(ds)[|ds| - 1];
  }

  lemma WholeValue(negative: bool, ds: seq<JavaNumber.Digit>, t: string)
    requires P.Unsigned(t) == JavaNumber.Text(ds) && P.Negative(t) == negative
    ensures P.WholeOf(t) == SignedNat(negative, ds)
  {
    JavaNumber.TextReads(ds);
  }

  lemma WholeReads(rd: P.Reader, negative: bool, ds: seq<JavaNumber.Digit>)
    requires ds != []
    ensures P.NumberLiteral(rd, (if negative then ['-'] else []) + JavaNumber.Text(ds)) == Some(P.IntegerLiteral(SignedNat(negative, ds)))
  {
    var t := (if negative then ['-'] else []) + JavaNumber.Text(ds);
    WholeShape(negative, ds);
    SignOff(negative, JavaNumber.Text(ds));
    PlainNumber(rd, t);
    WholeValue(negative, ds, t);
  }

  lemma PointedShape(negative: bool, w: seq<JavaNumber.Digit>, f: seq<JavaNumber.Digit>)
    requires w != [] && f != []
    ensures var t := (if negative then ['-'] else []) + JavaNumber.Pointed(w, f);
            t != [] && IsDigit(t[|t| - 1]) && (forall i :: 0 <= i < |t| ==> NumberChar(t[i])) && P.HasChar(t, '.')
    ensures IsDigit(JavaNumber.Pointed(w, f)[0])
  {
    var t := (if negative then ['-'] else []) + JavaNumber.Pointed(w, f);
    assert t[|t| - |f| - 1] == '.';
    assert t[|t| - 1] == JavaNumber.Text(f)[|f| - 1];
    assert JavaNumber.Pointed(w, f)[0] == JavaNumber.Text(w)[0];
  }

  lemma PointedReads(rd: P.Reader, negative: bool, w: seq<JavaNumber.Digit>, f: seq<JavaNumber.Digit>)
    requires w != [] && f != []
    ensures var t := (if negative then ['-'] else []) + JavaNumber.Pointed(w, f);
            P.NumberLiteral(rd, t) == Some(DecL(JavaNumber.Signed(negative, JavaNumber.NatOf(w) as real + JavaNumber.Frac(f))))
  {
    var t := (if negative then ['-'] else []) + JavaNumber.Pointed(w, f);
    PointedShape(negative, w, f);
    SignOff(negative, JavaNumber.Pointed(w, f));
    PlainNumber(rd, t);
    DecimalReads(negative, w, f, t);
  }

  lemma DecimalReads(negative: bool, w: seq<JavaNumber.Digit>, f: seq<JavaNumber.Digit>, t: string)
    requires P.Unsigned(t) == JavaNumber.Pointed(w, f) && P.Negative(t) == negative && w != [] && f != []
    ensures P.DecimalOf(t) == JavaNumber.Signed(negative, JavaNumber.NatOf(w) as real + JavaNumber.Frac(f))
  {
    JavaNumber.TextReads(w);
    JavaNumber.TextReads(f);
    JavaNumber.IndexAfter(JavaNumber.Text(w), '.', JavaNumber.Text(f));
    JavaNumber.SlicesAround(JavaNumber.Text(w), '.', JavaNumber.Text(f));
  }

  lemma IntReads(rd: P.Reader, i: int)
    ensures P.NumberLiteral(rd, JavaNumber.IntText(i)) == Some(P.IntegerLiteral(i))
  {
    var n := if i < 0 then 0 - i else i;
    JavaNumber.NatReads(n);
    WholeReads(rd, i < 0, JavaNumber.DigitsOfNat(n));
    assert [] + JavaNumber.Text(JavaNumber.DigitsOfNat(n)) == JavaNumber.Text(JavaNumber.DigitsOfNat(n));
  }

  lemma DecimalSplits(digits: seq<JavaNumber.Digit>, exponent: int)
    requires digits != [] && exponent < 0
    ensures JavaNumber.NatOf(WholePart(digits, exponent)) as real + JavaNumber.Frac(FractionPart(digits, exponent))
         == JavaNumber.Shift(JavaNumber.NatOf(digits) as real, exponent)
  {
    var point := |digits| + exponent;
    JavaNumber.NatIsShiftedFrac(digits);
    JavaNumber.ShiftAdds(JavaNumber.Frac(digits), |digits|, exponent);
    if point > 0 {
      assert digits[..point] + digits[point..] == digits;
      JavaNumber.CutAt(digits[..point], digits[point..]);
    } else {
      JavaNumber.ZerosShift(digits, 0 - point);
      JavaNumber.OneDigit(0);
    }
  }

  lemma PointedConstantReads(rd: P.Reader, negative: bool, digits: seq<JavaNumber.Digit>, exponent: int)
    requires digits != [] && exponent < 0
    ensures P.NumberLiteral(rd, DecimalText(negative, digits, exponent)) == Some(DecimalLiteral(negative, digits, exponent))
  {
    DecimalSplits(digits, exponent);
    PointedValueReads(rd, negative, WholePart(digits, exponent), FractionPart(digits, exponent),
                      JavaNumber.Shift(JavaNumber.NatOf(digits) as real, exponent));
  }

  lemma PointedValueReads(rd: P.Reader, negative: bool, w: seq<JavaNumber.Digit>, f: seq<JavaNumber.Digit>, value: real)
    requires w != [] && f != [] && JavaNumber.NatOf(w) as real + JavaNumber.Frac(f) == value
    ensures P.NumberLiteral(rd, (if negative then ['-'] else []) + JavaNumber.Pointed(w, f)) == Some(DecL(JavaNumber.Signed(negative, value)))
  {
    PointedReads(rd, negative, w, f);
  }

  lemma WholeConstantReads(rd: P.Reader, negative: bool, digits: seq<JavaNumber.Digit>, exponent: int)
    requires digits != [] && exponent >= 0
    ensures P.NumberLiteral(rd, DecimalText(negative, digits, exponent)) == Some(DecimalLiteral(negative, digits, exponent))
  {
    WholeReads(rd, negative, WholePart(digits, exponent));
  }

  lemma DecimalConstantReads(rd: P.Reader, negative: bool, digits: seq<JavaNumber.Digit>, exponent: int)
    requires digits != []
    ensures P.NumberLiteral(rd, DecimalText(negative, digits, exponent)) == Some(DecimalLiteral(negative, digits, exponent))
  {
    if exponent >= 0 {
      WholeConstantReads(rd, negative, digits, exponent);
    } else {
      PointedConstantReads(rd, negative, digits, exponent);
    }
  }

  // ----------------------------------------------------------------- parentheses

  /** The depth after scanning `toks` from depth `d`, or None if that closes it. */
  function Depth(toks: seq<Tok>, d: nat): Option<nat>
    requires d > 0
    ensures Depth(toks, d).Some? ==> Depth(toks, d).value > 0
    decreases |toks|
  {
    if toks == [] then Some(d)
    else if toks[0] == Op("(") then Depth(toks[1..], d + 1)
    else if toks[0] == Op(")") then (if d == 1 then None else Depth(toks[1..], d - 1))
    else Depth(toks[1..], d)
  }

  /** Parentheses open and close within `toks`. */
  ghost predicate Even(toks: seq<Tok>) {
    forall d: nat :: d > 0 ==> Depth(toks, d) == Some(d)
  }

  lemma {:induction false} DepthBoth(a: seq<Tok>, b: seq<Tok>, d: nat)
    requires d > 0 && Depth(a, d).Some?
    ensures Depth(a + b, d) == Depth(b, Depth(a, d).value)
    decreases |a|
  {
    if a == [] {
      assert a + b == b;
    } else {
      assert (a + b)[1..] == a[1..] + b;
      DepthBoth(a[1..], b, if a[0] == Op("(") then d + 1 else if a[0] == Op(")") then d - 1 else d);
    }
  }

  lemma EvenBoth(a: seq<Tok>, b: seq<Tok>)
    requires Even(a) && Even(b)
    ensures Even(a + b)
  {
    forall d: nat | d > 0 ensures Depth(a + b, d) == Some(d) {
      DepthBoth(a, b, d);
    }
  }

  lemma {:induction false} EvenFlat(toks: seq<Tok>)
    requires forall i :: 0 <= i < |toks| ==> toks[i] != Op("(") && toks[i] != Op(")")
    ensures Even(toks)
  {
    if toks != [] {
      EvenFlat(toks[1..]);
    }
  }

  lemma EvenInside(inner: seq<Tok>)
    requires Even(inner)
    ensures Even(Bracketed(inner))
  {
    var all := Bracketed(inner);
    forall d: nat | d > 0 ensures Depth(all, d) == Some(d) {
      assert all[1..] == inner + [Op(")")];
      DepthBoth(inner, [Op(")")], d + 1);
      assert [Op(")")][1..] == [];
    }
  }

  lemma {:induction false} ListIsEven(iso: Dates, items: seq<Constant>)
    requires items != []
    ensures Even(ListToks(iso, items))
  {
    EvenFlat(LitToks(iso, items[0]));
    if |items| > 1 {
      ListIsEven(iso, items[1..]);
      EvenFlat([Op(",")]);
      EvenBoth([Op(",")], ListToks(iso, items[1..]));
      EvenBoth(LitToks(iso, items[0]), [Op(",")] + ListToks(iso, items[1..]));
    }
  }

  lemma InInnerIsEven(iso: Dates, name: string, items: seq<Constant>)
    requires items != []
    ensures Even(InInner(name, ListToks(iso, items)))
  {
    var list := ListToks(iso, items);
    ListIsEven(iso, items);
    EvenInside(list);
    EvenFlat([Word("IN")]);
    EvenFlat([NameTok(name)]);
    EvenBoth([Word("IN")], Bracketed(list));
    EvenBoth([NameTok(name)], [Word("IN")] + Bracketed(list));
  }

  lemma {:induction false} JoinedIsEven(iso: Dates, parts: seq<Sql>, word: string)
    requires parts != []
    ensures Even(Joined(iso, parts, word))
    decreases parts, 0
  {
    SqlIsEven(iso, parts[0]);
    if |parts| > 1 {
      JoinedIsEven(iso, parts[1..], word);
      EvenFlat([Word(word)]);
      EvenBoth([Word(word)], Joined(iso, parts[1..], word));
      EvenBoth(SqlToks(iso, parts[0]), [Word(word)] + Joined(iso, parts[1..], word));
    }
  }

  lemma {:induction false} SqlIsEven(iso: Dates, q: Sql)
    ensures Even(SqlToks(iso, q))
    decreases q, 1
  {
    match q
    case NameS(name) => EvenFlat([NameTok(name)]);
    case CompareS(name, op, c) =>
      EvenFlat(CompareInner(name, op, LitToks(iso, c)));
      EvenInside(CompareInner(name, op, LitToks(iso, c)));
    case NullS(name, negated) =>
      EvenFlat(NullInner(name, negated));
      EvenInside(NullInner(name, negated));
    case InS(name, items) =>
      if items == [] {
        EvenFlat([]);
      } else {
        InInnerIsEven(iso, name, items);
        EvenInside(InInner(name, ListToks(iso, items)));
      }
    case AllS(parts) =>
      if parts == [] {
        EvenFlat([]);
      } else {
        JoinedIsEven(iso, parts, "AND");
        EvenInside(Joined(iso, parts, "AND"));
      }
    case AnyS(parts) =>
      if parts == [] {
        EvenFlat([]);
      } else {
        JoinedIsEven(iso, parts, "OR");
        EvenInside(Joined(iso, parts, "OR"));
      }
  }
}
