/** The text the printer writes is read back as the tokens it was written from. */
module PrintLex {
  import opened Wrappers
  import opened Values
  import opened SqlLexer
  import opened LazyFilter
  import JavaNumber

  // ------------------------------------------------------------ where tokens end

  /** What may follow a token that would otherwise run on. */
  predicate Delimited(rest: string) {
    rest == [] || rest[0] == ' ' || rest[0] == ')' || rest[0] == ','
  }

  /** Its text is read as this token, whatever delimited text follows. */
  ghost predicate Alone(tok: Tok) {
    && tok.text != [] && !IsSpace(tok.text[0])
    && forall rest :: Delimited(rest) ==> NextToken(tok.text + rest) == Some(tok)
  }

  /** Its text is read as this token, whatever follows. */
  ghost predicate Closed(tok: Tok) {
    && tok.text != [] && !IsSpace(tok.text[0])
    && forall rest :: NextToken(tok.text + rest) == Some(tok)
  }

  predicate Delimits(p: Piece) {
    p == Space || p == CLOSE || p == COMMA
  }

  /** Every token ends where the next piece begins. */
  ghost predicate Readable(ps: seq<Piece>) {
    ps == [] ||
    (Readable(ps[1..]) &&
     (ps[0].T? ==> Closed(ps[0].tok) || (Alone(ps[0].tok) && (|ps| == 1 || Delimits(ps[1])))))
  }

  lemma SpellStarts(ps: seq<Piece>)
    requires ps == [] || Delimits(ps[0])
    ensures Delimited(Spell(ps))
  {
  }

  lemma LexStep(tok: Tok, rest: string)
    requires NextToken(tok.text + rest) == Some(tok) && tok.text != [] && !IsSpace(tok.text[0]) && Lex(rest).Some?
    ensures Lex(tok.text + rest) == Some([tok] + Lex(rest).value)
  {
    assert (tok.text + rest)[|tok.text|..] == rest;
  }

  /** Printed text is split into the tokens it was made of. */
  lemma {:induction false} LexRestores(ps: seq<Piece>)
    requires Readable(ps)
    ensures Lex(Spell(ps)) == Some(Toks(ps))
  {
    if ps != [] {
      LexRestores(ps[1..]);
      var rest := Spell(ps[1..]);
      if ps[0].T? {
        if !Closed(ps[0].tok) {
          SpellStarts(ps[1..]);
        }
        LexStep(ps[0].tok, rest);
      } else {
        assert Spell(ps) == [' '] + rest && ([' '] + rest)[1..] == rest;
        assert IsSpace(' ');
        assert Lex([' '] + rest) == Lex(rest);
        assert Toks(ps) == [] + Toks(ps[1..]) == Toks(ps[1..]);
      }
    }
  }

  predicate Mild(a: seq<Piece>) {
    a == [] || a[|a| - 1] == Space || a[|a| - 1] == OPEN || a[|a| - 1] == CLOSE || a[|a| - 1] == COMMA
  }

  lemma {:induction false} ReadableBoth(a: seq<Piece>, b: seq<Piece>)
    requires Readable(a) && Readable(b) && (Mild(a) || b == [] || Delimits(b[0]))
    requires Closed(OPEN.tok) && Closed(CLOSE.tok) && Closed(COMMA.tok)
    ensures Readable(a + b)
  {
    if a == [] {
      assert a + b == b;
    } else {
      assert (a + b)[1..] == a[1..] + b;
      ReadableBoth(a[1..], b);
      if |a| == 1 && b != [] {
        assert (a + b)[1] == b[0];
      } else if |a| > 1 {
        assert (a + b)[1] == a[1];
      }
    }
  }

  lemma ToksCons(p: Piece, ps: seq<Piece>)
    ensures Toks([p] + ps) == (if p.T? then [p.tok] else []) + Toks(ps)
  {
    assert ([p] + ps)[1..] == ps;
  }

  lemma {:induction false} SpellBoth(a: seq<Piece>, b: seq<Piece>)
    ensures Toks(a + b) == Toks(a) + Toks(b)
  {
    if a == [] {
      assert a + b == b;
    } else {
      var p, rest := a[0], a[1..];
      assert a == [p] + rest && a + b == [p] + (rest + b);
      SpellBoth(rest, b);
      ToksCons(p, rest);
      ToksCons(p, rest + b);
    }
  }

  // ---------------------------------------------------------- each kind of token

  lemma NoNumber(t: string)
    requires t != [] && !IsDigit(t[0]) && t[0] != '+' && t[0] != '-' && t[0] != '.'
    ensures NumberLength(t) == 0
  {
    assert t[0..] == t;
  }

  /** `p` and `t` part at one of the first three characters. */
  predicate Parts(t: string, p: string) {
    || (|p| > 0 && (|t| == 0 || p[0] != t[0]))
    || (|p| > 1 && (|t| == 1 || (|t| > 1 && p[1] != t[1])))
    || (|p| > 2 && (|t| == 2 || (|t| > 2 && p[2] != t[2])))
  }

  lemma PartsMeansNoPrefix(t: string, p: string)
    requires Parts(t, p)
    ensures !StartsWith(t, p)
  {
  }

  lemma PunctuationIsClosed()
    ensures Closed(OPEN.tok) && Closed(CLOSE.tok) && Closed(COMMA.tok)
  {
    forall rest: string ensures NextToken("(" + rest) == Some(Op("(")) {
      OpReads("(", rest, 9);
    }
    forall rest: string ensures NextToken(")" + rest) == Some(Op(")")) {
      OpReads(")", rest, 10);
    }
    forall rest: string ensures NextToken("," + rest) == Some(Op(",")) {
      OpReads(",", rest, 11);
    }
  }

  lemma {:induction false} FirstOpIs(t: string, ops: seq<string>, k: nat)
    requires k < |ops| && StartsWith(t, ops[k]) && forall j :: 0 <= j < k ==> !StartsWith(t, ops[j])
    ensures FirstOp(t, ops) == |ops[k]|
  {
    if k > 0 {
      FirstOpIs(t, ops[1..], k - 1);
    }
  }

  lemma OpReads(op: string, rest: string, k: nat)
    requires k < |OPS| && OPS[k] == op && op != "."
    requires forall j :: 0 <= j < k ==> Parts(op + rest, OPS[j])
    ensures NextToken(op + rest) == Some(Op(op))
  {
    var t := op + rest;
    forall j | 0 <= j < k ensures !StartsWith(t, OPS[j]) {
      PartsMeansNoPrefix(t, OPS[j]);
    }
    NoNumber(t);
    FirstOpIs(t, OPS, k);
    assert t[..|op|] == op;
  }

  lemma ComparisonThenRest(op: CmpOp, rest: string)
    requires Delimited(rest)
    ensures NextToken(OpText(op) + rest) == Some(Op(OpText(op)))
  {
    var t := OpText(op) + rest;
    assert |t| > 1 ==> t[1] == '=' || t[1] == '>' || t[1] == ' ' || t[1] == ')' || t[1] == ',';
    match op
    case Le => OpReads("<=", rest, 1);
    case Ge => OpReads(">=", rest, 2);
    case Ne => OpReads("<>", rest, 3);
    case Eq => OpReads("=", rest, 6);
    case Lt => OpReads("<", rest, 7);
    case Gt => OpReads(">", rest, 8);
  }

  lemma ComparisonIsAlone(op: CmpOp)
    ensures Alone(Op(OpText(op)))
  {
    forall rest: string | Delimited(rest) ensures NextToken(OpText(op) + rest) == Some(Op(OpText(op))) {
      ComparisonThenRest(op, rest);
    }
  }

  lemma {:induction false} WordsOf(w: string, rest: string)
    requires (forall i :: 0 <= i < |w| ==> IsWord(w[i])) && Delimited(rest)
    ensures Words(w + rest) == |w|
  {
    if w != [] {
      WordsOf(w[1..], rest);
      assert (w + rest)[1..] == w[1..] + rest;
    } else {
      assert w + rest == rest;
    }
  }

  lemma {:induction false} NoOp(t: string, ops: seq<string>)
    requires t != [] && forall j :: 0 <= j < |ops| ==> ops[j] != [] && ops[j][0] != t[0]
    ensures FirstOp(t, ops) == 0
  {
    if ops != [] {
      NoOp(t, ops[1..]);
    }
  }

  lemma WordIsAlone(w: string)
    requires IsIdent(w)
    ensures Alone(Word(w))
  {
    forall rest: string | Delimited(rest) ensures NextToken(w + rest) == Some(Word(w)) {
      var t := w + rest;
      assert t[0] == w[0] && IsWord(t[0]);
      NoNumber(t);
      NoOp(t, OPS);
      WordsOf(w, rest);
      assert t[..|w|] == w;
    }
  }

  lemma {:induction false} QuotedReads(name: string, rest: string, some: bool)
    requires (forall i :: 0 <= i < |name| ==> name[i] != '`') && (rest == [] || rest[0] != '`') && (some || name != [])
    ensures QuotedRest(name + (['`'] + rest), some) == |name| + 1
  {
    var t := name + (['`'] + rest);
    if name == [] {
      assert t == ['`'] + rest;
    } else {
      QuotedReads(name[1..], rest, true);
      assert t[1..] == name[1..] + (['`'] + rest);
    }
  }

  lemma NameIsAlone(name: string)
    requires IsIdent(name)
    ensures Alone(NameP(name).tok)
  {
    var text := ['`'] + name + ['`'];
    forall rest: string | Delimited(rest) ensures NextToken(text + rest) == Some(Quoted(text)) {
      var t := text + rest;
      NoNumber(t);
      QuotedReads(name, rest, false);
      assert t[1..] == name + (['`'] + rest);
      assert t[..|text|] == text;
    }
  }

  lemma StringIsClosed(s: string)
    ensures Closed(StringP(s).tok)
  {
    var text := [QUOTE] + Escaped(s) + [QUOTE];
    forall rest: string ensures NextToken(text + rest) == Some(Str(text)) {
      var t := text + rest;
      NoNumber(t);
      LiteralIsOneToken(s, rest);
      assert t[1..] == Escaped(s) + ([QUOTE] + rest);
      assert t[..|text|] == text;
    }
  }

  // ------------------------------------------------------------------- numbers

  lemma {:induction false} DigitsOfText(ds: seq<JavaNumber.Digit>, rest: string)
    requires rest == [] || !IsDigit(rest[0])
    ensures Digits(JavaNumber.Text(ds) + rest) == |ds|
  {
    var t := JavaNumber.Text(ds) + rest;
    if ds == [] {
      assert t == rest;
    } else {
      DigitsOfText(ds[1..], rest);
      assert t[1..] == JavaNumber.Text(ds[1..]) + rest;
    }
  }

  lemma WholeMantissa(w: seq<JavaNumber.Digit>, rest: string)
    requires w != [] && Delimited(rest)
    ensures MantissaLength(JavaNumber.Text(w) + rest) == |w|
  {
    DigitsOfText(w, rest);
  }

  lemma PointedMantissa(w: seq<JavaNumber.Digit>, f: seq<JavaNumber.Digit>, rest: string)
    requires w != [] && Delimited(rest)
    ensures MantissaLength(JavaNumber.Pointed(w, f) + rest) == |w| + 1 + |f|
  {
    var tail := ['.'] + JavaNumber.Text(f) + rest;
    var t := JavaNumber.Pointed(w, f) + rest;
    assert t == JavaNumber.Text(w) + tail;
    DigitsOfText(w, tail);
    DigitsOfText(f, rest);
    assert t[|w| + 1..] == JavaNumber.Text(f) + rest;
  }

  lemma NothingMore(rest: string)
    requires Delimited(rest)
    ensures ExponentLength(rest) == 0 && SuffixLength(rest) == 0
  {
  }

  lemma SignedLength(t: string, s: nat, m: nat, rest: string)
    requires s == (if t != [] && (t[0] == '+' || t[0] == '-') then 1 else 0) && s + m <= |t|
    requires m > 0 && MantissaLength(t[s..]) == m && t[s + m..] == rest && Delimited(rest)
    ensures NumberLength(t) == s + m
  {
    NothingMore(rest);
    assert t[s + m + 0..] == rest;
  }

  /** An optional sign, then a mantissa: one number token. */
  lemma NumberReads(negative: bool, body: string, rest: string)
    requires body != [] && IsDigit(body[0]) && Delimited(rest) && MantissaLength(body + rest) == |body|
    ensures var text := (if negative then ['-'] else []) + body; NextToken(text + rest) == Some(Number(text))
  {
    var s := if negative then 1 else 0;
    var text := (if negative then ['-'] else []) + body;
    var t := text + rest;
    assert t[s..] == body + rest && t[s + |body|..] == rest;
    SignedLength(t, s, |body|, rest);
    assert t[..|text|] == text;
  }

  lemma NumberIsAlone(negative: bool, body: string)
    requires body != [] && IsDigit(body[0]) && forall rest :: Delimited(rest) ==> MantissaLength(body + rest) == |body|
    ensures Alone(Number((if negative then ['-'] else []) + body))
  {
    forall rest: string | Delimited(rest)
      ensures NextToken((if negative then ['-'] else []) + body + rest) == Some(Number((if negative then ['-'] else []) + body))
    {
      NumberReads(negative, body, rest);
    }
  }

  lemma WholeIsAlone(negative: bool, w: seq<JavaNumber.Digit>)
    requires w != []
    ensures Alone(Number((if negative then ['-'] else []) + JavaNumber.Text(w)))
  {
    forall rest: string | Delimited(rest) ensures MantissaLength(JavaNumber.Text(w) + rest) == |w| {
      WholeMantissa(w, rest);
    }
    NumberIsAlone(negative, JavaNumber.Text(w));
  }

  lemma PointedIsAlone(negative: bool, w: seq<JavaNumber.Digit>, f: seq<JavaNumber.Digit>)
    requires w != []
    ensures Alone(Number((if negative then ['-'] else []) + JavaNumber.Pointed(w, f)))
  {
    forall rest: string | Delimited(rest)
      ensures MantissaLength(JavaNumber.Pointed(w, f) + rest) == |JavaNumber.Pointed(w, f)|
    {
      PointedMantissa(w, f, rest);
    }
    assert JavaNumber.Pointed(w, f)[0] == JavaNumber.Text(w)[0];
    NumberIsAlone(negative, JavaNumber.Pointed(w, f));
  }

  lemma IntIsAlone(i: int)
    ensures Alone(Number(JavaNumber.IntText(i)))
  {
    var ds := JavaNumber.DigitsOfNat(if i < 0 then 0 - i else i);
    WholeIsAlone(i < 0, ds);
    assert [] + JavaNumber.Text(ds) == JavaNumber.Text(ds);
  }

  lemma DecimalIsAlone(negative: bool, digits: seq<JavaNumber.Digit>, exponent: int)
    requires digits != []
    ensures Alone(Number(DecimalText(negative, digits, exponent)))
  {
    if exponent >= 0 {
      WholeIsAlone(negative, WholePart(digits, exponent));
    } else {
      PointedIsAlone(negative, WholePart(digits, exponent), FractionPart(digits, exponent));
    }
  }

  // ------------------------------------------------------------- what is printed

  /** A date's text holds neither quotes nor backslashes. */
  ghost predicate PlainDates(iso: Dates) {
    forall d, i :: 0 <= i < |iso(d)| ==> iso(d)[i] != QUOTE && iso(d)[i] != BACKSLASH
  }

  lemma {:induction false} PlainIsNotEscaped(s: string)
    requires forall i :: 0 <= i < |s| ==> s[i] != QUOTE && s[i] != BACKSLASH
    ensures Escaped(s) == s
  {
    if s != [] {
      PlainIsNotEscaped(s[1..]);
      assert s == [s[0]] + s[1..];
    }
  }

  /** Printed parts end where anything printed after them may begin. */
  ghost predicate Ready(ps: seq<Piece>) {
    ps != [] && Readable(ps)
  }

  lemma OnePiece(tok: Tok)
    requires Alone(tok) || Closed(tok)
    ensures Readable([T(tok)])
  {
    assert [T(tok)][1..] == [];
  }

  lemma ConstantIsReady(iso: Dates, t: Type, c: Constant)
    requires PlainDates(iso) && Renders(t, c)
    ensures Ready(ConstantPieces(iso, c))
  {
    match c
    case IntC(i) => IntIsAlone(i); OnePiece(Number(JavaNumber.IntText(i)));
    case StrC(s) => StringIsClosed(s); OnePiece(StringP(s).tok);
    case BoolC(b) => WordIsAlone(if b then "TRUE" else "FALSE"); OnePiece(Word(if b then "TRUE" else "FALSE"));
    case DateC(d) =>
      var lit := ConstantPieces(iso, c);
      PlainIsNotEscaped(iso(d));
      StringIsClosed(iso(d));
      OnePiece(StringP(iso(d)).tok);
      WordIsAlone("DATE");
      assert lit[2..] == [StringP(iso(d))] && lit[1..][1..] == lit[2..];
      assert Readable(lit[1..]);
    case DecC(negative, digits, exponent) =>
      DecimalIsAlone(negative, digits, exponent);
      OnePiece(Number(DecimalText(negative, digits, exponent)));
  }

  /** A piece before more of them. */
  lemma Cons(p: Piece, ps: seq<Piece>)
    requires Readable(ps)
    requires p.T? ==> Closed(p.tok) || (Alone(p.tok) && (ps == [] || Delimits(ps[0])))
    ensures Readable([p] + ps)
  {
    assert ([p] + ps)[1..] == ps;
  }

  lemma Snoc(ps: seq<Piece>)
    requires Readable(ps)
    ensures Readable(ps + [CLOSE]) && Readable(ps + [CLOSE, CLOSE])
  {
    PunctuationIsClosed();
    OnePiece(CLOSE.tok);
    Cons(CLOSE, [CLOSE]);
    assert [CLOSE] + [CLOSE] == [CLOSE, CLOSE];
    ReadableBoth(ps, [CLOSE]);
    ReadableBoth(ps, [CLOSE, CLOSE]);
  }

  lemma ComparisonIsReady(iso: Dates, t: Type, name: string, op: CmpOp, c: Constant)
    requires PlainDates(iso) && IsIdent(name) && Renders(t, c)
    ensures Ready(Pieces(iso, CompareS(name, op, c)))
  {
    var lit := ConstantPieces(iso, c);
    ConstantIsReady(iso, t, c);
    NameIsAlone(name);
    ComparisonIsAlone(op);
    SpacedIsReady(NameP(name), T(Op(OpText(op))), lit);
    InParentheses([NameP(name)] + ([Space] + ([T(Op(OpText(op)))] + ([Space] + lit))));
    assert Pieces(iso, CompareS(name, op, c)) == [OPEN] + ([NameP(name)] + ([Space] + ([T(Op(OpText(op)))] + ([Space] + lit)))) + [CLOSE];
  }

  lemma InParentheses(inner: seq<Piece>)
    requires Ready(inner)
    ensures Ready([OPEN] + inner + [CLOSE])
  {
    PunctuationIsClosed();
    Cons(OPEN, inner);
    Snoc([OPEN] + inner);
  }

  lemma NullTestIsReady(iso: Dates, name: string, negated: bool)
    requires IsIdent(name)
    ensures Ready(Pieces(iso, NullS(name, negated)))
  {
    PunctuationIsClosed();
    WordIsAlone("NOT");
    WordIsAlone("NULL");
    OnePiece(Word("NULL"));
    var last := [WordP("NULL")];
    Cons(Space, last);
    var a := [Space] + last;
    Cons(WordP("NOT"), a);
    Cons(Space, [WordP("NOT")] + a);
    var b := [Space] + ([WordP("NOT")] + a);
    if negated {
      NullTestFrom(name, b);
      assert [OPEN] + ([NameP(name)] + ([Space] + ([WordP("IS")] + b))) + [CLOSE] == Pieces(iso, NullS(name, negated));
    } else {
      NullTestFrom(name, a);
      assert [OPEN] + ([NameP(name)] + ([Space] + ([WordP("IS")] + a))) + [CLOSE] == Pieces(iso, NullS(name, negated));
    }
  }

  lemma NullTestFrom(name: string, a: seq<Piece>)
    requires IsIdent(name) && Readable(a) && a != [] && a[0] == Space
    ensures Ready([OPEN] + ([NameP(name)] + ([Space] + ([WordP("IS")] + a))) + [CLOSE])
  {
    NameIsAlone(name);
    WordIsAlone("IS");
    Cons(WordP("IS"), a);
    Cons(Space, [WordP("IS")] + a);
    Cons(NameP(name), [Space] + ([WordP("IS")] + a));
    InParentheses([NameP(name)] + ([Space] + ([WordP("IS")] + a)));
  }

  lemma CommaIsReady(first: seq<Piece>, rest: seq<Piece>)
    requires Ready(first) && Ready(rest)
    ensures Ready(first + [COMMA, Space] + rest)
  {
    PunctuationIsClosed();
    Cons(Space, rest);
    Cons(COMMA, [Space] + rest);
    ReadableBoth(first, [COMMA] + ([Space] + rest));
    assert first + [COMMA, Space] + rest == first + ([COMMA] + ([Space] + rest));
  }

  lemma WordIsReady(first: seq<Piece>, word: string, rest: seq<Piece>)
    requires Ready(first) && Ready(rest) && IsIdent(word)
    ensures Ready(first + [Space, WordP(word), Space] + rest)
  {
    PunctuationIsClosed();
    WordIsAlone(word);
    Cons(Space, rest);
    Cons(WordP(word), [Space] + rest);
    Cons(Space, [WordP(word)] + ([Space] + rest));
    ReadableBoth(first, [Space] + ([WordP(word)] + ([Space] + rest)));
    assert first + [Space, WordP(word), Space] + rest == first + ([Space] + ([WordP(word)] + ([Space] + rest)));
  }

  lemma {:induction false} ListedIsReady(iso: Dates, t: Type, items: seq<Constant>)
    requires PlainDates(iso) && items != [] && forall i :: 0 <= i < |items| ==> Renders(t, items[i])
    ensures Ready(Listed(iso, items))
  {
    ConstantIsReady(iso, t, items[0]);
    if |items| > 1 {
      ListedIsReady(iso, t, items[1..]);
      CommaIsReady(ConstantPieces(iso, items[0]), Listed(iso, items[1..]));
    }
  }

  lemma SpacedIsReady(p: Piece, q: Piece, rest: seq<Piece>)
    requires p.T? && q.T? && Alone(p.tok) && Alone(q.tok) && Readable(rest)
    ensures Ready([p] + ([Space] + ([q] + ([Space] + rest))))
  {
    Cons(Space, rest);
    Cons(q, [Space] + rest);
    Cons(Space, [q] + ([Space] + rest));
    Cons(p, [Space] + ([q] + ([Space] + rest)));
  }

  lemma InListIsReady(iso: Dates, t: Type, name: string, items: seq<Constant>)
    requires PlainDates(iso) && IsIdent(name) && items != [] && forall i :: 0 <= i < |items| ==> Renders(t, items[i])
    ensures Ready(Pieces(iso, InS(name, items)))
  {
    var list := Listed(iso, items);
    ListedIsReady(iso, t, items);
    NameIsAlone(name);
    WordIsAlone("IN");
    InParentheses(list);
    SpacedIsReady(NameP(name), WordP("IN"), [OPEN] + list + [CLOSE]);
    InParentheses([NameP(name)] + ([Space] + ([WordP("IN")] + ([Space] + ([OPEN] + list + [CLOSE])))));
    InPieces(name, list);
  }

  lemma InPieces(name: string, list: seq<Piece>)
    ensures [OPEN] + ([NameP(name)] + ([Space] + ([WordP("IN")] + ([Space] + ([OPEN] + list + [CLOSE]))))) + [CLOSE]
         == [OPEN, NameP(name), Space, WordP("IN"), Space, OPEN] + list + [CLOSE, CLOSE]
  {
  }

  lemma {:induction false} SeparatedIsReady(iso: Dates, schema: Schema, parts: seq<Sql>, word: string)
    requires PlainDates(iso) && parts != [] && (forall i :: 0 <= i < |parts| ==> Fit(schema, parts[i])) && IsIdent(word)
    ensures Ready(Separated(iso, parts, word))
    decreases parts, 0
  {
    SqlIsReady(iso, schema, parts[0]);
    if |parts| > 1 {
      SeparatedIsReady(iso, schema, parts[1..], word);
      WordIsReady(Pieces(iso, parts[0]), word, Separated(iso, parts[1..], word));
    }
  }

  lemma {:induction false} SqlIsReady(iso: Dates, schema: Schema, q: Sql)
    requires PlainDates(iso) && Fit(schema, q)
    ensures Ready(Pieces(iso, q))
    decreases q, 1
  {
    match q
    case NameS(name) => NameIsAlone(name); OnePiece(NameP(name).tok);
    case CompareS(name, op, c) => ComparisonIsReady(iso, schema[[name]], name, op, c);
    case NullS(name, negated) => NullTestIsReady(iso, name, negated);
    case InS(name, items) => InListIsReady(iso, schema[[name]], name, items);
    case AllS(parts) =>
      SeparatedIsReady(iso, schema, parts, "AND");
      InParentheses(Separated(iso, parts, "AND"));
    case AnyS(parts) =>
      SeparatedIsReady(iso, schema, parts, "OR");
      InParentheses(Separated(iso, parts, "OR"));
  }

  lemma {:induction false} TranslationIsFit(schema: Schema, e: Expr)
    requires Translate(schema, e).Some?
    ensures Fit(schema, Translate(schema, e).value)
    decreases e, 1
  {
    match e
    case AndE(_, args) => SomeAreFit(schema, args);
    case OrE(_, args) => AllAreSome(schema, args); SomeAreFit(schema, args);
    case _ =>
  }

  lemma {:induction false} SomeAreFit(schema: Schema, args: seq<Expr>)
    ensures forall i :: 0 <= i < |TranslateSome(schema, args)| ==> Fit(schema, TranslateSome(schema, args)[i])
    decreases args, 0
  {
    if args != [] {
      if Translate(schema, args[0]).Some? {
        TranslationIsFit(schema, args[0]);
      }
      SomeAreFit(schema, args[1..]);
    }
  }

  lemma {:induction false} AllAreSome(schema: Schema, args: seq<Expr>)
    requires TranslateAll(schema, args).Some?
    ensures TranslateSome(schema, args) == TranslateAll(schema, args).value
    decreases |args|
  {
    if args != [] {
      AllAreSome(schema, args[1..]);
    }
  }

  /** The text pushed down splits into exactly the tokens it was spelled from. */
  lemma PrintedTextLexes(iso: Dates, schema: Schema, e: Expr)
    requires PlainDates(iso) && Translate(schema, e).Some?
    ensures Lex(SqlText(iso, schema, e).value) == Some(Toks(Pieces(iso, Translate(schema, e).value)))
  {
    TranslationIsFit(schema, e);
    SqlIsReady(iso, schema, Translate(schema, e).value);
    LexRestores(Pieces(iso, Translate(schema, e).value));
  }
}
