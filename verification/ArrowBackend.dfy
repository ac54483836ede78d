/** `_ArrowBuilder`: a predicate compiled to a pyarrow compute expression. */
module ArrowBackend {
  import opened Wrappers
  import opened Kleene
  import opened Values
  import opened Predicates
  import opened BalancedFold

  datatype Arrow =
    | Field(path: Column)
    | Scalar(value: Value)
    | CastTo(arg: Arrow, type_: Type)
    | ArrowCmp(op: CmpOp, left: Arrow, right: Arrow)
    | AndKleene(left: Arrow, right: Arrow)
    | OrKleene(left: Arrow, right: Arrow)
    | Invert(arg: Arrow)
    | IsNullOf(arg: Arrow)
    | IsValid(arg: Arrow)
    | IsNan(arg: Arrow)
    | IfElse(cond: Arrow, yes: Arrow, no: Arrow)
    | Coalesce(left: Arrow, right: Arrow)
    | IsIn(arg: Arrow, values: seq<Value>)
    | AsText(arg: Arrow)
    | MatchLike(arg: Arrow, pattern: string, insensitive: bool)

  // ------------------------------------------------------ what Arrow computes

  /** An IEEE comparison: NaN is unequal to everything and in no order. */
  function IeeeCompare(op: CmpOp, a: Value, b: Value): Truth {
    if a.Null? || b.Null? then Unknown
    else if IsNaN(a) || IsNaN(b) then Of(op == Ne)
    else Compare(op, a, b)
  }

  function Run(env: Engine, e: Arrow, row: Row): Value {
    match e
    case Field(c) => Lookup(row, c)
    case Scalar(v) => v
    case CastTo(a, t) => Cast(env, Run(env, a, row), t)
    case ArrowCmp(op, a, b) => FromTruth(IeeeCompare(op, Run(env, a, row), Run(env, b, row)))
    case AndKleene(a, b) => FromTruth(And(ToTruth(Run(env, a, row)), ToTruth(Run(env, b, row))))
    case OrKleene(a, b) => FromTruth(Or(ToTruth(Run(env, a, row)), ToTruth(Run(env, b, row))))
    case Invert(a) => FromTruth(Not(ToTruth(Run(env, a, row))))
    case IsNullOf(a) => BoolV(Run(env, a, row).Null?)
    case IsValid(a) => BoolV(!Run(env, a, row).Null?)
    case IsNan(a) =>
      var v := Run(env, a, row);
      if v.Null? then Null else BoolV(IsNaN(v))
    case IfElse(c, a, b) =>
      (match ToTruth(Run(env, c, row))
       case True => Run(env, a, row)
       case False => Run(env, b, row)
       case Unknown => Null)
    case Coalesce(a, b) =>
      var v := Run(env, a, row);
      if v.Null? then Run(env, b, row) else v
    // A hash lookup: NaN finds NaN, and -0.0 does not find 0.0.
    case IsIn(a, vs) => BoolV(Run(env, a, row) in vs)
    case AsText(a) => env.asText(Run(env, a, row))
    case MatchLike(a, pattern, insensitive) =>
      FromTruth(LikeTruth(env, pattern, insensitive, Run(env, a, row)))
  }

  // ------------------------------------------------------------ the compiler

  function Column(schema: Schema, c: Column): Option<(Arrow, Type)> {
    if c in schema then Some((Field(c), schema[c])) else None
  }

  function Single(schema: Schema, o: Operand): Option<Arrow> {
    match o
    case Col(c) => if c in schema then Some(Field(c)) else None
    case Lit(l) => Some(Scalar(Bare(l)))
  }

  function MaybeCastTo(e: Arrow, t: Option<Type>): Arrow {
    if t.Some? then CastTo(e, t.value) else e
  }

  function AsDouble(e: Arrow, t: Type): Arrow {
    if t == DOUBLE then e else CastTo(e, DOUBLE)
  }

  /** The pairs of column types Arrow has a comparison for. */
  predicate TypesCompare(a: Type, b: Type) {
    || (NumericType(a) && NumericType(b))
    || (a.TextType? && b.TextType?)
    || (a.BoolType? && b.BoolType?)
    || ((a.DateType? || a.TimestampType?) && (b.DateType? || b.TimestampType?))
  }

  /** `pair`: both operands of a comparison, the literal typed to the column. */
  function Pair(env: Engine, schema: Schema, left: Operand, right: Operand): Option<(Arrow, Arrow)> {
    match (left, right)
    case (Col(a), Col(b)) =>
      if a !in schema || b !in schema || !TypesCompare(schema[a], schema[b]) then None
      else if MeetAsDouble(schema[a], schema[b])
      then Some((AsDouble(Field(a), schema[a]), AsDouble(Field(b), schema[b])))
      else Some((Field(a), Field(b)))
    case (Col(c), Lit(l)) =>
      if c !in schema then None
      else (match Coerce(env, l, schema[c])
            case None => None
            case Some(k) => Some((MaybeCastTo(Field(c), k.cast), Scalar(k.scalar))))
    case (Lit(l), Col(c)) =>
      if c !in schema then None
      else (match Coerce(env, l, schema[c])
            case None => None
            case Some(k) => Some((Scalar(k.scalar), MaybeCastTo(Field(c), k.cast))))
    case (Lit(a), Lit(b)) =>
      if !a.NullL? && !b.NullL? && BareType(a) != BareType(b) then None
      else Some((Scalar(Bare(a)), Scalar(Bare(b))))
  }

  predicate FloatLiteral(o: Operand) {
    o.Lit? && o.lit.DblL?
  }

  predicate LiteralMeetsFloat(env: Engine, t: Type, l: Literal) {
    match Coerce(env, l, t)
    case None => false
    case Some(k) => (if k.cast.Some? then k.cast.value else t).FloatType? || k.scalarType.FloatType?
  }

  /** `_floating`: whether a comparison happens in floating point. */
  predicate Floating(env: Engine, schema: Schema, left: Operand, right: Operand) {
    match (left, right)
    case (Col(a), Col(b)) => (a in schema && schema[a].FloatType?) || (b in schema && schema[b].FloatType?)
    case (Col(c), Lit(l)) => c in schema && LiteralMeetsFloat(env, schema[c], l)
    case (Lit(l), Col(c)) => c in schema && LiteralMeetsFloat(env, schema[c], l)
    case (Lit(_), Lit(_)) => FloatLiteral(left) || FloatLiteral(right)
  }

  function EqForm(a: Arrow, b: Arrow): Arrow {
    OrKleene(ArrowCmp(Eq, a, b), AndKleene(IsNan(a), IsNan(b)))
  }

  function LtForm(a: Arrow, b: Arrow): Arrow {
    OrKleene(ArrowCmp(Lt, a, b), AndKleene(IsNan(b), Invert(IsNan(a))))
  }

  /** `compare`: Spark's floating-point semantics built from IEEE comparisons. */
  function CompareForm(env: Engine, schema: Schema, op: CmpOp, left: Operand, right: Operand): Option<Arrow> {
    match Pair(env, schema, left, right)
    case None => None
    case Some((a, b)) =>
      if !Floating(env, schema, left, right) then Some(ArrowCmp(op, a, b))
      else Some(match op
        case Eq => EqForm(a, b)
        case Ne => Invert(EqForm(a, b))
        case Lt => LtForm(a, b)
        case Le => OrKleene(LtForm(a, b), EqForm(a, b))
        case Gt => LtForm(b, a)
        case Ge => OrKleene(LtForm(b, a), EqForm(a, b)))
  }

  /** The typed scalars of an IN list, or None where one does not share the column's type. */
  function SharedScalars(env: Engine, t: Type, items: seq<Operand>): Option<seq<Value>> {
    if items == [] then Some([])
    else if !items[0].Lit? then None
    else
      var rest := SharedScalars(env, t, items[1..]);
      if items[0].lit.NullL? || rest.None? then rest
      else
        match Coerce(env, items[0].lit, t)
        case None => None
        case Some(k) =>
          if k.cast.Some? || k.scalarType != t then None else Some([k.scalar] + rest.value)
  }

  const NULL_BOOL := Scalar(Null)

  /** `membership`: an IN list as one set lookup, or None where it must fall back to equalities. */
  function Membership(env: Engine, schema: Schema, target: Operand, items: seq<Operand>): Option<Arrow> {
    if !target.Col? || target.path !in schema then None
    else
      var t := schema[target.path];
      match SharedScalars(env, t, items)
      case None => None
      case Some(scalars) =>
        var valid := IsValid(Field(target.path));
        if scalars == [] then Some(IfElse(valid, NULL_BOOL, NULL_BOOL))
        else
          var zeros := if t.FloatType? && exists v :: v in scalars && IsZero(v)
                       then [FloatV(Fin(0.0)), FloatV(NegZero)] else [];
          var found := IsIn(Field(target.path), scalars + zeros);
          var miss := if exists i :: i in items && i.Lit? && i.lit.NullL? then NULL_BOOL else Scalar(BoolV(false));
          Some(IfElse(valid, IfElse(found, Scalar(BoolV(true)), miss), NULL_BOOL))
  }

  function CompareForms(env: Engine, schema: Schema, target: Operand, items: seq<Operand>): Option<seq<Arrow>> {
    if items == [] then Some([])
    else
      match (CompareForm(env, schema, Eq, target, items[0]), CompareForms(env, schema, target, items[1..]))
      case (Some(e), Some(es)) => Some([e] + es)
      case (_, _) => None
  }

  /** An `eq` of a column with a literal, in either order, as `disjuncts` groups it. */
  function Grouped(node: Node): Option<(Column, Literal)> {
    if node.Cmp? && node.op == Eq then
      match (node.left, node.right)
      case (Col(c), Lit(l)) => Some((c, l))
      case (Lit(l), Col(c)) => Some((c, l))
      case (_, _) => None
    else None
  }

  function Rest(args: seq<Node>): seq<Node> {
    if args == [] then []
    else (if Grouped(args[0]).None? then [args[0]] else []) + Rest(args[1..])
  }

  /** The literals compared with column `c`, in order. */
  function LiteralsOf(args: seq<Node>, c: Column): seq<Operand> {
    if args == [] then []
    else
      (match Grouped(args[0])
       case Some((d, l)) => if d == c then [Lit(l)] else []
       case None => []) + LiteralsOf(args[1..], c)
  }

  /** The grouped columns, each once, as they are first met. */
  function GroupOrder(args: seq<Node>): seq<Column>
    decreases |args|
  {
    if args == [] then []
    else
      var before := GroupOrder(args[..|args| - 1]);
      match Grouped(args[|args| - 1])
      case Some((c, _)) => if c in before then before else before + [c]
      case None => before
  }

  /** Each column's group holds its literals, in order. */
  ghost predicate Gathered(groups: map<Column, seq<Operand>>, args: seq<Node>) {
    forall c :: (if c in groups then groups[c] else []) == LiteralsOf(args, c)
  }

  ghost predicate SameColumns(order: seq<Column>, groups: map<Column, seq<Operand>>) {
    forall c :: c in order <==> c in groups
  }

  /** One more literal for a column, whose group it may begin. */
  method AddToGroup(order: seq<Column>, groups: map<Column, seq<Operand>>, c: Column, l: Operand)
    returns (order': seq<Column>, groups': map<Column, seq<Operand>>)
    requires SameColumns(order, groups)
    ensures SameColumns(order', groups')
    ensures order' == order + (if c in order then [] else [c])
    ensures groups' == groups[c := (if c in groups then groups[c] else []) + [l]]
  {
    if c in groups {
      order', groups' := order, groups[c := groups[c] + [l]];
    } else {
      assert [] + [l] == [l];
      order', groups' := order + [c], groups[c := [l]];
    }
  }

  lemma GatheredStep(args: seq<Node>, i: nat, groups: map<Column, seq<Operand>>)
    requires i < |args| && Gathered(groups, args[..i])
    ensures match Grouped(args[i])
            case Some((c, l)) => Gathered(groups[c := (if c in groups then groups[c] else []) + [Lit(l)]], args[..i + 1])
            case None => Gathered(groups, args[..i + 1])
  {
    GroupStep(args, i);
  }

  /** The grouping loop of `disjuncts`. */
  method GroupEqualities(args: seq<Node>)
    returns (rest: seq<Node>, order: seq<Column>, groups: map<Column, seq<Operand>>)
    ensures rest == Rest(args) && order == GroupOrder(args)
    ensures forall c :: c in order <==> c in groups
    ensures forall c :: c in groups ==> groups[c] == LiteralsOf(args, c)
  {
    rest, order, groups := [], [], map[];
    var i := 0;
    while i < |args|
      invariant 0 <= i <= |args|
      invariant rest == Rest(args[..i]) && order == GroupOrder(args[..i])
      invariant SameColumns(order, groups) && Gathered(groups, args[..i])
    {
      OrderStep(args, i);
      GatheredStep(args, i, groups);
      match Grouped(args[i]) {
        case Some((c, l)) => order, groups := AddToGroup(order, groups, c, Lit(l));
        case None => rest := rest + [args[i]];
      }
      i := i + 1;
    }
    assert args[..i] == args;
  }

  predicate InGroup(node: Node, c: Column) {
    Grouped(node).Some? && Grouped(node).value.0 == c
  }

  lemma OrderStep(args: seq<Node>, i: nat)
    requires i < |args|
    ensures var before, after := args[..i], args[..i + 1]; var g := Grouped(args[i]);
            && Rest(after) == Rest(before) + (if g.None? then [args[i]] else [])
            && GroupOrder(after) == GroupOrder(before) +
                 (if g.Some? && g.value.0 !in GroupOrder(before) then [g.value.0] else [])
  {
    var before, after := args[..i], args[..i + 1];
    assert after == before + [args[i]] && after[..i] == before;
    RestOfConcat(before, args[i]);
  }

  lemma GroupStep(args: seq<Node>, i: nat)
    requires i < |args|
    ensures forall c :: LiteralsOf(args[..i + 1], c) ==
                 if InGroup(args[i], c) then LiteralsOf(args[..i], c) + [Lit(Grouped(args[i]).value.1)] else LiteralsOf(args[..i], c)
  {
    assert args[..i + 1] == args[..i] + [args[i]];
    forall c
      ensures LiteralsOf(args[..i + 1], c) ==
                if InGroup(args[i], c) then LiteralsOf(args[..i], c) + [Lit(Grouped(args[i]).value.1)] else LiteralsOf(args[..i], c)
    {
      LiteralsOfConcat(args[..i], args[i], c);
    }
  }

  lemma {:induction false} RestOfConcat(args: seq<Node>, last: Node)
    ensures Rest(args + [last]) == Rest(args) + Rest([last])
  {
    if args != [] {
      RestOfConcat(args[1..], last);
      assert (args + [last])[1..] == args[1..] + [last];
    } else {
      assert args + [last] == [last];
    }
  }

  lemma {:induction false} LiteralsOfConcat(args: seq<Node>, last: Node, c: Column)
    ensures LiteralsOf(args + [last], c) == LiteralsOf(args, c) + LiteralsOf([last], c)
  {
    if args != [] {
      LiteralsOfConcat(args[1..], last, c);
      assert (args + [last])[1..] == args[1..] + [last];
    } else {
      assert args + [last] == [last];
    }
  }

  /** One group of `disjuncts`: a lookup where there is one, else an equality per literal. */
  function GroupForms(env: Engine, schema: Schema, c: Column, literals: seq<Operand>): Option<seq<Arrow>> {
    var lookup := if |literals| > 1 then Membership(env, schema, Col(c), literals) else None;
    if lookup.Some? then Some([lookup.value]) else CompareForms(env, schema, Col(c), literals)
  }

  function AllGroups(env: Engine, schema: Schema, args: seq<Node>, order: seq<Column>): Option<seq<Arrow>> {
    if order == [] then Some([])
    else
      match (GroupForms(env, schema, order[0], LiteralsOf(args, order[0])), AllGroups(env, schema, args, order[1..]))
      case (Some(a), Some(b)) => Some(a + b)
      case (_, _) => None
  }

  function CombineAnd(a: Arrow, b: Arrow): Arrow {
    AndKleene(a, b)
  }

  function CombineOr(a: Arrow, b: Arrow): Arrow {
    OrKleene(a, b)
  }

  function FoldAnd(es: seq<Arrow>): Arrow
    requires es != []
  {
    Fold(es, CombineAnd)
  }

  function FoldOr(es: seq<Arrow>): Arrow
    requires es != []
  {
    Fold(es, CombineOr)
  }

  function Negated(negated: bool, e: Arrow): Arrow {
    if negated then Invert(e) else e
  }

  function BuildAll(env: Engine, schema: Schema, nodes: seq<Node>): Option<seq<Arrow>>
    decreases nodes, 0
  {
    if nodes == [] then Some([])
    else
      match (Build(env, schema, nodes[0]), BuildAll(env, schema, nodes[1..]))
      case (Some(e), Some(es)) => Some([e] + es)
      case (_, _) => None
  }

  function BuildRest(env: Engine, schema: Schema, nodes: seq<Node>): Option<seq<Arrow>>
    decreases nodes, 0
  {
    if nodes == [] then Some([])
    else if Grouped(nodes[0]).Some? then BuildRest(env, schema, nodes[1..])
    else
      match (Build(env, schema, nodes[0]), BuildRest(env, schema, nodes[1..]))
      case (Some(e), Some(es)) => Some([e] + es)
      case (_, _) => None
  }

  /** `disjuncts`: what is not grouped first, then each group. */
  function Disjuncts(env: Engine, schema: Schema, args: seq<Node>): Option<seq<Arrow>>
    decreases args, 1
  {
    match (BuildRest(env, schema, args), AllGroups(env, schema, args, GroupOrder(args)))
    case (Some(rest), Some(groups)) => Some(rest + groups)
    case (_, _) => None
  }

  /** `build`; None where building or binding the expression raises. */
  function Build(env: Engine, schema: Schema, node: Node): Option<Arrow>
    decreases node, 2
  {
    match node
    case AndN(args) =>
      (match BuildAll(env, schema, args)
       case None => None
       case Some(es) => if es == [] then None else Some(FoldAnd(es)))
    case OrN(args) =>
      (match Disjuncts(env, schema, args)
       case None => None
       case Some(es) => if es == [] then None else Some(FoldOr(es)))
    case NotN(arg) =>
      (match Build(env, schema, arg)
       case None => None
       case Some(e) => Some(Invert(e)))
    case Constant(b) => Some(Scalar(BoolV(b)))
    case BoolColumn(c) => if c in schema && schema[c].BoolType? then Some(Field(c)) else None
    case Cmp(op, l, r) => CompareForm(env, schema, op, l, r)
    case NullSafe(l, r) =>
      (match (Pair(env, schema, l, r), CompareForm(env, schema, Eq, l, r))
       case (Some((a, b)), Some(equal)) =>
         Some(IfElse(AndKleene(IsNullOf(a), IsNullOf(b)), Scalar(BoolV(true)),
                     Coalesce(equal, Scalar(BoolV(false)))))
       case (_, _) => None)
    case IsNull(o) =>
      (match Single(schema, o)
       case None => None
       case Some(e) => Some(IsNullOf(e)))
    case IsNotNull(o) =>
      (match Single(schema, o)
       case None => None
       case Some(e) => Some(IsValid(e)))
    case In(t, items, negated) =>
      (match Membership(env, schema, t, items)
       case Some(e) => Some(Negated(negated, e))
       case None =>
         match CompareForms(env, schema, t, items)
         case None => None
         case Some(es) => if es == [] then None else Some(Negated(negated, FoldOr(es))))
    case Between(t, low, high, negated) =>
      (match (CompareForm(env, schema, Ge, t, low), CompareForm(env, schema, Le, t, high))
       case (Some(a), Some(b)) => Some(Negated(negated, AndKleene(a, b)))
       case (_, _) => None)
    case Like(t, pattern, insensitive, negated) =>
      (match Single(schema, t)
       case None => None
       case Some(e) =>
         var subject := if t.Col? && !schema[t.path].TextType? then AsText(e) else e;
         Some(Negated(negated, MatchLike(subject, pattern, insensitive))))
  }
}
