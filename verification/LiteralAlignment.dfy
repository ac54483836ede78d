/** `_skip_literal`: retyping a literal for its column without moving the boundary. */
module LiteralAlignment {
  import opened Wrappers
  import opened Kleene
  import opened Values
  import opened Predicates

  function Ceiling(r: real): int {
    -((-r).Floor)
  }

  /** The rewritten literal and comparison, or None where the literal is left alone. */
  function SkipLiteral(env: Engine, l: Literal, target: Type, op: CmpOp): Option<(Literal, CmpOp)> {
    match l
    case DecL(r) =>
      if target == DOUBLE then Some((DblL(env.toDouble(r)), op))
      else if !target.IntType? then None
      else WholeNumber(r, op)
    case DblL(f) =>
      if !f.Fin? && !f.NegZero? then None
      else if !target.IntType? then None
      else if Finite(f) >= EXACT_DOUBLE_INT as real || Finite(f) <= -EXACT_DOUBLE_INT as real then None
      else WholeNumber(Finite(f), op)
    case _ => None
  }

  /** An integer bound that keeps the same integers as `<op> r` does. */
  function WholeNumber(r: real, op: CmpOp): Option<(Literal, CmpOp)> {
    var found: Option<(int, CmpOp)> :=
      if Integral(r) then Some((r.Floor, op))
      else if op == Lt || op == Le then Some((r.Floor, Le))
      else if op == Gt || op == Ge then Some((Ceiling(r), Ge))
      else None;
    match found
    case Some((whole, newOp)) =>
      if LONG_MIN <= whole <= LONG_MAX then Some((LongL(whole), newOp)) else None
    case None => None
  }

  /** The row filter's comparison and the rewritten one agree on every value of the column. */
  lemma AlignmentMovesNoBoundary(env: Engine, l: Literal, t: Type, op: CmpOp, v: Value)
    requires Typed(v, t)
    requires SkipLiteral(env, l, t, op).Some?
    ensures var (l', op') := SkipLiteral(env, l, t, op).value;
            CompareLiteral(env, op, v, t, l) == CompareLiteral(env, op', v, t, l')
  {
    if v.IntV? {
      var (l', op') := SkipLiteral(env, l, t, op).value;
      IntegerAgainst(env, op, v.i, t, l);
      IntegerAgainst(env, op', v.i, t, l');
      var r := if l.DecL? then l.r else Finite(l.f);
      IntegerBound(v.i, r, op);
      if l.DblL? {
        RoundingKeepsTheSide(v.i, r);
      }
    }
  }

  /** How the filter compares an integer column with each numeric literal. */
  lemma IntegerAgainst(env: Engine, op: CmpOp, i: int, t: Type, l: Literal)
    requires t.IntType?
    ensures l.LongL? ==> CompareLiteral(env, op, IntV(i), t, l) == Of(Holds(op, i - l.i))
    ensures l.DecL? ==> CompareLiteral(env, op, IntV(i), t, l) == Of(Holds(op, Sign(i as real - l.r)))
    ensures l.DblL? && Band(l.f) == 0 ==>
              CompareLiteral(env, op, IntV(i), t, l) == Of(Holds(op, Sign(RoundToDouble(i) as real - Finite(l.f))))
  {
    match l
    case LongL(j) =>
      assert CompareLiteral(env, op, IntV(i), t, l) == Compare(op, IntV(i), IntV(j));
    case DecL(r) =>
      if Integral(r) && Fits(r.Floor, t.bits) {
        assert CompareLiteral(env, op, IntV(i), t, l) == Compare(op, IntV(i), IntV(r.Floor));
      } else {
        assert CompareLiteral(env, op, IntV(i), t, l) == Compare(op, DecV(i as real), DecV(r));
      }
    case DblL(f) =>
      assert CompareLiteral(env, op, IntV(i), t, l) == Compare(op, FloatV(Fin(RoundToDouble(i) as real)), FloatV(f));
    case _ =>
  }

  lemma IntegerBound(i: int, r: real, op: CmpOp)
    ensures WholeNumber(r, op).Some? ==>
              var (l', op') := WholeNumber(r, op).value;
              Holds(op, Sign(i as real - r)) == Holds(op', i - l'.i)
  {
    assert r.Floor as real <= r < r.Floor as real + 1.0;
    assert (-r).Floor as real <= -r < (-r).Floor as real + 1.0;
  }

  /** Below 2^53 a double literal splits the integers the way their rounded values fall. */
  lemma RoundingKeepsTheSide(i: int, r: real)
    requires -EXACT_DOUBLE_INT as real < r < EXACT_DOUBLE_INT as real
    ensures Sign(RoundToDouble(i) as real - r) == Sign(i as real - r)
  {
    if i < 0 {
      RoundMagnitudeBounds(-i);
    } else {
      RoundMagnitudeBounds(i);
    }
  }

  lemma RoundMagnitudeBounds(n: nat)
    ensures n < EXACT_DOUBLE_INT ==> RoundMagnitude(n) == n
    ensures n >= EXACT_DOUBLE_INT ==> RoundMagnitude(n) >= EXACT_DOUBLE_INT
  {
    var u := Spacing(n);
    if n >= EXACT_DOUBLE_INT {
      var q := n / u;
      QuotientAtLeast(n, u, EXACT_DOUBLE_INT / 2);
      assert q * u >= (EXACT_DOUBLE_INT / 2) * u by { MulMonotone(EXACT_DOUBLE_INT / 2, q, u); }
      MulMonotone(q, q + 1, u);
    }
  }

  lemma QuotientAtLeast(n: nat, u: nat, k: nat)
    requires u > 0 && u * k <= n
    ensures n / u >= k
  {
    assert n == u * (n / u) + n % u;
    if n / u < k {
      MulMonotone(n / u + 1, k, u);
    }
  }

  lemma MulMonotone(a: nat, b: nat, u: nat)
    requires a <= b
    ensures a * u <= b * u
  {
  }

  /**
   * The cut-off is as large as it can be: at 2^53 the filter rounds the column,
   * and 2^53 + 1 compares equal to the literal while the integers differ.
   */
  lemma CutOffIsTight(env: Engine)
    ensures var n := EXACT_DOUBLE_INT; var v := IntV(n + 1); var t := IntType(64);
            && Typed(v, t)
            && CompareLiteral(env, Eq, v, t, DblL(Fin(n as real))) == True
            && CompareLiteral(env, Eq, v, t, LongL(n)) == False
  {
    var n := EXACT_DOUBLE_INT;
    assert Spacing(n + 1) == 2 * Spacing((n + 1) / 2) == 2;
    assert RoundToDouble(n + 1) == n;
    LongFits();
  }

  lemma LongFits()
    ensures Pow2(63) == 0x8000_0000_0000_0000
  {
    assert Pow2(10) == 1024;
    assert Pow2(20) == 0x10_0000;
    assert Pow2(30) == 0x4000_0000;
    assert Pow2(40) == 0x100_0000_0000;
    assert Pow2(50) == 0x4_0000_0000_0000;
    assert Pow2(60) == 0x1000_0000_0000_0000;
  }
}
