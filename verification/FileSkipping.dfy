/** The soundness of skipping a whole file on its statistics. */
module FileSkipping {
  import opened Wrappers
  import opened Kleene
  import opened Values
  import opened Predicates
  import opened Skipping
  import opened SkippingSoundness

  /** What a file's `add` action says of one column: its least and greatest value, its NULLs. */
  datatype ColumnStats = ColumnStats(bounds: Option<(Value, Value)>, nulls: Option<nat>)
  type FileStats = map<Column, ColumnStats>

  /** `to_kernel_json` followed by the extension's conversion. */
  function SkippingPredicate(env: Engine, n: Native, schema: Schema, node: Node): Option<Kernel> {
    match Skip(schema, Prepare(env, schema, node, false), false)
    case None => None
    case Some(j) => Convert(n, schema, j, false)
  }

  function NullCount(file: seq<Row>, c: Column): nat {
    if file == [] then 0
    else (if Lookup(file[0], c).Null? then 1 else 0) + NullCount(file[1..], c)
  }

  /**
   * Bounds true of a file: every value but NaN lies between them. Those of a wide
   * decimal went through a double, and say nothing but that they are in order.
   */
  ghost predicate BoundsHold(t: Type, lo: Value, hi: Value, file: seq<Row>, c: Column) {
    && Typed(lo, t) && Typed(hi, t) && !lo.Null? && !hi.Null? && !IsNaN(lo) && !IsNaN(hi)
    && TotalOrder(lo, hi) <= 0
    && (UnsafeKind(t) != Some(WideDecimal) ==>
          forall row :: row in file ==>
            var v := Lookup(row, c);
            !v.Null? && !IsNaN(v) ==> Order(lo, v) <= 0 && Order(v, hi) <= 0)
  }

  ghost predicate Describes(stats: FileStats, schema: Schema, file: seq<Row>) {
    forall c :: c in stats && c in schema ==>
      && (stats[c].nulls.Some? ==> stats[c].nulls.value == NullCount(file, c))
      && (stats[c].bounds.Some? ==> BoundsHold(schema[c], stats[c].bounds.value.0, stats[c].bounds.value.1, file, c))
  }

  /** A row the kernel takes the file to possibly hold, reading its statistics at face value. */
  predicate AdmitsValue(s: ColumnStats, rows: nat, v: Value) {
    && (s.nulls == Some(0) ==> !v.Null?)
    && (s.nulls == Some(rows) ==> v.Null?)
    && (s.bounds.Some? && !v.Null? ==>
          TotalOrder(s.bounds.value.0, v) <= 0 && TotalOrder(v, s.bounds.value.1) <= 0)
  }

  ghost predicate Admits(stats: FileStats, schema: Schema, rows: nat, row: Row) {
    && TypedRow(schema, row)
    && forall c :: c in schema ==>
         !IsNaN(row[c]) && (c in stats ==> AdmitsValue(stats[c], rows, row[c]))
  }

  /** The most any pruner may conclude: no row the statistics allow satisfies the predicate. */
  ghost predicate Refuted(k: Kernel, stats: FileStats, schema: Schema, rows: nat) {
    forall row :: Admits(stats, schema, rows, row) ==> KEval(k, row) != True
  }

  lemma {:induction false} NullCountBounds(file: seq<Row>, row: Row, c: Column)
    requires row in file
    ensures NullCount(file, c) <= |file|
    ensures Lookup(row, c).Null? ==> NullCount(file, c) > 0
    ensures !Lookup(row, c).Null? ==> NullCount(file, c) < |file|
  {
    if row in file[1..] {
      NullCountBounds(file[1..], row, c);
    } else {
      NullCountAtMost(file[1..], c);
    }
  }

  lemma NullCountAtMost(file: seq<Row>, c: Column)
    ensures NullCount(file, c) <= |file|
  {
  }

  /** The admitted value that stands in for `v`: `v` moved into the bounds. */
  function Moved(s: Option<ColumnStats>, v: Value): Value {
    if v.Null? then v
    else if s.Some? && s.value.bounds.Some? then
      var (lo, hi) := s.value.bounds.value;
      if IsNaN(v) || TotalOrder(lo, v) > 0 then lo
      else if TotalOrder(v, hi) > 0 then hi
      else v
    else if IsNaN(v) then FloatV(Fin(1.0))
    else v
  }

  function StatsOf(stats: FileStats, c: Column): Option<ColumnStats> {
    if c in stats then Some(stats[c]) else None
  }

  lemma MovedIsShadow(stats: FileStats, schema: Schema, file: seq<Row>, row: Row, c: Column)
    requires row in file && TypedRow(schema, row) && Describes(stats, schema, file) && c in schema
    ensures ShadowOf(schema[c], row[c], Moved(StatsOf(stats, c), row[c]))
    ensures c in stats ==> AdmitsValue(stats[c], |file|, Moved(StatsOf(stats, c), row[c]))
  {
    var v := row[c];
    NullCountBounds(file, row, c);
    if !v.Null? && c in stats && stats[c].bounds.Some? {
      var (lo, hi) := stats[c].bounds.value;
      assert BoundsHold(schema[c], lo, hi, file, c);
      assert Lookup(row, c) == v;
      TotalOrderReflexive(lo);
      TotalOrderReflexive(hi);
      TotalOrderReflexive(v);
    }
  }

  lemma TotalOrderReflexive(v: Value)
    ensures TotalOrder(v, v) == 0
  {
    if v.TextV? {
      TextOrderEqual(v.s, v.s);
    }
  }

  /** Every row of the file has a stand-in the statistics admit. */
  lemma ShadowExists(stats: FileStats, schema: Schema, file: seq<Row>, row: Row) returns (shadow: Row)
    requires row in file && TypedRow(schema, row) && Describes(stats, schema, file)
    ensures Shadows(schema, row, shadow) && Admits(stats, schema, |file|, shadow)
  {
    shadow := map c | c in schema :: Moved(StatsOf(stats, c), row[c]);
    forall c | c in schema
      ensures ShadowOf(schema[c], row[c], shadow[c]) && (c in stats ==> AdmitsValue(stats[c], |file|, shadow[c]))
    {
      MovedIsShadow(stats, schema, file, row, c);
    }
  }

  /** A file is never skipped while it holds a row the predicate keeps. */
  lemma SkippingLosesNoRow(env: Engine, n: Native, schema: Schema, node: Node, stats: FileStats, file: seq<Row>, row: Row)
    requires TextAgrees(env, n) && DoublesDecide(env, n)
    requires row in file && TypedRow(schema, row) && Describes(stats, schema, file)
    requires SkippingPredicate(env, n, schema, node).Some?
    requires Refuted(SkippingPredicate(env, n, schema, node).value, stats, schema, |file|)
    ensures Eval(env, schema, node, row) != True
  {
    var prepared := Prepare(env, schema, node, false);
    var j := Skip(schema, prepared, false).value;
    var shadow := ShadowExists(stats, schema, file, row);
    PrepareWeakens(env, schema, node, false, row);
    SkipWeakens(env, schema, prepared, false, row);
    SkipIsDecidable(schema, prepared, false);
    ConvertWeakens(env, n, schema, j, false, row, shadow);
  }

  const ONE := FloatV(Fin(1.0))

  function AboveTwo(c: Column): Node {
    Cmp(Gt, Col(c), Lit(DblL(Fin(2.0))))
  }

  function NaNRow(c: Column): Row {
    map[c := FloatV(NaN)]
  }

  /** The statistics of a file whose greatest number is 1, its NaNs left out. */
  function UpToOne(c: Column): FileStats {
    map[c := ColumnStats(Some((ONE, ONE)), Some(0))]
  }

  lemma NaNIsDescribed(c: Column)
    ensures Describes(UpToOne(c), map[c := DOUBLE], [NaNRow(c)])
  {
    assert NullCount([NaNRow(c)], c) == 0;
  }

  lemma NaNIsAbove(env: Engine, c: Column)
    ensures Eval(env, map[c := DOUBLE], AboveTwo(c), NaNRow(c)) == True
  {
  }

  lemma OneIsBelow(n: Native, c: Column)
    requires n.accepts(DblL(Fin(2.0)), DOUBLE)
    ensures var schema: Schema := map[c := DOUBLE]; var k := Convert(n, schema, SkipLeaf(AboveTwo(c)).value, false);
            k.Some? && Refuted(k.value, UpToOne(c), schema, 1)
  {
    var schema: Schema := map[c := DOUBLE];
    assert SkipLeaf(AboveTwo(c)) == Some(JCmp(Gt, Col(c), Lit(DblL(Fin(2.0)))));
    TwoConverts(n, schema, c);
    NoneAboveTwo(c);
  }

  lemma TwoConverts(n: Native, schema: Schema, c: Column)
    requires n.accepts(DblL(Fin(2.0)), DOUBLE) && c in schema && schema[c] == DOUBLE
    ensures Convert(n, schema, JCmp(Gt, Col(c), Lit(DblL(Fin(2.0)))), false) == Some(KLiteral(Gt, c, FloatV(Fin(2.0))))
  {
  }

  lemma NoneAboveTwo(c: Column)
    ensures Refuted(KLiteral(Gt, c, FloatV(Fin(2.0))), UpToOne(c), map[c := DOUBLE], 1)
  {
  }

  lemma FloatIsUndecided(c: Column)
    ensures !StatsCanDecide(map[c := DOUBLE], AboveTwo(c), false)
  {
    var schema: Schema := map[c := DOUBLE];
    assert Col(c) in LeafOperands(AboveTwo(c));
    KindOfOperand(schema, LeafOperands(AboveTwo(c)), Col(c));
    assert forall o :: o in LeafOperands(AboveTwo(c)) ==> Renderable(o);
  }

  /**
   * Why `_stats_can_decide` is there: sent without it, `f > 2` refutes a file whose
   * greatest number is 1 and which holds a NaN, a row the filter keeps.
   */
  lemma UnguardedFloatLosesNaN(env: Engine, n: Native, c: Column)
    requires n.accepts(DblL(Fin(2.0)), DOUBLE)
    ensures var schema: Schema := map[c := DOUBLE]; var k := Convert(n, schema, SkipLeaf(AboveTwo(c)).value, false);
            && Describes(UpToOne(c), schema, [NaNRow(c)]) && Eval(env, schema, AboveTwo(c), NaNRow(c)) == True
            && k.Some? && Refuted(k.value, UpToOne(c), schema, 1)
            && !StatsCanDecide(schema, AboveTwo(c), false)
  {
    NaNIsDescribed(c);
    NaNIsAbove(env, c);
    OneIsBelow(n, c);
    FloatIsUndecided(c);
  }
}
