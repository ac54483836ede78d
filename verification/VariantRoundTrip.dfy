/** Decoding what the Variant encoder wrote gives the same tree, wherever the bytes lie. */
module VariantRoundTrip {
  import opened Wrappers
  import opened Bytes
  import opened Text
  import opened Decimals
  import opened Variant

  // -------------------------------------------------------- what a tree means

  /** A fraction as it is stored: its digits past the 28th rounded away. */
  predicate FractionMeans(t: Tree, negative: bool, coefficient: nat, places: nat, double: Doubles) {
    if Max(Digits(coefficient), places) <= 38 then
      t == TDecimal(Signed(negative, Round28(coefficient)), places)
    else
      var d := double(Fraction(negative, coefficient, places));
      d.Some? && t == TDouble(d.value)
  }

  predicate WholeMeans(t: Tree, n: int, double: Doubles) {
    if InInt(n, 8) then t == TInt(n)
    else if Digits(Abs(n)) <= 38 then t == TDecimal(n, 0)
    else double(Whole(n)).Some? && t == TDouble(double(Whole(n)).value)
  }

  /** `t` is `item`: the same shape and values, an object's fields by name, in Java's order. */
  predicate Means(t: Tree, item: Item, double: Doubles)
    decreases item
  {
    match item
    case Null => t == TNull
    case Bool(b) => t == TBool(b)
    case Whole(n) => WholeMeans(t, n, double)
    case Fraction(negative, coefficient, places) => FractionMeans(t, negative, coefficient, places, double)
    case Scientific(_) => double(item).Some? && t == TDouble(double(item).value)
    case Str(s) => t == TText(s)
    case List(items) =>
      t.TArray? && |t.items| == |items| && forall i :: 0 <= i < |items| ==> Means(t.items[i], items[i], double)
    case Object(fields) =>
      && t.TObject? && |t.names| == |t.values| && t.names == Sorted(fields.Keys)
      && forall i :: 0 <= i < |t.names| ==> Means(t.values[i], fields[t.names[i]], double)
  }

  // ---------------------------------------------------------------- containers

  lemma HeaderReads(w: nat, v: nat, large: bool)
    requires 1 <= w <= 4 && 1 <= v <= 4
    ensures var head := (w - 1) + 4 * (v - 1) + 16 * Bit(large);
            (2 + 4 * head) % 4 == 2 && (2 + 4 * head) / 4 == head
            && head % 4 + 1 == w && head / 4 % 4 + 1 == v && (head / 16 % 2 == 1) == large
    ensures var head := (w - 1) + 4 * Bit(large);
            (3 + 4 * head) % 4 == 3 && (3 + 4 * head) / 4 == head
            && head % 4 + 1 == w && (head / 4 % 2 == 1) == large
  {
  }

  /** The four parts of a container's bytes, each where the decoder looks for it. */
  lemma FivePieces(value: seq<Byte>, pos: nat, h: seq<Byte>, a: seq<Byte>, b: seq<Byte>, c: seq<Byte>, d: seq<Byte>)
    requires Holds(value, pos, h + a + b + c + d)
    ensures Holds(value, pos, h) && Holds(value, pos + |h|, a) && Holds(value, pos + |h| + |a|, b)
    ensures Holds(value, pos + |h| + |a| + |b|, c) && Holds(value, pos + |h| + |a| + |b| + |c|, d)
  {
    var all := h + a + b + c + d;
    assert all == [] + h + (a + b + c + d) && all == h + a + (b + c + d);
    assert all == (h + a) + b + (c + d) && all == (h + a + b) + c + d && all == (h + a + b + c) + d + [];
    HoldsPiece(value, pos, [], h, a + b + c + d);
    HoldsPiece(value, pos, h, a, b + c + d);
    HoldsPiece(value, pos, h + a, b, c + d);
    HoldsPiece(value, pos, h + a + b, c, d);
    HoldsPiece(value, pos, h + a + b + c, d, []);
  }

  lemma CountReads(value: seq<Byte>, at: nat, n: nat, size: nat)
    requires ToBytes(n, size).Some? && Holds(value, at, ToBytes(n, size).value)
    ensures IntAt(value, at, size) == n
  {
    LeRoundTrip(n, size);
    SliceHeld(value, at, Le(n, size));
  }

  /** The value bytes of part `i`, which its offset leads to. */
  lemma PartHeld(value: seq<Byte>, at: nat, parts: seq<seq<Byte>>, i: nat)
    requires Holds(value, at, Join(parts)) && i < |parts|
    ensures Holds(value, at + Start(parts, i), parts[i])
  {
    PartAt(parts, i);
    var s := Start(parts, i);
    SliceOfSlice(value, at, at + |Join(parts)|, s, s + |parts[i]|);
  }

  ghost predicate LaidOut(value: seq<Byte>, l: Layout, parts: seq<seq<Byte>>, fieldIds: Option<seq<nat>>) {
    && l.count == |parts|
    && Fields(value, l.offsetsAt, l.count, l.offsetSize) == Offsets(parts)[..|parts|]
    && Holds(value, l.valuesAt, Join(parts))
    && (fieldIds.Some? ==> Fields(value, l.idsAt, l.count, l.idSize) == fieldIds.value)
  }

  lemma PrefixTables(parts: seq<seq<Byte>>, fieldIds: Option<seq<nat>>)
    requires Prefix(parts, fieldIds).Some?
    ensures var (_, count, ids, table) := Prefix(parts, fieldIds).value;
            && ToBytes(|parts|, if |parts| > 255 then 4 else 1) == Some(count)
            && Table(Offsets(parts), Width(|Join(parts)|)) == Some(table)
            && (fieldIds.Some? ==> Table(fieldIds.value, Width(Largest(fieldIds.value))) == Some(ids))
  {
  }

  /** The header of a container leads to its widths, and the count follows. */
  lemma PrefixHead(value: seq<Byte>, pos: nat, parts: seq<seq<Byte>>, fieldIds: Option<seq<nat>>)
    requires Prefix(parts, fieldIds).Some?
    requires var (h, count, _, _) := Prefix(parts, fieldIds).value;
             Holds(value, pos, [h]) && Holds(value, pos + 1, count)
    ensures pos < |value| && value[pos] % 4 == if fieldIds.Some? then 2 else 3
    ensures var l := LayoutAt(value, pos); var (_, count, _, _) := Prefix(parts, fieldIds).value;
            && l.count == |parts| && l.idsAt == pos + 1 + |count| && l.offsetSize == Width(|Join(parts)|)
            && (fieldIds.Some? ==> l.idSize == Width(Largest(fieldIds.value)))
  {
    var (h, count, _, _) := Prefix(parts, fieldIds).value;
    assert value[pos..pos + 1] == [h];
    assert value[pos] == value[pos..pos + 1][0] == h;
    HeaderReads(Width(|Join(parts)|), if fieldIds.Some? then Width(Largest(fieldIds.value)) else 1, |parts| > 255);
    CountReads(value, pos + 1, |parts|, if |parts| > 255 then 4 else 1);
  }

  lemma PrefixReads(value: seq<Byte>, pos: nat, parts: seq<seq<Byte>>, fieldIds: Option<seq<nat>>)
    requires Prefix(parts, fieldIds).Some? && (fieldIds.Some? ==> |fieldIds.value| == |parts|)
    requires var (h, count, ids, table) := Prefix(parts, fieldIds).value;
             Holds(value, pos, [h]) && Holds(value, pos + 1, count)
    ensures pos < |value| && value[pos] % 4 == if fieldIds.Some? then 2 else 3
    ensures var (h, count, ids, table) := Prefix(parts, fieldIds).value;
            var l := LayoutAt(value, pos);
            && l.count == |parts| && l.idsAt == pos + 1 + |count| && l.offsetsAt == l.idsAt + |ids|
            && l.valuesAt == l.offsetsAt + |table| && l.offsetSize == Width(|Join(parts)|)
            && (fieldIds.Some? ==> l.idSize == Width(Largest(fieldIds.value)))
  {
    PrefixHead(value, pos, parts, fieldIds);
    PrefixTables(parts, fieldIds);
    TableLength(Offsets(parts), Width(|Join(parts)|));
    if fieldIds.Some? {
      TableLength(fieldIds.value, Width(Largest(fieldIds.value)));
    }
  }

  /** The decoder reads all offsets but the last. */
  lemma {:induction false} FieldsPrefix(data: seq<Byte>, at: nat, count: nat, width: nat)
    ensures Fields(data, at, count + 1, width)[..count] == Fields(data, at, count, width)
    decreases count
  {
    if count > 0 {
      FieldsPrefix(data, at + width, count - 1, width);
    }
  }

  lemma TablesRead(value: seq<Byte>, l: Layout, parts: seq<seq<Byte>>, fieldIds: Option<seq<nat>>, ids: seq<Byte>, table: seq<Byte>)
    requires l.count == |parts| && (fieldIds.Some? ==> |fieldIds.value| == |parts|)
    requires Table(Offsets(parts), l.offsetSize) == Some(table) && Holds(value, l.offsetsAt, table)
    requires fieldIds.Some? ==> Table(fieldIds.value, l.idSize) == Some(ids) && Holds(value, l.idsAt, ids)
    requires Holds(value, l.valuesAt, Join(parts))
    ensures LaidOut(value, l, parts, fieldIds)
  {
    TableHeld(value, l.offsetsAt, Offsets(parts), l.offsetSize);
    FieldsPrefix(value, l.offsetsAt, |parts|, l.offsetSize);
    if fieldIds.Some? {
      TableHeld(value, l.idsAt, fieldIds.value, l.idSize);
    }
  }

  /** The pieces of a container lie one behind the other. */
  lemma PiecesHeld(value: seq<Byte>, pos: nat, parts: seq<seq<Byte>>, fieldIds: Option<seq<nat>>)
    requires Container(parts, fieldIds).Some? && Holds(value, pos, Container(parts, fieldIds).value)
    ensures Prefix(parts, fieldIds).Some?
    ensures var (h, count, ids, table) := Prefix(parts, fieldIds).value; var at := pos + 1 + |count|;
            && Holds(value, pos, [h]) && Holds(value, pos + 1, count) && Holds(value, at, ids)
            && Holds(value, at + |ids|, table) && Holds(value, at + |ids| + |table|, Join(parts))
  {
    var (h, count, ids, table) := Prefix(parts, fieldIds).value;
    FivePieces(value, pos, [h], count, ids, table, Join(parts));
  }

  /** Whatever widths were chosen, the decoder finds the count, every id and every value's bytes. */
  lemma ContainerIsLaidOut(value: seq<Byte>, pos: nat, parts: seq<seq<Byte>>, fieldIds: Option<seq<nat>>)
    requires Container(parts, fieldIds).Some? && Holds(value, pos, Container(parts, fieldIds).value)
    requires fieldIds.Some? ==> |fieldIds.value| == |parts|
    ensures pos < |value| && value[pos] % 4 == if fieldIds.Some? then 2 else 3
    ensures LaidOut(value, LayoutAt(value, pos), parts, fieldIds)
  {
    PiecesHeld(value, pos, parts, fieldIds);
    PrefixReads(value, pos, parts, fieldIds);
    PrefixTables(parts, fieldIds);
    var (_, _, ids, table) := Prefix(parts, fieldIds).value;
    TablesRead(value, LayoutAt(value, pos), parts, fieldIds, ids, table);
  }

  // ------------------------------------------------------------------- scalars

  lemma BodyHeld(value: seq<Byte>, pos: nat, h: Byte, body: seq<Byte>)
    requires Holds(value, pos, [h] + body)
    ensures value[pos] == h && Holds(value, pos + 1, body)
    ensures Slice(value, pos + 1, |body|) == body
  {
    assert [h] + body == [] + [h] + body && [h] + body == [h] + body + [];
    HoldsPiece(value, pos, [], [h], body);
    HoldsPiece(value, pos, [h], body, []);
    assert value[pos] == value[pos..pos + 1][0];
  }

  /** A header of a primitive type leads to its body. */
  lemma PrimitiveReads(value: seq<Byte>, pos: nat, keys: seq<string>, head: nat)
    requires pos < |value| && head <= 63 && value[pos] == 4 * head
    ensures Read(value, pos, keys) == ReadPrimitive(value, pos + 1, head)
  {
    assert (4 * head) % 4 == 0 && 4 * head / 4 == head;
  }

  lemma SignedHeld(value: seq<Byte>, at: nat, n: int, size: nat)
    requires ToSigned(n, size).Some? && Holds(value, at, ToSigned(n, size).value)
    ensures SignedAt(value, at, size) == n
  {
    SignedRoundTrip(n, size);
    SliceHeld(value, at, ToSigned(n, size).value);
  }

  lemma IntegerReads(n: int, head: nat, size: nat, value: seq<Byte>, pos: nat, keys: seq<string>)
    requires (head == 3 && size == 1) || (head == 4 && size == 2) || (head == 5 && size == 4) || (head == 6 && size == 8)
    requires IntegerBytes(n, head, size).Some? && Holds(value, pos, IntegerBytes(n, head, size).value)
    ensures Read(value, pos, keys) == Some(TInt(n))
  {
    BodyHeld(value, pos, 4 * head, ToSigned(n, size).value);
    PrimitiveReads(value, pos, keys, head);
    SignedHeld(value, pos + 1, n, size);
  }

  lemma DoubleReads(item: Item, double: Doubles, value: seq<Byte>, pos: nat, keys: seq<string>)
    requires DoubleBytes(item, double).Some? && Holds(value, pos, DoubleBytes(item, double).value)
    ensures double(item).Some? && Read(value, pos, keys) == Some(TDouble(double(item).value))
  {
    BodyHeld(value, pos, 28, double(item).value);
    PrimitiveReads(value, pos, keys, 7);
  }

  lemma DecimalReads(unscaled: int, scale: nat, digits: nat, value: seq<Byte>, pos: nat, keys: seq<string>)
    requires DecimalBytes(unscaled, scale, digits).Some? && Holds(value, pos, DecimalBytes(unscaled, scale, digits).value)
    ensures Read(value, pos, keys) == Some(TDecimal(unscaled, scale))
  {
    var (head, size) := if digits <= 9 then (8, 4) else if digits <= 18 then (9, 8) else (10, 16);
    var b := ToSigned(unscaled, size).value;
    assert [4 * head, scale] + b == [4 * head] + ([scale] + b);
    DecimalOfWidthReads(unscaled, scale, head, size, value, pos, keys);
  }

  lemma DecimalOfWidthReads(unscaled: int, scale: Byte, head: nat, size: nat, value: seq<Byte>, pos: nat, keys: seq<string>)
    requires (head == 8 && size == 4) || (head == 9 && size == 8) || (head == 10 && size == 16)
    requires ToSigned(unscaled, size).Some? && Holds(value, pos, [4 * head] + ([scale] + ToSigned(unscaled, size).value))
    ensures Read(value, pos, keys) == Some(TDecimal(unscaled, scale))
  {
    BodyHeld(value, pos, 4 * head, [scale] + ToSigned(unscaled, size).value);
    PrimitiveReads(value, pos, keys, head);
    DecimalBodyReads(unscaled, scale, head, size, value, pos + 1);
  }

  lemma DecimalBodyReads(unscaled: int, scale: Byte, head: nat, size: nat, value: seq<Byte>, body: nat)
    requires (head == 8 && size == 4) || (head == 9 && size == 8) || (head == 10 && size == 16)
    requires ToSigned(unscaled, size).Some? && Holds(value, body, [scale] + ToSigned(unscaled, size).value)
    ensures ReadPrimitive(value, body, head) == Some(TDecimal(unscaled, scale))
  {
    BodyHeld(value, body, scale, ToSigned(unscaled, size).value);
    SignedHeld(value, body + 1, unscaled, size);
  }

  lemma ShortStringReads(s: string, value: seq<Byte>, pos: nat, keys: seq<string>)
    requires |Utf8(s)| <= 63 && Holds(value, pos, [4 * |Utf8(s)| + 1] + Utf8(s))
    ensures Read(value, pos, keys) == Some(TText(s))
  {
    var raw := Utf8(s);
    Utf8RoundTrip(s);
    BodyHeld(value, pos, 4 * |raw| + 1, raw);
    TextReads(value, pos, keys, |raw|);
  }

  /** A header of a short string leads to its bytes. */
  lemma TextReads(value: seq<Byte>, pos: nat, keys: seq<string>, size: nat)
    requires pos < |value| && size <= 63 && value[pos] == 4 * size + 1
    ensures Read(value, pos, keys) == ReadText(value, pos + 1, size)
  {
    assert (4 * size + 1) % 4 == 1 && (4 * size + 1) / 4 == size;
  }

  lemma LongStringReads(s: string, value: seq<Byte>, pos: nat, keys: seq<string>)
    requires |Utf8(s)| < Pow256(4) && Holds(value, pos, [64] + Le(|Utf8(s)|, 4) + Utf8(s))
    ensures Read(value, pos, keys) == Some(TText(s))
  {
    var raw := Utf8(s);
    var size := Le(|raw|, 4);
    assert [64] + size + raw == [64] + (size + raw);
    BodyHeld(value, pos, 64, size + raw);
    HoldsSplit(value, pos + 1, size, raw);
    LongBodyReads(s, value, pos + 1);
  }

  lemma LongBodyReads(s: string, value: seq<Byte>, body: nat)
    requires |Utf8(s)| < Pow256(4) && Holds(value, body, Le(|Utf8(s)|, 4)) && Holds(value, body + 4, Utf8(s))
    ensures ReadPrimitive(value, body, 16) == Some(TText(s))
  {
    Utf8RoundTrip(s);
    CountReads(value, body, |Utf8(s)|, 4);
    SliceHeld(value, body + 4, Utf8(s));
  }

  lemma StringReads(s: string, value: seq<Byte>, pos: nat, keys: seq<string>)
    requires StringBytes(s).Some? && Holds(value, pos, StringBytes(s).value)
    ensures Read(value, pos, keys) == Some(TText(s))
  {
    if |Utf8(s)| <= 63 {
      ShortStringReads(s, value, pos, keys);
    } else {
      LongStringReads(s, value, pos, keys);
    }
  }

  lemma WholeReads(n: int, double: Doubles, value: seq<Byte>, pos: nat, keys: seq<string>)
    requires WholeBytes(n, double).Some? && Holds(value, pos, WholeBytes(n, double).value)
    ensures Read(value, pos, keys).Some? && WholeMeans(Read(value, pos, keys).value, n, double)
  {
    Powers();
    if InInt(n, 1) {
      IntegerReads(n, 3, 1, value, pos, keys);
    } else if InInt(n, 2) {
      IntegerReads(n, 4, 2, value, pos, keys);
    } else if InInt(n, 4) {
      IntegerReads(n, 5, 4, value, pos, keys);
    } else if InInt(n, 8) {
      IntegerReads(n, 6, 8, value, pos, keys);
    } else if Digits(Abs(n)) <= 38 {
      DecimalReads(n, 0, Digits(Abs(n)), value, pos, keys);
    } else {
      DoubleReads(Whole(n), double, value, pos, keys);
    }
  }

  lemma FractionReads(negative: bool, coefficient: nat, places: nat, double: Doubles, value: seq<Byte>, pos: nat, keys: seq<string>)
    requires FractionBytes(negative, coefficient, places, double).Some?
    requires Holds(value, pos, FractionBytes(negative, coefficient, places, double).value)
    ensures Read(value, pos, keys).Some?
    ensures FractionMeans(Read(value, pos, keys).value, negative, coefficient, places, double)
  {
    var precision := Max(Digits(coefficient), places);
    if precision <= 38 {
      DecimalReads(Signed(negative, Round28(coefficient)), places, precision, value, pos, keys);
    } else {
      DoubleReads(Fraction(negative, coefficient, places), double, value, pos, keys);
    }
  }

  // ---------------------------------------------------------------- round trip

  /** `ids` numbers the keys by their place in `keys`. */
  ghost predicate Numbers(ids: map<string, nat>, keys: seq<string>) {
    forall n :: n in ids ==> ids[n] < |keys| && keys[ids[n]] == n
  }

  function FieldIds(item: Item, ids: map<string, nat>): Option<seq<nat>>
    requires item.Object? ==> forall n :: n in item.fields ==> n in ids
  {
    if item.Object? then
      var names := Sorted(item.fields.Keys);
      Some(seq(|names|, i requires 0 <= i < |names| => ids[names[i]]))
    else None
  }

  lemma EncodeFromStep(item: Item, i: nat, ids: map<string, nat>, double: Doubles, parts: seq<seq<Byte>>)
    requires i < |parts| == Count(item) && EncodeFrom(item, i, ids, double) == Some(parts[i..])
    ensures Encode(Child(item, i), ids, double) == Some(parts[i])
    ensures EncodeFrom(item, i + 1, ids, double) == Some(parts[i + 1..])
  {
    assert parts[i..][0] == parts[i] && parts[i..][1..] == parts[i + 1..];
  }

  ghost function ChildMeans(item: Item, double: Doubles): (Tree, nat) -> bool {
    (t: Tree, k: nat) => k < Count(item) && Means(t, Child(item, k), double)
  }

  /** `values` are as many as are left from `i` to `n`, and each is what `means` says of its place. */
  ghost predicate AllMean(values: seq<Tree>, means: (Tree, nat) -> bool, i: nat, n: nat)
    decreases |values|
  {
    if i >= n then values == [] && i == n
    else values != [] && means(values[0], i) && AllMean(values[1..], means, i + 1, n)
  }

  /** The values read from `i` on are the children of `item` from `i` on. */
  ghost predicate ValuesMean(values: seq<Tree>, item: Item, i: nat, double: Doubles) {
    AllMean(values, ChildMeans(item, double), i, Count(item))
  }

  lemma {:induction false} EachMeans(values: seq<Tree>, means: (Tree, nat) -> bool, i: nat, n: nat, j: nat)
    requires AllMean(values, means, i, n) && j < |values|
    ensures means(values[j], i + j)
    decreases |values|
  {
    if j > 0 {
      EachMeans(values[1..], means, i + 1, n, j - 1);
      assert values[1..][j - 1] == values[j] && i + 1 + (j - 1) == i + j;
    }
  }

  lemma {:induction false} AllMeanLength(values: seq<Tree>, means: (Tree, nat) -> bool, i: nat, n: nat)
    requires AllMean(values, means, i, n)
    ensures i + |values| == n
    decreases |values|
  {
    if i < n {
      AllMeanLength(values[1..], means, i + 1, n);
    }
  }

  lemma ValueMeans(values: seq<Tree>, item: Item, double: Doubles, j: nat)
    requires ValuesMean(values, item, 0, double) && j < |values|
    ensures j < Count(item) && Means(values[j], Child(item, j), double)
  {
    EachMeans(values, ChildMeans(item, double), 0, Count(item), j);
  }

  lemma ValuesMeanStep(t: Tree, rest: seq<Tree>, item: Item, i: nat, double: Doubles)
    requires i < Count(item) && Means(t, Child(item, i), double) && ValuesMean(rest, item, i + 1, double)
    ensures ValuesMean([t] + rest, item, i, double)
  {
    assert ([t] + rest)[1..] == rest;
  }

  lemma ReadAllStep(value: seq<Byte>, base: nat, offsets: seq<nat>, i: nat, keys: seq<string>)
    requires i < |offsets|
    requires Read(value, base + offsets[i], keys).Some? && ReadAll(value, base, offsets[i + 1..], keys).Some?
    ensures ReadAll(value, base, offsets[i..], keys)
         == Some([Read(value, base + offsets[i], keys).value] + ReadAll(value, base, offsets[i + 1..], keys).value)
  {
    assert offsets[i..][0] == offsets[i] && offsets[i..][1..] == offsets[i + 1..];
  }

  /** Reading the values of a container from `i` on. */
  lemma {:induction false} ValuesRead(item: Item, i: nat, parts: seq<seq<Byte>>, ids: map<string, nat>, double: Doubles, keys: seq<string>, value: seq<Byte>, base: nat)
    requires (item.List? || item.Object?) && i <= |parts| == Count(item) && Numbers(ids, keys)
    requires Holds(value, base, Join(parts)) && EncodeFrom(item, i, ids, double) == Some(parts[i..])
    ensures var r := ReadAll(value, base, Offsets(parts)[..|parts|][i..], keys);
            r.Some? && ValuesMean(r.value, item, i, double)
    decreases item, 0, Count(item) - i
  {
    if i < Count(item) {
      EncodeFromStep(item, i, ids, double, parts);
      PartHeld(value, base, parts, i);
      ChildReads(item, i, ids, double, keys, value, base + Start(parts, i));
      ValuesRead(item, i + 1, parts, ids, double, keys, value, base);
      ValuesReadStep(item, i, Offsets(parts)[..|parts|], double, keys, value, base);
    } else {
      assert Offsets(parts)[..|parts|][i..] == [];
    }
  }

  lemma {:induction false} ChildReads(item: Item, i: nat, ids: map<string, nat>, double: Doubles, keys: seq<string>, value: seq<Byte>, at: nat)
    requires (item.List? || item.Object?) && i < Count(item) && Numbers(ids, keys)
    requires Encode(Child(item, i), ids, double).Some? && Holds(value, at, Encode(Child(item, i), ids, double).value)
    ensures Read(value, at, keys).Some? && Means(Read(value, at, keys).value, Child(item, i), double)
    decreases item, 0, 0
  {
    if item.List? {
      RoundTrip(item.items[i], ids, double, keys, value, at);
    } else {
      RoundTrip(item.fields[Sorted(item.fields.Keys)[i]], ids, double, keys, value, at);
    }
  }

  lemma ValuesReadStep(item: Item, i: nat, offsets: seq<nat>, double: Doubles, keys: seq<string>, value: seq<Byte>, base: nat)
    requires i < |offsets| == Count(item) && Read(value, base + offsets[i], keys).Some?
    requires Means(Read(value, base + offsets[i], keys).value, Child(item, i), double)
    requires var r := ReadAll(value, base, offsets[i + 1..], keys); r.Some? && ValuesMean(r.value, item, i + 1, double)
    ensures var r := ReadAll(value, base, offsets[i..], keys); r.Some? && ValuesMean(r.value, item, i, double)
  {
    ReadAllStep(value, base, offsets, i, keys);
    ValuesMeanStep(Read(value, base + offsets[i], keys).value, ReadAll(value, base, offsets[i + 1..], keys).value, item, i, double);
  }

  /** The bytes of `item`, wherever they lie in a buffer, read back as `item`. */
  lemma {:induction false} RoundTrip(item: Item, ids: map<string, nat>, double: Doubles, keys: seq<string>, value: seq<Byte>, pos: nat)
    requires Numbers(ids, keys)
    requires Encode(item, ids, double).Some? && Holds(value, pos, Encode(item, ids, double).value)
    ensures Read(value, pos, keys).Some? && Means(Read(value, pos, keys).value, item, double)
    decreases item, 1, 0
  {
    if item.List? || item.Object? {
      var parts := EncodeFrom(item, 0, ids, double).value;
      ContainerEncodes(item, ids, double, parts);
      ContainerIsLaidOut(value, pos, parts, FieldIds(item, ids));
      var base := LayoutAt(value, pos).valuesAt;
      var offsets := Offsets(parts)[..|parts|];
      assert parts[0..] == parts && offsets[0..] == offsets;
      ValuesRead(item, 0, parts, ids, double, keys, value, base);
      ContainerReads(item, ids, keys, double, value, pos, parts, ReadAll(value, base, offsets, keys).value);
    } else {
      ScalarReads(item, ids, double, keys, value, pos);
    }
  }

  lemma ScalarReads(item: Item, ids: map<string, nat>, double: Doubles, keys: seq<string>, value: seq<Byte>, pos: nat)
    requires !item.List? && !item.Object?
    requires Encode(item, ids, double).Some? && Holds(value, pos, Encode(item, ids, double).value)
    ensures Read(value, pos, keys).Some? && Means(Read(value, pos, keys).value, item, double)
  {
    match item
    case Null =>
      BodyHeld(value, pos, 0, []);
    case Bool(b) =>
      BodyHeld(value, pos, if b then 4 else 8, []);
    case Whole(n) => WholeReads(n, double, value, pos, keys);
    case Fraction(negative, coefficient, places) =>
      FractionReads(negative, coefficient, places, double, value, pos, keys);
    case Scientific(_) => DoubleReads(item, double, value, pos, keys);
    case Str(s) => StringReads(s, value, pos, keys);
  }

  lemma ContainerEncodes(item: Item, ids: map<string, nat>, double: Doubles, parts: seq<seq<Byte>>)
    requires item.List? || item.Object?
    requires Encode(item, ids, double).Some? && EncodeFrom(item, 0, ids, double) == Some(parts)
    ensures item.Object? ==> forall n :: n in item.fields ==> n in ids
    ensures Encode(item, ids, double) == Container(parts, FieldIds(item, ids))
  {
  }

  lemma ContainerReads(item: Item, ids: map<string, nat>, keys: seq<string>, double: Doubles, value: seq<Byte>, pos: nat, parts: seq<seq<Byte>>, values: seq<Tree>)
    requires (item.List? || item.Object?) && Numbers(ids, keys)
    requires item.Object? ==> forall n :: n in item.fields ==> n in ids
    requires pos < |value| && value[pos] % 4 == (if item.Object? then 2 else 3) && |parts| == Count(item)
    requires LaidOut(value, LayoutAt(value, pos), parts, FieldIds(item, ids))
    requires ReadAll(value, LayoutAt(value, pos).valuesAt, Offsets(parts)[..|parts|], keys) == Some(values)
    requires ValuesMean(values, item, 0, double)
    ensures Read(value, pos, keys).Some? && Means(Read(value, pos, keys).value, item, double)
  {
    if item.List? {
      assert Read(value, pos, keys) == Some(TArray(values));
      ListMeans(item, values, double);
    } else {
      NamesRead(item, ids, keys);
      assert Read(value, pos, keys) == Some(TObject(Sorted(item.fields.Keys), values));
      ObjectMeans(item, values, double);
    }
  }

  lemma ListMeans(item: Item, values: seq<Tree>, double: Doubles)
    requires item.List? && ValuesMean(values, item, 0, double)
    ensures Means(TArray(values), item, double)
  {
    AllMeanLength(values, ChildMeans(item, double), 0, Count(item));
    forall i | 0 <= i < |item.items| ensures Means(values[i], item.items[i], double) {
      ValueMeans(values, item, double, i);
    }
  }

  lemma ObjectMeans(item: Item, values: seq<Tree>, double: Doubles)
    requires item.Object? && ValuesMean(values, item, 0, double)
    ensures Means(TObject(Sorted(item.fields.Keys), values), item, double)
  {
    var names := Sorted(item.fields.Keys);
    AllMeanLength(values, ChildMeans(item, double), 0, Count(item));
    forall i | 0 <= i < |names| ensures Means(values[i], item.fields[names[i]], double) {
      ValueMeans(values, item, double, i);
    }
  }

  lemma LookupAll(keys: seq<string>, ids: seq<nat>, names: seq<string>)
    requires |ids| == |names| && forall i :: 0 <= i < |ids| ==> ids[i] < |keys| && keys[ids[i]] == names[i]
    ensures Lookup(keys, ids) == Some(names)
  {
    assert Lookup(keys, ids).value == names;
  }

  lemma NamesRead(item: Item, ids: map<string, nat>, keys: seq<string>)
    requires item.Object? && Numbers(ids, keys) && (forall n :: n in item.fields ==> n in ids)
    ensures Lookup(keys, FieldIds(item, ids).value) == Some(Sorted(item.fields.Keys))
  {
    var names := Sorted(item.fields.Keys);
    var stored := FieldIds(item, ids).value;
    forall i | 0 <= i < |names| ensures stored[i] < |keys| && keys[stored[i]] == names[i] {
      assert names[i] in names;
    }
    LookupAll(keys, stored, names);
  }

  // ------------------------------------------------------------------ metadata

  lemma TextsStep(metadata: seq<Byte>, base: nat, a: nat, tail: seq<nat>)
    requires tail != [] && a <= tail[0]
    ensures Texts(metadata, base, [a] + tail) == [Slice(metadata, base + a, tail[0] - a)] + Texts(metadata, base, tail)
  {
    assert ([a] + tail)[1..] == tail;
  }

  /** The offsets of parts that start at `at`. */
  function StartsFrom(parts: seq<seq<Byte>>, at: nat): (s: seq<nat>)
    ensures |s| == |parts| + 1 && s[0] == at
  {
    if parts == [] then [at] else [at] + StartsFrom(parts[1..], at + |parts[0]|)
  }

  lemma {:induction false} StartsFromAt(parts: seq<seq<Byte>>, at: nat, i: nat)
    requires i <= |parts|
    ensures StartsFrom(parts, at)[i] == at + Start(parts, i)
  {
    if i > 0 {
      StartsFromAt(parts[1..], at + |parts[0]|, i - 1);
    }
  }

  lemma OffsetsAreStarts(parts: seq<seq<Byte>>)
    ensures Offsets(parts) == StartsFrom(parts, 0)
  {
    forall i | 0 <= i <= |parts| ensures Offsets(parts)[i] == StartsFrom(parts, 0)[i] {
      StartsFromAt(parts, 0, i);
    }
  }

  lemma {:induction false} TextsRead(raw: seq<seq<Byte>>, metadata: seq<Byte>, base: nat, at: nat)
    requires Holds(metadata, base + at, Join(raw))
    ensures Texts(metadata, base, StartsFrom(raw, at)) == raw
    decreases |raw|
  {
    if raw != [] {
      HoldsSplit(metadata, base + at, raw[0], Join(raw[1..]));
      SliceHeld(metadata, base + at, raw[0]);
      TextsRead(raw[1..], metadata, base, at + |raw[0]|);
      TextsStep(metadata, base, at, StartsFrom(raw[1..], at + |raw[0]|));
    }
  }

  lemma DecodeEach(raw: seq<seq<Byte>>, names: seq<string>)
    requires |raw| == |names| && forall i :: 0 <= i < |raw| ==> FromUtf8(raw[i]) == Some(names[i])
    ensures DecodeAll(raw) == Some(names)
  {
    assert DecodeAll(raw).value == names;
  }

  lemma TextsDecode(names: seq<string>)
    ensures DecodeAll(Raw(names)) == Some(names)
  {
    forall i | 0 <= i < |names| ensures FromUtf8(Raw(names)[i]) == Some(names[i]) {
      Utf8RoundTrip(names[i]);
    }
    DecodeEach(Raw(names), names);
  }

  lemma MetadataPieces(names: seq<string>, metadata: seq<Byte>, size: nat)
    requires size == Width(Max(|Join(Raw(names))|, |names|)) && MetadataBytes(names) == Some(metadata)
    ensures Table(Offsets(Raw(names)), size).Some?
    ensures metadata != [] && metadata[0] == 17 + 64 * (size - 1) && IntAt(metadata, 1, size) == |names|
    ensures Holds(metadata, 1 + size, Table(Offsets(Raw(names)), size).value)
    ensures Holds(metadata, 1 + size + |Table(Offsets(Raw(names)), size).value|, Join(Raw(names)))
  {
    var raw := Raw(names);
    var count, table := ToBytes(|raw|, size).value, Table(Offsets(raw), size).value;
    var h := 17 + 64 * (size - 1);
    assert metadata == [h] + count + table + Join(raw) + [];
    HoldsAll(metadata);
    FivePieces(metadata, 0, [h], count, table, Join(raw), []);
    CountReads(metadata, 1, |raw|, size);
  }

  /** The offsets and the names start where the decoder computes them to. */
  lemma MetadataLaidOut(names: seq<string>, metadata: seq<Byte>, size: nat)
    requires size == Width(Max(|Join(Raw(names))|, |names|)) && MetadataBytes(names) == Some(metadata)
    ensures Fields(metadata, 1 + size, |names| + 1, size) == Offsets(Raw(names))
    ensures Holds(metadata, 1 + Widths(|names| + 2, size), Join(Raw(names)))
  {
    MetadataPieces(names, metadata, size);
    TableLength(Offsets(Raw(names)), size);
    TableHeld(metadata, 1 + size, Offsets(Raw(names)), size);
  }

  lemma NamesReadBack(names: seq<string>, metadata: seq<Byte>, base: nat)
    requires Holds(metadata, base, Join(Raw(names)))
    ensures DecodeAll(Texts(metadata, base, Offsets(Raw(names)))) == Some(names)
  {
    OffsetsAreStarts(Raw(names));
    TextsRead(Raw(names), metadata, base, 0);
    TextsDecode(names);
  }

  /** The decoder's key table is the keys the encoder wrote. */
  lemma MetadataRoundTrip(names: seq<string>)
    requires MetadataBytes(names).Some?
    ensures Keys(MetadataBytes(names).value) == Some(names)
  {
    var size := Width(Max(|Join(Raw(names))|, |names|));
    var metadata := MetadataBytes(names).value;
    MetadataPieces(names, metadata, size);
    MetadataLaidOut(names, metadata, size);
    KeysReadBack(names, metadata, size);
  }

  lemma KeysReadBack(names: seq<string>, metadata: seq<Byte>, size: nat)
    requires 1 <= size <= 4 && metadata != [] && metadata[0] == 17 + 64 * (size - 1) && IntAt(metadata, 1, size) == |names|
    requires Fields(metadata, 1 + size, |names| + 1, size) == Offsets(Raw(names))
    requires Holds(metadata, 1 + Widths(|names| + 2, size), Join(Raw(names)))
    ensures Keys(metadata) == Some(names)
  {
    var start := 1 + Widths(|names| + 2, size);
    NamesReadBack(names, metadata, start);
    KeysByHeader(metadata, size, |names|, Offsets(Raw(names)), start, names);
  }

  /** A header of version 1 leads to the keys. */
  lemma KeysByHeader(metadata: seq<Byte>, size: nat, count: nat, offsets: seq<nat>, start: nat, names: seq<string>)
    requires 1 <= size <= 4 && metadata != [] && metadata[0] == 17 + 64 * (size - 1) && IntAt(metadata, 1, size) == count
    requires Fields(metadata, 1 + size, count + 1, size) == offsets && start == 1 + Widths(count + 2, size)
    requires DecodeAll(Texts(metadata, start, offsets)) == Some(names)
    ensures Keys(metadata) == Some(names)
  {
    assert metadata[0] % 16 == 1 && metadata[0] / 64 % 4 + 1 == size;
    assert KeysSized(metadata, size) == Some(names);
  }

  lemma HoldsAll(data: seq<Byte>)
    ensures Holds(data, 0, data)
  {
    assert data[0..|data|] == data;
  }

  lemma IdsNumber(names: seq<string>)
    requires Ascending(names)
    ensures Numbers(IdsOf(names), names)
  {
  }

  /** `to_json(encode(text))`, up to the text: the value that was encoded. */
  lemma VariantRoundTrip(item: Item, double: Doubles)
    requires EncodeVariant(item, double).Some?
    ensures var (metadata, value) := EncodeVariant(item, double).value;
            ToTree(metadata, value).Some? && Means(ToTree(metadata, value).value, item, double)
  {
    var (metadata, value) := EncodeVariant(item, double).value;
    var names := Sorted(Names(item));
    MetadataRoundTrip(names);
    IdsNumber(names);
    HoldsAll(value);
    RoundTrip(item, IdsOf(names), double, names, value, 0);
  }

  /** The encoding depends on nothing outside its bytes: it reads back inside any buffer. */
  lemma ReadsOnlyItsBytes(item: Item, double: Doubles, before: seq<Byte>, after: seq<Byte>)
    requires EncodeVariant(item, double).Some?
    ensures var (_, value) := EncodeVariant(item, double).value;
            var r := Read(before + value + after, |before|, Sorted(Names(item)));
            r.Some? && Means(r.value, item, double)
  {
    var (_, value) := EncodeVariant(item, double).value;
    var names := Sorted(Names(item));
    IdsNumber(names);
    assert (before + value + after)[|before|..|before| + |value|] == value;
    RoundTrip(item, IdsOf(names), double, names, before + value + after, |before|);
  }

  /** The ids an object stores are strictly increasing, as its fields are in Java's order. */
  lemma FieldIdsIncrease(fields: map<string, Item>, names: seq<string>, i: nat, j: nat)
    requires Ascending(names) && (forall n :: n in fields ==> n in names)
    requires i < j < |fields.Keys|
    ensures var stored := FieldIds(Object(fields), IdsOf(names));
            stored.Some? && |stored.value| == |fields.Keys| && stored.value[i] < stored.value[j]
  {
    var sorted := Sorted(fields.Keys);
    assert sorted[i] in sorted && sorted[j] in sorted;
    IndexFollowsOrder(names, IndexIn(names, sorted[i]), IndexIn(names, sorted[j]));
  }
}
