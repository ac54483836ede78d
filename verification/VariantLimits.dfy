/** When the Variant encoder succeeds, how many bytes it writes, and which numbers it keeps exactly. */
module VariantLimits {
  import opened Wrappers
  import opened Bytes
  import opened Text
  import opened Decimals
  import opened Variant
  import opened VariantRoundTrip

  // ---------------------------------------------------------------------- sizes

  function DecimalSize(digits: nat): nat {
    if digits <= 9 then 6 else if digits <= 18 then 10 else 18
  }

  function WholeSize(n: int): nat {
    if InInt(n, 1) then 2 else if InInt(n, 2) then 3 else if InInt(n, 4) then 5 else if InInt(n, 8) then 9
    else if Digits(Abs(n)) <= 38 then DecimalSize(Digits(Abs(n))) else 9
  }

  function FractionSize(coefficient: nat, places: nat): nat {
    var precision := Max(Digits(coefficient), places);
    if precision <= 38 then DecimalSize(precision) else 9
  }

  /** A container of `n` values of `total` bytes, its ids at most `largest`. */
  function ContainerSize(n: nat, total: nat, withIds: bool, largest: nat): (size: nat)
    ensures size > n && size > total
  {
    var ids := if withIds then Widths(n, Width(largest)) else 0;
    var table := Widths(n + 1, Width(total));
    assert table >= n + 1;
    1 + (if n > 255 then 4 else 1) + ids + table + total
  }

  function LargestId(item: Item, ids: map<string, nat>): nat
    requires item.Object? ==> item.fields.Keys <= ids.Keys
  {
    match FieldIds(item, ids)
    case Some(stored) => Largest(stored)
    case None => 0
  }

  /** The bytes `item` takes, by the spec's layout. */
  function Size(item: Item, ids: map<string, nat>): nat
    requires Names(item) <= ids.Keys
    decreases item, 1, 0
  {
    match item
    case Null => 1
    case Bool(_) => 1
    case Whole(n) => WholeSize(n)
    case Fraction(_, coefficient, places) => FractionSize(coefficient, places)
    case Scientific(_) => 9
    case Str(s) => (if |Utf8(s)| <= 63 then 1 else 5) + |Utf8(s)|
    case List(items) => ContainerSize(|items|, SizesFrom(item, 0, ids), false, 0)
    case Object(fields) => ContainerSize(|fields.Keys|, SizesFrom(item, 0, ids), true, LargestId(item, ids))
  }

  function SizesFrom(item: Item, i: nat, ids: map<string, nat>): nat
    requires i <= Count(item) && Names(item) <= ids.Keys
    decreases item, 0, Count(item) - i
  {
    if i == Count(item) then 0
    else
      ChildNames(item, i);
      var child := if item.List? then item.items[i] else item.fields[Sorted(item.fields.Keys)[i]];
      Size(child, ids) + SizesFrom(item, i + 1, ids)
  }

  lemma {:induction false} NamesUpToHas(items: seq<Item>, n: nat, i: nat)
    requires i < n <= |items|
    ensures Names(items[i]) <= NamesUpTo(items, n)
  {
    if i < n - 1 {
      NamesUpToHas(items, n - 1, i);
    }
  }

  lemma ChildNames(item: Item, i: nat)
    requires i < Count(item)
    ensures Names(Child(item, i)) <= Names(item)
  {
    match item
    case List(items) => NamesUpToHas(items, |items|, i);
    case Object(fields) =>
      var k := Sorted(fields.Keys)[i];
      assert k in Sorted(fields.Keys);
      assert Names(fields[k]) <= NamesUnder(item, fields.Keys);
    case _ =>
  }

  // ------------------------------------------------------------ every decimal fits

  lemma WholeEncodes(n: int, double: Doubles)
    requires double(Whole(n)).Some?
    ensures WholeBytes(n, double).Some? && |WholeBytes(n, double).value| == WholeSize(n)
  {
    Powers();
    if Digits(Abs(n)) <= 38 {
      DigitsBound(Abs(n));
      DecimalsFit(n, Digits(Abs(n)));
    }
  }

  /** Rounding included, an exact decimal always fits the width its precision picks. */
  lemma FractionEncodes(negative: bool, coefficient: nat, places: nat, double: Doubles)
    requires Max(Digits(coefficient), places) > 38 ==> double(Fraction(negative, coefficient, places)).Some?
    ensures var r := FractionBytes(negative, coefficient, places, double);
            r.Some? && |r.value| == FractionSize(coefficient, places)
  {
    var precision := Max(Digits(coefficient), places);
    if precision <= 38 {
      Round28Bound(coefficient, precision);
      DecimalsFit(Signed(negative, Round28(coefficient)), precision);
    }
  }

  // -------------------------------------------------------------- when it succeeds

  /** Every number in it that is stored as a DOUBLE is within the doubles. */
  predicate DoublesFit(item: Item, double: Doubles)
    decreases item
  {
    match item
    case Whole(_) => double(item).Some?
    case Fraction(_, _, _) => double(item).Some?
    case Scientific(_) => double(item).Some?
    case List(items) => forall i :: 0 <= i < |items| ==> DoublesFit(items[i], double)
    case Object(fields) => forall k :: k in fields ==> DoublesFit(fields[k], double)
    case _ => true
  }

  lemma ChildFits(item: Item, i: nat, double: Doubles)
    requires i < Count(item) && DoublesFit(item, double)
    ensures DoublesFit(Child(item, i), double)
  {
    if item.Object? {
      assert Sorted(item.fields.Keys)[i] in Sorted(item.fields.Keys);
    }
  }

  lemma {:induction false} StartsBelow(parts: seq<seq<Byte>>, i: nat)
    requires i <= |parts|
    ensures Start(parts, i) <= |Join(parts)|
  {
    if i > 0 {
      StartsBelow(parts[1..], i - 1);
    }
  }

  lemma ContainerEncodes(parts: seq<seq<Byte>>, fieldIds: Option<seq<nat>>)
    requires |parts| < Pow256(4) && |Join(parts)| < Pow256(4)
    requires fieldIds.Some? ==> |fieldIds.value| == |parts| && Largest(fieldIds.value) < Pow256(4)
    ensures var r := Container(parts, fieldIds);
            r.Some? && |r.value| == ContainerSize(|parts|, |Join(parts)|, fieldIds.Some?, if fieldIds.Some? then Largest(fieldIds.value) else 0)
  {
    Powers();
    var w := Width(|Join(parts)|);
    forall i | 0 <= i < |Offsets(parts)| ensures Offsets(parts)[i] < Pow256(w) {
      StartsBelow(parts, i);
    }
    TableFits(Offsets(parts), w);
    TableLength(Offsets(parts), w);
    if fieldIds.Some? {
      var v := Width(Largest(fieldIds.value));
      TableFits(fieldIds.value, v);
      TableLength(fieldIds.value, v);
    }
  }

  lemma {:induction false} PartsEncode(item: Item, i: nat, ids: map<string, nat>, double: Doubles)
    requires (item.List? || item.Object?) && i <= Count(item) && Names(item) <= ids.Keys && DoublesFit(item, double)
    requires (forall n :: n in ids ==> ids[n] < Pow256(4)) && SizesFrom(item, i, ids) < Pow256(4)
    ensures var r := EncodeFrom(item, i, ids, double);
            r.Some? && |Join(r.value)| == SizesFrom(item, i, ids)
    decreases item, 0, Count(item) - i
  {
    if i < Count(item) {
      ChildNames(item, i);
      ChildFits(item, i, double);
      SizesStep(item, i, ids);
      ChildEncodes(item, i, ids, double);
      PartsEncode(item, i + 1, ids, double);
      EncodeStep(item, i, ids, double);
    }
  }

  lemma SizesStep(item: Item, i: nat, ids: map<string, nat>)
    requires i < Count(item) && Names(item) <= ids.Keys
    ensures Names(Child(item, i)) <= ids.Keys
    ensures SizesFrom(item, i, ids) == Size(Child(item, i), ids) + SizesFrom(item, i + 1, ids)
  {
    ChildNames(item, i);
  }

  lemma EncodeStep(item: Item, i: nat, ids: map<string, nat>, double: Doubles)
    requires i < Count(item) && Encode(Child(item, i), ids, double).Some? && EncodeFrom(item, i + 1, ids, double).Some?
    ensures var r := EncodeFrom(item, i, ids, double);
            r.Some? && |Join(r.value)| == |Encode(Child(item, i), ids, double).value| + |Join(EncodeFrom(item, i + 1, ids, double).value)|
  {
    var part, rest := Encode(Child(item, i), ids, double).value, EncodeFrom(item, i + 1, ids, double).value;
    assert EncodeFrom(item, i, ids, double) == Some([part] + rest);
    assert ([part] + rest)[1..] == rest;
  }

  lemma {:induction false} ChildEncodes(item: Item, i: nat, ids: map<string, nat>, double: Doubles)
    requires (item.List? || item.Object?) && i < Count(item)
    requires Names(Child(item, i)) <= ids.Keys && DoublesFit(Child(item, i), double)
    requires (forall n :: n in ids ==> ids[n] < Pow256(4)) && Size(Child(item, i), ids) < Pow256(4)
    ensures var r := Encode(Child(item, i), ids, double); r.Some? && |r.value| == Size(Child(item, i), ids)
    decreases item, 0, 0
  {
    if item.List? {
      Encodes(item.items[i], ids, double);
    } else {
      Encodes(item.fields[Sorted(item.fields.Keys)[i]], ids, double);
    }
  }

  /** Every value under 2^32 bytes encodes, into exactly the bytes the layout says. */
  lemma {:induction false} Encodes(item: Item, ids: map<string, nat>, double: Doubles)
    requires Names(item) <= ids.Keys && DoublesFit(item, double)
    requires (forall n :: n in ids ==> ids[n] < Pow256(4)) && Size(item, ids) < Pow256(4)
    ensures Encode(item, ids, double).Some? && |Encode(item, ids, double).value| == Size(item, ids)
    decreases item, 1, 0
  {
    if item.List? || item.Object? {
      PartsEncode(item, 0, ids, double);
      JoinedEncodes(item, ids, double, EncodeFrom(item, 0, ids, double).value);
    } else {
      ScalarEncodes(item, ids, double);
    }
  }

  lemma JoinedEncodes(item: Item, ids: map<string, nat>, double: Doubles, parts: seq<seq<Byte>>)
    requires (item.List? || item.Object?) && Names(item) <= ids.Keys
    requires (forall n :: n in ids ==> ids[n] < Pow256(4)) && Size(item, ids) < Pow256(4)
    requires EncodeFrom(item, 0, ids, double) == Some(parts) && |Join(parts)| == SizesFrom(item, 0, ids)
    ensures Encode(item, ids, double).Some? && |Encode(item, ids, double).value| == Size(item, ids)
  {
    IdsBelow(item, ids);
    EncodesAsContainer(item, ids, double, parts);
    SizesAsContainer(item, ids);
    ContainerEncodes(parts, FieldIds(item, ids));
  }

  lemma EncodesAsContainer(item: Item, ids: map<string, nat>, double: Doubles, parts: seq<seq<Byte>>)
    requires (item.List? || item.Object?) && Names(item) <= ids.Keys && EncodeFrom(item, 0, ids, double) == Some(parts)
    ensures Encode(item, ids, double) == Container(parts, FieldIds(item, ids)) && |parts| == Count(item)
  {
  }

  lemma SizesAsContainer(item: Item, ids: map<string, nat>)
    requires (item.List? || item.Object?) && Names(item) <= ids.Keys
    ensures Size(item, ids) == ContainerSize(Count(item), SizesFrom(item, 0, ids), item.Object?, if item.Object? then LargestId(item, ids) else 0)
    ensures item.Object? ==> LargestId(item, ids) == Largest(FieldIds(item, ids).value) && |FieldIds(item, ids).value| == Count(item)
  {
  }

  lemma IdsBelow(item: Item, ids: map<string, nat>)
    requires item.Object? ==> item.fields.Keys <= ids.Keys
    requires forall n :: n in ids ==> ids[n] < Pow256(4)
    ensures LargestId(item, ids) < Pow256(4)
  {
    if item.Object? {
      var names := Sorted(item.fields.Keys);
      var stored := FieldIds(item, ids).value;
      forall i | 0 <= i < |names| ensures stored[i] < Pow256(4) {
        assert names[i] in names;
      }
    }
  }

  lemma ScalarEncodes(item: Item, ids: map<string, nat>, double: Doubles)
    requires !item.List? && !item.Object? && DoublesFit(item, double)
    requires Size(item, ids) < Pow256(4)
    ensures Encode(item, ids, double).Some? && |Encode(item, ids, double).value| == Size(item, ids)
  {
    match item
    case Null =>
    case Bool(_) =>
    case Whole(n) => WholeEncodes(n, double);
    case Fraction(negative, coefficient, places) => FractionEncodes(negative, coefficient, places, double);
    case Scientific(_) =>
    case Str(_) =>
  }

  /** The ids `encode` gives the keys of `item`. */
  function KeyIds(item: Item): (ids: map<string, nat>)
    ensures ids.Keys == Names(item)
    ensures forall n :: n in ids ==> ids[n] < |Names(item)|
  {
    IdsOf(Sorted(Names(item)))
  }

  lemma MetadataEncodes(names: seq<string>)
    requires |names| < Pow256(4) && |Join(Raw(names))| < Pow256(4)
    ensures MetadataBytes(names).Some?
  {
    var raw := Raw(names);
    var size := Width(Max(|Join(raw)|, |raw|));
    assert Max(|Join(raw)|, |raw|) < Pow256(size);
    forall i | 0 <= i < |Offsets(raw)| ensures Offsets(raw)[i] < Pow256(size) {
      StartsBelow(raw, i);
    }
    TableFits(Offsets(raw), size);
  }

  /** `encode` succeeds on every value under 2^32 bytes whose keys are under 2^32 bytes. */
  lemma EncodeVariantSucceeds(item: Item, double: Doubles)
    requires DoublesFit(item, double) && Size(item, KeyIds(item)) < Pow256(4)
    requires |Names(item)| < Pow256(4) && |Join(Raw(Sorted(Names(item))))| < Pow256(4)
    ensures EncodeVariant(item, double).Some?
  {
    MetadataEncodes(Sorted(Names(item)));
    Encodes(item, KeyIds(item), double);
  }

  // ----------------------------------------------------------------- exact numbers

  /** `_decimal`: the digits the text of a stored decimal carries, before its scale. */
  function PrintedDigits(unscaled: int): int {
    Signed(unscaled < 0, Round28(Abs(unscaled)))
  }

  /** A fraction's text is read back exactly if and only if its digits past the 28th are zeros. */
  lemma FractionTextIsExact(t: Tree, negative: bool, coefficient: nat, places: nat, double: Doubles)
    requires FractionMeans(t, negative, coefficient, places, double) && Max(Digits(coefficient), places) <= 38
    ensures PrintedDigits(t.unscaled) == t.unscaled
    ensures PrintedDigits(t.unscaled) == Signed(negative, coefficient) <==> coefficient % Unit(coefficient) == 0
  {
    Round28IsStable(coefficient);
    Round28IsExact(coefficient);
    assert Abs(t.unscaled) == Round28(coefficient);
  }

  /** A wide integer is stored exactly, but its text is exact only up to 28 significant digits. */
  lemma WholeTextIsExact(t: Tree, n: int, double: Doubles)
    requires WholeMeans(t, n, double) && !InInt(n, 8) && Digits(Abs(n)) <= 38
    ensures t == TDecimal(n, 0)
    ensures PrintedDigits(t.unscaled) == n <==> Abs(n) % Unit(Abs(n)) == 0
  {
    Round28IsExact(Abs(n));
  }

  /** 29 digits are one too many: 10^28 + 1 loses its last digit. */
  lemma TwentyNineDigitsAreRounded(d: nat)
    requires d == PRECISION
    ensures Round28(Pow10(d) + 1) == Pow10(d)
  {
    var n := Pow10(d) + 1;
    assert Pow10(d + 1) == 10 * Pow10(d) && Pow10(d) == 10 * Pow10(d - 1);
    DigitsAre(n, d + 1);
    assert Unit(n) == Pow10(1) == 10;
    RoundsDown(n, Pow10(d - 1));
  }

  lemma RoundsDown(n: nat, p: nat)
    requires n == 10 * p + 1
    ensures RoundTo(n, 10) == 10 * p
  {
    assert n / 10 == p && n % 10 == 1;
  }

  lemma DigitsAre(n: nat, d: nat)
    requires d >= 1 && Pow10(d - 1) <= n < Pow10(d) && n > 0
    ensures Digits(n) == d
  {
    DigitsBound(n);
    if Digits(n) < d {
      Pow10Grows(Digits(n), d - 1);
    } else if Digits(n) > d {
      Pow10Grows(d, Digits(n) - 1);
    }
  }
}
