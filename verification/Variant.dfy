/** The Variant binary encoding: JSON items to bytes, and bytes back to a tree. */
module Variant {
  import opened Wrappers
  import opened Bytes
  import opened Text
  import opened Decimals

  /** What `json.loads` gives; a number with a fraction or an exponent keeps its text. */
  datatype Item =
    | Null
    | Bool(b: bool)
    | Whole(n: int)
    | Fraction(negative: bool, coefficient: nat, places: nat)
    | Scientific(text: string)
    | Str(s: string)
    | List(items: seq<Item>)
    | Object(fields: map<string, Item>)

  /** What the bytes hold; `TStored` is a date, time, FLOAT, binary or UUID, by its type and bytes. */
  datatype Tree =
    | TNull
    | TBool(b: bool)
    | TInt(n: int)
    | TDouble(bits: seq<Byte>)
    | TDecimal(unscaled: int, scale: nat)
    | TText(s: string)
    | TStored(head: nat, bits: seq<Byte>)
    | TArray(items: seq<Tree>)
    | TObject(names: seq<string>, values: seq<Tree>)

  type Eight = b: seq<Byte> | |b| == 8 witness Le(0, 8)

  /** `float(item)` and its eight bytes; an integer past the doubles overflows. */
  type Doubles = Item -> Option<Eight>

  // --------------------------------------------------------------- containers

  function Offsets(parts: seq<seq<Byte>>): (offsets: seq<nat>)
    ensures |offsets| == |parts| + 1
  {
    seq(|parts| + 1, i requires 0 <= i <= |parts| => Start(parts, i))
  }

  function Largest(ids: seq<nat>): (m: nat)
    ensures forall i :: 0 <= i < |ids| ==> ids[i] <= m
    ensures m == 0 || m in ids
  {
    if ids == [] then 0
    else
      var m := Largest(ids[1..]);
      assert forall i :: 1 <= i < |ids| ==> ids[i] == ids[1..][i - 1];
      if ids[0] < m then m else ids[0]
  }

  function Bit(b: bool): nat {
    if b then 1 else 0
  }

  /** The header byte, the count, the ids and the offsets before a container's values. */
  function Prefix(parts: seq<seq<Byte>>, fieldIds: Option<seq<nat>>): Option<(Byte, seq<Byte>, seq<Byte>, seq<Byte>)> {
    var large := |parts| > 255;
    var offsetSize := Width(|Join(parts)|);
    var idSize := if fieldIds.Some? then Width(Largest(fieldIds.value)) else 1;
    var header :=
      if fieldIds.Some? then 2 + 4 * ((offsetSize - 1) + 4 * (idSize - 1) + 16 * Bit(large))
      else 3 + 4 * ((offsetSize - 1) + 4 * Bit(large));
    var ids := if fieldIds.Some? then Table(fieldIds.value, idSize) else Some([]);
    var count := ToBytes(|parts|, if large then 4 else 1);
    var table := Table(Offsets(parts), offsetSize);
    if count.Some? && ids.Some? && table.Some? then Some((header, count.value, ids.value, table.value)) else None
  }

  /** `_container`. */
  function Container(parts: seq<seq<Byte>>, fieldIds: Option<seq<nat>>): Option<seq<Byte>> {
    match Prefix(parts, fieldIds)
    case Some((header, count, ids, table)) => Some([header] + count + ids + table + Join(parts))
    case None => None
  }

  // ------------------------------------------------------------------ encoding

  function DecimalBytes(unscaled: int, scale: nat, digits: nat): Option<seq<Byte>> {
    var (head, size) := if digits <= 9 then (8, 4) else if digits <= 18 then (9, 8) else (10, 16);
    match ToSigned(unscaled, size)
    case Some(b) => if scale < 256 then Some([4 * head, scale] + b) else None
    case None => None
  }

  function DoubleBytes(item: Item, double: Doubles): Option<seq<Byte>> {
    match double(item)
    case Some(b) => Some([28] + b)
    case None => None
  }

  predicate InInt(n: int, size: nat) {
    Pow256(size) + 2 * n >= 0 && 2 * n < Pow256(size)
  }

  function Max(a: nat, b: nat): nat {
    if a > b then a else b
  }

  function Signed(negative: bool, n: nat): int {
    if negative then 0 - n else n
  }

  function IntegerBytes(n: int, head: nat, size: nat): Option<seq<Byte>>
    requires head <= 63
  {
    match ToSigned(n, size)
    case Some(b) => Some([4 * head] + b)
    case None => None
  }

  function WholeBytes(n: int, double: Doubles): Option<seq<Byte>> {
    if InInt(n, 1) then IntegerBytes(n, 3, 1)
    else if InInt(n, 2) then IntegerBytes(n, 4, 2)
    else if InInt(n, 4) then IntegerBytes(n, 5, 4)
    else if InInt(n, 8) then IntegerBytes(n, 6, 8)
    else if Digits(Abs(n)) <= 38 then DecimalBytes(n, 0, Digits(Abs(n)))
    else DoubleBytes(Whole(n), double)
  }

  function FractionBytes(negative: bool, coefficient: nat, places: nat, double: Doubles): Option<seq<Byte>> {
    var precision := Max(Digits(coefficient), places);
    if precision <= 38 then DecimalBytes(Signed(negative, Round28(coefficient)), places, precision)
    else DoubleBytes(Fraction(negative, coefficient, places), double)
  }

  function StringBytes(s: string): Option<seq<Byte>> {
    var raw := Utf8(s);
    if |raw| <= 63 then Some([4 * |raw| + 1] + raw)
    else if |raw| < Pow256(4) then Some([64] + Le(|raw|, 4) + raw)
    else None
  }

  /** The values inside an item, a map's in Java's order of its keys. */
  function Count(item: Item): nat {
    match item
    case List(items) => |items|
    case Object(fields) => |fields.Keys|
    case _ => 0
  }

  function Child(item: Item, i: nat): Item
    requires i < Count(item)
  {
    match item
    case List(items) => items[i]
    case Object(fields) => fields[Sorted(fields.Keys)[i]]
  }

  /** `_encode`; None is Python's OverflowError or KeyError. */
  function Encode(item: Item, ids: map<string, nat>, double: Doubles): Option<seq<Byte>>
    decreases item, 1, 0
  {
    match item
    case Null => Some([0])
    case Bool(b) => Some([if b then 4 else 8])
    case Whole(n) => WholeBytes(n, double)
    case Fraction(negative, coefficient, places) => FractionBytes(negative, coefficient, places, double)
    case Scientific(_) => DoubleBytes(item, double)
    case Str(s) => StringBytes(s)
    case List(items) =>
      (match EncodeFrom(item, 0, ids, double)
       case Some(parts) => Container(parts, None)
       case None => None)
    case Object(fields) =>
      var names := Sorted(fields.Keys);
      if exists n :: n in fields && n !in ids then None
      else
        (match EncodeFrom(item, 0, ids, double)
         case Some(parts) => Container(parts, Some(seq(|names|, i requires 0 <= i < |names| => ids[names[i]])))
         case None => None)
  }

  function EncodeFrom(item: Item, i: nat, ids: map<string, nat>, double: Doubles): (parts: Option<seq<seq<Byte>>>)
    requires i <= Count(item)
    ensures parts.Some? ==> |parts.value| == Count(item) - i
    decreases item, 0, Count(item) - i
  {
    if i == Count(item) then Some([])
    else
      var child := if item.List? then item.items[i] else item.fields[Sorted(item.fields.Keys)[i]];
      match (Encode(child, ids, double), EncodeFrom(item, i + 1, ids, double))
      case (Some(part), Some(rest)) => Some([part] + rest)
      case (Some(_), None) => None
      case (None, _) => None
  }

  /** `_names`: every field name at any depth. */
  function Names(item: Item): set<string>
    decreases item, 1
  {
    match item
    case List(items) => NamesUpTo(items, |items|)
    case Object(fields) => fields.Keys + NamesUnder(item, fields.Keys)
    case _ => {}
  }

  /** The names in the first `i` of `items`. */
  function NamesUpTo(items: seq<Item>, i: nat): set<string>
    requires i <= |items|
    decreases items, i
  {
    if i == 0 then {} else NamesUpTo(items, i - 1) + Names(items[i - 1])
  }

  function NamesUnder(item: Item, keys: set<string>): set<string>
    requires item.Object? && keys <= item.fields.Keys
    decreases item, 0
  {
    set k, n | k in keys && n in Names(item.fields[k]) :: n
  }

  function Raw(names: seq<string>): seq<seq<Byte>> {
    seq(|names|, i requires 0 <= i < |names| => Utf8(names[i]))
  }

  /** The metadata: version 1, sorted keys, their UTF-8 bytes by offset. */
  function MetadataBytes(names: seq<string>): Option<seq<Byte>> {
    var raw := Raw(names);
    var size := Width(Max(|Join(raw)|, |raw|));
    var count := ToBytes(|raw|, size);
    var table := Table(Offsets(raw), size);
    if count.Some? && table.Some? then Some([17 + 64 * (size - 1)] + count.value + table.value + Join(raw)) else None
  }

  function IdsOf(names: seq<string>): map<string, nat>
    requires Ascending(names)
  {
    map n | n in names :: IndexIn(names, n)
  }

  function IndexIn(names: seq<string>, n: string): (i: nat)
    requires n in names
    ensures i < |names| && names[i] == n
  {
    if names[0] == n then 0 else 1 + IndexIn(names[1..], n)
  }

  /** `encode`, from the parsed JSON on. */
  function EncodeVariant(item: Item, double: Doubles): Option<(seq<Byte>, seq<Byte>)> {
    var names := Sorted(Names(item));
    match (MetadataBytes(names), Encode(item, IdsOf(names), double))
    case (Some(metadata), Some(value)) => Some((metadata, value))
    case (Some(_), None) => None
    case (None, _) => None
  }

  // ------------------------------------------------------------------ decoding

  /** The keys between one offset and the next. */
  function Texts(metadata: seq<Byte>, base: nat, offsets: seq<nat>): seq<seq<Byte>> {
    if |offsets| < 2 then []
    else
      var size := if offsets[0] < offsets[1] then offsets[1] - offsets[0] else 0;
      [Slice(metadata, base + offsets[0], size)] + Texts(metadata, base, offsets[1..])
  }

  function DecodeAll(texts: seq<seq<Byte>>): Option<seq<string>> {
    if exists i :: 0 <= i < |texts| && FromUtf8(texts[i]).None? then None
    else Some(seq(|texts|, i requires 0 <= i < |texts| => FromUtf8(texts[i]).value))
  }

  /** `_keys`; None is an error. */
  function Keys(metadata: seq<Byte>): Option<seq<string>> {
    if metadata == [] || metadata[0] % 16 != 1 then None
    else KeysSized(metadata, metadata[0] / 64 % 4 + 1)
  }

  function KeysSized(metadata: seq<Byte>, size: nat): Option<seq<string>> {
    var count := IntAt(metadata, 1, size);
    DecodeAll(Texts(metadata, 1 + Widths(count + 2, size), Fields(metadata, 1 + size, count + 1, size)))
  }

  /** Where a container's parts are. */
  datatype Layout = Layout(count: nat, idsAt: nat, idSize: nat, offsetsAt: nat, offsetSize: nat, valuesAt: nat)

  function LayoutAt(value: seq<Byte>, pos: nat): (l: Layout)
    requires pos < |value|
    ensures l.valuesAt > pos
  {
    var basic, head := value[pos] % 4, value[pos] / 4;
    var offsetSize := head % 4 + 1;
    var idSize := if basic == 2 then head / 4 % 4 + 1 else 0;
    var large := (if basic == 2 then head / 16 else head / 4) % 2 == 1;
    var countSize := if large then 4 else 1;
    var count := IntAt(value, pos + 1, countSize);
    var idsAt := pos + 1 + countSize;
    var offsetsAt := idsAt + Widths(count, idSize);
    Layout(count, idsAt, idSize, offsetsAt, offsetSize, offsetsAt + Widths(count + 1, offsetSize))
  }

  function Rank(value: seq<Byte>, pos: nat): nat {
    if pos < |value| then |value| - pos else 0
  }

  /** `_render` up to the text of each value; None is an error. */
  function Read(value: seq<Byte>, pos: nat, keys: seq<string>): Option<Tree>
    decreases Rank(value, pos), 0, 0
  {
    if pos >= |value| then None
    else
      var basic, head := value[pos] % 4, value[pos] / 4;
      if basic == 0 then ReadPrimitive(value, pos + 1, head)
      else if basic == 1 then ReadText(value, pos + 1, head)
      else
        var l := LayoutAt(value, pos);
        var values := ReadAll(value, l.valuesAt, Fields(value, l.offsetsAt, l.count, l.offsetSize), keys);
        if values.None? then None
        else if basic == 3 then Some(TArray(values.value))
        else
          match Lookup(keys, Fields(value, l.idsAt, l.count, l.idSize))
          case Some(names) => Some(TObject(names, values.value))
          case None => None
  }

  function ReadAll(value: seq<Byte>, base: nat, offsets: seq<nat>, keys: seq<string>): Option<seq<Tree>>
    decreases Rank(value, base), 1, |offsets|
  {
    if offsets == [] then Some([])
    else
      match (Read(value, base + offsets[0], keys), ReadAll(value, base, offsets[1..], keys))
      case (Some(tree), Some(rest)) => Some([tree] + rest)
      case (Some(_), None) => None
      case (None, _) => None
  }

  function Lookup(keys: seq<string>, ids: seq<nat>): Option<seq<string>> {
    if exists i :: 0 <= i < |ids| && ids[i] >= |keys| then None
    else Some(seq(|ids|, i requires 0 <= i < |ids| => keys[ids[i]]))
  }

  function ReadText(value: seq<Byte>, at: nat, size: nat): Option<Tree> {
    match FromUtf8(Slice(value, at, size))
    case Some(s) => Some(TText(s))
    case None => None
  }

  function Stored(head: nat, value: seq<Byte>, at: nat, size: nat): Option<Tree> {
    if at + size <= |value| then Some(TStored(head, Slice(value, at, size))) else None
  }

  function ReadPrimitive(value: seq<Byte>, body: nat, head: nat): Option<Tree> {
    if head == 0 then Some(TNull)
    else if head == 1 || head == 2 then Some(TBool(head == 1))
    else if head == 3 then Some(TInt(SignedAt(value, body, 1)))
    else if head == 4 then Some(TInt(SignedAt(value, body, 2)))
    else if head == 5 then Some(TInt(SignedAt(value, body, 4)))
    else if head == 6 then Some(TInt(SignedAt(value, body, 8)))
    else if head == 7 then
      (if body + 8 <= |value| then Some(TDouble(Slice(value, body, 8))) else None)
    else if 8 <= head <= 10 then
      var size := if head == 8 then 4 else if head == 9 then 8 else 16;
      (if body < |value| then Some(TDecimal(SignedAt(value, body + 1, size), value[body])) else None)
    else if head == 11 then Some(TStored(head, Slice(value, body, 4)))
    else if head in {12, 13, 17, 18, 19} then Some(TStored(head, Slice(value, body, 8)))
    else if head == 14 then Stored(head, value, body, 4)
    else if head == 15 then Some(TStored(head, Slice(value, body + 4, IntAt(value, body, 4))))
    else if head == 16 then ReadText(value, body + 4, IntAt(value, body, 4))
    else if head == 20 then Stored(head, value, body, 16)
    else None
  }

  /** `to_json` up to the text. */
  function ToTree(metadata: seq<Byte>, value: seq<Byte>): Option<Tree> {
    match Keys(metadata)
    case Some(keys) => Read(value, 0, keys)
    case None => None
  }

  // -------------------------------------------------------- the imperative form

  /** `_container`'s loop over its parts. */
  method OffsetsOf(parts: seq<seq<Byte>>) returns (offsets: seq<nat>)
    ensures offsets == Offsets(parts)
    ensures offsets[|parts|] == |Join(parts)|
  {
    offsets := [0];
    var i := 0;
    while i < |parts|
      invariant 0 <= i <= |parts| && |offsets| == i + 1
      invariant forall j :: 0 <= j <= i ==> offsets[j] == Start(parts, j)
    {
      StartNext(parts, i);
      offsets := offsets + [offsets[i] + |parts[i]|];
      i := i + 1;
    }
    StartOfAll(parts);
  }

  /** `encode`'s metadata, its offsets built as the keys' bytes are. */
  method EncodeMetadata(names: seq<string>) returns (metadata: Option<seq<Byte>>)
    ensures metadata == MetadataBytes(names)
  {
    var raw := [];
    for i := 0 to |names|
      invariant |raw| == i && forall j :: 0 <= j < i ==> raw[j] == Utf8(names[j])
    {
      raw := raw + [Utf8(names[i])];
    }
    assert raw == Raw(names);
    var offsets := OffsetsOf(raw);
    var size := Width(Max(offsets[|raw|], |raw|));
    var count := ToBytes(|raw|, size);
    var table := Table(offsets, size);
    if count.Some? && table.Some? {
      return Some([17 + 64 * (size - 1)] + count.value + table.value + Join(raw));
    }
    return None;
  }

  /** `_names`, adding to the set it is given. */
  method CollectNames(item: Item, into: set<string>) returns (names: set<string>)
    ensures names == into + Names(item)
    decreases item, 1
  {
    match item
    case List(items) =>
      names := into;
      for i := 0 to |items|
        invariant names == into + NamesUpTo(items, i)
      {
        names := CollectNames(items[i], names);
      }
    case Object(fields) =>
      names := CollectUnder(item, into + fields.Keys);
    case _ =>
      names := into;
  }

  /** The names inside an object's values. */
  method CollectUnder(item: Item, into: set<string>) returns (names: set<string>)
    requires item.Object?
    ensures names == into + NamesUnder(item, item.fields.Keys)
    decreases item, 0
  {
    names := into;
    var done: set<string> := {};
    while done != item.fields.Keys
      invariant done <= item.fields.Keys && names == into + NamesUnder(item, done)
      decreases |item.fields.Keys - done|
    {
      var k :| k in item.fields.Keys - done;
      names := CollectNames(item.fields[k], names);
      UnderOneMore(item, done, k);
      done := done + {k};
    }
  }

  lemma UnderOneMore(item: Item, keys: set<string>, k: string)
    requires item.Object? && keys <= item.fields.Keys && k in item.fields
    ensures NamesUnder(item, keys + {k}) == NamesUnder(item, keys) + Names(item.fields[k])
  {
  }
}
