/** Byte strings: little-endian integers of a width, two's complement, and Python's slices. */
module Bytes {
  import opened Wrappers

  type Byte = n: nat | n < 256

  function Pow256(size: nat): (p: nat)
    ensures p >= 1
  {
    if size == 0 then 1 else 256 * Pow256(size - 1)
  }

  function Le(n: nat, size: nat): (b: seq<Byte>)
    ensures |b| == size
  {
    if size == 0 then [] else [n % 256] + Le(n / 256, size - 1)
  }

  function FromLe(b: seq<Byte>): nat {
    if b == [] then 0 else b[0] + 256 * FromLe(b[1..])
  }

  /** `int.to_bytes`: an overflow is an error. */
  function ToBytes(n: nat, size: nat): Option<seq<Byte>> {
    if n < Pow256(size) then Some(Le(n, size)) else None
  }

  function ToSigned(n: int, size: nat): Option<seq<Byte>> {
    if 0 <= n && 2 * n < Pow256(size) then Some(Le(n, size))
    else if n < 0 && Pow256(size) + 2 * n >= 0 then Some(Le(n + Pow256(size), size))
    else None
  }

  function FromSigned(b: seq<Byte>): int {
    if 2 * FromLe(b) < Pow256(|b|) then FromLe(b) else FromLe(b) - Pow256(|b|)
  }

  /** `data[start : start + size]`: cut off where the data ends. */
  function Slice(data: seq<Byte>, start: nat, size: nat): (b: seq<Byte>)
    ensures |b| <= size
  {
    if start >= |data| then []
    else if start + size > |data| then data[start..]
    else data[start..start + size]
  }

  function IntAt(data: seq<Byte>, start: nat, size: nat): nat {
    FromLe(Slice(data, start, size))
  }

  function SignedAt(data: seq<Byte>, start: nat, size: nat): int {
    FromSigned(Slice(data, start, size))
  }

  /** `_size`: the bytes an offset or id takes. */
  function Width(n: nat): (w: nat)
    ensures 1 <= w <= 4
    ensures n < Pow256(4) ==> n < Pow256(w)
  {
    Powers();
    if n < 0x100 then 1 else if n < 0x1_0000 then 2 else if n < 0x100_0000 then 3 else 4
  }

  lemma Powers()
    ensures Pow256(1) == 0x100 && Pow256(2) == 0x1_0000 && Pow256(3) == 0x100_0000 && Pow256(4) == 0x1_0000_0000
    ensures Pow256(8) == 0x1_0000_0000_0000_0000
    ensures Pow256(16) == 0x1_0000_0000_0000_0000_0000_0000_0000_0000
  {
    assert Pow256(4) == 256 * Pow256(3) && Pow256(3) == 256 * Pow256(2) && Pow256(2) == 256 * Pow256(1);
    assert Pow256(8) == 256 * Pow256(7) && Pow256(7) == 256 * Pow256(6) && Pow256(6) == 256 * Pow256(5);
    assert Pow256(12) == 256 * Pow256(11) && Pow256(11) == 256 * Pow256(10) && Pow256(10) == 256 * Pow256(9);
    assert Pow256(16) == 256 * Pow256(15) && Pow256(15) == 256 * Pow256(14) && Pow256(14) == 256 * Pow256(13);
  }

  lemma {:induction false} LeRoundTrip(n: nat, size: nat)
    requires n < Pow256(size)
    ensures FromLe(Le(n, size)) == n
  {
    if size > 0 {
      LeRoundTrip(n / 256, size - 1);
      assert Le(n, size)[1..] == Le(n / 256, size - 1);
    }
  }

  lemma SignedRoundTrip(n: int, size: nat)
    requires ToSigned(n, size).Some?
    ensures |ToSigned(n, size).value| == size && FromSigned(ToSigned(n, size).value) == n
  {
    LeRoundTrip(if n < 0 then n + Pow256(size) else n, size);
  }

  // ---------------------------------------------------------------- layouts

  /** `b"".join(parts)`. */
  function Join(parts: seq<seq<Byte>>): seq<Byte> {
    if parts == [] then [] else parts[0] + Join(parts[1..])
  }

  /** Where part `i` starts in the joined bytes. */
  function Start(parts: seq<seq<Byte>>, i: nat): nat
    requires i <= |parts|
  {
    if i == 0 then 0 else |parts[0]| + Start(parts[1..], i - 1)
  }

  lemma {:induction false} StartNext(parts: seq<seq<Byte>>, i: nat)
    requires i < |parts|
    ensures Start(parts, i + 1) == Start(parts, i) + |parts[i]|
  {
    if i > 0 {
      StartNext(parts[1..], i - 1);
    }
  }

  lemma {:induction false} PartAt(parts: seq<seq<Byte>>, i: nat)
    requires i < |parts|
    ensures Start(parts, i) + |parts[i]| <= |Join(parts)|
    ensures Join(parts)[Start(parts, i)..Start(parts, i) + |parts[i]|] == parts[i]
  {
    if i > 0 {
      PartAt(parts[1..], i - 1);
      var s := Start(parts[1..], i - 1);
      var rest := Join(parts[1..]);
      assert Join(parts)[Start(parts, i)..Start(parts, i) + |parts[i]|] == rest[s..s + |parts[i]|];
    }
  }

  lemma {:induction false} StartOfAll(parts: seq<seq<Byte>>)
    ensures Start(parts, |parts|) == |Join(parts)|
  {
    if parts != [] {
      StartOfAll(parts[1..]);
    }
  }

  /** `i` widths, one after another. */
  function Widths(i: nat, width: nat): (total: nat)
    ensures if width == 0 then total == 0 else total >= i
  {
    if i == 0 then 0 else width + Widths(i - 1, width)
  }

  lemma {:induction false} WidthsIsProduct(i: nat, width: nat)
    ensures Widths(i, width) == i * width
  {
    if i > 0 {
      WidthsIsProduct(i - 1, width);
      assert i * width == (i - 1) * width + width;
    }
  }

  /** Numbers of one width, one after another; None when one does not fit. */
  function Table(ns: seq<nat>, width: nat): Option<seq<Byte>> {
    if ns == [] then Some([])
    else
      match (ToBytes(ns[0], width), Table(ns[1..], width))
      case (Some(b), Some(rest)) => Some(b + rest)
      case (Some(_), None) => None
      case (None, _) => None
  }

  lemma {:induction false} TableLength(ns: seq<nat>, width: nat)
    requires Table(ns, width).Some?
    ensures |Table(ns, width).value| == Widths(|ns|, width)
  {
    if ns != [] {
      TableLength(ns[1..], width);
    }
  }

  lemma {:induction false} TableFits(ns: seq<nat>, width: nat)
    requires forall i :: 0 <= i < |ns| ==> ns[i] < Pow256(width)
    ensures Table(ns, width).Some?
  {
    if ns != [] {
      assert forall i :: 0 <= i < |ns[1..]| ==> ns[1..][i] == ns[i + 1];
      TableFits(ns[1..], width);
    }
  }

  /** `part` lies in `data` at `at`. */
  predicate Holds(data: seq<Byte>, at: nat, part: seq<Byte>) {
    at + |part| <= |data| && data[at..at + |part|] == part
  }

  lemma SliceOfSlice<T>(data: seq<T>, at: nat, end: nat, i: nat, j: nat)
    requires at <= end <= |data| && i <= j <= end - at
    ensures data[at..end][i..j] == data[at + i..at + j]
  {
    var l, r := data[at..end][i..j], data[at + i..at + j];
    assert |l| == |r| && forall k :: 0 <= k < |l| ==> l[k] == r[k];
  }

  lemma HoldsPiece(data: seq<Byte>, at: nat, a: seq<Byte>, b: seq<Byte>, c: seq<Byte>)
    requires Holds(data, at, a + b + c)
    ensures Holds(data, at + |a|, b)
  {
    SliceOfSlice(data, at, at + |a + b + c|, |a|, |a| + |b|);
    assert (a + b + c)[|a|..|a| + |b|] == b;
  }

  lemma SliceHeld(data: seq<Byte>, at: nat, part: seq<Byte>)
    requires Holds(data, at, part)
    ensures Slice(data, at, |part|) == part
  {
  }

  lemma HoldsSplit(data: seq<Byte>, at: nat, a: seq<Byte>, b: seq<Byte>)
    requires Holds(data, at, a + b)
    ensures Holds(data, at, a) && Holds(data, at + |a|, b)
  {
    assert a + b == [] + a + b && a + b == a + b + [];
    HoldsPiece(data, at, [], a, b);
    HoldsPiece(data, at, a, b, []);
  }

  /** `count` numbers of one width from `at` on. */
  function Fields(data: seq<Byte>, at: nat, count: nat, width: nat): (ns: seq<nat>)
    ensures |ns| == count
    decreases count
  {
    if count == 0 then [] else [IntAt(data, at, width)] + Fields(data, at + width, count - 1, width)
  }

  /** The table is read back as the numbers it was made of. */
  lemma {:induction false} TableHeld(data: seq<Byte>, at: nat, ns: seq<nat>, width: nat)
    requires Table(ns, width).Some? && Holds(data, at, Table(ns, width).value)
    ensures Fields(data, at, |ns|, width) == ns
    decreases |ns|
  {
    if ns != [] {
      HoldsSplit(data, at, Le(ns[0], width), Table(ns[1..], width).value);
      LeRoundTrip(ns[0], width);
      SliceHeld(data, at, Le(ns[0], width));
      TableHeld(data, at + width, ns[1..], width);
    }
  }
}
