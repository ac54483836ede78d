/** Unicode text: its UTF-8 bytes, and Java's order of strings by UTF-16 code unit. */
module Text {
  import opened Wrappers
  import opened Bytes

  function Utf8Char(c: char): (b: seq<Byte>)
    ensures 1 <= |b| <= 4
  {
    var n := c as int;
    if n < 0x80 then [n]
    else if n < 0x800 then [0xC0 + n / 64, 0x80 + n % 64]
    else if n < 0x1_0000 then [0xE0 + n / 64 / 64, 0x80 + n / 64 % 64, 0x80 + n % 64]
    else [0xF0 + n / 64 / 64 / 64, 0x80 + n / 64 / 64 % 64, 0x80 + n / 64 % 64, 0x80 + n % 64]
  }

  function Utf8(s: string): seq<Byte> {
    if s == [] then [] else Utf8Char(s[0]) + Utf8(s[1..])
  }

  predicate IsScalar(n: int) {
    0 <= n < 0xD800 || 0xE000 <= n < 0x11_0000
  }

  /** What a byte carries besides its marker bits. */
  function Low(b: Byte, marker: int): int {
    b - marker
  }

  /** The code point a sequence of bytes of this length would stand for. */
  function CodePoint(b: seq<Byte>): int
    requires 1 <= |b| <= 4
  {
    if |b| == 1 then b[0]
    else if |b| == 2 then Low(b[0], 0xC0) * 64 + Low(b[1], 0x80)
    else if |b| == 3 then (Low(b[0], 0xE0) * 64 + Low(b[1], 0x80)) * 64 + Low(b[2], 0x80)
    else ((Low(b[0], 0xF0) * 64 + Low(b[1], 0x80)) * 64 + Low(b[2], 0x80)) * 64 + Low(b[3], 0x80)
  }

  function SequenceLength(lead: Byte): (n: nat)
    ensures 1 <= n <= 4
  {
    if lead < 0xC0 then 1 else if lead < 0xE0 then 2 else if lead < 0xF0 then 3 else 4
  }

  /** Strict decoding: only the bytes `Utf8` gives for a scalar value are read. */
  function FromUtf8(b: seq<Byte>): Option<string> {
    if b == [] then Some([])
    else
      var n := SequenceLength(b[0]);
      if n > |b| || !IsScalar(CodePoint(b[..n])) || Utf8Char(CodePoint(b[..n]) as char) != b[..n] then None
      else
        match FromUtf8(b[n..])
        case Some(rest) => Some([CodePoint(b[..n]) as char] + rest)
        case None => None
  }

  lemma CodePointOfChar(c: char)
    ensures SequenceLength(Utf8Char(c)[0]) == |Utf8Char(c)|
    ensures CodePoint(Utf8Char(c)) == c as int
  {
  }

  lemma {:induction false} Utf8RoundTrip(s: string)
    ensures FromUtf8(Utf8(s)) == Some(s)
  {
    if s != [] {
      CodePointOfChar(s[0]);
      Utf8RoundTrip(s[1..]);
      var b := Utf8(s);
      var n := |Utf8Char(s[0])|;
      assert b[..n] == Utf8Char(s[0]) && b[n..] == Utf8(s[1..]) && b[0] == Utf8Char(s[0])[0];
      assert CodePoint(b[..n]) as char == s[0];
      assert FromUtf8(b) == Some([s[0]] + s[1..]);
      assert s == [s[0]] + s[1..];
    }
  }

  // ------------------------------------------------------------- Java's order

  /** `key.encode("utf-16-be")`. */
  function Utf16Char(c: char): (b: seq<Byte>)
    ensures |b| == 2 || |b| == 4
  {
    var n := c as int;
    if n < 0x1_0000 then [n / 256, n % 256]
    else
      var m := n - 0x1_0000;
      [0xD8 + m / 1024 / 256, m / 1024 % 256, 0xDC + m % 1024 / 256, m % 1024 % 256]
  }

  function JavaKey(s: string): seq<Byte> {
    if s == [] then [] else Utf16Char(s[0]) + JavaKey(s[1..])
  }

  predicate Below(a: seq<Byte>, b: seq<Byte>) {
    b != [] && (a == [] || a[0] < b[0] || (a[0] == b[0] && Below(a[1..], b[1..])))
  }

  predicate JavaBefore(a: string, b: string) {
    Below(JavaKey(a), JavaKey(b))
  }

  lemma {:induction false} BelowIsTotal(a: seq<Byte>, b: seq<Byte>)
    ensures Below(a, b) || Below(b, a) || a == b
    ensures !(Below(a, b) && Below(b, a)) && !Below(a, a)
  {
    if a != [] && b != [] {
      BelowIsTotal(a[1..], b[1..]);
      assert a == [a[0]] + a[1..] && b == [b[0]] + b[1..];
    }
    if a != [] {
      BelowIsTotal(a[1..], a[1..]);
    }
  }

  lemma {:induction false} BelowIsTransitive(a: seq<Byte>, b: seq<Byte>, c: seq<Byte>)
    requires Below(a, b) && Below(b, c)
    ensures Below(a, c)
  {
    if a != [] && a[0] == b[0] == c[0] {
      BelowIsTransitive(a[1..], b[1..], c[1..]);
    }
  }

  lemma CharKeyIsInjective(c: char, d: char, x: seq<Byte>, y: seq<Byte>)
    requires Utf16Char(c) + x == Utf16Char(d) + y
    ensures c == d && x == y
  {
    var l, r := Utf16Char(c) + x, Utf16Char(d) + y;
    assert l[0] == Utf16Char(c)[0] && r[0] == Utf16Char(d)[0];
    assert l[1] == Utf16Char(c)[1] && r[1] == Utf16Char(d)[1];
    if |Utf16Char(c)| == 4 && |Utf16Char(d)| == 4 {
      assert l[2] == Utf16Char(c)[2] && r[2] == Utf16Char(d)[2];
      assert l[3] == Utf16Char(c)[3] && r[3] == Utf16Char(d)[3];
    }
    assert c == d;
    assert x == l[|Utf16Char(c)|..] && y == r[|Utf16Char(d)|..];
  }

  lemma {:induction false} JavaKeyIsInjective(a: string, b: string)
    requires JavaKey(a) == JavaKey(b)
    ensures a == b
  {
    if a != [] && b != [] {
      CharKeyIsInjective(a[0], b[0], JavaKey(a[1..]), JavaKey(b[1..]));
      JavaKeyIsInjective(a[1..], b[1..]);
      assert a == [a[0]] + a[1..] && b == [b[0]] + b[1..];
    }
  }

  lemma JavaOrderIsTotal(a: string, b: string)
    ensures JavaBefore(a, b) || JavaBefore(b, a) || a == b
    ensures !(JavaBefore(a, b) && JavaBefore(b, a)) && !JavaBefore(a, a)
  {
    BelowIsTotal(JavaKey(a), JavaKey(b));
    BelowIsTotal(JavaKey(a), JavaKey(a));
    if JavaKey(a) == JavaKey(b) {
      JavaKeyIsInjective(a, b);
    }
  }

  /** Python's own order of strings is not Java's: U+FF01 and U+1F600 swap. */
  lemma CodePointOrderDiffers()
    ensures var a, b: string := [0xFF01 as char], [0x1F600 as char]; a[0] < b[0] && JavaBefore(b, a)
  {
    var a, b: string := [0xFF01 as char], [0x1F600 as char];
    assert JavaKey(a)[0] == 0xFF && JavaKey(b)[0] == 0xD8;
  }

  // ------------------------------------------------------------ sorting keys

  ghost predicate Ascending(names: seq<string>) {
    forall i, j :: 0 <= i < j < |names| ==> JavaBefore(names[i], names[j])
  }

  predicate IsLeast(k: string, keys: set<string>) {
    k in keys && forall x :: x in keys && x != k ==> JavaBefore(k, x)
  }

  lemma {:induction false} HasLeast(keys: set<string>)
    requires keys != {}
    ensures exists k :: IsLeast(k, keys)
    decreases |keys|
  {
    var x :| x in keys;
    if keys == {x} {
      assert IsLeast(x, keys);
    } else {
      assert keys - {x} != {} by {
        assert keys == (keys - {x}) + {x};
      }
      HasLeast(keys - {x});
      var k :| IsLeast(k, keys - {x});
      JavaOrderIsTotal(k, x);
      if JavaBefore(k, x) {
        assert IsLeast(k, keys);
      } else {
        forall y | y in keys && y != x ensures JavaBefore(x, y) {
          if y != k {
            BelowIsTransitive(JavaKey(x), JavaKey(k), JavaKey(y));
          }
        }
        assert IsLeast(x, keys);
      }
    }
  }

  lemma OneLeast(keys: set<string>)
    requires keys != {}
    ensures exists k :: IsLeast(k, keys)
    ensures forall a, b :: IsLeast(a, keys) && IsLeast(b, keys) ==> a == b
  {
    HasLeast(keys);
    forall a, b | IsLeast(a, keys) && IsLeast(b, keys) ensures a == b {
      JavaOrderIsTotal(a, b);
    }
  }

  function Least(keys: set<string>): (k: string)
    requires keys != {}
    ensures IsLeast(k, keys)
  {
    OneLeast(keys);
    var k :| IsLeast(k, keys);
    k
  }

  /** `sorted(keys, key=_java_order)`. */
  function Sorted(keys: set<string>): (names: seq<string>)
    ensures Ascending(names)
    ensures forall k :: k in keys <==> k in names
    ensures |names| == |keys|
    decreases |keys|
  {
    if keys == {} then []
    else
      var k := Least(keys);
      var rest := Sorted(keys - {k});
      LeastFirst(k, keys, rest);
      [k] + rest
  }

  lemma LeastFirst(k: string, keys: set<string>, rest: seq<string>)
    requires IsLeast(k, keys) && Ascending(rest) && forall x :: x in keys - {k} <==> x in rest
    ensures Ascending([k] + rest)
  {
    forall j | 0 <= j < |rest| ensures JavaBefore(k, rest[j]) {
      assert rest[j] in rest;
    }
  }

  /** Positions of ordered keys follow the keys' order. */
  lemma IndexFollowsOrder(names: seq<string>, i: nat, j: nat)
    requires Ascending(names) && i < |names| && j < |names| && JavaBefore(names[i], names[j])
    ensures i < j
  {
    JavaOrderIsTotal(names[i], names[j]);
  }
}
