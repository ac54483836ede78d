/** `_java_number`: a float's shortest digits laid out as Java does, and read back. */
module JavaNumber {
  import opened Wrappers

  type Digit = d: nat | d < 10

  // ------------------------------------------------------------------- values

  /** x times 10^e, a factor of ten at a time. */
  function Shift(x: real, e: int): real
    decreases if e < 0 then -e else e
  {
    if e == 0 then x else if e > 0 then Shift(10.0 * x, e - 1) else Shift(x / 10.0, e + 1)
  }

  /** The whole number the digits stand for. */
  function NatOf(ds: seq<Digit>): nat {
    if ds == [] then 0 else 10 * NatOf(ds[..|ds| - 1]) + ds[|ds| - 1]
  }

  /** The number the digits stand for after a decimal point. */
  function Frac(ds: seq<Digit>): real {
    if ds == [] then 0.0 else (ds[0] as real + Frac(ds[1..])) / 10.0
  }

  function Signed(negative: bool, r: real): real {
    if negative then -r else r
  }

  /** What `decimal.Decimal(...).as_tuple()` describes. */
  function ValueOf(negative: bool, digits: seq<Digit>, exponent: int): real {
    Signed(negative, Shift(NatOf(digits) as real, exponent))
  }

  // ----------------------------------------------------------------- printing

  function DigitChar(d: Digit): char {
    ('0' as int + d) as char
  }

  function Text(ds: seq<Digit>): string {
    seq(|ds|, i requires 0 <= i < |ds| => DigitChar(ds[i]))
  }

  function Zeros(n: nat): seq<Digit> {
    seq(n, _ => 0)
  }

  function StripLeft(ds: seq<Digit>): seq<Digit> {
    if ds != [] && ds[0] == 0 then StripLeft(ds[1..]) else ds
  }

  function StripRight(ds: seq<Digit>): (r: seq<Digit>)
    ensures r <= ds
  {
    if ds != [] && ds[|ds| - 1] == 0 then StripRight(ds[..|ds| - 1]) else ds
  }

  function DigitsOfNat(n: nat): (ds: seq<Digit>)
    ensures ds != []
  {
    if n < 10 then [n] else DigitsOfNat(n / 10) + [n % 10]
  }

  /** `str(n)`. */
  function IntText(n: int): string {
    if n < 0 then ['-'] + Text(DigitsOfNat(0 - n)) else Text(DigitsOfNat(n))
  }

  function OrZero(ds: seq<Digit>): (r: seq<Digit>)
    ensures r != []
  {
    if ds == [] then [0] else ds
  }

  /** `s[:point].ljust(point, "0")`. */
  function Whole(ds: seq<Digit>, point: nat): (r: seq<Digit>)
    ensures |r| == point
  {
    if point <= |ds| then ds[..point] else ds + Zeros(point - |ds|)
  }

  /** `s[point:]`. */
  function After(ds: seq<Digit>, point: nat): seq<Digit> {
    if point <= |ds| then ds[point..] else []
  }

  /** Digits, a point, digits. */
  function Pointed(w: seq<Digit>, f: seq<Digit>): string {
    Text(w) + (['.'] + Text(f))
  }

  function Mantissa(ds: seq<Digit>): string
    requires ds != []
  {
    Pointed([ds[0]], OrZero(ds[1..]))
  }

  function Scientific(mantissa: string, exponent: int): string {
    mantissa + (['E'] + IntText(exponent))
  }

  /** The value is 0.<ds> x 10^point, `ds` without zeros around it. */
  function Layout(ds: seq<Digit>, point: int): string
    requires ds != []
  {
    if -3 < point <= 7 then
      if point <= 0 then Pointed([0], Zeros(0 - point) + ds)
      else Pointed(Whole(ds, point), OrZero(After(ds, point)))
    else Scientific(Mantissa(ds), point - 1)
  }

  lemma {:induction false} StripRightKeepsFirst(ds: seq<Digit>)
    requires ds != [] && ds[0] != 0
    ensures StripRight(ds) != [] && StripRight(ds)[0] == ds[0]
    ensures StripRight(ds)[|StripRight(ds)| - 1] != 0
  {
    if ds[|ds| - 1] == 0 {
      StripRightKeepsFirst(ds[..|ds| - 1]);
    }
  }

  lemma {:induction false} StripLeftLeads(ds: seq<Digit>)
    ensures StripLeft(ds) == [] || StripLeft(ds)[0] != 0
  {
    if ds != [] && ds[0] == 0 {
      StripLeftLeads(ds[1..]);
    }
  }

  /** `_java_number`, from the sign, digits and exponent of the shortest text. */
  function JavaNumber(negative: bool, digits: seq<Digit>, exponent: int): string {
    var lead := if negative then ['-'] else [];
    var text := StripLeft(digits);
    if text == [] then lead + ['0', '.', '0']
    else
      StripLeftLeads(digits);
      StripRightKeepsFirst(text);
      lead + Layout(StripRight(text), |text| + exponent)
  }

  // ------------------------------------------------------------------ reading

  function IndexOf(t: string, c: char): (i: nat)
    ensures i <= |t|
  {
    if t == [] || t[0] == c then 0 else 1 + IndexOf(t[1..], c)
  }

  predicate IsScientific(t: string) {
    IndexOf(t, 'E') < |t|
  }

  predicate AllDigits(t: string) {
    forall i :: 0 <= i < |t| ==> '0' <= t[i] <= '9'
  }

  function DigitsOf(t: string): seq<Digit>
    requires AllDigits(t)
  {
    seq(|t|, i requires 0 <= i < |t| => t[i] as int - '0' as int)
  }

  function ReadPlain(t: string): Option<real> {
    var d := IndexOf(t, '.');
    if 0 < d && d + 1 < |t| && AllDigits(t[..d]) && AllDigits(t[d + 1..]) then
      Some(NatOf(DigitsOf(t[..d])) as real + Frac(DigitsOf(t[d + 1..])))
    else None
  }

  function ReadNat(t: string): Option<nat> {
    if t == [] || !AllDigits(t) then None else Some(NatOf(DigitsOf(t)))
  }

  function ReadInt(t: string): Option<int> {
    if t == [] || t[0] != '-' then ReadNat(t)
    else
      match ReadNat(t[1..])
      case Some(n) => Some(0 - n)
      case None => None
  }

  function ReadUnsigned(t: string): Option<real> {
    var e := IndexOf(t, 'E');
    if e == |t| then ReadPlain(t)
    else
      match (ReadPlain(t[..e]), ReadInt(t[e + 1..]))
      case (Some(m), Some(x)) => Some(Shift(m, x))
      case (Some(_), None) => None
      case (None, _) => None
  }

  /** A decimal number's text, in plain or scientific notation. */
  function Read(t: string): Option<real> {
    if t != [] && t[0] == '-' then
      (match ReadUnsigned(t[1..])
       case Some(r) => Some(-r)
       case None => None)
    else ReadUnsigned(t)
  }

  // --------------------------------------------------------------- arithmetic

  lemma {:induction false} ShiftNext(x: real, e: int)
    ensures Shift(x, e + 1) == 10.0 * Shift(x, e)
    ensures Shift(10.0 * x, e) == Shift(x, e + 1)
    decreases if e < 0 then -e else e
  {
    if e > 0 {
      ShiftNext(10.0 * x, e - 1);
    } else if e < -1 {
      ShiftNext(x / 10.0, e + 1);
    } else if e == -1 {
      assert Shift(x / 10.0, 0) == x / 10.0;
    }
  }

  lemma {:induction false} ShiftAdds(x: real, a: int, b: int)
    ensures Shift(Shift(x, a), b) == Shift(x, a + b)
    decreases if b < 0 then -b else b
  {
    if b > 0 {
      ShiftAdds(x, a, b - 1);
      ShiftNext(Shift(x, a), b - 1);
      ShiftNext(x, a + (b - 1));
    } else if b < 0 {
      ShiftAdds(x, a, b + 1);
      ShiftNext(Shift(x, a), b);
      ShiftNext(x, a + b);
    }
  }

  lemma {:induction false} ShiftSum(x: real, y: real, e: int)
    ensures Shift(x + y, e) == Shift(x, e) + Shift(y, e)
    decreases if e < 0 then -e else e
  {
    if e > 0 {
      ShiftSum(10.0 * x, 10.0 * y, e - 1);
      assert 10.0 * (x + y) == 10.0 * x + 10.0 * y;
    } else if e < 0 {
      ShiftSum(x / 10.0, y / 10.0, e + 1);
      assert (x + y) / 10.0 == x / 10.0 + y / 10.0;
    }
  }

  lemma {:induction false} ShiftOrders(x: real, y: real, e: int)
    requires x < y
    ensures Shift(x, e) < Shift(y, e)
    decreases if e < 0 then -e else e
  {
    if e > 0 {
      ShiftOrders(10.0 * x, 10.0 * y, e - 1);
    } else if e < 0 {
      ShiftOrders(x / 10.0, y / 10.0, e + 1);
    }
  }

  lemma {:induction false} ShiftZero(e: int)
    ensures Shift(0.0, e) == 0.0
    decreases if e < 0 then -e else e
  {
    if e > 0 {
      ShiftZero(e - 1);
    } else if e < 0 {
      ShiftZero(e + 1);
    }
  }

  lemma {:induction false} FracOfBoth(a: seq<Digit>, b: seq<Digit>)
    ensures Frac(a + b) == Frac(a) + Shift(Frac(b), 0 - |a|)
  {
    if a == [] {
      assert a + b == b;
    } else {
      FracOfBoth(a[1..], b);
      assert (a + b)[1..] == a[1..] + b;
      ShiftNext(Frac(b), 0 - |a|);
    }
  }

  lemma {:induction false} FracOfZeros(n: nat)
    ensures Frac(Zeros(n)) == 0.0
  {
    if n > 0 {
      assert Zeros(n)[1..] == Zeros(n - 1);
      FracOfZeros(n - 1);
    }
  }

  lemma OneDigit(d: Digit)
    ensures NatOf([d]) == d && Frac([d]) == d as real / 10.0
  {
    assert [d][..0] == [] && [d][1..] == [];
  }

  lemma {:induction false} NatIsShiftedFrac(ds: seq<Digit>)
    ensures NatOf(ds) as real == Shift(Frac(ds), |ds|)
  {
    if ds != [] {
      var last := |ds| - 1;
      var front, d := ds[..last], ds[last];
      NatIsShiftedFrac(front);
      assert ds == front + [d];
      FracOfBoth(front, [d]);
      OneDigit(d);
      ShiftSum(Frac(front), Shift(Frac([d]), 0 - last), |ds|);
      ShiftAdds(Frac([d]), 0 - last, |ds|);
      ShiftNext(Frac(front), last);
      ShiftByOne(d as real / 10.0);
    }
  }

  lemma ShiftByOne(x: real)
    ensures Shift(x, 1) == 10.0 * x
  {
    assert Shift(10.0 * x, 0) == 10.0 * x;
  }

  lemma {:induction false} StripLeftKeepsNat(ds: seq<Digit>)
    ensures NatOf(StripLeft(ds)) == NatOf(ds)
  {
    if ds != [] && ds[0] == 0 {
      StripLeftKeepsNat(ds[1..]);
      ZeroInFront(ds);
    }
  }

  lemma {:induction false} ZeroInFront(ds: seq<Digit>)
    requires ds != [] && ds[0] == 0
    ensures NatOf(ds) == NatOf(ds[1..])
  {
    if |ds| > 1 {
      var front := ds[..|ds| - 1];
      ZeroInFront(front);
      assert ds[1..][..|ds| - 2] == front[1..];
    } else {
      assert ds[..0] == [];
    }
  }

  lemma {:induction false} StripRightKeepsFrac(ds: seq<Digit>)
    ensures Frac(StripRight(ds)) == Frac(ds)
  {
    if ds != [] && ds[|ds| - 1] == 0 {
      var front := ds[..|ds| - 1];
      StripRightKeepsFrac(front);
      assert ds == front + [0];
      FracOfBoth(front, [0]);
      OneDigit(0);
      ShiftZero(0 - |front|);
    }
  }

  lemma {:induction false} FracBelowOne(ds: seq<Digit>)
    ensures 0.0 <= Frac(ds) < 1.0
    ensures ds != [] && ds[0] != 0 ==> Frac(ds) >= 0.1
  {
    if ds != [] {
      FracBelowOne(ds[1..]);
    }
  }

  // ------------------------------------------------------------- reading texts

  lemma TextReads(ds: seq<Digit>)
    ensures AllDigits(Text(ds)) && DigitsOf(Text(ds)) == ds
  {
  }

  predicate Lacks(t: string, c: char) {
    forall i :: 0 <= i < |t| ==> t[i] != c
  }

  lemma {:induction false} IndexAfter(a: string, c: char, b: string)
    requires Lacks(a, c)
    ensures IndexOf(a + ([c] + b), c) == |a|
  {
    if a != [] {
      IndexAfter(a[1..], c, b);
      assert (a + ([c] + b))[1..] == a[1..] + ([c] + b);
    }
  }

  lemma {:induction false} IndexNowhere(t: string, c: char)
    requires Lacks(t, c)
    ensures IndexOf(t, c) == |t|
  {
    if t != [] {
      IndexNowhere(t[1..], c);
    }
  }

  lemma PointedLacksE(w: seq<Digit>, f: seq<Digit>)
    ensures Lacks(Pointed(w, f), 'E')
  {
  }

  lemma PlainReads(w: seq<Digit>, f: seq<Digit>)
    requires w != [] && f != []
    ensures ReadPlain(Pointed(w, f)) == Some(NatOf(w) as real + Frac(f))
  {
    var t := Pointed(w, f);
    TextReads(w);
    TextReads(f);
    IndexAfter(Text(w), '.', Text(f));
    assert t[..|w|] == Text(w) && t[|w| + 1..] == Text(f);
  }

  lemma PointedReads(w: seq<Digit>, f: seq<Digit>)
    requires w != [] && f != []
    ensures ReadUnsigned(Pointed(w, f)) == Some(NatOf(w) as real + Frac(f)) && !IsScientific(Pointed(w, f))
  {
    PlainReads(w, f);
    PointedLacksE(w, f);
    IndexNowhere(Pointed(w, f), 'E');
  }

  lemma {:induction false} NatReads(n: nat)
    ensures NatOf(DigitsOfNat(n)) == n
  {
    if n >= 10 {
      NatReads(n / 10);
      var ds := DigitsOfNat(n);
      assert ds[..|ds| - 1] == DigitsOfNat(n / 10);
    } else {
      assert [n as Digit][..0] == [];
    }
  }

  lemma NatTextReads(n: nat)
    ensures var t := Text(DigitsOfNat(n)); t != [] && t[0] != '-' && ReadNat(t) == Some(n)
  {
    NatReads(n);
    TextReads(DigitsOfNat(n));
  }

  lemma IntReads(n: int)
    ensures ReadInt(IntText(n)) == Some(n)
  {
    var t := Text(DigitsOfNat(if n < 0 then 0 - n else n));
    NatTextReads(if n < 0 then 0 - n else n);
    assert (['-'] + t)[1..] == t;
  }

  lemma SlicesAround(a: string, c: char, b: string)
    ensures var t := a + ([c] + b); |t| == |a| + 1 + |b| && t[..|a|] == a && t[|a| + 1..] == b
  {
  }

  lemma ScientificSplits(m: string, x: string)
    requires Lacks(m, 'E') && ReadPlain(m).Some? && ReadInt(x).Some?
    ensures var t := m + (['E'] + x);
            ReadUnsigned(t) == Some(Shift(ReadPlain(m).value, ReadInt(x).value)) && IsScientific(t)
  {
    IndexAfter(m, 'E', x);
    SlicesAround(m, 'E', x);
  }

  lemma ScientificReads(m: string, v: real, e: int)
    requires Lacks(m, 'E') && ReadPlain(m) == Some(v)
    ensures ReadUnsigned(Scientific(m, e)) == Some(Shift(v, e)) && IsScientific(Scientific(m, e))
  {
    IntReads(e);
    ScientificSplits(m, IntText(e));
  }

  // ------------------------------------------------------------------- layouts

  lemma SmallLayout(ds: seq<Digit>, point: int)
    requires ds != [] && -3 < point <= 0
    ensures ReadUnsigned(Layout(ds, point)) == Some(Shift(Frac(ds), point)) && !IsScientific(Layout(ds, point))
  {
    PointedReads([0], Zeros(0 - point) + ds);
    ZerosShift(ds, 0 - point);
    OneDigit(0);
  }

  lemma ZerosShift(ds: seq<Digit>, n: nat)
    ensures Frac(Zeros(n) + ds) == Shift(Frac(ds), 0 - n)
  {
    FracOfBoth(Zeros(n), ds);
    FracOfZeros(n);
  }

  lemma CutAt(a: seq<Digit>, b: seq<Digit>)
    ensures NatOf(a) as real + Frac(b) == Shift(Frac(a + b), |a|)
  {
    NatIsShiftedFrac(a);
    FracOfBoth(a, b);
    ShiftSum(Frac(a), Shift(Frac(b), 0 - |a|), |a|);
    ShiftAdds(Frac(b), 0 - |a|, |a|);
  }

  lemma PaddedTo(ds: seq<Digit>, point: nat)
    requires point > |ds|
    ensures NatOf(ds + Zeros(point - |ds|)) as real == Shift(Frac(ds), point)
  {
    NatIsShiftedFrac(ds + Zeros(point - |ds|));
    FracOfBoth(ds, Zeros(point - |ds|));
    FracOfZeros(point - |ds|);
    ShiftZero(0 - |ds|);
  }

  lemma WholeAndFraction(ds: seq<Digit>, point: nat)
    ensures NatOf(Whole(ds, point)) as real + Frac(OrZero(After(ds, point))) == Shift(Frac(ds), point)
  {
    OneDigit(0);
    assert Frac([]) == 0.0 && Frac(OrZero(After(ds, point))) == Frac(After(ds, point));
    if point <= |ds| {
      assert ds[..point] + ds[point..] == ds;
      CutAt(ds[..point], ds[point..]);
    } else {
      PaddedTo(ds, point);
    }
  }

  lemma MiddleLayout(ds: seq<Digit>, point: int)
    requires ds != [] && 0 < point <= 7
    ensures ReadUnsigned(Layout(ds, point)) == Some(Shift(Frac(ds), point)) && !IsScientific(Layout(ds, point))
  {
    PointedReads(Whole(ds, point), OrZero(After(ds, point)));
    WholeAndFraction(ds, point);
  }

  lemma MantissaReads(ds: seq<Digit>)
    requires ds != []
    ensures Lacks(Mantissa(ds), 'E') && ReadPlain(Mantissa(ds)) == Some(10.0 * Frac(ds))
  {
    PlainReads([ds[0]], OrZero(ds[1..]));
    PointedLacksE([ds[0]], OrZero(ds[1..]));
    FirstDigit(ds);
  }

  lemma ScientificLayout(ds: seq<Digit>, point: int)
    requires ds != [] && !(-3 < point <= 7)
    ensures ReadUnsigned(Layout(ds, point)) == Some(Shift(Frac(ds), point)) && IsScientific(Layout(ds, point))
  {
    LayoutIsScientific(ds, point);
    ScientificValue(ds, point);
  }

  lemma LayoutIsScientific(ds: seq<Digit>, point: int)
    requires ds != [] && !(-3 < point <= 7)
    ensures Layout(ds, point) == Scientific(Mantissa(ds), point - 1)
  {
  }

  lemma ScientificOf(m: string, f: real, point: int)
    requires Lacks(m, 'E') && ReadPlain(m) == Some(10.0 * f)
    ensures ReadUnsigned(Scientific(m, point - 1)) == Some(Shift(f, point)) && IsScientific(Scientific(m, point - 1))
  {
    ScientificReads(m, 10.0 * f, point - 1);
    ShiftNext(f, point - 1);
  }

  lemma ScientificValue(ds: seq<Digit>, point: int)
    requires ds != []
    ensures var t := Scientific(Mantissa(ds), point - 1);
            ReadUnsigned(t) == Some(Shift(Frac(ds), point)) && IsScientific(t)
  {
    MantissaReads(ds);
    ScientificOf(Mantissa(ds), Frac(ds), point);
  }

  lemma FirstDigit(ds: seq<Digit>)
    requires ds != []
    ensures NatOf([ds[0]]) as real + Frac(OrZero(ds[1..])) == 10.0 * Frac(ds)
  {
    OneDigit(0);
    OneDigit(ds[0]);
  }

  lemma LayoutReads(ds: seq<Digit>, point: int)
    requires ds != []
    ensures ReadUnsigned(Layout(ds, point)) == Some(Shift(Frac(ds), point))
    ensures IsScientific(Layout(ds, point)) <==> !(-3 < point <= 7)
  {
    if -3 < point <= 0 {
      SmallLayout(ds, point);
    } else if 0 < point <= 7 {
      MiddleLayout(ds, point);
    } else {
      ScientificLayout(ds, point);
    }
  }

  lemma {:induction false} ShiftGrows(a: int, b: int)
    requires a <= b
    ensures Shift(1.0, a) <= Shift(1.0, b)
    decreases b - a
  {
    if a < b {
      ShiftGrows(a, b - 1);
      ShiftNext(1.0, b - 1);
      ShiftZero(b - 1);
      ShiftOrders(0.0, 1.0, b - 1);
    }
  }

  /** 0.<ds> x 10^point lies between 10^(point - 1) and 10^point. */
  lemma Magnitude(ds: seq<Digit>, point: int)
    requires ds != [] && ds[0] != 0
    ensures Shift(1.0, point - 1) <= Shift(Frac(ds), point) < Shift(1.0, point)
  {
    FracBelowOne(ds);
    ShiftOrders(Frac(ds), 1.0, point);
    ShiftNext(0.1, point - 1);
    if Frac(ds) > 0.1 {
      ShiftOrders(0.1, Frac(ds), point);
    }
  }

  /** The exponents printed plainly are those of the values from 10^-3 up to 10^7. */
  lemma PlainRange(ds: seq<Digit>, point: int)
    requires ds != [] && ds[0] != 0
    ensures -3 < point <= 7 <==> Shift(1.0, -3) <= Shift(Frac(ds), point) < Shift(1.0, 7)
  {
    Magnitude(ds, point);
    if point <= -3 {
      ShiftGrows(point, -3);
    } else {
      ShiftGrows(-3, point - 1);
    }
    if point <= 7 {
      ShiftGrows(point, 7);
    } else {
      ShiftGrows(7, point - 1);
    }
  }

  // -------------------------------------------------------------- main results

  lemma StripKeepsValue(digits: seq<Digit>, exponent: int)
    ensures var text := StripLeft(digits);
            Shift(NatOf(digits) as real, exponent) == Shift(Frac(StripRight(text)), |text| + exponent)
  {
    var text := StripLeft(digits);
    StripLeftKeepsNat(digits);
    StripRightKeepsFrac(text);
    NatIsShiftedFrac(text);
    ShiftAdds(Frac(text), |text|, exponent);
  }

  /** The text reads back as the number it was made from, and Java's notation is the one chosen. */
  lemma NumberRoundTrip(negative: bool, digits: seq<Digit>, exponent: int)
    ensures Read(JavaNumber(negative, digits, exponent)) == Some(ValueOf(negative, digits, exponent))
    ensures var v := Shift(NatOf(digits) as real, exponent);
            v != 0.0 ==> (!IsScientific(JavaNumber(negative, digits, exponent)) <==> Shift(1.0, -3) <= v < Shift(1.0, 7))
  {
    var text := StripLeft(digits);
    StripLeftLeads(digits);
    if text == [] {
      StripLeftKeepsNat(digits);
      ShiftZero(exponent);
      ZeroReads(negative);
    } else {
      StripKeepsValue(digits, exponent);
      StripRightKeepsFirst(text);
      SignedLayoutReads(negative, StripRight(text), |text| + exponent);
    }
  }

  lemma SignedLayoutReads(negative: bool, ds: seq<Digit>, point: int)
    requires ds != [] && ds[0] != 0
    ensures var t := (if negative then ['-'] else []) + Layout(ds, point);
            && Read(t) == Some(Signed(negative, Shift(Frac(ds), point)))
            && (!IsScientific(t) <==> Shift(1.0, -3) <= Shift(Frac(ds), point) < Shift(1.0, 7))
  {
    LayoutReads(ds, point);
    PlainRange(ds, point);
    LayoutStarts(ds, point);
    SignReads(negative, Layout(ds, point));
  }

  lemma LayoutStarts(ds: seq<Digit>, point: int)
    requires ds != []
    ensures Layout(ds, point) != [] && Layout(ds, point)[0] != '-'
  {
    if -3 < point <= 0 {
      assert Layout(ds, point)[0] == Text([0])[0];
    } else if 0 < point <= 7 {
      assert Layout(ds, point)[0] == Text(Whole(ds, point))[0];
    } else {
      assert Layout(ds, point)[0] == Text([ds[0]])[0];
    }
  }

  lemma ZeroReads(negative: bool)
    ensures Read((if negative then ['-'] else []) + ['0', '.', '0']) == Some(0.0)
  {
    PointedReads([0], [0]);
    assert Pointed([0], [0]) == ['0', '.', '0'];
    OneDigit(0);
    SignReads(negative, ['0', '.', '0']);
  }

  lemma SignReads(negative: bool, t: string)
    requires t != [] && t[0] != '-' && ReadUnsigned(t).Some?
    ensures var lead := if negative then ['-'] else [];
            Read(lead + t) == Some(Signed(negative, ReadUnsigned(t).value)) && (IsScientific(lead + t) <==> IsScientific(t))
  {
    if negative {
      assert (['-'] + t)[1..] == t;
    } else {
      assert [] + t == t;
    }
  }
}
