/**
 * The theorems assume things of Arrow, of the standard library and of text that is read.
 * One library has all of them, so no theorem is empty.
 */
module Consistency {
  import opened Wrappers
  import opened Values
  import opened Predicates
  import opened Skipping
  import opened SkippingSoundness
  import opened ArrowSoundness
  import DataFusionBackend
  import DataFusionSoundness
  import P = SqlParser
  import SqlLexer
  import PrintMeaning

  /** A value of the type, NULL only for NULL. */
  function SomeValue(v: Value, t: Type): Value {
    if v.Null? then Null
    else
      match t
      case IntType(_) => IntV(0)
      case FloatType(_) => FloatV(Fin(0.0))
      case DecimalType(_, _) => DecV(0.0)
      case TextType => TextV("")
      case BoolType => BoolV(false)
      case DateType => TimeV(0)
      case TimestampType(_) => TimeV(0)
      case OtherType => OpaqueV(0)
  }

  /** Text is read as a date or as NaN, and as nothing else. */
  function ReadText(l: Literal, t: Type): Option<Coerced> {
    match (t, l)
    case (DateType, StrL(s)) => (match DayOf(s) case Some(d) => Some(Coerced(None, TimeV(d), t)) case None => None)
    case (FloatType(w), StrL(s)) =>
      if s != "NaN" then None
      else if w == 64 then Some(Coerced(None, FloatV(NaN), t))
      else Some(Coerced(Some(DOUBLE), FloatV(NaN), DOUBLE))
    case (_, _) => None
  }

  function TextOf(v: Value): Value {
    match v
    case Null => Null
    case FloatV(NegZero) => TextV("-0.0")
    case FloatV(_) => TextV("0.0")
    case _ => TextV("")
  }

  /** A day as a sign and a stroke for each day. */
  function Day(d: int): string {
    if d < 0 then ['-'] + seq(-d, _ => '/') else ['+'] + seq(d, _ => '/')
  }

  function DayOf(s: string): Option<int> {
    if s == [] || (s[0] != '+' && s[0] != '-') then None else Some(if s[0] == '-' then 1 - |s| else |s| - 1)
  }

  function ReadDay(l: Literal, t: Type): Option<Value> {
    match (t, l)
    case (DateType, StrL(s)) => (match DayOf(s) case Some(d) => Some(TimeV(d)) case None => None)
    case (_, _) => None
  }

  const ENGINE := Engine((r: real) => Fin(r), ReadText, SomeValue, TextOf, (pattern: string, s: string) => pattern == s)
  const SPELLER := DataFusionBackend.Speller((t: Type) => true, (s: string) => s == "NaN")
  const NATIVE := Native((l: Literal, t: Type) => true, Finite, ReadDay)
  const READER := P.Reader((s: string) => NaN, (r: real) => Fin(r), DayOf, (k: string, s: string) => None)

  /** What is assumed of the back ends can be had together, with a LIKE that tells the zeros apart. */
  lemma BackEndsCanBeSo()
    ensures LibraryTypes(ENGINE) && DataFusionSoundness.SpellerAgrees(ENGINE, SPELLER)
    ensures !DataFusionSoundness.SameOnZeros(ENGINE, "-%", false)
  {
    DataFusionSoundness.LikeOnNegativeZeroDiffers(ENGINE);
    forall v, t | Inhabited(t) ensures Typed(SomeValue(v, t), t) && (SomeValue(v, t).Null? <==> v.Null?) {
      ZeroFits(t);
    }
    assert forall l, t :: ENGINE.otherCoerce(l, t) == ReadText(l, t);
    assert forall v, t :: ENGINE.otherCast(v, t) == SomeValue(v, t);
  }

  lemma ZeroFits(t: Type)
    requires Inhabited(t)
    ensures t.IntType? ==> Fits(0, t.bits)
    ensures t.DecimalType? ==> InDecimal(0.0, t.precision, t.scale)
  {
  }

  /** And so can what is assumed of the statistics the kernel skips by. */
  lemma SkippingCanBeSo()
    ensures TextAgrees(ENGINE, NATIVE) && DoublesDecide(ENGINE, NATIVE)
  {
  }

  lemma DayIsRead(d: int)
    ensures DayOf(Day(d)) == Some(d)
  {
    assert |Day(d)| == 1 + if d < 0 then -d else d;
  }

  lemma DayIsPlain(d: int, i: nat)
    requires i < |Day(d)|
    ensures Day(d)[i] == '+' || Day(d)[i] == '-' || Day(d)[i] == '/'
  {
  }

  /** And of dates that are printed and read back. */
  lemma DatesCanBeSo()
    ensures PrintMeaning.ReadsDates(READER, Day)
  {
    forall d: int ensures READER.dateOf(Day(d)) == Some(d) {
      DayIsRead(d);
    }
    forall d, i | 0 <= i < |Day(d)| ensures Day(d)[i] != SqlLexer.QUOTE && Day(d)[i] != SqlLexer.BACKSLASH {
      DayIsPlain(d, i);
    }
  }
}
