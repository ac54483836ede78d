/** The tokens of a SQL predicate, and the text a string literal stands for. */
module SqlLexer {
  import opened Wrappers
  import Identity

  datatype Tok =
    | Number(text: string)
    | Str(text: string)
    | DStr(text: string)
    | Quoted(text: string)
    | Op(text: string)
    | Word(text: string)

  const QUOTE: char := '\''
  const BACKSLASH: char := '\\'

  predicate IsDigit(c: char) {
    Identity.IsDigit(c)
  }

  predicate IsWord(c: char) {
    Identity.IsWord(c)
  }

  predicate IsSpace(c: char) {
    Identity.IsSpace(c)
  }

  // ------------------------------------------------------------------ matching

  /** How many digits `t` begins with. */
  function Digits(t: string): (n: nat)
    ensures n <= |t| && (forall i :: 0 <= i < n ==> IsDigit(t[i])) && (n < |t| ==> !IsDigit(t[n]))
  {
    if t == [] || !IsDigit(t[0]) then 0 else 1 + Digits(t[1..])
  }

  function Words(t: string): (n: nat)
    ensures n <= |t|
  {
    if t == [] || !IsWord(t[0]) then 0 else 1 + Words(t[1..])
  }

  predicate StartsWith(t: string, p: string) {
    p <= t
  }

  /** `\d+\.\d*|\.\d+|\d+`; 0 for no match. */
  function MantissaLength(t: string): (n: nat)
    ensures n <= |t|
  {
    var d := Digits(t);
    if d > 0 then (if d < |t| && t[d] == '.' then d + 1 + Digits(t[d + 1..]) else d)
    else if t != [] && t[0] == '.' && Digits(t[1..]) > 0 then 1 + Digits(t[1..])
    else 0
  }

  /** `(?:[eE][+-]?\d+)?`. */
  function ExponentLength(t: string): (n: nat)
    ensures n <= |t|
  {
    if t == [] || (t[0] != 'e' && t[0] != 'E') then 0
    else
      var s := if |t| > 1 && (t[1] == '+' || t[1] == '-') then 2 else 1;
      var d := Digits(t[s..]);
      if d == 0 then 0 else s + d
  }

  function SuffixLength(t: string): (n: nat)
    ensures n <= |t|
  {
    if t != [] && t[0] in ['L', 'l', 'D', 'd', 'F', 'f'] then 1 else 0
  }

  function NumberLength(t: string): (n: nat)
    ensures n <= |t|
  {
    var s := if t != [] && (t[0] == '+' || t[0] == '-') then 1 else 0;
    var m := MantissaLength(t[s..]);
    if m == 0 then 0
    else
      var e := ExponentLength(t[s + m..]);
      s + m + e + SuffixLength(t[s + m + e..])
  }

  /** The rest of a string literal, closing quote included; a backslash takes the next character, but no line end. */
  function StringRest(t: string, quote: char): (n: nat)
    ensures n <= |t|
  {
    if t == [] then 0
    else if t[0] == quote then 1
    else if t[0] == BACKSLASH then
      if |t| > 1 && t[1] != '\n' && StringRest(t[2..], quote) > 0 then 2 + StringRest(t[2..], quote) else 0
    else if StringRest(t[1..], quote) > 0 then 1 + StringRest(t[1..], quote)
    else 0
  }

  /** The rest of a backquoted name; `some` once it has a character. */
  function QuotedRest(t: string, some: bool): (n: nat)
    ensures n <= |t|
    decreases |t|
  {
    if t == [] then 0
    else if t[0] != '`' then
      if QuotedRest(t[1..], true) > 0 then 1 + QuotedRest(t[1..], true) else 0
    else if |t| > 1 && t[1] == '`' && QuotedRest(t[2..], true) > 0 then 2 + QuotedRest(t[2..], true)
    else if some then 1
    else 0
  }

  const OPS: seq<string> := ["<=>", "<=", ">=", "<>", "!=", "==", "=", "<", ">", "(", ")", ",", "."]

  function FirstOp(t: string, ops: seq<string>): (n: nat)
    ensures n <= |t|
  {
    if ops == [] then 0 else if StartsWith(t, ops[0]) then |ops[0]| else FirstOp(t, ops[1..])
  }

  /** The token `t` begins with, by the first alternative that matches. */
  function NextToken(t: string): (r: Option<Tok>)
    ensures r.Some? ==> r.value.text <= t && r.value.text != []
  {
    var number := NumberLength(t);
    if number > 0 then Some(Number(t[..number]))
    else if t == [] then None
    else if t[0] == QUOTE && StringRest(t[1..], QUOTE) > 0 then Some(Str(t[..1 + StringRest(t[1..], QUOTE)]))
    else if t[0] == '"' && StringRest(t[1..], '"') > 0 then Some(DStr(t[..1 + StringRest(t[1..], '"')]))
    else if t[0] == '`' && QuotedRest(t[1..], false) > 0 then Some(Quoted(t[..1 + QuotedRest(t[1..], false)]))
    else if FirstOp(t, OPS) > 0 then Some(Op(t[..FirstOp(t, OPS)]))
    else if !IsDigit(t[0]) && Words(t) > 0 then Some(Word(t[..Words(t)]))
    else None
  }

  /** `_tokenize`; None where it raises. */
  function Lex(t: string): Option<seq<Tok>>
    decreases |t|
  {
    if t == [] then Some([])
    else if IsSpace(t[0]) then Lex(t[1..])
    else
      match NextToken(t)
      case None => None
      case Some(tok) =>
        match Lex(t[|tok.text|..])
        case Some(rest) => Some([tok] + rest)
        case None => None
  }

  method Tokenize(text: string) returns (tokens: Option<seq<Tok>>)
    ensures tokens == Lex(text)
  {
    var done: seq<Tok> := [];
    var pos := 0;
    assert text[0..] == text;
    PrefixedNothing(Lex(text));
    while pos < |text|
      invariant 0 <= pos <= |text|
      invariant Lex(text) == Prefixed(done, Lex(text[pos..]))
    {
      var rest := text[pos..];
      if IsSpace(text[pos]) {
        assert rest[1..] == text[pos + 1..];
        pos := pos + 1;
      } else {
        var tok := NextToken(rest);
        if tok.None? {
          return None;
        }
        assert rest[|tok.value.text|..] == text[pos + |tok.value.text|..];
        PrefixedStep(done, tok.value, Lex(text[pos + |tok.value.text|..]));
        done := done + [tok.value];
        pos := pos + |tok.value.text|;
      }
    }
    assert text[pos..] == [];
    assert done + [] == done;
    return Some(done);
  }

  function Prefixed(done: seq<Tok>, rest: Option<seq<Tok>>): Option<seq<Tok>> {
    match rest
    case Some(ts) => Some(done + ts)
    case None => None
  }

  lemma PrefixedNothing(rest: Option<seq<Tok>>)
    ensures Prefixed([], rest) == rest
  {
    match rest
    case Some(ts) => assert [] + ts == ts;
    case None =>
  }

  lemma PrefixedStep(done: seq<Tok>, tok: Tok, rest: Option<seq<Tok>>)
    ensures Prefixed(done, Prefixed([tok], rest)) == Prefixed(done + [tok], rest)
  {
    match rest
    case Some(ts) => assert done + ([tok] + ts) == (done + [tok]) + ts;
    case None =>
  }

  // ------------------------------------------------------------------ unescape

  predicate IsOctal(c: char) {
    '0' <= c <= '7'
  }

  predicate IsHex(c: char) {
    IsDigit(c) || 'a' <= c <= 'f' || 'A' <= c <= 'F'
  }

  function HexDigit(c: char): (d: nat)
    requires IsHex(c)
    ensures d < 16
  {
    if IsDigit(c) then c as int - '0' as int
    else if 'a' <= c <= 'f' then c as int - 'a' as int + 10
    else c as int - 'A' as int + 10
  }

  function Escape(c: char): string {
    if c == 'b' then [8 as char]
    else if c == 'n' then [10 as char]
    else if c == 'r' then [13 as char]
    else if c == 't' then [9 as char]
    else if c == 'Z' then [26 as char]
    else if c == '0' then [0 as char]
    else if c == '%' || c == '_' then [BACKSLASH, c]
    else [c]
  }

  predicate OctalAt(t: string) {
    |t| >= 3 && '0' <= t[0] <= '3' && IsOctal(t[1]) && IsOctal(t[2])
  }

  predicate UnicodeAt(t: string) {
    |t| >= 5 && t[0] == 'u' && IsHex(t[1]) && IsHex(t[2]) && IsHex(t[3]) && IsHex(t[4])
  }

  function Before(head: string, rest: Option<string>): Option<string> {
    match rest
    case Some(s) => Some(head + s)
    case None => None
  }

  /** `_unescape` of a literal's body; None for an escape of half a surrogate pair. */
  function Unescape(body: string): Option<string>
    decreases |body|
  {
    if body == [] then Some([])
    else if body[0] != BACKSLASH || |body| == 1 then Before([body[0]], Unescape(body[1..]))
    else
      var rest := body[1..];
      if OctalAt(rest) then
        var n := (rest[0] as int - '0' as int) * 64 + (rest[1] as int - '0' as int) * 8 + (rest[2] as int - '0' as int);
        Before([n as char], Unescape(rest[3..]))
      else if UnicodeAt(rest) then
        var n := ((HexDigit(rest[1]) * 16 + HexDigit(rest[2])) * 16 + HexDigit(rest[3])) * 16 + HexDigit(rest[4]);
        if 0xD800 <= n < 0xE000 then None else Before([n as char], Unescape(rest[5..]))
      else Before(Escape(rest[0]), Unescape(rest[1..]))
  }

  /** The loop over the body's characters. */
  method UnescapeLoop(body: string) returns (text: Option<string>)
    ensures text == Unescape(body)
  {
    var out := [];
    var i := 0;
    assert body[0..] == body;
    EmptyBefore(Unescape(body));
    while i < |body|
      invariant 0 <= i <= |body|
      invariant Unescape(body) == Before(out, Unescape(body[i..]))
    {
      var here := body[i..];
      assert here[0] == body[i] && here[1..] == body[i + 1..];
      var head: string;
      var taken: nat;
      if body[i] != BACKSLASH || i + 1 >= |body| {
        head, taken := [body[i]], 1;
      } else {
        var rest := body[i + 1..];
        if OctalAt(rest) {
          var n := (rest[0] as int - '0' as int) * 64 + (rest[1] as int - '0' as int) * 8 + (rest[2] as int - '0' as int);
          head, taken := [n as char], 4;
        } else if UnicodeAt(rest) {
          var n := ((HexDigit(rest[1]) * 16 + HexDigit(rest[2])) * 16 + HexDigit(rest[3])) * 16 + HexDigit(rest[4]);
          if 0xD800 <= n < 0xE000 {
            return None;
          }
          head, taken := [n as char], 6;
        } else {
          head, taken := Escape(rest[0]), 2;
        }
        assert rest[taken - 1..] == body[i + taken..];
      }
      BeforeBoth(out, head, Unescape(body[i + taken..]));
      out := out + head;
      i := i + taken;
    }
    assert body[i..] == [];
    assert out + [] == out;
    return Some(out);
  }

  lemma EmptyBefore(rest: Option<string>)
    ensures Before([], rest) == rest
  {
    match rest
    case Some(s) => assert [] + s == s;
    case None =>
  }

  lemma BeforeBoth(a: string, b: string, rest: Option<string>)
    ensures Before(a, Before(b, rest)) == Before(a + b, rest)
  {
    match rest
    case Some(s) => assert a + (b + s) == (a + b) + s;
    case None =>
  }

  // ------------------------------------------------------------ string literals

  /** What `_render` writes between the quotes: backslashes and quotes escaped. */
  function Escaped(s: string): string {
    if s == [] then []
    else (if s[0] == BACKSLASH || s[0] == QUOTE then [BACKSLASH, s[0]] else [s[0]]) + Escaped(s[1..])
  }

  /** Reading the literal written gives back every string, whatever characters it holds. */
  lemma {:induction false} UnescapeRestores(s: string)
    ensures Unescape(Escaped(s)) == Some(s)
  {
    if s != [] {
      UnescapeRestores(s[1..]);
      var body := Escaped(s);
      var tail := Escaped(s[1..]);
      assert s == [s[0]] + s[1..];
      if s[0] == BACKSLASH || s[0] == QUOTE {
        assert body == [BACKSLASH, s[0]] + tail && body[1..] == [s[0]] + tail && body[1..][1..] == tail;
        assert !OctalAt(body[1..]) && !UnicodeAt(body[1..]);
        assert Escape(s[0]) == [s[0]];
      } else {
        assert body == [s[0]] + tail && body[1..] == tail;
      }
    }
  }

  /** The literal written is one token, up to its closing quote. */
  lemma {:induction false} LiteralIsOneToken(s: string, rest: string)
    ensures StringRest(Escaped(s) + ([QUOTE] + rest), QUOTE) == |Escaped(s)| + 1
  {
    var text := Escaped(s) + ([QUOTE] + rest);
    if s == [] {
      assert text == [QUOTE] + rest;
    } else {
      LiteralIsOneToken(s[1..], rest);
      var tail := Escaped(s[1..]) + ([QUOTE] + rest);
      if s[0] == BACKSLASH || s[0] == QUOTE {
        assert text == [BACKSLASH, s[0]] + tail && text[2..] == tail;
      } else {
        assert text == [s[0]] + tail && text[1..] == tail;
      }
    }
  }
}
