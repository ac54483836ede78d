/** Table names: quoting parts into a full name, and reading a reference back. */
module Identity {
  import opened Wrappers

  /** A character of a name, and whether it stood inside backticks. */
  type Mark = (char, bool)

  const TICK: char := '`'
  const DOT: Mark := ('.', false)

  predicate IsDigit(c: char) {
    '0' <= c <= '9'
  }

  predicate IsWord(c: char) {
    'a' <= c <= 'z' || 'A' <= c <= 'Z' || IsDigit(c) || c == '_'
  }

  /** `str.isspace`. */
  predicate IsSpace(c: char) {
    var n := c as int;
    0x09 <= n <= 0x0D || 0x1C <= n <= 0x20 || n == 0x85 || n == 0xA0 || n == 0x1680
    || 0x2000 <= n <= 0x200A || n == 0x2028 || n == 0x2029 || n == 0x202F || n == 0x205F || n == 0x3000
  }

  // ------------------------------------------------------------------ quoting

  /** What may stand without backticks: ASCII letters, digits and underscores, no digit first. */
  predicate IsBare(part: string) {
    part != [] && !IsDigit(part[0]) && forall i :: 0 <= i < |part| ==> IsWord(part[i])
  }

  /** Every backtick doubled. */
  function Escaped(part: string): string {
    if part == [] then []
    else (if part[0] == TICK then [TICK, TICK] else [part[0]]) + Escaped(part[1..])
  }

  function Quote(part: string): string {
    if IsBare(part) then part else [TICK] + Escaped(part) + [TICK]
  }

  function FullName(catalog: string, schema: string, table: string): string {
    Quote(catalog) + Dotted(Quote(schema) + Dotted(Quote(table)))
  }

  function Dotted(rest: string): string {
    ['.'] + rest
  }

  // ---------------------------------------------------------------- splitting

  function Prepend(m: Mark, rest: Option<seq<Mark>>): Option<seq<Mark>> {
    match rest
    case Some(ms) => Some([m] + ms)
    case None => None
  }

  /** The characters a name stands for, each marked as quoted or not; None if a quote is left open. */
  function Marks(text: string, inQuotes: bool): Option<seq<Mark>>
    decreases |text|
  {
    if text == [] then (if inQuotes then None else Some([]))
    else if inQuotes then
      if text[0] != TICK then Prepend((text[0], true), Marks(text[1..], true))
      else if |text| > 1 && text[1] == TICK then Prepend((TICK, true), Marks(text[2..], true))
      else Marks(text[1..], false)
    else if text[0] == TICK then Marks(text[1..], true)
    else Prepend((text[0], false), Marks(text[1..], false))
  }

  /** The marks between one unquoted dot and the next. */
  function Pieces(marks: seq<Mark>): (pieces: seq<seq<Mark>>)
    ensures |pieces| > 0
  {
    if marks == [] then [[]]
    else
      var last := |marks| - 1;
      var before := Pieces(marks[..last]);
      if marks[last] == DOT then before + [[]]
      else before[|before| - 1 := before[|before| - 1] + [marks[last]]]
  }

  predicate Loose(m: Mark) {
    !m.1 && IsSpace(m.0)
  }

  function TrimLeft(piece: seq<Mark>): seq<Mark> {
    if piece != [] && Loose(piece[0]) then TrimLeft(piece[1..]) else piece
  }

  function TrimRight(piece: seq<Mark>): seq<Mark> {
    if piece != [] && Loose(piece[|piece| - 1]) then TrimRight(piece[..|piece| - 1]) else piece
  }

  function Letters(piece: seq<Mark>): string {
    seq(|piece|, i requires 0 <= i < |piece| => piece[i].0)
  }

  /** A part without the unquoted whitespace around it. */
  function Finish(piece: seq<Mark>): string {
    Letters(TrimRight(TrimLeft(piece)))
  }

  function Parts(pieces: seq<seq<Mark>>): seq<string> {
    seq(|pieces|, i requires 0 <= i < |pieces| => Finish(pieces[i]))
  }

  /** `split_identifier`; None where it raises. */
  function SplitIdentifier(name: string): Option<seq<string>> {
    match Marks(name, false)
    case None => None
    case Some(marks) => var parts := Parts(Pieces(marks)); if [] in parts then None else Some(parts)
  }

  function Append(ms: seq<Mark>, rest: Option<seq<Mark>>): Option<seq<Mark>> {
    match rest
    case Some(more) => Some(ms + more)
    case None => None
  }

  lemma AppendNothing(rest: Option<seq<Mark>>)
    ensures Append([], rest) == rest
  {
    match rest
    case Some(more) => assert [] + more == more;
    case None =>
  }

  lemma PrependAppend(m: Mark, ms: seq<Mark>, rest: Option<seq<Mark>>)
    ensures Prepend(m, Append(ms, rest)) == Append([m] + ms, rest)
  {
    match rest
    case Some(more) => assert [m] + (ms + more) == ([m] + ms) + more;
    case None =>
  }

  lemma AppendOne(ms: seq<Mark>, m: Mark, rest: Option<seq<Mark>>)
    ensures Append(ms, Prepend(m, rest)) == Append(ms + [m], rest)
  {
    match rest
    case Some(more) => assert ms + ([m] + more) == (ms + [m]) + more;
    case None =>
  }

  /** The scanning loop: characters go to `buf`, an unquoted dot ends a part. */
  method SplitLoop(name: string) returns (parts: Option<seq<string>>)
    ensures parts == SplitIdentifier(name)
  {
    var done: seq<string> := [];
    var buf: seq<Mark> := [];
    var i, inQuotes := 0, false;
    ghost var seen: seq<Mark> := [];
    ghost var pieces: seq<seq<Mark>> := [];
    AppendNothing(Marks(name, false));
    assert name[0..] == name;
    while i < |name|
      invariant 0 <= i <= |name|
      invariant Marks(name, false) == Append(seen, Marks(name[i..], inQuotes))
      invariant Pieces(seen) == pieces + [buf] && done == Parts(pieces)
    {
      var ch := name[i];
      var rest := name[i..];
      assert rest[0] == ch && rest[1..] == name[i + 1..];
      if inQuotes && ch == TICK && i + 1 < |name| && name[i + 1] == TICK {
        assert rest[1] == TICK && rest[2..] == name[i + 2..];
        AppendOne(seen, (TICK, true), Marks(name[i + 2..], true));
        AddMark(seen, pieces, buf, (TICK, true));
        buf, seen := buf + [(TICK, true)], seen + [(TICK, true)];
        i := i + 2;
      } else if ch == TICK {
        inQuotes := !inQuotes;
        i := i + 1;
      } else if !inQuotes && ch == '.' {
        AppendOne(seen, DOT, Marks(name[i + 1..], false));
        assert (seen + [DOT])[..|seen|] == seen;
        assert Parts(pieces + [buf]) == Parts(pieces) + [Finish(buf)];
        done, pieces := done + [Finish(buf)], pieces + [buf];
        buf, seen := [], seen + [DOT];
        i := i + 1;
      } else {
        AppendOne(seen, (ch, inQuotes), Marks(name[i + 1..], inQuotes));
        AddMark(seen, pieces, buf, (ch, inQuotes));
        buf, seen := buf + [(ch, inQuotes)], seen + [(ch, inQuotes)];
        i := i + 1;
      }
    }
    assert name[i..] == [];
    if inQuotes {
      return None;
    }
    assert seen + [] == seen;
    assert Parts(pieces + [buf]) == Parts(pieces) + [Finish(buf)];
    done := done + [Finish(buf)];
    if [] in done {
      return None;
    }
    return Some(done);
  }

  lemma AddMark(seen: seq<Mark>, pieces: seq<seq<Mark>>, buf: seq<Mark>, m: Mark)
    requires Pieces(seen) == pieces + [buf] && m != DOT
    ensures Pieces(seen + [m]) == pieces + [buf + [m]]
  {
    assert (seen + [m])[..|seen|] == seen;
    assert (pieces + [buf])[|pieces| := buf + [m]] == pieces + [buf + [m]];
  }

  // ---------------------------------------------------------------- references

  datatype Reference =
    | Refused
    | PathRef(path: string, scheme: string)
    | CatalogRef(catalog: string, schema: string, table: string)
    | CatalogUri(scheme: string)   // read by the catalog's own rules

  const STORAGE_SCHEMES: set<string> := {"s3", "s3a", "s3n", "gs", "gcs", "abfs", "abfss", "az", "adl", "file", "memory"}
  const CATALOG_SCHEMES: set<string> := {"uc", "unity", "hms", "hive", "glue", "deltasharing"}

  /** The text outside backticks. */
  function Unquoted(text: string, inQuotes: bool): string {
    if text == [] then []
    else if text[0] == TICK then Unquoted(text[1..], !inQuotes)
    else (if inQuotes then [] else [text[0]]) + Unquoted(text[1..], inQuotes)
  }

  method UnquotedLoop(text: string) returns (out: string)
    ensures out == Unquoted(text, false)
  {
    out := [];
    var inQuotes := false;
    for i := 0 to |text|
      invariant Unquoted(text, false) == out + Unquoted(text[i..], inQuotes)
    {
      assert text[i..][0] == text[i] && text[i..][1..] == text[i + 1..];
      if text[i] == TICK {
        inQuotes := !inQuotes;
      } else if !inQuotes {
        assert out + ([text[i]] + Unquoted(text[i + 1..], inQuotes)) == (out + [text[i]]) + Unquoted(text[i + 1..], inQuotes);
        out := out + [text[i]];
      } else {
        assert [] + Unquoted(text[i + 1..], inQuotes) == Unquoted(text[i + 1..], inQuotes);
      }
    }
  }

  predicate IsLetter(c: char) {
    'a' <= c <= 'z' || 'A' <= c <= 'Z'
  }

  function Lower(c: char): char {
    if 'A' <= c <= 'Z' then (c as int + 32) as char else c
  }

  function Lowered(s: string): string {
    seq(|s|, i requires 0 <= i < |s| => Lower(s[i]))
  }

  predicate StartsWith(s: string, prefix: string) {
    prefix <= s
  }

  predicate SchemeChar(c: char) {
    IsLetter(c) || IsDigit(c) || c == '+' || c == '.' || c == '-'
  }

  /** The length of the run of scheme characters `s` begins with. */
  function SchemeLength(s: string): (n: nat)
    ensures n <= |s|
    ensures forall i :: 0 <= i < n ==> SchemeChar(s[i])
    ensures n < |s| ==> !SchemeChar(s[n])
  {
    if s == [] || !SchemeChar(s[0]) then 0 else 1 + SchemeLength(s[1..])
  }

  /** `_scheme_of`: a scheme token before `://`. */
  function SchemeOf(ref: string): Option<string> {
    var n := SchemeLength(ref);
    if ref != [] && IsLetter(ref[0]) && StartsWith(ref[n..], "://") then Some(Lowered(ref[..n])) else None
  }

  predicate LooksLikePath(ref: string) {
    || ref == "." || ref == ".."
    || (ref != [] && (ref[0] == '~' || ref[0] == '/' || ref[0] == '\\'))
    || StartsWith(ref, "./") || StartsWith(ref, "../")
    || (|ref| >= 2 && IsLetter(ref[0]) && ref[1] == ':' && (|ref| == 2 || ref[2] == '/' || ref[2] == '\\'))
    || '/' in Unquoted(ref, false) || '\\' in Unquoted(ref, false)
  }

  function Strip(s: string): string {
    if s != [] && IsSpace(s[0]) then Strip(s[1..])
    else if s != [] && IsSpace(s[|s| - 1]) then Strip(s[..|s| - 1])
    else s
  }

  function ParseName(name: string, defaultCatalog: Option<string>, defaultSchema: Option<string>): Reference {
    match SplitIdentifier(name)
    case None => Refused
    case Some(parts) =>
      if |parts| == 3 then CatalogRef(parts[0], parts[1], parts[2])
      else if |parts| == 2 && defaultCatalog.Some? then CatalogRef(defaultCatalog.value, parts[0], parts[1])
      else if |parts| == 1 && defaultCatalog.Some? && defaultSchema.Some? then
        CatalogRef(defaultCatalog.value, defaultSchema.value, parts[0])
      else Refused
  }

  predicate Unreachable(ref: string) {
    var lowered := Lowered(ref);
    StartsWith(lowered, "dbfs:/") || StartsWith(lowered, "/dbfs/") || StartsWith(lowered, "/mnt/")
  }

  function TrimSlashes(s: string): string {
    if s != [] && s[0] == '/' then TrimSlashes(s[1..]) else s
  }

  /** `parse_ref` of a string; `exists` is whether a local path does. */
  function ParseRef(text: string, isThere: string -> bool, defaultCatalog: Option<string>, defaultSchema: Option<string>): Reference {
    var ref := Strip(text);
    if ref == [] then Refused
    else if Unreachable(ref) && !(ref[0] == '/' && isThere(ref)) then Refused
    else if StartsWith(Lowered(ref), "file:") && !StartsWith(Lowered(ref), "file://") then
      PathRef("file:///" + TrimSlashes(ref[5..]), "file")
    else
      match SchemeOf(ref)
      case Some(scheme) =>
        if scheme in CATALOG_SCHEMES then CatalogUri(scheme)
        else if scheme in STORAGE_SCHEMES then PathRef(ref, scheme)
        else Refused
      case None =>
        if LooksLikePath(ref) then PathRef(ref, "file") else ParseName(ref, defaultCatalog, defaultSchema)
  }

  // --------------------------------------------------------- the scanners agree

  function Unmarked(marks: seq<Mark>): string {
    if marks == [] then [] else (if marks[0].1 then [] else [marks[0].0]) + Unmarked(marks[1..])
  }

  /** The splitting scanner and the path-detecting one find the same characters unquoted, in every text. */
  lemma {:induction false} ScannersAgree(text: string, inQuotes: bool)
    requires Marks(text, inQuotes).Some?
    ensures Unmarked(Marks(text, inQuotes).value) == Unquoted(text, inQuotes)
    decreases |text|
  {
    if text != [] {
      if inQuotes && text[0] == TICK && |text| > 1 && text[1] == TICK {
        ScannersAgree(text[2..], true);
        assert text[1..][0] == TICK && text[1..][1..] == text[2..];
        assert Unquoted(text, true) == Unquoted(text[2..], true);
      } else if text[0] == TICK {
        ScannersAgree(text[1..], !inQuotes);
      } else {
        ScannersAgree(text[1..], inQuotes);
      }
    }
  }

  // ---------------------------------------------------------------- round trip

  function Marked(part: string, quoted: bool): seq<Mark> {
    seq(|part|, i requires 0 <= i < |part| => (part[i], quoted))
  }

  lemma OpenQuote(body: string)
    ensures Marks([TICK] + body, false) == Marks(body, true)
    ensures Unquoted([TICK] + body, false) == Unquoted(body, true)
  {
    assert ([TICK] + body)[1..] == body;
  }

  lemma CloseQuote(rest: string)
    requires rest == [] || rest[0] != TICK
    ensures Marks([TICK] + rest, true) == Marks(rest, false)
  {
    assert ([TICK] + rest)[1..] == rest;
  }

  lemma QuotedStep(c: char, tail: string)
    ensures Marks((if c == TICK then [TICK, TICK] else [c]) + tail, true) == Prepend((c, true), Marks(tail, true))
  {
    if c == TICK {
      assert ([TICK, TICK] + tail)[2..] == tail;
    } else {
      assert ([c] + tail)[1..] == tail;
    }
  }

  lemma EscapedStep(part: string, rest: string, after: Option<seq<Mark>>)
    requires part != [] && Marks(Escaped(part[1..]) + rest, true) == Append(Marked(part[1..], true), after)
    ensures Marks(Escaped(part) + rest, true) == Append(Marked(part, true), after)
  {
    var tail := Escaped(part[1..]) + rest;
    var head := if part[0] == TICK then [TICK, TICK] else [part[0]];
    assert Escaped(part) + rest == head + tail;
    QuotedStep(part[0], tail);
    PrependAppend((part[0], true), Marked(part[1..], true), after);
    assert Marked(part, true) == [(part[0], true)] + Marked(part[1..], true);
  }

  lemma {:induction false} EscapedMarks(part: string, rest: string)
    requires rest == [] || rest[0] != TICK
    ensures Marks(Escaped(part) + ([TICK] + rest), true) == Append(Marked(part, true), Marks(rest, false))
  {
    if part == [] {
      assert [] + ([TICK] + rest) == [TICK] + rest;
      CloseQuote(rest);
      AppendNothing(Marks(rest, false));
      assert Marked(part, true) == [];
    } else {
      EscapedMarks(part[1..], rest);
      EscapedStep(part, [TICK] + rest, Marks(rest, false));
    }
  }

  lemma {:induction false} BareMarks(part: string, rest: string)
    requires forall i :: 0 <= i < |part| ==> part[i] != TICK
    ensures Marks(part + rest, false) == Append(Marked(part, false), Marks(rest, false))
  {
    if part == [] {
      assert [] + rest == rest;
      AppendNothing(Marks(rest, false));
      assert Marked(part, false) == [];
    } else {
      BareMarks(part[1..], rest);
      assert (part + rest)[1..] == part[1..] + rest && (part + rest)[0] == part[0];
      PrependAppend((part[0], false), Marked(part[1..], false), Marks(rest, false));
      assert Marked(part, false) == [(part[0], false)] + Marked(part[1..], false);
    }
  }

  lemma QuotedThen(part: string, rest: string)
    requires !IsBare(part)
    ensures Quote(part) + rest == [TICK] + (Escaped(part) + ([TICK] + rest))
  {
  }

  /** A quoted part reads back as its own characters, all quoted or all bare. */
  lemma QuoteMarks(part: string, rest: string)
    requires rest == [] || rest[0] != TICK
    ensures Marks(Quote(part) + rest, false) == Append(Marked(part, !IsBare(part)), Marks(rest, false))
  {
    if IsBare(part) {
      BareMarks(part, rest);
    } else {
      QuotedThen(part, rest);
      OpenQuote(Escaped(part) + ([TICK] + rest));
      EscapedMarks(part, rest);
    }
  }

  /** No character of the part is an unquoted dot or whitespace. */
  lemma MarkedIsWhole(part: string)
    ensures var ms := Marked(part, !IsBare(part)); Finish(ms) == part && DOT !in ms
  {
    var ms := Marked(part, !IsBare(part));
    if part != [] {
      assert !Loose(ms[0]) && !Loose(ms[|ms| - 1]);
    }
    assert Letters(ms) == part;
  }

  lemma {:induction false} PiecesWithin(before: seq<Mark>, ms: seq<Mark>)
    requires DOT !in ms
    ensures var p := Pieces(before); Pieces(before + ms) == p[|p| - 1 := p[|p| - 1] + ms]
  {
    var p := Pieces(before);
    if ms == [] {
      assert before + ms == before && p[|p| - 1] + [] == p[|p| - 1];
    } else {
      var last := |ms| - 1;
      PiecesWithin(before, ms[..last]);
      assert (before + ms)[..|before + ms| - 1] == before + ms[..last];
      assert p[|p| - 1] + ms == p[|p| - 1] + ms[..last] + [ms[last]];
    }
  }

  lemma PiecesAfterDot(before: seq<Mark>, ms: seq<Mark>)
    requires DOT !in ms
    ensures Pieces(before + [DOT] + ms) == Pieces(before) + [ms]
  {
    PiecesWithin(before + [DOT], ms);
    assert (before + [DOT])[..|before|] == before;
    assert Pieces(before + [DOT]) == Pieces(before) + [[]];
    assert [] + ms == ms;
  }

  lemma DotMarks(rest: string, ms: seq<Mark>)
    requires Marks(rest, false) == Some(ms)
    ensures Marks(Dotted(rest), false) == Some([DOT] + ms)
  {
    assert Dotted(rest)[1..] == rest;
  }

  lemma FullNameMarks(c: string, s: string, t: string)
    ensures Marks(FullName(c, s, t), false)
         == Some(Marked(c, !IsBare(c)) + ([DOT] + (Marked(s, !IsBare(s)) + ([DOT] + Marked(t, !IsBare(t))))))
  {
    var t1 := Quote(t);
    assert t1 + [] == t1;
    QuoteMarks(t, []);
    var mt := Marked(t, !IsBare(t));
    assert mt + [] == mt;
    DotMarks(t1, mt);
    QuoteMarks(s, Dotted(t1));
    var ms := Marked(s, !IsBare(s)) + ([DOT] + mt);
    DotMarks(Quote(s) + Dotted(t1), ms);
    QuoteMarks(c, Dotted(Quote(s) + Dotted(t1)));
  }

  lemma ThreePieces(mc: seq<Mark>, ms: seq<Mark>, mt: seq<Mark>)
    requires DOT !in mc && DOT !in ms && DOT !in mt
    ensures Pieces(mc + ([DOT] + (ms + ([DOT] + mt)))) == [mc, ms, mt]
  {
    assert mc + ([DOT] + (ms + ([DOT] + mt))) == mc + [DOT] + ms + [DOT] + mt;
    PiecesWithin([], mc);
    assert [] + mc == mc && Pieces(mc) == [mc];
    PiecesAfterDot(mc, ms);
    PiecesAfterDot(mc + [DOT] + ms, mt);
  }

  lemma PartsOfThree(mc: seq<Mark>, ms: seq<Mark>, mt: seq<Mark>)
    ensures Parts([mc, ms, mt]) == [Finish(mc), Finish(ms), Finish(mt)]
  {
  }

  lemma EmptyAmong(c: string, s: string, t: string)
    ensures [] in [c, s, t] <==> c == [] || s == [] || t == []
  {
    if c == [] {
      assert [c, s, t][0] == [];
    } else if s == [] {
      assert [c, s, t][1] == [];
    } else if t == [] {
      assert [c, s, t][2] == [];
    }
  }

  /** Splitting a full name gives its parts, an empty one too; only then is it refused. */
  lemma SplitFullName(c: string, s: string, t: string)
    ensures SplitIdentifier(FullName(c, s, t)) == if c == [] || s == [] || t == [] then None else Some([c, s, t])
  {
    var mc, ms, mt := Marked(c, !IsBare(c)), Marked(s, !IsBare(s)), Marked(t, !IsBare(t));
    FullNameMarks(c, s, t);
    MarkedIsWhole(c);
    MarkedIsWhole(s);
    MarkedIsWhole(t);
    ThreePieces(mc, ms, mt);
    PartsOfThree(mc, ms, mt);
    EmptyAmong(c, s, t);
  }

  lemma {:induction false} UnquotedWords(part: string, rest: string)
    requires forall i :: 0 <= i < |part| ==> part[i] != TICK
    ensures Unquoted(part + rest, false) == part + Unquoted(rest, false)
  {
    if part == [] {
      assert [] + rest == rest;
    } else {
      UnquotedWords(part[1..], rest);
      assert (part + rest)[1..] == part[1..] + rest;
    }
  }

  lemma UnquotedStep(c: char, tail: string)
    ensures Unquoted((if c == TICK then [TICK, TICK] else [c]) + tail, true) == Unquoted(tail, true)
  {
    if c == TICK {
      assert ([TICK, TICK] + tail)[1..] == [TICK] + tail && ([TICK] + tail)[1..] == tail;
    } else {
      assert ([c] + tail)[1..] == tail;
    }
  }

  lemma {:induction false} UnquotedEscaped(part: string, rest: string)
    ensures Unquoted(Escaped(part) + ([TICK] + rest), true) == Unquoted(rest, false)
  {
    if part == [] {
      assert [] + ([TICK] + rest) == [TICK] + rest && ([TICK] + rest)[1..] == rest;
    } else {
      UnquotedEscaped(part[1..], rest);
      var tail := Escaped(part[1..]) + ([TICK] + rest);
      var head := if part[0] == TICK then [TICK, TICK] else [part[0]];
      assert Escaped(part) + ([TICK] + rest) == head + tail;
      UnquotedStep(part[0], tail);
    }
  }

  /** Outside the backticks a quoted part leaves nothing but a bare part's own characters. */
  lemma UnquotedQuote(part: string, rest: string)
    ensures Unquoted(Quote(part) + rest, false) == (if IsBare(part) then part else []) + Unquoted(rest, false)
  {
    if IsBare(part) {
      UnquotedWords(part, rest);
    } else {
      QuotedThen(part, rest);
      OpenQuote(Escaped(part) + ([TICK] + rest));
      UnquotedEscaped(part, rest);
    }
  }

  ghost predicate NoSeparator(text: string) {
    '/' !in Unquoted(text, false) && '\\' !in Unquoted(text, false)
  }

  lemma NoSeparatorAfter(part: string, rest: string)
    requires NoSeparator(rest)
    ensures NoSeparator(Quote(part) + rest) && NoSeparator(Dotted(rest))
  {
    UnquotedQuote(part, rest);
    UnquotedWords(['.'], rest);
  }

  lemma NoSeparatorOutside(c: string, s: string, t: string)
    ensures NoSeparator(FullName(c, s, t))
  {
    assert Quote(t) + [] == Quote(t);
    NoSeparatorAfter(t, []);
    NoSeparatorAfter(t, Quote(t));
    NoSeparatorAfter(s, Dotted(Quote(t)));
    NoSeparatorAfter(s, Quote(s) + Dotted(Quote(t)));
    NoSeparatorAfter(c, Dotted(Quote(s) + Dotted(Quote(t))));
  }

  predicate Plain(c: char) {
    IsWord(c) || c == '.'
  }

  ghost predicate TickBy(text: string, i: nat)
    requires i < |text|
  {
    exists j :: 0 <= j <= i && text[j] == TICK
  }

  /** Any character but a word's or a dot stands after a backtick, or is one. */
  ghost predicate Guarded(text: string) {
    forall i :: 0 <= i < |text| && !Plain(text[i]) ==> TickBy(text, i)
  }

  lemma TickGuards(text: string)
    requires text != [] && text[0] == TICK
    ensures Guarded(text)
  {
  }

  lemma PlainThenGuarded(a: string, rest: string)
    requires (forall i :: 0 <= i < |a| ==> Plain(a[i])) && Guarded(rest)
    ensures Guarded(a + rest)
  {
    var text := a + rest;
    forall i | 0 <= i < |text| && !Plain(text[i]) ensures TickBy(text, i) {
      assert i >= |a| && text[i] == rest[i - |a|];
      var j := FirstTick(rest, i - |a|);
      assert text[|a| + j] == TICK;
    }
  }

  /** What comes before the first backtick is words and dots. */
  lemma FirstTick(name: string, i: nat) returns (j: nat)
    requires Guarded(name) && i < |name| && !Plain(name[i])
    ensures j <= i && name[j] == TICK
  {
    assert TickBy(name, i);
    j :| j <= i && name[j] == TICK;
  }

  lemma GuardedQuote(part: string, rest: string)
    requires Guarded(rest)
    ensures Guarded(Quote(part) + rest)
  {
    if IsBare(part) {
      PlainThenGuarded(part, rest);
    } else {
      QuotedThen(part, rest);
      TickGuards(Quote(part) + rest);
    }
  }

  lemma GuardedDot(rest: string)
    requires Guarded(rest)
    ensures Guarded(Dotted(rest))
  {
    PlainThenGuarded(['.'], rest);
  }

  lemma FullNameGuarded(c: string, s: string, t: string)
    ensures Guarded(FullName(c, s, t))
  {
    assert Quote(t) + [] == Quote(t);
    GuardedQuote(t, []);
    GuardedDot(Quote(t));
    GuardedQuote(s, Dotted(Quote(t)));
    GuardedDot(Quote(s) + Dotted(Quote(t)));
    GuardedQuote(c, Dotted(Quote(s) + Dotted(Quote(t))));
  }

  predicate EndsWell(text: string) {
    text != [] && (IsWord(text[0]) || text[0] == TICK) && (IsWord(text[|text| - 1]) || text[|text| - 1] == TICK)
  }

  lemma QuoteEnds(part: string)
    requires part != []
    ensures EndsWell(Quote(part))
  {
  }

  lemma FullNameEnds(c: string, s: string, t: string)
    requires c != [] && t != []
    ensures EndsWell(FullName(c, s, t)) && |FullName(c, s, t)| >= 3
  {
    QuoteEnds(c);
    QuoteEnds(t);
  }

  lemma LoweredPrefix(name: string, prefix: string)
    requires StartsWith(Lowered(name), prefix)
    ensures |prefix| <= |name| && forall i :: 0 <= i < |prefix| ==> Lower(name[i]) == prefix[i]
  {
    assert |Lowered(name)| == |name|;
    forall i | 0 <= i < |prefix| ensures Lower(name[i]) == prefix[i] {
      assert Lowered(name)[i] == prefix[i];
    }
  }

  /** A text that begins with `prefix`, case aside, has a backtick before the colon in it. */
  lemma ColonNeedsTick(name: string, prefix: string, k: nat)
    requires Guarded(name) && k < |prefix| && prefix[k] == ':' && forall i :: 0 <= i < |prefix| ==> prefix[i] != TICK
    ensures !StartsWith(Lowered(name), prefix)
  {
    if StartsWith(Lowered(name), prefix) {
      LoweredPrefix(name, prefix);
      var j := FirstTick(name, k);
    }
  }

  lemma NoMount(name: string)
    requires Guarded(name) && EndsWell(name)
    ensures !Unreachable(name) && !StartsWith(Lowered(name), "file:")
  {
    ColonNeedsTick(name, "dbfs:/", 4);
    ColonNeedsTick(name, "file:", 4);
    assert Lowered(name)[0] == Lower(name[0]) != '/';
  }

  lemma NoScheme(name: string)
    requires Guarded(name) && EndsWell(name)
    ensures SchemeOf(name).None?
  {
    var n := SchemeLength(name);
    assert n < |name| ==> name[n..][0] == name[n];
    if n < |name| && name[n] == ':' {
      var j := FirstTick(name, n);
    }
  }

  lemma NoPath(name: string)
    requires Guarded(name) && EndsWell(name) && NoSeparator(name) && |name| >= 3
    ensures !LooksLikePath(name)
  {
    if name[1] == ':' {
      var j := FirstTick(name, 1);
    }
  }

  lemma EndsWellIsStripped(name: string)
    requires EndsWell(name)
    ensures Strip(name) == name
  {
  }

  /** The full name of any three non-empty parts reads back as those parts. */
  lemma NameRoundTrip(c: string, s: string, t: string, isThere: string -> bool, defaultCatalog: Option<string>, defaultSchema: Option<string>)
    requires c != [] && s != [] && t != []
    ensures ParseRef(FullName(c, s, t), isThere, defaultCatalog, defaultSchema) == CatalogRef(c, s, t)
  {
    var name := FullName(c, s, t);
    FullNameEnds(c, s, t);
    FullNameGuarded(c, s, t);
    NoSeparatorOutside(c, s, t);
    EndsWellIsStripped(name);
    NoMount(name);
    NoScheme(name);
    NoPath(name);
    SplitFullName(c, s, t);
    assert ParseRef(name, isThere, defaultCatalog, defaultSchema) == ParseName(name, defaultCatalog, defaultSchema);
  }
}
