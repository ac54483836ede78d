/** `_like_prefix` and `_after_prefix`: a LIKE pattern as a range of strings. */
module LikeRange {
  import opened Wrappers
  import opened Values
  import opened Predicates

  const MAX_CHAR: char := '\U{10FFFF}'

  /** The literal text before the first wildcard, and whether there is none. */
  function Scan(pattern: string): (string, bool) {
    if pattern == [] then ([], true)
    else if pattern[0] == '\\' && |pattern| > 1 then
      var (rest, whole) := Scan(pattern[2..]); ([pattern[1]] + rest, whole)
    else if pattern[0] == '%' || pattern[0] == '_' then ([], false)
    else
      var (rest, whole) := Scan(pattern[1..]); ([pattern[0]] + rest, whole)
  }

  function PrefixOf(pattern: string): Option<(string, bool)> {
    var (prefix, whole) := Scan(pattern);
    if !whole && prefix == [] then None else Some((prefix, whole))
  }

  /** What is scanned from `i` on completes what is in `out`. */
  ghost predicate Completes(pattern: string, i: nat, out: string) {
    i <= |pattern| && Scan(pattern) == (out + Scan(pattern[i..]).0, Scan(pattern[i..]).1)
  }

  lemma EscapeScanned(pattern: string, i: nat, out: string)
    requires Completes(pattern, i, out) && i + 1 < |pattern| && pattern[i] == '\\'
    ensures Completes(pattern, i + 2, out + [pattern[i + 1]])
  {
    assert pattern[i..][2..] == pattern[i + 2..];
    assert out + ([pattern[i + 1]] + Scan(pattern[i + 2..]).0) == out + [pattern[i + 1]] + Scan(pattern[i + 2..]).0;
  }

  lemma CharScanned(pattern: string, i: nat, out: string)
    requires Completes(pattern, i, out) && i < |pattern| && pattern[i] != '%' && pattern[i] != '_'
    requires pattern[i] == '\\' ==> i + 1 == |pattern|
    ensures Completes(pattern, i + 1, out + [pattern[i]])
  {
    assert pattern[i..][1..] == pattern[i + 1..];
    assert out + ([pattern[i]] + Scan(pattern[i + 1..]).0) == out + [pattern[i]] + Scan(pattern[i + 1..]).0;
  }

  lemma AllScanned(pattern: string, i: nat, out: string)
    requires Completes(pattern, i, out) && (i < |pattern| ==> pattern[i] == '%' || pattern[i] == '_')
    ensures Scan(pattern) == (out, i == |pattern|)
  {
    assert out + [] == out;
  }

  /** `_like_prefix`. */
  method LikePrefix(pattern: string) returns (r: Option<(string, bool)>)
    ensures r == PrefixOf(pattern)
  {
    var out: string := [];
    var i := 0;
    assert pattern[0..] == pattern && out + Scan(pattern).0 == Scan(pattern).0;
    while i < |pattern|
      invariant Completes(pattern, i, out)
    {
      var ch := pattern[i];
      if ch == '\\' && i + 1 < |pattern| {
        EscapeScanned(pattern, i, out);
        out := out + [pattern[i + 1]];
        i := i + 2;
        continue;
      }
      if ch == '%' || ch == '_' {
        AllScanned(pattern, i, out);
        return if out != [] then Some((out, false)) else None;
      }
      CharScanned(pattern, i, out);
      out := out + [ch];
      i := i + 1;
    }
    AllScanned(pattern, i, out);
    return Some((out, true));
  }

  /** The next Unicode scalar value, over the surrogate gap; None after the last one. */
  function NextChar(c: char): Option<char> {
    if c == MAX_CHAR then None
    else if c == '\U{D7FF}' then Some('\U{E000}')
    else Some((c as int + 1) as char)
  }

  function UpperBound(prefix: string): Option<string>
    decreases |prefix|
  {
    if prefix == [] then None
    else
      var init, last := prefix[..|prefix| - 1], prefix[|prefix| - 1];
      match NextChar(last)
      case Some(c) => Some(init + [c])
      case None => UpperBound(init)
  }

  /** `_after_prefix`. */
  method AfterPrefix(prefix: string) returns (r: Option<string>)
    ensures r == UpperBound(prefix)
  {
    var chars := prefix;
    while chars != []
      invariant UpperBound(chars) == UpperBound(prefix)
      decreases |chars|
    {
      var code := chars[|chars| - 1] as int + 1;
      if code == 0xD800 {
        code := 0xE000;
      }
      if code <= 0x10FFFF {
        return Some(chars[..|chars| - 1] + [code as char]);
      }
      chars := chars[..|chars| - 1];
    }
    return None;
  }

  /** The upper bound seen from the front: bump the tail, or else the head. */
  lemma {:induction false} UpperBoundFromFront(prefix: string)
    requires prefix != []
    ensures UpperBound(prefix) ==
            match UpperBound(prefix[1..])
            case Some(a) => Some([prefix[0]] + a)
            case None => if NextChar(prefix[0]).Some? then Some([NextChar(prefix[0]).value]) else None
  {
    var init := prefix[..|prefix| - 1];
    var next := NextChar(prefix[|prefix| - 1]);
    if |prefix| == 1 {
      assert next.Some? ==> init + [next.value] == [next.value];
    } else {
      assert prefix[1..][..|prefix| - 2] == init[1..];
      if next.Some? {
        assert init + [next.value] == [prefix[0]] + (init[1..] + [next.value]);
      } else {
        UpperBoundFromFront(init);
      }
    }
  }

  lemma NextCharIsNext(c: char, d: char)
    ensures NextChar(c).Some? ==> (d < NextChar(c).value <==> d <= c)
    ensures NextChar(c).None? ==> d <= c
  {
    assert d as int < 0xD800 || 0xE000 <= d as int;
  }

  predicate InRange(s: string, prefix: string) {
    && TextOrder(s, prefix) >= 0
    && (UpperBound(prefix).Some? ==> TextOrder(s, UpperBound(prefix).value) < 0)
  }

  /** The interval [prefix, upper bound) holds exactly the strings that start with `prefix`. */
  lemma {:induction false} RangeIsPrefix(s: string, prefix: string)
    ensures InRange(s, prefix) <==> prefix <= s
    decreases |s|
  {
    if prefix == [] {
      TextOrderEqual(s, []);
    } else if s == [] {
    } else {
      UpperBoundFromFront(prefix);
      RangeIsPrefix(s[1..], prefix[1..]);
      NextCharIsNext(prefix[0], s[0]);
      if UpperBound(prefix[1..]).Some? {
        var a := UpperBound(prefix[1..]).value;
        assert ([prefix[0]] + a)[1..] == a;
      } else if UpperBound(prefix).Some? {
        var bumped := UpperBound(prefix).value;
        assert TextOrder(s, bumped) < 0 <==> s[0] < bumped[0] by {
          assert bumped[1..] == [];
        }
      }
      assert prefix <= s <==> prefix[0] == s[0] && prefix[1..] <= s[1..] by {
        if prefix[0] == s[0] && prefix[1..] <= s[1..] {
          assert s[..|prefix|] == [s[0]] + s[1..][..|prefix| - 1];
          assert prefix == [prefix[0]] + prefix[1..];
        }
        if prefix <= s {
          assert prefix[1..] == s[1..][..|prefix| - 1];
        }
      }
    }
  }

  /** No smaller string lies above every string that starts with `prefix`. */
  lemma UpperBoundIsLeast(prefix: string, u: string)
    requires forall s :: prefix <= s ==> TextOrder(s, u) < 0
    ensures UpperBound(prefix).Some? && TextOrder(UpperBound(prefix).value, u) <= 0
  {
    assert TextOrder(prefix, u) < 0;
    TextOrderAntisymmetric(prefix, u);
    RangeIsPrefix(u, prefix);
    TextOrderEqual(u, u);
    if UpperBound(prefix).Some? {
      TextOrderAntisymmetric(UpperBound(prefix).value, u);
    }
  }

  /** What matches a pattern starts with its literal text, and equals it without a wildcard. */
  lemma {:induction false} MatchStartsWithScan(pattern: string, s: string)
    ensures Matches(pattern, s) ==> Scan(pattern).0 <= s
    ensures Scan(pattern).1 ==> (Matches(pattern, s) <==> s == Scan(pattern).0)
    decreases |pattern|
  {
    if pattern == [] {
    } else if pattern[0] == '\\' && |pattern| > 1 {
      if s != [] {
        MatchStartsWithScan(pattern[2..], s[1..]);
        assert s == [s[0]] + s[1..];
      }
    } else if pattern[0] != '%' && pattern[0] != '_' && s != [] {
      MatchStartsWithScan(pattern[1..], s[1..]);
      assert s == [s[0]] + s[1..];
    }
  }

  /** A LIKE implies the range it becomes, and is the equality it becomes without a wildcard. */
  lemma LikeImpliesRange(pattern: string, s: string)
    requires PrefixOf(pattern).Some?
    ensures var (prefix, whole) := PrefixOf(pattern).value;
            if whole then Matches(pattern, s) <==> TextOrder(s, prefix) == 0
            else Matches(pattern, s) ==> InRange(s, prefix)
  {
    MatchStartsWithScan(pattern, s);
    RangeIsPrefix(s, Scan(pattern).0);
    TextOrderEqual(s, Scan(pattern).0);
  }
}
