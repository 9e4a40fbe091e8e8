/**
  The few PHP values and string built-ins the certbot wrapper relies on:
  `trim`, `str_starts_with`, `strtolower`, `explode`, `implode`, `empty` on a
  string and the `(int)` cast of a digit string.
 */
module Php {

  /** A PHP value as it travels through option arrays and field maps. */
  datatype Value =
    | Null
    | Bool(b: bool)
    | Int(i: int)
    | Str(s: string)
    | List(items: seq<Value>)
    | Dict(entries: map<string, Value>)

  /** The largest integer of a 64-bit PHP build. */
  const PHP_INT_MAX: int := 0x7FFF_FFFF_FFFF_FFFF

  // ------ trim

  /** The characters `trim()` strips by default: " \t\n\r\0\x0B". */
  const TRIM_CHARS: set<char> := {' ', '\t', '\n', '\r', '\0', '\U{000B}'}

  predicate IsTrimChar(c: char) {
    c in TRIM_CHARS
  }

  predicate AllTrimChars(s: string) {
    forall k :: 0 <= k < |s| ==> IsTrimChar(s[k])
  }

  /** `ltrim($s)`. */
  function TrimStart(s: string): (r: string)
    ensures |r| <= |s|
    ensures r != [] ==> !IsTrimChar(r[0])
    decreases |s|
  {
    if s != [] && IsTrimChar(s[0]) then TrimStart(s[1..]) else s
  }

  /** `rtrim($s)`. */
  function TrimEnd(s: string): (r: string)
    ensures |r| <= |s|
    ensures r != [] ==> r[0] == s[0] && !IsTrimChar(r[|r| - 1])
    decreases |s|
  {
    if s != [] && IsTrimChar(s[|s| - 1]) then TrimEnd(s[..|s| - 1]) else s
  }

  /** `trim($s)`. */
  function Trim(s: string): (r: string)
    ensures |r| <= |s|
    ensures r != [] ==> !IsTrimChar(r[0]) && !IsTrimChar(r[|r| - 1])
  {
    TrimEnd(TrimStart(s))
  }

  lemma {:induction false} TrimStartSkips(p: string, x: string)
    requires AllTrimChars(p)
    requires x == [] || !IsTrimChar(x[0])
    ensures TrimStart(p + x) == x
    decreases |p|
  {
    if p != [] {
      assert (p + x)[1..] == p[1..] + x;
      TrimStartSkips(p[1..], x);
    } else {
      assert p + x == x;
    }
  }

  lemma {:induction false} TrimEndSkips(x: string, q: string)
    requires AllTrimChars(q)
    requires x == [] || !IsTrimChar(x[|x| - 1])
    ensures TrimEnd(x + q) == x
    decreases |q|
  {
    if q != [] {
      assert (x + q)[..|x + q| - 1] == x + q[..|q| - 1];
      TrimEndSkips(x, q[..|q| - 1]);
    } else {
      assert x + q == x;
    }
  }

  /**
    `trim` is determined by its result: whatever padding of trim characters
    surrounds a text whose ends are not trim characters is removed, and
    nothing else.
   */
  lemma {:induction false} TrimOfPadded(p: string, m: string, q: string)
    requires AllTrimChars(p) && AllTrimChars(q)
    requires m == [] || (!IsTrimChar(m[0]) && !IsTrimChar(m[|m| - 1]))
    ensures Trim(p + m + q) == m
  {
    if m == [] {
      assert p + m + q == (p + q) + [];
      assert AllTrimChars(p + q);
      TrimStartSkips(p + q, []);
    } else {
      assert p + m + q == p + (m + q);
      TrimStartSkips(p, m + q);
      TrimEndSkips(m, q);
    }
  }

  lemma AllTrimCharsConcat(a: string, b: string)
    requires AllTrimChars(a) && AllTrimChars(b)
    ensures AllTrimChars(a + b)
  {
  }

  /** Leading trim characters never change what `ltrim` returns. */
  lemma {:induction false} TrimStartPadding(p: string, x: string)
    requires AllTrimChars(p)
    ensures TrimStart(p + x) == TrimStart(x)
    decreases |p|
  {
    if p != [] {
      assert (p + x)[1..] == p[1..] + x;
      TrimStartPadding(p[1..], x);
    } else {
      assert p + x == x;
    }
  }

  /** Trailing trim characters never change what `rtrim` returns. */
  lemma {:induction false} TrimEndPadding(x: string, q: string)
    requires AllTrimChars(q)
    ensures TrimEnd(x + q) == TrimEnd(x)
    decreases |q|
  {
    if q != [] {
      assert (x + q)[..|x + q| - 1] == x + q[..|q| - 1];
      TrimEndPadding(x, q[..|q| - 1]);
    } else {
      assert x + q == x;
    }
  }

  /** Once `ltrim` reaches a character it keeps, what follows is kept whole. */
  lemma {:induction false} TrimStartAppend(s: string, q: string)
    requires TrimStart(s) != []
    ensures TrimStart(s + q) == TrimStart(s) + q
    decreases |s|
  {
    assert (s + q)[0] == s[0];
    if IsTrimChar(s[0]) {
      assert (s + q)[1..] == s[1..] + q;
      TrimStartAppend(s[1..], q);
    }
  }

  /** `ltrim` removes everything only from a text made of trim characters. */
  lemma {:induction false} TrimStartEmpty(s: string)
    requires TrimStart(s) == []
    ensures AllTrimChars(s)
    decreases |s|
  {
    if s != [] {
      TrimStartEmpty(s[1..]);
      assert forall k :: 1 <= k < |s| ==> s[k] == s[1..][k - 1];
    }
  }

  /** Leading and trailing trim characters never change what `trim` returns. */
  lemma TrimIgnoresPadding(p: string, s: string, q: string)
    requires AllTrimChars(p) && AllTrimChars(q)
    ensures Trim(p + s + q) == Trim(s)
  {
    assert p + s + q == p + (s + q);
    TrimStartPadding(p, s + q);
    if TrimStart(s) != [] {
      TrimStartAppend(s, q);
      TrimEndPadding(TrimStart(s), q);
    } else {
      TrimStartEmpty(s);
      AllTrimCharsConcat(s, q);
      TrimStartSkips(s + q, []);
      assert s + q + [] == s + q;
    }
  }

  // ------ prefixes, case

  /** `str_starts_with($s, $prefix)`. */
  predicate StartsWith(s: string, prefix: string) {
    |prefix| <= |s| && s[..|prefix|] == prefix
  }

  /** `str_ends_with($s, $suffix)`. */
  predicate EndsWith(s: string, suffix: string) {
    |suffix| <= |s| && s[|s| - |suffix|..] == suffix
  }

  function LowerChar(c: char): char {
    if 'A' <= c <= 'Z' then (c as int + 32) as char else c
  }

  /** `strtolower($s)`: ASCII letters only, as PHP 8 does. */
  function ToLower(s: string): (r: string)
    ensures |r| == |s|
    ensures forall k :: 0 <= k < |s| ==> r[k] == LowerChar(s[k])
  {
    seq(|s|, k requires 0 <= k < |s| => LowerChar(s[k]))
  }

  /** `empty($s)` for a string: the empty string and "0" are empty. */
  predicate IsEmptyString(s: string) {
    s == "" || s == "0"
  }

  // ------ explode / implode

  /** Index of the first `c` in `s`, or `|s|` when there is none. */
  function FindChar(s: string, c: char): (n: nat)
    ensures n <= |s|
    ensures n < |s| ==> s[n] == c
    ensures forall k :: 0 <= k < n ==> s[k] != c
  {
    if s == [] then 0 else if s[0] == c then 0 else 1 + FindChar(s[1..], c)
  }

  lemma {:induction false} FindCharAt(x: string, c: char, y: string)
    requires c !in x
    ensures FindChar(x + [c] + y, c) == |x|
  {
    var s := x + [c] + y;
    assert s[|x|] == c;
  }

  /** `explode($sep, $s)` for a one-character separator. */
  function Explode(sep: char, s: string): (parts: seq<string>)
    ensures |parts| >= 1
    ensures forall k :: 0 <= k < |parts| ==> sep !in parts[k]
    decreases |s|
  {
    var n := FindChar(s, sep);
    if n == |s| then [s] else [s[..n]] + Explode(sep, s[n + 1..])
  }

  /** `implode($sep, $parts)`. */
  function JoinWith(parts: seq<string>, sep: string): string
    decreases |parts|
  {
    if |parts| == 0 then ""
    else if |parts| == 1 then parts[0]
    else parts[0] + sep + JoinWith(parts[1..], sep)
  }

  lemma JoinCons(x: string, parts: seq<string>, sep: string)
    requires |parts| >= 1
    ensures JoinWith([x] + parts, sep) == x + (sep + JoinWith(parts, sep))
  {
    assert ([x] + parts)[1..] == parts;
  }

  /** Joining the pieces of `explode` with their separator gives the text back. */
  lemma {:induction false} JoinExplode(sep: char, s: string)
    ensures JoinWith(Explode(sep, s), [sep]) == s
    decreases |s|
  {
    var n := FindChar(s, sep);
    if n < |s| {
      var x, y := s[..n], s[n + 1..];
      var rest := Explode(sep, y);
      assert Explode(sep, s) == [x] + rest;
      JoinExplode(sep, y);
      JoinCons(x, rest, [sep]);
      assert s == x + ([sep] + y);
    }
  }

  /** Splitting a join of separator-free pieces gives the pieces back. */
  lemma {:induction false} ExplodeJoin(sep: char, parts: seq<string>)
    requires |parts| >= 1
    requires forall k :: 0 <= k < |parts| ==> sep !in parts[k]
    ensures Explode(sep, JoinWith(parts, [sep])) == parts
    decreases |parts|
  {
    if |parts| > 1 {
      var x, tail := parts[0], JoinWith(parts[1..], [sep]);
      var s := x + ([sep] + tail);
      assert JoinWith(parts, [sep]) == s by {
        JoinCons(x, parts[1..], [sep]);
        assert parts == [x] + parts[1..];
      }
      assert FindChar(s, sep) == |x| by {
        assert s == x + [sep] + tail;
        FindCharAt(x, sep, tail);
      }
      assert s[..|x|] == x && s[|x| + 1..] == tail;
      ExplodeJoin(sep, parts[1..]);
    }
  }

  // ------ (int) cast of a digit string

  predicate IsDigit(c: char) {
    '0' <= c <= '9'
  }

  predicate AllDigits(s: string) {
    forall k :: 0 <= k < |s| ==> IsDigit(s[k])
  }

  /** The value of a string of decimal digits, most significant first. */
  function DecimalValue(ds: string): nat
    requires AllDigits(ds)
    decreases |ds|
  {
    if ds == [] then 0
    else DecimalValue(ds[..|ds| - 1]) * 10 + ((ds[|ds| - 1] as int) - ('0' as int))
  }

  /**
    `(int) $ds` for a string of decimal digits: leading zeros are ignored and
    a value beyond PHP_INT_MAX saturates to PHP_INT_MAX.
   */
  function IntCast(ds: string): (n: int)
    requires AllDigits(ds)
    ensures 0 <= n <= PHP_INT_MAX
    ensures n == DecimalValue(ds) || (n == PHP_INT_MAX && DecimalValue(ds) > PHP_INT_MAX)
  {
    if DecimalValue(ds) <= PHP_INT_MAX then DecimalValue(ds) else PHP_INT_MAX
  }
}
