/**
  The three PCRE patterns the certificate report parser applies, each as a
  function that computes exactly what `preg_split` / `preg_match` return for
  that pattern, and each tied by lemmas to a declarative description of the
  strings the pattern matches.
 */
module Patterns {
  import opened Wrappers
  import opened Php

  /** `\s` in a pattern without the `u` modifier: space, \t, \n, \x0B, \f, \r. */
  const SPACE_CHARS: set<char> := {' ', '\t', '\n', '\U{000B}', '\U{000C}', '\r'}

  predicate IsSpace(c: char) {
    c in SPACE_CHARS
  }

  predicate AllSpace(s: string) {
    forall k :: 0 <= k < |s| ==> IsSpace(s[k])
  }

  predicate NoSpace(s: string) {
    forall k :: 0 <= k < |s| ==> !IsSpace(s[k])
  }

  /** Length of the longest prefix of `s` made of `\s` characters. */
  function SpaceRun(s: string): (n: nat)
    ensures n <= |s| && AllSpace(s[..n])
    ensures n < |s| ==> !IsSpace(s[n])
  {
    if s != [] && IsSpace(s[0]) then 1 + SpaceRun(s[1..]) else 0
  }

  /** Length of the longest prefix of `s` free of `\s` characters. */
  function TokenRun(s: string): (n: nat)
    ensures n <= |s| && NoSpace(s[..n])
    ensures n < |s| ==> IsSpace(s[n])
  {
    if s != [] && !IsSpace(s[0]) then 1 + TokenRun(s[1..]) else 0
  }

  /** Length of the longest prefix of `s` made of `\d` characters. */
  function DigitRun(s: string): (n: nat)
    ensures n <= |s| && AllDigits(s[..n])
    ensures n < |s| ==> !IsDigit(s[n])
  {
    if s != [] && IsDigit(s[0]) then 1 + DigitRun(s[1..]) else 0
  }

  // ------ preg_split('/\s+/', $s)

  /** `preg_split('/\s+/', $s)`: the pieces between maximal runs of `\s`. */
  function SplitOnWhitespace(s: string): (parts: seq<string>)
    ensures |parts| >= 1
    ensures forall k :: 0 <= k < |parts| ==> NoSpace(parts[k])
    decreases |s|
  {
    var n := TokenRun(s);
    if n == |s| then [s]
    else
      var rest := s[n..];
      assert IsSpace(rest[0]);
      [s[..n]] + SplitOnWhitespace(rest[SpaceRun(rest)..])
  }

  /** `s` with every maximal run of `\s` replaced by one space. */
  function CollapseWhitespace(s: string): string
    decreases |s|
  {
    if s == [] then []
    else if IsSpace(s[0]) then " " + CollapseWhitespace(s[SpaceRun(s)..])
    else [s[0]] + CollapseWhitespace(s[1..])
  }

  lemma {:induction false} CollapseKeepsToken(t: string, x: string)
    requires NoSpace(t)
    ensures CollapseWhitespace(t + x) == t + CollapseWhitespace(x)
    decreases |t|
  {
    if t != [] {
      assert (t + x)[0] == t[0];
      assert (t + x)[1..] == t[1..] + x;
      CollapseKeepsToken(t[1..], x);
      assert t == [t[0]] + t[1..];
    } else {
      assert t + x == x;
    }
  }

  /**
    The pieces of `preg_split('/\s+/')`, joined with single spaces, give the
    text back with each run of whitespace collapsed to one space.
   */
  lemma {:induction false} SplitOnWhitespaceJoins(s: string)
    ensures JoinWith(SplitOnWhitespace(s), " ") == CollapseWhitespace(s)
    decreases |s|
  {
    var n := TokenRun(s);
    if n == |s| {
      assert s == s + [];
      CollapseKeepsToken(s, []);
    } else {
      var x, rest := s[..n], s[n..];
      var tail := rest[SpaceRun(rest)..];
      var pieces := SplitOnWhitespace(tail);
      assert SplitOnWhitespace(s) == [x] + pieces;
      assert CollapseWhitespace(rest) == " " + CollapseWhitespace(tail) by {
        assert IsSpace(rest[0]);
      }
      assert CollapseWhitespace(s) == x + CollapseWhitespace(rest) by {
        assert s == x + rest;
        CollapseKeepsToken(x, rest);
      }
      SplitOnWhitespaceJoins(tail);
      JoinCons(x, pieces, " ");
    }
  }

  /**
    On a text that neither starts nor ends with whitespace, every piece is
    non-empty.
   */
  lemma {:induction false} SplitOnWhitespaceNonEmpty(s: string)
    requires s != [] && !IsSpace(s[0]) && !IsSpace(s[|s| - 1])
    ensures forall k :: 0 <= k < |SplitOnWhitespace(s)| ==> SplitOnWhitespace(s)[k] != []
    decreases |s|
  {
    var n := TokenRun(s);
    if n < |s| {
      var rest := s[n..];
      var m := SpaceRun(rest);
      assert m < |rest| by {
        if m == |rest| {
          assert rest[|rest| - 1] == s[|s| - 1];
        }
      }
      var tail := rest[m..];
      assert tail[|tail| - 1] == s[|s| - 1];
      SplitOnWhitespaceNonEmpty(tail);
      assert SplitOnWhitespace(s) == [s[..n]] + SplitOnWhitespace(tail);
    }
  }

  /** `preg_split` of the empty string is one empty piece. */
  lemma SplitOnWhitespaceEmpty()
    ensures SplitOnWhitespace("") == [""]
  {
  }

  // ------ preg_match('/Expiry Date:\s+([^(]+)\s+\(([^)]+)\)/', $line)

  const EXPIRY_LABEL: string := "Expiry Date:"

  /**
    The strings the expiry pattern accepts right after its literal tag:
    whitespace, a date text without '(', whitespace, then a parenthesised
    text without ')'.
   */
  ghost predicate ExpiryShape(r: string, a: string, g1: string, b: string, g2: string, rest: string) {
    && r == a + (g1 + (b + ("(" + (g2 + (")" + rest)))))
    && a != [] && AllSpace(a)
    && g1 != [] && '(' !in g1
    && b != [] && AllSpace(b)
    && g2 != [] && ')' !in g2
  }

  /**
    One attempt of the expiry pattern anchored at the start of `t`, with
    PCRE's greedy, backtracking choice of captures: the two captured groups.
   */
  function MatchExpiryHere(t: string): (m: Option<(string, string)>)
  {
    if !StartsWith(t, EXPIRY_LABEL) then None else MatchExpiryAfterLabel(t[|EXPIRY_LABEL|..])
  }

  /**
    After the tag: `[^(]+` cannot cross a '(', so the literal '(' of the
    pattern is the first '(' of the text.
   */
  function MatchExpiryAfterLabel(r: string): (m: Option<(string, string)>)
  {
    var k := FindChar(r, '(');
    if k == |r| then None else MatchExpiryAround(r[..k], r[k + 1..])
  }

  /**
    `p` is the text before that '(' and `q` the text after it. `\s+` then
    `[^(]+` then `\s+` must cover `p`: it needs at least three characters,
    whitespace at both ends; the first `\s+` is greedy but leaves the group
    at least two characters, the last `\s+` gets one. The second group runs
    up to the first ')' and must not be empty.
   */
  function MatchExpiryAround(p: string, q: string): (m: Option<(string, string)>)
  {
    var j := FindChar(q, ')');
    if |p| < 3 || !IsSpace(p[0]) || !IsSpace(p[|p| - 1]) || j == 0 || j == |q| then None
    else
      var w := if SpaceRun(p) < |p| - 2 then SpaceRun(p) else |p| - 2;
      Some((p[w..|p| - 1], q[..j]))
  }

  /** Every match of the anchored attempt has the shape the pattern describes. */
  lemma ExpiryMatchSound(t: string) returns (a: string, b: string, rest: string)
    requires MatchExpiryHere(t).Some?
    ensures StartsWith(t, EXPIRY_LABEL)
    ensures ExpiryShape(t[|EXPIRY_LABEL|..], a, MatchExpiryHere(t).value.0, b, MatchExpiryHere(t).value.1, rest)
  {
    a, b, rest := ExpiryAfterLabelSound(t[|EXPIRY_LABEL|..]);
  }

  lemma ExpiryAfterLabelSound(r: string) returns (a: string, b: string, rest: string)
    requires MatchExpiryAfterLabel(r).Some?
    ensures ExpiryShape(r, a, MatchExpiryAfterLabel(r).value.0, b, MatchExpiryAfterLabel(r).value.1, rest)
  {
    var k := FindChar(r, '(');
    var p, q := r[..k], r[k + 1..];
    assert MatchExpiryAfterLabel(r) == MatchExpiryAround(p, q);
    assert r == p + ("(" + q) by {
      assert r[k] == '(';
    }
    var g1, g2;
    a, g1, b, g2, rest := ExpiryAroundSound(p, q, r);
    ExpiryRegroup(r, p, q, a, g1, b, g2, rest);
  }

  lemma ExpiryRegroup(r: string, p: string, q: string, a: string, g1: string, b: string, g2: string, rest: string)
    requires r == p + ("(" + q) && p == a + (g1 + b) && q == g2 + (")" + rest)
    ensures r == a + (g1 + (b + ("(" + (g2 + (")" + rest)))))
  {
    Regroup3(a, g1, b, "(" + q);
  }

  lemma ExpiryAroundSound(p: string, q: string, r: string) returns (a: string, g1: string, b: string, g2: string, rest: string)
    requires MatchExpiryAround(p, q).Some?
    requires p == r[..FindChar(r, '(')]
    ensures MatchExpiryAround(p, q).value == (g1, g2)
    ensures p == a + (g1 + b) && q == g2 + (")" + rest)
    ensures a != [] && AllSpace(a) && g1 != [] && '(' !in g1 && b != [] && AllSpace(b)
    ensures g2 != [] && ')' !in g2
  {
    var j := FindChar(q, ')');
    var w := if SpaceRun(p) < |p| - 2 then SpaceRun(p) else |p| - 2;
    a, g1, b := p[..w], p[w..|p| - 1], [p[|p| - 1]];
    g2, rest := q[..j], q[j + 1..];
    assert AllSpace(a) by {
      assert AllSpace(p[..SpaceRun(p)]);
      assert forall i :: 0 <= i < w ==> a[i] == p[..SpaceRun(p)][i];
    }
    assert '(' !in g1 by {
      assert forall i :: 0 <= i < |g1| ==> g1[i] == r[w + i];
    }
    assert ')' !in g2 by {
      assert forall i :: 0 <= i < |g2| ==> g2[i] == q[i];
    }
    assert q == g2 + (")" + rest);
    assert p[w..] == g1 + b;
    assert p == a + p[w..];
  }

  /** Every string of that shape is matched, and the date text in parentheses is captured. */
  lemma ExpiryMatchComplete(t: string, a: string, g1: string, b: string, g2: string, rest: string)
    requires StartsWith(t, EXPIRY_LABEL)
    requires ExpiryShape(t[|EXPIRY_LABEL|..], a, g1, b, g2, rest)
    ensures MatchExpiryHere(t).Some? && MatchExpiryHere(t).value.1 == g2
  {
    var r := t[|EXPIRY_LABEL|..];
    var p := a + (g1 + b);
    var q := g2 + (")" + rest);
    assert '(' !in p by {
      forall k | 0 <= k < |p| ensures p[k] != '(' {
        if k < |a| { assert IsSpace(a[k]); }
        else if k >= |a| + |g1| { assert IsSpace(b[k - |a| - |g1|]); }
        else { assert p[k] == g1[k - |a|]; }
      }
    }
    assert r == p + ['('] + q by {
      Regroup3(a, g1, b, "(" + q);
    }
    FindCharAt(p, '(', q);
    assert r[..|p|] == p && r[|p| + 1..] == q;
    ExpiryAroundComplete(a, g1, b, g2, rest);
  }

  lemma ExpiryAroundComplete(a: string, g1: string, b: string, g2: string, rest: string)
    requires a != [] && AllSpace(a) && g1 != [] && b != [] && AllSpace(b)
    requires g2 != [] && ')' !in g2
    ensures MatchExpiryAround(a + (g1 + b), g2 + (")" + rest)).Some?
    ensures MatchExpiryAround(a + (g1 + b), g2 + (")" + rest)).value.1 == g2
  {
    var p := a + (g1 + b);
    var q := g2 + (")" + rest);
    assert q == g2 + [')'] + rest;
    FindCharAt(g2, ')', rest);
    assert q[..|g2|] == g2;
    assert p[0] == a[0];
    assert p[|p| - 1] == b[|b| - 1];
  }

  lemma Regroup3(a: string, b: string, c: string, d: string)
    ensures a + (b + (c + d)) == (a + (b + c)) + d
  {
  }

  /** `preg_match` of the expiry pattern: the leftmost position where the attempt succeeds. */
  function MatchExpiry(line: string): Option<(string, string)> {
    SearchExpiry(line, 0)
  }

  function SearchExpiry(line: string, i: nat): (m: Option<(string, string)>)
    requires i <= |line|
    ensures m.Some? ==> exists k :: i <= k <= |line| && m == MatchExpiryHere(line[k..])
    decreases |line| - i
  {
    if MatchExpiryHere(line[i..]).Some? then MatchExpiryHere(line[i..])
    else if i == |line| then None
    else SearchExpiry(line, i + 1)
  }

  /** A line whose anchored attempt succeeds at its start is matched there. */
  lemma MatchExpiryAtStart(line: string)
    requires MatchExpiryHere(line).Some?
    ensures MatchExpiry(line) == MatchExpiryHere(line)
  {
    assert line[0..] == line;
  }

  /** A failed search means no position of the line starts a match. */
  lemma {:induction false} SearchExpiryNone(line: string, i: nat, k: nat)
    requires i <= k <= |line|
    requires SearchExpiry(line, i).None?
    ensures MatchExpiryHere(line[k..]).None?
    decreases k - i
  {
    if i < k {
      SearchExpiryNone(line, i + 1, k);
    }
  }

  // ------ preg_match('/VALID:\s*(\d+)\s*days/i', $text)

  /** `s` equals the lower-case literal `lower` when ASCII case is ignored. */
  predicate EqualsIgnoreCase(s: string, lower: string) {
    |s| == |lower| && forall k :: 0 <= k < |s| ==> LowerChar(s[k]) == lower[k]
  }

  predicate StartsWithIgnoreCase(s: string, lower: string) {
    |lower| <= |s| && EqualsIgnoreCase(s[..|lower|], lower)
  }

  /**
    The strings the validity pattern accepts where its match begins: "VALID:"
    in any case, optional whitespace, digits, optional whitespace, "days" in any case.
   */
  ghost predicate ValidDaysShape(t: string, tag: string, w1: string, ds: string, w2: string, days: string, rest: string) {
    && t == tag + (w1 + (ds + (w2 + (days + rest))))
    && EqualsIgnoreCase(tag, "valid:")
    && AllSpace(w1) && AllSpace(w2)
    && ds != [] && AllDigits(ds)
    && EqualsIgnoreCase(days, "days")
  }

  /** One attempt of the validity pattern anchored at the start of `t`: the captured digits. */
  function MatchValidDaysHere(t: string): (m: Option<string>)
    ensures m.Some? ==> m.value != [] && AllDigits(m.value)
  {
    if !StartsWithIgnoreCase(t, "valid:") then None else MatchValidDaysAfterTag(t[6..])
  }

  /**
    After the tag: `\s*` and `\d+` are greedy and neither can give back a
    character the next item could use, so the attempt succeeds exactly when
    "days" follows the maximal digit run and the whitespace after it.
   */
  function MatchValidDaysAfterTag(a: string): (m: Option<string>)
    ensures m.Some? ==> m.value != [] && AllDigits(m.value)
  {
    var b := a[SpaceRun(a)..];
    var d := DigitRun(b);
    if d == 0 then None
    else
      var c := b[d..];
      if StartsWithIgnoreCase(c[SpaceRun(c)..], "days") then Some(b[..d]) else None
  }

  /** Every match of the anchored attempt has the shape the pattern describes. */
  lemma ValidDaysMatchSound(t: string) returns (tag: string, w1: string, w2: string, days: string, rest: string)
    requires MatchValidDaysHere(t).Some?
    ensures ValidDaysShape(t, tag, w1, MatchValidDaysHere(t).value, w2, days, rest)
  {
    tag := t[..6];
    w1, w2, days, rest := ValidDaysAfterTagSound(t[6..]);
    assert t == tag + t[6..];
  }

  lemma ValidDaysAfterTagSound(a: string) returns (w1: string, w2: string, days: string, rest: string)
    requires MatchValidDaysAfterTag(a).Some?
    ensures a == w1 + (MatchValidDaysAfterTag(a).value + (w2 + (days + rest)))
    ensures AllSpace(w1) && AllSpace(w2) && EqualsIgnoreCase(days, "days")
  {
    var b := a[SpaceRun(a)..];
    var d := DigitRun(b);
    var c := b[d..];
    var e := c[SpaceRun(c)..];
    w1, w2, days, rest := a[..SpaceRun(a)], c[..SpaceRun(c)], e[..4], e[4..];
    assert e == days + rest;
    assert c == w2 + e;
    assert b == b[..d] + c;
    assert a == w1 + b;
  }

  /** Every string of that shape is matched, and exactly its digits are captured. */
  lemma ValidDaysMatchComplete(t: string, tag: string, w1: string, ds: string, w2: string, days: string, rest: string)
    requires ValidDaysShape(t, tag, w1, ds, w2, days, rest)
    ensures MatchValidDaysHere(t) == Some(ds)
  {
    var a := w1 + (ds + (w2 + (days + rest)));
    assert t[..6] == tag && t[6..] == a;
    ValidDaysAfterTagComplete(w1, ds, w2, days, rest);
  }

  lemma ValidDaysAfterTagComplete(w1: string, ds: string, w2: string, days: string, rest: string)
    requires AllSpace(w1) && AllSpace(w2)
    requires ds != [] && AllDigits(ds)
    requires EqualsIgnoreCase(days, "days")
    ensures MatchValidDaysAfterTag(w1 + (ds + (w2 + (days + rest)))) == Some(ds)
  {
    var e := days + rest;
    var c := w2 + e;
    var b := ds + c;
    var a := w1 + b;
    assert a[SpaceRun(a)..] == b by {
      assert b[0] == ds[0];
      SpaceRunStops(w1, b);
    }
    assert DigitRun(b) == |ds| && b[..|ds|] == ds && b[|ds|..] == c by {
      DigitsThenStop(ds, w2, days, rest);
    }
    assert c[SpaceRun(c)..][..4] == days by {
      assert e[0] == days[0];
      SpaceRunStops(w2, e);
      assert c[|w2|..] == e;
    }
  }

  lemma DigitsThenStop(ds: string, w2: string, days: string, rest: string)
    requires AllDigits(ds) && AllSpace(w2)
    requires EqualsIgnoreCase(days, "days")
    ensures DigitRun(ds + (w2 + (days + rest))) == |ds|
  {
    var c := w2 + (days + rest);
    if w2 != [] {
      assert c[0] == w2[0];
    } else {
      assert c[0] == days[0];
    }
    DigitRunStops(ds, c);
  }

  lemma {:induction false} SpaceRunStops(w: string, x: string)
    requires AllSpace(w)
    requires x != [] && !IsSpace(x[0])
    ensures SpaceRun(w + x) == |w|
    decreases |w|
  {
    if w != [] {
      assert (w + x)[0] == w[0] && IsSpace(w[0]);
      assert (w + x)[1..] == w[1..] + x;
      assert AllSpace(w[1..]) by {
        assert forall k :: 0 <= k < |w| - 1 ==> w[1..][k] == w[k + 1];
      }
      SpaceRunStops(w[1..], x);
    } else {
      assert w + x == x;
    }
  }

  lemma {:induction false} DigitRunStops(ds: string, x: string)
    requires AllDigits(ds)
    requires x != [] && !IsDigit(x[0])
    ensures DigitRun(ds + x) == |ds|
    decreases |ds|
  {
    if ds != [] {
      assert (ds + x)[0] == ds[0] && IsDigit(ds[0]);
      assert (ds + x)[1..] == ds[1..] + x;
      assert AllDigits(ds[1..]) by {
        assert forall k :: 0 <= k < |ds| - 1 ==> ds[1..][k] == ds[k + 1];
      }
      DigitRunStops(ds[1..], x);
    } else {
      assert ds + x == x;
    }
  }

  /** `preg_match` of the validity pattern: the leftmost position where the attempt succeeds. */
  function MatchValidDays(t: string): Option<string> {
    SearchValidDays(t, 0)
  }

  function SearchValidDays(t: string, i: nat): (m: Option<string>)
    requires i <= |t|
    ensures m.Some? ==> exists k :: i <= k <= |t| && m == MatchValidDaysHere(t[k..])
    ensures m.Some? ==> m.value != [] && AllDigits(m.value)
    decreases |t| - i
  {
    if MatchValidDaysHere(t[i..]).Some? then MatchValidDaysHere(t[i..])
    else if i == |t| then None
    else SearchValidDays(t, i + 1)
  }

  /** Wherever the pattern occurs in `t`, the search finds a match. */
  lemma {:induction false} SearchValidDaysFinds(t: string, i: nat, k: nat)
    requires i <= k <= |t|
    requires MatchValidDaysHere(t[k..]).Some?
    ensures SearchValidDays(t, i).Some?
    decreases k - i
  {
    if i < k && MatchValidDaysHere(t[i..]).None? {
      SearchValidDaysFinds(t, i + 1, k);
    }
  }

  // ------ The texts certbot prints

  lemma {:induction false} TokenRunStops(t: string, x: string)
    requires NoSpace(t)
    requires x == [] || IsSpace(x[0])
    ensures TokenRun(t + x) == |t|
    decreases |t|
  {
    if t != [] {
      assert (t + x)[0] == t[0] && !IsSpace(t[0]);
      assert (t + x)[1..] == t[1..] + x;
      assert NoSpace(t[1..]) by {
        assert forall k :: 0 <= k < |t| - 1 ==> t[1..][k] == t[k + 1];
      }
      TokenRunStops(t[1..], x);
    } else {
      assert t + x == x;
    }
  }

  /** Space-separated tokens without whitespace split back into the same tokens. */
  lemma {:induction false} SplitJoinedTokens(tokens: seq<string>)
    requires |tokens| >= 1
    requires forall k :: 0 <= k < |tokens| ==> tokens[k] != [] && NoSpace(tokens[k])
    ensures SplitOnWhitespace(JoinWith(tokens, " ")) == tokens
    decreases |tokens|
  {
    var t := tokens[0];
    if |tokens| == 1 {
      TokenRunStops(t, []);
      assert t + [] == t;
    } else {
      var tail := JoinWith(tokens[1..], " ");
      var s := t + (" " + tail);
      assert JoinWith(tokens, " ") == s by {
        JoinCons(t, tokens[1..], " ");
        assert tokens == [t] + tokens[1..];
      }
      assert tail != [] && !IsSpace(tail[0]) by {
        JoinStartsWithFirst(tokens[1..]);
      }
      TokenRunStops(t, " " + tail);
      SpaceRunStops(" ", tail);
      assert s[|t|..] == " " + tail;
      assert (" " + tail)[1..] == tail;
      SplitJoinedTokens(tokens[1..]);
      assert s[..|t|] == t;
    }
  }

  lemma JoinStartsWithFirst(tokens: seq<string>)
    requires |tokens| >= 1 && tokens[0] != []
    ensures JoinWith(tokens, " ") != [] && JoinWith(tokens, " ")[0] == tokens[0][0]
  {
  }

  /**
    The expiry line as certbot prints it, "Expiry Date: <date> (<note>)",
    captures the date and the note exactly.
   */
  lemma ExpiryOfPrinted(date: string, note: string)
    requires date != [] && '(' !in date && !IsSpace(date[0])
    requires note != [] && ')' !in note
    ensures MatchExpiry(EXPIRY_LABEL + " " + date + " (" + note + ")") == Some((date, note))
  {
    var p, q := " " + date + " ", note + ")";
    var line := EXPIRY_LABEL + " " + date + " (" + note + ")";
    assert line == EXPIRY_LABEL + (p + ("(" + q));
    ExpiryAfterLabelPrinted(date, note, p, q);
    assert line[|EXPIRY_LABEL|..] == p + ("(" + q);
    MatchExpiryAtStart(line);
  }

  lemma ExpiryAfterLabelPrinted(date: string, note: string, p: string, q: string)
    requires date != [] && '(' !in date && !IsSpace(date[0])
    requires note != [] && ')' !in note
    requires p == " " + date + " " && q == note + ")"
    ensures MatchExpiryAfterLabel(p + ("(" + q)) == Some((date, note))
  {
    var r := p + ("(" + q);
    assert '(' !in p by {
      assert forall k :: 0 <= k < |p| - 2 ==> p[k + 1] == date[k];
    }
    assert FindChar(r, '(') == |p| by {
      assert r == p + "(" + q;
      FindCharAt(p, '(', q);
    }
    assert r[..|p|] == p && r[|p| + 1..] == q;
    ExpiryAroundPrinted(date, note, p, q);
  }

  lemma ExpiryAroundPrinted(date: string, note: string, p: string, q: string)
    requires date != [] && !IsSpace(date[0])
    requires note != [] && ')' !in note
    requires p == " " + date + " " && q == note + ")"
    ensures MatchExpiryAround(p, q) == Some((date, note))
  {
    assert FindChar(q, ')') == |note| by {
      assert q == note + ")" + [];
      FindCharAt(note, ')', []);
    }
    assert SpaceRun(p) == 1 by {
      assert p == " " + (date + " ");
      SpaceRunStops(" ", date + " ");
    }
    assert p[1..|p| - 1] == date;
    assert q[..|note|] == note;
  }

  /** The note "VALID: <digits> days" yields those digits. */
  lemma ValidDaysOfPrinted(ds: string)
    requires ds != [] && AllDigits(ds)
    ensures MatchValidDays("VALID: " + ds + " days") == Some(ds)
  {
    var t := "VALID: " + ds + " days";
    assert t == "VALID:" + (" " + (ds + (" " + ("days" + ""))));
    ValidDaysMatchComplete(t, "VALID:", " ", ds, " ", "days", "");
    assert t[0..] == t;
  }
}
