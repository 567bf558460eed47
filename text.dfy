/** Character classes and the small string operations of the converter: .NET's `\s`,
    invariant-culture case-insensitive comparison, `Regex.Replace(s, @"\s+", " ")`,
    `String.Split(' ')`, `Trim`, `Replace` and decimal rendering of integers. */
module Text {

  /** The characters .NET's `\s` class matches, restricted to ASCII. */
  predicate IsSpace(c: char) {
    c == ' ' || c == '\t' || c == '\n' || c == '\r' || c == '\U{000B}' || c == '\U{000C}'
  }

  /** The `[ \t]` class. */
  predicate IsBlank(c: char) {
    c == ' ' || c == '\t'
  }

  /** The case-insensitive number class `[-\d\.\+E]` of the vector and axis patterns. */
  predicate IsNumberChar(c: char) {
    c == '-' || ('0' <= c <= '9') || c == '.' || c == '+' || c == 'E' || c == 'e'
  }

  predicate IsQuote(c: char) {
    c == '"'
  }

  predicate NotQuote(c: char) {
    c != '"'
  }

  predicate NotSeparator(c: char) {
    c != ' '
  }

  predicate IsBracket(c: char) {
    c == '[' || c == ']'
  }

  predicate NoSpaces(s: string) {
    forall i :: 0 <= i < |s| ==> !IsSpace(s[i])
  }

  /** A non-empty run of number characters, as one group of the number patterns captures. */
  predicate IsNumberToken(s: string) {
    |s| > 0 && forall i :: 0 <= i < |s| ==> IsNumberChar(s[i])
  }

  /** Case folding of the invariant culture, restricted to ASCII letters. */
  function LowerChar(c: char): char {
    if 'A' <= c <= 'Z' then (c as int + 32) as char else c
  }

  function Lower(s: string): (r: string)
    ensures |r| == |s|
  {
    seq(|s|, i requires 0 <= i < |s| => LowerChar(s[i]))
  }

  lemma LowerIdempotent(s: string)
    ensures Lower(Lower(s)) == Lower(s)
  {
  }

  lemma LowerPrefix(s: string, n: nat)
    requires n <= |s|
    ensures Lower(s[..n]) == Lower(s)[..n]
  {
  }

  predicate EqualsIgnoreCase(a: string, b: string) {
    Lower(a) == Lower(b)
  }

  /** `s.StartsWith(prefix, StringComparison.InvariantCultureIgnoreCase)`. */
  predicate StartsWithIgnoreCase(s: string, prefix: string) {
    |prefix| <= |s| && Lower(s[..|prefix|]) == Lower(prefix)
  }

  /** `s.EndsWith(suffix, StringComparison.InvariantCultureIgnoreCase)`. */
  predicate EndsWithIgnoreCase(s: string, suffix: string) {
    |suffix| <= |s| && Lower(s[|s| - |suffix|..]) == Lower(suffix)
  }

  /** Length of the longest prefix of `s` whose characters all satisfy `p`: the span a
      greedy `[class]*` consumes. */
  function Span(s: string, p: char -> bool): (n: nat)
    ensures n <= |s|
    ensures n < |s| ==> !p(s[n])
  {
    SpanFrom(s, 0, p)
  }

  /** End of the run of characters in class `p` that starts at index `i`. */
  function SpanFrom(s: string, i: nat, p: char -> bool): (n: nat)
    requires i <= |s|
    ensures i <= n <= |s|
    ensures n < |s| ==> !p(s[n])
    decreases |s| - i
  {
    if i == |s| || !p(s[i]) then i else SpanFrom(s, i + 1, p)
  }

  lemma {:induction false} SpanFromPrefix(s: string, i: nat, p: char -> bool)
    requires i <= |s|
    ensures forall k :: i <= k < SpanFrom(s, i, p) ==> p(s[k])
    decreases |s| - i
  {
    if i < |s| && p(s[i]) {
      SpanFromPrefix(s, i + 1, p);
    }
  }

  /** Every character of the leading run satisfies `p`. */
  lemma SpanPrefix(s: string, p: char -> bool)
    ensures forall i :: 0 <= i < Span(s, p) ==> p(s[i])
  {
    SpanFromPrefix(s, 0, p);
  }

  lemma {:induction false} SpanFromConcat(t: string, u: string, p: char -> bool, i: nat)
    requires i <= |t|
    requires forall k :: 0 <= k < |t| ==> p(t[k])
    requires u == [] || !p(u[0])
    ensures SpanFrom(t + u, i, p) == |t|
    decreases |t| - i
  {
    if i < |t| {
      assert (t + u)[i] == t[i];
      SpanFromConcat(t, u, p, i + 1);
    } else if u != [] {
      assert (t + u)[i] == u[0];
    }
  }

  /** The leading run of `t + u` is exactly `t` when every character of `t` is in the class
      and `u` does not start with one. */
  lemma SpanOfConcat(t: string, u: string, p: char -> bool)
    requires forall i :: 0 <= i < |t| ==> p(t[i])
    requires u == [] || !p(u[0])
    ensures Span(t + u, p) == |t|
  {
    SpanFromConcat(t, u, p, 0);
  }

  /** `Regex.Replace(s, @"\s+", " ")`: every maximal whitespace run becomes one space. */
  function CollapseSpaces(s: string): (r: string)
    ensures s != [] ==> r != [] && r[0] == (if IsSpace(s[0]) then ' ' else s[0])
    decreases |s|
  {
    if s == [] then []
    else if IsSpace(s[0]) then
      var n := Span(s, IsSpace);
      " " + CollapseSpaces(s[n..])
    else [s[0]] + CollapseSpaces(s[1..])
  }

  /** The only whitespace character left is the plain space. */
  lemma {:induction false} CollapseSpacesOnlySpace(s: string)
    ensures forall i :: 0 <= i < |CollapseSpaces(s)| && IsSpace(CollapseSpaces(s)[i]) ==> CollapseSpaces(s)[i] == ' '
    decreases |s|
  {
    if s != [] {
      if IsSpace(s[0]) {
        var n := Span(s, IsSpace);
        CollapseSpacesOnlySpace(s[n..]);
        assert CollapseSpaces(s) == " " + CollapseSpaces(s[n..]);
      } else {
        CollapseSpacesOnlySpace(s[1..]);
        assert CollapseSpaces(s) == [s[0]] + CollapseSpaces(s[1..]);
      }
    }
  }

  /** No two whitespace characters are left side by side. */
  lemma {:induction false} CollapseLeavesSingleSpaces(s: string)
    ensures forall i :: 0 <= i < |CollapseSpaces(s)| - 1 && IsSpace(CollapseSpaces(s)[i]) ==> !IsSpace(CollapseSpaces(s)[i + 1])
    decreases |s|
  {
    if s != [] {
      if IsSpace(s[0]) {
        var n := Span(s, IsSpace);
        CollapseLeavesSingleSpaces(s[n..]);
        assert n == |s| || !IsSpace(s[n..][0]);
      } else {
        CollapseLeavesSingleSpaces(s[1..]);
      }
    }
  }

  /** A prefix without whitespace is kept as it is. */
  lemma {:induction false} CollapseAfterToken(t: string, u: string)
    requires NoSpaces(t)
    ensures CollapseSpaces(t + u) == t + CollapseSpaces(u)
  {
    if t == [] {
      assert t + u == u;
    } else {
      assert (t + u)[1..] == t[1..] + u;
      assert !IsSpace((t + u)[0]);
      CollapseAfterToken(t[1..], u);
      assert t == [t[0]] + t[1..];
    }
  }

  /** The characters of `s` that are not whitespace, in order. */
  function NonSpace(s: string): (r: string)
    ensures |r| <= |s|
    ensures forall i :: 0 <= i < |r| ==> !IsSpace(r[i])
    decreases |s|
  {
    if s == [] then [] else if IsSpace(s[0]) then NonSpace(s[1..]) else [s[0]] + NonSpace(s[1..])
  }

  /** A leading run of whitespace holds no character `NonSpace` keeps. */
  lemma {:induction false} NonSpaceSkipsSpaces(s: string, n: nat)
    requires n <= |s| && forall i :: 0 <= i < n ==> IsSpace(s[i])
    ensures NonSpace(s) == NonSpace(s[n..])
    decreases n
  {
    if n > 0 {
      NonSpaceSkipsSpaces(s[1..], n - 1);
      assert s[1..][n - 1..] == s[n..];
    }
  }

  /** Collapsing keeps every non-whitespace character, in order, and adds none. */
  lemma {:induction false} CollapseKeepsNonSpace(s: string)
    ensures NonSpace(CollapseSpaces(s)) == NonSpace(s)
    decreases |s|
  {
    if s != [] {
      if IsSpace(s[0]) {
        var n := Span(s, IsSpace);
        SpanPrefix(s, IsSpace);
        NonSpaceSkipsSpaces(s, n);
        CollapseKeepsNonSpace(s[n..]);
        var r := CollapseSpaces(s);
        assert r == " " + CollapseSpaces(s[n..]);
        assert r[1..] == CollapseSpaces(s[n..]);
      } else {
        CollapseKeepsNonSpace(s[1..]);
        var r := CollapseSpaces(s);
        assert r[1..] == CollapseSpaces(s[1..]);
      }
    }
  }

  /** A maximal whitespace run `w` becomes exactly one space. */
  lemma CollapseRun(w: string, u: string)
    requires w != [] && forall i :: 0 <= i < |w| ==> IsSpace(w[i])
    requires u == [] || !IsSpace(u[0])
    ensures CollapseSpaces(w + u) == " " + CollapseSpaces(u)
  {
    SpanOfConcat(w, u, IsSpace);
    assert (w + u)[0] == w[0];
    assert (w + u)[|w|..] == u;
  }

  /** `String.Split(' ')`: the pieces between single spaces, empty pieces included. */
  function SplitOnSpace(s: string): (parts: seq<string>)
    ensures |parts| >= 1
    decreases |s|
  {
    var n := Span(s, NotSeparator);
    if n == |s| then [s] else [s[..n]] + SplitOnSpace(s[n + 1..])
  }

  /** The pieces hold no space, and joining them with single spaces gives back `s`. */
  lemma {:induction false} SplitOnSpaceMeaning(s: string)
    ensures var parts := SplitOnSpace(s); forall i :: 0 <= i < |parts| ==> ' ' !in parts[i]
    ensures Join(SplitOnSpace(s)) == s
    decreases |s|
  {
    var n := Span(s, NotSeparator);
    SpanPrefix(s, NotSeparator);
    if n == |s| {
      assert s[..n] == s;
    } else {
      SplitOnSpaceMeaning(s[n + 1..]);
      var parts, rest := SplitOnSpace(s), SplitOnSpace(s[n + 1..]);
      assert parts == [s[..n]] + rest;
      assert parts[1..] == rest;
      assert forall i :: 1 <= i < |parts| ==> parts[i] == rest[i - 1];
      assert s == s[..n] + " " + s[n + 1..];
    }
  }

  /** The inverse of `SplitOnSpace`: `String.Join(" ", parts)`. */
  function Join(parts: seq<string>): string
    requires |parts| >= 1
  {
    if |parts| == 1 then parts[0] else parts[0] + " " + Join(parts[1..])
  }

  lemma SplitAfterPiece(t: string, u: string)
    requires ' ' !in t
    ensures SplitOnSpace(t + " " + u) == [t] + SplitOnSpace(u)
  {
    var s := t + " " + u;
    SpanOfConcat(t, " " + u, NotSeparator);
    assert s == t + (" " + u);
    assert s[|t| + 1..] == u;
    assert s[..|t|] == t;
  }

  lemma SplitWholePiece(t: string)
    requires ' ' !in t
    ensures SplitOnSpace(t) == [t]
  {
    SpanOfConcat(t, [], NotSeparator);
    assert t + [] == t;
  }

  /** Removing the leading characters in class `p` (`TrimStart`). */
  function TrimStart(s: string, p: char -> bool): string {
    s[Span(s, p)..]
  }

  /** What is left is a suffix of `s` that does not start in class `p`, and everything cut
      off is in class `p`. */
  lemma TrimStartMeaning(s: string, p: char -> bool)
    ensures var r := TrimStart(s, p); r == [] || !p(r[0])
    ensures var r := TrimStart(s, p); |r| <= |s| && r == s[|s| - |r|..]
    ensures var r := TrimStart(s, p); forall i :: 0 <= i < |s| - |r| ==> p(s[i])
  {
    SpanPrefix(s, p);
  }

  /** Removing the trailing characters in class `p` (`TrimEnd`). */
  function TrimEnd(s: string, p: char -> bool): string {
    if s == [] then []
    else if p(s[|s| - 1]) then TrimEnd(s[..|s| - 1], p)
    else s
  }

  /** What is left is a prefix of `s` that does not end in class `p`, and everything cut
      off is in class `p`. */
  lemma {:induction false} TrimEndMeaning(s: string, p: char -> bool)
    ensures var r := TrimEnd(s, p); r == [] || !p(r[|r| - 1])
    ensures var r := TrimEnd(s, p); |r| <= |s| && r == s[..|r|]
    ensures var r := TrimEnd(s, p); forall i :: |r| <= i < |s| ==> p(s[i])
  {
    if s != [] && p(s[|s| - 1]) {
      TrimEndMeaning(s[..|s| - 1], p);
      var r := TrimEnd(s, p);
      assert r == TrimEnd(s[..|s| - 1], p);
      assert s[..|s| - 1][..|r|] == s[..|r|];
    }
  }

  /** `String.Trim()` and `String.Trim(chars)`: both ends. */
  function Trim(s: string, p: char -> bool): string {
    TrimEnd(TrimStart(s, p), p)
  }

  /** `s.Replace(c.ToString(), t)` for a one-character search string. */
  function ReplaceChar(s: string, c: char, t: string): (r: string)
    ensures c !in t ==> c !in r
  {
    if s == [] then []
    else (if s[0] == c then t else [s[0]]) + ReplaceChar(s[1..], c, t)
  }

  lemma {:induction false} ReplaceCharConcat(a: string, b: string, c: char, t: string)
    ensures ReplaceChar(a + b, c, t) == ReplaceChar(a, c, t) + ReplaceChar(b, c, t)
  {
    if a != [] {
      assert (a + b)[1..] == a[1..] + b;
      ReplaceCharConcat(a[1..], b, c, t);
    } else {
      assert a + b == b;
    }
  }

  /** `plane.Replace("(", "( ").Replace(")", " )")`: the raw plane echo. */
  function PadParens(plane: string): string {
    ReplaceChar(ReplaceChar(plane, '(', "( "), ')', " )")
  }

  /** The padding of one character. */
  function PadChar(c: char): string {
    if c == '(' then "( " else if c == ')' then " )" else [c]
  }

  /** Reference definition: pad every parenthesis in a single pass. */
  function PadEach(s: string): string {
    if s == [] then [] else PadChar(s[0]) + PadEach(s[1..])
  }

  /** The two chained replacements act like one pass that pads each parenthesis, so
      the second replacement never touches a parenthesis the first one inserted. */
  lemma {:induction false} PadParensIsPadEach(s: string)
    ensures PadParens(s) == PadEach(s)
  {
    if s != [] {
      var head := if s[0] == '(' then "( " else [s[0]];
      assert ReplaceChar(s, '(', "( ") == head + ReplaceChar(s[1..], '(', "( ");
      ReplaceCharConcat(head, ReplaceChar(s[1..], '(', "( "), ')', " )");
      PadParensIsPadEach(s[1..]);
      if s[0] == '(' {
        assert ReplaceChar(head, ')', " )") == "( " by {
          assert head[1..] == " ";
          assert head[1..][1..] == [];
        }
      } else if s[0] == ')' {
        assert ReplaceChar(head, ')', " )") == " )" by {
          assert head[1..] == [];
        }
      } else {
        assert ReplaceChar(head, ')', " )") == [s[0]] by {
          assert head[1..] == [];
        }
      }
    }
  }

  function DigitChar(d: nat): char
    requires d < 10
  {
    ('0' as int + d) as char
  }

  predicate IsDigit(c: char) {
    '0' <= c <= '9'
  }

  /** Decimal rendering of a non-negative integer, as C# string interpolation writes it. */
  function NatToString(n: nat): (r: string)
    ensures |r| >= 1
    ensures forall i :: 0 <= i < |r| ==> IsDigit(r[i])
    ensures n >= 10 ==> |r| >= 2
  {
    if n < 10 then [DigitChar(n)] else NatToString(n / 10) + [DigitChar(n % 10)]
  }

  /** The value of a string of decimal digits: the inverse of `NatToString`. */
  function DecimalValue(s: string): nat
    requires forall i :: 0 <= i < |s| ==> IsDigit(s[i])
  {
    if s == [] then 0
    else
      assert IsDigit(s[|s| - 1]);
      10 * DecimalValue(s[..|s| - 1]) + (s[|s| - 1] as int - '0' as int)
  }

  lemma {:induction false} DecimalRoundTrip(n: nat)
    ensures DecimalValue(NatToString(n)) == n
  {
    var r := NatToString(n);
    if n >= 10 {
      DecimalRoundTrip(n / 10);
      assert r[..|r| - 1] == NatToString(n / 10);
    }
  }

  lemma NatToStringInjective(a: nat, b: nat)
    requires NatToString(a) == NatToString(b)
    ensures a == b
  {
    DecimalRoundTrip(a);
    DecimalRoundTrip(b);
  }
}
