/** Number-tuple parsing: `parseVector3`, `parseVector3Array`, `parseDoubleArray` and the
    uv-axis pattern. The number parsers themselves (`float.TryParse`, `float.Parse`,
    `double.Parse`) are parameters: partial functions from a token to a number. */
module Vectors {
  import opened Wrappers
  import opened Text

  datatype Vec3<N> = Vec3(x: N, y: N, z: N)

  /** A texture axis: direction, translation (the fourth bracketed number) and scale. */
  datatype Axis<N> = Axis(dir: Vec3<N>, shift: N, scale: N)

  /** The tokens `parseVector3` and `parseDoubleArray` look at: whitespace runs collapsed to
      one space, then split on single spaces. */
  function Components(s: string): seq<string> {
    SplitOnSpace(CollapseSpaces(s))
  }

  /** A token as the number patterns and the space splitter see it: non-empty, no space. */
  predicate IsToken(t: string) {
    |t| > 0 && NoSpaces(t)
  }

  predicate AllTokens(ts: seq<string>) {
    forall i :: 0 <= i < |ts| ==> IsToken(ts[i])
  }

  lemma {:induction false} CollapseOfJoin(ts: seq<string>)
    requires |ts| >= 1 && AllTokens(ts)
    ensures CollapseSpaces(Join(ts)) == Join(ts)
    ensures !IsSpace(Join(ts)[0])
  {
    if |ts| == 1 {
      CollapseAfterToken(ts[0], []);
      assert ts[0] + [] == ts[0];
    } else {
      var rest := Join(ts[1..]);
      CollapseOfJoin(ts[1..]);
      assert Join(ts) == ts[0] + (" " + rest);
      CollapseAfterToken(ts[0], " " + rest);
      SpanOfConcat(" ", rest, IsSpace);
      assert (" " + rest)[1..] == rest;
    }
  }

  lemma {:induction false} SplitOfJoin(ts: seq<string>)
    requires |ts| >= 1 && AllTokens(ts)
    ensures SplitOnSpace(Join(ts)) == ts
  {
    assert ' ' !in ts[0];
    if |ts| == 1 {
      SplitWholePiece(ts[0]);
    } else {
      SplitOfJoin(ts[1..]);
      SplitAfterPiece(ts[0], Join(ts[1..]));
    }
  }

  /** Splitting undoes joining: tokens separated by single spaces come back unchanged. */
  lemma ComponentsOfJoin(ts: seq<string>)
    requires |ts| >= 1 && AllTokens(ts)
    ensures Components(Join(ts)) == ts
  {
    CollapseOfJoin(ts);
    SplitOfJoin(ts);
  }

  /** `parseVector3`: fewer than three pieces, or a failure among the first three, gives
      `null`; otherwise the first three parsed numbers. */
  function ParseVector3<N>(s: string, parse: string -> Option<N>): Option<Vec3<N>> {
    var parts := Components(s);
    if |parts| < 3 then None
    else
      match (parse(parts[0]), parse(parts[1]), parse(parts[2]))
      case (Some(x), Some(y), Some(z)) => Some(Vec3(x, y, z))
      case _ => None
  }

  /** On space-separated tokens, `parseVector3` needs at least three of them, parses exactly
      the first three and ignores the rest. */
  lemma ParseVector3OfTokens<N>(ts: seq<string>, parse: string -> Option<N>)
    requires |ts| >= 1 && AllTokens(ts)
    ensures |ts| < 3 ==> ParseVector3(Join(ts), parse) == None
    ensures |ts| >= 3 ==>
      (ParseVector3(Join(ts), parse) ==
        if parse(ts[0]).Some? && parse(ts[1]).Some? && parse(ts[2]).Some?
        then Some(Vec3(parse(ts[0]).value, parse(ts[1]).value, parse(ts[2]).value))
        else None)
  {
    ComponentsOfJoin(ts);
  }

  /** Leading whitespace becomes an empty first piece, which no number parser accepts, so
      `parseVector3` rejects a string such as " 1 2 3". */
  lemma LeadingSpaceRejected<N>(s: string, parse: string -> Option<N>)
    requires s != [] && IsSpace(s[0])
    requires parse("") == None
    ensures ParseVector3(s, parse) == None
  {
    var c := CollapseSpaces(s);
    assert c[0] == ' ';
    assert Span(c, NotSeparator) == 0;
    assert Components(s)[0] == c[..0] == "";
  }

  // ---------------------------------------------------------------------------
  // parseVector3Array: the pattern ([-\d\.\+E]+)\s+([-\d\.\+E]+)\s+([-\d\.\+E]+)
  // ---------------------------------------------------------------------------

  /** A number run followed by whitespace, both maximal: the length consumed, or 0 when
      either is empty. */
  function TokenGap(s: string): (r: nat)
    ensures r == 0 || 1 < r <= |s|
  {
    var e := Span(s, IsNumberChar);
    var g := Span(s[e..], IsSpace);
    if e > 0 && g > 0 then e + g else 0
  }

  /** Length of a match starting at the first character of `s`, or 0 when none starts there
      (a match is never empty). Every group and gap is maximal: a shorter group would leave
      a number character where the pattern needs whitespace, so backtracking finds no other
      split. */
  function TripleLen(s: string): (r: nat)
    ensures r <= |s|
  {
    var g1 := TokenGap(s);
    var rest := s[g1..];
    var g2 := TokenGap(rest);
    var e3 := Span(rest[g2..], IsNumberChar);
    if g1 > 0 && g2 > 0 && e3 > 0 then g1 + g2 + e3 else 0
  }

  /** `Regex.Matches`: the matched texts, leftmost first, each search resuming where the
      previous match ended. */
  function NumberTriples(s: string): seq<string>
    decreases |s|
  {
    if s == [] then []
    else
      var n := TripleLen(s);
      if n > 0 then [s[..n]] + NumberTriples(s[n..]) else NumberTriples(s[1..])
  }

  /** The vectors of the matches that `parseVector3` accepts, in match order. */
  function KeepParsed<N>(texts: seq<string>, parse: string -> Option<N>): (vs: seq<Vec3<N>>)
    ensures |vs| <= |texts|
  {
    if texts == [] then []
    else
      var n := |texts| - 1;
      KeepParsed(texts[..n], parse) + (match ParseVector3(texts[n], parse) case Some(v) => [v] case None => [])
  }

  function Vector3s<N>(s: string, parse: string -> Option<N>): seq<Vec3<N>> {
    KeepParsed(NumberTriples(s), parse)
  }

  /** `parseVector3Array`: one vector per match, skipping matches `parseVector3` rejects. */
  method ParseVector3Array<N>(s: string, parse: string -> Option<N>) returns (vs: seq<Vec3<N>>)
    ensures vs == Vector3s(s, parse)
    ensures |vs| <= |NumberTriples(s)|
  {
    var matches := NumberTriples(s);
    vs := [];
    for i := 0 to |matches|
      invariant vs == KeepParsed(matches[..i], parse)
    {
      var vector := ParseVector3(matches[i], parse);
      assert matches[..i + 1][..i] == matches[..i];
      if vector.Some? {
        vs := vs + [vector.value];
      }
    }
    assert matches[..|matches|] == matches;
  }

  lemma {:induction false} TriplesSkipNonNumbers(j: string, u: string)
    requires forall i :: 0 <= i < |j| ==> !IsNumberChar(j[i])
    ensures NumberTriples(j + u) == NumberTriples(u)
  {
    if j == [] {
      assert j + u == u;
    } else {
      assert Span(j + u, IsNumberChar) == 0;
      assert (j + u)[1..] == j[1..] + u;
      TriplesSkipNonNumbers(j[1..], u);
    }
  }

  lemma {:induction false} TriplesTakeMatch(t: string, u: string)
    requires TripleLen(t + u) == |t| > 0
    ensures NumberTriples(t + u) == [t] + NumberTriples(u)
  {
    assert (t + u)[..|t|] == t;
    assert (t + u)[|t|..] == u;
  }

  lemma {:induction false} TokenGapOf(t: string, r: string)
    requires IsNumberToken(t)
    requires r == [] || IsNumberChar(r[0])
    ensures TokenGap(t + " " + r) == |t| + 1
    ensures (t + " " + r)[|t| + 1..] == r
    ensures Span(t + " " + r, IsNumberChar) == |t| && (t + " " + r)[..|t|] == t
  {
    var s := t + " " + r;
    assert s == t + (" " + r);
    SpanOfConcat(t, " " + r, IsNumberChar);
    assert s[|t|..] == " " + r;
    SpanOfConcat(" ", r, IsSpace);
  }

  lemma JoinThree(p: seq<string>)
    requires |p| == 3
    ensures Join(p) == p[0] + " " + p[1] + " " + p[2]
  {
    assert p[1..][1..] == [p[2]];
    assert Join(p[1..][1..]) == p[2];
    assert Join(p[1..]) == p[1] + " " + p[2];
  }

  lemma JoinThreeThen(p: seq<string>, u: string)
    requires |p| == 3
    ensures Join(p) + u == p[0] + " " + (p[1] + " " + (p[2] + u))
    ensures |Join(p)| == |p[0]| + 1 + |p[1]| + 1 + |p[2]|
  {
    JoinThree(p);
  }

  /** `TripleLen` from its three steps: a number run and gap, another, a final number run. */
  lemma {:induction false} TripleLenOfSteps(s: string, g1: nat, rest: string, g2: nat, last: string, e3: nat)
    requires TokenGap(s) == g1 > 0 && s[g1..] == rest
    requires TokenGap(rest) == g2 > 0 && rest[g2..] == last
    requires Span(last, IsNumberChar) == e3 > 0
    ensures TripleLen(s) == g1 + g2 + e3
  {
  }

  /** Three number tokens separated by single spaces form one whole match, provided no
      number character follows. */
  lemma {:induction false} TripleLenOfParts(a: string, b: string, c: string, u: string)
    requires IsNumberToken(a) && IsNumberToken(b) && IsNumberToken(c)
    requires u == [] || !IsNumberChar(u[0])
    ensures TripleLen(a + " " + (b + " " + (c + u))) == |a| + 1 + |b| + 1 + |c|
  {
    var r3 := c + u;
    var r2 := b + " " + r3;
    TokenGapOf(a, r2);
    TokenGapOf(b, r3);
    SpanOfConcat(c, u, IsNumberChar);
    TripleLenOfSteps(a + " " + r2, |a| + 1, r2, |b| + 1, r3, |c|);
  }

  lemma {:induction false} TripleLenOfTokens(p: seq<string>, u: string)
    requires |p| == 3 && IsNumberToken(p[0]) && IsNumberToken(p[1]) && IsNumberToken(p[2])
    requires u == [] || !IsNumberChar(u[0])
    ensures TripleLen(Join(p) + u) == |Join(p)|
  {
    JoinThreeThen(p, u);
    TripleLenOfParts(p[0], p[1], p[2], u);
  }

  /** Skipping a separator and taking one whole match. */
  lemma {:induction false} TriplesStep(j: string, p: seq<string>, rest: string)
    requires forall i :: 0 <= i < |j| ==> !IsNumberChar(j[i])
    requires |p| == 3 && IsNumberToken(p[0]) && IsNumberToken(p[1]) && IsNumberToken(p[2])
    requires rest == [] || !IsNumberChar(rest[0])
    ensures NumberTriples(j + (Join(p) + rest)) == [Join(p)] + NumberTriples(rest)
  {
    TriplesSkipNonNumbers(j, Join(p) + rest);
    TripleLenOfTokens(p, rest);
    TriplesTakeMatch(Join(p), rest);
  }

  lemma PlaneText(j0: string, j1: string, j2: string)
    ensures "(" + j0 + ") (" + j1 + ") (" + j2 + ")"
         == "(" + (j0 + (") (" + (j1 + (") (" + (j2 + ")")))))
  {
  }

  /** The plane property as the level editor writes it, `(x y z) (x y z) (x y z)`, yields its
      three points in order: this is the common case in which a face line is rebuilt from
      parsed points instead of being echoed raw. */
  lemma {:induction false} PlaneTriples(p0: seq<string>, p1: seq<string>, p2: seq<string>)
    requires |p0| == 3 && |p1| == 3 && |p2| == 3
    requires forall i :: 0 <= i < 3 ==> IsNumberToken(p0[i]) && IsNumberToken(p1[i]) && IsNumberToken(p2[i])
    ensures NumberTriples("(" + Join(p0) + ") (" + Join(p1) + ") (" + Join(p2) + ")")
         == [Join(p0), Join(p1), Join(p2)]
  {
    var j0, j1, j2 := Join(p0), Join(p1), Join(p2);
    PlaneText(j0, j1, j2);
    var s3 := ")";
    var s2 := ") (" + (j2 + s3);
    var s1 := ") (" + (j1 + s2);
    var s0 := "(" + (j0 + s1);
    TriplesStep(") (", p2, s3);
    TriplesSkipNonNumbers(s3, []);
    assert s3 + [] == s3;
    TriplesStep(") (", p1, s2);
    TriplesStep("(", p0, s1);
    ChainThree(s0, s1, s2, s3, j0, j1, j2);
  }

  lemma {:induction false} ChainThree(s0: string, s1: string, s2: string, s3: string, j0: string, j1: string, j2: string)
    requires NumberTriples(s0) == [j0] + NumberTriples(s1)
    requires NumberTriples(s1) == [j1] + NumberTriples(s2)
    requires NumberTriples(s2) == [j2] + NumberTriples(s3)
    requires NumberTriples(s3) == []
    ensures NumberTriples(s0) == [j0, j1, j2]
  {
  }

  /** Number tokens contain no whitespace. */
  lemma NumberTokensAreTokens(ts: seq<string>)
    requires forall i :: 0 <= i < |ts| ==> IsNumberToken(ts[i])
    ensures AllTokens(ts)
  {
    forall i, k | 0 <= i < |ts| && 0 <= k < |ts[i]| ensures !IsSpace(ts[i][k]) {
      assert IsNumberChar(ts[i][k]);
    }
  }

  /** The point whose three coordinates are the parsed tokens `p`. */
  function PointOf<N>(p: seq<string>, parse: string -> Option<N>): Vec3<N>
    requires |p| == 3 && forall i :: 0 <= i < 3 ==> parse(p[i]).Some?
  {
    Vec3(parse(p[0]).value, parse(p[1]).value, parse(p[2]).value)
  }

  /** Three number tokens that all parse make the vector of their values. */
  lemma {:induction false} TokensVector<N>(p: seq<string>, parse: string -> Option<N>)
    requires |p| == 3 && forall i :: 0 <= i < 3 ==> IsNumberToken(p[i]) && parse(p[i]).Some?
    ensures ParseVector3(Join(p), parse) == Some(PointOf(p, parse))
  {
    NumberTokensAreTokens(p);
    ParseVector3OfTokens(p, parse);
  }

  /** Three matches that all parse are all kept, in order. */
  lemma {:induction false} KeepThree<N>(t0: string, t1: string, t2: string, parse: string -> Option<N>)
    requires ParseVector3(t0, parse).Some? && ParseVector3(t1, parse).Some? && ParseVector3(t2, parse).Some?
    ensures KeepParsed([t0, t1, t2], parse)
         == [ParseVector3(t0, parse).value, ParseVector3(t1, parse).value, ParseVector3(t2, parse).value]
  {
    var v0, v1, v2 := ParseVector3(t0, parse).value, ParseVector3(t1, parse).value, ParseVector3(t2, parse).value;
    assert [t0][..0] == [];
    assert KeepParsed([t0], parse) == [v0];
    assert [t0, t1][..1] == [t0];
    assert KeepParsed([t0, t1], parse) == [v0, v1];
    assert [t0, t1, t2][..2] == [t0, t1];
  }

  /** For a well-formed plane whose coordinates all parse, `parseVector3Array` yields
      exactly three vectors: the three points in the order written. */
  lemma {:induction false} PlaneVectors<N>(p0: seq<string>, p1: seq<string>, p2: seq<string>, parse: string -> Option<N>)
    requires |p0| == 3 && |p1| == 3 && |p2| == 3
    requires forall i :: 0 <= i < 3 ==> IsNumberToken(p0[i]) && IsNumberToken(p1[i]) && IsNumberToken(p2[i])
    requires forall i :: 0 <= i < 3 ==> parse(p0[i]).Some? && parse(p1[i]).Some? && parse(p2[i]).Some?
    ensures Vector3s("(" + Join(p0) + ") (" + Join(p1) + ") (" + Join(p2) + ")", parse) ==
      [PointOf(p0, parse), PointOf(p1, parse), PointOf(p2, parse)]
  {
    PlaneTriples(p0, p1, p2);
    TokensVector(p0, parse);
    TokensVector(p1, parse);
    TokensVector(p2, parse);
    KeepThree(Join(p0), Join(p1), Join(p2), parse);
  }

  // ---------------------------------------------------------------------------
  // parseDoubleArray
  // ---------------------------------------------------------------------------

  /** Every piece parsed, or failure as soon as one piece does not parse. */
  function ParseAll<N>(parts: seq<string>, parse: string -> Option<N>): Option<seq<N>> {
    if parts == [] then Some([])
    else
      match parse(parts[0])
      case None => None
      case Some(x) =>
        match ParseAll(parts[1..], parse)
        case None => None
        case Some(xs) => Some([x] + xs)
  }

  /** `ParseAll` succeeds exactly when every piece parses, and then holds each piece's
      number in order. */
  lemma {:induction false} ParseAllMeaning<N>(parts: seq<string>, parse: string -> Option<N>)
    ensures ParseAll(parts, parse).Some? <==> forall i :: 0 <= i < |parts| ==> parse(parts[i]).Some?
    ensures ParseAll(parts, parse).Some? ==>
      |ParseAll(parts, parse).value| == |parts| &&
      forall i :: 0 <= i < |parts| ==> ParseAll(parts, parse).value[i] == parse(parts[i]).value
  {
    if parts != [] {
      ParseAllMeaning(parts[1..], parse);
    }
  }

  /** `parseDoubleArray`: every piece of the collapsed, split row goes through
      `double.Parse`, whose `FormatException` on a bad piece becomes `None`. The source's
      `components.Length < 1` branch is unreachable because splitting always yields at
      least one piece, so that `null` result never happens. */
  method ParseDoubleArray<N>(s: string, parse: string -> Option<N>) returns (r: Option<seq<N>>)
    ensures r == ParseAll(Components(s), parse)
    ensures r.Some? ==> |r.value| == |Components(s)| >= 1
  {
    var components := Components(s);
    var values: seq<N> := [];
    for i := 0 to |components|
      invariant |values| == i
      invariant forall j :: 0 <= j < i ==> parse(components[j]) == Some(values[j])
    {
      var v := parse(components[i]);
      if v.None? {
        ParseAllMeaning(components, parse);
        return None;
      }
      values := values + [v.value];
    }
    ParseAllMeaning(components, parse);
    var expected := ParseAll(components, parse);
    assert expected.Some?;
    assert expected.value == values;
    return Some(values);
  }

  // ---------------------------------------------------------------------------
  // The uv-axis pattern \s*\[\s*(C+)\s+(C+)\s+(C+)\s+(C+)\s*\]\s*(C+)\s*
  // ---------------------------------------------------------------------------

  /** The five captured groups of an axis match. */
  datatype AxisText = AxisText(x: string, y: string, z: string, shift: string, scale: string)

  /** A match beginning at the `[` that starts `s`; every group and gap is maximal, as the
      number class excludes both whitespace and `]`. The first three groups are each a
      number run and the whitespace after it (`TokenGap`). */
  function AxisAt(s: string): Option<AxisText> {
    if s == [] || s[0] != '[' then None
    else
      var r1 := s[1..][Span(s[1..], IsSpace)..];
      var g1 := TokenGap(r1);
      var r2 := r1[g1..];
      var g2 := TokenGap(r2);
      var r3 := r2[g2..];
      var g3 := TokenGap(r3);
      var tail := AxisTail(r3[g3..]);
      if g1 > 0 && g2 > 0 && g3 > 0 && tail.Some? then
        Some(AxisText(r1[..Span(r1, IsNumberChar)], r2[..Span(r2, IsNumberChar)],
                      r3[..Span(r3, IsNumberChar)], tail.value.0, tail.value.1))
      else None
  }

  /** The rest of an axis match after the third gap, `(C+)\s*\]\s*(C+)`: the fourth and the
      fifth group. */
  function AxisTail(s: string): Option<(string, string)> {
    var n4 := Span(s, IsNumberChar);
    var r5 := s[n4..];
    var r6 := r5[Span(r5, IsSpace)..];
    if n4 > 0 && r6 != [] && r6[0] == ']' then
      var r7 := r6[1..];
      var r8 := r7[Span(r7, IsSpace)..];
      var n5 := Span(r8, IsNumberChar);
      if n5 > 0 then Some((s[..n4], r8[..n5])) else None
    else None
  }

  /** `uvaxisRegex.Match`: the leftmost match (leading whitespace moves only its start). */
  function FirstAxis(s: string): Option<AxisText>
    decreases |s|
  {
    if s == [] then None
    else if AxisAt(s).Some? then AxisAt(s)
    else FirstAxis(s[1..])
  }

  /** The five `float.Parse` calls on the groups; an unmatched axis leaves the groups empty
      and `float.Parse("")` throws, which is `None` here too. */
  function ParseAxis<N>(s: string, parse: string -> Option<N>): Option<Axis<N>> {
    var t :- FirstAxis(s);
    var x :- parse(t.x);
    var y :- parse(t.y);
    var z :- parse(t.z);
    var shift :- parse(t.shift);
    var scale :- parse(t.scale);
    Some(Axis(Vec3(x, y, z), shift, scale))
  }

  /** `AxisTail` from its steps: the fourth group, the gap and `]`, the gap, the fifth group. */
  lemma {:induction false} AxisTailOfSteps(s: string, n4: nat, r5: string, r6: string, r7: string, r8: string, n5: nat)
    requires Span(s, IsNumberChar) == n4 > 0 && s[n4..] == r5
    requires r5[Span(r5, IsSpace)..] == r6 && r6 != [] && r6[0] == ']' && r6[1..] == r7
    requires r7[Span(r7, IsSpace)..] == r8 && Span(r8, IsNumberChar) == n5 > 0
    ensures AxisTail(s) == Some((s[..n4], r8[..n5]))
  {
  }

  lemma {:induction false} AxisTailOf(shift: string, scale: string)
    requires IsNumberToken(shift) && IsNumberToken(scale)
    ensures AxisTail(shift + ("] " + scale)) == Some((shift, scale))
  {
    var r5 := "] " + scale;
    var s := shift + r5;
    SpanOfConcat(shift, r5, IsNumberChar);
    assert s[|shift|..] == r5 && s[..|shift|] == shift;
    SpanOfConcat([], r5, IsSpace);
    assert [] + r5 == r5;
    var r7 := " " + scale;
    assert r5[1..] == r7;
    SpanOfConcat(" ", scale, IsSpace);
    assert r7[1..] == scale;
    SpanOfConcat(scale, [], IsNumberChar);
    assert scale + [] == scale;
    assert scale[..|scale|] == scale;
    AxisTailOfSteps(s, |shift|, r5, r5, r7, scale, |scale|);
  }

  /** `AxisAt` from its steps: the opening bracket, three number-and-gap steps, the tail. */
  lemma {:induction false} AxisAtOfSteps(s: string, r1: string, r2: string, r3: string, r4: string,
                                         x: string, y: string, z: string, shift: string, scale: string)
    requires s != [] && s[0] == '[' && s[1..][Span(s[1..], IsSpace)..] == r1
    requires TokenGap(r1) > 0 && r1[TokenGap(r1)..] == r2 && r1[..Span(r1, IsNumberChar)] == x
    requires TokenGap(r2) > 0 && r2[TokenGap(r2)..] == r3 && r2[..Span(r2, IsNumberChar)] == y
    requires TokenGap(r3) > 0 && r3[TokenGap(r3)..] == r4 && r3[..Span(r3, IsNumberChar)] == z
    requires AxisTail(r4) == Some((shift, scale))
    ensures AxisAt(s) == Some(AxisText(x, y, z, shift, scale))
  {
  }

  /** The groups of an axis match written with single spaces. */
  lemma {:induction false} AxisAtOf(x: string, y: string, z: string, shift: string, scale: string)
    requires IsNumberToken(x) && IsNumberToken(y) && IsNumberToken(z)
    requires IsNumberToken(shift) && IsNumberToken(scale)
    ensures AxisAt("[" + (x + " " + (y + " " + (z + " " + (shift + ("] " + scale))))))
         == Some(AxisText(x, y, z, shift, scale))
  {
    var r4 := shift + ("] " + scale);
    var r3 := z + " " + r4;
    var r2 := y + " " + r3;
    var r1 := x + " " + r2;
    var s := "[" + r1;
    assert s[1..] == r1;
    assert r1[0] == x[0];
    SpanOfConcat([], r1, IsSpace);
    assert [] + r1 == r1;
    assert r2[0] == y[0];
    TokenGapOf(x, r2);
    assert r3[0] == z[0];
    TokenGapOf(y, r3);
    assert r4[0] == shift[0];
    TokenGapOf(z, r4);
    AxisTailOf(shift, scale);
    AxisAtOfSteps(s, r1, r2, r3, r4, x, y, z, shift, scale);
  }

  /** The level editor's form `[x y z shift] scale` is read group by group. */
  lemma {:induction false} AxisOfEditorForm(ts: seq<string>, scale: string)
    requires |ts| == 4 && IsNumberToken(scale)
    requires forall i :: 0 <= i < 4 ==> IsNumberToken(ts[i])
    ensures FirstAxis("[" + Join(ts) + "] " + scale) == Some(AxisText(ts[0], ts[1], ts[2], ts[3], scale))
  {
    JoinFour(ts);
    var t := "[" + (ts[0] + " " + (ts[1] + " " + (ts[2] + " " + (ts[3] + ("] " + scale)))));
    assert "[" + Join(ts) + "] " + scale == t;
    AxisAtOf(ts[0], ts[1], ts[2], ts[3], scale);
  }

  lemma JoinFour(p: seq<string>)
    requires |p| == 4
    ensures Join(p) == p[0] + " " + (p[1] + " " + (p[2] + " " + p[3]))
  {
    assert p[1..][1..][1..] == [p[3]];
    assert Join(p[1..][1..][1..]) == p[3];
    assert Join(p[1..][1..]) == p[2] + " " + p[3];
  }

  /** An axis in the editor's form whose five numbers parse is read as those numbers; an
      axis with no match fails, as `float.Parse` of an empty group throws. */
  lemma {:induction false} AxisParsedFromEditorForm<N>(ts: seq<string>, scale: string, parse: string -> Option<N>)
    requires |ts| == 4 && IsNumberToken(scale) && parse(scale).Some?
    requires forall i :: 0 <= i < 4 ==> IsNumberToken(ts[i]) && parse(ts[i]).Some?
    ensures ParseAxis("[" + Join(ts) + "] " + scale, parse)
         == Some(Axis(Vec3(parse(ts[0]).value, parse(ts[1]).value, parse(ts[2]).value),
                      parse(ts[3]).value, parse(scale).value))
  {
    AxisOfEditorForm(ts, scale);
  }
}
