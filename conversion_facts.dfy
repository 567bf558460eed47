/** Properties of the conversion as a whole: which blocks are written, what a brush, a
    side and an entity turn into, and when the conversion fails. */
module ConversionFacts {
  import opened Wrappers
  import opened Text
  import opened Properties
  import opened Vectors
  import opened Materials
  import opened Patches
  import opened Converter

  // ---------------------------------------------------------------------------
  // Concatenating the outputs of a sequence of blocks
  // ---------------------------------------------------------------------------

  /** The outputs of `xs`, one after the other, or `None` when any of them fails. This is
      the reference reading of every output loop of the converter. */
  function Concat<T>(f: T -> Option<string>, xs: seq<T>): Option<string> {
    if xs == [] then Some("")
    else
      var h := f(xs[0]);
      var t := Concat(f, xs[1..]);
      if h.None? || t.None? then None else Some(h.value + t.value)
  }

  /** The text `acc` followed by the concatenated outputs. */
  function After(acc: string, r: Option<string>): Option<string> {
    if r.None? then None else Some(acc + r.value)
  }

  /** The concatenation fails exactly when one of the outputs does. */
  lemma {:induction false} ConcatNoneIff<T>(f: T -> Option<string>, xs: seq<T>)
    ensures Concat(f, xs).None? <==> exists j :: 0 <= j < |xs| && f(xs[j]).None?
  {
    if xs != [] {
      ConcatNoneIff(f, xs[1..]);
      if Concat(f, xs[1..]).None? {
        var j :| 0 <= j < |xs[1..]| && f(xs[1..][j]).None?;
        assert f(xs[j + 1]).None?;
      }
      if exists j :: 0 <= j < |xs| && f(xs[j]).None? {
        var j :| 0 <= j < |xs| && f(xs[j]).None?;
        if j > 0 {
          assert f(xs[1..][j - 1]).None?;
        }
      }
    }
  }

  /** Outputs that are all empty concatenate to the empty text. */
  lemma {:induction false} ConcatOfEmpty<T>(f: T -> Option<string>, xs: seq<T>)
    requires forall j :: 0 <= j < |xs| ==> f(xs[j]) == Some("")
    ensures Concat(f, xs) == Some("")
  {
    if xs != [] {
      assert f(xs[0]) == Some("");
      forall j | 0 <= j < |xs[1..]| ensures f(xs[1..][j]) == Some("") {
        assert xs[1..][j] == xs[j + 1];
      }
      ConcatOfEmpty(f, xs[1..]);
      assert "" + "" == "";
    }
  }

  /** The outputs from `k` on are the output at `k` followed by the rest. */
  lemma {:induction false} ConcatStep<T>(f: T -> Option<string>, xs: seq<T>, k: nat)
    requires k < |xs|
    ensures Concat(f, xs[k..]) ==
            (var h := f(xs[k]); var t := Concat(f, xs[k + 1..]);
             if h.None? || t.None? then None else Some(h.value + t.value))
  {
    assert xs[k..][0] == xs[k];
    assert xs[k..][1..] == xs[k + 1..];
  }

  /** An output loop from `k` on writes `acc` followed by the outputs of the remaining
      elements, and fails exactly when one of them throws. */
  lemma {:induction false} EmitConcat<T>(f: T -> Option<string>, xs: seq<T>, k: nat, acc: string)
    requires k <= |xs|
    ensures Emit(f, xs, k, acc) == After(acc, Concat(f, xs[k..]))
    decreases |xs| - k
  {
    if k < |xs| {
      ConcatStep(f, xs, k);
      var o := f(xs[k]);
      if o.Some? {
        EmitConcat(f, xs, k + 1, acc + o.value);
        var t := Concat(f, xs[k + 1..]);
        if t.Some? {
          assert acc + o.value + t.value == acc + (o.value + t.value);
        }
      }
    } else {
      assert xs[k..] == [];
      assert acc + "" == acc;
    }
  }

  /** A whole output loop is the concatenation of the outputs. */
  lemma EmitAll<T>(f: T -> Option<string>, xs: seq<T>)
    ensures Emit(f, xs, 0, "") == Concat(f, xs)
  {
    EmitConcat(f, xs, 0, "");
    assert xs[0..] == xs;
    var t := Concat(f, xs);
    if t.Some? {
      assert "" + t.value == t.value;
    }
  }

  // ---------------------------------------------------------------------------
  // Entities
  // ---------------------------------------------------------------------------

  /** The `.map` text is the outputs of the blocks, one after the other. */
  lemma ConvertIsConcat<N>(env: Env<N>, entities: seq<Node>)
    ensures Convert(env, entities) == Concat(EntityOf(env), entities)
  {
    EmitAll(EntityOf(env), entities);
  }

  /** The conversion fails exactly when one of the blocks throws. */
  lemma ConvertFailsIff<N>(env: Env<N>, entities: seq<Node>)
    ensures Convert(env, entities).None? <==> exists j :: 0 <= j < |entities| && EntityOutput(env, entities[j]).None?
  {
    ConvertIsConcat(env, entities);
    ConcatNoneIff(EntityOf(env), entities);
  }

  /** The blocks of type `world` or `entity`, in order. */
  function Written(entities: seq<Node>): (r: seq<Node>)
    ensures forall j :: 0 <= j < |r| ==> r[j].kind == "world" || r[j].kind == "entity"
  {
    if entities == [] then []
    else if entities[0].kind == "world" || entities[0].kind == "entity" then [entities[0]] + Written(entities[1..])
    else Written(entities[1..])
  }

  /** Blocks of any other type (`versioninfo`, `visgroups`, `cameras`, ...) leave no trace:
      the conversion of the whole list equals the conversion of its `world` and `entity`
      blocks alone. */
  lemma {:induction false} OnlyWorldAndEntitiesWritten<N>(env: Env<N>, entities: seq<Node>)
    ensures Convert(env, entities) == Convert(env, Written(entities))
  {
    ConvertIsConcat(env, entities);
    ConvertIsConcat(env, Written(entities));
    WrittenConcat(env, entities);
  }

  lemma {:induction false} WrittenConcat<N>(env: Env<N>, entities: seq<Node>)
    ensures Concat(EntityOf(env), entities) == Concat(EntityOf(env), Written(entities))
  {
    if entities != [] {
      WrittenConcat(env, entities[1..]);
      var w := Written(entities[1..]);
      if entities[0].kind == "world" || entities[0].kind == "entity" {
        assert ([entities[0]] + w)[1..] == w;
      } else {
        assert EntityOutput(env, entities[0]) == Some("");
        var t := Concat(EntityOf(env), entities[1..]);
        if t.Some? {
          assert "" + t.value == t.value;
        }
      }
    }
  }

  /** The property lines of `es`, one after the other. */
  function PropLines(es: seq<Entry>): string {
    if es == [] then "" else PropLine(es[0]) + PropLines(es[1..])
  }

  /** The property loop from `k` on appends the lines of the remaining entries. */
  lemma {:induction false} PropsFromLines(es: seq<Entry>, k: nat, acc: string)
    requires k <= |es|
    ensures PropsFrom(es, k, acc) == acc + PropLines(es[k..])
    decreases |es| - k
  {
    if k < |es| {
      PropsFromLines(es, k + 1, acc + PropLine(es[k]));
      assert es[k..][0] == es[k];
      assert es[k..][1..] == es[k + 1..];
      assert acc + PropLine(es[k]) + PropLines(es[k + 1..]) == acc + (PropLine(es[k]) + PropLines(es[k + 1..]));
    } else {
      assert es[k..] == [];
      assert acc + "" == acc;
    }
  }

  /** A `world` or `entity` block with a `classname` is written as `{`, one line per
      distinct property in the order the dictionary enumerates them, the output of every
      sub-block, `}`; it fails exactly when one of its sub-blocks throws. Detail entities
      are those whose `classname` ends with `detail` in any case. */
  lemma EntityWritten<N>(env: Env<N>, e: Node, es: seq<Entry>)
    requires e.kind == "world" || e.kind == "entity"
    requires ParseProperties(e.props) == Some(es) && HasKey(es, "classname")
    ensures EntityOutput(env, e) ==
            (var bs := Concat(BrushOf(env, EntityOffset(env, es), IsDetail(es)), e.children);
             if bs.None? then None else Some("{\n" + PropLines(es) + bs.value + "\n}\n"))
  {
    PropsFromLines(es, 0, "");
    EmitAll(BrushOf(env, EntityOffset(env, es), IsDetail(es)), e.children);
    assert es[0..] == es;
    assert "" + PropLines(es) == PropLines(es);
  }

  /** An entity without a property run or without a `classname` makes the conversion
      throw; any other type of block is skipped. */
  lemma EntityFails<N>(env: Env<N>, e: Node)
    ensures EntityOutput(env, e).None? ==>
            (e.kind == "world" || e.kind == "entity")
    ensures (e.kind == "world" || e.kind == "entity") && (ParseProperties(e.props).None? || !HasKey(ParseProperties(e.props).value, "classname"))
            ==> EntityOutput(env, e).None?
    ensures e.kind != "world" && e.kind != "entity" ==> EntityOutput(env, e) == Some("")
  {
  }

  // ---------------------------------------------------------------------------
  // Faces
  // ---------------------------------------------------------------------------

  /** The detail content flag is written as `134217728`. */
  lemma DetailFlagText()
    ensures NatToString(DetailFlag) == "134217728"
  {
    assert NatToString(1) == "1";
    assert NatToString(13) == "13";
    assert NatToString(134) == "134";
    assert NatToString(1342) == "1342";
    assert NatToString(13421) == "13421";
    assert NatToString(134217) == "134217";
    assert NatToString(1342177) == "1342177";
    assert NatToString(13421772) == "13421772";
  }

  /** A detail face line is the plain face line with ` 134217728 0 0` inserted before its
      newline; nothing else about the line depends on the entity being detail. */
  lemma FaceLineDetail<N>(env: Env<N>, planeText: string, material: string, u: Axis<N>, v: Axis<N>)
    ensures var plain := FaceLine(env, planeText, material, u, v, false);
            plain != [] && plain[|plain| - 1] == '\n' &&
            FaceLine(env, planeText, material, u, v, true) == plain[..|plain| - 1] + " 134217728 0 0\n"
  {
    DetailFlagText();
    var plain := FaceLine(env, planeText, material, u, v, false);
    var body := "\t\t" + planeText + " " + material
      + " [ " + Triple(env, u.dir) + " " + env.math.format(u.shift)
      + " ] [ " + Triple(env, v.dir) + " " + env.math.format(v.shift)
      + " ]  " + " 0 " + env.math.format(u.scale) + " " + env.math.format(v.scale);
    assert plain == body + "" + "\n";
    assert plain[..|plain| - 1] == body;
  }

  /** A plane that does not give exactly three points is echoed with its parentheses
      padded, and the side keeps neither corner points nor a displacement; a plane of three
      points gives the side those points, moved by the origin, and its displacement. */
  lemma FacePlane<N>(env: Env<N>, es: seq<Entry>, disp: (Option<DispInfo<N>>, bool), offset: Option<Vec3<N>>, isDetail: bool)
    requires FaceSpec(env, es, disp, offset, isDetail).Some?
    ensures var o := FaceSpec(env, es, disp, offset, isDetail).value;
            var plane := Lookup(es, "plane").value;
            var vs := Vector3s(plane, env.parseFloat);
            o.displaced == disp.1 &&
            (|vs| != 3 ==> o.side.points.None? && o.side.dispinfo.None? &&
                           o.line[..2 + |PadParens(plane)|] == "\t\t" + PadParens(plane)) &&
            (|vs| == 3 ==> o.side.points == Some(ShiftPlane(env, vs, offset)) && o.side.dispinfo == disp.0)
  {
    var plane := Lookup(es, "plane").value;
    var u := ParseAxis(Lookup(es, "uaxis").value, env.parseFloat).value;
    var v := ParseAxis(Lookup(es, "vaxis").value, env.parseFloat).value;
    FaceLineStart(env, PadParens(plane), RemapMaterial(Lookup(es, "material").value), u, v, isDetail);
  }

  /** A face line starts with two tabs and the plane text. */
  lemma FaceLineStart<N>(env: Env<N>, planeText: string, material: string, u: Axis<N>, v: Axis<N>, isDetail: bool)
    ensures var line := FaceLine(env, planeText, material, u, v, isDetail);
            |line| > 2 + |planeText| && line[..2 + |planeText|] == "\t\t" + planeText
  {
    var line := FaceLine(env, planeText, material, u, v, isDetail);
    var head := "\t\t" + planeText;
    forall i | 0 <= i < |head| ensures line[i] == head[i] {
    }
    assert line[..|head|] == head;
  }

  // ---------------------------------------------------------------------------
  // Displacements
  // ---------------------------------------------------------------------------

  /** The index of the last block from `k` on whose type is `kind` (in any case), or
      `None` when there is none. */
  function LastOfKind(cs: seq<Node>, k: nat, kind: string): (r: Option<nat>)
    requires k <= |cs|
    ensures r.Some? ==> k <= r.value < |cs| && IsKind(cs[r.value], kind) &&
                        forall j :: r.value < j < |cs| ==> !IsKind(cs[j], kind)
    ensures r.None? ==> forall j :: k <= j < |cs| ==> !IsKind(cs[j], kind)
    decreases |cs| - k
  {
    if k == |cs| then None
    else
      var rest := LastOfKind(cs, k + 1, kind);
      if rest.Some? then rest else if IsKind(cs[k], kind) then Some(k) else None
  }

  /** Whether reading one sub-block of a `dispinfo` throws: a `normals`, `distances` or
      `alphas` block without a property run or with a row that does not parse. */
  predicate ChildFails<N>(env: Env<N>, c: Node) {
    if IsKind(c, "normals") then NormalsOf(env, c).None?
    else (IsKind(c, "distances") || IsKind(c, "alphas")) && ScalarsOf(env, c).None?
  }

  /** No block is of two of the sub-block types at once. */
  lemma KindsDistinct(c: Node)
    ensures !(IsKind(c, "normals") && IsKind(c, "distances"))
    ensures !(IsKind(c, "normals") && IsKind(c, "alphas"))
    ensures !(IsKind(c, "distances") && IsKind(c, "alphas"))
  {
    assert |Lower("normals")| == 7 && |Lower("distances")| == 9 && |Lower("alphas")| == 6;
  }

  /** The sub-block loop of a `dispinfo` from `k` on throws exactly when one of the
      remaining blocks does. */
  lemma {:induction false} DispChildrenFails<N>(env: Env<N>, d: DispInfo<N>, cs: seq<Node>, k: nat)
    requires k <= |cs|
    ensures DispChildrenFrom(env, d, cs, k).None? <==> exists j :: k <= j < |cs| && ChildFails(env, cs[j])
    decreases |cs| - k
  {
    if k < |cs| {
      var c := cs[k];
      KindsDistinct(c);
      var next := DispChild(env, d, c);
      assert next.None? <==> ChildFails(env, c) by {
        if IsKind(c, "normals") {
          assert next.None? <==> NormalsOf(env, c).None?;
        } else if IsKind(c, "distances") || IsKind(c, "alphas") {
          assert next.None? <==> ScalarsOf(env, c).None?;
        }
      }
      if next.Some? {
        DispChildrenFails(env, next.value, cs, k + 1);
      }
    }
  }

  /** When the sub-block loop of a `dispinfo` from `k` on reads, it keeps the start
      position and the power, and each of `normals`, `distances` and `alphas` holds the
      rows of the last block of its type, or what it held before when there is none. */
  lemma {:induction false} DispChildrenLastWins<N>(env: Env<N>, d: DispInfo<N>, cs: seq<Node>, k: nat)
    requires k <= |cs| && DispChildrenFrom(env, d, cs, k).Some?
    ensures var r := DispChildrenFrom(env, d, cs, k).value;
            r.startposition == d.startposition && r.power == d.power &&
            r.normals ==
              (var l := LastOfKind(cs, k, "normals"); if l.None? then d.normals else NormalsOf(env, cs[l.value])) &&
            r.distances ==
              (var l := LastOfKind(cs, k, "distances"); if l.None? then d.distances else ScalarsOf(env, cs[l.value])) &&
            r.alphas ==
              (var l := LastOfKind(cs, k, "alphas"); if l.None? then d.alphas else ScalarsOf(env, cs[l.value]))
    decreases |cs| - k
  {
    if k < |cs| {
      var c := cs[k];
      KindsDistinct(c);
      var next := DispChild(env, d, c).value;
      DispChildrenLastWins(env, next, cs, k + 1);
      if IsKind(c, "normals") {
        assert next == d.(normals := NormalsOf(env, c));
      } else if IsKind(c, "distances") {
        assert next == d.(distances := ScalarsOf(env, c));
      } else if IsKind(c, "alphas") {
        assert next == d.(alphas := ScalarsOf(env, c));
      } else {
        assert next == d;
      }
    }
  }

  /** A `dispinfo` block reads exactly when it has a property run holding `startposition`
      and `power`, both parse, and none of its sub-blocks throws. It then holds the start
      position moved by the origin, the power, and the rows of its last `normals`,
      `distances` and `alphas` sub-blocks, each `None` when there is no such block. */
  lemma DispInfoRead<N>(env: Env<N>, node: Node, offset: Option<Vec3<N>>)
    ensures var r := ParseDisp(env, node, offset);
            var ps := ParseProperties(node.props);
            var cs := node.children;
            (r.Some? <==>
              ps.Some? && HasKey(ps.value, "startposition") && HasKey(ps.value, "power") &&
              StartPosition(env, Lookup(ps.value, "startposition").value).Some? &&
              env.parseInt(Lookup(ps.value, "power").value).Some? &&
              forall j :: 0 <= j < |cs| ==> !ChildFails(env, cs[j])) &&
            (r.Some? ==>
              var sp := StartPosition(env, Lookup(ps.value, "startposition").value).value;
              (offset.None? ==> r.value.startposition == sp) &&
              (offset.Some? ==> r.value.startposition == Minus(env, sp, offset.value)) &&
              r.value.power == env.parseInt(Lookup(ps.value, "power").value).value &&
              r.value.normals ==
                (var l := LastOfKind(cs, 0, "normals"); if l.None? then None else NormalsOf(env, cs[l.value])) &&
              r.value.distances ==
                (var l := LastOfKind(cs, 0, "distances"); if l.None? then None else ScalarsOf(env, cs[l.value])) &&
              r.value.alphas ==
                (var l := LastOfKind(cs, 0, "alphas"); if l.None? then None else ScalarsOf(env, cs[l.value])))
  {
    var ps := ParseProperties(node.props);
    if ps.Some? && HasKey(ps.value, "startposition") && HasKey(ps.value, "power") {
      var sp := StartPosition(env, Lookup(ps.value, "startposition").value);
      var power := env.parseInt(Lookup(ps.value, "power").value);
      if sp.Some? && power.Some? {
        var d := DispInfo(Shift(env, sp.value, offset), power.value, None, None, None);
        DispChildrenFails(env, d, node.children, 0);
        if DispChildrenFrom(env, d, node.children, 0).Some? {
          DispChildrenLastWins(env, d, node.children, 0);
        }
      }
    }
  }

  // ---------------------------------------------------------------------------
  // Sides
  // ---------------------------------------------------------------------------

  /** Whether a side has a `dispinfo` sub-block, in any case. */
  predicate HasDispInfo(s: Node) {
    exists j :: 0 <= j < |s.children| && EqualsIgnoreCase(s.children[j].kind, "dispinfo")
  }

  /** The sub-block loop of a side records that it met a `dispinfo` exactly when one of the
      blocks is one, and keeps a displacement only when it met one. */
  lemma {:induction false} SideDispFound<N>(env: Env<N>, cs: seq<Node>, offset: Option<Vec3<N>>, k: nat,
                                            disp: Option<DispInfo<N>>, found: bool)
    requires k <= |cs| && (disp.Some? ==> found)
    ensures var r := SideDispFrom(env, cs, offset, k, disp, found);
            r.Some? ==> (r.value.0.Some? ==> r.value.1) &&
                        (r.value.1 <==> found || exists j :: k <= j < |cs| && EqualsIgnoreCase(cs[j].kind, "dispinfo"))
    decreases |cs| - k
  {
    if k < |cs| {
      var next := SideChild(env, cs[k], offset, disp, found);
      SideDispStep(env, cs, offset, k, disp, found, next);
      if next.Some? {
        SideDispFound(env, cs, offset, k + 1, next.value.0, next.value.1);
      }
    }
  }

  /** A side that reads is displaced exactly when it has a `dispinfo` sub-block, and it
      keeps a displacement only then and only with a plane of three points. */
  lemma SideDisplaced<N>(env: Env<N>, s: Node, offset: Option<Vec3<N>>, isDetail: bool)
    requires ReadSideSpec(env, s, offset, isDetail).Some?
    ensures var o := ReadSideSpec(env, s, offset, isDetail).value;
            (o.displaced <==> HasDispInfo(s)) &&
            (o.side.dispinfo.Some? ==> o.displaced && o.side.points.Some? && |o.side.points.value| == 3)
  {
    var disp := SideDispFrom(env, s.children, offset, 0, None, false);
    SideDispFound(env, s.children, offset, 0, None, false);
    FacePlane(env, ParseProperties(s.props).value, disp.value, offset, isDetail);
  }

  /** The sub-block loop of a side from `k` on throws exactly when one of its remaining
      `dispinfo` blocks does. */
  lemma {:induction false} SideDispFails<N>(env: Env<N>, cs: seq<Node>, offset: Option<Vec3<N>>, k: nat,
                                            disp: Option<DispInfo<N>>, found: bool)
    requires k <= |cs|
    ensures SideDispFrom(env, cs, offset, k, disp, found).None? <==>
            exists j :: k <= j < |cs| && IsKind(cs[j], "dispinfo") && ParseDisp(env, cs[j], offset).None?
    decreases |cs| - k
  {
    if k < |cs| {
      var next := SideChild(env, cs[k], offset, disp, found);
      SideDispStep(env, cs, offset, k, disp, found, next);
      if next.Some? {
        SideDispFails(env, cs, offset, k + 1, next.value.0, next.value.1);
      }
    }
  }

  /** When the sub-block loop of a side from `k` on reads, it ends with the displacement of
      the last `dispinfo` block, marked found, or with what it was given when there is
      none. */
  lemma {:induction false} SideDispLastWins<N>(env: Env<N>, cs: seq<Node>, offset: Option<Vec3<N>>, k: nat,
                                               disp: Option<DispInfo<N>>, found: bool)
    requires k <= |cs| && SideDispFrom(env, cs, offset, k, disp, found).Some?
    ensures var r := SideDispFrom(env, cs, offset, k, disp, found).value;
            var l := LastOfKind(cs, k, "dispinfo");
            (l.None? ==> r == (disp, found)) &&
            (l.Some? ==> r.1 && r.0.Some? && r.0 == ParseDisp(env, cs[l.value], offset))
    decreases |cs| - k
  {
    if k < |cs| {
      var next := SideChild(env, cs[k], offset, disp, found);
      SideDispStep(env, cs, offset, k, disp, found, next);
      SideDispLastWins(env, cs, offset, k + 1, next.value.0, next.value.1);
    }
  }

  /** A side with a plane of three points keeps the displacement of its last `dispinfo`
      sub-block, or none when it has no such block. */
  lemma SideKeepsLastDispInfo<N>(env: Env<N>, s: Node, offset: Option<Vec3<N>>, isDetail: bool)
    requires ReadSideSpec(env, s, offset, isDetail).Some?
    ensures var o := ReadSideSpec(env, s, offset, isDetail).value;
            var l := LastOfKind(s.children, 0, "dispinfo");
            o.side.points.Some? ==>
              (l.None? ==> o.side.dispinfo.None?) &&
              (l.Some? ==> o.side.dispinfo.Some? && o.side.dispinfo == ParseDisp(env, s.children[l.value], offset))
  {
    var disp := SideDispFrom(env, s.children, offset, 0, None, false);
    SideDispLastWins(env, s.children, offset, 0, None, false);
    FacePlane(env, ParseProperties(s.props).value, disp.value, offset, isDetail);
  }

  // ---------------------------------------------------------------------------
  // Brushes
  // ---------------------------------------------------------------------------

  /** The face line of a side, or `None` when reading the side throws. */
  function FaceOf<N>(read: Node -> Option<SideOut<N>>): Node -> Option<string> {
    s => var o := read(s); if o.None? then None else Some(o.value.line)
  }

  /** The side loop from `k` on succeeds exactly when every remaining side reads, and then
      appends their face lines, in order, to the brush text. */
  lemma {:induction false} SidesFromText<N>(read: Node -> Option<SideOut<N>>, cs: seq<Node>, k: nat, acc: BrushAcc<N>)
    requires k <= |cs|
    ensures var r := SidesFrom(read, cs, k, acc);
            var t := Concat(FaceOf(read), cs[k..]);
            (r.Some? <==> t.Some?) && (r.Some? ==> r.value.text == acc.text + t.value)
    decreases |cs| - k
  {
    if k < |cs| {
      ConcatStep(FaceOf(read), cs, k);
      var s := read(cs[k]);
      if s.Some? {
        var next := BrushAcc(acc.text + s.value.line, acc.sides + [s.value.side], acc.displaced || s.value.displaced);
        SidesFromText(read, cs, k + 1, next);
        var t := Concat(FaceOf(read), cs[k + 1..]);
        if t.Some? {
          assert acc.text + s.value.line + t.value == acc.text + (s.value.line + t.value);
        }
      }
    } else {
      assert cs[k..] == [];
      assert acc.text + "" == acc.text;
    }
  }

  /** The side loop from `k` on keeps one record per remaining side, in order, after the
      records it was given, and the brush is displaced exactly when it already was or one
      of the remaining sides is. */
  lemma {:induction false} SidesFromSides<N>(read: Node -> Option<SideOut<N>>, cs: seq<Node>, k: nat, acc: BrushAcc<N>)
    requires k <= |cs|
    ensures var r := SidesFrom(read, cs, k, acc);
            r.Some? ==>
              |r.value.sides| == |acc.sides| + |cs| - k && r.value.sides[..|acc.sides|] == acc.sides &&
              (forall j :: k <= j < |cs| ==>
                read(cs[j]).Some? && r.value.sides[|acc.sides| + j - k] == read(cs[j]).value.side) &&
              (r.value.displaced <==>
                acc.displaced || exists j :: k <= j < |cs| && read(cs[j]).Some? && read(cs[j]).value.displaced)
    decreases |cs| - k
  {
    var r := SidesFrom(read, cs, k, acc);
    if k < |cs| {
      var s := read(cs[k]);
      if s.Some? {
        var next := BrushAcc(acc.text + s.value.line, acc.sides + [s.value.side], acc.displaced || s.value.displaced);
        SidesFromSides(read, cs, k + 1, next);
        if r.Some? {
          var n := |acc.sides|;
          assert r.value.sides[..n] == r.value.sides[..n + 1][..n];
          assert r.value.sides[n] == r.value.sides[..n + 1][n];
        }
      }
    }
  }

  /** A brush's side loop marks the brush displaced exactly when one of its sides has a
      `dispinfo` sub-block. */
  lemma BrushSidesDisplaced<N>(env: Env<N>, cs: seq<Node>, offset: Option<Vec3<N>>, isDetail: bool)
    ensures var r := SidesFrom(SideOf(env, offset, isDetail), cs, 0, BrushAcc("\t{\n", [], false));
            r.Some? ==> (r.value.displaced <==> exists j :: 0 <= j < |cs| && HasDispInfo(cs[j]))
  {
    var read := SideOf(env, offset, isDetail);
    SidesFromSides(read, cs, 0, BrushAcc("\t{\n", [], false));
    if SidesFrom(read, cs, 0, BrushAcc("\t{\n", [], false)).Some? {
      forall j | 0 <= j < |cs|
        ensures read(cs[j]).Some? && (read(cs[j]).value.displaced <==> HasDispInfo(cs[j]))
      {
        SideDisplaced(env, cs[j], offset, isDetail);
      }
    }
  }

  /** Completing the sides from `k` on succeeds exactly when every remaining side
      completes, and then replaces the corner points of each, in order, keeping everything
      else. */
  lemma {:induction false} CompleteFromSides<N>(env: Env<N>, sides: seq<Side<N>>, k: nat, acc: seq<Side<N>>)
    requires k <= |sides|
    ensures var r := CompleteFrom(env, sides, k, acc);
            (r.Some? <==> forall j :: k <= j < |sides| ==> env.complete(sides[j], sides).Some?) &&
            (r.Some? ==>
              |r.value| == |acc| + |sides| - k && r.value[..|acc|] == acc &&
              forall j :: k <= j < |sides| ==> r.value[|acc| + j - k] == sides[j].(points := env.complete(sides[j], sides)))
    decreases |sides| - k
  {
    var r := CompleteFrom(env, sides, k, acc);
    if k < |sides| {
      var pts := env.complete(sides[k], sides);
      if pts.Some? {
        var next := acc + [sides[k].(points := pts)];
        CompleteFromSides(env, sides, k + 1, next);
        if r.Some? {
          var n := |acc|;
          assert r.value[..n] == r.value[..n + 1][..n];
          assert r.value[n] == r.value[..n + 1][n];
        }
      }
    }
  }

  /** A brush none of whose sides has a `dispinfo` sub-block is written as `{`, the face
      line of every side in order, `}`; it fails exactly when one of its sides throws. */
  lemma BrushUndisplaced<N>(env: Env<N>, b: Node, offset: Option<Vec3<N>>, isDetail: bool)
    requires ParseProperties(b.props).Some?
    requires forall j :: 0 <= j < |b.children| ==> !HasDispInfo(b.children[j])
    ensures BrushOutput(env, b, offset, isDetail) ==
            (var t := Concat(FaceOf(SideOf(env, offset, isDetail)), b.children);
             if t.None? then None else Some("\t{\n" + t.value + "\t}\n"))
  {
    SidesFromText(SideOf(env, offset, isDetail), b.children, 0, BrushAcc("\t{\n", [], false));
    BrushSidesDisplaced(env, b.children, offset, isDetail);
    assert b.children[0..] == b.children;
  }

  /** The completed sides of a brush: its sides, each read by `read`, with their corner
      points replaced by `Side.completeSide`; `None` when reading or completing throws. */
  function CompletedSides<N>(env: Env<N>, read: Node -> Option<SideOut<N>>, cs: seq<Node>): Option<seq<Side<N>>> {
    var r := SidesFrom(read, cs, 0, BrushAcc("\t{\n", [], false));
    if r.None? then None else CompleteFrom(env, r.value.sides, 0, [])
  }

  /** When every side of a brush reads, the side loop keeps one side per sub-block, in
      order, each as it was read. */
  lemma SidesReadInOrder<N>(read: Node -> Option<SideOut<N>>, cs: seq<Node>)
    ensures var r := SidesFrom(read, cs, 0, BrushAcc("\t{\n", [], false));
            r.Some? ==>
              |r.value.sides| == |cs| &&
              forall j :: 0 <= j < |cs| ==> read(cs[j]).Some? && r.value.sides[j] == read(cs[j]).value.side
  {
    SidesFromSides(read, cs, 0, BrushAcc("\t{\n", [], false));
  }

  /** Completing the sides of a brush fails exactly when reading one of them throws or
      `Side.completeSide` throws on one of them. */
  lemma CompletedSidesFail<N>(env: Env<N>, read: Node -> Option<SideOut<N>>, cs: seq<Node>)
    ensures var r := SidesFrom(read, cs, 0, BrushAcc("\t{\n", [], false));
            CompletedSides(env, read, cs).Some? <==>
              r.Some? && forall j :: 0 <= j < |r.value.sides| ==> env.complete(r.value.sides[j], r.value.sides).Some?
  {
    var r := SidesFrom(read, cs, 0, BrushAcc("\t{\n", [], false));
    if r.Some? {
      CompleteFromSides(env, r.value.sides, 0, []);
    }
  }

  /** There is one completed side per side of the brush, in order: the side as read, with
      its corner points replaced by what `Side.completeSide` gives for it against all the
      sides of the brush, and nothing else changed. */
  lemma CompletedSidesShape<N>(env: Env<N>, read: Node -> Option<SideOut<N>>, cs: seq<Node>)
    ensures var r := SidesFrom(read, cs, 0, BrushAcc("\t{\n", [], false));
            var done := CompletedSides(env, read, cs);
            done.Some? ==>
              r.Some? && |r.value.sides| == |done.value| == |cs| &&
              forall j :: 0 <= j < |done.value| ==>
                read(cs[j]).Some? && done.value[j] == read(cs[j]).value.side.(points := done.value[j].points) &&
                done.value[j].points == env.complete(r.value.sides[j], r.value.sides)
  {
    var r := SidesFrom(read, cs, 0, BrushAcc("\t{\n", [], false));
    SidesReadInOrder(read, cs);
    if r.Some? {
      var sides := r.value.sides;
      CompleteFromSides(env, sides, 0, []);
      var done := CompleteFrom(env, sides, 0, []);
      if done.Some? {
        forall j | 0 <= j < |done.value|
          ensures done.value[j] == sides[j].(points := env.complete(sides[j], sides))
        {
          assert done.value[0 + j - 0] == sides[j].(points := env.complete(sides[j], sides));
        }
      }
    }
  }

  /** A brush with a side that has a `dispinfo` sub-block drops its brush text: it is
      written as the patches of its completed sides alone. */
  lemma BrushDisplaced<N>(env: Env<N>, b: Node, offset: Option<Vec3<N>>, isDetail: bool)
    requires exists j :: 0 <= j < |b.children| && HasDispInfo(b.children[j])
    ensures BrushOutput(env, b, offset, isDetail).Some? ==>
            CompletedSides(env, SideOf(env, offset, isDetail), b.children).Some? &&
            BrushOutput(env, b, offset, isDetail) == Concat(PatchOf(env), CompletedSides(env, SideOf(env, offset, isDetail), b.children).value)
  {
    BrushSidesDisplaced(env, b.children, offset, isDetail);
    var done := CompletedSides(env, SideOf(env, offset, isDetail), b.children);
    if done.Some? {
      EmitAll(PatchOf(env), done.value);
    }
  }

  /** A displaced brush none of whose sides keeps a displacement (each displaced side has a
      plane that does not give three points) writes nothing at all. */
  lemma DisplacedWithoutPatches<N>(env: Env<N>, b: Node, offset: Option<Vec3<N>>, isDetail: bool)
    requires exists j :: 0 <= j < |b.children| && HasDispInfo(b.children[j])
    requires forall j :: 0 <= j < |b.children| && ReadSideSpec(env, b.children[j], offset, isDetail).Some? ==>
                         ReadSideSpec(env, b.children[j], offset, isDetail).value.side.dispinfo.None?
    ensures BrushOutput(env, b, offset, isDetail).Some? ==> BrushOutput(env, b, offset, isDetail) == Some("")
  {
    var read := SideOf(env, offset, isDetail);
    BrushDisplaced(env, b, offset, isDetail);
    CompletedSidesShape(env, read, b.children);
    var done := CompletedSides(env, read, b.children);
    if done.Some? {
      forall j | 0 <= j < |done.value| ensures PatchOf(env)(done.value[j]) == Some("") {
        assert read(b.children[j]) == ReadSideSpec(env, b.children[j], offset, isDetail);
        assert done.value[j].dispinfo == read(b.children[j]).value.side.dispinfo;
      }
      ConcatOfEmpty(PatchOf(env), done.value);
    }
  }
}
