/** The conversion loop of `Main`: entities, their brushes, each brush's sides and each
    side's `dispinfo`, written out as `.map` text. The blocks arrive already split into a
    tree of `Node`s; any exception the code would throw ends the conversion, which is
    `None` here. */
module Converter {
  import opened Wrappers
  import opened Text
  import opened Properties
  import opened Vectors
  import opened Materials
  import opened Displacement
  import opened Patches

  /** A block: its type name (`world`, `solid`, `side`, `dispinfo`, `normals`, ...), the
      text of its properties and its sub-blocks in order. */
  datatype Node = Node(kind: string, props: string, children: seq<Node>)

  /** The number operations and the side completion, which the model takes as given. */
  datatype Env<!N> = Env(
    parseFloat: string -> Option<N>,                          // float.TryParse / float.Parse
    parseDouble: string -> Option<N>,                         // double.Parse
    parseInt: string -> Option<int>,                          // int.Parse
    sub: (N, N) -> N,                                         // float subtraction
    complete: (Side<N>, seq<Side<N>>) -> Option<seq<Vec3<N>>>, // Side.completeSide: the face's corner points
    math: PatchMath<N>)

  /** `0x8000000`, the detail content flag. */
  const DetailFlag: nat := 0x8000000

  // ---------------------------------------------------------------------------
  // Offsets and number text
  // ---------------------------------------------------------------------------

  /** `Vector3 -=`, component by component. */
  function Minus<N>(env: Env<N>, v: Vec3<N>, o: Vec3<N>): (r: Vec3<N>)
    ensures r.x == env.sub(v.x, o.x) && r.y == env.sub(v.y, o.y) && r.z == env.sub(v.z, o.z)
  {
    Vec3(env.sub(v.x, o.x), env.sub(v.y, o.y), env.sub(v.z, o.z))
  }

  /** A point moved by the entity's origin when the origin parsed. */
  function Shift<N>(env: Env<N>, v: Vec3<N>, offset: Option<Vec3<N>>): Vec3<N> {
    if offset.Some? then Minus(env, v, offset.value) else v
  }

  /** `x y z`, each as `0.###`. */
  function Triple<N>(env: Env<N>, v: Vec3<N>): string {
    env.math.format(v.x) + " " + env.math.format(v.y) + " " + env.math.format(v.z)
  }

  /** The three plane points `( x y z  ) ( x y z  ) ( x y z ) `. */
  function PlaneLine<N>(env: Env<N>, vs: seq<Vec3<N>>): string
    requires |vs| == 3
  {
    "( " + Triple(env, vs[0]) + " " + " ) ( " + Triple(env, vs[1]) + " " + " ) ( " + Triple(env, vs[2]) + " ) "
  }

  /** The trailing content fields written for detail entities. */
  function DetailSuffix(isDetail: bool): string {
    if isDetail then " " + NatToString(DetailFlag) + " 0 0" else ""
  }

  /** One face line: plane, material, the two texture axes with their shifts, rotation
      `0`, the two scales, the detail fields, newline. */
  function FaceLine<N>(env: Env<N>, planeText: string, material: string, u: Axis<N>, v: Axis<N>, isDetail: bool): string {
    "\t\t" + planeText + " " + material
    + " [ " + Triple(env, u.dir) + " " + env.math.format(u.shift)
    + " ] [ " + Triple(env, v.dir) + " " + env.math.format(v.shift)
    + " ]  " + " 0 " + env.math.format(u.scale) + " " + env.math.format(v.scale)
    + DetailSuffix(isDetail) + "\n"
  }

  // ---------------------------------------------------------------------------
  // dispinfo
  // ---------------------------------------------------------------------------

  /** Whether a block's type name is `kind`, compared without case. */
  predicate IsKind(c: Node, kind: string) {
    EqualsIgnoreCase(c.kind, kind)
  }

  /** The rows of a `normals` block; `None` when it has no property run (the row scan
      then throws on a null dictionary). */
  function NormalsOf<N>(env: Env<N>, c: Node): Option<seq<seq<Vec3<N>>>> {
    var ps := ParseProperties(c.props);
    if ps.None? then None else Some(NormalRows(ps.value, env.parseFloat))
  }

  /** The rows of a `distances` or `alphas` block; `None` when it has no property run or a
      row does not parse. */
  function ScalarsOf<N>(env: Env<N>, c: Node): Option<seq<seq<N>>> {
    var ps := ParseProperties(c.props);
    if ps.None? then None else ScalarRows(ps.value, env.parseDouble)
  }

  /** One sub-block of a `dispinfo`: `normals`, `distances` and `alphas` (in any case) are
      read row by row and replace what an earlier block of the same type gave; other
      blocks are ignored. */
  function DispChild<N>(env: Env<N>, d: DispInfo<N>, c: Node): Option<DispInfo<N>> {
    if IsKind(c, "normals") then
      var rows := NormalsOf(env, c);
      if rows.None? then None else Some(d.(normals := rows))
    else if IsKind(c, "distances") then
      var rows := ScalarsOf(env, c);
      if rows.None? then None else Some(d.(distances := rows))
    else if IsKind(c, "alphas") then
      var rows := ScalarsOf(env, c);
      if rows.None? then None else Some(d.(alphas := rows))
    else Some(d)
  }

  /** The sub-blocks from `k` on, applied to `d`. */
  function DispChildrenFrom<N>(env: Env<N>, d: DispInfo<N>, cs: seq<Node>, k: nat): Option<DispInfo<N>>
    requires k <= |cs|
    decreases |cs| - k
  {
    if k == |cs| then Some(d)
    else
      var next := DispChild(env, d, cs[k]);
      if next.None? then None else DispChildrenFrom(env, next.value, cs, k + 1)
  }

  /** `startposition` with surrounding whitespace and brackets trimmed, then parsed. */
  function StartPosition<N>(env: Env<N>, text: string): Option<Vec3<N>> {
    ParseVector3(Trim(Trim(text, IsSpace), IsBracket), env.parseFloat)
  }

  /** A `dispinfo` block: `startposition` (moved by the origin), `power`, then its
      sub-blocks. A missing property run or key, or a value that does not parse, throws. */
  function ParseDisp<N>(env: Env<N>, node: Node, offset: Option<Vec3<N>>): Option<DispInfo<N>> {
    var ps := ParseProperties(node.props);
    if ps.None? || !HasKey(ps.value, "startposition") then None
    else
      var sp := StartPosition(env, Lookup(ps.value, "startposition").value);
      if sp.None? || !HasKey(ps.value, "power") then None
      else
        var power := env.parseInt(Lookup(ps.value, "power").value);
        if power.None? then None
        else DispChildrenFrom(env, DispInfo(Shift(env, sp.value, offset), power.value, None, None, None), node.children, 0)
  }

  /** One sub-block of a side: a `dispinfo` (in any case) replaces what an earlier one
      gave and records that there was one; other blocks are ignored. */
  function SideChild<N>(env: Env<N>, c: Node, offset: Option<Vec3<N>>, disp: Option<DispInfo<N>>, found: bool)
    : Option<(Option<DispInfo<N>>, bool)>
  {
    if IsKind(c, "dispinfo") then
      var d := ParseDisp(env, c, offset);
      if d.None? then None else Some((d, true))
    else Some((disp, found))
  }

  /** The sub-blocks of a side from `k` on: the last `dispinfo` wins, and `found` records
      that there was one. */
  function SideDispFrom<N>(env: Env<N>, cs: seq<Node>, offset: Option<Vec3<N>>, k: nat,
                           disp: Option<DispInfo<N>>, found: bool): Option<(Option<DispInfo<N>>, bool)>
    requires k <= |cs|
    decreases |cs| - k
  {
    if k == |cs| then Some((disp, found))
    else
      var next := SideChild(env, cs[k], offset, disp, found);
      if next.None? then None else SideDispFrom(env, cs, offset, k + 1, next.value.0, next.value.1)
  }

  /** One step of the side's sub-block loop. */
  lemma SideDispStep<N>(env: Env<N>, cs: seq<Node>, offset: Option<Vec3<N>>, k: nat,
                        disp: Option<DispInfo<N>>, found: bool, next: Option<(Option<DispInfo<N>>, bool)>)
    requires k < |cs| && next == SideChild(env, cs[k], offset, disp, found)
    ensures next.None? ==> SideDispFrom(env, cs, offset, k, disp, found).None?
    ensures next.Some? ==> SideDispFrom(env, cs, offset, k, disp, found) == SideDispFrom(env, cs, offset, k + 1, next.value.0, next.value.1)
  {
  }

  method ReadDispChild<N>(env: Env<N>, d: DispInfo<N>, c: Node) returns (r: Option<DispInfo<N>>)
    ensures r == DispChild(env, d, c)
  {
    var props := EntityProperties.FromString(c.props);
    if EqualsIgnoreCase(c.kind, "normals") {
      if props == null {
        return None;
      }
      var rows := ScanNormalRows(props, env.parseFloat);
      return Some(d.(normals := Some(rows)));
    } else if EqualsIgnoreCase(c.kind, "distances") {
      if props == null {
        return None;
      }
      var rows := ScanScalarRows(props, env.parseDouble);
      if rows.None? {
        return None;
      }
      return Some(d.(distances := Some(rows.value)));
    } else if EqualsIgnoreCase(c.kind, "alphas") {
      if props == null {
        return None;
      }
      var rows := ScanScalarRows(props, env.parseDouble);
      if rows.None? {
        return None;
      }
      return Some(d.(alphas := Some(rows.value)));
    }
    return Some(d);
  }

  /** The `dispinfo` branch of the side loop. */
  method ReadDispInfo<N>(env: Env<N>, node: Node, offset: Option<Vec3<N>>) returns (r: Option<DispInfo<N>>)
    ensures r == ParseDisp(env, node, offset)
  {
    var props := EntityProperties.FromString(node.props);
    if props == null {
      return None;
    }
    assert ParseProperties(node.props) == Some(props.entries);
    if !props.ContainsKey("startposition") {
      return None;
    }
    var sp := StartPosition(env, props.Get("startposition").value);
    if sp.None? || !props.ContainsKey("power") {
      return None;
    }
    var start := sp.value;
    if offset.Some? {
      start := Minus(env, start, offset.value);
    }
    var power := env.parseInt(props.Get("power").value);
    if power.None? {
      return None;
    }
    r := ReadDispChildren(env, DispInfo(start, power.value, None, None, None), node.children);
  }

  /** The sub-block loop of a `dispinfo` block. */
  method ReadDispChildren<N>(env: Env<N>, d0: DispInfo<N>, cs: seq<Node>) returns (r: Option<DispInfo<N>>)
    ensures r == DispChildrenFrom(env, d0, cs, 0)
  {
    var d := d0;
    var k := 0;
    while k < |cs|
      invariant 0 <= k <= |cs|
      invariant DispChildrenFrom(env, d, cs, k) == DispChildrenFrom(env, d0, cs, 0)
    {
      var next := ReadDispChild(env, d, cs[k]);
      if next.None? {
        return None;
      }
      d := next.value;
      k := k + 1;
    }
    return Some(d);
  }

  // ---------------------------------------------------------------------------
  // Sides
  // ---------------------------------------------------------------------------

  /** What a side contributes: its face line, its record for the displacement pass, and
      whether it held a `dispinfo` block. */
  datatype SideOut<N> = SideOut(line: string, side: Side<N>, displaced: bool)

  /** The three plane points, each moved by the origin. */
  function ShiftPlane<N>(env: Env<N>, vs: seq<Vec3<N>>, offset: Option<Vec3<N>>): seq<Vec3<N>>
    requires |vs| == 3
  {
    [Shift(env, vs[0], offset), Shift(env, vs[1], offset), Shift(env, vs[2], offset)]
  }

  /** One side: its `dispinfo` sub-blocks, then its face. A missing property run throws. */
  function ReadSideSpec<N>(env: Env<N>, s: Node, offset: Option<Vec3<N>>, isDetail: bool): Option<SideOut<N>> {
    var disp := SideDispFrom(env, s.children, offset, 0, None, false);
    var ps := ParseProperties(s.props);
    if disp.None? || ps.None? then None
    else FaceSpec(env, ps.value, disp.value, offset, isDetail)
  }

  /** The face of a side from its properties: the plane (three points, or the raw text with
      its parentheses padded when it does not give exactly three), the texture axes, the
      renamed material. A missing key, or an axis that does not parse, throws. */
  function FaceSpec<N>(env: Env<N>, es: seq<Entry>, disp: (Option<DispInfo<N>>, bool), offset: Option<Vec3<N>>, isDetail: bool): Option<SideOut<N>> {
    if !HasKey(es, "plane") then None
    else
      var plane := Lookup(es, "plane").value;
      var vectors := Vector3s(plane, env.parseFloat);
      if !HasKey(es, "uaxis") || !HasKey(es, "vaxis") then None
      else
        var u := ParseAxis(Lookup(es, "uaxis").value, env.parseFloat);
        var v := ParseAxis(Lookup(es, "vaxis").value, env.parseFloat);
        if u.None? || v.None? || !HasKey(es, "material") then None
        else
          var material := RemapMaterial(Lookup(es, "material").value);
          if |vectors| == 3 then
            var pts := ShiftPlane(env, vectors, offset);
            Some(SideOut(FaceLine(env, PlaneLine(env, pts), material, u.value, v.value, isDetail),
                         Side(Some(pts), disp.0, u.value, v.value, material), disp.1))
          else
            Some(SideOut(FaceLine(env, PadParens(plane), material, u.value, v.value, isDetail),
                         Side(None, None, u.value, v.value, material), disp.1))
  }

  /** The sub-block loop body of a side. */
  method ReadSideChild<N>(env: Env<N>, c: Node, offset: Option<Vec3<N>>, disp: Option<DispInfo<N>>, found: bool)
    returns (r: Option<(Option<DispInfo<N>>, bool)>)
    ensures r == SideChild(env, c, offset, disp, found)
  {
    if EqualsIgnoreCase(c.kind, "dispinfo") {
      var d := ReadDispInfo(env, c, offset);
      if d.None? {
        return None;
      }
      return Some((d, true));
    }
    return Some((disp, found));
  }

  /** The sub-block loop of a side. */
  method ReadSideDisp<N>(env: Env<N>, cs: seq<Node>, offset: Option<Vec3<N>>) returns (r: Option<(Option<DispInfo<N>>, bool)>)
    ensures r == SideDispFrom(env, cs, offset, 0, None, false)
  {
    var dispInfo: Option<DispInfo<N>> := None;
    var detected := false;
    var k := 0;
    while k < |cs|
      invariant 0 <= k <= |cs|
      invariant SideDispFrom(env, cs, offset, k, dispInfo, detected) == SideDispFrom(env, cs, offset, 0, None, false)
    {
      var next := ReadSideChild(env, cs[k], offset, dispInfo, detected);
      SideDispStep(env, cs, offset, k, dispInfo, detected, next);
      if next.None? {
        return None;
      }
      dispInfo, detected := next.value.0, next.value.1;
      k := k + 1;
    }
    return Some((dispInfo, detected));
  }

  /** The face line a side writes into the brush text. */
  method WriteFaceLine<N>(env: Env<N>, planeText: string, material: string, u: Axis<N>, v: Axis<N>, isDetail: bool)
    returns (line: string)
    ensures line == FaceLine(env, planeText, material, u, v, isDetail)
  {
    line := "\t\t" + planeText + " " + material;
    line := line + " [ " + Triple(env, u.dir) + " " + env.math.format(u.shift);
    line := line + " ] [ " + Triple(env, v.dir) + " " + env.math.format(v.shift);
    line := line + " ]  " + " 0 " + env.math.format(u.scale) + " " + env.math.format(v.scale);
    if isDetail {
      line := line + " " + NatToString(DetailFlag) + " 0 0";
    }
    line := line + "\n";
  }

  /** The side loop body. */
  method ReadSide<N>(env: Env<N>, s: Node, offset: Option<Vec3<N>>, isDetail: bool) returns (r: Option<SideOut<N>>)
    ensures r == ReadSideSpec(env, s, offset, isDetail)
  {
    var disp := ReadSideDisp(env, s.children, offset);
    var sideProps := EntityProperties.FromString(s.props);
    if disp.None? || sideProps == null {
      return None;
    }
    assert ParseProperties(s.props) == Some(sideProps.entries);
    r := ReadFace(env, sideProps, disp.value, offset, isDetail);
  }

  /** The side loop body from the `plane` key on. */
  method ReadFace<N>(env: Env<N>, sideProps: EntityProperties, disp: (Option<DispInfo<N>>, bool), offset: Option<Vec3<N>>, isDetail: bool)
    returns (r: Option<SideOut<N>>)
    ensures r == FaceSpec(env, sideProps.entries, disp, offset, isDetail)
  {
    if !sideProps.ContainsKey("plane") {
      return None;
    }
    var plane := sideProps.Get("plane").value;
    var vectors := ParseVector3Array(plane, env.parseFloat);
    if !sideProps.ContainsKey("uaxis") || !sideProps.ContainsKey("vaxis") {
      return None;
    }
    var u := ParseAxis(sideProps.Get("uaxis").value, env.parseFloat);
    var v := ParseAxis(sideProps.Get("vaxis").value, env.parseFloat);
    if u.None? || v.None? || !sideProps.ContainsKey("material") {
      return None;
    }
    var material := RemapMaterial(sideProps.Get("material").value);
    var line;
    if |vectors| != 3 {
      line := WriteFaceLine(env, PadParens(plane), material, u.value, v.value, isDetail);
      return Some(SideOut(line, Side(None, None, u.value, v.value, material), disp.1));
    }
    var v0, v1, v2 := vectors[0], vectors[1], vectors[2];
    if offset.Some? {
      v0 := Minus(env, v0, offset.value);
      v1 := Minus(env, v1, offset.value);
      v2 := Minus(env, v2, offset.value);
    }
    var pts := [v0, v1, v2];
    line := WriteFaceLine(env, PlaneLine(env, pts), material, u.value, v.value, isDetail);
    return Some(SideOut(line, Side(Some(pts), disp.0, u.value, v.value, material), disp.1));
  }

  // ---------------------------------------------------------------------------
  // Brushes
  // ---------------------------------------------------------------------------

  /** The brush text so far, the side records and whether any side held a `dispinfo`. */
  datatype BrushAcc<N> = BrushAcc(text: string, sides: seq<Side<N>>, displaced: bool)

  /** How a side of a brush is read. */
  function SideOf<N>(env: Env<N>, offset: Option<Vec3<N>>, isDetail: bool): Node -> Option<SideOut<N>> {
    s => ReadSideSpec(env, s, offset, isDetail)
  }

  /** The sides from `k` on, each read by `read`, appended to `acc`. */
  function SidesFrom<N>(read: Node -> Option<SideOut<N>>, cs: seq<Node>, k: nat, acc: BrushAcc<N>): Option<BrushAcc<N>>
    requires k <= |cs|
    decreases |cs| - k
  {
    if k == |cs| then Some(acc)
    else
      var s := read(cs[k]);
      if s.None? then None
      else SidesFrom(read, cs, k + 1,
                     BrushAcc(acc.text + s.value.line, acc.sides + [s.value.side], acc.displaced || s.value.displaced))
  }

  /** `Side.completeSide` on each side from `k` on, against the whole brush. */
  function CompleteFrom<N>(env: Env<N>, sides: seq<Side<N>>, k: nat, acc: seq<Side<N>>): Option<seq<Side<N>>>
    requires k <= |sides|
    decreases |sides| - k
  {
    if k == |sides| then Some(acc)
    else
      var pts := env.complete(sides[k], sides);
      if pts.None? then None else CompleteFrom(env, sides, k + 1, acc + [sides[k].(points := pts)])
  }

  /** The outputs of `xs` from `k` on, appended to `acc`; the first output that throws
      ends the loop. Every output loop of `Main` has this shape. */
  function Emit<T>(f: T -> Option<string>, xs: seq<T>, k: nat, acc: string): Option<string>
    requires k <= |xs|
    decreases |xs| - k
  {
    if k == |xs| then Some(acc)
    else
      var o := f(xs[k]);
      if o.None? then None else Emit(f, xs, k + 1, acc + o.value)
  }

  /** What a completed side contributes to a displaced brush: its patch when it carries a
      displacement, nothing otherwise. */
  function PatchOf<N>(env: Env<N>): Side<N> -> Option<string> {
    (s: Side<N>) => if s.dispinfo.None? then Some("") else PatchText(env.math, s)
  }

  /** A brush: `{`, one face line per side, `}` — or, when a side held a `dispinfo`, only
      the patches of its displaced sides. A missing property run throws. */
  function BrushOutput<N>(env: Env<N>, b: Node, offset: Option<Vec3<N>>, isDetail: bool): Option<string> {
    if ParseProperties(b.props).None? then None
    else
      var r := SidesFrom(SideOf(env, offset, isDetail), b.children, 0, BrushAcc("\t{\n", [], false));
      if r.None? then None
      else if r.value.displaced then
        var done := CompleteFrom(env, r.value.sides, 0, []);
        if done.None? then None else Emit(PatchOf(env), done.value, 0, "")
      else Some(r.value.text + "\t}\n")
  }

  /** The side loop of a brush. */
  method ReadSides<N>(env: Env<N>, cs: seq<Node>, offset: Option<Vec3<N>>, isDetail: bool) returns (r: Option<BrushAcc<N>>)
    ensures r == SidesFrom(SideOf(env, offset, isDetail), cs, 0, BrushAcc("\t{\n", [], false))
  {
    var brushText := "\t{\n";
    var sides: seq<Side<N>> := [];
    var displacementDetected := false;
    var k := 0;
    while k < |cs|
      invariant 0 <= k <= |cs|
      invariant SidesFrom(SideOf(env, offset, isDetail), cs, k, BrushAcc(brushText, sides, displacementDetected))
             == SidesFrom(SideOf(env, offset, isDetail), cs, 0, BrushAcc("\t{\n", [], false))
    {
      var s := ReadSide(env, cs[k], offset, isDetail);
      if s.None? {
        return None;
      }
      brushText := brushText + s.value.line;
      sides := sides + [s.value.side];
      displacementDetected := displacementDetected || s.value.displaced;
      k := k + 1;
    }
    return Some(BrushAcc(brushText, sides, displacementDetected));
  }

  /** `Side.completeSide` over the sides of a displaced brush. */
  method CompleteSides<N>(env: Env<N>, sides: seq<Side<N>>) returns (r: Option<seq<Side<N>>>)
    ensures r == CompleteFrom(env, sides, 0, [])
  {
    var completed: seq<Side<N>> := [];
    var k := 0;
    while k < |sides|
      invariant 0 <= k <= |sides|
      invariant CompleteFrom(env, sides, k, completed) == CompleteFrom(env, sides, 0, [])
    {
      var pts := env.complete(sides[k], sides);
      if pts.None? {
        return None;
      }
      completed := completed + [sides[k].(points := pts)];
      k := k + 1;
    }
    return Some(completed);
  }

  /** The patch loop over the completed sides. */
  method WritePatches<N>(env: Env<N>, completed: seq<Side<N>>) returns (r: Option<string>)
    ensures r == Emit(PatchOf(env), completed, 0, "")
  {
    var output := "";
    var k := 0;
    while k < |completed|
      invariant 0 <= k <= |completed|
      invariant Emit(PatchOf(env), completed, k, output) == Emit(PatchOf(env), completed, 0, "")
    {
      if completed[k].dispinfo.Some? {
        var patch := WritePatch(env.math, completed[k]);
        if patch.None? {
          return None;
        }
        output := output + patch.value;
      } else {
        assert output + "" == output;
      }
      k := k + 1;
    }
    return Some(output);
  }

  /** The brush loop body. */
  method ConvertBrush<N>(env: Env<N>, b: Node, offset: Option<Vec3<N>>, isDetail: bool) returns (r: Option<string>)
    ensures r == BrushOutput(env, b, offset, isDetail)
  {
    var brushProps := EntityProperties.FromString(b.props);
    if brushProps == null {
      return None;
    }
    var acc := ReadSides(env, b.children, offset, isDetail);
    if acc.None? {
      return None;
    }
    var brushText := acc.value.text + "\t}\n";
    if acc.value.displaced {
      var completed := CompleteSides(env, acc.value.sides);
      if completed.None? {
        return None;
      }
      r := WritePatches(env, completed.value);
    } else {
      r := Some(brushText);
    }
  }

  // ---------------------------------------------------------------------------
  // Entities
  // ---------------------------------------------------------------------------

  /** One property line `\t"key" "value"`. */
  function PropLine(e: Entry): string {
    "\t\"" + e.key + "\" \"" + e.value + "\"\n"
  }

  /** The property lines from `k` on, in enumeration order. */
  function PropsFrom(es: seq<Entry>, k: nat, acc: string): string
    requires k <= |es|
    decreases |es| - k
  {
    if k == |es| then acc else PropsFrom(es, k + 1, acc + PropLine(es[k]))
  }

  /** What a brush sub-block of an entity contributes. */
  function BrushOf<N>(env: Env<N>, offset: Option<Vec3<N>>, isDetail: bool): Node -> Option<string> {
    b => BrushOutput(env, b, offset, isDetail)
  }

  /** The origin offset of an entity: its `origin` parsed, when present and well formed. */
  function EntityOffset<N>(env: Env<N>, es: seq<Entry>): Option<Vec3<N>> {
    if HasKey(es, "origin") then ParseVector3(Lookup(es, "origin").value, env.parseFloat) else None
  }

  /** Whether the entity is detail: its `classname` ends with `detail`, in any case. */
  predicate IsDetail(es: seq<Entry>)
    requires HasKey(es, "classname")
  {
    EndsWithIgnoreCase(Lookup(es, "classname").value, "detail")
  }

  /** An entity: skipped unless of type `world` or `entity`; otherwise `{`, its properties,
      its brushes, `}`. A missing property run or `classname` throws. */
  function EntityOutput<N>(env: Env<N>, e: Node): Option<string> {
    if e.kind != "world" && e.kind != "entity" then Some("")
    else
      var ps := ParseProperties(e.props);
      if ps.None? || !HasKey(ps.value, "classname") then None
      else
        var es := ps.value;
        var brushes := Emit(BrushOf(env, EntityOffset(env, es), IsDetail(es)), e.children, 0, "");
        if brushes.None? then None
        else Some("{\n" + PropsFrom(es, 0, "") + brushes.value + "\n}\n")
  }

  /** What a top-level block contributes. */
  function EntityOf<N>(env: Env<N>): Node -> Option<string> {
    e => EntityOutput(env, e)
  }

  /** The `.map` text of a list of top-level blocks, or `None` when the conversion throws. */
  function Convert<N>(env: Env<N>, entities: seq<Node>): Option<string> {
    Emit(EntityOf(env), entities, 0, "")
  }

  /** The property lines of an entity, in enumeration order. */
  method WriteProperties(props: EntityProperties) returns (text: string)
    ensures text == PropsFrom(props.entries, 0, "")
  {
    text := "";
    var k := 0;
    while k < |props.entries|
      invariant 0 <= k <= |props.entries|
      invariant PropsFrom(props.entries, k, text) == PropsFrom(props.entries, 0, "")
    {
      text := text + PropLine(props.entries[k]);
      k := k + 1;
    }
  }

  /** The brush loop of an entity. */
  method ConvertBrushes<N>(env: Env<N>, cs: seq<Node>, offset: Option<Vec3<N>>, isDetail: bool) returns (r: Option<string>)
    ensures r == Emit(BrushOf(env, offset, isDetail), cs, 0, "")
  {
    var output := "";
    var k := 0;
    while k < |cs|
      invariant 0 <= k <= |cs|
      invariant Emit(BrushOf(env, offset, isDetail), cs, k, output) == Emit(BrushOf(env, offset, isDetail), cs, 0, "")
    {
      var b := ConvertBrush(env, cs[k], offset, isDetail);
      if b.None? {
        return None;
      }
      output := output + b.value;
      k := k + 1;
    }
    return Some(output);
  }

  /** The entity loop body. */
  method ConvertEntity<N>(env: Env<N>, e: Node) returns (r: Option<string>)
    ensures r == EntityOutput(env, e)
  {
    if e.kind != "world" && e.kind != "entity" {
      return Some("");
    }
    var props := EntityProperties.FromString(e.props);
    if props == null {
      return None;
    }
    assert ParseProperties(e.props) == Some(props.entries);
    var entityOffset: Option<Vec3<N>> := None;
    if props.ContainsKey("origin") {
      entityOffset := ParseVector3(props.Get("origin").value, env.parseFloat);
    }
    if !props.ContainsKey("classname") {
      return None;
    }
    var isDetail := EndsWithIgnoreCase(props.Get("classname").value, "detail");
    var lines := WriteProperties(props);
    var brushes := ConvertBrushes(env, e.children, entityOffset, isDetail);
    if brushes.None? {
      return None;
    }
    return Some("{\n" + lines + brushes.value + "\n}\n");
  }

  /** `Main` between reading the file and writing the `.map` file. */
  method ConvertAll<N>(env: Env<N>, entities: seq<Node>) returns (r: Option<string>)
    ensures r == Convert(env, entities)
  {
    var output := "";
    var k := 0;
    while k < |entities|
      invariant 0 <= k <= |entities|
      invariant Emit(EntityOf(env), entities, k, output) == Convert(env, entities)
    {
      var e := ConvertEntity(env, entities[k]);
      if e.None? {
        return None;
      }
      output := output + e.value;
      k := k + 1;
    }
    return Some(output);
  }
}
