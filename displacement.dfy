/** Displacement data: the `row0`, `row1`, ... keys of a displacement's `normals`,
    `distances` and `alphas` blocks, the corner arithmetic that orients a patch, and the
    patch text the converter writes in place of a displaced brush. */
module Displacement {
  import opened Wrappers
  import opened Text
  import opened Properties
  import opened Vectors

  // ---------------------------------------------------------------------------
  // Row keys
  // ---------------------------------------------------------------------------

  /** The key `$"row{row}"`. */
  function RowKey(i: nat): string {
    "row" + NatToString(i)
  }

  lemma RowKeyFolded(i: nat)
    ensures Fold(RowKey(i)) == RowKey(i)
  {
    var k := RowKey(i);
    forall j | 0 <= j < |k| ensures LowerChar(k[j]) == k[j] {
      if j >= 3 {
        assert k[j] == NatToString(i)[j - 3];
      }
    }
  }

  lemma RowKeyInjective(i: nat, j: nat)
    requires RowKey(i) == RowKey(j)
    ensures i == j
  {
    assert NatToString(i) == RowKey(i)[3..];
    assert NatToString(j) == RowKey(j)[3..];
    NatToStringInjective(i, j);
  }

  /** Rows `0` to `k - 1` are all present. */
  predicate RowsPresent(es: seq<Entry>, k: nat) {
    forall i :: 0 <= i < k ==> HasKey(es, RowKey(i))
  }

  function RowKeySet(k: nat): (ks: set<string>)
    ensures forall x :: x in ks ==> exists i :: 0 <= i < k && x == RowKey(i)
  {
    if k == 0 then {} else RowKeySet(k - 1) + {RowKey(k - 1)}
  }

  lemma {:induction false} RowKeySetSize(k: nat)
    ensures |RowKeySet(k)| == k
  {
    if k > 0 {
      RowKeySetSize(k - 1);
      if RowKey(k - 1) in RowKeySet(k - 1) {
        var i :| 0 <= i < k - 1 && RowKey(k - 1) == RowKey(i);
        RowKeyInjective(k - 1, i);
      }
    }
  }

  /** Distinct row keys are distinct dictionary keys, so a dictionary holds no more rows
      than entries: the scan of `row0`, `row1`, ... stops. */
  lemma RowsBounded(es: seq<Entry>, k: nat)
    requires DistinctKeys(es) && RowsPresent(es, k)
    ensures k <= |es|
  {
    forall x | x in RowKeySet(k) ensures x in KeySet(es) {
      var i :| 0 <= i < k && x == RowKey(i);
      HasKeyIffInKeySet(es, RowKey(i));
      RowKeyFolded(i);
    }
    RowKeySetSize(k);
    KeySetSize(es);
    SubsetSize(RowKeySet(k), KeySet(es));
  }

  lemma SubsetSize<T>(a: set<T>, b: set<T>)
    requires a <= b
    ensures |a| <= |b|
  {
    assert b == a + (b - a);
  }

  /** Number of consecutive rows from `row{k}` on, given rows before `k` are present. */
  function RowCountFrom(es: seq<Entry>, k: nat): (n: nat)
    requires DistinctKeys(es) && RowsPresent(es, k)
    ensures k <= n && RowsPresent(es, n) && !HasKey(es, RowKey(n))
    decreases |es| - k
  {
    RowsBounded(es, k);
    if HasKey(es, RowKey(k)) then
      RowsBounded(es, k + 1);
      RowCountFrom(es, k + 1)
    else k
  }

  /** How many rows the `while (ContainsKey($"row{row}"))` scans read: all of `row0` up to
      the first missing one. */
  function RowCount(es: seq<Entry>): (n: nat)
    requires DistinctKeys(es)
    ensures RowsPresent(es, n) && !HasKey(es, RowKey(n))
  {
    RowCountFrom(es, 0)
  }

  /** The row count is the only count with all rows before it present and itself missing. */
  lemma RowCountUnique(es: seq<Entry>, k: nat)
    requires DistinctKeys(es) && RowsPresent(es, k) && !HasKey(es, RowKey(k))
    ensures RowCount(es) == k
  {
  }

  /** The text of row `i`. */
  function RowText(es: seq<Entry>, i: nat): string
    requires HasKey(es, RowKey(i))
  {
    Lookup(es, RowKey(i)).value
  }

  /** The texts of rows `k` onwards, in row order. */
  function RowTexts(es: seq<Entry>, k: nat): (ts: seq<string>)
    requires DistinctKeys(es) && k <= RowCount(es)
    ensures |ts| == RowCount(es) - k
    decreases RowCount(es) - k
  {
    if k == RowCount(es) then [] else [RowText(es, k)] + RowTexts(es, k + 1)
  }

  /** Entry `i - k` of `RowTexts(es, k)` is the text of `row{i}`. */
  lemma {:induction false} RowTextAt(es: seq<Entry>, k: nat, i: nat)
    requires DistinctKeys(es) && k <= i < RowCount(es)
    ensures RowTexts(es, k)[i - k] == RowText(es, i)
    decreases i - k
  {
    if k < i {
      RowTextAt(es, k + 1, i);
      var ts, tail := RowTexts(es, k), RowTexts(es, k + 1);
      assert ts == [RowText(es, k)] + tail;
      assert ts[i - k] == tail[i - (k + 1)];
    }
  }

  /** `parseVector3Array` applied to each text. */
  function VectorRows<N>(ts: seq<string>, parse: string -> Option<N>): (rs: seq<seq<Vec3<N>>>)
    ensures |rs| == |ts|
  {
    if ts == [] then [] else [Vector3s(ts[0], parse)] + VectorRows(ts[1..], parse)
  }

  lemma VectorRowsCons<N>(t: string, ts: seq<string>, parse: string -> Option<N>)
    ensures VectorRows([t] + ts, parse) == [Vector3s(t, parse)] + VectorRows(ts, parse)
  {
    assert ([t] + ts)[1..] == ts;
  }

  lemma {:induction false} VectorRowAt<N>(ts: seq<string>, parse: string -> Option<N>, i: nat, t: string)
    requires i < |ts| && ts[i] == t
    ensures VectorRows(ts, parse)[i] == Vector3s(t, parse)
  {
    if i > 0 {
      VectorRowAt(ts[1..], parse, i - 1, t);
    }
  }

  /** `parseDoubleArray` applied to each text. */
  function NumberRows<N>(ts: seq<string>, parse: string -> Option<N>): (rs: seq<Option<seq<N>>>)
    ensures |rs| == |ts|
  {
    if ts == [] then [] else [ParseAll(Components(ts[0]), parse)] + NumberRows(ts[1..], parse)
  }

  lemma NumberRowsCons<N>(t: string, ts: seq<string>, parse: string -> Option<N>)
    ensures NumberRows([t] + ts, parse) == [ParseAll(Components(t), parse)] + NumberRows(ts, parse)
  {
    assert ([t] + ts)[1..] == ts;
  }

  lemma {:induction false} NumberRowAt<N>(ts: seq<string>, parse: string -> Option<N>, i: nat)
    requires i < |ts|
    ensures NumberRows(ts, parse)[i] == ParseAll(Components(ts[i]), parse)
  {
    if i > 0 {
      NumberRowAt(ts[1..], parse, i - 1);
    }
  }

  /** The rows of a `normals` block. */
  function NormalRows<N>(es: seq<Entry>, parse: string -> Option<N>): seq<seq<Vec3<N>>>
    requires DistinctKeys(es)
  {
    VectorRows(RowTexts(es, 0), parse)
  }

  /** The `normals` block holds one list per row, and list `i` is what `parseVector3Array`
      makes of the text of `row{i}`. */
  lemma NormalRowsMeaning<N>(es: seq<Entry>, parse: string -> Option<N>, i: nat)
    requires DistinctKeys(es) && i < RowCount(es)
    ensures |NormalRows(es, parse)| == RowCount(es)
    ensures NormalRows(es, parse)[i] == Vector3s(RowText(es, i), parse)
  {
    var ts := RowTexts(es, 0);
    assert NormalRows(es, parse) == VectorRows(ts, parse);
    RowTextAt(es, 0, i);
    VectorRowAt(ts, parse, i, RowText(es, i));
  }

  /** All the rows' numbers when every row parsed; `None` from the first row that did not
      (the `FormatException` ends the conversion). */
  function Collect<T>(rs: seq<Option<T>>): Option<seq<T>> {
    if rs == [] then Some([])
    else if rs[0].None? then None
    else Prepend([rs[0].value], Collect(rs[1..]))
  }

  /** Collecting succeeds exactly when every row is present. */
  lemma {:induction false} CollectSucceeds<T>(rs: seq<Option<T>>)
    ensures Collect(rs).Some? <==> forall i :: 0 <= i < |rs| ==> rs[i].Some?
  {
    if rs != [] {
      CollectSucceeds(rs[1..]);
      assert forall i :: 1 <= i < |rs| ==> rs[i] == rs[1..][i - 1];
    }
  }

  /** A successful collection keeps every row, in order. */
  lemma {:induction false} CollectValues<T>(rs: seq<Option<T>>)
    requires Collect(rs).Some?
    ensures |Collect(rs).value| == |rs|
    ensures forall i :: 0 <= i < |rs| ==> rs[i].Some? && Collect(rs).value[i] == rs[i].value
  {
    if rs != [] {
      CollectValues(rs[1..]);
      assert forall i :: 1 <= i < |rs| ==> rs[i] == rs[1..][i - 1];
    }
  }

  /** The rows of a `distances` or `alphas` block. */
  function ScalarRows<N>(es: seq<Entry>, parse: string -> Option<N>): Option<seq<seq<N>>>
    requires DistinctKeys(es)
  {
    Collect(NumberRows(RowTexts(es, 0), parse))
  }

  function Prepend<T>(xs: seq<T>, r: Option<seq<T>>): Option<seq<T>> {
    if r.Some? then Some(xs + r.value) else None
  }

  lemma PrependNil<T>(r: Option<seq<T>>)
    ensures Prepend([], r) == r
  {
    if r.Some? {
      assert [] + r.value == r.value;
    }
  }

  lemma PrependTwice<T>(xs: seq<T>, ys: seq<T>, r: Option<seq<T>>)
    ensures Prepend(xs, Prepend(ys, r)) == Prepend(xs + ys, r)
  {
    if r.Some? {
      assert xs + (ys + r.value) == xs + ys + r.value;
    }
  }

  /** The numbers `parseDoubleArray` reads from row `i`. */
  function RowNumbers<N>(es: seq<Entry>, i: nat, parse: string -> Option<N>): Option<seq<N>>
    requires HasKey(es, RowKey(i))
  {
    ParseAll(Components(RowText(es, i)), parse)
  }

  /** The scalar rows succeed exactly when every row parses, and then hold each row's
      numbers in row order. */
  lemma {:induction false} ScalarRowsMeaning<N>(es: seq<Entry>, parse: string -> Option<N>)
    requires DistinctKeys(es)
    ensures ScalarRows(es, parse).Some? <==> forall i :: 0 <= i < RowCount(es) ==> RowNumbers(es, i, parse).Some?
    ensures ScalarRows(es, parse).Some? ==>
      |ScalarRows(es, parse).value| == RowCount(es) &&
      forall i :: 0 <= i < RowCount(es) ==> ScalarRows(es, parse).value[i] == RowNumbers(es, i, parse).value
  {
    var ts := RowTexts(es, 0);
    var rs := NumberRows(ts, parse);
    forall i | 0 <= i < RowCount(es) ensures rs[i] == RowNumbers(es, i, parse) {
      RowTextAt(es, 0, i);
      assert ts[i - 0] == ts[i];
      NumberRowAt(ts, parse, i);
    }
    CollectSucceeds(rs);
    if Collect(rs).Some? {
      CollectValues(rs);
    }
  }

  /** One step of the `normals` scan: row `row`'s vectors move from the rows still to read
      to the rows read. */
  lemma NormalScanStep<N>(es: seq<Entry>, row: nat, rows: seq<seq<Vec3<N>>>, parse: string -> Option<N>)
    requires DistinctKeys(es) && row < RowCount(es)
    ensures rows + [Vector3s(RowText(es, row), parse)] + VectorRows(RowTexts(es, row + 1), parse)
         == rows + VectorRows(RowTexts(es, row), parse)
  {
    VectorRowsCons(RowText(es, row), RowTexts(es, row + 1), parse);
  }

  /** The `normals` scan: one `parseVector3Array` row per present key. */
  method ScanNormalRows<N>(props: EntityProperties, parse: string -> Option<N>)
    returns (rows: seq<seq<Vec3<N>>>)
    requires props.Valid()
    ensures rows == NormalRows(props.entries, parse)
  {
    rows := [];
    var row := 0;
    while props.ContainsKey(RowKey(row))
      invariant RowsPresent(props.entries, row) && row <= RowCount(props.entries)
      invariant rows + VectorRows(RowTexts(props.entries, row), parse) == NormalRows(props.entries, parse)
      decreases |props.entries| - row
    {
      RowsBounded(props.entries, row + 1);
      var v := ParseVector3Array(props.Get(RowKey(row)).value, parse);
      NormalScanStep(props.entries, row, rows, parse);
      rows := rows + [v];
      row := row + 1;
    }
    RowCountUnique(props.entries, row);
    assert rows + [] == rows;
  }

  /** The `distances` and `alphas` scans: one `parseDoubleArray` row per present key; a
      `FormatException` in any row is `None`. */
  method ScanScalarRows<N>(props: EntityProperties, parse: string -> Option<N>)
    returns (rows: Option<seq<seq<N>>>)
    requires props.Valid()
    ensures rows == ScalarRows(props.entries, parse)
  {
    var acc: seq<seq<N>> := [];
    var row := 0;
    PrependNil(ScalarRows(props.entries, parse));
    while props.ContainsKey(RowKey(row))
      invariant RowsPresent(props.entries, row) && row <= RowCount(props.entries)
      invariant Prepend(acc, Collect(NumberRows(RowTexts(props.entries, row), parse))) == ScalarRows(props.entries, parse)
      decreases |props.entries| - row
    {
      RowsBounded(props.entries, row + 1);
      var v := ParseDoubleArray(props.Get(RowKey(row)).value, parse);
      NumberRowsCons(RowText(props.entries, row), RowTexts(props.entries, row + 1), parse);
      var rs := NumberRows(RowTexts(props.entries, row), parse);
      assert v == rs[0] && rs[1..] == NumberRows(RowTexts(props.entries, row + 1), parse);
      if v.None? {
        return None;
      }
      PrependTwice(acc, [v.value], Collect(rs[1..]));
      acc := acc + [v.value];
      row := row + 1;
    }
    RowCountUnique(props.entries, row);
    assert acc + [] == acc;
    return Some(acc);
  }
}
