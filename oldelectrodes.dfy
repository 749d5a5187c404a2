/**
 * The older `sort_rawemg` (openhdemg/otbelectrodes.py).  Its tables and
 * matrix dictionaries are identical to those of module Electrodes, which
 * this module reuses; what differs is the dispatch on SOURCE and the split
 * into matrix columns by label-inclusive ranges.
 */
module OldElectrodes {
  import opened Common
  import opened EmgRecord
  import opened Electrodes

  /** `frame.loc[:, a:b]` on relabelled columns: channels a..b, both included, clamped. */
  function ColumnLocBlock(f: Frame, a: int, b: int): (g: Frame)
    ensures g.rows == f.rows && g.cols == LocSlice(f.cols, a, b)
  {
    Frame(f.rows, LocSlice(f.cols, a, b))
  }

  /** The inclusive channel ranges of the matrix columns, None for a code that is not split. */
  function OldBlockRanges(code: string, orientation: int): (r: Option<seq<(int, int)>>)
    ensures r.Some? <==> code in ["GR08MM1305", "GR04MM1305", "GR10MM0808"] && orientation in [0, 180]
    ensures r.Some? ==> |r.value| == MatrixShape(code).1
    ensures r.Some? ==> forall k :: 0 <= k < |r.value| ==>
      r.value[k] == (MatrixShape(code).0 * k, MatrixShape(code).0 * k + MatrixShape(code).0 - 1)
  {
    if orientation !in [0, 180] then None
    else if code in ["GR08MM1305", "GR04MM1305"] then Some([(0, 12), (13, 25), (26, 38), (39, 51), (52, 64)])
    else if code == "GR10MM0808" then
      Some([(0, 7), (8, 15), (16, 23), (24, 31), (32, 39), (40, 47), (48, 55), (56, 63)])
    else None
  }

  /**
   * The older `sort_rawemg`: OTB files are reindexed by the table of their
   * matrix (any other code or orientation leaves the table unset, a
   * NameError); DEMUSE files are copied; any other SOURCE leaves the result
   * unset (NameError).  With `dividebycolumn` a supported matrix is split
   * into its inclusive column ranges; anything else is returned whole.
   */
  function OldSortRawemg(source: string, raw: Frame, code: string, orientation: int, dividebycolumn: bool)
    : (r: Result<SortedRaw>)
    ensures source != "OTB" && source != "DEMUSE" ==> r == Err(NameError)
    ensures source == "OTB" && SortingTable(code, orientation).None? ==> r == Err(NameError)
    ensures source == "DEMUSE" || (source == "OTB" && SortingTable(code, orientation).Some?) ==> r.Ok?
    ensures r.Ok? ==>
      var s := if source == "OTB" then ReindexColumns(raw, SortingTable(code, orientation).value) else raw;
      (source == "DEMUSE" ==> s == raw)
      && (dividebycolumn && OldBlockRanges(code, orientation).Some? ==>
            r.value.ByColumn? && |r.value.keys| == |r.value.blocks| == MatrixShape(code).1
            && forall k :: 0 <= k < |r.value.blocks| ==>
                 r.value.keys[k] == ColumnKey(k)
                 && r.value.blocks[k] == ColumnLocBlock(s, OldBlockRanges(code, orientation).value[k].0, OldBlockRanges(code, orientation).value[k].1))
      && (!(dividebycolumn && OldBlockRanges(code, orientation).Some?) ==> r.value == Flat(s))
  {
    var sorted :=
      if source == "OTB" then
        var t := SortingTable(code, orientation);
        if t.None? then Err(NameError) else Ok(ReindexColumns(raw, t.value))
      else if source == "DEMUSE" then Ok(raw)
      else Err(NameError);
    if sorted.Err? then Err(sorted.error)
    else
      var s := sorted.value;
      var ranges := OldBlockRanges(code, orientation);
      if dividebycolumn && ranges.Some? then
        Ok(ByColumn(seq(|ranges.value|, k requires 0 <= k < |ranges.value| => ColumnKey(k)),
                    seq(|ranges.value|, k requires 0 <= k < |ranges.value| =>
                      ColumnLocBlock(s, ranges.value[k].0, ranges.value[k].1))))
      else Ok(Flat(s))
  }

  /**
   * On a sorted frame with rows * cols channels, each inclusive range
   * a..a+rows-1 is the library's block [a, a+rows): both versions split the
   * channels identically.
   */
  lemma OldBlocksMatchLibrary(f: Frame, code: string, orientation: int, k: nat)
    requires OldBlockRanges(code, orientation).Some? && k < MatrixShape(code).1
    requires |f.cols| == MatrixShape(code).0 * MatrixShape(code).1
    ensures var (a, b) := OldBlockRanges(code, orientation).value[k];
      ColumnLocBlock(f, a, b) == ColumnBlock(f, MatrixShape(code).0 * k, MatrixShape(code).0 * (k + 1))
  {
    var (nr, nc) := MatrixShape(code);
    var (a, b) := OldBlockRanges(code, orientation).value[k];
    assert a == nr * k && b == nr * k + nr - 1;
    assert nr * (k + 1) == nr * k + nr;
    assert nr * k + nr <= nr * nc by {
      MulMonotone(nr, k + 1, nc);
    }
  }
}
