/**
 * The loaders of `library/openfiles.py`: DEMUSE `.mat` files, OTBiolab+
 * `.mat` files and custom CSV files, each turned into an `emgfile`.
 *
 * A decoded OTB `.mat` or CSV file is a `Table`: named columns of equal
 * length.  Column filters (`df.filter(regex=...)`) are modelled for
 * patterns that are alternations of literal words: a column is selected
 * when its name contains one of the words.
 */
module OpenFiles {
  import opened Common
  import opened EmgRecord
  import Electrodes
  import Tools

  // ---------------------------------------------------------------------
  // Named tables and column filters

  /** A DataFrame with column names, in column order. */
  datatype Table = Table(rows: nat, names: seq<string>, cols: seq<Column>)

  predicate TableOk(t: Table)
  {
    |t.names| == |t.cols| && forall c :: 0 <= c < |t.cols| ==> |t.cols[c]| == t.rows
  }

  /** `re.search(w1|w2|..., name)` for literal words. */
  predicate MatchesAny(name: string, pats: seq<string>)
  {
    exists k :: 0 <= k < |pats| && Contains(name, pats[k])
  }

  /** The positions whose name matches (`keep`) or does not match (`!keep`), in order. */
  function Where(names: seq<string>, pats: seq<string>, keep: bool): (idx: seq<nat>)
    ensures forall k :: 0 <= k < |idx| ==> idx[k] < |names| && MatchesAny(names[idx[k]], pats) == keep
    ensures forall i :: 0 <= i < |names| && MatchesAny(names[i], pats) == keep ==> i in idx
    ensures forall i, j :: 0 <= i < j < |idx| ==> idx[i] < idx[j]
  {
    if names == [] then []
    else
      var n := |names| - 1;
      var rest := Where(names[..n], pats, keep);
      assert forall i :: 0 <= i < n ==> names[..n][i] == names[i];
      if MatchesAny(names[n], pats) == keep then rest + [n] else rest
  }

  /** The sub-table made of the columns at `idx`. */
  function Select(t: Table, idx: seq<nat>): (s: Table)
    requires TableOk(t)
    requires forall k :: 0 <= k < |idx| ==> idx[k] < |t.cols|
    ensures TableOk(s) && s.rows == t.rows && |s.cols| == |idx|
    ensures forall k :: 0 <= k < |idx| ==> s.names[k] == t.names[idx[k]] && s.cols[k] == t.cols[idx[k]]
  {
    Table(t.rows, seq(|idx|, k requires 0 <= k < |idx| => t.names[idx[k]]),
          seq(|idx|, k requires 0 <= k < |idx| => t.cols[idx[k]]))
  }

  /** `df.filter(regex=pattern)`: the matching columns, in order. */
  function Filter(t: Table, pats: seq<string>): (s: Table)
    requires TableOk(t)
    ensures TableOk(s) && s.rows == t.rows
    ensures forall k :: 0 <= k < |s.cols| ==> MatchesAny(s.names[k], pats)
  {
    Select(t, Where(t.names, pats, true))
  }

  /** `df[df.columns.drop(list(df.filter(regex=pattern)))]`: the other columns, in order. */
  function Drop(t: Table, pats: seq<string>): (s: Table)
    requires TableOk(t)
    ensures TableOk(s) && s.rows == t.rows
    ensures forall k :: 0 <= k < |s.cols| ==> !MatchesAny(s.names[k], pats)
  {
    Select(t, Where(t.names, pats, false))
  }

  /** `df.empty`: no rows or no columns. */
  predicate Empty(t: Table)
  {
    t.rows == 0 || |t.cols| == 0
  }

  /** The table with its columns relabelled 0..k-1. */
  function Data(t: Table): (f: Frame)
    requires TableOk(t)
    ensures FrameOk(f) && f.rows == t.rows && f.cols == t.cols
  {
    Frame(t.rows, t.cols)
  }

  // ---------------------------------------------------------------------
  // The OTB grid lookups (`get_otb_ied`, `get_otb_rawsignal`)

  /** pandas' `display.max_seq_items`: a longer Index prints only its two ends. */
  const MaxSeqItems: nat := 100

  /** The number of names printed at each end of a long Index. */
  const PrintedEnds: nat := 10

  /**
   * The column names `str(df.columns)` shows: all of them for at most
   * `MaxSeqItems` columns, otherwise the first and the last ten around "...".
   */
  function PrintedNames(names: seq<string>): (p: seq<string>)
    ensures |names| <= MaxSeqItems ==> p == names
    ensures |names| > MaxSeqItems ==> |p| == 2 * PrintedEnds
    ensures |names| > MaxSeqItems ==> forall k :: 0 <= k < PrintedEnds ==> p[k] == names[k]
    ensures |names| > MaxSeqItems ==>
      forall k :: |names| - PrintedEnds <= k < |names| ==> p[k - |names| + 2 * PrintedEnds] == names[k]
  {
    if |names| <= MaxSeqItems then names else names[..PrintedEnds] + names[|names| - PrintedEnds..]
  }

  /**
   * `code in str(df.columns)`: some printed column name mentions the code.
   * A code has no quote, comma or blank, so it cannot straddle two names.
   */
  predicate Mentioned(names: seq<string>, code: string)
  {
    var p := PrintedNames(names);
    exists i :: 0 <= i < |p| && Contains(p[i], code)
  }

  /** Up to `MaxSeqItems` columns, a code is mentioned exactly when some column name contains it. */
  lemma MentionedInShortIndex(names: seq<string>, code: string)
    requires |names| <= MaxSeqItems
    ensures Mentioned(names, code) <==> exists i :: 0 <= i < |names| && Contains(names[i], code)
  {
  }

  /** A mentioned code is contained in some column name: the printed names are column names. */
  lemma MentionedIsNamed(names: seq<string>, code: string)
    requires Mentioned(names, code)
    ensures exists i :: 0 <= i < |names| && Contains(names[i], code)
  {
    var p := PrintedNames(names);
    var i :| 0 <= i < |p| && Contains(p[i], code);
    if |names| > MaxSeqItems {
      if i < PrintedEnds {
        assert p[i] == names[i];
      } else {
        var k := i + |names| - 2 * PrintedEnds;
        assert p[k - |names| + 2 * PrintedEnds] == names[k];
      }
    }
  }

  /**
   * Beyond `MaxSeqItems` columns, a code named only by the hidden middle
   * columns is not mentioned.
   */
  lemma HiddenNamesNotMentioned(names: seq<string>, code: string)
    requires |names| > MaxSeqItems
    requires forall k :: 0 <= k < PrintedEnds ==> !Contains(names[k], code)
    requires forall k :: |names| - PrintedEnds <= k < |names| ==> !Contains(names[k], code)
    ensures !Mentioned(names, code)
  {
    var p := PrintedNames(names);
    forall i | 0 <= i < |p|
      ensures !Contains(p[i], code)
    {
      if i < PrintedEnds {
        assert p[i] == names[i];
      } else {
        var k := i + |names| - 2 * PrintedEnds;
        assert p[k - |names| + 2 * PrintedEnds] == names[k];
      }
    }
  }

  /** The first of `codes` that the printed column names mention. */
  function FirstCode(names: seq<string>, codes: seq<string>): (r: Option<string>)
    ensures r.None? <==> forall j :: 0 <= j < |codes| ==> !Mentioned(names, codes[j])
    ensures r.Some? ==> exists j :: 0 <= j < |codes| && codes[j] == r.value && Mentioned(names, codes[j])
                                  && forall i :: 0 <= i < j ==> !Mentioned(names, codes[i])
  {
    if codes == [] then None
    else if Mentioned(names, codes[0]) then Some(codes[0])
    else
      var r := FirstCode(names, codes[1..]);
      assert forall j :: 1 <= j < |codes| ==> codes[1..][j - 1] == codes[j];
      r
  }

  /** The grid code of a table, searched in the order of the electrode dicts. */
  function GridOf(names: seq<string>): (r: Option<string>)
    ensures r.Some? ==> r.value in Electrodes.OtbElectrodesIed && r.value in Electrodes.OtbElectrodesNelectrodes
  {
    var r := FirstCode(names, Electrodes.OtbElectrodesTuple);
    Electrodes.ElectrodeTablesShareKeys();
    assert r.Some? ==> r.value in (set code | code in Electrodes.OtbElectrodesTuple);
    r
  }

  /** The `for matrix in ...keys()` search shared by `get_otb_ied` and `get_otb_rawsignal`. */
  method FindGrid(names: seq<string>) returns (r: Option<string>)
    ensures r == GridOf(names)
  {
    var codes := Electrodes.OtbElectrodesTuple;
    for j := 0 to |codes|
      invariant FirstCode(names, codes[j..]) == FirstCode(names, codes)
    {
      assert codes[j..][0] == codes[j] && codes[j..][1..] == codes[j + 1..];
      if Mentioned(names, codes[j]) {
        return Some(codes[j]);
      }
    }
    assert codes[|codes|..] == [];
    return None;
  }

  /** `get_otb_ied`: the IED of the grid named in the columns, NaN when none is. */
  function OtbIed(t: Table): (ied: Float)
    ensures ied.NaN? <==> GridOf(t.names).None?
  {
    var c := GridOf(t.names);
    if c.None? then NaN else Num(Electrodes.OtbElectrodesIed[c.value])
  }

  /**
   * A frame of more than `MaxSeqItems` columns whose first and last ten
   * names hold no grid code has no grid, whatever its middle columns say,
   * so `get_otb_ied` gives NaN.
   */
  lemma HiddenGridNoIed(t: Table)
    requires |t.names| > MaxSeqItems
    requires forall j, k :: 0 <= j < |Electrodes.OtbElectrodesTuple| && 0 <= k < PrintedEnds ==>
               !Contains(t.names[k], Electrodes.OtbElectrodesTuple[j])
    requires forall j, k :: 0 <= j < |Electrodes.OtbElectrodesTuple| && |t.names| - PrintedEnds <= k < |t.names| ==>
               !Contains(t.names[k], Electrodes.OtbElectrodesTuple[j])
    ensures GridOf(t.names).None? && OtbIed(t).NaN?
  {
    var codes := Electrodes.OtbElectrodesTuple;
    forall j | 0 <= j < |codes|
      ensures !Mentioned(t.names, codes[j])
    {
      HiddenNamesNotMentioned(t.names, codes[j]);
    }
  }

  /**
   * The IED is the table value of the first grid code, in dict order, that
   * the printed column names mention.
   */
  lemma OtbIedOfFirstGrid(t: Table, j: nat)
    requires j < |Electrodes.OtbElectrodesTuple|
    requires Mentioned(t.names, Electrodes.OtbElectrodesTuple[j])
    requires forall i :: 0 <= i < j ==> !Mentioned(t.names, Electrodes.OtbElectrodesTuple[i])
    ensures Electrodes.OtbElectrodesTuple[j] in Electrodes.OtbElectrodesIed
    ensures OtbIed(t) == Num(Electrodes.OtbElectrodesIed[Electrodes.OtbElectrodesTuple[j]])
  {
    var codes := Electrodes.OtbElectrodesTuple;
    var c := GridOf(t.names);
    var k :| 0 <= k < |codes| && codes[k] == c.value && Mentioned(t.names, codes[k])
             && forall i :: 0 <= i < k ==> !Mentioned(t.names, codes[i]);
    assert k == j;
    Electrodes.ElectrodeTablesShareKeys();
    assert codes[j] in (set code | code in codes);
  }

  /** The fixed part of the drop pattern of `get_otb_rawsignal`. */
  const BasePattern: seq<string> := ["Source for decomposition", "Decomposition of", "acquired data", "performed path"]

  /**
   * The raw signal left after dropping the columns that match `pats`: an
   * unrecognised grid and a channel count other than the grid's electrode
   * count are ValueErrors.
   */
  function OtbRawFrom(t: Table, pats: seq<string>): (r: Result<Frame>)
    requires TableOk(t)
    ensures GridOf(Drop(t, pats).names).None? ==> r == Err(ValueError)
    ensures r.Err? ==> r.error == ValueError
    ensures r.Ok? <==> GridOf(Drop(t, pats).names).Some?
                       && |Drop(t, pats).cols| == Electrodes.OtbElectrodesNelectrodes[GridOf(Drop(t, pats).names).value]
    ensures r.Ok? ==> r.value == Data(Drop(t, pats))
  {
    var e := Drop(t, pats);
    var c := GridOf(e.names);
    if c.None? then Err(ValueError)
    else if |e.cols| != Electrodes.OtbElectrodesNelectrodes[c.value] then Err(ValueError)
    else Ok(Data(e))
  }

  /**
   * `get_otb_rawsignal` as written: the extras pattern is concatenated to
   * the base pattern as a string, so `None` raises TypeError.
   */
  function OtbRawSignalAsWritten(t: Table, extras: Option<string>): (r: Result<Frame>)
    requires TableOk(t)
    ensures extras.None? ==> r == Err(TypeError)
    ensures extras.Some? ==> r == OtbRawFrom(t, BasePattern + [extras.value])
  {
    if extras.None? then Err(TypeError) else OtbRawFrom(t, BasePattern + [extras.value])
  }

  /** `get_otb_rawsignal` as evidently intended: without extras only the base pattern is dropped. */
  function OtbRawSignal(t: Table, extras: Option<string>): (r: Result<Frame>)
    requires TableOk(t)
    ensures extras.None? ==> r == OtbRawFrom(t, BasePattern)
    ensures extras.Some? ==> r == OtbRawSignalAsWritten(t, extras)
  {
    if extras.None? then OtbRawFrom(t, BasePattern) else OtbRawFrom(t, BasePattern + [extras.value])
  }

  // ---------------------------------------------------------------------
  // `get_otb_decomposition`, `get_otb_refsignal`, `get_otb_extras`

  /** IPTS and BINARY_MUS_FIRING: the "Source for decomposition" and "Decomposition of" columns, renumbered. */
  function OtbDecomposition(t: Table): (r: Result<(Frame, Frame)>)
    requires TableOk(t)
    ensures r.Err? <==> Empty(Filter(t, ["Source for decomposition"])) || Empty(Filter(t, ["Decomposition of"]))
    ensures r.Err? ==> r.error == ValueError
    ensures r.Ok? ==> r.value.0 == Data(Filter(t, ["Source for decomposition"]))
    ensures r.Ok? ==> r.value.1 == Data(Filter(t, ["Decomposition of"]))
    ensures r.Ok? ==> r.value.0.rows > 0 && |r.value.0.cols| > 0 && |r.value.1.cols| > 0
  {
    var ipts := Filter(t, ["Source for decomposition"]);
    if Empty(ipts) then Err(ValueError)
    else
      var binary := Filter(t, ["Decomposition of"]);
      if Empty(binary) then Err(ValueError)
      else Ok((Data(ipts), Data(binary)))
  }

  /** The Python values a `refsig` list may hold. */
  datatype PyValue = PyBool(b: bool) | PyInt(i: int) | PyStr(s: string) | PyNone

  /** `v in [True, False]`: list membership uses `==`, so the integers 0 and 1 pass as well. */
  predicate InTrueFalse(v: PyValue)
  {
    v.PyBool? || (v.PyInt? && (v.i == 0 || v.i == 1))
  }

  /**
   * Every column a non-empty filter result holds, in order, or the
   * one-column placeholder.  The source relabels only the first column 0;
   * the others keep their names, which a positional Frame does not carry.
   */
  function RefColumns(t: Table, pattern: string): (f: Frame)
    requires TableOk(t)
    ensures FrameOk(f)
    ensures Empty(Filter(t, [pattern])) <==> f == EmptyPlaceholder()
  {
    var s := Filter(t, [pattern]);
    if Empty(s) then EmptyPlaceholder() else Data(s)
  }

  /**
   * `get_otb_refsignal`: both asserts run first (a short list is an
   * IndexError); only the object `True` searches (`is True`), "subsampled"
   * in the "performed path" columns and "fullsampled" in the "acquired
   * data" columns.  Anything not requested or not found is the placeholder.
   */
  function OtbRefSignal(t: Table, refsig: seq<PyValue>): (r: Result<Frame>)
    requires TableOk(t)
    ensures |refsig| == 0 ==> r == Err(IndexError)
    ensures |refsig| >= 1 && !InTrueFalse(refsig[0]) ==> r == Err(AssertionError)
    ensures |refsig| == 1 && InTrueFalse(refsig[0]) ==> r == Err(IndexError)
    ensures |refsig| >= 2 && InTrueFalse(refsig[0]) ==>
      (r.Ok? <==> refsig[1] == PyStr("fullsampled") || refsig[1] == PyStr("subsampled"))
    ensures r.Err? ==> r.error == IndexError || r.error == AssertionError
    ensures r.Ok? ==> FrameOk(r.value)
    ensures r.Ok? && refsig[0] != PyBool(true) ==> r.value == EmptyPlaceholder()
    ensures r.Ok? && refsig[0] == PyBool(true) ==>
      r.value == RefColumns(t, if refsig[1] == PyStr("subsampled") then "performed path" else "acquired data")
  {
    if |refsig| == 0 then Err(IndexError)
    else if !InTrueFalse(refsig[0]) then Err(AssertionError)
    else if |refsig| == 1 then Err(IndexError)
    else if refsig[1] != PyStr("fullsampled") && refsig[1] != PyStr("subsampled") then Err(AssertionError)
    else if refsig[0] != PyBool(true) then Ok(EmptyPlaceholder())
    else if refsig[1] == PyStr("subsampled") then Ok(RefColumns(t, "performed path"))
    else Ok(RefColumns(t, "acquired data"))
  }

  /** The integer 1 compares equal to True but is not the object True: nothing is searched. */
  lemma IntegerOneNotSearched(t: Table, mode: string)
    requires TableOk(t)
    requires mode == "fullsampled" || mode == "subsampled"
    ensures OtbRefSignal(t, [PyInt(1), PyStr(mode)]) == Ok(EmptyPlaceholder())
    ensures OtbRefSignal(t, [PyBool(true), PyStr(mode)]).Ok?
  {
  }

  /** `get_otb_extras`: the placeholder without a pattern, otherwise the matching columns, even none. */
  function OtbExtras(t: Table, extras: Option<string>): (f: Frame)
    requires TableOk(t)
    ensures FrameOk(f)
    ensures extras.None? ==> f == EmptyPlaceholder()
    ensures extras.Some? ==> f == Data(Filter(t, [extras.value]))
  {
    if extras.None? then EmptyPlaceholder() else Data(Filter(t, [extras.value]))
  }

  // ---------------------------------------------------------------------
  // The alignment of BINARY_MUS_FIRING to IPTS

  /** `shift(-e)` then `fillna(0)`: sample t takes sample t+e; outside the data and NaN become 0. */
  function Aligned(col: Column, e: int): (a: Column)
    ensures |a| == |col|
    ensures forall t :: 0 <= t < |col| && 0 <= t + e < |col| && col[t + e].Num? ==> a[t] == col[t + e]
    ensures forall t :: 0 <= t < |col| && !(0 <= t + e < |col|) ==> a[t] == Num(0.0)
    ensures forall t :: 0 <= t < |col| ==> a[t].Num?
  {
    seq(|col|, t requires 0 <= t < |col| => if 0 <= t + e < |col| && col[t + e].Num? then col[t + e] else Num(0.0))
  }

  /** Every MU column of BINARY_MUS_FIRING aligned by the extension factor. */
  function AlignFrame(b: Frame, e: int): (a: Frame)
    requires FrameOk(b)
    ensures FrameOk(a) && a.rows == b.rows && |a.cols| == |b.cols|
    ensures forall c :: 0 <= c < |b.cols| ==> a.cols[c] == Aligned(b.cols[c], e)
  {
    Frame(b.rows, seq(|b.cols|, c requires 0 <= c < |b.cols| => Aligned(b.cols[c], e)))
  }

  /** `mupulses_from_binary`: per MU, the samples where the binary column is 1. */
  function PulsesFromBinary(b: Frame): (ps: seq<seq<int>>)
    ensures |ps| == |b.cols|
    ensures forall c :: 0 <= c < |b.cols| ==> ps[c] == Tools.FiringSamples(b.cols[c])
  {
    seq(|b.cols|, c requires 0 <= c < |b.cols| => Tools.FiringSamples(b.cols[c]))
  }

  /** The pulses moved e samples earlier, keeping those that stay inside [0, n). */
  function ShiftPulses(ps: seq<int>, e: int, n: nat): (r: seq<int>)
    ensures forall x :: x in r <==> x + e in ps && 0 <= x < n
    ensures StrictlyIncreasing(ps) ==> StrictlyIncreasing(r)
  {
    if ps == [] then []
    else
      var last := ps[|ps| - 1];
      var init := ps[..|ps| - 1];
      var rest := ShiftPulses(init, e, n);
      assert ps == init + [last];
      if 0 <= last - e < n then
        assert StrictlyIncreasing(ps) ==> StrictlyIncreasing(rest + [last - e]) by {
          if StrictlyIncreasing(ps) {
            assert StrictlyIncreasing(init);
            forall x | x in rest ensures x < last - e {
              var k :| 0 <= k < |init| && init[k] == x + e;
            }
            var r := rest + [last - e];
            forall i, j | 0 <= i < j < |r| ensures r[i] < r[j] {
              if j == |rest| {
                assert r[i] == rest[i] && rest[i] in rest;
              }
            }
          }
        }
        rest + [last - e]
      else
        assert StrictlyIncreasing(ps) ==> StrictlyIncreasing(init);
        rest
  }

  /**
   * The firings read back from an aligned column are the original firings
   * moved e samples earlier; those shifted out of the recording are lost.
   */
  lemma AlignedFirings(col: Column, e: int)
    ensures Tools.FiringSamples(Aligned(col, e)) == ShiftPulses(Tools.FiringSamples(col), e, |col|)
  {
    var a := Aligned(col, e);
    var lhs := Tools.FiringSamples(a);
    var orig := Tools.FiringSamples(col);
    var rhs := ShiftPulses(orig, e, |col|);
    forall x ensures x in lhs <==> x in rhs {
      if x in lhs {
        var k :| 0 <= k < |lhs| && lhs[k] == x;
        AlignedFiringKept(col, e, x);
      }
      if x + e in orig && 0 <= x < |col| {
        AlignedFiringRead(col, e, x);
      }
    }
    Tools.StrictlyIncreasingSameElements(lhs, rhs);
  }

  /** A firing of the aligned column was a firing of the column, e samples later. */
  lemma AlignedFiringKept(col: Column, e: int, x: int)
    requires 0 <= x < |col| && Aligned(col, e)[x] == Num(1.0)
    ensures x + e in Tools.FiringSamples(col)
  {
    var a := Aligned(col, e);
    assert a[x] == if 0 <= x + e < |col| && col[x + e].Num? then col[x + e] else Num(0.0);
    assert col[x + e] == Num(1.0);
  }

  /** A firing of the column that stays inside the recording is read back, e samples earlier. */
  lemma AlignedFiringRead(col: Column, e: int, x: int)
    requires 0 <= x < |col| && x + e in Tools.FiringSamples(col)
    ensures x in Tools.FiringSamples(Aligned(col, e))
  {
    assert col[x + e] == Num(1.0) by {
      var orig := Tools.FiringSamples(col);
      var k :| 0 <= k < |orig| && orig[k] == x + e;
    }
    var a := Aligned(col, e);
    assert a[x] == Num(1.0);
  }

  // ---------------------------------------------------------------------
  // ACCURACY (SIL), shared by the DEMUSE and OTB loaders

  /** `compute_sil(ipts, mupulses)` of one MU; its value is not part of this model. */
  type SilFunction = (Column, seq<int>) -> Float

  /**
   * The ACCURACY table: one row per MU holding the SIL of its IPTS column
   * and pulses, or the placeholder without MUs.  An MU without a MUPULSES
   * entry is an IndexError.
   */
  function SilAccuracy(ipts: Frame, mupulses: seq<seq<int>>, sil: SilFunction): (r: Result<Frame>)
    ensures |ipts.cols| == 0 ==> r == Ok(EmptyPlaceholder())
    ensures |ipts.cols| > 0 ==> (r.Err? <==> |ipts.cols| > |mupulses|)
    ensures r.Err? ==> r.error == IndexError
    ensures r.Ok? && |ipts.cols| > 0 ==>
      FrameOk(r.value) && r.value.rows == |ipts.cols| && |r.value.cols| == 1
      && forall mu :: 0 <= mu < |ipts.cols| ==> r.value.cols[0][mu] == sil(ipts.cols[mu], mupulses[mu])
  {
    var n := |ipts.cols|;
    if n == 0 then Ok(EmptyPlaceholder())
    else if n > |mupulses| then Err(IndexError)
    else Ok(Frame(n, [seq(n, mu requires 0 <= mu < n => sil(ipts.cols[mu], mupulses[mu]))]))
  }

  /** The `for mu in range(NUMBER_OF_MUS)` loop appending one SIL per MU. */
  method ComputeAccuracy(ipts: Frame, mupulses: seq<seq<int>>, sil: SilFunction) returns (r: Result<Frame>)
    ensures r == SilAccuracy(ipts, mupulses, sil)
  {
    var n := |ipts.cols|;
    if n == 0 {
      return Ok(EmptyPlaceholder());
    }
    var toAppend: seq<Float> := [];
    for mu := 0 to n
      invariant mu <= |mupulses|
      invariant |toAppend| == mu
      invariant forall k :: 0 <= k < mu ==> toAppend[k] == sil(ipts.cols[k], mupulses[k])
    {
      if mu >= |mupulses| {
        return Err(IndexError);
      }
      toAppend := toAppend + [sil(ipts.cols[mu], mupulses[mu])];
    }
    r := Ok(Frame(n, [toAppend]));
    assert toAppend == seq(n, mu requires 0 <= mu < n => sil(ipts.cols[mu], mupulses[mu]));
  }

  // ---------------------------------------------------------------------
  // `emg_from_otb`

  /** A decoded OTBiolab+ `.mat` file: the sampling frequency and the `Data` table named by `Description`. */
  datatype OtbMat = OtbMat(samplingFrequency: real, data: Table)

  /** The OTBiolab+ versions the loader accepts. */
  const OtbVersions: seq<string> := ["1.5.3.0", "1.5.4.0", "1.5.5.0", "1.5.6.0", "1.5.7.2", "1.5.7.3", "1.5.8.0"]

  /** The record built once the raw signal is known, in the order of the loader's steps. */
  function OtbFileFrom(m: OtbMat, filename: string, extFactor: int, refsig: seq<PyValue>, extras: Option<string>,
                       sil: SilFunction, raw: Result<Frame>): (r: Result<EmgFile>)
    requires TableOk(m.data)
    ensures raw.Err? ==> r == Err(raw.error)
    ensures raw.Ok? && OtbDecomposition(m.data).Err? ==> r == Err(ValueError)
    ensures r.Ok? ==> OtbDecomposition(m.data).Ok? && OtbRefSignal(m.data, refsig).Ok?
    ensures r.Ok? ==> r.value.source == "OTB" && r.value.filename == filename && r.value.rawSignal == raw.value
  {
    var t := m.data;
    if raw.Err? then Err(raw.error)
    else
      var dec := OtbDecomposition(t);
      if dec.Err? then Err(dec.error)
      else
        var ipts := dec.value.0;
        var binary := AlignFrame(dec.value.1, extFactor);
        var mupulses := PulsesFromBinary(binary);
        var ref := OtbRefSignal(t, refsig);
        if ref.Err? then Err(ref.error)
        else
          var acc := SilAccuracy(ipts, mupulses, sil);
          if acc.Err? then Err(acc.error)
          else
            Ok(EmgFile("OTB", filename, raw.value, ref.value, Some(acc.value), None, None, ipts, mupulses,
                       m.samplingFrequency, OtbIed(t), ipts.rows, |ipts.cols|, binary, OtbExtras(t, extras)))
  }

  /**
   * `emg_from_otb` as written: an untested version is a ValueError, and
   * the raw-signal step fails for the default `extras=None`.
   */
  function OtbFile(m: OtbMat, filename: string, extFactor: int, refsig: seq<PyValue>, version: string,
                   extras: Option<string>, sil: SilFunction): (r: Result<EmgFile>)
    requires TableOk(m.data)
    ensures version !in OtbVersions ==> r == Err(ValueError)
    ensures version in OtbVersions ==> r == OtbFileFrom(m, filename, extFactor, refsig, extras, sil, OtbRawSignalAsWritten(m.data, extras))
  {
    if version !in OtbVersions then Err(ValueError)
    else OtbFileFrom(m, filename, extFactor, refsig, extras, sil, OtbRawSignalAsWritten(m.data, extras))
  }

  /** `emg_from_otb` with the raw-signal step as evidently intended. */
  function OtbFileIntended(m: OtbMat, filename: string, extFactor: int, refsig: seq<PyValue>, version: string,
                           extras: Option<string>, sil: SilFunction): (r: Result<EmgFile>)
    requires TableOk(m.data)
    ensures version !in OtbVersions ==> r == Err(ValueError)
    ensures extras.Some? ==> r == OtbFile(m, filename, extFactor, refsig, version, extras, sil)
  {
    if version !in OtbVersions then Err(ValueError)
    else OtbFileFrom(m, filename, extFactor, refsig, extras, sil, OtbRawSignal(m.data, extras))
  }

  /** The default arguments of `emg_from_otb`. */
  const DefaultExtFactor: int := 8
  const DefaultRefsig: seq<PyValue> := [PyBool(true), PyStr("fullsampled")]
  const DefaultVersion: string := "1.5.8.0"

  /** With its default arguments `emg_from_otb` fails on every file: `None` reaches the pattern concatenation. */
  lemma OtbDefaultsRejected(m: OtbMat, filename: string, sil: SilFunction)
    requires TableOk(m.data)
    ensures OtbFile(m, filename, DefaultExtFactor, DefaultRefsig, DefaultVersion, None, sil) == Err(TypeError)
  {
    assert DefaultVersion in OtbVersions;
  }

  /**
   * With the raw-signal step as intended, the default arguments load every
   * file whose grid is recognised with the right channel count, that has
   * IPTS and binary firings, and a binary column per IPTS column.
   */
  lemma OtbDefaultsIntended(m: OtbMat, filename: string, sil: SilFunction)
    requires TableOk(m.data)
    ensures var dec := OtbDecomposition(m.data);
      OtbFileIntended(m, filename, DefaultExtFactor, DefaultRefsig, DefaultVersion, None, sil).Ok?
      <==> OtbRawFrom(m.data, BasePattern).Ok? && dec.Ok? && |dec.value.1.cols| >= |dec.value.0.cols|
  {
    assert DefaultVersion in OtbVersions;
    var dec := OtbDecomposition(m.data);
    assert OtbRefSignal(m.data, DefaultRefsig).Ok?;
    if dec.Ok? {
      var binary := AlignFrame(dec.value.1, DefaultExtFactor);
      assert |PulsesFromBinary(binary)| == |dec.value.1.cols|;
    }
  }

  /**
   * A loaded OTB file: MU count and length from IPTS, BINARY_MUS_FIRING
   * shifted e samples earlier, and MUPULSES read from it, so each MU's
   * pulses are the decomposition's firings moved e samples earlier and
   * kept inside the recording; ACCURACY holds one SIL per MU.
   */
  lemma OtbLoaded(m: OtbMat, filename: string, extFactor: int, refsig: seq<PyValue>, version: string,
                  extras: Option<string>, sil: SilFunction)
    requires TableOk(m.data)
    requires OtbFile(m, filename, extFactor, refsig, version, extras, sil).Ok?
    ensures var f := OtbFile(m, filename, extFactor, refsig, version, extras, sil).value;
      var dec := OtbDecomposition(m.data).value;
      version in OtbVersions && extras.Some?
      && f.source == "OTB" && f.ied == OtbIed(m.data)
      && f.ipts == dec.0 && f.emgLength == m.data.rows && f.numberOfMus == |dec.0.cols| > 0
      && f.binary == AlignFrame(dec.1, extFactor) && |f.mupulses| == |dec.1.cols| >= f.numberOfMus
      && (forall mu :: 0 <= mu < |f.mupulses| ==>
            f.mupulses[mu] == ShiftPulses(Tools.FiringSamples(dec.1.cols[mu]), extFactor, m.data.rows))
      && f.accuracy.Some? && f.accuracy.value.rows == f.numberOfMus
  {
    var f := OtbFile(m, filename, extFactor, refsig, version, extras, sil).value;
    var dec := OtbDecomposition(m.data).value;
    forall mu | 0 <= mu < |f.mupulses|
      ensures f.mupulses[mu] == ShiftPulses(Tools.FiringSamples(dec.1.cols[mu]), extFactor, m.data.rows)
    {
      AlignedFirings(dec.1.cols[mu], extFactor);
    }
  }

  /** The loader: the version check, the grid searches, the alignment and the SIL loop, in the source's order. */
  method EmgFromOtb(m: OtbMat, filename: string, extFactor: int, refsig: seq<PyValue>, version: string,
                    extras: Option<string>, sil: SilFunction) returns (r: Result<EmgFile>)
    requires TableOk(m.data)
    ensures r == OtbFile(m, filename, extFactor, refsig, version, extras, sil)
  {
    if version !in OtbVersions {
      return Err(ValueError);
    }
    var t := m.data;
    var grid := FindGrid(t.names);
    var ied := if grid.None? then NaN else Num(Electrodes.OtbElectrodesIed[grid.value]);
    if extras.None? {
      return Err(TypeError);
    }
    var emg := Drop(t, BasePattern + [extras.value]);
    var channels := FindGrid(emg.names);
    if channels.None? || |emg.cols| != Electrodes.OtbElectrodesNelectrodes[channels.value] {
      return Err(ValueError);
    }
    var raw := Data(emg);
    var dec := OtbDecomposition(t);
    if dec.Err? {
      return Err(dec.error);
    }
    var ipts := dec.value.0;
    var binary := AlignFrame(dec.value.1, extFactor);
    var mupulses := PulsesFromBinary(binary);
    var ref := OtbRefSignal(t, refsig);
    if ref.Err? {
      return Err(ref.error);
    }
    var acc := ComputeAccuracy(ipts, mupulses, sil);
    if acc.Err? {
      return Err(acc.error);
    }
    r := Ok(EmgFile("OTB", filename, raw, ref.value, Some(acc.value), None, None, ipts, mupulses,
                    m.samplingFrequency, ied, ipts.rows, |ipts.cols|, binary, OtbExtras(t, extras)));
  }

  // ---------------------------------------------------------------------
  // `emg_from_demuse`

  /** A numeric MATLAB array: a vector, or a matrix given row by row with its width. */
  datatype MatArray = Vector(v: seq<Float>) | Matrix(width: nat, m: seq<seq<Float>>)

  predicate MatArrayOk(a: MatArray)
  {
    a.Matrix? ==> forall i :: 0 <= i < |a.m| ==> |a.m[i]| == a.width
  }

  /** A `ref_signal` variable: a single float or a vector. */
  datatype MatRef = RefScalar(x: real) | RefVector(v: seq<Float>)

  /**
   * A decoded DEMUSE `.mat` file.  `sig` is the SIG cell grid, row by row;
   * `mupulses` holds the 1-based pulses of each MU.  An absent variable is
   * `None`.
   */
  datatype DemuseMat = DemuseMat(fsamp: real, ied: real, sig: Option<seq<seq<Column>>>, ipts: Option<MatArray>,
                                 mupulses: Option<seq<seq<int>>>, refSignal: Option<MatRef>)

  predicate GridOk(g: seq<seq<Column>>)
  {
    forall i :: 0 <= i < |g| ==> |g[i]| == |g[0]|
  }

  predicate DemuseMatOk(mat: DemuseMat)
  {
    (mat.sig.Some? ==> GridOk(mat.sig.value)) && (mat.ipts.Some? ==> MatArrayOk(mat.ipts.value))
  }

  /** Column j of a cell grid, top to bottom. */
  function GridColumn(g: seq<seq<Column>>, j: nat): (c: seq<Column>)
    requires GridOk(g) && g != [] && j < |g[0]|
    ensures |c| == |g| && forall i :: 0 <= i < |g| ==> c[i] == g[i][j]
  {
    seq(|g|, i requires 0 <= i < |g| => g[i][j])
  }

  /** Where column j starts in the raveled grid of h rows (j * h, counted column by column). */
  function ColumnStart(j: nat, h: nat): nat
  {
    if j == 0 then 0 else ColumnStart(j - 1, h) + h
  }

  /** The first w columns of a cell grid, one after the other. */
  function RavelColumns(g: seq<seq<Column>>, w: nat): (cells: seq<Column>)
    requires GridOk(g) && g != [] && w <= |g[0]|
    ensures |cells| == ColumnStart(w, |g|)
  {
    if w == 0 then [] else RavelColumns(g, w - 1) + GridColumn(g, w - 1)
  }

  /** `ravel(order="F")` of a cell grid: column by column. */
  function RavelF(g: seq<seq<Column>>): (cells: seq<Column>)
    requires GridOk(g)
    ensures g == [] ==> cells == []
    ensures g != [] ==> |cells| == ColumnStart(|g[0]|, |g|)
  {
    if g == [] then [] else RavelColumns(g, |g[0]|)
  }

  lemma {:induction false} ColumnStartMonotone(j: nat, w: nat, h: nat)
    requires j < w
    ensures ColumnStart(j, h) + h <= ColumnStart(w, h)
    decreases w - j
  {
    if j + 1 < w {
      ColumnStartMonotone(j + 1, w, h);
    }
  }

  /** Cell (i, j) of the grid is channel ColumnStart(j) + i of the raveled grid. */
  lemma {:induction false} RavelColumnPosition(g: seq<seq<Column>>, w: nat, j: nat, i: nat)
    requires GridOk(g) && g != [] && w <= |g[0]| && j < w && i < |g|
    ensures ColumnStart(j, |g|) + i < |RavelColumns(g, w)| && RavelColumns(g, w)[ColumnStart(j, |g|) + i] == g[i][j]
    decreases w
  {
    var h := |g|;
    var prev := RavelColumns(g, w - 1);
    assert RavelColumns(g, w) == prev + GridColumn(g, w - 1);
    if j < w - 1 {
      ColumnStartMonotone(j, w - 1, h);
      RavelColumnPosition(g, w - 1, j, i);
    }
  }

  /** Every cell of the SIG grid is a channel of the raveled grid, column by column. */
  lemma RavelFPosition(g: seq<seq<Column>>, i: nat, j: nat)
    requires GridOk(g) && i < |g| && j < |g[0]|
    ensures ColumnStart(j, |g|) + i < |RavelF(g)| && RavelF(g)[ColumnStart(j, |g|) + i] == g[i][j]
  {
    RavelColumnPosition(g, |g[0]|, j, i);
  }

  /** The length of the longest column. */
  function MaxLength(cells: seq<Column>): (n: nat)
    ensures forall k :: 0 <= k < |cells| ==> |cells[k]| <= n
    ensures cells == [] ==> n == 0
    ensures cells != [] ==> exists k :: 0 <= k < |cells| && |cells[k]| == n
  {
    if cells == [] then 0
    else
      var rest := MaxLength(cells[..|cells| - 1]);
      assert forall k :: 0 <= k < |cells| - 1 ==> cells[..|cells| - 1][k] == cells[k];
      Max(rest, |cells[|cells| - 1]|)
  }

  /** A column extended with NaN up to `n` samples. */
  function PadNaN(c: Column, n: nat): (p: Column)
    requires |c| <= n
    ensures |p| == n && p[..|c|] == c
    ensures forall t :: |c| <= t < n ==> p[t] == NaN
  {
    c + NaNColumn(n - |c|)
  }

  /** `pd.DataFrame(list_of_vectors).transpose()`: one column per vector, NaN-padded to the longest. */
  function Ragged(cells: seq<Column>): (f: Frame)
    ensures FrameOk(f) && |f.cols| == |cells| && f.rows == MaxLength(cells)
    ensures forall k :: 0 <= k < |cells| ==> f.cols[k] == PadNaN(cells[k], MaxLength(cells))
  {
    var n := MaxLength(cells);
    Frame(n, seq(|cells|, k requires 0 <= k < |cells| => PadNaN(cells[k], n)))
  }

  /** IPTS: a vector is a single MU; a matrix holds one MU per row and is transposed. */
  function IptsFrame(a: MatArray): (f: Frame)
    requires MatArrayOk(a)
    ensures FrameOk(f)
    ensures a.Vector? ==> f.rows == |a.v| && f.cols == [a.v]
    ensures a.Matrix? ==> f.rows == a.width && f.cols == a.m
  {
    match a
    case Vector(v) => Frame(|v|, [v])
    case Matrix(w, m) => Frame(w, m)
  }

  /** REF_SIGNAL: a float is a one-sample table, a vector one column; an absent one the placeholder. */
  function DemuseRef(r: Option<MatRef>): (f: Frame)
    ensures FrameOk(f)
    ensures r.None? ==> f == EmptyPlaceholder()
  {
    match r
    case None => EmptyPlaceholder()
    case Some(RefScalar(x)) => Frame(1, [[Num(x)]])
    case Some(RefVector(v)) => Frame(|v|, [v])
  }

  function MinusOne(ps: seq<int>): (r: seq<int>)
    ensures |r| == |ps| && forall k :: 0 <= k < |ps| ==> r[k] == ps[k] - 1
  {
    seq(|ps|, k requires 0 <= k < |ps| => ps[k] - 1)
  }

  /** Every MU's MATLAB pulses moved to 0-based sample indices. */
  function ZeroBased(mp: seq<seq<int>>): (r: seq<seq<int>>)
    ensures |r| == |mp| && forall i :: 0 <= i < |mp| ==> r[i] == MinusOne(mp[i])
  {
    seq(|mp|, i requires 0 <= i < |mp| => MinusOne(mp[i]))
  }

  /** The `for pos, pulses in enumerate(MUPULSES)` loop rewriting the list in place. */
  method ToZeroBased(mp: seq<seq<int>>) returns (r: seq<seq<int>>)
    ensures r == ZeroBased(mp)
  {
    var a := new seq<int>[|mp|](i requires 0 <= i < |mp| => mp[i]);
    for pos := 0 to a.Length
      invariant forall i :: 0 <= i < pos ==> a[i] == MinusOne(mp[i])
      invariant forall i :: pos <= i < a.Length ==> a[i] == mp[i]
    {
      a[pos] := MinusOne(a[pos]);
    }
    r := a[..];
  }

  /** Adding 1 back to every 0-based pulse gives the MATLAB pulses again. */
  lemma ZeroBasedRoundTrip(mp: seq<seq<int>>)
    ensures var z := ZeroBased(mp);
      seq(|z|, i requires 0 <= i < |z| => seq(|z[i]|, k requires 0 <= k < |z[i]| => z[i][k] + 1)) == mp
  {
    var z := ZeroBased(mp);
    var back := seq(|z|, i requires 0 <= i < |z| => seq(|z[i]|, k requires 0 <= k < |z[i]| => z[i][k] + 1));
    forall i | 0 <= i < |mp| ensures back[i] == mp[i] {
      assert |back[i]| == |mp[i]|;
    }
  }

  /** `create_binary_firings` as a value: 1 exactly at each MU's pulses, IndexError for a missing MU or an outside pulse. */
  function BinaryFirings(emgLength: nat, numberOfMus: nat, mupulses: seq<seq<int>>): (r: Result<Frame>)
    ensures r.Err? <==> Tools.BinaryIndexError(emgLength, numberOfMus, mupulses)
    ensures r.Err? ==> r.error == IndexError
    ensures r.Ok? ==> FrameOk(r.value) && r.value.rows == emgLength && |r.value.cols| == numberOfMus
    ensures r.Ok? ==> forall mu, t :: 0 <= mu < numberOfMus && 0 <= t < emgLength ==>
      r.value.cols[mu][t] == (if Tools.FiresAt(mupulses[mu], emgLength, t) then Num(1.0) else Num(0.0))
  {
    if Tools.BinaryIndexError(emgLength, numberOfMus, mupulses) then Err(IndexError)
    else
      Ok(Frame(emgLength, seq(numberOfMus, mu requires 0 <= mu < numberOfMus =>
        seq(emgLength, t requires 0 <= t < emgLength =>
          if Tools.FiresAt(mupulses[mu], emgLength, t) then Num(1.0) else Num(0.0)))))
  }

  /** The method `create_binary_firings` computes the same table. */
  method CallBinaryFirings(emgLength: nat, numberOfMus: nat, mupulses: seq<seq<int>>) returns (r: Result<Frame>)
    ensures r == BinaryFirings(emgLength, numberOfMus, mupulses)
  {
    var b := Tools.CreateBinaryFirings(emgLength, numberOfMus, Some(mupulses));
    if b.Err? {
      return Err(b.error);
    }
    var m := b.value.value;
    var spec := BinaryFirings(emgLength, numberOfMus, mupulses).value;
    forall mu | 0 <= mu < numberOfMus ensures m.cols[mu] == spec.cols[mu] {
      assert |m.cols[mu]| == |spec.cols[mu]| == emgLength;
    }
    assert m == spec;
    r := Ok(m);
  }

  /**
   * `emg_from_demuse`: SIG, IPTs and MUPulses are compulsory (ValueError);
   * the shape of IPTS gives EMG_LENGTH and NUMBER_OF_MUS; the pulses are
   * moved to 0-based indices before the binary firings and SIL are derived.
   */
  function DemuseFile(mat: DemuseMat, filename: string, sil: SilFunction): (r: Result<EmgFile>)
    requires DemuseMatOk(mat)
    ensures mat.sig.None? || mat.ipts.None? || mat.mupulses.None? ==> r == Err(ValueError)
    ensures r.Ok? ==> r.value.source == "DEMUSE" && r.value.ied == Num(mat.ied) && r.value.fsamp == mat.fsamp
    ensures r.Ok? ==> r.value.mupulses == ZeroBased(mat.mupulses.value)
    ensures r.Ok? ==> r.value.ipts == IptsFrame(mat.ipts.value)
    ensures r.Ok? ==> r.value.emgLength == r.value.ipts.rows && r.value.numberOfMus == |r.value.ipts.cols|
  {
    if mat.sig.None? then Err(ValueError)
    else
      var raw := Ragged(RavelF(mat.sig.value));
      if mat.ipts.None? then Err(ValueError)
      else
        var ipts := IptsFrame(mat.ipts.value);
        if mat.mupulses.None? then Err(ValueError)
        else
          var mupulses := ZeroBased(mat.mupulses.value);
          var binary := BinaryFirings(ipts.rows, |ipts.cols|, mupulses);
          if binary.Err? then Err(binary.error)
          else
            var acc := SilAccuracy(ipts, mupulses, sil);
            if acc.Err? then Err(acc.error)
            else
              Ok(EmgFile("DEMUSE", filename, raw, DemuseRef(mat.refSignal), Some(acc.value), None, None, ipts,
                         mupulses, mat.fsamp, Num(mat.ied), ipts.rows, |ipts.cols|, binary.value, EmptyPlaceholder()))
  }

  /** 1-based pulses inside 1..length, one list per MU. */
  predicate MatlabPulsesInRange(mp: seq<seq<int>>, length: nat)
  {
    forall mu, k :: 0 <= mu < |mp| && 0 <= k < |mp[mu]| ==> 1 <= mp[mu][k] <= length
  }

  /**
   * A DEMUSE file with all variables and one list of 1-based pulses inside
   * the recording per MU loads; its pulses are 0-based sample indices of the
   * recording, and an MU's binary column read back gives its pulses when
   * they are increasing.
   */
  lemma DemuseLoads(mat: DemuseMat, filename: string, sil: SilFunction)
    requires DemuseMatOk(mat) && mat.sig.Some? && mat.ipts.Some? && mat.mupulses.Some?
    requires var ipts := IptsFrame(mat.ipts.value);
      |mat.mupulses.value| == |ipts.cols| && MatlabPulsesInRange(mat.mupulses.value, ipts.rows)
    ensures DemuseFile(mat, filename, sil).Ok?
    ensures var f := DemuseFile(mat, filename, sil).value;
      PulsesInRecording(f) && |f.mupulses| == f.numberOfMus == |f.binary.cols|
      && forall mu :: 0 <= mu < f.numberOfMus && StrictlyIncreasing(f.mupulses[mu]) ==>
           Tools.FiringSamples(f.binary.cols[mu]) == f.mupulses[mu]
  {
    var ipts := IptsFrame(mat.ipts.value);
    var mupulses := ZeroBased(mat.mupulses.value);
    var n, len := |ipts.cols|, ipts.rows;
    forall mu, k | 0 <= mu < |mupulses| && 0 <= k < |mupulses[mu]| ensures 0 <= mupulses[mu][k] < len {
      assert mupulses[mu][k] == mat.mupulses.value[mu][k] - 1;
    }
    assert !Tools.BinaryIndexError(len, n, mupulses);
    var b := BinaryFirings(len, n, mupulses).value;
    forall mu | 0 <= mu < n && StrictlyIncreasing(mupulses[mu]) ensures Tools.FiringSamples(b.cols[mu]) == mupulses[mu] {
      assert b.cols[mu] == seq(len, t => if Tools.FiresAt(mupulses[mu], len, t) then Num(1.0) else Num(0.0));
      Tools.BinaryRoundTrip(mupulses[mu], len);
    }
  }

  /** The loader, with the in-place 0-based rewrite, `create_binary_firings` and the SIL loop. */
  method EmgFromDemuse(mat: DemuseMat, filename: string, sil: SilFunction) returns (r: Result<EmgFile>)
    requires DemuseMatOk(mat)
    ensures r == DemuseFile(mat, filename, sil)
  {
    if mat.sig.None? {
      return Err(ValueError);
    }
    var raw := Ragged(RavelF(mat.sig.value));
    if mat.ipts.None? {
      return Err(ValueError);
    }
    var ipts := IptsFrame(mat.ipts.value);
    if mat.mupulses.None? {
      return Err(ValueError);
    }
    var mupulses := ToZeroBased(mat.mupulses.value);
    var binary := CallBinaryFirings(ipts.rows, |ipts.cols|, mupulses);
    if binary.Err? {
      return Err(binary.error);
    }
    var acc := ComputeAccuracy(ipts, mupulses, sil);
    if acc.Err? {
      return Err(acc.error);
    }
    r := Ok(EmgFile("DEMUSE", filename, raw, DemuseRef(mat.refSignal), Some(acc.value), None, None, ipts,
                    mupulses, mat.fsamp, Num(mat.ied), ipts.rows, |ipts.cols|, binary.value, EmptyPlaceholder()));
  }

  // ---------------------------------------------------------------------
  // `emg_from_customcsv`

  /** Row r has a value in every column. */
  predicate RowComplete(t: Table, r: nat)
    requires TableOk(t) && r < t.rows
  {
    forall c :: 0 <= c < |t.cols| ==> t.cols[c][r].Num?
  }

  /** The rows below n without NaN, in order. */
  function CompleteRows(t: Table, n: nat): (idx: seq<nat>)
    requires TableOk(t) && n <= t.rows
    ensures |idx| <= n
    ensures forall k :: 0 <= k < |idx| ==> idx[k] < n && RowComplete(t, idx[k])
    ensures forall r :: 0 <= r < n && RowComplete(t, r) ==> r in idx
    ensures forall i, j :: 0 <= i < j < |idx| ==> idx[i] < idx[j]
  {
    if n == 0 then []
    else
      var rest := CompleteRows(t, n - 1);
      if RowComplete(t, n - 1) then rest + [n - 1] else rest
  }

  /** The rows `idx` of `t`, renumbered from 0. */
  function PickRows(t: Table, idx: seq<nat>): (d: Table)
    requires TableOk(t) && forall k :: 0 <= k < |idx| ==> idx[k] < t.rows
    ensures TableOk(d) && d.names == t.names && |d.cols| == |t.cols| && d.rows == |idx|
    ensures forall c, k :: 0 <= c < |d.cols| && 0 <= k < d.rows ==> d.cols[c][k] == t.cols[c][idx[k]]
  {
    Table(|idx|, t.names, seq(|t.cols|, c requires 0 <= c < |t.cols| =>
            seq(|idx|, k requires 0 <= k < |idx| => t.cols[c][idx[k]])))
  }

  /** Picking every row in order gives the table back. */
  lemma PickAllRows(t: Table)
    requires TableOk(t)
    ensures PickRows(t, Range(t.rows)) == t
  {
    var d := PickRows(t, Range(t.rows));
    forall c | 0 <= c < |t.cols| ensures d.cols[c] == t.cols[c] {
      assert |d.cols[c]| == |t.cols[c]|;
    }
  }

  /**
   * The row labels `df.dropna()` keeps: the positions of the rows without
   * NaN, in increasing order, so that row k of `DropNa(t)` is row
   * `DropNaLabels(t)[k]` of `t`.
   */
  function DropNaLabels(t: Table): (labels: seq<nat>)
    requires TableOk(t)
    ensures |labels| == DropNa(t).rows
    ensures forall k :: 0 <= k < |labels| ==> labels[k] < t.rows && RowComplete(t, labels[k])
    ensures forall r :: 0 <= r < t.rows && RowComplete(t, r) ==> r in labels
    ensures forall i, j :: 0 <= i < j < |labels| ==> labels[i] < labels[j]
    ensures forall c, k :: 0 <= c < |t.cols| && 0 <= k < |labels| ==> DropNa(t).cols[c][k] == t.cols[c][labels[k]]
  {
    CompleteRows(t, t.rows)
  }

  /**
   * When the rows with NaN all come after the complete ones (a shorter
   * signal padded at the end, as a CSV of columns of different lengths is
   * read), the labels pandas keeps are 0..m-1: renumbering from 0 changes
   * nothing.
   */
  lemma {:induction false} DropNaTrailingLabels(t: Table, m: nat)
    requires TableOk(t) && m <= t.rows
    requires forall r :: 0 <= r < m ==> RowComplete(t, r)
    requires forall r :: m <= r < t.rows ==> !RowComplete(t, r)
    ensures DropNaLabels(t) == Range(m)
    ensures DropNa(t).rows == m
  {
    TrailingCompleteRows(t, m, t.rows);
  }

  lemma {:induction false} TrailingCompleteRows(t: Table, m: nat, n: nat)
    requires TableOk(t) && n <= t.rows
    requires forall r :: 0 <= r < m && r < t.rows ==> RowComplete(t, r)
    requires forall r :: m <= r < t.rows ==> !RowComplete(t, r)
    ensures CompleteRows(t, n) == Range(Min(m, n))
  {
    if n > 0 {
      TrailingCompleteRows(t, m, n - 1);
      if n - 1 < m {
        assert RowComplete(t, n - 1);
        assert Range(n) == Range(n - 1) + [n - 1];
      }
    }
  }

  /** `df.dropna()`: the rows without NaN, renumbered from 0 (their labels are `DropNaLabels`). */
  function DropNa(t: Table): (d: Table)
    requires TableOk(t)
    ensures TableOk(d) && d.names == t.names && |d.cols| == |t.cols| && d.rows <= t.rows
    ensures forall c, k :: 0 <= c < |d.cols| && 0 <= k < d.rows ==> d.cols[c][k].Num?
    ensures (forall r :: 0 <= r < t.rows ==> RowComplete(t, r)) ==> d == t
  {
    var idx := CompleteRows(t, t.rows);
    assert (forall r :: 0 <= r < t.rows ==> RowComplete(t, r)) ==> idx == Range(t.rows) by {
      if forall r :: 0 <= r < t.rows ==> RowComplete(t, r) {
        AllRowsComplete(t, t.rows);
      }
    }
    PickAllRows(t);
    PickRows(t, idx)
  }

  lemma {:induction false} AllRowsComplete(t: Table, n: nat)
    requires TableOk(t) && n <= t.rows
    requires forall r :: 0 <= r < t.rows ==> RowComplete(t, r)
    ensures CompleteRows(t, n) == Range(n)
  {
    if n > 0 {
      AllRowsComplete(t, n - 1);
      assert RowComplete(t, n - 1);
      assert Range(n) == Range(n - 1) + [n - 1];
    }
  }

  /** `col.dropna().to_numpy(dtype=int)`: the values in order, truncated toward zero. */
  function CsvPulses(col: Column): (ps: seq<int>)
    ensures |ps| == NumCount(col)
  {
    if col == [] then []
    else
      var rest := CsvPulses(col[..|col| - 1]);
      var x := col[|col| - 1];
      if x.Num? then rest + [TruncToZero(x.r)] else rest
  }

  /** The MUPULSES loop of the CSV loader: one list per pulse column. */
  function ColumnsPulses(t: Table): (mp: seq<seq<int>>)
    ensures |mp| == |t.cols| && forall c :: 0 <= c < |t.cols| ==> mp[c] == CsvPulses(t.cols[c])
  {
    seq(|t.cols|, c requires 0 <= c < |t.cols| => CsvPulses(t.cols[c]))
  }

  /** A pulse column as a CSV holds it: the samples as floats, then NaN to the table's length. */
  function PulseColumn(ps: seq<int>, pad: nat): (c: Column)
    ensures |c| == |ps| + pad
  {
    seq(|ps|, k requires 0 <= k < |ps| => Num(ps[k] as real)) + NaNColumn(pad)
  }

  lemma {:induction false} CsvPulsesNaNTail(c: Column, pad: nat)
    ensures CsvPulses(c + NaNColumn(pad)) == CsvPulses(c)
  {
    if pad > 0 {
      var s := c + NaNColumn(pad);
      assert s[..|s| - 1] == c + NaNColumn(pad - 1);
      CsvPulsesNaNTail(c, pad - 1);
    } else {
      assert c + NaNColumn(0) == c;
    }
  }

  lemma {:induction false} CsvPulsesOfNumbers(ps: seq<int>)
    ensures CsvPulses(seq(|ps|, k requires 0 <= k < |ps| => Num(ps[k] as real))) == ps
  {
    if ps != [] {
      var n := |ps| - 1;
      var s := seq(|ps|, k requires 0 <= k < |ps| => Num(ps[k] as real));
      assert s[..n] == seq(|ps[..n]|, k requires 0 <= k < |ps[..n]| => Num(ps[..n][k] as real));
      CsvPulsesOfNumbers(ps[..n]);
      assert TruncToZero(ps[n] as real) == ps[n];
      assert ps == ps[..n] + [ps[n]];
    }
  }

  /** Reading a pulse column back gives its pulses: trailing NaN are dropped, the floats made integers. */
  lemma CsvPulsesRoundTrip(ps: seq<int>, pad: nat)
    ensures CsvPulses(PulseColumn(ps, pad)) == ps
  {
    CsvPulsesNaNTail(seq(|ps|, k requires 0 <= k < |ps| => Num(ps[k] as real)), pad);
    CsvPulsesOfNumbers(ps);
  }

  /** `melt` of the ACCURACY columns: all values in one column, column after column. */
  function Melt(cols: seq<Column>): (c: Column)
    ensures cols != [] ==> c == Melt(cols[..|cols| - 1]) + cols[|cols| - 1]
  {
    if cols == [] then [] else Melt(cols[..|cols| - 1]) + cols[|cols| - 1]
  }

  /** The labels the CSV loader filters on. */
  datatype CsvLabels = CsvLabels(refSignal: string, rawSignal: string, ipts: string, mupulses: string,
                                 binary: string, accuracy: string, extras: string)

  const DefaultCsvLabels: CsvLabels :=
    CsvLabels("REF_SIGNAL", "RAW_SIGNAL", "IPTS", "MUPULSES", "BINARY_MUS_FIRING", "ACCURACY", "EXTRAS")

  /**
   * MUPULSES and BINARY_MUS_FIRING from whichever of the two the CSV has:
   * with both, each is taken as given; from binary alone the pulses are
   * read off it; from pulses alone the binary table is built over the raw
   * signal's length.
   */
  function CsvFirings(rawRows: nat, dfp: Table, bin: Table): (r: Result<(seq<seq<int>>, Frame)>)
    requires TableOk(dfp) && TableOk(bin)
    ensures Empty(dfp) && Empty(bin) ==> r == Err(ValueError)
    ensures !Empty(bin) ==> r == Ok((if Empty(dfp) then PulsesFromBinary(Data(bin)) else ColumnsPulses(dfp), Data(bin)))
    ensures Empty(bin) && !Empty(dfp) ==>
      r == (var ps := ColumnsPulses(dfp); var b := BinaryFirings(rawRows, |ps|, ps);
            if b.Err? then Err(b.error) else Ok((ps, b.value)))
    ensures r.Ok? ==> FrameOk(r.value.1)
  {
    if Empty(dfp) && Empty(bin) then Err(ValueError)
    else if !Empty(dfp) && !Empty(bin) then Ok((ColumnsPulses(dfp), Data(bin)))
    else if Empty(dfp) then Ok((PulsesFromBinary(Data(bin)), Data(bin)))
    else
      var ps := ColumnsPulses(dfp);
      var b := BinaryFirings(rawRows, |ps|, ps);
      if b.Err? then Err(b.error) else Ok((ps, b.value))
  }

  /** A filtered and NaN-free table, or the placeholder when nothing is left. */
  function OrPlaceholder(t: Table): (f: Frame)
    requires TableOk(t)
    ensures FrameOk(f)
    ensures Empty(t) <==> f == EmptyPlaceholder()
  {
    if Empty(t) then EmptyPlaceholder() else Data(t)
  }

  /**
   * `emg_from_customcsv`: the raw signal is compulsory, and at least one
   * of MUPULSES and BINARY_MUS_FIRING; EMG_LENGTH and NUMBER_OF_MUS are the
   * shape of the binary table; the optional tables fall back to empty ones.
   */
  function CustomCsvFile(csv: Table, filename: string, labels: CsvLabels, fsamp: real, ied: real): (r: Result<EmgFile>)
    requires TableOk(csv)
    ensures Empty(DropNa(Filter(csv, [labels.rawSignal]))) ==> r == Err(ValueError)
    ensures Empty(Filter(csv, [labels.mupulses])) && Empty(DropNa(Filter(csv, [labels.binary]))) ==> r == Err(ValueError)
    ensures r.Ok? ==> r.value.source == "CUSTOMCSV" && r.value.fsamp == fsamp && r.value.ied == Num(ied)
    ensures r.Ok? ==> r.value.rawSignal == Data(DropNa(Filter(csv, [labels.rawSignal])))
    ensures r.Ok? ==> FrameOk(r.value.binary)
    ensures r.Ok? ==> r.value.emgLength == r.value.binary.rows && r.value.numberOfMus == |r.value.binary.cols|
  {
    var raw := DropNa(Filter(csv, [labels.rawSignal]));
    if Empty(raw) then Err(ValueError)
    else
      var dfp := Filter(csv, [labels.mupulses]);
      var bin := DropNa(Filter(csv, [labels.binary]));
      var fb := CsvFirings(raw.rows, dfp, bin);
      if fb.Err? then Err(fb.error)
      else
        var mupulses := fb.value.0;
        var binary := fb.value.1;
        var n := |binary.cols|;
        var ipts := DropNa(Filter(csv, [labels.ipts]));
        var acc := DropNa(Filter(csv, [labels.accuracy]));
        var accuracy := if Empty(acc) then EmptyPlaceholder() else Frame(|Melt(acc.cols)|, [Melt(acc.cols)]);
        Ok(EmgFile("CUSTOMCSV", filename, Data(raw), OrPlaceholder(DropNa(Filter(csv, [labels.refSignal]))),
                   Some(accuracy), None, None, if Empty(ipts) then EmptyColumns(n) else Data(ipts),
                   mupulses, fsamp, Num(ied), binary.rows, n, binary, OrPlaceholder(Filter(csv, [labels.extras]))))
  }

  /** The pulse columns of a CSV, written as `PulseColumn`s padded to the table's length. */
  predicate PulseColumnsHold(dfp: Table, mp: seq<seq<int>>)
  {
    |dfp.cols| == |mp| && forall c :: 0 <= c < |mp| ==> |mp[c]| <= dfp.rows && dfp.cols[c] == PulseColumn(mp[c], dfp.rows - |mp[c]|)
  }

  /**
   * A CSV with a raw signal and pulse columns only: the binary table is
   * derived over the raw signal's length, one column per pulse column,
   * and reading it back gives the pulses again when they are increasing
   * sample indices of the recording.
   */
  lemma CustomCsvFromPulses(csv: Table, filename: string, labels: CsvLabels, fsamp: real, ied: real, mp: seq<seq<int>>)
    requires TableOk(csv)
    requires !Empty(DropNa(Filter(csv, [labels.rawSignal])))
    requires Empty(DropNa(Filter(csv, [labels.binary]))) && !Empty(Filter(csv, [labels.mupulses]))
    requires PulseColumnsHold(Filter(csv, [labels.mupulses]), mp)
    requires forall mu :: 0 <= mu < |mp| ==> StrictlyIncreasing(mp[mu])
    requires forall mu, k :: 0 <= mu < |mp| && 0 <= k < |mp[mu]| ==> 0 <= mp[mu][k] < DropNa(Filter(csv, [labels.rawSignal])).rows
    ensures CustomCsvFile(csv, filename, labels, fsamp, ied).Ok?
    ensures var f := CustomCsvFile(csv, filename, labels, fsamp, ied).value;
      f.mupulses == mp && f.numberOfMus == |mp| && f.emgLength == f.rawSignal.rows
      && forall mu :: 0 <= mu < |mp| ==> Tools.FiringSamples(f.binary.cols[mu]) == mp[mu]
  {
    var dfp := Filter(csv, [labels.mupulses]);
    var len := DropNa(Filter(csv, [labels.rawSignal])).rows;
    PulseColumnsRead(dfp, mp);
    BinaryReadsBack(len, mp);
  }

  lemma PulseColumnsRead(dfp: Table, mp: seq<seq<int>>)
    requires PulseColumnsHold(dfp, mp)
    ensures ColumnsPulses(dfp) == mp
  {
    forall c | 0 <= c < |mp| ensures CsvPulses(dfp.cols[c]) == mp[c] {
      CsvPulsesRoundTrip(mp[c], dfp.rows - |mp[c]|);
    }
  }

  /** Increasing pulses inside the recording: the binary table exists and reads back to the pulses. */
  lemma BinaryReadsBack(len: nat, mp: seq<seq<int>>)
    requires forall mu :: 0 <= mu < |mp| ==> StrictlyIncreasing(mp[mu])
    requires forall mu, k :: 0 <= mu < |mp| && 0 <= k < |mp[mu]| ==> 0 <= mp[mu][k] < len
    ensures BinaryFirings(len, |mp|, mp).Ok?
    ensures forall mu :: 0 <= mu < |mp| ==> Tools.FiringSamples(BinaryFirings(len, |mp|, mp).value.cols[mu]) == mp[mu]
  {
    assert !Tools.BinaryIndexError(len, |mp|, mp);
    var b := BinaryFirings(len, |mp|, mp).value;
    forall mu | 0 <= mu < |mp| ensures Tools.FiringSamples(b.cols[mu]) == mp[mu] {
      assert b.cols[mu] == seq(len, t => if Tools.FiresAt(mp[mu], len, t) then Num(1.0) else Num(0.0));
      Tools.BinaryRoundTrip(mp[mu], len);
    }
  }

  /** A CSV with binary firings only: MUPULSES are read off the NaN-free binary columns. */
  lemma CustomCsvFromBinary(csv: Table, filename: string, labels: CsvLabels, fsamp: real, ied: real)
    requires TableOk(csv)
    requires !Empty(DropNa(Filter(csv, [labels.rawSignal])))
    requires !Empty(DropNa(Filter(csv, [labels.binary]))) && Empty(Filter(csv, [labels.mupulses]))
    ensures CustomCsvFile(csv, filename, labels, fsamp, ied).Ok?
    ensures var f := CustomCsvFile(csv, filename, labels, fsamp, ied).value;
      var b := DropNa(Filter(csv, [labels.binary]));
      f.binary == Data(b) && f.mupulses == PulsesFromBinary(f.binary)
      && f.numberOfMus == |f.mupulses| && f.emgLength == b.rows
      && PulsesInRecording(f)
  {
  }

  /** Without IPTS columns the CSV loader gives an empty IPTS with one column per MU. */
  lemma CustomCsvWithoutIpts(csv: Table, filename: string, labels: CsvLabels, fsamp: real, ied: real)
    requires TableOk(csv)
    requires Empty(DropNa(Filter(csv, [labels.ipts])))
    requires CustomCsvFile(csv, filename, labels, fsamp, ied).Ok?
    ensures var f := CustomCsvFile(csv, filename, labels, fsamp, ied).value;
      f.ipts == EmptyColumns(f.numberOfMus) && f.ipts.rows == 0
  {
  }

  /** The per-column MUPULSES loop of the CSV loader. */
  method CollectCsvPulses(dfp: Table) returns (mp: seq<seq<int>>)
    ensures mp == ColumnsPulses(dfp)
  {
    mp := [];
    for c := 0 to |dfp.cols|
      invariant |mp| == c && forall k :: 0 <= k < c ==> mp[k] == CsvPulses(dfp.cols[k])
    {
      mp := mp + [CsvPulses(dfp.cols[c])];
    }
  }

  /** The loader, with the MUPULSES loops and `create_binary_firings`. */
  method EmgFromCustomCsv(csv: Table, filename: string, labels: CsvLabels, fsamp: real, ied: real) returns (r: Result<EmgFile>)
    requires TableOk(csv)
    ensures r == CustomCsvFile(csv, filename, labels, fsamp, ied)
  {
    var raw := DropNa(Filter(csv, [labels.rawSignal]));
    if Empty(raw) {
      return Err(ValueError);
    }
    var dfp := Filter(csv, [labels.mupulses]);
    var bin := DropNa(Filter(csv, [labels.binary]));
    var mupulses: seq<seq<int>>;
    var binary: Frame;
    if Empty(dfp) && Empty(bin) {
      return Err(ValueError);
    } else if !Empty(dfp) && !Empty(bin) {
      mupulses := CollectCsvPulses(dfp);
      binary := Data(bin);
    } else if Empty(dfp) {
      binary := Data(bin);
      mupulses := PulsesFromBinary(binary);
    } else {
      mupulses := CollectCsvPulses(dfp);
      var b := CallBinaryFirings(raw.rows, |mupulses|, mupulses);
      if b.Err? {
        return Err(b.error);
      }
      binary := b.value;
    }
    assert CsvFirings(raw.rows, dfp, bin) == Ok((mupulses, binary));
    var n := |binary.cols|;
    var ipts := DropNa(Filter(csv, [labels.ipts]));
    var acc := DropNa(Filter(csv, [labels.accuracy]));
    var accuracy := if Empty(acc) then EmptyPlaceholder() else Frame(|Melt(acc.cols)|, [Melt(acc.cols)]);
    r := Ok(EmgFile("CUSTOMCSV", filename, Data(raw), OrPlaceholder(DropNa(Filter(csv, [labels.refSignal]))),
                    Some(accuracy), None, None, if Empty(ipts) then EmptyColumns(n) else Data(ipts),
                    mupulses, fsamp, Num(ied), binary.rows, n, binary, OrPlaceholder(Filter(csv, [labels.extras]))));
  }
}
