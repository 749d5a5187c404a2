/**
 * The MUAP tools of the older top-level package (openhdemg/muap.py): the
 * five hard-coded matrix columns of `unpack_sta`/`pack_sta`, the `sta`
 * that averages every window (complete or not), `tracking` and the
 * munumber/PNR/SIL rule of `remove_duplicates_between`.  Its `diff` and
 * `double_diff` are the library's code and are modelled once, in Muap.
 */
module OldMuap {
  import opened Common
  import opened EmgRecord
  import Tools
  import OldTools
  import Muap
  import Tracking

  // ---------------------------------------------------------------------
  // unpack_sta / pack_sta with five matrix columns

  const FiveKeys: seq<string> := ["col0", "col1", "col2", "col3", "col4"]

  lemma FiveKeysDistinct()
    ensures Muap.Distinct(FiveKeys)
  {
  }

  predicate HasFiveKeys(m: Muap.Matrix)
  {
    forall i :: 0 <= i < 5 ==> FiveKeys[i] in m.keys
  }

  /** `sta_mu1["col0"]`, ..., `sta_mu1["col4"]`: the blocks of the five keys, by dict lookup. */
  function Selected(m: Muap.Matrix): (s: Muap.Matrix)
    requires Muap.MatrixOk(m) && HasFiveKeys(m)
    ensures Muap.MatrixOk(s) && s.keys == FiveKeys && |s.blocks| == 5
    ensures forall i :: 0 <= i < 5 ==> s.blocks[i] == m.blocks[Muap.LastIndex(m.keys, FiveKeys[i])]
  {
    Muap.Matrix(FiveKeys, seq(5, i requires 0 <= i < 5 => m.blocks[Muap.LastIndex(m.keys, FiveKeys[i])]))
  }

  /**
   * The older `unpack_sta`: the channels of col0 .. col4 side by side (a
   * missing key is a KeyError); any further column is not read.
   */
  function Unpack(m: Muap.Matrix): (r: Result<Muap.Block>)
    requires Muap.MatrixOk(m)
    ensures r.Ok? <==> HasFiveKeys(m)
    ensures r.Err? ==> r.error == KeyError
    ensures r.Ok? ==> Muap.Unpack(Selected(m)) == Ok((r.value, FiveKeys))
  {
    if !HasFiveKeys(m) then Err(KeyError)
    else Ok(Muap.Unpack(Selected(m)).value.0)
  }

  /** The older `pack_sta`: five blocks of ceil(n / 5) consecutive channels, keyed col0 .. col4. */
  function Pack(b: Muap.Block): (m: Muap.Matrix)
    ensures m.keys == FiveKeys && |m.blocks| == 5
    ensures forall q :: 0 <= q < 5 ==> m.blocks[q] == Muap.PackedBlock(b, CeilDiv(|b.cols|, 5), q)
    ensures Muap.Pack(b, FiveKeys) == Ok(m)
  {
    Muap.PackDistinct(b, FiveKeys);
    Muap.Pack(b, FiveKeys).value
  }

  /** A matrix keyed exactly col0 .. col4 is its own selection. */
  lemma SelectedOfFive(m: Muap.Matrix)
    requires Muap.MatrixOk(m) && m.keys == FiveKeys
    ensures HasFiveKeys(m) && Selected(m) == m
  {
    forall i | 0 <= i < 5 ensures Muap.LastIndex(m.keys, FiveKeys[i]) == i {
      Muap.LastIndexDistinct(FiveKeys, i);
    }
    assert Selected(m).blocks == m.blocks;
  }

  /** `pack_sta(unpack_sta(m))` restores five equally wide, equally tall columns. */
  lemma PackUnpack(m: Muap.Matrix, w: nat)
    requires Muap.MatrixOk(m) && m.keys == FiveKeys && Muap.Uniform(m, w)
    ensures Unpack(m).Ok? && Pack(Unpack(m).value) == m
  {
    SelectedOfFive(m);
    FiveKeysDistinct();
    Muap.PackUnpack(m, w);
    assert Muap.Unpack(m) == Ok((Unpack(m).value, FiveKeys));
    assert Muap.Pack(Unpack(m).value, FiveKeys) == Ok(m);
  }

  /** `unpack_sta(pack_sta(b))` gives every channel back, in order. */
  lemma UnpackPack(b: Muap.Block)
    requires Muap.BlockOk(b)
    ensures Muap.MatrixOk(Pack(b)) && Unpack(Pack(b)) == Ok(b)
  {
    Muap.UnpackPack(b, FiveKeys);
    SelectedOfFive(Pack(b));
  }

  /**
   * On a matrix with more columns whose first five keys are col0 .. col4
   * (the eight columns of a 10 mm 8x8 grid), unpacking reads only those five.
   */
  lemma UnpackReadsFiveColumns(m: Muap.Matrix)
    requires Muap.MatrixOk(m) && Muap.Distinct(m.keys) && |m.keys| >= 5 && m.keys[..5] == FiveKeys
    ensures Unpack(m).Ok?
    ensures Muap.Unpack(Muap.Matrix(FiveKeys, m.blocks[..5])) == Ok((Unpack(m).value, FiveKeys))
  {
    forall i | 0 <= i < 5 ensures FiveKeys[i] in m.keys && Muap.LastIndex(m.keys, FiveKeys[i]) == i {
      assert m.keys[i] == FiveKeys[i];
      Muap.LastIndexDistinct(m.keys, i);
    }
    assert Selected(m) == Muap.Matrix(FiveKeys, m.blocks[..5]);
  }

  // ---------------------------------------------------------------------
  // sta: every window averaged

  /** The length of `signal[p - h : p + h]` in a signal of `n` samples. */
  function WindowLength(n: nat, p: int, h: int): nat
  {
    Max(0, SliceBound(p + h, n) - SliceBound(p - h, n))
  }

  /** The longest window: the rows of the frame the windows are collected in. */
  function StaLength(n: nat, pulses: seq<int>, h: int): (l: nat)
    ensures forall k :: 0 <= k < |pulses| ==> WindowLength(n, pulses[k], h) <= l
    ensures |pulses| > 0 ==> exists k :: 0 <= k < |pulses| && l == WindowLength(n, pulses[k], h)
    ensures pulses == [] ==> l == 0
  {
    if pulses == [] then 0
    else
      var p := pulses[..|pulses| - 1];
      var rest := StaLength(n, p, h);
      assert forall k :: 0 <= k < |p| ==> p[k] == pulses[k];
      Max(rest, WindowLength(n, pulses[|pulses| - 1], h))
  }

  /** The window around every firing, in firing order, complete or not. */
  function AllWindows(sig: Column, pulses: seq<int>, h: int): (ws: seq<Column>)
    ensures |ws| == |pulses|
    ensures forall i :: 0 <= i < |pulses| ==> ws[i] == Muap.Window(sig, pulses[i], h)
    ensures forall i :: 0 <= i < |pulses| ==> |ws[i]| == WindowLength(|sig|, pulses[i], h)
  {
    seq(|pulses|, i requires 0 <= i < |pulses| => Muap.Window(sig, pulses[i], h))
  }

  /** Sample `t` of every window, NaN where a window is shorter (the frame aligns them on the index). */
  function PaddedSample(ws: seq<Column>, t: nat): (xs: seq<Float>)
    ensures |xs| == |ws|
    ensures forall i :: 0 <= i < |ws| ==> xs[i] == if t < |ws[i]| then ws[i][t] else NaN
  {
    seq(|ws|, i requires 0 <= i < |ws| => if t < |ws[i]| then ws[i][t] else NaN)
  }

  /** Per sample, the NaN-skipping mean over the windows, for `len` samples. */
  function PaddedMean(ws: seq<Column>, len: nat): (c: Column)
    ensures |c| == len
    ensures forall t :: 0 <= t < len ==> c[t] == NanMean(PaddedSample(ws, t))
  {
    seq(len, t requires 0 <= t < len => NanMean(PaddedSample(ws, t)))
  }

  /**
   * The older STA of one channel: as long as the longest window, each sample
   * the NaN-skipping mean (`DataFrame.mean(axis="columns")`) over the windows.
   */
  function ChannelSta(sig: Column, pulses: seq<int>, h: int): (c: Column)
    ensures |c| == StaLength(|sig|, pulses, h)
    ensures forall t :: 0 <= t < |c| ==> c[t] == NanMean(PaddedSample(AllWindows(sig, pulses, h), t))
  {
    PaddedMean(AllWindows(sig, pulses, h), StaLength(|sig|, pulses, h))
  }

  /** The STA of one matrix column: every channel averaged; no channels is an empty frame. */
  function StaBlockOf(b: Muap.Block, pulses: seq<int>, h: int): (r: Muap.Block)
    requires Muap.BlockOk(b)
    ensures Muap.BlockOk(r) && r.labels == b.labels && |r.cols| == |b.cols|
    ensures forall c :: 0 <= c < |b.cols| ==> r.cols[c] == ChannelSta(b.cols[c], pulses, h)
  {
    var rows := if |b.cols| == 0 then 0 else StaLength(b.rows, pulses, h);
    var cols := seq(|b.cols|, c requires 0 <= c < |b.cols| => ChannelSta(b.cols[c], pulses, h));
    assert forall c :: 0 <= c < |b.cols| ==> |b.cols[c]| == b.rows;
    Muap.Block(rows, b.labels, cols)
  }

  /** The window loop over the firings of one channel. */
  method ChannelWindows(sig: Column, pulses: seq<int>, h: int) returns (ws: seq<Column>)
    ensures ws == AllWindows(sig, pulses, h)
  {
    ws := [];
    for pos := 0 to |pulses|
      invariant ws == AllWindows(sig, pulses[..pos], h)
    {
      assert pulses[..pos + 1][..pos] == pulses[..pos];
      ws := ws + [Muap.Window(sig, pulses[pos], h)];
    }
    assert pulses[..|pulses|] == pulses;
  }

  /** The first |cols| channel STAs of the block. */
  predicate ChannelsDone(b: Muap.Block, pulses: seq<int>, h: int, cols: seq<Column>)
  {
    |cols| <= |b.cols| && forall i :: 0 <= i < |cols| ==> cols[i] == ChannelSta(b.cols[i], pulses, h)
  }

  lemma ChannelsDoneSnoc(b: Muap.Block, pulses: seq<int>, h: int, cols: seq<Column>, col: Column)
    requires ChannelsDone(b, pulses, h, cols) && |cols| < |b.cols| && col == ChannelSta(b.cols[|cols|], pulses, h)
    ensures ChannelsDone(b, pulses, h, cols + [col])
  {
    var f := (c: Column) => ChannelSta(c, pulses, h);
    assert MapsPrefix(b.cols, cols, f);
    MapsPrefixSnoc(b.cols, cols, f, col);
  }

  lemma ChannelsDoneBlock(b: Muap.Block, pulses: seq<int>, h: int, cols: seq<Column>)
    requires Muap.BlockOk(b) && ChannelsDone(b, pulses, h, cols) && |cols| == |b.cols|
    ensures StaBlockOf(b, pulses, h).cols == cols
  {
  }

  /** The channel loop over one matrix column. */
  method StaBlock(b: Muap.Block, pulses: seq<int>, h: int) returns (r: Muap.Block)
    requires Muap.BlockOk(b)
    ensures r == StaBlockOf(b, pulses, h)
  {
    var cols: seq<Column> := [];
    for c := 0 to |b.cols|
      invariant |cols| == c && ChannelsDone(b, pulses, h, cols)
    {
      var ws := ChannelWindows(b.cols[c], pulses, h);
      var col := PaddedMean(ws, StaLength(|b.cols[c]|, pulses, h));
      ChannelsDoneSnoc(b, pulses, h, cols, col);
      cols := cols + [col];
    }
    ChannelsDoneBlock(b, pulses, h, cols);
    var rows := if |b.cols| == 0 then 0 else StaLength(b.rows, pulses, h);
    r := Muap.Block(rows, b.labels, cols);
  }

  function StaMatrixOf(m: Muap.Matrix, pulses: seq<int>, h: int): (r: Muap.Matrix)
    requires Muap.MatrixOk(m)
    ensures Muap.MatrixOk(r) && r.keys == m.keys && |r.blocks| == |m.blocks|
    ensures forall k :: 0 <= k < |m.blocks| ==> r.blocks[k] == StaBlockOf(m.blocks[k], pulses, h)
  {
    Muap.Matrix(m.keys, seq(|m.blocks|, k requires 0 <= k < |m.blocks| => StaBlockOf(m.blocks[k], pulses, h)))
  }

  /** The column loop for one MU. */
  method StaMatrix(m: Muap.Matrix, pulses: seq<int>, h: int) returns (r: Muap.Matrix)
    requires Muap.MatrixOk(m)
    ensures r == StaMatrixOf(m, pulses, h)
  {
    var out: seq<Muap.Block> := [];
    for k := 0 to |m.blocks|
      invariant |out| == k
      invariant forall i :: 0 <= i < k ==> out[i] == StaBlockOf(m.blocks[i], pulses, h)
    {
      var s := StaBlock(m.blocks[k], pulses, h);
      out := out + [s];
    }
    r := Muap.Matrix(m.keys, out);
  }

  /** The STA matrix of every MU, in MU order. */
  function AllStas(f: EmgFile, m: Muap.Matrix, firings: Muap.Firings, h: int, n: nat): (s: seq<Muap.Matrix>)
    requires Muap.MatrixOk(m) && n <= |f.mupulses|
    ensures |s| == n
    ensures forall mu :: 0 <= mu < n ==> s[mu] == StaMatrixOf(m, Muap.SelectedPulses(f.mupulses[mu], firings), h)
  {
    seq(n, mu requires 0 <= mu < n => StaMatrixOf(m, Muap.SelectedPulses(f.mupulses[mu], firings), h))
  }

  /**
   * The older `sta`: for every MU (results re-keyed by MU number, so in MU
   * order) the STA of its selected firings; the only failure is a
   * NUMBER_OF_MUS beyond the MUPULSES list.
   */
  function StaOf(f: EmgFile, m: Muap.Matrix, firings: Muap.Firings, timewindow: real): (r: Result<seq<Muap.Matrix>>)
    requires Muap.MatrixOk(m)
    ensures r.Ok? <==> Muap.MuCount(f) <= |f.mupulses|
    ensures r.Err? ==> r.error == IndexError
    ensures r.Ok? ==> |r.value| == Muap.MuCount(f)
  {
    var n := Muap.MuCount(f);
    if n > |f.mupulses| then Err(IndexError)
    else Ok(AllStas(f, m, firings, Muap.HalfTime(timewindow, f.fsamp), n))
  }

  predicate MusDone(f: EmgFile, m: Muap.Matrix, firings: Muap.Firings, h: int, out: seq<Muap.Matrix>)
    requires Muap.MatrixOk(m)
  {
    |out| <= |f.mupulses| && out == AllStas(f, m, firings, h, |out|)
  }

  lemma MusDoneSnoc(f: EmgFile, m: Muap.Matrix, firings: Muap.Firings, h: int, out: seq<Muap.Matrix>, s: Muap.Matrix)
    requires Muap.MatrixOk(m) && MusDone(f, m, firings, h, out) && |out| < |f.mupulses|
    requires s == StaMatrixOf(m, Muap.SelectedPulses(f.mupulses[|out|], firings), h)
    ensures MusDone(f, m, firings, h, out + [s])
  {
    var out' := out + [s];
    assert forall i :: 0 <= i < |out| ==> out'[i] == out[i];
  }

  method Sta(f: EmgFile, m: Muap.Matrix, firings: Muap.Firings, timewindow: real) returns (r: Result<seq<Muap.Matrix>>)
    requires Muap.MatrixOk(m)
    ensures r == StaOf(f, m, firings, timewindow)
  {
    var h := Muap.HalfTime(timewindow, f.fsamp);
    var out: seq<Muap.Matrix> := [];
    for mu := 0 to Muap.MuCount(f)
      invariant |out| == mu && MusDone(f, m, firings, h, out)
    {
      if mu >= |f.mupulses| {
        return Err(IndexError);
      }
      var s := StaMatrix(m, Muap.SelectedPulses(f.mupulses[mu], firings), h);
      MusDoneSnoc(f, m, firings, h, out, s);
      out := out + [s];
    }
    return Ok(out);
  }

  lemma {:induction false} CompletePositionsAll(n: nat, pulses: seq<int>, h: int)
    requires forall k :: 0 <= k < |pulses| ==> Muap.Complete(n, pulses[k], h)
    ensures Muap.CompletePositions(n, pulses, h) == seq(|pulses|, i => i)
  {
    if pulses != [] {
      var p := pulses[..|pulses| - 1];
      assert forall k :: 0 <= k < |p| ==> p[k] == pulses[k];
      CompletePositionsAll(n, p, h);
      assert seq(|p|, i => i) + [|p|] == seq(|pulses|, i => i);
    }
  }

  lemma {:induction false} NumCountAllNum(xs: seq<Float>)
    requires forall i :: 0 <= i < |xs| ==> xs[i].Num?
    ensures NumCount(xs) == |xs|
  {
    if xs != [] {
      NumCountAllNum(xs[..|xs| - 1]);
    }
  }

  /** With every window complete, the windows are the library's kept windows, each 2h long. */
  lemma AllWindowsComplete(sig: Column, pulses: seq<int>, h: int)
    requires forall k :: 0 <= k < |pulses| ==> Muap.Complete(|sig|, pulses[k], h)
    ensures AllWindows(sig, pulses, h) == Muap.KeptWindows(sig, pulses, h)
  {
    CompletePositionsAll(|sig|, pulses, h);
  }

  lemma StaLengthComplete(n: nat, pulses: seq<int>, h: int)
    requires pulses != [] && forall k :: 0 <= k < |pulses| ==> Muap.Complete(n, pulses[k], h)
    ensures StaLength(n, pulses, h) == 2 * h
  {
    var k :| 0 <= k < |pulses| && StaLength(n, pulses, h) == WindowLength(n, pulses[k], h);
    assert Muap.Complete(n, pulses[k], h);
  }

  /** A window of a NaN-free signal is NaN-free. */
  lemma WindowNum(sig: Column, p: int, h: int, t: nat)
    requires forall i :: 0 <= i < |sig| ==> sig[i].Num?
    requires t < |Muap.Window(sig, p, h)|
    ensures Muap.Window(sig, p, h)[t].Num?
  {
  }

  /** Where every window is long enough, NaN-free, the NaN-skipping mean is the plain one. */
  lemma SampleMeanAgrees(ws: seq<Column>, t: nat)
    requires |ws| > 0
    requires forall i :: 0 <= i < |ws| ==> t < |ws[i]| && ws[i][t].Num?
    ensures NanMean(PaddedSample(ws, t)) == Muap.WindowsMean(Muap.SampleAt(ws, t))
  {
    var xs := PaddedSample(ws, t);
    assert xs == Muap.SampleAt(ws, t);
    NumCountAllNum(xs);
  }

  /**
   * Where every window is complete and the signal has no NaN, the older STA
   * equals the library's, which keeps only complete windows.
   */
  lemma StaAgreesWhenComplete(sig: Column, pulses: seq<int>, h: int)
    requires pulses != []
    requires forall k :: 0 <= k < |pulses| ==> Muap.Complete(|sig|, pulses[k], h)
    requires forall t :: 0 <= t < |sig| ==> sig[t].Num?
    ensures Muap.CompletePositions(|sig|, pulses, h) != []
    ensures ChannelSta(sig, pulses, h) == Muap.ChannelSta(sig, pulses, h)
  {
    CompletePositionsAll(|sig|, pulses, h);
    AllWindowsComplete(sig, pulses, h);
    StaLengthComplete(|sig|, pulses, h);
    var c := ChannelSta(sig, pulses, h);
    var d := Muap.ChannelSta(sig, pulses, h);
    forall t | 0 <= t < 2 * h ensures c[t] == d[t] {
      CompleteSampleAgrees(sig, pulses, h, t);
    }
  }

  /** One sample of the two STAs, where every window is complete and holds numbers. */
  lemma CompleteSampleAgrees(sig: Column, pulses: seq<int>, h: int, t: int)
    requires pulses != [] && 0 <= t < 2 * h
    requires forall k :: 0 <= k < |pulses| ==> Muap.Complete(|sig|, pulses[k], h)
    requires forall j :: 0 <= j < |sig| ==> sig[j].Num?
    requires Muap.CompletePositions(|sig|, pulses, h) != []
    requires AllWindows(sig, pulses, h) == Muap.KeptWindows(sig, pulses, h)
    requires StaLength(|sig|, pulses, h) == 2 * h
    ensures |ChannelSta(sig, pulses, h)| == 2 * h && |Muap.ChannelSta(sig, pulses, h)| == 2 * h
    ensures ChannelSta(sig, pulses, h)[t] == Muap.ChannelSta(sig, pulses, h)[t]
  {
    var ws: seq<Column> := AllWindows(sig, pulses, h);
    forall i | 0 <= i < |ws| ensures t < |ws[i]| && ws[i][t].Num? {
      WindowNum(sig, pulses[i], h, t);
    }
    SampleMeanAgrees(ws, t);
  }

  /**
   * A firing closer to the start than half the window, in a signal longer
   * than the window, gets an EMPTY window: the negative slice start counts
   * from the end of the signal.
   */
  lemma EarlyFiringEmptyWindow(n: nat, p: int, h: int)
    requires 0 <= p < h && 2 * h <= n
    ensures WindowLength(n, p, h) == 0
  {
  }

  /** The older `sta` succeeds on every file whose MUPULSES has an entry per MU, also for MUs without firings. */
  lemma StaShape(f: EmgFile, m: Muap.Matrix, firings: Muap.Firings, timewindow: real, mu: nat, k: nat)
    requires Muap.MatrixOk(m) && Muap.MuCount(f) <= |f.mupulses| && mu < Muap.MuCount(f) && k < |m.blocks|
    ensures StaOf(f, m, firings, timewindow).Ok?
    ensures var s := StaOf(f, m, firings, timewindow).value[mu];
      s.keys == m.keys && |s.blocks| == |m.blocks| && s.blocks[k].labels == m.blocks[k].labels
      && (|m.blocks[k].cols| > 0 ==>
            s.blocks[k].rows == StaLength(m.blocks[k].rows, Muap.SelectedPulses(f.mupulses[mu], firings), Muap.HalfTime(timewindow, f.fsamp)))
  {
  }

  // ---------------------------------------------------------------------
  // tracking

  /**
   * The older `tracking`: the sorting and STA of both files (their first
   * error, if any, given as inputs), the table of pairs, the filter; no MU
   * in file 1 leaves the table a list and raises AttributeError.
   */
  function TrackingOf(n1: int, n2: int, sortError: Option<Error>, staError: Option<Error>, xcc: (int, int) -> real,
                      threshold: real, exclude: bool, filter: bool): (r: Result<seq<Tracking.TrackRow>>)
    ensures r.Ok? <==> sortError.None? && staError.None? && n1 > 0
    ensures sortError.Some? ==> r == Err(sortError.value)
    ensures sortError.None? && staError.Some? ==> r == Err(staError.value)
    ensures sortError.None? && staError.None? && n1 <= 0 ==> r == Err(AttributeError)
  {
    if sortError.Some? then Err(sortError.value)
    else if staError.Some? then Err(staError.value)
    else if n1 <= 0 then Err(AttributeError)
    else
      var rows := Tracking.AllRows(n1, Max(0, n2), xcc, threshold, exclude);
      Ok(if filter then Tracking.Filtered(rows) else rows)
  }

  method Track(n1: int, n2: int, sortError: Option<Error>, staError: Option<Error>, xcc: (int, int) -> real,
               threshold: real, exclude: bool, filter: bool) returns (r: Result<seq<Tracking.TrackRow>>)
    ensures r == TrackingOf(n1, n2, sortError, staError, xcc, threshold, exclude, filter)
  {
    if sortError.Some? {
      return Err(sortError.value);
    }
    if staError.Some? {
      return Err(staError.value);
    }
    var rows := Tracking.TrackingRows(Max(0, n1), Max(0, n2), xcc, threshold, exclude);
    if n1 <= 0 {
      return Err(AttributeError);
    }
    if filter {
      rows := Tracking.TrackingFilter(rows);
    }
    return Ok(rows);
  }

  /** The older table and filter are the library's, on the monopolar STAs. */
  lemma TrackingAgreesWithLibrary(n1: int, n2: int, sortError: Option<Error>, staError: Option<Error>,
                                  xcc: (int, int) -> real, threshold: real, exclude: bool, filter: bool)
    ensures TrackingOf(n1, n2, sortError, staError, xcc, threshold, exclude, filter)
         == Tracking.TrackingIntended(n1, n2, Tracking.ComputedSta("mono", sortError, staError), xcc, threshold, exclude, filter)
  {
  }

  // ---------------------------------------------------------------------
  // remove_duplicates_between: munumber, PNR or SIL

  /** `emgfile["PNR"].loc[mu][0]` (or SIL): a KeyError for a missing key or row. */
  function ScoreOf(f: EmgFile, which: string, mu: int): Result<Float>
  {
    var t := if which == "PNR" then f.pnr else f.sil;
    if t.None? then Err(KeyError)
    else if mu < 0 || mu >= |t.value| then Err(KeyError)
    else Ok(t.value[mu])
  }

  predicate ScoresKnown(f1: EmgFile, f2: EmgFile, which: string, row: Tracking.TrackRow)
  {
    ScoreOf(f1, which, row.mu1).Ok? && ScoreOf(f2, which, row.mu2).Ok?
  }

  /** The pair's MU leaves file 1 when its score is not higher (ties too), else file 2. */
  predicate RemoveFromFirst(f1: EmgFile, f2: EmgFile, which: string, row: Tracking.TrackRow)
    requires ScoresKnown(f1, f2, which, row)
  {
    Tracking.LeFloat(ScoreOf(f1, which, row.mu1).value, ScoreOf(f2, which, row.mu2).value)
  }

  /** The two removal lists, or the KeyError of the first missing score. */
  function RemovalLists(f1: EmgFile, f2: EmgFile, which: string, rows: seq<Tracking.TrackRow>): (r: Result<(seq<int>, seq<int>)>)
    ensures r.Err? ==> r.error == KeyError
  {
    if rows == [] then Ok(([], []))
    else
      var prev := RemovalLists(f1, f2, which, rows[..|rows| - 1]);
      var row := rows[|rows| - 1];
      if prev.Err? then prev
      else if ScoreOf(f1, which, row.mu1).Err? then Err(KeyError)
      else if ScoreOf(f2, which, row.mu2).Err? then Err(KeyError)
      else if RemoveFromFirst(f1, f2, which, row) then Ok((prev.value.0 + [row.mu1], prev.value.1))
      else Ok((prev.value.0, prev.value.1 + [row.mu2]))
  }

  /** The loop over the tracked pairs. */
  method ScoreRemovals(f1: EmgFile, f2: EmgFile, which: string, rows: seq<Tracking.TrackRow>)
    returns (r: Result<(seq<int>, seq<int>)>)
    ensures r == RemovalLists(f1, f2, which, rows)
  {
    var toRemove1, toRemove2 := [], [];
    for i := 0 to |rows|
      invariant RemovalLists(f1, f2, which, rows[..i]) == Ok((toRemove1, toRemove2))
    {
      assert rows[..i + 1][..i] == rows[..i];
      var s1 := ScoreOf(f1, which, rows[i].mu1);
      var s2 := ScoreOf(f2, which, rows[i].mu2);
      if s1.Err? || s2.Err? {
        RemovalListsPrefixErr(f1, f2, which, rows, i + 1);
        return Err(KeyError);
      }
      if Tracking.LeFloat(s1.value, s2.value) {
        toRemove1 := toRemove1 + [rows[i].mu1];
      } else {
        toRemove2 := toRemove2 + [rows[i].mu2];
      }
    }
    assert rows[..|rows|] == rows;
    return Ok((toRemove1, toRemove2));
  }

  lemma {:induction false} RemovalListsPrefixErr(f1: EmgFile, f2: EmgFile, which: string, rows: seq<Tracking.TrackRow>, j: nat)
    requires j <= |rows| && RemovalLists(f1, f2, which, rows[..j]).Err?
    ensures RemovalLists(f1, f2, which, rows) == RemovalLists(f1, f2, which, rows[..j])
    decreases |rows| - j
  {
    if j < |rows| {
      var n := |rows| - 1;
      assert rows[..n][..j] == rows[..j];
      RemovalListsPrefixErr(f1, f2, which, rows[..n], j);
    } else {
      assert rows[..j] == rows;
    }
  }

  /**
   * The lists exist exactly when every pair's scores are known; then each
   * pair sends one MU to one list, and a list holds only MUs of its pairs.
   */
  lemma {:induction false} RemovalListsSplit(f1: EmgFile, f2: EmgFile, which: string, rows: seq<Tracking.TrackRow>)
    ensures RemovalLists(f1, f2, which, rows).Ok? <==> forall k :: 0 <= k < |rows| ==> ScoresKnown(f1, f2, which, rows[k])
    ensures RemovalLists(f1, f2, which, rows).Ok? ==>
      |RemovalLists(f1, f2, which, rows).value.0| + |RemovalLists(f1, f2, which, rows).value.1| == |rows|
    ensures RemovalLists(f1, f2, which, rows).Ok? ==> forall mu ::
      mu in RemovalLists(f1, f2, which, rows).value.0 <==>
        exists k :: 0 <= k < |rows| && rows[k].mu1 == mu && RemoveFromFirst(f1, f2, which, rows[k])
    ensures RemovalLists(f1, f2, which, rows).Ok? ==> forall mu ::
      mu in RemovalLists(f1, f2, which, rows).value.1 <==>
        exists k :: 0 <= k < |rows| && rows[k].mu2 == mu && !RemoveFromFirst(f1, f2, which, rows[k])
  {
    if rows != [] {
      var p := rows[..|rows| - 1];
      RemovalListsSplit(f1, f2, which, p);
      assert forall k :: 0 <= k < |p| ==> p[k] == rows[k];
    }
  }

  /** With each MU in at most one pair per side, both lists are free of repeats. */
  lemma {:induction false} RemovalListsDistinct(f1: EmgFile, f2: EmgFile, which: string, rows: seq<Tracking.TrackRow>)
    requires Tracking.KeyDistinct(rows, Tracking.ByMu1) && Tracking.KeyDistinct(rows, Tracking.ByMu2)
    requires RemovalLists(f1, f2, which, rows).Ok?
    ensures Muap.Distinct(RemovalLists(f1, f2, which, rows).value.0)
    ensures Muap.Distinct(RemovalLists(f1, f2, which, rows).value.1)
  {
    if rows != [] {
      var p := rows[..|rows| - 1];
      var row := rows[|rows| - 1];
      assert forall k :: 0 <= k < |p| ==> p[k] == rows[k];
      assert Tracking.KeyDistinct(p, Tracking.ByMu1) && Tracking.KeyDistinct(p, Tracking.ByMu2) by {
        assert forall i, j :: 0 <= i < j < |p| ==> p[i] == rows[i] && p[j] == rows[j];
      }
      assert RemovalLists(f1, f2, which, p).Ok?;
      RemovalListsDistinct(f1, f2, which, p);
      RemovalListsSplit(f1, f2, which, p);
      var l := RemovalLists(f1, f2, which, p).value;
      forall k | 0 <= k < |p| ensures p[k].mu1 != row.mu1 && p[k].mu2 != row.mu2 {
        assert Tracking.Key(rows[k], Tracking.ByMu1) != Tracking.Key(rows[|rows| - 1], Tracking.ByMu1);
        assert Tracking.Key(rows[k], Tracking.ByMu2) != Tracking.Key(rows[|rows| - 1], Tracking.ByMu2);
      }
      assert row.mu1 !in l.0 && row.mu2 !in l.1;
      DistinctSnoc(l.0, row.mu1);
      DistinctSnoc(l.1, row.mu2);
    }
  }

  lemma DistinctSnoc(s: seq<int>, x: int)
    requires Muap.Distinct(s) && x !in s
    ensures Muap.Distinct(s + [x])
  {
    var s' := s + [x];
    assert forall i :: 0 <= i < |s| ==> s'[i] == s[i];
  }

  /** The parameters of the older `delete_mus`. */
  const DeleteMusParams: seq<string> := ["emgfile", "munumber"]

  /** The keywords `remove_duplicates_between` passes to `delete_mus`. */
  const AsWrittenKeywords: seq<string> := ["emgfile", "munumber", "if_single_mu"]

  /** The keywords the older `delete_mus` accepts. */
  const IntendedKeywords: seq<string> := ["emgfile", "munumber"]

  predicate Accepted(keywords: seq<string>)
  {
    forall i :: 0 <= i < |keywords| ==> keywords[i] in DeleteMusParams
  }

  /** A call of the older `delete_mus` with these keywords: an unknown keyword is a TypeError. */
  function DeleteMusCall(f: EmgFile, munumber: Tools.MuSelector, keywords: seq<string>): (r: Result<EmgFile>)
    ensures !Accepted(keywords) ==> r == Err(TypeError)
    ensures Accepted(keywords) ==> r == OldTools.DeleteMusOf(f, munumber)
  {
    if !Accepted(keywords) then Err(TypeError) else OldTools.DeleteMusOf(f, munumber)
  }

  method DeleteMusWith(f: EmgFile, munumber: Tools.MuSelector, keywords: seq<string>) returns (r: Result<EmgFile>)
    ensures r == DeleteMusCall(f, munumber, keywords)
  {
    if !Accepted(keywords) {
      return Err(TypeError);
    }
    r := OldTools.DeleteMus(f, munumber);
  }

  /**
   * `remove_duplicates_between` with the deletions called with `keywords`:
   * tracking with the threshold, then by "munumber" the tracked MUs leave
   * the file with more MUs (file 1 on a tie), by "PNR"/"SIL" each pair's
   * MU with the lower score leaves its file; any other rule is a ValueError.
   */
  function RemoveDuplicatesOf(f1: EmgFile, f2: EmgFile, sortError: Option<Error>, staError: Option<Error>,
                              xcc: (int, int) -> real, threshold: real, filter: bool, which: string,
                              keywords: seq<string>): Result<(EmgFile, EmgFile)>
  {
    var t := TrackingOf(f1.numberOfMus, f2.numberOfMus, sortError, staError, xcc, threshold, true, filter);
    if t.Err? then Err(t.error)
    else if which == "munumber" then
      if f1.numberOfMus >= f2.numberOfMus then
        var d := DeleteMusCall(f1, Tools.MuList(Tracking.Mu1s(t.value)), keywords);
        if d.Err? then Err(d.error) else Ok((d.value, f2))
      else
        var d := DeleteMusCall(f2, Tools.MuList(Tracking.Mu2s(t.value)), keywords);
        if d.Err? then Err(d.error) else Ok((f1, d.value))
    else if which == "PNR" || which == "SIL" then
      var l := RemovalLists(f1, f2, which, t.value);
      if l.Err? then Err(l.error)
      else
        var d1 := DeleteMusCall(f1, Tools.MuList(l.value.0), keywords);
        var d2 := DeleteMusCall(f2, Tools.MuList(l.value.1), keywords);
        if d1.Err? then Err(d1.error)
        else if d2.Err? then Err(d2.error)
        else Ok((d1.value, d2.value))
    else Err(ValueError)
  }

  method RemoveDuplicatesBetween(f1: EmgFile, f2: EmgFile, sortError: Option<Error>, staError: Option<Error>,
                                 xcc: (int, int) -> real, threshold: real, filter: bool, which: string,
                                 keywords: seq<string>)
    returns (r: Result<(EmgFile, EmgFile)>)
    ensures r == RemoveDuplicatesOf(f1, f2, sortError, staError, xcc, threshold, filter, which, keywords)
  {
    var t := Track(f1.numberOfMus, f2.numberOfMus, sortError, staError, xcc, threshold, true, filter);
    if t.Err? {
      return Err(t.error);
    }
    if which == "munumber" {
      if f1.numberOfMus >= f2.numberOfMus {
        var d := DeleteMusWith(f1, Tools.MuList(Tracking.Mu1s(t.value)), keywords);
        if d.Err? {
          return Err(d.error);
        }
        return Ok((d.value, f2));
      } else {
        var d := DeleteMusWith(f2, Tools.MuList(Tracking.Mu2s(t.value)), keywords);
        if d.Err? {
          return Err(d.error);
        }
        return Ok((f1, d.value));
      }
    } else if which == "PNR" || which == "SIL" {
      var l := ScoreRemovals(f1, f2, which, t.value);
      if l.Err? {
        return Err(l.error);
      }
      var d1 := DeleteMusWith(f1, Tools.MuList(l.value.0), keywords);
      if d1.Err? {
        return Err(d1.error);
      }
      var d2 := DeleteMusWith(f2, Tools.MuList(l.value.1), keywords);
      if d2.Err? {
        return Err(d2.error);
      }
      return Ok((d1.value, d2.value));
    }
    return Err(ValueError);
  }

  /**
   * As written, the deletion is called with `if_single_mu`, which the older
   * `delete_mus` does not take: whatever the files, the function raises,
   * a TypeError once tracking and the scores succeed.
   */
  lemma RemoveDuplicatesAsWrittenFails(f1: EmgFile, f2: EmgFile, sortError: Option<Error>, staError: Option<Error>,
                                       xcc: (int, int) -> real, threshold: real, filter: bool, which: string)
    ensures var r := RemoveDuplicatesOf(f1, f2, sortError, staError, xcc, threshold, filter, which, AsWrittenKeywords);
      var t := TrackingOf(f1.numberOfMus, f2.numberOfMus, sortError, staError, xcc, threshold, true, filter);
      r.Err?
      && (t.Err? ==> r.error == t.error)
      && (t.Ok? && which == "munumber" ==> r.error == TypeError)
      && (t.Ok? && (which == "PNR" || which == "SIL") ==>
            r.error == if RemovalLists(f1, f2, which, t.value).Err? then KeyError else TypeError)
      && (t.Ok? && which != "munumber" && which != "PNR" && which != "SIL" ==> r.error == ValueError)
  {
    assert !Accepted(AsWrittenKeywords) by {
      assert AsWrittenKeywords[2] !in DeleteMusParams;
    }
  }

  /** The filtered table of two files: distinct MUs on both sides, all of them MUs of the files. */
  lemma FilteredTable(n1: int, n2: int, xcc: (int, int) -> real, threshold: real)
    requires n1 > 0
    ensures var t := TrackingOf(n1, n2, None, None, xcc, threshold, true, true).value;
      Tracking.KeyDistinct(t, Tracking.ByMu1) && Tracking.KeyDistinct(t, Tracking.ByMu2)
      && forall r :: r in t ==> Tracking.IsPairRow(r, n1, Max(0, n2), xcc, threshold, true)
  {
    TrackingAgreesWithLibrary(n1, n2, None, None, xcc, threshold, true, true);
    Tracking.TrackingFiltered(n1, n2, Tracking.ComputedSta("mono", None, None), Tracking.IntendedSortKeywords, xcc, threshold, true);
  }

  /** The file-1 MUs of a filtered table are distinct MUs of file 1. */
  lemma TrackedMu1s(t: seq<Tracking.TrackRow>, n1: nat, n2: nat, xcc: (int, int) -> real, threshold: real)
    requires Tracking.KeyDistinct(t, Tracking.ByMu1)
    requires forall r :: r in t ==> Tracking.IsPairRow(r, n1, n2, xcc, threshold, true)
    ensures Muap.Distinct(Tracking.Mu1s(t)) && Tools.LabelsPresent(Tracking.Mu1s(t), n1)
  {
    var ks := Tracking.Mu1s(t);
    forall k | k in ks ensures 0 <= k < n1 {
      var i :| 0 <= i < |t| && ks[i] == k;
      assert t[i] in t;
    }
    assert forall i, j :: 0 <= i < j < |ks| ==> ks[i] != ks[j] by {
      assert forall i, j :: 0 <= i < j < |t| ==> Tracking.Key(t[i], Tracking.ByMu1) != Tracking.Key(t[j], Tracking.ByMu1);
    }
  }

  /** The outcome of the "munumber" rule when tracking succeeds, file 1 being the larger. */
  lemma NumberRuleOutcome(f1: EmgFile, f2: EmgFile, sortError: Option<Error>, staError: Option<Error>,
                          xcc: (int, int) -> real, threshold: real, filter: bool, keywords: seq<string>, t: seq<Tracking.TrackRow>)
    requires TrackingOf(f1.numberOfMus, f2.numberOfMus, sortError, staError, xcc, threshold, true, filter) == Ok(t)
    requires f1.numberOfMus >= f2.numberOfMus
    requires DeleteMusCall(f1, Tools.MuList(Tracking.Mu1s(t)), keywords).Ok?
    ensures RemoveDuplicatesOf(f1, f2, sortError, staError, xcc, threshold, filter, "munumber", keywords)
         == Ok((DeleteMusCall(f1, Tools.MuList(Tracking.Mu1s(t)), keywords).value, f2))
  {
  }

  /** The outcome of a score rule when tracking and both deletions succeed. */
  lemma ScoreRuleOutcome(f1: EmgFile, f2: EmgFile, sortError: Option<Error>, staError: Option<Error>,
                         xcc: (int, int) -> real, threshold: real, filter: bool, which: string, keywords: seq<string>,
                         t: seq<Tracking.TrackRow>, l: (seq<int>, seq<int>))
    requires which == "PNR" || which == "SIL"
    requires TrackingOf(f1.numberOfMus, f2.numberOfMus, sortError, staError, xcc, threshold, true, filter) == Ok(t)
    requires RemovalLists(f1, f2, which, t) == Ok(l)
    requires DeleteMusCall(f1, Tools.MuList(l.0), keywords).Ok? && DeleteMusCall(f2, Tools.MuList(l.1), keywords).Ok?
    ensures RemoveDuplicatesOf(f1, f2, sortError, staError, xcc, threshold, filter, which, keywords)
         == Ok((DeleteMusCall(f1, Tools.MuList(l.0), keywords).value, DeleteMusCall(f2, Tools.MuList(l.1), keywords).value))
  {
  }

  /**
   * With the accepted keywords and the filter, the "munumber" rule on two
   * consistent files succeeds, removes the tracked MUs from the file with
   * at least as many MUs and leaves it consistent: one fewer MU per tracked
   * pair, the others in their order.
   */
  lemma RemovedByNumberConsistent(f1: EmgFile, f2: EmgFile, xcc: (int, int) -> real, threshold: real)
    requires OldTools.Consistent(f1) && OldTools.Consistent(f2) && f1.numberOfMus > 0
    requires f1.numberOfMus >= f2.numberOfMus
    ensures var t := TrackingOf(f1.numberOfMus, f2.numberOfMus, None, None, xcc, threshold, true, true).value;
      var r := RemoveDuplicatesOf(f1, f2, None, None, xcc, threshold, true, "munumber", IntendedKeywords);
      r.Ok? && r.value.1 == f2 && OldTools.Consistent(r.value.0)
      && r.value.0.numberOfMus == f1.numberOfMus - |t|
      && |r.value.0.mupulses| == |Tools.Kept(f1.numberOfMus, Tracking.Mu1s(t))|
      && forall j :: 0 <= j < |r.value.0.mupulses| ==>
           r.value.0.mupulses[j] == f1.mupulses[Tools.Kept(f1.numberOfMus, Tracking.Mu1s(t))[j]]
  {
    var t := TrackingOf(f1.numberOfMus, f2.numberOfMus, None, None, xcc, threshold, true, true).value;
    FilteredTable(f1.numberOfMus, f2.numberOfMus, xcc, threshold);
    TrackedMu1s(t, f1.numberOfMus, Max(0, f2.numberOfMus), xcc, threshold);
    DeleteTrackedMu1s(f1, f2, xcc, threshold, t);
  }

  lemma DeleteTrackedMu1s(f1: EmgFile, f2: EmgFile, xcc: (int, int) -> real, threshold: real, t: seq<Tracking.TrackRow>)
    requires OldTools.Consistent(f1) && f1.numberOfMus >= f2.numberOfMus
    requires TrackingOf(f1.numberOfMus, f2.numberOfMus, None, None, xcc, threshold, true, true) == Ok(t)
    requires Muap.Distinct(Tracking.Mu1s(t)) && Tools.LabelsPresent(Tracking.Mu1s(t), f1.numberOfMus)
    ensures var r := RemoveDuplicatesOf(f1, f2, None, None, xcc, threshold, true, "munumber", IntendedKeywords);
      r.Ok? && r.value.1 == f2 && OldTools.Consistent(r.value.0)
      && r.value.0.numberOfMus == f1.numberOfMus - |t|
      && |r.value.0.mupulses| == |Tools.Kept(f1.numberOfMus, Tracking.Mu1s(t))|
      && forall j :: 0 <= j < |r.value.0.mupulses| ==>
           r.value.0.mupulses[j] == f1.mupulses[Tools.Kept(f1.numberOfMus, Tracking.Mu1s(t))[j]]
  {
    var ks := Tracking.Mu1s(t);
    OldTools.DeleteListKeepsConsistent(f1, ks);
    Tools.KeptCountDistinct(f1.numberOfMus, ks);
    var g := OldTools.DeleteMusOf(f1, Tools.MuList(ks)).value;
    assert Accepted(IntendedKeywords);
    assert DeleteMusCall(f1, Tools.MuList(ks), IntendedKeywords) == Ok(g);
    NumberRuleOutcome(f1, f2, None, None, xcc, threshold, true, IntendedKeywords, t);
    assert RemoveDuplicatesOf(f1, f2, None, None, xcc, threshold, true, "munumber", IntendedKeywords) == Ok((g, f2));
  }



  /** The score lists of a filtered table: distinct MUs of their files, one per pair. */
  lemma ScoreListsOfTable(f1: EmgFile, f2: EmgFile, t: seq<Tracking.TrackRow>, xcc: (int, int) -> real, threshold: real, which: string)
    requires Tracking.KeyDistinct(t, Tracking.ByMu1) && Tracking.KeyDistinct(t, Tracking.ByMu2)
    requires f1.numberOfMus >= 0 && f2.numberOfMus >= 0
    requires forall r :: r in t ==> Tracking.IsPairRow(r, f1.numberOfMus, f2.numberOfMus, xcc, threshold, true)
    requires forall r :: r in t ==> ScoresKnown(f1, f2, which, r)
    ensures RemovalLists(f1, f2, which, t).Ok?
    ensures var l := RemovalLists(f1, f2, which, t).value;
      Muap.Distinct(l.0) && Muap.Distinct(l.1) && |l.0| + |l.1| == |t|
      && Tools.LabelsPresent(l.0, f1.numberOfMus) && Tools.LabelsPresent(l.1, f2.numberOfMus)
  {
    forall k | 0 <= k < |t| ensures ScoresKnown(f1, f2, which, t[k]) {
      assert t[k] in t;
    }
    RemovalListsSplit(f1, f2, which, t);
    RemovalListsDistinct(f1, f2, which, t);
    var l := RemovalLists(f1, f2, which, t).value;
    forall x | x in l.0 ensures 0 <= x < f1.numberOfMus {
      var k :| 0 <= k < |t| && t[k].mu1 == x && RemoveFromFirst(f1, f2, which, t[k]);
      assert t[k] in t;
    }
    forall x | x in l.1 ensures 0 <= x < f2.numberOfMus {
      var k :| 0 <= k < |t| && t[k].mu2 == x && !RemoveFromFirst(f1, f2, which, t[k]);
      assert t[k] in t;
    }
  }

  /**
   * With the accepted keywords and the filter, the PNR/SIL rule on two
   * consistent files with scores for every MU succeeds and leaves both
   * consistent, removing one MU per tracked pair in all.
   */
  lemma RemovedByScoreConsistent(f1: EmgFile, f2: EmgFile, xcc: (int, int) -> real, threshold: real, which: string)
    requires OldTools.Consistent(f1) && OldTools.Consistent(f2) && f1.numberOfMus > 0
    requires which == "PNR" || (which == "SIL" && f1.sil.Some? && |f1.sil.value| == f1.numberOfMus
                                 && f2.sil.Some? && |f2.sil.value| == f2.numberOfMus)
    ensures var t := TrackingOf(f1.numberOfMus, f2.numberOfMus, None, None, xcc, threshold, true, true).value;
      var r := RemoveDuplicatesOf(f1, f2, None, None, xcc, threshold, true, which, IntendedKeywords);
      r.Ok? && OldTools.Consistent(r.value.0) && OldTools.Consistent(r.value.1)
      && (f1.numberOfMus - r.value.0.numberOfMus) + (f2.numberOfMus - r.value.1.numberOfMus) == |t|
  {
    var t := TrackingOf(f1.numberOfMus, f2.numberOfMus, None, None, xcc, threshold, true, true).value;
    FilteredTable(f1.numberOfMus, f2.numberOfMus, xcc, threshold);
    assert Max(0, f2.numberOfMus) == f2.numberOfMus;
    PairRowsScored(f1, f2, t, xcc, threshold, which);
    ScoreListsOfTable(f1, f2, t, xcc, threshold, which);
    DeleteScoreLists(f1, f2, xcc, threshold, which, t);
  }

  /** Every MU of a tracked pair has a score in its file. */
  lemma PairRowsScored(f1: EmgFile, f2: EmgFile, t: seq<Tracking.TrackRow>, xcc: (int, int) -> real, threshold: real,
                       which: string)
    requires OldTools.Consistent(f1) && OldTools.Consistent(f2)
    requires which == "PNR" || (which == "SIL" && f1.sil.Some? && |f1.sil.value| == f1.numberOfMus
                                 && f2.sil.Some? && |f2.sil.value| == f2.numberOfMus)
    requires forall r :: r in t ==> Tracking.IsPairRow(r, f1.numberOfMus, f2.numberOfMus, xcc, threshold, true)
    ensures forall r :: r in t ==> ScoresKnown(f1, f2, which, r)
  {
    forall r | r in t ensures ScoresKnown(f1, f2, which, r) {
      assert Tracking.IsPairRow(r, f1.numberOfMus, f2.numberOfMus, xcc, threshold, true);
    }
  }

  lemma DeleteScoreLists(f1: EmgFile, f2: EmgFile, xcc: (int, int) -> real, threshold: real, which: string,
                         t: seq<Tracking.TrackRow>)
    requires OldTools.Consistent(f1) && OldTools.Consistent(f2)
    requires which == "PNR" || which == "SIL"
    requires TrackingOf(f1.numberOfMus, f2.numberOfMus, None, None, xcc, threshold, true, true) == Ok(t)
    requires RemovalLists(f1, f2, which, t).Ok?
    requires var l := RemovalLists(f1, f2, which, t).value;
      Muap.Distinct(l.0) && Muap.Distinct(l.1) && |l.0| + |l.1| == |t|
      && Tools.LabelsPresent(l.0, f1.numberOfMus) && Tools.LabelsPresent(l.1, f2.numberOfMus)
    ensures var r := RemoveDuplicatesOf(f1, f2, None, None, xcc, threshold, true, which, IntendedKeywords);
      r.Ok? && OldTools.Consistent(r.value.0) && OldTools.Consistent(r.value.1)
      && (f1.numberOfMus - r.value.0.numberOfMus) + (f2.numberOfMus - r.value.1.numberOfMus) == |t|
  {
    var l := RemovalLists(f1, f2, which, t).value;
    OldTools.DeleteListKeepsConsistent(f1, l.0);
    OldTools.DeleteListKeepsConsistent(f2, l.1);
    assert Accepted(IntendedKeywords);
    ScoreRuleOutcome(f1, f2, None, None, xcc, threshold, true, which, IntendedKeywords, t, l);
  }
}
