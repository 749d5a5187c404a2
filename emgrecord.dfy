/**
 * The `emgfile` record and the pandas tables it is made of.
 *
 * A DataFrame is modelled column by column over a RangeIndex 0..rows-1; a
 * column is a sequence of floats.  Per-MU tables (IPTS, BINARY_MUS_FIRING)
 * hold one column per motor unit, in MU order.
 */
module EmgRecord {
  import opened Common

  type Column = seq<Float>

  /** A DataFrame: `rows` samples, columns labelled 0..|cols|-1 in order. */
  datatype Frame = Frame(rows: nat, cols: seq<Column>)

  predicate FrameOk(f: Frame)
  {
    forall c :: 0 <= c < |f.cols| ==> |f.cols[c]| == f.rows
  }

  /** The empty one-column placeholder `pd.DataFrame(columns=[0])`. */
  function EmptyPlaceholder(): (f: Frame)
    ensures f.rows == 0 && |f.cols| == 1 && FrameOk(f)
  {
    Frame(0, [[]])
  }

  /** A frame with `n` empty columns (`pd.DataFrame(columns=range(n))`). */
  function EmptyColumns(n: nat): (f: Frame)
    ensures f.rows == 0 && |f.cols| == n && FrameOk(f)
  {
    Frame(0, seq(n, _ => []))
  }

  /** `frame.loc[a:b]` on the rows, followed by `reset_index(drop=True)`. */
  function FrameLoc(f: Frame, a: int, b: int): (g: Frame)
    requires FrameOk(f)
    ensures FrameOk(g) && |g.cols| == |f.cols|
    ensures g.rows == Max(0, LocHi(b, f.rows) - LocLo(a))
    ensures forall c :: 0 <= c < |f.cols| ==> g.cols[c] == LocSlice(f.cols[c], a, b)
  {
    Frame(Max(0, LocHi(b, f.rows) - LocLo(a)), seq(|f.cols|, c requires 0 <= c < |f.cols| => LocSlice(f.cols[c], a, b)))
  }

  /** `frame.iloc[a:b]` on the rows (Python slice semantics). */
  function FrameILoc(f: Frame, a: int, b: int): (g: Frame)
    requires FrameOk(f)
    ensures FrameOk(g) && |g.cols| == |f.cols|
    ensures g.rows == Max(0, SliceBound(b, f.rows) - SliceBound(a, f.rows))
    ensures forall c :: 0 <= c < |f.cols| ==> g.cols[c] == PySlice(f.cols[c], a, b)
  {
    Frame(Max(0, SliceBound(b, f.rows) - SliceBound(a, f.rows)),
          seq(|f.cols|, c requires 0 <= c < |f.cols| => PySlice(f.cols[c], a, b)))
  }

  /** A column for a label that `reindex` does not find. */
  function NaNColumn(rows: nat): (c: Column)
    ensures |c| == rows && forall t :: 0 <= t < rows ==> c[t] == NaN
  {
    seq(rows, _ => NaN)
  }

  /** `reindex(columns=order)` then relabelling 0..|order|-1. */
  function ReindexColumns(f: Frame, order: seq<int>): (g: Frame)
    ensures g.rows == f.rows && |g.cols| == |order|
    ensures forall k :: 0 <= k < |order| ==>
      g.cols[k] == if 0 <= order[k] < |f.cols| then f.cols[order[k]] else NaNColumn(f.rows)
  {
    Frame(f.rows, seq(|order|, k requires 0 <= k < |order| =>
      if 0 <= order[k] < |f.cols| then f.cols[order[k]] else NaNColumn(f.rows)))
  }

  /**
   * The `emgfile` dict.  `accuracy`, `pnr` and `sil` are optional keys
   * (`None` is an absent key or a NaN placeholder); all others are always
   * present.  PNR and SIL are one-column tables, one row per MU.  IED is
   * NaN when an OTB grid is not recognised.
   */
  datatype EmgFile = EmgFile(
    source: string,
    filename: string,
    rawSignal: Frame,
    refSignal: Frame,
    accuracy: Option<Frame>,
    pnr: Option<seq<Float>>,
    sil: Option<seq<Float>>,
    ipts: Frame,
    mupulses: seq<seq<int>>,
    fsamp: real,
    ied: Float,
    emgLength: int,
    numberOfMus: int,
    binary: Frame,
    extras: Frame)

  /** A file whose MUPULSES are valid sample indices of its recording. */
  predicate PulsesInRecording(f: EmgFile)
  {
    forall mu, k :: 0 <= mu < |f.mupulses| && 0 <= k < |f.mupulses[mu]| ==>
      0 <= f.mupulses[mu][k] < f.emgLength
  }

  /**
   * The shape invariants a loaded full emgfile satisfies: 13 keys (ACCURACY
   * present, no PNR/SIL), tables taller than wide, equal row counts and one
   * IPTS/BINARY column and one MUPULSES entry per MU; DELSYS files carry no
   * IPTS and four EXTRAS columns per MU.
   */
  predicate ValidEmgFile(f: EmgFile)
  {
    FrameOk(f.rawSignal) && FrameOk(f.refSignal) && FrameOk(f.ipts) && FrameOk(f.binary)
    && FrameOk(f.extras)
    && f.accuracy.Some? && FrameOk(f.accuracy.value) && f.pnr.None? && f.sil.None?
    && f.rawSignal.rows > |f.rawSignal.cols|
    && (f.refSignal.rows > |f.refSignal.cols| || f.refSignal.rows == 0)
    && f.accuracy.value.rows >= |f.accuracy.value.cols|
    && f.binary.rows > |f.binary.cols|
    && |f.binary.cols| == f.numberOfMus
    && |f.mupulses| == f.numberOfMus
    && (if f.source != "DELSYS" then
          f.ipts.rows > |f.ipts.cols|
          && f.rawSignal.rows == f.ipts.rows == f.binary.rows
          && |f.ipts.cols| == f.numberOfMus
        else
          f.ipts.rows == 0
          && f.rawSignal.rows == f.binary.rows
          && |f.extras.cols| == f.numberOfMus * 4)
  }
}
