/**
 * The structural part of the MUAP tools (openhdemg/library/muap.py): the
 * differentials along matrix rows, spike-triggered windows, the
 * packing of per-column STAs and the lag clamp of the alignment.
 * Correlations are opaque inputs; tracking and duplicate removal are in
 * `Tracking`.
 *
 * A matrix column ("col0", "col1", ...) is a `Block`: channels with integer
 * labels (the raw-channel numbers kept by the column split), each a column
 * of samples.
 */
module Muap {
  import opened Common
  import opened EmgRecord
  import Tools

  datatype Block = Block(rows: nat, labels: seq<int>, cols: seq<Column>)

  /** A matrix: its column keys and their blocks, in dict order. */
  datatype Matrix = Matrix(keys: seq<string>, blocks: seq<Block>)

  predicate Distinct<T(==)>(s: seq<T>)
  {
    forall i, j :: 0 <= i < j < |s| ==> s[i] != s[j]
  }

  /** One label per channel, all distinct, every channel `rows` samples long. */
  predicate BlockOk(b: Block)
  {
    |b.labels| == |b.cols| && Distinct(b.labels)
    && forall c :: 0 <= c < |b.cols| ==> |b.cols[c]| == b.rows
  }

  predicate MatrixOk(m: Matrix)
  {
    |m.keys| == |m.blocks| && forall k :: 0 <= k < |m.blocks| ==> BlockOk(m.blocks[k])
  }

  /** A sorted-channels frame with labels first, first+1, ... (the column split keeps the raw labels). */
  function LabelledBlock(f: Frame, first: int): (b: Block)
    requires FrameOk(f)
    ensures BlockOk(b) && b.cols == f.cols && b.rows == f.rows
    ensures forall i :: 0 <= i < |b.labels| ==> b.labels[i] == first + i
  {
    Block(f.rows, seq(|f.cols|, i => first + i), f.cols)
  }

  /** Position of the first label `x`, if any (`loc` lookup of a column label). */
  function Find(s: seq<int>, x: int): (r: Option<nat>)
    ensures r.Some? ==> r.value < |s| && s[r.value] == x
  {
    if s == [] then None
    else if s[0] == x then Some(0)
    else
      var r := Find(s[1..], x);
      if r.None? then None else Some(1 + r.value)
  }

  predicate HasLabel(b: Block, x: int)
  {
    Find(b.labels, x).Some?
  }

  /** Channel `pos` has a neighbour labelled `k` below its own label. */
  predicate Neighbour(b: Block, pos: int, k: int)
  {
    0 <= pos < |b.labels| && HasLabel(b, b.labels[pos] - k)
  }

  /** Drops the first `k` entries (an empty sequence when there are fewer). */
  function DropFirst<T>(s: seq<T>, k: nat): (r: seq<T>)
    ensures |r| == Max(0, |s| - k)
    ensures forall i :: 0 <= i < |r| ==> r[i] == s[k + i]
  {
    if |s| <= k then [] else s[k..]
  }

  function SubCols(a: Column, b: Column): (c: Column)
    requires |a| == |b|
    ensures |c| == |a| && forall t :: 0 <= t < |c| ==> c[t] == Sub(a[t], b[t])
  {
    seq(|a|, t requires 0 <= t < |a| => Sub(a[t], b[t]))
  }

  /** `-a + 2 b - c`, sample by sample. */
  function DoubleDiffCols(a: Column, b: Column, c: Column): (d: Column)
    requires |a| == |b| == |c|
    ensures |d| == |a|
    ensures forall t :: 0 <= t < |d| ==> d[t] == Sub(Add(Scale(-1.0, a[t]), Scale(2.0, b[t])), c[t])
  {
    seq(|a|, t requires 0 <= t < |a| => Sub(Add(Scale(-1.0, a[t]), Scale(2.0, b[t])), c[t]))
  }

  // ---------------------------------------------------------------------
  // Single and double differential (muap.py:104-118, 194-210)
  // ---------------------------------------------------------------------

  /** `loc[:, row - 1]` exists for every channel after the first. */
  predicate DiffDefined(b: Block)
  {
    forall pos :: 1 <= pos < |b.labels| ==> Neighbour(b, pos, 1)
  }

  /** `loc[:, row - 1]` and `loc[:, row - 2]` exist for every channel after the second. */
  predicate DoubleDiffDefined(b: Block)
  {
    forall pos :: 2 <= pos < |b.labels| ==> Neighbour(b, pos, 1) && Neighbour(b, pos, 2)
  }

  /** The channel labelled `x`. */
  function Channel(b: Block, x: int): (c: Column)
    requires BlockOk(b) && HasLabel(b, x)
    ensures |c| == b.rows
  {
    b.cols[Find(b.labels, x).value]
  }

  /** Channel `pos` (not the first) of the single differential: channel `row - 1` minus channel `row`. */
  function DiffChannel(b: Block, pos: nat): (c: Column)
    requires BlockOk(b) && 1 <= pos < |b.labels| && Neighbour(b, pos, 1)
    ensures |c| == b.rows
  {
    SubCols(Channel(b, b.labels[pos] - 1), b.cols[pos])
  }

  /** Channel `pos` (from the third on) of the double differential. */
  function DoubleDiffChannel(b: Block, pos: nat): (c: Column)
    requires BlockOk(b) && 2 <= pos < |b.labels|
    requires Neighbour(b, pos, 2) && Neighbour(b, pos, 1)
    ensures |c| == b.rows
  {
    DoubleDiffCols(Channel(b, b.labels[pos] - 2), Channel(b, b.labels[pos] - 1), b.cols[pos])
  }

  /**
   * The single differential of one matrix column: every channel but the
   * first, relabelled by its own label; a column left without channels is
   * an empty frame.
   */
  function DiffOf(b: Block): (d: Block)
    requires BlockOk(b) && DiffDefined(b)
    ensures |d.labels| == |d.cols| == Max(0, |b.labels| - 1)
  {
    var n := |b.labels|;
    Block(if n > 1 then b.rows else 0, DropFirst(b.labels, 1),
          seq(Max(0, n - 1), j requires 0 <= j < Max(0, n - 1) => DiffChannel(b, j + 1)))
  }

  /** The double differential of one matrix column: every channel from the third on. */
  function DoubleDiffOf(b: Block): (d: Block)
    requires BlockOk(b) && DoubleDiffDefined(b)
    ensures |d.labels| == |d.cols| == Max(0, |b.labels| - 2)
  {
    var n := |b.labels|;
    Block(if n > 2 then b.rows else 0, DropFirst(b.labels, 2),
          seq(Max(0, n - 2), j requires 0 <= j < Max(0, n - 2) => DoubleDiffChannel(b, j + 2)))
  }

  /** The row loop of `diff` on one matrix column; None where a neighbour label is missing. */
  method DiffBlock(b: Block) returns (r: Option<Block>)
    requires BlockOk(b)
    ensures r.Some? <==> DiffDefined(b)
    ensures r.Some? ==> DiffDefined(b) && r.value == DiffOf(b)
  {
    var n := |b.labels|;
    var labs: seq<int> := [];
    var cs: seq<Column> := [];
    for j := 0 to Max(0, n - 1)
      invariant |labs| == j && |cs| == j
      invariant forall p :: 1 <= p < j + 1 ==> Neighbour(b, p, 1)
      invariant forall i :: 0 <= i < j ==> labs[i] == b.labels[i + 1] && cs[i] == DiffChannel(b, i + 1)
    {
      var row := b.labels[j + 1];
      if !Neighbour(b, j + 1, 1) {
        return None;
      }
      labs := labs + [row];
      cs := cs + [DiffChannel(b, j + 1)];
    }
    DiffFromChannels(b, labs, cs);
    return Some(Block(if n > 1 then b.rows else 0, labs, cs));
  }

  lemma DiffFromChannels(b: Block, labs: seq<int>, cs: seq<Column>)
    requires BlockOk(b) && |labs| == |cs| == Max(0, |b.labels| - 1)
    requires forall p :: 1 <= p < |b.labels| ==> Neighbour(b, p, 1)
    requires forall i :: 0 <= i < |cs| ==> labs[i] == b.labels[i + 1] && cs[i] == DiffChannel(b, i + 1)
    ensures DiffDefined(b)
    ensures Block(if |b.labels| > 1 then b.rows else 0, labs, cs) == DiffOf(b)
  {
    var e := DiffOf(b);
    forall i | 0 <= i < |cs| ensures cs[i] == e.cols[i] && labs[i] == e.labels[i] {
    }
    assert cs == e.cols && labs == e.labels;
  }

  /** The row loop of `double_diff` on one matrix column; None where a label is missing. */
  method DoubleDiffBlock(b: Block) returns (r: Option<Block>)
    requires BlockOk(b)
    ensures r.Some? <==> DoubleDiffDefined(b)
    ensures r.Some? ==> DoubleDiffDefined(b) && r.value == DoubleDiffOf(b)
  {
    var n := |b.labels|;
    var labs: seq<int> := [];
    var cs: seq<Column> := [];
    for j := 0 to Max(0, n - 2)
      invariant |labs| == j && |cs| == j
      invariant forall p :: 2 <= p < j + 2 ==> Neighbour(b, p, 1) && Neighbour(b, p, 2)
      invariant forall i :: 0 <= i < j ==> labs[i] == b.labels[i + 2] && cs[i] == DoubleDiffChannel(b, i + 2)
    {
      var row := b.labels[j + 2];
      if !Neighbour(b, j + 2, 2) {
        return None;
      }
      if !Neighbour(b, j + 2, 1) {
        return None;
      }
      labs := labs + [row];
      cs := cs + [DoubleDiffChannel(b, j + 2)];
    }
    DoubleDiffFromChannels(b, labs, cs);
    return Some(Block(if n > 2 then b.rows else 0, labs, cs));
  }

  lemma DoubleDiffFromChannels(b: Block, labs: seq<int>, cs: seq<Column>)
    requires BlockOk(b) && |labs| == |cs| == Max(0, |b.labels| - 2)
    requires forall p :: 2 <= p < |b.labels| ==> Neighbour(b, p, 1) && Neighbour(b, p, 2)
    requires forall i :: 0 <= i < |cs| ==> labs[i] == b.labels[i + 2] && cs[i] == DoubleDiffChannel(b, i + 2)
    ensures DoubleDiffDefined(b)
    ensures Block(if |b.labels| > 2 then b.rows else 0, labs, cs) == DoubleDiffOf(b)
  {
    var e := DoubleDiffOf(b);
    forall i | 0 <= i < |cs| ensures cs[i] == e.cols[i] && labs[i] == e.labels[i] {
    }
    assert cs == e.cols && labs == e.labels;
  }

  /**
   * `diff`: every matrix column has its single differential computed
   * channel by channel; a missing neighbour label is a KeyError.
   */
  method Diff(m: Matrix) returns (r: Result<Matrix>)
    requires MatrixOk(m)
    ensures r.Ok? <==> forall k :: 0 <= k < |m.blocks| ==> DiffDefined(m.blocks[k])
    ensures r.Err? ==> r.error == KeyError
    ensures r.Ok? ==> MatrixOk(r.value) && r.value.keys == m.keys && |r.value.blocks| == |m.blocks|
    ensures r.Ok? ==> forall k :: 0 <= k < |m.blocks| ==> DiffDefined(m.blocks[k]) && r.value.blocks[k] == DiffOf(m.blocks[k])
  {
    var out: seq<Block> := [];
    for k := 0 to |m.blocks|
      invariant |out| == k
      invariant forall i :: 0 <= i < k ==> DiffDefined(m.blocks[i]) && out[i] == DiffOf(m.blocks[i])
      invariant forall i :: 0 <= i < k ==> BlockOk(out[i])
    {
      var d := DiffBlock(m.blocks[k]);
      if d.None? {
        return Err(KeyError);
      }
      DiffOfOk(m.blocks[k]);
      out := out + [d.value];
    }
    return Ok(Matrix(m.keys, out));
  }

  /**
   * `double_diff`: every matrix column has its double differential
   * computed channel by channel; a missing label is a KeyError.
   */
  method DoubleDiff(m: Matrix) returns (r: Result<Matrix>)
    requires MatrixOk(m)
    ensures r.Ok? <==> forall k :: 0 <= k < |m.blocks| ==> DoubleDiffDefined(m.blocks[k])
    ensures r.Err? ==> r.error == KeyError
    ensures r.Ok? ==> MatrixOk(r.value) && r.value.keys == m.keys && |r.value.blocks| == |m.blocks|
    ensures r.Ok? ==> forall k :: 0 <= k < |m.blocks| ==>
      DoubleDiffDefined(m.blocks[k]) && r.value.blocks[k] == DoubleDiffOf(m.blocks[k])
  {
    var out: seq<Block> := [];
    for k := 0 to |m.blocks|
      invariant |out| == k
      invariant forall i :: 0 <= i < k ==> DoubleDiffDefined(m.blocks[i]) && out[i] == DoubleDiffOf(m.blocks[i])
      invariant forall i :: 0 <= i < k ==> BlockOk(out[i])
    {
      var d := DoubleDiffBlock(m.blocks[k]);
      if d.None? {
        return Err(KeyError);
      }
      DoubleDiffOfOk(m.blocks[k]);
      out := out + [d.value];
    }
    return Ok(Matrix(m.keys, out));
  }

  lemma DropFirstDistinct(s: seq<int>, k: nat)
    requires Distinct(s)
    ensures Distinct(DropFirst(s, k))
  {
    var r := DropFirst(s, k);
    forall i, j | 0 <= i < j < |r| ensures r[i] != r[j] {
      assert r[i] == s[k + i] && r[j] == s[k + j];
    }
  }

  lemma DiffOfOk(b: Block)
    requires BlockOk(b) && DiffDefined(b)
    ensures BlockOk(DiffOf(b))
  {
    var d := DiffOf(b);
    DropFirstDistinct(b.labels, 1);
    assert Distinct(d.labels);
    forall c | 0 <= c < |d.cols| ensures |d.cols[c]| == d.rows {
      assert d.cols[c] == DiffChannel(b, c + 1);
    }
  }

  lemma DoubleDiffOfOk(b: Block)
    requires BlockOk(b) && DoubleDiffDefined(b)
    ensures BlockOk(DoubleDiffOf(b))
  {
    var d := DoubleDiffOf(b);
    DropFirstDistinct(b.labels, 2);
    assert Distinct(d.labels);
    forall c | 0 <= c < |d.cols| ensures |d.cols[c]| == d.rows {
      assert d.cols[c] == DoubleDiffChannel(b, c + 2);
    }
  }

  /** Labels a, a+1, a+2, ...: the channels of one column of the sorted matrix. */
  predicate Consecutive(labels: seq<int>)
  {
    forall i :: 0 <= i < |labels| ==> labels[i] == labels[0] + i
  }

  /**
   * On consecutive labels the single differential is defined, has one
   * channel fewer, and channel j of the result is channel j minus channel
   * j + 1 of the input.
   */
  lemma DiffOfConsecutive(b: Block)
    requires BlockOk(b) && Consecutive(b.labels)
    ensures DiffDefined(b)
    ensures |DiffOf(b).labels| == Max(0, |b.labels| - 1) && Consecutive(DiffOf(b).labels)
    ensures forall j :: 0 <= j < |DiffOf(b).cols| ==> DiffOf(b).cols[j] == SubCols(b.cols[j], b.cols[j + 1])
  {
    ConsecutiveDiffDefined(b);
    var d := DiffOf(b);
    forall j | 0 <= j < |d.cols| ensures d.cols[j] == SubCols(b.cols[j], b.cols[j + 1]) {
      ConsecutiveDiffChannel(b, j);
    }
  }

  lemma ConsecutiveDiffDefined(b: Block)
    requires BlockOk(b) && Consecutive(b.labels)
    ensures DiffDefined(b)
    ensures Consecutive(DiffOf(b).labels)
  {
    forall pos | 1 <= pos < |b.labels| ensures Neighbour(b, pos, 1) {
      ConsecutiveFind(b.labels, pos, 1);
    }
  }

  lemma ConsecutiveDiffChannel(b: Block, j: nat)
    requires BlockOk(b) && Consecutive(b.labels) && DiffDefined(b) && j + 1 < |b.labels|
    ensures DiffOf(b).cols[j] == SubCols(b.cols[j], b.cols[j + 1])
  {
    ConsecutiveFind(b.labels, j + 1, 1);
    assert DiffOf(b).cols[j] == DiffChannel(b, j + 1);
  }

  /**
   * On consecutive labels the double differential is defined, has two
   * channels fewer, and is -x[j] + 2 x[j+1] - x[j+2].
   */
  lemma DoubleDiffOfConsecutive(b: Block)
    requires BlockOk(b) && Consecutive(b.labels)
    ensures DoubleDiffDefined(b)
    ensures |DoubleDiffOf(b).labels| == Max(0, |b.labels| - 2)
    ensures forall j :: 0 <= j < |DoubleDiffOf(b).cols| ==>
      DoubleDiffOf(b).cols[j] == DoubleDiffCols(b.cols[j], b.cols[j + 1], b.cols[j + 2])
  {
    ConsecutiveDoubleDiffDefined(b);
    var d := DoubleDiffOf(b);
    forall j | 0 <= j < |d.cols| ensures d.cols[j] == DoubleDiffCols(b.cols[j], b.cols[j + 1], b.cols[j + 2]) {
      ConsecutiveDoubleDiffChannel(b, j);
    }
  }

  lemma ConsecutiveDoubleDiffDefined(b: Block)
    requires BlockOk(b) && Consecutive(b.labels)
    ensures DoubleDiffDefined(b)
  {
    forall pos | 2 <= pos < |b.labels|
      ensures Neighbour(b, pos, 1) && Neighbour(b, pos, 2)
    {
      ConsecutiveFind(b.labels, pos, 1);
      ConsecutiveFind(b.labels, pos, 2);
    }
  }

  lemma ConsecutiveDoubleDiffChannel(b: Block, j: nat)
    requires BlockOk(b) && Consecutive(b.labels) && DoubleDiffDefined(b) && j + 2 < |b.labels|
    ensures DoubleDiffOf(b).cols[j] == DoubleDiffCols(b.cols[j], b.cols[j + 1], b.cols[j + 2])
  {
    ConsecutiveFind(b.labels, j + 2, 1);
    ConsecutiveFind(b.labels, j + 2, 2);
    assert Channel(b, b.labels[j + 2] - 2) == b.cols[j];
    assert Channel(b, b.labels[j + 2] - 1) == b.cols[j + 1];
    assert DoubleDiffOf(b).cols[j] == DoubleDiffChannel(b, j + 2);
  }

  lemma ConsecutiveFind(s: seq<int>, pos: nat, k: nat)
    requires Distinct(s) && Consecutive(s) && k <= pos < |s|
    ensures Find(s, s[pos] - k) == Some(pos - k)
  {
    assert s[pos - k] == s[pos] - k;
    DistinctIndex(s, pos - k);
  }

  lemma DistinctIndex(s: seq<int>, i: nat)
    requires Distinct(s) && i < |s|
    ensures Find(s, s[i]) == Some(i)
    decreases i
  {
    if i > 0 {
      assert s[0] != s[i];
      var t := s[1..];
      assert Distinct(t) by {
        forall a, c | 0 <= a < c < |t| ensures t[a] != t[c] {
          assert t[a] == s[a + 1] && t[c] == s[c + 1];
        }
      }
      DistinctIndex(t, i - 1);
      assert t[i - 1] == s[i];
    }
  }

  /**
   * The double differential is the single differential applied twice,
   * with the sign reversed: dd(x) == -(sd(sd(x))), NaN where either is.
   */
  lemma DoubleDiffIsNegatedDiffOfDiff(b: Block)
    requires BlockOk(b) && Consecutive(b.labels)
    ensures DiffDefined(b) && BlockOk(DiffOf(b)) && DiffDefined(DiffOf(b)) && DoubleDiffDefined(b)
    ensures forall j, t :: 0 <= j < |DoubleDiffOf(b).cols| && 0 <= t < b.rows ==>
      DoubleDiffOf(b).cols[j][t] == Scale(-1.0, DiffOf(DiffOf(b)).cols[j][t])
  {
    DiffOfDiffDefined(b);
    DiffOfDiffPoints(b);
  }

  /** ... and it carries the same channel labels: each differential drops the first remaining channel. */
  lemma DiffOfDiffLabels(b: Block)
    requires BlockOk(b) && Consecutive(b.labels)
    ensures DiffDefined(b) && BlockOk(DiffOf(b)) && DiffDefined(DiffOf(b)) && DoubleDiffDefined(b)
    ensures DoubleDiffOf(b).labels == DiffOf(DiffOf(b)).labels
  {
    DiffOfDiffDefined(b);
    assert DropFirst(DropFirst(b.labels, 1), 1) == DropFirst(b.labels, 2);
  }

  lemma DiffOfDiffDefined(b: Block)
    requires BlockOk(b) && Consecutive(b.labels)
    ensures DiffDefined(b) && BlockOk(DiffOf(b)) && DiffDefined(DiffOf(b)) && DoubleDiffDefined(b)
    ensures Consecutive(DiffOf(b).labels)
  {
    ConsecutiveDiffDefined(b);
    DiffOfOk(b);
    ConsecutiveDiffDefined(DiffOf(b));
    ConsecutiveDoubleDiffDefined(b);
  }

  lemma DiffOfDiffPoints(b: Block)
    requires BlockOk(b) && Consecutive(b.labels)
    requires DiffDefined(b) && BlockOk(DiffOf(b)) && DiffDefined(DiffOf(b)) && DoubleDiffDefined(b)
    requires Consecutive(DiffOf(b).labels)
    ensures forall j, t :: 0 <= j < |DoubleDiffOf(b).cols| && 0 <= t < b.rows ==>
      DoubleDiffOf(b).cols[j][t] == Scale(-1.0, DiffOf(DiffOf(b)).cols[j][t])
  {
    forall j, t | 0 <= j < |DoubleDiffOf(b).cols| && 0 <= t < b.rows
      ensures DoubleDiffOf(b).cols[j][t] == Scale(-1.0, DiffOf(DiffOf(b)).cols[j][t])
    {
      DoubleDiffPoint(b, j, t);
    }
  }

  lemma DoubleDiffPoint(b: Block, j: nat, t: nat)
    requires BlockOk(b) && Consecutive(b.labels) && j + 2 < |b.labels| && t < b.rows
    requires DiffDefined(b) && BlockOk(DiffOf(b)) && DiffDefined(DiffOf(b)) && DoubleDiffDefined(b)
    requires Consecutive(DiffOf(b).labels)
    ensures DoubleDiffOf(b).cols[j][t] == Scale(-1.0, DiffOf(DiffOf(b)).cols[j][t])
  {
    var d := DiffOf(b);
    ConsecutiveDiffChannel(b, j);
    ConsecutiveDiffChannel(b, j + 1);
    ConsecutiveDiffChannel(d, j);
    ConsecutiveDoubleDiffChannel(b, j);
    var x, y, z := b.cols[j][t], b.cols[j + 1][t], b.cols[j + 2][t];
    assert DiffOf(d).cols[j][t] == Sub(d.cols[j][t], d.cols[j + 1][t]);
    assert d.cols[j][t] == Sub(x, y);
    assert d.cols[j + 1][t] == Sub(y, z);
    NegatedSecondDifference(x, y, z);
  }

  lemma NegatedSecondDifference(x: Float, y: Float, z: Float)
    ensures Sub(Add(Scale(-1.0, x), Scale(2.0, y)), z) == Scale(-1.0, Sub(Sub(x, y), Sub(y, z)))
  {
  }

  // ---------------------------------------------------------------------
  // Spike-triggered windows: sta and st_muap (muap.py:372-413, 484-518)
  // ---------------------------------------------------------------------

  /** Half the time window in samples: round(round(timewindow / 1000 * FSAMP) / 2). */
  function HalfTime(timewindow: real, fsamp: real): (h: int)
    ensures timewindow >= 0.0 && fsamp >= 0.0 ==> h >= 0
  {
    RoundHalfEven(RoundHalfEven(timewindow / 1000.0 * fsamp) as real / 2.0)
  }

  /** `signal[pulse - halftime : pulse + halftime]`: numpy slicing, so a negative start counts from the end. */
  function Window(sig: Column, p: int, h: int): Column
  {
    PySlice(sig, p - h, p + h)
  }

  /** The window around `p` in a signal of length `n` is `2 h` samples long (the window kept). */
  predicate Complete(n: nat, p: int, h: int)
  {
    Max(0, SliceBound(p + h, n) - SliceBound(p - h, n)) == 2 * h
  }

  /** For a non-negative pulse and a positive half window, a window is complete iff it lies inside the signal. */
  lemma WindowCompleteIff(sig: Column, p: int, h: int)
    requires p >= 0 && h > 0
    ensures |Window(sig, p, h)| == 2 * h <==> Complete(|sig|, p, h)
    ensures Complete(|sig|, p, h) <==> h <= p && p + h <= |sig|
  {
    var n := |sig|;
    if p - h < 0 {
      assert SliceBound(p + h, n) <= n;
      if n + p - h >= 0 {
        assert SliceBound(p - h, n) == n + p - h;
      }
    }
  }

  /** The positions (firing numbers) whose window in a signal of length `n` is complete, ascending. */
  function CompletePositions(n: nat, pulses: seq<int>, h: int): (r: seq<nat>)
    ensures forall i :: 0 <= i < |r| ==> r[i] < |pulses| && Complete(n, pulses[r[i]], h)
    ensures |r| > 0 ==> h >= 0
  {
    if pulses == [] then []
    else
      var prev := CompletePositions(n, pulses[..|pulses| - 1], h);
      var k := |pulses| - 1;
      assert forall i :: 0 <= i < |prev| ==> pulses[..k][prev[i]] == pulses[prev[i]];
      prev + (if Complete(n, pulses[k], h) then [k] else [])
  }

  /** A firing is listed exactly when its window is complete, and the list is strictly increasing. */
  lemma {:induction false} CompletePositionsExactly(n: nat, pulses: seq<int>, h: int)
    ensures forall k :: k in CompletePositions(n, pulses, h) <==> 0 <= k < |pulses| && Complete(n, pulses[k], h)
    ensures forall i, j :: 0 <= i < j < |CompletePositions(n, pulses, h)| ==>
      CompletePositions(n, pulses, h)[i] < CompletePositions(n, pulses, h)[j]
  {
    if pulses != [] {
      var k := |pulses| - 1;
      var ps := pulses[..k];
      CompletePositionsExactly(n, ps, h);
      assert forall j :: 0 <= j < k ==> ps[j] == pulses[j];
    }
  }

  /** The windows at the given firing positions. */
  function WindowsAt(sig: Column, pulses: seq<int>, h: int, pos: seq<nat>): (ws: seq<Column>)
    requires forall i :: 0 <= i < |pos| ==> pos[i] < |pulses|
    ensures |ws| == |pos|
    ensures forall i :: 0 <= i < |pos| ==> ws[i] == Window(sig, pulses[pos[i]], h)
  {
    seq(|pos|, i requires 0 <= i < |pos| => Window(sig, pulses[pos[i]], h))
  }

  /** The complete windows of one channel, in firing order. */
  function KeptWindows(sig: Column, pulses: seq<int>, h: int): (ws: seq<Column>)
    ensures |ws| == |CompletePositions(|sig|, pulses, h)|
    ensures forall i :: 0 <= i < |ws| ==> |ws[i]| == 2 * h
  {
    WindowsAt(sig, pulses, h, CompletePositions(|sig|, pulses, h))
  }

  /** The window loop of `sta`: every window of the full length is appended, in firing order. */
  method CompleteWindows(sig: Column, pulses: seq<int>, h: int) returns (ws: seq<Column>)
    ensures ws == KeptWindows(sig, pulses, h)
  {
    ws := [];
    for k := 0 to |pulses|
      invariant ws == WindowsAt(sig, pulses, h, CompletePositions(|sig|, pulses[..k], h))
    {
      var w := Window(sig, pulses[k], h);
      PositionsStep(|sig|, pulses, h, k);
      if |w| == 2 * h {
        WindowsAtSnoc(sig, pulses, h, CompletePositions(|sig|, pulses[..k], h), k);
        ws := ws + [w];
      }
    }
    assert pulses[..|pulses|] == pulses;
  }

  lemma PositionsStep(n: nat, pulses: seq<int>, h: int, k: nat)
    requires k < |pulses|
    ensures CompletePositions(n, pulses[..k + 1], h)
         == CompletePositions(n, pulses[..k], h) + (if Complete(n, pulses[k], h) then [k] else [])
  {
    assert pulses[..k + 1][..k] == pulses[..k];
  }

  lemma WindowsAtSnoc(sig: Column, pulses: seq<int>, h: int, pos: seq<nat>, k: nat)
    requires forall i :: 0 <= i < |pos| ==> pos[i] < |pulses|
    requires k < |pulses|
    ensures WindowsAt(sig, pulses, h, pos + [k]) == WindowsAt(sig, pulses, h, pos) + [Window(sig, pulses[k], h)]
  {
  }

  /** numpy `mean` over the windows at one sample: any NaN makes the mean NaN. */
  function WindowsMean(xs: seq<Float>): Float
    requires |xs| > 0
  {
    if NumCount(xs) < |xs| then NaN else Num(NumSum(xs) / |xs| as real)
  }

  /** Sample `t` of every window. */
  function SampleAt(ws: seq<Column>, t: nat): (xs: seq<Float>)
    requires forall i :: 0 <= i < |ws| ==> t < |ws[i]|
    ensures |xs| == |ws| && forall i :: 0 <= i < |ws| ==> xs[i] == ws[i][t]
  {
    seq(|ws|, i requires 0 <= i < |ws| => ws[i][t])
  }

  /** `np.mean(windows, axis=0)`: the sample-by-sample mean of equally long windows. */
  function MeanWindow(ws: seq<Column>, len: nat): (c: Column)
    requires |ws| > 0 && forall i :: 0 <= i < |ws| ==> |ws[i]| == len
    ensures |c| == len
    ensures forall t :: 0 <= t < len ==> c[t] == WindowsMean(SampleAt(ws, t))
  {
    seq(len, t requires 0 <= t < len => WindowsMean(SampleAt(ws, t)))
  }

  /** The mean of identical samples is that sample. */
  lemma {:induction false} MeanOfCopies(xs: seq<Float>)
    requires |xs| > 0 && forall i :: 0 <= i < |xs| ==> xs[i] == xs[0]
    ensures WindowsMean(xs) == xs[0]
  {
    if xs[0].Num? {
      CopiesSum(xs, xs[0].r);
      assert NumSum(xs) / |xs| as real == xs[0].r;
    } else {
      assert xs[|xs| - 1].NaN?;
      assert NumCount(xs) <= |xs| - 1 by {
        assert NumCount(xs) == NumCount(xs[..|xs| - 1]);
      }
    }
  }

  lemma {:induction false} CopiesSum(xs: seq<Float>, r: real)
    requires forall i :: 0 <= i < |xs| ==> xs[i] == Num(r)
    ensures NumCount(xs) == |xs| && NumSum(xs) == |xs| as real * r
  {
    if xs != [] {
      CopiesSum(xs[..|xs| - 1], r);
    }
  }

  /** Averaging copies of one window gives that window back: the STA of a repeated spike is the spike. */
  lemma MeanOfIdenticalWindows(ws: seq<Column>, len: nat)
    requires |ws| > 0 && forall i :: 0 <= i < |ws| ==> |ws[i]| == len && ws[i] == ws[0]
    ensures MeanWindow(ws, len) == ws[0]
  {
    var c := MeanWindow(ws, len);
    forall t | 0 <= t < len ensures c[t] == ws[0][t] {
      MeanOfCopies(SampleAt(ws, t));
    }
  }

  /**
   * The STA of one matrix column: an empty column gives an empty frame;
   * otherwise, with no complete window (every channel's mean a scalar
   * NaN) the frame constructor raises ValueError, and each channel is the
   * mean of its complete windows, `2 h` samples long.
   */
  function StaBlockOf(b: Block, pulses: seq<int>, h: int): (r: Result<Block>)
    requires BlockOk(b)
  {
    if |b.cols| == 0 then Ok(Block(0, b.labels, []))
    else if CompletePositions(b.rows, pulses, h) == [] then Err(ValueError)
    else Ok(Block(2 * h, b.labels, seq(|b.cols|, c requires 0 <= c < |b.cols| => ChannelSta(b.cols[c], pulses, h))))
  }

  /** The STA of one channel with at least one complete window. */
  function ChannelSta(sig: Column, pulses: seq<int>, h: int): (c: Column)
    requires CompletePositions(|sig|, pulses, h) != []
    ensures |c| == 2 * h
  {
    MeanWindow(KeptWindows(sig, pulses, h), 2 * h)
  }

  /** The channel loop of `sta` over one matrix column. */
  method StaBlock(b: Block, pulses: seq<int>, h: int) returns (r: Result<Block>)
    requires BlockOk(b)
    ensures r == StaBlockOf(b, pulses, h)
  {
    var cols: seq<Column> := [];
    var rows: nat := 0;
    for c := 0 to |b.cols|
      invariant |cols| == c && StaPrefix(b, pulses, h, cols)
      invariant c == 0 ==> rows == 0
      invariant c > 0 ==> rows == 2 * h
    {
      var ws := CompleteWindows(b.cols[c], pulses, h);
      StaChannelStep(b, pulses, h, c);
      if ws == [] {
        return Err(ValueError);
      }
      rows := 2 * h;
      StaPrefixSnoc(b, pulses, h, cols);
      cols := cols + [MeanWindow(ws, rows)];
    }
    StaBlockFromChannels(b, pulses, h, rows, cols);
    return Ok(Block(rows, b.labels, cols));
  }

  /** The first |cols| channel STAs of the block. */
  predicate StaPrefix(b: Block, pulses: seq<int>, h: int, cols: seq<Column>)
    requires BlockOk(b)
  {
    |cols| <= |b.cols|
    && (|cols| > 0 ==> CompletePositions(b.rows, pulses, h) != [])
    && forall i :: 0 <= i < |cols| ==> |b.cols[i]| == b.rows && cols[i] == ChannelSta(b.cols[i], pulses, h)
  }

  lemma StaPrefixSnoc(b: Block, pulses: seq<int>, h: int, cols: seq<Column>)
    requires BlockOk(b) && StaPrefix(b, pulses, h, cols) && |cols| < |b.cols|
    requires CompletePositions(b.rows, pulses, h) != []
    ensures StaPrefix(b, pulses, h, cols + [MeanWindow(KeptWindows(b.cols[|cols|], pulses, h), 2 * h)])
  {
    assert |b.cols[|cols|]| == b.rows;
    var cols' := cols + [MeanWindow(KeptWindows(b.cols[|cols|], pulses, h), 2 * h)];
    assert forall i :: 0 <= i < |cols| ==> cols'[i] == cols[i];
  }

  lemma StaChannelStep(b: Block, pulses: seq<int>, h: int, c: nat)
    requires BlockOk(b) && c < |b.cols|
    ensures KeptWindows(b.cols[c], pulses, h) == [] <==> CompletePositions(b.rows, pulses, h) == []
    ensures KeptWindows(b.cols[c], pulses, h) != [] ==>
      MeanWindow(KeptWindows(b.cols[c], pulses, h), 2 * h) == ChannelSta(b.cols[c], pulses, h)
  {
    assert |b.cols[c]| == b.rows;
  }

  lemma StaBlockFromChannels(b: Block, pulses: seq<int>, h: int, rows: nat, cols: seq<Column>)
    requires BlockOk(b) && |cols| == |b.cols| && StaPrefix(b, pulses, h, cols)
    requires |cols| > 0 ==> rows == 2 * h
    requires |cols| == 0 ==> rows == 0
    ensures StaBlockOf(b, pulses, h) == Ok(Block(rows, b.labels, cols))
  {
    if |cols| > 0 {
      var e := StaBlockOf(b, pulses, h).value;
      assert |e.cols| == |cols|;
      forall i | 0 <= i < |cols| ensures e.cols[i] == cols[i] {
      }
      assert e.cols == cols;
    }
  }

  /** The STA of a channel whose complete windows are all the same window is that window. */
  lemma ChannelStaOfIdentical(sig: Column, pulses: seq<int>, h: int, w: Column)
    requires CompletePositions(|sig|, pulses, h) != []
    requires forall k :: 0 <= k < |pulses| && Complete(|sig|, pulses[k], h) ==> Window(sig, pulses[k], h) == w
    ensures ChannelSta(sig, pulses, h) == w
  {
    var ws := KeptWindows(sig, pulses, h);
    var pos := CompletePositions(|sig|, pulses, h);
    assert forall i :: 0 <= i < |ws| ==> ws[i] == Window(sig, pulses[pos[i]], h) == w;
    MeanOfIdenticalWindows(ws, 2 * h);
  }

  /** Which firings `sta` averages: "all", or the Python slice [first:last] of the MU's pulses. */
  datatype Firings = AllFirings | FiringRange(first: int, last: int)

  function SelectedPulses(ps: seq<int>, firings: Firings): (r: seq<int>)
    ensures firings.AllFirings? ==> r == ps
  {
    match firings
    case AllFirings => PySlice(ps, 0, |ps|)
    case FiringRange(a, b) => PySlice(ps, a, b)
  }

  /** The STA of every matrix column for one MU. */
  function StaBlockResults(bs: seq<Block>, pulses: seq<int>, h: int): (rs: seq<Result<Block>>)
    requires forall k :: 0 <= k < |bs| ==> BlockOk(bs[k])
    ensures |rs| == |bs| && forall k :: 0 <= k < |bs| ==> rs[k] == StaBlockOf(bs[k], pulses, h)
  {
    seq(|bs|, k requires 0 <= k < |bs| => StaBlockOf(bs[k], pulses, h))
  }

  /** One MU of `sta`: the columns in order, the first failing one deciding the error. */
  function StaMuOf(m: Matrix, pulses: seq<int>, h: int): (r: Result<Matrix>)
    requires MatrixOk(m)
  {
    var bs := Collect(StaBlockResults(m.blocks, pulses, h));
    if bs.Err? then Err(bs.error) else Ok(Matrix(m.keys, bs.value))
  }

  /** The column loop of `sta` for one MU. */
  method StaMu(m: Matrix, pulses: seq<int>, h: int) returns (r: Result<Matrix>)
    requires MatrixOk(m)
    ensures r == StaMuOf(m, pulses, h)
  {
    ghost var rs := StaBlockResults(m.blocks, pulses, h);
    var out: seq<Block> := [];
    for k := 0 to |m.blocks|
      invariant Collect(rs[..k]) == Ok(out)
    {
      var s := StaBlock(m.blocks[k], pulses, h);
      CollectStep(rs, k);
      if s.Err? {
        CollectPrefixErr(rs, k + 1);
        return Err(s.error);
      }
      out := out + [s.value];
    }
    assert rs[..|m.blocks|] == rs;
    return Ok(Matrix(m.keys, out));
  }

  /** A negative NUMBER_OF_MUS is an empty `range`. */
  function MuCount(f: EmgFile): nat
  {
    if f.numberOfMus > 0 then f.numberOfMus else 0
  }

  /** One MU of `sta`: a missing MUPULSES entry is an IndexError, an MU without firings a ValueError. */
  function StaOneMuOf(mupulses: seq<seq<int>>, m: Matrix, firings: Firings, h: int, mu: nat): Result<Matrix>
    requires MatrixOk(m)
  {
    if mu >= |mupulses| then Err(IndexError)
    else if |mupulses[mu]| == 0 then Err(ValueError)
    else StaMuOf(m, SelectedPulses(mupulses[mu], firings), h)
  }

  method StaOneMu(mupulses: seq<seq<int>>, m: Matrix, firings: Firings, h: int, mu: nat) returns (r: Result<Matrix>)
    requires MatrixOk(m)
    ensures r == StaOneMuOf(mupulses, m, firings, h, mu)
  {
    if mu >= |mupulses| {
      return Err(IndexError);
    }
    if |mupulses[mu]| == 0 {
      return Err(ValueError);
    }
    r := StaMu(m, SelectedPulses(mupulses[mu], firings), h);
  }

  /** `sta` over MUs 0..n-1 in order, stopping at the first MU that raises. */
  function StaMuResults(mupulses: seq<seq<int>>, m: Matrix, firings: Firings, h: int, n: nat): (rs: seq<Result<Matrix>>)
    requires MatrixOk(m)
    ensures |rs| == n && forall mu :: 0 <= mu < n ==> rs[mu] == StaOneMuOf(mupulses, m, firings, h, mu)
  {
    seq(n, mu requires 0 <= mu < n => StaOneMuOf(mupulses, m, firings, h, mu))
  }

  function StaOf(f: EmgFile, m: Matrix, firings: Firings, timewindow: real): Result<seq<Matrix>>
    requires MatrixOk(m)
  {
    Collect(StaMuResults(f.mupulses, m, firings, HalfTime(timewindow, f.fsamp), MuCount(f)))
  }

  /** `sta`: the spike-triggered average of every MU on every channel of the sorted matrix. */
  method Sta(f: EmgFile, m: Matrix, firings: Firings, timewindow: real) returns (r: Result<seq<Matrix>>)
    requires MatrixOk(m)
    ensures r == StaOf(f, m, firings, timewindow)
  {
    var h := HalfTime(timewindow, f.fsamp);
    ghost var rs := StaMuResults(f.mupulses, m, firings, h, MuCount(f));
    var out: seq<Matrix> := [];
    for mu := 0 to MuCount(f)
      invariant Collect(rs[..mu]) == Ok(out)
    {
      var s := StaOneMu(f.mupulses, m, firings, h, mu);
      CollectStep(rs, mu);
      if s.Err? {
        CollectPrefixErr(rs, mu + 1);
        return Err(s.error);
      }
      out := out + [s.value];
    }
    assert rs[..MuCount(f)] == rs;
    return Ok(out);
  }

  /** An MU without firings (or without a MUPULSES entry) makes `sta` fail. */
  lemma StaEmptyMuFails(f: EmgFile, m: Matrix, firings: Firings, timewindow: real, mu: nat)
    requires MatrixOk(m) && mu < MuCount(f)
    requires mu >= |f.mupulses| || |f.mupulses[mu]| == 0
    ensures StaOf(f, m, firings, timewindow).Err?
  {
    var rs := StaMuResults(f.mupulses, m, firings, HalfTime(timewindow, f.fsamp), MuCount(f));
    CollectEach(rs);
    assert rs[mu].Err?;
  }

  /**
   * The shape of a successful `sta`: one dict per MU with the matrix's
   * column keys, every column keeping its channel labels and, when it has
   * channels, `2 h` samples.
   */
  lemma StaShape(f: EmgFile, m: Matrix, firings: Firings, timewindow: real, mu: nat, k: nat)
    requires MatrixOk(m) && StaOf(f, m, firings, timewindow).Ok?
    requires mu < MuCount(f) && k < |m.blocks|
    ensures mu < |StaOf(f, m, firings, timewindow).value|
    ensures StaOf(f, m, firings, timewindow).value[mu].keys == m.keys
    ensures |StaOf(f, m, firings, timewindow).value[mu].blocks| == |m.blocks|
    ensures StaOf(f, m, firings, timewindow).value[mu].blocks[k].labels == m.blocks[k].labels
    ensures |m.blocks[k].cols| > 0 ==>
      StaOf(f, m, firings, timewindow).value[mu].blocks[k].rows == 2 * HalfTime(timewindow, f.fsamp)
  {
    var h := HalfTime(timewindow, f.fsamp);
    var rs := StaMuResults(f.mupulses, m, firings, h, MuCount(f));
    CollectEach(rs);
    assert rs[mu].Ok?;
    var pulses := SelectedPulses(f.mupulses[mu], firings);
    CollectEach(StaBlockResults(m.blocks, pulses, h));
    assert StaBlockResults(m.blocks, pulses, h)[k].Ok?;
  }

  /** The ST MUAPs of one channel: the firing positions with a complete window, and those windows. */
  datatype StChannel = StChannel(positions: seq<nat>, muaps: seq<Column>)

  /** The ST MUAPs of one matrix column, channel by channel. */
  datatype StBlock = StBlock(labels: seq<int>, channels: seq<StChannel>)

  datatype StMatrix = StMatrix(keys: seq<string>, blocks: seq<StBlock>)

  function StChannelOf(sig: Column, pulses: seq<int>, h: int): StChannel
  {
    StChannel(CompletePositions(|sig|, pulses, h), KeptWindows(sig, pulses, h))
  }

  /** The `enumerate(thismups)` loop of `st_muap`: each complete window is stored under its firing position. */
  method StChannelLoop(sig: Column, pulses: seq<int>, h: int) returns (st: StChannel)
    ensures st == StChannelOf(sig, pulses, h)
  {
    var positions: seq<nat> := [];
    var muaps: seq<Column> := [];
    for pos := 0 to |pulses|
      invariant positions == CompletePositions(|sig|, pulses[..pos], h)
      invariant muaps == WindowsAt(sig, pulses, h, positions)
    {
      var muap := Window(sig, pulses[pos], h);
      PositionsStep(|sig|, pulses, h, pos);
      if |muap| == 2 * h {
        WindowsAtSnoc(sig, pulses, h, positions, pos);
        positions := positions + [pos];
        muaps := muaps + [muap];
      }
    }
    assert pulses[..|pulses|] == pulses;
    return StChannel(positions, muaps);
  }

  function StBlockOf(b: Block, pulses: seq<int>, h: int): (st: StBlock)
    ensures st.labels == b.labels && |st.channels| == |b.cols|
    ensures forall c :: 0 <= c < |b.cols| ==> st.channels[c] == StChannelOf(b.cols[c], pulses, h)
  {
    StBlock(b.labels, seq(|b.cols|, c requires 0 <= c < |b.cols| => StChannelOf(b.cols[c], pulses, h)))
  }

  method StMuapBlock(b: Block, pulses: seq<int>, h: int) returns (st: StBlock)
    ensures st == StBlockOf(b, pulses, h)
  {
    var channels: seq<StChannel> := [];
    for c := 0 to |b.cols|
      invariant |channels| == c
      invariant forall i :: 0 <= i < c ==> channels[i] == StChannelOf(b.cols[i], pulses, h)
    {
      var ch := StChannelLoop(b.cols[c], pulses, h);
      channels := channels + [ch];
    }
    return StBlock(b.labels, channels);
  }

  function StMuOf(m: Matrix, pulses: seq<int>, h: int): (st: StMatrix)
    ensures st.keys == m.keys && |st.blocks| == |m.blocks|
    ensures forall k :: 0 <= k < |m.blocks| ==> st.blocks[k] == StBlockOf(m.blocks[k], pulses, h)
  {
    StMatrix(m.keys, seq(|m.blocks|, k requires 0 <= k < |m.blocks| => StBlockOf(m.blocks[k], pulses, h)))
  }

  method StMuapMu(m: Matrix, pulses: seq<int>, h: int) returns (st: StMatrix)
    ensures st == StMuOf(m, pulses, h)
  {
    var blocks: seq<StBlock> := [];
    for k := 0 to |m.blocks|
      invariant |blocks| == k
      invariant forall i :: 0 <= i < k ==> blocks[i] == StBlockOf(m.blocks[i], pulses, h)
    {
      var b := StMuapBlock(m.blocks[k], pulses, h);
      blocks := blocks + [b];
    }
    return StMatrix(m.keys, blocks);
  }

  /** One MU of `st_muap`: the same IndexError and ValueError as `sta`, then every firing of the MU. */
  function StMuapOneOf(mupulses: seq<seq<int>>, m: Matrix, h: int, mu: nat): Result<StMatrix>
  {
    if mu >= |mupulses| then Err(IndexError)
    else if |mupulses[mu]| == 0 then Err(ValueError)
    else Ok(StMuOf(m, mupulses[mu], h))
  }

  function StMuapResults(mupulses: seq<seq<int>>, m: Matrix, h: int, n: nat): (rs: seq<Result<StMatrix>>)
    ensures |rs| == n && forall mu :: 0 <= mu < n ==> rs[mu] == StMuapOneOf(mupulses, m, h, mu)
  {
    seq(n, mu requires 0 <= mu < n => StMuapOneOf(mupulses, m, h, mu))
  }

  function StMuapOf(f: EmgFile, m: Matrix, timewindow: real): Result<seq<StMatrix>>
  {
    Collect(StMuapResults(f.mupulses, m, HalfTime(timewindow, f.fsamp), MuCount(f)))
  }

  /** `st_muap`: the complete windows of every firing of every MU on every channel. */
  method StMuap(f: EmgFile, m: Matrix, timewindow: real) returns (r: Result<seq<StMatrix>>)
    ensures r == StMuapOf(f, m, timewindow)
  {
    var h := HalfTime(timewindow, f.fsamp);
    ghost var rs := StMuapResults(f.mupulses, m, h, MuCount(f));
    var out: seq<StMatrix> := [];
    for mu := 0 to MuCount(f)
      invariant Collect(rs[..mu]) == Ok(out)
    {
      CollectStep(rs, mu);
      if mu >= |f.mupulses| {
        CollectPrefixErr(rs, mu + 1);
        return Err(IndexError);
      }
      if |f.mupulses[mu]| == 0 {
        CollectPrefixErr(rs, mu + 1);
        return Err(ValueError);
      }
      var st := StMuapMu(m, f.mupulses[mu], h);
      out := out + [st];
    }
    assert rs[..MuCount(f)] == rs;
    return Ok(out);
  }

  /** Every channel of an STA block is the mean of the non-empty ST MUAPs of that channel. */
  predicate BlockIsMean(b: Block, st: StBlock, h: int)
  {
    |b.cols| == |st.channels|
    && forall c :: 0 <= c < |b.cols| ==> MeanOf(b.cols[c], st.channels[c], h)
  }

  predicate MeanOf(col: Column, ch: StChannel, h: int)
  {
    h >= 0 && |ch.muaps| > 0 && (forall i :: 0 <= i < |ch.muaps| ==> |ch.muaps[i]| == 2 * h)
    && col == MeanWindow(ch.muaps, 2 * h)
  }

  predicate MatrixIsMean(m: Matrix, st: StMatrix, h: int)
  {
    m.keys == st.keys && |m.blocks| == |st.blocks|
    && forall k :: 0 <= k < |m.blocks| ==> BlockIsMean(m.blocks[k], st.blocks[k], h)
  }

  lemma BlockStaIsMean(b: Block, pulses: seq<int>, h: int)
    requires BlockOk(b) && StaBlockOf(b, pulses, h).Ok?
    ensures BlockIsMean(StaBlockOf(b, pulses, h).value, StBlockOf(b, pulses, h), h)
  {
    var st := StBlockOf(b, pulses, h);
    forall c | 0 <= c < |b.cols|
      ensures MeanOf(StaBlockOf(b, pulses, h).value.cols[c], st.channels[c], h)
    {
      assert |b.cols[c]| == b.rows;
    }
  }

  lemma MuStaIsMean(m: Matrix, pulses: seq<int>, h: int)
    requires MatrixOk(m) && StaMuOf(m, pulses, h).Ok?
    ensures MatrixIsMean(StaMuOf(m, pulses, h).value, StMuOf(m, pulses, h), h)
  {
    var bs := StaBlockResults(m.blocks, pulses, h);
    CollectEach(bs);
    forall k | 0 <= k < |m.blocks|
      ensures BlockIsMean(StaMuOf(m, pulses, h).value.blocks[k], StMuOf(m, pulses, h).blocks[k], h)
    {
      BlockStaIsMean(m.blocks[k], pulses, h);
    }
  }

  /**
   * `sta` with all firings is the mean of the ST MUAPs of `st_muap`:
   * both keep the same complete windows, channel by channel.
   */
  lemma StaIsMeanOfStMuaps(f: EmgFile, m: Matrix, timewindow: real)
    requires MatrixOk(m) && StaOf(f, m, AllFirings, timewindow).Ok?
    ensures StMuapOf(f, m, timewindow).Ok?
    ensures |StaOf(f, m, AllFirings, timewindow).value| == |StMuapOf(f, m, timewindow).value|
    ensures forall mu :: 0 <= mu < |StMuapOf(f, m, timewindow).value| ==>
      MatrixIsMean(StaOf(f, m, AllFirings, timewindow).value[mu], StMuapOf(f, m, timewindow).value[mu],
                   HalfTime(timewindow, f.fsamp))
  {
    var h := HalfTime(timewindow, f.fsamp);
    var rs := StaMuResults(f.mupulses, m, AllFirings, h, MuCount(f));
    CollectEach(rs);
    var ts := StMuapResults(f.mupulses, m, h, MuCount(f));
    forall i | 0 <= i < MuCount(f) ensures ts[i].Ok? {
      assert rs[i].Ok?;
    }
    CollectEach(ts);
    forall mu | 0 <= mu < MuCount(f)
      ensures MatrixIsMean(rs[mu].value, ts[mu].value, h)
    {
      assert rs[mu].Ok?;
      MuStaIsMean(m, f.mupulses[mu], h);
    }
  }

  /** Concatenation, in order (the frames `reduce(merge)` puts side by side). */
  function Flatten<T>(ss: seq<seq<T>>): (r: seq<T>)
  {
    if ss == [] then [] else ss[0] + Flatten(ss[1..])
  }

  lemma {:induction false} FlattenAppend<T>(a: seq<seq<T>>, b: seq<seq<T>>)
    ensures Flatten(a + b) == Flatten(a) + Flatten(b)
  {
    if a != [] {
      assert (a + b)[1..] == a[1..] + b;
      FlattenAppend(a[1..], b);
    } else {
      assert a + b == b;
    }
  }

  /** `w * p`, spelt out so that the slicing proofs stay linear. */
  function Times(w: nat, p: nat): (r: nat)
  {
    if p == 0 then 0 else Times(w, p - 1) + w
  }

  lemma {:induction false} TimesIsProduct(w: nat, p: nat)
    ensures Times(w, p) == w * p
  {
    if p > 0 {
      TimesIsProduct(w, p - 1);
    }
  }

  /** Blocks of one width `w`: the flattening holds `w |ss|` elements. */
  lemma {:induction false} FlattenLength<T>(ss: seq<seq<T>>, w: nat)
    requires forall p :: 0 <= p < |ss| ==> |ss[p]| == w
    ensures |Flatten(ss)| == Times(w, |ss|)
  {
    if ss != [] {
      FlattenLength(ss[1..], w);
      TimesFirst(w, |ss| - 1);
    }
  }

  lemma {:induction false} TimesFirst(w: nat, p: nat)
    ensures Times(w, p + 1) == w + Times(w, p)
  {
  }

  /** Columns [w p, w (p + 1)) of `s` (`iloc[:, w*p : w*(p+1)]`): block `p` of `pack_sta`. */
  function Chunk<T>(s: seq<T>, w: nat, p: nat): seq<T>
  {
    var lo := Times(w, p);
    s[Min(lo, |s|)..Min(lo + w, |s|)]
  }

  /** The chunk `p` of a flattening of blocks of width `w` is block `p`. */
  lemma FlattenSlice<T>(ss: seq<seq<T>>, w: nat, p: nat)
    requires forall q :: 0 <= q < |ss| ==> |ss[q]| == w
    requires p < |ss|
    ensures Chunk(Flatten(ss), w, p) == ss[p]
  {
    var pre, rest := ss[..p], ss[p + 1..];
    var a := Times(w, p);
    assert Flatten(ss) == Flatten(pre) + (ss[p] + Flatten(rest)) by {
      assert ss == pre + ([ss[p]] + rest);
      FlattenAppend(pre, [ss[p]] + rest);
      assert ([ss[p]] + rest)[1..] == rest;
    }
    assert |Flatten(pre)| == a by {
      FlattenLength(pre, w);
    }
    var all := Flatten(pre) + (ss[p] + Flatten(rest));
    assert all[a..a + w] == ss[p];
  }

  /** The first `k` chunks of width `w`. */
  function Chunks<T>(s: seq<T>, w: nat, k: nat): (cs: seq<seq<T>>)
    ensures |cs| == k && forall p :: 0 <= p < k ==> cs[p] == Chunk(s, w, p)
  {
    seq(k, p requires 0 <= p < k => Chunk(s, w, p))
  }

  /** Consecutive chunks of width `w` put back together give the first `w k` elements. */
  lemma {:induction false} FlattenConsecutive<T>(s: seq<T>, w: nat, k: nat)
    ensures Flatten(Chunks(s, w, k)) == s[..Min(|s|, Times(w, k))]
  {
    if k > 0 {
      var ss := Chunks(s, w, k);
      var pre := Chunks(s, w, k - 1);
      var c := Chunk(s, w, k - 1);
      assert Flatten(ss) == Flatten(pre) + c by {
        assert ss == pre + [c];
        FlattenAppend(pre, [c]);
        assert [c][1..] == [];
      }
      FlattenConsecutive(s, w, k - 1);
      ChunkAppend(s, Times(w, k - 1), w, c);
    }
  }

  lemma ChunkAppend<T>(s: seq<T>, a: nat, w: nat, c: seq<T>)
    requires c == s[Min(a, |s|)..Min(a + w, |s|)]
    ensures s[..Min(|s|, a)] + c == s[..Min(|s|, a + w)]
  {
    if a >= |s| {
      assert c == [];
    } else if a + w <= |s| {
      assert s[..a] + s[a..a + w] == s[..a + w];
    } else {
      assert s[..a] + s[a..] == s;
    }
  }

  /** The fewest rows of any block (the inner join on the row index keeps the common rows). */
  function MinRows(bs: seq<Block>): (r: nat)
    requires |bs| > 0
    ensures forall k :: 0 <= k < |bs| ==> r <= bs[k].rows
    ensures exists k :: 0 <= k < |bs| && r == bs[k].rows
  {
    if |bs| == 1 then bs[0].rows
    else
      var rest := MinRows(bs[..|bs| - 1]);
      assert forall k :: 0 <= k < |bs| - 1 ==> bs[..|bs| - 1][k] == bs[k];
      Min(rest, bs[|bs| - 1].rows)
  }

  function LabelsOf(bs: seq<Block>): (ls: seq<seq<int>>)
    ensures |ls| == |bs| && forall k :: 0 <= k < |bs| ==> ls[k] == bs[k].labels
  {
    seq(|bs|, k requires 0 <= k < |bs| => bs[k].labels)
  }

  function ColsOf(bs: seq<Block>): (cs: seq<seq<Column>>)
    ensures |cs| == |bs| && forall k :: 0 <= k < |bs| ==> cs[k] == bs[k].cols
  {
    seq(|bs|, k requires 0 <= k < |bs| => bs[k].cols)
  }

  /** The channels of every block cut to their first `rows` samples. */
  function ColumnsOf(bs: seq<Block>, rows: nat): (cs: seq<seq<Column>>)
    requires forall k :: 0 <= k < |bs| ==> BlockOk(bs[k]) && rows <= bs[k].rows
    ensures |cs| == |bs| && forall k :: 0 <= k < |bs| ==> cs[k] == Truncated(bs[k], rows)
  {
    seq(|bs|, k requires 0 <= k < |bs| => Truncated(bs[k], rows))
  }

  function Truncated(b: Block, rows: nat): (cs: seq<Column>)
    requires BlockOk(b) && rows <= b.rows
    ensures |cs| == |b.cols| && forall c :: 0 <= c < |b.cols| ==> cs[c] == b.cols[c][..rows]
  {
    seq(|b.cols|, c requires 0 <= c < |b.cols| => b.cols[c][..rows])
  }

  /**
   * `unpack_sta`: all columns side by side in key order, over the rows every
   * block has, with the list of keys.  `reduce` over no blocks is a TypeError.
   */
  function Unpack(m: Matrix): (r: Result<(Block, seq<string>)>)
    requires MatrixOk(m)
    ensures r.Ok? <==> |m.blocks| > 0
    ensures r.Ok? ==> r.value.1 == m.keys && r.value.0.labels == Flatten(LabelsOf(m.blocks))
    ensures r.Ok? ==> forall k :: 0 <= k < |m.blocks| ==> r.value.0.rows <= m.blocks[k].rows
  {
    if |m.blocks| == 0 then Err(TypeError)
    else
      var rows := MinRows(m.blocks);
      Ok((Block(rows, Flatten(LabelsOf(m.blocks)), Flatten(ColumnsOf(m.blocks, rows))), m.keys))
  }

  /** The first occurrence of each key, in order (a dict built from a list of keys). */
  function UniqueKeys(keys: seq<string>): (r: seq<string>)
    ensures Distinct(r)
    ensures forall k :: k in r <==> k in keys
  {
    if keys == [] then []
    else
      var pre := UniqueKeys(keys[..|keys| - 1]);
      var last := keys[|keys| - 1];
      assert forall k :: k in keys <==> k in keys[..|keys| - 1] || k == last;
      if last in pre then pre else pre + [last]
  }

  /** Distinct keys are their own first occurrences. */
  lemma {:induction false} UniqueKeysDistinct(keys: seq<string>)
    requires Distinct(keys)
    ensures UniqueKeys(keys) == keys
  {
    if keys != [] {
      var pre := keys[..|keys| - 1];
      assert Distinct(pre);
      UniqueKeysDistinct(pre);
      assert keys[|keys| - 1] !in pre;
      assert pre + [keys[|keys| - 1]] == keys;
    }
  }

  /** The last position of `k`: a repeated dict key keeps the value assigned last. */
  function LastIndex(keys: seq<string>, k: string): (i: nat)
    requires k in keys
    ensures i < |keys| && keys[i] == k
    ensures forall j :: i < j < |keys| ==> keys[j] != k
  {
    if keys[|keys| - 1] == k then |keys| - 1
    else
      assert k in keys[..|keys| - 1];
      LastIndex(keys[..|keys| - 1], k)
  }

  lemma LastIndexDistinct(keys: seq<string>, p: nat)
    requires Distinct(keys) && p < |keys|
    ensures LastIndex(keys, keys[p]) == p
  {
  }

  /** Block `p` of `pack_sta`: columns [s p, s (p + 1)) of the frame. */
  function PackedBlock(b: Block, s: nat, p: nat): Block
  {
    Block(b.rows, Chunk(b.labels, s, p), Chunk(b.cols, s, p))
  }

  /**
   * `pack_sta`: `ceil(n / len(keys))` consecutive columns per key; no keys
   * is a ZeroDivisionError.
   */
  function Pack(b: Block, keys: seq<string>): (r: Result<Matrix>)
    ensures r.Ok? <==> |keys| > 0
    ensures r.Ok? ==> r.value.keys == UniqueKeys(keys) && |r.value.blocks| == |r.value.keys|
    ensures r.Ok? ==> forall q :: 0 <= q < |r.value.blocks| ==>
      r.value.blocks[q] == PackedBlock(b, CeilDiv(|b.cols|, |keys|), LastIndex(keys, r.value.keys[q]))
  {
    if |keys| == 0 then Err(ZeroDivisionError)
    else
      var s := CeilDiv(|b.cols|, |keys|);
      var ks := UniqueKeys(keys);
      Ok(Matrix(ks, seq(|ks|, q requires 0 <= q < |ks| => PackedBlock(b, s, LastIndex(keys, ks[q])))))
  }

  lemma CeilDivExact(n: nat, w: nat)
    requires n > 0
    ensures CeilDiv(n * w, n) == w
  {
    var c := CeilDiv(n * w, n);
    if c > w {
      assert (c - 1) * n >= w * n by { MulMono(w, c - 1, n); }
    } else if c < w {
      assert c * n <= (w - 1) * n by { MulMono(c, w - 1, n); }
    }
  }

  lemma MulMono(a: nat, b: nat, n: nat)
    requires a <= b
    ensures a * n <= b * n
  {
  }

  /** Blocks of one width with the same rows: the matrices `unpack_sta` and `pack_sta` round-trip on. */
  predicate Uniform(m: Matrix, w: nat)
  {
    |m.blocks| > 0
    && forall k :: 0 <= k < |m.blocks| ==> |m.blocks[k].cols| == w && m.blocks[k].rows == m.blocks[0].rows
  }

  /** `pack_sta(unpack_sta(m))` restores every block of `m` when the blocks are equally wide. */
  lemma PackUnpack(m: Matrix, w: nat)
    requires MatrixOk(m) && Distinct(m.keys) && Uniform(m, w)
    ensures Unpack(m).Ok?
    ensures Pack(Unpack(m).value.0, Unpack(m).value.1) == Ok(m)
  {
    UnpackUniform(m, w);
    assert forall k :: 0 <= k < |m.blocks| ==> |m.blocks[k].labels| == w;
    PackFlattened(m.blocks, m.keys, w);
  }

  /** Packing equally wide, equally tall blocks laid side by side gives the blocks back. */
  lemma PackFlattened(bs: seq<Block>, keys: seq<string>, w: nat)
    requires Distinct(keys) && |keys| == |bs| > 0
    requires forall q :: 0 <= q < |bs| ==> |bs[q].labels| == w && |bs[q].cols| == w && bs[q].rows == bs[0].rows
    ensures Pack(Block(bs[0].rows, Flatten(LabelsOf(bs)), Flatten(ColsOf(bs))), keys) == Ok(Matrix(keys, bs))
  {
    var n := |bs|;
    var ls, cs := LabelsOf(bs), ColsOf(bs);
    var u := Block(bs[0].rows, Flatten(ls), Flatten(cs));
    assert CeilDiv(|u.cols|, n) == w by {
      FlattenLength(cs, w);
      CeilDivOfTimes(w, n);
    }
    PackDistinct(u, keys);
    var r := Pack(u, keys).value;
    forall q | 0 <= q < n ensures r.blocks[q] == bs[q] {
      PackedBlockOfFlattened(bs, w, q);
    }
    assert r.blocks == bs;
  }

  lemma PackedBlockOfFlattened(bs: seq<Block>, w: nat, q: nat)
    requires q < |bs|
    requires forall p :: 0 <= p < |bs| ==> |bs[p].labels| == w && |bs[p].cols| == w && bs[p].rows == bs[0].rows
    ensures PackedBlock(Block(bs[0].rows, Flatten(LabelsOf(bs)), Flatten(ColsOf(bs))), w, q) == bs[q]
  {
    FlattenSlice(LabelsOf(bs), w, q);
    FlattenSlice(ColsOf(bs), w, q);
  }

  lemma CeilDivOfTimes(w: nat, n: nat)
    requires n > 0
    ensures CeilDiv(Times(w, n), n) == w
  {
    TimesIsProduct(w, n);
    CeilDivExact(n, w);
  }

  /** Unpacking equally tall blocks keeps every channel whole. */
  lemma UnpackUniform(m: Matrix, w: nat)
    requires MatrixOk(m) && Uniform(m, w)
    ensures Unpack(m).Ok?
    ensures Unpack(m).value.0 == Block(m.blocks[0].rows, Flatten(LabelsOf(m.blocks)), Flatten(ColsOf(m.blocks)))
  {
    var rows := MinRows(m.blocks);
    assert rows == m.blocks[0].rows;
    var cs := ColumnsOf(m.blocks, rows);
    forall k | 0 <= k < |m.blocks| ensures cs[k] == m.blocks[k].cols {
      TruncatedWhole(m.blocks[k]);
    }
    assert cs == ColsOf(m.blocks);
  }

  lemma TruncatedWhole(b: Block)
    requires BlockOk(b)
    ensures Truncated(b, b.rows) == b.cols
  {
    forall c | 0 <= c < |b.cols| ensures b.cols[c][..b.rows] == b.cols[c] {
      assert |b.cols[c]| == b.rows;
    }
  }

  /** `unpack_sta(pack_sta(b, keys))` gives the frame back: the blocks cover every column in order. */
  lemma UnpackPack(b: Block, keys: seq<string>)
    requires BlockOk(b) && |keys| > 0 && Distinct(keys)
    ensures Pack(b, keys).Ok? && MatrixOk(Pack(b, keys).value)
    ensures Unpack(Pack(b, keys).value) == Ok((b, keys))
  {
    var s := CeilDiv(|b.cols|, |keys|);
    var k := |keys|;
    PackedChunks(b, keys);
    ChunksCoverAll(|b.cols|, k);
    FlattenChunksAll(b.labels, s, k);
    FlattenChunksAll(b.cols, s, k);
    UnpackWhole(Pack(b, keys).value, b);
  }

  /** Enough chunks to cover `s` put it back together whole. */
  lemma FlattenChunksAll<T>(s: seq<T>, w: nat, k: nat)
    requires Times(w, k) >= |s|
    ensures Flatten(Chunks(s, w, k)) == s
  {
    FlattenConsecutive(s, w, k);
    assert s[..|s|] == s;
  }

  /** `ceil(n / k)` columns for each of `k` keys reach every column. */
  lemma ChunksCoverAll(n: nat, k: nat)
    requires k > 0
    ensures Times(CeilDiv(n, k), k) >= n
  {
    TimesIsProduct(CeilDiv(n, k), k);
  }

  lemma UnpackWhole(m: Matrix, b: Block)
    requires MatrixOk(m) && |m.blocks| > 0 && MinRows(m.blocks) == b.rows
    requires Flatten(LabelsOf(m.blocks)) == b.labels && Flatten(ColumnsOf(m.blocks, b.rows)) == b.cols
    ensures Unpack(m) == Ok((b, m.keys))
  {
  }

  /** The blocks of `pack_sta` on distinct keys are well formed, as tall as the frame, and its chunks. */
  lemma PackedChunks(b: Block, keys: seq<string>)
    requires BlockOk(b) && |keys| > 0 && Distinct(keys)
    ensures Pack(b, keys).Ok? && MatrixOk(Pack(b, keys).value) && Pack(b, keys).value.keys == keys
    ensures MinRows(Pack(b, keys).value.blocks) == b.rows
    ensures LabelsOf(Pack(b, keys).value.blocks) == Chunks(b.labels, CeilDiv(|b.cols|, |keys|), |keys|)
    ensures ColumnsOf(Pack(b, keys).value.blocks, b.rows) == Chunks(b.cols, CeilDiv(|b.cols|, |keys|), |keys|)
  {
    var s := CeilDiv(|b.cols|, |keys|);
    PackDistinct(b, keys);
    var bs := Pack(b, keys).value.blocks;
    PackedBlocksChunks(b, s, bs);
  }

  lemma PackedBlocksChunks(b: Block, s: nat, bs: seq<Block>)
    requires BlockOk(b) && |bs| > 0
    requires forall q :: 0 <= q < |bs| ==> bs[q] == PackedBlock(b, s, q)
    ensures forall q :: 0 <= q < |bs| ==> BlockOk(bs[q]) && bs[q].rows == b.rows
    ensures MinRows(bs) == b.rows
    ensures LabelsOf(bs) == Chunks(b.labels, s, |bs|)
    ensures ColumnsOf(bs, b.rows) == Chunks(b.cols, s, |bs|)
  {
    forall q | 0 <= q < |bs| ensures BlockOk(bs[q]) && bs[q].rows == b.rows {
      PackedBlockOk(b, s, q);
    }
    PackedColumns(b, s, bs);
  }

  lemma PackedColumns(b: Block, s: nat, bs: seq<Block>)
    requires forall q :: 0 <= q < |bs| ==> bs[q] == PackedBlock(b, s, q)
    requires forall q :: 0 <= q < |bs| ==> BlockOk(bs[q]) && bs[q].rows == b.rows
    ensures ColumnsOf(bs, b.rows) == Chunks(b.cols, s, |bs|)
  {
    forall q | 0 <= q < |bs| ensures Truncated(bs[q], b.rows) == Chunk(b.cols, s, q) {
      TruncatedWhole(bs[q]);
    }
  }

  /** With distinct keys, block `q` of `pack_sta` is chunk `q`. */
  lemma PackDistinct(b: Block, keys: seq<string>)
    requires |keys| > 0 && Distinct(keys)
    ensures Pack(b, keys).Ok? && Pack(b, keys).value.keys == keys
    ensures forall q :: 0 <= q < |keys| ==>
      Pack(b, keys).value.blocks[q] == PackedBlock(b, CeilDiv(|b.cols|, |keys|), q)
  {
    UniqueKeysDistinct(keys);
    forall q | 0 <= q < |keys| ensures LastIndex(keys, keys[q]) == q {
      LastIndexDistinct(keys, q);
    }
  }

  lemma PackedBlockOk(b: Block, s: nat, q: nat)
    requires BlockOk(b)
    ensures BlockOk(PackedBlock(b, s, q)) && PackedBlock(b, s, q).rows == b.rows
  {
    var bq := PackedBlock(b, s, q);
    var lo := Min(Times(s, q), |b.labels|);
    forall i, j | 0 <= i < j < |bq.labels| ensures bq.labels[i] != bq.labels[j] {
      assert bq.labels[i] == b.labels[lo + i] && bq.labels[j] == b.labels[lo + j];
    }
    forall c | 0 <= c < |bq.cols| ensures |bq.cols[c]| == b.rows {
      assert bq.cols[c] == b.cols[lo + c];
    }
  }

  /** `math.ceil` of a real. */
  function Ceil(x: real): (c: int)
    ensures x <= c as real < x + 1.0
  {
    -((-x).Floor)
  }

  /** The lag of `align_by_xcorr` capped from above at half the final duration: the smaller of the two. */
  function ClampLag(lag: real, finalSamples: int): (l: real)
    ensures l <= lag && l <= finalSamples as real / 2.0
    ensures l == lag || l == finalSamples as real / 2.0
  {
    if lag > finalSamples as real / 2.0 then finalSamples as real / 2.0 else lag
  }

  /** The smallest label of `correlation_lags(n, n, "same")`: labels run -(n // 2) .. n - 1 - n // 2. */
  function LagMin(n: nat): int { -(n / 2) }

  /** The lag label of row `i`. */
  function LagLabel(n: nat, i: int): real { (LagMin(n) + i) as real }

  /**
   * The rows kept by `loc[start:stop]` on the lag labels: positions
   * [lo, hi), exactly the rows whose label lies in [start, stop].
   */
  function LocRange(n: nat, start: real, stop: real): (r: (nat, nat))
    ensures r.0 <= r.1 <= n
    ensures forall i :: 0 <= i < n ==> (r.0 <= i < r.1 <==> start <= LagLabel(n, i) <= stop)
  {
    var lo := Min(n, Max(0, Ceil(start) - LagMin(n)));
    var hi := Max(lo, Min(n, stop.Floor - LagMin(n) + 1));
    (lo, hi)
  }

  /** Absolute value of a real. */
  function AbsReal(x: real): real { if x < 0.0 then -x else x }

  /** The rows of the first STA kept by the lag: its start moves when the lag is positive. */
  function FirstCut(n: nat, lag: real): (r: (nat, nat))
    ensures r.0 <= r.1 <= n
  {
    var lo, hi := LagMin(n) as real, (LagMin(n) + n - 1) as real;
    LocRange(n, if lag > 0.0 then lo + AbsReal(lag) else lo, if lag > 0.0 then hi else hi - AbsReal(lag))
  }

  /** The rows of the second STA kept by the lag: its end moves when the lag is positive. */
  function SecondCut(n: nat, lag: real): (r: (nat, nat))
    ensures r.0 <= r.1 <= n
  {
    var lo, hi := LagMin(n) as real, (LagMin(n) + n - 1) as real;
    LocRange(n, if lag < 0.0 then lo + AbsReal(lag) else lo, if lag < 0.0 then hi else hi - AbsReal(lag))
  }

  /** Both STAs keep the same number of rows, whatever the lag: n minus the lag rounded up, or none. */
  lemma CutsEqualLength(n: nat, lag: real)
    ensures FirstCut(n, lag).1 - FirstCut(n, lag).0 == SecondCut(n, lag).1 - SecondCut(n, lag).0
    ensures FirstCut(n, lag).1 - FirstCut(n, lag).0 == Max(0, n - Ceil(AbsReal(lag)))
  {
    var m := LagMin(n);
    var a := AbsReal(lag);
    assert ((m + n - 1) as real - a).Floor == m + n - 1 - Ceil(a);
    assert Ceil(m as real + a) == m + Ceil(a);
  }

  /**
   * The cut to the final duration, `iloc[tocutstart:tocutend]` on the `len`
   * rows left by the lag: positions [lo, hi) of those rows.
   */
  function DurationCut(len: nat, finalSamples: int): (r: (nat, nat))
    ensures r.0 <= r.1 <= len
  {
    var start := RoundHalfEven((len - finalSamples) as real / 2.0);
    var end := RoundHalfEven((len - start) as real);
    var lo := SliceBound(start, len);
    (lo, Max(lo, SliceBound(end, len)))
  }

  /** When the lag leaves enough rows, the final cut keeps the final duration to within one sample, exactly when the surplus is even. */
  lemma DurationCutLength(len: nat, finalSamples: int)
    requires 0 <= finalSamples <= len
    ensures var r := DurationCut(len, finalSamples);
      finalSamples - 1 <= r.1 - r.0 <= finalSamples + 1
      && ((len - finalSamples) % 2 == 0 ==> r.1 - r.0 == finalSamples)
  {
    var x := (len - finalSamples) as real / 2.0;
    var start := RoundHalfEven(x);
    assert 0 <= start;
    assert RoundHalfEven((len - start) as real) == len - start;
    if (len - finalSamples) % 2 == 0 {
      var h := (len - finalSamples) / 2;
      assert x == h as real;
      assert start == h;
    }
  }

  /** The final samples `round(n * finalduration)` of `align_by_xcorr`. */
  function FinalSamples(n: nat, finalduration: real): int
  {
    RoundHalfEven(n as real * finalduration)
  }

  /**
   * Where the aligned STAs start in their inputs and how many rows they
   * keep: the lag cut (capped lag), then the cut to the final duration.
   */
  function AlignWindow(n: nat, lag: real, finalduration: real): (w: (nat, nat, nat))
    ensures w.0 + w.2 <= n && w.1 + w.2 <= n
  {
    var fs := FinalSamples(n, finalduration);
    var l := ClampLag(lag, fs);
    var (lo1, hi1) := FirstCut(n, l);
    var (lo2, hi2) := SecondCut(n, l);
    CutsEqualLength(n, l);
    var (a, b) := DurationCut(hi1 - lo1, fs);
    (lo1 + a, lo2 + a, b - a)
  }

  /** The aligned length is the final duration to within one sample whenever the capped lag leaves that many rows. */
  lemma AlignWindowLength(n: nat, lag: real, finalduration: real)
    requires var fs := FinalSamples(n, finalduration);
      0 <= fs <= n - Ceil(AbsReal(ClampLag(lag, fs)))
    ensures var fs := FinalSamples(n, finalduration);
      fs - 1 <= AlignWindow(n, lag, finalduration).2 <= fs + 1
  {
    var fs := FinalSamples(n, finalduration);
    var l := ClampLag(lag, fs);
    CutsEqualLength(n, l);
    DurationCutLength(FirstCut(n, l).1 - FirstCut(n, l).0, fs);
  }

  /** A positive lag moves the first STA's window `ceil(lag)` rows later than the second's. */
  lemma AlignWindowShift(n: nat, lag: real, finalduration: real)
    requires var fs := FinalSamples(n, finalduration);
      0.0 < ClampLag(lag, fs) && Ceil(ClampLag(lag, fs)) < n
    ensures var w := AlignWindow(n, lag, finalduration);
      w.0 == w.1 + Ceil(ClampLag(lag, FinalSamples(n, finalduration)))
  {
    var l := ClampLag(lag, FinalSamples(n, finalduration));
    assert Ceil(LagMin(n) as real + l) == LagMin(n) + Ceil(l);
    assert FirstCut(n, l).0 == Ceil(l);
    assert SecondCut(n, l).0 == 0;
  }

  /** Rows [lo, hi) of every channel (`iloc` on the rows). */
  function RowSlice(b: Block, lo: nat, hi: nat): (c: Block)
    requires lo <= hi
    ensures c.rows == hi - lo && c.labels == b.labels && |c.cols| == |b.cols|
    ensures forall k :: 0 <= k < |b.cols| ==> c.cols[k] == PySlice(b.cols[k], lo, hi)
  {
    Block(hi - lo, b.labels, seq(|b.cols|, k requires 0 <= k < |b.cols| => PySlice(b.cols[k], lo, hi)))
  }

  /**
   * `align_by_xcorr`.  The common lag of the two STAs comes from the
   * cross-correlation, which is an input here; the STAs must have as many
   * rows (else the row labels do not fit, a ValueError) and some rows (else
   * no maximum exists, a ValueError).  Both are cut by the lag, then to the
   * final duration, and packed again by the keys of the second STA.
   */
  function AlignByXcorr(sta1: Matrix, sta2: Matrix, lag: real, finalduration: real): (r: Result<(Matrix, Matrix)>)
    requires MatrixOk(sta1) && MatrixOk(sta2)
  {
    var u1 := Unpack(sta1);
    var u2 := Unpack(sta2);
    if u1.Err? then Err(u1.error)
    else if u2.Err? then Err(u2.error)
    else if u1.value.0.rows != u2.value.0.rows || u1.value.0.rows == 0 then Err(ValueError)
    else AlignBlocks(u1.value.0, u2.value.0, sta2.keys, lag, finalduration)
  }

  /** The cuts of `align_by_xcorr` on the unpacked STAs, packed by `keys`. */
  function AlignBlocks(df1: Block, df2: Block, keys: seq<string>, lag: real, finalduration: real): Result<(Matrix, Matrix)>
    requires df1.rows == df2.rows
  {
    var w := AlignWindow(df1.rows, lag, finalduration);
    var p1 := Pack(RowSlice(df1, w.0, w.0 + w.2), keys);
    var p2 := Pack(RowSlice(df2, w.1, w.1 + w.2), keys);
    if p1.Err? then Err(p1.error)
    else if p2.Err? then Err(p2.error)
    else Ok((p1.value, p2.value))
  }

  /**
   * The outcome of aligning: an error without blocks or with unequal or no
   * rows; otherwise both results carry the second STA's keys and every block
   * holds the same rows of the window.
   */
  lemma AlignByXcorrOutcome(sta1: Matrix, sta2: Matrix, lag: real, finalduration: real)
    requires MatrixOk(sta1) && MatrixOk(sta2)
    ensures var r := AlignByXcorr(sta1, sta2, lag, finalduration);
      r.Ok? <==> (|sta1.blocks| > 0 && |sta2.blocks| > 0
                  && Unpack(sta1).value.0.rows == Unpack(sta2).value.0.rows > 0)
    ensures var r := AlignByXcorr(sta1, sta2, lag, finalduration);
      r.Ok? ==> var len := AlignWindow(Unpack(sta1).value.0.rows, lag, finalduration).2;
        r.value.0.keys == r.value.1.keys == UniqueKeys(sta2.keys)
        && |r.value.0.blocks| == |r.value.1.blocks| == |r.value.0.keys|
        && (forall q :: 0 <= q < |r.value.0.blocks| ==> r.value.0.blocks[q].rows == len)
        && (forall q :: 0 <= q < |r.value.1.blocks| ==> r.value.1.blocks[q].rows == len)
  {
  }

  /** Every element of a flattened sequence comes from one of its parts. */
  lemma {:induction false} FlattenMember<T>(ss: seq<seq<T>>, x: T)
    requires x in Flatten(ss)
    ensures exists k :: 0 <= k < |ss| && x in ss[k]
  {
    if x !in ss[0] {
      FlattenMember(ss[1..], x);
      var k :| 0 <= k < |ss[1..]| && x in ss[1..][k];
      assert x in ss[k + 1];
    }
  }

  /** Unpacking equally tall blocks gives channels of that height. */
  lemma UnpackedHeights(m: Matrix, w: nat)
    requires MatrixOk(m) && Uniform(m, w)
    ensures Unpack(m).Ok?
    ensures forall c :: c in Unpack(m).value.0.cols ==> |c| == m.blocks[0].rows
  {
    UnpackUniform(m, w);
    forall c | c in Flatten(ColsOf(m.blocks)) ensures |c| == m.blocks[0].rows {
      FlattenMember(ColsOf(m.blocks), c);
      var k :| 0 <= k < |m.blocks| && c in ColsOf(m.blocks)[k];
      assert c in m.blocks[k].cols;
    }
  }

  /** Cutting every channel to its full height changes nothing. */
  lemma RowSliceWhole(b: Block)
    requires forall c :: c in b.cols ==> |c| == b.rows
    ensures RowSlice(b, 0, b.rows) == b
  {
    forall k | 0 <= k < |b.cols| ensures PySlice(b.cols[k], 0, b.rows) == b.cols[k] {
      assert b.cols[k] in b.cols;
    }
  }

  /** No lag and the full duration keep every row. */
  lemma AlignWindowWhole(n: nat)
    ensures AlignWindow(n, 0.0, 1.0) == (0, 0, n)
  {
    assert FinalSamples(n, 1.0) == n;
    CutsEqualLength(n, 0.0);
  }

  /** With no lag and the full duration the cuts keep both unpacked STAs whole. */
  lemma AlignBlocksWhole(df1: Block, df2: Block, keys: seq<string>)
    requires df1.rows == df2.rows && |keys| > 0
    requires forall c :: c in df1.cols ==> |c| == df1.rows
    requires forall c :: c in df2.cols ==> |c| == df2.rows
    ensures AlignBlocks(df1, df2, keys, 0.0, 1.0) == Ok((Pack(df1, keys).value, Pack(df2, keys).value))
  {
    AlignWindowWhole(df1.rows);
    RowSliceWhole(df1);
    RowSliceWhole(df2);
  }

  /** With no lag and the full duration, aligning equally wide STAs with the same keys returns them unchanged. */
  lemma AlignIdentity(sta1: Matrix, sta2: Matrix, w1: nat, w2: nat)
    requires MatrixOk(sta1) && MatrixOk(sta2) && Uniform(sta1, w1) && Uniform(sta2, w2)
    requires sta1.keys == sta2.keys && Distinct(sta1.keys)
    requires sta1.blocks[0].rows == sta2.blocks[0].rows > 0
    ensures AlignByXcorr(sta1, sta2, 0.0, 1.0) == Ok((sta1, sta2))
  {
    UnpackedHeights(sta1, w1);
    UnpackedHeights(sta2, w2);
    UnpackUniform(sta1, w1);
    UnpackUniform(sta2, w2);
    var u1, u2 := Unpack(sta1).value, Unpack(sta2).value;
    assert u1.0.rows == u2.0.rows > 0;
    assert AlignByXcorr(sta1, sta2, 0.0, 1.0) == AlignBlocks(u1.0, u2.0, sta2.keys, 0.0, 1.0);
    AlignBlocksWhole(u1.0, u2.0, sta2.keys);
    PackUnpack(sta1, w1);
    PackUnpack(sta2, w2);
    assert Pack(u1.0, sta2.keys) == Ok(sta1) && Pack(u2.0, sta2.keys) == Ok(sta2);
  }

  // ---------------------------------------------------------------------
  // extract_delsys_muaps

  /** Positions of the names that contain `pat`, in order (`filter(regex=pat)` for a pattern of plain characters). */
  function MatchingColumns(names: seq<string>, pat: string): (ps: seq<nat>)
    ensures forall k :: 0 <= k < |ps| ==> ps[k] < |names|
  {
    if names == [] then []
    else
      MatchingColumns(names[..|names| - 1], pat) + (if Contains(names[|names| - 1], pat) then [|names| - 1] else [])
  }

  /** Exactly the matching names are kept, each once, in order. */
  lemma {:induction false} MatchingColumnsExact(names: seq<string>, pat: string)
    ensures forall i :: 0 <= i < |names| ==> (i in MatchingColumns(names, pat) <==> Contains(names[i], pat))
    ensures StrictlyIncreasing(MatchingColumns(names, pat))
  {
    if names != [] {
      var p := names[..|names| - 1];
      MatchingColumnsExact(p, pat);
      assert forall i :: 0 <= i < |p| ==> p[i] == names[i];
    }
  }

  /** The EXTRAS columns of MU `mu` are those named `MU_<mu>_CH_<channel>`. */
  function DelsysPattern(mu: nat): string
  {
    "MU_" + NatToString(mu) + "_CH_"
  }

  /** The MUAPs of MU `mu`: its EXTRAS columns, relabelled 0.., as the single matrix column "col0". */
  function DelsysMuap(extras: Frame, names: seq<string>, mu: nat): Matrix
    requires |names| == |extras.cols|
  {
    var ps := MatchingColumns(names, DelsysPattern(mu));
    Matrix(["col0"], [Block(extras.rows, Range(|ps|), seq(|ps|, k requires 0 <= k < |ps| => extras.cols[ps[k]]))])
  }

  /**
   * `extract_delsys_muaps`: one MUAP matrix per MU.  `names` are the EXTRAS
   * column labels, which the frame model does not carry.
   */
  method ExtractDelsysMuaps(f: EmgFile, names: seq<string>) returns (muaps: seq<Matrix>)
    requires |names| == |f.extras.cols|
    ensures |muaps| == Max(0, f.numberOfMus)
    ensures forall mu :: 0 <= mu < |muaps| ==> muaps[mu] == DelsysMuap(f.extras, names, mu)
  {
    muaps := [];
    for mu := 0 to Max(0, f.numberOfMus)
      invariant |muaps| == mu
      invariant forall m :: 0 <= m < mu ==> muaps[m] == DelsysMuap(f.extras, names, m)
    {
      var ps := MatchingColumns(names, DelsysPattern(mu));
      var df := seq(|ps|, k requires 0 <= k < |ps| => f.extras.cols[ps[k]]);
      muaps := muaps + [Matrix(["col0"], [Block(f.extras.rows, Range(|df|), df)])];
    }
  }

  /**
   * Each MUAP matrix is well formed, and its channels are exactly the
   * EXTRAS columns whose name contains the MU's pattern, in column order.
   */
  lemma DelsysMuapChannels(extras: Frame, names: seq<string>, mu: nat)
    requires FrameOk(extras) && |names| == |extras.cols|
    ensures MatrixOk(DelsysMuap(extras, names, mu))
    ensures forall i :: 0 <= i < |names| ==>
      (Contains(names[i], DelsysPattern(mu)) <==> i in MatchingColumns(names, DelsysPattern(mu)))
    ensures var b := DelsysMuap(extras, names, mu).blocks[0];
      var ps := MatchingColumns(names, DelsysPattern(mu));
      |b.cols| == |ps| && StrictlyIncreasing(ps) && forall k :: 0 <= k < |ps| ==> b.cols[k] == extras.cols[ps[k]]
  {
    MatchingColumnsExact(names, DelsysPattern(mu));
  }
}
