/**
 * The firing-train tools of the older top-level package (openhdemg/tools.py):
 * the click ordering of `showselect`, `resize_emgfile` working on the caller's
 * own dict, `compute_idr` and `delete_mus` without the single-MU mode.
 */
module OldTools {
  import opened Common
  import opened EmgRecord
  import Tools

  // ---------------------------------------------------------------------
  // showselect

  /**
   * `showselect` after the capture: the first two clicked x-positions,
   * rounded and ordered; fewer than two clicks is an IndexError.
   */
  function ShowSelect(clicks: seq<real>): (r: Result<(int, int)>)
    ensures r.Err? <==> |clicks| < 2
    ensures r.Err? ==> r.error == IndexError
    ensures r.Ok? ==> r.value.0 <= r.value.1
    ensures r.Ok? ==> multiset{r.value.0, r.value.1} == multiset{RoundHalfEven(clicks[0]), RoundHalfEven(clicks[1])}
  {
    if |clicks| < 2 then Err(IndexError)
    else if clicks[0] < clicks[1] then
      Tools.RoundMonotone(clicks[0], clicks[1]);
      Ok((RoundHalfEven(clicks[0]), RoundHalfEven(clicks[1])))
    else
      Tools.RoundMonotone(clicks[1], clicks[0]);
      Ok((RoundHalfEven(clicks[1]), RoundHalfEven(clicks[0])))
  }

  /** With exactly two clicks the older selection is the library's; extra clicks are ignored. */
  lemma ShowSelectAgrees(clicks: seq<real>)
    ensures |clicks| == 2 ==> ShowSelect(clicks) == Tools.SelectedArea(clicks)
    ensures |clicks| > 2 ==> ShowSelect(clicks) == ShowSelect(clicks[..2])
  {
    if |clicks| > 2 {
      assert clicks[..2][0] == clicks[0] && clicks[..2][1] == clicks[1];
    }
  }

  // ---------------------------------------------------------------------
  // resize_emgfile

  /** The caller's `emgfile` dict, which the older `resize_emgfile` changes in place. */
  class EmgDict {
    var file: EmgFile

    constructor (f: EmgFile)
      ensures file == f
    {
      file := f;
    }
  }

  /** The selection: a two-element list, or the first two clicks. */
  function ResizeBounds(area: Option<seq<int>>, clicks: seq<real>): (r: Result<(int, int)>)
    ensures area.Some? && |area.value| == 2 ==> r == Ok((area.value[0], area.value[1]))
    ensures !(area.Some? && |area.value| == 2) ==> r == ShowSelect(clicks)
  {
    if area.Some? && |area.value| == 2 then Ok((area.value[0], area.value[1]))
    else ShowSelect(clicks)
  }

  /** The tables cut positionally to [start, end); EMG_LENGTH read from the IPTS already cut. */
  function ResizedFrames(f: EmgFile, s: int, e: int): (g: EmgFile)
    requires FrameOk(f.rawSignal) && FrameOk(f.refSignal) && FrameOk(f.ipts) && FrameOk(f.binary)
  {
    var ipts := FrameILoc(f.ipts, s, e);
    f.(rawSignal := FrameILoc(f.rawSignal, s, e),
       refSignal := FrameILoc(f.refSignal, s, e),
       ipts := ipts,
       emgLength := ipts.rows,
       binary := FrameILoc(f.binary, s, e))
  }

  /** The pulse masks applied to the first `k` MUs: the pulses with s <= p < e, not rebased. */
  function MaskedPulses(mp: seq<seq<int>>, k: int, s: int, e: int): (r: seq<seq<int>>)
    ensures |r| == |mp|
  {
    seq(|mp|, mu requires 0 <= mu < |mp| => if mu < k then Tools.RebaseWindow(mp[mu], s, e, 0) else mp[mu])
  }

  /**
   * The dict after `resize_emgfile` with bounds (s, e): the loop over
   * NUMBER_OF_MUS masks every MUPULSES entry it reaches, also when it then
   * runs past the end of the list.
   */
  function Resized(f: EmgFile, s: int, e: int): (g: EmgFile)
    requires FrameOk(f.rawSignal) && FrameOk(f.refSignal) && FrameOk(f.ipts) && FrameOk(f.binary)
  {
    ResizedFrames(f, s, e).(mupulses := MaskedPulses(f.mupulses, f.numberOfMus, s, e))
  }

  /**
   * `resize_emgfile`: the returned file is the caller's own dict, which now
   * holds the cut tables and the masked pulses; a NUMBER_OF_MUS beyond the
   * MUPULSES list raises after the dict was changed.
   */
  method ResizeEmgfile(d: EmgDict, area: Option<seq<int>>, clicks: seq<real>) returns (rs: EmgDict, r: Result<(int, int)>)
    requires FrameOk(d.file.rawSignal) && FrameOk(d.file.refSignal) && FrameOk(d.file.ipts) && FrameOk(d.file.binary)
    modifies d
    ensures rs == d
    ensures ResizeBounds(area, clicks).Err? ==> r == Err(IndexError) && d.file == old(d.file)
    ensures ResizeBounds(area, clicks).Ok? ==>
      var (s, e) := ResizeBounds(area, clicks).value;
      d.file == Resized(old(d.file), s, e)
      && (r.Ok? <==> old(d.file).numberOfMus <= |old(d.file).mupulses|)
      && (r.Ok? ==> r.value == (s, e))
      && (r.Err? ==> r.error == IndexError)
  {
    rs := d;
    var b := ResizeBounds(area, clicks);
    if b.Err? {
      return rs, Err(b.error);
    }
    var (s, e) := b.value;
    var f := d.file;
    rs.file := ResizedFrames(d.file, s, e);
    var i := 0;
    while i < f.numberOfMus
      invariant 0 <= i <= Max(f.numberOfMus, 0)
      invariant i <= |f.mupulses|
      invariant rs.file == ResizedFrames(f, s, e).(mupulses := MaskedPulses(f.mupulses, i, s, e))
    {
      if i >= |rs.file.mupulses| {
        assert MaskedPulses(f.mupulses, i, s, e) == MaskedPulses(f.mupulses, f.numberOfMus, s, e);
        return rs, Err(IndexError);
      }
      rs.file := rs.file.(mupulses := rs.file.mupulses[i := Tools.RebaseWindow(f.mupulses[i], s, e, 0)]);
      assert rs.file.mupulses == MaskedPulses(f.mupulses, i + 1, s, e);
      i := i + 1;
    }
    assert MaskedPulses(f.mupulses, i, s, e) == MaskedPulses(f.mupulses, f.numberOfMus, s, e);
    return rs, Ok((s, e));
  }

  /**
   * The masked pulses keep their original values: with bounds inside the
   * recording, every pulse left lies in [s, e), which are the row labels the
   * positional cut keeps, and the count of rows is e - s.
   */
  lemma ResizedPulsesAreLabels(f: EmgFile, s: int, e: int, mu: nat)
    requires FrameOk(f.rawSignal) && FrameOk(f.refSignal) && FrameOk(f.ipts) && FrameOk(f.binary)
    requires 0 <= s <= e <= f.ipts.rows && mu < |f.mupulses| && mu < f.numberOfMus
    ensures Resized(f, s, e).emgLength == e - s
    ensures forall x :: x in Resized(f, s, e).mupulses[mu] <==> x in f.mupulses[mu] && s <= x < e
  {
    Tools.RebaseWindowMembers(f.mupulses[mu], s, e, 0);
  }

  /**
   * Unlike the library version, the older resize does not rebase pulses: a
   * pulse at sample 5 stays 5 after cutting [2, 10), where the library's
   * mask makes it 3.
   */
  lemma ResizeDoesNotRebase()
    ensures Tools.RebaseWindow([1, 5, 12], 2, 10, 0) == [5]
    ensures Tools.RebaseWindow([1, 5, 12], 2, 10, 2) == [3]
  {
    assert [1, 5, 12][..2] == [1, 5];
    assert [1, 5][..1] == [1];
    assert [1][..0] == [];
  }

  // ---------------------------------------------------------------------
  // compute_idr

  /** One MU's table: the pulse column (floats, as a DataFrame column), the time and the rate. */
  datatype IdrTable = IdrTable(mupulses: seq<Float>, timesec: seq<Float>, idr: seq<Float>)

  /** `diff()` of a float column: NaN first, then the differences. */
  function DiffFloats(x: seq<Float>): (d: seq<Float>)
    ensures |d| == |x|
  {
    seq(|x|, k requires 0 <= k < |x| => if k == 0 then NaN else Sub(x[k], x[k - 1]))
  }

  /** The table built from pulse column `x`: time x / FSAMP and rate FSAMP / diff. */
  function IdrTableOf(x: seq<Float>, fsamp: real): (t: IdrTable)
    ensures t.mupulses == x && |t.timesec| == |x| && |t.idr| == |x|
    ensures |x| > 0 ==> t.idr[0] == NaN
    ensures forall k :: 0 <= k < |x| ==> t.timesec[k] == Div(x[k], Num(fsamp))
    ensures forall k :: 0 < k < |x| ==> t.idr[k] == Div(Num(fsamp), Sub(x[k], x[k - 1]))
  {
    var d := DiffFloats(x);
    IdrTable(x, seq(|x|, k requires 0 <= k < |x| => Div(x[k], Num(fsamp))),
                seq(|x|, k requires 0 <= k < |x| => Div(Num(fsamp), d[k])))
  }

  function IntsAsFloats(ps: seq<int>): (x: seq<Float>)
    ensures |x| == |ps| && forall k :: 0 <= k < |ps| ==> x[k] == Num(ps[k] as real)
  {
    seq(|ps|, k requires 0 <= k < |ps| => Num(ps[k] as real))
  }

  /**
   * Column 0 of `pd.DataFrame(MUPULSES)`: each pulse list is a ROW, so the
   * column holds the first pulse of every list (NaN for an empty one); with
   * no pulse at all there is no column 0.
   */
  function FirstColumn(mp: seq<seq<int>>): (r: Option<seq<Float>>)
    ensures r.None? <==> forall i :: 0 <= i < |mp| ==> mp[i] == []
    ensures r.Some? ==> |r.value| == |mp|
    ensures r.Some? ==> forall i :: 0 <= i < |mp| ==> r.value[i] == if mp[i] == [] then NaN else Num(mp[i][0] as real)
  {
    if forall i :: 0 <= i < |mp| ==> mp[i] == [] then None
    else Some(seq(|mp|, i requires 0 <= i < |mp| => if mp[i] == [] then NaN else Num(mp[i][0] as real)))
  }

  /** One MU of `compute_idr`: with several MUs its own list, with one MU the whole MUPULSES frame. */
  function IdrOfMu(mp: seq<seq<int>>, numberOfMus: int, fsamp: real, mu: nat): Result<IdrTable>
  {
    if numberOfMus > 1 then
      if mu < |mp| then Ok(IdrTableOf(IntsAsFloats(mp[mu]), fsamp)) else Err(IndexError)
    else
      var c := FirstColumn(mp);
      if c.None? then Err(KeyError) else Ok(IdrTableOf(c.value, fsamp))
  }

  function IdrResults(mp: seq<seq<int>>, numberOfMus: int, fsamp: real): (rs: seq<Result<IdrTable>>)
    ensures |rs| == Max(numberOfMus, 0)
    ensures forall mu :: 0 <= mu < |rs| ==> rs[mu] == IdrOfMu(mp, numberOfMus, fsamp, mu)
  {
    seq(Max(numberOfMus, 0), mu requires 0 <= mu < Max(numberOfMus, 0) => IdrOfMu(mp, numberOfMus, fsamp, mu))
  }

  /**
   * `compute_idr`: nothing is returned (`None`) when MUPULSES is not a list;
   * otherwise the tables of MUs 0..NUMBER_OF_MUS-1, the first failing MU
   * deciding the error.
   */
  method ComputeIdr(mupulses: Option<seq<seq<int>>>, numberOfMus: int, fsamp: real) returns (r: Option<Result<seq<IdrTable>>>)
    ensures mupulses.None? <==> r.None?
    ensures mupulses.Some? ==> r == Some(Collect(IdrResults(mupulses.value, numberOfMus, fsamp)))
  {
    if mupulses.None? {
      return None;
    }
    var mp := mupulses.value;
    ghost var rs := IdrResults(mp, numberOfMus, fsamp);
    var tables: seq<IdrTable> := [];
    var mu := 0;
    while mu < numberOfMus
      invariant 0 <= mu <= Max(numberOfMus, 0)
      invariant Collect(rs[..mu]) == Ok(tables)
    {
      var t := IdrOfMu(mp, numberOfMus, fsamp, mu);
      CollectStep(rs, mu);
      if t.Err? {
        CollectPrefixErr(rs, mu + 1);
        return Some(Err(t.error));
      }
      tables := tables + [t.value];
      mu := mu + 1;
    }
    assert rs[..mu] == rs;
    return Some(Ok(tables));
  }

  /**
   * With several MUs the older tables agree with the library's: the same
   * pulses (as floats), times and rates.
   */
  lemma IdrAgreesWithLibrary(mp: seq<seq<int>>, numberOfMus: int, fsamp: real, mu: nat)
    requires numberOfMus > 1 && mu < |mp|
    ensures IdrOfMu(mp, numberOfMus, fsamp, mu).Ok?
    ensures var t := IdrOfMu(mp, numberOfMus, fsamp, mu).value;
      var u := Tools.IdrTableOf(mp[mu], fsamp);
      t.mupulses == IntsAsFloats(u.mupulses) && t.timesec == u.timesec && t.idr == u.idr
  {
    var t := IdrOfMu(mp, numberOfMus, fsamp, mu).value;
    var u := Tools.IdrTableOf(mp[mu], fsamp);
    assert Tools.IsIdrTable(u, mp[mu], fsamp);
    forall k | 0 < k < |mp[mu]| ensures t.idr[k] == u.idr[k] {
      assert Sub(Num(mp[mu][k] as real), Num(mp[mu][k - 1] as real)) == Num((mp[mu][k] - mp[mu][k - 1]) as real);
    }
    assert t.idr == u.idr;
  }

  /**
   * With a single MU stored as a one-element list (as the older loader
   * stores it), the table has ONE row, the first pulse, whatever the number
   * of firings: the frame is built with the pulses as a row.
   */
  lemma SingleMuIdrKeepsFirstPulse(ps: seq<int>, fsamp: real)
    requires |ps| > 0
    ensures IdrOfMu([ps], 1, fsamp, 0) == Ok(IdrTableOf([Num(ps[0] as real)], fsamp))
    ensures |IdrOfMu([ps], 1, fsamp, 0).value.mupulses| == 1
  {
    assert [ps][0] == ps && ps != [];
    var c := FirstColumn([ps]);
    assert c.Some?;
    assert c.value[0] == Num(ps[0] as real);
    assert c.value == [Num(ps[0] as real)];
  }

  /** Three firings of a single MU: the older tables have one row, the library's three. */
  lemma SingleMuIdrExample()
    ensures Collect(IdrResults([[10, 20, 30]], 1, 2048.0)).Ok?
    ensures |Collect(IdrResults([[10, 20, 30]], 1, 2048.0)).value[0].mupulses| == 1
    ensures |Tools.IdrTableOf([10, 20, 30], 2048.0).mupulses| == 3
  {
    var rs := IdrResults([[10, 20, 30]], 1, 2048.0);
    SingleMuIdrKeepsFirstPulse([10, 20, 30], 2048.0);
    assert rs == [IdrOfMu([[10, 20, 30]], 1, 2048.0, 0)];
    assert rs[..0] == [];
  }

  // ---------------------------------------------------------------------
  // delete_mus

  /** PNR, IPTS and BINARY_MUS_FIRING with the labels dropped and renumbered. */
  function DropColumns(f: EmgFile, ks: seq<int>): EmgFile
    requires f.pnr.Some?
  {
    f.(pnr := Some(Tools.DropPositions(f.pnr.value, ks)),
       ipts := Frame(f.ipts.rows, Tools.DropPositions(f.ipts.cols, ks)),
       binary := Frame(f.binary.rows, Tools.DropPositions(f.binary.cols, ks)))
  }

  /** `drop` raises KeyError without a PNR key or for a label missing from a table. */
  predicate DropFails(f: EmgFile, ks: seq<int>)
  {
    f.pnr.None? || !Tools.LabelsPresent(ks, |f.pnr.value|)
    || !Tools.LabelsPresent(ks, |f.ipts.cols|) || !Tools.LabelsPresent(ks, |f.binary.cols|)
  }

  /** MUPULSES of the MUs below n that are not listed, in order. */
  function KeptPulses(mp: seq<seq<int>>, n: int, ks: seq<int>): (r: seq<seq<int>>)
    requires !Tools.KeptBeyond(n, ks, |mp|)
    ensures |r| == |Tools.Kept(n, ks)|
    ensures forall j :: 0 <= j < |r| ==> Tools.Kept(n, ks)[j] < |mp| && r[j] == mp[Tools.Kept(n, ks)[j]]
  {
    var kept := Tools.Kept(n, ks);
    assert forall j :: 0 <= j < |kept| ==> kept[j] < |mp| by {
      forall j | 0 <= j < |kept| ensures kept[j] < |mp| {
        assert kept[j] in kept;
      }
    }
    seq(|kept|, j requires 0 <= j < |kept| => mp[kept[j]])
  }

  /**
   * The older `delete_mus`: the labels are dropped from PNR, IPTS and
   * BINARY_MUS_FIRING first; an int then deletes that MUPULSES entry and
   * decrements the count, a list keeps the other MUs below NUMBER_OF_MUS and
   * subtracts its length, and any other selector only prints, leaving
   * MUPULSES and NUMBER_OF_MUS as they were.
   */
  function DeleteMusOf(f: EmgFile, munumber: Tools.MuSelector): Result<EmgFile>
  {
    var ks := Tools.SelectorLabels(munumber);
    if DropFails(f, ks) then Err(KeyError)
    else
      var g := DropColumns(f, ks);
      match munumber
      case SingleMu(k) =>
        if k >= |f.mupulses| then Err(IndexError)
        else
          assert k in ks;
          Ok(g.(mupulses := f.mupulses[..k] + f.mupulses[k + 1..], numberOfMus := f.numberOfMus - 1))
      case MuList(_) =>
        if Tools.KeptBeyond(f.numberOfMus, ks, |f.mupulses|) then Err(IndexError)
        else Ok(g.(mupulses := KeptPulses(f.mupulses, f.numberOfMus, ks), numberOfMus := f.numberOfMus - |ks|))
      case OtherSelector(_) => Ok(g)
  }

  /** `delete_mus` on a deep copy, with the MUPULSES list rebuilt by the loop. */
  method DeleteMus(f: EmgFile, munumber: Tools.MuSelector) returns (r: Result<EmgFile>)
    ensures r == DeleteMusOf(f, munumber)
  {
    var ks := Tools.SelectorLabels(munumber);
    if DropFails(f, ks) {
      return Err(KeyError);
    }
    var g := DropColumns(f, ks);
    match munumber {
      case SingleMu(k) =>
        assert k in ks;
        if k >= |f.mupulses| {
          return Err(IndexError);
        }
        return Ok(g.(mupulses := f.mupulses[..k] + f.mupulses[k + 1..], numberOfMus := f.numberOfMus - 1));
      case MuList(_) =>
        var kept := Tools.KeepListedPulses(f.mupulses, f.numberOfMus, ks);
        if kept.Err? {
          return Err(kept.error);
        }
        assert kept.value == KeptPulses(f.mupulses, f.numberOfMus, ks);
        return Ok(g.(mupulses := kept.value, numberOfMus := f.numberOfMus - |ks|));
      case OtherSelector(_) =>
        return Ok(g);
    }
  }

  /** One entry per MU in every per-MU table of an older file. */
  predicate Consistent(f: EmgFile)
  {
    f.pnr.Some? && |f.pnr.value| == f.numberOfMus && |f.ipts.cols| == f.numberOfMus
    && |f.binary.cols| == f.numberOfMus && |f.mupulses| == f.numberOfMus
  }

  /**
   * Deleting a list of distinct existing MUs keeps the file consistent: one
   * entry per remaining MU everywhere, the remaining MUs in order.
   */
  lemma DeleteListKeepsConsistent(f: EmgFile, ks: seq<int>)
    requires Consistent(f)
    requires forall i, j :: 0 <= i < j < |ks| ==> ks[i] != ks[j]
    requires Tools.LabelsPresent(ks, f.numberOfMus)
    ensures DeleteMusOf(f, Tools.MuList(ks)).Ok?
    ensures Consistent(DeleteMusOf(f, Tools.MuList(ks)).value)
    ensures var g := DeleteMusOf(f, Tools.MuList(ks)).value;
      g.numberOfMus == f.numberOfMus - |ks|
      && forall j :: 0 <= j < |g.mupulses| ==> g.mupulses[j] == f.mupulses[Tools.Kept(f.numberOfMus, ks)[j]]
  {
    var n := f.numberOfMus;
    Tools.KeptMembers(n, ks);
    assert !Tools.KeptBeyond(n, ks, |f.mupulses|);
    Tools.KeptCountDistinct(n, ks);
  }

  /** Deleting one existing MU keeps the file consistent and removes exactly that entry. */
  lemma DeleteOneKeepsConsistent(f: EmgFile, k: int)
    requires Consistent(f) && 0 <= k < f.numberOfMus
    ensures DeleteMusOf(f, Tools.SingleMu(k)).Ok?
    ensures Consistent(DeleteMusOf(f, Tools.SingleMu(k)).value)
    ensures DeleteMusOf(f, Tools.SingleMu(k)).value.mupulses == f.mupulses[..k] + f.mupulses[k + 1..]
  {
    Tools.KeptCountDistinct(f.numberOfMus, [k]);
  }

  /**
   * Any other selector still drops the per-MU columns but leaves MUPULSES
   * and NUMBER_OF_MUS: a consistent file loses its consistency as soon as
   * a label is dropped.
   */
  lemma OtherSelectorBreaksConsistency(f: EmgFile, ls: seq<int>)
    requires Consistent(f) && |ls| > 0 && Tools.LabelsPresent(ls, f.numberOfMus)
    ensures DeleteMusOf(f, Tools.OtherSelector(ls)).Ok?
    ensures var g := DeleteMusOf(f, Tools.OtherSelector(ls)).value;
      g.mupulses == f.mupulses && g.numberOfMus == f.numberOfMus && |g.ipts.cols| < g.numberOfMus
  {
    var n := f.numberOfMus;
    Tools.KeptMembers(n, ls);
    assert ls[0] in ls && ls[0] !in Tools.Kept(n, ls);
    KeptBelow(n, ls, ls[0]);
  }

  /** A dropped label x among 0..n-1 leaves fewer than n positions kept. */
  lemma {:induction false} KeptBelow(n: int, ls: seq<int>, x: int)
    requires x in ls && 0 <= x < n
    ensures |Tools.Kept(n, ls)| < n
    decreases n
  {
    if x < n - 1 {
      KeptBelow(n - 1, ls, x);
    } else {
      KeptAtMost(n - 1, ls);
    }
  }

  lemma {:induction false} KeptAtMost(n: int, ls: seq<int>)
    ensures |Tools.Kept(n, ls)| <= Max(n, 0)
    decreases n
  {
    if n > 0 {
      KeptAtMost(n - 1, ls);
    }
  }
}
