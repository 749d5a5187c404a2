/**
 * MU properties in the older top-level package (openhdemg/analysis.py):
 * thresholds checked by assertions and scaled by g = 9.81, discharge rates
 * whose steady-state indices are searched with `>=` only and survive from
 * one MU to the next, and `basic_mus_properties` numbering MUs from 1.
 */
module OldAnalysis {
  import opened Common
  import opened EmgRecord
  import Tools
  import OldTools
  import Analysis

  // ---------------------------------------------------------------------
  // compute_thresholds

  /**
   * `float(REF_SIGNAL.loc[p])`: row `p` must be a label of the RangeIndex
   * (KeyError) and must hold exactly one value (TypeError).
   */
  function RefRow(ref: Frame, p: int): (r: Result<Float>)
    ensures r.Ok? <==> 0 <= p < ref.rows && |ref.cols| == 1 && p < |ref.cols[0]|
    ensures r.Ok? ==> r.value == ref.cols[0][p]
    ensures 0 <= p < ref.rows && |ref.cols| != 1 ==> r == Err(TypeError)
  {
    if p < 0 || p >= ref.rows then Err(KeyError)
    else if |ref.cols| != 1 then Err(TypeError)
    else if p >= |ref.cols[0]| then Err(KeyError)
    else Ok(ref.cols[0][p])
  }

  /** The absolute threshold in newton: relative value times MViF / 100, times 9.81. */
  function AbsNewton(rel: Float, mvif: real): Float
  {
    if rel.Num? then Num(rel.r * mvif / 100.0 * 9.81) else NaN
  }

  /** The MViF used: the integer typed at the prompt when it is 0 and absolute values are asked for. */
  function MvifUsed(type_: string, mvif: real, enteredMvif: int): real
  {
    if type_ != "rel" && mvif == 0.0 then enteredMvif as real else mvif
  }

  /** The row of MU `mu`: its first and last pulse must exist (no guard for an empty MU). */
  function ThresholdRowOf(f: EmgFile, names: seq<string>, mvif: real, mu: nat): (r: Result<seq<Float>>)
    ensures r.Ok? <==> mu < |f.mupulses| && f.mupulses[mu] != []
                       && RefRow(f.refSignal, f.mupulses[mu][0]).Ok?
                       && RefRow(f.refSignal, f.mupulses[mu][|f.mupulses[mu]| - 1]).Ok?
  {
    if mu >= |f.mupulses| || f.mupulses[mu] == [] then Err(IndexError)
    else
      var ps := f.mupulses[mu];
      var rt := RefRow(f.refSignal, ps[0]);
      var dert := RefRow(f.refSignal, ps[|ps| - 1]);
      if rt.Err? then Err(rt.error)
      else if dert.Err? then Err(dert.error)
      else Ok(Analysis.ThresholdRow(names, Analysis.MuThresholds(AbsNewton(rt.value, mvif), AbsNewton(dert.value, mvif),
                                                                 rt.value, dert.value)))
  }

  function ThresholdRows(f: EmgFile, names: seq<string>, mvif: real): (rs: seq<Result<seq<Float>>>)
    ensures |rs| == Max(0, f.numberOfMus)
    ensures forall mu :: 0 <= mu < |rs| ==> rs[mu] == ThresholdRowOf(f, names, mvif, mu)
  {
    seq(Max(0, f.numberOfMus), mu requires 0 <= mu < Max(0, f.numberOfMus) => ThresholdRowOf(f, names, mvif, mu))
  }

  /**
   * The older `compute_thresholds`: assertions on `event_` and `type_`, an
   * exception for an MViF that is not a number (`None`), then one row per MU.
   */
  function ThresholdsOf(f: EmgFile, event: string, type_: string, mvif: Option<real>, enteredMvif: int)
    : (r: Result<Analysis.Table>)
    ensures !Analysis.ThresholdEvent(event) ==> r == Err(AssertionError)
    ensures Analysis.ThresholdEvent(event) && !Analysis.ThresholdType(type_) ==> r == Err(AssertionError)
    ensures Analysis.ThresholdEvent(event) && Analysis.ThresholdType(type_) && mvif.None? ==> r == Err(GenericException)
    ensures r.Ok? ==> (|r.value.rows| == Max(0, f.numberOfMus)
                       && r.value.columns == (if f.numberOfMus > 0 then Analysis.ThresholdColumns(event, type_) else []))
  {
    if !Analysis.ThresholdEvent(event) || !Analysis.ThresholdType(type_) then Err(AssertionError)
    else if mvif.None? then Err(GenericException)
    else
      var names := Analysis.ThresholdColumns(event, type_);
      var rows := Collect(ThresholdRows(f, names, MvifUsed(type_, mvif.value, enteredMvif)));
      if rows.Err? then Err(rows.error) else Ok(Analysis.TableOf(names, rows.value))
  }

  method ComputeThresholds(f: EmgFile, event: string, type_: string, mvif: Option<real>, enteredMvif: int)
    returns (r: Result<Analysis.Table>)
    ensures r == ThresholdsOf(f, event, type_, mvif, enteredMvif)
  {
    if !Analysis.ThresholdEvent(event) || !Analysis.ThresholdType(type_) {
      return Err(AssertionError);
    }
    if mvif.None? {
      return Err(GenericException);
    }
    var m := MvifUsed(type_, mvif.value, enteredMvif);
    var names := Analysis.ThresholdColumns(event, type_);
    ghost var rs := ThresholdRows(f, names, m);
    var rows: seq<seq<Float>> := [];
    var mu := 0;
    while mu < f.numberOfMus
      invariant 0 <= mu <= Max(0, f.numberOfMus)
      invariant Collect(rs[..mu]) == Ok(rows)
    {
      CollectStep(rs, mu);
      var row := ThresholdRowOf(f, names, m, mu);
      if row.Err? {
        CollectPrefixErr(rs, mu + 1);
        return Err(row.error);
      }
      rows := rows + [row.value];
      mu := mu + 1;
    }
    assert rs[..mu] == rs;
    return Ok(Analysis.TableOf(names, rows));
  }

  /** An MU without firings makes the older thresholds fail, where the library gives NaN. */
  lemma EmptyMuFails(f: EmgFile, event: string, type_: string, mvif: real, enteredMvif: int, mu: nat)
    requires Analysis.ThresholdEvent(event) && Analysis.ThresholdType(type_)
    requires mu < f.numberOfMus && mu < |f.mupulses| && f.mupulses[mu] == []
    ensures ThresholdsOf(f, event, type_, Some(mvif), enteredMvif).Err?
    ensures Analysis.MuThresholdsOf(f.mupulses[mu], f.refSignal, mvif) == Ok(Analysis.MuThresholds(NaN, NaN, NaN, NaN))
  {
    var rs := ThresholdRows(f, Analysis.ThresholdColumns(event, type_), MvifUsed(type_, mvif, enteredMvif));
    CollectEach(rs);
    assert rs[mu].Err?;
  }

  /** The absolute kinds of threshold. */
  predicate IsAbsolute(name: string)
  {
    name == "abs_RT" || name == "abs_DERT"
  }

  function Times981(x: Float): Float
  {
    if x.Num? then Num(x.r * 9.81) else NaN
  }

  /**
   * On a one-column reference signal, where the older thresholds succeed the
   * library's do too, with the same layout: relative values agree and the
   * older absolute values are the library's times 9.81.
   */
  lemma AgreesWithLibrary(f: EmgFile, event: string, type_: string, mvif: real, enteredMvif: int, mu: nat, c: nat)
    requires ThresholdsOf(f, event, type_, Some(mvif), enteredMvif).Ok?
    requires mu < Max(0, f.numberOfMus)
    ensures Analysis.ThresholdsOf(f, event, type_, Some(mvif), enteredMvif as real).Ok?
    ensures var old_ := ThresholdsOf(f, event, type_, Some(mvif), enteredMvif).value;
      var lib := Analysis.ThresholdsOf(f, event, type_, Some(mvif), enteredMvif as real).value;
      old_.columns == lib.columns && |old_.rows| == |lib.rows| && |old_.rows[mu]| == |old_.columns| == |lib.rows[mu]|
    ensures var old_ := ThresholdsOf(f, event, type_, Some(mvif), enteredMvif).value;
      var lib := Analysis.ThresholdsOf(f, event, type_, Some(mvif), enteredMvif as real).value;
      c < |old_.columns| ==>
        old_.rows[mu][c] == if IsAbsolute(old_.columns[c]) then Times981(lib.rows[mu][c]) else lib.rows[mu][c]
  {
    var names := Analysis.ThresholdColumns(event, type_);
    var m := MvifUsed(type_, mvif, enteredMvif);
    assert m == Analysis.MvcUsed(type_, mvif, enteredMvif as real);
    OlderThresholdsRows(f, event, type_, mvif, enteredMvif, mu, c);
    Analysis.ThresholdsSucceed(f, event, type_, Some(mvif), enteredMvif as real);
    Analysis.ThresholdsRows(f, event, type_, Some(mvif), enteredMvif as real, mu, c);
    if c < |names| {
      var ps := f.mupulses[mu];
      PickNewton(names[c], f.refSignal.cols[0][ps[0]], f.refSignal.cols[0][ps[|ps| - 1]], m);
    }
  }

  /** Where the older thresholds succeed, MU `mu` has pulses and its row holds the thresholds in newtons. */
  lemma OlderThresholdsRows(f: EmgFile, event: string, type_: string, mvif: real, enteredMvif: int, mu: nat, c: nat)
    requires ThresholdsOf(f, event, type_, Some(mvif), enteredMvif).Ok?
    requires mu < Max(0, f.numberOfMus)
    ensures mu < |f.mupulses| && f.mupulses[mu] != [] && Analysis.PulsesOnReference(f, mu)
    ensures forall k :: 0 <= k < Max(0, f.numberOfMus) ==> k < |f.mupulses| && Analysis.PulsesOnReference(f, k)
    ensures var t := ThresholdsOf(f, event, type_, Some(mvif), enteredMvif).value;
      |t.rows| == Max(0, f.numberOfMus) && t.columns == Analysis.ThresholdColumns(event, type_)
      && |t.rows[mu]| == |t.columns|
    ensures var t := ThresholdsOf(f, event, type_, Some(mvif), enteredMvif).value;
      c < |t.columns| ==>
        var ps := f.mupulses[mu];
        var m := MvifUsed(type_, mvif, enteredMvif);
        var rt, dert := f.refSignal.cols[0][ps[0]], f.refSignal.cols[0][ps[|ps| - 1]];
        t.rows[mu][c] == Analysis.Pick(t.columns[c], Analysis.MuThresholds(AbsNewton(rt, m), AbsNewton(dert, m), rt, dert))
  {
    var names := Analysis.ThresholdColumns(event, type_);
    var m := MvifUsed(type_, mvif, enteredMvif);
    var rs := ThresholdRows(f, names, m);
    OlderRowsOnReference(f, event, type_, mvif, enteredMvif);
    CollectEach(rs);
    assert rs[mu].Ok?;
  }

  /** Where the older thresholds succeed, every MU's row succeeds and its pulses lie on the reference signal. */
  lemma OlderRowsOnReference(f: EmgFile, event: string, type_: string, mvif: real, enteredMvif: int)
    requires ThresholdsOf(f, event, type_, Some(mvif), enteredMvif).Ok?
    ensures var rs := ThresholdRows(f, Analysis.ThresholdColumns(event, type_), MvifUsed(type_, mvif, enteredMvif));
      |rs| == Max(0, f.numberOfMus) && forall k :: 0 <= k < |rs| ==> rs[k].Ok?
    ensures forall k :: 0 <= k < Max(0, f.numberOfMus) ==> k < |f.mupulses| && Analysis.PulsesOnReference(f, k)
  {
    var rs := ThresholdRows(f, Analysis.ThresholdColumns(event, type_), MvifUsed(type_, mvif, enteredMvif));
    CollectEach(rs);
    forall k | 0 <= k < Max(0, f.numberOfMus) ensures k < |f.mupulses| && Analysis.PulsesOnReference(f, k) {
      assert rs[k].Ok?;
    }
  }

  /** An absolute threshold in newtons is the library's value times 9.81; relative ones are the same. */
  lemma PickNewton(name: string, rt: Float, dert: Float, m: real)
    ensures Analysis.Pick(name, Analysis.MuThresholds(AbsNewton(rt, m), AbsNewton(dert, m), rt, dert))
      == if IsAbsolute(name) then Times981(Analysis.Pick(name, Analysis.MuThresholds(Analysis.AbsOf(rt, m), Analysis.AbsOf(dert, m), rt, dert)))
         else Analysis.Pick(name, Analysis.MuThresholds(Analysis.AbsOf(rt, m), Analysis.AbsOf(dert, m), rt, dert))
  {
    assert AbsNewton(rt, m) == Times981(Analysis.AbsOf(rt, m));
    assert AbsNewton(dert, m) == Times981(Analysis.AbsOf(dert, m));
  }

  // ---------------------------------------------------------------------
  // compute_dr

  /** The older IDR tables, one per MU (MUPULSES is always a list in the record). */
  function IdrOf(f: EmgFile): (r: Result<seq<OldTools.IdrTable>>)
    ensures r.Ok? ==> |r.value| == Max(0, f.numberOfMus)
  {
    Collect(OldTools.IdrResults(f.mupulses, f.numberOfMus, f.fsamp))
  }

  /** `pulse >= x` on a float column: false for NaN. */
  predicate AtLeast(p: Float, x: int)
  {
    p.Num? && p.r >= x as real
  }

  /** The position of the first pulse `>= x`, if any. */
  function FirstAtLeast(ps: seq<Float>, x: int): (r: Option<nat>)
    ensures r.Some? ==> r.value < |ps| && AtLeast(ps[r.value], x)
    ensures r.Some? ==> forall k :: 0 <= k < r.value ==> !AtLeast(ps[k], x)
    ensures r.None? ==> forall k :: 0 <= k < |ps| ==> !AtLeast(ps[k], x)
  {
    if ps == [] then None
    else if AtLeast(ps[0], x) then Some(0)
    else
      var rest := FirstAtLeast(ps[1..], x);
      if rest.None? then None else Some(rest.value + 1)
  }

  lemma FirstAtLeastUnique(ps: seq<Float>, x: int, r: Option<nat>)
    requires r.Some? ==> r.value < |ps| && AtLeast(ps[r.value], x)
    requires r.Some? ==> forall k :: 0 <= k < r.value ==> !AtLeast(ps[k], x)
    requires r.None? ==> forall k :: 0 <= k < |ps| ==> !AtLeast(ps[k], x)
    ensures r == FirstAtLeast(ps, x)
  {
  }

  method FindAtLeast(ps: seq<Float>, x: int) returns (r: Option<nat>)
    ensures r == FirstAtLeast(ps, x)
  {
    r := None;
    for pos := 0 to |ps|
      invariant forall k :: 0 <= k < pos ==> !AtLeast(ps[k], x)
    {
      if AtLeast(ps[pos], x) {
        r := Some(pos);
        break;
      }
    }
    FirstAtLeastUnique(ps, x, r);
  }

  /**
   * The steady-state indices after one MU: a variable the search does not
   * assign keeps its value from the previous MU (`None` while unbound).
   */
  datatype SteadyIndices = SteadyIndices(start: Option<int>, end: Option<int>)

  function NextIndices(ps: seq<Float>, start: int, end: int, st: SteadyIndices): (r: SteadyIndices)
    ensures FirstAtLeast(ps, start).Some? ==> r.start == Some(FirstAtLeast(ps, start).value as int)
    ensures FirstAtLeast(ps, start).None? ==> r.start == st.start
    ensures FirstAtLeast(ps, end).Some? ==> r.end == Some(FirstAtLeast(ps, end).value as int)
    ensures FirstAtLeast(ps, end).None? ==> r.end == st.end
  {
    var s := FirstAtLeast(ps, start);
    var e := FirstAtLeast(ps, end);
    SteadyIndices(if s.Some? then Some(s.value as int) else st.start, if e.Some? then Some(e.value as int) else st.end)
  }

  /** The rates of one MU from its table and the current indices (no firing-count guard). */
  function MuDrOf(t: OldTools.IdrTable, nRecDerec: int, nSteady: int, si: int, ei: int): Analysis.MuDr
  {
    var (rec, derec) := OlderRecDerec(t.idr, nRecDerec);
    var steady := Analysis.SteadyRates(t.idr, si, ei, nSteady);
    Analysis.MuDr(rec, derec, steady.0, steady.1, steady.2, NanMean(t.idr))
  }

  /** DR at recruitment and derecruitment: the first `n` IDR values and the last `n` - 1, whatever their number. */
  function OlderRecDerec(idr: seq<Float>, n: int): (Float, Float)
  {
    var len := |idr|;
    (NanMean(PySlice(idr, 0, n)), NanMean(PySlice(idr, len - n + 1, len)))
  }

  /** With at least `n` IDR values the older rates are the library's. */
  lemma OlderRecDerecAgrees(idr: seq<Float>, n: int)
    requires |idr| >= n
    ensures OlderRecDerec(idr, n) == Analysis.RecDerec(idr, n)
  {
  }

  /** What one MU's row is made of: its table and the two steady-state indices. */
  type RowFn = (OldTools.IdrTable, int, int) -> seq<Float>

  /** The DR row of an MU at the given indices. */
  function MuRow(names: seq<string>, nRecDerec: int, nSteady: int): RowFn
  {
    (t, si, ei) => Analysis.DrRow(names, MuDrOf(t, nRecDerec, nSteady, si, ei))
  }

  /**
   * The rows of MUs `mu`.. given the indices left by the MUs before; an
   * index still unbound when it is used is a NameError.
   */
  function DrFrom(ts: seq<OldTools.IdrTable>, mu: nat, row: RowFn, start: int, end: int, st: SteadyIndices)
    : (r: Result<seq<seq<Float>>>)
    requires mu <= |ts|
    ensures r.Ok? ==> |r.value| == |ts| - mu
    ensures r.Err? ==> r.error == NameError
    decreases |ts| - mu
  {
    if mu == |ts| then Ok([])
    else
      var st' := NextIndices(ts[mu].mupulses, start, end, st);
      if st'.start.None? || st'.end.None? then Err(NameError)
      else
        var rest := DrFrom(ts, mu + 1, row, start, end, st');
        if rest.Err? then rest else Ok([row(ts[mu], st'.start.value, st'.end.value)] + rest.value)
  }

  /** `rows` in front of a result. */
  function Prepend(rows: seq<seq<Float>>, r: Result<seq<seq<Float>>>): Result<seq<seq<Float>>>
  {
    if r.Err? then r else Ok(rows + r.value)
  }

  /**
   * The older `compute_dr`: an assertion on `event_`, exceptions for firing
   * counts that are not integers, the older IDR, the steady state selected
   * only when both bounds are negative, then the rows MU by MU.
   */
  function DrOf(f: EmgFile, nRecDerec: Option<int>, nSteady: Option<int>, start: int, end: int, event: string,
                clicks: seq<real>): (r: Result<Analysis.Table>)
    ensures !Analysis.DrEvent(event) ==> r == Err(AssertionError)
    ensures Analysis.DrEvent(event) && (nRecDerec.None? || nSteady.None?) ==> r == Err(GenericException)
    ensures r.Ok? ==> (|r.value.rows| == Max(0, f.numberOfMus)
                       && r.value.columns == (if f.numberOfMus > 0 then Analysis.DrColumns(event) else []))
  {
    if !Analysis.DrEvent(event) then Err(AssertionError)
    else if nRecDerec.None? || nSteady.None? then Err(GenericException)
    else
      var idr := IdrOf(f);
      if idr.Err? then Err(idr.error)
      else
        var b := if Analysis.SteadyEvent(event) && start < 0 && end < 0 then OldTools.ShowSelect(clicks) else Ok((start, end));
        if b.Err? then Err(b.error)
        else
          var names := Analysis.DrColumns(event);
          var rows := DrFrom(idr.value, 0, MuRow(names, nRecDerec.value, nSteady.value), b.value.0, b.value.1,
                             SteadyIndices(None, None));
          if rows.Err? then Err(rows.error) else Ok(Analysis.TableOf(names, rows.value))
  }

  method ComputeDr(f: EmgFile, nRecDerec: Option<int>, nSteady: Option<int>, start: int, end: int, event: string,
                   clicks: seq<real>) returns (r: Result<Analysis.Table>)
    ensures r == DrOf(f, nRecDerec, nSteady, start, end, event, clicks)
  {
    if !Analysis.DrEvent(event) {
      return Err(AssertionError);
    }
    if nRecDerec.None? || nSteady.None? {
      return Err(GenericException);
    }
    var idr := OldTools.ComputeIdr(Some(f.mupulses), f.numberOfMus, f.fsamp);
    if idr.value.Err? {
      return Err(idr.value.error);
    }
    var s, e := start, end;
    if Analysis.SteadyEvent(event) && start < 0 && end < 0 {
      var b := OldTools.ShowSelect(clicks);
      if b.Err? {
        return Err(b.error);
      }
      s, e := b.value.0, b.value.1;
    }
    var ts := idr.value.value;
    var names := Analysis.DrColumns(event);
    ghost var rowOf := MuRow(names, nRecDerec.value, nSteady.value);
    ghost var whole := DrFrom(ts, 0, rowOf, s, e, SteadyIndices(None, None));
    if whole.Ok? {
      assert [] + whole.value == whole.value;
    }
    var indexStart: Option<int> := None;
    var indexEnd: Option<int> := None;
    var rows: seq<seq<Float>> := [];
    for mu := 0 to |ts|
      invariant whole == Prepend(rows, DrFrom(ts, mu, rowOf, s, e, SteadyIndices(indexStart, indexEnd)))
    {
      ghost var before := SteadyIndices(indexStart, indexEnd);
      indexStart, indexEnd := SearchIndices(ts[mu].mupulses, s, e, indexStart, indexEnd);
      DrFromStep(ts, mu, rowOf, s, e, before);
      if indexStart.None? || indexEnd.None? {
        return Err(NameError);
      }
      var row := Analysis.DrRow(names, MuDrOf(ts[mu], nRecDerec.value, nSteady.value, indexStart.value, indexEnd.value));
      assert row == rowOf(ts[mu], indexStart.value, indexEnd.value);
      PrependStep(rows, row, DrFrom(ts, mu + 1, rowOf, s, e, SteadyIndices(indexStart, indexEnd)));
      rows := rows + [row];
    }
    assert whole == Prepend(rows, Ok([]));
    assert rows + [] == rows;
    return Ok(Analysis.TableOf(names, rows));
  }

  /** The two searches of one MU, each leaving its index alone when nothing is found. */
  method SearchIndices(ps: seq<Float>, start: int, end: int, indexStart: Option<int>, indexEnd: Option<int>)
    returns (newStart: Option<int>, newEnd: Option<int>)
    ensures SteadyIndices(newStart, newEnd) == NextIndices(ps, start, end, SteadyIndices(indexStart, indexEnd))
  {
    newStart, newEnd := indexStart, indexEnd;
    var found := FindAtLeast(ps, start);
    if found.Some? {
      newStart := Some(found.value);
    }
    found := FindAtLeast(ps, end);
    if found.Some? {
      newEnd := Some(found.value);
    }
  }

  /** One step of `DrFrom`. */
  lemma DrFromStep(ts: seq<OldTools.IdrTable>, mu: nat, row: RowFn, start: int, end: int, st: SteadyIndices)
    requires mu < |ts|
    ensures var st' := NextIndices(ts[mu].mupulses, start, end, st);
      DrFrom(ts, mu, row, start, end, st)
      == if st'.start.None? || st'.end.None? then Err(NameError)
         else
           var rest := DrFrom(ts, mu + 1, row, start, end, st');
           if rest.Err? then rest else Ok([row(ts[mu], st'.start.value, st'.end.value)] + rest.value)
  {
  }

  lemma PrependStep(rows: seq<seq<Float>>, row: seq<Float>, rest: Result<seq<seq<Float>>>)
    ensures Prepend(rows, if rest.Err? then rest else Ok([row] + rest.value)) == Prepend(rows + [row], rest)
  {
    if rest.Ok? {
      assert rows + ([row] + rest.value) == rows + [row] + rest.value;
    }
  }

  /**
   * The first MU fixes whether the indices are ever bound: without a pulse
   * at or after `start` (or `end`) in it, the call fails.
   */
  lemma FirstMuUnbound(ts: seq<OldTools.IdrTable>, row: RowFn, start: int, end: int)
    requires ts != []
    requires FirstAtLeast(ts[0].mupulses, start).None? || FirstAtLeast(ts[0].mupulses, end).None?
    ensures DrFrom(ts, 0, row, start, end, SteadyIndices(None, None)) == Err(NameError)
  {
  }

  /**
   * Once the first MU binds both indices, no later MU can fail: every MU
   * gets a row.
   */
  lemma {:induction false} BoundIndicesNeverFail(ts: seq<OldTools.IdrTable>, mu: nat, row: RowFn, start: int, end: int,
                                                 st: SteadyIndices)
    requires mu <= |ts| && st.start.Some? && st.end.Some?
    ensures DrFrom(ts, mu, row, start, end, st).Ok?
    decreases |ts| - mu
  {
    if mu < |ts| {
      var st' := NextIndices(ts[mu].mupulses, start, end, st);
      BoundIndicesNeverFail(ts, mu + 1, row, start, end, st');
    }
  }

  /**
   * With several MUs and at least `n` firings, the older DR at recruitment
   * and derecruitment is the library's.
   */
  lemma RecDerecAgrees(mp: seq<seq<int>>, numberOfMus: int, fsamp: real, mu: nat, n: int, si: int, ei: int, nSteady: int)
    requires numberOfMus > 1 && mu < |mp| && |mp[mu]| >= n
    ensures OldTools.IdrOfMu(mp, numberOfMus, fsamp, mu).Ok?
    ensures var d := MuDrOf(OldTools.IdrOfMu(mp, numberOfMus, fsamp, mu).value, n, nSteady, si, ei);
      var lib := Analysis.RecDerec(Tools.IdrTableOf(mp[mu], fsamp).idr, n);
      d.rec == lib.0 && d.derec == lib.1
  {
    OldTools.IdrAgreesWithLibrary(mp, numberOfMus, fsamp, mu);
    var t := OldTools.IdrOfMu(mp, numberOfMus, fsamp, mu).value;
    var idr := Tools.IdrTableOf(mp[mu], fsamp).idr;
    assert |idr| >= n;
    MuDrOfRecDerec(t, n, nSteady, si, ei);
    OlderRecDerecAgrees(idr, n);
  }

  /** The older DR at recruitment and derecruitment of an MU. */
  lemma MuDrOfRecDerec(t: OldTools.IdrTable, n: int, nSteady: int, si: int, ei: int)
    ensures MuDrOf(t, n, nSteady, si, ei).rec == OlderRecDerec(t.idr, n).0
    ensures MuDrOf(t, n, nSteady, si, ei).derec == OlderRecDerec(t.idr, n).1
  {
  }

  /**
   * An MU in which neither search finds a pulse is averaged over the
   * indices of the MU before it.
   */
  lemma CarriedIndices(t0: OldTools.IdrTable, t1: OldTools.IdrTable, names: seq<string>, nRecDerec: int, nSteady: int,
                       start: int, end: int)
    requires FirstAtLeast(t0.mupulses, start).Some? && FirstAtLeast(t0.mupulses, end).Some?
    requires FirstAtLeast(t1.mupulses, start).None? && FirstAtLeast(t1.mupulses, end).None?
    ensures var si, ei := FirstAtLeast(t0.mupulses, start).value, FirstAtLeast(t0.mupulses, end).value;
      DrFrom([t0, t1], 0, MuRow(names, nRecDerec, nSteady), start, end, SteadyIndices(None, None))
      == Ok([Analysis.DrRow(names, MuDrOf(t0, nRecDerec, nSteady, si, ei)),
             Analysis.DrRow(names, MuDrOf(t1, nRecDerec, nSteady, si, ei))])
  {
    var si, ei := FirstAtLeast(t0.mupulses, start).value, FirstAtLeast(t0.mupulses, end).value;
    var row := MuRow(names, nRecDerec, nSteady);
    TwoMuRows([t0, t1], row, start, end, SteadyIndices(Some(si as int), Some(ei as int)));
    assert row(t0, si, ei) == Analysis.DrRow(names, MuDrOf(t0, nRecDerec, nSteady, si, ei));
    assert row(t1, si, ei) == Analysis.DrRow(names, MuDrOf(t1, nRecDerec, nSteady, si, ei));
  }

  /** Two MUs whose first binds both indices and whose second keeps them: one row each, at those indices. */
  lemma TwoMuRows(ts: seq<OldTools.IdrTable>, row: RowFn, start: int, end: int, st: SteadyIndices)
    requires |ts| == 2 && st.start.Some? && st.end.Some?
    requires NextIndices(ts[0].mupulses, start, end, SteadyIndices(None, None)) == st
    requires NextIndices(ts[1].mupulses, start, end, st) == st
    ensures DrFrom(ts, 0, row, start, end, SteadyIndices(None, None))
      == Ok([row(ts[0], st.start.value, st.end.value), row(ts[1], st.start.value, st.end.value)])
  {
    var row0, row1 := row(ts[0], st.start.value, st.end.value), row(ts[1], st.start.value, st.end.value);
    DrFromStep(ts, 1, row, start, end, st);
    assert DrFrom(ts, 2, row, start, end, st) == Ok([]);
    assert [row1] + [] == [row1];
    DrFromStep(ts, 0, row, start, end, SteadyIndices(None, None));
    assert [row0] + [row1] == [row0, row1];
  }

  /** The older IDR tables of two MUs firing at 10, 20 and at 1, 2, 3, with FSAMP 1. */
  lemma ExampleTables()
    ensures OldTools.IdrTableOf(OldTools.IntsAsFloats([10, 20]), 1.0).mupulses == [Num(10.0), Num(20.0)]
    ensures var t1 := OldTools.IdrTableOf(OldTools.IntsAsFloats([1, 2, 3]), 1.0);
      t1.mupulses == [Num(1.0), Num(2.0), Num(3.0)] && |t1.idr| == 3 && t1.idr[1] == Num(1.0) && t1.idr[2] == Num(1.0)
  {
    assert OldTools.IntsAsFloats([10, 20]) == [Num(10.0), Num(20.0)];
    assert OldTools.IntsAsFloats([1, 2, 3]) == [Num(1.0), Num(2.0), Num(3.0)];
  }

  /** Two firings read from index 0 with two steady firings: rates 1 and 2, both 1.0. */
  lemma ExampleStartRate(t1: OldTools.IdrTable)
    requires |t1.idr| == 3 && t1.idr[1] == Num(1.0) && t1.idr[2] == Num(1.0)
    ensures MuDrOf(t1, 1, 2, 0, 1).startSteady == Num(1.0)
  {
    var w := LocSlice(t1.idr, 1, 2);
    assert w == [Num(1.0), Num(1.0)];
    var one := [Num(1.0)];
    assert one[..0] == [];
    assert NumCount(one) == 1 && NumSum(one) == 1.0;
    assert w[..1] == one;
    assert NumCount(w) == 2 && NumSum(w) == 2.0;
  }

  /**
   * Two MUs, steady state [10, 20]: MU 1 fires at 1, 2, 3 only, yet it gets
   * a steady-state start rate (1.0), because it inherits MU 0's indices
   * (the older IDR tables of these pulses are such tables, by `ExampleTables`).
   */
  lemma CarriedSteadyIndexExample(t0: OldTools.IdrTable, t1: OldTools.IdrTable)
    requires t0.mupulses == [Num(10.0), Num(20.0)]
    requires t1.mupulses == [Num(1.0), Num(2.0), Num(3.0)] && |t1.idr| == 3 && t1.idr[1] == Num(1.0) && t1.idr[2] == Num(1.0)
    ensures var r := DrFrom([t0, t1], 0, MuRow(Analysis.DrColumns("steady"), 1, 2), 10, 20, SteadyIndices(None, None));
      r.Ok? && |r.value| == 2 && |r.value[1]| == 4 && r.value[1][0] == Num(1.0)
    ensures forall k :: 0 <= k < |t1.mupulses| ==> t1.mupulses[k].Num? && !(10.0 <= t1.mupulses[k].r <= 20.0)
  {
    var names := Analysis.DrColumns("steady");
    assert FirstAtLeast(t0.mupulses, 10) == Some(0);
    assert FirstAtLeast(t0.mupulses, 20) == Some(1) by {
      assert !AtLeast(t0.mupulses[0], 20) && AtLeast(t0.mupulses[1], 20);
    }
    assert FirstAtLeast(t1.mupulses, 10).None? && FirstAtLeast(t1.mupulses, 20).None? by {
      assert forall k :: 0 <= k < 3 ==> !AtLeast(t1.mupulses[k], 10) && !AtLeast(t1.mupulses[k], 20);
    }
    CarriedIndices(t0, t1, names, 1, 2, 10, 20);
    ExampleStartRate(t1);
    var d1 := MuDrOf(t1, 1, 2, 0, 1);
    Analysis.SteadyColumnsStart(d1);
    var row1 := Analysis.DrRow(names, d1);
    var r := DrFrom([t0, t1], 0, MuRow(names, 1, 2), 10, 20, SteadyIndices(None, None));
    assert r == Ok([Analysis.DrRow(names, MuDrOf(t0, 1, 2, 0, 1)), row1]);
    assert row1[0] == Num(1.0);
  }

  // ---------------------------------------------------------------------
  // compute_covisi (input checks and layout) and basic_mus_properties

  /**
   * The older `compute_covisi` up to its first statistic: the checks, the
   * older IDR and the selection, then every MU reads a `diff_mupulses`
   * column that the older IDR tables do not have (a KeyError); without MUs
   * the frame has no columns.
   */
  function CovisiLayout(f: EmgFile, event: string, nRecDerec: Option<int>, start: int, end: int,
                        singleMuNumber: int, clicks: seq<real>): (r: Result<(seq<string>, nat)>)
    ensures !Analysis.DrEvent(event) ==> r == Err(AssertionError)
    ensures Analysis.DrEvent(event) && nRecDerec.None? ==> r == Err(GenericException)
  {
    if !Analysis.DrEvent(event) then Err(AssertionError)
    else if nRecDerec.None? then Err(GenericException)
    else
      var idr := IdrOf(f);
      if idr.Err? then Err(idr.error)
      else if singleMuNumber < 0 then
        var b := if Analysis.SteadyEvent(event) && start < 0 && end < 0 then OldTools.ShowSelect(clicks) else Ok((start, end));
        if b.Err? then Err(b.error)
        else if |idr.value| > 0 then Err(KeyError)
        else Ok(([], 0))
      else Err(KeyError)
  }

  /** The older COVisi never succeeds on a file with MUs, nor for a single MU. */
  lemma CovisiMissingColumn(f: EmgFile, event: string, nRecDerec: Option<int>, start: int, end: int,
                            singleMuNumber: int, clicks: seq<real>)
    requires f.numberOfMus > 0 || singleMuNumber >= 0
    ensures CovisiLayout(f, event, nRecDerec, start, end, singleMuNumber, clicks).Err?
  {
  }

  /** The MU_number column of the older layout: 1..n. */
  function NumbersFromOne(n: nat): (r: seq<int>)
    ensures |r| == n && forall i :: 0 <= i < n ==> r[i] == i + 1
  {
    seq(n, i => i + 1)
  }

  /** PNR from the file, for DEMUSE sources only: row `i` per MU, then the average. */
  function PnrColumns(f: EmgFile): (r: Result<seq<string>>)
    ensures f.source != "DEMUSE" ==> r == Ok([])
    ensures f.source == "DEMUSE" ==> (r.Ok? <==> f.pnr.Some? && Max(0, f.numberOfMus) <= |f.pnr.value|)
  {
    if f.source != "DEMUSE" then Ok([])
    else if f.pnr.None? || Max(0, f.numberOfMus) > |f.pnr.value| then Err(KeyError)
    else Ok((if f.numberOfMus > 0 then ["PNR"] else []) + ["avg_PNR"])
  }

  /**
   * The older `basic_mus_properties` up to the discharge rates: selection
   * when both bounds are negative, the MViF, MU numbers from 1, PNR for
   * DEMUSE files, the thresholds and the discharge rates.  An MViF of 0 is
   * asked for at openhdemg/analysis.py:347-350; if the answer is 0 too,
   * `compute_thresholds` asks again (openhdemg/analysis.py:62-65), and the
   * model gives both prompts the same answer `enteredMvif`.
   */
  function PropertiesHead(f: EmgFile, nRecDerec: Option<int>, nSteady: Option<int>, start: int, end: int,
                          mvif: Option<real>, enteredMvif: int, clicks: seq<real>): Result<(Analysis.Properties, (int, int))>
  {
    var b := if start < 0 && end < 0 then OldTools.ShowSelect(clicks) else Ok((start, end));
    if b.Err? then Err(b.error)
    else
      var (s, e) := b.value;
      var m := if mvif == Some(0.0) then Some(enteredMvif as real) else mvif;
      var h := HeadFrom(Max(0, f.numberOfMus), PnrColumns(f), ThresholdsOf(f, "rt_dert", "abs_rel", m, enteredMvif),
                        DrOf(f, nRecDerec, nSteady, s, e, "rec_derec_steady", clicks));
      if h.Err? then Err(h.error) else Ok((h.value, (s, e)))
  }

  /** The head from its parts, failing with the first part that failed (PNR, thresholds, DR, in this order). */
  function HeadFrom(n: nat, pnr: Result<seq<string>>, th: Result<Analysis.Table>, dr: Result<Analysis.Table>)
    : (r: Result<Analysis.Properties>)
    ensures r.Ok? <==> pnr.Ok? && th.Ok? && dr.Ok?
    ensures pnr.Err? ==> r == Err(pnr.error)
    ensures pnr.Ok? && th.Err? ==> r == Err(th.error)
    ensures pnr.Ok? && th.Ok? && dr.Err? ==> r == Err(dr.error)
    ensures r.Ok? ==> r.value.muNumbers == NumbersFromOne(n)
                      && r.value.columns == ["MVC"] + (if n > 0 then ["MU_number"] else []) + pnr.value
                                            + th.value.columns + dr.value.columns
  {
    if pnr.Err? then Err(pnr.error)
    else if th.Err? then Err(th.error)
    else if dr.Err? then Err(dr.error)
    else Ok(Analysis.Properties(["MVC"] + (if n > 0 then ["MU_number"] else []) + pnr.value + th.value.columns
                                + dr.value.columns, NumbersFromOne(n)))
  }

  /** The whole older `basic_mus_properties` (COV_steady aside): the head, then the COVisi. */
  function BasicMusPropertiesOf(f: EmgFile, nRecDerec: Option<int>, nSteady: Option<int>, start: int, end: int,
                                mvif: Option<real>, enteredMvif: int, clicks: seq<real>): Result<Analysis.Properties>
  {
    var h := PropertiesHead(f, nRecDerec, nSteady, start, end, mvif, enteredMvif, clicks);
    if h.Err? then Err(h.error)
    else
      var (p, (s, e)) := h.value;
      var cov := CovisiLayout(f, "steady", nRecDerec, s, e, -1, clicks);
      if cov.Err? then Err(cov.error)
      else Ok(Analysis.Properties(p.columns + cov.value.0 + ["COV_steady"], p.muNumbers))
  }

  /**
   * MUs are numbered 1..n (the library numbers them 0..n-1), and PNR
   * columns appear exactly for DEMUSE files.
   */
  lemma NumberedFromOne(f: EmgFile, nRecDerec: Option<int>, nSteady: Option<int>, start: int, end: int,
                        mvif: Option<real>, enteredMvif: int, clicks: seq<real>)
    requires PropertiesHead(f, nRecDerec, nSteady, start, end, mvif, enteredMvif, clicks).Ok?
    requires f.numberOfMus > 0
    ensures var p := PropertiesHead(f, nRecDerec, nSteady, start, end, mvif, enteredMvif, clicks).value.0;
      |p.muNumbers| == f.numberOfMus && (forall i :: 0 <= i < f.numberOfMus ==> p.muNumbers[i] == i + 1)
      && |p.columns| >= 3 && p.columns[0] == "MVC" && p.columns[1] == "MU_number"
      && (f.source == "DEMUSE" <==> p.columns[2] == "PNR")
  {
    var b := if start < 0 && end < 0 then OldTools.ShowSelect(clicks) else Ok((start, end));
    var (s, e) := b.value;
    var m := if mvif == Some(0.0) then Some(enteredMvif as real) else mvif;
    var pr, tr := PnrColumns(f), ThresholdsOf(f, "rt_dert", "abs_rel", m, enteredMvif);
    var dres := DrOf(f, nRecDerec, nSteady, s, e, "rec_derec_steady", clicks);
    var h := HeadFrom(f.numberOfMus, pr, tr, dres);
    assert h.Ok? && PropertiesHead(f, nRecDerec, nSteady, start, end, mvif, enteredMvif, clicks).value.0 == h.value;
    ThresholdColumnsAbsRel();
    assert tr.value.columns[0] == "abs_RT";
    assert f.source == "DEMUSE" <==> pr.value != [];
    HeadNumbers(f.numberOfMus, pr, tr, dres);
  }

  lemma ThresholdColumnsAbsRel()
    ensures Analysis.ThresholdColumns("rt_dert", "abs_rel") == ["abs_RT", "abs_DERT", "rel_RT", "rel_DERT"]
  {
  }

  /** The head's MU numbers and first three column names, given where PNR and the thresholds start. */
  lemma HeadNumbers(n: nat, pr: Result<seq<string>>, tr: Result<Analysis.Table>, dres: Result<Analysis.Table>)
    requires n > 0 && HeadFrom(n, pr, tr, dres).Ok?
    requires pr.value == [] || pr.value[0] == "PNR"
    requires |tr.value.columns| > 0 && tr.value.columns[0] == "abs_RT"
    ensures var p := HeadFrom(n, pr, tr, dres).value;
      |p.muNumbers| == n && (forall i :: 0 <= i < n ==> p.muNumbers[i] == i + 1)
      && |p.columns| >= 3 && p.columns[0] == "MVC" && p.columns[1] == "MU_number"
      && (p.columns[2] == "PNR" <==> pr.value != [])
  {
    var pnr, th := pr.value, tr.value.columns;
    var c := ["MVC"] + ["MU_number"] + pnr + th + dres.value.columns;
    assert c == ["MVC", "MU_number"] + (pnr + th + dres.value.columns);
    assert (pnr + th + dres.value.columns)[0] == if pnr != [] then pnr[0] else th[0];
  }

  /** With MUs in the file, the older `basic_mus_properties` always fails (at the COVisi). */
  lemma BasicMusPropertiesFailsWithMus(f: EmgFile, nRecDerec: Option<int>, nSteady: Option<int>, start: int, end: int,
                                       mvif: Option<real>, enteredMvif: int, clicks: seq<real>)
    requires f.numberOfMus > 0
    ensures BasicMusPropertiesOf(f, nRecDerec, nSteady, start, end, mvif, enteredMvif, clicks).Err?
  {
    var h := PropertiesHead(f, nRecDerec, nSteady, start, end, mvif, enteredMvif, clicks);
    if h.Ok? {
      var (p, (s, e)) := h.value;
      CovisiMissingColumn(f, "steady", nRecDerec, s, e, -1, clicks);
    }
  }
}
