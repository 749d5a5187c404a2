/**
 * MU properties that do not involve the action-potential shape
 * (openhdemg/library/analysis.py): recruitment and derecruitment
 * thresholds, the windows and indices the discharge rate is averaged over,
 * and the input checks and output layout of `compute_covisi` and
 * `basic_mus_properties`.  A DataFrame built from a list of dicts is a
 * `Table`: its column names and one row of values per dict.
 */
module Analysis {
  import opened Common
  import opened EmgRecord
  import Tools

  /** `pd.DataFrame(list_of_dicts)`: no dict gives a frame without columns. */
  datatype Table = Table(columns: seq<string>, rows: seq<seq<Float>>)

  function TableOf(names: seq<string>, rows: seq<seq<Float>>): (t: Table)
    ensures t.rows == rows
    ensures t.columns == if rows == [] then [] else names
  {
    Table(if rows == [] then [] else names, rows)
  }

  // ---------------------------------------------------------------------
  // compute_thresholds

  predicate ThresholdEvent(e: string)
  {
    e == "rt_dert" || e == "rt" || e == "dert"
  }

  predicate ThresholdType(t: string)
  {
    t == "abs_rel" || t == "rel" || t == "abs"
  }

  /** The keys of the dict appended per MU, in insertion order. */
  function ThresholdColumns(event: string, type_: string): seq<string>
    requires ThresholdEvent(event) && ThresholdType(type_)
  {
    if event == "rt_dert" && type_ == "abs_rel" then ["abs_RT", "abs_DERT", "rel_RT", "rel_DERT"]
    else if event == "rt" && type_ == "abs_rel" then ["abs_RT", "rel_RT"]
    else if event == "dert" && type_ == "abs_rel" then ["abs_DERT", "rel_DERT"]
    else if event == "rt_dert" && type_ == "abs" then ["abs_RT", "abs_DERT"]
    else if event == "rt" && type_ == "abs" then ["abs_RT"]
    else if event == "dert" && type_ == "abs" then ["abs_DERT"]
    else if event == "rt_dert" then ["rel_RT", "rel_DERT"]
    else if event == "rt" then ["rel_RT"]
    else ["rel_DERT"]
  }

  /** The kinds of value `type_` asks for. */
  function Kinds(type_: string): seq<string>
  {
    if type_ == "abs_rel" then ["abs", "rel"] else if type_ == "abs" then ["abs"] else ["rel"]
  }

  /** The events `event_` asks for. */
  function Events(event: string): seq<string>
  {
    if event == "rt_dert" then ["RT", "DERT"] else if event == "rt" then ["RT"] else ["DERT"]
  }

  function Prefixed(kind: string, events: seq<string>): seq<string>
  {
    seq(|events|, j requires 0 <= j < |events| => kind + "_" + events[j])
  }

  /** Every kind with every event, kind-major. */
  function Product(kinds: seq<string>, events: seq<string>): seq<string>
  {
    if kinds == [] then [] else Prefixed(kinds[0], events) + Product(kinds[1..], events)
  }

  /** The columns are exactly the requested kinds crossed with the requested events. */
  lemma ThresholdColumnsLayout(event: string, type_: string)
    requires ThresholdEvent(event) && ThresholdType(type_)
    ensures ThresholdColumns(event, type_) == Product(Kinds(type_), Events(event))
  {
    assert "abs" + "_" + "RT" == "abs_RT" && "abs" + "_" + "DERT" == "abs_DERT";
    assert "rel" + "_" + "RT" == "rel_RT" && "rel" + "_" + "DERT" == "rel_DERT";
    var es := Events(event);
    assert ["abs", "rel"][1..] == ["rel"];
    assert Product(["rel"], es) == Prefixed("rel", es) + Product([], es);
    assert Product(["abs"], es) == Prefixed("abs", es) + Product([], es);
    assert Product(["abs", "rel"], es) == Prefixed("abs", es) + Prefixed("rel", es);
  }

  datatype MuThresholds = MuThresholds(absRt: Float, absDert: Float, relRt: Float, relDert: Float)

  function Pick(name: string, m: MuThresholds): Float
  {
    if name == "abs_RT" then m.absRt
    else if name == "abs_DERT" then m.absDert
    else if name == "rel_RT" then m.relRt
    else m.relDert
  }

  /** `REF_SIGNAL.at[p, 0]`: a KeyError when column 0 or row `p` is missing. */
  function RefAt(ref: Frame, p: int): (r: Result<Float>)
    ensures r.Ok? <==> |ref.cols| > 0 && 0 <= p < |ref.cols[0]|
    ensures r.Ok? ==> r.value == ref.cols[0][p]
    ensures r.Err? ==> r.error == KeyError
  {
    if |ref.cols| == 0 || p < 0 || p >= |ref.cols[0]| then Err(KeyError) else Ok(ref.cols[0][p])
  }

  /** The absolute threshold: the relative one times the MVC, in percent. */
  function AbsOf(rel: Float, mvc: real): Float
  {
    if rel.Num? then Num(rel.r * mvc / 100.0) else NaN
  }

  /** The thresholds of one MU: from its first and last pulse; NaN everywhere without pulses. */
  function MuThresholdsOf(ps: seq<int>, ref: Frame, mvc: real): (r: Result<MuThresholds>)
    ensures ps == [] ==> r == Ok(MuThresholds(NaN, NaN, NaN, NaN))
    ensures ps != [] ==> (r.Ok? <==> RefAt(ref, ps[0]).Ok? && RefAt(ref, ps[|ps| - 1]).Ok?)
    ensures ps != [] && r.Ok? ==>
      r.value.relRt == ref.cols[0][ps[0]] && r.value.relDert == ref.cols[0][ps[|ps| - 1]]
      && r.value.absRt == AbsOf(r.value.relRt, mvc) && r.value.absDert == AbsOf(r.value.relDert, mvc)
  {
    if ps == [] then Ok(MuThresholds(NaN, NaN, NaN, NaN))
    else
      var rt := RefAt(ref, ps[0]);
      var dert := RefAt(ref, ps[|ps| - 1]);
      if rt.Err? then Err(rt.error)
      else if dert.Err? then Err(dert.error)
      else Ok(MuThresholds(AbsOf(rt.value, mvc), AbsOf(dert.value, mvc), rt.value, dert.value))
  }

  function ThresholdRow(names: seq<string>, m: MuThresholds): (row: seq<Float>)
    ensures |row| == |names| && forall c :: 0 <= c < |names| ==> row[c] == Pick(names[c], m)
  {
    seq(|names|, c requires 0 <= c < |names| => Pick(names[c], m))
  }

  /** The row of MU `mu`: MUPULSES[mu] must exist. */
  function ThresholdRowOf(f: EmgFile, names: seq<string>, mvc: real, mu: nat): Result<seq<Float>>
  {
    if mu >= |f.mupulses| then Err(IndexError)
    else
      var m := MuThresholdsOf(f.mupulses[mu], f.refSignal, mvc);
      if m.Err? then Err(m.error) else Ok(ThresholdRow(names, m.value))
  }

  function ThresholdRows(f: EmgFile, names: seq<string>, mvc: real): (rs: seq<Result<seq<Float>>>)
    ensures |rs| == Max(0, f.numberOfMus)
    ensures forall mu :: 0 <= mu < |rs| ==> rs[mu] == ThresholdRowOf(f, names, mvc, mu)
  {
    seq(Max(0, f.numberOfMus), mu requires 0 <= mu < Max(0, f.numberOfMus) => ThresholdRowOf(f, names, mvc, mu))
  }

  /** The MVC used: the one entered at the prompt when it is 0 and absolute values are asked for. */
  function MvcUsed(type_: string, mvc: real, enteredMvc: real): real
  {
    if type_ != "rel" && mvc == 0.0 then enteredMvc else mvc
  }

  /**
   * `compute_thresholds`: the checks of `event_`, `type_` and of an MVC
   * that is not a number (`None`), then one row per MU 0..NUMBER_OF_MUS-1.
   */
  function ThresholdsOf(f: EmgFile, event: string, type_: string, mvc: Option<real>, enteredMvc: real): (r: Result<Table>)
    ensures !ThresholdEvent(event) ==> r == Err(ValueError)
    ensures ThresholdEvent(event) && !ThresholdType(type_) ==> r == Err(ValueError)
    ensures ThresholdEvent(event) && ThresholdType(type_) && mvc.None? ==> r == Err(TypeError)
    ensures r.Ok? ==> (|r.value.rows| == Max(0, f.numberOfMus)
                       && r.value.columns == (if f.numberOfMus > 0 then ThresholdColumns(event, type_) else []))
  {
    if !ThresholdEvent(event) then Err(ValueError)
    else if !ThresholdType(type_) then Err(ValueError)
    else if mvc.None? then Err(TypeError)
    else
      var names := ThresholdColumns(event, type_);
      var rows := Collect(ThresholdRows(f, names, MvcUsed(type_, mvc.value, enteredMvc)));
      if rows.Err? then Err(rows.error) else Ok(TableOf(names, rows.value))
  }

  method ComputeThresholds(f: EmgFile, event: string, type_: string, mvc: Option<real>, enteredMvc: real)
    returns (r: Result<Table>)
    ensures r == ThresholdsOf(f, event, type_, mvc, enteredMvc)
  {
    if !ThresholdEvent(event) || !ThresholdType(type_) {
      return Err(ValueError);
    }
    if mvc.None? {
      return Err(TypeError);
    }
    var m := MvcUsed(type_, mvc.value, enteredMvc);
    var names := ThresholdColumns(event, type_);
    ghost var rs := ThresholdRows(f, names, m);
    var rows: seq<seq<Float>> := [];
    var mu := 0;
    while mu < f.numberOfMus
      invariant 0 <= mu <= Max(0, f.numberOfMus)
      invariant Collect(rs[..mu]) == Ok(rows)
    {
      CollectStep(rs, mu);
      var row := ThresholdRowOf(f, names, m, mu);
      if row.Err? {
        CollectPrefixErr(rs, mu + 1);
        return Err(row.error);
      }
      rows := rows + [row.value];
      mu := mu + 1;
    }
    assert rs[..mu] == rs;
    return Ok(TableOf(names, rows));
  }

  /**
   * The thresholds succeed exactly when the inputs are valid and every MU
   * has a pulse list whose first and last pulse are rows of the reference
   * signal (or no pulses at all).
   */
  lemma ThresholdsSucceed(f: EmgFile, event: string, type_: string, mvc: Option<real>, enteredMvc: real)
    ensures ThresholdsOf(f, event, type_, mvc, enteredMvc).Ok? <==>
      ThresholdEvent(event) && ThresholdType(type_) && mvc.Some?
      && Max(0, f.numberOfMus) <= |f.mupulses|
      && forall mu :: 0 <= mu < Max(0, f.numberOfMus) ==> PulsesOnReference(f, mu)
  {
    if ThresholdEvent(event) && ThresholdType(type_) && mvc.Some? {
      var names := ThresholdColumns(event, type_);
      var rs := ThresholdRows(f, names, MvcUsed(type_, mvc.value, enteredMvc));
      CollectEach(rs);
      if Max(0, f.numberOfMus) > |f.mupulses| {
        assert rs[|f.mupulses|].Err?;
      } else if Collect(rs).Ok? {
        forall mu | 0 <= mu < Max(0, f.numberOfMus) ensures PulsesOnReference(f, mu) {
          assert rs[mu].Ok?;
        }
      } else {
        var k :| 0 <= k < |rs| && rs[k].Err?;
        assert !PulsesOnReference(f, k);
      }
    }
  }

  predicate PulsesOnReference(f: EmgFile, mu: nat)
    requires mu < |f.mupulses|
  {
    var ps := f.mupulses[mu];
    ps == [] || (RefAt(f.refSignal, ps[0]).Ok? && RefAt(f.refSignal, ps[|ps| - 1]).Ok?)
  }

  /**
   * One row per MU, each holding the requested columns: the reference value
   * at the first and last pulse and that value times MVC / 100; an MU
   * without pulses gets NaN in every column.
   */
  lemma ThresholdsRows(f: EmgFile, event: string, type_: string, mvc: Option<real>, enteredMvc: real, mu: nat, c: nat)
    requires ThresholdsOf(f, event, type_, mvc, enteredMvc).Ok?
    requires mu < Max(0, f.numberOfMus)
    ensures ThresholdEvent(event) && ThresholdType(type_) && mvc.Some?
    ensures var t := ThresholdsOf(f, event, type_, mvc, enteredMvc).value;
      |t.rows| == Max(0, f.numberOfMus) && t.columns == ThresholdColumns(event, type_)
      && |t.rows[mu]| == |t.columns|
    ensures mu < |f.mupulses| && PulsesOnReference(f, mu)
    ensures var t := ThresholdsOf(f, event, type_, mvc, enteredMvc).value;
      c < |t.columns| ==>
        var ps := f.mupulses[mu];
        var m := MvcUsed(type_, mvc.value, enteredMvc);
        t.rows[mu][c] == Pick(t.columns[c],
          if ps == [] then MuThresholds(NaN, NaN, NaN, NaN)
          else MuThresholds(AbsOf(f.refSignal.cols[0][ps[0]], m), AbsOf(f.refSignal.cols[0][ps[|ps| - 1]], m),
                            f.refSignal.cols[0][ps[0]], f.refSignal.cols[0][ps[|ps| - 1]]))
  {
    var names := ThresholdColumns(event, type_);
    var m := MvcUsed(type_, mvc.value, enteredMvc);
    var rs := ThresholdRows(f, names, m);
    CollectEach(rs);
    assert rs[mu].Ok?;
    ThresholdsSucceed(f, event, type_, mvc, enteredMvc);
  }

  // ---------------------------------------------------------------------
  // compute_idr as read by the analysis functions

  /**
   * The library's `compute_idr` on a file (MUPULSES is always a list in the
   * record): a single MU needs equally long pulse lists and reads MU 0's
   * (none when there are no lists); several MUs need a list each.
   */
  function IdrOf(f: EmgFile): (r: Result<seq<Tools.IdrTable>>)
    ensures f.numberOfMus == 1 ==> (r.Ok? <==> Tools.SameLengths(f.mupulses))
    ensures f.numberOfMus != 1 ==> (r.Ok? <==> f.numberOfMus <= |f.mupulses|)
    ensures r.Ok? ==> |r.value| == Max(0, f.numberOfMus)
    ensures r.Ok? ==> forall mu :: 0 <= mu < |r.value| ==> Tools.IsIdrTable(r.value[mu], Tools.PulsesOf(f.mupulses, mu), f.fsamp)
  {
    var n := Max(0, f.numberOfMus);
    if f.numberOfMus == 1 then
      if Tools.SameLengths(f.mupulses) then Ok([Tools.IdrTableOf(Tools.PulsesOf(f.mupulses, 0), f.fsamp)])
      else Err(ValueError)
    else if n > |f.mupulses| then Err(IndexError)
    else Ok(seq(n, mu requires 0 <= mu < n => Tools.IdrTableOf(f.mupulses[mu], f.fsamp)))
  }

  /** A table that satisfies the IDR definition is the one `IdrTableOf` builds. */
  lemma IdrTableUnique(t: Tools.IdrTable, ps: seq<int>, fsamp: real)
    requires Tools.IsIdrTable(t, ps, fsamp)
    ensures t == Tools.IdrTableOf(ps, fsamp)
  {
    var u := Tools.IdrTableOf(ps, fsamp);
    assert t.diffMupulses == u.diffMupulses;
    assert t.timesec == u.timesec;
    assert t.idr == u.idr;
  }

  /** The library method's outcome is `IdrOf`. */
  method Idr(f: EmgFile) returns (r: Result<seq<Tools.IdrTable>>)
    ensures r == IdrOf(f)
  {
    r := Tools.ComputeIdr(Some(f.mupulses), f.numberOfMus, f.fsamp);
    if r.Ok? {
      var e := IdrOf(f).value;
      forall mu | 0 <= mu < |r.value| ensures r.value[mu] == e[mu] {
        IdrTableUnique(r.value[mu], Tools.PulsesOf(f.mupulses, mu), f.fsamp);
      }
      assert r.value == e;
    } else {
      assert IdrOf(f).Err?;
      r := IdrOf(f);
    }
  }

  // ---------------------------------------------------------------------
  // compute_dr

  predicate DrEvent(e: string)
  {
    e == "rec" || e == "derec" || e == "rec_derec" || e == "steady" || e == "rec_derec_steady"
  }

  predicate SteadyEvent(e: string)
  {
    e == "steady" || e == "rec_derec_steady"
  }

  /** The steady state is selected on the plot unless both bounds are given. */
  predicate NeedsSelection(start: int, end: int)
  {
    start < 0 || end < 0
  }

  /** The steady-state bounds: the given ones, or the two clicked points. */
  function SteadyBounds(event: string, start: int, end: int, clicks: seq<real>): (r: Result<(int, int)>)
    ensures !(SteadyEvent(event) && NeedsSelection(start, end)) ==> r == Ok((start, end))
    ensures SteadyEvent(event) && NeedsSelection(start, end) ==> r == Tools.SelectedArea(clicks)
  {
    if SteadyEvent(event) && NeedsSelection(start, end) then Tools.SelectedArea(clicks) else Ok((start, end))
  }

  /** The position of the first pulse with start <= p <= end, if any. */
  function SteadyStart(ps: seq<int>, start: int, end: int): (r: Option<nat>)
    ensures r.Some? ==> r.value < |ps| && start <= ps[r.value] <= end
    ensures r.Some? ==> forall k :: 0 <= k < r.value ==> !(start <= ps[k] <= end)
    ensures r.None? ==> forall k :: 0 <= k < |ps| ==> !(start <= ps[k] <= end)
  {
    if ps == [] then None
    else if start <= ps[0] <= end then Some(0)
    else
      var rest := SteadyStart(ps[1..], start, end);
      if rest.None? then None else Some(rest.value + 1)
  }

  /** The position of the first pulse at or after `end`, else the last position. */
  function SteadyEnd(ps: seq<int>, end: int): (r: nat)
    requires ps != []
    ensures r < |ps|
    ensures forall k :: 0 <= k < r ==> ps[k] < end
    ensures ps[r] >= end || (r == |ps| - 1 && ps[r] < end)
  {
    if ps[0] >= end || |ps| == 1 then 0 else SteadyEnd(ps[1..], end) + 1
  }

  /** The discharge rates of one MU. */
  datatype MuDr = MuDr(rec: Float, derec: Float, startSteady: Float, endSteady: Float, allSteady: Float, all: Float)

  /** DR at recruitment and derecruitment: NaN with fewer than `n` firings. */
  function RecDerec(idr: seq<Float>, n: int): (Float, Float)
  {
    var len := |idr|;
    if len >= n then (NanMean(PySlice(idr, 0, n)), NanMean(PySlice(idr, len - n + 1, len)))
    else (NaN, NaN)
  }

  /** DR at the start, at the end and over the whole steady state, from its two indices. */
  function SteadyRates(idr: seq<Float>, si: int, ei: int, n: int): (Float, Float, Float)
  {
    (NanMean(LocSlice(idr, si + 1, si + n)), NanMean(LocSlice(idr, ei + 1 - n, ei)), NanMean(LocSlice(idr, si + 1, ei)))
  }

  function MuDrOf(t: Tools.IdrTable, nRecDerec: int, nSteady: int, start: int, end: int): MuDr
  {
    var (rec, derec) := RecDerec(t.idr, nRecDerec);
    var si := SteadyStart(t.mupulses, start, end);
    var steady := if si.None? then (NaN, NaN, NaN)
                  else SteadyRates(t.idr, si.value, SteadyEnd(t.mupulses, end), nSteady);
    MuDr(rec, derec, steady.0, steady.1, steady.2, NanMean(t.idr))
  }

  function DrColumns(event: string): seq<string>
  {
    if event == "rec" then ["DR_rec", "DR_all"]
    else if event == "derec" then ["DR_derec", "DR_all"]
    else if event == "rec_derec" then ["DR_rec", "DR_derec", "DR_all"]
    else if event == "steady" then ["DR_start_steady", "DR_end_steady", "DR_all_steady", "DR_all"]
    else ["DR_rec", "DR_derec", "DR_start_steady", "DR_end_steady", "DR_all_steady", "DR_all"]
  }

  function DrValue(name: string, d: MuDr): Float
  {
    if name == "DR_rec" then d.rec
    else if name == "DR_derec" then d.derec
    else if name == "DR_start_steady" then d.startSteady
    else if name == "DR_end_steady" then d.endSteady
    else if name == "DR_all_steady" then d.allSteady
    else d.all
  }

  /** The steady-state layout opens with the start-of-steady-state rate. */
  lemma SteadyColumnsStart(d: MuDr)
    ensures |DrColumns("steady")| == 4 && DrColumns("steady")[0] == "DR_start_steady"
    ensures DrValue(DrColumns("steady")[0], d) == d.startSteady
  {
    assert "steady" != "rec" && "steady" != "derec" && "steady" != "rec_derec";
    assert "DR_start_steady" != "DR_rec" && "DR_start_steady" != "DR_derec";
  }

  function DrRow(names: seq<string>, d: MuDr): (row: seq<Float>)
    ensures |row| == |names| && forall c :: 0 <= c < |names| ==> row[c] == DrValue(names[c], d)
  {
    seq(|names|, c requires 0 <= c < |names| => DrValue(names[c], d))
  }

  /**
   * `compute_dr`: the checks of `event_` and of firing counts that are not
   * integers (`None`), the IDR, the steady-state bounds, then one row per MU.
   */
  function DrOf(f: EmgFile, nRecDerec: Option<int>, nSteady: Option<int>, start: int, end: int, event: string,
                clicks: seq<real>): (r: Result<Table>)
    ensures !DrEvent(event) ==> r == Err(ValueError)
    ensures DrEvent(event) && (nRecDerec.None? || nSteady.None?) ==> r == Err(TypeError)
    ensures r.Ok? ==> (|r.value.rows| == Max(0, f.numberOfMus)
                       && r.value.columns == (if f.numberOfMus > 0 then DrColumns(event) else []))
  {
    if !DrEvent(event) then Err(ValueError)
    else if nRecDerec.None? || nSteady.None? then Err(TypeError)
    else
      var idr := IdrOf(f);
      if idr.Err? then Err(idr.error)
      else
        var b := SteadyBounds(event, start, end, clicks);
        if b.Err? then Err(b.error)
        else
          var names := DrColumns(event);
          Ok(TableOf(names, DrRows(idr.value, names, nRecDerec.value, nSteady.value, b.value.0, b.value.1)))
  }

  /** One row per MU table, in order. */
  function RowsOf(ts: seq<Tools.IdrTable>, row: Tools.IdrTable -> seq<Float>): (rows: seq<seq<Float>>)
    ensures |rows| == |ts|
  {
    if ts == [] then [] else RowsOf(ts[..|ts| - 1], row) + [row(ts[|ts| - 1])]
  }

  /** Row `mu` is the row of table `mu`. */
  lemma {:induction false} RowsOfAt(ts: seq<Tools.IdrTable>, row: Tools.IdrTable -> seq<Float>, mu: nat)
    requires mu < |ts|
    ensures RowsOf(ts, row)[mu] == row(ts[mu])
  {
    var n := |ts| - 1;
    if mu < n {
      RowsOfAt(ts[..n], row, mu);
      assert ts[..n][mu] == ts[mu];
    }
  }

  /** The DR row of one MU table. */
  function MuRow(names: seq<string>, nRecDerec: int, nSteady: int, start: int, end: int): Tools.IdrTable -> seq<Float>
  {
    t => DrRow(names, MuDrOf(t, nRecDerec, nSteady, start, end))
  }

  function DrRows(ts: seq<Tools.IdrTable>, names: seq<string>, nRecDerec: int, nSteady: int, start: int, end: int)
    : (rows: seq<seq<Float>>)
    ensures |rows| == |ts| && forall mu :: 0 <= mu < |rows| ==> |rows[mu]| == |names|
  {
    var row := MuRow(names, nRecDerec, nSteady, start, end);
    assert forall t :: |row(t)| == |names|;
    RowsOfWidth(ts, row, |names|);
    RowsOf(ts, row)
  }

  /** Rows all of width `w` give a table of width `w`. */
  lemma RowsOfWidth(ts: seq<Tools.IdrTable>, row: Tools.IdrTable -> seq<Float>, w: nat)
    requires forall t :: |row(t)| == w
    ensures forall mu :: 0 <= mu < |ts| ==> |RowsOf(ts, row)[mu]| == w
  {
    forall mu | 0 <= mu < |ts| ensures |RowsOf(ts, row)[mu]| == w {
      RowsOfAt(ts, row, mu);
    }
  }

  /** Row `mu` holds the rates of MU `mu`, one value per column. */
  lemma DrRowsAt(ts: seq<Tools.IdrTable>, names: seq<string>, nRecDerec: int, nSteady: int,
                 start: int, end: int, mu: nat)
    requires mu < |ts|
    ensures DrRows(ts, names, nRecDerec, nSteady, start, end)[mu]
            == DrRow(names, MuDrOf(ts[mu], nRecDerec, nSteady, start, end))
  {
    RowsOfAt(ts, MuRow(names, nRecDerec, nSteady, start, end), mu);
  }

  /** The steady-start search of one MU. */
  method FindSteadyStart(ps: seq<int>, start: int, end: int) returns (r: Option<nat>)
    ensures r == SteadyStart(ps, start, end)
  {
    r := None;
    for pos := 0 to |ps|
      invariant forall k :: 0 <= k < pos ==> !(start <= ps[k] <= end)
    {
      if start <= ps[pos] <= end {
        r := Some(pos);
        break;
      }
    }
    SteadyStartUnique(ps, start, end, r);
  }

  lemma SteadyStartUnique(ps: seq<int>, start: int, end: int, r: Option<nat>)
    requires r.Some? ==> r.value < |ps| && start <= ps[r.value] <= end
    requires r.Some? ==> forall k :: 0 <= k < r.value ==> !(start <= ps[k] <= end)
    requires r.None? ==> forall k :: 0 <= k < |ps| ==> !(start <= ps[k] <= end)
    ensures r == SteadyStart(ps, start, end)
  {
  }

  /** The steady-end search of one MU. */
  method FindSteadyEnd(ps: seq<int>, end: int) returns (r: nat)
    requires ps != []
    ensures r == SteadyEnd(ps, end)
  {
    r := 0;
    var pos := 0;
    while pos < |ps|
      invariant 0 <= pos <= |ps|
      invariant forall k :: 0 <= k < pos ==> ps[k] < end
      invariant pos > 0 ==> r == pos - 1
    {
      if ps[pos] >= end {
        r := pos;
        break;
      }
      r := pos;
      pos := pos + 1;
    }
    SteadyEndUnique(ps, end, r);
  }

  lemma SteadyEndUnique(ps: seq<int>, end: int, r: nat)
    requires ps != [] && r < |ps|
    requires forall k :: 0 <= k < r ==> ps[k] < end
    requires ps[r] >= end || (r == |ps| - 1 && ps[r] < end)
    ensures r == SteadyEnd(ps, end)
  {
  }

  /** The rates of one MU, with the two index searches as loops. */
  method MuDischarge(t: Tools.IdrTable, nRecDerec: int, nSteady: int, start: int, end: int) returns (d: MuDr)
    ensures d == MuDrOf(t, nRecDerec, nSteady, start, end)
  {
    var (rec, derec) := RecDerec(t.idr, nRecDerec);
    var si := FindSteadyStart(t.mupulses, start, end);
    var steady := (NaN, NaN, NaN);
    if si.Some? {
      var ei := FindSteadyEnd(t.mupulses, end);
      steady := SteadyRates(t.idr, si.value, ei, nSteady);
    }
    d := MuDr(rec, derec, steady.0, steady.1, steady.2, NanMean(t.idr));
  }

  method ComputeDr(f: EmgFile, nRecDerec: Option<int>, nSteady: Option<int>, start: int, end: int, event: string,
                   clicks: seq<real>) returns (r: Result<Table>)
    ensures r == DrOf(f, nRecDerec, nSteady, start, end, event, clicks)
  {
    if !DrEvent(event) {
      return Err(ValueError);
    }
    if nRecDerec.None? || nSteady.None? {
      return Err(TypeError);
    }
    var idr := Idr(f);
    if idr.Err? {
      return Err(idr.error);
    }
    var b := SteadyBounds(event, start, end, clicks);
    if b.Err? {
      return Err(b.error);
    }
    var names := DrColumns(event);
    var rows := DrTableRows(idr.value, names, nRecDerec.value, nSteady.value, b.value.0, b.value.1);
    return Ok(TableOf(names, rows));
  }

  /** The loop over the MUs' IDR tables, one row each. */
  method DrTableRows(ts: seq<Tools.IdrTable>, names: seq<string>, nRecDerec: int, nSteady: int, start: int, end: int)
    returns (rows: seq<seq<Float>>)
    ensures rows == DrRows(ts, names, nRecDerec, nSteady, start, end)
  {
    rows := [];
    for mu := 0 to |ts|
      invariant rows == RowsOf(ts[..mu], MuRow(names, nRecDerec, nSteady, start, end))
    {
      var d := MuDischarge(ts[mu], nRecDerec, nSteady, start, end);
      assert ts[..mu + 1][..mu] == ts[..mu];
      assert DrRow(names, d) == MuRow(names, nRecDerec, nSteady, start, end)(ts[mu]);
      rows := rows + [DrRow(names, d)];
    }
    assert ts[..|ts|] == ts;
  }

  lemma NumCountSingleNaN(xs: seq<Float>)
    requires |xs| == 1 && xs[0] == NaN
    ensures NanMean(xs) == NaN
  {
    assert xs[..0] == [];
  }

  /**
   * With one firing at recruitment and derecruitment both rates are NaN:
   * the first IDR is undefined and the derecruitment window is empty.
   */
  lemma DrWithOneFiring(t: Tools.IdrTable, ps: seq<int>, fsamp: real)
    requires Tools.IsIdrTable(t, ps, fsamp)
    ensures RecDerec(t.idr, 1) == (NaN, NaN)
  {
    if |t.idr| >= 1 {
      assert t.idr[0] == NaN;
      assert PySlice(t.idr, 0, 1) == [t.idr[0]];
      NumCountSingleNaN(PySlice(t.idr, 0, 1));
      assert PySlice(t.idr, |t.idr|, |t.idr|) == [];
    }
  }

  /** The rate between pulse k - 1 and pulse k. */
  function Rate(ps: seq<int>, fsamp: real, k: nat): real
    requires 0 < k < |ps| && ps[k] != ps[k - 1]
  {
    fsamp / (ps[k] - ps[k - 1]) as real
  }

  /** The sum of the rates between the first `m` pulses. */
  function RateSum(ps: seq<int>, fsamp: real, m: nat): real
    requires m <= |ps| && StrictlyIncreasing(ps)
  {
    if m <= 1 then 0.0 else RateSum(ps, fsamp, m - 1) + Rate(ps, fsamp, m - 1)
  }

  lemma {:induction false} IdrPrefixSums(t: Tools.IdrTable, ps: seq<int>, fsamp: real, m: nat)
    requires Tools.IsIdrTable(t, ps, fsamp) && StrictlyIncreasing(ps) && fsamp > 0.0
    requires 1 <= m <= |ps|
    ensures NumCount(t.idr[..m]) == m - 1
    ensures NumSum(t.idr[..m]) == RateSum(ps, fsamp, m)
  {
    if m == 1 {
      assert t.idr[..1][..0] == [];
      assert t.idr[0] == Div(Num(fsamp), NaN);
    } else {
      IdrPrefixSums(t, ps, fsamp, m - 1);
      assert t.idr[..m][..m - 1] == t.idr[..m - 1];
      assert ps[m - 1] > ps[m - 2];
      assert t.idr[m - 1] == Num(Rate(ps, fsamp, m - 1));
    }
  }

  /**
   * With increasing pulses and n >= 2 firings available, the DR at
   * recruitment is the mean of the n - 1 rates between the first n pulses.
   */
  lemma DrRecFromPulses(t: Tools.IdrTable, ps: seq<int>, fsamp: real, n: nat)
    requires Tools.IsIdrTable(t, ps, fsamp) && StrictlyIncreasing(ps) && fsamp > 0.0
    requires 2 <= n <= |ps|
    ensures RecDerec(t.idr, n).0 == Num(RateSum(ps, fsamp, n) / (n - 1) as real)
  {
    assert PySlice(t.idr, 0, n) == t.idr[..n];
    IdrPrefixSums(t, ps, fsamp, n);
  }

  /** With fewer firings than asked for, both rates are NaN. */
  lemma DrTooFewFirings(idr: seq<Float>, n: int)
    requires |idr| < n
    ensures RecDerec(idr, n) == (NaN, NaN)
  {
  }

  /** No pulse inside [start, end] leaves every steady-state rate NaN. */
  lemma SteadyNaNWithoutWindowPulse(t: Tools.IdrTable, nRecDerec: int, nSteady: int, start: int, end: int)
    requires forall k :: 0 <= k < |t.mupulses| ==> !(start <= t.mupulses[k] <= end)
    ensures var d := MuDrOf(t, nRecDerec, nSteady, start, end);
      d.startSteady == NaN && d.endSteady == NaN && d.allSteady == NaN
  {
    assert SteadyStart(t.mupulses, start, end).None?;
  }

  /** On success, one row per MU and exactly the columns of the event. */
  lemma DrShape(f: EmgFile, nRecDerec: Option<int>, nSteady: Option<int>, start: int, end: int, event: string,
                clicks: seq<real>)
    requires DrOf(f, nRecDerec, nSteady, start, end, event, clicks).Ok?
    ensures DrEvent(event) && nRecDerec.Some? && nSteady.Some? && IdrOf(f).Ok?
    ensures var t := DrOf(f, nRecDerec, nSteady, start, end, event, clicks).value;
      |t.rows| == Max(0, f.numberOfMus)
      && (f.numberOfMus > 0 ==> t.columns == DrColumns(event))
      && forall mu :: 0 <= mu < |t.rows| ==> |t.rows[mu]| == |DrColumns(event)|
  {
  }

  // ---------------------------------------------------------------------
  // compute_covisi (input checks and layout; the statistic is not modelled)

  function CovisiColumns(event: string): seq<string>
  {
    if event == "rec" then ["COVisi_rec", "COVisi_all"]
    else if event == "derec" then ["COVisi_derec", "COVisi_all"]
    else if event == "rec_derec" then ["COVisi_rec", "COVisi_derec", "COVisi_all"]
    else if event == "steady" then ["COVisi_steady", "COVisi_all"]
    else ["COVisi_rec", "COVisi_derec", "COVisi_steady", "COVisi_all"]
  }

  /**
   * `compute_covisi`: its columns and its number of rows.  A non-negative
   * `single_mu_number` reads that MU's table only (a KeyError beyond the
   * MUs) and gives one row with COVisi_all.
   */
  function CovisiLayout(f: EmgFile, event: string, nRecDerec: Option<int>, start: int, end: int,
                        singleMuNumber: int, clicks: seq<real>): (r: Result<(seq<string>, nat)>)
    ensures !DrEvent(event) ==> r == Err(ValueError)
    ensures DrEvent(event) && nRecDerec.None? ==> r == Err(TypeError)
    ensures r.Ok? && singleMuNumber < 0 ==>
      r.value == (if f.numberOfMus > 0 then CovisiColumns(event) else [], Max(0, f.numberOfMus))
  {
    if !DrEvent(event) then Err(ValueError)
    else if nRecDerec.None? then Err(TypeError)
    else
      var idr := IdrOf(f);
      if idr.Err? then Err(idr.error)
      else if singleMuNumber < 0 then
        var b := SteadyBounds(event, start, end, clicks);
        if b.Err? then Err(b.error)
        else if |idr.value| == 0 then Ok(([], 0))
        else Ok((CovisiColumns(event), |idr.value|))
      else if singleMuNumber >= |idr.value| then Err(KeyError)
      else Ok((["COVisi_all"], 1))
  }

  /**
   * The checks passed and the IDR computed, the layout always succeeds for
   * all MUs (with the steady state given): one row per MU.
   */
  lemma CovisiSucceeds(f: EmgFile, event: string, nRecDerec: Option<int>, start: int, end: int, clicks: seq<real>)
    requires DrEvent(event) && nRecDerec.Some? && IdrOf(f).Ok? && !NeedsSelection(start, end)
    ensures CovisiLayout(f, event, nRecDerec, start, end, -1, clicks).Ok?
    ensures CovisiLayout(f, event, nRecDerec, start, end, -1, clicks).value.1 == Max(0, f.numberOfMus)
  {
  }

  /** With a single MU asked for, the result is one row holding COVisi_all only. */
  lemma CovisiSingleMu(f: EmgFile, event: string, nRecDerec: Option<int>, start: int, end: int,
                       singleMuNumber: int, clicks: seq<real>)
    requires singleMuNumber >= 0
    requires CovisiLayout(f, event, nRecDerec, start, end, singleMuNumber, clicks).Ok?
    ensures CovisiLayout(f, event, nRecDerec, start, end, singleMuNumber, clicks).value == (["COVisi_all"], 1)
    ensures 0 <= singleMuNumber < Max(0, f.numberOfMus)
  {
  }

  // ---------------------------------------------------------------------
  // basic_mus_properties (layout)

  /** The accuracy modes `basic_mus_properties` accepts. */
  predicate AccuracyMode(accuracy: string)
  {
    accuracy == "default" || accuracy == "SIL" || accuracy == "PNR" || accuracy == "SIL_PNR"
  }

  /**
   * The accuracy columns for each mode.  "default" renames the one column
   * of ACCURACY (a missing key is a KeyError, another number of columns a
   * ValueError); SIL and PNR average a column built from one dict per MU,
   * which does not exist without MUs (a KeyError).
   */
  function AccuracyColumns(f: EmgFile, accuracy: string): (r: Result<seq<string>>)
    ensures !AccuracyMode(accuracy) ==> r == Err(ValueError)
    ensures accuracy == "default" ==> (r.Ok? <==> f.accuracy.Some? && |f.accuracy.value.cols| == 1)
    ensures accuracy != "default" && AccuracyMode(accuracy) ==> (r.Ok? <==> f.numberOfMus > 0)
    ensures r.Ok? ==> |r.value| == (if accuracy == "SIL_PNR" then 4 else 2)
  {
    if accuracy == "default" then
      if f.accuracy.None? then Err(KeyError)
      else if |f.accuracy.value.cols| != 1 then Err(ValueError)
      else Ok(["Accuracy", "avg_Accuracy"])
    else if !AccuracyMode(accuracy) then Err(ValueError)
    else if f.numberOfMus <= 0 then Err(KeyError)
    else if accuracy == "SIL" then Ok(["SIL", "avg_SIL"])
    else if accuracy == "PNR" then Ok(["PNR", "avg_PNR"])
    else Ok(["SIL", "avg_SIL", "PNR", "avg_PNR"])
  }

  /** The columns of `basic_mus_properties` and its MU_number column. */
  datatype Properties = Properties(columns: seq<string>, muNumbers: seq<int>)

  /**
   * `basic_mus_properties`: the steady state and the MVC (prompted when 0)
   * first, then the accuracy, the thresholds, the discharge rates, the
   * steady-state COVisi and the force COV, side by side.  MUs are numbered
   * from 0; a frame built from no dicts adds no column.
   */
  function BasicMusPropertiesOf(f: EmgFile, nRecDerec: Option<int>, nSteady: Option<int>, start: int, end: int,
                                accuracy: string, mvc: real, enteredMvc: real, clicks: seq<real>): Result<Properties>
  {
    var b := if NeedsSelection(start, end) then Tools.SelectedArea(clicks) else Ok((start, end));
    if b.Err? then Err(b.error)
    else
      var (s, e) := b.value;
      var m := if mvc == 0.0 then enteredMvc else mvc;
      var acc := AccuracyColumns(f, accuracy);
      if acc.Err? then Err(acc.error)
      else
        var th := ThresholdsOf(f, "rt_dert", "abs_rel", Some(m), enteredMvc);
        if th.Err? then Err(th.error)
        else
          var dr := DrOf(f, nRecDerec, nSteady, s, e, "rec_derec_steady", clicks);
          if dr.Err? then Err(dr.error)
          else
            var cov := CovisiLayout(f, "steady", nRecDerec, s, e, -1, clicks);
            if cov.Err? then Err(cov.error)
            else
              var n := Max(0, f.numberOfMus);
              Ok(Properties(["MVC"] + (if n > 0 then ["MU_number"] else []) + acc.value + th.value.columns
                            + dr.value.columns + cov.value.0 + ["COV_steady"], Range(n)))
  }

  /** With the steady state given, an unknown accuracy mode is a ValueError. */
  lemma BasicMusPropertiesRejectsAccuracy(f: EmgFile, nRecDerec: Option<int>, nSteady: Option<int>, start: int,
                                          end: int, accuracy: string, mvc: real, enteredMvc: real, clicks: seq<real>)
    requires !NeedsSelection(start, end) && !AccuracyMode(accuracy)
    ensures BasicMusPropertiesOf(f, nRecDerec, nSteady, start, end, accuracy, mvc, enteredMvc, clicks) == Err(ValueError)
  {
    assert AccuracyColumns(f, accuracy) == Err(ValueError);
  }

  /**
   * On success with MUs present, the columns are MVC, MU_number, the
   * accuracy pair(s), the four thresholds, the six discharge rates, the
   * two steady-state COVisi columns and COV_steady, and MU_number is 0..n-1.
   */
  lemma BasicMusPropertiesLayout(f: EmgFile, nRecDerec: Option<int>, nSteady: Option<int>, start: int,
                                 end: int, accuracy: string, mvc: real, enteredMvc: real, clicks: seq<real>)
    requires BasicMusPropertiesOf(f, nRecDerec, nSteady, start, end, accuracy, mvc, enteredMvc, clicks).Ok?
    requires f.numberOfMus > 0
    ensures AccuracyColumns(f, accuracy).Ok?
    ensures var p := BasicMusPropertiesOf(f, nRecDerec, nSteady, start, end, accuracy, mvc, enteredMvc, clicks).value;
      p.muNumbers == Range(f.numberOfMus)
      && p.columns == ["MVC", "MU_number"] + AccuracyColumns(f, accuracy).value
                      + ["abs_RT", "abs_DERT", "rel_RT", "rel_DERT"]
                      + ["DR_rec", "DR_derec", "DR_start_steady", "DR_end_steady", "DR_all_steady", "DR_all"]
                      + ["COVisi_steady", "COVisi_all"] + ["COV_steady"]
  {
    var b := if NeedsSelection(start, end) then Tools.SelectedArea(clicks) else Ok((start, end));
    var (s, e) := b.value;
    var m := if mvc == 0.0 then enteredMvc else mvc;
    var acc := AccuracyColumns(f, accuracy).value;
    var th := ThresholdsOf(f, "rt_dert", "abs_rel", Some(m), enteredMvc).value;
    var dr := DrOf(f, nRecDerec, nSteady, s, e, "rec_derec_steady", clicks).value;
    var cov := CovisiLayout(f, "steady", nRecDerec, s, e, -1, clicks).value;
    var p := BasicMusPropertiesOf(f, nRecDerec, nSteady, start, end, accuracy, mvc, enteredMvc, clicks).value;
    assert p.columns == ["MVC"] + ["MU_number"] + acc + th.columns + dr.columns + cov.0 + ["COV_steady"];
    assert ["MVC"] + ["MU_number"] == ["MVC", "MU_number"];
    assert th.columns == ["abs_RT", "abs_DERT", "rel_RT", "rel_DERT"];
    assert dr.columns == ["DR_rec", "DR_derec", "DR_start_steady", "DR_end_steady", "DR_all_steady", "DR_all"];
    assert CovisiLayout(f, "steady", nRecDerec, s, e, -1, clicks).Ok?;
    assert CovisiColumns("steady") == ["COVisi_steady", "COVisi_all"];
    assert cov.0 == CovisiColumns("steady");
  }
}
