/**
 * The older loaders and JSON layout (openhdemg/openfiles.py): binary
 * firings with a single-MU special case, MUPULSES read off the OTB binary
 * columns, the OTB reference signal, IED and raw signal lookups, and the
 * 11-entry JSON list without FILENAME, ACCURACY and EXTRAS.
 */
module OldOpenFiles {
  import opened Common
  import opened EmgRecord
  import Electrodes
  import Tools
  import opened OpenFiles
  import opened JsonFiles

  // ---------------------------------------------------------------------
  // `create_binary_firings`

  /**
   * What MUPULSES may hold: a list of per-MU pulse lists, or (for a DEMUSE
   * file with one MU) the flat pulse list of that MU.
   */
  datatype PyPulses = Flat(ps: seq<int>) | Nested(lists: seq<seq<int>>)

  function Lift(b: Result<Frame>): (r: Result<Option<Frame>>)
    ensures r.Ok? <==> b.Ok?
    ensures b.Ok? ==> r.value == Some(b.value)
    ensures b.Err? ==> r.error == b.error
  {
    if b.Err? then Err(b.error) else Ok(Some(b.value))
  }

  /**
   * One firing of the single-MU branch: `int(MUPULSES[position])` needs a
   * one-element array (TypeError otherwise), and `iloc` then needs a row.
   */
  function SingleMuFiring(x: seq<int>, len: nat): (r: Result<int>)
    ensures r.Ok? <==> |x| == 1 && Tools.RowInRange(x[0], len)
    ensures r.Ok? ==> r.value == x[0]
    ensures |x| != 1 ==> r == Err(TypeError)
    ensures |x| == 1 && !Tools.RowInRange(x[0], len) ==> r == Err(IndexError)
  {
    if |x| != 1 then Err(TypeError)
    else if !Tools.RowInRange(x[0], len) then Err(IndexError)
    else Ok(x[0])
  }

  function SingleMuSteps(ls: seq<seq<int>>, len: nat): (s: seq<Result<int>>)
    ensures |s| == |ls| && forall k :: 0 <= k < |ls| ==> s[k] == SingleMuFiring(ls[k], len)
  {
    seq(|ls|, k requires 0 <= k < |ls| => SingleMuFiring(ls[k], len))
  }

  /**
   * The older `create_binary_firings`.  With NUMBER_OF_MUS other than 1 it
   * builds one column per MU like the library version; a flat list then
   * makes `pd.DataFrame(MUPULSES[i])` fail on an integer (ValueError), or
   * index an empty list (IndexError).  With one MU, MUPULSES itself is
   * walked: a flat list gives its pulses, a nested list has each element
   * converted by `int()`.  A MUPULSES that is not a list gives NaN.
   */
  function OldBinaryFirings(len: int, n: int, mp: Option<PyPulses>): (r: Result<Option<Frame>>)
    ensures mp.None? ==> r == Ok(None)
    ensures mp.Some? && (len < 0 || n < 0) ==> r == Err(ValueError)
    ensures mp.Some? && len >= 0 && n >= 0 && r.Ok? ==>
      r.value.Some? && FrameOk(r.value.value) && r.value.value.rows == len && |r.value.value.cols| == n
    ensures mp.Some? && mp.value.Flat? && n >= 2 ==>
      r == Err(if len < 0 then ValueError else if |mp.value.ps| == 0 then IndexError else ValueError)
  {
    if mp.None? then Ok(None)
    else if len < 0 || n < 0 then Err(ValueError)
    else match mp.value
      case Nested(ls) =>
        if n != 1 then Lift(BinaryFirings(len, n, ls))
        else
          var heads := Collect(SingleMuSteps(ls, len));
          if heads.Err? then Err(heads.error) else Lift(BinaryFirings(len, 1, [heads.value]))
      case Flat(ps) =>
        if n == 0 then Lift(BinaryFirings(len, 0, []))
        else if n == 1 then Lift(BinaryFirings(len, 1, [ps]))
        else if |ps| == 0 then Err(IndexError)
        else Err(ValueError)
  }

  /** The loops of `create_binary_firings`. */
  method OldCreateBinaryFirings(len: int, n: int, mp: Option<PyPulses>) returns (r: Result<Option<Frame>>)
    ensures r == OldBinaryFirings(len, n, mp)
  {
    if mp.None? {
      return Ok(None);
    }
    if len < 0 || n < 0 {
      return Err(ValueError);
    }
    match mp.value {
      case Nested(ls) =>
        if n != 1 {
          var b := CallBinaryFirings(len, n, ls);
          return Lift(b);
        }
        var steps := SingleMuSteps(ls, len);
        var heads: seq<int> := [];
        for k := 0 to |ls|
          invariant Collect(steps[..k]) == Ok(heads)
        {
          CollectStep(steps, k);
          var s := SingleMuFiring(ls[k], len);
          if s.Err? {
            CollectPrefixErr(steps, k + 1);
            return Err(s.error);
          }
          heads := heads + [s.value];
        }
        assert steps[..|ls|] == steps;
        var b := CallBinaryFirings(len, 1, [heads]);
        return Lift(b);
      case Flat(ps) =>
        if n == 0 {
          var b := CallBinaryFirings(len, 0, []);
          return Lift(b);
        } else if n == 1 {
          var b := CallBinaryFirings(len, 1, [ps]);
          return Lift(b);
        } else if |ps| == 0 {
          return Err(IndexError);
        }
        return Err(ValueError);
    }
  }

  /** The nested list of several MUs reads back through its binary columns. */
  lemma OldBinaryRoundTrip(len: nat, mp: seq<seq<int>>)
    requires |mp| != 1
    requires forall mu :: 0 <= mu < |mp| ==> StrictlyIncreasing(mp[mu])
    requires forall mu, k :: 0 <= mu < |mp| && 0 <= k < |mp[mu]| ==> 0 <= mp[mu][k] < len
    ensures OldBinaryFirings(len, |mp|, Some(Nested(mp))).Ok?
    ensures forall mu :: 0 <= mu < |mp| ==>
      Tools.FiringSamples(OldBinaryFirings(len, |mp|, Some(Nested(mp))).value.value.cols[mu]) == mp[mu]
  {
    BinaryReadsBack(len, mp);
  }

  /** DEMUSE with one MU: the flat pulse list gives one column that reads back as that list. */
  lemma OldSingleMuFlatRoundTrip(len: nat, ps: seq<int>)
    requires StrictlyIncreasing(ps)
    requires forall k :: 0 <= k < |ps| ==> 0 <= ps[k] < len
    ensures OldBinaryFirings(len, 1, Some(Flat(ps))).Ok?
    ensures Tools.FiringSamples(OldBinaryFirings(len, 1, Some(Flat(ps))).value.value.cols[0]) == ps
  {
    BinaryReadsBack(len, [ps]);
  }

  /** A nested list for one MU is only accepted when every element is a single pulse. */
  lemma OldSingleMuNestedRejected(len: nat, ls: seq<seq<int>>, k: nat)
    requires k < |ls| && |ls[k]| != 1
    requires forall i :: 0 <= i < k ==> |ls[i]| == 1 && Tools.RowInRange(ls[i][0], len)
    ensures OldBinaryFirings(len, 1, Some(Nested(ls))) == Err(TypeError)
  {
    var steps := SingleMuSteps(ls, len);
    var i := 0;
    while i < k
      invariant 0 <= i <= k
      invariant Collect(steps[..i]).Ok?
    {
      CollectStep(steps, i);
      i := i + 1;
    }
    CollectStep(steps, k);
    CollectPrefixErr(steps, k + 1);
  }

  // ---------------------------------------------------------------------
  // `get_otb_mupulses`

  /** The row labels whose value is strictly positive (NaN is not), in order. */
  function PositiveSamples(col: Column): (r: seq<int>)
    ensures forall k :: 0 <= k < |r| ==> 0 <= r[k] < |col| && col[r[k]].Num? && col[r[k]].r > 0.0
    ensures forall t :: 0 <= t < |col| && col[t].Num? && col[t].r > 0.0 ==> t in r
    ensures StrictlyIncreasing(r)
  {
    if col == [] then []
    else
      var rest := PositiveSamples(col[..|col| - 1]);
      assert forall t :: 0 <= t < |col| - 1 ==> col[..|col| - 1][t] == col[t];
      if col[|col| - 1].Num? && col[|col| - 1].r > 0.0 then rest + [|col| - 1] else rest
  }

  /**
   * MUPULSES from the binary columns: `[[] for _ in range(n)]`, then entry i
   * of every column i of the table; a column beyond the n lists raises
   * IndexError.
   */
  function OldOtbMupulses(binary: Frame, n: int): (r: Result<seq<seq<int>>>)
    ensures r.Err? <==> |binary.cols| > Max(n, 0)
    ensures r.Err? ==> r.error == IndexError
    ensures r.Ok? ==> |r.value| == Max(n, 0)
    ensures r.Ok? ==> forall i :: 0 <= i < |binary.cols| ==> r.value[i] == PositiveSamples(binary.cols[i])
    ensures r.Ok? ==> forall i :: |binary.cols| <= i < Max(n, 0) ==> r.value[i] == []
  {
    var m := Max(n, 0);
    if |binary.cols| > m then Err(IndexError)
    else Ok(seq(m, i requires 0 <= i < m => if i < |binary.cols| then PositiveSamples(binary.cols[i]) else []))
  }

  /** The two loops of `get_otb_mupulses`. */
  method GetOtbMupulses(binary: Frame, n: int) returns (r: Result<seq<seq<int>>>)
    ensures r == OldOtbMupulses(binary, n)
  {
    var m := Max(n, 0);
    var mp: seq<seq<int>> := seq(m, _ => []);
    for i := 0 to |binary.cols|
      invariant |mp| == m
      invariant i <= m || i == 0
      invariant forall j :: 0 <= j < i ==> mp[j] == PositiveSamples(binary.cols[j])
      invariant forall j :: i <= j < m ==> mp[j] == []
    {
      var fired := PositiveRows(binary.cols[i]);
      if i >= m {
        assert OldOtbMupulses(binary, n).Err?;
        return Err(IndexError);
      }
      mp := mp[i := fired];
    }
    if |binary.cols| > m {
      return Err(IndexError);
    }
    assert mp == OldOtbMupulses(binary, n).value;
    r := Ok(mp);
  }

  /** The inner loop of `get_otb_mupulses`: the rows of one column holding a value above 0. */
  method PositiveRows(col: Column) returns (fired: seq<int>)
    ensures fired == PositiveSamples(col)
  {
    fired := [];
    for t := 0 to |col|
      invariant fired == PositiveSamples(col[..t])
    {
      PositiveStep(col, t);
      if col[t].Num? && col[t].r > 0.0 {
        fired := fired + [t];
      }
    }
    assert col[..|col|] == col;
  }

  lemma PositiveStep(col: Column, t: nat)
    requires t < |col|
    ensures PositiveSamples(col[..t + 1])
      == PositiveSamples(col[..t]) + (if col[t].Num? && col[t].r > 0.0 then [t] else [])
  {
    assert col[..t + 1][..t] == col[..t];
  }

  /** On a 0/1 column, "greater than zero" and "equal to one" pick the same samples. */
  lemma {:induction false} PositiveIsFiring(col: Column)
    requires forall t :: 0 <= t < |col| ==> col[t] == Num(0.0) || col[t] == Num(1.0)
    ensures PositiveSamples(col) == Tools.FiringSamples(col)
  {
    if col != [] {
      var init := col[..|col| - 1];
      assert forall t :: 0 <= t < |init| ==> init[t] == col[t];
      PositiveIsFiring(init);
    }
  }

  /** MUPULSES read off a binary table built from increasing in-range pulses are those pulses. */
  lemma OldMupulsesOfBinary(len: nat, mp: seq<seq<int>>)
    requires forall mu :: 0 <= mu < |mp| ==> StrictlyIncreasing(mp[mu])
    requires forall mu, k :: 0 <= mu < |mp| && 0 <= k < |mp[mu]| ==> 0 <= mp[mu][k] < len
    ensures BinaryFirings(len, |mp|, mp).Ok?
    ensures OldOtbMupulses(BinaryFirings(len, |mp|, mp).value, |mp|) == Ok(mp)
  {
    BinaryReadsBack(len, mp);
    var b := BinaryFirings(len, |mp|, mp).value;
    forall mu | 0 <= mu < |mp| ensures PositiveSamples(b.cols[mu]) == mp[mu] {
      PositiveIsFiring(b.cols[mu]);
    }
    assert OldOtbMupulses(b, |mp|).value == mp;
  }

  // ---------------------------------------------------------------------
  // `get_otb_refsignal`, `get_otb_ied`, `get_otb_rawsignal`

  /** `v == True`: the integer 1 compares equal as well. */
  predicate EqTrue(v: PyValue)
  {
    v == PyBool(true) || v == PyInt(1)
  }

  /** The columns matching `pattern`, or NaN (None) when there are none. */
  function RefOrNaN(t: Table, pattern: string): (r: Option<Frame>)
    requires TableOk(t)
    ensures r.None? <==> Empty(Filter(t, [pattern]))
    ensures r.Some? ==> r.value == Data(Filter(t, [pattern]))
  {
    var s := Filter(t, [pattern]);
    if Empty(s) then None else Some(Data(s))
  }

  predicate ValidRefMode(v: PyValue)
  {
    v == PyStr("filtered") || v == PyStr("unfiltered")
  }

  /**
   * The older `get_otb_refsignal` as written: both asserts run before
   * anything else, so `refsig[1]` is read even for `[False]`; "filtered" is
   * the "performed path" column, "unfiltered" the "acquired data" column;
   * not requested or not found is NaN.
   */
  function OldOtbRefSignal(t: Table, refsig: seq<PyValue>): (r: Result<Option<Frame>>)
    requires TableOk(t)
    ensures |refsig| == 0 ==> r == Err(IndexError)
    ensures |refsig| >= 1 && !InTrueFalse(refsig[0]) ==> r == Err(AssertionError)
    ensures |refsig| == 1 && InTrueFalse(refsig[0]) ==> r == Err(IndexError)
    ensures |refsig| >= 2 && InTrueFalse(refsig[0]) ==> (r.Ok? <==> ValidRefMode(refsig[1]))
    ensures r.Ok? && !EqTrue(refsig[0]) ==> r.value.None?
    ensures r.Ok? && EqTrue(refsig[0]) ==>
      r.value == RefOrNaN(t, if refsig[1] == PyStr("filtered") then "performed path" else "acquired data")
  {
    if |refsig| == 0 then Err(IndexError)
    else if !InTrueFalse(refsig[0]) then Err(AssertionError)
    else if |refsig| == 1 then Err(IndexError)
    else if !ValidRefMode(refsig[1]) then Err(AssertionError)
    else if !EqTrue(refsig[0]) then Ok(None)
    else if refsig[1] == PyStr("filtered") then Ok(RefOrNaN(t, "performed path"))
    else Ok(RefOrNaN(t, "acquired data"))
  }

  /** The call shown in the docstring, `refsig=[False]`, fails on the second assert. */
  lemma OldRefSignalDocumentedFalseFails(t: Table)
    requires TableOk(t)
    ensures OldOtbRefSignal(t, [PyBool(false)]) == Err(IndexError)
  {
  }

  /**
   * The intended contract: a reference signal that is not requested needs
   * no mode, so the mode assert only applies to a request.
   */
  function OldOtbRefSignalIntended(t: Table, refsig: seq<PyValue>): (r: Result<Option<Frame>>)
    requires TableOk(t)
    ensures |refsig| >= 1 && InTrueFalse(refsig[0]) && !EqTrue(refsig[0]) ==> r == Ok(None)
    ensures |refsig| >= 2 && (EqTrue(refsig[0]) || ValidRefMode(refsig[1])) ==> r == OldOtbRefSignal(t, refsig)
  {
    if |refsig| >= 1 && InTrueFalse(refsig[0]) && !EqTrue(refsig[0]) then Ok(None)
    else OldOtbRefSignal(t, refsig)
  }

  /** With the intended contract the documented `[False]` loads no reference signal. */
  lemma OldRefSignalIntendedFalse(t: Table)
    requires TableOk(t)
    ensures OldOtbRefSignalIntended(t, [PyBool(false)]) == Ok(None)
    ensures OldOtbRefSignalIntended(t, [PyInt(0)]) == Ok(None)
  {
  }

  /**
   * The older `get_otb_ied`: the first grid code, in dict order, that the
   * printed column names mention (`PrintedNames`), with its IED cut to an
   * `int`; the function falls off its end (None) when no code is mentioned.
   */
  function OldOtbIed(t: Table): (ied: Option<int>)
    ensures ied.None? <==> GridOf(t.names).None?
  {
    var c := GridOf(t.names);
    if c.None? then None else Some(TruncToZero(Electrodes.OtbElectrodesIed[c.value]))
  }

  /** The older IED is the library IED truncated toward zero. */
  lemma OldIedTruncatesLibrary(t: Table)
    ensures OldOtbIed(t).None? <==> OtbIed(t).NaN?
    ensures OldOtbIed(t).Some? ==> OldOtbIed(t).value == TruncToZero(OtbIed(t).r)
    ensures OldOtbIed(t).Some? ==> OldOtbIed(t).value as real <= OtbIed(t).r < OldOtbIed(t).value as real + 1.0
  {
    var c := GridOf(t.names);
    if c.Some? {
      assert Electrodes.OtbElectrodesIed[c.value] >= 0.0;
    }
  }

  /** A 2.5 mm grid (GR100ML1305) is recorded with IED 2 by the older loader, 2.5 by the library. */
  lemma OldIedOfHalfMillimetreGrid(t: Table)
    requires t.names == ["GR100ML1305"]
    ensures OldOtbIed(t) == Some(2)
    ensures OtbIed(t) == Num(2.5)
  {
    HalfMillimetreGridFound(t.names);
    HalfMillimetreIed();
    var v := TruncToZero(2.5);
    assert v as real <= 2.5 < v as real + 1.0;
  }

  lemma HalfMillimetreIed()
    ensures Electrodes.OtbElectrodesIed["GR100ML1305"] == 2.5
  {
    var m := Electrodes.OtbElectrodesIed;
    assert |"GR100ML1305"| == 11;
  }

  /** GR100ML1305 is the first code of the tuple such a column name mentions. */
  lemma HalfMillimetreGridFound(names: seq<string>)
    requires names == ["GR100ML1305"]
    ensures GridOf(names) == Some("GR100ML1305")
  {
    var codes := Electrodes.OtbElectrodesTuple;
    assert PrintedNames(names) == names;
    assert StartsWith(names[0], "GR100ML1305");
    assert Mentioned(names, codes[2]) by {
      assert codes[2] == "GR100ML1305";
    }
    assert !Mentioned(names, codes[0]) && !Mentioned(names, codes[1]) by {
      EarlierCodeAbsent(codes[0]);
      EarlierCodeAbsent(codes[1]);
    }
    assert FirstCode(names, codes[2..]) == Some("GR100ML1305") by {
      assert codes[2..][0] == codes[2];
    }
    assert FirstCode(names, codes[1..]) == FirstCode(names, codes[2..]) by {
      assert codes[1..][0] == codes[1] && codes[1..][1..] == codes[2..];
    }
    assert FirstCode(names, codes) == FirstCode(names, codes[1..]);
  }

  /** The two codes before GR100ML1305 in the tuple do not occur in its name. */
  lemma EarlierCodeAbsent(code: string)
    requires code == "GR04MM1305" || code == "GR08MM1305"
    ensures forall i :: 0 <= i < |["GR100ML1305"]| ==> !Contains(["GR100ML1305"][i], code)
  {
    var h := "GR100ML1305";
    assert h[..|code|][3] != code[3];
    assert h[1..][..|code|][0] != code[0];
    assert h[1..][1..] == h[2..];
    ShortNotContained(h[2..], code);
  }

  lemma {:induction false} ShortNotContained(h: string, needle: string)
    requires |h| < |needle|
    ensures !Contains(h, needle)
  {
    if |h| > 0 {
      ShortNotContained(h[1..], needle);
    }
  }

  /**
   * The older `get_otb_rawsignal`: the grid is looked up among the columns
   * left after dropping the four decomposition/reference patterns; with no
   * grid `expectedchannels` is never bound (UnboundLocalError, a NameError),
   * a channel-count mismatch raises a bare Exception.
   */
  function OldOtbRawSignal(t: Table): (r: Result<Frame>)
    requires TableOk(t)
    ensures GridOf(Drop(t, BasePattern).names).None? ==> r == Err(NameError)
    ensures GridOf(Drop(t, BasePattern).names).Some? && r.Err? ==> r.error == GenericException
    ensures r.Ok? ==> r.value == Data(Drop(t, BasePattern))
  {
    var e := Drop(t, BasePattern);
    var c := GridOf(e.names);
    if c.None? then Err(NameError)
    else if |e.cols| != Electrodes.OtbElectrodesNelectrodes[c.value] then Err(GenericException)
    else Ok(Data(e))
  }

  /** The older and the library raw-signal lookups accept the same tables and return the same signal. */
  lemma OldRawSignalAgrees(t: Table)
    requires TableOk(t)
    ensures OldOtbRawSignal(t).Ok? <==> OtbRawFrom(t, BasePattern).Ok?
    ensures OldOtbRawSignal(t).Ok? ==> OldOtbRawSignal(t).value == OtbRawFrom(t, BasePattern).value
  {
  }

  // ---------------------------------------------------------------------
  // The 11-entry JSON layout

  /**
   * The older emgfile dict: REF_SIGNAL may be NaN (None), FSAMP and IED are
   * `int`s and IED is absent (None) for an unrecognised OTB grid.
   */
  datatype OldEmgFile = OldEmgFile(
    source: string,
    rawSignal: Frame,
    refSignal: Option<Frame>,
    pnr: Frame,
    ipts: Frame,
    mupulses: seq<seq<int>>,
    fsamp: int,
    ied: Option<int>,
    emgLength: int,
    numberOfMus: int,
    binary: Frame)

  datatype OldRefsig = OldRefsig(source: string, fsamp: int, refSignal: Option<Frame>)

  datatype OldRecord = OldFull(f: OldEmgFile) | OldRefOnly(r: OldRefsig)

  function OldSourceOf(d: OldRecord): string
  {
    match d
    case OldFull(f) => f.source
    case OldRefOnly(r) => r.source
  }

  function OldRefOf(d: OldRecord): Option<Frame>
  {
    match d
    case OldFull(f) => f.refSignal
    case OldRefOnly(r) => r.refSignal
  }

  const OldFullSources: seq<string> := ["DEMUSE", "OTB"]
  const OldRefsigSource: string := "OTB_refsig"

  const OldFullKeys: seq<string> := ["SOURCE", "RAW_SIGNAL", "REF_SIGNAL", "PNR", "IPTS", "MUPULSES", "FSAMP", "IED",
                                     "EMG_LENGTH", "NUMBER_OF_MUS", "BINARY_MUS_FIRING"]

  predicate OldFullLayout(items: seq<Item>)
  {
    |items| >= 11
    && (forall k :: 0 <= k < 11 && k != 5 ==> items[k].Keyed? && items[k].key == OldFullKeys[k])
    && items[5].Bare?
  }

  function OldIedValue(ied: Option<int>): JValue
  {
    if ied.None? then JNull else JInt(ied.value)
  }

  function OldFullItems(f: OldEmgFile, ref: Frame): seq<Item>
  {
    [ Keyed("SOURCE", JStr(f.source)), Keyed("RAW_SIGNAL", JTable(f.rawSignal)), Keyed("REF_SIGNAL", JTable(ref)),
      Keyed("PNR", JTable(f.pnr)), Keyed("IPTS", JTable(f.ipts)), Bare(JPulses(f.mupulses)),
      Keyed("FSAMP", JInt(f.fsamp)), Keyed("IED", OldIedValue(f.ied)), Keyed("EMG_LENGTH", JInt(f.emgLength)),
      Keyed("NUMBER_OF_MUS", JInt(f.numberOfMus)), Keyed("BINARY_MUS_FIRING", JTable(f.binary)) ]
  }

  /**
   * The older `save_json_emgfile`: 11 entries for DEMUSE and OTB, 3 for
   * "OTB_refsig", a bare Exception otherwise.  Keys are read before the
   * tables are converted, so a reference-signal dict labelled DEMUSE/OTB
   * raises KeyError, and a NaN REF_SIGNAL (no `to_json`) AttributeError.
   */
  function OldSaveJson(d: OldRecord): (r: Result<seq<Item>>)
    ensures OldSourceOf(d) in OldFullSources && d.OldRefOnly? ==> r == Err(KeyError)
    ensures OldSourceOf(d) in OldFullSources && d.OldFull? ==>
      (r.Ok? <==> d.f.refSignal.Some?) && (r.Err? ==> r.error == AttributeError)
    ensures OldSourceOf(d) in OldFullSources && r.Ok? ==> |r.value| == 11 && OldFullLayout(r.value)
    ensures OldSourceOf(d) == OldRefsigSource ==> (r.Ok? <==> OldRefOf(d).Some?)
    ensures OldSourceOf(d) == OldRefsigSource && r.Ok? ==>
      |r.value| == 3 && r.value[1].Keyed? && r.value[1].key == "FSAMP"
      && r.value[2] == Keyed("REF_SIGNAL", JTable(OldRefOf(d).value))
    ensures OldSourceOf(d) !in OldFullSources && OldSourceOf(d) != OldRefsigSource ==> r == Err(GenericException)
    ensures r.Ok? ==> r.value[0] == Keyed("SOURCE", JStr(OldSourceOf(d)))
  {
    var source := OldSourceOf(d);
    if source in OldFullSources then
      match d
      case OldRefOnly(_) => Err(KeyError)
      case OldFull(f) => if f.refSignal.None? then Err(AttributeError) else Ok(OldFullItems(f, f.refSignal.value))
    else if source == OldRefsigSource then
      var fsamp := match d case OldFull(f) => f.fsamp case OldRefOnly(s) => s.fsamp;
      var ref := OldRefOf(d);
      if ref.None? then Err(AttributeError)
      else Ok([Keyed("SOURCE", JStr(source)), Keyed("FSAMP", JInt(fsamp)), Keyed("REF_SIGNAL", JTable(ref.value))])
    else
      Err(GenericException)
  }

  /** Positions 1..4 of an older full file: RAW_SIGNAL, REF_SIGNAL, PNR and IPTS, in order. */
  function OldFullTables(items: seq<Item>): (r: Result<(Frame, Frame, Frame, Frame)>)
    ensures r.Ok? ==> |items| >= 5 && forall k :: 1 <= k < 5 ==> items[k].Keyed? && items[k].key == OldFullKeys[k]
  {
    var raw := TableField(items, 1, "RAW_SIGNAL");
    if raw.Err? then Err(raw.error) else
    var ref := TableField(items, 2, "REF_SIGNAL");
    if ref.Err? then Err(ref.error) else
    var pnr := TableField(items, 3, "PNR");
    if pnr.Err? then Err(pnr.error) else
    var ipts := TableField(items, 4, "IPTS");
    if ipts.Err? then Err(ipts.error) else
    Ok((raw.value, ref.value, pnr.value, ipts.value))
  }

  /** Positions 6..9 of an older full file: FSAMP, IED, EMG_LENGTH and NUMBER_OF_MUS, each through `int()`. */
  function OldFullScalars(items: seq<Item>): (r: Result<(int, int, int, int)>)
    ensures r.Ok? ==> |items| >= 10 && forall k :: 6 <= k < 10 ==> items[k].Keyed? && items[k].key == OldFullKeys[k]
  {
    var fsamp := IntField(items, 6, "FSAMP");
    if fsamp.Err? then Err(fsamp.error) else
    var ied := IntField(items, 7, "IED");
    if ied.Err? then Err(ied.error) else
    var len := IntField(items, 8, "EMG_LENGTH");
    if len.Err? then Err(len.error) else
    var n := IntField(items, 9, "NUMBER_OF_MUS");
    if n.Err? then Err(n.error) else
    Ok((fsamp.value, ied.value, len.value, n.value))
  }

  /** The DEMUSE/OTB branch of the older `emg_from_json`, reading positions 1..10 in order. */
  function OldLoadFull(items: seq<Item>, source: string): (r: Result<OldRecord>)
    ensures r.Ok? ==> r.value.OldFull? && r.value.f.source == source
    ensures r.Ok? ==> r.value.f.refSignal.Some? && r.value.f.ied.Some?
    ensures r.Ok? ==> (|items| >= 11 && items[5].Bare?
                       && forall k :: 1 <= k < 11 && k != 5 ==> items[k].Keyed? && items[k].key == OldFullKeys[k])
  {
    var tables := OldFullTables(items);
    if tables.Err? then Err(tables.error) else
    var (raw, ref, pnr, ipts) := tables.value;
    var mp := PulsesAt(items, 5);
    if mp.Err? then Err(mp.error) else
    var scalars := OldFullScalars(items);
    if scalars.Err? then Err(scalars.error) else
    var (fsamp, ied, len, n) := scalars.value;
    var bin := TableField(items, 10, "BINARY_MUS_FIRING");
    if bin.Err? then Err(bin.error) else
    Ok(OldFull(OldEmgFile(source, raw, Some(ref), pnr, ipts, mp.value, fsamp, Some(ied), len, n, bin.value)))
  }

  /** The leading SOURCE key together with what `OldLoadFull` checks make the older full layout. */
  lemma OldFullLayoutFromHead(items: seq<Item>)
    requires |items| >= 11 && items[5].Bare? && items[0].Keyed? && items[0].key == "SOURCE"
    requires forall k :: 1 <= k < 11 && k != 5 ==> items[k].Keyed? && items[k].key == OldFullKeys[k]
    ensures OldFullLayout(items)
  {
  }

  /**
   * The older `emg_from_json`: SOURCE at position 0, then positions 1..10
   * for DEMUSE/OTB (FSAMP, IED, EMG_LENGTH and NUMBER_OF_MUS through
   * `int()`) or 1..2 for "OTB_refsig"; any other source raises.
   */
  function OldLoadJson(items: seq<Item>): (r: Result<OldRecord>)
    ensures |items| == 0 ==> r == Err(IndexError)
    ensures r.Ok? ==> items[0] == Keyed("SOURCE", JStr(OldSourceOf(r.value)))
    ensures r.Ok? && r.value.OldFull? ==> OldSourceOf(r.value) in OldFullSources && OldFullLayout(items)
    ensures r.Ok? && r.value.OldRefOnly? ==> OldSourceOf(r.value) == OldRefsigSource
    ensures r.Ok? ==> OldRefOf(r.value).Some?
    ensures r.Ok? && r.value.OldFull? ==> r.value.f.ied.Some?
    ensures (|items| >= 1 && items[0].Keyed? && items[0].key == "SOURCE" && items[0].value.JStr?
             && items[0].value.s !in OldFullSources && items[0].value.s != OldRefsigSource) ==> r == Err(GenericException)
  {
    var s0 := Field(items, 0, "SOURCE");
    if s0.Err? then Err(s0.error)
    else if s0.value.JStr? && s0.value.s in OldFullSources then
      var r := OldLoadFull(items, s0.value.s);
      assert r.Ok? ==> OldFullLayout(items) by { if r.Ok? { OldFullLayoutFromHead(items); } }
      r
    else if s0.value == JStr(OldRefsigSource) then
      var fsamp := IntField(items, 1, "FSAMP");
      if fsamp.Err? then Err(fsamp.error) else
      var ref := TableField(items, 2, "REF_SIGNAL");
      if ref.Err? then Err(ref.error) else
      Ok(OldRefOnly(OldRefsig(OldRefsigSource, fsamp.value, Some(ref.value))))
    else Err(GenericException)
  }

  /** The older file read back from what the older save wrote. */
  function OldReloaded(f: OldEmgFile): (g: OldEmgFile)
    requires f.refSignal.Some?
    ensures g == f <==> Persistable(f.rawSignal) && Persistable(f.refSignal.value) && Persistable(f.pnr)
                        && Persistable(f.ipts) && Persistable(f.binary)
  {
    f.(rawSignal := Reloaded(f.rawSignal), refSignal := Some(Reloaded(f.refSignal.value)), pnr := Reloaded(f.pnr),
       ipts := Reloaded(f.ipts), binary := Reloaded(f.binary))
  }

  /**
   * Save then load: a file whose IED is missing is written as `null` and
   * cannot be read back (`int(None)`); otherwise the file comes back with
   * its tables passed through `to_json()`.
   */
  lemma OldSaveLoadFull(f: OldEmgFile)
    requires f.source in OldFullSources && f.refSignal.Some?
    ensures OldSaveJson(OldFull(f)).Ok?
    ensures f.ied.None? ==> OldLoadJson(OldSaveJson(OldFull(f)).value) == Err(TypeError)
    ensures f.ied.Some? ==> OldLoadJson(OldSaveJson(OldFull(f)).value) == Ok(OldFull(OldReloaded(f)))
  {
    var items := OldFullItems(f, f.refSignal.value);
    assert OldSaveJson(OldFull(f)) == Ok(items);
    assert TableField(items, 1, "RAW_SIGNAL") == Ok(Reloaded(f.rawSignal));
    assert TableField(items, 10, "BINARY_MUS_FIRING") == Ok(Reloaded(f.binary));
    if f.ied.None? {
      assert IntField(items, 7, "IED") == Err(TypeError);
    } else {
      assert IntField(items, 7, "IED") == Ok(f.ied.value);
    }
  }

  /** The older round trip is exact for files with a reference signal, an IED and tables that survive `to_json()`. */
  lemma OldFullRoundTrip(f: OldEmgFile)
    requires f.source in OldFullSources && f.refSignal.Some?
    ensures OldLoadJson(OldSaveJson(OldFull(f)).value) == Ok(OldFull(f)) <==>
      f.ied.Some? && Persistable(f.rawSignal) && Persistable(f.refSignal.value) && Persistable(f.pnr)
      && Persistable(f.ipts) && Persistable(f.binary)
  {
    OldSaveLoadFull(f);
  }

  /** The older reference-signal file round-trips up to `to_json()` of its table. */
  lemma OldRefsigRoundTrip(s: OldRefsig)
    requires s.source == OldRefsigSource && s.refSignal.Some?
    ensures OldLoadJson(OldSaveJson(OldRefOnly(s)).value)
      == Ok(OldRefOnly(s.(refSignal := Some(Reloaded(s.refSignal.value)))))
  {
    var items := [Keyed("SOURCE", JStr(s.source)), Keyed("FSAMP", JInt(s.fsamp)),
                  Keyed("REF_SIGNAL", JTable(s.refSignal.value))];
    assert OldSaveJson(OldRefOnly(s)) == Ok(items);
    assert IntField(items, 1, "FSAMP") == Ok(s.fsamp);
  }

  /** The library loader cannot read an older file: position 1 does not hold FILENAME. */
  lemma OldFileUnreadableByLibrary(d: OldRecord)
    requires OldSaveJson(d).Ok?
    ensures LoadJson(OldSaveJson(d).value) == Err(KeyError)
  {
    var items := OldSaveJson(d).value;
    assert items[1].Keyed? && items[1].key != "FILENAME";
  }
}
