/**
 * Firing-train tools of the library: click ordering, the binary firing
 * matrix, resizing, instantaneous discharge rate, deleting and sorting MUs,
 * and the reference-signal helpers (offset, MVC, RFD).
 */
module Tools {
  import opened Common
  import opened EmgRecord

  // ---------------------------------------------------------------------
  // showselect: ordering of the clicked x-positions

  predicate Ascending(s: seq<real>)
  {
    forall i, j :: 0 <= i < j < |s| ==> s[i] <= s[j]
  }

  /** Insert `x` into the ascending sequence `s`. */
  function InsertReal(x: real, s: seq<real>): (r: seq<real>)
    ensures multiset(r) == multiset(s) + multiset{x}
    ensures |r| == |s| + 1
  {
    if s == [] then [x]
    else if x <= s[0] then [x] + s
    else
      assert s == [s[0]] + s[1..];
      [s[0]] + InsertReal(x, s[1..])
  }

  lemma {:induction false} InsertRealAscending(x: real, s: seq<real>)
    requires Ascending(s)
    ensures Ascending(InsertReal(x, s))
  {
    if s != [] && x > s[0] {
      var rest := InsertReal(x, s[1..]);
      InsertRealAscending(x, s[1..]);
      forall i | 0 <= i < |rest| ensures s[0] <= rest[i] {
        assert rest[i] in multiset(rest);
        assert rest[i] in multiset(s[1..]) || rest[i] == x;
        if rest[i] != x {
          var k :| 0 <= k < |s[1..]| && s[1..][k] == rest[i];
          assert s[1..][k] == s[k + 1];
        }
      }
      assert InsertReal(x, s) == [s[0]] + rest;
    }
  }

  /** Python's `list.sort()` on reals. */
  function SortReals(s: seq<real>): (r: seq<real>)
    ensures multiset(r) == multiset(s)
    ensures |r| == |s|
  {
    if s == [] then []
    else
      assert s == s[..|s| - 1] + [s[|s| - 1]];
      InsertReal(s[|s| - 1], SortReals(s[..|s| - 1]))
  }

  lemma {:induction false} SortRealsAscending(s: seq<real>)
    ensures Ascending(SortReals(s))
  {
    if s != [] {
      SortRealsAscending(s[..|s| - 1]);
      InsertRealAscending(s[|s| - 1], SortReals(s[..|s| - 1]));
    }
  }

  lemma RoundMonotone(x: real, y: real)
    requires x <= y
    ensures RoundHalfEven(x) <= RoundHalfEven(y)
  {
  }

  /** Each rounded entry of `r` is the rounding of some click. */
  predicate RoundedClicks(r: seq<int>, clicks: seq<real>)
  {
    forall i :: 0 <= i < |r| ==> exists j :: 0 <= j < |clicks| && r[i] == RoundHalfEven(clicks[j])
  }

  /** The four-click branch: sort the x-positions, then round them. */
  function OrderFour(clicks: seq<real>): (r: seq<int>)
    requires |clicks| == 4
    ensures |r| == 4 && NonDecreasing(r) && RoundedClicks(r, clicks)
  {
    var p := SortReals(clicks);
    SortRealsAscending(clicks);
    RoundMonotone(p[0], p[1]);
    RoundMonotone(p[1], p[2]);
    RoundMonotone(p[2], p[3]);
    var r := [RoundHalfEven(p[0]), RoundHalfEven(p[1]), RoundHalfEven(p[2]), RoundHalfEven(p[3])];
    forall i | 0 <= i < 4 ensures exists j :: 0 <= j < |clicks| && r[i] == RoundHalfEven(clicks[j]) {
      assert p[i] in multiset(p);
      ClickRounded(p[i], clicks);
    }
    r
  }

  lemma ClickRounded(x: real, clicks: seq<real>)
    requires x in multiset(clicks)
    ensures exists j :: 0 <= j < |clicks| && RoundHalfEven(x) == RoundHalfEven(clicks[j])
  {
    assert x in clicks;
    var j :| 0 <= j < |clicks| && clicks[j] == x;
  }

  /**
   * `showselect` after the clicks were captured: the x-positions of the
   * clicks are rounded, and ordered for two and four clicks.
   */
  function ShowSelect(nclic: int, clicks: seq<real>): (r: Result<seq<int>>)
    ensures nclic != |clicks| ==> r == Err(ValueError)
    ensures nclic == |clicks| ==> (r.Ok? <==> nclic in {1, 2, 4})
    ensures r.Ok? ==> |r.value| == nclic && NonDecreasing(r.value) && RoundedClicks(r.value, clicks)
    ensures r.Ok? && nclic == 2 ==>
      multiset(r.value) == multiset{RoundHalfEven(clicks[0]), RoundHalfEven(clicks[1])}
  {
    if nclic != |clicks| then Err(ValueError)
    else if nclic == 1 then Ok([RoundHalfEven(clicks[0])])
    else if nclic == 2 then
      if clicks[0] < clicks[1] then
        RoundMonotone(clicks[0], clicks[1]);
        Ok([RoundHalfEven(clicks[0]), RoundHalfEven(clicks[1])])
      else
        RoundMonotone(clicks[1], clicks[0]);
        Ok([RoundHalfEven(clicks[1]), RoundHalfEven(clicks[0])])
    else if nclic == 4 then Ok(OrderFour(clicks))
    else Err(ValueError)
  }

  /** The start and end sample of a two-click selection. */
  function SelectedArea(clicks: seq<real>): (r: Result<(int, int)>)
    ensures r.Ok? <==> |clicks| == 2
    ensures r.Ok? ==> r.value.0 <= r.value.1
  {
    var s := ShowSelect(2, clicks);
    if s.Ok? then Ok((s.value[0], s.value[1])) else Err(s.error)
  }

  // ---------------------------------------------------------------------
  // create_binary_firings

  /** The row an `iloc[p]` assignment writes to, for p in [-n, n). */
  function WrapRow(p: int, n: nat): int
  {
    if p < 0 then p + n else p
  }

  /** `iloc[p]` is a valid position of a column of length `n`. */
  predicate RowInRange(p: int, n: nat)
  {
    -(n as int) <= p < n
  }

  /** Some pulse of `ps` lands on sample `t`. */
  predicate FiresAt(ps: seq<int>, n: nat, t: int)
  {
    exists k :: 0 <= k < |ps| && WrapRow(ps[k], n) == t
  }

  /** Some MU below `numberOfMus` has a pulse outside the recording, or is missing. */
  predicate BinaryIndexError(emgLength: nat, numberOfMus: nat, mupulses: seq<seq<int>>)
  {
    numberOfMus > |mupulses|
    || exists mu, k :: 0 <= mu < numberOfMus && mu < |mupulses| && 0 <= k < |mupulses[mu]|
         && !RowInRange(mupulses[mu][k], emgLength)
  }

  /**
   * `create_binary_firings`: a zero matrix of emg_length rows and one column
   * per MU, with 1 at every firing of that MU.  A MUPULSES that is not a list
   * gives NaN (`None` here); negative sizes and pulses outside the matrix make
   * numpy/pandas raise.
   */
  method CreateBinaryFirings(emgLength: int, numberOfMus: int, mupulses: Option<seq<seq<int>>>)
    returns (r: Result<Option<Frame>>)
    ensures mupulses.None? ==> r == Ok(None)
    ensures mupulses.Some? && r.Ok? ==> r.value.Some?
    ensures mupulses.Some? && (emgLength < 0 || numberOfMus < 0) ==> r == Err(ValueError)
    ensures mupulses.Some? && emgLength >= 0 && numberOfMus >= 0 ==>
      (r.Err? <==> BinaryIndexError(emgLength, numberOfMus, mupulses.value))
    ensures mupulses.Some? && emgLength >= 0 && numberOfMus >= 0 && r.Err? ==> r.error == IndexError
    ensures r.Ok? && r.value.Some? ==>
      var m := r.value.value;
      FrameOk(m) && m.rows == emgLength && |m.cols| == numberOfMus
      && forall mu, t :: 0 <= mu < numberOfMus && 0 <= t < emgLength ==>
           m.cols[mu][t] == (if FiresAt(mupulses.value[mu], emgLength, t) then Num(1.0) else Num(0.0))
  {
    if mupulses.None? {
      return Ok(None);
    }
    if emgLength < 0 || numberOfMus < 0 {
      return Err(ValueError);
    }
    var mp := mupulses.value;
    var cols: seq<Column> := [];
    var i := 0;
    while i < numberOfMus
      invariant 0 <= i <= numberOfMus
      invariant i <= |mp|
      invariant |cols| == i
      invariant forall mu, k :: 0 <= mu < i && 0 <= k < |mp[mu]| ==> RowInRange(mp[mu][k], emgLength)
      invariant forall mu :: 0 <= mu < i ==> |cols[mu]| == emgLength
      invariant forall mu, t :: 0 <= mu < i && 0 <= t < emgLength ==>
        cols[mu][t] == (if FiresAt(mp[mu], emgLength, t) then Num(1.0) else Num(0.0))
    {
      if i >= |mp| {
        return Err(IndexError);
      }
      var ps := mp[i];
      var col := new Float[emgLength](_ => Num(0.0));
      var j := 0;
      while j < |ps|
        invariant 0 <= j <= |ps|
        invariant forall k :: 0 <= k < j ==> RowInRange(ps[k], emgLength)
        invariant forall t :: 0 <= t < emgLength ==>
          col[t] == (if FiresAt(ps[..j], emgLength, t) then Num(1.0) else Num(0.0))
      {
        var p := ps[j];
        if !RowInRange(p, emgLength) {
          return Err(IndexError);
        }
        col[WrapRow(p, emgLength)] := Num(1.0);
        forall t | 0 <= t < emgLength
          ensures FiresAt(ps[..j + 1], emgLength, t) <==> FiresAt(ps[..j], emgLength, t) || WrapRow(p, emgLength) == t
        {
          assert ps[..j + 1] == ps[..j] + [p];
          if FiresAt(ps[..j + 1], emgLength, t) {
            var k :| 0 <= k < j + 1 && WrapRow(ps[..j + 1][k], emgLength) == t;
            if k < j { assert ps[..j][k] == ps[..j + 1][k]; }
          }
          if FiresAt(ps[..j], emgLength, t) {
            var k :| 0 <= k < j && WrapRow(ps[..j][k], emgLength) == t;
            assert ps[..j + 1][k] == ps[..j][k];
          }
          if WrapRow(p, emgLength) == t {
            assert ps[..j + 1][j] == p;
          }
        }
        j := j + 1;
      }
      assert ps[..|ps|] == ps;
      cols := cols + [col[..]];
      i := i + 1;
    }
    return Ok(Some(Frame(emgLength, cols)));
  }

  /** With pulses inside [0, emg_length) the entry is 1 exactly at the listed samples. */
  lemma BinaryFiringsExact(ps: seq<int>, n: nat, t: int)
    requires forall k :: 0 <= k < |ps| ==> 0 <= ps[k] < n
    ensures FiresAt(ps, n, t) <==> t in ps
  {
    if t in ps {
      var k :| 0 <= k < |ps| && ps[k] == t;
      assert WrapRow(ps[k], n) == t;
    }
  }

  /** `get_otb_mupulses`-style inverse: the samples of a column equal to 1, in order. */
  function FiringSamples(col: Column): (r: seq<int>)
    ensures forall k :: 0 <= k < |r| ==> 0 <= r[k] < |col| && col[r[k]] == Num(1.0)
    ensures forall t :: 0 <= t < |col| && col[t] == Num(1.0) ==> t in r
    ensures StrictlyIncreasing(r)
  {
    if col == [] then []
    else
      var rest := FiringSamples(col[..|col| - 1]);
      assert forall t :: 0 <= t < |col| - 1 ==> col[..|col| - 1][t] == col[t];
      if col[|col| - 1] == Num(1.0) then rest + [|col| - 1] else rest
  }

  /** Reading the firings back from the binary column gives the pulses again. */
  lemma {:induction false} BinaryRoundTrip(ps: seq<int>, n: nat)
    requires forall k :: 0 <= k < |ps| ==> 0 <= ps[k] < n
    requires StrictlyIncreasing(ps)
    ensures FiringSamples(seq(n, t => if FiresAt(ps, n, t) then Num(1.0) else Num(0.0))) == ps
  {
    var col := seq(n, t => if FiresAt(ps, n, t) then Num(1.0) else Num(0.0));
    var r := FiringSamples(col);
    forall t | 0 <= t < n ensures (t in r) <==> (t in ps) {
      BinaryFiringsExact(ps, n, t);
    }
    StrictlyIncreasingSameElements(r, ps);
  }

  lemma TailElements(a: seq<int>, x: int)
    requires StrictlyIncreasing(a) && a != []
    ensures x in a[1..] <==> (x in a && x != a[0])
  {
    if x in a && x != a[0] {
      var k :| 0 <= k < |a| && a[k] == x;
      assert a[1..][k - 1] == x;
    }
  }

  /** Two strictly increasing sequences with the same elements are equal. */
  lemma {:induction false} StrictlyIncreasingSameElements(a: seq<int>, b: seq<int>)
    requires StrictlyIncreasing(a) && StrictlyIncreasing(b)
    requires forall x :: x in a <==> x in b
    ensures a == b
    decreases |a|
  {
    if a != [] {
      assert a[0] in a;
    }
    if b != [] {
      assert b[0] in b;
    }
    if a != [] && b != [] {
      var i :| 0 <= i < |a| && a[i] == b[0];
      var j :| 0 <= j < |b| && b[j] == a[0];
      assert a[0] <= a[i] && b[0] <= b[j];
      forall x ensures x in a[1..] <==> x in b[1..] {
        TailElements(a, x);
        TailElements(b, x);
      }
      StrictlyIncreasingSameElements(a[1..], b[1..]);
      assert a == [a[0]] + a[1..] && b == [b[0]] + b[1..];
    }
  }

  // ---------------------------------------------------------------------
  // resize_emgfile

  /**
   * The MU mask of `resize_emgfile`: the pulses p of one MU with
   * start <= p < end, each rebased to p - first, in their original order.
   */
  function RebaseWindow(ps: seq<int>, start: int, end: int, first: int): seq<int>
  {
    if ps == [] then []
    else
      RebaseWindow(ps[..|ps| - 1], start, end, first)
      + (if start <= ps[|ps| - 1] < end then [ps[|ps| - 1] - first] else [])
  }

  lemma {:induction false} RebaseWindowMembers(ps: seq<int>, start: int, end: int, first: int)
    ensures forall x :: x in RebaseWindow(ps, start, end, first) <==>
      exists k :: 0 <= k < |ps| && start <= ps[k] < end && x == ps[k] - first
  {
    if ps != [] {
      var p := ps[..|ps| - 1];
      RebaseWindowMembers(p, start, end, first);
      assert forall k :: 0 <= k < |p| ==> p[k] == ps[k];
    }
  }

  lemma {:induction false} RebaseWindowIncreasing(ps: seq<int>, start: int, end: int, first: int)
    requires StrictlyIncreasing(ps)
    ensures StrictlyIncreasing(RebaseWindow(ps, start, end, first))
  {
    if ps != [] {
      var p := ps[..|ps| - 1];
      assert StrictlyIncreasing(p);
      RebaseWindowIncreasing(p, start, end, first);
      RebaseWindowMembers(p, start, end, first);
      var rest := RebaseWindow(p, start, end, first);
      forall i | 0 <= i < |rest| ensures rest[i] < ps[|ps| - 1] - first {
        assert rest[i] in rest;
        var k :| 0 <= k < |p| && start <= p[k] < end && rest[i] == p[k] - first;
        assert p[k] == ps[k];
      }
    }
  }

  /** The selection `resize_emgfile` works on: a two-element list, or the two clicks. */
  function ResizeBounds(area: Option<seq<int>>, clicks: seq<real>): (r: Result<(int, int)>)
    ensures area.Some? && |area.value| == 2 ==> r == Ok((area.value[0], area.value[1]))
    ensures !(area.Some? && |area.value| == 2) ==> r == SelectedArea(clicks)
  {
    if area.Some? && |area.value| == 2 then Ok((area.value[0], area.value[1]))
    else SelectedArea(clicks)
  }

  /** Every MU below `n` of the resized file, with its own pulses rebased. */
  function ResizedPulses(mp: seq<seq<int>>, n: int, start: int, end: int, first: int): (r: seq<seq<int>>)
    requires n <= |mp|
    ensures |r| == |mp|
    ensures forall mu :: 0 <= mu < |mp| && mu >= n ==> r[mu] == mp[mu]
    ensures forall mu, x :: 0 <= mu < n ==>
      (x in r[mu] <==> exists k :: 0 <= k < |mp[mu]| && start <= mp[mu][k] < end && x == mp[mu][k] - first)
  {
    var r := seq(|mp|, mu requires 0 <= mu < |mp| =>
      if mu < n then RebaseWindow(mp[mu], start, end, first) else mp[mu]);
    forall mu | 0 <= mu < n ensures forall x :: x in r[mu] <==>
      exists k :: 0 <= k < |mp[mu]| && start <= mp[mu][k] < end && x == mp[mu][k] - first
    {
      RebaseWindowMembers(mp[mu], start, end, first);
    }
    r
  }

  /**
   * `resize_emgfile` on a deep copy: REF, RAW, IPTS and BINARY are cut
   * label-inclusively to [start, end]; each MU keeps the pulses in
   * [start, end) rebased to the first retained sample; EMG_LENGTH becomes the
   * new IPTS length; PNR and SIL are replaced by their recomputed values
   * (given as `pnrs`/`sils`) when there are MUs, by NaN otherwise.
   */
  function ResizeEmgfile(f: EmgFile, area: Option<seq<int>>, clicks: seq<real>, pnrs: seq<Float>, sils: seq<Float>)
    : (r: Result<(EmgFile, int, int)>)
    requires FrameOk(f.refSignal) && FrameOk(f.rawSignal) && FrameOk(f.ipts) && FrameOk(f.binary)
    ensures ResizeBounds(area, clicks).Err? ==> r.Err?
    ensures ResizeBounds(area, clicks).Ok? ==>
      var (s, e) := ResizeBounds(area, clicks).value;
      (r.Err? <==> (LocHi(e, f.refSignal.rows) <= LocLo(s) || f.numberOfMus > |f.mupulses|))
      && (r.Ok? ==>
        var (g, s', e') := r.value;
        s' == s && e' == e
        && g.refSignal == FrameLoc(f.refSignal, s, e)
        && g.rawSignal == FrameLoc(f.rawSignal, s, e)
        && g.ipts == FrameLoc(f.ipts, s, e)
        && g.binary == FrameLoc(f.binary, s, e)
        && g.emgLength == g.ipts.rows
        && g.numberOfMus == f.numberOfMus
        && |g.mupulses| == |f.mupulses|
        && (forall mu :: f.numberOfMus <= mu < |f.mupulses| && mu >= 0 ==> g.mupulses[mu] == f.mupulses[mu])
        && (forall mu, x :: 0 <= mu < f.numberOfMus ==>
              (x in g.mupulses[mu] <==>
                exists k :: 0 <= k < |f.mupulses[mu]| && s <= f.mupulses[mu][k] < e && x == f.mupulses[mu][k] - LocLo(s)))
        && g.pnr == (if f.numberOfMus > 0 then Some(pnrs) else None)
        && g.sil == (if f.numberOfMus > 0 then Some(sils) else None)
        && g.source == f.source && g.filename == f.filename && g.fsamp == f.fsamp && g.ied == f.ied
        && g.accuracy == f.accuracy && g.extras == f.extras)
  {
    var b := ResizeBounds(area, clicks);
    if b.Err? then Err(b.error)
    else
      var (s, e) := b.value;
      var ref := FrameLoc(f.refSignal, s, e);
      if ref.rows == 0 then Err(IndexError)
      else if f.numberOfMus > |f.mupulses| then Err(IndexError)
      else
        var first := LocLo(s);
        var ipts := FrameLoc(f.ipts, s, e);
        var g := f.(
          refSignal := ref,
          rawSignal := FrameLoc(f.rawSignal, s, e),
          ipts := ipts,
          emgLength := ipts.rows,
          binary := FrameLoc(f.binary, s, e),
          mupulses := ResizedPulses(f.mupulses, f.numberOfMus, s, e, first),
          pnr := if f.numberOfMus > 0 then Some(pnrs) else None,
          sil := if f.numberOfMus > 0 then Some(sils) else None);
        Ok((g, s, e))
  }

  /**
   * Resizing a file whose pulses lie in its recording (and whose IPTS has
   * EMG_LENGTH rows) gives a file whose pulses lie in the new recording, and
   * keeps every MU's pulses strictly increasing.
   */
  lemma ResizeKeepsPulsesInRecording(f: EmgFile, area: Option<seq<int>>, clicks: seq<real>, pnrs: seq<Float>, sils: seq<Float>)
    requires FrameOk(f.refSignal) && FrameOk(f.rawSignal) && FrameOk(f.ipts) && FrameOk(f.binary)
    requires PulsesInRecording(f) && f.emgLength == f.ipts.rows && f.numberOfMus == |f.mupulses|
    requires forall mu :: 0 <= mu < |f.mupulses| ==> StrictlyIncreasing(f.mupulses[mu])
    requires ResizeEmgfile(f, area, clicks, pnrs, sils).Ok?
    ensures var g := ResizeEmgfile(f, area, clicks, pnrs, sils).value.0;
      PulsesInRecording(g) && forall mu :: 0 <= mu < |g.mupulses| ==> StrictlyIncreasing(g.mupulses[mu])
  {
    var (g, s, e) := ResizeEmgfile(f, area, clicks, pnrs, sils).value;
    forall mu, k | 0 <= mu < |g.mupulses| && 0 <= k < |g.mupulses[mu]|
      ensures 0 <= g.mupulses[mu][k] < g.emgLength
    {
      var x := g.mupulses[mu][k];
      assert x in g.mupulses[mu];
      var j :| 0 <= j < |f.mupulses[mu]| && s <= f.mupulses[mu][j] < e && x == f.mupulses[mu][j] - LocLo(s);
      assert 0 <= f.mupulses[mu][j] < f.emgLength;
    }
    forall mu | 0 <= mu < |g.mupulses| ensures StrictlyIncreasing(g.mupulses[mu]) {
      RebaseWindowIncreasing(f.mupulses[mu], s, e, LocLo(s));
    }
  }

  // ---------------------------------------------------------------------
  // compute_idr

  /** One MU's table of `compute_idr`: the four columns, one row per pulse. */
  datatype IdrTable = IdrTable(mupulses: seq<int>, diffMupulses: seq<Float>, timesec: seq<Float>, idr: seq<Float>)

  /**
   * `t` is the table of pulses `ps`: `diff()` (NaN first, then the
   * inter-pulse gaps), the time p / FSAMP and the rate FSAMP / gap.
   */
  predicate IsIdrTable(t: IdrTable, ps: seq<int>, fsamp: real)
  {
    t.mupulses == ps
    && |t.diffMupulses| == |ps| && |t.timesec| == |ps| && |t.idr| == |ps|
    && (|ps| > 0 ==> t.diffMupulses[0] == NaN)
    && (forall k :: 0 < k < |ps| ==> t.diffMupulses[k] == Num((ps[k] - ps[k - 1]) as real))
    && (forall k :: 0 <= k < |ps| ==> t.timesec[k] == Div(Num(ps[k] as real), Num(fsamp)))
    && (forall k :: 0 <= k < |ps| ==> t.idr[k] == Div(Num(fsamp), t.diffMupulses[k]))
  }

  function DiffColumn(ps: seq<int>): (d: seq<Float>)
    ensures |d| == |ps|
  {
    seq(|ps|, k requires 0 <= k < |ps| => if k == 0 then NaN else Num((ps[k] - ps[k - 1]) as real))
  }

  function IdrTableOf(ps: seq<int>, fsamp: real): (t: IdrTable)
    ensures IsIdrTable(t, ps, fsamp)
  {
    var d := DiffColumn(ps);
    IdrTable(ps, d,
             seq(|ps|, k requires 0 <= k < |ps| => Div(Num(ps[k] as real), Num(fsamp))),
             seq(|ps|, k requires 0 <= k < |ps| => Div(Num(fsamp), d[k])))
  }

  /**
   * The pulse lists form a rectangular array: every list is as long as the
   * first.  Otherwise `np.array(MUPULSES)` is ragged and numpy raises a
   * ValueError.
   */
  predicate SameLengths(mp: seq<seq<int>>)
  {
    forall i :: 0 <= i < |mp| ==> |mp[i]| == |mp[0]|
  }

  /** The pulses of MU `mu`; an MU beyond the list has none. */
  function PulsesOf(mp: seq<seq<int>>, mu: nat): (ps: seq<int>)
    ensures mu < |mp| ==> ps == mp[mu]
    ensures mu >= |mp| ==> ps == []
  {
    if mu < |mp| then mp[mu] else []
  }

  /**
   * `compute_idr`: one table per MU 0..NUMBER_OF_MUS-1.  A single MU is read
   * as column 0 of the transposed MUPULSES: MU 0's pulses when the lists
   * are equally long, no pulses when MUPULSES is empty, a ValueError when
   * the lists are ragged.  A MUPULSES that is not a list raises.
   */
  method ComputeIdr(mupulses: Option<seq<seq<int>>>, numberOfMus: int, fsamp: real) returns (r: Result<seq<IdrTable>>)
    ensures mupulses.None? ==> r == Err(GenericException)
    ensures mupulses.Some? && numberOfMus == 1 ==> (r.Ok? <==> SameLengths(mupulses.value))
    ensures mupulses.Some? && numberOfMus == 1 && !SameLengths(mupulses.value) ==> r == Err(ValueError)
    ensures mupulses.Some? && numberOfMus != 1 ==> (r.Ok? <==> numberOfMus <= |mupulses.value|)
    ensures r.Ok? ==> |r.value| == Max(numberOfMus, 0)
    ensures r.Ok? ==> forall mu :: 0 <= mu < |r.value| ==> IsIdrTable(r.value[mu], PulsesOf(mupulses.value, mu), fsamp)
    ensures r.Ok? && numberOfMus != 1 ==> numberOfMus <= |mupulses.value|
  {
    if mupulses.None? {
      return Err(GenericException);
    }
    var mp := mupulses.value;
    if numberOfMus == 1 {
      if !SameLengths(mp) {
        return Err(ValueError);
      }
      return Ok([IdrTableOf(PulsesOf(mp, 0), fsamp)]);
    }
    var tables: seq<IdrTable> := [];
    var mu := 0;
    while mu < numberOfMus
      invariant 0 <= mu <= Max(numberOfMus, 0)
      invariant mu <= |mp|
      invariant |tables| == mu
      invariant forall m :: 0 <= m < mu ==> IsIdrTable(tables[m], PulsesOf(mp, m), fsamp)
    {
      if mu >= |mp| {
        return Err(IndexError);
      }
      tables := tables + [IdrTableOf(mp[mu], fsamp)];
      mu := mu + 1;
    }
    return Ok(tables);
  }

  /** Running sum of the gap column from the second row up to row k. */
  function GapSum(d: seq<Float>, k: nat): real
    requires k < |d|
  {
    if k == 0 then 0.0 else GapSum(d, k - 1) + (if d[k].Num? then d[k].r else 0.0)
  }

  /** The gap column inverts: each pulse is the first pulse plus the gaps before it. */
  lemma {:induction false} IdrRecoversPulses(t: IdrTable, ps: seq<int>, fsamp: real, k: nat)
    requires IsIdrTable(t, ps, fsamp) && k < |ps|
    ensures ps[k] as real == ps[0] as real + GapSum(t.diffMupulses, k)
  {
    if k > 0 {
      IdrRecoversPulses(t, ps, fsamp, k - 1);
    }
  }

  /** For increasing pulses and a positive rate, every rate after the first is FSAMP over the gap, positive. */
  lemma IdrPositive(t: IdrTable, ps: seq<int>, fsamp: real, k: nat)
    requires IsIdrTable(t, ps, fsamp) && StrictlyIncreasing(ps) && fsamp > 0.0 && 0 < k < |ps|
    ensures t.idr[k].Num? && t.idr[k].r > 0.0 && t.idr[k].r * (ps[k] - ps[k - 1]) as real == fsamp
  {
    assert ps[k - 1] < ps[k];
  }

  // ---------------------------------------------------------------------
  // delete_mus

  /** What `munumber` is: an int, a list, or anything else (given by its labels). */
  datatype MuSelector = SingleMu(index: int) | MuList(indices: seq<int>) | OtherSelector(labels: seq<int>)

  function SelectorLabels(m: MuSelector): seq<int>
  {
    match m
    case SingleMu(k) => [k]
    case MuList(ks) => ks
    case OtherSelector(ls) => ls
  }

  /** The positions 0..n-1 not listed in `ks`, ascending. */
  function Kept(n: int, ks: seq<int>): (r: seq<int>)
    ensures forall i :: 0 <= i < |r| ==> 0 <= r[i] < n
    decreases n
  {
    if n <= 0 then [] else Kept(n - 1, ks) + (if n - 1 in ks then [] else [n - 1])
  }

  lemma {:induction false} KeptMembers(n: int, ks: seq<int>)
    ensures forall x :: x in Kept(n, ks) <==> 0 <= x < n && x !in ks
    decreases n
  {
    if n > 0 {
      KeptMembers(n - 1, ks);
    }
  }

  lemma {:induction false} KeptIncreasing(n: int, ks: seq<int>)
    ensures StrictlyIncreasing(Kept(n, ks))
    decreases n
  {
    if n > 0 {
      KeptIncreasing(n - 1, ks);
    }
  }

  /** `drop(ks)` then renumbering: the entries at the kept positions, in order. */
  function DropPositions<T>(s: seq<T>, ks: seq<int>): (r: seq<T>)
    ensures |r| == |Kept(|s|, ks)|
    ensures forall j :: 0 <= j < |r| ==> r[j] == s[Kept(|s|, ks)[j]]
  {
    var kept := Kept(|s|, ks);
    seq(|kept|, j requires 0 <= j < |kept| => s[kept[j]])
  }

  /** `drop` raises KeyError unless every label is present in 0..n-1. */
  predicate LabelsPresent(ks: seq<int>, n: int)
  {
    forall k :: k in ks ==> 0 <= k < n
  }

  /** The list loop of `delete_mus` needs MUPULSES[mu] for every kept mu. */
  predicate KeptBeyond(n: int, ks: seq<int>, m: int)
  {
    exists x :: x in Kept(n, ks) && x >= m
  }

  /** The columns of `f` after dropping `ks` (PNR, SIL, IPTS and BINARY), the common part of `delete_mus`. */
  function DropColumns(f: EmgFile, ks: seq<int>): EmgFile
    requires f.pnr.Some? && f.sil.Some?
  {
    f.(pnr := Some(DropPositions(f.pnr.value, ks)),
       sil := Some(DropPositions(f.sil.value, ks)),
       ipts := Frame(f.ipts.rows, DropPositions(f.ipts.cols, ks)),
       binary := Frame(f.binary.rows, DropPositions(f.binary.cols, ks)))
  }

  predicate DropFails(f: EmgFile, ks: seq<int>)
  {
    f.pnr.None? || f.sil.None?
    || !LabelsPresent(ks, |f.pnr.value|) || !LabelsPresent(ks, |f.sil.value|)
    || !LabelsPresent(ks, |f.ipts.cols|) || !LabelsPresent(ks, |f.binary.cols|)
  }

  /** The list loop of `delete_mus`: MUPULSES[mu] for every mu < n not listed, in order. */
  method KeepListedPulses(mp: seq<seq<int>>, n: int, ks: seq<int>) returns (r: Result<seq<seq<int>>>)
    ensures r.Err? <==> KeptBeyond(n, ks, |mp|)
    ensures r.Err? ==> r.error == IndexError
    ensures r.Ok? ==> |r.value| == |Kept(n, ks)|
    ensures r.Ok? ==> forall j :: 0 <= j < |r.value| ==> Kept(n, ks)[j] < |mp| && r.value[j] == mp[Kept(n, ks)[j]]
  {
    var kept: seq<seq<int>> := [];
    var mu := 0;
    while mu < n
      invariant 0 <= mu <= Max(n, 0)
      invariant |kept| == |Kept(mu, ks)|
      invariant forall j :: 0 <= j < |kept| ==> Kept(mu, ks)[j] < |mp| && kept[j] == mp[Kept(mu, ks)[j]]
      invariant forall x :: x in Kept(mu, ks) ==> x < |mp|
    {
      if mu !in ks {
        if mu >= |mp| {
          KeptMembers(n, ks);
          assert mu in Kept(n, ks);
          return Err(IndexError);
        }
        kept := kept + [mp[mu]];
      }
      mu := mu + 1;
    }
    assert Kept(mu, ks) == Kept(n, ks);
    return Ok(kept);
  }

  /**
   * The outcome of `delete_mus`.  With "ignore" and at most one MU the file is returned
   * as is; a mode other than "ignore"/"remove" is a ValueError.  Otherwise
   * the labels are dropped from PNR, SIL, IPTS and BINARY_MUS_FIRING (a
   * missing key or label is a KeyError) and the rest renumbered; an int
   * removes that MUPULSES entry and decrements the count, a list keeps the
   * other MUs in order and subtracts its length, anything else raises.
   */
  predicate DeleteMusOutcome(f: EmgFile, munumber: MuSelector, ifSingleMu: string, r: Result<EmgFile>)
  {
    (ifSingleMu == "ignore" && f.numberOfMus <= 1 ==> r == Ok(f))
    && (ifSingleMu != "ignore" && ifSingleMu != "remove" ==> r == Err(ValueError))
    && ((ifSingleMu == "remove" || (ifSingleMu == "ignore" && f.numberOfMus > 1)) ==>
        var ks := SelectorLabels(munumber);
        (DropFails(f, ks) ==> r == Err(KeyError))
        && (!DropFails(f, ks) ==>
          match munumber
          case SingleMu(k) =>
            (k >= |f.mupulses| ==> r == Err(IndexError))
            && (0 <= k < |f.mupulses| ==> r == Ok(DropColumns(f, ks).(
                   mupulses := f.mupulses[..k] + f.mupulses[k + 1..],
                   numberOfMus := f.numberOfMus - 1)))
          case MuList(_) =>
            (KeptBeyond(f.numberOfMus, ks, |f.mupulses|) ==> r == Err(IndexError))
            && (!KeptBeyond(f.numberOfMus, ks, |f.mupulses|) ==>
                  r.Ok? && r.value == DropColumns(f, ks).(
                    mupulses := r.value.mupulses, numberOfMus := f.numberOfMus - |ks|)
                  && |r.value.mupulses| == |Kept(f.numberOfMus, ks)|
                  && forall j :: 0 <= j < |r.value.mupulses| ==>
                       Kept(f.numberOfMus, ks)[j] < |f.mupulses|
                       && r.value.mupulses[j] == f.mupulses[Kept(f.numberOfMus, ks)[j]])
          case OtherSelector(_) => r == Err(GenericException)))
  }

  /** `delete_mus`, whose outcome is the one described above. */
  method DeleteMus(f: EmgFile, munumber: MuSelector, ifSingleMu: string) returns (r: Result<EmgFile>)
    ensures DeleteMusOutcome(f, munumber, ifSingleMu, r)
  {
    if ifSingleMu == "ignore" {
      if f.numberOfMus <= 1 {
        return Ok(f);
      }
    } else if ifSingleMu != "remove" {
      return Err(ValueError);
    }
    var ks := SelectorLabels(munumber);
    if DropFails(f, ks) {
      return Err(KeyError);
    }
    var g := DropColumns(f, ks);
    match munumber {
      case SingleMu(k) =>
        assert k in ks;
        if k >= |f.mupulses| {
          return Err(IndexError);
        }
        return Ok(g.(mupulses := f.mupulses[..k] + f.mupulses[k + 1..], numberOfMus := f.numberOfMus - 1));
      case MuList(_) =>
        var kept := KeepListedPulses(f.mupulses, f.numberOfMus, ks);
        if kept.Err? {
          return Err(kept.error);
        }
        return Ok(g.(mupulses := kept.value, numberOfMus := f.numberOfMus - |ks|));
      case OtherSelector(_) =>
        return Err(GenericException);
    }
  }

  /** The outcome of `delete_mus` is determined by its inputs. */
  lemma DeleteMusOutcomeUnique(f: EmgFile, munumber: MuSelector, ifSingleMu: string, r1: Result<EmgFile>, r2: Result<EmgFile>)
    requires DeleteMusOutcome(f, munumber, ifSingleMu, r1) && DeleteMusOutcome(f, munumber, ifSingleMu, r2)
    ensures r1 == r2
  {
    if ifSingleMu == "remove" || (ifSingleMu == "ignore" && f.numberOfMus > 1) {
      var ks := SelectorLabels(munumber);
      if !DropFails(f, ks) && munumber.SingleMu? {
        assert munumber.index in ks;
      }
      if !DropFails(f, ks) && munumber.MuList? && !KeptBeyond(f.numberOfMus, ks, |f.mupulses|) {
        var n := |Kept(f.numberOfMus, ks)|;
        assert forall j :: 0 <= j < n ==> r1.value.mupulses[j] == r2.value.mupulses[j];
        assert r1.value.mupulses == r2.value.mupulses;
        assert r1.value == r2.value;
      }
    }
  }


  /**
   * With a repeated label the list branch keeps |Kept| MUs but records
   * NUMBER_OF_MUS - len(list) of them: deleting [1, 1] from three MUs
   * keeps two and records one.
   */
  lemma DeleteRepeatedLabelsUndercounts()
    ensures |Kept(3, [1, 1])| == 2 && 3 - |[1, 1]| == 1
  {
    assert Kept(1, [1, 1]) == [0];
    assert Kept(2, [1, 1]) == [0];
    assert Kept(3, [1, 1]) == [0, 2];
  }

  /** With distinct labels all present among 0..n-1 the recorded count is the number kept. */
  lemma {:induction false} KeptCountDistinct(n: nat, ks: seq<int>)
    requires forall i, j :: 0 <= i < j < |ks| ==> ks[i] != ks[j]
    requires LabelsPresent(ks, n)
    ensures |Kept(n, ks)| == n - |ks|
  {
    assert |ks| > 0 ==> ks[0] in ks;
    if n > 0 {
      if n - 1 in ks {
        var i :| 0 <= i < |ks| && ks[i] == n - 1;
        var ks' := ks[..i] + ks[i + 1..];
        RemoveAtMembers(ks, i, ks');
        assert LabelsPresent(ks', n - 1);
        KeptCountDistinct(n - 1, ks');
        KeptSameLabels(n - 1, ks, ks');
        assert Kept(n, ks) == Kept(n - 1, ks);
      } else {
        assert LabelsPresent(ks, n - 1);
        KeptCountDistinct(n - 1, ks);
      }
    }
  }

  lemma RemoveAtMembers(ks: seq<int>, i: nat, ks': seq<int>)
    requires i < |ks| && ks' == ks[..i] + ks[i + 1..]
    requires forall a, b :: 0 <= a < b < |ks| ==> ks[a] != ks[b]
    ensures forall x :: x in ks' <==> x in ks && x != ks[i]
    ensures forall a, b :: 0 <= a < b < |ks'| ==> ks'[a] != ks'[b]
  {
    assert forall a :: 0 <= a < |ks'| ==> ks'[a] == ks[if a < i then a else a + 1];
    forall x ensures x in ks' <==> x in ks && x != ks[i] {
      if x in ks && x != ks[i] {
        var j :| 0 <= j < |ks| && ks[j] == x;
        assert ks'[if j < i then j else j - 1] == x;
      }
    }
  }

  /** `Kept` only depends on which labels below n are listed. */
  lemma {:induction false} KeptSameLabels(n: int, ks: seq<int>, ks': seq<int>)
    requires forall x :: 0 <= x < n ==> (x in ks <==> x in ks')
    ensures Kept(n, ks) == Kept(n, ks')
    decreases n
  {
    if n > 0 {
      KeptSameLabels(n - 1, ks, ks');
      assert (n - 1 in ks) <==> (n - 1 in ks');
    }
  }

  // ---------------------------------------------------------------------
  // sort_mus

  predicate InKeys(keys: seq<int>, order: seq<int>)
  {
    forall k :: 0 <= k < |order| ==> 0 <= order[k] < |keys|
  }

  /** `order` lists positions in non-decreasing key order. */
  predicate SortedByKey(keys: seq<int>, order: seq<int>)
    requires InKeys(keys, order)
  {
    forall a, b :: 0 <= a < b < |order| ==> keys[order[a]] <= keys[order[b]]
  }

  /** Insert position i after every entry whose key is not greater (a stable insertion). */
  function InsertByKey(keys: seq<int>, order: seq<int>, i: int): (r: seq<int>)
    requires InKeys(keys, order) && 0 <= i < |keys|
    ensures |r| == |order| + 1 && InKeys(keys, r)
    ensures multiset(r) == multiset(order) + multiset{i}
  {
    if order == [] then [i]
    else
      assert order == [order[0]] + order[1..];
      if keys[order[0]] <= keys[i] then [order[0]] + InsertByKey(keys, order[1..], i)
      else [i] + order
  }

  lemma {:induction false} InsertByKeySorted(keys: seq<int>, order: seq<int>, i: int)
    requires InKeys(keys, order) && 0 <= i < |keys| && SortedByKey(keys, order)
    ensures SortedByKey(keys, InsertByKey(keys, order, i))
  {
    if order != [] && keys[order[0]] <= keys[i] {
      var tail := order[1..];
      assert SortedByKey(keys, tail);
      InsertByKeySorted(keys, tail, i);
      var t := InsertByKey(keys, tail, i);
      HeadBelowInsert(keys, order, i);
      var r := [order[0]] + t;
      assert r == InsertByKey(keys, order, i);
      forall a, b | 0 <= a < b < |r| ensures keys[r[a]] <= keys[r[b]] {
        if a > 0 {
          assert r[a] == t[a - 1] && r[b] == t[b - 1];
        }
      }
    }
  }

  /** The head of a sorted order, not above key i, is not above anything after inserting i into the tail. */
  lemma HeadBelowInsert(keys: seq<int>, order: seq<int>, i: int)
    requires InKeys(keys, order) && 0 <= i < |keys| && SortedByKey(keys, order)
    requires order != [] && keys[order[0]] <= keys[i]
    ensures forall b :: 0 <= b < |InsertByKey(keys, order[1..], i)| ==>
      keys[order[0]] <= keys[InsertByKey(keys, order[1..], i)[b]]
  {
    var tail := order[1..];
    var t := InsertByKey(keys, tail, i);
    forall b | 0 <= b < |t| ensures keys[order[0]] <= keys[t[b]] {
      assert t[b] in multiset(t);
      if t[b] != i {
        assert t[b] in multiset(tail);
        var c :| 0 <= c < |tail| && tail[c] == t[b];
        assert tail[c] == order[c + 1];
      }
    }
  }

  /** The stable `sort_values` order of keys[0..m): the original positions, ascending by key. */
  function SortingOrder(keys: seq<int>, m: nat): (r: seq<int>)
    requires m <= |keys|
    ensures InKeys(keys, r) && IsPermutationOf(r, m)
  {
    if m == 0 then []
    else
      var r := InsertByKey(keys, SortingOrder(keys, m - 1), m - 1);
      assert Range(m) == Range(m - 1) + [m - 1];
      r
  }

  lemma {:induction false} SortingOrderSorted(keys: seq<int>, m: nat)
    requires m <= |keys|
    ensures SortedByKey(keys, SortingOrder(keys, m))
  {
    if m > 0 {
      SortingOrderSorted(keys, m - 1);
      InsertByKeySorted(keys, SortingOrder(keys, m - 1), m - 1);
    }
  }

  /** Every entry of a permutation of 0..n-1 lies in 0..n-1. */
  lemma PermutationBounds(order: seq<int>, n: nat)
    requires IsPermutationOf(order, n)
    ensures forall k :: 0 <= k < |order| ==> 0 <= order[k] < n
  {
    forall k | 0 <= k < |order| ensures 0 <= order[k] < n {
      assert order[k] in multiset(order);
      assert order[k] in multiset(Range(n));
      assert order[k] in Range(n);
    }
  }

  /** The first n entries of `s` rearranged by `order` (entry k holds s[order[k]]), the rest kept. */
  predicate Rearranged<T(==)>(t: seq<T>, s: seq<T>, order: seq<int>)
  {
    |t| == |s| && |order| <= |s|
    && (forall k :: 0 <= k < |order| ==> 0 <= order[k] < |s| && t[k] == s[order[k]])
    && (forall k :: |order| <= k < |s| ==> t[k] == s[k])
  }

  /** One MU order applied to MUPULSES, PNR, SIL, IPTS and BINARY_MUS_FIRING, with nothing else changed. */
  predicate AppliesOrder(f: EmgFile, g: EmgFile, order: seq<int>)
  {
    f.pnr.Some? && f.sil.Some? && g.pnr.Some? && g.sil.Some?
    && Rearranged(g.mupulses, f.mupulses, order)
    && Rearranged(g.pnr.value, f.pnr.value, order)
    && Rearranged(g.sil.value, f.sil.value, order)
    && g.ipts == ReindexColumns(f.ipts, order)
    && g.binary == ReindexColumns(f.binary, order)
    && g == f.(mupulses := g.mupulses, pnr := g.pnr, sil := g.sil, ipts := g.ipts, binary := g.binary)
  }

  predicate FirstPulsesExist(f: EmgFile)
  {
    f.numberOfMus <= |f.mupulses| && forall i :: 0 <= i < f.numberOfMus ==> |f.mupulses[i]| > 0
  }

  /** `enumerate(sorting_order)` assignment loop: t[k] := s[order[k]] for every k. */
  method AssignInOrder<T(==)>(s: seq<T>, order: seq<int>) returns (t: seq<T>)
    requires |order| <= |s| && forall k :: 0 <= k < |order| ==> 0 <= order[k] < |s|
    ensures Rearranged(t, s, order)
  {
    t := s;
    for k := 0 to |order|
      invariant |t| == |s|
      invariant forall k' :: 0 <= k' < k ==> t[k'] == s[order[k']]
      invariant forall k' :: k <= k' < |s| ==> t[k'] == s[k']
    {
      t := t[k := s[order[k]]];
    }
  }

  /**
   * `sort_mus`: files with at most one MU are returned as is; otherwise the
   * MUs are put in ascending order of their first pulse (IndexError when an
   * MU has none, KeyError when PNR or SIL is absent or shorter than the MU
   * count), the same permutation being applied to every per-MU field.
   */
  method SortMus(f: EmgFile) returns (r: Result<EmgFile>)
    ensures f.numberOfMus <= 1 ==> r == Ok(f)
    ensures f.numberOfMus > 1 ==>
      (!FirstPulsesExist(f) ==> r == Err(IndexError))
      && (FirstPulsesExist(f) ==>
            (r.Err? <==> (f.pnr.None? || f.sil.None? || |f.pnr.value| < f.numberOfMus || |f.sil.value| < f.numberOfMus))
            && (r.Err? ==> r.error == KeyError))
    ensures r.Ok? && f.numberOfMus > 1 ==>
      (exists order :: IsPermutationOf(order, f.numberOfMus) && AppliesOrder(f, r.value, order))
      && FirstPulsesOrdered(r.value)
  {
    var n := f.numberOfMus;
    if n <= 1 {
      return Ok(f);
    }
    var firsts: seq<int> := [];
    for i := 0 to n
      invariant |firsts| == i
      invariant i <= |f.mupulses|
      invariant forall i' :: 0 <= i' < i ==> |f.mupulses[i']| > 0 && firsts[i'] == f.mupulses[i'][0]
    {
      if i >= |f.mupulses| || |f.mupulses[i]| == 0 {
        return Err(IndexError);
      }
      firsts := firsts + [f.mupulses[i][0]];
    }
    var order := SortingOrder(firsts, n);
    SortingOrderSorted(firsts, n);
    PermutationBounds(order, n);
    if f.pnr.None? || |f.pnr.value| < n || f.sil.None? || |f.sil.value| < n {
      return Err(KeyError);
    }
    var pnr := AssignInOrder(f.pnr.value, order);
    var sil := AssignInOrder(f.sil.value, order);
    var mupulses := AssignInOrder(f.mupulses, order);
    var g := f.(mupulses := mupulses, pnr := Some(pnr), sil := Some(sil),
                ipts := ReindexColumns(f.ipts, order), binary := ReindexColumns(f.binary, order));
    assert AppliesOrder(f, g, order);
    OrderedByFirstPulse(f, g, order, firsts);
    return Ok(g);
  }

  /** The first n MUs have pulses and their first pulses do not decrease. */
  predicate FirstPulsesOrdered(g: EmgFile)
  {
    forall a, b :: 0 <= a < b < g.numberOfMus ==>
      a < |g.mupulses| && b < |g.mupulses| && |g.mupulses[a]| > 0 && |g.mupulses[b]| > 0
      && g.mupulses[a][0] <= g.mupulses[b][0]
  }

  /** Rearranging the MUs by an order sorted on their first pulses leaves those first pulses ordered. */
  lemma OrderedByFirstPulse(f: EmgFile, g: EmgFile, order: seq<int>, firsts: seq<int>)
    requires |firsts| == |order| == f.numberOfMus <= |f.mupulses|
    requires forall i :: 0 <= i < |firsts| ==> |f.mupulses[i]| > 0 && firsts[i] == f.mupulses[i][0]
    requires InKeys(firsts, order) && SortedByKey(firsts, order)
    requires AppliesOrder(f, g, order)
    ensures FirstPulsesOrdered(g)
  {
    var n := f.numberOfMus;
    forall a, b | 0 <= a < b < n
      ensures |g.mupulses[a]| > 0 && |g.mupulses[b]| > 0 && g.mupulses[a][0] <= g.mupulses[b][0]
    {
      assert g.mupulses[a] == f.mupulses[order[a]] && g.mupulses[b] == f.mupulses[order[b]];
      assert firsts[order[a]] <= firsts[order[b]];
    }
  }

  // ---------------------------------------------------------------------
  // remove_offset, get_mvc, compute_rfd
  //
  // The reference signal may hold several columns (every matching column of
  // a loader's input is kept).  The offset is removed from column 0 only;
  // `float()` of a per-column mean or maximum needs exactly one column.

  /** A Python argument that should be a number: an int, a float, or anything else. */
  datatype Number = IntNum(i: int) | FloatNum(x: real) | NotNumber

  function NumberValue(v: Number): real
    requires !v.NotNumber?
  {
    if v.IntNum? then v.i as real else v.x
  }

  /** The file's REF_SIGNAL is a single column 0. */
  predicate SingleRef(f: EmgFile)
  {
    FrameOk(f.refSignal) && |f.refSignal.cols| == 1
  }

  /** Every sample minus the offset `m`. */
  function Shift(c: Column, m: Float): (d: Column)
    ensures |d| == |c| && forall t :: 0 <= t < |c| ==> d[t] == Sub(c[t], m)
  {
    seq(|c|, t requires 0 <= t < |c| => Sub(c[t], m))
  }

  /** The file with REF_SIGNAL column 0 replaced by `c`, the other columns kept. */
  function WithRef0(f: EmgFile, c: Column): (g: EmgFile)
    requires |f.refSignal.cols| > 0
    ensures g == f.(refSignal := g.refSignal)
    ensures g.refSignal.rows == f.refSignal.rows && |g.refSignal.cols| == |f.refSignal.cols|
    ensures g.refSignal.cols[0] == c
    ensures forall k :: 1 <= k < |f.refSignal.cols| ==> g.refSignal.cols[k] == f.refSignal.cols[k]
  {
    f.(refSignal := f.refSignal.(cols := [c] + f.refSignal.cols[1..]))
  }

  /**
   * `remove_offset`: a non-numeric `offsetval` or `auto` is a TypeError.
   * With auto <= 0 a nonzero `offsetval` is subtracted from column 0 (a
   * KeyError without one), a zero one is replaced by the mean of the
   * selected window; with auto > 0 the mean of the first `auto` samples is
   * subtracted (a float `auto` cannot slice).  A mean is taken of every
   * column, and `float()` of it needs a single column: a TypeError otherwise.
   */
  function RemoveOffset(f: EmgFile, offsetval: Number, auto: Number, clicks: seq<real>): (r: Result<EmgFile>)
    requires FrameOk(f.refSignal)
    ensures offsetval.NotNumber? || auto.NotNumber? ==> r == Err(TypeError)
    ensures r.Ok? ==> r.value == f.(refSignal := r.value.refSignal)
    ensures r.Ok? ==> FrameOk(r.value.refSignal) && r.value.refSignal.rows == f.refSignal.rows
                      && |r.value.refSignal.cols| == |f.refSignal.cols| > 0
                      && forall k :: 1 <= k < |f.refSignal.cols| ==> r.value.refSignal.cols[k] == f.refSignal.cols[k]
    ensures !offsetval.NotNumber? && !auto.NotNumber? && NumberValue(auto) <= 0.0 && NumberValue(offsetval) != 0.0 ==>
      (r.Ok? <==> |f.refSignal.cols| > 0) && (r.Err? ==> r.error == KeyError)
      && (r.Ok? ==> r.value.refSignal.cols[0] == Shift(f.refSignal.cols[0], Num(NumberValue(offsetval))))
    ensures !offsetval.NotNumber? && !auto.NotNumber? && NumberValue(auto) <= 0.0 && NumberValue(offsetval) == 0.0 ==>
      (r.Ok? <==> SelectedArea(clicks).Ok? && |f.refSignal.cols| == 1)
      && (SelectedArea(clicks).Ok? && |f.refSignal.cols| != 1 ==> r == Err(TypeError))
      && (r.Ok? ==> var (a, b) := SelectedArea(clicks).value;
            r.value.refSignal.cols[0] == Shift(f.refSignal.cols[0], NanMean(LocSlice(f.refSignal.cols[0], a, b))))
    ensures !offsetval.NotNumber? && auto.FloatNum? && auto.x > 0.0 ==> r == Err(TypeError)
    ensures !offsetval.NotNumber? && auto.IntNum? && auto.i > 0 ==>
      (r.Ok? <==> |f.refSignal.cols| == 1) && (r.Err? ==> r.error == TypeError)
      && (r.Ok? ==> r.value.refSignal.cols[0] == Shift(f.refSignal.cols[0], NanMean(PySlice(f.refSignal.cols[0], 0, auto.i))))
  {
    if offsetval.NotNumber? || auto.NotNumber? then Err(TypeError)
    else if NumberValue(auto) <= 0.0 then
      if NumberValue(offsetval) != 0.0 then
        if |f.refSignal.cols| == 0 then Err(KeyError)
        else Ok(WithRef0(f, Shift(f.refSignal.cols[0], Num(NumberValue(offsetval)))))
      else
        var area := SelectedArea(clicks);
        if area.Err? then Err(area.error)
        else if |f.refSignal.cols| != 1 then Err(TypeError)
        else
          var c := f.refSignal.cols[0];
          Ok(WithRef0(f, Shift(c, NanMean(LocSlice(c, area.value.0, area.value.1)))))
    else if auto.FloatNum? then Err(TypeError)
    else if |f.refSignal.cols| != 1 then Err(TypeError)
    else
      var c := f.refSignal.cols[0];
      Ok(WithRef0(f, Shift(c, NanMean(PySlice(c, 0, auto.i)))))
  }

  /** With several reference columns an explicit offset shifts column 0 and leaves the others as they were. */
  lemma OffsetShiftsColumn0Only(f: EmgFile, offsetval: real, clicks: seq<real>)
    requires FrameOk(f.refSignal) && |f.refSignal.cols| >= 2 && offsetval != 0.0
    ensures var r := RemoveOffset(f, FloatNum(offsetval), IntNum(0), clicks);
      r.Ok? && r.value.refSignal.cols[0] == Shift(f.refSignal.cols[0], Num(offsetval))
      && r.value.refSignal.cols[1..] == f.refSignal.cols[1..]
  {
    var r := RemoveOffset(f, FloatNum(offsetval), IntNum(0), clicks);
    assert r.value.refSignal.cols[1..] == f.refSignal.cols[1..];
  }

  /** Shifting samples that are all numbers shifts their mean by the same amount. */
  lemma {:induction false} ShiftSumCount(c: Column, m: real)
    requires forall t :: 0 <= t < |c| ==> c[t].Num?
    ensures NumCount(Shift(c, Num(m))) == |c| == NumCount(c)
    ensures NumSum(Shift(c, Num(m))) == NumSum(c) - (|c| as real) * m
  {
    if c != [] {
      var p := c[..|c| - 1];
      ShiftSumCount(p, m);
      assert Shift(c, Num(m))[..|c| - 1] == Shift(p, Num(m));
    }
  }

  /** After `remove_offset(auto=a)` the first `a` samples have mean zero, when they are all numbers. */
  lemma OffsetRemovedPrefixMeanZero(c: Column, a: int)
    requires 0 < a && 0 < |c|
    requires forall t :: 0 <= t < |c| ==> c[t].Num?
    ensures NanMean(PySlice(Shift(c, NanMean(PySlice(c, 0, a))), 0, a)) == Num(0.0)
  {
    var p := PySlice(c, 0, a);
    assert forall t :: 0 <= t < |p| ==> p[t].Num?;
    ShiftSumCount(p, 0.0);
    var n := |p| as real;
    assert n > 0.0;
    var m := NanMean(p);
    assert m == Num(NumSum(p) / n);
    ShiftSumCount(p, m.r);
    MeanTimesCount(NumSum(p), n);
    assert NumSum(Shift(p, m)) == 0.0;
    ShiftPrefix(c, m, a);
  }

  lemma MeanTimesCount(s: real, n: real)
    requires n > 0.0
    ensures s - n * (s / n) == 0.0
  {
  }

  lemma ShiftPrefix(c: Column, m: Float, a: int)
    ensures PySlice(Shift(c, m), 0, a) == Shift(PySlice(c, 0, a), m)
  {
    var l := PySlice(Shift(c, m), 0, a);
    var r := Shift(PySlice(c, 0, a), m);
    assert |l| == |r|;
    forall t | 0 <= t < |l| ensures l[t] == r[t] {
    }
  }

  /**
   * `get_mvc`: the maximum of the reference signal over the whole record
   * ("all") or the selected window ("showselect"); any other `how` is a
   * ValueError; `float()` of the per-column maximum needs a single column
   * (a TypeError otherwise); a nonzero `conversion_val` multiplies the result.
   */
  function GetMvc(f: EmgFile, how: string, clicks: seq<real>, conversionVal: real): (r: Result<Float>)
    ensures how != "all" && how != "showselect" ==> r == Err(ValueError)
    ensures how == "all" ==> (r.Ok? <==> |f.refSignal.cols| == 1)
    ensures how == "showselect" ==> (r.Ok? <==> |clicks| == 2 && |f.refSignal.cols| == 1)
    ensures (how == "all" || (how == "showselect" && |clicks| == 2)) && |f.refSignal.cols| != 1 ==> r == Err(TypeError)
    ensures r.Ok? ==> |f.refSignal.cols| == 1
                      && r.value == (if conversionVal != 0.0 then Scale(conversionVal, NanMax(MvcWindow(f, how, clicks)))
                                     else NanMax(MvcWindow(f, how, clicks)))
  {
    if how == "all" then
      if |f.refSignal.cols| != 1 then Err(TypeError)
      else
        var m := NanMax(f.refSignal.cols[0]);
        Ok(if conversionVal != 0.0 then Scale(conversionVal, m) else m)
    else if how == "showselect" then
      var area := SelectedArea(clicks);
      if area.Err? then Err(area.error)
      else if |f.refSignal.cols| != 1 then Err(TypeError)
      else
        var m := NanMax(LocSlice(f.refSignal.cols[0], area.value.0, area.value.1));
        Ok(if conversionVal != 0.0 then Scale(conversionVal, m) else m)
    else Err(ValueError)
  }

  /** The samples `get_mvc` takes the maximum of. */
  function MvcWindow(f: EmgFile, how: string, clicks: seq<real>): Column
    requires |f.refSignal.cols| == 1
  {
    if how == "showselect" && SelectedArea(clicks).Ok? then
      LocSlice(f.refSignal.cols[0], SelectedArea(clicks).value.0, SelectedArea(clicks).value.1)
    else f.refSignal.cols[0]
  }

  /** With no conversion, the MVC over the whole record is a sample that no other sample exceeds. */
  lemma MvcIsMaximum(f: EmgFile)
    requires SingleRef(f) && NumCount(f.refSignal.cols[0]) > 0
    ensures var r := GetMvc(f, "all", [], 0.0);
      r.Ok? && r.value.Num?
      && (exists t :: 0 <= t < f.refSignal.rows && f.refSignal.cols[0][t] == r.value)
      && forall t :: 0 <= t < f.refSignal.rows && f.refSignal.cols[0][t].Num? ==> f.refSignal.cols[0][t].r <= r.value.r
  {
  }

  /** The RFD over `ms` milliseconds from `start`: slope between the two samples, per second. */
  function RfdValue(c: Column, start: int, ms: int, fsamp: real, conversionVal: real): Float
    requires RfdInRange(|c|, start, ms, fsamp)
  {
    var v := Div(Sub(c[start + RoundHalfEven((ms as real * fsamp) / 1000.0)], c[start]), Num(ms as real / 1000.0));
    if conversionVal != 0.0 then Scale(conversionVal, v) else v
  }

  /** The start and end labels of an `ms` window lie among the `rows` samples. */
  predicate RfdInRange(rows: nat, start: int, ms: int, fsamp: real)
  {
    0 <= start < rows && 0 <= start + RoundHalfEven((ms as real * fsamp) / 1000.0) < rows
  }

  /**
   * `compute_rfd`: the start is `startpoint` when it is an int, otherwise the
   * single selected click; one column per distinct `ms`, holding one row
   * per reference-signal column; a start or end label outside the signal is
   * a KeyError.
   */
  function ComputeRfd(f: EmgFile, ms: seq<int>, startpoint: Option<int>, clicks: seq<real>, conversionVal: real)
    : (r: Result<map<int, seq<Float>>>)
    requires FrameOk(f.refSignal)
    ensures startpoint.None? && |clicks| != 1 ==> r == Err(ValueError)
    ensures RfdStart(startpoint, clicks).Ok? ==>
      var start := RfdStart(startpoint, clicks).value;
      (r.Ok? <==> forall m :: m in ms ==> RfdInRange(f.refSignal.rows, start, m, f.fsamp))
      && (r.Err? ==> r.error == KeyError)
      && (r.Ok? ==> r.value.Keys == (set m | m in ms))
      && (r.Ok? ==> forall m :: m in ms ==>
            (|r.value[m]| == |f.refSignal.cols|
             && forall c :: 0 <= c < |f.refSignal.cols| ==>
                  r.value[m][c] == RfdValue(f.refSignal.cols[c], start, m, f.fsamp, conversionVal)))
  {
    var s := RfdStart(startpoint, clicks);
    if s.Err? then Err(s.error)
    else
      var cs := f.refSignal.cols;
      if forall m :: m in ms ==> RfdInRange(f.refSignal.rows, s.value, m, f.fsamp) then
        Ok(map m | m in ms :: seq(|cs|, c requires 0 <= c < |cs| => RfdValue(cs[c], s.value, m, f.fsamp, conversionVal)))
      else Err(KeyError)
  }

  function RfdStart(startpoint: Option<int>, clicks: seq<real>): (r: Result<int>)
    ensures startpoint.None? ==> (r.Ok? <==> |clicks| == 1)
    ensures startpoint.Some? ==> r == Ok(startpoint.value)
  {
    if startpoint.Some? then Ok(startpoint.value)
    else
      var s := ShowSelect(1, clicks);
      if s.Ok? then Ok(s.value[0]) else Err(s.error)
  }

  /**
   * On a force ramp c[t] = c0 + slope * t, an `ms` spanning a whole number
   * of samples gives RFD = slope * FSAMP (units per second).
   */
  lemma RfdOfRamp(c: Column, c0: real, slope: real, start: int, ms: int, fsamp: real, k: int)
    requires forall t :: 0 <= t < |c| ==> c[t] == Num(c0 + slope * t as real)
    requires ms > 0 && (ms as real * fsamp) / 1000.0 == k as real
    requires RfdInRange(|c|, start, ms, fsamp)
    ensures RfdValue(c, start, ms, fsamp, 0.0) == Num(slope * fsamp)
  {
    assert RoundHalfEven((ms as real * fsamp) / 1000.0) == k;
    var q := ms as real / 1000.0;
    assert q > 0.0;
    assert k as real == q * fsamp;
    var d := c[start + k].r - c[start].r;
    assert d == slope * (k as real);
    RampSlope(slope, fsamp, q, d);
    assert Div(Sub(c[start + k], c[start]), Num(q)) == Num(d / q);
  }

  lemma RampSlope(slope: real, fsamp: real, q: real, d: real)
    requires q > 0.0 && d == slope * (q * fsamp)
    ensures d / q == slope * fsamp
  {
    assert d == (slope * fsamp) * q;
  }
}
