/**
 * `compute_deltaf` (paired motor-unit analysis of persistent inward
 * currents): every pair of MUs, the earlier-recruited unit as control and
 * the other as test, the control unit's discharge-rate drop over the test
 * unit's firing, the exclusion mask, and the per-test-unit average.
 *
 * Smoothed discharge rates are one sequence of floats per MU; the
 * correlation of two rate windows (`DataFrame.corr()`) is a parameter.
 */
module Pic {
  import opened Common
  import opened EmgRecord

  // ---------------------------------------------------------------------
  // MU pairs: itertools.combinations(range(n), 2)

  function RowPairs(i: nat, n: nat): (r: seq<(nat, nat)>)
    ensures |r| == Max(0, n - i - 1)
    ensures forall k :: 0 <= k < |r| ==> r[k] == (i, i + 1 + k)
  {
    seq(Max(0, n - i - 1), k => (i, i + 1 + k))
  }

  function PairsFrom(i: nat, n: nat): seq<(nat, nat)>
    decreases n - i
  {
    if i >= n then [] else RowPairs(i, n) + PairsFrom(i + 1, n)
  }

  /** The pairs (i, j), i < j < n, in the order `combinations` yields them. */
  function Pairs(n: int): seq<(nat, nat)>
  {
    PairsFrom(0, Max(0, n))
  }

  predicate LexLess(p: (nat, nat), q: (nat, nat))
  {
    p.0 < q.0 || (p.0 == q.0 && p.1 < q.1)
  }

  lemma {:induction false} PairsFromCount(i: nat, n: nat)
    ensures 2 * |PairsFrom(i, n)| == Max(0, n - i) * Max(0, n - i - 1)
    decreases n - i
  {
    if i < n {
      PairsFromCount(i + 1, n);
      var m := n - i;
      assert |PairsFrom(i, n)| == (m - 1) + |PairsFrom(i + 1, n)|;
      assert 2 * (m - 1) + (m - 1) * Max(0, m - 2) == m * (m - 1);
    }
  }

  lemma {:induction false} PairsFromMembers(i: nat, n: nat)
    ensures forall p: (nat, nat) :: p in PairsFrom(i, n) <==> i <= p.0 < p.1 < n
    decreases n - i
  {
    if i < n {
      var row, rest := RowPairs(i, n), PairsFrom(i + 1, n);
      PairsFromMembers(i + 1, n);
      assert PairsFrom(i, n) == row + rest;
      forall p: (nat, nat) | i <= p.0 < p.1 < n
        ensures p in row + rest
      {
        if p.0 == i {
          assert row[p.1 - i - 1] == p;
        } else {
          assert p in rest;
        }
      }
    }
  }

  lemma {:induction false} PairsFromOrdered(i: nat, n: nat)
    ensures forall a, b :: 0 <= a < b < |PairsFrom(i, n)| ==> LexLess(PairsFrom(i, n)[a], PairsFrom(i, n)[b])
    decreases n - i
  {
    if i < n {
      var row, rest := RowPairs(i, n), PairsFrom(i + 1, n);
      PairsFromOrdered(i + 1, n);
      PairsFromMembers(i + 1, n);
      var all := row + rest;
      assert PairsFrom(i, n) == all;
      forall a, b | 0 <= a < b < |all|
        ensures LexLess(all[a], all[b])
      {
        if b < |row| {
          assert all[a] == row[a] && all[b] == row[b];
        } else if a >= |row| {
          assert all[a] == rest[a - |row|] && all[b] == rest[b - |row|];
        } else {
          assert all[a] == row[a];
          assert all[b] == rest[b - |row|] && all[b] in rest;
        }
      }
    }
  }

  /**
   * There are n·(n−1)/2 pairs, exactly those (i, j) with i < j < n, in
   * strictly increasing lexicographic order.
   */
  lemma PairsShape(n: int)
    ensures n >= 0 ==> |Pairs(n)| == n * (n - 1) / 2
    ensures forall p: (nat, nat) :: p in Pairs(n) <==> p.0 < p.1 < n
    ensures forall a, b :: 0 <= a < b < |Pairs(n)| ==> LexLess(Pairs(n)[a], Pairs(n)[b])
  {
    PairsFromCount(0, Max(0, n));
    PairsFromMembers(0, Max(0, n));
    PairsFromOrdered(0, Max(0, n));
  }

  // ---------------------------------------------------------------------
  // Recruitment and derecruitment from the binary firing table

  /** `np.where(column == 1)[0]`: the samples at which the MU fires, in order. */
  function FiringTimes(col: Column): (t: seq<nat>)
    ensures forall k :: 0 <= k < |t| ==> t[k] < |col| && col[t[k]] == Num(1.0)
    ensures forall a, b :: 0 <= a < b < |t| ==> t[a] < t[b]
    ensures forall s :: 0 <= s < |col| && col[s] == Num(1.0) ==> s in t
  {
    if col == [] then []
    else
      var init := col[..|col| - 1];
      var prev := FiringTimes(init);
      assert forall s :: 0 <= s < |init| ==> init[s] == col[s];
      prev + (if col[|col| - 1] == Num(1.0) then [|col| - 1] else [])
  }

  /** Recruitment and derecruitment samples of one MU. */
  datatype Span = Span(rcrt: nat, drcrt: nat)

  /**
   * Recruitment is the second firing (the IDR starts there) and
   * derecruitment the last; a missing column is a KeyError and fewer than
   * two firings an IndexError.
   */
  function SpanOf(binary: Frame, mu: nat): (r: Result<Span>)
    ensures mu >= |binary.cols| ==> r == Err(KeyError)
    ensures mu < |binary.cols| ==> (r.Ok? <==> |FiringTimes(binary.cols[mu])| >= 2)
    ensures r.Err? ==> r.error == KeyError || r.error == IndexError
  {
    if mu >= |binary.cols| then Err(KeyError)
    else
      var t := FiringTimes(binary.cols[mu]);
      if |t| < 2 then Err(IndexError) else Ok(Span(t[1], t[|t| - 1]))
  }

  /**
   * The recruitment sample is a firing with exactly one firing before it;
   * the derecruitment sample is a firing with none after it.
   */
  lemma SecondAndLastFiring(binary: Frame, mu: nat)
    requires SpanOf(binary, mu).Ok?
    ensures var s, col := SpanOf(binary, mu).value, binary.cols[mu];
      s.rcrt <= s.drcrt < |col| && col[s.rcrt] == Num(1.0) && col[s.drcrt] == Num(1.0)
      && (exists e :: 0 <= e < s.rcrt && col[e] == Num(1.0))
      && (forall e, e' :: 0 <= e < s.rcrt && 0 <= e' < s.rcrt && col[e] == Num(1.0) && col[e'] == Num(1.0) ==> e == e')
      && (forall e :: s.drcrt < e < |col| ==> col[e] != Num(1.0))
  {
    var col := binary.cols[mu];
    var t := FiringTimes(col);
    var s := SpanOf(binary, mu).value;
    assert s == Span(t[1], t[|t| - 1]);
    assert t[0] < t[1];
    forall e | 0 <= e < s.rcrt && col[e] == Num(1.0)
      ensures e == t[0]
    {
      assert e in t;
    }
    forall e | s.drcrt < e < |col|
      ensures col[e] != Num(1.0)
    {
    }
  }

  // ---------------------------------------------------------------------
  // Control and test unit

  function Abs(x: int): nat
  {
    if x >= 0 then x else -x
  }

  /** The rest of a pair's bookkeeping: who controls, and the windows. */
  datatype Roles = Roles(control: nat, test: nat, testRcrt: nat, testDrcrt: nat, ctrlDrcrt: nat)

  /** The first unit of the pair controls when it was recruited earlier, or together and derecruited later. */
  predicate FirstControls(s1: Span, s2: Span)
  {
    s1.rcrt < s2.rcrt || (s1.rcrt == s2.rcrt && s1.drcrt > s2.drcrt)
  }

  /**
   * The control unit is the earlier recruit (a tie goes to the later
   * derecruit, and a full tie to the second unit).  The test unit's
   * derecruitment is cut back to the control's when the control stops
   * first, so the test window is always the pair's overlap.
   */
  function RolesOf(p: (nat, nat), s1: Span, s2: Span): (r: Roles)
    ensures FirstControls(s1, s2) ==> r.control == p.0 && r.test == p.1 && r.ctrlDrcrt == s1.drcrt
    ensures !FirstControls(s1, s2) ==> r.control == p.1 && r.test == p.0 && r.ctrlDrcrt == s2.drcrt
    ensures r.testRcrt == Max(s1.rcrt, s2.rcrt) && r.testDrcrt == Min(s1.drcrt, s2.drcrt)
  {
    if s1.rcrt < s2.rcrt then
      var testDrcrt := if s1.drcrt < s2.drcrt then s1.drcrt else s2.drcrt;
      Roles(p.0, p.1, s2.rcrt, testDrcrt, s1.drcrt)
    else if s1.rcrt > s2.rcrt then
      var testDrcrt := if s1.drcrt > s2.drcrt then s2.drcrt else s1.drcrt;
      Roles(p.1, p.0, s1.rcrt, testDrcrt, s2.drcrt)
    else if s1.drcrt > s2.drcrt then
      Roles(p.0, p.1, s2.rcrt, s2.drcrt, s1.drcrt)
    else
      Roles(p.1, p.0, s1.rcrt, s1.drcrt, s2.drcrt)
  }

  // ---------------------------------------------------------------------
  // One pair

  /** What one pair contributes: nothing measurable, or the four measures. */
  datatype PairOutcome =
    | Skipped
    | Measured(control: nat, test: nat, r: Float, rcrtDiff: Float, ctrlMod: Float, dF: Option<Float>)

  /** Number of samples in the pair's overlap `range(max rcrt, min drcrt)`. */
  function OverlapLen(s1: Span, s2: Span): nat
  {
    Max(0, Min(s1.drcrt, s2.drcrt) - Max(s1.rcrt, s2.rcrt))
  }

  /**
   * One iteration of the pair loop: both spans, the overlap test, the
   * correlation over the overlap, the recruitment gap in seconds, the
   * control unit's rate drop and modulation over the test window, and the
   * normalisation (`None` when it is neither "False" nor "ctrl_max_desc",
   * in which case nothing is appended to the dF list).
   */
  function PairStep(f: EmgFile, smoothfits: seq<seq<Float>>, corr: (seq<Float>, seq<Float>) -> Float,
                    normalisation: string, p: (nat, nat)): (r: Result<PairOutcome>)
    ensures r == Ok(Skipped) <==>
      SpanOf(f.binary, p.0).Ok? && SpanOf(f.binary, p.1).Ok?
      && OverlapLen(SpanOf(f.binary, p.0).value, SpanOf(f.binary, p.1).value) < 2
    ensures r.Ok? && r.value.Measured? ==>
      (r.value.control == p.0 && r.value.test == p.1) || (r.value.control == p.1 && r.value.test == p.0)
    ensures r.Ok? && r.value.Measured? ==> (r.value.dF.None? <==> normalisation != "False" && normalisation != "ctrl_max_desc")
  {
    var s1 := SpanOf(f.binary, p.0);
    if s1.Err? then Err(s1.error)
    else
      var s2 := SpanOf(f.binary, p.1);
      if s2.Err? then Err(s2.error)
      else
        var a, b := s1.value, s2.value;
        var lo, hi := Max(a.rcrt, b.rcrt), Min(a.drcrt, b.drcrt);
        if OverlapLen(a, b) < 2 then Ok(Skipped)
        else if p.0 >= |smoothfits| || p.1 >= |smoothfits| || hi > |smoothfits[p.0]| || hi > |smoothfits[p.1]| then
          Err(IndexError)
        else
          var r := corr(smoothfits[p.0][lo..hi], smoothfits[p.1][lo..hi]);
          var rd := Div(Num(Abs(a.rcrt - b.rcrt) as real), Num(f.fsamp));
          var roles := RolesOf(p, a, b);
          var ctrl := smoothfits[roles.control];
          if roles.testDrcrt >= |ctrl| then Err(IndexError)
          else
            var df := Sub(ctrl[roles.testRcrt], ctrl[roles.testDrcrt]);
            var w := ctrl[roles.testRcrt..roles.testDrcrt];
            var modulation := Sub(NanMax(w), NanMin(w));
            if normalisation == "False" then
              Ok(Measured(roles.control, roles.test, r, rd, modulation, Some(df)))
            else if normalisation == "ctrl_max_desc" then
              if roles.ctrlDrcrt >= |ctrl| then Err(IndexError)
              else
                var k := Sub(ctrl[roles.testRcrt], ctrl[roles.ctrlDrcrt]);
                Ok(Measured(roles.control, roles.test, r, rd, modulation, Some(Div(df, k))))
            else
              Ok(Measured(roles.control, roles.test, r, rd, modulation, None))
  }

  /**
   * A measured pair without normalisation: the control is chosen by
   * `FirstControls`, the recruitment gap is |rcrt1 − rcrt2| / FSAMP, the
   * correlation is over the overlap, and dF is the control unit's rate at
   * the test recruitment minus its rate at the (cut back) test
   * derecruitment; the modulation is its range over that window.
   */
  lemma MeasuredPair(f: EmgFile, smoothfits: seq<seq<Float>>, corr: (seq<Float>, seq<Float>) -> Float,
                     p: (nat, nat))
    requires p.0 < p.1
    requires PairStep(f, smoothfits, corr, "False", p).Ok?
    requires PairStep(f, smoothfits, corr, "False", p).value.Measured?
    ensures var o, s1, s2 := PairStep(f, smoothfits, corr, "False", p).value,
                             SpanOf(f.binary, p.0).value, SpanOf(f.binary, p.1).value;
      var lo, hi := Max(s1.rcrt, s2.rcrt), Min(s1.drcrt, s2.drcrt);
      lo + 2 <= hi && o.control < |smoothfits| && hi < |smoothfits[o.control]|
      && hi <= |smoothfits[p.0]| && hi <= |smoothfits[p.1]|
      && (o.control == p.0 <==> FirstControls(s1, s2))
      && o.rcrtDiff == Div(Num(Abs(s1.rcrt - s2.rcrt) as real), Num(f.fsamp))
      && o.r == corr(smoothfits[p.0][lo..hi], smoothfits[p.1][lo..hi])
      && o.dF == Some(Sub(smoothfits[o.control][lo], smoothfits[o.control][hi]))
      && o.ctrlMod == Sub(NanMax(smoothfits[o.control][lo..hi]), NanMin(smoothfits[o.control][lo..hi]))
  {
  }

  // ---------------------------------------------------------------------
  // The seven lists the loop keeps

  datatype Lists = Lists(rRet: seq<Float>, dfret: seq<Float>, testmu: seq<int>, ctrlMod: seq<Float>,
                         mucombo: seq<(nat, nat)>, rcrtDiff: seq<Float>, controlmu: seq<int>)

  /** The appends of one iteration; a skipped pair appends NaN to four lists and no unit. */
  function Append(l: Lists, p: (nat, nat), o: PairOutcome): Lists
  {
    match o
    case Skipped =>
      l.(dfret := l.dfret + [NaN], rRet := l.rRet + [NaN], rcrtDiff := l.rcrtDiff + [NaN],
         ctrlMod := l.ctrlMod + [NaN], mucombo := l.mucombo + [p])
    case Measured(control, test, r, rd, modulation, dF) =>
      Lists(l.rRet + [r], l.dfret + (if dF.Some? then [dF.value] else []), l.testmu + [test],
            l.ctrlMod + [modulation], l.mucombo + [p], l.rcrtDiff + [rd], l.controlmu + [control])
  }

  /** Number of measured (not skipped) outcomes. */
  function MeasuredCount(os: seq<PairOutcome>): (c: nat)
    ensures c <= |os|
  {
    if os == [] then 0 else MeasuredCount(os[..|os| - 1]) + (if os[|os| - 1].Measured? then 1 else 0)
  }

  /**
   * The lists after the loop over `ps`: every pair is in MU-combo order,
   * the correlation, gap and modulation lists have one entry per pair,
   * the unit lists one per measured pair.
   */
  function Accumulate(ps: seq<(nat, nat)>, os: seq<PairOutcome>): (l: Lists)
    requires |ps| == |os|
    ensures l.mucombo == ps
    ensures |l.rRet| == |l.rcrtDiff| == |l.ctrlMod| == |ps|
    ensures |l.testmu| == |l.controlmu| == MeasuredCount(os)
    ensures |l.dfret| <= |ps|
  {
    if ps == [] then Lists([], [], [], [], [], [], [])
    else
      var n := |ps| - 1;
      assert os[..n] == os[..|os| - 1];
      Append(Accumulate(ps[..n], os[..n]), ps[n], os[n])
  }

  /** The per-pair results of the loop body, in pair order. */
  function PairSteps(f: EmgFile, smoothfits: seq<seq<Float>>, corr: (seq<Float>, seq<Float>) -> Float,
                     normalisation: string, ps: seq<(nat, nat)>): (rs: seq<Result<PairOutcome>>)
    ensures |rs| == |ps| && forall k :: 0 <= k < |ps| ==> rs[k] == PairStep(f, smoothfits, corr, normalisation, ps[k])
  {
    seq(|ps|, k requires 0 <= k < |ps| => PairStep(f, smoothfits, corr, normalisation, ps[k]))
  }

  /** The whole pair loop: the seven lists, or the first error a pair raises. */
  function PairLoop(f: EmgFile, smoothfits: seq<seq<Float>>, corr: (seq<Float>, seq<Float>) -> Float,
                    normalisation: string, ps: seq<(nat, nat)>): (r: Result<Lists>)
    ensures r.Ok? ==> r.value.mucombo == ps && |r.value.rRet| == |r.value.rcrtDiff| == |r.value.ctrlMod| == |ps|
    ensures r.Ok? <==> Collect(PairSteps(f, smoothfits, corr, normalisation, ps)).Ok?
  {
    var os := Collect(PairSteps(f, smoothfits, corr, normalisation, ps));
    if os.Err? then Err(os.error) else Ok(Accumulate(ps, os.value))
  }

  predicate ValidNormalisation(normalisation: string)
  {
    normalisation == "False" || normalisation == "ctrl_max_desc"
  }

  /**
   * With a known normalisation the dF list has one entry per pair: NaN for
   * a skipped pair, the pair's dF otherwise.
   */
  lemma {:induction false} DfretPerPair(ps: seq<(nat, nat)>, os: seq<PairOutcome>)
    requires |ps| == |os|
    requires forall k :: 0 <= k < |os| ==> os[k].Measured? ==> os[k].dF.Some?
    ensures |Accumulate(ps, os).dfret| == |ps|
    ensures forall k :: 0 <= k < |ps| ==>
      Accumulate(ps, os).dfret[k] == if os[k].Skipped? then NaN else os[k].dF.value
  {
    if ps != [] {
      var n := |ps| - 1;
      DfretPerPair(ps[..n], os[..n]);
      assert forall k :: 0 <= k < n ==> os[..n][k] == os[k];
    }
  }

  /** The test-unit list holds the test units of the measured pairs, in order (skipped pairs leave no entry). */
  function MeasuredTests(os: seq<PairOutcome>): seq<int>
  {
    if os == [] then []
    else MeasuredTests(os[..|os| - 1]) + (if os[|os| - 1].Measured? then [os[|os| - 1].test] else [])
  }

  lemma {:induction false} TestmuIsMeasuredTests(ps: seq<(nat, nat)>, os: seq<PairOutcome>)
    requires |ps| == |os|
    ensures Accumulate(ps, os).testmu == MeasuredTests(os)
  {
    if ps != [] {
      var n := |ps| - 1;
      TestmuIsMeasuredTests(ps[..n], os[..n]);
      assert os[..n] == os[..|os| - 1];
    }
  }

  /** One test unit per pair, -1 for a skipped pair: the list aligned with the dF list. */
  function AlignedTests(os: seq<PairOutcome>): (t: seq<int>)
    ensures |t| == |os|
    ensures forall k :: 0 <= k < |os| ==> t[k] == if os[k].Measured? then os[k].test else -1
  {
    seq(|os|, k requires 0 <= k < |os| => if os[k].Measured? then os[k].test else -1)
  }

  /** Without skipped pairs, the test-unit list is the aligned one. */
  lemma {:induction false} NoSkipAligned(os: seq<PairOutcome>)
    requires forall k :: 0 <= k < |os| ==> os[k].Measured?
    ensures MeasuredTests(os) == AlignedTests(os)
  {
    if os != [] {
      var n := |os| - 1;
      NoSkipAligned(os[..n]);
      assert AlignedTests(os) == AlignedTests(os[..n]) + [os[n].test];
    }
  }

  // ---------------------------------------------------------------------
  // The exclusion mask

  /** `x > cutoff` on a numpy float: false for NaN. */
  predicate Exceeds(x: Float, cutoff: real)
  {
    x.Num? && x.r > cutoff
  }

  /** `rcrt_diff_bin & corr_bin & ctrl_mod_bin`. */
  function Keep(l: Lists, rcrtCutoff: real, corrCutoff: real, modCutoff: real): (keep: seq<bool>)
    requires |l.rRet| == |l.rcrtDiff| == |l.ctrlMod|
    ensures |keep| == |l.rcrtDiff|
  {
    seq(|l.rcrtDiff|, k requires 0 <= k < |l.rcrtDiff| =>
      Exceeds(l.rcrtDiff[k], rcrtCutoff) && Exceeds(l.rRet[k], corrCutoff) && Exceeds(l.ctrlMod[k], modCutoff))
  }

  /** `d[~keep] = nan` as a value. */
  function Masked(d: seq<Float>, keep: seq<bool>): (m: seq<Float>)
    requires |d| == |keep|
  {
    seq(|d|, k requires 0 <= k < |d| => if keep[k] then d[k] else NaN)
  }

  /** `dfret[~clns[0]] = np.nan` when the list was never appended to (TypeError) or has another length (IndexError). */
  function Cleaned(l: Lists, rcrtCutoff: real, corrCutoff: real, modCutoff: real): (r: Result<seq<Float>>)
    requires |l.rRet| == |l.rcrtDiff| == |l.ctrlMod|
    ensures r.Ok? ==> |r.value| == |l.dfret|
  {
    if |l.dfret| == 0 then Err(TypeError)
    else if |l.dfret| != |l.rcrtDiff| then Err(IndexError)
    else Ok(Masked(l.dfret, Keep(l, rcrtCutoff, corrCutoff, modCutoff)))
  }

  /** The dF list after the optional cleaning. */
  function DfAfterClean(l: Lists, clean: bool, rcrtCutoff: real, corrCutoff: real, modCutoff: real): Result<seq<Float>>
    requires |l.rRet| == |l.rcrtDiff| == |l.ctrlMod|
  {
    if clean then Cleaned(l, rcrtCutoff, corrCutoff, modCutoff) else Ok(l.dfret)
  }

  /**
   * After cleaning, an entry keeps its value exactly when the recruitment
   * gap, the correlation and the control modulation all strictly exceed
   * their cutoffs; every other entry is NaN.
   */
  lemma CleanedEntries(l: Lists, rcrtCutoff: real, corrCutoff: real, modCutoff: real, k: nat)
    requires |l.rRet| == |l.rcrtDiff| == |l.ctrlMod|
    requires Cleaned(l, rcrtCutoff, corrCutoff, modCutoff).Ok? && k < |l.dfret|
    ensures var d := Cleaned(l, rcrtCutoff, corrCutoff, modCutoff).value;
      k < |l.rcrtDiff|
      && (Exceeds(l.rcrtDiff[k], rcrtCutoff) && Exceeds(l.rRet[k], corrCutoff) && Exceeds(l.ctrlMod[k], modCutoff)
          ==> d[k] == l.dfret[k])
      && (!(Exceeds(l.rcrtDiff[k], rcrtCutoff) && Exceeds(l.rRet[k], corrCutoff) && Exceeds(l.ctrlMod[k], modCutoff))
          ==> d[k] == NaN)
  {
  }

  /** The in-place masking: entries whose flag is off become NaN. */
  method MaskNaN(a: array<Float>, keep: seq<bool>)
    requires a.Length == |keep|
    modifies a
    ensures a[..] == Masked(old(a[..]), keep)
  {
    for k := 0 to a.Length
      invariant forall j :: 0 <= j < k ==> a[j] == if keep[j] then old(a[j]) else NaN
      invariant forall j :: k <= j < a.Length ==> a[j] == old(a[j])
    {
      if !keep[k] {
        a[k] := NaN;
      }
    }
  }

  // ---------------------------------------------------------------------
  // The returned table

  datatype MuLabel = NoUnit | Unit(id: nat) | Pair(first: nat, second: nat)

  /** The returned DataFrame: the `MU` and `dF` columns. */
  datatype DeltaF = DeltaF(mu: seq<MuLabel>, dF: seq<Float>)

  /** `[index for (index, item) in enumerate(testmu) if item == ii]`. */
  function IndicesOf(testmu: seq<int>, ii: int): (idx: seq<nat>)
    ensures forall k :: 0 <= k < |idx| ==> idx[k] < |testmu| && testmu[idx[k]] == ii
    ensures forall k :: 0 <= k < |testmu| && testmu[k] == ii ==> k in idx
  {
    if testmu == [] then []
    else
      var n := |testmu| - 1;
      var prev := IndicesOf(testmu[..n], ii);
      assert forall k :: 0 <= k < n ==> testmu[..n][k] == testmu[k];
      prev + (if testmu[n] == ii then [n] else [])
  }

  /** `dfret[clean_indices]` once every index is in range. */
  function Selected(d: seq<Float>, idx: seq<nat>): (vals: seq<Float>)
    requires forall k :: 0 <= k < |idx| ==> idx[k] < |d|
    ensures |vals| == |idx| && forall k :: 0 <= k < |idx| ==> vals[k] == d[idx[k]]
  {
    seq(|idx|, k requires 0 <= k < |idx| => d[idx[k]])
  }

  /** `dfret[clean_indices]`, then NaN when all of it is NaN and its nan-mean otherwise. */
  function UnitAverage(d: seq<Float>, testmu: seq<int>, ii: int): (r: Result<Float>)
  {
    var idx := IndicesOf(testmu, ii);
    if exists k :: 0 <= k < |idx| && idx[k] >= |d| then Err(IndexError)
    else
      var vals := Selected(d, idx);
      if forall k :: 0 <= k < |vals| ==> vals[k].NaN? then Ok(NaN) else Ok(NanMean(vals))
  }

  /** The "test_unit_average" rows: one average per MU 0..n-1, the first failing lookup otherwise. */
  function UnitAverages(n: nat, testmu: seq<int>, d: seq<Float>): (r: Result<seq<Float>>)
    ensures r.Ok? ==> |r.value| == n
  {
    Collect(seq(n, ii => UnitAverage(d, testmu, ii)))
  }

  /** The "all" rows: one `(i, j)` label per pair. */
  function PairLabels(mucombo: seq<(nat, nat)>): (mu: seq<MuLabel>)
    ensures |mu| == |mucombo| && forall k :: 0 <= k < |mucombo| ==> mu[k] == Pair(mucombo[k].0, mucombo[k].1)
  {
    seq(|mucombo|, k requires 0 <= k < |mucombo| => Pair(mucombo[k].0, mucombo[k].1))
  }

  function UnitLabels(n: nat): (mu: seq<MuLabel>)
    ensures |mu| == n && forall ii :: 0 <= ii < n ==> mu[ii] == Unit(ii)
  {
    seq(n, ii requires 0 <= ii < n => Unit(ii))
  }

  /**
   * The last step: "test_unit_average" averages each MU 0..n-1 over the
   * pairs the test-unit list assigns to it; any other method returns every
   * pair, which pandas refuses when the dF list has another length.
   */
  function Finish(n: nat, averageMethod: string, mucombo: seq<(nat, nat)>, testmu: seq<int>,
                  d: seq<Float>): (r: Result<DeltaF>)
    ensures r.Ok? ==> |r.value.mu| == |r.value.dF|
    ensures r.Ok? && averageMethod == "test_unit_average" ==> r.value.mu == UnitLabels(n)
    ensures r.Ok? && averageMethod != "test_unit_average" ==> r.value == DeltaF(PairLabels(mucombo), d)
  {
    if averageMethod == "test_unit_average" then
      if |d| == 0 then Err(TypeError)
      else
        var us := UnitAverages(n, testmu, d);
        if us.Err? then Err(us.error) else Ok(DeltaF(UnitLabels(n), us.value))
    else if |mucombo| != |d| then Err(ValueError)
    else Ok(DeltaF(PairLabels(mucombo), d))
  }

  /** Everything after the pair loop: the optional cleaning, then the result table. */
  function AfterLoop(n: nat, averageMethod: string, l: Lists, testmu: seq<int>, clean: bool, rcrtCutoff: real,
                     corrCutoff: real, modCutoff: real): Result<DeltaF>
    requires |l.rRet| == |l.rcrtDiff| == |l.ctrlMod|
  {
    var d := DfAfterClean(l, clean, rcrtCutoff, corrCutoff, modCutoff);
    if d.Err? then Err(d.error) else Finish(n, averageMethod, l.mucombo, testmu, d.value)
  }

  /**
   * `compute_deltaf` as written.  With fewer than two MUs the code builds
   * `DataFrame({'MU': <1×2 array>, 'dF': nan})`, which pandas rejects with
   * a ValueError (a 2-D column, and no 1-D one to give the length).
   */
  function DeltaFOf(f: EmgFile, smoothfits: seq<seq<Float>>, corr: (seq<Float>, seq<Float>) -> Float,
                    averageMethod: string, normalisation: string, rcrtCutoff: real, corrCutoff: real,
                    modCutoff: real, clean: bool): (r: Result<DeltaF>)
  {
    if f.numberOfMus < 2 then Err(ValueError)
    else
      var loop := PairLoop(f, smoothfits, corr, normalisation, Pairs(f.numberOfMus));
      if loop.Err? then Err(loop.error)
      else AfterLoop(f.numberOfMus, averageMethod, loop.value, loop.value.testmu, clean, rcrtCutoff, corrCutoff, modCutoff)
  }

  /**
   * `compute_deltaf` as evidently intended: fewer than two MUs give the
   * single NaN row, and each dF entry is averaged under its own pair's test
   * unit (skipped pairs under none).
   */
  function DeltaFIntended(f: EmgFile, smoothfits: seq<seq<Float>>, corr: (seq<Float>, seq<Float>) -> Float,
                          averageMethod: string, normalisation: string, rcrtCutoff: real, corrCutoff: real,
                          modCutoff: real, clean: bool): (r: Result<DeltaF>)
    ensures f.numberOfMus < 2 ==> r == Ok(DeltaF([NoUnit], [NaN]))
  {
    if f.numberOfMus < 2 then Ok(DeltaF([NoUnit], [NaN]))
    else
      var ps := Pairs(f.numberOfMus);
      var os := Collect(PairSteps(f, smoothfits, corr, normalisation, ps));
      if os.Err? then Err(os.error)
      else
        AfterLoop(f.numberOfMus, averageMethod, Accumulate(ps, os.value), AlignedTests(os.value), clean,
                  rcrtCutoff, corrCutoff, modCutoff)
  }

  // ---------------------------------------------------------------------
  // Properties of the result

  /** One entry per pair for the correlation, gap and modulation lists: NaN for a skipped pair. */
  lemma {:induction false} ListsPerPair(ps: seq<(nat, nat)>, os: seq<PairOutcome>)
    requires |ps| == |os|
    ensures forall k :: 0 <= k < |ps| ==>
      Accumulate(ps, os).rRet[k] == (if os[k].Measured? then os[k].r else NaN)
      && Accumulate(ps, os).rcrtDiff[k] == (if os[k].Measured? then os[k].rcrtDiff else NaN)
      && Accumulate(ps, os).ctrlMod[k] == (if os[k].Measured? then os[k].ctrlMod else NaN)
  {
    if ps != [] {
      var n := |ps| - 1;
      ListsPerPair(ps[..n], os[..n]);
      assert forall k :: 0 <= k < n ==> os[..n][k] == os[k];
    }
  }

  /** A measured pair that passes all three exclusion criteria. */
  predicate Passes(o: PairOutcome, rcrtCutoff: real, corrCutoff: real, modCutoff: real)
  {
    o.Measured? && Exceeds(o.rcrtDiff, rcrtCutoff) && Exceeds(o.r, corrCutoff) && Exceeds(o.ctrlMod, modCutoff)
  }

  /** The dF a pair reports: its own for a measured pair that is kept, NaN otherwise. */
  function PairValue(o: PairOutcome, clean: bool, rcrtCutoff: real, corrCutoff: real, modCutoff: real): Float
  {
    if o.Measured? && o.dF.Some? && (!clean || Passes(o, rcrtCutoff, corrCutoff, modCutoff)) then o.dF.value else NaN
  }

  /** With a known normalisation, the (cleaned) dF list holds each pair's `PairValue`. */
  lemma DfValues(ps: seq<(nat, nat)>, os: seq<PairOutcome>, clean: bool, rcrtCutoff: real, corrCutoff: real,
                 modCutoff: real)
    requires |ps| == |os| && |ps| > 0
    requires forall k :: 0 <= k < |os| ==> os[k].Measured? ==> os[k].dF.Some?
    ensures var l := Accumulate(ps, os);
      var d := DfAfterClean(l, clean, rcrtCutoff, corrCutoff, modCutoff);
      d.Ok? && |d.value| == |ps|
      && forall k :: 0 <= k < |ps| ==> d.value[k] == PairValue(os[k], clean, rcrtCutoff, corrCutoff, modCutoff)
  {
    DfretPerPair(ps, os);
    ListsPerPair(ps, os);
  }

  /** The successful pair loop's outcomes: one per pair, each the loop body's result. */
  lemma LoopOutcomes(f: EmgFile, smoothfits: seq<seq<Float>>, corr: (seq<Float>, seq<Float>) -> Float,
                     normalisation: string, ps: seq<(nat, nat)>)
    requires Collect(PairSteps(f, smoothfits, corr, normalisation, ps)).Ok?
    ensures var os := Collect(PairSteps(f, smoothfits, corr, normalisation, ps)).value;
      |os| == |ps| && forall k :: 0 <= k < |ps| ==> PairStep(f, smoothfits, corr, normalisation, ps[k]) == Ok(os[k])
  {
    CollectEach(PairSteps(f, smoothfits, corr, normalisation, ps));
  }

  /**
   * "all" (any method but "test_unit_average") with a known normalisation:
   * one row per pair, labelled by the pair in `combinations` order, holding
   * the pair's own dF, or NaN when it was skipped or excluded.
   */
  lemma AllPairsTable(f: EmgFile, smoothfits: seq<seq<Float>>, corr: (seq<Float>, seq<Float>) -> Float,
                      averageMethod: string, normalisation: string, rcrtCutoff: real, corrCutoff: real,
                      modCutoff: real, clean: bool)
    requires f.numberOfMus >= 2 && averageMethod != "test_unit_average" && ValidNormalisation(normalisation)
    requires Collect(PairSteps(f, smoothfits, corr, normalisation, Pairs(f.numberOfMus))).Ok?
    ensures var ps := Pairs(f.numberOfMus);
      var os := Collect(PairSteps(f, smoothfits, corr, normalisation, ps)).value;
      var r := DeltaFOf(f, smoothfits, corr, averageMethod, normalisation, rcrtCutoff, corrCutoff, modCutoff, clean);
      |os| == |ps| && r.Ok? && r.value.mu == PairLabels(ps) && |r.value.dF| == |ps|
      && forall k :: 0 <= k < |ps| ==> r.value.dF[k] == PairValue(os[k], clean, rcrtCutoff, corrCutoff, modCutoff)
  {
    var ps := Pairs(f.numberOfMus);
    PairsShape(f.numberOfMus);
    assert (0, 1) in ps;
    LoopOutcomes(f, smoothfits, corr, normalisation, ps);
    var os := Collect(PairSteps(f, smoothfits, corr, normalisation, ps)).value;
    DfValues(ps, os, clean, rcrtCutoff, corrCutoff, modCutoff);
  }

  /**
   * One MU's average over an index list: it exists when every index is in
   * range, and it is NaN exactly when every value it covers is NaN.
   */
  lemma UnitAverageNaN(d: seq<Float>, testmu: seq<int>, ii: int)
    ensures UnitAverage(d, testmu, ii).Ok? <==> forall k :: 0 <= k < |testmu| && testmu[k] == ii ==> k < |d|
    ensures UnitAverage(d, testmu, ii).Ok? ==>
      (UnitAverage(d, testmu, ii).value.NaN? <==> forall k :: 0 <= k < |testmu| && testmu[k] == ii ==> d[k].NaN?)
  {
    var idx := IndicesOf(testmu, ii);
    if forall k :: 0 <= k < |testmu| && testmu[k] == ii ==> k < |d| {
      assert forall j :: 0 <= j < |idx| ==> idx[j] < |d|;
      var vals := Selected(d, idx);
      NumCountZero(vals);
      if forall k :: 0 <= k < |testmu| && testmu[k] == ii ==> d[k].NaN? {
        assert forall j :: 0 <= j < |vals| ==> vals[j].NaN?;
      } else {
        var k :| 0 <= k < |testmu| && testmu[k] == ii && d[k].Num?;
        assert k in idx;
        var j :| 0 <= j < |idx| && idx[j] == k;
        assert vals[j].Num?;
      }
    } else {
      var k :| 0 <= k < |testmu| && testmu[k] == ii && k >= |d|;
      assert k in idx;
    }
  }

  /** The averaging step succeeds when every test-list position has a dF entry; MU `ii` is NaN exactly when all of its entries are. */
  lemma FinishAverage(n: nat, mucombo: seq<(nat, nat)>, testmu: seq<int>, d: seq<Float>, ii: nat)
    requires 0 < |d| && |testmu| <= |d| && ii < n
    ensures var r := Finish(n, "test_unit_average", mucombo, testmu, d);
      r.Ok? && |r.value.dF| == n && r.value.mu[ii] == Unit(ii)
      && (r.value.dF[ii].NaN? <==> forall k :: 0 <= k < |testmu| && testmu[k] == ii ==> d[k].NaN?)
  {
    forall u | 0 <= u < n
      ensures UnitAverage(d, testmu, u).Ok?
    {
      UnitAverageNaN(d, testmu, u);
    }
    var us := seq(n, u => UnitAverage(d, testmu, u));
    CollectEach(us);
    UnitAverageNaN(d, testmu, ii);
  }

  /** What a successful pair loop with a known normalisation leaves: one (cleaned) dF value per pair. */
  lemma LoopFacts(f: EmgFile, smoothfits: seq<seq<Float>>, corr: (seq<Float>, seq<Float>) -> Float,
                  normalisation: string, rcrtCutoff: real, corrCutoff: real, modCutoff: real, clean: bool)
    requires 2 <= f.numberOfMus && ValidNormalisation(normalisation)
    requires Collect(PairSteps(f, smoothfits, corr, normalisation, Pairs(f.numberOfMus))).Ok?
    ensures var ps := Pairs(f.numberOfMus);
      var os := Collect(PairSteps(f, smoothfits, corr, normalisation, ps)).value;
      var d := DfAfterClean(Accumulate(ps, os), clean, rcrtCutoff, corrCutoff, modCutoff);
      |os| == |ps| > 0 && d.Ok? && |d.value| == |ps|
      && (forall k :: 0 <= k < |ps| ==> d.value[k] == PairValue(os[k], clean, rcrtCutoff, corrCutoff, modCutoff))
      && Accumulate(ps, os).testmu == MeasuredTests(os) && |MeasuredTests(os)| <= |ps|
  {
    var n := f.numberOfMus;
    var ps := Pairs(n);
    var os := Collect(PairSteps(f, smoothfits, corr, normalisation, ps)).value;
    assert |os| == |ps| > 0 && forall k :: 0 <= k < |os| ==> os[k].Measured? ==> os[k].dF.Some? by {
      LoopOutcomes(f, smoothfits, corr, normalisation, ps);
      PairsShape(n);
      assert (0, 1) in ps;
    }
    TestmuIsMeasuredTests(ps, os);
    DfValues(ps, os, clean, rcrtCutoff, corrCutoff, modCutoff);
  }

  /**
   * As written, MU `ii`'s average takes the dF entries at the POSITIONS
   * where the test-unit list (measured pairs only) names `ii`: it is NaN
   * exactly when all those entries are.
   */
  lemma WrittenUnitAverage(f: EmgFile, smoothfits: seq<seq<Float>>, corr: (seq<Float>, seq<Float>) -> Float,
                           normalisation: string, rcrtCutoff: real, corrCutoff: real, modCutoff: real,
                           clean: bool, ii: nat)
    requires 2 <= f.numberOfMus && ii < f.numberOfMus && ValidNormalisation(normalisation)
    requires Collect(PairSteps(f, smoothfits, corr, normalisation, Pairs(f.numberOfMus))).Ok?
    ensures var ps := Pairs(f.numberOfMus);
      var os := Collect(PairSteps(f, smoothfits, corr, normalisation, ps)).value;
      var t := MeasuredTests(os);
      var r := DeltaFOf(f, smoothfits, corr, "test_unit_average", normalisation, rcrtCutoff, corrCutoff, modCutoff, clean);
      |os| == |ps| && |t| <= |ps| && r.Ok? && |r.value.dF| == f.numberOfMus && r.value.mu[ii] == Unit(ii)
      && (r.value.dF[ii].NaN? <==>
          forall k :: 0 <= k < |t| && t[k] == ii ==> PairValue(os[k], clean, rcrtCutoff, corrCutoff, modCutoff).NaN?)
  {
    var n := f.numberOfMus;
    var ps := Pairs(n);
    var os := Collect(PairSteps(f, smoothfits, corr, normalisation, ps)).value;
    var l := Accumulate(ps, os);
    LoopFacts(f, smoothfits, corr, normalisation, rcrtCutoff, corrCutoff, modCutoff, clean);
    var d := DfAfterClean(l, clean, rcrtCutoff, corrCutoff, modCutoff).value;
    assert DeltaFOf(f, smoothfits, corr, "test_unit_average", normalisation, rcrtCutoff, corrCutoff, modCutoff, clean)
      == Finish(n, "test_unit_average", l.mucombo, l.testmu, d) by {
      assert PairLoop(f, smoothfits, corr, normalisation, ps) == Ok(l);
    }
    FinishAverage(n, l.mucombo, l.testmu, d, ii);
  }

  /**
   * As intended, MU `ii`'s average has a value exactly when some measured
   * pair with `ii` as its test unit reports one.
   */
  lemma IntendedUnitAverage(f: EmgFile, smoothfits: seq<seq<Float>>, corr: (seq<Float>, seq<Float>) -> Float,
                            normalisation: string, rcrtCutoff: real, corrCutoff: real, modCutoff: real,
                            clean: bool, ii: nat)
    requires 2 <= f.numberOfMus && ii < f.numberOfMus && ValidNormalisation(normalisation)
    requires Collect(PairSteps(f, smoothfits, corr, normalisation, Pairs(f.numberOfMus))).Ok?
    ensures var ps := Pairs(f.numberOfMus);
      var os := Collect(PairSteps(f, smoothfits, corr, normalisation, ps)).value;
      var r := DeltaFIntended(f, smoothfits, corr, "test_unit_average", normalisation, rcrtCutoff, corrCutoff,
                              modCutoff, clean);
      |os| == |ps| && r.Ok? && |r.value.dF| == f.numberOfMus && r.value.mu[ii] == Unit(ii)
      && (r.value.dF[ii].Num? <==>
          exists k :: 0 <= k < |os| && os[k].Measured? && os[k].test == ii
            && PairValue(os[k], clean, rcrtCutoff, corrCutoff, modCutoff).Num?)
  {
    var n := f.numberOfMus;
    var ps := Pairs(n);
    var os := Collect(PairSteps(f, smoothfits, corr, normalisation, ps)).value;
    var l := Accumulate(ps, os);
    LoopFacts(f, smoothfits, corr, normalisation, rcrtCutoff, corrCutoff, modCutoff, clean);
    var d := DfAfterClean(l, clean, rcrtCutoff, corrCutoff, modCutoff).value;
    var t := AlignedTests(os);
    assert DeltaFIntended(f, smoothfits, corr, "test_unit_average", normalisation, rcrtCutoff, corrCutoff, modCutoff,
                          clean) == Finish(n, "test_unit_average", l.mucombo, t, d);
    FinishAverage(n, l.mucombo, t, d, ii);
    AlignedValues(os, d, clean, rcrtCutoff, corrCutoff, modCutoff, ii);
  }

  /** Reading the aligned test list: positions naming `ii` are its measured pairs. */
  lemma AlignedValues(os: seq<PairOutcome>, d: seq<Float>, clean: bool, rcrtCutoff: real, corrCutoff: real,
                      modCutoff: real, ii: nat)
    requires |d| == |os| && forall k :: 0 <= k < |os| ==> d[k] == PairValue(os[k], clean, rcrtCutoff, corrCutoff, modCutoff)
    ensures (forall k :: 0 <= k < |os| && AlignedTests(os)[k] == ii ==> d[k].NaN?) <==>
      !(exists k :: 0 <= k < |os| && os[k].Measured? && os[k].test == ii
          && PairValue(os[k], clean, rcrtCutoff, corrCutoff, modCutoff).Num?)
  {
  }

  /** When no pair is skipped, the code as written and as intended agree (for two MUs or more). */
  lemma NoSkipsAgree(f: EmgFile, smoothfits: seq<seq<Float>>, corr: (seq<Float>, seq<Float>) -> Float,
                     averageMethod: string, normalisation: string, rcrtCutoff: real, corrCutoff: real,
                     modCutoff: real, clean: bool)
    requires f.numberOfMus >= 2
    requires forall p :: p in Pairs(f.numberOfMus) ==> PairStep(f, smoothfits, corr, normalisation, p) != Ok(Skipped)
    ensures DeltaFOf(f, smoothfits, corr, averageMethod, normalisation, rcrtCutoff, corrCutoff, modCutoff, clean)
      == DeltaFIntended(f, smoothfits, corr, averageMethod, normalisation, rcrtCutoff, corrCutoff, modCutoff, clean)
  {
    var ps := Pairs(f.numberOfMus);
    var c := Collect(PairSteps(f, smoothfits, corr, normalisation, ps));
    if c.Ok? {
      var os := c.value;
      assert |os| == |ps| && forall k :: 0 <= k < |os| ==> os[k].Measured? by {
        LoopOutcomes(f, smoothfits, corr, normalisation, ps);
        forall k | 0 <= k < |os|
          ensures os[k].Measured?
        {
          assert ps[k] in ps;
        }
      }
      var l := Accumulate(ps, os);
      assert l.testmu == AlignedTests(os) by {
        NoSkipAligned(os);
        TestmuIsMeasuredTests(ps, os);
      }
      assert PairLoop(f, smoothfits, corr, normalisation, ps) == Ok(l);
    }
  }

  /** With an unknown normalisation the dF list only holds the skipped pairs' NaNs. */
  lemma {:induction false} DfretOnlySkips(ps: seq<(nat, nat)>, os: seq<PairOutcome>)
    requires |ps| == |os|
    requires forall k :: 0 <= k < |os| ==> os[k].Measured? ==> os[k].dF.None?
    ensures |Accumulate(ps, os).dfret| + MeasuredCount(os) == |ps|
  {
    if ps != [] {
      var n := |ps| - 1;
      DfretOnlySkips(ps[..n], os[..n]);
      assert os[..n] == os[..|os| - 1];
    }
  }

  lemma {:induction false} MeasuredCountPositive(os: seq<PairOutcome>, k: nat)
    requires k < |os| && os[k].Measured?
    ensures MeasuredCount(os) > 0
  {
    var n := |os| - 1;
    if k < n {
      MeasuredCountPositive(os[..n], k);
    }
  }

  /** Under an unknown normalisation no measured pair of the loop carries a dF. */
  lemma UnknownStepsNone(f: EmgFile, smoothfits: seq<seq<Float>>, corr: (seq<Float>, seq<Float>) -> Float,
                         normalisation: string, ps: seq<(nat, nat)>)
    requires !ValidNormalisation(normalisation)
    requires Collect(PairSteps(f, smoothfits, corr, normalisation, ps)).Ok?
    ensures var os := Collect(PairSteps(f, smoothfits, corr, normalisation, ps)).value;
      |os| == |ps| && forall j :: 0 <= j < |os| ==> os[j].Measured? ==> os[j].dF.None?
  {
    LoopOutcomes(f, smoothfits, corr, normalisation, ps);
  }

  /** One measured pair without a dF makes the dF list shorter than the pair list. */
  lemma ShortAccumulate(ps: seq<(nat, nat)>, os: seq<PairOutcome>, k: nat)
    requires |ps| == |os| && k < |os| && os[k].Measured?
    requires forall j :: 0 <= j < |os| ==> os[j].Measured? ==> os[j].dF.None?
    ensures |Accumulate(ps, os).dfret| < |ps|
  {
    MeasuredCountPositive(os, k);
    DfretOnlySkips(ps, os);
  }

  /** An unknown normalisation and one measured pair leave the loop's dF list short. */
  lemma ShortLoop(f: EmgFile, smoothfits: seq<seq<Float>>, corr: (seq<Float>, seq<Float>) -> Float,
                  normalisation: string, p: (nat, nat))
    requires !ValidNormalisation(normalisation)
    requires p in Pairs(f.numberOfMus)
    requires PairStep(f, smoothfits, corr, normalisation, p).Ok? && PairStep(f, smoothfits, corr, normalisation, p).value.Measured?
    ensures var loop := PairLoop(f, smoothfits, corr, normalisation, Pairs(f.numberOfMus));
      loop.Ok? ==> |loop.value.dfret| < |loop.value.rRet|
  {
    var ps := Pairs(f.numberOfMus);
    var steps := PairSteps(f, smoothfits, corr, normalisation, ps);
    if Collect(steps).Ok? {
      var os := Collect(steps).value;
      var k :| 0 <= k < |ps| && ps[k] == p;
      assert |os| == |ps| && os[k].Measured? by {
        LoopOutcomes(f, smoothfits, corr, normalisation, ps);
      }
      UnknownStepsNone(f, smoothfits, corr, normalisation, ps);
      ShortAccumulate(ps, os, k);
    }
  }

  /**
   * An unknown normalisation leaves the dF list short as soon as one pair
   * is measured, so cleaning, or returning all pairs, fails.
   */
  lemma UnknownNormalisationFails(f: EmgFile, smoothfits: seq<seq<Float>>, corr: (seq<Float>, seq<Float>) -> Float,
                                  averageMethod: string, normalisation: string, rcrtCutoff: real, corrCutoff: real,
                                  modCutoff: real, clean: bool, p: (nat, nat))
    requires f.numberOfMus >= 2 && !ValidNormalisation(normalisation)
    requires clean || averageMethod != "test_unit_average"
    requires p in Pairs(f.numberOfMus)
    requires PairStep(f, smoothfits, corr, normalisation, p).Ok? && PairStep(f, smoothfits, corr, normalisation, p).value.Measured?
    ensures DeltaFOf(f, smoothfits, corr, averageMethod, normalisation, rcrtCutoff, corrCutoff, modCutoff, clean).Err?
  {
    var loop := PairLoop(f, smoothfits, corr, normalisation, Pairs(f.numberOfMus));
    if loop.Ok? {
      ShortLoop(f, smoothfits, corr, normalisation, p);
      ShortDfretFails(f.numberOfMus, averageMethod, loop.value, loop.value.testmu, clean, rcrtCutoff, corrCutoff, modCutoff);
    }
  }

  /** A dF list shorter than the pair list is rejected by the cleaning mask and by the all-pairs table. */
  lemma ShortDfretFails(n: nat, averageMethod: string, l: Lists, testmu: seq<int>, clean: bool, rcrtCutoff: real,
                        corrCutoff: real, modCutoff: real)
    requires |l.rRet| == |l.rcrtDiff| == |l.ctrlMod| == |l.mucombo|
    requires |l.dfret| < |l.rRet|
    requires clean || averageMethod != "test_unit_average"
    ensures AfterLoop(n, averageMethod, l, testmu, clean, rcrtCutoff, corrCutoff, modCutoff).Err?
  {
    if clean {
      assert Cleaned(l, rcrtCutoff, corrCutoff, modCutoff).Err?;
    }
  }

  /** Fewer than two MUs: as written, pandas rejects the NaN row the code builds. */
  lemma FewUnitsRejected(f: EmgFile, smoothfits: seq<seq<Float>>, corr: (seq<Float>, seq<Float>) -> Float,
                         averageMethod: string, normalisation: string, rcrtCutoff: real, corrCutoff: real,
                         modCutoff: real, clean: bool)
    requires f.numberOfMus < 2
    ensures DeltaFOf(f, smoothfits, corr, averageMethod, normalisation, rcrtCutoff, corrCutoff, modCutoff, clean)
      == Err(ValueError)
  {
  }

  // ---------------------------------------------------------------------
  // A skipped pair shifts the per-unit averages

  lemma ThreePairs()
    ensures Pairs(3) == [(0, 1), (0, 2), (1, 2)]
  {
    assert RowPairs(0, 3) == [(0, 1), (0, 2)];
    assert RowPairs(1, 3) == [(1, 2)];
    assert RowPairs(2, 3) == [];
    assert PairsFrom(3, 3) == [];
  }

  /** Whether one MU's rate file and discharges give the three spans of the example. */
  predicate ShiftExample(f: EmgFile, smoothfits: seq<seq<Float>>)
  {
    f.numberOfMus == 3
    && SpanOf(f.binary, 0) == Ok(Span(1, 10)) && SpanOf(f.binary, 1) == Ok(Span(20, 30))
    && SpanOf(f.binary, 2) == Ok(Span(5, 25))
    && |smoothfits| == 3 && |smoothfits[0]| > 30 && |smoothfits[1]| > 30 && |smoothfits[2]| > 30
    && smoothfits[0][5] == Num(3.0) && smoothfits[0][10] == Num(2.0)
    && smoothfits[2][20] == Num(5.0) && smoothfits[2][25] == Num(2.0)
  }

  /** MU 0 and MU 1 never overlap; MU 2 is tested against MU 0 (dF 1) and controls MU 1 (dF 3). */
  lemma ShiftSteps(f: EmgFile, smoothfits: seq<seq<Float>>, corr: (seq<Float>, seq<Float>) -> Float)
    requires ShiftExample(f, smoothfits)
    ensures PairStep(f, smoothfits, corr, "False", (0, 1)) == Ok(Skipped)
    ensures var o := PairStep(f, smoothfits, corr, "False", (0, 2));
      o.Ok? && o.value.Measured? && o.value.test == 2 && o.value.dF == Some(Num(1.0))
    ensures var o := PairStep(f, smoothfits, corr, "False", (1, 2));
      o.Ok? && o.value.Measured? && o.value.test == 1 && o.value.dF == Some(Num(3.0))
  {
    assert OverlapLen(Span(1, 10), Span(20, 30)) == 0;
    assert OverlapLen(Span(1, 10), Span(5, 25)) == 5;
    assert OverlapLen(Span(20, 30), Span(5, 25)) == 5;
  }

  lemma CollectSnoc<T>(rs: seq<Result<T>>, x: T)
    requires Collect(rs).Ok?
    ensures Collect(rs + [Ok(x)]) == Ok(Collect(rs).value + [x])
  {
    assert (rs + [Ok(x)])[..|rs|] == rs;
  }

  /** Three successful results collect to their values. */
  lemma CollectThree<T>(a: T, b: T, c: T)
    ensures Collect([Ok(a), Ok(b), Ok(c)]) == Ok([a, b, c])
  {
    var e: seq<Result<T>> := [];
    assert [Ok(a)] == e + [Ok(a)] && [Ok(a), Ok(b)] == [Ok(a)] + [Ok(b)];
    assert [Ok(a), Ok(b), Ok(c)] == [Ok(a), Ok(b)] + [Ok(c)];
    CollectSnoc(e, a);
    CollectSnoc([Ok(a)], b);
    CollectSnoc([Ok(a), Ok(b)], c);
    var v: seq<T> := [];
    assert v + [a] == [a] && [a] + [b] == [a, b] && [a, b] + [c] == [a, b, c];
  }

  /** The loop's lists for the example: dF [NaN, 1, 3] beside the test units [2, 1]. */
  lemma ShiftLists(f: EmgFile, smoothfits: seq<seq<Float>>, corr: (seq<Float>, seq<Float>) -> Float)
    requires ShiftExample(f, smoothfits)
    ensures var os := Collect(PairSteps(f, smoothfits, corr, "False", Pairs(3)));
      os.Ok? && |os.value| == 3 && os.value[0].Skipped? && os.value[1].Measured? && os.value[2].Measured?
      && AlignedTests(os.value) == [-1, 2, 1]
      && Accumulate(Pairs(3), os.value).testmu == [2, 1]
      && Accumulate(Pairs(3), os.value).dfret == [NaN, Num(1.0), Num(3.0)]
  {
    ThreePairs();
    ShiftSteps(f, smoothfits, corr);
    var steps := PairSteps(f, smoothfits, corr, "False", Pairs(3));
    var o1, o2 := steps[1].value, steps[2].value;
    assert steps == [Ok(Skipped), Ok(o1), Ok(o2)];
    CollectThree(Skipped, o1, o2);
    var os := [Skipped, o1, o2];
    assert AlignedTests(os) == [-1, 2, 1];
    ShiftAccumulate(o1, o2);
  }

  lemma AccumulateSnoc(ps: seq<(nat, nat)>, os: seq<PairOutcome>, p: (nat, nat), o: PairOutcome)
    requires |ps| == |os|
    ensures Accumulate(ps + [p], os + [o]) == Append(Accumulate(ps, os), p, o)
  {
    assert (ps + [p])[..|ps|] == ps && (os + [o])[..|os|] == os;
  }

  lemma ShiftAccumulate(o1: PairOutcome, o2: PairOutcome)
    requires o1.Measured? && o1.test == 2 && o1.dF == Some(Num(1.0))
    requires o2.Measured? && o2.test == 1 && o2.dF == Some(Num(3.0))
    ensures Accumulate([(0, 1), (0, 2), (1, 2)], [Skipped, o1, o2]).testmu == [2, 1]
    ensures Accumulate([(0, 1), (0, 2), (1, 2)], [Skipped, o1, o2]).dfret == [NaN, Num(1.0), Num(3.0)]
  {
    AccumulateThree((0, 1), (0, 2), (1, 2), Skipped, o1, o2);
    var l0 := Append(Lists([], [], [], [], [], [], []), (0, 1), Skipped);
    assert l0.testmu == [] && l0.dfret == [NaN];
    var l1 := Append(l0, (0, 2), o1);
    assert l1.testmu == [2] && l1.dfret == [NaN, Num(1.0)];
    var l2 := Append(l1, (1, 2), o2);
    assert l2.testmu == [2, 1] && l2.dfret == [NaN, Num(1.0), Num(3.0)];
  }

  /** Three iterations of the loop, one `Append` each. */
  lemma AccumulateThree(p0: (nat, nat), p1: (nat, nat), p2: (nat, nat), a: PairOutcome, b: PairOutcome, c: PairOutcome)
    ensures Accumulate([p0, p1, p2], [a, b, c])
      == Append(Append(Append(Lists([], [], [], [], [], [], []), p0, a), p1, b), p2, c)
  {
    var e: seq<(nat, nat)>, eo: seq<PairOutcome> := [], [];
    AccumulateSnoc(e, eo, p0, a);
    assert [p0] == e + [p0] && [a] == eo + [a];
    AccumulateSnoc([p0], [a], p1, b);
    assert [p0, p1] == [p0] + [p1] && [a, b] == [a] + [b];
    AccumulateSnoc([p0, p1], [a, b], p2, c);
    assert [p0, p1, p2] == [p0, p1] + [p2] && [a, b, c] == [a, b] + [c];
  }

  /** No pair selected for the unit: NaN. */
  lemma AverageOfNone(d: seq<Float>, testmu: seq<int>, ii: int)
    requires IndicesOf(testmu, ii) == []
    ensures UnitAverage(d, testmu, ii) == Ok(NaN)
  {
  }

  /** One pair selected for the unit: its dF. */
  lemma AverageOfOne(d: seq<Float>, testmu: seq<int>, ii: int, k: nat, x: real)
    requires IndicesOf(testmu, ii) == [k] && k < |d| && d[k] == Num(x)
    ensures UnitAverage(d, testmu, ii) == Ok(Num(x))
  {
    var idx := IndicesOf(testmu, ii);
    assert !(exists j :: 0 <= j < |idx| && idx[j] >= |d|);
    var vals := Selected(d, idx);
    assert vals == [Num(x)];
    assert !(forall j :: 0 <= j < |vals| ==> vals[j].NaN?) by {
      assert vals[0].Num?;
    }
    SingleNanMean(x);
  }

  lemma SingleNanMean(x: real)
    ensures NanMean([Num(x)]) == Num(x)
  {
    var one := [Num(x)];
    assert one[..0] == [];
    assert NumCount(one) == 1 && NumSum(one) == x;
  }

  lemma IndicesSnoc(t: seq<int>, x: int, ii: int)
    ensures IndicesOf(t + [x], ii) == IndicesOf(t, ii) + (if x == ii then [|t|] else [])
  {
    assert (t + [x])[..|t|] == t;
  }

  /** The test-unit lookup over two entries. */
  lemma IndicesOfTwo(a: int, b: int, ii: int)
    ensures IndicesOf([a, b], ii) == (if a == ii then [0] else []) + (if b == ii then [1] else [])
  {
    var e: seq<int> := [];
    IndicesSnoc(e, a, ii);
    assert [a] == e + [a] && [a, b] == [a] + [b];
    IndicesSnoc([a], b, ii);
  }

  /** The test-unit lookup over three entries. */
  lemma IndicesOfThree(a: int, b: int, c: int, ii: int)
    ensures IndicesOf([a, b, c], ii) == (if a == ii then [0] else []) + (if b == ii then [1] else [])
      + (if c == ii then [2] else [])
  {
    IndicesOfTwo(a, b, ii);
    assert [a, b, c] == [a, b] + [c];
    IndicesSnoc([a, b], c, ii);
  }

  /** The three averages from a dF list under the given test-unit list. */
  lemma ShiftAverages(testmu: seq<int>, d: seq<Float>, a0: Float, a1: Float, a2: Float)
    requires UnitAverage(d, testmu, 0) == Ok(a0)
    requires UnitAverage(d, testmu, 1) == Ok(a1)
    requires UnitAverage(d, testmu, 2) == Ok(a2)
    ensures UnitAverages(3, testmu, d) == Ok([a0, a1, a2])
  {
    var rs := seq(3, ii => UnitAverage(d, testmu, ii));
    assert rs == [Ok(a0), Ok(a1), Ok(a2)];
    CollectThree(a0, a1, a2);
  }

  lemma WrittenShiftAverages()
    ensures UnitAverages(3, [2, 1], [NaN, Num(1.0), Num(3.0)]) == Ok([NaN, Num(1.0), NaN])
  {
    var d := [NaN, Num(1.0), Num(3.0)];
    IndicesOfTwo(2, 1, 0);
    IndicesOfTwo(2, 1, 1);
    IndicesOfTwo(2, 1, 2);
    AverageOfNone(d, [2, 1], 0);
    AverageOfOne(d, [2, 1], 1, 1, 1.0);
    assert UnitAverage(d, [2, 1], 2) == Ok(NaN);
    ShiftAverages([2, 1], d, NaN, Num(1.0), NaN);
  }

  lemma IntendedShiftAverages()
    ensures UnitAverages(3, [-1, 2, 1], [NaN, Num(1.0), Num(3.0)]) == Ok([NaN, Num(3.0), Num(1.0)])
  {
    var d := [NaN, Num(1.0), Num(3.0)];
    IndicesOfThree(-1, 2, 1, 0);
    IndicesOfThree(-1, 2, 1, 1);
    IndicesOfThree(-1, 2, 1, 2);
    AverageOfNone(d, [-1, 2, 1], 0);
    AverageOfOne(d, [-1, 2, 1], 1, 2, 3.0);
    AverageOfOne(d, [-1, 2, 1], 2, 1, 1.0);
    ShiftAverages([-1, 2, 1], d, NaN, Num(3.0), Num(1.0));
  }

  /**
   * MU 0 fires over samples 1..10, MU 1 over 20..30 and MU 2 over 5..25:
   * the pair (0, 1) is skipped, MU 2 is tested against MU 0 (dF 1) and MU 1
   * against MU 2 (dF 3).  As written the test-unit list [2, 1] indexes the
   * dF list [NaN, 1, 3], so MU 2 gets the skipped pair's NaN and MU 1 the
   * dF of MU 2; aligned per pair, MU 1 gets 3 and MU 2 gets 1.
   */
  lemma SkippedPairShiftsAverages(f: EmgFile, smoothfits: seq<seq<Float>>, corr: (seq<Float>, seq<Float>) -> Float)
    requires ShiftExample(f, smoothfits)
    ensures DeltaFOf(f, smoothfits, corr, "test_unit_average", "False", 0.0, 0.0, 0.0, false)
      == Ok(DeltaF(UnitLabels(3), [NaN, Num(1.0), NaN]))
    ensures DeltaFIntended(f, smoothfits, corr, "test_unit_average", "False", 0.0, 0.0, 0.0, false)
      == Ok(DeltaF(UnitLabels(3), [NaN, Num(3.0), Num(1.0)]))
  {
    ShiftLists(f, smoothfits, corr);
    WrittenShiftAverages();
    IntendedShiftAverages();
    var os := Collect(PairSteps(f, smoothfits, corr, "False", Pairs(3))).value;
    var l := Accumulate(Pairs(3), os);
    assert PairLoop(f, smoothfits, corr, "False", Pairs(3)) == Ok(l);
  }

  // ---------------------------------------------------------------------
  // The imperative loops

  /** The pair loop of `compute_deltaf`, appending to the seven lists pair by pair. */
  method CollectPairs(f: EmgFile, smoothfits: seq<seq<Float>>, corr: (seq<Float>, seq<Float>) -> Float,
                      normalisation: string, ps: seq<(nat, nat)>) returns (r: Result<Lists>)
    ensures r == PairLoop(f, smoothfits, corr, normalisation, ps)
  {
    var steps := PairSteps(f, smoothfits, corr, normalisation, ps);
    var rRet, dfret, ctrlMod, rcrtDiff: seq<Float> := [], [], [], [];
    var testmu, controlmu: seq<int> := [], [];
    var mucombo: seq<(nat, nat)> := [];
    ghost var outs: seq<PairOutcome> := [];
    for k := 0 to |ps|
      invariant Collect(steps[..k]) == Ok(outs)
      invariant |outs| == k
      invariant Lists(rRet, dfret, testmu, ctrlMod, mucombo, rcrtDiff, controlmu) == Accumulate(ps[..k], outs)
    {
      CollectStep(steps, k);
      mucombo := mucombo + [ps[k]];
      var o := steps[k];
      if o.Err? {
        CollectPrefixErr(steps, k + 1);
        return Err(o.error);
      }
      match o.value {
        case Skipped =>
          dfret := dfret + [NaN];
          rRet := rRet + [NaN];
          rcrtDiff := rcrtDiff + [NaN];
          ctrlMod := ctrlMod + [NaN];
        case Measured(control, test, corrValue, rd, modulation, dF) =>
          rRet := rRet + [corrValue];
          rcrtDiff := rcrtDiff + [rd];
          ctrlMod := ctrlMod + [modulation];
          if dF.Some? {
            dfret := dfret + [dF.value];
          }
          controlmu := controlmu + [control];
          testmu := testmu + [test];
      }
      AccumulateSnoc(ps[..k], outs, ps[k], o.value);
      TakeOneMore(ps, k);
      outs := outs + [o.value];
    }
    assert steps[..|ps|] == steps && ps[..|ps|] == ps;
    r := Ok(Lists(rRet, dfret, testmu, ctrlMod, mucombo, rcrtDiff, controlmu));
  }

  /** The "test_unit_average" loop over MUs 0..n-1. */
  method AverageByTest(n: nat, testmu: seq<int>, d: seq<Float>) returns (r: Result<DeltaF>)
    ensures r == Finish(n, "test_unit_average", [], testmu, d)
  {
    if |d| == 0 {
      return Err(TypeError);
    }
    var dfs: seq<Float> := [];
    var mus: seq<MuLabel> := [];
    ghost var us := seq(n, ii => UnitAverage(d, testmu, ii));
    for ii := 0 to n
      invariant Collect(us[..ii]) == Ok(dfs)
      invariant mus == UnitLabels(ii)
    {
      CollectStep(us, ii);
      var u := UnitAverage(d, testmu, ii);
      if u.Err? {
        CollectPrefixErr(us, ii + 1);
        return Err(u.error);
      }
      dfs := dfs + [u.value];
      assert UnitLabels(ii + 1) == UnitLabels(ii) + [Unit(ii)];
      mus := mus + [Unit(ii)];
    }
    assert us[..n] == us;
    r := Ok(DeltaF(mus, dfs));
  }

  /** The exclusion step on a fresh array holding the dF list. */
  method CleanDfret(l: Lists, rcrtCutoff: real, corrCutoff: real, modCutoff: real) returns (r: Result<seq<Float>>)
    requires |l.rRet| == |l.rcrtDiff| == |l.ctrlMod|
    ensures r == Cleaned(l, rcrtCutoff, corrCutoff, modCutoff)
  {
    var d := l.dfret;
    var keep := Keep(l, rcrtCutoff, corrCutoff, modCutoff);
    if |d| == 0 {
      return Err(TypeError);
    }
    if |d| != |keep| {
      return Err(IndexError);
    }
    var a := new Float[|d|](j requires 0 <= j < |d| => d[j]);
    assert a[..] == d;
    MaskNaN(a, keep);
    r := Ok(a[..]);
  }

  /** `compute_deltaf` as written, step by step. */
  method ComputeDeltaF(f: EmgFile, smoothfits: seq<seq<Float>>, corr: (seq<Float>, seq<Float>) -> Float,
                       averageMethod: string, normalisation: string, rcrtCutoff: real, corrCutoff: real,
                       modCutoff: real, clean: bool) returns (r: Result<DeltaF>)
    ensures r == DeltaFOf(f, smoothfits, corr, averageMethod, normalisation, rcrtCutoff, corrCutoff, modCutoff, clean)
  {
    if f.numberOfMus < 2 {
      return Err(ValueError);
    }
    var loop := CollectPairs(f, smoothfits, corr, normalisation, Pairs(f.numberOfMus));
    if loop.Err? {
      return Err(loop.error);
    }
    var l := loop.value;
    var d := l.dfret;
    if clean {
      var cleaned := CleanDfret(l, rcrtCutoff, corrCutoff, modCutoff);
      if cleaned.Err? {
        return Err(cleaned.error);
      }
      d := cleaned.value;
    }
    if averageMethod == "test_unit_average" {
      r := AverageByTest(f.numberOfMus, l.testmu, d);
    } else if |l.mucombo| != |d| {
      r := Err(ValueError);
    } else {
      r := Ok(DeltaF(PairLabels(l.mucombo), d));
    }
  }
}
