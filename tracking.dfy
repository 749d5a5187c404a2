/**
 * MU tracking across two files (`tracking` and `remove_duplicates_between`
 * in openhdemg/library/muap.py): the table of cross-correlations between
 * every MU of file 1 and every MU of file 2, its filter down to one pair per
 * MU, and the removal of the MUs found in both files.
 *
 * The STAs, their alignment and their 2-D cross-correlation are not
 * computed here: the correlation of each pair is the input `xcc`.
 */
module Tracking {
  import opened Common
  import opened EmgRecord
  import Tools

  /** One row of the tracking table: MU_file1, MU_file2, XCC. */
  datatype TrackRow = TrackRow(mu1: int, mu2: int, xcc: real)

  // ---------------------------------------------------------------------
  // The table of pairs

  /** Whether a pair is recorded: always, or only at or above the threshold. */
  predicate Recorded(x: real, threshold: real, exclude: bool)
  {
    !exclude || x >= threshold
  }

  /** The rows of MU `i` of file 1 against MUs 0 .. m-1 of file 2, in order. */
  function RowsOf(i: int, m: nat, xcc: (int, int) -> real, threshold: real, exclude: bool): seq<TrackRow>
  {
    if m == 0 then []
    else
      RowsOf(i, m - 1, xcc, threshold, exclude)
      + (if Recorded(xcc(i, m - 1), threshold, exclude) then [TrackRow(i, m - 1, xcc(i, m - 1))] else [])
  }

  /** The rows of MUs 0 .. n-1 of file 1, one MU after the other. */
  function AllRows(n: nat, m: nat, xcc: (int, int) -> real, threshold: real, exclude: bool): seq<TrackRow>
  {
    if n == 0 then [] else AllRows(n - 1, m, xcc, threshold, exclude) + RowsOf(n - 1, m, xcc, threshold, exclude)
  }

  /** A row of the table for the pair (mu1, mu2) among n x m MUs. */
  predicate IsPairRow(r: TrackRow, n: nat, m: nat, xcc: (int, int) -> real, threshold: real, exclude: bool)
  {
    0 <= r.mu1 < n && 0 <= r.mu2 < m && r.xcc == xcc(r.mu1, r.mu2) && Recorded(r.xcc, threshold, exclude)
  }

  lemma {:induction false} RowsOfMembers(i: int, m: nat, xcc: (int, int) -> real, threshold: real, exclude: bool)
    ensures forall r :: r in RowsOf(i, m, xcc, threshold, exclude) <==>
      r.mu1 == i && 0 <= r.mu2 < m && r.xcc == xcc(i, r.mu2) && Recorded(r.xcc, threshold, exclude)
  {
    if m > 0 {
      RowsOfMembers(i, m - 1, xcc, threshold, exclude);
    }
  }

  /** The table holds exactly the recorded pairs. */
  lemma {:induction false} AllRowsMembers(n: nat, m: nat, xcc: (int, int) -> real, threshold: real, exclude: bool)
    ensures forall r :: r in AllRows(n, m, xcc, threshold, exclude) <==> IsPairRow(r, n, m, xcc, threshold, exclude)
  {
    if n > 0 {
      AllRowsMembers(n - 1, m, xcc, threshold, exclude);
      RowsOfMembers(n - 1, m, xcc, threshold, exclude);
    }
  }

  lemma {:induction false} RowsOfCount(i: int, m: nat, xcc: (int, int) -> real, threshold: real)
    ensures |RowsOf(i, m, xcc, threshold, false)| == m
  {
    if m > 0 {
      RowsOfCount(i, m - 1, xcc, threshold);
    }
  }

  /** Without the threshold every one of the n x m pairs has a row. */
  lemma {:induction false} AllRowsCount(n: nat, m: nat, xcc: (int, int) -> real, threshold: real)
    ensures |AllRows(n, m, xcc, threshold, false)| == n * m
  {
    if n > 0 {
      AllRowsCount(n - 1, m, xcc, threshold);
      RowsOfCount(n - 1, m, xcc, threshold);
      assert (n - 1) * m + m == n * m;
    }
  }

  /** Row a comes before row b: by MU_file1, then by MU_file2. */
  predicate PairBefore(a: TrackRow, b: TrackRow)
  {
    a.mu1 < b.mu1 || (a.mu1 == b.mu1 && a.mu2 < b.mu2)
  }

  lemma {:induction false} RowsOfOrdered(i: int, m: nat, xcc: (int, int) -> real, threshold: real, exclude: bool)
    ensures forall a, b :: 0 <= a < b < |RowsOf(i, m, xcc, threshold, exclude)| ==>
      RowsOf(i, m, xcc, threshold, exclude)[a].mu2 < RowsOf(i, m, xcc, threshold, exclude)[b].mu2
    ensures forall a :: 0 <= a < |RowsOf(i, m, xcc, threshold, exclude)| ==>
      RowsOf(i, m, xcc, threshold, exclude)[a].mu1 == i && RowsOf(i, m, xcc, threshold, exclude)[a].mu2 < m
  {
    if m > 0 {
      RowsOfOrdered(i, m - 1, xcc, threshold, exclude);
      var s' := RowsOf(i, m - 1, xcc, threshold, exclude);
      var s := RowsOf(i, m, xcc, threshold, exclude);
      assert forall a :: 0 <= a < |s'| ==> s[a] == s'[a];
    }
  }

  /** The table lists the pairs in order of MU_file1, then MU_file2 (the parallel map keeps submission order). */
  lemma {:induction false} AllRowsOrdered(n: nat, m: nat, xcc: (int, int) -> real, threshold: real, exclude: bool)
    ensures forall a, b :: 0 <= a < b < |AllRows(n, m, xcc, threshold, exclude)| ==>
      PairBefore(AllRows(n, m, xcc, threshold, exclude)[a], AllRows(n, m, xcc, threshold, exclude)[b])
    ensures forall a :: 0 <= a < |AllRows(n, m, xcc, threshold, exclude)| ==> AllRows(n, m, xcc, threshold, exclude)[a].mu1 < n
  {
    if n > 0 {
      AllRowsOrdered(n - 1, m, xcc, threshold, exclude);
      RowsOfOrdered(n - 1, m, xcc, threshold, exclude);
      var s' := AllRows(n - 1, m, xcc, threshold, exclude);
      var t := RowsOf(n - 1, m, xcc, threshold, exclude);
      var s := AllRows(n, m, xcc, threshold, exclude);
      assert forall a :: 0 <= a < |s'| ==> s[a] == s'[a];
      assert forall a :: |s'| <= a < |s| ==> s[a] == t[a - |s'|];
    }
  }

  /** The loops of `tracking` that fill the table, one MU of file 1 at a time. */
  method TrackingRows(n: nat, m: nat, xcc: (int, int) -> real, threshold: real, exclude: bool) returns (rows: seq<TrackRow>)
    ensures rows == AllRows(n, m, xcc, threshold, exclude)
  {
    rows := [];
    for mu1 := 0 to n
      invariant rows == AllRows(mu1, m, xcc, threshold, exclude)
    {
      var res := [];
      for mu2 := 0 to m
        invariant res == RowsOf(mu1, mu2, xcc, threshold, exclude)
      {
        var x := xcc(mu1, mu2);
        if !exclude {
          res := res + [TrackRow(mu1, mu2, x)];
        } else if x >= threshold {
          res := res + [TrackRow(mu1, mu2, x)];
        }
      }
      rows := rows + res;
    }
  }

  // ---------------------------------------------------------------------
  // Sorting

  datatype KeyKind = ByMu1 | ByMu2

  function Key(r: TrackRow, kk: KeyKind): int
  {
    match kk
    case ByMu1 => r.mu1
    case ByMu2 => r.mu2
  }

  /** The orders the filter sorts by: descending on (key, XCC), or ascending on MU_file1. */
  datatype Order = Desc(kk: KeyKind) | AscMu1

  /** Row a sorts strictly before row b. */
  predicate Before(o: Order, a: TrackRow, b: TrackRow)
  {
    match o
    case Desc(kk) => Key(a, kk) > Key(b, kk) || (Key(a, kk) == Key(b, kk) && a.xcc > b.xcc)
    case AscMu1 => a.mu1 < b.mu1
  }

  predicate SortedBy(o: Order, s: seq<TrackRow>)
  {
    forall i, j :: 0 <= i < j < |s| ==> !Before(o, s[j], s[i])
  }

  /** `x` placed after every row of `s` it does not sort strictly before. */
  function Insert(o: Order, s: seq<TrackRow>, x: TrackRow): (t: seq<TrackRow>)
    ensures multiset(t) == multiset(s) + multiset{x}
  {
    if s == [] then [x]
    else if Before(o, x, s[0]) then [x] + s
    else
      assert s == [s[0]] + s[1..];
      [s[0]] + Insert(o, s[1..], x)
  }

  /** pandas `sort_values`, as a stable sort: rows that tie keep their order. */
  function Sort(o: Order, s: seq<TrackRow>): (t: seq<TrackRow>)
    ensures multiset(t) == multiset(s)
  {
    if s == [] then []
    else
      assert s == s[..|s| - 1] + [s[|s| - 1]];
      Insert(o, Sort(o, s[..|s| - 1]), s[|s| - 1])
  }

  lemma {:induction false} InsertSorted(o: Order, s: seq<TrackRow>, x: TrackRow)
    requires SortedBy(o, s)
    ensures SortedBy(o, Insert(o, s, x))
  {
    if s != [] && !Before(o, x, s[0]) {
      var tail := s[1..];
      assert SortedBy(o, tail) by {
        assert forall i :: 0 <= i < |tail| ==> tail[i] == s[i + 1];
      }
      InsertSorted(o, tail, x);
      var t := Insert(o, tail, x);
      forall j | 0 <= j < |t| ensures !Before(o, t[j], s[0]) {
        assert t[j] in multiset(tail) + multiset{x};
        if t[j] != x {
          assert t[j] in tail;
        }
      }
    }
  }

  /** The sort gives a sorted permutation. */
  lemma {:induction false} SortSorted(o: Order, s: seq<TrackRow>)
    ensures SortedBy(o, Sort(o, s))
  {
    if s != [] {
      SortSorted(o, s[..|s| - 1]);
      InsertSorted(o, Sort(o, s[..|s| - 1]), s[|s| - 1]);
    }
  }

  // ---------------------------------------------------------------------
  // One row per key

  /** Position of the first row with key `k`, or |s| when there is none. */
  function FirstIndexWithKey(s: seq<TrackRow>, kk: KeyKind, k: int): (p: nat)
    ensures p <= |s|
    ensures p < |s| ==> Key(s[p], kk) == k
  {
    if s == [] then 0
    else
      var p := FirstIndexWithKey(s[..|s| - 1], kk, k);
      if p < |s| - 1 then p
      else if Key(s[|s| - 1], kk) == k then |s| - 1
      else |s|
  }

  predicate HasKey(s: seq<TrackRow>, kk: KeyKind, k: int)
  {
    FirstIndexWithKey(s, kk, k) < |s|
  }

  /** No row before the first index has the key, and every row with the key is at or after it. */
  lemma {:induction false} FirstIndexIsFirst(s: seq<TrackRow>, kk: KeyKind, k: int)
    ensures forall j :: 0 <= j < |s| && Key(s[j], kk) == k ==> FirstIndexWithKey(s, kk, k) <= j
  {
    if s != [] {
      var p := s[..|s| - 1];
      FirstIndexIsFirst(p, kk, k);
      assert forall j :: 0 <= j < |p| ==> p[j] == s[j];
    }
  }

  /** The first row of each key, in order of first appearance (`drop_duplicates` on the key). */
  function FirstOfEachKey(s: seq<TrackRow>, kk: KeyKind): seq<TrackRow>
  {
    if s == [] then []
    else
      var p := s[..|s| - 1];
      FirstOfEachKey(p, kk) + (if HasKey(p, kk, Key(s[|s| - 1], kk)) then [] else [s[|s| - 1]])
  }

  /** `unique()` of the key column: its values in order of first appearance. */
  function UniqueKeys(s: seq<TrackRow>, kk: KeyKind): (u: seq<int>)
    ensures |u| == |FirstOfEachKey(s, kk)|
  {
    var f := FirstOfEachKey(s, kk);
    seq(|f|, p requires 0 <= p < |f| => Key(f[p], kk))
  }

  /** Each kept row is the first row of its key. */
  lemma {:induction false} FirstOfEachKeyIsFirst(s: seq<TrackRow>, kk: KeyKind)
    ensures forall q :: 0 <= q < |FirstOfEachKey(s, kk)| ==>
      FirstIndexWithKey(s, kk, Key(FirstOfEachKey(s, kk)[q], kk)) < |s|
      && s[FirstIndexWithKey(s, kk, Key(FirstOfEachKey(s, kk)[q], kk))] == FirstOfEachKey(s, kk)[q]
  {
    if s != [] {
      var p := s[..|s| - 1];
      var last := s[|s| - 1];
      FirstOfEachKeyIsFirst(p, kk);
      var f' := FirstOfEachKey(p, kk);
      var f := FirstOfEachKey(s, kk);
      forall q | 0 <= q < |f|
        ensures FirstIndexWithKey(s, kk, Key(f[q], kk)) < |s| && s[FirstIndexWithKey(s, kk, Key(f[q], kk))] == f[q]
      {
        if q < |f'| {
          assert f[q] == f'[q];
          var i := FirstIndexWithKey(p, kk, Key(f'[q], kk));
          assert FirstIndexWithKey(s, kk, Key(f[q], kk)) == i;
          assert p[i] == s[i];
        } else {
          assert f[q] == last && !HasKey(p, kk, Key(last, kk));
        }
      }
    }
  }

  /** The kept rows come from `s`. */
  lemma {:induction false} FirstOfEachKeySub(s: seq<TrackRow>, kk: KeyKind)
    ensures multiset(FirstOfEachKey(s, kk)) <= multiset(s)
  {
    if s != [] {
      var p := s[..|s| - 1];
      FirstOfEachKeySub(p, kk);
      assert s == p + [s[|s| - 1]];
    }
  }

  predicate KeyDistinct(s: seq<TrackRow>, kk: KeyKind)
  {
    forall i, j :: 0 <= i < j < |s| ==> Key(s[i], kk) != Key(s[j], kk)
  }

  lemma HasKeyOfMember(s: seq<TrackRow>, kk: KeyKind, x: TrackRow)
    requires x in s
    ensures HasKey(s, kk, Key(x, kk))
  {
    var j :| 0 <= j < |s| && s[j] == x;
    FirstIndexIsFirst(s, kk, Key(x, kk));
  }

  /** No key is kept twice. */
  lemma {:induction false} FirstOfEachKeyDistinct(s: seq<TrackRow>, kk: KeyKind)
    ensures KeyDistinct(FirstOfEachKey(s, kk), kk)
  {
    if s != [] {
      var p := s[..|s| - 1];
      var last := s[|s| - 1];
      FirstOfEachKeyDistinct(p, kk);
      FirstOfEachKeySub(p, kk);
      var f := FirstOfEachKey(p, kk);
      if !HasKey(p, kk, Key(last, kk)) {
        forall i | 0 <= i < |f| ensures Key(f[i], kk) != Key(last, kk) {
          assert f[i] in multiset(p);
          HasKeyOfMember(p, kk, f[i]);
        }
      }
    }
  }

  /** Every key of `s` keeps a row. */
  lemma {:induction false} FirstOfEachKeyCovers(s: seq<TrackRow>, kk: KeyKind, j: nat)
    requires j < |s|
    ensures exists q :: 0 <= q < |FirstOfEachKey(s, kk)| && Key(FirstOfEachKey(s, kk)[q], kk) == Key(s[j], kk)
  {
    var p := s[..|s| - 1];
    var f := FirstOfEachKey(p, kk);
    if j < |s| - 1 {
      assert p[j] == s[j];
      FirstOfEachKeyCovers(p, kk, j);
      var q :| 0 <= q < |f| && Key(f[q], kk) == Key(p[j], kk);
      assert FirstOfEachKey(s, kk)[q] == f[q];
    } else if HasKey(p, kk, Key(s[j], kk)) {
      var i := FirstIndexWithKey(p, kk, Key(s[j], kk));
      FirstOfEachKeyCovers(p, kk, i);
      var q :| 0 <= q < |f| && Key(f[q], kk) == Key(p[i], kk);
      assert FirstOfEachKey(s, kk)[q] == f[q];
    } else {
      assert FirstOfEachKey(s, kk)[|f|] == s[j];
    }
  }

  /** On rows sorted by descending (key, XCC), each kept row has the highest XCC of its key. */
  lemma FirstOfEachKeyBest(s: seq<TrackRow>, kk: KeyKind, x: TrackRow, y: TrackRow)
    requires SortedBy(Desc(kk), s)
    requires x in FirstOfEachKey(s, kk) && y in s && Key(y, kk) == Key(x, kk)
    ensures y.xcc <= x.xcc
  {
    var f := FirstOfEachKey(s, kk);
    FirstOfEachKeyIsFirst(s, kk);
    var q :| 0 <= q < |f| && f[q] == x;
    var i := FirstIndexWithKey(s, kk, Key(x, kk));
    var j :| 0 <= j < |s| && s[j] == y;
    FirstIndexIsFirst(s, kk, Key(x, kk));
    assert i <= j;
    if i < j {
      assert !Before(Desc(kk), s[j], s[i]);
    }
  }

  /**
   * One pass of the filter loop: for each unique key, in order, the first
   * row with that key (`this_res.iloc[0]` of the rows with the key).
   */
  method BestPerKey(s: seq<TrackRow>, kk: KeyKind) returns (r: seq<TrackRow>)
    ensures r == FirstOfEachKey(s, kk)
  {
    var unique := UniqueKeys(s, kk);
    ghost var f := FirstOfEachKey(s, kk);
    FirstOfEachKeyIsFirst(s, kk);
    r := [];
    for pos := 0 to |unique|
      invariant r == f[..pos]
    {
      assert unique[pos] == Key(f[pos], kk);
      var p := FirstIndexWithKey(s, kk, unique[pos]);
      r := r + [s[p]];
    }
    assert f[..|f|] == f;
  }

  // ---------------------------------------------------------------------
  // The filter

  /** The first pass: the best pair of each MU of file 1. */
  function Pass1(rows: seq<TrackRow>): seq<TrackRow>
  {
    FirstOfEachKey(Sort(Desc(ByMu1), rows), ByMu1)
  }

  /** The second pass: the best first-pass pair of each MU of file 2. */
  function Pass2(rows: seq<TrackRow>): seq<TrackRow>
  {
    FirstOfEachKey(Sort(Desc(ByMu2), Pass1(rows)), ByMu2)
  }

  /** The filtered table, sorted by MU_file1. */
  function Filtered(rows: seq<TrackRow>): seq<TrackRow>
  {
    Sort(AscMu1, Pass2(rows))
  }

  /** The filter of `tracking`: two passes, then sorting by MU_file1. */
  method TrackingFilter(rows: seq<TrackRow>) returns (r: seq<TrackRow>)
    ensures r == Filtered(rows)
  {
    var sorted := Sort(Desc(ByMu1), rows);
    var unique1 := BestPerKey(sorted, ByMu1);
    sorted := Sort(Desc(ByMu2), unique1);
    var unique2 := BestPerKey(sorted, ByMu2);
    r := Sort(AscMu1, unique2);
  }

  lemma SubMember(a: seq<TrackRow>, b: seq<TrackRow>, x: TrackRow)
    requires multiset(a) <= multiset(b) && x in a
    ensures x in b
  {
    assert x in multiset(a);
  }

  /** The filter keeps rows of the table only. */
  lemma FilteredSub(rows: seq<TrackRow>)
    ensures multiset(Filtered(rows)) <= multiset(Pass2(rows))
    ensures multiset(Pass2(rows)) <= multiset(Pass1(rows))
    ensures multiset(Pass1(rows)) <= multiset(rows)
    ensures multiset(Filtered(rows)) <= multiset(rows)
  {
    FirstOfEachKeySub(Sort(Desc(ByMu1), rows), ByMu1);
    FirstOfEachKeySub(Sort(Desc(ByMu2), Pass1(rows)), ByMu2);
  }

  predicate KeyAbsent(s: seq<TrackRow>, kk: KeyKind, k: int)
  {
    forall y :: y in s ==> Key(y, kk) != k
  }

  lemma ConsKeyDistinct(a: TrackRow, t: seq<TrackRow>, kk: KeyKind)
    requires KeyDistinct(t, kk) && forall j :: 0 <= j < |t| ==> Key(t[j], kk) != Key(a, kk)
    ensures KeyDistinct([a] + t, kk)
  {
    var r := [a] + t;
    assert forall i :: 0 < i < |r| ==> r[i] == t[i - 1];
  }

  lemma {:induction false} InsertKeyDistinct(o: Order, s: seq<TrackRow>, x: TrackRow, kk: KeyKind)
    requires KeyDistinct(s, kk) && KeyAbsent(s, kk, Key(x, kk))
    ensures KeyDistinct(Insert(o, s, x), kk)
  {
    if s == [] {
    } else if Before(o, x, s[0]) {
      assert forall j :: 0 <= j < |s| ==> s[j] in s;
      ConsKeyDistinct(x, s, kk);
    } else {
      var tail := s[1..];
      assert KeyDistinct(tail, kk) by {
        assert forall i :: 0 <= i < |tail| ==> tail[i] == s[i + 1];
      }
      assert KeyAbsent(tail, kk, Key(x, kk)) by {
        assert forall y :: y in tail ==> y in s;
      }
      InsertKeyDistinct(o, tail, x, kk);
      var t := Insert(o, tail, x);
      forall j | 0 <= j < |t| ensures Key(t[j], kk) != Key(s[0], kk) {
        assert t[j] in multiset(tail) + multiset{x};
        if t[j] != x {
          var i :| 0 <= i < |tail| && tail[i] == t[j];
          assert t[j] == s[i + 1];
        }
      }
      ConsKeyDistinct(s[0], t, kk);
    }
  }

  /** Sorting keeps keys distinct. */
  lemma {:induction false} SortKeyDistinct(o: Order, s: seq<TrackRow>, kk: KeyKind)
    requires KeyDistinct(s, kk)
    ensures KeyDistinct(Sort(o, s), kk)
  {
    if s != [] {
      var p := s[..|s| - 1];
      var last := s[|s| - 1];
      assert KeyDistinct(p, kk);
      SortKeyDistinct(o, p, kk);
      forall y | y in Sort(o, p) ensures Key(y, kk) != Key(last, kk) {
        assert y in multiset(p);
        var i :| 0 <= i < |p| && p[i] == y;
      }
      InsertKeyDistinct(o, Sort(o, p), last, kk);
    }
  }

  /** Two rows with the same key in a key-distinct sequence are the same row. */
  lemma KeyDistinctSame(s: seq<TrackRow>, kk: KeyKind, a: TrackRow, b: TrackRow)
    requires KeyDistinct(s, kk) && a in s && b in s && Key(a, kk) == Key(b, kk)
    ensures a == b
  {
  }

  /** No MU of file 2 appears twice after the filter. */
  lemma FilteredDistinct2(rows: seq<TrackRow>)
    ensures KeyDistinct(Filtered(rows), ByMu2)
  {
    FirstOfEachKeyDistinct(Sort(Desc(ByMu2), Pass1(rows)), ByMu2);
    SortKeyDistinct(AscMu1, Pass2(rows), ByMu2);
  }

  /** Rows distinct in one key, drawn from rows distinct in the other, are distinct in both. */
  lemma DistinctFromSource(f: seq<TrackRow>, src: seq<TrackRow>)
    requires KeyDistinct(f, ByMu2) && KeyDistinct(src, ByMu1) && multiset(f) <= multiset(src)
    ensures KeyDistinct(f, ByMu1)
  {
    forall i, j | 0 <= i < j < |f| ensures f[i].mu1 != f[j].mu1 {
      assert f[i].mu2 != f[j].mu2;
      assert f[i] in multiset(src) && f[j] in multiset(src);
      if f[i].mu1 == f[j].mu1 {
        KeyDistinctSame(src, ByMu1, f[i], f[j]);
      }
    }
  }

  /** No MU of file 1 appears twice after the filter. */
  lemma FilteredDistinct1(rows: seq<TrackRow>)
    ensures KeyDistinct(Filtered(rows), ByMu1)
  {
    FilteredDistinct2(rows);
    FilteredSub(rows);
    FirstOfEachKeyDistinct(Sort(Desc(ByMu1), rows), ByMu1);
    DistinctFromSource(Filtered(rows), Pass1(rows));
  }

  /** The filtered table is sorted by strictly increasing MU_file1. */
  lemma FilteredIncreasing(rows: seq<TrackRow>)
    ensures var f := Filtered(rows); forall i, j :: 0 <= i < j < |f| ==> f[i].mu1 < f[j].mu1
  {
    SortSorted(AscMu1, Pass2(rows));
    FilteredDistinct1(rows);
  }

  /** Each kept pair has the highest XCC of all the rows of its MU of file 1. */
  lemma FilteredBestForMu1(rows: seq<TrackRow>, x: TrackRow, y: TrackRow)
    requires x in Filtered(rows) && y in rows && y.mu1 == x.mu1
    ensures y.xcc <= x.xcc
  {
    FilteredSub(rows);
    var s := Sort(Desc(ByMu1), rows);
    SubMember(Filtered(rows), Pass1(rows), x);
    SubMember(rows, s, y);
    SortSorted(Desc(ByMu1), rows);
    FirstOfEachKeyBest(s, ByMu1, x, y);
  }

  /** Each kept pair has the highest XCC of the first-pass rows of its MU of file 2. */
  lemma FilteredBestForMu2(rows: seq<TrackRow>, x: TrackRow, y: TrackRow)
    requires x in Filtered(rows) && y in Pass1(rows) && y.mu2 == x.mu2
    ensures y.xcc <= x.xcc
  {
    FilteredSub(rows);
    var s := Sort(Desc(ByMu2), Pass1(rows));
    SubMember(Filtered(rows), Pass2(rows), x);
    SubMember(Pass1(rows), s, y);
    SortSorted(Desc(ByMu2), Pass1(rows));
    FirstOfEachKeyBest(s, ByMu2, x, y);
  }

  /** Every MU of file 1 in the table keeps one first-pass row. */
  lemma Pass1Covers(rows: seq<TrackRow>, j: nat)
    requires j < |rows|
    ensures exists q :: 0 <= q < |Pass1(rows)| && Pass1(rows)[q].mu1 == rows[j].mu1
  {
    var s := Sort(Desc(ByMu1), rows);
    assert rows[j] in multiset(s);
    var i :| 0 <= i < |s| && s[i] == rows[j];
    FirstOfEachKeyCovers(s, ByMu1, i);
    var q :| 0 <= q < |Pass1(rows)| && Key(Pass1(rows)[q], ByMu1) == Key(s[i], ByMu1);
    assert Pass1(rows)[q].mu1 == rows[j].mu1;
  }

  // ---------------------------------------------------------------------
  // tracking

  /** What `custom_muaps` holds at one position: a dict of MUAPs (with its MU keys) or something else. */
  datatype EntryKind = DictEntry(keys: set<int>) | OtherEntry

  /**
   * Where the MUAPs come from: STAs the function computes (the outcome of
   * sorting the channels and of `sta`, which are not modelled here, and the
   * derivation asked for), or the list `custom_muaps`.
   */
  datatype MuapInput =
    | ComputedSta(derivation: string, sortError: Option<Error>, staError: Option<Error>)
    | CustomMuaps(entries: seq<EntryKind>)

  /** The parameters of `sort_rawemg` (library/electrodes.py). */
  const SortRawemgParams: seq<string> := ["emgfile", "code", "orientation", "dividebycolumn", "n_rows", "n_cols"]

  /** The keywords `tracking` passes to `sort_rawemg`, as written. */
  const TrackingSortKeywords: seq<string> := ["emgfile", "code", "orientation", "n_rows", "n_cols", "custom_sorting_order"]

  /** The keywords `sort_rawemg` accepts, as the call evidently intends. */
  const IntendedSortKeywords: seq<string> := ["emgfile", "code", "orientation", "n_rows", "n_cols"]

  /** Every keyword names a parameter of `sort_rawemg`. */
  predicate SortAccepts(keywords: seq<string>)
  {
    forall i :: 0 <= i < |keywords| ==> keywords[i] in SortRawemgParams
  }

  /**
   * The error raised while obtaining the MUAPs, if any, when `sort_rawemg`
   * is called with `keywords`: an unknown keyword is a TypeError.
   */
  function InputError(input: MuapInput, keywords: seq<string>): (e: Option<Error>)
    ensures input.ComputedSta? && !SortAccepts(keywords) ==> e == Some(TypeError)
    ensures input.ComputedSta? && SortAccepts(keywords) ==>
      e == if input.sortError.Some? then input.sortError
           else if input.derivation !in ["mono", "sd", "dd"] then Some(ValueError)
           else input.staError
    ensures input.CustomMuaps? ==> (e.None? <==> |input.entries| == 2 && input.entries[0].DictEntry? && input.entries[1].DictEntry?)
    ensures input.CustomMuaps? && e.Some? ==> e == Some(ValueError)
  {
    match input
    case ComputedSta(derivation, sortError, staError) =>
      if !SortAccepts(keywords) then Some(TypeError)
      else if sortError.Some? then sortError
      else if derivation != "mono" && derivation != "sd" && derivation != "dd" then Some(ValueError)
      else staError
    case CustomMuaps(entries) =>
      if |entries| != 2 then Some(ValueError)
      else if !entries[0].DictEntry? then Some(ValueError)
      else if !entries[1].DictEntry? then Some(ValueError)
      else None
  }

  /**
   * The correlation loop reads `sta_emgfile1[mu_file1]` and
   * `sta_emgfile2[mu_file2]` for every pair: with custom MUAPs a key
   * missing from either dict is a KeyError (there are no lookups without
   * MUs in file 2).
   */
  predicate MissingMuap(input: MuapInput, n1: int, n2: int)
    requires input.CustomMuaps? ==> |input.entries| == 2 && input.entries[0].DictEntry? && input.entries[1].DictEntry?
  {
    input.CustomMuaps? && n2 > 0
    && ((exists mu :: 0 <= mu < n1 && mu !in input.entries[0].keys)
        || (exists mu :: 0 <= mu < n2 && mu !in input.entries[1].keys))
  }

  /**
   * `tracking` of `n1` MUs of file 1 against `n2` MUs of file 2, with
   * `sort_rawemg` called with `keywords`.  No MU in file 1 leaves the table
   * a plain list, on which the DataFrame calls raise an AttributeError.
   */
  function TrackingWith(n1: int, n2: int, input: MuapInput, keywords: seq<string>, xcc: (int, int) -> real,
                        threshold: real, exclude: bool, filter: bool): (r: Result<seq<TrackRow>>)
    ensures r.Ok? <==> InputError(input, keywords).None? && n1 > 0 && !MissingMuap(input, n1, n2)
    ensures InputError(input, keywords).Some? ==> r == Err(InputError(input, keywords).value)
    ensures InputError(input, keywords).None? && n1 <= 0 ==> r == Err(AttributeError)
  {
    var e := InputError(input, keywords);
    if e.Some? then Err(e.value)
    else if n1 <= 0 then Err(AttributeError)
    else if MissingMuap(input, n1, n2) then Err(KeyError)
    else
      var rows := AllRows(n1, Max(0, n2), xcc, threshold, exclude);
      Ok(if filter then Filtered(rows) else rows)
  }

  /** `tracking` as written: it can only succeed on custom MUAPs. */
  function TrackingOf(n1: int, n2: int, input: MuapInput, xcc: (int, int) -> real,
                      threshold: real, exclude: bool, filter: bool): (r: Result<seq<TrackRow>>)
    ensures r.Ok? ==> input.CustomMuaps?
  {
    assert !SortAccepts(TrackingSortKeywords) by {
      assert TrackingSortKeywords[5] !in SortRawemgParams;
    }
    TrackingWith(n1, n2, input, TrackingSortKeywords, xcc, threshold, exclude, filter)
  }

  /** `tracking` as intended, with `sort_rawemg` called with the keywords it takes. */
  function TrackingIntended(n1: int, n2: int, input: MuapInput, xcc: (int, int) -> real,
                            threshold: real, exclude: bool, filter: bool): Result<seq<TrackRow>>
  {
    TrackingWith(n1, n2, input, IntendedSortKeywords, xcc, threshold, exclude, filter)
  }

  /** `tracking`: the MUAPs, the table, then the filter when asked for. */
  method Track(n1: int, n2: int, input: MuapInput, xcc: (int, int) -> real,
               threshold: real, exclude: bool, filter: bool) returns (r: Result<seq<TrackRow>>)
    ensures r == TrackingOf(n1, n2, input, xcc, threshold, exclude, filter)
  {
    var e := InputError(input, TrackingSortKeywords);
    if e.Some? {
      return Err(e.value);
    }
    var rows := TrackingRows(Max(0, n1), Max(0, n2), xcc, threshold, exclude);
    if n1 <= 0 {
      return Err(AttributeError);
    }
    if MissingMuap(input, n1, n2) {
      return Err(KeyError);
    }
    if filter {
      rows := TrackingFilter(rows);
    }
    return Ok(rows);
  }

  /**
   * As written, `tracking` passes `custom_sorting_order` to a `sort_rawemg`
   * that has no such parameter, so it raises TypeError whenever it computes
   * the STAs, i.e. whenever `custom_muaps` is not a list; with custom MUAPs
   * it is the intended function.
   */
  lemma TrackingAsWrittenRejectsComputedSta(n1: int, n2: int, input: MuapInput, xcc: (int, int) -> real,
                                            threshold: real, exclude: bool, filter: bool)
    ensures input.ComputedSta? ==> TrackingOf(n1, n2, input, xcc, threshold, exclude, filter) == Err(TypeError)
    ensures input.CustomMuaps? ==>
      TrackingOf(n1, n2, input, xcc, threshold, exclude, filter) == TrackingIntended(n1, n2, input, xcc, threshold, exclude, filter)
  {
    assert "custom_sorting_order" !in SortRawemgParams;
    assert TrackingSortKeywords[5] == "custom_sorting_order";
  }

  /**
   * As intended, computed STAs with a known derivation and no sorting or
   * STA error give the table of all recorded pairs whenever file 1 has MUs.
   */
  lemma TrackingIntendedSucceeds(n1: int, n2: int, derivation: string, xcc: (int, int) -> real,
                                 threshold: real, exclude: bool, filter: bool)
    requires derivation in ["mono", "sd", "dd"]
    ensures var r := TrackingIntended(n1, n2, ComputedSta(derivation, None, None), xcc, threshold, exclude, filter);
      (r.Ok? <==> n1 > 0)
      && (r.Ok? && !filter ==> forall row :: row in r.value <==> IsPairRow(row, n1, Max(0, n2), xcc, threshold, exclude))
  {
    assert SortAccepts(IntendedSortKeywords);
    if n1 > 0 {
      AllRowsMembers(n1, Max(0, n2), xcc, threshold, exclude);
    }
  }

  /** The errors `tracking` raises before it correlates anything, and the KeyError of a missing custom MUAP. */
  lemma TrackingInputErrors(n1: int, n2: int, input: MuapInput, keywords: seq<string>, xcc: (int, int) -> real,
                            threshold: real, exclude: bool, filter: bool)
    ensures input.ComputedSta? && SortAccepts(keywords) && input.sortError.None?
      && input.derivation != "mono" && input.derivation != "sd" && input.derivation != "dd"
      ==> TrackingWith(n1, n2, input, keywords, xcc, threshold, exclude, filter) == Err(ValueError)
    ensures input.CustomMuaps? && |input.entries| != 2
      ==> TrackingWith(n1, n2, input, keywords, xcc, threshold, exclude, filter) == Err(ValueError)
    ensures input.CustomMuaps? && |input.entries| == 2 && OtherEntry in input.entries
      ==> TrackingWith(n1, n2, input, keywords, xcc, threshold, exclude, filter) == Err(ValueError)
    ensures input.CustomMuaps? && InputError(input, keywords).None? && n1 > 0 && n2 > 0 && 0 !in input.entries[0].keys
      ==> TrackingWith(n1, n2, input, keywords, xcc, threshold, exclude, filter) == Err(KeyError)
    ensures InputError(input, keywords).None?
      ==> (TrackingWith(n1, n2, input, keywords, xcc, threshold, exclude, filter).Ok? <==> n1 > 0 && !MissingMuap(input, n1, n2))
  {
    if input.CustomMuaps? && |input.entries| == 2 && OtherEntry in input.entries {
      assert input.entries[0] == OtherEntry || input.entries[1] == OtherEntry;
    }
  }

  /** Unfiltered, the table has exactly the recorded pairs, all n1 x n2 of them without the threshold. */
  lemma TrackingTable(n1: int, n2: int, input: MuapInput, keywords: seq<string>, xcc: (int, int) -> real, threshold: real, exclude: bool)
    requires TrackingWith(n1, n2, input, keywords, xcc, threshold, exclude, false).Ok?
    ensures var rows := TrackingWith(n1, n2, input, keywords, xcc, threshold, exclude, false).value;
      forall r :: r in rows <==> IsPairRow(r, n1, Max(0, n2), xcc, threshold, exclude)
    ensures !exclude ==> |TrackingWith(n1, n2, input, keywords, xcc, threshold, exclude, false).value| == n1 * Max(0, n2)
  {
    AllRowsMembers(n1, Max(0, n2), xcc, threshold, exclude);
    AllRowsCount(n1, Max(0, n2), xcc, threshold);
  }

  /** With the threshold every row, filtered or not, reaches it. */
  lemma TrackingAboveThreshold(n1: int, n2: int, input: MuapInput, keywords: seq<string>, xcc: (int, int) -> real, threshold: real, filter: bool)
    requires TrackingWith(n1, n2, input, keywords, xcc, threshold, true, filter).Ok?
    ensures forall r :: r in TrackingWith(n1, n2, input, keywords, xcc, threshold, true, filter).value ==> r.xcc >= threshold
  {
    var rows := AllRows(n1, Max(0, n2), xcc, threshold, true);
    AllRowsMembers(n1, Max(0, n2), xcc, threshold, true);
    FilteredSub(rows);
    forall r | r in TrackingWith(n1, n2, input, keywords, xcc, threshold, true, filter).value ensures r.xcc >= threshold {
      if filter {
        SubMember(Filtered(rows), rows, r);
      }
    }
  }

  /** The filtered table's properties, on any table. */
  lemma FilteredProperties(rows: seq<TrackRow>, n1: nat, n2: nat, xcc: (int, int) -> real, threshold: real, exclude: bool)
    requires forall r :: r in rows ==> IsPairRow(r, n1, n2, xcc, threshold, exclude)
    ensures KeyDistinct(Filtered(rows), ByMu1) && KeyDistinct(Filtered(rows), ByMu2)
    ensures forall i, j :: 0 <= i < j < |Filtered(rows)| ==> Filtered(rows)[i].mu1 < Filtered(rows)[j].mu1
    ensures forall r :: r in Filtered(rows) ==> IsPairRow(r, n1, n2, xcc, threshold, exclude)
  {
    FilteredDistinct1(rows);
    FilteredDistinct2(rows);
    FilteredIncreasing(rows);
    FilteredSub(rows);
    forall r | r in Filtered(rows) ensures IsPairRow(r, n1, n2, xcc, threshold, exclude) {
      SubMember(Filtered(rows), rows, r);
    }
  }

  /**
   * Filtered, each MU of either file appears at most once, the rows are
   * rows of the table, in increasing MU_file1.
   */
  lemma TrackingFiltered(n1: int, n2: int, input: MuapInput, keywords: seq<string>, xcc: (int, int) -> real, threshold: real, exclude: bool)
    requires TrackingWith(n1, n2, input, keywords, xcc, threshold, exclude, true).Ok?
    ensures KeyDistinct(TrackingWith(n1, n2, input, keywords, xcc, threshold, exclude, true).value, ByMu1)
    ensures KeyDistinct(TrackingWith(n1, n2, input, keywords, xcc, threshold, exclude, true).value, ByMu2)
    ensures var f := TrackingWith(n1, n2, input, keywords, xcc, threshold, exclude, true).value;
      forall i, j :: 0 <= i < j < |f| ==> f[i].mu1 < f[j].mu1
    ensures forall r :: r in TrackingWith(n1, n2, input, keywords, xcc, threshold, exclude, true).value ==>
      IsPairRow(r, n1, Max(0, n2), xcc, threshold, exclude)
  {
    var rows := AllRows(n1, Max(0, n2), xcc, threshold, exclude);
    assert TrackingWith(n1, n2, input, keywords, xcc, threshold, exclude, true).value == Filtered(rows);
    AllRowsMembers(n1, Max(0, n2), xcc, threshold, exclude);
    FilteredProperties(rows, n1, Max(0, n2), xcc, threshold, exclude);
  }

  // ---------------------------------------------------------------------
  // remove_duplicates_between

  function Mu1s(rows: seq<TrackRow>): (r: seq<int>)
    ensures |r| == |rows| && forall k :: 0 <= k < |rows| ==> r[k] == rows[k].mu1
  {
    seq(|rows|, k requires 0 <= k < |rows| => rows[k].mu1)
  }

  function Mu2s(rows: seq<TrackRow>): (r: seq<int>)
    ensures |r| == |rows| && forall k :: 0 <= k < |rows| ==> r[k] == rows[k].mu2
  {
    seq(|rows|, k requires 0 <= k < |rows| => rows[k].mu2)
  }

  /** `emgfile["ACCURACY"].loc[mu][0]`: a KeyError for a missing table, column or row. */
  function AccuracyOf(f: EmgFile, mu: int): Result<Float>
  {
    if f.accuracy.None? then Err(KeyError)
    else if |f.accuracy.value.cols| == 0 then Err(KeyError)
    else if mu < 0 then Err(KeyError)
    else if mu >= f.accuracy.value.rows then Err(KeyError)
    else if mu >= |f.accuracy.value.cols[0]| then Err(KeyError)
    else Ok(f.accuracy.value.cols[0][mu])
  }

  /** `acc1 <= acc2` on floats: false when either is NaN. */
  predicate LeFloat(a: Float, b: Float)
  {
    a.Num? && b.Num? && a.r <= b.r
  }

  /** The pair's MU is removed from file 1 (its accuracy is not higher); otherwise from file 2. */
  predicate RemoveFromFirst(f1: EmgFile, f2: EmgFile, row: TrackRow)
    requires AccuracyOf(f1, row.mu1).Ok? && AccuracyOf(f2, row.mu2).Ok?
  {
    LeFloat(AccuracyOf(f1, row.mu1).value, AccuracyOf(f2, row.mu2).value)
  }

  /** The two removal lists of the "accuracy" rule, or the KeyError of the first missing accuracy. */
  function RemovalLists(f1: EmgFile, f2: EmgFile, rows: seq<TrackRow>): Result<(seq<int>, seq<int>)>
  {
    if rows == [] then Ok(([], []))
    else
      var prev := RemovalLists(f1, f2, rows[..|rows| - 1]);
      var row := rows[|rows| - 1];
      if prev.Err? then prev
      else if AccuracyOf(f1, row.mu1).Err? then Err(AccuracyOf(f1, row.mu1).error)
      else if AccuracyOf(f2, row.mu2).Err? then Err(AccuracyOf(f2, row.mu2).error)
      else if RemoveFromFirst(f1, f2, row) then Ok((prev.value.0 + [row.mu1], prev.value.1))
      else Ok((prev.value.0, prev.value.1 + [row.mu2]))
  }

  /** The loop over the tracked pairs for the "accuracy" rule. */
  method AccuracyRemovals(f1: EmgFile, f2: EmgFile, rows: seq<TrackRow>) returns (r: Result<(seq<int>, seq<int>)>)
    ensures r == RemovalLists(f1, f2, rows)
  {
    var toRemove1, toRemove2 := [], [];
    for i := 0 to |rows|
      invariant RemovalLists(f1, f2, rows[..i]) == Ok((toRemove1, toRemove2))
    {
      assert rows[..i + 1][..i] == rows[..i];
      var acc1 := AccuracyOf(f1, rows[i].mu1);
      if acc1.Err? {
        RemovalListsPrefixErr(f1, f2, rows, i + 1);
        return Err(acc1.error);
      }
      var acc2 := AccuracyOf(f2, rows[i].mu2);
      if acc2.Err? {
        RemovalListsPrefixErr(f1, f2, rows, i + 1);
        return Err(acc2.error);
      }
      if LeFloat(acc1.value, acc2.value) {
        toRemove1 := toRemove1 + [rows[i].mu1];
      } else {
        toRemove2 := toRemove2 + [rows[i].mu2];
      }
    }
    assert rows[..|rows|] == rows;
    return Ok((toRemove1, toRemove2));
  }

  lemma {:induction false} RemovalListsPrefixErr(f1: EmgFile, f2: EmgFile, rows: seq<TrackRow>, j: nat)
    requires j <= |rows| && RemovalLists(f1, f2, rows[..j]).Err?
    ensures RemovalLists(f1, f2, rows) == RemovalLists(f1, f2, rows[..j])
    decreases |rows| - j
  {
    if j < |rows| {
      var n := |rows| - 1;
      assert rows[..n][..j] == rows[..j];
      RemovalListsPrefixErr(f1, f2, rows[..n], j);
    } else {
      assert rows[..j] == rows;
    }
  }

  /** Both accuracies of a pair are known. */
  predicate AccuraciesKnown(f1: EmgFile, f2: EmgFile, row: TrackRow)
  {
    AccuracyOf(f1, row.mu1).Ok? && AccuracyOf(f2, row.mu2).Ok?
  }

  /**
   * The "accuracy" rule succeeds exactly when every pair's accuracies are
   * known; then each pair sends exactly one MU to one of the lists: its MU
   * of file 1 when that accuracy is not higher, its MU of file 2 otherwise.
   */
  lemma {:induction false} RemovalListsSplit(f1: EmgFile, f2: EmgFile, rows: seq<TrackRow>)
    ensures RemovalLists(f1, f2, rows).Ok? <==> forall k :: 0 <= k < |rows| ==> AccuraciesKnown(f1, f2, rows[k])
    ensures RemovalLists(f1, f2, rows).Ok? ==>
      |RemovalLists(f1, f2, rows).value.0| + |RemovalLists(f1, f2, rows).value.1| == |rows|
    ensures RemovalLists(f1, f2, rows).Ok? ==> forall mu ::
      mu in RemovalLists(f1, f2, rows).value.0 <==>
        exists k :: 0 <= k < |rows| && rows[k].mu1 == mu && RemoveFromFirst(f1, f2, rows[k])
    ensures RemovalLists(f1, f2, rows).Ok? ==> forall mu ::
      mu in RemovalLists(f1, f2, rows).value.1 <==>
        exists k :: 0 <= k < |rows| && rows[k].mu2 == mu && !RemoveFromFirst(f1, f2, rows[k])
  {
    if rows != [] {
      var p := rows[..|rows| - 1];
      RemovalListsSplit(f1, f2, p);
      assert forall k :: 0 <= k < |p| ==> p[k] == rows[k];
    }
  }

  function FirstOf(r: Result<(EmgFile, EmgFile, seq<TrackRow>)>): Result<EmgFile>
  {
    if r.Ok? then Ok(r.value.0) else Err(r.error)
  }

  function SecondOf(r: Result<(EmgFile, EmgFile, seq<TrackRow>)>): Result<EmgFile>
  {
    if r.Ok? then Ok(r.value.1) else Err(r.error)
  }

  /**
   * `remove_duplicates_between`: track with the threshold, then delete the
   * tracked MUs ("munumber": all from the file with at least as many MUs,
   * file 1 on a tie; "accuracy": pair by pair from the file with the lower
   * accuracy); any other rule is a ValueError.  The inputs are copies, so
   * only the returned files change.
   */
  method RemoveDuplicatesBetween(f1: EmgFile, f2: EmgFile, input: MuapInput, xcc: (int, int) -> real,
                                 threshold: real, filter: bool, which: string)
    returns (r: Result<(EmgFile, EmgFile, seq<TrackRow>)>)
    ensures var t := TrackingOf(f1.numberOfMus, f2.numberOfMus, input, xcc, threshold, true, filter);
      t.Err? ==> r == Err(t.error)
    ensures var t := TrackingOf(f1.numberOfMus, f2.numberOfMus, input, xcc, threshold, true, filter);
      t.Ok? && which != "munumber" && which != "accuracy" ==> r == Err(ValueError)
    ensures var t := TrackingOf(f1.numberOfMus, f2.numberOfMus, input, xcc, threshold, true, filter);
      t.Ok? && which == "munumber" && f1.numberOfMus >= f2.numberOfMus ==>
        Tools.DeleteMusOutcome(f1, Tools.MuList(Mu1s(t.value)), "remove", FirstOf(r))
        && (r.Ok? ==> r.value.1 == f2 && r.value.2 == t.value)
    ensures var t := TrackingOf(f1.numberOfMus, f2.numberOfMus, input, xcc, threshold, true, filter);
      t.Ok? && which == "munumber" && f1.numberOfMus < f2.numberOfMus ==>
        Tools.DeleteMusOutcome(f2, Tools.MuList(Mu2s(t.value)), "remove", SecondOf(r))
        && (r.Ok? ==> r.value.0 == f1 && r.value.2 == t.value)
    ensures var t := TrackingOf(f1.numberOfMus, f2.numberOfMus, input, xcc, threshold, true, filter);
      t.Ok? && which == "accuracy" ==>
        var l := RemovalLists(f1, f2, t.value);
        (l.Err? ==> r == Err(l.error))
        && (l.Ok? ==>
              (forall e :: Tools.DeleteMusOutcome(f1, Tools.MuList(l.value.0), "remove", Err(e)) ==> r == Err(e))
              && (r.Ok? ==> Tools.DeleteMusOutcome(f1, Tools.MuList(l.value.0), "remove", Ok(r.value.0))
                            && Tools.DeleteMusOutcome(f2, Tools.MuList(l.value.1), "remove", Ok(r.value.1))
                            && r.value.2 == t.value)
              && (r.Err? ==> Tools.DeleteMusOutcome(f1, Tools.MuList(l.value.0), "remove", Err(r.error))
                             || Tools.DeleteMusOutcome(f2, Tools.MuList(l.value.1), "remove", Err(r.error))))
  {
    var t := Track(f1.numberOfMus, f2.numberOfMus, input, xcc, threshold, true, filter);
    if t.Err? {
      return Err(t.error);
    }
    if which == "munumber" {
      if f1.numberOfMus >= f2.numberOfMus {
        var d := Tools.DeleteMus(f1, Tools.MuList(Mu1s(t.value)), "remove");
        if d.Err? {
          return Err(d.error);
        }
        return Ok((d.value, f2, t.value));
      } else {
        var d := Tools.DeleteMus(f2, Tools.MuList(Mu2s(t.value)), "remove");
        if d.Err? {
          return Err(d.error);
        }
        return Ok((f1, d.value, t.value));
      }
    } else if which == "accuracy" {
      var l := AccuracyRemovals(f1, f2, t.value);
      if l.Err? {
        return Err(l.error);
      }
      var d1 := Tools.DeleteMus(f1, Tools.MuList(l.value.0), "remove");
      if d1.Err? {
        forall e | Tools.DeleteMusOutcome(f1, Tools.MuList(l.value.0), "remove", Err(e)) ensures Err(e) == d1 {
          Tools.DeleteMusOutcomeUnique(f1, Tools.MuList(l.value.0), "remove", Err(e), d1);
        }
        return Err(d1.error);
      }
      forall e | Tools.DeleteMusOutcome(f1, Tools.MuList(l.value.0), "remove", Err(e)) ensures false {
        Tools.DeleteMusOutcomeUnique(f1, Tools.MuList(l.value.0), "remove", Err(e), d1);
      }
      var d2 := Tools.DeleteMus(f2, Tools.MuList(l.value.1), "remove");
      if d2.Err? {
        return Err(d2.error);
      }
      return Ok((d1.value, d2.value, t.value));
    }
    return Err(ValueError);
  }

  /**
   * With the filter on, the MUs removed by the "munumber" rule are
   * distinct, so when they are MUs of the file NUMBER_OF_MUS drops by
   * exactly the number of MUs removed.
   */
  lemma RemovedByNumberDistinct(n1: int, n2: int, input: MuapInput, keywords: seq<string>, xcc: (int, int) -> real, threshold: real)
    requires TrackingWith(n1, n2, input, keywords, xcc, threshold, true, true).Ok?
    ensures var t := TrackingWith(n1, n2, input, keywords, xcc, threshold, true, true).value;
      |Tools.Kept(n1, Mu1s(t))| == n1 - |t| && |Tools.Kept(n2, Mu2s(t))| == Max(0, n2) - |t|
  {
    var t := TrackingWith(n1, n2, input, keywords, xcc, threshold, true, true).value;
    TrackingFiltered(n1, n2, input, keywords, xcc, threshold, true);
    RemovedIdsDistinct(t, n1, Max(0, n2), xcc, threshold);
    assert Tools.Kept(n2, Mu2s(t)) == Tools.Kept(Max(0, n2), Mu2s(t));
  }

  lemma RemovedIdsDistinct(t: seq<TrackRow>, n1: nat, n2: nat, xcc: (int, int) -> real, threshold: real)
    requires KeyDistinct(t, ByMu1) && KeyDistinct(t, ByMu2)
    requires forall r :: r in t ==> IsPairRow(r, n1, n2, xcc, threshold, true)
    ensures |Tools.Kept(n1, Mu1s(t))| == n1 - |t| && |Tools.Kept(n2, Mu2s(t))| == n2 - |t|
  {
    assert Tools.LabelsPresent(Mu1s(t), n1) by {
      forall k | k in Mu1s(t) ensures 0 <= k < n1 {
        var i :| 0 <= i < |t| && Mu1s(t)[i] == k;
        assert t[i] in t;
      }
    }
    assert Tools.LabelsPresent(Mu2s(t), n2) by {
      forall k | k in Mu2s(t) ensures 0 <= k < n2 {
        var i :| 0 <= i < |t| && Mu2s(t)[i] == k;
        assert t[i] in t;
      }
    }
    assert forall i, j :: 0 <= i < j < |t| ==> Mu1s(t)[i] != Mu1s(t)[j];
    assert forall i, j :: 0 <= i < j < |t| ==> Mu2s(t)[i] != Mu2s(t)[j];
    Tools.KeptCountDistinct(n1, Mu1s(t));
    Tools.KeptCountDistinct(n2, Mu2s(t));
  }
}
