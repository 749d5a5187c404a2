/**
 * Values shared by every part of the model: results with Python's exception
 * kinds, pandas floats that may be NaN, Python's rounding and truncation, and
 * the two slicing disciplines of pandas (positional `iloc`, label-inclusive
 * `loc` on a RangeIndex).
 */
module Common {

  datatype Option<T> = None | Some(value: T)

  /** The Python exception kinds the modelled code raises. */
  datatype Error =
    | ValueError
    | TypeError
    | KeyError
    | IndexError
    | NameError
    | AssertionError
    | FileNotFoundError
    | AttributeError
    | ZeroDivisionError
    | GenericException

  datatype Result<T> = Ok(value: T) | Err(error: Error)

  /** The values of a sequence of results, or the first error among them (a loop that stops at the first raise). */
  function Collect<T>(rs: seq<Result<T>>): (r: Result<seq<T>>)
    ensures r.Ok? ==> |r.value| == |rs|
  {
    if rs == [] then Ok([])
    else
      var prev := Collect(rs[..|rs| - 1]);
      var last := rs[|rs| - 1];
      if prev.Err? then prev
      else if last.Err? then Err(last.error)
      else Ok(prev.value + [last.value])
  }

  /** A prefix one element longer is the prefix with that element appended. */
  lemma TakeOneMore<T>(s: seq<T>, k: nat)
    requires k < |s|
    ensures s[..k + 1] == s[..k] + [s[k]]
  {
  }

  /** `ys` is `f` applied to the first |ys| elements of `xs`. */
  ghost predicate MapsPrefix<T, U>(xs: seq<T>, ys: seq<U>, f: T -> U)
  {
    |ys| <= |xs| && forall i :: 0 <= i < |ys| ==> ys[i] == f(xs[i])
  }

  /** Appending `f` of the next element keeps `MapsPrefix`. */
  lemma MapsPrefixSnoc<T, U>(xs: seq<T>, ys: seq<U>, f: T -> U, y: U)
    requires MapsPrefix(xs, ys, f) && |ys| < |xs| && y == f(xs[|ys|])
    ensures MapsPrefix(xs, ys + [y], f)
  {
    assert forall i :: 0 <= i < |ys| ==> (ys + [y])[i] == ys[i];
  }

  /** One more step of the loop: the prefix's outcome extended by the next result. */
  lemma CollectStep<T>(rs: seq<Result<T>>, k: nat)
    requires k < |rs|
    ensures Collect(rs[..k + 1]) ==
      if Collect(rs[..k]).Err? then Collect(rs[..k])
      else if rs[k].Err? then Err(rs[k].error)
      else Ok(Collect(rs[..k]).value + [rs[k].value])
  {
    assert rs[..k + 1][..k] == rs[..k];
  }

  /** Once a prefix fails, the whole sequence fails with the same error. */
  lemma {:induction false} CollectPrefixErr<T>(rs: seq<Result<T>>, j: nat)
    requires j <= |rs| && Collect(rs[..j]).Err?
    ensures Collect(rs) == Collect(rs[..j])
    decreases |rs| - j
  {
    if j < |rs| {
      var n := |rs| - 1;
      assert rs[..n][..j] == rs[..j];
      CollectPrefixErr(rs[..n], j);
    } else {
      assert rs[..j] == rs;
    }
  }

  /** All results succeed exactly when the collection does, and then it holds their values in order. */
  lemma {:induction false} CollectEach<T>(rs: seq<Result<T>>)
    ensures Collect(rs).Ok? <==> forall k :: 0 <= k < |rs| ==> rs[k].Ok?
    ensures Collect(rs).Ok? ==> forall k :: 0 <= k < |rs| ==> Collect(rs).value[k] == rs[k].value
  {
    if rs != [] {
      var n := |rs| - 1;
      CollectEach(rs[..n]);
      assert forall k :: 0 <= k < n ==> rs[..n][k] == rs[k];
    }
  }

  /** A pandas/numpy float: a real number or NaN. */
  datatype Float = NaN | Num(r: real)

  predicate IsNum(x: Float) { x.Num? }

  function Add(a: Float, b: Float): Float
  {
    if a.Num? && b.Num? then Num(a.r + b.r) else NaN
  }

  function Sub(a: Float, b: Float): Float
  {
    if a.Num? && b.Num? then Num(a.r - b.r) else NaN
  }

  function Scale(k: real, a: Float): Float
  {
    if a.Num? then Num(k * a.r) else NaN
  }

  /** Division; a zero divisor (numpy's inf or NaN) is folded into NaN. */
  function Div(a: Float, b: Float): Float
  {
    if a.Num? && b.Num? && b.r != 0.0 then Num(a.r / b.r) else NaN
  }

  /** Number of non-NaN entries. */
  function NumCount(s: seq<Float>): (n: nat)
    ensures n <= |s|
  {
    if s == [] then 0 else NumCount(s[..|s| - 1]) + (if s[|s| - 1].Num? then 1 else 0)
  }

  /** Sum of the non-NaN entries. */
  function NumSum(s: seq<Float>): real
  {
    if s == [] then 0.0 else NumSum(s[..|s| - 1]) + (if s[|s| - 1].Num? then s[|s| - 1].r else 0.0)
  }

  /** pandas `Series.mean()` / `np.nanmean`: NaN entries are skipped; nothing left gives NaN. */
  function NanMean(s: seq<Float>): (m: Float)
    ensures m.NaN? <==> NumCount(s) == 0
  {
    if NumCount(s) == 0 then NaN else Num(NumSum(s) / (NumCount(s) as real))
  }

  lemma {:induction false} NumCountZero(s: seq<Float>)
    ensures NumCount(s) == 0 <==> forall i :: 0 <= i < |s| ==> s[i].NaN?
  {
    if s != [] {
      NumCountZero(s[..|s| - 1]);
      var p := s[..|s| - 1];
      assert forall i :: 0 <= i < |p| ==> p[i] == s[i];
    }
  }

  /** The mean of NaN entries only (or of nothing) is NaN. */
  lemma NanMeanAllNaN(s: seq<Float>)
    ensures NanMean(s).NaN? <==> forall i :: 0 <= i < |s| ==> s[i].NaN?
  {
    NumCountZero(s);
  }

  lemma {:induction false} NumSumAppend(s: seq<Float>, t: seq<Float>)
    ensures NumSum(s + t) == NumSum(s) + NumSum(t)
    ensures NumCount(s + t) == NumCount(s) + NumCount(t)
    decreases |t|
  {
    if t == [] {
      assert s + t == s;
    } else {
      var t' := t[..|t| - 1];
      assert (s + t)[..|s + t| - 1] == s + t';
      NumSumAppend(s, t');
    }
  }

  /** Greatest non-NaN entry (pandas `max()`); NaN when there is none. */
  function NanMax(s: seq<Float>): (m: Float)
    ensures m.NaN? <==> NumCount(s) == 0
    ensures m.Num? ==> exists i :: 0 <= i < |s| && s[i] == m
    ensures m.Num? ==> forall i :: 0 <= i < |s| && s[i].Num? ==> s[i].r <= m.r
  {
    if s == [] then NaN
    else
      var rest := NanMax(s[..|s| - 1]);
      var last := s[|s| - 1];
      assert forall i :: 0 <= i < |s| - 1 ==> s[..|s| - 1][i] == s[i];
      NumCountZero(s[..|s| - 1]);
      if last.NaN? then rest
      else if rest.NaN? || rest.r < last.r then last
      else rest
  }

  /** Least non-NaN entry (pandas `min()`); NaN when there is none. */
  function NanMin(s: seq<Float>): (m: Float)
    ensures m.NaN? <==> NumCount(s) == 0
    ensures m.Num? ==> exists i :: 0 <= i < |s| && s[i] == m
    ensures m.Num? ==> forall i :: 0 <= i < |s| && s[i].Num? ==> m.r <= s[i].r
  {
    if s == [] then NaN
    else
      var rest := NanMin(s[..|s| - 1]);
      var last := s[|s| - 1];
      assert forall i :: 0 <= i < |s| - 1 ==> s[..|s| - 1][i] == s[i];
      NumCountZero(s[..|s| - 1]);
      if last.NaN? then rest
      else if rest.NaN? || last.r < rest.r then last
      else rest
  }

  /** Python 3 `round()` of a float: nearest integer, ties to even. */
  function RoundHalfEven(x: real): (r: int)
    ensures x - 0.5 <= r as real <= x + 0.5
    ensures (r as real - x == 0.5 || x - r as real == 0.5) ==> r % 2 == 0
  {
    var f := x.Floor;
    var d := x - f as real;
    if d < 0.5 then f
    else if d > 0.5 then f + 1
    else if f % 2 == 0 then f
    else f + 1
  }

  /** Python `int()` of a float: truncation toward zero. */
  function TruncToZero(x: real): (r: int)
    ensures x >= 0.0 ==> r as real <= x < r as real + 1.0
    ensures x < 0.0 ==> r as real - 1.0 < x <= r as real
  {
    if x >= 0.0 then x.Floor else -((-x).Floor)
  }

  /** Python ceiling division for a positive divisor (`math.ceil(n / d)`). */
  function CeilDiv(n: nat, d: nat): (c: nat)
    requires d > 0
    ensures c * d >= n
    ensures c == 0 || (c - 1) * d < n
  {
    (n + d - 1) / d
  }

  function Min(a: int, b: int): int { if a <= b then a else b }
  function Max(a: int, b: int): int { if a >= b then a else b }

  /** Where a Python slice bound `i` lands in a sequence of length `n`. */
  function SliceBound(i: int, n: nat): (b: nat)
    ensures b <= n
    ensures 0 <= i <= n ==> b == i
  {
    if i < 0 then Max(0, n + i) else Min(i, n)
  }

  /** Python/`iloc` slice `s[a:b]` (negative bounds count from the end, bounds are clamped). */
  function PySlice<T>(s: seq<T>, a: int, b: int): (r: seq<T>)
    ensures |r| == Max(0, SliceBound(b, |s|) - SliceBound(a, |s|))
    ensures forall k :: 0 <= k < |r| ==> r[k] == s[SliceBound(a, |s|) + k]
  {
    var lo, hi := SliceBound(a, |s|), SliceBound(b, |s|);
    if lo < hi then s[lo..hi] else []
  }

  /** First position kept by `loc[a:b]` on a RangeIndex 0..n-1. */
  function LocLo(a: int): nat { Max(a, 0) }

  /** One past the last position kept by `loc[a:b]` on a RangeIndex 0..n-1. */
  function LocHi(b: int, n: nat): nat { Max(0, Min(b + 1, n)) }

  /** pandas `loc[a:b]` on a RangeIndex: both labels included, clamped to the data. */
  function LocSlice<T>(s: seq<T>, a: int, b: int): (r: seq<T>)
    ensures |r| == Max(0, LocHi(b, |s|) - LocLo(a))
    ensures forall k :: 0 <= k < |r| ==> r[k] == s[LocLo(a) + k]
  {
    var lo, hi := LocLo(a), LocHi(b, |s|);
    if lo < hi then s[lo..hi] else []
  }

  /** Row indices 0 .. n-1 (Python `range(n)`). */
  function Range(n: nat): (r: seq<int>)
    ensures |r| == n
    ensures forall i :: 0 <= i < n ==> r[i] == i
  {
    seq(n, i => i)
  }

  /** `s` lists each of the positions 0 .. n-1 exactly once. */
  predicate IsPermutationOf(s: seq<int>, n: nat)
  {
    |s| == n && multiset(s) == multiset(Range(n))
  }

  predicate NonDecreasing(s: seq<int>)
  {
    forall i, j :: 0 <= i < j < |s| ==> s[i] <= s[j]
  }

  predicate StrictlyIncreasing(s: seq<int>)
  {
    forall i, j :: 0 <= i < j < |s| ==> s[i] < s[j]
  }

  /** Decimal rendering of a natural number (Python `str(n)` / f-string). */
  function NatToString(n: nat): (s: string)
    ensures |s| > 0
    ensures forall i :: 0 <= i < |s| ==> '0' <= s[i] <= '9'
    decreases n
  {
    if n < 10 then [Digit(n)] else NatToString(n / 10) + [Digit(n % 10)]
  }

  function Digit(d: nat): (c: char)
    requires d < 10
    ensures '0' <= c <= '9'
  {
    ['0', '1', '2', '3', '4', '5', '6', '7', '8', '9'][d]
  }

  /** Substring test (Python `needle in haystack`). */
  predicate Contains(haystack: string, needle: string)
    decreases |haystack|
  {
    StartsWith(haystack, needle) || (|haystack| > 0 && Contains(haystack[1..], needle))
  }

  predicate StartsWith(s: string, prefix: string)
  {
    |prefix| <= |s| && s[..|prefix|] == prefix
  }
}
