/**
 * `save_json_emgfile` and `emg_from_json`: the emgfile as a JSON list whose
 * positions are fixed, dispatching on SOURCE.
 *
 * Each list entry is modelled by what it decodes to: a one-entry object
 * `{KEY: value}` (`Keyed`) or a bare JSON value (`Bare`, used for MUPULSES).
 * A DataFrame is stored through `to_json()` (column-oriented), which keeps
 * the rows only through its columns: a table with rows and no columns is
 * written as `{}` and reads back with no rows.
 */
module JsonFiles {
  import opened Common
  import opened EmgRecord

  /** A decoded JSON value as the loaders see it. */
  datatype JValue =
    | JStr(s: string)
    | JFloat(x: Float)
    | JInt(i: int)
    | JTable(t: Frame)
    | JPulses(p: seq<seq<int>>)
    | JNull

  /** One entry of the saved list. */
  datatype Item = Keyed(key: string, value: JValue) | Bare(value: JValue)

  /** The dict `emg_from_json` builds for a reference-signal file. */
  datatype RefsigFile = RefsigFile(source: string, filename: string, fsamp: real, refSignal: Frame, extras: Frame)

  /** A full emgfile or a reference-signal file. */
  datatype Record = Full(f: EmgFile) | RefOnly(r: RefsigFile)

  function SourceOf(d: Record): string
  {
    match d
    case Full(f) => f.source
    case RefOnly(r) => r.source
  }

  const FullSources: seq<string> := ["DEMUSE", "OTB", "CUSTOMCSV"]
  const RefsigSources: seq<string> := ["OTB_REFSIG", "CUSTOMCSV_REFSIG"]

  /** The key of each position of the 13-entry layout (position 6 is bare). */
  const FullKeys: seq<string> := ["SOURCE", "FILENAME", "RAW_SIGNAL", "REF_SIGNAL", "ACCURACY", "IPTS", "MUPULSES",
                                  "FSAMP", "IED", "EMG_LENGTH", "NUMBER_OF_MUS", "BINARY_MUS_FIRING", "EXTRAS"]
  const RefsigKeys: seq<string> := ["SOURCE", "FILENAME", "FSAMP", "REF_SIGNAL", "EXTRAS"]

  predicate FullLayout(items: seq<Item>)
  {
    |items| >= 13
    && (forall k :: 0 <= k < 13 && k != 6 ==> items[k].Keyed? && items[k].key == FullKeys[k])
    && items[6].Bare?
  }

  predicate RefsigLayout(items: seq<Item>)
  {
    |items| >= 5 && forall k :: 0 <= k < 5 ==> items[k].Keyed? && items[k].key == RefsigKeys[k]
  }

  /** `to_json()` writes floats with `double_precision=10`: ten decimals. */
  const Precision: real := 10000000000.0

  /** A value `to_json()` writes exactly: NaN (written `null`) or a multiple of 10^-10. */
  predicate OnGrid(x: Float)
  {
    x.NaN? || (x.r * Precision).Floor as real == x.r * Precision
  }

  /**
   * A value written by `to_json()` and read back: rounded to ten decimals,
   * within half a unit of the last decimal, the value itself exactly when it
   * was already on that grid.
   */
  function Round10(x: Float): (y: Float)
    ensures y.NaN? <==> x.NaN?
    ensures x.Num? ==> x.r - 0.5 / Precision <= y.r <= x.r + 0.5 / Precision
    ensures OnGrid(y)
    ensures y == x <==> OnGrid(x)
  {
    match x
    case NaN => NaN
    case Num(r) =>
      var n := RoundHalfEven(r * Precision);
      var y := n as real / Precision;
      assert y * Precision == n as real;
      assert OnGrid(x) ==> n as real == r * Precision;
      Num(y)
  }

  /** Every value of the table is one `to_json()` writes exactly. */
  predicate FrameOnGrid(t: Frame)
  {
    forall c, k :: 0 <= c < |t.cols| && 0 <= k < |t.cols[c]| ==> OnGrid(t.cols[c][k])
  }

  /**
   * A table that `to_json()` followed by `pd.DataFrame(json.loads(..))`
   * gives back unchanged: it keeps its rows through at least one column and
   * holds only values on the ten-decimal grid.
   */
  predicate Persistable(t: Frame)
  {
    (|t.cols| > 0 || t.rows == 0) && FrameOnGrid(t)
  }

  /** Each value of `t` rounded to ten decimals. */
  function RoundedColumns(t: Frame): (cs: seq<Column>)
    ensures |cs| == |t.cols|
    ensures forall c :: 0 <= c < |cs| ==> |cs[c]| == |t.cols[c]|
    ensures forall c, k :: 0 <= c < |cs| && 0 <= k < |cs[c]| ==> cs[c][k] == Round10(t.cols[c][k])
  {
    seq(|t.cols|, c requires 0 <= c < |t.cols| =>
      seq(|t.cols[c]|, k requires 0 <= k < |t.cols[c]| => Round10(t.cols[c][k])))
  }

  /**
   * The table read back from the `to_json()` text of `t`: the columns keep
   * their order and length, each value rounded to ten decimals; with no
   * column, the text is `{}` and no row survives.
   */
  function Reloaded(t: Frame): (u: Frame)
    ensures u == t <==> Persistable(t)
    ensures |u.cols| == |t.cols|
    ensures |t.cols| > 0 ==> u.rows == t.rows
    ensures |t.cols| == 0 ==> u.rows == 0
    ensures forall c, k :: 0 <= c < |u.cols| && 0 <= k < |t.cols[c]| ==>
      k < |u.cols[c]| && u.cols[c][k] == Round10(t.cols[c][k])
    ensures FrameOk(t) ==> FrameOk(u)
    ensures Persistable(u)
  {
    if |t.cols| == 0 then Frame(0, [])
    else
      var u := Frame(t.rows, RoundedColumns(t));
      assert u == t ==> FrameOnGrid(t) by {
        if u == t {
          forall c, k | 0 <= c < |t.cols| && 0 <= k < |t.cols[c]| ensures OnGrid(t.cols[c][k]) {
            assert u.cols[c][k] == t.cols[c][k];
          }
        }
      }
      assert FrameOnGrid(t) ==> u == t by {
        if FrameOnGrid(t) {
          forall c | 0 <= c < |t.cols| ensures u.cols[c] == t.cols[c] {
          }
        }
      }
      u
  }

  /** Writing and reading back a second time changes nothing more. */
  lemma ReloadedIdempotent(t: Frame)
    ensures Reloaded(Reloaded(t)) == Reloaded(t)
  {
  }

  // ---------------------------------------------------------------------
  // Saving

  function FullItems(f: EmgFile, accuracy: Frame): seq<Item>
  {
    [ Keyed("SOURCE", JStr(f.source)), Keyed("FILENAME", JStr(f.filename)),
      Keyed("RAW_SIGNAL", JTable(f.rawSignal)), Keyed("REF_SIGNAL", JTable(f.refSignal)),
      Keyed("ACCURACY", JTable(accuracy)), Keyed("IPTS", JTable(f.ipts)),
      Bare(JPulses(f.mupulses)),
      Keyed("FSAMP", JFloat(Num(f.fsamp))), Keyed("IED", JFloat(f.ied)),
      Keyed("EMG_LENGTH", JInt(f.emgLength)), Keyed("NUMBER_OF_MUS", JInt(f.numberOfMus)),
      Keyed("BINARY_MUS_FIRING", JTable(f.binary)), Keyed("EXTRAS", JTable(f.extras)) ]
  }

  function RefsigItems(source: string, filename: string, fsamp: real, refSignal: Frame, extras: Frame): seq<Item>
  {
    [ Keyed("SOURCE", JStr(source)), Keyed("FILENAME", JStr(filename)), Keyed("FSAMP", JFloat(Num(fsamp))),
      Keyed("REF_SIGNAL", JTable(refSignal)), Keyed("EXTRAS", JTable(extras)) ]
  }

  /**
   * `save_json_emgfile`, up to the gzip/JSON encoding.  A full source needs
   * every one of the 13 keys (a missing ACCURACY, or a reference-signal dict
   * labelled with a full source, raises KeyError); the two reference-signal
   * sources write 5 entries, taken from a full emgfile as well; any other
   * source raises ValueError.
   */
  function SaveJson(d: Record): (r: Result<seq<Item>>)
    ensures SourceOf(d) in FullSources ==> (r.Ok? <==> d.Full? && d.f.accuracy.Some?)
    ensures SourceOf(d) in FullSources && r.Ok? ==> |r.value| == 13 && FullLayout(r.value)
    ensures SourceOf(d) in FullSources && r.Err? ==> r.error == KeyError
    ensures SourceOf(d) in RefsigSources ==> r.Ok? && |r.value| == 5 && RefsigLayout(r.value)
    ensures SourceOf(d) !in FullSources && SourceOf(d) !in RefsigSources ==> r == Err(ValueError)
    ensures r.Ok? ==> r.value[0] == Keyed("SOURCE", JStr(SourceOf(d)))
  {
    var source := SourceOf(d);
    if source in FullSources then
      match d
      case RefOnly(_) => Err(KeyError)
      case Full(f) =>
        if f.accuracy.None? then Err(KeyError) else Ok(FullItems(f, f.accuracy.value))
    else if source in RefsigSources then
      match d
      case Full(f) => Ok(RefsigItems(f.source, f.filename, f.fsamp, f.refSignal, f.extras))
      case RefOnly(s) => Ok(RefsigItems(s.source, s.filename, s.fsamp, s.refSignal, s.extras))
    else
      Err(ValueError)
  }

  // ---------------------------------------------------------------------
  // Loading

  /** `json.loads(items[k])[key]`. */
  function Field(items: seq<Item>, k: nat, key: string): (r: Result<JValue>)
    ensures k >= |items| ==> r == Err(IndexError)
    ensures r.Ok? <==> k < |items| && items[k].Keyed? && items[k].key == key
    ensures r.Ok? ==> r.value == items[k].value
    ensures k < |items| && items[k].Bare? ==> r == Err(TypeError)
    ensures k < |items| && items[k].Keyed? && items[k].key != key ==> r == Err(KeyError)
  {
    if k >= |items| then Err(IndexError)
    else match items[k]
      case Bare(_) => Err(TypeError)
      case Keyed(name, v) => if name == key then Ok(v) else Err(KeyError)
  }

  /** A table entry: `pd.DataFrame(json.loads(json.loads(items[k])[key]))`. */
  function TableField(items: seq<Item>, k: nat, key: string): (r: Result<Frame>)
    ensures r.Ok? <==> Field(items, k, key).Ok? && Field(items, k, key).value.JTable?
    ensures r.Ok? ==> r.value == Reloaded(Field(items, k, key).value.t)
  {
    var v := Field(items, k, key);
    if v.Err? then Err(v.error)
    else if v.value.JTable? then Ok(Reloaded(v.value.t))
    else Err(TypeError)
  }

  predicate AllDigits(s: string)
  {
    forall i :: 0 <= i < |s| ==> '0' <= s[i] <= '9'
  }

  /** The number the decimal digits `s` spell (0 for no digit). */
  function DigitsValue(s: string): (n: nat)
    requires AllDigits(s)
  {
    if s == [] then 0 else DigitsValue(s[..|s| - 1]) * 10 + (s[|s| - 1] - '0') as int
  }

  /** Reading back the decimal digits of `n` gives `n`. */
  lemma {:induction false} DigitsOfValue(n: nat)
    ensures DigitsValue(NatToString(n)) == n
  {
    var s := NatToString(n);
    if n >= 10 {
      DigitsOfValue(n / 10);
      assert s[..|s| - 1] == NatToString(n / 10);
    }
  }

  /** The sign of a numeric literal and the text after it. */
  function Unsigned(s: string): (r: (int, string))
    ensures r.0 == 1 || r.0 == -1
    ensures |r.1| <= |s|
  {
    if |s| > 0 && s[0] == '-' then (-1, s[1..])
    else if |s| > 0 && s[0] == '+' then (1, s[1..])
    else (1, s)
  }

  /** A string `int()` reads: an optional sign and at least one decimal digit. */
  predicate IntLiteral(s: string)
  {
    var b := Unsigned(s).1;
    |b| > 0 && AllDigits(b)
  }

  function IntLiteralValue(s: string): int
    requires IntLiteral(s)
  {
    var (sign, b) := Unsigned(s);
    sign * DigitsValue(b)
  }

  /** The text `json.dumps` writes for an int. */
  function IntText(i: int): (s: string)
  {
    if i < 0 then "-" + NatToString(-i) else NatToString(i)
  }

  /** Unsigned digits read as the number they spell. */
  lemma DigitsLiteral(d: string)
    requires |d| > 0 && AllDigits(d)
    ensures IntLiteral(d) && IntLiteralValue(d) == DigitsValue(d)
  {
    assert '0' <= d[0] <= '9';
    assert Unsigned(d) == (1, d);
  }

  /** A minus sign before digits negates the number they spell. */
  lemma NegatedDigitsLiteral(d: string)
    requires |d| > 0 && AllDigits(d)
    ensures IntLiteral("-" + d) && IntLiteralValue("-" + d) == -(DigitsValue(d) as int)
  {
    var s := "-" + d;
    assert s[0] == '-' && s[1..] == d;
    assert Unsigned(s) == (-1, d);
  }

  /** `int()` reads back the text of every int. */
  lemma IntTextRoundTrip(i: int)
    ensures IntLiteral(IntText(i)) && IntLiteralValue(IntText(i)) == i
  {
    var n: nat := if i < 0 then -i else i;
    var d := NatToString(n);
    DigitsOfValue(n);
    if i < 0 {
      NegatedDigitsLiteral(d);
    } else {
      DigitsLiteral(d);
    }
  }

  /** The position of the first '.' in `s`, or |s|. */
  function DotAt(s: string): (i: nat)
    ensures i <= |s|
    ensures forall j :: 0 <= j < i ==> s[j] != '.'
    ensures i < |s| ==> s[i] == '.'
  {
    if s == [] || s[0] == '.' then 0 else 1 + DotAt(s[1..])
  }

  function Pow10(n: nat): (p: nat)
    ensures p > 0
  {
    if n == 0 then 1 else 10 * Pow10(n - 1)
  }

  /**
   * A string `float()` reads in this model: an optional sign, then digits
   * with at most one decimal point and at least one digit.
   */
  predicate DecimalLiteral(s: string)
  {
    var b := Unsigned(s).1;
    var i := DotAt(b);
    var whole := b[..i];
    var frac := if i < |b| then b[i + 1..] else [];
    AllDigits(whole) && AllDigits(frac) && |whole| + |frac| > 0
  }

  function DecimalLiteralValue(s: string): real
    requires DecimalLiteral(s)
  {
    var (sign, b) := Unsigned(s);
    var i := DotAt(b);
    var frac := if i < |b| then b[i + 1..] else [];
    sign as real * (DigitsValue(b[..i]) as real + DigitsValue(frac) as real / Pow10(|frac|) as real)
  }

  /** Every integer literal is a decimal literal of the same value. */
  lemma IntLiteralIsDecimal(s: string)
    requires IntLiteral(s)
    ensures DecimalLiteral(s) && DecimalLiteralValue(s) == IntLiteralValue(s) as real
  {
    var b := Unsigned(s).1;
    assert forall j :: 0 <= j < |b| ==> b[j] != '.';
    DotAtNone(b);
    assert b[..|b|] == b;
  }

  lemma {:induction false} DotAtNone(s: string)
    requires forall j :: 0 <= j < |s| ==> s[j] != '.'
    ensures DotAt(s) == |s|
  {
    if s != [] {
      DotAtNone(s[1..]);
    }
  }

  /** `float(x)`: a number, or a string that spells one; `float(None)` and containers raise TypeError. */
  function AsFloat(v: JValue): (r: Result<Float>)
    ensures r.Ok? <==> v.JFloat? || v.JInt? || (v.JStr? && DecimalLiteral(v.s))
    ensures v.JFloat? ==> r == Ok(v.x)
    ensures v.JInt? ==> r == Ok(Num(v.i as real))
    ensures v.JStr? && DecimalLiteral(v.s) ==> r == Ok(Num(DecimalLiteralValue(v.s)))
    ensures v.JStr? && !DecimalLiteral(v.s) ==> r == Err(ValueError)
    ensures !v.JFloat? && !v.JInt? && !v.JStr? ==> r == Err(TypeError)
  {
    match v
    case JFloat(x) => Ok(x)
    case JInt(i) => Ok(Num(i as real))
    case JStr(s) => if DecimalLiteral(s) then Ok(Num(DecimalLiteralValue(s))) else Err(ValueError)
    case _ => Err(TypeError)
  }

  /**
   * `int(x)`: truncation toward zero; `int(nan)` raises ValueError; a string
   * must spell an integer (`int("5")` is 5, `int("5.0")` a ValueError).
   */
  function AsInt(v: JValue): (r: Result<int>)
    ensures v.JInt? ==> r == Ok(v.i)
    ensures v.JFloat? && v.x.Num? ==> r == Ok(TruncToZero(v.x.r))
    ensures v == JFloat(NaN) ==> r == Err(ValueError)
    ensures v.JStr? && IntLiteral(v.s) ==> r == Ok(IntLiteralValue(v.s))
    ensures v.JStr? && !IntLiteral(v.s) ==> r == Err(ValueError)
    ensures r.Ok? <==> v.JInt? || (v.JFloat? && v.x.Num?) || (v.JStr? && IntLiteral(v.s))
  {
    match v
    case JInt(i) => Ok(i)
    case JFloat(x) => if x.Num? then Ok(TruncToZero(x.r)) else Err(ValueError)
    case JStr(s) => if IntLiteral(s) then Ok(IntLiteralValue(s)) else Err(ValueError)
    case _ => Err(TypeError)
  }

  /** A number saved as its JSON text by mistake still loads: `int()` of an int's text is that int. */
  lemma AsIntOfText(i: int)
    ensures AsInt(JStr(IntText(i))) == Ok(i)
    ensures AsFloat(JStr(IntText(i))) == Ok(Num(i as real))
  {
    IntTextRoundTrip(i);
    IntLiteralIsDecimal(IntText(i));
  }

  function AsString(v: JValue): (r: Result<string>)
    ensures r.Ok? <==> v.JStr?
    ensures r.Ok? ==> r.value == v.s
  {
    if v.JStr? then Ok(v.s) else Err(TypeError)
  }

  /** `int(json.loads(items[k])[key])`. */
  function IntField(items: seq<Item>, k: nat, key: string): (r: Result<int>)
    ensures r.Ok? ==> k < |items| && items[k].Keyed? && items[k].key == key
    ensures r.Ok? ==> Field(items, k, key).Ok? && AsInt(Field(items, k, key).value) == r
    ensures Field(items, k, key).Ok? ==> r == AsInt(Field(items, k, key).value)
    ensures Field(items, k, key).Ok? && Field(items, k, key).value == JNull ==> r == Err(TypeError)
  {
    var v := Field(items, k, key);
    if v.Err? then Err(v.error) else AsInt(v.value)
  }

  /** `float(json.loads(items[k])[key])`. */
  function FloatField(items: seq<Item>, k: nat, key: string): (r: Result<Float>)
    ensures r.Ok? ==> k < |items| && items[k].Keyed? && items[k].key == key
    ensures r.Ok? ==> Field(items, k, key).Ok? && AsFloat(Field(items, k, key).value) == r
    ensures Field(items, k, key).Ok? ==> r == AsFloat(Field(items, k, key).value)
  {
    var v := Field(items, k, key);
    if v.Err? then Err(v.error) else AsFloat(v.value)
  }

  /** `float(..)` for FSAMP, kept as a real in the record. */
  function FsampField(items: seq<Item>, k: nat): (r: Result<real>)
    ensures r.Ok? ==> k < |items| && items[k].Keyed? && items[k].key == "FSAMP"
    ensures k < |items| && items[k].Keyed? && items[k].key == "FSAMP" && items[k].value.JFloat? ==>
      (r.Ok? <==> items[k].value.x.Num?) && (r.Ok? ==> r.value == items[k].value.x.r)
    ensures k < |items| && items[k].Keyed? && items[k].key == "FSAMP" && items[k].value.JInt? ==>
      r == Ok(items[k].value.i as real)
  {
    var v := Field(items, k, "FSAMP");
    if v.Err? then Err(v.error)
    else
      var x := AsFloat(v.value);
      if x.Err? then Err(x.error)
      else if x.value.NaN? then Err(ValueError)
      else Ok(x.value.r)
  }

  /** MUPULSES: a bare list of firing lists. */
  function PulsesAt(items: seq<Item>, k: nat): (r: Result<seq<seq<int>>>)
    ensures r.Ok? <==> k < |items| && items[k].Bare? && items[k].value.JPulses?
    ensures r.Ok? ==> r.value == items[k].value.p
  {
    if k >= |items| then Err(IndexError)
    else match items[k]
      case Bare(JPulses(p)) => Ok(p)
      case _ => Err(TypeError)
  }

  /** Positions 2..5 of a full file: RAW_SIGNAL, REF_SIGNAL, ACCURACY and IPTS, in order. */
  function FullTables(items: seq<Item>): (r: Result<(Frame, Frame, Frame, Frame)>)
    ensures r.Ok? ==> |items| >= 6 && forall k :: 2 <= k < 6 ==> items[k].Keyed? && items[k].key == FullKeys[k]
  {
    var raw := TableField(items, 2, "RAW_SIGNAL");
    if raw.Err? then Err(raw.error) else
    var ref := TableField(items, 3, "REF_SIGNAL");
    if ref.Err? then Err(ref.error) else
    var acc := TableField(items, 4, "ACCURACY");
    if acc.Err? then Err(acc.error) else
    var ipts := TableField(items, 5, "IPTS");
    if ipts.Err? then Err(ipts.error) else
    Ok((raw.value, ref.value, acc.value, ipts.value))
  }

  /** Positions 7..10 of a full file: FSAMP, IED, EMG_LENGTH and NUMBER_OF_MUS, in order. */
  function FullScalars(items: seq<Item>): (r: Result<(real, Float, int, int)>)
    ensures r.Ok? ==> |items| >= 11 && items[7].Keyed? && items[7].key == "FSAMP" && items[8].Keyed? && items[8].key == "IED"
                      && items[9].Keyed? && items[9].key == "EMG_LENGTH" && items[10].Keyed? && items[10].key == "NUMBER_OF_MUS"
  {
    var fsamp := FsampField(items, 7);
    if fsamp.Err? then Err(fsamp.error) else
    var ied := FloatField(items, 8, "IED");
    if ied.Err? then Err(ied.error) else
    var len := IntField(items, 9, "EMG_LENGTH");
    if len.Err? then Err(len.error) else
    var n := IntField(items, 10, "NUMBER_OF_MUS");
    if n.Err? then Err(n.error) else
    Ok((fsamp.value, ied.value, len.value, n.value))
  }

  /** Positions 11 and 12 of a full file: BINARY_MUS_FIRING and EXTRAS, in order. */
  function FullTail(items: seq<Item>): (r: Result<(Frame, Frame)>)
    ensures r.Ok? ==> |items| >= 13 && forall k :: 11 <= k < 13 ==> items[k].Keyed? && items[k].key == FullKeys[k]
  {
    var bin := TableField(items, 11, "BINARY_MUS_FIRING");
    if bin.Err? then Err(bin.error) else
    var extras := TableField(items, 12, "EXTRAS");
    if extras.Err? then Err(extras.error) else
    Ok((bin.value, extras.value))
  }

  /** What `FullTables`, `PulsesAt`, `FullScalars` and `FullTail` check together: positions 2..12 of a full file. */
  lemma FullPositions(items: seq<Item>)
    requires |items| >= 13 && items[6].Bare?
    requires forall k :: 2 <= k < 6 ==> items[k].Keyed? && items[k].key == FullKeys[k]
    requires items[7].Keyed? && items[7].key == "FSAMP" && items[8].Keyed? && items[8].key == "IED"
             && items[9].Keyed? && items[9].key == "EMG_LENGTH" && items[10].Keyed? && items[10].key == "NUMBER_OF_MUS"
    requires forall k :: 11 <= k < 13 ==> items[k].Keyed? && items[k].key == FullKeys[k]
    ensures forall k :: 2 <= k < 13 && k != 6 ==> items[k].Keyed? && items[k].key == FullKeys[k]
  {
  }

  /** The full-source branch of `emg_from_json`, reading positions 2..12 in order. */
  function LoadFull(items: seq<Item>, source: string, filename: JValue): (r: Result<Record>)
    ensures r.Ok? ==> r.value.Full? && r.value.f.source == source && filename == JStr(r.value.f.filename)
    ensures r.Ok? ==> r.value.f.accuracy.Some? && r.value.f.pnr.None? && r.value.f.sil.None?
    ensures r.Ok? ==> (|items| >= 13 && items[6].Bare?
                       && forall k :: 2 <= k < 13 && k != 6 ==> items[k].Keyed? && items[k].key == FullKeys[k])
  {
    var tables := FullTables(items);
    if tables.Err? then Err(tables.error) else
    var (raw, ref, acc, ipts) := tables.value;
    var mp := PulsesAt(items, 6);
    if mp.Err? then Err(mp.error) else
    var scalars := FullScalars(items);
    if scalars.Err? then Err(scalars.error) else
    var (fsamp, ied, len, n) := scalars.value;
    var tail := FullTail(items);
    if tail.Err? then Err(tail.error) else
    var (bin, extras) := tail.value;
    var name := AsString(filename);
    if name.Err? then Err(name.error) else
    FullPositions(items);
    Ok(Full(EmgFile(source, name.value, raw, ref, Some(acc), None, None, ipts, mp.value,
                    fsamp, ied, len, n, bin, extras)))
  }

  /** The reference-signal branch of `emg_from_json`, reading positions 2..4. */
  function LoadRefsig(items: seq<Item>, source: string, filename: JValue): (r: Result<Record>)
    ensures r.Ok? ==> r.value.RefOnly? && r.value.r.source == source && filename == JStr(r.value.r.filename)
    ensures r.Ok? ==> |items| >= 5 && items[2].Keyed? && items[2].key == "FSAMP"
                      && items[3].Keyed? && items[3].key == "REF_SIGNAL" && items[4].Keyed? && items[4].key == "EXTRAS"
  {
    var fsamp := FsampField(items, 2);
    if fsamp.Err? then Err(fsamp.error) else
    var ref := TableField(items, 3, "REF_SIGNAL");
    if ref.Err? then Err(ref.error) else
    var extras := TableField(items, 4, "EXTRAS");
    if extras.Err? then Err(extras.error) else
    var name := AsString(filename);
    if name.Err? then Err(name.error) else
    Ok(RefOnly(RefsigFile(source, name.value, fsamp.value, ref.value, extras.value)))
  }

  /** The two leading keys together with what `LoadFull` checks make the full layout. */
  lemma FullLayoutFromHead(items: seq<Item>)
    requires |items| >= 13 && items[6].Bare?
    requires items[0].Keyed? && items[0].key == "SOURCE" && items[1].Keyed? && items[1].key == "FILENAME"
    requires forall k :: 2 <= k < 13 && k != 6 ==> items[k].Keyed? && items[k].key == FullKeys[k]
    ensures FullLayout(items)
  {
  }

  /** The two leading keys together with what `LoadRefsig` checks make the REF_SIGNAL layout. */
  lemma RefsigLayoutFromHead(items: seq<Item>)
    requires |items| >= 5
    requires items[0].Keyed? && items[0].key == "SOURCE" && items[1].Keyed? && items[1].key == "FILENAME"
    requires items[2].Keyed? && items[2].key == "FSAMP"
             && items[3].Keyed? && items[3].key == "REF_SIGNAL" && items[4].Keyed? && items[4].key == "EXTRAS"
    ensures RefsigLayout(items)
  {
  }

  /**
   * `emg_from_json`, from the decoded list: SOURCE and FILENAME are read
   * from positions 0 and 1 before the dispatch; an unrecognised source
   * raises a bare Exception.
   */
  function LoadJson(items: seq<Item>): (r: Result<Record>)
    ensures |items| == 0 ==> r == Err(IndexError)
    ensures r.Ok? ==> items[0] == Keyed("SOURCE", JStr(SourceOf(r.value)))
    ensures r.Ok? && r.value.Full? ==> SourceOf(r.value) in FullSources && FullLayout(items)
    ensures r.Ok? && r.value.RefOnly? ==> SourceOf(r.value) in RefsigSources && RefsigLayout(items)
    ensures r.Ok? && r.value.Full? ==> r.value.f.accuracy.Some? && r.value.f.pnr.None? && r.value.f.sil.None?
    ensures (|items| >= 2 && items[0].Keyed? && items[0].key == "SOURCE" && items[0].value.JStr?
             && items[0].value.s !in FullSources && items[0].value.s !in RefsigSources
             && items[1].Keyed? && items[1].key == "FILENAME") ==> r == Err(GenericException)
  {
    var s0 := Field(items, 0, "SOURCE");
    if s0.Err? then Err(s0.error) else
    var s1 := Field(items, 1, "FILENAME");
    if s1.Err? then Err(s1.error) else
    if s0.value.JStr? && s0.value.s in FullSources then
      var r := LoadFull(items, s0.value.s, s1.value);
      assert r.Ok? ==> FullLayout(items) by { if r.Ok? { FullLayoutFromHead(items); } }
      r
    else if s0.value.JStr? && s0.value.s in RefsigSources then
      var r := LoadRefsig(items, s0.value.s, s1.value);
      assert r.Ok? ==> RefsigLayout(items) by { if r.Ok? { RefsigLayoutFromHead(items); } }
      r
    else Err(GenericException)
  }

  // ---------------------------------------------------------------------
  // Round trips

  /** The full emgfile `emg_from_json` returns for what `save_json_emgfile` wrote. */
  function ReloadedFile(f: EmgFile): (g: EmgFile)
    requires f.accuracy.Some?
    ensures g.accuracy.Some? && g.pnr.None? && g.sil.None?
    ensures g == f <==> f.pnr.None? && f.sil.None? && Persistable(f.rawSignal) && Persistable(f.refSignal)
                        && Persistable(f.accuracy.value) && Persistable(f.ipts) && Persistable(f.binary)
                        && Persistable(f.extras)
  {
    f.(rawSignal := Reloaded(f.rawSignal), refSignal := Reloaded(f.refSignal),
       accuracy := Some(Reloaded(f.accuracy.value)), pnr := None, sil := None, ipts := Reloaded(f.ipts),
       binary := Reloaded(f.binary), extras := Reloaded(f.extras))
  }

  /** Saving a full emgfile and loading it back gives the file with each table passed through `to_json()`. */
  lemma SaveLoadFull(f: EmgFile)
    requires f.source in FullSources && f.accuracy.Some?
    ensures SaveJson(Full(f)).Ok?
    ensures LoadJson(SaveJson(Full(f)).value) == Ok(Full(ReloadedFile(f)))
  {
    var items := FullItems(f, f.accuracy.value);
    assert SaveJson(Full(f)) == Ok(items);
    assert TableField(items, 2, "RAW_SIGNAL") == Ok(Reloaded(f.rawSignal));
    assert TableField(items, 11, "BINARY_MUS_FIRING") == Ok(Reloaded(f.binary));
    assert FsampField(items, 7) == Ok(f.fsamp);
    assert LoadFull(items, f.source, JStr(f.filename)) == Ok(Full(ReloadedFile(f)));
  }

  /**
   * The round trip is exact precisely for the files without PNR/SIL whose
   * tables all survive `to_json()`; a table with rows but no columns (a
   * file with no MUs) comes back with no rows.
   */
  lemma FullRoundTrip(f: EmgFile)
    requires f.source in FullSources && f.accuracy.Some?
    ensures LoadJson(SaveJson(Full(f)).value) == Ok(Full(f)) <==>
      f.pnr.None? && f.sil.None? && Persistable(f.rawSignal) && Persistable(f.refSignal)
      && Persistable(f.accuracy.value) && Persistable(f.ipts) && Persistable(f.binary) && Persistable(f.extras)
  {
    SaveLoadFull(f);
  }

  /**
   * A valid emgfile with at least one MU and one raw channel, whose values
   * all have at most ten decimals, reloads as itself, and so still valid.
   */
  lemma ValidFileRoundTrip(f: EmgFile)
    requires ValidEmgFile(f) && f.source in FullSources
    requires f.numberOfMus > 0 && |f.rawSignal.cols| > 0 && |f.refSignal.cols| > 0
    requires |f.accuracy.value.cols| > 0 && |f.extras.cols| > 0
    requires FrameOnGrid(f.rawSignal) && FrameOnGrid(f.refSignal) && FrameOnGrid(f.accuracy.value)
    requires FrameOnGrid(f.ipts) && FrameOnGrid(f.binary) && FrameOnGrid(f.extras)
    ensures LoadJson(SaveJson(Full(f)).value) == Ok(Full(f))
    ensures ValidEmgFile(LoadJson(SaveJson(Full(f)).value).value.f)
  {
    FullRoundTrip(f);
  }

  /** The file read back saves and reloads as itself: a second round trip loses nothing more. */
  lemma SecondRoundTripExact(f: EmgFile)
    requires f.source in FullSources && f.accuracy.Some?
    ensures LoadJson(SaveJson(Full(ReloadedFile(f))).value) == Ok(Full(ReloadedFile(f)))
  {
    var g := ReloadedFile(f);
    SaveLoadFull(g);
    ReloadedIdempotent(f.rawSignal);
    ReloadedIdempotent(f.refSignal);
    ReloadedIdempotent(f.accuracy.value);
    ReloadedIdempotent(f.ipts);
    ReloadedIdempotent(f.binary);
    ReloadedIdempotent(f.extras);
    assert ReloadedFile(g) == g;
  }

  /** A file with no MUs loses the rows of its binary table, so the reloaded file is no longer valid. */
  lemma NoMuFileNotValidAfterReload(f: EmgFile)
    requires ValidEmgFile(f) && f.source in FullSources && f.numberOfMus == 0
    ensures LoadJson(SaveJson(Full(f)).value).Ok?
    ensures !ValidEmgFile(LoadJson(SaveJson(Full(f)).value).value.f)
  {
    SaveLoadFull(f);
    assert ReloadedFile(f).binary == Frame(0, []);
  }

  /** A reference-signal file round-trips up to `to_json()` of its two tables. */
  lemma SaveLoadRefsig(s: RefsigFile)
    requires s.source in RefsigSources
    ensures LoadJson(SaveJson(RefOnly(s)).value)
      == Ok(RefOnly(s.(refSignal := Reloaded(s.refSignal), extras := Reloaded(s.extras))))
  {
    var items := RefsigItems(s.source, s.filename, s.fsamp, s.refSignal, s.extras);
    assert SaveJson(RefOnly(s)) == Ok(items);
    assert FsampField(items, 2) == Ok(s.fsamp);
  }

  /** A full emgfile labelled with a reference-signal source is saved and reloaded as its reference signal alone. */
  lemma FullFileWithRefsigSource(f: EmgFile)
    requires f.source in RefsigSources
    ensures LoadJson(SaveJson(Full(f)).value)
      == Ok(RefOnly(RefsigFile(f.source, f.filename, f.fsamp, Reloaded(f.refSignal), Reloaded(f.extras))))
  {
    var items := RefsigItems(f.source, f.filename, f.fsamp, f.refSignal, f.extras);
    assert SaveJson(Full(f)) == Ok(items);
    assert FsampField(items, 2) == Ok(f.fsamp);
  }
}
