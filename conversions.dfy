/**
 * `convert_json_output` (openhdemg/compatibility/conversions.py) without
 * its GUI: files saved by openhdemg 0.1.0-beta.2 as a positional JSON list
 * are read back and written again, for 0.1.0-beta.3, as a JSON object keyed
 * by field name, under a name derived from the input file.
 *
 * The file system is a parameter: what kind of path `old` is, whether
 * `new` is a directory, the answer typed at the overwrite prompt, and the
 * decoded content of each input file.
 */
module Conversions {
  import opened Common
  import opened EmgRecord
  import opened JsonFiles

  // ---------------------------------------------------------------------
  // Versions

  const AcceptedOldVersions: seq<string> := ["0.1.0-beta.2"]
  const AcceptedNewVersions: seq<string> := ["0.1.0-beta.3"]

  /** The two version checks of the constructor, old version first. */
  function VersionError(oldVersion: string, newVersion: string): (e: Option<Error>)
    ensures e.None? <==> oldVersion == "0.1.0-beta.2" && newVersion == "0.1.0-beta.3"
    ensures e.Some? ==> e.value == ValueError
  {
    if oldVersion !in AcceptedOldVersions then Some(ValueError)
    else if newVersion !in AcceptedNewVersions then Some(ValueError)
    else None
  }

  // ---------------------------------------------------------------------
  // Output names (POSIX `os.path`)

  /** `os.path.basename`: what follows the last "/". */
  function Basename(p: string): (b: string)
    ensures '/' !in b
    ensures |b| <= |p| && p[|p| - |b|..] == b
    ensures |b| < |p| ==> p[|p| - |b| - 1] == '/'
  {
    if p == [] then []
    else if p[|p| - 1] == '/' then []
    else
      var b := Basename(p[..|p| - 1]);
      assert p[..|p| - 1][|p| - 1 - |b|..] == p[|p| - 1 - |b|..|p| - 1];
      b + [p[|p| - 1]]
  }

  /** The position of the last `c` in `s`. */
  function LastIndex(s: string, c: char): (r: Option<nat>)
    ensures r.None? <==> c !in s
    ensures r.Some? ==> r.value < |s| && s[r.value] == c && c !in s[r.value + 1..]
  {
    if s == [] then None
    else if s[|s| - 1] == c then Some(|s| - 1)
    else
      var r := LastIndex(s[..|s| - 1], c);
      assert r.Some? ==> s[r.value + 1..] == s[..|s| - 1][r.value + 1..] + [s[|s| - 1]];
      assert r.None? ==> s == s[..|s| - 1] + [s[|s| - 1]];
      r
  }

  predicate OnlyDots(s: string)
  {
    forall i :: 0 <= i < |s| ==> s[i] == '.'
  }

  /**
   * `os.path.splitext`: the extension starts at the last "." unless only
   * dots precede it (so ".json" has no extension).
   */
  function SplitExt(name: string): (r: (string, string))
    ensures r.0 + r.1 == name
    ensures r.1 != [] ==> r.1[0] == '.' && '.' !in r.1[1..] && !OnlyDots(r.0)
    ensures r.1 == [] ==> '.' !in name || OnlyDots(name[..LastIndex(name, '.').value])
  {
    var d := LastIndex(name, '.');
    if d.None? || OnlyDots(name[..d.value]) then (name, [])
    else
      assert name[d.value..][1..] == name[d.value + 1..];
      (name[..d.value], name[d.value..])
  }

  /** The converted file's name: the input's stem, "_" and `append_name` when that is not empty, ".json". */
  function OutputName(fin: string, append: string): string
  {
    SplitExt(Basename(fin)).0 + (if |append| > 0 then "_" + append else "") + ".json"
  }

  /** The converted file's path in the directory `dir`. */
  function OutputPath(dir: string, fin: string, append: string): (p: string)
    ensures p == dir + "/" + OutputName(fin, append)
  {
    dir + "/" + OutputName(fin, append)
  }

  /** A non-empty `append_name` never gives the input's own name. */
  lemma AppendedNameDiffers(fin: string, append: string)
    requires |append| > 0
    ensures OutputName(fin, append) != Basename(fin)
  {
    var r := SplitExt(Basename(fin));
    DifferentAfterStem(r.0, r.1, append);
  }

  /** A stem followed by "_" and more differs from the stem followed by nothing or an extension. */
  lemma DifferentAfterStem(stem: string, ext: string, append: string)
    requires ext == [] || ext[0] == '.'
    ensures stem + ("_" + append) + ".json" != stem + ext
  {
    assert (stem + ("_" + append) + ".json")[|stem|] == '_';
    assert |stem + ext| > |stem| ==> (stem + ext)[|stem|] == '.';
  }

  /** ... so a converted file is never written over the file it was read from, whatever the directory. */
  lemma AppendedPathDiffers(dir: string, fin: string, append: string)
    requires |append| > 0
    ensures OutputPath(dir, fin, append) != dir + "/" + Basename(fin)
  {
    AppendedNameDiffers(fin, append);
    var n := |dir| + 1;
    assert (dir + "/" + OutputName(fin, append))[n..] == OutputName(fin, append);
    assert (dir + "/" + Basename(fin))[n..] == Basename(fin);
  }

  /** With an empty `append_name` a ".json" input keeps its name: the case the overwrite prompt guards. */
  lemma EmptyAppendKeepsName(dir: string, fin: string)
    requires SplitExt(Basename(fin)).1 == ".json"
    ensures OutputPath(dir, fin, "") == dir + "/" + Basename(fin)
  {
    var (stem, ext) := SplitExt(Basename(fin));
    assert stem + ext == Basename(fin);
    assert OutputName(fin, "") == stem + [] + ".json";
    assert stem + [] == stem;
  }

  /** The prompt is shown when the safety checks are on and nothing is appended. */
  predicate PromptNeeded(ignoreSafetyChecks: bool, append: string)
  {
    !ignoreSafetyChecks && |append| == 0
  }

  predicate Confirmed(response: string)
  {
    response == "Y" || response == "y"
  }

  // ---------------------------------------------------------------------
  // Input files

  datatype PathKind = IsFile | IsDirectory(entries: seq<string>) | Missing

  predicate EndsWith(s: string, suffix: string)
  {
    |suffix| <= |s| && s[|s| - |suffix|..] == suffix
  }

  /** `os.path.join(a, b)` on POSIX. */
  function Join(a: string, b: string): (p: string)
    ensures |b| > 0 && b[0] == '/' ==> p == b
    ensures !(|b| > 0 && b[0] == '/') ==> EndsWith(p, b)
  {
    if |b| > 0 && b[0] == '/' then b
    else if a == [] || a[|a| - 1] == '/' then a + b
    else a + "/" + b
  }

  /** The directory entries ending in ".json", in listing order. */
  function JsonEntries(entries: seq<string>): (r: seq<string>)
    ensures forall x :: x in r <==> x in entries && EndsWith(x, ".json")
    ensures |r| <= |entries|
  {
    if entries == [] then []
    else
      var rest := JsonEntries(entries[1..]);
      assert forall x :: x in entries <==> x == entries[0] || x in entries[1..];
      if EndsWith(entries[0], ".json") then [entries[0]] + rest else rest
  }

  /** The files to convert: `old` itself, the ".json" files of the directory `old`, or FileNotFoundError. */
  function InputFiles(oldPath: string, kind: PathKind): (r: Result<seq<string>>)
    ensures kind.Missing? <==> r.Err?
    ensures r.Err? ==> r.error == FileNotFoundError
    ensures kind.IsFile? ==> r == Ok([oldPath])
    ensures kind.IsDirectory? ==> (|r.value| == |JsonEntries(kind.entries)|
      && forall k :: 0 <= k < |r.value| ==> r.value[k] == Join(oldPath, JsonEntries(kind.entries)[k]))
  {
    match kind
    case IsFile => Ok([oldPath])
    case Missing => Err(FileNotFoundError)
    case IsDirectory(entries) =>
      var js := JsonEntries(entries);
      Ok(seq(|js|, k requires 0 <= k < |js| => Join(oldPath, js[k])))
  }

  // ---------------------------------------------------------------------
  // The 0.1.0-beta.3 keyed layout

  /** A JSON object, in insertion order. */
  type KeyedDict = seq<(string, JValue)>

  const B3FullSources: seq<string> := ["DEMUSE", "OTB", "CUSTOMCSV", "DELSYS"]
  const B3RefsigSources: seq<string> := ["OTB_REFSIG", "CUSTOMCSV_REFSIG", "DELSYS_REFSIG"]

  function FullDict(f: EmgFile, accuracy: Frame): KeyedDict
  {
    [ ("SOURCE", JStr(f.source)), ("FILENAME", JStr(f.filename)), ("RAW_SIGNAL", JTable(f.rawSignal)),
      ("REF_SIGNAL", JTable(f.refSignal)), ("ACCURACY", JTable(accuracy)), ("IPTS", JTable(f.ipts)),
      ("MUPULSES", JPulses(f.mupulses)), ("FSAMP", JFloat(Num(f.fsamp))), ("IED", JFloat(f.ied)),
      ("EMG_LENGTH", JInt(f.emgLength)), ("NUMBER_OF_MUS", JInt(f.numberOfMus)),
      ("BINARY_MUS_FIRING", JTable(f.binary)), ("EXTRAS", JTable(f.extras)) ]
  }

  function RefsigDict(source: string, filename: string, fsamp: real, refSignal: Frame, extras: Frame): KeyedDict
  {
    [ ("SOURCE", JStr(source)), ("FILENAME", JStr(filename)), ("FSAMP", JFloat(Num(fsamp))),
      ("REF_SIGNAL", JTable(refSignal)), ("EXTRAS", JTable(extras)) ]
  }

  /**
   * `save_0_1_0_b3`: the same fields as the list layout, keyed by name,
   * for the full sources and DELSYS, and for the three reference-signal
   * sources; any other source raises ValueError.
   */
  function SaveB3(d: Record): (r: Result<KeyedDict>)
    ensures SourceOf(d) in B3FullSources ==> (r.Ok? <==> d.Full? && d.f.accuracy.Some?)
    ensures SourceOf(d) in B3FullSources && r.Err? ==> r.error == KeyError
    ensures SourceOf(d) in B3FullSources && r.Ok? ==>
      |r.value| == 13 && forall k :: 0 <= k < 13 ==> r.value[k].0 == FullKeys[k]
    ensures SourceOf(d) in B3RefsigSources ==>
      r.Ok? && |r.value| == 5 && forall k :: 0 <= k < 5 ==> r.value[k].0 == RefsigKeys[k]
    ensures SourceOf(d) !in B3FullSources && SourceOf(d) !in B3RefsigSources ==> r == Err(ValueError)
  {
    var source := SourceOf(d);
    if source in B3FullSources then
      match d
      case RefOnly(_) => Err(KeyError)
      case Full(f) => if f.accuracy.None? then Err(KeyError) else Ok(FullDict(f, f.accuracy.value))
    else if source in B3RefsigSources then
      match d
      case Full(f) => Ok(RefsigDict(f.source, f.filename, f.fsamp, f.refSignal, f.extras))
      case RefOnly(s) => Ok(RefsigDict(s.source, s.filename, s.fsamp, s.refSignal, s.extras))
    else
      Err(ValueError)
  }

  /** The name a list entry is stored under in the keyed layout (the bare entry is MUPULSES). */
  function KeyOf(item: Item): string
  {
    if item.Keyed? then item.key else "MUPULSES"
  }

  /** The positional list turned into an object: each entry under its own key, in the same order. */
  function DictOfList(items: seq<Item>): (d: KeyedDict)
    ensures |d| == |items|
    ensures forall k :: 0 <= k < |items| ==> d[k] == (KeyOf(items[k]), items[k].value)
  {
    seq(|items|, k requires 0 <= k < |items| => (KeyOf(items[k]), items[k].value))
  }

  /** Wherever the list layout saves a record, the keyed layout saves the same values under the same names. */
  lemma ListToDict(d: Record)
    requires SaveJson(d).Ok?
    ensures SaveB3(d) == Ok(DictOfList(SaveJson(d).value))
  {
    var items := SaveJson(d).value;
    var source := SourceOf(d);
    if source in FullSources {
      var f := d.f;
      var acc := f.accuracy.value;
      assert source == FullSources[0] || source == FullSources[1] || source == FullSources[2];
      assert source in B3FullSources;
      assert items == FullItems(f, acc);
      assert SaveB3(d) == Ok(FullDict(f, acc));
      forall k | 0 <= k < 13
        ensures DictOfList(items)[k] == FullDict(f, acc)[k]
      {
      }
      assert DictOfList(items) == FullDict(f, acc);
    } else {
      assert source == RefsigSources[0] || source == RefsigSources[1];
      assert source !in B3FullSources && source in B3RefsigSources;
      var r := if d.Full? then RefsigFile(d.f.source, d.f.filename, d.f.fsamp, d.f.refSignal, d.f.extras) else d.r;
      assert items == RefsigItems(r.source, r.filename, r.fsamp, r.refSignal, r.extras);
      assert SaveB3(d) == Ok(RefsigDict(r.source, r.filename, r.fsamp, r.refSignal, r.extras));
      forall k | 0 <= k < 5
        ensures DictOfList(items)[k] == RefsigDict(r.source, r.filename, r.fsamp, r.refSignal, r.extras)[k]
      {
      }
      assert DictOfList(items) == RefsigDict(r.source, r.filename, r.fsamp, r.refSignal, r.extras);
    }
  }

  /** DELSYS records can be written in the keyed layout only. */
  lemma DelsysOnlyInB3(d: Record)
    requires SourceOf(d) == "DELSYS" || SourceOf(d) == "DELSYS_REFSIG"
    requires d.Full? && d.f.accuracy.Some?
    ensures SaveJson(d) == Err(ValueError)
    ensures SaveB3(d).Ok?
  {
  }

  // ---------------------------------------------------------------------
  // The conversion loop

  /** One file: `load_0_1_0_b2` (the positional reader of the library) then `save_0_1_0_b3` under the new name. */
  function ConvertOne(dir: string, fin: string, append: string, items: seq<Item>): (r: Result<(string, KeyedDict)>)
    ensures r.Ok? <==> LoadJson(items).Ok?
    ensures r.Err? ==> LoadJson(items).Err? && r.error == LoadJson(items).error
    ensures r.Ok? ==> r.value.0 == OutputPath(dir, fin, append) && Ok(r.value.1) == SaveB3(LoadJson(items).value)
  {
    var d := LoadJson(items);
    if d.Err? then Err(d.error)
    else
      var s := SaveB3(d.value);
      assert FullSources[0] in B3FullSources && FullSources[1] in B3FullSources && FullSources[2] in B3FullSources;
      assert RefsigSources[0] in B3RefsigSources && RefsigSources[1] in B3RefsigSources;
      Ok((OutputPath(dir, fin, append), s.value))
  }

  /** A file written by the list-layout save converts to the keyed layout of the record it loads as. */
  lemma ConvertSavedFile(dir: string, fin: string, append: string, f: EmgFile)
    requires f.source in FullSources && f.accuracy.Some?
    ensures ConvertOne(dir, fin, append, SaveJson(Full(f)).value)
      == Ok((OutputPath(dir, fin, append), DictOfList(SaveJson(Full(ReloadedFile(f))).value)))
  {
    SaveLoadFull(f);
    ListToDict(Full(ReloadedFile(f)));
  }

  /** The per-file body of the conversion loop. */
  function Step(dir: string, append: string, read: string -> seq<Item>): string -> Result<(string, KeyedDict)>
  {
    fin => ConvertOne(dir, fin, append, read(fin))
  }

  /**
   * The outputs of `step` on the files before the first failure, and that
   * failure: the loop writes each converted file as it goes, so an
   * exception leaves the earlier outputs written.
   */
  function ConvertFiles<T>(files: seq<string>, step: string -> Result<T>): (r: (seq<T>, Option<Error>))
    ensures |r.0| <= |files|
  {
    if files == [] then ([], None)
    else
      var one := step(files[0]);
      if one.Err? then ([], Some(one.error))
      else
        var rest := ConvertFiles(files[1..], step);
        ([one.value] + rest.0, rest.1)
  }

  /**
   * Each output is the step's result on the input at the same position;
   * a run ends early exactly at the first input that fails.
   */
  lemma {:induction false} ConvertFilesSpec<T>(files: seq<string>, step: string -> Result<T>)
    ensures var r := ConvertFiles(files, step);
      (forall k :: 0 <= k < |r.0| ==> Ok(r.0[k]) == step(files[k]))
      && (r.1.None? ==> |r.0| == |files|)
      && (r.1.Some? ==> |r.0| < |files| && step(files[|r.0|]) == Err(r.1.value))
  {
    if files != [] {
      var one := step(files[0]);
      if one.Ok? {
        ConvertFilesSpec(files[1..], step);
        var rest := ConvertFiles(files[1..], step);
        assert ConvertFiles(files, step) == ([one.value] + rest.0, rest.1);
        assert forall k :: 0 < k < |files| ==> files[1..][k - 1] == files[k];
      }
    }
  }

  /** The `for pos, fin in enumerate(files_to_open)` loop. */
  method ConvertLoop<T>(files: seq<string>, step: string -> Result<T>) returns (written: seq<T>, err: Option<Error>)
    ensures (written, err) == ConvertFiles(files, step)
  {
    written := [];
    assert files[0..] == files;
    var all := ConvertFiles(files, step);
    assert all == (all.0, all.1) && [] + all.0 == all.0;
    for i := 0 to |files|
      invariant ConvertFiles(files, step) == (written + ConvertFiles(files[i..], step).0, ConvertFiles(files[i..], step).1)
    {
      assert files[i..][0] == files[i];
      assert files[i..][1..] == files[i + 1..];
      var one := step(files[i]);
      if one.Err? {
        assert written + [] == written;
        return written, Some(one.error);
      }
      assert written + ([one.value] + ConvertFiles(files[i + 1..], step).0)
        == (written + [one.value]) + ConvertFiles(files[i + 1..], step).0;
      written := written + [one.value];
    }
    assert files[|files|..] == [];
    assert written + [] == written;
    err := None;
  }

  // ---------------------------------------------------------------------
  // The non-GUI constructor

  datatype Outcome = Completed | Interrupted | Raised(error: Error)

  /** The files written, in order, and how the run ended. */
  datatype Run = Run(written: seq<(string, KeyedDict)>, outcome: Outcome)

  /**
   * `convert_json_output(gui=False)`: versions, `old`, `new`, the overwrite
   * prompt, then every input file in turn.
   */
  function Convert(oldVersion: string, newVersion: string, oldPath: string, oldKind: PathKind, newDir: string,
                   newIsDir: bool, append: string, ignoreSafetyChecks: bool, response: string,
                   read: string -> seq<Item>): (r: Run)
    ensures VersionError(oldVersion, newVersion).Some? ==> r == Run([], Raised(ValueError))
    ensures VersionError(oldVersion, newVersion).None? && oldKind.Missing? ==> r == Run([], Raised(FileNotFoundError))
    ensures VersionError(oldVersion, newVersion).None? && !oldKind.Missing? && !newIsDir ==>
      r == Run([], Raised(ValueError))
    ensures r.outcome == Interrupted <==>
      VersionError(oldVersion, newVersion).None? && !oldKind.Missing? && newIsDir
      && PromptNeeded(ignoreSafetyChecks, append) && !Confirmed(response)
    ensures r.written != [] ==>
      VersionError(oldVersion, newVersion).None? && !oldKind.Missing? && newIsDir
      && (PromptNeeded(ignoreSafetyChecks, append) ==> Confirmed(response))
    ensures r.outcome.Completed? ==>
      InputFiles(oldPath, oldKind).Ok? && |r.written| == |InputFiles(oldPath, oldKind).value|
    ensures forall k :: 0 <= k < |r.written| ==>
      InputFiles(oldPath, oldKind).Ok? && k < |InputFiles(oldPath, oldKind).value|
      && r.written[k].0 == OutputPath(newDir, InputFiles(oldPath, oldKind).value[k], append)
  {
    if VersionError(oldVersion, newVersion).Some? then Run([], Raised(ValueError))
    else
      var files := InputFiles(oldPath, oldKind);
      if files.Err? then Run([], Raised(files.error))
      else if !newIsDir then Run([], Raised(ValueError))
      else if PromptNeeded(ignoreSafetyChecks, append) && !Confirmed(response) then Run([], Interrupted)
      else
        var (w, e) := ConvertFiles(files.value, Step(newDir, append, read));
        ConvertFilesSpec(files.value, Step(newDir, append, read));
        Run(w, if e.None? then Completed else Raised(e.value))
  }

  /** The constructor's statements in order. */
  method ConvertJsonOutput(oldVersion: string, newVersion: string, oldPath: string, oldKind: PathKind, newDir: string,
                           newIsDir: bool, append: string, ignoreSafetyChecks: bool, response: string,
                           read: string -> seq<Item>) returns (r: Run)
    ensures r == Convert(oldVersion, newVersion, oldPath, oldKind, newDir, newIsDir, append, ignoreSafetyChecks,
                         response, read)
  {
    if oldVersion !in AcceptedOldVersions || newVersion !in AcceptedNewVersions {
      return Run([], Raised(ValueError));
    }
    var files := InputFiles(oldPath, oldKind);
    if files.Err? {
      return Run([], Raised(files.error));
    }
    if !newIsDir {
      return Run([], Raised(ValueError));
    }
    if !ignoreSafetyChecks && |append| == 0 && !Confirmed(response) {
      return Run([], Interrupted);
    }
    var written, err := ConvertLoop(files.value, Step(newDir, append, read));
    r := Run(written, if err.None? then Completed else Raised(err.value));
  }

  /** With a non-empty `append_name` no written file has the name of the file it came from. */
  lemma ConvertNeverOverwritesWithAppend(oldVersion: string, newVersion: string, oldPath: string, oldKind: PathKind,
                                         newDir: string, newIsDir: bool, append: string,
                                         ignoreSafetyChecks: bool, response: string, read: string -> seq<Item>)
    requires |append| > 0
    ensures var r := Convert(oldVersion, newVersion, oldPath, oldKind, newDir, newIsDir, append, ignoreSafetyChecks,
                             response, read);
      forall k :: 0 <= k < |r.written| ==>
        r.written[k].0 != newDir + "/" + Basename(InputFiles(oldPath, oldKind).value[k])
  {
    var r := Convert(oldVersion, newVersion, oldPath, oldKind, newDir, newIsDir, append, ignoreSafetyChecks,
                     response, read);
    forall k | 0 <= k < |r.written|
      ensures r.written[k].0 != newDir + "/" + Basename(InputFiles(oldPath, oldKind).value[k])
    {
      AppendedPathDiffers(newDir, InputFiles(oldPath, oldKind).value[k], append);
    }
  }
}
