# openhdemg core, modelled in Dafny

openhdemg is a Python toolbox for high-density surface EMG recordings that
have been decomposed into motor units (MUs).  Every part of it works on one
record, the *emgfile*: a dictionary holding the raw signal of every channel,
the reference (force) signal, the innervation-pulse trains (IPTS), the
discharge times of every MU (MUPULSES), the binary firing matrix, the
per-MU quality indices (PNR, SIL, ACCURACY), the sampling frequency, the
inter-electrode distance, the number of MUs and an optional EXTRAS table.

This project models, in Dafny, the parts of openhdemg that build, validate and
transform that record:

- the record itself and the pandas tables it is made of (`EmgRecord`), with
  pandas floats that may be NaN, Python rounding, and positional `iloc` versus
  label-inclusive `loc` slicing (`Common`);
- the loaders for DEMUSE `.mat` files, OTBiolab+ `.mat` files and custom CSV
  files (`OpenFiles`), and the fixed-position JSON list written by
  `save_json_emgfile` and read back by `emg_from_json` (`JsonFiles`);
- the firing-train tools: click ordering, the binary firing matrix,
  resizing, the instantaneous discharge rate, deleting and sorting MUs, and
  the reference-signal helpers (offset removal, MVC, RFD) (`Tools`);
- the OT Bioelettronica electrode tables and the sorting of raw channels
  into matrix columns (`Electrodes`);
- the structural part of the MUAP tools: single and double differentials,
  spike-triggered windows and averages, packing and unpacking of per-column
  STAs and the alignment lag clamp (`Muap`);
- tracking MUs across two files, its filter down to one pair per MU, and
  removing the MUs found in both (`Tracking`);
- the MU properties: recruitment and derecruitment thresholds, discharge
  rates over the start, steady and end windows, the COVisi layout, and
  `basic_mus_properties` (`Analysis`);
- the paired-MU estimate of persistent inward currents, `compute_deltaf`
  (`Pic`);
- the older top-level package that the library replaced, where it behaves
  differently: `tools.py` (`OldTools`, with `resize_emgfile` changing the
  caller's own dictionary, modelled as a class), `otbelectrodes.py`
  (`OldElectrodes`), `muap.py` (`OldMuap`), `analysis.py` (`OldAnalysis`)
  and `openfiles.py` (`OldOpenFiles`);
- the conversion of JSON files from the 0.1.0-beta.2 layout to the
  0.1.0-beta.3 layout, without its GUI (`Conversions`).

Python exceptions are results: `Result<T>` is `Ok(value)` or `Err(kind)`,
where the kind names the Python exception that the code raises
(ValueError, TypeError, KeyError, IndexError and the rest). Every
operation's contract covers its error paths as well as its value.  Where an
operation is a loop in the source, it is a Dafny method whose loop carries
invariants.  That method is proved against a function; the lemmas about the
function state what the source promises.

## Model

| member | source | states |
|---|---|---|
| Common.CollectEach | openhdemg/library/muap.py:1037-1051 | a loop that stops at the first raise succeeds exactly when every step succeeds, and then holds each step's value at its position |
| Common.CollectPrefixErr | openhdemg/library/muap.py:1037-1051 | once a prefix of the steps has raised, the whole loop raises that same error |
| Common.NanMean | openhdemg/library/tools.py:786-793 | pandas `mean()` skips NaN and is NaN exactly when no number is left |
| Common.NanMeanAllNaN | openhdemg/library/analysis.py:320-337 | the mean is NaN exactly when every entry is NaN (or there are none) |
| Common.NanMax | openhdemg/library/tools.py:856 | pandas `max()` is an attained entry no number exceeds, NaN exactly when there is no number |
| Common.NanMin | openhdemg/library/pic.py:179-191 | pandas `min()` is an attained entry below every number, NaN exactly when there is no number |
| Common.RoundHalfEven | openhdemg/library/tools.py:76-107 | Python `round()` is within one half of its argument and sends ties to the even neighbour |
| Common.TruncToZero | openhdemg/library/tools.py:152 | Python `int()` of a float truncates toward zero, on both signs |
| Common.CeilDiv | openhdemg/library/muap.py:590 | `ceil(n / d)` is the least count whose product with d reaches n |
| Common.PySlice | openhdemg/library/tools.py:793 | an `iloc[a:b]` slice has the clamped length and the elements from the clamped start on |
| Common.LocSlice | openhdemg/library/tools.py:229 | a `loc[a:b]` slice on a RangeIndex keeps both labels, clamped to the data |
| EmgRecord.EmptyPlaceholder | openhdemg/library/openfiles.py:700-703 | `pd.DataFrame(columns=[0])` has one column and no rows |
| EmgRecord.FrameLoc | openhdemg/library/tools.py:229-240 | a label-inclusive row cut keeps every column, each cut the same way |
| EmgRecord.FrameILoc | openhdemg/library/muap.py:724-736 | a positional row cut keeps every column, each cut the same way |
| EmgRecord.ReindexColumns | openhdemg/library/electrodes.py:344-347 | `reindex(columns=order)` gives column k the input column `order[k]`, a NaN column for a label that does not exist |
| Tools.ShowSelect | openhdemg/library/tools.py:71-115 | a click count other than `nclic` is a ValueError; 1, 2 and 4 clicks succeed, any other count fails; the result has one rounded click position per click, in non-decreasing order |
| Tools.OrderFour | openhdemg/library/tools.py:94-110 | four clicks give four rounded click positions in non-decreasing order |
| Tools.SortRealsAscending | openhdemg/library/tools.py:99-103 | `list.sort()` gives an ascending permutation of the clicks |
| Tools.SelectedArea | openhdemg/library/tools.py:81-92 | a two-click selection succeeds exactly with two clicks and its start is not after its end |
| Tools.CreateBinaryFirings | openhdemg/library/tools.py:142-161 | a non-list MUPULSES gives NaN; negative sizes are a ValueError; a missing MU or a pulse outside the recording is an IndexError and nothing else fails; on success the table is 1 exactly at each MU's pulses and 0 elsewhere |
| Tools.BinaryFiringsExact | openhdemg/library/tools.py:151-153 | with in-range pulses, an entry of the binary column is 1 exactly when its sample is a pulse |
| Tools.FiringSamples | openhdemg/tests/unit/test_tools.py:74-90 | the samples equal to 1 of a column, each listed once, in increasing order, and no other |
| Tools.BinaryRoundTrip | openhdemg/tests/unit/test_tools.py:74-90 | reading the 1s back from a binary column built from increasing in-range pulses gives those pulses |
| Tools.StrictlyIncreasingSameElements | openhdemg/library/tools.py:241-250 | two strictly increasing pulse lists with the same elements are equal |
| Tools.ResizeBounds | openhdemg/library/tools.py:195-205 | a two-element `area` is used as given; otherwise the two clicked points are used |
| Tools.ResizedPulses | openhdemg/library/tools.py:241-250 | each MU keeps exactly its pulses in [start, end), shifted to the first kept sample; MUs beyond NUMBER_OF_MUS are left as they are |
| Tools.RebaseWindowIncreasing | openhdemg/library/tools.py:241-250 | masking and rebasing keep a pulse list strictly increasing |
| Tools.ResizeEmgfile | openhdemg/library/tools.py:195-275 | the resize fails exactly for a bad selection, an empty cut or too few pulse lists; on success REF, RAW, IPTS and BINARY are cut label-inclusively to [start, end], the pulses rebased, EMG_LENGTH taken from the cut IPTS, and the bounds returned |
| Tools.ResizeKeepsPulsesInRecording | openhdemg/library/tools.py:233-250 | resizing a file whose pulses lie in its recording gives a file whose pulses lie in the new recording and stay strictly increasing |
| Tools.IdrTableOf | openhdemg/library/tools.py:330-355 | one row per pulse: the pulse, its time in seconds, the NaN-first gap column and FSAMP over each gap |
| Tools.ComputeIdr | openhdemg/library/tools.py:325-362 | a non-list MUPULSES raises; a single MU is column 0 of the transposed MUPULSES: it succeeds exactly when the pulse lists are equally long, with MU 0's pulses (none for an empty MUPULSES), and ragged lists are a ValueError; several MUs succeed exactly when every MU has a pulse list, one IDR table per MU built from its own pulses |
| Tools.IdrRecoversPulses | openhdemg/library/tools.py:330-355 | each pulse is the first pulse plus the gaps before it, so the table loses no firing |
| Tools.IdrPositive | openhdemg/library/tools.py:330-355 | for increasing pulses and a positive FSAMP every rate after the first is positive and times its gap gives FSAMP |
| Tools.KeptMembers | openhdemg/library/tools.py:445-485 | the MUs kept by a deletion are exactly those below n that are not listed |
| Tools.KeptIncreasing | openhdemg/library/tools.py:445-485 | the kept MUs stay in their original order |
| Tools.DropPositions | openhdemg/library/tools.py:445-475 | dropping columns and renumbering gives the kept columns, in order |
| Tools.KeepListedPulses | openhdemg/library/tools.py:477-485 | the MUPULSES loop keeps the pulse list of every kept MU, in order, and is an IndexError exactly when a kept MU has no list |
| Tools.DeleteMus | openhdemg/library/tools.py:405-491 | the result is the one `DeleteMusOutcome` describes: the single-MU choices, the label checks and the file with the selected MUs removed from every per-MU entry |
| Tools.DeleteMusOutcomeUnique | openhdemg/library/tools.py:405-491 | the outcome of `delete_mus` is a function of its inputs |
| Tools.KeptCountDistinct | openhdemg/library/tools.py:477-481 | with distinct, present labels the number of MUs kept is NUMBER_OF_MUS minus the number listed |
| Tools.DeleteRepeatedLabelsUndercounts | openhdemg/library/tools.py:476-484 | with the label list [1, 1] on three MUs, two MUs are kept while NUMBER_OF_MUS is set to one |
| Tools.KeptSameLabels | openhdemg/library/tools.py:445-485 | the kept MUs depend only on which labels below NUMBER_OF_MUS are listed |
| Tools.SortingOrder | openhdemg/library/tools.py:535-541 | the sorting order is a permutation of the MU positions |
| Tools.SortingOrderSorted | openhdemg/library/tools.py:535-541 | the permutation lists the MUs by non-decreasing first pulse |
| Tools.InsertByKeySorted | openhdemg/library/tools.py:539 | a stable insertion keeps the order sorted by key |
| Tools.AssignInOrder | openhdemg/library/tools.py:543-570 | the `enumerate(sorting_order)` loop puts entry `order[k]` at position k |
| Tools.SortMus | openhdemg/library/tools.py:510-572 | at most one MU is returned as is; an MU without pulses is an IndexError, missing PNR/SIL entries a KeyError; on success the file is the input rearranged by some permutation whose first pulses are ordered |
| Tools.OrderedByFirstPulse | openhdemg/library/tools.py:535-572 | rearranging the MUs by the sorted order leaves their first pulses in non-decreasing order |
| Tools.Shift | openhdemg/library/tools.py:776-796 | every sample minus the offset |
| Tools.RemoveOffset | openhdemg/library/tools.py:759-798 | non-numeric arguments are a TypeError, a positive float `auto` too; only REF_SIGNAL column 0 changes, the other columns are kept: by a nonzero `offsetval` (a KeyError with no column), by the mean of the selected window, or by the mean of the first `auto` samples; those two means need a single column, a TypeError otherwise |
| Tools.OffsetShiftsColumn0Only | openhdemg/library/tools.py:774-777 | with several reference columns an explicit offset shifts column 0 and leaves the other columns as they were |
| Tools.ShiftSumCount | openhdemg/library/tools.py:795-796 | shifting numbers by m lowers their sum by m for each of them |
| Tools.OffsetRemovedPrefixMeanZero | openhdemg/library/tools.py:791-796 | after `remove_offset(auto=a)` the first a samples have mean zero |
| Tools.GetMvc | openhdemg/library/tools.py:855-875 | an unknown `how` is a ValueError; "all" succeeds and "showselect" succeeds with two clicks exactly when REF_SIGNAL has one column (`float()` of the per-column maximum is a TypeError otherwise); the MVC is the maximum of the window, scaled by a nonzero `conversion_val` |
| Tools.MvcIsMaximum | openhdemg/library/tools.py:855-857 | the MVC over the whole record is a sample that no other sample exceeds |
| Tools.RfdStart | openhdemg/library/tools.py:959-970 | the RFD start is the given int, otherwise needs exactly one click |
| Tools.ComputeRfd | openhdemg/library/tools.py:959-988 | without a start point and one click it is a ValueError; otherwise it succeeds exactly when every window lies inside the signal (else KeyError), with one column per distinct `ms` holding one row per reference column, each the slope of that column |
| Tools.RfdOfRamp | openhdemg/library/tools.py:972-986 | on a force ramp the RFD is the ramp's slope per second |
| Electrodes.ElectrodeTablesShareKeys | openhdemg/library/electrodes.py:10-94 | every matrix code of the tuple has an IED and an electrode count, and no other code has either |
| Electrodes.Mm1305Orientation0Channels | openhdemg/library/electrodes.py:254-260 | the GR08MM1305/GR04MM1305 orientation-0 order has 65 slots, shows each channel 0..63 once and leaves only the last slot empty |
| Electrodes.Mm1305Orientation180Channels | openhdemg/library/electrodes.py:280-286 | the orientation-180 order has 65 slots, shows each channel once and leaves only the first slot empty |
| Electrodes.Gr10mm0808Orientation180Channels | openhdemg/library/electrodes.py:326-335 | the GR10MM0808 orientation-180 order is a permutation of channels 0..63 |
| Electrodes.Gr10mm0808Orientation0AsWrittenRepeats | openhdemg/library/electrodes.py:302-311 | the GR10MM0808 orientation-0 order as written shows channel 33 in two slots and channel 32 in none |
| Electrodes.Gr10mm0808Orientation0Channels | openhdemg/library/electrodes.py:302-311 | the corrected orientation-0 order is a permutation of channels 0..63 |
| Electrodes.Gr10mm0808Orientation0Correction | openhdemg/library/electrodes.py:302-311 | the corrected order differs from the written one in slot 24 only, which holds 32 |
| Electrodes.SortingTable | openhdemg/library/electrodes.py:225-340 | an order exists exactly for the three supported matrices in orientation 0 or 180; the 13x5 orders and the GR10MM0808 orientation-180 order show every channel once, the GR10MM0808 orientation-0 order as written shows channel 33 in slots 24 and 25 and never channel 32 |
| Electrodes.IntendedSortingTable | openhdemg/library/electrodes.py:302-311 | the intended orders exist for the same codes and orientations, are as long as the written ones and show every channel once; they differ from the written ones only in GR10MM0808 orientation-0 slot 24, which holds 32 |
| Electrodes.ColumnBlock | openhdemg/library/electrodes.py:385 | `iloc[:, a:b]` keeps every row of the channels at positions a..b-1 |
| Electrodes.DivideByColumn | openhdemg/library/electrodes.py:382-387 | the dict has keys col0..col{n-1}, and block k holds channels [nRows*k, nRows*(k+1)) |
| Electrodes.BlocksPartitionChannels | openhdemg/library/electrodes.py:377-387 | when the shape matches the channel count, the blocks hold nRows channels each and together all channels, in order |
| Electrodes.MatrixShapeFitsTable | openhdemg/library/electrodes.py:353-380 | for a supported matrix the built-in shape always matches the sorted channel count, so the split cannot fail |
| Electrodes.SortRawemg | openhdemg/library/electrodes.py:218-389 | with the source's own tables: an unsupported code returns (not raises) a ValueError; an unsupported orientation is a NameError; the channels are reordered by the table (copied for "None"), then split when asked, with the integer and shape checks as ValueErrors |
| Electrodes.SortBy | openhdemg/library/electrodes.py:218-389 | the statements of `sort_rawemg` with a given table give the outcome `SortOutcome` states |
| Electrodes.SortRawemgIntended | openhdemg/library/electrodes.py:218-389 | the same operation with the intended tables |
| Electrodes.SortedGr10mm0808Orientation0Repeats33 | openhdemg/library/electrodes.py:302-311 | as written, a 64-channel GR10MM0808 recording sorted with orientation 0 shows raw channel 33 in sorted columns 24 and 25, and no sorted column is raw channel 32 |
| Electrodes.Gr10mm0808Orientation0AsWrittenRange | openhdemg/library/electrodes.py:302-311 | every slot of the written GR10MM0808 orientation-0 order names a channel 0..63 |
| Electrodes.IntendedSortDiffersInColumn24 | openhdemg/library/electrodes.py:302-311 | the intended sort differs from the written one only in sorted column 24 of GR10MM0808 with orientation 0, where it shows raw channel 32 |
| Muap.LabelledBlock | openhdemg/library/electrodes.py:382-387 | a matrix column keeps the raw channel labels first, first+1, ... of its position |
| Muap.DiffBlock | openhdemg/library/muap.py:108-116 | the row loop of `diff` on one matrix column computes the single differential, or fails where a neighbour label is missing |
| Muap.Diff | openhdemg/library/muap.py:104-118 | the single differential of every matrix column, or a KeyError for a missing neighbour label |
| Muap.DoubleDiff | openhdemg/library/muap.py:194-210 | the double differential of every matrix column, or a KeyError for a missing label |
| Muap.DiffOfConsecutive | openhdemg/library/muap.py:108-116 | on consecutive labels the single differential is defined, has one channel fewer, and its channel j is channel j minus channel j+1 |
| Muap.DoubleDiffOfConsecutive | openhdemg/library/muap.py:194-210 | on consecutive labels the double differential is defined, has two channels fewer, and is -x[j] + 2x[j+1] - x[j+2] |
| Muap.DoubleDiffIsNegatedDiffOfDiff | openhdemg/library/muap.py:104-210 | the double differential is the single differential applied twice with the sign reversed |
| Muap.DiffOfDiffLabels | openhdemg/library/muap.py:104-210 | ... and both carry the same channel labels |
| Muap.DiffOfOk | openhdemg/library/muap.py:104-118 | the single differential of a well-formed column is well formed |
| Muap.HalfTime | openhdemg/library/muap.py:372-374 | half the time window in samples, as rounded twice by the source |
| Muap.WindowCompleteIff | openhdemg/library/muap.py:405-408 | for a non-negative pulse and a positive half window, a window is complete exactly when it lies inside the signal |
| Muap.CompletePositionsExactly | openhdemg/library/muap.py:403-408 | a firing is averaged exactly when its window is complete, in firing order |
| Muap.CompleteWindows | openhdemg/library/muap.py:403-408 | the window loop keeps the complete windows, in firing order |
| Muap.MeanWindow | openhdemg/library/muap.py:409 | `np.mean(axis=0)` is the sample-by-sample mean |
| Muap.MeanOfIdenticalWindows | openhdemg/library/muap.py:409 | averaging copies of one window gives that window back |
| Muap.ChannelStaOfIdentical | openhdemg/library/muap.py:399-410 | a channel whose complete windows are all one window has that window as its STA |
| Muap.StaBlock | openhdemg/library/muap.py:399-411 | the channel loop gives the STA of every channel of a matrix column |
| Muap.StaMu | openhdemg/library/muap.py:397-412 | the column loop gives the STA matrix of one MU |
| Muap.SelectedPulses | openhdemg/library/muap.py:387-395 | "all" takes every firing, otherwise the Python slice of the firings |
| Muap.Sta | openhdemg/library/muap.py:372-415 | the STA of every MU, in MU order, or the first MU's error |
| Muap.StaEmptyMuFails | openhdemg/library/muap.py:384-388 | an MU without firings makes `sta` raise a ValueError |
| Muap.StaShape | openhdemg/library/muap.py:372-415 | a successful `sta` has one matrix per MU with the input's column keys, every channel keeping its label and holding 2h samples |
| Muap.StChannelLoop | openhdemg/library/muap.py:510-517 | each complete window is stored under its firing position |
| Muap.StMuap | openhdemg/library/muap.py:484-523 | the single-trial MUAPs of every firing of every MU on every channel, or the first MU's error |
| Muap.StaIsMeanOfStMuaps | openhdemg/library/muap.py:372-523 | `sta` with all firings is the mean of the `st_muap` windows, channel by channel |
| Muap.Unpack | openhdemg/library/muap.py:550-562 | all channels side by side in key order over the rows every block has; no block is a TypeError |
| Muap.UniqueKeysDistinct | openhdemg/library/muap.py:598-600 | distinct keys are their own first occurrences |
| Muap.Pack | openhdemg/library/muap.py:590-600 | `ceil(n / len(keys))` consecutive channels per key; no key is a ZeroDivisionError |
| Muap.PackUnpack | openhdemg/library/muap.py:550-605 | packing what was unpacked restores every block of equally wide columns |
| Muap.UnpackPack | openhdemg/library/muap.py:550-605 | unpacking what was packed gives the frame back |
| Muap.PackDistinct | openhdemg/library/muap.py:590-600 | with distinct keys, block q of the packed matrix is chunk q of the channels |
| Muap.PackedChunks | openhdemg/library/muap.py:590-600 | the packed blocks are well formed, as tall as the frame, and its chunks |
| Muap.FlattenConsecutive | openhdemg/library/muap.py:590-600 | consecutive chunks put back together give the channels they cover |
| Muap.ClampLag | openhdemg/library/muap.py:705-707 | the lag is capped from above at half the final duration |
| Muap.LocRange | openhdemg/library/muap.py:719-720 | `loc[start:stop]` on the lag labels keeps exactly the rows whose label lies in [start, stop] |
| Muap.CutsEqualLength | openhdemg/library/muap.py:709-720 | both STAs keep the same number of rows whatever the lag |
| Muap.DurationCutLength | openhdemg/library/muap.py:722-727 | the final cut keeps the final duration to within one sample, exactly when the surplus is even |
| Muap.AlignWindowLength | openhdemg/library/muap.py:702-727 | the aligned length is the final duration, to within one sample, whenever the capped lag leaves that many rows |
| Muap.AlignWindowShift | openhdemg/library/muap.py:712-720 | a positive lag starts the first STA's window `ceil(lag)` rows after the second's |
| Muap.AlignByXcorrOutcome | openhdemg/library/muap.py:702-736 | no blocks, unequal or no rows are errors; otherwise both results carry the second STA's keys and hold the same rows of the window |
| Muap.AlignIdentity | openhdemg/library/muap.py:702-736 | with no lag and the full duration, equally wide STAs with the same keys come back unchanged |
| Muap.MatchingColumnsExact | openhdemg/library/muap.py:260 | the filter keeps exactly the names containing the pattern, each once, in order |
| Muap.ExtractDelsysMuaps | openhdemg/library/muap.py:257-263 | one MUAP matrix per MU, holding the EXTRAS columns of that MU |
| Muap.DelsysMuapChannels | openhdemg/library/muap.py:257-263 | each MUAP matrix is well formed and its channels are exactly the EXTRAS columns named for the MU, in column order |
| Tracking.AllRowsMembers | openhdemg/library/muap.py:994-1051 | the unfiltered table holds exactly the pairs the threshold rule records |
| Tracking.AllRowsCount | openhdemg/library/muap.py:1021-1024 | without the threshold every one of the n1 x n2 pairs has a row |
| Tracking.AllRowsOrdered | openhdemg/library/muap.py:1037-1051 | the table lists pairs by MU_file1, then MU_file2, the order of submission |
| Tracking.TrackingRows | openhdemg/library/muap.py:994-1051 | the loops that fill the table give exactly the table of recorded pairs |
| Tracking.Sort | openhdemg/library/muap.py:1056-1058 | sorting keeps the same rows (a permutation) |
| Tracking.SortSorted | openhdemg/library/muap.py:1056-1058 | the sorted rows are in the requested order |
| Tracking.FirstIndexIsFirst | openhdemg/library/muap.py:1066-1068 | no row before the first index has the key, and every row with the key is at or after it |
| Tracking.FirstOfEachKeyIsFirst | openhdemg/library/muap.py:1059-1068 | each kept row is the first row of its key |
| Tracking.FirstOfEachKeyDistinct | openhdemg/library/muap.py:1059-1068 | no key is kept twice |
| Tracking.FirstOfEachKeyCovers | openhdemg/library/muap.py:1059-1068 | every key of the table keeps a row |
| Tracking.FirstOfEachKeyBest | openhdemg/library/muap.py:1056-1068 | on rows sorted by descending key and XCC, each kept row has the highest XCC of its key |
| Tracking.BestPerKey | openhdemg/library/muap.py:1059-1068 | one filter pass keeps, for each unique key in order, its first row |
| Tracking.TrackingFilter | openhdemg/library/muap.py:1054-1080 | two passes, then sorting by MU_file1 |
| Tracking.FilteredSub | openhdemg/library/muap.py:1054-1080 | the filter keeps rows of the table only |
| Tracking.FilteredDistinct1 | openhdemg/library/muap.py:1054-1080 | no MU of file 1 appears twice after the filter |
| Tracking.FilteredDistinct2 | openhdemg/library/muap.py:1071-1078 | no MU of file 2 appears twice after the filter |
| Tracking.FilteredIncreasing | openhdemg/library/muap.py:1080 | the filtered table is sorted by strictly increasing MU_file1 |
| Tracking.FilteredBestForMu1 | openhdemg/library/muap.py:1056-1068 | each kept pair has the highest XCC of all rows of its MU of file 1 |
| Tracking.FilteredBestForMu2 | openhdemg/library/muap.py:1071-1078 | each kept pair has the highest XCC of the first-pass rows of its MU of file 2 |
| Tracking.Pass1Covers | openhdemg/library/muap.py:1059-1068 | every MU of file 1 in the table keeps one first-pass row |
| Tracking.InputError | openhdemg/library/muap.py:931-992 | computed STAs with a keyword `sort_rawemg` does not take are a TypeError; otherwise the sorting error, an unknown derivation (ValueError) or the STA error, in that order; custom MUAPs need exactly two dicts, else ValueError |
| Tracking.TrackingWith | openhdemg/library/muap.py:930-1086 | the table succeeds exactly when the MUAPs are obtained, file 1 has MUs and no custom MUAP is missing; the input error comes first, then the AttributeError of a file 1 without MUs |
| Tracking.TrackingOf | openhdemg/library/muap.py:934-949 | as written, `tracking` can only succeed on custom MUAPs |
| Tracking.Track | openhdemg/library/muap.py:930-1086 | `tracking` as written: the MUAPs, then the table, then the filter when asked for |
| Tracking.TrackingAsWrittenRejectsComputedSta | openhdemg/library/muap.py:934-949 | as written, computed STAs always raise TypeError (the `custom_sorting_order` keyword); with custom MUAPs the written and intended functions agree |
| Tracking.TrackingIntendedSucceeds | openhdemg/library/muap.py:930-1051 | as intended, computed STAs with a known derivation and no sorting or STA error succeed exactly when file 1 has MUs, and unfiltered hold exactly the recorded pairs |
| Tracking.TrackingInputErrors | openhdemg/library/muap.py:952-1007 | an unknown derivation and malformed custom MUAPs are ValueErrors raised before any correlation; a custom MUAP dict without MU 0 of file 1 is a KeyError; otherwise the table succeeds exactly when file 1 has MUs and no MU key is missing |
| Tracking.TrackingTable | openhdemg/library/muap.py:994-1051 | unfiltered, the table has exactly the recorded pairs, all n1 x n2 of them without the threshold |
| Tracking.TrackingAboveThreshold | openhdemg/library/muap.py:1026-1029 | with the threshold every row, filtered or not, reaches it |
| Tracking.FilteredProperties | openhdemg/library/muap.py:1054-1080 | on any table, the filter keeps table rows with distinct MUs on both sides, in increasing MU_file1 |
| Tracking.TrackingFiltered | openhdemg/library/muap.py:1054-1086 | filtered, each MU of either file appears at most once, the rows come from the table, in increasing MU_file1 |
| Tracking.AccuracyRemovals | openhdemg/library/muap.py:1352-1366 | the loop over tracked pairs builds the two accuracy removal lists |
| Tracking.RemovalListsSplit | openhdemg/library/muap.py:1352-1366 | the accuracy rule succeeds exactly when every pair's accuracies are known; each pair then sends its MU of file 1 to list 1 when its accuracy is not higher, else its MU of file 2 to list 2 |
| Tracking.RemoveDuplicatesBetween | openhdemg/library/muap.py:1309-1381 | tracking as written (so a TypeError without custom MUAPs) with the threshold, then "munumber" removes the tracked MUs from the file with at least as many MUs (file 1 on a tie), "accuracy" pair by pair; any other rule is a ValueError |
| Tracking.RemovedByNumberDistinct | openhdemg/library/muap.py:1332-1350 | with the filter on, the MUs removed by "munumber" are distinct, so NUMBER_OF_MUS drops by exactly their count |
| Analysis.TableOf | openhdemg/library/analysis.py:170 | `pd.DataFrame(list_of_dicts)`: one row per dict, and no dict gives a frame without columns |
| Analysis.ThresholdColumnsLayout | openhdemg/library/analysis.py:144-168 | the columns are exactly the requested kinds (abs/rel) crossed with the requested events (RT/DERT) |
| Analysis.RefAt | openhdemg/library/analysis.py:133-136 | `REF_SIGNAL.at[p, 0]` is a KeyError when column 0 or row p is missing |
| Analysis.MuThresholdsOf | openhdemg/library/analysis.py:128-142 | the thresholds of one MU come from its first and last pulse; an MU without pulses gets NaN |
| Analysis.ThresholdsOf | openhdemg/library/analysis.py:102-170 | an unknown event or type is a ValueError and an MVC that is not a number a TypeError; otherwise one row per MU |
| Analysis.ComputeThresholds | openhdemg/library/analysis.py:102-172 | the method returns what `ThresholdsOf` describes |
| Analysis.ThresholdsSucceed | openhdemg/library/analysis.py:102-170 | the thresholds succeed exactly when the inputs are valid and every MU's first and last pulse are rows of the reference signal (or it has no pulses) |
| Analysis.ThresholdsRows | openhdemg/library/analysis.py:126-170 | one row per MU: the reference value at the first and last pulse and that value times MVC / 100; NaN throughout for an MU without pulses |
| Analysis.IdrTableUnique | openhdemg/library/tools.py:330-355 | a table meeting the IDR definition is the one the IDR builds |
| Analysis.IdrOf | openhdemg/library/tools.py:325-362 | on a file: a single MU succeeds exactly when the pulse lists are equally long, several MUs exactly when each has a pulse list; one table per MU, built from that MU's pulses (none for a single MU without lists) |
| Analysis.Idr | openhdemg/library/analysis.py:304 | the IDR of the file, as `compute_idr` computes it |
| Analysis.SteadyBounds | openhdemg/library/analysis.py:307-314 | the steady-state bounds are the given ones unless either is negative, then the two clicked points |
| Analysis.SteadyStart | openhdemg/library/analysis.py:340-345 | the position of the first pulse inside [start, end], if any |
| Analysis.SteadyEnd | openhdemg/library/analysis.py:347-355 | the position of the first pulse at or after `end`, else the last position |
| Analysis.FindSteadyStart | openhdemg/library/analysis.py:340-345 | the search loop finds the position `SteadyStart` describes |
| Analysis.SteadyStartUnique | openhdemg/library/analysis.py:340-345 | any result meeting the search's definition is that position |
| Analysis.FindSteadyEnd | openhdemg/library/analysis.py:347-355 | the search loop finds the position `SteadyEnd` describes |
| Analysis.SteadyEndUnique | openhdemg/library/analysis.py:347-355 | any result meeting the search's definition is that position |
| Analysis.MuDischarge | openhdemg/library/analysis.py:318-393 | the six discharge rates of one MU, with both index searches as loops |
| Analysis.DrOf | openhdemg/library/analysis.py:284-423 | an unknown event is a ValueError and non-integer firing counts TypeErrors; otherwise one row per MU of the event's rates |
| Analysis.ComputeDr | openhdemg/library/analysis.py:284-425 | the method returns what `DrOf` describes |
| Analysis.DrTableRows | openhdemg/library/analysis.py:317-420 | the loop over the MUs' IDR tables gives one row each |
| Analysis.DrRowsAt | openhdemg/library/analysis.py:317-420 | row mu holds the rates of MU mu, one value per column |
| Analysis.SteadyColumnsStart | openhdemg/library/analysis.py:404-420 | the steady-state layouts open with the rate at the start of the steady state |
| Analysis.DrWithOneFiring | openhdemg/library/analysis.py:320-333 | with one firing at recruitment and derecruitment both rates are NaN |
| Analysis.DrRecFromPulses | openhdemg/library/analysis.py:320-322 | with increasing pulses and n >= 2 firings, the DR at recruitment is the mean of the n - 1 rates between the first n pulses |
| Analysis.DrTooFewFirings | openhdemg/library/analysis.py:320-337 | with fewer firings than asked for both rates are NaN |
| Analysis.SteadyNaNWithoutWindowPulse | openhdemg/library/analysis.py:340-389 | no pulse inside [start, end] leaves every steady-state rate NaN |
| Analysis.DrShape | openhdemg/library/analysis.py:395-423 | on success, one row per MU and exactly the event's columns |
| Analysis.CovisiLayout | openhdemg/library/analysis.py:793-893 | the COVisi columns and row count, with a one-row COVisi_all for a single MU and a KeyError beyond the MUs |
| Analysis.CovisiSucceeds | openhdemg/library/analysis.py:793-883 | with the checks passed and the steady state given, COVisi for all MUs always succeeds with one row per MU |
| Analysis.CovisiSingleMu | openhdemg/library/analysis.py:885-893 | a single MU asked for gives one row holding COVisi_all only |
| Analysis.AccuracyColumns | openhdemg/library/analysis.py:563-650 | the accuracy columns per mode; "default" needs exactly one ACCURACY column, and an unknown mode is a ValueError |
| Analysis.BasicMusPropertiesRejectsAccuracy | openhdemg/library/analysis.py:646-650 | with the steady state given, an unknown accuracy mode is a ValueError |
| Analysis.BasicMusPropertiesLayout | openhdemg/library/analysis.py:531-686 | on success with MUs, the columns are MVC, MU_number, the accuracy columns, the four thresholds, the six rates, the two COVisi and COV_steady |
| Pic.PairsShape | openhdemg/library/pic.py:137 | `combinations(range(n), 2)` gives n(n-1)/2 pairs, exactly those (i, j) with i < j < n, in increasing lexicographic order |
| Pic.FiringTimes | openhdemg/library/pic.py:155-161 | the samples where the MU's binary column is 1, in order |
| Pic.SpanOf | openhdemg/library/pic.py:155-161 | recruitment is the second firing and derecruitment the last; a missing column is a KeyError, fewer than two firings an IndexError |
| Pic.SecondAndLastFiring | openhdemg/library/pic.py:155-161 | the recruitment sample has exactly one firing before it, the derecruitment sample none after it |
| Pic.RolesOf | openhdemg/library/pic.py:192-293 | the earlier recruit is the control (ties by the later derecruit, full ties to the second unit), and the test derecruitment is cut back to the control's |
| Pic.PairStep | openhdemg/library/pic.py:152-293 | one pair: its spans, the overlap test, the correlation, the recruitment gap, the control's rate drop and modulation |
| Pic.MeasuredPair | openhdemg/library/pic.py:179-293 | a measured pair has the earlier recruit as control, the recruitment gap in seconds, the correlation over the overlap, and dF as the control's rate drop |
| Pic.Accumulate | openhdemg/library/pic.py:141-293 | after the loop the correlation, gap and modulation lists have one entry per pair, the unit lists one per measured pair |
| Pic.PairLoop | openhdemg/library/pic.py:148-293 | the seven lists, or the first error a pair raises |
| Pic.DfretPerPair | openhdemg/library/pic.py:170-175 | with a known normalisation the dF list has one entry per pair: NaN for a skipped pair |
| Pic.ListsPerPair | openhdemg/library/pic.py:170-191 | one entry per pair in the correlation, gap and modulation lists, NaN for a skipped pair |
| Pic.NoSkipAligned | openhdemg/library/pic.py:292-293 | without skipped pairs, the test-unit list is aligned with the dF list |
| Pic.Keep | openhdemg/library/pic.py:295-299 | the exclusion mask is the conjunction of the three cutoff tests |
| Pic.CleanedEntries | openhdemg/library/pic.py:295-300 | after cleaning, an entry keeps its value exactly when the gap, the correlation and the modulation all exceed their cutoffs; every other entry is NaN |
| Pic.MaskNaN | openhdemg/library/pic.py:300 | the in-place masking makes exactly the unflagged entries NaN |
| Pic.CleanDfret | openhdemg/library/pic.py:295-300 | the exclusion step gives `Cleaned` |
| Pic.UnitAverages | openhdemg/library/pic.py:302-314 | one average per MU over the positions the test-unit list assigns to it |
| Pic.UnitAverageNaN | openhdemg/library/pic.py:307-313 | a unit's average exists when every index is in range and is NaN exactly when every value it covers is |
| Pic.AverageByTest | openhdemg/library/pic.py:302-314 | the "test_unit_average" loop gives `UnitAverages` |
| Pic.Finish | openhdemg/library/pic.py:302-319 | "test_unit_average" averages per unit; any other method returns every pair |
| Pic.AllPairsTable | openhdemg/library/pic.py:315-319 | "all" gives one row per pair, labelled in `combinations` order, holding the pair's dF or NaN for a skipped pair |
| Pic.CollectPairs | openhdemg/library/pic.py:148-293 | the pair loop gives `PairLoop` |
| Pic.ComputeDeltaF | openhdemg/library/pic.py:127-321 | `compute_deltaf` as written, step by step |
| Pic.DeltaFIntended | openhdemg/library/pic.py:127-321 | as intended, fewer than two MUs give the single NaN row and each dF is averaged under its own pair's test unit |
| Pic.WrittenUnitAverage | openhdemg/library/pic.py:292-313 | as written, a unit's average takes the dF entries at the positions where the measured-only test list names it |
| Pic.IntendedUnitAverage | openhdemg/library/pic.py:292-313 | as intended, a unit's average has a value exactly when some measured pair testing it reports one |
| Pic.NoSkipsAgree | openhdemg/library/pic.py:170-314 | with no skipped pair, the written and intended averages agree |
| Pic.DfretOnlySkips | openhdemg/library/pic.py:192-289 | under an unknown normalisation the dF list holds only the skipped pairs' NaNs |
| Pic.UnknownNormalisationFails | openhdemg/library/pic.py:192-319 | an unknown normalisation and one measured pair make cleaning, or the all-pairs table, fail |
| Pic.ShortDfretFails | openhdemg/library/pic.py:295-319 | a dF list shorter than the pair list is rejected by the mask and by the all-pairs table |
| Pic.FewUnitsRejected | openhdemg/library/pic.py:127-133 | with fewer than two MUs the NaN row the code builds is rejected |
| Pic.SkippedPairShiftsAverages | openhdemg/library/pic.py:170-314 | on three MUs where pair (0, 1) is skipped, the written averages are [NaN, 1, NaN] where the intended ones are [NaN, 3, 1] |
| Pic.WrittenShiftAverages | openhdemg/library/pic.py:302-314 | the written averages of the example |
| Pic.IntendedShiftAverages | openhdemg/library/pic.py:302-314 | the intended averages of the example |
| OpenFiles.Filter | openhdemg/library/openfiles.py:387 | `df.filter(regex=pattern)` keeps the matching columns, in order |
| OpenFiles.Drop | openhdemg/library/openfiles.py:462 | dropping the matched columns keeps the others, in order |
| OpenFiles.PrintedNames | openhdemg/library/openfiles.py:426 | `str(df.columns)` shows every name of an Index of up to 100 (pandas' `display.max_seq_items`), otherwise only the first ten and the last ten |
| OpenFiles.MentionedInShortIndex | openhdemg/library/openfiles.py:426 | up to 100 columns, `code in str(df.columns)` holds exactly when some column name contains the code |
| OpenFiles.MentionedIsNamed | openhdemg/library/openfiles.py:426 | a code found in `str(df.columns)` is contained in some column name |
| OpenFiles.HiddenNamesNotMentioned | openhdemg/library/openfiles.py:426 | beyond 100 columns, a code no name among the first and last ten contains is not found, whatever the middle columns say |
| OpenFiles.GridOf | openhdemg/library/openfiles.py:423-429 | the grid code is the first code, in dict order, that the printed column names mention |
| OpenFiles.FindGrid | openhdemg/library/openfiles.py:466-472 | the search loop over the electrode dict finds the code `GridOf` names |
| OpenFiles.OtbIed | openhdemg/library/openfiles.py:423-436 | the IED of the named grid, NaN when no grid is named |
| OpenFiles.HiddenGridNoIed | openhdemg/library/openfiles.py:423-436 | a frame of more than 100 columns whose first and last ten names hold no grid code has no grid, so its IED is NaN even when middle columns name one; the older loader (openhdemg/openfiles.py:544-550) then returns nothing, by OldIedTruncatesLibrary |
| OpenFiles.OtbIedOfFirstGrid | openhdemg/library/openfiles.py:423-429 | the IED is the table value of the first grid code the printed column names mention |
| OpenFiles.OtbRawFrom | openhdemg/library/openfiles.py:462-488 | after dropping the matched columns, an unrecognised grid or a channel count other than the grid's is a ValueError; otherwise the channels, renumbered |
| OpenFiles.OtbRawSignalAsWritten | openhdemg/library/openfiles.py:460-488 | the extras pattern is concatenated as a string, so `None` is a TypeError |
| OpenFiles.OtbRawSignal | openhdemg/library/openfiles.py:460-488 | as intended, without extras only the base pattern is dropped |
| OpenFiles.OtbDecomposition | openhdemg/library/openfiles.py:387-404 | IPTS and BINARY_MUS_FIRING are the two decomposition column groups, renumbered; either missing is a ValueError |
| OpenFiles.OtbRefSignal | openhdemg/library/openfiles.py:306-366 | both asserts run first; only the object True searches, "subsampled" in the performed-path columns and "fullsampled" in the acquired-data ones; otherwise the placeholder |
| OpenFiles.IntegerOneNotSearched | openhdemg/library/openfiles.py:315 | the integer 1 passes the assert but is not the object True, so nothing is searched |
| OpenFiles.OtbExtras | openhdemg/library/openfiles.py:491-514 | no pattern gives the placeholder, otherwise the matching columns, even none |
| OpenFiles.Aligned | openhdemg/library/openfiles.py:684-685 | `shift(-e)` then `fillna(0)`: sample t takes sample t + e, and 0 outside the data |
| OpenFiles.PulsesFromBinary | openhdemg/library/openfiles.py:689 | per MU, the samples where the binary column is 1 |
| OpenFiles.AlignedFirings | openhdemg/library/openfiles.py:684-689 | the firings read from an aligned column are the original ones moved e samples earlier, those leaving the recording lost |
| OpenFiles.AlignedFiringKept | openhdemg/library/openfiles.py:684-689 | a firing of the aligned column was a firing of the column, e samples later |
| OpenFiles.AlignedFiringRead | openhdemg/library/openfiles.py:684-689 | a firing that stays inside the recording is read back, e samples earlier |
| OpenFiles.SilAccuracy | openhdemg/library/openfiles.py:698-706 | one ACCURACY row per MU holding the SIL of its IPTS column and pulses, or the placeholder without MUs |
| OpenFiles.ComputeAccuracy | openhdemg/library/openfiles.py:699-703 | the SIL loop gives `SilAccuracy` |
| OpenFiles.OtbFile | openhdemg/library/openfiles.py:642-727 | an untested version is a ValueError, and the raw-signal step fails for the default `extras=None` |
| OpenFiles.OtbFileIntended | openhdemg/library/openfiles.py:642-727 | the loader with the raw-signal step as intended |
| OpenFiles.OtbDefaultsRejected | openhdemg/library/openfiles.py:526 | with its default arguments `emg_from_otb` fails on every file |
| OpenFiles.OtbDefaultsIntended | openhdemg/library/openfiles.py:526 | as intended, the defaults load every file with a recognised grid of the right channel count and both decomposition groups |
| OpenFiles.OtbLoaded | openhdemg/library/openfiles.py:667-706 | a loaded file takes its MU count and length from IPTS, and each MU's pulses are the decomposition's firings moved e samples earlier |
| OpenFiles.EmgFromOtb | openhdemg/library/openfiles.py:642-727 | the loader's statements in order give `OtbFile` |
| OpenFiles.RavelF | openhdemg/library/openfiles.py:181 | `ravel(order="F")` lists the grid column by column |
| OpenFiles.RavelFPosition | openhdemg/library/openfiles.py:181-182 | every cell of the SIG grid is a channel of the raveled grid, column by column |
| OpenFiles.Ragged | openhdemg/library/openfiles.py:182 | one column per vector, NaN-padded to the longest |
| OpenFiles.IptsFrame | openhdemg/library/openfiles.py:191-203 | a vector is a single MU; a matrix holds one MU per row and is transposed |
| OpenFiles.DemuseRef | openhdemg/library/openfiles.py:234-248 | a float is a one-sample table, a vector one column, an absent one the placeholder |
| OpenFiles.ToZeroBased | openhdemg/library/openfiles.py:212-216 | the in-place loop moves every MU's MATLAB pulses to 0-based indices |
| OpenFiles.ZeroBasedRoundTrip | openhdemg/library/openfiles.py:212-216 | adding 1 back gives the MATLAB pulses again |
| OpenFiles.BinaryFirings | openhdemg/library/openfiles.py:226-230 | 1 exactly at each MU's pulses; a missing MU or an outside pulse is an IndexError |
| OpenFiles.CallBinaryFirings | openhdemg/library/openfiles.py:226-230 | the library method computes the same table |
| OpenFiles.DemuseFile | openhdemg/library/openfiles.py:176-277 | SIG, IPTs and MUPulses are compulsory (ValueError); IPTS's shape gives EMG_LENGTH and NUMBER_OF_MUS; the pulses become 0-based before the binary table |
| OpenFiles.DemuseLoads | openhdemg/library/openfiles.py:176-277 | a complete DEMUSE file with in-range 1-based pulses loads, and each MU's binary column reads back to its 0-based pulses |
| OpenFiles.EmgFromDemuse | openhdemg/library/openfiles.py:176-277 | the loader's statements give `DemuseFile` |
| OpenFiles.DropNa | openhdemg/library/openfiles.py:1013 | `dropna()` keeps the rows without NaN, in order, and a table without NaN whole |
| OpenFiles.DropNaLabels | openhdemg/library/openfiles.py:1013 | the labels `dropna()` keeps are exactly the complete rows, increasing, and row k of the result is the row labelled `DropNaLabels[k]` |
| OpenFiles.DropNaTrailingLabels | openhdemg/library/openfiles.py:1013-1023 | when the NaN rows all come after the complete ones the kept labels are 0..m-1, so renumbering from 0 changes nothing |
| OpenFiles.PickAllRows | openhdemg/library/openfiles.py:1013 | picking every row in order gives the table back |
| OpenFiles.CsvPulses | openhdemg/library/openfiles.py:1031 | a pulse column without NaN, its floats made integers toward zero |
| OpenFiles.CsvPulsesRoundTrip | openhdemg/library/openfiles.py:1029-1032 | reading a stored pulse column back gives its pulses |
| OpenFiles.Melt | openhdemg/library/openfiles.py:1090 | `melt` puts all values in one column, column after column |
| OpenFiles.CsvFirings | openhdemg/library/openfiles.py:1022-1059 | MUPULSES and BINARY_MUS_FIRING from whichever of the two the CSV has; with neither it is a ValueError |
| OpenFiles.CustomCsvFile | openhdemg/library/openfiles.py:1013-1117 | the raw signal is compulsory and one of the firing groups; EMG_LENGTH and NUMBER_OF_MUS are the shape of the binary table |
| OpenFiles.CustomCsvFromPulses | openhdemg/library/openfiles.py:1045-1059 | from pulse columns only, the binary table is derived over the raw signal's length and reads back to the pulses |
| OpenFiles.BinaryReadsBack | openhdemg/library/openfiles.py:1051-1055 | increasing in-range pulses give a binary table that reads back to them |
| OpenFiles.CustomCsvFromBinary | openhdemg/library/openfiles.py:1038-1043 | from binary firings only, MUPULSES are read off the binary columns |
| OpenFiles.CustomCsvWithoutIpts | openhdemg/library/openfiles.py:1077-1084 | without IPTS columns the IPTS is empty with one column per MU |
| OpenFiles.CollectCsvPulses | openhdemg/library/openfiles.py:1045-1049 | the per-column loop gives `ColumnsPulses` |
| OpenFiles.EmgFromCustomCsv | openhdemg/library/openfiles.py:1013-1117 | the loader's statements give `CustomCsvFile` |
| JsonFiles.Round10 | openhdemg/library/openfiles.py:1304-1309 | `to_json()` (ten decimals) gives back NaN as NaN and a number within half a unit of the tenth decimal, on the grid, unchanged exactly when it was on the grid |
| JsonFiles.Reloaded | openhdemg/library/openfiles.py:1304-1309 | a table read back keeps its columns, each value rounded to ten decimals; it is the table exactly when the table is persistable (a column to carry its rows, every value on the grid) |
| JsonFiles.ReloadedIdempotent | openhdemg/library/openfiles.py:1304-1309 | writing and reading a table a second time changes nothing more |
| JsonFiles.SaveJson | openhdemg/library/openfiles.py:1240-1399 | a full source writes the 13 entries in the loader's order (a missing ACCURACY is a KeyError), a reference-signal source the 5; any other source is a ValueError |
| JsonFiles.LoadFull | openhdemg/library/openfiles.py:1462-1545 | the full-source branch reads positions 2..12 in order |
| JsonFiles.AsFloat | openhdemg/library/openfiles.py:1500-1503 | `float()` accepts an int, a float and a string spelling a decimal number (its value), a ValueError for another string, a TypeError for anything else |
| JsonFiles.AsInt | openhdemg/library/openfiles.py:1507-1511 | `int()` keeps an int, truncates a float toward zero, reads a string spelling an integer; NaN and other strings are ValueErrors, anything else a TypeError |
| JsonFiles.IntTextRoundTrip | openhdemg/library/openfiles.py:1289-1290 | the decimal text of every int is an integer literal whose value is that int |
| JsonFiles.IntLiteralIsDecimal | openhdemg/library/openfiles.py:1500-1511 | every string `int()` reads, `float()` reads as the same number |
| JsonFiles.AsIntOfText | openhdemg/library/openfiles.py:1507-1511 | an int stored as its text loads as that int, by `int()` and by `float()` |
| JsonFiles.LoadRefsig | openhdemg/library/openfiles.py:1547-1569 | the reference-signal branch reads positions 2..4 |
| JsonFiles.LoadJson | openhdemg/library/openfiles.py:1455-1572 | SOURCE and FILENAME come from positions 0 and 1; an unrecognised source is a bare Exception |
| JsonFiles.SaveLoadFull | openhdemg/library/openfiles.py:1240-1572 | saving a full file and loading it gives the file with each table passed through `to_json()` |
| JsonFiles.FullRoundTrip | openhdemg/library/openfiles.py:1240-1572 | the round trip is exact precisely for files without PNR/SIL whose tables all survive `to_json()`: a column each and values with at most ten decimals |
| JsonFiles.ValidFileRoundTrip | openhdemg/tests/unit/functions_for_unit_test.py:46-124 | a valid file with at least one MU and one raw channel, whose values have at most ten decimals, reloads as itself |
| JsonFiles.SecondRoundTripExact | openhdemg/library/openfiles.py:1240-1572 | a file read back saves and reloads as itself |
| JsonFiles.NoMuFileNotValidAfterReload | openhdemg/library/openfiles.py:1304-1309 | a file with no MUs loses the rows of its binary table |
| JsonFiles.SaveLoadRefsig | openhdemg/library/openfiles.py:1364-1397 | a reference-signal file round-trips up to `to_json()` of its tables |
| JsonFiles.FullFileWithRefsigSource | openhdemg/library/openfiles.py:1364-1397 | a full file labelled with a reference-signal source reloads as its reference signal alone |
| Conversions.VersionError | openhdemg/compatibility/conversions.py:109-112 | an unsupported old version, then an unsupported new one, is a ValueError |
| Conversions.Basename | openhdemg/compatibility/conversions.py:222 | `os.path.basename`: the part after the last "/", a suffix of the path |
| Conversions.JsonEntries | openhdemg/compatibility/conversions.py:189-193 | exactly the directory entries ending in ".json" |
| Conversions.SplitExt | openhdemg/compatibility/conversions.py:223 | `os.path.splitext`: the extension starts at the last dot unless only dots precede it |
| Conversions.OutputPath | openhdemg/compatibility/conversions.py:222-228 | the converted file's path in the new directory |
| Conversions.AppendedNameDiffers | openhdemg/compatibility/conversions.py:222-228 | a non-empty `append_name` never gives the input's own name |
| Conversions.AppendedPathDiffers | openhdemg/compatibility/conversions.py:222-228 | ... so a converted file never overwrites the file it was read from |
| Conversions.EmptyAppendKeepsName | openhdemg/compatibility/conversions.py:204-228 | an empty `append_name` keeps a ".json" input's name, the case the overwrite prompt guards |
| Conversions.InputFiles | openhdemg/compatibility/conversions.py:184-197 | `old` itself, the ".json" files of the directory `old`, or a FileNotFoundError |
| Conversions.SaveB3 | openhdemg/compatibility/conversions.py:389-534 | the 13 fields keyed by name for the full sources and DELSYS (a missing one a KeyError), the 5 for the reference-signal sources; any other source is a ValueError |
| Conversions.ListToDict | openhdemg/compatibility/conversions.py:389-534 | wherever the list layout saves a record, the keyed layout saves the same values under the same names |
| Conversions.DelsysOnlyInB3 | openhdemg/compatibility/conversions.py:412-493 | DELSYS records can be written in the keyed layout only |
| Conversions.ConvertOne | openhdemg/compatibility/conversions.py:215-235 | one file: the positional reader, then the keyed writer under the new name |
| Conversions.ConvertSavedFile | openhdemg/compatibility/conversions.py:239-534 | a file written by the list-layout save converts to the keyed layout of the record it loads as |
| Conversions.ConvertFilesSpec | openhdemg/compatibility/conversions.py:215-235 | each output is the step's result on the input at its position, and the run ends at the first input that fails |
| Conversions.ConvertLoop | openhdemg/compatibility/conversions.py:215-235 | the loop writes the outputs `ConvertFiles` names and stops at its error |
| Conversions.Convert | openhdemg/compatibility/conversions.py:109-237 | the versions, the input files, the overwrite prompt, then every file in turn |
| Conversions.ConvertJsonOutput | openhdemg/compatibility/conversions.py:109-237 | the constructor's statements give `Convert` |
| Conversions.ConvertNeverOverwritesWithAppend | openhdemg/compatibility/conversions.py:200-235 | with a non-empty `append_name` no written file has the name of the file it came from |
| OldTools.ShowSelect | openhdemg/tools.py:35-44 | the first two clicked positions, rounded half to even and ordered; fewer than two clicks is an IndexError |
| OldTools.ShowSelectAgrees | openhdemg/tools.py:35-44 | with two clicks the older selection is the library's; further clicks are ignored |
| OldTools.ResizeBounds | openhdemg/tools.py:62-68 | a two-element `area` list is taken as it is, anything else asks for two clicks |
| OldTools.MaskedPulses | openhdemg/tools.py:93-95 | the first NUMBER_OF_MUS pulse lists are masked, the others left as they are |
| OldTools.ResizeEmgfile | openhdemg/tools.py:47-97 | the returned file IS the caller's dict, which now holds the cut tables and masked pulses; a NUMBER_OF_MUS beyond MUPULSES raises after the change |
| OldTools.ResizedPulsesAreLabels | openhdemg/tools.py:88-95 | EMG_LENGTH becomes e - s, and the pulses left are exactly those in [s, e), with their original values |
| OldTools.ResizeDoesNotRebase | openhdemg/tools.py:93-95 | unlike the library, the older resize does not subtract the start from the kept pulses |
| OldTools.IdrTableOf | openhdemg/tools.py:118-126 | time is pulse / FSAMP, the first IDR is NaN, each later one FSAMP over the gap to the previous pulse |
| OldTools.FirstColumn | openhdemg/tools.py:118 | `pd.DataFrame(MUPULSES)[0]` holds the FIRST pulse of every list, NaN for an empty one, and does not exist without pulses |
| OldTools.ComputeIdr | openhdemg/tools.py:100-149 | nothing when MUPULSES is not a list; otherwise the tables of MUs 0..NUMBER_OF_MUS-1, the first failing MU deciding the error |
| OldTools.IdrAgreesWithLibrary | openhdemg/tools.py:118-122 | with several MUs the older tables agree with the library's |
| OldTools.SingleMuIdrKeepsFirstPulse | openhdemg/tools.py:118 | with one MU the table has one row, the MU's first pulse, whatever its number of firings |
| OldTools.SingleMuIdrExample | openhdemg/tools.py:118 | three firings of a single MU: one row in the older table, three in the library's |
| OldTools.KeptPulses | openhdemg/tools.py:209-211 | the pulse lists of the MUs below NUMBER_OF_MUS that are not listed, in order |
| OldTools.DeleteMus | openhdemg/tools.py:152-219 | the deletion on a copy, with the MUPULSES list rebuilt by the loop |
| OldTools.DeleteListKeepsConsistent | openhdemg/tools.py:185-213 | deleting a list of distinct existing MUs leaves one entry per remaining MU everywhere, in order |
| OldTools.DeleteOneKeepsConsistent | openhdemg/tools.py:198-203 | deleting one existing MU removes exactly its entry and keeps the file consistent |
| OldTools.OtherSelectorBreaksConsistency | openhdemg/tools.py:216-217 | any other selector drops the per-MU columns but not MUPULSES or NUMBER_OF_MUS, so the file stops being consistent |
| OldTools.KeptBelow | openhdemg/tools.py:209-211 | a dropped MU among 0..n-1 leaves fewer than n MUs |
| OldElectrodes.ColumnLocBlock | openhdemg/otbelectrodes.py:295-312 | `loc[:, a:b]` keeps channels a..b, both included |
| OldElectrodes.OldBlockRanges | openhdemg/otbelectrodes.py:290-312 | the 13x5 grids split into five ranges of 13 channels, the 8x8 grid into eight of 8, only for orientation 0 or 180 |
| OldElectrodes.OldSortRawemg | openhdemg/otbelectrodes.py:75-318 | OTB files are reindexed by their grid's table as written (the GR10MM0808 orientation-0 table repeats channel 33, otbelectrodes.py:239-248), another code leaves it unset, a NameError; DEMUSE files copied, any other source a NameError, and every DEMUSE call and every OTB call with a table succeeds; then the optional split by column |
| OldElectrodes.OldBlocksMatchLibrary | openhdemg/otbelectrodes.py:295-312 | each inclusive range is the library's half-open block: both versions split the channels identically |
| OldMuap.FiveKeysDistinct | openhdemg/muap.py:418-422 | the five keys col0..col4 are distinct |
| OldMuap.Selected | openhdemg/muap.py:378-384 | the five blocks are looked up by key |
| OldMuap.Unpack | openhdemg/muap.py:357-390 | the channels of col0..col4 side by side, a missing key a KeyError; further columns are not read |
| OldMuap.Pack | openhdemg/muap.py:393-425 | five blocks of ceil(n / 5) consecutive channels, keyed col0..col4, the library's packing with those keys |
| OldMuap.SelectedOfFive | openhdemg/muap.py:378-384 | a matrix keyed exactly col0..col4 selects to itself |
| OldMuap.PackUnpack | openhdemg/muap.py:357-425 | packing the unpacked uniform five-column matrix restores it |
| OldMuap.UnpackPack | openhdemg/muap.py:357-425 | unpacking the packed block gives every channel back, in order |
| OldMuap.UnpackReadsFiveColumns | openhdemg/muap.py:378-384 | on an 8-column matrix only the first five columns are read |
| OldMuap.StaLength | openhdemg/muap.py:326-327 | the averaged frame is as long as the longest window |
| OldMuap.AllWindows | openhdemg/muap.py:318-324 | the window around every firing, complete or not |
| OldMuap.PaddedSample | openhdemg/muap.py:326 | sample t of every window, NaN where a window is shorter |
| OldMuap.PaddedMean | openhdemg/muap.py:327 | per sample, the NaN-skipping mean over the windows |
| OldMuap.ChannelSta | openhdemg/muap.py:313-329 | one channel's STA: each sample the NaN-skipping mean over all windows |
| OldMuap.StaBlockOf | openhdemg/muap.py:309-331 | every channel of a matrix column averaged |
| OldMuap.ChannelWindows | openhdemg/muap.py:318-324 | the window loop gives `AllWindows` |
| OldMuap.StaBlock | openhdemg/muap.py:309-331 | the channel loop gives `StaBlockOf` |
| OldMuap.StaMatrixOf | openhdemg/muap.py:306-337 | every matrix column averaged, keys kept |
| OldMuap.StaMatrix | openhdemg/muap.py:306-337 | the column loop gives `StaMatrixOf` |
| OldMuap.AllStas | openhdemg/muap.py:297-343 | the STA of every MU's selected firings, in MU order |
| OldMuap.StaOf | openhdemg/muap.py:192-354 | one STA per MU; the only failure is a NUMBER_OF_MUS beyond MUPULSES |
| OldMuap.Sta | openhdemg/muap.py:192-354 | the MU loop gives `StaOf` |
| OldMuap.AllWindowsComplete | openhdemg/muap.py:318-324 | with every window complete, the windows are the library's kept windows |
| OldMuap.SampleMeanAgrees | openhdemg/muap.py:327 | where every window holds a number, the NaN-skipping mean is the plain mean |
| OldMuap.StaAgreesWhenComplete | openhdemg/muap.py:313-329 | with complete windows on a NaN-free signal, the older STA is the library's |
| OldMuap.CompleteSampleAgrees | openhdemg/muap.py:313-329 | one sample of the two STAs agrees under those conditions |
| OldMuap.EarlyFiringEmptyWindow | openhdemg/muap.py:321 | a firing closer to the start than half the window gets an empty window, the negative start counting from the end |
| OldMuap.StaShape | openhdemg/muap.py:192-354 | `sta` succeeds whenever MUPULSES has an entry per MU, and keeps the matrix's keys and channel labels |
| OldMuap.TrackingOf | openhdemg/muap.py:690-939 | the older tracking succeeds exactly when sorting and the STAs succeed and file 1 has MUs; the sorting error comes first, then the STA error, then AttributeError |
| OldMuap.Track | openhdemg/muap.py:690-939 | the older tracking computes `TrackingOf` |
| OldMuap.TrackingAgreesWithLibrary | openhdemg/muap.py:690-939 | the older table and filter are the library's on the monopolar STAs |
| OldMuap.RemovalLists | openhdemg/muap.py:1076-1087 | the two removal lists, or the KeyError of the first missing score |
| OldMuap.ScoreRemovals | openhdemg/muap.py:1076-1087 | the loop over the tracked pairs gives `RemovalLists` |
| OldMuap.RemovalListsSplit | openhdemg/muap.py:1076-1087 | the lists exist exactly when every pair has its scores; each pair sends one MU to one list, the lower score losing |
| OldMuap.RemovalListsDistinct | openhdemg/muap.py:1076-1087 | with each MU in at most one pair per side, both lists are free of repeats |
| OldMuap.DeleteMusCall | openhdemg/muap.py:1056-1057 | a call with a keyword the older `delete_mus` does not take is a TypeError |
| OldMuap.RemoveDuplicatesBetween | openhdemg/muap.py:942-1129 | the older removal computes `RemoveDuplicatesOf` |
| OldMuap.RemoveDuplicatesAsWrittenFails | openhdemg/muap.py:1056-1067 | as written it never succeeds: once tracking and the scores succeed the `if_single_mu` keyword is a TypeError |
| OldMuap.FilteredTable | openhdemg/muap.py:870-898 | the filtered table holds distinct MUs on both sides, all of them MUs of the files |
| OldMuap.TrackedMu1s | openhdemg/muap.py:1055 | the file-1 MUs of a filtered table are distinct MUs of file 1 |
| OldMuap.NumberRuleOutcome | openhdemg/muap.py:1052-1070 | the "munumber" rule deletes the tracked MUs from the file with more MUs |
| OldMuap.ScoreRuleOutcome | openhdemg/muap.py:1072-1122 | a score rule deletes each file's losing MUs |
| OldMuap.RemovedByNumberConsistent | openhdemg/muap.py:1052-1070 | with the accepted keywords, the "munumber" rule on consistent files succeeds and leaves the larger file consistent with one MU per pair fewer |
| OldMuap.ScoreListsOfTable | openhdemg/muap.py:1076-1087 | the score lists of a filtered table are distinct MUs of their files, one per pair |
| OldMuap.RemovedByScoreConsistent | openhdemg/muap.py:1072-1122 | with the accepted keywords, a score rule on consistent files leaves both consistent, one MU per tracked pair removed in all |
| OldMuap.PairRowsScored | openhdemg/muap.py:1076-1080 | every MU of a tracked pair has a score in its file |
| OldAnalysis.RefRow | openhdemg/analysis.py:77-80 | `float(REF_SIGNAL.loc[p])`: p must be a row label (KeyError) of a one-column table (TypeError) |
| OldAnalysis.ThresholdRowOf | openhdemg/analysis.py:73-80 | an MU's row needs its first and last pulse, with no guard for an MU without firings |
| OldAnalysis.ThresholdsOf | openhdemg/analysis.py:10-121 | asserts on `event_` and `type_`, an Exception for an MViF that is not a number, then one row per MU with the requested columns |
| OldAnalysis.ComputeThresholds | openhdemg/analysis.py:71-111 | the MU loop gives `ThresholdsOf` |
| OldAnalysis.EmptyMuFails | openhdemg/analysis.py:73-74 | an MU without firings makes the older thresholds fail, where the library gives NaN |
| OldAnalysis.AgreesWithLibrary | openhdemg/analysis.py:77-80 | where the older thresholds succeed the library's do too, with the same layout; relative values agree, absolute ones are 9.81 times the library's |
| OldAnalysis.OlderThresholdsRows | openhdemg/analysis.py:71-111 | where the older thresholds succeed each MU has pulses on the reference signal and its row holds the thresholds in newtons |
| OldAnalysis.OlderRowsOnReference | openhdemg/analysis.py:71-111 | where they succeed, every MU's row succeeds |
| OldAnalysis.PickNewton | openhdemg/analysis.py:77-80 | an absolute threshold is the library's value times 9.81, a relative one the same |
| OldAnalysis.IdrOf | openhdemg/analysis.py:185 | one older IDR table per MU |
| OldAnalysis.FirstAtLeast | openhdemg/analysis.py:207-215 | the first pulse at or after the bound, if any |
| OldAnalysis.FindAtLeast | openhdemg/analysis.py:207-211 | the search loop with `break` gives `FirstAtLeast` |
| OldAnalysis.NextIndices | openhdemg/analysis.py:207-215 | a steady-state index the search does not assign keeps the previous MU's value |
| OldAnalysis.SearchIndices | openhdemg/analysis.py:207-215 | the two searches give `NextIndices` |
| OldAnalysis.OlderRecDerecAgrees | openhdemg/analysis.py:198-205 | with at least n IDR values the older recruitment and derecruitment rates are the library's |
| OldAnalysis.DrFrom | openhdemg/analysis.py:196-250 | one row per MU; an index still unbound when used is a NameError |
| OldAnalysis.DrOf | openhdemg/analysis.py:124-275 | an assert on `event_`, Exceptions for firing counts that are not integers, the selection only when both bounds are negative, then one row per MU |
| OldAnalysis.ComputeDr | openhdemg/analysis.py:196-250 | the MU loop gives `DrOf` |
| OldAnalysis.FirstMuUnbound | openhdemg/analysis.py:207-219 | without a pulse at or after a bound in the first MU the call fails |
| OldAnalysis.BoundIndicesNeverFail | openhdemg/analysis.py:207-219 | once both indices are bound no later MU can fail |
| OldAnalysis.RecDerecAgrees | openhdemg/analysis.py:198-205 | with several MUs and enough firings the older DR at recruitment and derecruitment is the library's |
| OldAnalysis.CarriedIndices | openhdemg/analysis.py:207-227 | an MU in which neither search finds a pulse is averaged over the indices of the MU before it |
| OldAnalysis.CarriedSteadyIndexExample | openhdemg/analysis.py:207-227 | an MU firing only before the steady state still gets a steady-state rate, inherited from the MU before it |
| OldAnalysis.CovisiLayout | openhdemg/analysis.py:425-564 | the checks of `compute_covisi`, then a `diff_mupulses` column the older IDR tables lack |
| OldAnalysis.CovisiMissingColumn | openhdemg/analysis.py:501-556 | the older COVisi never succeeds with MUs, nor for a single MU |
| OldAnalysis.NumbersFromOne | openhdemg/analysis.py:358-359 | the MU_number column holds 1..n |
| OldAnalysis.PnrColumns | openhdemg/analysis.py:364-376 | PNR columns for DEMUSE files only, needing a PNR per MU |
| OldAnalysis.HeadFrom | openhdemg/analysis.py:353-392 | MVC, MU numbers, PNR, thresholds and DR concatenated, failing with the first part that fails |
| OldAnalysis.NumberedFromOne | openhdemg/analysis.py:353-392 | MUs are numbered from 1, and PNR columns appear exactly for DEMUSE files |
| OldAnalysis.BasicMusPropertiesFailsWithMus | openhdemg/analysis.py:278-422 | with MUs in the file, the older `basic_mus_properties` always fails at the COVisi |
| OldOpenFiles.Lift | openhdemg/openfiles.py:206-232 | a binary table where the older function builds one |
| OldOpenFiles.SingleMuFiring | openhdemg/openfiles.py:222-224 | one firing of the single-MU branch: a one-element array (TypeError otherwise) holding a row |
| OldOpenFiles.OldBinaryFirings | openhdemg/openfiles.py:184-232 | nothing without MUPULSES; one 0/1 column per MU; a flat list with several MUs fails |
| OldOpenFiles.OldCreateBinaryFirings | openhdemg/openfiles.py:206-232 | the loops give `OldBinaryFirings` |
| OldOpenFiles.OldBinaryRoundTrip | openhdemg/openfiles.py:210-219 | a nested list of several MUs reads back through its binary columns |
| OldOpenFiles.OldSingleMuFlatRoundTrip | openhdemg/openfiles.py:220-224 | one MU's flat pulse list gives one column that reads back as that list |
| OldOpenFiles.OldSingleMuNestedRejected | openhdemg/openfiles.py:220-224 | a nested list for one MU fails at the first element that is not a single pulse |
| OldOpenFiles.PositiveSamples | openhdemg/openfiles.py:533-536 | exactly the rows holding a value above 0, in order |
| OldOpenFiles.OldOtbMupulses | openhdemg/openfiles.py:510-540 | one list per MU of the positive rows of its column; a column beyond the lists is an IndexError |
| OldOpenFiles.GetOtbMupulses | openhdemg/openfiles.py:529-540 | the two loops give `OldOtbMupulses` |
| OldOpenFiles.PositiveRows | openhdemg/openfiles.py:533-536 | the inner loop gives `PositiveSamples` |
| OldOpenFiles.PositiveIsFiring | openhdemg/openfiles.py:533-536 | on a 0/1 column "above 0" and "equal to 1" pick the same rows |
| OldOpenFiles.OldMupulsesOfBinary | openhdemg/openfiles.py:510-540 | the pulses read off a binary table built from increasing in-range pulses are those pulses |
| OldOpenFiles.RefOrNaN | openhdemg/openfiles.py:425-463 | the matching columns, or NaN when there are none |
| OldOpenFiles.OldOtbRefSignal | openhdemg/openfiles.py:383-473 | both asserts run first, so a short list is an IndexError; "filtered" reads the performed-path columns, "unfiltered" the acquired-data ones |
| OldOpenFiles.OldRefSignalDocumentedFalseFails | openhdemg/openfiles.py:408-418 | the documented `[False]` fails on the second assert |
| OldOpenFiles.OldOtbRefSignalIntended | openhdemg/openfiles.py:411-473 | as intended, a signal that is not requested needs no mode |
| OldOpenFiles.OldRefSignalIntendedFalse | openhdemg/openfiles.py:411-473 | as intended, `[False]` loads no reference signal |
| OldOpenFiles.OldOtbIed | openhdemg/openfiles.py:544-550 | the IED of the first grid the printed column names mention (the first and last ten beyond 100 columns), cut to an int; nothing when none is |
| OldOpenFiles.OldIedTruncatesLibrary | openhdemg/openfiles.py:544-550 | the older IED is the library's truncated toward zero |
| OldOpenFiles.OldIedOfHalfMillimetreGrid | openhdemg/openfiles.py:548 | a 2.5 mm grid is recorded with IED 2 by the older loader |
| OldOpenFiles.OldOtbRawSignal | openhdemg/openfiles.py:553-576 | no grid leaves `expectedchannels` unbound (NameError), a wrong count is an Exception, otherwise the channels renumbered |
| OldOpenFiles.OldRawSignalAgrees | openhdemg/openfiles.py:553-576 | the older and the library lookups accept the same tables and return the same signal |
| OldOpenFiles.OldSaveJson | openhdemg/openfiles.py:781-904 | 11 entries for DEMUSE and OTB, 3 for "OTB_refsig", a bare Exception otherwise |
| JsonFiles.IntField | openhdemg/openfiles.py:969-978 | `int(...)` of an entry: `int(None)` is a TypeError |
| OldOpenFiles.OldLoadFull | openhdemg/openfiles.py:933-999 | the DEMUSE/OTB branch reads positions 1..10 in order, with the MUPULSES entry bare at position 5, and yields a file with a REF_SIGNAL and an IED |
| OldOpenFiles.OldLoadJson | openhdemg/openfiles.py:907-1021 | SOURCE at position 0, then positions 1..10 or 1..2, integers through `int()`; another source is an Exception |
| OldOpenFiles.OldReloaded | openhdemg/openfiles.py:936-998 | the file read back is the file exactly when its tables survive `to_json()`: a column each and values with at most ten decimals |
| OldOpenFiles.OldSaveLoadFull | openhdemg/openfiles.py:781-1021 | a file without IED is written as null and cannot be read back; otherwise it comes back with its tables through `to_json()` |
| OldOpenFiles.OldFullRoundTrip | openhdemg/openfiles.py:781-1021 | the older round trip is exact for files with an IED whose tables survive `to_json()` |
| OldOpenFiles.OldRefsigRoundTrip | openhdemg/openfiles.py:877-1019 | the older reference-signal file round-trips up to `to_json()` |
| OldOpenFiles.OldFileUnreadableByLibrary | openhdemg/openfiles.py:931-1019 | the library loader cannot read an older file: position 1 does not hold FILENAME |

## Left out

- Graphical interface, plotting and `info`: Tk windows and matplotlib
  rendering have no behaviour to state.  The mouse clicks of `showselect`
  (`plt.ginput`) and the typed answers of `input(...)` are parameters
  (`clicks`, the typed MVC, the overwrite answer in `Conversions`).
- Floating-point signal numerics: the normalised 2-D cross-correlation
  (`norm_twod_xcorr`, `xcc_sta`) and the correlation inside `align_by_xcorr`
  are inputs, namely the XCC of each MU pair in `Tracking` and the lag in
  `Muap`.  The same holds for the SIL/PNR computation (`compute_sil`,
  `compute_pnr`, a function parameter of the loaders), the smoothed
  discharge rates and the rate correlation of `compute_deltaf`,
  `filter_rawemg`/`filter_refsig`, `estimate_cv_via_mle`,
  `compute_covsteady`, `compute_drvariability` and the COVisi statistic
  itself.  Only the layout and input checks of `compute_covisi` are modelled.
- Reals stand for doubles.  A float is a real or NaN, and a division by zero
  (inf in numpy) is folded into NaN.
- File and text encodings: `loadmat`, `read_csv`, gzip, `json.dumps` and
  `json.loads` are replaced by their decoded content.  A `.mat` or CSV file is
  a table of named columns.  A JSON file is its list of entries.  `to_json`
  is modelled by what it loses: its ten decimals (`double_precision=10`) and
  a table with rows and no columns, which reads back with no rows.
- JsonFiles.Round10: rounds to ten decimals with ties to even on the exact
  real value; the tie rule of pandas' double-to-text conversion on binary
  doubles, and its exponent notation for very large and very small
  magnitudes, are not modelled, because reals stand for doubles.
- JsonFiles.AsFloat: the strings read are an optional sign and digits with at
  most one decimal point.  Exponents, "nan", "inf", surrounding blanks and
  underscores, which Python also accepts, are read as a ValueError.
- JsonFiles.AsInt: the strings read are an optional sign and ASCII digits.
  Surrounding blanks, underscores and other Unicode digits, which Python
  also accepts, are read as a ValueError.
- JsonFiles.FsampField: a NaN FSAMP is a ValueError, while `float(nan)`
  loads a file whose FSAMP is NaN, because the record holds FSAMP as a real.
- Column filters with regular expressions (`df.filter(regex=...)`) are
  modelled for alternations of literal words, as substring matching.
- joblib `Parallel` in `tracking`, `sta` and `st_muap` returns results in
  submission order.  It is modelled as a sequential map.
- pandas `sort_values` is modelled as a stable sort.  Its default quicksort
  may order ties differently.
- The file system of `convert_json_output` is a parameter: the kind of path,
  whether the output is a directory, and the content of each file.  Its GUI
  branch is not modelled.
- `refsig_from_otb`, `refsig_from_customcsv`, `emg_from_samplefile`,
  `askopenfile` and `asksavefile` are not modelled.  They are thin wrappers
  that read a file and call the modelled getters, or open a dialog.
- `mupulses_from_binary` is not part of this model.  Its role, the sample
  indices where a binary column is 1, is modelled by
  `OpenFiles.PulsesFromBinary` and `Tools.FiringSamples`.
- Warnings and informational prints are dropped.  Where the older package
  prints an error instead of raising, the model returns the result the code
  returns next.
- The older package's `emg_from_demuse`, `emg_from_otb`,
  `raw_sig_from_demuse`, `st_muap` and `align_by_xcorr` are not modelled.
  They are the library's code, or its numerics.
- Tracking.Track: besides the fixed TypeError of the `custom_sorting_order`
  keyword, the errors `sort_rawemg` or `sta` may raise inside `tracking` are
  inputs (an optional error for each), because the signals those steps
  compute are not modelled.  Only the intended function can reach them.
- Muap.ExtractDelsysMuaps: the EXTRAS column names are a parameter, because
  the frame model carries no column labels.
- OldTools.ResizeEmgfile: its contract speaks of the state before the call
  (`old`), so it states the new state of the caller's dictionary without
  being counted as a pure function would be.
- `delete_mus` and `sort_mus` in the library read the PNR and SIL keys,
  while the library loaders produce ACCURACY.  The model follows the keys as
  written, so those operations signal KeyError on a freshly loaded file
  without PNR or SIL.  `resize_emgfile` only assigns them.
- OpenFiles.DropNa: the kept rows are renumbered from 0, while pandas keeps
  their original labels (`OpenFiles.DropNaLabels`).  The two agree when the
  rows with NaN come after the complete ones
  (`OpenFiles.DropNaTrailingLabels`).  A later label-based access to a table
  with an inner NaN row is not modelled.
- Tools.ComputeIdr: with one MU and several equally long pulse lists,
  columns 4 and up of the transposed MUPULSES stay in the table.  The model
  keeps the four IDR columns.  Ragged lists are a ValueError, as in numpy
  1.24 and later.  Older numpy builds an object array and fails later.
- OldTools.FirstColumn: `pd.DataFrame(MUPULSES)` also keeps columns 3 and up
  (the later pulses of each list).  The model keeps the three IDR columns.
- The modules are modelled as if each of their imports resolved.  Each call
  is against the callee in the file of the same package.  They do not all
  resolve together: library/openfiles.py imports `mupulses_from_binary`,
  which library/tools.py does not define.  library/__init__.py imports
  `emg_from_delsys` and `refsig_from_delsys`, which library/openfiles.py does
  not define.  library/muap.py imports `find_teta`, and library/mathtools.py
  defines only `find_mle_teta`.  openhdemg/analysis.py imports
  `compute_covsteady`, which openhdemg/tools.py lacks.  openhdemg/muap.py
  imports `norm_twod_xcorr`, `find_teta` and `mle_cv_est`, which
  openhdemg/mathtools.py lacks.  OldAnalysis.CovisiMissingColumn,
  OldAnalysis.BasicMusPropertiesFailsWithMus and
  OldMuap.RemoveDuplicatesAsWrittenFails follow from pairing
  openhdemg/analysis.py and openhdemg/muap.py with the openhdemg/tools.py
  of this source, which is older than their own imports.
- Several unit tests exercise a newer interface than this source
  (`resize_emgfile(how=...)`, `compute_thresholds(n_firings=...)`,
  `tracking(multiprocessing=...)`, `delete_mus` on ACCURACY).  The model
  follows the source.

## Findings

| source | as written | input that shows it | evidently intended | confidence | as-written member | corrected member |
|---|---|---|---|---|---|---|
| openhdemg/library/electrodes.py:302-311 | the GR10MM0808 orientation-0 sorting table lists channel 33 in two slots and never lists 32 (also openhdemg/otbelectrodes.py:239-248) | `sort_rawemg` of any 64-channel recording with code GR10MM0808 and orientation 0 puts raw channel 33 in sorted columns 24 and 25 and loses channel 32 | slot 24 holds channel 32, so the table is a permutation of 0..63 | not executed | Electrodes.SortedGr10mm0808Orientation0Repeats33 | Electrodes.IntendedSortingTable |
| openhdemg/library/pic.py:170-175 | a pair whose overlap is shorter than two samples gets NaN but skips its control/test bookkeeping, so in the averaging (lines 292-313) later test units are matched to the wrong deltaF | MU0 fires at 1..10, MU1 at 20..30, MU2 at 5..25: the per-test-unit average is [NaN, 1, NaN] | [NaN, 3, 1], each deltaF averaged under its own test unit | not executed | Pic.SkippedPairShiftsAverages | Pic.IntendedUnitAverage |
| openhdemg/library/pic.py:127-131 | with fewer than two MUs a 1x2 array is put in one column, which pandas rejects with ValueError | any file with one MU | the single NaN row that the branch is written to return | not executed | Pic.FewUnitsRejected | Pic.DeltaFIntended |
| openhdemg/library/openfiles.py:460-462 | the base pattern is joined to `extras_regex` by string concatenation, and the default `extras=None` (line 526) makes that a TypeError | `emg_from_otb` called with its default arguments | without extras only the base pattern is dropped | not executed | OpenFiles.OtbDefaultsRejected | OpenFiles.OtbDefaultsIntended |
| openhdemg/library/tools.py:476-484 | a list of MUs is kept by membership but NUMBER_OF_MUS drops by the list's length | deleting [1, 1] from three MUs keeps two MUs but records one | the count drops by the number of distinct labels removed | not executed | Tools.DeleteRepeatedLabelsUndercounts | Tools.KeptCountDistinct |
| openhdemg/openfiles.py:408-418 | the docstring offers `refsig=[False]`, but the second assertion reads `refsig[1]` | `refsig=[False]` raises IndexError | no reference signal is loaded | not executed | OldOpenFiles.OldRefSignalDocumentedFalseFails | OldOpenFiles.OldRefSignalIntendedFalse |
| openhdemg/muap.py:1056-1067 | `remove_duplicates_between` passes `if_single_mu=` to the `delete_mus` of openhdemg/tools.py in this source, which has no such parameter | any two files once tracking has found a duplicate raise TypeError | the duplicated MUs are removed | not executed; depends on pairing with this openhdemg/tools.py | OldMuap.RemoveDuplicatesAsWrittenFails | OldMuap.RemovedByNumberConsistent |
| openhdemg/library/muap.py:934-949 | `tracking` passes `custom_sorting_order=` to `sort_rawemg`, whose parameters (library/electrodes.py:99-106) do not include it | `tracking` of any two files without `custom_muaps` raises TypeError | the channels are sorted and the STAs computed | not executed | Tracking.TrackingAsWrittenRejectsComputedSta | Tracking.TrackingIntendedSucceeds |
