/**
 * The OT Bioelettronica matrix tables and `sort_rawemg`: the sorting table
 * of each supported matrix and orientation, the reindex of RAW_SIGNAL
 * channels by it, and the split of the sorted channels into matrix columns.
 *
 * A sorting table lists, slot by slot, the RAW_SIGNAL channel shown there;
 * the empty slot (NaN in the tables) is written `EmptySlot`, a label no
 * channel has, so reindexing by it yields a NaN column as pandas does.
 */
module Electrodes {
  import opened Common
  import opened EmgRecord

  const OtbElectrodesTuple: seq<string> := [
    "GR04MM1305", "GR08MM1305", "GR100ML1305", "GR10MM0804", "GR10MM0808",
    "HD04MM1305", "HD08MM1305", "HD10MM0804", "HD10MM0808"]

  /** Interelectrode distance (mm) of each matrix. */
  const OtbElectrodesIed: map<string, real> := map[
    "GR04MM1305" := 4.0, "GR08MM1305" := 8.0, "GR100ML1305" := 2.5,
    "GR10MM0804" := 10.0, "GR10MM0808" := 10.0, "HD04MM1305" := 4.0,
    "HD08MM1305" := 8.0, "HD10MM0804" := 10.0, "HD10MM0808" := 10.0]

  /** Number of electrodes of each matrix. */
  const OtbElectrodesNelectrodes: map<string, nat> := map[
    "GR04MM1305" := 64, "GR08MM1305" := 64, "GR100ML1305" := 64,
    "GR10MM0804" := 32, "GR10MM0808" := 64, "HD04MM1305" := 64,
    "HD08MM1305" := 64, "HD10MM0804" := 32, "HD10MM0808" := 64]

  /** Every matrix code of the tuple has an IED and an electrode count, and nothing else does. */
  lemma ElectrodeTablesShareKeys()
    ensures (set code | code in OtbElectrodesTuple) == OtbElectrodesIed.Keys == OtbElectrodesNelectrodes.Keys
  {
  }

  /** The NaN slot of a sorting table. */
  const EmptySlot: int := -1

  /** GR08MM1305 / GR04MM1305, orientation 0: five matrix columns of 13 slots; the last slot is empty. */
  const Mm1305Orientation0: seq<int> :=
    [63, 62, 61, 60, 59, 58, 57, 56, 55, 54, 53, 52, 51]
    + [38, 39, 40, 41, 42, 43, 44, 45, 46, 47, 48, 49, 50]
    + [37, 36, 35, 34, 33, 32, 31, 30, 29, 28, 27, 26, 25]
    + [12, 13, 14, 15, 16, 17, 18, 19, 20, 21, 22, 23, 24]
    + [11, 10,  9,  8,  7,  6,  5,  4,  3,  2,  1,  0, -1]

  /** GR08MM1305 / GR04MM1305, orientation 180: the first slot is empty. */
  const Mm1305Orientation180: seq<int> :=
    [EmptySlot] + [ 0,  1,  2,  3,  4,  5,  6,  7,  8,  9, 10, 11, 24]
    + [23, 22, 21, 20, 19, 18, 17, 16, 15, 14, 13, 12, 25]
    + [26, 27, 28, 29, 30, 31, 32, 33, 34, 35, 36, 37, 50]
    + [49, 48, 47, 46, 45, 44, 43, 42, 41, 40, 39, 38, 51]
    + [52, 53, 54, 55, 56, 57, 58, 59, 60, 61, 62, 63]

  /** GR10MM0808, orientation 0, as the table is written: its fourth row starts 33, 33. */
  const Gr10mm0808Orientation0AsWritten: seq<int> :=
    [56, 57, 58, 59, 60, 61, 62, 63]
    + [48, 49, 50, 51, 52, 53, 54, 55]
    + [40, 41, 42, 43, 44, 45, 46, 47]
    + [33, 33, 34, 35, 36, 37, 38, 39]
    + [24, 25, 26, 27, 28, 29, 30, 31]
    + [16, 17, 18, 19, 20, 21, 22, 23]
    + [ 8,  9, 10, 11, 12, 13, 14, 15]
    + [ 0,  1,  2,  3,  4,  5,  6,  7]

  /** GR10MM0808, orientation 0, with the fourth row holding channels 32..39 as the channel map shows. */
  const Gr10mm0808Orientation0: seq<int> :=
    [56, 57, 58, 59, 60, 61, 62, 63]
    + [48, 49, 50, 51, 52, 53, 54, 55]
    + [40, 41, 42, 43, 44, 45, 46, 47]
    + [32, 33, 34, 35, 36, 37, 38, 39]
    + [24, 25, 26, 27, 28, 29, 30, 31]
    + [16, 17, 18, 19, 20, 21, 22, 23]
    + [ 8,  9, 10, 11, 12, 13, 14, 15]
    + [ 0,  1,  2,  3,  4,  5,  6,  7]

  /** GR10MM0808, orientation 180: eight matrix columns of 8 slots. */
  const Gr10mm0808Orientation180: seq<int> :=
    [ 7,  6,  5,  4,  3,  2,  1,  0]
    + [15, 14, 13, 12, 11, 10,  9,  8]
    + [23, 22, 21, 20, 19, 18, 17, 16]
    + [31, 30, 29, 28, 27, 26, 25, 24]
    + [39, 38, 37, 36, 35, 34, 33, 32]
    + [47, 46, 45, 44, 43, 42, 41, 40]
    + [55, 54, 53, 52, 51, 50, 49, 48]
    + [63, 62, 61, 60, 59, 58, 57, 56]

  // The slot holding each channel in each table (used to prove the tables).
  const Mm1305Orientation0Slots: seq<int> :=
    [63, 62, 61, 60, 59, 58, 57, 56]
    + [55, 54, 53, 52, 39, 40, 41, 42]
    + [43, 44, 45, 46, 47, 48, 49, 50]
    + [51, 38, 37, 36, 35, 34, 33, 32]
    + [31, 30, 29, 28, 27, 26, 13, 14]
    + [15, 16, 17, 18, 19, 20, 21, 22]
    + [23, 24, 25, 12, 11, 10,  9,  8]
    + [ 7,  6,  5,  4,  3,  2,  1,  0]
  const Mm1305Orientation180Slots: seq<int> :=
    [ 1,  2,  3,  4,  5,  6,  7,  8]
    + [ 9, 10, 11, 12, 25, 24, 23, 22]
    + [21, 20, 19, 18, 17, 16, 15, 14]
    + [13, 26, 27, 28, 29, 30, 31, 32]
    + [33, 34, 35, 36, 37, 38, 51, 50]
    + [49, 48, 47, 46, 45, 44, 43, 42]
    + [41, 40, 39, 52, 53, 54, 55, 56]
    + [57, 58, 59, 60, 61, 62, 63, 64]
  const Gr10mm0808Orientation0Slots: seq<int> :=
    [56, 57, 58, 59, 60, 61, 62, 63]
    + [48, 49, 50, 51, 52, 53, 54, 55]
    + [40, 41, 42, 43, 44, 45, 46, 47]
    + [32, 33, 34, 35, 36, 37, 38, 39]
    + [24, 25, 26, 27, 28, 29, 30, 31]
    + [16, 17, 18, 19, 20, 21, 22, 23]
    + [ 8,  9, 10, 11, 12, 13, 14, 15]
    + [ 0,  1,  2,  3,  4,  5,  6,  7]
  const Gr10mm0808Orientation180Slots: seq<int> :=
    [ 7,  6,  5,  4,  3,  2,  1,  0]
    + [15, 14, 13, 12, 11, 10,  9,  8]
    + [23, 22, 21, 20, 19, 18, 17, 16]
    + [31, 30, 29, 28, 27, 26, 25, 24]
    + [39, 38, 37, 36, 35, 34, 33, 32]
    + [47, 46, 45, 44, 43, 42, 41, 40]
    + [55, 54, 53, 52, 51, 50, 49, 48]
    + [63, 62, 61, 60, 59, 58, 57, 56]

  /** Every slot holds a channel below n or is empty, every channel is in some slot, and none in two. */
  predicate ChannelsOnce(t: seq<int>, n: nat)
  {
    (forall p :: 0 <= p < |t| ==> t[p] == EmptySlot || 0 <= t[p] < n)
    && (forall c :: 0 <= c < n ==> c in t)
    && (forall p, q :: 0 <= p < q < |t| && t[p] == t[q] ==> t[p] == EmptySlot)
  }

  /** `slots` gives, for each channel, the one slot of `t` holding it. */
  predicate SlotsInvert(t: seq<int>, slots: seq<int>)
  {
    (forall c :: 0 <= c < |slots| ==> 0 <= slots[c] < |t| && t[slots[c]] == c)
    && (forall p :: 0 <= p < |t| && t[p] != EmptySlot ==> 0 <= t[p] < |slots| && slots[t[p]] == p)
  }

  lemma InverseShowsChannelsOnce(t: seq<int>, slots: seq<int>)
    requires SlotsInvert(t, slots)
    ensures ChannelsOnce(t, |slots|)
  {
    forall c | 0 <= c < |slots| ensures c in t {
      assert t[slots[c]] == c;
    }
  }

  lemma Mm1305Orientation0Inverts()
    ensures SlotsInvert(Mm1305Orientation0, Mm1305Orientation0Slots)
  {
    Mm1305Orientation0Covers();
    Mm1305Orientation0SlotsBack();
  }

  lemma Mm1305Orientation0Covers()
    ensures forall c :: 0 <= c < |Mm1305Orientation0Slots| ==> 0 <= Mm1305Orientation0Slots[c] < |Mm1305Orientation0| && Mm1305Orientation0[Mm1305Orientation0Slots[c]] == c
  {
    Mm1305Orientation0CoversFrom0();
    Mm1305Orientation0CoversFrom16();
    Mm1305Orientation0CoversFrom32();
    Mm1305Orientation0CoversFrom48();
  }

  lemma Mm1305Orientation0CoversFrom0()
    ensures forall c :: 0 <= c < 16 && 0 <= c < |Mm1305Orientation0Slots| ==> 0 <= Mm1305Orientation0Slots[c] < |Mm1305Orientation0| && Mm1305Orientation0[Mm1305Orientation0Slots[c]] == c
  {
    forall c | 0 <= c < 16 && 0 <= c < |Mm1305Orientation0Slots| ensures 0 <= Mm1305Orientation0Slots[c] < |Mm1305Orientation0| && Mm1305Orientation0[Mm1305Orientation0Slots[c]] == c {
      if c == 0 {} else if c == 1 {} else if c == 2 {} else if c == 3 {} else if c == 4 {} else if c == 5 {} else if c == 6 {} else if c == 7 {} else
      if c == 8 {} else if c == 9 {} else if c == 10 {} else if c == 11 {} else if c == 12 {} else if c == 13 {} else if c == 14 {} else if c == 15 {}
    }
  }

  lemma Mm1305Orientation0CoversFrom16()
    ensures forall c :: 16 <= c < 32 && 0 <= c < |Mm1305Orientation0Slots| ==> 0 <= Mm1305Orientation0Slots[c] < |Mm1305Orientation0| && Mm1305Orientation0[Mm1305Orientation0Slots[c]] == c
  {
    forall c | 16 <= c < 32 && 0 <= c < |Mm1305Orientation0Slots| ensures 0 <= Mm1305Orientation0Slots[c] < |Mm1305Orientation0| && Mm1305Orientation0[Mm1305Orientation0Slots[c]] == c {
      if c == 16 {} else if c == 17 {} else if c == 18 {} else if c == 19 {} else if c == 20 {} else if c == 21 {} else if c == 22 {} else if c == 23 {} else
      if c == 24 {} else if c == 25 {} else if c == 26 {} else if c == 27 {} else if c == 28 {} else if c == 29 {} else if c == 30 {} else if c == 31 {}
    }
  }

  lemma Mm1305Orientation0CoversFrom32()
    ensures forall c :: 32 <= c < 48 && 0 <= c < |Mm1305Orientation0Slots| ==> 0 <= Mm1305Orientation0Slots[c] < |Mm1305Orientation0| && Mm1305Orientation0[Mm1305Orientation0Slots[c]] == c
  {
    forall c | 32 <= c < 48 && 0 <= c < |Mm1305Orientation0Slots| ensures 0 <= Mm1305Orientation0Slots[c] < |Mm1305Orientation0| && Mm1305Orientation0[Mm1305Orientation0Slots[c]] == c {
      if c == 32 {} else if c == 33 {} else if c == 34 {} else if c == 35 {} else if c == 36 {} else if c == 37 {} else if c == 38 {} else if c == 39 {} else
      if c == 40 {} else if c == 41 {} else if c == 42 {} else if c == 43 {} else if c == 44 {} else if c == 45 {} else if c == 46 {} else if c == 47 {}
    }
  }

  lemma Mm1305Orientation0CoversFrom48()
    ensures forall c :: 48 <= c < 64 && 0 <= c < |Mm1305Orientation0Slots| ==> 0 <= Mm1305Orientation0Slots[c] < |Mm1305Orientation0| && Mm1305Orientation0[Mm1305Orientation0Slots[c]] == c
  {
    forall c | 48 <= c < 64 && 0 <= c < |Mm1305Orientation0Slots| ensures 0 <= Mm1305Orientation0Slots[c] < |Mm1305Orientation0| && Mm1305Orientation0[Mm1305Orientation0Slots[c]] == c {
      if c == 48 {} else if c == 49 {} else if c == 50 {} else if c == 51 {} else if c == 52 {} else if c == 53 {} else if c == 54 {} else if c == 55 {} else
      if c == 56 {} else if c == 57 {} else if c == 58 {} else if c == 59 {} else if c == 60 {} else if c == 61 {} else if c == 62 {} else if c == 63 {}
    }
  }

  lemma Mm1305Orientation0SlotsBack()
    ensures forall p :: 0 <= p < |Mm1305Orientation0| && Mm1305Orientation0[p] != EmptySlot ==> 0 <= Mm1305Orientation0[p] < |Mm1305Orientation0Slots| && Mm1305Orientation0Slots[Mm1305Orientation0[p]] == p
  {
    Mm1305Orientation0SlotsBackFrom0();
    Mm1305Orientation0SlotsBackFrom16();
    Mm1305Orientation0SlotsBackFrom32();
    Mm1305Orientation0SlotsBackFrom48();
  }

  lemma Mm1305Orientation0SlotsBackFrom0()
    ensures forall p :: 0 <= p < 16 && 0 <= p < |Mm1305Orientation0| && Mm1305Orientation0[p] != EmptySlot ==> 0 <= Mm1305Orientation0[p] < |Mm1305Orientation0Slots| && Mm1305Orientation0Slots[Mm1305Orientation0[p]] == p
  {
    forall p | 0 <= p < 16 && 0 <= p < |Mm1305Orientation0| && Mm1305Orientation0[p] != EmptySlot ensures 0 <= Mm1305Orientation0[p] < |Mm1305Orientation0Slots| && Mm1305Orientation0Slots[Mm1305Orientation0[p]] == p {
      if p == 0 {} else if p == 1 {} else if p == 2 {} else if p == 3 {} else if p == 4 {} else if p == 5 {} else if p == 6 {} else if p == 7 {} else
      if p == 8 {} else if p == 9 {} else if p == 10 {} else if p == 11 {} else if p == 12 {} else if p == 13 {} else if p == 14 {} else if p == 15 {}
    }
  }

  lemma Mm1305Orientation0SlotsBackFrom16()
    ensures forall p :: 16 <= p < 32 && 0 <= p < |Mm1305Orientation0| && Mm1305Orientation0[p] != EmptySlot ==> 0 <= Mm1305Orientation0[p] < |Mm1305Orientation0Slots| && Mm1305Orientation0Slots[Mm1305Orientation0[p]] == p
  {
    forall p | 16 <= p < 32 && 0 <= p < |Mm1305Orientation0| && Mm1305Orientation0[p] != EmptySlot ensures 0 <= Mm1305Orientation0[p] < |Mm1305Orientation0Slots| && Mm1305Orientation0Slots[Mm1305Orientation0[p]] == p {
      if p == 16 {} else if p == 17 {} else if p == 18 {} else if p == 19 {} else if p == 20 {} else if p == 21 {} else if p == 22 {} else if p == 23 {} else
      if p == 24 {} else if p == 25 {} else if p == 26 {} else if p == 27 {} else if p == 28 {} else if p == 29 {} else if p == 30 {} else if p == 31 {}
    }
  }

  lemma Mm1305Orientation0SlotsBackFrom32()
    ensures forall p :: 32 <= p < 48 && 0 <= p < |Mm1305Orientation0| && Mm1305Orientation0[p] != EmptySlot ==> 0 <= Mm1305Orientation0[p] < |Mm1305Orientation0Slots| && Mm1305Orientation0Slots[Mm1305Orientation0[p]] == p
  {
    forall p | 32 <= p < 48 && 0 <= p < |Mm1305Orientation0| && Mm1305Orientation0[p] != EmptySlot ensures 0 <= Mm1305Orientation0[p] < |Mm1305Orientation0Slots| && Mm1305Orientation0Slots[Mm1305Orientation0[p]] == p {
      if p == 32 {} else if p == 33 {} else if p == 34 {} else if p == 35 {} else if p == 36 {} else if p == 37 {} else if p == 38 {} else if p == 39 {} else
      if p == 40 {} else if p == 41 {} else if p == 42 {} else if p == 43 {} else if p == 44 {} else if p == 45 {} else if p == 46 {} else if p == 47 {}
    }
  }

  lemma Mm1305Orientation0SlotsBackFrom48()
    ensures forall p :: 48 <= p < 65 && 0 <= p < |Mm1305Orientation0| && Mm1305Orientation0[p] != EmptySlot ==> 0 <= Mm1305Orientation0[p] < |Mm1305Orientation0Slots| && Mm1305Orientation0Slots[Mm1305Orientation0[p]] == p
  {
    forall p | 48 <= p < 65 && 0 <= p < |Mm1305Orientation0| && Mm1305Orientation0[p] != EmptySlot ensures 0 <= Mm1305Orientation0[p] < |Mm1305Orientation0Slots| && Mm1305Orientation0Slots[Mm1305Orientation0[p]] == p {
      if p == 48 {} else if p == 49 {} else if p == 50 {} else if p == 51 {} else if p == 52 {} else if p == 53 {} else if p == 54 {} else if p == 55 {} else
      if p == 56 {} else if p == 57 {} else if p == 58 {} else if p == 59 {} else if p == 60 {} else if p == 61 {} else if p == 62 {} else if p == 63 {} else
      if p == 64 {}
    }
  }

  lemma Mm1305Orientation180Inverts()
    ensures SlotsInvert(Mm1305Orientation180, Mm1305Orientation180Slots)
  {
    Mm1305Orientation180Covers();
    Mm1305Orientation180SlotsBack();
  }

  lemma Mm1305Orientation180Covers()
    ensures forall c :: 0 <= c < |Mm1305Orientation180Slots| ==> 0 <= Mm1305Orientation180Slots[c] < |Mm1305Orientation180| && Mm1305Orientation180[Mm1305Orientation180Slots[c]] == c
  {
    Mm1305Orientation180CoversFrom0();
    Mm1305Orientation180CoversFrom16();
    Mm1305Orientation180CoversFrom32();
    Mm1305Orientation180CoversFrom48();
  }

  lemma Mm1305Orientation180CoversFrom0()
    ensures forall c :: 0 <= c < 16 && 0 <= c < |Mm1305Orientation180Slots| ==> 0 <= Mm1305Orientation180Slots[c] < |Mm1305Orientation180| && Mm1305Orientation180[Mm1305Orientation180Slots[c]] == c
  {
    forall c | 0 <= c < 16 && 0 <= c < |Mm1305Orientation180Slots| ensures 0 <= Mm1305Orientation180Slots[c] < |Mm1305Orientation180| && Mm1305Orientation180[Mm1305Orientation180Slots[c]] == c {
      if c == 0 {} else if c == 1 {} else if c == 2 {} else if c == 3 {} else if c == 4 {} else if c == 5 {} else if c == 6 {} else if c == 7 {} else
      if c == 8 {} else if c == 9 {} else if c == 10 {} else if c == 11 {} else if c == 12 {} else if c == 13 {} else if c == 14 {} else if c == 15 {}
    }
  }

  lemma Mm1305Orientation180CoversFrom16()
    ensures forall c :: 16 <= c < 32 && 0 <= c < |Mm1305Orientation180Slots| ==> 0 <= Mm1305Orientation180Slots[c] < |Mm1305Orientation180| && Mm1305Orientation180[Mm1305Orientation180Slots[c]] == c
  {
    forall c | 16 <= c < 32 && 0 <= c < |Mm1305Orientation180Slots| ensures 0 <= Mm1305Orientation180Slots[c] < |Mm1305Orientation180| && Mm1305Orientation180[Mm1305Orientation180Slots[c]] == c {
      if c == 16 {} else if c == 17 {} else if c == 18 {} else if c == 19 {} else if c == 20 {} else if c == 21 {} else if c == 22 {} else if c == 23 {} else
      if c == 24 {} else if c == 25 {} else if c == 26 {} else if c == 27 {} else if c == 28 {} else if c == 29 {} else if c == 30 {} else if c == 31 {}
    }
  }

  lemma Mm1305Orientation180CoversFrom32()
    ensures forall c :: 32 <= c < 48 && 0 <= c < |Mm1305Orientation180Slots| ==> 0 <= Mm1305Orientation180Slots[c] < |Mm1305Orientation180| && Mm1305Orientation180[Mm1305Orientation180Slots[c]] == c
  {
    forall c | 32 <= c < 48 && 0 <= c < |Mm1305Orientation180Slots| ensures 0 <= Mm1305Orientation180Slots[c] < |Mm1305Orientation180| && Mm1305Orientation180[Mm1305Orientation180Slots[c]] == c {
      if c == 32 {} else if c == 33 {} else if c == 34 {} else if c == 35 {} else if c == 36 {} else if c == 37 {} else if c == 38 {} else if c == 39 {} else
      if c == 40 {} else if c == 41 {} else if c == 42 {} else if c == 43 {} else if c == 44 {} else if c == 45 {} else if c == 46 {} else if c == 47 {}
    }
  }

  lemma Mm1305Orientation180CoversFrom48()
    ensures forall c :: 48 <= c < 64 && 0 <= c < |Mm1305Orientation180Slots| ==> 0 <= Mm1305Orientation180Slots[c] < |Mm1305Orientation180| && Mm1305Orientation180[Mm1305Orientation180Slots[c]] == c
  {
    forall c | 48 <= c < 64 && 0 <= c < |Mm1305Orientation180Slots| ensures 0 <= Mm1305Orientation180Slots[c] < |Mm1305Orientation180| && Mm1305Orientation180[Mm1305Orientation180Slots[c]] == c {
      if c == 48 {} else if c == 49 {} else if c == 50 {} else if c == 51 {} else if c == 52 {} else if c == 53 {} else if c == 54 {} else if c == 55 {} else
      if c == 56 {} else if c == 57 {} else if c == 58 {} else if c == 59 {} else if c == 60 {} else if c == 61 {} else if c == 62 {} else if c == 63 {}
    }
  }

  lemma Mm1305Orientation180SlotsBack()
    ensures forall p :: 0 <= p < |Mm1305Orientation180| && Mm1305Orientation180[p] != EmptySlot ==> 0 <= Mm1305Orientation180[p] < |Mm1305Orientation180Slots| && Mm1305Orientation180Slots[Mm1305Orientation180[p]] == p
  {
    Mm1305Orientation180SlotsBackFrom0();
    Mm1305Orientation180SlotsBackFrom16();
    Mm1305Orientation180SlotsBackFrom32();
    Mm1305Orientation180SlotsBackFrom48();
  }

  lemma Mm1305Orientation180SlotsBackFrom0()
    ensures forall p :: 0 <= p < 16 && 0 <= p < |Mm1305Orientation180| && Mm1305Orientation180[p] != EmptySlot ==> 0 <= Mm1305Orientation180[p] < |Mm1305Orientation180Slots| && Mm1305Orientation180Slots[Mm1305Orientation180[p]] == p
  {
    forall p | 0 <= p < 16 && 0 <= p < |Mm1305Orientation180| && Mm1305Orientation180[p] != EmptySlot ensures 0 <= Mm1305Orientation180[p] < |Mm1305Orientation180Slots| && Mm1305Orientation180Slots[Mm1305Orientation180[p]] == p {
      if p == 0 {} else if p == 1 {} else if p == 2 {} else if p == 3 {} else if p == 4 {} else if p == 5 {} else if p == 6 {} else if p == 7 {} else
      if p == 8 {} else if p == 9 {} else if p == 10 {} else if p == 11 {} else if p == 12 {} else if p == 13 {} else if p == 14 {} else if p == 15 {}
    }
  }

  lemma Mm1305Orientation180SlotsBackFrom16()
    ensures forall p :: 16 <= p < 32 && 0 <= p < |Mm1305Orientation180| && Mm1305Orientation180[p] != EmptySlot ==> 0 <= Mm1305Orientation180[p] < |Mm1305Orientation180Slots| && Mm1305Orientation180Slots[Mm1305Orientation180[p]] == p
  {
    forall p | 16 <= p < 32 && 0 <= p < |Mm1305Orientation180| && Mm1305Orientation180[p] != EmptySlot ensures 0 <= Mm1305Orientation180[p] < |Mm1305Orientation180Slots| && Mm1305Orientation180Slots[Mm1305Orientation180[p]] == p {
      if p == 16 {} else if p == 17 {} else if p == 18 {} else if p == 19 {} else if p == 20 {} else if p == 21 {} else if p == 22 {} else if p == 23 {} else
      if p == 24 {} else if p == 25 {} else if p == 26 {} else if p == 27 {} else if p == 28 {} else if p == 29 {} else if p == 30 {} else if p == 31 {}
    }
  }

  lemma Mm1305Orientation180SlotsBackFrom32()
    ensures forall p :: 32 <= p < 48 && 0 <= p < |Mm1305Orientation180| && Mm1305Orientation180[p] != EmptySlot ==> 0 <= Mm1305Orientation180[p] < |Mm1305Orientation180Slots| && Mm1305Orientation180Slots[Mm1305Orientation180[p]] == p
  {
    forall p | 32 <= p < 48 && 0 <= p < |Mm1305Orientation180| && Mm1305Orientation180[p] != EmptySlot ensures 0 <= Mm1305Orientation180[p] < |Mm1305Orientation180Slots| && Mm1305Orientation180Slots[Mm1305Orientation180[p]] == p {
      if p == 32 {} else if p == 33 {} else if p == 34 {} else if p == 35 {} else if p == 36 {} else if p == 37 {} else if p == 38 {} else if p == 39 {} else
      if p == 40 {} else if p == 41 {} else if p == 42 {} else if p == 43 {} else if p == 44 {} else if p == 45 {} else if p == 46 {} else if p == 47 {}
    }
  }

  lemma Mm1305Orientation180SlotsBackFrom48()
    ensures forall p :: 48 <= p < 65 && 0 <= p < |Mm1305Orientation180| && Mm1305Orientation180[p] != EmptySlot ==> 0 <= Mm1305Orientation180[p] < |Mm1305Orientation180Slots| && Mm1305Orientation180Slots[Mm1305Orientation180[p]] == p
  {
    forall p | 48 <= p < 65 && 0 <= p < |Mm1305Orientation180| && Mm1305Orientation180[p] != EmptySlot ensures 0 <= Mm1305Orientation180[p] < |Mm1305Orientation180Slots| && Mm1305Orientation180Slots[Mm1305Orientation180[p]] == p {
      if p == 48 {} else if p == 49 {} else if p == 50 {} else if p == 51 {} else if p == 52 {} else if p == 53 {} else if p == 54 {} else if p == 55 {} else
      if p == 56 {} else if p == 57 {} else if p == 58 {} else if p == 59 {} else if p == 60 {} else if p == 61 {} else if p == 62 {} else if p == 63 {} else
      if p == 64 {}
    }
  }

  lemma Gr10mm0808Orientation180Inverts()
    ensures SlotsInvert(Gr10mm0808Orientation180, Gr10mm0808Orientation180Slots)
  {
    Gr10mm0808Orientation180Covers();
    Gr10mm0808Orientation180SlotsBack();
  }

  lemma Gr10mm0808Orientation180Covers()
    ensures forall c :: 0 <= c < |Gr10mm0808Orientation180Slots| ==> 0 <= Gr10mm0808Orientation180Slots[c] < |Gr10mm0808Orientation180| && Gr10mm0808Orientation180[Gr10mm0808Orientation180Slots[c]] == c
  {
    Gr10mm0808Orientation180CoversFrom0();
    Gr10mm0808Orientation180CoversFrom16();
    Gr10mm0808Orientation180CoversFrom32();
    Gr10mm0808Orientation180CoversFrom48();
  }

  lemma Gr10mm0808Orientation180CoversFrom0()
    ensures forall c :: 0 <= c < 16 && 0 <= c < |Gr10mm0808Orientation180Slots| ==> 0 <= Gr10mm0808Orientation180Slots[c] < |Gr10mm0808Orientation180| && Gr10mm0808Orientation180[Gr10mm0808Orientation180Slots[c]] == c
  {
    forall c | 0 <= c < 16 && 0 <= c < |Gr10mm0808Orientation180Slots| ensures 0 <= Gr10mm0808Orientation180Slots[c] < |Gr10mm0808Orientation180| && Gr10mm0808Orientation180[Gr10mm0808Orientation180Slots[c]] == c {
      if c == 0 {} else if c == 1 {} else if c == 2 {} else if c == 3 {} else if c == 4 {} else if c == 5 {} else if c == 6 {} else if c == 7 {} else
      if c == 8 {} else if c == 9 {} else if c == 10 {} else if c == 11 {} else if c == 12 {} else if c == 13 {} else if c == 14 {} else if c == 15 {}
    }
  }

  lemma Gr10mm0808Orientation180CoversFrom16()
    ensures forall c :: 16 <= c < 32 && 0 <= c < |Gr10mm0808Orientation180Slots| ==> 0 <= Gr10mm0808Orientation180Slots[c] < |Gr10mm0808Orientation180| && Gr10mm0808Orientation180[Gr10mm0808Orientation180Slots[c]] == c
  {
    forall c | 16 <= c < 32 && 0 <= c < |Gr10mm0808Orientation180Slots| ensures 0 <= Gr10mm0808Orientation180Slots[c] < |Gr10mm0808Orientation180| && Gr10mm0808Orientation180[Gr10mm0808Orientation180Slots[c]] == c {
      if c == 16 {} else if c == 17 {} else if c == 18 {} else if c == 19 {} else if c == 20 {} else if c == 21 {} else if c == 22 {} else if c == 23 {} else
      if c == 24 {} else if c == 25 {} else if c == 26 {} else if c == 27 {} else if c == 28 {} else if c == 29 {} else if c == 30 {} else if c == 31 {}
    }
  }

  lemma Gr10mm0808Orientation180CoversFrom32()
    ensures forall c :: 32 <= c < 48 && 0 <= c < |Gr10mm0808Orientation180Slots| ==> 0 <= Gr10mm0808Orientation180Slots[c] < |Gr10mm0808Orientation180| && Gr10mm0808Orientation180[Gr10mm0808Orientation180Slots[c]] == c
  {
    forall c | 32 <= c < 48 && 0 <= c < |Gr10mm0808Orientation180Slots| ensures 0 <= Gr10mm0808Orientation180Slots[c] < |Gr10mm0808Orientation180| && Gr10mm0808Orientation180[Gr10mm0808Orientation180Slots[c]] == c {
      if c == 32 {} else if c == 33 {} else if c == 34 {} else if c == 35 {} else if c == 36 {} else if c == 37 {} else if c == 38 {} else if c == 39 {} else
      if c == 40 {} else if c == 41 {} else if c == 42 {} else if c == 43 {} else if c == 44 {} else if c == 45 {} else if c == 46 {} else if c == 47 {}
    }
  }

  lemma Gr10mm0808Orientation180CoversFrom48()
    ensures forall c :: 48 <= c < 64 && 0 <= c < |Gr10mm0808Orientation180Slots| ==> 0 <= Gr10mm0808Orientation180Slots[c] < |Gr10mm0808Orientation180| && Gr10mm0808Orientation180[Gr10mm0808Orientation180Slots[c]] == c
  {
    forall c | 48 <= c < 64 && 0 <= c < |Gr10mm0808Orientation180Slots| ensures 0 <= Gr10mm0808Orientation180Slots[c] < |Gr10mm0808Orientation180| && Gr10mm0808Orientation180[Gr10mm0808Orientation180Slots[c]] == c {
      if c == 48 {} else if c == 49 {} else if c == 50 {} else if c == 51 {} else if c == 52 {} else if c == 53 {} else if c == 54 {} else if c == 55 {} else
      if c == 56 {} else if c == 57 {} else if c == 58 {} else if c == 59 {} else if c == 60 {} else if c == 61 {} else if c == 62 {} else if c == 63 {}
    }
  }

  lemma Gr10mm0808Orientation180SlotsBack()
    ensures forall p :: 0 <= p < |Gr10mm0808Orientation180| && Gr10mm0808Orientation180[p] != EmptySlot ==> 0 <= Gr10mm0808Orientation180[p] < |Gr10mm0808Orientation180Slots| && Gr10mm0808Orientation180Slots[Gr10mm0808Orientation180[p]] == p
  {
    Gr10mm0808Orientation180SlotsBackFrom0();
    Gr10mm0808Orientation180SlotsBackFrom16();
    Gr10mm0808Orientation180SlotsBackFrom32();
    Gr10mm0808Orientation180SlotsBackFrom48();
  }

  lemma Gr10mm0808Orientation180SlotsBackFrom0()
    ensures forall p :: 0 <= p < 16 && 0 <= p < |Gr10mm0808Orientation180| && Gr10mm0808Orientation180[p] != EmptySlot ==> 0 <= Gr10mm0808Orientation180[p] < |Gr10mm0808Orientation180Slots| && Gr10mm0808Orientation180Slots[Gr10mm0808Orientation180[p]] == p
  {
    forall p | 0 <= p < 16 && 0 <= p < |Gr10mm0808Orientation180| && Gr10mm0808Orientation180[p] != EmptySlot ensures 0 <= Gr10mm0808Orientation180[p] < |Gr10mm0808Orientation180Slots| && Gr10mm0808Orientation180Slots[Gr10mm0808Orientation180[p]] == p {
      if p == 0 {} else if p == 1 {} else if p == 2 {} else if p == 3 {} else if p == 4 {} else if p == 5 {} else if p == 6 {} else if p == 7 {} else
      if p == 8 {} else if p == 9 {} else if p == 10 {} else if p == 11 {} else if p == 12 {} else if p == 13 {} else if p == 14 {} else if p == 15 {}
    }
  }

  lemma Gr10mm0808Orientation180SlotsBackFrom16()
    ensures forall p :: 16 <= p < 32 && 0 <= p < |Gr10mm0808Orientation180| && Gr10mm0808Orientation180[p] != EmptySlot ==> 0 <= Gr10mm0808Orientation180[p] < |Gr10mm0808Orientation180Slots| && Gr10mm0808Orientation180Slots[Gr10mm0808Orientation180[p]] == p
  {
    forall p | 16 <= p < 32 && 0 <= p < |Gr10mm0808Orientation180| && Gr10mm0808Orientation180[p] != EmptySlot ensures 0 <= Gr10mm0808Orientation180[p] < |Gr10mm0808Orientation180Slots| && Gr10mm0808Orientation180Slots[Gr10mm0808Orientation180[p]] == p {
      if p == 16 {} else if p == 17 {} else if p == 18 {} else if p == 19 {} else if p == 20 {} else if p == 21 {} else if p == 22 {} else if p == 23 {} else
      if p == 24 {} else if p == 25 {} else if p == 26 {} else if p == 27 {} else if p == 28 {} else if p == 29 {} else if p == 30 {} else if p == 31 {}
    }
  }

  lemma Gr10mm0808Orientation180SlotsBackFrom32()
    ensures forall p :: 32 <= p < 48 && 0 <= p < |Gr10mm0808Orientation180| && Gr10mm0808Orientation180[p] != EmptySlot ==> 0 <= Gr10mm0808Orientation180[p] < |Gr10mm0808Orientation180Slots| && Gr10mm0808Orientation180Slots[Gr10mm0808Orientation180[p]] == p
  {
    forall p | 32 <= p < 48 && 0 <= p < |Gr10mm0808Orientation180| && Gr10mm0808Orientation180[p] != EmptySlot ensures 0 <= Gr10mm0808Orientation180[p] < |Gr10mm0808Orientation180Slots| && Gr10mm0808Orientation180Slots[Gr10mm0808Orientation180[p]] == p {
      if p == 32 {} else if p == 33 {} else if p == 34 {} else if p == 35 {} else if p == 36 {} else if p == 37 {} else if p == 38 {} else if p == 39 {} else
      if p == 40 {} else if p == 41 {} else if p == 42 {} else if p == 43 {} else if p == 44 {} else if p == 45 {} else if p == 46 {} else if p == 47 {}
    }
  }

  lemma Gr10mm0808Orientation180SlotsBackFrom48()
    ensures forall p :: 48 <= p < 64 && 0 <= p < |Gr10mm0808Orientation180| && Gr10mm0808Orientation180[p] != EmptySlot ==> 0 <= Gr10mm0808Orientation180[p] < |Gr10mm0808Orientation180Slots| && Gr10mm0808Orientation180Slots[Gr10mm0808Orientation180[p]] == p
  {
    forall p | 48 <= p < 64 && 0 <= p < |Gr10mm0808Orientation180| && Gr10mm0808Orientation180[p] != EmptySlot ensures 0 <= Gr10mm0808Orientation180[p] < |Gr10mm0808Orientation180Slots| && Gr10mm0808Orientation180Slots[Gr10mm0808Orientation180[p]] == p {
      if p == 48 {} else if p == 49 {} else if p == 50 {} else if p == 51 {} else if p == 52 {} else if p == 53 {} else if p == 54 {} else if p == 55 {} else
      if p == 56 {} else if p == 57 {} else if p == 58 {} else if p == 59 {} else if p == 60 {} else if p == 61 {} else if p == 62 {} else if p == 63 {}
    }
  }

  lemma Gr10mm0808Orientation0Inverts()
    ensures SlotsInvert(Gr10mm0808Orientation0, Gr10mm0808Orientation0Slots)
  {
    Gr10mm0808Orientation0Covers();
    Gr10mm0808Orientation0SlotsBack();
  }

  lemma Gr10mm0808Orientation0Covers()
    ensures forall c :: 0 <= c < |Gr10mm0808Orientation0Slots| ==> 0 <= Gr10mm0808Orientation0Slots[c] < |Gr10mm0808Orientation0| && Gr10mm0808Orientation0[Gr10mm0808Orientation0Slots[c]] == c
  {
    Gr10mm0808Orientation0CoversFrom0();
    Gr10mm0808Orientation0CoversFrom16();
    Gr10mm0808Orientation0CoversFrom32();
    Gr10mm0808Orientation0CoversFrom48();
  }

  lemma Gr10mm0808Orientation0CoversFrom0()
    ensures forall c :: 0 <= c < 16 && 0 <= c < |Gr10mm0808Orientation0Slots| ==> 0 <= Gr10mm0808Orientation0Slots[c] < |Gr10mm0808Orientation0| && Gr10mm0808Orientation0[Gr10mm0808Orientation0Slots[c]] == c
  {
    forall c | 0 <= c < 16 && 0 <= c < |Gr10mm0808Orientation0Slots| ensures 0 <= Gr10mm0808Orientation0Slots[c] < |Gr10mm0808Orientation0| && Gr10mm0808Orientation0[Gr10mm0808Orientation0Slots[c]] == c {
      if c == 0 {} else if c == 1 {} else if c == 2 {} else if c == 3 {} else if c == 4 {} else if c == 5 {} else if c == 6 {} else if c == 7 {} else
      if c == 8 {} else if c == 9 {} else if c == 10 {} else if c == 11 {} else if c == 12 {} else if c == 13 {} else if c == 14 {} else if c == 15 {}
    }
  }

  lemma Gr10mm0808Orientation0CoversFrom16()
    ensures forall c :: 16 <= c < 32 && 0 <= c < |Gr10mm0808Orientation0Slots| ==> 0 <= Gr10mm0808Orientation0Slots[c] < |Gr10mm0808Orientation0| && Gr10mm0808Orientation0[Gr10mm0808Orientation0Slots[c]] == c
  {
    forall c | 16 <= c < 32 && 0 <= c < |Gr10mm0808Orientation0Slots| ensures 0 <= Gr10mm0808Orientation0Slots[c] < |Gr10mm0808Orientation0| && Gr10mm0808Orientation0[Gr10mm0808Orientation0Slots[c]] == c {
      if c == 16 {} else if c == 17 {} else if c == 18 {} else if c == 19 {} else if c == 20 {} else if c == 21 {} else if c == 22 {} else if c == 23 {} else
      if c == 24 {} else if c == 25 {} else if c == 26 {} else if c == 27 {} else if c == 28 {} else if c == 29 {} else if c == 30 {} else if c == 31 {}
    }
  }

  lemma Gr10mm0808Orientation0CoversFrom32()
    ensures forall c :: 32 <= c < 48 && 0 <= c < |Gr10mm0808Orientation0Slots| ==> 0 <= Gr10mm0808Orientation0Slots[c] < |Gr10mm0808Orientation0| && Gr10mm0808Orientation0[Gr10mm0808Orientation0Slots[c]] == c
  {
    forall c | 32 <= c < 48 && 0 <= c < |Gr10mm0808Orientation0Slots| ensures 0 <= Gr10mm0808Orientation0Slots[c] < |Gr10mm0808Orientation0| && Gr10mm0808Orientation0[Gr10mm0808Orientation0Slots[c]] == c {
      if c == 32 {} else if c == 33 {} else if c == 34 {} else if c == 35 {} else if c == 36 {} else if c == 37 {} else if c == 38 {} else if c == 39 {} else
      if c == 40 {} else if c == 41 {} else if c == 42 {} else if c == 43 {} else if c == 44 {} else if c == 45 {} else if c == 46 {} else if c == 47 {}
    }
  }

  lemma Gr10mm0808Orientation0CoversFrom48()
    ensures forall c :: 48 <= c < 64 && 0 <= c < |Gr10mm0808Orientation0Slots| ==> 0 <= Gr10mm0808Orientation0Slots[c] < |Gr10mm0808Orientation0| && Gr10mm0808Orientation0[Gr10mm0808Orientation0Slots[c]] == c
  {
    forall c | 48 <= c < 64 && 0 <= c < |Gr10mm0808Orientation0Slots| ensures 0 <= Gr10mm0808Orientation0Slots[c] < |Gr10mm0808Orientation0| && Gr10mm0808Orientation0[Gr10mm0808Orientation0Slots[c]] == c {
      if c == 48 {} else if c == 49 {} else if c == 50 {} else if c == 51 {} else if c == 52 {} else if c == 53 {} else if c == 54 {} else if c == 55 {} else
      if c == 56 {} else if c == 57 {} else if c == 58 {} else if c == 59 {} else if c == 60 {} else if c == 61 {} else if c == 62 {} else if c == 63 {}
    }
  }

  lemma Gr10mm0808Orientation0SlotsBack()
    ensures forall p :: 0 <= p < |Gr10mm0808Orientation0| && Gr10mm0808Orientation0[p] != EmptySlot ==> 0 <= Gr10mm0808Orientation0[p] < |Gr10mm0808Orientation0Slots| && Gr10mm0808Orientation0Slots[Gr10mm0808Orientation0[p]] == p
  {
    Gr10mm0808Orientation0SlotsBackFrom0();
    Gr10mm0808Orientation0SlotsBackFrom16();
    Gr10mm0808Orientation0SlotsBackFrom32();
    Gr10mm0808Orientation0SlotsBackFrom48();
  }

  lemma Gr10mm0808Orientation0SlotsBackFrom0()
    ensures forall p :: 0 <= p < 16 && 0 <= p < |Gr10mm0808Orientation0| && Gr10mm0808Orientation0[p] != EmptySlot ==> 0 <= Gr10mm0808Orientation0[p] < |Gr10mm0808Orientation0Slots| && Gr10mm0808Orientation0Slots[Gr10mm0808Orientation0[p]] == p
  {
    forall p | 0 <= p < 16 && 0 <= p < |Gr10mm0808Orientation0| && Gr10mm0808Orientation0[p] != EmptySlot ensures 0 <= Gr10mm0808Orientation0[p] < |Gr10mm0808Orientation0Slots| && Gr10mm0808Orientation0Slots[Gr10mm0808Orientation0[p]] == p {
      if p == 0 {} else if p == 1 {} else if p == 2 {} else if p == 3 {} else if p == 4 {} else if p == 5 {} else if p == 6 {} else if p == 7 {} else
      if p == 8 {} else if p == 9 {} else if p == 10 {} else if p == 11 {} else if p == 12 {} else if p == 13 {} else if p == 14 {} else if p == 15 {}
    }
  }

  lemma Gr10mm0808Orientation0SlotsBackFrom16()
    ensures forall p :: 16 <= p < 32 && 0 <= p < |Gr10mm0808Orientation0| && Gr10mm0808Orientation0[p] != EmptySlot ==> 0 <= Gr10mm0808Orientation0[p] < |Gr10mm0808Orientation0Slots| && Gr10mm0808Orientation0Slots[Gr10mm0808Orientation0[p]] == p
  {
    forall p | 16 <= p < 32 && 0 <= p < |Gr10mm0808Orientation0| && Gr10mm0808Orientation0[p] != EmptySlot ensures 0 <= Gr10mm0808Orientation0[p] < |Gr10mm0808Orientation0Slots| && Gr10mm0808Orientation0Slots[Gr10mm0808Orientation0[p]] == p {
      if p == 16 {} else if p == 17 {} else if p == 18 {} else if p == 19 {} else if p == 20 {} else if p == 21 {} else if p == 22 {} else if p == 23 {} else
      if p == 24 {} else if p == 25 {} else if p == 26 {} else if p == 27 {} else if p == 28 {} else if p == 29 {} else if p == 30 {} else if p == 31 {}
    }
  }

  lemma Gr10mm0808Orientation0SlotsBackFrom32()
    ensures forall p :: 32 <= p < 48 && 0 <= p < |Gr10mm0808Orientation0| && Gr10mm0808Orientation0[p] != EmptySlot ==> 0 <= Gr10mm0808Orientation0[p] < |Gr10mm0808Orientation0Slots| && Gr10mm0808Orientation0Slots[Gr10mm0808Orientation0[p]] == p
  {
    forall p | 32 <= p < 48 && 0 <= p < |Gr10mm0808Orientation0| && Gr10mm0808Orientation0[p] != EmptySlot ensures 0 <= Gr10mm0808Orientation0[p] < |Gr10mm0808Orientation0Slots| && Gr10mm0808Orientation0Slots[Gr10mm0808Orientation0[p]] == p {
      if p == 32 {} else if p == 33 {} else if p == 34 {} else if p == 35 {} else if p == 36 {} else if p == 37 {} else if p == 38 {} else if p == 39 {} else
      if p == 40 {} else if p == 41 {} else if p == 42 {} else if p == 43 {} else if p == 44 {} else if p == 45 {} else if p == 46 {} else if p == 47 {}
    }
  }

  lemma Gr10mm0808Orientation0SlotsBackFrom48()
    ensures forall p :: 48 <= p < 64 && 0 <= p < |Gr10mm0808Orientation0| && Gr10mm0808Orientation0[p] != EmptySlot ==> 0 <= Gr10mm0808Orientation0[p] < |Gr10mm0808Orientation0Slots| && Gr10mm0808Orientation0Slots[Gr10mm0808Orientation0[p]] == p
  {
    forall p | 48 <= p < 64 && 0 <= p < |Gr10mm0808Orientation0| && Gr10mm0808Orientation0[p] != EmptySlot ensures 0 <= Gr10mm0808Orientation0[p] < |Gr10mm0808Orientation0Slots| && Gr10mm0808Orientation0Slots[Gr10mm0808Orientation0[p]] == p {
      if p == 48 {} else if p == 49 {} else if p == 50 {} else if p == 51 {} else if p == 52 {} else if p == 53 {} else if p == 54 {} else if p == 55 {} else
      if p == 56 {} else if p == 57 {} else if p == 58 {} else if p == 59 {} else if p == 60 {} else if p == 61 {} else if p == 62 {} else if p == 63 {}
    }
  }

  /** The GR08MM1305/GR04MM1305 orientation-0 table: 65 slots, channels 0..63 once each, slot 64 empty. */
  lemma Mm1305Orientation0Channels()
    ensures |Mm1305Orientation0| == 65 && ChannelsOnce(Mm1305Orientation0, 64)
    ensures Mm1305Orientation0[64] == EmptySlot
    ensures forall p :: 0 <= p < 64 ==> Mm1305Orientation0[p] != EmptySlot
  {
    Mm1305Orientation0Inverts();
    InverseShowsChannelsOnce(Mm1305Orientation0, Mm1305Orientation0Slots);
  }

  /** The GR08MM1305/GR04MM1305 orientation-180 table: 65 slots, channels 0..63 once each, slot 0 empty. */
  lemma Mm1305Orientation180Channels()
    ensures |Mm1305Orientation180| == 65 && ChannelsOnce(Mm1305Orientation180, 64)
    ensures Mm1305Orientation180[0] == EmptySlot
    ensures forall p :: 0 < p < 65 ==> Mm1305Orientation180[p] != EmptySlot
  {
    Mm1305Orientation180Inverts();
    InverseShowsChannelsOnce(Mm1305Orientation180, Mm1305Orientation180Slots);
  }

  /** The GR10MM0808 orientation-180 table is a permutation of channels 0..63 (no empty slot). */
  lemma Gr10mm0808Orientation180Channels()
    ensures |Gr10mm0808Orientation180| == 64 && ChannelsOnce(Gr10mm0808Orientation180, 64)
    ensures forall p :: 0 <= p < 64 ==> Gr10mm0808Orientation180[p] != EmptySlot
  {
    Gr10mm0808Orientation180Inverts();
    InverseShowsChannelsOnce(Gr10mm0808Orientation180, Gr10mm0808Orientation180Slots);
  }

  /** The corrected GR10MM0808 orientation-0 table is a permutation of channels 0..63. */
  lemma Gr10mm0808Orientation0Channels()
    ensures |Gr10mm0808Orientation0| == 64 && ChannelsOnce(Gr10mm0808Orientation0, 64)
    ensures forall p :: 0 <= p < 64 ==> Gr10mm0808Orientation0[p] != EmptySlot
  {
    Gr10mm0808Orientation0Inverts();
    InverseShowsChannelsOnce(Gr10mm0808Orientation0, Gr10mm0808Orientation0Slots);
  }

  /**
   * The GR10MM0808 orientation-0 table as written sends channel 33 to two
   * slots and channel 32 to none, so it is not a permutation: after sorting,
   * channel 32 is lost and channel 33 shown twice.
   */
  lemma Gr10mm0808Orientation0AsWrittenRepeats()
    ensures |Gr10mm0808Orientation0AsWritten| == 64
    ensures Gr10mm0808Orientation0AsWritten[24] == 33 && Gr10mm0808Orientation0AsWritten[25] == 33
    ensures forall p :: 0 <= p < 64 ==> Gr10mm0808Orientation0AsWritten[p] != 32
    ensures !ChannelsOnce(Gr10mm0808Orientation0AsWritten, 64)
  {
    assert Gr10mm0808Orientation0AsWritten[24] == Gr10mm0808Orientation0AsWritten[25] != EmptySlot;
  }

  /** The two tables differ in the one slot only. */
  lemma Gr10mm0808Orientation0Correction()
    ensures |Gr10mm0808Orientation0| == |Gr10mm0808Orientation0AsWritten|
    ensures forall p :: 0 <= p < 64 && p != 24 ==> Gr10mm0808Orientation0[p] == Gr10mm0808Orientation0AsWritten[p]
    ensures Gr10mm0808Orientation0[24] == 32
  {
  }

  /** The codes `sort_rawemg` accepts. */
  predicate SupportedCode(code: string)
  {
    code in ["GR08MM1305", "GR04MM1305", "GR10MM0808", "None"]
  }

  /**
   * The sorting table of a matrix code and orientation, as the source writes
   * it; None when the source leaves it unset.  The GR10MM0808 orientation-0
   * table shows channel 33 in slots 24 and 25 and never shows channel 32.
   */
  function SortingTable(code: string, orientation: int): (r: Option<seq<int>>)
    ensures r.Some? <==> (code in ["GR08MM1305", "GR04MM1305", "GR10MM0808"] && orientation in [0, 180])
    ensures r.Some? && code != "GR10MM0808" ==> |r.value| == 65 && ChannelsOnce(r.value, 64)
    ensures r.Some? && code == "GR10MM0808" ==> |r.value| == 64
    ensures r.Some? && code == "GR10MM0808" && orientation == 180 ==> ChannelsOnce(r.value, 64)
    ensures r.Some? && code == "GR10MM0808" && orientation == 0 ==>
      r.value[24] == 33 && r.value[25] == 33 && 32 !in r.value && !ChannelsOnce(r.value, 64)
  {
    Mm1305Orientation0Channels();
    Mm1305Orientation180Channels();
    Gr10mm0808Orientation0AsWrittenRepeats();
    Gr10mm0808Orientation180Channels();
    if code in ["GR08MM1305", "GR04MM1305"] then
      if orientation == 0 then Some(Mm1305Orientation0)
      else if orientation == 180 then Some(Mm1305Orientation180)
      else None
    else if code == "GR10MM0808" then
      if orientation == 0 then Some(Gr10mm0808Orientation0AsWritten)
      else if orientation == 180 then Some(Gr10mm0808Orientation180)
      else None
    else None
  }

  /**
   * The sorting tables as intended: the same tables, except that the
   * GR10MM0808 orientation-0 table holds channel 32 in slot 24.  Every
   * intended table shows each channel once.
   */
  function IntendedSortingTable(code: string, orientation: int): (r: Option<seq<int>>)
    ensures r.Some? <==> SortingTable(code, orientation).Some?
    ensures r.Some? ==> |r.value| == |SortingTable(code, orientation).value| && ChannelsOnce(r.value, 64)
    ensures r.Some? ==> forall p :: 0 <= p < |r.value| && r.value[p] != SortingTable(code, orientation).value[p] ==>
      code == "GR10MM0808" && orientation == 0 && p == 24 && r.value[p] == 32
  {
    Gr10mm0808Orientation0Channels();
    Gr10mm0808Orientation0Correction();
    if code == "GR10MM0808" && orientation == 0 then Some(Gr10mm0808Orientation0)
    else SortingTable(code, orientation)
  }

  /** What `sort_rawemg` gives back: one frame, a dict of column blocks, or an exception object. */
  datatype SortedRaw = Flat(frame: Frame) | ByColumn(keys: seq<string>, blocks: seq<Frame>) | ReturnedError(error: Error)

  /** The key of matrix column k. */
  function ColumnKey(k: nat): string
  {
    "col" + NatToString(k)
  }

  /** `frame.iloc[:, a:b]`: the channels at positions a..b-1 (clamped). */
  function ColumnBlock(f: Frame, a: int, b: int): (g: Frame)
    ensures g.rows == f.rows && g.cols == PySlice(f.cols, a, b)
  {
    Frame(f.rows, PySlice(f.cols, a, b))
  }

  /** Fills the dict: block k holds the channels [nRows*k, nRows*(k+1)). */
  method DivideByColumn(f: Frame, nRows: int, nCols: int) returns (keys: seq<string>, blocks: seq<Frame>)
    ensures |keys| == |blocks| == Max(nCols, 0)
    ensures forall k :: 0 <= k < |blocks| ==> keys[k] == ColumnKey(k) && blocks[k] == ColumnBlock(f, nRows * k, nRows * (k + 1))
  {
    keys, blocks := [], [];
    var pos := 0;
    while pos < nCols
      invariant 0 <= pos <= Max(nCols, 0)
      invariant |keys| == |blocks| == pos
      invariant forall k :: 0 <= k < pos ==> keys[k] == ColumnKey(k) && blocks[k] == ColumnBlock(f, nRows * k, nRows * (k + 1))
    {
      keys := keys + [ColumnKey(pos)];
      blocks := blocks + [ColumnBlock(f, nRows * pos, nRows * (pos + 1))];
      pos := pos + 1;
    }
  }

  /** The channels of the blocks, block after block. */
  function Flatten(blocks: seq<Frame>): seq<Column>
  {
    if blocks == [] then [] else Flatten(blocks[..|blocks| - 1]) + blocks[|blocks| - 1].cols
  }

  /**
   * When nRows * nCols is the channel count, the blocks col0..col{nCols-1}
   * hold nRows channels each and together all channels, in order.
   */
  lemma {:induction false} BlocksPartitionChannels(f: Frame, nRows: nat, nCols: nat, blocks: seq<Frame>, m: nat)
    requires nRows > 0 && nRows * nCols == |f.cols| && m <= nCols
    requires |blocks| == nCols && forall k :: 0 <= k < nCols ==> blocks[k] == ColumnBlock(f, nRows * k, nRows * (k + 1))
    ensures Flatten(blocks[..m]) == f.cols[..nRows * m]
    ensures forall k :: 0 <= k < m ==> |blocks[k].cols| == nRows
  {
    if m > 0 {
      BlocksPartitionChannels(f, nRows, nCols, blocks, m - 1);
      MulMonotone(nRows, m, nCols);
      assert nRows * m == nRows * (m - 1) + nRows;
      assert blocks[..m][..m - 1] == blocks[..m - 1];
      assert blocks[m - 1].cols == f.cols[nRows * (m - 1)..nRows * m];
      assert f.cols[..nRows * m] == f.cols[..nRows * (m - 1)] + f.cols[nRows * (m - 1)..nRows * m];
    }
  }

  lemma MulMonotone(a: nat, m: nat, n: nat)
    requires m <= n
    ensures a * m <= a * n
  {
  }

  /** The column layout `sort_rawemg` splits a supported matrix into: 13 x 5 or 8 x 8. */
  function MatrixShape(code: string): (int, int)
  {
    if code in ["GR08MM1305", "GR04MM1305"] then (13, 5) else (8, 8)
  }

  /** The sorted RAW_SIGNAL before any split: reindexed by the table, or the raw copy for "None". */
  function SortedFrame(raw: Frame, code: string, table: Option<seq<int>>): Frame
    requires code == "None" || table.Some?
  {
    if code == "None" then raw else ReindexColumns(raw, table.value)
  }

  /** For a supported matrix the shape always matches the sorted channel count, so the split cannot fail. */
  lemma MatrixShapeFitsTable(code: string, orientation: int, raw: Frame)
    requires code != "None" && SortingTable(code, orientation).Some?
    ensures MatrixShape(code).0 * MatrixShape(code).1 == |SortedFrame(raw, code, SortingTable(code, orientation)).cols|
    ensures MatrixShape(code).0 * MatrixShape(code).1 == |SortedFrame(raw, code, IntendedSortingTable(code, orientation)).cols|
  {
  }

  /**
   * The outcome of `sort_rawemg` with the sorting table `table`.  An
   * unsupported code gives back (does not raise) a ValueError; a supported
   * matrix whose table is unset (an orientation other than 0/180) is a
   * NameError.  The channels are reindexed by the table and relabelled,
   * "None" keeps them as they are; with `dividebycolumn` they are split
   * into the matrix columns, "None" needing integer `n_rows`/`n_cols`, and
   * a shape that does not match the channel count is a ValueError.
   */
  predicate SortOutcome(raw: Frame, code: string, table: Option<seq<int>>, dividebycolumn: bool,
                        nRows: Option<int>, nCols: Option<int>, r: Result<SortedRaw>)
  {
    (!SupportedCode(code) ==> r == Ok(ReturnedError(ValueError)))
    && (SupportedCode(code) && code != "None" && table.None? ==> r == Err(NameError))
    && (SupportedCode(code) && (code == "None" || table.Some?) ==>
      var s := SortedFrame(raw, code, table);
      (!dividebycolumn ==> r == Ok(Flat(s)))
      && (dividebycolumn && code == "None" && (nRows.None? || nCols.None?) ==> r == Err(ValueError))
      && (dividebycolumn && (code != "None" || (nRows.Some? && nCols.Some?)) ==>
            var (nr, nc) := if code == "None" then (nRows.value, nCols.value) else MatrixShape(code);
            (nr * nc != |s.cols| ==> r == Err(ValueError))
            && (nr * nc == |s.cols| ==>
                  r.Ok? && r.value.ByColumn? && |r.value.blocks| == |r.value.keys| == Max(nc, 0)
                  && forall k :: 0 <= k < |r.value.blocks| ==>
                       r.value.keys[k] == ColumnKey(k) && r.value.blocks[k] == ColumnBlock(s, nr * k, nr * (k + 1)))))
  }

  /** The statements of `sort_rawemg`, run with the table `table`. */
  method SortBy(raw: Frame, code: string, table: Option<seq<int>>, dividebycolumn: bool, nRows: Option<int>, nCols: Option<int>)
    returns (r: Result<SortedRaw>)
    ensures SortOutcome(raw, code, table, dividebycolumn, nRows, nCols, r)
  {
    if !SupportedCode(code) {
      return Ok(ReturnedError(ValueError));
    }
    if code != "None" && table.None? {
      return Err(NameError);
    }
    var s := SortedFrame(raw, code, table);
    if !dividebycolumn {
      return Ok(Flat(s));
    }
    var nr, nc;
    if code != "None" {
      nr, nc := MatrixShape(code).0, MatrixShape(code).1;
    } else {
      if nRows.None? || nCols.None? {
        return Err(ValueError);
      }
      nr, nc := nRows.value, nCols.value;
    }
    if nr * nc != |s.cols| {
      return Err(ValueError);
    }
    var keys, blocks := DivideByColumn(s, nr, nc);
    return Ok(ByColumn(keys, blocks));
  }

  /** `sort_rawemg` as written, with the source's sorting tables. */
  method SortRawemg(raw: Frame, code: string, orientation: int, dividebycolumn: bool, nRows: Option<int>, nCols: Option<int>)
    returns (r: Result<SortedRaw>)
    ensures SortOutcome(raw, code, SortingTable(code, orientation), dividebycolumn, nRows, nCols, r)
  {
    r := SortBy(raw, code, SortingTable(code, orientation), dividebycolumn, nRows, nCols);
  }

  /** `sort_rawemg` as intended, with the corrected GR10MM0808 orientation-0 table. */
  method SortRawemgIntended(raw: Frame, code: string, orientation: int, dividebycolumn: bool, nRows: Option<int>, nCols: Option<int>)
    returns (r: Result<SortedRaw>)
    ensures SortOutcome(raw, code, IntendedSortingTable(code, orientation), dividebycolumn, nRows, nCols, r)
  {
    r := SortBy(raw, code, IntendedSortingTable(code, orientation), dividebycolumn, nRows, nCols);
  }

  /**
   * As written, sorting a 64-channel GR10MM0808 recording with orientation
   * 0 shows raw channel 33 in sorted columns 24 and 25, and no sorted
   * column is raw channel 32.
   */
  lemma SortedGr10mm0808Orientation0Repeats33(raw: Frame)
    requires |raw.cols| == 64
    ensures SortingTable("GR10MM0808", 0) == Some(Gr10mm0808Orientation0AsWritten)
    ensures var s := SortedFrame(raw, "GR10MM0808", Some(Gr10mm0808Orientation0AsWritten));
      |s.cols| == 64 && s.cols[24] == raw.cols[33] && s.cols[25] == raw.cols[33]
      && forall k :: 0 <= k < 64 ==> 0 <= Gr10mm0808Orientation0AsWritten[k] < 64 && Gr10mm0808Orientation0AsWritten[k] != 32
                                     && s.cols[k] == raw.cols[Gr10mm0808Orientation0AsWritten[k]]
  {
    SortingTableGr10mm0808Orientation0();
    SortedAsWrittenSlots(raw);
    SortedAsWrittenColumns(raw);
  }

  lemma SortingTableGr10mm0808Orientation0()
    ensures SortingTable("GR10MM0808", 0) == Some(Gr10mm0808Orientation0AsWritten)
  {
  }

  lemma SortedAsWrittenSlots(raw: Frame)
    requires |raw.cols| == 64
    ensures var s := SortedFrame(raw, "GR10MM0808", Some(Gr10mm0808Orientation0AsWritten));
      |s.cols| == 64 && s.cols[24] == raw.cols[33] && s.cols[25] == raw.cols[33]
  {
    Gr10mm0808Orientation0AsWrittenRepeats();
  }

  lemma SortedAsWrittenColumns(raw: Frame)
    requires |raw.cols| == 64
    ensures var s := SortedFrame(raw, "GR10MM0808", Some(Gr10mm0808Orientation0AsWritten));
      forall k :: 0 <= k < 64 ==> 0 <= Gr10mm0808Orientation0AsWritten[k] < 64 && Gr10mm0808Orientation0AsWritten[k] != 32
                                  && s.cols[k] == raw.cols[Gr10mm0808Orientation0AsWritten[k]]
  {
    Gr10mm0808Orientation0AsWrittenRepeats();
    Gr10mm0808Orientation0AsWrittenRange();
  }

  lemma Gr10mm0808Orientation0AsWrittenRange()
    ensures |Gr10mm0808Orientation0AsWritten| == 64
    ensures forall k :: 0 <= k < 64 ==> 0 <= Gr10mm0808Orientation0AsWritten[k] < 64
  {
    Gr10mm0808Orientation0Channels();
    Gr10mm0808Orientation0Correction();
    forall k | 0 <= k < 64 ensures 0 <= Gr10mm0808Orientation0AsWritten[k] < 64 {
      if k != 24 {
        assert Gr10mm0808Orientation0AsWritten[k] == Gr10mm0808Orientation0[k];
        assert Gr10mm0808Orientation0[k] != EmptySlot;
      }
    }
  }

  /**
   * The intended sort differs from the written one in sorted column 24 of
   * GR10MM0808 with orientation 0 only, where it shows raw channel 32.
   */
  lemma IntendedSortDiffersInColumn24(raw: Frame, code: string, orientation: int)
    requires code != "None" && SortingTable(code, orientation).Some?
    ensures var w := SortedFrame(raw, code, SortingTable(code, orientation));
      var i := SortedFrame(raw, code, IntendedSortingTable(code, orientation));
      i.rows == w.rows && |i.cols| == |w.cols|
      && (forall k :: 0 <= k < |i.cols| && i.cols[k] != w.cols[k] ==> code == "GR10MM0808" && orientation == 0 && k == 24)
      && (code == "GR10MM0808" && orientation == 0 && |raw.cols| == 64 ==> i.cols[24] == raw.cols[32])
  {
  }
}
