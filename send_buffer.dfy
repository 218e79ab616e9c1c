/**
 * The send arrays of the two plot windows (MaxPlot.cpp and BeiFen/MaxPlot.cpp):
 * channel_send_id, red_send_data and ir_send_data, int arrays of DATA_NUM
 * slots filled at count_data. Both windows write a slot as
 * red_send_data[count_data] = red; red_send_data[count_data++] = ir; so the
 * IR value replaces the red one and ir_send_data is never written. The
 * intended writes (red into red_send_data, IR into ir_send_data) are
 * modelled beside them.
 */
module SendBuffer {
  import opened Text

  /** The size of each send array. */
  const DATA_NUM: int := 200005

  /** How a slot's two sample values are stored. */
  datatype SlotWrites = AsWritten | Intended

  /**
   * The three send arrays as values. The sample arrays are int arrays that
   * receive uint32_t values; an int slot holds the same 32 bits, so samples
   * are kept as bv32.
   */
  datatype SendArrays = SendArrays(ids: seq<int>, red: seq<bv32>, ir: seq<bv32>)

  predicate Sized(a: SendArrays) { |a.ids| == DATA_NUM && |a.red| == DATA_NUM && |a.ir| == DATA_NUM }

  /** Slot at gets channel ch and the values r and i, stored as w says. */
  function WriteSlot(w: SlotWrites, a: SendArrays, at: int, ch: int, r: bv32, i: bv32): (b: SendArrays)
    requires Sized(a) && 0 <= at < DATA_NUM
    ensures Sized(b)
  {
    if w == AsWritten then SendArrays(a.ids[at := ch], a.red[at := r][at := i], a.ir)
    else SendArrays(a.ids[at := ch], a.red[at := r], a.ir[at := i])
  }

  /** Rows: channels chs with values reds and irs, stored at slots at, at + 1, ..., from entry j on. */
  predicate RowFits(a: SendArrays, at: int, chs: seq<int>, reds: seq<bv32>, irs: seq<bv32>)
  {
    Sized(a) && |reds| == |chs| && |irs| == |chs| && 0 <= at && at + |chs| <= DATA_NUM
  }

  function WriteRow(w: SlotWrites, a: SendArrays, at: int, chs: seq<int>, reds: seq<bv32>, irs: seq<bv32>, j: nat): (b: SendArrays)
    requires RowFits(a, at, chs, reds, irs) && j <= |chs|
    ensures Sized(b)
    decreases |chs| - j
  {
    if j == |chs| then a
    else WriteRow(w, WriteSlot(w, a, at + j, chs[j], reds[j], irs[j]), at, chs, reds, irs, j + 1)
  }

  /**
   * As written: slot at + k holds channel chs[k] and, in the red array, the
   * IR value irs[k]; the IR array is untouched, and so is every slot outside
   * the row.
   */
  lemma {:induction false} RowAsWritten(a: SendArrays, at: int, chs: seq<int>, reds: seq<bv32>, irs: seq<bv32>, j: nat)
    requires RowFits(a, at, chs, reds, irs) && j <= |chs|
    ensures var b := WriteRow(AsWritten, a, at, chs, reds, irs, j);
      b.ir == a.ir &&
      (forall k :: 0 <= k < DATA_NUM && !(at + j <= k < at + |chs|) ==> b.ids[k] == a.ids[k] && b.red[k] == a.red[k]) &&
      (forall k :: j <= k < |chs| ==> b.ids[at + k] == chs[k] && b.red[at + k] == irs[k])
    decreases |chs| - j
  {
    if j < |chs| {
      RowAsWritten(WriteSlot(AsWritten, a, at + j, chs[j], reds[j], irs[j]), at, chs, reds, irs, j + 1);
    }
  }

  /**
   * Intended: slot at + k holds channel chs[k], red value reds[k] and IR value
   * irs[k]; every slot outside the row is untouched.
   */
  lemma {:induction false} RowIntended(a: SendArrays, at: int, chs: seq<int>, reds: seq<bv32>, irs: seq<bv32>, j: nat)
    requires RowFits(a, at, chs, reds, irs) && j <= |chs|
    ensures var b := WriteRow(Intended, a, at, chs, reds, irs, j);
      (forall k :: 0 <= k < DATA_NUM && !(at + j <= k < at + |chs|) ==> b.ids[k] == a.ids[k] && b.red[k] == a.red[k] && b.ir[k] == a.ir[k]) &&
      (forall k :: j <= k < |chs| ==> b.ids[at + k] == chs[k] && b.red[at + k] == reds[k] && b.ir[at + k] == irs[k])
    decreases |chs| - j
  {
    if j < |chs| {
      RowIntended(WriteSlot(Intended, a, at + j, chs[j], reds[j], irs[j]), at, chs, reds, irs, j + 1);
    }
  }

  /**
   * The red sample of a row is lost as written: whenever a red and an IR
   * value differ, the red array does not hold the red value, which the
   * intended writes store.
   */
  lemma RedLostAsWritten(a: SendArrays, at: int, chs: seq<int>, reds: seq<bv32>, irs: seq<bv32>, k: nat)
    requires RowFits(a, at, chs, reds, irs) && k < |chs| && reds[k] != irs[k]
    ensures WriteRow(AsWritten, a, at, chs, reds, irs, 0).red[at + k] != reds[k]
    ensures WriteRow(Intended, a, at, chs, reds, irs, 0).red[at + k] == reds[k]
  {
    RowAsWritten(a, at, chs, reds, irs, 0);
    RowIntended(a, at, chs, reds, irs, 0);
  }

  /** A row written from slot 0, as written: its prefix holds the channels, the IR values in the red array, and the old IR slots. */
  lemma RowPrefixAsWritten(a: SendArrays, chs: seq<int>, reds: seq<bv32>, irs: seq<bv32>)
    requires RowFits(a, 0, chs, reds, irs)
    ensures var b := WriteRow(AsWritten, a, 0, chs, reds, irs, 0);
      b.ids[..|chs|] == chs && b.red[..|chs|] == irs && b.ir[..|chs|] == a.ir[..|chs|]
  {
    RowAsWritten(a, 0, chs, reds, irs, 0);
    var b := WriteRow(AsWritten, a, 0, chs, reds, irs, 0);
    assert forall k :: 0 <= k < |chs| ==> b.ids[k] == chs[k] && b.red[k] == irs[k];
  }

  /** A row written from slot 0 with the intended writes: its prefix holds the channels, the red values and the IR values. */
  lemma RowPrefixIntended(a: SendArrays, chs: seq<int>, reds: seq<bv32>, irs: seq<bv32>)
    requires RowFits(a, 0, chs, reds, irs)
    ensures var b := WriteRow(Intended, a, 0, chs, reds, irs, 0);
      b.ids[..|chs|] == chs && b.red[..|chs|] == reds && b.ir[..|chs|] == irs
  {
    RowIntended(a, 0, chs, reds, irs, 0);
    var b := WriteRow(Intended, a, 0, chs, reds, irs, 0);
    assert forall k :: 0 <= k < |chs| ==> b.ids[k] == chs[k] && b.red[k] == reds[k] && b.ir[k] == irs[k];
  }

  /** Writing slot at + j moves a partly written row on by one entry. */
  lemma RowAdvance(w: SlotWrites, cur: SendArrays, next: SendArrays, at: int, chs: seq<int>, reds: seq<bv32>, irs: seq<bv32>, j: nat, whole: SendArrays)
    requires RowFits(cur, at, chs, reds, irs) && j < |chs|
    requires WriteRow(w, cur, at, chs, reds, irs, j) == whole
    requires next == WriteSlot(w, cur, at + j, chs[j], reds[j], irs[j])
    ensures RowFits(next, at, chs, reds, irs)
    ensures WriteRow(w, next, at, chs, reds, irs, j + 1) == whole
    ensures j + 1 == |chs| ==> next == whole
  {
  }

  /** One step of a row. */
  lemma WriteRowStep(w: SlotWrites, a: SendArrays, at: int, chs: seq<int>, reds: seq<bv32>, irs: seq<bv32>, j: nat)
    requires RowFits(a, at, chs, reds, irs) && j < |chs|
    ensures WriteRow(w, a, at, chs, reds, irs, j)
      == WriteRow(w, WriteSlot(w, a, at + j, chs[j], reds[j], irs[j]), at, chs, reds, irs, j + 1)
  {
  }

  /** One batch handed to the sending thread: the time stamps, the first count_data slots of each array and the ids. */
  datatype Batch = Batch(start: string, end: string, ids: seq<int>, red: seq<bv32>, ir: seq<bv32>, sampleId: string, uuid: string)

  /** The three send arrays, owned by a plot window and written in place. */
  class Arrays {
    const channelSendId: array<int>
    const redSendData: array<bv32>
    const irSendData: array<bv32>
    const writes: SlotWrites

    ghost predicate Valid()
      reads this
    {
      channelSendId.Length == DATA_NUM && redSendData.Length == DATA_NUM && irSendData.Length == DATA_NUM &&
      channelSendId as object != redSendData && channelSendId as object != irSendData && redSendData != irSendData
    }

    function Contents(): (a: SendArrays)
      reads this, channelSendId, redSendData, irSendData
      requires Valid()
      ensures Sized(a)
    {
      SendArrays(channelSendId[..], redSendData[..], irSendData[..])
    }

    /** Member arrays of a window: their initial contents are whatever the memory held. */
    constructor (w: SlotWrites)
      ensures Valid() && writes == w
      ensures fresh(channelSendId) && fresh(redSendData) && fresh(irSendData)
    {
      writes := w;
      channelSendId := new int[DATA_NUM];
      redSendData := new bv32[DATA_NUM];
      irSendData := new bv32[DATA_NUM];
    }

    /** channel_send_id[at] = ch, then the two sample writes of one slot. */
    method Write(at: int, ch: int, r: bv32, i: bv32)
      requires Valid() && 0 <= at < DATA_NUM
      modifies channelSendId, redSendData, irSendData
      ensures Contents() == WriteSlot(writes, old(Contents()), at, ch, r, i)
    {
      ghost var red0 := redSendData[..];
      channelSendId[at] := ch;
      redSendData[at] := r;
      if writes == AsWritten {
        redSendData[at] := i;
        assert redSendData[..] == red0[at := r][at := i];
      } else {
        irSendData[at] := i;
      }
    }
  }
}
