/**
 * BeiFen/MaxPlot.cpp, handleDataReady: each MaxData record extends the ten
 * plotted series and the time axis by one point and fills five send slots
 * (channels 0, 1, 3, 5, 7); once at least a second has passed since the
 * last batch, the filled slots go to a sending thread with the user
 * message's sample id and uuid, and the slots are reused from the start.
 */
module BatchPlot {
  import opened Text
  import opened SendBuffer
  import opened MaxDataWorker

  /** The channel ids of one record's five slots. */
  const SEND_IDS: seq<int> := [0, 1, 3, 5, 7]

  /** A record's red values in slot order: the middle average, then channels 1, 3, 5, 7. */
  function RedValues(d: MaxData): seq<bv32>
  {
    [d.middleRed, d.redData1, d.redData3, d.redData5, d.redData7]
  }

  function IrValues(d: MaxData): seq<bv32>
  {
    [d.middleIr, d.irData1, d.irData3, d.irData5, d.irData7]
  }

  /** The batch handed to Send_Message: both time stamps in decimal, the first count slots, and the user message split at its first comma. */
  function BatchOf(a: SendArrays, count: int, start: int, end: int, message: string): Batch
    requires Sized(a) && 0 <= count <= DATA_NUM && |message| < NPOS
  {
    var ids := SplitUserMessage(message);
    Batch(FormatInt(start), FormatInt(end), a.ids[..count], a.red[..count], a.ir[..count], ids.0, ids.1)
  }

  /**
   * A batch of one row written from slot 0: as written its channel ids are
   * the row's, its red row is the row's IR values and its IR row whatever
   * the IR array held; the intended writes give the red and IR values.
   */
  lemma OneRowBatch(a: SendArrays, chs: seq<int>, reds: seq<bv32>, irs: seq<bv32>, start: int, end: int, message: string)
    requires RowFits(a, 0, chs, reds, irs) && |message| < NPOS
    ensures var b := BatchOf(WriteRow(AsWritten, a, 0, chs, reds, irs, 0), |chs|, start, end, message);
      b.ids == chs && b.red == irs && b.ir == a.ir[..|chs|]
    ensures var b := BatchOf(WriteRow(Intended, a, 0, chs, reds, irs, 0), |chs|, start, end, message);
      b.ids == chs && b.red == reds && b.ir == irs
  {
    RowPrefixAsWritten(a, chs, reds, irs);
    RowPrefixIntended(a, chs, reds, irs);
  }

  /** One plotted point: a record and its time axis value. */
  datatype PlotPoint = PlotPoint(data: MaxData, x: real)

  /** The vector of red values at slot k (0 the middle average, 1..4 channels 1, 3, 5, 7). */
  function RedSeries(ps: seq<PlotPoint>, k: nat): (r: seq<bv32>)
    requires k < 5
    ensures |r| == |ps|
  {
    if ps == [] then [] else RedSeries(ps[..|ps| - 1], k) + [RedValues(ps[|ps| - 1].data)[k]]
  }

  function IrSeries(ps: seq<PlotPoint>, k: nat): (r: seq<bv32>)
    requires k < 5
    ensures |r| == |ps|
  {
    if ps == [] then [] else IrSeries(ps[..|ps| - 1], k) + [IrValues(ps[|ps| - 1].data)[k]]
  }

  function TimeAxis(ps: seq<PlotPoint>): (r: seq<real>)
    ensures |r| == |ps|
  {
    if ps == [] then [] else TimeAxis(ps[..|ps| - 1]) + [ps[|ps| - 1].x]
  }

  /**
   * Point i of every vector comes from the i-th record: the i-th entry of
   * red series k is that record's slot-k red value, likewise for IR and
   * the time axis.
   */
  lemma {:induction false} SeriesAt(ps: seq<PlotPoint>, k: nat, i: nat)
    requires k < 5 && i < |ps|
    ensures RedSeries(ps, k)[i] == RedValues(ps[i].data)[k]
    ensures IrSeries(ps, k)[i] == IrValues(ps[i].data)[k]
    ensures TimeAxis(ps)[i] == ps[i].x
    decreases |ps|
  {
    if i < |ps| - 1 {
      SeriesAt(ps[..|ps| - 1], k, i);
    }
  }

  /** handleDataReady's append: every vector grows by exactly the new record's value and keeps its old points. */
  lemma SeriesAppend(ps: seq<PlotPoint>, p: PlotPoint, k: nat)
    requires k < 5
    ensures RedSeries(ps + [p], k) == RedSeries(ps, k) + [RedValues(p.data)[k]]
    ensures IrSeries(ps + [p], k) == IrSeries(ps, k) + [IrValues(p.data)[k]]
    ensures TimeAxis(ps + [p]) == TimeAxis(ps) + [p.x]
  {
    assert (ps + [p])[..|ps|] == ps;
  }

  /** The plot window's data members that handleDataReady touches. */
  class Plot {
    /**
     * The plotted points so far; the window's eleven vectors (the middle
     * averages, channels 1, 3, 5, 7 and the time axis) are its projections
     * RedSeries, IrSeries and TimeAxis.
     */
    var points: seq<PlotPoint>
    const send: Arrays
    var countData: int
    var startStamp: int
    var endStamp: int
    /** The batches handed to sending threads so far. */
    var sent: seq<Batch>

    /** count_data stays within the send arrays. */
    ghost predicate Valid()
      reads this, send
    {
      send.Valid() && 0 <= countData <= DATA_NUM
    }

    /** The constructor's part: empty series, count_data = 0, Start_TimeStamp = time(nullptr). */
    constructor (w: SlotWrites, now: int)
      ensures Valid() && send.writes == w && fresh(send)
      ensures fresh(send.channelSendId) && fresh(send.redSendData) && fresh(send.irSendData)
      ensures points == [] && countData == 0 && startStamp == now && sent == []
    {
      points := [];
      send := new Arrays(w);
      countData := 0;
      startStamp := now;
      endStamp := now;
      sent := [];
    }

    /**
     * One slot: its channel id and two sample writes at count_data, then
     * count_data++. The ghost parameters place the slot as entry j of the
     * row that started at slot c0.
     */
    method Slot(ch: int, r: bv32, i: bv32, ghost j: nat, ghost c0: int, ghost reds: seq<bv32>, ghost irs: seq<bv32>, ghost whole: SendArrays)
      requires send.Valid() && RowFits(send.Contents(), c0, SEND_IDS, reds, irs) && j < 5 && countData == c0 + j
      requires ch == SEND_IDS[j] && r == reds[j] && i == irs[j]
      requires WriteRow(send.writes, send.Contents(), c0, SEND_IDS, reds, irs, j) == whole
      modifies this`countData, send.channelSendId, send.redSendData, send.irSendData
      ensures countData == old(countData) + 1
      ensures RowFits(send.Contents(), c0, SEND_IDS, reds, irs)
      ensures WriteRow(send.writes, send.Contents(), c0, SEND_IDS, reds, irs, j + 1) == whole
      ensures j == 4 ==> send.Contents() == whole
    {
      ghost var cur := send.Contents();
      send.Write(countData, ch, r, i);
      countData := countData + 1;
      RowAdvance(send.writes, cur, send.Contents(), c0, SEND_IDS, reds, irs, j, whole);
    }

    /** The five slots of one record, in the source's order. */
    method FillRow(data: MaxData)
      requires send.Valid() && 0 <= countData && countData + 5 <= DATA_NUM
      modifies this`countData, send.channelSendId, send.redSendData, send.irSendData
      ensures countData == old(countData) + 5
      ensures send.Contents() == WriteRow(send.writes, old(send.Contents()), old(countData), SEND_IDS, RedValues(data), IrValues(data), 0)
    {
      ghost var c0, reds, irs := countData, RedValues(data), IrValues(data);
      ghost var whole := WriteRow(send.writes, send.Contents(), c0, SEND_IDS, reds, irs, 0);
      assert SEND_IDS == [0, 1, 3, 5, 7];
      Slot(0, data.middleRed, data.middleIr, 0, c0, reds, irs, whole);
      Slot(1, data.redData1, data.irData1, 1, c0, reds, irs, whole);
      Slot(3, data.redData3, data.irData3, 2, c0, reds, irs, whole);
      Slot(5, data.redData5, data.irData5, 3, c0, reds, irs, whole);
      Slot(7, data.redData7, data.irData7, 4, c0, reds, irs, whole);
    }

    /**
     * End_TimeStamp = now; when at least a second has passed since
     * Start_TimeStamp, hand the filled slots to a sending thread, then start
     * a new batch.
     */
    method Flush(now: int, message: string)
      requires send.Valid() && 0 <= countData <= DATA_NUM && |message| < NPOS
      modifies this`endStamp, this`startStamp, this`countData, this`sent
      ensures endStamp == now
      ensures now - old(startStamp) >= 1 ==>
        countData == 0 && startStamp == now &&
        sent == old(sent) + [BatchOf(send.Contents(), old(countData), old(startStamp), now, message)]
      ensures now - old(startStamp) < 1 ==>
        countData == old(countData) && startStamp == old(startStamp) && sent == old(sent)
    {
      endStamp := now;
      if endStamp - startStamp >= 1 {
        sent := sent + [BatchOf(send.Contents(), countData, startStamp, endStamp, message)];
        startStamp := endStamp;
        countData := 0;
      }
    }

    /**
     * handleDataReady(data). elapsed is the time axis value, now what
     * time(nullptr) returns and message the QR generator's user_message.
     * The source does not check count_data against DATA_NUM.
     */
    method HandleDataReady(data: MaxData, elapsed: real, now: int, message: string)
      requires Valid() && countData + 5 <= DATA_NUM && |message| < NPOS
      modifies this, send.channelSendId, send.redSendData, send.irSendData
      ensures Valid()
      ensures points == old(points) + [PlotPoint(data, elapsed)]
      ensures send.Contents() == WriteRow(send.writes, old(send.Contents()), old(countData), SEND_IDS, RedValues(data), IrValues(data), 0)
      ensures endStamp == now
      ensures now - old(startStamp) >= 1 ==>
        countData == 0 && startStamp == now &&
        sent == old(sent) + [BatchOf(send.Contents(), old(countData) + 5, old(startStamp), now, message)]
      ensures now - old(startStamp) < 1 ==>
        countData == old(countData) + 5 && startStamp == old(startStamp) && sent == old(sent)
    {
      points := points + [PlotPoint(data, elapsed)];
      FillRow(data);
      Flush(now, message);
    }
  }
}
