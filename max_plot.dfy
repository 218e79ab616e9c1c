/**
 * MaxPlot.cpp, the variant with MQTT queues: handleDataReady pushes each
 * channel's red and IR value onto that channel's queue, fills eight send
 * slots and plots the average of channels 0, 2, 4, 6 next to channels 1,
 * 3, 5, 7; Get_Mqtt_Message pops one red/IR pair from every queue; and
 * Http_Worker_Start hands the send arrays to a sending thread with the
 * user message's sample id and uuid.
 */
module QueuePlot {
  import opened Text
  import opened SendBuffer
  import CollectDriver
  import MaxDataWorker
  import BatchPlot

  const CHANNEL_COUNT: nat := 8

  /** The channel ids, in the order every loop of this file visits them. */
  const CHANNELS: seq<int> := [0, 1, 2, 3, 4, 5, 6, 7]

  /** Send_Message's Data_Size: the number of slots of each array in one upload. */
  const DATA_SIZE: nat := 45 * 800

  /** Send_Message's fre argument. */
  const FREQUENCY: int := 100

  /** The record of this variant: one red and one IR value per channel. */
  datatype MaxData = MaxData(redData: seq<bv32>, irData: seq<bv32>)

  predicate Full(d: MaxData) { |d.redData| == CHANNEL_COUNT && |d.irData| == CHANNEL_COUNT }

  /** Queue_Mqtt: one FIFO of uint32_t per channel, front first. */
  type Queues = seq<seq<bv32>>

  predicate EightQueues(qs: Queues) { |qs| == CHANNEL_COUNT }

  /** The queues after the push loop has reached channel i: channels before i got red then IR at the back. */
  function PushUpTo(qs: Queues, d: MaxData, i: nat): (r: Queues)
    requires EightQueues(qs) && Full(d) && i <= CHANNEL_COUNT
    ensures EightQueues(r)
  {
    seq(CHANNEL_COUNT, k requires 0 <= k < CHANNEL_COUNT => if k < i then qs[k] + [d.redData[k], d.irData[k]] else qs[k])
  }

  /** The queues after handleDataReady. */
  function PushRound(qs: Queues, d: MaxData): Queues
    requires EightQueues(qs) && Full(d)
  {
    PushUpTo(qs, d, CHANNEL_COUNT)
  }

  /** Every queue holds a red/IR pair at its front, which popping needs (std::queue::front on an empty queue is undefined). */
  predicate PairsReady(qs: Queues)
  {
    EightQueues(qs) && forall k :: 0 <= k < CHANNEL_COUNT ==> |qs[k]| >= 2
  }

  /** Position pos of the first n queues. */
  function Column(qs: Queues, n: nat, pos: nat): (r: seq<bv32>)
    requires PairsReady(qs) && n <= CHANNEL_COUNT && pos < 2
    ensures |r| == n
  {
    seq(n, k requires 0 <= k < n => qs[k][pos])
  }

  /** The queues after the pop loop has reached channel i: channels before i lost their front pair. */
  function PopUpTo(qs: Queues, i: nat): (r: Queues)
    requires PairsReady(qs) && i <= CHANNEL_COUNT
    ensures EightQueues(r)
  {
    seq(CHANNEL_COUNT, k requires 0 <= k < CHANNEL_COUNT => if k < i then qs[k][2..] else qs[k])
  }

  /** Get_Mqtt_Message's pops: the popped red and IR values per channel and the queues left. */
  function PopRound(qs: Queues): (MaxData, Queues)
    requires PairsReady(qs)
  {
    (MaxData(Column(qs, CHANNEL_COUNT, 0), Column(qs, CHANNEL_COUNT, 1)), PopUpTo(qs, CHANNEL_COUNT))
  }

  /** The queues are pushed and popped together: all equally long, and in pairs. */
  predicate Balanced(qs: Queues)
  {
    EightQueues(qs) && |qs[0]| % 2 == 0 && forall k :: 0 <= k < CHANNEL_COUNT ==> |qs[k]| == |qs[0]|
  }

  /**
   * Round trip: popping right after pushing onto empty queues gives back
   * the record, red and IR paired per channel, and leaves the queues empty.
   */
  lemma PopAfterPush(qs: Queues, d: MaxData)
    requires EightQueues(qs) && Full(d) && forall k :: 0 <= k < CHANNEL_COUNT ==> qs[k] == []
    ensures PairsReady(PushRound(qs, d))
    ensures PopRound(PushRound(qs, d)) == (d, qs)
  {
    var p := PushRound(qs, d);
    assert forall k :: 0 <= k < CHANNEL_COUNT ==> p[k] == [d.redData[k], d.irData[k]];
    assert Column(p, CHANNEL_COUNT, 0) == d.redData;
    assert Column(p, CHANNEL_COUNT, 1) == d.irData;
    assert PopUpTo(p, CHANNEL_COUNT) == qs;
  }

  /**
   * FIFO order: with a pair already waiting in every queue, a push at the
   * back changes neither the popped values nor the order of what stays.
   */
  lemma PushThenPop(qs: Queues, d: MaxData)
    requires PairsReady(qs) && Full(d)
    ensures PairsReady(PushRound(qs, d))
    ensures PopRound(PushRound(qs, d)).0 == PopRound(qs).0
    ensures PopRound(PushRound(qs, d)).1 == PushRound(PopRound(qs).1, d)
  {
    var p := PushRound(qs, d);
    assert forall k :: 0 <= k < CHANNEL_COUNT ==> p[k] == qs[k] + [d.redData[k], d.irData[k]];
    assert Column(p, CHANNEL_COUNT, 0) == Column(qs, CHANNEL_COUNT, 0);
    assert Column(p, CHANNEL_COUNT, 1) == Column(qs, CHANNEL_COUNT, 1);
    assert forall k :: 0 <= k < CHANNEL_COUNT ==> (qs[k] + [d.redData[k], d.irData[k]])[2..] == qs[k][2..] + [d.redData[k], d.irData[k]];
  }

  /** A push round keeps the queues balanced, each one pair longer. */
  lemma PushBalanced(qs: Queues, d: MaxData)
    requires Balanced(qs) && Full(d)
    ensures Balanced(PushRound(qs, d)) && |PushRound(qs, d)[0]| == |qs[0]| + 2
  {
  }

  /** A pop round on balanced queues that hold a pair keeps them balanced, each one pair shorter. */
  lemma PopBalanced(qs: Queues)
    requires Balanced(qs) && |qs[0]| >= 2
    ensures PairsReady(qs)
    ensures Balanced(PopRound(qs).1) && |PopRound(qs).1[0]| == |qs[0]| - 2
  {
  }

  /** On balanced queues Finish_ALL, which looks at queue 7 only, means every queue is drained. */
  lemma FinishMeansDrained(qs: Queues)
    requires Balanced(qs) && |qs[0]| >= 2
    ensures PairsReady(qs)
    ensures |PopRound(qs).1[7]| == 0 <==> forall k :: 0 <= k < CHANNEL_COUNT ==> PopRound(qs).1[k] == []
  {
    var r := PopRound(qs).1;
    if |r[7]| == 0 {
      assert forall k :: 0 <= k < CHANNEL_COUNT ==> |r[k]| == |qs[k]| - 2 == |qs[7]| - 2;
    }
  }

  /** The channels whose values go into the middle average. */
  predicate MiddleChannel(i: int) { i == 0 || i == 2 || i == 4 || i == 6 }

  /** The uint32_t sum of the middle channels' values before channel n, wrapping modulo 2^32. */
  function MiddleSum(v: seq<bv32>, n: nat): bv32
    requires n <= |v|
  {
    if n == 0 then 0
    else if MiddleChannel(n - 1) then CollectDriver.Add32(MiddleSum(v, n - 1), v[n - 1])
    else MiddleSum(v, n - 1)
  }

  lemma MiddleSumStep(v: seq<bv32>, i: nat)
    requires i < |v|
    ensures MiddleSum(v, i + 1) == if MiddleChannel(i) then CollectDriver.Add32(MiddleSum(v, i), v[i]) else MiddleSum(v, i)
  {
  }

  /** temp_red /= 4: the middle value, in uint32_t integer division. */
  function Middle(v: seq<bv32>): bv32
    requires |v| == CHANNEL_COUNT
  {
    Quarter(MiddleSum(v, CHANNEL_COUNT))
  }

  /** uint32_t division by 4. */
  function Quarter(x: bv32): bv32 { x / 4 }

  /** The sum written out: channels 0, 2, 4 and 6 added in that order, odd channels skipped. */
  lemma MiddleSumUnfold(v: seq<bv32>)
    requires |v| == CHANNEL_COUNT
    ensures MiddleSum(v, CHANNEL_COUNT) == CollectDriver.Add32(CollectDriver.Add32(CollectDriver.Add32(v[0], v[2]), v[4]), v[6])
  {
    assert MiddleSum(v, 1) == v[0];
    assert MiddleSum(v, 3) == CollectDriver.Add32(v[0], v[2]);
    assert MiddleSum(v, 5) == CollectDriver.Add32(MiddleSum(v, 3), v[4]);
    assert MiddleSum(v, 7) == CollectDriver.Add32(MiddleSum(v, 5), v[6]);
  }

  /**
   * With 18-bit samples (what the sensor's FIFO delivers) the sum of the
   * four middle channels never wraps, so the middle value is itself an
   * 18-bit value.
   */
  lemma MiddleBound(v: seq<bv32>)
    requires |v| == CHANNEL_COUNT && forall k :: 0 <= k < CHANNEL_COUNT ==> v[k] <= 0x3FFFF
    ensures Middle(v) <= 0x3FFFF
  {
    MiddleSumUnfold(v);
    FourSamplesBound(v[0], v[2], v[4], v[6]);
  }

  /** Four 18-bit samples added in uint32_t and divided by 4 give an 18-bit value. */
  lemma FourSamplesBound(a: bv32, b: bv32, c: bv32, d: bv32)
    requires a <= 0x3FFFF && b <= 0x3FFFF && c <= 0x3FFFF && d <= 0x3FFFF
    ensures Quarter(CollectDriver.Add32(CollectDriver.Add32(CollectDriver.Add32(a, b), c), d)) <= 0x3FFFF
  {
    var s1 := CollectDriver.Add32(a, b);
    CollectDriver.AddBound(a, b, 1);
    var s2 := CollectDriver.Add32(s1, c);
    CollectDriver.AddBound(s1, c, 2);
    var s3 := CollectDriver.Add32(s2, d);
    CollectDriver.AddBound(s2, d, 3);
    CollectDriver.QuarterBound(s3);
  }

  /** Larger samples wrap: four middle values of 2^30 sum to 2^32, which is 0 in uint32_t arithmetic. */
  lemma MiddleWraps(v: seq<bv32>)
    requires |v| == CHANNEL_COUNT
    requires v[0] == 0x4000_0000 && v[2] == 0x4000_0000 && v[4] == 0x4000_0000 && v[6] == 0x4000_0000
    ensures Middle(v) == 0
  {
    MiddleSumUnfold(v);
  }

  /** What handleDataReady plots: the two averages, then channels 1, 3, 5 and 7. */
  function Plotted(d: MaxData): MaxDataWorker.MaxData
    requires Full(d)
  {
    MaxDataWorker.MaxData(Middle(d.redData), Middle(d.irData),
      d.redData[1], d.redData[3], d.redData[5], d.redData[7],
      d.irData[1], d.irData[3], d.irData[5], d.irData[7])
  }

  /** What Send_Message posts: the start stamp, the first Data_Size slots of each array, the ids and the frequency. */
  datatype Upload = Upload(startUnix: string, channelId: seq<int>, red: seq<bv32>, ir: seq<bv32>, sampleId: string, uuid: string, frequency: int)

  function UploadOf(a: SendArrays, start: int, message: string): (u: Upload)
    requires Sized(a) && |message| < NPOS
    ensures |u.channelId| == DATA_SIZE && |u.red| == DATA_SIZE && |u.ir| == DATA_SIZE
  {
    var ids := SplitUserMessage(message);
    Upload(FormatInt(start), a.ids[..DATA_SIZE], a.red[..DATA_SIZE], a.ir[..DATA_SIZE], ids.0, ids.1, FREQUENCY)
  }

  /**
   * An upload after a handleDataReady row written at slot at: for every
   * slot of the row inside the upload, the channel array holds the channel,
   * and the red array holds that channel's IR value, as written; the IR
   * array keeps what it held.
   */
  lemma UploadRound(a: SendArrays, at: int, d: MaxData, start: int, message: string, k: nat)
    requires RowFits(a, at, CHANNELS, d.redData, d.irData) && at + k < DATA_SIZE && k < CHANNEL_COUNT && |message| < NPOS
    ensures var u := UploadOf(WriteRow(AsWritten, a, at, CHANNELS, d.redData, d.irData, 0), start, message);
      u.channelId[at + k] == k && u.red[at + k] == d.irData[k] && u.ir[at + k] == a.ir[at + k]
  {
    var b := WriteRow(AsWritten, a, at, CHANNELS, d.redData, d.irData, 0);
    assert b.ids[at + k] == k && b.red[at + k] == d.irData[k] && b.ir[at + k] == a.ir[at + k] by {
      RowAsWritten(a, at, CHANNELS, d.redData, d.irData, 0);
      ChannelIdAt(k);
    }
    UploadSlot(b, start, message, at + k);
  }

  lemma ChannelIdAt(k: nat)
    requires k < CHANNEL_COUNT
    ensures CHANNELS[k] == k
  {
  }

  /** Slot s of an upload is slot s of the arrays. */
  lemma UploadSlot(b: SendArrays, start: int, message: string, s: nat)
    requires Sized(b) && s < DATA_SIZE && |message| < NPOS
    ensures var u := UploadOf(b, start, message);
      u.channelId[s] == b.ids[s] && u.red[s] == b.red[s] && u.ir[s] == b.ir[s]
  {
  }

  /** The plot window's data members that this variant's handlers touch. */
  class Window {
    /** Queue_Mqtt[8]. */
    var mqtt: Queues
    /** The plotted points; BatchPlot.RedSeries and its siblings project the window's eleven vectors. */
    var points: seq<BatchPlot.PlotPoint>
    const send: Arrays
    var countData: int
    var startStamp: int
    /** What the detached sending threads were given so far. */
    var uploads: seq<Upload>

    ghost predicate Valid()
      reads this, send
    {
      send.Valid() && EightQueues(mqtt) && 0 <= countData <= DATA_NUM
    }

    /** The constructor's part: empty queues and series, count_data = 0, Start_TimeStamp = time(nullptr). */
    constructor (now: int)
      ensures Valid() && send.writes == AsWritten && fresh(send)
      ensures fresh(send.channelSendId) && fresh(send.redSendData) && fresh(send.irSendData)
      ensures mqtt == seq(CHANNEL_COUNT, k => []) && Balanced(mqtt)
      ensures points == [] && countData == 0 && startStamp == now && uploads == []
    {
      mqtt := seq(CHANNEL_COUNT, k => []);
      points := [];
      send := new Arrays(AsWritten);
      countData := 0;
      startStamp := now;
      uploads := [];
    }

    /**
     * handleDataReady(data); elapsed is the time axis value. The source does
     * not check count_data against DATA_NUM.
     */
    method HandleDataReady(data: MaxData, elapsed: real)
      requires Valid() && Full(data) && countData + CHANNEL_COUNT <= DATA_NUM
      modifies this`mqtt, this`countData, this`points, send.channelSendId, send.redSendData, send.irSendData
      ensures Valid()
      ensures mqtt == PushRound(old(mqtt), data)
      ensures countData == old(countData) + CHANNEL_COUNT
      ensures send.Contents() == WriteRow(send.writes, old(send.Contents()), old(countData), CHANNELS, data.redData, data.irData, 0)
      ensures points == old(points) + [BatchPlot.PlotPoint(Plotted(data), elapsed)]
    {
      var tempRed, tempIr := PushLoop(data);
      AddPoint(tempRed, tempIr, data, elapsed);
    }

    /** The loop over the eight channels: the pushes, the send slots and the sums of channels 0, 2, 4 and 6. */
    method PushLoop(data: MaxData) returns (tempRed: bv32, tempIr: bv32)
      requires send.Valid() && EightQueues(mqtt) && Full(data) && 0 <= countData && countData + CHANNEL_COUNT <= DATA_NUM
      modifies this`mqtt, this`countData, send.channelSendId, send.redSendData, send.irSendData
      ensures mqtt == PushRound(old(mqtt), data)
      ensures countData == old(countData) + CHANNEL_COUNT
      ensures send.Contents() == WriteRow(send.writes, old(send.Contents()), old(countData), CHANNELS, data.redData, data.irData, 0)
      ensures tempRed == MiddleSum(data.redData, CHANNEL_COUNT) && tempIr == MiddleSum(data.irData, CHANNEL_COUNT)
    {
      ghost var c0, q0 := countData, mqtt;
      ghost var whole := WriteRow(send.writes, send.Contents(), c0, CHANNELS, data.redData, data.irData, 0);
      assert PushUpTo(q0, data, 0) == q0;
      tempRed, tempIr := 0, 0;
      var i := 0;
      while i < CHANNEL_COUNT
        invariant 0 <= i <= CHANNEL_COUNT && Pushed(i, data, c0, q0, whole)
        invariant tempRed == MiddleSum(data.redData, i) && tempIr == MiddleSum(data.irData, i)
      {
        Channel(i, data, c0, q0, whole);
        MiddleSumStep(data.redData, i);
        MiddleSumStep(data.irData, i);
        if i == 0 || i == 2 || i == 4 || i == 6 {
          tempRed := CollectDriver.Add32(tempRed, data.redData[i]);
          tempIr := CollectDriver.Add32(tempIr, data.irData[i]);
        }
        i := i + 1;
      }
      assert WriteRow(send.writes, send.Contents(), c0, CHANNELS, data.redData, data.irData, |CHANNELS|) == send.Contents();
    }

    /** The averaging (temp_red /= 4, temp_ir /= 4) and the eleven appends: the two averages, channels 1, 3, 5 and 7, and the time axis value. */
    method AddPoint(tempRed: bv32, tempIr: bv32, data: MaxData, elapsed: real)
      requires Full(data) && tempRed == MiddleSum(data.redData, CHANNEL_COUNT) && tempIr == MiddleSum(data.irData, CHANNEL_COUNT)
      modifies this`points
      ensures points == old(points) + [BatchPlot.PlotPoint(Plotted(data), elapsed)]
    {
      var middleRed := Quarter(tempRed);
      var middleIr := Quarter(tempIr);
      points := points + [BatchPlot.PlotPoint(MaxDataWorker.MaxData(middleRed, middleIr,
        data.redData[1], data.redData[3], data.redData[5], data.redData[7],
        data.irData[1], data.irData[3], data.irData[5], data.irData[7]), elapsed)];
    }

    /**
     * The push loop's state before channel i, for a call that started with
     * count_data c0 and queues q0 and writes the row whole.
     */
    ghost predicate Pushed(i: nat, data: MaxData, c0: int, q0: Queues, whole: SendArrays)
      reads this, send, send.channelSendId, send.redSendData, send.irSendData
    {
      send.Valid() && Full(data) && EightQueues(q0) && i <= CHANNEL_COUNT && countData == c0 + i &&
      RowFits(send.Contents(), c0, CHANNELS, data.redData, data.irData) &&
      WriteRow(send.writes, send.Contents(), c0, CHANNELS, data.redData, data.irData, i) == whole &&
      mqtt == PushUpTo(q0, data, i)
    }

    /** One iteration of the push loop: queue i gets red then IR, slot count_data gets channel i and the two sample writes. */
    method Channel(i: nat, data: MaxData, ghost c0: int, ghost q0: Queues, ghost whole: SendArrays)
      requires i < CHANNEL_COUNT && Pushed(i, data, c0, q0, whole)
      modifies this`mqtt, this`countData, send.channelSendId, send.redSendData, send.irSendData
      ensures Pushed(i + 1, data, c0, q0, whole)
    {
      Push(i, data, q0);
      ghost var cur := send.Contents();
      send.Write(countData, i, data.redData[i], data.irData[i]);
      countData := countData + 1;
      ChannelIdAt(i);
      RowAdvance(send.writes, cur, send.Contents(), c0, CHANNELS, data.redData, data.irData, i, whole);
    }

    /** Queue_Mqtt[i].push(red), then Queue_Mqtt[i].push(ir). */
    method Push(i: nat, data: MaxData, ghost q0: Queues)
      requires Full(data) && EightQueues(q0) && i < CHANNEL_COUNT && mqtt == PushUpTo(q0, data, i)
      modifies this`mqtt
      ensures mqtt == PushUpTo(q0, data, i + 1)
    {
      ghost var next := PushUpTo(q0, data, i + 1);
      assert mqtt[i] == q0[i];
      mqtt := mqtt[i := mqtt[i] + [data.redData[i]]];
      mqtt := mqtt[i := mqtt[i] + [data.irData[i]]];
      assert mqtt[i] == q0[i] + [data.redData[i], data.irData[i]] == next[i];
      assert forall k :: 0 <= k < CHANNEL_COUNT ==> mqtt[k] == next[k];
    }

    /**
     * Get_Mqtt_Message: pop red then IR from every queue; the payload's
     * channel array is 0..7 and Finish_ALL is emitted when queue 7 is empty
     * afterwards.
     */
    method GetMqttMessage() returns (popped: MaxData, channel: seq<int>, finishAll: bool)
      requires PairsReady(mqtt)
      modifies this`mqtt
      ensures (popped, mqtt) == PopRound(old(mqtt))
      ensures channel == CHANNELS
      ensures finishAll <==> |mqtt[7]| == 0
    {
      ghost var q0 := mqtt;
      var redTemp: seq<bv32>, irTemp: seq<bv32> := [], [];
      channel := [];
      var i := 0;
      while i < CHANNEL_COUNT
        invariant 0 <= i <= CHANNEL_COUNT
        invariant mqtt == PopUpTo(q0, i)
        invariant redTemp == Column(q0, i, 0) && irTemp == Column(q0, i, 1) && channel == CHANNELS[..i]
      {
        redTemp := redTemp + [mqtt[i][0]];
        mqtt := mqtt[i := mqtt[i][1..]];
        irTemp := irTemp + [mqtt[i][0]];
        mqtt := mqtt[i := mqtt[i][1..]];
        channel := channel + [i];
        assert mqtt == PopUpTo(q0, i + 1);
        assert redTemp == Column(q0, i + 1, 0);
        assert irTemp == Column(q0, i + 1, 1);
        i := i + 1;
      }
      popped := MaxData(redTemp, irTemp);
      finishAll := |mqtt[7]| == 0;
    }

    /** Http_Worker_Start: split the user message, stringify Start_TimeStamp and hand the arrays to Send_Message. */
    method HttpWorkerStart(message: string)
      requires send.Valid() && |message| < NPOS
      modifies this`uploads
      ensures uploads == old(uploads) + [UploadOf(send.Contents(), startStamp, message)]
    {
      var ids := SplitUserMessage(message);
      var a := send.Contents();
      uploads := uploads + [Upload(FormatInt(startStamp), a.ids[..DATA_SIZE], a.red[..DATA_SIZE], a.ir[..DATA_SIZE], ids.0, ids.1, FREQUENCY)];
    }
  }
}
