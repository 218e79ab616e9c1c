/**
 * The driver class of collect/max30102.cpp. The constructor points a handle
 * at the multiplexer, lists the channels whose sensor answers through the two
 * shell commands, and initialises every listed sensor through a handle of its
 * own. A round then reads the four middle channels 0, 2, 4, 6 into one
 * averaged value, and every listed odd channel into its own slot of two
 * eight-slot arrays.
 */
module CollectDriver {
  import opened Wrappers
  import opened Max30102
  import opened I2cBus
  import opened ChannelScan
  import ShellScan

  /**
   * What the bus answered while a loop visited one channel: the bytes moved by
   * the one-byte select write, the open and ioctl of init_i2c(MAX30102_ADDR),
   * and the FIFO read that follows (the initialisation loop does not read).
   */
  datatype Visit = Visit(selectWritten: int, open: OpenReply, fifo: FifoReply)

  /** The sensor of a channel is reached: the select byte went out and init_i2c returned a handle. */
  predicate Reached(v: Visit) { v.selectWritten == 1 && v.open.fd != -1 && v.open.addressed }

  /**
   * write(fd, &use, 1) with use = 1 << ch, then, when exactly one byte moved,
   * max30102_fd = init_i2c(device, MAX30102_ADDR). maxFd is the member's
   * value before; the result's fd is its value after.
   */
  function Reach(fd: int, ch: int, v: Visit, maxFd: int): (o: Opened)
    requires 0 <= ch < 8
    ensures Reached(v) <==> v.selectWritten == 1 && o.fd != -1
    ensures Reached(v) ==> o.fd == v.open.fd
    ensures v.selectWritten != 1 ==> o.fd == maxFd
  {
    if v.selectWritten != 1 then Opened(maxFd, [SelectWrite(fd, ch)])
    else
      var h := InitI2c(MAX30102_ADDR, v.open);
      Opened(h.fd, [SelectWrite(fd, ch)] + h.calls)
  }

  /** The reach always starts with the channel's select byte on the multiplexer handle. */
  lemma ReachSelects(fd: int, ch: int, v: Visit, maxFd: int)
    requires 0 <= ch < 8
    ensures Visited(Reach(fd, ch, v, maxFd).calls) == [ch]
    ensures AllFrames(Reach(fd, ch, v, maxFd).calls) == []
  {
    var cs := Reach(fd, ch, v, maxFd).calls;
    SelectWriteSelects(fd, ch);
    assert Selects(cs[0]) == [ch] && FrameOf(cs[0]) == [];
    var t := cs[1..];
    assert forall i :: 0 <= i < |t| ==> Selects(t[i]) == [] && FrameOf(t[i]) == [];
    NothingObserved(t);
    assert cs == [cs[0]] + t;
    ObserveAppend([cs[0]], t);
  }

  /** A trace of calls none of which selects or writes a frame observes neither. */
  lemma {:induction false} NothingObserved(cs: seq<Call>)
    requires forall i :: 0 <= i < |cs| ==> Selects(cs[i]) == [] && FrameOf(cs[i]) == []
    ensures Visited(cs) == [] && AllFrames(cs) == []
  {
    if |cs| > 0 {
      NothingObserved(cs[1..]);
    }
  }

  // init_channel_sensor

  /** One iteration of init_channel_sensor: reach the sensor and, when reached, program it. */
  function SensorStep(fd: int, st: Opened, ch: int, v: Visit): Opened
    requires 0 <= ch < 8
  {
    var r := Reach(fd, ch, v, st.fd);
    if Reached(v) then Opened(r.fd, st.calls + r.calls + InitCalls(NarrowFd(r.fd), LED_AMPLITUDE))
    else Opened(r.fd, st.calls + r.calls)
  }

  /** The loop from list slot i on; the state is max30102_fd and the calls issued so far. */
  function SensorsFrom(fd: int, st: Opened, chs: seq<int>, vs: seq<Visit>, i: nat): Opened
    requires ValidChannels(chs) && |vs| == 8 && i <= |chs|
    decreases |chs| - i
  {
    if i == |chs| then st else SensorsFrom(fd, SensorStep(fd, st, chs[i], vs[chs[i]]), chs, vs, i + 1)
  }

  /** How many of the listed channels from slot i on are reached. */
  function ReachedCount(chs: seq<int>, vs: seq<Visit>, i: nat): nat
    requires ValidChannels(chs) && |vs| == 8 && i <= |chs|
    decreases |chs| - i
  {
    if i == |chs| then 0 else (if Reached(vs[chs[i]]) then 1 else 0) + ReachedCount(chs, vs, i + 1)
  }

  /** The calls one iteration of init_channel_sensor adds. */
  function SensorCalls(fd: int, ch: int, v: Visit, maxFd: int): seq<Call>
    requires 0 <= ch < 8
  {
    var r := Reach(fd, ch, v, maxFd);
    if Reached(v) then r.calls + InitCalls(NarrowFd(r.fd), LED_AMPLITUDE) else r.calls
  }

  lemma SensorStepCalls(fd: int, st: Opened, ch: int, v: Visit)
    requires 0 <= ch < 8
    ensures SensorStep(fd, st, ch, v).calls == st.calls + SensorCalls(fd, ch, v, st.fd)
  {
  }

  /** One iteration selects its channel once; it writes the twelve init frames iff the sensor is reached. */
  lemma SensorCallsObserved(fd: int, ch: int, v: Visit, maxFd: int)
    requires 0 <= ch < 8
    ensures Visited(SensorCalls(fd, ch, v, maxFd)) == [ch]
    ensures AllFrames(SensorCalls(fd, ch, v, maxFd)) == if Reached(v) then InitFrames(LED_AMPLITUDE) else []
  {
    var r := Reach(fd, ch, v, maxFd);
    ReachSelects(fd, ch, v, maxFd);
    if Reached(v) {
      ObserveAppend(r.calls, InitCalls(NarrowFd(r.fd), LED_AMPLITUDE));
      InitCallsObserved(NarrowFd(r.fd), LED_AMPLITUDE);
    }
  }

  lemma SensorsFromStep(fd: int, st: Opened, chs: seq<int>, vs: seq<Visit>, i: nat)
    requires ValidChannels(chs) && |vs| == 8 && i < |chs|
    ensures SensorsFrom(fd, st, chs, vs, i) == SensorsFrom(fd, SensorStep(fd, st, chs[i], vs[chs[i]]), chs, vs, i + 1)
    ensures ReachedCount(chs, vs, i) == (if Reached(vs[chs[i]]) then 1 else 0) + ReachedCount(chs, vs, i + 1)
  {
  }

  /** Every listed channel gets its select byte, in list order, whatever fails. */
  lemma {:induction false} SensorsVisit(fd: int, st: Opened, chs: seq<int>, vs: seq<Visit>, i: nat)
    requires ValidChannels(chs) && |vs| == 8 && i <= |chs|
    ensures Visited(SensorsFrom(fd, st, chs, vs, i).calls) == Visited(st.calls) + chs[i..]
    decreases |chs| - i
  {
    if i < |chs| {
      var ch := chs[i];
      var step := SensorCalls(fd, ch, vs[ch], st.fd);
      var next := SensorStep(fd, st, ch, vs[ch]);
      SensorsFromStep(fd, st, chs, vs, i);
      SensorStepCalls(fd, st, ch, vs[ch]);
      SensorCallsObserved(fd, ch, vs[ch], st.fd);
      VisitedAppend(st.calls, step);
      SensorsVisit(fd, next, chs, vs, i + 1);
      SliceCons(chs, i);
      ConsAssoc(Visited(st.calls), [ch], chs[i + 1..]);
    }
  }

  /** The twelve init frames go out once per reached sensor and no other frame does. */
  lemma {:induction false} SensorsFrames(fd: int, st: Opened, chs: seq<int>, vs: seq<Visit>, i: nat)
    requires ValidChannels(chs) && |vs| == 8 && i <= |chs|
    ensures AllFrames(SensorsFrom(fd, st, chs, vs, i).calls)
      == AllFrames(st.calls) + Repeat(InitFrames(LED_AMPLITUDE), ReachedCount(chs, vs, i))
    decreases |chs| - i
  {
    if i < |chs| {
      var ch := chs[i];
      var step := SensorCalls(fd, ch, vs[ch], st.fd);
      var next := SensorStep(fd, st, ch, vs[ch]);
      SensorsFromStep(fd, st, chs, vs, i);
      SensorStepCalls(fd, st, ch, vs[ch]);
      SensorCallsObserved(fd, ch, vs[ch], st.fd);
      CountsAppend(st.calls, step);
      SensorsFrames(fd, next, chs, vs, i + 1);
      RepeatCons(AllFrames(st.calls), InitFrames(LED_AMPLITUDE), AllFrames(step), ReachedCount(chs, vs, i + 1), Reached(vs[ch]));
    }
  }

  // get_branch_data

  /** The two output arrays, the temporaries the reads go into, max30102_fd and the calls issued so far. */
  datatype Branch = Branch(red: seq<bv32>, ir: seq<bv32>, temp: Reading, maxFd: int, calls: seq<Call>)

  /** The middle channels, which get_branch_data skips and get_middle_data averages. */
  predicate IsMiddle(ch: int) { ch == 0 || ch == 2 || ch == 4 || ch == 6 }

  /**
   * One iteration of get_branch_data on listed channel ch: skip a middle
   * channel; otherwise reach the sensor, read one sample into the temporaries,
   * store them at index ch of both arrays and close the sensor handle.
   */
  function BranchStep(fd: int, st: Branch, ch: int, v: Visit): Branch
    requires 0 <= ch < 8 && |st.red| == 8 && |st.ir| == 8
  {
    if IsMiddle(ch) then st
    else
      var r := Reach(fd, ch, v, st.maxFd);
      if !Reached(v) then st.(maxFd := r.fd, calls := st.calls + r.calls)
      else
        var f := ReadFifo(r.fd, v.fifo, st.temp);
        Branch(st.red[ch := f.out.red], st.ir[ch := f.out.ir], f.out, r.fd, st.calls + r.calls + f.calls + [Close(r.fd)])
  }

  function BranchFrom(fd: int, st: Branch, chs: seq<int>, vs: seq<Visit>, i: nat): (b: Branch)
    requires ValidChannels(chs) && |vs| == 8 && i <= |chs| && |st.red| == 8 && |st.ir| == 8
    ensures |b.red| == 8 && |b.ir| == 8
    decreases |chs| - i
  {
    if i == |chs| then st else BranchFrom(fd, BranchStep(fd, st, chs[i], vs[chs[i]]), chs, vs, i + 1)
  }

  /** Slots of middle channels, and of channels not listed from slot i on, keep what they held. */
  lemma {:induction false} BranchKeeps(fd: int, st: Branch, chs: seq<int>, vs: seq<Visit>, i: nat, k: int)
    requires ValidChannels(chs) && |vs| == 8 && i <= |chs| && |st.red| == 8 && |st.ir| == 8
    requires 0 <= k < 8 && (IsMiddle(k) || k !in chs[i..])
    ensures BranchFrom(fd, st, chs, vs, i).red[k] == st.red[k]
    ensures BranchFrom(fd, st, chs, vs, i).ir[k] == st.ir[k]
    decreases |chs| - i
  {
    if i < |chs| {
      var next := BranchStep(fd, st, chs[i], vs[chs[i]]);
      assert chs[i..] == [chs[i]] + chs[i + 1..];
      assert next.red[k] == st.red[k] && next.ir[k] == st.ir[k];
      BranchKeeps(fd, next, chs, vs, i + 1, k);
    }
  }

  /**
   * A listed odd channel whose sensor is reached and whose read succeeds ends
   * up holding the decoded sample, provided it is not listed again later.
   */
  lemma {:induction false} BranchPlaces(fd: int, st: Branch, chs: seq<int>, vs: seq<Visit>, i: nat, j: nat)
    requires ValidChannels(chs) && |vs| == 8 && i <= j < |chs| && |st.red| == 8 && |st.ir| == 8
    requires !IsMiddle(chs[j]) && Reached(vs[chs[j]]) && FifoOk(vs[chs[j]].fifo)
    requires chs[j] !in chs[j + 1..]
    ensures BranchFrom(fd, st, chs, vs, i).red[chs[j]] == DecodeRecord(vs[chs[j]].fifo.data).red
    ensures BranchFrom(fd, st, chs, vs, i).ir[chs[j]] == DecodeRecord(vs[chs[j]].fifo.data).ir
    decreases |chs| - i
  {
    var next := BranchStep(fd, st, chs[i], vs[chs[i]]);
    if i < j {
      BranchPlaces(fd, next, chs, vs, i + 1, j);
    } else {
      BranchKeeps(fd, next, chs, vs, i + 1, chs[j]);
    }
  }

  /** Every slot holds an 18-bit sample afterwards if every slot and the temporaries did before. */
  lemma {:induction false} BranchBound(fd: int, st: Branch, chs: seq<int>, vs: seq<Visit>, i: nat)
    requires ValidChannels(chs) && |vs| == 8 && i <= |chs| && |st.red| == 8 && |st.ir| == 8
    requires forall k :: 0 <= k < 8 ==> st.red[k] <= 0x3FFFF && st.ir[k] <= 0x3FFFF
    requires st.temp.red <= 0x3FFFF && st.temp.ir <= 0x3FFFF
    ensures forall k :: 0 <= k < 8 ==>
      BranchFrom(fd, st, chs, vs, i).red[k] <= 0x3FFFF && BranchFrom(fd, st, chs, vs, i).ir[k] <= 0x3FFFF
    decreases |chs| - i
  {
    if i < |chs| {
      var ch := chs[i];
      if !IsMiddle(ch) && Reached(vs[ch]) {
        ReadFifoBound(vs[ch].open.fd, vs[ch].fifo, st.temp);
      }
      BranchBound(fd, BranchStep(fd, st, ch, vs[ch]), chs, vs, i + 1);
    }
  }

  // get_middle_data

  const MIDDLE_CHANNELS: seq<int> := [0, 2, 4, 6]

  /** The locals of get_middle_data that carry values: the temporaries and the two uint32_t sums. */
  datatype Acc = Acc(temp: Reading, redSum: bv32, irSum: bv32)

  /** The function's start: temporaries and sums zero, as initialised in the source. */
  const ZERO_ACC: Acc := Acc(Reading(0, 0), 0, 0)

  /** uint32_t addition, wrapping modulo 2^32. */
  function Add32(a: bv32, b: bv32): bv32 { a + b }

  /**
   * What one middle channel does to the locals: nothing when its sensor is
   * not reached; otherwise read_fifo overwrites the temporaries (or leaves
   * them on a failed read) and both are added to the sums.
   */
  function AccStep(a: Acc, v: Visit): Acc
  {
    if !Reached(v) then a
    else
      var o := ReadFifo(v.open.fd, v.fifo, a.temp).out;
      Acc(o, Add32(a.redSum, o.red), Add32(a.irSum, o.ir))
  }

  function AccFrom(a: Acc, vs: seq<Visit>, i: nat): Acc
    requires |vs| == 8 && i <= 4
    decreases 4 - i
  {
    if i == 4 then a else AccFrom(AccStep(a, vs[MIDDLE_CHANNELS[i]]), vs, i + 1)
  }

  /** The locals, max30102_fd and the calls issued so far. */
  datatype Middle = Middle(acc: Acc, maxFd: int, calls: seq<Call>)

  /**
   * One iteration of get_middle_data: reach the sensor of a middle channel,
   * read one sample into the temporaries, add them to the sums and close the
   * sensor handle.
   */
  function MiddleStep(fd: int, st: Middle, ch: int, v: Visit): (n: Middle)
    requires 0 <= ch < 8
    ensures n.acc == AccStep(st.acc, v)
  {
    var r := Reach(fd, ch, v, st.maxFd);
    if !Reached(v) then st.(maxFd := r.fd, calls := st.calls + r.calls)
    else
      var f := ReadFifo(r.fd, v.fifo, st.acc.temp);
      Middle(AccStep(st.acc, v), r.fd, st.calls + r.calls + f.calls + [Close(r.fd)])
  }

  function MiddleFrom(fd: int, st: Middle, vs: seq<Visit>, i: nat): Middle
    requires |vs| == 8 && i <= 4
    decreases 4 - i
  {
    if i == 4 then st else MiddleFrom(fd, MiddleStep(fd, st, MIDDLE_CHANNELS[i], vs[MIDDLE_CHANNELS[i]]), vs, i + 1)
  }

  function MiddlePass(fd: int, maxFd: int, calls: seq<Call>, vs: seq<Visit>): Middle
    requires |vs| == 8
  {
    MiddleFrom(fd, Middle(ZERO_ACC, maxFd, calls), vs, 0)
  }

  /** The values the pass leaves depend only on what the sensors answered. */
  lemma {:induction false} MiddleAcc(fd: int, st: Middle, vs: seq<Visit>, i: nat)
    requires |vs| == 8 && i <= 4
    ensures MiddleFrom(fd, st, vs, i).acc == AccFrom(st.acc, vs, i)
    decreases 4 - i
  {
    if i < 4 {
      MiddleAcc(fd, MiddleStep(fd, st, MIDDLE_CHANNELS[i], vs[MIDDLE_CHANNELS[i]]), vs, i + 1);
    }
  }

  /** The sample a middle channel contributes when it is reached and read. */
  function Sample(v: Visit): Reading { DecodeRecord(v.fifo.data) }

  /** The bound "at most k samples of 18 bits" for k = 0..4, written out in 32 bits. */
  function SumBound(k: nat): bv32
    requires k <= 4
  {
    if k == 0 then 0 else if k == 1 then 0x3FFFF else if k == 2 then 0x7FFFE else if k == 3 then 0xBFFFD else 0xFFFFC
  }

  /** An 18-bit temporary and sums of at most i samples. */
  predicate Bounded(a: Acc, i: nat)
    requires i <= 4
  {
    a.temp.red <= 0x3FFFF && a.temp.ir <= 0x3FFFF && SumsBounded(a.redSum, a.irSum, i)
  }

  predicate SumsBounded(redSum: bv32, irSum: bv32, i: nat)
    requires i <= 4
  {
    redSum <= SumBound(i) && irSum <= SumBound(i)
  }

  /**
   * The sums never wrap: after i middle channels each sum is at most i times
   * the largest 18-bit sample, so the final sums are at most 0xFFFFC and the
   * averaged value fits in 18 bits.
   */
  lemma {:induction false} AccBound(a: Acc, vs: seq<Visit>, i: nat)
    requires |vs| == 8 && i <= 4 && Bounded(a, i)
    ensures Bounded(AccFrom(a, vs, i), 4)
    decreases 4 - i
  {
    if i < 4 {
      AccStepBound(a, vs[MIDDLE_CHANNELS[i]], i);
      AccBound(AccStep(a, vs[MIDDLE_CHANNELS[i]]), vs, i + 1);
    }
  }

  /** One middle channel adds at most one 18-bit sample to each sum. */
  lemma AccStepBound(a: Acc, v: Visit, i: nat)
    requires i < 4 && Bounded(a, i)
    ensures Bounded(AccStep(a, v), i + 1)
  {
    if Reached(v) {
      var o := ReadFifo(v.open.fd, v.fifo, a.temp).out;
      ReadFifoBound(v.open.fd, v.fifo, a.temp);
      AddSampleBound(a, o, i);
      assert AccStep(a, v) == Acc(o, Add32(a.redSum, o.red), Add32(a.irSum, o.ir));
    } else {
      SumsBoundedMono(a.redSum, a.irSum, i);
    }
  }

  lemma AddSampleBound(a: Acc, o: Reading, i: nat)
    requires i < 4 && Bounded(a, i) && o.red <= 0x3FFFF && o.ir <= 0x3FFFF
    ensures Bounded(Acc(o, Add32(a.redSum, o.red), Add32(a.irSum, o.ir)), i + 1)
  {
    AddBoth(a.redSum, a.irSum, o.red, o.ir, i);
  }

  lemma AddBoth(redSum: bv32, irSum: bv32, red: bv32, ir: bv32, i: nat)
    requires i < 4 && SumsBounded(redSum, irSum, i) && red <= 0x3FFFF && ir <= 0x3FFFF
    ensures SumsBounded(Add32(redSum, red), Add32(irSum, ir), i + 1)
  {
    AddBound(redSum, red, i);
    AddBound(irSum, ir, i);
  }

  lemma SumsBoundedMono(redSum: bv32, irSum: bv32, i: nat)
    requires i < 4 && SumsBounded(redSum, irSum, i)
    ensures SumsBounded(redSum, irSum, i + 1)
  {
    SumBoundMono(redSum, i);
    SumBoundMono(irSum, i);
  }

  lemma SumBoundMono(x: bv32, i: nat)
    requires i < 4 && x <= SumBound(i)
    ensures x <= SumBound(i + 1)
  {
  }

  /** Adding an 18-bit sample to a sum of at most i samples stays below the bound for i + 1. */
  lemma AddBound(sum: bv32, x: bv32, i: nat)
    requires i < 4 && sum <= SumBound(i) && x <= 0x3FFFF
    ensures Add32(sum, x) <= SumBound(i + 1)
  {
  }

  /** The averaged value is at most the largest 18-bit sample. */
  lemma MiddleAverageBound(fd: int, maxFd: int, calls: seq<Call>, vs: seq<Visit>)
    requires |vs| == 8
    ensures MiddlePass(fd, maxFd, calls, vs).acc.redSum / 4 <= 0x3FFFF
    ensures MiddlePass(fd, maxFd, calls, vs).acc.irSum / 4 <= 0x3FFFF
  {
    MiddleAcc(fd, Middle(ZERO_ACC, maxFd, calls), vs, 0);
    AccBound(ZERO_ACC, vs, 0);
    QuarterBound(AccFrom(ZERO_ACC, vs, 0).redSum);
    QuarterBound(AccFrom(ZERO_ACC, vs, 0).irSum);
  }

  lemma QuarterBound(x: bv32)
    requires x <= 0xFFFFC
    ensures x / 4 <= 0x3FFFF
  {
  }

  /** The four middle steps written out. */
  lemma AccUnfold(vs: seq<Visit>)
    requires |vs| == 8
    ensures AccFrom(ZERO_ACC, vs, 0) == AccStep(AccStep(AccStep(AccStep(ZERO_ACC, vs[0]), vs[2]), vs[4]), vs[6])
  {
    assert MIDDLE_CHANNELS[0] == 0 && MIDDLE_CHANNELS[1] == 2 && MIDDLE_CHANNELS[2] == 4 && MIDDLE_CHANNELS[3] == 6;
  }

  /** When all four middle sensors are reached and read, the sums are the 32-bit sums of their samples. */
  lemma MiddleAllGood(fd: int, maxFd: int, calls: seq<Call>, vs: seq<Visit>)
    requires |vs| == 8
    requires forall c :: c in MIDDLE_CHANNELS ==> Reached(vs[c]) && FifoOk(vs[c].fifo)
    ensures MiddlePass(fd, maxFd, calls, vs).acc.redSum
      == Add32(Add32(Add32(Sample(vs[0]).red, Sample(vs[2]).red), Sample(vs[4]).red), Sample(vs[6]).red)
    ensures MiddlePass(fd, maxFd, calls, vs).acc.irSum
      == Add32(Add32(Add32(Sample(vs[0]).ir, Sample(vs[2]).ir), Sample(vs[4]).ir), Sample(vs[6]).ir)
  {
    assert 0 in MIDDLE_CHANNELS && 2 in MIDDLE_CHANNELS && 4 in MIDDLE_CHANNELS && 6 in MIDDLE_CHANNELS;
    MiddleAcc(fd, Middle(ZERO_ACC, maxFd, calls), vs, 0);
    AccUnfold(vs);
    var a1 := AccStep(ZERO_ACC, vs[0]);
    assert a1.redSum == Sample(vs[0]).red && a1.irSum == Sample(vs[0]).ir by {
      ZeroAdd(Sample(vs[0]).red);
      ZeroAdd(Sample(vs[0]).ir);
    }
  }

  lemma ZeroAdd(x: bv32)
    ensures Add32(0, x) == x
  {
  }

  /**
   * The divisor is four whatever failed: when only channel 0's sensor is
   * reached and read, the sums are its sample, which get_middle_data then
   * divides by four.
   */
  lemma MiddleDividesByFour(fd: int, maxFd: int, calls: seq<Call>, vs: seq<Visit>)
    requires |vs| == 8
    requires Reached(vs[0]) && FifoOk(vs[0].fifo) && !Reached(vs[2]) && !Reached(vs[4]) && !Reached(vs[6])
    ensures MiddlePass(fd, maxFd, calls, vs).acc.redSum == Sample(vs[0]).red
    ensures MiddlePass(fd, maxFd, calls, vs).acc.irSum == Sample(vs[0]).ir
  {
    MiddleAcc(fd, Middle(ZERO_ACC, maxFd, calls), vs, 0);
    AccUnfold(vs);
    ZeroAdd(Sample(vs[0]).red);
    ZeroAdd(Sample(vs[0]).ir);
  }

  /** With no middle sensor reached, the sums stay zero. */
  lemma MiddleNoneReached(fd: int, maxFd: int, calls: seq<Call>, vs: seq<Visit>)
    requires |vs| == 8 && !Reached(vs[0]) && !Reached(vs[2]) && !Reached(vs[4]) && !Reached(vs[6])
    ensures MiddlePass(fd, maxFd, calls, vs).acc == ZERO_ACC
  {
    MiddleAcc(fd, Middle(ZERO_ACC, maxFd, calls), vs, 0);
    AccUnfold(vs);
  }

  /** The driver object: the multiplexer handle, the last sensor handle, the listed channels and the calls issued. */
  class Driver {
    var fd: int
    var maxFd: int
    const table: ChannelTable
    var calls: seq<Call>

    ghost predicate Valid()
      reads this, table, table.slots
    {
      table.Valid()
    }

    /**
     * The constructor: fd = init_i2c(device, TCA9548A_ADDR), whatever it
     * returns; scanf_channel; init_channel_sensor. maxFd0 stands for the
     * member's unset initial value.
     */
    constructor (first: OpenReply, shell: seq<ChannelReply>, sensors: seq<Visit>, maxFd0: int)
      requires |shell| == 8 && |sensors| == 8
      ensures Valid() && fresh(table) && fresh(table.slots)
      ensures table.Contents() == Accepted(ShellScan.FoundFlags(shell))
      ensures fd == InitI2c(TCA9548A_ADDR, first).fd
      ensures var s := SensorsFrom(fd, Opened(maxFd0, []), table.Contents(), sensors, 0);
        maxFd == s.fd && calls == InitI2c(TCA9548A_ADDR, first).calls + ShellScan.ScanCalls(shell, 0) + s.calls
    {
      var o := InitI2c(TCA9548A_ADDR, first);
      fd := o.fd;
      maxFd := maxFd0;
      table := new ChannelTable();
      calls := o.calls;
      new;
      var scan := ShellScan.Collect(table, shell);
      calls := calls + scan;
      InitChannelSensor(sensors);
    }

    /** init_channel_sensor: one SensorStep per listed channel, in list order. */
    method InitChannelSensor(vs: seq<Visit>)
      requires Valid() && |vs| == 8
      modifies this`maxFd, this`calls
      ensures maxFd == SensorsFrom(fd, Opened(old(maxFd), []), table.Contents(), vs, 0).fd
      ensures calls == old(calls) + SensorsFrom(fd, Opened(old(maxFd), []), table.Contents(), vs, 0).calls
    {
      TableChannels(table);
      SensorsFromPrefix(fd, maxFd, calls, table.Contents(), vs);
      var i := 0;
      while i < table.count
        invariant 0 <= i <= table.count && table.Valid()
        invariant SensorsFrom(fd, Opened(maxFd, calls), table.Contents(), vs, i)
          == SensorsFrom(fd, Opened(old(maxFd), old(calls)), table.Contents(), vs, 0)
      {
        var ch := table.Get(i);
        InitOne(ch, vs[ch]);
        i := i + 1;
      }
    }

    /** One iteration of init_channel_sensor. */
    method InitOne(ch: int, v: Visit)
      requires 0 <= ch < 8
      modifies this`maxFd, this`calls
      ensures Opened(maxFd, calls) == SensorStep(fd, Opened(old(maxFd), old(calls)), ch, v)
    {
      calls := calls + [SelectWrite(fd, ch)];
      if v.selectWritten != 1 {
        return;
      }
      var h := InitI2c(MAX30102_ADDR, v.open);
      maxFd := h.fd;
      calls := calls + h.calls;
      if maxFd == -1 {
        return;
      }
      calls := calls + InitCalls(NarrowFd(maxFd), LED_AMPLITUDE);
    }

    /**
     * get_branch_data(red_data, ir_data): red_temp and ir_temp start as
     * whatever the stack holds (garbage) and carry over between iterations.
     */
    method GetBranchData(red: array<bv32>, ir: array<bv32>, vs: seq<Visit>, garbage: Reading)
      requires Valid() && red.Length == 8 && ir.Length == 8 && red != ir && |vs| == 8
      requires red as object != table.slots && ir as object != table.slots
      modifies red, ir, this`maxFd, this`calls
      ensures var b := BranchFrom(fd, Branch(old(red[..]), old(ir[..]), garbage, old(maxFd), old(calls)), table.Contents(), vs, 0);
        red[..] == b.red && ir[..] == b.ir && maxFd == b.maxFd && calls == b.calls
    {
      var temp := garbage;
      var i := 0;
      while i < table.count
        invariant 0 <= i <= table.count && table.Valid()
        invariant BranchFrom(fd, Branch(red[..], ir[..], temp, maxFd, calls), table.Contents(), vs, i)
          == BranchFrom(fd, Branch(old(red[..]), old(ir[..]), garbage, old(maxFd), old(calls)), table.Contents(), vs, 0)
      {
        var ch := table.Get(i);
        temp := BranchOne(red, ir, ch, vs[ch], temp);
        i := i + 1;
      }
    }

    /** One iteration of get_branch_data. */
    method BranchOne(red: array<bv32>, ir: array<bv32>, ch: int, v: Visit, temp: Reading) returns (next: Reading)
      requires red.Length == 8 && ir.Length == 8 && red != ir && 0 <= ch < 8
      modifies red, ir, this`maxFd, this`calls
      ensures Branch(red[..], ir[..], next, maxFd, calls)
        == BranchStep(fd, Branch(old(red[..]), old(ir[..]), temp, old(maxFd), old(calls)), ch, v)
    {
      next := temp;
      if IsMiddle(ch) {
        return;
      }
      var r := Reach(fd, ch, v, maxFd);
      maxFd := r.fd;
      calls := calls + r.calls;
      if v.selectWritten != 1 || maxFd == -1 {
        return;
      }
      var f := ReadFifo(maxFd, v.fifo, temp);
      next := f.out;
      red[ch] := next.red;
      ir[ch] := next.ir;
      calls := calls + f.calls + [Close(maxFd)];
    }

    /** get_middle_data(&red_data, &ir_data): the sums divided by four, returned instead of written through the two out-arguments. */
    method GetMiddleData(vs: seq<Visit>) returns (red: bv32, ir: bv32)
      requires |vs| == 8
      modifies this`maxFd, this`calls
      ensures var m := MiddlePass(fd, old(maxFd), old(calls), vs);
        red == m.acc.redSum / 4 && ir == m.acc.irSum / 4 && maxFd == m.maxFd && calls == m.calls
    {
      var acc := ZERO_ACC;
      var i := 0;
      while i < 4
        invariant 0 <= i <= 4
        invariant MiddleFrom(fd, Middle(acc, maxFd, calls), vs, i) == MiddlePass(fd, old(maxFd), old(calls), vs)
      {
        var ch := MIDDLE_CHANNELS[i];
        acc := MiddleOne(acc, ch, vs[ch]);
        i := i + 1;
      }
      red := acc.redSum / 4;
      ir := acc.irSum / 4;
    }

    /** One iteration of get_middle_data; the local sums and temporaries travel in acc. */
    method MiddleOne(acc: Acc, ch: int, v: Visit) returns (next: Acc)
      requires 0 <= ch < 8
      modifies this`maxFd, this`calls
      ensures Middle(next, maxFd, calls) == MiddleStep(fd, Middle(acc, old(maxFd), old(calls)), ch, v)
    {
      var r := Reach(fd, ch, v, maxFd);
      maxFd := r.fd;
      calls := calls + r.calls;
      if v.selectWritten != 1 || maxFd == -1 {
        next := acc;
        return;
      }
      var f := ReadFifo(r.fd, v.fifo, acc.temp);
      calls := calls + f.calls + [Close(r.fd)];
      next := Acc(f.out, Add32(acc.redSum, f.out.red), Add32(acc.irSum, f.out.ir));
    }
  }

  /** Every listed channel is a channel number. */
  lemma TableChannels(t: ChannelTable)
    requires t.Valid()
    ensures ValidChannels(t.Contents())
  {
  }

  /** The loop started after earlier calls issues the same calls after them. */
  lemma SensorsFromPrefix(fd: int, maxFd: int, prefix: seq<Call>, chs: seq<int>, vs: seq<Visit>)
    requires ValidChannels(chs) && |vs| == 8
    ensures SensorsFrom(fd, Opened(maxFd, prefix), chs, vs, 0).calls == prefix + SensorsFrom(fd, Opened(maxFd, []), chs, vs, 0).calls
    ensures SensorsFrom(fd, Opened(maxFd, prefix), chs, vs, 0).fd == SensorsFrom(fd, Opened(maxFd, []), chs, vs, 0).fd
  {
    assert prefix + [] == prefix;
    SensorsFromCalls(fd, Opened(maxFd, []), prefix, chs, vs, 0);
  }

  /** SensorsFrom only appends to the calls it starts from. */
  lemma {:induction false} SensorsFromCalls(fd: int, st: Opened, prefix: seq<Call>, chs: seq<int>, vs: seq<Visit>, i: nat)
    requires ValidChannels(chs) && |vs| == 8 && i <= |chs|
    ensures SensorsFrom(fd, Opened(st.fd, prefix + st.calls), chs, vs, i).calls == prefix + SensorsFrom(fd, st, chs, vs, i).calls
    ensures SensorsFrom(fd, Opened(st.fd, prefix + st.calls), chs, vs, i).fd == SensorsFrom(fd, st, chs, vs, i).fd
    decreases |chs| - i
  {
    if i < |chs| {
      var ch := chs[i];
      var next := SensorStep(fd, st, ch, vs[ch]);
      var r := Reach(fd, ch, vs[ch], st.fd);
      var ext := SensorStep(fd, Opened(st.fd, prefix + st.calls), ch, vs[ch]);
      if Reached(vs[ch]) {
        assert ext.calls == prefix + next.calls by {
          assert prefix + st.calls + r.calls + InitCalls(NarrowFd(r.fd), LED_AMPLITUDE)
            == prefix + (st.calls + r.calls + InitCalls(NarrowFd(r.fd), LED_AMPLITUDE));
        }
      } else {
        assert ext.calls == prefix + next.calls by {
          assert prefix + st.calls + r.calls == prefix + (st.calls + r.calls);
        }
      }
      assert ext == Opened(next.fd, prefix + next.calls);
      SensorsFromCalls(fd, next, prefix, chs, vs, i + 1);
    }
  }
}
