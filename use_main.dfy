/**
 * new_max30102/use.cpp, a stand-alone program. main opens the multiplexer
 * with init_i2c and returns -1 when that fails; otherwise it lists the
 * channels whose sensor answers with the shell scan, programs each listed
 * sensor through a handle of its own from init_i2c(0x57), and then visits
 * the listed channels forever, opening yet another sensor handle on every
 * visit and printing 50 reads through it. One sweep of that endless loop is
 * modelled.
 */
module UseMain {
  import opened Wrappers
  import opened Max30102
  import opened I2cBus
  import opened ChannelScan
  import opened ReadLoop
  import ShellScan
  import CollectDriver

  /** The number of finger_near_read calls per visit. */
  const READS_PER_CHANNEL: nat := 50

  /**
   * What the bus answered while the read loop visited one channel: the bytes
   * moved by the select write, the open and ioctl of init_i2c(0x57), and the
   * replies to the reads.
   */
  datatype Round = Round(selectWritten: int, open: OpenReply, burst: seq<FifoReply>)

  /** The channel's reads are made: the select byte went out and init_i2c returned a handle. */
  predicate Reached(r: Round) { r.selectWritten == 1 && r.open.fd != -1 && r.open.addressed }

  /**
   * The line finger_near_read prints: its two locals hold the decoded sample
   * when the read worked; otherwise they were never written, and None stands
   * for the indeterminate values printed.
   */
  function Line(r: FifoReply): (l: Option<Reading>)
  {
    if FifoOk(r) then Some(ReadFifo(0, r, Reading(0, 0)).out) else None
  }

  /** A printed line shows a sample exactly when its read worked, and then that read's decode. */
  lemma LineDecodes(r: FifoReply)
    ensures Line(r).Some? <==> FifoOk(r)
    ensures FifoOk(r) ==> Line(r) == Some(DecodeRecord(r.data))
  {
  }

  /** The lines of a run of reads, one per read. */
  function Lines(rs: seq<FifoReply>): seq<Option<Reading>>
  {
    seq(|rs|, j requires 0 <= j < |rs| => Line(rs[j]))
  }

  /** The calls of one visit of the read loop on the multiplexer handle fd. */
  function RoundCalls(fd: int, ch: int, r: Round): seq<Call>
    requires 0 <= ch < 8
  {
    if r.selectWritten != 1 then [SelectWrite(fd, ch)]
    else
      var h := InitI2c(MAX30102_ADDR, r.open);
      [SelectWrite(fd, ch)] + (h.calls + (if h.fd == -1 then [] else RunCalls(h.fd, r.burst)))
  }

  /** The lines one visit prints. */
  function RoundLines(r: Round): seq<Option<Reading>>
  {
    if Reached(r) then Lines(r.burst) else []
  }

  /** The calls of the read loop's sweep over list slots i.. */
  function SweepCalls(fd: int, chs: seq<int>, rds: seq<Round>, i: nat): seq<Call>
    requires ValidChannels(chs) && |rds| == 8 && i <= |chs|
    decreases |chs| - i
  {
    if i == |chs| then [] else RoundCalls(fd, chs[i], rds[chs[i]]) + SweepCalls(fd, chs, rds, i + 1)
  }

  /** The lines printed by the sweep over list slots i.. */
  function SweepLines(chs: seq<int>, rds: seq<Round>, i: nat): seq<Option<Reading>>
    requires ValidChannels(chs) && |rds| == 8 && i <= |chs|
    decreases |chs| - i
  {
    if i == |chs| then [] else RoundLines(rds[chs[i]]) + SweepLines(chs, rds, i + 1)
  }

  /** How many listed channels from slot i on are reached, and how many get their select byte out. */
  function ReachedCount(chs: seq<int>, rds: seq<Round>, i: nat): nat
    requires ValidChannels(chs) && |rds| == 8 && i <= |chs|
    decreases |chs| - i
  {
    if i == |chs| then 0 else (if Reached(rds[chs[i]]) then 1 else 0) + ReachedCount(chs, rds, i + 1)
  }

  function SelectedCount(chs: seq<int>, rds: seq<Round>, i: nat): nat
    requires ValidChannels(chs) && |rds| == 8 && i <= |chs|
    decreases |chs| - i
  {
    if i == |chs| then 0 else (if rds[chs[i]].selectWritten == 1 then 1 else 0) + SelectedCount(chs, rds, i + 1)
  }

  /** Every round carries a reply for each of the 50 reads. */
  predicate FullRounds(rds: seq<Round>)
  {
    forall i :: 0 <= i < |rds| ==> |rds[i].burst| == READS_PER_CHANNEL
  }

  /**
   * One visit selects its channel once, opens a sensor handle iff the select
   * byte went out, writes no register frame (the read loop does not
   * re-initialise), and reads iff the sensor is reached.
   */
  lemma RoundObserved(fd: int, ch: int, r: Round)
    requires 0 <= ch < 8
    ensures Visited(RoundCalls(fd, ch, r)) == [ch]
    ensures AllFrames(RoundCalls(fd, ch, r)) == []
    ensures Opens(RoundCalls(fd, ch, r)) == if r.selectWritten == 1 then 1 else 0
  {
    SelectWriteSelects(fd, ch);
    if r.selectWritten != 1 {
      ObserveCons(SelectWrite(fd, ch), []);
    } else {
      var h := InitI2c(MAX30102_ADDR, r.open);
      var g := if h.fd == -1 then [] else RunCalls(h.fd, r.burst);
      InitI2cObserved(MAX30102_ADDR, r.open);
      if h.fd != -1 {
        RunCallsObserved(h.fd, r.burst);
      }
      ObserveAppend(h.calls, g);
      ObserveCons(SelectWrite(fd, ch), h.calls + g);
    }
  }

  /** A visit makes its 50 read attempts iff the sensor is reached. */
  lemma RoundRequests(fd: int, ch: int, r: Round)
    requires 0 <= ch < 8
    ensures Requests(RoundCalls(fd, ch, r)) == if Reached(r) then |r.burst| else 0
  {
    SelectNotRequest(fd, ch);
    if r.selectWritten != 1 {
      RequestsCons(SelectWrite(fd, ch), []);
    } else {
      var h := InitI2c(MAX30102_ADDR, r.open);
      var g := if h.fd == -1 then [] else RunCalls(h.fd, r.burst);
      NoRequests(h.calls);
      if h.fd != -1 {
        RunCallsObserved(h.fd, r.burst);
      }
      RequestsAppend(h.calls, g);
      RequestsCons(SelectWrite(fd, ch), h.calls + g);
    }
  }

  /** A reached visit never closes the sensor handle it opened: each such visit leaks one handle. */
  lemma ReachedRoundLeaks(fd: int, ch: int, r: Round)
    requires 0 <= ch < 8 && Reached(r)
    ensures Open in RoundCalls(fd, ch, r)
    ensures forall i :: 0 <= i < |RoundCalls(fd, ch, r)| ==> !RoundCalls(fd, ch, r)[i].Close?
  {
    var h := InitI2c(MAX30102_ADDR, r.open);
    var g := RunCalls(h.fd, r.burst);
    RunCallsOnlyTransfers(h.fd, r.burst);
    var cs := [SelectWrite(fd, ch)] + (h.calls + g);
    assert h.calls == [Open, SetAddress(r.open.fd, MAX30102_ADDR)];
    assert cs[1] == Open;
    assert forall i :: 3 <= i < |cs| ==> cs[i] == g[i - 3];
  }

  /** The sweep selects the listed channels in list order and writes no register frame. */
  lemma {:induction false} SweepObserved(fd: int, chs: seq<int>, rds: seq<Round>, i: nat)
    requires ValidChannels(chs) && |rds| == 8 && i <= |chs|
    ensures Visited(SweepCalls(fd, chs, rds, i)) == chs[i..]
    ensures AllFrames(SweepCalls(fd, chs, rds, i)) == []
    ensures Opens(SweepCalls(fd, chs, rds, i)) == SelectedCount(chs, rds, i)
    decreases |chs| - i
  {
    if i < |chs| {
      var c := RoundCalls(fd, chs[i], rds[chs[i]]);
      RoundObserved(fd, chs[i], rds[chs[i]]);
      SweepObserved(fd, chs, rds, i + 1);
      ObserveAppend(c, SweepCalls(fd, chs, rds, i + 1));
      SliceCons(chs, i);
    }
  }

  /** The sweep makes 50 read attempts per reached channel. */
  lemma {:induction false} SweepRequests(fd: int, chs: seq<int>, rds: seq<Round>, i: nat)
    requires ValidChannels(chs) && |rds| == 8 && i <= |chs| && FullRounds(rds)
    ensures Requests(SweepCalls(fd, chs, rds, i)) == READS_PER_CHANNEL * ReachedCount(chs, rds, i)
    decreases |chs| - i
  {
    if i < |chs| {
      var c := RoundCalls(fd, chs[i], rds[chs[i]]);
      RoundRequests(fd, chs[i], rds[chs[i]]);
      SweepRequests(fd, chs, rds, i + 1);
      RequestsAppend(c, SweepCalls(fd, chs, rds, i + 1));
    }
  }

  /** The sweep prints 50 lines per reached channel. */
  lemma {:induction false} SweepLinesLength(chs: seq<int>, rds: seq<Round>, i: nat)
    requires ValidChannels(chs) && |rds| == 8 && i <= |chs| && FullRounds(rds)
    ensures |SweepLines(chs, rds, i)| == READS_PER_CHANNEL * ReachedCount(chs, rds, i)
    decreases |chs| - i
  {
    if i < |chs| {
      SweepLinesLength(chs, rds, i + 1);
    }
  }

  /** finger_near_read 50 times on the sensor handle mfd. */
  method ReadLines(mfd: int, rs: seq<FifoReply>) returns (lines: seq<Option<Reading>>, cs: seq<Call>)
    ensures lines == Lines(rs) && cs == RunCalls(mfd, rs)
  {
    lines, cs := [], [];
    var j := 0;
    while j < |rs|
      invariant 0 <= j <= |rs|
      invariant |lines| == j && forall m :: 0 <= m < j ==> lines[m] == Line(rs[m])
      invariant cs + RunCalls(mfd, rs[j..]) == RunCalls(mfd, rs)
    {
      var f := ReadFifo(mfd, rs[j], Reading(0, 0));
      var line := if FifoOk(rs[j]) then Some(f.out) else None;
      assert rs[j..][1..] == rs[j + 1..];
      ConsAssoc(cs, f.calls, RunCalls(mfd, rs[j + 1..]));
      lines := lines + [line];
      cs := cs + f.calls;
      j := j + 1;
    }
    assert cs + [] == cs;
  }

  /** One visit of the read loop. */
  method ReadRound(fd: int, ch: int, r: Round) returns (lines: seq<Option<Reading>>, cs: seq<Call>)
    requires 0 <= ch < 8
    ensures lines == RoundLines(r) && cs == RoundCalls(fd, ch, r)
  {
    lines, cs := [], [SelectWrite(fd, ch)];
    if r.selectWritten != 1 {
      return;
    }
    var h := InitI2c(MAX30102_ADDR, r.open);
    if h.fd == -1 {
      cs := cs + (h.calls + []);
      return;
    }
    var g;
    lines, g := ReadLines(h.fd, r.burst);
    cs := cs + (h.calls + g);
  }

  /**
   * max30102_init(fd, mode) never consults mode: the init loop passes the
   * same twelve writes for either mode, and its tenth and eleventh writes
   * set the LED1_PA (0x0C) and LED2_PA (0x0D) amplitudes to 0x24.
   */
  lemma InitLedWrites(fd: int)
    ensures InitCalls(fd, LED_AMPLITUDE)[9] == Write(fd, [0x0C, 0x24])
    ensures InitCalls(fd, LED_AMPLITUDE)[10] == Write(fd, [0x0D, 0x24])
  {
    InitCallsElements(fd, LED_AMPLITUDE);
  }

  /** One iteration of the initialisation loop; maxFd is max30102_fd before it. */
  method InitRound(fd: int, ch: int, v: CollectDriver.Visit, maxFd: int) returns (next: int, cs: seq<Call>)
    requires 0 <= ch < 8
    ensures Opened(next, cs) == CollectDriver.SensorStep(fd, Opened(maxFd, []), ch, v)
  {
    next, cs := maxFd, [SelectWrite(fd, ch)];
    if v.selectWritten != 1 {
      assert cs == [] + CollectDriver.Reach(fd, ch, v, maxFd).calls;
      return;
    }
    var h := InitI2c(MAX30102_ADDR, v.open);
    next := h.fd;
    cs := cs + h.calls;
    if next == -1 {
      assert cs == [] + CollectDriver.Reach(fd, ch, v, maxFd).calls;
      return;
    }
    cs := cs + InitCalls(NarrowFd(next), LED_AMPLITUDE);
    assert cs == [] + CollectDriver.Reach(fd, ch, v, maxFd).calls + InitCalls(NarrowFd(next), LED_AMPLITUDE);
  }

  /** The initialisation loop over the listed channels. */
  method InitLoop(fd: int, table: ChannelTable, vs: seq<CollectDriver.Visit>) returns (cs: seq<Call>)
    requires table.Valid() && |vs| == 8
    ensures ValidChannels(table.Contents())
    ensures cs == CollectDriver.SensorsFrom(fd, Opened(-1, []), table.Contents(), vs, 0).calls
  {
    CollectDriver.TableChannels(table);
    var chs := table.Contents();
    var maxFd := -1;
    cs := [];
    var i := 0;
    while i < table.count
      invariant 0 <= i <= table.count
      invariant CollectDriver.SensorsFrom(fd, Opened(maxFd, cs), chs, vs, i)
        == CollectDriver.SensorsFrom(fd, Opened(-1, []), chs, vs, 0)
    {
      var ch := table.Get(i);
      var next, step := InitRound(fd, ch, vs[ch], maxFd);
      InitStepAppends(fd, maxFd, cs, ch, vs[ch]);
      maxFd, cs := next, cs + step;
      i := i + 1;
    }
  }

  /** An iteration of the initialisation loop appends its calls to those before it. */
  lemma InitStepAppends(fd: int, maxFd: int, before: seq<Call>, ch: int, v: CollectDriver.Visit)
    requires 0 <= ch < 8
    ensures CollectDriver.SensorStep(fd, Opened(maxFd, before), ch, v) ==
      Opened(CollectDriver.SensorStep(fd, Opened(maxFd, []), ch, v).fd, before + CollectDriver.SensorStep(fd, Opened(maxFd, []), ch, v).calls)
  {
    var r := CollectDriver.Reach(fd, ch, v, maxFd);
    ConsAssoc(before, r.calls, InitCalls(NarrowFd(r.fd), LED_AMPLITUDE));
    assert [] + r.calls == r.calls;
  }

  /** One sweep of the endless read loop. */
  method ReadSweep(fd: int, table: ChannelTable, rds: seq<Round>) returns (lines: seq<Option<Reading>>, cs: seq<Call>)
    requires table.Valid() && |rds| == 8
    ensures ValidChannels(table.Contents())
    ensures lines == SweepLines(table.Contents(), rds, 0) && cs == SweepCalls(fd, table.Contents(), rds, 0)
  {
    CollectDriver.TableChannels(table);
    var chs := table.Contents();
    lines, cs := [], [];
    var i := 0;
    while i < table.count
      invariant 0 <= i <= table.count
      invariant lines + SweepLines(chs, rds, i) == SweepLines(chs, rds, 0)
      invariant cs + SweepCalls(fd, chs, rds, i) == SweepCalls(fd, chs, rds, 0)
    {
      var ch := table.Get(i);
      var l, step := ReadRound(fd, ch, rds[ch]);
      ConsAssoc(lines, l, SweepLines(chs, rds, i + 1));
      ConsAssoc(cs, step, SweepCalls(fd, chs, rds, i + 1));
      lines, cs := lines + l, cs + step;
      i := i + 1;
    }
    assert lines + [] == lines && cs + [] == cs;
  }

  /**
   * main, up to the end of the first sweep of its endless loop. exitCode is
   * Some(-1) when main returns because the multiplexer could not be opened
   * and addressed, and None when it enters the read loop, which never ends.
   */
  method Run(first: OpenReply, shell: seq<ChannelReply>, inits: seq<CollectDriver.Visit>, rds: seq<Round>)
    returns (exitCode: Option<int>, chs: seq<int>, lines: seq<Option<Reading>>, calls: seq<Call>)
    requires |shell| == 8 && |inits| == 8 && |rds| == 8
    ensures var o := InitI2c(TCA9548A_ADDR, first);
      (exitCode == Some(-1) <==> o.fd == -1) && (exitCode != Some(-1) ==> exitCode == None)
    ensures var o := InitI2c(TCA9548A_ADDR, first);
      o.fd == -1 ==> chs == [] && lines == [] && calls == o.calls
    ensures var o := InitI2c(TCA9548A_ADDR, first);
      o.fd != -1 ==>
        chs == Accepted(ShellScan.FoundFlags(shell)) && ValidChannels(chs) &&
        lines == SweepLines(chs, rds, 0) &&
        calls == o.calls + ShellScan.ScanCalls(shell, 0)
          + CollectDriver.SensorsFrom(o.fd, Opened(-1, []), chs, inits, 0).calls
          + SweepCalls(o.fd, chs, rds, 0)
  {
    var o := InitI2c(TCA9548A_ADDR, first);
    calls := o.calls;
    if o.fd == -1 {
      exitCode, chs, lines := Some(-1), [], [];
      return;
    }
    var table := new ChannelTable();
    var scan := ShellScan.Collect(table, shell);
    var init := InitLoop(o.fd, table, inits);
    var sweep;
    lines, sweep := ReadSweep(o.fd, table, rds);
    chs := table.Contents();
    calls := calls + scan + init + sweep;
    exitCode := None;
  }
}
