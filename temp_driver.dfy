/**
 * The driver class of temp_max30102/max30102.cpp. The constructor opens the
 * bus and addresses the multiplexer (fd is -1 when either fails), then scans
 * channels 0..7 on that handle: a failed select byte makes it close the
 * handle and open and address a new one, again -1 on failure; a channel
 * whose sensor address is accepted is initialised and listed. One pass of
 * get_data selects every listed channel in turn and reads it 50 times.
 */
module TempDriver {
  import opened Max30102
  import opened I2cBus
  import opened ChannelScan
  import opened ReadLoop
  import RootDriver

  /** The number of read_fifo calls per channel in one pass of get_data. */
  const READS_PER_CHANNEL: nat := 50

  /**
   * One channel of the constructor scan on handle fd: the select byte, then
   * what follows it. A failed select byte replaces the handle by a reopened
   * one (or -1); otherwise the handle stays.
   */
  function ScanStep(fd: int, ch: int, r: ChannelReply): (o: Opened)
    requires 0 <= ch < 8
    ensures r.selectWritten != 1 ==> (o.fd != -1 <==> r.reopen.fd != -1 && r.reopen.addressed)
    ensures r.selectWritten == 1 ==> o.fd == fd
  {
    var t := AfterSelect(fd, r);
    Opened(t.fd, [SelectWrite(fd, ch)] + t.calls)
  }

  /** What follows the select byte: close and reopen on a failure, else address the sensor and, if accepted, initialise it. */
  function AfterSelect(fd: int, r: ChannelReply): Opened
  {
    if r.selectWritten != 1 then
      var h := InitI2c(TCA9548A_ADDR, r.reopen);
      Opened(h.fd, [Close(fd)] + h.calls)
    else if !r.maxAddressed then
      Opened(fd, [SetAddress(fd, MAX30102_ADDR)])
    else
      Opened(fd, [SetAddress(fd, MAX30102_ADDR)] + InitCalls(fd, LED_AMPLITUDE))
  }

  /** Channels from..7 of the scan, starting on handle fd. */
  function ScanFrom(fd: int, rs: seq<ChannelReply>, from: nat): Opened
    requires |rs| == 8 && from <= 8
    decreases 8 - from
  {
    if from == 8 then Opened(fd, [])
    else
      var s := ScanStep(fd, from, rs[from]);
      var rest := ScanFrom(s.fd, rs, from + 1);
      Opened(rest.fd, s.calls + rest.calls)
  }

  /** After the select byte nothing is selected; the bus is opened once iff the select failed; the init frames are written iff the channel is listed. */
  lemma AfterSelectObserved(fd: int, r: ChannelReply)
    ensures Visited(AfterSelect(fd, r).calls) == []
    ensures Opens(AfterSelect(fd, r).calls) == (if r.selectWritten != 1 then 1 else 0)
    ensures AllFrames(AfterSelect(fd, r).calls) == if RootDriver.Passes(r) then InitFrames(LED_AMPLITUDE) else []
  {
    if r.selectWritten != 1 {
      var h := InitI2c(TCA9548A_ADDR, r.reopen);
      InitI2cObserved(TCA9548A_ADDR, r.reopen);
      ObserveCons(Close(fd), h.calls);
    } else if !r.maxAddressed {
      ObserveCons(SetAddress(fd, MAX30102_ADDR), []);
    } else {
      InitCallsObserved(fd, LED_AMPLITUDE);
      ObserveCons(SetAddress(fd, MAX30102_ADDR), InitCalls(fd, LED_AMPLITUDE));
    }
  }

  /** One channel selects that channel only, opens the bus once on a failed select, and writes the init frames iff it is listed. */
  lemma StepObserved(fd: int, ch: int, r: ChannelReply)
    requires 0 <= ch < 8
    ensures Visited(ScanStep(fd, ch, r).calls) == [ch]
    ensures Opens(ScanStep(fd, ch, r).calls) == (if r.selectWritten != 1 then 1 else 0)
    ensures AllFrames(ScanStep(fd, ch, r).calls) == if RootDriver.Passes(r) then InitFrames(LED_AMPLITUDE) else []
  {
    SelectWriteSelects(fd, ch);
    AfterSelectObserved(fd, r);
    ObserveCons(SelectWrite(fd, ch), AfterSelect(fd, r).calls);
  }

  /** The scan selects every channel from..7 once, in ascending order. */
  lemma {:induction false} ScanVisits(fd: int, rs: seq<ChannelReply>, from: nat)
    requires |rs| == 8 && from <= 8
    ensures Visited(ScanFrom(fd, rs, from).calls) == Channels(from, 8)
    decreases 8 - from
  {
    if from < 8 {
      var s := ScanStep(fd, from, rs[from]);
      ScanFromStep(fd, rs, from);
      ScanVisits(s.fd, rs, from + 1);
      VisitedAppend(s.calls, ScanFrom(s.fd, rs, from + 1).calls);
      StepObserved(fd, from, rs[from]);
    }
  }

  /** The scan opens the bus again once per failed select byte. */
  lemma {:induction false} ScanOpens(fd: int, rs: seq<ChannelReply>, from: nat)
    requires |rs| == 8 && from <= 8
    ensures Opens(ScanFrom(fd, rs, from).calls) == CountTrue(RootDriver.SelectFailFlags(rs)[from..])
    decreases 8 - from
  {
    if from < 8 {
      var s := ScanStep(fd, from, rs[from]);
      ScanFromStep(fd, rs, from);
      ScanOpens(s.fd, rs, from + 1);
      CountsAppend(s.calls, ScanFrom(s.fd, rs, from + 1).calls);
      StepObserved(fd, from, rs[from]);
      var fail := RootDriver.SelectFailFlags(rs)[from..];
      assert fail[1..] == RootDriver.SelectFailFlags(rs)[from + 1..];
      assert CountTrue(fail) == (if rs[from].selectWritten != 1 then 1 else 0) + CountTrue(fail[1..]);
    }
  }

  /** The scan writes the twelve init frames once per listed channel, and no other frame. */
  lemma {:induction false} ScanFrames(fd: int, rs: seq<ChannelReply>, from: nat)
    requires |rs| == 8 && from <= 8
    ensures AllFrames(ScanFrom(fd, rs, from).calls) == Repeat(InitFrames(LED_AMPLITUDE), CountTrue(RootDriver.PassFlags(rs)[from..]))
    decreases 8 - from
  {
    if from < 8 {
      var s := ScanStep(fd, from, rs[from]);
      ScanFromStep(fd, rs, from);
      ScanFrames(s.fd, rs, from + 1);
      CountsAppend(s.calls, ScanFrom(s.fd, rs, from + 1).calls);
      StepObserved(fd, from, rs[from]);
      var pass := RootDriver.PassFlags(rs)[from..];
      assert pass[1..] == RootDriver.PassFlags(rs)[from + 1..];
      var c := CountTrue(pass[1..]);
      assert CountTrue(pass) == (if RootDriver.Passes(rs[from]) then 1 else 0) + c;
      RepeatCons([], InitFrames(LED_AMPLITUDE), AllFrames(s.calls), c, RootDriver.Passes(rs[from]));
      assert [] + AllFrames(s.calls) == AllFrames(s.calls);
    }
  }

  /** While every select byte goes out, the scan keeps the handle it started with. */
  lemma {:induction false} ScanKeepsHandle(fd: int, rs: seq<ChannelReply>, from: nat)
    requires |rs| == 8 && from <= 8
    requires forall c :: from <= c < 8 ==> rs[c].selectWritten == 1
    ensures ScanFrom(fd, rs, from).fd == fd
    decreases 8 - from
  {
    if from < 8 {
      ScanKeepsHandle(fd, rs, from + 1);
    }
  }

  /** A failed select byte on the last channel leaves the reopened handle, -1 exactly when init_i2c failed. */
  lemma LastReopen(fd: int, rs: seq<ChannelReply>)
    requires |rs| == 8 && rs[7].selectWritten != 1
    ensures ScanFrom(fd, rs, 7).fd == InitI2c(TCA9548A_ADDR, rs[7].reopen).fd
    ensures ScanFrom(fd, rs, 7).fd == -1 <==> rs[7].reopen.fd == -1 || !rs[7].reopen.addressed
  {
  }

  lemma ScanFromStep(fd: int, rs: seq<ChannelReply>, i: nat)
    requires |rs| == 8 && i < 8
    ensures ScanFrom(fd, rs, i).calls == ScanStep(fd, i, rs[i]).calls + ScanFrom(ScanStep(fd, i, rs[i]).fd, rs, i + 1).calls
    ensures ScanFrom(fd, rs, i).fd == ScanFrom(ScanStep(fd, i, rs[i]).fd, rs, i + 1).fd
  {
  }

  // One pass of get_data

  /** The temporaries after the channels so far, and the calls issued so far. */
  function PassStep(fd: int, st: Fetched, ch: int, burst: seq<FifoReply>): Fetched
    requires 0 <= ch < 8
  {
    var g := ReadRun(fd, burst, st.out);
    Fetched(g.out, st.calls + SelectThen(fd, ch, g.calls))
  }

  /** The pass from list slot i on: select the channel, address the sensor, read its burst. */
  function PassFrom(fd: int, st: Fetched, chs: seq<int>, bursts: seq<seq<FifoReply>>, i: nat): Fetched
    requires ValidChannels(chs) && |bursts| == |chs| && i <= |chs|
    decreases |chs| - i
  {
    if i == |chs| then st else PassFrom(fd, PassStep(fd, st, chs[i], bursts[i]), chs, bursts, i + 1)
  }

  predicate FullBursts(bursts: seq<seq<FifoReply>>, n: nat)
  {
    forall i :: 0 <= i < |bursts| ==> |bursts[i]| == n
  }

  /** One channel of the pass selects that channel and makes as many read attempts as its burst has replies. */
  lemma PassStepObserved(fd: int, st: Fetched, ch: int, burst: seq<FifoReply>)
    requires 0 <= ch < 8
    ensures Visited(PassStep(fd, st, ch, burst).calls) == Visited(st.calls) + [ch]
    ensures Requests(PassStep(fd, st, ch, burst).calls) == Requests(st.calls) + |burst|
  {
    var g := ReadRun(fd, burst, st.out);
    ReadRunCalls(fd, burst, st.out);
    ReadRunRequests(fd, burst, st.out);
    SelectThenObserved(fd, ch, g.calls);
    VisitedAppend(st.calls, SelectThen(fd, ch, g.calls));
    RequestsAppend(st.calls, SelectThen(fd, ch, g.calls));
  }

  /** The pass selects the listed channels in list order and makes READS_PER_CHANNEL read attempts on each. */
  lemma {:induction false} PassObserved(fd: int, st: Fetched, chs: seq<int>, bursts: seq<seq<FifoReply>>, i: nat)
    requires ValidChannels(chs) && |bursts| == |chs| && i <= |chs| && FullBursts(bursts, READS_PER_CHANNEL)
    ensures Visited(PassFrom(fd, st, chs, bursts, i).calls) == Visited(st.calls) + chs[i..]
    ensures Requests(PassFrom(fd, st, chs, bursts, i).calls) == Requests(st.calls) + READS_PER_CHANNEL * (|chs| - i)
    decreases |chs| - i
  {
    if i < |chs| {
      var n := PassStep(fd, st, chs[i], bursts[i]);
      PassStepObserved(fd, st, chs[i], bursts[i]);
      PassObserved(fd, n, chs, bursts, i + 1);
      SliceCons(chs, i);
      ConsAssoc(Visited(st.calls), [chs[i]], chs[i + 1..]);
    } else {
      assert chs[i..] == [];
    }
  }

  /** The values a pass leaves are 18-bit samples, when the temporaries started as such. */
  lemma {:induction false} PassBound(fd: int, st: Fetched, chs: seq<int>, bursts: seq<seq<FifoReply>>, i: nat)
    requires ValidChannels(chs) && |bursts| == |chs| && i <= |chs|
    requires st.out.red <= 0x3FFFF && st.out.ir <= 0x3FFFF
    ensures PassFrom(fd, st, chs, bursts, i).out.red <= 0x3FFFF && PassFrom(fd, st, chs, bursts, i).out.ir <= 0x3FFFF
    decreases |chs| - i
  {
    if i < |chs| {
      ReadRunBound(fd, bursts[i], st.out);
      PassBound(fd, PassStep(fd, st, chs[i], bursts[i]), chs, bursts, i + 1);
    }
  }

  /**
   * The loop of one pass: for each listed channel, write its select byte and
   * address the sensor (neither is checked), then make READS_PER_CHANNEL
   * reads into the temporaries, copying them to the outputs after each.
   */
  method ReadListed(fd: int, chs: seq<int>, bursts: seq<seq<FifoReply>>, temp: Reading, out: Reading) returns (t: Reading, o: Reading, cs: seq<Call>)
    requires ValidChannels(chs) && |bursts| == |chs| && FullBursts(bursts, READS_PER_CHANNEL)
    ensures t == PassFrom(fd, Fetched(temp, []), chs, bursts, 0).out
    ensures cs == PassFrom(fd, Fetched(temp, []), chs, bursts, 0).calls
    ensures o == if |chs| == 0 then out else t
  {
    ghost var goal := PassFrom(fd, Fetched(temp, []), chs, bursts, 0);
    ghost var acc := Fetched(temp, []);
    t, o, cs := temp, out, [];
    var i := 0;
    while i < |chs|
      invariant 0 <= i <= |chs|
      invariant PassFrom(fd, acc, chs, bursts, i) == goal
      invariant cs == acc.calls && t == acc.out
      invariant o == if i == 0 then out else t
    {
      assert |bursts[i]| == READS_PER_CHANNEL;
      t, o, cs := ReadChannel(fd, chs[i], bursts[i], acc, t, o, cs);
      PassFromNext(fd, acc, chs, bursts, i);
      acc := PassStep(fd, acc, chs[i], bursts[i]);
      i := i + 1;
    }
  }

  /** One listed channel: select it, address the sensor, read its burst into the temporaries and the outputs. */
  method ReadChannel(fd: int, ch: int, burst: seq<FifoReply>, ghost st: Fetched, temp: Reading, out: Reading, calls: seq<Call>)
    returns (t: Reading, o: Reading, cs: seq<Call>)
    requires 0 <= ch < 8 && |burst| > 0 && temp == st.out && calls == st.calls
    ensures t == PassStep(fd, st, ch, burst).out && cs == PassStep(fd, st, ch, burst).calls && o == t
  {
    var rc;
    t, o, rc := Burst(fd, burst, temp, out);
    cs := calls + SelectThen(fd, ch, rc);
  }

  lemma PassFromNext(fd: int, st: Fetched, chs: seq<int>, bursts: seq<seq<FifoReply>>, i: nat)
    requires ValidChannels(chs) && |bursts| == |chs| && i < |chs|
    ensures PassFrom(fd, st, chs, bursts, i) == PassFrom(fd, PassStep(fd, st, chs[i], bursts[i]), chs, bursts, i + 1)
  {
  }

  class Driver {
    var fd: int
    const table: ChannelTable
    /** The calls issued so far. */
    var calls: seq<Call>

    /**
     * The constructor: open and address the multiplexer, then scan channels
     * 0..7; the listed channels are exactly those whose select byte went out
     * and whose sensor address was accepted, in ascending order.
     */
    constructor (first: OpenReply, rs: seq<ChannelReply>)
      requires |rs| == 8
      ensures table.Valid() && fresh(table) && fresh(table.slots)
      ensures table.Contents() == Accepted(RootDriver.PassFlags(rs))
      ensures fd == ScanFrom(InitI2c(TCA9548A_ADDR, first).fd, rs, 0).fd
      ensures calls == InitI2c(TCA9548A_ADDR, first).calls + ScanFrom(InitI2c(TCA9548A_ADDR, first).fd, rs, 0).calls
    {
      var o := InitI2c(TCA9548A_ADDR, first);
      fd := o.fd;
      calls := o.calls;
      table := new ChannelTable();
      new;
      Scan(rs);
    }

    /** The constructor's loop over channels 0..7. */
    method Scan(rs: seq<ChannelReply>)
      requires |rs| == 8 && table.Valid() && table.count == 0
      modifies this`fd, this`calls, table, table.slots
      ensures table.Valid() && table.Contents() == Accepted(RootDriver.PassFlags(rs))
      ensures fd == ScanFrom(old(fd), rs, 0).fd
      ensures calls == old(calls) + ScanFrom(old(fd), rs, 0).calls
    {
      var i := 0;
      while i < 8
        invariant 0 <= i <= 8
        invariant table.Valid() && table.Contents() == Accepted(RootDriver.PassFlags(rs)[..i]) && table.count <= i
        invariant calls + ScanFrom(fd, rs, i).calls == old(calls) + ScanFrom(old(fd), rs, 0).calls
        invariant ScanFrom(fd, rs, i).fd == ScanFrom(old(fd), rs, 0).fd
      {
        ghost var fd0, calls0 := fd, calls;
        ScanFromStep(fd0, rs, i);
        Visit(i, rs[i]);
        ConsAssoc(calls0, ScanStep(fd0, i, rs[i]).calls, ScanFrom(fd, rs, i + 1).calls);
        AcceptedSnoc(RootDriver.PassFlags(rs), i);
        i := i + 1;
      }
      assert RootDriver.PassFlags(rs)[..8] == RootDriver.PassFlags(rs);
    }

    /** One iteration of the scan loop, on channel ch. */
    method Visit(ch: int, r: ChannelReply)
      requires table.Valid() && 0 <= ch < 8 && table.count <= ch
      modifies this`fd, this`calls, table, table.slots
      ensures table.Valid()
      ensures table.Contents() == old(table.Contents()) + (if RootDriver.Passes(r) then [ch] else [])
      ensures fd == ScanStep(old(fd), ch, r).fd
      ensures calls == old(calls) + ScanStep(old(fd), ch, r).calls
    {
      var sel := SelectWrite(fd, ch);
      if r.selectWritten != 1 {
        var h := InitI2c(TCA9548A_ADDR, r.reopen);
        calls := calls + ([sel] + ([Close(fd)] + h.calls));
        fd := h.fd;
      } else if !r.maxAddressed {
        calls := calls + ([sel] + [SetAddress(fd, MAX30102_ADDR)]);
      } else {
        calls := calls + ([sel] + ([SetAddress(fd, MAX30102_ADDR)] + InitCalls(fd, LED_AMPLITUDE)));
        table.Append(ch);
      }
    }

    /**
     * One pass of get_data's endless loop over the listed channels, on the
     * shared handle. temp is what the temporaries held before the pass.
     */
    method GetDataPass(bursts: seq<seq<FifoReply>>, temp: Reading, out: Reading) returns (t: Reading, o: Reading)
      requires table.Valid() && |bursts| == table.count && FullBursts(bursts, READS_PER_CHANNEL)
      modifies this`calls
      ensures t == PassFrom(fd, Fetched(temp, []), table.Contents(), bursts, 0).out
      ensures calls == old(calls) + PassFrom(fd, Fetched(temp, []), table.Contents(), bursts, 0).calls
      ensures o == if table.count == 0 then out else t
    {
      var cs;
      t, o, cs := ReadListed(fd, table.Contents(), bursts, temp, out);
      calls := calls + cs;
    }
  }
}
