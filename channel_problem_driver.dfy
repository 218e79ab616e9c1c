/**
 * The driver class of channel_problem/max30102.cpp. The constructor opens a
 * fresh handle on every channel and addresses the multiplexer (neither is
 * checked) before writing the select byte; a failed select closes it and
 * opens and addresses another one (-1 on failure); a channel whose sensor
 * address is accepted is initialised and listed. Handles are never closed
 * otherwise. One pass of get_data opens one more handle and reads the
 * hard-coded channels 1, 2 and 3, 20 times each, ignoring the list.
 */
module ChannelProblemDriver {
  import opened Wrappers
  import opened Max30102
  import opened I2cBus
  import opened ChannelScan
  import opened ReadLoop
  import RootDriver

  /** The number of read_fifo calls per channel in one pass of get_data. */
  const READS_PER_CHANNEL: nat := 20

  /** What the bus answered while the constructor visited one channel. */
  datatype Round = Round(
    openFd: int,         // open(device, O_RDWR) at the top of the iteration
    selectWritten: int,  // bytes moved by the select write
    reopen: OpenReply,   // the handle opened after a failed select
    maxAddressed: bool)  // ioctl(fd, I2C_SLAVE, 0x57)

  predicate Listed(r: Round) { r.selectWritten == 1 && r.maxAddressed }

  function ListedFlags(rs: seq<Round>): seq<bool>
  {
    seq(|rs|, i requires 0 <= i < |rs| => Listed(rs[i]))
  }

  function FailFlags(rs: seq<Round>): seq<bool>
  {
    seq(|rs|, i requires 0 <= i < |rs| => rs[i].selectWritten != 1)
  }

  /** What follows the select byte on handle h. */
  function AfterSelect(h: int, r: Round): Opened
  {
    if r.selectWritten != 1 then
      var o := InitI2c(TCA9548A_ADDR, r.reopen);
      Opened(o.fd, [Close(h)] + o.calls)
    else if !r.maxAddressed then
      Opened(h, [SetAddress(h, MAX30102_ADDR)])
    else
      Opened(h, [SetAddress(h, MAX30102_ADDR)] + InitCalls(h, LED_AMPLITUDE))
  }

  /** One iteration of the constructor loop: a fresh handle, the multiplexer's address, the select byte, then the rest. */
  function ScanStep(ch: int, r: Round): (o: Opened)
    requires 0 <= ch < 8
    ensures r.selectWritten == 1 ==> o.fd == r.openFd
    ensures r.selectWritten != 1 ==> (o.fd != -1 <==> r.reopen.fd != -1 && r.reopen.addressed)
  {
    var t := AfterSelect(r.openFd, r);
    Opened(t.fd, [Open, SetAddress(r.openFd, TCA9548A_ADDR)] + ([SelectWrite(r.openFd, ch)] + t.calls))
  }

  /** Channels from..7; fd is what the member held before channel from. */
  function ScanFrom(fd: int, rs: seq<Round>, from: nat): Opened
    requires |rs| == 8 && from <= 8
    decreases 8 - from
  {
    if from == 8 then Opened(fd, [])
    else
      var s := ScanStep(from, rs[from]);
      var rest := ScanFrom(s.fd, rs, from + 1);
      Opened(rest.fd, s.calls + rest.calls)
  }

  lemma ScanFromStep(fd: int, rs: seq<Round>, i: nat)
    requires |rs| == 8 && i < 8
    ensures ScanFrom(fd, rs, i).calls == ScanStep(i, rs[i]).calls + ScanFrom(ScanStep(i, rs[i]).fd, rs, i + 1).calls
    ensures ScanFrom(fd, rs, i).fd == ScanFrom(ScanStep(i, rs[i]).fd, rs, i + 1).fd
  {
  }

  /** Every iteration overwrites the member: after the loop it holds what the last channel left, whatever came before. */
  lemma LastChannelDecides(fd: int, rs: seq<Round>)
    requires |rs| == 8
    ensures ScanFrom(fd, rs, 0).fd == ScanStep(7, rs[7]).fd
  {
    var i := 0;
    var h := fd;
    while i < 7
      invariant 0 <= i <= 7
      invariant ScanFrom(fd, rs, 0).fd == ScanFrom(h, rs, i).fd
    {
      ScanFromStep(h, rs, i);
      h := ScanStep(i, rs[i]).fd;
      i := i + 1;
    }
    ScanFromStep(h, rs, 7);
  }

  /** After the select byte nothing is selected; the bus is opened again iff the select failed; the init frames are written iff the channel is listed. */
  lemma AfterSelectObserved(h: int, r: Round)
    ensures Visited(AfterSelect(h, r).calls) == []
    ensures Opens(AfterSelect(h, r).calls) == (if r.selectWritten != 1 then 1 else 0)
    ensures AllFrames(AfterSelect(h, r).calls) == if Listed(r) then InitFrames(LED_AMPLITUDE) else []
  {
    if r.selectWritten != 1 {
      var o := InitI2c(TCA9548A_ADDR, r.reopen);
      InitI2cObserved(TCA9548A_ADDR, r.reopen);
      ObserveCons(Close(h), o.calls);
    } else if !r.maxAddressed {
      ObserveCons(SetAddress(h, MAX30102_ADDR), []);
    } else {
      InitCallsObserved(h, LED_AMPLITUDE);
      ObserveCons(SetAddress(h, MAX30102_ADDR), InitCalls(h, LED_AMPLITUDE));
    }
  }

  /** One iteration selects its channel only, opens the bus once or (after a failed select) twice, and writes the init frames iff it lists the channel. */
  lemma StepObserved(ch: int, r: Round)
    requires 0 <= ch < 8
    ensures Visited(ScanStep(ch, r).calls) == [ch]
    ensures Opens(ScanStep(ch, r).calls) == 1 + (if r.selectWritten != 1 then 1 else 0)
    ensures AllFrames(ScanStep(ch, r).calls) == if Listed(r) then InitFrames(LED_AMPLITUDE) else []
  {
    var t := AfterSelect(r.openFd, r).calls;
    var sel := [SelectWrite(r.openFd, ch)] + t;
    SelectWriteSelects(r.openFd, ch);
    AfterSelectObserved(r.openFd, r);
    ObserveCons(SelectWrite(r.openFd, ch), t);
    ObserveCons(Open, [SetAddress(r.openFd, TCA9548A_ADDR)] + sel);
    ObserveCons(SetAddress(r.openFd, TCA9548A_ADDR), sel);
    assert [Open, SetAddress(r.openFd, TCA9548A_ADDR)] + sel == [Open] + ([SetAddress(r.openFd, TCA9548A_ADDR)] + sel);
  }

  /** The scan selects every channel from..7 once, in ascending order. */
  lemma {:induction false} ScanVisits(fd: int, rs: seq<Round>, from: nat)
    requires |rs| == 8 && from <= 8
    ensures Visited(ScanFrom(fd, rs, from).calls) == Channels(from, 8)
    decreases 8 - from
  {
    if from < 8 {
      var s := ScanStep(from, rs[from]);
      ScanFromStep(fd, rs, from);
      ScanVisits(s.fd, rs, from + 1);
      VisitedAppend(s.calls, ScanFrom(s.fd, rs, from + 1).calls);
      StepObserved(from, rs[from]);
    }
  }

  /** The scan opens the bus once per channel, and once more per failed select byte. */
  lemma {:induction false} ScanOpens(fd: int, rs: seq<Round>, from: nat)
    requires |rs| == 8 && from <= 8
    ensures Opens(ScanFrom(fd, rs, from).calls) == (8 - from) + CountTrue(FailFlags(rs)[from..])
    decreases 8 - from
  {
    if from < 8 {
      var s := ScanStep(from, rs[from]);
      ScanFromStep(fd, rs, from);
      ScanOpens(s.fd, rs, from + 1);
      CountsAppend(s.calls, ScanFrom(s.fd, rs, from + 1).calls);
      StepObserved(from, rs[from]);
      var fail := FailFlags(rs)[from..];
      assert fail[1..] == FailFlags(rs)[from + 1..];
      assert CountTrue(fail) == (if rs[from].selectWritten != 1 then 1 else 0) + CountTrue(fail[1..]);
    }
  }

  /** The scan writes the twelve init frames once per listed channel, and no other frame. */
  lemma {:induction false} ScanFrames(fd: int, rs: seq<Round>, from: nat)
    requires |rs| == 8 && from <= 8
    ensures AllFrames(ScanFrom(fd, rs, from).calls) == Repeat(InitFrames(LED_AMPLITUDE), CountTrue(ListedFlags(rs)[from..]))
    decreases 8 - from
  {
    if from < 8 {
      var s := ScanStep(from, rs[from]);
      ScanFromStep(fd, rs, from);
      ScanFrames(s.fd, rs, from + 1);
      CountsAppend(s.calls, ScanFrom(s.fd, rs, from + 1).calls);
      StepObserved(from, rs[from]);
      var pass := ListedFlags(rs)[from..];
      assert pass[1..] == ListedFlags(rs)[from + 1..];
      var c := CountTrue(pass[1..]);
      assert CountTrue(pass) == (if Listed(rs[from]) then 1 else 0) + c;
      RepeatCons([], InitFrames(LED_AMPLITUDE), AllFrames(s.calls), c, Listed(rs[from]));
      assert [] + AllFrames(s.calls) == AllFrames(s.calls);
    }
  }

  /** The only select byte of an iteration is its third call, right after the fresh handle is addressed to the multiplexer. */
  lemma StepSelects(ch: int, r: Round)
    requires 0 <= ch < 8
    ensures var cs := ScanStep(ch, r).calls;
      |cs| >= 3 && cs[2] == SelectWrite(r.openFd, ch) && cs[1] == SetAddress(r.openFd, TCA9548A_ADDR) &&
      forall i :: 0 <= i < |cs| && i != 2 ==> SelectedBy(cs[i]).None?
  {
    var cs := ScanStep(ch, r).calls;
    var t := AfterSelect(r.openFd, r).calls;
    assert cs == [Open, SetAddress(r.openFd, TCA9548A_ADDR), SelectWrite(r.openFd, ch)] + t;
    forall i | 3 <= i < |cs|
      ensures SelectedBy(cs[i]).None?
    {
      assert cs[i] == t[i - 3];
      if Listed(r) && i >= 4 {
        RootDriver.FrameCallsPairs(r.openFd, InitFrames(LED_AMPLITUDE), i - 4);
      }
    }
  }

  /**
   * Unlike the shared-handle variants, this scan writes every select byte on
   * a handle whose last address is the multiplexer's, whatever the bus
   * answers and whatever history h precedes it.
   */
  lemma {:induction false} ScanReachesMux(h: seq<Call>, fd: int, rs: seq<Round>, from: nat)
    requires |rs| == 8 && from <= 8
    ensures RootDriver.SelectsReachMux(h, ScanFrom(fd, rs, from).calls)
    decreases 8 - from
  {
    if from < 8 {
      var s := ScanStep(from, rs[from]);
      StepSelects(from, rs[from]);
      ScanFromStep(fd, rs, from);
      ScanReachesMux(h + s.calls, s.fd, rs, from + 1);
      RootDriver.ReachMuxCons(h, s.calls, ScanFrom(s.fd, rs, from + 1).calls, 2);
    }
  }

  // One pass of get_data

  /** The channels get_data reads, fixed in the code. */
  const PASS_CHANNELS: seq<int> := [1, 2, 3]

  /** One channel of the pass on handle fd: a failed select skips it; a failed sensor address closes the handle and skips it; otherwise 20 reads. */
  function ChannelCalls(fd: int, prior: Reading, ch: int, a: Attempt): Fetched
    requires 0 <= ch < 8
  {
    if a.selectWritten != 1 then Fetched(prior, [SelectWrite(fd, ch)])
    else if !a.maxAddressed then Fetched(prior, SelectThen(fd, ch, [Close(fd)]))
    else
      var g := ReadRun(fd, a.burst, prior);
      Fetched(g.out, SelectThen(fd, ch, g.calls))
  }

  function PassStep(fd: int, st: Fetched, ch: int, a: Attempt): Fetched
    requires 0 <= ch < 8
  {
    var c := ChannelCalls(fd, st.out, ch, a);
    Fetched(c.out, st.calls + c.calls)
  }

  /** The pass from PASS_CHANNELS[k] on. */
  function PassFrom(fd: int, st: Fetched, ats: seq<Attempt>, k: nat): Fetched
    requires |ats| == 3 && k <= 3
    decreases 3 - k
  {
    if k == 3 then st else PassFrom(fd, PassStep(fd, st, PASS_CHANNELS[k], ats[k]), ats, k + 1)
  }

  /** get_data up to its endless loop, and one turn of it: a new handle addressed to the multiplexer (unchecked), then channels 1..3. */
  function GetDataPass(g: int, temp: Reading, ats: seq<Attempt>): Fetched
    requires |ats| == 3
  {
    PassFrom(g, Fetched(temp, [Open, SetAddress(g, TCA9548A_ADDR)]), ats, 0)
  }

  lemma ChannelObserved(fd: int, prior: Reading, ch: int, a: Attempt)
    requires 0 <= ch < 8 && |a.burst| == READS_PER_CHANNEL
    ensures Visited(ChannelCalls(fd, prior, ch, a).calls) == [ch]
    ensures Requests(ChannelCalls(fd, prior, ch, a).calls) == if Reached(a) then READS_PER_CHANNEL else 0
  {
    if a.selectWritten != 1 {
      SelectWriteSelects(fd, ch);
      SelectNotRequest(fd, ch);
      ObserveCons(SelectWrite(fd, ch), []);
      RequestsCons(SelectWrite(fd, ch), []);
    } else if !a.maxAddressed {
      SelectThenObserved(fd, ch, [Close(fd)]);
      ObserveCons(Close(fd), []);
      RequestsCons(Close(fd), []);
    } else {
      ReadRunCalls(fd, a.burst, prior);
      ReadRunRequests(fd, a.burst, prior);
      SelectThenObserved(fd, ch, ReadRun(fd, a.burst, prior).calls);
    }
  }

  lemma PassStepObserved(fd: int, st: Fetched, ch: int, a: Attempt)
    requires 0 <= ch < 8 && |a.burst| == READS_PER_CHANNEL
    ensures Visited(PassStep(fd, st, ch, a).calls) == Visited(st.calls) + [ch]
    ensures Requests(PassStep(fd, st, ch, a).calls) == Requests(st.calls) + (if Reached(a) then READS_PER_CHANNEL else 0)
  {
    var c := ChannelCalls(fd, st.out, ch, a);
    ChannelObserved(fd, st.out, ch, a);
    VisitedAppend(st.calls, c.calls);
    RequestsAppend(st.calls, c.calls);
  }

  /** The pass selects channels 1, 2 and 3 in that order, whatever the list holds, and makes 20 read attempts on each channel it reaches. */
  lemma {:induction false} PassObserved(fd: int, st: Fetched, ats: seq<Attempt>, k: nat)
    requires |ats| == 3 && k <= 3 && FullAttempts(ats, READS_PER_CHANNEL)
    ensures Visited(PassFrom(fd, st, ats, k).calls) == Visited(st.calls) + PASS_CHANNELS[k..]
    ensures Requests(PassFrom(fd, st, ats, k).calls) == Requests(st.calls) + READS_PER_CHANNEL * CountTrue(ReachedFlags(ats)[k..])
    decreases 3 - k
  {
    if k < 3 {
      var n := PassStep(fd, st, PASS_CHANNELS[k], ats[k]);
      PassStepObserved(fd, st, PASS_CHANNELS[k], ats[k]);
      PassObserved(fd, n, ats, k + 1);
      SliceCons(PASS_CHANNELS, k);
      ConsAssoc(Visited(st.calls), [PASS_CHANNELS[k]], PASS_CHANNELS[k + 1..]);
      var f := ReachedFlags(ats)[k..];
      assert f[1..] == ReachedFlags(ats)[k + 1..];
      assert CountTrue(f) == (if Reached(ats[k]) then 1 else 0) + CountTrue(f[1..]);
    } else {
      assert PASS_CHANNELS[k..] == [];
    }
  }

  /** The whole pass: channels [1, 2, 3], and opening the handle is its only open. */
  lemma GetDataPassObserved(g: int, temp: Reading, ats: seq<Attempt>)
    requires |ats| == 3 && FullAttempts(ats, READS_PER_CHANNEL)
    ensures Visited(GetDataPass(g, temp, ats).calls) == [1, 2, 3]
    ensures Requests(GetDataPass(g, temp, ats).calls) == READS_PER_CHANNEL * CountTrue(ReachedFlags(ats))
  {
    var h := [Open, SetAddress(g, TCA9548A_ADDR)];
    PassObserved(g, Fetched(temp, h), ats, 0);
    PlainObserved(h);
    NoRequests(h);
    assert ReachedFlags(ats)[0..] == ReachedFlags(ats);
  }

  /**
   * Channel 1 leaves the handle addressed to the sensor, and nothing points
   * it back at the multiplexer before channel 2's select byte: whenever
   * channel 1 is reached, that byte goes to the sensor.
   */
  lemma PassMisdirects(g: int, temp: Reading, ats: seq<Attempt>)
    requires |ats| == 3 && Reached(ats[0])
    ensures !RootDriver.SelectsReachMux([], GetDataPass(g, temp, ats).calls)
  {
    var h := [Open, SetAddress(g, TCA9548A_ADDR)];
    var s1 := PassStep(g, Fetched(temp, h), 1, ats[0]);
    var s2 := PassStep(g, s1, 2, ats[1]);
    var r := ReadRun(g, ats[0].burst, temp);
    assert s1.calls == (h + [SelectWrite(g, 1), SetAddress(g, MAX30102_ADDR)]) + r.calls;
    var pre := h + [SelectWrite(g, 1), SetAddress(g, MAX30102_ADDR)];
    assert pre[|pre| - 1] == SetAddress(g, MAX30102_ADDR);
    ReadRunSetsNoAddress(g, ats[0].burst, temp);
    NoAddressSet(pre, r.calls, g);
    var k := |s1.calls|;
    assert s2.calls[k] == SelectWrite(g, 2) && s2.calls[..k] == s1.calls;
    SelectWriteSelects(g, 2);
    var all := PassFrom(g, s2, ats, 2).calls;
    PassExtends(g, s2, ats, 2);
    assert all[..k] == s1.calls && all[k] == SelectWrite(g, 2);
    assert [] + all[..k] == s1.calls;
    RootDriver.MisdirectedAt([], all, k);
  }

  /** The rest of a pass only appends calls. */
  lemma {:induction false} PassExtends(fd: int, st: Fetched, ats: seq<Attempt>, k: nat)
    requires |ats| == 3 && k <= 3
    ensures |PassFrom(fd, st, ats, k).calls| >= |st.calls| && PassFrom(fd, st, ats, k).calls[..|st.calls|] == st.calls
    decreases 3 - k
  {
    if k < 3 {
      var n := PassStep(fd, st, PASS_CHANNELS[k], ats[k]);
      PassExtends(fd, n, ats, k + 1);
      assert n.calls[..|st.calls|] == st.calls;
    }
  }

  class Driver {
    var fd: int
    const table: ChannelTable
    /** The calls issued so far. */
    var calls: seq<Call>

    /**
     * The constructor: one round per channel 0..7; the listed channels are
     * exactly those whose select byte went out and whose sensor address was
     * accepted, in ascending order. initial is what the member held before.
     */
    constructor (initial: int, rs: seq<Round>)
      requires |rs| == 8
      ensures table.Valid() && fresh(table) && fresh(table.slots)
      ensures table.Contents() == Accepted(ListedFlags(rs))
      ensures fd == ScanFrom(initial, rs, 0).fd
      ensures calls == ScanFrom(initial, rs, 0).calls
    {
      fd := initial;
      calls := [];
      table := new ChannelTable();
      new;
      Scan(rs);
      assert [] + ScanFrom(initial, rs, 0).calls == ScanFrom(initial, rs, 0).calls;
    }

    method Scan(rs: seq<Round>)
      requires |rs| == 8 && table.Valid() && table.count == 0
      modifies this`fd, this`calls, table, table.slots
      ensures table.Valid() && table.Contents() == Accepted(ListedFlags(rs))
      ensures fd == ScanFrom(old(fd), rs, 0).fd
      ensures calls == old(calls) + ScanFrom(old(fd), rs, 0).calls
    {
      var i := 0;
      while i < 8
        invariant 0 <= i <= 8
        invariant table.Valid() && table.Contents() == Accepted(ListedFlags(rs)[..i]) && table.count <= i
        invariant calls + ScanFrom(fd, rs, i).calls == old(calls) + ScanFrom(old(fd), rs, 0).calls
        invariant ScanFrom(fd, rs, i).fd == ScanFrom(old(fd), rs, 0).fd
      {
        ghost var fd0, calls0 := fd, calls;
        ScanFromStep(fd0, rs, i);
        Visit(i, rs[i]);
        ConsAssoc(calls0, ScanStep(i, rs[i]).calls, ScanFrom(fd, rs, i + 1).calls);
        AcceptedSnoc(ListedFlags(rs), i);
        i := i + 1;
      }
      assert ListedFlags(rs)[..8] == ListedFlags(rs);
    }

    /** One iteration of the constructor loop, on channel ch. */
    method Visit(ch: int, r: Round)
      requires table.Valid() && 0 <= ch < 8 && table.count <= ch
      modifies this`fd, this`calls, table, table.slots
      ensures table.Valid()
      ensures table.Contents() == old(table.Contents()) + (if Listed(r) then [ch] else [])
      ensures fd == ScanStep(ch, r).fd
      ensures calls == old(calls) + ScanStep(ch, r).calls
    {
      fd := r.openFd;
      var head := [Open, SetAddress(fd, TCA9548A_ADDR)];
      var sel := SelectWrite(fd, ch);
      if r.selectWritten != 1 {
        var o := InitI2c(TCA9548A_ADDR, r.reopen);
        calls := calls + (head + ([sel] + ([Close(fd)] + o.calls)));
        fd := o.fd;
      } else if !r.maxAddressed {
        calls := calls + (head + ([sel] + [SetAddress(fd, MAX30102_ADDR)]));
      } else {
        calls := calls + (head + ([sel] + ([SetAddress(fd, MAX30102_ADDR)] + InitCalls(fd, LED_AMPLITUDE))));
        table.Append(ch);
      }
    }

    /**
     * One pass of get_data: open a new handle (reply g) and address the
     * multiplexer, then run channels 1, 2 and 3; the member is left on the
     * new handle.
     */
    method GetData(g: int, ats: seq<Attempt>, temp: Reading, out: Reading) returns (t: Reading, o: Reading)
      requires |ats| == 3 && FullAttempts(ats, READS_PER_CHANNEL)
      modifies this`fd, this`calls
      ensures fd == g
      ensures t == GetDataPass(g, temp, ats).out
      ensures o == if exists k :: 0 <= k < 3 && Reached(ats[k]) then t else out
      ensures calls == old(calls) + GetDataPass(g, temp, ats).calls
    {
      fd := g;
      var cs;
      t, o, cs := ReadFixed(g, ats, temp, out);
      calls := calls + cs;
    }
  }

  /** The loop over channels 1..3; the outputs follow the temporaries once any read was made. */
  method ReadFixed(g: int, ats: seq<Attempt>, temp: Reading, out: Reading) returns (t: Reading, o: Reading, cs: seq<Call>)
    requires |ats| == 3 && FullAttempts(ats, READS_PER_CHANNEL)
    ensures t == GetDataPass(g, temp, ats).out && cs == GetDataPass(g, temp, ats).calls
    ensures o == if exists k :: 0 <= k < 3 && Reached(ats[k]) then t else out
  {
    ghost var acc := Fetched(temp, [Open, SetAddress(g, TCA9548A_ADDR)]);
    ghost var goal := PassFrom(g, acc, ats, 0);
    t, o, cs := temp, out, [Open, SetAddress(g, TCA9548A_ADDR)];
    var k := 0;
    while k < 3
      invariant 0 <= k <= 3
      invariant PassFrom(g, acc, ats, k) == goal
      invariant cs == acc.calls && t == acc.out
      invariant o == if exists j :: 0 <= j < k && Reached(ats[j]) then t else out
    {
      var ch := PASS_CHANNELS[k];
      var a := ats[k];
      if a.selectWritten != 1 {
        cs := cs + [SelectWrite(g, ch)];
      } else if !a.maxAddressed {
        cs := cs + SelectThen(g, ch, [Close(g)]);
      } else {
        var tt, oo, rc := Burst(g, a.burst, t, o);
        cs := cs + SelectThen(g, ch, rc);
        t, o := tt, oo;
      }
      acc := PassStep(g, acc, ch, a);
      k := k + 1;
    }
  }
}
