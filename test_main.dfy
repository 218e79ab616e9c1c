/**
 * test.cpp, a stand-alone program over three globals: the channel list
 * (channels, count_channel) and the bus handle i2c_fd. main opens the bus
 * and addresses the multiplexer, returning -1 when either fails; it then
 * scans channels 0..7, listing and initialising each channel whose select
 * byte goes out, whose sensor address is accepted and whose one-byte probe
 * read does not fail, reopening the bus after a failed select byte; finally
 * it makes 20 reads for every listed channel and returns 0. Every select
 * byte of that read loop is 1 << 1, whichever channel the slot lists.
 */
module TestMain {
  import opened Max30102
  import opened I2cBus
  import opened ChannelScan
  import opened ReadLoop
  import RootDriver

  /** The number of read_fifo calls per listed channel. */
  const READS_PER_CHANNEL: nat := 20

  // writeRegister and max30102_init

  /** One writeRegister: the two-byte write, and whether it reports success. */
  datatype RegisterWrite = RegisterWrite(ok: bool, call: Call)

  /** writeRegister(reg, add) on handle fd, where moved is what write returned. */
  function WriteRegister(fd: int, f: Frame, moved: int): (w: RegisterWrite)
    ensures w.ok <==> moved == |FrameBytes(f)|
    ensures w.call == Write(fd, [f.reg, f.value])
  {
    RegisterWrite(moved == 2, Write(fd, FrameBytes(f)))
  }

  /** max30102_init: the twelve writeRegister calls, whatever each one moved. */
  function InitWrites(fd: int, moved: seq<int>): seq<Call>
    requires |moved| == 12
  {
    seq(12, j requires 0 <= j < 12 => WriteRegister(fd, InitFrames(LED_AMPLITUDE)[j], moved[j]).call)
  }

  /**
   * writeRegister reports success iff exactly two bytes moved, but
   * max30102_init ignores every report: it issues the same twelve writes
   * whatever they return.
   */
  lemma InitIgnoresReports(fd: int, moved: seq<int>)
    requires |moved| == 12
    ensures forall j :: 0 <= j < 12 ==> (WriteRegister(fd, InitFrames(LED_AMPLITUDE)[j], moved[j]).ok <==> moved[j] == 2)
    ensures InitWrites(fd, moved) == InitCalls(fd, LED_AMPLITUDE)
  {
    InitCallsElements(fd, LED_AMPLITUDE);
  }

  // Opening the bus

  /** The start of main: open, and on a handle address the multiplexer, closing the handle when that fails. */
  function StartCalls(first: OpenReply): seq<Call>
  {
    if first.fd < 0 then [Open]
    else if !first.addressed then [Open, SetAddress(first.fd, TCA9548A_ADDR), Close(first.fd)]
    else [Open, SetAddress(first.fd, TCA9548A_ADDR)]
  }

  /** main carries on past its start iff open gave a non-negative handle and the multiplexer's address was accepted. */
  predicate Started(first: OpenReply) { first.fd >= 0 && first.addressed }

  /**
   * After a failed select byte: close the handle, open the bus again and
   * address the multiplexer on whatever open returned, without checking
   * either result.
   */
  function ReopenCalls(fd: int, r: OpenReply): seq<Call>
  {
    [Close(fd), Open, SetAddress(r.fd, TCA9548A_ADDR)]
  }

  /** The reopen's ioctl goes out even when open failed, on handle -1. */
  lemma ReopenUnchecked(fd: int, r: OpenReply)
    requires r.fd == -1
    ensures SetAddress(-1, TCA9548A_ADDR) in ReopenCalls(fd, r)
  {
    assert ReopenCalls(fd, r)[2] == SetAddress(-1, TCA9548A_ADDR);
  }

  lemma ReopenObserved(fd: int, r: OpenReply)
    ensures Visited(ReopenCalls(fd, r)) == [] && AllFrames(ReopenCalls(fd, r)) == [] && Opens(ReopenCalls(fd, r)) == 1
    ensures Requests(ReopenCalls(fd, r)) == 0
  {
    var s := SetAddress(r.fd, TCA9548A_ADDR);
    assert ReopenCalls(fd, r) == [Close(fd)] + ([Open] + ([s] + []));
    ObserveCons(s, []);
    ObserveCons(Open, [s] + []);
    ObserveCons(Close(fd), [Open] + ([s] + []));
    NoRequests(ReopenCalls(fd, r));
  }

  // The scan

  /** A channel is listed: its select byte went out, the sensor's address was accepted and the probe read did not fail. */
  predicate Listed(r: ChannelReply) { r.selectWritten == 1 && r.maxAddressed && r.probeRead >= 0 }

  function ListedFlags(rs: seq<ChannelReply>): seq<bool>
  {
    seq(|rs|, i requires 0 <= i < |rs| => Listed(rs[i]))
  }

  /** What follows a channel's select byte in the scan. */
  function AfterSelect(fd: int, r: ChannelReply): Opened
  {
    if r.selectWritten != 1 then Opened(r.reopen.fd, ReopenCalls(fd, r.reopen))
    else if !r.maxAddressed then Opened(fd, [SetAddress(fd, MAX30102_ADDR)])
    else if r.probeRead < 0 then Opened(fd, [SetAddress(fd, MAX30102_ADDR), Read(fd, 1)])
    else Opened(fd, [SetAddress(fd, MAX30102_ADDR), Read(fd, 1)] + InitCalls(fd, LED_AMPLITUDE))
  }

  /** One channel of the scan on handle fd. */
  function ScanStep(fd: int, ch: int, r: ChannelReply): Opened
    requires 0 <= ch < 8
  {
    var t := AfterSelect(fd, r);
    Opened(t.fd, [SelectWrite(fd, ch)] + t.calls)
  }

  /** Channels from..7 of the scan, starting on handle fd. */
  function ScanFrom(fd: int, rs: seq<ChannelReply>, from: nat): Opened
    requires |rs| == 8 && from <= 8
    decreases 8 - from
  {
    if from == 8 then Opened(fd, [])
    else
      var s := ScanStep(fd, from, rs[from]);
      var rest := ScanFrom(s.fd, rs, from + 1);
      Opened(rest.fd, s.calls + rest.calls)
  }

  lemma ScanFromStep(fd: int, rs: seq<ChannelReply>, from: nat)
    requires |rs| == 8 && from < 8
    ensures ScanFrom(fd, rs, from).calls == ScanStep(fd, from, rs[from]).calls + ScanFrom(ScanStep(fd, from, rs[from]).fd, rs, from + 1).calls
    ensures ScanFrom(fd, rs, from).fd == ScanFrom(ScanStep(fd, from, rs[from]).fd, rs, from + 1).fd
  {
  }

  /** After the select byte nothing is selected; the bus is opened once iff the select failed; the init frames are written iff the channel is listed. */
  lemma AfterSelectObserved(fd: int, r: ChannelReply)
    ensures Visited(AfterSelect(fd, r).calls) == []
    ensures Opens(AfterSelect(fd, r).calls) == (if r.selectWritten != 1 then 1 else 0)
    ensures AllFrames(AfterSelect(fd, r).calls) == if Listed(r) then InitFrames(LED_AMPLITUDE) else []
  {
    var a := SetAddress(fd, MAX30102_ADDR);
    if r.selectWritten != 1 {
      ReopenObserved(fd, r.reopen);
    } else if !r.maxAddressed {
      ObserveCons(a, []);
    } else if r.probeRead < 0 {
      ObserveCons(Read(fd, 1), []);
      ObserveCons(a, [Read(fd, 1)]);
    } else {
      var init := InitCalls(fd, LED_AMPLITUDE);
      InitCallsObserved(fd, LED_AMPLITUDE);
      ObserveCons(Read(fd, 1), init);
      ObserveCons(a, [Read(fd, 1)] + init);
      assert [a, Read(fd, 1)] + init == [a] + ([Read(fd, 1)] + init);
    }
  }

  /** One channel selects that channel only, opens the bus once on a failed select, and writes the init frames iff it is listed. */
  lemma StepObserved(fd: int, ch: int, r: ChannelReply)
    requires 0 <= ch < 8
    ensures Visited(ScanStep(fd, ch, r).calls) == [ch]
    ensures Opens(ScanStep(fd, ch, r).calls) == (if r.selectWritten != 1 then 1 else 0)
    ensures AllFrames(ScanStep(fd, ch, r).calls) == if Listed(r) then InitFrames(LED_AMPLITUDE) else []
  {
    SelectWriteSelects(fd, ch);
    AfterSelectObserved(fd, r);
    ObserveCons(SelectWrite(fd, ch), AfterSelect(fd, r).calls);
  }

  /** The scan selects every channel from..7 once, in ascending order. */
  lemma {:induction false} ScanVisits(fd: int, rs: seq<ChannelReply>, from: nat)
    requires |rs| == 8 && from <= 8
    ensures Visited(ScanFrom(fd, rs, from).calls) == Channels(from, 8)
    decreases 8 - from
  {
    if from < 8 {
      var s := ScanStep(fd, from, rs[from]);
      ScanFromStep(fd, rs, from);
      ScanVisits(s.fd, rs, from + 1);
      VisitedAppend(s.calls, ScanFrom(s.fd, rs, from + 1).calls);
      StepObserved(fd, from, rs[from]);
    }
  }

  /** The scan opens the bus again once per failed select byte. */
  lemma {:induction false} ScanOpens(fd: int, rs: seq<ChannelReply>, from: nat)
    requires |rs| == 8 && from <= 8
    ensures Opens(ScanFrom(fd, rs, from).calls) == CountTrue(RootDriver.SelectFailFlags(rs)[from..])
    decreases 8 - from
  {
    if from < 8 {
      var s := ScanStep(fd, from, rs[from]);
      ScanFromStep(fd, rs, from);
      ScanOpens(s.fd, rs, from + 1);
      CountsAppend(s.calls, ScanFrom(s.fd, rs, from + 1).calls);
      StepObserved(fd, from, rs[from]);
      var fail := RootDriver.SelectFailFlags(rs)[from..];
      assert fail[1..] == RootDriver.SelectFailFlags(rs)[from + 1..];
      assert CountTrue(fail) == (if rs[from].selectWritten != 1 then 1 else 0) + CountTrue(fail[1..]);
    }
  }

  /** The scan writes the twelve init frames once per listed channel, and no other frame. */
  lemma {:induction false} ScanFrames(fd: int, rs: seq<ChannelReply>, from: nat)
    requires |rs| == 8 && from <= 8
    ensures AllFrames(ScanFrom(fd, rs, from).calls) == Repeat(InitFrames(LED_AMPLITUDE), CountTrue(ListedFlags(rs)[from..]))
    decreases 8 - from
  {
    if from < 8 {
      var s := ScanStep(fd, from, rs[from]);
      ScanFromStep(fd, rs, from);
      ScanFrames(s.fd, rs, from + 1);
      StepObserved(fd, from, rs[from]);
      FramesAppend(s.calls, ScanFrom(s.fd, rs, from + 1).calls);
      var p := ListedFlags(rs)[from..];
      assert p[0] == Listed(rs[from]) && p[1..] == ListedFlags(rs)[from + 1..];
      CountRepeat(InitFrames(LED_AMPLITUDE), p, AllFrames(ScanFrom(fd, rs, from).calls), AllFrames(ScanFrom(s.fd, rs, from + 1).calls));
    }
  }

  // The read loop

  /** The select byte of slot i: as written always channel 1; per channel, the channel the slot lists. */
  datatype Selection = AsWritten | PerChannel

  function Target(chs: seq<int>, i: nat, sel: Selection): int
    requires ValidChannels(chs) && i < |chs|
    ensures 0 <= Target(chs, i, sel) < 8
  {
    if sel == AsWritten then 1 else chs[i]
  }

  /** One slot of the read loop on handle fd, selecting channel ch. */
  function LoopStep(fd: int, ch: int, a: Attempt): Opened
    requires 0 <= ch < 8
  {
    if a.selectWritten != 1 then Opened(a.reopen.fd, [SelectWrite(fd, ch)] + ReopenCalls(fd, a.reopen))
    else if !a.maxAddressed then Opened(fd, SelectThen(fd, ch, []))
    else Opened(fd, SelectThen(fd, ch, RunCalls(fd, a.burst)))
  }

  /** Slots i.. of the read loop, one attempt per slot. */
  function LoopFrom(fd: int, chs: seq<int>, ats: seq<Attempt>, i: nat, sel: Selection): Opened
    requires ValidChannels(chs) && |ats| == |chs| && i <= |chs|
    decreases |chs| - i
  {
    if i == |chs| then Opened(fd, [])
    else
      var s := LoopStep(fd, Target(chs, i, sel), ats[i]);
      var rest := LoopFrom(s.fd, chs, ats, i + 1, sel);
      Opened(rest.fd, s.calls + rest.calls)
  }

  lemma LoopFromStep(fd: int, chs: seq<int>, ats: seq<Attempt>, i: nat, sel: Selection)
    requires ValidChannels(chs) && |ats| == |chs| && i < |chs|
    ensures var s := LoopStep(fd, Target(chs, i, sel), ats[i]);
      LoopFrom(fd, chs, ats, i, sel).calls == s.calls + LoopFrom(s.fd, chs, ats, i + 1, sel).calls &&
      LoopFrom(fd, chs, ats, i, sel).fd == LoopFrom(s.fd, chs, ats, i + 1, sel).fd
  {
  }

  /** A printed line: the slot's listed channel and the two temporaries. */
  datatype TestLine = TestLine(channel: int, reading: Reading)

  function Labelled(ch: int, vs: seq<Reading>): seq<TestLine>
  {
    seq(|vs|, j requires 0 <= j < |vs| => TestLine(ch, vs[j]))
  }

  /** The temporaries after slots i.. */
  function LoopOut(prior: Reading, ats: seq<Attempt>, i: nat): Reading
    requires i <= |ats|
    decreases |ats| - i
  {
    if i == |ats| then prior
    else LoopOut(if Reached(ats[i]) then RunOut(ats[i].burst, prior) else prior, ats, i + 1)
  }

  /** The lines printed during slots i.. */
  function LoopLines(prior: Reading, chs: seq<int>, ats: seq<Attempt>, i: nat): seq<TestLine>
    requires |ats| == |chs| && i <= |chs|
    decreases |chs| - i
  {
    if i == |chs| then []
    else if Reached(ats[i]) then Labelled(chs[i], Printed(ats[i].burst, prior)) + LoopLines(RunOut(ats[i].burst, prior), chs, ats, i + 1)
    else LoopLines(prior, chs, ats, i + 1)
  }

  /** One slot selects one channel, opens the bus once iff its select failed, writes no frame, and reads iff it is reached. */
  lemma LoopStepObserved(fd: int, ch: int, a: Attempt)
    requires 0 <= ch < 8
    ensures Visited(LoopStep(fd, ch, a).calls) == [ch]
    ensures Opens(LoopStep(fd, ch, a).calls) == (if a.selectWritten != 1 then 1 else 0)
    ensures AllFrames(LoopStep(fd, ch, a).calls) == []
    ensures Requests(LoopStep(fd, ch, a).calls) == if Reached(a) then |a.burst| else 0
  {
    if a.selectWritten != 1 {
      ReopenObserved(fd, a.reopen);
      SelectWriteSelects(fd, ch);
      SelectNotRequest(fd, ch);
      ObserveCons(SelectWrite(fd, ch), ReopenCalls(fd, a.reopen));
      RequestsCons(SelectWrite(fd, ch), ReopenCalls(fd, a.reopen));
    } else if !a.maxAddressed {
      SelectThenObserved(fd, ch, []);
    } else {
      RunCallsObserved(fd, a.burst);
      SelectThenObserved(fd, ch, RunCalls(fd, a.burst));
    }
  }

  /** As written, every slot of the read loop selects channel 1. */
  lemma {:induction false} LoopVisitsAsWritten(fd: int, chs: seq<int>, ats: seq<Attempt>, i: nat)
    requires ValidChannels(chs) && |ats| == |chs| && i <= |chs|
    ensures Visited(LoopFrom(fd, chs, ats, i, AsWritten).calls) == Repeat([1], |chs| - i)
    decreases |chs| - i
  {
    if i < |chs| {
      var s := LoopStep(fd, 1, ats[i]);
      LoopFromStep(fd, chs, ats, i, AsWritten);
      LoopStepObserved(fd, 1, ats[i]);
      LoopVisitsAsWritten(s.fd, chs, ats, i + 1);
      VisitedAppend(s.calls, LoopFrom(s.fd, chs, ats, i + 1, AsWritten).calls);
    }
  }

  /** Selecting 1 << channels[i] instead, the read loop selects the listed channels in list order. */
  lemma {:induction false} LoopVisitsPerChannel(fd: int, chs: seq<int>, ats: seq<Attempt>, i: nat)
    requires ValidChannels(chs) && |ats| == |chs| && i <= |chs|
    ensures Visited(LoopFrom(fd, chs, ats, i, PerChannel).calls) == chs[i..]
    decreases |chs| - i
  {
    if i < |chs| {
      var s := LoopStep(fd, chs[i], ats[i]);
      LoopFromStep(fd, chs, ats, i, PerChannel);
      LoopStepObserved(fd, chs[i], ats[i]);
      LoopVisitsPerChannel(s.fd, chs, ats, i + 1);
      VisitedAppend(s.calls, LoopFrom(s.fd, chs, ats, i + 1, PerChannel).calls);
      SliceCons(chs, i);
    }
  }

  /**
   * With only channel 0 listed, the read loop as written selects channel 1
   * and reads whatever answers there, while the corrected loop selects
   * channel 0.
   */
  lemma OnlyChannelZeroListed(fd: int, ats: seq<Attempt>)
    requires |ats| == 1
    ensures Visited(LoopFrom(fd, [0], ats, 0, AsWritten).calls) == [1]
    ensures Visited(LoopFrom(fd, [0], ats, 0, PerChannel).calls) == [0]
  {
    LoopVisitsAsWritten(fd, [0], ats, 0);
    LoopVisitsPerChannel(fd, [0], ats, 0);
    assert Repeat([1], 1) == [1] + Repeat([1], 0);
  }

  /** The read loop opens the bus again once per failed select byte. */
  lemma {:induction false} LoopOpens(fd: int, chs: seq<int>, ats: seq<Attempt>, i: nat, sel: Selection)
    requires ValidChannels(chs) && |ats| == |chs| && i <= |chs|
    ensures Opens(LoopFrom(fd, chs, ats, i, sel).calls) == CountTrue(FailedFlags(ats)[i..])
    decreases |chs| - i
  {
    if i < |chs| {
      var s := LoopStep(fd, Target(chs, i, sel), ats[i]);
      LoopFromStep(fd, chs, ats, i, sel);
      LoopStepObserved(fd, Target(chs, i, sel), ats[i]);
      LoopOpens(s.fd, chs, ats, i + 1, sel);
      CountsAppend(s.calls, LoopFrom(s.fd, chs, ats, i + 1, sel).calls);
      var f := FailedFlags(ats)[i..];
      assert f[1..] == FailedFlags(ats)[i + 1..];
      assert CountTrue(f) == (if ats[i].selectWritten != 1 then 1 else 0) + CountTrue(f[1..]);
    }
  }

  /** The read loop makes 20 read attempts per reached slot. */
  lemma {:induction false} LoopRequests(fd: int, chs: seq<int>, ats: seq<Attempt>, i: nat, sel: Selection)
    requires ValidChannels(chs) && |ats| == |chs| && i <= |chs| && FullAttempts(ats, READS_PER_CHANNEL)
    ensures Requests(LoopFrom(fd, chs, ats, i, sel).calls) == READS_PER_CHANNEL * CountTrue(ReachedFlags(ats)[i..])
    decreases |chs| - i
  {
    if i < |chs| {
      var s := LoopStep(fd, Target(chs, i, sel), ats[i]);
      LoopFromStep(fd, chs, ats, i, sel);
      LoopStepObserved(fd, Target(chs, i, sel), ats[i]);
      LoopRequests(s.fd, chs, ats, i + 1, sel);
      RequestsAppend(s.calls, LoopFrom(s.fd, chs, ats, i + 1, sel).calls);
      var f := ReachedFlags(ats)[i..];
      assert f[1..] == ReachedFlags(ats)[i + 1..];
      assert CountTrue(f) == (if Reached(ats[i]) then 1 else 0) + CountTrue(f[1..]);
    }
  }

  /** The read loop prints 20 lines per reached slot, each labelled with a listed channel. */
  lemma {:induction false} LoopLinesShape(prior: Reading, chs: seq<int>, ats: seq<Attempt>, i: nat)
    requires |ats| == |chs| && i <= |chs| && FullAttempts(ats, READS_PER_CHANNEL)
    ensures |LoopLines(prior, chs, ats, i)| == READS_PER_CHANNEL * CountTrue(ReachedFlags(ats)[i..])
    ensures forall j :: 0 <= j < |LoopLines(prior, chs, ats, i)| ==> LoopLines(prior, chs, ats, i)[j].channel in chs[i..]
    decreases |chs| - i
  {
    if i < |chs| {
      var next := if Reached(ats[i]) then RunOut(ats[i].burst, prior) else prior;
      LoopLinesShape(next, chs, ats, i + 1);
      PrintedLength(ats[i].burst, prior);
      var f := ReachedFlags(ats)[i..];
      assert f[1..] == ReachedFlags(ats)[i + 1..];
      assert CountTrue(f) == (if Reached(ats[i]) then 1 else 0) + CountTrue(f[1..]);
      SliceCons(chs, i);
      var ls := LoopLines(prior, chs, ats, i);
      if Reached(ats[i]) {
        var a := Labelled(chs[i], Printed(ats[i].burst, prior));
        assert forall j :: |a| <= j < |ls| ==> ls[j] == LoopLines(next, chs, ats, i + 1)[j - |a|];
      }
    }
  }

  // The program

  class Program {
    /** i2c_fd */
    var fd: int
    /** channels and count_channel */
    const table: ChannelTable
    /** The calls issued so far. */
    var calls: seq<Call>

    /** The globals before main: i2c_fd and count_channel are zero. */
    constructor ()
      ensures fd == 0 && calls == []
      ensures table.Valid() && table.Contents() == [] && fresh(table) && fresh(table.slots)
    {
      fd := 0;
      calls := [];
      table := new ChannelTable();
    }

    /**
     * main. It returns -1 when open gives a negative handle or the
     * multiplexer's address is refused, and 0 after the scan and the read
     * loop otherwise.
     */
    method Run(first: OpenReply, rs: seq<ChannelReply>, ats: seq<Attempt>, temp: Reading) returns (status: int, lines: seq<TestLine>)
      requires |rs| == 8 && |ats| == 8 && table.Valid() && table.count == 0
      modifies this, table, table.slots
      ensures table.Valid()
      ensures status == (if Started(first) then 0 else -1)
      ensures !Started(first) ==> lines == [] && table.Contents() == [] && fd == first.fd && calls == old(calls) + StartCalls(first)
      ensures Started(first) ==>
        var s := ScanFrom(first.fd, rs, 0);
        var chs := Accepted(ListedFlags(rs));
        table.Contents() == chs && ValidChannels(chs) &&
        var l := LoopFrom(s.fd, chs, ats[..|chs|], 0, AsWritten);
        fd == l.fd && calls == old(calls) + StartCalls(first) + s.calls + l.calls &&
        lines == LoopLines(temp, chs, ats[..|chs|], 0)
    {
      calls := calls + [Open];
      fd := first.fd;
      if fd < 0 {
        status, lines := -1, [];
        return;
      }
      calls := calls + [SetAddress(fd, TCA9548A_ADDR)];
      if !first.addressed {
        calls := calls + [Close(fd)];
        status, lines := -1, [];
        return;
      }
      assert calls == old(calls) + StartCalls(first);
      lines := Proceed(rs, ats, temp);
      status := 0;
    }

    /** main after its start: the scan, then the read loop over the listed slots. */
    method Proceed(rs: seq<ChannelReply>, ats: seq<Attempt>, temp: Reading) returns (lines: seq<TestLine>)
      requires |rs| == 8 && |ats| == 8 && table.Valid() && table.count == 0
      modifies this`fd, this`calls, table, table.slots
      ensures table.Valid()
      ensures var s := ScanFrom(old(fd), rs, 0);
        var chs := Accepted(ListedFlags(rs));
        table.Contents() == chs && ValidChannels(chs) &&
        var l := LoopFrom(s.fd, chs, ats[..|chs|], 0, AsWritten);
        fd == l.fd && calls == old(calls) + s.calls + l.calls &&
        lines == LoopLines(temp, chs, ats[..|chs|], 0)
    {
      Scan(rs);
      AcceptedLength(ListedFlags(rs));
      CountTrueFull(ListedFlags(rs));
      ghost var scanned := calls;
      lines := ReadAll(ats[..table.count], temp);
      ConsAssoc(old(calls), ScanFrom(old(fd), rs, 0).calls, calls[|scanned|..]);
    }

    /** The scan loop over channels 0..7. */
    method Scan(rs: seq<ChannelReply>)
      requires |rs| == 8 && table.Valid() && table.count == 0
      modifies this`fd, this`calls, table, table.slots
      ensures table.Valid() && table.Contents() == Accepted(ListedFlags(rs))
      ensures ValidChannels(table.Contents())
      ensures fd == ScanFrom(old(fd), rs, 0).fd
      ensures calls == old(calls) + ScanFrom(old(fd), rs, 0).calls
    {
      var i := 0;
      while i < 8
        invariant 0 <= i <= 8
        invariant table.Valid() && table.Contents() == Accepted(ListedFlags(rs)[..i]) && table.count <= i
        invariant calls + ScanFrom(fd, rs, i).calls == old(calls) + ScanFrom(old(fd), rs, 0).calls
        invariant ScanFrom(fd, rs, i).fd == ScanFrom(old(fd), rs, 0).fd
      {
        ghost var fd0, calls0 := fd, calls;
        ScanFromStep(fd0, rs, i);
        ScanVisit(i, rs[i]);
        ConsAssoc(calls0, ScanStep(fd0, i, rs[i]).calls, ScanFrom(fd, rs, i + 1).calls);
        AcceptedSnoc(ListedFlags(rs), i);
        i := i + 1;
      }
      assert ListedFlags(rs)[..8] == ListedFlags(rs);
      AcceptedExactly(ListedFlags(rs));
    }

    /** One iteration of the scan loop, on channel ch. */
    method ScanVisit(ch: int, r: ChannelReply)
      requires table.Valid() && 0 <= ch < 8 && table.count <= ch
      modifies this`fd, this`calls, table, table.slots
      ensures table.Valid()
      ensures table.Contents() == old(table.Contents()) + (if Listed(r) then [ch] else [])
      ensures fd == ScanStep(old(fd), ch, r).fd
      ensures calls == old(calls) + ScanStep(old(fd), ch, r).calls
    {
      var sel := SelectWrite(fd, ch);
      if r.selectWritten != 1 {
        calls := calls + ([sel] + ReopenCalls(fd, r.reopen));
        fd := r.reopen.fd;
      } else if !r.maxAddressed {
        calls := calls + ([sel] + [SetAddress(fd, MAX30102_ADDR)]);
      } else if r.probeRead < 0 {
        calls := calls + ([sel] + [SetAddress(fd, MAX30102_ADDR), Read(fd, 1)]);
      } else {
        table.Append(ch);
        calls := calls + ([sel] + ([SetAddress(fd, MAX30102_ADDR), Read(fd, 1)] + InitCalls(fd, LED_AMPLITUDE)));
      }
    }

    /** The read loop over the listed slots; ats holds one attempt per slot. */
    method ReadAll(ats: seq<Attempt>, temp: Reading) returns (lines: seq<TestLine>)
      requires table.Valid() && |ats| == table.count
      modifies this`fd, this`calls
      ensures ValidChannels(table.Contents())
      ensures fd == LoopFrom(old(fd), table.Contents(), ats, 0, AsWritten).fd
      ensures calls == old(calls) + LoopFrom(old(fd), table.Contents(), ats, 0, AsWritten).calls
      ensures lines == LoopLines(temp, table.Contents(), ats, 0)
    {
      var chs := table.Contents();
      var t := temp;
      lines := [];
      var i := 0;
      while i < table.count
        invariant 0 <= i <= table.count
        invariant calls + LoopFrom(fd, chs, ats, i, AsWritten).calls == old(calls) + LoopFrom(old(fd), chs, ats, 0, AsWritten).calls
        invariant LoopFrom(fd, chs, ats, i, AsWritten).fd == LoopFrom(old(fd), chs, ats, 0, AsWritten).fd
        invariant lines + LoopLines(t, chs, ats, i) == LoopLines(temp, chs, ats, 0)
      {
        ghost var fd0, calls0, t0 := fd, calls, t;
        LoopFromStep(fd0, chs, ats, i, AsWritten);
        LoopLinesStep(t0, chs, ats, i);
        var ch := table.Get(i);
        var ls;
        t, ls := LoopVisit(ch, ats[i], t);
        ConsAssoc(calls0, LoopStep(fd0, 1, ats[i]).calls, LoopFrom(fd, chs, ats, i + 1, AsWritten).calls);
        ConsAssoc(lines, ls, LoopLines(t, chs, ats, i + 1));
        lines := lines + ls;
        i := i + 1;
      }
      assert lines + [] == lines;
    }

    /** One slot of the read loop: select channel 1, address the sensor, read 20 times labelling each line with ch. */
    method LoopVisit(ch: int, a: Attempt, temp: Reading) returns (t: Reading, lines: seq<TestLine>)
      modifies this`fd, this`calls
      ensures fd == LoopStep(old(fd), 1, a).fd
      ensures calls == old(calls) + LoopStep(old(fd), 1, a).calls
      ensures t == (if Reached(a) then RunOut(a.burst, temp) else temp)
      ensures lines == if Reached(a) then Labelled(ch, Printed(a.burst, temp)) else []
    {
      t, lines := temp, [];
      if a.selectWritten != 1 {
        calls := calls + ([SelectWrite(fd, 1)] + ReopenCalls(fd, a.reopen));
        fd := a.reopen.fd;
      } else if !a.maxAddressed {
        calls := calls + SelectThen(fd, 1, []);
      } else {
        var printed, cs;
        t, printed, cs := ReadPrinting(fd, a.burst, temp);
        lines := Labelled(ch, printed);
        calls := calls + SelectThen(fd, 1, cs);
      }
    }
  }

  /** One slot of the printed lines, followed by the rest. */
  lemma LoopLinesStep(prior: Reading, chs: seq<int>, ats: seq<Attempt>, i: nat)
    requires |ats| == |chs| && i < |chs|
    ensures var next := if Reached(ats[i]) then RunOut(ats[i].burst, prior) else prior;
      LoopLines(prior, chs, ats, i) ==
        (if Reached(ats[i]) then Labelled(chs[i], Printed(ats[i].burst, prior)) else []) + LoopLines(next, chs, ats, i + 1)
  {
    if !Reached(ats[i]) {
      assert [] + LoopLines(prior, chs, ats, i + 1) == LoopLines(prior, chs, ats, i + 1);
    }
  }
}
