/**
 * The driver class of max30102.cpp. Its constructor opens the bus, points it
 * at the multiplexer and scans channels 0..7 on that one handle: a channel
 * whose select write fails makes it close, reopen and re-target the handle;
 * a channel whose sensor address is accepted is listed and initialised.
 * PreJob then walks the listed channels round-robin and DoJob reads one
 * sample from the current one.
 */
module RootDriver {
  import opened Wrappers
  import opened Max30102
  import opened I2cBus
  import opened ChannelScan

  /** A channel is listed when its select write moved one byte and the sensor's address was accepted. */
  predicate Passes(r: ChannelReply) { r.selectWritten == 1 && r.maxAddressed }

  function PassFlags(rs: seq<ChannelReply>): seq<bool>
  {
    seq(|rs|, i requires 0 <= i < |rs| => Passes(rs[i]))
  }

  function SelectFailFlags(rs: seq<ChannelReply>): seq<bool>
  {
    seq(|rs|, i requires 0 <= i < |rs| => rs[i].selectWritten != 1)
  }

  /** The constructor's opening: open, set the multiplexer address, and close the handle (keeping its number) if that fails. */
  function OpenCalls(r: OpenReply): seq<Call>
  {
    [Open, SetAddress(r.fd, TCA9548A_ADDR)] + (if r.addressed then [] else [Close(r.fd)])
  }

  /** One channel of the constructor scan: the handle afterwards and the calls issued on the way. */
  function ScanStep(fd: int, ch: int, r: ChannelReply): Opened
    requires 0 <= ch < 8
  {
    if r.selectWritten != 1 then
      Opened(r.reopen.fd, [SelectWrite(fd, ch), Close(fd), Open, SetAddress(r.reopen.fd, TCA9548A_ADDR)])
    else if !r.maxAddressed then
      Opened(fd, [SelectWrite(fd, ch), SetAddress(fd, MAX30102_ADDR)])
    else
      Opened(fd, [SelectWrite(fd, ch), SetAddress(fd, MAX30102_ADDR)] + InitCalls(fd, LED_AMPLITUDE))
  }

  /** Channels from..7 of the scan, starting on handle fd. */
  function ScanFrom(fd: int, rs: seq<ChannelReply>, from: nat): Opened
    requires |rs| == 8 && from <= 8
    decreases 8 - from
  {
    if from == 8 then Opened(fd, [])
    else
      var s := ScanStep(fd, from, rs[from]);
      var rest := ScanFrom(s.fd, rs, from + 1);
      Opened(rest.fd, s.calls + rest.calls)
  }

  /** ScanFrom peels off one channel. */
  lemma ScanFromStep(fd: int, rs: seq<ChannelReply>, i: nat)
    requires |rs| == 8 && i < 8
    ensures ScanFrom(fd, rs, i).calls == ScanStep(fd, i, rs[i]).calls + ScanFrom(ScanStep(fd, i, rs[i]).fd, rs, i + 1).calls
    ensures ScanFrom(fd, rs, i).fd == ScanFrom(ScanStep(fd, i, rs[i]).fd, rs, i + 1).fd
  {
  }

  /** One scan step selects its channel once, writes the init frames iff the channel is listed, and reopens iff the select failed. */
  lemma StepObserved(fd: int, ch: int, r: ChannelReply)
    requires 0 <= ch < 8
    ensures Visited(ScanStep(fd, ch, r).calls) == [ch]
    ensures AllFrames(ScanStep(fd, ch, r).calls) == if Passes(r) then InitFrames(LED_AMPLITUDE) else []
    ensures Opens(ScanStep(fd, ch, r).calls) == if r.selectWritten != 1 then 1 else 0
  {
    StepVisits(fd, ch, r);
    StepCounts(fd, ch, r);
  }

  lemma StepVisits(fd: int, ch: int, r: ChannelReply)
    requires 0 <= ch < 8
    ensures Visited(ScanStep(fd, ch, r).calls) == [ch]
  {
    var cs := ScanStep(fd, ch, r).calls;
    SelectWriteSelects(fd, ch);
    ScanStepSelects(fd, ch, r);
    VisitedNone(cs[1..]);
    assert cs == [cs[0]] + cs[1..];
    ObserveAppend([cs[0]], cs[1..]);
  }

  lemma StepCounts(fd: int, ch: int, r: ChannelReply)
    requires 0 <= ch < 8
    ensures AllFrames(ScanStep(fd, ch, r).calls) == if Passes(r) then InitFrames(LED_AMPLITUDE) else []
    ensures Opens(ScanStep(fd, ch, r).calls) == if r.selectWritten != 1 then 1 else 0
  {
    var cs := ScanStep(fd, ch, r).calls;
    var sel, addr := [SelectWrite(fd, ch)], [SetAddress(fd, MAX30102_ADDR)];
    if r.selectWritten != 1 {
      var close, open, retarget := [Close(fd)], [Open], [SetAddress(r.reopen.fd, TCA9548A_ADDR)];
      assert cs == sel + close + open + retarget;
      CountsAppend(sel + close + open, retarget);
      CountsAppend(sel + close, open);
      CountsAppend(sel, close);
    } else {
      CountsAppend(sel, addr);
      if r.maxAddressed {
        CountsAppend(sel + addr, InitCalls(fd, LED_AMPLITUDE));
        InitCallsObserved(fd, LED_AMPLITUDE);
      }
    }
  }

  /** The scan selects every channel from..7 once, in ascending order, whatever fails on the way. */
  lemma {:induction false} ScanVisits(fd: int, rs: seq<ChannelReply>, from: nat)
    requires |rs| == 8 && from <= 8
    ensures Visited(ScanFrom(fd, rs, from).calls) == Channels(from, 8)
    decreases 8 - from
  {
    if from < 8 {
      var s := ScanStep(fd, from, rs[from]);
      ScanFromStep(fd, rs, from);
      ScanVisits(s.fd, rs, from + 1);
      VisitedAppend(s.calls, ScanFrom(s.fd, rs, from + 1).calls);
      StepVisits(fd, from, rs[from]);
    }
  }

  /** The scan writes the twelve init frames once per listed channel, and no other frame. */
  lemma {:induction false} ScanFrames(fd: int, rs: seq<ChannelReply>, from: nat)
    requires |rs| == 8 && from <= 8
    ensures AllFrames(ScanFrom(fd, rs, from).calls) == Repeat(InitFrames(LED_AMPLITUDE), CountTrue(PassFlags(rs)[from..]))
    decreases 8 - from
  {
    if from < 8 {
      var s := ScanStep(fd, from, rs[from]);
      ScanFromStep(fd, rs, from);
      ScanFrames(s.fd, rs, from + 1);
      CountsAppend(s.calls, ScanFrom(s.fd, rs, from + 1).calls);
      StepCounts(fd, from, rs[from]);
      var pass := PassFlags(rs)[from..];
      assert pass[1..] == PassFlags(rs)[from + 1..];
      var c := CountTrue(pass[1..]);
      assert CountTrue(pass) == (if Passes(rs[from]) then 1 else 0) + c;
      assert Repeat(InitFrames(LED_AMPLITUDE), c + 1) == InitFrames(LED_AMPLITUDE) + Repeat(InitFrames(LED_AMPLITUDE), c);
    }
  }

  /** The scan opens the bus again once per failed select write. */
  lemma {:induction false} ScanOpens(fd: int, rs: seq<ChannelReply>, from: nat)
    requires |rs| == 8 && from <= 8
    ensures Opens(ScanFrom(fd, rs, from).calls) == CountTrue(SelectFailFlags(rs)[from..])
    decreases 8 - from
  {
    if from < 8 {
      var s := ScanStep(fd, from, rs[from]);
      ScanFromStep(fd, rs, from);
      ScanOpens(s.fd, rs, from + 1);
      CountsAppend(s.calls, ScanFrom(s.fd, rs, from + 1).calls);
      StepCounts(fd, from, rs[from]);
      var fail := SelectFailFlags(rs)[from..];
      assert fail[1..] == SelectFailFlags(rs)[from + 1..];
      assert CountTrue(fail) == (if rs[from].selectWritten != 1 then 1 else 0) + CountTrue(fail[1..]);
    }
  }

  /** The calls one PreJob issues when the cursor lands on channel ch. */
  function PreJobCalls(fd: int, ch: int): seq<Call>
    requires 0 <= ch < 8
  {
    [SelectWrite(fd, ch), SetAddress(fd, MAX30102_ADDR)]
  }

  /** The same with the handle pointed back at the multiplexer before the select byte is written. */
  function RetargetedPreJobCalls(fd: int, ch: int): seq<Call>
    requires 0 <= ch < 8
  {
    [SetAddress(fd, TCA9548A_ADDR), SelectWrite(fd, ch), SetAddress(fd, MAX30102_ADDR)]
  }

  /**
   * Every select byte written in cs goes out on a handle whose slave address
   * is the multiplexer's (history h precedes cs).
   */
  ghost predicate SelectsReachMux(h: seq<Call>, cs: seq<Call>)
  {
    forall i :: 0 <= i < |cs| && cs[i].Write? && SelectedBy(cs[i]).Some? ==>
      LastTarget(h + cs[..i], cs[i].fd) == Some(TCA9548A_ADDR)
  }

  /**
   * As written, the second of two PreJob calls writes its select byte while
   * the handle is still addressed to the sensor (0x57), so that byte never
   * reaches the multiplexer, whatever happened before.
   */
  lemma PreJobMisdirects(h: seq<Call>, fd: int, a: int, b: int)
    requires 0 <= a < 8 && 0 <= b < 8
    ensures !SelectsReachMux(h, PreJobCalls(fd, a) + PreJobCalls(fd, b))
  {
    var cs := PreJobCalls(fd, a) + PreJobCalls(fd, b);
    SelectWriteSelects(fd, b);
    assert cs[..2] == PreJobCalls(fd, a);
    assert (h + cs[..2])[|h + cs[..2]| - 1] == SetAddress(fd, MAX30102_ADDR);
    assert LastTarget(h + cs[..2], fd) == Some(MAX30102_ADDR);
  }

  /** The constructor scan has the same flaw: after a listed channel, the next select byte goes to the sensor. */
  lemma ScanMisdirects(h: seq<Call>, fd: int, rs: seq<ChannelReply>, a: nat)
    requires |rs| == 8 && a < 7 && Passes(rs[a])
    ensures !SelectsReachMux(h, ScanFrom(fd, rs, a).calls)
  {
    var s := ScanStep(fd, a, rs[a]);
    var rest := ScanFrom(fd, rs, a + 1).calls;
    ScanFromStep(fd, rs, a);
    ScanFromStep(fd, rs, a + 1);
    ListedStepTargetsSensor(h, fd, a, rs[a]);
    var cs := s.calls + rest;
    assert cs[|s.calls|] == SelectWrite(fd, a + 1);
    assert cs[..|s.calls|] == s.calls;
    SelectWriteSelects(fd, a + 1);
    MisdirectedAt(h, cs, |s.calls|);
  }

  /** A select write issued while its handle is addressed to the sensor breaks SelectsReachMux. */
  lemma MisdirectedAt(h: seq<Call>, cs: seq<Call>, k: nat)
    requires k < |cs| && cs[k].Write? && SelectedBy(cs[k]).Some?
    requires LastTarget(h + cs[..k], cs[k].fd) == Some(MAX30102_ADDR)
    ensures !SelectsReachMux(h, cs)
  {
  }

  /** A listed channel's scan step leaves the handle addressed to the sensor. */
  lemma ListedStepTargetsSensor(h: seq<Call>, fd: int, ch: int, r: ChannelReply)
    requires 0 <= ch < 8 && Passes(r)
    ensures ScanStep(fd, ch, r).fd == fd
    ensures LastTarget(h + ScanStep(fd, ch, r).calls, fd) == Some(MAX30102_ADDR)
  {
    var pre := h + [SelectWrite(fd, ch), SetAddress(fd, MAX30102_ADDR)];
    assert pre[|pre| - 1] == SetAddress(fd, MAX30102_ADDR);
    assert LastTarget(pre, fd) == Some(MAX30102_ADDR);
    InitTargetsNothing(pre, fd);
    assert h + ScanStep(fd, ch, r).calls == pre + InitCalls(fd, LED_AMPLITUDE);
  }

  /** The initialisation sets no address, so the target it leaves is the one before it. */
  lemma InitTargetsNothing(h: seq<Call>, fd: int)
    ensures LastTarget(h + InitCalls(fd, LED_AMPLITUDE), fd) == LastTarget(h, fd)
  {
    FrameCallsAreWrites(fd, InitFrames(LED_AMPLITUDE));
    NoAddressCalls(h, FrameCalls(fd, InitFrames(LED_AMPLITUDE)), fd);
  }

  lemma {:induction false} NoAddressCalls(h: seq<Call>, cs: seq<Call>, fd: int)
    requires forall i :: 0 <= i < |cs| ==> cs[i].Write?
    ensures LastTarget(h + cs, fd) == LastTarget(h, fd)
  {
    if |cs| > 0 {
      assert (h + cs)[..|h + cs| - 1] == h + cs[..|cs| - 1];
      NoAddressCalls(h, cs[..|cs| - 1], fd);
    } else {
      assert h + cs == h;
    }
  }

  /** The calls of successive re-targeting PreJob steps visiting chs. */
  function RetargetedRounds(fd: int, chs: seq<int>): seq<Call>
    requires forall i :: 0 <= i < |chs| ==> 0 <= chs[i] < 8
  {
    if |chs| == 0 then [] else RetargetedPreJobCalls(fd, chs[0]) + RetargetedRounds(fd, chs[1..])
  }

  /** If cs keeps the property after history h + head, so does head + cs when head's only select is at position k right after a re-target. */
  lemma ReachMuxCons(h: seq<Call>, head: seq<Call>, tail: seq<Call>, k: nat)
    requires 1 <= k < |head| && head[k].Write? && head[k - 1] == SetAddress(head[k].fd, TCA9548A_ADDR)
    requires forall i :: 0 <= i < |head| && i != k ==> SelectedBy(head[i]).None?
    requires SelectsReachMux(h + head, tail)
    ensures SelectsReachMux(h, head + tail)
  {
    var cs := head + tail;
    forall i | 0 <= i < |cs| && cs[i].Write? && SelectedBy(cs[i]).Some?
      ensures LastTarget(h + cs[..i], cs[i].fd) == Some(TCA9548A_ADDR)
    {
      if i < |head| {
        assert i == k;
        assert cs[..k] == head[..k];
        assert (h + cs[..k])[|h + cs[..k]| - 1] == SetAddress(cs[k].fd, TCA9548A_ADDR);
      } else {
        assert cs[..i] == head + tail[..i - |head|];
        assert h + cs[..i] == (h + head) + tail[..i - |head|];
        assert tail[i - |head|] == cs[i];
      }
    }
  }

  /** With the re-targeting step, every select byte of any number of rounds reaches the multiplexer. */
  lemma {:induction false} RetargetedPreJobsReachMux(h: seq<Call>, fd: int, chs: seq<int>)
    requires forall i :: 0 <= i < |chs| ==> 0 <= chs[i] < 8
    ensures SelectsReachMux(h, RetargetedRounds(fd, chs))
    decreases |chs|
  {
    if |chs| > 0 {
      var head := RetargetedPreJobCalls(fd, chs[0]);
      RetargetedPreJobsReachMux(h + head, fd, chs[1..]);
      ReachMuxCons(h, head, RetargetedRounds(fd, chs[1..]), 1);
    }
  }

  /** The scan step with the handle pointed back at the multiplexer before each select byte. */
  function RetargetedScanFrom(fd: int, rs: seq<ChannelReply>, from: nat): Opened
    requires |rs| == 8 && from <= 8
    decreases 8 - from
  {
    if from == 8 then Opened(fd, [])
    else
      var s := ScanStep(fd, from, rs[from]);
      var rest := RetargetedScanFrom(s.fd, rs, from + 1);
      Opened(rest.fd, [SetAddress(fd, TCA9548A_ADDR)] + s.calls + rest.calls)
  }

  /** The one select byte of a scan step is its first call. */
  lemma ScanStepSelects(fd: int, ch: int, r: ChannelReply)
    requires 0 <= ch < 8
    ensures var cs := ScanStep(fd, ch, r).calls;
      |cs| >= 1 && cs[0] == SelectWrite(fd, ch) &&
      forall i :: 1 <= i < |cs| ==> SelectedBy(cs[i]).None?
  {
    var cs := ScanStep(fd, ch, r).calls;
    forall i | 1 <= i < |cs|
      ensures SelectedBy(cs[i]).None?
    {
      if r.selectWritten == 1 && r.maxAddressed && i >= 2 {
        FrameCallsPairs(fd, InitFrames(LED_AMPLITUDE), i - 2);
      }
    }
  }

  lemma {:induction false} FrameCallsPairs(fd: int, fs: seq<Frame>, j: int)
    requires 0 <= j < |fs|
    ensures FrameCalls(fd, fs)[j] == Write(fd, FrameBytes(fs[j]))
  {
    if j > 0 {
      FrameCallsPairs(fd, fs[1..], j - 1);
    }
  }

  /** With the re-targeting scan, every select byte reaches the multiplexer. */
  lemma {:induction false} RetargetedScanReachesMux(h: seq<Call>, fd: int, rs: seq<ChannelReply>, from: nat)
    requires |rs| == 8 && from <= 8
    ensures SelectsReachMux(h, RetargetedScanFrom(fd, rs, from).calls)
    decreases 8 - from
  {
    if from < 8 {
      var s := ScanStep(fd, from, rs[from]);
      var head := [SetAddress(fd, TCA9548A_ADDR)] + s.calls;
      ScanStepSelects(fd, from, rs[from]);
      RetargetedScanReachesMux(h + head, s.fd, rs, from + 1);
      assert RetargetedScanFrom(fd, rs, from).calls == head + RetargetedScanFrom(s.fd, rs, from + 1).calls;
      ReachMuxCons(h, head, RetargetedScanFrom(s.fd, rs, from + 1).calls, 1);
    }
  }

  /** The MAX30102 object of max30102.cpp: one bus handle, the listed channels and the round-robin cursor. */
  class Driver {
    var fd: int
    const table: ChannelTable
    /** count_channel: the slot PreJob reads next. */
    var cursor: int
    /** now_use_channel */
    var current: int
    /** The calls issued so far. */
    var calls: seq<Call>

    ghost predicate Valid()
      reads this, table, table.slots
    {
      table.Valid() && (if table.count == 0 then cursor == 0 else 0 <= cursor < table.count)
    }

    /**
     * The constructor: open and target the multiplexer, then scan channels
     * 0..7; the listed channels are exactly those that passed, in ascending
     * order, and the trace is the scan's.
     */
    constructor (first: OpenReply, rs: seq<ChannelReply>)
      requires |rs| == 8
      ensures Valid() && fresh(table) && fresh(table.slots)
      ensures table.Contents() == Accepted(PassFlags(rs))
      ensures fd == ScanFrom(first.fd, rs, 0).fd
      ensures calls == OpenCalls(first) + ScanFrom(first.fd, rs, 0).calls
      ensures cursor == 0 && current == 0
    {
      fd := first.fd;
      table := new ChannelTable();
      cursor := 0;
      current := 0;
      calls := OpenCalls(first);
      new;
      Scan(rs);
    }

    /** The constructor's loop over channels 0..7. */
    method Scan(rs: seq<ChannelReply>)
      requires |rs| == 8 && table.Valid() && table.count == 0
      modifies this`fd, this`calls, table, table.slots
      ensures table.Valid() && table.Contents() == Accepted(PassFlags(rs))
      ensures fd == ScanFrom(old(fd), rs, 0).fd
      ensures calls == old(calls) + ScanFrom(old(fd), rs, 0).calls
    {
      var i := 0;
      while i < 8
        invariant 0 <= i <= 8
        invariant table.Valid() && table.Contents() == Accepted(PassFlags(rs)[..i]) && table.count <= i
        invariant calls + ScanFrom(fd, rs, i).calls == old(calls) + ScanFrom(old(fd), rs, 0).calls
        invariant ScanFrom(fd, rs, i).fd == ScanFrom(old(fd), rs, 0).fd
      {
        ghost var fd0, calls0 := fd, calls;
        ScanFromStep(fd0, rs, i);
        Visit(i, rs[i]);
        ConsAssoc(calls0, ScanStep(fd0, i, rs[i]).calls, ScanFrom(fd, rs, i + 1).calls);
        AcceptedSnoc(PassFlags(rs), i);
        i := i + 1;
      }
      assert PassFlags(rs)[..8] == PassFlags(rs);
    }

    /** One iteration of the constructor's scan loop, on channel ch. */
    method Visit(ch: int, r: ChannelReply)
      requires table.Valid() && 0 <= ch < 8 && table.count <= ch
      modifies this`fd, this`calls, table, table.slots
      ensures table.Valid()
      ensures table.Contents() == old(table.Contents()) + (if Passes(r) then [ch] else [])
      ensures fd == ScanStep(old(fd), ch, r).fd
      ensures calls == old(calls) + ScanStep(old(fd), ch, r).calls
    {
      calls := calls + [SelectWrite(fd, ch)];
      if r.selectWritten != 1 {
        calls := calls + [Close(fd)];
        fd := r.reopen.fd;
        calls := calls + [Open, SetAddress(fd, TCA9548A_ADDR)];
      } else if !r.maxAddressed {
        calls := calls + [SetAddress(fd, MAX30102_ADDR)];
      } else {
        calls := calls + [SetAddress(fd, MAX30102_ADDR)];
        table.Append(ch);
        Init(HrmSpo2);
      }
    }

    /** max30102_init(mode): the fixed twelve-frame sequence on the shared handle; mode is not consulted. */
    method Init(mode: Mode)
      modifies this`calls
      ensures calls == old(calls) + InitCalls(fd, LED_AMPLITUDE)
    {
      calls := calls + InitCalls(fd, LED_AMPLITUDE);
    }

    /**
     * PreJob: read the channel under the cursor, advance the cursor (back to 0
     * after the last listed channel), write that channel's select byte and
     * address the sensor. The source indexes an uninitialised slot when no
     * channel is listed, hence the requirement.
     */
    method PreJob()
      requires Valid() && table.count > 0
      modifies this`cursor, this`current, this`calls
      ensures Valid()
      ensures current == table.Contents()[old(cursor)]
      ensures cursor == Advance(old(cursor), table.count)
      ensures calls == old(calls) + PreJobCalls(fd, current)
    {
      current := table.Get(cursor);
      cursor := Advance(cursor, table.count);
      calls := calls + PreJobCalls(fd, current);
    }

    /** The corrected PreJob: the handle is pointed back at the multiplexer before the select byte. */
    method RetargetedPreJob()
      requires Valid() && table.count > 0
      modifies this`cursor, this`current, this`calls
      ensures Valid()
      ensures current == table.Contents()[old(cursor)]
      ensures cursor == Advance(old(cursor), table.count)
      ensures calls == old(calls) + RetargetedPreJobCalls(fd, current)
    {
      current := table.Get(cursor);
      cursor := Advance(cursor, table.count);
      calls := calls + RetargetedPreJobCalls(fd, current);
    }

    /**
     * DoJob: one read_fifo into uninitialised temporaries, copied to the
     * outputs. garbage stands for what the temporaries happen to hold, which
     * is what the outputs get when the read fails.
     */
    method DoJob(r: FifoReply, garbage: Reading) returns (ir: bv32, red: bv32)
      modifies this`calls
      ensures FifoOk(r) ==> Reading(red, ir) == DecodeRecord(r.data)
      ensures !FifoOk(r) ==> Reading(red, ir) == garbage
      ensures calls == old(calls) + ReadFifo(fd, r, garbage).calls
    {
      var f := ReadFifo(fd, r, garbage);
      calls := calls + f.calls;
      red, ir := f.out.red, f.out.ir;
    }
  }
}
