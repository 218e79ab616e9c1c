/**
 * The driver class of Qt_2.0/max30102.cpp. The constructor opens the bus and
 * addresses the multiplexer (-1 when either fails). get_data walks channels
 * 0..7 on that handle: a failed select byte closes it and opens and
 * addresses another, skipping the channel; a refused sensor address skips
 * it; otherwise the sensor is initialised and read 20 times, the outputs
 * following the temporaries after every read.
 */
module Qt20Driver {
  import opened Max30102
  import opened I2cBus
  import opened ChannelScan
  import opened ReadLoop

  /** The number of read_fifo calls per reached channel. */
  const READS_PER_CHANNEL: nat := 20

  /**
   * The reopen after a failed select: open, and when that worked address the
   * multiplexer, closing the handle if that fails. Unlike init_i2c, the
   * member keeps whatever open returned.
   */
  function Reopen(r: OpenReply): Opened
  {
    Opened(r.fd, InitI2c(TCA9548A_ADDR, r).calls)
  }

  /** A failed re-target closes the new handle but leaves the member naming it, where init_i2c would yield -1. */
  lemma FailedRetargetKeepsClosedHandle(r: OpenReply)
    requires r.fd != -1 && !r.addressed
    ensures Reopen(r).fd == r.fd && Reopen(r).calls[|Reopen(r).calls| - 1] == Close(r.fd)
    ensures InitI2c(TCA9548A_ADDR, r).fd == -1
  {
  }

  /** One channel on handle fd: the handle after it and its calls. */
  function ChannelStep(fd: int, ch: int, a: Attempt): Opened
    requires 0 <= ch < 8
  {
    if a.selectWritten != 1 then
      var o := Reopen(a.reopen);
      Opened(o.fd, [SelectWrite(fd, ch)] + ([Close(fd)] + o.calls))
    else if !a.maxAddressed then Opened(fd, SelectThen(fd, ch, []))
    else Opened(fd, SelectThen(fd, ch, InitCalls(fd, LED_AMPLITUDE) + RunCalls(fd, a.burst)))
  }

  /** Channels k..7 of get_data on handle fd: the handle after them and their calls. */
  function PassFrom(fd: int, ats: seq<Attempt>, k: nat): Opened
    requires |ats| == 8 && k <= 8
    decreases 8 - k
  {
    if k == 8 then Opened(fd, [])
    else
      var c := ChannelStep(fd, k, ats[k]);
      var rest := PassFrom(c.fd, ats, k + 1);
      Opened(rest.fd, c.calls + rest.calls)
  }

  lemma PassFromStep(fd: int, ats: seq<Attempt>, k: nat)
    requires |ats| == 8 && k < 8
    ensures PassFrom(fd, ats, k).calls == ChannelStep(fd, k, ats[k]).calls + PassFrom(ChannelStep(fd, k, ats[k]).fd, ats, k + 1).calls
    ensures PassFrom(fd, ats, k).fd == PassFrom(ChannelStep(fd, k, ats[k]).fd, ats, k + 1).fd
  {
  }

  /** The temporaries after channels k..7: each reached channel's run of reads, in turn. */
  function PassOut(prior: Reading, ats: seq<Attempt>, k: nat): Reading
    requires |ats| == 8 && k <= 8
    decreases 8 - k
  {
    if k == 8 then prior
    else PassOut(if Reached(ats[k]) then RunOut(ats[k].burst, prior) else prior, ats, k + 1)
  }

  /**
   * A reached channel is initialised before it is read: its trace starts
   * with the select byte and the sensor's address, then the twelve init
   * frames, then 20 read attempts and no further frame.
   */
  lemma InitBeforeReads(fd: int, ch: int, a: Attempt)
    requires 0 <= ch < 8 && Reached(a) && |a.burst| == READS_PER_CHANNEL
    ensures var cs := ChannelStep(fd, ch, a).calls;
      |cs| >= 14 &&
      AllFrames(cs[..14]) == InitFrames(LED_AMPLITUDE) && Requests(cs[..14]) == 0 &&
      AllFrames(cs[14..]) == [] && Requests(cs[14..]) == READS_PER_CHANNEL
  {
    var g := RunCalls(fd, a.burst);
    var init := InitCalls(fd, LED_AMPLITUDE);
    var cs := ChannelStep(fd, ch, a).calls;
    assert cs == SelectThen(fd, ch, init) + g;
    assert cs[..14] == SelectThen(fd, ch, init) && cs[14..] == g;
    InitCallsObserved(fd, LED_AMPLITUDE);
    FramesNotRequests(fd, InitFrames(LED_AMPLITUDE));
    SelectThenObserved(fd, ch, init);
    RunCallsObserved(fd, a.burst);
  }

  /** One channel selects it only, opens the bus once iff its select failed, and reads it 20 times after the init frames iff it is reached. */
  lemma ChannelObserved(fd: int, ch: int, a: Attempt)
    requires 0 <= ch < 8 && |a.burst| == READS_PER_CHANNEL
    ensures Visited(ChannelStep(fd, ch, a).calls) == [ch]
    ensures Opens(ChannelStep(fd, ch, a).calls) == if a.selectWritten != 1 then 1 else 0
    ensures AllFrames(ChannelStep(fd, ch, a).calls) == if Reached(a) then InitFrames(LED_AMPLITUDE) else []
    ensures Requests(ChannelStep(fd, ch, a).calls) == if Reached(a) then READS_PER_CHANNEL else 0
  {
    if a.selectWritten != 1 {
      FailObserved(fd, ch, a.reopen);
    } else if !a.maxAddressed {
      SelectThenObserved(fd, ch, []);
    } else {
      ReadObserved(fd, ch, a.burst);
    }
  }

  /** The frames of one channel: the init frames iff it is reached, whatever its reads return. */
  lemma ChannelFrames(fd: int, ch: int, a: Attempt)
    requires 0 <= ch < 8
    ensures AllFrames(ChannelStep(fd, ch, a).calls) == if Reached(a) then InitFrames(LED_AMPLITUDE) else []
  {
    if a.selectWritten != 1 {
      FailObserved(fd, ch, a.reopen);
    } else if !a.maxAddressed {
      SelectThenObserved(fd, ch, []);
    } else {
      ReadObserved(fd, ch, a.burst);
    }
  }

  /** A failed select: the select byte, the close and the reopen. */
  lemma FailObserved(fd: int, ch: int, r: OpenReply)
    requires 0 <= ch < 8
    ensures var cs := [SelectWrite(fd, ch)] + ([Close(fd)] + Reopen(r).calls);
      Visited(cs) == [ch] && Opens(cs) == 1 && AllFrames(cs) == [] && Requests(cs) == 0
  {
    var t := [Close(fd)] + Reopen(r).calls;
    ReopenObserved(fd, r);
    SelectWriteSelects(fd, ch);
    ObserveCons(SelectWrite(fd, ch), t);
    SelectNotRequest(fd, ch);
    RequestsCons(SelectWrite(fd, ch), t);
  }

  /** The close and the reopen select nothing, write no frame, read nothing and open once. */
  lemma ReopenObserved(fd: int, r: OpenReply)
    ensures var t := [Close(fd)] + Reopen(r).calls;
      Visited(t) == [] && Opens(t) == 1 && AllFrames(t) == [] && Requests(t) == 0
  {
    var o := Reopen(r);
    InitI2cObserved(TCA9548A_ADDR, r);
    ObserveCons(Close(fd), o.calls);
    RequestsCons(Close(fd), o.calls);
    NoRequests(o.calls);
  }

  /** A reached channel: select, address, the init frames and the reads. */
  lemma ReadObserved(fd: int, ch: int, burst: seq<FifoReply>)
    requires 0 <= ch < 8
    ensures var cs := SelectThen(fd, ch, InitCalls(fd, LED_AMPLITUDE) + RunCalls(fd, burst));
      Visited(cs) == [ch] && Opens(cs) == 0 && AllFrames(cs) == InitFrames(LED_AMPLITUDE) && Requests(cs) == |burst|
  {
    var g := RunCalls(fd, burst);
    var init := InitCalls(fd, LED_AMPLITUDE);
    InitCallsObserved(fd, LED_AMPLITUDE);
    FramesNotRequests(fd, InitFrames(LED_AMPLITUDE));
    RunCallsObserved(fd, burst);
    ObserveAppend(init, g);
    RequestsAppend(init, g);
    SelectThenObserved(fd, ch, init + g);
  }

  /** get_data visits channels k..7 in ascending order and makes 20 read attempts on every reached channel. */
  lemma {:induction false} PassObserved(fd: int, ats: seq<Attempt>, k: nat)
    requires |ats| == 8 && k <= 8 && FullAttempts(ats, READS_PER_CHANNEL)
    ensures Visited(PassFrom(fd, ats, k).calls) == Channels(k, 8)
    ensures Requests(PassFrom(fd, ats, k).calls) == READS_PER_CHANNEL * CountTrue(ReachedFlags(ats)[k..])
    decreases 8 - k
  {
    if k < 8 {
      var c := ChannelStep(fd, k, ats[k]);
      PassFromStep(fd, ats, k);
      ChannelObserved(fd, k, ats[k]);
      PassObserved(c.fd, ats, k + 1);
      VisitedAppend(c.calls, PassFrom(c.fd, ats, k + 1).calls);
      RequestsAppend(c.calls, PassFrom(c.fd, ats, k + 1).calls);
      var f := ReachedFlags(ats)[k..];
      assert f[1..] == ReachedFlags(ats)[k + 1..];
      assert CountTrue(f) == (if Reached(ats[k]) then 1 else 0) + CountTrue(f[1..]);
    }
  }

  /** get_data opens the bus once per failed select byte. */
  lemma {:induction false} PassOpens(fd: int, ats: seq<Attempt>, k: nat)
    requires |ats| == 8 && k <= 8 && FullAttempts(ats, READS_PER_CHANNEL)
    ensures Opens(PassFrom(fd, ats, k).calls) == CountTrue(FailedFlags(ats)[k..])
    decreases 8 - k
  {
    if k < 8 {
      var c := ChannelStep(fd, k, ats[k]);
      PassFromStep(fd, ats, k);
      ChannelObserved(fd, k, ats[k]);
      PassOpens(c.fd, ats, k + 1);
      CountsAppend(c.calls, PassFrom(c.fd, ats, k + 1).calls);
      var f := FailedFlags(ats)[k..];
      assert f[1..] == FailedFlags(ats)[k + 1..];
      assert CountTrue(f) == (if ats[k].selectWritten != 1 then 1 else 0) + CountTrue(f[1..]);
    }
  }

  /** get_data writes the init frames once per reached channel, and no other frame. */
  lemma {:induction false} PassFrames(fd: int, ats: seq<Attempt>, k: nat)
    requires |ats| == 8 && k <= 8
    ensures AllFrames(PassFrom(fd, ats, k).calls) == Repeat(InitFrames(LED_AMPLITUDE), CountTrue(ReachedFlags(ats)[k..]))
    decreases 8 - k
  {
    if k < 8 {
      var c := ChannelStep(fd, k, ats[k]);
      PassFromStep(fd, ats, k);
      ChannelFrames(fd, k, ats[k]);
      PassFrames(c.fd, ats, k + 1);
      FramesAppend(c.calls, PassFrom(c.fd, ats, k + 1).calls);
      var p := ReachedFlags(ats)[k..];
      assert p[1..] == ReachedFlags(ats)[k + 1..];
      var m := CountTrue(p[1..]);
      assert CountTrue(p) == (if Reached(ats[k]) then 1 else 0) + m;
      RepeatCons([], InitFrames(LED_AMPLITUDE), AllFrames(c.calls), m, Reached(ats[k]));
      assert [] + AllFrames(c.calls) == AllFrames(c.calls);
    }
  }

  /** While every select byte goes out, get_data keeps the handle it started with. */
  lemma {:induction false} PassKeepsHandle(fd: int, ats: seq<Attempt>, k: nat)
    requires |ats| == 8 && k <= 8
    requires forall j :: k <= j < 8 ==> ats[j].selectWritten == 1
    ensures PassFrom(fd, ats, k).fd == fd
    decreases 8 - k
  {
    if k < 8 {
      PassKeepsHandle(fd, ats, k + 1);
    }
  }

  /** When no channel is reached the temporaries keep what they held. */
  lemma {:induction false} PassOutUnreached(prior: Reading, ats: seq<Attempt>, k: nat)
    requires |ats| == 8 && k <= 8
    requires forall j :: k <= j < 8 ==> !Reached(ats[j])
    ensures PassOut(prior, ats, k) == prior
    decreases 8 - k
  {
    if k < 8 {
      PassOutUnreached(prior, ats, k + 1);
    }
  }

  class Driver {
    var fd: int
    /** The calls issued so far. */
    var calls: seq<Call>

    /** The constructor: init_i2c on the multiplexer's address; fd is -1 iff opening or addressing failed. */
    constructor (first: OpenReply)
      ensures fd == InitI2c(TCA9548A_ADDR, first).fd
      ensures fd != -1 <==> first.fd != -1 && first.addressed
      ensures calls == InitI2c(TCA9548A_ADDR, first).calls
    {
      var o := InitI2c(TCA9548A_ADDR, first);
      fd := o.fd;
      calls := o.calls;
    }

    /**
     * get_data over channels 0..7. temp is what the temporaries held; the
     * outputs follow them once any channel was read.
     */
    method GetData(ats: seq<Attempt>, temp: Reading, out: Reading) returns (t: Reading, o: Reading)
      requires |ats| == 8 && FullAttempts(ats, READS_PER_CHANNEL)
      modifies this
      ensures fd == PassFrom(old(fd), ats, 0).fd
      ensures calls == old(calls) + PassFrom(old(fd), ats, 0).calls
      ensures t == PassOut(temp, ats, 0)
      ensures o == if AnyReached(ats, 8) then t else out
    {
      t, o := temp, out;
      var k := 0;
      while k < 8
        invariant 0 <= k <= 8
        invariant calls + PassFrom(fd, ats, k).calls == old(calls) + PassFrom(old(fd), ats, 0).calls
        invariant PassFrom(fd, ats, k).fd == PassFrom(old(fd), ats, 0).fd
        invariant PassOut(t, ats, k) == PassOut(temp, ats, 0)
        invariant o == if AnyReached(ats, k) then t else out
      {
        ghost var fd0, calls0 := fd, calls;
        PassFromStep(fd0, ats, k);
        t, o := Visit(k, ats[k], t, o);
        ConsAssoc(calls0, ChannelStep(fd0, k, ats[k]).calls, PassFrom(fd, ats, k + 1).calls);
        k := k + 1;
      }
    }

    /** One channel of get_data. */
    method Visit(ch: int, a: Attempt, temp: Reading, out: Reading) returns (t: Reading, o: Reading)
      requires 0 <= ch < 8 && |a.burst| == READS_PER_CHANNEL
      modifies this
      ensures fd == ChannelStep(old(fd), ch, a).fd
      ensures calls == old(calls) + ChannelStep(old(fd), ch, a).calls
      ensures t == if Reached(a) then RunOut(a.burst, temp) else temp
      ensures o == if Reached(a) then t else out
    {
      t, o := temp, out;
      if a.selectWritten != 1 {
        var r := Reopen(a.reopen);
        calls := calls + ([SelectWrite(fd, ch)] + ([Close(fd)] + r.calls));
        fd := r.fd;
      } else if !a.maxAddressed {
        calls := calls + SelectThen(fd, ch, []);
      } else {
        var cs;
        t, o, cs := Burst(fd, a.burst, temp, out);
        ReadRunSplit(fd, a.burst, temp);
        calls := calls + SelectThen(fd, ch, InitCalls(fd, LED_AMPLITUDE) + cs);
      }
    }
  }
}
