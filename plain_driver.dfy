/**
 * The driver class of max30102/max30102.cpp. The constructor is init_i2c on
 * the multiplexer's address. One sweep of get_data's endless loop walks
 * channels 0..7 on that one handle: a select byte that does not go out, or a
 * refused sensor address, skips the channel without any reopen; otherwise
 * the sensor is initialised and read 30 times into the two temporaries, which
 * are printed after every read.
 */
module PlainDriver {
  import opened Max30102
  import opened I2cBus
  import opened ChannelScan
  import opened ReadLoop
  import RootDriver

  /** The number of read_fifo calls per reached channel. */
  const READS_PER_CHANNEL: nat := 30

  /** The calls of one channel of the sweep on handle fd. */
  function ChannelCalls(fd: int, ch: int, a: Attempt): seq<Call>
    requires 0 <= ch < 8
  {
    if a.selectWritten != 1 then [SelectWrite(fd, ch)]
    else if !a.maxAddressed then SelectThen(fd, ch, [])
    else SelectThen(fd, ch, InitCalls(fd, LED_AMPLITUDE) + RunCalls(fd, a.burst))
  }

  /** The calls of channels k..7. */
  function SweepFrom(fd: int, ats: seq<Attempt>, k: nat): seq<Call>
    requires |ats| == 8 && k <= 8
    decreases 8 - k
  {
    if k == 8 then [] else ChannelCalls(fd, k, ats[k]) + SweepFrom(fd, ats, k + 1)
  }

  /** The temporaries after channels k..7. */
  function SweepOut(prior: Reading, ats: seq<Attempt>, k: nat): Reading
    requires |ats| == 8 && k <= 8
    decreases 8 - k
  {
    if k == 8 then prior
    else SweepOut(if Reached(ats[k]) then RunOut(ats[k].burst, prior) else prior, ats, k + 1)
  }

  /** The values printed during channels k..7. */
  function SweepPrinted(prior: Reading, ats: seq<Attempt>, k: nat): seq<Reading>
    requires |ats| == 8 && k <= 8
    decreases 8 - k
  {
    if k == 8 then []
    else if Reached(ats[k]) then Printed(ats[k].burst, prior) + SweepPrinted(RunOut(ats[k].burst, prior), ats, k + 1)
    else SweepPrinted(prior, ats, k + 1)
  }

  /** A channel selects itself, opens nothing, and writes the init frames and makes its reads iff it is reached. */
  lemma ChannelObserved(fd: int, ch: int, a: Attempt)
    requires 0 <= ch < 8
    ensures Visited(ChannelCalls(fd, ch, a)) == [ch]
    ensures Opens(ChannelCalls(fd, ch, a)) == 0
    ensures AllFrames(ChannelCalls(fd, ch, a)) == if Reached(a) then InitFrames(LED_AMPLITUDE) else []
    ensures Requests(ChannelCalls(fd, ch, a)) == if Reached(a) then |a.burst| else 0
  {
    if a.selectWritten != 1 {
      SelectWriteSelects(fd, ch);
      SelectNotRequest(fd, ch);
      ObserveCons(SelectWrite(fd, ch), []);
      RequestsCons(SelectWrite(fd, ch), []);
    } else if !a.maxAddressed {
      SelectThenObserved(fd, ch, []);
    } else {
      var init, g := InitCalls(fd, LED_AMPLITUDE), RunCalls(fd, a.burst);
      InitCallsObserved(fd, LED_AMPLITUDE);
      FramesNotRequests(fd, InitFrames(LED_AMPLITUDE));
      RunCallsObserved(fd, a.burst);
      ObserveAppend(init, g);
      RequestsAppend(init, g);
      SelectThenObserved(fd, ch, init + g);
    }
  }

  /** The frames of one channel: the init frames iff it is reached. */
  lemma ChannelFrames(fd: int, ch: int, a: Attempt)
    requires 0 <= ch < 8
    ensures AllFrames(ChannelCalls(fd, ch, a)) == if Reached(a) then InitFrames(LED_AMPLITUDE) else []
  {
    ChannelObserved(fd, ch, a);
  }

  /** A sweep visits channels k..7 in ascending order and never opens the bus: no channel is retried on a new handle. */
  lemma {:induction false} SweepVisits(fd: int, ats: seq<Attempt>, k: nat)
    requires |ats| == 8 && k <= 8
    ensures Visited(SweepFrom(fd, ats, k)) == Channels(k, 8)
    ensures Opens(SweepFrom(fd, ats, k)) == 0
    decreases 8 - k
  {
    if k < 8 {
      var c := ChannelCalls(fd, k, ats[k]);
      ChannelObserved(fd, k, ats[k]);
      SweepVisits(fd, ats, k + 1);
      VisitedAppend(c, SweepFrom(fd, ats, k + 1));
      CountsAppend(c, SweepFrom(fd, ats, k + 1));
    }
  }

  /** A sweep writes the init frames once per reached channel, and no other frame. */
  lemma {:induction false} SweepFrames(fd: int, ats: seq<Attempt>, k: nat)
    requires |ats| == 8 && k <= 8
    ensures AllFrames(SweepFrom(fd, ats, k)) == Repeat(InitFrames(LED_AMPLITUDE), CountTrue(ReachedFlags(ats)[k..]))
    decreases 8 - k
  {
    if k < 8 {
      SweepFramesStep(fd, ats, k);
      SweepFrames(fd, ats, k + 1);
      var p := ReachedFlags(ats)[k..];
      assert p[0] == Reached(ats[k]) && p[1..] == ReachedFlags(ats)[k + 1..];
      CountRepeat(InitFrames(LED_AMPLITUDE), p, AllFrames(SweepFrom(fd, ats, k)), AllFrames(SweepFrom(fd, ats, k + 1)));
    }
  }

  lemma SweepFramesStep(fd: int, ats: seq<Attempt>, k: nat)
    requires |ats| == 8 && k < 8
    ensures AllFrames(SweepFrom(fd, ats, k)) ==
      (if Reached(ats[k]) then InitFrames(LED_AMPLITUDE) else []) + AllFrames(SweepFrom(fd, ats, k + 1))
  {
    ChannelFrames(fd, k, ats[k]);
    FramesAppend(ChannelCalls(fd, k, ats[k]), SweepFrom(fd, ats, k + 1));
  }

  /** A sweep makes 30 read attempts on every reached channel and none elsewhere. */
  lemma {:induction false} SweepRequests(fd: int, ats: seq<Attempt>, k: nat)
    requires |ats| == 8 && k <= 8 && FullAttempts(ats, READS_PER_CHANNEL)
    ensures Requests(SweepFrom(fd, ats, k)) == READS_PER_CHANNEL * CountTrue(ReachedFlags(ats)[k..])
    decreases 8 - k
  {
    if k < 8 {
      var c := ChannelCalls(fd, k, ats[k]);
      ChannelObserved(fd, k, ats[k]);
      SweepRequests(fd, ats, k + 1);
      RequestsAppend(c, SweepFrom(fd, ats, k + 1));
      var f := ReachedFlags(ats)[k..];
      assert f[1..] == ReachedFlags(ats)[k + 1..];
      assert CountTrue(f) == (if Reached(ats[k]) then 1 else 0) + CountTrue(f[1..]);
    }
  }

  /** A sweep prints one line per read on a reached channel. */
  lemma {:induction false} SweepPrintedLength(prior: Reading, ats: seq<Attempt>, k: nat)
    requires |ats| == 8 && k <= 8 && FullAttempts(ats, READS_PER_CHANNEL)
    ensures |SweepPrinted(prior, ats, k)| == READS_PER_CHANNEL * CountTrue(ReachedFlags(ats)[k..])
    decreases 8 - k
  {
    if k < 8 {
      var next := if Reached(ats[k]) then RunOut(ats[k].burst, prior) else prior;
      SweepPrintedLength(next, ats, k + 1);
      PrintedLength(ats[k].burst, prior);
      var f := ReachedFlags(ats)[k..];
      assert f[1..] == ReachedFlags(ats)[k + 1..];
      assert CountTrue(f) == (if Reached(ats[k]) then 1 else 0) + CountTrue(f[1..]);
    }
  }

  /**
   * The sweep never points the handle back at the multiplexer: once a channel
   * below 7 is reached, the next channel's select byte is written while the
   * handle is addressed to the sensor.
   */
  lemma ReachedMisdirectsNext(h: seq<Call>, fd: int, ats: seq<Attempt>, k: nat)
    requires |ats| == 8 && k < 7 && Reached(ats[k])
    ensures !RootDriver.SelectsReachMux(h, SweepFrom(fd, ats, k))
  {
    var tail := InitCalls(fd, LED_AMPLITUDE) + RunCalls(fd, ats[k].burst);
    var s := ChannelCalls(fd, k, ats[k]);
    InitRunSetsNoAddress(fd, LED_AMPLITUDE, ats[k].burst);
    SelectThenTargetsSensor(h, fd, k, tail);
    var cs := s + (ChannelCalls(fd, k + 1, ats[k + 1]) + SweepFrom(fd, ats, k + 2));
    assert cs == SweepFrom(fd, ats, k);
    assert cs[|s|] == SelectWrite(fd, k + 1) && cs[..|s|] == s;
    SelectWriteSelects(fd, k + 1);
    RootDriver.MisdirectedAt(h, cs, |s|);
  }

  /** One channel of the sweep, followed by the rest. */
  lemma SweepUnfold(fd: int, prior: Reading, ats: seq<Attempt>, k: nat)
    requires |ats| == 8 && k < 8
    ensures SweepFrom(fd, ats, k) == ChannelCalls(fd, k, ats[k]) + SweepFrom(fd, ats, k + 1)
    ensures var next := if Reached(ats[k]) then RunOut(ats[k].burst, prior) else prior;
      SweepOut(prior, ats, k) == SweepOut(next, ats, k + 1) &&
      SweepPrinted(prior, ats, k) == (if Reached(ats[k]) then Printed(ats[k].burst, prior) else []) + SweepPrinted(next, ats, k + 1)
  {
    if !Reached(ats[k]) {
      assert [] + SweepPrinted(prior, ats, k + 1) == SweepPrinted(prior, ats, k + 1);
    }
  }

  class Driver {
    var fd: int
    /** The calls issued so far. */
    var calls: seq<Call>

    /** The constructor: init_i2c on the multiplexer's address; fd is -1 iff opening or addressing failed. */
    constructor (first: OpenReply)
      ensures fd == InitI2c(TCA9548A_ADDR, first).fd
      ensures fd != -1 <==> first.fd != -1 && first.addressed
      ensures calls == InitI2c(TCA9548A_ADDR, first).calls
    {
      var o := InitI2c(TCA9548A_ADDR, first);
      fd := o.fd;
      calls := o.calls;
    }

    /**
     * One sweep of get_data over channels 0..7. temp is what the
     * uninitialised temporaries hold at the start; the result is what they
     * end with and every value printed.
     */
    method GetData(ats: seq<Attempt>, temp: Reading) returns (t: Reading, printed: seq<Reading>)
      requires |ats| == 8
      modifies this`calls
      ensures calls == old(calls) + SweepFrom(fd, ats, 0)
      ensures t == SweepOut(temp, ats, 0) && printed == SweepPrinted(temp, ats, 0)
    {
      t, printed := temp, [];
      var k := 0;
      while k < 8
        invariant 0 <= k <= 8
        invariant calls + SweepFrom(fd, ats, k) == old(calls) + SweepFrom(fd, ats, 0)
        invariant SweepOut(t, ats, k) == SweepOut(temp, ats, 0)
        invariant printed + SweepPrinted(t, ats, k) == SweepPrinted(temp, ats, 0)
      {
        ghost var calls0, t0 := calls, t;
        SweepUnfold(fd, t0, ats, k);
        var p;
        t, p := Visit(k, ats[k], t);
        ConsAssoc(calls0, ChannelCalls(fd, k, ats[k]), SweepFrom(fd, ats, k + 1));
        ConsAssoc(printed, p, SweepPrinted(t, ats, k + 1));
        printed := printed + p;
        k := k + 1;
      }
      assert printed + [] == printed;
    }

    /** One channel of the sweep. */
    method Visit(ch: int, a: Attempt, temp: Reading) returns (t: Reading, printed: seq<Reading>)
      requires 0 <= ch < 8
      modifies this`calls
      ensures calls == old(calls) + ChannelCalls(fd, ch, a)
      ensures t == (if Reached(a) then RunOut(a.burst, temp) else temp)
      ensures printed == if Reached(a) then Printed(a.burst, temp) else []
    {
      t, printed := temp, [];
      if a.selectWritten != 1 {
        calls := calls + [SelectWrite(fd, ch)];
      } else if !a.maxAddressed {
        calls := calls + SelectThen(fd, ch, []);
      } else {
        var cs;
        t, printed, cs := ReadPrinting(fd, a.burst, temp);
        calls := calls + SelectThen(fd, ch, InitCalls(fd, LED_AMPLITUDE) + cs);
      }
    }
  }
}
