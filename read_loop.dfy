/**
 * The read loops of the drivers: n successive read_fifo calls on one handle
 * into the same two temporaries, each followed (in most variants) by a copy of
 * the temporaries into the caller's outputs.
 */
module ReadLoop {
  import opened Wrappers
  import opened Max30102
  import opened I2cBus
  import opened ChannelScan

  /** A run of reads over a + b is the run over a followed by the run over b, started from what a left. */
  lemma {:induction false} ReadRunAppend(fd: int, a: seq<FifoReply>, b: seq<FifoReply>, prior: Reading)
    ensures ReadRun(fd, a + b, prior).out == ReadRun(fd, b, ReadRun(fd, a, prior).out).out
    ensures ReadRun(fd, a + b, prior).calls == ReadRun(fd, a, prior).calls + ReadRun(fd, b, ReadRun(fd, a, prior).out).calls
    decreases |a|
  {
    if |a| == 0 {
      assert a + b == b;
    } else {
      var f := ReadFifo(fd, a[0], prior);
      assert (a + b)[0] == a[0] && (a + b)[1..] == a[1..] + b;
      ReadRunAppend(fd, a[1..], b, f.out);
    }
  }

  /** One more read at the end of a run. */
  lemma ReadRunSnoc(fd: int, rs: seq<FifoReply>, prior: Reading, j: nat)
    requires j < |rs|
    ensures ReadRun(fd, rs[..j + 1], prior).out == ReadFifo(fd, rs[j], ReadRun(fd, rs[..j], prior).out).out
    ensures ReadRun(fd, rs[..j + 1], prior).calls
         == ReadRun(fd, rs[..j], prior).calls + ReadFifo(fd, rs[j], ReadRun(fd, rs[..j], prior).out).calls
  {
    assert rs[..j + 1] == rs[..j] + [rs[j]];
    ReadRunAppend(fd, rs[..j], [rs[j]], prior);
    var g := ReadRun(fd, rs[..j], prior);
    var f := ReadFifo(fd, rs[j], g.out);
    assert ReadRun(fd, [rs[j]], g.out) == Fetched(f.out, f.calls + []);
    assert f.calls + [] == f.calls;
  }

  /**
   * for (j = 0; j < n; j++) { read_fifo(&red_temp, &ir_temp); *red = red_temp; *ir = ir_temp; }
   * with n = |rs|: the temporaries end as the run of reads leaves them, the
   * outputs are copied from them after every attempt, so they end equal to
   * the temporaries unless no attempt was made.
   */
  method Burst(fd: int, rs: seq<FifoReply>, temp: Reading, out: Reading) returns (t: Reading, o: Reading, cs: seq<Call>)
    ensures t == ReadRun(fd, rs, temp).out && cs == ReadRun(fd, rs, temp).calls
    ensures o == if |rs| == 0 then out else t
  {
    t, o, cs := temp, out, [];
    var j := 0;
    while j < |rs|
      invariant 0 <= j <= |rs|
      invariant t == ReadRun(fd, rs[..j], temp).out && cs == ReadRun(fd, rs[..j], temp).calls
      invariant o == if j == 0 then out else t
    {
      ReadRunSnoc(fd, rs, temp, j);
      var f := ReadFifo(fd, rs[j], t);
      t := f.out;
      cs := cs + f.calls;
      o := t;
      j := j + 1;
    }
    assert rs[..|rs|] == rs;
  }

  /** The call read_fifo starts with: pointing the sensor at its FIFO data register. */
  predicate IsRequest(c: Call)
  {
    c.Write? && c.bytes == [REG_FIFO_DATA]
  }

  /** How many read attempts a trace makes. */
  function Requests(cs: seq<Call>): nat
  {
    if |cs| == 0 then 0 else (if IsRequest(cs[0]) then 1 else 0) + Requests(cs[1..])
  }

  lemma {:induction false} RequestsAppend(a: seq<Call>, b: seq<Call>)
    ensures Requests(a + b) == Requests(a) + Requests(b)
  {
    if |a| == 0 {
      assert a + b == b;
    } else {
      assert (a + b)[1..] == a[1..] + b;
      RequestsAppend(a[1..], b);
    }
  }

  /** A run of n reads makes exactly n read attempts. */
  lemma {:induction false} ReadRunRequests(fd: int, rs: seq<FifoReply>, prior: Reading)
    ensures Requests(ReadRun(fd, rs, prior).calls) == |rs|
    decreases |rs|
  {
    if |rs| > 0 {
      var f := ReadFifo(fd, rs[0], prior);
      ReadRunRequests(fd, rs[1..], f.out);
      RequestsAppend(f.calls, ReadRun(fd, rs[1..], f.out).calls);
      if rs[0].written == 1 {
        assert f.calls == [Write(fd, [REG_FIFO_DATA])] + [Read(fd, 6)];
        RequestsAppend([Write(fd, [REG_FIFO_DATA])], [Read(fd, 6)]);
      }
    }
  }

  /** Calls that are not read attempts. */
  lemma {:induction false} NoRequests(cs: seq<Call>)
    requires forall i :: 0 <= i < |cs| ==> !IsRequest(cs[i])
    ensures Requests(cs) == 0
  {
    if |cs| > 0 {
      NoRequests(cs[1..]);
    }
  }

  /** Neither a select byte nor a register frame is a read attempt. */
  lemma SelectNotRequest(fd: int, ch: int)
    requires 0 <= ch < 8
    ensures !IsRequest(SelectWrite(fd, ch))
  {
    SelectMaskChannel(ch);
    assert MaskChannel(REG_FIFO_DATA) == None;
  }

  lemma {:induction false} FramesNotRequests(fd: int, fs: seq<Frame>)
    ensures Requests(FrameCalls(fd, fs)) == 0
  {
    if |fs| > 0 {
      FramesNotRequests(fd, fs[1..]);
      assert FrameCalls(fd, fs)[1..] == FrameCalls(fd, fs[1..]);
    }
  }

  /** A channel's select byte and the sensor's address on handle fd, ahead of tail. */
  function SelectThen(fd: int, ch: int, tail: seq<Call>): seq<Call>
    requires 0 <= ch < 8
  {
    [SelectWrite(fd, ch)] + ([SetAddress(fd, MAX30102_ADDR)] + tail)
  }

  /** Selecting and addressing adds the channel to the visits and no read attempt. */
  lemma SelectThenObserved(fd: int, ch: int, tail: seq<Call>)
    requires 0 <= ch < 8
    ensures Visited(SelectThen(fd, ch, tail)) == [ch] + Visited(tail)
    ensures Requests(SelectThen(fd, ch, tail)) == Requests(tail)
    ensures AllFrames(SelectThen(fd, ch, tail)) == AllFrames(tail)
    ensures Opens(SelectThen(fd, ch, tail)) == Opens(tail)
  {
    var t1 := [SetAddress(fd, MAX30102_ADDR)] + tail;
    SelectWriteSelects(fd, ch);
    SelectNotRequest(fd, ch);
    ObserveCons(SelectWrite(fd, ch), t1);
    ObserveCons(SetAddress(fd, MAX30102_ADDR), tail);
    RequestsCons(SelectWrite(fd, ch), t1);
    RequestsCons(SetAddress(fd, MAX30102_ADDR), tail);
    assert FrameOf(SelectWrite(fd, ch)) == [];
  }

  /** A run of reads issues only writes and reads. */
  lemma {:induction false} RunCallsOnlyTransfers(fd: int, rs: seq<FifoReply>)
    ensures forall i :: 0 <= i < |RunCalls(fd, rs)| ==> RunCalls(fd, rs)[i].Write? || RunCalls(fd, rs)[i].Read?
    decreases |rs|
  {
    if |rs| > 0 {
      RunCallsOnlyTransfers(fd, rs[1..]);
      var a, b := FifoCalls(fd, rs[0]), RunCalls(fd, rs[1..]);
      assert forall i :: |a| <= i < |a + b| ==> (a + b)[i] == b[i - |a|];
    }
  }

  /** No call of cs sets a slave address. */
  predicate SetsNoAddress(cs: seq<Call>)
  {
    forall i :: 0 <= i < |cs| ==> !cs[i].SetAddress?
  }

  /** After selecting and addressing, fd stays pointed at the sensor while nothing else sets an address. */
  lemma SelectThenTargetsSensor(h: seq<Call>, fd: int, ch: int, tail: seq<Call>)
    requires 0 <= ch < 8 && SetsNoAddress(tail)
    ensures LastTarget(h + SelectThen(fd, ch, tail), fd) == Some(MAX30102_ADDR)
  {
    var pre := h + [SelectWrite(fd, ch), SetAddress(fd, MAX30102_ADDR)];
    assert pre[|pre| - 1] == SetAddress(fd, MAX30102_ADDR);
    assert LastTarget(pre, fd) == Some(MAX30102_ADDR);
    NoAddressSet(pre, tail, fd);
    assert h + SelectThen(fd, ch, tail) == pre + tail;
  }

  /** The twelve init writes followed by a run of reads set no address. */
  lemma InitRunSetsNoAddress(fd: int, led: bv8, rs: seq<FifoReply>)
    ensures SetsNoAddress(InitCalls(fd, led) + RunCalls(fd, rs))
  {
    FrameCallsAreWrites(fd, InitFrames(led));
    RunCallsObserved(fd, rs);
    var a, b := InitCalls(fd, led), RunCalls(fd, rs);
    assert forall i :: |a| <= i < |a + b| ==> (a + b)[i] == b[i - |a|];
  }

  lemma RequestsCons(c: Call, t: seq<Call>)
    ensures Requests([c] + t) == (if IsRequest(c) then 1 else 0) + Requests(t)
  {
    assert ([c] + t)[0] == c && ([c] + t)[1..] == t;
  }

  /** What the bus answered while a get_data pass visited one channel. */
  datatype Attempt = Attempt(
    selectWritten: int,       // bytes moved by the select write
    reopen: OpenReply,        // the handle opened after a failed select, in the variants that reopen
    maxAddressed: bool,       // ioctl(fd, I2C_SLAVE, 0x57)
    burst: seq<FifoReply>)    // the replies to the channel's reads

  /** The channel's reads are made: its select byte went out and the sensor's address was accepted. */
  predicate Reached(a: Attempt) { a.selectWritten == 1 && a.maxAddressed }

  function ReachedFlags(ats: seq<Attempt>): seq<bool>
  {
    seq(|ats|, i requires 0 <= i < |ats| => Reached(ats[i]))
  }

  function FailedFlags(ats: seq<Attempt>): seq<bool>
  {
    seq(|ats|, i requires 0 <= i < |ats| => ats[i].selectWritten != 1)
  }

  /** Some channel before position k is reached. */
  predicate AnyReached(ats: seq<Attempt>, k: nat)
    requires k <= |ats|
  {
    k > 0 && (Reached(ats[k - 1]) || AnyReached(ats, k - 1))
  }

  lemma {:induction false} AnyReachedExists(ats: seq<Attempt>, k: nat)
    requires k <= |ats|
    ensures AnyReached(ats, k) <==> exists j :: 0 <= j < k && Reached(ats[j])
  {
    if k > 0 {
      AnyReachedExists(ats, k - 1);
    }
  }

  /** Every attempt carries a reply for each of the n reads. */
  predicate FullAttempts(ats: seq<Attempt>, n: nat)
  {
    forall i :: 0 <= i < |ats| ==> |ats[i].burst| == n
  }

  /** Calls that set no address leave every handle's target as it was. */
  lemma {:induction false} NoAddressSet(h: seq<Call>, cs: seq<Call>, fd: int)
    requires forall i :: 0 <= i < |cs| ==> !cs[i].SetAddress?
    ensures LastTarget(h + cs, fd) == LastTarget(h, fd)
  {
    if |cs| > 0 {
      assert (h + cs)[..|h + cs| - 1] == h + cs[..|cs| - 1];
      NoAddressSet(h, cs[..|cs| - 1], fd);
    } else {
      assert h + cs == h;
    }
  }

  /** A run of reads only writes and reads. */
  lemma {:induction false} ReadRunSetsNoAddress(fd: int, rs: seq<FifoReply>, prior: Reading)
    ensures forall i :: 0 <= i < |ReadRun(fd, rs, prior).calls| ==> !ReadRun(fd, rs, prior).calls[i].SetAddress?
    decreases |rs|
  {
    if |rs| > 0 {
      var f := ReadFifo(fd, rs[0], prior);
      ReadRunSetsNoAddress(fd, rs[1..], f.out);
      var g := ReadRun(fd, rs[1..], f.out);
      assert forall i :: 0 <= i < |f.calls| ==> !f.calls[i].SetAddress?;
      assert forall i :: |f.calls| <= i < |f.calls + g.calls| ==> (f.calls + g.calls)[i] == g.calls[i - |f.calls|];
    }
  }

  // The run of reads split into its values and its calls

  /** The temporaries after a run of reads: the decode of the last read that succeeded, or prior. */
  function RunOut(rs: seq<FifoReply>, prior: Reading): Reading
    decreases |rs|
  {
    if |rs| == 0 then prior else RunOut(rs[1..], if FifoOk(rs[0]) then DecodeRecord(rs[0].data) else prior)
  }

  /** The calls of one read_fifo, which depend only on what the write moved. */
  function FifoCalls(fd: int, r: FifoReply): seq<Call>
  {
    if r.written != 1 then [Write(fd, [REG_FIFO_DATA])] else [Write(fd, [REG_FIFO_DATA]), Read(fd, 6)]
  }

  function RunCalls(fd: int, rs: seq<FifoReply>): seq<Call>
    decreases |rs|
  {
    if |rs| == 0 then [] else FifoCalls(fd, rs[0]) + RunCalls(fd, rs[1..])
  }

  /** The run computes its values and its calls independently, and the calls do not depend on what the temporaries held. */
  lemma {:induction false} ReadRunSplit(fd: int, rs: seq<FifoReply>, prior: Reading)
    ensures ReadRun(fd, rs, prior).out == RunOut(rs, prior)
    ensures ReadRun(fd, rs, prior).calls == RunCalls(fd, rs)
    decreases |rs|
  {
    if |rs| > 0 {
      var f := ReadFifo(fd, rs[0], prior);
      ReadRunSplit(fd, rs[1..], f.out);
    }
  }

  /** A run of n reads makes n read attempts and nothing else the traces observe. */
  lemma RunCallsObserved(fd: int, rs: seq<FifoReply>)
    ensures Visited(RunCalls(fd, rs)) == [] && AllFrames(RunCalls(fd, rs)) == [] && Opens(RunCalls(fd, rs)) == 0
    ensures Requests(RunCalls(fd, rs)) == |rs|
    ensures forall i :: 0 <= i < |RunCalls(fd, rs)| ==> !RunCalls(fd, rs)[i].SetAddress?
  {
    var z := Reading(0, 0);
    ReadRunSplit(fd, rs, z);
    ReadRunCalls(fd, rs, z);
    ReadRunRequests(fd, rs, z);
    ReadRunSetsNoAddress(fd, rs, z);
  }

  // Runs of reads whose temporaries are printed after every read

  /** The temporaries after one read_fifo: the decode when the read worked, what they held otherwise. */
  function After(r: FifoReply, prior: Reading): Reading
  {
    if FifoOk(r) then DecodeRecord(r.data) else prior
  }

  /** The values printed by a run of reads: the temporaries after each read, in turn. */
  function Printed(rs: seq<FifoReply>, prior: Reading): seq<Reading>
    decreases |rs|
  {
    if |rs| == 0 then [] else [After(rs[0], prior)] + Printed(rs[1..], After(rs[0], prior))
  }

  /**
   * Every printed line is the decode of its own read when that read worked,
   * and otherwise repeats the line before it (or what the temporaries held
   * before the first read).
   */
  lemma {:induction false} PrintedAt(rs: seq<FifoReply>, prior: Reading, j: nat)
    requires j < |rs|
    ensures |Printed(rs, prior)| == |rs|
    ensures Printed(rs, prior)[j] ==
      if FifoOk(rs[j]) then DecodeRecord(rs[j].data)
      else if j == 0 then prior
      else Printed(rs, prior)[j - 1]
    decreases |rs|
  {
    var v := After(rs[0], prior);
    PrintedLength(rs[1..], v);
    if j > 0 {
      assert rs[1..][j - 1] == rs[j];
      if j > 1 {
        PrintedAt(rs[1..], v, j - 1);
      } else if |rs[1..]| > 0 {
        PrintedAt(rs[1..], v, 0);
      }
    }
  }

  lemma {:induction false} PrintedLength(rs: seq<FifoReply>, prior: Reading)
    ensures |Printed(rs, prior)| == |rs|
    decreases |rs|
  {
    if |rs| > 0 {
      PrintedLength(rs[1..], After(rs[0], prior));
    }
  }

  /** The last line printed is what the temporaries end with. */
  lemma {:induction false} PrintedLast(rs: seq<FifoReply>, prior: Reading)
    requires |rs| > 0
    ensures |Printed(rs, prior)| == |rs| && Printed(rs, prior)[|rs| - 1] == RunOut(rs, prior)
    decreases |rs|
  {
    var v := After(rs[0], prior);
    PrintedLength(rs, prior);
    if |rs| > 1 {
      PrintedLast(rs[1..], v);
    }
  }

  /** A run of reads with the temporaries printed after each: for (j = 0; j < n; j++) { read_fifo(&red_temp, &ir_temp); printf(...red_temp, ir_temp) } with n = |rs|. */
  method ReadPrinting(fd: int, rs: seq<FifoReply>, temp: Reading) returns (t: Reading, printed: seq<Reading>, cs: seq<Call>)
    ensures t == RunOut(rs, temp) && printed == Printed(rs, temp) && cs == RunCalls(fd, rs)
  {
    t, printed, cs := temp, [], [];
    var j := 0;
    while j < |rs|
      invariant 0 <= j <= |rs|
      invariant RunOut(rs[j..], t) == RunOut(rs, temp)
      invariant printed + Printed(rs[j..], t) == Printed(rs, temp)
      invariant cs + RunCalls(fd, rs[j..]) == RunCalls(fd, rs)
    {
      var f := ReadFifo(fd, rs[j], t);
      assert rs[j..][1..] == rs[j + 1..];
      ConsAssoc(printed, [f.out], Printed(rs[j + 1..], f.out));
      ConsAssoc(cs, f.calls, RunCalls(fd, rs[j + 1..]));
      t := f.out;
      printed := printed + [t];
      cs := cs + f.calls;
      j := j + 1;
    }
    assert printed + [] == printed && cs + [] == cs;
  }
}
