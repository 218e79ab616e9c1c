/**
 * The scan that finds sensors by probing them: select the channel with the
 * i2cset command, open the bus, address the sensor (0x57) and try a one-byte
 * read; a channel whose read does not fail is listed. i2cset.cpp does exactly
 * this (checkDeviceOnChannel and main); the constructor of Qt_new/max30102.cpp
 * does the same and also initialises each sensor it finds, through the
 * probing handle, before closing it. The frames written on a find are a
 * parameter: none for i2cset.cpp, the initialisation sequence for Qt_new.
 */
module ProbeScan {
  import opened Max30102
  import opened I2cBus
  import opened ChannelScan
  import ShellScan

  /** A probe's verdict and the calls it issued. */
  datatype Probe = Probe(found: bool, calls: seq<Call>)

  /** The select command succeeded, open gave a handle, the sensor's address was accepted and the read did not fail. */
  predicate Detected(r: ChannelReply)
  {
    r.shellSelect == 0 && r.reopen.fd >= 0 && r.reopen.addressed && r.probeRead >= 0
  }

  /** The channel's probe got a handle, which it must close again. */
  predicate Opened(r: ChannelReply) { r.shellSelect == 0 && r.reopen.fd >= 0 }

  function ProbeFlags(rs: seq<ChannelReply>): seq<bool>
  {
    seq(|rs|, i requires 0 <= i < |rs| => Detected(rs[i]))
  }

  function OpenedFlags(rs: seq<ChannelReply>): seq<bool>
  {
    seq(|rs|, i requires 0 <= i < |rs| => Opened(rs[i]))
  }

  /**
   * checkDeviceOnChannel(ch) and one pass of the Qt_new constructor loop: the
   * select command, then what follows it; the probe passes only on the path
   * where every step succeeded.
   */
  function Check(ch: int, r: ChannelReply, frames: seq<Frame>): Probe
    requires 0 <= ch < 8
  {
    Probe(Detected(r), [Shell(SelectCommand(ch))] + AfterSelect(r, frames))
  }

  /**
   * The calls after the select command: nothing when it failed; otherwise
   * open; on a handle set the sensor address, closing the handle when that
   * fails; otherwise the one-byte read, the frames when it succeeded, and the
   * close.
   */
  function AfterSelect(r: ChannelReply, frames: seq<Frame>): seq<Call>
  {
    var h := r.reopen.fd;
    if r.shellSelect != 0 then []
    else if h < 0 then [Open]
    else if !r.reopen.addressed then [Open, SetAddress(h, MAX30102_ADDR), Close(h)]
    else if r.probeRead >= 0 then [Open, SetAddress(h, MAX30102_ADDR), Read(h, 1)] + FrameCalls(h, frames) + [Close(h)]
    else [Open, SetAddress(h, MAX30102_ADDR), Read(h, 1), Close(h)]
  }

  /**
   * The probe passes exactly when all four steps succeed; it always starts
   * with the select command of ch, and reads the sensor exactly when it got a
   * handle whose address was accepted.
   */
  lemma CheckDecides(ch: int, r: ChannelReply, frames: seq<Frame>)
    requires 0 <= ch < 8
    ensures Check(ch, r, frames).found <==> r.shellSelect == 0 && r.reopen.fd >= 0 && r.reopen.addressed && r.probeRead >= 0
    ensures Check(ch, r, frames).calls[0] == Shell(SelectCommand(ch))
    ensures Read(r.reopen.fd, 1) in AfterSelect(r, frames) <==> Opened(r) && r.reopen.addressed
  {
    var h := r.reopen.fd;
    if Opened(r) && r.reopen.addressed {
      assert AfterSelect(r, frames)[2] == Read(h, 1);
    }
  }

  /** How many times a trace closes a handle. */
  function Closes(cs: seq<Call>): nat
  {
    if |cs| == 0 then 0 else (if cs[0].Close? then 1 else 0) + Closes(cs[1..])
  }

  lemma {:induction false} ClosesAppend(a: seq<Call>, b: seq<Call>)
    ensures Closes(a + b) == Closes(a) + Closes(b)
  {
    if |a| == 0 {
      assert a + b == b;
    } else {
      assert (a + b)[1..] == a[1..] + b;
      ClosesAppend(a[1..], b);
    }
  }

  lemma {:induction false} FrameCallsCloseNothing(fd: int, fs: seq<Frame>)
    ensures Closes(FrameCalls(fd, fs)) == 0
  {
    if |fs| > 0 {
      FrameCallsCloseNothing(fd, fs[1..]);
      assert FrameCalls(fd, fs)[1..] == FrameCalls(fd, fs[1..]);
    }
  }

  /** The calls around the frames of a passing probe. */
  lemma PassingObserved(h: int, frames: seq<Frame>)
    ensures Visited([Open, SetAddress(h, MAX30102_ADDR), Read(h, 1)] + FrameCalls(h, frames) + [Close(h)]) == []
    ensures AllFrames([Open, SetAddress(h, MAX30102_ADDR), Read(h, 1)] + FrameCalls(h, frames) + [Close(h)]) == frames
  {
    var head := [Open, SetAddress(h, MAX30102_ADDR), Read(h, 1)];
    var body := FrameCalls(h, frames);
    PlainObserved(head);
    PlainObserved([Close(h)]);
    FrameCallsObserved(h, frames);
    VisitedAppend(head + body, [Close(h)]);
    VisitedAppend(head, body);
    CountsAppend(head + body, [Close(h)]);
    CountsAppend(head, body);
  }

  /** Opens and Closes peel off one call. */
  lemma ConsCounts(c: Call, rest: seq<Call>)
    ensures Opens([c] + rest) == (if c == Open then 1 else 0) + Opens(rest)
    ensures Closes([c] + rest) == (if c.Close? then 1 else 0) + Closes(rest)
  {
    assert ([c] + rest)[1..] == rest;
  }

  /** A passing probe opens once and closes once. */
  lemma PassingBalanced(h: int, frames: seq<Frame>)
    ensures Opens([Open, SetAddress(h, MAX30102_ADDR), Read(h, 1)] + FrameCalls(h, frames) + [Close(h)]) == 1
    ensures Closes([Open, SetAddress(h, MAX30102_ADDR), Read(h, 1)] + FrameCalls(h, frames) + [Close(h)]) == 1
  {
    var sa := SetAddress(h, MAX30102_ADDR);
    var body := FrameCalls(h, frames);
    var rest := body + [Close(h)];
    FrameCallsObserved(h, frames);
    FrameCallsCloseNothing(h, frames);
    ConsCounts(Close(h), []);
    CountsAppend(body, [Close(h)]);
    ClosesAppend(body, [Close(h)]);
    ConsCounts(Read(h, 1), rest);
    ConsCounts(sa, [Read(h, 1)] + rest);
    ConsCounts(Open, [sa] + ([Read(h, 1)] + rest));
    Cons3(Open, sa, Read(h, 1), body, [Close(h)]);
  }

  lemma Cons3<T>(a: T, b: T, c: T, xs: seq<T>, ys: seq<T>)
    ensures [a, b, c] + xs + ys == [a] + ([b] + ([c] + (xs + ys)))
  {
  }

  /** Every handle the probe obtains is closed once, whichever step fails after the open. */
  lemma AfterSelectBalanced(r: ChannelReply, frames: seq<Frame>)
    requires r.shellSelect == 0
    ensures Opens(AfterSelect(r, frames)) == 1
    ensures Closes(AfterSelect(r, frames)) == (if r.reopen.fd >= 0 then 1 else 0)
  {
    var h := r.reopen.fd;
    var sa := SetAddress(h, MAX30102_ADDR);
    if h < 0 {
      ConsCounts(Open, []);
    } else if !r.reopen.addressed {
      ConsCounts(Close(h), []);
      ConsCounts(sa, [Close(h)]);
      ConsCounts(Open, [sa, Close(h)]);
    } else if r.probeRead >= 0 {
      PassingBalanced(h, frames);
    } else {
      ConsCounts(Close(h), []);
      ConsCounts(Read(h, 1), [Close(h)]);
      ConsCounts(sa, [Read(h, 1), Close(h)]);
      ConsCounts(Open, [sa, Read(h, 1), Close(h)]);
    }
  }

  /**
   * A probe opens the bus once when the select command succeeded, and closes
   * exactly the handles it got: once, as its last call, when open succeeded;
   * never when it did not.
   */
  lemma CheckBalanced(ch: int, r: ChannelReply, frames: seq<Frame>)
    requires 0 <= ch < 8
    ensures Opens(Check(ch, r, frames).calls) == (if r.shellSelect == 0 then 1 else 0)
    ensures Closes(Check(ch, r, frames).calls) == (if Opened(r) then 1 else 0)
    ensures Opened(r) ==> Check(ch, r, frames).calls[|Check(ch, r, frames).calls| - 1] == Close(r.reopen.fd)
  {
    var sel := [Shell(SelectCommand(ch))];
    var tail := AfterSelect(r, frames);
    ConsCounts(sel[0], tail);
    if r.shellSelect == 0 {
      AfterSelectBalanced(r, frames);
    }
  }

  /** A probe selects ch and nothing else, and writes the frames exactly when it passes. */
  lemma CheckObserved(ch: int, r: ChannelReply, frames: seq<Frame>)
    requires 0 <= ch < 8
    ensures Visited(Check(ch, r, frames).calls) == [ch]
    ensures AllFrames(Check(ch, r, frames).calls) == if Detected(r) then frames else []
  {
    var sel := [Shell(SelectCommand(ch))];
    var tail := AfterSelect(r, frames);
    SelectCommandSelects(ch);
    VisitedAppend(sel, tail);
    CountsAppend(sel, tail);
    if Detected(r) {
      PassingObserved(r.reopen.fd, frames);
    } else {
      PlainObserved(tail);
    }
  }

  /** The calls of the probes of channels from..7. */
  function ScanCalls(rs: seq<ChannelReply>, from: nat, frames: seq<Frame>): seq<Call>
    requires |rs| == 8 && from <= 8
    decreases 8 - from
  {
    if from == 8 then [] else Check(from, rs[from], frames).calls + ScanCalls(rs, from + 1, frames)
  }

  /**
   * main of i2cset.cpp and the scan loop of the Qt_new constructor: probe
   * channels 0..7 in turn and list those whose probe passes.
   */
  method Collect(table: ChannelTable, rs: seq<ChannelReply>, frames: seq<Frame>) returns (cs: seq<Call>)
    requires |rs| == 8 && table.Valid() && table.count == 0
    modifies table, table.slots
    ensures table.Valid() && table.Contents() == Accepted(ProbeFlags(rs))
    ensures cs == ScanCalls(rs, 0, frames)
  {
    cs := [];
    var ch := 0;
    while ch < 8
      invariant 0 <= ch <= 8
      invariant table.Valid() && table.Contents() == Accepted(ProbeFlags(rs)[..ch]) && table.count <= ch
      invariant cs + ScanCalls(rs, ch, frames) == ScanCalls(rs, 0, frames)
    {
      var step := Visit(table, ch, rs[ch], frames);
      ConsAssoc(cs, step, ScanCalls(rs, ch + 1, frames));
      cs := cs + step;
      AcceptedSnoc(ProbeFlags(rs), ch);
      ch := ch + 1;
    }
    assert ProbeFlags(rs)[..8] == ProbeFlags(rs);
  }

  /** One iteration of the scan: probe channel ch and list it when the probe passes. */
  method Visit(table: ChannelTable, ch: int, r: ChannelReply, frames: seq<Frame>) returns (step: seq<Call>)
    requires 0 <= ch < 8 && table.Valid() && table.count <= ch
    modifies table, table.slots
    ensures table.Valid() && table.Contents() == old(table.Contents()) + (if Detected(r) then [ch] else [])
    ensures table.count <= ch + 1
    ensures step == Check(ch, r, frames).calls
  {
    var p := Check(ch, r, frames);
    CheckDecides(ch, r, frames);
    if p.found {
      table.Append(ch);
    }
    step := p.calls;
  }

  /** Every channel 0..7 is selected once, in ascending order, whatever its probe finds. */
  lemma {:induction false} ScanVisits(rs: seq<ChannelReply>, from: nat, frames: seq<Frame>)
    requires |rs| == 8 && from <= 8
    ensures Visited(ScanCalls(rs, from, frames)) == Channels(from, 8)
    decreases 8 - from
  {
    if from < 8 {
      ScanVisits(rs, from + 1, frames);
      VisitedAppend(Check(from, rs[from], frames).calls, ScanCalls(rs, from + 1, frames));
      CheckObserved(from, rs[from], frames);
    }
  }

  /** The frames are written once per listed channel. */
  lemma {:induction false} ScanFrames(rs: seq<ChannelReply>, from: nat, frames: seq<Frame>)
    requires |rs| == 8 && from <= 8
    ensures AllFrames(ScanCalls(rs, from, frames)) == Repeat(frames, CountTrue(ProbeFlags(rs)[from..]))
    decreases 8 - from
  {
    if from < 8 {
      var p := Check(from, rs[from], frames);
      ScanFrames(rs, from + 1, frames);
      CountsAppend(p.calls, ScanCalls(rs, from + 1, frames));
      CheckObserved(from, rs[from], frames);
      var flags := ProbeFlags(rs)[from..];
      assert flags[1..] == ProbeFlags(rs)[from + 1..];
      RepeatCons([], frames, AllFrames(p.calls), CountTrue(flags[1..]), Detected(rs[from]));
      assert [] + AllFrames(p.calls) == AllFrames(p.calls);
    }
  }

  /** Over the scan, the bus is opened once per successful select command and closed once per handle obtained. */
  lemma {:induction false} ScanBalanced(rs: seq<ChannelReply>, from: nat, frames: seq<Frame>)
    requires |rs| == 8 && from <= 8
    ensures Opens(ScanCalls(rs, from, frames)) == CountTrue(ShellScan.SelectOkFlags(rs)[from..])
    ensures Closes(ScanCalls(rs, from, frames)) == CountTrue(OpenedFlags(rs)[from..])
    decreases 8 - from
  {
    if from < 8 {
      var p := Check(from, rs[from], frames);
      ScanBalanced(rs, from + 1, frames);
      CountsAppend(p.calls, ScanCalls(rs, from + 1, frames));
      ClosesAppend(p.calls, ScanCalls(rs, from + 1, frames));
      CheckBalanced(from, rs[from], frames);
      var ok := ShellScan.SelectOkFlags(rs)[from..];
      assert ok[1..] == ShellScan.SelectOkFlags(rs)[from + 1..];
      var op := OpenedFlags(rs)[from..];
      assert op[1..] == OpenedFlags(rs)[from + 1..];
    }
  }

  /** The list ascends, holds only passing channels, every passing channel, and at most eight. */
  lemma ListedExactly(rs: seq<ChannelReply>)
    requires |rs| == 8
    ensures forall i :: 0 <= i < |Accepted(ProbeFlags(rs))| ==>
      0 <= Accepted(ProbeFlags(rs))[i] < 8 && Detected(rs[Accepted(ProbeFlags(rs))[i]])
    ensures forall c :: 0 <= c < 8 && Detected(rs[c]) ==> c in Accepted(ProbeFlags(rs))
    ensures |Accepted(ProbeFlags(rs))| == CountTrue(ProbeFlags(rs)) <= 8
  {
    AcceptedExactly(ProbeFlags(rs));
    AcceptedLength(ProbeFlags(rs));
  }
}
