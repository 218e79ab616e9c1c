/**
 * The Linux I2C character device as the drivers see it. Nothing here talks to
 * hardware: a driver's behaviour is a function of what the bus answered (the
 * replies below) and is observed through the calls it issued (a trace of Call
 * values). Select bytes for the TCA9548A multiplexer, the i2cset/i2cdetect
 * shell commands, register-write frames on the wire and the FIFO burst read
 * are defined once here and shared by every driver variant.
 */
module I2cBus {
  import opened Wrappers
  import opened Text
  import opened Max30102

  /** A system call or shell command a driver issues, with the arguments that matter. */
  datatype Call =
    | Open                            // open(device, O_RDWR)
    | Close(fd: int)
    | SetAddress(fd: int, addr: int)  // ioctl(fd, I2C_SLAVE, addr)
    | Write(fd: int, bytes: seq<bv8>)
    | Read(fd: int, count: nat)
    | Shell(command: Command)         // system(CommandText(command))

  /**
   * The two shell commands the drivers run: i2cset writing a select value into
   * the multiplexer's control register, and i2cdetect piped into grep. The
   * trace records which command ran; CommandText gives its exact text.
   */
  datatype Command = SelectChannel(mask: int) | DetectSensor

  /** What open returned, and whether the ioctl that sets the slave address right after it succeeded. */
  datatype OpenReply = OpenReply(fd: int, addressed: bool)

  /** What the bus answered while a driver visited one multiplexer channel; each variant consults the fields its code looks at. */
  datatype ChannelReply = ChannelReply(
    shellSelect: int,   // exit status of the i2cset command that selects the channel
    shellDetect: int,   // exit status of the i2cdetect | grep command
    selectWritten: int, // bytes moved by write(fd, &mask, 1)
    reopen: OpenReply,  // the handle opened on this channel (a reopen after a failed select, or a per-channel open)
    maxAddressed: bool, // ioctl(fd, I2C_SLAVE, 0x57) on the handle in use succeeded
    probeRead: int)     // result of the one-byte probe read(fd, &buf, 1)

  // Channel selection

  /** The int 1 << ch that the drivers compute for channel ch. */
  function Shl1(ch: nat): (m: int)
    ensures m >= 1
    ensures ch < 8 ==> m == [0x01, 0x02, 0x04, 0x08, 0x10, 0x20, 0x40, 0x80][ch]
  {
    if ch == 0 then 1 else 2 * Shl1(ch - 1)
  }

  /** The TCA9548A control byte that connects channel ch and no other: the low byte of 1 << ch. */
  function SelectMask(ch: int): bv8
    requires 0 <= ch < 8
  {
    (1 as bv8) << ch
  }

  /** The select byte has exactly one bit set, and as a number it is 1 << ch. */
  lemma SelectMaskOneBit(ch: int)
    requires 0 <= ch < 8
    ensures SelectMask(ch) != 0 && SelectMask(ch) & (SelectMask(ch) - 1) == 0
    ensures SelectMask(ch) as int == Shl1(ch) && 1 <= Shl1(ch) <= 0x80
  {
  }

  /** The channel a control byte connects, when it connects exactly one. */
  function MaskChannel(m: bv8): Option<int>
  {
    if m == 0x01 then Some(0) else if m == 0x02 then Some(1) else if m == 0x04 then Some(2)
    else if m == 0x08 then Some(3) else if m == 0x10 then Some(4) else if m == 0x20 then Some(5)
    else if m == 0x40 then Some(6) else if m == 0x80 then Some(7) else None
  }

  /** The same on the control byte's numeric value, as i2cset receives it. */
  function ValueChannel(m: int): Option<int>
  {
    if m == 0x01 then Some(0) else if m == 0x02 then Some(1) else if m == 0x04 then Some(2)
    else if m == 0x08 then Some(3) else if m == 0x10 then Some(4) else if m == 0x20 then Some(5)
    else if m == 0x40 then Some(6) else if m == 0x80 then Some(7) else None
  }

  /** The select byte of channel ch connects channel ch, and only the eight select bytes connect a single channel. */
  lemma SelectMaskChannel(ch: int)
    requires 0 <= ch < 8
    ensures MaskChannel(SelectMask(ch)) == Some(ch)
    ensures ValueChannel(Shl1(ch)) == Some(ch)
  {
    if ch == 0 { assert SelectMask(ch) == 0x01; }
    else if ch == 1 { assert SelectMask(ch) == 0x02; }
    else if ch == 2 { assert SelectMask(ch) == 0x04; }
    else if ch == 3 { assert SelectMask(ch) == 0x08; }
    else if ch == 4 { assert SelectMask(ch) == 0x10; }
    else if ch == 5 { assert SelectMask(ch) == 0x20; }
    else if ch == 6 { assert SelectMask(ch) == 0x40; }
    else { assert SelectMask(ch) == 0x80; }
  }

  lemma MaskChannelSelect(m: bv8)
    requires MaskChannel(m).Some?
    ensures 0 <= MaskChannel(m).value < 8 && SelectMask(MaskChannel(m).value) == m
  {
  }

  lemma SelectMaskInjective(a: int, b: int)
    requires 0 <= a < 8 && 0 <= b < 8 && a != b
    ensures SelectMask(a) != SelectMask(b) && Shl1(a) != Shl1(b)
  {
    SelectMaskChannel(a);
    SelectMaskChannel(b);
  }

  /**
   * The byte write(fd, &use, 1) puts on the bus when use is the int 1 << ch:
   * the low byte of the int on the little-endian target, which is SelectMask(ch).
   */
  function SelectWrite(fd: int, ch: int): Call
    requires 0 <= ch < 8
  {
    Write(fd, [SelectMask(ch)])
  }

  /** The uint8_t a handle is narrowed to when passed to writeRegister(uint8_t fd, ...). */
  function NarrowFd(fd: int): (n: int)
    ensures 0 <= n < 256
    ensures 0 <= fd < 256 ==> n == fd
    ensures fd == -1 ==> n == 255
  {
    fd % 256
  }

  // Shell commands

  function HexDigit(n: int): (c: char)
    requires 0 <= n < 16
  {
    if n < 10 then ('0' as int + n) as char else ('a' as int + n - 10) as char
  }

  function HexValue(c: char): Option<int>
  {
    if '0' <= c <= '9' then Some(c as int - '0' as int)
    else if 'a' <= c <= 'f' then Some(c as int - 'a' as int + 10)
    else None
  }

  /** printf's %02x of a byte. */
  function Hex2(n: int): (s: string)
    requires 0 <= n < 256
    ensures |s| == 2
  {
    [HexDigit(n / 16), HexDigit(n % 16)]
  }

  /** The value of two hex digits. */
  function ParseHex2(s: string): Option<int>
  {
    if |s| != 2 then None
    else match (HexValue(s[0]), HexValue(s[1]))
      case (Some(h), Some(l)) => Some(16 * h + l)
      case _ => None
  }

  lemma HexDigitValue(n: int)
    requires 0 <= n < 16
    ensures HexValue(HexDigit(n)) == Some(n)
  {
  }

  /** A byte printed with %02x reads back as itself. */
  lemma Hex2RoundTrip(n: int)
    requires 0 <= n < 256
    ensures ParseHex2(Hex2(n)) == Some(n)
  {
    HexDigitValue(n / 16);
    HexDigitValue(n % 16);
  }

  const SELECT_PREFIX: string := "i2cset -y 4 0x70 0x00 0x"

  /** Succeeds iff i2cdetect's table for bus 4 contains "57" (the sensor answered). */
  const DETECT_TEXT: string := "i2cdetect -y 4 | grep -q '57'"

  /** A select value printable with %02x. */
  predicate Printable(c: Command) { c.SelectChannel? ==> 0 <= c.mask < 256 }

  /** The text handed to system(). */
  function CommandText(c: Command): string
    requires Printable(c)
  {
    match c
      case SelectChannel(m) => SELECT_PREFIX + Hex2(m)
      case DetectSensor => DETECT_TEXT
  }

  /** The i2cset command of channel ch writes 1 << ch into control register 0 of the TCA9548A on bus 4. */
  function SelectCommand(ch: int): Command
    requires 0 <= ch < 8
  {
    SelectChannel(Shl1(ch))
  }

  const DETECT_COMMAND: Command := DetectSensor

  /** The command is the source's "i2cset -y 4 0x%02x 0x00 0x%02x" filled with the multiplexer address and 1 << ch. */
  lemma SelectCommandFormat(ch: int)
    requires 0 <= ch < 8
    ensures Printable(SelectCommand(ch)) && 1 <= Shl1(ch) <= 0x80
    ensures CommandText(SelectCommand(ch)) == "i2cset -y 4 0x" + Hex2(TCA9548A_ADDR) + " 0x00 0x" + Hex2(Shl1(ch))
  {
    assert Hex2(TCA9548A_ADDR) == ['7', '0'];
  }

  /** A select command's text ends in its value, which reads back. */
  lemma SelectTextMask(m: int)
    requires 0 <= m < 256
    ensures ParseHex2(CommandText(SelectChannel(m))[|SELECT_PREFIX|..]) == Some(m)
  {
    assert CommandText(SelectChannel(m))[|SELECT_PREFIX|..] == Hex2(m);
    Hex2RoundTrip(m);
  }

  /** Reading a command's text back gives the channel the trace records it as selecting. */
  lemma CommandTextSelects(c: Command)
    requires Printable(c)
    ensures SelectCommandChannel(CommandText(c)) == SelectedBy(Shell(c))
  {
    if c.SelectChannel? {
      SelectTextMask(c.mask);
      assert CommandText(c)[..|SELECT_PREFIX|] == SELECT_PREFIX;
    } else {
      assert CommandText(c)[..|SELECT_PREFIX|][3] == 'd' != SELECT_PREFIX[3];
    }
  }

  /** Distinct commands have distinct texts. */
  lemma CommandTextInjective(a: Command, b: Command)
    requires Printable(a) && Printable(b) && a != b
    ensures CommandText(a) != CommandText(b)
  {
    if a.SelectChannel? && b.SelectChannel? {
      SelectTextMask(a.mask);
      SelectTextMask(b.mask);
    } else if a.SelectChannel? || b.SelectChannel? {
      var t := if a.SelectChannel? then CommandText(a) else CommandText(b);
      assert t[3] == 's';
      assert DETECT_TEXT[3] == 'd';
    }
  }

  lemma SelectCommandInjective(a: int, b: int)
    requires 0 <= a < 8 && 0 <= b < 8 && a != b
    ensures SelectCommand(a) != SelectCommand(b)
    ensures CommandText(SelectCommand(a)) != CommandText(SelectCommand(b))
  {
    SelectMaskInjective(a, b);
    CommandTextInjective(SelectCommand(a), SelectCommand(b));
  }

  // Register writes and the initialisation sequence on the wire

  /** One write(fd, {reg, value}, 2) per frame, in order. */
  function FrameCalls(fd: int, fs: seq<Frame>): (cs: seq<Call>)
    ensures |cs| == |fs|
  {
    if |fs| == 0 then [] else [Write(fd, FrameBytes(fs[0]))] + FrameCalls(fd, fs[1..])
  }

  /** The frames carried by the two-byte writes to fd in a trace. */
  function WrittenFrames(cs: seq<Call>, fd: int): seq<Frame>
  {
    if |cs| == 0 then []
    else
      var rest := WrittenFrames(cs[1..], fd);
      match cs[0]
        case Write(f, bs) =>
          if f == fd && |bs| == 2 then [Frame(bs[0], bs[1])] + rest else rest
        case _ => rest
  }

  /** The frames a driver writes can be read back off its trace. */
  lemma {:induction false} FrameCallsRoundTrip(fd: int, fs: seq<Frame>)
    ensures WrittenFrames(FrameCalls(fd, fs), fd) == fs
  {
    if |fs| > 0 {
      FrameCallsRoundTrip(fd, fs[1..]);
      assert FrameCalls(fd, fs)[1..] == FrameCalls(fd, fs[1..]);
    }
  }

  lemma {:induction false} WrittenFramesAppend(a: seq<Call>, b: seq<Call>, fd: int)
    ensures WrittenFrames(a + b, fd) == WrittenFrames(a, fd) + WrittenFrames(b, fd)
  {
    if |a| == 0 {
      assert a + b == b;
    } else {
      assert (a + b)[1..] == a[1..] + b;
      WrittenFramesAppend(a[1..], b, fd);
    }
  }

  /** Writing frames issues nothing but writes. */
  lemma {:induction false} FrameCallsAreWrites(fd: int, fs: seq<Frame>)
    ensures forall i :: 0 <= i < |FrameCalls(fd, fs)| ==> FrameCalls(fd, fs)[i].Write?
  {
    if |fs| > 0 {
      FrameCallsAreWrites(fd, fs[1..]);
    }
  }

  /** max30102_init on handle fd with LED amplitude led. */
  function InitCalls(fd: int, led: bv8): (cs: seq<Call>)
    ensures |cs| == 12
  {
    FrameCalls(fd, InitFrames(led))
  }

  /** The twelve writes of max30102_init carry exactly the initialisation frames. */
  lemma InitCallsFrames(fd: int, led: bv8)
    ensures WrittenFrames(InitCalls(fd, led), fd) == InitFrames(led)
  {
    FrameCallsRoundTrip(fd, InitFrames(led));
  }

  /** The j-th write of max30102_init carries the j-th initialisation frame. */
  lemma InitCallsElements(fd: int, led: bv8)
    ensures forall j :: 0 <= j < 12 ==> InitCalls(fd, led)[j] == Write(fd, FrameBytes(InitFrames(led)[j]))
  {
    FrameCallsAt(fd, InitFrames(led));
  }

  lemma {:induction false} FrameCallsAt(fd: int, fs: seq<Frame>)
    ensures forall j :: 0 <= j < |fs| ==> FrameCalls(fd, fs)[j] == Write(fd, FrameBytes(fs[j]))
  {
    if |fs| > 0 {
      FrameCallsAt(fd, fs[1..]);
      assert forall j :: 1 <= j < |fs| ==> FrameCalls(fd, fs)[j] == FrameCalls(fd, fs[1..])[j - 1];
    }
  }

  // Opening a handle

  /** A handle and the calls that produced it. */
  datatype Opened = Opened(fd: int, calls: seq<Call>)

  /**
   * init_i2c(device, addr): open the bus and set the slave address. Yields -1
   * when open fails, or when setting the address fails (the handle is then
   * closed again); otherwise the open handle.
   */
  function InitI2c(addr: int, r: OpenReply): (o: Opened)
    ensures o.fd != -1 <==> r.fd != -1 && r.addressed
    ensures o.fd != -1 ==> o.fd == r.fd
    ensures |o.calls| >= 1 && o.calls[0] == Open
    ensures r.fd != -1 ==> SetAddress(r.fd, addr) in o.calls
    ensures Close(r.fd) in o.calls <==> r.fd != -1 && !r.addressed
  {
    if r.fd == -1 then Opened(-1, [Open])
    else if !r.addressed then Opened(-1, [Open, SetAddress(r.fd, addr), Close(r.fd)])
    else Opened(r.fd, [Open, SetAddress(r.fd, addr)])
  }

  // Reading one FIFO sample

  /** What the bus answered during read_fifo: bytes moved by the register-address write, bytes read, and the bytes. */
  datatype FifoReply = FifoReply(written: int, got: int, data: FifoRecord)

  predicate FifoOk(r: FifoReply) { r.written == 1 && r.got == 6 }

  /** The outputs after a call and the calls it issued. */
  datatype Fetched = Fetched(out: Reading, calls: seq<Call>)

  /**
   * read_fifo(&red, &ir, fd): point the sensor at FIFO_DATA, burst-read six
   * bytes and decode them. prior is what the two outputs held before; a write
   * that does not move exactly one byte, or a read that does not return
   * exactly six, leaves both untouched.
   */
  function ReadFifo(fd: int, r: FifoReply, prior: Reading): (f: Fetched)
    ensures FifoOk(r) ==> f.out == DecodeRecord(r.data)
    ensures !FifoOk(r) ==> f.out == prior
    ensures |f.calls| >= 1 && f.calls[0] == Write(fd, [REG_FIFO_DATA])
    ensures Read(fd, 6) in f.calls <==> r.written == 1
  {
    if r.written != 1 then Fetched(prior, [Write(fd, [REG_FIFO_DATA])])
    else if r.got != 6 then Fetched(prior, [Write(fd, [REG_FIFO_DATA]), Read(fd, 6)])
    else Fetched(DecodeRecord(r.data), [Write(fd, [REG_FIFO_DATA]), Read(fd, 6)])
  }

  /** Every value read_fifo can leave behind is an 18-bit sample, or was already there. */
  lemma ReadFifoBound(fd: int, r: FifoReply, prior: Reading)
    requires prior.red <= 0x3FFFF && prior.ir <= 0x3FFFF
    ensures ReadFifo(fd, r, prior).out.red <= 0x3FFFF && ReadFifo(fd, r, prior).out.ir <= 0x3FFFF
  {
  }

  /**
   * n consecutive read_fifo calls into the same two temporaries: each call
   * starts from what the previous one left.
   */
  function ReadRun(fd: int, rs: seq<FifoReply>, prior: Reading): Fetched
    decreases |rs|
  {
    if |rs| == 0 then Fetched(prior, [])
    else
      var f := ReadFifo(fd, rs[0], prior);
      var g := ReadRun(fd, rs[1..], f.out);
      Fetched(g.out, f.calls + g.calls)
  }

  /** A run of reads none of which succeeds leaves the temporaries as they were. */
  lemma {:induction false} ReadRunAllFail(fd: int, rs: seq<FifoReply>, prior: Reading)
    requires forall j :: 0 <= j < |rs| ==> !FifoOk(rs[j])
    ensures ReadRun(fd, rs, prior).out == prior
    decreases |rs|
  {
    if |rs| > 0 {
      assert forall j :: 0 <= j < |rs[1..]| ==> rs[1..][j] == rs[j + 1];
      ReadRunAllFail(fd, rs[1..], prior);
    }
  }

  /** After a run of reads the temporaries hold the decode of the last read that succeeded. */
  lemma {:induction false} ReadRunKeepsLastGood(fd: int, rs: seq<FifoReply>, prior: Reading, j: int)
    requires 0 <= j < |rs| && FifoOk(rs[j])
    requires forall k :: j < k < |rs| ==> !FifoOk(rs[k])
    ensures ReadRun(fd, rs, prior).out == DecodeRecord(rs[j].data)
    decreases |rs|
  {
    var f := ReadFifo(fd, rs[0], prior);
    assert forall k :: 0 <= k < |rs[1..]| ==> rs[1..][k] == rs[k + 1];
    if j > 0 {
      ReadRunKeepsLastGood(fd, rs[1..], f.out, j - 1);
    } else {
      ReadRunAllFail(fd, rs[1..], f.out);
    }
  }

  /** read_fifo neither selects a channel, nor writes a register frame, nor opens the bus. */
  lemma ReadFifoObserved(fd: int, r: FifoReply, prior: Reading)
    ensures Visited(ReadFifo(fd, r, prior).calls) == []
    ensures AllFrames(ReadFifo(fd, r, prior).calls) == []
    ensures Opens(ReadFifo(fd, r, prior).calls) == 0
  {
    var w, rd := Write(fd, [REG_FIFO_DATA]), Read(fd, 6);
    assert Selects(w) == [] && FrameOf(w) == [] && Selects(rd) == [] && FrameOf(rd) == [];
    assert [w][1..] == [] && [w, rd][1..] == [rd] && [rd][1..] == [];
    assert Visited([w]) == [] && AllFrames([w]) == [] && Opens([w]) == 0;
    assert Visited([rd]) == [] && AllFrames([rd]) == [] && Opens([rd]) == 0;
    assert Visited([w, rd]) == [] && AllFrames([w, rd]) == [] && Opens([w, rd]) == 0;
  }

  /** A run of reads neither selects a channel, nor writes a register frame, nor opens the bus. */
  lemma {:induction false} ReadRunCalls(fd: int, rs: seq<FifoReply>, prior: Reading)
    ensures Visited(ReadRun(fd, rs, prior).calls) == []
    ensures AllFrames(ReadRun(fd, rs, prior).calls) == []
    ensures Opens(ReadRun(fd, rs, prior).calls) == 0
    decreases |rs|
  {
    if |rs| > 0 {
      var f := ReadFifo(fd, rs[0], prior);
      ReadRunCalls(fd, rs[1..], f.out);
      ReadFifoObserved(fd, rs[0], prior);
      ObserveAppend(f.calls, ReadRun(fd, rs[1..], f.out).calls);
    }
  }

  /** Every value a run of reads leaves is an 18-bit sample, or was already there. */
  lemma {:induction false} ReadRunBound(fd: int, rs: seq<FifoReply>, prior: Reading)
    requires prior.red <= 0x3FFFF && prior.ir <= 0x3FFFF
    ensures ReadRun(fd, rs, prior).out.red <= 0x3FFFF && ReadRun(fd, rs, prior).out.ir <= 0x3FFFF
    decreases |rs|
  {
    if |rs| > 0 {
      ReadRunBound(fd, rs[1..], ReadFifo(fd, rs[0], prior).out);
    }
  }

  // Observing a trace

  /** The channel a call selects on the multiplexer, if it is a select: a one-byte select write, or the i2cset command. */
  function SelectedBy(c: Call): Option<int>
  {
    match c
      case Write(_, bs) => if |bs| == 1 then MaskChannel(bs[0]) else None
      case Shell(SelectChannel(m)) => ValueChannel(m)
      case _ => None
  }

  /** The channel an i2cset select command names. */
  function SelectCommandChannel(cmd: string): Option<int>
  {
    if |cmd| == |SELECT_PREFIX| + 2 && cmd[..|SELECT_PREFIX|] == SELECT_PREFIX then
      match ParseHex2(cmd[|SELECT_PREFIX|..])
        case Some(m) => ValueChannel(m)
        case None => None
    else None
  }

  lemma SelectCommandSelects(ch: int)
    requires 0 <= ch < 8
    ensures SelectedBy(Shell(SelectCommand(ch))) == Some(ch)
  {
    SelectMaskChannel(ch);
  }

  lemma SelectWriteSelects(fd: int, ch: int)
    requires 0 <= ch < 8
    ensures SelectedBy(SelectWrite(fd, ch)) == Some(ch)
  {
    SelectMaskChannel(ch);
  }

  /** The channels a trace selects, in order. */
  function Visited(cs: seq<Call>): seq<int>
  {
    if |cs| == 0 then [] else Selects(cs[0]) + Visited(cs[1..])
  }

  /** The channel a single call selects, as a list of zero or one channels. */
  function Selects(c: Call): seq<int>
  {
    match SelectedBy(c) case Some(ch) => [ch] case None => []
  }

  /** The register frames of a trace: every two-byte write, on whatever handle. */
  function AllFrames(cs: seq<Call>): seq<Frame>
  {
    if |cs| == 0 then [] else FrameOf(cs[0]) + AllFrames(cs[1..])
  }

  /** The register frame a single call writes, as a list of zero or one frames. */
  function FrameOf(c: Call): seq<Frame>
  {
    match c case Write(_, bs) => (if |bs| == 2 then [Frame(bs[0], bs[1])] else []) case _ => []
  }

  /** How many times a trace opens the bus. */
  function Opens(cs: seq<Call>): nat
  {
    if |cs| == 0 then 0 else (if cs[0] == Open then 1 else 0) + Opens(cs[1..])
  }

  /**
   * The slave address most recently requested on fd, if any. The trace does
   * not record whether an ioctl succeeded, so a refused request counts too.
   */
  function LastTarget(cs: seq<Call>, fd: int): Option<int>
  {
    if |cs| == 0 then None
    else match cs[|cs| - 1]
      case SetAddress(f, a) => if f == fd then Some(a) else LastTarget(cs[..|cs| - 1], fd)
      case _ => LastTarget(cs[..|cs| - 1], fd)
  }

  /** The three observations distribute over concatenation. */
  lemma ObserveAppend(a: seq<Call>, b: seq<Call>)
    ensures Visited(a + b) == Visited(a) + Visited(b)
    ensures AllFrames(a + b) == AllFrames(a) + AllFrames(b)
    ensures Opens(a + b) == Opens(a) + Opens(b)
  {
    VisitedAppend(a, b);
    CountsAppend(a, b);
  }

  /** The three observations of a call followed by a trace. */
  lemma ObserveCons(c: Call, t: seq<Call>)
    ensures Visited([c] + t) == Selects(c) + Visited(t)
    ensures AllFrames([c] + t) == FrameOf(c) + AllFrames(t)
    ensures Opens([c] + t) == (if c == Open then 1 else 0) + Opens(t)
  {
    assert ([c] + t)[0] == c && ([c] + t)[1..] == t;
  }

  lemma {:induction false} VisitedAppend(a: seq<Call>, b: seq<Call>)
    ensures Visited(a + b) == Visited(a) + Visited(b)
  {
    if |a| == 0 {
      assert a + b == b;
    } else {
      var ab := a + b;
      assert ab[0] == a[0] && ab[1..] == a[1..] + b;
      VisitedAppend(a[1..], b);
      assert Visited(ab) == Selects(a[0]) + Visited(a[1..] + b);
    }
  }

  /** The frames of two traces in turn. */
  lemma FramesAppend(a: seq<Call>, b: seq<Call>)
    ensures AllFrames(a + b) == AllFrames(a) + AllFrames(b)
  {
    CountsAppend(a, b);
  }

  lemma {:induction false} CountsAppend(a: seq<Call>, b: seq<Call>)
    ensures AllFrames(a + b) == AllFrames(a) + AllFrames(b)
    ensures Opens(a + b) == Opens(a) + Opens(b)
  {
    if |a| == 0 {
      assert a + b == b;
    } else {
      assert (a + b)[1..] == a[1..] + b;
      CountsAppend(a[1..], b);
    }
  }

  /** The initialisation selects nothing, opens nothing, and its frames are the init sequence. */
  lemma InitCallsObserved(fd: int, led: bv8)
    ensures Visited(InitCalls(fd, led)) == []
    ensures AllFrames(InitCalls(fd, led)) == InitFrames(led)
    ensures Opens(InitCalls(fd, led)) == 0
  {
    FrameCallsObserved(fd, InitFrames(led));
  }

  lemma {:induction false} FrameCallsObserved(fd: int, fs: seq<Frame>)
    ensures Visited(FrameCalls(fd, fs)) == []
    ensures AllFrames(FrameCalls(fd, fs)) == fs
    ensures Opens(FrameCalls(fd, fs)) == 0
  {
    if |fs| > 0 {
      FrameCallsObserved(fd, fs[1..]);
      assert FrameCalls(fd, fs)[1..] == FrameCalls(fd, fs[1..]);
    }
  }

  /** A trace none of whose calls selects a channel visits nothing. */
  lemma {:induction false} VisitedNone(cs: seq<Call>)
    requires forall i :: 0 <= i < |cs| ==> SelectedBy(cs[i]).None?
    ensures Visited(cs) == []
  {
    if |cs| > 0 {
      VisitedNone(cs[1..]);
    }
  }

  /** A call that neither writes nor runs a command. */
  predicate Plain(c: Call) { !c.Write? && !c.Shell? }

  /** Calls that neither write nor run a command select nothing and write no frame. */
  lemma {:induction false} PlainObserved(cs: seq<Call>)
    requires forall i :: 0 <= i < |cs| ==> Plain(cs[i])
    ensures Visited(cs) == [] && AllFrames(cs) == []
  {
    if |cs| > 0 {
      PlainObserved(cs[1..]);
    }
  }

  /** init_i2c opens the bus once and neither selects a channel nor writes a frame. */
  lemma InitI2cObserved(addr: int, r: OpenReply)
    ensures Visited(InitI2c(addr, r).calls) == [] && AllFrames(InitI2c(addr, r).calls) == []
    ensures Opens(InitI2c(addr, r).calls) == 1
  {
    var cs := InitI2c(addr, r).calls;
    if r.fd == -1 {
      OpenThen([]);
      assert cs == [Open] + [];
    } else if !r.addressed {
      OpenThen([SetAddress(r.fd, addr), Close(r.fd)]);
      assert cs == [Open] + [SetAddress(r.fd, addr), Close(r.fd)];
    } else {
      OpenThen([SetAddress(r.fd, addr)]);
      assert cs == [Open] + [SetAddress(r.fd, addr)];
    }
  }

  /** An open followed by calls that neither open, write nor run a command. */
  lemma OpenThen(t: seq<Call>)
    requires forall i :: 0 <= i < |t| ==> Plain(t[i]) && t[i] != Open
    ensures Visited([Open] + t) == [] && AllFrames([Open] + t) == [] && Opens([Open] + t) == 1
  {
    PlainObserved([Open] + t);
    CountsAppend([Open], t);
    NoOpens(t);
  }

  lemma {:induction false} NoOpens(cs: seq<Call>)
    requires forall i :: 0 <= i < |cs| ==> cs[i] != Open
    ensures Opens(cs) == 0
  {
    if |cs| > 0 {
      NoOpens(cs[1..]);
    }
  }
}
