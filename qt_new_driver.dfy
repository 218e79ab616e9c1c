/**
 * The driver class of Qt_new/max30102.cpp. The constructor probes channels
 * 0..7 (select command, open, address the sensor, one-byte read), initialises
 * every sensor it finds through the probing handle with LED amplitude 0x27,
 * and finally opens a handle of its own addressed to the multiplexer. PreJob
 * and DoJob then select a listed channel and read one sample from it.
 */
module QtNewDriver {
  import opened Wrappers
  import opened Max30102
  import opened I2cBus
  import opened ChannelScan
  import opened ProbeScan
  import RootDriver

  /** The LED amplitude this variant's max30102_init writes to both LEDs. */
  const QT_LED: bv8 := 0x27

  /** This variant's initialisation differs from the other drivers' only in the two LED writes, 0x27 instead of 0x24. */
  lemma QtInitDiffers()
    ensures forall i :: 0 <= i < 12 && i != 9 && i != 10 ==> InitFrames(QT_LED)[i] == InitFrames(LED_AMPLITUDE)[i]
    ensures InitFrames(QT_LED)[9] == Frame(REG_RED_LED, 0x27) && InitFrames(QT_LED)[10] == Frame(REG_IR_LED, 0x27)
    ensures InitFrames(QT_LED) != InitFrames(LED_AMPLITUDE)
  {
    InitFramesDifferOnlyInLeds(QT_LED, LED_AMPLITUDE);
  }

  /**
   * The constructor keeps one counter, count_channel, both for filling the
   * list and as the cursor PreJob starts from; after the scan it holds the
   * number of listed channels. The first PreJob therefore reads the slot just
   * past the list, and when every probe passed, a slot outside the eight-slot
   * array.
   */
  lemma ScanLeavesCursorPastList(rs: seq<ChannelReply>)
    requires |rs| == 8
    ensures CountTrue(ProbeFlags(rs)) == |Accepted(ProbeFlags(rs))|
    ensures CountTrue(ProbeFlags(rs)) == 8 <==> forall c :: 0 <= c < 8 ==> Detected(rs[c])
  {
    ListedExactly(rs);
    CountTrueFull(ProbeFlags(rs));
    assert forall c :: 0 <= c < 8 ==> ProbeFlags(rs)[c] == Detected(rs[c]);
  }

  /** The handle's last address is the one just set. */
  lemma EndsAddressed(h: seq<Call>, fd: int, addr: int)
    ensures LastTarget(h + [Open, SetAddress(fd, addr)], fd) == Some(addr)
  {
    var cs := h + [Open, SetAddress(fd, addr)];
    assert cs[|cs| - 1] == SetAddress(fd, addr);
  }

  /** A reply on which the probe passes, and one on which the select command fails. */
  const PASS: ChannelReply := ChannelReply(0, 0, 1, OpenReply(3, true), true, 1)
  const FAIL: ChannelReply := ChannelReply(1, 0, 1, OpenReply(3, true), true, 1)

  /**
   * Sensors on channels 0 and 1 only: the list is [0, 1] and the first
   * PreJob reads slot 2, which the scan never wrote.
   */
  lemma TwoSensorsExample()
    ensures Accepted(ProbeFlags([PASS, PASS, FAIL, FAIL, FAIL, FAIL, FAIL, FAIL])) == [0, 1]
    ensures CountTrue(ProbeFlags([PASS, PASS, FAIL, FAIL, FAIL, FAIL, FAIL, FAIL])) == 2
  {
    var rs := [PASS, PASS, FAIL, FAIL, FAIL, FAIL, FAIL, FAIL];
    var ok := ProbeFlags(rs);
    assert ok == [true, true, false, false, false, false, false, false];
    ScanLeavesCursorPastList(rs);
    assert ok[..2] == [true, true];
    AcceptedSnoc(ok, 0);
    assert ok[..1][..0] == [];
    assert Accepted(ok[..1]) == [0];
    AcceptedSnoc(ok, 1);
    AcceptedRest(ok, 2);
  }

  /** No flag at or after position i is set, so the list stops growing there. */
  lemma {:induction false} AcceptedRest(ok: seq<bool>, i: nat)
    requires i <= |ok| && forall j :: i <= j < |ok| ==> !ok[j]
    ensures Accepted(ok) == Accepted(ok[..i])
    decreases |ok| - i
  {
    if i < |ok| {
      AcceptedSnoc(ok, i);
      AcceptedRest(ok, i + 1);
    } else {
      assert ok[..i] == ok;
    }
  }

  class Driver {
    var fd: int
    const table: ChannelTable
    /** count_channel: the list's length after the scan, then PreJob's cursor. */
    var cursor: int
    /** now_use_channel */
    var current: int
    /** The calls issued so far. */
    var calls: seq<Call>

    /** The corrected cursor discipline: the cursor always names a listed slot. */
    ghost predicate Ready()
      reads this, table, table.slots
    {
      table.Valid() && 0 <= cursor < table.count
    }

    /**
     * The constructor: probe channels 0..7, initialising each sensor found,
     * then open the handle the driver keeps and address the multiplexer (that
     * ioctl is not checked). The list holds exactly the passing channels in
     * ascending order, and the counter is left at the list's length.
     */
    constructor (rs: seq<ChannelReply>, final: OpenReply)
      requires |rs| == 8
      ensures table.Valid() && fresh(table) && fresh(table.slots)
      ensures table.Contents() == Accepted(ProbeFlags(rs))
      ensures cursor == table.count && current == 0
      ensures fd == final.fd
      ensures calls == ProbeScan.ScanCalls(rs, 0, InitFrames(QT_LED)) + [Open, SetAddress(final.fd, TCA9548A_ADDR)]
      ensures LastTarget(calls, fd) == Some(TCA9548A_ADDR)
    {
      table := new ChannelTable();
      current := 0;
      new;
      Probe(rs, final);
    }

    /** The constructor's body after the fields are set up: the scan loop and the final open. */
    method Probe(rs: seq<ChannelReply>, final: OpenReply)
      requires |rs| == 8 && table.Valid() && table.count == 0
      modifies this`fd, this`calls, this`cursor, table, table.slots
      ensures table.Valid() && table.Contents() == Accepted(ProbeFlags(rs))
      ensures cursor == table.count && fd == final.fd
      ensures calls == ProbeScan.ScanCalls(rs, 0, InitFrames(QT_LED)) + [Open, SetAddress(final.fd, TCA9548A_ADDR)]
      ensures LastTarget(calls, fd) == Some(TCA9548A_ADDR)
    {
      var cs := ProbeScan.Collect(table, rs, InitFrames(QT_LED));
      fd := final.fd;
      EndsAddressed(cs, fd, TCA9548A_ADDR);
      calls := cs + [Open, SetAddress(fd, TCA9548A_ADDR)];
      cursor := table.count;
    }

    /** The correction: start PreJob's cursor at the first listed slot. */
    method ResetCursor()
      requires table.Valid() && table.count > 0
      modifies this`cursor
      ensures Ready() && cursor == 0
    {
      cursor := 0;
    }

    /**
     * PreJob with the cursor wrapping after the last listed channel: read the
     * channel under the cursor, advance it, write the channel's select byte
     * and address the sensor.
     */
    method PreJob()
      requires Ready()
      modifies this`cursor, this`current, this`calls
      ensures Ready()
      ensures current == table.Contents()[old(cursor)]
      ensures cursor == Advance(old(cursor), table.count)
      ensures calls == old(calls) + RootDriver.PreJobCalls(fd, current)
    {
      current := table.Get(cursor);
      cursor := Advance(cursor, table.count);
      calls := calls + RootDriver.PreJobCalls(fd, current);
    }

    /**
     * DoJob: one read_fifo into uninitialised temporaries, copied to the
     * outputs; this variant masks the assembled 24 bits to 18 afterwards.
     * garbage stands for what the temporaries happen to hold.
     */
    method DoJob(r: FifoReply, garbage: Reading) returns (ir: bv32, red: bv32)
      modifies this`calls
      ensures FifoOk(r) ==> Reading(red, ir) == DecodeRecordMaskAfter(r.data)
      ensures !FifoOk(r) ==> Reading(red, ir) == garbage
      ensures calls == old(calls) + ReadFifo(fd, r, garbage).calls
    {
      var f := ReadFifo(fd, r, garbage);
      DecodeRecordVariantsAgree(r.data);
      calls := calls + f.calls;
      red, ir := f.out.red, f.out.ir;
    }
  }
}
