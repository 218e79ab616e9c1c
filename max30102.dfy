/**
 * The MAX30102 pulse-oximetry sensor as the drivers program it: its I2C
 * address, register addresses, the two-byte register-write frame, the
 * twelve-write initialisation sequence and the 18-bit FIFO sample format.
 * The TCA9548A multiplexer's address lives here too.
 */
module Max30102 {
  import opened Wrappers

  /** 7-bit I2C addresses. */
  const MAX30102_ADDR: int := 0x57
  const TCA9548A_ADDR: int := 0x70

  const REG_INTR_STATUS_1: bv8 := 0x00
  const REG_INTR_STATUS_2: bv8 := 0x01
  const REG_INTR_ENABLE_1: bv8 := 0x02
  const REG_INTR_ENABLE_2: bv8 := 0x03
  const REG_FIFO_WR_PTR: bv8 := 0x04
  const REG_OVF_COUNTER: bv8 := 0x05
  const REG_FIFO_RD_PTR: bv8 := 0x06
  const REG_FIFO_DATA: bv8 := 0x07
  const REG_FIFO_CONFIG: bv8 := 0x08
  const REG_MODE_CONFIG: bv8 := 0x09
  const REG_SPO2_CONFIG: bv8 := 0x0A
  /** Called REG_LED1_PA in new_max30102/use.cpp. */
  const REG_RED_LED: bv8 := 0x0C
  /** Called REG_LED2_PA in new_max30102/use.cpp. */
  const REG_IR_LED: bv8 := 0x0D
  const REG_PILOT_PA: bv8 := 0x10
  const REG_MULTI_LED_CTRL1: bv8 := 0x11
  const REG_MULTI_LED_CTRL2: bv8 := 0x12

  /** LED pulse amplitude most variants program; the Qt_new variant uses 0x27. */
  const LED_AMPLITUDE: bv8 := 0x24
  const LED_AMPLITUDE_QT_NEW: bv8 := 0x27

  /** MODE_CONFIG values: the reset bit, and SpO2 mode (red and IR both sampled). */
  const MODE_RESET: bv8 := 0x40
  const MODE_SPO2: bv8 := 0x03

  /** The measurement mode some variants pass to max30102_init (and then ignore). */
  datatype Mode = Proximity | HrmSpo2

  /** One register write, sent on the bus as the two bytes {reg, value}. */
  datatype Frame = Frame(reg: bv8, value: bv8)

  function FrameBytes(f: Frame): (bs: seq<bv8>)
    ensures |bs| == 2
  {
    [f.reg, f.value]
  }

  /** Reads a two-byte write back as the frame it carries. */
  function BytesFrame(bs: seq<bv8>): Option<Frame>
  {
    if |bs| == 2 then Some(Frame(bs[0], bs[1])) else None
  }

  lemma FrameBytesRoundTrip(f: Frame)
    ensures BytesFrame(FrameBytes(f)) == Some(f)
  {
  }

  /**
   * max30102_init: reset, clear the FIFO read and write positions, enable the FIFO-almost-full,
   * new-sample and ambient-overflow interrupts, FIFO configuration, SpO2 mode,
   * SpO2 configuration, both LED amplitudes (led) and the pilot amplitude.
   */
  function InitFrames(led: bv8): (fs: seq<Frame>)
    ensures |fs| == 12
    ensures fs[0] == Frame(REG_MODE_CONFIG, MODE_RESET)
  {
    [ Frame(REG_MODE_CONFIG, MODE_RESET),
      Frame(REG_FIFO_WR_PTR, 0x00),
      Frame(REG_OVF_COUNTER, 0x00),
      Frame(REG_FIFO_RD_PTR, 0x00),
      Frame(REG_INTR_ENABLE_1, 0xE0),
      Frame(REG_INTR_ENABLE_2, 0x00),
      Frame(REG_FIFO_CONFIG, 0x0F),
      Frame(REG_MODE_CONFIG, MODE_SPO2),
      Frame(REG_SPO2_CONFIG, 0x27),
      Frame(REG_RED_LED, led),
      Frame(REG_IR_LED, led),
      Frame(REG_PILOT_PA, 0x7F) ]
  }

  /** The LED amplitude changes the two LED writes (positions 9 and 10) and nothing else. */
  lemma InitFramesDifferOnlyInLeds(a: bv8, b: bv8)
    ensures forall i :: 0 <= i < 12 && i != 9 && i != 10 ==> InitFrames(a)[i] == InitFrames(b)[i]
    ensures InitFrames(a)[9] == Frame(REG_RED_LED, a) && InitFrames(a)[10] == Frame(REG_IR_LED, a)
    ensures a != b ==> InitFrames(a) != InitFrames(b)
  {
    assert InitFrames(a)[9] != InitFrames(b)[9] || a == b;
  }

  // The sensor's register file, as far as the writes above are concerned: a
  // write stores its value in its register. Registers are keyed by address.

  type RegisterMap = map<int, bv8>

  function Apply(m: RegisterMap, fs: seq<Frame>): RegisterMap
  {
    if |fs| == 0 then m
    else
      var last := fs[|fs| - 1];
      Apply(m, fs[..|fs| - 1])[last.reg as int := last.value]
  }

  /** The value the last write to r in fs carries, if fs writes r at all. */
  function LastWrite(fs: seq<Frame>, r: int): Option<bv8>
  {
    if |fs| == 0 then None
    else if fs[|fs| - 1].reg as int == r then Some(fs[|fs| - 1].value)
    else LastWrite(fs[..|fs| - 1], r)
  }

  /** Applying writes: each register holds its last written value, or keeps its old one. */
  lemma {:induction false} ApplyValue(m: RegisterMap, fs: seq<Frame>, r: int)
    ensures r in Apply(m, fs) <==> r in m || LastWrite(fs, r).Some?
    ensures LastWrite(fs, r).Some? ==> Apply(m, fs)[r] == LastWrite(fs, r).value
    ensures LastWrite(fs, r).None? && r in m ==> Apply(m, fs)[r] == m[r]
  {
    if |fs| > 0 {
      ApplyValue(m, fs[..|fs| - 1], r);
    }
  }

  /** One more write on top of a prefix. */
  lemma ApplySnoc(m: RegisterMap, fs: seq<Frame>, k: nat)
    requires k < |fs|
    ensures Apply(m, fs[..k + 1]) == Apply(m, fs[..k])[fs[k].reg as int := fs[k].value]
  {
    assert fs[..k + 1][..k] == fs[..k];
  }

  /** Writing the same frames twice leaves the register file as writing them once. */
  lemma ApplyIdempotent(m: RegisterMap, fs: seq<Frame>)
    ensures Apply(Apply(m, fs), fs) == Apply(m, fs)
  {
    var once := Apply(m, fs);
    var twice := Apply(once, fs);
    forall r
      ensures r in twice <==> r in once
      ensures r in once ==> twice[r] == once[r]
    {
      ApplyValue(m, fs, r);
      ApplyValue(once, fs, r);
    }
    assert twice.Keys == once.Keys;
  }

  /** The initialisation run twice programs the sensor exactly as running it once. */
  lemma InitIdempotent(m: RegisterMap, led: bv8)
    ensures Apply(Apply(m, InitFrames(led)), InitFrames(led)) == Apply(m, InitFrames(led))
  {
    ApplyIdempotent(m, InitFrames(led));
  }

  /** The registers the initialisation writes. */
  const INIT_REGISTERS: set<int> := {0x09, 0x04, 0x05, 0x06, 0x02, 0x03, 0x08, 0x0A, 0x0C, 0x0D, 0x10}

  /** The initialisation, frame by frame, as updates of the register file. */
  lemma InitUpdates(m: RegisterMap, led: bv8)
    ensures Apply(m, InitFrames(led)) == m[0x09 := MODE_RESET][0x04 := 0x00][0x05 := 0x00][0x06 := 0x00]
      [0x02 := 0xE0][0x03 := 0x00][0x08 := 0x0F][0x09 := MODE_SPO2][0x0A := 0x27]
      [0x0C := led][0x0D := led][0x10 := 0x7F]
  {
    var fs := InitFrames(led);
    assert fs[..0] == [];
    ApplySnoc(m, fs, 0); ApplySnoc(m, fs, 1); ApplySnoc(m, fs, 2); ApplySnoc(m, fs, 3);
    ApplySnoc(m, fs, 4); ApplySnoc(m, fs, 5); ApplySnoc(m, fs, 6); ApplySnoc(m, fs, 7);
    ApplySnoc(m, fs, 8); ApplySnoc(m, fs, 9); ApplySnoc(m, fs, 10); ApplySnoc(m, fs, 11);
    assert fs[..12] == fs;
  }

  /**
   * Whatever the sensor held before, the initialisation leaves it in SpO2 mode
   * (the reset is overridden by the later MODE_CONFIG write) with the fixed
   * configuration and the chosen LED amplitude, and touches no other register.
   */
  lemma InitState(m: RegisterMap, led: bv8)
    ensures var a := Apply(m, InitFrames(led));
      && a.Keys == m.Keys + INIT_REGISTERS
      && a[REG_MODE_CONFIG as int] == MODE_SPO2
      && a[REG_FIFO_WR_PTR as int] == 0x00 && a[REG_OVF_COUNTER as int] == 0x00 && a[REG_FIFO_RD_PTR as int] == 0x00
      && a[REG_INTR_ENABLE_1 as int] == 0xE0 && a[REG_INTR_ENABLE_2 as int] == 0x00
      && a[REG_FIFO_CONFIG as int] == 0x0F && a[REG_SPO2_CONFIG as int] == 0x27
      && a[REG_RED_LED as int] == led && a[REG_IR_LED as int] == led && a[REG_PILOT_PA as int] == 0x7F
      && forall r :: r in m && r !in INIT_REGISTERS ==> a[r] == m[r]
  {
    InitUpdates(m, led);
  }

  // FIFO samples

  /** The six bytes of one FIFO burst read: three for red, then three for IR. */
  datatype FifoRecord = FifoRecord(b0: bv8, b1: bv8, b2: bv8, b3: bv8, b4: bv8, b5: bv8)

  /** One red/IR sample pair, each a uint32_t. */
  datatype Reading = Reading(red: bv32, ir: bv32)

  /**
   * An 18-bit sample from three big-endian bytes, masking the first byte to its
   * two low bits first: ((hi & 3) << 16) | (mid << 8) | lo.
   */
  function Decode18(hi: bv8, mid: bv8, lo: bv8): (v: bv32)
    ensures v <= 0x3FFFF
  {
    ((hi as bv32 & 3) << 16) | ((mid as bv32) << 8) | (lo as bv32)
  }

  /** The sample's bits 17..16 are the low two bits of hi, bits 15..8 are mid and bits 7..0 are lo. */
  lemma Decode18Fields(hi: bv8, mid: bv8, lo: bv8)
    ensures Decode18(hi, mid, lo) >> 16 == (hi & 3) as bv32
    ensures (Decode18(hi, mid, lo) >> 8) & 0xFF == mid as bv32
    ensures Decode18(hi, mid, lo) & 0xFF == lo as bv32
  {
  }

  /** The Qt_new variant: combine the three bytes, then keep the low 18 bits. */
  function Decode18MaskAfter(hi: bv8, mid: bv8, lo: bv8): bv32
  {
    (((hi as bv32) << 16) | ((mid as bv32) << 8) | (lo as bv32)) & 0x3FFFF
  }

  /** Masking before or after combining gives the same sample for every input. */
  lemma MaskAfterEqualsMaskFirst(hi: bv8, mid: bv8, lo: bv8)
    ensures Decode18MaskAfter(hi, mid, lo) == Decode18(hi, mid, lo)
  {
  }

  /** The three bytes a sensor sends for an 18-bit sample (upper six bits of the first byte zero). */
  function Encode18(v: bv32): seq<bv8>
  {
    [((v >> 16) & 0xFF) as bv8, ((v >> 8) & 0xFF) as bv8, (v & 0xFF) as bv8]
  }

  /** Every 18-bit value survives encoding and decoding. */
  lemma DecodeEncode18(v: bv32)
    requires v <= 0x3FFFF
    ensures Decode18(Encode18(v)[0], Encode18(v)[1], Encode18(v)[2]) == v
  {
  }

  /** Decoding discards exactly the upper six bits of the first byte. */
  lemma EncodeDecode18(hi: bv8, mid: bv8, lo: bv8)
    ensures Encode18(Decode18(hi, mid, lo)) == [hi & 3, mid, lo]
  {
  }

  /** read_fifo's decode of one burst: red from bytes 0..2, IR from bytes 3..5. */
  function DecodeRecord(rec: FifoRecord): (r: Reading)
    ensures r.red <= 0x3FFFF && r.ir <= 0x3FFFF
  {
    Reading(Decode18(rec.b0, rec.b1, rec.b2), Decode18(rec.b3, rec.b4, rec.b5))
  }

  /** Re-encoding a decoded record gives back its bytes, minus the six unused bits of bytes 0 and 3. */
  lemma DecodeRecordBytes(rec: FifoRecord)
    ensures Encode18(DecodeRecord(rec).red) == [rec.b0 & 3, rec.b1, rec.b2]
    ensures Encode18(DecodeRecord(rec).ir) == [rec.b3 & 3, rec.b4, rec.b5]
  {
    EncodeDecode18(rec.b0, rec.b1, rec.b2);
    EncodeDecode18(rec.b3, rec.b4, rec.b5);
  }

  /** The Qt_new decode of one burst, which masks after combining. */
  function DecodeRecordMaskAfter(rec: FifoRecord): Reading
  {
    Reading(Decode18MaskAfter(rec.b0, rec.b1, rec.b2), Decode18MaskAfter(rec.b3, rec.b4, rec.b5))
  }

  /** Both decodes of a burst agree on every input. */
  lemma DecodeRecordVariantsAgree(rec: FifoRecord)
    ensures DecodeRecordMaskAfter(rec) == DecodeRecord(rec)
  {
    MaskAfterEqualsMaskFirst(rec.b0, rec.b1, rec.b2);
    MaskAfterEqualsMaskFirst(rec.b3, rec.b4, rec.b5);
  }
}
