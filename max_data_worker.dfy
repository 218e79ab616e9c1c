/**
 * BeiFen/MaxDataWorker.cpp: each timer tick of the worker runs
 * get_middle_data and get_branch_data of the acquisition driver (the one in
 * collect/max30102.cpp) into zeroed local arrays and packs the averages and
 * the odd channels' samples into one MaxData record.
 */
module MaxDataWorker {
  import opened Max30102
  import opened I2cBus
  import opened ChannelScan
  import opened CollectDriver

  /** The record handed to the plot window: the middle averages and channels 1, 3, 5 and 7. */
  datatype MaxData = MaxData(
    middleRed: bv32, middleIr: bv32,
    redData1: bv32, redData3: bv32, redData5: bv32, redData7: bv32,
    irData1: bv32, irData3: bv32, irData5: bv32, irData7: bv32)

  /** The local arrays red[8] = {0} and ir[8] = {0}. */
  const ZEROS: seq<bv32> := [0, 0, 0, 0, 0, 0, 0, 0]

  /** doWork's field mapping: the averages as returned, then slots 1, 3, 5 and 7 of each array. */
  function Pack(middleRed: bv32, middleIr: bv32, red: seq<bv32>, ir: seq<bv32>): MaxData
    requires |red| == 8 && |ir| == 8
  {
    MaxData(middleRed, middleIr, red[1], red[3], red[5], red[7], ir[1], ir[3], ir[5], ir[7])
  }

  /** The red and IR values a record holds for odd channel k. */
  function SlotOf(data: MaxData, k: int): (v: Reading)
    requires k == 1 || k == 3 || k == 5 || k == 7
  {
    if k == 1 then Reading(data.redData1, data.irData1)
    else if k == 3 then Reading(data.redData3, data.irData3)
    else if k == 5 then Reading(data.redData5, data.irData5)
    else Reading(data.redData7, data.irData7)
  }

  /** Slot k of a packed record is slot k of the arrays it was packed from. */
  lemma PackSlot(mr: bv32, mi: bv32, red: seq<bv32>, ir: seq<bv32>, k: int)
    requires |red| == 8 && |ir| == 8 && (k == 1 || k == 3 || k == 5 || k == 7)
    ensures SlotOf(Pack(mr, mi, red, ir), k) == Reading(red[k], ir[k])
  {
  }

  /** The get_branch_data pass of doWork: zeroed arrays, after the middle pass. */
  function BranchPass(fd: int, m: Middle, chs: seq<int>, vs: seq<Visit>, garbage: Reading): Branch
    requires ValidChannels(chs) && |vs| == 8
  {
    BranchFrom(fd, Branch(ZEROS, ZEROS, garbage, m.maxFd, m.calls), chs, vs, 0)
  }

  /** The record of one doWork. */
  function Record(fd: int, maxFd: int, calls: seq<Call>, chs: seq<int>, mvs: seq<Visit>, bvs: seq<Visit>, garbage: Reading): MaxData
    requires ValidChannels(chs) && |mvs| == 8 && |bvs| == 8
  {
    var m := MiddlePass(fd, maxFd, calls, mvs);
    var b := BranchPass(fd, m, chs, bvs, garbage);
    Pack(m.acc.redSum / 4, m.acc.irSum / 4, b.red, b.ir)
  }

  /** An odd channel that is not listed reads 0 in the record: its array slots are never written. */
  lemma UnlistedReadsZero(fd: int, maxFd: int, calls: seq<Call>, chs: seq<int>, mvs: seq<Visit>, bvs: seq<Visit>, garbage: Reading, k: int)
    requires ValidChannels(chs) && |mvs| == 8 && |bvs| == 8
    requires (k == 1 || k == 3 || k == 5 || k == 7) && k !in chs
    ensures SlotOf(Record(fd, maxFd, calls, chs, mvs, bvs, garbage), k) == Reading(0, 0)
  {
    var m := MiddlePass(fd, maxFd, calls, mvs);
    var st := Branch(ZEROS, ZEROS, garbage, m.maxFd, m.calls);
    assert chs[0..] == chs;
    BranchKeeps(fd, st, chs, bvs, 0, k);
    var b := BranchPass(fd, m, chs, bvs, garbage);
    PackSlot(m.acc.redSum / 4, m.acc.irSum / 4, b.red, b.ir, k);
  }

  /**
   * A listed odd channel whose sensor is reached and read holds its decoded
   * sample in the record, when the list is strictly ascending (as the scan
   * builds it).
   */
  lemma ListedReadsSample(fd: int, maxFd: int, calls: seq<Call>, chs: seq<int>, mvs: seq<Visit>, bvs: seq<Visit>, garbage: Reading, j: nat)
    requires ValidChannels(chs) && |mvs| == 8 && |bvs| == 8
    requires forall a, b :: 0 <= a < b < |chs| ==> chs[a] < chs[b]
    requires j < |chs| && (chs[j] == 1 || chs[j] == 3 || chs[j] == 5 || chs[j] == 7)
    requires Reached(bvs[chs[j]]) && FifoOk(bvs[chs[j]].fifo)
    ensures SlotOf(Record(fd, maxFd, calls, chs, mvs, bvs, garbage), chs[j]) == DecodeRecord(bvs[chs[j]].fifo.data)
  {
    var m := MiddlePass(fd, maxFd, calls, mvs);
    var st := Branch(ZEROS, ZEROS, garbage, m.maxFd, m.calls);
    assert chs[j] !in chs[j + 1..] by {
      forall i | j + 1 <= i < |chs| ensures chs[i] != chs[j] { assert chs[j] < chs[i]; }
    }
    BranchPlaces(fd, st, chs, bvs, 0, j);
    var b := BranchPass(fd, m, chs, bvs, garbage);
    PackSlot(m.acc.redSum / 4, m.acc.irSum / 4, b.red, b.ir, chs[j]);
  }

  /** Every value in the record is an 18-bit sample or zero, whatever the bus returned, when the temporaries start 18-bit. */
  lemma RecordBounded(fd: int, maxFd: int, calls: seq<Call>, chs: seq<int>, mvs: seq<Visit>, bvs: seq<Visit>, garbage: Reading)
    requires ValidChannels(chs) && |mvs| == 8 && |bvs| == 8
    requires garbage.red <= 0x3FFFF && garbage.ir <= 0x3FFFF
    ensures var d := Record(fd, maxFd, calls, chs, mvs, bvs, garbage);
      d.middleRed <= 0x3FFFF && d.middleIr <= 0x3FFFF &&
      d.redData1 <= 0x3FFFF && d.redData3 <= 0x3FFFF && d.redData5 <= 0x3FFFF && d.redData7 <= 0x3FFFF &&
      d.irData1 <= 0x3FFFF && d.irData3 <= 0x3FFFF && d.irData5 <= 0x3FFFF && d.irData7 <= 0x3FFFF
  {
    MiddleAverageBound(fd, maxFd, calls, mvs);
    var m := MiddlePass(fd, maxFd, calls, mvs);
    BranchBound(fd, Branch(ZEROS, ZEROS, garbage, m.maxFd, m.calls), chs, bvs, 0);
    var b := BranchPass(fd, m, chs, bvs, garbage);
    assert forall k :: 0 <= k < 8 ==> b.red[k] <= 0x3FFFF && b.ir[k] <= 0x3FFFF;
  }

  /**
   * doWork: zeroed arrays, get_middle_data, then get_branch_data, and the one
   * record it emits. garbage stands for get_branch_data's uninitialised
   * temporaries.
   */
  method DoWork(d: Driver, mvs: seq<Visit>, bvs: seq<Visit>, garbage: Reading) returns (data: MaxData)
    requires d.Valid() && |mvs| == 8 && |bvs| == 8
    modifies d`maxFd, d`calls
    ensures ValidChannels(d.table.Contents())
    ensures data == Record(d.fd, old(d.maxFd), old(d.calls), d.table.Contents(), mvs, bvs, garbage)
    ensures var b := BranchPass(d.fd, MiddlePass(d.fd, old(d.maxFd), old(d.calls), mvs), d.table.Contents(), bvs, garbage);
      d.maxFd == b.maxFd && d.calls == b.calls
  {
    TableChannels(d.table);
    var red := ZeroArray();
    var ir := ZeroArray();
    var middleRed, middleIr := d.GetMiddleData(mvs);
    d.GetBranchData(red, ir, bvs, garbage);
    data := Pack(middleRed, middleIr, red[..], ir[..]);
  }

  /** A fresh array of eight zeros. */
  method ZeroArray() returns (a: array<bv32>)
    ensures fresh(a) && a[..] == ZEROS
  {
    a := new bv32[8](_ => 0);
    assert a[..] == ZEROS;
  }
}
