/**
 * The scan that finds sensors with two shell commands per channel: i2cset
 * writes the channel's select byte into the multiplexer, then i2cdetect piped
 * into grep succeeds iff address 0x57 answers. The same check and the same
 * ascending collection loop appear in use_ful/test_right.cpp, in
 * collect/max30102.cpp (scanf_channel) and in new_max30102/use.cpp
 * (scanf_channel); it is defined once here.
 */
module ShellScan {
  import opened Wrappers
  import opened I2cBus
  import opened ChannelScan

  /** A check's verdict and the commands it ran. */
  datatype Probe = Probe(found: bool, calls: seq<Call>)

  /** Both commands exited with status 0. */
  predicate Found(r: ChannelReply) { r.shellSelect == 0 && r.shellDetect == 0 }

  function FoundFlags(rs: seq<ChannelReply>): seq<bool>
  {
    seq(|rs|, i requires 0 <= i < |rs| => Found(rs[i]))
  }

  /**
   * checkDeviceOnChannel(ch): run the select command; when it fails, report
   * false without running i2cdetect; otherwise report whether i2cdetect/grep
   * succeeded.
   */
  function Check(ch: int, r: ChannelReply): Probe
    requires 0 <= ch < 8
  {
    if r.shellSelect != 0 then Probe(false, [Shell(SelectCommand(ch))])
    else Probe(r.shellDetect == 0, [Shell(SelectCommand(ch)), Shell(DETECT_COMMAND)])
  }

  /**
   * The check passes iff both commands succeed; it always starts with the
   * select command for ch, and runs i2cdetect iff that command succeeded.
   */
  lemma CheckDecides(ch: int, r: ChannelReply)
    requires 0 <= ch < 8
    ensures Check(ch, r).found <==> Found(r)
    ensures Check(ch, r).calls[0] == Shell(SelectCommand(ch)) && SelectedBy(Check(ch, r).calls[0]) == Some(ch)
    ensures Shell(DETECT_COMMAND) in Check(ch, r).calls <==> r.shellSelect == 0
  {
    SelectCommandSelects(ch);
    DetectSelectsNothing();
  }

  /** The commands the loop runs for channels from..7. */
  function ScanCalls(rs: seq<ChannelReply>, from: nat): seq<Call>
    requires |rs| == 8 && from <= 8
    decreases 8 - from
  {
    if from == 8 then [] else Check(from, rs[from]).calls + ScanCalls(rs, from + 1)
  }

  lemma ScanCallsStep(rs: seq<ChannelReply>, from: nat)
    requires |rs| == 8 && from < 8
    ensures ScanCalls(rs, from) == Check(from, rs[from]).calls + ScanCalls(rs, from + 1)
  {
  }

  /**
   * The collection loop of main (test_right.cpp), scanf_channel (collect and
   * new_max30102): channels 0..7 in turn, storing those whose check passes.
   * The table is the zero-initialised global or member array and its count.
   */
  method Collect(table: ChannelTable, rs: seq<ChannelReply>) returns (cs: seq<Call>)
    requires |rs| == 8 && table.Valid() && table.count == 0
    modifies table, table.slots
    ensures table.Valid() && table.Contents() == Accepted(FoundFlags(rs))
    ensures cs == ScanCalls(rs, 0)
  {
    cs := [];
    var ch := 0;
    while ch < 8
      invariant 0 <= ch <= 8
      invariant table.Valid() && table.Contents() == Accepted(FoundFlags(rs)[..ch]) && table.count <= ch
      invariant cs + ScanCalls(rs, ch) == ScanCalls(rs, 0)
    {
      ScanCallsStep(rs, ch);
      var step := Visit(table, ch, rs[ch]);
      ConsAssoc(cs, step, ScanCalls(rs, ch + 1));
      cs := cs + step;
      AcceptedSnoc(FoundFlags(rs), ch);
      ch := ch + 1;
    }
    assert FoundFlags(rs)[..8] == FoundFlags(rs);
  }

  /** One iteration of the collection loop: check channel ch and store it when the check passes. */
  method Visit(table: ChannelTable, ch: int, r: ChannelReply) returns (step: seq<Call>)
    requires 0 <= ch < 8 && table.Valid() && table.count <= ch
    modifies table, table.slots
    ensures table.Valid() && table.Contents() == old(table.Contents()) + (if Found(r) then [ch] else [])
    ensures table.count <= ch + 1
    ensures step == Check(ch, r).calls
  {
    var p := Check(ch, r);
    CheckDecides(ch, r);
    if p.found {
      table.Append(ch);
    }
    step := p.calls;
  }

  /** The detect command selects nothing. */
  lemma DetectSelectsNothing()
    ensures SelectedBy(Shell(DETECT_COMMAND)) == None
  {
  }

  /** Every channel from..7 gets its select command, in ascending order, whatever fails on the way. */
  lemma {:induction false} ScanVisits(rs: seq<ChannelReply>, from: nat)
    requires |rs| == 8 && from <= 8
    ensures Visited(ScanCalls(rs, from)) == Channels(from, 8)
    decreases 8 - from
  {
    if from < 8 {
      var p := Check(from, rs[from]);
      ScanVisits(rs, from + 1);
      ObserveAppend(p.calls, ScanCalls(rs, from + 1));
      SelectCommandSelects(from);
      DetectSelectsNothing();
      if rs[from].shellSelect == 0 {
        ObserveAppend([p.calls[0]], [p.calls[1]]);
      }
    }
  }

  function SelectOkFlags(rs: seq<ChannelReply>): seq<bool>
  {
    seq(|rs|, i requires 0 <= i < |rs| => rs[i].shellSelect == 0)
  }

  /** i2cdetect runs exactly once per channel whose select command succeeded. */
  lemma {:induction false} ScanDetects(rs: seq<ChannelReply>, from: nat)
    requires |rs| == 8 && from <= 8
    ensures Detects(ScanCalls(rs, from)) == CountTrue(SelectOkFlags(rs)[from..])
    decreases 8 - from
  {
    if from < 8 {
      var p := Check(from, rs[from]);
      ScanCallsStep(rs, from);
      ScanDetects(rs, from + 1);
      DetectsAppend(p.calls, ScanCalls(rs, from + 1));
      var flags := SelectOkFlags(rs)[from..];
      assert flags[1..] == SelectOkFlags(rs)[from + 1..];
      assert CountTrue(flags) == (if rs[from].shellSelect == 0 then 1 else 0) + CountTrue(flags[1..]);
      if rs[from].shellSelect == 0 {
        assert p.calls == [p.calls[0]] + [p.calls[1]];
        DetectsAppend([p.calls[0]], [p.calls[1]]);
      }
    }
  }

  /** How many times a trace runs the detect command. */
  function Detects(cs: seq<Call>): nat
  {
    if |cs| == 0 then 0 else (if cs[0] == Shell(DETECT_COMMAND) then 1 else 0) + Detects(cs[1..])
  }

  lemma {:induction false} DetectsAppend(a: seq<Call>, b: seq<Call>)
    ensures Detects(a + b) == Detects(a) + Detects(b)
  {
    if |a| > 0 {
      assert (a + b)[1..] == a[1..] + b;
      DetectsAppend(a[1..], b);
    } else {
      assert a + b == b;
    }
  }

  /** The collected list holds at most eight channels, one per passing check. */
  lemma CollectedCount(rs: seq<ChannelReply>)
    requires |rs| == 8
    ensures |Accepted(FoundFlags(rs))| == CountTrue(FoundFlags(rs)) <= 8
  {
    AcceptedLength(FoundFlags(rs));
  }
}
