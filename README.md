# MAX30102 sensor array: a Dafny model of its acquisition, aggregation and server logic

The repository drives a set of MAX30102 pulse-oximetry sensors. Each sensor answers at I2C
address 0x57 behind one of the eight channels of a TCA9548A multiplexer at 0x70. The
repository holds many near-duplicate driver programs, two Qt plot windows with their workers,
a device-side sample-id generator (QRcode.h) and three Go web servers. This project models the
logic under that plumbing and proves what it does.

- **Sensor and bus** (`max30102.dfy`, `i2c_bus.dfy`). This part holds:
  - the register map;
  - the two-byte register-write frame `{reg, value}`;
  - the twelve-write initialisation sequence, with its effect on a register map;
  - the 18-bit FIFO decode in both spellings the drivers use;
  - the select byte `1 << ch`;
  - the `i2cset`/`i2cdetect` command texts.

  The Linux I2C device and `system()` are an oracle. A driver is a function of what the bus
  answered, given as per-channel reply records, and it is observed through the trace of
  `Call` values it issues: open, ioctl, write, read, close, command.
- **Scans** (`channel_scan.dfy`, `shell_scan.dfy`, `probe_scan.dfy`). This part holds:
  - the ascending, skip-on-failure channel scan into an eight-slot array with a count;
  - the round-robin cursor;
  - the shell-command scanner of `use_ful/test_right.cpp`, `collect/max30102.cpp` and
    `new_max30102/use.cpp`;
  - the probing scanner of `i2cset.cpp` and `Qt_new/max30102.cpp`.
- **Driver variants**, one module each. Each has a `class` whose fields are the source's (`fd`,
  `enable_channels`, `count_channel`, the output cells) and whose methods carry loop invariants
  tying the new state and the call trace to specification functions:
  - `root_driver.dfy` (max30102.cpp);
  - `collect_driver.dfy` (collect/max30102.cpp);
  - `qt_new_driver.dfy` (Qt_new);
  - `temp_driver.dfy` (temp_max30102);
  - `channel_problem_driver.dfy` (channel_problem);
  - `qt20_driver.dfy` (Qt_2.0);
  - `plain_driver.dfy` (max30102/max30102.cpp);
  - `use_main.dfy` (new_max30102/use.cpp);
  - `test_main.dfy` (test.cpp);

  The shared read loops are in `read_loop.dfy`.
- **Qt side**. This part holds:
  - the MQTT payload parser and running flag (`mqtt_worker.dfy`);
  - the MaxData packing (`max_data_worker.dfy`);
  - the send arrays that both plot windows fill (`send_buffer.dfy`);
  - the one-second batch window of BeiFen/MaxPlot.cpp (`batch_plot.dfy`);
  - the per-channel red/IR queues, the middle average and the upload split of MaxPlot.cpp
    (`max_plot.dfy`).
- **QRcode.h** (`qrcode.dfy`). This part holds:
  - digit and letter generators, with their random draws as inputs;
  - the shuffle;
  - the `/proc/cpuinfo` serial parse;
  - the time stamp;
  - the sample id and user message;
  - the libcurl write callback;
  - the in-place rasterisation of the QR symbol into a grey buffer.
- **Go servers** (`server.dfy` for main.go, `my_app.dfy` for myapp/main.go, `my_app_inner.dfy` for
  myapp/myapp/main.go):
  - the sample-id and device-id parsing;
  - the channel category;
  - the age;
  - the Bearer check;
  - every handler decision, with the database as a value and each handler as a function to its
    status and the database after its writes.

  What gorm, bcrypt, jwt and uuid would return is a parameter. `collection.dfy` joins the
  device and the server: the sample id the device makes, the server's parse of it, and the
  get_user query.
- `text.dfy` and `wrappers.dfy` hold the shared string helpers (trim, split, prefix,
  numerals) and `Option`.

Programs whose `main` or worker loops forever (`while(1)`) are modelled by one pass of the loop
body. Each such pass is a method proved against a function of the replies, and the pass
functions unfold one visit at a time.

Some behaviours of the code, as the model keeps them:
- A failed select is not retried after the reopen: the scan moves on to the next channel.
- Initialisation ignores the result of every register write.
- A failed FIFO read leaves the outputs as they were; it does not report an error value.
- No variant has degraded-channel thresholds or drop-oldest sink queues.
- Only the `Qt_new`, `test.cpp` and `i2cset.cpp` scans probe the sensor with a one-byte read.
  The shell scanners ask `i2cdetect`. The register-level scans of max30102.cpp, temp_max30102,
  channel_problem, Qt_2.0 and max30102/max30102.cpp accept a channel once the ioctl that sets
  its address succeeds.

## Model

| member | source | states |
|---|---|---|
| Max30102.FrameBytesRoundTrip | collect/max30102.cpp:67-71 | A register write goes out as the two bytes {reg, value}, and reading those two bytes back gives the same register and value. |
| Max30102.InitFrames | collect/max30102.cpp:73-88 | max30102_init is exactly twelve register writes, the first being MODE_CONFIG = 0x40 (reset). It also models max30102.cpp:45-60: the root driver's max30102_init writes the same twelve frames whatever mode it is passed. |
| Max30102.InitFramesDifferOnlyInLeds | Qt_new/max30102.cpp:75-91 | The Qt_new sequence (both LED amplitudes 0x27) differs from the common one (0x24) in the two LED writes, positions 9 and 10, and nowhere else. |
| Max30102.ApplyValue | collect/max30102.cpp:73-88 | After a list of register writes, a register holds its last written value; a register never written keeps its old value. |
| Max30102.ApplyIdempotent | collect/max30102.cpp:73-88 | Applying any list of register writes twice leaves the same register map as applying it once. |
| Max30102.InitIdempotent | collect/max30102.cpp:73-88 | Running the initialisation sequence twice leaves the sensor's registers as running it once. |
| Max30102.InitUpdates | collect/max30102.cpp:75-87 | The initialisation's effect on a register map is the twelve updates in source order. |
| Max30102.InitState | collect/max30102.cpp:73-88 | After initialisation: MODE_CONFIG = 0x03 (the reset value 0x40 is overwritten); FIFO write, overflow and read positions 0; interrupts 0xE0/0x00; FIFO config 0x0F; SpO2 config 0x27; both LEDs at the given amplitude; pilot 0x7F; all other registers unchanged. |
| Max30102.Decode18 | collect/max30102.cpp:154-155 | A decoded sample is at most 0x3FFFF (18 bits). |
| Max30102.Decode18Fields | collect/max30102.cpp:154 | The decoded sample's bits 17-16 are b0 & 3, bits 15-8 are b1 and bits 7-0 are b2. |
| Max30102.MaskAfterEqualsMaskFirst | Qt_new/max30102.cpp:109-110 | Combining the three bytes and then masking with 0x3FFFF gives the same value as masking the high byte with 3 first, on every input. |
| Max30102.DecodeEncode18 | collect/max30102.cpp:154-155 | Every 18-bit value is the decode of its three-byte encoding. |
| Max30102.EncodeDecode18 | collect/max30102.cpp:154-155 | Decoding and re-encoding three bytes gives them back, with the high byte reduced to its two low bits. |
| Max30102.DecodeRecord | collect/max30102.cpp:154-155 | Both the red and the IR value decoded from a six-byte record are at most 0x3FFFF. |
| Max30102.DecodeRecordBytes | collect/max30102.cpp:154-155 | Red comes from bytes 0-2 and IR from bytes 3-5 (red = ((b0&3)<<16)\|(b1<<8)\|b2, ir likewise). |
| Max30102.DecodeRecordVariantsAgree | Qt_new/max30102.cpp:109-110 | The mask-after decode of a six-byte record equals the mask-first decode. |
| I2cBus.Shl1 | collect/max30102.cpp:126 | 1 << ch is at least 1; for channels 0..7 it is 0x01, 0x02, ..., 0x80. |
| I2cBus.SelectMaskOneBit | collect/max30102.cpp:126-127 | The select byte for a channel 0..7 has exactly one bit set and equals 1 << ch, between 1 and 0x80. |
| I2cBus.SelectMaskChannel | collect/max30102.cpp:126-127 | The select byte identifies its channel: decoding it gives the channel back. |
| I2cBus.MaskChannelSelect | collect/max30102.cpp:126-127 | Every byte that decodes to a channel is that channel's select byte. |
| I2cBus.SelectMaskInjective | collect/max30102.cpp:126-127 | Different channels have different select bytes. |
| I2cBus.NarrowFd | collect/max30102.cpp:67 | writeRegister's uint8_t max_fd parameter keeps a descriptor 0..255 and turns -1 into 255. |
| I2cBus.HexDigitValue | collect/max30102.cpp:95 | A hex digit printed by %x reads back as its value. |
| I2cBus.Hex2RoundTrip | collect/max30102.cpp:95 | A byte printed with %02x is two characters that read back as the byte. |
| I2cBus.SelectCommandFormat | collect/max30102.cpp:95 | The select command is "i2cset -y 4 0x70 0x00 0x" followed by 1 << ch in two hex digits. |
| I2cBus.SelectTextMask | use_ful/test_right.cpp:21 | The characters after the command's fixed prefix read back as the mask. |
| I2cBus.CommandTextSelects | collect/max30102.cpp:95-103 | The command text selects exactly the channel the command stands for; the detect command selects none. |
| I2cBus.CommandTextInjective | collect/max30102.cpp:95-103 | Different commands have different texts. |
| I2cBus.SelectCommandInjective | collect/max30102.cpp:95 | Different channels give different select commands and command texts. |
| I2cBus.FrameCalls | collect/max30102.cpp:67-71 | A list of register writes issues one write call per frame. |
| I2cBus.FrameCallsRoundTrip | collect/max30102.cpp:67-71 | The frames read off the calls written for a frame list are that list. |
| I2cBus.FrameCallsAt | collect/max30102.cpp:69-70 | Call j is the write of frame j's two bytes to the handle. |
| I2cBus.InitCalls | collect/max30102.cpp:73-88 | max30102_init issues twelve write calls. |
| I2cBus.InitCallsFrames | collect/max30102.cpp:73-88 | The frames written by max30102_init are the twelve initialisation frames, in order. |
| I2cBus.InitCallsElements | collect/max30102.cpp:75-87 | Write j of max30102_init carries frame j of the sequence. |
| I2cBus.InitI2c | collect/max30102.cpp:158-174 | init_i2c returns a handle other than -1 exactly when open succeeds and the address is set, and then the opened handle; it always opens first, sets the address after a successful open, and closes exactly when the address cannot be set. It also models new_max30102/use.cpp:80-97: the same init_i2c: -1 when open fails, close and -1 when the address cannot be set, otherwise the handle. |
| I2cBus.InitI2cObserved | collect/max30102.cpp:158-174 | init_i2c opens the bus exactly once and selects no channel and writes no frame. |
| I2cBus.ReadFifo | collect/max30102.cpp:141-156 | read_fifo writes the FIFO data register address first; only when that write moves 1 byte does it read 6 bytes; only when both succeed are the outputs the decoded record, otherwise both are left untouched. |
| I2cBus.ReadFifoBound | collect/max30102.cpp:154-155 | Outputs that were 18-bit values stay 18-bit values after read_fifo. |
| I2cBus.ReadRunAllFail | temp_max30102/max30102.cpp:82-95 | When every read fails, a run of read_fifo calls leaves the temporaries as they were. |
| I2cBus.ReadRunKeepsLastGood | temp_max30102/max30102.cpp:105-118 | After a run of reads, the temporaries hold the last successful read's values. |
| I2cBus.ReadRunBound | temp_max30102/max30102.cpp:105-118 | A run of reads keeps 18-bit temporaries 18-bit. |
| I2cBus.ReadRunCalls | temp_max30102/max30102.cpp:82-95 | Reads select no channel, write no register frame and open nothing. |
| ChannelScan.Accepted | collect/max30102.cpp:90-114 | The scan lists no more channels than it visits. |
| ChannelScan.AcceptedExactly | collect/max30102.cpp:92-108 | A channel is listed exactly when it passed its checks, and the list is strictly ascending. |
| ChannelScan.AcceptedSnoc | collect/max30102.cpp:105-108 | Visiting channel i appends i to the list exactly when it passes, after every earlier channel. |
| ChannelScan.AcceptedPrefix | collect/max30102.cpp:92-114 | The list after the first i channels is a prefix of the final list: a failing channel never removes or stops anything. |
| ChannelScan.CountTrueFull | collect/max30102.cpp:92-108 | The number of passing channels is at most the number visited, with equality exactly when all pass. |
| ChannelScan.AcceptedLength | collect/max30102.cpp:107 | count_channel equals the number of passing channels. |
| ChannelScan.ChannelTable.constructor | max30102.h:61-63 | An empty channel list: eight int slots and a count of 0. |
| ChannelScan.ChannelTable.Append | collect/max30102.cpp:107 | enable_channels[count_channel++] = i: the list grows by i and the count by one. |
| ChannelScan.ChannelTable.Get | max30102.cpp:127 | Reading slot i of the list gives entry i. |
| ChannelScan.Advance | max30102.cpp:129-131 | The round-robin cursor stays in 0..n-1 when it advances. |
| ChannelScan.CursorAfter | max30102.cpp:127-137 | After k advances from 0 the cursor is in 0..n-1. |
| ChannelScan.CursorCycles | max30102.cpp:127-137 | After k advances from 0 the cursor is k mod n. |
| ShellScan.CheckDecides | use_ful/test_right.cpp:17-45 | checkDeviceOnChannel is true exactly when both shell commands return 0; the first command selects the channel; the detect command runs exactly when the select command succeeded. |
| ShellScan.Collect | use_ful/test_right.cpp:50-57 | The collected channels are exactly those whose two commands succeed, in ascending order, and the commands issued are those of the scan. It also models collect/max30102.cpp:90-114: scanf_channel lists the channels whose i2cset and i2cdetect commands both succeed, ascending. It also models new_max30102/use.cpp:50-72: use.cpp's scanf_channel lists the same channels in the same order. |
| ShellScan.Visit | use_ful/test_right.cpp:53-56 | One channel of the scan appends it exactly when its check passes, and issues that check's commands. |
| ShellScan.ScanVisits | use_ful/test_right.cpp:50-57 | The scan selects channels 0..7, each once, in ascending order, whatever fails. |
| ShellScan.ScanDetects | use_ful/test_right.cpp:24-35 | The detect command runs once per channel whose select command succeeded. |
| ShellScan.CollectedCount | use_ful/test_right.cpp:50-57 | The count is the number of channels found, at most 8. |
| RootDriver.StepObserved | max30102.cpp:15-37 | One channel of the constructor scan selects that channel and no other, writes the twelve initialisation frames exactly when the channel is listed, and opens the bus again exactly when its select byte fails. |
| RootDriver.ScanVisits | max30102.cpp:15-37 | The constructor selects channels 0..7, each once, in ascending order; no failure stops the scan. |
| RootDriver.ScanFrames | max30102.cpp:32-36 | The scan writes the initialisation sequence once per listed channel and no other frame. |
| RootDriver.ScanOpens | max30102.cpp:18-27 | The scan reopens the bus once per failed select byte. |
| RootDriver.ScanStepSelects | max30102.cpp:17-18 | A channel's only select byte is the first call of its step, 1 << ch written to the current handle. |
| RootDriver.ListedStepTargetsSensor | max30102.cpp:28-36 | A listed channel keeps the handle and leaves it addressed to the sensor (0x57): max30102_init's writes change no address. |
| RootDriver.PreJobMisdirects | max30102.cpp:127-137 | As written, the second of two PreJob calls writes its select byte while the handle is addressed to the sensor, so the multiplexer never sees it. |
| RootDriver.ScanMisdirects | max30102.cpp:28-36 | As written, after a listed channel the scan's next select byte also goes to the sensor. |
| RootDriver.RetargetedPreJobsReachMux | max30102.cpp:127-137 | With the handle pointed back at 0x70 before each select byte, every PreJob's select byte reaches the multiplexer, for any channel sequence. |
| RootDriver.RetargetedScanReachesMux | max30102.cpp:15-37 | The same correction makes every select byte of the scan reach the multiplexer. |
| RootDriver.Driver.constructor | max30102.cpp:3-38 | The constructor lists exactly the channels whose select byte went out and whose sensor address was accepted, in ascending order; the handle and calls are those of the open followed by the scan; cursor and current channel start at 0. |
| RootDriver.Driver.Scan | max30102.cpp:15-37 | The scan loop fills the channel list with the passing channels in ascending order and leaves the handle the scan function gives. |
| RootDriver.Driver.Visit | max30102.cpp:17-36 | One loop iteration: a failed select closes, reopens and re-targets the handle; a refused sensor address skips the channel; otherwise the channel is appended and initialised. |
| RootDriver.Driver.Init | max30102.cpp:45-60 | max30102_init writes the twelve frames to the driver's handle whatever mode it is given. |
| RootDriver.Driver.PreJob | max30102.cpp:127-137 | PreJob selects the channel at the cursor, advances the cursor cyclically (back to 0 after the last listed channel), writes 1 << channel and addresses the sensor. |
| RootDriver.Driver.RetargetedPreJob | max30102.cpp:127-137 | The corrected PreJob: the same cursor behaviour, with the handle addressed to 0x70 before the select byte. |
| RootDriver.Driver.DoJob | max30102.cpp:139-147 | DoJob's outputs are the decoded record when the read succeeds; on a failed read they are the uninitialised temporaries, given as an input. |
| CollectDriver.Reach | collect/max30102.cpp:283-293 | Reaching a channel's sensor: the handle is valid exactly when the select byte moved one byte and init_i2c(0x57) succeeded, and is then the opened handle; after a failed select, max30102_fd keeps its old value. |
| CollectDriver.ReachSelects | collect/max30102.cpp:283-288 | Reaching a sensor selects that channel only and writes no register frame. |
| CollectDriver.SensorStepCalls | collect/max30102.cpp:123-138 | One iteration of init_channel_sensor appends that channel's calls to the trace. |
| CollectDriver.SensorCallsObserved | collect/max30102.cpp:123-138 | init_channel_sensor selects the listed channel and writes the initialisation sequence exactly when its sensor is reached. |
| CollectDriver.SensorsFromStep | collect/max30102.cpp:123-138 | The loop over listed channels peels off one channel at a time. |
| CollectDriver.SensorsVisit | collect/max30102.cpp:123-138 | init_channel_sensor selects the listed channels in list order. |
| CollectDriver.SensorsFrames | collect/max30102.cpp:123-138 | It writes the twelve initialisation frames once per reached sensor and no other frame. |
| CollectDriver.BranchFrom | collect/max30102.cpp:275-313 | get_branch_data leaves both eight-slot arrays eight slots long. |
| CollectDriver.BranchKeeps | collect/max30102.cpp:280-281 | A middle channel (0, 2, 4, 6), and a slot of no listed channel, keeps its old red and IR value. |
| CollectDriver.BranchPlaces | collect/max30102.cpp:295-298 | A listed odd channel whose sensor is reached and read holds, at index channel, the red and IR values decoded from its record. |
| CollectDriver.BranchBound | collect/max30102.cpp:295-298 | When the arrays and temporaries start as 18-bit values, every slot stays an 18-bit value. |
| CollectDriver.MiddleStep | collect/max30102.cpp:319-337 | One middle channel's effect on the locals is AccStep: nothing when the sensor is not reached, otherwise one read_fifo into the temporaries, then both added to the sums. |
| CollectDriver.MiddleAcc | collect/max30102.cpp:319-337 | The middle loop's temporaries and sums are those of the four channel steps. |
| CollectDriver.AccBound | collect/max30102.cpp:334-335 | After the four middle channels the sums are at most four 18-bit samples, so they never wrap. |
| CollectDriver.AccStepBound | collect/max30102.cpp:332-335 | Each middle channel adds at most one 18-bit sample to each sum. |
| CollectDriver.AddBound | collect/max30102.cpp:334 | Adding an 18-bit sample to a sum of k samples gives at most k + 1 samples' worth, without wrap-around. |
| CollectDriver.MiddleAverageBound | collect/max30102.cpp:338-339 | The averaged outputs red_sum / 4 and ir_sum / 4 are at most 0x3FFFF. |
| CollectDriver.QuarterBound | collect/max30102.cpp:338-339 | A sum of at most four 18-bit samples divided by 4 is an 18-bit value. |
| CollectDriver.AccUnfold | collect/max30102.cpp:319-337 | The middle loop visits channels 0, 2, 4, 6 in that order. |
| CollectDriver.MiddleAllGood | collect/max30102.cpp:319-339 | When all four middle channels are reached and read, the sums are the uint32_t sums of their four samples. |
| CollectDriver.MiddleDividesByFour | collect/max30102.cpp:338-339 | The sum is divided by 4 even when fewer channels contributed: with only channel 0 reached, the output is its sample / 4. |
| CollectDriver.MiddleNoneReached | collect/max30102.cpp:317-339 | When no middle sensor is reached, the temporaries stay 0 and both sums are 0. |
| CollectDriver.Driver.constructor | collect/max30102.cpp:54-60 | The constructor opens the multiplexer handle, lists exactly the channels whose two shell commands succeed in ascending order, and initialises each listed sensor; max30102_fd and the trace are those of the three steps. |
| CollectDriver.Driver.InitChannelSensor | collect/max30102.cpp:121-139 | init_channel_sensor's handle and calls are those of the listed-channel loop. |
| CollectDriver.Driver.InitOne | collect/max30102.cpp:125-137 | One iteration: select the channel; on one byte moved, init_i2c(0x57); on success, max30102_init. |
| CollectDriver.Driver.GetBranchData | collect/max30102.cpp:275-313 | The arrays, max30102_fd and the trace after get_branch_data are those of the listed-channel loop. |
| CollectDriver.Driver.BranchOne | collect/max30102.cpp:280-311 | One iteration of get_branch_data, as BranchStep. |
| CollectDriver.Driver.GetMiddleData | collect/max30102.cpp:315-339 | get_middle_data outputs red_sum / 4 and ir_sum / 4 of the middle loop, and leaves its handle and calls. |
| CollectDriver.Driver.MiddleOne | collect/max30102.cpp:321-336 | One iteration of the middle loop, as MiddleStep. |
| CollectDriver.SensorsFromPrefix | collect/max30102.cpp:121-139 | The loop's calls after a history are that history followed by the loop's own calls. |
| ProbeScan.CheckDecides | i2cset.cpp:14-53 | checkDeviceOnChannel is true exactly when the select command returns 0, open gives a handle, the sensor address is accepted and the one-byte read does not fail; it always starts with the select command of that channel and reads only through a handle whose address was accepted. |
| ProbeScan.CheckBalanced | i2cset.cpp:27-52 | A probe opens the bus once when its select command succeeded, and closes exactly once every handle it opened, as its last call. |
| ProbeScan.AfterSelectBalanced | i2cset.cpp:38-51 | After a successful select command: one open, and one close exactly when open gave a handle. |
| ProbeScan.PassingBalanced | i2cset.cpp:44-48 | A passing probe opens once and closes once. |
| ProbeScan.FrameCallsCloseNothing | Qt_new/max30102.cpp:55 | Initialising the sensor closes no handle. |
| ProbeScan.PassingObserved | Qt_new/max30102.cpp:49-58 | A passing probe selects nothing further and writes exactly the given frames. |
| ProbeScan.CheckObserved | Qt_new/max30102.cpp:20-59 | A probe selects its channel only, and writes the frames exactly when it passes. |
| ProbeScan.Collect | i2cset.cpp:55-64 | main stores exactly the detected channels, in ascending order; the calls are those of the eight probes. It also models Qt_new/max30102.cpp:20-59: the Qt_new constructor loop lists exactly the channels whose four probe steps succeed, ascending. |
| ProbeScan.Visit | i2cset.cpp:57-64 | One channel: appended exactly when its probe passes, with that probe's calls. |
| ProbeScan.ScanVisits | i2cset.cpp:57-64 | The scan selects channels 0..7, each once, ascending, whatever fails. |
| ProbeScan.ScanFrames | Qt_new/max30102.cpp:51-56 | The scan writes the frames once per detected channel and no other frame. |
| ProbeScan.ScanBalanced | i2cset.cpp:27-52 | Over the whole scan, opens equal the channels whose select command succeeded and closes equal the handles actually opened. |
| ProbeScan.ListedExactly | i2cset.cpp:57-64 | The stored channels are exactly the detected ones, with no duplicates, and at most 8. |
| QtNewDriver.QtInitDiffers | Qt_new/max30102.cpp:75-91 | This variant's initialisation differs from the common one only in the two LED writes, which carry 0x27. |
| QtNewDriver.ScanLeavesCursorPastList | Qt_new/max30102.cpp:54 | After the scan the shared counter count_channel equals the number of listed channels; it is 8 exactly when every probe passed. |
| QtNewDriver.TwoSensorsExample | Qt_new/max30102.cpp:119-130 | With sensors on channels 0 and 1 the list is [0, 1] and the counter is 2, so the first PreJob reads slot 2, which the scan never wrote. |
| QtNewDriver.EndsAddressed | Qt_new/max30102.cpp:66-67 | After the final open and ioctl the handle is addressed to the multiplexer. |
| QtNewDriver.Driver.constructor | Qt_new/max30102.cpp:17-68 | The constructor lists exactly the passing channels in ascending order, initialising each with LED amplitude 0x27 through the probing handle; it leaves the counter at the list's length and ends with a new handle addressed to 0x70. |
| QtNewDriver.Driver.Probe | Qt_new/max30102.cpp:20-67 | The scan loop and the final open and ioctl, with the same results. |
| QtNewDriver.Driver.ResetCursor | Qt_new/max30102.cpp:121-123 | The corrected start: the cursor names the first listed slot. |
| QtNewDriver.Driver.PreJob | Qt_new/max30102.cpp:119-130 | PreJob reads the channel at the cursor, advances the cursor and resets it to 0 after the last listed channel, writes 1 << channel and addresses the sensor. |
| QtNewDriver.Driver.DoJob | Qt_new/max30102.cpp:132-141 | DoJob's outputs are the mask-after decode of the record on a successful read, and the uninitialised temporaries otherwise. |
| ReadLoop.ReadRunAppend | temp_max30102/max30102.cpp:112-118 | Reads split at any point: the second part starts from the temporaries the first left, and the calls concatenate. |
| ReadLoop.ReadRunSnoc | temp_max30102/max30102.cpp:112-118 | Read j + 1 continues from what the first j reads left. |
| ReadLoop.Burst | temp_max30102/max30102.cpp:112-118 | n read_fifo calls into the same temporaries, each followed by a copy to the outputs: the temporaries and calls are those of the run, and the outputs equal the temporaries unless no read was made. |
| ReadLoop.ReadRunRequests | temp_max30102/max30102.cpp:112-114 | A run of n reads makes exactly n read requests. |
| ReadLoop.SelectNotRequest | temp_max30102/max30102.cpp:107-108 | A select byte is not a read request. |
| ReadLoop.FramesNotRequests | temp_max30102/max30102.cpp:49-68 | Register writes are not read requests. |
| ReadLoop.SelectThenObserved | temp_max30102/max30102.cpp:107-118 | Selecting a channel and addressing the sensor before a tail of calls adds that channel to the selected ones and nothing else. |
| ReadLoop.SelectThenTargetsSensor | temp_max30102/max30102.cpp:107-110 | After the select byte and the ioctl, the handle is addressed to the sensor when the tail sets no address. |
| ReadLoop.InitRunSetsNoAddress | Qt_2.0/max30102.cpp:92-105 | Initialising a sensor and reading it set no slave address. |
| ReadLoop.AnyReachedExists | Qt_2.0/max30102.cpp:74-105 | Some channel among the first k was reached exactly when one of their attempts was. |
| ReadLoop.ReadRunSetsNoAddress | temp_max30102/max30102.cpp:112-118 | Reads set no slave address. |
| ReadLoop.ReadRunSplit | temp_max30102/max30102.cpp:112-118 | A run of reads: its outputs are RunOut of the replies and its calls are RunCalls, computed separately. |
| ReadLoop.RunCallsObserved | temp_max30102/max30102.cpp:112-118 | A run of n reads selects nothing, writes no frame, opens nothing, sets no address and makes n read requests. |
| ReadLoop.PrintedAt | max30102/max30102.cpp:89-95 | The j-th printed pair is read j's decoded record when it succeeded, else the pair printed before it (the starting temporaries for j = 0). |
| ReadLoop.PrintedLength | max30102/max30102.cpp:89-95 | One pair is printed per read. |
| ReadLoop.PrintedLast | max30102/max30102.cpp:89-95 | The last printed pair is what the temporaries end with. |
| ReadLoop.ReadPrinting | max30102/max30102.cpp:89-95 | The read loop that only prints: the temporaries, the printed pairs and the calls are those of the reads. |
| TempDriver.ScanStep | temp_max30102/max30102.cpp:16-40 | A failed select byte replaces the handle with a new one, -1 exactly when the open or the multiplexer ioctl fails; a successful one keeps the handle. |
| TempDriver.AfterSelectObserved | temp_max30102/max30102.cpp:17-40 | After the select byte: one open exactly on a failed select; the initialisation frames exactly on a listed channel. |
| TempDriver.StepObserved | temp_max30102/max30102.cpp:14-41 | One channel of the scan selects that channel only, reopens after a failed select, and initialises a listed channel. |
| TempDriver.ScanVisits | temp_max30102/max30102.cpp:14-41 | The constructor selects channels 0..7, each once, ascending. |
| TempDriver.ScanOpens | temp_max30102/max30102.cpp:17-29 | The scan opens the bus once per failed select byte. |
| TempDriver.ScanFrames | temp_max30102/max30102.cpp:34-37 | The scan writes the initialisation sequence once per listed channel, and no other frame. |
| TempDriver.ScanKeepsHandle | temp_max30102/max30102.cpp:14-41 | While every select byte goes out, the scan keeps the handle it started with. |
| TempDriver.LastReopen | temp_max30102/max30102.cpp:19-27 | A failed select byte on the last channel leaves the reopened handle, which is -1 exactly when open or the multiplexer ioctl failed. |
| TempDriver.PassStepObserved | temp_max30102/max30102.cpp:105-118 | One listed channel of get_data selects it and makes as many read attempts as it is given replies. |
| TempDriver.PassObserved | temp_max30102/max30102.cpp:105-118 | One pass selects the listed channels in list order and makes 50 read attempts on each. |
| TempDriver.PassBound | temp_max30102/max30102.cpp:94-95 | A pass keeps 18-bit temporaries 18-bit. |
| TempDriver.ReadListed | temp_max30102/max30102.cpp:105-119 | The pass loop: temporaries and calls are those of the pass; the outputs equal the last temporaries unless the list is empty. |
| TempDriver.ReadChannel | temp_max30102/max30102.cpp:107-118 | One listed channel of the pass: select, address, 50 reads, and the outputs end equal to the temporaries. |
| TempDriver.Driver.constructor | temp_max30102/max30102.cpp:3-42 | The constructor opens and addresses the multiplexer (-1 on failure), then lists exactly the channels whose select byte went out and whose address was accepted, ascending; its handle and calls are those of the scan. |
| TempDriver.Driver.Scan | temp_max30102/max30102.cpp:14-41 | The scan loop, with the same list, handle and calls. |
| TempDriver.Driver.Visit | temp_max30102/max30102.cpp:16-40 | One iteration: reopen on a failed select, skip on a refused address, otherwise initialise and then append. |
| TempDriver.Driver.GetDataPass | temp_max30102/max30102.cpp:105-119 | One pass of get_data's endless loop over the listed channels, with 50 reads each. |
| ChannelProblemDriver.ScanStep | channel_problem/max30102.cpp:9-34 | An iteration keeps its fresh handle when the select byte goes out; after a failed select the new handle is -1 exactly when the reopen or its multiplexer ioctl failed. |
| ChannelProblemDriver.ScanFromStep | channel_problem/max30102.cpp:7-35 | The scan is its first iteration followed by the scan of the remaining channels from the handle that iteration left. |
| ChannelProblemDriver.LastChannelDecides | channel_problem/max30102.cpp:7-35 | The handle the constructor keeps is the one channel 7's iteration left: every iteration overwrites it. |
| ChannelProblemDriver.AfterSelectObserved | channel_problem/max30102.cpp:13-34 | After the select byte: no channel selected, one open exactly on a failed select, the initialisation frames exactly on a listed channel. |
| ChannelProblemDriver.StepObserved | channel_problem/max30102.cpp:9-34 | An iteration selects only its channel, opens once plus once more on a failed select, and initialises a listed channel. |
| ChannelProblemDriver.ScanVisits | channel_problem/max30102.cpp:7-35 | The constructor selects channels 0..7, each once, ascending. |
| ChannelProblemDriver.ScanOpens | channel_problem/max30102.cpp:10-16 | The scan opens the bus 8 times plus once per failed select byte. |
| ChannelProblemDriver.ScanFrames | channel_problem/max30102.cpp:26-34 | The scan writes the initialisation sequence once per listed channel, and no other frame. |
| ChannelProblemDriver.StepSelects | channel_problem/max30102.cpp:10-13 | An iteration's only select byte is its third call, right after its fresh handle is addressed to the multiplexer. |
| ChannelProblemDriver.ScanReachesMux | channel_problem/max30102.cpp:7-35 | Every select byte of the scan is written on a handle last addressed to the multiplexer, whatever the bus answers. |
| ChannelProblemDriver.ChannelObserved | channel_problem/max30102.cpp:101-123 | One channel of get_data selects that channel and makes 20 read requests exactly when the select and the sensor address succeed. |
| ChannelProblemDriver.PassStepObserved | channel_problem/max30102.cpp:101-123 | A channel step appends its channel to the selected ones and its read requests to the count. |
| ChannelProblemDriver.PassObserved | channel_problem/max30102.cpp:101-123 | The rest of the pass selects the remaining hard-coded channels in order, 20 requests per reached channel. |
| ChannelProblemDriver.GetDataPassObserved | channel_problem/max30102.cpp:94-124 | One pass selects channels 1, 2 and 3, whatever was listed, and makes 20 read requests per reached channel. |
| ChannelProblemDriver.PassMisdirects | channel_problem/max30102.cpp:101-116 | Once channel 1 is reached, the handle stays addressed to the sensor, so channel 2's select byte does not reach the multiplexer. |
| ChannelProblemDriver.PassExtends | channel_problem/max30102.cpp:101-124 | The rest of a pass only appends calls. |
| ChannelProblemDriver.Driver.constructor | channel_problem/max30102.cpp:3-37 | The constructor lists exactly the channels whose select byte went out and whose sensor address was accepted, ascending; its handle and calls are those of the scan. |
| ChannelProblemDriver.Driver.Scan | channel_problem/max30102.cpp:7-35 | The constructor loop, with the same list, handle and calls. |
| ChannelProblemDriver.Driver.Visit | channel_problem/max30102.cpp:9-34 | One iteration appends its channel exactly when listed; handle and calls are those of the step. |
| ChannelProblemDriver.Driver.GetData | channel_problem/max30102.cpp:91-124 | get_data up to the end of one pass: a new handle, the pass's temporaries and calls, and outputs that take the temporaries exactly when some channel was reached, else keep their old values. |
| ChannelProblemDriver.ReadFixed | channel_problem/max30102.cpp:101-123 | The pass loop: temporaries and calls are those of the pass; the outputs change exactly when some channel was reached. |
| Qt20Driver.FailedRetargetKeepsClosedHandle | Qt_2.0/max30102.cpp:83-89 | When the reopened handle refuses the multiplexer's address it is closed but kept (no -1, unlike the constructor). |
| Qt20Driver.PassFromStep | Qt_2.0/max30102.cpp:74-106 | get_data's loop is its first channel followed by the remaining channels on the handle that channel left. |
| Qt20Driver.InitBeforeReads | Qt_2.0/max30102.cpp:97-105 | On a reached channel the first 14 calls (the select byte, the sensor address and the twelve initialisation writes) carry exactly the initialisation frames and no read request; the 20 read requests all come after them, with no further frame. |
| Qt20Driver.ChannelObserved | Qt_2.0/max30102.cpp:76-105 | One channel selects itself, reopens exactly on a failed select, initialises and makes 20 read requests exactly when reached. |
| Qt20Driver.ChannelFrames | Qt_2.0/max30102.cpp:92-97 | A channel writes the initialisation sequence exactly when reached. |
| Qt20Driver.FailObserved | Qt_2.0/max30102.cpp:80-90 | A failed select selects its channel once, opens once, writes no frame and reads nothing. |
| Qt20Driver.ReopenObserved | Qt_2.0/max30102.cpp:82-89 | The close-and-reopen selects nothing, opens once, writes no frame and reads nothing. |
| Qt20Driver.ReadObserved | Qt_2.0/max30102.cpp:92-105 | A reached channel selects itself, opens nothing, writes the initialisation frames and makes one request per read. |
| Qt20Driver.PassObserved | Qt_2.0/max30102.cpp:74-106 | get_data selects channels 0..7 ascending and makes 20 read requests per reached channel. |
| Qt20Driver.PassOpens | Qt_2.0/max30102.cpp:80-90 | get_data opens the bus once per failed select byte. |
| Qt20Driver.PassFrames | Qt_2.0/max30102.cpp:92-97 | get_data re-initialises every reached sensor, once per pass. |
| Qt20Driver.PassKeepsHandle | Qt_2.0/max30102.cpp:74-106 | While every select byte goes out, get_data keeps the handle. |
| Qt20Driver.PassOutUnreached | Qt_2.0/max30102.cpp:92-105 | If no channel is reached the temporaries are unchanged. |
| Qt20Driver.Driver.constructor | Qt_2.0/max30102.cpp:3-14 | The constructor opens and addresses the multiplexer; the handle is -1 exactly when either fails. |
| Qt20Driver.Driver.GetData | Qt_2.0/max30102.cpp:69-107 | get_data: the handle and calls are those of the 8-channel pass, the temporaries are its outputs, and the outputs change exactly when some channel was reached. |
| Qt20Driver.Driver.Visit | Qt_2.0/max30102.cpp:76-105 | One channel: handle and calls of the step; temporaries and outputs updated exactly when reached. |
| PlainDriver.ChannelObserved | max30102/max30102.cpp:80-95 | One channel selects itself, opens nothing, initialises exactly when reached, and makes one read request per read exactly when reached. |
| PlainDriver.ChannelFrames | max30102/max30102.cpp:85-89 | A channel writes the initialisation sequence exactly when reached. |
| PlainDriver.SweepVisits | max30102/max30102.cpp:78-96 | One sweep selects channels 0..7 ascending and never reopens the bus. |
| PlainDriver.SweepFrames | max30102/max30102.cpp:85-89 | One sweep re-initialises every reached sensor, once each. |
| PlainDriver.SweepFramesStep | max30102/max30102.cpp:78-96 | The frames of a sweep are those of its first channel followed by those of the rest. |
| PlainDriver.SweepRequests | max30102/max30102.cpp:90-95 | One sweep makes 30 read requests per reached channel. |
| PlainDriver.SweepPrintedLength | max30102/max30102.cpp:90-95 | One sweep prints 30 pairs per reached channel. |
| PlainDriver.ReachedMisdirectsNext | max30102/max30102.cpp:81-89 | A reached channel other than the last leaves the handle addressed to the sensor, so the next select byte does not reach the multiplexer. |
| PlainDriver.SweepUnfold | max30102/max30102.cpp:78-96 | A sweep is its first channel's calls, temporaries and printed pairs followed by the rest of the sweep. |
| PlainDriver.Driver.constructor | max30102/max30102.cpp:3-15 | The constructor opens and addresses the multiplexer; the handle is -1 exactly when either fails. |
| PlainDriver.Driver.GetData | max30102/max30102.cpp:71-97 | One sweep of get_data's endless loop: its calls, its final temporaries and the pairs it prints. |
| PlainDriver.Driver.Visit | max30102/max30102.cpp:80-95 | One channel: its calls; temporaries and printed pairs from the reads exactly when reached. |
| UseMain.LineDecodes | new_max30102/use.cpp:145-151 | finger_near_read prints a decoded record exactly when its read worked; otherwise the printed locals are indeterminate. |
| UseMain.RoundObserved | new_max30102/use.cpp:183-200 | One visit selects its channel, writes no frame, and opens a sensor handle exactly when the select byte went out. |
| UseMain.RoundRequests | new_max30102/use.cpp:189-200 | One visit makes one read request per read exactly when its sensor handle was opened and addressed. |
| UseMain.ReachedRoundLeaks | new_max30102/use.cpp:189-200 | A reached visit opens a sensor handle and closes none: every visit leaks one handle. |
| UseMain.SweepObserved | new_max30102/use.cpp:181-201 | One sweep selects the listed channels in list order, writes no frame and opens once per select byte that went out. |
| UseMain.SweepRequests | new_max30102/use.cpp:181-201 | One sweep makes 50 read requests per reached channel. |
| UseMain.SweepLinesLength | new_max30102/use.cpp:196-200 | One sweep prints 50 lines per reached channel. |
| UseMain.ReadLines | new_max30102/use.cpp:196-200 | The 50-read loop: its printed lines and calls are those of the replies. |
| UseMain.ReadRound | new_max30102/use.cpp:183-200 | One visit of the sweep: its lines and calls are those of the round. |
| UseMain.InitLedWrites | new_max30102/use.cpp:120-121 | The two LED amplitude writes go to registers 0x0C and 0x0D with 0x24. |
| UseMain.InitRound | new_max30102/use.cpp:164-177 | One iteration of the initialisation loop is the collect driver's sensor step: select, open and address a sensor handle, initialise through it. |
| UseMain.InitLoop | new_max30102/use.cpp:162-178 | The initialisation loop's calls are those of the sensor steps over the listed channels. |
| UseMain.InitStepAppends | new_max30102/use.cpp:162-178 | A sensor step only appends to the calls before it. |
| UseMain.ReadSweep | new_max30102/use.cpp:181-201 | One sweep of the endless loop: its lines and calls are those of the sweep function. |
| UseMain.Run | new_max30102/use.cpp:153-205 | main returns -1 exactly when the multiplexer cannot be opened and addressed; otherwise it lists the channels the shell scan found, initialises them and makes one sweep, with exactly those calls and lines. |
| TestMain.WriteRegister | test.cpp:31-37 | writeRegister sends the two bytes {reg, value} on the handle and reports success exactly when write moved both. |
| TestMain.InitIgnoresReports | test.cpp:31-37 | writeRegister reports success exactly when two bytes moved; max30102_init ignores the reports and issues the twelve writes whatever they say. |
| TestMain.ReopenUnchecked | test.cpp:100-106 | After a failed select the reopen is unchecked: a failed open still has the multiplexer's address set on handle -1. |
| TestMain.ReopenObserved | test.cpp:102-104 | The reopen selects nothing, writes no frame, opens once and reads nothing. |
| TestMain.ScanFromStep | test.cpp:96-120 | The scan is its first channel followed by the remaining channels on the handle that channel left. |
| TestMain.AfterSelectObserved | test.cpp:100-119 | After the select byte: one open exactly on a failed select, and the initialisation frames exactly on a listed channel. |
| TestMain.StepObserved | test.cpp:96-120 | One scanned channel selects only itself, opens once on a failed select, and initialises a listed channel. |
| TestMain.ScanVisits | test.cpp:96-120 | The scan selects channels 0..7, each once, ascending. |
| TestMain.ScanOpens | test.cpp:100-106 | The scan opens the bus once per failed select byte. |
| TestMain.ScanFrames | test.cpp:113-118 | The scan writes the initialisation sequence once per listed channel. |
| TestMain.Target | test.cpp:125 | The channel whose select byte is written is in 0..7. |
| TestMain.LoopFromStep | test.cpp:121-145 | The read loop is its first slot followed by the remaining slots on the handle that slot left. |
| TestMain.LoopStepObserved | test.cpp:125-144 | One slot selects one channel, reopens on a failed select, writes no frame and makes one request per read when reached. |
| TestMain.LoopVisitsAsWritten | test.cpp:125-126 | As written, every slot of the read loop selects channel 1, whatever channel it lists. |
| TestMain.LoopVisitsPerChannel | test.cpp:121-126 | Selecting each slot's own channel would visit the listed channels in list order. |
| TestMain.OnlyChannelZeroListed | test.cpp:121-126 | With only channel 0 listed, the code selects channel 1 while the listed channel is 0. |
| TestMain.LoopOpens | test.cpp:126-132 | The read loop opens the bus once per failed select byte. |
| TestMain.LoopRequests | test.cpp:139-144 | The read loop makes 20 read requests per reached slot. |
| TestMain.LoopLinesShape | test.cpp:139-144 | The read loop prints 20 lines per reached slot, each labelled with a listed channel. |
| TestMain.LoopLinesStep | test.cpp:121-145 | The printed lines are the first slot's lines followed by the rest, from the temporaries the first slot left. |
| TestMain.Program.constructor | test.cpp:29 | The globals start with handle 0, no calls and an empty channel list. |
| TestMain.Program.Run | test.cpp:80-148 | main returns -1 (no list, no lines) when open fails or the multiplexer's address is refused, and 0 otherwise, after listing exactly the accepted channels and running the read loop over them, with exactly those calls and lines. |
| TestMain.Program.Proceed | test.cpp:96-145 | The scan followed by the read loop over the listed slots. |
| TestMain.Program.Scan | test.cpp:96-120 | The scan loop lists exactly the accepted channels, ascending, with the scan's handle and calls. |
| TestMain.Program.ScanVisit | test.cpp:98-119 | One scanned channel is appended exactly when listed. |
| TestMain.Program.ReadAll | test.cpp:121-145 | The read loop over the listed slots, with the loop's handle, calls and lines. |
| TestMain.Program.LoopVisit | test.cpp:123-144 | One slot: the select byte for channel 1, then the reads, printed labelled with the slot's channel. |
| MqttWorker.Entry | BeiFen/MQTTWorker.cpp:40-96 | A part yields an entry only when it splits on ':' into exactly two pieces whose trimmed key is channel, ir or red; the value is a 32-bit int (0 when toInt fails). |
| MqttWorker.Payload | BeiFen/MQTTWorker.cpp:36-97 | The JSON object holds no key other than channel, ir and red. |
| MqttWorker.PayloadHasKey | BeiFen/MQTTWorker.cpp:38-97 | A key is in the object exactly when some part carries it. |
| MqttWorker.PayloadLastStep | BeiFen/MQTTWorker.cpp:38-97 | A key is in the object of n parts exactly when it is in that of the first n - 1 or the last part carries it. |
| MqttWorker.PayloadLastWins | BeiFen/MQTTWorker.cpp:55 | A key's value is the one its last carrying part gives: a later insert overwrites an earlier one. |
| MqttWorker.PayloadStep | BeiFen/MQTTWorker.cpp:38-97 | Each part either inserts its entry into the object built so far or leaves it unchanged. |
| MqttWorker.EntryRoundTrip | BeiFen/MQTTWorker.cpp:40-91 | A part "key:value" written from a known key and a 32-bit value reads back as that key and value. |
| MqttWorker.FormatIntClean | BeiFen/MQTTWorker.cpp:46-47 | A formatted integer is non-empty, has no ':' and no surrounding blanks, so trimming leaves it unchanged. |
| MqttWorker.EntryNotANumber | BeiFen/MQTTWorker.cpp:57-62 | A known key whose value is not an integer is inserted with 0. |
| MqttWorker.Worker.constructor | BeiFen/MQTTWorker.cpp:8-25 | The worker runs exactly when the broker connection succeeds, and has published nothing. |
| MqttWorker.Worker.PublishMessage | BeiFen/MQTTWorker.cpp:31-125 | A stopped worker publishes nothing; a running one publishes the object built from the message's non-empty comma-separated parts. |
| MqttWorker.Worker.Stop | BeiFen/MQTTWorker.cpp:127-131 | stop leaves the worker not running and keeps what was published. |
| MaxDataWorker.PackSlot | BeiFen/MaxDataWorker.cpp:39-50 | Each odd slot of the record carries that channel's red and IR samples. |
| MaxDataWorker.UnlistedReadsZero | BeiFen/MaxDataWorker.cpp:34-50 | An odd channel that is not listed keeps the zero the arrays start with. |
| MaxDataWorker.ListedReadsSample | BeiFen/MaxDataWorker.cpp:37-50 | A listed odd channel whose sensor answered carries the decoded sample of its read. |
| MaxDataWorker.RecordBounded | BeiFen/MaxDataWorker.cpp:33-50 | With 18-bit leftovers, every field of the record is an 18-bit value. |
| MaxDataWorker.DoWork | BeiFen/MaxDataWorker.cpp:31-53 | doWork returns the record of the middle pass followed by the branch pass, and leaves the driver's sensor handle and calls those of the two passes. |
| MaxDataWorker.ZeroArray | BeiFen/MaxDataWorker.cpp:34 | The sample arrays start as eight zeros. |
| SendBuffer.WriteSlot | BeiFen/MaxPlot.cpp:185-187 | Writing one slot keeps the three send arrays at DATA_NUM entries. |
| SendBuffer.WriteRow | BeiFen/MaxPlot.cpp:185-211 | Writing a row of slots keeps the three send arrays at DATA_NUM entries. |
| SendBuffer.RowAsWritten | BeiFen/MaxPlot.cpp:185-211 | As written, each slot gets its channel id and the IR value in the red array, the IR array is never written, and no slot outside the row changes. It also models MaxPlot.cpp:372-374: the same for the eight-channel row of the queue window. |
| SendBuffer.RowIntended | BeiFen/MaxPlot.cpp:185-211 | With the IR value written into the IR array, each slot holds its channel id, red and IR values, and nothing outside the row changes. |
| SendBuffer.RedLostAsWritten | BeiFen/MaxPlot.cpp:186-187 | Whenever a channel's red and IR values differ, the red array as written does not hold the red value, while the intended write does. |
| SendBuffer.RowPrefixAsWritten | BeiFen/MaxPlot.cpp:185-211 | A row written at 0: ids are the channel list, the red array holds the IR values, the IR array keeps its old contents. |
| SendBuffer.RowPrefixIntended | BeiFen/MaxPlot.cpp:185-211 | A row written at 0 with the intended writes holds the channel list, the red values and the IR values. |
| SendBuffer.RowAdvance | BeiFen/MaxPlot.cpp:185-211 | Writing slot j of a row and continuing from j + 1 gives the same arrays as the row from j. |
| SendBuffer.WriteRowStep | BeiFen/MaxPlot.cpp:185-211 | A row from slot j is slot j's write followed by the row from j + 1. |
| SendBuffer.Arrays.Contents | BeiFen/MaxPlot.h:68 | The three arrays have DATA_NUM entries each. |
| SendBuffer.Arrays.constructor | BeiFen/MaxPlot.h:68 | The arrays have DATA_NUM entries and follow the given slot writes. |
| SendBuffer.Arrays.Write | BeiFen/MaxPlot.cpp:185-187 | An in-place slot write changes the arrays as WriteSlot says. |
| BatchPlot.OneRowBatch | BeiFen/MaxPlot.cpp:131-143 | A batch of one row, as written, carries the channel ids, the IR values as "reds" and stale IR values; with the intended writes it carries the ids, red and IR values. |
| BatchPlot.RedSeries | BeiFen/MaxPlot.cpp:183-208 | One plotted red value per data point. |
| BatchPlot.IrSeries | BeiFen/MaxPlot.cpp:183-208 | One plotted IR value per data point. |
| BatchPlot.TimeAxis | BeiFen/MaxPlot.cpp:214 | One elapsed time per data point. |
| BatchPlot.SeriesAt | BeiFen/MaxPlot.cpp:183-214 | The i-th plotted value of a series is the matching field of the i-th record, and the i-th x is its elapsed time. |
| BatchPlot.SeriesAppend | BeiFen/MaxPlot.cpp:183-214 | A new record appends exactly one value to each series and one x. |
| BatchPlot.Plot.constructor | BeiFen/MaxPlot.cpp:27-106 | The window starts with no points, no slots used, the start stamp set to the current time and nothing sent. |
| BatchPlot.Plot.Slot | BeiFen/MaxPlot.cpp:185-187 | One slot write advances count_data by one and continues the row. |
| BatchPlot.Plot.FillRow | BeiFen/MaxPlot.cpp:185-211 | The five slot writes for channels 0, 1, 3, 5, 7 advance count_data by 5 and write the row as WriteRow says. |
| BatchPlot.Plot.Flush | BeiFen/MaxPlot.cpp:216-243 | When at least a second has passed the slots used so far are sent as one batch, count_data returns to 0 and the start stamp moves to now; otherwise nothing is sent and nothing resets. |
| BatchPlot.Plot.HandleDataReady | BeiFen/MaxPlot.cpp:178-244 | handleDataReady appends one plot point, writes the five-slot row, and flushes as Flush says. |
| QueuePlot.PushUpTo | MaxPlot.cpp:367-371 | The push loop keeps eight queues. |
| QueuePlot.Column | MaxPlot.cpp:305-313 | A column of n front values has n entries. |
| QueuePlot.PopUpTo | MaxPlot.cpp:305-313 | The pop loop keeps eight queues. |
| QueuePlot.PopAfterPush | MaxPlot.cpp:299-313 | From empty queues, popping what one handleDataReady pushed gives back that record's red and IR values and the empty queues. |
| QueuePlot.PushThenPop | MaxPlot.cpp:299-313 | The queues are first in, first out: pushing a record and then popping gives the older front values, exactly as popping first and then pushing. |
| QueuePlot.PushBalanced | MaxPlot.cpp:367-371 | A push keeps all eight queues the same even length and adds two entries to each. |
| QueuePlot.PopBalanced | MaxPlot.cpp:305-313 | Balanced queues with a pair in front can be popped, and stay balanced with two fewer entries each. |
| QueuePlot.FinishMeansDrained | MaxPlot.cpp:338-339 | For balanced queues, channel 7's queue is empty after a pop exactly when all eight are. |
| QueuePlot.MiddleSumStep | MaxPlot.cpp:375-379 | The sum grows by the channel's value, modulo 2^32, exactly on channels 0, 2, 4 and 6. |
| QueuePlot.MiddleSumUnfold | MaxPlot.cpp:366-380 | The middle sum is channels 0, 2, 4 and 6 added in uint32_t, in that order. |
| QueuePlot.MiddleBound | MaxPlot.cpp:366-383 | With 18-bit samples the middle value is an 18-bit value. |
| QueuePlot.FourSamplesBound | MaxPlot.cpp:377-383 | Four 18-bit samples added in uint32_t and divided by 4 give an 18-bit value. |
| QueuePlot.MiddleWraps | MaxPlot.cpp:377-378 | Wide values wrap: four middle values of 2^30 sum to 0 in uint32_t. |
| QueuePlot.UploadOf | MaxPlot.cpp:233-239 | An upload carries exactly 45 * 800 channel ids, red values and IR values, whatever count_data is. |
| QueuePlot.UploadRound | MaxPlot.cpp:372-374 | In the upload after one handleDataReady, slot at + k holds channel k, the IR value in "reds", and the old IR entry. |
| QueuePlot.ChannelIdAt | MaxPlot.cpp:372 | The channel id written for loop index k is k. |
| QueuePlot.UploadSlot | MaxPlot.cpp:237-239 | Upload slot s is send-array slot s. |
| QueuePlot.Window.constructor | MaxPlot.cpp:31-36 | The window starts with eight empty, balanced queues, no points, no slots used, no uploads and the start stamp set. |
| QueuePlot.Window.HandleDataReady | MaxPlot.cpp:364-404 | handleDataReady pushes red then IR on each queue, writes eight slots, advances count_data by 8 and appends one plot point. |
| QueuePlot.Window.PushLoop | MaxPlot.cpp:366-380 | The loop pushes the record, writes the row, and ends with the uint32_t middle sums. |
| QueuePlot.Window.AddPoint | MaxPlot.cpp:382-403 | The middle sums divided by 4 and the odd channels are appended as one plot point. |
| QueuePlot.Window.Channel | MaxPlot.cpp:368-379 | One iteration of the push loop keeps its invariant. |
| QueuePlot.Window.Push | MaxPlot.cpp:369-370 | Red then IR are pushed at the back of channel i's queue. |
| QueuePlot.Window.GetMqttMessage | MaxPlot.cpp:299-342 | Get_Mqtt_Message pops the front pair of every queue, labels them with channels 0..7, and reports Finish_ALL exactly when channel 7's queue is empty. |
| QueuePlot.Window.HttpWorkerStart | MaxPlot.cpp:273-297 | Http_Worker_Start sends one upload of the send arrays with the start stamp. |
| QRcode.Digits | QRcode.h:28-31 | One character per draw. |
| QRcode.DigitsShape | QRcode.h:26-31 | The digit string has one decimal digit per draw, the digit of that draw. |
| QRcode.GenerateNumbers | QRcode.h:22-33 | generate_random_numbers returns count digits (none for count <= 0), one per draw. |
| QRcode.AlphabetAt | QRcode.h:42-45 | Indexing the 26-letter string is defined up to index 26 (the terminating NUL) only. |
| QRcode.Letters | QRcode.h:43-46 | When every index is defined, one character per draw. |
| QRcode.GenerateLetters | QRcode.h:36-48 | generate_random_letters indexes the alphabet with each draw of 0..51, in order. |
| QRcode.LetterDrawsEscapeAlphabet | QRcode.h:40-45 | A draw of 26 appends a NUL and a draw of 27 indexes past the string. |
| QRcode.LettersInAlphabet | QRcode.h:40-45 | With draws of 0..25 every character is the drawn capital letter. |
| QRcode.Swap | QRcode.h:58 | A swap keeps the length. |
| QRcode.Shuffled | QRcode.h:58 | A shuffle keeps the length. |
| QRcode.SwapPermutes | QRcode.h:58 | A swap keeps the multiset of characters. |
| QRcode.ShuffledPermutes | QRcode.h:57-59 | The shuffle is a permutation of the combined characters. |
| QRcode.Shuffle | QRcode.h:57-59 | The in-place shuffle of the character vector leaves what Shuffled describes. |
| QRcode.SwapAt | QRcode.h:58 | One in-place swap of two positions. |
| QRcode.ShuffledNext | QRcode.h:58 | Swap k follows the first k - 1 swaps. |
| QRcode.CombineNumLetters | QRcode.h:51-60 | combine_num_letters, with letter draws over 0..51: a result exactly when every letter index is defined, always for draws of 0..25; it is the digits then letters, shuffled, of the same length and multiset. |
| QRcode.SerialLine | QRcode.h:73-81 | A line gives a serial exactly when it starts with "Serial" and holds ':'; the serial has no whitespace. |
| QRcode.SerialOf | QRcode.h:71-85 | The serial is "000000000" or the serial of one of the lines. |
| QRcode.SerialOfFirst | QRcode.h:71-84 | The serial is the one from the first line that gives one. |
| QRcode.SerialOfNone | QRcode.h:85 | Without such a line the serial is "000000000". |
| QRcode.SerialOfClean | QRcode.h:80 | The serial never holds whitespace. |
| QRcode.DeviceSerial | QRcode.h:63-86 | get_device_serial returns "000000000" when /proc/cpuinfo cannot be opened, otherwise the serial of its lines. |
| QRcode.TimeFieldsDashFree | QRcode.h:94-100 | Every printed time field is all digits, without '-'. |
| QRcode.CurrentTimeAsWritten | QRcode.h:94-100 | As written the stamp splits on '-' into the year, month, day, hour and minute only. |
| QRcode.CurrentTime | QRcode.h:88-100 | The stamp the comment promises splits on '-' into the six printed fields, seconds last. |
| QRcode.CurrentTimeAsWrittenDropsSeconds | QRcode.h:88-100 | Two times a second apart give the same stamp as written, but different intended stamps. |
| QRcode.CurrentTimeFields | QRcode.h:88-100 | The intended stamp splits into six all-digit fields whose values are the year, month, day, hour, minute and second. |
| QRcode.TimeFieldValues | QRcode.h:94-100 | Each printed field reads back as the value it printed (year + 1900, month + 1, ...). |
| QRcode.RowMajor | QRcode.h:122 | Position y * size + x is in the module array and gives back row y and column x. |
| QRcode.Unrow | QRcode.h:132 | A pixel index is its row times the width plus its column. |
| QRcode.BlockOfModule | QRcode.h:124-129 | A pixel is in module (y, x)'s block exactly when its row and column divided by the scale, less the border, are y and x. |
| QRcode.PaintedStep | QRcode.h:118-138 | Visiting module (y, x) paints exactly its block, and only when the module is dark. |
| QRcode.PaintModule | QRcode.h:124-135 | The two inner loops blacken exactly the pixels of module (y, x)'s block. |
| QRcode.LineStep | QRcode.h:126-134 | One pixel step keeps the line invariant. |
| QRcode.PaintLine | QRcode.h:126-134 | The innermost loop blackens exactly one pixel row of the block. |
| QRcode.Rasterise | QRcode.h:110-138 | The image has (width + 8) * 10 pixels a side, and each pixel is black on a dark module and white elsewhere. |
| QRcode.RasterAt | QRcode.h:116-132 | Pixel (r, c) of the image is at r * img_size + c. |
| QRcode.PixelQuietZone | QRcode.h:111-116 | The 40-pixel border is white. |
| QRcode.PixelOfModule | QRcode.h:122-132 | Every pixel of a module's 10-by-10 block is black when the module is dark and white otherwise. |
| QRcode.SaveQrPng | QRcode.h:105-201 | save_qr_png succeeds exactly when there is a symbol, fopen succeeds and libpng creates its structs and writes without error. |
| QRcode.ReadBuffer.constructor | QRcode.h:237 | The read buffer starts empty. |
| QRcode.ReadBuffer.WriteCallback | QRcode.h:214-218 | WriteCallback appends size * nmemb bytes and reports that count. |
| QRcode.SampleId | QRcode.h:230 | The sample id starts with the serial and a '-', ends with the mixed characters, and adds two characters to the three parts. |
| QRcode.GetUserQueryAsWritten | QRcode.h:240-247 | The query as written has the single key "data", holding the sample id, and no "sample_id". |
| QRcode.GetUserQuery | QRcode.h:247 | The corrected query has the single key "sample_id", holding the sample id. |
| QRcode.UserMessage | QRcode.h:301 | user_message is the reply, then '-', then the sample id. |
| QRcode.GenerateUserMessage | QRcode.h:220-304 | With letter draws over 0..51, a run exists exactly when every letter index is defined, always for draws of 0..25. The sample id is serial, stamp and shuffled characters joined by '-'. As written the stamp has five fields and the query carries the id under "data"; otherwise six fields and "sample_id". user_message is the reply, '-', and the sample id; the picture is saved exactly when a symbol was made and fopen and libpng succeed. |
| Text.TrimLeft | main.go:604 | Trimming never lengthens. |
| Text.TrimLeftSpec | main.go:604 | The left trim is a suffix, starts with no whitespace, and only whitespace was dropped. |
| Text.TrimRight | main.go:604 | Trimming never lengthens. |
| Text.TrimRightSpec | main.go:604 | The right trim is a prefix, ends with no whitespace, and only whitespace was dropped. |
| Text.Trim | BeiFen/MQTTWorker.cpp:46-47 | Trimming never lengthens. Whitespace is the Unicode set shared by QChar::isSpace and Go's unicode.IsSpace. |
| Text.TrimSpec | BeiFen/MQTTWorker.cpp:46-47 | The trimmed text is a slice with no whitespace at either end, and only whitespace was dropped around it. |
| Text.TrimIdempotent | main.go:604 | Trimming twice is trimming once. |
| Text.TrimOfTrimmed | main.go:604 | Text without outer whitespace is its own trim. |
| Text.Utf8Len | main.go:372 | Go's len counts the UTF-8 bytes: between one and four per character, and zero only for the empty string. |
| Text.Find | QRcode.h:75 | Find returns -1 or an index into the text. |
| Text.FindSpec | QRcode.h:75-76 | Find returns -1 exactly when the character is absent; otherwise the index of its first occurrence. |
| Text.FindAt | QRcode.h:75-76 | The first occurrence is found. |
| Text.Split | main.go:137 | Splitting gives at least one part. |
| Text.SplitSound | main.go:137 | The parts hold no separator and join back to the text. |
| Text.SplitSepFree | main.go:232 | No part holds the separator. |
| Text.SplitJoinBack | main.go:232 | Joining the parts gives back the text. |
| Text.SplitJoin | main.go:232 | Splitting separator-free parts joined by the separator gives back the parts. |
| Text.SplitAt | main.go:232 | Splitting at a separator splits each side. |
| Text.SplitConcat | main.go:232 | Splitting a + sep + b is splitting a, then b. |
| Text.SplitCount | main.go:137 | There is one part more than separators. |
| Text.CountAbsent | main.go:137 | An absent character is counted zero times. |
| Text.CountAppend | main.go:137 | Counts add over concatenation. |
| Text.NonEmpty | BeiFen/MQTTWorker.cpp:37 | Qt::SkipEmptyParts keeps exactly the non-empty parts. |
| Text.TrimPrefix | main.go:206 | strings.TrimPrefix drops the prefix once when present, otherwise returns the text. |
| Text.RemoveSpaces | QRcode.h:80 | Erasing whitespace keeps every other character and only those. |
| Text.RemoveSpacesOfClean | QRcode.h:80 | Text without whitespace is unchanged. |
| Text.DigitChar | QRcode.h:30 | to_string of a digit is that decimal digit. |
| Text.FormatNat | QRcode.h:30 | A number prints as digits without a leading zero. |
| Text.FormatNatValue | QRcode.h:30 | The printed digits read back as the number. |
| Text.Zeros | QRcode.h:94 | k zero characters. |
| Text.PadDecimal | QRcode.h:94 | %0wd prints digits, at least w of them. |
| Text.LeadingZeros | QRcode.h:94 | Leading zeros do not change the value. |
| Text.AllZeros | QRcode.h:94 | A string of zeros reads as 0. |
| Text.PadDecimalValue | QRcode.h:94 | %0wd output reads back as the number. |
| Text.ZerosAreZero | QRcode.h:94 | Every padding character is '0'. |
| Text.ParseInt | BeiFen/MQTTWorker.cpp:52 | QString::toInt succeeds only on a 32-bit value and never on empty text. |
| Text.ParseFormatInt | BeiFen/MQTTWorker.cpp:52 | A 32-bit value written in decimal reads back. |
| Text.SplitUserMessageAtComma | MaxPlot.cpp:285-288 | With a comma, sample_id is the text before the first one and uuid the rest. |
| Text.SplitUserMessageNoComma | BeiFen/MaxPlot.cpp:227-230 | Without a comma, npos + 1 wraps to 0, so sample_id and uuid are both the whole message. |
| Server.ParseDeviceID | main.go:136-143 | parseDeviceID succeeds exactly when the id holds at least one '-'. |
| Server.ParseDeviceIDSpec | main.go:136-143 | parseDeviceID succeeds exactly when the sample id holds a '-', and gives the text before the first one. |
| Server.IsValidSampleID | main.go:146-150 | A sample id is valid exactly when it is non-empty. |
| Server.ParseSampleID | main.go:231-243 | Any id parseSampleID accepts, parseDeviceID accepts too, with the same device id. |
| Server.ParseSampleIDCount | main.go:231-243 | parseSampleID gets past the part count exactly when the id holds at least seven '-'. |
| Server.ParseSampleIDOfParts | main.go:232-242 | Eight or more dash-free parts joined by '-' parse to the first part and the stamp "p1-p2-p3 p4:p5:p6". |
| Server.ParseSampleIDTooFew | main.go:233-235 | Fewer than eight parts give the format error. |
| Server.CategoryByChannel | main.go:246-261 | Each category getCategoryByChannel gives names its channel back. |
| Server.CategoryRoundTrip | main.go:246-261 | getCategoryByChannel knows exactly channels 0, 1, 3, 5 and 7, and each category maps back to its channel. |
| Server.CategoryOfChannel | main.go:246-261 | Every category that maps to a channel is that channel's category. |
| Server.CalculateAgeAsWritten | main.go:264-271 | calculateAge as written is the year difference or one less. |
| Server.CalculateAgeCounts | main.go:264-271 | The corrected age is the number of birthdays reached: the n-th is reached and the (n + 1)-th is not. |
| Server.CalculateAgeLeapYear | main.go:264-271 | Born 1 March 2000, on 1 March 2001 the code as written gives 0 (day 61 against day 60), the corrected age 1. |
| Server.YearDayOrder | main.go:267 | Within years of the same kind, comparing YearDay is comparing month and day. |
| Server.CalculateAgeAgrees | main.go:264-271 | When both years are leap or both are not, the code as written gives the corrected age. |
| Server.BearerToken | main.go:199-211 | A token is taken only from a header that is "Bearer " followed by it. |
| Server.BearerTokenSpec | main.go:206-211 | The middleware takes token t exactly when the header is "Bearer " followed by t. |
| Server.BearerTokenRefused | main.go:199-211 | A header that does not start with "Bearer " (the empty one included) is refused. |
| Server.Authenticate | main.go:197-228 | Claims come only from a "Bearer " header, and are what verifying its token gives. It also models myapp/main.go:125-156: myapp's middleware stores claims only for a header "Bearer " followed by a token that verifies, and answers 401 otherwise. |
| Server.Register | main.go:350-448 | /register answers only 200, 422 or 500, adds no user but the requested id, and leaves the samples alone. |
| Server.RegisterRefuses | main.go:365-389 | /register answers 422 exactly for an empty user id, a password under six UTF-8 bytes or a taken user id; 200 exactly when hashing and both inserts succeed too, whatever the commit does (main.go:442); any other answer leaves the database unchanged. |
| Server.RegisterCreates | main.go:391-447 | A successful /register whose commit goes through adds exactly the new user, with a fresh user uuid, and an auth row with role "user" and the hash, keeping other rows; when the commit fails the answer is still 200 and nothing is stored. |
| Server.RegisterTwice | main.go:380-389 | Registering the same user id again is refused with 422. |
| Server.RegisterCountsBytes | main.go:372 | The length check counts bytes: three two-byte letters pass as a six-long password. |
| Server.UpdateInfo | main.go:529-573 | /update-info answers only 200, 400 or 500, and returns a saved row exactly when it answers 200. |
| Server.UpdateInfoFields | main.go:544-572 | /update-info overwrites name, gender and birth date, stores calculateAge as written, and keeps uuid, user id and creation time; when both years are leap or both are not, the stored age is the number of birthdays reached. |
| Server.UpdateInfoLeapYearAge | main.go:565 | Born 1 March 2000, an update on 1 March 2001 stores age 0, though the first birthday has been reached. |
| Server.Bind | main.go:594-665 | /client/bind answers only 200, 400, 409 or 500, changes nothing unless it answers 200, and never touches users or auth rows. |
| Server.BindNeverSteals | main.go:627-631 | A sample bound to another user is never taken over: 409 and no change. |
| Server.BindOwns | main.go:604-665 | After a successful bind the caller owns the sample; a new sample gets the device id and category "unknown"; no other sample changes. |
| Server.BindIdempotent | main.go:632-634 | Binding again is 200 with no change. |
| Server.GetUser | main.go:669-693 | get_user answers only 200, 400, 404, 409 or 500, and returns a uuid exactly when it answers 200. |
| Server.GetUserSpec | main.go:669-693 | get_user answers 200 exactly for a non-empty trimmed id of a bound sample, with its owner's uuid; nothing otherwise. |
| Server.BindThenGetUser | main.go:594-693 | After a bind, get_user with that sample id returns the binding caller. |
| Server.CollectData | main.go:696-747 | /collect/data answers only 200, 400, 403, 404 or 500, adds no sample and never touches users or auth rows. |
| Server.CollectDataOwnerOnly | main.go:696-747 | /collect/data stores data exactly for the sample's owner, with every field present; 403 for any other uuid; only that sample's data and time stamp change. |
| Server.BindGetUserCollect | main.go:594-747 | Bind, get_user and collect/data in sequence: the uuid get_user returns is accepted, and the data is stored on that sample. |
| Server.AdminCreate | main.go:790-867 | POST /admin/users answers only 200, 403, 409, 422 or 500, adds no user but the requested id, and leaves the samples alone. |
| Server.AdminCreateRules | main.go:790-867 | POST /admin/users is 403 without the admin role; a created user had a non-empty free id and a password of six or more UTF-8 bytes, gets role "user", and age and gender only when given. |
| Server.AdminCreateLeavesAuth | main.go:856-864 | When the user row fails after the auth row, the auth row stays without a user. |
| Server.AdminUpdate | main.go:893-955 | PUT /admin/users/:user_id answers only 200, 403, 404 or 500, adds and removes no user, and leaves the samples alone. |
| Server.AdminUpdateFields | main.go:893-955 | A successful admin update changes only that user's age, gender and password hash (each only when given), keeps roles, keys and samples. |
| MyApp.RegisterValidationOrder | myapp/main.go:197-218 | Register's three input checks report in order: an empty id_number first, then a password under six UTF-8 bytes, then a role other than "user" or "admin"; a request passes exactly when all three hold. myapp/myapp/main.go:134-154 makes the same three checks in the same order, each giving 422. |
| MyApp.Register | myapp/main.go:181-258 | /register answers only 200, 422 or 500, removes no row and leaves the sensor data alone. |
| MyApp.RegisterSpec | myapp/main.go:181-258 | Registration gives 422 exactly for a failed check or a taken id_number; on success it adds one row under a fresh id holding the hash, the role and no age or gender, and keeps every other row; on any failure the tables are unchanged; id_number stays unique. The register of myapp/myapp/main.go:117-195 has the same outcomes and the same write. |
| MyApp.OverwriteUserFields | myapp/main.go:486-501 | The update answers 404 exactly when no row has the id; on success it replaces id_number, age and gender by the request's values, keeps password and role and every other row; on failure nothing changes; the table stays well formed. The update of myapp/myapp/main.go:374-389, open to every caller, makes the same overwrite, nil values included. |
| MyApp.AdminUpdate | myapp/main.go:466-502 | The admin update answers only 200, 403, 404 or 500 and keeps the row ids, the counter and the sensor data. |
| MyApp.InsertWellFormed | myapp/main.go:240-246 | DB.Create of a row with a free id_number takes an id no row has and keeps the table's ids below the counter and its id_numbers unique. |
| MyApp.RowsOfSpec | myapp/main.go:306-307 | The query for a user's sensor data yields exactly the table's rows of that user and no more rows than the table has. |
| MyApp.MyData | myapp/main.go:303-328 | /mydata answers only 200 or 500, and data it returns is never empty. |
| MyApp.MyDataSpec | myapp/main.go:303-328 | /mydata answers 200; its data is nil exactly when the user has no rows, and otherwise holds exactly that user's rows. |
| MyApp.AdminLogin | myapp/main.go:331-360 | The admin login answers only 200, 401 or 500, and anything but 401 exactly when an admin row with that id_number stores the submitted text itself. |
| MyApp.RegisteredAdminLockedOut | myapp/main.go:331-344 | The admin login compares the stored password with the submitted text, so an admin registered through /register (whose row holds the hash) is refused with their own password. |
| MyApp.AdminCreate | myapp/main.go:363-427 | Admin create answers only 200, 403, 409, 422 or 500, removes no row and leaves the sensor data alone. |
| MyApp.AdminCreateRules | myapp/main.go:363-427 | Admin create answers 403 to a non-admin; it succeeds exactly for an admin with a non-empty id_number, a password of six or more UTF-8 bytes, a free id_number and working hashing and insert; the new row has role "user" and the given age and gender; on failure nothing changes; the table stays well formed. |
| MyApp.OverwriteUser | myapp/main.go:486-501 | The overwrite answers only 200, 404 or 500 and keeps the row ids, the counter and the sensor data. |
| MyApp.AdminUpdateRules | myapp/main.go:466-471 | A non-admin caller gets 403 with no change; for an admin the handler is the overwrite. |
| MyApp.UpdateWithoutAgeClearsIt | myapp/main.go:492-494 | An update request without age and gender clears both stored columns. |
| MyAppInner.MyData | myapp/myapp/main.go:230-252 | /mydata answers 401 exactly when the context has no user id, otherwise 200 or 500, with rows exactly on 200. |
| MyAppInner.MyDataRows | myapp/myapp/main.go:240-252 | With a user id in the context, /mydata answers 200 with exactly that user's rows. |
| MyAppInner.MyDataAlwaysUnauthorized | myapp/myapp/main.go:230-238 | No middleware of this program stores a user id, so /mydata answers 401 to every request. |
| MyAppInner.AdminLogin | myapp/myapp/main.go:256-284 | The admin login answers 200 exactly when an admin row with that id_number stores the submitted text itself, and 401 otherwise. |
| MyAppInner.RegisteredAdminRefused | myapp/myapp/main.go:271-278 | An admin registered through /register, whose row holds the hash, is refused with their own password. |
| MyAppInner.AdminCreate | myapp/myapp/main.go:287-328 | Admin create answers only 200, 409 or 500, removes no row and leaves the sensor data alone. |
| MyAppInner.AdminCreateRules | myapp/myapp/main.go:287-328 | Admin create, open to every caller, succeeds exactly for a free id_number with working hashing and insert, whatever the lengths; the row has role "user"; on failure nothing changes; the table stays well formed. |
| MyAppInner.AdminCreateShortPassword | myapp/myapp/main.go:301-327 | An empty id_number with a one-character password is created here and refused with 422 by myapp/main.go. |
| Collection.SampleIdParts | QRcode.h:230 | A sample id joined with '-' from a dash-free serial, a stamp and dash-free mixed characters splits into the serial, the stamp's parts and the mixed characters. |
| Collection.AsWrittenSampleIdRefused | QRcode.h:88-102 | The stamp as written makes a sample id of seven '-'-separated parts, which main.go's parseSampleID refuses. |
| Collection.SampleIdParsed | main.go:231-243 | With the six-field stamp, parseSampleID gives back the serial as device id and the stamp in the layout "YYYY-MM-DD HH:MM:SS". |
| Collection.SampleIdDevice | main.go:136-143 | parseDeviceID of a sample id gives back the device serial, for a serial without '-'. |
| Collection.MixedDashFree | QRcode.h:51-60 | The shuffled digits and letters never hold a '-'. |
| Collection.DeviceSampleIdAccepted | QRcode.h:220-304 | Every sample id one round of the device makes, for a serial without '-', parses on the server to that serial and the round's stamp, and binds to that serial. |
| Collection.AsWrittenQueryRefused | QRcode.h:247 | The get_user query as the device writes it carries no "sample_id", so main.go:669-693 answers 400 whatever the database holds. |
| Collection.QueryAnswered | main.go:669-693 | After a successful bind, get_user with the key the server reads names the user who bound the sample. |

## Left out

- Hardware and the operating system: `open`, `ioctl`, `read`, `write` and `close` on `/dev/i2c-*`. The replies are inputs and the calls are a trace, so no bus state is modelled.
- Shell commands: `system("i2cset …")`, the `i2cdetect | grep` pipeline and `system("feh …")`. Their exit statuses are inputs.
- File input: reading `/proc/cpuinfo` is given as its lines.
- Timing: `usleep` and `sleep` delays have no observable effect in the model.
- Endless loops: every `while(1)` in a driver's `get_data`, in `main` or in a worker is modelled as one pass of its body, without the repetition.
- Concurrency: pthreads, `std::thread`, QThread wiring, timers and signal handlers. The sending threads are modelled by the arguments they would be started with.
- Network and libraries: curl (`Send_Message`, the get_user request), the MQTT client and its publish call, gin, gorm, jwt, bcrypt, uuid, libqrencode, libpng writing, and JSON serialisation. Their results are parameters; the JSON object is a map.
- URL escaping by `curl_easy_escape`: the sample id is passed through unchanged, since it holds only digits, letters and '-'.
- `time.Parse` in parseSampleID and the server's Go `time` values: parsing stops at the built stamp text, and dates are given as year, month and day.
- Floating point: the Qt windows' double `elapsedTime` and the chart scaling. The plot points are kept as the integers they are made from.
- Printing: `printf`, `cout`, `qDebug` and `fmt.Println`. Only the lines that stand for reads are modelled (`ReadLoop`, `PlainDriver`, `UseMain`).
- The Qt GUI: widgets, sliders, gestures and chart rendering.
- The Python scripts, test_channel.cpp and channel_problem/test_wrong.cpp, which only print probe results.
- `Quit` of collect/max30102.cpp:176-193: it is teardown I/O, and its loop bound `i < enable_channels[i]` has no clear meaning.
- Handlers that only read or delete rows: GET and DELETE on `/admin/users`, the login handlers that hand out tokens, and `mqttMessageHandler` of main.go. The token and password they compare come from jwt and bcrypt.
- QRcode.h:287-292: after a failed `save_qr_png`, the symbol is freed twice. Memory ownership is not modelled.
- The handlers' JSON bodies: only status codes and the tables after each handler are modelled.
- The send arrays of BeiFen/MaxPlot.cpp are `int`, while the model holds the 18-bit samples as `bv32` in both windows. No sample value reaches the sign bit.
- The user message is joined with '-' by QRcode.h:301, but MaxPlot.cpp splits it on ','. The model states both splits as written (`QueuePlot.UploadOf`, `BatchPlot.OneRowBatch`). They are not joined into one round trip.
- SendBuffer.Arrays.Write, BatchPlot.Plot.HandleDataReady and QueuePlot.Window.HandleDataReady require `count_data` plus the row to fit in DATA_NUM slots. The source writes past the arrays without a check, and that overflow is not modelled.
- BatchPlot.Plot.HandleDataReady and QueuePlot.Window.HttpWorkerStart require the user message to be shorter than `npos`. A `size_t` length cannot reach that.
- QueuePlot.Window.GetMqttMessage requires every queue to hold a red/IR pair. `front()` on an empty `std::queue` is undefined.
- QtNewDriver.Driver.PreJob requires a cursor inside the listed slots. The declaration of `count_channel` and `enable_channel_num` (Qt_new/max30102.h) is not part of this model, so the cursor's start is the corrected one from `Driver.ResetCursor`; the as-written start is described in the Findings. The cursor also wraps at the number of listed channels, `table.count`. Qt_new/max30102.cpp:122 compares it with `enable_channel_num` instead, which nothing in Qt_new/max30102.cpp assigns; the header of the top-level driver, max30102.h:62, starts that field at 0. Read that way the test `count_channel == enable_channel_num` never holds once the cursor has moved, so as written the cursor never wraps and runs past the eight slots; the model does not follow it there.
- Qt20Driver.Driver.GetData returns no value: Qt_2.0/max30102.cpp:69-107 declares `bool get_data` but reaches its end without a `return`, which is undefined behaviour in C++. The result is not modelled; the visible caller, send_to_github/MaxDataWorker.cpp:15, discards it.
- RootDriver.Driver.PreJob and RootDriver.Driver.RetargetedPreJob require at least one listed channel. With none, max30102.cpp:127-137 builds its select byte from `enable_channels[0]`, which the scan never wrote, and the cursor then runs past the list. That indeterminate value is not modelled.
- The 400 answer every Go handler gives when `ShouldBindJSON` fails: the handlers take the decoded request fields, so a body that does not decode is not modelled.
- Server.Register takes the two `tx.Create` steps of main.go:415-439 as one input, `createOk`. Either failure rolls back and answers 500, so both give the same outcome. The commit's result (main.go:442) is an input of its own.
- I2cBus.LastTarget counts every `ioctl(I2C_SLAVE)` of the trace, because the trace does not record which ones failed. A failed ioctl leaves the handle's address unchanged. So when a scan goes on after a refused sensor address (max30102.cpp:28-31, test.cpp:107-111), the model takes 0x57 as the handle's target where the bus still addresses the multiplexer.

## Findings

| source | as written | input that shows it | evidently intended | confidence | as-written member | corrected member |
|---|---|---|---|---|---|---|
| QRcode.h:94-100 | The format `"%04d-%02d-%02d-%02d-%02d"` has five fields for six arguments, so the seconds are never printed. | Any time: 12:30:05 and 12:30:06 on the same day give the same stamp, and the sample id has seven '-'-separated parts. main.go:231-243 needs eight, so it refuses every id. | Six fields, ending with the seconds. | not executed | QRcode.CurrentTimeAsWrittenDropsSeconds, Collection.AsWrittenSampleIdRefused | QRcode.CurrentTime, Collection.SampleIdParsed, Collection.DeviceSampleIdAccepted |
| QRcode.h:40-45 | The letter index is drawn from 0..51, but the alphabet has 26 letters. | A draw of 26 appends the string's NUL terminator, and a draw of 27 reads past the string. | Draws in 0..25, one uppercase letter each. | not executed | QRcode.LetterDrawsEscapeAlphabet | QRcode.LettersInAlphabet |
| main.go:264-271 | calculateAge compares day-of-year numbers, which shift by one after February in a leap year. | Born 2000-03-01 (day 61), on 2001-03-01 (day 60) the result is 0. | The age in completed years, comparing month and day: 1. | not executed | Server.CalculateAgeLeapYear, Server.UpdateInfoLeapYearAge | Server.CalculateAge, Server.CalculateAgeCounts |
| QRcode.h:247 | The get_user query sends the sample id under the key `data`. | Any sample id: main.go:669-693 reads `sample_id`, finds it empty and answers 400. | The key `sample_id`. | not executed | Collection.AsWrittenQueryRefused | Collection.QueryAnswered |
| BeiFen/MaxPlot.cpp:186-187 | `red_send_data[count_data] = red; red_send_data[count_data++] = ir;` writes IR over red, and `ir_send_data` is never written (MaxPlot.cpp:372-374 does the same). | A channel with red 1 and IR 2: slot `count_data` of the red array holds 2. | Red into `red_send_data`, IR into `ir_send_data`. | not executed | SendBuffer.RedLostAsWritten | SendBuffer.RowIntended, SendBuffer.RowPrefixIntended |
| max30102.cpp:28-36, 127-137 | After a listed channel, the shared handle stays addressed to the sensor (0x57), so the next select byte goes to the sensor instead of the multiplexer. | Sensors on channels 0 and 1: the second PreJob writes `1 << 1` to address 0x57. | Address the handle back to 0x70 before each select byte. | not executed | RootDriver.PreJobMisdirects, RootDriver.ScanMisdirects | RootDriver.Driver.RetargetedPreJob, RootDriver.RetargetedPreJobsReachMux, RootDriver.RetargetedScanReachesMux |
| Qt_new/max30102.cpp:54, 119-130 | The scan leaves the shared cursor `count_channel` at the number of listed channels, and PreJob reads the slot at the cursor before advancing it. | Sensors on channels 0 and 1: the first PreJob reads slot 2, which the scan never wrote. | Start the cursor at the first listed slot. | not executed | QtNewDriver.ScanLeavesCursorPastList, QtNewDriver.TwoSensorsExample | QtNewDriver.Driver.ResetCursor, QtNewDriver.Driver.PreJob |
| test.cpp:125-126 | The read loop writes the select byte `1 << 1` for every listed slot. | Only channel 0 listed: its 20 reads go through channel 1. | `1 << channels[i]`. | not executed | TestMain.LoopVisitsAsWritten, TestMain.OnlyChannelZeroListed | TestMain.LoopVisitsPerChannel |
