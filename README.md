# Timing board control: a Dafny model

This project models the control logic of the DUNE timing-board software.
That logic drives the firmware of timing masters, endpoints and the PC059 fanout board over an IPbus register client.
The model covers:

- **the partition node**, current and legacy (`PartitionNode`, `LegacyPartitionNode`). This is run control: enabling, configuring and resetting a partition, starting and stopping a run by polling `in_run`, and sizing event reads from the readout buffer.
- **the endpoint node** (`EndpointNode`). It enables, disables and resets an endpoint, sizes buffer reads, and builds the word table.
- **the PC059 IO node** (`PC059IONode`). It routes SFP ids to I2C buses and switch channels, computes the switch channel-select byte, selects the SFP input mux, and runs the reset sequence.
- **the master command line** (`MasterCli`). It holds the firmware version gate, the board UID fold, the revision and clock-configuration lookup, the trigger mask, the readback size and the 64-bit timestamp.

The register client is modelled once, in `Registers.Client`:

- `regs` is the committed value of every control field.
- `pending` is the queue of writes that `dispatch()` commits in order.
- `trace` is the ordered history of bus traffic: each dispatch with the writes it commits, each block read, and each I2C device access.
- `fifo` holds the words of the readout buffer (`buf.count` is its length).

Each node operation is a module-level method that takes the client as a parameter and changes only that client. Its postcondition gives the client's new field map, write queue and buffer, and the exact trace it appends.

Hardware status comes from outside the model, as parameters:

- `inRun(k)` is the value of `in_run` seen on poll `k`.
- `elapsed(k)` is the time measured at poll `k`. It is at least `100·k` ms, because each poll sleeps 100 ms.
- The PROM bytes, the firmware version word and the buffer contents are also parameters.

Shared arithmetic lives in `Readout` and `Bits`:

- `Readout` holds event counts, word counts and zero-padded row labels.
- `Bits` holds powers of two, bit tests and bitwise OR on naturals.

## Model

| member | source | states |
|---|---|---|
| `Readout.EventsInBuffer` | src/PartitionNode.cpp:104-106 | the buffer holds `n` complete 6-word events: `6n <= count < 6(n+1)` |
| `Readout.EventsToRead` | src/PartitionNode.cpp:135-143 | an error exactly when more events are requested than are in the buffer, carrying the request and the available count; a request of 0 reads every complete event (less than one event is left); otherwise exactly the requested events, whose words fit in the buffer |
| `Readout.EventsToReadAsWritten` | src/PartitionNode.cpp:135-143 | the request as the code narrows it to 32 bits: it agrees with `EventsToRead` for every request below 2^32, and every nonzero multiple of 2^32 reads 0 events and raises nothing, whatever the buffer holds |
| `Readout.TruncatedRequestIsNotRejected` | src/PartitionNode.cpp:135-143 | a request for 2^32 events from an empty buffer reads 0 events instead of raising `EventReadError` (see Findings) |
| `Readout.WordsToRead` | src/EndpointNode.cpp:134-138 | never more than the count; the whole count in read-all mode; otherwise a multiple of the event size that leaves less than one event unread |
| `Readout.IndexLabelDenotesIndex` | src/EndpointNode.cpp:163-167 | the label of row `i` is all decimal digits, is 4 characters long for `i < 10000` (longer only as `i` needs), and reads back as `i` |
| `Readout.IndexLabelsDistinct` | src/EndpointNode.cpp:163-167 | different rows get different labels |
| `Readout.DecimalRoundTrip` | src/EndpointNode.cpp:166 | the decimal digits of `n` read back as `n` |
| `Readout.BufferTableRows` | src/EndpointNode.cpp:161-168 | one row per word, in order: row `i` pairs the label of `i` with word `i` |
| `PartitionNode.Enable` | src/PartitionNode.cpp:31-36 | `part_en := enable` is queued; with `dispatch` it is committed together with the earlier queued writes, without it nothing is committed |
| `PartitionNode.Configure` | src/PartitionNode.cpp:51-56 | one dispatch commits exactly `rate_ctrl_en`, `trig_mask` and `spill_gate_en`, in that order, and no other field changes |
| `PartitionNode.ConfigureRateCtrl` | src/PartitionNode.cpp:62-65 | one dispatch commits `rate_ctrl_en` alone |
| `PartitionNode.EnableTriggers` | src/PartitionNode.cpp:71-75 | one dispatch commits `trig_en` alone |
| `PartitionNode.ReadTriggerMask` | src/PartitionNode.cpp:81-86 | returns the committed `trig_mask`, after committing the queued writes |
| `PartitionNode.NumEventsInBuffer` | src/PartitionNode.cpp:104-106 | returns the buffer word count divided by 6, rounded down |
| `PartitionNode.ReadEvents` | src/PartitionNode.cpp:135-149 | the corrected sizing of `EventsToRead` (see Findings): on a request for too many events, `EventReadError` and no block read; otherwise exactly one block read of `events·6` words, returning the first `events·6` buffer words and removing them from the buffer |
| `PartitionNode.Reset` | src/PartitionNode.cpp:155-166 | one dispatch commits `part_en 0, buf_en 0, trig_ctr_rst 1, trig_ctr_rst 0`; all three fields end at 0 |
| `PartitionNode.AwaitRunState` | src/PartitionNode.cpp:187-200 | the polling loop ends: it succeeds on the first poll that sees `in_run == want`, and fails with `RunRequestTimeoutExpired` once the elapsed time exceeds the timeout; every earlier poll saw the other value within the timeout; at most `timeout/100 + 2` polls, each a read-only dispatch |
| `PartitionNode.Start` | src/PartitionNode.cpp:171-202 | three dispatches in order (`trig_en 0, buf_en 0`; `buf_en 1`; `run_req 1`), then polling until `in_run` is seen true or the timeout error |
| `PartitionNode.RequestRun` | src/PartitionNode.cpp:172-183 | the three dispatches that open `start`: `trig_en 0, buf_en 0` with the earlier queued writes, then `buf_en 1`, then `run_req 1`; the fields end with `trig_en 0`, `buf_en 1`, `run_req 1` |
| `PartitionNode.Stop` | src/PartitionNode.cpp:208-228 | one dispatch of `run_req 0`, then polling until `in_run` is seen false or the timeout error |
| `LegacyPartitionNode.Enable` | core/src/common/PartitionNode.cpp:30-35 | as `PartitionNode.Enable`: `part_en` is queued, and committed only when asked to dispatch |
| `LegacyPartitionNode.SetCommandMask` | core/src/common/PartitionNode.cpp:41-44 | one dispatch commits `trig_mask := mask` |
| `LegacyPartitionNode.ReadCommandMask` | core/src/common/PartitionNode.cpp:50-55 | returns the committed `trig_mask` |
| `LegacyPartitionNode.SetThenReadCommandMask` | core/src/common/PartitionNode.cpp:41-55 | reading the command mask after setting it returns the mask that was set; the bus sees the set dispatch then a read-only dispatch, and `trig_mask` ends at the mask |
| `LegacyPartitionNode.NumEventsInBuffer` | core/src/common/PartitionNode.cpp:73-75 | the word count divided by 6, rounded down |
| `LegacyPartitionNode.ReadEvents` | core/src/common/PartitionNode.cpp:81-97 | as `PartitionNode.ReadEvents`, with the corrected sizing: 0 means all complete events; too many is `EventReadError` without a block read; otherwise a block read of `events·6` words |
| `LegacyPartitionNode.Reset` | core/src/common/PartitionNode.cpp:103-114 | one dispatch commits `part_en 0, buf_en 0, trig_ctr_rst 1, trig_ctr_rst 0` |
| `LegacyPartitionNode.AwaitRunState` | core/src/common/PartitionNode.cpp:137-145 | polls until `in_run == want`: the last poll saw it, and no earlier poll did |
| `LegacyPartitionNode.Start` | core/src/common/PartitionNode.cpp:119-149 | dispatches `buf_en 0`, `buf_en 1` and `run_req 1` in turn; `trig_en := 1` is dispatched only after a poll has seen `in_run` true |
| `LegacyPartitionNode.RequestRun` | core/src/common/PartitionNode.cpp:122-135 | the three dispatches that open the legacy `start`: `buf_en 0` with the earlier queued writes, then `buf_en 1`, then `run_req 1` |
| `LegacyPartitionNode.Stop` | core/src/common/PartitionNode.cpp:155-171 | dispatches `run_req 0`; only after a poll has seen `in_run` false does one dispatch commit `buf_en 0` and `trig_en 0` |
| `EndpointNode.EnableLastWrites` | src/EndpointNode.cpp:22-37 | the last value `enable(p, a)` writes to each field: `tgrp = p`; `int_addr = 1` and `addr = a` when `a != 0`; `int_addr = 0` and `addr` untouched when `a == 0`; `ctr_rst = 0`, `ep_en = 1`, `buf_en = 1`; nothing else written |
| `EndpointNode.EnableEffect` | src/EndpointNode.cpp:22-37 | the field values after `enable`, for every field, in terms of the values before |
| `EndpointNode.EnablePulsesCounterReset` | src/EndpointNode.cpp:32-33 | the enable writes contain `ctr_rst := 1` immediately followed by `ctr_rst := 0` |
| `EndpointNode.ResetEndsAsEnable` | src/EndpointNode.cpp:53-59 | every field ends with the same value after `reset(p, a)` as after `enable(p, a)` alone |
| `EndpointNode.Enable` | src/EndpointNode.cpp:22-37 | the enable writes are committed in one dispatch |
| `EndpointNode.QueueAddressWrites` | src/EndpointNode.cpp:25-30 | queues `int_addr 1, addr a` when `a != 0` and `int_addr 0` alone otherwise, committing nothing |
| `EndpointNode.QueueCounterAndEnableWrites` | src/EndpointNode.cpp:32-35 | queues `ctr_rst 1, ctr_rst 0, ep_en 1, buf_en 1` in that order, committing nothing |
| `EndpointNode.Disable` | src/EndpointNode.cpp:43-47 | one dispatch commits exactly `ep_en 0, buf_en 0` |
| `EndpointNode.Reset` | src/EndpointNode.cpp:53-59 | one dispatch commits `ep_en 0, buf_en 0` followed by the enable writes; the final field state is that of `enable(p, a)` |
| `EndpointNode.ReadDataBuffer` | src/EndpointNode.cpp:127-150 | a count read, then one block read of `WordsToRead` words, returning the first words of the buffer |
| `EndpointNode.GetDataBufferTable` | src/EndpointNode.cpp:156-168 | one row per word read, row `i` pairing `i` zero-padded to 4 digits with buffer word `i`; as `read_data_buffer`, those words leave the buffer after one count dispatch and one block read, and no field changes beyond the queued writes |
| `PC059IONode.RouteSfp` | src/PC059IONode.cpp:147-156 | `InvalidSFPId` exactly for ids above 8; id 0 is the upstream SFP on bus 0 with no switch channel; ids 1 to 8 are on bus 1 behind channel `id - 1`; the bus index is always valid |
| `PC059IONode.RouteSfpRoundTrip` | src/PC059IONode.cpp:147-153 | the route of every valid id leads back to that id |
| `PC059IONode.EveryChannelIsRouted` | src/PC059IONode.cpp:150-153 | each switch channel 0..7 is reached from exactly one SFP id, `channel + 1` |
| `PC059IONode.ChannelSelectByte` | src/PC059IONode.cpp:134 | for channels 0..7 the byte has exactly the bit of the channel set; for channels 8..63 it is 0 |
| `PC059IONode.SwitchSfpI2CMuxChannel` | src/PC059IONode.cpp:125-137 | `rst_i2cmux 1` and `rst_i2cmux 0` are each dispatched on their own, before the select byte is written to the switch |
| `PC059IONode.GetSfpStatus` | src/PC059IONode.cpp:143-163 | an invalid id raises `InvalidSFPId` with no bus access; otherwise the switch is set for a fanout SFP, and then the EEPROM on the routed bus is read |
| `PC059IONode.SwitchSfpSoftTxControlBit` | src/PC059IONode.cpp:169-182 | as `GetSfpStatus`, ending with the soft TX control write instead of the status read |
| `PC059IONode.ReadActiveSfpMuxChannel` | src/PC059IONode.cpp:115-119 | returns the committed `mux` value |
| `PC059IONode.SwitchSfpMuxChannel` | src/PC059IONode.cpp:104-109 | one dispatch commits `mux := id`, and the value read back is `id` |
| `PC059IONode.PulseResets` | src/PC059IONode.cpp:44-53 | one dispatch commits the `pll_rst`, `rst_i2c` and `rst_i2cmux` pulses, 1 then 0 each |
| `PC059IONode.ConfigureClocking` | src/PC059IONode.cpp:55-69 | the AX3 switch access, then the PLL upload with the fanout mode and file, then one dispatch of `mux 0`, in that order |
| `PC059IONode.PulseLockMonitorReset` | src/PC059IONode.cpp:85-87 | one dispatch of `rst_lock_mon 1, rst_lock_mon 0`; the field ends at 0 |
| `PC059IONode.SetUpSfpExpander` | src/PC059IONode.cpp:71-83 | the five expander calls in order, with the raw masks: `set_inversion(0, 0x00)`, `set_inversion(1, 0x00)`, `set_io(0, 0x00)`, `set_io(1, 0xff)`, `set_outputs(0, 0x00)`; no field changes |
| `PC059IONode.Reset` | src/PC059IONode.cpp:36-90 | the order of the whole reset: pulses, AX3 switch, PLL configuration, `mux 0`, expander set-up, lock-monitor pulse; afterwards `pll_rst`, `rst_i2c`, `rst_i2cmux`, `rst_lock_mon` and `mux` are all 0 |
| `PC059IONode.ResetDefault` | src/PC059IONode.cpp:96-98 | the one-argument reset is the reset with fanout mode -1 |
| `MasterCli.DecodeVersion` | python/pkg/pdt/cli/master.py:58-60 | major, minor and patch are each below 256, and they recompose bits 23..0 of the version word |
| `MasterCli.DecodeEncodeVersion` | python/pkg/pdt/cli/master.py:58-60 | decoding inverts encoding for every version with 8-bit fields |
| `MasterCli.CheckMasterFirmware` | python/pkg/pdt/cli/master.py:68-70 | the firmware is accepted exactly when its major version is at least `kMasterFWMajorRequired` (4); the error reports the version found and the one required |
| `MasterCli.FirmwareGateThreshold` | python/pkg/pdt/cli/master.py:58-70 | a version word is accepted exactly when its bits 23..0 are at least `0x040000` |
| `MasterCli.FoldUid` | python/pkg/pdt/cli/master.py:248-250 | the shift-and-OR loop computes the big-endian value of the PROM bytes, below 2^(8n) for n bytes |
| `MasterCli.FoldBEBound` | python/pkg/pdt/cli/master.py:248-250 | n bytes fold to a value below 2^(8n) |
| `MasterCli.BytesFoldRoundTrip` | python/pkg/pdt/cli/master.py:247-250 | splitting a folded UID back into bytes gives the PROM bytes |
| `MasterCli.UidDeterminesBytes` | python/pkg/pdt/cli/master.py:247-250 | two reads of the same length with the same UID are the same bytes |
| `MasterCli.UidBelow48Bits` | python/pkg/pdt/cli/master.py:247-250 | the 6-byte UID is below 2^48 |
| `MasterCli.EveryRevisionHasClockConfig` | python/pkg/pdt/cli/master.py:110-145 | every registered board is FMC revision 1 or 2 or PC059 revision 1, and each of these revisions has a clock configuration |
| `MasterCli.RegisteredUidsFitInProm` | python/pkg/pdt/cli/master.py:120-145 | every registered UID fits in the 6 PROM bytes |
| `MasterCli.UidSwitchAsWritten` | python/pkg/pdt/cli/master.py:226-239 | as written, no switch is chosen exactly when the corrected choice is an error, and otherwise the same switch |
| `MasterCli.UnknownBoardIsNotRejected` | python/pkg/pdt/cli/master.py:226-239 | a Microzed board on a Microzed carrier opens no switch and raises nothing as written (see Findings) |
| `MasterCli.UidSwitchFor` | python/pkg/pdt/cli/master.py:226-239 | AX3 switch exactly for TLU and PC059 boards and for an FMC on an Enclustra A35 carrier; otherwise the KC705 switch on a KC705 carrier; otherwise `UnknownBoardKind` |
| `MasterCli.SelectClockConfig` | python/pkg/pdt/cli/master.py:253-290 | an error exactly when a board other than the TLU has an unregistered UID, even with a forced file; the forced file wins; then the TLU configuration, the PC059 fanout configurations for modes 1 and 2, and otherwise the configuration of the board's revision, so "no clock configuration" never happens |
| `MasterCli.PlanReset` | python/pkg/pdt/cli/master.py:189-292 | with the corrected switch choice of `UidSwitchFor` (see Findings): a soft reset or the simulation board skips the hardware steps; otherwise the unknown-board error comes first, then the clock configuration's own error, else the plan holds the chosen switch, the PROM slave (`UID_PROM` for the TLU, `FMC_UID_PROM` otherwise) and the chosen configuration |
| `MasterCli.TriggerMask` | python/pkg/pdt/cli/master.py:540-541 | for partitions 0..3 the low 4 bits are the partition's fake-trigger bit `1 << id` and the bits above are the physical mask |
| `MasterCli.FakeBitBelowPhysical` | python/pkg/pdt/cli/master.py:540-541 | for partitions 0..3, OR-ing the fake-trigger bit into the shifted physical mask is addition, and the bit is below 16 |
| `MasterCli.TriggerMaskInjective` | python/pkg/pdt/cli/master.py:540-541 | different partitions 0..3 or different physical masks give different trigger masks |
| `MasterCli.ReadbackWords` | python/pkg/pdt/cli/master.py:616-636 | in read-all mode the whole count; otherwise the largest multiple of 6 not above the count |
| `MasterCli.Timestamp` | python/pkg/pdt/cli/master.py:493 | the timestamp of two 32-bit words is below 2^64 and gives back the low and the high word |
| `MasterCli.TimestampRoundTrip` | python/pkg/pdt/cli/master.py:678 | every 64-bit value is the timestamp of its own low and high word |

## Left out

- The IPbus protocol, node trees and address tables. The client is modelled only as the field map, write queue, trace and buffer above. It does not model the IPbus client itself.
- Register widths: a field holds any integer written to it. Masking to the field width is not modelled, so `PC059IONode.SwitchSfpMuxChannel` reads back the full value written.
- Sleeps and clocks: `millisleep`, `std::this_thread::sleep_for`, `time.sleep` and `steady_clock` are absent. Time enters only as the `elapsed` parameter of the current start/stop.
- `LegacyPartitionNode.AwaitRunState`, `LegacyPartitionNode.Start`, `LegacyPartitionNode.Stop`: these require that the firmware eventually reports the wanted `in_run` value. The legacy loop has no timeout, so without that report it never returns, and that non-terminating run is not modelled.
- Status and info reports are formatting of hardware reads: `get_status` and `get_info` of every node, `format_reg_table`, `read_rob_warning_overflow`, `read_rob_error`, `read_command_counts`, `read_timestamp`, `read_clock_frequency` and `read_version`.
- The endpoint's `kEventSize` is declared in a header that is not part of this model. It is a positive parameter of `EndpointNode.ReadDataBuffer`.
- I2C device drivers are recorded as calls in the trace, without their internals: the SI534x PLL upload, `get_full_clock_config_file_path`, the SFP expander, the SFP EEPROM status text, and the soft TX bit. The model assumes that an I2C access neither dispatches nor changes the queued register writes (`Registers.Client.I2C`). The I2C master drivers are not part of this model. `PC059IONode.GetSfpStatus` and `PC059IONode.SwitchSfpSoftTxControlBit` rely on this assumption for SFP 0, where they promise that the queue is unchanged.
- In the PC059 reset, the exception swallowed around the AX3 switch is not modelled. That write is recorded as always taking place.
- `writeSoftResetRegister` (the first step of the PC059 reset) is defined outside the modelled files and is not part of this model.
- `PartitionNode.ReadEvents`: follows the corrected sizing in Findings, not the code as written. For a request of 2^32 or more, the source keeps only the low 32 bits. For example, `read_events(2^32 + 1)` on a 6-word buffer reads one event, but the model raises `EventReadError`. Below 2^32 the two agree (`Readout.EventsToReadAsWritten`).
- `LegacyPartitionNode.ReadEvents`: the same correction to `readEvents`. It differs from the source only on requests of 2^32 or more, in the same way.
- `MasterCli.PlanReset`: follows the corrected switch choice in Findings, not the code as written. This matters for an FMC or Microzed board on a Microzed carrier, and for a Microzed board on an Enclustra A35 carrier. There the model returns `UnknownBoardKind`. The source raises nothing, opens no I2C switch, and goes on to the PROM read and the revision lookup (python/pkg/pdt/cli/master.py:246-258). That as-written choice is `MasterCli.UidSwitchAsWritten`.
- `PC059IONode.ChannelSelectByte` requires a channel below 64. A 64-bit shift by 64 or more is undefined in C++.
- Master CLI: the following are left out:
  - console output and click plumbing;
  - the IPython session;
  - `freq`, with its floating-point frequency scaling;
  - `validate_freq`;
  - `faketrig-conf`, with its `log`/`ceil` divisor and prescale;
  - `spillgen`, `send` and the external-trigger commands, which are fixed register writes;
  - the TLU expander and PLL register writes;
  - the PC059 edge and `master_src` writes in `reset`.
- `MasterCli.SelectClockConfig` returns the configuration path relative to the clock directory. The expansion of `${PDT_TESTS}` reads the environment and is left out.
- In `readback`, `lBufCount / kEventSize` is integer division under Python 2, which this code targets (`xrange`, `iteritems`). Under Python 3 it would be a float.

## Findings

| source | as written | input that shows it | evidently intended | confidence | as-written member | corrected member |
|---|---|---|---|---|---|---|
| src/PartitionNode.cpp:135-143 | the `size_t` number of events is stored in a `uint32_t` before it is compared with the events available | `read_events(2^32)` on an empty buffer reads 0 events and raises nothing | raise `EventReadError` for any request above the available count | high, not executed | `Readout.TruncatedRequestIsNotRejected` | `Readout.EventsToRead` |
| core/src/common/PartitionNode.cpp:81-91 | `readEvents` narrows the `size_t` request to `uint32_t` in the same way | `readEvents(2^32)` on an empty buffer reads 0 events and raises nothing | raise `EventReadError` for any request above the available count | high, not executed | `Readout.EventsToReadAsWritten` | `Readout.EventsToRead` |
| python/pkg/pdt/cli/master.py:238-239 | the "Unknown board kind" `ClickException` is constructed but not raised | `reset` of a Microzed board on a Microzed carrier opens no I2C switch and carries on to read the UID PROM | raise the exception and stop the reset | high, not executed | `MasterCli.UnknownBoardIsNotRejected` | `MasterCli.UidSwitchFor` |

The same unraised exception appears again at python/pkg/pdt/cli/master.py:359-360, in the expander set-up. That path is not modelled.

The clock-configuration `KeyError` branch at python/pkg/pdt/cli/master.py:281-284 could never succeed if it ran: it uses `<<` on a string and an unimported `ClickException`. `MasterCli.EveryRevisionHasClockConfig` proves the branch unreachable, because every registered revision has a configuration.
