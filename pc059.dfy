/**
 * The PC059 fanout IO board: its reset sequence, the selection of the
 * SFP input mux, and access to its nine SFPs.  The upstream SFP (id 0)
 * has an I2C bus of its own; the eight fanout SFPs (ids 1 to 8) share the
 * main I2C bus behind an I2C switch, which must be pointed at the right
 * channel before their EEPROM is used.
 */
module PC059IONode {
  import opened Wrappers
  import opened Bits
  import opened Registers

  /** The SFP I2C buses the board is constructed with, indexed by `SfpRoute.sfpBus`. */
  const SfpI2CBuses: seq<string> := ["usfp_i2c", "i2c"]

  /** Number of fanout SFPs behind the I2C switch. */
  const FanoutSfps: nat := 8

  /** `InvalidSFPId`: an SFP id outside 0..8. */
  datatype SfpError = InvalidSFPId(id: U32)

  /** Where an SFP's EEPROM is reached: an SFP bus, and the switch channel to select first, if any. */
  datatype SfpRoute = SfpRoute(sfpBus: nat, channel: Option<nat>)

  /** The route to SFP `sfpId`, or the error raised for an id with no SFP. */
  function RouteSfp(sfpId: U32): (r: Result<SfpRoute, SfpError>)
    ensures r.Err? <==> sfpId > FanoutSfps
    ensures r.Err? ==> r.error == InvalidSFPId(sfpId)
    ensures r.Ok? ==> r.value.sfpBus < |SfpI2CBuses|
    ensures r.Ok? ==> (r.value.channel.None? <==> r.value.sfpBus == 0)
    ensures r.Ok? && r.value.channel.Some? ==> r.value.channel.value < FanoutSfps
  {
    if sfpId == 0 then Ok(SfpRoute(0, None))
    else if sfpId < 9 then Ok(SfpRoute(1, Some(sfpId - 1)))
    else Err(InvalidSFPId(sfpId))
  }

  /** The SFP id a route leads to: the upstream SFP, or the fanout SFP on a switch channel. */
  function SfpIdOf(route: SfpRoute): nat
  {
    match route.channel
    case None => 0
    case Some(c) => c + 1
  }

  /** Routing is injective: the route of a valid id leads back to that id. */
  lemma RouteSfpRoundTrip(sfpId: U32)
    requires sfpId <= FanoutSfps
    ensures RouteSfp(sfpId).Ok? && SfpIdOf(RouteSfp(sfpId).value) == sfpId
  {
  }

  /** Every switch channel is the route of exactly one SFP id, the one `SfpIdOf` gives. */
  lemma EveryChannelIsRouted(channel: nat)
    requires channel < FanoutSfps
    ensures RouteSfp(channel + 1) == Ok(SfpRoute(1, Some(channel)))
    ensures forall id: U32 :: RouteSfp(id).Ok? && RouteSfp(id).value.channel == Some(channel) ==> id == channel + 1
  {
  }

  /**
   * The byte written to the I2C switch to select `channel`: `1UL << channel`
   * stored in a `uint8_t`.  It has exactly the bit of the channel set, and
   * none for a channel beyond the switch's eight; shifts of 64 or more are
   * undefined in C++ and excluded.
   */
  function ChannelSelectByte(channel: nat): (b: U8)
    requires channel < 64
    ensures forall i :: Bit(b, i) <==> (i == channel && channel < 8)
  {
    var byte := Pow2(channel) % 256;
    if channel < 8 then
      LowChannelFitsByte(channel);
      forall i ensures Bit(byte, i) <==> i == channel {
        Pow2OneHot(channel, i);
      }
      byte
    else
      HighChannelLeavesByte(channel);
      forall i ensures !Bit(byte, i) {
        ZeroHasNoBits(i);
      }
      byte
  }

  /** For a switch channel, `1 << channel` fits in a byte unchanged. */
  lemma LowChannelFitsByte(channel: nat)
    requires channel < 8
    ensures Pow2(channel) % 256 == Pow2(channel)
  {
    Pow2Increasing(channel, 7);
    assert Pow2(7) == 128;
  }

  /** Beyond the eight channels, `1 << channel` has no bit in the low byte. */
  lemma HighChannelLeavesByte(channel: nat)
    requires channel >= 8
    ensures Pow2(channel) % 256 == 0
  {
    var above := Pow2(channel - 8);
    Pow2Add(8, channel - 8);
    assert Pow2(8) == 256;
    assert Pow2(channel) == 256 * above;
    MultipleOfByteModulus(above);
  }

  lemma MultipleOfByteModulus(k: nat)
    ensures (256 * k) % 256 == 0
  {
  }

  /** What `switch_sfp_i2c_mux_channel(channel)` puts on the bus: a dispatched pulse of the switch reset, then the select byte. */
  function MuxSwitchEvents(pending: seq<Write>, channel: nat): (es: seq<Event>)
    requires channel < 64
  {
    [Committed(pending + [Write(RstI2CMux, 1)]), Committed([Write(RstI2CMux, 0)]),
     I2CAccess(MuxSelect(ChannelSelectByte(channel)))]
  }

  /**
   * `switch_sfp_i2c_mux_channel`: pulses `rst_i2cmux`, dispatching the
   * assertion and the release separately, then writes the select byte to
   * the switch; the switch is thus released from reset before it is
   * addressed.
   */
  method SwitchSfpI2CMuxChannel(bus: Client, channel: U32)
    requires channel < 64
    modifies bus
    ensures bus.trace == old(bus.trace) + MuxSwitchEvents(old(bus.pending), channel)
    ensures bus.regs == old(bus.Staged())[RstI2CMux := 0] && bus.pending == []
    ensures bus.fifo == old(bus.fifo)
  {
    bus.WriteField(RstI2CMux, 1);
    bus.Dispatch();
    bus.WriteField(RstI2CMux, 0);
    bus.Dispatch();
    bus.I2C(MuxSelect(ChannelSelectByte(channel)));
  }

  /**
   * The bus traffic of one access `op` to the EEPROM of the SFP on `route`:
   * the switch is pointed at the channel first when the SFP has one.
   */
  function SfpAccessEvents(pending: seq<Write>, route: SfpRoute, op: I2COp): (es: seq<Event>)
    requires route.channel.Some? ==> route.channel.value < FanoutSfps
  {
    match route.channel
    case None => [I2CAccess(op)]
    case Some(c) => MuxSwitchEvents(pending, c) + [I2CAccess(op)]
  }

  /**
   * `get_sfp_status`: reads the status of SFP `sfpId` from its EEPROM on
   * the bus its route names, or raises `InvalidSFPId` touching nothing.
   * The status text itself is not modelled.
   */
  method GetSfpStatus(bus: Client, sfpId: U32) returns (r: Outcome<SfpError>)
    modifies bus
    ensures r.Fail? <==> sfpId > FanoutSfps
    ensures r.Fail? ==> r.error == InvalidSFPId(sfpId) && bus.trace == old(bus.trace)
                        && bus.regs == old(bus.regs) && bus.pending == old(bus.pending)
    ensures r.Pass? ==> bus.trace == old(bus.trace)
                          + SfpAccessEvents(old(bus.pending), RouteSfp(sfpId).value, SfpStatus(RouteSfp(sfpId).value.sfpBus))
    ensures r.Pass? && sfpId == 0 ==> bus.regs == old(bus.regs) && bus.pending == old(bus.pending)
    ensures r.Pass? && sfpId != 0 ==> bus.regs == old(bus.Staged())[RstI2CMux := 0] && bus.pending == []
    ensures bus.fifo == old(bus.fifo)
  {
    match RouteSfp(sfpId)
    case Err(e) =>
      return Fail(e);
    case Ok(route) =>
      if route.channel.Some? {
        SwitchSfpI2CMuxChannel(bus, route.channel.value);
      }
      bus.I2C(SfpStatus(route.sfpBus));
      return Pass;
  }

  /**
   * `switch_sfp_soft_tx_control_bit`: sets the soft TX-disable control of
   * SFP `sfpId` on or off, or raises `InvalidSFPId` touching nothing.
   */
  method SwitchSfpSoftTxControlBit(bus: Client, sfpId: U32, on: bool) returns (r: Outcome<SfpError>)
    modifies bus
    ensures r.Fail? <==> sfpId > FanoutSfps
    ensures r.Fail? ==> r.error == InvalidSFPId(sfpId) && bus.trace == old(bus.trace)
                        && bus.regs == old(bus.regs) && bus.pending == old(bus.pending)
    ensures r.Pass? ==> bus.trace == old(bus.trace)
                          + SfpAccessEvents(old(bus.pending), RouteSfp(sfpId).value, SfpSoftTx(RouteSfp(sfpId).value.sfpBus, on))
    ensures r.Pass? && sfpId == 0 ==> bus.regs == old(bus.regs) && bus.pending == old(bus.pending)
    ensures r.Pass? && sfpId != 0 ==> bus.regs == old(bus.Staged())[RstI2CMux := 0] && bus.pending == []
    ensures bus.fifo == old(bus.fifo)
  {
    match RouteSfp(sfpId)
    case Err(e) =>
      return Fail(e);
    case Ok(route) =>
      if route.channel.Some? {
        SwitchSfpI2CMuxChannel(bus, route.channel.value);
      }
      bus.I2C(SfpSoftTx(route.sfpBus, on));
      return Pass;
  }

  /** `read_active_sfp_mux_channel`: the committed value of the SFP input mux. */
  method ReadActiveSfpMuxChannel(bus: Client) returns (channel: int)
    modifies bus
    ensures channel == Value(old(bus.Staged()), Mux)
    ensures bus.regs == old(bus.Staged()) && bus.pending == []
    ensures bus.trace == old(bus.trace) + [Committed(old(bus.pending))]
    ensures bus.fifo == old(bus.fifo)
  {
    channel := bus.ReadField(Mux);
  }

  /**
   * `switch_sfp_mux_channel`: selects SFP `sfpId` as the input of the
   * mux, dispatches, and reads the selection back; the value read back is
   * the one written.
   */
  method SwitchSfpMuxChannel(bus: Client, sfpId: U32) returns (active: int)
    modifies bus
    ensures active == sfpId
    ensures bus.regs == old(bus.Staged())[Mux := sfpId] && bus.pending == []
    ensures bus.trace == old(bus.trace) + [Committed(old(bus.pending) + [Write(Mux, sfpId)]), Committed([])]
    ensures bus.fifo == old(bus.fifo)
  {
    bus.WriteField(Mux, sfpId);
    bus.Dispatch();
    active := ReadActiveSfpMuxChannel(bus);
  }

  /** The reset pulses of the PLL, the I2C master and the I2C switch, committed in one dispatch. */
  function ResetPulses(): seq<Write>
  {
    [Write(PllRst, 1), Write(PllRst, 0), Write(RstI2C, 1), Write(RstI2C, 0), Write(RstI2CMux, 1), Write(RstI2CMux, 0)]
  }

  /**
   * The SFP expander set-up, as the raw driver calls: inversion mask 0x00
   * on banks 0 and 1, I/O mask 0x00 on bank 0 and 0xff on bank 1, then
   * outputs 0x00 on bank 0.  The meaning of the masks belongs to the
   * expander driver, which is not part of this model.
   */
  function ExpanderSetup(): seq<Event>
  {
    [I2CAccess(ExpanderInversion(0, 0x00)), I2CAccess(ExpanderInversion(1, 0x00)),
     I2CAccess(ExpanderIO(0, 0x00)), I2CAccess(ExpanderIO(1, 0xff)),
     I2CAccess(ExpanderOutputs(0, 0x00))]
  }

  /** The bus traffic of `reset(fanoutMode, clockConfigFile)` after the soft reset. */
  function ResetEvents(pending: seq<Write>, fanoutMode: int, clockConfigFile: string): (es: seq<Event>)
    ensures |es| == 10
    ensures es[0] == Committed(pending + ResetPulses())
    ensures es[1] == I2CAccess(EnableAX3Switch) && es[2] == I2CAccess(ConfigurePll(fanoutMode, clockConfigFile))
    ensures es[3] == Committed([Write(Mux, 0)])
    ensures es[9] == Committed([Write(RstLockMon, 1), Write(RstLockMon, 0)])
  {
    [Committed(pending + ResetPulses()),
     I2CAccess(EnableAX3Switch),
     I2CAccess(ConfigurePll(fanoutMode, clockConfigFile)),
     Committed([Write(Mux, 0)])]
    + ExpanderSetup()
    + [Committed([Write(RstLockMon, 1), Write(RstLockMon, 0)])]
  }

  /** The first step of `reset`: the PLL, I2C master and I2C switch reset pulses, committed in one dispatch. */
  method PulseResets(bus: Client)
    modifies bus
    ensures bus.trace == old(bus.trace) + [Committed(old(bus.pending) + ResetPulses())]
    ensures bus.regs == old(bus.Staged())[PllRst := 1][PllRst := 0][RstI2C := 1][RstI2C := 0][RstI2CMux := 1][RstI2CMux := 0] && bus.pending == []
    ensures bus.fifo == old(bus.fifo)
  {
    ghost var queued := bus.pending;
    bus.WriteField(PllRst, 1);
    bus.WriteField(PllRst, 0);
    bus.WriteField(RstI2C, 1);
    bus.WriteField(RstI2C, 0);
    bus.WriteField(RstI2CMux, 1);
    bus.WriteField(RstI2CMux, 0);
    assert bus.pending == queued + [Write(PllRst, 1), Write(PllRst, 0), Write(RstI2C, 1), Write(RstI2C, 0), Write(RstI2CMux, 1), Write(RstI2CMux, 0)];
    bus.Dispatch();
  }

  /** The SFP expander step of `reset`. */
  method SetUpSfpExpander(bus: Client)
    modifies bus
    ensures bus.trace == old(bus.trace) + ExpanderSetup()
    ensures bus.regs == old(bus.regs) && bus.pending == old(bus.pending) && bus.fifo == old(bus.fifo)
  {
    bus.I2C(ExpanderInversion(0, 0x00));
    bus.I2C(ExpanderInversion(1, 0x00));
    bus.I2C(ExpanderIO(0, 0x00));
    bus.I2C(ExpanderIO(1, 0xff));
    bus.I2C(ExpanderOutputs(0, 0x00));
  }

  /**
   * `reset(fanoutMode, clockConfigFile)`: pulses the PLL, I2C master and
   * I2C switch resets in one dispatch, enables the enclustra I2C switch,
   * loads the PLL configuration, selects mux input 0, sets up the SFP
   * expander, and finally pulses the lock monitor reset.  Every reset
   * line ends released and the mux selects input 0.
   */
  method Reset(bus: Client, fanoutMode: int, clockConfigFile: string)
    modifies bus
    ensures bus.trace == old(bus.trace) + ResetEvents(old(bus.pending), fanoutMode, clockConfigFile)
    ensures bus.regs == old(bus.Staged())[PllRst := 1][PllRst := 0][RstI2C := 1][RstI2C := 0][RstI2CMux := 1][RstI2CMux := 0][Mux := 0][RstLockMon := 1][RstLockMon := 0]
    ensures Value(bus.regs, PllRst) == 0 && Value(bus.regs, RstI2C) == 0 && Value(bus.regs, RstI2CMux) == 0
    ensures Value(bus.regs, RstLockMon) == 0 && Value(bus.regs, Mux) == 0
    ensures bus.pending == [] && bus.fifo == old(bus.fifo)
  {
    PulseResets(bus);
    ghost var t0 := bus.trace;
    ConfigureClocking(bus, fanoutMode, clockConfigFile);
    ghost var t1 := bus.trace;
    SetUpSfpExpander(bus);
    ghost var t2 := bus.trace;
    PulseLockMonitorReset(bus);
    assert bus.trace == t2 + [Committed([Write(RstLockMon, 1), Write(RstLockMon, 0)])];
    assert t1 == t0 + [I2CAccess(EnableAX3Switch), I2CAccess(ConfigurePll(fanoutMode, clockConfigFile)), Committed([Write(Mux, 0)])];
  }

  /** The clocking step of `reset`: enables the enclustra I2C switch, loads the PLL configuration and selects mux input 0. */
  method ConfigureClocking(bus: Client, fanoutMode: int, clockConfigFile: string)
    requires bus.pending == []
    modifies bus
    ensures bus.trace == old(bus.trace) + [I2CAccess(EnableAX3Switch), I2CAccess(ConfigurePll(fanoutMode, clockConfigFile)),
                                       Committed([Write(Mux, 0)])]
    ensures bus.regs == old(bus.regs)[Mux := 0] && bus.pending == [] && bus.fifo == old(bus.fifo)
  {
    bus.I2C(EnableAX3Switch);
    bus.I2C(ConfigurePll(fanoutMode, clockConfigFile));
    bus.WriteField(Mux, 0);
    bus.Dispatch();
  }

  /** The last step of `reset`: the lock monitor reset pulse, in one dispatch. */
  method PulseLockMonitorReset(bus: Client)
    requires bus.pending == []
    modifies bus
    ensures bus.trace == old(bus.trace) + [Committed([Write(RstLockMon, 1), Write(RstLockMon, 0)])]
    ensures bus.regs == old(bus.regs)[RstLockMon := 1][RstLockMon := 0] && bus.pending == [] && bus.fifo == old(bus.fifo)
  {
    bus.WriteField(RstLockMon, 1);
    bus.WriteField(RstLockMon, 0);
    assert bus.pending == [Write(RstLockMon, 1), Write(RstLockMon, 0)];
    bus.Dispatch();
  }

  /** `reset(clockConfigFile)`: the reset with the default fanout mode, -1. */
  method ResetDefault(bus: Client, clockConfigFile: string)
    modifies bus
    ensures bus.trace == old(bus.trace) + ResetEvents(old(bus.pending), -1, clockConfigFile)
    ensures bus.regs == old(bus.Staged())[PllRst := 1][PllRst := 0][RstI2C := 1][RstI2C := 0][RstI2CMux := 1][RstI2CMux := 0][Mux := 0][RstLockMon := 1][RstLockMon := 0]
    ensures Value(bus.regs, PllRst) == 0 && Value(bus.regs, RstI2C) == 0 && Value(bus.regs, RstI2CMux) == 0
    ensures Value(bus.regs, RstLockMon) == 0 && Value(bus.regs, Mux) == 0
    ensures bus.pending == [] && bus.fifo == old(bus.fifo)
  {
    Reset(bus, -1, clockConfigFile);
  }
}
