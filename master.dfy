/**
 * The integer logic of the timing master command line: the firmware
 * version gate, the board UID read from the PROM and the revision and
 * clock configuration it selects, the partition trigger mask, the
 * readback size and the 64-bit timestamp.  Bus traffic, console output
 * and floating-point arithmetic are not part of this module.
 */
module MasterCli {
  import opened Wrappers
  import opened Bits
  import opened Readout

  /** `kMasterFWMajorRequired`: the oldest master firmware major version accepted. */
  const MasterFWMajorRequired: nat := 4

  // ---------------------------------------------------------------------
  // Firmware version

  datatype Version = Version(major: nat, minor: nat, patch: nat)

  /** The firmware version word split into its three 8-bit fields (bits 23..16, 15..8 and 7..0). */
  function DecodeVersion(v: U32): (ver: Version)
    ensures ver.major < 256 && ver.minor < 256 && ver.patch < 256
    ensures EncodeVersion(ver) == v % 0x100_0000
  {
    var ver := Version((v / 0x1_0000) % 256, (v / 256) % 256, v % 256);
    assert v % 0x1_0000 == ((v / 256) % 256) * 256 + v % 256;
    assert v % 0x100_0000 == ((v / 0x1_0000) % 256) * 0x1_0000 + v % 0x1_0000;
    ver
  }

  /** The version word of a version whose fields each fit in 8 bits, with bits 31..24 clear. */
  function EncodeVersion(ver: Version): nat
  {
    ver.major * 0x1_0000 + ver.minor * 256 + ver.patch
  }

  /** Decoding inverts encoding for every version whose fields fit in 8 bits. */
  lemma DecodeEncodeVersion(ver: Version)
    requires ver.major < 256 && ver.minor < 256 && ver.patch < 256
    ensures EncodeVersion(ver) < 0x100_0000
    ensures DecodeVersion(EncodeVersion(ver)) == ver
  {
    var v := EncodeVersion(ver);
    assert v / 256 == ver.major * 256 + ver.minor;
    assert v / 0x1_0000 == ver.major;
  }

  /** `IncompatibleFirmware`: the master firmware is older than required. */
  datatype FirmwareError = IncompatibleFirmware(found: nat, required: nat)

  /** The version gate of the `mst` command group. */
  function CheckMasterFirmware(v: U32): (r: Outcome<FirmwareError>)
    ensures r.Pass? <==> DecodeVersion(v).major >= MasterFWMajorRequired
    ensures r.Fail? ==> r.error == IncompatibleFirmware(DecodeVersion(v).major, MasterFWMajorRequired)
  {
    var major := DecodeVersion(v).major;
    if major < MasterFWMajorRequired then Fail(IncompatibleFirmware(major, MasterFWMajorRequired)) else Pass
  }

  /** The gate reads only bits 23..0: a version word passes exactly when they are at least 0x040000. */
  lemma {:induction false} FirmwareGateThreshold(v: U32)
    ensures CheckMasterFirmware(v).Pass? <==> v % 0x100_0000 >= 0x04_0000
  {
    var ver := DecodeVersion(v);
    assert v % 0x100_0000 == ver.major * 0x1_0000 + ver.minor * 256 + ver.patch;
    assert ver.minor * 256 + ver.patch < 0x1_0000;
  }

  // ---------------------------------------------------------------------
  // Board UID

  /** Number of PROM bytes that form the UID. */
  const UidBytes: nat := 6

  /** The big-endian value of `bytes`: the first byte is the most significant. */
  function FoldBE(bytes: seq<U8>): nat
  {
    if bytes == [] then 0 else FoldBE(bytes[..|bytes| - 1]) * 256 + bytes[|bytes| - 1]
  }

  /**
   * The UID loop of `reset`: shifts the accumulator left by one byte and
   * ORs in the next PROM byte, for each byte in order.
   */
  method FoldUid(values: seq<U8>) returns (uid: nat)
    ensures uid == FoldBE(values)
    ensures uid < Pow2(8 * |values|)
  {
    uid := 0;
    for i := 0 to |values|
      invariant uid == FoldBE(values[..i])
    {
      assert Pow2(8) == 256;
      OrShiftedIsAdd(uid, 8, values[i]);
      uid := Or(uid * Pow2(8), values[i]);
      assert values[..i + 1][..i] == values[..i];
    }
    assert values[..|values|] == values;
    FoldBEBound(values);
  }

  /** `n` bytes hold a value below 2^(8n). */
  lemma {:induction false} FoldBEBound(bytes: seq<U8>)
    ensures FoldBE(bytes) < Pow2(8 * |bytes|)
  {
    if bytes != [] {
      var n := |bytes|;
      FoldBEBound(bytes[..n - 1]);
      Pow2Add(8 * (n - 1), 8);
      assert Pow2(8) == 256;
      assert Pow2(8 * n) == Pow2(8 * (n - 1)) * 256;
      assert FoldBE(bytes) <= (Pow2(8 * (n - 1)) - 1) * 256 + 255;
    }
  }

  /** The `n` bytes, most significant first, of a value below 2^(8n). */
  function BytesBE(value: nat, n: nat): (bytes: seq<U8>)
    ensures |bytes| == n
  {
    if n == 0 then [] else BytesBE(value / 256, n - 1) + [value % 256]
  }

  /** Splitting a folded UID back into bytes gives the PROM bytes: the fold is injective. */
  lemma {:induction false} BytesFoldRoundTrip(bytes: seq<U8>)
    ensures BytesBE(FoldBE(bytes), |bytes|) == bytes
  {
    if bytes != [] {
      var n := |bytes|;
      var rest := bytes[..n - 1];
      var last: nat := bytes[n - 1];
      assert (FoldBE(rest) * 256 + last) / 256 == FoldBE(rest);
      assert (FoldBE(rest) * 256 + last) % 256 == last;
      BytesFoldRoundTrip(rest);
      assert bytes == rest + [bytes[n - 1]];
    }
  }

  /** Two PROM reads of the same length give the same UID only when they are the same bytes. */
  lemma UidDeterminesBytes(a: seq<U8>, b: seq<U8>)
    requires |a| == |b| && FoldBE(a) == FoldBE(b)
    ensures a == b
  {
    BytesFoldRoundTrip(a);
    BytesFoldRoundTrip(b);
  }

  /** A 6-byte UID is below 2^48. */
  lemma UidBelow48Bits(bytes: seq<U8>)
    requires |bytes| == UidBytes
    ensures FoldBE(bytes) < 0x1_0000_0000_0000
  {
    FoldBEBound(bytes);
    Pow2Add(24, 24);
    Pow2Add(8, 16);
    Pow2Add(8, 8);
    assert Pow2(8) == 256;
  }

  // ---------------------------------------------------------------------
  // Board revisions and clock configurations

  const FMCRev1: nat := 1
  const FMCRev2: nat := 2
  const PC059Rev1: nat := 3
  const PC059FanoutHDMI: nat := 4
  const PC059FanoutSFP: nat := 5
  const TLURev1: nat := 6

  /** `kClockConfigMap`: the PLL configuration file of each board revision. */
  const ClockConfigMap: map<nat, string> := map[
    FMCRev1 := "SI5344/PDTS0000.txt",
    FMCRev2 := "SI5344/PDTS0003.txt",
    PC059Rev1 := "SI5345/PDTS0005.txt",
    PC059FanoutHDMI := "devel/PDTS_PC059_FANOUT.txt",
    PC059FanoutSFP := "devel/PDTS_PC059_FANOUT_SFP_IN.txt",
    TLURev1 := "devel/PDTS_TLU_MASTER_ONLYLEMOIN.txt"
  ]

  /** `kUIDRevisionMap`: the revision of each known board, by PROM UID. */
  const UidRevisionMap: map<nat, nat> := map[
    0xd880395e720b := FMCRev1,
    0xd880395e501a := FMCRev1,
    0xd880395e50b8 := FMCRev1,
    0xd880395e501b := FMCRev1,
    0xd880395e7201 := FMCRev1,
    0xd880395e4fcc := FMCRev1,
    0xd880395e5069 := FMCRev1,
    0xd880395e7206 := FMCRev1,
    0xd880395e1c86 := FMCRev2,
    0xd880395e2630 := FMCRev2,
    0xd880395e262b := FMCRev2,
    0xd880395e2b38 := FMCRev2,
    0xd880395e1a6a := FMCRev2,
    0xd880395e36ae := FMCRev2,
    0xd880395e2b2e := FMCRev2,
    0xd880395e2b33 := FMCRev2,
    0xd880395e1c81 := FMCRev2,
    0x5410ec6476f1 := FMCRev2,
    0xd88039d980cf := PC059Rev1,
    0xd88039d98adf := PC059Rev1,
    0xd88039d92491 := PC059Rev1,
    0xd88039d9248e := PC059Rev1,
    0xd88039d98ae9 := PC059Rev1,
    0xd88039d92498 := PC059Rev1
  ]

  /** Every registered board is an FMC or PC059 of a revision with a clock configuration. */
  lemma EveryRevisionHasClockConfig()
    ensures forall uid :: uid in UidRevisionMap ==> UidRevisionMap[uid] in {FMCRev1, FMCRev2, PC059Rev1}
    ensures forall uid :: uid in UidRevisionMap ==> UidRevisionMap[uid] in ClockConfigMap
  {
  }

  /** Every registered UID fits in the 6 PROM bytes. */
  lemma RegisteredUidsFitInProm()
    ensures forall uid :: uid in UidRevisionMap ==> uid < 0x1_0000_0000_0000
  {
  }

  datatype Board = Sim | FMC | PC059 | Microzed | TLU
  datatype Carrier = EnclustraA35 | KC705 | MicrozedCarrier

  /** The I2C switch `reset` opens before it reads the UID PROM. */
  datatype UidSwitch = AX3Switch | KC705Switch

  datatype ResetError =
    | UnknownBoardKind(board: Board)
    | NoRevisionForUid(uid: nat)
    | NoClockConfigForRevision(revision: nat)

  /**
   * The switch choice as `reset` writes it: when no switch applies, the
   * "Unknown board kind" exception is constructed but never raised, so the
   * reset carries on with no switch opened (`None`).
   */
  function UidSwitchAsWritten(board: Board, carrier: Carrier): (s: Option<UidSwitch>)
    ensures s == None <==> UidSwitchFor(board, carrier).Err?
    ensures s.Some? ==> UidSwitchFor(board, carrier) == Ok(s.value)
  {
    if board == TLU || board == PC059 || (board == FMC && carrier == EnclustraA35) then Some(AX3Switch)
    else if carrier == KC705 then Some(KC705Switch)
    else None
  }

  /** A Microzed board on a Microzed carrier opens no switch and raises nothing. */
  lemma UnknownBoardIsNotRejected()
    ensures UidSwitchAsWritten(Microzed, MicrozedCarrier) == None
    ensures UidSwitchFor(Microzed, MicrozedCarrier) == Err(UnknownBoardKind(Microzed))
  {
  }

  /**
   * The I2C switch to open before the UID is read: the AX3 switch on TLU
   * and PC059 boards and on an FMC on an Enclustra A35 carrier, otherwise
   * the KC705 switch on a KC705 carrier; any other board is rejected.
   */
  function UidSwitchFor(board: Board, carrier: Carrier): (r: Result<UidSwitch, ResetError>)
    ensures r == Ok(AX3Switch) <==> board in {TLU, PC059} || (board == FMC && carrier == EnclustraA35)
    ensures r == Ok(KC705Switch) <==> board !in {TLU, PC059} && !(board == FMC && carrier == EnclustraA35) && carrier == KC705
    ensures r.Err? ==> r.error == UnknownBoardKind(board)
  {
    if board == TLU || board == PC059 || (board == FMC && carrier == EnclustraA35) then Ok(AX3Switch)
    else if carrier == KC705 then Ok(KC705Switch)
    else Err(UnknownBoardKind(board))
  }

  /** The PROM slave the UID is read from. */
  function PromSlave(board: Board): string
  {
    if board == TLU then "UID_PROM" else "FMC_UID_PROM"
  }

  /**
   * The clock configuration file of a hard reset, relative to the clock
   * configuration directory unless it is a forced file.  Every board but
   * the TLU must have a registered UID, checked before a forced file is
   * considered; without a forced file the TLU uses its own configuration,
   * a PC059 in fanout mode 1 or 2 the HDMI or SFP fanout configuration, and
   * every other board the configuration of its revision.
   */
  function SelectClockConfig(board: Board, fanout: nat, forced: Option<string>, uid: nat): (r: Result<string, ResetError>)
    ensures r.Err? <==> board != TLU && uid !in UidRevisionMap
    ensures r.Err? ==> r.error == NoRevisionForUid(uid)
    ensures r.Ok? && forced.Some? ==> r.value == forced.value
    ensures forced.None? && board == TLU ==> r == Ok("devel/PDTS_TLU_MASTER_ONLYLEMOIN.txt")
    ensures r.Ok? && forced.None? && board == PC059 && fanout == 1 ==> r.value == "devel/PDTS_PC059_FANOUT.txt"
    ensures r.Ok? && forced.None? && board == PC059 && fanout == 2 ==> r.value == "devel/PDTS_PC059_FANOUT_SFP_IN.txt"
    ensures r.Ok? && forced.None? && board != TLU && !(board == PC059 && fanout in {1, 2}) ==>
              r.value == ClockConfigMap[UidRevisionMap[uid]] && r.value in ClockConfigMap.Values
  {
    EveryRevisionHasClockConfig();
    if board != TLU && uid !in UidRevisionMap then Err(NoRevisionForUid(uid))
    else if forced.Some? then Ok(forced.value)
    else if board == TLU then Ok(ClockConfigMap[TLURev1])
    else if board == PC059 && fanout in {1, 2} then Ok(ClockConfigMap[if fanout == 1 then PC059FanoutHDMI else PC059FanoutSFP])
    else
      var revision := UidRevisionMap[uid];
      if revision in ClockConfigMap then Ok(ClockConfigMap[revision]) else Err(NoClockConfigForRevision(revision))
  }

  /** What a `reset` of the master board uses once the PLL and I2C resets are released. */
  datatype ResetPlan = ResetPlan(uidSwitch: UidSwitch, promSlave: string, clockConfig: string)

  /**
   * The decisions of `reset`: a soft reset, or any reset of the simulation
   * board, skips the hardware part (`None`); otherwise the UID switch and
   * the clock configuration, with the unknown-board error raised.
   */
  function PlanReset(soft: bool, board: Board, carrier: Carrier, fanout: nat, forced: Option<string>, uid: nat)
    : (r: Result<Option<ResetPlan>, ResetError>)
    ensures (soft || board == Sim) <==> r == Ok(None)
    ensures r.Err? <==> !soft && board != Sim && (UidSwitchFor(board, carrier).Err? || SelectClockConfig(board, fanout, forced, uid).Err?)
    ensures r.Err? && UidSwitchFor(board, carrier).Err? ==> r.error == UnknownBoardKind(board)
    ensures r.Err? && UidSwitchFor(board, carrier).Ok? ==> r.error == SelectClockConfig(board, fanout, forced, uid).error
    ensures r.Ok? && r.value.Some? ==> r.value.value.clockConfig == SelectClockConfig(board, fanout, forced, uid).value
                                       && r.value.value.uidSwitch == UidSwitchFor(board, carrier).value
                                       && r.value.value.promSlave == (if board == TLU then "UID_PROM" else "FMC_UID_PROM")
  {
    if soft || board == Sim then Ok(None)
    else
      match UidSwitchFor(board, carrier)
      case Err(e) => Err(e)
      case Ok(switch) =>
        match SelectClockConfig(board, fanout, forced, uid)
        case Err(e) => Err(e)
        case Ok(file) => Ok(Some(ResetPlan(switch, PromSlave(board), file)))
  }

  // ---------------------------------------------------------------------
  // Partition trigger mask

  /**
   * The trigger mask `configure` writes: the physical trigger mask shifted
   * above the four fake-trigger bits, ORed with the fake-trigger bit of the
   * partition.
   */
  function TriggerMask(physMask: nat, partId: nat): (m: nat)
    ensures partId < 4 ==> m % 16 == Pow2(partId) && m / 16 == physMask
  {
    if partId < 4 then
      FakeBitBelowPhysical(physMask, partId);
      Or(physMask * Pow2(4), Pow2(partId))
    else
      Or(physMask * Pow2(4), Pow2(partId))
  }

  /** The fake-trigger bit of a partition 0..3 sits below the shifted physical mask, so OR-ing it in adds it. */
  lemma FakeBitBelowPhysical(physMask: nat, partId: nat)
    requires partId < 4
    ensures Or(physMask * Pow2(4), Pow2(partId)) == physMask * 16 + Pow2(partId)
    ensures Pow2(partId) < 16
  {
    Pow2Increasing(partId, 3);
    assert Pow2(3) == 8;
    assert Pow2(4) == 16;
    OrShiftedIsAdd(physMask, 4, Pow2(partId));
  }

  /** Distinct partitions (0..3) or physical masks give distinct trigger masks. */
  lemma TriggerMaskInjective(phys1: nat, part1: nat, phys2: nat, part2: nat)
    requires part1 < 4 && part2 < 4
    requires TriggerMask(phys1, part1) == TriggerMask(phys2, part2)
    ensures phys1 == phys2 && part1 == part2
  {
    if part1 != part2 {
      Pow2OneHot(part1, part1);
      Pow2OneHot(part2, part1);
    }
  }

  // ---------------------------------------------------------------------
  // Readback and timestamps

  /** `kEventSize`: words per event in the master readout buffer. */
  const EventSize: nat := 6

  /** The words `readback` reads: all of them, or only complete events. */
  function ReadbackWords(count: U32, readAll: bool): (n: U32)
    ensures n <= count
    ensures readAll ==> n == count
    ensures !readAll ==> n % EventSize == 0 && count - n < EventSize
  {
    var n := WordsToRead(count, readAll, EventSize);
    assert !readAll ==> n % EventSize == 0 by {
      if !readAll {
        var k: nat :| n == k * EventSize;
      }
    }
    n
  }

  /** The 64-bit timestamp from its two 32-bit words, low word first. */
  function Timestamp(low: U32, high: U32): (t: nat)
    ensures t < 0x1_0000_0000_0000_0000
    ensures t % 0x1_0000_0000 == low && t / 0x1_0000_0000 == high
  {
    low + high * 0x1_0000_0000
  }

  /** The two words of a 64-bit timestamp, low word first. */
  function SplitTimestamp(t: nat): (words: (U32, U32))
    requires t < 0x1_0000_0000_0000_0000
  {
    (t % 0x1_0000_0000, t / 0x1_0000_0000)
  }

  /** Every 64-bit value is the timestamp of exactly one pair of words. */
  lemma TimestampRoundTrip(t: nat)
    requires t < 0x1_0000_0000_0000_0000
    ensures Timestamp(SplitTimestamp(t).0, SplitTimestamp(t).1) == t
  {
  }
}
