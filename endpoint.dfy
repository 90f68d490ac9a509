/**
 * A timing endpoint (`EndpointNode`): joining a partition under an
 * address, leaving it, and reading its data buffer out as a table.
 */
module EndpointNode {
  import opened Wrappers
  import opened Registers
  import opened Readout


  /** The writes `enable(partition, address)` queues, in order. */
  function EnableWrites(partition: U32, address: U32): seq<Write>
  {
    [Write(Tgrp, partition)] + AddressWrites(address) + CounterAndEnableWrites()
  }

  /** The internal-address writes of `enable`: the address is set only when one is given. */
  function AddressWrites(address: U32): seq<Write>
  {
    if address != 0 then [Write(IntAddr, 1), Write(Addr, address)] else [Write(IntAddr, 0)]
  }

  /** The closing writes of `enable`: a counter reset pulse, then the endpoint and its buffer on. */
  function CounterAndEnableWrites(): seq<Write>
  {
    [Write(CtrRst, 1), Write(CtrRst, 0), Write(EpEn, 1), Write(BufEn, 1)]
  }

  /** The writes `disable()` queues, in order; `reset` queues them too before enabling. */
  function DisableWrites(): seq<Write>
  {
    [Write(EpEn, 0), Write(BufEn, 0)]
  }

  lemma LastWriteOfAddress(address: U32, f: Field)
    ensures LastWrite(AddressWrites(address), f) ==
      match f
      case IntAddr => Some(if address != 0 then 1 else 0)
      case Addr => if address != 0 then Some(address as int) else None
      case _ => None
  {
    if address != 0 {
      assert AddressWrites(address) == [Write(IntAddr, 1)] + [Write(Addr, address)];
      LastWriteSnoc([Write(IntAddr, 1)], Write(Addr, address), f);
      LastWriteSingle(Write(IntAddr, 1), f);
    } else {
      LastWriteSingle(Write(IntAddr, 0), f);
    }
  }

  lemma LastWriteOfCounterAndEnable(f: Field)
    ensures LastWrite(CounterAndEnableWrites(), f) ==
      match f
      case CtrRst => Some(0)
      case EpEn => Some(1)
      case BufEn => Some(1)
      case _ => None
  {
    var w0 := [Write(CtrRst, 1)];
    var w1 := w0 + [Write(CtrRst, 0)];
    var w2 := w1 + [Write(EpEn, 1)];
    assert CounterAndEnableWrites() == w2 + [Write(BufEn, 1)];
    LastWriteSnoc(w2, Write(BufEn, 1), f);
    LastWriteSnoc(w1, Write(EpEn, 1), f);
    LastWriteSnoc(w0, Write(CtrRst, 0), f);
    LastWriteSingle(Write(CtrRst, 1), f);
  }

  /** The last value `enable` writes to each field. */
  lemma {:induction false} EnableLastWrites(partition: U32, address: U32, f: Field)
    ensures LastWrite(EnableWrites(partition, address), f) ==
      match f
      case Tgrp => Some(partition as int)
      case IntAddr => Some(if address != 0 then 1 else 0)
      case Addr => if address != 0 then Some(address as int) else None
      case CtrRst => Some(0)
      case EpEn => Some(1)
      case BufEn => Some(1)
      case _ => None
  {
    var head := [Write(Tgrp, partition)];
    LastWriteConcat(head + AddressWrites(address), CounterAndEnableWrites(), f);
    LastWriteOfCounterAndEnable(f);
    LastWriteConcat(head, AddressWrites(address), f);
    LastWriteOfAddress(address, f);
    LastWriteSingle(Write(Tgrp, partition), f);
  }

  /**
   * Enabling selects the partition, turns the internal address on exactly
   * when an address is given (leaving `addr` alone otherwise), leaves the
   * counter reset released, and enables the endpoint and its buffer; every
   * other field keeps its value.
   */
  lemma EnableEffect(regs: map<Field, int>, partition: U32, address: U32, f: Field)
    ensures var after := Value(Apply(regs, EnableWrites(partition, address)), f);
      && (f == Tgrp ==> after == partition)
      && (f == IntAddr ==> after == if address != 0 then 1 else 0)
      && (f == Addr ==> after == if address != 0 then address else Value(regs, Addr))
      && (f == CtrRst ==> after == 0)
      && (f == EpEn ==> after == 1)
      && (f == BufEn ==> after == 1)
      && (f !in {Tgrp, IntAddr, Addr, CtrRst, EpEn, BufEn} ==> after == Value(regs, f))
  {
    ApplyAt(regs, EnableWrites(partition, address), f);
    EnableLastWrites(partition, address, f);
  }

  /** `enable` pulses the counter reset: it is written 1 and then 0, with nothing between. */
  lemma EnablePulsesCounterReset(partition: U32, address: U32)
    ensures exists i :: 0 <= i < |EnableWrites(partition, address)| - 1
                        && EnableWrites(partition, address)[i] == Write(CtrRst, 1)
                        && EnableWrites(partition, address)[i + 1] == Write(CtrRst, 0)
  {
    var i := |AddressWrites(address)| + 1;
    assert EnableWrites(partition, address)[i] == Write(CtrRst, 1);
    assert EnableWrites(partition, address)[i + 1] == Write(CtrRst, 0);
  }

  /** `reset(partition, address)` leaves every field exactly as `enable(partition, address)` does. */
  lemma ResetEndsAsEnable(regs: map<Field, int>, partition: U32, address: U32)
    ensures forall f :: Value(Apply(regs, DisableWrites() + EnableWrites(partition, address)), f)
                        == Value(Apply(regs, EnableWrites(partition, address)), f)
  {
    var ws := DisableWrites() + EnableWrites(partition, address);
    var vs := EnableWrites(partition, address);
    forall f
      ensures LastWrite(ws, f) == LastWrite(vs, f)
    {
      LastWriteConcat(DisableWrites(), vs, f);
      EnableLastWrites(partition, address, f);
    }
    ApplySameLastWrites(regs, ws, vs);
  }

  /** `enable`: joins `partition` under `address` (0: no internal address), in one dispatch. */
  method Enable(bus: Client, partition: U32, address: U32)
    modifies bus
    ensures bus.trace == old(bus.trace) + [Committed(old(bus.pending) + EnableWrites(partition, address))]
    ensures bus.regs == Apply(old(bus.Staged()), EnableWrites(partition, address)) && bus.pending == []
    ensures bus.fifo == old(bus.fifo)
  {
    ghost var queued := bus.pending;
    bus.WriteField(Tgrp, partition);
    QueueAddressWrites(bus, address);
    QueueCounterAndEnableWrites(bus);
    assert bus.pending == queued + EnableWrites(partition, address);
    ApplyConcat(old(bus.regs), old(bus.pending), EnableWrites(partition, address));
    bus.Dispatch();
  }

  /** The internal-address step of `enable`, queued without dispatching. */
  method QueueAddressWrites(bus: Client, address: U32)
    modifies bus
    ensures bus.pending == old(bus.pending) + AddressWrites(address)
    ensures bus.regs == old(bus.regs) && bus.trace == old(bus.trace) && bus.fifo == old(bus.fifo)
  {
    if address != 0 {
      bus.WriteField(IntAddr, 1);
      bus.WriteField(Addr, address);
    } else {
      bus.WriteField(IntAddr, 0);
    }
  }

  /** The closing step of `enable`, queued without dispatching. */
  method QueueCounterAndEnableWrites(bus: Client)
    modifies bus
    ensures bus.pending == old(bus.pending) + CounterAndEnableWrites()
    ensures bus.regs == old(bus.regs) && bus.trace == old(bus.trace) && bus.fifo == old(bus.fifo)
  {
    bus.WriteField(CtrRst, 1);
    bus.WriteField(CtrRst, 0);
    bus.WriteField(EpEn, 1);
    bus.WriteField(BufEn, 1);
  }

  /** `disable`: turns the endpoint and its buffer off, in one dispatch. */
  method Disable(bus: Client)
    modifies bus
    ensures bus.trace == old(bus.trace) + [Committed(old(bus.pending) + DisableWrites())]
    ensures bus.regs == old(bus.Staged())[EpEn := 0][BufEn := 0] && bus.pending == []
    ensures bus.fifo == old(bus.fifo)
  {
    ghost var queued := bus.pending;
    bus.WriteField(EpEn, 0);
    bus.WriteField(BufEn, 0);
    assert bus.pending == queued + [Write(EpEn, 0), Write(BufEn, 0)];
    bus.Dispatch();
  }

  /** `reset`: queues the disabling writes, then enables; all in the one dispatch `enable` makes. */
  method Reset(bus: Client, partition: U32, address: U32)
    modifies bus
    ensures bus.trace == old(bus.trace) + [Committed(old(bus.pending) + DisableWrites() + EnableWrites(partition, address))]
    ensures bus.regs == Apply(old(bus.Staged()), DisableWrites() + EnableWrites(partition, address))
    ensures forall f :: Value(bus.regs, f) == Value(Apply(old(bus.Staged()), EnableWrites(partition, address)), f)
    ensures bus.pending == []
    ensures bus.fifo == old(bus.fifo)
  {
    ghost var queued := bus.pending;
    bus.WriteField(EpEn, 0);
    bus.WriteField(BufEn, 0);
    assert bus.pending == queued + [Write(EpEn, 0), Write(BufEn, 0)];
    ApplyConcat(old(bus.regs), old(bus.pending), DisableWrites());
    Enable(bus, partition, address);
    ApplyConcat(old(bus.Staged()), DisableWrites(), EnableWrites(partition, address));
    ResetEndsAsEnable(old(bus.Staged()), partition, address);
  }

  /**
   * `read_data_buffer`: reads the buffer's whole word count when
   * `readAll` is set, otherwise only the words of complete events of
   * `eventSize` words (`kEventSize`).
   */
  method ReadDataBuffer(bus: Client, readAll: bool, eventSize: nat) returns (words: seq<int>)
    requires bus.Valid() && eventSize > 0
    modifies bus
    ensures bus.Valid()
    ensures var n := WordsToRead(|old(bus.fifo)|, readAll, eventSize);
      && words == old(bus.fifo)[..n] && bus.fifo == old(bus.fifo)[n..]
    ensures bus.trace == old(bus.trace) + [Committed(old(bus.pending)), Committed([]), BlockRead(WordsToRead(|old(bus.fifo)|, readAll, eventSize))]
    ensures bus.regs == old(bus.Staged()) && bus.pending == []
  {
    var count := bus.ReadBufferCount();
    var toRead := WordsToRead(count, readAll, eventSize);
    words := bus.ReadBlock(toRead);
  }

  /** `get_data_buffer_table`: one row per word read, labelled with its index. */
  method GetDataBufferTable(bus: Client, readAll: bool, eventSize: nat) returns (rows: seq<Row>)
    requires bus.Valid() && eventSize > 0
    modifies bus
    ensures bus.Valid()
    ensures var n := WordsToRead(|old(bus.fifo)|, readAll, eventSize);
      && |rows| == n && bus.fifo == old(bus.fifo)[n..]
      && bus.trace == old(bus.trace) + [Committed(old(bus.pending)), Committed([]), BlockRead(n)]
    ensures forall i :: 0 <= i < |rows| ==> rows[i] == Row(IndexLabel(i), old(bus.fifo)[i])
    ensures bus.regs == old(bus.Staged()) && bus.pending == []
  {
    var words := ReadDataBuffer(bus, readAll, eventSize);
    rows := BufferTableRows(words);
  }
}
