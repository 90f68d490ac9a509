/**
 * The register bus as the node classes use it: writes to named control
 * fields are queued and committed, in order, by `dispatch()`; reads return
 * committed values.  Hardware-driven inputs are supplied from outside: the
 * readout buffer's contents here, status bits as oracle arguments of the
 * node operations.
 */
module Registers {
  import opened Wrappers

  /**
   * The control fields the modelled operations write.  Each stands for the
   * node `csr.ctrl.<name>` of the node that owns it: `part_en`, `buf_en`,
   * `trig_en`, `trig_ctr_rst`, `run_req`, `rate_ctrl_en`, `trig_mask`,
   * `spill_gate_en`; `tgrp`, `int_addr`, `addr`, `ctr_rst`, `ep_en`;
   * `pll_rst`, `rst_i2c`, `rst_i2cmux`, `rst_lock_mon`, `mux`.
   */
  datatype Field =
    // partition control (PartitionNode)
    | PartEn | BufEn | TrigEn | TrigCtrRst | RunReq | RateCtrlEn | TrigMask | SpillGateEn
    // endpoint control (EndpointNode; BufEn is shared with the partition)
    | Tgrp | IntAddr | Addr | CtrRst | EpEn
    // IO board control (PC059IONode)
    | PllRst | RstI2C | RstI2CMux | RstLockMon | Mux

  /** One queued write `field := value`. */
  datatype Write = Write(field: Field, value: int)

  /** Operations on I2C devices behind the node (their drivers are not modelled, only the calls). */
  datatype I2COp =
    | MuxSelect(byte: U8)                           // primitive write of a channel-select byte to the SFP switch
    | ExpanderInversion(bank: nat, mask: nat)        // SFP expander: polarity inversion of one bank
    | ExpanderIO(bank: nat, mask: nat)               // SFP expander: input/output direction of one bank
    | ExpanderOutputs(bank: nat, mask: nat)          // SFP expander: output levels of one bank
    | EnableAX3Switch                                // enclustra I2C switch enable
    | ConfigurePll(fanoutMode: int, configFile: string)
    | SfpStatus(sfpBus: nat)                         // read of the SFP EEPROM status on an SFP bus
    | SfpSoftTx(sfpBus: nat, on: bool)               // soft TX control bit of the SFP on an SFP bus

  /** Value of a field in a register file; a field never written reads as 0. */
  function Value(regs: map<Field, int>, f: Field): int
  {
    if f in regs then regs[f] else 0
  }

  /** The register file after the writes `ws` are committed in order. */
  function Apply(regs: map<Field, int>, ws: seq<Write>): map<Field, int>
  {
    if ws == [] then regs
    else
      var w := ws[|ws| - 1];
      Apply(regs, ws[..|ws| - 1])[w.field := w.value]
  }

  /** The value of the last write to `f` in `ws`, if any. */
  function LastWrite(ws: seq<Write>, f: Field): Option<int>
  {
    if ws == [] then None
    else if ws[|ws| - 1].field == f then Some(ws[|ws| - 1].value)
    else LastWrite(ws[..|ws| - 1], f)
  }

  /** Committing writes leaves every field at its last written value, and untouched fields as they were. */
  lemma {:induction false} ApplyAt(regs: map<Field, int>, ws: seq<Write>, f: Field)
    ensures Value(Apply(regs, ws), f) == match LastWrite(ws, f)
                                         case Some(v) => v
                                         case None => Value(regs, f)
  {
    if ws != [] {
      ApplyAt(regs, ws[..|ws| - 1], f);
    }
  }

  /** Committing `a + b` is committing `a`, then `b`. */
  lemma {:induction false} ApplyConcat(regs: map<Field, int>, a: seq<Write>, b: seq<Write>)
    ensures Apply(regs, a + b) == Apply(Apply(regs, a), b)
  {
    if b == [] {
      assert a + b == a;
    } else {
      assert (a + b)[..|a + b| - 1] == a + b[..|b| - 1];
      ApplyConcat(regs, a, b[..|b| - 1]);
    }
  }

  lemma LastWriteSingle(w: Write, f: Field)
    ensures LastWrite([w], f) == if w.field == f then Some(w.value) else None
  {
    assert [w][..0] == [];
  }

  lemma LastWriteSnoc(ws: seq<Write>, w: Write, f: Field)
    ensures LastWrite(ws + [w], f) == if w.field == f then Some(w.value) else LastWrite(ws, f)
  {
    assert (ws + [w])[..|ws|] == ws;
  }

  /** The last write to `f` in `a + b` is the last one in `b`, or failing that the last one in `a`. */
  lemma {:induction false} LastWriteConcat(a: seq<Write>, b: seq<Write>, f: Field)
    ensures LastWrite(a + b, f) == if LastWrite(b, f).Some? then LastWrite(b, f) else LastWrite(a, f)
  {
    if b == [] {
      assert a + b == a;
    } else {
      assert (a + b)[..|a + b| - 1] == a + b[..|b| - 1];
      LastWriteConcat(a, b[..|b| - 1], f);
    }
  }

  /** Committing `ws` gives the same register file as committing `vs` when both leave every field at the same last value. */
  lemma ApplySameLastWrites(regs: map<Field, int>, ws: seq<Write>, vs: seq<Write>)
    requires forall f :: LastWrite(ws, f) == LastWrite(vs, f)
    ensures forall f :: Value(Apply(regs, ws), f) == Value(Apply(regs, vs), f)
  {
    forall f
      ensures Value(Apply(regs, ws), f) == Value(Apply(regs, vs), f)
    {
      ApplyAt(regs, ws, f);
      ApplyAt(regs, vs, f);
    }
  }

  /** What the node's client has done, in order. */
  datatype Event =
    | Committed(writes: seq<Write>)   // a dispatch, with the writes it committed in order (none for a read-only dispatch)
    | BlockRead(words: nat)           // a block read of `words` words from `buf.data`
    | I2CAccess(op: I2COp)            // an operation on an I2C device behind the node

  /** `n` dispatches that carried no writes (reads only). */
  function ReadOnlyDispatches(n: nat): (r: seq<Event>)
    ensures |r| == n && forall i :: 0 <= i < n ==> r[i] == Committed([])
  {
    seq(n, _ => Committed([]))
  }

  /**
   * The register space of one node as seen through the bus client.
   * `regs` holds committed field values, `pending` the writes queued since
   * the last dispatch, `trace` everything the client has done so far, and
   * `fifo` the words waiting in the node's readout buffer (its `buf.count`
   * is `|fifo|`).
   */
  class Client {
    var regs: map<Field, int>
    var pending: seq<Write>
    var trace: seq<Event>
    var fifo: seq<int>

    /** The buffer word count fits the 32-bit `buf.count` register. */
    ghost predicate Valid()
      reads this
    {
      |fifo| < 0x1_0000_0000
    }

    /** The register file as it will be once the pending writes are dispatched. */
    ghost function Staged(): map<Field, int>
      reads this
    {
      Apply(regs, pending)
    }

    constructor (initial: map<Field, int>, buffer: seq<int>)
      requires |buffer| < 0x1_0000_0000
      ensures Valid()
      ensures regs == initial && fifo == buffer && pending == [] && trace == []
    {
      regs, pending, trace, fifo := initial, [], [], buffer;
    }

    /** `getNode(f).write(v)`: queues the write; nothing is committed yet. */
    method WriteField(f: Field, v: int)
      modifies this
      ensures pending == old(pending) + [Write(f, v)]
      ensures Staged() == old(Staged())[f := v]
      ensures regs == old(regs) && trace == old(trace) && fifo == old(fifo)
    {
      pending := pending + [Write(f, v)];
      assert pending[..|pending| - 1] == old(pending);
    }

    /** `getClient().dispatch()`: commits the queued writes in order as one transaction. */
    method Dispatch()
      modifies this
      ensures regs == old(Staged()) && pending == []
      ensures trace == old(trace) + [Committed(old(pending))]
      ensures fifo == old(fifo)
    {
      regs := Apply(regs, pending);
      trace := trace + [Committed(pending)];
      pending := [];
    }

    /** `getNode(f).read()` followed by a dispatch: the committed value, pending writes included. */
    method ReadField(f: Field) returns (v: int)
      modifies this
      ensures v == Value(regs, f)
      ensures regs == old(Staged()) && pending == []
      ensures trace == old(trace) + [Committed(old(pending))]
      ensures fifo == old(fifo)
    {
      Dispatch();
      v := Value(regs, f);
    }

    /** `getNode("buf.count").read()` followed by a dispatch: the number of words in the readout buffer. */
    method ReadBufferCount() returns (count: U32)
      requires Valid()
      modifies this
      ensures Valid()
      ensures count == |fifo|
      ensures regs == old(Staged()) && pending == []
      ensures trace == old(trace) + [Committed(old(pending))]
      ensures fifo == old(fifo)
    {
      Dispatch();
      count := |fifo|;
    }

    /**
     * `getNode("buf.data").readBlock(n)` followed by a dispatch, which
     * commits the pending writes and then pops the first `n` words of the
     * readout buffer.  The model admits only block reads the buffer can
     * serve.
     */
    method ReadBlock(n: nat) returns (words: seq<int>)
      requires Valid() && n <= |fifo|
      modifies this
      ensures Valid()
      ensures words == old(fifo)[..n] && fifo == old(fifo)[n..]
      ensures regs == old(Staged()) && pending == []
      ensures trace == old(trace) + [Committed(old(pending)), BlockRead(n)]
    {
      Dispatch();
      words := fifo[..n];
      fifo := fifo[n..];
      trace := trace + [BlockRead(n)];
    }

    /** An operation on an I2C device behind the node; it does not touch the queued writes. */
    method I2C(op: I2COp)
      modifies this
      ensures trace == old(trace) + [I2CAccess(op)]
      ensures regs == old(regs) && pending == old(pending) && fifo == old(fifo)
    {
      trace := trace + [I2CAccess(op)];
    }
  }
}
