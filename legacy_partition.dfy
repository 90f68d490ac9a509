/**
 * Run control of a timing partition, legacy version (`pdt::PartitionNode`):
 * the same register sequences as the current version, but run start and
 * stop poll `csr.stat.in_run` without a time limit and then open or close
 * triggers and the buffer themselves.
 */
module LegacyPartitionNode {
  import opened Wrappers
  import opened Registers
  import opened Readout
  import P = PartitionNode

  /** `enable`: sets `part_en`; the write is committed only when `dispatch` is set. */
  method Enable(bus: Client, enable: bool, dispatch: bool)
    modifies bus
    ensures dispatch ==> bus.regs == old(bus.Staged())[PartEn := P.Bool(enable)] && bus.pending == []
    ensures dispatch ==> bus.trace == old(bus.trace) + [Committed(old(bus.pending) + [Write(PartEn, P.Bool(enable))])]
    ensures !dispatch ==> bus.regs == old(bus.regs) && bus.trace == old(bus.trace)
    ensures !dispatch ==> bus.pending == old(bus.pending) + [Write(PartEn, P.Bool(enable))]
    ensures bus.fifo == old(bus.fifo)
  {
    bus.WriteField(PartEn, P.Bool(enable));
    if dispatch {
      bus.Dispatch();
    }
  }

  /** `setCommandMask`: writes the trigger (command) mask and dispatches. */
  method SetCommandMask(bus: Client, mask: U32)
    modifies bus
    ensures bus.trace == old(bus.trace) + [Committed(old(bus.pending) + [Write(TrigMask, mask)])]
    ensures bus.regs == old(bus.Staged())[TrigMask := mask] && bus.pending == []
    ensures bus.fifo == old(bus.fifo)
  {
    bus.WriteField(TrigMask, mask);
    bus.Dispatch();
  }

  /** `readCommandMask`: the committed trigger (command) mask. */
  method ReadCommandMask(bus: Client) returns (mask: int)
    modifies bus
    ensures mask == Value(bus.regs, TrigMask)
    ensures bus.regs == old(bus.Staged()) && bus.pending == []
    ensures bus.trace == old(bus.trace) + [Committed(old(bus.pending))]
    ensures bus.fifo == old(bus.fifo)
  {
    mask := bus.ReadField(TrigMask);
  }

  /** Reading the command mask back after setting it returns the mask set. */
  method SetThenReadCommandMask(bus: Client, mask: U32) returns (readBack: int)
    modifies bus
    ensures readBack == mask
    ensures bus.trace == old(bus.trace) + [Committed(old(bus.pending) + [Write(TrigMask, mask)]), Committed([])]
    ensures bus.regs == old(bus.Staged())[TrigMask := mask] && bus.pending == []
    ensures bus.fifo == old(bus.fifo)
  {
    SetCommandMask(bus, mask);
    ghost var maskSet := bus.trace;
    readBack := ReadCommandMask(bus);
    assert bus.trace == maskSet + [Committed([])];
  }

  /** `numEventsInBuffer`: the complete events in the buffer. */
  method NumEventsInBuffer(bus: Client) returns (events: U32)
    requires bus.Valid()
    modifies bus
    ensures bus.Valid()
    ensures events == EventsInBuffer(|bus.fifo|)
    ensures bus.regs == old(bus.Staged()) && bus.pending == []
    ensures bus.trace == old(bus.trace) + [Committed(old(bus.pending))]
    ensures bus.fifo == old(bus.fifo)
  {
    var count := bus.ReadBufferCount();
    events := count / WordsPerEvent;
  }

  /**
   * `readEvents`: reads `requested` events (0: every complete event) in
   * one block read of six words per event, or raises `EventReadError`
   * without reading when the buffer holds fewer.
   */
  method ReadEvents(bus: Client, requested: nat) returns (r: Result<seq<int>, ReadError>)
    requires bus.Valid()
    modifies bus
    ensures bus.Valid()
    ensures var plan := EventsToRead(requested, |old(bus.fifo)|);
      && (plan.Err? ==> r == Err(plan.error) && bus.fifo == old(bus.fifo)
                        && bus.trace == old(bus.trace) + [Committed(old(bus.pending))])
      && (plan.Ok? ==> var n := plan.value * WordsPerEvent;
                       && r == Ok(old(bus.fifo)[..n]) && bus.fifo == old(bus.fifo)[n..]
                       && bus.trace == old(bus.trace) + [Committed(old(bus.pending)), Committed([]), BlockRead(n)])
    ensures bus.regs == old(bus.Staged()) && bus.pending == []
  {
    var available := NumEventsInBuffer(bus);
    var toRead := if requested == 0 then available else requested;
    if available < toRead {
      return Err(EventReadError(requested, available));
    }
    var words := bus.ReadBlock(toRead * WordsPerEvent);
    r := Ok(words);
  }

  /** `reset`: disables the partition and its buffer and pulses the trigger counter reset, in one dispatch. */
  method Reset(bus: Client)
    modifies bus
    ensures bus.trace == old(bus.trace) + [Committed(old(bus.pending) + [Write(PartEn, 0), Write(BufEn, 0),
                                                           Write(TrigCtrRst, 1), Write(TrigCtrRst, 0)])]
    ensures bus.regs == old(bus.Staged())[PartEn := 0][BufEn := 0][TrigCtrRst := 0]
    ensures bus.pending == [] && bus.fifo == old(bus.fifo)
  {
    ghost var queued := bus.pending;
    bus.WriteField(PartEn, 0);
    bus.WriteField(BufEn, 0);
    bus.WriteField(TrigCtrRst, 1);
    bus.WriteField(TrigCtrRst, 0);
    assert bus.pending == queued + [Write(PartEn, 0), Write(BufEn, 0),
                                              Write(TrigCtrRst, 1), Write(TrigCtrRst, 0)];
    bus.Dispatch();
  }

  /**
   * Polls `csr.stat.in_run` until it reads `want`, with no time limit.
   * `inRun(k)` is the value the `k`-th poll reads; the source loops forever
   * when the firmware never reaches `want`, so the model requires that it
   * eventually does.  Returns the number of polls.
   */
  method AwaitRunState(bus: Client, want: bool, inRun: nat -> bool) returns (polls: nat)
    requires exists k :: inRun(k) == want
    modifies bus
    ensures 1 <= polls && inRun(polls - 1) == want
    ensures forall k :: 0 <= k < polls - 1 ==> inRun(k) != want
    ensures bus.trace == old(bus.trace) + [Committed(old(bus.pending))] + ReadOnlyDispatches(polls - 1)
    ensures bus.regs == old(bus.Staged()) && bus.pending == []
    ensures bus.fifo == old(bus.fifo)
  {
    ghost var reached: nat :| inRun(reached) == want;
    polls := 0;
    while true
      invariant polls <= reached
      invariant forall k :: 0 <= k < polls ==> inRun(k) != want
      invariant polls == 0 ==> bus.trace == old(bus.trace) && bus.regs == old(bus.regs) && bus.pending == old(bus.pending)
      invariant polls > 0 ==> bus.trace == old(bus.trace) + [Committed(old(bus.pending))] + ReadOnlyDispatches(polls - 1)
      invariant polls > 0 ==> bus.regs == old(bus.Staged()) && bus.pending == []
      invariant bus.fifo == old(bus.fifo)
      decreases reached - polls
    {
      bus.Dispatch();
      if polls > 0 {
        assert bus.trace == old(bus.trace) + [Committed(old(bus.pending))] + ReadOnlyDispatches(polls) by {
          assert ReadOnlyDispatches(polls) == ReadOnlyDispatches(polls - 1) + [Committed([])];
        }
      }
      var observed := inRun(polls);
      polls := polls + 1;
      if observed == want {
        return polls;
      }
    }
  }

  /**
   * The first half of `start`: disables the buffer, re-enables it (which
   * flushes it) and requests a run, in three dispatches.
   */
  method RequestRun(bus: Client)
    modifies bus
    ensures bus.trace == old(bus.trace) + [Committed(old(bus.pending) + [Write(BufEn, 0)]), Committed([Write(BufEn, 1)]),
                                       Committed([Write(RunReq, 1)])]
    ensures bus.regs == old(bus.Staged())[BufEn := 1][RunReq := 1] && bus.pending == []
    ensures bus.fifo == old(bus.fifo)
  {
    bus.WriteField(BufEn, 0);
    bus.Dispatch();
    ghost var t0 := bus.trace;
    bus.WriteField(BufEn, 1);
    bus.Dispatch();
    ghost var t1 := bus.trace;
    assert t1 == t0 + [Committed([Write(BufEn, 1)])];
    bus.WriteField(RunReq, 1);
    bus.Dispatch();
    assert bus.trace == t1 + [Committed([Write(RunReq, 1)])];
    assert bus.regs == old(bus.Staged())[BufEn := 0][BufEn := 1][RunReq := 1];
  }

  /**
   * `start`: flushes the buffer, requests a run, waits for `in_run`, and
   * only then opens the partition to triggers.
   */
  method Start(bus: Client, inRun: nat -> bool) returns (polls: nat)
    requires exists k :: inRun(k)
    modifies bus
    ensures 1 <= polls && inRun(polls - 1)
    ensures forall k :: 0 <= k < polls - 1 ==> !inRun(k)
    ensures bus.trace == old(bus.trace) + [Committed(old(bus.pending) + [Write(BufEn, 0)]), Committed([Write(BufEn, 1)]),
                                       Committed([Write(RunReq, 1)]), Committed([])] + ReadOnlyDispatches(polls - 1) + [Committed([Write(TrigEn, 1)])]
    ensures bus.regs == old(bus.Staged())[BufEn := 1][RunReq := 1][TrigEn := 1] && bus.pending == []
    ensures bus.fifo == old(bus.fifo)
  {
    RequestRun(bus);
    ghost var requested := bus.trace;
    polls := AwaitRunState(bus, true, inRun);
    ghost var acknowledged := bus.trace;
    bus.WriteField(TrigEn, 1);
    bus.Dispatch();
    assert bus.trace == acknowledged + [Committed([Write(TrigEn, 1)])];
  }

  /**
   * `stop`: withdraws the run request, waits for `in_run` to clear, and
   * only then disables the buffer and triggers, in one dispatch.
   */
  method Stop(bus: Client, inRun: nat -> bool) returns (polls: nat)
    requires exists k :: !inRun(k)
    modifies bus
    ensures 1 <= polls && !inRun(polls - 1)
    ensures forall k :: 0 <= k < polls - 1 ==> inRun(k)
    ensures bus.trace == old(bus.trace) + [Committed(old(bus.pending) + [Write(RunReq, 0)]), Committed([])] + ReadOnlyDispatches(polls - 1)
                       + [Committed([Write(BufEn, 0), Write(TrigEn, 0)])]
    ensures bus.regs == old(bus.Staged())[RunReq := 0][BufEn := 0][TrigEn := 0] && bus.pending == []
    ensures bus.fifo == old(bus.fifo)
  {
    bus.WriteField(RunReq, 0);
    bus.Dispatch();
    polls := AwaitRunState(bus, false, inRun);
    bus.WriteField(BufEn, 0);
    bus.WriteField(TrigEn, 0);
    assert bus.pending == [Write(BufEn, 0), Write(TrigEn, 0)];
    bus.Dispatch();
  }
}
