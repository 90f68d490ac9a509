/**
 * Run control of a timing partition (`PartitionNode`, current version):
 * enabling the partition, configuring its trigger mask, starting and
 * stopping runs with a timeout on the firmware's acknowledgement, and
 * reading events out of its buffer.
 */
module PartitionNode {
  import opened Wrappers
  import opened Registers
  import opened Readout


  /** Milliseconds slept between two polls of `csr.stat.in_run`. */
  const PollIntervalMs: nat := 100

  /** `RunRequestTimeoutExpired`: the firmware did not acknowledge a run request in time. */
  datatype RunError = RunRequestTimeoutExpired(timeoutMs: U32)

  function Bool(b: bool): int
  {
    if b then 1 else 0
  }

  /** `enable`: sets `part_en`; the write is committed only when `dispatch` is set. */
  method Enable(bus: Client, enable: bool, dispatch: bool)
    modifies bus
    ensures dispatch ==> bus.regs == old(bus.Staged())[PartEn := Bool(enable)] && bus.pending == []
    ensures dispatch ==> bus.trace == old(bus.trace) + [Committed(old(bus.pending) + [Write(PartEn, Bool(enable))])]
    ensures !dispatch ==> bus.regs == old(bus.regs) && bus.trace == old(bus.trace)
    ensures !dispatch ==> bus.pending == old(bus.pending) + [Write(PartEn, Bool(enable))]
    ensures bus.fifo == old(bus.fifo)
  {
    bus.WriteField(PartEn, Bool(enable));
    if dispatch {
      bus.Dispatch();
    }
  }

  /** `configure`: writes the rate control, trigger mask and spill gate fields, and nothing else, in one dispatch. */
  method Configure(bus: Client, triggerMask: U32, enableSpillGate: bool, rateControlEnabled: bool)
    modifies bus
    ensures bus.trace == old(bus.trace) + [Committed(old(bus.pending) + [Write(RateCtrlEn, Bool(rateControlEnabled)),
                                                           Write(TrigMask, triggerMask),
                                                           Write(SpillGateEn, Bool(enableSpillGate))])]
    ensures bus.regs == old(bus.Staged())[RateCtrlEn := Bool(rateControlEnabled)][TrigMask := triggerMask]
                                         [SpillGateEn := Bool(enableSpillGate)]
    ensures bus.pending == [] && bus.fifo == old(bus.fifo)
  {
    ghost var queued := bus.pending;
    bus.WriteField(RateCtrlEn, Bool(rateControlEnabled));
    bus.WriteField(TrigMask, triggerMask);
    bus.WriteField(SpillGateEn, Bool(enableSpillGate));
    assert bus.pending == queued + [Write(RateCtrlEn, Bool(rateControlEnabled)),
                                              Write(TrigMask, triggerMask),
                                              Write(SpillGateEn, Bool(enableSpillGate))];
    bus.Dispatch();
  }

  /** `configure_rate_ctrl`: writes the rate control field and dispatches. */
  method ConfigureRateCtrl(bus: Client, rateControlEnabled: bool)
    modifies bus
    ensures bus.trace == old(bus.trace) + [Committed(old(bus.pending) + [Write(RateCtrlEn, Bool(rateControlEnabled))])]
    ensures bus.regs == old(bus.Staged())[RateCtrlEn := Bool(rateControlEnabled)]
    ensures bus.pending == [] && bus.fifo == old(bus.fifo)
  {
    bus.WriteField(RateCtrlEn, Bool(rateControlEnabled));
    bus.Dispatch();
  }

  /** `enable_triggers`: writes `trig_en` and dispatches. */
  method EnableTriggers(bus: Client, enable: bool)
    modifies bus
    ensures bus.trace == old(bus.trace) + [Committed(old(bus.pending) + [Write(TrigEn, Bool(enable))])]
    ensures bus.regs == old(bus.Staged())[TrigEn := Bool(enable)]
    ensures bus.pending == [] && bus.fifo == old(bus.fifo)
  {
    bus.WriteField(TrigEn, Bool(enable));
    bus.Dispatch();
  }

  /** `read_trigger_mask`: the committed trigger mask. */
  method ReadTriggerMask(bus: Client) returns (mask: int)
    modifies bus
    ensures mask == Value(bus.regs, TrigMask)
    ensures bus.regs == old(bus.Staged()) && bus.pending == []
    ensures bus.trace == old(bus.trace) + [Committed(old(bus.pending))]
    ensures bus.fifo == old(bus.fifo)
  {
    mask := bus.ReadField(TrigMask);
  }

  /** `num_events_in_buffer`: the complete events in the buffer. */
  method NumEventsInBuffer(bus: Client) returns (events: U32)
    requires bus.Valid()
    modifies bus
    ensures bus.Valid()
    ensures events == EventsInBuffer(|bus.fifo|)
    ensures bus.regs == old(bus.Staged()) && bus.pending == []
    ensures bus.trace == old(bus.trace) + [Committed(old(bus.pending))]
    ensures bus.fifo == old(bus.fifo)
  {
    var count := bus.ReadBufferCount();
    events := count / WordsPerEvent;
  }

  /**
   * `read_events`: reads `requested` events (0: every complete event) in
   * one block read of exactly six words per event, or raises
   * `EventReadError` without reading when the buffer holds fewer.
   */
  method ReadEvents(bus: Client, requested: nat) returns (r: Result<seq<int>, ReadError>)
    requires bus.Valid()
    modifies bus
    ensures bus.Valid()
    ensures var plan := EventsToRead(requested, |old(bus.fifo)|);
      && (plan.Err? ==> r == Err(plan.error) && bus.fifo == old(bus.fifo)
                        && bus.trace == old(bus.trace) + [Committed(old(bus.pending))])
      && (plan.Ok? ==> var n := plan.value * WordsPerEvent;
                       && r == Ok(old(bus.fifo)[..n]) && bus.fifo == old(bus.fifo)[n..]
                       && bus.trace == old(bus.trace) + [Committed(old(bus.pending)), Committed([]), BlockRead(n)])
    ensures bus.regs == old(bus.Staged()) && bus.pending == []
  {
    var available := NumEventsInBuffer(bus);
    var toRead := if requested == 0 then available else requested;
    if available < toRead {
      return Err(EventReadError(requested, available));
    }
    var words := bus.ReadBlock(toRead * WordsPerEvent);
    r := Ok(words);
  }

  /** `reset`: disables the partition and its buffer and pulses the trigger counter reset, in one dispatch. */
  method Reset(bus: Client)
    modifies bus
    ensures bus.trace == old(bus.trace) + [Committed(old(bus.pending) + [Write(PartEn, 0), Write(BufEn, 0),
                                                           Write(TrigCtrRst, 1), Write(TrigCtrRst, 0)])]
    ensures bus.regs == old(bus.Staged())[PartEn := 0][BufEn := 0][TrigCtrRst := 0]
    ensures bus.pending == [] && bus.fifo == old(bus.fifo)
  {
    ghost var queued := bus.pending;
    bus.WriteField(PartEn, 0);
    bus.WriteField(BufEn, 0);
    bus.WriteField(TrigCtrRst, 1);
    bus.WriteField(TrigCtrRst, 0);
    assert bus.pending == queued + [Write(PartEn, 0), Write(BufEn, 0),
                                              Write(TrigCtrRst, 1), Write(TrigCtrRst, 0)];
    bus.Dispatch();
  }

  /**
   * Polls `csr.stat.in_run` until it reads `want`, giving up once the time
   * elapsed since the first poll exceeds `timeoutMs`.  `inRun(k)` is the
   * value the `k`-th poll reads and `elapsed(k)` the time the clock shows
   * after it; the 100 ms sleep after every failed poll makes
   * `elapsed(k) >= 100 * k`.  Returns the outcome and the number of polls.
   */
  method AwaitRunState(bus: Client, want: bool, timeoutMs: U32, inRun: nat -> bool, elapsed: nat -> nat)
    returns (r: Outcome<RunError>, polls: nat)
    requires forall k :: elapsed(k) >= PollIntervalMs * k
    modifies bus
    ensures 1 <= polls <= timeoutMs / PollIntervalMs + 2
    ensures forall k :: 0 <= k < polls - 1 ==> inRun(k) != want && elapsed(k) <= timeoutMs
    ensures r.Pass? <==> inRun(polls - 1) == want
    ensures r.Fail? ==> r.error == RunRequestTimeoutExpired(timeoutMs) && elapsed(polls - 1) > timeoutMs
    ensures bus.trace == old(bus.trace) + [Committed(old(bus.pending))] + ReadOnlyDispatches(polls - 1)
    ensures bus.regs == old(bus.Staged()) && bus.pending == []
    ensures bus.fifo == old(bus.fifo)
  {
    polls := 0;
    while true
      invariant polls <= timeoutMs / PollIntervalMs + 1
      invariant forall k :: 0 <= k < polls ==> inRun(k) != want && elapsed(k) <= timeoutMs
      invariant polls == 0 ==> bus.trace == old(bus.trace) && bus.regs == old(bus.regs) && bus.pending == old(bus.pending)
      invariant polls > 0 ==> bus.trace == old(bus.trace) + [Committed(old(bus.pending))] + ReadOnlyDispatches(polls - 1)
      invariant polls > 0 ==> bus.regs == old(bus.Staged()) && bus.pending == []
      invariant bus.fifo == old(bus.fifo)
      decreases timeoutMs / PollIntervalMs + 1 - polls
    {
      bus.Dispatch();
      if polls > 0 {
        assert bus.trace == old(bus.trace) + [Committed(old(bus.pending))] + ReadOnlyDispatches(polls) by {
          assert ReadOnlyDispatches(polls) == ReadOnlyDispatches(polls - 1) + [Committed([])];
        }
      }
      var observed := inRun(polls);
      polls := polls + 1;
      if observed == want {
        return Pass, polls;
      }
      if elapsed(polls - 1) > timeoutMs {
        return Fail(RunRequestTimeoutExpired(timeoutMs)), polls;
      }
      assert PollIntervalMs * (polls - 1) <= timeoutMs;
    }
  }

  /**
   * The first half of `start`: closes triggers and disables the buffer,
   * re-enables the buffer (which flushes it) and requests a run, in three
   * dispatches.
   */
  method RequestRun(bus: Client)
    modifies bus
    ensures bus.trace == old(bus.trace) + [Committed(old(bus.pending) + [Write(TrigEn, 0), Write(BufEn, 0)]),
                                       Committed([Write(BufEn, 1)]), Committed([Write(RunReq, 1)])]
    ensures bus.regs == old(bus.Staged())[TrigEn := 0][BufEn := 1][RunReq := 1] && bus.pending == []
    ensures bus.fifo == old(bus.fifo)
  {
    ghost var queued := bus.pending;
    bus.WriteField(TrigEn, 0);
    bus.WriteField(BufEn, 0);
    assert bus.pending == queued + [Write(TrigEn, 0), Write(BufEn, 0)];
    bus.Dispatch();
    ghost var t0 := bus.trace;
    bus.WriteField(BufEn, 1);
    bus.Dispatch();
    ghost var t1 := bus.trace;
    assert t1 == t0 + [Committed([Write(BufEn, 1)])];
    bus.WriteField(RunReq, 1);
    bus.Dispatch();
    assert bus.trace == t1 + [Committed([Write(RunReq, 1)])];
    assert bus.regs == old(bus.Staged())[TrigEn := 0][BufEn := 0][BufEn := 1][RunReq := 1];
  }

  /**
   * `start`: closes triggers and flushes the buffer, requests a run, and
   * returns once a poll sees `in_run` set, or raises
   * `RunRequestTimeoutExpired` once the timeout has passed.
   */
  method Start(bus: Client, timeoutMs: U32, inRun: nat -> bool, elapsed: nat -> nat)
    returns (r: Outcome<RunError>, polls: nat)
    requires forall k :: elapsed(k) >= PollIntervalMs * k
    modifies bus
    ensures 1 <= polls <= timeoutMs / PollIntervalMs + 2
    ensures bus.trace == old(bus.trace) + [Committed(old(bus.pending) + [Write(TrigEn, 0), Write(BufEn, 0)]),
                                       Committed([Write(BufEn, 1)]), Committed([Write(RunReq, 1)]), Committed([])] + ReadOnlyDispatches(polls - 1)
    ensures bus.regs == old(bus.Staged())[TrigEn := 0][BufEn := 1][RunReq := 1] && bus.pending == []
    ensures forall k :: 0 <= k < polls - 1 ==> !inRun(k) && elapsed(k) <= timeoutMs
    ensures r.Pass? <==> inRun(polls - 1)
    ensures r.Fail? ==> r.error == RunRequestTimeoutExpired(timeoutMs) && elapsed(polls - 1) > timeoutMs
    ensures bus.fifo == old(bus.fifo)
  {
    RequestRun(bus);
    ghost var requested := bus.trace;
    r, polls := AwaitRunState(bus, true, timeoutMs, inRun, elapsed);
    assert bus.trace == requested + [Committed([])] + ReadOnlyDispatches(polls - 1);
  }

  /**
   * `stop`: withdraws the run request and returns once a poll sees
   * `in_run` clear, or raises `RunRequestTimeoutExpired` once the timeout
   * has passed.
   */
  method Stop(bus: Client, timeoutMs: U32, inRun: nat -> bool, elapsed: nat -> nat)
    returns (r: Outcome<RunError>, polls: nat)
    requires forall k :: elapsed(k) >= PollIntervalMs * k
    modifies bus
    ensures 1 <= polls <= timeoutMs / PollIntervalMs + 2
    ensures bus.trace == old(bus.trace) + [Committed(old(bus.pending) + [Write(RunReq, 0)]), Committed([])] + ReadOnlyDispatches(polls - 1)
    ensures bus.regs == old(bus.Staged())[RunReq := 0] && bus.pending == []
    ensures forall k :: 0 <= k < polls - 1 ==> inRun(k) && elapsed(k) <= timeoutMs
    ensures r.Pass? <==> !inRun(polls - 1)
    ensures r.Fail? ==> r.error == RunRequestTimeoutExpired(timeoutMs) && elapsed(polls - 1) > timeoutMs
    ensures bus.fifo == old(bus.fifo)
  {
    bus.WriteField(RunReq, 0);
    bus.Dispatch();
    r, polls := AwaitRunState(bus, false, timeoutMs, inRun, elapsed);
  }
}
