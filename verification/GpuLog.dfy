/** An abstract GPU.

    Work is enqueued on streams. `Log` lists everything ever enqueued, on any
    stream, in the order of the enqueue calls; a stream is the sub-sequence of
    its own entries. Recording an event captures the length of the log: the
    event stands for all earlier entries of the recording stream. A `Wait` entry
    makes everything enqueued later on its stream run after those entries. */
module GpuLog {
  datatype Stream = ProducerStream | ConsumerStream(id: nat)

  datatype Op =
    | Write(slot: nat, token: nat)       // a kernel or copy that overwrites a ring slot
    // a kernel that reads the frame leased in a slot, while data_ready stood for the
    // entries below `ready`
    | Read(slot: nat, stamp: nat, token: nat, ready: nat)
    | Wait(on: Stream, upTo: nat)        // wait for the entries of `on` below `upTo`

  datatype Entry = Entry(stream: Stream, op: Op)

  type Log = seq<Entry>

  /** Some entry of `waiter` below `before` waits for entry `i` of stream `on`. */
  ghost predicate Waited(log: Log, waiter: Stream, before: int, on: Stream, i: int)
    requires before <= |log|
  {
    exists q :: 0 <= q < before && log[q].stream == waiter && log[q].op.Wait?
             && log[q].op.on == on && i < log[q].op.upTo
  }

  /** Entry `i` is finished before entry `j` starts: same stream, or `j`'s stream
      waited for an event recorded behind `i`. (Chains of waits order more; the
      ring's protocol never needs one.) */
  ghost predicate HappensBefore(log: Log, i: int, j: int)
    requires 0 <= i < |log| && 0 <= j < |log|
  {
    i < j && (log[i].stream == log[j].stream || Waited(log, log[j].stream, j, log[i].stream, i))
  }

  /** Two entries on one slot, at least one of which overwrites it. */
  predicate Conflict(x: Op, y: Op) {
    !x.Wait? && !y.Wait? && x.slot == y.slot && (x.Write? || y.Write?)
  }

  /** What the last write enqueued for `slot` puts there. */
  function LastToken(log: Log, slot: nat): nat
  {
    if log == [] then 0
    else if log[|log| - 1].op.Write? && log[|log| - 1].op.slot == slot then log[|log| - 1].op.token
    else LastToken(log[..|log| - 1], slot)
  }
}
