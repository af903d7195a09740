/**
 * The heartbeat queue shared by the event listeners (producers) and the scheduled drain
 * (consumer): a first-in first-out sequence, used here by one thread at a time.
 */
module Queues {
  import opened Wrappers
  import opened Heartbeats

  class HeartbeatQueue {
    /** The queued heartbeats, oldest first. */
    var items: seq<Heartbeat>

    /** `new ConcurrentLinkedQueue<>()` */
    constructor ()
      ensures items == []
    {
      items := [];
    }

    /** `size()` */
    function Size(): (n: nat)
      reads this
      ensures n == |items|
    {
      |items|
    }

    /** `add(h)`: appends at the tail. */
    method Add(h: Heartbeat)
      modifies this
      ensures items == old(items) + [h]
    {
      items := items + [h];
    }

    /** `poll()`: removes and returns the head, or `null` when the queue is empty. */
    method Poll() returns (h: Option<Heartbeat>)
      modifies this
      ensures old(items) == [] ==> h == None && items == []
      ensures old(items) != [] ==> h == Some(old(items)[0]) && items == old(items)[1..]
    {
      if items == [] {
        h := None;
      } else {
        h := Some(items[0]);
        items := items[1..];
      }
    }
  }
}
