/**
 * `runHeartbeatQueue()`: the scheduled drain. It polls the oldest heartbeat as the primary,
 * then polls more while its counter is below the queue's current size; since the size drops
 * by one at every poll, only about half of the remaining heartbeats are taken. The drained
 * heartbeats go into one reporter run. The stored API key, and whether starting the process
 * and writing its standard input succeed, are parameters.
 */
module Dispatch {
  import opened Wrappers
  import opened Numbers
  import opened Heartbeats
  import opened Queues
  import opened Events
  import opened Command

  /** What the reporter's standard input receives: a JSON array of the extras, then a newline. */
  datatype Chunk = JsonArray(heartbeats: seq<Heartbeat>) | Newline

  /** How one cycle ends. */
  datatype Cycle =
    | Idle                                            // the queue was empty
    | Crashed(fault: Fault)                           // a NullPointerException ended the run
    | SpawnFailed(argv: seq<string>)                  // the process could not be started
    | Reported(argv: seq<string>, stdin: seq<Chunk>, delivered: bool)

  /**
   * The extras the `for` loop takes from `rest` when its counter starts at `i`: one poll per
   * round while the counter is below the shrinking size. This follows the loop round by round.
   */
  function LoopTaken(i: nat, rest: seq<Heartbeat>): seq<Heartbeat>
    decreases |rest|
  {
    if i < |rest| then [rest[0]] + LoopTaken(i + 1, rest[1..]) else []
  }

  /** The loop takes the first half of what is left after the primary, rounded up. */
  lemma {:induction false} LoopTakenHalf(i: nat, rest: seq<Heartbeat>)
    ensures var k := if i < |rest| then (|rest| - i + 1) / 2 else 0;
      k <= |rest| && LoopTaken(i, rest) == rest[..k]
    decreases |rest|
  {
    if i < |rest| {
      LoopTakenHalf(i + 1, rest[1..]);
      var k := (|rest| - i + 1) / 2;
      var k' := if i + 1 < |rest| - 1 then (|rest| - 1 - (i + 1) + 1) / 2 else 0;
      assert k == k' + 1;
      assert LoopTaken(i + 1, rest[1..]) == rest[1..][..k'];
      assert [rest[0]] + rest[1..][..k'] == rest[..k];
    }
  }

  /** The number of extras a queue of `m` heartbeats gives: `m / 2`, that is ceil((m-1)/2). */
  function ExtrasCount(m: nat): (k: nat)
    requires m >= 1
    ensures 2 * k <= m && m < 2 * k + 2
    ensures k == (m - 1 + 1) / 2 && m - 1 - k == (m - 1) / 2
  {
    m / 2
  }

  /** What one cycle does with a primary heartbeat and its extras, once they are drained. */
  function Outcome(primary: Heartbeat, extras: seq<Heartbeat>, apiKey: Option<string>, host: Host,
                   pluginVersion: string, settings: Settings, spawnOk: bool, writeOk: bool): (c: Cycle)
    ensures c.Crashed? <==> FirstFault(primary, apiKey).Some?
    ensures c.Reported? ==> c.stdin == [JsonArray(extras), Newline] && c.delivered == writeOk
    ensures c.Reported? || c.SpawnFailed? ==>
      c.argv == CommandLine(primary, apiKey.value, |extras| > 0, host, pluginVersion, settings)
    ensures c.SpawnFailed? <==> FirstFault(primary, apiKey).None? && !spawnOk
  {
    match FirstFault(primary, apiKey)
    case Some(f) => Crashed(f)
    case None =>
      var argv := CommandLine(primary, apiKey.value, |extras| > 0, host, pluginVersion, settings);
      if !spawnOk then SpawnFailed(argv)
      else Reported(argv, [JsonArray(extras), Newline], writeOk)
  }

  /**
   * One run of the scheduled task. An empty queue is left alone. Otherwise the head is the
   * primary, the next ceil((m-1)/2) heartbeats are the extras in queue order, and the last
   * floor((m-1)/2) stay queued, whatever happens to the run: a crash or a failed spawn loses
   * the drained heartbeats.
   */
  method RunHeartbeatQueue(queue: HeartbeatQueue, apiKey: Option<string>, host: Host, pluginVersion: string,
                           settings: Settings, spawnOk: bool, writeOk: bool)
    returns (c: Cycle)
    modifies queue
    ensures old(queue.items) == [] ==> c == Idle && queue.items == []
    ensures old(queue.items) != [] ==>
      queue.items == old(queue.items)[1 + ExtrasCount(|old(queue.items)|)..]
      && |queue.items| == (|old(queue.items)| - 1) / 2
    ensures old(queue.items) != [] ==>
      c == Outcome(old(queue.items)[0], old(queue.items)[1..1 + ExtrasCount(|old(queue.items)|)], apiKey, host,
                   pluginVersion, settings, spawnOk, writeOk)
  {
    var first := queue.Poll();
    if first.None? {
      return Idle;
    }
    ghost var items := old(queue.items);
    ghost var m := |items|;
    var extras: seq<Heartbeat> := [];
    var i := 0;
    while i < queue.Size()
      invariant 1 + i <= m && 2 * i <= m
      invariant extras == items[1..1 + i]
      invariant queue.items == items[1 + i..]
      decreases |queue.items|
    {
      var h := queue.Poll();
      extras := extras + [h.value];
      i := i + 1;
    }
    ghost var k := ExtrasCount(m);
    assert i == k && first.value == items[0];
    assert extras == items[1..1 + k] && queue.items == items[1 + k..] && |queue.items| == (m - 1) / 2;
    assert first.value == old(queue.items)[0];
    assert extras == old(queue.items)[1..1 + ExtrasCount(|old(queue.items)|)];
    c := Report(first.value, extras, apiKey, host, pluginVersion, settings, spawnOk, writeOk);
  }

  /**
   * The drained heartbeats' part of the run: the command is built, which may crash, then the
   * process is spawned and, when it starts, sent the extras as one JSON line.
   */
  method Report(primary: Heartbeat, extras: seq<Heartbeat>, apiKey: Option<string>, host: Host,
                pluginVersion: string, settings: Settings, spawnOk: bool, writeOk: bool)
    returns (c: Cycle)
    ensures c == Outcome(primary, extras, apiKey, host, pluginVersion, settings, spawnOk, writeOk)
  {
    var cmd := BuildCliCommand(primary, apiKey, extras, host, pluginVersion, settings);
    if cmd.Err? {
      return Crashed(cmd.error);
    }
    if !spawnOk {
      return SpawnFailed(cmd.value);
    }
    c := Reported(cmd.value, [JsonArray(extras), Newline], writeOk);
  }

  /** The closed form of the drain is the loop's own round-by-round rule. */
  lemma DrainFollowsLoop(items: seq<Heartbeat>)
    requires items != []
    ensures items[1..1 + ExtrasCount(|items|)] == LoopTaken(0, items[1..])
  {
    LoopTakenHalf(0, items[1..]);
    if |items| > 1 {
      assert ExtrasCount(|items|) == (|items| - 1 + 1) / 2;
    }
  }

  /** The drain partitions the queue: primary, extras and the heartbeats left, in the original order. */
  lemma DrainPartitions(items: seq<Heartbeat>)
    requires items != []
    ensures var k := ExtrasCount(|items|);
      [items[0]] + items[1..1 + k] + items[1 + k..] == items
  {
    var k := ExtrasCount(|items|);
    assert [items[0]] + items[1..1 + k] == items[..1 + k];
  }

  /** A queue of one or two heartbeats is emptied in one cycle; three leave one behind. */
  lemma SmallQueues()
    ensures ExtrasCount(1) == 0 && ExtrasCount(2) == 1 && ExtrasCount(3) == 1 && ExtrasCount(4) == 2
  {
  }

  /**
   * Heartbeats from editor events are complete, so a cycle with such a primary crashes only
   * when no API key is stored.
   */
  lemma EventPrimaryFaults(doc: Document, now: Decimal4, unsaved: bool, apiKey: Option<string>)
    ensures Complete(FileHeartbeat(doc, now, unsaved))
    ensures FirstFault(FileHeartbeat(doc, now, unsaved), apiKey) == if apiKey.None? then Some(NullApiKey) else None
  {
  }

  /** The number of heartbeats left after `cycles` runs without new events. */
  function Remaining(m: nat, cycles: nat): (r: nat)
    ensures r <= m
    ensures cycles > 0 && m > 0 ==> r < m
  {
    if cycles == 0 || m == 0 then m else Remaining((m - 1) / 2, cycles - 1)
  }

  function Pow2(n: nat): (p: nat)
    ensures p >= 1
  {
    if n == 0 then 1 else 2 * Pow2(n - 1)
  }

  /** Each cycle at least halves the queue, so `cycles` runs leave fewer than m / 2^cycles + 1. */
  lemma {:induction false} RemainingHalves(m: nat, cycles: nat)
    ensures Remaining(m, cycles) * Pow2(cycles) <= m
  {
    if cycles > 0 && m > 0 {
      RemainingHalves((m - 1) / 2, cycles - 1);
      assert Remaining(m, cycles) * Pow2(cycles) == 2 * (Remaining((m - 1) / 2, cycles - 1) * Pow2(cycles - 1));
    }
  }
}
