/**
 * The drop-oldest branch queue (crates/synchrosonic-transport/src/fanout.rs). A push is up to
 * three atomic channel operations; the consumer thread may receive between any two of them.
 * `Queue` is the shared state with the producer's position inside a push, and a run is any
 * interleaving of moves.
 */
module BranchQueues {
  import opened Numbers
  import opened Options
  import opened Subsequences
  import opened LatencyProfiles
  import Arithmetic

  datatype PushOutcome = Enqueued | DroppedOldest | DroppedNewest

  /**
   * Where the producer is: between pushes, about to evict after a full channel, or about to
   * retry. `taken` counts what the consumer received since the channel was found full.
   */
  datatype Phase<T> = Resting | Evicting(item: T, taken: nat) | Retrying(item: T)

  datatype Queue<T> = Queue(
    capacity: nat,
    items: seq<T>,
    dropped: nat,
    phase: Phase<T>,
    last: Option<PushOutcome>,
    // what an observer records
    offered: seq<T>,
    delivered: seq<T>,
    cleared: nat)

  datatype Move<T> = Push(item: T) | Continue | Receive | ClearOne

  function NewQueue<T>(capacity: nat): Queue<T> {
    Queue(Max(capacity, 1), [], 0, Resting, None, [], [], 0)
  }

  /** One atomic channel operation. A move its thread cannot make leaves the state alone. */
  function Next<T>(q: Queue<T>, move: Move<T>): Queue<T> {
    match move
    case Push(item) =>
      if !q.phase.Resting? then q
      else
        var offering := q.(offered := q.offered + [item]);
        if |q.items| < q.capacity then offering.(items := q.items + [item], last := Some(Enqueued))
        else offering.(phase := Evicting(item, 0))
    case Continue =>
      (match q.phase
       case Resting => q
       case Evicting(item, _) =>
         if q.items != [] then
           q.(items := q.items[1..], dropped := q.dropped + 1, phase := Retrying(item))
         else
           q.(dropped := q.dropped + 1, phase := Resting, last := Some(DroppedNewest))
       case Retrying(item) =>
         if |q.items| < q.capacity then
           q.(items := q.items + [item], phase := Resting, last := Some(DroppedOldest))
         else
           q.(dropped := q.dropped + 1, phase := Resting, last := Some(DroppedNewest)))
    case Receive =>
      if q.items == [] then q
      else q.(items := q.items[1..], delivered := q.delivered + [q.items[0]],
              phase := if q.phase.Evicting? then q.phase.(taken := q.phase.taken + 1) else q.phase)
    case ClearOne =>
      if q.items == [] || !q.phase.Resting? then q
      else q.(items := q.items[1..], cleared := q.cleared + 1)
  }

  function Run<T>(start: Queue<T>, moves: seq<Move<T>>): Queue<T> {
    if moves == [] then start
    else Next(Run(start, moves[..|moves| - 1]), moves[|moves| - 1])
  }

  function InProgress<T>(q: Queue<T>): nat { if q.phase.Resting? then 0 else 1 }

  /** The items whose push has ended. */
  function Settled<T>(q: Queue<T>): seq<T>
    requires !q.phase.Resting? ==> q.offered != []
  {
    if q.phase.Resting? then q.offered else q.offered[..|q.offered| - 1]
  }

  ghost predicate Inv<T(!new)>(q: Queue<T>) {
    && 1 <= q.capacity && |q.items| <= q.capacity
    && (!q.phase.Resting? ==> q.offered != [] && q.phase.item == q.offered[|q.offered| - 1])
    && (q.phase.Evicting? ==> |q.items| + q.phase.taken == q.capacity)
    && (q.phase.Retrying? ==> |q.items| < q.capacity)
    && |q.offered| == |q.delivered| + |q.items| + q.dropped + q.cleared + InProgress(q)
    && Subsequence(q.delivered + q.items, Settled(q))
  }

  lemma {:induction false} TakeFront<T>(delivered: seq<T>, items: seq<T>, whole: seq<T>)
    requires items != [] && Subsequence(delivered + items, whole)
    ensures (delivered + [items[0]]) + items[1..] == delivered + items
    ensures Subsequence(delivered + items[1..], whole)
  {
    assert delivered + items == delivered + [items[0]] + items[1..];
    RemoveOne(delivered, items[0], items[1..]);
    Transitive(delivered + items[1..], delivered + items, whole);
  }

  lemma PushKeeps<T(!new)>(q: Queue<T>, item: T)
    requires Inv(q) && q.phase.Resting?
    ensures Inv(Next(q, Push(item)))
  {
    ExtendBoth(q.delivered + q.items, q.offered, item);
    assert q.delivered + q.items + [item] == q.delivered + (q.items + [item]);
    assert (q.offered + [item])[..|q.offered|] == q.offered;
  }

  lemma EvictKeeps<T(!new)>(q: Queue<T>)
    requires Inv(q) && q.phase.Evicting?
    ensures Inv(Next(q, Continue))
  {
    if q.items != [] {
      TakeFront(q.delivered, q.items, Settled(q));
    } else {
      assert q.offered == Settled(q) + [q.phase.item];
      ExtendRight(q.delivered + q.items, Settled(q), q.phase.item);
    }
  }

  lemma RetryKeeps<T(!new)>(q: Queue<T>)
    requires Inv(q) && q.phase.Retrying?
    ensures Inv(Next(q, Continue))
  {
    assert q.offered == Settled(q) + [q.phase.item];
    ExtendBoth(q.delivered + q.items, Settled(q), q.phase.item);
    assert q.delivered + q.items + [q.phase.item] == q.delivered + (q.items + [q.phase.item]);
  }

  lemma TakeKeeps<T(!new)>(q: Queue<T>, move: Move<T>)
    requires Inv(q) && q.items != [] && (move.Receive? || move.ClearOne?)
    ensures Inv(Next(q, move))
  {
    TakeFront(q.delivered, q.items, Settled(q));
  }

  lemma NextKeeps<T(!new)>(q: Queue<T>, move: Move<T>)
    requires Inv(q)
    ensures Inv(Next(q, move))
  {
    match move
    case Push(item) => if q.phase.Resting? { PushKeeps(q, item); }
    case Continue =>
      if q.phase.Evicting? { EvictKeeps(q); }
      if q.phase.Retrying? { RetryKeeps(q); }
    case Receive => if q.items != [] { TakeKeeps(q, Receive); }
    case ClearOne => if q.items != [] { TakeKeeps(q, ClearOne); }
  }

  lemma {:induction false} Reachable<T(!new)>(capacity: nat, moves: seq<Move<T>>)
    ensures Inv(Run(NewQueue(capacity), moves))
  {
    if moves != [] {
      Reachable(capacity, moves[..|moves| - 1]);
      NextKeeps(Run(NewQueue(capacity), moves[..|moves| - 1]), moves[|moves| - 1]);
    }
  }

  /** In every interleaving the channel stays bounded and every offered item is accounted for. */
  lemma NothingUnaccounted<T(!new)>(capacity: nat, moves: seq<Move<T>>)
    ensures var q := Run(NewQueue(capacity), moves);
            && |q.items| <= Max(capacity, 1)
            && |q.offered| == |q.delivered| + |q.items| + q.dropped + q.cleared + InProgress(q)
  {
    Reachable(capacity, moves);
    RunKeepsCapacity(NewQueue(capacity), moves);
  }

  lemma {:induction false} RunKeepsCapacity<T>(start: Queue<T>, moves: seq<Move<T>>)
    ensures Run(start, moves).capacity == start.capacity
  {
    if moves != [] { RunKeepsCapacity(start, moves[..|moves| - 1]); }
  }

  /** In every interleaving, what was delivered and is still queued kept its order and is unaltered. */
  lemma OrderKept<T(!new)>(capacity: nat, moves: seq<Move<T>>)
    ensures var q := Run(NewQueue(capacity), moves); Subsequence(q.delivered + q.items, q.offered)
  {
    Reachable(capacity, moves);
    var q := Run(NewQueue(capacity), moves);
    if !q.phase.Resting? {
      assert q.offered == Settled(q) + [q.phase.item];
      ExtendRight(q.delivered + q.items, Settled(q), q.phase.item);
    }
  }

  /** With one producer the retry always finds room. */
  lemma RetrySucceeds<T(!new)>(capacity: nat, moves: seq<Move<T>>)
    ensures var q := Run(NewQueue(capacity), moves);
            q.phase.Retrying? ==>
              Next(q, Continue) == q.(items := q.items + [q.phase.item], phase := Resting, last := Some(DroppedOldest))
  {
    Reachable(capacity, moves);
  }

  /** The pushed item itself is lost exactly when the consumer emptied the full queue during the push. */
  lemma NewestLostExactly<T(!new)>(capacity: nat, moves: seq<Move<T>>)
    ensures var q := Run(NewQueue(capacity), moves);
            q.phase.Evicting? ==>
              (Next(q, Continue).last == Some(DroppedNewest) && Next(q, Continue).phase.Resting?
               <==> q.phase.taken == q.capacity)
  {
    Reachable(capacity, moves);
  }

  // ----- The object -----

  /** The consumer receives `n` times in a row. */
  function Receives<T>(q: Queue<T>, n: nat): Queue<T> {
    if n == 0 then q else Next(Receives(q, n - 1), Receive)
  }

  /** A whole push during which the consumer receives `first` times before the eviction and `second` times after it. */
  function PushAmid<T>(q: Queue<T>, item: T, first: nat, second: nat): Queue<T> {
    var started := Next(q, Push(item));
    if started.phase.Resting? then started
    else
      var evicted := Next(Receives(started, first), Continue);
      if evicted.phase.Resting? then evicted else Next(Receives(evicted, second), Continue)
  }

  class BufferedBranchQueue<T> {
    const capacity: nat
    var channel: seq<T>
    var dropped: nat
    ghost var observed: Queue<T>

    ghost predicate Valid()
      reads this
    {
      && observed.capacity == capacity && observed.items == channel && observed.dropped == dropped
      && 1 <= capacity && |channel| <= capacity
    }

    constructor (requested: nat)
      ensures Valid() && observed == NewQueue(requested)
    {
      capacity, channel, dropped := Max(requested, 1), [], 0;
      observed := NewQueue(requested);
    }

    method TrySend(item: T) returns (full: bool)
      requires Valid()
      modifies this`channel
      ensures full <==> |old(channel)| == capacity
      ensures channel == if full then old(channel) else old(channel) + [item]
    {
      full := |channel| >= capacity;
      if !full { channel := channel + [item]; }
    }

    method TryReceive() returns (item: Option<T>)
      modifies this`channel
      ensures old(channel) == [] ==> item == None && channel == []
      ensures old(channel) != [] ==> item == Some(old(channel)[0]) && channel == old(channel)[1..]
    {
      item := None;
      if channel != [] {
        item := Some(channel[0]);
        channel := channel[1..];
      }
    }

    /** What the consumer thread does to the channel in the meantime. */
    method Consume(times: nat)
      requires Valid()
      modifies this`channel, this`observed
      ensures Valid() && observed == Receives(old(observed), times)
    {
      for i := 0 to times
        invariant Valid() && observed == Receives(old(observed), i)
      {
        var received := TryReceive();
        observed := Next(observed, Receive);
      }
    }

    /** `first` and `second` say how often the consumer receives between the channel operations. */
    method PushFrame(item: T, first: nat, second: nat) returns (outcome: PushOutcome)
      requires Valid() && observed.phase.Resting?
      modifies this
      ensures Valid() && observed == PushAmid(old(observed), item, first, second)
      ensures observed.phase.Resting? && observed.last == Some(outcome)
    {
      var full := TrySend(item);
      observed := Next(observed, Push(item));
      if !full { return Enqueued; }
      Consume(first);
      ReceivesKeepPhase(Next(old(observed), Push(item)), first);
      var evicted := TryReceive();
      dropped := dropped + 1;
      observed := Next(observed, Continue);
      if evicted.None? { return DroppedNewest; }
      ghost var retrying := observed;
      Consume(second);
      ReceivesKeepPhase(retrying, second);
      full := TrySend(item);
      observed := Next(observed, Continue);
      if !full { return DroppedOldest; }
      dropped := dropped + 1;
      return DroppedNewest;
    }

    method Clear()
      requires Valid() && observed.phase.Resting?
      modifies this`channel, this`observed
      ensures Valid() && observed.phase.Resting? && channel == []
      ensures observed.offered == old(observed).offered && observed.delivered == old(observed).delivered
      ensures observed.cleared == old(observed).cleared + |old(channel)|
    {
      while channel != []
        invariant Valid() && observed.phase.Resting?
        invariant observed.offered == old(observed).offered && observed.delivered == old(observed).delivered
        invariant observed.cleared + |channel| == old(observed).cleared + |old(channel)|
        decreases |channel|
      {
        var item := TryReceive();
        observed := Next(observed, ClearOne);
      }
    }
  }

  lemma {:induction false} ReceivesKeepPhase<T>(q: Queue<T>, n: nat)
    ensures var r := Receives(q, n);
            && (r.phase.Evicting? <==> q.phase.Evicting?) && (r.phase.Retrying? <==> q.phase.Retrying?)
            && (!q.phase.Resting? ==> r.phase.item == q.phase.item)
  {
    if n > 0 { ReceivesKeepPhase(q, n - 1); }
  }

  /**
   * A push that finds the queue full, seen from outside: the consumer gets the oldest items, the
   * next oldest is dropped, the consumer may take more, and the new one is queued; unless the
   * consumer took everything before the drop, and then the new one is lost.
   */
  lemma PushFullQueue<T(!new)>(q: Queue<T>, item: T, first: nat, second: nat)
    requires Inv(q) && q.phase.Resting? && |q.items| == q.capacity
    ensures var pushed := PushAmid(q, item, first, second);
            if first < q.capacity then
              var left := q.items[first + 1..];
              var taken := Min(second, |left|);
              && pushed.delivered == q.delivered + q.items[..first] + left[..taken]
              && pushed.items == left[taken..] + [item]
              && pushed.last == Some(DroppedOldest) && pushed.dropped == q.dropped + 1
            else
              && pushed.delivered == q.delivered + q.items
              && pushed.items == []
              && pushed.last == Some(DroppedNewest) && pushed.dropped == q.dropped + 1
  {
    var started := Next(q, Push(item));
    ReceivesTake(started, first);
    ReceivesKeepPhase(started, first);
    if first < q.capacity {
      var evicted := Next(Receives(started, first), Continue);
      assert q.items[first..][1..] == q.items[first + 1..];
      ReceivesTake(evicted, second);
      ReceivesKeepPhase(evicted, second);
    } else {
      assert q.items[..|q.items|] == q.items;
    }
  }

  /** A push that finds room is one operation: the item is queued behind the others, and nothing is lost. */
  lemma PushWithRoom<T(!new)>(q: Queue<T>, item: T, first: nat, second: nat)
    requires Inv(q) && q.phase.Resting? && |q.items| < q.capacity
    ensures var pushed := PushAmid(q, item, first, second);
            && pushed.items == q.items + [item] && pushed.delivered == q.delivered && pushed.dropped == q.dropped
            && pushed.phase.Resting? && pushed.last == Some(Enqueued)
  {
  }

  lemma {:induction false} ReceivesTake<T>(q: Queue<T>, n: nat)
    ensures var r, k := Receives(q, n), Min(n, |q.items|);
            r.items == q.items[k..] && r.delivered == q.delivered + q.items[..k]
            && r.capacity == q.capacity && r.dropped == q.dropped
  {
    if n > 0 {
      ReceivesTake(q, n - 1);
      var k := Min(n - 1, |q.items|);
      if k < |q.items| {
        assert q.items[k..][1..] == q.items[k + 1..];
        assert q.items[..k] + [q.items[k]] == q.items[..k + 1];
      }
    } else {
      assert q.items[0..] == q.items && q.delivered + q.items[..0] == q.delivered;
    }
  }

  // ----- How long the queue of a branch is -----

  const MIN_BRANCH_QUEUE_PACKETS := 4
  const BRANCH_QUEUE_HEADROOM_PACKETS := 2
  const MAX_BRANCH_QUEUE_PACKETS := 64

  function BranchQueueCapacity(packetNanos: nat, targetLatencyMs: u16): nat {
    var packetMs := Max(packetNanos / MILLISECOND, 1);
    var packets := CeilDiv(Max(targetLatencyMs, 10), packetMs) + BRANCH_QUEUE_HEADROOM_PACKETS;
    Min(Max(packets, MIN_BRANCH_QUEUE_PACKETS), MAX_BRANCH_QUEUE_PACKETS)
  }

  /**
   * Between the two limits, the queue without its headroom lasts for the target latency, and one
   * packet less would not: packet durations counted in whole milliseconds, at least one.
   */
  lemma BranchQueueLastsTargetLatency(packetNanos: nat, targetLatencyMs: u16)
    ensures var capacity, packetMs := BranchQueueCapacity(packetNanos, targetLatencyMs),
        Max(packetNanos / MILLISECOND, 1);
            var targetMs, net := Max(targetLatencyMs, 10), capacity - BRANCH_QUEUE_HEADROOM_PACKETS;
            && MIN_BRANCH_QUEUE_PACKETS <= capacity <= MAX_BRANCH_QUEUE_PACKETS
            && (capacity < MAX_BRANCH_QUEUE_PACKETS ==> targetMs <= net * packetMs)
            && (capacity > MIN_BRANCH_QUEUE_PACKETS ==> (net - 1) * packetMs < targetMs)
  {
    var packetMs, targetMs := Max(packetNanos / MILLISECOND, 1), Max(targetLatencyMs, 10);
    var net, needed := BranchQueueCapacity(packetNanos, targetLatencyMs) - BRANCH_QUEUE_HEADROOM_PACKETS,
        CeilDiv(targetMs, packetMs);
    CeilDivBounds(targetMs, packetMs);
    if needed <= net { Arithmetic.MulMonotone(needed, net, packetMs); }
    if net <= needed { Arithmetic.MulMonotone(net - 1, needed - 1, packetMs); }
  }
}
