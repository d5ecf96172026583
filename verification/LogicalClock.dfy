/** The Lamport clock of src/sync/sync.c:172-208 and the clock condition over every run of every number of nodes. */
module LogicalClocks {
  function Tick(timestamp: int): int {
    timestamp + 1
  }

  function Merge(timestamp: int, received: int): int {
    (if received > timestamp then received else timestamp) + 1
  }

  class LogicalClock {
    var timestamp: int
    const nodeId: int

    constructor (nodeId: int)
      ensures timestamp == 0 && this.nodeId == nodeId
    {
      timestamp, this.nodeId := 0, nodeId;
    }

    method IncrementClock() returns (ts: int)
      modifies this
      ensures ts == timestamp == Tick(old(timestamp))
    {
      timestamp := timestamp + 1;
      ts := timestamp;
    }

    method UpdateClock(received: int) returns (ts: int)
      modifies this
      ensures ts == timestamp == Merge(old(timestamp), received)
    {
      if received > timestamp {
        timestamp := received;
      }
      timestamp := timestamp + 1;
      ts := timestamp;
    }
  }

  // ----- runs -----

  /** `sent` is the place in the run of the send whose message is received. */
  datatype Event = Local(node: int) | Send(node: int) | Receive(node: int, sent: nat)

  ghost predicate Causal(run: seq<Event>) {
    forall i | 0 <= i < |run| && run[i].Receive? :: run[i].sent < i && run[run[i].sent].Send?
  }

  /**
   The clock of a node after the first k events: increment_clock for its own events, update_clock for what it receives.
   */
  ghost function ClockAfter(run: seq<Event>, k: nat, node: int): int
    requires Causal(run) && k <= |run|
  {
    if k == 0 then 0
    else
      var e, c := run[k - 1], ClockAfter(run, k - 1, node);
      if e.node != node then c
      else if e.Receive? then Merge(c, ClockAfter(run, e.sent + 1, run[e.sent].node))
      else Tick(c)
  }

  /** The stamp of event i, which a send puts into its message. */
  ghost function Stamp(run: seq<Event>, i: nat): int
    requires Causal(run) && i < |run|
  {
    ClockAfter(run, i + 1, run[i].node)
  }

  ghost predicate Directly(run: seq<Event>, i: nat, j: nat) {
    i < j < |run| && (run[i].node == run[j].node || (run[j].Receive? && run[j].sent == i))
  }

  ghost predicate Chain(run: seq<Event>, path: seq<nat>) {
    |path| >= 2 && forall k | 0 <= k < |path| - 1 :: Directly(run, path[k], path[k + 1])
  }

  ghost predicate HappenedBefore(run: seq<Event>, i: nat, j: nat) {
    exists path :: Chain(run, path) && path[0] == i && path[|path| - 1] == j
  }

  /** The order by stamp, ties broken by node id. */
  ghost predicate Precedes(run: seq<Event>, i: nat, j: nat)
    requires Causal(run) && i < |run| && j < |run|
  {
    Stamp(run, i) < Stamp(run, j) || (Stamp(run, i) == Stamp(run, j) && run[i].node < run[j].node)
  }

  lemma {:induction false} ClockNeverFalls(run: seq<Event>, k: nat, l: nat, node: int)
    requires Causal(run) && k <= l <= |run|
    ensures ClockAfter(run, k, node) <= ClockAfter(run, l, node)
  {
    if k < l {
      ClockNeverFalls(run, k, l - 1, node);
    }
  }

  lemma {:induction false} DirectIncreases(run: seq<Event>, i: nat, j: nat)
    requires Causal(run) && Directly(run, i, j)
    ensures Stamp(run, i) < Stamp(run, j)
  {
    if run[i].node == run[j].node {
      ClockNeverFalls(run, i + 1, j, run[j].node);
    }
  }

  lemma {:induction false} ChainIncreases(run: seq<Event>, path: seq<nat>)
    requires Causal(run) && Chain(run, path)
    ensures path[0] < |run| && path[|path| - 1] < |run|
    ensures Stamp(run, path[0]) < Stamp(run, path[|path| - 1])
  {
    var n := |path| - 1;
    assert Directly(run, path[n - 1], path[n - 1 + 1]);
    DirectIncreases(run, path[n - 1], path[n]);
    if n > 1 {
      var front := path[..n];
      forall k | 0 <= k < |front| - 1 ensures Directly(run, front[k], front[k + 1]) {
        assert Directly(run, path[k], path[k + 1]);
      }
      ChainIncreases(run, front);
    }
  }

  /** Happened-before implies a strictly smaller stamp. */
  lemma {:induction false} ClockCondition(run: seq<Event>, i: nat, j: nat)
    requires Causal(run) && HappenedBefore(run, i, j)
    ensures i < |run| && j < |run| && Stamp(run, i) < Stamp(run, j) && Precedes(run, i, j)
  {
    var path :| Chain(run, path) && path[0] == i && path[|path| - 1] == j;
    ChainIncreases(run, path);
  }

  /** Stamp and node id together order all events totally: of two events exactly one precedes. */
  lemma {:induction false} TotalOrder(run: seq<Event>, i: nat, j: nat, k: nat)
    requires Causal(run) && i < |run| && j < |run| && k < |run|
    ensures i != j ==> (Precedes(run, i, j) <==> !Precedes(run, j, i))
    ensures !Precedes(run, i, i)
    ensures Precedes(run, i, j) && Precedes(run, j, k) ==> Precedes(run, i, k)
  {
    if i < j && run[i].node == run[j].node {
      DirectIncreases(run, i, j);
    } else if j < i && run[i].node == run[j].node {
      DirectIncreases(run, j, i);
    }
  }

  // ----- what a stamp is -----

  /** A chain of events, each directly before the next, that ends with event i. */
  ghost predicate ChainTo(run: seq<Event>, path: seq<nat>, i: nat) {
    && path != [] && path[|path| - 1] == i < |run|
    && forall k | 0 <= k < |path| - 1 :: Directly(run, path[k], path[k + 1])
  }

  lemma {:induction false} ClockNotNegative(run: seq<Event>, k: nat, node: int)
    requires Causal(run) && k <= |run|
    ensures ClockAfter(run, k, node) >= 0
  {
    ClockNeverFalls(run, 0, k, node);
  }

  lemma {:induction false} NoLongerChain(run: seq<Event>, path: seq<nat>, i: nat)
    requires Causal(run) && ChainTo(run, path, i)
    ensures |path| <= Stamp(run, i)
  {
    var n := |path| - 1;
    if n == 0 {
      ClockNotNegative(run, i, run[i].node);
    } else {
      assert Directly(run, path[n - 1], path[n - 1 + 1]);
      DirectIncreases(run, path[n - 1], i);
      var front := path[..n];
      forall k | 0 <= k < |front| - 1 ensures Directly(run, front[k], front[k + 1]) {
        assert Directly(run, path[k], path[k + 1]);
      }
      NoLongerChain(run, front, path[n - 1]);
    }
  }

  /** A clock that has moved shows the stamp of its node's last event. */
  lemma {:induction false} LastOwnEvent(run: seq<Event>, k: nat, node: int) returns (j: nat)
    requires Causal(run) && k <= |run| && ClockAfter(run, k, node) > 0
    ensures j < k && run[j].node == node && Stamp(run, j) == ClockAfter(run, k, node)
  {
    if run[k - 1].node == node {
      j := k - 1;
    } else {
      j := LastOwnEvent(run, k - 1, node);
    }
  }

  lemma {:induction false} ChainOn(run: seq<Event>, path: seq<nat>, i: nat, j: nat)
    requires ChainTo(run, path, i) && Directly(run, i, j)
    ensures ChainTo(run, path + [j], j)
  {
    var p := path + [j];
    forall k | 0 <= k < |p| - 1 ensures Directly(run, p[k], p[k + 1]) {
      assert k < |path| - 1 ==> Directly(run, path[k], path[k + 1]);
    }
  }

  lemma {:induction false} LongestChain(run: seq<Event>, i: nat) returns (path: seq<nat>)
    requires Causal(run) && i < |run|
    ensures ChainTo(run, path, i) && |path| == Stamp(run, i)
  {
    var e, c := run[i], ClockAfter(run, i, run[i].node);
    ClockNotNegative(run, i, e.node);
    if e.Receive? && Stamp(run, e.sent) > c {
      path := LongestChain(run, e.sent);
      ChainOn(run, path, e.sent, i);
      path := path + [i];
    } else if c > 0 {
      var j := LastOwnEvent(run, i, e.node);
      path := LongestChain(run, j);
      ChainOn(run, path, j, i);
      path := path + [i];
    } else {
      path := [i];
    }
  }

  /** The stamp of an event is the length of the longest chain of events that leads up to it. */
  lemma {:induction false} StampIsLongestChain(run: seq<Event>, i: nat)
    requires Causal(run) && i < |run|
    ensures exists path :: ChainTo(run, path, i) && |path| == Stamp(run, i)
    ensures forall path | ChainTo(run, path, i) :: |path| <= Stamp(run, i)
  {
    var path := LongestChain(run, i);
    forall path | ChainTo(run, path, i) ensures |path| <= Stamp(run, i) {
      NoLongerChain(run, path, i);
    }
  }
}
