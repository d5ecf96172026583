/**
 One sweep of the heartbeat monitor of src/fault_tolerance/fault_manager.c, with the recovery it starts in the
 scheduler.
 */
module FaultManagers {
  import opened Schedulers
  import opened Tally

  const NODE_TIMEOUT := 15

  /** Nodes, tasks, and the manager's three counters. */
  datatype Grid = Grid(nodes: seq<Node>, tasks: seq<Task>, failedNodes: int, recoveries: int, tasksRecovered: int)

  predicate Stale(n: Node, now: int) {
    now - n.lastHeartbeat > NODE_TIMEOUT
  }

  predicate TimesOut(n: Node, now: int) {
    Stale(n, now) && Live(n)
  }

  predicate Orphan(t: Task, node: int) {
    t.assignedNode == node && t.status.TaskRunning?
  }

  function Orphaned(tasks: seq<Task>, node: int): (r: seq<Task>)
    ensures |r| == |tasks|
    ensures forall i | 0 <= i < |tasks| ::
              r[i] == if Orphan(tasks[i], node) then tasks[i].(status := TaskPending) else tasks[i]
  {
    seq(|tasks|, i requires 0 <= i < |tasks| =>
      if Orphan(tasks[i], node) then tasks[i].(status := TaskPending) else tasks[i])
  }

  function OrphanWeight(node: int): Task -> nat {
    (t: Task) => if Orphan(t, node) then 1 else 0
  }

  function CountOrphans(tasks: seq<Task>, node: int): nat {
    Total(tasks, OrphanWeight(node))
  }

  function Penalised(n: Node): Node {
    n.(reputation := n.reputation * 0.5)
  }

  /**
   Node i is declared failed: its running tasks go back to pending, everything waiting is placed again, and it is
   penalised.
   */
  function Fail(g: Grid, i: nat): (r: Grid)
    requires i < |g.nodes|
    ensures |r.nodes| == |g.nodes| && |r.tasks| == |g.tasks|
  {
    var failed := g.nodes[i].(status := NodeFailed);
    var nodes := g.nodes[i := failed];
    g.(nodes := nodes[i := Penalised(failed)],
       tasks := Rescheduled(Orphaned(g.tasks, failed.id), nodes),
       failedNodes := g.failedNodes + 1,
       tasksRecovered := g.tasksRecovered + CountOrphans(g.tasks, failed.id))
  }

  /** The sweep after its first k nodes. */
  function Sweep(g: Grid, now: int, k: nat): (r: Grid)
    requires k <= |g.nodes|
    ensures |r.nodes| == |g.nodes| && |r.tasks| == |g.tasks|
  {
    if k == 0 then g
    else
      var h := Sweep(g, now, k - 1);
      if TimesOut(h.nodes[k - 1], now) then Fail(h, k - 1) else h
  }

  /** The first node with this id, if it has failed, comes back idle with a reduced reputation. */
  function Recover(g: Grid, id: int, now: int, k: nat): Grid
    requires k <= |g.nodes|
    decreases |g.nodes| - k
  {
    if k == |g.nodes| then g
    else if g.nodes[k].id != id then Recover(g, id, now, k + 1)
    else if !g.nodes[k].status.NodeFailed? then g
    else g.(nodes := g.nodes[k := g.nodes[k].(status := NodeIdle, lastHeartbeat := now, reputation := 0.7)],
            failedNodes := g.failedNodes - 1,
            recoveries := g.recoveries + 1)
  }

  class FaultManager {
    const nodes: array<Node>
    const scheduler: Scheduler
    var failedNodes: int
    var recoveries: int
    var tasksRecovered: int

    ghost predicate Valid()
      reads this, scheduler
    {
      scheduler.Valid() && nodes as object != scheduler.tasks
    }

    ghost function View(): Grid
      requires Valid()
      reads this, nodes, scheduler, scheduler.tasks
    {
      Grid(nodes[..], scheduler.View(), failedNodes, recoveries, tasksRecovered)
    }

    constructor (nodes: array<Node>, scheduler: Scheduler)
      requires scheduler.Valid() && nodes as object != scheduler.tasks
      ensures Valid() && View() == Grid(nodes[..], scheduler.View(), 0, 0, 0)
    {
      this.nodes, this.scheduler := nodes, scheduler;
      failedNodes, recoveries, tasksRecovered := 0, 0, 0;
    }

    /** The first loop of handle_node_failure. */
    method OrphanTasks(node: int)
      requires Valid()
      modifies this`tasksRecovered, scheduler.tasks
      ensures Valid() && nodes[..] == old(nodes[..])
      ensures scheduler.View() == Orphaned(old(scheduler.View()), node)
      ensures tasksRecovered == old(tasksRecovered) + CountOrphans(old(scheduler.View()), node)
    {
      var tasks := scheduler.tasks;
      ghost var before, n := scheduler.View(), scheduler.taskCount;
      for i := 0 to scheduler.taskCount
        invariant forall k | 0 <= k < i :: tasks[k] == Orphaned(before, node)[k]
        invariant forall k | i <= k < n :: tasks[k] == before[k]
        invariant nodes[..] == old(nodes[..])
        invariant tasksRecovered == old(tasksRecovered) + CountOrphans(before[..i], node)
      {
        assert before[..i + 1][..i] == before[..i];
        if tasks[i].assignedNode == node && tasks[i].status.TaskRunning? {
          tasks[i] := tasks[i].(status := TaskPending);
          tasksRecovered := tasksRecovered + 1;
        }
      }
      assert before[..n] == before;
    }

    method HandleNodeFailure(i: nat)
      requires Valid() && i < nodes.Length
      modifies this`tasksRecovered, nodes, scheduler.tasks
      ensures Valid()
      ensures nodes[..] == old(nodes[..])[i := Penalised(old(nodes[i]))]
      ensures scheduler.View() == Rescheduled(Orphaned(old(scheduler.View()), old(nodes[i].id)), old(nodes[..]))
      ensures tasksRecovered == old(tasksRecovered) + CountOrphans(old(scheduler.View()), old(nodes[i].id))
    {
      OrphanTasks(nodes[i].id);
      scheduler.RescheduleFailedTasks(nodes);
      nodes[i] := nodes[i].(reputation := nodes[i].reputation * 0.5);
    }

    method MonitorSweep(now: int)
      requires Valid()
      modifies this, nodes, scheduler.tasks
      ensures Valid() && View() == Sweep(old(View()), now, nodes.Length)
    {
      hide CountOrphans, Orphaned, Rescheduled;
      for i := 0 to nodes.Length
        invariant Valid() && View() == Sweep(old(View()), now, i)
      {
        if now - nodes[i].lastHeartbeat > NODE_TIMEOUT {
          if !nodes[i].status.NodeFailed? && !nodes[i].status.NodeOffline? {
            ghost var g := View();
            nodes[i] := nodes[i].(status := NodeFailed);
            failedNodes := failedNodes + 1;
            HandleNodeFailure(i);
            assert View() == Fail(g, i);
          }
        }
      }
    }

    method RecoverNode(id: int, now: int)
      requires Valid()
      modifies this, nodes
      ensures Valid() && View() == Recover(old(View()), id, now, 0)
    {
      for i := 0 to nodes.Length
        invariant View() == old(View())
        invariant Recover(View(), id, now, i) == Recover(old(View()), id, now, 0)
      {
        if nodes[i].id == id {
          if nodes[i].status.NodeFailed? {
            nodes[i] := nodes[i].(status := NodeIdle, lastHeartbeat := now, reputation := 0.7);
            failedNodes := failedNodes - 1;
            recoveries := recoveries + 1;
          }
          break;
        }
      }
    }
  }
}
