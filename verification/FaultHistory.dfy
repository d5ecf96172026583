/**
 The monitor sweep of src/fault_tolerance/fault_manager.c:16-66 told node by node, and what recovering a node changes.
 */
module FaultHistory {
  import opened FaultManagers
  import opened Schedulers
  import opened Submissions
  import opened Tally

  predicate RunsOn(t: Task, node: int) {
    t.status == TaskRunning && t.assignedNode == node
  }

  function RunningOn(tasks: seq<Task>, node: int): set<nat> {
    set k | 0 <= k < |tasks| && RunsOn(tasks[k], node)
  }

  /** Node i, live and silent for too long, is failed: g becomes g'. */
  ghost predicate Fails(g: Grid, g': Grid, i: nat) {
    && i < |g.nodes| && |g'.tasks| == |g.tasks|
    && g'.nodes == g.nodes[i := g.nodes[i].(status := NodeFailed, reputation := g.nodes[i].reputation * 0.5)]
    && g'.failedNodes == g.failedNodes + 1 && g'.recoveries == g.recoveries
    && g'.tasksRecovered == g.tasksRecovered + |RunningOn(g.tasks, g.nodes[i].id)|
    && exists b :: IsBest(g.nodes[i := g.nodes[i].(status := NodeFailed)], b) && Reassigned(g, g', i, b)
  }

  /** What runs on the failed node, and what waits, goes to node b; with no node left it waits. */
  ghost predicate Reassigned(g: Grid, g': Grid, i: nat, b: int)
    requires i < |g.nodes| && -1 <= b < |g.nodes| && |g'.tasks| == |g.tasks|
  {
    forall k | 0 <= k < |g.tasks| ::
      var t := g.tasks[k];
      g'.tasks[k] ==
      if RunsOn(t, g.nodes[i].id) || t.status == TaskPending || t.status == TaskFailed then
        if b != -1 then t.(assignedNode := g.nodes[b].id, status := TaskRunning)
        else if t.status == TaskRunning then t.(status := TaskPending)
        else t
      else t
  }

  predicate Silent(n: Node, now: int) {
    now - n.lastHeartbeat > 15 && n.status != NodeFailed && n.status != NodeOffline
  }

  lemma OneMoreRunning(tasks: seq<Task>, node: int)
    requires tasks != []
    ensures var n := |tasks| - 1;
            var s := RunningOn(tasks[..n], node);
            n !in s && RunningOn(tasks, node) == if RunsOn(tasks[n], node) then s + {n} else s
  {
    hide RunsOn;
    var n := |tasks| - 1;
    assert forall k | 0 <= k < n :: tasks[..n][k] == tasks[k];
  }

  lemma {:induction false} OrphansCounted(tasks: seq<Task>, node: int)
    ensures CountOrphans(tasks, node) == |RunningOn(tasks, node)|
  {
    if tasks == [] {
      assert RunningOn(tasks, node) == {};
    } else {
      hide RunningOn;
      OrphansCounted(tasks[..|tasks| - 1], node);
      OneMoreRunning(tasks, node);
    }
  }

  lemma {:induction false} FailIs(g: Grid, i: nat)
    requires i < |g.nodes|
    ensures Fails(g, Fail(g, i), i)
  {
    hide CountOrphans, RunningOn;
    var failed := g.nodes[i].(status := NodeFailed);
    var nodes, orphaned, g' := g.nodes[i := failed], Orphaned(g.tasks, failed.id), Fail(g, i);
    var b := Best(nodes);
    OrphansCounted(g.tasks, failed.id);
    RescheduleIs(orphaned, nodes, b);
    forall k | 0 <= k < |g.tasks|
      ensures orphaned[k] ==
              if RunsOn(g.tasks[k], failed.id) then g.tasks[k].(status := TaskPending) else g.tasks[k]
    {
    }
    assert Reassigned(g, g', i, b);
  }

  /** The states between the looks at the first k nodes, in order. */
  ghost predicate Looks(v: seq<Grid>, now: int, k: nat) {
    && |v| == k + 1
    && forall i | 0 <= i < k ::
         i < |v[i].nodes| && if Silent(v[i].nodes[i], now) then Fails(v[i], v[i + 1], i) else v[i + 1] == v[i]
  }

  /** A sweep looks at every node once, in order, and fails those that are live and silent at that moment. */
  lemma {:induction false} SweepHistory(g: Grid, now: int, k: nat) returns (v: seq<Grid>)
    requires k <= |g.nodes|
    ensures Looks(v, now, k) && v[0] == g && v[k] == Sweep(g, now, k)
  {
    hide Fail, Fails;
    if k == 0 {
      v := [g];
    } else {
      var u := SweepHistory(g, now, k - 1);
      var h := Sweep(g, now, k - 1);
      if TimesOut(h.nodes[k - 1], now) {
        FailIs(h, k - 1);
      }
      v := u + [Sweep(g, now, k)];
      forall i | 0 <= i < k
        ensures i < |v[i].nodes|
        ensures if Silent(v[i].nodes[i], now) then Fails(v[i], v[i + 1], i) else v[i + 1] == v[i]
      {
        assert v[i] == u[i] && (i < k - 1 ==> v[i + 1] == u[i + 1]);
      }
    }
  }

  /** Recovery brings the first node with the id back if it has failed, and changes nothing else. */
  lemma {:induction false} RecoverIs(g: Grid, id: int, now: int, i: nat)
    requires i < |g.nodes| && g.nodes[i].id == id && forall j | 0 <= j < i :: g.nodes[j].id != id
    ensures Recover(g, id, now, 0) ==
            if g.nodes[i].status != NodeFailed then g
            else Grid(g.nodes[i := g.nodes[i].(status := NodeIdle, lastHeartbeat := now, reputation := 0.7)],
                      g.tasks, g.failedNodes - 1, g.recoveries + 1, g.tasksRecovered)
  {
    RecoverSkips(g, id, now, 0, i);
  }

  /** An unknown id recovers nothing. */
  lemma {:induction false} RecoverUnknown(g: Grid, id: int, now: int)
    requires forall j | 0 <= j < |g.nodes| :: g.nodes[j].id != id
    ensures Recover(g, id, now, 0) == g
  {
    RecoverSkips(g, id, now, 0, |g.nodes|);
  }

  lemma {:induction false} RecoverSkips(g: Grid, id: int, now: int, k: nat, i: nat)
    requires k <= i <= |g.nodes| && forall j | k <= j < i :: g.nodes[j].id != id
    ensures Recover(g, id, now, k) == Recover(g, id, now, i)
    decreases i - k
  {
    if k < i {
      RecoverSkips(g, id, now, k + 1, i);
    }
  }
}
