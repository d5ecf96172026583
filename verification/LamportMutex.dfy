/**
 The distributed mutex of src/sync/sync.c:8-103: the fields one node keeps and what its functions do to them.
 acquire_distributed_lock waits between its first half and its last; the two halves are separate here.
 */
module LamportMutexes {
  datatype Mutex = Mutex(nodeId: int, timestamp: int, requesting: bool, granted: bool, replies: int)

  /** A request that carries this stamp. */
  function Request(m: Mutex, stamp: int): Mutex {
    m.(requesting := true, timestamp := stamp, replies := 0)
  }

  /** The code's own request is stamped one above the node's last. */
  function Begin(m: Mutex): Mutex {
    Request(m, m.timestamp + 1)
  }

  predicate MayEnter(m: Mutex, totalNodes: int) {
    m.requesting && !m.granted && m.replies >= totalNodes - 1
  }

  /** A wait that times out assumes the replies that are missing. */
  function Assume(m: Mutex, totalNodes: int): Mutex {
    if m.replies < totalNodes - 1 then m.(replies := totalNodes - 1) else m
  }

  function Enter(m: Mutex): Mutex {
    m.(granted := true)
  }

  function Release(m: Mutex): Mutex {
    m.(requesting := false, granted := false)
  }

  function CountReply(m: Mutex): Mutex {
    m.(replies := m.replies + 1)
  }

  /** The order on requests: by stamp, ties by node id. */
  predicate Earlier(stamp: int, node: int, stamp': int, node': int) {
    stamp < stamp' || (stamp == stamp' && node < node')
  }

  predicate Grants(m: Mutex, node: int, stamp: int) {
    !m.requesting || Earlier(stamp, node, m.timestamp, m.nodeId)
  }

  class LamportMutex {
    const nodeId: int
    var timestamp: int
    var requesting: bool
    var granted: bool
    var replies: int

    ghost function View(): Mutex
      reads this
    {
      Mutex(nodeId, timestamp, requesting, granted, replies)
    }

    constructor (nodeId: int)
      ensures View() == Mutex(nodeId, 0, false, false, 0)
    {
      this.nodeId, timestamp, requesting, granted, replies := nodeId, 0, false, false, 0;
    }

    method BeginAcquire()
      modifies this
      ensures View() == Begin(old(View()))
      ensures requesting && timestamp == old(timestamp) + 1 && replies == 0 && granted == old(granted)
    {
      requesting := true;
      timestamp := timestamp + 1;
      replies := 0;
    }

    /** One test of the wait loop, the wait and its timeout, and what follows the loop. */
    method FinishAcquire(totalNodes: int, timedOut: bool) returns (entered: bool)
      requires requesting && !granted
      modifies this
      ensures var m := if timedOut then Assume(old(View()), totalNodes) else old(View());
              entered == MayEnter(m, totalNodes) && View() == if entered then Enter(m) else m
      ensures entered <==> timedOut || old(replies) >= totalNodes - 1
      ensures granted == entered && requesting && timestamp == old(timestamp)
      ensures replies == if timedOut && old(replies) < totalNodes - 1 then totalNodes - 1 else old(replies)
    {
      if replies < totalNodes - 1 && timedOut {
        replies := totalNodes - 1;
      }
      entered := !(replies < totalNodes - 1);
      if entered {
        granted := true;
      }
    }

    method ReleaseLock()
      modifies this
      ensures View() == Release(old(View()))
      ensures !requesting && !granted && timestamp == old(timestamp) && replies == old(replies)
    {
      requesting := false;
      granted := false;
    }

    method HandleLockRequest(node: int, stamp: int) returns (shouldGrant: bool)
      ensures shouldGrant == Grants(View(), node, stamp)
      ensures shouldGrant <==> !requesting || stamp < timestamp || (stamp == timestamp && node < nodeId)
    {
      shouldGrant := false;
      if !requesting {
        shouldGrant := true;
      } else if stamp < timestamp {
        shouldGrant := true;
      } else if stamp == timestamp && node < nodeId {
        shouldGrant := true;
      }
    }

    method HandleLockReply()
      modifies this
      ensures View() == CountReply(old(View()))
      ensures replies == old(replies) + 1 && timestamp == old(timestamp)
      ensures requesting == old(requesting) && granted == old(granted)
    {
      replies := replies + 1;
    }
  }
}
