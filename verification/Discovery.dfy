/**
 The node registry of src/network_discovery.c: discovery packets add or refresh entries, the heartbeat sweep retires
 them.
 */
module Discovery {
  import opened Searches

  const NODE_TIMEOUT := 15
  const MAX_NODES := 100
  const MAGIC := 0xDEADBEEF
  const MSG_DISCOVERY_REQUEST := 1
  const MSG_DISCOVERY_RESPONSE := 2

  datatype Info = Info(nodeId: nat, ip: string, hostname: string)

  datatype Entry = Entry(info: Info, lastSeen: int, active: bool)

  /** `header` and `payload` say whether the datagram is long enough for them. */
  datatype Packet = Packet(header: bool, magic: nat, nodeId: nat, msgType: nat, payload: bool, info: Info,
                           sender: string)

  datatype Registry = Registry(localId: nat, nodes: seq<Entry>)

  predicate Accepted(localId: nat, p: Packet) {
    && p.header && p.magic == MAGIC && p.nodeId != localId && p.payload
    && (p.msgType == MSG_DISCOVERY_REQUEST || p.msgType == MSG_DISCOVERY_RESPONSE)
  }

  const entryId: Entry -> int := (e: Entry) => e.info.nodeId

  /** The first entry with this id, or -1. */
  function Lookup(nodes: seq<Entry>, id: nat): (r: int)
    ensures -1 <= r < |nodes|
    ensures r != -1 ==> nodes[r].info.nodeId == id && forall i | 0 <= i < r :: nodes[i].info.nodeId != id
    ensures r == -1 ==> forall i | 0 <= i < |nodes| :: nodes[i].info.nodeId != id
  {
    IndexOf(nodes, entryId, id)
  }

  /** The entry is found by the id in the header and takes over the payload, id included. */
  function Process(r: Registry, p: Packet, now: int): Registry {
    if !Accepted(r.localId, p) then r
    else
      var k := Lookup(r.nodes, p.nodeId);
      if k != -1 then r.(nodes := r.nodes[k := Entry(p.info, now, true)])
      else if |r.nodes| < MAX_NODES then r.(nodes := r.nodes + [Entry(p.info.(ip := p.sender), now, true)])
      else r
  }

  function Retire(e: Entry, now: int): Entry {
    if now - e.lastSeen > NODE_TIMEOUT && e.active then e.(active := false) else e
  }

  function Sweep(r: Registry, now: int): Registry {
    r.(nodes := seq(|r.nodes|, i requires 0 <= i < |r.nodes| => Retire(r.nodes[i], now)))
  }

  /** Exactly what a packet does to the registry. */
  lemma ProcessIs(r: Registry, p: Packet, now: int)
    ensures var heard := p.header && p.magic == 0xDEADBEEF && p.nodeId != r.localId && p.payload && 1 <= p.msgType <= 2;
            && (!heard ==> Process(r, p, now) == r)
            && (heard ==> forall k | 0 <= k < |r.nodes| && r.nodes[k].info.nodeId == p.nodeId
                                     && (forall i | 0 <= i < k :: r.nodes[i].info.nodeId != p.nodeId) ::
                  Process(r, p, now) == Registry(r.localId, r.nodes[k := Entry(p.info, now, true)]))
            && (heard && (forall i | 0 <= i < |r.nodes| :: r.nodes[i].info.nodeId != p.nodeId) ==>
                  Process(r, p, now) ==
                  if |r.nodes| >= 100 then r
                  else Registry(r.localId,
                                r.nodes + [Entry(Info(p.info.nodeId, p.sender, p.info.hostname), now, true)]))
  {
    hide Lookup;
  }

  /** A sweep changes nothing but the activity of entries not heard for more than the timeout. */
  lemma SweepIs(r: Registry, now: int)
    ensures Sweep(r, now).localId == r.localId && |Sweep(r, now).nodes| == |r.nodes|
    ensures forall i | 0 <= i < |r.nodes| ::
              Sweep(r, now).nodes[i] ==
              r.nodes[i].(active := r.nodes[i].active && now - r.nodes[i].lastSeen <= 15)
  {
  }

  class NetworkManager {
    const localId: nat
    const nodes: array<Entry>
    var nodeCount: nat

    ghost predicate Valid()
      reads this
    {
      nodes.Length == MAX_NODES && nodeCount <= MAX_NODES
    }

    ghost function View(): Registry
      requires Valid()
      reads this, nodes
    {
      Registry(localId, nodes[..nodeCount])
    }

    constructor (localId: nat)
      ensures Valid() && View() == Registry(localId, []) && fresh(nodes)
    {
      this.localId := localId;
      nodes := new Entry[MAX_NODES](_ => Entry(Info(0, "", ""), 0, false));
      nodeCount := 0;
    }

    /** `respond` says whether a discovery response is sent back. */
    method ProcessDiscoveryMessage(p: Packet, now: int) returns (respond: bool)
      requires Valid()
      modifies this, nodes
      ensures Valid() && View() == Process(old(View()), p, now)
      ensures respond <==> p.header && p.magic == 0xDEADBEEF && p.nodeId != localId && p.payload && p.msgType == 1
    {
      if !p.header || p.magic != MAGIC || p.nodeId == localId {
        return false;
      }
      if p.msgType != MSG_DISCOVERY_REQUEST && p.msgType != MSG_DISCOVERY_RESPONSE {
        return false;
      }
      if !p.payload {
        return false;
      }
      var found := FindNode(p.nodeId);
      if found >= 0 {
        nodes[found] := Entry(p.info, now, true);
      } else if nodeCount < MAX_NODES {
        nodes[nodeCount] := Entry(p.info.(ip := p.sender), now, true);
        nodeCount := nodeCount + 1;
      }
      respond := p.msgType == MSG_DISCOVERY_REQUEST;
    }

    method FindNode(id: nat) returns (found: int)
      requires Valid()
      ensures found == Lookup(View().nodes, id)
    {
      for i := 0 to nodeCount
        invariant forall j | 0 <= j < i :: View().nodes[j].info.nodeId != id
      {
        if nodes[i].info.nodeId == id {
          assert View().nodes[i].info.nodeId == id;
          return i;
        }
        assert View().nodes[i].info.nodeId != id;
      }
      found := -1;
    }

    /** One round of the heartbeat thread. */
    method HeartbeatSweep(now: int)
      requires Valid()
      modifies nodes
      ensures Valid() && View() == Sweep(old(View()), now)
    {
      ghost var before := View().nodes;
      for i := 0 to nodeCount
        invariant forall j | 0 <= j < i :: nodes[j] == Retire(before[j], now)
        invariant forall j | i <= j < nodeCount :: nodes[j] == before[j]
      {
        if now - nodes[i].lastSeen > NODE_TIMEOUT {
          if nodes[i].active {
            nodes[i] := nodes[i].(active := false);
          }
        }
      }
    }
  }
}

/** Which ids the registry holds, and exactly when an entry is active. */
module DiscoveryTheory {
  import opened Discovery

  /** Each id once, and never the local one. */
  ghost predicate Unique(r: Registry) {
    && (forall i, j | 0 <= i < j < |r.nodes| :: r.nodes[i].info.nodeId != r.nodes[j].info.nodeId)
    && (forall i | 0 <= i < |r.nodes| :: r.nodes[i].info.nodeId != r.localId)
  }

  predicate Stores(r: Registry, p: Packet) {
    Accepted(r.localId, p) && (Lookup(r.nodes, p.nodeId) != -1 || |r.nodes| < MAX_NODES)
  }

  /** A packet that is stored keeps ids unique exactly if its payload's id is not the local one and no other entry's. */
  lemma {:induction false} UniqueIff(r: Registry, p: Packet, now: int)
    requires Unique(r) && Stores(r, p)
    ensures Unique(Process(r, p, now)) <==>
            p.info.nodeId != r.localId &&
            forall i | 0 <= i < |r.nodes| && i != Lookup(r.nodes, p.nodeId) :: r.nodes[i].info.nodeId != p.info.nodeId
  {
    hide Lookup;
    var k, r' := Lookup(r.nodes, p.nodeId), Process(r, p, now);
    var at := if k != -1 then k else |r.nodes|;
    assert r'.nodes[at].info.nodeId == p.info.nodeId;
    assert forall i | 0 <= i < |r.nodes| && i != k :: r'.nodes[i] == r.nodes[i];
    if Unique(r') {
      forall i | 0 <= i < |r.nodes| && i != k ensures r.nodes[i].info.nodeId != p.info.nodeId {
        assert r'.nodes[i].info.nodeId != r'.nodes[at].info.nodeId;
      }
    }
  }

  predicate Carries(localId: nat, p: Packet, header: nat, payload: nat) {
    Accepted(localId, p) && p.nodeId == header && p.info.nodeId == payload
  }

  /** Two senders that both carry the first one's payload id: the registry then lists that id twice. */
  lemma {:induction false} OnePayloadTwice(localId: nat, first: Packet, second: Packet, now: int)
    requires Carries(localId, first, 1, 1) && Carries(localId, second, 2, 1)
    ensures Unique(After(localId, [Heard(first, now)]))
    ensures !Unique(After(localId, [Heard(first, now), Heard(second, now)]))
  {
    var one, two := [Heard(first, now)], [Heard(first, now), Heard(second, now)];
    var none, r := Registry(localId, []), After(localId, one);
    assert one[..|one| - 1] == [] && two[..|two| - 1] == one;
    assert After(localId, one[..|one| - 1]) == none;
    assert r == Process(none, first, now) && |r.nodes| == 1 && r.nodes[0].info.nodeId == 1;
    UniqueIff(none, first, now);
    assert Lookup(r.nodes, 2) == -1 && After(localId, two) == Process(r, second, now);
    UniqueIff(r, second, now);
  }

  datatype Event = Heard(p: Packet, now: int) | Swept(now: int)

  function Handle(r: Registry, e: Event): Registry {
    match e
    case Heard(p, now) => Process(r, p, now)
    case Swept(now) => Sweep(r, now)
  }

  function After(localId: nat, events: seq<Event>): Registry {
    if events == [] then Registry(localId, []) else Handle(After(localId, events[..|events| - 1]), events[|events| - 1])
  }

  ghost predicate Matching(events: seq<Event>) {
    forall i | 0 <= i < |events| && events[i].Heard? :: events[i].p.info.nodeId == events[i].p.nodeId
  }

  predicate Hears(localId: nat, e: Event, id: nat) {
    e.Heard? && Accepted(localId, e.p) && e.p.nodeId == id
  }

  /** The last event by which this id was heard. */
  ghost predicate LastHeard(localId: nat, events: seq<Event>, id: nat, k: nat) {
    k < |events| && Hears(localId, events[k], id) && forall i | k < i < |events| :: !Hears(localId, events[i], id)
  }

  lemma {:induction false} AlwaysUnique(localId: nat, events: seq<Event>)
    requires Matching(events)
    ensures Unique(After(localId, events)) && After(localId, events).localId == localId
    ensures |After(localId, events).nodes| <= MAX_NODES
  {
    hide Lookup;
    if events != [] {
      var n := |events| - 1;
      AlwaysUnique(localId, events[..n]);
      var r, e := After(localId, events[..n]), events[n];
      if e.Heard? && Stores(r, e.p) {
        UniqueIff(r, e.p, e.now);
      }
    }
  }

  /** What one event does to the entry at place j. */
  lemma {:induction false} EntryAfter(r: Registry, e: Event, j: nat)
    requires Unique(r) && (e.Heard? ==> e.p.info.nodeId == e.p.nodeId) && j < |Handle(r, e).nodes|
    ensures var x := Handle(r, e).nodes[j];
            if Hears(r.localId, e, x.info.nodeId) then x.active && x.lastSeen == e.now
            else
              && j < |r.nodes| && x.info.nodeId == r.nodes[j].info.nodeId && x.lastSeen == r.nodes[j].lastSeen
              && (x.active <==> r.nodes[j].active && (e.Swept? ==> e.now - x.lastSeen <= NODE_TIMEOUT))
  {
    hide Lookup, Accepted;
  }

  /** No sweep after event k came more than NODE_TIMEOUT later. */
  ghost predicate NotTimedOut(events: seq<Event>, k: nat)
    requires k < |events|
  {
    forall i | k < i < |events| && events[i].Swept? :: events[i].now - events[k].now <= NODE_TIMEOUT
  }

  lemma {:induction false} OneEventMore(localId: nat, events: seq<Event>, id: nat, k: nat)
    requires |events| > 0 && LastHeard(localId, events[..|events| - 1], id, k)
    requires !Hears(localId, events[|events| - 1], id)
    ensures LastHeard(localId, events, id, k)
    ensures var last := events[|events| - 1];
            NotTimedOut(events, k) <==>
            NotTimedOut(events[..|events| - 1], k) && (last.Swept? ==> last.now - events[k].now <= NODE_TIMEOUT)
  {
    hide Hears;
    var front := events[..|events| - 1];
    assert forall i | 0 <= i < |front| :: front[i] == events[i];
  }

  /**
   An entry carries the time it was last heard, and is active exactly if no later sweep came more than NODE_TIMEOUT
   after that.
   */
  lemma {:induction false} ActiveIff(localId: nat, events: seq<Event>, j: nat) returns (k: nat)
    requires Matching(events) && j < |After(localId, events).nodes|
    ensures var e := After(localId, events).nodes[j];
            && LastHeard(localId, events, e.info.nodeId, k) && e.lastSeen == events[k].now
            && (e.active <==> NotTimedOut(events, k))
  {
    hide Handle, Hears;
    var n := |events| - 1;
    var last, r := events[n], After(localId, events[..n]);
    AlwaysUnique(localId, events[..n]);
    EntryAfter(r, last, j);
    hide NotTimedOut;
    var e := After(localId, events).nodes[j];
    if Hears(localId, last, e.info.nodeId) {
      k := n;
      NothingAfter(events);
    } else {
      k := ActiveIff(localId, events[..n], j);
      OneEventMore(localId, events, e.info.nodeId, k);
    }
  }

  lemma NothingAfter(events: seq<Event>)
    requires |events| > 0
    ensures NotTimedOut(events, |events| - 1)
  {
  }

  ghost predicate Monotone(events: seq<Event>) {
    forall i, j | 0 <= i < j < |events| :: events[i].now <= events[j].now
  }

  /** A node heard no longer than NODE_TIMEOUT before every sweep is active. */
  lemma {:induction false} HeardStaysActive(localId: nat, events: seq<Event>, j: nat)
    requires Matching(events) && Monotone(events) && j < |After(localId, events).nodes|
    requires var id := After(localId, events).nodes[j].info.nodeId;
             forall i | 0 <= i < |events| && events[i].Swept?
                        && (exists h :: 0 <= h < i && Hears(localId, events[h], id)) ::
               exists h :: 0 <= h < i && Hears(localId, events[h], id) && events[i].now - events[h].now <= NODE_TIMEOUT
    ensures After(localId, events).nodes[j].active
  {
    hide After, Hears;
    var id := After(localId, events).nodes[j].info.nodeId;
    var k := ActiveIff(localId, events, j);
    forall i | k < i < |events| && events[i].Swept? ensures events[i].now - events[k].now <= NODE_TIMEOUT {
      var h :| 0 <= h < i && Hears(localId, events[h], id) && events[i].now - events[h].now <= NODE_TIMEOUT;
      assert h <= k;
    }
  }

  predicate SweepIn(e: Event, after: int, until: int) {
    e.Swept? && after < e.now <= until
  }

  ghost predicate SweptWithin(events: seq<Event>, after: int, period: int) {
    exists i :: 0 <= i < |events| && SweepIn(events[i], after, after + period)
  }

  /** From `begin` to `end` sweeps are at most `period` apart. */
  ghost predicate SweptEvery(events: seq<Event>, period: int, begin: int, end: int) {
    forall a | begin <= a <= end - period :: SweptWithin(events, a, period)
  }

  /** A node not heard since t is inactive by t + NODE_TIMEOUT + period. */
  lemma {:induction false} SilentIsRetired(localId: nat, events: seq<Event>, j: nat, t: int, period: int, end: int)
    requires Matching(events) && Monotone(events) && j < |After(localId, events).nodes|
    requires SweptEvery(events, period, t, end) && t + NODE_TIMEOUT + period <= end
    requires After(localId, events).nodes[j].lastSeen <= t
    ensures !After(localId, events).nodes[j].active
  {
    hide After, Hears;
    var k := ActiveIff(localId, events, j);
    assert SweptWithin(events, t + NODE_TIMEOUT, period);
    var i :| 0 <= i < |events| && SweepIn(events[i], t + NODE_TIMEOUT, t + NODE_TIMEOUT + period);
    assert k < i;
  }
}
