/** The nodes of src/sync/sync.c:8-103 together, and when no two of them hold the lock. */
module LamportProtocol {
  import opened LamportMutexes
  import opened LogicalClocks

  datatype Message = Message(from: nat, to: nat, stamp: int)

  /**
   `requests` and `replies` are in flight; a reply (p, q) goes to p from q. `answered[p]` remembers whose replies the
   current request of p has counted. A postponed request is dropped: the code never answers it later.
   */
  datatype State = State(nodes: seq<Mutex>, requests: set<Message>, replies: set<(nat, nat)>, answered: seq<set<nat>>)

  datatype Action =
    | DoRequest(p: nat, stamp: int)
    | DoHandle(m: Message)
    | DoDeliver(p: nat, q: nat)
    | DoEnter(p: nat)
    | DoRelease(p: nat)

  function Initial(n: nat): State {
    State(seq(n, i => Mutex(i, 0, false, false, 0)), {}, {}, seq(n, _ => {}))
  }

  function Below(n: nat): (r: set<nat>)
    ensures |r| == n
    ensures forall q: nat :: q in r <==> q < n
  {
    if n == 0 then {} else Below(n - 1) + {n - 1}
  }

  function Others(n: nat, p: nat): set<nat> {
    Below(n) - {p}
  }

  lemma OthersCount(n: nat, p: nat)
    requires p < n
    ensures |Others(n, p)| == n - 1
  {
  }

  predicate Enabled(s: State, a: Action) {
    var n := |s.nodes|;
    match a
    case DoRequest(p, _) => p < n && !s.nodes[p].requesting
    case DoHandle(m) => m in s.requests && m.to < n
    case DoDeliver(p, q) => (p, q) in s.replies && p < n
    case DoEnter(p) => p < n && MayEnter(s.nodes[p], n)
    case DoRelease(p) => p < n && s.nodes[p].granted
  }

  function Next(s: State, a: Action): State
    requires |s.answered| == |s.nodes| && Enabled(s, a)
  {
    match a
    case DoRequest(p, stamp) =>
      State(s.nodes[p := Request(s.nodes[p], stamp)],
            s.requests + set q | q in Others(|s.nodes|, p) :: Message(p, q, stamp),
            s.replies,
            s.answered[p := {}])
    case DoHandle(m) =>
      var t := s.(requests := s.requests - {m});
      if Grants(s.nodes[m.to], m.from, m.stamp) then t.(replies := t.replies + {(m.from, m.to)}) else t
    case DoDeliver(p, q) =>
      State(s.nodes[p := CountReply(s.nodes[p])],
            s.requests,
            s.replies - {(p, q)},
            s.answered[p := s.answered[p] + {q}])
    case DoEnter(p) => s.(nodes := s.nodes[p := Enter(s.nodes[p])])
    case DoRelease(p) => s.(nodes := s.nodes[p := Release(s.nodes[p])])
  }

  /** A run, for any stamps on the requests. */
  ghost predicate Run(run: seq<State>, acts: seq<Action>) {
    && |run| == |acts| + 1
    && forall i | 0 <= i < |acts| ::
         |run[i].answered| == |run[i].nodes| && Enabled(run[i], acts[i]) && run[i + 1] == Next(run[i], acts[i])
  }

  /** q's current request has p's consent, counted or on its way. */
  predicate HasGranted(s: State, p: nat, q: nat)
    requires q < |s.nodes| == |s.answered|
  {
    s.nodes[q].requesting && (p in s.answered[q] || (q, p) in s.replies)
  }

  predicate Before(m: Mutex, m': Mutex) {
    Earlier(m.timestamp, m.nodeId, m'.timestamp, m'.nodeId)
  }

  /**
   A request that p makes now with this stamp comes after every request that it has granted and that is still open.
   */
  ghost predicate Later(s: State, p: nat, stamp: int)
    requires p < |s.nodes| == |s.answered|
  {
    forall q | 0 <= q < |s.nodes| && q != p && HasGranted(s, p, q) :: Before(s.nodes[q], Request(s.nodes[p], stamp))
  }

  // ----- the invariant -----

  ghost predicate Mail(s: State)
    requires |s.answered| == |s.nodes|
  {
    var n := |s.nodes|;
    && (forall m | m in s.requests ::
          && m.from < n && m.to in Others(n, m.from) && s.nodes[m.from].requesting
          && m.stamp == s.nodes[m.from].timestamp
          && m.to !in s.answered[m.from] && (m.from, m.to) !in s.replies)
    && (forall r | r in s.replies ::
          r.0 < n && r.1 in Others(n, r.0) && s.nodes[r.0].requesting && r.1 !in s.answered[r.0])
  }

  ghost predicate Local(s: State, p: nat)
    requires p < |s.nodes| == |s.answered|
  {
    var n, m := |s.nodes|, s.nodes[p];
    && m.nodeId == p
    && s.answered[p] <= Others(n, p)
    && (m.requesting ==> m.replies == |s.answered[p]|)
    && (m.granted ==> m.requesting && s.answered[p] == Others(n, p))
  }

  ghost predicate Ordered(s: State, p: nat, q: nat)
    requires p < |s.nodes| == |s.answered| && q < |s.nodes|
  {
    HasGranted(s, q, p) && s.nodes[q].requesting ==> Before(s.nodes[p], s.nodes[q])
  }

  /** What every run keeps, whatever the stamps. */
  ghost predicate Sane(s: State) {
    |s.answered| == |s.nodes| && Mail(s) && forall p | 0 <= p < |s.nodes| :: Local(s, p)
  }

  ghost predicate Inv(s: State) {
    Sane(s) && forall p, q | 0 <= p < |s.nodes| && 0 <= q < |s.nodes| :: Ordered(s, p, q)
  }

  lemma FullSubset(a: set<nat>, b: set<nat>)
    requires a <= b && |a| >= |b|
    ensures a == b
  {
    assert |b - a| == |b| - |a|;
  }

  lemma {:induction false} NextKeepsMail(s: State, a: Action)
    requires Sane(s) && Enabled(s, a)
    ensures Mail(Next(s, a))
  {
    var n, s' := |s.nodes|, Next(s, a);
    forall m | m in s'.requests
      ensures m.from < n && m.to in Others(n, m.from) && s'.nodes[m.from].requesting
      ensures m.stamp == s'.nodes[m.from].timestamp
      ensures m.to !in s'.answered[m.from] && (m.from, m.to) !in s'.replies
    {
      if m.from < n { assert Local(s, m.from); }
    }
    forall r | r in s'.replies
      ensures r.0 < n && r.1 in Others(n, r.0) && s'.nodes[r.0].requesting && r.1 !in s'.answered[r.0]
    {
      if r.0 < n { assert Local(s, r.0); }
    }
  }

  lemma {:induction false} NextKeepsLocal(s: State, a: Action, p: nat)
    requires Sane(s) && Enabled(s, a) && p < |s.nodes|
    ensures Local(Next(s, a), p)
  {
    hide Grants, Others;
    assert Local(s, p);
    if a == DoEnter(p) {
      OthersCount(|s.nodes|, p);
      FullSubset(s.answered[p], Others(|s.nodes|, p));
    }
  }

  lemma {:induction false} NextKeepsSane(s: State, a: Action)
    requires Sane(s) && Enabled(s, a)
    ensures Sane(Next(s, a))
  {
    hide Mail, Local;
    NextKeepsMail(s, a);
    forall p | 0 <= p < |s.nodes| ensures Local(Next(s, a), p) {
      NextKeepsLocal(s, a, p);
    }
  }

  lemma {:induction false} NextKeepsOrdered(s: State, a: Action, p: nat, q: nat)
    requires Inv(s) && Enabled(s, a) && p < |s.nodes| && q < |s.nodes|
    requires a.DoRequest? ==> Later(s, a.p, a.stamp)
    ensures |Next(s, a).answered| == |Next(s, a).nodes| && Ordered(Next(s, a), p, q)
  {
    assert Local(s, p) && Local(s, q) && Ordered(s, p, q);
  }

  lemma {:induction false} NextKeepsInv(s: State, a: Action)
    requires Inv(s) && Enabled(s, a) && (a.DoRequest? ==> Later(s, a.p, a.stamp))
    ensures Inv(Next(s, a))
  {
    hide Mail, Local, Ordered;
    NextKeepsSane(s, a);
    forall p, q | 0 <= p < |s.nodes| && 0 <= q < |s.nodes| ensures Ordered(Next(s, a), p, q) {
      NextKeepsOrdered(s, a, p, q);
    }
  }

  ghost predicate LaterUpTo(run: seq<State>, acts: seq<Action>, i: nat)
    requires Run(run, acts) && i <= |acts|
  {
    forall k | 0 <= k < i && acts[k].DoRequest? :: Later(run[k], acts[k].p, acts[k].stamp)
  }

  lemma {:induction false} RunHolds(n: nat, run: seq<State>, acts: seq<Action>, i: nat)
    requires Run(run, acts) && run[0] == Initial(n) && i < |run| && LaterUpTo(run, acts, i)
    ensures Inv(run[i])
  {
    hide Next, Later;
    if i > 0 {
      RunHolds(n, run, acts, i - 1);
      NextKeepsInv(run[i - 1], acts[i - 1]);
    }
  }

  lemma {:induction false} HoldersExclude(s: State)
    requires Inv(s)
    ensures Exclusive(s)
  {
    forall p, q | 0 <= p < |s.nodes| && 0 <= q < |s.nodes| && s.nodes[p].granted && s.nodes[q].granted
      ensures p == q
    {
      assert Local(s, p) && Local(s, q) && Ordered(s, p, q) && Ordered(s, q, p);
    }
  }

  ghost predicate Exclusive(s: State) {
    forall p, q | 0 <= p < |s.nodes| && 0 <= q < |s.nodes| && s.nodes[p].granted && s.nodes[q].granted :: p == q
  }

  // ----- what a node can see to: stamps above all it has granted -----

  /** Step j of the run is p's consent to a request. */
  ghost predicate Consents(run: seq<State>, acts: seq<Action>, j: nat, p: nat)
    requires Run(run, acts) && j < |acts|
  {
    acts[j].DoHandle? && acts[j].m.to == p && Grants(run[j].nodes[p], acts[j].m.from, acts[j].m.stamp)
  }

  /** Every request carries a stamp above all that its node has consented to. */
  ghost predicate StampsClimb(run: seq<State>, acts: seq<Action>)
    requires Run(run, acts)
  {
    forall j, k | 0 <= j < k < |acts| && acts[k].DoRequest? && Consents(run, acts, j, acts[k].p) ::
      acts[j].m.stamp < acts[k].stamp
  }

  /** Whoever has p's consent got it at some step, for the stamp its request still carries. */
  lemma {:induction false} ConsentWasGiven(n: nat, run: seq<State>, acts: seq<Action>, i: nat, p: nat, q: nat)
    returns (j: nat)
    requires Run(run, acts) && run[0] == Initial(n) && i < |run| && LaterUpTo(run, acts, i)
    requires p < |run[i].nodes| && q < |run[i].nodes| == |run[i].answered| && HasGranted(run[i], p, q)
    ensures j < i && Consents(run, acts, j, p)
    ensures acts[j].m.from == q && acts[j].m.stamp == run[i].nodes[q].timestamp
  {
    hide Later, Ordered, Others, Below;
    var s, a := run[i - 1], acts[i - 1];
    RunHolds(n, run, acts, i - 1);
    assert run[i] == Next(s, a) && Local(s, q);
    if HasGranted(s, p, q) {
      j := ConsentWasGiven(n, run, acts, i - 1, p, q);
    } else {
      j := i - 1;
    }
  }

  lemma {:induction false} ClimbingIsLater(n: nat, run: seq<State>, acts: seq<Action>, i: nat)
    requires Run(run, acts) && run[0] == Initial(n) && i <= |acts| && StampsClimb(run, acts)
    ensures LaterUpTo(run, acts, i)
  {
    if i > 0 {
      ClimbingIsLater(n, run, acts, i - 1);
      var s, a := run[i - 1], acts[i - 1];
      if a.DoRequest? {
        forall q | 0 <= q < |s.nodes| && q != a.p && HasGranted(s, a.p, q)
          ensures Before(s.nodes[q], Request(s.nodes[a.p], a.stamp))
        {
          var j := ConsentWasGiven(n, run, acts, i - 1, a.p, q);
        }
      }
    }
  }

  /** With stamps that climb, never two nodes hold the lock. */
  lemma {:induction false} MutualExclusion(n: nat, run: seq<State>, acts: seq<Action>, i: nat)
    requires Run(run, acts) && run[0] == Initial(n) && i < |run| && StampsClimb(run, acts)
    ensures Exclusive(run[i])
  {
    ClimbingIsLater(n, run, acts, |acts|);
    RunHolds(n, run, acts, i);
    HoldersExclude(run[i]);
  }

  // ----- what update_clock supplies -----

  /**
   p's logical clock: increment_clock stamps its requests, update_clock takes in the stamp of each request it handles.
   */
  function ClockAt(acts: seq<Action>, k: nat, p: nat): int
    requires k <= |acts|
  {
    if k == 0 then 0
    else
      var c := ClockAt(acts, k - 1, p);
      match acts[k - 1]
      case DoRequest(q, _) => if q == p then Tick(c) else c
      case DoHandle(m) => if m.to == p then Merge(c, m.stamp) else c
      case _ => c
  }

  ghost predicate Clocked(acts: seq<Action>) {
    forall k | 0 <= k < |acts| && acts[k].DoRequest? :: acts[k].stamp == Tick(ClockAt(acts, k, acts[k].p))
  }

  lemma {:induction false} ClockPassesHandled(acts: seq<Action>, j: nat, k: nat)
    requires j < k <= |acts| && acts[j].DoHandle?
    ensures acts[j].m.stamp < ClockAt(acts, k, acts[j].m.to)
  {
    if j < k - 1 {
      ClockPassesHandled(acts, j, k - 1);
    }
  }

  /** When requests carry logical clock stamps the lock excludes on every run of any number of nodes. */
  lemma {:induction false} ClockedExclusion(n: nat, run: seq<State>, acts: seq<Action>, i: nat)
    requires Run(run, acts) && run[0] == Initial(n) && i < |run| && Clocked(acts)
    ensures StampsClimb(run, acts) && Exclusive(run[i])
  {
    forall j, k | 0 <= j < k < |acts| && acts[k].DoRequest? && Consents(run, acts, j, acts[k].p)
      ensures acts[j].m.stamp < acts[k].stamp
    {
      ClockPassesHandled(acts, j, k);
    }
    MutualExclusion(n, run, acts, i);
  }
}
