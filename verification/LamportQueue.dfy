/** Exactly who gets in beside a node that keeps the lock, when all others come and go as they like. */
module LamportQueue {
  import opened LamportEntry
  import opened LamportMutexes
  import opened LamportProtocol

  /** What x refuses to p it will grant once it has released: p's request has not yet reached it. */
  ghost predicate Undelivered(s: State, x: nat, p: nat)
    requires p < |s.nodes|
  {
    s.nodes[p].requesting ==> Message(p, x, s.nodes[p].timestamp) in s.requests
  }

  /** e holds the lock, or everybody else consents to its request or has had its turn before. */
  ghost predicate MayFollow(s: State, done: seq<nat>, e: nat)
    requires e < |s.nodes| == |s.answered|
  {
    Holds(s, e) ||
    forall x: nat | x < |s.nodes| && x != e :: Consenting(s, x, e) || (x in done && Undelivered(s, x, e))
  }

  /** An order in which these nodes, none of them q, can have the lock one after the other. */
  ghost predicate Queue(s: State, q: nat, line: seq<nat>)
    requires |s.nodes| == |s.answered|
  {
    && (forall i | 0 <= i < |line| :: line[i] < |s.nodes| && line[i] != q && line[i] !in line[..i])
    && forall i | 0 <= i < |line| :: MayFollow(s, line[..i], line[i])
  }

  // ----- a queue can be served -----

  /** The nodes in `done` have had the lock and given it up, all others are as they were. */
  ghost predicate Served(s: State, t: State, done: seq<nat>) {
    && Sane(t) && |t.answered| == |t.nodes| == |s.nodes| == |s.answered|
    && (forall r: nat | r < |s.nodes| && r in done :: !t.nodes[r].requesting && !t.nodes[r].granted)
    && (forall r: nat | r < |s.nodes| && r !in done :: t.nodes[r] == s.nodes[r] && t.answered[r] == s.answered[r])
    && (forall m: Message | m.from !in done :: m in t.requests <==> m in s.requests)
    && (forall r: nat, q: nat | r !in done :: (r, q) in t.replies <==> (r, q) in s.replies)
  }

  lemma {:induction false} NextInQueue(s: State, t: State, done: seq<nat>, e: nat)
    requires Served(s, t, done) && e < |s.nodes| && e !in done && MayFollow(s, done, e) && !Holds(s, e)
    ensures AllConsent(t, e)
  {
    hide Sane;
    forall x | 0 <= x < |t.nodes| && x != e ensures Consenting(t, x, e) {
      assert Consenting(s, x, e) || (x in done && Undelivered(s, x, e));
    }
  }

  /** e has the lock and gives it up. */
  lemma {:induction false} ServeOne(t: State, e: nat) returns (run: seq<State>, acts: seq<Action>)
    requires Sane(t) && e < |t.nodes| == |t.answered| && (Holds(t, e) || AllConsent(t, e))
    ensures RunFrom(t, run, acts) && (forall i | 0 <= i < |acts| && acts[i].DoRelease? :: acts[i] == DoRelease(e))
    ensures var u := run[|acts|];
            Sane(u) && Elsewhere(t, u, e) && !u.nodes[e].requesting && !u.nodes[e].granted
    decreases !Holds(t, e)
  {
    hide Run, OwnStamps, Sane, Consenting;
    if Holds(t, e) {
      run, acts := [t, Next(t, DoRelease(e))], [DoRelease(e)];
      OneAct(t, DoRelease(e));
      NextKeepsSane(t, DoRelease(e));
    } else {
      run, acts := GoIn(t, e);
      var run', acts' := ServeOne(run[|acts|], e);
      JoinRuns(run, acts, run', acts');
      run, acts := run + run'[1..], acts + acts';
    }
  }

  lemma {:induction false} Serve(s: State, q: nat, line: seq<nat>) returns (run: seq<State>, acts: seq<Action>)
    requires Sane(s) && |s.nodes| == |s.answered| && Queue(s, q, line)
    ensures RunFrom(s, run, acts) && Keeps(acts, q) && Served(s, run[|acts|], line)
  {
    hide Run, OwnStamps, Sane, Consenting, MayFollow;
    if line == [] {
      run, acts := [s], [];
      Stay(s);
    } else {
      var n := |line| - 1;
      ShorterQueue(s, q, line);
      run, acts := Serve(s, q, line[..n]);
      var t, e := run[|acts|], line[n];
      if !Holds(s, e) {
        NextInQueue(s, t, line[..n], e);
      }
      var run', acts' := ServeOne(t, e);
      assert line == line[..n] + [e];
      ServedOneMore(s, t, run'[|acts'|], line[..n], e);
      JoinRuns(run, acts, run', acts');
      run, acts := run + run'[1..], acts + acts';
    }
  }

  lemma ShorterQueue(s: State, q: nat, line: seq<nat>)
    requires |s.nodes| == |s.answered| && Queue(s, q, line) && line != []
    ensures Queue(s, q, line[..|line| - 1])
  {
    hide MayFollow;
    var front := line[..|line| - 1];
    forall i | 0 <= i < |front|
      ensures front[i] < |s.nodes| && front[i] != q && front[i] !in front[..i] && MayFollow(s, front[..i], front[i])
    {
      assert front[..i] == line[..i] && front[i] == line[i];
    }
  }

  lemma ServedOneMore(s: State, t: State, u: State, done: seq<nat>, e: nat)
    requires Served(s, t, done) && e < |s.nodes|
    requires Sane(u) && Elsewhere(t, u, e) && !u.nodes[e].requesting && !u.nodes[e].granted
    ensures Served(s, u, done + [e])
  {
    hide Sane;
  }

  // ----- every run serves a queue -----

  /** A request that x has dropped unanswered keeps its node out for good. */
  lemma {:induction false} Dropped(s: State, p: nat, x: nat, run: seq<State>, acts: seq<Action>)
    requires Sane(s) && p < |s.nodes| == |s.answered| && x < |s.nodes| && x != p
    requires !Undelivered(s, x, p) && !HasGranted(s, x, p) && RunFrom(s, run, acts)
    ensures var t := run[|acts|];
            Sane(t) && |t.nodes| == |t.answered| == |s.nodes| && !Undelivered(t, x, p) && !HasGranted(t, x, p)
    ensures !Holds(run[|acts|], p)
  {
    hide Sane, OwnStamps;
    var k := |acts| - 1;
    if k >= 0 {
      PrefixRun(s, run, acts);
      Dropped(s, p, x, run[..k + 1], acts[..k]);
      NextKeepsSane(run[k], acts[k]);
      DroppedStep(run[k], acts[k], p, x);
    }
    if Holds(run[|acts|], p) {
      HolderHasGrants(run[|acts|], p, x);
    }
  }

  /** A request that is postponed is dropped: no reply is sent, and its node never gets in any more. */
  lemma {:induction false} PostponedForGood(s: State, m: Message, run: seq<State>, acts: seq<Action>)
    requires Sane(s) && |s.nodes| == |s.answered| && Enabled(s, DoHandle(m)) && !Grants(s.nodes[m.to], m.from, m.stamp)
    requires RunFrom(Next(s, DoHandle(m)), run, acts)
    ensures run[0].requests == s.requests - {m} && run[0].replies == s.replies && run[0].nodes == s.nodes
    ensures m.from < |run[|acts|].nodes| && !Holds(run[|acts|], m.from)
  {
    hide Sane, Run, OwnStamps;
    var t := Next(s, DoHandle(m));
    NextKeepsSane(s, DoHandle(m));
    RequestIsOpen(s, m);
    Dropped(t, m.from, m.to, run, acts);
  }

  lemma RequestIsOpen(s: State, m: Message)
    requires Sane(s) && |s.nodes| == |s.answered| && m in s.requests
    ensures m.from < |s.nodes| && m.to < |s.nodes| && m.to != m.from
    ensures s.nodes[m.from].requesting && m.stamp == s.nodes[m.from].timestamp && !HasGranted(s, m.to, m.from)
  {
  }

  lemma HolderHasGrants(s: State, p: nat, r: nat)
    requires Sane(s) && p < |s.nodes| == |s.answered| && r < |s.nodes| && r != p && s.nodes[p].granted
    ensures HasGranted(s, r, p)
  {
    assert Local(s, p) && r in Others(|s.nodes|, p);
  }

  lemma {:induction false} DroppedStep(s: State, a: Action, p: nat, x: nat)
    requires Sane(s) && p < |s.nodes| == |s.answered| && x < |s.nodes| && x != p && Enabled(s, a)
    requires !Undelivered(s, x, p) && !HasGranted(s, x, p)
    ensures var t := Next(s, a);
            |t.nodes| == |t.answered| == |s.nodes| && !Undelivered(t, x, p) && !HasGranted(t, x, p)
  {
    assert Local(s, p);
    if a == DoRelease(p) {
      HolderHasGrants(s, p, x);
    }
  }

  /** Whoever newly enters has found everybody consenting, or released since. */
  lemma {:induction false} EntrantFollows(s: State, q: nat, line: seq<nat>, e: nat, run: seq<State>, acts: seq<Action>)
    requires Sane(s) && e < |s.nodes| == |s.answered| && !Holds(s, e)
    requires RunFrom(s, run, acts) && Keeps(acts, q) && Holds(run[|acts|], e)
    requires forall i | 0 <= i < |acts| && acts[i].DoRelease? :: acts[i].p in line
    ensures MayFollow(s, line, e)
  {
    hide Sane, Run, OwnStamps;
    forall x: nat | x < |s.nodes| && x != e && !Consenting(s, x, e) ensures x in line && Undelivered(s, x, e) {
      if x !in line {
        assert Keeps(acts, x);
        Refused(s, e, x, run, acts);
      }
      if !Undelivered(s, x, e) {
        Dropped(s, e, x, run, acts);
      }
    }
  }

  lemma QueueOneMore(s: State, q: nat, line: seq<nat>, e: nat)
    requires |s.nodes| == |s.answered| && Queue(s, q, line) && e < |s.nodes| && e != q && e !in line
    requires MayFollow(s, line, e)
    ensures Queue(s, q, line + [e])
  {
    hide MayFollow;
    var l := line + [e];
    forall i | 0 <= i < |l| ensures l[i] < |s.nodes| && l[i] != q && l[i] !in l[..i] && MayFollow(s, l[..i], l[i]) {
      assert l[..i] == if i < |line| then line[..i] else line;
    }
  }

  /** The nodes that enter or release in a run, in the order in which they first do, are a queue. */
  lemma {:induction false} QueueOfRun(s: State, q: nat, run: seq<State>, acts: seq<Action>) returns (line: seq<nat>)
    requires Sane(s) && |s.nodes| == |s.answered| && RunFrom(s, run, acts) && Keeps(acts, q)
    ensures Queue(s, q, line)
    ensures forall i | 0 <= i < |acts| && acts[i].DoRelease? :: acts[i].p in line
    ensures |run[|acts|].nodes| == |s.nodes|
    ensures forall r: nat | Holds(run[|acts|], r) && r != q :: r in line || Holds(s, r)
  {
    hide Sane, OwnStamps, MayFollow, Queue;
    var k := |acts| - 1;
    if k < 0 {
      line := [];
      EmptyQueue(s, q);
    } else {
      PrefixRun(s, run, acts);
      line := QueueOfRun(s, q, run[..k + 1], acts[..k]);
      var a := acts[k];
      if a.DoRelease? && a.p !in line {
        HolderFollows(s, line, a.p);
        QueueOneMore(s, q, line, a.p);
        line := line + [a.p];
      } else if a.DoEnter? && a.p != q && a.p !in line && !Holds(s, a.p) {
        EntrantFollows(s, q, line, a.p, run, acts);
        QueueOneMore(s, q, line, a.p);
        line := line + [a.p];
      }
    }
  }

  lemma EmptyQueue(s: State, q: nat)
    requires |s.nodes| == |s.answered|
    ensures Queue(s, q, [])
  {
  }

  lemma HolderFollows(s: State, line: seq<nat>, e: nat)
    requires |s.nodes| == |s.answered| && Holds(s, e)
    ensures MayFollow(s, line, e)
  {
  }

  /**
   Beside a holder q that keeps the lock, while all others may come and go, p gets in exactly if it is in some queue:
   a condition on the requests and the mail of the present state alone.
   */
  lemma {:induction false} BesideIff(s: State, p: nat, q: nat)
    requires Sane(s) && p < |s.nodes| == |s.answered| && q != p && Holds(s, q) && !Holds(s, p)
    ensures (exists run, acts ::
               RunFrom(s, run, acts) && Keeps(acts, q) && Holds(run[|acts|], p) && Holds(run[|acts|], q))
       <==> (exists line :: Queue(s, q, line) && p in line)
  {
    hide Run, OwnStamps, Sane, MayFollow, Consenting;
    if run, acts :| RunFrom(s, run, acts) && Keeps(acts, q) && Holds(run[|acts|], p) && Holds(run[|acts|], q) {
      var line := QueueOfRun(s, q, run, acts);
      assert p in line;
    }
    if line :| Queue(s, q, line) && p in line {
      var run, acts := GoInAfter(s, p, q, line);
      HolderStays(s, q, run, acts);
    }
  }

  lemma {:induction false} GoInAfter(s: State, p: nat, q: nat, line: seq<nat>)
    returns (run: seq<State>, acts: seq<Action>)
    requires Sane(s) && p < |s.nodes| == |s.answered| && !Holds(s, p) && Queue(s, q, line) && p in line
    ensures RunFrom(s, run, acts) && Keeps(acts, q) && Holds(run[|acts|], p)
    decreases |line|
  {
    hide Run, OwnStamps, Sane, MayFollow, Consenting;
    var n := |line| - 1;
    ShorterQueue(s, q, line);
    if p in line[..n] {
      run, acts := GoInAfter(s, p, q, line[..n]);
    } else {
      run, acts := Serve(s, q, line[..n]);
      NextInQueue(s, run[|acts|], line[..n], p);
      var run', acts' := GoIn(run[|acts|], p);
      JoinRuns(run, acts, run', acts');
      run, acts := run + run'[1..], acts + acts';
    }
  }

  /** Node 2 holds; node 1 has an earlier request in flight; node 0's next one would come between the two. */
  function ThirdWaits(): State {
    State([Mutex(0, 1, false, false, 0), Mutex(1, 1, true, false, 0), Mutex(2, 3, true, true, 2)],
          {Message(1, 0, 1), Message(1, 2, 1)}, {}, [{}, {}, {0, 1}])
  }

  /** A release by a third node matters: node 0 gets in beside node 2 only once node 1 has had its turn. */
  lemma {:induction false} ThirdReleaseMatters()
    ensures var s := ThirdWaits();
            Sane(s) && Holds(s, 2) && !AllConsent(s, 0) && Queue(s, 2, [1, 0])
  {
    var s := ThirdWaits();
    assert Below(0) == {} && Below(1) == {0} && Below(2) == {0, 1} && Below(3) == {0, 1, 2};
    assert !Consenting(s, 1, 0);
    var line := [1, 0];
    assert line[..0] == [] && line[..1] == [1];
    assert MayFollow(s, [], 1) && MayFollow(s, [1], 0);
  }
}
