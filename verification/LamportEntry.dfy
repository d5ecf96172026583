/** Exactly when the stamps of src/sync/sync.c let a node in, and so a second holder beside the first. */
module LamportEntry {
  import opened LamportMutexes
  import opened LamportProtocol

  /** A request is stamped as acquire_distributed_lock stamps it. */
  predicate OwnStamp(s: State, a: Action) {
    a.DoRequest? ==> a.p < |s.nodes| && a.stamp == Begin(s.nodes[a.p]).timestamp
  }

  ghost predicate OwnStamps(run: seq<State>, acts: seq<Action>)
    requires Run(run, acts)
  {
    forall i | 0 <= i < |acts| :: OwnStamp(run[i], acts[i])
  }

  /** A run of the code from s. */
  ghost predicate RunFrom(s: State, run: seq<State>, acts: seq<Action>) {
    |run| == |acts| + 1 && Run(run, acts) && OwnStamps(run, acts) && run[0] == s
  }

  ghost predicate NoRelease(acts: seq<Action>) {
    forall i | 0 <= i < |acts| :: !acts[i].DoRelease?
  }

  /** Other nodes may release, q does not. */
  ghost predicate Keeps(acts: seq<Action>, q: nat) {
    forall i | 0 <= i < |acts| :: acts[i] != DoRelease(q)
  }

  ghost predicate Holds(s: State, p: nat) {
    p < |s.nodes| && s.nodes[p].granted
  }

  /**
   r has consented to p's request, or would consent as things stand, to the one in flight or to the one p would make.
   */
  ghost predicate Consenting(s: State, r: nat, p: nat)
    requires p < |s.nodes| == |s.answered| && r < |s.nodes|
  {
    var m := s.nodes[p];
    if m.requesting then
      HasGranted(s, r, p) || (Message(p, r, m.timestamp) in s.requests && Grants(s.nodes[r], p, m.timestamp))
    else Grants(s.nodes[r], p, m.timestamp + 1)
  }

  ghost predicate AllConsent(s: State, p: nat)
    requires p < |s.nodes| == |s.answered|
  {
    forall r | 0 <= r < |s.nodes| && r != p :: Consenting(s, r, p)
  }

  // ----- runs -----

  lemma Stay(s: State)
    ensures RunFrom(s, [s], [])
  {
  }

  lemma OneAct(s: State, a: Action)
    requires |s.answered| == |s.nodes| && Enabled(s, a) && OwnStamp(s, a)
    ensures RunFrom(s, [s, Next(s, a)], [a])
  {
  }

  lemma {:induction false} JoinRuns(run: seq<State>, acts: seq<Action>, run': seq<State>, acts': seq<Action>)
    requires |run| == |acts| + 1 && RunFrom(run[0], run, acts) && RunFrom(run[|acts|], run', acts')
    ensures RunFrom(run[0], run + run'[1..], acts + acts')
    ensures (run + run'[1..])[|acts + acts'|] == run'[|acts'|]
  {
    hide Next, Enabled, OwnStamp;
    var r, a := run + run'[1..], acts + acts';
    forall i | 0 <= i < |a|
      ensures |r[i].answered| == |r[i].nodes| && Enabled(r[i], a[i]) && r[i + 1] == Next(r[i], a[i])
      ensures OwnStamp(r[i], a[i])
    {
      if i >= |acts| {
        var j := i - |acts|;
        assert a[i] == acts'[j] && r[i] == run'[j] && r[i + 1] == run'[j + 1];
      } else {
        assert a[i] == acts[i] && r[i] == run[i] && r[i + 1] == run[i + 1];
      }
    }
  }

  lemma PrefixRun(s: State, run: seq<State>, acts: seq<Action>)
    requires RunFrom(s, run, acts) && acts != []
    ensures RunFrom(s, run[..|acts|], acts[..|acts| - 1])
  {
    hide Next, Enabled, OwnStamp;
  }

  // ----- getting in -----

  /** Only p's count of replies, and mail between p and others about its request, has changed; no consent was lost. */
  ghost predicate Gathered(s: State, t: State, p: nat)
    requires p < |s.nodes| == |s.answered|
  {
    && Sane(t) && Elsewhere(s, t, p) && |t.nodes| == |s.nodes|
    && t.nodes[p] == s.nodes[p].(replies := t.nodes[p].replies) && s.answered[p] <= t.answered[p]
    && forall r | 0 <= r < |s.nodes| && r != p && Consenting(s, r, p) :: Consenting(t, r, p)
  }

  /** Every other node is as it was, and so is the mail about its request. */
  ghost predicate Elsewhere(s: State, t: State, p: nat) {
    && |t.answered| == |t.nodes| == |s.nodes| == |s.answered|
    && (forall r | 0 <= r < |s.nodes| && r != p :: t.nodes[r] == s.nodes[r] && t.answered[r] == s.answered[r])
    && (forall m: Message | m.from != p :: m in t.requests <==> m in s.requests)
    && (forall r: nat, q: nat | r != p :: (r, q) in t.replies <==> (r, q) in s.replies)
  }

  /** Node r's answer reaches p, wherever it is on the way. */
  lemma {:induction false} AnswerOne(s: State, p: nat, r: nat) returns (run: seq<State>, acts: seq<Action>)
    requires Sane(s) && p < |s.nodes| == |s.answered| && r < |s.nodes| && r != p
    requires s.nodes[p].requesting && Consenting(s, r, p)
    ensures RunFrom(s, run, acts) && NoRelease(acts)
    ensures Gathered(s, run[|acts|], p) && r in run[|acts|].answered[p]
  {
    hide Run, OwnStamps, Sane, Mail, Local;
    var m := Message(p, r, s.nodes[p].timestamp);
    if r in s.answered[p] {
      run, acts := [s], [];
      Stay(s);
    } else if (p, r) in s.replies {
      run, acts := [s, Next(s, DoDeliver(p, r))], [DoDeliver(p, r)];
      OneAct(s, DoDeliver(p, r));
      NextKeepsSane(s, DoDeliver(p, r));
    } else {
      var t := Next(s, DoHandle(m));
      var u := Next(t, DoDeliver(p, r));
      OneAct(s, DoHandle(m));
      NextKeepsSane(s, DoHandle(m));
      OneAct(t, DoDeliver(p, r));
      NextKeepsSane(t, DoDeliver(p, r));
      JoinRuns([s, t], [DoHandle(m)], [t, u], [DoDeliver(p, r)]);
      run, acts := [s, t] + [t, u][1..], [DoHandle(m)] + [DoDeliver(p, r)];
    }
  }

  /** The answers of the nodes below k reach p, one after the other. */
  lemma {:induction false} Gather(s: State, p: nat, k: nat) returns (run: seq<State>, acts: seq<Action>)
    requires Sane(s) && p < |s.nodes| == |s.answered| && k <= |s.nodes| && s.nodes[p].requesting && AllConsent(s, p)
    ensures RunFrom(s, run, acts) && NoRelease(acts)
    ensures Gathered(s, run[|acts|], p) && forall r | 0 <= r < k && r != p :: r in run[|acts|].answered[p]
  {
    hide Run, OwnStamps, Consenting, Sane;
    if k == 0 {
      run, acts := [s], [];
      Stay(s);
    } else {
      run, acts := Gather(s, p, k - 1);
      if k - 1 != p {
        var run', acts' := AnswerOne(run[|acts|], p, k - 1);
        JoinRuns(run, acts, run', acts');
        run, acts := run + run'[1..], acts + acts';
      }
    }
  }

  lemma {:induction false} AllAnswered(s: State, p: nat)
    requires Sane(s) && p < |s.nodes| == |s.answered| && s.nodes[p].requesting && !s.nodes[p].granted
    requires forall r | 0 <= r < |s.nodes| && r != p :: r in s.answered[p]
    ensures MayEnter(s.nodes[p], |s.nodes|)
  {
    assert Local(s, p);
    OthersCount(|s.nodes|, p);
    assert s.answered[p] == Others(|s.nodes|, p);
  }

  /** Making the request leaves everybody consenting who would have consented. */
  lemma {:induction false} RequestKeepsConsent(s: State, p: nat)
    requires Sane(s) && p < |s.nodes| == |s.answered| && !s.nodes[p].requesting && AllConsent(s, p)
    ensures var t := Next(s, DoRequest(p, Begin(s.nodes[p]).timestamp)); AllConsent(t, p) && Elsewhere(s, t, p)
  {
    var t := Next(s, DoRequest(p, Begin(s.nodes[p]).timestamp));
    forall r | 0 <= r < |s.nodes| && r != p ensures Consenting(t, r, p) {
      assert Consenting(s, r, p) && r in Others(|s.nodes|, p);
    }
  }

  /** With everybody consenting p gets in, and nobody else changes. */
  lemma {:induction false} GoIn(s: State, p: nat) returns (run: seq<State>, acts: seq<Action>)
    requires Sane(s) && p < |s.nodes| == |s.answered| && !Holds(s, p) && AllConsent(s, p)
    ensures RunFrom(s, run, acts) && NoRelease(acts)
    ensures Sane(run[|acts|]) && Elsewhere(s, run[|acts|], p) && Holds(run[|acts|], p)
    ensures run[|acts|].nodes[p].timestamp ==
            if s.nodes[p].requesting then s.nodes[p].timestamp else s.nodes[p].timestamp + 1
    decreases !s.nodes[p].requesting
  {
    hide Run, OwnStamps, Consenting, Sane;
    if s.nodes[p].requesting {
      run, acts := Gather(s, p, |s.nodes|);
      var t := run[|acts|];
      AllAnswered(t, p);
      OneAct(t, DoEnter(p));
      NextKeepsSane(t, DoEnter(p));
      JoinRuns(run, acts, [t, Next(t, DoEnter(p))], [DoEnter(p)]);
      run, acts := run + [t, Next(t, DoEnter(p))][1..], acts + [DoEnter(p)];
    } else {
      var a := DoRequest(p, Begin(s.nodes[p]).timestamp);
      var t := Next(s, a);
      OneAct(s, a);
      NextKeepsSane(s, a);
      RequestKeepsConsent(s, p);
      var run', acts' := GoIn(t, p);
      JoinRuns([s, t], [a], run', acts');
      run, acts := [s, t] + run'[1..], [a] + acts';
    }
  }

  // ----- being kept out -----

  lemma HolderHasAll(s: State, p: nat, r: nat)
    requires Sane(s) && p < |s.nodes| == |s.answered| && r < |s.nodes| && r != p && s.nodes[p].granted
    ensures Consenting(s, r, p)
  {
    assert Local(s, p) && r in Others(|s.nodes|, p);
  }

  lemma {:induction false} RefusedStep(s: State, a: Action, p: nat, r: nat)
    requires Sane(s) && p < |s.nodes| == |s.answered| && r < |s.nodes| && r != p && !Consenting(s, r, p)
    requires Enabled(s, a) && a != DoRelease(r) && OwnStamp(s, a)
    ensures !Consenting(Next(s, a), r, p)
  {
    assert Local(s, r) && Local(s, p);
    if a == DoRelease(p) {
      HolderHasAll(s, p, r);
    }
  }

  /** As long as r does not release, a node whose request r will not consent to stays out, whatever the others do. */
  lemma {:induction false} Refused(s: State, p: nat, r: nat, run: seq<State>, acts: seq<Action>)
    requires Sane(s) && p < |s.nodes| == |s.answered| && r < |s.nodes| && r != p && !Consenting(s, r, p)
    requires RunFrom(s, run, acts) && Keeps(acts, r)
    ensures var t := run[|acts|]; Sane(t) && |t.nodes| == |s.nodes| && !Consenting(t, r, p) && !Holds(t, p)
  {
    hide Sane, Consenting;
    var k := |acts| - 1;
    if k >= 0 {
      PrefixRun(s, run, acts);
      Refused(s, p, r, run[..k + 1], acts[..k]);
      NextKeepsSane(run[k], acts[k]);
      RefusedStep(run[k], acts[k], p, r);
    }
    if Holds(run[|acts|], p) {
      HolderHasAll(run[|acts|], p, r);
    }
  }

  lemma {:induction false} HolderStays(s: State, q: nat, run: seq<State>, acts: seq<Action>)
    requires RunFrom(s, run, acts) && Keeps(acts, q) && Holds(s, q)
    ensures Holds(run[|acts|], q)
  {
    var k := |acts| - 1;
    if k >= 0 {
      PrefixRun(s, run, acts);
      HolderStays(s, q, run[..k + 1], acts[..k]);
    }
  }

  // ----- exactly when a node gets in -----

  /** As long as nobody releases, p can get in exactly if every other node is consenting. */
  lemma {:induction false} EntersIff(s: State, p: nat)
    requires Sane(s) && p < |s.nodes| == |s.answered| && !Holds(s, p)
    ensures (exists run, acts :: RunFrom(s, run, acts) && NoRelease(acts) && Holds(run[|acts|], p))
       <==> AllConsent(s, p)
  {
    hide Run, OwnStamps, Consenting, Sane;
    if AllConsent(s, p) {
      var run, acts := GoIn(s, p);
      assert Holds(run[|acts|], p);
    }
    if run, acts :| RunFrom(s, run, acts) && NoRelease(acts) && Holds(run[|acts|], p) {
      forall r | 0 <= r < |s.nodes| && r != p ensures Consenting(s, r, p) {
        if !Consenting(s, r, p) {
          Refused(s, p, r, run, acts);
        }
      }
    }
  }

  // ----- a second holder beside the first -----

  lemma {:induction false} ConsentsBefore(s: State, r: nat, p: nat)
    requires Sane(s) && p < |s.nodes| == |s.answered| && r < |s.nodes| && !s.nodes[p].requesting
    ensures Consenting(s, r, p) <==> !s.nodes[r].requesting || Before(Begin(s.nodes[p]), s.nodes[r])
  {
    assert Local(s, r) && Local(s, p);
  }

  /**
   As long as nobody releases, p gets in beside the holder q exactly if every other node is consenting; if p has made
   no request yet, exactly if its request would come before q's and every other open one: the branch of
   handle_lock_request that consents although the lock is held.
   */
  lemma {:induction false} SecondHolderIff(s: State, p: nat, q: nat)
    requires Sane(s) && p < |s.nodes| == |s.answered| && q != p && Holds(s, q) && !Holds(s, p)
    ensures (exists run, acts ::
               RunFrom(s, run, acts) && NoRelease(acts) && Holds(run[|acts|], p) && Holds(run[|acts|], q))
       <==> AllConsent(s, p)
    ensures !s.nodes[p].requesting ==>
              (AllConsent(s, p) <==>
               forall r | 0 <= r < |s.nodes| && r != p && s.nodes[r].requesting ::
                 Before(Begin(s.nodes[p]), s.nodes[r]))
  {
    hide Run, OwnStamps, Sane, Consenting, Earlier;
    EntersIff(s, p);
    if run, acts :| RunFrom(s, run, acts) && NoRelease(acts) && Holds(run[|acts|], p) {
      HolderStays(s, q, run, acts);
    }
    if !s.nodes[p].requesting {
      forall r | 0 <= r < |s.nodes| && r != p
        ensures Consenting(s, r, p) <==> !s.nodes[r].requesting || Before(Begin(s.nodes[p]), s.nodes[r])
      {
        ConsentsBefore(s, r, p);
      }
    }
  }

  /** Whatever the others do, p gets in beside a holder q that keeps the lock only with q's own consent. */
  lemma {:induction false} BesideHolder(s: State, p: nat, q: nat, run: seq<State>, acts: seq<Action>)
    requires Sane(s) && p < |s.nodes| == |s.answered| && q != p && Holds(s, q) && !Holds(s, p)
    requires RunFrom(s, run, acts) && Keeps(acts, q) && Holds(run[|acts|], p)
    ensures Holds(run[|acts|], q) && Consenting(s, q, p)
    ensures !s.nodes[p].requesting ==> Before(Begin(s.nodes[p]), s.nodes[q])
  {
    HolderStays(s, q, run, acts);
    if !Consenting(s, q, p) {
      Refused(s, p, q, run, acts);
    }
    assert Local(s, q) && Local(s, p);
  }

  /** From the start, nothing lost and no timeout: node 1 enters, then node 0's request ties with it and wins. */
  lemma {:induction false} TwoHolders(n: nat) returns (run: seq<State>, acts: seq<Action>)
    requires n >= 2
    ensures RunFrom(Initial(n), run, acts) && NoRelease(acts)
    ensures Holds(run[|acts|], 0) && Holds(run[|acts|], 1)
  {
    hide Run, OwnStamps;
    run, acts := GoIn(Initial(n), 1);
    assert Local(run[|acts|], 1);
    var run', acts' := GoIn(run[|acts|], 0);
    JoinRuns(run, acts, run', acts');
    run, acts := run + run'[1..], acts + acts';
  }

  /** As the code stamps its requests, the lock excludes on every run only when there is nobody to exclude. */
  lemma {:induction false} ExclusiveIffAlone(n: nat)
    ensures (forall run, acts, i | RunFrom(Initial(n), run, acts) && 0 <= i < |run| :: Exclusive(run[i])) <==> n < 2
  {
    if n >= 2 {
      var run, acts := TwoHolders(n);
      assert !Exclusive(run[|acts|]);
    } else {
      forall run, acts, i | RunFrom(Initial(n), run, acts) && 0 <= i < |run| ensures Exclusive(run[i]) {
        SizeStays(run, acts, i);
      }
    }
  }

  lemma {:induction false} SizeStays(run: seq<State>, acts: seq<Action>, i: nat)
    requires Run(run, acts) && i < |run|
    ensures |run[i].nodes| == |run[0].nodes|
  {
    if i > 0 {
      SizeStays(run, acts, i - 1);
    }
  }
}
