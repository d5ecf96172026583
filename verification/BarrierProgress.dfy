/** What the steps of the barrier of src/sync/sync.c:133-158 come to, and that every round can be finished. */
module BarrierProgress {
  import opened Barriers
  import opened Tally

  ghost predicate AllArrived(s: State, round: int) {
    forall o | 0 <= o < |s.people| :: Arrivals(s.people[o]) > round
  }

  /** A woken participant returns exactly if everybody has arrived at its round, and goes back to sleep otherwise. */
  lemma {:induction false} WokenReturnsIff(s: State, s': State, p: nat)
    requires Inv(s) && Step(s, s', p) && s.people[p].place.Woken?
    ensures var q := s.people[p];
            && s'.b == s.b
            && s'.people == s.people[p := if AllArrived(s, q.rounds) then Participant(Outside, q.rounds + 1)
                                          else Participant(Asleep(q.place.mine), q.rounds)]
  {
    assert InStep(s.people[p], s.b.generation);
    if !Leaves(s.b, s.people[p].place.mine) {
      var o := SomeOutside(s);
      assert InStep(s.people[o], s.b.generation);
    }
  }

  /** Nobody else has yet to arrive at the round of p. */
  ghost predicate OthersArrived(s: State, p: nat)
    requires p < |s.people|
  {
    forall o | 0 <= o < |s.people| && o != p :: Arrivals(s.people[o]) > s.people[p].rounds
  }

  /** The last to arrive returns at once and wakes all sleepers; any other goes to sleep and changes nobody else. */
  lemma {:induction false} LastArrivalReleases(s: State, s': State, p: nat)
    requires Inv(s) && Step(s, s', p) && s.people[p].place.Outside?
    ensures var q := s.people[p];
            s'.people == if OthersArrived(s, p) then Broadcast(s.people)[p := Participant(Outside, q.rounds + 1)]
                         else s.people[p := Participant(Asleep(s.b.generation), q.rounds)]
  {
    var g := s.b.generation;
    assert InStep(s.people[p], g);
    if Completes(s.b) {
      AllOthers(s.people, p, Waits(g));
      forall o | 0 <= o < |s.people| && o != p ensures Arrivals(s.people[o]) > s.people[p].rounds {
        assert Waits(g)(s.people[o]) == 1 && InStep(s.people[o], g);
      }
    } else {
      var o := SomeOtherOutside(s, p);
      assert InStep(s.people[o], g);
    }
  }

  lemma {:induction false} SomeOtherOutside(s: State, p: nat) returns (o: nat)
    requires Inv(s) && p < |s.people| && s.people[p].place.Outside? && !Completes(s.b)
    ensures o < |s.people| && o != p && Waits(s.b.generation)(s.people[o]) == 0
  {
    var g := s.b.generation;
    if forall o | 0 <= o < |s.people| && o != p :: Waits(g)(s.people[o]) == 1 {
      var q := Participant(Asleep(g), 0);
      TotalUpdate(s.people, p, q, Waits(g));
      var all := s.people[p := q];
      forall o | 0 <= o < |all| ensures Waits(g)(all[o]) == 1 {
      }
      AllCounted(all, Waits(g));
      assert false;
    }
    o :| 0 <= o < |s.people| && o != p && Waits(g)(s.people[o]) == 0;
  }

  ghost predicate Leads(s: State, s': State, n: nat)
    decreases n
  {
    if n == 0 then s == s' else exists m :: Moves(s, m) && Leads(m, s', n - 1)
  }

  /** How far a participant is from waiting in generation g. */
  function ToGo(g: int): Participant -> nat {
    (q: Participant) => if q.place.Outside? then 1 else if q.place.mine != g then 2 else 0
  }

  lemma {:induction false} LeadOn(s: State, m: State, s': State, n: nat, o: nat)
    requires Step(s, m, o) && Leads(m, s', n)
    ensures Leads(s, s', n + 1)
  {
    assert Moves(s, m);
  }

  /** Participant p, if it may leave, returns. */
  lemma {:induction false} ReturnNow(s: State, p: nat) returns (s': State)
    requires p < |s.people| && s.people[p].place.Woken? && Leaves(s.b, s.people[p].place.mine)
    ensures Step(s, s', p) && s'.people == s.people[p := Return(s.people[p])] && s'.b == s.b
    ensures Leads(s, s', 1)
  {
    s' := s.(people := s.people[p := Return(s.people[p])]);
    assert Leads(s', s', 0);
    LeadOn(s, s', s', 0, p);
  }

  /** As long as p has not finished its round, somebody can bring it nearer. */
  lemma {:induction false} FinishRound(s: State, p: nat) returns (s': State, n: nat)
    requires Inv(s) && p < |s.people|
    ensures Leads(s, s', n) && |s'.people| == |s.people| && s'.people[p].rounds == s.people[p].rounds + 1
    decreases Total(s.people, ToGo(s.b.generation))
  {
    hide Leads, Total, Inv;
    var g := s.b.generation;
    Placed(s, p);
    if s.people[p].place.Woken? && s.people[p].place.mine != g {
      s' := ReturnNow(s, p);
      n := 1;
    } else {
      var o := p;
      if !s.people[p].place.Outside? {
        o := SomeOutside(s);
      }
      Placed(s, o);
      var m: State;
      if s.people[o].place.Outside? && Completes(s.b) {
        m := State(Arrive(s.b), Broadcast(s.people)[o := Return(s.people[o])]);
        if o == p {
          s' := m;
          LeadsNowhere(m);
          n := 0;
        } else {
          s' := ReturnWoken(s, m, p);
          n := 1;
        }
      } else {
        m := if s.people[o].place.Outside? then
               State(Arrive(s.b), s.people[o := s.people[o].(place := Asleep(g))])
             else s.(people := s.people[o := Return(s.people[o])]);
        StepKeepsInv(s, m, o);
        TotalUpdate(s.people, o, m.people[o], ToGo(g));
        s', n := FinishRound(m, p);
      }
      LeadOn(s, m, s', n, o);
      n := n + 1;
    }
  }

  lemma LeadsNowhere(s: State)
    ensures Leads(s, s, 0)
  {
  }

  lemma Placed(s: State, p: nat)
    requires Inv(s) && p < |s.people|
    ensures InStep(s.people[p], s.b.generation)
  {
  }

  lemma {:induction false} ReturnWoken(s: State, m: State, p: nat) returns (s': State)
    requires p < |s.people| == |m.people| && m.people[p] == WakeUp(s.people[p]) && m.b == Arrive(s.b)
    requires !s.people[p].place.Outside? && s.people[p].place.mine == s.b.generation && Completes(s.b)
    ensures Leads(m, s', 1) && |s'.people| == |s.people| && s'.people[p].rounds == s.people[p].rounds + 1
  {
    s' := ReturnNow(m, p);
  }

  /** With the exact number of participants, every participant can always finish its next round. */
  lemma {:induction false} EveryRoundCanFinish(run: seq<State>, total: nat, i: nat, p: nat)
    requires Run(run, total) && total == |run[0].people| > 0 && i < |run| && p < |run[i].people|
    ensures exists s', n ::
              Leads(run[i], s', n) && p < |s'.people| && s'.people[p].rounds == run[i].people[p].rounds + 1
  {
    hide Leads, Inv;
    RunHolds(run, total, i);
    var s', n := FinishRound(run[i], p);
  }
}
