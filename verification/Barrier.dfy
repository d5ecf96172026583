/**
 The reusable barrier of src/sync/sync.c:117-158. Waiting on the condition variable gives the mutex up, so a call of
 wait_at_barrier is two kinds of atomic step: the arrival, and a check of the generation after each wake-up.
 */
module Barriers {
  import opened Tally

  datatype Barrier = Barrier(total: int, arrived: int, generation: int)

  function Fresh(total: int): Barrier {
    Barrier(total, 0, 0)
  }

  /** The last of `total` arrivals opens the next generation. */
  function Arrive(b: Barrier): Barrier {
    if b.arrived + 1 == b.total then b.(arrived := 0, generation := b.generation + 1)
    else b.(arrived := b.arrived + 1)
  }

  predicate Completes(b: Barrier) {
    b.arrived + 1 == b.total
  }

  /** The loop test: the generation in which a participant arrived is over. */
  predicate Leaves(b: Barrier, mine: int) {
    b.generation != mine
  }

  class DistributedBarrier {
    const totalNodes: int
    var arrivedCount: int
    var generation: int

    ghost function View(): Barrier
      reads this
    {
      Barrier(totalNodes, arrivedCount, generation)
    }

    constructor (totalNodes: int)
      ensures View() == Fresh(totalNodes)
    {
      this.totalNodes, arrivedCount, generation := totalNodes, 0, 0;
    }

    /** wait_at_barrier up to its first wait; `released` says that there is none. */
    method ArriveAtBarrier() returns (myGeneration: int, released: bool)
      modifies this
      ensures View() == Arrive(old(View())) && myGeneration == old(generation)
      ensures released == Completes(old(View()))
    {
      myGeneration := generation;
      arrivedCount := arrivedCount + 1;
      released := arrivedCount == totalNodes;
      if released {
        generation := generation + 1;
        arrivedCount := 0;
      }
    }

    /** The loop test of wait_at_barrier, after a wake-up. */
    method MayLeave(myGeneration: int) returns (b: bool)
      ensures b == Leaves(View(), myGeneration)
    {
      b := generation != myGeneration;
    }
  }

  // ----- participants -----

  datatype Place = Outside | Asleep(mine: int) | Woken(mine: int)

  /** `rounds` counts the calls of wait_at_barrier that have returned. */
  datatype Participant = Participant(place: Place, rounds: nat)

  datatype State = State(b: Barrier, people: seq<Participant>)

  ghost predicate Init(s: State, total: nat) {
    && s.b == Fresh(total)
    && forall p | 0 <= p < |s.people| :: s.people[p] == Participant(Outside, 0)
  }

  function WakeUp(q: Participant): Participant {
    if q.place.Asleep? then q.(place := Woken(q.place.mine)) else q
  }

  function Broadcast(people: seq<Participant>): (r: seq<Participant>)
    ensures |r| == |people|
    ensures forall i | 0 <= i < |people| :: r[i] == WakeUp(people[i])
  {
    seq(|people|, i requires 0 <= i < |people| => WakeUp(people[i]))
  }

  function Return(q: Participant): Participant {
    Participant(Outside, q.rounds + 1)
  }

  /** Participant p moves. A sleeper may wake for no reason. */
  ghost predicate Step(s: State, s': State, p: nat) {
    p < |s.people| &&
    var q := s.people[p];
    match q.place
    case Outside =>
      if Completes(s.b) then s' == State(Arrive(s.b), Broadcast(s.people)[p := Return(q)])
      else s' == State(Arrive(s.b), s.people[p := q.(place := Asleep(s.b.generation))])
    case Asleep(g) => s' == s.(people := s.people[p := WakeUp(q)])
    case Woken(g) =>
      s' == s.(people := s.people[p := if Leaves(s.b, g) then Return(q) else q.(place := Asleep(g))])
  }

  ghost predicate Moves(s: State, s': State) {
    exists p: nat :: Step(s, s', p)
  }

  /** A run of some number of participants at a barrier made for `total`. */
  ghost predicate Run(run: seq<State>, total: nat) {
    && run != [] && Init(run[0], total)
    && forall i | 0 <= i < |run| - 1 :: Moves(run[i], run[i + 1])
  }

  // ----- the invariant -----

  function Waits(g: int): Participant -> nat {
    (q: Participant) => if !q.place.Outside? && q.place.mine == g then 1 else 0
  }

  /** How often q has arrived: once for each round it completed, and once more while it waits. */
  function Arrivals(q: Participant): nat {
    q.rounds + if q.place.Outside? then 0 else 1
  }

  predicate InStep(q: Participant, g: int) {
    match q.place
    case Outside => q.rounds == g
    case Asleep(mine) => mine == g == q.rounds
    case Woken(mine) => mine == q.rounds && g - 1 <= mine <= g
  }

  ghost predicate Inv(s: State) {
    && s.b.total == |s.people| && 0 <= s.b.arrived < s.b.total
    && s.b.arrived == Total(s.people, Waits(s.b.generation))
    && forall p | 0 <= p < |s.people| :: InStep(s.people[p], s.b.generation)
  }

  lemma {:induction false} InitHolds(s: State, total: nat)
    requires Init(s, total) && total == |s.people| > 0
    ensures Inv(s)
  {
    TotalOfSame(s.people, Participant(Outside, 0), Waits(0));
  }

  /** The last arrival: all the others were waiting, and now all are released. */
  lemma {:induction false} ReleaseKeepsInv(s: State, p: nat)
    requires Inv(s) && p < |s.people| && s.people[p].place.Outside? && Completes(s.b)
    ensures Inv(State(Arrive(s.b), Broadcast(s.people)[p := Return(s.people[p])]))
  {
    var g, people := s.b.generation, Broadcast(s.people)[p := Return(s.people[p])];
    AllOthers(s.people, p, Waits(g));
    forall i | 0 <= i < |people| ensures InStep(people[i], g + 1) && Waits(g + 1)(people[i]) == 0 {
      assert InStep(s.people[i], g);
      assert i != p ==> Waits(g)(s.people[i]) == 1;
    }
    TotalZero(people, Waits(g + 1));
  }

  lemma {:induction false} StepKeepsInv(s: State, s': State, p: nat)
    requires Inv(s) && Step(s, s', p)
    ensures Inv(s')
  {
    if s.people[p].place.Outside? && Completes(s.b) {
      ReleaseKeepsInv(s, p);
    } else {
      SoloStepKeepsInv(s, s', p);
    }
  }

  /** Any other step moves one participant, and counts him if he arrives. */
  lemma {:induction false} SoloStepKeepsInv(s: State, s': State, p: nat)
    requires Inv(s) && Step(s, s', p) && !(s.people[p].place.Outside? && Completes(s.b))
    ensures Inv(s')
  {
    hide Total, Broadcast;
    var q := s'.people[p];
    assert InStep(s.people[p], s.b.generation);
    assert s'.people == s.people[p := q];
    TotalUpdate(s.people, p, q, Waits(s.b.generation));
  }

  lemma {:induction false} RunHolds(run: seq<State>, total: nat, i: nat)
    requires Run(run, total) && total == |run[0].people| > 0 && i < |run|
    ensures Inv(run[i])
  {
    hide Inv;
    if i == 0 {
      InitHolds(run[0], total);
    } else {
      RunHolds(run, total, i - 1);
      assert Moves(run[i - 1], run[i - 1 + 1]);
      var p: nat :| Step(run[i - 1], run[i], p);
      StepKeepsInv(run[i - 1], run[i], p);
    }
  }

  /**
   Nobody has completed a round that somebody has not arrived at, completed rounds differ by at most one, nobody whose
   round is complete is left asleep, and somebody is awake.
   */
  ghost predicate Sound(s: State) {
    && (forall p, q | 0 <= p < |s.people| && 0 <= q < |s.people| ::
          s.people[p].rounds <= Arrivals(s.people[q]) && s.people[p].rounds <= s.people[q].rounds + 1)
    && (forall p | 0 <= p < |s.people| && s.people[p].place.Asleep? :: s.people[p].rounds == s.b.generation)
    && exists p :: 0 <= p < |s.people| && !s.people[p].place.Asleep?
  }

  lemma {:induction false} BarrierRounds(run: seq<State>, total: nat, i: nat)
    requires Run(run, total) && total == |run[0].people| > 0 && i < |run|
    ensures Sound(run[i])
    ensures run[i].b.arrived == Total(run[i].people, Waits(run[i].b.generation)) < total
  {
    RunHolds(run, total, i);
    RunHolds(run, total, 0);
    SameTotal(run, total, i);
    var s := run[i];
    if forall p | 0 <= p < |s.people| :: s.people[p].place.Asleep? {
      AllCounted(s.people, Waits(s.b.generation));
      assert false;
    }
  }

  /** The loop test lets a participant go exactly when everybody has arrived at the round that it waits for. */
  lemma {:induction false} LeavesIffAllArrived(run: seq<State>, total: nat, i: nat, p: nat)
    requires Run(run, total) && total == |run[0].people| > 0 && i < |run|
    requires p < |run[i].people| && !run[i].people[p].place.Outside?
    ensures var q := run[i].people[p];
            Leaves(run[i].b, q.place.mine) <==>
            forall o | 0 <= o < |run[i].people| :: Arrivals(run[i].people[o]) > q.rounds
  {
    RunHolds(run, total, i);
    var s := run[i];
    assert InStep(s.people[p], s.b.generation);
    if !Leaves(s.b, s.people[p].place.mine) {
      var o := SomeOutside(s);
      assert InStep(s.people[o], s.b.generation);
    }
  }

  lemma {:induction false} SomeOutside(s: State) returns (o: nat)
    requires Inv(s)
    ensures o < |s.people| && !(!s.people[o].place.Outside? && s.people[o].place.mine == s.b.generation)
  {
    if forall o | 0 <= o < |s.people| :: !s.people[o].place.Outside? && s.people[o].place.mine == s.b.generation {
      AllCounted(s.people, Waits(s.b.generation));
      assert false;
    }
    o :| 0 <= o < |s.people| && !(!s.people[o].place.Outside? && s.people[o].place.mine == s.b.generation);
  }

  lemma {:induction false} SameTotal(run: seq<State>, total: nat, i: nat)
    requires Run(run, total) && i < |run|
    ensures run[i].b.total == total && |run[i].people| == |run[0].people|
  {
    if i > 0 {
      SameTotal(run, total, i - 1);
      assert Moves(run[i - 1], run[i - 1 + 1]);
    }
  }

  // ----- any other number of participants -----

  /** The first k of n participants have arrived and sleep. */
  function Arrived(n: nat, total: nat, k: nat): State {
    State(Barrier(total, k, 0), seq(n, i => Participant(if i < k then Asleep(0) else Outside, 0)))
  }

  lemma {:induction false} ArrivalsInTurn(n: nat, total: nat, k: nat) returns (run: seq<State>)
    requires k <= n && k < total
    ensures Run(run, total) && run[|run| - 1] == Arrived(n, total, k) && |run[0].people| == n
  {
    run := seq(k + 1, (i: nat) => Arrived(n, total, i));
    forall i | 0 <= i < |run| - 1 ensures Moves(run[i], run[i + 1]) {
      assert run[i + 1].people == run[i].people[i := Participant(Asleep(0), 0)];
      assert Step(run[i], run[i + 1], i);
    }
  }

  lemma {:induction false} TooManyBreaksRounds(n: nat, total: nat) returns (run: seq<State>)
    requires 0 < total < n
    ensures Run(run, total) && |run[0].people| == n && !Sound(run[|run| - 1])
  {
    run := ArrivalsInTurn(n, total, total - 1);
    var s, p := run[|run| - 1], total - 1;
    var s' := State(Arrive(s.b), Broadcast(s.people)[p := Return(s.people[p])]);
    assert Step(s, s', p) && Moves(s, s');
    assert s'.people[p].rounds == 1 && Arrivals(s'.people[n - 1]) == 0;
    run := run + [s'];
  }

  /** The barrier is sound on every run exactly when total_nodes is the number of participants. */
  lemma {:induction false} SoundIffExact(n: nat, total: nat)
    requires n > 0 && total > 0
    ensures (forall run: seq<State>, i: nat | Run(run, total) && |run[0].people| == n && i < |run| :: Sound(run[i]))
       <==> n == total
  {
    if n == total {
      forall run: seq<State>, i: nat | Run(run, total) && |run[0].people| == n && i < |run| ensures Sound(run[i]) {
        BarrierRounds(run, total, i);
      }
    } else if n < total {
      var run := ArrivalsInTurn(n, total, n);
      SameTotal(run, total, |run| - 1);
      assert !Sound(run[|run| - 1]);
    } else {
      var run := TooManyBreaksRounds(n, total);
      assert !Sound(run[|run| - 1]);
    }
  }
}
