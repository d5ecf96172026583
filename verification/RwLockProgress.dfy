/**
 Nobody is ever locked out for good: from every reachable state of the lock of kernel_64bit.c:444-487, every waiting
 writer and every waiting reader can still get in, without relying on wake-ups that nobody sent.
 */
module RwLockProgress {
  import opened RwLock
  import opened Tally

  /** A step that is not an unsent wake-up. */
  ghost predicate Acts(s: State, s': State) {
    exists t: nat :: Step(s, s', t) && !s.threads[t].Asleep?
  }

  ghost predicate Path(path: seq<State>) {
    path != [] && forall i | 0 <= i < |path| - 1 :: Acts(path[i], path[i + 1])
  }

  ghost predicate Reaches(s: State, s': State) {
    exists path :: Path(path) && path[0] == s && path[|path| - 1] == s'
  }

  lemma ReachesItself(s: State)
    ensures Reaches(s, s)
  {
    assert Path([s]);
  }

  lemma {:induction false} OneStep(s: State, s': State, t: nat)
    requires Inv(s) && t < |s.threads| && Step(s, s', t) && !s.threads[t].Asleep?
    ensures Reaches(s, s') && Inv(s')
  {
    hide Step, Inv;
    StepKeepsInv(s, s', t);
    assert Acts(s, s');
    assert Path([s, s']);
  }

  lemma {:induction false} ReachesOn(s: State, m: State, s': State)
    requires Reaches(s, m) && Reaches(m, s')
    ensures Reaches(s, s')
  {
    hide Acts;
    var p :| Path(p) && p[0] == s && p[|p| - 1] == m;
    var q :| Path(q) && q[0] == m && q[|q| - 1] == s';
    var r := p + q[1..];
    forall i | 0 <= i < |r| - 1 ensures Acts(r[i], r[i + 1]) {
      if i >= |p| - 1 {
        var j := i - (|p| - 1);
        assert r[i] == q[j] && r[i + 1] == q[j + 1];
      } else {
        assert r[i] == p[i] && r[i + 1] == p[i + 1];
      }
    }
    assert Path(r);
  }

  lemma {:induction false} ThenStep(s: State, m: State, s': State, t: nat)
    requires Reaches(s, m) && Inv(m) && t < |m.threads| && Step(m, s', t) && !m.threads[t].Asleep?
    ensures Reaches(s, s') && Inv(s')
  {
    hide Step, Inv, Reaches;
    OneStep(m, s', t);
    ReachesOn(s, m, s');
  }

  // ----- writers -----

  /** Waits for the read lock. */
  predicate Wanting(p: Phase) {
    p.FirstCheck? || p.Announce? || p.SecondCheck? || p.Retreat? || p.Backoff?
  }

  /** Whoever waits for the read lock still does. */
  ghost predicate Spares(s: State, s': State) {
    |s'.threads| == |s.threads| && forall u | 0 <= u < |s.threads| && Wanting(s.threads[u]) :: Wanting(s'.threads[u])
  }

  ghost predicate SleepersSleep(s: State, s': State) {
    |s'.threads| == |s.threads| && forall u | 0 <= u < |s.threads| && s.threads[u].Asleep? :: s'.threads[u].Asleep?
  }

  /** The holder, if there is one, stores 0. */
  lemma {:induction false} FreeLock(s: State) returns (s': State)
    requires Inv(s)
    ensures Reaches(s, s') && Inv(s') && s'.lock == 0 && s'.writers == s.writers && |s'.threads| == |s.threads|
    ensures forall u | 0 <= u < |s.threads| && !s.threads[u].Writing? :: s'.threads[u] == s.threads[u]
  {
    hide Reaches, Total;
    if s.lock == 0 {
      s' := s;
      ReachesItself(s);
    } else {
      var h := SomePart(s.threads, writingWeight);
      s' := Goto(s, h, FutexWake).(lock := 0);
      OneStep(s, s', h);
    }
  }

  lemma {:induction false} GrabLock(s: State, t: nat) returns (s': State)
    requires Inv(s) && t < |s.threads| && (s.threads[t].Exchange? || s.threads[t].FutexWait?)
    ensures Reaches(s, s') && Inv(s') && s'.writers == s.writers && Spares(s, s') && SleepersSleep(s, s')
    ensures s'.threads[t].Writing?
  {
    hide Reaches, Inv;
    s' := FreeLock(s);
    if s'.threads[t].FutexWait? {
      var m := s';
      s' := Goto(m, t, Exchange);
      ThenStep(s, m, s', t);
    }
    var m := s';
    s' := Goto(m, t, Writing).(lock := 1);
    ThenStep(s, m, s', t);
  }

  /** Readers past their first check leave; as writers is positive none of them gets in. */
  lemma {:induction false} LetReadersLeave(s: State) returns (s': State)
    requires Inv(s) && s.writers > 0
    ensures Reaches(s, s') && Inv(s') && s'.readers == 0 && s'.writers == s.writers
    ensures Spares(s, s') && SleepersSleep(s, s')
    ensures forall u | 0 <= u < |s.threads| && readerRank(s.threads[u]) == 0 :: s'.threads[u] == s.threads[u]
    decreases DrainMeasure(s)
  {
    hide Reaches, Inv, Total, Step;
    if u: nat :| u < |s.threads| && readerRank(s.threads[u]) > 0 {
      var m := ReaderMove(s, u);
      OneStep(s, m, u);
      DrainStep(s, m, u);
      s' := LetReadersLeave(m);
      ReachesOn(s, m, s');
    } else {
      s' := s;
      ReachesItself(s);
      TotalZero(s.threads, readerRank);
      RankCoversReaders(s);
      ReadersCounted(s);
    }
  }

  lemma ReadersCounted(s: State)
    requires Inv(s)
    ensures s.readers >= 0
  {
  }

  /** The one step that a reader past its first check can take. */
  lemma {:induction false} ReaderMove(s: State, u: nat) returns (m: State)
    requires u < |s.threads| && readerRank(s.threads[u]) > 0 && s.writers > 0
    ensures Step(s, m, u) && m.writers == s.writers && m.threads == s.threads[u := m.threads[u]]
    ensures !m.threads[u].Asleep? && (Wanting(s.threads[u]) ==> Wanting(m.threads[u]))
  {
    match s.threads[u] {
      case Announce => m := Goto(s, u, SecondCheck).(readers := s.readers + 1);
      case SecondCheck => m := Goto(s, u, Retreat);
      case Retreat => m := Goto(s, u, Backoff).(readers := s.readers - 1);
      case Reading => m := Goto(s, u, Idle).(readers := s.readers - 1);
    }
  }

  /** An awake writer, wherever it is on its way, gets the lock. */
  lemma {:induction false} TakeLock(s: State, t: nat) returns (s': State)
    requires Inv(s) && t < |s.threads|
    requires s.threads[t].Register? || s.threads[t].Drain? || s.threads[t].Exchange? || s.threads[t].FutexWait?
    ensures Reaches(s, s') && Inv(s') && Spares(s, s') && SleepersSleep(s, s') && s'.threads[t].Writing?
    ensures s'.writers == s.writers + if s.threads[t].Register? then 1 else 0
    decreases s.threads[t].Register?, s.threads[t].Drain?
  {
    hide Reaches, Inv;
    var m: State;
    if s.threads[t].Register? {
      m := Goto(s, t, Drain).(writers := s.writers + 1);
      OneStep(s, m, t);
      s' := TakeLock(m, t);
      ReachesOn(s, m, s');
    } else if s.threads[t].Drain? {
      DrainerCounts(s, t);
      m := LetReadersLeave(s);
      var n := Goto(m, t, Exchange);
      ThenStep(s, m, n, t);
      s' := TakeLock(n, t);
      ReachesOn(s, n, s');
    } else {
      s' := GrabLock(s, t);
    }
  }

  lemma DrainerCounts(s: State, t: nat)
    requires Inv(s) && t < |s.threads| && s.threads[t].Drain?
    ensures s.writers > 0
  {
    PartCounts(s, t);
  }

  /** A sleeper is woken: somebody awake gets the lock, gives it back and wakes it. */
  lemma {:induction false} WakeSleeper(s: State, t: nat) returns (s': State)
    requires Inv(s) && t < |s.threads| && s.threads[t].Asleep?
    ensures Reaches(s, s') && Inv(s') && s'.writers == s.writers && Spares(s, s') && s'.threads[t].Exchange?
  {
    hide Reaches, Inv;
    var h := SomeAwake(s, t);
    s' := s;
    ReachesItself(s);
    if s.threads[h].Exchange? || s.threads[h].FutexWait? {
      s' := GrabLock(s, h);
    }
    var m := s';
    if m.threads[h].Writing? {
      s' := Goto(m, h, FutexWake).(lock := 0);
      ThenStep(s, m, s', h);
    }
    m := s';
    s' := Goto(Goto(m, t, Exchange), h, Deregister);
    ThenStep(s, m, s', h);
  }

  lemma SomeAwake(s: State, t: nat) returns (h: nat)
    requires Inv(s) && t < |s.threads| && s.threads[t].Asleep?
    ensures h < |s.threads| && h != t && Awake(s.threads[h])
  {
    h :| 0 <= h < |s.threads| && Awake(s.threads[h]);
  }

  /** Wants the write lock. */
  predicate WantsToWrite(p: Phase) {
    p.Register? || p.Drain? || p.Exchange? || p.FutexWait? || p.Asleep?
  }

  lemma {:induction false} GetWriteLock(s: State, t: nat) returns (s': State)
    requires Inv(s) && t < |s.threads| && WantsToWrite(s.threads[t])
    ensures Reaches(s, s') && Inv(s') && Spares(s, s') && s'.threads[t].Writing?
    ensures s'.writers == s.writers + if s.threads[t].Register? then 1 else 0
  {
    hide Reaches, Inv;
    if s.threads[t].Asleep? {
      var m := WakeSleeper(s, t);
      s' := TakeLock(m, t);
      ReachesOn(s, m, s');
    } else {
      s' := TakeLock(s, t);
    }
  }

  /** From every reachable state a thread that wants the write lock can get it. */
  lemma {:induction false} WriterCanEnter(run: seq<State>, i: nat, t: nat)
    requires Run(run) && i < |run| && t < |run[i].threads| && WantsToWrite(run[i].threads[t])
    ensures exists s' :: Reaches(run[i], s') && |s'.threads| == |run[i].threads| && s'.threads[t].Writing?
  {
    hide Run, Reaches;
    RunHolds(run, i);
    var s' := GetWriteLock(run[i], t);
  }

  // ----- readers -----

  /** A registered writer finishes. */
  lemma {:induction false} FinishWriting(s: State, t: nat) returns (s': State)
    requires Inv(s) && t < |s.threads| && CountsAsWriter(s.threads[t])
    ensures Reaches(s, s') && Inv(s') && Spares(s, s') && s'.writers == s.writers - 1
  {
    hide Reaches, Inv;
    s' := s;
    ReachesItself(s);
    if WantsToWrite(s.threads[t]) {
      s' := GetWriteLock(s, t);
    }
    var m := s';
    s' := LeaveLock(m, t);
    ReachesOn(s, m, s');
  }

  /** The holder gives the lock up, wakes a sleeper if there is one, and deregisters. */
  lemma {:induction false} LeaveLock(s: State, t: nat) returns (s': State)
    requires Inv(s) && t < |s.threads|
    requires s.threads[t].Writing? || s.threads[t].FutexWake? || s.threads[t].Deregister?
    ensures Reaches(s, s') && Inv(s') && Spares(s, s') && s'.writers == s.writers - 1 && s'.threads[t].Idle?
    decreases s.threads[t].Writing?, s.threads[t].FutexWake?
  {
    hide Reaches, Inv;
    if s.threads[t].Deregister? {
      s' := Goto(s, t, Idle).(writers := s.writers - 1);
      OneStep(s, s', t);
    } else {
      var m := if s.threads[t].Writing? then Goto(s, t, FutexWake).(lock := 0) else WakeOne(s, t);
      OneStep(s, m, t);
      s' := LeaveLock(m, t);
      ReachesOn(s, m, s');
    }
  }

  /** The futex wakes some sleeper if there is one. */
  ghost function WakeOne(s: State, t: nat): (m: State)
    requires t < |s.threads| && s.threads[t].FutexWake?
    ensures Step(s, m, t) && m.writers == s.writers && Spares(s, m) && m.threads[t].Deregister?
  {
    if exists u | 0 <= u < |s.threads| :: s.threads[u].Asleep? then
      var u :| 0 <= u < |s.threads| && s.threads[u].Asleep?;
      Goto(Goto(s, u, Exchange), t, Deregister)
    else Goto(s, t, Deregister)
  }

  lemma {:induction false} LetWritersFinish(s: State) returns (s': State)
    requires Inv(s)
    ensures Reaches(s, s') && Inv(s') && Spares(s, s') && s'.writers == 0
    decreases s.writers
  {
    hide Reaches, Inv;
    if s.writers == 0 {
      s' := s;
      ReachesItself(s);
    } else {
      var t := SomeWriter(s);
      var m := FinishWriting(s, t);
      s' := LetWritersFinish(m);
      ReachesOn(s, m, s');
    }
  }

  lemma SomeWriter(s: State) returns (t: nat)
    requires Inv(s) && s.writers != 0
    ensures s.writers > 0 && t < |s.threads| && CountsAsWriter(s.threads[t])
  {
    t := SomePart(s.threads, writerWeight);
  }

  lemma {:induction false} GetReadLock(s: State, t: nat) returns (s': State)
    requires Inv(s) && t < |s.threads| && Wanting(s.threads[t]) && s.writers == 0
    ensures Reaches(s, s') && |s'.threads| == |s.threads| && s'.threads[t].Reading?
  {
    hide Reaches, Inv;
    s' := s;
    ReachesItself(s);
    var m := s';
    if m.threads[t].Retreat? {
      s' := Goto(m, t, Backoff).(readers := m.readers - 1);
      ThenStep(s, m, s', t);
    }
    m := s';
    if m.threads[t].Backoff? {
      s' := Goto(m, t, FirstCheck);
      ThenStep(s, m, s', t);
    }
    m := s';
    if m.threads[t].FirstCheck? {
      s' := Goto(m, t, Announce);
      ThenStep(s, m, s', t);
    }
    m := s';
    if m.threads[t].Announce? {
      s' := Goto(m, t, SecondCheck).(readers := m.readers + 1);
      ThenStep(s, m, s', t);
    }
    m := s';
    s' := Goto(m, t, Reading);
    ThenStep(s, m, s', t);
  }

  /** From every reachable state a thread that waits for the read lock can get it. */
  lemma {:induction false} ReaderCanEnter(run: seq<State>, i: nat, t: nat)
    requires Run(run) && i < |run| && t < |run[i].threads| && Wanting(run[i].threads[t])
    ensures exists s' :: Reaches(run[i], s') && |s'.threads| == |run[i].threads| && s'.threads[t].Reading?
  {
    hide Run, Reaches, Inv;
    RunHolds(run, i);
    var m := LetWritersFinish(run[i]);
    var s' := GetReadLock(m, t);
    ReachesOn(run[i], m, s');
  }

  /** A thread that holds nothing and waits for nothing can get either lock. */
  lemma {:induction false} IdleCanEnter(run: seq<State>, i: nat, t: nat)
    requires Run(run) && i < |run| && t < |run[i].threads| && run[i].threads[t].Idle?
    ensures exists s' :: Reaches(run[i], s') && |s'.threads| == |run[i].threads| && s'.threads[t].Reading?
    ensures exists s' :: Reaches(run[i], s') && |s'.threads| == |run[i].threads| && s'.threads[t].Writing?
  {
    hide Run, Reaches, Inv;
    RunHolds(run, i);
    var r, w := Goto(run[i], t, FirstCheck), Goto(run[i], t, Register);
    OneStep(run[i], r, t);
    var m := LetWritersFinish(r);
    var reading := GetReadLock(m, t);
    ReachesOn(r, m, reading);
    ReachesOn(run[i], r, reading);
    OneStep(run[i], w, t);
    var writing := GetWriteLock(w, t);
    ReachesOn(run[i], w, writing);
  }

  /** A reader and a writer that hold their lock can give it up. */
  lemma {:induction false} HolderCanLeave(run: seq<State>, i: nat, t: nat)
    requires Run(run) && i < |run| && t < |run[i].threads|
    requires run[i].threads[t].Reading? || run[i].threads[t].Writing?
    ensures exists s' :: Reaches(run[i], s') && |s'.threads| == |run[i].threads| && s'.threads[t].Idle?
  {
    hide Run, Reaches, Inv;
    RunHolds(run, i);
    if run[i].threads[t].Reading? {
      var s' := Goto(run[i], t, Idle).(readers := run[i].readers - 1);
      OneStep(run[i], s', t);
    } else {
      var s' := LeaveLock(run[i], t);
    }
  }
}
