/**
 The reader/writer lock of kernel_64bit.c:444-487, one atomic operation a step, any number of threads.
 A thread's phase says which operation it performs next.
 */
module RwLock {
  import opened Tally

  datatype Phase =
    | Idle
    // acquire_read_lock_64 and release_read_lock_64
    | FirstCheck    // load writers
    | Announce      // add 1 to readers
    | SecondCheck   // load writers again
    | Retreat       // subtract 1 from readers
    | Backoff       // sleep, then try again
    | Reading       // holds the read lock; release subtracts 1 from readers
    // acquire_write_lock_64 and release_write_lock_64
    | Register      // add 1 to writers
    | Drain         // load readers until it is 0
    | Exchange      // swap 1 into lock
    | FutexWait     // ask the kernel to sleep while lock is 1
    | Asleep
    | Writing       // holds the write lock; release stores 0
    | FutexWake     // wake at most one sleeper
    | Deregister    // subtract 1 from writers

  datatype State = State(readers: int, writers: int, lock: int, threads: seq<Phase>)

  predicate Init(s: State) {
    s.readers == 0 && s.writers == 0 && s.lock == 0 && forall t | 0 <= t < |s.threads| :: s.threads[t].Idle?
  }

  function Goto(s: State, t: nat, p: Phase): State
    requires t < |s.threads|
  {
    s.(threads := s.threads[t := p])
  }

  /** Thread t performs its next operation and s becomes s'. */
  ghost predicate Step(s: State, s': State, t: nat) {
    t < |s.threads| &&
    match s.threads[t]
    case Idle => s' == Goto(s, t, FirstCheck) || s' == Goto(s, t, Register)
    case FirstCheck => s' == Goto(s, t, if s.writers == 0 then Announce else Backoff)
    case Announce => s' == Goto(s, t, SecondCheck).(readers := s.readers + 1)
    case SecondCheck => s' == Goto(s, t, if s.writers == 0 then Reading else Retreat)
    case Retreat => s' == Goto(s, t, Backoff).(readers := s.readers - 1)
    case Backoff => s' == Goto(s, t, FirstCheck)
    case Reading => s' == Goto(s, t, Idle).(readers := s.readers - 1)
    case Register => s' == Goto(s, t, Drain).(writers := s.writers + 1)
    case Drain => s' == Goto(s, t, if s.readers > 0 then Drain else Exchange)
    case Exchange => s' == Goto(s, t, if s.lock == 1 then FutexWait else Writing).(lock := 1)
    case FutexWait => s' == Goto(s, t, if s.lock == 1 then Asleep else Exchange)
    case Asleep => s' == Goto(s, t, Exchange)    // a wake-up nobody sent
    case Writing => s' == Goto(s, t, FutexWake).(lock := 0)
    case FutexWake =>
      if exists u | 0 <= u < |s.threads| :: s.threads[u].Asleep?
      then exists u | 0 <= u < |s.threads| && s.threads[u].Asleep? :: s' == Goto(Goto(s, u, Exchange), t, Deregister)
      else s' == Goto(s, t, Deregister)
    case Deregister => s' == Goto(s, t, Idle).(writers := s.writers - 1)
  }

  /** A run from the initial state: run[i + 1] follows run[i] by one step of some thread. */
  ghost predicate Run(run: seq<State>) {
    && run != [] && Init(run[0])
    && forall i | 0 <= i < |run| - 1 :: Moves(run[i], run[i + 1])
  }

  ghost predicate Moves(s: State, s': State) {
    exists t: nat :: Step(s, s', t)
  }

  // ----- the invariant -----

  predicate CountsAsReader(p: Phase) {
    p.SecondCheck? || p.Retreat? || p.Reading?
  }

  predicate PastDrain(p: Phase) {
    p.Exchange? || p.FutexWait? || p.Asleep? || p.Writing? || p.FutexWake? || p.Deregister?
  }

  predicate CountsAsWriter(p: Phase) {
    p.Drain? || PastDrain(p)
  }

  const readerWeight: Phase -> nat := (p: Phase) => if CountsAsReader(p) then 1 else 0
  const writerWeight: Phase -> nat := (p: Phase) => if CountsAsWriter(p) then 1 else 0
  const writingWeight: Phase -> nat := (p: Phase) => if p.Writing? then 1 else 0

  /** The counters count exactly the threads in the matching phases, and the lock word counts its holder. */
  ghost predicate Counters(s: State) {
    && s.readers == Total(s.threads, readerWeight)
    && s.writers == Total(s.threads, writerWeight)
    && s.lock == Total(s.threads, writingWeight) && s.lock <= 1
  }

  /** Once a writer has seen the readers drained, nobody reads. */
  ghost predicate Exclusion(s: State) {
    forall t, u | 0 <= t < |s.threads| && 0 <= u < |s.threads| && PastDrain(s.threads[t]) :: !s.threads[u].Reading?
  }

  /** Whoever will take the lock, or wake a sleeper, without being woken itself. */
  predicate Awake(p: Phase) {
    p.Exchange? || p.FutexWait? || p.Writing? || p.FutexWake?
  }

  ghost predicate NoLostWakeUp(s: State) {
    (exists t | 0 <= t < |s.threads| :: s.threads[t].Asleep?) ==>
      (exists t | 0 <= t < |s.threads| :: Awake(s.threads[t]))
  }

  ghost predicate Inv(s: State) {
    Counters(s) && Exclusion(s) && NoLostWakeUp(s)
  }

  lemma {:induction false} GotoCounts(s: State, t: nat, p: Phase)
    requires t < |s.threads|
    ensures Total(Goto(s, t, p).threads, readerWeight)
         == Total(s.threads, readerWeight) - readerWeight(s.threads[t]) + readerWeight(p)
    ensures Total(Goto(s, t, p).threads, writerWeight)
         == Total(s.threads, writerWeight) - writerWeight(s.threads[t]) + writerWeight(p)
    ensures Total(Goto(s, t, p).threads, writingWeight)
         == Total(s.threads, writingWeight) - writingWeight(s.threads[t]) + writingWeight(p)
    ensures readerWeight(s.threads[t]) <= Total(s.threads, readerWeight)
    ensures writerWeight(s.threads[t]) <= Total(s.threads, writerWeight)
    ensures writingWeight(s.threads[t]) <= Total(s.threads, writingWeight)
  {
    TotalUpdate(s.threads, t, p, readerWeight);
    TotalUpdate(s.threads, t, p, writerWeight);
    TotalUpdate(s.threads, t, p, writingWeight);
  }

  lemma {:induction false} InitHolds(s: State)
    requires Init(s)
    ensures Inv(s)
  {
    TotalOfSame(s.threads, Idle, readerWeight);
    TotalOfSame(s.threads, Idle, writerWeight);
    TotalOfSame(s.threads, Idle, writingWeight);
  }

  predicate Moved(s: State, s': State, t: nat) {
    && t < |s.threads| == |s'.threads|
    && s'.threads == s.threads[t := s'.threads[t]]
    && s'.readers - s.readers == readerWeight(s'.threads[t]) - readerWeight(s.threads[t])
    && s'.writers - s.writers == writerWeight(s'.threads[t]) - writerWeight(s.threads[t])
    && s'.lock - s.lock == writingWeight(s'.threads[t]) - writingWeight(s.threads[t])
    && s'.lock <= 1
  }

  predicate OnWriterSide(p: Phase) {
    p.Register? || CountsAsWriter(p)
  }

  /** Apart from a futex wake, a step moves one thread and changes the counters by the weights it gains and loses. */
  lemma {:induction false} StepDeltas(s: State, s': State, t: nat)
    requires t < |s.threads| && Step(s, s', t) && !s.threads[t].FutexWake? && 0 <= s.lock <= 1
    requires s.threads[t].Writing? ==> s.lock == 1
    ensures Moved(s, s', t)
  {
    hide Step;
    if OnWriterSide(s.threads[t]) {
      WriterDeltas(s, s', t);
    } else {
      ReaderDeltas(s, s', t);
    }
  }

  lemma {:induction false} ReaderDeltas(s: State, s': State, t: nat)
    requires t < |s.threads| && Step(s, s', t) && !OnWriterSide(s.threads[t]) && 0 <= s.lock <= 1
    ensures Moved(s, s', t)
  {
  }

  lemma {:induction false} WriterDeltas(s: State, s': State, t: nat)
    requires t < |s.threads| && Step(s, s', t) && OnWriterSide(s.threads[t]) && !s.threads[t].FutexWake?
    requires 0 <= s.lock <= 1 && (s.threads[t].Writing? ==> s.lock == 1)
    ensures Moved(s, s', t)
  {
  }

  /** A wake-up moves two threads between phases of the same weights. */
  lemma {:induction false} WakeKeepsCounters(s: State, s': State, t: nat)
    requires Counters(s) && Step(s, s', t) && s.threads[t].FutexWake?
    ensures Counters(s')
  {
    hide Total;
    if u: nat :| u < |s.threads| && s.threads[u].Asleep? && s' == Goto(Goto(s, u, Exchange), t, Deregister) {
      GotoCounts(s, u, Exchange);
      GotoCounts(Goto(s, u, Exchange), t, Deregister);
    } else {
      GotoCounts(s, t, Deregister);
    }
  }

  lemma {:induction false} StepKeepsCounters(s: State, s': State, t: nat)
    requires Counters(s) && t < |s.threads| == |s'.threads| && Step(s, s', t)
    ensures Counters(s')
  {
    hide Total, Step;
    if s.threads[t].FutexWake? {
      WakeKeepsCounters(s, s', t);
    } else {
      var p := s'.threads[t];
      GotoCounts(s, t, p);
      StepDeltas(s, s', t);
      assert s'.threads == Goto(s, t, p).threads;
    }
  }

  lemma {:induction false} PartCounts(s: State, t: nat)
    requires Counters(s) && t < |s.threads|
    ensures CountsAsReader(s.threads[t]) ==> s.readers > 0
    ensures CountsAsWriter(s.threads[t]) ==> s.writers > 0
    ensures s.threads[t].Writing? ==> s.lock == 1
  {
    GotoCounts(s, t, Idle);
  }

  lemma {:induction false} StepKeepsExclusion(s: State, s': State, t: nat)
    requires Inv(s) && Step(s, s', t)
    ensures Exclusion(s')
  {
    forall v, u | 0 <= v < |s'.threads| && 0 <= u < |s'.threads| && PastDrain(s'.threads[v])
      ensures !s'.threads[u].Reading?
    {
      PartCounts(s, u);
      PartCounts(s, v);
    }
  }

  lemma {:induction false} AwakeAfter(s: State, s': State, t: nat, v: nat) returns (h: nat)
    requires Inv(s) && Step(s, s', t) && v < |s'.threads| && s'.threads[v].Asleep?
    ensures h < |s'.threads| && Awake(s'.threads[h])
  {
    hide Total, Exclusion;
    if Awake(s'.threads[t]) {
      h := t;
    } else if s.threads[t].FutexWait? {
      h := SomePart(s.threads, writingWeight);
    } else if s.threads[t].FutexWake? {
      h :| 0 <= h < |s.threads| && s.threads[h].Asleep? && s' == Goto(Goto(s, h, Exchange), t, Deregister);
    } else {
      assert s.threads[v].Asleep?;
      h :| 0 <= h < |s.threads| && Awake(s.threads[h]);
    }
  }

  lemma SameThreads(s: State, s': State, t: nat)
    requires Step(s, s', t)
    ensures t < |s.threads| == |s'.threads|
  {
  }

  lemma {:induction false} StepKeepsInv(s: State, s': State, t: nat)
    requires Inv(s) && Step(s, s', t)
    ensures Inv(s')
  {
    hide Step;
    SameThreads(s, s', t);
    StepKeepsCounters(s, s', t);
    StepKeepsExclusion(s, s', t);
    if v :| 0 <= v < |s'.threads| && s'.threads[v].Asleep? {
      var h := AwakeAfter(s, s', t, v);
    }
  }

  lemma {:induction false} RunHolds(run: seq<State>, i: nat)
    requires Run(run) && i < |run|
    ensures Inv(run[i])
  {
    hide Step, Inv;
    if i == 0 {
      InitHolds(run[0]);
    } else {
      RunHolds(run, i - 1);
      assert Moves(run[i - 1], run[i - 1 + 1]);
      var t: nat :| Step(run[i - 1], run[i], t);
      StepKeepsInv(run[i - 1], run[i], t);
    }
  }

  /** Safety, at every point of every run of any number of threads. */
  lemma {:induction false} ReaderWriterSafety(run: seq<State>, i: nat)
    requires Run(run) && i < |run|
    ensures var s := run[i];
            && s.readers == Total(s.threads, readerWeight)
            && s.writers == Total(s.threads, writerWeight)
            && (s.lock == 1 <==> exists t :: 0 <= t < |s.threads| && s.threads[t].Writing?)
            && (forall t, u :: 0 <= t < |s.threads| && 0 <= u < |s.threads| && s.threads[t].Writing? ==>
                  !s.threads[u].Reading? && (s.threads[u].Writing? ==> t == u))
  {
    hide Step;
    RunHolds(run, i);
    var s := run[i];
    if s.lock == 1 {
      var h := SomePart(s.threads, writingWeight);
      assert s.threads[h].Writing?;
    }
    forall t, u | 0 <= t < |s.threads| && 0 <= u < |s.threads| && s.threads[t].Writing?
      ensures s.lock == 1 && !s.threads[u].Reading? && (s.threads[u].Writing? ==> t == u)
    {
      PartCounts(s, t);
      if s.threads[u].Writing? && t < u {
        TwoParts(s.threads, t, u, writingWeight);
      } else if s.threads[u].Writing? && u < t {
        TwoParts(s.threads, u, t, writingWeight);
      }
    }
  }

  /** A writer asleep on the futex is never alone: a holder, a waker or a writer in the exchange loop is awake. */
  lemma {:induction false} NoWakeUpIsLost(run: seq<State>, i: nat, t: nat)
    requires Run(run) && i < |run| && t < |run[i].threads| && run[i].threads[t].Asleep?
    ensures exists u :: 0 <= u < |run[i].threads| && Awake(run[i].threads[u])
  {
    hide Step;
    RunHolds(run, i);
  }

  // ----- how long readers can delay a writer -----

  /** How many more steps a thread past its first check takes before it no longer counts as a reader. */
  const readerRank: Phase -> nat :=
    (p: Phase) => if p.Announce? then 3 else if p.SecondCheck? then 2 else if p.Retreat? || p.Reading? then 1 else 0

  ghost function DrainMeasure(s: State): nat {
    Total(s.threads, readerRank)
  }

  lemma {:induction false} DrainStep(s: State, s': State, t: nat)
    requires Inv(s) && Step(s, s', t) && s.writers > 0
    ensures forall u | 0 <= u < |s'.threads| && s'.threads[u].Reading? :: s.threads[u].Reading?
    ensures DrainMeasure(s') + (if readerRank(s.threads[t]) > 0 then 1 else 0) <= DrainMeasure(s)
  {
    hide Total, Exclusion, NoLostWakeUp;
    if s.threads[t].FutexWake? {
      if u: nat :| u < |s.threads| && s.threads[u].Asleep? && s' == Goto(Goto(s, u, Exchange), t, Deregister) {
        TotalUpdate(s.threads, u, Exchange, readerRank);
        TotalUpdate(Goto(s, u, Exchange).threads, t, Deregister, readerRank);
      } else {
        TotalUpdate(s.threads, t, Deregister, readerRank);
      }
    } else {
      var p := s'.threads[t];
      StepDeltas(s, s', t) by { PartCounts(s, t); }
      TotalUpdate(s.threads, t, p, readerRank);
    }
  }

  /** A stretch of a run in which writers stays above 0; who[i] is the thread that takes step i. */
  ghost predicate WritersWaiting(stretch: seq<State>, who: seq<nat>) {
    && |stretch| == |who| + 1 && Inv(stretch[0])
    && forall i | 0 <= i < |who| :: Step(stretch[i], stretch[i + 1], who[i]) && stretch[i].writers > 0
  }

  /** The steps of a stretch taken by threads already past their first check. */
  ghost function ReaderSteps(stretch: seq<State>, who: seq<nat>): nat
    requires WritersWaiting(stretch, who)
  {
    if who == [] then 0
    else
      var n := |who| - 1;
      assert Step(stretch[n], stretch[n + 1], who[n]);
      ReaderSteps(stretch[..n + 1], who[..n]) + if readerRank(stretch[n].threads[who[n]]) > 0 then 1 else 0
  }

  /**
   While writers stays above 0 readers take at most DrainMeasure steps, however the threads interleave, and nobody
   starts reading; once the measure is spent the readers counter is 0 and a draining writer passes.
   */
  lemma {:induction false} DrainBound(stretch: seq<State>, who: seq<nat>)
    requires WritersWaiting(stretch, who)
    ensures var first, last := stretch[0], stretch[|who|];
            && Inv(last)
            && ReaderSteps(stretch, who) + DrainMeasure(last) <= DrainMeasure(first)
            && last.readers <= DrainMeasure(last)
            && |last.threads| == |first.threads|
            && forall u | 0 <= u < |last.threads| && last.threads[u].Reading? :: first.threads[u].Reading?
  {
    hide Step, Inv, Total;
    var n := |who| - 1;
    if n < 0 {
      RankCoversReaders(stretch[0]);
    } else {
      DrainBound(stretch[..n + 1], who[..n]);
      DrainStep(stretch[n], stretch[n + 1], who[n]);
      StepKeepsInv(stretch[n], stretch[n + 1], who[n]);
      SameThreads(stretch[n], stretch[n + 1], who[n]);
      RankCoversReaders(stretch[n + 1]);
    }
  }

  lemma {:induction false} RankCoversReaders(s: State)
    requires Inv(s)
    ensures s.readers <= DrainMeasure(s)
  {
    TotalBelow(s.threads, readerWeight, readerRank);
  }

  // ----- what a thread has to go through -----

  /** Thread u gets into this phase by this step. */
  predicate Enters(s: State, s': State, u: nat, p: Phase)
    requires u < |s.threads| == |s'.threads|
  {
    s'.threads[u] == p && s.threads[u] != p
  }

  /** A call ends only after its lock was held; a reader gets in only from a second check that found no writer. */
  lemma {:induction false} HowReadersMove(s: State, s': State, t: nat, u: nat)
    requires t < |s.threads| == |s'.threads| && Step(s, s', t) && u < |s.threads|
    ensures Enters(s, s', u, Idle) ==> s.threads[u].Reading? || s.threads[u].Deregister?
    ensures Enters(s, s', u, FirstCheck) ==> s.threads[u].Idle? || s.threads[u].Backoff?
    ensures Enters(s, s', u, Announce) ==> s.threads[u].FirstCheck? && s.writers == 0
    ensures Enters(s, s', u, Reading) ==> s.threads[u].SecondCheck? && s.writers == 0
    ensures Enters(s, s', u, Backoff) ==> s.writers != 0 || s.threads[u].Retreat?
    ensures Enters(s, s', u, Retreat) ==> s.threads[u].SecondCheck? && s.writers != 0
  {
  }

  /** A writer gets in only by exchanging a free lock after its drain, and sleeps only while the lock is taken. */
  lemma {:induction false} HowWritersMove(s: State, s': State, t: nat, u: nat)
    requires t < |s.threads| == |s'.threads| && Step(s, s', t) && u < |s.threads|
    ensures Enters(s, s', u, Drain) ==> s.threads[u].Register?
    ensures Enters(s, s', u, Exchange) ==>
              || (s.threads[u].Drain? && s.readers <= 0)
              || (s.threads[u].FutexWait? && s.lock != 1)
              || s.threads[u].Asleep?
    ensures Enters(s, s', u, Writing) ==> s.threads[u].Exchange? && s.lock != 1 && s'.lock == 1
    ensures Enters(s, s', u, Asleep) ==> s.threads[u].FutexWait? && s.lock == 1
    ensures Enters(s, s', u, FutexWake) ==> s.threads[u].Writing? && s'.lock == 0
    ensures Enters(s, s', u, Deregister) ==> s.threads[u].FutexWake?
  {
  }
}
