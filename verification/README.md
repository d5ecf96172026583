# Decentralised operating system: verified core

A Dafny 4.11 model of the algorithmic cores of a decentralised operating system written in C, with proofs of what those
cores are for. `dafny verify dfyconfig.toml` checks everything.

## How the model is laid out

Code that updates state in place is modelled as a class whose methods run the same loops over the same fields. Each such
method is proved equal to a mathematical function of the old state (`Train`, `Sweep`, `Write`, ...). The theorems are
lemmas about those functions over all inputs and all runs. For each operation there is besides a law that tells what it
does without mentioning that function: the visits of a training run one by one, the bytes of a read position by position,
the looks of a sweep node by node, the length of a causal chain for a stamp. Protocols between threads or nodes are state machines, one
atomic step at a time, over any number of participants.

| part of the system | implementation | theorems |
|---|---|---|
| perceptron, linear regression (`src/ml/ml_lib.c`) | `Perceptron`, `LinearRegression`, `LinearModel`, `Vectors`, `RealFacts` | `PerceptronHistory`, `PerceptronTheory`, `LinearRegressionHistory`, `LinearRegressionTheory` (with `Histories`) |
| reader/writer lock (`kernel_64bit.c`) | `RwLock` | `RwLock`, `RwLockProgress`, with `Tally` for counting |
| block file store (`dfs.h`) and its flat form (`src/main.c`) | `DfsModel`, `DfsDisk`, `Dfs`, `FlatFile` | `DfsRefinement`, `DfsOutcomes`, `DfsGather`, `DfsScatter`, `DfsStriping` |
| scheduler and fault manager | `Scheduler`, `FaultManager` | `Submissions`, `FaultHistory`, `Recovery` |
| mutex (`src/sync/sync.c`) | `LamportMutex` | `LamportProtocol`, `LamportEntry`, `LamportQueue` |
| barrier, clock (`src/sync/sync.c`) | `Barrier`, `LogicalClock` | the same files, `BarrierProgress` |
| shared-memory table (`decentralized_os.c`) | `SharedMemory` | `SharedMemory` (module `SharedMemoryTheory`) |
| node registry (`src/network_discovery.c`) | `Discovery` | `Discovery` (module `DiscoveryTheory`) |
| top-five selection (`distributed_syscalls.h`) | `TopFive` | `TopFive` |

`Search` and `Bytes` hold the table search and the byte type that several of these share.

The state machines' steps are defined by `RwLock.Step` (one phase for each atomic operation of kernel_64bit.c:444-487),
`Barriers.Step` (arrival, wake-up and re-check of src/sync/sync.c:133-158), `LamportProtocol.Next` (request, handling,
delivery of a reply, entry and release, src/sync/sync.c:22-103) and `LogicalClocks.ClockAfter` (local, send and receive
events, src/sync/sync.c:182-201).

## Where the code does not do what one would expect

Each of these is kept as the code has it, and the exact condition is proved.

- `dfs_write` and `dfs_read` compute the last chunk's length as `(offset + size) % 4096 - start` in `size_t`. A range that
  starts inside a block and ends exactly at that block's end, or an empty range at offset 0 or inside a block, gives a
  length that leaves the block or the buffer. `BlockLayout.Sound` is the exact complement (`ChunkExact`, `ChunkOverruns`).
  `DfsOutcomes.WriteOutcome` tells the result of any write from the state before it, `OverrunIff` and `ReadOverrunIff` say
  exactly when a call copies out of bounds, and `BlockEndOverruns` is a call on a fresh store that does.
- A block created to fill a gap carries checksum 0, which is not the checksum of its data, so reads skip it.
  `DfsOutcomes.WriteVerifiedIff` says exactly which writes leave all blocks readable, `ReadIff` exactly when a read
  returns the slice asked for, and `GapUnverified` is a write of one byte that leaves such blocks.
- A request to the Lamport mutex carries the node's own counter, which does not advance when requests of others are
  handled. So a node can come in beside a holder: `LamportEntry.TwoHolders` is a run from the start. For any number of
  nodes `SecondHolderIff` gives the exact condition as long as nobody releases, and `LamportQueue.BesideIff` the exact
  condition when only the holder keeps the lock and all others come and go; in both cases the holder itself must consent
  (`BesideHolder`). `LamportProtocol.MutualExclusion` shows that stamps above everything the node has consented to repair
  it, and `ClockedExclusion` that stamps from `increment_clock` and `update_clock` are of that kind.
- A discovery packet is looked up by the id in its header but stores the id in its payload.
  `DiscoveryTheory.UniqueIff` says exactly when a packet keeps ids unique; `OnePayloadTwice` are two packets that do not.
- The barrier is right exactly if `total_nodes` is the number of participants (`Barriers.SoundIffExact`).

## Model

| member | source | states |
|---|---|---|
| LinearModel.Activate | src/ml/ml_lib.c:182-187 | the accumulating prediction loop returns bias plus the inner product of weights and sample |
| Vectors.DotUnit | src/ml/ml_lib.c:183-186 | the inner product with a unit vector picks a component, so with linearity every feature enters once with its own weight |
| Vectors.DotAddScaled | src/ml/ml_lib.c:183-186 | the inner product is linear in the weights |
| LinearModel.MoveEffects | src/ml/ml_lib.c:165-172 | how one in-place update along a sample changes the inner product with any fixed model and the squared norm of the model, bias included |
| Perceptrons.Perceptron.constructor | src/ml/ml_lib.c:136-146 | zero weights and bias, rate 0.1, 100 iterations |
| Perceptrons.Perceptron.PredictPerceptron | src/ml/ml_lib.c:182-188 | returns 1 exactly if the activation is at least 0 |
| Perceptrons.Perceptron.Adjust | src/ml/ml_lib.c:169-172 | the feature loop moves every weight and the bias by the same multiple of the sample extended by 1 |
| Perceptrons.Perceptron.TrainSample | src/ml/ml_lib.c:157-173 | a right prediction leaves the model alone, a wrong one moves it by rate times label minus prediction and is counted |
| Perceptrons.Perceptron.TrainEpoch | src/ml/ml_lib.c:152-174 | one pass over the samples in order is the epoch function, with the number of wrong predictions |
| Perceptrons.Perceptron.TrainPerceptron | src/ml/ml_lib.c:148-180 | training is the training function of the old model, and stops at the first error-free epoch or when the iterations are used up |
| Perceptrons.TrainStops | src/ml/ml_lib.c:176-179 | once an epoch is error-free a larger iteration budget changes nothing |
| PerceptronHistory.EpochHistory | src/ml/ml_lib.c:152-174 | an epoch visits every sample in order: at each visit rate times (label - answer) times each feature, 1 for the bias, is added to its weight, and `errors` is the exact number of visits with a wrong answer |
| PerceptronHistory.EpochOf | src/ml/ml_lib.c:152-174 | any models that such visits pass through are those of the epoch |
| PerceptronHistory.TrainHistory | src/ml/ml_lib.c:151-179 | training is a row of visits for each epoch entered, each starting where the last ended; it stops at the first row without a mistake or after the budget, and counts every mistake |
| PerceptronHistory.TrainedSum | src/ml/ml_lib.c:148-180 | each weight of the trained model, bias included, is rate times the sum of (label - answer) times its feature over all visits of all entered epochs |
| PerceptronTheory.UpdateProgress | src/ml/ml_lib.c:165-172 | each update gains rate times margin along any separating model and adds at most rate squared times radius squared to the square of the model |
| PerceptronTheory.TrainingProgress | src/ml/ml_lib.c:148-180 | both gains add up over all updates of all epochs from the zero start |
| PerceptronTheory.MistakeBound | src/ml/ml_lib.c:148-180 | for any separating (u, b) with margin g and every squared length plus 1 at most R squared, updates times g squared is at most R squared times the squared length of (u, b), for every positive rate and every budget |
| PerceptronTheory.ErrorFreePass | src/ml/ml_lib.c:153-179 | an epoch without errors changes nothing and predicted each sample right |
| PerceptronTheory.ConvergedClassifies | src/ml/ml_lib.c:176-188 | after leaving through the error-free break every training sample is predicted as labelled |
| PerceptronTheory.EveryOpenEpochCosts | src/ml/ml_lib.c:152-179 | every epoch that does not end training makes at least one update |
| PerceptronTheory.Convergence | src/ml/ml_lib.c:148-188 | with an iteration budget above the mistake bound training ends in the break and classifies all samples |
| PerceptronTheory.ShiftToMargin | src/ml/ml_lib.c:161-165 | any threshold unit that predicts all samples can be shifted to one with positive margin |
| PerceptronTheory.LearnableIffSeparable | src/ml/ml_lib.c:148-188 | some iteration budget makes training converge if and only if some threshold unit predicts every sample |
| LinearRegressions.LinearRegression.constructor | src/ml/ml_lib.c:11-21 | zero weights and bias, rate 0.01, 1000 iterations |
| LinearRegressions.LinearRegression.PredictLinearRegression | src/ml/ml_lib.c:55-61 | returns bias plus inner product |
| LinearRegressions.LinearRegression.Adjust | src/ml/ml_lib.c:41-45 | the update loop moves weights and bias by the step rate times error over n against the sample |
| LinearRegressions.LinearRegression.RunIteration | src/ml/ml_lib.c:26-46 | one pass is the iteration function, with the summed squared errors |
| LinearRegressions.LinearRegression.TrainLinearRegression | src/ml/ml_lib.c:23-53 | training is the training function of the old model for the set number of iterations |
| LinearRegressionHistory.IterationHistory | src/ml/ml_lib.c:26-46 | on any data an iteration visits every sample in order, takes rate times error times feature over n off each weight, bias included, and adds up exactly the squares of these errors |
| LinearRegressionHistory.IterationOf | src/ml/ml_lib.c:26-46 | any models that such visits pass through are those of the iteration |
| LinearRegressionHistory.TrainHistory | src/ml/ml_lib.c:23-53 | training is one row of visits for each iteration asked for, each starting where the last ended |
| LinearRegressionHistory.NoErrorIff | src/ml/ml_lib.c:29-46 | an iteration adds up no error if and only if the model it starts with predicts every sample exactly; it then changes nothing |
| LinearRegressionHistory.DistanceShed | src/ml/ml_lib.c:29-46 | on realised targets the squared distance falls over the visits by exactly the sum of h(2 - h q) times the squared error of each |
| LinearRegressionTheory.SampleIdentity | src/ml/ml_lib.c:36-45 | one sample changes the squared distance to a model realising it by exactly h(2 - h q) times its squared error, q the squared length of the extended sample |
| LinearRegressionTheory.NoFartherIff | src/ml/ml_lib.c:36-45 | a sample does not move the model away exactly if it was already right or h times q is at most 2 |
| LinearRegressionTheory.SamplePays | src/ml/ml_lib.c:36-45 | with R squared bounding the extended sample's squared length, one sample lowers the squared distance by at least h(2 - h R squared) times its squared error |
| LinearRegressionTheory.IterationBound | src/ml/ml_lib.c:26-46 | over one pass the squared distance falls by at least h(2 - h R squared) times the summed squared errors |
| LinearRegressionTheory.TrainingBound | src/ml/ml_lib.c:23-53 | the same over all iterations |
| LinearRegressionTheory.ErrorBound | src/ml/ml_lib.c:23-53 | with h R squared below 2 the distance to a realising model never grows and the squared errors of all iterations, times h(2 - h R squared), are at most the initial squared distance |
| LinearRegressionTheory.ReachesTolerance | src/ml/ml_lib.c:26-50 | with enough iterations some iteration's summed squared error is below any given tolerance |
| LinearRegressionHistory.MissesFallBelow | src/ml/ml_lib.c:26-50 | with enough iterations the squared errors at the visits of some iteration add up to less than any given tolerance |
| RwLock.StepDeltas | kernel_64bit.c:444-487 | every atomic step but a wake-up moves one thread and changes the counters by exactly what that thread's phases weigh |
| RwLock.StepKeepsCounters | kernel_64bit.c:444-487 | readers, writers and lock go on counting exactly the threads in the matching phases |
| RwLock.StepKeepsExclusion | kernel_64bit.c:444-475 | no step brings a reader past its second check while a writer is past its drain |
| RwLock.AwakeAfter | kernel_64bit.c:477-487 | after a step that leaves a writer asleep someone who will take the lock or wake it is awake |
| RwLock.StepKeepsInv | kernel_64bit.c:444-487 | counters, exclusion and wake-up invariant are kept by every step of every thread |
| RwLock.InitHolds | kernel_64bit.c:432-435 | the initial counters satisfy the invariant |
| RwLock.ReaderWriterSafety | kernel_64bit.c:444-487 | in every run of any number of threads: exact counters, lock is 1 exactly if someone writes, at most one writer, and no reader beside it |
| RwLock.NoWakeUpIsLost | kernel_64bit.c:477-487 | in every run a writer asleep on the futex has an awake holder, waker or contender |
| RwLock.DrainStep | kernel_64bit.c:444-475 | while writers is positive nobody starts reading and each step of a reader past its first check lowers the measure |
| RwLock.DrainBound | kernel_64bit.c:444-475 | over any stretch with writers positive readers take at most the measure's number of steps, nobody starts reading, and the readers counter stays below what is left |
| RwLock.HowReadersMove | kernel_64bit.c:444-466 | a call ends only after its lock was held; a reader gets in only from a second check that found no writer, and backs off only because of one |
| RwLock.HowWritersMove | kernel_64bit.c:468-487 | a writer gets in only by exchanging a free lock after its drain, sleeps only while the lock is taken, and deregisters only after its wake-up call |
| RwLockProgress.LetReadersLeave | kernel_64bit.c:444-466 | while writers is positive the readers past their first check can all leave, none getting in, with all other threads standing still |
| RwLockProgress.WakeSleeper | kernel_64bit.c:477-486 | a writer asleep on the futex can be woken by a wake-up that is really sent |
| RwLockProgress.WriterCanEnter | kernel_64bit.c:468-487 | from every reachable state any thread between registering and the exchange, asleep or not, has a continuation without unsent wake-ups in which it holds the write lock |
| RwLockProgress.LetWritersFinish | kernel_64bit.c:468-487 | from every reachable state all registered writers can get the lock in turn and finish, while every waiting reader goes on waiting |
| RwLockProgress.ReaderCanEnter | kernel_64bit.c:444-487 | from every reachable state any waiting reader has such a continuation in which it holds the read lock |
| RwLockProgress.IdleCanEnter | kernel_64bit.c:444-487 | from every reachable state an idle thread can get the read lock, and can get the write lock |
| RwLockProgress.HolderCanLeave | kernel_64bit.c:464-487 | from every reachable state a holder of either lock can give it up and become idle |
| LamportMutexes.LamportMutex.constructor | src/sync/sync.c:8-20 | clock 0, nothing requested, granted or counted |
| LamportMutexes.LamportMutex.BeginAcquire | src/sync/sync.c:25-27 | a request raises the own stamp by one and clears the reply count |
| LamportMutexes.LamportMutex.FinishAcquire | src/sync/sync.c:36-49 | the lock is granted exactly if all other nodes' replies are counted, or the wait times out and the missing ones are assumed |
| LamportMutexes.LamportMutex.ReleaseLock | src/sync/sync.c:55-65 | request and grant are withdrawn, stamp and count stay |
| LamportMutexes.LamportMutex.HandleLockRequest | src/sync/sync.c:67-91 | consents exactly if the node has no request of its own or the other's is earlier by stamp, ties by id; nothing changes |
| LamportMutexes.LamportMutex.HandleLockReply | src/sync/sync.c:93-103 | one more reply is counted, nothing else changes |
| LamportProtocol.NextKeepsSane | src/sync/sync.c:22-103 | whatever the stamps, requests in flight are current, replies are counted once a peer, and a holder has everybody's consent |
| LamportProtocol.NextKeepsInv | src/sync/sync.c:22-103 | if new requests are later than what their node has granted, a request with another requester's consent precedes that requester's |
| LamportProtocol.ConsentWasGiven | src/sync/sync.c:67-91 | any consent outstanding in a run was given at some step for the stamp the request still carries |
| LamportProtocol.ClimbingIsLater | src/sync/sync.c:22-33 | requests stamped above all the node has consented to come after every open request it has granted |
| LamportProtocol.MutualExclusion | src/sync/sync.c:22-103 | in every run of any number of nodes in which request stamps exceed every stamp the node has granted, no two nodes hold the lock |
| LamportProtocol.ClockedExclusion | src/sync/sync.c:182-201 | when requests are stamped by increment_clock and every handled request's stamp goes through update_clock, stamps climb on every run and no two nodes hold the lock |
| LamportEntry.AnswerOne | src/sync/sync.c:67-103 | a consenting peer's answer, counted, in flight or still to be given, can reach the requester with nobody else changed |
| LamportEntry.GoIn | src/sync/sync.c:22-53 | a node to whose request, made or not yet made, all others consent can enter while all others keep their state and mail |
| LamportEntry.Refused | src/sync/sync.c:67-91 | as long as one node that does not consent does not release, the requester stays out on every run, whatever all the others do |
| LamportEntry.EntersIff | src/sync/sync.c:22-103 | as long as nobody releases, a node that has requested or not can enter if and only if every other node consents as things stand |
| LamportEntry.SecondHolderIff | src/sync/sync.c:73-79 | as long as nobody releases, a second node can enter beside a holder if and only if all others consent; if it has not requested yet, if and only if its request would precede every open one, the holder's included |
| LamportEntry.BesideHolder | src/sync/sync.c:73-79 | whatever all others do, a node enters beside a holder that keeps the lock only with the holder's consent, so only if a request it makes now would precede the holder's |
| LamportEntry.TwoHolders | src/sync/sync.c:22-103 | from the initial state of two or more nodes there is a run, without loss, timeout or release, with nodes 0 and 1 both holding |
| LamportEntry.ExclusiveIffAlone | src/sync/sync.c:22-103 | as the code stamps requests, exclusion on all runs holds if and only if there are fewer than two nodes |
| LamportQueue.Serve | src/sync/sync.c:22-103 | the nodes of a queue, each consented to by all but those before it, can have the lock and release it one after the other |
| LamportQueue.PostponedForGood | src/sync/sync.c:81-88 | a request that is refused is postponed without a reply and dropped, and keeps its node out on every run from there |
| LamportQueue.Dropped | src/sync/sync.c:85-88 | once a request has been dropped its node stays out, whatever anybody does |
| LamportQueue.QueueOfRun | src/sync/sync.c:22-103 | the nodes that enter or release in any run, in the order in which they first do, are a queue of its first state |
| LamportQueue.BesideIff | src/sync/sync.c:22-103 | beside a holder that keeps the lock, while all others come and go, a node can enter if and only if it is in some queue of the present state |
| LamportQueue.ThirdReleaseMatters | src/sync/sync.c:22-103 | a state of three nodes in which the second holder gets in only after the third has entered and released |
| Barriers.DistributedBarrier.constructor | src/sync/sync.c:117-131 | nobody has arrived, generation 0 |
| Barriers.DistributedBarrier.ArriveAtBarrier | src/sync/sync.c:133-152 | the last of total_nodes arrivals opens the next generation and resets the count, any other adds one |
| Barriers.LeavesIffAllArrived | src/sync/sync.c:152-154 | in every run the loop test lets a waiting participant go if and only if every participant has arrived at the round it waits for |
| BarrierProgress.WokenReturnsIff | src/sync/sync.c:150-157 | a woken participant returns if and only if everybody has arrived at its round, else it sleeps again, and nothing else changes |
| BarrierProgress.LastArrivalReleases | src/sync/sync.c:136-152 | an arrival at which all others have arrived returns at once and wakes every sleeper; any other sleeps and changes nobody else |
| BarrierProgress.EveryRoundCanFinish | src/sync/sync.c:133-158 | with exactly total_nodes participants every participant can finish its next round from every reachable state |
| Barriers.ReleaseKeepsInv | src/sync/sync.c:143-149 | the releasing arrival finds all others waiting in its generation and leaves nobody asleep in the new one |
| Barriers.SoloStepKeepsInv | src/sync/sync.c:150-155 | other arrivals, wake-ups for no reason and re-checks keep the count exact and everybody in step |
| Barriers.BarrierRounds | src/sync/sync.c:133-158 | in every run with exactly total_nodes participants nobody completes a round before all arrived at it, rounds differ by at most one, nobody is left asleep after its round, someone is awake, and arrived_count is the number waiting in this generation |
| Barriers.TooManyBreaksRounds | src/sync/sync.c:133-158 | with more participants than total_nodes some run completes a round that one of them never reached |
| Barriers.SoundIffExact | src/sync/sync.c:133-158 | all runs are sound if and only if total_nodes is the number of participants |
| LogicalClocks.LogicalClock.constructor | src/sync/sync.c:172-180 | clock 0 |
| LogicalClocks.LogicalClock.IncrementClock | src/sync/sync.c:182-188 | adds one and returns it |
| LogicalClocks.LogicalClock.UpdateClock | src/sync/sync.c:190-201 | one more than the larger of own and received stamp |
| LogicalClocks.DirectIncreases | src/sync/sync.c:182-201 | a later event of the same node, and the receipt of a message, carry a larger stamp |
| LogicalClocks.ClockCondition | src/sync/sync.c:182-201 | in every run of any nodes happened-before implies a strictly smaller stamp, and precedence |
| LogicalClocks.StampIsLongestChain | src/sync/sync.c:182-201 | the stamp of an event is the length of the longest causal chain of events that ends with it |
| LogicalClocks.TotalOrder | src/sync/sync.c:182-201 | stamp with node id is a strict total order on all events of a run |
| Schedulers.EligibleMeansLive | src/scheduler/scheduler.c:21-49 | a node that can be chosen is neither failed nor offline; with metrics in range every such node can be chosen |
| Schedulers.ScoreWeighs | src/scheduler/scheduler.c:21-35 | reputation outweighs load and memory four to three each, and metrics in range give a score in range |
| Schedulers.BestIsUnique | src/scheduler/scheduler.c:37-56 | the first node of highest score is the only answer to its description |
| Schedulers.Scheduler.constructor | src/scheduler/scheduler.c:11-18 | no tasks, next id 1 |
| Schedulers.Scheduler.AssignTaskToNode | src/scheduler/scheduler.c:37-56 | the scan finds the first node of highest score above -1, or none |
| Schedulers.Scheduler.ScheduleTask | src/scheduler/scheduler.c:58-90 | full array, id given out when 0 even if no node is found, no node, or the task appended as running on the best node |
| Schedulers.Scheduler.UpdateTaskStatus | src/scheduler/scheduler.c:92-107 | the first task with the id takes the status, and its completion time when it ended |
| Schedulers.Scheduler.RescheduleFailedTasks | src/scheduler/scheduler.c:123-141 | every failed or pending task runs on the best node if there is one, all others stay |
| Submissions.SubmitIff | src/scheduler/scheduler.c:58-90 | a submission succeeds if and only if there is room and an eligible node; it then appends just that task, running on the first node of highest score, named if it had no id, created now, and returns that node's id; else nothing is appended and the result is -1 |
| Submissions.ReportIs | src/scheduler/scheduler.c:92-107 | a report changes the first task with the id, its status and, if it ended, its completion time, and nothing else |
| Submissions.RescheduleIs | src/scheduler/scheduler.c:123-141 | exactly the pending and failed tasks go to the first node of highest score, running; without one nothing changes |
| Submissions.OperationKeepsPlaces | src/scheduler/scheduler.c:58-141 | no operation loses, moves or renames a task, and only a successful submission appends one |
| Submissions.TasksCounted | src/scheduler/scheduler.c:58-90 | on every run the number of tasks is the initial number plus the number of successful submissions |
| Submissions.SubmittedStays | src/scheduler/scheduler.c:80-89 | on every run a task submitted with success is found at its place ever after |
| FaultManagers.FaultManager.OrphanTasks | src/fault_tolerance/fault_manager.c:48-60 | exactly the running tasks of the node become pending, and are counted |
| FaultManagers.FaultManager.constructor | src/fault_tolerance/fault_manager.c:216-223 | all counters start at 0 |
| FaultManagers.FaultManager.HandleNodeFailure | src/fault_tolerance/fault_manager.c:44-99 | orphaned tasks are placed on the best node as judged before the failed node's reputation is halved |
| FaultManagers.FaultManager.MonitorSweep | src/fault_tolerance/fault_manager.c:16-34 | one sweep is the sweep function of nodes, tasks and counters, node by node |
| FaultManagers.FaultManager.RecoverNode | src/fault_tolerance/fault_manager.c:101-120 | the first node with the id, if failed, comes back idle, heard now, reputation 0.7, counters adjusted |
| FaultHistory.FailIs | src/fault_tolerance/fault_manager.c:27-31 | failing a node marks it, halves its reputation, counts it and its running tasks, and moves these and all waiting ones to the first node of highest score among the rest |
| FaultHistory.SweepHistory | src/fault_tolerance/fault_manager.c:16-34 | a sweep looks at every node once, in order, and fails exactly those that are live and silent for more than 15 seconds at that moment |
| FaultHistory.RecoverIs | src/fault_tolerance/fault_manager.c:101-120 | the first node with the id, if failed, becomes idle, heard now, with reputation 0.7, one failed node less and one recovery more; else nothing changes |
| FaultHistory.RecoverUnknown | src/fault_tolerance/fault_manager.c:104-117 | an unknown id changes nothing |
| Recovery.RescheduleKeepsSafe | src/scheduler/scheduler.c:123-141 | rescheduling puts running tasks only on live nodes |
| Recovery.FailKeepsSafe | src/fault_tolerance/fault_manager.c:24-32 | declaring one node failed leaves every running task on a live node |
| Recovery.SweptNodes | src/fault_tolerance/fault_manager.c:20-34 | a sweep fails exactly the live nodes that timed out and halves their reputation, whatever the tasks |
| Recovery.RunningOnFreshNodes | src/fault_tolerance/fault_manager.c:16-66 | after a sweep every running task is on a live node heard from within the timeout, also when a replacement failed later in the sweep |
| Recovery.TasksCarried | src/fault_tolerance/fault_manager.c:16-66 | no task is lost, added or renamed, completed ones are untouched, none becomes completed |
| Recovery.UndisturbedStay | src/fault_tolerance/fault_manager.c:51-60 | a running task whose node does not time out stays as it is |
| Recovery.NothingWaits | src/fault_tolerance/fault_manager.c:20-66 | after a sweep that found a failure nothing is pending or failed while an eligible node is left |
| Recovery.WaitingIff | src/fault_tolerance/fault_manager.c:20-66 | with metrics in range, after a failure tasks wait if and only if some task is unfinished and no live node is left |
| Recovery.QuietSweep | src/fault_tolerance/fault_manager.c:20-34 | a sweep without timeouts changes nothing |
| Recovery.SweepKeepsCount | src/fault_tolerance/fault_manager.c:27-28 | failed_nodes goes on counting the failed nodes |
| Recovery.RecoverKeeps | src/fault_tolerance/fault_manager.c:101-120 | recovery keeps that count and the safety of running tasks |
| Recovery.EveryRunKeepsInvariant | src/fault_tolerance/fault_manager.c:10-120 | every run of submissions, reports, sweeps, recoveries and heartbeats with new metrics keeps running tasks on live nodes and the failed-node count exact |
| Recovery.NamedTasksStayDistinct | src/scheduler/scheduler.c:67-85 | while tasks arrive without an id, ids stay distinct and below the next one on every run |
| BlockLayout.ChunkExact | dfs.h:349-352 | in every range outside the failing family each block's chunk is exactly the part of the range inside that block |
| BlockLayout.ChunkOverruns | dfs.h:401-407 | in every range of the failing family each chunk leaves its block or is not empty although the range is |
| FlatFiles.FlatFile.Write | src/main.c:352-370 | refuses what is not a file; else grows to the end of the range, puts the buffer at its offset, keeps all other old bytes and returns the length |
| FlatFiles.FlatFile.constructor | src/main.c:335-341 | a new file is empty |
| FlatFiles.FlatBytes | src/main.c:357-364 | byte by byte, a flat write leaves the buffer in its range, old bytes outside it and zero in the gap |
| Dfs.Store.constructor | dfs.h:255-262 | empty block table of 100000 places, next block id 1 |
| Dfs.DfsFile.constructor | dfs.h:305-318 | a new file has size 0 and no blocks |
| Dfs.BlockCell.constructor | dfs.h:368-373 | a new block is 4096 zero bytes, checksum 0, version 1 |
| Dfs.BlockCell.Put | dfs.h:409-415 | the copy splices the bytes into the block, recomputes the checksum and raises the version |
| Dfs.Store.FindBlock | dfs.h:390-397 | the scan finds the first block with the id, or none |
| Dfs.Store.AddBlock | dfs.h:365-378 | a new block gets the next id, joins the file's list, and the table if there is room |
| Dfs.Store.Register | dfs.h:375-378 | the block joins the table exactly if there is room |
| Dfs.Store.GrowTo | dfs.h:354-383 | the list is extended block by block to the count, all blocks separate objects |
| Dfs.Store.Chunk | dfs.h:401-407 | start and length of a chunk in size_t arithmetic |
| Dfs.Store.WriteBlockAt | dfs.h:389-416 | one round of the copy loop changes at most the block found, and stops where a copy would leave block or buffer |
| Dfs.Store.PutBlock | dfs.h:409-415 | writing one block object changes its place of the table and no other |
| Dfs.Store.WriteListed | dfs.h:385-428 | once the list is long enough: copy, then size and byte total, unless a copy went out of bounds |
| Dfs.Store.CopyBlocks | dfs.h:386-416 | the copy loop over all blocks of the range |
| Dfs.Store.Write | dfs.h:344-429 | the whole call: out of memory, or grow, copy, size and statistics, as the write function of the old store and file |
| Dfs.Store.ReadBlockAt | dfs.h:480-510 | one round of the read loop skips missing and unverified blocks and collects the chunk of any other |
| Dfs.Store.CollectBlocks | dfs.h:443-510 | the read loop over the blocks of the range that the file has |
| Dfs.Store.Read | dfs.h:432-533 | the whole read without a cache: nothing past the end, else the clipped range |
| Dfs.Store.StripeFile | dfs.h:619-645 | an error without nodes, else width and primaries set as the striping function says |
| Dfs.Store.AssignPrimaries | dfs.h:627-638 | the round-robin loop is the striping function of the table |
| Dfs.Store.StripeBlock | dfs.h:631-637 | the first block with the id gets the node, an unknown id changes nothing |
| Dfs.Store.SetPrimary | dfs.h:634 | one block object changes its primary and nothing else |
| DfsRefinement.GrowGains | dfs.h:354-383 | growing adds only blank blocks of fresh ids, each in the table, and leaves every other block alone |
| DfsRefinement.CopyingProgress | dfs.h:386-416 | after each round the blocks done hold their splice of the buffer, all others their old contents, and the count is the part of the range behind |
| DfsRefinement.CopyingKeeps | dfs.h:386-416 | after the copy loop each byte of the file is the buffer's inside the range and the old one outside |
| DfsRefinement.WriteRefinesFlat | dfs.h:344-429 | with room in the table and a range cut right a block write is the flat write: same result, size and bytes, gaps zero |
| DfsRefinement.OtherFileUntouched | dfs.h:344-429 | a write leaves the contents and blocks of every other file as they were |
| DfsRefinement.ApplyRefines | dfs.h:344-429 | one write to a store of many files changes the contents of one by the flat write and keeps the store well formed |
| DfsRefinement.RunRefinesFlat | dfs.h:344-429 | any sequence of writes to any number of files leaves what the flat writes leave |
| DfsRefinement.EmptyVolume | dfs.h:255-262 | a fresh store with empty files is well formed |
| DfsOutcomes.OverrunOnTable | dfs.h:385-416 | on any table, damaged ones included, a write copies out of bounds if and only if its range is in the failing family and one of its blocks is in the grown table |
| DfsOutcomes.FullOnTable | dfs.h:385-428 | on any table a write cut right reports at most its size, and all of it if and only if every block touched is in the grown table |
| DfsOutcomes.GrownTable | dfs.h:364-383 | after growing, exactly the file's blocks below its old count plus the free places are in the table |
| DfsOutcomes.WriteOutcome | dfs.h:344-429 | the result of any write from the state before it: a range cut right is copied exactly as far as the file's blocks fit the table, any other overruns unless its first block does not fit |
| DfsOutcomes.OverrunIff | dfs.h:385-416 | a write copies out of bounds if and only if its range is in the failing family and its first block fits the table; with room, if and only if its range is in the failing family |
| DfsOutcomes.FullWriteIff | dfs.h:354-428 | a write cut right reports all its bytes if and only if it is empty or the table has room for the blocks it needs |
| DfsOutcomes.BlockEndOverruns | dfs.h:401-410 | 3996 bytes at offset 100 of an empty file of a fresh store are copied out of bounds |
| DfsScatter.GrowExtends | dfs.h:354-383 | growing goes on with consecutive ids, and tables blank blocks of version 1, with the file's inode and their own offset, as far as there is room |
| DfsScatter.WriteScatters | dfs.h:344-429 | on any table, a write cut right puts its bytes in order at the positions of the range whose blocks are in the table, reports their number, gives each such block its new checksum and one more version, and changes no other block; size and byte total follow |
| DfsScatter.WithoutMemory | dfs.h:355-361 | a write fails for lack of memory if and only if the list must grow and cannot, and then changes nothing |
| DfsOutcomes.ReadIff | dfs.h:432-533 | a read cut right returns the clipped slice if and only if every block in range carries the checksum of its data |
| DfsOutcomes.ReadOverrunIff | dfs.h:432-533 | a read copies out of bounds if and only if its clipped range is in the failing family and it meets a verified block |
| DfsGather.ReadGathers | dfs.h:432-533 | on any table, a read cut right returns in order the bytes at just those positions of the clipped range whose blocks are in the table and carry the checksum of their data; from the end of the file on it returns nothing |
| DfsGather.GatherCount | dfs.h:447-532 | their number is the number of such positions |
| DfsGather.ByteOfContent | dfs.h:480-510 | in a well-formed file the byte at a position is that of the file's content |
| DfsOutcomes.WriteVerifiedIff | dfs.h:363-416 | a write leaves every block of the file verified if and only if it starts at most one block past the last, or blank blocks have checksum 0 |
| DfsOutcomes.GapUnverified | dfs.h:364-416 | one byte at offset 8192 of an empty file leaves a block unverified unless blank blocks have checksum 0 |
| DfsOutcomes.RunKeepsVerified | dfs.h:344-429 | sequences of writes without gap blocks keep all blocks of all files verified |
| DfsOutcomes.ReadAfterWrites | dfs.h:344-533 | after such a sequence a read returns exactly the slice of the flat file, clipped to its size |
| DfsStriping.StripedBlocks | dfs.h:627-638 | each block of the file gets the node of its turn, all other blocks and all data stay |
| DfsStriping.SharesOf | dfs.h:625-638 | of k blocks each of the w distinct nodes gets k / w, the first k % w one more |
| DfsStriping.StripingBalances | dfs.h:619-645 | any two nodes used have block counts within one of each other, and no other file's block changes |
| DfsStriping.EightShare | dfs.h:619-645 | over distinct nodes block j goes to node j mod w, w the smaller of 8 and their number: each of the first w gets n / w blocks, the first n % w one more, any further node none |
| DfsStriping.StripingKeepsContent | dfs.h:619-645 | every file reads the same after striping |
| TopFive.InsertTop | distributed_syscalls.h:249-260 | scanning and shifting five places is insertion into the full ranking, cut to five |
| TopFive.SelectTopFive | distributed_syscalls.h:239-261 | the loop ends with the first five of the ranking of all positive counts, zero-padded |
| TopFive.RankedSorts | distributed_syscalls.h:245-261 | the ranking is strictly ordered by count, ties by lower index, and holds exactly the positive counts, each once |
| TopFive.TopFiveIsTop | distributed_syscalls.h:239-261 | an index is among the five if and only if it equals or is ahead of one of the five places |
| TopFive.PlaceHolds | distributed_syscalls.h:239-261 | place p holds the index with exactly p positive counts ahead of it, and is zero if there are not more than p positive counts |
| SharedMemory.MemoryManager.constructor | decentralized_os.c:1590 | the empty table that the calls start from |
| SharedMemory.MemoryManager.FindBlock | decentralized_os.c:835-841 | the scan finds the first block with the id, or none |
| SharedMemory.MemoryManager.CreateSharedMemory | decentralized_os.c:790-826 | 0 for size 0, a full table or no memory; else a zeroed block with the next id, version 1 |
| SharedMemory.MemoryManager.WriteSharedMemory | decentralized_os.c:829-856 | -1 for an unknown id or a range past the end; else the bytes are patched and the version raised |
| SharedMemory.MemoryManager.ReadSharedMemory | decentralized_os.c:859-885 | refused likewise; else the bytes of the range |
| SharedMemory.MemoryManager.FreeSharedMemory | decentralized_os.c:920-948 | the last reference removes the block and its size, an unknown id changes nothing |
| SharedMemory.MemoryManager.Compact | decentralized_os.c:936-940 | the shift loop removes exactly one place and keeps the order of the rest |
| SharedMemoryTheory.CompactedMap | decentralized_os.c:936-940 | compaction removes exactly one id from the map |
| SharedMemoryTheory.CallRefines | decentralized_os.c:790-948 | each call acts and answers as on a finite map, keeps ids increasing and the total equal to the live sizes |
| SharedMemoryTheory.RunRefinesMap | decentralized_os.c:790-948 | so does any sequence of calls from the empty table |
| SharedMemoryTheory.VersionCountsWrites | decentralized_os.c:813-850 | on every run a live block's version is one more than the successful writes to its id |
| SharedMemoryTheory.IdsIncrease | decentralized_os.c:813-820 | the last id given out never falls |
| SharedMemoryTheory.NeverReused | decentralized_os.c:813-825 | of two successful creations the later has the larger id, whatever was freed between |
| Discovery.NetworkManager.ProcessDiscoveryMessage | src/network_discovery.c:253-330 | rejects short, foreign and own packets; else overwrites the entry found by header id, or appends if there is room; answers requests only |
| Discovery.NetworkManager.constructor | src/network_discovery.c:396-400 | an empty registry for the local id |
| Discovery.NetworkManager.FindNode | src/network_discovery.c:280-286 | the scan finds the first entry with the id, or none |
| Discovery.NetworkManager.HeartbeatSweep | src/network_discovery.c:370-384 | retires exactly the active entries silent for more than the timeout |
| Discovery.ProcessIs | src/network_discovery.c:253-313 | exactly which packets count, and what each does: the first entry with the header's id becomes the payload, heard now and active; without one the payload is appended with the sender's address if fewer than 100 are known; any other packet changes nothing |
| Discovery.SweepIs | src/network_discovery.c:370-384 | a sweep changes nothing but the activity of entries silent for more than the timeout |
| DiscoveryTheory.UniqueIff | src/network_discovery.c:280-312 | a stored packet keeps ids unique and not local if and only if its payload's id is no other entry's and not the local one |
| DiscoveryTheory.OnePayloadTwice | src/network_discovery.c:280-312 | two packets with different header ids and one payload id leave that id twice in the registry |
| DiscoveryTheory.AlwaysUnique | src/network_discovery.c:265-312 | with matching ids the registry holds each id once, never the local one, and at most 100 |
| DiscoveryTheory.EntryAfter | src/network_discovery.c:280-312 | what one event does to one entry: refreshed if heard, else only a late sweep retires it |
| DiscoveryTheory.ActiveIff | src/network_discovery.c:280-390 | on every run an entry carries the time it was last heard and is active if and only if no later sweep came more than the timeout after |
| DiscoveryTheory.HeardStaysActive | src/network_discovery.c:366-390 | a node heard at most the timeout before every sweep is active |
| DiscoveryTheory.SilentIsRetired | src/network_discovery.c:366-390 | a node silent since t is inactive by t plus the timeout plus the longest distance between sweeps |

## Left out

- Rounding and overflow: `double` and `float` are `real` and machine integers are unbounded. The one exception is the
  `size_t` subtraction in the block ranges of `dfs.h`, which is modelled; an end of range of 2^64 or more is not.
- SHA-256 (dfs.h:203-217): any function from block data to a number; zlib compression is not part of this model.
- Dfs.Store.Read: the cache (dfs.h:451-478, 512-523) has capacity 0. A hit continues the inner loop only and writes do
  not refresh entries, so cached bytes and blocks need not agree.
- Dfs.Store.CollectBlocks: without the cache, for the same reason.
- What happens after a copy has left its block or buffer: the model stops with the outcome `Overrun`, the file's size unchanged.
- FlatFiles.FlatFile.Write: leaves the bytes that realloc adds before the offset unspecified, as C does; the block store
  is compared with the flat write in which they are zero.
- Dfs.Store: file objects are passed to each call; the inode table, directories, deletion and replication are not modelled.
- Null-pointer checks (-EINVAL, -1), permissions, time stamps, statistics other than byte totals, and log output.
  The two results of `TrainPerceptron` stand for its log line.
- Locks and threads as operating-system objects: each function that holds a mutex throughout is one step.
- The reader/writer lock as loops: its functions are phases of `RwLock.Step`, since their loops run on what other threads do.
- That a waiting thread must get in: `DrainBound` bounds the readers' delay and `RwLockProgress` shows that everyone always
  can, but whether they do depends on the operating system's scheduling.
- The Lamport mutex's timeout (src/sync/sync.c:40-46) as a step of the protocol: `FinishAcquire` has it, and it lets any
  requester in, so runs are without it. The postponed reply is never sent, in the code as in the model. Messages may be
  delayed and reordered; a lost message is one that is never handled. Calls of one node do not overlap.
- `arrived_nodes` of the barrier: it is written and cleared but never read.
- FaultManagers.FaultManager.HandleNodeFailure: the replication of memory blocks (src/fault_tolerance/fault_manager.c:68-90)
  and the guard for a missing scheduler are not modelled; neither touches nodes, tasks or counters.
- `simulate_node_failure` and checkpoints: they set node states without the bookkeeping that the invariants rest on.
- Recovery.EveryRunKeepsInvariant: reports end tasks only, as a caller that reports a task as running bypasses the
  scheduler; heartbeats and new metrics do not change a node's status.
- SharedMemory.MemoryManager: blocks are values held in the array, so the pointer that C keeps in each place, and aliasing
  through it, is not captured. `replicate_memory_block` is not modelled.
- Discovery.NetworkManager.ProcessDiscoveryMessage: byte order, the response's contents, the load fields of `NodeInfo` and
  the send loop are not modelled; a packet says whether it is long enough.
- `failure_detector_thread` in decentralized_os.c, logistic regression, consensus and hash-index stubs, the system-call
  table, vector intrinsics, `/proc` parsing, sockets, command loops, demos and build scripts.
