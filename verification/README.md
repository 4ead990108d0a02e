# The lease protocol of the Radahn coordinator

Radahn hands jobs to workers. A coordinator keeps jobs and workers in two repositories, leases each job to a worker
for a limited time, renews leases with the worker's heartbeats, takes back what was abandoned, and recovers from
whatever its repositories hold after a crash. The job store is the truth. Two other pieces of state are caches of it:
the queue must be the set of queued records, and what is taken of each worker must be what its active jobs need. No
single function maintains this; it is spread over dispatch, finish, expiry, requeue and recovery, which loop over
stale copies, compensate for failed writes and partly bypass the job state machine. This project models those
operations and proves that the agreement holds over every run.

## How it is built

Each operation appears twice. As a function of values it is the specification: `Protocol` says, errors included, what
a coordinator call makes of the stored jobs, the stored workers and the queue; `Rpc` and `ServerRuns` say it of the
handlers and the monitor. As a method of an object it is the code's own algorithm: `Coordination.Coordinator`,
`Service.CoordinatorService`, the repositories in `Store`, `JobQueues.JobQueue`, `Policies.Policy`,
`Planning.DispatchPlanner`, `Workers.WorkerRecord` and `Jobs.JobObject` update fields in loops over copied snapshots and
compensate for rejected writes, and each method is proved against the function. The theorems are about the functions
and about runs of them; the public methods also promise to keep the invariant. What an operation does to the fields of
the records it touches is besides stated without these functions: by `Liveness.HeartbeatIsExact`,
`Scans.StaleCheckIsExact`, `Scans.ExpiryTakesBack`, `Draining.DispatchIsExact`, `Rpc.StartGrantsALease`,
`Rpc.FinishRecordsTheReport`, `Rpc.RegistrationIsStored`, `Recovery.RecoverLosesNothing`,
`Recovery.RestoredWorkersAreFree`, `Planning.PlanIsOneDecision`, `Policies.LeastLoadedIsBest`, and by the contracts of
the methods.

* `Errors`, `Ordering` - results, exceptions as values, the byte order of ids and the contract of the library sort.
* `JobStates`, `Jobs`, `Workers`, `Ledger` - the life cycle, jobs, eligibility and the resource ledger.
* `JobQueues`, `Policies`, `Planning` - the queue, the two policies and the search over (job, worker) pairs.
* `Store`, `Protocol` - the repositories, and what every coordinator call does.
* `Conservation`, `Preservation` - the invariant, and that every operation keeps it.
* `Recovery`, `Scans`, `Timing` - restarts, the monitor's scans, leases against heartbeats.
* `Runs`, `Histories`, `Draining` - whole runs, what can happen to one job in them, and repeated dispatching.
* `Liveness` - what happens to a worker over whole runs: who is thought online, and when it was heard of.
* `Rpc`, `ServerRuns`, `Coordination`, `Service` - the handlers, whole runs of the server, and the objects.
* `Reports`, `Tenure` - where outcomes come from, and what the server keeps to workers that are heard of in time.
* `Jams`, `Stoppages` - a lease that cannot be taken back, and how one worker can stop the monitor with it.

## Reading the contracts

* Every clock reading is a parameter, in integer milliseconds. CPU and load are exact reals; the release tolerance of
  0.000001 and the cap are kept. Byte counts, slots and counters are 64-bit, and the ledger object wraps as the
  machine does.
* An exception is a returned `Thrown`, with one constructor per place that throws. A repository write may be rejected
  without effect when the repository is not `reliable`; the repositories count rejected writes, and the contracts of
  the objects say what none, one and two of them during a call leave. Submission, dispatch, expiry, requeueing and
  finishing compensate for one, unless it is the compensation that is rejected; heartbeats, registrations and recovery
  undo nothing, and what they wrote before it stays. Reliable repositories reject none.
* An object's `Valid()` says only that ids are unique, so that the error paths stay open. A state is `Consistent` when
  records are well shaped and the queue agrees with the store. `Inv` adds that the ledgers of the workers with a
  baseline balance; a state is `Sound` when all workers have one. A restart resets the baselines to nothing in use.
* A crash may strike between operations or between the two writes of one; the scans and heartbeats may be cut short by
  a rejected write at any record.
* Only active jobs count towards a worker's load: a finished job keeps the id of the worker that finished it.
* The code does not require of a submitted job that it has an attempt left. All runs are of calls that do, as those of
  the submission handler; `Runs.AdmissibleIsExact` shows that consistency needs exactly that.
* Nor does it require of a worker that registers again that it reports what its active jobs need, and a worker whose
  process restarts reports nothing in use. The runs contain such calls. Consistency, bounded work, final outcomes,
  unique leases and the timing of leases survive them; the worker's own ledger does not, until a restart, and
  `Runs.SoundnessIsExact` shows that nothing else is needed for all ledgers to balance. What follows is stated by
  `Rpc.IdleRegistrationStrandsItsJob` and, for the whole cluster, by `Stoppages.StoppedStaysStopped`: once such a
  worker holds a second job, smaller than the one it was running, no monitor pass completes when that lease has run out,
  whatever the others call. This ends with a restart, or when the worker itself does more than start what it holds, send
  heartbeats, each of which puts the time off by a lease, and report on the job that it was running.

## Model

| member | source | states |
|---|---|---|
| `Runs.RunsKeepTheInvariant` | libs/coordinator/src/in_memory_coordinator.cpp:80-1266 | Over every run of coordinator calls, with rejected writes and crashes anywhere in it and whatever workers report: every ledger that is accounted for balances, that is, what is taken of the worker is its baseline plus the needs of the active jobs it holds; the queue holds the stored queued jobs, field for field; which of holder and lease a record has follows from its state |
| `Runs.RunsStayConsistent` | libs/coordinator/src/in_memory_coordinator.cpp:80-1266 | The same without the ledgers: unique ids, agreement of queue and store, and the shape of records survive every run that starts with them |
| `Runs.TruthfulWorkersAreAccountedFor` | apps/coordinator/main.cpp:635-642 | A worker that, whenever it registered again, reported no less than its active jobs need has a balancing ledger after every run, whatever the other workers reported |
| `Runs.EveryReachableStateIsSound` | libs/coordinator/src/in_memory_coordinator.cpp:56-78 | A coordinator started on any stores with unique ids stays consistent for ever after; the ledger of every worker that reported truthfully balances and never exceeds its capacity or slots; if all did, the state is sound |
| `Runs.AdmissibleIsExact` | libs/coordinator/src/in_memory_coordinator.cpp:80-128 | An event keeps a consistent state consistent if and only if it is not the acceptance of a job without attempts left |
| `Runs.SoundnessIsExact` | apps/coordinator/main.cpp:635-642 | An event keeps a sound state sound if and only if, besides, it is not a worker registering again with less than its active jobs need |
| `Runs.EventKeeps` | libs/coordinator/src/in_memory_coordinator.cpp:80-1095 | Each kind of event, also from states no call can reach, keeps consistency and every ledger that balanced, except that of a worker that then reports too little |
| `Runs.EventMoves` | libs/coordinator/src/in_memory_coordinator.cpp:353-387 | No event removes a record or changes what a job keeps for life; a live event moves a job along one edge of the life cycle, a restart along a path of edges; the attempt count grows by one at each accepted dispatch and at nothing else |
| `Liveness.EventMovesWorkers` | libs/coordinator/src/in_memory_coordinator.cpp:130-275 | No event moves a worker in the store or changes what it reported but its own registration; only its heartbeats, which bring it back from offline but not from draining or disabled, and the stale check change whether it is online; only its heartbeats change when it was heard of |
| `Liveness.RunsKeepMachines` | libs/coordinator/src/in_memory_coordinator.cpp:1097-1131 | Over every run, restarts included, a worker that does not register again keeps its id, totals, slots, GPU and tags |
| `Reports.EventMovesOutcomes` | libs/coordinator/src/in_memory_coordinator.cpp:1000-1095 | Each kind of event: a job succeeds if and only if it is an accepted report of success on it; it fails on an accepted report of failure, and otherwise only with all attempts used up; none requests a cancellation |
| `Histories.WorkIsAccountedFor` | libs/domain/src/job.cpp:177-197 | Over every run, a job's attempt count grows by its accepted dispatches, and every change of state uses up one unit of 4 * attempts left + rank of the state |
| `Histories.WorkPerJobIsBounded` | libs/domain/src/job.cpp:177-197 | A freshly submitted job is stored and queued as submitted, keeps all it was submitted with but its state and attempts, is dispatched at most max_attempts times and changes state at most 4 * max_attempts times, however many leases expire and however often the coordinator restarts |
| `Histories.OutcomesAreFinal` | libs/domain/src/job_state.cpp:38-41 | A job that has an outcome keeps it, unchanged, through every run, restarts included |
| `Reports.OutcomesAreReported` | libs/coordinator/src/in_memory_coordinator.cpp:1000-1095 | Over every run: a job has succeeded if and only if it had before or an accepted report of success on it was made; it fails when failure is reported, and otherwise only with all its attempts used up; it is cancelled only if that was requested before the run |
| `Reports.OutcomesAreAnswered` | apps/coordinator/main.cpp:934-990 | The same over every run of the server, of the reports of the holder that were answered with success, whatever writes are rejected and however often it restarts |
| `Recovery.RecoverEstablishes` | libs/coordinator/src/in_memory_coordinator.cpp:1097-1266 | From any stores with unique ids a restart establishes the whole invariant: nothing active, nothing waiting for a retry, no lease, all capacity free, and the queue is the queued records; workers keep what they reported, their state and their heartbeats |
| `Recovery.RecoverLosesNothing` | libs/coordinator/src/in_memory_coordinator.cpp:1133-1265 | From any stores, sound or not: no record is lost, attempts stay, an outcome stays with the worker that produced it, a job is queued if and only if it is still owed a try, and every change of state lies in the closure of the life cycle |
| `Recovery.RestoredWorkersAreFree` | libs/coordinator/src/in_memory_coordinator.cpp:1097-1131 | Recovery frees workers and changes nothing else about them: state, totals, slots, GPU, tags and heartbeats stay, also when a rejected write cuts it short |
| `Recovery.QueueFollowsTheStore` | libs/coordinator/src/in_memory_coordinator.cpp:1133-1265 | Jobs are queued in the order in which they are stored |
| `Recovery.CrashBetweenWritesIsACrashBefore` | libs/coordinator/src/in_memory_coordinator.cpp:945-955 | A crash between the worker write and the job write of a dispatch, a finish or an expiry cannot be told, after the restart, from a crash before the operation |
| `Recovery.MidwayWorkersAreTheFinalOnes` | libs/coordinator/src/in_memory_coordinator.cpp:945-955 | The workers at the crash in the lemma above are those that the completed dispatch, finish or expiry leaves |
| `Recovery.RecoveryResumes` | libs/coordinator/src/in_memory_coordinator.cpp:1097-1266 | A restart that crashed after any number of its own writes is completed by the next; in particular recovery is idempotent |
| `Scans.ExpiryIsExact` | libs/coordinator/src/in_memory_coordinator.cpp:277-412 | From any consistent state the expiry scan completes if and only if every worker, from the ledger it starts with, accepts what its expired jobs give back, as it does in a sound state; then no due lease survives, records that were not due are untouched, and a second scan at the same time changes and counts nothing |
| `Scans.ScanCompletesIff` | libs/coordinator/src/in_memory_coordinator.cpp:321-351 | The same for every prefix of the scan, with the ledgers that result |
| `Scans.ExpiredCountIsExact` | libs/coordinator/src/in_memory_coordinator.cpp:389-411 | The number reported is the number of active records that were due |
| `Scans.ExpiryTakesBack` | libs/coordinator/src/in_memory_coordinator.cpp:286-408 | On any stores, consistent or not, a completed expiry scan clears every due lease and no other, takes active jobs from their holders, to be cancelled if that was requested and retried otherwise, and changes nothing else of a record |
| `Scans.StaleCheckIsExact` | libs/coordinator/src/in_memory_coordinator.cpp:204-275 | An online worker is online after the stale check if and only if it was heard of less than the timeout ago; nothing else changes, and no other worker |
| `Scans.StaleCountIsExact` | libs/coordinator/src/in_memory_coordinator.cpp:204-275 | The stale check reports the number of online workers not heard of for the timeout |
| `Scans.RequeuedCountIsExact` | libs/coordinator/src/in_memory_coordinator.cpp:421-501 | The requeue scan reports the number of waiting jobs with an attempt left |
| `Scans.PassChecksEveryWorker` | apps/coordinator/main.cpp:1034-1049 | A monitor pass, completed or not, makes the stale check of every worker; beyond it only ledgers change |
| `Scans.PassReportsWhatChanged` | apps/coordinator/main.cpp:1034-1075 | The three numbers a completed pass reports are those of the workers that went offline, of the jobs that are active no longer, and of the jobs newly queued |
| `Scans.MonitorSettlesEveryDueJob` | apps/coordinator/main.cpp:1034-1049 | A monitor pass completes if and only if every worker accepts what its expired jobs give back; then each job whose lease was due or that waited for a retry is queued, failed or cancelled as its attempts and state dictate, every other job stays as it was, and an online worker is online still if and only if it was heard of in time; completed or not, consistency and balancing ledgers are kept |
| `Scans.StoppedPassRepeats` | apps/coordinator/main.cpp:1034-1049 | A pass that does not complete requeues nothing, leaves the record at which it stopped and all behind it as they were, and comes to the same when repeated |
| `Stoppages.StoppedIsReached` | apps/coordinator/main.cpp:635-638 | For any two jobs that fit an idle worker, the first of which needs more CPU: seven allowed handler calls, among them an idle registration while the first job runs, lead an empty server to the state below |
| `Stoppages.StoppedStaysStopped` | apps/coordinator/main.cpp:1034-1049 | From that state on, over all runs of the server without a restart in which that worker at most starts what it holds, sends heartbeats and reports on the first job, and whatever everybody else calls and whichever of their writes are rejected: no monitor pass completes once the lease has run out, its heartbeats each putting that time off by a lease |
| `Stoppages.NoPassCompletes` | apps/coordinator/main.cpp:1034-1049 | The same from every consistent state in which some lease is jammed: its holder is busy but has too little in use to give back what the job needs |
| `Stoppages.StoppedIsJammed` | libs/domain/src/worker_record.cpp:112-151 | The state that the seven calls reach is such a state: the second job, all that the ledger knows of, does not cover the first |
| `Jams.RunsKeepJam` | libs/coordinator/src/in_memory_coordinator.cpp:334-341 | A jam stays over every admissible run without a restart in which its holder at most sends heartbeats, starts what it holds and tries to finish the jammed job, and stops every pass after the lease, whatever its timeout |
| `Jams.EventKeepsJam` | libs/coordinator/src/in_memory_coordinator.cpp:80-1095 | Each kind of event of others leaves the jam as it is, and so do the holder starting another job and failing to finish this one; a heartbeat of the holder only moves the end of the lease |
| `Jams.ScanKeepsJam` | libs/coordinator/src/in_memory_coordinator.cpp:321-351 | The expiry scan does not get past the jammed record once its lease has run out, and before that leaves it and its holder alone |
| `Jams.JamStopsEveryPass` | apps/coordinator/main.cpp:1034-1049 | In a jammed state every pass after the lease throws |
| `Stoppages.SomeCastCanStop` | apps/coordinator/main.cpp:635-638 | There are such jobs and such a worker |
| `Timing.RunsKeepTimed` | libs/coordinator/src/in_memory_coordinator.cpp:194-200 | Over every run, whatever workers report, in which dispatch and start read a clock no earlier than the worker's stored heartbeat and stored heartbeats get their leases renewed, the lease of every active job reaches at least one lease duration beyond its holder's last heartbeat |
| `Timing.CutShortKeepsTimed` | libs/coordinator/src/in_memory_coordinator.cpp:169-200 | A heartbeat that a rejected write cut short keeps that exactly when the leases it did not come to are long enough already |
| `Timing.DispatchKeepsTimed` | libs/coordinator/src/in_memory_coordinator.cpp:945-955 | A dispatch keeps leases ahead if and only if it is refused or reads a clock not before the stored heartbeat of the worker |
| `Timing.StartKeepsTimed` | libs/coordinator/src/in_memory_coordinator.cpp:588-621 | So does a start, with the heartbeat of the holder of the job |
| `Timing.ExpiredHolderIsNotOnline` | apps/coordinator/main.cpp:1034-1049 | From any consistent state with leases ahead of heartbeats, and with a heartbeat timeout no longer than a lease, one monitor pass, completed or not, leaves the holder of every lease that ran out not online |
| `Timing.NoDispatchBeforeAnnouncement` | libs/coordinator/src/in_memory_coordinator.cpp:149-167 | A worker that is not online is given no job, in any run from any state, before it sends a heartbeat or registers again |
| `Timing.RunsGrantNoMore` | libs/coordinator/src/in_memory_coordinator.cpp:616-618 | Over every run no lease of a worker lasts longer than a full duration beyond its last heartbeat, dispatch or start |
| `ServerRuns.ServerRunIsARun` | apps/coordinator/main.cpp:622-642 | Every run of handler calls, monitor passes, rejected writes and restarts is a run of admissible coordinator events, so everything proved of those holds of the server; in particular it stays consistent |
| `ServerRuns.ServerKeepsOneLease` | apps/coordinator/main.cpp:759-792 | Over all runs of the server, whatever workers report, no worker has two leased jobs |
| `ServerRuns.TruthfulWorkersAreNotOvercommitted` | apps/coordinator/main.cpp:622-642 | From a restart on, over all runs of the server, a worker that always registered with enough is never committed beyond its capacity or slots |
| `ServerRuns.ServerHistories` | apps/coordinator/main.cpp:759-970 | Over all runs of the server each job's attempts and changes of state stay within its bound, and outcomes are final |
| `ServerRuns.LeasesOutliveHeartbeats` | apps/coordinator/main.cpp:706-708 | Over all runs of the server in which acquiring and starting read a clock no earlier than every heartbeat stored before, leases outlive their holders' heartbeats by the production lease of 15 s |
| `ServerRuns.ExpiredHoldersAreSilenced` | apps/coordinator/main.cpp:1007-1049 | From a restart on, whatever stores it found and whatever workers report: a monitor pass with the production timeout of 6 s, completed or not, leaves the holder of every lease that ran out not online |
| `ServerRuns.ExpiredJobsStayAway` | apps/coordinator/main.cpp:1034-1049 | A completed pass takes an expired job from its holder, which does not hold it again in any continuation before it sends a heartbeat or registers |
| `ServerRuns.LostWorkersAreReclaimed` | apps/coordinator/main.cpp:1034-1049 | From a restart on: once a worker made its last call at t, every completed pass at t + 15 s or later leaves it without a single active job |
| `ServerRuns.CallsGrantNoMore` | apps/coordinator/main.cpp:706-877 | Over all runs of the server no lease of a worker lasts beyond 15 s after its last call |
| `ServerRuns.SilentUntilAnnounced` | apps/coordinator/main.cpp:706-728 | A worker that is not online stays so, whatever else is called, until it sends a heartbeat or registers again |
| `ServerRuns.SilentWorkersAcquireNothing` | apps/coordinator/main.cpp:762-792 | An acquire by a worker that is not online changes nothing and answers with the lease it already has, if any |
| `ServerRuns.RestartsBeginAnew` | apps/coordinator/main.cpp:1007-1049 | A restart of a consistent server, wherever the process stopped: all ledgers balance, nothing is active or waits, every worker is what it reported, with its state and heartbeat, and the policy begins anew |
| `Tenure.WorkersHeardOfStayOnline` | apps/coordinator/main.cpp:1014-1049 | Over all runs of the server the stored heartbeat is that of the last heartbeat or registration, and an online worker that every monitor pass finds heard of less than 6 s ago is online throughout |
| `Tenure.MissedForSixSeconds` | apps/coordinator/main.cpp:1014-1049 | A monitor pass, completed or not, leaves an online worker online if and only if it was heard of less than 6 s ago, and takes it offline otherwise |
| `Tenure.HeartbeatBringsBack` | apps/coordinator/main.cpp:706-792 | A worker thought offline is back with its heartbeat: its next acquire is answered if and only if it has a leased job or some queued job fits it once it is online, and then with the first of these |
| `Tenure.WorkersHeardOfKeepTheirJobs` | apps/coordinator/main.cpp:1034-1049 | Over all runs of the server whose clocks follow, without a restart and without its own report on the job, a worker keeps a job it holds for as long as every monitor pass comes less than 15 s after it was heard of |
| `Tenure.WorkersHeardOfDeliver` | apps/coordinator/main.cpp:934-990 | If the ledgers balance after such a run, its report on a running job is accepted, and answered with the outcome it reported |
| `Rpc.AcquireIsIdempotent` | apps/coordinator/main.cpp:774-791 | After an acquire that answered with a job, every further acquire by that worker, at any time, answers with the same job, uses no attempt and changes nothing |
| `Rpc.AcquireAnswers` | apps/coordinator/main.cpp:762-792 | In a consistent state an acquire by a known worker never fails, and answers with a job if and only if one is leased to it or some queued job fits it: the leased one, or else the first queued job in running order that fits, leased and with one more attempt |
| `Rpc.StartIsIdempotent` | apps/coordinator/main.cpp:835-877 | Starting again a job that was started answers the same and changes nothing, lease included |
| `Rpc.RegistrationIsExact` | apps/coordinator/main.cpp:625-652 | Registering, for the first time or again, leaves a sound state if and only if the worker reports at least what its active jobs need |
| `Rpc.FinishIsAcceptedIff` | apps/coordinator/main.cpp:934-970 | In a consistent state the report on a running job by its holder is accepted if and only if the ledger of the holder takes back what the job needs |
| `Rpc.FinishRecordsTheReport` | apps/coordinator/main.cpp:926-990 | Only the holder of a running job can end it, and only with an outcome: success reported is stored and answered as success and failure as failure, the record keeps its holder and loses its lease, the ledger takes the needs back; every refusal has its reason and changes nothing |
| `Rpc.StartGrantsALease` | apps/coordinator/main.cpp:835-877 | Only the holder of a leased job starts it, with a full lease; a repeated start is answered the same and changes nothing |
| `Rpc.RegistrationIsStored` | apps/coordinator/main.cpp:622-652 | A worker that registers, for the first time or again, is stored with the tags, GPU, slots and resources it reports, online if it reported itself offline, and heard of at that time; its leases are renewed and nobody else is touched |
| `Rpc.AcquireResetsTheRing` | apps/coordinator/main.cpp:762-792 | An acquire asks the policy about its caller alone, so with round-robin each acquire that is sent a job leaves the stored index at 0, and no other acquire moves it |
| `Rpc.IdleRegistrationStrandsItsJob` | apps/coordinator/main.cpp:635-652 | A worker that registers as idle while it runs a job, which in a sound state it could finish before, cannot finish it any more, and each of its heartbeats, the registration's among them, gives that job another full lease |
| `Preservation.ReregisterKeeps` | apps/coordinator/main.cpp:635-638 | Overwriting a known worker touches no other ledger, and gives it a new baseline if it reports at least the load of its active jobs |
| `Preservation.ReportIsExact` | apps/coordinator/main.cpp:635-638 | Its own ledger balances afterwards, for some baseline, exactly when it does |
| `Planning.PlanSendsTheFirstRunnableJob` | libs/scheduler/src/dispatch_planner.cpp:12-39 | The planner decides nothing if and only if no queued job fits any worker; otherwise it sends the first job in running order that fits some worker, to a worker it fits |
| `Draining.PlannedDispatchApplies` | libs/coordinator/src/in_memory_coordinator.cpp:507-543 | In every consistent state a planned dispatch is applied: none of the error paths can be taken |
| `Draining.DrainingIsGreedy` | libs/coordinator/src/in_memory_coordinator.cpp:507-543 | Repeating dispatch until nothing is decided ends within the queue's length, sends jobs in strictly increasing running order, loses none, keeps consistency and balancing ledgers, and leaves no job that fits any worker |
| `Draining.ReservationsOnlyShrink` | libs/domain/src/worker_record.cpp:92-110 | A reservation makes no job runnable that was not |
| `JobQueues.PoppingYieldsTheOrder` | libs/scheduler/src/job_queue.cpp:50-118 | Popping until the queue is empty yields the sorted order, whatever the order in which the jobs were queued |
| `JobQueues.OrderedIsTheSortedPermutation` | libs/scheduler/src/job_queue.cpp:97-118 | The ordered jobs are the sorted permutation of the queue, and the only one |
| `JobQueues.RunsBeforeOrders` | libs/scheduler/src/job_queue.cpp:17-30 | On distinct ids the running order is a strict total order |
| `JobQueues.OrderedByUrgency` | libs/scheduler/src/job_queue.cpp:17-30 | In running order priorities never rise, among equals no job is younger than a later one, and what then decides is the byte order of the ids |
| `Policies.LeastLoadedIsBest` | libs/scheduler/src/least_loaded_policy.cpp:64-98 | Least-loaded selects a worker if and only if against every other eligible one it has fewer busy slots in proportion, or as many and more free CPU, or as much and more free memory, or as much and the smaller byte where the ids first differ |
| `Policies.BetterIffOutranks` | libs/scheduler/src/least_loaded_policy.cpp:20-56 | The comparison of the code, by quotients, is that comparison in whole numbers |
| `Policies.DecisionCountsTheEligible` | libs/scheduler/src/round_robin_policy.cpp:36-41 | Either decision names its policy and counts the distinct eligible workers; only least-loaded gives a score |
| `Policies.DecisionScoresTheLowestLoad` | libs/scheduler/src/least_loaded_policy.cpp:20-98 | The decision carries the selected load, which no eligible worker undercuts as an exact fraction, and the number of eligible workers |
| `Policies.BetterOrders` | libs/scheduler/src/least_loaded_policy.cpp:29-56 | On distinct ids the preference among workers is a strict total order |
| `Policies.DecisionForgetsOrder` | libs/scheduler/src/worker_filter.cpp:9-38 | A decision of either policy, and the policy state it leaves, do not depend on the order in which the workers were listed |
| `Policies.CandidatesForgetOrder` | libs/scheduler/src/worker_filter.cpp:28-37 | The candidates are sorted by id and do not depend on the order of the workers |
| `Policies.DecidesIffEligible` | libs/scheduler/src/round_robin_policy.cpp:18-41 | Either policy decides if and only if some worker is eligible, and then selects an eligible one |
| `Policies.RoundRobinCycles` | libs/scheduler/src/round_robin_policy.cpp:27-34 | While the same n workers stay eligible, call k selects position (start + k) mod n in id order |
| `Policies.RoundRobinIsFair` | libs/scheduler/src/round_robin_policy.cpp:27-34 | Any n consecutive calls select each of the n workers exactly once |
| `Policies.RoundRobinIsBalanced` | libs/scheduler/src/round_robin_policy.cpp:27-34 | In any window of calls two workers are selected equally often, give or take one |
| `Planning.PlansGoRound` | libs/scheduler/src/round_robin_policy.cpp:27-34 | Fairness of whole plans: whatever jobs come and go and whatever capacity changes, as long as the same n workers are eligible for the job that is sent, plan k sends it to position (start + k) mod n |
| `Planning.PlanIsOneDecision` | libs/scheduler/src/dispatch_planner.cpp:18-38 | A plan is, in every field, the decision of the policy about the one job it sends, and advances the policy by that decision alone; a plan that sends nothing leaves the policy as it was |
| `Ledger.CallsBalance` | libs/domain/src/worker_record.cpp:92-166 | Whatever reservations and releases are attempted, in whatever order and whichever are refused: what is in use is what was in use at first plus what is still held, everything held can be released, and releasing everything restores the starting record field for field |
| `Ledger.ReserveTakes` | libs/domain/src/worker_record.cpp:92-110 | A reservation is accepted exactly for an eligible worker and takes exactly what is needed |
| `Ledger.ReleaseReturns` | libs/domain/src/worker_record.cpp:112-166 | What is in use can be released, and exactly that much comes back |
| `Ledger.ReleaseIsAcceptedIff` | libs/domain/src/worker_record.cpp:112-166 | A release is accepted if and only if a job runs and the amounts are in use, CPU up to a millionth core; then exactly they come back, CPU cut at the total |
| `Ledger.EligibleIffItFits` | libs/domain/src/worker_eligibility.cpp:33-110 | A job may run if and only if the worker is online, has the GPU and tags asked for, and would stay within its capacity and slots with the job added to what is in use |
| `Ledger.ReleaseIsExactIffCovered` | libs/domain/src/worker_record.cpp:130-157 | An accepted release is exact if and only if it asks for no more CPU than is in use; otherwise the tolerance let it through and the cap cut it |
| `Ledger.UncoveredReleaseLosesCpu` | libs/domain/src/worker_record.cpp:130-157 | A concrete worker and amount for which a release that the tolerance let through, followed by a reservation of the same amount, loses capacity |
| `Coordination.Coordinator.SubmitJob` | libs/coordinator/src/in_memory_coordinator.cpp:80-120 | Stores and queues the job, or throws what the specification says; a rejected insertion changes nothing, and a refused enqueue takes the record out of the store again unless that write is rejected; soundness is kept for a job with attempts left |
| `Coordination.Coordinator.EnqueueStored` | libs/coordinator/src/in_memory_coordinator.cpp:103-119 | Queues the stored job; if the queue refuses, the store is as before the insertion unless the erasure was rejected |
| `Coordination.Coordinator.RegisterWorker` | libs/coordinator/src/in_memory_coordinator.cpp:122-128 | Adds the worker at the end of the store or throws, changing nothing |
| `Coordination.Coordinator.RecordWorkerHeartbeat` | libs/coordinator/src/in_memory_coordinator.cpp:130-202 | Brings the worker back online, stores the time and renews the leases of all its active jobs and of no others; one rejected write leaves one of three states, and the invariant is kept in each |
| `Coordination.Coordinator.ReviveWorker` | libs/coordinator/src/in_memory_coordinator.cpp:135-172 | An offline worker, and only an offline one, becomes online; the heartbeat is stored; nothing else about the worker changes |
| `Coordination.Coordinator.RenewLeases` | libs/coordinator/src/in_memory_coordinator.cpp:174-201 | Exactly the leases of the worker's active jobs move to the new time, up to the first rejected write |
| `Coordination.Coordinator.MarkStaleWorkersOffline` | libs/coordinator/src/in_memory_coordinator.cpp:204-275 | Takes offline exactly the online workers whose heartbeat is at least the timeout old, and reports how many |
| `Coordination.Coordinator.CheckWorker` | libs/coordinator/src/in_memory_coordinator.cpp:223-272 | One worker of that scan |
| `Coordination.Coordinator.MarkExpiredJobLeases` | libs/coordinator/src/in_memory_coordinator.cpp:277-412 | Performs the whole expiry scan and reports its count; with exactly one rejected write the failing record and its holder are as before and the earlier records fully processed; only the storage's exception comes with rejected writes |
| `Coordination.Coordinator.ExpireRecord` | libs/coordinator/src/in_memory_coordinator.cpp:286-408 | One record of that scan: with one rejected write nothing changed, with two the holder has given back what the record still holds |
| `Coordination.Coordinator.ReleaseHolderOf` | libs/coordinator/src/in_memory_coordinator.cpp:321-351 | Gives the holder its resources back if it is known and busy, and returns what is needed to undo that; a rejected write changes nothing |
| `Coordination.Coordinator.RequeueRetryWaitJobs` | libs/coordinator/src/in_memory_coordinator.cpp:414-505 | Requeues exactly the waiting jobs that have attempts left and fails the others; with a rejected write the earlier records are processed and the failing one as before, or, if the undoing write was the rejected one, left queued |
| `Coordination.Coordinator.RequeueRecord` | libs/coordinator/src/in_memory_coordinator.cpp:421-501 | One record of that scan, with its compensating write |
| `Coordination.Coordinator.DispatchOnce` | libs/coordinator/src/in_memory_coordinator.cpp:507-543 | Applies what the planner decides over all workers; exactly one rejected write leaves jobs, workers and (as a multiset) queue as before |
| `Coordination.Coordinator.DispatchOnceForWorker` | libs/coordinator/src/in_memory_coordinator.cpp:545-586 | The same for one worker, which must be known |
| `Coordination.Coordinator.ApplyDispatchDecision` | libs/coordinator/src/in_memory_coordinator.cpp:867-998 | Takes the job from the queue, reserves, leases, and stores worker then job; without a rejected write it ends as specified, with one everything is put back, with two the worker keeps the reservation |
| `Coordination.Coordinator.LeaseSelected` | libs/coordinator/src/in_memory_coordinator.cpp:918-955 | Attempt, reservation and lease all happen and are stored, or the job is back in the queue; which exception is thrown |
| `Coordination.TryLease` | libs/coordinator/src/in_memory_coordinator.cpp:918-933 | Attempt, reservation and lease on copies succeed exactly when an attempt is left, the job is queued and the worker is eligible |
| `Coordination.Coordinator.ReturnToQueue` | libs/coordinator/src/in_memory_coordinator.cpp:982-994 | Puts the stored job back at the end of the queue unless it is there or not queued |
| `Coordination.Coordinator.StoreLease` | libs/coordinator/src/in_memory_coordinator.cpp:1061-1081 | Worker write, then job write: both made, or one rejected and both stores as before, or the compensating write rejected too and the worker as written, the job as it was |
| `Coordination.Coordinator.MarkRunning` | libs/coordinator/src/in_memory_coordinator.cpp:588-621 | A leased, assigned job becomes running with a fresh lease; any other call throws and changes nothing |
| `Coordination.Coordinator.FinishJob` | libs/coordinator/src/in_memory_coordinator.cpp:1000-1095 | An active, assigned job gets its outcome, its holder its resources; one rejected write leaves both stores as before |
| `Coordination.Coordinator.MarkSucceeded` | libs/coordinator/src/in_memory_coordinator.cpp:623-630 | Finishing with success; one rejected write changes nothing, and the invariant is kept |
| `Coordination.Coordinator.MarkFailed` | libs/coordinator/src/in_memory_coordinator.cpp:632-639 | Finishing with failure; one rejected write changes nothing, and the invariant is kept |
| `Coordination.Coordinator.GetJob` | libs/coordinator/src/in_memory_coordinator.cpp:717-731 | The stored job under this id, if any |
| `Coordination.Coordinator.WorkerSnapshot` | libs/coordinator/src/in_memory_coordinator.cpp:823-837 | The stored worker under this id, if any |
| `Coordination.Coordinator.IsJobAssignedToWorker` | libs/coordinator/src/in_memory_coordinator.cpp:806-821 | Whether the stored record names this worker as its holder |
| `Coordination.Coordinator.LeasedJobForWorker` | libs/coordinator/src/in_memory_coordinator.cpp:775-804 | The first stored job that is leased to the worker |
| `Coordination.Coordinator.Open` | libs/coordinator/src/in_memory_coordinator.cpp:56-78 | A lease duration that is not positive is refused; otherwise the coordinator is the recovered one, sound and at rest, unless a write was rejected, in which case the stores are recovered in part |
| `Coordination.Coordinator.RecoverPersistedState` | libs/coordinator/src/in_memory_coordinator.cpp:1097-1266 | Performs the recovery, workers first; a rejected write leaves a prefix recovered |
| `Coordination.Coordinator.RestoreWorkers` | libs/coordinator/src/in_memory_coordinator.cpp:1099-1131 | Frees all capacity of every worker and changes nothing else about it |
| `Coordination.Coordinator.RecoverJobs` | libs/coordinator/src/in_memory_coordinator.cpp:1133-1265 | Recovers every record in store order and queues the queued ones in that order |
| `Coordination.Coordinator.RecoverRecord` | libs/coordinator/src/in_memory_coordinator.cpp:1136-1264 | One record of that loop |
| `Coordination.Coordinator.RecoverAbandoned` | libs/coordinator/src/in_memory_coordinator.cpp:1177-1225 | An abandoned attempt is queued again if attempts remain and failed otherwise |
| `Service.CoordinatorService.RegisterWorker` | apps/coordinator/main.cpp:625-652 | The registration handler: overwrites a known worker or adds a new one, then records a heartbeat; a sound state stays sound exactly when the worker reports enough; which states one rejected write can leave |
| `Service.CoordinatorService.Announce` | apps/coordinator/main.cpp:630-642 | Which of the two writes is made, and that a rejected one changes nothing |
| `Service.CoordinatorService.Heartbeat` | apps/coordinator/main.cpp:713-732 | An unknown worker is refused; a known one has its heartbeat recorded |
| `Service.CoordinatorService.AcquireJob` | apps/coordinator/main.cpp:762-791 | Answers with the leased job if there is one, else dispatches to this worker alone and answers with the result; on reliable stores, in a consistent state, it never fails for a known worker, and answers with a job exactly when one is leased or fits |
| `Service.CoordinatorService.StartJob` | apps/coordinator/main.cpp:835-877 | Refuses callers the job is not assigned to and jobs that are neither leased nor running; starts a leased one, leaves a running one alone |
| `Service.CoordinatorService.FinishJob` | apps/coordinator/main.cpp:924-980 | Refuses callers the job is not assigned to, jobs that do not run and reports without an outcome, in this order; otherwise finishes the job as reported; one rejected write changes nothing |
| `Service.CoordinatorService.MonitorPass` | apps/coordinator/main.cpp:1026-1049 | Stale check, expiry and requeue in this order under one lock, with the three counts; on reliable stores, from a sound state, it completes; one rejected write that ends it leaves a prefix of one of the scans; the invariant is kept |
| `Service.CoordinatorService.ReliableStoresRejectNothing` | libs/persistence/src/in_memory_job_repository.cpp:23-46 | On stores that reject nothing, as the in-memory ones, no rejected write is ever counted |
| `JobQueues.JobQueue.Enqueue` | libs/scheduler/src/job_queue.cpp:34-48 | Appends a queued job whose id is not there yet; otherwise throws and changes nothing |
| `JobQueues.JobQueue.PopNext` | libs/scheduler/src/job_queue.cpp:50-71 | Takes the first job in running order, leaving the others in running order |
| `JobQueues.JobQueue.Take` | libs/scheduler/src/job_queue.cpp:73-95 | Takes the job with this id and leaves the others in place |
| `JobQueues.JobQueue.OrderedJobs` | libs/scheduler/src/job_queue.cpp:97-118 | The queue in running order; the queue itself is untouched |
| `Planning.DispatchPlanner.Plan` | libs/scheduler/src/dispatch_planner.cpp:12-39 | The search over jobs in running order, with the policy state it leaves behind |
| `Policies.Policy.SelectWorker` | libs/scheduler/src/round_robin_policy.cpp:14-42 | The decision of the installed policy and its next index |
| `Policies.MinElement` | libs/scheduler/src/least_loaded_policy.cpp:78-90 | The candidate that the scan for the best one ends with |
| `Policies.FindEligibleWorkers` | libs/scheduler/src/worker_filter.cpp:9-38 | The eligible workers in id order |
| `Workers.EvaluateWorker` | libs/domain/src/worker_eligibility.cpp:33-110 | Reports every reason that applies, in order, with the missing tags; no reason if and only if the worker is eligible |
| `Workers.AddResourceFailures` | libs/domain/src/worker_eligibility.cpp:57-91 | The resource reasons, in the order of the checks |
| `Workers.AddMissingTags` | libs/domain/src/worker_eligibility.cpp:93-101 | The missing tags in the order required |
| `Workers.EligibilityResult.AddFailure` | libs/domain/src/worker_eligibility.cpp:7-11 | Appends a reason and nothing else |
| `Workers.EligibilityResult.AddMissingTag` | libs/domain/src/worker_eligibility.cpp:13-17 | Appends a tag and nothing else |
| `Workers.ReasonsAreExact` | libs/domain/src/worker_eligibility.cpp:33-110 | A reason is reported if and only if it applies, and none is reported if and only if the worker is eligible |
| `Workers.ReasonsComeInOrder` | libs/domain/src/worker_eligibility.cpp:33-110 | The reasons come in the order of the checks, each at most once |
| `Workers.MissingTagsAreExact` | libs/domain/src/worker_eligibility.cpp:93-101 | The missing tags are the required ones that the worker has not, as often as required |
| `Workers.MissingTagsCompose` | libs/domain/src/worker_eligibility.cpp:93-101 | They come in the order required: those of a list are those of its front followed by those of its rest |
| `Workers.WorkerRecord.CanReserve` | libs/domain/src/worker_record.cpp:67-74 | Agrees with eligibility on the record's own snapshot |
| `Workers.WorkerRecord.Reserve` | libs/domain/src/worker_record.cpp:92-110 | In wrapping 64-bit arithmetic, the exact reservation: no counter ever wraps; a refusal changes nothing |
| `Workers.WorkerRecord.Release` | libs/domain/src/worker_record.cpp:112-166 | In wrapping 64-bit arithmetic, the exact release with tolerance and cap: nothing wraps, and what is available stays within the total |
| `Workers.WorkerRecord.constructor` | libs/domain/src/worker_record.cpp:11-42 | A record holds what its snapshot says |
| `Jobs.Restore` | libs/domain/src/job.cpp:74-135 | A job is rebuilt from its fields exactly when the constructor accepts them, in whatever state |
| `Jobs.InState` | libs/coordinator/src/in_memory_coordinator.cpp:365-376 | Restoring a job's own fields in another state is never refused |
| `Jobs.JobObject.RecordAttempt` | libs/domain/src/job.cpp:183-197 | Counts an attempt of a queued job that has one left; otherwise throws and changes nothing |
| `Jobs.JobObject.TransitionTo` | libs/domain/src/job.cpp:199-208 | Moves along an edge of the life cycle; otherwise throws and changes nothing |
| `JobStates.TerminalIffStuck` | libs/domain/src/job_state.cpp:93-97 | The terminal states are exactly those from which no state can be reached |
| `JobStates.EntriesAreExact` | libs/domain/src/job_state.cpp:8-45 | The life cycle read backwards: from which states each state is entered |
| `JobStates.WaitsWorksOrIsOver` | libs/coordinator/src/in_memory_coordinator.cpp:839-848 | A job waits, occupies a slot, or is over, and exactly one of these |
| `Store.JobRepository.Insert` | libs/persistence/src/in_memory_job_repository.cpp:9-21 | Appends a record with a new id; otherwise throws and changes nothing |
| `Store.JobRepository.Update` | libs/persistence/src/in_memory_job_repository.cpp:23-46 | Replaces the one record with this id; otherwise throws and changes nothing |
| `Store.JobRepository.Get` | libs/persistence/src/in_memory_job_repository.cpp:48-70 | The record with this id, if any |
| `Store.JobRepository.List` | libs/persistence/src/in_memory_job_repository.cpp:72-75 | All records, in order |
| `Store.JobRepository.Erase` | libs/persistence/src/in_memory_job_repository.cpp:93-116 | Removes the one record with this id, leaving the others in place; otherwise throws and changes nothing |
| `Store.WorkerRepository.Insert` | libs/persistence/src/in_memory_worker_repository.cpp:10-25 | Appends a worker with a new id and the time; otherwise throws and changes nothing |
| `Store.WorkerRepository.Update` | libs/persistence/src/in_memory_worker_repository.cpp:27-56 | Replaces the worker with this id but not its heartbeat; otherwise throws and changes nothing |
| `Store.WorkerRepository.RecordHeartbeat` | libs/persistence/src/in_memory_worker_repository.cpp:115-140 | Replaces the heartbeat of this worker and nothing else; otherwise throws and changes nothing |
| `Store.WorkerRepository.Get` | libs/persistence/src/in_memory_worker_repository.cpp:58-80 | The worker with this id, if any |
| `Store.WorkerRepository.LastHeartbeat` | libs/persistence/src/in_memory_worker_repository.cpp:142-164 | The heartbeat of the worker with this id, if any |
| `Store.WorkerRepository.List` | libs/persistence/src/in_memory_worker_repository.cpp:82-97 | All workers, in order |
| `Conservation.ReleaseIsNeverRefused` | libs/domain/src/worker_record.cpp:112-151 | On a worker whose ledger balances an active job's holder is busy and can give back exactly what the job took |
| `Conservation.NoWorkerIsOvercommitted` | libs/domain/src/worker_record.cpp:92-110 | The jobs of a worker whose ledger balances never need more than it has, nor are there more of them than slots |
| `Preservation.SubmitKeeps` | libs/coordinator/src/in_memory_coordinator.cpp:80-120 | Submission keeps soundness if and only if it is refused or the job has an attempt left |
| `Preservation.NewcomersAreStored` | libs/coordinator/src/in_memory_coordinator.cpp:80-128 | Submission and first registration are refused to ids known already and to jobs not queued, each with its reason and changing nothing; otherwise the newcomer is added as it is, behind all others |
| `Preservation.PutBackIsQueueing` | libs/coordinator/src/in_memory_coordinator.cpp:982-994 | A job goes back behind the others if it is queued and not there yet, so that the queue keeps distinct queued jobs in their order |
| `Preservation.RegisterKeeps` | libs/coordinator/src/in_memory_coordinator.cpp:122-128 | A new worker may be partly used; what it uses becomes its baseline |
| `Preservation.HeartbeatKeeps` | libs/coordinator/src/in_memory_coordinator.cpp:130-202 | Heartbeats keep the invariant |
| `Preservation.PartialHeartbeatPreserves` | libs/coordinator/src/in_memory_coordinator.cpp:162-200 | A heartbeat that a rejected write cut short keeps the invariant all the same |
| `Preservation.MarkStaleKeeps` | libs/coordinator/src/in_memory_coordinator.cpp:204-275 | The stale check keeps the invariant |
| `Preservation.ExpireFirstKeeps` | libs/coordinator/src/in_memory_coordinator.cpp:277-412 | Every prefix of the expiry scan, stopped or not, keeps the invariant |
| `Preservation.ExpireFirstCompletes` | libs/coordinator/src/in_memory_coordinator.cpp:277-412 | Where all ledgers balance no prefix of the expiry scan is stopped |
| `Preservation.RequeueFirstKeeps` | libs/coordinator/src/in_memory_coordinator.cpp:414-505 | Every prefix of the requeue scan keeps the invariant and refuses nothing |
| `Preservation.PutBackKeeps` | libs/coordinator/src/in_memory_coordinator.cpp:982-994 | Rolling back a dispatch leaves workers, jobs and (as a multiset) queue as they were, and keeps the invariant |
| `Preservation.DispatchKeeps` | libs/coordinator/src/in_memory_coordinator.cpp:867-998 | Dispatching any pair of ids, planned or not, keeps the invariant |
| `Preservation.StartIsAcceptedIff` | libs/coordinator/src/in_memory_coordinator.cpp:588-621 | A start is accepted if and only if the job is known, held and leased; otherwise it is refused with the first of these reasons that applies and changes nothing |
| `Preservation.EndIsAcceptedIff` | libs/coordinator/src/in_memory_coordinator.cpp:1000-1095 | An end is accepted if and only if the job is known, held, in a state that may end so, and its holder is known and takes the needs back; a refusal changes nothing |
| `Preservation.StartKeeps` | libs/coordinator/src/in_memory_coordinator.cpp:588-621 | Starting keeps the invariant |
| `Preservation.FinishKeeps` | libs/coordinator/src/in_memory_coordinator.cpp:1000-1095 | Finishing keeps the invariant |
| `Preservation.QueuedJobIsStored` | libs/coordinator/src/in_memory_coordinator.cpp:881-905 | A queued job is the job of its record and has an attempt left |
| `Scans.ExpireFirstIsPointwise` | libs/coordinator/src/in_memory_coordinator.cpp:286-408 | After any prefix of the expiry scan each record is what expiry makes of it alone, or untouched, the latter within the prefix only if the scan was stopped |
| `Scans.RequeueFirstIsPointwise` | libs/coordinator/src/in_memory_coordinator.cpp:421-501 | The same for the requeue scan |
| `Scans.RequeueCompletes` | libs/coordinator/src/in_memory_coordinator.cpp:421-501 | Requeueing is never stopped in a consistent state |
| `Scans.RequeueCompletesIff` | libs/coordinator/src/in_memory_coordinator.cpp:421-501 | On any stores with unique ids the requeue scan completes if and only if no waiting record still has a holder or a lease or is in the queue already, and then appends the jobs with attempts left in store order |
| `Timing.EventKeepsTimed` | libs/coordinator/src/in_memory_coordinator.cpp:130-202 | Each kind of event keeps leases ahead of heartbeats |
| `Timing.HeartbeatKeepsTimed` | libs/coordinator/src/in_memory_coordinator.cpp:174-200 | A heartbeat renews every lease of its worker, so it may be of any time |
| `Timing.StaysSilent` | libs/coordinator/src/in_memory_coordinator.cpp:149-167 | Only a worker's own announcement brings it back online, in any run from any state |
| `Liveness.HeartbeatIsExact` | libs/coordinator/src/in_memory_coordinator.cpp:130-202 | A heartbeat is refused only to an unknown worker; it brings an offline worker back, stores its time, renews the leases of all its active jobs and touches nothing else |
| `Liveness.PartOfAHeartbeatIsExact` | libs/coordinator/src/in_memory_coordinator.cpp:130-202 | What one that a rejected write cut short has done of that |
| `Liveness.PunctualWorkersStayOnline` | libs/coordinator/src/in_memory_coordinator.cpp:204-275 | Over every run the stored heartbeat is the last one sent, and an online worker heard of within the timeout of every stale check is never taken offline |
| `Liveness.MissedWorkersGoOffline` | apps/coordinator/main.cpp:1034-1049 | A monitor pass leaves an online worker online if and only if it was heard of less than the timeout ago |
| `Timing.StaysAway` | libs/coordinator/src/in_memory_coordinator.cpp:367-383 | No run gives a job back to a silent worker that does not announce itself |
| `Timing.PassReclaims` | apps/coordinator/main.cpp:1034-1049 | A completed pass takes every job away from a worker whose leases have run out |
| `ServerRuns.CallIsARun` | apps/coordinator/main.cpp:622-652 | Each handler call and each monitor pass is a run of admissible coordinator events |
| `ServerRuns.CallKeepsOneLease` | apps/coordinator/main.cpp:774-791 | Each call keeps it that no worker has two leased jobs |
| `Rpc.DispatchForAnswers` | libs/coordinator/src/in_memory_coordinator.cpp:545-586 | Dispatch to one worker never fails in a consistent state, and leases it a job if and only if some queued job fits it: the first of these in running order |
| `Draining.EligiblePairApplies` | libs/coordinator/src/in_memory_coordinator.cpp:867-955 | Any queued job and any stored worker eligible for it can be brought together |
| `Draining.DispatchIsExact` | libs/coordinator/src/in_memory_coordinator.cpp:867-998 | In a consistent state a dispatch succeeds if and only if the job is queued, the worker known and the job may run on it: the job is leased at the cost of one attempt, with a full lease, and its needs are reserved; otherwise the stores are as before |
| `Planning.PlanAlongIsFirst` | libs/scheduler/src/dispatch_planner.cpp:18-38 | The search stops at the first job that fits some worker |
| `Ordering.LexLessIsFirstDifference` | libs/scheduler/src/job_queue.cpp:29 | Ids compare at the first position where they differ; a proper prefix comes first |
| `Ordering.SortIsCanonical` | libs/scheduler/src/job_queue.cpp:106-115 | Sorting by a strict total order forgets the order of the input |
| `Ordering.WithoutLeavesTheOthers` | libs/scheduler/src/job_queue.cpp:73-95 | Erasing an element leaves the others in their order |
| `Policies.HitsInClosedForm` | libs/scheduler/src/round_robin_policy.cpp:27-34 | How many of the first m positions on a ring of n fall on a given one |

## Left out

- SQLite repositories, their schema and their transactions: a write is one atomic step that succeeds or is rejected without effect.
- gRPC: message conversion, argument validation before the lock is taken, the mapping of exceptions to status codes, server start-up and shutdown.
- Threads: each handler body under the mutex, and each monitor pass, is one step; the endless monitor loop and its one-second sleep are a sequence of passes in a run.
- The submission handler's id generation; submission is the coordinator call it makes.
- Worker processes, the command-line client and their loops.
- Rounding of IEEE arithmetic: CPU amounts and loads are exact reals.
- Workload kinds other than their duration, which is carried through unchanged, as is the job's name.
- Job listing for display and the counters of queued, active and finished jobs: reports that no operation reads.
- The constructor that makes its own in-memory repositories: it is `Open` on two empty reliable ones.
- The exceptions for a worker without a heartbeat and for a job that disappeared under the lock: the stores cannot express the first, and the lock rules out the second.
- `std::sort`, `std::find_if` and `std::min_element` enter by what they promise; the scan of `pop_next`, which the code spells out, is proved as a loop.
- Jobs and worker records in the repositories are values, since the code copies them in and out; objects exist for the copies it mutates.
- The policy interface is a choice between the two policies the repository has.
- Coordination.Coordinator.RecordWorkerHeartbeat: when a write is rejected midway nothing undoes the renewals made before it, in the code or here; the contract says what such a call leaves, and `Timing.CutShortKeepsTimed` when leases are still long enough.
- Jams.RunsKeepJam: leaves out heartbeats of the holder itself that were cut short; with some of its leases renewed and some not, another record of its can expire first, and the jam need not stay.
- Coordination.Coordinator.ApplyDispatchDecision: when the compensating write is rejected too, the worker stays booked for a job it does not hold until the next restart; the contract says so, and the runs contain single rejected writes only.
- Coordination.Coordinator.MarkExpiredJobLeases: the same, for the record at which the scan stopped.
- Coordination.Coordinator.FinishJob: the same.
- Coordination.Coordinator.SubmitJob: a rejected erasure leaves the record stored but not queued.
- Tenure.WorkersHeardOfKeepTheirJobs: makes the assumption on clocks that follows next.
- Tenure.WorkersHeardOfDeliver: assumes balancing ledgers at the end of the run; `Rpc.FinishIsAcceptedIff` says what decides without them.
- ServerRuns.ExpiredHoldersAreSilenced: assumes that acquiring and starting read a clock no earlier than every heartbeat stored before, as one clock that does not go back guarantees, and that no heartbeat which a rejected write cut short left a lease shorter than `Timing.CutShortKeepsTimed` asks for.
