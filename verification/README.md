# Schedulers, servers and the simulation engine of PARTSim

PARTSim simulates real-time systems by discrete events: tasks, the servers that bound what tasks may
consume, the kernels that place them on CPUs, and the engine that runs it all. This project models
the algorithms at its core and proves what they are for.

- **Admission** (`Demand`, `SchedRta`, `SchedPoints`, `SchedPointSupervisor`, `Agreement`). Two supervisors
  decide whether a server may have a larger budget. `SchedRTA` iterates response times and bisects;
  `SchedPoint` reduces the time line to a few scheduling points, turns them into normalised linear
  constraints and reads the answer off in closed form. Both are proved exact against one
  specification (server i is schedulable when the demand of servers 0..i is met somewhere in its
  period), hence equal: they grant the same increment, and over whole sequences of requests they part
  exactly when one takes a budget below 1.
- **Global scheduling** (`KernelState`, `KernelProofs`, `KernelRuns`, `ReadyQueue`, `MrtKernel`). The
  multiprocessor kernel is a state machine over arrivals, dispatches, suspensions, endings and the begin
  and end events of context switches, with arbitrary delays. Each method of the kernel is tied to its step;
  every run keeps the invariant; at rest the first min(n, length) ready tasks are the ones running;
  left alone the kernel comes to rest within two events per CPU; and in any run what it remembers of a
  task that does not run is the CPU on which it last did, from which migrations are charged.
- **Servers** (`ServerStatus`, `CapacityTimer`, `CbServer`, `Grub`). Budget, virtual time and deadline of the
  constant bandwidth server stay tied through preemption, release and replenishment; a hard server
  never exceeds Q per started period. Under greedy reclamation the re-rating of all servers changes
  no account, budgets never go negative, and no server is cut short of its own budget.
- **The engine** (`Simulation`). The event queue and its loop are causal: the clock never goes back, each
  step runs the least event, and a normal return of `run_to` leaves nothing overdue: every post due by
  then, made before or during the run, has been run at its time, or withdrawn by a handler.
- **Resources and random numbers** (`FcfsResManager`, `RandomGen`). Grants are the requests in their
  order, and units are conserved; the generator is multiplication by 16807 modulo 2^31 - 1, computed
  within 32 bits, and never reaches zero.

Objects whose fields the program updates are classes; their invariants are `Valid`, `Fair` or
`Registered`, and each method states the new state in terms of the old one. What an invariant gives
is stated by lemmas. Time and budgets are integers and the program's `double` values are reals, so
rounding is not modelled. Durations of context switches, the instants at which things happen and
what event handlers do are parameters, over which everything is quantified.

Where the code and its comments differ the code is followed: events with equal time and priority run
in order of insertion, not of address; and dropping an event that is not queued can remove another
one (`DropUnqueued` says exactly when).

## Model

| member | source | states |
|---|---|---|
| Demand.PositiveInstant | librtsim/schedpoints.cpp:145-202 | with positive budgets a server is schedulable iff its demand is met at some t in (0, P]; the origin never decides |
| Demand.SchedulableAntitone | librtsim/schedrta.cpp:52-74 | smaller budgets anywhere keep a server schedulable |
| Demand.HigherServersUnaffected | librtsim/schedrta.cpp:52-74 | changing a budget leaves the schedulability of every higher-priority server as it was, so testing from i down suffices |
| Demand.AdmitsAntitone | librtsim/schedrta.cpp:76-92 | if a budget is admissible so is every smaller one, which is what bisection relies on |
| Demand.GrantedIsLargest | librtsim/schedrta.cpp:101-115 | the specified increment is the largest one, up to the request, that keeps every server schedulable |
| Demand.GrantedByTests | librtsim/schedrta.cpp:101-115 | an increment that is admissible and is the whole request, or whose successor is not admissible, is the specified one |
| SchedRtaSupervisor.SchedRTA.NextResponseTime | librtsim/schedrta.cpp:36-40 | one turn of the loop computes the level-i demand with exact ceilings |
| SchedRtaSupervisor.SchedRTA.ComputeResponseTime | librtsim/schedrta.cpp:31-43 | terminates; the result is within the period iff the server is schedulable, and is then the least instant, and a fixed point, at which its demand is met |
| SchedRtaSupervisor.StaysBelow | librtsim/schedrta.cpp:34-41 | the iteration never passes an instant at which the demand is met |
| SchedRtaSupervisor.SchedRTA.UpdateResponseTimes | librtsim/schedrta.cpp:45-50 | every stored response time is within its period iff that server is schedulable, and is then the least instant at which its demand is met; budgets and periods stay |
| SchedRtaSupervisor.SchedRTA.TryBudget | librtsim/schedrta.cpp:52-74 | true iff server i and all below it are schedulable with the budget tried; every budget is left as it was found |
| SchedRtaSupervisor.SchedRTA.SearchBetween | librtsim/schedrta.cpp:76-92 | bisection ends in its interval at a budget that passes while the next one does not, but for the ends, and leaves all budgets as found; on an interval the wrong way round it ends at the lower end, when its middle passes |
| SchedRtaSupervisor.EndsLower | librtsim/schedrta.cpp:87-91 | on an interval the wrong way round with a middle that passes, so is what is left below it |
| SchedRtaSupervisor.NeverEnds | librtsim/schedrta.cpp:87-91 | on one with a failing middle the search goes on for ever: what is left is again the wrong way round with a failing middle |
| SchedRtaSupervisor.SchedRTA.SearchBudget | librtsim/schedrta.cpp:94-99 | from a schedulable set, the result is the largest admissible budget of the server, and no larger one is admissible; it is never above the period |
| SchedRtaSupervisor.SchedRTA.ChangeBudget | librtsim/schedrta.cpp:101-115 | from a schedulable set, grants exactly the largest admissible increment up to the request and installs it, changing nothing else; a request that is not positive is granted in full to a server whose budget is within its period; the new budget is at most the period |
| SchedulingPoints.PointsInWindow | librtsim/schedpoints.cpp:103-143 | every scheduling point lies in (0, D], and D is one |
| SchedulingPoints.SetP | librtsim/schedpoints.cpp:103-143 | the append, sort and remove-repetitions loops return, strictly ascending, exactly the recursively defined scheduling points |
| SchedulingPoints.CoveredStep | librtsim/schedpoints.cpp:113-130 | one turn of the outer loop replaces a level of the recursion by the points appended |
| SchedulingPoints.Sort | librtsim/schedpoints.cpp:134-134 | ascending, and a permutation of the input |
| SchedulingPoints.WithoutRepetition | librtsim/schedpoints.cpp:135-139 | strictly ascending with the same elements |
| SchedulingPoints.PointsDominate | librtsim/schedpoints.cpp:103-143 | if the higher-priority servers are schedulable, every instant up to b is matched in slack by a scheduling point of b |
| SchedulingPoints.DominateEarly | librtsim/schedpoints.cpp:116-122 | the case of an instant before the last release of server k-1 that b can see |
| SchedulingPoints.DominateLate | librtsim/schedpoints.cpp:116-122 | the case of an instant after it |
| SchedulingPoints.PassingIsSchedulable | librtsim/schedpoints.cpp:145-202 | passing at a scheduling point is being schedulable |
| SchedulingPoints.SchedulableIsPassing | librtsim/schedpoints.cpp:145-202 | a schedulable server below schedulable servers passes at one of its scheduling points |
| SchedulingPoints.ReducedPointsExact | librtsim/schedpoints.cpp:103-143 | the reduction loses nothing: all servers pass at some scheduling point iff all pass somewhere in (0, P] |
| SchedPointSupervisor.SchedPoint.AddServer | librtsim/schedpoints.cpp:9-20 | appends period and budget, and the server is found at their index |
| SchedPointSupervisor.SchedPoint.CountActivations | librtsim/schedpoints.cpp:174-182 | a row of activation counts: ceilings above the diagonal server, 1 for it, 0 below |
| SchedPointSupervisor.SchedPoint.BuildRow | librtsim/schedpoints.cpp:168-191 | the row is that of the normalised demand test of the server at the point |
| SchedPointSupervisor.SchedPoint.BuildMatrix | librtsim/schedpoints.cpp:167-195 | one such row for each scheduling point |
| SchedPointSupervisor.SchedPoint.BuildConstraints | librtsim/schedpoints.cpp:145-202 | one such matrix for each server, over exactly its scheduling points |
| SchedPointSupervisor.RowIsDemandTest | librtsim/schedpoints.cpp:187-190 | row times utilisations is at most 1 iff the integer demand test holds at the point |
| SchedPointSupervisor.ConstraintsAreSchedulability | librtsim/schedpoints.cpp:145-202 | the constraints hold of the utilisations iff every server is schedulable |
| SchedPointSupervisor.RowRaised | librtsim/schedpoints.cpp:238-246 | a row that holds, with a positive coefficient for the server, still holds after a raise iff the raise is within the row's room |
| SchedPointSupervisor.MatrixRaised | librtsim/schedpoints.cpp:249-254 | a matrix still has a row that holds after a raise iff the raise is within the largest room |
| SchedPointSupervisor.OwnRoomWithinOne | librtsim/schedpoints.cpp:241-246 | the room in the server's own matrix is at most 1, so the sentinel 100000000 never decides |
| SchedPointSupervisor.SensitivityExact | librtsim/schedpoints.cpp:207-268 | the sensitivity lies in [0, 1], and raising the server's utilisation by delta >= 0 keeps the constraints iff delta is at most the sensitivity |
| SchedPointSupervisor.SchedPoint.MatrixSensitivity | librtsim/schedpoints.cpp:225-256 | the loops compute the largest room of the matrix, at least 0 |
| SchedPointSupervisor.SchedPoint.Minimum | librtsim/schedpoints.cpp:258-267 | a member of the vector that no member is below |
| SchedPointSupervisor.SchedPoint.Sensitivity | librtsim/schedpoints.cpp:207-268 | from a schedulable set, exactly the raises up to the result keep it schedulable |
| SchedPointSupervisor.RaiseIsAdmission | librtsim/schedpoints.cpp:51-69 | raising the utilisation by db/P keeps the constraints iff the budget Q + db is admissible |
| SchedPointSupervisor.GrantIsSensitivity | librtsim/schedpoints.cpp:51-63 | the request, cut to the floor of sensitivity times period, is the largest admissible increment |
| SchedPointSupervisor.SchedPoint.LimitIncrease | librtsim/schedpoints.cpp:51-63 | from a schedulable set, a positive request is cut to the largest admissible increment |
| SchedPointSupervisor.SchedPoint.ChangeBudget | librtsim/schedpoints.cpp:38-71 | grants that increment and installs it, never below 1; a request that is not positive is always granted in full; only this server's budget and utilisation change; an unknown server reads as the first |
| Agreement.StepsKeepSchedulable | librtsim/schedpoints.cpp:65-69 | one request keeps all servers schedulable under either supervisor, including the clamp at 1 |
| Agreement.RtaRunKeepsSchedulable | librtsim/schedrta.cpp:101-115 | the budgets after any sequence of requests to response-time analysis keep every server schedulable |
| Agreement.PointRunKeepsSchedulable | librtsim/schedpoints.cpp:65-69 | so do those after any sequence of requests to the scheduling points, and they stay at least 1 |
| Agreement.RunsAgree | librtsim/schedpoints.cpp:38-95 | from the same schedulable state the two sequences of budgets are equal after every request iff no request takes a budget below 1 |
| Agreement.RunsCanPart | librtsim/schedpoints.cpp:65-69 | a request after which one supervisor holds a budget of 0 and the other of 1 |
| Agreement.RtaRequests | librtsim/schedrta.cpp:101-115 | a supervisor asked any sequence of requests holds the budgets of that run, as long as none is negative |
| Agreement.PointRequests | librtsim/schedpoints.cpp:38-71 | a supervisor asked any sequence of requests holds the budgets of that run |
| Agreement.AskBothAll | librtsim/schedpoints.cpp:38-71 | any sequence of requests put to both, from the same schedulable state, leaves them with equal budgets if none takes a budget below 1 |
| Agreement.AskBoth | librtsim/schedrta.cpp:101-115 | one request put to both, in the same schedulable state, is granted the same increment |
| ReadyQueue.PrecedesIsOrder | librtsim/scheduler/scheduler.cpp:38-48 | the comparison by priority, insertion time and number is a strict order, total on tasks of different numbers; `OrderOfQueue` says which way it runs |
| ReadyQueue.OrderOfQueue | librtsim/scheduler/scheduler.cpp:38-48 | along the queue priority values do not fall; at equal priority insertion times do not fall; when both are equal task numbers rise |
| ReadyQueue.Scheduler.EnqueueModel | librtsim/scheduler/scheduler.cpp:91-96 | registers a task, or fails when it is registered already |
| ReadyQueue.Scheduler.Insert | librtsim/scheduler/scheduler.cpp:121-136 | puts the task in its place of the sorted queue, stamped and active, the rest in its order; fails when unregistered |
| ReadyQueue.Scheduler.Extract | librtsim/scheduler/scheduler.cpp:138-147 | takes exactly that task out, or nothing when it is not queued; fails when unregistered |
| ReadyQueue.TaskNByRank | librtsim/scheduler/scheduler.cpp:219-230 | the n-th task of the queue is exactly the queued one with n queued tasks ahead of it in the scheduler's order |
| ReadyQueue.InsertionSorted | librtsim/scheduler/scheduler.cpp:121-136 | insertion before the first task that does not precede keeps the queue sorted |
| ReadyQueue.ExtractionSorted | librtsim/scheduler/scheduler.cpp:138-147 | extraction keeps it sorted and removes that task only |
| KernelProofs.OpenSize | librtsim/mrtkernel.cpp:221-288 | the CPUs that host none of the first min(n, length) tasks exceed those of these tasks that wait by n minus min(n, length) |
| KernelProofs.EnoughToDeschedule | librtsim/mrtkernel.cpp:268-285 | while tasks wait and the free CPUs are used up, a dispatched task lies further down the queue: the error for not finding one cannot occur |
| KernelProofs.SelectionSettles | librtsim/mrtkernel.cpp:221-288 | dispatching on as many distinct such CPUs as tasks wait establishes the scheduling invariant, whatever held of it before |
| KernelProofs.DispatchOnCoherent | librtsim/mrtkernel.cpp:190-219 | dispatching on a CPU, even in the middle of its context switch, keeps the kernel coherent |
| KernelProofs.VacateKeepsInv | librtsim/mrtkernel.cpp:174-188 | a running task leaving queue and CPU keeps the invariant |
| KernelProofs.WithoutKeepsInv | librtsim/mrtkernel.cpp:159-172 | so does a task on no CPU leaving the queue |
| KernelProofs.FirstUndispatchedOughtToRun | librtsim/mrtkernel.cpp:305-311 | the task a begin event takes is always among the first n |
| KernelProofs.BeginKeepsInv | librtsim/mrtkernel.cpp:290-327 | a begin event keeps the invariant, whatever the delay |
| KernelProofs.EndKeepsInv | librtsim/mrtkernel.cpp:329-348 | so does an end event |
| KernelProofs.AdvanceKeepsInv | librtsim/mrtkernel.cpp:190-219 | so does the passing of time up to the earliest queued event |
| KernelProofs.AtRestDispatched | librtsim/include/rtsim/mrtkernel.hpp:426-430 | with no begin event queued the dispatched tasks are exactly the first min(n, length) |
| KernelProofs.AtRestRunning | librtsim/include/rtsim/mrtkernel.hpp:426-430 | with no CPU switching either they are exactly the running ones, each on a CPU of its own |
| KernelRuns.SuspendKeepsInvIff | librtsim/mrtkernel.cpp:159-172 | suspending keeps the invariant iff the task is not in the middle of its context switch |
| KernelRuns.MidSwitchIsReached | librtsim/mrtkernel.cpp:159-172 | a run that reaches such a state, from which suspending breaks the invariant |
| KernelRuns.NextKeepsInv | librtsim/mrtkernel.cpp:152-348 | every step keeps the invariant: time, arrival, dispatch on its own, suspension, ending, begin and end events |
| KernelRuns.RunKeepsInv | librtsim/mrtkernel.cpp:152-348 | every state of every run satisfies it |
| KernelRuns.InitialInv | librtsim/mrtkernel.cpp:131-140 | a kernel just set up satisfies it |
| KernelRuns.GlobalScheduling | librtsim/include/rtsim/mrtkernel.hpp:426-430 | in every state of every run: coherence; with no begin event queued the dispatched tasks are the first min(n, length); at rest these are exactly the running ones |
| KernelRuns.Settles | librtsim/mrtkernel.cpp:290-348 | left alone the kernel goes through at most two dispatch events per CPU, and is at rest exactly when it has gone through those its state calls for |
| KernelRuns.Progress | librtsim/mrtkernel.cpp:290-348 | a kernel not at rest can always go on to its earliest dispatch event |
| KernelRuns.DispatchAllTimes | librtsim/mrtkernel.cpp:190-219 | dispatching on several CPUs queues their begin events, each for now or for the end of the switch in progress there, and no other |
| KernelRuns.StoppingIsRemembered | librtsim/mrtkernel.cpp:159-188 | a task that a step takes off its CPU is remembered with that CPU |
| KernelRuns.LastCpuIsRemembered | librtsim/mrtkernel.cpp:290-327 | in any run, a task that ran on a CPU and has run nowhere since is remembered with that CPU, the one a migration is measured from |
| KernelRuns.RememberedHasRun | librtsim/mrtkernel.cpp:290-327 | from a kernel that remembers nothing, every CPU remembered of a task is one on which it has run |
| MrtKernel.MRTKernel.GetProcessor | librtsim/mrtkernel.cpp:350-358 | a CPU that runs the task, or none when there is none |
| MrtKernel.MRTKernel.IsDispatched | librtsim/mrtkernel.cpp:115-121 | whether some task is dispatched to the CPU |
| MrtKernel.MRTKernel.GetNextFreeProc | librtsim/mrtkernel.cpp:123-129 | the first CPU from there on that runs nothing and has nothing dispatched to it |
| MrtKernel.MRTKernel.CountNewTasks | librtsim/mrtkernel.cpp:228-238 | the number of tasks among the first n that have no CPU |
| MrtKernel.MRTKernel.DispatchCpu | librtsim/mrtkernel.cpp:190-219 | queues the CPU's begin event, now or at the end of the switch in progress, whose end event is withdrawn and whose task is let go |
| MrtKernel.MRTKernel.NextToDeschedule | librtsim/mrtkernel.cpp:268-285 | finds the next dispatched task past position n; the error branch is dead |
| MrtKernel.MRTKernel.Dispatch | librtsim/mrtkernel.cpp:221-288 | dispatches on distinct CPUs, the free ones first and then those of tasks past position n, as many as tasks wait; a begin event is queued for each, now or at the end of the switch in progress, and for no other |
| MrtKernel.MRTKernel.OnArrival | librtsim/mrtkernel.cpp:152-157 | is the arrival step, and fails for an unregistered task |
| MrtKernel.MRTKernel.Activate | librtsim/kernel.cpp:101-105 | inserts the task without dispatching: the kernel stays coherent |
| MrtKernel.MRTKernel.Suspend | librtsim/mrtkernel.cpp:159-172 | is the suspension step, keeping the invariant; a task that runs is remembered with its CPU, which becomes free and is dispatched on; one that does not leaves every CPU alone |
| MrtKernel.MRTKernel.LeaveCpu | librtsim/mrtkernel.cpp:159-188 | a running task that has left the queue leaves its one CPU, which is remembered and dispatched on |
| MrtKernel.MRTKernel.OnEnd | librtsim/mrtkernel.cpp:174-188 | is the ending step: the task is remembered with its CPU, which becomes free and is dispatched on; fails, changing nothing, iff the task runs nowhere |
| MrtKernel.MRTKernel.FirstNotDispatched | librtsim/mrtkernel.cpp:305-311 | the first task of the queue that is not dispatched, or none |
| MrtKernel.MRTKernel.Deschedule | librtsim/mrtkernel.cpp:293-303 | the task leaves the CPU, which is remembered as the one it last ran on, and is no longer dispatched |
| MrtKernel.MRTKernel.StartSwitch | librtsim/mrtkernel.cpp:305-326 | starts the switch to that task, which pays for the migration iff it last ran on another CPU |
| MrtKernel.MRTKernel.OnBeginDispatchMulti | librtsim/mrtkernel.cpp:290-327 | is the begin-event step, keeping the invariant; the task preempted is remembered with this CPU; the first task of the queue not dispatched is taken; its end event is queued after the delay of a context switch, and of a migration iff the CPU remembered of it is another one |
| MrtKernel.MRTKernel.OnEndDispatchMulti | librtsim/mrtkernel.cpp:329-348 | is the end-event step, keeping the invariant: the task of the switch, if any, runs |
| MrtKernel.FirstTasksRun | librtsim/mrtkernel.cpp:221-288 | at rest the task at position i of the queue runs iff there are more than i CPUs |
| MrtKernel.OnlyReadyTasksRun | librtsim/mrtkernel.cpp:221-288 | at rest every running task is in the queue and runs on one CPU only |
| MrtKernel.HighestPriorityRun | librtsim/mrtkernel.cpp:221-288 | at rest every running task has a lower priority value than any ready task that does not run, or the same and an earlier insertion, or both the same and a lower number |
| CapacityTimers.ClockIsContinuous | librtsim/capacitytimer.cpp:20-33 | stopping and restarting at any speed never makes the value jump |
| CapacityTimers.InterceptIsExact | librtsim/capacitytimer.cpp:35-38 | a falling clock is still at or above v at the intercept and below it one tick later; the intercept is negative iff it is below already |
| CapacityTimers.CapacityTimer.Start | librtsim/capacitytimer.cpp:20-25 | runs from the present at the given speed |
| CapacityTimers.CapacityTimer.Stop | librtsim/capacitytimer.cpp:27-33 | keeps, and returns, the value reached |
| CapacityTimers.CapacityTimer.GetIntercept | librtsim/capacitytimer.cpp:35-38 | for a falling clock, the last whole tick at which it has not passed v |
| ConstantBandwidth.CBServer.constructor | librtsim/cbserver.cpp:5-37 | an idle server with an empty queue satisfies the invariant |
| ConstantBandwidth.CBServer.IdleReady | librtsim/cbserver.cpp:130-154 | a fresh busy run: under the reusing policy, when the bandwidth allows a whole tick until the old deadline, that deadline and the whole ticks it allows (cap * P <= left * Q < (cap + 1) * P); otherwise a full budget and a deadline one period ahead |
| ConstantBandwidth.RenewedIs | librtsim/cbserver.cpp:137-149 | budget and deadline of a new busy run are within a tick of what the bandwidth allows until the deadline that is reused, or full and one period ahead |
| ConstantBandwidth.CBServer.ReleasingReady | librtsim/cbserver.cpp:164-172 | more work before the virtual time passes: the idle event is withdrawn, the accounts stay |
| ConstantBandwidth.CBServer.ReadyExecuting | librtsim/cbserver.cpp:174-186 | the clock of virtual time runs at P/Q and the budget's end is queued |
| ConstantBandwidth.CBServer.ExecutingReady | librtsim/cbserver.cpp:188-196 | budget and work at the present are kept |
| ConstantBandwidth.CBServer.ExecutingReleasing | librtsim/cbserver.cpp:198-226 | idle at once iff the virtual time has passed, else releasing with the idle event at its whole tick; going idle, the work of the busy run is below the bandwidth but for a tick |
| ConstantBandwidth.CBServer.ReleasingIdle | librtsim/cbserver.cpp:228-238 | idle at the instant of the idle event, the work of the busy run below the bandwidth but for a tick |
| ConstantBandwidth.CBServer.ExecutingRecharging | librtsim/cbserver.cpp:240-290 | soft: a full budget at once for a deadline one period later; hard: recharging until the present deadline, and the replenishment can be posted iff that has not passed |
| ConstantBandwidth.CBServer.OnArrival | librtsim/server.cpp:188-205 | the task takes its place in the queue, whichever the server's scheduler gives it; only an idle or releasing server becomes ready, and only an idle one starts new accounts, with budget and deadline as for `IdleReady` |
| ConstantBandwidth.CBServer.OnSched | librtsim/server.cpp:244-256 | executing, with a dispatch queued for now; budget and virtual time do not jump |
| ConstantBandwidth.CBServer.OnDesched | librtsim/server.cpp:258-271 | preemption keeps budget, work, virtual time, deadline and the start of the busy run |
| ConstantBandwidth.CBServer.OnEnd | librtsim/server.cpp:207-216 | exactly that task leaves the queue and a dispatch is queued |
| ConstantBandwidth.CBServer.OnDispatch | librtsim/server.cpp:311-339 | the first task runs, or without work the server is releasing or idle; work and start of the busy run are kept, and going idle ends it now, its work below the bandwidth but for a tick |
| ConstantBandwidth.CBServer.OnBudgetExhausted | librtsim/server.cpp:218-242 | recharging (hard) or ready (soft) with the deadline one period later, in the same busy run; succeeds iff soft or the deadline has not passed |
| ConstantBandwidth.CBServer.OnReplenishment | librtsim/cbserver.cpp:303-353 | a recharging server has a full budget again and is ready, or idle without work; work and start of the busy run are kept, going idle ends it now; the branch that would release it is dead |
| ConstantBandwidth.CBServer.OnIdle | librtsim/cbserver.cpp:355-359 | idle when the idle event fires, which ends the busy run now |
| ConstantBandwidth.CBServer.Advance | librtsim/cbserver.cpp:174-186 | time up to the earliest queued event adds to the work, and takes from the budget, of an executing server only |
| ConstantBandwidth.BudgetTied | librtsim/cbserver.cpp:130-226 | cap * P <= Q * (d - virtual time) when ready, executing or releasing, with equality under the original policy; and the budget is never negative |
| ConstantBandwidth.VirtualTimeNow | librtsim/capacitytimer.cpp:20-47 | the virtual time has advanced by P/Q for every tick of work of the busy run |
| ConstantBandwidth.HardNeverOverserves | librtsim/cbserver.cpp:130-281 | a hard server ready from idle at r has by time t executed at most Q * (floor((t - r) / P) + 1) |
| ConstantBandwidth.BusyRunWork | librtsim/cbserver.cpp:198-226 | a busy run from r that ended idle at e did less work than (Q / P) * (e - r + 1) |
| ConstantBandwidth.PastVirtualTime | librtsim/cbserver.cpp:320-331 | once all granted budget is used the virtual time is past by the replenishment |
| GreedyReclamation.ExecutionKeepsBalance | librtsim/grubserver.cpp:96-115 | execution at any active utilisation leaves budget plus utilisation times virtual time unchanged |
| GreedyReclamation.BooksNow | librtsim/grubserver.cpp:88-115 | at every instant, whatever the server does, that sum is the one of the last recharge plus what was reclaimed since, and the budget is not negative |
| GreedyReclamation.ExhaustedAfterFullBudget | librtsim/grubserver.cpp:96-115 | when its budget is exhausted a server has executed, since its recharge, at least its whole budget and all it reclaimed |
| GreedyReclamation.ActiveWithinTotal | librtsim/grubserver.cpp:16-33 | the utilisations of the servers that are not idle add up to no more than those of all, and to no less than any one of them |
| GreedyReclamation.OneActive | librtsim/grubserver.cpp:25-43 | one server becoming active or idle changes the sum by its own utilisation |
| GreedyReclamation.PausedIsStopped | librtsim/grubserver.cpp:88-94 | pausing a server changes none of its accounts |
| GreedyReclamation.RechargedIsSound | librtsim/grubserver.cpp:122-135 | a full budget, new deadline and virtual time at the present start sound accounts |
| GreedyReclamation.UnusedIsBandwidth | librtsim/grubserver.cpp:169-178 | the whole ticks of a server's bandwidth over its lateness are short of it by less than a tick |
| GreedyReclamation.ShareIsPositive | librtsim/capacitytimer.cpp:35-38 | while a server is not idle the active utilisation is positive and at most 1, so the intercept is defined |
| GreedyReclamation.AccountingIsSafe | librtsim/grubserver.cpp:16-43 | the active utilisation is the sum over the servers that are not idle, within the total, within 1; each such server's budget is accounted for and not negative |
| GreedyReclamation.GrubSupervisor.AddGrub | librtsim/grubserver.cpp:16-23 | registers a server iff the total stays within 1 |
| GreedyReclamation.GrubSupervisor.PauseAll | librtsim/grubserver.cpp:26-27 | pauses every server |
| GreedyReclamation.GrubSupervisor.ResumeAll | librtsim/grubserver.cpp:31-32 | every executing server goes on at the new speed, its exhaustion event exact, its accounts unchanged |
| GreedyReclamation.GrubSupervisor.SetActive | librtsim/grubserver.cpp:25-33 | restores the invariant when a server has become active; no account of any server changes |
| GreedyReclamation.GrubSupervisor.SetIdle | librtsim/grubserver.cpp:35-43 | restores it when a server has become idle; no account of any server changes |
| GreedyReclamation.GrubSupervisor.GetCapacity | librtsim/grubserver.cpp:45-49 | hands out the residual capacity once |
| GreedyReclamation.GrubSupervisor.Advance | librtsim/grubserver.cpp:96-115 | time up to the earliest queued event keeps the invariant |
| GreedyReclamation.Grub.UpdateBudget | librtsim/grubserver.cpp:88-94 | an executing server's clocks stop at their values and its exhaustion event is withdrawn |
| GreedyReclamation.Grub.StartAccounting | librtsim/grubserver.cpp:96-115 | the clocks go on without a jump, the budget falling at the active utilisation and the virtual time rising at that divided by the server's own, and the exhaustion event is queued, once and never in the past: the assertion on a negative intercept holds |
| GreedyReclamation.ExecutionRates | librtsim/grubserver.cpp:96-115 | over any stretch of execution the budget falls by the active utilisation times its length, and the virtual time times the server's own utilisation rises by as much |
| GreedyReclamation.Grub.IdleReady | librtsim/grubserver.cpp:122-135 | fresh accounts, the active utilisation grows by the server's own, and no other account changes |
| GreedyReclamation.Grub.ReleasingReady | librtsim/grubserver.cpp:137-142 | the accounts stay |
| GreedyReclamation.Grub.ReadyExecuting | librtsim/grubserver.cpp:144-151 | the budget grows by the residual capacity, which is used up; nothing else jumps |
| GreedyReclamation.Grub.ExecutingReady | librtsim/grubserver.cpp:153-157 | preemption changes no account |
| GreedyReclamation.Grub.ExecutingReleasing | librtsim/grubserver.cpp:159-167 | the idle event is queued at the whole tick of the virtual time, or now if that is past |
| GreedyReclamation.Grub.ReleasingIdle | librtsim/grubserver.cpp:169-178 | gives away what it left unused: the residual capacity becomes the utilisation times the time since the virtual time, in whole ticks, if that is past, and else stays; leaves the active utilisation, and changes no other account |
| GreedyReclamation.Grub.ExecutingRecharging | librtsim/grubserver.cpp:180-188 | the recharge is queued at the deadline, or now if that is past |
| GreedyReclamation.Grub.RechargingReady | librtsim/grubserver.cpp:190-197 | fresh accounts |
| GreedyReclamation.Grub.OnArrival | librtsim/server.cpp:188-205 | only an idle or releasing server becomes ready, and only an idle one starts new accounts |
| GreedyReclamation.Grub.OnBudgetExhausted | librtsim/server.cpp:218-242 | fires only after Q plus all reclaimed ticks of execution; the server then recharges |
| GreedyReclamation.Grub.OnRecharging | librtsim/server.cpp:275-289 | ready with fresh accounts when there is work; idle when there is none, and then the residual capacity becomes the utilisation times the time since the virtual time, in whole ticks, if that is past, and else stays |
| GreedyReclamation.Grub.OnIdle | librtsim/grubserver.cpp:117-120 | idle when the idle event fires; the residual capacity becomes the utilisation times the time since the virtual time, in whole ticks, if that is past, and else stays |
| Simulations.Simulation.NewEvent | libmetasim/event.cpp:37-46 | a new event is not queued, its time is MAXTICK and its number 0 |
| Simulations.Simulation.Post | libmetasim/event.cpp:92-129 | queues the event in its place of the order with a new number; fails, changing nothing, iff it is queued already or the time is past; the insertion itself never fails |
| Simulations.Simulation.Erase | libmetasim/event.cpp:136-137 | the event with the same key leaves the queue, whichever it is |
| Simulations.Simulation.Drop | libmetasim/event.cpp:132-138 | erases, and puts the withdrawal on record |
| Simulations.Simulation.Process | libmetasim/event.cpp:140-146 | dropped and queued again for now with the most urgent priority, before every other queued event of positive priority; never fails |
| Simulations.OrderOfQueue | libmetasim/event.cpp:70-90 | along the queue times do not fall; at one time priority values do not fall; when both are equal the insertion order rises |
| Simulations.ImmediateComesFirst | libmetasim/event.cpp:140-146 | an event queued for now with immediate priority is before every other of positive priority |
| Simulations.Simulation.RestorePriority | libmetasim/event.cpp:167-167 | an event about to run has its own priority again, and no longer counts as hurried: the invariant is that all others have their own |
| Simulations.WithoutOne | libmetasim/include/metasim/plist.hpp:93-95 | erasing by key removes exactly one event |
| Simulations.DropQueued | libmetasim/event.cpp:132-138 | dropping a queued event removes exactly that event |
| Simulations.DropUnqueued | libmetasim/event.cpp:132-138 | dropping an event that is not queued removes nothing iff it is not the case that it was never posted and the first event ever posted is queued at MAXTICK with the same priority; in particular when nothing is queued at MAXTICK |
| Simulations.DropCanTakeAnother | libmetasim/event.cpp:132-138 | a queue in which the drop of an event never posted removes another |
| Simulations.DropSpares | libmetasim/event.cpp:132-138 | a drop spares every other event not at MAXTICK |
| Simulations.PostKeeps | libmetasim/event.cpp:92-129 | no queued event has the key of an event about to be inserted, and insertion keeps the queue coherent |
| Simulations.FirstIsNext | libmetasim/simul.cpp:70-83 | taking out the first event and moving the clock to it leaves nothing in the past |
| Simulations.Simulation.RunOp | libmetasim/event.cpp:92-146 | one operation of a handler has its effect on events and queue, and spares what it does not name |
| Simulations.Simulation.RunScript | libmetasim/event.cpp:158-185 | a handler's operations take effect, and go on record, in order up to the first that throws, and spare what none of them drops; only events it processes at once lose their own priority; with nothing at MAXTICK the queue stays exactly the events marked as queued |
| Simulations.ScriptRecordHolds | libmetasim/event.cpp:158-185 | the record of a handler holds all its posts if none throws, and withdraws only what it names |
| Simulations.Simulation.SimStep | libmetasim/simul.cpp:64-90 | runs the event least by time, then priority, then insertion, at its time; its own priority is restored, so that after a handler that does nothing it has that and is not queued; everything queued that the handler does not drop stays queued |
| Simulations.Simulation.RunUntil | libmetasim/simul.cpp:112-114 | the loop of run_to: as for RunTo, from the message queued, with the events that were queued and the record of what the handlers did |
| Simulations.Simulation.RunTo | libmetasim/simul.cpp:108-121 | fails if stop is past; executed times never decrease; a normal return leaves the clock at stop and nothing due by then queued, and every post due by then, whenever made, has been run at its time or withdrawn: so every event queued before, and every event the handlers posted, was run unless a handler named it in a drop; every event has its own priority, but for those processed at once, before or by a handler, and not run since; with nothing posted at MAXTICK the queue holds exactly the events marked as queued |
| Simulations.RecordMore | libmetasim/event.cpp:92-138 | no post is lost: each is run, withdrawn or still queued, at all times |
| Simulations.NothingLeft | libmetasim/simul.cpp:112-114 | with nothing due by stop left in the queue every post due by then has been run or withdrawn |
| Simulations.PostsAreRun | libmetasim/simul.cpp:108-121 | posts on record that are dealt with, and that no handler named in a drop, have been run |
| Simulations.Simulation.Delete | libmetasim/event.cpp:51-53 | the event is dropped first, so none that no longer exists stays queued |
| Simulations.Simulation.ClearEventQueue | libmetasim/simul.cpp:217-225 | the queue is empty, the clock at 0, and the events that were queued are marked as not queued |
| ResourceManagement.Resource.Lock | librtsim/resource/resource.cpp:46-49 | units move from available to the task |
| ResourceManagement.Resource.Unlock | librtsim/resource/resource.cpp:51-54 | and back |
| ResourceManagement.FCFSResManager.Request | librtsim/resource/fcfsresmanager.cpp:57-76 | granted iff nobody waits and enough is available; otherwise queued last |
| ResourceManagement.FCFSResManager.Release | librtsim/resource/fcfsresmanager.cpp:78-121 | serves in order exactly those waiting that the loop can, wakes exactly them, and keeps the resource fair; the new head could be served iff those before it used up what was available |
| ResourceManagement.ServedIsLargest | librtsim/resource/fcfsresmanager.cpp:84-121 | with claims for at least one unit, those served are the longest beginning of the queue that fits into what is available |
| ResourceManagement.FairAllocation | librtsim/resource/fcfsresmanager.cpp:57-121 | grants are the first requests in order, the head of a non-empty queue needs more than is available, and available plus held is constant |
| ResourceManagement.HeadCouldBeServedIff | librtsim/resource/fcfsresmanager.cpp:84-121 | a release leaves a head waiting that could be served exactly when the claims before it use up what is available, not a unit sooner, and it asks for no more than is then left |
| ResourceManagement.EmptyClaimCanWait | librtsim/resource/fcfsresmanager.cpp:84-86 | it happens: a claim for no units waits although it could be served |
| RandomGenerator.Decomposed | libmetasim/randomvar.cpp:58-63 | for a 32-bit state the products and their difference fit 32 bits; for any 64-bit state the result is congruent to A times it modulo M, and is that residue when the correction stays below M |
| RandomGenerator.Undo | libmetasim/randomvar.cpp:42-45 | each state can be recovered from the next: sampling permutes the states |
| RandomGenerator.NeverSticks | libmetasim/randomvar.cpp:55-66 | the n-th sample is 0 iff the seed is a multiple of M |
| RandomGenerator.RandomGen.Sample | libmetasim/randomvar.cpp:55-66 | the n-th sample is congruent to A^n times the seed modulo M for any 64-bit seed; for every seed of 32 bits, and well beyond, it is that residue, between 1 and M - 1 unless the seed is a multiple of M |

## Left out

- Rounding of `double`, and overflow of the 64-bit `Tick` and of the `int` conversions: budgets, periods and times are unbounded integers, utilisations and virtual times are reals. Only the random generator is modelled at its width.
- SchedRtaSupervisor.SchedRTA.ChangeBudget: the call of the server's own `changeBudget` is not modelled. The bisection is required to end, which it does when the server's budget is at most its period and otherwise only as `Ends` says (`NeverEnds`). The increment is related to the specification while budgets are not negative.
- SchedRtaSupervisor.SchedRTA.SearchBetween: called only where it ends; `Ends` is exact for budgets that are not negative.
- SchedRtaSupervisor.SchedRTA.SearchBudget: likewise.
- Agreement.RtaRunKeepsSchedulable: the run follows the supervisor only while budgets stay at least 0, since below that the response times are not characterised.
- SchedPointSupervisor.SchedPoint.ChangeBudget: only the `wcet` and `U` vectors are modelled, not `last_change_time`, the deferred event and the server's own budget, to which the clamp at 1 is not passed on.
- SchedPointSupervisor.SchedPoint.BuildConstraints: clears and rebuilds the field; its unused return value is dropped.
- The order of servers: both supervisors are given theirs, in decreasing priority. That `SchedRTA` sorts by period on insertion, and that its `period`, `wcet` and `U` vectors are not sorted along, is not modelled.
- ReadyQueue.Scheduler.Insert: not called for a task that is queued already, whose key the insertion would change inside the ordered set.
- MrtKernel.MRTKernel.OnArrival: not called for a task that is in the ready queue, likewise.
- MrtKernel.MRTKernel.Activate: not called for a task that is in the ready queue, likewise.
- MrtKernel.MRTKernel.Suspend: not called in the middle of a task's context switch; `SuspendKeepsInvIff` shows what would happen. Priorities do not change while tasks are queued.
- The kernel's calls into tasks and into the scheduler's `notify`, the map order of CPUs by address (CPUs are numbered), `newRun`, `endRun` and printing.
- MrtKernel.MRTKernel.OnBeginDispatchMulti: reassigning the two delays during a run is not a method of the model; the run theorems allow any delay at each event.
- ConstantBandwidth.CBServer.OnSched: not while a replenishment is due at the same instant, which the event priorities put first.
- ConstantBandwidth.CBServer.OnDesched: not while a dispatch is due at the same instant, likewise; so the test for an empty server, which would skip the preemption, is left out together with the yielding flag.
- `CBServer::changeBudget` (the budget is overwritten before the difference is taken), `killInstance`, `getVirtualTime`, `Server::suspend`, `Server::activate` (as `onArrival`) and the calls a server makes to its kernel.
- GreedyReclamation.Grub.OnBudgetExhausted: the queue of tasks inside a reclaiming server is not modelled; it is driven by the same code as that of the constant bandwidth server. Whether there is work is a parameter.
- GreedyReclamation.GrubSupervisor.AddGrub: a server is registered once, while idle; `newRun` is left out.
- The supervisor a reclaiming server belongs to is a parameter of its methods instead of a field, and its clocks are values, as they are embedded in the object.
- Simulations.Simulation.RunTo: handlers are finite scripts of posts, drops and immediate processings, one for each step, and do not name the message that marks the end; a run whose scripts do not suffice is reported as unfinished. Deletion of disposable events, probes, `run` with its repetitions, and exceptions other than those of a post are left out.
- ResourceManagement.FCFSResManager.Release: the suspension and activation of tasks in their kernels is represented by the result alone, and tasks are numbered.
- `EnergyMRTKernel`, `MultiCoresScheds`, `SparePot`, `SporadicServer`, `PollingServer`, `RTKernel`, `ExecInstr`, `PIRManager`, `BWI`, the random distributions, statistics, traces, configuration files and tools: unsupported, unfinished, or without properties as strong as these.
