# CodeExecutionEngine in Dafny

Models of the concurrent and numerical core of CodeExecutionEngine, a service that runs code
submissions in Docker containers or Firecracker machines, with proofs of what that core promises.

- **Rate limiter.** `LimiterModel` has the limiter twice: as the code does it, with two maps, lazy
  expiry and a background sweep, and as the full history of one address's rulings.
  `LimiterRefinement` proves that every call is answered from the full history, so that sweeps,
  queries and other addresses cannot be observed. `LimiterBound` proves the exact number of requests
  that can pass in one window. `LimiterPromise` proves that each answer is the one a client can work
  out from its earlier answers alone: a request with room passes. `RateLimiter.dfy` is the object,
  updated in place.
- **Container pool.** `PoolProtocol` is a transition system of the initialization and monitor
  thread, the workers, the helpers that watch a running job, and `Shutdown`, over a Docker daemon
  that may refuse any call. `PoolInvariants` and `PoolTheorems` prove exclusive holding, absence of
  starvation, the size bound, leak freedom and that nothing removed comes back. `PoolSafety` proves
  exactly when a container is safe in the hands of a worker, and `PoolCounterexample` has a run in
  which it is not. `PoolProgress` proves that nobody gets stuck, that initialization can fill the pool
  and that the monitor alone can restore it. `StartRace` treats any number of concurrent `StartContainer` calls.
  `ContainerManager.dfy` is the object, with each method run on its own.
- **Job queues.** `JobQueue` is one transition system for the Docker, Firecracker and executor pools:
  a bounded queue, private one-slot reply channels, a counting semaphore and a close signal.
  `JobTheorems` proves conservation, order, that every caller gets the output of its own code, freedom
  from blocking, the load bounds and that they are met, clean, terminating shutdown, and exactly which jobs it answers. `JobPool.dfy` is the object.
- **Arithmetic and framing.** `AutoWorkers` proves that the floating-point worker count is the exact
  integer optimum. `Framing.dfy` reads length-prefixed frames from arbitrarily chunked streams.

Assumptions. Time is an integer that does not run backwards in the order in which the limiter's lock
is taken; `Allow` reads the clock twice, and both readings are arguments. Single accesses to the
container map are atomic, also the unlocked ones of `RemoveContainer` and `checkHealth`. Docker never
reuses an id and may fail any call; containers may also appear and vanish on their own. A job body is
one step with an arbitrary output. Floating-point operations are exact real operations followed by a
rounding of which only monotonicity, symmetry, exactness on integers up to 2^53 and a relative error of
2^-53 are used, as section 4.3.1 of IEEE 754-2019 guarantees for round-to-nearest.

What the code does not do, against what its names suggest:

- The configured request limit holds in every window exactly when the ban is at least as long as the
  window (`LimitKeptIffBanCoversWindow`). With a shorter ban, M * ceil(W / B) requests can pass
  (`WindowBoundIsMet`), and with a ban of no length any number (`BoundedIffBanHasLength`).
- A container that a job holds can be removed exactly as long as a helper that was started for it has
  not finished (`LostExactlyWhenWatched`). That helper may belong to an earlier job, for nothing stops
  it (`HeldContainerCanVanish`). Exclusive holding and the absence of leaks survive this.
- The size check of `StartContainer` keeps the pool within `maxWorkers` only because one thread calls
  it (`LimitKeptExactlyWhen`). With k callers the pool can reach `maxWorkers + k - 1`
  (`OvershootIsMet`).
- Once shutdown has begun, an accepted job is sure to be answered exactly if a worker has already
  received it (`AnsweredExactlyWhenStarted`). What is still queued when the workers have stopped stays
  there unanswered (`AbandonedForGood`). The executor's `Shutdown` does not return at all, for it waits
  for a monitor that never ends (`MonitorNeverEnds`).

## Model

| member | source | states |
|---|---|---|
| LimiterRefinement.AnswersFromHistory | executor/ratelimiter.go:35-104 | after any run of allowed calls, queries and sweeps, every answer is the one computed from the complete call history of that address |
| LimiterRefinement.StoredLogIsTheWindow | executor/ratelimiter.go:52-67 | the log stored on admission is exactly the admissions since the last ban that lie in the window, then the new one |
| LimiterRefinement.OnlyOwnAllowsMatter | executor/ratelimiter.go:71-136 | two runs with the same `Allow` calls of one address answer that address alike, whatever sweeps, queries and other addresses they contain |
| LimiterRefinement.ProjectedRunAgrees | executor/ratelimiter.go:35-136 | the run projected onto one address's `Allow` calls is a legal run and gives the same answer |
| LimiterRefinement.QueriesAgree | executor/ratelimiter.go:71-104 | at one instant the cooldown is positive exactly when the address is blocked, and then `Allow` refuses |
| LimiterRefinement.ReachableWellformed | executor/ratelimiter.go:60-67 | no address is both banned and logged; logs are non-empty, in time order, in the past and within the limit |
| LimiterBound.WindowBound | executor/ratelimiter.go:42-68 | for every positive ban, over every run at most M * ceil(W / B) requests of one address pass in any window of length W |
| LimiterBound.WindowBoundIsMet | executor/ratelimiter.go:60-64 | for every limit, window and positive ban some run lets exactly that many pass |
| LimiterBound.LimitKeptIffBanCoversWindow | executor/ratelimiter.go:49-68 | for every configuration: no run exceeds the limit in a window if and only if the ban is at least as long as the window, or the limit or the window is not positive |
| LimiterBound.BoundedIffBanHasLength | executor/ratelimiter.go:42-63 | for every configuration: what passes in a window is bounded at all if and only if the ban is positive, or the limit or the window is not |
| LimiterBound.StrikesAreABanApart | executor/ratelimiter.go:42-63 | a ban is never extended: the next one starts only after the earlier has run its full length |
| LimiterPromise.AllowExactlyWhenExpected | executor/ratelimiter.go:35-69 | for every run and configuration: a request passes if and only if no ban is running, by the address's own refusals, and fewer than the limit have passed in the window since the last refusal |
| LimiterPromise.RoomMeansPass | executor/ratelimiter.go:52-68 | a request passes whenever fewer than the limit passed in its window and none was refused less than a ban ago |
| LimiterPromise.QueriesTellTheBan | executor/ratelimiter.go:71-104 | blocked exactly during the ban that the address's refusals tell of, and the cooldown is the time to its end |
| LimiterPromise.CooldownIsExact | executor/ratelimiter.go:88-104 | the cooldown ends at the first instant at which the address is not blocked, whatever is asked meanwhile |
| LimiterPromise.SweepLeavesExactly | executor/ratelimiter.go:113-135 | after a sweep the logs are exactly the admissions still in the window, and the bans the recorded ones that have not ended, every running one among them |
| RateLimiting.RateLimiter.Allow | executor/ratelimiter.go:35-69 | the in-place method admits exactly when the caller's earlier answers, and its full history, say so, and stores the window |
| RateLimiting.RateLimiter.IsBlocked | executor/ratelimiter.go:71-86 | blocked exactly when the caller's earlier answers, and its history, have a ban that has not ended |
| RateLimiting.RateLimiter.CooldownRemaining | executor/ratelimiter.go:88-104 | the time left of the ban that the earlier answers tell of, zero when it has ended |
| RateLimiting.RateLimiter.CleanupTick | executor/ratelimiter.go:113-135 | one sweep keeps exactly the running bans and the pruned non-empty logs, in any order of visiting |
| RateLimiting.Prune | executor/ratelimiter.go:53-58 | the loop keeps the entries strictly after the start, in order |
| PoolTheorems.Reachable | executor/container_manager.go:124-417 | every interleaving of every thread keeps the whole invariant |
| PoolTheorems.ExclusiveHolding | executor/container_manager.go:371-401 | no two workers hold one container, and a registered container is Busy exactly while some worker holds it |
| PoolTheorems.FullPoolServes | executor/container_manager.go:371-381 | with `maxWorkers` containers registered and none in error, a requesting worker's scan finds an Idle one |
| PoolTheorems.NoContainerErrorMeansShortPool | executor/container_manager.go:368-387 | the error means that this request scanned ten times without interruption, and at each scan no container was Idle and fewer than `maxWorkers` usable ones were registered |
| PoolTheorems.SizeBound | executor/container_manager.go:200-205 | after initialization the pool never exceeds `maxWorkers`; the refusal and the excess branch are never taken |
| PoolTheorems.NoLeak | executor/container_manager.go:238-278 | every container still in Docker that the manager created or adopted is in the map, in flight, or had a remove call fail |
| PoolTheorems.ShutdownRemovesAll | executor/container_manager.go:404-417 | when the map is reset nothing else is left in Docker |
| PoolTheorems.NoResurrection | executor/container_manager.go:391-401 | an id that has left the map never returns, whatever its job still does |
| PoolTheorems.ErrorsOnlyShrink | executor/container_manager.go:319-347 | after initialization the Error set only shrinks, and it is empty for good after one health check that got past listing |
| PoolInvariants.StepKeeps | executor/worker_pool.go:110-132 | one step of any thread keeps every invariant |
| PoolTheorems.InitializationTrimsToTheLimit | executor/container_manager.go:152-157 | when initialization finds too many containers, exactly `maxWorkers` are left |
| PoolTheorems.PoolStartsNonEmpty | executor/container_manager.go:170-174 | the pool starts with at least one container, and initialization fails only with none |
| PoolTheorems.MonitorNeverEnds | executor/container_manager.go:298-306 | once started the monitor is inside its loop in every later state, and it always has a next step unless `Shutdown` holds the lock |
| PoolProgress.NobodyIsStuck | executor/worker_pool.go:104-162 | once started every worker, helper, the monitor and `Shutdown` can always take a step, or wait only for the lock that `Shutdown` holds; a waiting worker can stop exactly from the call of `Shutdown` on |
| PoolProgress.MonitorRestoresThePool | executor/container_manager.go:309-364 | from every reachable state before shutdown the monitor alone can bring the pool to `maxWorkers` containers, all in Docker and none in error |
| PoolProgress.InitializationFillsThePool | executor/container_manager.go:124-175 | whatever already runs, if no call fails the pool starts with exactly `maxWorkers` containers, with all that ran if they fit |
| PoolSafety.HealthyStays | executor/container_manager.go:319-347 | after initialization only a helper of its own, `Shutdown` or Docker itself takes away a running container that is not in error |
| PoolSafety.ScanReachable | executor/container_manager.go:317-345 | at every moment of every run, what a health check is going to drop is in error, no longer registered or no longer in Docker |
| PoolSafety.LostExactlyWhenWatched | executor/worker_pool.go:181-206 | in every reachable state before shutdown, the rest of the system can take a held running container away if and only if some helper started for it has not finished; otherwise it stays in the map and in Docker |
| PoolSafety.UnwatchedStays | executor/worker_pool.go:120-132 | without such a helper the container stays registered, Busy and in Docker along every continuation in which its worker keeps it |
| PoolCounterexample.HeldContainerCanVanish | executor/worker_pool.go:197-204 | a reachable state in which a worker holds a container that a helper of the previous job has removed |
| StartRace.OvershootBound | executor/container_manager.go:200-255 | with at most k calls in flight the pool never exceeds `maxWorkers + k - 1` |
| StartRace.OvershootIsMet | executor/container_manager.go:200-255 | k callers can bring it to exactly that size |
| StartRace.LimitKeptExactlyWhen | executor/container_manager.go:200-255 | every run keeps the pool within `maxWorkers` if and only if calls cannot overlap, or `maxWorkers` is zero |
| ContainerManagement.ContainerManager.StartContainer | executor/container_manager.go:197-261 | registers one fresh running Idle container if there is room and no call fails, and leaks nothing otherwise |
| ContainerManagement.ContainerManager.RemoveContainer | executor/container_manager.go:264-278 | the entry goes even if Docker refuses; the container goes from Docker unless that call failed |
| ContainerManagement.ContainerManager.RemoveExcessContainers | executor/container_manager.go:281-295 | any `count` entries go, Busy ones too, the rest is unchanged, and Docker loses exactly those containers unless a call fails |
| ContainerManagement.ContainerManager.InitializePool | executor/container_manager.go:124-175 | adopts what is listed with the right state, all of it if it fits, ends with at most `maxWorkers` containers, exactly that many if no call fails, and removes from Docker only what it dropped from the map |
| ContainerManagement.ContainerManager.CheckHealth | executor/container_manager.go:309-364 | keeps exactly the listed containers not in error, states unchanged and still in Docker, adds fresh Idle ones, reaches `maxWorkers` if no call fails, and removes from Docker only what it dropped from the map |
| ContainerManagement.ContainerManager.TryAssign | executor/container_manager.go:372-383 | the scan finds an Idle container if there is one, in any order, and marks it Busy |
| ContainerManagement.ContainerManager.GetAvailableContainer | executor/container_manager.go:367-388 | fails only after ten scans without an Idle container, whatever other threads do in between |
| ContainerManagement.ContainerManager.SetContainerState | executor/container_manager.go:391-401 | changes one entry if it is there and registers nothing |
| ContainerManagement.ContainerManager.Shutdown | executor/container_manager.go:404-417 | the map is empty, of the registered containers only those whose removal failed are left, no other is touched, and without failures exactly the registered ones are gone |
| JobTheorems.JobConservation | worker/docker/docker.go:44-79 | each accepted job is in exactly one place: queued, with exactly one worker, or answered once |
| JobTheorems.StartedInOrder | worker/firecracker/firecracker.go:168-182 | jobs start in the order in which they were accepted |
| JobTheorems.CallersGetTheirOwnResult | executor/worker_pool.go:246-262 | a caller receives only a result of its own language and code, with the recorded output of that job |
| JobTheorems.CallersGetWhatTheirCodePutOut | executor/worker_pool.go:104-162 | end to end over every run: whoever submitted a code gets its language, its code and the output of the one run of it |
| JobTheorems.WorkersNeverBlock | worker/firecracker/firecracker.go:172-177 | a worker that cannot go on has stopped, or waits for a job before shutdown while none is queued: no reply, acquire or release ever blocks |
| JobTheorems.WarmTokensExact | worker/firecracker/firecracker.go:47-47 | the semaphore holds one token per worker between acquire and release, and none after shutdown |
| JobTheorems.NobodyAcquiresAfterWait | worker/firecracker/firecracker.go:308-313 | after `wg.Wait` no worker sends on the semaphore, so it may be closed |
| JobTheorems.LoadBound | worker/docker/docker.go:44-54 | accepted and unanswered jobs never exceed queue capacity plus workers |
| JobTheorems.BackendLoad | worker/docker/docker.go:26-31 | that is 5 times the workers for Docker, 11 times for Firecracker, and `maxJobCount + maxWorkers` for the executor, with 3 workers by default |
| JobTheorems.LoadBoundIsMet | worker/docker/docker.go:44-54 | every pool can take queue capacity plus workers and only then turns a submission away |
| JobTheorems.BackendLoadIsMet | worker/firecracker/firecracker.go:48-48 | each of the three bounds is reached by a run |
| JobTheorems.SubmissionIsDecided | executor/worker_pool.go:251-261 | in every state a submission is handed over, queued or turned away, and exactly when |
| JobTheorems.RejectedOnlyWhenFull | executor/worker_pool.go:252-261 | at a rejection the load is queue capacity plus workers, less the workers without a job, none of which is waiting for one |
| JobTheorems.TotalExecutedExact | worker/docker/docker.go:47-49 | the counter misses exactly the callers between sending and counting |
| JobTheorems.WorkersRunDown | worker/docker/docker.go:68-79 | once submissions stop, the workers together take at most a fixed number of further steps |
| JobTheorems.ShutdownRunsDry | worker/docker/docker.go:56-60 | after shutdown has begun no worker can step if and only if all have stopped, and then `wg.Wait` returns |
| JobTheorems.ShutdownCompletes | worker/firecracker/firecracker.go:308-313 | from every state after shutdown has begun the workers can all stop within that number of steps, without any caller's help and without touching the queue |
| JobTheorems.AnsweredExactlyWhenStarted | worker/docker/docker.go:56-79 | after shutdown has begun an accepted job is answered in every continuation in which the workers stop if and only if a worker has already received it |
| JobTheorems.AbandonedForGood | worker/docker/docker.go:68-79 | a job still queued when all workers have stopped stays queued, and its caller never gets an answer |
| JobTheorems.ShutdownIsClean | worker/firecracker/firecracker.go:308-313 | when `wg.Wait` has returned no job is running and each accepted job was answered exactly once or is untouched in the queue |
| JobPools.JobPool.Submit | worker/docker/docker.go:44-54 | hands the job to a waiting worker, or queues it, or gives up exactly when the queue is full and nobody waits |
| JobPools.JobPool.Await | worker/docker/docker.go:49-50 | takes the one reply once it is there, computed from the caller's own job |
| JobPools.JobPool.Turn | worker/firecracker/firecracker.go:168-182 | one turn of the worker loop among other threads serves the longest waiting job and answers it once with its output, or stops after shutdown has begun, or waits because nothing is queued |
| JobPools.JobPool.Serve | worker/firecracker/firecracker.go:172-177 | a job that was received or handed over is answered, once, and the output of running it lies in its reply channel |
| JobPools.JobPool.Stats | worker/docker/docker.go:62-66 | active workers, queued jobs and the executed total, up to callers that have not counted yet |
| AutoWorkers.QuotientExact | config/config.go:55-56 | two roundings and a truncation give exactly Go's integer division of 4p by 5w, for either sign of both |
| AutoWorkers.AutoMaxWorkersExact | config/config.go:54-61 | the result is the largest number of workers that keeps processor and memory within 80% of the pod, or 1 |
| AutoWorkers.AutoMaxWorkersAnySign | config/config.go:54-61 | for shares of either sign the result is the smaller of the two exact quotients, or 1 if one of them is not positive |
| AutoWorkers.HugePodGainsAWorker | config/config.go:55-56 | for pods beyond 2^52 the roundings can gain a worker: one such pod |
| Framing.DecodeKeepsByteOrder | worker/firecracker/vsock/vsock.go:116-116 | the length prefix is in network byte order: lengths compare as the bytes do, first byte first |
| Framing.ShortBodyOnTheWire | worker/firecracker/vsock/vsock.go:98-125 | a body shorter than 256 bytes travels as three zero bytes, its length and itself, and is read so |
| Framing.CapIsOneMebibyte | worker/firecracker/vsock/vsock.go:117-119 | a body is returned if and only if it has at most 1048576 bytes, and refused from 1048577 on |
| Framing.RoundTrip | worker/firecracker/vsock/vsock.go:98-125 | a framed body of up to 1 MiB is read back exactly from every chunking, a longer one is refused |
| Framing.LengthFitsIff | worker/firecracker/vsock/vsock.go:98-100 | the prefix decodes to the length exactly when that is below 2^32 |
| Framing.ParsesExactlyFrames | worker/firecracker/vsock/vsock.go:112-125 | a body is returned if and only if it is within the cap and the stream starts with its frame |
| Framing.FailsExactlyWhen | worker/firecracker/vsock/vsock.go:112-125 | reading fails if and only if no frame of a body within the cap starts the stream |
| Framing.TooLargeExactlyWhen | worker/firecracker/vsock/vsock.go:117-119 | a length is refused if and only if it exceeds the cap and the stream starts with it |
| Framing.TruncationIsAnError | worker/firecracker/vsock/vsock.go:121-125 | a stream cut anywhere inside a frame yields no body |
| Framing.Conn.ReadFull | worker/firecracker/vsock/vsock.go:113-125 | fills the buffer with the next bytes, or fails exactly when the stream is too short |
| Framing.Conn.ReadResponse | worker/firecracker/vsock/vsock.go:112-125 | its outcome depends on the bytes alone, not on the chunks, and it consumes exactly the frame |
| Framing.Conn.Execute | worker/firecracker/vsock/vsock.go:98-125 | fails to write exactly when one of the two writes fails; otherwise the framed request has been written and the response read |

## Left out

- Docker, Firecracker and `docker exec` themselves, snapshot creation, `findVsockUDS` and the image pull: external effects, present only as success or failure.
- The `CheckResourceOutsurge` arithmetic: its answer is an arbitrary choice that starts a removal.
- JSON bodies, the vsock handshake, loggers, NATS handlers, `service`, the sanitizer and `.env` loading: plumbing or library behaviour.
- Wall-clock delays, tickers and timeouts: retries are counted steps, and a timeout is one way for a job body to end.
- Data races: two lookups of one listed container by `checkHealth` are one step, so the nil dereference that a deletion between them could cause is not modelled.
- Pointers to `ContainerInfo`: the map holds states, so aliasing of entries, which never leave the manager, is not modelled.
- `executeJob` as one object method: its container half is the worker of PoolProtocol, its queue half the worker of JobQueue, and the two are not composed.
- What a result contains: an error is an output like any other, and the Docker backend's `Error`, which is set even on success (worker/docker/docker.go:111), is not singled out.
- JobPools.JobPool.Submit: the executor's is called before its job channel is closed only, because sending on a closed channel panics in the code.
- `Initialize` of the Firecracker pool: the pools start with their workers running.
- The executor after `Shutdown` has closed the job channel: a submission panics in the code and is not a step here.
- AutoWorkers.QuotientExact: pods of up to 2^49, because the roundings can be wrong beyond (`HugePodGainsAWorker`); a share of zero divides by zero in floating point, and converting the result depends on the platform.
- AutoWorkers.AutoMaxWorkersExact: the same pods, negative ones down to -2^53, and shares from 1 to 2^53; the other signs are in `AutoMaxWorkersAnySign`.
- Overflow of Go's 64-bit durations and of the executed-jobs counter.
