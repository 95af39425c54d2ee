# Pylar: verified models of its stateful core

This project models five parts of Pylar in Dafny and proves what they promise
over every input, every run and every interleaving:

- **Container** (`ContainerSpec`, `ContainerRules`, `ContainerCycles`,
  `ContainerLifetimes`, `ContainerRuns`, `ContainerBinding`, `ContainerObject`): resolution as a depth-first search with a
  resolution stack, a singleton cache and a stack of scopes. Types are ids,
  bindings and constructors are data, and a factory is the list of types it makes
  and how it ends.
- **Cache coordination** (`CacheStore`, `LockProtocol`, `SingleFlight`,
  `RateLimit`, `CacheObjects`): the owner-token lock, `remember_with_lock` and the
  counters behind rate limits, as step systems in which every access to the store
  is one step and any number of tasks interleave.
- **Queue runtime** (`Jobs`, `JobRuns`, `JobPolicy`, `JobProgress`, `Workers`,
  `Supervisor`, `SupervisorRuns`, `SupervisorPool`): the life of a job under any number
  of workers, and the autoscaler of one pool whose workers may die at any time.
- **Queries** (`LikePattern`, `Expressions`, `ExpressionMeaning`, `LookupTable`,
  `QuerySet`, `Paginator`): compilation of Q and F predicates under three-valued logic, LIKE
  escaping, soft deletes and pagination.
- **Sessions** (`SessionSpec`, `Sessions`): flash rotation and id regeneration over
  sequences of requests through a store.

Code that updates objects is modelled by classes (`Container`, `Cache`,
`CacheLock`, `JobQueue`, `Dispatcher`, `Worker`, `PoolState`, `Table`, `Session`,
`SessionMiddleware`) whose methods are proved to compute a specification function;
the properties are then proved of those functions. `dafny verify dfyconfig.toml`
checks everything.

Where the code and its documentation differ, the model follows the code. Each case
has a lemma that says exactly when the documented behaviour holds, and one at a
concrete input where it does not:

- The docstring of `increment` says that repeat calls preserve the existing expiry
  (pylar/cache/cache.py:154-157). The fallback path passes no ttl on a repeat hit
  (pylar/cache/cache.py:177-179), which drops the expiry:
  `CacheStore.RepeatHitKeepsExpiryIff`, `CacheStore.FallbackHitDropsExpiry`, and what
  follows for a limiter, `RateLimit.FallbackReopensOnlyAfterOneHit`.
- The docstring of `release` says that another holder's lock stays intact
  (pylar/cache/lock.py:95-101). The read and the delete are two steps, so a lease
  that ends in between breaks this: `LockProtocol.StepHonoursKeyIff`,
  `LockProtocol.LateDeleteAdmitsTwoHolders`.
- A limiter is to admit a bounded number of calls per window
  (pylar/routing/throttle.py:33-34). While its key holds a value that the facade finds
  to be no counter it lets every call through (pylar/routing/throttle.py:68-69):
  `RateLimit.EveryCallCountsIff`, `RateLimit.ForeignValueAdmitsAll`.
- `Session.get` prefers the user's value to a flash under the same key, `Session.all`
  the flash, and `all` also drops every key of the user's that begins with `_flash:`
  (pylar/session/session.py:71-93): `SessionSpec.AllAgreesIff`,
  `SessionSpec.AllAndGetDiffer`.
- Rotating the id is meant to leave nothing under the old one
  (pylar/session/session.py:114-118); with two rotations in one request the first
  id survives: `SessionSpec.OldIdIsGoneIff`, `SessionSpec.TwoRotationsKeepOldId`.
- The supervisor is documented to keep the pool at or above its floor
  (pylar/queue/supervisor.py:77-79). A tick outside the cooldown that finds the queue
  at its threshold and two or more workers missing to the floor spawns one and returns
  before the floor is enforced: `SupervisorRuns.TickStaysInBounds`,
  `SupervisorRuns.TickEndsBelowFloor`.

## Model

| member | source | states |
|---|---|---|
| ContainerCycles.MakeSucceedsIffResolvable | pylar/foundation/container.py:113-152 | for every graph, cache and open scopes, a top-level `make` succeeds iff every dependency path through uncached types is free of repeats and ends in something cached or buildable |
| ContainerCycles.CircularErrorIsRealCycle | pylar/foundation/container.py:115-118 | the chain of a circular-dependency error starts at the requested type, follows real dependencies of uncached types and ends in its only repeat |
| ContainerCycles.CyclesAreTheOnlyFailures | pylar/foundation/container.py:113-218 | where everything reachable can be built, resolution fails iff the reachable graph has a cycle, and then with a circular-dependency error |
| ContainerCycles.FailureWitness | pylar/foundation/container.py:113-152 | every failure, at any depth, is explained by a dependency path from the outermost type: the reported chain, or a path to a type that cannot be built |
| ContainerSpec.Make | pylar/foundation/container.py:113-152 | resolution terminates (the types not on the resolution stack get fewer), and the resolution stack and the number of open scopes are restored on success and on every error |
| ContainerLifetimes.MakeGrows | pylar/foundation/container.py:113-152 | every resolution, failed or not, unwinds the stack, changes no cached instance, touches only the innermost scope, and keeps the caches in line with the bindings; a success leaves its instance where its lifetime says |
| ContainerLifetimes.ArgumentsAreKept | pylar/foundation/container.py:206-218 | each constructor argument is the instance that the caches hold for its type afterwards |
| ContainerRuns.RunEvolves | pylar/foundation/container.py:102-152 | over every sequence of resolutions and nested scopes the invariant holds, the scope stack has the expected depth and the resolution stack is restored after each event |
| ContainerRuns.SharedInstanceIsReused | pylar/foundation/container.py:120-145 | once resolved, a singleton, or a scoped type within its scope (also after inner scopes closed), is handed out again as the very same instance |
| ContainerRuns.InstancesFollowLifetimes | pylar/foundation/container.py:120-145 | two successful resolutions of a constructed type give the same instance iff it is a singleton, or scoped and both happen in one scope; transients are always fresh |
| ContainerRules.FactoryDependencies | pylar/foundation/container.py:172-177 | a bound factory depends on exactly the types it makes, in its order, and an alias on its target: the edges that the cycle theorems are about come from the bindings |
| ContainerRules.FactoryOutcome | pylar/foundation/container.py:172-177 | a factory that cannot make one of its types passes the error on; otherwise it builds a new object, hands out the given one, or raises; a scoped result needs an open scope |
| ContainerRules.AliasOutcome | pylar/foundation/container.py:172-177 | a factory that hands back what the container makes for another type yields exactly that, result or error |
| ContainerRules.MutualFactoriesRaise | pylar/foundation/container.py:115-118 | whatever their outcomes, two bound factories `a` and `b` that make each other's type fail with the chain `[a, b, a]` |
| ContainerRules.ArgumentsFollowParameters | pylar/foundation/container.py:206-217 | the arguments are those of the parameters that ask for one, in the order of declaration, each under its parameter's name, and none is missing |
| ContainerRules.DependenciesFollowRules | pylar/foundation/container.py:186-217 | a class depends on the annotated types of its parameters, except defaulted ones whose type is not bound; a class that is refused depends on nothing |
| ContainerRules.ConstructorOutcome | pylar/foundation/container.py:179-218 | a constructor is refused, before anything is made, iff it is variadic or has a parameter with neither annotation nor default; otherwise a dependency's error is passed on, it raises, or a new object holds each made instance under its parameter's name |
| ContainerRules.UnboundIsRefused | pylar/foundation/container.py:154-170 | an unbound protocol, abstract class or non-class is a binding error, and nothing changes |
| ContainerRules.CachesAnswerFirst | pylar/foundation/container.py:115-128 | a type on the resolution stack raises before any cache is read; then the singleton answers, then the innermost scope, and neither changes anything |
| ContainerObject.Container.Make | pylar/foundation/container.py:113-152 | the method on the mutable container computes the specified resolution, with the same result, caches, scopes and stack, and keeps the container in order |
| ContainerObject.Container.Cached | pylar/foundation/container.py:120-128 | the singleton first, else the instance of the innermost scope only |
| ContainerObject.Container.Keep | pylar/foundation/container.py:140-148 | an instance is cached by lifetime; a scoped one without an open scope is refused and nothing is stored |
| ContainerObject.Container.AutoResolve | pylar/foundation/container.py:154-170 | unbound classes are built, protocols, abstract classes and non-classes are refused |
| ContainerObject.Container.Instantiate | pylar/foundation/container.py:172-177 | a bound class is built and a factory runs, making its types in order until one fails, so that the result is the one `ContainerRules` describes |
| ContainerObject.Container.Arguments | pylar/foundation/container.py:206-217 | the loop makes exactly the arguments the constructor rules ask for, in order, under their names, and stops at the first failure |
| ContainerObject.Container.BindSingleton | pylar/foundation/container.py:55-59 | binding as a singleton drops a cached instance and nothing else, and the container stays in order iff no open scope holds the type |
| ContainerObject.Container.Instance | pylar/foundation/container.py:65-73 | the object is bound and cached as the singleton, and the container stays in order iff no open scope holds the type |
| ContainerObject.Container.ExitScope | pylar/foundation/container.py:102-109 | leaving a scope drops its instances and restores the outer scope untouched |
| ContainerBinding.InitialIsTidy | pylar/foundation/container.py:36-41 | a new container, whatever its classes, meets the invariant that the run theorems assume |
| ContainerBinding.BindKeepsTidyIff | pylar/foundation/container.py:45-63 | binding a type, in or outside scopes, keeps the container in order iff the binding fits the caches: a cached singleton of the type stays one, an instance in an open scope stays scoped, and open scopes share no instance of what is now built anew |
| ContainerBinding.BindSingletonKeepsTidyIff | pylar/foundation/container.py:55-59 | binding as a singleton keeps the container in order iff no open scope holds the type |
| ContainerBinding.InstanceKeepsTidyIff | pylar/foundation/container.py:65-73 | registering any instance keeps the container in order iff no open scope holds the type |
| ContainerBinding.BootIsTidyIff | pylar/foundation/container.py:45-73 | after any registrations on a new container it is in order iff no registered instance was bound again under another lifetime since |
| ContainerBinding.BootBinds | pylar/foundation/container.py:45-73 | after any registrations a type is bound iff it was registered, and as it was registered last |
| ContainerBinding.BootCaches | pylar/foundation/container.py:55-73 | a type is cached iff an instance was registered that no later instance replaced and no later singleton binding dropped, and then to that instance |
| ContainerBinding.ProgramsFollowLifetimes | pylar/foundation/container.py:36-152 | from a new container on: after such registrations, any two successful resolutions of a type built anew give the same instance iff its lifetime says so |
| CacheStore.RepeatHitKeepsExpiryIff | pylar/cache/cache.py:177-179 | a repeat increment leaves the expiry alone iff the store increments natively and has an expiry (or no ttl is given), or the fallback had none to lose |
| CacheStore.FallbackHitDropsExpiry | pylar/cache/cache.py:166-180 | two hits on a fresh key: natively the expiry stands, on the fallback path the counter becomes permanent |
| CacheStore.PutLasts | pylar/cache/drivers/memory.py:23-36 | a value is found from its put until its ttl has passed, or for good without one, and no other key is affected |
| CacheStore.AddStoresIff | pylar/cache/cache.py:114-139 | set-if-absent stores iff nothing is found, and the value is then found until its ttl has passed; otherwise nothing changes, and other keys never do |
| CacheStore.IncrementAdds | pylar/cache/cache.py:141-180 | the given amount is added to the number found, or to nothing; the sum is returned and found for as long as the path taken lets it last; what is no number is refused and stays |
| CacheObjects.Cache.Add | pylar/cache/cache.py:114-139 | set-if-absent: stored iff no live value was there, with the given expiry |
| CacheObjects.Cache.Increment | pylar/cache/cache.py:141-180 | a missing or expired key counts as zero and gets the ttl, a non-integer is refused untouched, the sum is returned and stored |
| CacheObjects.CacheLock.Acquire | pylar/cache/lock.py:62-92 | the loop returns at the first try that finds the key free, having stored its token with its ttl; it refuses, times out or waits exactly as the mode and the clock at each earlier try say |
| CacheObjects.CacheLock.Release | pylar/cache/lock.py:94-107 | the key is deleted iff the lock was held and the stored token was read as its own; the delete hits the store as found by then |
| CacheObjects.HandleWithoutOverlapping | pylar/queue/middleware.py:50-63 | the body is entered iff the key was free, a skipped call changes nothing, and the lock is let go however the body ends |
| CacheObjects.HandleRateLimited | pylar/queue/middleware.py:88-111 | the call is let through iff the count after its own increment is within the limit, or the facade finds that the key holds no counter; a native store's error is passed on |
| LockProtocol.FallbackAddIsAdd | pylar/cache/cache.py:134-139 | the mutex-guarded read and write, uninterrupted, equal one native set-if-absent |
| LockProtocol.ClaimSucceedsIff | pylar/cache/lock.py:62-92 | a try to claim succeeds iff nothing is found under the key; it then stores the task's token for its ttl, which is its lease, and a failed try stores nothing |
| LockProtocol.ReleaseNeedsOwnToken | pylar/cache/lock.py:94-107 | a release goes on to delete iff it reads its own token, and the delete removes that key and nothing else |
| LockProtocol.StepHonoursKeyIff | pylar/cache/lock.py:62-107 | on a key whose unexpired leases are the stored ones, a step of any task leaves them so iff it is not a delete of that key that hits another task's live claim |
| LockProtocol.StepHonouredIff | pylar/cache/lock.py:62-107 | the same over all keys at once |
| LockProtocol.HonouredIffNoStaleDelete | pylar/cache/lock.py:62-107 | over every interleaving, all unexpired leases stay the stored ones iff no stale delete happens, and then each key has at most one holder |
| LockProtocol.PromptRunsAreExclusive | pylar/cache/lock.py:94-107 | if so far no lease on a key expired between a release's read and its delete, at most one task holds an unexpired lease on it and the stored token is that holder's, whatever happens to other keys |
| LockProtocol.BodiesNeverOverlap | pylar/queue/middleware.py:50-63 | two bodies guarded by the same key are never inside at the same time, as long as the bodies under that key have stayed within their leases |
| LockProtocol.LateDeleteAdmitsTwoHolders | pylar/cache/lock.py:104-106 | without that hypothesis exclusion fails: a concrete run in which two tasks hold unexpired leases on one key |
| SingleFlight.FactoryRunsOnce | pylar/cache/cache.py:79-110 | for any number of interleaved callers, also ones that arrive when an earlier value has expired, with leases that outlive the factory and a value that stays once it is there: at most one factory call returns, at most one more than the failed ones is made, and every caller that gets a value gets the stored one |
| SingleFlight.CachedStaysCached | pylar/cache/cache.py:99-101 | a value that is there from the start is never computed again and never changes |
| SingleFlight.ValueHasSource | pylar/cache/cache.py:99-110 | a value that is found was there at the start or is the one that was computed |
| SingleFlight.FactoryNeedsSecondMiss | pylar/cache/cache.py:103-109 | the factory is called exactly by a caller that holds the lock and finds no value at its second look |
| SingleFlight.ComputedValueIsStored | pylar/cache/cache.py:106-110 | the computed value is stored under the key for its ttl and returned; an exception stores nothing and is passed on |
| SingleFlight.LeavingReleasesLock | pylar/cache/lock.py:94-107 | on its way out a caller deletes the lock iff it still reads its own token, and its outcome stays what it was |
| RateLimit.FallbackHitIsIncrement | pylar/cache/cache.py:166-180 | the mutex-guarded read and write, uninterrupted, equal the facade's increment |
| RateLimit.FirstHitsAreAdmitted | pylar/routing/throttle.py:54-72 | of the calls since the last one that found no live counter, exactly the first `limit` are admitted, however they interleave |
| RateLimit.IntervalBound | pylar/routing/throttle.py:54-72 | over any run, every half-open interval of one window admits at most `2 * limit - 1` counted calls (none for a limit of zero or less), with native and fallback counters |
| RateLimit.EveryCallCountsIff | pylar/routing/throttle.py:61-72 | every call that is let through is counted, in every run, iff the store counts natively or the key holds no live value other than a counter when the limiter starts |
| RateLimit.ForeignValueAdmitsAll | pylar/queue/middleware.py:99-107 | where the facade finds such a value, any number of calls is let through before the clock moves on |
| RateLimit.FallbackReopensOnlyAfterOneHit | pylar/cache/cache.py:166-180 | without a native increment, a call finds no live counter only right after a lifetime of a single call; after a second call the counter never expires |
| RateLimit.NativeWindowReopensIff | pylar/routing/throttle.py:61-67 | with native counters a call opens a new window iff it comes a window or more after the call that opened the last one |
| JobRuns.JobsAreConserved | pylar/queue/worker.py:160-220 | over every run of any number of workers, each dispatched id is in exactly one of pending, in flight, done and failed, exactly once |
| JobRuns.OriginIsDispatched | pylar/queue/dispatcher.py:48-59 | what is remembered as an id's origin is the record as it was dispatched, with zero attempts, its queueing time and its delay |
| JobRuns.RetriesKeepTheJob | pylar/queue/worker.py:341-352 | wherever a record is, it equals the dispatched one up to attempts and availability, and its attempts count its earlier runs |
| JobRuns.RunsAreBounded | pylar/queue/worker.py:327-352 | a handler is started at most max(1, tries) times under the merged policy, and an id takes at most three times as many processing steps in all |
| JobProgress.EveryJobEnds | pylar/queue/worker.py:160-220 | a job is acknowledged or failed by the time it has been processed `3 * max(1, tries)` times; until then a next step for it is there, due when its record is available, and afterwards there is none |
| JobRuns.FailureUsesAllTries | pylar/queue/worker.py:337-339 | a record that failed by its handler, without a deadline, was started exactly max(1, tries) times |
| JobRuns.AtMostOneLateRun | pylar/queue/worker.py:330-335 | every start but the last is before the deadline |
| JobRuns.RunsAreSpaced | pylar/queue/worker.py:341-352 | start k+1 is no earlier than queueing time, delay and the first k backoffs, each taken from the list with its last entry repeated, and one backoff after start k |
| JobPolicy.PolicyIsMerged | pylar/queue/worker.py:265-281 | the policy's tries are the class's `tries` if given and non-zero, else its `max_attempts`, else what its queue is configured with or 1; the backoff list and the timeout are the class's if given and not empty or zero, else the queue's, else none and 60 seconds |
| JobPolicy.RunsFollowTries | pylar/queue/worker.py:327-352 | with `n` tries by that rule, a handler is started at most max(1, n) times, and exactly that often if it fails by its handler without a deadline |
| JobPolicy.RunsFollowBackoff | pylar/queue/worker.py:341-352 | by that rule's backoff list, start k+1 is no earlier than the dispatch, its delay and the first k waits together, and one wait after start k; wait k is the list's k-th entry, or its last |
| JobPolicy.FailureIsRetriedIff | pylar/queue/worker.py:327-352 | a failed run is followed by another iff the deadline, if any, has not come and a try is left: the record waits with one more attempt, available after its wait, and nothing else changed; otherwise it goes to the failed pool |
| JobPolicy.DispatchedRecord | pylar/queue/dispatcher.py:40-59 | a dispatched job starts with no attempts, queued now, available now or after its delay, at the end of the queue |
| JobPolicy.PopRespectsPriority | pylar/queue/queue.py:82-95 | a record can be popped iff it is available in a listed queue and no record of a queue listed earlier is available |
| Workers.JobQueue.Pop | pylar/queue/queue.py:82-95 | pop yields a due record of the first listed queue that has one, and nothing only if no listed queue has one |
| Workers.JobQueue.FindDue | pylar/queue/queue.py:82-95 | the search respects queue priority and availability, and misses nothing |
| Workers.Dispatcher.Dispatch | pylar/queue/dispatcher.py:40-59 | dispatching is the modelled step: a fresh record, available now or after the delay, appended to the queue |
| Workers.TimeoutEndsRun | pylar/queue/worker.py:192-211 | a run is acknowledged iff it neither raised nor outlasted its timeout, and it never takes longer than a positive timeout |
| Workers.Worker.Process | pylar/queue/worker.py:170-220 | processing is exactly the steps start, time passing up to the job's timeout, and ack or failure; a record that does not resolve goes straight to the failed pool |
| Workers.Worker.HandleFailure | pylar/queue/worker.py:319-352 | the verdict on a failed run is the modelled one: past the deadline, out of tries, or pushed back with its backoff |
| Supervisor.ReapingKeepsTheLiving | pylar/queue/supervisor.py:160-162 | reaping drops exactly the finished workers and keeps the order |
| SupervisorRuns.TickDecidesIff | pylar/queue/supervisor.py:157-213 | outside the cooldown a tick scales up iff the depth is at the threshold or above and the ceiling allows it, else down iff there are more workers than the floor and the queue has been empty for a cooldown; each moves the pool by one worker, any other tick only fills up to the floor, and the two clocks change exactly as that asks for |
| SupervisorRuns.TickRenewsWorkers | pylar/queue/supervisor.py:157-267 | after a tick every worker is at work, all are different, and each was there before or is a new one |
| SupervisorRuns.StartupFillsFloor | pylar/queue/supervisor.py:113-122 | a supervisor starts with exactly the floor's workers and neither clock running |
| SupervisorRuns.TickStaysInBounds | pylar/queue/supervisor.py:157-221 | after any tick, whatever workers died: never above the ceiling; below the floor iff the tick is outside the cooldown, the depth is at the threshold and two or more live workers are missing to the floor; a retirement takes the latest worker and leaves the floor |
| SupervisorRuns.TickEndsBelowFloor | pylar/queue/supervisor.py:184-193 | a run from startup in which two of three workers die and the next tick leaves two |
| SupervisorRuns.PoolStaysInBounds | pylar/queue/supervisor.py:113-221 | over every run of ticks with workers dying in between, the pool never exceeds its ceiling, and is below its floor iff the last tick met that guard |
| SupervisorRuns.DecisionsAreSpaced | pylar/queue/supervisor.py:177-211 | between two scaling decisions there is a cooldown for each decision from the first to the second, so at most 1 + T/cooldown fall in time T |
| SupervisorRuns.ScaleDownAfterIdleWindow | pylar/queue/supervisor.py:169-211 | a scale-down closes a window of a cooldown or more, opened by a tick, in which every tick saw an empty queue |
| SupervisorRuns.NoJobsInIdleWindow | pylar/queue/supervisor.py:195-211 | with a clock that does not go back, no tick inside the cooldown before a scale-down saw a job |
| SupervisorRuns.OverloadFillsThePool | pylar/queue/supervisor.py:184-193 | without deaths, constant depth at or above a positive threshold never shrinks the pool and fills it within a cooldown and a poll gap per missing worker |
| SupervisorRuns.IdlenessDrainsThePool | pylar/queue/supervisor.py:195-221 | without deaths, constant depth zero drives every pool to the floor and holds it there: one below is filled by the first tick, one above never grows and is drained within a cooldown and a poll gap per surplus worker |
| SupervisorPool.PoolState.constructor | pylar/queue/supervisor.py:113-122 | startup spawns the floor's workers one by one |
| SupervisorPool.PoolState.Reconcile | pylar/queue/supervisor.py:157-213 | one tick on the mutable pool is the specified one: reap, clocks, cooldown gate, scale up, scale down or floor |
| SupervisorPool.PoolState.EnforceFloor | pylar/queue/supervisor.py:215-221 | the loop spawns exactly up to the floor and changes no clock |
| LikePattern.EscapeIsCharacterwise | pylar/database/expressions.py:253-255 | the three sequential replaces equal one character-by-character escape of all three specials |
| LikePattern.EscapedPatternFindsValue | pylar/database/expressions.py:253-255 | matching `%` + escaped value + `%` holds iff the value occurs in the text, for all strings |
| LikePattern.EscapedPatternFindsFolded | pylar/database/expressions.py:246 | the same up to any case folding that leaves the three specials alone |
| Expressions.Partition | pylar/database/expressions.py:128 | a keyword splits at its first double underscore, or not at all |
| Expressions.CompileKwargs | pylar/database/expressions.py:125-143 | the loop compiles the keywords in order, stops at the first error, and joins none, one or many clauses |
| LookupTable.KeywordMeaning | pylar/database/expressions.py:125-136 | a keyword is the lookup that its first double underscore spells, `eq` where the suffix is missing or empty |
| LookupTable.EqualityMeaning | pylar/database/expressions.py:225-230 | `eq` and `ne` compare two known values; a literal `None` asks for NULL instead and is always answered |
| LookupTable.OrderMeaning | pylar/database/expressions.py:240-243 | `gt`, `ge`, `lt` and `le` order the column before or after the operand, and are unknown if either is NULL |
| LookupTable.NullnessMeaning | pylar/database/expressions.py:233-234 | `isnull` asks for NULL, or with a falsy operand for a value, and is always answered |
| LookupTable.MembershipMeaning | pylar/database/expressions.py:244 | `in` is true iff the value is among the items and false iff it is known not to be; nothing is in an empty list |
| LookupTable.CharacterMembership | pylar/database/expressions.py:244 | `in` over a string asks for one of its characters |
| LookupTable.SubstringMeaning | pylar/database/expressions.py:245 | `contains` holds iff the operand is somewhere in the text of the value |
| LookupTable.FoldedTextMeaning | pylar/database/expressions.py:246 | `icontains` does so up to case, and nothing in the operand is a wildcard |
| LookupTable.PrefixMeaning | pylar/database/expressions.py:247 | `startswith` holds iff the text of the value begins with the operand |
| LookupTable.SuffixMeaning | pylar/database/expressions.py:248 | `endswith` holds iff the text of the value ends with the operand |
| LookupTable.OperandsTaken | pylar/database/expressions.py:258-265 | which operands each of the twelve suffixes takes, and that any other suffix is unknown |
| ExpressionMeaning.ConditionMeaning | pylar/database/expressions.py:225-250 | each operator's condition is true iff the lookup holds, and false iff it is known not to, with NULL columns and operands |
| ExpressionMeaning.CompilationPreservesMeaning | pylar/database/expressions.py:107-169 | for every Q/F tree and row with NULLs, the compiled condition under three-valued logic is true iff the tree holds, false iff it fails |
| ExpressionMeaning.CompilationReportsFirstFault | pylar/database/expressions.py:62-68 | compilation succeeds iff no lookup is at fault, and otherwise raises the first fault in the order of writing |
| ExpressionMeaning.KwargsAreConjunction | pylar/database/expressions.py:125-143 | keywords compile to the fold of `&` over single lookups, errors included |
| ExpressionMeaning.EmptyQIsNeutral | pylar/database/expressions.py:137-140 | `Q()` is neutral for `&` on either side |
| ExpressionMeaning.DeMorgan | pylar/database/expressions.py:146-169 | `~` turns conjunction and disjunction into each other and cancels, with the same errors |
| QuerySet.WhereTwiceIsConjunction | pylar/database/queryset.py:92-108 | `where(a).where(b)` and `where(a & b)` raise the same error or select the same rows |
| QuerySet.WhereAppends | pylar/database/queryset.py:92-108 | `where` appends its conditions in order, each `Q` compiled and any other as it is, and changes nothing else |
| QuerySet.RowsAreSelected | pylar/database/queryset.py:442-457 | the selected rows are exactly those that pass every condition and the soft-delete mode, each as often as the table has it and in its order |
| QuerySet.AllIsSlice | pylar/database/queryset.py:399-411 | `all` sorts the selected rows, leaves out the offset's and takes no more than the limit |
| QuerySet.CountMatchesAll | pylar/database/queryset.py:185-191 | `all` returns what remains of the counted rows after the offset, up to the limit; with neither, exactly as many as `count` |
| QuerySet.ModesPartition | pylar/database/queryset.py:449-457 | for any conditions, `exclude` and `only` share no row and together are `include`, row for row |
| QuerySet.ModesAgreeWithoutSoftDeletes | pylar/database/queryset.py:449-451 | without soft deletes the mode changes no statement |
| QuerySet.DeleteMovesRows | pylar/database/queryset.py:350-376 | for conditions that do not read `deleted_at`, a default delete empties `exclude`, moves exactly its rows, stamped, to `only`, and leaves `include` with those and the rows deleted before |
| QuerySet.HardDeleteRemovesSelection | pylar/database/queryset.py:378-386 | a hard delete removes exactly the selected rows; what is left passes none of the selection |
| QuerySet.BuildSelect | pylar/database/queryset.py:399-411 | the assembled statement carries every condition (the soft-delete filter first), the order, the limit and the offset |
| QuerySet.Table.Count | pylar/database/queryset.py:185-191 | the number of rows passing all conditions, whatever the limit and offset |
| QuerySet.Table.Delete | pylar/database/queryset.py:350-376 | returns the number of selected rows, stamps or removes exactly those, and leaves the others in place |
| QuerySet.Table.ForceDelete | pylar/database/queryset.py:378-386 | removes exactly the rows the current mode selects, and returns their number |
| Paginator.Paginate | pylar/database/queryset.py:252-307 | the page returned is the nearest existing page of the ordered result, with its count, and it answers the request as the next row says, whatever limit, offset, page or page size was given |
| Paginator.PageInAnswers | pylar/database/queryset.py:275-307 | the page has the size asked for, or 1 for less, and the number asked for if there is such a page, else the nearest; it shows as many rows as its size from where it begins, and the last page what is left |
| Paginator.SimplePaginate | pylar/database/queryset.py:309-346 | the page as asked for, and "more" iff the next page is not empty |
| Paginator.PageInDescribes | pylar/database/paginator.py:53-75 | a page's first and last item delimit its slice, it is empty only for an empty result, and it reports more iff rows follow |
| Paginator.PagesTile | pylar/database/queryset.py:252-307 | pages 1 to `last_page` concatenate to the ordered result, every row exactly once, in order |
| Paginator.LastPageCovers | pylar/database/paginator.py:53-57 | `last_page` is the least number of pages that covers the result |
| Paginator.CeilingByDivision | pylar/database/queryset.py:292 | the rounding in `paginate` and in `last_page` agree |
| Paginator.PageRange | pylar/database/paginator.py:91-115 | the built list is head, window and tail for every last page, current page and window |
| Paginator.PageListIsWellFormed | pylar/database/paginator.py:91-115 | for a current page in range and a window of zero or more, the list starts at 1, ends at the last page, shows the window and nothing else, steps by one, has no doubled ellipsis, each hides at least one page, and it has at most `2 * window + 5` entries |
| SessionSpec.RequestRefines | pylar/session/middleware.py:36-90 | what the client's next request finds is the fold of this request's puts and forgets, and its flashes; nothing after a destroy; whatever ids were rotated |
| SessionSpec.ReadDuringRequest | pylar/session/session.py:71-84 | a read yields the user's data so far, else what the previous request flashed (until a destroy), never what this request flashed |
| SessionSpec.FlashLastsOneRequest | pylar/session/session.py:30-49 | over any sequence of requests, a request finds flashed exactly what the one before it flashed |
| SessionSpec.ReadFlashesAreDropped | pylar/session/session.py:128-132 | no stored payload ever holds flashes that were already readable |
| SessionSpec.ReadingDropsFlashes | pylar/session/session.py:30-49 | a request that only reads leaves the store alone, unless there were flashes to be read, which are then gone |
| SessionSpec.KeysPersist | pylar/session/middleware.py:36-90 | a key keeps its value over any number of requests that neither put nor forget it nor destroy the session |
| SessionSpec.RotationMovesPayload | pylar/session/middleware.py:78-90 | a request with exactly one rotation and no destroy leaves the payload under the new id, which the client then holds, and nothing under the old |
| SessionSpec.OldIdIsGoneIff | pylar/session/session.py:114-118 | with any number of rotations, the id the request came with is gone iff it rotated once or nothing was stored under it |
| SessionSpec.DestroyRemoves | pylar/session/middleware.py:78-84 | after a destroy nothing is stored under the id the session ends with, nor, with at most one rotation, under the id the request came with, and the cookie is gone |
| SessionSpec.StoredIdsAfter | pylar/session/middleware.py:78-90 | exactly which ids are stored after a request, for any number of rotations, with and without a destroy |
| SessionSpec.CookieAfter | pylar/session/middleware.py:92-100 | the cookie is dropped iff the session was destroyed; otherwise it holds the id of the last rotation, or without one the id that came in, stored or not |
| SessionSpec.TwoRotationsKeepOldId | pylar/session/session.py:114-118 | two rotations in one request leave the payload under the first id as well as under the last |
| SessionSpec.OtherSessionsStay | pylar/session/middleware.py:78-90 | a request changes no other session's payload |
| SessionSpec.AllAgreesIff | pylar/session/session.py:71-93 | for every key, `all` and `get` agree iff the user has no value under it, or the readable flash under it is equal, or it is neither flashed nor begins with `_flash:` |
| SessionSpec.AllAndGetDiffer | pylar/session/session.py:71-93 | a value put over a flash, and a value put under a `_flash:` key, are found by `get` and not by `all` |
| Sessions.Session.constructor | pylar/session/session.py:30-49 | opening a session moves the previous request's flashes to the readable bag, drops older ones, and marks it dirty iff it rotated |
| Sessions.Session.Get | pylar/session/session.py:71-78 | the user's data first, then the readable flash bag, then the default |
| Sessions.Session.Flash | pylar/session/session.py:106-112 | the value joins the bag for the next request, replacing a missing or malformed bag |
| Sessions.SessionMiddleware.Handle | pylar/session/middleware.py:36-59 | one request on the mutable session and store has exactly the specified effect on store and cookie |
| Sessions.SessionMiddleware.PersistSession | pylar/session/middleware.py:78-90 | the abandoned id is dropped, a destroyed session is removed, and otherwise the payload is written iff dirty or rotated |

## Left out

- Container scopes entered by interleaved tasks: `_scope_stack` is shared, and only properly nested scopes are modelled.
- Container tags, `call`, and type-hint inspection: parameter lists are given data. A factory is the list of types it makes and its outcome; one that catches the container's errors or uses other container methods is not modelled.
- Rebinding between resolutions of a run: runs have fixed bindings, and `ContainerBinding.BindKeepsTidyIff` says when a rebinding keeps the invariant they assume. An object made outside the container reserves its identity when it is registered.
- Concrete cache, queue and session drivers: a native increment refuses a non-counter with an error of its own, a store entry expires at put time plus ttl, pop removes the record and honours `available_at`, and the push of a retry returns the record from flight to pending.
- Tagged caches, `remember` without a lock, `decrement`, and the `Throttled` middleware: simpler than what is modelled.
- SingleFlight.FactoryRunsOnce: a factory result of `None` is not modelled, since the cache cannot tell it from a missing value.
- Job middleware order, hooks, worker shutdown, cancellation, handlers that do not stop when their timeout cancels them, failures of ack, push or the session scope, and the operator commands that retry, forget or prune records.
- Jobs.QueuePolicy: the policy is fixed for a run; rebinding the queue configuration while jobs are in flight is not modelled.
- Supervisor pool sizes, hooks, and the wait for a retired worker: a retirement is one step.
- SQLAlchemy itself: `contains`, `startswith` and `endswith` are taken as substring tests (its own autoescape), ordering comparisons with `None` or a boolean and comparisons with a list are taken to raise, and a condition is its meaning under three-valued logic.
- The operator methods of `F` and `Q`: they only build the tree nodes that are modelled.
- Case folding is one character to one; foldings that change the length of a string are not modelled.
- The chain operators `order_by`, `limit` and `offset`, which set one field of the state, and `with_`.
- Eager loading, `first`, `get`, `exists`, `first_or_create` and `update_or_create`, database sessions and transactions; `ORDER BY` is any rearrangement of the selected rows, and negative limits and offsets are left to the database.
- IEEE rounding in `math.ceil(total / per_page)`: the ceiling is exact.
- Page URLs and the JSON envelope of a paginator.
- Expiry of stored sessions, handlers that raise, concurrent requests on one session, cookie signing and cookie attributes; handlers leave the two reserved flash keys alone.
- HTTP, templates, mail, storage, console, scheduling, encryption and authentication.
