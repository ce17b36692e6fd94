# Verified models of the framework's hard core

This project models seven components of the Go framework in Dafny and proves what their documentation
and tests promise about them, over every input, every run and every reachable state.

* **Cron** — `CronField` (reading, validating and matching one field), `CronNext` (when a schedule fires
  next), `CronBound` (is a search over 366 days enough), `Calendar` (the Gregorian calendar the search walks
  through), `Scheduler` (tasks, guards, loops, start and stop as a state machine), `SchedulerEffects` (what each
  of its steps does to a task, a loop and an execution), `SchedulerProgress` (why a stop ends) and `SchedulerCode` (the scheduler's methods, proved to
  perform that machine's actions).
* **Rate limiters** — `FixedWindow` (in memory, with background clean-up) and `SlidingWindow` (the Redis
  script and its caller).
* **Distributed lock** — `Lock` (the scripts, the store, the client calls) and `AutoExtend` (the two
  goroutines of the self-extending lock).
* **WebSocket hub** — `Hub` (callers, run loop and Stop as a state machine), `HubEffects` (what each of its steps
  does to a connection), `HubProgress` (why a Stop ends) and `HubCode` (the hub's methods and loops, proved to perform that machine's actions).
* **Application** — `AppLifecycle` (Init, Shutdown and Go racing with each other), `LifecycleEffects` (what each
  step does to the state, a goroutine and a caller), `AppResources` (installing,
  rolling back and closing the process-wide defaults while other applications do the same), `AppFleet` (any
  number of applications whose Inits do not overlap) and `AppOverlap` (any number whose Inits, rollbacks and
  shutdowns interleave step by step).
* **Database manager** — `DbManager` (opening with retries, rebuilding, closing, probing, picking) and
  `DbHealth` (probe rounds racing with rebuilds).
* **Server-sent events** — `Sse` (the writer over a connection that can break anywhere), `EventStream` (a
  client by sections 9.2.5 and 9.2.6 of the WHATWG HTML Living Standard) and `SseRoundTrip`.

`Text` holds the Go string functions the code relies on, `Arith` a few facts about division, `Totals` sums used as
measures.

Code that changes fields in place is a class whose methods are proved against functions of the old state.
Protocols between threads are state machines: a state, the enabled atomic actions, and theorems by induction
over every finite run. A run is a sequence of states and a sequence of actions (`IsRun`); counters that exist
only to state a theorem are called history where they are declared.

`dafny verify dfyconfig.toml` checks everything.

## Where the code and its words differ

* A fixed window is described as letting through up to twice the rate around a boundary; the exact bound for a
  closed interval as long as the window is twice the rate less one, and it is reached for every rate.
* A Redis limiter accepts any positive window, but below one millisecond it never limits anything.
* A stepped weekday range does not wrap round the week: `5-7/2` is accepted and never matches.
* The 366-day search succeeds from every start exactly if the expression admits a date that exists in common
  years (weekday free); `0 0 29 2 *` is accepted and missed from New Year 2025 (`CronBound.LeapDayIsMissed`).
* `Shutdown` calls the branch for an already stopped app unreachable; it is taken exactly after a failed `Init`
  (`AppLifecycle.StoppedBranchIff`, `AppLifecycle.ShutdownAfterFailedInit`).
* A failed `Init` is to leave the defaults as they were. When Inits of two apps overlap it may leave a closed
  manager of a failed app as the default (`AppOverlap.OverlapLeavesClosedDefault`), as `initMu` is one per app.
  The defaults stay right exactly while every rollback finds no later swap of its slot still in place
  (`AppOverlap.RightIffNested`); it is enough that apps initialise one at a time (`AppOverlap.OneAtATimeNests`).
* Failed probe rounds are counted across a successful `InitDB`, so the first failed round after one may mark a
  freshly opened master unhealthy (`DbManager.FailuresOutliveInit`).

## Model

| member | source | states |
|---|---|---|
| `Calendar.DateRoundTrip` | cron/cron.go:481-504 | Numbering the days and reading the date of a number are inverse to each other on every valid date, so the search walks through real dates. |
| `Calendar.NextDay` | cron/cron.go:481-495 | Consecutive day numbers are consecutive dates, through ends of months and years. |
| `Calendar.YearOfBounds` | cron/cron.go:498-504 | The year found for a day is the one whose first and last day enclose it. |
| `Calendar.YearlyGap` | cron/cron.go:481-495 | A date that exists in every year recurs after 365 or 366 days. |
| `Calendar.UnixEpoch` | cron/cron.go:481-495 | The numbering of days agrees with the clock the search reads: 1 January 1970 is day 719162 and was a Thursday. |
| `CronField.OneReading` | cron/cron.go:582-612 | The item grammar is unambiguous: the reader finds an item exactly if the text has that shape, and no text has two. |
| `CronField.ItemMatches` | cron/cron.go:533-579 | An item matches a value exactly if it is well formed, legal and denotes the value: steps, ranges, wrap-around, 7 as Sunday; all other texts match nothing. |
| `CronField.ItemAccepted` | cron/cron.go:694-733 | The validator accepts exactly the well-formed legal items, so what it rejects matches no value. |
| `CronField.MeaningEmpty` | cron/cron.go:694-733 | A legal item denotes no value exactly if it is a range that is reversed after folding 7 to 0 and is outside the weekday field or carries a step. |
| `CronField.AcceptedButNever` | cron/cron.go:537-552 | `5-7/2` is accepted for the weekday and matches no day. |
| `CronField.FieldMatches` | cron/cron.go:516-530 | A field matches exactly the union of what its well-formed items denote. |
| `CronField.FieldAccepted` | cron/cron.go:678-692 | A field is accepted exactly if every item of its list is. |
| `Text.AtoiNumeral` | cron/cron.go:537-579 | The numbers in a field are decimal, with a sign or without, as far as they fit into 64 bits. |
| `Text.TrimSpaceTakes` | cron/cron.go:520-526 | What is trimmed off an item is white space at its ends, all of it and nothing else. |
| `CronNext.ParseWritten` | cron/cron.go:647-675 | An accepted schedule written with single spaces parses to itself. |
| `CronNext.ParsesExactly` | cron/cron.go:647-692 | An expression is accepted if and only if it has five words and each is the star or a list of well-formed items within the range of the field in its place; it is accepted as these five. |
| `CronNext.FirstMatchIsFirst` | cron/cron.go:487-494 | The minute the search stops at matches, no earlier one does, and it stops empty-handed only if none does. |
| `CronNext.Next` | cron/cron.go:481-495 | The loop over minutes computes the next firing instant of the specification. |
| `CronNext.FullNextIsEarliest` | cron/cron.go:481-504 | The answer is the earliest whole minute strictly after now at which all five fields match, within 366 days; the zero time exactly if there is none. |
| `CronNext.FiresAtDate` | cron/cron.go:507-530 | An expression fires at a date and time exactly if each of its five fields is the star or lists an item that denotes its part of them. |
| `CronNext.DailyNextIsEarliest` | cron/cron.go:422-428 | The least instant strictly after now that shows the clock time, at most 24 hours ahead. |
| `CronNext.WeeklyNextIsEarliest` | cron/cron.go:449-457 | The least instant strictly after now with the weekday and the clock time, at most 7 days ahead. |
| `CronNext.NextRunIsEarliest` | cron/cron.go:405-504 | For every valid schedule of any kind: one interval on, or the least instant strictly after now at which that kind of schedule fires; the zero time exactly if a cron expression has none in the window. |
| `CronBound.YearIsEnough` | cron/cron.go:481-504 | With a weekday field of any spelling that matches all seven days, and a date of a common year admitted, the search succeeds from every start. |
| `CronBound.MissedFrom2025` | cron/cron.go:481-504 | Without such a date it gives up when started at New Year 2025. |
| `CronBound.SearchAlwaysSucceeds` | cron/cron.go:481-504 | With such a weekday field, the search succeeds from every start if and only if the fields admit a clock time on a date of a common year. |
| `CronBound.LeapDayIsMissed` | cron/cron.go:481-504 | `0 0 29 2 *` is accepted, found from 1 January 2028 and missed from New Year 2025, where the answer is the zero time. |
| `CronBound.WeekDecides` | cron/cron.go:481-504 | With day and month fields of any spelling that match every date, anything satisfiable is found within 10080 minutes, and nothing found there means unsatisfiable. |
| `CronBound.YearIsNeeded` | cron/cron.go:481-484 | 365 days would not do: one expression and start need the full 366. |
| `Scheduler.StepKeeps` | cron/cron.go:102-397 | Every action of every thread keeps the scheduler's invariant. |
| `Scheduler.RunInv` | cron/cron.go:249-397 | It holds in every reachable state. |
| `Scheduler.RunCounts` | cron/cron.go:218-246 | The wait group is live loops plus unfinished scheduled executions and never negative; a task has at most one execution in flight; its starts are its run count plus the one unrecorded execution that holds the guard. |
| `Scheduler.StoppedMeansQuiet` | cron/cron.go:280-306 | After a stop that itself turned the scheduler off returned true, no loop and no scheduled execution is alive until the next start. |
| `Scheduler.StopNeverStuck` | cron/cron.go:280-306 | While a stop that turned the scheduler off has not returned, some step towards its end is possible: its own, a loop's exit or an execution's. |
| `SchedulerProgress.EveryStepCounts` | cron/cron.go:280-306 | Each such step lowers a measure of loops, executions and the stop itself, so that a stop returns unless somebody asks for something new meanwhile. |
| `SchedulerProgress.WholeLife` | cron/cron.go:249-397 | A run in which a task is added, checked, claimed, run once and recorded, and the scheduler is stopped, with every state on the way as the code leaves it. |
| `Scheduler.StoppedClaimsNothing` | cron/cron.go:341-358 | No task is claimed while the scheduler is off, even after a stop that timed out. |
| `SchedulerEffects.ChangesExactly` | cron/cron.go:102-397 | What each action does, by fields: which tasks, names, loops and executions come and go, what turns a task on and off, moves its next run, takes its guard or counts a run, when the scheduler is on and who holds the lock. |
| `SchedulerEffects.ClaimedExactly` | cron/cron.go:359-371 | A check starts an execution exactly if the task is enabled, its next run is not the zero time and is before the time of the check, and its guard is free. |
| `SchedulerEffects.CheckStartsTheDue` | cron/cron.go:341-372 | A check that gets the lock looks exactly once at every task that has a name, and starts it exactly under these conditions as they were when it began, the guard as it is at that moment. |
| `SchedulerEffects.DisabledIsNotClaimed` | cron/cron.go:150-161 | From a DisableTask to the next EnableTask that leads to the same task it stays off and nothing claims it. |
| `SchedulerEffects.RemovedIsNotClaimed` | cron/cron.go:128-132 | A task whose name was removed or given to a new task is never claimed again. |
| `Scheduler.NextRunIsAnchored` | cron/cron.go:359-371 | After k scheduled claims the next run is the schedule applied k times to its starting value, whatever handlers and manual runs do. |
| `Scheduler.IntervalRunsAreBounded` | cron/cron.go:405-407 | An interval task is claimed by time t at most ceil((t - T0) / I) times. |
| `SchedulerCode.SchedulerObject.Add` | cron/cron.go:102-125 | The method performs exactly the state machine's action, replacing an older task of the name by a new object with its own guard. |
| `SchedulerCode.SchedulerObject.Enable` | cron/cron.go:135-147 | The same for re-enabling; an unknown name changes nothing. |
| `SchedulerCode.SchedulerObject.Begin` | cron/cron.go:249-269 | The same for starting, also when already running. |
| `SchedulerCode.SchedulerObject.Claim` | cron/cron.go:359-371 | One task of a check is claimed exactly if it is enabled, its next run is known and before the time of the check, and its guard is free; the effect is the machine's claim action. |
| `SchedulerCode.SchedulerObject.CollectDue` | cron/cron.go:341-372 | The whole locked section, in any map order, is a possible sequence of the machine's actions that ends with the lock free. |
| `FixedWindow.RateLimiter.Allow` | middleware/ratelimit.go:92-121 | Answer and new records, in all four cases. |
| `FixedWindow.RateLimiter.Cleanup` | middleware/ratelimit.go:124-145 | A client is gone after a pass exactly if its window was over when the pass looked at it; the records of all others are as they were. |
| `FixedWindow.SweepForgets` | middleware/ratelimit.go:135-142 | In every trace, a look of the cleanup forgets its client exactly if the window is over by then, and nobody else. |
| `FixedWindow.SweepsAreInvisible` | middleware/ratelimit.go:107-142 | Clean-up anywhere in a trace changes no answer: the limiter simulates one that never forgets. |
| `FixedWindow.WindowBounds` | middleware/ratelimit.go:92-121 | What a client's current window says about its admissions in any interval as long as the window. |
| `FixedWindow.AtMostTwiceTheRate` | middleware/ratelimit.go:92-121 | Every closed interval no longer than the window admits at most 2 * rate - 1 requests of a client, for any ordered trace of any clients. |
| `FixedWindow.TwiceTheRateIsReached` | middleware/ratelimit.go:92-121 | That bound is reached for every rate and window. |
| `FixedWindow.ModestClientsPass` | middleware/ratelimit.go:92-121 | A client that never sends more than the rate in any such interval is never refused. |
| `SlidingWindow.RedisRateLimiter.Script` | middleware/ratelimit.go:176-196 | Reply and new sorted set of the script. |
| `SlidingWindow.RedisRateLimiter.Allow` | middleware/ratelimit.go:262-294 | With an answer the caller goes ahead exactly if fewer than the rate are left after trimming; without one, exactly if the limiter fails open; error and effect for every way the round trip can go. |
| `SlidingWindow.CountIsWindow` | middleware/ratelimit.go:176-196 | The set the script counts is exactly the calls admitted for the key in (now - window, now]. |
| `SlidingWindow.AtMostTheRate` | middleware/ratelimit.go:176-196 | Every interval (t - window, t] holds at most the rate of admissions per key. |
| `SlidingWindow.RefusedExactlyWhenFull` | middleware/ratelimit.go:176-196 | A call is refused exactly if the rate was already admitted in the window that ends with it. |
| `SlidingWindow.AllowedExactly` | middleware/ratelimit.go:262-294 | In every trace: an answered call goes ahead exactly if fewer than the rate were admitted in the window that ends with it, any other exactly if it fails open. |
| `SlidingWindow.ExpiryIsInvisible` | middleware/ratelimit.go:183-194 | The expiry of the key never changes a decision. |
| `SlidingWindow.FailClosedNeverExceeds` | middleware/ratelimit.go:262-294 | When all calls for a key fail closed, no lost or failed round trip makes more callers go ahead than the rate. |
| `SlidingWindow.LimitsExactlyFromOneMilli` | middleware/ratelimit.go:262-275 | A limiter ever refuses anything if and only if its window is at least one millisecond. |
| `Lock.TtlMillis` | cache/lock.go:40-45 | Accepted exactly from one millisecond on, rounded down. |
| `Lock.LateHolderChangesNothing` | cache/lock.go:72-94 | In every run with fresh tokens, once a token has lost its key, any unlock or extension that still arrives from it, however late and whoever holds the key, leaves the whole store as it is. |
| `Lock.OnceLostNeverRegained` | cache/lock.go:63-94 | With fresh tokens, the time a token holds a key is one interval, under every interleaving of acquire, unlock, extend and clock steps. |
| `Lock.IntervalsAreDisjoint` | cache/lock.go:63-94 | The intervals of different tokens never overlap. |
| `Lock.HeldUntilReleased` | cache/lock.go:63-94 | Until its own release, and while the clock stays short of its expiry, a token keeps the key. |
| `Lock.OthersFail` | cache/lock.go:63-70 | Meanwhile every other attempt leaves the store as it is. |
| `Lock.ReleasedIsFree` | cache/lock.go:72-82 | In every run the holder's release frees the key. |
| `Lock.OtherKeysUntouched` | cache/lock.go:63-94 | No acquire, release or extension touches another key. |
| `Lock.AcquiredIff` | cache/lock.go:63-70 | A new token gets the key exactly if nobody holds it. |
| `Lock.HeldExactlyForItsTime` | cache/lock.go:63-94 | A lock neither released nor extended by its token is held exactly until the granted time has passed, under every interleaving. |
| `Lock.ExpiredIsGranted` | cache/lock.go:63-70 | After that, the next token that asks for the key gets it. |
| `Lock.Redis.LockScript` | cache/lock.go:63-70 | Atomic acquire. |
| `Lock.Redis.UnlockScript` | cache/lock.go:72-82 | Atomic compare and delete. |
| `Lock.Redis.ExtendScript` | cache/lock.go:84-94 | Atomic compare and extend. |
| `Lock.Redis.NewLock` | cache/lock.go:99-125 | Result and effect for every failure; a lost reply may still have locked. |
| `Lock.Redis.Unlock` | cache/lock.go:138-162 | No error exactly if the token held the key, and never any effect on another's lock. |
| `Lock.Redis.ExtendLock` | cache/lock.go:176-205 | No error exactly if the token held the key, which then lasts the full new time. |
| `Lock.Redis.TryLock` | cache/lock.go:208-228 | Every result and the store it leaves, by what happened: each attempt before the last was answered and found the key held and its wait was not cancelled; success, cancellation, and each error exactly as the last attempt and its wait say; not acquired exactly after all attempts. On success the token holds the key for its full time; otherwise no token of the call does, except one whose reply was lost. |
| `Lock.Redis.WithLock` | cache/lock.go:236-254 | The function starts only under the lock; whether it returns, fails or panics, the unlock follows it once and the caller gets what the function ended with. |
| `AutoExtend.ShutsDownOnce` | cache/lock.go:264-317 | In every run each channel is closed once by its owner and Unlock is attempted once, after the extender has exited. |
| `AutoExtend.NoExtensionAfterUnlock` | cache/lock.go:264-317 | An extension that arrives after the unlock changes nothing. |
| `AutoExtend.NeverStuck` | cache/lock.go:279-317 | No reachable state deadlocks: some own action is always possible that brings the return nearer. |
| `AutoExtend.HeldWhileTimely` | cache/lock.go:279-317 | If every extension reaches Redis before the previous grant expires, the lock is held without a gap until its unlock. |
| `AutoExtend.NobodyElseGetsIn` | cache/lock.go:279-317 | And no other acquire of the key succeeds meanwhile. |
| `AutoExtend.ExtendsExactlyUntil` | cache/lock.go:286-303 | The extending goroutine goes on until it sees the stop or the cancellation, or an extension fails or finds the lock lost, and no longer. |
| `AutoExtend.ChangesExactly` | cache/lock.go:279-317 | What each action does to Redis, the caller and the extending goroutine; an extension answered while the lock is held renews it for the full time. |
| `AutoExtend.WholeLife` | cache/lock.go:279-317 | A run with one extension, the function's end, both closings and the unlock, after which the key is free. |
| `Hub.StepKeeps` | ws/ws.go:402-581 | Every action of every caller, of the loop and of Stop keeps the hub's invariant. |
| `Hub.NoneForgotten` | ws/ws.go:402-524 | In every reachable state each accepted connection is queued, in the set, in the hands of the loop or of Stop, or closed. |
| `Hub.StopLeavesQuiet` | ws/ws.go:487-501 | Once any Stop has returned, also when it raced with Run starting or with another Stop, all queues and the set are empty for good and every accepted connection is closed. |
| `Hub.StopNeverStuck` | ws/ws.go:487-501 | Until a call of Stop has returned, some step towards its end is possible: an enqueue's, the loop's, the stop's under way or its own. |
| `HubProgress.EveryStepCounts` | ws/ws.go:402-501 | Every action that is no new call lowers a lexicographic measure of enqueues under way, queued requests, the loop and the stop, so that the hub comes to rest. |
| `HubProgress.WholeLife` | ws/ws.go:402-501 | A run in which a connection is taken in, gets a broadcast and is closed by a Stop that returns, with every state on the way as the code leaves it. |
| `Hub.NoGaps` | ws/ws.go:413-441 | A connection's broadcasts are a contiguous ordered slice of those processed, and while it is in the set they end with every one since it was inserted. |
| `HubEffects.ServedWhileIn` | ws/ws.go:413-441 | A connection taken from the register queue enters the set and, until the loop takes its leave, finds it closed or full, or winds down, stays there and gets every broadcast processed since, in order. |
| `HubEffects.InsertedIsMember` | ws/ws.go:413-419 | Its insertion adds exactly it to the set and closes nothing. |
| `HubEffects.ChangesExactly` | ws/ws.go:402-581 | In every run, exactly when a connection becomes closed (its own close, a refused registration, its removal, a failed send, the discarding, the closing of all), enters the set and leaves it. |
| `HubEffects.MovesExactly` | ws/ws.go:402-581 | In every run, exactly how the queues grow at their ends and shrink at their heads, what is accepted, what is in whose hands, which calls are under way and what the flags say. |
| `Hub.FirstInFirstOut` | ws/ws.go:402-441 | Until the hub is stopped, broadcasts are processed in the order of their acceptance, each once and none left out; no queue ever exceeds its capacity. |
| `HubCode.HubObject.EnqueueRegister` | ws/ws.go:503-524 | Refused as stopped, not running or full exactly under the three conditions, in this order, and then the connection is closed; else accepted; in every case the machine's two enqueue actions. |
| `HubCode.HubObject.EnqueueUnregister` | ws/ws.go:536-554 | The same three conditions and the machine's actions; a refusal changes nothing. |
| `HubCode.HubObject.EnqueueBroadcast` | ws/ws.go:566-582 | The same for broadcasts. |
| `HubCode.HubObject.Insert` | ws/ws.go:413-419 | The machine's action: the connection joins the set and nothing is closed. |
| `HubCode.HubObject.Remove` | ws/ws.go:421-430 | The machine's action: a member taken from the queue leaves the set and is closed, anybody else is left alone. |
| `HubCode.HubObject.Send` | ws/ws.go:138-155 | Never waits: delivered exactly if the connection is open and its queue has room. |
| `HubCode.HubObject.SendOrDrop` | ws/ws.go:435-440 | One turn of the broadcast loop is the machine's send action with the room the queue has; a member that cannot take the message is dropped and closed. |
| `HubCode.HubObject.SendToAll` | ws/ws.go:432-441 | In any order the loop is a possible sequence of the machine's actions, after which every member that can take the message has it once and stays, every other is dropped and closed, nobody else is touched. |
| `HubCode.HubObject.DrainPending` | ws/ws.go:447-463 | Whichever order the select picks, a possible sequence of the machine's actions; all queues end empty and exactly the queued connections are closed. |
| `HubCode.HubObject.CloseAll` | ws/ws.go:465-472 | The machine's action: the set ends empty and exactly its connections are closed. |
| `HubCode.HubObject.WindDown` | ws/ws.go:408-411 | After the stop signal the loop's two calls take the machine to its end: queues and set are empty and every connection in them is closed. |
| `AppLifecycle.StepKeeps` | app.go:478-559 | Every action of every caller of Init, Shutdown and Go keeps the lifecycle's invariant. |
| `AppLifecycle.AtMostOnce` | app.go:478-509 | doInit and doShutdown each run at most once and never overlap; at most one of rollback and doShutdown ever runs. |
| `AppLifecycle.StageAdvances` | app.go:478-559 | The state only advances. |
| `AppLifecycle.NoWorkOnceStopping` | app.go:1298-1317 | Once the state is stopping the wait group never increases. |
| `AppLifecycle.NoAddDuringWait` | app.go:1298-1317 | No goroutine is added once a wait for the goroutines has begun. |
| `LifecycleEffects.ChangesExactly` | app.go:478-559 | What each action does to the state, to the goroutine of one call of Go, to one waiting caller and to the counts of doInit, rollback and doShutdown. |
| `LifecycleEffects.AdmittedUntilStarted` | app.go:1298-1317 | A call of Go that looks before the app is stopping is admitted, and the app cannot begin to stop until it has been started. |
| `LifecycleEffects.AwaitedMeansIdle` | app.go:521-540 | A wait for the goroutines that does not give up ends only when none of them is alive. |
| `LifecycleEffects.WholeLife` | app.go:478-509 | A run in which an app initialises, starts a goroutine and is shut down after that has ended. |
| `AppLifecycle.InitResults` | app.go:478-509 | What a returned Init tells its caller is true of the one doInit, and no two callers are told opposite things. |
| `LifecycleEffects.InitTellsExactly` | app.go:478-509 | A caller of Init that finds the app new runs doInit and is told how it went; one that finds it initialised is told of success; one that finds it stopping or stopped, that it is closed. |
| `AppLifecycle.ShutdownIsFinal` | app.go:1172-1194 | Once any Shutdown has returned the app is stopped and nothing of its life cycle runs or starts again. |
| `AppLifecycle.StoppedBranchIff` | app.go:1172-1194 | Shutdown takes the branch for an already stopping or stopped app exactly if doInit has failed, and runs doShutdown exactly if not. |
| `AppLifecycle.ShutdownAfterFailedInit` | app.go:1172-1194 | A run that takes it: an Init that fails, rolls back and returns, then a Shutdown. |
| `AppLifecycle.NeverStuck` | app.go:478-559 | Until all calls have returned somebody has an action to take. |
| `AppLifecycle.EveryStepCounts` | app.go:478-559 | Every action that is not a new call decreases a measure, so all calls return. |
| `AppResources.App.constructor` | app.go:441-463 | A new app owns nothing but its registry of rate limiters. |
| `AppResources.App.DoInit` | app.go:787-979 | It succeeds exactly if nothing that is switched on fails, by option and fault, and then exactly the components that are switched on are up. Wherever it stops and whatever other apps do, this app knows what it replaced and has closed nothing of its own; while the others keep quiet, putting that back restores every default. |
| `AppResources.App.RollbackReplacedResources` | app.go:622-701 | Whatever other apps do meanwhile, it writes exactly the defaults the app replaced, in order, and closes exactly its database, redis, storage and rate limiters; if they keep quiet, nothing else differs. |
| `AppResources.App.CommitReplacedResources` | app.go:703-740 | The app forgets what it replaced and closes nothing. |
| `AppResources.App.FailAfterInit` | app.go:521-559 | Whatever other apps do, exactly what this app has open is closed, all it had made a default among it; if they keep quiet, every default is again what it was. |
| `AppResources.App.Init` | app.go:478-509 | It succeeds exactly if nothing that is switched on fails. Whatever other apps do, a success closes nothing and a failure only and all of its own; if they keep quiet, a failure leaves every default as it was and a success replaces, slot by slot, the defaults of exactly the components that are switched on. |
| `AppResources.App.CloseResources` | app.go:566-620 | An initialised database, redis and storage are closed, whatever other apps do; with the fall-back to the default when the app has lost its database or redis manager. |
| `AppResources.App.DoShutdown` | app.go:1201-1293 | Whatever other apps do meanwhile, a shutdown closes all of the app's open managers and nothing else, and writes no default. |
| `AppFleet.LiveAppsStayOpen` | app.go:703-710 | When Inits do not overlap: no manager of a running app, or of one not yet initialised, is closed. |
| `AppFleet.ClosedDefaultsWereShutDown` | app.go:622-701 | When Inits do not overlap: a default that is closed belongs to an app that was shut down; a failed Init never leaves one behind. |
| `AppFleet.FailureIsInvisible` | app.go:622-701 | When Inits do not overlap: a failed Init changes neither the defaults nor whether another app's manager is closed. |
| `AppOverlap.StepKeeps` | app.go:622-979 | Every single swap, rollback swap, close and commit of every app keeps the owners of managers. |
| `AppOverlap.OnlyOwnManagersAreClosed` | app.go:566-701 | However the steps of any apps interleave, a step closes at most a manager of the app that takes it, and no manager of an app that has yet to initialise, initialises or runs is closed. |
| `AppOverlap.ChangesExactly` | app.go:622-979 | What each action does to one default, to the closed managers and to one app: its phase, its managers and what it remembers to put back. |
| `AppOverlap.EndsClean` | app.go:566-701 | However the steps of any apps interleave, an app that has failed or is shut down has closed all its managers, and a failed one has nothing left to put back. |
| `AppOverlap.FailsOrShutsDown` | app.go:478-509 | An app whose Init has failed is never shut down or made to run, and one that is being shut down never fails. |
| `AppOverlap.PutsBackWhatItReplaced` | app.go:622-701 | However they interleave, a rollback sets a slot to what it was just before this app's own swap of it. |
| `AppOverlap.OverlapLeavesClosedDefault` | app.go:622-701 | The run in which it goes wrong: two apps swap the database and fail in the order they swapped; both Inits are over and the default is the closed manager of the first. |
| `AppOverlap.RollbackIsRightIff` | app.go:622-701 | With the rollbacks before it nested, a rollback leaves the default that would be there had the swaps put back never been made, exactly if no swap made since its own is still in place. |
| `AppOverlap.RightIffNested` | app.go:622-701 | In every run and for every slot: the default is right all along if and only if every rollback is nested in this way. |
| `AppOverlap.LeavesAbandonedIff` | app.go:622-701 | A rollback leaves a manager whose own app has put the slot back if and only if it was one when this app replaced it, or its app put the slot back between this app's swap and this rollback. |
| `AppOverlap.NestedLeavesNoneAbandoned` | app.go:622-701 | While rollbacks are nested no default is a manager whose app has put the slot back. |
| `AppOverlap.ClosedDefaults` | app.go:622-701 | While rollbacks are nested, a closed default belongs to an app that shuts down or has, or that rolls back and has this slot still to put back: no failed Init leaves one. |
| `AppOverlap.OneAtATimeNests` | app.go:478-509 | If at most one app at a time initialises or rolls back, every rollback is nested. |
| `AppOverlap.OverlapCanBeHarmless` | app.go:622-701 | Another app's swap between a swap and its rollback need not harm: if the second app fails first, every default is what it was. |
| `DbManager.ConnectedIff` | database/manager.go:480-581 | An initialisation connects with attempt k exactly if it was not cancelled before, the TLS settings are good, k is one of the first five, its ping comes through, and all before failed in a retriable way with no pause cancelled. |
| `DbManager.SurvivorsAre` | database/manager.go:667-711 | The replicas built are exactly those whose ping came through, in order. |
| `DbManager.Manager.InitMaster` | database/manager.go:480-581 | Succeeds exactly if some attempt connects; then the new master replaces the old one, whose pool is closed; otherwise nothing changes and no pool is left open. |
| `DbManager.Manager.OpenReplicas` | database/manager.go:667-711 | Opens exactly the answering replicas; a cancellation closes them all again. |
| `DbManager.Manager.InitReplicaHealth` | database/manager.go:199-214 | Flags that exist are kept; otherwise every replica starts as healthy. |
| `DbManager.Manager.InitWithReplicas` | database/manager.go:630-716 | Whatever opens, pings, retries or cancellations fail, afterwards the open pools are exactly the installed master and replicas, and the flags one per replica. |
| `DbManager.Manager.Close` | database/manager.go:379-401 | Nothing is open afterwards and the flags are reset. |
| `DbManager.Manager.ProbeOnce` | database/manager.go:261-321 | One undisturbed round sets each replica's flag to its ping and the master's mark as a round of `UnhealthyExactly`. |
| `DbManager.UnhealthyIff` | database/manager.go:261-282 | With nothing but rounds since it was healthy and without failures, the master is marked unhealthy exactly if the last `threshold` rounds failed. |
| `DbManager.UnhealthyExactly` | database/manager.go:261-282 | Over any history of rounds, successful initialisations and closings: unhealthy exactly if nothing has marked it healthy yet, or since it was last marked so there was a Close or a failed round that made the last `threshold` rounds, counted across initialisations, all failed. |
| `DbManager.FailuresOutliveInit` | database/manager.go:550 | Three failed rounds and a successful initialisation leave a healthy master, which the next failed round marks unhealthy at once; a Close does so alone. |
| `DbManager.Manager.Replica` | database/manager.go:161-189 | A read goes to the master only if there is no replica; else to the picker's choice, or the first, from a pool: the replicas marked healthy, each once and in order, if any is, otherwise all. |
| `DbManager.EachOnce` | database/manager.go:48-60 | n round-robin picks in a row from n replicas take each exactly once. |
| `DbManager.RoundRobinPicker.Pick` | database/manager.go:53-62 | The pick and the counter it leaves. |
| `DbHealth.StepKeeps` | database/manager.go:199-321 | Every section under the state lock and every unlocked write of a probe round keeps flags and replicas aligned. |
| `DbHealth.OneFlagPerReplica` | database/manager.go:199-227 | Whenever the lock is free, flags marked set number exactly the replicas. |
| `DbHealth.WritesHitTheirReplica` | database/manager.go:284-320 | A write of a probe round changes at most the flag of the replica it pinged. |
| `DbHealth.OldRoundsMissNewFlags` | database/manager.go:284-320 | A round begun before the replicas were replaced never writes into flags in use afterwards. |
| `DbHealth.LastPingCounts` | database/manager.go:284-320 | As long as the replicas are not replaced, a replica is marked as the last ping written for it says, whatever other rounds do meanwhile. |
| `DbHealth.ChangesExactly` | database/manager.go:199-321 | What each action does to the master, the replicas, one flag in use and one round: when flags are built, all set, cleared or written, and what a round begins with. |
| `DbHealth.WholeLife` | database/manager.go:199-321 | A run in which replicas are installed and a probe round marks one of them unhealthy and the other healthy. |
| `Sse.TwoPasses` | sse/sse.go:84-86 | The two replacements turn each CR LF, CR or LF into exactly one LF. |
| `Sse.SSEWriter.WriteDataLines` | sse/sse.go:84-94 | What reaches the wire is the whole block or, on an error, a prefix of it. |
| `Sse.SSEWriter.WriteEvent` | sse/sse.go:60-71 | A name with CR or LF is refused with nothing written; otherwise the whole event is on the wire exactly if there is no error. |
| `Sse.SSEWriter.WriteMessage` | sse/sse.go:75-81 | The same for a message without a name. |
| `Sse.SSEWriter.KeepAlive` | sse/sse.go:119-125 | The same for the heartbeat. |
| `SseRoundTrip.ReadCall` | sse/sse.go:60-94 | To a client between events one call is exactly its event, or nothing for a heartbeat, and leaves the client between events. |
| `SseRoundTrip.ClientSees` | sse/sse.go:60-125 | The stream of any calls reads back as exactly their events in order, with normalised data; the event of a call that broke off is read, whole, exactly if all of its text got out. |

## Left out

* Time zones and daylight saving: all instants are UTC, and only schedules stated in UTC are claimed about.
* The simplified minute-and-hour cron type, task listing and lookup, and a caller that writes a task's next run itself.
* `Scheduler.RunTask` is allowed for any task object ever added, a superset of the ones a name still leads to.
* Uniqueness of lock tokens and of sorted-set members: UUIDs and the script's random suffix are taken to be new.
* `UnlockByKey`, `ForceUnlock` and the raw key helpers, which pass over the token by design; `IsLocked` and `GetLockTTL`.
* One clock: callers of the limiters and Redis share one that never goes back. The Redis limiter's count and reset calls.
* Timers and tickers are free choices, so deadlock is excluded and steps are counted, but no fairness or real time is claimed.
* Hub: nil connections and JSON encoding; the pumps that empty a send queue, which appear as a free choice of whether there is room.
* Hub: a message sent in the instant a connection closes counts as sent before the closing.
* Application: routes, middlewares, response modes, hooks that call Init or Shutdown themselves (the code forbids it), panics.
* Application: ownership of log files across snapshots, the process-wide trace provider, the configuration watcher.
* Application: that a method of `AppResources.App` is a sequence of `AppOverlap`'s steps is stated by its writes and closings (`puts`, `closings`), not as a run.
* AppResources.App.CloseResources: does not state the closing of the log manager, whose files belong to snapshots.
* AppResources.App.DoShutdown: does not state the stop hooks, the HTTP server's own shutdown or the closing of the log manager.
* Scheduler.StepKeeps: does not cover a check of due tasks without a context, which only the package's own tests make.
* DbManager.Manager.ProbeOnce: the failure counter and the mark of one round are written in one step; `DbHealth` splits the replica flags only.
* Database: error texts and their classification as transient, pool sizes, TLS registration beyond failing or not, back-off times.
* Database: a handle without a connection pool has nothing to close and counts as no pool.
* Sse: after a write error the connection stays broken; JSON encoding and the Stream helpers; headers and flushing.
* Sse: texts are sequences of characters, so UTF-8 decoding and a leading byte order mark are not modelled.
* Error values are names; their texts are not modelled.
