# Trigger pool helper: timeout window and pool routing

This project models the dispatch core of the LarkMidTable admin scheduler,
`JobTriggerPoolHelper`. The helper keeps two pieces of state: a minute
marker `minTim` and a map `jobTimeoutCountMap` from job id to the number of
triggers of that job that took longer than 500 ms in that minute.

- `addTrigger` reads the map. A job with more than 10 timeouts goes to the
  slow pool. Every other job goes to the fast pool.
- The submitted task calls the job trigger and catches any exception. Its
  `finally` block then does the accounting. If the clock is in a new minute,
  it moves the marker and clears the whole map. If the trigger took over
  500 ms, it inserts the job with count 1 or increments its count.
- `buildFlinkXExecutorCmd` builds the four-element command that launches a
  FlinkX job.

Files:

- `optional.dfy` (module `Optional`): `Option`, standing for Java's nullable references.
- `java_int.dfy` (module `JavaInt`): Java `int`/`long` arithmetic. This
  covers wrap-around of `AtomicInteger.incrementAndGet` and of `long`
  subtraction, and `long` division, which truncates toward zero.
- `timeout_window.dfy` (module `TimeoutWindow`): the state as a value
  (`Window`), the routing rule `Route`, and one accounting step
  `RecordSpec`, with lemmas about them.
- `window_trace.dfy` (module `WindowTrace`): any sequence of accounting steps.
  `Replay` runs the steps one by one. It is proved equal to an independent
  description: the window counts exactly the timeouts of the trailing run of
  steps that fell in the final minute.
- `trigger_pool.dfy` (module `TriggerPool`): the class
  `JobTriggerPoolHelper`, with the two fields and the methods `AddTrigger`,
  `RunTask` (the task body) and `Record` (the `finally` block). Each
  method's effect is tied to `Route` / `RecordSpec`.
- `flinkx_cmd.dfy` (module `FlinkXCommand`): `BuildFlinkXExecutorCmd`, with
  Java's decimal rendering of numbers and a round trip for the log file name.

Clock readings are parameters. The source reads the clock three times:

- when the task starts (line 103);
- for the minute check (line 112);
- for the cost (line 118).

So `RunTask` takes three readings. The outcome of the job trigger call is
also a parameter. So are the operating-system test, the log directory and the
launcher constants of the command builder.

## Model

| member | source | states |
|---|---|---|
| JavaInt.Inc32 | larkmidtable-web/larkmt-admin/src/main/java/com/larkmt/cn/admin/core/thread/JobTriggerPoolHelper.java:120-124 | `incrementAndGet` adds one in 32-bit two's complement: the result is the wrapped successor, and exactly `c + 1` below the largest `int` |
| JavaInt.Sub64 | larkmidtable-web/larkmt-admin/src/main/java/com/larkmt/cn/admin/core/thread/JobTriggerPoolHelper.java:118 | `cost` is the 64-bit wrapped difference of the two clock readings, the exact difference when it fits |
| JavaInt.JavaDiv | larkmidtable-web/larkmt-admin/src/main/java/com/larkmt/cn/admin/core/thread/JobTriggerPoolHelper.java:112 | `long` division by a positive divisor truncates toward zero: quotient and remainder bounds for both signs of the dividend |
| TimeoutWindow.MinuteOf | larkmidtable-web/larkmt-admin/src/main/java/com/larkmt/cn/admin/core/thread/JobTriggerPoolHelper.java:112 | the minute marker `m` of a reading satisfies `m*60000 <= t < (m+1)*60000` for non-negative readings, and the truncated bound for negative ones |
| TimeoutWindow.Initial | larkmidtable-web/larkmt-admin/src/main/java/com/larkmt/cn/admin/core/thread/JobTriggerPoolHelper.java:82-84 | a new helper holds the current minute and an empty map |
| TimeoutWindow.RecordSpec | larkmidtable-web/larkmt-admin/src/main/java/com/larkmt/cn/admin/core/thread/JobTriggerPoolHelper.java:110-126 | after a step the marker is the current minute; after a rollover no entry from an earlier minute survives; a step of 500 ms or less inserts and increments nothing; a slower one creates the entry with 1 or increments it by one; within one minute every other job's entry and count are untouched |
| TimeoutWindow.MinuteBoundaryIsAbsolute | larkmidtable-web/larkmt-admin/src/main/java/com/larkmt/cn/admin/core/thread/JobTriggerPoolHelper.java:112 | minutes are absolute epoch minutes: non-negative readings one millisecond apart across a multiple of 60000 fall in consecutive minutes |
| TimeoutWindow.AbsentJobRoutesFast | larkmidtable-web/larkmt-admin/src/main/java/com/larkmt/cn/admin/core/thread/JobTriggerPoolHelper.java:95-99 | a job without an entry is routed to the fast pool |
| TimeoutWindow.RouteThresholdIsStrict | larkmidtable-web/larkmt-admin/src/main/java/com/larkmt/cn/admin/core/thread/JobTriggerPoolHelper.java:97 | a count of exactly 10 routes fast, a count of 11 routes slow |
| TimeoutWindow.StaleCountStillRoutesSlow | larkmidtable-web/larkmt-admin/src/main/java/com/larkmt/cn/admin/core/thread/JobTriggerPoolHelper.java:95-99 | routing does not read the clock: a job with more than 10 timeouts routes slow even when the stored minute is stale, until an accounting step in the new minute clears the map |
| TimeoutWindow.RolloverLeavesOnlyCurrentEvent | larkmidtable-web/larkmt-admin/src/main/java/com/larkmt/cn/admin/core/thread/JobTriggerPoolHelper.java:113-124 | after a rollover the map is exactly `{jobId: 1}` for a slow trigger and empty for a fast one |
| TimeoutWindow.RolloverRoutesEveryJobFast | larkmidtable-web/larkmt-admin/src/main/java/com/larkmt/cn/admin/core/thread/JobTriggerPoolHelper.java:95-124 | right after a rollover every job routes to the fast pool |
| TimeoutWindow.RecordKeepsCountsPositive | larkmidtable-web/larkmt-admin/src/main/java/com/larkmt/cn/admin/core/thread/JobTriggerPoolHelper.java:119-124 | if every count is at least 1 and the incremented one is below the largest `int`, every count is still at least 1 |
| TimeoutWindow.CountWrapsAtMaxInt32 | larkmidtable-web/larkmt-admin/src/main/java/com/larkmt/cn/admin/core/thread/JobTriggerPoolHelper.java:120-124 | a count at the largest `int` wraps to the smallest on the next timeout, and the job then routes fast |
| TimeoutWindow.SameMinuteNeverClears | larkmidtable-web/larkmt-admin/src/main/java/com/larkmt/cn/admin/core/thread/JobTriggerPoolHelper.java:112-116 | a second step in the same minute neither moves the marker nor removes any entry |
| WindowTrace.ReplayCharacterisation | larkmidtable-web/larkmt-admin/src/main/java/com/larkmt/cn/admin/core/thread/JobTriggerPoolHelper.java:110-126 | after any sequence of steps the marker is the last step's minute. A job has an entry exactly when its starting entry survived or it timed out in the trailing run of steps in that minute. Its count is the surviving count plus those timeouts, wrapped to `int` |
| WindowTrace.FreshHelperRoutesByTimeoutsInCurrentMinute | larkmidtable-web/larkmt-admin/src/main/java/com/larkmt/cn/admin/core/thread/JobTriggerPoolHelper.java:82-124 | from a new helper, a job routes slow exactly when it timed out more than 10 times in the current run of same-minute steps, while that number fits in an `int` |
| WindowTrace.FreshHelperCountsPositive | larkmidtable-web/larkmt-admin/src/main/java/com/larkmt/cn/admin/core/thread/JobTriggerPoolHelper.java:82-124 | from a new helper every entry holds at least 1, while no job times out more than `2^31 - 1` times in one run |
| WindowTrace.RolloverForgetsHistory | larkmidtable-web/larkmt-admin/src/main/java/com/larkmt/cn/admin/core/thread/JobTriggerPoolHelper.java:113-124 | a step in a new minute gives the same window whatever came before it |
| TriggerPool.JobTriggerPoolHelper.constructor | larkmidtable-web/larkmt-admin/src/main/java/com/larkmt/cn/admin/core/thread/JobTriggerPoolHelper.java:82-84 | the fields start as the current minute and an empty map |
| TriggerPool.JobTriggerPoolHelper.AddTrigger | larkmidtable-web/larkmt-admin/src/main/java/com/larkmt/cn/admin/core/thread/JobTriggerPoolHelper.java:87-101 | the pool is slow if and only if the job has an entry whose count exceeds 10; the task carries the five arguments; the state is only read |
| TriggerPool.JobTriggerPoolHelper.RunTask | larkmidtable-web/larkmt-admin/src/main/java/com/larkmt/cn/admin/core/thread/JobTriggerPoolHelper.java:102-127 | the new state is one accounting step with the cost `end - start`; the ensures does not mention the trigger outcome, so the state is the same whether the trigger returned or threw |
| TriggerPool.JobTriggerPoolHelper.Record | larkmidtable-web/larkmt-admin/src/main/java/com/larkmt/cn/admin/core/thread/JobTriggerPoolHelper.java:110-126 | the new fields are exactly the accounting step applied to the old fields |
| TriggerPool.OutcomeDoesNotAffectAccounting | larkmidtable-web/larkmt-admin/src/main/java/com/larkmt/cn/admin/core/thread/JobTriggerPoolHelper.java:104-126 | two helpers in the same state stay in the same state when one trigger returns and the other throws |
| TriggerPool.NeverTimedOutJobStaysFast | larkmidtable-web/larkmt-admin/src/main/java/com/larkmt/cn/admin/core/thread/JobTriggerPoolHelper.java:95-124 | a job that never timed out routes fast, and still does after any run whose cost is at most 500 ms |
| FlinkXCommand.BuildFlinkXExecutorCmd | larkmidtable-web/larkmt-admin/src/main/java/com/larkmt/cn/admin/core/thread/JobTriggerPoolHelper.java:158-179 | a missing (null) log directory fails, as `new File(null)` throws; otherwise exactly four elements, in order: the launcher chosen by the operating system, the script path, the temporary file path, and `logHome + "/" + jobId + timestamp + ".out"` |
| FlinkXCommand.NatToDecimal | larkmidtable-web/larkmt-admin/src/main/java/com/larkmt/cn/admin/core/thread/JobTriggerPoolHelper.java:176 | a number renders as a non-empty string of digits without a leading zero |
| FlinkXCommand.ParseIntOfDecimal | larkmidtable-web/larkmt-admin/src/main/java/com/larkmt/cn/admin/core/thread/JobTriggerPoolHelper.java:176 | reading back the rendering of any integer gives that integer |
| FlinkXCommand.LogFileNameRoundTrip | larkmidtable-web/larkmt-admin/src/main/java/com/larkmt/cn/admin/core/thread/JobTriggerPoolHelper.java:176 | given the timestamp's length, the log file name splits back into the job id and the timestamp |
| FlinkXCommand.LogFileNameInjective | larkmidtable-web/larkmt-admin/src/main/java/com/larkmt/cn/admin/core/thread/JobTriggerPoolHelper.java:176 | two runs whose timestamps have the same length share a log file only if job id and timestamp agree |
| FlinkXCommand.LogFileNameAmbiguousAcrossLengths | larkmidtable-web/larkmt-admin/src/main/java/com/larkmt/cn/admin/core/thread/JobTriggerPoolHelper.java:176 | with nothing between job id and timestamp, job 1 at 23 ms and job 12 at 3 ms get the same log file |

## Left out

- Thread pools (`start`, `stop`, `execute`, `shutdownNow`, lines 42-79 and 101): they are JDK executors whose purpose is concurrency. `AddTrigger` returns the chosen pool and the task instead of submitting it. Queue capacities, pool sizes and rejection are not modelled.
- Concurrency: the fields are `volatile` and the map is concurrent. Workers can race between `clear()` and `putIfAbsent`. The source's compare of `minTim` and the clear that follows are separate steps, not one atomic step. The model runs one accounting step at a time.
- `JobTrigger.trigger` (line 106) is a foreign call. Only its outcome (returned / threw) is an input. `JobTrigger.java` is not part of this model.
- `TriggerTypeEnum` is not part of this model. `TriggerType` lists the causes manual, cron, retry, parent job and API.
- `System.currentTimeMillis` (lines 82, 103, 112, 118, 160) is replaced with explicit `long` parameters.
- Logging (lines 78, 109, 177) is left out.
- `runJob` (lines 185-225) is left out: it spawns processes, calls database mappers and uses `Calendar`. It reads element 3 of the command as the executor address, and `BuildFlinkXExecutorCmd` states what that element is.
- `generateTemJsonFile` (lines 227-242) is left out: it does file I/O and generates a UUID.
- `isWindows` (lines 181-183) reads a system property. It is a boolean parameter.
- The log directory from `ExcecutorConfig` is a parameter, `None` when the setting is null. The `mkdirs` call in `buildFlinkXExecutorCmd` is left out.
- `Constants.CMDWINDOW` and `Constants.CMDLINUX`: `Constants.java` is not part of this model, so the two strings are an input (`Launchers`).
- `BuildFlinkXExecutorCmd`: null `flinkXShPath` or `tmpFilePath` arguments are not modelled. The source stores them as null elements of the command (lines 164-169); the model takes both as plain strings.
- `cmdArr.toArray` returns a Java array. The model returns the same elements as a sequence.
- The static wrappers `toStart`, `toStop` and `trigger` (lines 132-156) only delegate to the singleton.
- RecordKeepsCountsPositive: requires the incremented count to be below `2^31 - 1`. At that value `incrementAndGet` wraps to a negative count (see CountWrapsAtMaxInt32).
- FreshHelperRoutesByTimeoutsInCurrentMinute: requires the job's timeouts in the current run to fit in an `int`, for the same reason.
- FreshHelperCountsPositive: requires every job's timeouts in the current run to fit in an `int`, for the same reason.
