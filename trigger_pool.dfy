/**
 `JobTriggerPoolHelper` as an object: the minute marker `minTim` and the map
 `jobTimeoutCountMap` are fields, `addTrigger` reads them to pick a pool and
 hands over a task, and the task body, once a worker runs it, calls the job
 trigger and then does the timeout accounting of its `finally` block.
 */
module TriggerPool {
  import opened JavaInt
  import opened TimeoutWindow
  import opened Optional

  /** Why a job is triggered. */
  datatype TriggerType = Manual | Cron | Retry | Parent | Api

  /** How the call into the job trigger ended: it returned, or it threw and was logged. */
  datatype TriggerOutcome = Returned | Threw(message: string)

  /** The task `addTrigger` submits: the five arguments its lambda closes over. */
  datatype TriggerTask = TriggerTask(
    jobId: Int32,
    triggerType: TriggerType,
    failRetryCount: Int32,
    executorShardingParam: Option<string>,
    executorParam: Option<string>)

  class JobTriggerPoolHelper {
    /** The minute the timeout counts belong to. */
    var minTim: Int64
    /** Job id to number of timeouts in minute `minTim`. */
    var jobTimeoutCountMap: map<Int32, Int32>

    /** The accounting state as a value. */
    function State(): Window
      reads this
    {
      Window(minTim, jobTimeoutCountMap)
    }

    /** A new helper starts with the marker of the current minute and no counts. */
    constructor (nowMillis: Int64)
      ensures State() == Initial(nowMillis)
      ensures minTim == MinuteOf(nowMillis) && jobTimeoutCountMap == map[]
    {
      minTim := MinuteOf(nowMillis);
      jobTimeoutCountMap := map[];
    }

    /**
     Chooses the pool for a trigger of `jobId` and builds the task to submit to
     it. The state is only read: the accounting happens when the task runs.
     */
    method AddTrigger(
      jobId: Int32,
      triggerType: TriggerType,
      failRetryCount: Int32,
      executorShardingParam: Option<string>,
      executorParam: Option<string>)
      returns (pool: Pool, task: TriggerTask)
      ensures pool == Slow <==> jobId in jobTimeoutCountMap && jobTimeoutCountMap[jobId] > SlowThreshold
      ensures pool == Route(State(), jobId)
      ensures task == TriggerTask(jobId, triggerType, failRetryCount, executorShardingParam, executorParam)
    {
      pool := Fast;
      var jobTimeoutCount := if jobId in jobTimeoutCountMap then Some(jobTimeoutCountMap[jobId]) else None;
      if jobTimeoutCount.Some? && jobTimeoutCount.value > SlowThreshold {
        pool := Slow;
      }
      task := TriggerTask(jobId, triggerType, failRetryCount, executorShardingParam, executorParam);
    }

    /**
     The body a pool worker runs for `task`. `startMillis` is the clock when the
     task started, `checkMillis` the reading for the minute check, `endMillis`
     the reading for the cost. An exception from the trigger is caught and
     logged, so both outcomes fall through to the same accounting.
     */
    method RunTask(task: TriggerTask, outcome: TriggerOutcome, startMillis: Int64, checkMillis: Int64, endMillis: Int64)
      modifies this
      ensures State() == RecordSpec(old(State()), Event(task.jobId, checkMillis, Sub64(endMillis, startMillis)))
    {
      Record(task.jobId, checkMillis, Sub64(endMillis, startMillis));
    }

    /**
     The accounting of the `finally` block: clear everything when the minute
     changed, then count a timeout for `jobId` if the trigger took over 500 ms.
     */
    method Record(jobId: Int32, nowMillis: Int64, cost: Int64)
      modifies this
      ensures State() == RecordSpec(old(State()), Event(jobId, nowMillis, cost))
      ensures minTim == MinuteOf(nowMillis)
    {
      var minTimNow := MinuteOf(nowMillis);
      if minTim != minTimNow {
        minTim := minTimNow;
        jobTimeoutCountMap := map[];
      }
      if cost > TimeoutThresholdMillis {
        // putIfAbsent returns the count already present, which is then incremented in place
        var timeoutCount := if jobId in jobTimeoutCountMap then Some(jobTimeoutCountMap[jobId]) else None;
        if timeoutCount.None? {
          jobTimeoutCountMap := jobTimeoutCountMap[jobId := 1];
        } else {
          jobTimeoutCountMap := jobTimeoutCountMap[jobId := Inc32(timeoutCount.value)];
        }
      }
    }
  }

  /**
   Two helpers in the same state that run the same task with the same clock
   readings end in the same state, whether the trigger returned or threw.
   */
  method OutcomeDoesNotAffectAccounting(
    h1: JobTriggerPoolHelper, h2: JobTriggerPoolHelper, task: TriggerTask, message: string,
    startMillis: Int64, checkMillis: Int64, endMillis: Int64)
    requires h1 != h2 && h1.State() == h2.State()
    modifies h1, h2
    ensures h1.State() == h2.State()
  {
    h1.RunTask(task, Returned, startMillis, checkMillis, endMillis);
    h2.RunTask(task, Threw(message), startMillis, checkMillis, endMillis);
  }

  /**
   A job that never timed out goes to the fast pool, and still does after a
   run of at most 500 ms, whatever the minute.
   */
  method NeverTimedOutJobStaysFast(t0: Int64, startMillis: Int64, checkMillis: Int64, endMillis: Int64, jobId: Int32)
    returns (first: Pool, second: Pool)
    requires Sub64(endMillis, startMillis) <= TimeoutThresholdMillis
    ensures first == Fast && second == Fast
  {
    var helper := new JobTriggerPoolHelper(t0);
    var task;
    first, task := helper.AddTrigger(jobId, Manual, -1, Some(""), Some(""));
    helper.RunTask(task, Returned, startMillis, checkMillis, endMillis);
    second, task := helper.AddTrigger(jobId, Manual, -1, Some(""), Some(""));
  }
}
