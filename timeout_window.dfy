/**
 The timeout window of the trigger pool helper, as values: the minute marker
 and the per-job timeout counts, the routing rule that reads them, and the
 accounting step that the worker runs after every trigger.
 */
module TimeoutWindow {
  import opened JavaInt

  /** `System.currentTimeMillis() / 60000` turns milliseconds into a minute marker. */
  const MillisPerMinute: int := 60000
  /** A trigger that took longer than this many milliseconds counts as a timeout. */
  const TimeoutThresholdMillis: int := 500
  /** A job with more timeouts than this in the current minute goes to the slow pool. */
  const SlowThreshold: int := 10

  /** The two trigger pools. */
  datatype Pool = Fast | Slow

  /**
   The accounting state: `minTim`, the minute the counts belong to, and
   `counts`, job id to number of timeouts seen in that minute.
   */
  datatype Window = Window(minTim: Int64, counts: map<Int32, Int32>)

  /**
   One run of the accounting step: the job, the clock reading taken for the
   minute check, and the measured cost of the trigger in milliseconds.
   */
  datatype Event = Event(jobId: Int32, checkMillis: Int64, cost: Int64)

  /** The minute marker of a clock reading (Java `long` division by 60000). */
  function MinuteOf(millis: Int64): (m: Int64)
    ensures 0 <= millis ==> 0 <= m && m * MillisPerMinute <= millis < (m + 1) * MillisPerMinute
    ensures millis < 0 ==> m <= 0 && (m - 1) * MillisPerMinute < millis <= m * MillisPerMinute
  {
    JavaDiv(millis, MillisPerMinute)
  }

  /** The state a freshly constructed helper starts in. */
  function Initial(nowMillis: Int64): (w: Window)
    ensures w.minTim == MinuteOf(nowMillis) && w.counts == map[]
  {
    Window(MinuteOf(nowMillis), map[])
  }

  /** The pool `addTrigger` chooses for `jobId`. */
  function Route(w: Window, jobId: Int32): Pool
  {
    if jobId in w.counts && w.counts[jobId] > SlowThreshold then Slow else Fast
  }

  /** The clock reading of `e` falls in a different minute from the stored marker. */
  predicate RollsOver(w: Window, e: Event)
  {
    w.minTim != MinuteOf(e.checkMillis)
  }

  /** The trigger of `e` took long enough to count as a timeout. */
  predicate TimedOut(e: Event)
  {
    e.cost > TimeoutThresholdMillis
  }

  /** Every entry holds at least one timeout. */
  predicate PositiveCounts(counts: map<Int32, Int32>)
  {
    forall k :: k in counts ==> counts[k] >= 1
  }

  /**
   The accounting step of the worker's `finally` block: move the marker to the
   current minute, clearing every count when the minute changed, then, if
   the trigger was slow, insert the job with count 1 or increment its count.
   */
  function RecordSpec(w: Window, e: Event): (r: Window)
    // the marker always follows the clock
    ensures r.minTim == MinuteOf(e.checkMillis)
    // after a rollover, nothing recorded in an earlier minute survives
    ensures RollsOver(w, e) ==> r.counts.Keys <= {e.jobId}
    // a fast trigger inserts and increments nothing
    ensures !TimedOut(e) ==> r.counts == (if RollsOver(w, e) then map[] else w.counts)
    // a slow trigger creates the entry with 1 or adds exactly one to it
    ensures TimedOut(e) ==> e.jobId in r.counts
    ensures TimedOut(e) && (RollsOver(w, e) || e.jobId !in w.counts) ==> r.counts[e.jobId] == 1
    ensures TimedOut(e) && !RollsOver(w, e) && e.jobId in w.counts ==>
              r.counts[e.jobId] == Inc32(w.counts[e.jobId])
    // within one minute, every other job keeps its entry and its count
    ensures !RollsOver(w, e) ==>
              forall k :: k != e.jobId ==>
                (k in r.counts <==> k in w.counts) && (k in w.counts ==> r.counts[k] == w.counts[k])
  {
    var now := MinuteOf(e.checkMillis);
    var kept := if w.minTim != now then map[] else w.counts;
    var counts :=
      if e.cost > TimeoutThresholdMillis then
        if e.jobId in kept then kept[e.jobId := Inc32(kept[e.jobId])] else kept[e.jobId := 1]
      else kept;
    Window(now, counts)
  }

  /**
   Minutes are absolute minutes of the epoch, not sixty seconds since the
   last timeout: two readings one millisecond apart can fall in different
   minutes.
   */
  lemma MinuteBoundaryIsAbsolute(t: Int64)
    requires 0 <= t < MaxInt64 && (t + 1) % MillisPerMinute == 0
    ensures MinuteOf(t + 1) == MinuteOf(t) + 1
  {
  }

  // ---------------------- routing ----------------------

  /** A job with no entry is always routed to the fast pool. */
  lemma AbsentJobRoutesFast(w: Window, jobId: Int32)
    requires jobId !in w.counts
    ensures Route(w, jobId) == Fast
  {
  }

  /** The threshold is strict: ten timeouts stay fast, eleven go slow. */
  lemma RouteThresholdIsStrict(w: Window, jobId: Int32)
    requires jobId in w.counts
    ensures w.counts[jobId] == 10 ==> Route(w, jobId) == Fast
    ensures w.counts[jobId] == 11 ==> Route(w, jobId) == Slow
  {
  }

  /**
   Routing never looks at the clock: a job that was slow in an earlier
   minute keeps going to the slow pool until an accounting step runs in the
   new minute and clears the map.
   */
  lemma StaleCountStillRoutesSlow(w: Window, jobId: Int32, nowMillis: Int64)
    requires jobId in w.counts && w.counts[jobId] > SlowThreshold
    requires w.minTim != MinuteOf(nowMillis)
    ensures Route(w, jobId) == Slow
    ensures forall m: Int64 :: Route(Window(m, w.counts), jobId) == Slow
  {
  }

  // ---------------------- accounting ----------------------

  /**
   After a rollover the map holds nothing but the current event: exactly
   `{jobId: 1}` for a slow trigger, and nothing for a fast one.
   */
  lemma RolloverLeavesOnlyCurrentEvent(w: Window, e: Event)
    requires RollsOver(w, e)
    ensures TimedOut(e) ==> RecordSpec(w, e).counts == map[e.jobId := 1]
    ensures !TimedOut(e) ==> RecordSpec(w, e).counts == map[]
  {
  }

  /** Right after a rollover every job, the one just recorded included, routes fast. */
  lemma RolloverRoutesEveryJobFast(w: Window, e: Event, j: Int32)
    requires RollsOver(w, e)
    ensures Route(RecordSpec(w, e), j) == Fast
  {
  }

  /**
   Entries are created at 1 and only incremented, so counts stay positive,
   as long as the incremented count is below the largest `int`.
   */
  lemma RecordKeepsCountsPositive(w: Window, e: Event)
    requires PositiveCounts(w.counts)
    requires e.jobId in w.counts ==> w.counts[e.jobId] < MaxInt32
    ensures PositiveCounts(RecordSpec(w, e).counts)
  {
  }

  /**
   `AtomicInteger.incrementAndGet` wraps: a job whose count sits at the
   largest `int` goes negative after one more timeout, and is then routed
   to the fast pool although it kept timing out.
   */
  lemma CountWrapsAtMaxInt32(w: Window, e: Event)
    requires !RollsOver(w, e) && TimedOut(e)
    requires e.jobId in w.counts && w.counts[e.jobId] == MaxInt32
    ensures RecordSpec(w, e).counts[e.jobId] == MinInt32
    ensures Route(RecordSpec(w, e), e.jobId) == Fast
  {
  }

  /**
   A stored marker that is already the current minute is left alone, and a
   second accounting step in the same minute never clears.
   */
  lemma SameMinuteNeverClears(w: Window, e1: Event, e2: Event)
    requires MinuteOf(e1.checkMillis) == MinuteOf(e2.checkMillis)
    ensures !RollsOver(RecordSpec(w, e1), e2)
    ensures forall k :: k in RecordSpec(w, e1).counts ==> k in RecordSpec(RecordSpec(w, e1), e2).counts
  {
  }
}
