/**
 What the timeout window holds after any sequence of accounting steps. The
 result of replaying the steps one by one is characterised independently:
 the marker is the minute of the last step, and the counts are the timeouts
 of the trailing run of steps that fell in that minute, on top of the
 starting counts only when no rollover happened at all.
 */
module WindowTrace {
  import opened JavaInt
  import opened TimeoutWindow

  /** The window after running the accounting step for each event of `es`, in order. */
  function Replay(w: Window, es: seq<Event>): Window
    decreases |es|
  {
    if es == [] then w else RecordSpec(Replay(w, es[..|es| - 1]), es[|es| - 1])
  }

  /** The marker the window ends with: that of the last event, or the starting one. */
  function FinalMinute(w: Window, es: seq<Event>): Int64
  {
    if es == [] then w.minTim else MinuteOf(es[|es| - 1].checkMillis)
  }

  /** The longest suffix of `es` whose events all fall in minute `m`. */
  function TrailingRun(es: seq<Event>, m: Int64): (run: seq<Event>)
    ensures |run| <= |es|
    ensures forall i :: 0 <= i < |run| ==> MinuteOf(run[i].checkMillis) == m
    decreases |es|
  {
    if es == [] || MinuteOf(es[|es| - 1].checkMillis) != m then []
    else TrailingRun(es[..|es| - 1], m) + [es[|es| - 1]]
  }

  /** The events whose timeouts the final window still counts. */
  function CurrentRun(w: Window, es: seq<Event>): seq<Event>
  {
    TrailingRun(es, FinalMinute(w, es))
  }

  /** No event of `es` moved the marker away from the starting minute. */
  predicate KeepsStart(w: Window, es: seq<Event>)
  {
    |CurrentRun(w, es)| == |es| && w.minTim == FinalMinute(w, es)
  }

  /** The number of timed-out events of job `j` in `es`. */
  function Tally(es: seq<Event>, j: Int32): (n: nat)
    ensures n <= |es|
    decreases |es|
  {
    if es == [] then 0
    else Tally(es[..|es| - 1], j) + (if es[|es| - 1].jobId == j && TimedOut(es[|es| - 1]) then 1 else 0)
  }

  /** The count `j` starts with that is still in the final window. */
  function Carried(w: Window, es: seq<Event>, j: Int32): int
  {
    if KeepsStart(w, es) && j in w.counts then w.counts[j] else 0
  }

  /**
   `r` is the window the characterisation predicts for `es` from `w`: the
   marker of the last event; an entry for a job exactly when it had one that
   survived or it timed out in the current run; and as its count the
   surviving count plus its timeouts in that run, in `int` arithmetic.
   */
  ghost predicate Characterised(w: Window, es: seq<Event>, r: Window)
  {
    r.minTim == FinalMinute(w, es) && forall j :: CharacterisedAt(w, es, r, j)
  }

  /** The part of `Characterised` about the entry of job `j`. */
  ghost predicate CharacterisedAt(w: Window, es: seq<Event>, r: Window, j: Int32)
  {
    && (j in r.counts <==> (KeepsStart(w, es) && j in w.counts) || Tally(CurrentRun(w, es), j) > 0)
    && (j in r.counts ==> r.counts[j] == Wrap32(Carried(w, es, j) + Tally(CurrentRun(w, es), j)))
  }

  /** Replaying any sequence of steps yields the window the characterisation predicts. */
  lemma {:induction false} ReplayCharacterisation(w: Window, es: seq<Event>)
    ensures Characterised(w, es, Replay(w, es))
    decreases |es|
  {
    if es == [] {
      assert CurrentRun(w, es) == [];
    } else {
      var p, e := es[..|es| - 1], es[|es| - 1];
      assert es == p + [e];
      ReplayCharacterisation(w, p);
      if RollsOver(Replay(w, p), e) {
        RolloverStep(w, p, e, Replay(w, p));
      } else {
        SameMinuteStep(w, p, e, Replay(w, p));
      }
    }
  }

  lemma TrailingRunSnoc(p: seq<Event>, e: Event, m: Int64)
    ensures TrailingRun(p + [e], m) == if MinuteOf(e.checkMillis) != m then [] else TrailingRun(p, m) + [e]
  {
  }

  lemma TallySnoc(s: seq<Event>, e: Event, j: Int32)
    ensures Tally(s + [e], j) == Tally(s, j) + (if e.jobId == j && TimedOut(e) then 1 else 0)
  {
  }

  /** A step in a new minute leaves a window that counts that step alone. */
  lemma RolloverStep(w: Window, p: seq<Event>, e: Event, before: Window)
    requires before.minTim == FinalMinute(w, p)
    requires RollsOver(before, e)
    ensures Characterised(w, p + [e], RecordSpec(before, e))
  {
    var es := p + [e];
    var m := MinuteOf(e.checkMillis);
    assert es[|es| - 1] == e && es[..|es| - 1] == p;
    assert FinalMinute(w, es) == m;
    // the previous events end in another minute, so the current run is [e] alone
    assert TrailingRun(p, m) == [];
    TrailingRunSnoc(p, e, m);
    assert CurrentRun(w, es) == [] + [e];
    assert !KeepsStart(w, es);
    forall j
      ensures CharacterisedAt(w, es, RecordSpec(before, e), j)
    {
      TallySnoc([], e, j);
    }
  }

  /** A step in the stored minute adds its timeout to the current run. */
  lemma SameMinuteStep(w: Window, p: seq<Event>, e: Event, before: Window)
    requires Characterised(w, p, before)
    requires !RollsOver(before, e)
    ensures Characterised(w, p + [e], RecordSpec(before, e))
  {
    var es := p + [e];
    RunGrows(w, p, e);
    var r := RecordSpec(before, e);
    forall j
      ensures CharacterisedAt(w, es, r, j)
    {
      SameMinuteStepAt(w, p, e, before, j);
    }
    assert r.minTim == FinalMinute(w, es);
  }

  /** A step in the minute the run ends in extends the run by that step. */
  lemma RunGrows(w: Window, p: seq<Event>, e: Event)
    requires MinuteOf(e.checkMillis) == FinalMinute(w, p)
    ensures FinalMinute(w, p + [e]) == FinalMinute(w, p)
    ensures CurrentRun(w, p + [e]) == CurrentRun(w, p) + [e]
    ensures KeepsStart(w, p + [e]) == KeepsStart(w, p)
  {
  }

  /** `SameMinuteStep` for the entry of one job. */
  lemma SameMinuteStepAt(w: Window, p: seq<Event>, e: Event, before: Window, j: Int32)
    requires Characterised(w, p, before)
    requires !RollsOver(before, e)
    requires CurrentRun(w, p + [e]) == CurrentRun(w, p) + [e]
    requires KeepsStart(w, p + [e]) == KeepsStart(w, p)
    ensures CharacterisedAt(w, p + [e], RecordSpec(before, e), j)
  {
    var run := CurrentRun(w, p);
    assert CharacterisedAt(w, p, before, j);
    TallySnoc(run, e, j);
    assert Carried(w, p + [e], j) == Carried(w, p, j);
    var n := Carried(w, p, j) + Tally(run, j);
    assert j in before.counts <==> (KeepsStart(w, p) && j in w.counts) || Tally(run, j) > 0;
    assert j in before.counts ==> before.counts[j] == Wrap32(n);
    if j == e.jobId && TimedOut(e) {
      if j in before.counts {
        Inc32OfWrap32(n);
      } else {
        assert n == 0;
      }
    }
  }

  /**
   Starting from the state of a freshly constructed helper, a job is routed
   to the slow pool exactly when it timed out more than ten times in the
   current run, as long as that number fits in an `int`.
   */
  lemma FreshHelperRoutesByTimeoutsInCurrentMinute(t0: Int64, es: seq<Event>, j: Int32)
    requires Tally(CurrentRun(Initial(t0), es), j) <= MaxInt32
    ensures Route(Replay(Initial(t0), es), j) == Slow <==>
            Tally(CurrentRun(Initial(t0), es), j) > SlowThreshold
  {
    ReplayCharacterisation(Initial(t0), es);
    assert CharacterisedAt(Initial(t0), es, Replay(Initial(t0), es), j);
  }

  /**
   Counts stay positive over any sequence of steps from a fresh helper, as
   long as no job times out more than `2^31 - 1` times in one run.
   */
  lemma FreshHelperCountsPositive(t0: Int64, es: seq<Event>)
    requires forall j :: Tally(CurrentRun(Initial(t0), es), j) <= MaxInt32
    ensures PositiveCounts(Replay(Initial(t0), es).counts)
  {
    var r := Replay(Initial(t0), es);
    ReplayCharacterisation(Initial(t0), es);
    forall j | j in r.counts
      ensures r.counts[j] >= 1
    {
      assert CharacterisedAt(Initial(t0), es, r, j);
    }
  }

  /**
   A single step in a new minute forgets every earlier step: the window then
   depends only on that step.
   */
  lemma RolloverForgetsHistory(w1: Window, es1: seq<Event>, w2: Window, es2: seq<Event>, e: Event)
    requires RollsOver(Replay(w1, es1), e) && RollsOver(Replay(w2, es2), e)
    ensures Replay(w1, es1 + [e]) == Replay(w2, es2 + [e])
  {
  }
}
