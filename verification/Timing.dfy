/** When jobs run, seen from their ticket. */
module Timing {
  import opened JobOrder
  import opened Options
  import opened SchedulerModel
  import opened Ownership
  import opened Tickets

  ghost predicate NotLater(e: Event, clock: nat) {
    match e
    case Started(_, _, at) => at <= clock
    case Requeued(_, at) => at <= clock
    case _ => true
  }

  /** When the job should arrive: at first as asked, then one interval after it was last put back. */
  ghost function ArrivalAfter(due: nat, interval: nat, history: seq<Event>): nat {
    if history == [] then due
    else
      var e := history[|history| - 1];
      if e.Requeued? then e.at + interval else ArrivalAfter(due, interval, history[..|history| - 1])
  }

  lemma ArrivalAppend(due: nat, interval: nat, history: seq<Event>, e: Event)
    ensures ArrivalAfter(due, interval, history + [e])
         == if e.Requeued? then e.at + interval else ArrivalAfter(due, interval, history)
    ensures history + [] == history
  {
    assert (history + [e])[..|history|] == history;
  }

  /** Every start is that of a job with the proper arrival time, and not earlier than that. */
  ghost predicate StartsOnTime(due: nat, interval: nat, history: seq<Event>) {
    forall i :: 0 <= i < |history| && history[i].Started? ==>
      history[i].at >= history[i].arrival == ArrivalAfter(due, interval, history[..i])
  }

  /** Between the end of an invocation and the start of any later one lies at least the interval. */
  ghost predicate KeepsInterval(interval: nat, history: seq<Event>) {
    forall i, j :: 0 <= i < j < |history| && history[i].Requeued? && history[j].Started? ==>
      history[j].at >= history[i].at + interval
  }

  /** The waiting job will start late enough. */
  ghost predicate WaitsLongEnough(task: Task, job: Job, history: seq<Event>) {
    && job.arrival == ArrivalAfter(task.due, task.interval, history)
    && forall i :: 0 <= i < |history| && history[i].Requeued? ==> job.arrival >= history[i].at + task.interval
  }

  ghost predicate HistoryOk(task: Task, history: seq<Event>, clock: nat) {
    && (forall i :: 0 <= i < |history| ==> NotLater(history[i], clock))
    && StartsOnTime(task.due, task.interval, history) && KeepsInterval(task.interval, history)
  }

  ghost predicate Timely(task: Task, v: View, clock: nat) {
    && HistoryOk(task, v.history, clock)
    && (v.record.Some? ==> v.record.value.interval == task.interval)
    && (v.timer.Some? ==> v.timer.value <= clock)
    && (v.job.Some? && v.timer.None? ==> WaitsLongEnough(task, v.job.value, v.history))
  }

  lemma TimelyNew(t: nat, task: Task, clock: nat)
    ensures Timely(task, NewView(task, t), clock)
  {
  }

  lemma TimelyStep(t: nat, task: Task, clock: nat, clock': nat, v: View, v': View, purging: bool)
    requires Timely(task, v, clock) && ViewStep(t, task, clock, clock', v, v', purging)
    ensures Timely(task, v', clock')
  {
    hide StartsOnTime, KeepsInterval, WaitsLongEnough, NotLater, Remeasured;
    Extends(task, v.history, clock, clock');
    if Starts(t, task, clock, clock', v, v') {
      ExtendByStart(t, task, v.job.value, v.history, clock, clock');
    } else if GoesBack(t, task, clock, clock', v, v') {
      var record, d := CountRun(v.record.value), Since(v.timer.value, clock');
      RemeasuredInterval(record, d);
      ExtendByReturn(t, task, v'.job.value, v.history, clock, clock', record.called < UINT_MAX, d);
    } else if v' != v {
      ExtendByCleanup(t, task, v.history, clock');
    }
  }

  lemma Extends(task: Task, h: seq<Event>, clock: nat, clock': nat)
    requires HistoryOk(task, h, clock) && clock <= clock'
    ensures HistoryOk(task, h, clock')
  {
  }

  lemma ExtendByCleanup(t: nat, task: Task, h: seq<Event>, clock: nat)
    requires HistoryOk(task, h, clock)
    ensures HistoryOk(task, h + if task.hasCleanup then [Cleaned(t)] else [], clock)
  {
    hide ArrivalAfter;
    var h' := h + if task.hasCleanup then [Cleaned(t)] else [];
    assert forall i :: 0 <= i < |h| ==> h'[i] == h[i] && h'[..i] == h[..i];
  }

  lemma ExtendByStart(t: nat, task: Task, job: Job, h: seq<Event>, clock: nat, clock': nat)
    requires HistoryOk(task, h, clock) && clock <= clock'
    requires WaitsLongEnough(task, job, h) && job.arrival <= clock'
    ensures var h' := h + [Started(t, job.arrival, clock')] + if task.hasFunction then [Called(t)] else [];
            HistoryOk(task, h', clock')
  {
    hide ArrivalAfter;
    var h' := h + [Started(t, job.arrival, clock')] + if task.hasFunction then [Called(t)] else [];
    assert forall i :: 0 <= i < |h| ==> h'[i] == h[i] && h'[..i] == h[..i];
    assert h'[..|h|] == h && forall i :: |h| < i < |h'| ==> h'[i] == Called(t);
  }

  lemma ExtendByReturn(t: nat, task: Task, job: Job, h: seq<Event>, clock: nat, clock': nat, more: bool, d: nat)
    requires HistoryOk(task, h, clock) && clock <= clock'
    requires job.arrival == clock + task.interval
    ensures var h' := h + [Requeued(t, clock)] + if more then [Measured(t, d)] else [];
            HistoryOk(task, h', clock') && WaitsLongEnough(task, job, h')
  {
    hide ArrivalAfter;
    var h' := h + [Requeued(t, clock)] + if more then [Measured(t, d)] else [];
    assert forall i :: 0 <= i < |h| ==> h'[i] == h[i] && h'[..i] == h[..i];
    assert h'[|h|] == Requeued(t, clock) && forall i :: |h| < i < |h'| ==> h'[i] == Measured(t, d);
    ArrivalAppend(task.due, task.interval, h, Requeued(t, clock));
    ArrivalAppend(task.due, task.interval, h + [Requeued(t, clock)], Measured(t, d));
  }

  lemma RemeasuredInterval(record: IntervalJob, d: nat)
    ensures Remeasured(record, d).interval == record.interval
  {
  }
}
