/** What the measured durations are, seen from a ticket. */
module Durations {
  import opened JobOrder
  import opened Options
  import opened SchedulerModel
  import opened Ownership
  import opened Tickets

  /** When the job was last started. */
  ghost function LastStart(history: seq<Event>): Option<nat> {
    if history == [] then None
    else
      var e := history[|history| - 1];
      if e.Started? then Some(e.at) else LastStart(history[..|history| - 1])
  }

  lemma LastStartAppend(history: seq<Event>, e: Event)
    ensures LastStart(history + [e]) == if e.Started? then Some(e.at) else LastStart(history)
    ensures history + [] == history
  {
    assert (history + [e])[..|history|] == history;
  }

  /** Event `i` is a duration measured right after the job was put back: at least the time from the
      last start to then. */
  ghost predicate MeasuredAt(history: seq<Event>, i: nat)
    requires i < |history| && history[i].Measured?
  {
    && i > 0 && history[i - 1].Requeued?
    && var start := LastStart(history[..i]);
       start.Some? && start.value <= history[i - 1].at && history[i].took >= history[i - 1].at - start.value
  }

  ghost predicate MeasuredOk(history: seq<Event>) {
    forall i :: 0 <= i < |history| && history[i].Measured? ==> MeasuredAt(history, i)
  }

  /** The timer of a running job is the time of its last start. */
  ghost predicate Timed(v: View, clock: nat) {
    && MeasuredOk(v.history)
    && (v.timer.Some? ==> v.timer == LastStart(v.history) && v.timer.value <= clock)
  }

  lemma TimedNew(t: nat, task: Task, clock: nat)
    ensures Timed(NewView(task, t), clock)
  {
  }

  /** An event that is no duration. */
  lemma MeasuredExtend(h: seq<Event>, e: Event)
    requires MeasuredOk(h) && !e.Measured?
    ensures MeasuredOk(h + [e])
  {
    var h' := h + [e];
    forall i | 0 <= i < |h'| && h'[i].Measured? ensures MeasuredAt(h', i) {
      assert MeasuredAt(h, i) && h'[..i] == h[..i];
    }
  }

  lemma MeasuredReturn(h: seq<Event>, t: nat, clock: nat, clock': nat, start: nat)
    requires MeasuredOk(h) && LastStart(h) == Some(start) && start <= clock <= clock'
    ensures MeasuredOk(h + [Requeued(t, clock)] + [Measured(t, clock' - start)])
  {
    var h1 := h + [Requeued(t, clock)];
    var h' := h1 + [Measured(t, clock' - start)];
    MeasuredExtend(h, Requeued(t, clock));
    LastStartAppend(h, Requeued(t, clock));
    forall i | 0 <= i < |h'| && h'[i].Measured? ensures MeasuredAt(h', i) {
      if i < |h1| {
        assert MeasuredAt(h1, i) && h'[..i] == h1[..i];
      } else {
        assert h'[..i] == h1;
      }
    }
  }

  lemma TimedStep(t: nat, task: Task, clock: nat, clock': nat, v: View, v': View, purging: bool)
    requires Timed(v, clock) && ViewStep(t, task, clock, clock', v, v', purging)
    ensures Timed(v', clock')
  {
    hide MeasuredOk, LastStart, Remeasured;
    var h := v.history;
    if Starts(t, task, clock, clock', v, v') {
      var e := Started(t, v.job.value.arrival, clock');
      TimedEvent(h, e);
      TimedEvent(h + [e], Called(t));
    } else if GoesBack(t, task, clock, clock', v, v') {
      TimedEvent(h, Requeued(t, clock));
      MeasuredReturn(h, t, clock, clock', v.timer.value);
      assert h + [Requeued(t, clock)] + [] == h + [Requeued(t, clock)];
    } else if v' != v {
      TimedEvent(h, Cleaned(t));
    }
  }

  lemma TimedEvent(h: seq<Event>, e: Event)
    requires MeasuredOk(h) && !e.Measured?
    ensures MeasuredOk(h + [e])
    ensures LastStart(h + [e]) == if e.Started? then Some(e.at) else LastStart(h)
    ensures h + [] == h
  {
    MeasuredExtend(h, e);
    LastStartAppend(h, e);
  }
}
