/** How often every job runs, seen from its ticket. */
module RunCount {
  import opened JobOrder
  import opened Options
  import opened SchedulerModel
  import opened Ownership
  import opened Tickets

  /** How often the job has been started, in its history. */
  ghost function Starts(history: seq<Event>): nat {
    if history == [] then 0
    else Starts(history[..|history| - 1]) + if history[|history| - 1].Started? then 1 else 0
  }

  /** How often the user's function has been called. */
  ghost function Calls(history: seq<Event>): nat {
    if history == [] then 0
    else Calls(history[..|history| - 1]) + if history[|history| - 1].Called? then 1 else 0
  }

  lemma CountAppend(history: seq<Event>, e: Event)
    ensures Starts(history + [e]) == Starts(history) + if e.Started? then 1 else 0
    ensures Calls(history + [e]) == Calls(history) + if e.Called? then 1 else 0
    ensures history + [] == history
  {
    assert (history + [e])[..|history|] == history;
  }

  /** The invocations left, this one included; 0 stands for no end. */
  ghost function RunsLeft(v: View): nat {
    if v.record.Some? then v.record.value.ntimes else 1
  }

  /** While held, the invocations left and those made add up to those asked for, and the tag is
      FIRSTTIME exactly when one is left.  Once retired, and unless `stop` purged it, the job has
      run exactly as often as asked. */
  ghost predicate Accounted(task: Task, v: View, purged: bool) {
    && Calls(v.history) == (if task.hasFunction then Starts(v.history) else 0)
    && if v.job.Some? then
         && (v.job.value.kind.Interval? <==> v.record.Some?)
         && (v.record.Some? ==> v.record.value.attached)
         && v.job.value.tag == TagFor(RunsLeft(v))
         && if task.times == 0 then RunsLeft(v) == 0
            else RunsLeft(v) >= 1 && RunsLeft(v) + Starts(v.history) == task.times + if v.timer.Some? then 1 else 0
       else
         && (task.times > 0 ==> Starts(v.history) <= task.times)
         && (!purged ==> Starts(v.history) == task.times > 0)
  }

  lemma AccountedNew(t: nat, task: Task, purged: bool)
    requires task.kind.OneShot? ==> task.times == 1
    ensures Accounted(task, NewView(task, t), purged)
  {
  }

  lemma AccountedStep(t: nat, task: Task, clock: nat, clock': nat, v: View, v': View, purged: bool, purging: bool)
    requires Accounted(task, v, purged) && ViewStep(t, task, clock, clock', v, v', purging)
    ensures Accounted(task, v', purged || purging)
  {
    var h := v.history;
    if v' != v {
      CountAppend(h, Cleaned(t));
      if Tickets.Starts(t, task, clock, clock', v, v') {
        var e := Started(t, v.job.value.arrival, clock');
        CountAppend(h, e);
        CountAppend(h + [e], Called(t));
      } else if GoesBack(t, task, clock, clock', v, v') {
        CountAppend(h, Requeued(t, clock));
        CountAppend(h + [Requeued(t, clock)], Measured(t, Since(v.timer.value, clock')));
      }
    }
  }
}
