/** What every run of the scheduler guarantees to each job: run counts, timing, averages. */
module Lifetimes {
  import opened JobOrder
  import opened Options
  import opened SchedulerModel
  import opened Ownership
  import opened Tickets
  import opened Requests
  import RunCount
  import Timing
  import Averages
  import Durations

  ghost predicate TicketOk(task: Task, v: View, clock: nat, purged: bool) {
    && RunCount.Accounted(task, v, purged) && Timing.Timely(task, v, clock)
    && Averages.Averaging(task, v) && Durations.Timed(v, clock)
  }

  ghost predicate AllOk(st: State, books: map<nat, Job>, purged: bool) {
    && (forall t: nat :: t < |st.tasks| ==> TicketOk(st.tasks[t], ViewOf(st, books, t), st.clock, purged))
    && forall t: nat :: t < |st.tasks| && st.tasks[t].kind.OneShot? ==> st.tasks[t].times == 1
  }

  lemma TicketStep(t: nat, task: Task, clock: nat, clock': nat, v: View, v': View, purged: bool, purging: bool)
    requires TicketOk(task, v, clock, purged) && ViewStep(t, task, clock, clock', v, v', purging)
    ensures TicketOk(task, v', clock', purged || purging)
  {
    RunCount.AccountedStep(t, task, clock, clock', v, v', purged, purging);
    Timing.TimelyStep(t, task, clock, clock', v, v', purging);
    Averages.AveragingStep(t, task, clock, clock', v, v', purging);
    Durations.TimedStep(t, task, clock, clock', v, v', purging);
  }

  lemma TicketNew(t: nat, task: Task, clock: nat, purged: bool)
    requires task.kind.OneShot? ==> task.times == 1
    ensures TicketOk(task, NewView(task, t), clock, purged)
  {
    RunCount.AccountedNew(t, task, purged);
    Timing.TimelyNew(t, task, clock);
    Averages.AveragingNew(t, task);
    Durations.TimedNew(t, task, clock);
  }

  lemma AllOkStep(st: State, books: map<nat, Job>, purged: bool, step: Step) returns (books': map<nat, Job>)
    requires Ledger(st, books) && AllOk(st, books, purged)
    ensures var st' := Next(st, step); Ledger(st', books') && AllOk(st', books', purged || step == Do(Stop))
  {
    hide Ledger, ViewOf, TicketOk, ViewStep, Next;
    books' := StepView(st, books, step);
    var st' := Next(st, step);
    NewTasksOneShot(st, books, step);
    forall t: nat | t < |st'.tasks|
      ensures TicketOk(st'.tasks[t], ViewOf(st', books', t), st'.clock, purged || step == Do(Stop))
    {
      if t < |st.tasks| {
        TicketStep(t, st.tasks[t], st.clock, st'.clock, ViewOf(st, books, t), ViewOf(st', books', t),
                   purged, step == Do(Stop));
      } else {
        TicketNew(t, st'.tasks[t], st'.clock, purged || step == Do(Stop));
      }
    }
  }

  lemma NewTasksOneShot(st: State, books: map<nat, Job>, step: Step)
    requires Ledger(st, books)
    ensures var st' := Next(st, step);
      forall t: nat :: |st.tasks| <= t < |st'.tasks| && st'.tasks[t].kind.OneShot? ==> st'.tasks[t].times == 1
  {
    hide Ledger, BeginJob, FinishJob, StopAll;
    TasksKept(st, books, step);
  }

  /** Whether a run contains a call of `stop`. */
  ghost predicate Purges(steps: seq<Step>) {
    Do(Stop) in steps
  }

  lemma {:induction false} AllOkRun(st: State, books: map<nat, Job>, purged: bool, steps: seq<Step>)
      returns (books': map<nat, Job>)
    requires Ledger(st, books) && AllOk(st, books, purged)
    ensures Ledger(Exec(st, steps), books') && AllOk(Exec(st, steps), books', purged || Purges(steps))
    decreases |steps|
  {
    hide Ledger, AllOk, Next;
    books' := books;
    if steps != [] {
      books' := AllOkStep(st, books, purged, steps[0]);
      books' := AllOkRun(Next(st, steps[0]), books', purged || steps[0] == Do(Stop), steps[1..]);
      assert Purges(steps) <==> steps[0] == Do(Stop) || Purges(steps[1..]);
    }
  }

  // ---------- Theorems ----------

  /** After any run, for the ticket of every add call: its job, while held, is of the kind and the
      nice value that were passed.  An interval job that asked for n > 0 invocations has n minus those
      made left in its record, the tag is FIRSTTIME exactly when one is left, and it has been started
      at most n times.  Once retired it has run exactly n times, unless `stop` was called; one that
      asked for 0 never retires without it.  The user's function, if one was passed, is called once
      per start. */
  lemma RunCounts(steps: seq<Step>, t: nat)
    requires t < Adds(steps)
    ensures var st, request, times := Exec(INIT, steps), RequestOf(steps, t), TimesOf(RequestOf(steps, t));
      var history := History(st.log, t);
      var starts := RunCount.Starts(history);
      && RunCount.Calls(history) == (if request.hasFunction then starts else 0)
      && (times > 0 ==> starts <= times)
      && (forall j :: j in Held(st) && j.ticket == t ==>
            j.nice == request.nice && (j.kind.Interval? <==> request.AddInterval?))
      && (forall j :: j in Held(st) && j.ticket == t && j.kind.Interval? ==>
            && t in st.records
            && (j.tag == FIRSTTIME <==> st.records[t].ntimes == 1)
            && (j in st.queue && times > 0 ==> st.records[t].ntimes == times - starts >= 1)
            && (j in st.queue && times == 0 ==> st.records[t].ntimes == 0))
      && (!HeldTicket(st, t) && !Purges(steps) ==> times > 0 && starts == times)
  {
    TasksAsAsked(steps);
    hide Adds, RequestOf, AddTime;
    var books := AtEnd(steps);
    var st := Exec(INIT, steps);
    HeldIsBooked(st, books, t);
    if t in books {
      QueuedViews(st, books, t);
    }
  }

  lemma AtEnd(steps: seq<Step>) returns (books: map<nat, Job>)
    ensures Ledger(Exec(INIT, steps), books) && AllOk(Exec(INIT, steps), books, Purges(steps))
  {
    assert Ledger(INIT, map[]);
    books := AllOkRun(INIT, map[], false, steps);
  }

  lemma QueuedViews(st: State, books: map<nat, Job>, t: nat)
    requires Ledger(st, books) && t in books
    ensures books[t] in st.queue ==> TimerOf(st.running, t).None?
    ensures forall j :: j in Held(st) && j.ticket == t ==> j == books[t]
  {
    if books[t] in st.queue {
      QueuedNotRunning(st, books, books[t]);
    }
    forall j | j in Held(st) && j.ticket == t ensures j == books[t] {
      Entry(st, books, j);
    }
  }

  /** After any run, for the ticket of every add call: every start was that of a job due at the time
      asked for, counted from the call, or, later on, one interval after it was last put back; a
      queued job is due then; no job was started before it was due; and between the end of one
      invocation and the start of any later one there was at least the interval that was passed. */
  lemma RunsOnTime(steps: seq<Step>, t: nat)
    requires t < Adds(steps)
    ensures var st, due, interval := Exec(INIT, steps), DueTime(steps, t), IntervalOf(RequestOf(steps, t));
      && Timing.StartsOnTime(due, interval, History(st.log, t))
      && Timing.KeepsInterval(interval, History(st.log, t))
      && forall j :: j in st.queue && j.ticket == t ==>
           j.arrival == Timing.ArrivalAfter(due, interval, History(st.log, t))
  {
    TasksAsAsked(steps);
    hide Adds, RequestOf, AddTime;
    var books := AtEnd(steps);
    var st := Exec(INIT, steps);
    assert AskedFor(st.tasks[t], RequestOf(steps, t), AddTime(steps, t));
    QueuedJobs(st, books, t);
  }

  lemma QueuedJobs(st: State, books: map<nat, Job>, t: nat)
    requires Ledger(st, books)
    ensures forall j :: j in st.queue && j.ticket == t ==>
      t in books && j == books[t] && TimerOf(st.running, t).None?
  {
    forall j | j in st.queue && j.ticket == t ensures t in books && j == books[t] && TimerOf(st.running, t).None? {
      assert j in multiset(st.queue);
      Entry(st, books, j);
      QueuedNotRunning(st, books, j);
    }
  }

  lemma RecordsListed(st: State, books: map<nat, Job>)
    requires Ledger(st, books)
    ensures forall t :: t in st.records ==> t in books
  {
  }

  /** After any run, for the ticket of every add call: every duration was measured right after the job
      was put back, and is at least the time from its start to then.  The average of a live interval
      job, times the number k of its samples (the estimate passed and one duration for each time it
      was put back, until the counter is full), is at most their sum and misses it by at most
      k (k - 1) / 2; and it lies between any bounds on the samples.  A queued job is estimated at the
      average from before its last return. */
  lemma RunAverages(steps: seq<Step>, t: nat, lo: nat, hi: nat)
    requires t < Adds(steps)
    ensures var st, estimate := Exec(INIT, steps), RequestOf(steps, t).estimate;
      var history := History(st.log, t);
      var ds := Averages.Durations(history);
      && Durations.MeasuredOk(history)
      && (t in st.records ==>
            && st.records[t].called == |ds| + 1
            && (|ds| == Averages.PutBacks(history) || |ds| + 1 == 0xFFFF_FFFF)
            && Averages.FairAverage(st.records[t].average, estimate, ds, lo, hi))
      && forall j :: j in st.queue && j.ticket == t ==>
           j.estimate == Averages.AverageOf(estimate, Averages.Durations(Averages.BeforeReturn(history)))
  {
    hide Averages.FairAverage, Averages.AverageOf, Durations.MeasuredOk, History, Ledger;
    hide Adds, RequestOf, AddTime, RunCount.Accounted, Timing.Timely;
    TasksAsAsked(steps);
    var books := AtEnd(steps);
    var st := Exec(INIT, steps);
    QueuedJobs(st, books, t);
    RecordsListed(st, books);
    assert AskedFor(st.tasks[t], RequestOf(steps, t), AddTime(steps, t));
    Averages.AverageIsFair(st.tasks[t].estimate, Averages.Durations(History(st.log, t)), lo, hi);
  }
}
