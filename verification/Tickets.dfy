/** The life of a single ticket: every step of the scheduler, seen from one add call. */
module Tickets {
  import opened HeapOrder
  import opened JobOrder
  import opened Options
  import opened SchedulerModel
  import opened Ownership

  /** What concerns one ticket: its job and record while it is held, the timer while it runs,
      and the events that carry it. */
  datatype View = View(job: Option<Job>, record: Option<IntervalJob>, timer: Option<nat>, history: seq<Event>)

  ghost function Find<T>(m: map<nat, T>, t: nat): Option<T> {
    if t in m then Some(m[t]) else None
  }

  ghost function TimerOf(running: seq<Running>, t: nat): Option<nat> {
    if running == [] then None
    else
      var r := running[|running| - 1];
      if r.job.ticket == t then Some(r.timer) else TimerOf(running[..|running| - 1], t)
  }

  /** The events of a ticket, in order. */
  ghost function History(log: seq<Event>, t: nat): seq<Event> {
    if log == [] then []
    else
      var e := log[|log| - 1];
      History(log[..|log| - 1], t) + if e.ticket == t then [e] else []
  }

  ghost function ViewOf(st: State, books: map<nat, Job>, t: nat): View {
    View(Find(books, t), Find(st.records, t), TimerOf(st.running, t), History(st.log, t))
  }

  lemma HistoryAppend(log: seq<Event>, e: Event, t: nat)
    ensures History(log + [e], t) == History(log, t) + if e.ticket == t then [e] else []
  {
    assert (log + [e])[..|log|] == log;
  }

  lemma HistoryAppend2(log: seq<Event>, e: Event, more: bool, e2: Event, t: nat)
    requires e.ticket == e2.ticket
    ensures History(log + [e] + (if more then [e2] else []), t)
         == if e.ticket == t then History(log, t) + [e] + (if more then [e2] else []) else History(log, t)
  {
    HistoryAppend(log, e, t);
    assert History(log, t) + [] == History(log, t);
    if more {
      HistoryAppend(log + [e], e2, t);
    } else {
      assert log + [e] + [] == log + [e];
      assert History(log, t) + [e] + [] == History(log, t) + [e];
    }
  }

  lemma HistoryAppendIf(log: seq<Event>, more: bool, e: Event, t: nat)
    ensures History(log + (if more then [e] else []), t)
         == if e.ticket == t then History(log, t) + (if more then [e] else []) else History(log, t)
  {
    HistoryAppend(log, e, t);
    assert log + [] == log && History(log, t) + [] == History(log, t);
  }

  lemma {:induction false} NoHistory(log: seq<Event>, t: nat)
    requires forall e :: e in log ==> e.ticket != t
    ensures History(log, t) == []
  {
    if log != [] {
      NoHistory(log[..|log| - 1], t);
    }
  }

  lemma TimerAppend(running: seq<Running>, r: Running, t: nat)
    ensures TimerOf(running + [r], t) == if r.job.ticket == t then Some(r.timer) else TimerOf(running, t)
  {
    assert (running + [r])[..|running|] == running;
  }

  lemma {:induction false} TimerMeansStacked(running: seq<Running>, t: nat)
    ensures TimerOf(running, t).Some? ==> exists j :: j in Stacked(running) && j.ticket == t
  {
    if running != [] {
      var r := running[|running| - 1];
      if r.job.ticket == t {
        assert r.job in Stacked(running);
      } else if TimerOf(running, t).Some? {
        TimerMeansStacked(running[..|running| - 1], t);
        var j :| j in Stacked(running[..|running| - 1]) && j.ticket == t;
        assert j in Stacked(running);
      }
    }
  }

  /** A job that waits in the queue, or that has just left the stack, is not running. */
  lemma NotRunning(st: State, books: map<nat, Job>, rest: seq<Running>, j: Job)
    requires Ledger(st, books) && Stacked(rest) <= Stacked(st.running)
    requires Held(st)[j] > Stacked(rest)[j] && j in Held(st)
    ensures TimerOf(rest, j.ticket).None?
  {
    TimerMeansStacked(rest, j.ticket);
    if TimerOf(rest, j.ticket).Some? {
      var k :| k in Stacked(rest) && k.ticket == j.ticket;
      assert k in Held(st);
      Entry(st, books, j);
      Entry(st, books, k);
    }
  }

  // ---------- What can happen to a ticket ----------

  /** The job is popped and its function entered. */
  ghost predicate Starts(t: nat, task: Task, clock: nat, clock': nat, v: View, v': View) {
    && v.job.Some? && v.timer.None?
    && clock <= clock' && v.job.value.arrival <= clock'
    && v' == v.(timer := Some(clock'),
                history := v.history + [Started(t, v.job.value.arrival, clock')]
                                     + if task.hasFunction then [Called(t)] else [])
  }

  /** The job leaves for good: `purged` by `stop`, or after its last run. */
  ghost predicate Leaves(t: nat, task: Task, v: View, v': View, purged: bool) {
    && v.job.Some?
    && (if purged then v.timer.None?
        else v.timer.Some? && (v.job.value.tag == FIRSTTIME || !v.record.Some? || !v.record.value.attached))
    && v' == View(None, None, None, v.history + if task.hasCleanup then [Cleaned(t)] else [])
  }

  /** The job has run and puts itself back. */
  ghost predicate GoesBack(t: nat, task: Task, clock: nat, clock': nat, v: View, v': View) {
    && v.job.Some? && v.timer.Some? && v.record.Some?
    && v.job.value.kind.Interval? && v.job.value.tag != FIRSTTIME && v.record.value.attached
    && clock <= clock'
    && var record, d := CountRun(v.record.value), Since(v.timer.value, clock');
       v' == View(Some(BackJob(clock, t, record)), Some(Remeasured(record, d)), None,
                  v.history + [Requeued(t, clock)] + if record.called < UINT_MAX then [Measured(t, d)] else [])
  }

  ghost predicate ViewStep(t: nat, task: Task, clock: nat, clock': nat, v: View, v': View, purging: bool) {
    || (v' == v && clock <= clock')
    || Starts(t, task, clock, clock', v, v')
    || (Leaves(t, task, v, v', false) && clock <= clock')
    || (purging && Leaves(t, task, v, v', true) && clock <= clock')
    || GoesBack(t, task, clock, clock', v, v')
  }

  /** The view of a ticket that has just been added. */
  ghost function NewView(task: Task, t: nat): View {
    if task.kind.Interval? then
      View(Some(Job(Interval, t, task.due, task.estimate, task.nice, TagFor(task.times))),
           Some(IntervalJob(true, task.hasFunction, task.hasCleanup, task.interval, task.times, task.nice,
                            task.estimate, 1)),
           None, [])
    else
      View(Some(Job(task.kind, t, task.due, task.estimate, task.nice, FIRSTTIME)), None, None, [])
  }

  // ---------- Every step is such a change, for every ticket ----------

  lemma AddView(st: State, books: map<nat, Job>, request: Request, books': map<nat, Job>, t: nat)
    requires Ledger(st, books) && (request.Add? || request.AddInterval?) && t <= |st.tasks|
    requires |st.tasks| !in books && books' == books[|st.tasks| := NewJob(st, request)]
    ensures var st' := Serve(st, request);
            ViewOf(st', books', t) == if t == |st.tasks| then NewView(st'.tasks[t], t) else ViewOf(st, books, t)
  {
    hide Push, Ledger, TimerOf, History;
    if t == |st.tasks| {
      FreshTicket(st, books);
    }
  }

  /** Nothing is known yet of the next ticket. */
  lemma FreshTicket(st: State, books: map<nat, Job>)
    requires Ledger(st, books)
    ensures |st.tasks| !in st.records && TimerOf(st.running, |st.tasks|).None? && History(st.log, |st.tasks|) == []
  {
    hide Lists, Matches;
    var t := |st.tasks|;
    NoHistory(st.log, t);
    TimerMeansStacked(st.running, t);
    if TimerOf(st.running, t).Some? {
      var j :| j in Stacked(st.running) && j.ticket == t;
      assert j in Held(st);
      Entry(st, books, j);
    }
  }

  lemma ElapseView(st: State, books: map<nat, Job>, request: Request)
    requires request.Elapse?
    ensures forall t :: ViewOf(Serve(st, request), books, t) == ViewOf(st, books, t)
  {
  }

  lemma BeginView(st: State, books: map<nat, Job>, sleepOk: bool, delay: nat, t: nat)
    requires Ledger(st, books) && t < |st.tasks|
    ensures var st' := BeginJob(st, sleepOk, delay);
            ViewStep(t, st.tasks[t], st.clock, st'.clock, ViewOf(st, books, t), ViewOf(st', books, t), false)
  {
    hide Ledger, BeginJob, ViewOf, Starts, Leaves, GoesBack;
    SafeBegin(st, books, sleepOk, delay);
    if CanBegin(st, sleepOk) {
      if t == st.queue[0].ticket {
        BeginOwnView(st, books, sleepOk, delay);
      } else {
        BeginOtherView(st, books, sleepOk, delay, t);
      }
    }
  }

  lemma BeginOwnView(st: State, books: map<nat, Job>, sleepOk: bool, delay: nat)
    requires Ledger(st, books) && CanBegin(st, sleepOk) && st.queue[0].ticket < |st.tasks|
    ensures var t, st' := st.queue[0].ticket, BeginJob(st, sleepOk, delay);
            Starts(t, st.tasks[t], st.clock, st'.clock, ViewOf(st, books, t), ViewOf(st', books, t))
  {
    hide Pop, Ledger, BeginJob, TimerOf, History;
    SafeBegin(st, books, sleepOk, delay);
    var job, st' := st.queue[0], BeginJob(st, sleepOk, delay);
    var t := job.ticket;
    HistoryAppend2(st.log, Started(t, job.arrival, st'.clock), st.tasks[t].hasFunction, Called(t), t);
    TimerAppend(st.running, Running(job, st'.clock), t);
    QueuedNotRunning(st, books, job);
  }

  lemma BeginOtherView(st: State, books: map<nat, Job>, sleepOk: bool, delay: nat, t: nat)
    requires Ledger(st, books) && CanBegin(st, sleepOk) && t < |st.tasks| && t != st.queue[0].ticket
    ensures var st' := BeginJob(st, sleepOk, delay);
            ViewOf(st', books, t) == ViewOf(st, books, t) && st.clock <= st'.clock
  {
    hide Pop, Ledger, BeginJob, TimerOf, History;
    SafeBegin(st, books, sleepOk, delay);
    var job, st' := st.queue[0], BeginJob(st, sleepOk, delay);
    var u := job.ticket;
    assert u < |st.tasks| by { QueuedTicket(st, books, job); }
    HistoryAppend2(st.log, Started(u, job.arrival, st'.clock), st.tasks[u].hasFunction, Called(u), t);
    TimerAppend(st.running, Running(job, st'.clock), t);
  }

  lemma QueuedTicket(st: State, books: map<nat, Job>, job: Job)
    requires Ledger(st, books) && job in st.queue
    ensures job.ticket < |st.tasks|
  {
    hide Lists, Owned;
    assert job in multiset(st.queue);
    Entry(st, books, job);
  }

  /** A job that returns is no longer on the stack. */
  lemma ReturnedNotRunning(st: State, books: map<nat, Job>)
    requires Ledger(st, books) && st.running != []
    ensures TimerOf(Popped(st).running, Innermost(st).job.ticket).None?
  {
    hide Lists, Owned;
    NotRunning(st, books, Popped(st).running, Innermost(st).job);
  }

  lemma FinishView(st: State, books: map<nat, Job>, took: nat, books': map<nat, Job>, t: nat)
    requires Ledger(st, books) && t < |st.tasks| && st.running != []
    requires var job := Innermost(st).job;
      if Retires(st, job) then books' == books - {job.ticket}
      else books' == books[job.ticket := BackJob(st.clock, job.ticket, CountRun(st.records[job.ticket]))]
    ensures var st' := FinishJob(st, took);
            ViewStep(t, st.tasks[t], st.clock, st'.clock, ViewOf(st, books, t), ViewOf(st', books', t), false)
  {
    hide Push, Pop, Ledger, FinishJob, ViewOf, Leaves, GoesBack, PutBack, Retired, Retires;
    hide TimerOf, Matches, Held, Stacked;
    FinishMeaning(st, books, took);
    var r := Innermost(st);
    var job := r.job;
    if t != job.ticket {
      FinishOtherView(st, books, took, books', t);
    } else {
      ReturnedNotRunning(st, books);
      if Retires(st, job) {
        FinishRetireView(st, books, took, books');
      } else {
        FinishBackView(st, books, took, books');
      }
    }
  }

  lemma FinishOtherView(st: State, books: map<nat, Job>, took: nat, books': map<nat, Job>, t: nat)
    requires Ledger(st, books) && t < |st.tasks| && st.running != [] && t != Innermost(st).job.ticket
    requires Find(books', t) == Find(books, t)
    ensures ViewOf(FinishJob(st, took), books', t) == ViewOf(st, books, t)
    ensures st.clock <= FinishJob(st, took).clock
  {
    hide Push, Pop, Lists, Owned, FinishJob;
    FinishMeaning(st, books, took);
    var r := Innermost(st);
    var u := r.job.ticket;
    if Retires(st, r.job) {
      HistoryAppendIf(st.log, st.tasks[u].hasCleanup, Cleaned(u), t);
    } else {
      var d := Since(r.timer, st.clock + took);
      HistoryAppend2(st.log, Requeued(u, st.clock), st.records[u].called < UINT_MAX, Measured(u, d), t);
    }
  }

  lemma FinishRetireView(st: State, books: map<nat, Job>, took: nat, books': map<nat, Job>)
    requires Ledger(st, books) && st.running != [] && Retires(st, Innermost(st).job)
    requires var t := Innermost(st).job.ticket;
      t < |st.tasks| && books' == books - {t} && TimerOf(Popped(st).running, t).None?
    ensures var t := Innermost(st).job.ticket;
      Leaves(t, st.tasks[t], ViewOf(st, books, t), ViewOf(FinishJob(st, took), books', t), false)
    ensures st.clock <= FinishJob(st, took).clock
  {
    hide Push, Pop, Lists, Owned, FinishJob;
    FinishMeaning(st, books, took);
    var t := Innermost(st).job.ticket;
    if t in st.records {
      RecordsAreIntervals(st, books, t);
    }
    HistoryAppendIf(st.log, st.tasks[t].hasCleanup, Cleaned(t), t);
  }

  lemma RecordsAreIntervals(st: State, books: map<nat, Job>, t: nat)
    requires Ledger(st, books) && t in st.records
    ensures t in books && books[t].kind.Interval?
  {
  }

  lemma FinishBackView(st: State, books: map<nat, Job>, took: nat, books': map<nat, Job>)
    requires Ledger(st, books) && st.running != [] && !Retires(st, Innermost(st).job)
    requires var t := Innermost(st).job.ticket;
      && t < |st.tasks| && books' == books[t := BackJob(st.clock, t, CountRun(st.records[t]))]
      && TimerOf(Popped(st).running, t).None?
    ensures var t := Innermost(st).job.ticket;
      GoesBack(t, st.tasks[t], st.clock, FinishJob(st, took).clock,
               ViewOf(st, books, t), ViewOf(FinishJob(st, took), books', t))
  {
    hide Push, Pop, Lists, Owned, FinishJob, TimerOf, History, Stacked;
    FinishMeaning(st, books, took);
    var r := Innermost(st);
    var t := r.job.ticket;
    assert TimerOf(st.running, t) == Some(r.timer) by {
      TimerAppend(Popped(st).running, r, t);
      assert st.running == Popped(st).running + [r];
    }
    var d := Since(r.timer, st.clock + took);
    HistoryAppend2(st.log, Requeued(t, st.clock), st.records[t].called < UINT_MAX, Measured(t, d), t);
  }

  lemma StopOneView(st: State, books: map<nat, Job>, t: nat)
    requires Ledger(st, books) && st.queue != [] && t < |st.tasks|
    ensures var v, v' := ViewOf(st, books, t), ViewOf(StopOne(st), books - {st.queue[0].ticket}, t);
            v' == v || Leaves(t, st.tasks[t], v, v', true)
  {
    hide Push, Pop, Lists, Owned, StopOne, Stacked, TimerOf, History, Matches;
    var job := st.queue[0];
    var books' := SafeStopOne(st, books);
    Entry(st, books, job);
    HistoryAppendIf(st.log, st.tasks[job.ticket].hasCleanup, Cleaned(job.ticket), t);
    if t == job.ticket {
      QueuedNotRunning(st, books, job);
      if t in st.records {
        RecordsAreIntervals(st, books, t);
      }
    }
  }

  lemma QueuedNotRunning(st: State, books: map<nat, Job>, job: Job)
    requires Ledger(st, books) && job in st.queue
    ensures TimerOf(st.running, job.ticket).None?
  {
    hide Lists, Owned;
    assert multiset(st.queue)[job] >= 1;
    NotRunning(st, books, st.running, job);
  }

  lemma {:induction false} StopView(st: State, books: map<nat, Job>, books': map<nat, Job>, t: nat)
    requires Ledger(st, books) && Ledger(StopAll(st), books') && t < |st.tasks|
    ensures var v, v' := ViewOf(st, books, t), ViewOf(StopAll(st), books', t);
            v' == v || Leaves(t, st.tasks[t], v, v', true)
    decreases |st.queue|
  {
    hide Push, Pop, Owned, StopOne, Stacked;
    if st.queue == [] {
      SameBooks(st, books, books');
    } else {
      var books1 := SafeStopOne(st, books);
      StopOneView(st, books, t);
      StopView(StopOne(st), books1, books', t);
    }
  }

  lemma SameBooks(st: State, books: map<nat, Job>, books': map<nat, Job>)
    requires Ledger(st, books) && Ledger(st, books')
    ensures books == books'
  {
    forall t | t in books ensures t in books' && books'[t] == books[t] {
      assert books[t] in books.Values;
      Entry(st, books', books[t]);
    }
    forall t | t in books' ensures t in books {
      assert books'[t] in books'.Values;
      Entry(st, books, books'[t]);
    }
  }

  lemma TasksKept(st: State, books: map<nat, Job>, step: Step)
    requires Ledger(st, books)
    ensures var st' := Next(st, step);
      && st.clock <= st'.clock
      && if step.Do? && (step.request.Add? || step.request.AddInterval?)
         then |st'.tasks| == |st.tasks| + 1 && st.tasks <= st'.tasks
         else st'.tasks == st.tasks
  {
    hide Push, Pop, Lists, Owned, FinishJob, BeginJob, Matches;
    if step.Finish? && st.running != [] {
      FinishMeaning(st, books, step.took);
    } else if step == Do(Stop) {
      var books' := SafeStop(st, books);
    } else if step.Finish? {
      FinishIdle(st, step.took);
    } else if step.Begin? {
      SafeBegin(st, books, step.sleepOk, step.delay);
    }
  }

  lemma FinishIdle(st: State, took: nat)
    requires st.running == []
    ensures FinishJob(st, took) == st
  {
  }

  /** The step of a run, as the ticket sees it. */
  lemma StepView(st: State, books: map<nat, Job>, step: Step) returns (books': map<nat, Job>)
    requires Ledger(st, books)
    ensures var st' := Next(st, step);
      && Ledger(st', books')
      && st.tasks <= st'.tasks
      && (forall t: nat :: t < |st.tasks| ==>
            ViewStep(t, st.tasks[t], st.clock, st'.clock, ViewOf(st, books, t), ViewOf(st', books', t),
                     step == Do(Stop)))
      && (forall t: nat :: |st.tasks| <= t < |st'.tasks| ==> ViewOf(st', books', t) == NewView(st'.tasks[t], t))
  {
    hide Push, Pop, Owned, Lists, ViewOf, BeginJob, FinishJob;
    books' := books;
    var st' := Next(st, step);
    TasksKept(st, books, step);
    match step
    case Do(request) =>
      if request.Stop? {
        books' := SafeStop(st, books);
        forall t: nat | t < |st.tasks|
          ensures ViewStep(t, st.tasks[t], st.clock, st'.clock, ViewOf(st, books, t), ViewOf(st', books', t), true)
        {
          StopView(st, books, books', t);
        }
      } else if request.Elapse? {
        ElapseView(st, books, request);
      } else {
        books' := SafeAdd(st, books, request);
        forall t: nat | t <= |st.tasks|
          ensures ViewOf(st', books', t) == if t == |st.tasks| then NewView(st'.tasks[t], t) else ViewOf(st, books, t)
        {
          AddView(st, books, request, books', t);
        }
      }
    case Begin(sleepOk, delay) =>
      SafeBegin(st, books, sleepOk, delay);
      forall t: nat | t < |st.tasks|
        ensures ViewStep(t, st.tasks[t], st.clock, st'.clock, ViewOf(st, books, t), ViewOf(st', books, t), false)
      {
        BeginView(st, books, sleepOk, delay, t);
      }
    case Finish(took) =>
      books' := SafeFinish(st, books, took);
      if st.running != [] {
        forall t: nat | t < |st.tasks|
          ensures ViewStep(t, st.tasks[t], st.clock, st'.clock, ViewOf(st, books, t), ViewOf(st', books', t), false)
        {
          FinishView(st, books, took, books', t);
        }
      } else {
        FinishIdle(st, took);
      }
  }
}
