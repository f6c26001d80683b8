/** What happens when a job returns, and where every measured duration comes from. */
module Returns {
  import opened HeapOrder
  import opened JobOrder
  import opened Options
  import opened SchedulerModel
  import opened Scripts
  import opened Ownership
  import opened Tickets
  import opened Requests
  import opened Lifetimes
  import opened Rounds
  import opened Durations
  import RunCount
  import Timing
  import Averages

  /** The job of ticket `t` leaves: only its record goes, and its cleanup is called if it has one. */
  ghost predicate Left(st: State, st': State, t: nat, request: Request)
    requires st.running != [] && (request.Add? || request.AddInterval?)
  {
    && st'.clock == st.clock && st'.queue == st.queue && st'.tasks == st.tasks
    && st'.running == st.running[..|st.running| - 1]
    && st'.records == st.records - {t}
    && st'.log == st.log + if request.hasCleanup then [Cleaned(t)] else []
  }

  /** The job of ticket `t`, entered at `start`, goes back: it is due one interval from now, at the
      estimate known so far; putting it back takes `took`; then the time from `start` until that is
      done enters the average, unless the counter is full. */
  ghost predicate WentBack(st: State, st': State, t: nat, request: Request, start: nat, took: nat)
    requires st.running != [] && request.AddInterval?
  {
    && t in st.records && start <= st.clock
    && var record, duration := st.records[t], st.clock + took - start;
       var left := if record.ntimes == 0 then 0 else record.ntimes - 1;
       var measured := record.called < 0xFFFF_FFFF;
       && st'.clock == st.clock + took && st'.tasks == st.tasks
       && st'.running == st.running[..|st.running| - 1]
       && multiset(st'.queue) == multiset(st.queue) + multiset{
            Job(Interval, t, st.clock + request.interval, record.average, request.nice,
                if left == 1 then FIRSTTIME else LASTTIME)}
       && st'.records == st.records[t := record.(
            ntimes := left,
            average := if measured then (record.average * record.called + duration) / (record.called + 1)
                       else record.average,
            called := if measured then record.called + 1 else record.called)]
       && st'.log == st.log + [Requeued(t, st.clock)] + if measured then [Measured(t, duration)] else []
  }

  /** The timer of the innermost running job is the time of its last start. */
  lemma InnermostView(st: State, books: map<nat, Job>, purged: bool)
    requires Ledger(st, books) && AllOk(st, books, purged) && st.running != []
    ensures var r := Innermost(st);
      && r.job.ticket < |st.tasks| && Matches(r.job, st.tasks[r.job.ticket], st.records)
      && LastStart(History(st.log, r.job.ticket)) == Some(r.timer) && r.timer <= st.clock
      && (r.job.ticket in st.records ==> st.records[r.job.ticket].attached)
  {
    hide Ledger, RunCount.Accounted, Timing.Timely, Averages.Averaging, Matches, LastStart, History, TimerOf;
    var r := Innermost(st);
    var t := r.job.ticket;
    FinishMeaning(st, books, 0);
    assert TicketOk(st.tasks[t], ViewOf(st, books, t), st.clock, purged);
    InnermostTimer(st);
    StillAttached(st.tasks[t], ViewOf(st, books, t), purged);
  }

  lemma InnermostTimer(st: State)
    requires st.running != []
    ensures TimerOf(st.running, Innermost(st).job.ticket) == Some(Innermost(st).timer)
  {
  }

  lemma StillAttached(task: Task, v: View, purged: bool)
    requires RunCount.Accounted(task, v, purged) && v.job.Some?
    ensures v.record.Some? ==> v.record.value.attached
  {
  }

  /** After any run: when the innermost running job returns, it leaves if it is a one-time job or this
      was its last run, and otherwise goes back with the time since its last start measured. */
  lemma ReturnMeaning(steps: seq<Step>, took: nat)
    requires Exec(INIT, steps).running != []
    ensures var st, st' := Exec(INIT, steps), FinishJob(Exec(INIT, steps), took);
      var t := Innermost(st).job.ticket;
      && t < Adds(steps)
      && var request, start := RequestOf(steps, t), LastStart(History(st.log, t));
         && start.Some?
         && if request.Add? || Innermost(st).job.tag == FIRSTTIME then Left(st, st', t, request)
            else WentBack(st, st', t, request, start.value, took)
  {
    hide Ledger, AllOk, Held, LastStart, History, Purges, Adds, RequestOf, AddTime;
    var books := AtEnd(steps);
    var st := Exec(INIT, steps);
    InnermostView(st, books, Purges(steps));
    TasksAsAsked(steps);
    FinishMeaning(st, books, took);
    var r := Innermost(st);
    assert AskedFor(st.tasks[r.job.ticket], RequestOf(steps, r.job.ticket), AddTime(steps, r.job.ticket));
    if Retires(st, r.job) {
      LeftIs(st, books, r.job, RequestOf(steps, r.job.ticket), AddTime(steps, r.job.ticket));
    } else {
      WentBackIs(st, r, RequestOf(steps, r.job.ticket), AddTime(steps, r.job.ticket), took);
    }
  }

  lemma LeftIs(st: State, books: map<nat, Job>, job: Job, request: Request, time: nat)
    requires Ledger(st, books) && st.running != [] && job == Innermost(st).job && job.ticket < |st.tasks|
    requires request.Add? || request.AddInterval?
    requires AskedFor(st.tasks[job.ticket], request, time) && Matches(job, st.tasks[job.ticket], st.records)
    requires job.ticket in books && books[job.ticket] == job
    ensures Left(st, Retired(Popped(st), job), job.ticket, request)
  {
    if job.ticket in st.records {
      RecordsAreIntervals(st, books, job.ticket);
    } else {
      assert st.records - {job.ticket} == st.records;
    }
  }

  lemma WentBackIs(st: State, r: Running, request: Request, time: nat, took: nat)
    requires st.running != [] && r == Innermost(st) && !Retires(st, r.job) && r.timer <= st.clock
    requires request.Add? || request.AddInterval?
    requires r.job.ticket < |st.tasks| && AskedFor(st.tasks[r.job.ticket], request, time)
    requires Matches(r.job, st.tasks[r.job.ticket], st.records)
    ensures request.AddInterval?
    ensures WentBack(st, PutBack(Popped(st), r.job.ticket, CountRun(st.records[r.job.ticket]), r.timer, took),
                     r.job.ticket, request, r.timer, took)
  {
    hide Push;
  }

  // ---------- Time ----------

  /** What moves the clock, after any run: time that passes in a callback or between calls; the sleep
      until the first job is due, and the delay from there to its entry; and putting a job back. */
  lemma TimeMeaning(steps: seq<Step>, step: Step)
    ensures var st, st' := Exec(INIT, steps), Next(Exec(INIT, steps), step);
      match step
      case Do(Elapse(ms)) => st' == st.(clock := st.clock + ms)
      case Do(_) => st'.clock == st.clock
      case Begin(sleepOk, delay) =>
        st'.clock == if st.queue == [] || SleepFails(st, sleepOk) then st.clock
                     else Later(st.queue[0].arrival, st.clock) + delay
      case Finish(took) =>
        st'.clock == if st.running == [] || Innermost(st).job.kind.OneShot? || Innermost(st).job.tag == FIRSTTIME
                     then st.clock else st.clock + took
  {
    hide BeginJob, FinishJob, StopAll, Safe, LastStart, History;
    var st := Exec(INIT, steps);
    InitSafe();
    SafeRun(INIT, steps);
    match step
    case Do(request) =>
      if request.Stop? {
        StopMeaning(st);
      }
    case Begin(sleepOk, delay) => BeginMeaning(st, sleepOk, delay);
    case Finish(took) =>
      if st.running == [] {
        FinishIdle(st, took);
      } else {
        ReturnMeaning(steps, took);
        ReturningKind(steps);
      }
  }

  lemma ReturningKind(steps: seq<Step>)
    requires Exec(INIT, steps).running != []
    ensures var job := Innermost(Exec(INIT, steps)).job;
      job.ticket < Adds(steps) && (job.kind.OneShot? <==> RequestOf(steps, job.ticket).Add?)
  {
    hide Ledger, AllOk, LastStart, History, Adds, RequestOf, AddTime;
    var books := AtEnd(steps);
    var st := Exec(INIT, steps);
    var t := Innermost(st).job.ticket;
    InnermostView(st, books, Purges(steps));
    TasksAsAsked(steps);
    assert AskedFor(st.tasks[t], RequestOf(steps, t), AddTime(steps, t));
  }

  // ---------- Every measured duration ----------

  /** Step `k` is the return that made event `i`: the job of the ticket was put back, which took as
      long as the step says, and the duration is the time from the ticket's last start to the end
      of that. */
  ghost predicate MeasuredBy(steps: seq<Step>, k: nat, log: seq<Event>, i: nat)
    requires k < |steps| && i < |log| && log[i].Measured?
  {
    var st, t := Exec(INIT, steps[..k]), log[i].ticket;
    var start := LastStart(History(st.log, t));
    && steps[k].Finish? && i == |st.log| + 1 && log[i - 1] == Requeued(t, st.clock)
    && start.Some? && start.value <= st.clock
    && log[i].took == st.clock + steps[k].took - start.value
  }

  /** Only returns measure, and one each. */
  lemma StepMeasures(steps: seq<Step>, step: Step, i: nat)
    requires var log := Next(Exec(INIT, steps), step).log;
      |Exec(INIT, steps).log| <= i < |log| && log[i].Measured?
    ensures var st, log := Exec(INIT, steps), Next(Exec(INIT, steps), step).log;
      var start := LastStart(History(st.log, log[i].ticket));
      && step.Finish? && i == |st.log| + 1 && log[i - 1] == Requeued(log[i].ticket, st.clock)
      && start.Some? && start.value <= st.clock && log[i].took == st.clock + step.took - start.value
  {
    hide BeginJob, FinishJob, StopAll, Safe, LastStart, History;
    var st := Exec(INIT, steps);
    InitSafe();
    SafeRun(INIT, steps);
    match step
    case Do(request) =>
      if request.Stop? {
        StopMeasuresNothing(st);
      }
    case Begin(sleepOk, delay) => BeginMeasuresNothing(st, sleepOk, delay);
    case Finish(took) =>
      if st.running == [] {
        FinishIdle(st, took);
      } else {
        ReturnMeaning(steps, took);
      }
  }

  lemma {:induction false} StopMeasuresNothing(st: State)
    requires Safe(st)
    ensures forall i :: |st.log| <= i < |StopAll(st).log| ==> !StopAll(st).log[i].Measured?
    decreases |st.queue|
  {
    hide Ledger, StopOne, Pop;
    if st.queue != [] {
      var books :| Ledger(st, books);
      var books' := SafeStopOne(st, books);
      StopMeasuresNothing(StopOne(st));
      StopGrows(StopOne(st));
    }
  }

  lemma BeginMeasuresNothing(st: State, sleepOk: bool, delay: nat)
    requires Safe(st)
    ensures var log := BeginJob(st, sleepOk, delay).log;
      forall i :: |st.log| <= i < |log| ==> !log[i].Measured?
  {
    hide Ledger, BeginJob, Pop;
    var books :| Ledger(st, books);
    SafeBegin(st, books, sleepOk, delay);
  }

  /** Over any run, every duration in the log was measured by a return: it is the time from the last
      start of the job to the end of that return. */
  lemma {:induction false} MeasuredLaw(steps: seq<Step>, i: nat)
    requires i < |Exec(INIT, steps).log| && Exec(INIT, steps).log[i].Measured?
    ensures exists k :: 0 <= k < |steps| && MeasuredBy(steps, k, Exec(INIT, steps).log, i)
    decreases |steps|
  {
    hide Next, LastStart, History;
    var n, log := |steps| - 1, Exec(INIT, steps).log;
    var before := Exec(INIT, steps[..n]);
    ExecLast(INIT, steps);
    StepGrows(before, steps[n]);
    if i < |before.log| {
      MeasuredLaw(steps[..n], i);
      var k :| 0 <= k < n && MeasuredBy(steps[..n], k, before.log, i);
      assert steps[..n][..k] == steps[..k];
      assert MeasuredBy(steps, k, log, i);
    } else {
      StepMeasures(steps[..n], steps[n], i);
      assert MeasuredBy(steps, n, log, i);
    }
  }
}
