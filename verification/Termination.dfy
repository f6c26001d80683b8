/** How many jobs run, and when `lothar_scheduler_run` ends. */
module Termination {
  import opened HeapOrder
  import opened JobOrder
  import opened MultisetSum
  import opened Options
  import opened SchedulerModel
  import opened Scripts
  import opened Ownership
  import opened Tickets
  import opened Lifetimes
  import RunCount
  import Timing
  import Averages

  /** The invocations a held job has left, one that is running included; 0 stands for no end. */
  ghost function RunsLeft(j: Job, records: map<nat, IntervalJob>): nat {
    if j.kind.OneShot? then 1
    else if j.ticket in records then records[j.ticket].ntimes else 0
  }

  /** The invocations left after the one that is running. */
  ghost function RunsAfter(j: Job, records: map<nat, IntervalJob>): nat {
    if RunsLeft(j, records) > 0 then RunsLeft(j, records) - 1 else 0
  }

  ghost function TotalLeft(jobs: multiset<Job>, records: map<nat, IntervalJob>): nat {
    Sum(jobs, j => RunsLeft(j, records))
  }

  ghost function TotalAfter(jobs: multiset<Job>, records: map<nat, IntervalJob>): nat {
    Sum(jobs, j => RunsAfter(j, records))
  }

  /** All the invocations that the queued jobs have left. */
  ghost function Remaining(st: State): nat {
    TotalLeft(multiset(st.queue), st.records)
  }

  /** All the starts that are still to come. */
  ghost function ToCome(st: State): nat {
    Remaining(st) + TotalAfter(Stacked(st.running), st.records)
  }

  /** Every held job ends. */
  ghost predicate Finite(st: State) {
    forall j :: j in Held(st) ==> RunsLeft(j, st.records) > 0
  }

  // ---------- Steps ----------

  /** What the accounts say about a held job. */
  lemma AccountedEntry(st: State, books: map<nat, Job>, purged: bool, job: Job)
    requires Ledger(st, books) && AllOk(st, books, purged) && job in Held(st)
    ensures job.kind.Interval? <==> job.ticket in st.records
    ensures job.kind.Interval? ==> st.records[job.ticket].attached
    ensures job.tag == FIRSTTIME <==> RunsLeft(job, st.records) == 1
  {
    hide Timing.Timely, Averages.Averaging;
    Entry(st, books, job);
    assert TicketOk(st.tasks[job.ticket], ViewOf(st, books, job.ticket), st.clock, purged);
  }

  /** Records other than that of ticket `t` are as before. */
  ghost predicate SameBut(records: map<nat, IntervalJob>, records': map<nat, IntervalJob>, t: nat) {
    forall u :: u != t ==> Find(records', u) == Find(records, u)
  }

  lemma TotalsInsert(m: multiset<Job>, job: Job, records: map<nat, IntervalJob>)
    ensures TotalLeft(m + multiset{job}, records) == TotalLeft(m, records) + RunsLeft(job, records)
    ensures TotalAfter(m + multiset{job}, records) == TotalAfter(m, records) + RunsAfter(job, records)
  {
    SumInsert(m, job, j => RunsLeft(j, records));
    SumInsert(m, job, j => RunsAfter(j, records));
  }

  lemma TotalsUntouched(m: multiset<Job>, records: map<nat, IntervalJob>, records': map<nat, IntervalJob>, t: nat)
    requires SameBut(records, records', t) && forall j :: j in m ==> j.ticket != t
    ensures TotalLeft(m, records) == TotalLeft(m, records')
    ensures TotalAfter(m, records) == TotalAfter(m, records')
    ensures forall j :: j in m ==> RunsLeft(j, records) == RunsLeft(j, records')
  {
    forall j | j in m ensures RunsLeft(j, records) == RunsLeft(j, records') {
      assert Find(records', j.ticket) == Find(records, j.ticket);
    }
    SumAgree(m, j => RunsLeft(j, records), j => RunsLeft(j, records'));
    SumAgree(m, j => RunsAfter(j, records), j => RunsAfter(j, records'));
  }

  /** A start is one of those to come. */
  lemma BeginCounts(st: State, books: map<nat, Job>, sleepOk: bool, delay: nat)
    requires Ledger(st, books) && Finite(st) && CanBegin(st, sleepOk)
    ensures var st' := BeginJob(st, sleepOk, delay); ToCome(st) == ToCome(st') + 1 && Finite(st')
  {
    hide Push, Pop, BeginJob, Owned, Lists, TotalLeft, TotalAfter;
    var job, st' := st.queue[0], BeginJob(st, sleepOk, delay);
    SafeBegin(st, books, sleepOk, delay);
    PopHolds(st);
    StackPush(st.running, Running(job, st'.clock));
    TotalsInsert(multiset(Pop(JobCmp, st.queue)), job, st.records);
    TotalsInsert(Stacked(st.running), job, st.records);
    assert multiset(st.queue) == multiset(Pop(JobCmp, st.queue)) + multiset{job};
    assert Held(st') == Held(st);
  }

  /** `job` comes off the stack, and the records of the other jobs stay as they are. */
  ghost predicate OffStack(st: State, st': State, job: Job) {
    && st.running != [] && st'.running == Popped(st).running && Innermost(st).job == job
    && SameBut(st.records, st'.records, job.ticket)
    && forall j :: j in multiset(st.queue) + Stacked(Popped(st).running) ==> j.ticket != job.ticket
  }

  lemma OffStackTotals(st: State, st': State, job: Job)
    requires OffStack(st, st', job) && Finite(st)
    ensures var stacked := Stacked(st'.running);
      && ToCome(st) == TotalLeft(multiset(st.queue), st'.records) + TotalAfter(stacked, st'.records)
                       + RunsAfter(job, st.records)
      && forall j :: j in multiset(st.queue) + stacked ==> RunsLeft(j, st'.records) > 0
  {
    hide RunsLeft, RunsAfter, TotalLeft, TotalAfter, SameBut;
    var queued, stacked := multiset(st.queue), Stacked(st'.running);
    TotalsUntouched(queued, st.records, st'.records, job.ticket);
    TotalsUntouched(stacked, st.records, st'.records, job.ticket);
    TotalsInsert(stacked, job, st.records);
    assert Stacked(st.running) == stacked + multiset{job};
  }

  lemma FinishOffStack(st: State, books: map<nat, Job>, took: nat)
    requires Ledger(st, books) && st.running != []
    ensures var job, st' := Innermost(st).job, FinishJob(st, took);
      && OffStack(st, st', job) && job in Held(st)
      && if Retires(st, job) then st'.queue == st.queue
         else
           && job.ticket in st'.records && st'.records[job.ticket].ntimes == CountRun(st.records[job.ticket]).ntimes
           && st'.queue == Push(JobCmp, st.queue, BackJob(st.clock, job.ticket, CountRun(st.records[job.ticket])))
  {
    hide Push, Pop, FinishJob, Ledger, Matches, Stacked, BackJob, CountRun;
    var job := Innermost(st).job;
    FinishMeaning(st, books, took);
    assert job in Held(st);
    OthersDiffer(st, books, Held(Popped(st)), job);
  }

  /** A return changes nothing about what is to come: a job that leaves has no more to run, and one
      that is put back has the same. */
  lemma FinishCounts(st: State, books: map<nat, Job>, purged: bool, took: nat)
    requires Ledger(st, books) && AllOk(st, books, purged) && Finite(st)
    ensures var st' := FinishJob(st, took); ToCome(st) == ToCome(st') && Finite(st')
  {
    if st.running == [] {
      FinishIdle(st, took);
    } else {
      var job, st' := Innermost(st).job, FinishJob(st, took);
      FinishOffStack(st, books, took);
      hide FinishJob, Ledger, AllOk, ToCome, Finite;
      OffStackTotals(st, st', job);
      AccountedEntry(st, books, purged, job);
      if Retires(st, job) {
        RetireCounts(st, st', job);
      } else {
        BackCounts(st, st', job);
      }
    }
  }

  lemma RetireCounts(st: State, st': State, job: Job)
    requires OffStack(st, st', job) && st'.queue == st.queue && Finite(st)
    requires RunsAfter(job, st.records) == 0
    ensures ToCome(st) == ToCome(st') && Finite(st')
  {
    hide RunsLeft, RunsAfter, TotalLeft, TotalAfter, SameBut;
    OffStackTotals(st, st', job);
  }

  lemma BackCounts(st: State, st': State, job: Job)
    requires OffStack(st, st', job) && Finite(st) && job.kind.Interval?
    requires job.ticket in st.records && job.ticket in st'.records && RunsLeft(job, st.records) > 1
    requires st'.records[job.ticket].ntimes == CountRun(st.records[job.ticket]).ntimes
    requires st'.queue == Push(JobCmp, st.queue, BackJob(st.clock, job.ticket, CountRun(st.records[job.ticket])))
    ensures ToCome(st) == ToCome(st') && Finite(st')
  {
    var back := BackJob(st.clock, job.ticket, CountRun(st.records[job.ticket]));
    BackRunsLeft(st, st', back, job);
    OffStackTotals(st, st', job);
    PushHolds(st, back);
    hide RunsLeft, RunsAfter, TotalLeft, TotalAfter, SameBut, Push, BackJob, CountRun, Stacked;
    TotalsInsert(multiset(st.queue), back, st'.records);
    assert multiset(st'.queue) == multiset(st.queue) + multiset{back};
  }

  /** A job that is put back has the invocations left that it had after the one that ended. */
  lemma BackRunsLeft(st: State, st': State, back: Job, job: Job)
    requires job.kind.Interval? && back.kind.Interval? && back.ticket == job.ticket
    requires job.ticket in st.records && job.ticket in st'.records
    requires RunsLeft(job, st.records) > 1
    requires st'.records[job.ticket].ntimes == CountRun(st.records[job.ticket]).ntimes
    ensures RunsLeft(back, st'.records) == RunsAfter(job, st.records) > 0
  {
  }

  /** What `stop` does to the first job, in terms of all held jobs and their records. */
  lemma StopOneMeaning(st: State, books: map<nat, Job>)
    requires Ledger(st, books) && st.queue != []
    ensures var job, st' := st.queue[0], StopOne(st);
      && multiset(st.queue) == multiset(st'.queue) + multiset{job} && st'.running == st.running
      && SameBut(st.records, st'.records, job.ticket)
      && forall j :: j in Held(st') ==> j.ticket != job.ticket
  {
    hide Push, Pop, Ledger, StopOne, Stacked;
    var books' := SafeStopOne(st, books);
    PopHolds(st);
    OthersDiffer(st, books, Held(StopOne(st)), st.queue[0]);
  }

  /** What a purged job had left will not start any more. */
  lemma StopOneCounts(st: State, books: map<nat, Job>)
    requires Ledger(st, books) && Finite(st) && st.queue != []
    ensures var st' := StopOne(st); ToCome(st) >= ToCome(st') && Finite(st')
  {
    hide Ledger, StopOne, RunsLeft, RunsAfter, TotalLeft, TotalAfter, Stacked, SameBut;
    var job, st' := st.queue[0], StopOne(st);
    StopOneMeaning(st, books);
    TotalsUntouched(multiset(st'.queue), st.records, st'.records, job.ticket);
    TotalsUntouched(Stacked(st.running), st.records, st'.records, job.ticket);
    TotalsInsert(multiset(st'.queue), job, st.records);
    assert Held(st) == Held(st') + multiset{job};
  }

  lemma {:induction false} StopCounts(st: State, books: map<nat, Job>)
    requires Ledger(st, books) && Finite(st)
    ensures var st' := StopAll(st); ToCome(st) >= ToCome(st') && Finite(st')
    decreases |st.queue|
  {
    hide Pop, Ledger, StopOne, ToCome, Finite;
    if st.queue != [] {
      StopOneCounts(st, books);
      var books1 := SafeStopOne(st, books);
      StopCounts(StopOne(st), books1);
    }
  }

  /** Starts made and starts to come: as long as nothing is added their sum does not grow, and only
      `stop` makes it smaller. */
  lemma StepCounts(st: State, books: map<nat, Job>, purged: bool, step: Step)
    requires Ledger(st, books) && AllOk(st, books, purged) && Finite(st)
    requires step.Do? ==> AddsNothing(step.request)
    ensures var st' := Next(st, step);
      && Finite(st')
      && RunCount.Starts(st'.log) + ToCome(st') <= RunCount.Starts(st.log) + ToCome(st)
      && (step != Do(Stop) ==> RunCount.Starts(st'.log) + ToCome(st') == RunCount.Starts(st.log) + ToCome(st))
  {
    hide Ledger, AllOk, BeginJob, FinishJob, StopAll, Finite, ToCome;
    StepGrows(st, step);
    match step
    case Do(request) =>
      if request.Stop? {
        StopCounts(st, books);
      } else {
        ElapseCounts(st, request.ms);
      }
    case Begin(sleepOk, delay) =>
      SafeBegin(st, books, sleepOk, delay);
      if CanBegin(st, sleepOk) {
        BeginCounts(st, books, sleepOk, delay);
      }
    case Finish(took) => FinishCounts(st, books, purged, took);
  }

  lemma ElapseCounts(st: State, ms: nat)
    ensures var st' := Serve(st, Elapse(ms)); ToCome(st') == ToCome(st) && (Finite(st) ==> Finite(st'))
  {
  }

  /** Conservation of starts over any run that adds nothing, in any nesting. */
  lemma {:induction false} RunCounts(st: State, books: map<nat, Job>, purged: bool, steps: seq<Step>)
      returns (books': map<nat, Job>)
    requires Ledger(st, books) && AllOk(st, books, purged) && Finite(st)
    requires StepsOnly(steps, AddsNothing)
    ensures var st' := Exec(st, steps);
      && Ledger(st', books') && AllOk(st', books', purged || Purges(steps)) && Finite(st')
      && RunCount.Starts(st'.log) + ToCome(st') <= RunCount.Starts(st.log) + ToCome(st)
      && (!Purges(steps) ==>
            RunCount.Starts(st'.log) + ToCome(st') == RunCount.Starts(st.log) + ToCome(st))
    decreases |steps|
  {
    hide Ledger, AllOk, Finite, ToCome, Next, AddsNothing;
    books' := books;
    if steps != [] {
      var st1 := Next(st, steps[0]);
      StepCounts(st, books, purged, steps[0]);
      books' := AllOkStep(st, books, purged, steps[0]);
      books' := RunCounts(st1, books', purged || steps[0] == Do(Stop), steps[1..]);
      assert Purges(steps) <==> steps[0] == Do(Stop) || Purges(steps[1..]);
    }
  }

  // ---------- lothar_scheduler_run ----------

  /** With successful sleeps the loop goes on until the queue is empty, and every round of it starts
      a job. */
  lemma {:induction false} EveryRoundStarts(st: State, rounds: seq<Round>)
    requires st.running == [] && forall i :: 0 <= i < |rounds| ==> rounds[i].sleepOk
    ensures var r := RunAll(st, rounds);
      && r.status == 0 && r.state.running == []
      && (r.state.queue == [] || r.rounds == |rounds|)
      && var n := RunCount.Starts(r.state.log) - RunCount.Starts(st.log);
         n >= r.rounds && ((forall i :: 0 <= i < |rounds| ==> Flat(rounds[i])) ==> n == r.rounds)
    decreases |rounds|
  {
    hide PerformRound, Flat;
    if st.queue != [] && rounds != [] {
      RoundStarts(st, rounds[0]);
      StackKeptByRound(st, rounds[0]);
      assert forall i :: 0 <= i < |rounds| - 1 ==> rounds[1..][i] == rounds[i + 1];
      EveryRoundStarts(PerformRound(st, rounds[0]), rounds[1..]);
    }
  }

  lemma NothingToCome(st: State)
    requires st.running == []
    ensures ToCome(st) == Remaining(st) && (st.queue == [] ==> Remaining(st) == 0)
  {
  }

  lemma SomethingToCome(st: State)
    requires Finite(st) && st.queue != []
    ensures Remaining(st) > 0
  {
    assert st.queue[0] in multiset(st.queue);
    var j := Pick(multiset(st.queue));
    assert j in Held(st);
  }

  ghost predicate RoundsOnly(rounds: seq<Round>, kind: Request -> bool) {
    forall i :: 0 <= i < |rounds| ==> RoundOnly(rounds[i], kind)
  }

  /** From any reachable state with no job running in which every queued job ends: if the sleeps of
      the loop succeed and callbacks add nothing, whatever else they do (take time, run further
      jobs, stop the scheduler), `lothar_scheduler_run` ends with an empty queue after at most as many
      rounds as there are invocations left.  If callbacks do not stop the scheduler either, exactly
      the invocations left are made, one in each round unless callbacks run jobs themselves.
      Everything is then cleaned up once, and if `stop` was never called every job ever added has
      run exactly as often as asked. */
  lemma RunTerminates(steps: seq<Step>, rounds: seq<Round>)
    requires var st := Exec(INIT, steps);
      st.running == [] && Finite(st) && |rounds| >= Remaining(st)
    requires forall i :: 0 <= i < |rounds| ==> rounds[i].sleepOk
    requires RoundsOnly(rounds, AddsNothing)
    ensures var st := Exec(INIT, steps);
      var r := RunAll(st, rounds);
      var made := RunCount.Starts(r.state.log) - RunCount.Starts(st.log);
      && r.status == 0 && r.state.queue == [] && r.state.running == []
      && r.rounds <= made <= Remaining(st)
      && (RoundsOnly(rounds, StopsNothing) ==> made == Remaining(st))
      && ((forall i :: 0 <= i < |rounds| ==> Flat(rounds[i])) ==> r.rounds == made)
      && (forall t: nat :: t < |r.state.tasks| ==>
            Cleanups(r.state.log, t) == if r.state.tasks[t].hasCleanup then 1 else 0)
      && (RoundsOnly(rounds, StopsNothing) && !Purges(steps) ==> forall t: nat :: t < |r.state.tasks| ==>
            RunCount.Starts(History(r.state.log, t)) == r.state.tasks[t].times)
  {
    hide Ledger, AllOk, Finite, RoundOnly;
    var books := AtEnd(steps);
    var st, more := Exec(INIT, steps), StepsOfRun(Exec(INIT, steps), rounds);
    var end := RunAll(st, rounds).state;
    RunAllIsRun(st, rounds);
    RunStepsOnly(st, rounds, AddsNothing);
    var books' := RunCounts(st, books, Purges(steps), more);
    EveryRoundStarts(st, rounds);
    NothingToCome(st);
    NothingToCome(end);
    if end.queue != [] {
      SomethingToCome(end);
      assert false;
    }
    if RoundsOnly(rounds, StopsNothing) {
      RunStepsOnly(st, rounds, StopsNothing);
      NoStopNoPurge(more);
    }
    AllRetired(end, books', Purges(steps) || Purges(more));
  }

  lemma NoStopNoPurge(steps: seq<Step>)
    requires StepsOnly(steps, StopsNothing)
    ensures !Purges(steps)
  {
  }

  lemma AllRetired(st: State, books: map<nat, Job>, purged: bool)
    requires Ledger(st, books) && AllOk(st, books, purged) && st.queue == [] && st.running == []
    ensures forall t: nat :: t < |st.tasks| ==>
      && (!purged ==> RunCount.Starts(History(st.log, t)) == st.tasks[t].times)
      && Cleanups(st.log, t) == if st.tasks[t].hasCleanup then 1 else 0
  {
    hide Timing.Timely, Averages.Averaging;
    assert Held(st) == multiset{};
    assert books.Values == {};
    assert books.Keys == {};
    forall t: nat | t < |st.tasks|
      ensures !purged ==> RunCount.Starts(History(st.log, t)) == st.tasks[t].times
    {
      assert TicketOk(st.tasks[t], ViewOf(st, books, t), st.clock, purged);
    }
  }
}
