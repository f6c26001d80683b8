/** Bounded waiting: among equally nice jobs no one starves. */
module Starvation {
  import opened HeapOrder
  import opened JobOrder
  import opened MultisetSum
  import opened SchedulerModel
  import opened Scripts
  import opened Ownership
  import opened Tickets
  import opened Lifetimes
  import opened Termination
  import RunCount

  // ---------- Equally nice jobs keep the heap in order ----------

  ghost predicate AllNice(q: seq<Job>, nice: nat) {
    forall j :: j in q ==> j.nice == nice
  }

  lemma PushEven(q: seq<Job>, job: Job, nice: nat)
    requires HeapOrdered(JobCmp, q) && AllNice(q, nice) && job.nice == nice
    ensures HeapOrdered(JobCmp, Push(JobCmp, q, job)) && AllNice(Push(JobCmp, q, job), nice)
  {
    hide Push, HeapOrdered;
    JobCmpPreorderWhen(Items(q) + {job});
    PushKeepsOrder(JobCmp, q, job);
    forall j | j in Push(JobCmp, q, job) ensures j.nice == nice {
      assert j in multiset(Push(JobCmp, q, job));
    }
  }

  lemma PopEven(q: seq<Job>, nice: nat)
    requires q != [] && HeapOrdered(JobCmp, q) && AllNice(q, nice)
    ensures HeapOrdered(JobCmp, Pop(JobCmp, q)) && AllNice(Pop(JobCmp, q), nice)
    ensures forall j :: j in q ==> q[0].arrival <= j.arrival
  {
    hide Pop, HeapOrdered;
    JobCmpPreorderWhen(Items(q));
    PopKeepsOrder(JobCmp, q);
    forall j | j in Pop(JobCmp, q) ensures j.nice == nice {
      assert j in Items(Pop(JobCmp, q));
    }
    forall j | j in q ensures q[0].arrival <= j.arrival {
      JobCmpMeaning(j, q[0]);
    }
  }

  ghost predicate Even(st: State, nice: nat) {
    && HeapOrdered(JobCmp, st.queue) && AllNice(st.queue, nice)
    && forall j :: j in Stacked(st.running) ==> j.nice == nice
  }

  /** Every add call of the run passes the same nice value. */
  ghost predicate SameNice(steps: seq<Step>, nice: nat) {
    forall i :: 0 <= i < |steps| && steps[i].Do? ==> RequestNice(steps[i].request, nice)
  }

  ghost predicate RequestNice(request: Request, nice: nat) {
    (request.Add? || request.AddInterval?) ==> request.nice == nice
  }

  lemma {:induction false} EvenStop(st: State, books: map<nat, Job>, nice: nat)
    requires Ledger(st, books) && Even(st, nice)
    ensures Even(StopAll(st), nice)
    decreases |st.queue|
  {
    hide Ledger, Pop, Push, HeapOrdered, AllNice, StopOne, Stacked;
    if st.queue != [] {
      PopEven(st.queue, nice);
      var books' := SafeStopOne(st, books);
      EvenStop(StopOne(st), books', nice);
    }
  }

  lemma EvenFinish(st: State, books: map<nat, Job>, nice: nat, took: nat)
    requires Ledger(st, books) && Even(st, nice)
    ensures Even(FinishJob(st, took), nice)
  {
    hide Owned, Lists, Push, FinishJob, Retires;
    if st.running == [] {
      FinishIdle(st, took);
    } else {
      FinishMeaning(st, books, took);
      var job := Innermost(st).job;
      assert job in Stacked(st.running);
      if !Retires(st, job) {
        var record := BackRecord(st, job);
        PushEven(st.queue, BackJob(st.clock, job.ticket, record), nice);
      }
    }
  }

  lemma EvenStep(st: State, books: map<nat, Job>, nice: nat, step: Step)
    requires Ledger(st, books) && Even(st, nice)
    requires step.Do? ==> RequestNice(step.request, nice)
    ensures Even(Next(st, step), nice)
  {
    hide Ledger, Push, Pop, FinishJob, StopAll, HeapOrdered, AllNice, BeginJob, Stacked;
    match step
    case Do(request) =>
      if request.Stop? {
        EvenStop(st, books, nice);
      } else if !request.Elapse? {
        PushEven(st.queue, NewJob(st, request), nice);
      }
    case Begin(sleepOk, delay) =>
      SafeBegin(st, books, sleepOk, delay);
      if CanBegin(st, sleepOk) {
        var job, st' := st.queue[0], BeginJob(st, sleepOk, delay);
        PopEven(st.queue, nice);
        assert job.nice == nice by { FirstNice(st.queue, nice); }
        StackPush(st.running, Running(job, st'.clock));
      }
    case Finish(took) => EvenFinish(st, books, nice, took);
  }

  lemma FirstNice(q: seq<Job>, nice: nat)
    requires q != [] && AllNice(q, nice)
    ensures q[0].nice == nice
  {
  }

  lemma {:induction false} EvenRun(st: State, books: map<nat, Job>, nice: nat, steps: seq<Step>)
    requires Ledger(st, books) && Even(st, nice) && SameNice(steps, nice)
    ensures Even(Exec(st, steps), nice)
    decreases |steps|
  {
    hide Ledger, Even, Next, RequestNice;
    if steps != [] {
      EvenStep(st, books, nice, steps[0]);
      var books' := SafeStep(st, books, steps[0]);
      assert forall i :: 0 <= i < |steps[1..]| ==> steps[1..][i] == steps[i + 1];
      EvenRun(Next(st, steps[0]), books', nice, steps[1..]);
    }
  }

  // ---------- The measure ----------

  /** How far job `k` lies ahead of another job `j`: 0 if it is due later. */
  ghost function Ahead(j: Job, k: Job): nat {
    if k != j && k.arrival <= j.arrival then j.arrival + 1 - k.arrival else 0
  }

  /** What is left of that once `k` has been started. */
  ghost function AheadAfter(j: Job, k: Job): nat {
    if Ahead(j, k) > 0 then Ahead(j, k) - 1 else 0
  }

  ghost function TotalAhead(jobs: multiset<Job>, j: Job): nat {
    Sum(jobs, k => Ahead(j, k))
  }

  ghost function TotalAheadAfter(jobs: multiset<Job>, j: Job): nat {
    Sum(jobs, k => AheadAfter(j, k))
  }

  lemma AheadInsert(m: multiset<Job>, job: Job, j: Job)
    ensures TotalAhead(m + multiset{job}, j) == TotalAhead(m, j) + Ahead(j, job)
    ensures TotalAheadAfter(m + multiset{job}, j) == TotalAheadAfter(m, j) + AheadAfter(j, job)
  {
    SumInsert(m, job, k => Ahead(j, k));
    SumInsert(m, job, k => AheadAfter(j, k));
  }

  /** How far all queued jobs together lie ahead of `j`. */
  ghost function Lead(st: State, j: Job): nat {
    TotalAhead(multiset(st.queue), j)
  }

  /** The starts of other jobs that `j` may have to wait for. */
  ghost function Debt(st: State, j: Job): nat {
    Lead(st, j) + TotalAheadAfter(Stacked(st.running), j)
  }

  /** Every recurring job has an interval of at least 1. */
  ghost predicate Paced(st: State) {
    forall t :: t in st.records ==> st.records[t].interval >= 1
  }

  /** No job runs before its time. */
  ghost predicate Due(st: State) {
    forall k :: k in Stacked(st.running) ==> k.arrival <= st.clock
  }

  /** Job `j` waits among equally nice ones. */
  ghost predicate Waiting(st: State, j: Job, nice: nat) {
    Even(st, nice) && Paced(st) && Due(st) && j in st.queue
  }

  /** The step adds only jobs that are as nice, due after `j` and not recurring with interval 0, and
      it does not stop the scheduler. */
  ghost predicate Yields(st: State, step: Step, j: Job, nice: nat) {
    step.Do? ==>
      match step.request
      case Elapse(_) => true
      case Add(_, _, fromNow, _, n) => n == nice && st.clock + fromNow > j.arrival
      case AddInterval(_, _, fromNow, _, n, interval, _) =>
        n == nice && st.clock + fromNow > j.arrival && interval >= 1
      case Stop => false
  }

  ghost predicate AllYield(st: State, steps: seq<Step>, j: Job, nice: nat)
    decreases |steps|
  {
    steps == [] || (Yields(st, steps[0], j, nice) && AllYield(Next(st, steps[0]), steps[1..], j, nice))
  }

  /** Steps that neither add nor stop, in particular, yield. */
  lemma {:induction false} QuietStepsYield(st: State, steps: seq<Step>, j: Job, nice: nat)
    requires StepsOnly(steps, AddsNothing) && StepsOnly(steps, StopsNothing)
    ensures AllYield(st, steps, j, nice)
    decreases |steps|
  {
    hide Next;
    if steps != [] {
      assert forall i :: 0 <= i < |steps[1..]| ==> steps[1..][i] == steps[i + 1];
      QuietStepsYield(Next(st, steps[0]), steps[1..], j, nice);
    }
  }

  // ---------- Steps while `j` waits ----------

  /** What a step does to one who waits: starts made and starts to wait for do not grow in sum. */
  ghost predicate StillWaits(st: State, st': State, j: Job, nice: nat) {
    && Waiting(st', j, nice)
    && RunCount.Starts(st'.log) + Debt(st', j) <= RunCount.Starts(st.log) + Debt(st, j)
  }

  /** The log beyond its first `n` events contains the start of `j`. */
  ghost predicate StartedSince(n: nat, log: seq<Event>, j: Job) {
    exists i :: n <= i < |log| && IsStartOf(log[i], j)
  }

  ghost predicate IsStartOf(e: Event, j: Job) {
    e.Started? && e.ticket == j.ticket && e.arrival == j.arrival
  }

  lemma DueStep(st: State, books: map<nat, Job>, step: Step)
    requires Ledger(st, books) && Due(st)
    ensures Due(Next(st, step))
  {
    hide Ledger, BeginJob, FinishJob, StopAll, Push, Pop, Stacked;
    TasksKept(st, books, step);
    match step
    case Do(request) =>
      if request.Stop? {
        StackKeptByStop(st);
      }
    case Begin(sleepOk, delay) =>
      SafeBegin(st, books, sleepOk, delay);
      if CanBegin(st, sleepOk) {
        StackPush(st.running, Running(st.queue[0], BeginJob(st, sleepOk, delay).clock));
      }
    case Finish(took) => DueFinish(st, took);
  }

  lemma DueFinish(st: State, took: nat)
    requires Due(st) && st.clock <= FinishJob(st, took).clock
    ensures Due(FinishJob(st, took))
  {
    hide FinishJob;
    if st.running != [] {
      StackKeptByFinish(st, took);
    } else {
      FinishIdle(st, took);
    }
  }

  lemma ElapseWaits(st: State, nice: nat, ms: nat, j: Job)
    requires Waiting(st, j, nice)
    ensures StillWaits(st, Serve(st, Elapse(ms)), j, nice)
  {
  }

  lemma AddWaits(st: State, books: map<nat, Job>, nice: nat, request: Request, j: Job)
    requires Ledger(st, books) && Waiting(st, j, nice) && (request.Add? || request.AddInterval?)
    requires Yields(st, Do(request), j, nice)
    ensures StillWaits(st, Serve(st, request), j, nice)
  {
    hide Push, Ledger, Even, Stacked, TotalAhead, TotalAheadAfter;
    EvenStep(st, books, nice, Do(request));
    var st', job := Serve(st, request), NewJob(st, request);
    assert multiset(st'.queue) == multiset(st.queue) + multiset{job};
    assert j in multiset(st.queue) && j in multiset(st'.queue);
    AheadInsert(multiset(st.queue), job, j);
  }

  /** The job that is started lies ahead of one that goes on waiting. */
  lemma FirstIsAhead(st: State, nice: nat, j: Job)
    requires Even(st, nice) && j in st.queue && st.queue[0] != j
    ensures j in Pop(JobCmp, st.queue) && Ahead(j, st.queue[0]) > 0
  {
    hide Pop, JobCmp, HeapOrdered, AllNice;
    PopEven(st.queue, nice);
    assert j in multiset(st.queue);
    assert multiset(st.queue) == multiset(Pop(JobCmp, st.queue)) + multiset{st.queue[0]};
    assert j in multiset(Pop(JobCmp, st.queue));
  }

  lemma DebtAfterBegin(st: State, books: map<nat, Job>, sleepOk: bool, delay: nat, j: Job)
    requires Ledger(st, books) && CanBegin(st, sleepOk) && Ahead(j, st.queue[0]) > 0
    ensures Debt(BeginJob(st, sleepOk, delay), j) == Debt(st, j) - 1
  {
    hide Pop, Ledger, BeginJob, Stacked, TotalAhead, TotalAheadAfter, JobCmp, Ahead;
    SafeBegin(st, books, sleepOk, delay);
    var job, rest := st.queue[0], multiset(Pop(JobCmp, st.queue));
    StackPush(st.running, Running(job, BeginJob(st, sleepOk, delay).clock));
    assert multiset(st.queue) == rest + multiset{job};
    AheadInsert(rest, job, j);
    AheadInsert(Stacked(st.running), job, j);
  }

  lemma BeginWaits(st: State, books: map<nat, Job>, nice: nat, sleepOk: bool, delay: nat, j: Job)
    requires Ledger(st, books) && Waiting(st, j, nice) && CanBegin(st, sleepOk) && st.queue[0] != j
    ensures StillWaits(st, BeginJob(st, sleepOk, delay), j, nice)
  {
    hide Pop, Ledger, BeginJob, Debt, JobCmp, Ahead, Even, Due;
    BeginGrows(st, sleepOk, delay);
    EvenStep(st, books, nice, Begin(sleepOk, delay));
    FirstIsAhead(st, nice, j);
    DebtAfterBegin(st, books, sleepOk, delay, j);
    DueStep(st, books, Begin(sleepOk, delay));
    SafeBegin(st, books, sleepOk, delay);
  }

  lemma BeginStarts(st: State, books: map<nat, Job>, sleepOk: bool, delay: nat)
    requires Ledger(st, books) && CanBegin(st, sleepOk)
    ensures StartedSince(|st.log|, BeginJob(st, sleepOk, delay).log, st.queue[0])
  {
    hide Ledger, BeginJob, Pop;
    SafeBegin(st, books, sleepOk, delay);
    assert IsStartOf(BeginJob(st, sleepOk, delay).log[|st.log|], st.queue[0]);
  }

  lemma FinishWaits(st: State, books: map<nat, Job>, nice: nat, took: nat, j: Job)
    requires Ledger(st, books) && Waiting(st, j, nice)
    ensures StillWaits(st, FinishJob(st, took), j, nice)
  {
    hide Push, Pop, Ledger, FinishJob, Even, Due, TotalAhead, TotalAheadAfter, Ahead, AheadAfter, Stacked;
    DueStep(st, books, Finish(took));
    EvenStep(st, books, nice, Finish(took));
    if st.running == [] {
      FinishIdle(st, took);
    } else {
      var job := Innermost(st).job;
      FinishGrows(st, took);
      FinishMeaning(st, books, took);
      AheadInsert(Stacked(Popped(st).running), job, j);
      assert Stacked(st.running) == Stacked(Popped(st).running) + multiset{job} by { StackPop(st); }
      if !Retires(st, job) {
        BackWaits(st, job, BackJob(st.clock, job.ticket, CountRun(st.records[job.ticket])), j);
      }
    }
  }

  lemma StackPop(st: State)
    requires st.running != []
    ensures Stacked(st.running) == Stacked(Popped(st).running) + multiset{Innermost(st).job}
  {
  }

  /** A job that goes back is due later than it was, so it makes `j` wait less by one start at least. */
  lemma BackWaits(st: State, job: Job, back: Job, j: Job)
    requires Due(st) && job in Stacked(st.running) && back.arrival > st.clock && j in st.queue
    ensures var q := multiset(Push(JobCmp, st.queue, back));
      j in q && TotalAhead(q, j) <= TotalAhead(multiset(st.queue), j) + AheadAfter(j, job)
  {
    hide Push, Stacked, TotalAhead;
    assert multiset(Push(JobCmp, st.queue, back)) == multiset(st.queue) + multiset{back};
    assert j in multiset(st.queue);
    AheadInsert(multiset(st.queue), back, j);
  }

  lemma WaitStep(st: State, books: map<nat, Job>, nice: nat, step: Step, j: Job)
    requires Ledger(st, books) && Waiting(st, j, nice) && Yields(st, step, j, nice)
    ensures var st' := Next(st, step);
      StartedSince(|st.log|, st'.log, j) || StillWaits(st, st', j, nice)
  {
    hide Ledger, Even, BeginJob, FinishJob, AddOneShot, AddRecurring, IsStartOf;
    match step
    case Do(request) =>
      if request.Elapse? {
        ElapseWaits(st, nice, request.ms, j);
      } else {
        AddWaits(st, books, nice, request, j);
      }
    case Begin(sleepOk, delay) =>
      if CanBegin(st, sleepOk) {
        BeginStarts(st, books, sleepOk, delay);
        if st.queue[0] != j {
          BeginWaits(st, books, nice, sleepOk, delay, j);
        }
      } else {
        SafeBegin(st, books, sleepOk, delay);
      }
    case Finish(took) => FinishWaits(st, books, nice, took, j);
  }

  /** Over any run in any nesting, either `j` is started or the starts made are among those it has
      to wait for. */
  lemma {:induction false} WaitRun(st: State, books: map<nat, Job>, nice: nat, steps: seq<Step>, j: Job)
    requires Ledger(st, books) && Waiting(st, j, nice) && AllYield(st, steps, j, nice)
    ensures var st' := Exec(st, steps);
      StartedSince(|st.log|, st'.log, j) || StillWaits(st, st', j, nice)
    decreases |steps|
  {
    hide Ledger, Waiting, Debt, Next, Yields, IsStartOf;
    if steps != [] {
      var st1 := Next(st, steps[0]);
      WaitStep(st, books, nice, steps[0], j);
      StepGrows(st, steps[0]);
      RunGrows(st1, steps[1..]);
      if !StartedSince(|st.log|, st1.log, j) {
        var books1 := SafeStep(st, books, steps[0]);
        WaitRun(st1, books1, nice, steps[1..], j);
      }
    }
  }

  lemma {:induction false} DueRun(st: State, books: map<nat, Job>, steps: seq<Step>)
    requires Ledger(st, books) && Due(st)
    ensures Due(Exec(st, steps))
    decreases |steps|
  {
    hide Ledger, Due, Next;
    if steps != [] {
      DueStep(st, books, steps[0]);
      var books1 := SafeStep(st, books, steps[0]);
      DueRun(Next(st, steps[0]), books1, steps[1..]);
    }
  }

  // ---------- Theorems ----------

  /** A reachable state in which `j` is queued, all jobs added so far are equally nice and those that
      recur have an interval of at least 1. */
  ghost predicate WaitsAfter(steps: seq<Step>, nice: nat, j: Job) {
    SameNice(steps, nice) && Paced(Exec(INIT, steps)) && j in Exec(INIT, steps).queue
  }

  lemma WaitsAfterIsWaiting(steps: seq<Step>, nice: nat, j: Job) returns (books: map<nat, Job>)
    requires WaitsAfter(steps, nice, j)
    ensures Ledger(Exec(INIT, steps), books) && Waiting(Exec(INIT, steps), j, nice)
  {
    hide Ledger, AllOk, Even, Due;
    books := AtEnd(steps);
    InitEven(nice);
    EvenRun(INIT, map[], nice, steps);
    DueRun(INIT, map[], steps);
  }

  /** No job starves among equally nice ones.  From any reachable state, in the middle of callbacks
      or not, and over any further run in which newcomers are due after `j` and as nice: if more
      than `Debt` jobs are started, `j` is one of them.  This holds although jobs keep putting
      themselves back with changing estimates. */
  lemma BoundedWaiting(steps: seq<Step>, nice: nat, more: seq<Step>, j: Job)
    requires WaitsAfter(steps, nice, j) && AllYield(Exec(INIT, steps), more, j, nice)
    ensures var st := Exec(INIT, steps);
      var st' := Exec(st, more);
      RunCount.Starts(st'.log) - RunCount.Starts(st.log) > Debt(st, j) ==> StartedSince(|st.log|, st'.log, j)
  {
    hide Waiting, Debt, AllYield, WaitsAfter, Ledger, StartedSince;
    var books := WaitsAfterIsWaiting(steps, nice, j);
    WaitRun(Exec(INIT, steps), books, nice, more, j);
  }

  /** For `lothar_scheduler_run`: called while `j` is queued and no job runs, it has started `j` by
      the end of `Lead + 1` rounds, if its sleeps succeed.  Callbacks may take time, run further
      jobs, and add jobs that are due after `j`. */
  lemma NoStarvation(steps: seq<Step>, nice: nat, rounds: seq<Round>, j: Job)
    requires var st := Exec(INIT, steps);
      && WaitsAfter(steps, nice, j) && st.running == []
      && |rounds| == Lead(st, j) + 1
      && AllYield(st, StepsOfRun(st, rounds), j, nice)
    requires forall i :: 0 <= i < |rounds| ==> rounds[i].sleepOk
    ensures var st := Exec(INIT, steps);
      var r := RunAll(st, rounds);
      r.status == 0 && StartedSince(|st.log|, r.state.log, j)
  {
    hide Waiting, Even, Paced, AllYield, Ledger, StartedSince, Ahead, AheadAfter, SameNice;
    var st := Exec(INIT, steps);
    var books := WaitsAfterIsWaiting(steps, nice, j);
    var more := StepsOfRun(st, rounds);
    RunAllIsRun(st, rounds);
    EveryRoundStarts(st, rounds);
    WaitRun(st, books, nice, more, j);
    DebtAtRest(st, j);
    if !StartedSince(|st.log|, RunAll(st, rounds).state.log, j) {
      StillQueued(RunAll(st, rounds).state, j, nice);
      assert false;
    }
  }

  lemma DebtAtRest(st: State, j: Job)
    requires st.running == []
    ensures Debt(st, j) == Lead(st, j)
  {
  }

  lemma StillQueued(st: State, j: Job, nice: nat)
    requires Waiting(st, j, nice)
    ensures st.queue != []
  {
  }

  /** In particular: callbacks that neither add jobs nor stop the scheduler, whatever else they do. */
  lemma NoStarvationWhenQuiet(steps: seq<Step>, nice: nat, rounds: seq<Round>, j: Job)
    requires var st := Exec(INIT, steps);
      WaitsAfter(steps, nice, j) && st.running == [] && |rounds| == Lead(st, j) + 1
    requires forall i :: 0 <= i < |rounds| ==> rounds[i].sleepOk
    requires RoundsOnly(rounds, AddsNothing) && RoundsOnly(rounds, StopsNothing)
    ensures var st := Exec(INIT, steps);
      var r := RunAll(st, rounds);
      r.status == 0 && StartedSince(|st.log|, r.state.log, j)
  {
    hide WaitsAfter, Lead, StartedSince, AllYield, RoundOnly;
    var st := Exec(INIT, steps);
    RunStepsOnly(st, rounds, AddsNothing);
    RunStepsOnly(st, rounds, StopsNothing);
    QuietStepsYield(st, StepsOfRun(st, rounds), j, nice);
    NoStarvation(steps, nice, rounds, j);
  }

  lemma InitEven(nice: nat)
    ensures Even(INIT, nice) && Ledger(INIT, map[]) && Due(INIT)
  {
  }

  // ---------- Why the interval must be at least 1 ----------

  const CLOGGER := Job(Interval, 0, 0, 0, 0, LASTTIME)
  const VICTIM := Job(OneShot(true, false), 1, 0, 1, 0, FIRSTTIME)

  lemma FirstWins<T>(cmp: (T, T) -> int, a: T, b: T)
    requires cmp(a, b) > 0 && cmp(b, a) < 0
    ensures Push(cmp, [], a) == [a] && Push(cmp, [a], b) == [a, b]
    ensures Pop(cmp, [a, b]) == [b] && Push(cmp, [b], a) == [a, b]
  {
    hide Push, Pop;
    PushFirst(cmp, a);
    PushSecond(cmp, a, b);
    PushSecond(cmp, b, a);
    PopOfTwo(cmp, a, b);
  }

  lemma CloggerOrder()
    ensures JobCmp(CLOGGER, VICTIM) > 0 && JobCmp(VICTIM, CLOGGER) < 0
  {
    hide JobCmp;
    JobCmpMeaning(CLOGGER, VICTIM);
    JobCmpMeaning(VICTIM, CLOGGER);
  }

  lemma CloggerWins()
    ensures Push(JobCmp, [], CLOGGER) == [CLOGGER] && Push(JobCmp, [CLOGGER], VICTIM) == [CLOGGER, VICTIM]
    ensures Pop(JobCmp, [CLOGGER, VICTIM]) == [VICTIM] && Push(JobCmp, [VICTIM], CLOGGER) == [CLOGGER, VICTIM]
  {
    CloggerOrder();
    hide JobCmp, Push, Pop;
    FirstWins(JobCmp, CLOGGER, VICTIM);
  }

  lemma PushSecond<T>(cmp: (T, T) -> int, a: T, b: T)
    ensures Push(cmp, [a], b) == if cmp(b, a) > 0 then [b, a] else [a, b]
  {
    var s := [a] + [b];
    assert s == [a, b];
    assert Swap(s, 1, 0) == [b, a];
  }

  lemma PopOfTwo<T>(cmp: (T, T) -> int, a: T, b: T)
    ensures Pop(cmp, [a, b]) == [b]
  {
    assert Detached([a, b]) == [b];
  }

  /** A job that recurs with interval 0 ahead of one that should run once at the same time,
      equally nice. */
  ghost predicate Clogged(st: State) {
    && st.clock == 0 && st.queue == [CLOGGER, VICTIM] && st.running == []
    && 0 in st.records && st.records[0] == IntervalJob(true, true, false, 0, 0, 0, 0, st.records[0].called)
  }

  ghost function CloggingSteps(): seq<Step> {
    [Do(AddInterval(true, false, 0, 0, 0, 0, 0)), Do(Add(true, false, 0, 1, 0))]
  }

  lemma CloggedStart()
    ensures Clogged(Exec(INIT, CloggingSteps())) && SameNice(CloggingSteps(), 0)
  {
    CloggerWins();
    hide Push, Pop;
    var s := CloggingSteps();
    assert s[1..] == [s[1]] && s[1..][1..] == [];
    var st1 := Next(INIT, s[0]);
    assert st1.queue == [CLOGGER];
    var st2 := Next(st1, s[1]);
    assert st2.queue == [CLOGGER, VICTIM];
    assert Exec(INIT, s) == Exec(st1, s[1..]) == Exec(st2, []);
  }

  const INSTANT := Round(true, 0, [], 0)

  lemma CloggedBegin(st: State)
    requires Clogged(st)
    ensures var st1 := BeginJob(st, true, 0);
            st1 == State(0, [VICTIM], [Running(CLOGGER, 0)], st.records, st.tasks, st1.log)
  {
    CloggerWins();
    hide Push, Pop, JobCmp;
  }

  lemma CloggedFinish(st: State)
    requires st.queue == [VICTIM] && st.running == [Running(CLOGGER, 0)]
    requires Clogged(st.(queue := [CLOGGER, VICTIM], running := []))
    ensures Clogged(FinishJob(st, 0))
  {
    hide Push, Pop, JobCmp, Measure, Requeue;
    assert st.running[..0] == [];
    var st1 := st.(running := []);
    assert st1.(records := st1.records[0 := st1.records[0]]) == st1;
    CloggedReturn(st1);
  }

  lemma CloggedReturn(st: State)
    requires st.queue == [VICTIM] && Clogged(st.(queue := [CLOGGER, VICTIM]))
    ensures Clogged(Measure(Requeue(st, 0), 0, 0, 0))
  {
    CloggerWins();
    hide Push, Pop, JobCmp;
  }

  lemma CloggedRound(st: State)
    requires Clogged(st)
    ensures Clogged(PerformRound(st, INSTANT))
  {
    hide BeginJob, FinishJob;
    CloggedBegin(st);
    CloggedFinish(BeginJob(st, true, 0));
  }

  /** The documentation's warning about interval 0 is justified: with it, though all nice values
      are equal, a job can be kept waiting for any number of rounds. */
  lemma {:induction false} ZeroIntervalStarves(n: nat)
    ensures var r := RunAll(Exec(INIT, CloggingSteps()), seq(n, _ => INSTANT));
            SameNice(CloggingSteps(), 0) && r.rounds == n && VICTIM in r.state.queue && r.state.clock == 0
  {
    CloggedStart();
    StaysClogged(Exec(INIT, CloggingSteps()), n);
  }

  lemma {:induction false} StaysClogged(st: State, n: nat)
    requires Clogged(st)
    ensures RunAll(st, seq(n, _ => INSTANT)).rounds == n && Clogged(RunAll(st, seq(n, _ => INSTANT)).state)
    decreases n
  {
    hide PerformRound;
    if n > 0 {
      CloggedRound(st);
      StaysClogged(PerformRound(st, INSTANT), n - 1);
      var rounds := seq(n, _ => INSTANT);
      assert rounds[0] == INSTANT && rounds[1..] == seq(n - 1, _ => INSTANT);
    }
  }
}
