/** The scheduler object of src/scheduler.c, changed in place.  Every method is tied to the
    function of `SchedulerModel` that says what it does to the state. */
module Schedulers {
  import opened HeapOrder
  import opened Heaps
  import opened JobOrder
  import opened Options
  import opened PriorityQueue
  import opened SchedulerModel
  import opened Ownership
  import opened Scripts
  import opened Requests
  import opened Rounds

  lemma SafeServe(st: State, request: Request)
    requires Safe(st)
    ensures Safe(Serve(st, request))
  {
    hide Ledger, Serve;
    var books :| Ledger(st, books);
    var books' := SafeStep(st, books, Do(request));
  }

  lemma SafeStopOnce(st: State)
    requires Safe(st) && st.queue != []
    ensures Safe(StopOne(st))
  {
    hide Ledger, StopOne;
    var books :| Ledger(st, books);
    var books' := SafeStopOne(st, books);
  }

  lemma SafeEnter(st: State, round: Round)
    requires Safe(st)
    ensures Safe(BeginJob(st, round.sleepOk, round.delay))
  {
    hide Ledger, BeginJob;
    var books :| Ledger(st, books);
    SafeBegin(st, books, round.sleepOk, round.delay);
  }

  lemma SafeLeave(st: State, took: nat)
    requires Safe(st)
    ensures Safe(FinishJob(st, took))
  {
    hide Ledger, FinishJob;
    var books :| Ledger(st, books);
    var books' := SafeFinish(st, books, took);
  }

  /** A sleep that fails loses nothing. */
  lemma FailedRound(st: State, round: Round)
    requires Status(st, round) < 0
    ensures PerformRound(st, round) == st
  {
  }

  /** The record of a held interval job is live. */
  lemma LiveRecord(st: State, job: Job)
    requires Safe(st) && job in Held(st) && job.kind.Interval?
    ensures job.ticket in st.records && job.tag == TagFor(st.records[job.ticket].ntimes)
  {
    hide Owned, Lists;
    var books :| Ledger(st, books);
    Entry(st, books, job);
  }

  lemma QueuedIsHeld(st: State, job: Job)
    requires Safe(st) && job in st.queue
    ensures job.kind.Interval? ==> job.ticket in st.records
  {
    hide Safe;
    assert job in multiset(st.queue);
    if job.kind.Interval? {
      LiveRecord(st, job);
    }
  }

  class Scheduler {
    const heap: Heap<Job>
    /** What `lothar_time` shows. */
    var clock: nat
    /** The live `interval_job_t`s, by ticket. */
    var records: map<nat, IntervalJob>
    /** The number of add calls so far. */
    var tickets: nat
    /** The jobs on the C stack. */
    ghost var running: seq<Running>
    ghost var tasks: seq<Task>
    ghost var log: seq<Event>

    ghost predicate Structured()
      reads this, heap, heap.vec
    {
      heap.Valid() && heap.cmp == JobCmp && tickets == |tasks|
    }

    ghost function State(): State
      requires Structured()
      reads this, heap, heap.vec, heap.vec.data
    {
      SchedulerModel.State(clock, heap.Contents(), running, records, tasks, log)
    }

    /** The object is well formed and its books are in order. */
    ghost predicate Valid()
      reads this, heap, heap.vec, heap.vec.data
    {
      Structured() && Safe(State())
    }

    constructor ()
      ensures Valid() && State() == INIT
      ensures fresh(heap) && fresh(heap.vec) && fresh(heap.vec.data)
    {
      var h := new Heap<Job>(JobCmp);
      heap := h;
      clock, records, tickets := 0, map[], 0;
      running, tasks, log := [], [], [];
      new;
      InitSafe();
    }

    predicate Done()
      requires Structured()
      reads this, heap, heap.vec, heap.vec.data
      ensures Done() <==> State().queue == []
    {
      heap.Empty()
    }

    /** The arrival time of the next job, or 0. */
    function Next(): (next: nat)
      requires Structured()
      reads this, heap, heap.vec, heap.vec.data
      ensures next == if State().queue == [] then 0 else State().queue[0].arrival
    {
      if heap.Empty() then 0 else heap.Peek().value.arrival
    }

    method SchedulerAdd(kind: Kind, ticket: nat, fromNow: nat, estimate: nat, nice: nat, tag: Tag)
        returns (status: int)
      requires Structured()
      modifies heap, heap.vec, heap.vec.data
      ensures Structured() && (heap.vec.data == old(heap.vec.data) || fresh(heap.vec.data))
      ensures status == 0
      ensures State() == SchedulerModel.SchedulerAdd(old(State()), kind, ticket, fromNow, estimate, nice, tag)
    {
      hide HeapOrder.Push, HeapOrder.UpHeap, JobCmp;
      ghost var before := State();
      heap.Push(Job(kind, ticket, clock + fromNow, estimate, nice, tag));
      status := 0;
    }

    method Add(hasFunction: bool, hasCleanup: bool, fromNow: nat, estimate: nat, nice: nat) returns (status: int)
      requires Valid()
      modifies this, heap, heap.vec, heap.vec.data
      ensures Valid() && (heap.vec.data == old(heap.vec.data) || fresh(heap.vec.data))
      ensures status == 0
      ensures State() == AddOneShot(old(State()), hasFunction, hasCleanup, fromNow, estimate, nice)
      ensures Enters(old(State()), State(), Request.Add(hasFunction, hasCleanup, fromNow, estimate, nice),
                     Job(OneShot(hasFunction, hasCleanup), old(tickets), clock + fromNow, estimate, nice, FIRSTTIME),
                     old(records))
    {
      hide HeapOrder.Push, Safe, Enters;
      ghost var before := State();
      SafeServe(before, Request.Add(hasFunction, hasCleanup, fromNow, estimate, nice));
      OneShotEnters(before, hasFunction, hasCleanup, fromNow, estimate, nice);
      var ticket, kind := tickets, OneShot(hasFunction, hasCleanup);
      tickets := tickets + 1;
      tasks := tasks + [Task(kind, hasFunction, hasCleanup, clock + fromNow, estimate, nice, 0, 1)];
      status := SchedulerAdd(kind, ticket, fromNow, estimate, nice, FIRSTTIME);
    }

    method AddInterval(hasFunction: bool, hasCleanup: bool, fromNow: nat, estimate: nat, nice: nat,
        interval: nat, ntimes: nat) returns (status: int)
      requires Valid()
      modifies this, heap, heap.vec, heap.vec.data
      ensures Valid() && (heap.vec.data == old(heap.vec.data) || fresh(heap.vec.data))
      ensures status == 0
      ensures State() == AddRecurring(old(State()), hasFunction, hasCleanup, fromNow, estimate, nice, interval, ntimes)
      ensures var record := IntervalJob(true, hasFunction, hasCleanup, interval, ntimes, nice, estimate, 1);
        Enters(old(State()), State(),
               Request.AddInterval(hasFunction, hasCleanup, fromNow, estimate, nice, interval, ntimes),
               Job(Interval, old(tickets), clock + fromNow, estimate, nice,
                   if ntimes == 1 then FIRSTTIME else LASTTIME),
               old(records)[old(tickets) := record])
    {
      hide HeapOrder.Push, Safe, Enters;
      ghost var before := State();
      SafeServe(before, Request.AddInterval(hasFunction, hasCleanup, fromNow, estimate, nice, interval, ntimes));
      var ticket := tickets;
      tickets := tickets + 1;
      tasks := tasks + [Task(Interval, hasFunction, hasCleanup, clock + fromNow, estimate, nice, interval, ntimes)];
      records := records[ticket := IntervalJob(true, hasFunction, hasCleanup, interval, ntimes, nice, estimate, 1)];
      status := SchedulerAdd(Interval, ticket, fromNow, estimate, nice, if ntimes == 1 then FIRSTTIME else LASTTIME);
      assert State() == AddRecurring(before, hasFunction, hasCleanup, fromNow, estimate, nice, interval, ntimes);
      RecurringEnters(before, hasFunction, hasCleanup, fromNow, estimate, nice, interval, ntimes);
    }

    /** `interval_cleanup`: the record must be live. */
    method IntervalCleanup(ticket: nat)
      requires Structured() && ticket in records
      modifies `records, `log
      ensures Structured() && State() == SchedulerModel.IntervalCleanup(old(State()), ticket)
    {
      if records[ticket].hasCleanup {
        log := log + [Cleaned(ticket)];
      }
      records := records - {ticket};
    }

    /** `job->cleanup(job->private_data)`. */
    method CleanupJob(job: Job)
      requires Structured() && (job.kind.Interval? ==> job.ticket in records)
      modifies `records, `log
      ensures Structured() && State() == Cleanup(old(State()), job)
    {
      match job.kind
      case OneShot(_, hasCleanup) =>
        if hasCleanup {
          log := log + [Cleaned(job.ticket)];
        }
      case Interval => IntervalCleanup(job.ticket);
    }

    /** `heap_pop` on a queue that is not empty. */
    method TakeFirst() returns (job: Job)
      requires Structured() && State().queue != []
      modifies heap, heap.vec, heap.vec.data
      ensures Structured() && (heap.vec.data == old(heap.vec.data) || fresh(heap.vec.data))
      ensures job == old(State()).queue[0]
      ensures State() == old(State()).(queue := HeapOrder.Pop(JobCmp, old(State()).queue))
    {
      hide HeapOrder.Pop;
      var popped := heap.Pop();
      job := popped.value;
    }

    method Stop() returns (status: int)
      requires Valid()
      modifies this, heap, heap.vec, heap.vec.data
      ensures Valid() && (heap.vec.data == old(heap.vec.data) || fresh(heap.vec.data))
      ensures status == 0
      ensures State() == StopAll(old(State()))
    {
      hide HeapOrder.Pop, Safe;
      while !Done()
        invariant Valid() && (heap.vec.data == old(heap.vec.data) || fresh(heap.vec.data))
        invariant StopAll(State()) == StopAll(old(State()))
        decreases |heap.Contents()|
      {
        ghost var before := State();
        SafeStopOnce(before);
        var job := TakeFirst();
        QueuedIsHeld(before, job);
        if job.tag != NEVER {
          CleanupJob(job);
        }
        assert State() == StopOne(before);
      }
      status := 0;
    }

    /** The user's callback: whatever calls the script lists, in order. */
    method Callback(script: seq<Call>)
      requires Valid()
      modifies this, heap, heap.vec, heap.vec.data
      ensures Valid() && (heap.vec.data == old(heap.vec.data) || fresh(heap.vec.data))
      ensures State() == PerformAll(old(State()), script)
      decreases script
    {
      hide Safe;
      var i := 0;
      while i < |script|
        invariant i <= |script| && Valid() && (heap.vec.data == old(heap.vec.data) || fresh(heap.vec.data))
        invariant PerformAll(State(), script[i..]) == PerformAll(old(State()), script)
      {
        assert script[i..][0] == script[i] && script[i..][1..] == script[i + 1..];
        Execute(script[i]);
        i := i + 1;
      }
    }

    /** One call of the interface. */
    method Execute(call: Call)
      requires Valid()
      modifies this, heap, heap.vec, heap.vec.data
      ensures Valid() && (heap.vec.data == old(heap.vec.data) || fresh(heap.vec.data))
      ensures State() == Perform(old(State()), call)
      decreases call
    {
      hide AddOneShot, AddRecurring, StopAll, PerformRound, Safe;
      var status: int;
      match call
      case Plain(Elapse(ms)) =>
        SafeServe(State(), call.request);
        clock := clock + ms;
      case Plain(Add(f, c, fromNow, estimate, nice)) => status := Add(f, c, fromNow, estimate, nice);
      case Plain(AddInterval(f, c, fromNow, estimate, nice, interval, ntimes)) =>
        status := AddInterval(f, c, fromNow, estimate, nice, interval, ntimes);
      case Plain(Stop) => status := Stop();
      case RunSingle(round) => status := RunSingle(round);
    }

    /** The part of `interval_function` after the user's function. */
    method IntervalReturn(ticket: nat, timer: nat, took: nat)
      requires Structured() && ticket in records
      modifies this, heap, heap.vec, heap.vec.data
      ensures Structured() && (heap.vec.data == old(heap.vec.data) || fresh(heap.vec.data))
      ensures State() == SchedulerModel.IntervalReturn(old(State()), ticket, timer, took)
    {
      hide HeapOrder.Push, SchedulerModel.Requeue, SchedulerModel.Measure, SchedulerModel.IntervalCleanup;
      var record := records[ticket];
      if record.ntimes == 1 {
        return;
      }
      if record.ntimes > 0 {
        record := record.(ntimes := record.ntimes - 1);
      }
      records := records[ticket := record];
      if !record.attached {
        IntervalCleanup(ticket);
      } else {
        Requeue(ticket);
        Measure(ticket, timer, took);
      }
    }

    method Requeue(ticket: nat)
      requires Structured() && ticket in records
      modifies heap, heap.vec, heap.vec.data, `log
      ensures Structured() && (heap.vec.data == old(heap.vec.data) || fresh(heap.vec.data))
      ensures State() == SchedulerModel.Requeue(old(State()), ticket)
      ensures log == old(log) + [Requeued(ticket, clock)]
    {
      hide HeapOrder.Push;
      var record := records[ticket];
      var status := SchedulerAdd(Interval, ticket, record.interval, record.average, record.nice,
                                 if record.ntimes == 1 then FIRSTTIME else LASTTIME);
      log := log + [Requeued(ticket, clock)];
    }

    method Measure(ticket: nat, timer: nat, took: nat)
      requires Structured() && ticket in records
      modifies `clock, `records, `log
      ensures Structured() && State() == SchedulerModel.Measure(old(State()), ticket, timer, took)
      // the time from the timer to when the job is back in the queue, unless the counter is full
      ensures clock == old(clock) + took
      ensures timer <= clock ==>
        log == old(log) + if old(records)[ticket].called < UINT_MAX then [Measured(ticket, clock - timer)] else []
    {
      hide Averaged;
      clock := clock + took;
      var record := records[ticket];
      if record.called < UINT_MAX {
        var d := if timer <= clock then clock - timer else 0;
        records := records[ticket := record.(average := Averaged(record.average, record.called, d),
                                             called := record.called + 1)];
        log := log + [Measured(ticket, d)];
      }
    }

    /** `run_single` up to the entry of the job's function: the sleep, if one is needed, has
        succeeded. */
    method Enter(round: Round) returns (job: Job)
      requires Valid() && CanBegin(State(), round.sleepOk)
      modifies this, heap, heap.vec, heap.vec.data
      ensures Valid() && (heap.vec.data == old(heap.vec.data) || fresh(heap.vec.data))
      ensures job == old(State()).queue[0]
      ensures var st := BeginJob(old(State()), round.sleepOk, round.delay);
              State() == st && st.running == old(running) + [Running(job, clock)]
      ensures records == old(records) && (job.kind.Interval? ==> job.ticket in records)
    {
      hide HeapOrder.Pop, Safe, Held, HasFunction;
      ghost var before := State();
      SafeEnter(before, round);
      QueuedIsHeld(before, before.queue[0]);
      job := TakeFirst();
      clock := (if job.arrival > clock then job.arrival else clock) + round.delay;
      running := running + [Running(job, clock)];
      log := log + [Started(job.ticket, job.arrival, clock)];
      if UserFunction(job) {
        log := log + [Called(job.ticket)];
      }
    }

    /** Whether the user's function behind a job is not NULL. */
    predicate UserFunction(job: Job)
      requires Structured() && (job.kind.Interval? ==> job.ticket in records)
      reads this, heap, heap.vec, heap.vec.data
      ensures UserFunction(job) <==> HasFunction(State(), job)
    {
      match job.kind
      case OneShot(hasFunction, _) => hasFunction
      case Interval => records[job.ticket].hasFunction
    }

    /** `run_single` after the user's function. */
    method Leave(job: Job, timer: nat, took: nat)
      requires Valid() && running != [] && running[|running| - 1] == Running(job, timer)
      modifies this, heap, heap.vec, heap.vec.data
      ensures Valid() && (heap.vec.data == old(heap.vec.data) || fresh(heap.vec.data))
      ensures State() == FinishJob(old(State()), took)
    {
      hide HeapOrder.Push, Safe;
      ghost var before := State();
      SafeLeave(before, took);
      if job.kind.Interval? {
        assert job in Held(before);
        LiveRecord(before, job);
      }
      running := running[..|running| - 1];
      if job.kind.Interval? {
        IntervalReturn(job.ticket, timer, took);
      }
      if job.tag == FIRSTTIME {
        CleanupJob(job);
      }
    }

    method RunSingle(round: Round) returns (status: int)
      requires Valid()
      modifies this, heap, heap.vec, heap.vec.data
      ensures Valid() && (heap.vec.data == old(heap.vec.data) || fresh(heap.vec.data))
      ensures status == Status(old(State()), round)
      ensures State() == PerformRound(old(State()), round)
      // an error if the first job is not due and the sleep fails, and then nothing has changed
      ensures status < 0 <==>
        old(State()).queue != [] && old(State()).queue[0].arrival > old(clock) && !round.sleepOk
      ensures status < 0 || old(State()).queue == [] ==> State() == old(State())
      // otherwise the first job has been started
      ensures status >= 0 && old(State()).queue != [] ==>
        && status == 0 && old(State()).queue[0].ticket < |old(tasks)|
        && old(log) + FirstStart(old(State()), round.delay) <= log
      decreases round
    {
      hide BeginJob, FinishJob, Safe, FirstStart;
      RoundMeaning(State(), round);
      if Done() {
        return 0;
      }
      if Next() > clock && !round.sleepOk {
        return -1;
      }
      ghost var before := State();
      var job := Enter(round);
      var timer := clock;
      ghost var entered := State();
      var called := UserFunction(job);
      if called {
        Callback(round.script);
        StackKeptByAll(entered, round.script);
      }
      Leave(job, timer, round.took);
      return 0;
    }

    /** `lothar_scheduler_run`, for as many rounds as the list has. */
    method Run(rounds: seq<Round>) returns (status: int, used: nat)
      requires Valid()
      modifies this, heap, heap.vec, heap.vec.data
      ensures Valid() && (heap.vec.data == old(heap.vec.data) || fresh(heap.vec.data))
      ensures Outcome(State(), status, used) == RunAll(old(State()), rounds)
      // an error exactly when the sleep of the last round fails while its first job is not due
      ensures status < 0 ==>
        0 < used <= |rounds| && State().queue != [] && State().queue[0].arrival > clock && !rounds[used - 1].sleepOk
      ensures status >= 0 ==> status == 0 && (State().queue == [] || used == |rounds|)
    {
      hide PerformRound, Safe, FirstStart;
      used := 0;
      while !Done() && used < |rounds|
        invariant used <= |rounds| && Valid() && (heap.vec.data == old(heap.vec.data) || fresh(heap.vec.data))
        invariant var rest := RunAll(State(), rounds[used..]);
                  RunAll(old(State()), rounds) == rest.(rounds := rest.rounds + used)
        decreases |rounds| - used
      {
        ghost var st := State();
        assert rounds[used..][0] == rounds[used] && rounds[used..][1..] == rounds[used + 1..];
        status := RunSingle(rounds[used]);
        used := used + 1;
        if status < 0 {
          FailedRound(st, rounds[used - 1]);
          return status, used;
        }
      }
      status := 0;
    }
  }
}
