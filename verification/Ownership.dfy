/** Exactly-once cleanup and memory safety over every run of the scheduler. */
module Ownership {
  import opened HeapOrder
  import opened JobOrder
  import opened SchedulerModel

  /** The jobs on the C stack. */
  ghost function Stacked(running: seq<Running>): multiset<Job> {
    if running == [] then multiset{}
    else Stacked(running[..|running| - 1]) + multiset{running[|running| - 1].job}
  }

  /** The jobs the scheduler holds: queued or running. */
  ghost function Held(st: State): multiset<Job> {
    multiset(st.queue) + Stacked(st.running)
  }

  /** A held job and its record still say what the add call asked for, and the tag is
      FIRSTTIME exactly when this run is the last. */
  ghost predicate Matches(j: Job, task: Task, records: map<nat, IntervalJob>) {
    && j.kind == task.kind && j.nice == task.nice
    && match j.kind
       case OneShot(hasFunction, hasCleanup) =>
         hasFunction == task.hasFunction && hasCleanup == task.hasCleanup && j.tag == FIRSTTIME && task.times == 1
       case Interval =>
         && j.ticket in records
         && var r := records[j.ticket];
            && r.hasFunction == task.hasFunction && r.hasCleanup == task.hasCleanup
            && r.interval == task.interval && r.nice == task.nice
            && j.tag == TagFor(r.ntimes)
  }

  /** How often the user's cleanup has been called for a ticket. */
  ghost function Cleanups(log: seq<Event>, ticket: nat): nat {
    multiset(log)[Cleaned(ticket)]
  }

  /** Once the cleanup of a ticket has been called, the ticket is never touched again. */
  ghost predicate NothingAfterCleanup(log: seq<Event>) {
    forall i, j :: 0 <= i < j < |log| && log[i].Cleaned? ==> log[j].ticket != log[i].ticket
  }

  /** The held jobs by ticket, with their records. */
  ghost predicate BooksOk(books: map<nat, Job>, records: map<nat, IntervalJob>, tasks: seq<Task>) {
    && (forall t :: t in books ==> t < |tasks| && books[t].ticket == t && Matches(books[t], tasks[t], records))
    && (forall t :: t in records ==> t in books && books[t].kind.Interval?)
  }

  ghost predicate LogOk(books: map<nat, Job>, tasks: seq<Task>, log: seq<Event>) {
    && (forall e :: e in log ==> !e.Dangling? && e.ticket < |tasks|)
    && (forall t: nat :: Cleanups(log, t) == if t < |tasks| && tasks[t].hasCleanup && t !in books then 1 else 0)
    && NothingAfterCleanup(log)
  }

  ghost predicate Owned(books: map<nat, Job>, records: map<nat, IntervalJob>, tasks: seq<Task>, log: seq<Event>) {
    BooksOk(books, records, tasks) && LogOk(books, tasks, log)
  }

  /** The books list the held jobs, each once and under its ticket. */
  ghost predicate Lists(books: map<nat, Job>, held: multiset<Job>) {
    && held == multiset(books.Values)
    && forall t :: t in books ==> books[t].ticket == t
  }

  ghost predicate Ledger(st: State, books: map<nat, Job>) {
    Lists(books, Held(st)) && Owned(books, st.records, st.tasks, st.log)
  }

  ghost predicate Safe(st: State) {
    exists books :: Ledger(st, books)
  }

  // ---------- Keeping the books ----------

  lemma ListsHeld(books: map<nat, Job>, held: multiset<Job>, j: Job)
    requires Lists(books, held) && j in held
    ensures j.ticket in books && books[j.ticket] == j && held[j] == 1
  {
  }

  lemma ListsAdd(books: map<nat, Job>, held: multiset<Job>, j: Job)
    requires Lists(books, held) && j.ticket !in books
    ensures Lists(books[j.ticket := j], held + multiset{j})
  {
    var books' := books[j.ticket := j];
    forall k ensures k in books'.Values <==> k in books.Values || k == j {
      if k in books.Values {
        assert books'[k.ticket] == k;
      }
      assert books'[j.ticket] == j;
    }
    assert j !in books.Values;
  }

  lemma ListsDrop(books: map<nat, Job>, held: multiset<Job>, j: Job)
    requires Lists(books, held) && j in held
    ensures Lists(books - {j.ticket}, held - multiset{j})
  {
    var books' := books - {j.ticket};
    ListsHeld(books, held, j);
    forall k ensures k in books'.Values <==> k in books.Values && k != j {
      if k in books.Values && k != j {
        assert books[k.ticket] == k && k.ticket in books';
      }
    }
  }

  /** A new ticket enters the books. */
  lemma OwnedAdd(books: map<nat, Job>, records: map<nat, IntervalJob>, tasks: seq<Task>, log: seq<Event>,
      j: Job, task: Task, records': map<nat, IntervalJob>)
    requires Owned(books, records, tasks, log)
    requires j.ticket == |tasks| && Matches(j, task, records')
    requires if j.kind.Interval? then j.ticket in records' && records' == records[j.ticket := records'[j.ticket]]
             else records' == records
    ensures j.ticket !in books && Owned(books[j.ticket := j], records', tasks + [task], log)
  {
    hide LogOk;
    assert |tasks| !in records;
    LogAdd(books, tasks, log, j, task);
  }

  lemma LogAdd(books: map<nat, Job>, tasks: seq<Task>, log: seq<Event>, j: Job, task: Task)
    requires LogOk(books, tasks, log) && j.ticket == |tasks|
    ensures LogOk(books[j.ticket := j], tasks + [task], log)
  {
    assert Cleaned(|tasks|) !in log;
  }

  lemma OwnedEntry(books: map<nat, Job>, records: map<nat, IntervalJob>, tasks: seq<Task>, log: seq<Event>, t: nat)
    requires Owned(books, records, tasks, log) && t in books
    ensures t < |tasks| && books[t].ticket == t && Matches(books[t], tasks[t], records)
  {
  }

  lemma NoCleanupYet(books: map<nat, Job>, tasks: seq<Task>, log: seq<Event>, t: nat, i: nat)
    requires LogOk(books, tasks, log) && t in books && i < |log| && log[i].Cleaned?
    ensures log[i].ticket != t
  {
    assert log[i] in multiset(log);
    assert Cleanups(log, t) == 0;
  }

  /** An event, other than a cleanup, of a ticket that is held. */
  lemma OwnedNote(books: map<nat, Job>, records: map<nat, IntervalJob>, tasks: seq<Task>, log: seq<Event>, e: Event)
    requires Owned(books, records, tasks, log)
    requires e.ticket in books && !e.Cleaned? && !e.Dangling?
    ensures Owned(books, records, tasks, log + [e])
  {
    hide Matches;
    forall i | 0 <= i < |log| && log[i].Cleaned? ensures log[i].ticket != e.ticket {
      NoCleanupYet(books, tasks, log, e.ticket, i);
    }
  }

  /** A held job leaves, and its cleanup is called. */
  lemma OwnedDrop(books: map<nat, Job>, records: map<nat, IntervalJob>, tasks: seq<Task>, log: seq<Event>, t: nat,
      records': map<nat, IntervalJob>, log': seq<Event>)
    requires Owned(books, records, tasks, log) && t in books
    requires records' == if books[t].kind.Interval? then records - {t} else records
    requires log' == if tasks[t].hasCleanup then log + [Cleaned(t)] else log
    ensures Owned(books - {t}, records', tasks, log')
  {
    hide LogOk;
    assert BooksOk(books - {t}, records', tasks);
    LogDrop(books, tasks, log, t);
  }

  lemma LogDrop(books: map<nat, Job>, tasks: seq<Task>, log: seq<Event>, t: nat)
    requires LogOk(books, tasks, log) && t in books && t < |tasks|
    ensures LogOk(books - {t}, tasks, if tasks[t].hasCleanup then log + [Cleaned(t)] else log)
  {
    forall i | 0 <= i < |log| && log[i].Cleaned? ensures log[i].ticket != t {
      NoCleanupYet(books, tasks, log, t, i);
    }
  }

  /** A held interval job changes places with a new one for the same record. */
  lemma OwnedReplace(books: map<nat, Job>, records: map<nat, IntervalJob>, tasks: seq<Task>, log: seq<Event>,
      j: Job, record: IntervalJob)
    requires Owned(books, records, tasks, log) && j.ticket in books && j.kind.Interval?
    requires Matches(j, tasks[j.ticket], records[j.ticket := record])
    ensures Owned(books[j.ticket := j], records[j.ticket := record], tasks, log)
  {
    hide LogOk;
    LogReplace(books, tasks, log, j);
  }

  lemma LogReplace(books: map<nat, Job>, tasks: seq<Task>, log: seq<Event>, j: Job)
    requires LogOk(books, tasks, log) && j.ticket in books
    ensures LogOk(books[j.ticket := j], tasks, log)
  {
  }

  // ---------- Steps ----------

  lemma PushHolds(st: State, job: Job)
    ensures Held(st.(queue := Push(JobCmp, st.queue, job))) == Held(st) + multiset{job}
  {
  }

  lemma PopHolds(st: State)
    requires st.queue != []
    ensures Held(st) == Held(st.(queue := Pop(JobCmp, st.queue))) + multiset{st.queue[0]}
    ensures st.queue[0] in Held(st)
  {
  }

  /** The entry of a held job. */
  lemma Entry(st: State, books: map<nat, Job>, j: Job)
    requires Ledger(st, books) && j in Held(st)
    ensures j.ticket in books && books[j.ticket] == j
    ensures j.ticket < |st.tasks| && Matches(j, st.tasks[j.ticket], st.records)
    ensures Held(st)[j] == 1
  {
    ListsHeld(books, Held(st), j);
  }

  /** The other held jobs carry other tickets. */
  lemma OthersDiffer(st: State, books: map<nat, Job>, others: multiset<Job>, job: Job)
    requires Ledger(st, books) && Held(st) == others + multiset{job}
    ensures forall j :: j in others ==> j.ticket != job.ticket
  {
    hide Owned, Lists;
    forall j | j in others ensures j.ticket != job.ticket {
      Entry(st, books, j);
      Entry(st, books, job);
    }
  }

  /** The job that an add call puts in the queue. */
  ghost function NewJob(st: State, request: Request): Job
    requires request.Add? || request.AddInterval?
  {
    if request.Add? then
      Job(OneShot(request.hasFunction, request.hasCleanup), |st.tasks|,
          st.clock + request.fromNow, request.estimate, request.nice, FIRSTTIME)
    else
      Job(Interval, |st.tasks|, st.clock + request.fromNow, request.estimate, request.nice, TagFor(request.ntimes))
  }

  lemma SafeAdd(st: State, books: map<nat, Job>, request: Request) returns (books': map<nat, Job>)
    requires Ledger(st, books) && (request.Add? || request.AddInterval?)
    ensures Ledger(Serve(st, request), books')
    ensures |st.tasks| !in books && books' == books[|st.tasks| := NewJob(st, request)]
  {
    hide Push, Pop, Owned, Lists;
    var st' := Serve(st, request);
    var task := st'.tasks[|st.tasks|];
    var job := NewJob(st, request);
    books' := books[job.ticket := job];
    PushHolds(st, job);
    OwnedAdd(books, st.records, st.tasks, st.log, job, task, st'.records);
    ListsAdd(books, Held(st), job);
  }

  ghost function Without(records: map<nat, IntervalJob>, job: Job): map<nat, IntervalJob> {
    if job.kind.Interval? then records - {job.ticket} else records
  }

  ghost function CleanupEvents(st: State, job: Job): seq<Event> {
    if job.ticket < |st.tasks| && st.tasks[job.ticket].hasCleanup then [Cleaned(job.ticket)] else []
  }

  /** `Cleanup` on a held job does what `OwnedDrop` asks for. */
  lemma CleanupDrops(st: State, books: map<nat, Job>, job: Job)
    requires Owned(books, st.records, st.tasks, st.log) && job.ticket in books && books[job.ticket] == job
    ensures var st' := Cleanup(st, job);
            && st' == st.(records := Without(st.records, job), log := st.log + CleanupEvents(st, job))
            && Owned(books - {job.ticket}, st'.records, st.tasks, st'.log)
  {
    var st' := Cleanup(st, job);
    assert Matches(job, st.tasks[job.ticket], st.records);
    assert st.log + [] == st.log;
    OwnedDrop(books, st.records, st.tasks, st.log, job.ticket, st'.records, st'.log);
  }

  lemma SafeStopOne(st: State, books: map<nat, Job>) returns (books': map<nat, Job>)
    requires Ledger(st, books) && st.queue != []
    ensures Ledger(StopOne(st), books')
    ensures var job := st.queue[0];
            && job.ticket in books && books[job.ticket] == job && books' == books - {job.ticket}
            && StopOne(st) == st.(queue := Pop(JobCmp, st.queue), records := Without(st.records, job),
                                  log := st.log + CleanupEvents(st, job))
  {
    hide Push, Pop, Owned, Lists;
    var job := st.queue[0];
    PopHolds(st);
    Entry(st, books, job);
    var st1 := st.(queue := Pop(JobCmp, st.queue));
    books' := books - {job.ticket};
    CleanupDrops(st1, books, job);
    ListsDrop(books, Held(st), job);
    assert Held(st) - multiset{job} == Held(st1);
  }

  lemma {:induction false} SafeStop(st: State, books: map<nat, Job>) returns (books': map<nat, Job>)
    requires Ledger(st, books)
    ensures Ledger(StopAll(st), books')
    ensures var st' := StopAll(st);
            st' == st.(queue := [], records := st'.records, log := st'.log)
    decreases |st.queue|
  {
    if st.queue != [] {
      books' := SafeStopOne(st, books);
      books' := SafeStop(StopOne(st), books');
    } else {
      books' := books;
    }
  }

  lemma StackPush(running: seq<Running>, r: Running)
    ensures Stacked(running + [r]) == Stacked(running) + multiset{r.job}
  {
    assert (running + [r])[..|running|] == running;
  }

  lemma SafeBegin(st: State, books: map<nat, Job>, sleepOk: bool, delay: nat)
    requires Ledger(st, books)
    ensures Ledger(BeginJob(st, sleepOk, delay), books)
    ensures !CanBegin(st, sleepOk) ==> BeginJob(st, sleepOk, delay) == st
    ensures CanBegin(st, sleepOk) ==>
      var job := st.queue[0];
      var now := (if job.arrival > st.clock then job.arrival else st.clock) + delay;
      && job.ticket in books && books[job.ticket] == job
      && BeginJob(st, sleepOk, delay) ==
         st.(clock := now, queue := Pop(JobCmp, st.queue), running := st.running + [Running(job, now)],
             log := st.log + [Started(job.ticket, job.arrival, now)]
                           + if st.tasks[job.ticket].hasFunction then [Called(job.ticket)] else [])
  {
    hide Push, Pop, Owned, Lists, Stacked;
    if CanBegin(st, sleepOk) {
      var job := st.queue[0];
      var st' := BeginJob(st, sleepOk, delay);
      PopHolds(st);
      Entry(st, books, job);
      StackPush(st.running, Running(job, st'.clock));
      assert Held(st') == Held(st);
      var started := Started(job.ticket, job.arrival, st'.clock);
      assert st.log + [started] + [] == st.log + [started];
      OwnedNote(books, st.records, st.tasks, st.log, started);
      OwnedNote(books, st.records, st.tasks, st.log + [started], Called(job.ticket));
    }
  }

  /** The job that `interval_function` puts back, given the record with this run counted. */
  ghost function BackJob(clock: nat, ticket: nat, record: IntervalJob): Job {
    Job(Interval, ticket, clock + record.interval, record.average, record.nice, TagFor(record.ntimes))
  }

  /** The record with this run counted. */
  ghost function CountRun(record: IntervalJob): IntervalJob {
    record.(ntimes := if record.ntimes > 0 then record.ntimes - 1 else 0)
  }

  /** An interval job puts itself back. */
  lemma RequeueOwned(st: State, books: map<nat, Job>, job: Job, record: IntervalJob)
    requires Owned(books, st.records, st.tasks, st.log) && job.kind.Interval?
    requires job.ticket in books && books[job.ticket] == job
    requires record == st.records[job.ticket].(ntimes := record.ntimes)
    ensures var st1 := st.(records := st.records[job.ticket := record]);
            var st' := Requeue(st1, job.ticket);
            var job' := BackJob(st.clock, job.ticket, record);
            && Owned(books[job.ticket := job'], st'.records, st'.tasks, st'.log)
            && st' == st.(queue := Push(JobCmp, st.queue, job'), records := st1.records, log := st'.log)
  {
    hide Push, Pop, Owned, Lists;
    var t := job.ticket;
    OwnedEntry(books, st.records, st.tasks, st.log, t);
    var job' := BackJob(st.clock, t, record);
    OwnedReplace(books, st.records, st.tasks, st.log, job', record);
    OwnedNote(books[t := job'], st.records[t := record], st.tasks, st.log, Requeued(t, st.clock));
  }

  lemma MeasureOwned(st: State, books: map<nat, Job>, t: nat, timer: nat, took: nat)
    requires Owned(books, st.records, st.tasks, st.log) && t in st.records && t in books
    requires books[t].kind.Interval?
    ensures var st' := Measure(st, t, timer, took);
            && Owned(books, st'.records, st'.tasks, st'.log)
            && st' == st.(clock := st'.clock, records := st'.records, log := st'.log)
  {
    hide Push, Pop, Owned, Lists;
    var st' := Measure(st, t, timer, took);
    if st.records[t].called < UINT_MAX {
      OwnedEntry(books, st.records, st.tasks, st.log, t);
      OwnedReplace(books, st.records, st.tasks, st.log, books[t], st'.records[t]);
      assert books[t := books[t]] == books;
      OwnedNote(books, st'.records, st.tasks, st.log, Measured(t, Since(timer, st'.clock)));
    }
  }

  /** What `interval_function` does once it has counted this run. */
  lemma DetachedReturn(st: State, books: map<nat, Job>, held: multiset<Job>, job: Job, record: IntervalJob)
      returns (books': map<nat, Job>)
    requires Owned(books, st.records, st.tasks, st.log) && Lists(books, held)
    requires job in held && job.kind.Interval? && held == Held(st) + multiset{job}
    requires job.ticket in st.records && record == st.records[job.ticket].(ntimes := record.ntimes)
    ensures Ledger(IntervalCleanup(st.(records := st.records[job.ticket := record]), job.ticket), books')
    ensures books' == books - {job.ticket}
  {
    hide Owned, Lists;
    ListsHeld(books, held, job);
    OwnedEntry(books, st.records, st.tasks, st.log, job.ticket);
    var st' := IntervalCleanup(st.(records := st.records[job.ticket := record]), job.ticket);
    ListsDrop(books, held, job);
    OwnedDrop(books, st.records, st.tasks, st.log, job.ticket, st'.records, st'.log);
    books' := books - {job.ticket};
    assert Held(st') == held - multiset{job};
  }

  lemma AttachedReturn(st: State, books: map<nat, Job>, held: multiset<Job>, job: Job, record: IntervalJob,
      timer: nat, took: nat) returns (books': map<nat, Job>)
    requires Owned(books, st.records, st.tasks, st.log) && Lists(books, held)
    requires job in held && job.kind.Interval? && held == Held(st) + multiset{job}
    requires job.ticket in st.records && record == st.records[job.ticket].(ntimes := record.ntimes)
    ensures var st1 := st.(records := st.records[job.ticket := record]);
            Ledger(Measure(Requeue(st1, job.ticket), job.ticket, timer, took), books')
    ensures books' == books[job.ticket := BackJob(st.clock, job.ticket, record)]
  {
    hide Owned, Lists, Push, Requeue, Measure;
    ListsHeld(books, held, job);
    var t := job.ticket;
    var job' := BackJob(st.clock, t, record);
    var st1 := Requeue(st.(records := st.records[t := record]), t);
    RequeueOwned(st, books, job, record);
    books' := books[t := job'];
    assert Lists(books', Held(st1)) by {
      ListsDrop(books, held, job);
      assert held - multiset{job} == Held(st);
      PushHolds(st, job');
      ListsAdd(books - {t}, Held(st), job');
      assert books' == (books - {t})[t := job'];
    }
    MeasureOwned(st1, books', t, timer, took);
  }

  /** An interval job whose last run is still to be cleaned up leaves the state alone; any other
      one either puts itself back or, if it cannot, cleans itself up. */
  lemma IntervalReturnOwned(st: State, books: map<nat, Job>, held: multiset<Job>, job: Job, timer: nat, took: nat)
      returns (books': map<nat, Job>)
    requires Owned(books, st.records, st.tasks, st.log) && Lists(books, held)
    requires job in held && job.kind.Interval? && held == Held(st) + multiset{job}
    ensures var st' := IntervalReturn(st, job.ticket, timer, took);
            if job.tag == FIRSTTIME then st' == st && books' == books
            else
              && Ledger(st', books')
              && job.ticket in st.records
              && var record := st.records[job.ticket];
                 books' == if record.attached then books[job.ticket := BackJob(st.clock, job.ticket, CountRun(record))]
                           else books - {job.ticket}
  {
    hide Owned, Lists, Held, Requeue, Measure, IntervalCleanup;
    ListsHeld(books, held, job);
    OwnedEntry(books, st.records, st.tasks, st.log, job.ticket);
    books' := books;
    var record := st.records[job.ticket];
    if record.ntimes != 1 {
      var record1 := CountRun(record);
      if record.attached {
        books' := AttachedReturn(st, books, held, job, record1, timer, took);
      } else {
        books' := DetachedReturn(st, books, held, job, record1);
      }
    }
  }

  /** Whether the innermost running job leaves for good when it returns. */
  ghost predicate Retires(st: State, job: Job) {
    job.tag == FIRSTTIME || job.ticket !in st.records || !st.records[job.ticket].attached
  }

  /** The record of a job that will come back. */
  lemma BackRecord(st: State, job: Job) returns (record: IntervalJob)
    requires !Retires(st, job) && job.ticket < |st.tasks| && Matches(job, st.tasks[job.ticket], st.records)
    ensures job.ticket in st.records && record == CountRun(st.records[job.ticket]) && record.nice == job.nice
  {
    record := CountRun(st.records[job.ticket]);
  }

  lemma SafeFinish(st: State, books: map<nat, Job>, took: nat) returns (books': map<nat, Job>)
    requires Ledger(st, books)
    ensures Ledger(FinishJob(st, took), books')
    ensures if st.running == [] then books' == books
            else
              var job := st.running[|st.running| - 1].job;
              if Retires(st, job) then books' == books - {job.ticket}
              else books' == books[job.ticket := BackJob(st.clock, job.ticket, CountRun(st.records[job.ticket]))]
  {
    hide Push, Pop, Owned, Lists;
    books' := books;
    if st.running != [] {
      var r := st.running[|st.running| - 1];
      var st1 := st.(running := st.running[..|st.running| - 1]);
      assert Held(st) == Held(st1) + multiset{r.job};
      Entry(st, books, r.job);
      if r.job.kind.Interval? {
        books' := IntervalReturnOwned(st1, books, Held(st), r.job, r.timer, took);
      }
      if r.job.tag == FIRSTTIME {
        CleanupDrops(st1, books, r.job);
        ListsDrop(books, Held(st), r.job);
        assert Held(st1) == Held(st) - multiset{r.job};
        books' := books - {r.job.ticket};
      }
    }
  }

  /** The state after an interval job has put itself back and measured the run. */
  ghost function PutBack(st: State, t: nat, record: IntervalJob, timer: nat, took: nat): State {
    var d := Since(timer, st.clock + took);
    st.(clock := st.clock + took,
        queue := Push(JobCmp, st.queue, BackJob(st.clock, t, record)),
        records := st.records[t := Remeasured(record, d)],
        log := st.log + [Requeued(t, st.clock)] + if record.called < UINT_MAX then [Measured(t, d)] else [])
  }

  /** The record with one more measured duration, unless the counter is full. */
  ghost function Remeasured(record: IntervalJob, d: nat): IntervalJob {
    if record.called < UINT_MAX then
      record.(average := Averaged(record.average, record.called, d), called := record.called + 1)
    else record
  }

  lemma PutBackMeaning(st: State, t: nat, record: IntervalJob, timer: nat, took: nat)
    ensures Measure(Requeue(st.(records := st.records[t := record]), t), t, timer, took)
            == PutBack(st, t, record, timer, took)
  {
    hide Push;
    var log1 := st.log + [Requeued(t, st.clock)];
    assert log1 + [] == log1;
    var record1 := Remeasured(record, Since(timer, st.clock + took));
    assert st.records[t := record][t := record1] == st.records[t := record1];
  }

  ghost function Innermost(st: State): Running
    requires st.running != []
  {
    st.running[|st.running| - 1]
  }

  ghost function Popped(st: State): State
    requires st.running != []
  {
    st.(running := st.running[..|st.running| - 1])
  }

  /** The state after a job has left for good. */
  ghost function Retired(st: State, job: Job): State {
    st.(records := Without(st.records, job), log := st.log + CleanupEvents(st, job))
  }

  /** What the return of the innermost running job amounts to: it leaves for good or it is put back. */
  lemma FinishMeaning(st: State, books: map<nat, Job>, took: nat)
    requires Ledger(st, books) && st.running != []
    ensures var r := Innermost(st);
      && r.job.ticket in books && books[r.job.ticket] == r.job && r.job.ticket < |st.tasks|
      && Matches(r.job, st.tasks[r.job.ticket], st.records)
      && Held(st)[r.job] == 1 && Held(st) == Held(Popped(st)) + multiset{r.job}
    ensures var r := Innermost(st);
      FinishJob(st, took) ==
        if Retires(st, r.job) then Retired(Popped(st), r.job)
        else PutBack(Popped(st), r.job.ticket, CountRun(st.records[r.job.ticket]), r.timer, took)
  {
    hide Push, Pop, Owned, Lists, Requeue, Measure, PutBack;
    var r := Innermost(st);
    var t, st1 := r.job.ticket, Popped(st);
    assert Held(st) == Held(st1) + multiset{r.job};
    Entry(st, books, r.job);
    if r.job.tag == FIRSTTIME {
      CleanupDrops(st1, books, r.job);
    } else if !st.records[t].attached {
      assert st.records[t := CountRun(st.records[t])] - {t} == st.records - {t};
      assert st.log + [] == st.log;
    } else {
      PutBackMeaning(st1, t, CountRun(st.records[t]), r.timer, took);
    }
  }

  lemma SafeStep(st: State, books: map<nat, Job>, step: Step) returns (books': map<nat, Job>)
    requires Ledger(st, books)
    ensures Ledger(Next(st, step), books')
  {
    books' := books;
    match step
    case Do(request) =>
      if request.Stop? {
        books' := SafeStop(st, books);
      } else if !request.Elapse? {
        books' := SafeAdd(st, books, request);
      }
    case Begin(sleepOk, delay) => SafeBegin(st, books, sleepOk, delay);
    case Finish(took) => books' := SafeFinish(st, books, took);
  }

  lemma {:induction false} SafeRun(st: State, steps: seq<Step>)
    requires Safe(st)
    ensures Safe(Exec(st, steps))
    decreases |steps|
  {
    if steps != [] {
      var books :| Ledger(st, books);
      var books' := SafeStep(st, books, steps[0]);
      SafeRun(Next(st, steps[0]), steps[1..]);
    }
  }

  // ---------- Theorems ----------

  ghost predicate HeldTicket(st: State, t: nat) {
    exists j :: j in Held(st) && j.ticket == t
  }

  /** Job `j` carries ticket `t`, is held once, and no other held job carries that ticket. */
  ghost predicate OnlyHolder(st: State, t: nat, j: Job) {
    j.ticket == t && Held(st)[j] == 1 && forall k :: k in Held(st) && k.ticket == t ==> k == j
  }

  /** After any run of adds, stops, starts, ends and failed sleeps, in any nesting, from any safe
      state (the initial one, or one with records that cannot be put back, among them), every added
      ticket is held, by exactly one job and with its cleanup not yet called, or it is retired and its
      cleanup, if it has one, has been called exactly once. */
  lemma ExactlyOnceCleanup(start: State, steps: seq<Step>, t: nat)
    requires Safe(start)
    requires t < |Exec(start, steps).tasks|
    ensures var st := Exec(start, steps);
      if HeldTicket(st, t) then Cleanups(st.log, t) == 0 && exists j :: OnlyHolder(st, t, j)
      else Cleanups(st.log, t) == if st.tasks[t].hasCleanup then 1 else 0
  {
    SafeRun(start, steps);
    var st := Exec(start, steps);
    var books :| Ledger(st, books);
    HeldIsBooked(st, books, t);
  }

  /** Over any run, nothing happens to a ticket once its cleanup has been called: it is not started,
      called, put back or cleaned up again. */
  lemma CleanupComesLast(start: State, steps: seq<Step>)
    requires Safe(start)
    ensures NothingAfterCleanup(Exec(start, steps).log)
  {
    SafeRun(start, steps);
  }

  /** Over any run, no `interval_job_t` is used after it was freed, and the live ones are exactly
      those of held interval jobs, so none leaks. */
  lemma RecordsAreSafe(start: State, steps: seq<Step>)
    requires Safe(start)
    ensures var st := Exec(start, steps);
      && (forall e :: e in st.log ==> !e.Dangling?)
      && (forall t :: t in st.records <==> exists j :: j in Held(st) && j.ticket == t && j.kind.Interval?)
  {
    SafeRun(start, steps);
    var st := Exec(start, steps);
    var books :| Ledger(st, books);
    RecordsOfHeld(st, books);
  }

  lemma RecordsOfHeld(st: State, books: map<nat, Job>)
    requires Ledger(st, books)
    ensures forall t :: t in st.records <==> exists j :: j in Held(st) && j.ticket == t && j.kind.Interval?
  {
    forall t | t in st.records ensures exists j :: j in Held(st) && j.ticket == t && j.kind.Interval? {
      HeldIsBooked(st, books, t);
    }
    forall j | j in Held(st) && j.kind.Interval? ensures j.ticket in st.records {
      Entry(st, books, j);
    }
  }

  lemma InitSafe()
    ensures Safe(INIT)
  {
    assert Ledger(INIT, map[]);
  }

  lemma HeldIsBooked(st: State, books: map<nat, Job>, t: nat)
    requires Ledger(st, books)
    ensures HeldTicket(st, t) <==> t in books
    ensures t in books ==> books[t] in Held(st) && OnlyHolder(st, t, books[t])
  {
    if t in books {
      assert books[t] in books.Values && books[t] in Held(st);
    }
    forall k | k in Held(st) && k.ticket == t ensures t in books && k == books[t] {
      Entry(st, books, k);
    }
  }

  /** Called while no job runs, `stop` leaves nothing: no job, no record, and every ticket ever
      added cleaned up exactly once. */
  lemma StopRetiresAll(st: State)
    requires Safe(st) && st.running == []
    ensures var st' := StopAll(st);
      && st'.queue == [] && st'.running == [] && st'.records == map[] && st'.tasks == st.tasks
      && forall t: nat :: t < |st.tasks| ==> Cleanups(st'.log, t) == if st.tasks[t].hasCleanup then 1 else 0
  {
    var books :| Ledger(st, books);
    var books' := SafeStop(st, books);
    var st' := StopAll(st);
    assert Held(st') == multiset{};
    assert books'.Values == {};
    assert books'.Keys == {};
    assert st'.records.Keys == {};
  }

  lemma PopTickets(q: seq<Job>, t: nat)
    requires q != [] && forall j :: j in q ==> j.ticket != t
    ensures forall j :: j in Pop(JobCmp, q) ==> j.ticket != t
  {
    hide Pop;
    forall j | j in Pop(JobCmp, q) ensures j.ticket != t {
      assert j in multiset(Pop(JobCmp, q));
      assert j in multiset(q);
    }
  }

  lemma {:induction false} StopSpares(st: State, books: map<nat, Job>, t: nat)
    requires Ledger(st, books) && forall j :: j in st.queue ==> j.ticket != t
    ensures t in st.records ==> t in StopAll(st).records && StopAll(st).records[t] == st.records[t]
    decreases |st.queue|
  {
    hide Ledger, Pop, StopOne;
    if st.queue != [] {
      var books' := SafeStopOne(st, books);
      PopTickets(st.queue, t);
      StopSpares(StopOne(st), books', t);
    }
  }

  /** How often a running job returns. */
  ghost function Returns(steps: seq<Step>): nat {
    if steps == [] then 0 else (if steps[0].Finish? then 1 else 0) + Returns(steps[1..])
  }

  /** Running jobs return, time passes, and callbacks call nothing. */
  ghost predicate ReturnsOnly(steps: seq<Step>) {
    forall i :: 0 <= i < |steps| ==> steps[i].Finish? || (steps[i].Do? && steps[i].request.Elapse?)
  }

  /** The `n` innermost running jobs leave for good when they return. */
  ghost predicate InnermostRetire(st: State, n: nat) {
    forall i :: 0 <= i < |st.running| && i >= |st.running| - n ==> Retires(st, st.running[i].job)
  }

  lemma {:induction false} StackMember(running: seq<Running>, i: nat)
    requires i < |running|
    ensures running[i].job in Stacked(running)
    decreases |running|
  {
    if i < |running| - 1 {
      StackMember(running[..|running| - 1], i);
    }
  }

  /** The other running jobs stay as they are when the innermost one returns. */
  lemma OthersStay(st: State, books: map<nat, Job>, took: nat, i: nat)
    requires Ledger(st, books) && i < |st.running| - 1
    ensures Retires(FinishJob(st, took), st.running[i].job) <==> Retires(st, st.running[i].job)
  {
    hide Push, FinishJob, Ledger, Held, Stacked;
    FinishMeaning(st, books, took);
    StackMember(Popped(st).running, i);
    assert st.running[i].job in Held(Popped(st)) by { InHeld(Popped(st), st.running[i].job); }
    OthersDiffer(st, books, Held(Popped(st)), Innermost(st).job);
  }

  lemma InHeld(st: State, j: Job)
    requires j in Stacked(st.running)
    ensures j in Held(st)
  {
  }

  lemma ReturnEmpties(st: State, books: map<nat, Job>, took: nat, n: nat)
    requires Ledger(st, books)
    ensures var st' := FinishJob(st, took);
      st'.queue == [] && InnermostRetire(st', n) <==> st.queue == [] && InnermostRetire(st, n + 1)
  {
    hide Push, FinishJob, Ledger, Held, Stacked, Retires;
    if st.running != [] {
      FinishMeaning(st, books, took);
      var m, st' := |st.running| - 1, FinishJob(st, took);
      assert st'.queue == [] <==> st.queue == [] && Retires(st, st.running[m].job) by { PushFills(st); }
      forall i | 0 <= i < m ensures Retires(st', st.running[i].job) <==> Retires(st, st.running[i].job) {
        OthersStay(st, books, took, i);
      }
    } else {
      assert FinishJob(st, took) == st by { StackEmpty(st, took); }
    }
  }

  lemma PushFills(st: State)
    ensures forall job :: Push(JobCmp, st.queue, job) != []
  {
  }

  lemma StackEmpty(st: State, took: nat)
    requires st.running == []
    ensures FinishJob(st, took) == st
  {
  }

  lemma {:induction false} ReturnsEmpty(st: State, books: map<nat, Job>, steps: seq<Step>)
    requires Ledger(st, books) && ReturnsOnly(steps)
    ensures Exec(st, steps).queue == [] <==> st.queue == [] && InnermostRetire(st, Returns(steps))
    decreases |steps|
  {
    hide FinishJob, Ledger, Retires;
    if steps != [] {
      var books' := SafeStep(st, books, steps[0]);
      assert forall i :: 0 <= i < |steps[1..]| ==> steps[1..][i] == steps[i + 1];
      ReturnsEmpty(Next(st, steps[0]), books', steps[1..]);
      if steps[0].Finish? {
        ReturnEmpties(st, books, steps[0].took, Returns(steps[1..]));
      } else {
        ElapseRetires(st, steps[0].request.ms, Returns(steps[1..]));
      }
    }
  }

  lemma ElapseRetires(st: State, ms: nat, n: nat)
    ensures InnermostRetire(Serve(st, Elapse(ms)), n) <==> InnermostRetire(st, n)
  {
  }

  /** `stop` changes nothing about a running job. */
  lemma StopSparesRunning(st: State, books: map<nat, Job>, i: nat)
    requires Ledger(st, books) && i < |st.running|
    ensures Retires(StopAll(st), st.running[i].job) <==> Retires(st, st.running[i].job)
  {
    hide Push, Pop, Owned, Lists, Stacked;
    var job := st.running[i].job;
    StackMember(st.running, i);
    assert job in Held(st);
    Entry(st, books, job);
    forall j | j in st.queue ensures j.ticket != job.ticket {
      assert j in multiset(st.queue);
      Entry(st, books, j);
    }
    StopSpares(st, books, job.ticket);
    StopSparesNoRecord(st, books, job.ticket);
  }

  lemma StopSparesNoRecord(st: State, books: map<nat, Job>, t: nat)
    requires Ledger(st, books)
    ensures t in StopAll(st).records ==> t in st.records
    decreases |st.queue|
  {
    hide Ledger, Pop, StopOne;
    if st.queue != [] {
      var books' := SafeStopOne(st, books);
      StopSparesNoRecord(StopOne(st), books', t);
    }
  }

  /** Called from inside callbacks, `stop` purges all queued jobs, but not the running ones.  If
      nothing more is called and then the innermost `n` running jobs return, the queue is empty if
      and only if each of these is a one-time job, on its last run, or cannot be put back. */
  lemma StopInsideCallback(st: State, steps: seq<Step>)
    requires Safe(st) && ReturnsOnly(steps)
    ensures Exec(StopAll(st), steps).queue == [] <==> InnermostRetire(st, Returns(steps))
  {
    hide Ledger, Retires;
    var books :| Ledger(st, books);
    var books' := SafeStop(st, books);
    ReturnsEmpty(StopAll(st), books', steps);
    forall i | 0 <= i < |st.running|
      ensures Retires(StopAll(st), st.running[i].job) <==> Retires(st, st.running[i].job)
    {
      StopSparesRunning(st, books, i);
    }
  }

  /** An interval job whose callback stops the scheduler. */
  const STOPPING_STEPS := [Do(AddInterval(true, true, 0, 0, 0, 5, 0)), Begin(true, 0), Do(Stop), Finish(0)]

  /** It is queued again afterwards, for the next interval. */
  lemma StopCanKeepAJob()
    ensures Exec(INIT, STOPPING_STEPS).queue == [Job(Interval, 0, 5, 0, 0, LASTTIME)]
  {
    var s := STOPPING_STEPS;
    var st1 := Next(INIT, s[0]);
    var st2 := Next(st1, s[1]);
    StoppedInside();
    hide Next;
    assert s[1..][1..] == s[2..] && s[2..][1..] == s[3..] && s[3..][1..] == [];
    assert Exec(INIT, s) == Exec(st1, s[1..]) == Exec(st2, s[2..]);
    assert Exec(st2, s[2..]) == Exec(st2, s[3..]) == Exec(Next(st2, s[3]), []);
  }

  lemma StoppedInside()
    ensures var st1 := Next(INIT, STOPPING_STEPS[0]);
      var st2 := Next(st1, STOPPING_STEPS[1]);
      Next(st2, Do(Stop)) == st2 && Next(st2, Finish(0)).queue == [Job(Interval, 0, 5, 0, 0, LASTTIME)]
  {
    var job, back := Job(Interval, 0, 0, 0, 0, LASTTIME), Job(Interval, 0, 5, 0, 0, LASTTIME);
    PushFirst(JobCmp, job);
    PushFirst(JobCmp, back);
    PopOnly(JobCmp, job);
    hide Push, Pop, JobCmp;
  }
}
