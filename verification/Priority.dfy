/** Which job runs next. */
module Priority {
  import opened HeapOrder
  import opened JobOrder
  import opened PriorityQueue
  import opened SchedulerModel
  import opened Ownership
  import opened Tickets

  /** All jobs that are in the queue at some point of a run. */
  ghost function EverQueued(st: State, steps: seq<Step>): set<Job>
    decreases |steps|
  {
    Items(st.queue) + if steps == [] then {} else EverQueued(Next(st, steps[0]), steps[1..])
  }

  lemma PushOrdered(q: seq<Job>, job: Job)
    requires HeapOrdered(JobCmp, q) && PreorderOn(JobCmp, Items(q) + Items(Push(JobCmp, q, job)))
    ensures HeapOrdered(JobCmp, Push(JobCmp, q, job))
  {
    hide Push, HeapOrdered;
    assert job in multiset(Push(JobCmp, q, job));
    assert job in Items(Push(JobCmp, q, job));
    PreorderOnSubset(JobCmp, Items(q) + Items(Push(JobCmp, q, job)), Items(q) + {job});
    PushKeepsOrder(JobCmp, q, job);
  }

  lemma PopOrdered(q: seq<Job>)
    requires q != [] && HeapOrdered(JobCmp, q) && PreorderOn(JobCmp, Items(q))
    ensures HeapOrdered(JobCmp, Pop(JobCmp, q))
  {
    PopKeepsOrder(JobCmp, q);
  }

  lemma StepOrdered(st: State, books: map<nat, Job>, step: Step)
    requires Ledger(st, books) && HeapOrdered(JobCmp, st.queue)
    requires PreorderOn(JobCmp, Items(st.queue) + Items(Next(st, step).queue))
    ensures HeapOrdered(JobCmp, Next(st, step).queue)
  {
    hide Ledger, Push, Pop, PreorderOn, HeapOrdered, FinishJob, BeginJob, StopAll;
    PreorderOnPart(Items(st.queue), Items(Next(st, step).queue));
    match step
    case Do(request) =>
      if request.Stop? {
        var books' := SafeStop(st, books);
        EmptyOrdered();
      } else if !request.Elapse? {
        PushOrdered(st.queue, NewJob(st, request));
      }
    case Begin(sleepOk, delay) =>
      SafeBegin(st, books, sleepOk, delay);
      if CanBegin(st, sleepOk) {
        PopOrdered(st.queue);
      }
    case Finish(took) => FinishOrdered(st, books, took);
  }

  lemma EmptyOrdered()
    ensures HeapOrdered(JobCmp, [])
  {
  }

  lemma FinishOrdered(st: State, books: map<nat, Job>, took: nat)
    requires Ledger(st, books) && HeapOrdered(JobCmp, st.queue)
    requires PreorderOn(JobCmp, Items(st.queue) + Items(FinishJob(st, took).queue))
    ensures HeapOrdered(JobCmp, FinishJob(st, took).queue)
  {
    hide Ledger, Push, Pop, PreorderOn, HeapOrdered, FinishJob, Retires;
    if st.running == [] {
      FinishIdle(st, took);
    } else {
      FinishMeaning(st, books, took);
      var job := Innermost(st).job;
      if !Retires(st, job) {
        var record := BackRecord(st, job);
        PushOrdered(st.queue, BackJob(st.clock, job.ticket, record));
      }
    }
  }

  lemma PreorderOnPart(part: set<Job>, other: set<Job>)
    requires PreorderOn(JobCmp, part + other)
    ensures PreorderOn(JobCmp, part)
  {
    PreorderOnSubset(JobCmp, part + other, part);
  }

  lemma {:induction false} RunOrdered(st: State, books: map<nat, Job>, steps: seq<Step>)
    requires Ledger(st, books) && HeapOrdered(JobCmp, st.queue)
    requires PreorderOn(JobCmp, EverQueued(st, steps))
    ensures HeapOrdered(JobCmp, Exec(st, steps).queue)
    ensures PreorderOn(JobCmp, Items(Exec(st, steps).queue))
    decreases |steps|
  {
    hide Ledger, HeapOrdered, Next, PreorderOn;
    if steps == [] {
      assert Items(st.queue) + {} == Items(st.queue);
    } else {
      var st' := Next(st, steps[0]);
      var later := EverQueued(st', steps[1..]);
      PreorderOnSubset(JobCmp, Items(st.queue) + later, Items(st.queue) + Items(st'.queue));
      PreorderOnSubset(JobCmp, Items(st.queue) + later, later);
      StepOrdered(st, books, steps[0]);
      var books' := SafeStep(st, books, steps[0]);
      RunOrdered(st', books', steps[1..]);
    }
  }

  /** In any run, of any calls in any nesting, in which no three of the jobs that were ever queued
      are cyclic, the job that is started next is one that no queued job beats. */
  lemma ServesByPriority(steps: seq<Step>, delay: nat)
    requires var jobs := EverQueued(INIT, steps);
      !exists x, y, z :: x in jobs && y in jobs && z in jobs && Cyclic(x, y, z)
    requires Exec(INIT, steps).queue != []
    ensures var st := Exec(INIT, steps);
      var running := BeginJob(st, true, delay).running;
      && |running| == |st.running| + 1
      && running[|st.running|].job in st.queue
      && forall j :: j in st.queue ==> JobCmp(j, running[|st.running|].job) <= 0
  {
    hide Cyclic, HeapOrdered, PreorderOn, Pop;
    var st := Exec(INIT, steps);
    JobCmpPreorderIff(EverQueued(INIT, steps));
    InitLedger();
    RunOrdered(INIT, map[], steps);
    PopKeepsOrder(JobCmp, st.queue);
  }

  lemma InitLedger()
    ensures Ledger(INIT, map[]) && HeapOrdered(JobCmp, INIT.queue)
  {
  }
}
