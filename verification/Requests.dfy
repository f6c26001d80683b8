/** What the add calls of a run asked for. */
module Requests {
  import opened HeapOrder
  import opened JobOrder
  import opened SchedulerModel
  import opened Ownership
  import opened Tickets

  predicate IsAdd(step: Step) {
    step.Do? && (step.request.Add? || step.request.AddInterval?)
  }

  /** The number of add calls. */
  ghost function Adds(steps: seq<Step>): nat {
    if steps == [] then 0
    else Adds(steps[..|steps| - 1]) + if IsAdd(steps[|steps| - 1]) then 1 else 0
  }

  /** Where in the run the add call number `t` is made. */
  ghost function AddedAt(steps: seq<Step>, t: nat): (k: nat)
    requires t < Adds(steps)
    ensures k < |steps| && IsAdd(steps[k]) && Adds(steps[..k]) == t
  {
    var n := |steps| - 1;
    if IsAdd(steps[n]) && Adds(steps[..n]) == t then n
    else
      var k := AddedAt(steps[..n], t);
      assert steps[..n][..k] == steps[..k];
      k
  }

  ghost function RequestOf(steps: seq<Step>, t: nat): (r: Request)
    requires t < Adds(steps)
    ensures r.Add? || r.AddInterval?
  {
    steps[AddedAt(steps, t)].request
  }

  /** The time of that call. */
  ghost function AddTime(steps: seq<Step>, t: nat): nat
    requires t < Adds(steps)
  {
    Exec(INIT, steps[..AddedAt(steps, t)]).clock
  }

  ghost function DueTime(steps: seq<Step>, t: nat): nat
    requires t < Adds(steps)
  {
    AddTime(steps, t) + RequestOf(steps, t).fromNow
  }

  /** The interval asked for; a one-time job has none. */
  ghost function IntervalOf(request: Request): nat
    requires request.Add? || request.AddInterval?
  {
    if request.AddInterval? then request.interval else 0
  }

  /** The number of runs asked for; 0 stands for no end. */
  ghost function TimesOf(request: Request): nat
    requires request.Add? || request.AddInterval?
  {
    if request.AddInterval? then request.ntimes else 1
  }

  /** The task is the one asked for at that time. */
  ghost predicate AskedFor(task: Task, request: Request, clock: nat)
    requires request.Add? || request.AddInterval?
  {
    && task.hasFunction == request.hasFunction && task.hasCleanup == request.hasCleanup
    && task.due == clock + request.fromNow && task.estimate == request.estimate && task.nice == request.nice
    && task.interval == IntervalOf(request) && task.times == TimesOf(request)
    && task.kind == if request.AddInterval? then Interval else OneShot(request.hasFunction, request.hasCleanup)
  }

  /** What an add call does at once: one job enters the queue, and, if it is to recur, one record the
      table; both carry what was passed.  Nothing else changes but the list of tasks. */
  ghost predicate Enters(st: State, st': State, request: Request, job: Job, records: map<nat, IntervalJob>)
    requires request.Add? || request.AddInterval?
  {
    && st'.clock == st.clock && st'.running == st.running && st'.log == st.log
    && |st'.tasks| == |st.tasks| + 1 && st'.tasks[..|st.tasks|] == st.tasks
    && AskedFor(st'.tasks[|st.tasks|], request, st.clock)
    && multiset(st'.queue) == multiset(st.queue) + multiset{job}
    && st'.records == records
  }

  lemma OneShotEnters(st: State, hasFunction: bool, hasCleanup: bool, fromNow: nat, estimate: nat, nice: nat)
    ensures var request := Add(hasFunction, hasCleanup, fromNow, estimate, nice);
      var kind, t := OneShot(hasFunction, hasCleanup), |st.tasks|;
      Enters(st, Serve(st, request), request,
             Job(kind, t, st.clock + fromNow, estimate, nice, FIRSTTIME), st.records)
  {
    hide Push;
  }

  lemma RecurringEnters(st: State, hasFunction: bool, hasCleanup: bool, fromNow: nat, estimate: nat, nice: nat,
      interval: nat, ntimes: nat)
    ensures var request := AddInterval(hasFunction, hasCleanup, fromNow, estimate, nice, interval, ntimes);
      var tag, t := if ntimes == 1 then FIRSTTIME else LASTTIME, |st.tasks|;
      Enters(st, Serve(st, request), request,
             Job(Interval, t, st.clock + fromNow, estimate, nice, tag),
             st.records[t := IntervalJob(true, hasFunction, hasCleanup, interval, ntimes, nice, estimate, 1)])
  {
    hide Push;
  }

  /** Over any run, the tickets are those of the add calls, in order, and the task of each is exactly
      what its call passed: the kind, function and cleanup, the due time counted from the call, the
      estimate, the nice value, the interval and the number of runs. */
  lemma {:induction false} TasksAsAsked(steps: seq<Step>)
    ensures var tasks := Exec(INIT, steps).tasks;
      && |tasks| == Adds(steps)
      && forall t: nat {:trigger tasks[t]} :: t < |tasks| ==>
           AskedFor(tasks[t], RequestOf(steps, t), AddTime(steps, t))
    decreases |steps|
  {
    hide AskedFor, Next;
    if steps != [] {
      var n := |steps| - 1;
      var st := Exec(INIT, steps[..n]);
      TasksAsAsked(steps[..n]);
      ExecLast(INIT, steps);
      InitSafe();
      SafeRun(INIT, steps[..n]);
      StepTasks(st, steps[n]);
      var tasks := Exec(INIT, steps).tasks;
      forall t: nat | t < |tasks| ensures AskedFor(tasks[t], RequestOf(steps, t), AddTime(steps, t)) {
        if t < |st.tasks| {
          EarlierAdd(steps, t);
          assert tasks[t] == st.tasks[t];
        }
      }
    }
  }

  /** An add call keeps its place when the run goes on. */
  lemma EarlierAdd(steps: seq<Step>, t: nat)
    requires steps != [] && t < Adds(steps[..|steps| - 1])
    ensures t < Adds(steps) && AddedAt(steps, t) == AddedAt(steps[..|steps| - 1], t)
    ensures RequestOf(steps, t) == RequestOf(steps[..|steps| - 1], t)
    ensures AddTime(steps, t) == AddTime(steps[..|steps| - 1], t)
  {
    var n := |steps| - 1;
    var k := AddedAt(steps[..n], t);
    assert steps[..n][..k] == steps[..k];
  }

  lemma StepTasks(st: State, step: Step)
    requires Safe(st)
    ensures var tasks := Next(st, step).tasks;
      if IsAdd(step) then
        && |tasks| == |st.tasks| + 1 && tasks[..|st.tasks|] == st.tasks
        && AskedFor(tasks[|st.tasks|], step.request, st.clock)
      else tasks == st.tasks
  {
    hide Ledger, BeginJob, FinishJob, StopAll, AskedFor;
    if IsAdd(step) {
      match step.request
      case Add(hasFunction, hasCleanup, fromNow, estimate, nice) =>
        OneShotEnters(st, hasFunction, hasCleanup, fromNow, estimate, nice);
      case AddInterval(hasFunction, hasCleanup, fromNow, estimate, nice, interval, ntimes) =>
        RecurringEnters(st, hasFunction, hasCleanup, fromNow, estimate, nice, interval, ntimes);
    } else {
      var books :| Ledger(st, books);
      TasksKept(st, books, step);
    }
  }
}
