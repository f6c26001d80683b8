/** The scheduler of src/scheduler.c as a machine over values.

    User callbacks are the environment: between the start and the end of a job any calls may
    happen, so a run is a list of atomic steps.  `log` is the trace of what the scheduler does
    to the outside, and `tasks` remembers what each add call asked for. */
module SchedulerModel {
  import opened HeapOrder
  import opened JobOrder

  const UINT_MAX: nat := 0xFFFF_FFFF

  /** An `interval_job_t`; `attached` is false when it names no scheduler. */
  datatype IntervalJob = IntervalJob(attached: bool, hasFunction: bool, hasCleanup: bool,
    interval: nat, ntimes: nat, nice: nat, average: nat, called: nat)

  /** A job on the C stack: popped, its function entered when the clock showed `timer`. */
  datatype Running = Running(job: Job, timer: nat)

  /** What an add call asked for.  `times` is 0 for a job that recurs for ever. */
  datatype Task = Task(kind: Kind, hasFunction: bool, hasCleanup: bool,
    due: nat, estimate: nat, nice: nat, interval: nat, times: nat)

  datatype Event =
    | Started(ticket: nat, arrival: nat, at: nat) // popped, its function about to be entered
    | Called(ticket: nat)                         // the user's function
    | Requeued(ticket: nat, at: nat)              // put back by `interval_function`
    | Measured(ticket: nat, took: nat)            // a duration that entered the running average
    | Cleaned(ticket: nat)                        // the user's cleanup
    | Dangling(ticket: nat)                       // an `interval_job_t` used after it was freed

  datatype State = State(
    clock: nat,
    queue: seq<Job>,                  // the heap's array
    running: seq<Running>,            // innermost last
    records: map<nat, IntervalJob>,   // the live `interval_job_t`s, by ticket
    tasks: seq<Task>,
    log: seq<Event>)

  const INIT := State(0, [], [], map[], [], [])

  /** A call that does not run jobs. */
  datatype Request =
    | Elapse(ms: nat) // not a call: time passes
    | Add(hasFunction: bool, hasCleanup: bool, fromNow: nat, estimate: nat, nice: nat)
    | AddInterval(hasFunction: bool, hasCleanup: bool, fromNow: nat, estimate: nat, nice: nat,
        interval: nat, ntimes: nat)
    | Stop

  /** `Begin` is `run_single` up to the entry of the user's function, `Finish` the rest of it. */
  datatype Step =
    | Do(request: Request)
    | Begin(sleepOk: bool, delay: nat)
    | Finish(took: nat)

  // ---------- Adding ----------

  function SchedulerAdd(st: State, kind: Kind, ticket: nat, fromNow: nat, estimate: nat, nice: nat, tag: Tag): State {
    st.(queue := Push(JobCmp, st.queue, Job(kind, ticket, st.clock + fromNow, estimate, nice, tag)))
  }

  function AddOneShot(st: State, hasFunction: bool, hasCleanup: bool, fromNow: nat, estimate: nat, nice: nat): State {
    var kind := OneShot(hasFunction, hasCleanup);
    var task := Task(kind, hasFunction, hasCleanup, st.clock + fromNow, estimate, nice, 0, 1);
    SchedulerAdd(st.(tasks := st.tasks + [task]), kind, |st.tasks|, fromNow, estimate, nice, FIRSTTIME)
  }

  /** The tag that goes with the number of invocations left. */
  function TagFor(ntimes: nat): Tag {
    if ntimes == 1 then FIRSTTIME else LASTTIME
  }

  function AddRecurring(st: State, hasFunction: bool, hasCleanup: bool, fromNow: nat, estimate: nat, nice: nat,
      interval: nat, ntimes: nat): State
  {
    var ticket := |st.tasks|;
    var task := Task(Interval, hasFunction, hasCleanup, st.clock + fromNow, estimate, nice, interval, ntimes);
    var record := IntervalJob(true, hasFunction, hasCleanup, interval, ntimes, nice, estimate, 1);
    var st1 := st.(tasks := st.tasks + [task], records := st.records[ticket := record]);
    SchedulerAdd(st1, Interval, ticket, fromNow, estimate, nice, TagFor(ntimes))
  }

  // ---------- Cleaning up ----------

  function Log(st: State, e: Event): State {
    st.(log := st.log + [e])
  }

  /** `interval_cleanup`: the user's cleanup, then the record is freed. */
  function IntervalCleanup(st: State, ticket: nat): State {
    if ticket !in st.records then Log(st, Dangling(ticket))
    else
      var st1 := if st.records[ticket].hasCleanup then Log(st, Cleaned(ticket)) else st;
      st1.(records := st1.records - {ticket})
  }

  /** `job->cleanup(job->private_data)`, if there is one. */
  function Cleanup(st: State, job: Job): State {
    match job.kind
    case OneShot(_, hasCleanup) => if hasCleanup then Log(st, Cleaned(job.ticket)) else st
    case Interval => IntervalCleanup(st, job.ticket)
  }

  /** One round of the loop in `lothar_scheduler_stop`. */
  function StopOne(st: State): (st': State)
    requires st.queue != []
    ensures |st'.queue| < |st.queue|
  {
    var job := st.queue[0];
    var st1 := st.(queue := Pop(JobCmp, st.queue));
    if job.tag != NEVER then Cleanup(st1, job) else st1
  }

  function StopAll(st: State): State
    decreases |st.queue|
  {
    if st.queue == [] then st else StopAll(StopOne(st))
  }

  // ---------- Running ----------

  /** Whether `run_single` gets as far as running a job. */
  predicate CanBegin(st: State, sleepOk: bool) {
    st.queue != [] && (sleepOk || st.queue[0].arrival <= st.clock)
  }

  /** Whether the user's function behind a job is not NULL. */
  predicate HasFunction(st: State, job: Job) {
    match job.kind
    case OneShot(hasFunction, _) => hasFunction
    case Interval => job.ticket in st.records && st.records[job.ticket].hasFunction
  }

  /** Sleep until the first job is due, pop it and enter its function.  `delay` is the time from
      there to the entry, oversleeping included. */
  function BeginJob(st: State, sleepOk: bool, delay: nat): State {
    if !CanBegin(st, sleepOk) then st
    else
      var job := st.queue[0];
      var now := (if job.arrival > st.clock then job.arrival else st.clock) + delay;
      var st1 := Log(st.(clock := now, queue := Pop(JobCmp, st.queue), running := st.running + [Running(job, now)]),
                     Started(job.ticket, job.arrival, now));
      var st2 := if job.kind.Interval? && job.ticket !in st.records then Log(st1, Dangling(job.ticket)) else st1;
      if HasFunction(st2, job) then Log(st2, Called(job.ticket)) else st2
  }

  /** The new running average over `called + 1` samples, truncated. */
  function Averaged(average: nat, called: nat, took: nat): nat {
    (average * called + took) / (called + 1)
  }

  function Since(timer: nat, clock: nat): nat {
    if timer <= clock then clock - timer else 0
  }

  /** The part of `interval_function` that follows the user's function. `took` is the time
      that putting the job back takes. */
  function IntervalReturn(st: State, ticket: nat, timer: nat, took: nat): State {
    if ticket !in st.records then Log(st, Dangling(ticket))
    else
      var record := st.records[ticket];
      if record.ntimes == 1 then st
      else
        var ntimes := if record.ntimes > 0 then record.ntimes - 1 else 0;
        var st1 := st.(records := st.records[ticket := record.(ntimes := ntimes)]);
        if !record.attached then IntervalCleanup(st1, ticket)
        else
          Measure(Requeue(st1, ticket), ticket, timer, took)
  }

  function Requeue(st: State, ticket: nat): State
    requires ticket in st.records
  {
    var record := st.records[ticket];
    Log(SchedulerAdd(st, Interval, ticket, record.interval, record.average, record.nice, TagFor(record.ntimes)),
        Requeued(ticket, st.clock))
  }

  function Measure(st: State, ticket: nat, timer: nat, took: nat): State
    requires ticket in st.records
  {
    var st1 := st.(clock := st.clock + took);
    var record := st1.records[ticket];
    if record.called < UINT_MAX then
      var d := Since(timer, st1.clock);
      Log(st1.(records := st1.records[ticket := record.(
            average := Averaged(record.average, record.called, d), called := record.called + 1)]),
          Measured(ticket, d))
    else st1
  }

  /** The innermost running job returns, is cleaned up if this was its last run, and is freed. */
  function FinishJob(st: State, took: nat): State {
    if st.running == [] then st
    else
      var r := st.running[|st.running| - 1];
      var st1 := st.(running := st.running[..|st.running| - 1]);
      var st2 := if r.job.kind.Interval? then IntervalReturn(st1, r.job.ticket, r.timer, took) else st1;
      if r.job.tag == FIRSTTIME then Cleanup(st2, r.job) else st2
  }

  // ---------- Runs ----------

  function Serve(st: State, request: Request): State {
    match request
    case Elapse(ms) => st.(clock := st.clock + ms)
    case Add(hasFunction, hasCleanup, fromNow, estimate, nice) =>
      AddOneShot(st, hasFunction, hasCleanup, fromNow, estimate, nice)
    case AddInterval(hasFunction, hasCleanup, fromNow, estimate, nice, interval, ntimes) =>
      AddRecurring(st, hasFunction, hasCleanup, fromNow, estimate, nice, interval, ntimes)
    case Stop => StopAll(st)
  }

  function Next(st: State, step: Step): State {
    match step
    case Do(request) => Serve(st, request)
    case Begin(sleepOk, delay) => BeginJob(st, sleepOk, delay)
    case Finish(took) => FinishJob(st, took)
  }

  function Exec(st: State, steps: seq<Step>): State
    decreases |steps|
  {
    if steps == [] then st else Exec(Next(st, steps[0]), steps[1..])
  }

  lemma {:induction false} ExecConcat(st: State, a: seq<Step>, b: seq<Step>)
    ensures Exec(st, a + b) == Exec(Exec(st, a), b)
    decreases |a|
  {
    if a == [] {
      assert a + b == b;
    } else {
      assert (a + b)[1..] == a[1..] + b;
      ExecConcat(Next(st, a[0]), a[1..], b);
    }
  }

  lemma ExecLast(st: State, steps: seq<Step>)
    requires steps != []
    ensures Exec(st, steps) == Next(Exec(st, steps[..|steps| - 1]), steps[|steps| - 1])
  {
    hide Next;
    var n := |steps| - 1;
    assert steps == steps[..n] + [steps[n]] && [steps[n]][1..] == [];
    ExecConcat(st, steps[..n], [steps[n]]);
  }

  // ---------- Calls of the interface ----------

  datatype Call =
    | Plain(request: Request)
    | RunSingle(round: Round)

  /** All that the environment answers while `run_single` runs: whether the sleep succeeds, the
      delays, and the calls that the job's callback makes. */
  datatype Round = Round(sleepOk: bool, delay: nat, script: seq<Call>, took: nat)

  function Perform(st: State, call: Call): State
    decreases call
  {
    match call
    case Plain(request) => Serve(st, request)
    case RunSingle(round) => PerformRound(st, round)
  }

  function PerformRound(st: State, round: Round): State
    decreases round
  {
    if !CanBegin(st, round.sleepOk) then st
    else
      var st1 := BeginJob(st, round.sleepOk, round.delay);
      var st2 := if HasFunction(st, st.queue[0]) then PerformAll(st1, round.script) else st1;
      FinishJob(st2, round.took)
  }

  function PerformAll(st: State, script: seq<Call>): State
    decreases script
  {
    if script == [] then st else PerformAll(Perform(st, script[0]), script[1..])
  }

  /** What `run_single` returns: 0, or the error of the sleep. */
  function Status(st: State, round: Round): int {
    if st.queue == [] || CanBegin(st, round.sleepOk) then 0 else -1
  }

  datatype Outcome = Outcome(state: State, status: int, rounds: nat)

  /** `lothar_scheduler_run`, watched for as many rounds as the list has. */
  function RunAll(st: State, rounds: seq<Round>): Outcome
    decreases |rounds|
  {
    if st.queue == [] || rounds == [] then Outcome(st, 0, 0)
    else if Status(st, rounds[0]) < 0 then Outcome(st, Status(st, rounds[0]), 1)
    else
      var rest := RunAll(PerformRound(st, rounds[0]), rounds[1..]);
      rest.(rounds := rest.rounds + 1)
  }

  /** The atomic steps of a call. */
  function Steps(st: State, call: Call): seq<Step>
    decreases call
  {
    match call
    case Plain(request) => [Do(request)]
    case RunSingle(round) => StepsOfRound(st, round)
  }

  function StepsOfRound(st: State, round: Round): seq<Step>
    decreases round
  {
    if !CanBegin(st, round.sleepOk) then []
    else
      var inner := if HasFunction(st, st.queue[0])
                   then StepsOfAll(BeginJob(st, round.sleepOk, round.delay), round.script) else [];
      [Begin(round.sleepOk, round.delay)] + inner + [Finish(round.took)]
  }

  function StepsOfAll(st: State, script: seq<Call>): seq<Step>
    decreases script
  {
    if script == [] then [] else Steps(st, script[0]) + StepsOfAll(Perform(st, script[0]), script[1..])
  }

  /** Every call, with all that happens inside its callbacks, is a run of atomic steps, so what
      holds over all runs holds at every point of every use of the interface. */
  lemma {:induction false} CallIsRun(st: State, call: Call)
    ensures Perform(st, call) == Exec(st, Steps(st, call))
    decreases call
  {
    match call
    case Plain(request) =>
      assert Exec(Serve(st, request), [Do(request)][1..]) == Serve(st, request);
    case RunSingle(round) => RoundIsRun(st, round);
  }

  lemma {:induction false} RoundIsRun(st: State, round: Round)
    ensures PerformRound(st, round) == Exec(st, StepsOfRound(st, round))
    decreases round
  {
    hide BeginJob, FinishJob;
    if CanBegin(st, round.sleepOk) {
      var begin, finish := [Begin(round.sleepOk, round.delay)], [Finish(round.took)];
      var st1 := BeginJob(st, round.sleepOk, round.delay);
      var inner := if HasFunction(st, st.queue[0]) then StepsOfAll(st1, round.script) else [];
      ScriptIsRun(st1, round.script);
      ExecConcat(st, begin + inner, finish);
      ExecConcat(st, begin, inner);
      assert begin[1..] == [] && finish[1..] == [];
    }
  }

  lemma {:induction false} ScriptIsRun(st: State, script: seq<Call>)
    ensures PerformAll(st, script) == Exec(st, StepsOfAll(st, script))
    decreases script
  {
    if script != [] {
      CallIsRun(st, script[0]);
      ScriptIsRun(Perform(st, script[0]), script[1..]);
      ExecConcat(st, Steps(st, script[0]), StepsOfAll(Perform(st, script[0]), script[1..]));
    }
  }

  function StepsOfRun(st: State, rounds: seq<Round>): seq<Step>
    decreases |rounds|
  {
    if st.queue == [] || rounds == [] || Status(st, rounds[0]) < 0 then []
    else StepsOfRound(st, rounds[0]) + StepsOfRun(PerformRound(st, rounds[0]), rounds[1..])
  }

  lemma {:induction false} RunAllIsRun(st: State, rounds: seq<Round>)
    ensures RunAll(st, rounds).state == Exec(st, StepsOfRun(st, rounds))
    decreases |rounds|
  {
    if !(st.queue == [] || rounds == [] || Status(st, rounds[0]) < 0) {
      var st1 := PerformRound(st, rounds[0]);
      RoundIsRun(st, rounds[0]);
      RunAllIsRun(st1, rounds[1..]);
      ExecConcat(st, StepsOfRound(st, rounds[0]), StepsOfRun(st1, rounds[1..]));
    }
  }
}
