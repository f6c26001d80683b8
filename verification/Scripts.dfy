/** What callbacks call, and what runs leave alone. */
module Scripts {
  import opened HeapOrder
  import opened JobOrder
  import opened SchedulerModel
  import RunCount

  // ---------- Restricted callbacks ----------

  /** The call, and all that callbacks call while it runs, makes only requests of this kind. */
  ghost predicate CallOnly(call: Call, kind: Request -> bool)
    decreases call
  {
    match call
    case Plain(request) => kind(request)
    case RunSingle(round) => RoundOnly(round, kind)
  }

  ghost predicate RoundOnly(round: Round, kind: Request -> bool)
    decreases round
  {
    ScriptOnly(round.script, kind)
  }

  ghost predicate ScriptOnly(script: seq<Call>, kind: Request -> bool)
    decreases script
  {
    script == [] || (CallOnly(script[0], kind) && ScriptOnly(script[1..], kind))
  }

  ghost predicate StepsOnly(steps: seq<Step>, kind: Request -> bool) {
    forall i :: 0 <= i < |steps| && steps[i].Do? ==> kind(steps[i].request)
  }

  /** Not an add call. */
  predicate AddsNothing(request: Request) {
    !request.Add? && !request.AddInterval?
  }

  /** Not a call of `stop`. */
  predicate StopsNothing(request: Request) {
    !request.Stop?
  }

  lemma {:induction false} CallStepsOnly(st: State, call: Call, kind: Request -> bool)
    requires CallOnly(call, kind)
    ensures StepsOnly(Steps(st, call), kind)
    decreases call
  {
    match call
    case Plain(request) =>
    case RunSingle(round) => RoundStepsOnly(st, round, kind);
  }

  lemma {:induction false} RoundStepsOnly(st: State, round: Round, kind: Request -> bool)
    requires RoundOnly(round, kind)
    ensures StepsOnly(StepsOfRound(st, round), kind)
    decreases round
  {
    hide BeginJob;
    if CanBegin(st, round.sleepOk) {
      ScriptStepsOnly(BeginJob(st, round.sleepOk, round.delay), round.script, kind);
    }
  }

  lemma {:induction false} ScriptStepsOnly(st: State, script: seq<Call>, kind: Request -> bool)
    requires ScriptOnly(script, kind)
    ensures StepsOnly(StepsOfAll(st, script), kind)
    decreases script
  {
    hide Perform;
    if script != [] {
      CallStepsOnly(st, script[0], kind);
      ScriptStepsOnly(Perform(st, script[0]), script[1..], kind);
    }
  }

  lemma {:induction false} RunStepsOnly(st: State, rounds: seq<Round>, kind: Request -> bool)
    requires forall i :: 0 <= i < |rounds| ==> RoundOnly(rounds[i], kind)
    ensures StepsOnly(StepsOfRun(st, rounds), kind)
    decreases |rounds|
  {
    hide PerformRound, RoundOnly;
    if !(st.queue == [] || rounds == [] || Status(st, rounds[0]) < 0) {
      RoundStepsOnly(st, rounds[0], kind);
      RunStepsOnly(PerformRound(st, rounds[0]), rounds[1..], kind);
    }
  }

  // ---------- The log ----------

  /** One event more. */
  lemma LogOne(log: seq<Event>, e: Event)
    ensures log <= log + [e]
    ensures RunCount.Starts(log + [e]) == RunCount.Starts(log) + if e.Started? then 1 else 0
  {
    RunCount.CountAppend(log, e);
  }

  /** The log grew, by so many starts. */
  ghost predicate Grown(log: seq<Event>, log': seq<Event>, starts: nat) {
    log <= log' && RunCount.Starts(log') == RunCount.Starts(log) + starts
  }

  lemma CleanupGrows(st: State, job: Job)
    ensures Grown(st.log, Cleanup(st, job).log, 0)
  {
    LogOne(st.log, Cleaned(job.ticket));
    LogOne(st.log, Dangling(job.ticket));
  }

  lemma IntervalReturnGrows(st: State, ticket: nat, timer: nat, took: nat)
    ensures Grown(st.log, IntervalReturn(st, ticket, timer, took).log, 0)
  {
    hide Push, Averaged;
    LogOne(st.log, Cleaned(ticket));
    LogOne(st.log, Dangling(ticket));
    LogOne(st.log, Requeued(ticket, st.clock));
    LogOne(st.log + [Requeued(ticket, st.clock)], Measured(ticket, Since(timer, st.clock + took)));
  }

  lemma FinishGrows(st: State, took: nat)
    ensures Grown(st.log, FinishJob(st, took).log, 0)
  {
    hide IntervalReturn, Cleanup;
    if st.running != [] {
      var r := st.running[|st.running| - 1];
      var st1 := st.(running := st.running[..|st.running| - 1]);
      IntervalReturnGrows(st1, r.job.ticket, r.timer, took);
      var st2 := if r.job.kind.Interval? then IntervalReturn(st1, r.job.ticket, r.timer, took) else st1;
      CleanupGrows(st2, r.job);
    }
  }

  lemma {:induction false} StopGrows(st: State)
    ensures Grown(st.log, StopAll(st).log, 0)
    decreases |st.queue|
  {
    hide Pop, Cleanup;
    if st.queue != [] {
      CleanupGrows(st.(queue := Pop(JobCmp, st.queue)), st.queue[0]);
      StopGrows(StopOne(st));
    }
  }

  lemma BeginGrows(st: State, sleepOk: bool, delay: nat)
    ensures Grown(st.log, BeginJob(st, sleepOk, delay).log, if CanBegin(st, sleepOk) then 1 else 0)
  {
    hide Pop;
    if CanBegin(st, sleepOk) {
      var job, st' := st.queue[0], BeginJob(st, sleepOk, delay);
      var started := Started(job.ticket, job.arrival, st'.clock);
      var log1 := st.log + [started];
      LogOne(st.log, started);
      LogOne(log1, Called(job.ticket));
      LogOne(log1, Dangling(job.ticket));
      LogOne(log1 + [Dangling(job.ticket)], Called(job.ticket));
    }
  }

  /** A step adds to the log, and a start to it exactly when it begins a job. */
  lemma StepGrows(st: State, step: Step)
    ensures Grown(st.log, Next(st, step).log, if step.Begin? && CanBegin(st, step.sleepOk) then 1 else 0)
  {
    hide Push, BeginJob, FinishJob, StopAll;
    match step
    case Do(request) => StopGrows(st);
    case Begin(sleepOk, delay) => BeginGrows(st, sleepOk, delay);
    case Finish(took) => FinishGrows(st, took);
  }

  ghost function Begins(steps: seq<Step>): nat {
    if steps == [] then 0 else (if steps[0].Begin? then 1 else 0) + Begins(steps[1..])
  }

  lemma {:induction false} BeginsConcat(a: seq<Step>, b: seq<Step>)
    ensures Begins(a + b) == Begins(a) + Begins(b)
  {
    if a == [] {
      assert a + b == b;
    } else {
      assert (a + b)[1..] == a[1..] + b;
      BeginsConcat(a[1..], b);
    }
  }

  /** Over a run the log only grows, with at most one start for each beginning. */
  lemma {:induction false} RunGrows(st: State, steps: seq<Step>)
    ensures st.log <= Exec(st, steps).log
    ensures RunCount.Starts(st.log) <= RunCount.Starts(Exec(st, steps).log) <= RunCount.Starts(st.log) + Begins(steps)
    decreases |steps|
  {
    hide Next;
    if steps != [] {
      StepGrows(st, steps[0]);
      RunGrows(Next(st, steps[0]), steps[1..]);
    }
  }

  /** A round that gets to run a job starts at least that one, and only that one if its callback
      makes no nested run. */
  lemma RoundStarts(st: State, round: Round)
    requires CanBegin(st, round.sleepOk)
    ensures var n := RunCount.Starts(PerformRound(st, round).log) - RunCount.Starts(st.log);
            n >= 1 && (Flat(round) ==> n == 1)
  {
    hide BeginJob, FinishJob, Exec;
    var st1 := BeginJob(st, round.sleepOk, round.delay);
    var st2 := if HasFunction(st, st.queue[0]) then PerformAll(st1, round.script) else st1;
    var inner := if HasFunction(st, st.queue[0]) then StepsOfAll(st1, round.script) else [];
    BeginGrows(st, round.sleepOk, round.delay);
    ScriptIsRun(st1, round.script);
    RunGrows(st1, inner);
    ExecNothing(st1);
    FinishGrows(st2, round.took);
    if Flat(round) {
      FlatBegins(st1, round.script);
    }
  }

  lemma ExecNothing(st: State)
    ensures Exec(st, []) == st
  {
  }

  /** The callback makes no nested run. */
  ghost predicate Flat(round: Round) {
    forall i :: 0 <= i < |round.script| ==> round.script[i].Plain?
  }

  lemma {:induction false} FlatBegins(st: State, script: seq<Call>)
    requires forall i :: 0 <= i < |script| ==> script[i].Plain?
    ensures Begins(StepsOfAll(st, script)) == 0
    decreases |script|
  {
    hide Perform;
    if script != [] {
      FlatBegins(Perform(st, script[0]), script[1..]);
      BeginsConcat(Steps(st, script[0]), StepsOfAll(Perform(st, script[0]), script[1..]));
      assert Steps(st, script[0])[1..] == [];
    }
  }

  // ---------- The stack ----------

  /** Calls leave the C stack as they found it. */
  lemma {:induction false} StackKept(st: State, call: Call)
    ensures Perform(st, call).running == st.running
    decreases call
  {
    match call
    case Plain(request) =>
      if request.Stop? {
        StackKeptByStop(st);
      }
    case RunSingle(round) => StackKeptByRound(st, round);
  }

  lemma {:induction false} StackKeptByRound(st: State, round: Round)
    ensures PerformRound(st, round).running == st.running
    decreases round
  {
    hide IntervalReturn, Cleanup;
    if CanBegin(st, round.sleepOk) {
      var st1 := BeginJob(st, round.sleepOk, round.delay);
      StackKeptByAll(st1, round.script);
      var st2 := if HasFunction(st, st.queue[0]) then PerformAll(st1, round.script) else st1;
      assert st2.running[..|st2.running| - 1] == st.running;
      StackKeptByFinish(st2, round.took);
    }
  }

  lemma {:induction false} StackKeptByAll(st: State, script: seq<Call>)
    ensures PerformAll(st, script).running == st.running
    decreases script
  {
    if script != [] {
      StackKept(st, script[0]);
      StackKeptByAll(Perform(st, script[0]), script[1..]);
    }
  }

  lemma StackKeptByFinish(st: State, took: nat)
    requires st.running != []
    ensures FinishJob(st, took).running == st.running[..|st.running| - 1]
  {
    hide Push;
  }

  lemma {:induction false} StackKeptByStop(st: State)
    ensures StopAll(st).running == st.running
    decreases |st.queue|
  {
    hide Pop;
    if st.queue != [] {
      StackKeptByStop(StopOne(st));
    }
  }
}
