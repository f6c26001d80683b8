/** What single calls of `run_single`, `run` and `stop` do, in terms of the queue, the clock and the
    answers of the environment. */
module Rounds {
  import opened HeapOrder
  import opened JobOrder
  import opened PriorityQueue
  import opened SchedulerModel
  import opened Scripts
  import opened Ownership
  import opened Tickets

  // ---------- Starting a job ----------

  /** The first job is due later than now, and the sleep until then fails. */
  predicate SleepFails(st: State, sleepOk: bool)
    requires st.queue != []
  {
    st.queue[0].arrival > st.clock && !sleepOk
  }

  function Later(a: nat, b: nat): nat {
    if a < b then b else a
  }

  /** The first job starts as soon as it is due and the clock allows, and `delay` after that; if its
      add call passed a function, this is called. */
  ghost function FirstStart(st: State, delay: nat): seq<Event>
    requires st.queue != [] && st.queue[0].ticket < |st.tasks|
  {
    var job := st.queue[0];
    [Started(job.ticket, job.arrival, Later(job.arrival, st.clock) + delay)]
    + if st.tasks[job.ticket].hasFunction then [Called(job.ticket)] else []
  }

  ghost predicate Entered(st: State, st': State, delay: nat)
    requires st.queue != []
  {
    var job := st.queue[0];
    && job.ticket < |st.tasks| && st'.tasks == st.tasks && st'.records == st.records
    && st'.clock == Later(job.arrival, st.clock) + delay
    && st'.running == st.running + [Running(job, st'.clock)]
    && multiset(st.queue) == multiset(st'.queue) + multiset{job}
    && st'.log == st.log + FirstStart(st, delay)
  }

  lemma BeginMeaning(st: State, sleepOk: bool, delay: nat)
    requires Safe(st)
    ensures var st' := BeginJob(st, sleepOk, delay);
      if st.queue == [] || SleepFails(st, sleepOk) then st' == st else Entered(st, st', delay)
  {
    hide Pop, BeginJob, Ledger;
    var books :| Ledger(st, books);
    SafeBegin(st, books, sleepOk, delay);
    if st.queue != [] && !SleepFails(st, sleepOk) {
      QueuedTicket(st, books, st.queue[0]);
      assert multiset(st.queue) == multiset(Pop(JobCmp, st.queue)) + multiset{st.queue[0]};
    }
  }

  /** `run_single`: on an empty queue it returns 0 and does nothing; if the first job is not due and the
      sleep fails it returns an error and does nothing; otherwise it returns 0, and what it adds to
      the log begins with the start of the first job. */
  lemma RoundMeaning(st: State, round: Round)
    requires Safe(st)
    ensures st.queue == [] ==> Status(st, round) == 0 && PerformRound(st, round) == st
    ensures st.queue != [] && st.queue[0].arrival > st.clock && !round.sleepOk ==>
      Status(st, round) < 0 && PerformRound(st, round) == st
    ensures st.queue != [] && (st.queue[0].arrival <= st.clock || round.sleepOk) ==>
      && Status(st, round) == 0 && st.queue[0].ticket < |st.tasks|
      && st.log + FirstStart(st, round.delay) <= PerformRound(st, round).log
  {
    hide BeginJob, FinishJob, Safe, FirstStart;
    BeginMeaning(st, round.sleepOk, round.delay);
    if st.queue != [] && !SleepFails(st, round.sleepOk) {
      var entered := BeginJob(st, round.sleepOk, round.delay);
      ScriptIsRun(entered, round.script);
      RunGrows(entered, StepsOfAll(entered, round.script));
      var returned := if HasFunction(st, st.queue[0]) then PerformAll(entered, round.script) else entered;
      FinishGrows(returned, round.took);
      assert entered.log <= PerformRound(st, round).log;
    }
  }

  // ---------- lothar_scheduler_run ----------

  /** The first `k` rounds succeed; then a job is queued, it is not due, and the sleep fails. */
  ghost predicate FailsAt(st: State, rounds: seq<Round>, k: nat)
    requires k < |rounds|
  {
    var r := RunAll(st, rounds[..k]);
    r.status == 0 && r.rounds == k && r.state.queue != [] && SleepFails(r.state, rounds[k].sleepOk)
  }

  /** `lothar_scheduler_run` returns an error exactly when the sleep of some round fails while no
      queued job is due, and then it leaves what the rounds before have made; otherwise it returns 0
      with an empty queue, or goes on for as long as it is watched. */
  lemma {:induction false} RunMeaning(st: State, rounds: seq<Round>)
    requires Safe(st)
    ensures var r := RunAll(st, rounds);
      && (r.status < 0 <==> exists k: nat :: k < |rounds| && FailsAt(st, rounds, k))
      && (r.status >= 0 ==> r.status == 0 && (r.state.queue == [] || r.rounds == |rounds|))
      && forall k: nat :: k < |rounds| && FailsAt(st, rounds, k) ==>
           r.rounds == k + 1 && r.state == RunAll(st, rounds[..k]).state
    decreases |rounds|
  {
    hide PerformRound, Safe, Status;
    if rounds != [] {
      RoundMeaning(st, rounds[0]);
      assert rounds[..0] == [];
      if st.queue == [] {
        forall k: nat | k < |rounds| ensures !FailsAt(st, rounds, k) {
        }
      } else if SleepFails(st, rounds[0].sleepOk) {
        assert FailsAt(st, rounds, 0);
        forall k: nat | 0 < k < |rounds| ensures !FailsAt(st, rounds, k) {
          assert rounds[..k][0] == rounds[0];
        }
      } else {
        var st1, rest := PerformRound(st, rounds[0]), rounds[1..];
        SafeRound(st, rounds[0]);
        RunMeaning(st1, rest);
        forall k: nat | k < |rest| ensures FailsAt(st, rounds, k + 1) <==> FailsAt(st1, rest, k) {
          OneRoundMore(st, rounds, k);
        }
        forall k: nat | k < |rest| ensures RunAll(st, rounds[..k + 1]).state == RunAll(st1, rest[..k]).state {
          OneRoundMore(st, rounds, k);
        }
        assert forall k: nat :: k < |rounds| && FailsAt(st, rounds, k) ==> k > 0 && FailsAt(st1, rest, k - 1);
      }
    }
  }

  lemma SafeRound(st: State, round: Round)
    requires Safe(st)
    ensures Safe(PerformRound(st, round))
  {
    RoundIsRun(st, round);
    SafeRun(st, StepsOfRound(st, round));
  }

  lemma OneRoundMore(st: State, rounds: seq<Round>, k: nat)
    requires k + 1 < |rounds| && st.queue != [] && Status(st, rounds[0]) == 0
    ensures var st1 := PerformRound(st, rounds[0]);
      && FailsAt(st, rounds, k + 1) == FailsAt(st1, rounds[1..], k)
      && RunAll(st, rounds[..k + 1]).state == RunAll(st1, rounds[1..][..k]).state
  {
    hide PerformRound, Status;
    assert rounds[..k + 1][0] == rounds[0] && rounds[..k + 1][1..] == rounds[1..][..k];
  }

  // ---------- What happens inside a call ----------

  /** These steps are what a call amounts to: one step if it runs no job; for `run_single` none if
      there is nothing to run or the sleep fails, and otherwise the start of the first job, all that
      its function calls, one call after the other, and the return. */
  ghost predicate UnfoldsCall(st: State, call: Call, steps: seq<Step>)
    decreases call
  {
    match call
    case Plain(request) => steps == [Do(request)]
    case RunSingle(round) =>
      if st.queue == [] || SleepFails(st, round.sleepOk) then steps == [] else UnfoldsRound(st, round, steps)
  }

  ghost predicate UnfoldsRound(st: State, round: Round, steps: seq<Step>)
    requires st.queue != []
    decreases round
  {
    && |steps| >= 2 && steps[0] == Begin(round.sleepOk, round.delay) && steps[|steps| - 1] == Finish(round.took)
    && st.queue[0].ticket < |st.tasks|
    && if st.tasks[st.queue[0].ticket].hasFunction
       then UnfoldsAll(Next(st, steps[0]), round.script, steps[1..|steps| - 1])
       else |steps| == 2
  }

  ghost predicate UnfoldsAll(st: State, script: seq<Call>, steps: seq<Step>)
    decreases script
  {
    if script == [] then steps == []
    else
      exists n :: 0 <= n <= |steps| && UnfoldsCall(st, script[0], steps[..n])
                  && UnfoldsAll(Exec(st, steps[..n]), script[1..], steps[n..])
  }

  /** Every call is the run of the steps that it amounts to, whatever its callbacks call in turn. */
  lemma {:induction false} CallUnfolds(st: State, call: Call)
    requires Safe(st)
    ensures UnfoldsCall(st, call, Steps(st, call)) && Perform(st, call) == Exec(st, Steps(st, call))
    decreases call
  {
    hide Safe, BeginJob, FinishJob, Serve;
    CallIsRun(st, call);
    if call.RunSingle? && st.queue != [] && !SleepFails(st, call.round.sleepOk) {
      RoundUnfolds(st, call.round);
    }
  }

  lemma {:induction false} RoundUnfolds(st: State, round: Round)
    requires Safe(st) && st.queue != [] && !SleepFails(st, round.sleepOk)
    ensures UnfoldsRound(st, round, StepsOfRound(st, round))
    decreases round
  {
    hide BeginJob, FinishJob, Serve, Pop, Ledger, HasFunction;
    var job, st1 := st.queue[0], BeginJob(st, round.sleepOk, round.delay);
    var inner, steps := StepsOfAll(st1, round.script), StepsOfRound(st, round);
    var books :| Ledger(st, books);
    SafeBegin(st, books, round.sleepOk, round.delay);
    FunctionPassed(st, books, job);
    if st.tasks[job.ticket].hasFunction {
      AllUnfold(st1, round.script);
      assert steps[1..|steps| - 1] == inner;
    }
  }

  lemma {:induction false} AllUnfold(st: State, script: seq<Call>)
    requires Safe(st)
    ensures UnfoldsAll(st, script, StepsOfAll(st, script))
    decreases script
  {
    hide Safe, UnfoldsCall, Perform, Steps;
    if script != [] {
      var first := Steps(st, script[0]);
      var rest := StepsOfAll(Perform(st, script[0]), script[1..]);
      CallUnfolds(st, script[0]);
      SafeRun(st, first);
      AllUnfold(Perform(st, script[0]), script[1..]);
      assert (first + rest)[..|first|] == first && (first + rest)[|first|..] == rest;
    }
  }

  /** The function that is called is the one that the add call passed. */
  lemma FunctionPassed(st: State, books: map<nat, Job>, job: Job)
    requires Ledger(st, books) && job in st.queue
    ensures job.ticket < |st.tasks| && (HasFunction(st, job) <==> st.tasks[job.ticket].hasFunction)
  {
    hide Lists, Owned;
    assert job in multiset(st.queue);
    Entry(st, books, job);
  }

  // ---------- lothar_scheduler_stop ----------

  /** The cleanups of these jobs, in this order. */
  ghost function CleanupsOf(tasks: seq<Task>, jobs: seq<Job>): seq<Event> {
    if jobs == [] then []
    else
      (if jobs[0].ticket < |tasks| && tasks[jobs[0].ticket].hasCleanup then [Cleaned(jobs[0].ticket)] else [])
      + CleanupsOf(tasks, jobs[1..])
  }

  /** `stop` cleans up in the order in which the jobs would be popped, and takes no time. */
  lemma {:induction false} StopMeaning(st: State)
    requires Safe(st)
    ensures var st' := StopAll(st);
      && st'.log == st.log + CleanupsOf(st.tasks, Drain(JobCmp, st.queue))
      && st'.queue == [] && st'.clock == st.clock && st'.running == st.running && st'.tasks == st.tasks
    decreases |st.queue|
  {
    hide Pop, StopOne, Ledger, CleanupsOf, JobCmp, Drain;
    if st.queue == [] {
      NothingToClean(st.tasks, st.log);
    } else {
      var books :| Ledger(st, books);
      var books' := SafeStopOne(st, books);
      StopMeaning(StopOne(st));
      OneMoreCleanup(st);
    }
  }

  lemma NothingToClean(tasks: seq<Task>, log: seq<Event>)
    ensures log == log + CleanupsOf(tasks, Drain(JobCmp, []))
  {
  }

  lemma OneMoreCleanup(st: State)
    requires st.queue != []
    ensures var rest := CleanupsOf(st.tasks, Drain(JobCmp, Pop(JobCmp, st.queue)));
      st.log + CleanupEvents(st, st.queue[0]) + rest == st.log + CleanupsOf(st.tasks, Drain(JobCmp, st.queue))
  {
    hide Pop, JobCmp;
    var rest := Drain(JobCmp, Pop(JobCmp, st.queue));
    FirstCleanup(st, rest);
    Associative(st.log, CleanupEvents(st, st.queue[0]), CleanupsOf(st.tasks, rest));
  }

  lemma FirstCleanup(st: State, rest: seq<Job>)
    requires st.queue != []
    ensures CleanupsOf(st.tasks, [st.queue[0]] + rest) == CleanupEvents(st, st.queue[0]) + CleanupsOf(st.tasks, rest)
  {
    assert ([st.queue[0]] + rest)[1..] == rest;
  }

  lemma Associative<T>(a: seq<T>, b: seq<T>, c: seq<T>)
    ensures a + b + c == a + (b + c)
  {
  }
}
