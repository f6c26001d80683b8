/** The life of one recurring job, from its add call to its cleanup, event by event. */
module Example {
  import opened HeapOrder
  import opened JobOrder
  import opened SchedulerModel
  import opened Ownership

  /** Due in 10, then every 5, two runs in all. */
  const ADDED := Exec(INIT, [Do(AddInterval(true, true, 10, 0, 3, 5, 2))])

  /** Its callback takes 100 the first time, and putting it back takes 7; the second start is 1 late. */
  const ROUNDS := [Round(true, 0, [Plain(Elapse(100))], 7), Round(true, 1, [], 0)]

  function After(clock: nat, queue: seq<Job>, running: seq<Running>, records: map<nat, IntervalJob>,
      log: seq<Event>): State
  {
    State(clock, queue, running, records, [Task(Interval, true, true, 10, 0, 3, 5, 2)], log)
  }

  const FIRST := Job(Interval, 0, 10, 0, 3, LASTTIME)
  const SECOND := Job(Interval, 0, 115, 0, 3, FIRSTTIME)
  const RECORD := IntervalJob(true, true, true, 5, 2, 3, 0, 1)
  const COUNTED := RECORD.(ntimes := 1, average := 53, called := 2)
  const STARTED := [Started(0, 10, 10), Called(0)]
  const RETURNED := STARTED + [Requeued(0, 110), Measured(0, 107)]

  lemma Added()
    ensures ADDED == After(0, [FIRST], [], map[0 := RECORD], [])
  {
    PushFirst(JobCmp, FIRST);
    hide Push, JobCmp;
    var s := [Do(AddInterval(true, true, 10, 0, 3, 5, 2))];
    assert s[1..] == [] && [Do(AddInterval(true, true, 10, 0, 3, 5, 2))] == s;
    assert Exec(INIT, s) == Exec(Next(INIT, s[0]), s[1..]);
  }

  lemma FirstStart()
    ensures BeginJob(After(0, [FIRST], [], map[0 := RECORD], []), true, 0)
         == After(10, [], [Running(FIRST, 10)], map[0 := RECORD], STARTED)
  {
    PopOnly(JobCmp, FIRST);
    hide Pop, JobCmp;
    assert [] + [Started(0, 10, 10)] + [Called(0)] == STARTED;
  }

  lemma FirstReturn()
    ensures FinishJob(After(110, [], [Running(FIRST, 10)], map[0 := RECORD], STARTED), 7)
         == After(117, [SECOND], [], map[0 := COUNTED], RETURNED)
  {
    PushFirst(JobCmp, SECOND);
    hide Push, JobCmp;
    assert RETURNED == STARTED + [Requeued(0, 110)] + [Measured(0, 107)];
    assert map[0 := RECORD][0 := RECORD.(ntimes := 1)] == map[0 := RECORD.(ntimes := 1)];
  }

  lemma SecondRound()
    ensures PerformRound(After(117, [SECOND], [], map[0 := COUNTED], RETURNED), ROUNDS[1])
         == After(118, [], [], map[], RETURNED + [Started(0, 115, 118), Called(0), Cleaned(0)])
  {
    PopOnly(JobCmp, SECOND);
    hide Pop, JobCmp;
  }

  /** The whole run: it starts when due, measures 107 from its start to the end of putting it back, is
      queued again one interval after its callback returned, and is cleaned up after its second run. */
  lemma OneJob()
    ensures RunAll(ADDED, ROUNDS)
         == Outcome(After(118, [], [], map[], RETURNED + [Started(0, 115, 118), Called(0), Cleaned(0)]), 0, 2)
  {
    Added();
    FirstStart();
    FirstReturn();
    SecondRound();
    hide BeginJob, FinishJob;
    var st1 := BeginJob(ADDED, true, 0);
    assert ROUNDS[0].script[1..] == [];
    assert PerformAll(st1, ROUNDS[0].script) == Serve(st1, Elapse(100));
    assert ROUNDS[1..] == [ROUNDS[1]] && ROUNDS[1..][1..] == [];
  }
}
