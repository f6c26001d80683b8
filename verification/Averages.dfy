/** The truncated running average of measured durations. */
module Averages {
  import opened JobOrder
  import opened Options
  import opened SchedulerModel
  import opened Ownership
  import opened Tickets

  /** The average after the estimate and the durations have been averaged in one by one. */
  ghost function AverageOf(estimate: nat, durations: seq<nat>): nat {
    if durations == [] then estimate
    else
      var n := |durations| - 1;
      Averaged(AverageOf(estimate, durations[..n]), n + 1, durations[n])
  }

  ghost function Total(durations: seq<nat>): nat {
    if durations == [] then 0
    else Total(durations[..|durations| - 1]) + durations[|durations| - 1]
  }

  lemma MulMonotone(a: nat, b: nat, c: nat)
    requires a <= b
    ensures a * c <= b * c
  {
  }

  lemma QuotientBetween(x: nat, m: nat, lo: nat, hi: nat)
    requires m > 0 && lo * m <= x < (hi + 1) * m
    ensures lo <= x / m <= hi
  {
    var q := x / m;
    assert q * m <= x < (q + 1) * m;
    if q < lo {
      MulMonotone(q + 1, lo, m);
    } else if q > hi {
      MulMonotone(hi + 1, q, m);
    }
  }

  lemma AveragedBounds(average: nat, called: nat, took: nat)
    ensures var next := Averaged(average, called, took);
            (called + 1) * next <= average * called + took <= (called + 1) * next + called
  {
  }

  lemma AveragedBetween(average: nat, called: nat, took: nat, lo: nat, hi: nat)
    requires lo <= average <= hi && lo <= took <= hi
    ensures lo <= Averaged(average, called, took) <= hi
  {
    MulMonotone(lo, average, called);
    MulMonotone(average, hi, called);
    Distribute(lo, called);
    Distribute(hi, called);
    assert (hi + 1) * (called + 1) == hi * (called + 1) + (called + 1);
    QuotientBetween(average * called + took, called + 1, lo, hi);
  }

  lemma Distribute(a: nat, n: nat)
    ensures a * (n + 1) == a * n + a
  {
  }

  /** With k samples, the estimate among them, of sum S: k * average <= S and the rounding of all
      the divisions together loses at most 1 + 2 + ... + (k - 1). */
  lemma {:induction false} AverageErrorBound(estimate: nat, durations: seq<nat>)
    ensures var k, s := |durations| + 1, estimate + Total(durations);
            k * AverageOf(estimate, durations) <= s <= k * AverageOf(estimate, durations) + Triangle(k - 1)
  {
    if durations == [] {
      assert 1 * estimate == estimate;
    } else {
      var n := |durations| - 1;
      var before, d := AverageOf(estimate, durations[..n]), durations[n];
      AverageErrorBound(estimate, durations[..n]);
      AveragedBounds(before, n + 1, d);
      assert (n + 1) * before == before * (n + 1);
    }
  }

  ghost function Triangle(n: nat): nat {
    if n == 0 then 0 else Triangle(n - 1) + n
  }

  lemma {:induction false} TriangleClosed(n: nat)
    ensures 2 * Triangle(n) == n * (n + 1)
  {
    if n > 0 {
      TriangleClosed(n - 1);
      assert n * (n + 1) == (n - 1) * n + 2 * n;
    }
  }

  /** The same bound in closed form. */
  lemma AverageErrorClosed(estimate: nat, durations: seq<nat>)
    ensures var k, s := |durations| + 1, estimate + Total(durations);
            k * AverageOf(estimate, durations) <= s && 2 * (s - k * AverageOf(estimate, durations)) <= k * (k - 1)
  {
    hide AverageOf, Total, Triangle;
    AverageErrorBound(estimate, durations);
    TwiceTriangle(|durations| + 1);
  }

  lemma TwiceTriangle(k: nat)
    requires k > 0
    ensures 2 * Triangle(k - 1) == k * (k - 1)
  {
    TriangleClosed(k - 1);
  }

  /** The average stays between any bounds on the samples, so between their minimum and maximum. */
  lemma {:induction false} AverageBetween(estimate: nat, durations: seq<nat>, lo: nat, hi: nat)
    requires lo <= estimate <= hi && forall d :: d in durations ==> lo <= d <= hi
    ensures lo <= AverageOf(estimate, durations) <= hi
  {
    hide Averaged;
    if durations != [] {
      var n := |durations| - 1;
      assert durations[n] in durations && forall d :: d in durations[..n] ==> d in durations;
      AverageBetween(estimate, durations[..n], lo, hi);
      AveragedBetween(AverageOf(estimate, durations[..n]), n + 1, durations[n], lo, hi);
    }
  }

  /** The durations e + 1, e + 2, ..., e + n. */
  ghost function Climbing(e: nat, n: nat): (ds: seq<nat>)
    ensures |ds| == n
  {
    if n == 0 then [] else Climbing(e, n - 1) + [e + n]
  }

  /** The bound is attained for every number of samples: durations that climb for ever by one
      leave the average where it was, while the error is as large as it can be. */
  lemma {:induction false} AverageErrorIsTight(e: nat, n: nat)
    ensures AverageOf(e, Climbing(e, n)) == e
    ensures e + Total(Climbing(e, n)) == (n + 1) * e + Triangle(n)
  {
    hide Averaged;
    if n == 0 {
      assert 1 * e == e;
    } else {
      AverageErrorIsTight(e, n - 1);
      assert Climbing(e, n)[..n - 1] == Climbing(e, n - 1);
      StaysPut(e, n);
      Distribute(e, n);
      assert (n + 1) * e == e * (n + 1) && n * e == e * n;
    }
  }

  lemma StaysPut(e: nat, n: nat)
    ensures Averaged(e, n, e + n) == e
  {
    Distribute(e, n);
    QuotientBetween(e * n + (e + n), n + 1, e, e);
  }

  /** An average of the estimate and the durations that is never too high, misses their sum by at most
      k (k - 1) / 2 when multiplied by the number k of these samples, and keeps within any bounds on
      them. */
  ghost predicate FairAverage(average: nat, estimate: nat, durations: seq<nat>, lo: nat, hi: nat) {
    var k, s := |durations| + 1, estimate + Total(durations);
    && k * average <= s && 2 * (s - k * average) <= k * (k - 1)
    && (lo <= estimate <= hi && (forall d :: d in durations ==> lo <= d <= hi) ==> lo <= average <= hi)
  }

  lemma AverageIsFair(estimate: nat, durations: seq<nat>, lo: nat, hi: nat)
    ensures FairAverage(AverageOf(estimate, durations), estimate, durations, lo, hi)
  {
    hide AverageOf, Total;
    AverageErrorClosed(estimate, durations);
    if lo <= estimate <= hi && forall d :: d in durations ==> lo <= d <= hi {
      AverageBetween(estimate, durations, lo, hi);
    }
  }

  // ---------- In the life of a ticket ----------

  ghost function Durations(history: seq<Event>): seq<nat> {
    if history == [] then []
    else
      var e := history[|history| - 1];
      Durations(history[..|history| - 1]) + if e.Measured? then [e.took] else []
  }

  lemma DurationsAppend(history: seq<Event>, e: Event)
    ensures Durations(history + [e]) == Durations(history) + if e.Measured? then [e.took] else []
    ensures history + [] == history
  {
    assert (history + [e])[..|history|] == history;
  }

  /** How often the job has been put back. */
  ghost function PutBacks(history: seq<Event>): nat {
    if history == [] then 0
    else PutBacks(history[..|history| - 1]) + if history[|history| - 1].Requeued? then 1 else 0
  }

  lemma PutBacksAppend(history: seq<Event>, e: Event)
    ensures PutBacks(history + [e]) == PutBacks(history) + if e.Requeued? then 1 else 0
  {
    assert (history + [e])[..|history|] == history;
  }

  /** The history before the job was last put back. */
  ghost function BeforeReturn(history: seq<Event>): seq<Event> {
    if history == [] then []
    else
      var n := |history| - 1;
      if history[n].Requeued? then history[..n] else BeforeReturn(history[..n])
  }

  lemma BeforeReturnAppend(history: seq<Event>, e: Event)
    ensures BeforeReturn(history + [e]) == if e.Requeued? then history else BeforeReturn(history)
  {
    assert (history + [e])[..|history|] == history;
  }

  /** The record's average is that of the estimate and the measured durations, one for each time that
      the job was put back until the counter is full, and the counter is their number.  The estimate
      of a waiting job lags one behind: it is the average from before its last return. */
  ghost predicate Averaging(task: Task, v: View) {
    && (v.record.Some? ==>
          var ds := Durations(v.history);
          && v.record.value.average == AverageOf(task.estimate, ds) && v.record.value.called == |ds| + 1 <= UINT_MAX
          && (|ds| == PutBacks(v.history) || |ds| + 1 == UINT_MAX <= PutBacks(v.history)))
    && (v.job.Some? && v.timer.None? ==>
          v.job.value.estimate == AverageOf(task.estimate, Durations(BeforeReturn(v.history))))
  }

  lemma AveragingNew(t: nat, task: Task)
    ensures Averaging(task, NewView(task, t))
  {
  }

  lemma AveragingStep(t: nat, task: Task, clock: nat, clock': nat, v: View, v': View, purging: bool)
    requires Averaging(task, v) && ViewStep(t, task, clock, clock', v, v', purging)
    ensures Averaging(task, v')
  {
    hide Averaged;
    var h := v.history;
    if Starts(t, task, clock, clock', v, v') {
      var e := Started(t, v.job.value.arrival, clock');
      DurationsAppend(h, e);
      DurationsAppend(h + [e], Called(t));
      PutBacksAppend(h, e);
      PutBacksAppend(h + [e], Called(t));
      assert Durations(h) + [] == Durations(h);
    } else if GoesBack(t, task, clock, clock', v, v') {
      var e, d := Requeued(t, clock), Since(v.timer.value, clock');
      DurationsAppend(h, e);
      DurationsAppend(h + [e], Measured(t, d));
      PutBacksAppend(h, e);
      PutBacksAppend(h + [e], Measured(t, d));
      BeforeReturnAppend(h, e);
      BeforeReturnAppend(h + [e], Measured(t, d));
      assert Durations(h) + [] == Durations(h) && h + [e] + [] == h + [e];
      assert (Durations(h) + [d])[..|Durations(h)|] == Durations(h);
    }
  }
}
