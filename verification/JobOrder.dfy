/** Jobs and the comparator `job_cmp` of src/scheduler.c. */
module JobOrder {
  import opened HeapOrder

  /** `enum whentofree`: whether `run_single` frees the caller's data after this run. */
  datatype Tag = NEVER | FIRSTTIME | LASTTIME

  /** Which functions a `job_t` names: the user's own (false for NULL), or
      `interval_function` and `interval_cleanup`. */
  datatype Kind = OneShot(hasFunction: bool, hasCleanup: bool) | Interval

  /** A `job_t`.  The ticket numbers the call that added it and stands for `private_data`. */
  datatype Job = Job(kind: Kind, ticket: nat, arrival: nat, estimate: nat, nice: nat, tag: Tag)
  {
    function End(): nat {
      arrival + estimate
    }
  }

  function JobCmp(a: Job, b: Job): int {
    if a.End() < b.arrival then 1
    else if b.End() < a.arrival then -1
    else if a.nice < b.nice then 1
    else if b.nice < a.nice then -1
    else if a.arrival < b.arrival then 1
    else if b.arrival < a.arrival then -1
    else if a.End() < b.End() then 1
    else if b.End() < a.End() then -1
    else 0
  }

  /** (nice, start, end) in lexicographic order. */
  ghost predicate LexBefore(a: Job, b: Job) {
    || a.nice < b.nice
    || (a.nice == b.nice && (a.arrival < b.arrival || (a.arrival == b.arrival && a.End() < b.End())))
  }

  ghost predicate Overlap(a: Job, b: Job) {
    a.arrival <= b.End() && b.arrival <= a.End()
  }

  /** The comparator in two lines: disjoint jobs go by time, overlapping ones by (nice, start, end). A
      job lasts from its arrival for as long as it is estimated. */
  lemma JobCmpMeaning(a: Job, b: Job)
    ensures a.End() == a.arrival + a.estimate
    ensures Overlap(a, b) <==> !(a.arrival + a.estimate < b.arrival) && !(b.arrival + b.estimate < a.arrival)
    ensures JobCmp(a, b) > 0 <==> a.End() < b.arrival || (Overlap(a, b) && LexBefore(a, b))
    ensures JobCmp(a, b) < 0 <==> JobCmp(b, a) > 0
    ensures JobCmp(a, b) == 0 <==> a.nice == b.nice && a.arrival == b.arrival && a.estimate == b.estimate
  {
  }

  lemma JobCmpAntisymmetric(jobs: set<Job>)
    ensures AntisymmetricOn(JobCmp, jobs)
  {
    forall x, y | x in jobs && y in jobs ensures JobCmp(x, y) > 0 <==> JobCmp(y, x) < 0 {
      JobCmpMeaning(x, y);
    }
  }

  /** x is over before y starts and z overlaps both, yet by (nice, start, end) y goes before z
      and z before x. */
  ghost predicate Cyclic(x: Job, y: Job, z: Job) {
    x.End() < y.arrival && Overlap(z, x) && Overlap(z, y) && LexBefore(y, z) && LexBefore(z, x)
  }

  lemma IntransitiveIsCyclic(a: Job, b: Job, c: Job)
    requires !TransitiveAt(JobCmp, a, b, c)
    ensures Cyclic(a, b, c) || Cyclic(b, a, c) || Cyclic(a, c, b)
         || Cyclic(b, c, a) || Cyclic(c, a, b) || Cyclic(c, b, a)
  {
    JobCmpMeaning(a, b);
    JobCmpMeaning(b, c);
    JobCmpMeaning(a, c);
  }

  /** `job_cmp` is a total preorder on a set of jobs exactly when no three of them are cyclic. */
  lemma JobCmpPreorderIff(jobs: set<Job>)
    ensures PreorderOn(JobCmp, jobs)
            <==> !exists x, y, z :: x in jobs && y in jobs && z in jobs && Cyclic(x, y, z)
  {
    JobCmpAntisymmetric(jobs);
    forall x, y, z | x in jobs && y in jobs && z in jobs && Cyclic(x, y, z)
      ensures !PreorderOn(JobCmp, jobs)
    {
      JobCmpMeaning(x, y);
      JobCmpMeaning(y, z);
      JobCmpMeaning(z, x);
      assert !TransitiveAt(JobCmp, x, y, z) || !TransitiveAt(JobCmp, y, z, x) || !TransitiveAt(JobCmp, z, x, y);
    }
    forall x, y, z | x in jobs && y in jobs && z in jobs && !TransitiveAt(JobCmp, x, y, z)
      ensures exists x, y, z :: x in jobs && y in jobs && z in jobs && Cyclic(x, y, z)
    {
      IntransitiveIsCyclic(x, y, z);
    }
  }

  /** Three jobs that beat each other in a circle. */
  lemma JobCmpCanBeCyclic()
    ensures var a := Job(OneShot(true, true), 0, 0, 1, 10, FIRSTTIME);
            var b := Job(OneShot(true, true), 1, 0, 10, 5, FIRSTTIME);
            var c := Job(OneShot(true, true), 2, 5, 1, 1, FIRSTTIME);
            JobCmp(a, c) > 0 && JobCmp(c, b) > 0 && JobCmp(b, a) > 0
  {
  }

  /** With equal nice values the comparator goes by arrival time and then by end. */
  lemma EqualNiceOrder(a: Job, b: Job)
    requires a.nice == b.nice
    ensures JobCmp(a, b) >= 0
            <==> a.arrival < b.arrival || (a.arrival == b.arrival && a.estimate <= b.estimate)
  {
    JobCmpMeaning(a, b);
  }

  /** Three kinds of job set on which `job_cmp` is a total preorder. */
  lemma JobCmpPreorderWhen(jobs: set<Job>)
    requires || (forall a, b :: a in jobs && b in jobs ==> a.nice == b.nice)
             || (forall a :: a in jobs ==> a.estimate == 0)
             || (forall a, b :: a in jobs && b in jobs ==> Overlap(a, b))
    ensures PreorderOn(JobCmp, jobs)
  {
    JobCmpPreorderIff(jobs);
    forall x, y, z | x in jobs && y in jobs && z in jobs ensures !Cyclic(x, y, z) {
    }
  }
}
