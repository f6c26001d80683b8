/** The heap refines a priority queue that is a multiset. */
module PriorityQueue {
  import opened HeapOrder
  import opened Options

  datatype Op<T> = PushOp(item: T) | PopOp

  /** One call of `heap_push` or `heap_pop`: the array afterwards and what came back.  Popping
      an empty heap gives nothing, as `heap_pop` answers NULL. */
  function Apply<T>(cmp: (T, T) -> int, s: seq<T>, op: Op<T>): (seq<T>, Option<T>) {
    match op
    case PushOp(x) => (Push(cmp, s, x), None)
    case PopOp => if s == [] then (s, None) else (Pop(cmp, s), Some(s[0]))
  }

  /** The answers to a list of calls and the array at the end. */
  function ApplyAll<T>(cmp: (T, T) -> int, s: seq<T>, ops: seq<Op<T>>): (seq<T>, seq<Option<T>>)
    decreases |ops|
  {
    if ops == [] then (s, [])
    else
      var (s1, a) := Apply(cmp, s, ops[0]);
      var (s2, answers) := ApplyAll(cmp, s1, ops[1..]);
      (s2, [a] + answers)
  }

  /** A step of the abstract queue: a pop takes some item that no other beats. */
  ghost predicate AbstractStep<T>(cmp: (T, T) -> int, m: multiset<T>, op: Op<T>, a: Option<T>, m': multiset<T>) {
    match op
    case PushOp(x) => a.None? && m' == m + multiset{x}
    case PopOp =>
      if m == multiset{} then a.None? && m' == m
      else
        && a.Some? && a.value in m
        && m' == m - multiset{a.value}
        && forall y :: y in m ==> cmp(y, a.value) <= 0
  }

  ghost predicate AbstractRun<T(!new)>(cmp: (T, T) -> int, m: multiset<T>, ops: seq<Op<T>>,
      answers: seq<Option<T>>, m': multiset<T>)
    decreases |ops|
  {
    if ops == [] then answers == [] && m' == m
    else
      && answers != []
      && exists m1 ::
           AbstractStep(cmp, m, ops[0], answers[0], m1) && AbstractRun(cmp, m1, ops[1..], answers[1..], m')
  }

  /** The items that a list of calls pushes. */
  function Pushed<T>(ops: seq<Op<T>>): multiset<T> {
    if ops == [] then multiset{}
    else (if ops[0].PushOp? then multiset{ops[0].item} else multiset{}) + Pushed(ops[1..])
  }

  /** The items that a list of answers hands out. */
  function Popped<T>(answers: seq<Option<T>>): multiset<T> {
    if answers == [] then multiset{}
    else (if answers[0].Some? then multiset{answers[0].value} else multiset{}) + Popped(answers[1..])
  }

  ghost predicate Covers<T>(items: set<T>, s: seq<T>, ops: seq<Op<T>>) {
    && (forall x :: x in s ==> x in items)
    && forall i :: 0 <= i < |ops| && ops[i].PushOp? ==> ops[i].item in items
  }

  /** Nothing is lost, duplicated or invented, whatever the comparator. */
  lemma {:induction false} Conservation<T>(cmp: (T, T) -> int, s: seq<T>, ops: seq<Op<T>>)
    ensures var (s', answers) := ApplyAll(cmp, s, ops);
            multiset(s) + Pushed(ops) == multiset(s') + Popped(answers)
    decreases |ops|
  {
    if ops != [] {
      var (s1, a) := Apply(cmp, s, ops[0]);
      var (s2, answers) := ApplyAll(cmp, s1, ops[1..]);
      ConservationOfOne(cmp, s, ops[0]);
      Conservation(cmp, s1, ops[1..]);
      PushedPoppedUnfold(ops, a, answers);
      Balance(multiset(s), Pushed([ops[0]]), multiset(s1), Popped([a]),
              Pushed(ops[1..]), multiset(s2), Popped(answers));
    }
  }

  lemma Balance<T>(m: multiset<T>, in1: multiset<T>, m1: multiset<T>, out1: multiset<T>,
      in2: multiset<T>, m2: multiset<T>, out2: multiset<T>)
    requires m + in1 == m1 + out1 && m1 + in2 == m2 + out2
    ensures m + (in1 + in2) == m2 + (out1 + out2)
  {
    assert m + (in1 + in2) == m + in1 + in2;
    assert m2 + (out1 + out2) == m2 + out2 + out1;
  }

  lemma ConservationOfOne<T>(cmp: (T, T) -> int, s: seq<T>, op: Op<T>)
    ensures var (s1, a) := Apply(cmp, s, op);
            multiset(s) + Pushed([op]) == multiset(s1) + Popped([a])
  {
  }

  lemma PushedPoppedUnfold<T>(ops: seq<Op<T>>, a: Option<T>, answers: seq<Option<T>>)
    requires ops != []
    ensures Pushed(ops) == Pushed([ops[0]]) + Pushed(ops[1..])
    ensures Popped([a] + answers) == Popped([a]) + Popped(answers)
  {
    assert ([a] + answers)[1..] == answers;
  }

  lemma ApplyRefines<T(!new)>(cmp: (T, T) -> int, items: set<T>, s: seq<T>, op: Op<T>)
    requires PreorderOn(cmp, items) && Covers(items, s, [op]) && HeapOrdered(cmp, s)
    ensures var (s1, a) := Apply(cmp, s, op);
            && HeapOrdered(cmp, s1) && Covers(items, s1, [])
            && AbstractStep(cmp, multiset(s), op, a, multiset(s1))
  {
    assert [op][0] == op;
    PreorderOnSubset(cmp, items, Items(s));
    match op {
      case PushOp(x) => PushRefines(cmp, items, s, x);
      case PopOp =>
        if s != [] {
          PopRefines(cmp, items, s);
        }
    }
  }

  lemma PushRefines<T(!new)>(cmp: (T, T) -> int, items: set<T>, s: seq<T>, x: T)
    requires PreorderOn(cmp, items) && HeapOrdered(cmp, s)
    requires x in items && forall y :: y in s ==> y in items
    ensures HeapOrdered(cmp, Push(cmp, s, x)) && forall y :: y in Push(cmp, s, x) ==> y in items
  {
    hide Push;
    PreorderOnSubset(cmp, items, Items(s) + {x});
    PushKeepsOrder(cmp, s, x);
    forall y | y in Push(cmp, s, x) ensures y in items {
      assert y in multiset(Push(cmp, s, x));
    }
  }

  lemma PopRefines<T(!new)>(cmp: (T, T) -> int, items: set<T>, s: seq<T>)
    requires s != [] && PreorderOn(cmp, items) && HeapOrdered(cmp, s)
    requires forall y :: y in s ==> y in items
    ensures HeapOrdered(cmp, Pop(cmp, s)) && forall y :: y in Pop(cmp, s) ==> y in items
    ensures forall y :: y in multiset(s) ==> cmp(y, s[0]) <= 0
  {
    hide Pop;
    PreorderOnSubset(cmp, items, Items(s));
    PopKeepsOrder(cmp, s);
    assert forall y :: y in Pop(cmp, s) ==> y in Items(Pop(cmp, s));
  }

  lemma PreorderOnSubset<T(!new)>(cmp: (T, T) -> int, big: set<T>, small: set<T>)
    requires PreorderOn(cmp, big) && small <= big
    ensures PreorderOn(cmp, small)
  {
  }

  lemma AbstractRunPrepend<T(!new)>(cmp: (T, T) -> int, m: multiset<T>, ops: seq<Op<T>>, a: Option<T>,
      m1: multiset<T>, answers: seq<Option<T>>, m2: multiset<T>)
    requires ops != [] && AbstractStep(cmp, m, ops[0], a, m1) && AbstractRun(cmp, m1, ops[1..], answers, m2)
    ensures AbstractRun(cmp, m, ops, [a] + answers, m2)
  {
    assert ([a] + answers)[1..] == answers;
  }

  /** Under a total preorder every list of calls on an ordered heap answers as the abstract
      queue would, and leaves an ordered heap holding the abstract queue's items. */
  lemma {:induction false} HeapRefinesQueue<T(!new)>(cmp: (T, T) -> int, items: set<T>, s: seq<T>, ops: seq<Op<T>>)
    requires PreorderOn(cmp, items) && Covers(items, s, ops) && HeapOrdered(cmp, s)
    ensures var (s', answers) := ApplyAll(cmp, s, ops);
            HeapOrdered(cmp, s') && AbstractRun(cmp, multiset(s), ops, answers, multiset(s'))
    decreases |ops|
  {
    if ops != [] {
      var (s1, a) := Apply(cmp, s, ops[0]);
      var (s2, answers) := ApplyAll(cmp, s1, ops[1..]);
      ApplyRefines(cmp, items, s, ops[0]);
      HeapRefinesQueue(cmp, items, s1, ops[1..]);
      AbstractRunPrepend(cmp, multiset(s), ops, a, multiset(s1), answers, multiset(s2));
    }
  }

  /** Popping until the heap is empty. */
  function Drain<T>(cmp: (T, T) -> int, s: seq<T>): (r: seq<T>)
    ensures multiset(r) == multiset(s) && |r| == |s|
    decreases |s|
  {
    if s == [] then []
    else [s[0]] + Drain(cmp, Pop(cmp, s))
  }

  /** Pushing onto an empty heap, one item after the other. */
  function PushAll<T>(cmp: (T, T) -> int, s: seq<T>, xs: seq<T>): (r: seq<T>)
    ensures multiset(r) == multiset(s) + multiset(xs)
    decreases |xs|
  {
    if xs == [] then s
    else
      assert xs == [xs[0]] + xs[1..];
      PushAll(cmp, Push(cmp, s, xs[0]), xs[1..])
  }

  ghost predicate InPriorityOrder<T>(cmp: (T, T) -> int, r: seq<T>) {
    forall i, j :: 0 <= i < j < |r| ==> cmp(r[j], r[i]) <= 0
  }

  lemma FirstThenRest<T>(cmp: (T, T) -> int, x: T, r: seq<T>)
    requires InPriorityOrder(cmp, r) && forall y :: y in r ==> cmp(y, x) <= 0
    ensures InPriorityOrder(cmp, [x] + r)
  {
    forall i, j | 0 <= i < j < |r| + 1 ensures cmp(([x] + r)[j], ([x] + r)[i]) <= 0 {
      assert ([x] + r)[j] == r[j - 1];
    }
  }

  lemma {:induction false} DrainSorts<T(!new)>(cmp: (T, T) -> int, s: seq<T>)
    requires PreorderOn(cmp, Items(s)) && HeapOrdered(cmp, s)
    ensures InPriorityOrder(cmp, Drain(cmp, s))
    decreases |s|
  {
    if s != [] {
      var rest := Pop(cmp, s);
      PopKeepsOrder(cmp, s);
      PreorderOnSubset(cmp, Items(s), Items(rest));
      DrainSorts(cmp, rest);
      SameItems(rest, Drain(cmp, rest));
      assert forall y :: y in Drain(cmp, rest) ==> y in Items(Drain(cmp, rest));
      FirstThenRest(cmp, s[0], Drain(cmp, rest));
    }
  }

  lemma {:induction false} PushAllOrders<T(!new)>(cmp: (T, T) -> int, s: seq<T>, xs: seq<T>)
    requires PreorderOn(cmp, Items(s) + Items(xs)) && HeapOrdered(cmp, s)
    ensures HeapOrdered(cmp, PushAll(cmp, s, xs))
    decreases |xs|
  {
    if xs != [] {
      var t := Push(cmp, s, xs[0]);
      PreorderOnSubset(cmp, Items(s) + Items(xs), Items(s) + {xs[0]});
      PushKeepsOrder(cmp, s, xs[0]);
      forall x | x in t ensures x in Items(s) + Items(xs) {
        assert x in multiset(t);
      }
      PreorderOnSubset(cmp, Items(s) + Items(xs), Items(t) + Items(xs[1..]));
      PushAllOrders(cmp, t, xs[1..]);
    }
  }

  /** Pushing any items and then popping them all lists them in priority order. */
  lemma PushThenDrainSorts<T(!new)>(cmp: (T, T) -> int, xs: seq<T>)
    requires PreorderOn(cmp, Items(xs))
    ensures var r := Drain(cmp, PushAll(cmp, [], xs));
            multiset(r) == multiset(xs) && InPriorityOrder(cmp, r)
  {
    assert Items<T>([]) + Items(xs) == Items(xs);
    PushAllOrders(cmp, [], xs);
    SameItems(PushAll(cmp, [], xs), xs);
    DrainSorts(cmp, PushAll(cmp, [], xs));
  }
}
