/** The binary heap of src/heap.c, seen as functions on the sequence of stored items.

    A comparator answers a positive number when its first argument goes first, as in
    `heap_t::cmp`.  Conservation and termination hold for every comparator.  Order is
    claimed only for comparators that are total preorders on the stored items. */
module HeapOrder {

  // ---------- Index arithmetic ----------

  function Left(n: nat): nat { 2 * n + 1 }

  function Right(n: nat): nat { 2 * n + 2 }

  function Parent(n: nat): nat
    requires n > 0
  {
    if n % 2 == 1 then (n - 1) / 2 else (n - 2) / 2
  }

  /** The three index macros describe one binary tree. */
  lemma ParentInvertsChildren(n: nat)
    ensures Parent(Left(n)) == n == Parent(Right(n))
    ensures n > 0 ==> Parent(n) < n && (n == Left(Parent(n)) || n == Right(Parent(n)))
    ensures forall c :: c > 0 && Parent(c) == n ==> c == Left(n) || c == Right(n)
  {
  }

  /** Distance of a node from the root. */
  function Depth(n: nat): nat {
    if n == 0 then 0 else 1 + Depth(Parent(n))
  }

  function Pow2(n: nat): nat {
    if n == 0 then 1 else 2 * Pow2(n - 1)
  }

  /** `Depth(n)` is the floor of the base-2 logarithm of `n + 1`. */
  lemma {:induction false} DepthIsLog2(n: nat)
    ensures Pow2(Depth(n)) <= n + 1 < Pow2(Depth(n) + 1)
  {
    if n > 0 {
      DepthIsLog2(Parent(n));
    }
  }

  lemma {:induction false} DepthMonotone(m: nat, n: nat)
    requires m <= n
    ensures Depth(m) <= Depth(n)
  {
    if m > 0 {
      DepthMonotone(Parent(m), Parent(n));
    }
  }

  // ---------- Order ----------

  /** `cmp` is a total preorder on `items`, "positive" meaning "goes first". */
  ghost predicate PreorderOn<T(!new)>(cmp: (T, T) -> int, items: set<T>) {
    && AntisymmetricOn(cmp, items)
    && forall x, y, z {:trigger TransitiveAt(cmp, x, y, z)} ::
         x in items && y in items && z in items ==> TransitiveAt(cmp, x, y, z)
  }

  ghost predicate TransitiveAt<T>(cmp: (T, T) -> int, x: T, y: T, z: T) {
    cmp(x, y) >= 0 && cmp(y, z) >= 0 ==> cmp(x, z) >= 0
  }

  ghost predicate AntisymmetricOn<T(!new)>(cmp: (T, T) -> int, items: set<T>) {
    forall x, y :: x in items && y in items ==> (cmp(x, y) > 0 <==> cmp(y, x) < 0)
  }

  ghost function Items<T>(s: seq<T>): set<T> {
    set x | x in s
  }

  /** The item at `i` does not beat the item at its parent. */
  ghost predicate EdgeOk<T>(cmp: (T, T) -> int, s: seq<T>, i: nat)
    requires 0 < i < |s|
  {
    cmp(s[i], s[Parent(i)]) <= 0
  }

  ghost predicate HeapOrdered<T>(cmp: (T, T) -> int, s: seq<T>) {
    forall i :: 0 < i < |s| ==> EdgeOk(cmp, s, i)
  }

  /** Every edge is in order except, perhaps, the one from `node` to its parent. */
  ghost predicate OnlyBadEdge<T>(cmp: (T, T) -> int, s: seq<T>, node: nat) {
    forall i :: 0 < i < |s| && i != node ==> EdgeOk(cmp, s, i)
  }

  /** The children of `node` do not beat the parent of `node`. */
  ghost predicate BypassOk<T>(cmp: (T, T) -> int, s: seq<T>, node: nat) {
    forall i :: 0 < i < |s| && Parent(i) == node > 0 && Parent(node) < |s| ==> cmp(s[i], s[Parent(node)]) <= 0
  }

  /** Every edge is in order except, perhaps, those from `node` to its children. */
  ghost predicate OnlyBadNode<T>(cmp: (T, T) -> int, s: seq<T>, node: nat) {
    && BypassOk(cmp, s, node)
    && forall i :: 0 < i < |s| && Parent(i) != node ==> EdgeOk(cmp, s, i)
  }

  /** No stored item beats the root of an ordered heap. */
  lemma {:induction false} RootIsFirst<T(!new)>(cmp: (T, T) -> int, s: seq<T>, i: nat)
    requires HeapOrdered(cmp, s) && PreorderOn(cmp, Items(s))
    requires i < |s|
    ensures cmp(s[0], s[i]) >= 0 && cmp(s[i], s[0]) <= 0
  {
    assert s[0] in Items(s) && s[i] in Items(s);
    if i > 0 {
      RootIsFirst(cmp, s, Parent(i));
      assert EdgeOk(cmp, s, i) && s[Parent(i)] in Items(s);
      assert TransitiveAt(cmp, s[0], s[Parent(i)], s[i]);
    }
  }

  // ---------- Exchange ----------

  function Swap<T>(s: seq<T>, i: nat, j: nat): (r: seq<T>)
    requires i < |s| && j < |s|
    ensures |r| == |s| && r[i] == s[j] && r[j] == s[i]
    ensures forall k :: 0 <= k < |s| && k != i && k != j ==> r[k] == s[k]
  {
    s[i := s[j]][j := s[i]]
  }

  lemma SwapPermutes<T>(s: seq<T>, i: nat, j: nat)
    requires i < |s| && j < |s|
    ensures multiset(Swap(s, i, j)) == multiset(s)
    ensures Items(Swap(s, i, j)) == Items(s)
  {
    SameItems(s, Swap(s, i, j));
  }

  lemma SameItems<T>(s: seq<T>, t: seq<T>)
    requires multiset(s) == multiset(t)
    ensures Items(s) == Items(t)
  {
    forall x ensures x in s <==> x in t {
      assert x in s <==> x in multiset(s);
      assert x in t <==> x in multiset(t);
    }
  }

  // ---------- up_heap ----------

  /** `up_heap`: the loop body swaps, recurses on the parent, and then the loop tests the
      parent again. */
  function UpHeap<T>(cmp: (T, T) -> int, s: seq<T>, node: nat): (r: seq<T>)
    requires node < |s|
    ensures |r| == |s| && multiset(r) == multiset(s)
    ensures forall k :: node < k < |s| ==> r[k] == s[k]
    decreases node
  {
    if node == 0 || cmp(s[node], s[Parent(node)]) <= 0 then s
    else
      var p := Parent(node);
      SwapPermutes(s, node, p);
      UpHeap(cmp, UpHeap(cmp, Swap(s, node, p), p), p)
  }

  /** Exchanges made by `UpHeap`. */
  function UpHeapSwaps<T>(cmp: (T, T) -> int, s: seq<T>, node: nat): nat
    requires node < |s|
    decreases node
  {
    if node == 0 || cmp(s[node], s[Parent(node)]) <= 0 then 0
    else
      var p := Parent(node);
      var t := Swap(s, node, p);
      1 + UpHeapSwaps(cmp, t, p) + UpHeapSwaps(cmp, UpHeap(cmp, t, p), p)
  }

  /** The textbook sift-up: one walk along the path to the root. */
  function SiftUp<T>(cmp: (T, T) -> int, s: seq<T>, node: nat): (r: seq<T>)
    requires node < |s|
    ensures |r| == |s| && multiset(r) == multiset(s)
    ensures forall k :: node < k < |s| ==> r[k] == s[k]
    decreases node
  {
    if node == 0 || cmp(s[node], s[Parent(node)]) <= 0 then s
    else
      SwapPermutes(s, node, Parent(node));
      SiftUp(cmp, Swap(s, node, Parent(node)), Parent(node))
  }

  /** After a sift-up from `node`, the loop test at `node` fails. */
  lemma SiftUpSettles<T(!new)>(cmp: (T, T) -> int, s: seq<T>, node: nat)
    requires node < |s| && AntisymmetricOn(cmp, Items(s))
    requires forall i :: 0 < i < node ==> EdgeOk(cmp, s, i)
    ensures node > 0 ==> EdgeOk(cmp, SiftUp(cmp, s, node), node)
  {
    if node > 0 && cmp(s[node], s[Parent(node)]) > 0 {
      var p := Parent(node);
      assert s[node] in Items(s) && s[p] in Items(s);
      if p > 0 {
        assert EdgeOk(cmp, s, p);
      }
    }
  }

  /** The recursion does all the work: once it returns, the loop never iterates again.  So
      `up_heap` is a sift-up, each activation swaps at most once, and the number of swaps is
      at most the depth of the node.  Transitivity of the comparator is not needed. */
  lemma {:induction false} UpHeapIsSiftUp<T(!new)>(cmp: (T, T) -> int, s: seq<T>, node: nat)
    requires node < |s| && AntisymmetricOn(cmp, Items(s))
    requires forall i :: 0 < i < node ==> EdgeOk(cmp, s, i)
    ensures UpHeap(cmp, s, node) == SiftUp(cmp, s, node)
    ensures UpHeapSwaps(cmp, s, node) <= Depth(node)
    ensures node > 0 ==>
              var t := Swap(s, node, Parent(node));
              UpHeapSwaps(cmp, UpHeap(cmp, t, Parent(node)), Parent(node)) == 0
    decreases node
  {
    if node > 0 {
      var p := Parent(node);
      var t := Swap(s, node, p);
      SwapPermutes(s, node, p);
      forall i | 0 < i < p ensures EdgeOk(cmp, t, i) {
        assert EdgeOk(cmp, s, i);
      }
      UpHeapIsSiftUp(cmp, t, p);
      SiftUpSettles(cmp, t, p);
    }
  }

  /** One step of a sift-up moves the only bad edge to the parent. */
  lemma SwapMovesBadEdge<T(!new)>(cmp: (T, T) -> int, s: seq<T>, node: nat)
    requires 0 < node < |s| && PreorderOn(cmp, Items(s))
    requires OnlyBadEdge(cmp, s, node) && BypassOk(cmp, s, node)
    requires cmp(s[node], s[Parent(node)]) > 0
    ensures var t := Swap(s, node, Parent(node));
            OnlyBadEdge(cmp, t, Parent(node)) && BypassOk(cmp, t, Parent(node))
  {
    var p := Parent(node);
    var t := Swap(s, node, p);
    assert forall k :: 0 <= k < |s| ==> s[k] in Items(s);
    forall i | 0 < i < |t| && i != p ensures EdgeOk(cmp, t, i) {
      assert i != node ==> EdgeOk(cmp, s, i);
      if Parent(i) == p && i != node {
        assert TransitiveAt(cmp, s[node], s[p], s[i]);
      }
    }
    forall i | 0 < i < |t| && Parent(i) == p > 0 ensures cmp(t[i], t[Parent(p)]) <= 0 {
      assert EdgeOk(cmp, s, p);
      assert i != node ==> EdgeOk(cmp, s, i);
      assert TransitiveAt(cmp, s[Parent(p)], s[p], s[i]);
    }
  }

  lemma {:induction false} SiftUpRestores<T(!new)>(cmp: (T, T) -> int, s: seq<T>, node: nat)
    requires node < |s| && PreorderOn(cmp, Items(s))
    requires OnlyBadEdge(cmp, s, node) && BypassOk(cmp, s, node)
    ensures HeapOrdered(cmp, SiftUp(cmp, s, node))
    decreases node
  {
    if node > 0 && cmp(s[node], s[Parent(node)]) > 0 {
      SwapMovesBadEdge(cmp, s, node);
      SwapPermutes(s, node, Parent(node));
      SiftUpRestores(cmp, Swap(s, node, Parent(node)), Parent(node));
    } else if node > 0 {
      assert EdgeOk(cmp, s, node);
    }
  }

  /** `up_heap` on a heap whose only bad edge leads from `node` to its parent restores heap
      order exactly when that edge was fine after all or the children of `node` do not beat its
      parent.  A leaf has no children, so for the node that `heap_push` passes it always does. */
  lemma UpHeapRestores<T(!new)>(cmp: (T, T) -> int, s: seq<T>, node: nat)
    requires node < |s| && PreorderOn(cmp, Items(s)) && OnlyBadEdge(cmp, s, node)
    ensures HeapOrdered(cmp, UpHeap(cmp, s, node))
            <==> node == 0 || EdgeOk(cmp, s, node) || BypassOk(cmp, s, node)
  {
    UpHeapIsSiftUp(cmp, s, node);
    if node > 0 && EdgeOk(cmp, s, node) {
    } else if node == 0 || BypassOk(cmp, s, node) {
      SiftUpRestores(cmp, s, node);
    } else {
      BypassNeeded(cmp, s, node);
    }
  }

  lemma BypassNeeded<T(!new)>(cmp: (T, T) -> int, s: seq<T>, node: nat)
    requires 0 < node < |s| && !EdgeOk(cmp, s, node) && !BypassOk(cmp, s, node)
    ensures !HeapOrdered(cmp, SiftUp(cmp, s, node))
  {
    var i :| 0 < i < |s| && Parent(i) == node && cmp(s[i], s[Parent(node)]) > 0;
    assert !EdgeOk(cmp, SiftUp(cmp, s, node), i);
  }

  // ---------- down_heap ----------

  /** The child that `down_heap` exchanges with `node`, or `node` itself when it stops. */
  function DownChild<T>(cmp: (T, T) -> int, s: seq<T>, node: nat): (c: nat)
    ensures c == node || (c < |s| && (c == Left(node) || c == Right(node)))
  {
    if Left(node) >= |s| then node
    else if Right(node) >= |s| then
      if cmp(s[node], s[Left(node)]) < 0 then Left(node) else node
    else if cmp(s[Left(node)], s[Right(node)]) >= 0 then
      if cmp(s[node], s[Left(node)]) < 0 then Left(node) else node
    else
      if cmp(s[node], s[Right(node)]) < 0 then Right(node) else node
  }

  function DownHeap<T>(cmp: (T, T) -> int, s: seq<T>, node: nat): (r: seq<T>)
    ensures |r| == |s| && multiset(r) == multiset(s)
    decreases |s| - node
  {
    var c := DownChild(cmp, s, node);
    if c == node then s
    else
      SwapPermutes(s, node, c);
      DownHeap(cmp, Swap(s, node, c), c)
  }

  function DownHeapSwaps<T>(cmp: (T, T) -> int, s: seq<T>, node: nat): nat
    decreases |s| - node
  {
    var c := DownChild(cmp, s, node);
    if c == node then 0 else 1 + DownHeapSwaps(cmp, Swap(s, node, c), c)
  }

  /** Where `down_heap` stops, no child beats the node; where it goes on, the chosen child
      beats the node and is not beaten by its sibling. */
  lemma DownChildIsBest<T(!new)>(cmp: (T, T) -> int, s: seq<T>, node: nat)
    requires node < |s| && PreorderOn(cmp, Items(s))
    ensures var c := DownChild(cmp, s, node);
            if c == node then forall i :: 0 < i < |s| && Parent(i) == node ==> EdgeOk(cmp, s, i)
            else cmp(s[c], s[node]) > 0
                 && forall i :: 0 < i < |s| && Parent(i) == node ==> cmp(s[i], s[c]) <= 0
  {
    assert forall k :: 0 <= k < |s| ==> s[k] in Items(s);
    ParentInvertsChildren(node);
    var c := DownChild(cmp, s, node);
    forall i | 0 < i < |s| && Parent(i) == node
      ensures i == Left(node) || i == Right(node)
      ensures c == node ==> EdgeOk(cmp, s, i)
      ensures c != node ==> cmp(s[i], s[c]) <= 0
    {
      var j := if i == Left(node) then Right(node) else Left(node);
      if j < |s| {
        assert TransitiveAt(cmp, s[node], s[i], s[j]) && TransitiveAt(cmp, s[node], s[j], s[i]);
      }
    }
  }

  lemma {:induction false} DownHeapRestores<T(!new)>(cmp: (T, T) -> int, s: seq<T>, node: nat)
    requires PreorderOn(cmp, Items(s)) && OnlyBadNode(cmp, s, node)
    ensures HeapOrdered(cmp, DownHeap(cmp, s, node))
    decreases |s| - node
  {
    if node < |s| {
      DownChildIsBest(cmp, s, node);
      var c := DownChild(cmp, s, node);
      if c == node {
        assert forall i :: 0 < i < |s| ==> Parent(i) == node || EdgeOk(cmp, s, i);
      } else {
        SwapMovesBadNode(cmp, s, node);
        SwapPermutes(s, node, c);
        DownHeapRestores(cmp, Swap(s, node, c), c);
      }
    } else {
      forall i | 0 < i < |s| ensures EdgeOk(cmp, s, i) {
        assert Parent(i) < i;
      }
    }
  }

  lemma SwapMovesBadNode<T(!new)>(cmp: (T, T) -> int, s: seq<T>, node: nat)
    requires node < |s| && PreorderOn(cmp, Items(s)) && OnlyBadNode(cmp, s, node)
    requires DownChild(cmp, s, node) != node
    ensures var c := DownChild(cmp, s, node);
            OnlyBadNode(cmp, Swap(s, node, c), c)
  {
    var c := DownChild(cmp, s, node);
    var t := Swap(s, node, c);
    assert forall k :: 0 <= k < |s| ==> s[k] in Items(s);
    DownChildIsBest(cmp, s, node);
    ParentInvertsChildren(node);
    forall i | 0 < i < |t| && Parent(i) != c ensures EdgeOk(cmp, t, i) {
      if i == node {
        assert Parent(c) == node;
        assert cmp(s[c], s[Parent(node)]) <= 0;
      } else if Parent(i) == node {
        assert i == c || cmp(s[i], s[c]) <= 0;
      } else {
        assert EdgeOk(cmp, s, i);
      }
    }
    forall i | 0 < i < |t| && Parent(i) == c ensures cmp(t[i], t[Parent(c)]) <= 0 {
      assert EdgeOk(cmp, s, i);
    }
  }

  /** `down_heap` swaps at most once per level below `node`. */
  lemma {:induction false} DownHeapSwapBound<T>(cmp: (T, T) -> int, s: seq<T>, node: nat)
    requires node < |s|
    ensures DownHeapSwaps(cmp, s, node) + Depth(node) <= Depth(|s| - 1)
    decreases |s| - node
  {
    var c := DownChild(cmp, s, node);
    if c == node {
      DepthMonotone(node, |s| - 1);
    } else {
      DownHeapSwapBound(cmp, Swap(s, node, c), c);
      assert Parent(c) == node;
    }
  }

  // ---------- heap_push and heap_pop ----------

  function Push<T>(cmp: (T, T) -> int, s: seq<T>, x: T): (r: seq<T>)
    ensures |r| == |s| + 1 && multiset(r) == multiset(s) + multiset{x}
  {
    UpHeap(cmp, s + [x], |s|)
  }

  /** The root changes places with the last item and leaves. */
  function Detached<T>(s: seq<T>): (r: seq<T>)
    requires |s| > 0
    ensures |r| == |s| - 1 && multiset(s) == multiset(r) + multiset{s[0]}
  {
    var t := Swap(s, 0, |s| - 1);
    SwapPermutes(s, 0, |s| - 1);
    assert t == t[..|s| - 1] + [s[0]];
    t[..|s| - 1]
  }

  /** What `heap_pop` leaves behind; the item it returns is `s[0]`. */
  function Pop<T>(cmp: (T, T) -> int, s: seq<T>): (r: seq<T>)
    requires |s| > 0
    ensures |r| == |s| - 1 && multiset(s) == multiset(r) + multiset{s[0]}
  {
    DownHeap(cmp, Detached(s), 0)
  }

  lemma PushKeepsOrder<T(!new)>(cmp: (T, T) -> int, s: seq<T>, x: T)
    requires HeapOrdered(cmp, s) && PreorderOn(cmp, Items(s) + {x})
    ensures HeapOrdered(cmp, Push(cmp, s, x))
    ensures UpHeapSwaps(cmp, s + [x], |s|) <= Depth(|s|)
  {
    hide UpHeap, UpHeapSwaps;
    var t := s + [x];
    assert Items(t) <= Items(s) + {x};
    forall i | 0 < i < |t| && i != |s| ensures EdgeOk(cmp, t, i) {
      assert EdgeOk(cmp, s, i);
    }
    UpHeapRestores(cmp, t, |s|);
    UpHeapIsSiftUp(cmp, t, |s|);
  }

  lemma DetachedBadAtRoot<T(!new)>(cmp: (T, T) -> int, s: seq<T>)
    requires |s| > 0 && HeapOrdered(cmp, s)
    ensures OnlyBadNode(cmp, Detached(s), 0)
    ensures Items(Detached(s)) <= Items(s)
  {
    var u := Detached(s);
    SwapPermutes(s, 0, |s| - 1);
    assert Items(u) <= Items(Swap(s, 0, |s| - 1));
    forall i | 0 < i < |u| && Parent(i) != 0 ensures EdgeOk(cmp, u, i) {
      assert EdgeOk(cmp, s, i);
    }
  }

  lemma PopKeepsOrder<T(!new)>(cmp: (T, T) -> int, s: seq<T>)
    requires |s| > 0 && HeapOrdered(cmp, s) && PreorderOn(cmp, Items(s))
    ensures HeapOrdered(cmp, Pop(cmp, s))
    ensures |s| > 1 ==> DownHeapSwaps(cmp, Detached(s), 0) <= Depth(|s| - 2)
    ensures Items(Pop(cmp, s)) <= Items(s)
    ensures forall x :: x in s ==> cmp(x, s[0]) <= 0
  {
    hide Detached, HeapOrdered, DownHeap, DownHeapSwaps, OnlyBadNode;
    forall x | x in s ensures cmp(x, s[0]) <= 0 {
      var i :| 0 <= i < |s| && s[i] == x;
      RootIsFirst(cmp, s, i);
    }
    var u := Detached(s);
    DetachedBadAtRoot(cmp, s);
    DownHeapRestores(cmp, u, 0);
    SameItems(u, DownHeap(cmp, u, 0));
    if |u| > 0 {
      DownHeapSwapBound(cmp, u, 0);
    }
  }

  /** Ties: an item that does not beat its parent stays below it. */
  lemma EqualStaysBelow<T>(cmp: (T, T) -> int, s: seq<T>, node: nat)
    requires node < |s| && (node == 0 || cmp(s[node], s[Parent(node)]) <= 0)
    ensures UpHeap(cmp, s, node) == s && UpHeapSwaps(cmp, s, node) == 0
  {
  }

  /** Ties: an item above two children goes down only if one of them beats it, and then to the left
      unless the right child beats the left one. */
  lemma LeftBeforeRight<T>(cmp: (T, T) -> int, s: seq<T>, node: nat)
    requires Right(node) < |s|
    ensures var l, r := 2 * node + 1, 2 * node + 2;
      DownHeap(cmp, s, node)
      == if cmp(s[l], s[r]) >= 0 && cmp(s[node], s[l]) < 0 then DownHeap(cmp, s[node := s[l]][l := s[node]], l)
         else if cmp(s[l], s[r]) < 0 && cmp(s[node], s[r]) < 0 then DownHeap(cmp, s[node := s[r]][r := s[node]], r)
         else s
  {
    OneDown(cmp, s, node);
    hide DownHeap;
  }

  lemma OneDown<T>(cmp: (T, T) -> int, s: seq<T>, node: nat)
    ensures var c := DownChild(cmp, s, node);
            DownHeap(cmp, s, node) == if c == node then s else DownHeap(cmp, Swap(s, node, c), c)
  {
    hide DownChild, Swap;
  }

  lemma PushFirst<T>(cmp: (T, T) -> int, a: T)
    ensures Push(cmp, [], a) == [a]
  {
    assert [] + [a] == [a];
  }

  lemma PopOnly<T>(cmp: (T, T) -> int, a: T)
    ensures Pop(cmp, [a]) == []
  {
    assert Detached([a]) == [];
  }
}
