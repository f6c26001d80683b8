/** The heap object of src/heap.c and src/heap.h: a comparator and a vector that is changed
    in place.  Every method is tied to the function of `HeapOrder` that says what it does to
    the sequence of items. */
module Heaps {
  import opened HeapOrder
  import opened Options
  import opened PriorityQueue
  import opened Vectors

  const INVALID_HEAP_NODE := -1

  class Heap<T(0)> {
    const vec: Vector<T>
    const cmp: (T, T) -> int
    /** Exchanges made so far. */
    ghost var swaps: nat

    ghost predicate Valid()
      reads this, vec
    {
      vec.Valid() && IsPow2(vec.capacity)
    }

    ghost function Contents(): seq<T>
      requires Valid()
      reads this, vec, vec.data
    {
      vec.Contents()
    }

    constructor (cmp: (T, T) -> int)
      ensures Valid() && fresh(vec) && fresh(vec.data)
      ensures this.cmp == cmp && Contents() == [] && swaps == 0 && vec.capacity == 1
    {
      var v := new Vector(0);
      this.vec := v;
      this.cmp := cmp;
      swaps := 0;
    }

    predicate Empty()
      requires Valid()
      reads this, vec, vec.data
      ensures Empty() <==> Contents() == []
    {
      vec.size == 0
    }

    function Peek(): (item: Option<T>)
      requires Valid()
      reads this, vec, vec.data
      ensures item == if Contents() == [] then None else Some(Contents()[0])
    {
      if Empty() then None else Some(vec.data[0])
    }

    function NodeLeft(n: nat): (l: int)
      requires Valid()
      reads this, vec
      ensures l == INVALID_HEAP_NODE <==> Left(n) >= vec.size
      ensures l != INVALID_HEAP_NODE ==> l == Left(n)
    {
      if Left(n) >= vec.size then INVALID_HEAP_NODE else Left(n)
    }

    function NodeRight(n: nat): (r: int)
      requires Valid()
      reads this, vec
      ensures r == INVALID_HEAP_NODE <==> Right(n) >= vec.size
      ensures r != INVALID_HEAP_NODE ==> r == Right(n)
    {
      if Right(n) >= vec.size then INVALID_HEAP_NODE else Right(n)
    }

    /** Only the root has no parent; any other node is the left or the right child of its own. */
    function NodeParent(n: nat): (p: int)
      ensures p == INVALID_HEAP_NODE <==> n == 0
      ensures n > 0 ==> 0 <= p < n && (n == Left(p) || n == Right(p))
    {
      if n != 0 then Parent(n) else INVALID_HEAP_NODE
    }

    method SwapNodes(a: nat, b: nat)
      requires Valid() && a < vec.size && b < vec.size
      modifies vec.data, `swaps
      ensures Valid() && Contents() == Swap(old(Contents()), a, b)
      ensures swaps == old(swaps) + 1
    {
      vec.Exchange(a, b);
      swaps := swaps + 1;
    }

    method UpHeap(start: nat)
      requires Valid() && start < vec.size
      modifies vec.data, `swaps
      ensures Valid() && Contents() == HeapOrder.UpHeap(cmp, old(Contents()), start)
      ensures swaps == old(swaps) + UpHeapSwaps(cmp, old(Contents()), start)
      decreases start
    {
      var node: nat := start;
      while NodeParent(node) != INVALID_HEAP_NODE && cmp(vec.data[node], vec.data[NodeParent(node)]) > 0
        invariant Valid() && node < vec.size && node <= start
        invariant HeapOrder.UpHeap(cmp, Contents(), node) == HeapOrder.UpHeap(cmp, old(Contents()), start)
        invariant swaps + UpHeapSwaps(cmp, Contents(), node)
               == old(swaps) + UpHeapSwaps(cmp, old(Contents()), start)
        decreases node
      {
        var parent := NodeParent(node);
        ghost var before := Contents();
        SwapNodes(node, parent);
        ghost var swapped := Contents();
        assert swapped == Swap(before, node, parent);
        UpHeap(parent);
        node := parent;
      }
    }

    method DownHeap(start: nat)
      requires Valid()
      modifies vec.data, `swaps
      ensures Valid() && Contents() == HeapOrder.DownHeap(cmp, old(Contents()), start)
      ensures swaps == old(swaps) + DownHeapSwaps(cmp, old(Contents()), start)
    {
      var node: int := start;
      while node != INVALID_HEAP_NODE
        invariant Valid() && INVALID_HEAP_NODE <= node
        invariant node == INVALID_HEAP_NODE ==> Contents() == HeapOrder.DownHeap(cmp, old(Contents()), start)
        invariant node == INVALID_HEAP_NODE ==> swaps == old(swaps) + DownHeapSwaps(cmp, old(Contents()), start)
        invariant node != INVALID_HEAP_NODE ==>
          HeapOrder.DownHeap(cmp, Contents(), node) == HeapOrder.DownHeap(cmp, old(Contents()), start)
        invariant node != INVALID_HEAP_NODE ==>
          swaps + DownHeapSwaps(cmp, Contents(), node) == old(swaps) + DownHeapSwaps(cmp, old(Contents()), start)
        decreases node != INVALID_HEAP_NODE, vec.size - node
      {
        var left := NodeLeft(node);
        var right := NodeRight(node);
        var child := INVALID_HEAP_NODE;
        if right == INVALID_HEAP_NODE && left == INVALID_HEAP_NODE {
          return;
        } else if right == INVALID_HEAP_NODE {
          if cmp(vec.data[node], vec.data[left]) < 0 {
            child := left;
          }
        } else if left == INVALID_HEAP_NODE {
          assert false; // a right child comes with a left one
        } else {
          var c := cmp(vec.data[left], vec.data[right]);
          if c >= 0 && cmp(vec.data[node], vec.data[left]) < 0 {
            child := left;
          } else if c < 0 && cmp(vec.data[node], vec.data[right]) < 0 {
            child := right;
          }
        }
        assert DownChild(cmp, Contents(), node) == if child == INVALID_HEAP_NODE then node else child;
        if child != INVALID_HEAP_NODE {
          SwapNodes(node, child);
        }
        node := child;
      }
    }

    method Push(item: T)
      requires Valid()
      modifies vec, vec.data, `swaps
      ensures Valid() && (vec.data == old(vec.data) || fresh(vec.data))
      ensures Contents() == HeapOrder.Push(cmp, old(Contents()), item)
      ensures swaps == old(swaps) + UpHeapSwaps(cmp, old(Contents()) + [item], |old(Contents())|)
      ensures vec.reach == |old(Contents())| + 1
      ensures vec.reach >= vec.capacity <==>
        vec.reach == old(vec.capacity) || (|old(Contents())| == 1 && old(vec.capacity) == 1)
    {
      hide HeapOrder.UpHeap, UpHeapSwaps;
      ghost var before := Contents();
      Attach(item);
      ghost var appended := Contents();
      assert appended == before + [item] && vec.size - 1 == |before|;
      UpHeap(vec.size - 1);
    }

    /** The item enters the vector at the end. */
    method Attach(item: T)
      requires Valid()
      modifies vec, vec.data
      ensures Valid() && (vec.data == old(vec.data) || fresh(vec.data))
      ensures Contents() == old(Contents()) + [item]
      ensures vec.reach == |old(Contents())| + 1
      ensures vec.reach >= vec.capacity <==>
        vec.reach == old(vec.capacity) || (|old(Contents())| == 1 && old(vec.capacity) == 1)
    {
      ResizedKeepsPow2(vec.capacity, vec.size + 1);
      vec.PushBack(item);
    }

    method Pop() returns (item: Option<T>)
      requires Valid()
      modifies vec, vec.data, `swaps
      ensures Valid() && (vec.data == old(vec.data) || fresh(vec.data))
      ensures (Contents(), item) == Apply(cmp, old(Contents()), PopOp)
      ensures item.Some? ==> swaps == old(swaps) + DownHeapSwaps(cmp, Detached(old(Contents())), 0)
    {
      hide HeapOrder.DownHeap, DownHeapSwaps, Detached;
      if Empty() {
        return None;
      }
      var last := DetachRoot();
      DownHeap(0);
      item := Some(last);
    }

    /** The root changes places with the last item and leaves the vector. */
    method DetachRoot() returns (item: T)
      requires Valid() && !Empty()
      modifies vec, vec.data
      ensures Valid() && (vec.data == old(vec.data) || fresh(vec.data))
      ensures item == old(Contents())[0]
      ensures Contents() == Detached(old(Contents()))
    {
      ghost var before := vec.Contents();
      var n := vec.size;
      vec.Exchange(0, n - 1);
      ghost var swapped := vec.Contents();
      assert swapped == Swap(before, 0, n - 1);
      ResizedKeepsPow2(vec.capacity, n - 1);
      item := vec.PopBack();
      assert vec.Contents() == swapped[..n - 1];
    }
  }

  /** The very first push onto a new heap already goes outside the block: it has one slot, and the
      shift loop of the vector writes the slot after it. */
  method FirstPush<T(0)>(cmp: (T, T) -> int, item: T) returns (heap: Heap<T>)
    ensures fresh(heap) && heap.Valid() && heap.Contents() == [item]
    ensures heap.vec.capacity == 1 && heap.vec.reach == 1
  {
    heap := new Heap(cmp);
    heap.Push(item);
    OnlyItem(cmp, item);
  }

  lemma OnlyItem<T>(cmp: (T, T) -> int, item: T)
    ensures Push(cmp, [], item) == [item] && Resized(1, 1) == 1
  {
    PushFirst(cmp, item);
  }
}
