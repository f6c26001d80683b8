/** The growable and shrinking array of src/vector.c. */
module Vectors {

  function Max(a: nat, b: nat): nat {
    if a < b then b else a
  }

  /** The capacity after doubling until `size` items fit. */
  function Grown(capacity: nat, size: nat): nat
    requires capacity >= 1
    decreases size - capacity
  {
    if size > capacity then Grown(2 * capacity, size) else capacity
  }

  /** The capacity after halving while less than half is used. */
  function Shrunk(capacity: nat, size: nat): nat {
    if capacity > 4 && size < capacity / 2 then Shrunk(capacity / 2, size) else capacity
  }

  function Resized(capacity: nat, size: nat): nat
    requires capacity >= 1
  {
    if size > capacity then Grown(capacity, size) else Shrunk(capacity, size)
  }

  /** The room a vector may occupy: never less than its items, never much more than twice. */
  ghost predicate SpaceBound(capacity: nat, size: nat) {
    1 <= capacity && size <= capacity <= Max(4, 2 * size + 1)
  }

  lemma {:induction false} GrownFits(capacity: nat, size: nat)
    requires 1 <= capacity < size
    ensures size <= Grown(capacity, size) <= 2 * size - 2
    decreases size - capacity
  {
    if size > 2 * capacity {
      GrownFits(2 * capacity, size);
    }
  }

  lemma {:induction false} ShrunkFits(capacity: nat, size: nat)
    requires 1 <= capacity && size <= capacity
    ensures SpaceBound(Shrunk(capacity, size), size)
    ensures Shrunk(capacity, size) <= capacity
  {
    if capacity > 4 && size < capacity / 2 {
      ShrunkFits(capacity / 2, size);
    }
  }

  /** Any resize, from any capacity whatever, ends within the space bound. */
  lemma ResizedFits(capacity: nat, size: nat)
    requires 1 <= capacity
    ensures SpaceBound(Resized(capacity, size), size)
  {
    if size > capacity {
      GrownFits(capacity, size);
    } else {
      ShrunkFits(capacity, size);
    }
  }

  /** `r` is the capacity doubled any number of times. */
  ghost predicate Doubled(capacity: nat, r: nat)
    requires capacity >= 1
    decreases r - capacity
  {
    r == capacity || (r >= 2 * capacity && Doubled(2 * capacity, r))
  }

  /** Exactly when a capacity changes, and to what: it grows by doubling and no further than needed;
      it shrinks, if it is more than 4 and less than half of it is used, to a capacity that would
      not shrink again, by halving what would have. */
  lemma {:induction false} ResizedMeaning(capacity: nat, size: nat)
    requires 1 <= capacity
    ensures var r := Resized(capacity, size);
      && (size > capacity ==> Doubled(capacity, r) && size <= r < 2 * size)
      && (size <= capacity ==>
            && (r == capacity <==> capacity <= 4 || size >= capacity / 2)
            && (r <= 4 || size >= r / 2)
            && (r < capacity ==> r >= 2 && size < r))
  {
    if size > capacity {
      GrownMeaning(capacity, size);
    } else {
      ShrunkMeaning(capacity, size);
    }
  }

  lemma {:induction false} GrownMeaning(capacity: nat, size: nat)
    requires 1 <= capacity < size
    ensures var r := Grown(capacity, size); Doubled(capacity, r) && size <= r < 2 * size
    decreases size - capacity
  {
    if size > 2 * capacity {
      GrownMeaning(2 * capacity, size);
    } else {
      assert Grown(2 * capacity, size) == 2 * capacity;
    }
  }

  lemma {:induction false} ShrunkMeaning(capacity: nat, size: nat)
    requires 1 <= capacity && size <= capacity
    ensures var r := Shrunk(capacity, size);
      && (r == capacity <==> capacity <= 4 || size >= capacity / 2)
      && (r <= 4 || size >= r / 2)
      && (r < capacity ==> r >= 2 && size < r)
    ensures Shrunk(capacity, size) <= capacity
  {
    if capacity > 4 && size < capacity / 2 {
      ShrunkMeaning(capacity / 2, size);
    }
  }

  ghost predicate IsPow2(n: nat) {
    n == 1 || (n > 1 && n % 2 == 0 && IsPow2(n / 2))
  }

  /** A capacity that is a power of two stays one; every heap starts at capacity 1. */
  lemma {:induction false} ResizedKeepsPow2(capacity: nat, size: nat)
    requires IsPow2(capacity)
    ensures IsPow2(Resized(capacity, size))
    decreases if size > capacity then size - capacity else capacity
  {
    if size > capacity {
      assert 2 * capacity / 2 == capacity && IsPow2(2 * capacity);
      if size > 2 * capacity {
        ResizedKeepsPow2(2 * capacity, size);
      } else {
        assert Grown(2 * capacity, size) == 2 * capacity;
      }
    } else if capacity > 4 && size < capacity / 2 {
      ResizedKeepsPow2(capacity / 2, size);
    }
  }

  /** When a block that has been made ready for one more item is completely full. */
  lemma FullAfterInsertIff(capacity: nat, size: nat)
    requires SpaceBound(capacity, size)
    ensures Resized(capacity, size + 1) == size + 1
            <==> size + 1 == capacity || (size == 1 && capacity == 1)
  {
    if size + 1 <= capacity {
      ShrunkStays(capacity, size + 1);
    } else {
      assert Grown(2 * capacity, size + 1) == 2 * capacity;
    }
  }

  /** Halving never goes as far as to fill the block. */
  lemma {:induction false} ShrunkStays(capacity: nat, size: nat)
    requires 1 <= size <= capacity
    ensures Shrunk(capacity, size) == size <==> capacity == size
  {
    if capacity > 4 && size < capacity / 2 {
      ShrunkStays(capacity / 2, size);
    }
  }

  lemma InsertedAt<T>(before: seq<T>, after: seq<T>, i: nat)
    requires i <= |before| && |after| == |before| + 1
    requires forall k :: 0 <= k < i ==> after[k] == before[k]
    requires forall k :: i < k < |after| ==> after[k] == before[k - 1]
    ensures after == before[..i] + [after[i]] + before[i..]
  {
  }

  lemma RemovedAt<T>(before: seq<T>, after: seq<T>, i: nat)
    requires i < |before| && |after| == |before| - 1
    requires forall k :: 0 <= k < i ==> after[k] == before[k]
    requires forall k :: i <= k < |after| ==> after[k] == before[k + 1]
    ensures after == before[..i] + before[i + 1..]
  {
  }

  class Vector<T(0)> {
    /** One slot longer than `capacity`: the shift loops of insert and remove touch the slot
        just past the last item, which can be slot `capacity`. */
    var data: array<T>
    var size: nat
    var capacity: nat
    /** The highest slot that the last insert or remove has touched. */
    ghost var reach: nat

    ghost predicate Valid()
      reads this
    {
      SpaceBound(capacity, size) && data.Length == capacity + 1
    }

    ghost function Contents(): seq<T>
      requires Valid()
      reads this, data
    {
      data[..size]
    }

    constructor (initialSize: nat)
      ensures Valid() && fresh(data)
      ensures size == initialSize && capacity == Max(initialSize, 1)
    {
      reach := 0;
      size := initialSize;
      capacity := if initialSize > 1 then initialSize else 1;
      data := new T[(if initialSize > 1 then initialSize else 1) + 1];
    }

    /** `lothar_realloc`: a block of the new capacity that keeps the items in common. */
    method Reallocate(keep: nat)
      requires keep <= capacity && keep <= data.Length
      modifies `data
      ensures fresh(data) && data.Length == capacity + 1
      ensures data[..keep] == old(data[..keep])
    {
      var block := new T[capacity + 1];
      var k := 0;
      while k < keep
        invariant k <= keep && data == old(data) && fresh(block)
        invariant block[..k] == data[..k]
      {
        block[k] := data[k];
        k := k + 1;
      }
      data := block;
    }

    method Resize(newSize: nat)
      requires Valid()
      modifies `size, `capacity, `data
      ensures Valid() && size == newSize && capacity == Resized(old(capacity), newSize)
      ensures data == old(data) || fresh(data)
      ensures forall k :: 0 <= k < old(size) && k < newSize ==> data[k] == old(data[k])
    {
      ResizedFits(capacity, newSize);
      if newSize > capacity {
        while newSize > capacity
          invariant 1 <= capacity && Grown(capacity, newSize) == Grown(old(capacity), newSize)
          invariant old(capacity) <= capacity && size == old(size) && data == old(data)
          decreases newSize - capacity
        {
          capacity := 2 * capacity;
        }
        Reallocate(size);
        assert forall k :: 0 <= k < old(size) ==> data[k] == data[..old(size)][k];
        size := newSize;
      } else {
        ghost var before := data[..newSize];
        size := newSize;
        if capacity > 4 && size < capacity / 2 {
          while capacity > 4 && size < capacity / 2
            invariant size <= capacity <= old(capacity) && 1 <= capacity
            invariant size == newSize && data == old(data)
            invariant Shrunk(capacity, size) == Shrunk(old(capacity), size)
            decreases capacity
          {
            capacity := capacity / 2;
          }
          Reallocate(size);
          assert forall k :: 0 <= k < newSize ==> data[k] == before[k];
        }
      }
    }

    method Insert(i: nat, item: T)
      requires Valid() && i <= size
      modifies this, data
      ensures Valid() && (data == old(data) || fresh(data))
      ensures Contents() == old(Contents())[..i] + [item] + old(Contents())[i..]
      ensures capacity == Resized(old(capacity), old(size) + 1)
      // the loop goes one slot too far, and exactly when is that outside the block
      ensures reach == old(size) + 1
      ensures reach >= capacity <==>
        old(size) + 1 == old(capacity) || (old(size) == 1 && old(capacity) == 1)
    {
      FullAfterInsertIff(capacity, size);
      hide Resized;
      ghost var before := Contents();
      reach := 0;
      Resize(size + 1);
      assert forall k :: 0 <= k < |before| ==> data[k] == before[k];
      var j := size;
      while j > i
        invariant i <= j <= size && Valid() && size == |before| + 1
        invariant data == old(data) || fresh(data)
        invariant capacity == Resized(old(capacity), old(size) + 1)
        invariant forall k :: 0 <= k < j && k < |before| ==> data[k] == before[k]
        invariant forall k :: j < k < size ==> data[k] == before[k - 1]
        invariant reach == if j == size then 0 else size
      {
        data[j] := data[j - 1];
        reach := Max(reach, j);
        j := j - 1;
      }
      data[i] := item;
      reach := Max(reach, i);
      InsertedAt(before, Contents(), i);
    }

    method Remove(at: nat) returns (item: T)
      requires Valid() && at < size
      modifies this, data
      ensures Valid() && (data == old(data) || fresh(data))
      ensures item == old(Contents())[at]
      ensures Contents() == old(Contents())[..at] + old(Contents())[at + 1..]
      ensures capacity == Resized(old(capacity), old(size) - 1)
      // the loop goes one slot too far, which is outside the block exactly when that was full
      ensures reach == old(size)
      ensures reach >= old(capacity) <==> old(size) == old(capacity)
    {
      hide Resized;
      ghost var before := Contents();
      item := data[at];
      reach := at;
      var i := at;
      while i < size
        invariant at <= i <= size == |before| && Valid()
        invariant data == old(data) && capacity == old(capacity)
        invariant forall k :: 0 <= k < at ==> data[k] == before[k]
        invariant forall k :: at <= k < i && k + 1 < |before| ==> data[k] == before[k + 1]
        invariant forall k :: i <= k < size ==> data[k] == before[k]
        invariant reach == i
      {
        data[i] := data[i + 1];
        reach := Max(reach, i + 1);
        i := i + 1;
      }
      ghost var shifted := data[..size];
      Resize(size - 1);
      assert forall k :: 0 <= k < size ==> data[k] == shifted[k];
      RemovedAt(before, Contents(), at);
    }

    method Exchange(a: nat, b: nat)
      requires Valid() && a < size && b < size
      modifies data
      ensures Contents() == old(Contents())[a := old(Contents())[b]][b := old(Contents())[a]]
    {
      if a != b {
        var tmp := data[a];
        data[a] := data[b];
        data[b] := tmp;
      }
    }

    method PushBack(item: T)
      requires Valid()
      modifies this, data
      ensures Valid() && (data == old(data) || fresh(data))
      ensures Contents() == old(Contents()) + [item]
      ensures capacity == Resized(old(capacity), old(size) + 1)
      ensures reach == old(size) + 1
      ensures reach >= capacity <==>
        old(size) + 1 == old(capacity) || (old(size) == 1 && old(capacity) == 1)
    {
      Insert(size, item);
    }

    method PopBack() returns (item: T)
      requires Valid() && size > 0
      modifies this, data
      ensures Valid() && (data == old(data) || fresh(data))
      ensures item == old(Contents())[old(size) - 1]
      ensures Contents() == old(Contents())[..old(size) - 1]
      ensures capacity == Resized(old(capacity), old(size) - 1)
      ensures reach == old(size) && (reach >= old(capacity) <==> old(size) == old(capacity))
    {
      item := Remove(size - 1);
    }
  }
}
